/** `pm mitigate apply` and `revert` over whole runs: what the snapshot file remembers and
    what a revert puts back. */
module Mitigate {
  import opened Text
  import opened StateStore

  // --- The settings of the machine -----------------------------------------------------

  datatype Reading = Reading(ac: U32, dc: U32)

  /** Power settings by scheme and setting, and the values of the crash-control key. */
  datatype World = World(power: map<(string, string), Reading>, registry: map<string, U32>)

  datatype Cell = PowerCell(scheme: string, setting: string) | RegistryCell(name: string)

  /** How a write ends; a power setting can be left with only its AC half written. */
  datatype Outcome = Done | Failed | Half

  /** What a cell holds, if it is there. */
  function Lookup(w: World, cell: Cell): Option<Reading> {
    match cell
    case PowerCell(scheme, setting) =>
      if (scheme, setting) in w.power then Some(w.power[(scheme, setting)]) else None
    case RegistryCell(name) =>
      if name in w.registry then Some(Reading(w.registry[name], 0)) else None
  }

  function Write(w: World, cell: Cell, r: Reading, outcome: Outcome): World {
    match cell
    case PowerCell(scheme, setting) =>
      (match outcome
       case Done => w.(power := w.power[(scheme, setting) := r])
       case Failed => w
       case Half =>
         var dc: U32 := if Lookup(w, cell).Some? then Lookup(w, cell).value.dc else 0;
         w.(power := w.power[(scheme, setting) := Reading(r.ac, dc)]))
    case RegistryCell(name) =>
      if outcome.Done? then w.(registry := w.registry[name := r.ac]) else w
  }

  /** How much of a cell a read gets; the half of a power setting that cannot be read counts
      as zero. */
  datatype Sight = Full | AcOnly | DcOnly | Blind

  function Gets(held: Option<Reading>, cell: Cell, sight: Sight): Option<Reading> {
    if held.None? then None else
    match sight
    case Full => held
    case AcOnly => Some(Reading(held.value.ac, 0))
    case DcOnly => if cell.PowerCell? then Some(Reading(0, held.value.dc)) else None
    case Blind => None
  }

  /** A power setting of which one half cannot be read is read with zero in that half; a registry
      value has but one. */
  lemma {:induction false} HalvesRead(ac: U32, dc: U32, cell: Cell)
    ensures cell.PowerCell? ==> Gets(Some(Reading(ac, dc)), cell, AcOnly) == Some(Reading(ac, 0))
    ensures cell.PowerCell? ==> Gets(Some(Reading(ac, dc)), cell, DcOnly) == Some(Reading(0, dc))
    ensures cell.RegistryCell? ==> Gets(Some(Reading(ac, dc)), cell, DcOnly).None?
    ensures Gets(Some(Reading(ac, dc)), cell, Full) == Some(Reading(ac, dc))
            && Gets(Some(Reading(ac, dc)), cell, Blind).None?
  {
  }

  // --- The six mitigations ----------------------------------------------------------------

  datatype Kind = PowerSetting | CrashControl

  datatype Mitigation = Mitigation(name: string, kind: Kind, setting: string, target: Reading)

  function Mitigations(): seq<Mitigation> {
    [ Mitigation("max-cpu-99", PowerSetting, "bc5038f7-23e0-4960-96da-33abaf5935ec", Reading(99, 99)),
      Mitigation("min-cpu-100", PowerSetting, "893dee8e-2bef-41e0-89c6-b55d0929964c", Reading(100, 100)),
      Mitigation("idle-disable", PowerSetting, "5d76a2ca-e8c0-402f-a133-2158492d58ad", Reading(1, 1)),
      Mitigation("idle-promote", PowerSetting, "7b224883-b3cc-4d79-819f-8374152cbe7c", Reading(100, 100)),
      Mitigation("dumps-on", CrashControl, "", Reading(1, 1)),
      Mitigation("nmi-dump", CrashControl, "", Reading(1, 1)) ]
  }

  function FindIn(list: seq<Mitigation>, name: string): Option<Mitigation> {
    if list == [] then None
    else if list[0].name == name then Some(list[0])
    else FindIn(list[1..], name)
  }

  function Find(name: string): (r: Option<Mitigation>) { FindIn(Mitigations(), name) }

  const CRASH_CONTROL_SCOPE := "HKLM\\SYSTEM\\CurrentControlSet\\Control\\CrashControl"

  datatype Change = Change(key: string, target: U32)

  /** The registry values a crash-control mitigation sets. */
  function Changes(name: string): seq<Change> {
    if name == "dumps-on" then [Change("CrashDumpEnabled", 2), Change("AutoReboot", 0)]
    else [Change("NMICrashDump", 1), Change("CrashOnCtrlScroll", 1)]
  }

  /** The cells a mitigation may touch. */
  predicate Owns(m: Mitigation, cell: Cell) {
    match m.kind
    case PowerSetting => cell.PowerCell? && cell.setting == m.setting
    case CrashControl => cell.RegistryCell? && exists c <- Changes(m.name) :: c.key == cell.name
  }

  // --- Commands ------------------------------------------------------------------------------

  datatype Scheme = Scheme(guid: string, name: string)

  /** What one invocation meets: the caller's rights and answers, the schemes there are, whether
      a state file that is there can be read, and how each read, each write, the save and the
      clock turn out. */
  datatype Session = Session(
    elevated: bool,
    confirmed: bool,
    schemes: seq<Scheme>,
    option: Option<string>,
    path: string,
    readable: bool,
    sight: Cell -> Sight,
    outcome: Cell -> Outcome,
    saved: bool,
    clock: nat -> int)

  datatype Command =
    | Apply(name: string, session: Session)
    | Revert(name: string, session: Session)
    | External(world: World)   // anything else changes the settings

  datatype Machine = Machine(world: World, file: Option<string>)

  function Selected(schemes: seq<Scheme>, wanted: string): seq<Scheme> {
    if schemes == [] then [] else
    var n := |schemes| - 1;
    Selected(schemes[..n], wanted)
    + if schemes[n].guid == wanted || schemes[n].name == wanted then [schemes[n]] else []
  }

  /** The schemes to touch; none when the option names none. */
  function Targets(s: Session): seq<Scheme> {
    if s.option.None? || s.option.value == "all" then s.schemes else Selected(s.schemes, s.option.value)
  }

  predicate NoScheme(s: Session) {
    s.option.Some? && s.option.value != "all" && Selected(s.schemes, s.option.value) == []
  }

  /** What reading the state file gives; a failed read is taken for an absent file. */
  function Seen(m: Machine, s: Session): Option<string> { if s.readable then m.file else None }

  function Loaded(m: Machine, s: Session, other: string -> int): Option<seq<StateEntry>> {
    if s.path == "" then None
    else if Seen(m, s).None? then Some([])
    else LoadText(Seen(m, s).value, other)
  }

  function PowerShot(m: Mitigation, scheme: Scheme, r: Reading, at: int): StateEntry {
    StateEntry(m.name, "power", scheme.guid, scheme.name, m.setting, true, r.ac, r.dc, at)
  }

  function RegistryShot(name: string, c: Change, r: Option<Reading>, at: int): StateEntry {
    StateEntry(name, "registry", CRASH_CONTROL_SCOPE, "", c.key, r.Some?, if r.Some? then r.value.ac else 0, 0, at)
  }

  /** What a session reads of a cell, if anything. */
  function Read(w: World, cell: Cell, s: Session): Option<Reading> { Gets(Lookup(w, cell), cell, s.sight(cell)) }

  /** Scheme by scheme: read, remember, write; unreadable ones are skipped. */
  function ApplyPower(m: Mitigation, targets: seq<Scheme>, w: World, s: Session): (World, seq<StateEntry>) {
    if targets == [] then (w, []) else
    var n := |targets| - 1;
    var (w1, shots) := ApplyPower(m, targets[..n], w, s);
    var cell := PowerCell(targets[n].guid, m.setting);
    if Read(w1, cell, s).None? then (w1, shots)
    else (Write(w1, cell, m.target, s.outcome(cell)),
          shots + [PowerShot(m, targets[n], Read(w1, cell, s).value, s.clock(|shots|))])
  }

  /** All values are read before the first is written. */
  function ApplyRegistry(name: string, changes: seq<Change>, w: World, s: Session): (World, seq<StateEntry>) {
    if changes == [] then (w, []) else
    var n := |changes| - 1;
    var (w1, shots) := ApplyRegistry(name, changes[..n], w, s);
    var cell := RegistryCell(changes[n].key);
    (Write(w1, cell, Reading(changes[n].target, 0), s.outcome(cell)),
     shots + [RegistryShot(name, changes[n], Read(w, cell, s), s.clock(|shots|))])
  }

  function ApplyAll(m: Mitigation, w: World, s: Session): (World, seq<StateEntry>) {
    if m.kind.PowerSetting? then ApplyPower(m, Targets(s), w, s)
    else ApplyRegistry(m.name, Changes(m.name), w, s)
  }

  function Restore(w: World, e: StateEntry, outcome: Cell -> Outcome): World {
    if e.kind == "power" then
      Write(w, PowerCell(e.scope, e.key), Reading(e.previousAc, e.previousDc), outcome(PowerCell(e.scope, e.key)))
    else if e.kind == "registry" && e.previousPresent then
      Write(w, RegistryCell(e.key), Reading(e.previousAc, 0), outcome(RegistryCell(e.key)))
    else w
  }

  function RestoreAll(w: World, entries: seq<StateEntry>, outcome: Cell -> Outcome): World {
    if entries == [] then w else
    var n := |entries| - 1;
    Restore(RestoreAll(w, entries[..n], outcome), entries[n], outcome)
  }

  function AddAll(entries: seq<StateEntry>, shots: seq<StateEntry>): seq<StateEntry> {
    if shots == [] then entries else
    var n := |shots| - 1;
    Added(AddAll(entries, shots[..n]), shots[n])
  }

  /** What comes before either action: a known name, rights, a scheme, a readable file. */
  predicate Ready(m: Machine, name: string, s: Session, other: string -> int) {
    Find(name).Some? && s.elevated && !NoScheme(s) && Loaded(m, s, other).Some?
  }

  predicate Applies(m: Machine, name: string, s: Session, other: string -> int) {
    Ready(m, name, s, other) && s.confirmed
    && (Find(name).value.kind.CrashControl? ==> Read(m.world, RegistryCell("CrashDumpEnabled"), s).Some?)
  }

  predicate Reverts(m: Machine, name: string, s: Session, other: string -> int) {
    Ready(m, name, s, other) && s.confirmed && EntriesOf(Loaded(m, s, other).value, name) != []
  }

  function Saved(m: Machine, entries: seq<StateEntry>, s: Session): Option<string> {
    if s.saved then Some(StateText(entries)) else m.file
  }

  function Step(m: Machine, c: Command, other: string -> int): Machine {
    match c
    case External(w) => m.(world := w)
    case Apply(name, s) =>
      if !Applies(m, name, s, other) then m else
      var (w, shots) := ApplyAll(Find(name).value, m.world, s);
      Machine(w, Saved(m, AddAll(Loaded(m, s, other).value, shots), s))
    case Revert(name, s) =>
      if !Reverts(m, name, s, other) then m else
      var entries := Loaded(m, s, other).value;
      Machine(RestoreAll(m.world, EntriesOf(entries, name), s.outcome), Saved(m, Without(entries, name), s))
  }

  function Run(m: Machine, commands: seq<Command>, other: string -> int): Machine {
    if commands == [] then m else
    var n := |commands| - 1;
    Step(Run(m, commands[..n], other), commands[n], other)
  }

  // --- What a revert ought to put back ----------------------------------------------------

  /** The apply goes through and reaches the cell. */
  ghost predicate Touches(m: Machine, name: string, cell: Cell, s: Session, other: string -> int) {
    && Applies(m, name, s, other) && Owns(Find(name).value, cell)
    && (cell.PowerCell? ==> Read(m.world, cell, s).Some? && exists t <- Targets(s) :: t.guid == cell.scheme)
  }

  /** There is a state file and it cannot be read. */
  predicate Unread(m: Machine, s: Session) { m.file.Some? && !s.readable }

  /** What the first recorded apply of the mitigation that touched the cell read of it (what it
      held, if read in full) since the mitigation's last recorded revert, or since any apply
      that saved over a state file it could not read; taken from the whole run. */
  ghost function Original(start: Machine, run: seq<Command>, name: string, cell: Cell, other: string -> int)
    : Option<Option<Reading>>
  {
    if run == [] then None else
    var n := |run| - 1;
    Update(Original(start, run[..n], name, cell, other), Run(start, run[..n], other), run[n], name, cell, other)
  }

  /** One more command, met by machine `m`. */
  ghost function Update(kept: Option<Option<Reading>>, m: Machine, c: Command, name: string, cell: Cell,
                        other: string -> int)
    : Option<Option<Reading>>
  {
    match c
    case External(_) => kept
    case Apply(n, s) =>
      if !s.saved || !Applies(m, n, s, other) then kept else
      var base := if Unread(m, s) then None else kept;
      if n == name && base.None? && Touches(m, n, cell, s, other) then Some(Read(m.world, cell, s)) else base
    case Revert(n, s) => if n == name && s.saved && Reverts(m, n, s, other) then None else kept
  }

  // --- What the file remembers ----------------------------------------------------------------

  ghost function CellOf(e: StateEntry): Cell {
    if e.kind == "power" then PowerCell(e.scope, e.key) else RegistryCell(e.key)
  }

  ghost function Previous(e: StateEntry): Option<Reading> {
    if e.previousPresent then Some(Reading(e.previousAc, e.previousDc)) else None
  }

  ghost predicate IsFor(e: StateEntry, name: string, cell: Cell) { e.mitigation == name && CellOf(e) == cell }

  /** The first entry for a mitigation and a cell. */
  ghost function Stored(entries: seq<StateEntry>, name: string, cell: Cell): Option<Option<Reading>> {
    if entries == [] then None else
    var n := |entries| - 1;
    var r := Stored(entries[..n], name, cell);
    if r.Some? then r else if IsFor(entries[n], name, cell) then Some(Previous(entries[n])) else None
  }

  /** An entry this tool writes. */
  ghost predicate Proper(e: StateEntry) {
    && Find(e.mitigation).Some? && Owns(Find(e.mitigation).value, CellOf(e))
    && if Find(e.mitigation).value.kind.PowerSetting? then e.kind == "power" && e.previousPresent
       else e.kind == "registry" && e.scope == CRASH_CONTROL_SCOPE && e.previousDc == 0
  }

  ghost predicate AllProper(entries: seq<StateEntry>) { forall i | 0 <= i < |entries| :: Proper(entries[i]) }

  /** At most one entry for a mitigation and a cell. */
  ghost predicate OneEach(entries: seq<StateEntry>) {
    forall i, j | 0 <= i < j < |entries| ::
      !(entries[i].mitigation == entries[j].mitigation && CellOf(entries[i]) == CellOf(entries[j]))
  }

  lemma {:induction false} ProperSlot(a: StateEntry, b: StateEntry)
    requires Proper(a) && Proper(b)
    ensures SameSlot(a, b) <==> a.mitigation == b.mitigation && CellOf(a) == CellOf(b)
  {
  }

  lemma {:induction false} StoredSome(entries: seq<StateEntry>, name: string, cell: Cell)
    ensures Stored(entries, name, cell).Some? <==> exists i | 0 <= i < |entries| :: IsFor(entries[i], name, cell)
  {
    if entries != [] {
      var n := |entries| - 1;
      StoredSome(entries[..n], name, cell);
      if IsFor(entries[n], name, cell) { assert IsFor(entries[n], name, cell); }
      if i :| 0 <= i < n && IsFor(entries[..n][i], name, cell) { assert IsFor(entries[i], name, cell); }
      if i :| 0 <= i < n && IsFor(entries[i], name, cell) { assert IsFor(entries[..n][i], name, cell); }
    }
  }

  ghost function Or<T>(a: Option<T>, b: Option<T>): Option<T> { if a.Some? then a else b }

  ghost function Told(e: StateEntry, name: string, cell: Cell): Option<Option<Reading>> {
    if IsFor(e, name, cell) then Some(Previous(e)) else None
  }

  lemma {:induction false} SlotTaken(entries: seq<StateEntry>, e: StateEntry)
    requires AllProper(entries) && Proper(e)
    ensures (exists x <- entries :: SameSlot(x, e)) <==> Stored(entries, e.mitigation, CellOf(e)).Some?
  {
    StoredSome(entries, e.mitigation, CellOf(e));
    forall i | 0 <= i < |entries| ensures SameSlot(entries[i], e) <==> IsFor(entries[i], e.mitigation, CellOf(e)) {
      ProperSlot(entries[i], e);
    }
    if x :| x in entries && SameSlot(x, e) {
      var i :| 0 <= i < |entries| && entries[i] == x;
      assert IsFor(entries[i], e.mitigation, CellOf(e));
    }
  }

  lemma {:induction false} OneMore(entries: seq<StateEntry>, e: StateEntry)
    requires AllProper(entries) && Proper(e) && OneEach(entries) && Stored(entries, e.mitigation, CellOf(e)).None?
    ensures AllProper(entries + [e]) && OneEach(entries + [e])
  {
    StoredSome(entries, e.mitigation, CellOf(e));
    forall i | 0 <= i < |entries| ensures !(entries[i].mitigation == e.mitigation && CellOf(entries[i]) == CellOf(e)) {
      assert !IsFor(entries[i], e.mitigation, CellOf(e));
    }
  }

  lemma {:induction false} StoredSnoc(entries: seq<StateEntry>, e: StateEntry, name: string, cell: Cell)
    ensures Stored(entries + [e], name, cell) == Or(Stored(entries, name, cell), Told(e, name, cell))
  {
    assert (entries + [e])[..|entries|] == entries;
  }

  lemma {:induction false} StoredAdded(entries: seq<StateEntry>, e: StateEntry, name: string, cell: Cell)
    requires AllProper(entries) && Proper(e) && OneEach(entries)
    ensures AllProper(Added(entries, e)) && OneEach(Added(entries, e))
    ensures Stored(Added(entries, e), name, cell) == Or(Stored(entries, name, cell), Told(e, name, cell))
  {
    SlotTaken(entries, e);
    if Stored(entries, e.mitigation, CellOf(e)).None? {
      OneMore(entries, e);
      StoredSnoc(entries, e, name, cell);
    }
  }

  lemma {:induction false} StoredAddAll(entries: seq<StateEntry>, shots: seq<StateEntry>, name: string, cell: Cell)
    requires AllProper(entries) && AllProper(shots) && OneEach(entries)
    ensures AllProper(AddAll(entries, shots)) && OneEach(AddAll(entries, shots))
    ensures Stored(AddAll(entries, shots), name, cell) == Or(Stored(entries, name, cell), Stored(shots, name, cell))
  {
    if shots != [] {
      var n := |shots| - 1;
      StoredAddAll(entries, shots[..n], name, cell);
      StoredAdded(AddAll(entries, shots[..n]), shots[n], name, cell);
    }
  }

  /** The reloaded entries under a name that does not unfold by itself. */
  ghost function Again(entries: seq<StateEntry>, other: string -> int): seq<StateEntry> { ReloadedAll(entries, other) }

  lemma {:induction false} ReloadedEntries(entries: seq<StateEntry>, other: string -> int)
    requires forall i | 0 <= i < |entries| :: entries[i].mitigation != ""
    ensures |Again(entries, other)| == |entries|
    ensures forall i | 0 <= i < |entries| :: Again(entries, other)[i] == Reloaded(entries[i], other)
  {
    if entries != [] {
      ReloadedEntries(entries[..|entries| - 1], other);
      LastReloaded(entries, other);
      ImageSnoc(Again(entries[..|entries| - 1], other), Again(entries, other), entries, e => Reloaded(e, other));
    }
  }

  lemma {:induction false} ImageSnoc<T, U>(less: seq<U>, more: seq<U>, source: seq<T>, f: T -> U)
    requires source != [] && |less| == |source| - 1 && forall i | 0 <= i < |less| :: less[i] == f(source[..|less|][i])
    requires more == less + [f(source[|less|])]
    ensures |more| == |source| && forall i | 0 <= i < |source| :: more[i] == f(source[i])
  {
  }

  lemma {:induction false} LastReloaded(entries: seq<StateEntry>, other: string -> int)
    requires entries != [] && entries[|entries| - 1].mitigation != ""
    ensures Again(entries, other) == Again(entries[..|entries| - 1], other) + [Reloaded(entries[|entries| - 1], other)]
  {
  }

  lemma {:induction false} NamedProper(e: StateEntry)
    requires Proper(e)
    ensures e.mitigation != ""
  {
  }

  lemma {:induction false} StoredSame(a: seq<StateEntry>, b: seq<StateEntry>, name: string, cell: Cell)
    requires |a| == |b|
    requires forall i | 0 <= i < |a| :: Told(a[i], name, cell) == Told(b[i], name, cell)
    ensures Stored(a, name, cell) == Stored(b, name, cell)
  {
    if a != [] { StoredSame(a[..|a| - 1], b[..|b| - 1], name, cell); }
  }

  lemma {:induction false} SameEntry(e: StateEntry, name: string, cell: Cell, other: string -> int)
    requires Proper(e)
    ensures Proper(Reloaded(e, other)) && Told(Reloaded(e, other), name, cell) == Told(e, name, cell)
    ensures Reloaded(e, other).mitigation == e.mitigation && CellOf(Reloaded(e, other)) == CellOf(e)
  {
  }

  lemma {:induction false} StoredReloaded(entries: seq<StateEntry>, name: string, cell: Cell, other: string -> int)
    requires AllProper(entries) && OneEach(entries)
    ensures AllProper(Again(entries, other)) && OneEach(Again(entries, other))
    ensures Stored(Again(entries, other), name, cell) == Stored(entries, name, cell)
  {
    forall i | 0 <= i < |entries| ensures entries[i].mitigation != "" { NamedProper(entries[i]); }
    ReloadedEntries(entries, other);
    var again := Again(entries, other);
    forall i | 0 <= i < |entries|
      ensures Proper(again[i]) && Told(again[i], name, cell) == Told(entries[i], name, cell)
      ensures again[i].mitigation == entries[i].mitigation && CellOf(again[i]) == CellOf(entries[i])
    {
      SameEntry(entries[i], name, cell, other);
    }
    StoredSame(again, entries, name, cell);
  }

  lemma {:induction false} WithoutKeeps(entries: seq<StateEntry>, gone: string)
    requires AllProper(entries) && OneEach(entries)
    ensures AllProper(Without(entries, gone)) && OneEach(Without(entries, gone))
    ensures forall e <- Without(entries, gone) :: e in entries
  {
    if entries != [] {
      var n := |entries| - 1;
      PrefixOrderly(entries);
      WithoutKeeps(entries[..n], gone);
      FilteredSnoc(Without(entries[..n], gone), entries, entries[n].mitigation != gone, Without(entries, gone));
    }
  }

  lemma {:induction false} OneEachSnoc(few: seq<StateEntry>, all: seq<StateEntry>, e: StateEntry)
    requires OneEach(few) && OneEach(all + [e]) && forall x <- few :: x in all
    ensures OneEach(few + [e])
  {
    forall i | 0 <= i < |few| ensures !(few[i].mitigation == e.mitigation && CellOf(few[i]) == CellOf(e)) {
      assert few[i] in few && few[i] in all;
      var j :| 0 <= j < |all| && all[j] == few[i];
      assert (all + [e])[j] == all[j] && (all + [e])[|all|] == e;
    }
  }

  lemma {:induction false} PrefixOrderly(entries: seq<StateEntry>)
    requires AllProper(entries) && OneEach(entries) && entries != []
    ensures AllProper(entries[..|entries| - 1]) && OneEach(entries[..|entries| - 1])
  {
  }

  /** A filter that keeps the last entry, or drops it. */
  lemma {:induction false} FilteredSnoc(few: seq<StateEntry>, all: seq<StateEntry>, keep: bool, more: seq<StateEntry>)
    requires all != [] && AllProper(all) && OneEach(all) && AllProper(few) && OneEach(few)
    requires forall x <- few :: x in all[..|all| - 1]
    requires more == few + if keep then [all[|all| - 1]] else []
    ensures AllProper(more) && OneEach(more) && forall x <- more :: x in all
  {
    var n := |all| - 1;
    assert all == all[..n] + [all[n]];
    if keep { OneEachSnoc(few, all[..n], all[n]); } else { assert more == few; }
  }

  lemma {:induction false} StoredWithout(entries: seq<StateEntry>, gone: string, name: string, cell: Cell)
    ensures Stored(Without(entries, gone), name, cell) == if name == gone then None else Stored(entries, name, cell)
  {
    if entries != [] {
      var n := |entries| - 1;
      var rest := Without(entries[..n], gone);
      StoredWithout(entries[..n], gone, name, cell);
      if entries[n].mitigation == gone {
        assert Without(entries, gone) == rest;
      } else {
        assert (rest + [entries[n]])[..|rest|] == rest;
      }
    }
  }

  // --- What apply does ---------------------------------------------------------------------

  lemma {:induction false} WriteLookup(w: World, cell: Cell, r: Reading, outcome: Outcome, at: Cell)
    ensures at != cell ==> Lookup(Write(w, cell, r, outcome), at) == Lookup(w, at)
    ensures outcome.Done? && (cell.RegistryCell? ==> r.dc == 0) ==> Lookup(Write(w, cell, r, outcome), cell) == Some(r)
    ensures outcome.Failed? ==> Write(w, cell, r, outcome) == w
    ensures Lookup(w, cell).Some? ==> Lookup(Write(w, cell, r, outcome), cell).Some?
  {
  }

  lemma {:induction false} FoundName(list: seq<Mitigation>, name: string)
    ensures FindIn(list, name).Some? ==> FindIn(list, name).value.name == name
  {
    if list != [] { FoundName(list[1..], name); }
  }

  ghost predicate Reaches(targets: seq<Scheme>, cell: Cell) {
    cell.PowerCell? && exists t <- targets :: t.guid == cell.scheme
  }

  lemma {:induction false} PowerShotProper(m: Mitigation, scheme: Scheme, r: Reading, at: int, cell: Cell)
    requires Find(m.name) == Some(m) && m.kind.PowerSetting?
    ensures var e := PowerShot(m, scheme, r, at);
            Proper(e) && Told(e, m.name, cell) == if cell == PowerCell(scheme.guid, m.setting) then Some(Some(r))
                else None
  {
  }

  lemma {:induction false} RegistryShotProper(m: Mitigation, c: Change, r: Option<Reading>, at: int, cell: Cell)
    requires r.Some? ==> r.value.dc == 0
    requires Find(m.name) == Some(m) && m.kind.CrashControl? && c in Changes(m.name)
    ensures var e := RegistryShot(m.name, c, r, at);
            Proper(e) && Told(e, m.name, cell) == if cell == RegistryCell(c.key) then Some(r) else None
  {
    assert Previous(RegistryShot(m.name, c, r, at)) == r;
  }

  /** A power setting is remembered for the reached schemes that expose it, as it was before
      the loop, and nothing else changes. */
  lemma {:induction false} ApplyPowerShots(m: Mitigation, targets: seq<Scheme>, w: World, s: Session, cell: Cell)
    requires Find(m.name) == Some(m) && m.kind.PowerSetting?
    ensures var (w1, shots) := ApplyPower(m, targets, w, s);
            && AllProper(shots)
            && Stored(shots, m.name, cell)
               == (if Owns(m, cell) && Reaches(targets, cell)
                   && Read(w, cell, s).Some? then Some(Read(w, cell, s)) else None)
            && (Stored(shots, m.name, cell).None? ==> Lookup(w1, cell) == Lookup(w, cell))
            && (Lookup(w, cell).Some? ==> Lookup(w1, cell).Some?)
  {
    if targets != [] {
      var n := |targets| - 1;
      ApplyPowerShots(m, targets[..n], w, s, cell);
      var (w1, shots) := ApplyPower(m, targets[..n], w, s);
      var here := PowerCell(targets[n].guid, m.setting);
      ReachesSnoc(targets, cell);
      if Read(w1, here, s).Some? {
        WriteLookup(w1, here, m.target, s.outcome(here), cell);
        var shot := PowerShot(m, targets[n], Read(w1, here, s).value, s.clock(|shots|));
        PowerShotProper(m, targets[n], Read(w1, here, s).value, s.clock(|shots|), cell);
        StoredSnoc(shots, shot, m.name, cell);
      }
    }
  }

  lemma {:induction false} ReachesSnoc(targets: seq<Scheme>, cell: Cell)
    requires targets != []
    ensures Reaches(targets, cell)
       <==> Reaches(targets[..|targets| - 1], cell) || (cell.PowerCell? && cell.scheme == targets[|targets| - 1].guid)
  {
    assert targets == targets[..|targets| - 1] + [targets[|targets| - 1]];
  }

  ghost predicate Sets(changes: seq<Change>, cell: Cell) {
    cell.RegistryCell? && exists c <- changes :: c.key == cell.name
  }

  lemma {:induction false} ChangesSnoc(changes: seq<Change>, cell: Cell)
    requires changes != []
    ensures Sets(changes, cell)
       <==> Sets(changes[..|changes| - 1], cell) || cell == RegistryCell(changes[|changes| - 1].key)
  {
    assert changes == changes[..|changes| - 1] + [changes[|changes| - 1]];
  }

  lemma {:induction false} ApplyRegistryShots(m: Mitigation, changes: seq<Change>, w: World, s: Session, cell: Cell)
    requires Find(m.name) == Some(m) && m.kind.CrashControl?
    requires forall c <- changes :: c in Changes(m.name)
    ensures var (w1, shots) := ApplyRegistry(m.name, changes, w, s);
            && AllProper(shots)
            && Stored(shots, m.name, cell)
               == (if Sets(changes, cell) then Some(Read(w, cell, s)) else None)
            && (Stored(shots, m.name, cell).None? ==> Lookup(w1, cell) == Lookup(w, cell))
            && (Lookup(w, cell).Some? ==> Lookup(w1, cell).Some?)
  {
    if changes != [] {
      var n := |changes| - 1;
      ApplyRegistryShots(m, changes[..n], w, s, cell);
      var (w1, shots) := ApplyRegistry(m.name, changes[..n], w, s);
      var here := RegistryCell(changes[n].key);
      ChangesSnoc(changes, cell);
      WriteLookup(w1, here, Reading(changes[n].target, 0), s.outcome(here), cell);
      var shot := RegistryShot(m.name, changes[n], Read(w, here, s), s.clock(|shots|));
      RegistryShotProper(m, changes[n], Read(w, here, s), s.clock(|shots|), cell);
      StoredSnoc(shots, shot, m.name, cell);
    }
  }

  /** An apply that goes through remembers, for its mitigation, exactly the cells it touches,
      each as it was, and changes no other. */
  lemma {:induction false} ApplyShots(mc: Machine, name: string, s: Session, cell: Cell, other: string -> int)
    requires Applies(mc, name, s, other)
    ensures var (w1, shots) := ApplyAll(Find(name).value, mc.world, s);
            && AllProper(shots)
            && Stored(shots, name, cell) == (if Touches(mc, name, cell, s, other) then Some(Read(mc.world, cell, s))
                else None)
            && (!Touches(mc, name, cell, s, other) ==> Lookup(w1, cell) == Lookup(mc.world, cell))
            && (Lookup(mc.world, cell).Some? ==> Lookup(w1, cell).Some?)
  {
    FoundName(Mitigations(), name);
    var m := Find(name).value;
    if m.kind.PowerSetting? {
      ApplyPowerShots(m, Targets(s), mc.world, s, cell);
    } else {
      ApplyRegistryShots(m, Changes(name), mc.world, s, cell);
    }
  }

  lemma {:induction false} ShotsNamed(m: Mitigation, w: World, s: Session)
    ensures forall e <- ApplyAll(m, w, s).1 :: e.mitigation == m.name
  {
    if m.kind.PowerSetting? {
      PowerShotsNamed(m, Targets(s), w, s);
    } else {
      RegistryShotsNamed(m.name, Changes(m.name), w, s);
    }
  }

  lemma {:induction false} PowerShotsNamed(m: Mitigation, targets: seq<Scheme>, w: World, s: Session)
    ensures forall e <- ApplyPower(m, targets, w, s).1 :: e.mitigation == m.name
  {
    if targets != [] { PowerShotsNamed(m, targets[..|targets| - 1], w, s); }
  }

  lemma {:induction false} RegistryShotsNamed(name: string, changes: seq<Change>, w: World, s: Session)
    ensures forall e <- ApplyRegistry(name, changes, w, s).1 :: e.mitigation == name
  {
    if changes != [] { RegistryShotsNamed(name, changes[..|changes| - 1], w, s); }
  }

  lemma {:induction false} StoredOthers(entries: seq<StateEntry>, owner: string, name: string, cell: Cell)
    requires name != owner && forall e <- entries :: e.mitigation == owner
    ensures Stored(entries, name, cell).None?
  {
    if entries != [] { StoredOthers(entries[..|entries| - 1], owner, name, cell); }
  }

  // --- What revert does --------------------------------------------------------------------

  /** What a cell reads after a write to it. */
  function Rewritten(before: Option<Reading>, cell: Cell, r: Reading, outcome: Outcome): Option<Reading> {
    match outcome
    case Done => Some(if cell.PowerCell? then r else Reading(r.ac, 0))
    case Failed => before
    case Half => if cell.RegistryCell? then before else Some(Reading(r.ac, if before.Some? then before.value.dc else 0))
  }

  /** What a cell reads after a revert, given what was remembered of it. */
  function PutBack(before: Option<Reading>, kept: Option<Option<Reading>>, cell: Cell,
                   outcome: Outcome): Option<Reading> {
    if kept.Some? && kept.value.Some? then Rewritten(before, cell, kept.value.value, outcome) else before
  }

  lemma {:induction false} WriteRewrites(w: World, cell: Cell, r: Reading, outcome: Outcome, at: Cell)
    ensures Lookup(Write(w, cell, r, outcome), at)
         == if at == cell then Rewritten(Lookup(w, cell), cell, r, outcome) else Lookup(w, at)
  {
  }

  /** Every cell with a remembered reading is written once, no other is. */
  lemma {:induction false} RestoreAllLookup(w: World, entries: seq<StateEntry>, name: string,
                                            outcome: Cell -> Outcome, cell: Cell)
    requires AllProper(entries) && OneEach(entries) && forall e <- entries :: e.mitigation == name
    ensures Lookup(RestoreAll(w, entries, outcome), cell)
            == PutBack(Lookup(w, cell), Stored(entries, name, cell), cell, outcome(cell))
  {
    if entries != [] {
      var n := |entries| - 1;
      var e, w1 := entries[n], RestoreAll(w, entries[..n], outcome);
      RestoreAllLookup(w, entries[..n], name, outcome, cell);
      RestoreLookup(w1, e, outcome, cell);
      if CellOf(e) == cell {
        StoredSome(entries[..n], name, cell);
        forall i | 0 <= i < n ensures !IsFor(entries[..n][i], name, cell) {
          assert entries[i].mitigation == name && entries[n].mitigation == name;
        }
      }
    }
  }

  lemma {:induction false} RestoreLookup(w: World, e: StateEntry, outcome: Cell -> Outcome, cell: Cell)
    requires Proper(e)
    ensures Lookup(Restore(w, e, outcome), cell)
         == if cell == CellOf(e) && e.previousPresent
            then Rewritten(Lookup(w, cell), cell, Previous(e).value, outcome(cell))
            else Lookup(w, cell)
  {
    WriteRewrites(w, CellOf(e), Reading(e.previousAc, e.previousDc), outcome(CellOf(e)), cell);
  }

  lemma {:induction false} EntriesOfKeeps(entries: seq<StateEntry>, name: string)
    requires AllProper(entries) && OneEach(entries)
    ensures AllProper(EntriesOf(entries, name)) && OneEach(EntriesOf(entries, name))
    ensures forall e <- EntriesOf(entries, name) :: e in entries
  {
    if entries != [] {
      var n := |entries| - 1;
      PrefixOrderly(entries);
      EntriesOfKeeps(entries[..n], name);
      FilteredSnoc(EntriesOf(entries[..n], name), entries, entries[n].mitigation == name, EntriesOf(entries, name));
    }
  }

  lemma {:induction false} StoredEntriesOf(entries: seq<StateEntry>, name: string, cell: Cell)
    ensures Stored(EntriesOf(entries, name), name, cell) == Stored(entries, name, cell)
  {
    if entries != [] {
      var n := |entries| - 1;
      var few := EntriesOf(entries[..n], name);
      StoredEntriesOf(entries[..n], name, cell);
      if entries[n].mitigation == name {
        assert (few + [entries[n]])[..|few|] == few;
      } else {
        assert EntriesOf(entries, name) == few;
      }
    }
  }

  // --- Whole runs -----------------------------------------------------------------------------

  /** What the state file says. */
  ghost function Remembered(m: Machine, other: string -> int): Option<seq<StateEntry>> {
    if m.file.None? then Some([]) else LoadText(m.file.value, other)
  }

  ghost predicate Sound(m: Machine, other: string -> int) {
    Remembered(m, other).Some? && AllProper(Remembered(m, other).value) && OneEach(Remembered(m, other).value)
  }

  lemma {:induction false} SavedRemembers(m: Machine, entries: seq<StateEntry>, s: Session, w: World, name: string,
                                          cell: Cell, other: string -> int)
    requires Sound(m, other) && AllProper(entries) && OneEach(entries)
    ensures var m1 := Machine(w, Saved(m, entries, s));
            && Sound(m1, other)
            && Stored(Remembered(m1, other).value, name, cell)
               == Stored(if s.saved then entries else Remembered(m, other).value, name, cell)
  {
    LoadSave(entries, other);
    StoredReloaded(entries, name, cell, other);
  }

  /** One command and what the file says of one cell. */
  lemma {:induction false} ApplyRemembers(m: Machine, n: string, s: Session, name: string, cell: Cell,
                                          other: string -> int)
    requires Sound(m, other) && Applies(m, n, s, other)
    ensures Sound(Step(m, Apply(n, s), other), other)
    ensures Stored(Remembered(Step(m, Apply(n, s), other), other).value, name, cell)
         == Update(Stored(Remembered(m, other).value, name, cell), m, Apply(n, s), name, cell, other)
  {
    var entries := Loaded(m, s, other).value;
    var (w, shots) := ApplyAll(Find(n).value, m.world, s);
    ApplyRecords(m, n, s, name, cell, other);
    StoredAddAll(entries, shots, name, cell);
    SavedRemembers(m, AddAll(entries, shots), s, w, name, cell, other);
  }

  /** What the entries of an apply say of a cell, for its own and for other mitigations. */
  lemma {:induction false} ApplyRecords(m: Machine, n: string, s: Session, name: string, cell: Cell,
                                        other: string -> int)
    requires Applies(m, n, s, other)
    ensures var shots := ApplyAll(Find(n).value, m.world, s).1;
            && AllProper(shots)
            && Stored(shots, name, cell)
               == if n == name && Touches(m, n, cell, s, other) then Some(Read(m.world, cell, s)) else None
  {
    var shots := ApplyAll(Find(n).value, m.world, s).1;
    ApplyShots(m, n, s, cell, other);
    if n != name {
      FoundName(Mitigations(), n);
      ShotsNamed(Find(n).value, m.world, s);
      StoredOthers(shots, n, name, cell);
    }
  }

  lemma {:induction false} RevertRemembers(m: Machine, n: string, s: Session, name: string, cell: Cell,
                                           other: string -> int)
    requires Sound(m, other) && Reverts(m, n, s, other)
    ensures Sound(Step(m, Revert(n, s), other), other)
    ensures Stored(Remembered(Step(m, Revert(n, s), other), other).value, name, cell)
         == Update(Stored(Remembered(m, other).value, name, cell), m, Revert(n, s), name, cell, other)
  {
    var entries := Loaded(m, s, other).value;
    var w := RestoreAll(m.world, EntriesOf(entries, n), s.outcome);
    WithoutKeeps(entries, n);
    StoredWithout(entries, n, name, cell);
    SavedRemembers(m, Without(entries, n), s, w, name, cell, other);
  }

  lemma {:induction false} StepRemembers(m: Machine, c: Command, name: string, cell: Cell, other: string -> int)
    requires Sound(m, other)
    ensures Sound(Step(m, c, other), other)
    ensures Stored(Remembered(Step(m, c, other), other).value, name, cell)
         == Update(Stored(Remembered(m, other).value, name, cell), m, c, name, cell, other)
  {
    match c
    case External(w) =>
    case Apply(n, s) => if Applies(m, n, s, other) { ApplyRemembers(m, n, s, name, cell, other); }
    case Revert(n, s) => if Reverts(m, n, s, other) { RevertRemembers(m, n, s, name, cell, other); }
  }

  /** Over every run from a machine without a state file, and every pattern of failed reads,
      writes and saves: the file loads when it can be read, and holds for each mitigation and
      cell exactly what was read of the cell before the first recorded apply since the records
      were last dropped, by a recorded revert or by an apply that saved over an unread file. */
  lemma {:induction false} RunRemembersOriginals(start: Machine, run: seq<Command>, name: string, cell: Cell,
                                                 other: string -> int)
    requires start.file.None?
    ensures Sound(Run(start, run, other), other)
    ensures Stored(Remembered(Run(start, run, other), other).value, name, cell)
            == Original(start, run, name, cell, other)
  {
    if run != [] {
      var n := |run| - 1;
      RunRemembersOriginals(start, run[..n], name, cell, other);
      StepRemembers(Run(start, run[..n], other), run[n], name, cell, other);
    }
  }

  lemma {:induction false} StoredShape(entries: seq<StateEntry>, name: string, cell: Cell)
    requires AllProper(entries) && Stored(entries, name, cell).Some?
    ensures var kept := Stored(entries, name, cell).value;
            && (cell.PowerCell? ==> kept.Some?)
            && (cell.RegistryCell? && kept.Some? ==> kept.value.dc == 0)
  {
    var n := |entries| - 1;
    if Stored(entries[..n], name, cell).Some? { StoredShape(entries[..n], name, cell); }
  }

  lemma {:induction false} NothingStored(entries: seq<StateEntry>, name: string)
    ensures EntriesOf(entries, name) != [] <==> exists cell :: Stored(entries, name, cell).Some?
  {
    if EntriesOf(entries, name) != [] {
      var e := EntriesOf(entries, name)[0];
      StoredEntriesOf(entries, name, CellOf(e));
      EntriesOfNamed(entries, name);
      assert IsFor(EntriesOf(entries, name)[0], name, CellOf(e));
      StoredSome(EntriesOf(entries, name), name, CellOf(e));
      assert Stored(entries, name, CellOf(e)).Some?;
    }
    if cell :| Stored(entries, name, cell).Some? { StoredEntriesOf(entries, name, cell); }
  }

  lemma {:induction false} EntriesOfNamed(entries: seq<StateEntry>, name: string)
    ensures forall e <- EntriesOf(entries, name) :: e.mitigation == name
  {
    if entries != [] { EntriesOfNamed(entries[..|entries| - 1], name); }
  }

  lemma {:induction false} RevertLookup(m: Machine, name: string, s: Session, cell: Cell, other: string -> int)
    requires Sound(m, other)
    ensures Lookup(Step(m, Revert(name, s), other).world, cell)
         == if Reverts(m, name, s, other)
            then PutBack(Lookup(m.world, cell), Stored(Remembered(m, other).value, name, cell), cell, s.outcome(cell))
            else Lookup(m.world, cell)
  {
    if Reverts(m, name, s, other) {
      var entries := Loaded(m, s, other).value;
      EntriesOfKeeps(entries, name);
      EntriesOfNamed(entries, name);
      RestoreAllLookup(m.world, EntriesOf(entries, name), name, s.outcome, cell);
      StoredEntriesOf(entries, name, cell);
    }
  }

  /** After any run, a revert that gets as far as looking for a snapshot finds one exactly
      when something is recorded for the mitigation and the state file can be read. */
  lemma {:induction false} RevertsWhenRecorded(start: Machine, run: seq<Command>, name: string, s: Session,
                                               other: string -> int)
    requires start.file.None? && Ready(Run(start, run, other), name, s, other) && s.confirmed
    ensures Reverts(Run(start, run, other), name, s, other)
       <==> s.readable && exists cell :: Original(start, run, name, cell, other).Some?
  {
    var m := Run(start, run, other);
    RunRemembersOriginals(start, run, name, RegistryCell(""), other);
    var entries := Remembered(m, other).value;
    NothingStored(entries, name);
    if cell :| Stored(entries, name, cell).Some? {
      RunRemembersOriginals(start, run, name, cell, other);
      assert Original(start, run, name, cell, other).Some?;
    }
    if cell :| Original(start, run, name, cell, other).Some? {
      RunRemembersOriginals(start, run, name, cell, other);
      assert Stored(entries, name, cell).Some?;
    }
  }

  /** After any run, a revert that goes through rewrites every recorded cell from its
      original, and no other cell. */
  lemma {:induction false} RevertPutsBack(start: Machine, run: seq<Command>, name: string, s: Session, cell: Cell,
                                          other: string -> int)
    requires start.file.None? && Reverts(Run(start, run, other), name, s, other)
    ensures Lookup(Step(Run(start, run, other), Revert(name, s), other).world, cell)
         == PutBack(Lookup(Run(start, run, other).world, cell), Original(start, run, name, cell, other), cell,
             s.outcome(cell))
  {
    RunRemembersOriginals(start, run, name, cell, other);
    RevertLookup(Run(start, run, other), name, s, cell, other);
  }

  predicate WriteSuffices(before: Option<Reading>, cell: Cell, original: Reading, outcome: Outcome) {
    || outcome.Done?
    || before == Some(original)
    || (outcome.Half? && cell.PowerCell? && original.dc == if before.Some? then before.value.dc else 0)
  }

  /** A cell of which a value was recorded has that value again after the revert exactly when its
      write succeeds, it already had it, or the half that was written made it so. */
  lemma {:induction false} RevertRestores(start: Machine, run: seq<Command>, name: string, s: Session, cell: Cell,
                                          original: Reading, other: string -> int)
    requires start.file.None? && Reverts(Run(start, run, other), name, s, other)
    requires Original(start, run, name, cell, other) == Some(Some(original))
    ensures Lookup(Step(Run(start, run, other), Revert(name, s), other).world, cell) == Some(original)
       <==> WriteSuffices(Lookup(Run(start, run, other).world, cell), cell, original, s.outcome(cell))
  {
    RevertPutsBack(start, run, name, s, cell, other);
    RunRemembersOriginals(start, run, name, cell, other);
    StoredShape(Remembered(Run(start, run, other), other).value, name, cell);
  }

  // --- Mitigations keep out of each other's way ----------------------------------------------

  lemma {:induction false} FoundAt(list: seq<Mitigation>, name: string)
    ensures FindIn(list, name).Some? ==> FindIn(list, name).value in list
  {
    if list != [] { FoundAt(list[1..], name); }
  }

  /** No cell belongs to two mitigations. */
  lemma {:induction false} OneOwner(a: string, b: string, cell: Cell)
    requires Find(a).Some? && Find(b).Some? && Owns(Find(a).value, cell) && Owns(Find(b).value, cell)
    ensures a == b
  {
    FoundAt(Mitigations(), a);
    FoundAt(Mitigations(), b);
    FoundName(Mitigations(), a);
    FoundName(Mitigations(), b);
    SettingsDiffer(Find(a).value, Find(b).value, cell);
  }

  lemma {:induction false} PowerSettingsDiffer(a: Mitigation, b: Mitigation)
    requires a in Mitigations() && b in Mitigations() && a.kind.PowerSetting? && b.kind.PowerSetting?
             && a.setting == b.setting
    ensures a == b
  {
    var list := Mitigations();
    assert list[0].setting[0] == 'b' && list[1].setting[0] == '8' && list[2].setting[0] == '5'
           && list[3].setting[0] == '7';
  }

  lemma {:induction false} CrashValuesDiffer(a: string, b: string, key: string)
    requires (a == "dumps-on" || a == "nmi-dump") && (b == "dumps-on" || b == "nmi-dump")
    requires (exists c <- Changes(a) :: c.key == key) && exists c <- Changes(b) :: c.key == key
    ensures a == b
  {
    assert "CrashDumpEnabled"[5] == 'D' && "CrashOnCtrlScroll"[5] == 'O' && "AutoReboot"[0] == 'A'
           && "NMICrashDump"[0] == 'N';
    assert "dumps-on"[0] == 'd' && "nmi-dump"[0] == 'n';
  }

  lemma {:induction false} SettingsDiffer(a: Mitigation, b: Mitigation, cell: Cell)
    requires a in Mitigations() && b in Mitigations() && Owns(a, cell) && Owns(b, cell)
    ensures a == b
  {
    if a.kind.PowerSetting? { PowerSettingsDiffer(a, b); } else { CrashValuesDiffer(a.name, b.name, cell.name); }
  }

  /** A command changes no cell its mitigation does not own. */
  lemma {:induction false} CommandKeepsOtherCells(m: Machine, c: Command, cell: Cell, other: string -> int)
    requires Sound(m, other) && !c.External?
    requires Find(c.name).Some? ==> !Owns(Find(c.name).value, cell)
    ensures Lookup(Step(m, c, other).world, cell) == Lookup(m.world, cell)
  {
    match c
    case Apply(n, s) =>
      if Applies(m, n, s, other) { ApplyShots(m, n, s, cell, other); }
    case Revert(n, s) =>
      RevertLookup(m, n, s, cell, other);
      if Reverts(m, n, s, other) && Stored(Remembered(m, other).value, n, cell).Some? {
        StoredOwned(Remembered(m, other).value, n, cell);
      }
  }

  lemma {:induction false} StoredOwned(entries: seq<StateEntry>, name: string, cell: Cell)
    requires AllProper(entries) && Stored(entries, name, cell).Some?
    ensures Find(name).Some? && Owns(Find(name).value, cell)
  {
    StoredSome(entries, name, cell);
    var i :| 0 <= i < |entries| && IsFor(entries[i], name, cell);
    assert Proper(entries[i]);
  }

  // --- Runs in which nothing fails and nothing else writes -----------------------------------

  ghost predicate Smooth(c: Command) {
    && !c.External? && c.session.readable && c.session.saved
    && (forall cell :: c.session.sight(cell).Full?) && forall cell :: c.session.outcome(cell).Done?
  }

  /** Along such a run, a cell present at the start has its first value, or its owner's
      snapshot has. */
  lemma {:induction false} RunKeepsFirstValue(start: Machine, run: seq<Command>, owner: string, cell: Cell,
                                              other: string -> int)
    requires start.file.None? && forall c <- run :: Smooth(c)
    requires Find(owner).Some? && Owns(Find(owner).value, cell) && Lookup(start.world, cell).Some?
    ensures var original := Original(start, run, owner, cell, other);
            if original.None? then Lookup(Run(start, run, other).world, cell) == Lookup(start.world, cell)
            else original.value == Lookup(start.world, cell)
  {
    if run != [] {
      var n := |run| - 1;
      var m := Run(start, run[..n], other);
      RunKeepsFirstValue(start, run[..n], owner, cell, other);
      RunRemembersOriginals(start, run[..n], owner, cell, other);
      var c := run[n];
      assert Smooth(c);
      var kept := Original(start, run[..n], owner, cell, other);
      if c.Apply? {
        ApplyKeepsFirst(m, c, owner, cell, kept, Lookup(start.world, cell), other);
      } else {
        RevertKeepsFirst(m, c, owner, cell, kept, Lookup(start.world, cell), other);
      }
    }
  }

  /** The cell has its first value, or its owner's snapshot has. */
  predicate First(m: Machine, cell: Cell, kept: Option<Option<Reading>>, first: Option<Reading>) {
    if kept.None? then Lookup(m.world, cell) == first else kept.value == first
  }

  lemma {:induction false} ApplyKeepsFirst(m: Machine, c: Command, owner: string, cell: Cell,
                                           kept: Option<Option<Reading>>, first: Option<Reading>, other: string -> int)
    requires Sound(m, other) && c.Apply? && Smooth(c) && First(m, cell, kept, first) && first.Some?
    requires Find(owner).Some? && Owns(Find(owner).value, cell)
    ensures First(Step(m, c, other), cell, Update(kept, m, c, owner, cell, other), first)
  {
    if c.name != owner {
      if Find(c.name).Some? && Owns(Find(c.name).value, cell) { OneOwner(c.name, owner, cell); }
      CommandKeepsOtherCells(m, c, cell, other);
    } else if Applies(m, owner, c.session, other) {
      ApplyShots(m, owner, c.session, cell, other);
    }
  }

  lemma {:induction false} RevertKeepsFirst(m: Machine, c: Command, owner: string, cell: Cell,
                                            kept: Option<Option<Reading>>, first: Option<Reading>, other: string -> int)
    requires Sound(m, other) && c.Revert? && Smooth(c) && First(m, cell, kept, first) && first.Some?
    requires kept == Stored(Remembered(m, other).value, owner, cell) && (cell.RegistryCell? ==> first.value.dc == 0)
    requires Find(owner).Some? && Owns(Find(owner).value, cell)
    ensures First(Step(m, c, other), cell, Update(kept, m, c, owner, cell, other), first)
  {
    if c.name != owner {
      if Find(c.name).Some? && Owns(Find(c.name).value, cell) { OneOwner(c.name, owner, cell); }
      CommandKeepsOtherCells(m, c, cell, other);
    } else {
      RevertLookup(m, owner, c.session, cell, other);
    }
  }

  /** Once every mitigation is reverted, every setting present at the start is as it was. */
  lemma {:induction false} AllRevertedRestoresStart(start: Machine, run: seq<Command>, cell: Cell, other: string -> int)
    requires start.file.None? && forall c <- run :: Smooth(c)
    requires Lookup(start.world, cell).Some?
    requires forall name :: Find(name).Some? ==> Original(start, run, name, cell, other).None?
    ensures Lookup(Run(start, run, other).world, cell) == Lookup(start.world, cell)
  {
    if name :| Find(name).Some? && Owns(Find(name).value, cell) {
      RunKeepsFirstValue(start, run, name, cell, other);
    } else {
      NobodysCell(start, run, cell, other);
    }
  }

  lemma {:induction false} NobodysCell(start: Machine, run: seq<Command>, cell: Cell, other: string -> int)
    requires start.file.None? && forall c <- run :: Smooth(c)
    requires forall name :: Find(name).Some? ==> !Owns(Find(name).value, cell)
    ensures Lookup(Run(start, run, other).world, cell) == Lookup(start.world, cell)
  {
    if run != [] {
      var n := |run| - 1;
      NobodysCell(start, run[..n], cell, other);
      RunRemembersOriginals(start, run[..n], "", cell, other);
      assert Smooth(run[n]);
      CommandKeepsOtherCells(Run(start, run[..n], other), run[n], cell, other);
    }
  }

  // --- What apply achieves, and what cannot be undone -----------------------------------------

  function TargetOf(m: Mitigation, cell: Cell): Option<Reading> {
    if m.kind.PowerSetting? then Some(m.target) else TargetIn(Changes(m.name), cell)
  }

  function TargetIn(changes: seq<Change>, cell: Cell): Option<Reading> {
    if changes == [] then None else
    var c := changes[|changes| - 1];
    if cell == RegistryCell(c.key) then Some(Reading(c.target, 0)) else TargetIn(changes[..|changes| - 1], cell)
  }

  lemma {:induction false} ApplyPowerSets(m: Mitigation, targets: seq<Scheme>, w: World, s: Session, cell: Cell)
    requires Find(m.name) == Some(m) && m.kind.PowerSetting? && s.outcome(cell).Done?
    requires Owns(m, cell) && Reaches(targets, cell) && Read(w, cell, s).Some?
    ensures Lookup(ApplyPower(m, targets, w, s).0, cell) == Some(m.target)
  {
    var n := |targets| - 1;
    var here := PowerCell(targets[n].guid, m.setting);
    var w1 := ApplyPower(m, targets[..n], w, s).0;
    ReachesSnoc(targets, cell);
    ApplyPowerShots(m, targets[..n], w, s, cell);
    WriteRewrites(w1, here, m.target, s.outcome(here), cell);
    if cell != here { ApplyPowerSets(m, targets[..n], w, s, cell); }
  }

  lemma {:induction false} ApplyRegistrySets(name: string, changes: seq<Change>, w: World, s: Session, cell: Cell)
    requires s.outcome(cell).Done? && Sets(changes, cell)
    ensures Lookup(ApplyRegistry(name, changes, w, s).0, cell) == TargetIn(changes, cell)
    ensures TargetIn(changes, cell).Some?
  {
    var n := |changes| - 1;
    var here := RegistryCell(changes[n].key);
    ChangesSnoc(changes, cell);
    WriteRewrites(ApplyRegistry(name, changes[..n], w, s).0, here, Reading(changes[n].target, 0), s.outcome(here),
        cell);
    if cell != here { ApplyRegistrySets(name, changes[..n], w, s, cell); }
  }

  /** An apply sets every cell it touches, where the write succeeds, to the mitigation's
      target. Saved, it records the cell's value where the file it read has none; unsaved, it
      leaves the records as they were. */
  lemma {:induction false} ApplySetsAndRecords(m: Machine, name: string, s: Session, cell: Cell, other: string -> int)
    requires Sound(m, other) && Touches(m, name, cell, s, other)
    ensures var after := Step(m, Apply(name, s), other);
            && (s.outcome(cell).Done? ==> Lookup(after.world, cell) == TargetOf(Find(name).value, cell))
            && Sound(after, other)
            && Stored(Remembered(after, other).value, name, cell)
               == if s.saved then Or(Stored(Loaded(m, s, other).value, name, cell), Some(Read(m.world, cell, s)))
                  else Stored(Remembered(m, other).value, name, cell)
  {
    FoundName(Mitigations(), name);
    var mit := Find(name).value;
    StepRemembers(m, Apply(name, s), name, cell, other);
    if s.outcome(cell).Done? {
      if mit.kind.PowerSetting? { ApplyPowerSets(mit, Targets(s), m.world, s, cell); }
      else { ApplyRegistrySets(name, Changes(name), m.world, s, cell); }
    }
  }

  /** Without a record of the cell, no revert of the mitigation changes it: the cell an
      unsaved apply changed stays changed. */
  lemma {:induction false} NothingToPutBack(m: Machine, name: string, s: Session, cell: Cell, other: string -> int)
    requires Sound(m, other) && Stored(Remembered(m, other).value, name, cell).None?
    ensures Lookup(Step(m, Revert(name, s), other).world, cell) == Lookup(m.world, cell)
  {
    RevertLookup(m, name, s, cell, other);
  }

  /** What the file of a machine says of a cell. */
  ghost function Recorded(m: Machine, name: string, cell: Cell, other: string -> int): Option<Option<Reading>>
    requires Sound(m, other)
  {
    Stored(Remembered(m, other).value, name, cell)
  }

  /** An apply that goes through keeps what is recorded of a cell, for any mitigation, exactly
      when it is not saved, or the state file was read, or what it records instead happens to
      be the same. */
  lemma {:induction false} RecordSurvives(m: Machine, n: string, s: Session, name: string, cell: Cell,
                                          kept: Option<Reading>, other: string -> int)
    requires Sound(m, other) && Applies(m, n, s, other)
    requires Recorded(m, name, cell, other) == Some(kept)
    ensures Sound(Step(m, Apply(n, s), other), other)
    ensures Recorded(Step(m, Apply(n, s), other), name, cell, other) == Some(kept)
       <==> !s.saved || s.readable || (n == name && Touches(m, n, cell, s, other) && kept == Read(m.world, cell, s))
  {
    StepRemembers(m, Apply(n, s), name, cell, other);
  }

  /** A revert that goes through can be repeated exactly when it was not saved and the second
      session meets what the first one met: whether its writes succeeded does not matter. */
  lemma {:induction false} SecondRevertRuns(m: Machine, name: string, first: Session, second: Session,
                                            other: string -> int)
    requires Sound(m, other) && Reverts(m, name, first, other)
    ensures var once := Step(m, Revert(name, first), other);
            && (Reverts(once, name, second, other)
                <==> !first.saved && Ready(m, name, second, other) && second.confirmed && second.readable)
            && (first.saved ==> Step(once, Revert(name, second), other) == once)
  {
    var once := Step(m, Revert(name, first), other);
    if first.saved {
      StepRemembers(m, Revert(name, first), name, RegistryCell(""), other);
      var entries := Remembered(once, other).value;
      NothingStored(entries, name);
      forall c ensures Stored(entries, name, c).None? {
        StepRemembers(m, Revert(name, first), name, c, other);
      }
    }
  }

  // --- One machine on which records and restores are lost -------------------------------------

  /** Dumps are small and the machine restarts after a crash. */
  function Example(): Machine {
    Machine(World(map[], map["CrashDumpEnabled" := 1, "AutoReboot" := 1, "NMICrashDump" := 0]), None)
  }

  const DUMPS: Cell := RegistryCell("CrashDumpEnabled")
  const NMI: Cell := RegistryCell("NMICrashDump")

  /** An elevated, confirmed session. */
  function Typical(readable: bool, saved: bool, outcome: Outcome): Session {
    Session(true, true, [], None, "state.json", readable, _ => Full, _ => outcome, saved, _ => 0)
  }

  /** The apply of a crash-control mitigation on a machine where the dump setting is there. */
  lemma {:induction false} TypicalApply(m: Machine, name: string, cell: Cell, readable: bool, other: string -> int)
    requires Sound(m, other) && Lookup(m.world, DUMPS).Some?
    requires (name == "dumps-on" && cell == DUMPS) || (name == "nmi-dump" && cell == NMI)
    ensures Applies(m, name, Typical(readable, true, Done), other)
    ensures Touches(m, name, cell, Typical(readable, true, Done), other)
    ensures TargetOf(Find(name).value, cell) == Some(Reading(if cell == DUMPS then 2 else 1, 0))
  {
    FoundCrash(name);
    assert Changes("dumps-on")[0].key == "CrashDumpEnabled" && Changes("nmi-dump")[0].key == "NMICrashDump";
  }

  lemma {:induction false} TwoSteps(start: Machine, a: Command, b: Command, name: string, cell: Cell,
                                    other: string -> int)
    ensures Original(start, [a, b], name, cell, other)
         == Update(Update(None, start, a, name, cell, other), Step(start, a, other), b, name, cell, other)
  {
    assert [a, b][..1] == [a] && [a][..0] == [];
    assert Run(start, [], other) == start && Run(start, [a], other) == Step(start, a, other);
    assert Original(start, [a], name, cell, other) == Update(None, start, a, name, cell, other);
  }

  /** Two saved applies of one mitigation, the first on a machine without a state file. With a
      failed read of it before the second, the value the first one set is recorded as the original. */
  lemma {:induction false} AppliedTwice(start: Machine, name: string, first: Session, second: Session, cell: Cell,
                                        other: string -> int)
    requires start.file.None? && first.saved && first.outcome(cell).Done? && second.saved
    requires Touches(start, name, cell, first, other)
    requires Touches(Step(start, Apply(name, first), other), name, cell, second, other)
    ensures Original(start, [Apply(name, first), Apply(name, second)], name, cell, other)
         == Some(if second.readable then Read(start.world, cell, first)
                 else Gets(TargetOf(Find(name).value, cell), cell, second.sight(cell)))
  {
    ApplySetsAndRecords(start, name, first, cell, other);
    TwoSteps(start, Apply(name, first), Apply(name, second), name, cell, other);
  }

  /** A saved apply of one mitigation forgets what another had recorded, if its read fails. */
  lemma {:induction false} AppliedAfter(start: Machine, name: string, next: string, first: Session, second: Session,
                                        cell: Cell, other: string -> int)
    requires start.file.None? && first.saved && second.saved && next != name
    requires Touches(start, name, cell, first, other)
    requires Applies(Step(start, Apply(name, first), other), next, second, other)
    ensures Original(start, [Apply(name, first), Apply(next, second)], name, cell, other)
         == if second.readable then Some(Read(start.world, cell, first)) else None
  {
    TwoSteps(start, Apply(name, first), Apply(next, second), name, cell, other);
  }

  /** A registry value that is there but cannot be read is recorded as absent, so no revert
      puts it back. */
  lemma {:induction false} UnreadIsNotPutBack(start: Machine, name: string, first: Session, second: Session, cell: Cell,
                                              other: string -> int)
    requires start.file.None? && first.saved && first.outcome(cell).Done?
    requires Touches(start, name, cell, first, other) && Read(start.world, cell, first).None?
    ensures var m := Step(start, Apply(name, first), other);
            Lookup(Step(m, Revert(name, second), other).world, cell) == TargetOf(Find(name).value, cell)
  {
    ApplySetsAndRecords(start, name, first, cell, other);
    RevertLookup(Step(start, Apply(name, first), other), name, second, cell, other);
  }

  /** Applied and reverted, every write successful: a cell is as it was exactly when it was read
      as it was, or could not be read and was already at the mitigation's target. */
  lemma {:induction false} AppliedThenReverted(start: Machine, name: string, first: Session, second: Session,
                                               cell: Cell,
                                               other: string -> int)
    requires start.file.None? && first.saved && first.outcome(cell).Done? && second.outcome(cell).Done?
    requires Touches(start, name, cell, first, other)
    requires Reverts(Step(start, Apply(name, first), other), name, second, other)
    ensures var m := Step(Step(start, Apply(name, first), other), Revert(name, second), other);
            (Lookup(m.world, cell) == Lookup(start.world, cell)
             <==> Lookup(start.world, cell) == Or(Read(start.world, cell, first), TargetOf(Find(name).value, cell)))
  {
    ApplySetsAndRecords(start, name, first, cell, other);
    RevertLookup(Step(start, Apply(name, first), other), name, second, cell, other);
  }

  const REBOOT: Cell := RegistryCell("AutoReboot")

  /** A session that cannot read one value. */
  function BlindTo(cell: Cell): Session {
    Typical(true, true, Done).(sight := (c: Cell) => if c == cell then Blind else Full)
  }

  lemma {:induction false} BlindRevert(other: string -> int)
    ensures var m := Step(Example(), Apply("dumps-on", BlindTo(REBOOT)), other);
            && Lookup(Example().world, REBOOT) == Some(Reading(1, 0))
            && Lookup(Step(m, Revert("dumps-on", Typical(true, true, Done)), other).world, REBOOT)
                == Some(Reading(0, 0))
  {
    FoundCrash("dumps-on");
    assert Changes("dumps-on")[1].key == "AutoReboot";
    assert "AutoReboot"[0] == 'A' && "CrashDumpEnabled"[0] == 'C';
    assert TargetIn(Changes("dumps-on"), REBOOT) == Some(Reading(0, 0));
    UnreadIsNotPutBack(Example(), "dumps-on", BlindTo(REBOOT), Typical(true, true, Done), REBOOT, other);
  }

  lemma {:induction false} UnreadApplyForgets(readable: bool, other: string -> int)
    ensures var run := [Apply("dumps-on", Typical(true, true, Done)), Apply("dumps-on", Typical(readable, true, Done))];
            Original(Example(), run, "dumps-on", DUMPS, other) == Some(Some(Reading(if readable then 1 else 2, 0)))
  {
    var first, second := Typical(true, true, Done), Typical(readable, true, Done);
    var m := Step(Example(), Apply("dumps-on", first), other);
    TypicalApply(Example(), "dumps-on", DUMPS, true, other);
    ApplySetsAndRecords(Example(), "dumps-on", first, DUMPS, other);
    TypicalApply(m, "dumps-on", DUMPS, readable, other);
    AppliedTwice(Example(), "dumps-on", first, second, DUMPS, other);
  }

  lemma {:induction false} UnreadApplyForgetsOthers(readable: bool, other: string -> int)
    ensures var run := [Apply("nmi-dump", Typical(true, true, Done)), Apply("dumps-on", Typical(readable, true, Done))];
            Original(Example(), run, "nmi-dump", NMI, other) == if readable then Some(Some(Reading(0, 0))) else None
  {
    var first, second := Typical(true, true, Done), Typical(readable, true, Done);
    var m := Step(Example(), Apply("nmi-dump", first), other);
    TypicalApply(Example(), "nmi-dump", NMI, true, other);
    StepRemembers(Example(), Apply("nmi-dump", first), "nmi-dump", NMI, other);
    CrashValuesKept(Example(), Apply("nmi-dump", first), other);
    TypicalApply(m, "dumps-on", DUMPS, readable, other);
    AppliedAfter(Example(), "nmi-dump", "dumps-on", first, second, NMI, other);
  }

  lemma {:induction false} CrashValuesKept(m: Machine, c: Command, other: string -> int)
    requires Sound(m, other) && !c.External? && c.name == "nmi-dump"
    ensures Lookup(Step(m, c, other).world, DUMPS) == Lookup(m.world, DUMPS)
  {
    FoundCrash("dumps-on");
    assert Owns(Find("dumps-on").value, DUMPS) by { assert Changes("dumps-on")[0].key == "CrashDumpEnabled"; }
    assert "nmi-dump"[0] == 'n' && "dumps-on"[0] == 'd';
    if Find(c.name).Some? && Owns(Find(c.name).value, DUMPS) { OneOwner(c.name, "dumps-on", DUMPS); }
    CommandKeepsOtherCells(m, c, DUMPS, other);
  }

  /** A revert none of whose writes succeed, saved: the setting stays as the apply left it, and
      reverting again, now that writes succeed, does nothing. */
  lemma {:induction false} FailedRevertStays(other: string -> int)
    ensures var first := Apply("dumps-on", Typical(true, true, Done));
            var failed := Revert("dumps-on", Typical(true, true, Failed));
            var again := Revert("dumps-on", Typical(true, true, Done));
            var m := Step(Step(Example(), first, other), failed, other);
            && Lookup(Example().world, DUMPS) == Some(Reading(1, 0))
            && Lookup(m.world, DUMPS) == Some(Reading(2, 0)) && Step(m, again, other) == m
  {
    var s := Typical(true, true, Failed);
    var m := Step(Example(), Apply("dumps-on", Typical(true, true, Done)), other);
    TypicalApply(Example(), "dumps-on", DUMPS, true, other);
    ApplySetsAndRecords(Example(), "dumps-on", Typical(true, true, Done), DUMPS, other);
    FailedRevertOf(m, s, other);
    SecondRevertRuns(m, "dumps-on", s, Typical(true, true, Done), other);
  }

  lemma {:induction false} FailedRevertOf(m: Machine, s: Session, other: string -> int)
    requires Sound(m, other) && Stored(Remembered(m, other).value, "dumps-on", DUMPS).Some?
    requires s == Typical(true, true, Failed)
    ensures Reverts(m, "dumps-on", s, other)
    ensures Lookup(Step(m, Revert("dumps-on", s), other).world, DUMPS) == Lookup(m.world, DUMPS)
  {
    FoundCrash("dumps-on");
    NothingStored(Remembered(m, other).value, "dumps-on");
    RevertLookup(m, "dumps-on", s, DUMPS, other);
  }

  lemma {:induction false} FoundCrash(name: string)
    requires name == "dumps-on" || name == "nmi-dump"
    ensures Find(name) == Some(Mitigation(name, CrashControl, "", Reading(1, 1)))
  {
    var list := Mitigations();
    assert forall i | 0 <= i < 4 :: list[i].name[0] == 'm' || list[i].name[0] == 'i';
    assert list[1..][1..][1..][1..] == [list[4], list[5]];
  }

  // --- The command itself -----------------------------------------------------------------------

  datatype Exit = Success | Failure | Usage | NeedsElevation

  /** The write that restores an entry succeeds, or there is none to make. */
  predicate Restores(e: StateEntry, outcome: Cell -> Outcome) {
    if e.kind == "power" then outcome(PowerCell(e.scope, e.key)).Done?
    else e.kind == "registry" && e.previousPresent ==> outcome(RegistryCell(e.key)).Done?
  }

  predicate AllRestore(entries: seq<StateEntry>, outcome: Cell -> Outcome) {
    entries == [] || (AllRestore(entries[..|entries| - 1], outcome) && Restores(entries[|entries| - 1], outcome))
  }

  function ExitCode(m: Machine, c: Command, other: string -> int): Exit
    requires !c.External?
  {
    var s := c.session;
    if Find(c.name).None? then Usage
    else if !s.elevated then NeedsElevation
    else if NoScheme(s) then Usage
    else if Loaded(m, s, other).None? then Failure
    else if c.Revert? then
      var saved := EntriesOf(Loaded(m, s, other).value, c.name);
      if saved == [] then Failure
      else if !s.confirmed then Success
      else if AllRestore(saved, s.outcome) then Success
      else Failure
    else if Find(c.name).value.kind.CrashControl?
        && Read(m.world, RegistryCell("CrashDumpEnabled"), s).None? then Failure
    else Success
  }

  // --- Which schemes a command reaches --------------------------------------------------------

  /** The command line asks for the scheme: it names none, or all, or this one. */
  predicate Wanted(t: Scheme, option: Option<string>) {
    match option
    case None => true
    case Some(text) => text == "all" || t.guid == text || t.name == text
  }

  lemma {:induction false} SelectedWanted(schemes: seq<Scheme>, text: string, t: Scheme)
    requires text != "all"
    ensures t in Selected(schemes, text) <==> t in schemes && Wanted(t, Some(text))
  {
    if schemes != [] {
      var n := |schemes| - 1;
      SelectedWanted(schemes[..n], text, t);
      assert schemes == schemes[..n] + [schemes[n]];
    }
  }

  lemma {:induction false} TargetsWanted(s: Session, t: Scheme)
    ensures t in Targets(s) <==> t in s.schemes && Wanted(t, s.option)
  {
    if s.option.Some? && s.option.value != "all" { SelectedWanted(s.schemes, s.option.value, t); }
  }

  lemma {:induction false} NoSchemeWanted(s: Session)
    ensures NoScheme(s)
       <==> s.option.Some? && s.option.value != "all" && forall t <- s.schemes :: !Wanted(t, s.option)
  {
    if s.option.Some? && s.option.value != "all" {
      var few := Selected(s.schemes, s.option.value);
      if t :| t in s.schemes && Wanted(t, s.option) { SelectedWanted(s.schemes, s.option.value, t); }
      if few != [] { SelectedWanted(s.schemes, s.option.value, few[0]); }
    }
  }

  /** An apply changes a power setting only of a scheme that is there and was asked for. */
  lemma {:induction false} ApplyReachesWanted(m: Machine, name: string, s: Session, cell: Cell, other: string -> int)
    requires cell.PowerCell? && Lookup(Step(m, Apply(name, s), other).world, cell) != Lookup(m.world, cell)
    ensures exists t <- s.schemes :: t.guid == cell.scheme && Wanted(t, s.option)
  {
    ApplyShots(m, name, s, cell, other);
    var t :| t in Targets(s) && t.guid == cell.scheme;
    TargetsWanted(s, t);
  }

  /** And of each such scheme, where the setting can be read and written, it sets it. */
  lemma {:induction false} ApplyReachesAllWanted(m: Machine, name: string, s: Session, t: Scheme, other: string -> int)
    requires Find(name).Some? && Find(name).value.kind.PowerSetting? && s.elevated && s.confirmed
    requires Loaded(m, s, other).Some? && t in s.schemes && Wanted(t, s.option)
    requires var cell := PowerCell(t.guid, Find(name).value.setting);
             Read(m.world, cell, s).Some? && s.outcome(cell).Done?
    ensures var cell := PowerCell(t.guid, Find(name).value.setting);
            Lookup(Step(m, Apply(name, s), other).world, cell) == Some(Find(name).value.target)
  {
    FoundName(Mitigations(), name);
    NoSchemeWanted(s);
    TargetsWanted(s, t);
    ApplyPowerSets(Find(name).value, Targets(s), m.world, s, PowerCell(t.guid, Find(name).value.setting));
  }

  /** A revert restores what is recorded, whatever schemes are asked for. */
  lemma {:induction false} RevertIgnoresSchemes(m: Machine, name: string, s: Session, t: Session, other: string -> int)
    requires Reverts(m, name, s, other) && !NoScheme(t) && t == s.(schemes := t.schemes, option := t.option)
    ensures Step(m, Revert(name, t), other) == Step(m, Revert(name, s), other)
  {
  }

  /** What each exit code says. A known, elevated command is refused for its usage exactly when
      it asks for a scheme that is not there. */
  lemma {:induction false} ExitCodesTell(m: Machine, c: Command, other: string -> int)
    requires !c.External?
    ensures var s, code := c.session, ExitCode(m, c, other);
            && (code.Usage?
                <==> (Find(c.name).None?
                      || (s.elevated && s.option.Some? && s.option.value != "all"
                          && forall t <- s.schemes :: !Wanted(t, s.option))))
            && (code.NeedsElevation? <==> Find(c.name).Some? && !s.elevated)
            && (code.Usage? || code.NeedsElevation? ==> Step(m, c, other) == m)
  {
    NoSchemeWanted(c.session);
  }

  /** A revert the user turns down is a success exactly when there was something to restore. */
  lemma {:induction false} TurnedDown(m: Machine, name: string, s: Session, other: string -> int)
    requires Sound(m, other) && Ready(m, name, s, other) && s.readable && !s.confirmed
    ensures ExitCode(m, Revert(name, s), other).Success?
       <==> exists cell :: Stored(Remembered(m, other).value, name, cell).Some?
  {
    var entries := Remembered(m, other).value;
    assert Loaded(m, s, other) == Some(entries);
    NothingStored(entries, name);
  }

  /** An apply that goes through, or that the user turns down, is a success, and no other is. */
  lemma {:induction false} ApplySucceeds(m: Machine, name: string, s: Session, other: string -> int)
    ensures ExitCode(m, Apply(name, s), other).Success?
       <==> Applies(m, name, s.(confirmed := true), other)
    ensures !s.confirmed ==> Step(m, Apply(name, s), other) == m == Step(m, Revert(name, s), other)
  {
  }

  /** The cells a revert has a value for. */
  ghost predicate Remembers(entries: seq<StateEntry>, name: string, cell: Cell) {
    Stored(entries, name, cell).Some? && Stored(entries, name, cell).value.Some?
  }

  lemma {:induction false} RestoresCell(e: StateEntry, outcome: Cell -> Outcome)
    requires Proper(e)
    ensures Restores(e, outcome) <==> (Previous(e).Some? ==> outcome(CellOf(e)).Done?)
  {
  }

  lemma {:induction false} LastStored(entries: seq<StateEntry>)
    requires entries != [] && OneEach(entries)
    ensures var e := entries[|entries| - 1]; Stored(entries, e.mitigation, CellOf(e)) == Some(Previous(e))
  {
    var n := |entries| - 1;
    StoredSome(entries[..n], entries[n].mitigation, CellOf(entries[n]));
  }

  lemma {:induction false} AllRestoreDone(entries: seq<StateEntry>, name: string, outcome: Cell -> Outcome)
    requires AllProper(entries) && OneEach(entries) && forall i | 0 <= i < |entries| :: entries[i].mitigation == name
    ensures AllRestore(entries, outcome) <==> forall cell | Remembers(entries, name, cell) :: outcome(cell).Done?
  {
    if entries != [] {
      var n := |entries| - 1;
      var e := entries[n];
      PrefixOrderly(entries);
      AllRestoreDone(entries[..n], name, outcome);
      RestoresCell(e, outcome);
      LastStored(entries);
      forall cell ensures Remembers(entries, name, cell)
                     <==> Remembers(entries[..n], name, cell) || (cell == CellOf(e) && Previous(e).Some?) {
        if cell == CellOf(e) { StoredSome(entries[..n], name, cell); }
      }
    }
  }

  /** A value was read of the cell before the first recorded apply since the records were last
      dropped. */
  ghost predicate HadValue(start: Machine, run: seq<Command>, name: string, cell: Cell, other: string -> int) {
    Original(start, run, name, cell, other).Some? && Original(start, run, name, cell, other).value.Some?
  }

  /** A confirmed revert that finds a snapshot reports success exactly when every write it had
      to make went through. */
  lemma {:induction false} SuccessMeansWritten(start: Machine, run: seq<Command>, name: string, s: Session,
                                               other: string -> int)
    requires start.file.None? && Reverts(Run(start, run, other), name, s, other)
    ensures ExitCode(Run(start, run, other), Revert(name, s), other).Success?
       <==> forall cell | HadValue(start, run, name, cell, other) :: s.outcome(cell).Done?
  {
    var entries := Loaded(Run(start, run, other), s, other).value;
    var saved := EntriesOf(entries, name);
    RunRemembersOriginals(start, run, name, RegistryCell(""), other);
    EntriesOfKeeps(entries, name);
    EntriesOfNamed(entries, name);
    AllRestoreDone(saved, name, s.outcome);
    forall cell ensures Remembers(saved, name, cell) <==> HadValue(start, run, name, cell, other) {
      RunRemembersOriginals(start, run, name, cell, other);
      StoredEntriesOf(entries, name, cell);
    }
  }

  /** When it does, every cell of which a value was read has that value again. */
  lemma {:induction false} SuccessMeansRestored(start: Machine, run: seq<Command>, name: string, s: Session, cell: Cell,
                                                other: string -> int)
    requires start.file.None? && Reverts(Run(start, run, other), name, s, other)
    requires ExitCode(Run(start, run, other), Revert(name, s), other).Success?
             && HadValue(start, run, name, cell, other)
    ensures Lookup(Step(Run(start, run, other), Revert(name, s), other).world, cell)
         == Original(start, run, name, cell, other).value
  {
    SuccessMeansWritten(start, run, name, s, other);
    assert s.outcome(cell).Done?;
    RevertRestores(start, run, name, s, cell, Original(start, run, name, cell, other).value.value, other);
  }

  class Computer {
    var world: World
    var file: Option<string>

    constructor (world: World, file: Option<string>)
      ensures St() == Machine(world, file)
    {
      this.world, this.file := world, file;
    }

    ghost function St(): Machine
      reads this
    {
      Machine(world, file)
    }

    method WriteCell(cell: Cell, r: Reading, outcome: Outcome) returns (ok: bool)
      modifies this`world
      ensures world == Write(old(world), cell, r, outcome) && ok == outcome.Done?
    {
      world := Write(world, cell, r, outcome);
      ok := outcome.Done?;
    }

    method Restore(saved: seq<StateEntry>, outcome: Cell -> Outcome) returns (allOk: bool)
      modifies this`world
      ensures world == RestoreAll(old(world), saved, outcome)
      ensures allOk == AllRestore(saved, outcome)
    {
      allOk := true;
      for i := 0 to |saved|
        invariant world == RestoreAll(old(world), saved[..i], outcome)
        invariant allOk == AllRestore(saved[..i], outcome)
      {
        assert saved[..i + 1][..i] == saved[..i];
        var entry := saved[i];
        var ok := true;
        if entry.kind == "power" {
          var cell := PowerCell(entry.scope, entry.key);
          ok := WriteCell(cell, Reading(entry.previousAc, entry.previousDc), outcome(cell));
        } else if entry.kind == "registry" {
          if entry.previousPresent {
            var cell := RegistryCell(entry.key);
            ok := WriteCell(cell, Reading(entry.previousAc, 0), outcome(cell));
          }
        }
        if !ok { allOk := false; }
      }
      assert saved[..|saved|] == saved;
    }

    method ApplyToSchemes(m: Mitigation, targets: seq<Scheme>, s: Session) returns (snapshot: seq<StateEntry>)
      modifies this`world
      ensures (world, snapshot) == ApplyPower(m, targets, old(world), s)
    {
      snapshot := [];
      for i := 0 to |targets|
        invariant (world, snapshot) == ApplyPower(m, targets[..i], old(world), s)
      {
        assert targets[..i + 1][..i] == targets[..i];
        var cell := PowerCell(targets[i].guid, m.setting);
        var before := Read(world, cell, s);
        if before.Some? {
          snapshot := snapshot + [PowerShot(m, targets[i], before.value, s.clock(|snapshot|))];
          var _ := WriteCell(cell, m.target, s.outcome(cell));
        }
      }
      assert targets[..|targets|] == targets;
    }

    method ApplyToRegistry(name: string, s: Session) returns (snapshot: seq<StateEntry>)
      modifies this`world
      ensures (world, snapshot) == ApplyRegistry(name, Changes(name), old(world), s)
    {
      var before := world;
      var changes := Changes(name);
      snapshot := [];
      for i := 0 to |changes|
        invariant (world, snapshot) == ApplyRegistry(name, changes[..i], before, s)
      {
        assert changes[..i + 1][..i] == changes[..i];
        var cell := RegistryCell(changes[i].key);
        snapshot := snapshot + [RegistryShot(name, changes[i], Read(before, cell, s), s.clock(|snapshot|))];
        var _ := WriteCell(cell, Reading(changes[i].target, 0), s.outcome(cell));
      }
      assert changes[..|changes|] == changes;
    }

    method DoRevert(store: Store, name: string, s: Session) returns (code: Exit)
      requires store.path != ""
      modifies this, store
      ensures var saved := EntriesOf(old(store.entries), name);
              St() == if saved == [] || !s.confirmed then old(St())
                      else Machine(RestoreAll(old(world), saved, s.outcome),
                                   Saved(old(St()), Without(old(store.entries), name), s))
      ensures var saved := EntriesOf(old(store.entries), name);
              code == if saved != [] && (s.confirmed ==> AllRestore(saved, s.outcome)) then Success else Failure
    {
      var saved := store.EntriesFor(name);
      if saved == [] { return Failure; }
      if !s.confirmed { return Success; }
      var allOk := Restore(saved, s.outcome);
      store.Remove(name);
      var _, after := store.Save(file, s.saved);
      file := after;
      return if allOk then Success else Failure;
    }

    method DoApply(store: Store, m: Mitigation, s: Session) returns (code: Exit)
      requires store.path != ""
      modifies this, store
      ensures var blocked := m.kind.CrashControl? && Read(old(world), RegistryCell("CrashDumpEnabled"), s).None?;
              && code == (if blocked then Failure else Success)
              && St() == if blocked || !s.confirmed then old(St())
                         else Machine(ApplyAll(m, old(world), s).0,
                                      Saved(old(St()), AddAll(old(store.entries), ApplyAll(m, old(world), s).1), s))
    {
      var snapshot;
      if m.kind.PowerSetting? {
        if !s.confirmed { return Success; }
        snapshot := ApplyToSchemes(m, Targets(s), s);
      } else {
        if Read(world, RegistryCell("CrashDumpEnabled"), s).None? { return Failure; }
        if !s.confirmed { return Success; }
        snapshot := ApplyToRegistry(m.name, s);
      }
      AddShots(store, snapshot);
      var _, after := store.Save(file, s.saved);
      file := after;
      return Success;
    }

    method AddShots(store: Store, snapshot: seq<StateEntry>)
      modifies store
      ensures store.entries == AddAll(old(store.entries), snapshot)
    {
      for i := 0 to |snapshot|
        invariant store.entries == AddAll(old(store.entries), snapshot[..i])
      {
        assert snapshot[..i + 1][..i] == snapshot[..i];
        store.Add(snapshot[i]);
      }
      assert snapshot[..|snapshot|] == snapshot;
    }

    /** `pm mitigate apply|revert <name>`. */
    method RunMitigate(revert: bool, name: string, s: Session, other: string -> int) returns (code: Exit)
      modifies this
      ensures St() == Step(old(St()), if revert then Revert(name, s) else Apply(name, s), other)
      ensures code == ExitCode(old(St()), if revert then Revert(name, s) else Apply(name, s), other)
    {
      var mitigation := Find(name);
      if mitigation.None? { return Usage; }
      if !s.elevated { return NeedsElevation; }
      if NoScheme(s) { return Usage; }
      var store := new Store(s.path);
      var loaded := store.Load(if s.readable then file else None, other);
      if !loaded.ok && !loaded.missing { return Failure; }
      FoundName(Mitigations(), name);
      if revert {
        code := DoRevert(store, name, s);
      } else {
        code := DoApply(store, mitigation.value, s);
      }
    }
  }
}
