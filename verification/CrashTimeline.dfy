/** The crash timeline: sorted rows, collapsed repeats, and boot sessions. */
module CrashTimeline {
  import opened Sorting
  import opened Splits
  import opened Text

  datatype Kind =
    | WheaIncident
    | UnexpectedShutdown
    | Bugcheck
    | DirtyShutdown
    | BootStart
    | OsShutdown
    | ThermalOrPowerLimit
    | Hypervisor

  datatype Entry = Entry(
    time: int,
    kind: Kind,
    summary: string,
    notes: seq<string>,
    repeats: nat,
    bugcheckCode: Option<nat>,
    session: Option<nat>)

  // --- Collapsing repeats ------------------------------------------------------------------

  const COLLAPSE_WINDOW := 5

  /** The entry repeats the row that starts at `first`. */
  predicate Repeats(first: Entry, e: Entry) {
    first.kind == e.kind && first.summary == e.summary && e.time - first.time <= COLLAPSE_WINDOW
  }

  function Groups(entries: seq<Entry>): (r: seq<seq<Entry>>)
    ensures forall k | 0 <= k < |r| :: r[k] != []
  {
    if entries == [] then [] else
    var n := |entries| - 1;
    var groups := Groups(entries[..n]);
    var last := |groups| - 1;
    if groups != [] && Repeats(groups[last][0], entries[n]) then groups[last := groups[last] + [entries[n]]]
    else groups + [[entries[n]]]
  }

  /** Notes of the second list that the first does not have yet go to its end. */
  function Merge(notes: seq<string>, more: seq<string>): seq<string> {
    if more == [] then notes else
    var n := |more| - 1;
    var so := Merge(notes, more[..n]);
    if more[n] in so then so else so + [more[n]]
  }

  function Row(group: seq<Entry>): Entry
    requires group != []
  {
    var n := |group| - 1;
    if n == 0 then group[0] else
    var row := Row(group[..n]);
    row.(repeats := row.repeats + 1, notes := Merge(row.notes, group[n].notes))
  }

  function Rows(groups: seq<seq<Entry>>): (r: seq<Entry>)
    requires forall k | 0 <= k < |groups| :: groups[k] != []
    ensures |r| == |groups|
  {
    seq(|groups|, k requires 0 <= k < |groups| => Row(groups[k]))
  }

  function Collapsed(entries: seq<Entry>): seq<Entry> { Rows(Groups(entries)) }

  /** Every entry repeats the first of its group, and no group's first repeats the first of
      the group before. */
  ghost predicate Grouped(groups: seq<seq<Entry>>)
    requires forall k | 0 <= k < |groups| :: groups[k] != []
  {
    && (forall k, i | 0 <= k < |groups| && 0 < i < |groups[k]| :: Repeats(groups[k][0], groups[k][i]))
    && (forall k | 0 < k < |groups| :: !Repeats(groups[k - 1][0], groups[k][0]))
  }

  lemma {:induction false} GroupedNew(groups: seq<seq<Entry>>, e: Entry)
    requires forall k | 0 <= k < |groups| :: groups[k] != []
    requires Grouped(groups) && (groups != [] ==> !Repeats(groups[|groups| - 1][0], e))
    ensures Grouped(groups + [[e]])
  {
  }

  lemma {:induction false} GroupedMore(groups: seq<seq<Entry>>, e: Entry)
    requires groups != [] && forall k | 0 <= k < |groups| :: groups[k] != []
    requires Grouped(groups) && Repeats(groups[|groups| - 1][0], e)
    ensures Grouped(groups[|groups| - 1 := groups[|groups| - 1] + [e]])
  {
  }

  lemma {:induction false} GroupsShape(entries: seq<Entry>)
    ensures Flatten(Groups(entries)) == entries && Grouped(Groups(entries))
  {
    if entries != [] {
      var n := |entries| - 1;
      var groups := Groups(entries[..n]);
      GroupsShape(entries[..n]);
      assert entries[..n] + [entries[n]] == entries;
      if groups != [] && Repeats(groups[|groups| - 1][0], entries[n]) {
        FlattenGrow(groups, entries[n]);
        GroupedMore(groups, entries[n]);
      } else {
        FlattenSnoc(groups, [entries[n]]);
        GroupedNew(groups, entries[n]);
      }
    }
  }

  /** The entries of one row are of one kind, say the same and lie within five seconds of the
      first; the next row is of another kind, says something else or begins later. */
  lemma {:induction false} GroupsTell(entries: seq<Entry>, k: nat)
    requires k < |Groups(entries)|
    ensures var group := Groups(entries)[k];
            && (forall e <- group :: e.kind == group[0].kind && e.summary == group[0].summary
                  && (e == group[0] || e.time - group[0].time <= 5))
            && (k + 1 < |Groups(entries)| ==>
                  var next := Groups(entries)[k + 1][0];
                  next.kind != group[0].kind || next.summary != group[0].summary || next.time - group[0].time > 5)
  {
    GroupsShape(entries);
    var group := Groups(entries)[k];
    forall e | e in group
      ensures e.kind == group[0].kind && e.summary == group[0].summary
              && (e == group[0] || e.time - group[0].time <= 5)
    {
      var i :| 0 <= i < |group| && group[i] == e;
      if i > 0 { assert Repeats(group[0], group[i]); }
    }
    if k + 1 < |Groups(entries)| { assert !Repeats(Groups(entries)[k + 1 - 1][0], Groups(entries)[k + 1][0]); }
  }

  lemma {:induction false} RowFields(group: seq<Entry>)
    requires group != []
    ensures var row, first := Row(group), group[0];
            && row == first.(repeats := first.repeats + |group| - 1, notes := row.notes)
            && (forall s :: s in row.notes <==> exists e <- group :: s in e.notes)
  {
    var n := |group| - 1;
    if n > 0 {
      RowFields(group[..n]);
      MergeHolds(Row(group[..n]).notes, group[n].notes);
      assert group == group[..n] + [group[n]];
    } else {
      assert group == [group[0]];
    }
  }

  lemma {:induction false} MergeHolds(notes: seq<string>, more: seq<string>)
    ensures forall s :: s in Merge(notes, more) <==> s in notes || s in more
  {
    if more != [] {
      MergeHolds(notes, more[..|more| - 1]);
      assert more == more[..|more| - 1] + [more[|more| - 1]];
    }
  }

  /** Every note of a group, entry by entry. */
  function AllNotes(group: seq<Entry>): seq<string> {
    if group == [] then [] else AllNotes(group[..|group| - 1]) + group[|group| - 1].notes
  }

  ghost predicate ComesFirst(all: seq<string>, a: string, b: string) {
    exists i | 0 <= i < |all| :: all[i] == a && b !in all[..i]
  }

  /** The notes a row starts with stay in front; after them comes every other note of the group
      once, in the order in which the notes first appear. */
  ghost predicate Gathered(notes: seq<string>, start: seq<string>, all: seq<string>) {
    && start <= notes && (forall s :: s in notes <==> s in all)
    && (forall i, j | 0 <= i < j < |notes| && |start| <= j :: notes[i] != notes[j])
    && (forall i, j | |start| <= i < j < |notes| :: ComesFirst(all, notes[i], notes[j]))
  }

  lemma {:induction false} GatheredSnoc(notes: seq<string>, start: seq<string>, all: seq<string>, s: string)
    requires Gathered(notes, start, all)
    ensures Gathered(if s in notes then notes else notes + [s], start, all + [s])
  {
    var more := if s in notes then notes else notes + [s];
    forall i, j | |start| <= i < j < |more| ensures ComesFirst(all + [s], more[i], more[j]) {
      assert notes[i] in all;
      var k :| 0 <= k < |all| && all[k] == more[i] && (if j < |notes| then more[j] !in all[..k] else true);
      assert (all + [s])[k] == more[i] && (all + [s])[..k] == all[..k];
    }
  }

  lemma {:induction false} GatheredMerge(notes: seq<string>, start: seq<string>, all: seq<string>, more: seq<string>)
    requires Gathered(notes, start, all)
    ensures Gathered(Merge(notes, more), start, all + more)
  {
    if more == [] {
      assert all + more == all;
    } else {
      var n := |more| - 1;
      GatheredMerge(notes, start, all, more[..n]);
      MergeSnoc(notes, more, Merge(notes, more[..n]));
      LastApart(all, more);
      GatheredSnoc(Merge(notes, more[..n]), start, all + more[..n], more[n]);
    }
  }

  lemma {:induction false} MergeSnoc(notes: seq<string>, more: seq<string>, merged: seq<string>)
    requires more != [] && merged == Merge(notes, more[..|more| - 1])
    ensures var s := more[|more| - 1]; Merge(notes, more) == if s in merged then merged else merged + [s]
  {
  }

  lemma {:induction false} LastApart(all: seq<string>, more: seq<string>)
    requires more != []
    ensures all + more == all + more[..|more| - 1] + [more[|more| - 1]]
  {
  }

  lemma {:induction false} RowNotes(group: seq<Entry>)
    requires group != []
    ensures Gathered(Row(group).notes, group[0].notes, AllNotes(group))
  {
    var n := |group| - 1;
    if n == 0 {
      assert AllNotes(group[..0]) == [] && AllNotes(group) == [] + group[0].notes == group[0].notes;
    } else {
      RowNotes(group[..n]);
      GatheredMerge(Row(group[..n]).notes, group[0].notes, AllNotes(group[..n]), group[n].notes);
    }
  }

  function TotalRepeats(rows: seq<Entry>): nat {
    if rows == [] then 0 else TotalRepeats(rows[..|rows| - 1]) + rows[|rows| - 1].repeats
  }

  /** Nothing is lost by collapsing: the repeats add up to the number of entries. */
  lemma {:induction false} RepeatsAddUp(groups: seq<seq<Entry>>)
    requires forall k | 0 <= k < |groups| :: groups[k] != []
    requires forall k | 0 <= k < |groups| :: groups[k][0].repeats == 1
    ensures TotalRepeats(Rows(groups)) == |Flatten(groups)|
  {
    if groups != [] {
      var n := |groups| - 1;
      RepeatsAddUp(groups[..n]);
      RowFields(groups[n]);
      assert Rows(groups)[..n] == Rows(groups[..n]);
    }
  }

  /** Collapsing keeps the count, leaves no two neighbours that repeat, and has nothing
      more to do on its own result. */
  lemma {:induction false} CollapsedRows(entries: seq<Entry>)
    requires forall e <- entries :: e.repeats == 1
    ensures var rows := Collapsed(entries);
            && TotalRepeats(rows) == |entries|
            && (forall k | 0 < k < |rows| :: !Repeats(rows[k - 1], rows[k]))
            && Collapsed(rows) == rows
  {
    var groups: seq<seq<Entry>>, rows: seq<Entry> := Groups(entries), Collapsed(entries);
    GroupsShape(entries);
    forall k | 0 <= k < |groups| ensures groups[k][0].repeats == 1 {
      PartInFlatten(groups, k);
      assert groups[k][0] == entries[Before(groups, k)];
    }
    RepeatsAddUp(groups);
    forall k | 0 <= k < |rows| ensures rows[k] == groups[k][0].(repeats := rows[k].repeats, notes := rows[k].notes) {
      RowFields(groups[k]);
    }
    forall k | 0 < k < |rows| ensures !Repeats(rows[k - 1], rows[k]) {
      assert !Repeats(groups[k - 1][0], groups[k][0]);
    }
    NothingRepeats(rows);
  }

  lemma {:induction false} NothingRepeats(rows: seq<Entry>)
    requires forall k | 0 < k < |rows| :: !Repeats(rows[k - 1], rows[k])
    ensures |Groups(rows)| == |rows| && (forall k | 0 <= k < |rows| :: Groups(rows)[k] == [rows[k]])
    ensures Collapsed(rows) == rows
  {
    if rows != [] {
      var n := |rows| - 1;
      NothingRepeats(rows[..n]);
      if n > 0 { assert !Repeats(rows[n - 1], rows[n]); }
    }
  }

  // --- Boot sessions -------------------------------------------------------------------------

  datatype Session = Session(
    start: int,
    end: Option<int>,
    endedUnexpectedly: bool,
    hadBugcheck: bool,
    wheaIncidents: nat,
    firstEntry: nat)

  const SAME_BOOT := 60

  /** The indices of the rows of one kind. */
  ghost function Where(rows: seq<Entry>, p: Entry -> bool): set<nat> { set i: nat | i < |rows| && p(rows[i]) }

  lemma {:induction false} WhereSnoc(rows: seq<Entry>, row: Entry, p: Entry -> bool)
    ensures |Where([], p)| == 0
    ensures |Where(rows + [row], p)| == |Where(rows, p)| + if p(row) then 1 else 0
  {
    var more := rows + [row];
    assert Where(more, p) == Where(rows, p) + if p(row) then {|rows|} else {};
    assert Where([], p) == {};
  }

  predicate IsWhea(e: Entry) { e.kind == WheaIncident }

  /** What a session says of its rows. */
  ghost predicate Tells(x: Session, block: seq<Entry>) {
    && block != [] && block[0].kind.BootStart? && x.start == block[0].time
    && x.end == Some(block[|block| - 1].time)
    && x.endedUnexpectedly == (exists e <- block :: e.kind.UnexpectedShutdown? || e.kind.DirtyShutdown?)
    && x.hadBugcheck == (exists e <- block :: e.kind.Bugcheck?)
    && x.wheaIncidents == |Where(block, IsWhea)|
    && forall e <- block :: e.kind.BootStart? ==> e.time - x.start <= 60
  }

  /** The rows before the first boot, then one block a session. */
  datatype Boots = Boots(prelude: seq<Entry>, blocks: seq<seq<Entry>>)

  predicate Whole(blocks: seq<seq<Entry>>) { forall k | 0 <= k < |blocks| :: blocks[k] != [] }

  /** A boot marker starts a session unless the last one started moments ago. */
  predicate Starts(row: Entry, blocks: seq<seq<Entry>>)
    requires Whole(blocks)
  {
    row.kind.BootStart? && !(blocks != [] && row.time - blocks[|blocks| - 1][0].time <= SAME_BOOT)
  }

  function CutRow(b: Boots, row: Entry): (r: Boots)
    requires Whole(b.blocks)
    ensures Whole(r.blocks)
  {
    if Starts(row, b.blocks) then b.(blocks := b.blocks + [[row]])
    else if b.blocks == [] then b.(prelude := b.prelude + [row])
    else b.(blocks := b.blocks[|b.blocks| - 1 := b.blocks[|b.blocks| - 1] + [row]])
  }

  function Cut(rows: seq<Entry>): (r: Boots)
    ensures Whole(r.blocks)
  {
    if rows == [] then Boots([], []) else CutRow(Cut(rows[..|rows| - 1]), rows[|rows| - 1])
  }

  /** Session by session: what each says of its block, and where the block starts. */
  ghost predicate SessionsOf(b: Boots, sessions: seq<Session>)
    requires Whole(b.blocks)
    decreases |b.blocks|
  {
    && |sessions| == |b.blocks|
    && var n := |sessions| - 1;
       n >= 0 ==>
         && SessionsOf(b.(blocks := b.blocks[..n]), sessions[..n])
         && Tells(sessions[n], b.blocks[n]) && sessions[n].firstEntry == |b.prelude| + Before(b.blocks, n)
  }

  lemma {:induction false} SessionTells(b: Boots, sessions: seq<Session>, k: nat)
    requires Whole(b.blocks) && SessionsOf(b, sessions) && k < |sessions|
    ensures Tells(sessions[k], b.blocks[k]) && sessions[k].firstEntry == |b.prelude| + Before(b.blocks, k)
    decreases |sessions|
  {
    var n := |sessions| - 1;
    if k < n {
      SessionTells(b.(blocks := b.blocks[..n]), sessions[..n], k);
      BeforePrefix(b.blocks, n, k);
    }
  }

  /** The session a row belongs to once the rows up to it are seen. */
  ghost function SessionAt(rows: seq<Entry>, i: nat): Option<nat>
    requires i < |rows|
  {
    var blocks := Cut(rows[..i + 1]).blocks;
    if blocks == [] then None else Some(|blocks| - 1)
  }

  /** The rows with their sessions. */
  ghost function Named(rows: seq<Entry>): (r: seq<Entry>)
    ensures |r| == |rows|
  {
    if rows == [] then [] else
    var n := |rows| - 1;
    Named(rows[..n]) + [InSession(rows[n], Cut(rows).blocks)]
  }

  ghost function InSession(row: Entry, blocks: seq<seq<Entry>>): Entry {
    if blocks == [] then row else row.(session := Some(|blocks| - 1))
  }

  lemma {:induction false} NamedAt(rows: seq<Entry>, i: nat)
    requires i < |rows|
    ensures Named(rows)[i] == if SessionAt(rows, i).None? then rows[i] else rows[i].(session := SessionAt(rows, i))
  {
    var n := |rows| - 1;
    if i < n {
      assert rows[..n][..i + 1] == rows[..i + 1];
      NamedAt(rows[..n], i);
    } else {
      assert rows[..i + 1] == rows;
    }
  }

  ghost predicate ProperBoots(b: Boots)
    requires Whole(b.blocks)
  {
    && (forall e <- b.prelude :: !e.kind.BootStart?)
    && (forall k | 0 <= k < |b.blocks| :: b.blocks[k][0].kind.BootStart?)
    && (forall k, i | 0 <= k < |b.blocks| && 0 < i < |b.blocks[k]| ::
          b.blocks[k][i].kind.BootStart? ==> b.blocks[k][i].time - b.blocks[k][0].time <= 60)
    && (forall k | 0 < k < |b.blocks| :: b.blocks[k][0].time - b.blocks[k - 1][0].time > 60)
  }

  lemma {:induction false} CutRowFlat(b: Boots, row: Entry)
    requires Whole(b.blocks)
    ensures CutRow(b, row).prelude + Flatten(CutRow(b, row).blocks) == b.prelude + Flatten(b.blocks) + [row]
  {
    FlattenSnoc(b.blocks, [row]);
    if b.blocks != [] {
      FlattenGrow(b.blocks, row);
    } else {
      assert b.prelude + Flatten(b.blocks) == b.prelude;
    }
    assert b.prelude + Flatten(b.blocks) + [row] == b.prelude + (Flatten(b.blocks) + [row]);
  }

  lemma {:induction false} CutRowProper(b: Boots, row: Entry)
    requires Whole(b.blocks) && ProperBoots(b)
    ensures ProperBoots(CutRow(b, row))
  {
    if Starts(row, b.blocks) {
      StartProper(b, row);
    } else if b.blocks != [] {
      GrowProper(b, row);
    }
  }

  lemma {:induction false} StartProper(b: Boots, row: Entry)
    requires Whole(b.blocks) && ProperBoots(b) && Starts(row, b.blocks)
    ensures ProperBoots(b.(blocks := b.blocks + [[row]]))
  {
  }

  lemma {:induction false} GrowProper(b: Boots, row: Entry)
    requires Whole(b.blocks) && ProperBoots(b) && b.blocks != [] && !Starts(row, b.blocks)
    ensures ProperBoots(b.(blocks := b.blocks[|b.blocks| - 1 := b.blocks[|b.blocks| - 1] + [row]]))
  {
  }

  /** The blocks follow the rows before the first boot marker; each starts with a boot
      marker more than a minute after the start of the block before, and holds no other boot
      marker later than a minute into it. */
  lemma {:induction false} CutShape(rows: seq<Entry>)
    ensures Cut(rows).prelude + Flatten(Cut(rows).blocks) == rows && ProperBoots(Cut(rows))
  {
    if rows != [] {
      var n := |rows| - 1;
      CutShape(rows[..n]);
      assert rows[..n] + [rows[n]] == rows;
      CutRowFlat(Cut(rows[..n]), rows[n]);
      CutRowProper(Cut(rows[..n]), rows[n]);
    }
  }

  /** A row is inside the block of its session; rows without a session come before all. */
  ghost predicate Inside(b: Boots, k: Option<nat>, i: nat) {
    if k.None? then i < |b.prelude|
    else k.value < |b.blocks| && |b.prelude| + Before(b.blocks, k.value) <= i
         < |b.prelude| + Before(b.blocks, k.value + 1)
  }

  lemma {:induction false} InsideStays(b: Boots, row: Entry, k: Option<nat>, i: nat)
    requires Whole(b.blocks) && Inside(b, k, i)
    ensures Inside(CutRow(b, row), k, i)
  {
    if k.Some? && (Starts(row, b.blocks) || b.blocks != []) {
      BoundsGrow(b.blocks, CutRow(b, row).blocks, row, k.value, i - |b.prelude|);
    }
  }

  lemma {:induction false} RowInBlock(rows: seq<Entry>, i: nat)
    requires i < |rows|
    ensures Inside(Cut(rows), SessionAt(rows, i), i)
  {
    var n := |rows| - 1;
    if i < n {
      assert rows[..n][..i + 1] == rows[..i + 1];
      RowInBlock(rows[..n], i);
      InsideStays(Cut(rows[..n]), rows[n], SessionAt(rows, i), i);
    } else {
      assert rows[..i + 1] == rows;
      CutShape(rows);
      if Cut(rows).blocks != [] { LastBounds(Cut(rows).blocks); }
    }
  }

  function Begun(sessions: seq<Session>, row: Entry, i: nat): seq<Session> {
    if row.kind.BootStart? && !(sessions != [] && row.time - sessions[|sessions| - 1].start <= SAME_BOOT)
    then sessions + [Session(row.time, None, false, false, 0, i)]
    else sessions
  }

  function Seen(x: Session, row: Entry): Session {
    var y := x.(end := Some(row.time));
    match row.kind
    case UnexpectedShutdown => y.(endedUnexpectedly := true)
    case DirtyShutdown => y.(endedUnexpectedly := true)
    case Bugcheck => y.(hadBugcheck := true)
    case WheaIncident => y.(wheaIncidents := y.wheaIncidents + 1)
    case _ => y
  }

  lemma {:induction false} FirstTells(row: Entry, i: nat)
    requires row.kind.BootStart?
    ensures Tells(Seen(Session(row.time, None, false, false, 0, i), row), [row])
  {
    WhereSnoc([], row, IsWhea);
    assert [] + [row] == [row];
  }

  lemma {:induction false} MoreTells(x: Session, block: seq<Entry>, row: Entry)
    requires Tells(x, block) && (row.kind.BootStart? ==> row.time - x.start <= SAME_BOOT)
    ensures Tells(Seen(x, row), block + [row])
  {
    var more := block + [row];
    assert forall e :: e in more <==> e in block || e == row;
    assert row in more;
    WhereSnoc(block, row, IsWhea);
    MoreAny(block, row, (e: Entry) => e.kind.UnexpectedShutdown? || e.kind.DirtyShutdown?);
    MoreAny(block, row, (e: Entry) => e.kind.Bugcheck?);
  }

  lemma {:induction false} MoreAny(block: seq<Entry>, row: Entry, flag: Entry -> bool)
    ensures (exists e <- block + [row] :: flag(e)) <==> (exists e <- block :: flag(e)) || flag(row)
  {
    assert forall e :: e in block + [row] <==> e in block || e == row;
    if flag(row) { assert row in block + [row]; }
  }

  function WithRow(begun: seq<Session>, row: Entry): seq<Session> {
    if begun == [] then [] else
    var n := |begun| - 1;
    begun[n := Seen(begun[n], row)]
  }

  lemma {:induction false} BegunWhenStarts(b: Boots, sessions: seq<Session>, row: Entry, n: nat)
    requires Whole(b.blocks) && SessionsOf(b, sessions)
    ensures Begun(sessions, row, n)
         == if Starts(row, b.blocks) then sessions + [Session(row.time, None, false, false, 0, n)] else sessions
  {
  }

  lemma {:induction false} LastSees(sessions: seq<Session>, x: Session, row: Entry)
    ensures WithRow(sessions + [x], row) == sessions + [Seen(x, row)]
  {
  }

  /** One row of the session loop. */
  lemma {:induction false} RowSessions(b: Boots, sessions: seq<Session>, row: Entry, n: nat)
    requires Whole(b.blocks) && SessionsOf(b, sessions) && n == |b.prelude| + Before(b.blocks, |b.blocks|)
    ensures SessionsOf(CutRow(b, row), WithRow(Begun(sessions, row, n), row))
  {
    BegunWhenStarts(b, sessions, row, n);
    if Starts(row, b.blocks) {
      LastSees(sessions, Session(row.time, None, false, false, 0, n), row);
      NewBlock(b, sessions, row, n);
    } else if sessions != [] {
      GrowBlock(b, sessions, row);
    }
  }

  lemma {:induction false} GrowBlock(b: Boots, sessions: seq<Session>, row: Entry)
    requires Whole(b.blocks) && SessionsOf(b, sessions) && sessions != [] && !Starts(row, b.blocks)
    ensures var n := |sessions| - 1;
            SessionsOf(b.(blocks := b.blocks[n := b.blocks[n] + [row]]), sessions[n := Seen(sessions[n], row)])
  {
    var n := |sessions| - 1;
    MoreTells(sessions[n], b.blocks[n], row);
    LastReplaced(b, sessions, b.blocks[n] + [row], Seen(sessions[n], row));
  }

  lemma {:induction false} LastReplaced(b: Boots, sessions: seq<Session>, block: seq<Entry>, x: Session)
    requires Whole(b.blocks) && SessionsOf(b, sessions) && sessions != [] && block != []
    requires Tells(x, block) && x.firstEntry == sessions[|sessions| - 1].firstEntry
    ensures var n := |sessions| - 1; SessionsOf(b.(blocks := b.blocks[n := block]), sessions[n := x])
  {
    var n := |sessions| - 1;
    var blocks := b.blocks[n := block];
    assert blocks[..n] == b.blocks[..n] && sessions[n := x][..n] == sessions[..n];
    SameBefore(b.blocks, blocks, n);
  }

  lemma {:induction false} NewBlock(b: Boots, sessions: seq<Session>, row: Entry, first: nat)
    requires Whole(b.blocks) && SessionsOf(b, sessions) && row.kind.BootStart?
    requires first == |b.prelude| + Before(b.blocks, |b.blocks|)
    ensures SessionsOf(b.(blocks := b.blocks + [[row]]),
                       sessions + [Seen(Session(row.time, None, false, false, 0, first), row)])
  {
    FirstTells(row, first);
    var x := Seen(Session(row.time, None, false, false, 0, first), row);
    var blocks := b.blocks + [[row]];
    assert blocks[..|b.blocks|] == b.blocks && (sessions + [x])[..|sessions|] == sessions;
    SameBefore(b.blocks, blocks, |b.blocks|);
  }

  lemma {:induction false} CutLength(rows: seq<Entry>)
    ensures |rows| == |Cut(rows).prelude| + Before(Cut(rows).blocks, |Cut(rows).blocks|)
  {
    CutShape(rows);
    FlattenLength(Cut(rows).blocks);
  }

  lemma {:induction false} NextRow(rows: seq<Entry>, i: nat, sessions: seq<Session>)
    requires i < |rows| && SessionsOf(Cut(rows[..i]), sessions)
    ensures var next := WithRow(Begun(sessions, rows[i], i), rows[i]);
            && SessionsOf(Cut(rows[..i + 1]), next)
            && Named(rows[..i + 1]) == Named(rows[..i])
                + [if next == [] then rows[i] else rows[i].(session := Some(|next| - 1))]
  {
    assert rows[..i + 1][..i] == rows[..i];
    CutLength(rows[..i]);
    RowSessions(Cut(rows[..i]), sessions, rows[i], i);
  }

  /** The row with its session, and the sessions that have seen it. */
  method SeeRow(sessions: seq<Session>, row: Entry, i: nat) returns (entry: Entry, next: seq<Session>)
    ensures next == WithRow(Begun(sessions, row, i), row)
    ensures entry == if next == [] then row else row.(session := Some(|next| - 1))
  {
    entry, next := row, sessions;
    if row.kind == BootStart {
      var sameBoot := next != [] && row.time - next[|next| - 1].start <= 60;
      if !sameBoot { next := next + [Session(row.time, None, false, false, 0, i)]; }
    }
    if next == [] { return; }
    var n := |next| - 1;
    entry := entry.(session := Some(n));
    var x := next[n].(end := Some(row.time));
    match row.kind {
      case UnexpectedShutdown => x := x.(endedUnexpectedly := true);
      case DirtyShutdown => x := x.(endedUnexpectedly := true);
      case Bugcheck => x := x.(hadBugcheck := true);
      case WheaIncident => x := x.(wheaIncidents := x.wheaIncidents + 1);
      case _ =>
    }
    next := next[n := x];
  }

  /** Every row of the timeline gets its session, in place. */
  method AssignSessions(entries: array<Entry>) returns (sessions: seq<Session>)
    modifies entries
    ensures SessionsOf(Cut(old(entries[..])), sessions)
    ensures entries[..] == Named(old(entries[..]))
  {
    sessions := [];
    ghost var rows := entries[..];
    for i := 0 to entries.Length
      invariant SessionsOf(Cut(rows[..i]), sessions)
      invariant entries[..i] == Named(rows[..i]) && entries[i..] == rows[i..]
    {
      var row := entries[i];
      assert row == entries[i..][0] == rows[i];
      NextRow(rows, i, sessions);
      entries[i], sessions := SeeRow(sessions, row, i);
      assert entries[..i + 1] == entries[..i] + [entries[i]];
    }
    assert rows[..entries.Length] == rows && entries[..entries.Length] == entries[..];
  }

  // --- The whole timeline --------------------------------------------------------------------

  method CollapseRows(entries: seq<Entry>) returns (rows: seq<Entry>)
    ensures rows == Collapsed(entries)
  {
    rows := [];
    for i := 0 to |entries|
      invariant rows == Collapsed(entries[..i])
    {
      assert entries[..i + 1][..i] == entries[..i];
      var entry := entries[i];
      var n := |rows| - 1;
      CollapsedNext(entries, i);
      if rows != [] && Repeats(rows[n], entry) {
        var notes := MergeNotes(rows[n].notes, entry.notes);
        rows := rows[n := rows[n].(repeats := rows[n].repeats + 1, notes := notes)];
      } else {
        rows := rows + [entry];
      }
    }
    assert entries[..|entries|] == entries;
  }

  method MergeNotes(notes: seq<string>, more: seq<string>) returns (merged: seq<string>)
    ensures merged == Merge(notes, more)
  {
    merged := notes;
    for i := 0 to |more|
      invariant merged == Merge(notes, more[..i])
    {
      assert more[..i + 1][..i] == more[..i];
      if more[i] !in merged { merged := merged + [more[i]]; }
    }
    assert more[..|more|] == more;
  }

  lemma {:induction false} CollapsedNext(entries: seq<Entry>, i: nat)
    requires i < |entries|
    ensures var rows, next, e := Collapsed(entries[..i]), Collapsed(entries[..i + 1]), entries[i];
            var n := |rows| - 1;
            next == if rows != [] && Repeats(rows[n], e)
                    then rows[n := rows[n].(repeats := rows[n].repeats + 1, notes := Merge(rows[n].notes, e.notes))]
                    else rows + [e]
  {
    assert entries[..i + 1][..i] == entries[..i];
    var groups := Groups(entries[..i]);
    var n := |groups| - 1;
    if groups != [] {
      RowFields(groups[n]);
      assert (groups[n] + [entries[i]])[..|groups[n]|] == groups[n];
    }
  }

  /** Windows noticed that it had not been shut down, and no bugcheck had been recorded. */
  predicate IsSilent(e: Entry) {
    e.kind == UnexpectedShutdown && (e.bugcheckCode == None || e.bugcheckCode == Some(0))
  }

  predicate IsCrash(e: Entry) {
    e.kind == UnexpectedShutdown && e.bugcheckCode.Some? && e.bugcheckCode.value != 0
  }

  predicate IsUnexpected(e: Entry) { e.kind == UnexpectedShutdown }

  /** The headline counts split the unexpected shutdowns. */
  lemma {:induction false} ResetsSplit(rows: seq<Entry>)
    ensures |Where(rows, IsSilent)| + |Where(rows, IsCrash)| == |Where(rows, IsUnexpected)|
  {
    if rows == [] {
      WhereSnoc([], Entry(0, Bugcheck, "", [], 0, None, None), IsSilent);
      WhereSnoc([], Entry(0, Bugcheck, "", [], 0, None, None), IsCrash);
      WhereSnoc([], Entry(0, Bugcheck, "", [], 0, None, None), IsUnexpected);
    } else {
      var n := |rows| - 1;
      ResetsSplit(rows[..n]);
      assert rows == rows[..n] + [rows[n]];
      WhereSnoc(rows[..n], rows[n], IsSilent);
      WhereSnoc(rows[..n], rows[n], IsCrash);
      WhereSnoc(rows[..n], rows[n], IsUnexpected);
    }
  }

  method CountResets(rows: seq<Entry>) returns (without: nat, with: nat)
    ensures without == |Where(rows, IsSilent)| && with == |Where(rows, IsCrash)|
    ensures without + with == |Where(rows, IsUnexpected)|
  {
    without, with := 0, 0;
    ResetsSplit(rows);
    assert Where(rows[..0], IsSilent) == {} == Where(rows[..0], IsCrash);
    for i := 0 to |rows|
      invariant without == |Where(rows[..i], IsSilent)| && with == |Where(rows[..i], IsCrash)|
    {
      assert rows[..i + 1] == rows[..i] + [rows[i]];
      WhereSnoc(rows[..i], rows[i], IsSilent);
      WhereSnoc(rows[..i], rows[i], IsCrash);
      if rows[i].kind == UnexpectedShutdown {
        if Code(rows[i]) == 0 { without := without + 1; } else { with := with + 1; }
      }
    }
    assert rows[..|rows|] == rows;
  }

  function Code(e: Entry): nat { if e.bugcheckCode.Some? then e.bugcheckCode.value else 0 }

  predicate NotLater(a: Entry, b: Entry) { a.time <= b.time }

  /** `sorted` is the ghost of the entries in time order; which order ties take is not promised. */
  method BuildTimeline(entries: seq<Entry>)
      returns (timeline: array<Entry>, sessions: seq<Session>, without: nat, with: nat, ghost sorted: seq<Entry>)
    ensures multiset(sorted) == multiset(entries) && Sorted(sorted, NotLater)
    ensures fresh(timeline) && timeline[..] == Named(Collapsed(sorted)) && SessionsOf(Cut(Collapsed(sorted)), sessions)
    ensures without == |Where(timeline[..], IsSilent)| && with == |Where(timeline[..], IsCrash)|
    ensures without + with == |Where(timeline[..], IsUnexpected)|
  {
    var log := Sort(entries, NotLater);
    sorted := log;
    var rows := CollapseRows(log);
    timeline := new Entry[|rows|](i requires 0 <= i < |rows| => rows[i]);
    assert timeline[..] == rows;
    sessions := AssignSessions(timeline);
    without, with := CountResets(timeline[..]);
  }
}
