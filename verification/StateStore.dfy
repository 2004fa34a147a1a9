/** The snapshot store behind `pm mitigate`: what a saved state file says when it is
    loaded again. */
module StateStore {
  import opened Arithmetic
  import opened Text
  import W = JsonWriter
  import R = JsonReader
  import J = JsonRoundTrip

  type U32 = x: int | 0 <= x < 0x1_0000_0000

  datatype StateEntry = StateEntry(
    mitigation: string,
    kind: string,
    scope: string,
    scopeName: string,
    key: string,
    previousPresent: bool,
    previousAc: U32,
    previousDc: U32,
    appliedAt: int)

  // --- What is written --------------------------------------------------------------

  function EntryMembers(e: StateEntry): seq<W.Member> {
    [ W.Member("mitigation", W.Text(e.mitigation)),
      W.Member("kind", W.Text(e.kind)),
      W.Member("scope", W.Text(e.scope)),
      W.Member("scope_name", W.Text(e.scopeName)),
      W.Member("key", W.Text(e.key)),
      W.Member("previous_present", W.Boolean(e.previousPresent)),
      W.Member("previous_ac", W.Integer(e.previousAc)),
      W.Member("previous_dc", W.Integer(e.previousDc)),
      W.Member("applied_at", W.Integer(e.appliedAt)) ]
  }

  function EntryDocs(entries: seq<StateEntry>): (r: seq<W.Doc>)
    ensures |r| == |entries|
  {
    seq(|entries|, i requires 0 <= i < |entries| => W.Object(EntryMembers(entries[i])))
  }

  function StateMembers(entries: seq<StateEntry>): seq<W.Member> {
    [ W.Member("schema_version", W.Integer(1)),
      W.Member("tool", W.Text("postmortem")),
      W.Member("entries", W.Array(EntryDocs(entries))) ]
  }

  function StateText(entries: seq<StateEntry>): string {
    W.Render(W.Object(StateMembers(entries)), true, 0) + "\n"
  }

  // --- What is read -------------------------------------------------------------------

  function MemberOf(v: R.Value, key: string): R.Value {
    if v.Object? && key in v.members then v.members[key] else R.Null
  }

  function AsString(v: R.Value): string { if v.String? then v.text else "" }

  function AsBool(v: R.Value, fallback: bool): bool { if v.Boolean? then v.flag else fallback }

  function AsArray(v: R.Value): seq<R.Value> { if v.Array? then v.items else [] }

  const EXACT_LIMIT: int := 0x20_0000_0000_0000

  /** `llround(strtod(lexeme))`: exact for the integers a double holds; `other` stands for
      the floating-point library everywhere else. */
  function Rounded(lexeme: string, other: string -> int): int {
    var n := J.IntegerLexeme(lexeme);
    if n.Some? && -EXACT_LIMIT <= n.value <= EXACT_LIMIT then n.value else other(lexeme)
  }

  function AsInt(v: R.Value, other: string -> int): int {
    if v.Number? then Rounded(v.lexeme, other) else 0
  }

  function AsUint(v: R.Value, other: string -> int): nat {
    if v.Number? && Rounded(v.lexeme, other) >= 0 then Rounded(v.lexeme, other) else 0
  }

  /** `static_cast<std::uint32_t>`. */
  function ToU32(n: nat): U32 { n % 0x1_0000_0000 }

  function ReadEntry(item: R.Value, other: string -> int): StateEntry {
    StateEntry(
      AsString(MemberOf(item, "mitigation")),
      AsString(MemberOf(item, "kind")),
      AsString(MemberOf(item, "scope")),
      AsString(MemberOf(item, "scope_name")),
      AsString(MemberOf(item, "key")),
      AsBool(MemberOf(item, "previous_present"), true),
      ToU32(AsUint(MemberOf(item, "previous_ac"), other)),
      ToU32(AsUint(MemberOf(item, "previous_dc"), other)),
      AsInt(MemberOf(item, "applied_at"), other))
  }

  /** Items in order, without those that name no mitigation. */
  function ReadEntries(items: seq<R.Value>, other: string -> int): seq<StateEntry> {
    if items == [] then [] else
    var n := |items| - 1;
    var e := ReadEntry(items[n], other);
    ReadEntries(items[..n], other) + if e.mitigation == "" then [] else [e]
  }

  /** The entries in a state file's text; `None` if it is not JSON. */
  function LoadText(text: string, other: string -> int): Option<seq<StateEntry>> {
    match R.Parse(text)
    case Rejected(_) => None
    case Accepted(value) => Some(ReadEntries(AsArray(MemberOf(value, "entries")), other))
  }

  // --- Round trip ------------------------------------------------------------------------

  ghost predicate DistinctKeys(members: seq<W.Member>) {
    forall i, j | 0 <= i < j < |members| :: members[i].key != members[j].key
  }

  lemma {:induction false} DenotedMember(members: seq<W.Member>, acc: map<string, R.Value>, i: nat)
    requires i < |members| && DistinctKeys(members)
    ensures members[i].key in J.DenoteMembers(members, acc)
    ensures J.DenoteMembers(members, acc)[members[i].key] == J.Denote(members[i].value)
    decreases members
  {
    var acc1 := acc[members[0].key := J.Denote(members[0].value)];
    if i > 0 {
      DenotedMember(members[1..], acc1, i - 1);
    } else {
      OtherMembers(members[1..], acc1, members[0].key);
    }
  }

  lemma {:induction false} OtherMembers(members: seq<W.Member>, acc: map<string, R.Value>, key: string)
    requires forall j | 0 <= j < |members| :: members[j].key != key
    ensures key in acc <==> key in J.DenoteMembers(members, acc)
    ensures key in acc ==> J.DenoteMembers(members, acc)[key] == acc[key]
    decreases members
  {
    if members != [] {
      OtherMembers(members[1..], acc[members[0].key := J.Denote(members[0].value)], key);
    }
  }

  lemma {:induction false} EntryKeysDistinct(e: StateEntry)
    ensures DistinctKeys(EntryMembers(e))
  {
  }

  lemma {:induction false} MemberDenotes(members: seq<W.Member>, i: nat)
    requires i < |members| && DistinctKeys(members)
    ensures MemberOf(J.Denote(W.Object(members)), members[i].key) == J.Denote(members[i].value)
  {
    DenotedMember(members, map[], i);
  }

  lemma {:induction false} IntegerRounds(n: int, other: string -> int)
    ensures -EXACT_LIMIT <= n <= EXACT_LIMIT ==> Rounded(IntText(n), other) == n
    ensures !(-EXACT_LIMIT <= n <= EXACT_LIMIT) ==> Rounded(IntText(n), other) == other(IntText(n))
  {
    J.IntegerRoundTrip(n);
  }

  /** What an entry comes back as. */
  function Reloaded(e: StateEntry, other: string -> int): StateEntry {
    e.(appliedAt := Rounded(IntText(e.appliedAt), other))
  }

  lemma {:induction false} EntryTexts(e: StateEntry)
    ensures var v := J.Denote(W.Object(EntryMembers(e)));
            && MemberOf(v, "mitigation") == R.String(e.mitigation)
            && MemberOf(v, "kind") == R.String(e.kind)
            && MemberOf(v, "scope") == R.String(e.scope)
            && MemberOf(v, "scope_name") == R.String(e.scopeName)
            && MemberOf(v, "key") == R.String(e.key)
  {
    var members := EntryMembers(e);
    EntryKeysDistinct(e);
    MemberDenotes(members, 0);
    MemberDenotes(members, 1);
    MemberDenotes(members, 2);
    MemberDenotes(members, 3);
    MemberDenotes(members, 4);
  }

  lemma {:induction false} EntryScalars(e: StateEntry)
    ensures var v := J.Denote(W.Object(EntryMembers(e)));
            && MemberOf(v, "previous_present") == R.Boolean(e.previousPresent)
            && MemberOf(v, "previous_ac") == R.Number(IntText(e.previousAc))
            && MemberOf(v, "previous_dc") == R.Number(IntText(e.previousDc))
            && MemberOf(v, "applied_at") == R.Number(IntText(e.appliedAt))
  {
    var members := EntryMembers(e);
    EntryKeysDistinct(e);
    MemberDenotes(members, 5);
    MemberDenotes(members, 6);
    MemberDenotes(members, 7);
    MemberDenotes(members, 8);
  }

  lemma {:induction false} EntryReads(e: StateEntry, other: string -> int)
    ensures ReadEntry(J.Denote(W.Object(EntryMembers(e))), other) == Reloaded(e, other)
  {
    EntryTexts(e);
    EntryScalars(e);
    U32Reads(e.previousAc, other);
    U32Reads(e.previousDc, other);
  }

  lemma {:induction false} U32Reads(n: U32, other: string -> int)
    ensures ToU32(AsUint(R.Number(IntText(n)), other)) == n
  {
    IntegerRounds(n, other);
  }

  /** A setting written by another program as a number that does not fit: its low 32 bits, and zero
      for a negative one. */
  lemma {:induction false} WideNumbers(n: int, other: string -> int)
    requires -EXACT_LIMIT <= n <= EXACT_LIMIT
    ensures ToU32(AsUint(R.Number(IntText(n)), other)) == if n < 0 then 0 else n % 0x1_0000_0000
    ensures AsInt(R.Number(IntText(n)), other) == n
  {
    IntegerRounds(n, other);
  }

  /** What an entry says of itself when it says nothing: a setting that was there, with zeros. */
  lemma {:induction false} SilentEntry(item: R.Value, other: string -> int)
    requires !item.Object? || item.members == map[]
    ensures ReadEntry(item, other) == StateEntry("", "", "", "", "", true, 0, 0, 0)
  {
  }

  /** The entries a saved list comes back as: those that name a mitigation, in order. */
  function ReloadedOne(e: StateEntry, other: string -> int): seq<StateEntry> {
    if e.mitigation == "" then [] else [Reloaded(e, other)]
  }

  function ReloadedAll(entries: seq<StateEntry>, other: string -> int): seq<StateEntry> {
    if entries == [] then [] else
    var n := |entries| - 1;
    ReloadedAll(entries[..n], other) + ReloadedOne(entries[n], other)
  }

  lemma {:induction false} DenoteItemAt(items: seq<W.Doc>, i: nat)
    requires i < |items|
    ensures J.DenoteItems(items)[i] == J.Denote(items[i])
  {
    if i > 0 { DenoteItemAt(items[1..], i - 1); }
  }

  ghost function Kept(e: StateEntry): seq<StateEntry> { if e.mitigation == "" then [] else [e] }

  lemma {:induction false} ReadSnoc(values: seq<R.Value>, n: nat, e: StateEntry, other: string -> int)
    requires n < |values| && e == ReadEntry(values[n], other)
    ensures ReadEntries(values[..n + 1], other) == ReadEntries(values[..n], other) + Kept(e)
  {
    assert values[..n + 1][..n] == values[..n];
  }

  lemma {:induction false} ReloadedSnoc(entries: seq<StateEntry>, n: nat, one: seq<StateEntry>, other: string -> int)
    requires n < |entries| && one == ReloadedOne(entries[n], other)
    ensures ReloadedAll(entries[..n + 1], other) == ReloadedAll(entries[..n], other) + one
  {
    assert entries[..n + 1][..n] == entries[..n];
  }

  lemma {:induction false} KeptAsReloaded(e: StateEntry, other: string -> int)
    ensures Kept(Reloaded(e, other)) == ReloadedOne(e, other)
  {
  }

  lemma {:induction false} EntryDocsRead(entries: seq<StateEntry>, n: nat, other: string -> int)
    requires n <= |entries|
    ensures |J.DenoteItems(EntryDocs(entries))| == |entries|
    ensures ReadEntries(J.DenoteItems(EntryDocs(entries))[..n], other) == ReloadedAll(entries[..n], other)
  {
    if n > 0 {
      var docs := EntryDocs(entries);
      EntryDocsRead(entries, n - 1, other);
      DenoteItemAt(docs, n - 1);
      EntryReads(entries[n - 1], other);
      ReadSnoc(J.DenoteItems(docs), n - 1, Reloaded(entries[n - 1], other), other);
      KeptAsReloaded(entries[n - 1], other);
      ReloadedSnoc(entries, n - 1, ReloadedOne(entries[n - 1], other), other);
    }
  }

  lemma {:induction false} EntryDepth(members: seq<W.Member>)
    requires forall i | 0 <= i < |members| :: !members[i].value.Array? && !members[i].value.Object?
    ensures J.MembersDepth(members) <= 1
    decreases members
  {
    if members != [] { EntryDepth(members[1..]); }
  }

  lemma {:induction false} EntriesDepth(items: seq<W.Doc>)
    requires forall i | 0 <= i < |items| :: J.Depth(items[i]) <= 1
    ensures J.ItemsDepth(items) <= 2
    decreases items
  {
    if items != [] { EntriesDepth(items[1..]); }
  }

  lemma {:induction false} StateDepth(entries: seq<StateEntry>)
    ensures J.MembersDepth(StateMembers(entries)) <= 3
  {
    var docs := EntryDocs(entries);
    forall i | 0 <= i < |docs| ensures J.Depth(docs[i]) <= 1 {
      EntryDepth(EntryMembers(entries[i]));
    }
    EntriesDepth(docs);
    var members := StateMembers(entries);
    assert members[1..][1..] == [members[2]] && members[1..][1..][1..] == [];
    assert J.MembersDepth([members[2]]) == 1 + J.Depth(members[2].value);
    assert J.MembersDepth(members[1..]) == J.Max(1, J.MembersDepth([members[2]]));
  }

  lemma {:induction false} EntriesMember(entries: seq<StateEntry>)
    ensures MemberOf(J.Denote(W.Object(StateMembers(entries))), "entries") == R.Array(J.DenoteItems(EntryDocs(entries)))
  {
    var members := StateMembers(entries);
    assert members[0].key[0] == 's' && members[1].key[0] == 't' && members[2].key[0] == 'e';
    MemberDenotes(members, 2);
  }

  lemma {:induction false} SavedParses(entries: seq<StateEntry>)
    ensures R.Parse(StateText(entries)) == R.Accepted(J.Denote(W.Object(StateMembers(entries))))
  {
    var d := W.Object(StateMembers(entries));
    StateDepth(entries);
    J.DocumentRoundTrip(d, true, "", "\n");
    assert "" + W.Render(d, true, 0) + "\n" == StateText(entries);
  }

  /** Every saved file loads, to the entries that name a mitigation, each as it was saved
      except that its time went through a double. */
  lemma {:induction false} LoadSave(entries: seq<StateEntry>, other: string -> int)
    ensures LoadText(StateText(entries), other) == Some(ReloadedAll(entries, other))
  {
    SavedParses(entries);
    EntriesMember(entries);
    EntryDocsRead(entries, |entries|, other);
    var values := J.DenoteItems(EntryDocs(entries));
    assert values[..|entries|] == values && entries[..|entries|] == entries;
  }

  /** The entry comes back as it was. */
  predicate Unchanged(e: StateEntry, other: string -> int) {
    e.mitigation != "" && Rounded(IntText(e.appliedAt), other) == e.appliedAt
  }

  lemma {:induction false} UnchangedReloaded(entries: seq<StateEntry>, other: string -> int)
    requires forall e <- entries :: Unchanged(e, other)
    ensures ReloadedAll(entries, other) == entries
  {
    if entries != [] {
      var n := |entries| - 1;
      UnchangedReloaded(entries[..n], other);
      assert Unchanged(entries[n], other);
      assert entries == entries[..n] + [entries[n]];
    }
  }

  lemma {:induction false} ReloadedLength(entries: seq<StateEntry>, other: string -> int)
    ensures |ReloadedAll(entries, other)| <= |entries|
    ensures |ReloadedAll(entries, other)| == |entries| ==>
              forall i | 0 <= i < |entries| :: entries[i].mitigation != ""
                  && ReloadedAll(entries, other)[i] == Reloaded(entries[i], other)
  {
    if entries != [] { ReloadedLength(entries[..|entries| - 1], other); }
  }

  /** Saving and loading keeps a list of entries exactly when each names a mitigation and its
      time survives the conversion. */
  lemma {:induction false} LoadsWhatIsUnchanged(entries: seq<StateEntry>, other: string -> int)
    ensures LoadText(StateText(entries), other) == Some(entries) <==> forall e <- entries :: Unchanged(e, other)
  {
    LoadSave(entries, other);
    if forall e <- entries :: Unchanged(e, other) { UnchangedReloaded(entries, other); }
    if ReloadedAll(entries, other) == entries { ReloadedLength(entries, other); }
  }

  ghost predicate Faithful(e: StateEntry) { e.mitigation != "" && -EXACT_LIMIT <= e.appliedAt <= EXACT_LIMIT }

  /** So it does, whatever the floating-point library does outside the exact integers, exactly
      when each names a mitigation and was applied within 2^53 seconds of the epoch. */
  lemma {:induction false} LoadAfterSave(entries: seq<StateEntry>)
    ensures (forall other: string -> int :: LoadText(StateText(entries), other) == Some(entries))
       <==> forall e <- entries :: Faithful(e)
  {
    if forall e <- entries :: Faithful(e) {
      forall other: string -> int ensures LoadText(StateText(entries), other) == Some(entries) {
        LoadsWhatIsUnchanged(entries, other);
        forall e <- entries ensures Unchanged(e, other) { assert Faithful(e); IntegerRounds(e.appliedAt, other); }
      }
    } else {
      var i :| 0 <= i < |entries| && !Faithful(entries[i]);
      var other := UnfaithfulDiffers(entries, i);
    }
  }

  /** Some way of reading the numbers past 2^53 tells the difference. */
  lemma {:induction false} UnfaithfulDiffers(entries: seq<StateEntry>, i: nat) returns (other: string -> int)
    requires i < |entries| && !Faithful(entries[i])
    ensures LoadText(StateText(entries), other) != Some(entries)
  {
    var off: int := entries[i].appliedAt + 1;
    other := _ => off;
    LoadsWhatIsUnchanged(entries, other);
    IntegerRounds(entries[i].appliedAt, other);
    assert !Unchanged(entries[i], other);
  }

  // --- Doubles -----------------------------------------------------------------------------

  function Magnitude(n: int): nat { if n < 0 then -n else n }

  /** How far apart the doubles around a magnitude lie, among the integers. */
  function Spacing(x: nat): (g: nat)
    ensures g > 0
  {
    if x < EXACT_LIMIT then 1 else 2 * Spacing(x / 2)
  }

  /** The multiple of `g` next to `x`, of two equally near the even one (IEEE 754, section 4.3.1). */
  function NearestMultiple(x: nat, g: nat): nat
    requires g > 0
  {
    var q, r := x / g, x % g;
    if 2 * r < g || (2 * r == g && q % 2 == 0) then q * g else (q + 1) * g
  }

  /** It is a multiple of `g`, no further away than half of `g`, and even where two are as near. */
  lemma {:induction false} NearestTells(x: nat, g: nat)
    requires g > 0
    ensures var r := NearestMultiple(x, g); var off := if r < x then x - r else r - x;
            && r % g == 0 && 2 * off <= g && (2 * off == g ==> r / g % 2 == 0)
  {
    var q, r := x / g, x % g;
    assert x == g * q + r;
    Quotient(q * g, g, q, 0);
    Quotient((q + 1) * g, g, q + 1, 0);
    assert (q + 1) * g == g * q + g;
  }

  /** The integer `strtod` reads an integer as. */
  function ToDouble(n: int): int {
    var near: int := NearestMultiple(Magnitude(n), Spacing(Magnitude(n)));
    if n < 0 then -near else near
  }

  predicate Int64(n: int) { -0x8000_0000_0000_0000 <= n < 0x8000_0000_0000_0000 }

  /** `other` is such a library: `llround` gives the double back if it has 64 bits, and
      something else than the number that was rounded to it otherwise. */
  ghost predicate ReadsDoubles(other: string -> int) {
    forall n: int ::
      if Int64(ToDouble(n)) then other(IntText(n)) == ToDouble(n) else other(IntText(n)) != n
  }

  /** The numbers that need no more than the 53 bits of a double's significand. */
  ghost predicate IsDouble(n: int) { exists m: nat, e: nat :: Scaled(Magnitude(n), m, e) }

  predicate Scaled(x: nat, significand: nat, exponent: nat) {
    significand <= EXACT_LIMIT && x == significand * Power2(exponent)
  }

  lemma {:induction false} NearestOfMultiple(x: nat, g: nat)
    requires g > 0
    ensures NearestMultiple(x, g) == x <==> x % g == 0
  {
    var q, r := x / g, x % g;
    assert x == g * q + r;
    assert (q + 1) * g == g * q + g;
  }

  lemma {:induction false} SpacingIsPower(x: nat) returns (e: nat)
    ensures Spacing(x) == Power2(e) && x / Spacing(x) <= EXACT_LIMIT
  {
    if x < EXACT_LIMIT {
      e := 0;
    } else {
      var h := SpacingIsPower(x / 2);
      e := h + 1;
      DivTwice(x, 2, Spacing(x / 2));
    }
  }

  lemma {:induction false} Twice(x: nat, g: nat)
    requires g > 0 && x % 2 == 0
    ensures x % (2 * g) == 0 <==> x / 2 % g == 0
  {
    var q, r := x / 2 / g, x / 2 % g;
    assert x / 2 == g * q + r;
    assert 2 * (g * q) == 2 * g * q;
    Quotient(x, 2 * g, q, 2 * r);
  }

  /** Wherever `x` is some 53-bit number times a power of two, the spacing there divides it. */
  lemma {:induction false} SpacingDivides(x: nat, m: nat, e: nat)
    requires Scaled(x, m, e)
    ensures x % Spacing(x) == 0
    decreases x
  {
    if x >= EXACT_LIMIT {
      if e == 0 {
        assert Spacing(x / 2) == 1;
      } else {
        assert x == 2 * (m * Power2(e - 1));
        SpacingDivides(x / 2, m, e - 1);
        Twice(x, Spacing(x / 2));
      }
    }
  }

  /** The conversion leaves exactly those numbers alone. */
  lemma {:induction false} ToDoubleExact(n: int)
    ensures ToDouble(n) == n <==> IsDouble(n)
  {
    var x := Magnitude(n);
    var g := Spacing(x);
    NearestOfMultiple(x, g);
    if x % g == 0 {
      var e := SpacingIsPower(x);
      assert Scaled(x, x / g, e);
    }
    if m: nat, e: nat :| Scaled(x, m, e) { SpacingDivides(x, m, e); }
  }

  lemma {:induction false} SmallIsDouble(n: int)
    requires -EXACT_LIMIT <= n <= EXACT_LIMIT
    ensures IsDouble(n)
  {
    assert Scaled(Magnitude(n), Magnitude(n), 0);
  }

  ghost predicate Survives(e: StateEntry) {
    e.mitigation != "" && IsDouble(e.appliedAt) && -0x8000_0000_0000_0000 <= e.appliedAt < 0x8000_0000_0000_0000
  }

  /** With IEEE 754 doubles, saving and loading keeps a list of entries exactly when each names
      a mitigation and its time is a double. */
  lemma {:induction false} LoadAfterSaveDoubles(entries: seq<StateEntry>, other: string -> int)
    requires ReadsDoubles(other)
    ensures LoadText(StateText(entries), other) == Some(entries) <==> forall e <- entries :: Survives(e)
  {
    LoadsWhatIsUnchanged(entries, other);
    forall e <- entries ensures Unchanged(e, other) <==> Survives(e) { UnchangedSurvives(e, other); }
  }

  lemma {:induction false} UnchangedSurvives(e: StateEntry, other: string -> int)
    requires ReadsDoubles(other)
    ensures Unchanged(e, other) <==> Survives(e)
  {
    var n := e.appliedAt;
    IntegerRounds(n, other);
    ToDoubleExact(n);
    if -EXACT_LIMIT <= n <= EXACT_LIMIT { SmallIsDouble(n); }
    assert if Int64(ToDouble(n)) then other(IntText(n)) == ToDouble(n) else other(IntText(n)) != n;
  }

  /** 2^53 + 1 is read as 2^53, and 2^53 + 2 as itself. */
  lemma {:induction false} PastTheLimit()
    ensures ToDouble(EXACT_LIMIT + 1) == EXACT_LIMIT && ToDouble(EXACT_LIMIT + 2) == EXACT_LIMIT + 2
    ensures !IsDouble(EXACT_LIMIT + 1) && IsDouble(EXACT_LIMIT + 2)
  {
    assert Spacing(EXACT_LIMIT / 2) == 1;
    assert Spacing(EXACT_LIMIT + 1) == 2 && Spacing(EXACT_LIMIT + 2) == 2;
    ToDoubleExact(EXACT_LIMIT + 1);
    ToDoubleExact(EXACT_LIMIT + 2);
  }

  // --- The store ---------------------------------------------------------------------------

  /** One snapshot per mitigation, scope and key. */
  predicate SameSlot(a: StateEntry, b: StateEntry) {
    a.mitigation == b.mitigation && a.scope == b.scope && a.key == b.key
  }

  function Added(entries: seq<StateEntry>, e: StateEntry): seq<StateEntry> {
    if exists x <- entries :: SameSlot(x, e) then entries else entries + [e]
  }

  function Without(entries: seq<StateEntry>, mitigation: string): seq<StateEntry> {
    if entries == [] then [] else
    var n := |entries| - 1;
    Without(entries[..n], mitigation) + if entries[n].mitigation == mitigation then [] else [entries[n]]
  }

  function EntriesOf(entries: seq<StateEntry>, mitigation: string): seq<StateEntry> {
    if entries == [] then [] else
    var n := |entries| - 1;
    EntriesOf(entries[..n], mitigation) + if entries[n].mitigation == mitigation then [entries[n]] else []
  }

  /** An entry whose mitigation, scope and key are taken is not added, any other is, and so no two
      entries ever have the same three. */
  lemma {:induction false} AddedTells(entries: seq<StateEntry>, e: StateEntry)
    ensures Added(entries, e)
         == if exists x <- entries :: x.mitigation == e.mitigation && x.scope == e.scope && x.key == e.key then entries
            else entries + [e]
    ensures SlotsDiffer(entries) ==> SlotsDiffer(Added(entries, e))
  {
    if SlotsDiffer(entries) && Added(entries, e) != entries {
      forall i, j | 0 <= i < j < |entries| + 1
        ensures !SlotsEqual((entries + [e])[i], (entries + [e])[j])
      {
        if j == |entries| { assert entries[i] in entries; } else { assert !SlotsEqual(entries[i], entries[j]); }
      }
    }
  }

  ghost predicate SlotsEqual(a: StateEntry, b: StateEntry) {
    a.mitigation == b.mitigation && a.scope == b.scope && a.key == b.key
  }

  ghost predicate SlotsDiffer(entries: seq<StateEntry>) {
    forall i, j | 0 <= i < j < |entries| :: !SlotsEqual(entries[i], entries[j])
  }

  /** The entries of a mitigation and those of the others, in the order of the list. */
  lemma {:induction false} PartsTell(a: seq<StateEntry>, e: StateEntry, b: seq<StateEntry>, mitigation: string)
    ensures EntriesOf(a + [e] + b, mitigation)
         == EntriesOf(a, mitigation) + (if e.mitigation == mitigation then [e] else []) + EntriesOf(b, mitigation)
    ensures Without(a + [e] + b, mitigation)
         == Without(a, mitigation) + (if e.mitigation == mitigation then [] else [e]) + Without(b, mitigation)
    decreases |b|
  {
    if b == [] {
      assert a + [e] + b == a + [e] && (a + [e])[..|a|] == a;
    } else {
      var n := |b| - 1;
      PartsTell(a, e, b[..n], mitigation);
      assert (a + [e] + b)[..|a + [e] + b| - 1] == a + [e] + b[..n];
    }
  }

  datatype LoadResult = LoadResult(ok: bool, missing: bool, error: string)

  method DoReadEntries(items: seq<R.Value>, other: string -> int) returns (entries: seq<StateEntry>)
    ensures entries == ReadEntries(items, other)
  {
    entries := [];
    for i := 0 to |items|
      invariant entries == ReadEntries(items[..i], other)
    {
      var entry := ReadEntry(items[i], other);
      ReadSnoc(items, i, entry, other);
      if entry.mitigation != "" { entries := entries + [entry]; }
    }
    assert items[..|items|] == items;
  }

  class Store {
    const path: string
    var entries: seq<StateEntry>

    constructor (path: string)
      ensures this.path == path && entries == []
    {
      this.path := path;
      entries := [];
    }

    /** `file` is what reading the state file gives, if it can be read. */
    method Load(file: Option<string>, other: string -> int) returns (result: LoadResult)
      modifies this`entries
      ensures path == "" ==> !result.ok && !result.missing && entries == old(entries)
      ensures path != "" && file.None? ==> result.ok && result.missing && entries == old(entries)
      ensures path != "" && file.Some? ==>
                && !result.missing
                && result.ok == LoadText(file.value, other).Some?
                && entries == if result.ok then LoadText(file.value, other).value else old(entries)
    {
      if path == "" {
        return LoadResult(false, false, "cannot locate %ProgramData%");
      }
      if file.None? {
        return LoadResult(true, true, "");
      }
      var parsed := R.ParseText(file.value);
      if parsed.Rejected? {
        return LoadResult(false, false, "the state file is not valid JSON (" + parsed.error
                                        + "); refusing to guess at its contents");
      }
      entries := DoReadEntries(AsArray(MemberOf(parsed.value, "entries")), other);
      return LoadResult(true, false, "");
    }

    method Add(entry: StateEntry)
      modifies this`entries
      ensures entries == Added(old(entries), entry)
    {
      for i := 0 to |entries|
        invariant entries == old(entries)
        invariant forall j | 0 <= j < i :: !SameSlot(entries[j], entry)
      {
        if SameSlot(entries[i], entry) { return; }
      }
      entries := entries + [entry];
    }

    method Remove(mitigation: string)
      modifies this`entries
      ensures entries == Without(old(entries), mitigation)
    {
      var kept: seq<StateEntry> := [];
      for i := 0 to |entries|
        invariant entries == old(entries) && kept == Without(entries[..i], mitigation)
      {
        assert entries[..i + 1][..i] == entries[..i];
        if entries[i].mitigation != mitigation { kept := kept + [entries[i]]; }
      }
      assert entries[..|entries|] == entries;
      entries := kept;
    }

    method EntriesFor(mitigation: string) returns (result: seq<StateEntry>)
      ensures result == EntriesOf(entries, mitigation)
    {
      result := [];
      for i := 0 to |entries|
        invariant result == EntriesOf(entries[..i], mitigation)
      {
        assert entries[..i + 1][..i] == entries[..i];
        if entries[i].mitigation == mitigation { result := result + [entries[i]]; }
      }
      assert entries[..|entries|] == entries;
    }

    /** `file` is the file before, `after` the file left behind; `written` is whether the
        atomic replacement succeeds. */
    method Save(file: Option<string>, written: bool) returns (ok: bool, after: Option<string>)
      ensures ok == (path != "" && written)
      ensures after == if ok then Some(StateText(entries)) else file
    {
      if path == "" { return false, file; }
      var writer := new W.Writer(true);
      WriteState(writer, entries);
      W.WriterWritesEveryDocument(W.Object(StateMembers(entries)), true);
      var content := writer.out + "\n";
      return written, if written then Some(content) else file;
    }
  }

  // --- The calls `Save` makes -----------------------------------------------------------

  lemma {:induction false} MemberCallsSnoc(members: seq<W.Member>, m: W.Member)
    ensures W.MemberCalls(members + [m]) == W.MemberCalls(members) + ([W.Key(m.key)] + W.Calls(m.value))
    decreases members
  {
    if members == [] {
      assert [] + [m] == [m];
      assert W.MemberCalls([m]) == [W.Key(m.key)] + W.Calls(m.value) + W.MemberCalls([]);
    } else {
      assert (members + [m])[1..] == members[1..] + [m];
      MemberCallsSnoc(members[1..], m);
    }
  }

  lemma {:induction false} MemberCallsNext(members: seq<W.Member>, k: nat)
    requires k < |members| && !members[k].value.Array? && !members[k].value.Object?
    ensures W.MemberCalls(members[..k + 1])
         == W.MemberCalls(members[..k]) + [W.Key(members[k].key), W.Value(members[k].value)]
  {
    MemberCallsSnoc(members[..k], members[k]);
    assert members[..k + 1] == members[..k] + [members[k]];
  }

  lemma {:induction false} ItemCallsSnoc(items: seq<W.Doc>, d: W.Doc)
    ensures W.ItemCalls(items + [d]) == W.ItemCalls(items) + W.Calls(d)
    decreases items
  {
    if items == [] {
      assert [] + [d] == [d];
      assert W.ItemCalls([d]) == W.Calls(d) + W.ItemCalls([]);
    } else {
      assert (items + [d])[1..] == items[1..] + [d];
      ItemCallsSnoc(items[1..], d);
    }
  }

  lemma {:induction false} ItemCallsNext(entries: seq<StateEntry>, i: nat)
    requires i < |entries|
    ensures W.ItemCalls(EntryDocs(entries[..i + 1]))
         == W.ItemCalls(EntryDocs(entries[..i])) + W.Calls(W.Object(EntryMembers(entries[i])))
  {
    ItemCallsSnoc(EntryDocs(entries[..i]), W.Object(EntryMembers(entries[i])));
    assert EntryDocs(entries[..i + 1]) == EntryDocs(entries[..i]) + [W.Object(EntryMembers(entries[i]))];
  }

  ghost function FirstCalls(members: seq<W.Member>, k: nat): seq<W.Call>
    requires k <= |members|
  {
    W.MemberCalls(members[..k])
  }

  lemma {:induction false} FirstCallsEnds(members: seq<W.Member>)
    ensures FirstCalls(members, 0) == [] && FirstCalls(members, |members|) == W.MemberCalls(members)
  {
    assert members[..|members|] == members;
  }

  lemma {:induction false} ObjectCalls(before: seq<W.Call>, members: seq<W.Member>, n: nat)
    requires n == |members|
    ensures before + [W.BeginObject] + FirstCalls(members, n) + [W.EndObject] == before + W.Calls(W.Object(members))
  {
    FirstCallsEnds(members);
    assert W.Calls(W.Object(members)) == [W.BeginObject] + W.MemberCalls(members) + [W.EndObject];
  }

  lemma {:induction false} Extend(base: seq<W.Call>, members: seq<W.Member>, k: nat, after: seq<W.Call>)
    requires k < |members| && !members[k].value.Array? && !members[k].value.Object?
    requires after == base + FirstCalls(members, k) + [W.Key(members[k].key), W.Value(members[k].value)]
    ensures after == base + FirstCalls(members, k + 1)
  {
    MemberCallsNext(members, k);
  }

  method WriteEntry(writer: W.Writer, entry: StateEntry)
    requires writer.Valid()
    modifies writer
    ensures writer.Valid() && |writer.stack| == old(|writer.stack|)
    ensures writer.calls == old(writer.calls) + W.Calls(W.Object(EntryMembers(entry)))
  {
    ghost var before := writer.calls;
    writer.Begin(false);
    ghost var base := writer.calls;
    FirstCallsEnds(EntryMembers(entry));
    WriteSlot(writer, entry, base);
    WritePrevious(writer, entry, base);
    writer.End(false);
    ObjectCalls(before, EntryMembers(entry), 9);
  }

  /** Which setting the entry is about. */
  method WriteSlot(writer: W.Writer, entry: StateEntry, ghost base: seq<W.Call>)
    requires writer.Valid() && writer.stack != [] && writer.calls == base + FirstCalls(EntryMembers(entry), 0)
    modifies writer
    ensures writer.Valid() && |writer.stack| == old(|writer.stack|)
    ensures writer.calls == base + FirstCalls(EntryMembers(entry), 5)
  {
    ghost var members := EntryMembers(entry);
    writer.MemberText("mitigation", entry.mitigation);
    Extend(base, members, 0, writer.calls);
    writer.MemberText("kind", entry.kind);
    Extend(base, members, 1, writer.calls);
    writer.MemberText("scope", entry.scope);
    Extend(base, members, 2, writer.calls);
    writer.MemberText("scope_name", entry.scopeName);
    Extend(base, members, 3, writer.calls);
    writer.MemberText("key", entry.key);
    Extend(base, members, 4, writer.calls);
  }

  /** What it held before. */
  method WritePrevious(writer: W.Writer, entry: StateEntry, ghost base: seq<W.Call>)
    requires writer.Valid() && writer.stack != [] && writer.calls == base + FirstCalls(EntryMembers(entry), 5)
    modifies writer
    ensures writer.Valid() && |writer.stack| == old(|writer.stack|)
    ensures writer.calls == base + FirstCalls(EntryMembers(entry), 9)
  {
    ghost var members := EntryMembers(entry);
    writer.MemberBool("previous_present", entry.previousPresent);
    Extend(base, members, 5, writer.calls);
    writer.MemberInt("previous_ac", entry.previousAc);
    Extend(base, members, 6, writer.calls);
    writer.MemberInt("previous_dc", entry.previousDc);
    Extend(base, members, 7, writer.calls);
    writer.MemberInt("applied_at", entry.appliedAt);
    Extend(base, members, 8, writer.calls);
  }

  method WriteHead(writer: W.Writer)
    requires writer.Valid() && writer.calls == [] && writer.stack == []
    modifies writer
    ensures writer.Valid() && writer.calls == HeadCalls() && |writer.stack| == 2
  {
    writer.Begin(false);
    writer.MemberInt("schema_version", 1);
    writer.MemberText("tool", "postmortem");
    writer.Key("entries");
    writer.Begin(true);
  }

  method WriteEntries(writer: W.Writer, entries: seq<StateEntry>)
    requires writer.Valid()
    modifies writer
    ensures writer.Valid() && |writer.stack| == old(|writer.stack|)
    ensures writer.calls == old(writer.calls) + W.ItemCalls(EntryDocs(entries))
  {
    ghost var head := writer.calls;
    for i := 0 to |entries|
      invariant writer.Valid() && |writer.stack| == old(|writer.stack|)
      invariant writer.calls == head + W.ItemCalls(EntryDocs(entries[..i]))
    {
      WriteEntry(writer, entries[i]);
      ItemCallsNext(entries, i);
    }
    assert entries[..|entries|] == entries;
  }

  method WriteState(writer: W.Writer, entries: seq<StateEntry>)
    requires writer.Valid() && writer.calls == [] && writer.stack == []
    modifies writer
    ensures writer.Valid() && writer.calls == W.Calls(W.Object(StateMembers(entries)))
  {
    WriteHead(writer);
    WriteEntries(writer, entries);
    writer.End(true);
    writer.End(false);
    StateCalls(entries);
  }

  ghost function HeadCalls(): seq<W.Call> {
    [W.BeginObject, W.Key("schema_version"), W.Value(W.Integer(1)), W.Key("tool"), W.Value(W.Text("postmortem")),
     W.Key("entries"), W.BeginArray]
  }

  lemma {:induction false} StateCalls(entries: seq<StateEntry>)
    ensures W.Calls(W.Object(StateMembers(entries)))
         == HeadCalls() + W.ItemCalls(EntryDocs(entries)) + [W.EndArray, W.EndObject]
  {
    var members := StateMembers(entries);
    MemberCallsNext(members, 0);
    MemberCallsNext(members, 1);
    MemberCallsSnoc(members[..2], members[2]);
    assert members[..2] + [members[2]] == members;
  }
}
