/** Counting WHEA records by a choice of fields: a map filled in one pass, listed in an order
    that leaves nothing to chance. */
module Grouping {
  import opened Sorting
  import opened Text
  import opened Whea

  datatype Field = Apic | Bank | EventId | ErrorType | TransactionType | Status | ErrorCode | Address | AddressPage
                 | AddressClass | Severity | Day | Hour

  type Key = seq<string>

  /** What grouping sees of a record: the text of each chosen field, and when it was logged. */
  datatype Entry = Entry(key: Key, time: int)

  datatype Row = Row(key: Key, count: nat, firstSeen: int, lastSeen: int)

  datatype Summary = Summary(fields: seq<Field>, rows: seq<Row>, total: nat)

  // --- Lexicographic order ----------------------------------------------------------------------

  function Before<T(==)>(a: seq<T>, b: seq<T>, lt: (T, T) -> bool): bool {
    if b == [] then false
    else if a == [] then true
    else if a[0] == b[0] then Before(a[1..], b[1..], lt)
    else lt(a[0], b[0])
  }

  ghost predicate StrictOrder<T(!new)>(lt: (T, T) -> bool) {
    && (forall x, y :: lt(x, y) ==> !lt(y, x))
    && (forall x, y, z :: lt(x, y) && lt(y, z) ==> lt(x, z))
    && (forall x, y :: x == y || lt(x, y) || lt(y, x))
  }

  lemma {:induction false} BeforeOneWay<T(!new)>(a: seq<T>, b: seq<T>, lt: (T, T) -> bool)
    requires StrictOrder(lt)
    ensures Before(a, b, lt) ==> !Before(b, a, lt)
    ensures a == b || Before(a, b, lt) || Before(b, a, lt)
    decreases |a|
  {
    if a != [] && b != [] {
      BeforeOneWay(a[1..], b[1..], lt);
      assert a == [a[0]] + a[1..] && b == [b[0]] + b[1..];
    }
  }

  lemma {:induction false} BeforeTransitive<T(!new)>(a: seq<T>, b: seq<T>, c: seq<T>, lt: (T, T) -> bool)
    requires StrictOrder(lt) && Before(a, b, lt) && Before(b, c, lt)
    ensures Before(a, c, lt)
    decreases |a|
  {
    if a != [] && a[0] == b[0] && b[0] == c[0] { BeforeTransitive(a[1..], b[1..], c[1..], lt); }
  }

  /** `a` ends before its element `k`, or has there the first element that differs, and the lesser. */
  ghost predicate DiffersAt<T>(a: seq<T>, b: seq<T>, lt: (T, T) -> bool, k: int) {
    0 <= k <= |a| && k < |b| && a[..k] == b[..k] && (k == |a| || (a[k] != b[k] && lt(a[k], b[k])))
  }

  /** One list comes before another when it is the beginning of it, or smaller at the first
      element where they differ. */
  lemma {:induction false} BeforeTells<T(!new)>(a: seq<T>, b: seq<T>, lt: (T, T) -> bool)
    ensures Before(a, b, lt) <==> exists k :: DiffersAt(a, b, lt, k)
    decreases |a|
  {
    if a == [] || b == [] || a[0] != b[0] {
      if k :| DiffersAt(a, b, lt, k) {
        SameStart(a, b, k);
      }
      if b != [] && (a == [] || lt(a[0], b[0])) { assert DiffersAt(a, b, lt, 0); }
    } else {
      BeforeTells(a[1..], b[1..], lt);
      TailsTell(a, b, lt);
    }
  }

  lemma {:induction false} SameStart<T(!new)>(a: seq<T>, b: seq<T>, k: nat)
    requires k <= |a| && k <= |b| && a[..k] == b[..k]
    ensures k > 0 ==> a[0] == b[0]
  {
    if k > 0 { assert a[..k][0] == b[..k][0]; }
  }

  lemma {:induction false} TailsTell<T(!new)>(a: seq<T>, b: seq<T>, lt: (T, T) -> bool)
    requires a != [] && b != [] && a[0] == b[0]
    ensures (exists k :: DiffersAt(a, b, lt, k)) <==> exists k :: DiffersAt(a[1..], b[1..], lt, k)
  {
    if k: int :| DiffersAt(a, b, lt, k) {
      assert k > 0;
      assert a[1..][..k - 1] == a[..k][1..] && b[1..][..k - 1] == b[..k][1..];
      assert DiffersAt(a[1..], b[1..], lt, k - 1);
    }
    if k: int :| DiffersAt(a[1..], b[1..], lt, k) {
      assert a[..k + 1] == [a[0]] + a[1..][..k] && b[..k + 1] == [b[0]] + b[1..][..k];
      assert DiffersAt(a, b, lt, k + 1);
    }
  }

  predicate CharBefore(a: char, b: char) { a < b }

  predicate TextBefore(a: string, b: string) { Before(a, b, CharBefore) }

  predicate KeyBefore(a: Key, b: Key) { Before(a, b, TextBefore) }

  lemma {:induction false} TextsOrdered()
    ensures StrictOrder(TextBefore)
  {
    assert StrictOrder(CharBefore);
    forall a: string, b: string ensures (TextBefore(a, b) ==> !TextBefore(b, a))
        && (a == b || TextBefore(a, b) || TextBefore(b, a)) {
      BeforeOneWay(a, b, CharBefore);
    }
    forall a: string, b: string, c: string | TextBefore(a, b) && TextBefore(b, c) ensures TextBefore(a, c) {
      BeforeTransitive(a, b, c, CharBefore);
    }
  }

  lemma {:induction false} KeysOneWay(a: Key, b: Key)
    ensures KeyBefore(a, b) ==> !KeyBefore(b, a)
    ensures a == b || KeyBefore(a, b) || KeyBefore(b, a)
  {
    TextsOrdered();
    BeforeOneWay(a, b, TextBefore);
  }

  lemma {:induction false} KeysTransitive(a: Key, b: Key, c: Key)
    requires KeyBefore(a, b) && KeyBefore(b, c)
    ensures KeyBefore(a, c)
  {
    TextsOrdered();
    BeforeTransitive(a, b, c, TextBefore);
  }

  /** Most frequent first, then by key. */
  predicate RowBefore(a: Row, b: Row) { if a.count != b.count then a.count > b.count else KeyBefore(a.key, b.key) }

  predicate NotAfter(a: Row, b: Row) { !RowBefore(b, a) }

  lemma {:induction false} RowsOneWay(a: Row, b: Row)
    ensures RowBefore(a, b) ==> !RowBefore(b, a)
    ensures a.key != b.key ==> RowBefore(a, b) || RowBefore(b, a)
  {
    KeysOneWay(a.key, b.key);
  }

  lemma {:induction false} NotAfterIsOrder()
    ensures TotalPreorder(NotAfter)
  {
    forall a: Row, b: Row ensures NotAfter(a, b) || NotAfter(b, a) { RowsOneWay(a, b); }
    forall a: Row, b: Row, c: Row | NotAfter(a, b) && NotAfter(b, c) ensures NotAfter(a, c) {
      KeysOneWay(a.key, b.key);
      KeysOneWay(b.key, c.key);
      KeysOneWay(a.key, c.key);
      if RowBefore(c, a) {
        if a.count == b.count == c.count {
          if b.key != a.key && b.key != c.key { KeysTransitive(a.key, b.key, c.key); }
        }
      }
    }
  }

  /** Rows with given contents can be ranked in only one way. */
  lemma {:induction false} OneOrder(a: seq<Row>, b: seq<Row>)
    requires Ranked(a, RowBefore) && Ranked(b, RowBefore) && Elements(a) == Elements(b)
    ensures a == b
  {
    forall x: Row, y: Row | RowBefore(x, y) ensures !RowBefore(y, x) { RowsOneWay(x, y); }
    OneRanking(a, b, RowBefore);
  }

  /** The row with more records comes first; of two with as many, the one with the smaller key. */
  lemma {:induction false} RankTells(rows: seq<Row>, i: nat, j: nat)
    requires Ranked(rows, RowBefore) && i < j < |rows|
    ensures rows[i].count >= rows[j].count
    ensures rows[i].count == rows[j].count ==> exists k :: DiffersAt(rows[i].key, rows[j].key, TextBefore, k)
  {
    assert RowBefore(rows[i], rows[j]);
    BeforeTells(rows[i].key, rows[j].key, TextBefore);
  }

  ghost predicate SmallerAt(a: string, b: string, k: int) {
    0 <= k <= |a| && k < |b| && a[..k] == b[..k] && (k == |a| || a[k] < b[k])
  }

  /** Texts are compared by their octets. */
  lemma {:induction false} TextTells(a: string, b: string)
    ensures TextBefore(a, b) <==> exists k :: SmallerAt(a, b, k)
  {
    BeforeTells(a, b, CharBefore);
    forall k: int ensures DiffersAt(a, b, CharBefore, k) <==> SmallerAt(a, b, k) {}
  }

  // --- What the rows should say -----------------------------------------------------------------------

  /** The entries there are; a missing record makes none. */
  function Present(records: seq<Option<Entry>>): nat {
    if records == [] then 0 else
    Present(records[..|records| - 1]) + if records[|records| - 1].Some? then 1 else 0
  }

  predicate HasKey(record: Option<Entry>, key: Key) { record.Some? && record.value.key == key }

  function Count(records: seq<Option<Entry>>, key: Key): nat {
    if records == [] then 0 else
    Count(records[..|records| - 1], key) + if HasKey(records[|records| - 1], key) then 1 else 0
  }

  ghost function Keys(records: seq<Option<Entry>>): set<Key> { set r | r in records && r.Some? :: r.value.key }

  ghost predicate Earliest(records: seq<Option<Entry>>, key: Key, time: int) {
    && (exists r :: r in records && HasKey(r, key) && r.value.time == time)
    && forall r | r in records && HasKey(r, key) :: time <= r.value.time
  }

  ghost predicate Latest(records: seq<Option<Entry>>, key: Key, time: int) {
    && (exists r :: r in records && HasKey(r, key) && r.value.time == time)
    && forall r | r in records && HasKey(r, key) :: r.value.time <= time
  }

  /** The row counts the entries with its key, and spans their times. */
  ghost predicate Tells(row: Row, records: seq<Option<Entry>>) {
    && row.count == Count(records, row.key)
    && Earliest(records, row.key, row.firstSeen) && Latest(records, row.key, row.lastSeen)
  }

  ghost predicate AllTell(rows: seq<Row>, records: seq<Option<Entry>>) {
    forall i | 0 <= i < |rows| :: Tells(rows[i], records)
  }

  ghost function KeysOf(rows: seq<Row>): set<Key> { set r | r in rows :: r.key }

  /** A summary of the records: one row for each key there is, ranked. */
  ghost predicate Summarises(s: Summary, records: seq<Option<Entry>>) {
    s.total == Present(records) && Ranked(s.rows, RowBefore) && AllTell(s.rows, records)
        && KeysOf(s.rows) == Keys(records)
  }

  // --- The order of the records does not matter ----------------------------------------------------------

  lemma {:induction false} CountAppend(a: seq<Option<Entry>>, b: seq<Option<Entry>>, key: Key)
    ensures Count(a + b, key) == Count(a, key) + Count(b, key) && Present(a + b) == Present(a) + Present(b)
    decreases |b|
  {
    if b == [] {
      assert a + b == a;
    } else {
      var n := |b| - 1;
      CountAppend(a, b[..n], key);
      assert (a + b)[..|a + b| - 1] == a + b[..n];
    }
  }

  lemma {:induction false} OneRemoved(a: seq<Option<Entry>>, before: seq<Option<Entry>>, after: seq<Option<Entry>>,
                                      x: Option<Entry>)
    requires multiset(a + [x]) == multiset(before + ([x] + after))
    ensures multiset(a) == multiset(before + after)
  {
    assert multiset(a) + multiset{x} == multiset(before) + multiset(after) + multiset{x};
    assert multiset(a) == multiset(a) + multiset{x} - multiset{x};
    assert multiset(before + after) == multiset(before) + multiset(after) + multiset{x} - multiset{x};
  }

  lemma {:induction false} CountPermuted(a: seq<Option<Entry>>, b: seq<Option<Entry>>, key: Key)
    requires multiset(a) == multiset(b)
    ensures Count(a, key) == Count(b, key) && Present(a) == Present(b)
    decreases |a|
  {
    if a == [] {
      assert |b| == |multiset(b)| == 0;
    } else {
      var n := |a| - 1;
      assert a[n] in multiset(b);
      var j :| 0 <= j < |b| && b[j] == a[n];
      var before, after := b[..j], b[j + 1..];
      assert b == before + ([b[j]] + after);
      assert a == a[..n] + [a[n]];
      OneRemoved(a[..n], before, after, a[n]);
      CountPermuted(a[..n], before + after, key);
      CountAppend(before, after, key);
      CountAppend(before, [b[j]] + after, key);
      CountAppend([b[j]], after, key);
      CountAppend(a[..n], [a[n]], key);
    }
  }

  lemma {:induction false} SameMembers(a: seq<Option<Entry>>, b: seq<Option<Entry>>)
    requires multiset(a) == multiset(b)
    ensures forall r :: r in a <==> r in b
  {
    assert forall r :: r in a <==> r in multiset(a);
    assert forall r :: r in b <==> r in multiset(b);
  }

  lemma {:induction false} SameRow(r: Row, q: Row, a: seq<Option<Entry>>, b: seq<Option<Entry>>)
    requires multiset(a) == multiset(b) && Tells(r, a) && Tells(q, b) && r.key == q.key
    ensures r == q
  {
    SameMembers(a, b);
    CountPermuted(a, b, r.key);
  }

  lemma {:induction false} RowsWithin(a: seq<Row>, b: seq<Row>, records: seq<Option<Entry>>,
                                      permuted: seq<Option<Entry>>)
    requires multiset(records) == multiset(permuted) && AllTell(a, records) && AllTell(b, permuted)
             && KeysOf(a) <= KeysOf(b)
    ensures Elements(a) <= Elements(b)
  {
    forall r | r in a ensures r in b {
      var i :| 0 <= i < |a| && a[i] == r;
      assert r.key in KeysOf(a);
      var q :| q in b && q.key == r.key;
      var j :| 0 <= j < |b| && b[j] == q;
      SameRow(r, q, records, permuted);
    }
  }

  /** However the records are ordered, their summary has the same rows in the same order. */
  lemma {:induction false} OrderDoesNotMatter(s: Summary, t: Summary, records: seq<Option<Entry>>,
                                              permuted: seq<Option<Entry>>)
    requires multiset(records) == multiset(permuted) && Summarises(s, records) && Summarises(t, permuted)
    ensures s.rows == t.rows && s.total == t.total
  {
    SameMembers(records, permuted);
    assert Keys(records) == Keys(permuted);
    RowsWithin(s.rows, t.rows, records, permuted);
    RowsWithin(t.rows, s.rows, permuted, records);
    OneOrder(s.rows, t.rows);
    CountPermuted(records, permuted, []);
  }

  // --- The counts add up -------------------------------------------------------------------------------------

  function RowSum(rows: seq<Row>): nat {
    if rows == [] then 0 else RowSum(rows[..|rows| - 1]) + rows[|rows| - 1].count
  }

  function CountsOf(rows: seq<Row>, records: seq<Option<Entry>>): nat {
    if rows == [] then 0 else CountsOf(rows[..|rows| - 1], records) + Count(records, rows[|rows| - 1].key)
  }

  /** How many of the rows the record belongs to. */
  function Hits(rows: seq<Row>, record: Option<Entry>): nat {
    if rows == [] then 0 else Hits(rows[..|rows| - 1], record) + if HasKey(record, rows[|rows| - 1].key) then 1 else 0
  }

  ghost predicate DistinctKeys(rows: seq<Row>) { forall i, j | 0 <= i < j < |rows| :: rows[i].key != rows[j].key }

  lemma {:induction false} RankedDistinct(rows: seq<Row>, records: seq<Option<Entry>>)
    requires Ranked(rows, RowBefore) && AllTell(rows, records)
    ensures DistinctKeys(rows)
  {
    forall i, j | 0 <= i < j < |rows| ensures rows[i].key != rows[j].key {
      assert RowBefore(rows[i], rows[j]) && Tells(rows[i], records) && Tells(rows[j], records);
      KeysOneWay(rows[i].key, rows[j].key);
    }
  }

  lemma {:induction false} CountsStep(rows: seq<Row>, records: seq<Option<Entry>>)
    requires records != []
    ensures CountsOf(rows, records) == CountsOf(rows, records[..|records| - 1]) + Hits(rows, records[|records| - 1])
  {
    if rows != [] { CountsStep(rows[..|rows| - 1], records); }
  }

  lemma {:induction false} HitsFew(rows: seq<Row>, record: Option<Entry>)
    requires DistinctKeys(rows)
    ensures Hits(rows, record) == if record.Some? && record.value.key in KeysOf(rows) then 1 else 0
  {
    if rows != [] {
      var n := |rows| - 1;
      HitsFew(rows[..n], record);
      assert KeysOf(rows) == KeysOf(rows[..n]) + {rows[n].key} by { assert rows == rows[..n] + [rows[n]]; }
      assert rows[n].key !in KeysOf(rows[..n]) by {
        forall r | r in rows[..n] ensures r.key != rows[n].key {
          var i :| 0 <= i < n && rows[i] == r;
          assert rows[i].key != rows[n].key;
        }
      }
    }
  }

  lemma {:induction false} CountsAre(rows: seq<Row>, records: seq<Option<Entry>>)
    requires DistinctKeys(rows) && Keys(records) <= KeysOf(rows)
    ensures CountsOf(rows, records) == Present(records)
  {
    if records == [] {
      NoCounts(rows);
    } else {
      var n := |records| - 1;
      assert Keys(records[..n]) <= Keys(records);
      CountsAre(rows, records[..n]);
      CountsStep(rows, records);
      HitsFew(rows, records[n]);
      assert records[n] in records;
    }
  }

  lemma {:induction false} NoCounts(rows: seq<Row>)
    ensures CountsOf(rows, []) == 0
  {
    if rows != [] { NoCounts(rows[..|rows| - 1]); }
  }

  lemma {:induction false} RowSumIs(rows: seq<Row>, records: seq<Option<Entry>>)
    requires AllTell(rows, records)
    ensures RowSum(rows) == CountsOf(rows, records)
  {
    if rows != [] {
      assert Tells(rows[|rows| - 1], records);
      RowSumIs(rows[..|rows| - 1], records);
    }
  }

  /** Every record that is there is counted in exactly one row. */
  lemma {:induction false} CountsAddUp(s: Summary, records: seq<Option<Entry>>)
    requires Summarises(s, records)
    ensures RowSum(s.rows) == s.total
  {
    RankedDistinct(s.rows, records);
    RowSumIs(s.rows, records);
    CountsAre(s.rows, records);
  }

  // --- Grouping itself ----------------------------------------------------------------------------------------

  /** The chosen fields of a record. */
  function KeyOf<R>(record: R, fields: seq<Field>, value: (R, Field) -> string): Key {
    if fields == [] then [] else
    KeyOf(record, fields[..|fields| - 1], value) + [value(record, fields[|fields| - 1])]
  }

  /** One text for each chosen field, in the order they were chosen. */
  lemma {:induction false} KeyTells<R>(record: R, fields: seq<Field>, value: (R, Field) -> string)
    ensures |KeyOf(record, fields, value)| == |fields|
    ensures forall i | 0 <= i < |fields| :: KeyOf(record, fields, value)[i] == value(record, fields[i])
  {
    if fields != [] { KeyTells(record, fields[..|fields| - 1], value); }
  }

  function EntryOf(record: Option<WheaRecord>, fields: seq<Field>,
                   value: (WheaRecord, Field) -> string): Option<Entry> {
    if record.None? then None else Some(Entry(KeyOf(record.value, fields, value), record.value.time))
  }

  function Entries(records: seq<Option<WheaRecord>>, fields: seq<Field>,
                   value: (WheaRecord, Field) -> string): seq<Option<Entry>> {
    if records == [] then [] else
    Entries(records[..|records| - 1], fields, value) + [EntryOf(records[|records| - 1], fields, value)]
  }

  /** The map holds a telling row under every key there is. */
  ghost predicate Filled(rows: map<Key, Row>, entries: seq<Option<Entry>>) {
    rows.Keys == Keys(entries) && forall k | k in rows :: rows[k].key == k && Tells(rows[k], entries)
  }

  lemma {:induction false} KeysSnoc(entries: seq<Option<Entry>>, e: Option<Entry>)
    ensures Keys(entries + [e]) == if e.Some? then Keys(entries) + {e.value.key} else Keys(entries)
  {
  }

  lemma {:induction false} NoCount(entries: seq<Option<Entry>>, key: Key)
    ensures Count(entries, key) == 0 <==> key !in Keys(entries)
  {
    if entries != [] {
      var n := |entries| - 1;
      NoCount(entries[..n], key);
      KeysSnoc(entries[..n], entries[n]);
      assert entries == entries[..n] + [entries[n]];
    }
  }

  lemma {:induction false} CountSnoc(entries: seq<Option<Entry>>, e: Option<Entry>, key: Key)
    ensures Count(entries + [e], key) == Count(entries, key) + if HasKey(e, key) then 1 else 0
    ensures Present(entries + [e]) == Present(entries) + if e.Some? then 1 else 0
  {
    assert (entries + [e])[..|entries|] == entries;
  }

  /** A row of another key is not touched by the entry. */
  lemma {:induction false} OtherRow(row: Row, entries: seq<Option<Entry>>, e: Option<Entry>)
    requires Tells(row, entries) && !HasKey(e, row.key)
    ensures Tells(row, entries + [e])
  {
    var more := entries + [e];
    CountSnoc(entries, e, row.key);
    forall r | r in more && HasKey(r, row.key) ensures r in entries {}
    assert forall r :: r in entries ==> r in more;
  }

  lemma {:induction false} NewRow(entries: seq<Option<Entry>>, e: Entry)
    requires e.key !in Keys(entries)
    ensures Tells(Row(e.key, 1, e.time, e.time), entries + [Some(e)])
  {
    var more := entries + [Some(e)];
    NoCount(entries, e.key);
    CountSnoc(entries, Some(e), e.key);
    assert Some(e) in more;
    assert forall r | r in entries && r.Some? :: r.value.key in Keys(entries);
    assert forall r :: r in more <==> r in entries || r == Some(e);
  }

  function Grown(row: Row, time: int): Row {
    Row(row.key, row.count + 1, if time < row.firstSeen then time else row.firstSeen,
        if time > row.lastSeen then time else row.lastSeen)
  }

  lemma {:induction false} SameKeyRow(row: Row, entries: seq<Option<Entry>>, e: Entry)
    requires Tells(row, entries) && row.key == e.key
    ensures Tells(Grown(row, e.time), entries + [Some(e)])
  {
    var more := entries + [Some(e)];
    CountSnoc(entries, Some(e), e.key);
    assert Some(e) in more && HasKey(Some(e), e.key);
    assert forall r :: r in more <==> r in entries || r == Some(e);
  }

  lemma {:induction false} FilledMore(rows: map<Key, Row>, entries: seq<Option<Entry>>, e: Entry, row: Row)
    requires Filled(rows, entries) && row.key == e.key && Tells(row, entries + [Some(e)])
    ensures Filled(rows[e.key := row], entries + [Some(e)])
  {
    KeysSnoc(entries, Some(e));
    forall k | k in rows && k != e.key ensures Tells(rows[k], entries + [Some(e)]) {
      OtherRow(rows[k], entries, Some(e));
    }
  }

  lemma {:induction false} FilledSame(rows: map<Key, Row>, entries: seq<Option<Entry>>)
    requires Filled(rows, entries)
    ensures Filled(rows, entries + [None])
  {
    KeysSnoc(entries, None);
    forall k | k in rows ensures Tells(rows[k], entries + [None]) { OtherRow(rows[k], entries, None); }
  }

  method DoKey(record: WheaRecord, fields: seq<Field>, value: (WheaRecord, Field) -> string) returns (key: Key)
    ensures key == KeyOf(record, fields, value)
  {
    key := [];
    for i := 0 to |fields|
      invariant key == KeyOf(record, fields[..i], value)
    {
      assert fields[..i + 1][..i] == fields[..i];
      key := key + [value(record, fields[i])];
    }
    assert fields[..|fields|] == fields;
  }

  /** The rows of the map outside `rest`, once each. */
  ghost predicate Listed(listed: seq<Row>, rows: map<Key, Row>, rest: set<Key>) {
    && DistinctKeys(listed) && KeysOf(listed) == rows.Keys - rest
    && forall i | 0 <= i < |listed| :: listed[i].key in rows && rows[listed[i].key] == listed[i]
  }

  lemma {:induction false} ListedMore(listed: seq<Row>, rows: map<Key, Row>, rest: set<Key>, k: Key)
    requires Listed(listed, rows, rest) && k in rest && rest <= rows.Keys && rows[k].key == k
    ensures Listed(listed + [rows[k]], rows, rest - {k})
  {
    assert KeysOf(listed + [rows[k]]) == KeysOf(listed) + {k};
    forall i | 0 <= i < |listed| ensures listed[i].key != k {
      assert listed[i] in listed && listed[i].key in KeysOf(listed);
    }
  }

  /** The rows of the map, ranked. */
  method Ranking(rows: map<Key, Row>, ghost entries: seq<Option<Entry>>) returns (ranked: seq<Row>)
    requires Filled(rows, entries)
    ensures Ranked(ranked, RowBefore) && AllTell(ranked, entries) && KeysOf(ranked) == Keys(entries)
  {
    var rest, listed := rows.Keys, [];
    while rest != {}
      invariant rest <= rows.Keys && Listed(listed, rows, rest)
      decreases |rest|
    {
      var k :| k in rest;
      ListedMore(listed, rows, rest, k);
      rest, listed := rest - {k}, listed + [rows[k]];
    }
    assert KeysOf(listed) == rows.Keys;
    assert AllTell(listed, entries);
    NotAfterIsOrder();
    ranked := Sort(listed, NotAfter);
    RankedAfterSort(listed, ranked, entries);
  }

  lemma {:induction false} SameRows(a: seq<Row>, b: seq<Row>)
    requires multiset(a) == multiset(b)
    ensures forall r :: r in a <==> r in b
  {
    assert forall r :: r in a <==> r in multiset(a);
    assert forall r :: r in b <==> r in multiset(b);
  }

  lemma {:induction false} RankedAfterSort(listed: seq<Row>, ranked: seq<Row>, entries: seq<Option<Entry>>)
    requires multiset(ranked) == multiset(listed) && Sorted(ranked, NotAfter) && AllTell(listed, entries)
             && DistinctKeys(listed)
    ensures Ranked(ranked, RowBefore) && AllTell(ranked, entries) && KeysOf(ranked) == KeysOf(listed)
  {
    SameRows(ranked, listed);
    forall i | 0 <= i < |ranked| ensures Tells(ranked[i], entries) {
      assert ranked[i] in listed;
      var j :| 0 <= j < |listed| && listed[j] == ranked[i];
    }
    forall i, j | 0 <= i < j < |ranked| ensures RowBefore(ranked[i], ranked[j]) {
      assert NotAfter(ranked[i], ranked[j]);
      KeysStayDistinct(listed, ranked, i, j);
      RowsOneWay(ranked[i], ranked[j]);
    }
  }

  /** Listed once means ranked once. */
  lemma {:induction false} KeysStayDistinct(listed: seq<Row>, ranked: seq<Row>, i: nat, j: nat)
    requires multiset(ranked) == multiset(listed) && i < j < |ranked| && DistinctKeys(listed)
    ensures ranked[i].key != ranked[j].key
  {
    var x, y := ranked[i], ranked[j];
    SameRows(ranked, listed);
    OnceListed(listed, x);
    TwiceRanked(ranked, i, j);
    assert x in ranked && y in ranked;
    var a :| 0 <= a < |listed| && listed[a] == x;
    var b :| 0 <= b < |listed| && listed[b] == y;
    if a < b { assert listed[a].key != listed[b].key; } else if b < a { assert listed[b].key != listed[a].key; }
  }

  lemma {:induction false} TwiceRanked(ranked: seq<Row>, i: nat, j: nat)
    requires i < j < |ranked|
    ensures ranked[i] == ranked[j] ==> multiset(ranked)[ranked[i]] >= 2
  {
    assert ranked == ranked[..j] + ranked[j..];
    assert ranked[i] == ranked[..j][i] && ranked[j] == ranked[j..][0];
    assert ranked[i] in multiset(ranked[..j]) && ranked[j] in multiset(ranked[j..]);
  }

  lemma {:induction false} OnceListed(listed: seq<Row>, x: Row)
    requires DistinctKeys(listed)
    ensures multiset(listed)[x] <= 1
  {
    if listed != [] {
      var n := |listed| - 1;
      OnceListed(listed[..n], x);
      assert listed == listed[..n] + [listed[n]];
      if listed[n] == x {
        forall a | 0 <= a < n ensures listed[..n][a] != x { assert listed[a].key != listed[n].key; }
        assert x !in multiset(listed[..n]);
      }
    }
  }

  method GroupRecords(records: seq<Option<WheaRecord>>, fields: seq<Field>, value: (WheaRecord, Field) -> string)
      returns (summary: Summary)
    ensures summary.fields == fields && Summarises(summary, Entries(records, fields, value))
  {
    var rows: map<Key, Row>, total := map[], 0;
    ghost var entries: seq<Option<Entry>> := [];
    for i := 0 to |records|
      invariant entries == Entries(records[..i], fields, value)
      invariant total == Present(entries) && Filled(rows, entries)
    {
      assert records[..i + 1][..i] == records[..i];
      ghost var e := EntryOf(records[i], fields, value);
      CountSnoc(entries, e, []);
      if records[i].None? {
        FilledSame(rows, entries);
      } else {
        total := total + 1;
        var time := records[i].value.time;
        var key := DoKey(records[i].value, fields, value);
        var row;
        if key in rows {
          row := Grown(rows[key], time);
          SameKeyRow(rows[key], entries, e.value);
        } else {
          row := Row(key, 1, time, time);
          NewRow(entries, e.value);
        }
        FilledMore(rows, entries, e.value, row);
        rows := rows[key := row];
      }
      entries := entries + [e];
    }
    assert records[..|records|] == records;
    var ranked := Ranking(rows, entries);
    return Summary(fields, ranked, total);
  }
}
