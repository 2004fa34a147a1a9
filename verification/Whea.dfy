/** WHEA incidents: the greedy clustering of records, and the marking of incidents read out
    of the banks after a boot. */
module Whea {
  import opened Arithmetic
  import opened Sorting
  import opened Splits
  import opened Text

  datatype StatusFlags = StatusFlags(uncorrected: bool, contextCorrupt: bool)

  datatype WheaRecord = WheaRecord(
    time: int,
    recordId: nat,
    apicId: Option<nat>,
    mcaBank: Option<nat>,
    mciStat: Option<nat>,
    mciAddr: Option<nat>,
    status: Option<StatusFlags>)

  predicate Uncorrected(r: WheaRecord) {
    if r.status.Some? then r.status.value.uncorrected else r.mciStat.Some? && Bit(r.mciStat.value, 61)
  }

  predicate ContextCorrupt(r: WheaRecord) {
    if r.status.Some? then r.status.value.contextCorrupt else r.mciStat.Some? && Bit(r.mciStat.value, 57)
  }

  predicate Overflow(r: WheaRecord) { r.mciStat.Some? && Bit(r.mciStat.value, 62) }

  /** Bit 62 of the status register is the overflow flag, and without a decoded status bits 57 and
      61 are the other two. */
  lemma {:induction false} BitTells(r: WheaRecord, n: nat, high: nat, bit: nat, low: nat)
    requires bit < 2 && low < Power2(n) && r.mciStat == Some(Power2(n) * (2 * high + bit) + low)
    ensures n == 57 && r.status.None? ==> ContextCorrupt(r) == (bit == 1)
    ensures n == 61 && r.status.None? ==> Uncorrected(r) == (bit == 1)
    ensures n == 62 ==> Overflow(r) == (bit == 1)
  {
    BitOf(r.mciStat.value, n, high, bit, low);
  }

  /** A decoded status decides the two flags it has. */
  lemma {:induction false} StatusTells(r: WheaRecord)
    ensures r.status.Some? ==> Uncorrected(r) == r.status.value.uncorrected
    ensures r.status.Some? ==> ContextCorrupt(r) == r.status.value.contextCorrupt
    ensures r.status.None? && r.mciStat.None? ==> !Uncorrected(r) && !ContextCorrupt(r)
    ensures r.mciStat.None? ==> !Overflow(r)
  {
  }

  datatype Incident = Incident(
    time: int,
    lastTime: int,
    records: seq<WheaRecord>,
    apicIds: seq<int>,
    banks: seq<int>,
    uncorrected: bool,
    contextCorrupt: bool,
    overflow: bool,
    postBootHarvest: bool,
    secondsAfterBoot: int)

  // --- Blocks of records close in time -----------------------------------------------------

  predicate NotLater(a: WheaRecord, b: WheaRecord) {
    a.time < b.time || (a.time == b.time && a.recordId <= b.recordId)
  }

  /** Cut before every record more than `window` later than the one before it. */
  function Blocks(p: seq<WheaRecord>, window: int): seq<seq<WheaRecord>> {
    if p == [] then [] else
    var n := |p| - 1;
    var blocks := Blocks(p[..n], window);
    if n > 0 && p[n].time - p[n - 1].time <= window && blocks != [] then
      blocks[|blocks| - 1 := blocks[|blocks| - 1] + [p[n]]]
    else blocks + [[p[n]]]
  }

  /** How many cuts there are up to record `i`. */
  ghost function BlockIndex(p: seq<WheaRecord>, window: int, i: nat): nat
    requires i < |p|
  {
    if i == 0 then 0 else BlockIndex(p, window, i - 1) + if p[i].time - p[i - 1].time <= window then 0 else 1
  }

  lemma {:induction false} BlockIndexPrefix(p: seq<WheaRecord>, window: int, n: nat, i: nat)
    requires i < n <= |p|
    ensures BlockIndex(p[..n], window, i) == BlockIndex(p, window, i)
  {
    if i > 0 { BlockIndexPrefix(p, window, n, i - 1); }
  }

  lemma {:induction false} BlockIndexGrows(p: seq<WheaRecord>, window: int, i: nat, j: nat)
    requires i <= j < |p|
    ensures BlockIndex(p, window, i) <= BlockIndex(p, window, j)
  {
    if i < j { BlockIndexGrows(p, window, i, j - 1); }
  }

  /** The blocks under a name that does not unfold by itself. */
  ghost function Cut(p: seq<WheaRecord>, window: int): seq<seq<WheaRecord>> { Blocks(p, window) }

  ghost predicate NoneEmpty(blocks: seq<seq<WheaRecord>>) { forall k | 0 <= k < |blocks| :: blocks[k] != [] }

  lemma {:induction false} CutStep(p: seq<WheaRecord>, window: int)
    requires p != []
    ensures var n := |p| - 1; var fewer := Cut(p[..n], window);
            Cut(p, window) == if n > 0 && p[n].time - p[n - 1].time <= window && fewer != []
                              then fewer[|fewer| - 1 := fewer[|fewer| - 1] + [p[n]]]
                              else fewer + [[p[n]]]
  {
  }

  lemma {:induction false} OneMoreRecord(fewer: seq<seq<WheaRecord>>, r: WheaRecord)
    requires NoneEmpty(fewer)
    ensures Flatten(fewer + [[r]]) == Flatten(fewer) + [r] && NoneEmpty(fewer + [[r]])
    ensures fewer != [] ==>
              var grown := fewer[|fewer| - 1 := fewer[|fewer| - 1] + [r]];
              Flatten(grown) == Flatten(fewer) + [r] && NoneEmpty(grown)
  {
    FlattenSnoc(fewer, [r]);
    if fewer != [] { FlattenGrow(fewer, r); }
  }

  /** The blocks hold the records in order, none is empty, and there is one more of them than
      there are cuts. */
  lemma {:induction false} BlocksShape(p: seq<WheaRecord>, window: int)
    ensures Flatten(Cut(p, window)) == p && NoneEmpty(Cut(p, window))
    ensures |Cut(p, window)| == if p == [] then 0 else BlockIndex(p, window, |p| - 1) + 1
  {
    if p != [] {
      var n := |p| - 1;
      BlocksShape(p[..n], window);
      if n > 0 { BlockIndexPrefix(p, window, n, n - 1); }
      CutStep(p, window);
      OneMoreRecord(Cut(p[..n], window), p[n]);
      assert p == p[..n] + [p[n]];
    }
  }

  /** Record `i` is in the block its count of cuts names. */
  lemma {:induction false} BlockBounds(p: seq<WheaRecord>, window: int, i: nat)
    requires i < |p|
    ensures InBlock(Cut(p, window), BlockIndex(p, window, i), i)
  {
    var n := |p| - 1;
    if i < n {
      var k := BlockIndex(p, window, i);
      assert k == BlockIndex(p[..n], window, i) by { BlockIndexPrefix(p, window, n, i); }
      BlockBounds(p[..n], window, i);
      CutStep(p, window);
      BoundsGrow(Cut(p[..n], window), Cut(p, window), p[n], k, i);
    } else {
      BlocksShape(p, window);
      LastBounds(Cut(p, window));
    }
  }

  /** The position of a record among the blocks. */
  ghost predicate InBlock(blocks: seq<seq<WheaRecord>>, k: nat, i: nat) {
    k < |blocks| && Before(blocks, k) <= i < Before(blocks, k + 1)
  }

  // --- Chains of close records --------------------------------------------------------------

  predicate Close(a: WheaRecord, b: WheaRecord, window: int) { -window <= a.time - b.time <= window }

  /** A walk through the records in steps no longer than the window. */
  ghost predicate Chain(p: seq<WheaRecord>, window: int, path: seq<nat>) {
    && path != [] && (forall t | 0 <= t < |path| :: path[t] < |p|)
    && forall t | 0 < t < |path| :: Close(p[path[t - 1]], p[path[t]], window)
  }

  ghost predicate Linked(p: seq<WheaRecord>, window: int, i: nat, j: nat) {
    exists path :: Chain(p, window, path) && path[0] == i && path[|path| - 1] == j
  }

  ghost predicate InOrder(p: seq<WheaRecord>) { Sorted(p, NotLater) }

  /** The records of a sorted log are in order of time, and of their identifiers where the time is
      the same. */
  lemma {:induction false} InOrderTells(p: seq<WheaRecord>, i: nat, j: nat)
    requires InOrder(p) && i < j < |p|
    ensures p[i].time < p[j].time || (p[i].time == p[j].time && p[i].recordId <= p[j].recordId)
  {
    assert NotLater(p[i], p[j]);
  }

  /** Close records have no cut between them. */
  lemma {:induction false} CloseSameBlock(p: seq<WheaRecord>, window: int, i: nat, j: nat)
    requires InOrder(p) && i <= j < |p| && p[j].time - p[i].time <= window
    ensures BlockIndex(p, window, i) == BlockIndex(p, window, j)
    decreases j
  {
    if i < j {
      assert NotLater(p[j - 1], p[j]);
      assert i < j - 1 ==> NotLater(p[i], p[j - 1]);
      CloseSameBlock(p, window, i, j - 1);
    }
  }

  lemma {:induction false} ChainSameBlock(p: seq<WheaRecord>, window: int, path: seq<nat>)
    requires InOrder(p) && Chain(p, window, path)
    ensures BlockIndex(p, window, path[0]) == BlockIndex(p, window, path[|path| - 1])
  {
    if |path| > 1 {
      var n := |path| - 1;
      assert Close(p[path[n - 1]], p[path[n]], window);
      ChainSameBlock(p, window, path[..n]);
      if path[n - 1] <= path[n] {
        CloseSameBlock(p, window, path[n - 1], path[n]);
      } else {
        CloseSameBlock(p, window, path[n], path[n - 1]);
      }
    }
  }

  lemma {:induction false} SameBlockLinked(p: seq<WheaRecord>, window: int, i: nat, j: nat) returns (path: seq<nat>)
    requires InOrder(p) && i <= j < |p| && BlockIndex(p, window, i) == BlockIndex(p, window, j)
    ensures Chain(p, window, path) && path[0] == i && path[|path| - 1] == j
    decreases j
  {
    path := [i];
    if i < j {
      NoCutBefore(p, window, i, j);
      path := SameBlockLinked(p, window, i, j - 1);
      ChainMore(p, window, path, j);
      path := path + [j];
    }
  }

  lemma {:induction false} NoCutBefore(p: seq<WheaRecord>, window: int, i: nat, j: nat)
    requires InOrder(p) && i < j < |p| && BlockIndex(p, window, i) == BlockIndex(p, window, j)
    ensures BlockIndex(p, window, i) == BlockIndex(p, window, j - 1) && Close(p[j - 1], p[j], window)
  {
    BlockIndexGrows(p, window, i, j - 1);
    BlockIndexGrows(p, window, j - 1, j);
    assert NotLater(p[j - 1], p[j]);
  }

  lemma {:induction false} ChainMore(p: seq<WheaRecord>, window: int, path: seq<nat>, j: nat)
    requires Chain(p, window, path) && j < |p| && Close(p[path[|path| - 1]], p[j], window)
    ensures Chain(p, window, path + [j]) && (path + [j])[0] == path[0] && (path + [j])[|path|] == j
  {
  }

  lemma {:induction false} ChainReversed(p: seq<WheaRecord>, window: int, path: seq<nat>) returns (back: seq<nat>)
    requires Chain(p, window, path)
    ensures Chain(p, window, back) && back[0] == path[|path| - 1] && back[|back| - 1] == path[0]
  {
    var n := |path|;
    back := seq(n, t requires 0 <= t < n => path[n - 1 - t]);
    forall t | 0 < t < |back| ensures Close(p[back[t - 1]], p[back[t]], window) {
      assert Close(p[path[n - 1 - t]], p[path[n - t]], window);
    }
  }

  lemma {:induction false} InOneBlock(blocks: seq<seq<WheaRecord>>, k: nat, l: nat, i: nat)
    requires InBlock(blocks, k, i) && InBlock(blocks, l, i)
    ensures k == l
  {
    if k < l { BeforeGrows(blocks, k + 1, l); }
    if l < k { BeforeGrows(blocks, l + 1, k); }
  }

  /** For any window: two records of a sorted log are in one block exactly when steps no
      longer than the window lead from one to the other. */
  lemma {:induction false} SameBlockWhenLinked(p: seq<WheaRecord>, window: int, i: nat, j: nat)
    requires InOrder(p) && i < |p| && j < |p|
    ensures (exists k :: InBlock(Cut(p, window), k, i) && InBlock(Cut(p, window), k, j)) <==> Linked(p, window, i, j)
  {
    var blocks := Cut(p, window);
    BlockBounds(p, window, i);
    BlockBounds(p, window, j);
    if k :| InBlock(blocks, k, i) && InBlock(blocks, k, j) {
      InOneBlock(blocks, k, BlockIndex(p, window, i), i);
      InOneBlock(blocks, k, BlockIndex(p, window, j), j);
      if i <= j {
        var path := SameBlockLinked(p, window, i, j);
      } else {
        var path := SameBlockLinked(p, window, j, i);
        var back := ChainReversed(p, window, path);
      }
    }
    if Linked(p, window, i, j) {
      var path :| Chain(p, window, path) && path[0] == i && path[|path| - 1] == j;
      ChainSameBlock(p, window, path);
      var k := BlockIndex(p, window, i);
      assert InBlock(blocks, k, i) && InBlock(blocks, k, j);
    }
  }

  // --- What an incident says of its records ---------------------------------------------------

  ghost function ApicIds(block: seq<WheaRecord>): set<int> {
    set r | r in block && r.apicId.Some? :: r.apicId.value
  }

  ghost function Banks(block: seq<WheaRecord>): set<int> {
    set r | r in block && r.mcaBank.Some? :: r.mcaBank.value
  }

  ghost predicate Any(block: seq<WheaRecord>, flag: WheaRecord -> bool) { exists r <- block :: flag(r) }

  /** The incident's fields, short of the order and repetition in its two lists. */
  ghost predicate Gathers(x: Incident, block: seq<WheaRecord>) {
    && block != [] && x.time == block[0].time && x.lastTime == block[|block| - 1].time && x.records == block
    && Elements(x.apicIds) == ApicIds(block) && Elements(x.banks) == Banks(block)
    && x.uncorrected == Any(block, Uncorrected)
    && x.contextCorrupt == Any(block, ContextCorrupt)
    && x.overflow == Any(block, Overflow)
    && !x.postBootHarvest && x.secondsAfterBoot == 0
  }

  ghost predicate Summarises(x: Incident, block: seq<WheaRecord>) {
    Gathers(x, block) && Increasing(x.apicIds) && Increasing(x.banks)
  }

  ghost predicate Clustered(incidents: seq<Incident>, p: seq<WheaRecord>, window: int) {
    var blocks := Blocks(p, window);
    |incidents| == |blocks| && forall k | 0 <= k < |blocks| :: Summarises(incidents[k], blocks[k])
  }

  // --- The result does not depend on the order of the log -----------------------------------------

  /** The first `i` of one sorted log are among the first `j` of another of the same records
      when everything after those is later. */
  lemma {:induction false} PrefixWithin(p: seq<WheaRecord>, q: seq<WheaRecord>, i: nat, j: nat)
    requires multiset(p) == multiset(q) && i <= |p| && j <= |q|
    requires forall a, b | 0 <= a < i && j <= b < |q| :: p[a].time < q[b].time
    ensures multiset(p[..i]) <= multiset(q[..j])
  {
    SplitMultiset(p, i);
    SplitMultiset(q, j);
    forall x ensures multiset(p[..i])[x] <= multiset(q[..j])[x] {
      if multiset(p[..i])[x] > 0 {
        assert x in p[..i];
        assert x !in q[j..] by {
          var a :| 0 <= a < i && p[..i][a] == x;
          forall b | 0 <= b < |q| - j ensures q[j..][b] != x { assert p[a].time < q[j + b].time; }
        }
        assert multiset(q[j..])[x] == 0;
        assert multiset(p)[x] >= multiset(p[..i])[x] && multiset(q)[x] == multiset(q[..j])[x];
      }
    }
  }

  lemma {:induction false} SplitMultiset<T>(s: seq<T>, i: nat)
    requires i <= |s|
    ensures multiset(s) == multiset(s[..i]) + multiset(s[i..])
  {
    assert s == s[..i] + s[i..];
  }

  lemma {:induction false} SizeWithin<T>(a: multiset<T>, b: multiset<T>)
    requires a <= b
    ensures |a| <= |b| && (|a| == |b| ==> a == b)
  {
    assert b == a + (b - a);
  }

  lemma {:induction false} SameTimes(p: seq<WheaRecord>, q: seq<WheaRecord>)
    requires InOrder(p) && InOrder(q) && multiset(p) == multiset(q)
    ensures |p| == |q| && forall i | 0 <= i < |p| :: p[i].time == q[i].time
  {
    assert |p| == |multiset(p)| && |q| == |multiset(q)|;
    forall i | 0 <= i < |p| ensures p[i].time <= q[i].time && q[i].time <= p[i].time {
      NoEarlier(p, q, i);
      NoEarlier(q, p, i);
    }
  }

  lemma {:induction false} NoEarlier(p: seq<WheaRecord>, q: seq<WheaRecord>, i: nat)
    requires InOrder(p) && InOrder(q) && multiset(p) == multiset(q) && i < |p| && i < |q|
    ensures p[i].time >= q[i].time
  {
    if p[i].time < q[i].time {
      forall a, b | 0 <= a < i + 1 && i <= b < |q| ensures p[a].time < q[b].time {
        if a < i { assert NotLater(p[a], p[i]); }
        if i < b { assert NotLater(q[i], q[b]); }
      }
      PrefixWithin(p, q, i + 1, i);
      SizeWithin(multiset(p[..i + 1]), multiset(q[..i]));
    }
  }

  /** Blocks are cut by times alone. */
  lemma {:induction false} SameCuts(p: seq<WheaRecord>, q: seq<WheaRecord>, window: int)
    requires |p| == |q| && forall i | 0 <= i < |p| :: p[i].time == q[i].time
    ensures var a, b := Blocks(p, window), Blocks(q, window);
            |a| == |b| && forall k | 0 <= k < |a| :: |a[k]| == |b[k]|
  {
    if p != [] { SameCuts(p[..|p| - 1], q[..|q| - 1], window); }
  }

  lemma {:induction false} SameLengthsBefore<T>(a: seq<seq<T>>, b: seq<seq<T>>, k: nat)
    requires |a| == |b| && k <= |a| && forall i | 0 <= i < |a| :: |a[i]| == |b[i]|
    ensures Before(a, k) == Before(b, k)
  {
    if k > 0 { SameLengthsBefore(a, b, k - 1); }
  }

  /** Where a block ends, the records before it are strictly earlier than the rest. */
  lemma {:induction false} CutSeparates(p: seq<WheaRecord>, window: int, k: nat, a: nat, b: nat)
    requires InOrder(p) && window >= 0 && k <= |Blocks(p, window)|
    requires a < Before(Blocks(p, window), k) <= b < |p|
    ensures p[a].time < p[b].time
  {
    var blocks := Blocks(p, window);
    BlockBounds(p, window, a);
    BlockBounds(p, window, b);
    var i, j := BlockIndex(p, window, a), BlockIndex(p, window, b);
    if i >= k { BeforeGrows(blocks, k, i); }
    if j < k { BeforeGrows(blocks, j + 1, k); }
    if p[b].time <= p[a].time { CloseSameBlock(p, window, a, b); }
  }

  lemma {:induction false} SamePrefix(p: seq<WheaRecord>, q: seq<WheaRecord>, window: int, k: nat)
    requires InOrder(p) && InOrder(q) && multiset(p) == multiset(q) && window >= 0
    requires k <= |Blocks(p, window)| && k <= |Blocks(q, window)|
    requires Before(Blocks(p, window), k) == Before(Blocks(q, window), k) <= |p|
    ensures |p| == |q| && multiset(p[..Before(Blocks(p, window), k)]) == multiset(q[..Before(Blocks(p, window), k)])
  {
    var n := Before(Blocks(p, window), k);
    SameTimes(p, q);
    forall a, b | 0 <= a < n && n <= b < |q| ensures p[a].time < q[b].time { CutSeparates(p, window, k, a, b); }
    PrefixWithin(p, q, n, n);
    SizeWithin(multiset(p[..n]), multiset(q[..n]));
    assert |multiset(p[..n])| == n && |multiset(q[..n])| == n;
  }

  /** The same incident, up to the order of records with equal keys. */
  ghost predicate Same(x: Incident, y: Incident) {
    x.(records := y.records) == y && multiset(x.records) == multiset(y.records)
  }

  lemma {:induction false} SameSummary(x: Incident, y: Incident, a: seq<WheaRecord>, b: seq<WheaRecord>)
    requires Summarises(x, a) && Summarises(y, b) && multiset(a) == multiset(b)
    requires a[0].time == b[0].time && a[|a| - 1].time == b[|b| - 1].time
    ensures Same(x, y)
  {
    assert forall r :: r in a <==> r in multiset(a);
    assert forall r :: r in b <==> r in multiset(b);
    assert ApicIds(a) == ApicIds(b) && Banks(a) == Banks(b);
    OneList(x.apicIds, y.apicIds, ApicIds(a));
    OneList(x.banks, y.banks, Banks(a));
  }

  /** Clustering two orderings of one log gives the same incidents. */
  lemma {:induction false} OrderDoesNotMatter(p: seq<WheaRecord>, q: seq<WheaRecord>, window: int, x: seq<Incident>,
                                              y: seq<Incident>)
    requires multiset(p) == multiset(q) && InOrder(p) && InOrder(q) && window >= 0
    requires Clustered(x, p, window) && Clustered(y, q, window)
    ensures |x| == |y| && forall k | 0 <= k < |x| :: Same(x[k], y[k])
  {
    SameTimes(p, q);
    SameCuts(p, q, window);
    forall k | 0 <= k < |x| ensures Same(x[k], y[k]) { SameIncident(p, q, window, x, y, k); }
  }

  lemma {:induction false} BlockIsSlice(p: seq<WheaRecord>, window: int, k: nat)
    requires k < |Blocks(p, window)|
    ensures var a, b := Before(Blocks(p, window), k), Before(Blocks(p, window), k + 1);
            a < b <= |p| && Blocks(p, window)[k] == p[a..b]
  {
    BlocksShape(p, window);
    PartInFlatten(Blocks(p, window), k);
  }

  lemma {:induction false} SlicesAgree(p: seq<WheaRecord>, q: seq<WheaRecord>, a: nat, b: nat)
    requires |p| == |q| && a < b <= |p| && forall i | 0 <= i < |p| :: p[i].time == q[i].time
    requires multiset(p[..a]) == multiset(q[..a]) && multiset(p[..b]) == multiset(q[..b])
    ensures multiset(p[a..b]) == multiset(q[a..b])
    ensures p[a..b][0].time == q[a..b][0].time && p[a..b][b - a - 1].time == q[a..b][b - a - 1].time
  {
    SliceMultiset(p, a, b);
    SliceMultiset(q, a, b);
  }

  /** The `k`-th blocks of two sorted orderings hold the same records. */
  lemma {:induction false} SameBlock(p: seq<WheaRecord>, q: seq<WheaRecord>, window: int, k: nat)
    requires multiset(p) == multiset(q) && InOrder(p) && InOrder(q) && window >= 0
    requires k < |Blocks(p, window)| == |Blocks(q, window)|
    ensures var a, b := Blocks(p, window)[k], Blocks(q, window)[k];
            a != [] && |a| == |b| && multiset(a) == multiset(b)
            && a[0].time == b[0].time && a[|a| - 1].time == b[|b| - 1].time
  {
    SameTimes(p, q);
    SameCuts(p, q, window);
    SameLengthsBefore(Blocks(p, window), Blocks(q, window), k);
    SameLengthsBefore(Blocks(p, window), Blocks(q, window), k + 1);
    var a, b := Before(Blocks(p, window), k), Before(Blocks(p, window), k + 1);
    BlockIsSlice(p, window, k);
    BlockIsSlice(q, window, k);
    assert multiset(p[..a]) == multiset(q[..a]) by { SamePrefix(p, q, window, k); }
    assert multiset(p[..b]) == multiset(q[..b]) by { SamePrefix(p, q, window, k + 1); }
    SlicesAgree(p, q, a, b);
  }

  lemma {:induction false} SameIncident(p: seq<WheaRecord>, q: seq<WheaRecord>, window: int, x: seq<Incident>,
                                        y: seq<Incident>, k: nat)
    requires multiset(p) == multiset(q) && InOrder(p) && InOrder(q) && window >= 0
    requires Clustered(x, p, window) && Clustered(y, q, window) && k < |x| == |y|
    ensures Same(x[k], y[k])
  {
    SameBlock(p, q, window, k);
    SameSummary(x[k], y[k], Blocks(p, window)[k], Blocks(q, window)[k]);
  }

  lemma {:induction false} SliceMultiset<T>(s: seq<T>, a: nat, b: nat)
    requires a <= b <= |s|
    ensures multiset(s[a..b]) == multiset(s[..b]) - multiset(s[..a])
  {
    assert s[..b] == s[..a] + s[a..b];
  }

  // --- The loop ----------------------------------------------------------------------------------

  function NewIncident(time: int): Incident {
    Incident(time, time, [], [], [], false, false, false, false, 0)
  }

  /** The incident with one more record, its lists not yet sorted. */
  function WithRecord(x: Incident, r: WheaRecord): Incident {
    x.(lastTime := if x.lastTime < r.time then r.time else x.lastTime,
       apicIds := if r.apicId.Some? then x.apicIds + [r.apicId.value] else x.apicIds,
       banks := if r.mcaBank.Some? then x.banks + [r.mcaBank.value] else x.banks,
       uncorrected := x.uncorrected || Uncorrected(r),
       contextCorrupt := x.contextCorrupt || ContextCorrupt(r),
       overflow := x.overflow || Overflow(r),
       records := x.records + [r])
  }

  lemma {:induction false} FirstGathers(r: WheaRecord)
    ensures Gathers(WithRecord(NewIncident(r.time), r), [r])
  {
  }

  lemma {:induction false} MoreGathers(x: Incident, block: seq<WheaRecord>, r: WheaRecord)
    requires Gathers(x, block) && x.lastTime <= r.time
    ensures Gathers(WithRecord(x, r), block + [r])
  {
    MoreIds(block, r);
    MoreFlag(block, r, Uncorrected);
    MoreFlag(block, r, ContextCorrupt);
    MoreFlag(block, r, Overflow);
  }

  lemma {:induction false} MoreIds(block: seq<WheaRecord>, r: WheaRecord)
    ensures ApicIds(block + [r]) == ApicIds(block) + (if r.apicId.Some? then {r.apicId.value} else {})
    ensures Banks(block + [r]) == Banks(block) + (if r.mcaBank.Some? then {r.mcaBank.value} else {})
  {
    assert forall y :: y in block + [r] <==> y in block || y == r;
  }

  lemma {:induction false} MoreFlag(block: seq<WheaRecord>, r: WheaRecord, flag: WheaRecord -> bool)
    ensures Any(block + [r], flag) <==> Any(block, flag) || flag(r)
  {
    assert forall x :: x in block + [r] <==> x in block || x == r;
    if flag(r) { assert r in block + [r]; }
  }

  ghost predicate Gathered(incidents: seq<Incident>, blocks: seq<seq<WheaRecord>>) {
    |incidents| == |blocks| && forall k | 0 <= k < |blocks| :: Gathers(incidents[k], blocks[k])
  }

  /** The incidents of the log in some order by time; which order ties take is not promised. */
  method Cluster(records: seq<WheaRecord>, window: int) returns (incidents: seq<Incident>)
    ensures exists log :: multiset(log) == multiset(records) && InOrder(log) && Clustered(incidents, log, window)
  {
    var log := Sort(records, NotLater);
    incidents := [];
    for i := 0 to |log|
      invariant Gathered(incidents, Cut(log[..i], window))
      invariant i > 0 ==> incidents != [] && incidents[|incidents| - 1].lastTime == log[i - 1].time
    {
      JoinedGathers(incidents, log, i, window);
      incidents := AddRecord(incidents, log[i], window);
    }
    assert log[..|log|] == log;
    incidents := SortLists(incidents, Blocks(log, window));
    assert Clustered(incidents, log, window);
  }

  /** What one record does to the incidents: it joins the last or begins one. */
  function Joined(incidents: seq<Incident>, r: WheaRecord, window: int): (more: seq<Incident>)
    ensures more != []
  {
    var n := |incidents| - 1;
    if incidents != [] && r.time - incidents[n].lastTime <= window then incidents[n := WithRecord(incidents[n], r)]
    else incidents + [WithRecord(NewIncident(r.time), r)]
  }

  lemma {:induction false} JoinedGathers(incidents: seq<Incident>, log: seq<WheaRecord>, i: nat, window: int)
    requires i < |log| && InOrder(log) && Gathered(incidents, Cut(log[..i], window))
    requires i > 0 ==> incidents != [] && incidents[|incidents| - 1].lastTime == log[i - 1].time
    ensures var more := Joined(incidents, log[i], window);
            Gathered(more, Cut(log[..i + 1], window)) && more[|more| - 1].lastTime == log[i].time
  {
    assert log[..i + 1][..i] == log[..i];
    BlocksShape(log[..i], window);
    CutStep(log[..i + 1], window);
    if i > 0 { assert NotLater(log[i - 1], log[i]); }
    JoinedStep(incidents, Cut(log[..i], window), log[i], window);
  }

  lemma {:induction false} JoinedStep(incidents: seq<Incident>, blocks: seq<seq<WheaRecord>>, r: WheaRecord,
                                      window: int)
    requires Gathered(incidents, blocks) && (incidents != [] ==> incidents[|incidents| - 1].lastTime <= r.time)
    ensures var n := |incidents| - 1; var more := Joined(incidents, r, window);
            && more[|more| - 1].lastTime == r.time
            && Gathered(more, if incidents != []
                && r.time - incidents[n].lastTime <= window then blocks[n := blocks[n] + [r]]
                              else blocks + [[r]])
  {
    if incidents != [] && r.time - incidents[|incidents| - 1].lastTime <= window {
      GatheredExtend(incidents, blocks, r);
    } else {
      GatheredNew(incidents, blocks, r);
    }
  }

  method AddRecord(incidents: seq<Incident>, record: WheaRecord, window: int) returns (more: seq<Incident>)
    ensures more == Joined(incidents, record, window)
  {
    more := incidents;
    if more == [] || record.time - more[|more| - 1].lastTime > window { more := more + [NewIncident(record.time)]; }
    more := more[|more| - 1 := WithRecord(more[|more| - 1], record)];
  }

  lemma {:induction false} GatheredNew(incidents: seq<Incident>, blocks: seq<seq<WheaRecord>>, r: WheaRecord)
    requires Gathered(incidents, blocks)
    ensures Gathered(incidents + [WithRecord(NewIncident(r.time), r)], blocks + [[r]])
  {
    FirstGathers(r);
  }

  lemma {:induction false} GatheredExtend(incidents: seq<Incident>, blocks: seq<seq<WheaRecord>>, r: WheaRecord)
    requires Gathered(incidents, blocks) && incidents != [] && incidents[|incidents| - 1].lastTime <= r.time
    ensures var n := |incidents| - 1;
            Gathered(incidents[n := WithRecord(incidents[n], r)], blocks[n := blocks[n] + [r]])
  {
    MoreGathers(incidents[|incidents| - 1], blocks[|incidents| - 1], r);
  }

  method SortLists(incidents: seq<Incident>, ghost blocks: seq<seq<WheaRecord>>) returns (done: seq<Incident>)
    requires Gathered(incidents, blocks)
    ensures |done| == |blocks| && forall k | 0 <= k < |blocks| :: Summarises(done[k], blocks[k])
  {
    done := [];
    for i := 0 to |incidents|
      invariant |done| == i && forall k | 0 <= k < i :: Summarises(done[k], blocks[k])
    {
      assert Gathers(incidents[i], blocks[i]);
      var apicIds := UniqueSorted(incidents[i].apicIds);
      var banks := UniqueSorted(incidents[i].banks);
      done := done + [incidents[i].(apicIds := apicIds, banks := banks)];
    }
  }

  /** What the caller keeps of its log: every record, once, in one incident. */
  lemma {:induction false} ClusterConserves(incidents: seq<Incident>, records: seq<WheaRecord>,
                                            sorted: seq<WheaRecord>, window: int)
    requires multiset(sorted) == multiset(records) && Clustered(incidents, sorted, window)
    ensures multiset(Flatten(RecordsOf(incidents))) == multiset(records)
  {
    BlocksShape(sorted, window);
    assert RecordsOf(incidents) == Blocks(sorted, window);
  }

  ghost function RecordsOf(incidents: seq<Incident>): seq<seq<WheaRecord>> {
    seq(|incidents|, k requires 0 <= k < |incidents| => incidents[k].records)
  }

  // --- Incidents read out of the banks after a boot ------------------------------------------------

  /** The incident with its mark: harvested when some boot is at most `window` before it, and
      the distance to the latest boot not after it. */
  ghost predicate Marked(before: Incident, after: Incident, boots: seq<int>, window: int) {
    && after == before.(postBootHarvest := after.postBootHarvest, secondsAfterBoot := after.secondsAfterBoot)
    && after.postBootHarvest == (before.postBootHarvest || exists b <- boots :: 0 <= before.time - b <= window)
    && if exists b <- boots :: b <= before.time
       then before.time - after.secondsAfterBoot in boots && after.secondsAfterBoot >= 0
            && forall b <- boots :: b <= before.time ==> before.time - b >= after.secondsAfterBoot
       else after.secondsAfterBoot == before.secondsAfterBoot
  }

  method UpperBound(sorted: seq<int>, time: int) returns (next: nat)
    requires forall i, j | 0 <= i < j < |sorted| :: sorted[i] <= sorted[j]
    ensures next <= |sorted|
    ensures forall i | 0 <= i < next :: sorted[i] <= time
    ensures forall i | next <= i < |sorted| :: sorted[i] > time
  {
    var low, high := 0, |sorted|;
    while low < high
      invariant 0 <= low <= high <= |sorted|
      invariant forall i | 0 <= i < low :: sorted[i] <= time
      invariant forall i | high <= i < |sorted| :: sorted[i] > time
    {
      var middle := (low + high) / 2;
      if sorted[middle] <= time { low := middle + 1; } else { high := middle; }
    }
    next := low;
  }

  method Mark(x: Incident, sorted: seq<int>, ghost boots: seq<int>, window: int) returns (y: Incident)
    requires multiset(sorted) == multiset(boots) && forall i, j | 0 <= i < j < |sorted| :: sorted[i] <= sorted[j]
    ensures Marked(x, y, boots, window)
  {
    assert forall b :: b in boots <==> b in multiset(boots);
    assert forall b :: b in sorted <==> b in multiset(sorted);
    y := x;
    var next := UpperBound(sorted, x.time);
    forall b | b in boots && b <= x.time ensures next > 0 && b <= sorted[next - 1] {
      var i :| 0 <= i < |sorted| && sorted[i] == b;
      assert i < next;
    }
    if next == 0 { return; }
    var boot := sorted[next - 1];
    assert boot in sorted && boot in boots;
    y := y.(secondsAfterBoot := x.time - boot);
    if 0 <= y.secondsAfterBoot <= window { y := y.(postBootHarvest := true); }
  }

  method MarkPostBootHarvest(incidents: array<Incident>, boots: seq<int>, window: int)
    modifies incidents
    ensures forall k | 0 <= k < incidents.Length :: Marked(old(incidents[k]), incidents[k], boots, window)
  {
    if boots == [] { return; }
    var le := (a: int, b: int) => a <= b;
    var sorted := Sort(boots, le);
    assert forall i, j | 0 <= i < j < |sorted| :: le(sorted[i], sorted[j]);
    for i := 0 to incidents.Length
      invariant forall k | 0 <= k < i :: Marked(old(incidents[k]), incidents[k], boots, window)
      invariant forall k | i <= k < incidents.Length :: incidents[k] == old(incidents[k])
    {
      incidents[i] := Mark(incidents[i], sorted, boots, window);
    }
  }
}
