/** Trends over incidents: the intervals between them, their median and mean, the rate trend,
    and whether the reported addresses gather on few pages. */
module Trends {
  import opened Arithmetic
  import opened Sorting
  import opened Splits
  import opened Text
  import opened Whea

  // --- Sorted numbers -------------------------------------------------------------------------

  predicate AtMost(a: int, b: int) { a <= b }

  function Inserted(s: seq<int>, x: int): seq<int> {
    if s == [] || x <= s[0] then [x] + s else [s[0]] + Inserted(s[1..], x)
  }

  function InOrder(s: seq<int>): (r: seq<int>)
    ensures |r| == |s|
  {
    if s == [] then [] else
    InsertedLength(InOrder(s[1..]), s[0]);
    Inserted(InOrder(s[1..]), s[0])
  }

  lemma {:induction false} InsertedLength(s: seq<int>, x: int)
    ensures |Inserted(s, x)| == |s| + 1
  {
    if s != [] && x > s[0] { InsertedLength(s[1..], x); }
  }

  ghost predicate Ascending(s: seq<int>) { forall i, j | 0 <= i < j < |s| :: s[i] <= s[j] }

  lemma {:induction false} Members(s: seq<int>, r: seq<int>)
    requires multiset(s) == multiset(r)
    ensures |s| == |r| && forall v :: v in s <==> v in r
  {
    assert |multiset(s)| == |s| && |multiset(r)| == |r|;
    assert forall v :: v in s <==> v in multiset(s);
    assert forall v :: v in r <==> v in multiset(r);
  }

  lemma {:induction false} InsertedMembers(s: seq<int>, x: int)
    ensures multiset(Inserted(s, x)) == multiset(s) + multiset{x}
  {
    if s != [] && x > s[0] {
      InsertedMembers(s[1..], x);
      assert s == [s[0]] + s[1..];
    }
  }

  lemma {:induction false} FirstLeast(s: seq<int>, x: int)
    requires Ascending(s) && forall v | v in s :: x <= v
    ensures Ascending([x] + s)
  {
    forall j | 0 <= j < |s| ensures x <= s[j] { assert s[j] in s; }
  }

  lemma {:induction false} InsertedAscends(s: seq<int>, x: int)
    requires Ascending(s)
    ensures Ascending(Inserted(s, x))
  {
    if s == [] || x <= s[0] {
      FirstLeast(s, x);
    } else {
      InsertedAscends(s[1..], x);
      InsertedMembers(s[1..], x);
      Members(Inserted(s[1..], x), s[1..] + [x]);
      FirstLeast(Inserted(s[1..], x), s[0]);
    }
  }

  lemma {:induction false} InOrderAscends(s: seq<int>)
    ensures Ascending(InOrder(s)) && multiset(InOrder(s)) == multiset(s)
  {
    if s != [] {
      InOrderAscends(s[1..]);
      InsertedAscends(InOrder(s[1..]), s[0]);
      InsertedMembers(InOrder(s[1..]), s[0]);
      assert s == [s[0]] + s[1..];
    }
  }

  lemma {:induction false} WithoutFirst(a: seq<int>, b: seq<int>)
    requires a != [] && b != [] && a[0] == b[0] && multiset(a) == multiset(b)
    ensures multiset(a[1..]) == multiset(b[1..])
  {
    assert a == [a[0]] + a[1..] && b == [b[0]] + b[1..];
    assert multiset(a[1..]) == multiset(a) - multiset{a[0]};
    assert multiset(b[1..]) == multiset(b) - multiset{a[0]};
  }

  /** Numbers have one sorted arrangement. */
  lemma {:induction false} OneOrder(a: seq<int>, b: seq<int>)
    requires Ascending(a) && Ascending(b) && multiset(a) == multiset(b)
    ensures a == b
    decreases |a|
  {
    Members(a, b);
    if a != [] {
      assert a[0] in a && b[0] in b;
      assert a[0] in b && b[0] in a;
      assert a[0] == b[0];
      WithoutFirst(a, b);
      OneOrder(a[1..], b[1..]);
      assert a == [a[0]] + a[1..] && b == [b[0]] + b[1..];
    }
  }

  lemma {:induction false} SameOrder(a: seq<int>, b: seq<int>)
    requires multiset(a) == multiset(b)
    ensures InOrder(a) == InOrder(b)
  {
    InOrderAscends(a);
    InOrderAscends(b);
    OneOrder(InOrder(a), InOrder(b));
  }

  // --- Medians ----------------------------------------------------------------------------------

  /** Division that drops the fraction. */
  function Truncated(a: int, b: nat): int
    requires b > 0
  {
    if a < 0 then -(-a / b) else a / b
  }

  function Middle(s: seq<int>): int {
    var m := |s| / 2;
    if s == [] then 0 else if |s| % 2 == 1 then s[m] else Truncated(s[m - 1] + s[m], 2)
  }

  function MedianOf(values: seq<int>): int { Middle(InOrder(values)) }

  lemma {:induction false} MedianPermuted(a: seq<int>, b: seq<int>)
    requires multiset(a) == multiset(b)
    ensures MedianOf(a) == MedianOf(b)
  {
    SameOrder(a, b);
  }

  lemma {:induction false} MiddleBetween(s: seq<int>, low: int, high: int)
    requires s != [] && forall v | v in s :: low <= v <= high
    ensures low <= Middle(s) <= high
  {
    var m := |s| / 2;
    assert s[m] in s;
    if |s| % 2 == 0 { assert s[m - 1] in s; }
  }

  /** The median lies between any bounds of the values. */
  lemma {:induction false} MedianBetween(values: seq<int>, low: int, high: int)
    requires values != [] && forall v | v in values :: low <= v <= high
    ensures low <= MedianOf(values) <= high
  {
    InOrderAscends(values);
    Members(InOrder(values), values);
    MiddleBetween(InOrder(values), low, high);
  }

  /** Of the values in any ascending arrangement, the one in the middle, or half the sum of the two
      in the middle without its fraction. */
  lemma {:induction false} MedianTells(values: seq<int>, s: seq<int>)
    requires values != [] && Ascending(s) && multiset(s) == multiset(values)
    ensures |s| == |values|
    ensures |s| % 2 == 1 ==> MedianOf(values) == s[|s| / 2]
    ensures |s| % 2 == 0 ==>
              var sum := s[|s| / 2 - 1] + s[|s| / 2];
              2 * MedianOf(values) == if sum % 2 == 0 then sum else if sum > 0 then sum - 1 else sum + 1
  {
    Members(s, values);
    InOrderAscends(values);
    OneOrder(s, InOrder(values));
  }

  /** Some value is no greater than the median and some value no less. */
  lemma {:induction false} MedianAmong(values: seq<int>) returns (a: int, b: int)
    requires values != []
    ensures a in values && b in values && a <= MedianOf(values) <= b
  {
    var s := InOrder(values);
    InOrderAscends(values);
    Members(s, values);
    var m := |s| / 2;
    a, b := s[if |s| % 2 == 0 then m - 1 else m], s[m];
    assert a in s && b in s && a <= b;
  }

  method Median(values: seq<int>) returns (m: int)
    ensures m == MedianOf(values)
  {
    if values == [] { return 0; }
    assert TotalPreorder(AtMost);
    var sorted := Sort(values, AtMost);
    assert Ascending(sorted) by {
      forall i, j | 0 <= i < j < |sorted| ensures sorted[i] <= sorted[j] { assert AtMost(sorted[i], sorted[j]); }
    }
    InOrderAscends(values);
    OneOrder(sorted, InOrder(values));
    var middle := |sorted| / 2;
    if |sorted| % 2 == 1 { return sorted[middle]; }
    return Truncated(sorted[middle - 1] + sorted[middle], 2);
  }

  // --- The rate trend -----------------------------------------------------------------------------

  datatype Trend = TooFewSamples | Flat | Accelerating | Decelerating

  function Compared(early: int, late: int): Trend {
    if early == 0 || late == 0 then TooFewSamples
    else if late * 4 < early * 3 then Accelerating
    else if late * 3 > early * 4 then Decelerating
    else Flat
  }

  function Classified(intervals: seq<int>): Trend {
    var half := |intervals| / 2;
    if |intervals| < 4 then TooFewSamples
    else Compared(MedianOf(intervals[..half]), MedianOf(intervals[half..]))
  }

  method ClassifyTrend(intervals: seq<int>) returns (trend: Trend)
    ensures trend == Classified(intervals)
  {
    if |intervals| < 4 { return TooFewSamples; }
    var half := |intervals| / 2;
    var early := Median(intervals[..half]);
    var late := Median(intervals[half..]);
    if early == 0 || late == 0 { return TooFewSamples; }
    if late * 4 < early * 3 { return Accelerating; }
    if late * 3 > early * 4 { return Decelerating; }
    return Flat;
  }

  ghost predicate AllPairs(early: seq<int>, late: seq<int>, holds: (int, int) -> bool) {
    forall a, b | a in early && b in late :: holds(a, b)
  }

  predicate Shorter(a: int, b: int) { 0 < b && 4 * b < 3 * a }

  predicate Longer(a: int, b: int) { 0 < a && 4 * a < 3 * b }

  predicate Alike(a: int, b: int) { 0 < a && 0 < b && 3 * a <= 4 * b && 3 * b <= 4 * a }

  /** Errors come faster when every interval of the later half is shorter than three quarters of
      every one of the earlier half, slower when it is the other way round, and steadily when no
      two are that far apart. */
  lemma {:induction false} TrendTells(early: seq<int>, late: seq<int>)
    requires |late| == |early| || |late| == |early| + 1
    ensures |early| + |late| < 4 ==> Classified(early + late) == TooFewSamples
    ensures |early| + |late| >= 4 && AllPairs(early, late, Shorter) ==> Classified(early + late) == Accelerating
    ensures |early| + |late| >= 4 && AllPairs(early, late, Longer) ==> Classified(early + late) == Decelerating
    ensures |early| + |late| >= 4 && AllPairs(early, late, Alike) ==> Classified(early + late) == Flat
  {
    var all := early + late;
    if |all| >= 4 {
      assert all[..|all| / 2] == early && all[|all| / 2..] == late;
      var a, b := MedianAmong(early);
      var c, d := MedianAmong(late);
      if AllPairs(early, late, Shorter) { assert Shorter(a, c) && Shorter(a, d); }
      if AllPairs(early, late, Longer) { assert Longer(b, c) && Longer(a, c); }
      if AllPairs(early, late, Alike) { assert Alike(a, c) && Alike(a, d) && Alike(b, c) && Alike(b, d); }
    }
  }

  /** Half of the intervals taking no time at all says nothing. */
  lemma {:induction false} ZeroesSayNothing(intervals: seq<int>)
    requires forall v | v in intervals[..|intervals| / 2] :: v == 0
    ensures Classified(intervals) == TooFewSamples
  {
    if |intervals| >= 4 {
      var a, b := MedianAmong(intervals[..|intervals| / 2]);
    }
  }

  function Opposite(t: Trend): Trend {
    match t
    case Accelerating => Decelerating
    case Decelerating => Accelerating
    case _ => t
  }

  lemma {:induction false} ComparedOpposite(early: int, late: int)
    requires early >= 0 && late >= 0
    ensures Compared(late, early) == Opposite(Compared(early, late))
  {
  }

  lemma {:induction false} MedianNotNegative(values: seq<int>)
    requires forall v | v in values :: v >= 0
    ensures MedianOf(values) >= 0
  {
    if values != [] {
      InOrderAscends(values);
      Members(InOrder(values), values);
      var s := InOrder(values);
      assert s[|s| / 2] in s && (|s| % 2 == 0 ==> s[|s| / 2 - 1] in s);
    }
  }

  lemma {:induction false} ReversedMedian(values: seq<int>)
    ensures MedianOf(Reversed(values)) == MedianOf(values)
  {
    ReversedSame(values);
    MedianPermuted(values, Reversed(values));
  }

  lemma {:induction false} HalvesSwap(early: seq<int>, late: seq<int>, all: seq<int>)
    requires all == early + late && |early| == |late|
    ensures Reversed(all)[..|early|] == Reversed(late) && Reversed(all)[|early|..] == Reversed(early)
  {
    ReversedConcat(early, late);
  }

  /** Played backwards, an even number of intervals has the opposite trend. */
  lemma {:induction false} BackwardsIsOpposite(intervals: seq<int>)
    requires |intervals| % 2 == 0 && forall v | v in intervals :: v >= 0
    ensures Classified(Reversed(intervals)) == Opposite(Classified(intervals))
  {
    var half := |intervals| / 2;
    var early, late := intervals[..half], intervals[half..];
    HalvesSwap(early, late, intervals);
    ReversedMedian(early);
    ReversedMedian(late);
    assert (forall v | v in early :: v in intervals) && (forall v | v in late :: v in intervals);
    MedianNotNegative(early);
    MedianNotNegative(late);
    ComparedOpposite(MedianOf(early), MedianOf(late));
  }

  // --- Intervals ------------------------------------------------------------------------------------

  function Intervals(times: seq<int>): (r: seq<int>)
    ensures |r| == if times == [] then 0 else |times| - 1
  {
    if |times| < 2 then [] else
    var n := |times| - 1;
    Intervals(times[..n]) + [times[n] - times[n - 1]]
  }

  function Total(values: seq<int>): int {
    if values == [] then 0 else Total(values[..|values| - 1]) + values[|values| - 1]
  }

  function MeanOf(values: seq<int>): int
    requires values != []
  {
    Truncated(Total(values), |values|)
  }

  /** The intervals add up to the whole span, so the mean needs only its ends. */
  lemma {:induction false} IntervalsTelescope(times: seq<int>)
    requires times != []
    ensures Total(Intervals(times)) == times[|times| - 1] - times[0]
    ensures |times| > 1 ==> MeanOf(Intervals(times)) == Truncated(times[|times| - 1] - times[0], |times| - 1)
  {
    if |times| > 1 {
      var n := |times| - 1;
      IntervalsTelescope(times[..n]);
      assert Intervals(times)[..n - 1] == Intervals(times[..n]);
    }
  }

  /** The mean interval is the span over the number of intervals, without its fraction. */
  lemma {:induction false} MeanTells(times: seq<int>)
    requires |times| > 1 && Ascending(times)
    ensures var n, mean, span := |times| - 1, MeanOf(Intervals(times)), times[|times| - 1] - times[0];
            n * mean <= span < n * mean + n
  {
    IntervalsTelescope(times);
    AscendingEnds(times);
    Share(times[|times| - 1] - times[0], |times| - 1);
  }

  lemma {:induction false} AscendingEnds(times: seq<int>)
    requires times != [] && Ascending(times)
    ensures times[0] <= times[|times| - 1]
  {
  }

  lemma {:induction false} Share(span: int, n: nat)
    requires span >= 0 && n > 0
    ensures n * Truncated(span, n) <= span < n * Truncated(span, n) + n
  {
  }

  /** Each interval is the time from one incident to the next. */
  lemma {:induction false} IntervalAt(times: seq<int>, i: nat)
    requires i + 1 < |times|
    ensures Intervals(times)[i] == times[i + 1] - times[i]
  {
    if i + 2 < |times| { IntervalAt(times[..|times| - 1], i); }
  }

  lemma {:induction false} IntervalsNotNegative(times: seq<int>)
    requires Ascending(times)
    ensures forall v | v in Intervals(times) :: v >= 0
  {
    if |times| > 1 { IntervalsNotNegative(times[..|times| - 1]); }
  }

  /** With an odd number of incidents in time order, the intervals told backwards have the
      opposite trend. */
  lemma {:induction false} TimesBackwards(times: seq<int>)
    requires Ascending(times) && |times| % 2 == 1
    ensures Classified(Reversed(Intervals(times))) == Opposite(Classified(Intervals(times)))
  {
    IntervalsNotNegative(times);
    BackwardsIsOpposite(Intervals(times));
  }

  datatype Spacing = Spacing(intervals: seq<int>, median: Option<int>, mean: Option<int>, trend: Trend)

  function TimesOf(incidents: seq<Incident>): (r: seq<int>)
    ensures |r| == |incidents|
  {
    if incidents == [] then [] else TimesOf(incidents[..|incidents| - 1]) + [incidents[|incidents| - 1].time]
  }

  lemma {:induction false} TimesAt(incidents: seq<Incident>, i: nat)
    requires i < |incidents|
    ensures TimesOf(incidents)[i] == incidents[i].time
  {
    if i < |incidents| - 1 { TimesAt(incidents[..|incidents| - 1], i); }
  }

  lemma {:induction false} OneMoreInterval(times: seq<int>, i: nat)
    requires 1 <= i < |times|
    ensures Intervals(times[..i + 1]) == Intervals(times[..i]) + [times[i] - times[i - 1]]
    ensures Total(Intervals(times[..i + 1])) == Total(Intervals(times[..i])) + times[i] - times[i - 1]
  {
    var less := Intervals(times[..i]);
    assert times[..i + 1][..i] == times[..i];
    assert (less + [times[i] - times[i - 1]])[..|less|] == less;
  }

  method DoIntervals(incidents: seq<Incident>) returns (intervals: seq<int>, sum: int)
    ensures intervals == Intervals(TimesOf(incidents)) && sum == Total(intervals)
  {
    ghost var times := TimesOf(incidents);
    intervals, sum := [], 0;
    if incidents == [] { return; }
    for i := 1 to |incidents|
      invariant intervals == Intervals(times[..i]) && sum == Total(intervals)
    {
      var gap := incidents[i].time - incidents[i - 1].time;
      TimesAt(incidents, i);
      TimesAt(incidents, i - 1);
      OneMoreInterval(times, i);
      intervals, sum := intervals + [gap], sum + gap;
    }
    assert times[..|times|] == times;
  }

  /** The intervals between incidents, with their median, mean and trend. */
  method AnalyseSpacing(incidents: seq<Incident>) returns (s: Spacing)
    ensures s.intervals == Intervals(TimesOf(incidents)) && s.trend == Classified(s.intervals)
    ensures s.median == if s.intervals == [] then None else Some(MedianOf(s.intervals))
    ensures s.mean == if s.intervals == [] then None else Some(MeanOf(s.intervals))
  {
    var intervals, sum := DoIntervals(incidents);
    var trend := ClassifyTrend(intervals);
    if intervals == [] { return Spacing(intervals, None, None, trend); }
    var median := Median(intervals);
    return Spacing(intervals, Some(median), Some(Truncated(sum, |intervals|)), trend);
  }

  // --- Tallies ----------------------------------------------------------------------------------------

  function Occurrences(values: seq<int>, value: int): nat {
    if values == [] then 0 else Occurrences(values[..|values| - 1], value) + if values[|values| - 1] == value then 1
        else 0
  }

  /** Every value in the map counts its occurrences, and every value there is is in the map. */
  ghost predicate Tallied(tally: map<int, nat>, values: seq<int>) {
    tally.Keys == Elements(values) && forall p | p in tally :: tally[p] == Occurrences(values, p)
  }

  lemma {:induction false} OccursIfThere(values: seq<int>, value: int)
    ensures value in values <==> Occurrences(values, value) > 0
  {
    if values != [] {
      OccursIfThere(values[..|values| - 1], value);
      assert values == values[..|values| - 1] + [values[|values| - 1]];
    }
  }

  lemma {:induction false} OccursAsOften(values: seq<int>, value: int)
    ensures Occurrences(values, value) == multiset(values)[value]
  {
    if values != [] {
      OccursAsOften(values[..|values| - 1], value);
      assert values == values[..|values| - 1] + [values[|values| - 1]];
    }
  }

  lemma {:induction false} TalliedMore(tally: map<int, nat>, values: seq<int>, value: int)
    requires Tallied(tally, values)
    ensures Tallied(tally[value := (if value in tally then tally[value] else 0) + 1], values + [value])
  {
    ElementsSnoc(values, value);
    assert (values + [value])[..|values|] == values;
    OccursIfThere(values, value);
  }

  datatype Counted = Counted(value: int, count: nat)

  /** Most frequent first, then the smaller value. */
  predicate Ahead(a: Counted, b: Counted) { if a.count != b.count then a.count > b.count else a.value < b.value }

  predicate NotBehind(a: Counted, b: Counted) { !Ahead(b, a) }

  ghost predicate Exact(list: seq<Counted>, values: seq<int>) {
    forall c <- list :: c.count == Occurrences(values, c.value) > 0
  }

  /** Every value once, with how often it occurs, in the one order there is. */
  ghost predicate IsTally(list: seq<Counted>, values: seq<int>) {
    Ranked(list, Ahead) && Exact(list, values) && forall v <- values :: Counted(v, Occurrences(values, v)) in list
  }

  /** Numbers have one tally. */
  lemma {:induction false} OneTally(a: seq<Counted>, b: seq<Counted>, values: seq<int>)
    requires IsTally(a, values) && IsTally(b, values)
    ensures a == b
  {
    TallyWithin(a, b, values);
    TallyWithin(b, a, values);
    OneRanking(a, b, Ahead);
  }

  /** The more frequent value comes first, and the smaller of two as frequent. */
  lemma {:induction false} TallyTells(list: seq<Counted>, values: seq<int>, i: nat, j: nat)
    requires IsTally(list, values) && i < j < |list|
    ensures list[i].count == multiset(values)[list[i].value] && list[j].count == multiset(values)[list[j].value]
    ensures list[i].count >= list[j].count && (list[i].count == list[j].count ==> list[i].value < list[j].value)
  {
    assert list[i] in list && list[j] in list;
    OccursAsOften(values, list[i].value);
    OccursAsOften(values, list[j].value);
    assert Ahead(list[i], list[j]);
  }

  lemma {:induction false} TallyWithin(a: seq<Counted>, b: seq<Counted>, values: seq<int>)
    requires Exact(a, values) && forall v <- values :: Counted(v, Occurrences(values, v)) in b
    ensures Elements(a) <= Elements(b)
  {
    forall c | c in a ensures c in b { OccursIfThere(values, c.value); }
  }

  /** What a map of counts lists, for these keys. */
  function Listed(keys: seq<int>, tally: map<int, nat>): (list: seq<Counted>)
    requires forall i | 0 <= i < |keys| :: keys[i] in tally
    ensures |list| == |keys| && forall i | 0 <= i < |keys| :: list[i] == Counted(keys[i], tally[keys[i]])
  {
    seq(|keys|, i requires 0 <= i < |keys| => Counted(keys[i], tally[keys[i]]))
  }

  lemma {:induction false} ListedOnce(list: seq<Counted>, ranked: seq<Counted>, i: nat, j: nat)
    requires multiset(ranked) == multiset(list) && i < j < |ranked|
    requires forall a, b | 0 <= a < b < |list| :: list[a].value != list[b].value
    ensures ranked[i].value != ranked[j].value
  {
    var x, y := ranked[i], ranked[j];
    assert ranked == ranked[..j] + ranked[j..] && x == ranked[..j][i] && y == ranked[j..][0];
    assert x in multiset(list) && y in multiset(list);
    var a :| 0 <= a < |list| && list[a] == x;
    var b :| 0 <= b < |list| && list[b] == y;
    if a == b {
      assert multiset(ranked)[x] >= 2 by { assert x in multiset(ranked[..j]) && x in multiset(ranked[j..]); }
      CountedOnce(list, a);
    } else if a < b {
      assert list[a].value != list[b].value;
    } else {
      assert list[b].value != list[a].value;
    }
  }

  lemma {:induction false} CountedOnce(list: seq<Counted>, k: nat)
    requires k < |list| && forall a, b | 0 <= a < b < |list| :: list[a].value != list[b].value
    ensures multiset(list)[list[k]] == 1
  {
    var before, after := list[..k], list[k + 1..];
    assert list == before + [list[k]] + after;
    forall a | 0 <= a < |before| ensures before[a] != list[k] { assert list[a].value != list[k].value; }
    forall a | 0 <= a < |after| ensures after[a] != list[k] { assert list[k].value != list[k + 1 + a].value; }
    assert list[k] !in multiset(before) && list[k] !in multiset(after);
  }

  lemma {:induction false} SortedIsTally(keys: seq<int>, ranked: seq<Counted>, tally: map<int, nat>, values: seq<int>)
    requires Tallied(tally, values) && NoRepeats(keys) && Elements(keys) == tally.Keys
             && forall i | 0 <= i < |keys| :: keys[i] in tally
    requires multiset(ranked) == multiset(Listed(keys, tally)) && Sorted(ranked, NotBehind)
    ensures IsTally(ranked, values)
  {
    var list := Listed(keys, tally);
    forall c ensures c in ranked <==> c in list { assert (c in multiset(ranked)) == (c in multiset(list)); }
    forall i, j | 0 <= i < j < |ranked| ensures Ahead(ranked[i], ranked[j]) {
      assert NotBehind(ranked[i], ranked[j]);
      ListedOnce(list, ranked, i, j);
    }
    forall c | c in ranked ensures c.count == Occurrences(values, c.value) > 0 {
      assert c.value in keys;
      OccursIfThere(values, c.value);
    }
    forall v | v in values ensures Counted(v, Occurrences(values, v)) in ranked {
      assert v in Elements(keys);
      var i :| 0 <= i < |keys| && keys[i] == v;
      assert list[i] == Counted(v, Occurrences(values, v));
    }
  }

  /** The counts of a map as a list. */
  method Tally(tally: map<int, nat>, ghost values: seq<int>) returns (ranked: seq<Counted>)
    requires Tallied(tally, values)
    ensures IsTally(ranked, values)
  {
    var keys := Listing(tally.Keys);
    assert forall i | 0 <= i < |keys| :: keys[i] in Elements(keys);
    assert TotalPreorder(NotBehind);
    ranked := Sort(Listed(keys, tally), NotBehind);
    SortedIsTally(keys, ranked, tally, values);
  }

  /** The APIC identifiers of all incidents, in order. */
  function ApicIdList(incidents: seq<Incident>): seq<int> {
    if incidents == [] then [] else ApicIdList(incidents[..|incidents| - 1]) + incidents[|incidents| - 1].apicIds
  }

  method PerApic(incidents: seq<Incident>) returns (ranked: seq<Counted>)
    ensures IsTally(ranked, ApicIdList(incidents))
  {
    var tally: map<int, nat> := map[];
    ghost var values: seq<int> := [];
    for i := 0 to |incidents|
      invariant values == ApicIdList(incidents[..i]) && Tallied(tally, values)
    {
      assert incidents[..i + 1][..i] == incidents[..i];
      var ids := incidents[i].apicIds;
      ghost var before := values;
      assert before + ids[..0] == before;
      for j := 0 to |ids|
        invariant values == before + ids[..j] && Tallied(tally, values)
      {
        TalliedMore(tally, values, ids[j]);
        assert before + ids[..j + 1] == before + ids[..j] + [ids[j]];
        tally := tally[ids[j] := (if ids[j] in tally then tally[ids[j]] else 0) + 1];
        values := values + [ids[j]];
      }
      assert ids[..|ids|] == ids;
    }
    assert incidents[..|incidents|] == incidents;
    ranked := Tally(tally, values);
  }

  // --- Address clustering -----------------------------------------------------------------------------

  /** The page of a record's address, if the address says anything. */
  function PageOf(r: WheaRecord): Option<int> {
    if r.mciAddr.None? then None else
    var address := r.mciAddr.value % 0x100_0000_0000_0000;
    if address == 0 then None else Some(address / 4096)
  }

  /** An address counts by bits 12 to 55, unless its 56 bits are zero. */
  lemma {:induction false} PageTells(r: WheaRecord, high: nat, page: nat, low: nat)
    requires page < 0x1000_0000_0000 && low < 4096
    requires r.mciAddr == Some(high * 0x100_0000_0000_0000 + (page * 4096 + low))
    ensures PageOf(r) == if page == 0 && low == 0 then None else Some(page)
  {
    Quotient(r.mciAddr.value, 0x100_0000_0000_0000, high, page * 4096 + low);
    Quotient(page * 4096 + low, 4096, page, low);
  }

  /** The pages of the records that have one, in order. */
  function Pages(records: seq<WheaRecord>): seq<int> {
    if records == [] then [] else
    var page := PageOf(records[|records| - 1]);
    Pages(records[..|records| - 1]) + if page.Some? then [page.value] else []
  }

  function Records(incidents: seq<Incident>): seq<WheaRecord> {
    if incidents == [] then [] else Records(incidents[..|incidents| - 1]) + incidents[|incidents| - 1].records
  }

  datatype Clustering = Clustering(measurable: bool, samples: nat, distinct: nat, largest: nat, clustered: bool)

  ghost predicate Largest(n: nat, pages: seq<int>) {
    && (forall p | p in pages :: Occurrences(pages, p) <= n)
    && (pages != [] ==> exists p :: p in pages && Occurrences(pages, p) == n)
  }

  /** With fewer pages than samples, two samples share one. */
  lemma {:induction false} SomePageTwice(pages: seq<int>)
    requires |Elements(pages)| < |pages|
    ensures exists p :: p in pages && Occurrences(pages, p) >= 2
  {
    var n := |pages| - 1;
    var less, last := pages[..n], pages[n];
    assert pages == less + [last];
    ElementsSnoc(less, last);
    if last in less {
      OccursIfThere(less, last);
      assert last in pages;
    } else {
      assert |Elements(pages)| == |Elements(less)| + 1;
      SomePageTwice(less);
      var p :| p in less && Occurrences(less, p) >= 2;
      assert p in pages && Occurrences(pages, p) >= 2;
    }
  }

  /** Addresses called clustered include a page with at least two samples. */
  lemma {:induction false} ClusteredShares(c: Clustering, pages: seq<int>)
    requires c.samples == |pages| && c.clustered && c.distinct == |Elements(pages)| && c.distinct * 2 <= c.samples
             && c.samples >= 3
    requires Largest(c.largest, pages)
    ensures c.largest >= 2
  {
    SomePageTwice(pages);
  }

  /** The pages of an incident's records added to those of the records `before`. */
  method AddPages(tally: map<int, nat>, samples: nat, ghost before: seq<WheaRecord>, records: seq<WheaRecord>)
      returns (more: map<int, nat>, count: nat)
    requires Tallied(tally, Pages(before)) && samples == |Pages(before)|
    ensures count == |Pages(before + records)| && Tallied(more, Pages(before + records))
  {
    ghost var pages := Pages(before);
    more, count := tally, samples;
    assert before + records[..0] == before;
    for j := 0 to |records|
      invariant pages == Pages(before + records[..j]) && count == |pages| && Tallied(more, pages)
    {
      assert (before + records[..j + 1])[..|before| + j] == before + records[..j];
      var page := PageOf(records[j]);
      if page.None? { continue; }
      TalliedMore(more, pages, page.value);
      count := count + 1;
      more := more[page.value := (if page.value in more then more[page.value] else 0) + 1];
      pages := pages + [page.value];
    }
    assert records[..|records|] == records;
  }

  method AnalyseAddresses(incidents: seq<Incident>) returns (c: Clustering)
    ensures var pages := Pages(Records(incidents)); c.samples == |pages| && c.measurable == (|pages| >= 3)
    ensures var pages := Pages(Records(incidents));
            c.measurable ==> c.distinct == |Elements(pages)| && Largest(c.largest, pages)
    ensures c.clustered <==> c.measurable && c.distinct * 2 <= c.samples
    ensures c.clustered ==> c.largest >= 2
  {
    var tally: map<int, nat>, samples := map[], 0;
    ghost var pages: seq<int> := [];
    for i := 0 to |incidents|
      invariant pages == Pages(Records(incidents[..i])) && samples == |pages| && Tallied(tally, pages)
    {
      assert incidents[..i + 1][..i] == incidents[..i];
      tally, samples := AddPages(tally, samples, Records(incidents[..i]), incidents[i].records);
      pages := Pages(Records(incidents[..i + 1]));
    }
    assert incidents[..|incidents|] == incidents;
    if samples < 3 { return Clustering(false, samples, 0, 0, false); }
    var largest := LargestCount(tally, pages);
    assert |tally.Keys| == |tally|;
    c := Clustering(true, samples, |tally|, largest, |tally| * 2 <= samples);
    if c.clustered { ClusteredShares(c, pages); }
  }

  method LargestCount(tally: map<int, nat>, ghost pages: seq<int>) returns (largest: nat)
    requires Tallied(tally, pages)
    ensures Largest(largest, pages)
  {
    largest := 0;
    var keys := Listing(tally.Keys);
    assert forall p :: p in keys <==> p in Elements(keys);
    for i := 0 to |keys|
      invariant forall j | 0 <= j < i :: tally[keys[j]] <= largest
      invariant if i == 0 then largest == 0 else exists p <- keys :: tally[p] == largest
    {
      OccursIfThere(pages, keys[i]);
      if tally[keys[i]] > largest { largest := tally[keys[i]]; }
    }
    forall p | p in pages ensures Occurrences(pages, p) <= largest {
      assert p in Elements(keys);
      var i :| 0 <= i < |keys| && keys[i] == p;
    }
    assert pages != [] ==> pages[0] in Elements(keys);
  }
}
