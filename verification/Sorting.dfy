/** Sorting by a total preorder, and the ascending list of a set of numbers. */
module Sorting {

  ghost predicate TotalPreorder<T(!new)>(le: (T, T) -> bool) {
    && (forall x, y :: le(x, y) || le(y, x))
    && (forall x, y, z :: le(x, y) && le(y, z) ==> le(x, z))
  }

  ghost predicate Sorted<T>(s: seq<T>, le: (T, T) -> bool) {
    forall i, j | 0 <= i < j < |s| :: le(s[i], s[j])
  }

  /** Some sorted permutation; the order of equivalent elements is not promised. */
  method Sort<T(!new)>(s: seq<T>, le: (T, T) -> bool) returns (r: seq<T>)
    requires TotalPreorder(le)
    ensures multiset(r) == multiset(s) && Sorted(r, le)
  {
    r := [];
    for i := 0 to |s|
      invariant multiset(r) == multiset(s[..i]) && Sorted(r, le)
    {
      assert s[..i + 1] == s[..i] + [s[i]];
      r := Insert(r, s[i], le);
    }
    assert s[..|s|] == s;
  }

  method Insert<T(!new)>(s: seq<T>, x: T, le: (T, T) -> bool) returns (r: seq<T>)
    requires TotalPreorder(le) && Sorted(s, le)
    ensures multiset(r) == multiset(s) + multiset{x} && Sorted(r, le)
  {
    var k := |s|;
    while k > 0 && !le(s[k - 1], x)
      invariant 0 <= k <= |s| && forall i | k <= i < |s| :: le(x, s[i])
    {
      k := k - 1;
    }
    r := s[..k] + [x] + s[k..];
    InsertSorted(s, k, x, le);
    assert s == s[..k] + s[k..];
  }

  lemma {:induction false} InsertSorted<T(!new)>(s: seq<T>, k: nat, x: T, le: (T, T) -> bool)
    requires TotalPreorder(le) && Sorted(s, le) && k <= |s|
    requires (k > 0 ==> le(s[k - 1], x)) && forall i | k <= i < |s| :: le(x, s[i])
    ensures Sorted(s[..k] + [x] + s[k..], le)
  {
    var r := s[..k] + [x] + s[k..];
    forall i | 0 <= i < k ensures le(s[i], x) { if i < k - 1 { assert le(s[i], s[k - 1]); } }
    forall i, j | 0 <= i < j < |r| ensures le(r[i], r[j]) {
      assert r[i] == if i < k then s[i] else if i == k then x else s[i - 1];
      assert r[j] == if j < k then s[j] else if j == k then x else s[j - 1];
    }
  }

  ghost predicate NoRepeats<T>(s: seq<T>) { forall i, j | 0 <= i < j < |s| :: s[i] != s[j] }

  ghost function Elements<T>(s: seq<T>): set<T> { set x | x in s }

  /** The members of a set, once each, in some order. */
  method Listing<T(==)>(members: set<T>) returns (list: seq<T>)
    ensures NoRepeats(list) && Elements(list) == members
  {
    list := [];
    var rest := members;
    while rest != {}
      invariant rest <= members && NoRepeats(list) && Elements(list) == members - rest
      decreases |rest|
    {
      var x :| x in rest;
      assert x !in Elements(list);
      ElementsSnoc(list, x);
      rest, list := rest - {x}, list + [x];
    }
  }

  /** Each comes before all that follow. */
  ghost predicate Ranked<T>(s: seq<T>, before: (T, T) -> bool) { forall i, j | 0 <= i < j < |s| :: before(s[i], s[j]) }

  /** Elements can be ranked in only one way. */
  lemma {:induction false} OneRanking<T(!new)>(a: seq<T>, b: seq<T>, before: (T, T) -> bool)
    requires forall x, y :: before(x, y) ==> !before(y, x)
    requires Ranked(a, before) && Ranked(b, before) && Elements(a) == Elements(b)
    ensures a == b
    decreases |a|
  {
    assert a != [] ==> a[0] in Elements(b);
    assert b != [] ==> b[0] in Elements(a);
    if a != [] && b != [] {
      var i :| 0 <= i < |b| && b[i] == a[0];
      var j :| 0 <= j < |a| && a[j] == b[0];
      assert a[0] == b[0];
      RestRanked(a, before);
      RestRanked(b, before);
      OneRanking(a[1..], b[1..], before);
    }
  }

  lemma {:induction false} RestRanked<T(!new)>(s: seq<T>, before: (T, T) -> bool)
    requires forall x, y :: before(x, y) ==> !before(y, x)
    requires s != [] && Ranked(s, before)
    ensures Elements(s[1..]) == Elements(s) - {s[0]} && Ranked(s[1..], before)
  {
    forall i | 0 < i < |s| ensures s[i] != s[0] { assert before(s[0], s[i]); }
    forall r | r in Elements(s) && r != s[0] ensures r in s[1..] {
      var i :| 0 <= i < |s| && s[i] == r;
      assert s[1..][i - 1] == r;
    }
  }

  // --- Numbers --------------------------------------------------------------------------

  ghost predicate Increasing(s: seq<int>) { forall i, j | 0 <= i < j < |s| :: s[i] < s[j] }

  /** `s` lists exactly the numbers in `values`, once each, ascending. */
  ghost predicate Lists(s: seq<int>, values: set<int>) { Increasing(s) && Elements(s) == values }

  /** A set has one ascending list. */
  lemma {:induction false} OneList(a: seq<int>, b: seq<int>, values: set<int>)
    requires Lists(a, values) && Lists(b, values)
    ensures a == b
  {
    OneRanking(a, b, (x: int, y: int) => x < y);
  }

  lemma {:induction false} ElementsSnoc<T>(s: seq<T>, x: T)
    ensures Elements(s + [x]) == Elements(s) + {x}
  {
  }

  /** `std::sort` then `std::unique`. */
  method UniqueSorted(s: seq<int>) returns (r: seq<int>)
    ensures Lists(r, Elements(s))
  {
    var le := (a: int, b: int) => a <= b;
    var sorted := Sort(s, le);
    assert forall i, j | 0 <= i < j < |sorted| :: le(sorted[i], sorted[j]);
    r := [];
    for i := 0 to |sorted|
      invariant Increasing(r) && Elements(r) == Elements(sorted[..i])
      invariant r == [] <==> i == 0
      invariant i > 0 ==> r[|r| - 1] == sorted[i - 1]
    {
      assert sorted[..i + 1] == sorted[..i] + [sorted[i]];
      ElementsSnoc(sorted[..i], sorted[i]);
      ElementsSnoc(r, sorted[i]);
      if r == [] || r[|r| - 1] != sorted[i] {
        if i > 0 { assert le(sorted[i - 1], sorted[i]); }
        r := r + [sorted[i]];
      }
    }
    assert sorted[..|sorted|] == sorted;
    assert forall x :: x in sorted <==> x in multiset(sorted);
    assert forall x :: x in s <==> x in multiset(s);
  }
}
