/** Sequences cut into consecutive parts, and slices. */
module Splits {

  function Flatten<T>(parts: seq<seq<T>>): seq<T> {
    if parts == [] then [] else Flatten(parts[..|parts| - 1]) + parts[|parts| - 1]
  }

  /** How many elements the first `k` parts hold. */
  function Before<T>(parts: seq<seq<T>>, k: nat): nat
    requires k <= |parts|
  {
    if k == 0 then 0 else Before(parts, k - 1) + |parts[k - 1]|
  }

  lemma {:induction false} FlattenSnoc<T>(parts: seq<seq<T>>, part: seq<T>)
    ensures Flatten(parts + [part]) == Flatten(parts) + part
  {
    assert (parts + [part])[..|parts|] == parts;
  }

  /** One more element on the last part. */
  lemma {:induction false} FlattenGrow<T>(parts: seq<seq<T>>, x: T)
    requires parts != []
    ensures var n := |parts| - 1; Flatten(parts[n := parts[n] + [x]]) == Flatten(parts) + [x]
  {
    var n := |parts| - 1;
    FlattenSnoc(parts[..n], parts[n] + [x]);
    assert parts[n := parts[n] + [x]] == parts[..n] + [parts[n] + [x]];
    assert Flatten(parts[..n]) + (parts[n] + [x]) == Flatten(parts[..n]) + parts[n] + [x];
  }

  /** A part is the slice of the whole between its bounds. */
  lemma {:induction false} PartInFlatten<T>(parts: seq<seq<T>>, k: nat)
    requires k < |parts|
    ensures Before(parts, k + 1) <= |Flatten(parts)|
    ensures Flatten(parts)[Before(parts, k)..Before(parts, k + 1)] == parts[k]
  {
    var n := |parts| - 1;
    var less, last := Flatten(parts[..n]), parts[n];
    FlattenLength(parts[..n]);
    BeforePrefix(parts, n, n);
    if k < n {
      BeforePrefix(parts, n, k);
      BeforePrefix(parts, n, k + 1);
      PartInFlatten(parts[..n], k);
      assert (less + last)[Before(parts, k)..Before(parts, k + 1)] == less[Before(parts, k)..Before(parts, k + 1)];
    } else {
      assert (less + last)[|less|..|less| + |last|] == last;
    }
  }

  lemma {:induction false} BeforePrefix<T>(parts: seq<seq<T>>, n: nat, k: nat)
    requires k <= n <= |parts|
    ensures Before(parts[..n], k) == Before(parts, k)
  {
    if k > 0 { BeforePrefix(parts, n, k - 1); }
  }

  lemma {:induction false} FlattenLength<T>(parts: seq<seq<T>>)
    ensures |Flatten(parts)| == Before(parts, |parts|)
  {
    if parts != [] {
      var n := |parts| - 1;
      FlattenLength(parts[..n]);
      BeforePrefix(parts, n, n);
    }
  }

  lemma {:induction false} BeforeGrows<T>(parts: seq<seq<T>>, a: nat, b: nat)
    requires a <= b <= |parts|
    ensures Before(parts, a) <= Before(parts, b)
  {
    if a < b { BeforeGrows(parts, a, b - 1); }
  }

  lemma {:induction false} LastBounds<T>(parts: seq<seq<T>>)
    requires parts != [] && parts[|parts| - 1] != []
    ensures Before(parts, |parts| - 1) < |Flatten(parts)| == Before(parts, |parts|)
  {
    FlattenLength(parts);
  }

  /** One more element, on the last part or as a new one, keeps the bounds around `i`. */
  lemma {:induction false} BoundsGrow<T>(fewer: seq<seq<T>>, parts: seq<seq<T>>, x: T, k: nat, i: nat)
    requires k < |fewer| && Before(fewer, k) <= i < Before(fewer, k + 1)
    requires parts == fewer + [[x]] || parts == fewer[|fewer| - 1 := fewer[|fewer| - 1] + [x]]
    ensures Before(parts, k) <= i < Before(parts, k + 1)
  {
    SameBefore(fewer, parts, k);
  }

  /** Lists of parts that agree below the last of the first list. */
  lemma {:induction false} SameBefore<T>(a: seq<seq<T>>, b: seq<seq<T>>, k: nat)
    requires k <= |a| && k <= |b| && forall i | 0 <= i < k :: a[i] == b[i]
    ensures Before(a, k) == Before(b, k)
  {
    if k > 0 { SameBefore(a, b, k - 1); }
  }

  lemma {:induction false} SliceOfSlice<T>(s: seq<T>, p: nat, q: nat, a: nat, b: nat)
    requires p <= q <= |s| && a <= b <= q - p
    ensures s[p..q][a..b] == s[p + a..p + b]
  {
    var inner := s[p..q];
    forall i | 0 <= i < b - a ensures inner[a..b][i] == s[p + a..p + b][i] {
      assert inner[a + i] == s[p + (a + i)];
    }
  }

  function Reversed<T>(s: seq<T>): (r: seq<T>)
    ensures |r| == |s|
  {
    if s == [] then [] else [s[|s| - 1]] + Reversed(s[..|s| - 1])
  }

  lemma {:induction false} ReversedConcat<T>(a: seq<T>, b: seq<T>)
    ensures Reversed(a + b) == Reversed(b) + Reversed(a)
  {
    if b == [] {
      assert a + b == a;
    } else {
      var n := |b| - 1;
      var last := [b[n]];
      ReversedConcat(a, b[..n]);
      assert (a + b)[..|a + b| - 1] == a + b[..n];
      assert last + (Reversed(b[..n]) + Reversed(a)) == last + Reversed(b[..n]) + Reversed(a);
    }
  }

  lemma {:induction false} ReversedSame<T>(s: seq<T>)
    ensures multiset(Reversed(s)) == multiset(s)
  {
    if s != [] {
      var n := |s| - 1;
      ReversedSame(s[..n]);
      assert s == s[..n] + [s[n]];
    }
  }
}
