/** Division by hand, and bit fields of unsigned numbers. */
module Arithmetic {
  lemma {:induction false} Multiple(b: int, x: int)
    requires b > 0
    ensures x >= 1 ==> b * x >= b
    ensures x <= -1 ==> b * x <= -b
  {
  }

  lemma {:induction false} Quotient(a: int, b: int, k: int, r: int)
    requires b > 0 && a == b * k + r && 0 <= r < b
    ensures a / b == k && a % b == r
  {
    var q := a / b;
    assert b * (k - q) == a % b - r;
    Multiple(b, k - q);
  }

  function Power2(n: nat): (r: nat)
    ensures r > 0
  {
    if n == 0 then 1 else 2 * Power2(n - 1)
  }

  predicate Bit(value: nat, n: nat) { value / Power2(n) % 2 == 1 }

  lemma {:induction false} BitOf(value: nat, n: nat, high: nat, bit: nat, low: nat)
    requires bit < 2 && low < Power2(n) && value == Power2(n) * (2 * high + bit) + low
    ensures Bit(value, n) == (bit == 1)
  {
    Quotient(value, Power2(n), 2 * high + bit, low);
  }

  /** Bits `low` to `low + width - 1`. */
  function Field(value: nat, low: nat, width: nat): nat { value / Power2(low) % Power2(width) }

  // --- Numbers put together from bit fields --------------------------------------------------

  datatype Part = Part(width: nat, value: nat)

  ghost predicate Fits(parts: seq<Part>) { forall i | 0 <= i < |parts| :: parts[i].value < Power2(parts[i].width) }

  /** The parts side by side, the first in the low bits. */
  function Pack(parts: seq<Part>): nat {
    if parts == [] then 0 else parts[0].value + Power2(parts[0].width) * Pack(parts[1..])
  }

  /** The bit where part `k` starts. */
  function Offset(parts: seq<Part>, k: nat): nat
    requires k <= |parts|
  {
    if k == 0 then 0 else Offset(parts, k - 1) + parts[k - 1].width
  }

  lemma {:induction false} OffsetRest(parts: seq<Part>, k: nat)
    requires 0 < k <= |parts|
    ensures Offset(parts, k) == parts[0].width + Offset(parts[1..], k - 1)
  {
    if k > 1 { OffsetRest(parts, k - 1); }
  }

  lemma {:induction false} PowerSum(a: nat, b: nat)
    ensures Power2(a + b) == Power2(a) * Power2(b)
  {
    if a > 0 { PowerSum(a - 1, b); }
  }

  lemma {:induction false} DivTwice(n: nat, a: nat, b: nat)
    requires a > 0 && b > 0
    ensures a * b > 0 && n / (a * b) == n / a / b
  {
    var q, r := n / a / b, n / a % b;
    assert n == a * (b * q + r) + n % a;
    assert a * (b * q + r) == a * b * q + a * r;
    Within(a, b, r, n % a);
    Quotient(n, a * b, q, a * r + n % a);
  }

  lemma {:induction false} Within(a: nat, b: nat, r: nat, s: nat)
    requires r < b && s < a
    ensures a * r + s < a * b
  {
    assert a * r + a <= a * b by { Larger(a, r + 1, b); }
  }

  lemma {:induction false} Larger(a: nat, x: nat, y: nat)
    requires x <= y
    ensures a * x <= a * y
  {
  }

  /** A bit field read where a part was put gives the part back. */
  lemma {:induction false} FieldOfPack(parts: seq<Part>, k: nat)
    requires Fits(parts) && k < |parts|
    ensures Field(Pack(parts), Offset(parts, k), parts[k].width) == parts[k].value
    decreases k
  {
    var w, v, more := parts[0].width, parts[0].value, parts[1..];
    Quotient(Pack(parts), Power2(w), Pack(more), v);
    if k == 0 {
      assert Power2(0) == 1 && Pack(parts) / 1 == Pack(parts);
    } else {
      FieldOfPack(more, k - 1);
      OffsetRest(parts, k);
      PowerSum(w, Offset(more, k - 1));
      DivTwice(Pack(parts), Power2(w), Power2(Offset(more, k - 1)));
    }
  }
}
