/** Occurrence of a word inside a text, and decimal numerals, shared by the
    printers and parsers of the other modules.

    Text is a `string`; each `char` stands for one octet of the C++ `std::string`. */
module Text {

  datatype Option<+T> = None | Some(value: T)

  type Byte = x: int | 0 <= x < 256

  /** How many characters of `w` the text `s` repeats from position `p` on, given that it
      repeats the first `n`. */
  function Matching(s: string, p: nat, w: string, n: nat): (m: nat)
    requires p + n <= |s| && n <= |w|
    ensures n <= m <= |w| && p + m <= |s|
    decreases |w| - n
  {
    if n < |w| && p + n < |s| && s[p + n] == w[n] then Matching(s, p, w, n + 1) else n
  }

  function Matched(s: string, p: nat, w: string): nat
    requires p <= |s|
  {
    Matching(s, p, w, 0)
  }

  /** `w` occurs in `s` at position `p`. */
  predicate At(s: string, p: nat, w: string) {
    p <= |s| && Matched(s, p, w) == |w|
  }

  lemma {:induction false} MatchingIndex(s: string, p: nat, w: string, n: nat)
    requires p + |w| <= |s| && n <= |w|
    ensures Matching(s, p, w, n) == |w| <==> forall i | n <= i < |w| :: s[p + i] == w[i]
    decreases |w| - n
  {
    if n < |w| {
      MatchingIndex(s, p, w, n + 1);
      if s[p + n] != w[n] { assert n <= n < |w|; }
    }
  }

  lemma {:induction false} AtIndex(s: string, p: nat, w: string)
    ensures At(s, p, w) <==> p + |w| <= |s| && forall i | 0 <= i < |w| :: s[p + i] == w[i]
  {
    if p + |w| <= |s| { MatchingIndex(s, p, w, 0); }
  }

  lemma {:induction false} AtSlice(s: string, p: nat, w: string)
    ensures At(s, p, w) <==> p + |w| <= |s| && s[p..p + |w|] == w
  {
    AtIndex(s, p, w);
    if p + |w| <= |s| {
      var t := s[p..p + |w|];
      assert forall i | 0 <= i < |w| :: t[i] == s[p + i];
    }
  }

  lemma {:induction false} AtConcat(s: string, p: nat, a: string, b: string)
    ensures At(s, p, a + b) <==> At(s, p, a) && At(s, p + |a|, b)
  {
    var w := a + b;
    AtIndex(s, p, w);
    AtIndex(s, p, a);
    AtIndex(s, p + |a|, b);
    if At(s, p, w) {
      forall i | 0 <= i < |a| ensures s[p + i] == a[i] { assert w[i] == a[i]; }
      forall i | 0 <= i < |b| ensures s[p + |a| + i] == b[i] { assert s[p + (|a| + i)] == w[|a| + i] == b[i]; }
    }
    if At(s, p, a) && At(s, p + |a|, b) {
      forall i | 0 <= i < |w| ensures s[p + i] == w[i] {
        if i >= |a| { assert s[p + |a| + (i - |a|)] == b[i - |a|]; } else { assert s[p + i] == a[i]; }
      }
    }
  }

  lemma {:induction false} AtHead(s: string, p: nat, w: string)
    requires At(s, p, w) && w != ""
    ensures p < |s| && s[p] == w[0]
  {
  }

  lemma {:induction false} AtDiffers(s: string, p: nat, w: string)
    requires p < |s| && w != "" && s[p] != w[0]
    ensures !At(s, p, w)
  {
  }

  // --- Decimal numerals (std::to_string) --------------------------------------

  predicate IsDigit(c: char) { '0' <= c <= '9' }

  function DigitChar(d: nat): (c: char)
    requires d < 10
    ensures IsDigit(c) && DigitOf(c) == d
  {
    (('0' as int) + d) as char
  }

  function DigitOf(c: char): (d: nat)
    requires IsDigit(c)
    ensures d < 10
  {
    c as int - '0' as int
  }

  predicate AllDigits(s: string) { forall i | 0 <= i < |s| :: IsDigit(s[i]) }

  /** The end of the run of digits at `p`. */
  function SkipDigits(s: string, p: nat): (q: nat)
    requires p <= |s|
    ensures p <= q <= |s|
    ensures q < |s| ==> !IsDigit(s[q])
    decreases |s| - p
  {
    if p < |s| && IsDigit(s[p]) then SkipDigits(s, p + 1) else p
  }

  lemma {:induction false} SkipDigitsTo(s: string, p: nat, q: nat)
    requires p <= q <= |s| && forall i | p <= i < q :: IsDigit(s[i])
    requires q < |s| ==> !IsDigit(s[q])
    ensures SkipDigits(s, p) == q
    decreases q - p
  {
    if p < q { SkipDigitsTo(s, p + 1, q); }
  }

  function NatText(n: nat): (s: string)
    ensures |s| >= 1 && IsDigit(s[0])
  {
    if n < 10 then [DigitChar(n)] else NatText(n / 10) + [DigitChar(n % 10)]
  }

  lemma {:induction false} NatTextDigits(n: nat)
    ensures AllDigits(NatText(n))
  {
    if n >= 10 { NatTextDigits(n / 10); }
  }

  /** A numeral has no zero it does not need in front. */
  lemma {:induction false} NatTextFirst(n: nat)
    ensures NatText(n)[0] == '0' <==> n == 0
    ensures n == 0 ==> NatText(n) == "0"
  {
    if n >= 10 {
      NatTextFirst(n / 10);
      assert NatText(n)[0] == NatText(n / 10)[0];
    }
  }

  function IntText(n: int): (s: string)
    ensures |s| >= 1 && (s[0] == '-' || IsDigit(s[0]))
  {
    if n < 0 then "-" + NatText(-n) else NatText(n)
  }

  /** The number a string of decimal digits denotes. */
  function NatValue(s: string): nat
    requires AllDigits(s)
  {
    if s == "" then 0 else 10 * NatValue(s[..|s| - 1]) + DigitOf(s[|s| - 1])
  }

  lemma {:induction false} NatTextValue(n: nat)
    ensures AllDigits(NatText(n)) && NatValue(NatText(n)) == n
  {
    NatTextDigits(n);
    if n >= 10 {
      NatTextValue(n / 10);
      assert NatText(n)[..|NatText(n)| - 1] == NatText(n / 10);
    }
  }

  /** A numeral filled up with zeros in front. */
  function ZeroFilled(text: string, width: nat): (r: string)
    decreases width - |text|
  {
    if |text| < width then ZeroFilled("0" + text, width) else text
  }

  lemma {:induction false} ZeroFilledEnds(text: string, width: nat)
    ensures var r := ZeroFilled(text, width);
            |r| == (if |text| < width then width else |text|) && r[|r| - |text|..] == text
    decreases width - |text|
  {
    if |text| < width {
      var r := ZeroFilled("0" + text, width);
      ZeroFilledEnds("0" + text, width);
      assert r[|r| - |text|..] == r[|r| - |text| - 1..][1..];
    }
  }

  // --- Hexadecimal digits ------------------------------------------------------

  function HexDigit(d: nat): char
    requires d < 16
  {
    if d < 10 then ('0' as int + d) as char else ('A' as int + d - 10) as char
  }

  function HexValue(c: char): int {
    if '0' <= c <= '9' then c as int - '0' as int
    else if 'a' <= c <= 'f' then c as int - 'a' as int + 10
    else if 'A' <= c <= 'F' then c as int - 'A' as int + 10
    else -1
  }

  lemma {:induction false} HexDigitValue(d: nat)
    requires d < 16
    ensures HexValue(HexDigit(d)) == d
  {
  }

  /** Runs of one character: `std::string(n, c)`. */
  function Repeat(c: char, n: nat): (s: string)
    ensures |s| == n
  {
    seq(n, _ => c)
  }

  // --- Octets of a code point (RFC 3629) ----------------------------------------------------

  /** The six bits a continuation octet carries. */
  function Six(c: char): Option<nat> {
    if 0x80 <= c as int < 0xC0 then Some(c as int - 0x80) else None
  }

  /** The code point some octets stand for, if they are its shortest form. */
  function FromUtf8(s: string): Option<nat> {
    if |s| == 1 then
      if s[0] as int < 0x80 then Some(s[0] as int) else None
    else if |s| == 2 then
      if 0xC0 <= s[0] as int < 0xE0 && Six(s[1]).Some? then
        AtLeast((s[0] as int - 0xC0) * 0x40 + Six(s[1]).value, 0x80)
      else None
    else if |s| == 3 then
      if 0xE0 <= s[0] as int < 0xF0 && Six(s[1]).Some? && Six(s[2]).Some? then
        AtLeast((s[0] as int - 0xE0) * 0x1000 + Six(s[1]).value * 0x40 + Six(s[2]).value, 0x800)
      else None
    else if |s| == 4 then
      if 0xF0 <= s[0] as int < 0xF8 && Six(s[1]).Some? && Six(s[2]).Some? && Six(s[3]).Some? then
        AtLeast((s[0] as int - 0xF0) * 0x4_0000 + Six(s[1]).value * 0x1000 + Six(s[2]).value * 0x40
                + Six(s[3]).value, 0x1_0000)
      else None
    else None
  }

  function AtLeast(n: nat, least: nat): Option<nat> { if n >= least then Some(n) else None }
}
