/** Register values a user pastes: `parse_u64` and `to_hex`. */
module Integers {
  import opened Arithmetic
  import opened Splits
  import opened Text

  const U64_LIMIT: nat := 0x1_0000_0000_0000_0000

  predicate IsBlank(c: char) {
    c == ' ' || c == '\t' || c == '\n' || c == '\U{000B}' || c == '\U{000C}' || c == '\r'
  }

  predicate Ignored(c: char) { IsBlank(c) || c == '_' || c == '\'' }

  lemma {:induction false} IgnoredCodes(c: char)
    ensures Ignored(c) <==> c as int in {9, 10, 11, 12, 13, 32, 39, 95}
  {
  }

  function Compact(text: string): string {
    if text == "" then "" else
    var n := |text| - 1;
    Compact(text[..n]) + if Ignored(text[n]) then "" else [text[n]]
  }

  // --- What a numeral means -----------------------------------------------------------

  predicate ValidDigits(digits: string, radix: nat) {
    forall i | 0 <= i < |digits| :: 0 <= HexValue(digits[i]) < radix
  }

  /** The number a numeral denotes. */
  function Numeral(digits: string, radix: nat): nat
    requires ValidDigits(digits, radix)
  {
    if digits == "" then 0 else
    var n := |digits| - 1;
    Numeral(digits[..n], radix) * radix + HexValue(digits[n])
  }

  // --- What the loop computes ---------------------------------------------------------------

  datatype Problem = Empty | BadDigit(c: char, radix: nat) | TooLarge

  datatype Result<T> = Ok(value: T) | Error(problem: Problem)

  /** One digit; `value` stays below 2^64 because the guard divides instead of multiplying. */
  function TakeDigit(value: nat, c: char, radix: nat): (r: Result<nat>)
    requires radix > 0
  {
    var digit := HexValue(c);
    if digit < 0 || digit >= radix then Error(BadDigit(c, radix))
    else if value > (U64_LIMIT - 1 - digit) / radix then Error(TooLarge)
    else Ok(value * radix + digit)
  }

  function TakeDigits(digits: string, radix: nat): (r: Result<nat>)
    requires radix > 0
  {
    if digits == "" then Ok(0) else
    var n := |digits| - 1;
    var sum := TakeDigits(digits[..n], radix);
    if sum.Error? then sum else TakeDigit(sum.value, digits[n], radix)
  }

  datatype Integer = Integer(value: nat, radix: nat)

  /** The radix and where the digits start. */
  function Radix(compact: string): (r: (nat, nat))
    ensures r.0 in {2, 10, 16} && (r.1 == 0 || (r.1 == 2 < |compact|))
  {
    if |compact| > 2 && compact[0] == '0' && (compact[1] == 'x' || compact[1] == 'X') then (16, 2)
    else if |compact| > 2 && compact[0] == '0' && (compact[1] == 'b' || compact[1] == 'B') then (2, 2)
    else if forall c <- compact :: '0' <= c <= '9' then (10, 0)
    else (16, 0)
  }

  function ParseU64(text: string): Result<Integer> {
    var compact := Compact(text);
    if compact == "" then Error(Empty) else
    var (radix, start) := Radix(compact);
    match TakeDigits(compact[start..], radix)
    case Ok(value) => Ok(Integer(value, radix))
    case Error(problem) => Error(problem)
  }

  // --- The guard is exact ----------------------------------------------------------------------

  lemma {:induction false} GuardExact(value: nat, digit: nat, radix: nat)
    requires radix > 0 && digit < U64_LIMIT
    ensures value > (U64_LIMIT - 1 - digit) / radix <==> value * radix + digit >= U64_LIMIT
  {
    var room := (U64_LIMIT - 1 - digit) / radix;
    var over := (U64_LIMIT - 1 - digit) % radix;
    assert U64_LIMIT - 1 - digit == radix * room + over;
    if value > room {
      Larger(radix, room + 1, value);
    } else {
      Larger(radix, value, room);
    }
  }

  lemma {:induction false} NumeralGrows(digits: string, radix: nat)
    requires digits != "" && ValidDigits(digits, radix) && radix > 0
    ensures Numeral(digits[..|digits| - 1], radix) <= Numeral(digits, radix)
  {
    Larger(Numeral(digits[..|digits| - 1], radix), 1, radix);
  }

  /** A numeral with a bad digit is refused; one without is accepted exactly when its value
      is below 2^64, with that value, and refused as too large otherwise. */
  lemma {:induction false} TakesWhatFits(digits: string, radix: nat)
    requires 0 < radix <= 16
    ensures if !ValidDigits(digits, radix) then TakeDigits(digits, radix).Error?
            else TakeDigits(digits, radix)
                 == if Numeral(digits, radix) < U64_LIMIT then Ok(Numeral(digits, radix)) else Error(TooLarge)
  {
    if digits != "" {
      var n := |digits| - 1;
      var so := digits[..n];
      TakesWhatFits(so, radix);
      assert forall i | 0 <= i < n :: so[i] == digits[i];
      if ValidDigits(so, radix) && 0 <= HexValue(digits[n]) < radix {
        NumeralGrows(digits, radix);
        GuardExact(Numeral(so, radix), HexValue(digits[n]), radix);
      }
    }
  }

  /** The text is accepted exactly when its digits are valid in the radix its prefix or its
      characters choose and denote a number below 2^64. */
  lemma {:induction false} ParsesWhatFits(text: string)
    ensures var compact := Compact(text); var (radix, start) := Radix(compact); var digits := compact[start..];
            ParseU64(text).Ok? <==> compact != "" && ValidDigits(digits, radix) && Numeral(digits, radix) < U64_LIMIT
    ensures var compact := Compact(text); var (radix, start) := Radix(compact); var digits := compact[start..];
            ParseU64(text).Ok? ==> ParseU64(text).value == Integer(Numeral(digits, radix), radix)
  {
    var compact := Compact(text);
    var (radix, start) := Radix(compact);
    TakesWhatFits(compact[start..], radix);
  }

  // --- Hexadecimal text ---------------------------------------------------------------------------

  function HexDigits(value: nat): (s: string)
    ensures |s| >= 1
  {
    if value < 16 then [HexDigit(value)] else HexDigits(value / 16) + [HexDigit(value % 16)]
  }

  /** "0x" and at least `digits` upper-case digits. */
  function ToHex(value: nat, digits: int): string {
    "0x" + ZeroFilled(HexDigits(value), if digits < 0 then 0 else digits)
  }

  lemma {:induction false} HexDigitsRead(value: nat)
    ensures ValidDigits(HexDigits(value), 16) && Numeral(HexDigits(value), 16) == value
  {
    if value < 16 {
      HexDigitValue(value);
      assert [HexDigit(value)][..0] == "";
      assert Numeral([HexDigit(value)], 16) == Numeral("", 16) * 16 + value;
    } else {
      var s := HexDigits(value);
      HexDigitsRead(value / 16);
      HexDigitValue(value % 16);
      assert s[..|s| - 1] == HexDigits(value / 16);
    }
  }

  /** The numeral has no more digits than it needs, unless it is filled up with zeros. */
  lemma {:induction false} HexDigitsFew(value: nat)
    ensures HexDigits(value)[0] == '0' ==> value == 0 && HexDigits(value) == "0"
    ensures forall c <- HexDigits(value) :: '0' <= c <= '9' || 'A' <= c <= 'F'
  {
    if value >= 16 {
      HexDigitsFew(value / 16);
      assert HexDigits(value)[0] == HexDigits(value / 16)[0];
    }
  }

  lemma {:induction false} HexShape(value: nat, digits: int)
    ensures var text := ToHex(value, digits); var few := HexDigits(value);
            && text[..2] == "0x" && |text| == 2 + (if |few| < digits then digits else |few|)
            && text[|text| - |few|..] == few
  {
    var few := HexDigits(value);
    ZeroFilledEnds(few, if digits < 0 then 0 else digits);
    var filled := ZeroFilled(few, if digits < 0 then 0 else digits);
    assert ("0x" + filled)[2 + |filled| - |few|..] == filled[|filled| - |few|..];
  }

  lemma {:induction false} ZerosRead(digits: string, width: nat)
    requires ValidDigits(digits, 16)
    ensures ValidDigits(ZeroFilled(digits, width), 16)
    ensures Numeral(ZeroFilled(digits, width), 16) == Numeral(digits, 16)
    decreases width - |digits|
  {
    if |digits| < width {
      HexZeroInFront(digits);
      ZerosRead("0" + digits, width);
    }
  }

  lemma {:induction false} HexZeroInFront(digits: string)
    requires ValidDigits(digits, 16)
    ensures ValidDigits("0" + digits, 16) && Numeral("0" + digits, 16) == Numeral(digits, 16)
  {
    var zero := "0" + digits;
    if digits == "" {
      assert zero[..0] == "";
      assert Numeral(zero, 16) == Numeral("", 16) * 16 + HexValue('0');
    } else {
      HexZeroInFront(digits[..|digits| - 1]);
      assert zero[..|zero| - 1] == "0" + digits[..|digits| - 1];
    }
  }

  lemma {:induction false} CompactKeeps(text: string)
    requires forall c <- text :: !Ignored(c)
    ensures Compact(text) == text
  {
    if text != "" { CompactKeeps(text[..|text| - 1]); }
  }

  lemma {:induction false} NothingIgnored(digits: string)
    requires ValidDigits(digits, 16)
    ensures forall c <- digits :: !Ignored(c)
  {
    forall c | c in digits ensures !Ignored(c) {
      var i :| 0 <= i < |digits| && digits[i] == c;
      assert 0 <= HexValue(digits[i]);
    }
  }

  lemma {:induction false} PrefixedReads(digits: string)
    requires digits != "" && ValidDigits(digits, 16)
    ensures Compact("0x" + digits) == "0x" + digits && Radix("0x" + digits) == (16, 2) && ("0x" + digits)[2..] == digits
  {
    var text := "0x" + digits;
    NothingIgnored(digits);
    forall c | c in text ensures !Ignored(c) {
      assert c == '0' || c == 'x' || c in digits;
    }
    CompactKeeps(text);
  }

  /** Every 64-bit value reads back from its hexadecimal text, at any padding. */
  lemma {:induction false} HexReadsBack(value: nat, digits: int)
    requires value < U64_LIMIT
    ensures ParseU64(ToHex(value, digits)) == Ok(Integer(value, 16))
  {
    var width := if digits < 0 then 0 else digits;
    var filled := ZeroFilled(HexDigits(value), width);
    HexDigitsRead(value);
    ZerosRead(HexDigits(value), width);
    ZeroFilledEnds(HexDigits(value), width);
    PrefixedReads(filled);
    ParsesWhatFits("0x" + filled);
  }

  // --- The loops ------------------------------------------------------------------------------------

  method DoCompact(text: string) returns (compact: string)
    ensures compact == Compact(text)
  {
    compact := "";
    for i := 0 to |text|
      invariant compact == Compact(text[..i])
    {
      assert text[..i + 1][..i] == text[..i];
      if !Ignored(text[i]) { compact := compact + [text[i]]; }
    }
    assert text[..|text|] == text;
  }

  method DoDigits(digits: string, radix: nat) returns (r: Result<nat>)
    requires radix > 0
    ensures r == TakeDigits(digits, radix)
  {
    var value: nat := 0;
    for i := 0 to |digits|
      invariant TakeDigits(digits[..i], radix) == Ok(value)
    {
      assert digits[..i + 1][..i] == digits[..i];
      FailsEarly(digits, i + 1, radix);
      var digit := HexValue(digits[i]);
      if digit < 0 || digit >= radix { return Error(BadDigit(digits[i], radix)); }
      if value > (U64_LIMIT - 1 - digit) / radix { return Error(TooLarge); }
      value := value * radix + digit;
    }
    assert digits[..|digits|] == digits;
    return Ok(value);
  }

  method Parse(text: string) returns (r: Result<Integer>)
    ensures r == ParseU64(text)
  {
    var compact := DoCompact(text);
    if compact == "" { return Error(Empty); }
    var (radix, start) := Radix(compact);
    var value := DoDigits(compact[start..], radix);
    match value {
      case Ok(number) => return Ok(Integer(number, radix));
      case Error(problem) => return Error(problem);
    }
  }

  lemma {:induction false} FailsEarly(digits: string, k: nat, radix: nat)
    requires k <= |digits| && radix > 0
    ensures TakeDigits(digits[..k], radix).Error? ==> TakeDigits(digits, radix) == TakeDigits(digits[..k], radix)
  {
    var n := |digits| - 1;
    if k == |digits| {
      assert digits[..k] == digits;
    } else {
      assert digits[..n][..k] == digits[..k];
      FailsEarly(digits[..n], k, radix);
    }
  }

  /** Digits from the low end, then reversed. */
  method FormatHex(value: nat, digits: int) returns (text: string)
    ensures text == ToHex(value, digits)
  {
    var reversed := [HexDigit(value % 16)];
    var rest: nat := value / 16;
    LowDigit(value, "");
    assert Reversed([HexDigit(value % 16)]) == [HexDigit(value % 16)] + Reversed("");
    while rest != 0
      invariant HexDigits(value) == HighDigits(rest) + Reversed(reversed)
      decreases rest
    {
      assert (reversed + [HexDigit(rest % 16)])[..|reversed|] == reversed;
      LowDigit(rest, Reversed(reversed));
      reversed := reversed + [HexDigit(rest % 16)];
      rest := rest / 16;
    }
    assert Reversed(reversed) == HexDigits(value);
    while |reversed| < digits
      invariant ZeroFilled(Reversed(reversed), if digits < 0 then 0 else digits)
             == ZeroFilled(HexDigits(value), if digits < 0 then 0 else digits)
    {
      assert (reversed + "0")[..|reversed|] == reversed;
      assert Reversed(reversed + "0") == "0" + Reversed(reversed);
      reversed := reversed + "0";
    }
    return "0x" + Reversed(reversed);
  }

  /** The digits still to come; none for zero. */
  function HighDigits(rest: nat): string { if rest == 0 then "" else HexDigits(rest) }

  lemma {:induction false} LowDigit(rest: nat, after: string)
    ensures HexDigits(rest) + after == HighDigits(rest / 16) + ([HexDigit(rest % 16)] + after)
  {
    assert HexDigits(rest) == HighDigits(rest / 16) + [HexDigit(rest % 16)];
  }
}
