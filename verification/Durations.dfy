/** Spans of time a user types: `parse_duration`, as it is written. */
module Durations {
  import Arithmetic
  import opened Blobs
  import opened Integers
  import opened Text

  const MILLISECOND_LIMIT: nat := 0x8000_0000_0000_0000

  /** The largest value of a signed 64-bit integer over ten, less nine. */
  const GUARD: nat := (MILLISECOND_LIMIT - 1) / 10 - 9

  datatype Problem = Nothing | NoNumber | UnknownUnit(unit: string) | NotADigit(c: char) | TooMuch

  /** The milliseconds are those of the product before it is stored in 64 bits. */
  datatype Duration = Parsed(milliseconds: nat) | Refused(problem: Problem)

  function Lower(c: char): char { if 'A' <= c <= 'Z' then (c as int + 32) as char else c }

  /** Digits and unit; days when there is no unit. */
  function SplitUnit(compact: string): (string, string)
    requires compact != ""
  {
    var n := |compact|;
    if n >= 2 && Lower(compact[n - 2]) == 'm' && Lower(compact[n - 1]) == 's' then (compact[..n - 2], "ms")
    else if !IsDigit(compact[n - 1]) then (compact[..n - 1], [Lower(compact[n - 1])])
    else (compact, "d")
  }

  /** Milliseconds in a unit. */
  function Multiplier(unit: string): (m: Option<nat>)
    ensures m.Some? ==> m.value > 0
  {
    if unit == "ms" then Some(1)
    else if unit == "s" then Some(1000)
    else if unit == "m" then Some(60 * 1000)
    else if unit == "h" then Some(3600 * 1000)
    else if unit == "d" then Some(86400 * 1000)
    else if unit == "w" then Some(7 * 86400 * 1000)
    else if unit == "y" then Some(365 * 86400 * 1000)
    else None
  }

  datatype Taken = Value(value: nat) | Stopped(problem: Problem)

  /** One more digit, unless what is there already is too much for the unit. */
  function TakeDecimal(value: nat, c: char, multiplier: nat): Taken
    requires multiplier > 0
  {
    if !IsDigit(c) then Stopped(NotADigit(c))
    else if value > GUARD / multiplier then Stopped(TooMuch)
    else Value(value * 10 + DigitOf(c))
  }

  function TakeDecimals(digits: string, multiplier: nat): Taken
    requires multiplier > 0
  {
    if digits == "" then Value(0) else
    var before := TakeDecimals(digits[..|digits| - 1], multiplier);
    if before.Stopped? then before else TakeDecimal(before.value, digits[|digits| - 1], multiplier)
  }

  function ParseDuration(text: string): Duration {
    var compact := NoBlanks(text);
    if compact == "" then Refused(Nothing) else
    var (digits, unit) := SplitUnit(compact);
    if digits == "" then Refused(NoNumber) else
    var multiplier := Multiplier(unit);
    if multiplier.None? then Refused(UnknownUnit(unit)) else
    match TakeDecimals(digits, multiplier.value)
    case Value(value) => Parsed(value * multiplier.value)
    case Stopped(problem) => Refused(problem)
  }

  // --- What a duration means ----------------------------------------------------------------------

  datatype Unit = Milliseconds | Seconds | Minutes | Hours | Days | Weeks | Years

  /** How long a unit is; a year has 365 days. */
  function Length(u: Unit): (r: nat)
    ensures r > 0
  {
    match u
    case Milliseconds => 1
    case Seconds => 1_000
    case Minutes => 60_000
    case Hours => 3_600_000
    case Days => 86_400_000
    case Weeks => 604_800_000
    case Years => 31_536_000_000
  }

  /** How a unit may be written: its letter or letters in either case, and days not at all. */
  ghost predicate Names(name: string, u: Unit) {
    match u
    case Milliseconds => |name| == 2 && name[0] in {'m', 'M'} && name[1] in {'s', 'S'}
    case Seconds => |name| == 1 && name[0] in {'s', 'S'}
    case Minutes => |name| == 1 && name[0] in {'m', 'M'}
    case Hours => |name| == 1 && name[0] in {'h', 'H'}
    case Days => name == "" || (|name| == 1 && name[0] in {'d', 'D'})
    case Weeks => |name| == 1 && name[0] in {'w', 'W'}
    case Years => |name| == 1 && name[0] in {'y', 'Y'}
  }

  lemma {:induction false} UnitSplits(digits: string, name: string, u: Unit)
    requires digits != "" && AllDigits(digits) && Names(name, u)
    ensures var (d, unit) := SplitUnit(digits + name); d == digits && Multiplier(unit) == Some(Length(u))
  {
    var compact := digits + name;
    var n := |compact|;
    assert IsDigit(digits[|digits| - 1]);
    if |name| > 0 { assert compact[n - 1] == name[|name| - 1] && compact[..n - |name|] == digits; }
    if |name| < 2 && n >= 2 { assert IsDigit(compact[n - 2]) || name == ""; }
  }

  /** The unit with this lower-case name. */
  function UnitOf(unit: string): Unit {
    if unit == "ms" then Milliseconds else if unit == "s" then Seconds else if unit == "m" then Minutes
    else if unit == "h" then Hours else if unit == "d" then Days else if unit == "w" then Weeks else Years
  }

  lemma {:induction false} UnitLength(unit: string)
    requires Multiplier(unit).Some?
    ensures Multiplier(unit) == Some(Length(UnitOf(unit)))
  {
  }

  lemma {:induction false} SplitIs(compact: string) returns (name: string)
    requires compact != ""
    ensures var (digits, unit) := SplitUnit(compact);
            && compact == digits + name && |name| <= 2 && (name == "" ==> unit == "d")
            && (|name| == 1 ==> unit == [Lower(name[0])])
            && (|name| == 2 ==> unit == "ms" && Lower(name[0]) == 'm' && Lower(name[1]) == 's')
  {
    name := compact[|SplitUnit(compact).0|..];
  }

  lemma {:induction false} LetterNames(name: string, unit: string)
    requires |name| == 1 && unit == [Lower(name[0])] && Multiplier(unit).Some?
    ensures Names(name, UnitOf(unit))
  {
    assert |unit| == 1 && unit[0] in {'s', 'm', 'h', 'd', 'w', 'y'};
  }

  /** Every unit the parser knows is written in one of these ways. */
  lemma {:induction false} UnitKnown(compact: string) returns (name: string, u: Unit)
    requires compact != "" && Multiplier(SplitUnit(compact).1).Some?
    ensures compact == SplitUnit(compact).0 + name && Names(name, u)
            && Multiplier(SplitUnit(compact).1) == Some(Length(u))
  {
    var unit := SplitUnit(compact).1;
    name := SplitIs(compact);
    u := UnitOf(unit);
    UnitLength(unit);
    if |name| == 1 { LetterNames(name, unit); }
  }

  // --- Which numbers are taken --------------------------------------------------------------------

  /** Digits are taken to their value unless all but the last of them are too much for the unit. */
  lemma {:induction false} TakesDigits(digits: string, m: nat)
    requires m > 0 && AllDigits(digits)
    ensures TakeDecimals(digits, m)
         == if digits == "" || NatValue(digits) / 10 <= GUARD / m then Value(NatValue(digits)) else Stopped(TooMuch)
  {
    if digits != "" {
      var n := |digits| - 1;
      TakesDigits(digits[..n], m);
      LastDigit(NatValue(digits[..n]), DigitOf(digits[n]));
    }
  }

  lemma {:induction false} LastDigit(value: nat, digit: nat)
    requires digit < 10
    ensures (value * 10 + digit) / 10 == value
  {
  }

  lemma {:induction false} TakenAreDigits(digits: string, m: nat)
    requires m > 0 && TakeDecimals(digits, m).Value?
    ensures AllDigits(digits)
  {
    if digits != "" { TakenAreDigits(digits[..|digits| - 1], m); }
  }

  /** A number and a unit, with white space anywhere, is the product of the two unless it is too
      large for the guard. */
  lemma {:induction false} DurationReads(text: string, digits: string, name: string, u: Unit)
    requires NoBlanks(text) == digits + name && digits != "" && AllDigits(digits) && Names(name, u)
    ensures ParseDuration(text)
         == if NatValue(digits) / 10 <= GUARD / Length(u) then Parsed(NatValue(digits) * Length(u))
             else Refused(TooMuch)
  {
    UnitSplits(digits, name, u);
    TakesDigits(digits, Length(u));
  }

  /** Nothing else is a duration. */
  lemma {:induction false} ParsedIsDuration(text: string) returns (digits: string, name: string, u: Unit)
    requires ParseDuration(text).Parsed?
    ensures NoBlanks(text) == digits + name && digits != "" && AllDigits(digits) && Names(name, u)
    ensures ParseDuration(text) == Parsed(NatValue(digits) * Length(u)) && NatValue(digits) / 10 <= GUARD / Length(u)
  {
    var compact := NoBlanks(text);
    digits := SplitUnit(compact).0;
    name, u := UnitKnown(compact);
    TakenAreDigits(digits, Length(u));
    DurationReads(text, digits, name, u);
  }

  // --- Whether the milliseconds fit ---------------------------------------------------------------

  /** What the guard lets through is stored as it is exactly when it is a number of milliseconds
      already or no more units than 64 bits can hold; it never exceeds them by as much as ten units,
      and the number itself always fits. */
  lemma {:induction false} FitsExactly(value: nat, u: Unit)
    requires value / 10 <= GUARD / Length(u)
    ensures value * Length(u) < MILLISECOND_LIMIT <==> u.Milliseconds? || value <= 0x7FFF_FFFF_FFFF_FFFF / Length(u)
    ensures value * Length(u) < MILLISECOND_LIMIT + 9 * Length(u)
    ensures value < MILLISECOND_LIMIT
  {
    Arithmetic.Larger(value / 10, 1, Length(u));
    Rounds(MILLISECOND_LIMIT - 1, value, Length(u));
    Rounds(GUARD, value / 10, Length(u));
    Spread(value / 10, value % 10, Length(u));
  }

  lemma {:induction false} Rounds(limit: nat, value: nat, m: nat)
    requires m > 0
    ensures value <= limit / m <==> value * m <= limit
  {
    var q := limit / m;
    assert limit == m * q + limit % m;
    if value <= q { Arithmetic.Larger(m, value, q); } else { Arithmetic.Larger(m, q + 1, value); }
  }

  lemma {:induction false} Spread(tens: nat, ones: nat, m: nat)
    requires ones < 10
    ensures (10 * tens + ones) * m == 10 * (tens * m) + ones * m <= 10 * (tens * m) + 9 * m
  {
    Arithmetic.Larger(m, ones, 9);
  }

  lemma {:induction false} PlainText(text: string)
    requires forall c <- text :: !IsBlank(c)
    ensures NoBlanks(text) == text
  {
    if text != "" { PlainText(text[..|text| - 1]); }
  }

  lemma {:induction false} NumberReads(n: nat, name: string, u: Unit)
    requires Names(name, u) && forall c <- name :: !IsBlank(c)
    ensures ParseDuration(NatText(n) + name)
         == if n / 10 <= GUARD / Length(u) then Parsed(n * Length(u)) else Refused(TooMuch)
  {
    var digits := NatText(n);
    NatTextValue(n);
    forall c | c in digits + name ensures !IsBlank(c) {
      if c in digits {
        var i :| 0 <= i < |digits| && digits[i] == c;
        assert IsDigit(digits[i]);
      }
    }
    PlainText(digits + name);
    DurationReads(digits + name, digits, name, u);
  }

  /** 292471209 years are let through, and are more milliseconds than 64 bits can hold. */
  lemma {:induction false} YearsOverflow(n: nat)
    requires n == 292471209
    ensures var duration := ParseDuration(NatText(n) + "y");
            duration.Parsed? && duration.milliseconds > 0x7FFF_FFFF_FFFF_FFFF
  {
    NumberReads(n, "y", Years);
  }

  // --- The loops ----------------------------------------------------------------------------------

  method DoNoBlanks(text: string) returns (compact: string)
    ensures compact == NoBlanks(text)
  {
    compact := "";
    for i := 0 to |text|
      invariant compact == NoBlanks(text[..i])
    {
      assert text[..i + 1][..i] == text[..i];
      if !IsBlank(text[i]) { compact := compact + [text[i]]; }
    }
    assert text[..|text|] == text;
  }

  lemma {:induction false} StopsEarly(digits: string, k: nat, m: nat)
    requires k <= |digits| && m > 0 && TakeDecimals(digits[..k], m).Stopped?
    ensures TakeDecimals(digits, m) == TakeDecimals(digits[..k], m)
  {
    if k == |digits| {
      assert digits[..k] == digits;
    } else {
      assert digits[..|digits| - 1][..k] == digits[..k];
      StopsEarly(digits[..|digits| - 1], k, m);
    }
  }

  method DoDecimals(digits: string, multiplier: nat) returns (r: Taken)
    requires multiplier > 0
    ensures r == TakeDecimals(digits, multiplier)
  {
    var value: nat := 0;
    for i := 0 to |digits|
      invariant TakeDecimals(digits[..i], multiplier) == Value(value)
    {
      assert digits[..i + 1][..i] == digits[..i];
      if digits[i] < '0' || digits[i] > '9' {
        StopsEarly(digits, i + 1, multiplier);
        return Stopped(NotADigit(digits[i]));
      }
      if value > (0x7FFF_FFFF_FFFF_FFFF / 10 - 9) / multiplier {
        StopsEarly(digits, i + 1, multiplier);
        return Stopped(TooMuch);
      }
      value := value * 10 + DigitOf(digits[i]);
    }
    assert digits[..|digits|] == digits;
    return Value(value);
  }

  method Parse(text: string) returns (duration: Duration)
    ensures duration == ParseDuration(text)
  {
    var compact := DoNoBlanks(text);
    if compact == "" { return Refused(Nothing); }
    var unit := "d";
    if |compact| >= 2 && Lower(compact[|compact| - 2]) == 'm' && Lower(compact[|compact| - 1]) == 's' {
      unit, compact := "ms", compact[..|compact| - 2];
    }
    if unit == "d" {
      var last := compact[|compact| - 1];
      if last < '0' || last > '9' { unit, compact := [Lower(last)], compact[..|compact| - 1]; }
    }
    if compact == "" { return Refused(NoNumber); }
    var multiplier := Multiplier(unit);
    if multiplier.None? { return Refused(UnknownUnit(unit)); }
    var taken := DoDecimals(compact, multiplier.value);
    match taken {
      case Value(value) => return Parsed(value * multiplier.value);
      case Stopped(problem) => return Refused(problem);
    }
  }
}
