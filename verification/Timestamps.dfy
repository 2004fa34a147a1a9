/** UTC timestamps: `format_utc` and `parse_iso8601`, over the calendar. */
module Timestamps {
  import opened Arithmetic
  import opened Calendar
  import opened Text

  datatype Instant = Instant(seconds: int, nanoseconds: nat)

  // --- Reading ----------------------------------------------------------------------------

  /** Exactly `count` digits from `p` on, after a number `acc`. */
  function DigitsFrom(s: string, p: nat, count: nat, acc: nat): (r: Option<(nat, nat)>)
    ensures r.Some? ==> r.value.1 == p + count && (count > 0 ==> r.value.1 <= |s|)
    decreases count
  {
    if count == 0 then Some((acc, p))
    else if p < |s| && IsDigit(s[p]) then DigitsFrom(s, p + 1, count - 1, acc * 10 + DigitOf(s[p]))
    else None
  }

  /** Digits and then one of two characters. */
  function Field(s: string, p: nat, count: nat, close: char, other: char): (r: Option<(nat, nat)>)
    ensures r.Some? ==> r.value.1 == p + count + 1 <= |s|
  {
    var n := DigitsFrom(s, p, count, 0);
    if n.Some? && p + count < |s| && (s[p + count] == close || s[p + count] == other)
        then Some((n.value.0, p + count + 1))
    else None
  }

  function Pow10(n: nat): (r: nat)
    ensures r >= 1
  {
    if n == 0 then 1 else 10 * Pow10(n - 1)
  }

  /** The first nine digits of a fraction, in billionths; later digits are dropped. */
  function Billionths(digits: string): nat
    requires AllDigits(digits)
  {
    var n := if |digits| < 9 then |digits| else 9;
    NatValue(digits[..n]) * Pow10(9 - n)
  }

  lemma {:induction false} RunIsDigits(s: string, p: nat)
    requires p <= |s|
    ensures AllDigits(s[p..SkipDigits(s, p)])
    decreases |s| - p
  {
    if p < |s| && IsDigit(s[p]) { RunIsDigits(s, p + 1); }
  }

  /** An optional fraction of a second and where it ends. */
  function Fraction(s: string, p: nat): (r: (nat, nat))
    requires p <= |s|
    ensures p <= r.1 <= |s|
  {
    if p == |s| || s[p] != '.' then (0, p) else
    RunIsDigits(s, p + 1);
    (Billionths(s[p + 1..SkipDigits(s, p + 1)]), SkipDigits(s, p + 1))
  }

  /** An optional offset from UTC, in seconds; what follows it is not looked at. */
  function OffsetSeconds(s: string, p: nat): Option<int>
    requires p <= |s|
  {
    if p == |s| || (s[p] != '+' && s[p] != '-') then Some(0) else
    var hour := DigitsFrom(s, p + 1, 2, 0);
    if hour.None? then None else
    var q := if hour.value.1 < |s| && s[hour.value.1] == ':' then hour.value.1 + 1 else hour.value.1;
    var minute := DigitsFrom(s, q, 2, 0);
    if minute.None? then None else
    var offset := hour.value.0 * 3600 + minute.value.0 * 60;
    Some(if s[p] == '-' then -offset else offset)
  }

  datatype Clock = Clock(year: nat, month: nat, day: nat, hour: nat, minute: nat, second: nat)

  /** Any month has 31 days here, and any minute a leap second. */
  predicate InRange(c: Clock) {
    1 <= c.month <= 12 && 1 <= c.day <= 31 && c.hour <= 23 && c.minute <= 59 && c.second <= 60
  }

  function Seconds(c: Clock): int
    requires InRange(c)
  {
    DaysFromCivil(c.year, c.month, c.day) * 86400 + c.hour * 3600 + c.minute * 60 + c.second
  }

  /** Year, month, day, and the position after the separator. */
  function ReadDate(s: string): (r: Option<(nat, nat, nat, nat)>)
    ensures r.Some? ==> r.value.3 <= |s|
  {
    var year := Field(s, 0, 4, '-', '-');
    if year.None? then None else
    var month := Field(s, year.value.1, 2, '-', '-');
    if month.None? then None else
    var day := Field(s, month.value.1, 2, 'T', ' ');
    if day.None? then None else
    Some((year.value.0, month.value.0, day.value.0, day.value.1))
  }

  function ReadTime(s: string, p: nat): (r: Option<(nat, nat, nat, nat)>)
    ensures r.Some? ==> r.value.3 <= |s|
  {
    var hour := Field(s, p, 2, ':', ':');
    if hour.None? then None else
    var minute := Field(s, hour.value.1, 2, ':', ':');
    if minute.None? then None else
    var second := DigitsFrom(s, minute.value.1, 2, 0);
    if second.None? then None else
    Some((hour.value.0, minute.value.0, second.value.0, second.value.1))
  }

  /** The six fields and the position after the seconds. */
  function ReadClock(s: string): (r: Option<(Clock, nat)>)
    ensures r.Some? ==> r.value.1 <= |s|
  {
    var date := ReadDate(s);
    if date.None? then None else
    var time := ReadTime(s, date.value.3);
    if time.None? then None else
    Some((Clock(date.value.0, date.value.1, date.value.2, time.value.0, time.value.1, time.value.2), time.value.3))
  }

  /** What follows the seconds, and the instant. */
  function Finish(s: string, p: nat, seconds: int): Option<Instant>
    requires p <= |s|
  {
    var (nanoseconds, q) := Fraction(s, p);
    var offset := OffsetSeconds(s, q);
    if offset.None? then None else Some(Instant(seconds - offset.value, nanoseconds))
  }

  function ParseIso8601(s: string): Option<Instant> {
    var read := ReadClock(s);
    if read.None? || !InRange(read.value.0) then None else Finish(s, read.value.1, Seconds(read.value.0))
  }

  // --- Writing ------------------------------------------------------------------------------

  /** `std::to_string` filled up with zeros in front. */
  function Pad(value: int, width: nat): string { ZeroFilled(IntText(value), width) }

  function TruncRem(a: int, b: int): int
    requires b > 0
  {
    a - b * TruncDiv(a, b)
  }

  /** Whole days and the seconds of the last one, from C++ division and remainder. */
  function SplitDay(t: int): (r: (int, nat))
    ensures r.1 < 86400 && t == r.0 * 86400 + r.1
  {
    var days, rest := TruncDiv(t, 86400), TruncRem(t, 86400);
    if rest < 0 then (days - 1, rest + 86400) else (days, rest)
  }

  function FormatUtc(t: int): string {
    var (days, rest) := SplitDay(t);
    var d := CivilFromDays(days);
    Pad(d.year, 4) + "-" + Pad(d.month, 2) + "-" + Pad(d.day, 2) + " "
    + Pad(rest / 3600, 2) + ":" + Pad(rest / 60 % 60, 2) + ":" + Pad(rest % 60, 2) + "Z"
  }

  // --- A numeral reads back --------------------------------------------------------------------

  lemma {:induction false} ZeroFilledDigits(text: string, width: nat)
    requires AllDigits(text)
    ensures AllDigits(ZeroFilled(text, width)) && NatValue(ZeroFilled(text, width)) == NatValue(text)
    ensures |ZeroFilled(text, width)| == if |text| < width then width else |text|
    decreases width - |text|
  {
    if |text| < width {
      ZeroInFront(text);
      ZeroFilledDigits("0" + text, width);
    }
  }

  lemma {:induction false} ZeroInFront(text: string)
    requires AllDigits(text)
    ensures AllDigits("0" + text) && NatValue("0" + text) == NatValue(text)
  {
    var zero := "0" + text;
    if text != "" {
      ZeroInFront(text[..|text| - 1]);
      assert zero[..|zero| - 1] == "0" + text[..|text| - 1];
    } else {
      assert zero[..0] == "";
      assert NatValue(zero) == 10 * NatValue("") + DigitOf('0');
    }
  }

  lemma {:induction false} NatTextLength(n: nat, width: nat)
    requires width >= 1 && n < Pow10(width)
    ensures |NatText(n)| <= width
  {
    if n >= 10 { NatTextLength(n / 10, width - 1); }
  }

  /** A padded number of at most `width` digits has exactly `width`, and denotes the number. */
  lemma {:induction false} PadReads(n: nat, width: nat)
    requires width >= 1 && n < Pow10(width)
    ensures |Pad(n, width)| == width && AllDigits(Pad(n, width)) && NatValue(Pad(n, width)) == n
  {
    NatTextValue(n);
    NatTextLength(n, width);
    ZeroFilledDigits(NatText(n), width);
  }

  lemma {:induction false} DigitsTaken(s: string, p: nat, t: string, count: nat)
    requires At(s, p, t) && AllDigits(t) && count <= |t|
    ensures DigitsFrom(s, p, |t|, 0) == DigitsFrom(s, p + count, |t| - count, NatValue(t[..count]))
  {
    if count == 0 {
      assert t[..0] == "";
    } else {
      DigitsTaken(s, p, t, count - 1);
      AtIndex(s, p, t);
      assert s[p + (count - 1)] == t[count - 1];
      assert t[..count][..count - 1] == t[..count - 1];
    }
  }

  lemma {:induction false} DigitsRead(s: string, p: nat, t: string)
    requires At(s, p, t) && AllDigits(t)
    ensures DigitsFrom(s, p, |t|, 0) == Some((NatValue(t), p + |t|))
  {
    DigitsTaken(s, p, t, |t|);
    assert t[..|t|] == t;
  }

  lemma {:induction false} FieldRead(s: string, p: nat, t: string, sep: char, rest: string, close: char, other: char)
    requires At(s, p, t + ([sep] + rest)) && AllDigits(t) && (sep == close || sep == other)
    ensures Field(s, p, |t|, close, other) == Some((NatValue(t), p + |t| + 1)) && At(s, p + |t| + 1, rest)
  {
    FieldParts(s, p, t, sep, rest);
    DigitsRead(s, p, t);
  }

  lemma {:induction false} FieldParts(s: string, p: nat, t: string, sep: char, rest: string)
    requires At(s, p, t + ([sep] + rest))
    ensures At(s, p, t) && p + |t| < |s| && s[p + |t|] == sep && At(s, p + |t| + 1, rest)
  {
    AtConcat(s, p, t, [sep] + rest);
    AtConcat(s, p + |t|, [sep], rest);
    AtIndex(s, p + |t|, [sep]);
    assert s[p + |t| + 0] == [sep][0];
  }

  // --- Timestamps of RFC 3339 -----------------------------------------------------------------

  datatype Zone = NoZone | Zulu | Offset(east: bool, hour: nat, minute: nat, colon: bool)

  function ZoneText(z: Zone): string {
    match z
    case NoZone => ""
    case Zulu => "Z"
    case Offset(east, hour, minute, colon) =>
      (if east then "+" else "-") + (Pad(hour, 2) + ((if colon then ":" else "") + Pad(minute, 2)))
  }

  function ZoneSeconds(z: Zone): int {
    match z
    case Offset(east, hour, minute, _) => (if east then 1 else -1) * (hour * 3600 + minute * 60)
    case _ => 0
  }

  function FractionText(fraction: Option<string>): string {
    if fraction.None? then "" else "." + fraction.value
  }

  function FractionValue(fraction: Option<string>): nat
    requires fraction.Some? ==> AllDigits(fraction.value)
  {
    if fraction.None? then 0 else Billionths(fraction.value)
  }

  function ClockText(c: Clock, sep: char, rest: string): string {
    Joined(Pad(c.year, 4), Pad(c.month, 2), Pad(c.day, 2), sep, Pad(c.hour, 2), Pad(c.minute, 2), Pad(c.second, 2),
        rest)
  }

  predicate Fits(c: Clock) {
    c.year < 10000 && c.month < 100 && c.day < 100 && c.hour < 100 && c.minute < 100 && c.second < 100
  }

  lemma {:induction false} Powers()
    ensures Pow10(2) == 100 && Pow10(4) == 10000
  {
    assert Pow10(1) == 10 * Pow10(0);
    assert Pow10(2) == 10 * Pow10(1);
    assert Pow10(3) == 10 * Pow10(2);
    assert Pow10(4) == 10 * Pow10(3);
  }

  predicate Digits(t: string, count: nat) { |t| == count && AllDigits(t) }

  /** The fields of a timestamp, given as strings of digits. */
  function Joined(year: string, month: string, day: string, sep: char, hour: string, minute: string, second: string,
                  rest: string): string {
    year + (['-'] + (month + (['-'] + (day + ([sep] + (hour + ([':'] + (minute + ([':'] + (second + rest))))))))))
  }

  lemma {:induction false} DateReads(s: string, year: string, month: string, day: string, sep: char, rest: string)
    requires Digits(year, 4) && Digits(month, 2) && Digits(day, 2) && (sep == 'T' || sep == ' ')
    requires At(s, 0, year + (['-'] + (month + (['-'] + (day + ([sep] + rest))))))
    ensures ReadDate(s) == Some((NatValue(year), NatValue(month), NatValue(day), 11)) && At(s, 11, rest)
  {
    FieldRead(s, 0, year, '-', month + (['-'] + (day + ([sep] + rest))), '-', '-');
    FieldRead(s, 5, month, '-', day + ([sep] + rest), '-', '-');
    FieldRead(s, 8, day, sep, rest, 'T', ' ');
  }

  lemma {:induction false} TimeReads(s: string, p: nat, hour: string, minute: string, second: string, rest: string)
    requires Digits(hour, 2) && Digits(minute, 2) && Digits(second, 2)
    requires At(s, p, hour + ([':'] + (minute + ([':'] + (second + rest)))))
    ensures ReadTime(s, p) == Some((NatValue(hour), NatValue(minute), NatValue(second), p + 8)) && At(s, p + 8, rest)
  {
    FieldRead(s, p, hour, ':', minute + ([':'] + (second + rest)), ':', ':');
    FieldRead(s, p + 3, minute, ':', second + rest, ':', ':');
    AtConcat(s, p + 6, second, rest);
    DigitsRead(s, p + 6, second);
  }

  lemma {:induction false} JoinedReads(year: string, month: string, day: string, sep: char, hour: string,
                                       minute: string, second: string,
                    rest: string)
    requires Digits(year, 4) && Digits(month, 2) && Digits(day, 2) && (sep == 'T' || sep == ' ')
    requires Digits(hour, 2) && Digits(minute, 2) && Digits(second, 2)
    ensures var s := Joined(year, month, day, sep, hour, minute, second, rest);
            && ReadClock(s) == Some((Clock(NatValue(year), NatValue(month), NatValue(day), NatValue(hour),
                NatValue(minute),
                                           NatValue(second)), 19))
            && At(s, 19, rest) && |s| == 19 + |rest|
  {
    var s := Joined(year, month, day, sep, hour, minute, second, rest);
    AtWhole(s);
    DateReads(s, year, month, day, sep, hour + ([':'] + (minute + ([':'] + (second + rest)))));
    TimeReads(s, 11, hour, minute, second, rest);
  }

  lemma {:induction false} AtWhole(s: string)
    ensures At(s, 0, s)
  {
    AtIndex(s, 0, s);
  }

  lemma {:induction false} ClockReads(c: Clock, sep: char, rest: string)
    requires Fits(c) && (sep == 'T' || sep == ' ')
    ensures var s := ClockText(c, sep, rest);
            ReadClock(s) == Some((c, 19)) && At(s, 19, rest) && |s| == 19 + |rest|
  {
    Powers();
    PadReads(c.year, 4);
    PadReads(c.month, 2);
    PadReads(c.day, 2);
    PadReads(c.hour, 2);
    PadReads(c.minute, 2);
    PadReads(c.second, 2);
    JoinedReads(Pad(c.year, 4), Pad(c.month, 2), Pad(c.day, 2), sep, Pad(c.hour, 2), Pad(c.minute, 2),
        Pad(c.second, 2), rest);
  }

  lemma {:induction false} FractionReads(s: string, p: nat, fraction: Option<string>, z: Zone)
    requires At(s, p, FractionText(fraction) + ZoneText(z)) && p + |FractionText(fraction) + ZoneText(z)| == |s|
    requires fraction.Some? ==> AllDigits(fraction.value)
    ensures Fraction(s, p)
         == (FractionValue(fraction), p + |FractionText(fraction)|)
    ensures At(s, p + |FractionText(fraction)|, ZoneText(z))
  {
    var q := p + |FractionText(fraction)|;
    AtConcat(s, p, FractionText(fraction), ZoneText(z));
    ZoneStarts(s, q, z);
    if fraction.Some? {
      AtConcat(s, p, ".", fraction.value);
      AtIndex(s, p, ".");
      assert s[p + 0] == "."[0];
      AtIndex(s, p + 1, fraction.value);
      AtSlice(s, p + 1, fraction.value);
      forall i | p + 1 <= i < q ensures IsDigit(s[i]) { assert s[p + 1 + (i - p - 1)] == fraction.value[i - p - 1]; }
      SkipDigitsTo(s, p + 1, q);
    }
  }

  lemma {:induction false} ZoneStarts(s: string, p: nat, z: Zone)
    requires At(s, p, ZoneText(z)) && p + |ZoneText(z)| == |s|
    ensures p < |s| ==> s[p] == 'Z' || s[p] == '+' || s[p] == '-'
    ensures z == Zulu ==> p < |s| && s[p] == 'Z'
  {
    AtIndex(s, p, ZoneText(z));
    if ZoneText(z) != "" { assert s[p + 0] == ZoneText(z)[0]; }
  }

  lemma {:induction false} OffsetReads(s: string, p: nat, east: bool, hour: string, colon: string, minute: string)
    requires Digits(hour, 2) && Digits(minute, 2) && (colon == "" || colon == ":")
    requires At(s, p, (if east then "+" else "-") + (hour + (colon + minute)))
    ensures p <= |s|
    ensures OffsetSeconds(s, p) == Some((if east then 1 else -1) * (NatValue(hour) * 3600 + NatValue(minute) * 60))
  {
    var sign := if east then "+" else "-";
    AtConcat(s, p, sign, hour + (colon + minute));
    AtIndex(s, p, sign);
    assert s[p + 0] == sign[0];
    AtConcat(s, p + 1, hour, colon + minute);
    DigitsRead(s, p + 1, hour);
    AtConcat(s, p + 3, colon, minute);
    DigitsRead(s, p + 3 + |colon|, minute);
    AtIndex(s, p + 3, colon);
    AtIndex(s, p + 3 + |colon|, minute);
    assert colon != "" ==> s[p + 3 + 0] == colon[0];
    assert s[p + 3 + |colon| + 0] == minute[0];
  }

  lemma {:induction false} ZoneReads(s: string, p: nat, z: Zone)
    requires At(s, p, ZoneText(z)) && p + |ZoneText(z)| == |s|
    requires z.Offset? ==> z.hour < 100 && z.minute < 100
    ensures OffsetSeconds(s, p) == Some(ZoneSeconds(z))
  {
    if z.Offset? {
      Powers();
      PadReads(z.hour, 2);
      PadReads(z.minute, 2);
      OffsetReads(s, p, z.east, Pad(z.hour, 2), if z.colon then ":" else "", Pad(z.minute, 2));
    } else {
      ZoneStarts(s, p, z);
    }
  }

  /** A timestamp with any fraction and any offset parses, exactly when its fields are in
      range, to its calendar seconds less the offset and the first nine fraction digits. */
  lemma {:induction false} StampParses(c: Clock, sep: char, fraction: Option<string>, z: Zone)
    requires Fits(c) && (sep == 'T' || sep == ' ')
    requires (fraction.Some? ==> AllDigits(fraction.value)) && (z.Offset? ==> z.hour < 100 && z.minute < 100)
    ensures ParseIso8601(ClockText(c, sep, FractionText(fraction) + ZoneText(z)))
         == if 1 <= c.month <= 12 && 1 <= c.day <= 31 && c.hour <= 23 && c.minute <= 59 && c.second <= 60
            then Some(Instant(Seconds(c) - ZoneSeconds(z), FractionValue(fraction)))
            else None
  {
    var rest := FractionText(fraction) + ZoneText(z);
    ClockReads(c, sep, rest);
    ClockThenRest(ClockText(c, sep, rest), c, fraction, z);
  }

  lemma {:induction false} ClockThenRest(s: string, c: Clock, fraction: Option<string>, z: Zone)
    requires ReadClock(s) == Some((c, 19)) && At(s, 19, FractionText(fraction) + ZoneText(z))
    requires |s| == 19 + |FractionText(fraction) + ZoneText(z)|
    requires (fraction.Some? ==> AllDigits(fraction.value)) && (z.Offset? ==> z.hour < 100 && z.minute < 100)
    ensures ParseIso8601(s)
         == if InRange(c)
            then Some(Instant(Seconds(c) - ZoneSeconds(z), FractionValue(fraction)))
            else None
  {
    ParseOfClock(s, c, 19);
    if InRange(c) { FinishReads(s, 19, fraction, z, Seconds(c)); }
  }

  lemma {:induction false} ParseOfClock(s: string, c: Clock, p: nat)
    requires ReadClock(s) == Some((c, p))
    ensures p <= |s| && ParseIso8601(s) == if InRange(c) then Finish(s, p, Seconds(c)) else None
  {
  }

  lemma {:induction false} FinishReads(s: string, p: nat, fraction: Option<string>, z: Zone, seconds: int)
    requires At(s, p, FractionText(fraction) + ZoneText(z)) && p + |FractionText(fraction) + ZoneText(z)| == |s|
    requires (fraction.Some? ==> AllDigits(fraction.value)) && (z.Offset? ==> z.hour < 100 && z.minute < 100)
    ensures Finish(s, p, seconds)
         == Some(Instant(seconds - ZoneSeconds(z), FractionValue(fraction)))
  {
    var q, offset := p + |FractionText(fraction)|, ZoneSeconds(z);
    FractionReads(s, p, fraction, z);
    assert OffsetSeconds(s, q) == Some(offset) by { ZoneReads(s, q, z); }
    FinishOf(s, p, seconds, FractionValue(fraction), q, offset);
  }

  lemma {:induction false} FinishOf(s: string, p: nat, seconds: int, nanoseconds: nat, q: nat, offset: int)
    requires p <= |s| && q <= |s| && Fraction(s, p) == (nanoseconds, q) && OffsetSeconds(s, q) == Some(offset)
    ensures Finish(s, p, seconds) == Some(Instant(seconds - offset, nanoseconds))
  {
  }

  /** They are the fraction the digits denote, up to nine of them; further digits do not matter. */
  lemma {:induction false} BillionthsTell(digits: string)
    requires AllDigits(digits)
    ensures |digits| <= 9 ==> Billionths(digits) * Pow10(|digits|) == NatValue(digits) * 1_000_000_000
    ensures |digits| > 9 ==> Billionths(digits) == NatValue(digits[..9])
  {
    if |digits| <= 9 {
      assert digits[..|digits|] == digits;
      PowerSplit(9 - |digits|, |digits|);
      BillionPower();
      TimesAssoc(NatValue(digits), Pow10(9 - |digits|), Pow10(|digits|));
    } else {
      assert Pow10(0) == 1;
    }
  }

  lemma {:induction false} TimesAssoc(a: nat, b: nat, c: nat)
    ensures a * b * c == a * (b * c)
  {
  }

  /** Billionths are less than a second. */
  lemma {:induction false} BillionthsBound(digits: string)
    requires AllDigits(digits)
    ensures Billionths(digits) < 1_000_000_000
  {
    var n := if |digits| < 9 then |digits| else 9;
    NatValueBound(digits[..n]);
    PowerSplit(n, 9 - n);
    TimesLess(NatValue(digits[..n]), Pow10(n), Pow10(9 - n));
    BillionPower();
  }

  lemma {:induction false} TimesLess(a: nat, b: nat, c: nat)
    requires a < b && c >= 1
    ensures a * c < b * c
  {
  }

  lemma {:induction false} BillionPower()
    ensures Pow10(9) == 1_000_000_000
  {
    Powers();
    PowerSplit(4, 4);
    PowerSplit(8, 1);
    assert Pow10(1) == 10 * Pow10(0);
  }

  lemma {:induction false} NatValueBound(digits: string)
    requires AllDigits(digits)
    ensures NatValue(digits) < Pow10(|digits|)
  {
    if digits != "" { NatValueBound(digits[..|digits| - 1]); }
  }

  lemma {:induction false} PowerSplit(a: nat, b: nat)
    ensures Pow10(a + b) == Pow10(a) * Pow10(b)
  {
    if a > 0 { PowerSplit(a - 1, b); }
  }

  // --- Formatting and parsing back ---------------------------------------------------------------

  function YearOf(t: int): int { CivilFromDays(SplitDay(t).0).year }

  /** The fields of an instant whose year is not negative. */
  function ClockOf(t: int): Clock
    requires YearOf(t) >= 0
  {
    var (days, rest) := SplitDay(t);
    var d := CivilFromDays(days);
    Clock(d.year, d.month, d.day, rest / 3600, rest / 60 % 60, rest % 60)
  }

  lemma {:induction false} TimeOfDay(rest: nat)
    requires rest < 86400
    ensures rest / 3600 <= 23 && rest / 60 % 60 <= 59 && rest % 60 <= 59
    ensures rest / 3600 * 3600 + rest / 60 % 60 * 60 + rest % 60 == rest
  {
    Quotient(rest, 3600, rest / 60 / 60, rest / 60 % 60 * 60 + rest % 60);
  }

  lemma {:induction false} DateInRange(days: int)
    ensures var d := CivilFromDays(days);
            1 <= d.month <= 12 && 1 <= d.day <= 31 && DaysFromCivil(d.year, d.month, d.day) == days
  {
    CivilIsStepped(days);
  }

  lemma {:induction false} ClockOfSeconds(t: int)
    requires YearOf(t) >= 0
    ensures InRange(ClockOf(t)) && Seconds(ClockOf(t)) == t
  {
    TimeOfDay(SplitDay(t).1);
    DateInRange(SplitDay(t).0);
  }

  lemma {:induction false} LeftToRight(year: string, month: string, day: string, hour: string, minute: string,
                                       second: string)
    ensures year + "-" + month + "-" + day + " " + hour + ":" + minute + ":" + second + "Z"
         == Joined(year, month, day, ' ', hour, minute, second, "Z")
  {
    var time := hour + ([':'] + (minute + ([':'] + (second + "Z"))));
    var left := year + "-" + month + "-" + day;
    assert left + " " + hour + ":" + minute + ":" + second + "Z" == left + ([' '] + time);
    assert left + ([' '] + time) == year + (['-'] + (month + (['-'] + (day + ([' '] + time)))));
  }

  lemma {:induction false} FormatIsStamp(t: int)
    requires YearOf(t) >= 0
    ensures FormatUtc(t) == ClockText(ClockOf(t), ' ', "Z")
  {
    var c := ClockOf(t);
    LeftToRight(Pad(c.year, 4), Pad(c.month, 2), Pad(c.day, 2), Pad(c.hour, 2), Pad(c.minute, 2), Pad(c.second, 2));
  }

  lemma {:induction false} FormatRest(t: int) returns (rest: string)
    ensures FormatUtc(t) == Pad(YearOf(t), 4) + rest
  {
    var (days, rest') := SplitDay(t);
    var d := CivilFromDays(days);
    var month, day, hour := Pad(d.month, 2), Pad(d.day, 2), Pad(rest' / 3600, 2);
    var minute, second := Pad(rest' / 60 % 60, 2), Pad(rest' % 60, 2);
    LeftToRight(Pad(d.year, 4), month, day, hour, minute, second);
    rest := ['-'] + (month + (['-'] + (day + ([' '] + (hour + ([':'] + (minute + ([':'] + (second + "Z")))))))));
  }

  /** Formatting then parsing gives the instant back exactly when the year has at most four
      digits and no sign; otherwise the text does not parse at all. */
  lemma {:induction false} FormatParses(t: int)
    ensures ParseIso8601(FormatUtc(t)) == if 0 <= YearOf(t) <= 9999 then Some(Instant(t, 0)) else None
  {
    if 0 <= YearOf(t) <= 9999 {
      ShortYearParses(t);
    } else {
      var rest := FormatRest(t);
      YearFails(YearOf(t), rest);
      NoYearNoParse(FormatUtc(t));
    }
  }

  lemma {:induction false} NoYearNoParse(s: string)
    requires Field(s, 0, 4, '-', '-').None?
    ensures ParseIso8601(s) == None
  {
  }

  lemma {:induction false} ShortYearParses(t: int)
    requires 0 <= YearOf(t) <= 9999
    ensures ParseIso8601(FormatUtc(t)) == Some(Instant(t, 0))
  {
    ClockOfSeconds(t);
    FormatIsStamp(t);
    UtcStampParses(ClockOf(t));
  }

  lemma {:induction false} UtcStampParses(c: Clock)
    requires Fits(c) && InRange(c)
    ensures ParseIso8601(ClockText(c, ' ', "Z")) == Some(Instant(Seconds(c), 0))
  {
    StampParses(c, ' ', None, Zulu);
    assert FractionText(None) + ZoneText(Zulu) == "Z";
  }

  lemma {:induction false} DigitsStop(s: string, p: nat, count: nat, acc: nat, k: nat)
    requires k < count && p + k < |s| && !IsDigit(s[p + k])
    ensures DigitsFrom(s, p, count, acc).None?
    decreases count
  {
    if k > 0 && IsDigit(s[p]) { DigitsStop(s, p + 1, count - 1, acc * 10 + DigitOf(s[p]), k - 1); }
  }

  /** A year of another shape is not four digits and a dash. */
  lemma {:induction false} YearFails(year: int, rest: string)
    requires !(0 <= year <= 9999)
    ensures Field(Pad(year, 4) + rest, 0, 4, '-', '-').None?
  {
    var text, r := IntText(year), Pad(year, 4);
    var s := r + rest;
    ZeroFilledEnds(text, 4);
    if year < 0 {
      var k := |r| - |text|;
      assert r[k..][0] == '-' && s[k] == '-';
      DigitsStop(s, 0, 4, 0, k);
    } else {
      NatTextDigits(year);
      LongNatText(year);
      assert r == text;
      assert s[4] == r[4];
    }
  }

  lemma {:induction false} LongNatText(n: nat)
    requires n > 9999
    ensures |NatText(n)| > 4
  {
    assert |NatText(n / 10000)| >= 1;
    assert n / 10 / 10 / 10 / 10 == n / 10000;
    assert |NatText(n / 10)| == |NatText(n / 10 / 10)| + 1;
    assert |NatText(n / 10 / 10)| == |NatText(n / 10 / 10 / 10)| + 1;
    assert |NatText(n / 10 / 10 / 10)| == |NatText(n / 10 / 10 / 10 / 10)| + 1;
  }

  // --- The cursor code ---------------------------------------------------------------------------

  method TakeDigits(text: string, start: nat, count: nat) returns (r: Option<(nat, nat)>)
    ensures r == DigitsFrom(text, start, count, 0)
  {
    var value: nat := 0;
    var pos := start;
    for i := 0 to count
      invariant pos == start + i
      invariant DigitsFrom(text, start, count, 0) == DigitsFrom(text, pos, count - i, value)
    {
      if pos >= |text| || text[pos] < '0' || text[pos] > '9' { return None; }
      value := value * 10 + DigitOf(text[pos]);
      pos := pos + 1;
    }
    return Some((value, pos));
  }

  method TakeField(text: string, start: nat, count: nat, close: char, other: char) returns (r: Option<(nat, nat)>)
    ensures r == Field(text, start, count, close, other)
  {
    var digits := TakeDigits(text, start, count);
    if digits.None? { return None; }
    var (value, pos) := digits.value;
    if pos >= |text| || (text[pos] != close && text[pos] != other) { return None; }
    return Some((value, pos + 1));
  }

  method DoPad(value: int, width: nat) returns (text: string)
    ensures text == Pad(value, width)
  {
    text := IntText(value);
    while |text| < width
      invariant ZeroFilled(text, width) == Pad(value, width)
    {
      text := "0" + text;
    }
  }

  lemma {:induction false} NextDigitValue(digits: string, k: nat)
    requires AllDigits(digits) && k < |digits| && k < 9
    ensures NatValue(digits[..k]) * Pow10(9 - k) + DigitOf(digits[k]) * Pow10(8 - k)
         == NatValue(digits[..k + 1]) * Pow10(8 - k)
  {
    assert digits[..k + 1][..k] == digits[..k];
    assert NatValue(digits[..k + 1]) == 10 * NatValue(digits[..k]) + DigitOf(digits[k]);
    Spread(NatValue(digits[..k]), DigitOf(digits[k]), Pow10(8 - k));
  }

  lemma {:induction false} Spread(a: nat, d: nat, scale: nat)
    ensures a * (10 * scale) + d * scale == (10 * a + d) * scale
  {
  }

  /** At most nine digits, in billionths; `end` is where the run of digits ends. */
  method NineDigits(text: string, first: nat, ghost end: nat) returns (nanoseconds: nat, pos: nat)
    requires first <= |text| && end == SkipDigits(text, first) && AllDigits(text[first..end])
    ensures first <= pos <= end && SkipDigits(text, pos) == end
    ensures nanoseconds == Billionths(text[first..end])
  {
    nanoseconds, pos := 0, first;
    ghost var digits := text[first..end];
    var scale := 100_000_000;
    assert scale == Pow10(8) by { BillionPower(); }
    assert NatValue(digits[..0]) == 0;
    while scale != 0 && pos < |text| && '0' <= text[pos] <= '9'
      invariant first <= pos <= end && pos - first <= 9 && SkipDigits(text, pos) == end
      invariant scale == if pos - first < 9 then Pow10(8 - (pos - first)) else 0
      invariant nanoseconds == NatValue(digits[..pos - first]) * Pow10(9 - (pos - first))
      decreases |text| - pos
    {
      assert digits[pos - first] == text[pos];
      NextDigitValue(digits, pos - first);
      nanoseconds := nanoseconds + DigitOf(text[pos]) * scale;
      scale := scale / 10;
      pos := pos + 1;
    }
    assert pos - first < 9 ==> pos == end;
  }

  method DoFraction(text: string, start: nat) returns (nanoseconds: nat, pos: nat)
    requires start <= |text|
    ensures (nanoseconds, pos) == Fraction(text, start)
  {
    nanoseconds, pos := 0, start;
    if pos < |text| && text[pos] == '.' {
      ghost var end := SkipDigits(text, pos + 1);
      RunIsDigits(text, pos + 1);
      nanoseconds, pos := NineDigits(text, pos + 1, end);
      while pos < |text| && '0' <= text[pos] <= '9'
        invariant pos <= end && SkipDigits(text, pos) == end
      {
        pos := pos + 1;
      }
    }
  }

  method DoOffset(text: string, start: nat) returns (r: Option<int>)
    requires start <= |text|
    ensures r == OffsetSeconds(text, start)
  {
    if start >= |text| || (text[start] != '+' && text[start] != '-') { return Some(0); }
    var sign: int := if text[start] == '-' then -1 else 1;
    var hour := TakeDigits(text, start + 1, 2);
    if hour.None? { return None; }
    var pos := hour.value.1;
    if pos < |text| && text[pos] == ':' { pos := pos + 1; }
    var minute := TakeDigits(text, pos, 2);
    if minute.None? { return None; }
    return Some(sign * (hour.value.0 * 3600 + minute.value.0 * 60));
  }

  method Parse(text: string) returns (r: Option<Instant>)
    ensures r == ParseIso8601(text)
  {
    var year := TakeField(text, 0, 4, '-', '-');
    if year.None? { return None; }
    var month := TakeField(text, year.value.1, 2, '-', '-');
    if month.None? { return None; }
    var day := TakeField(text, month.value.1, 2, 'T', ' ');
    if day.None? { return None; }
    var hour := TakeField(text, day.value.1, 2, ':', ':');
    if hour.None? { return None; }
    var minute := TakeField(text, hour.value.1, 2, ':', ':');
    if minute.None? { return None; }
    var second := TakeDigits(text, minute.value.1, 2);
    if second.None? { return None; }
    var clock := Clock(year.value.0, month.value.0, day.value.0, hour.value.0, minute.value.0, second.value.0);
    assert ReadClock(text) == Some((clock, second.value.1));
    if !InRange(clock) { return None; }
    var nanoseconds, pos := DoFraction(text, second.value.1);
    var offset := DoOffset(text, pos);
    if offset.None? { return None; }
    return Some(Instant(Seconds(clock) - offset.value, nanoseconds));
  }
}
