/** Day numbers and civil dates: the era arithmetic against stepping one day at a time. */
module Calendar {
  import opened Arithmetic

  datatype Date = Date(year: int, month: nat, day: nat)

  // --- The calendar itself ---------------------------------------------------------------

  predicate Leap(year: int) { year % 4 == 0 && (year % 100 != 0 || year % 400 == 0) }

  function MonthLength(year: int, month: nat): nat {
    if month == 2 then (if Leap(year) then 29 else 28)
    else if month == 4 || month == 6 || month == 9 || month == 11 then 30
    else 31
  }

  predicate Valid(d: Date) { 1 <= d.month <= 12 && 1 <= d.day <= MonthLength(d.year, d.month) }

  function NextDay(d: Date): (r: Date)
    requires Valid(d)
    ensures Valid(r)
  {
    if d.day < MonthLength(d.year, d.month) then d.(day := d.day + 1)
    else if d.month < 12 then Date(d.year, d.month + 1, 1)
    else Date(d.year + 1, 1, 1)
  }

  function PreviousDay(d: Date): (r: Date)
    requires Valid(d)
    ensures Valid(r)
  {
    if d.day > 1 then d.(day := d.day - 1)
    else if d.month > 1 then Date(d.year, d.month - 1, MonthLength(d.year, d.month - 1))
    else Date(d.year - 1, 12, 31)
  }

  const EPOCH := Date(1970, 1, 1)

  /** The date `n` days after the epoch, found by stepping one day at a time. */
  ghost function Stepped(n: int): (d: Date)
    ensures Valid(d)
    decreases if n < 0 then -n else n
  {
    if n == 0 then EPOCH else if n > 0 then NextDay(Stepped(n - 1)) else PreviousDay(Stepped(n + 1))
  }

  // --- The era arithmetic -------------------------------------------------------------------

  /** C++ integer division. */
  function TruncDiv(a: int, b: int): int
    requires b > 0
  {
    if a >= 0 then a / b else -((-a) / b)
  }

  /** Days before the month with index `mp`, counted from March. */
  function MonthStart(mp: nat): nat { (153 * mp + 2) / 5 }

  function MarchIndex(month: nat): nat
    requires 1 <= month <= 12
  {
    if month > 2 then month - 3 else month + 9
  }

  function DayOfEra(yearOfEra: nat, dayOfYear: nat): int {
    yearOfEra * 365 + yearOfEra / 4 - yearOfEra / 100 + dayOfYear
  }

  function DaysFromCivil(year: int, month: nat, day: nat): int
    requires 1 <= month <= 12 && day >= 1
  {
    var y := if month <= 2 then year - 1 else year;
    var era := TruncDiv(if y >= 0 then y else y - 399, 400);
    EraOfYear(y);
    var yearOfEra := y - era * 400;
    var dayOfYear := MonthStart(MarchIndex(month)) + day - 1;
    era * 146097 + DayOfEra(yearOfEra, dayOfYear) - 719468
  }

  function CivilFromDays(days: int): Date {
    var shifted := days + 719468;
    var era := TruncDiv(if shifted >= 0 then shifted else shifted - 146096, 146097);
    EraOfDays(shifted);
    CivilOfEra(era, shifted - era * 146097)
  }

  function CivilOfEra(era: int, dayOfEra: nat): Date
    requires dayOfEra < 146097
  {
    var yearOfEra := YearOfEra(dayOfEra);
    var y := yearOfEra + era * 400;
    YearOfEraBound(dayOfEra);
    var dayOfYear: nat := dayOfEra - (365 * yearOfEra + yearOfEra / 4 - yearOfEra / 100);
    var mp := (5 * dayOfYear + 2) / 153;
    MonthBound(dayOfYear);
    var day: nat := dayOfYear - (153 * mp + 2) / 5 + 1;
    var month: nat := if mp < 10 then mp + 3 else mp - 9;
    Date(if month <= 2 then y + 1 else y, month, day)
  }

  function YearOfEra(dayOfEra: nat): nat {
    (dayOfEra - dayOfEra / 1460 + dayOfEra / 36524 - dayOfEra / 146096) / 365
  }

  lemma {:induction false} EraOfYear(y: int)
    ensures TruncDiv(if y >= 0 then y else y - 399, 400) == y / 400
  {
  }

  lemma {:induction false} EraOfDays(n: int)
    ensures TruncDiv(if n >= 0 then n else n - 146096, 146097) == n / 146097
  {
  }

  /** How many days the year `yearOfEra`, counted from March, has. */
  function YearLength(yearOfEra: nat): nat {
    if (yearOfEra + 1) % 4 == 0 && ((yearOfEra + 1) % 100 != 0 || yearOfEra == 399) then 366 else 365
  }

  /** The year of an era is read back from centuries `c`, leap cycles `q` and years `r`. */
  lemma {:induction false} YearFromParts(c: nat, q: nat, r: nat, dayOfYear: nat)
    requires c < 4 && q < 25 && r < 4 && dayOfYear < 366
    requires dayOfYear == 365 ==> r == 3 && (q < 24 || c == 3)
    ensures var doe := 36524 * c + 1461 * q + 365 * r + dayOfYear;
            doe < 146097 && YearOfEra(doe) == 100 * c + 4 * q + r
  {
    var doe := 36524 * c + 1461 * q + 365 * r + dayOfYear;
    var over := 24 * c + q + 365 * r + dayOfYear;
    var e := if over >= 1460 then 1 else 0;
    Quotient(doe, 1460, 25 * c + q + e, over - 1460 * e);
    var last := if doe == 146096 then 1 else 0;
    Quotient(doe, 36524, c + last, doe - 36524 * (c + last));
    Quotient(doe, 146096, last, doe - 146096 * last);
    Quotient(doe - (25 * c + q + e) + (c + last) - last, 365, 100 * c + 4 * q + r, dayOfYear - e);
  }

  /** The year can be read off the day of the era. */
  lemma {:induction false} YearReadsBack(yearOfEra: nat, dayOfYear: nat)
    requires yearOfEra < 400 && dayOfYear < YearLength(yearOfEra)
    ensures 0 <= DayOfEra(yearOfEra, dayOfYear) < 146097
    ensures YearOfEra(DayOfEra(yearOfEra, dayOfYear)) == yearOfEra
  {
    var c, q, r := yearOfEra / 100, yearOfEra % 100 / 4, yearOfEra % 4;
    assert yearOfEra == 100 * c + 4 * q + r;
    Quotient(yearOfEra, 4, 25 * c + q, r);
    YearFromParts(c, q, r, dayOfYear);
  }

  lemma {:induction false} YearStartNext(yearOfEra: nat)
    requires yearOfEra < 399
    ensures DayOfEra(yearOfEra + 1, 0) == DayOfEra(yearOfEra, 0) + YearLength(yearOfEra)
  {
  }

  /** Every day of the era belongs to a year, found by counting years from `from`. */
  lemma {:induction false} YearOfDay(dayOfEra: nat, from: nat) returns (year: nat)
    requires from < 400 && DayOfEra(from, 0) <= dayOfEra < 146097
    ensures year < 400 && 0 <= dayOfEra - DayOfEra(year, 0) < YearLength(year)
    decreases 400 - from
  {
    if from < 399 {
      YearStartNext(from);
      if dayOfEra < DayOfEra(from + 1, 0) { return from; }
      year := YearOfDay(dayOfEra, from + 1);
    } else {
      return from;
    }
  }

  lemma {:induction false} YearOfEraBound(dayOfEra: nat)
    requires dayOfEra < 146097
    ensures YearOfEra(dayOfEra) < 400
    ensures 0 <= dayOfEra - DayOfEra(YearOfEra(dayOfEra), 0) < YearLength(YearOfEra(dayOfEra))
  {
    var year := YearOfDay(dayOfEra, 0);
    var day: nat := dayOfEra - DayOfEra(year, 0);
    assert DayOfEra(year, day) == dayOfEra;
    YearReadsBack(year, day);
  }

  lemma {:induction false} MonthBound(dayOfYear: nat)
    requires dayOfYear < 366
    ensures (5 * dayOfYear + 2) / 153 < 12
    ensures (153 * ((5 * dayOfYear + 2) / 153) + 2) / 5 <= dayOfYear
  {
  }

  // --- The era arithmetic is right ------------------------------------------------------------

  lemma {:induction false} MarchStart(mp: nat)
    requires mp < 12
    ensures MonthStart(mp)
         == [0, 31, 61, 92, 122, 153, 184, 214, 245, 275, 306, 337][mp]
  {
  }

  lemma {:induction false} MonthReadsBack(mp: nat, day: nat)
    requires mp < 12 && 1 <= day <= (if mp == 11 then 29 else [31, 30, 31, 30, 31, 31, 30, 31, 30, 31, 31][mp])
    ensures (5 * (MonthStart(mp) + day - 1) + 2) / 153 == mp
  {
    MarchStart(mp);
  }

  function EraDays(era: int, dayOfEra: int): int { era * 146097 + dayOfEra - 719468 }

  /** A date split into an era, a year of it from March, and a day of that year. */
  lemma {:induction false} Parts(d: Date) returns (y: int, mp: nat, dayOfYear: nat)
    requires Valid(d)
    ensures y == (if d.month <= 2 then d.year - 1 else d.year) && mp == MarchIndex(d.month) && mp < 12
    ensures dayOfYear == MonthStart(mp) + d.day - 1 && dayOfYear < YearLength(y % 400)
    ensures d.day <= (if mp == 11 then 29 else [31, 30, 31, 30, 31, 31, 30, 31, 30, 31, 31][mp])
    ensures DaysFromCivil(d.year, d.month, d.day) == EraDays(y / 400, DayOfEra(y % 400, dayOfYear))
  {
    y := if d.month <= 2 then d.year - 1 else d.year;
    mp := MarchIndex(d.month);
    MarchStart(mp);
    LeapInEra(y);
    dayOfYear := MonthStart(mp) + d.day - 1;
    EraOfYear(y);
  }

  lemma {:induction false} ErasCycle(k: int, z: int)
    ensures (400 * k + z) % 4 == z % 4 && (400 * k + z) % 100 == z % 100
  {
    Quotient(400 * k + z, 4, 100 * k + z / 4, z % 4);
    Quotient(400 * k + z, 100, 4 * k + z / 100, z % 100);
  }

  lemma {:induction false} LeapInEra(y: int)
    ensures Leap(y + 1) <==> YearLength(y % 400) == 366
  {
    var k, z := y / 400, y % 400 + 1;
    assert y + 1 == 400 * k + z;
    ErasCycle(k, z);
    assert (y + 1) % 400 == 0 <==> z == 400;
  }

  /** Reading a date's day number back gives the date. */
  lemma {:induction false} CivilOfDays(d: Date)
    requires Valid(d)
    ensures CivilFromDays(DaysFromCivil(d.year, d.month, d.day)) == d
  {
    var y, mp, dayOfYear := Parts(d);
    YearReadsBack(y % 400, dayOfYear);
    MonthReadsBack(mp, d.day);
    CivilShift(y / 400, DayOfEra(y % 400, dayOfYear));
    CivilOfParts(y / 400, y % 400, mp, dayOfYear);
    assert y == 400 * (y / 400) + y % 400;
  }

  lemma {:induction false} CivilOfParts(era: int, yearOfEra: nat, mp: nat, dayOfYear: nat)
    requires yearOfEra < 400 && 0 <= DayOfEra(yearOfEra, dayOfYear) < 146097
    requires YearOfEra(DayOfEra(yearOfEra, dayOfYear)) == yearOfEra
    requires (5 * dayOfYear + 2) / 153 == mp && MonthStart(mp) <= dayOfYear
    ensures CivilOfEra(era, DayOfEra(yearOfEra, dayOfYear))
         == Date(era * 400 + yearOfEra + (if mp < 10 then 0 else 1), if mp < 10 then mp + 3 else mp - 9,
                 dayOfYear - MonthStart(mp) + 1)
  {
  }

  lemma {:induction false} CivilShift(era: int, dayOfEra: nat)
    requires dayOfEra < 146097
    ensures CivilFromDays(EraDays(era, dayOfEra)) == CivilOfEra(era, dayOfEra)
  {
    EraSplit(era, dayOfEra);
  }

  lemma {:induction false} EraSplit(era: int, dayOfEra: nat)
    requires dayOfEra < 146097
    ensures var shifted := EraDays(era, dayOfEra) + 719468;
            TruncDiv(if shifted >= 0 then shifted else shifted - 146096, 146097) == era
  {
    var shifted := era * 146097 + dayOfEra;
    EraOfDays(shifted);
    Quotient(shifted, 146097, era, dayOfEra);
  }

  /** From a date to the next, either the day of the March year goes up by one or a new March
      year starts. */
  lemma {:induction false} NextParts(d: Date, e: Date, y: int, mp: nat, dayOfYear: nat, y1: int, mp1: nat,
                                     dayOfYear1: nat)
    requires Valid(d) && e == NextDay(d) && mp == MarchIndex(d.month) && mp1 == MarchIndex(e.month)
    requires y == (if d.month <= 2 then d.year - 1 else d.year) && y1 == (if e.month <= 2 then e.year - 1 else e.year)
    requires dayOfYear == MonthStart(mp) + d.day - 1 && dayOfYear1 == MonthStart(mp1) + e.day - 1
    ensures if mp == 11 && mp1 == 0 then y1 == y + 1 && dayOfYear1 == 0 && dayOfYear == MonthLength(d.year, 2) + 336
            && d.year == y + 1
            else y1 == y && dayOfYear1 == dayOfYear + 1
  {
    MarchStart(mp);
    MarchStart(mp1);
  }

  lemma {:induction false} YearAfter(y: int)
    ensures if y % 400 == 399 then (y + 1) / 400 == y / 400 + 1 && (y + 1) % 400 == 0
            else (y + 1) / 400 == y / 400 && (y + 1) % 400 == y % 400 + 1
  {
    var era, year := y / 400, y % 400;
    if year == 399 { Quotient(y + 1, 400, era + 1, 0); } else { Quotient(y + 1, 400, era, year + 1); }
  }

  lemma {:induction false} NewYear(era: int, year: nat, last: nat)
    requires year < 400 && last + 1 == YearLength(year)
    ensures EraDays(era, DayOfEra(year, last)) + 1 == if year == 399 then EraDays(era + 1, DayOfEra(0, 0))
            else EraDays(era, DayOfEra(year + 1, 0))
  {
    if year < 399 { YearStartNext(year); }
  }

  /** The day after a date has the next day number. */
  lemma {:induction false} NextDayNumber(d: Date)
    requires Valid(d)
    ensures DaysFromCivil(NextDay(d).year, NextDay(d).month, NextDay(d).day) == DaysFromCivil(d.year, d.month, d.day)
            + 1
  {
    var e := NextDay(d);
    var y, mp, dayOfYear := Parts(d);
    var y1, mp1, dayOfYear1 := Parts(e);
    NextParts(d, e, y, mp, dayOfYear, y1, mp1, dayOfYear1);
    if mp == 11 && mp1 == 0 {
      LeapInEra(y);
      YearAfter(y);
      NewYear(y / 400, y % 400, dayOfYear);
    }
  }

  lemma {:induction false} NextOfPrevious(d: Date)
    requires Valid(d)
    ensures NextDay(PreviousDay(d)) == d && PreviousDay(NextDay(d)) == d
  {
  }

  /** The day number of the date `n` steps from the epoch is `n`, both ways of time. */
  lemma {:induction false} SteppedNumber(n: int)
    ensures DaysFromCivil(Stepped(n).year, Stepped(n).month, Stepped(n).day) == n
    decreases if n < 0 then -n else n
  {
    if n > 0 {
      SteppedNumber(n - 1);
      NextDayNumber(Stepped(n - 1));
    } else if n < 0 {
      SteppedNumber(n + 1);
      NextOfPrevious(Stepped(n + 1));
      NextDayNumber(Stepped(n));
    }
  }

  /** The era arithmetic is stepping one day at a time: for every day number, the date, and
      for every valid date, the number. */
  lemma {:induction false} CivilIsStepped(n: int)
    ensures CivilFromDays(n) == Stepped(n)
    ensures DaysFromCivil(CivilFromDays(n).year, CivilFromDays(n).month, CivilFromDays(n).day) == n
  {
    SteppedNumber(n);
    CivilOfDays(Stepped(n));
  }

  lemma {:induction false} DaysAreSteps(d: Date)
    requires Valid(d)
    ensures Stepped(DaysFromCivil(d.year, d.month, d.day)) == d
  {
    CivilOfDays(d);
    CivilIsStepped(DaysFromCivil(d.year, d.month, d.day));
  }
}
