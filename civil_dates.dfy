/** Calendar arithmetic on UTC day numbers, following the date algorithms of
    section 21.4.1 of ECMA-262 (DayFromYear, YearFromTime, MonthFromTime,
    DateFromTime, WeekDay, MakeDay).  Day 0 is 1970-01-01, a Thursday.  A
    JavaScript `Date` at midnight UTC is modelled by its day number; `setDate`
    and `setMonth` roll over exactly as MakeDay normalises out-of-range fields. */
module CivilDates {

  /** Milliseconds in a day. */
  const MsPerDay: int := 86_400_000

  predicate IsLeap(y: int) {
    y % 4 == 0 && (y % 100 != 0 || y % 400 == 0)
  }

  function DaysInYear(y: int): int {
    if IsLeap(y) then 366 else 365
  }

  /** The day number of January 1 of year `y`. */
  function DayFromYear(y: int): int {
    365 * (y - 1970) + (y - 1969) / 4 - (y - 1901) / 100 + (y - 1601) / 400
  }

  /** The length of month `m` (0 = January, as `getMonth` counts). */
  function DaysInMonth(y: int, m: int): int
    requires 0 <= m < 12
  {
    if m == 1 then (if IsLeap(y) then 29 else 28)
    else if m == 3 || m == 5 || m == 8 || m == 10 then 30
    else 31
  }

  /** Days of year `y` before the first of month `m`; month 12 stands for the
      year's end. */
  function DaysBeforeMonth(y: int, m: int): int
    requires 0 <= m <= 12
  {
    var leap := if IsLeap(y) && m >= 2 then 1 else 0;
    leap + (
      if m == 0 then 0 else if m == 1 then 31 else if m == 2 then 59
      else if m == 3 then 90 else if m == 4 then 120 else if m == 5 then 151
      else if m == 6 then 181 else if m == 7 then 212 else if m == 8 then 243
      else if m == 9 then 273 else if m == 10 then 304 else if m == 11 then 334
      else 365)
  }

  lemma MonthLengths(y: int, m: int)
    requires 0 <= m < 12
    ensures DaysBeforeMonth(y, m + 1) == DaysBeforeMonth(y, m) + DaysInMonth(y, m)
    ensures DaysBeforeMonth(y, 12) == DaysInYear(y)
    ensures 28 <= DaysInMonth(y, m) <= 31
  {
  }

  lemma Step4(y: int)
    ensures (y - 1968) / 4 == (y - 1969) / 4 + (if y % 4 == 0 then 1 else 0)
  {
  }

  lemma Step100(y: int)
    ensures (y - 1900) / 100 == (y - 1901) / 100 + (if y % 100 == 0 then 1 else 0)
  {
  }

  lemma Step400(y: int)
    ensures (y - 1600) / 400 == (y - 1601) / 400 + (if y % 400 == 0 then 1 else 0)
  {
  }

  lemma SmallMonth(m: int)
    requires 0 <= m < 12
    ensures m / 12 == 0 && m % 12 == m
  {
  }

  /** Consecutive years start `DaysInYear` apart. */
  lemma NextYearStart(y: int)
    ensures DayFromYear(y + 1) == DayFromYear(y) + DaysInYear(y)
  {
    Step4(y);
    Step100(y);
    Step400(y);
    var a := if y % 4 == 0 then 1 else 0;
    var b := if y % 100 == 0 then 1 else 0;
    var c := if y % 400 == 0 then 1 else 0;
    assert DayFromYear(y + 1) == DayFromYear(y) + 365 + a - b + c;
    LeapDivisors(y);
    assert DaysInYear(y) == 365 + a - b + c;
  }

  /** A multiple of 400 is one of 100, and a multiple of 100 one of 4. */
  lemma LeapDivisors(y: int)
    ensures y % 400 == 0 ==> y % 100 == 0
    ensures y % 100 == 0 ==> y % 4 == 0
  {
    if y % 400 == 0 {
      var q := y / 400;
      assert y == 100 * (4 * q) + 0;
    }
    if y % 100 == 0 {
      var q := y / 100;
      assert y == 4 * (25 * q) + 0;
    }
  }

  lemma {:induction false} YearStartMonotone(y1: int, y2: int)
    requires y1 < y2
    ensures DayFromYear(y1 + 1) <= DayFromYear(y2)
    decreases y2 - y1
  {
    if y1 + 1 < y2 {
      YearStartMonotone(y1 + 1, y2);
      NextYearStart(y1 + 1);
    }
  }

  /** The year containing day `t`, searching upward from a year that starts on
      or before `t`. */
  function YearUp(t: int, y: int): (r: int)
    requires DayFromYear(y) <= t
    ensures DayFromYear(r) <= t < DayFromYear(r + 1)
    decreases t - DayFromYear(y)
  {
    NextYearStart(y);
    if DayFromYear(y + 1) <= t then YearUp(t, y + 1) else y
  }

  /** The year containing day `t`, searching downward from a year that ends
      after `t`. */
  function YearDown(t: int, y: int): (r: int)
    requires t < DayFromYear(y + 1)
    ensures DayFromYear(r) <= t < DayFromYear(r + 1)
    decreases DayFromYear(y) - t
  {
    NextYearStart(y - 1);
    if DayFromYear(y) <= t then y else YearDown(t, y - 1)
  }

  /** YearFromTime: the year whose span holds day `t`. */
  function YearFromDay(t: int): (y: int)
    ensures DayFromYear(y) <= t < DayFromYear(y + 1)
  {
    if 0 <= t then YearUp(t, 1970) else YearDown(t, 1969)
  }

  /** Only one year's span holds a given day. */
  lemma YearFromDayUnique(t: int, y: int)
    requires DayFromYear(y) <= t < DayFromYear(y + 1)
    ensures YearFromDay(t) == y
  {
    var r := YearFromDay(t);
    if r < y { YearStartMonotone(r, y); }
    if y < r { YearStartMonotone(y, r); }
  }

  /** MonthFromTime: the month of year `y` holding day-of-year `doy`. */
  function MonthSearch(y: int, doy: int, m: int): (r: int)
    requires 0 <= m < 12 && DaysBeforeMonth(y, m) <= doy < DaysInYear(y)
    ensures m <= r < 12 && DaysBeforeMonth(y, r) <= doy < DaysBeforeMonth(y, r + 1)
    decreases 12 - m
  {
    MonthLengths(y, m);
    if doy < DaysBeforeMonth(y, m + 1) then m else MonthSearch(y, doy, m + 1)
  }

  lemma {:induction false} MonthSearchFinds(y: int, doy: int, k: int, m: int)
    requires 0 <= k <= m < 12
    requires DaysBeforeMonth(y, m) <= doy < DaysBeforeMonth(y, m + 1)
    requires DaysBeforeMonth(y, k) <= doy
    ensures DaysBeforeMonth(y, 12) == DaysInYear(y)
    ensures MonthSearch(y, doy, k) == m
    decreases m - k
  {
    MonthLengths(y, k);
    MonthLengths(y, m);
    if k < m {
      assert DaysBeforeMonth(y, k + 1) <= DaysBeforeMonth(y, m);
      MonthSearchFinds(y, doy, k + 1, m);
    }
  }

  /** A civil date; `month` counts from 0 as `getMonth` does. */
  datatype Civil = Civil(year: int, month: int, day: int)

  predicate ValidCivil(c: Civil) {
    0 <= c.month < 12 && 1 <= c.day <= DaysInMonth(c.year, c.month)
  }

  /** The civil date of day `t` (`getUTCFullYear`, `getUTCMonth`, `getUTCDate`). */
  function ToCivil(t: int): (c: Civil)
    ensures ValidCivil(c)
  {
    var y := YearFromDay(t);
    var doy := t - DayFromYear(y);
    NextYearStart(y);
    var m := MonthSearch(y, doy, 0);
    MonthLengths(y, m);
    Civil(y, m, doy - DaysBeforeMonth(y, m) + 1)
  }

  /** MakeDay: the day number of (year, month, date) with month and date allowed
      out of range; they roll over into neighbouring months and years. */
  function MakeDay(year: int, month: int, date: int): int {
    var ym := year + month / 12;
    var mn := month % 12;
    DayFromYear(ym) + DaysBeforeMonth(ym, mn) + date - 1
  }

  /** MakeDay of an in-range month needs no year carry. */
  lemma MakeDayInRange(y: int, m: int, d: int)
    requires 0 <= m < 12
    ensures MakeDay(y, m, d) == DayFromYear(y) + DaysBeforeMonth(y, m) + d - 1
  {
    SmallMonth(m);
  }

  /** Reading a day's civil date and building it again gives the same day. */
  lemma ToCivilRoundTrip(t: int)
    ensures MakeDay(ToCivil(t).year, ToCivil(t).month, ToCivil(t).day) == t
  {
    var c := ToCivil(t);
    var y := YearFromDay(t);
    NextYearStart(y);
    var doy := t - DayFromYear(y);
    assert 0 <= doy < DaysInYear(y);
    assert DaysBeforeMonth(y, 0) == 0;
    var m := MonthSearch(y, doy, 0);
    assert c == Civil(y, m, doy - DaysBeforeMonth(y, m) + 1);
    MakeDayInRange(y, m, c.day);
  }

  /** A valid civil date reads back unchanged. */
  lemma CivilOfMakeDay(y: int, m: int, d: int)
    requires ValidCivil(Civil(y, m, d))
    ensures ToCivil(MakeDay(y, m, d)) == Civil(y, m, d)
  {
    var t := MakeDay(y, m, d);
    SmallMonth(m);
    assert t == DayFromYear(y) + DaysBeforeMonth(y, m) + d - 1;
    MonthLengths(y, m);
    MonthLengths(y, 11);
    assert DaysBeforeMonth(y, m + 1) <= DaysBeforeMonth(y, 12) by {
      if m + 1 < 12 { MonthLengths(y, m + 1); }
    }
    NextYearStart(y);
    YearFromDayUnique(t, y);
    MonthSearchFinds(y, t - DayFromYear(y), 0, m);
  }

  /** Month and date fields may be normalised before calling MakeDay. */
  lemma MakeDayNormalise(y: int, m: int, d: int)
    ensures MakeDay(y, m, d) == MakeDay(y + m / 12, m % 12, d)
    ensures MakeDay(y, m, d) == MakeDay(y, m, 1) + d - 1
  {
  }

  /** The first of the next month comes one month-length after the first of
      this one, whatever `m` is. */
  lemma NextMonthStart(y: int, m: int)
    ensures MakeDay(y, m + 1, 1) == MakeDay(y, m, 1) + DaysInMonth(y + m / 12, m % 12)
  {
    var ym := y + m / 12;
    MonthLengths(ym, m % 12);
    if m % 12 == 11 {
      assert (m + 1) / 12 == m / 12 + 1 && (m + 1) % 12 == 0;
      NextYearStart(ym);
    } else {
      assert (m + 1) / 12 == m / 12 && (m + 1) % 12 == m % 12 + 1;
    }
  }

  /** WeekDay: 0 is Sunday, 1 is Monday. */
  function WeekDay(t: int): (w: int)
    ensures 0 <= w < 7
  {
    (t + 4) % 7
  }

  /** `getDate()`. */
  function GetDate(t: int): int { ToCivil(t).day }

  /** `getMonth()`. */
  function GetMonth(t: int): int { ToCivil(t).month }

  /** `getFullYear()`. */
  function GetFullYear(t: int): int { ToCivil(t).year }

  /** `setDate(d)`: keeps year and month, rolls over out-of-range days. */
  function SetDate(t: int, d: int): int {
    MakeDay(GetFullYear(t), GetMonth(t), d)
  }

  /** `setMonth(m)`: keeps year and day of month, rolls over out-of-range fields. */
  function SetMonth(t: int, m: int): int {
    MakeDay(GetFullYear(t), m, GetDate(t))
  }

  /** A day is its month's first day plus its date minus one. */
  lemma DateParts(t: int)
    ensures ValidCivil(ToCivil(t))
    ensures t == MakeDay(GetFullYear(t), GetMonth(t), 1) + GetDate(t) - 1
  {
    ToCivilRoundTrip(t);
    MakeDayNormalise(GetFullYear(t), GetMonth(t), GetDate(t));
  }

  /** `setDate(d)` moves a date by `d - getDate()` days, whatever `d` is. */
  lemma SetDateMoves(t: int, d: int)
    ensures SetDate(t, d) == t - GetDate(t) + d
  {
    DateParts(t);
    MakeDayNormalise(GetFullYear(t), GetMonth(t), d);
  }

  /** Setting the day of the month `k` lower moves a date back by `k` days. */
  lemma SetDateBack(t: int, k: int)
    ensures SetDate(t, GetDate(t) - k) == t - k
  {
    SetDateMoves(t, GetDate(t) - k);
  }

  /** `setMonth(getMonth() + 1)` moves a date forward by its month's length. */
  lemma MonthAhead(t: int)
    ensures SetMonth(t, GetMonth(t) + 1) == t + DaysInMonth(GetFullYear(t), GetMonth(t))
  {
    DateParts(t);
    NextMonthDay(GetFullYear(t), GetMonth(t), GetDate(t));
  }

  /** Day `d` of the month after month `m`, counted from the first of month `m`. */
  lemma NextMonthDay(y: int, m: int, d: int)
    requires 0 <= m < 12
    ensures MakeDay(y, m + 1, d) == MakeDay(y, m, 1) + DaysInMonth(y, m) + d - 1
  {
    SmallMonth(m);
    assert y + m / 12 == y && m % 12 == m;
    NextMonthStart(y, m);
    MakeDayNormalise(y, m + 1, d);
  }

  /** The year and month before month `m` of year `y`. */
  function PrevYear(y: int, m: int): int { y + (m - 1) / 12 }
  function PrevMonth(m: int): (r: int)
    ensures 0 <= r < 12
  {
    (m - 1) % 12
  }

  /** Day `d` of the month before month `m`, counted back from the first of
      month `m`. */
  lemma PrevMonthDay(y: int, m: int, d: int)
    requires 0 <= m < 12
    ensures MakeDay(y, m - 1, d) == MakeDay(y, m, 1) - DaysInMonth(PrevYear(y, m), PrevMonth(m)) + d - 1
    ensures MakeDay(y, m - 1, d) == MakeDay(PrevYear(y, m), PrevMonth(m), d)
  {
    if m == 0 {
      assert (m - 1) / 12 == -1 && (m - 1) % 12 == 11;
      MonthLengths(y - 1, 11);
      NextYearStart(y - 1);
    } else {
      assert (m - 1) / 12 == 0 && (m - 1) % 12 == m - 1;
      MonthLengths(y, m - 1);
    }
  }

  /** `setMonth(getMonth() - 1)` moves a date back by the previous month's
      length. */
  lemma MonthBack(t: int)
    ensures SetMonth(t, GetMonth(t) - 1)
         == t - DaysInMonth(PrevYear(GetFullYear(t), GetMonth(t)), PrevMonth(GetMonth(t)))
  {
    var y, m, d := GetFullYear(t), GetMonth(t), GetDate(t);
    DateParts(t);
    PrevMonthDay(y, m, d);
  }

  /** When the date exists in the previous month, `setMonth(getMonth() - 1)`
      lands on it. */
  lemma MonthBackDate(t: int)
    requires GetDate(t) <= DaysInMonth(PrevYear(GetFullYear(t), GetMonth(t)), PrevMonth(GetMonth(t)))
    ensures ToCivil(SetMonth(t, GetMonth(t) - 1))
         == Civil(PrevYear(GetFullYear(t), GetMonth(t)), PrevMonth(GetMonth(t)), GetDate(t))
  {
    var y, m, d := GetFullYear(t), GetMonth(t), GetDate(t);
    DateParts(t);
    PrevMonthDay(y, m, d);
    CivilOfMakeDay(PrevYear(y, m), PrevMonth(m), d);
  }

  /** Going back `(getDay() + 6) % 7` days lands on a Monday. */
  lemma MondayBefore(t: int)
    ensures WeekDay(t - (WeekDay(t) + 6) % 7) == 1
  {
    var w := WeekDay(t);
    var q := (t + 4) / 7;
    assert t + 4 == 7 * q + w;
    var diff := (w + 6) % 7;
    if w == 0 {
      assert diff == 6;
      assert t - diff + 4 == 7 * (q - 1) + 1;
    } else {
      assert diff == w - 1;
      assert t - diff + 4 == 7 * q + 1;
    }
  }

  /** `Date.UTC` maps the years 0 to 99 onto 1900 to 1999. */
  function UtcYear(y: int): int {
    if 0 <= y <= 99 then 1900 + y else y
  }

  /** `Date.UTC(y, m, d)` at midnight, as a day number. */
  function DateUtc(y: int, m: int, d: int): int {
    MakeDay(UtcYear(y), m, d)
  }
}
