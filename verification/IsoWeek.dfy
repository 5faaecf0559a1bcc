/**
  The ISO 8601 week of a date, fmt/bundled/chrono.h.  A week runs from Monday to Sunday and
  belongs to the year that holds its Thursday (section 2.2.10 of ISO 8601:2004).
*/
module IsoWeek {
  import opened Division

  // ---------------------------------------------------------------------------------------
  // The proleptic Gregorian calendar: days are numbered from Monday, 1 January of year 1

  predicate IsLeap(year: int) {
    year % 4 == 0 && (year % 100 != 0 || year % 400 == 0)
  }

  function YearLength(year: int): nat { if IsLeap(year) then 366 else 365 }

  /** Number of 1 January, counted year by year. */
  function FirstDay(year: int): int
    decreases if year > 1 then year - 1 else 1 - year
  {
    if year > 1 then FirstDay(year - 1) + YearLength(year - 1)
    else if year < 1 then FirstDay(year + 1) - YearLength(year)
    else 0
  }

  lemma FirstDayAdvances(year: int)
    ensures FirstDay(year + 1) == FirstDay(year) + YearLength(year)
  {
  }

  function LeapYears(year: int): int { year / 4 - year / 100 + year / 400 }

  lemma LeapStep(year: int)
    ensures LeapYears(year) == LeapYears(year - 1) + YearLength(year) - 365
  {
    QuotientStep(year, 4);
    QuotientStep(year, 100);
    QuotientStep(year, 400);
    Centuries(year);
  }

  lemma Centuries(year: int)
    ensures year % 400 == 0 ==> year % 100 == 0
    ensures year % 100 == 0 ==> year % 4 == 0
  {
    DivModUnique(year, 100, 4 * (year / 400) + year % 400 / 100, year % 100);
    if year % 100 == 0 {
      DivModUnique(year, 4, 25 * (year / 100), 0);
    }
  }

  /** The count in closed form. */
  lemma {:induction false} FirstDayCloses(year: int)
    ensures FirstDay(year) == 365 * (year - 1) + LeapYears(year - 1)
    decreases if year > 1 then year - 1 else 1 - year
  {
    hide LeapYears, YearLength;
    if year > 1 {
      FirstDayCloses(year - 1);
      LeapStep(year - 1);
    } else if year < 1 {
      FirstDayCloses(year + 1);
      LeapStep(year);
    } else {
      NoLeapYears();
    }
  }

  lemma NoLeapYears()
    ensures LeapYears(0) == 0
  {
  }

  lemma QuotientStep(n: int, d: int)
    requires d > 1
    ensures n / d == (n - 1) / d + (if n % d == 0 then 1 else 0)
  {
    var q, r := (n - 1) / d, (n - 1) % d;
    assert n - 1 == q * d + r;
    if r == d - 1 {
      assert n == (q + 1) * d + 0 by { assert (q + 1) * d == q * d + d; }
      DivModUnique(n, d, q + 1, 0);
    } else {
      DivModUnique(n, d, q, r + 1);
    }
  }

  /** Thursdays among the days from `lo` up to `hi`, one by one. */
  function Thursdays(lo: int, hi: int): nat
    requires lo <= hi
    decreases hi - lo
  {
    if lo == hi then 0
    else Thursdays(lo, hi - 1) + (if (hi - 1) % 7 == 3 then 1 else 0)
  }

  lemma {:induction false} ThursdaysBetween(lo: int, hi: int)
    requires lo <= hi
    ensures Thursdays(lo, hi) == (hi + 3) / 7 - (lo + 3) / 7
    decreases hi - lo
  {
    if lo == hi {
    } else {
      ThursdaysBetween(lo, hi - 1);
    }
  }

  /** The number of ISO weeks of a year is the number of its Thursdays. */
  function Weeks(year: int): nat {
    FirstDayAdvances(year);
    Thursdays(FirstDay(year), FirstDay(year + 1))
  }

  /** A date as std::tm holds it; tm_wday counts from Sunday, tm_yday from 0. */
  datatype Date = Date(year: int, yday: nat, wday: nat)

  function DayNumber(d: Date): int { FirstDay(d.year) + d.yday }

  ghost predicate IsReal(d: Date) {
    d.yday < YearLength(d.year) && d.wday == (DayNumber(d) + 1) % 7
  }

  /** The Thursday of the Monday-to-Sunday week of a day. */
  function ThursdayOf(day: int): int { day - day % 7 + 3 }

  /** `week` of `year` is the one of this Thursday: it falls into the year, and is its week-th. */
  ghost predicate IsWeekOf(thursday: int, year: int, week: int) {
    && FirstDay(year) <= thursday < FirstDay(year + 1)
    && week == Thursdays(FirstDay(year), thursday + 1)
  }

  // ---------------------------------------------------------------------------------------
  // The functions of the source; long long division truncates toward zero

  function TruncDiv(a: int, b: int): int
    requires b > 0
    decreases if a >= 0 then a else -a
  {
    if a >= b then TruncDiv(a - b, b) + 1
    else if a <= -b then TruncDiv(a + b, b) - 1
    else 0
  }

  function TruncMod(a: int, b: int): int
    requires b > 0
    decreases if a >= 0 then a else -a
  {
    if a >= b then TruncMod(a - b, b)
    else if a <= -b then TruncMod(a + b, b)
    else a
  }

  /** Truncation is the floor from 0 on, and symmetric. */
  lemma {:induction false} Truncation(a: int, b: int)
    requires a >= 0 && b > 0
    ensures TruncDiv(a, b) == a / b && TruncDiv(-a, b) == -(a / b)
    ensures TruncMod(a, b) == a % b && TruncMod(-a, b) == -(a % b)
  {
    if a >= b {
      Truncation(a - b, b);
      var q, r := (a - b) / b, (a - b) % b;
      assert (q + 1) * b == q * b + b;
      DivModUnique(a, b, q + 1, r);
    } else {
      DivModUnique(a, b, 0, a);
    }
  }

  function P(year: int): int {
    TruncMod(year + TruncDiv(year, 4) - TruncDiv(year, 100) + TruncDiv(year, 400), 7)
  }

  function IsoYearWeeks(year: int): int {
    52 + (if P(year) == 4 || P(year - 1) == 3 then 1 else 0)
  }

  function IsoWeekNum(yday: int, wday: int): int {
    TruncDiv(yday + 11 - (if wday == 0 then 7 else wday), 7)
  }

  function IsoWeekYear(d: Date): int {
    var w := IsoWeekNum(d.yday, d.wday);
    if w < 1 then d.year - 1 else if w > IsoYearWeeks(d.year) then d.year + 1 else d.year
  }

  function IsoWeekOfYear(d: Date): int {
    var w := IsoWeekNum(d.yday, d.wday);
    if w < 1 then IsoYearWeeks(d.year - 1) else if w > IsoYearWeeks(d.year) then 1 else w
  }

  // ---------------------------------------------------------------------------------------
  // iso_year_weeks

  /** In years from 0 on, P is the weekday of 31 December. */
  lemma PIsWeekday(year: int)
    requires year >= 0
    ensures P(year) == FirstDay(year + 1) % 7
  {
    hide P, FirstDay, LeapYears;
    FirstDayCloses(year + 1);
    PWithoutTruncation(year);
    SameRemainder(year + LeapYears(year), 52 * year);
  }

  lemma PWithoutTruncation(year: int)
    requires year >= 0
    ensures P(year) == (year + LeapYears(year)) % 7
  {
    hide TruncDiv, TruncMod;
    Truncation(year, 4);
    Truncation(year, 100);
    Truncation(year, 400);
    assert year / 4 >= year / 100;
    Truncation(year + LeapYears(year), 7);
  }

  lemma SameRemainder(a: int, k: int)
    ensures (a + 7 * k) % 7 == a % 7
  {
    DivModUnique(a + 7 * k, 7, a / 7 + k, a % 7);
  }

  /** Before year 0, truncation makes P negative or zero. */
  lemma PIsNotPositive(year: int)
    requires year <= 0
    ensures P(year) <= 0
  {
    hide TruncDiv, TruncMod;
    Truncation(-year, 4);
    Truncation(-year, 100);
    Truncation(-year, 400);
    assert (-year) / 4 >= (-year) / 100;
    Truncation(-year + LeapYears(-year), 7);
  }

  /** The first or the last day of the year is a Thursday. */
  predicate StartsOrEndsOnThursday(year: int) {
    FirstDay(year) % 7 == 3 || FirstDay(year + 1) % 7 == 4
  }

  /** These are the years with 53 Thursdays. */
  lemma LongYears(year: int)
    ensures Weeks(year) == if StartsOrEndsOnThursday(year) then 53 else 52
  {
    FirstDayAdvances(year);
    var a, b := FirstDay(year), FirstDay(year + 1);
    hide FirstDay, IsLeap;
    ThursdaysBetween(a, b);
  }

  /** iso_year_weeks is the number of weeks for every year from 1 on.  For the years up to 0 it
      answers 52, which is right unless the year starts or ends on a Thursday. */
  lemma IsoYearWeeksIff(year: int)
    ensures IsoYearWeeks(year) == Weeks(year) <==> year > 0 || !StartsOrEndsOnThursday(year)
    ensures year <= 0 ==> IsoYearWeeks(year) == 52
  {
    hide P, FirstDay, Weeks;
    LongYears(year);
    if year > 0 {
      PIsWeekday(year);
      PIsWeekday(year - 1);
    } else {
      PIsNotPositive(year);
      PIsNotPositive(year - 1);
    }
  }

  // ---------------------------------------------------------------------------------------
  // The week of a date

  /** Where the Thursday lies, by the week number the source computes. */
  lemma WeekNumber(d: Date)
    requires IsReal(d)
    ensures var t := ThursdayOf(DayNumber(d)) - FirstDay(d.year);
            IsoWeekNum(d.yday, d.wday) == (t + 7) / 7 && -3 <= t < YearLength(d.year) + 3
  {
    hide FirstDay, IsLeap, IsoWeekNum, ThursdayOf;
    WeekNumberInYear(FirstDay(d.year), d.yday, d.wday);
  }

  lemma WeekNumberInYear(first: int, yday: nat, wday: nat)
    requires wday == (first + yday + 1) % 7
    ensures var t := ThursdayOf(first + yday) - first;
            IsoWeekNum(yday, wday) == (t + 7) / 7 && yday - 3 <= t <= yday + 3
  {
    var q, r := (first + yday) / 7, (first + yday) % 7;
    if r < 6 {
      DivModUnique(first + yday + 1, 7, q, r + 1);
    } else {
      DivModUnique(first + yday + 1, 7, q + 1, 0);
    }
    assert (if wday == 0 then 7 else wday) == r + 1;
    Truncation(yday + 10 - r, 7);
    hide TruncDiv, TruncMod;
  }

  /** Weeks before, within and after a year that starts on day `a` and ends before day `b`; the
      year before starts on day `z`. */
  lemma WeekArithmetic(t: int, z: int, a: int, b: int, w: int)
    requires t % 7 == 3 && -3 <= t - a < b - a + 3 && w == (t - a + 7) / 7
    requires a >= z + 365 && b >= a + 365
    ensures w < 1 ==> z <= t < a && Thursdays(z, t + 1) == Thursdays(z, a)
    ensures 1 <= w <= Thursdays(a, b) ==> a <= t < b && Thursdays(a, t + 1) == w
    ensures w > Thursdays(a, b) ==> b <= t < b + 7 && Thursdays(b, t + 1) == 1
  {
    hide Thursdays;
    if w < 1 {
      ThursdaysBetween(z, a);
      ThursdaysBetween(z, t + 1);
    } else if t < b {
      ThursdaysBetween(a, t + 1);
      ThursdaysBetween(a, b);
    } else {
      ThursdaysBetween(a, b);
      ThursdaysBetween(b, t + 1);
    }
  }

  /** The Thursday is the last of the year before, the w-th of the year, or the first of the year
      after. */
  lemma WeekOfThursday(d: Date)
    requires IsReal(d)
    ensures var w, t := IsoWeekNum(d.yday, d.wday), ThursdayOf(DayNumber(d));
            && (w < 1 ==> IsWeekOf(t, d.year - 1, Weeks(d.year - 1)))
            && (1 <= w <= Weeks(d.year) ==> IsWeekOf(t, d.year, w))
            && (w > Weeks(d.year) ==> IsWeekOf(t, d.year + 1, 1))
  {
    var w, t := IsoWeekNum(d.yday, d.wday), ThursdayOf(DayNumber(d));
    WeekNumber(d);
    FirstDayAdvances(d.year - 1);
    FirstDayAdvances(d.year);
    FirstDayAdvances(d.year + 1);
    ThursdayIsThursday(DayNumber(d));
    hide FirstDay, IsLeap, IsoWeekNum, Thursdays, ThursdayOf, DayNumber, IsReal;
    WeekArithmetic(t, FirstDay(d.year - 1), FirstDay(d.year), FirstDay(d.year + 1), w);
  }

  lemma ThursdayIsThursday(day: int)
    ensures ThursdayOf(day) % 7 == 3
  {
  }

  lemma {:induction false} FirstDayGrows(y: int, z: int)
    requires y <= z
    ensures FirstDay(y) <= FirstDay(z)
    decreases z - y
  {
    if y == z {
    } else {
      FirstDayGrows(y, z - 1);
      FirstDayAdvances(z - 1);
    }
  }

  /** A Thursday belongs to one week of one year. */
  lemma WeekIsUnique(t: int, y: int, w: int, y': int, w': int)
    requires IsWeekOf(t, y, w) && IsWeekOf(t, y', w')
    ensures y == y' && w == w'
  {
    if y < y' {
      FirstDayGrows(y + 1, y');
    } else if y' < y {
      FirstDayGrows(y' + 1, y);
    }
  }

  /** The week number lies between 1 and the number of weeks. */
  lemma WeekInRange(t: int, y: int, w: int)
    requires IsWeekOf(t, y, w) && t % 7 == 3
    ensures 1 <= w <= Weeks(y)
  {
    var a, b := FirstDay(y), FirstDay(y + 1);
    ThursdaysBetween(a, t + 1);
    ThursdaysBetween(a, b);
    assert Weeks(y) == Thursdays(a, b);
    hide FirstDay, Weeks, Thursdays;
  }

  /** Every date has a week, and its number is one the year has. */
  lemma WeekOfDate(d: Date) returns (year: int, week: int)
    requires IsReal(d)
    ensures IsWeekOf(ThursdayOf(DayNumber(d)), year, week)
    ensures 1 <= week <= Weeks(year)
  {
    hide IsWeekOf, IsReal, DayNumber, ThursdayOf, Weeks, IsoWeekNum;
    var w, t := IsoWeekNum(d.yday, d.wday), ThursdayOf(DayNumber(d));
    WeekOfThursday(d);
    ThursdayIsThursday(DayNumber(d));
    if w < 1 {
      year, week := d.year - 1, Weeks(d.year - 1);
    } else if w <= Weeks(d.year) {
      year, week := d.year, w;
    } else {
      year, week := d.year + 1, 1;
    }
    WeekInRange(t, year, week);
  }

  /** The Thursday of the week is one of the last days of the year, the 365th or the 366th, or
      falls into the year before, which starts or ends on a Thursday. */
  predicate InFinalWeek(d: Date) {
    var t := ThursdayOf(DayNumber(d));
    if t < FirstDay(d.year) then StartsOrEndsOnThursday(d.year - 1)
    else FirstDay(d.year) + 364 <= t < FirstDay(d.year + 1)
  }

  /** By the calendar, these are the dates of the 53rd weeks. */
  lemma FinalWeekIs53(d: Date, year: int, week: int)
    requires IsReal(d) && IsWeekOf(ThursdayOf(DayNumber(d)), year, week)
    ensures InFinalWeek(d) <==> week == 53
  {
    hide IsReal, DayNumber, ThursdayOf, Weeks, FirstDay, StartsOrEndsOnThursday, IsoWeekNum, Thursdays;
    var t := ThursdayOf(DayNumber(d));
    WeekNumber(d);
    WeekOfThursday(d);
    ThursdayIsThursday(DayNumber(d));
    LongYears(d.year);
    LongYears(d.year - 1);
    FirstDayGrows(d.year, d.year + 1);
    if t < FirstDay(d.year) {
      WeekIsUnique(t, d.year - 1, Weeks(d.year - 1), year, week);
    } else if t < FirstDay(d.year + 1) {
      WithinTheYear(t, d.year, year, week);
    } else {
      WeekIsUnique(t, d.year + 1, 1, year, week);
    }
  }

  lemma WithinTheYear(t: int, dateYear: int, year: int, week: int)
    requires IsWeekOf(t, year, week) && FirstDay(dateYear) <= t < FirstDay(dateYear + 1) && t % 7 == 3
    ensures FirstDay(dateYear) + 364 <= t <==> week == 53
  {
    hide FirstDay, Thursdays;
    WeekIsUnique(t, dateYear, Thursdays(FirstDay(dateYear), t + 1), year, week);
    ThursdaysBetween(FirstDay(dateYear), t + 1);
    FirstDayAdvances(dateYear);
    LengthBounds(dateYear);
  }

  lemma LengthBounds(year: int)
    ensures 365 <= YearLength(year) <= 366
  {
  }

  /** For every real date of every year from 1 on, the two functions give the year and the week
      of the Thursday of its week.  In earlier years they do so exactly outside the 53rd weeks. */
  lemma IsoWeekIff(d: Date, year: int, week: int)
    requires IsReal(d)
    requires IsWeekOf(ThursdayOf(DayNumber(d)), year, week)
    ensures IsoWeekYear(d) == year && IsoWeekOfYear(d) == week <==> d.year > 0 || !InFinalWeek(d)
  {
    hide IsWeekOf, IsReal, DayNumber, ThursdayOf, Weeks, IsoYearWeeks, IsoWeekNum, FirstDay;
    hide InFinalWeek, StartsOrEndsOnThursday;
    FinalWeekIs53(d, year, week);
    var w, t := IsoWeekNum(d.yday, d.wday), ThursdayOf(DayNumber(d));
    WeekOfThursday(d);
    IsoYearWeeksIff(d.year);
    IsoYearWeeksIff(d.year - 1);
    LongYears(d.year);
    LongYears(d.year - 1);
    YearOneStartsOnMonday(d);
    if w < 1 {
      WeekIsUnique(t, d.year - 1, Weeks(d.year - 1), year, week);
    } else if w <= Weeks(d.year) {
      WeekIsUnique(t, d.year, w, year, week);
    } else {
      WeekIsUnique(t, d.year + 1, 1, year, week);
    }
  }

  /** No week of year 1 belongs to year 0. */
  lemma YearOneStartsOnMonday(d: Date)
    requires IsReal(d)
    ensures d.year == 1 ==> IsoWeekNum(d.yday, d.wday) >= 1
  {
    if d.year == 1 {
      assert FirstDay(1) == 0;
      WeekNumber(d);
      hide FirstDay, IsReal, IsoWeekNum;
    }
  }

  // ---------------------------------------------------------------------------------------
  // Back from the week to the date

  /** First day of an ISO week year: the Monday of the week of its first Thursday. */
  function FirstMonday(year: int): int { FirstDay(year) + (3 - FirstDay(year)) % 7 - 3 }

  /** Year, week and weekday (1 is Monday) determine the day. */
  lemma DayFromWeek(d: Date, year: int, week: int)
    requires IsReal(d) && IsWeekOf(ThursdayOf(DayNumber(d)), year, week)
    ensures DayNumber(d) == FirstMonday(year) + 7 * (week - 1) + (if d.wday == 0 then 7 else d.wday) - 1
  {
    hide FirstMonday, DayNumber, IsReal, IsWeekOf, ThursdayOf;
    DayOfWeek(DayNumber(d), year, week);
    WeekdayOf(d);
  }

  lemma DayOfWeek(day: int, year: int, week: int)
    requires IsWeekOf(ThursdayOf(day), year, week)
    ensures day == FirstMonday(year) + 7 * (week - 1) + day % 7
  {
    var f := FirstDay(year);
    ThursdaysBetween(f, ThursdayOf(day) + 1);
    hide FirstDay, Thursdays;
    FirstThursday(f, f / 7, f % 7);
    assert (ThursdayOf(day) + 4) / 7 == day / 7 + 1;
  }

  lemma FirstThursday(f: int, v: int, r: int)
    requires f == 7 * v + r && 0 <= r < 7
    ensures f + (3 - f) % 7 == 7 * ((f + 3) / 7) + 3
  {
    if r >= 4 {
      DivModUnique(3 - f, 7, -v - 1, 10 - r);
      DivModUnique(f + 3, 7, v + 1, r - 4);
    } else {
      DivModUnique(3 - f, 7, -v, 3 - r);
      DivModUnique(f + 3, 7, v, r + 3);
    }
  }

  lemma WeekdayOf(d: Date)
    requires IsReal(d)
    ensures DayNumber(d) % 7 == (if d.wday == 0 then 7 else d.wday) - 1
  {
    hide DayNumber, YearLength;
  }

  /** 31 December of year -2 lies in a 53rd week, and is reported in week 1 of year -1. */
  lemma NegativeYearExample()
    ensures IsReal(Date(-2, 364, 4)) && IsWeekOf(ThursdayOf(DayNumber(Date(-2, 364, 4))), -2, 53)
    ensures IsoWeekYear(Date(-2, 364, 4)) == -1 && IsoWeekOfYear(Date(-2, 364, 4)) == 1
  {
    hide FirstDay, Thursdays, DayNumber, ThursdayOf, IsReal, IsWeekOf, IsoYearWeeks, TruncDiv, TruncMod;
    NegativeYearDay();
    IsoYearWeeksIff(-2);
    Truncation(371, 7);
  }

  lemma NegativeYearDay()
    ensures IsReal(Date(-2, 364, 4)) && DayNumber(Date(-2, 364, 4)) == ThursdayOf(-732) == -732
    ensures IsWeekOf(-732, -2, 53)
  {
    assert FirstDay(-2) == -1096;
    assert FirstDay(-1) == -731;
    assert !IsLeap(-2);
    hide FirstDay, IsLeap, Thursdays;
    ThursdaysBetween(-1096, -731);
  }
}
