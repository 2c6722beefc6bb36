// Civil dates on day numbers. Day 0 is Monday, 1 January of the year 1, which is also the
// day of the zero time. An instant is a number of nanoseconds since its beginning.

module Calendar {
  type Time = nat

  const ZERO_TIME: Time := 0
  const UNIX_ZERO: Time := 62_135_596_800_000_000_000

  // The day an instant falls on, at 86 400 seconds of a thousand million nanoseconds a day.
  function Day(t: Time): nat {
    t / 86_400_000_000_000
  }

  // The first instant of a day.
  function Midnight(d: nat): Time {
    d * 86_400_000_000_000
  }

  lemma DayMonotone(t: Time, u: Time)
    requires t <= u
    ensures Day(t) <= Day(u)
  {
  }

  // ----- years -----

  predicate Leap(y: nat) {
    y % 4 == 0 && (y % 100 != 0 || y % 400 == 0)
  }

  function YearLength(y: nat): nat {
    if Leap(y) then 366 else 365
  }

  // The day number of 1 January.
  function YearStart(y: nat): nat
    requires y > 0
  {
    365 * (y - 1) + (y - 1) / 4 - (y - 1) / 100 + (y - 1) / 400
  }

  // Every fourth year is counted in, every hundredth out, every four hundredth in.
  lemma Fourths(y: nat)
    requires y > 0
    ensures y / 4 == (y - 1) / 4 + if y % 4 == 0 then 1 else 0
  {
  }

  lemma Hundredths(y: nat)
    requires y > 0
    ensures y / 100 == (y - 1) / 100 + if y % 100 == 0 then 1 else 0
  {
  }

  lemma FourHundredths(y: nat)
    requires y > 0
    ensures y / 400 == (y - 1) / 400 + if y % 400 == 0 then 1 else 0
  {
  }

  lemma Divisors(y: nat)
    ensures y % 400 == 0 ==> y % 100 == 0
    ensures y % 100 == 0 ==> y % 4 == 0
  {
    assert y % 400 == 0 ==> y == 100 * (4 * (y / 400));
    assert y % 100 == 0 ==> y == 4 * (25 * (y / 100));
  }

  lemma YearStartNext(y: nat)
    requires y > 0
    ensures YearStart(y + 1) == YearStart(y) + YearLength(y)
  {
    Fourths(y);
    Hundredths(y);
    FourHundredths(y);
    Divisors(y);
  }

  lemma {:induction false} YearStartMonotone(y: nat, z: nat)
    requires 0 < y < z
    ensures YearStart(y) + YearLength(y) <= YearStart(z)
    decreases z
  {
    hide YearStart;
    YearStartNext(z - 1);
    if y < z - 1 {
      YearStartMonotone(y, z - 1);
    }
  }

  function YearFrom(d: nat, y: nat): (r: nat)
    requires y > 0 && YearStart(y) <= d
    ensures r > 0 && YearStart(r) <= d < YearStart(r) + YearLength(r)
    decreases d - YearStart(y)
  {
    YearStartNext(y);
    if d < YearStart(y + 1) then y else YearFrom(d, y + 1)
  }

  function Year(d: nat): (r: nat)
    ensures r > 0 && YearStart(r) <= d < YearStart(r) + YearLength(r)
  {
    YearFrom(d, 1)
  }

  // The year of a day is the only one whose days include it.
  lemma YearUnique(d: nat, y: nat)
    requires y > 0 && YearStart(y) <= d < YearStart(y) + YearLength(y)
    ensures Year(d) == y
  {
    if Year(d) < y {
      YearStartMonotone(Year(d), y);
    } else if y < Year(d) {
      YearStartMonotone(y, Year(d));
    }
  }

  lemma YearMonotone(d: nat, e: nat)
    requires d <= e
    ensures Year(d) <= Year(e)
  {
    if Year(e) < Year(d) {
      YearStartMonotone(Year(e), Year(d));
    }
  }

  function YearDay(d: nat): (r: nat)
    ensures r < YearLength(Year(d))
  {
    d - YearStart(Year(d))
  }

  // Four hundred years are 146 097 days, whole weeks.
  lemma FourCenturies(y: nat)
    requires y > 0
    ensures YearStart(y + 400) == YearStart(y) + 146_097 && 146_097 % 7 == 0
  {
    FourCenturiesDivided(y - 1);
    YearStartIs(y);
    YearStartIs(y + 400);
    hide *;
  }

  lemma YearStartIs(y: nat)
    requires y > 0
    ensures YearStart(y) == 365 * (y - 1) + (y - 1) / 4 - (y - 1) / 100 + (y - 1) / 400
  {
  }

  lemma FourCenturiesDivided(n: nat)
    ensures (n + 400) / 4 == n / 4 + 100 && (n + 400) / 100 == n / 100 + 4 && (n + 400) / 400 == n / 400 + 1
  {
    hide *;
  }

  // ----- months -----

  function MonthLength(y: nat, m: nat): (r: nat)
    requires 1 <= m <= 12
    ensures 28 <= r <= 31
  {
    if m == 2 then (if Leap(y) then 29 else 28)
    else if m == 4 || m == 6 || m == 9 || m == 11 then 30
    else 31
  }

  // Odd and even months take turns, the other way round from August on; February has 28 or 29.
  lemma MonthTable(y: nat, m: nat)
    requires 1 <= m <= 12
    ensures m != 2 ==> MonthLength(y, m) == 30 + (m + m / 8) % 2
    ensures m == 2 ==> MonthLength(y, m) == 28 + if y % 400 == 0 || (y % 4 == 0 && y % 100 != 0) then 1 else 0
  {
    Divisors(y);
  }

  // How many days of the year precede a month; month 13 is the end of the year.
  function DaysBefore(y: nat, m: nat): nat
    requires 1 <= m <= 13
  {
    (if m > 2 && Leap(y) then 1 else 0) +
    match m
    case 1 => 0
    case 2 => 31
    case 3 => 59
    case 4 => 90
    case 5 => 120
    case 6 => 151
    case 7 => 181
    case 8 => 212
    case 9 => 243
    case 10 => 273
    case 11 => 304
    case 12 => 334
    case 13 => 365
  }

  lemma DaysBeforeNext(y: nat, m: nat)
    requires 1 <= m <= 12
    ensures DaysBefore(y, m + 1) == DaysBefore(y, m) + MonthLength(y, m)
    ensures DaysBefore(y, 1) == 0 && DaysBefore(y, 13) == YearLength(y)
  {
    hide Leap;
  }

  lemma {:induction false} DaysBeforeMonotone(y: nat, m: nat, n: nat)
    requires 1 <= m < n <= 13
    ensures DaysBefore(y, m) + MonthLength(y, m) <= DaysBefore(y, n)
    decreases n
  {
    hide DaysBefore, MonthLength;
    DaysBeforeNext(y, n - 1);
    if m < n - 1 {
      DaysBeforeMonotone(y, m, n - 1);
    }
  }

  function MonthFrom(y: nat, yd: nat, m: nat): (r: nat)
    requires 1 <= m <= 12 && DaysBefore(y, m) <= yd < YearLength(y)
    ensures 1 <= r <= 12 && DaysBefore(y, r) <= yd < DaysBefore(y, r) + MonthLength(y, r)
    decreases 12 - m
  {
    DaysBeforeNext(y, m);
    if yd < DaysBefore(y, m + 1) then m else MonthFrom(y, yd, m + 1)
  }

  // Year, month and day as the standard library's Date method returns them.
  datatype Date = Date(year: nat, month: nat, day: nat)
  {
    predicate Valid() {
      year > 0 && 1 <= month <= 12 && 1 <= day <= MonthLength(year, month)
    }
  }

  // The first day of a month; month 13 is January of the next year.
  function MonthStart(y: nat, m: nat): nat
    requires y > 0 && 1 <= m <= 13
  {
    YearStart(y) + DaysBefore(y, m)
  }

  function DateOf(d: nat): (r: Date)
    ensures r.Valid() && r.year == Year(d)
    ensures MonthStart(r.year, r.month) + r.day == d + 1
  {
    var m := MonthFrom(Year(d), YearDay(d), 1);
    Date(Year(d), m, YearDay(d) - DaysBefore(Year(d), m) + 1)
  }

  function DayNumber(r: Date): nat
    requires r.Valid()
  {
    MonthStart(r.year, r.month) + r.day - 1
  }

  // Day numbers and valid dates correspond one to one.
  lemma DateRoundTrip(r: Date)
    requires r.Valid()
    ensures DateOf(DayNumber(r)) == r
  {
    hide YearStart, MonthLength, DaysBefore, YearLength, MonthFrom;
    var d := DayNumber(r);
    DaysBeforeNext(r.year, r.month);
    if r.month < 12 {
      DaysBeforeMonotone(r.year, r.month, 13);
    }
    YearUnique(d, r.year);
    var m := DateOf(d).month;
    if m < r.month {
      DaysBeforeMonotone(r.year, m, r.month);
    } else if r.month < m {
      DaysBeforeMonotone(r.year, r.month, m);
    }
  }

  lemma DayRoundTrip(d: nat)
    ensures DayNumber(DateOf(d)) == d
  {
  }

  // Months counted from the beginning.
  function MonthIndex(d: nat): nat {
    12 * DateOf(d).year + DateOf(d).month - 1
  }

  lemma SameMonth(d: nat, e: nat)
    ensures MonthIndex(d) == MonthIndex(e) <==>
            DateOf(d).year == DateOf(e).year && DateOf(d).month == DateOf(e).month
  {
    hide DateOf, YearStart, MonthStart, MonthLength;
    var p, q := DateOf(d), DateOf(e);
    assert 1 <= p.month <= 12 && 1 <= q.month <= 12;
    TwelveMonths(p.year, p.month, q.year, q.month);
  }

  lemma TwelveMonths(y: nat, m: nat, z: nat, n: nat)
    requires 1 <= m <= 12 && 1 <= n <= 12
    ensures 12 * y + m == 12 * z + n <==> y == z && m == n
  {
    hide *;
  }

  lemma MonthMonotone(d: nat, e: nat)
    requires d <= e
    ensures MonthIndex(d) <= MonthIndex(e)
  {
    hide YearStart, MonthLength, DaysBefore, MonthFrom;
    YearMonotone(d, e);
    var p, n := DateOf(d), DateOf(e);
    if p.year == n.year && n.month < p.month {
      DaysBeforeMonotone(p.year, n.month, p.month);
    }
  }

  // The first day of the month after a day's month.
  function NextMonthStart(d: nat): nat {
    MonthStart(DateOf(d).year, DateOf(d).month + 1)
  }

  lemma NextMonthStartDate(d: nat)
    ensures NextMonthStart(d) == d + 1 - DateOf(d).day + MonthLength(DateOf(d).year, DateOf(d).month)
    ensures var p := DateOf(d);
      DateOf(NextMonthStart(d)) == if p.month < 12 then Date(p.year, p.month + 1, 1) else Date(p.year + 1, 1, 1)
    ensures MonthIndex(NextMonthStart(d)) == MonthIndex(d) + 1 && d < NextMonthStart(d)
  {
    hide YearStart, MonthLength, DaysBefore, YearLength, MonthFrom, DateOf;
    var p := DateOf(d);
    DaysBeforeNext(p.year, p.month);
    DaysBeforeNext(p.year + 1, 1);
    YearStartNext(p.year);
    DateRoundTrip(if p.month < 12 then Date(p.year, p.month + 1, 1) else Date(p.year + 1, 1, 1));
  }

  // AddDate(0, 1, 0): the same day of the next month, running over into the month after it
  // when that month is too short.
  function AddMonth(d: nat): nat {
    NextMonthStart(d) + DateOf(d).day - 1
  }

  // It lands in the next month unless the day does not exist there.
  lemma AddMonthLands(d: nat)
    ensures var n := NextMonthStart(d);
      MonthIndex(AddMonth(d)) == MonthIndex(d) + 1 <==>
      DateOf(d).day <= MonthLength(DateOf(n).year, DateOf(n).month)
  {
    hide YearStart, MonthLength, DaysBefore, YearLength, DateOf, NextMonthStart;
    NextMonthStartDate(d);
    var first := NextMonthStart(d);
    var n := DateOf(first);
    var k := DateOf(d).day;
    if k <= MonthLength(n.year, n.month) {
      DateRoundTrip(Date(n.year, n.month, k));
      assert DayNumber(Date(n.year, n.month, k)) == AddMonth(d);
    } else {
      NextMonthStartDate(first);
      MonthMonotone(NextMonthStart(first), AddMonth(d));
    }
  }

  // ----- ISO weeks (ISO 8601:2004, section 4.1.4) -----

  // A week belongs to the year its Thursday is in, and weeks are numbered by Thursdays.
  function Thursday(d: nat): nat {
    d - d % 7 + 3
  }

  datatype Week = Week(year: nat, week: nat)

  function ISOWeek(d: nat): Week {
    Week(Year(Thursday(d)), YearDay(Thursday(d)) / 7 + 1)
  }

  lemma SevenDays(a: nat, b: nat, i: nat, j: nat)
    requires a / 7 == b / 7 && a - b == 7 * (i - j)
    ensures i == j
  {
    hide *;
    assert a == 7 * (a / 7) + a % 7 && b == 7 * (b / 7) + b % 7;
    assert -7 < a - b < 7;
  }

  lemma ThursdayOfWeek(d: nat)
    ensures Thursday(d) == 7 * (d / 7) + 3
  {
    hide *;
    ThursdayIs(d);
    assert d == 7 * (d / 7) + d % 7;
  }

  lemma ThursdayIs(d: nat)
    ensures Thursday(d) == d - d % 7 + 3
  {
  }

  lemma YearDayIs(d: nat)
    ensures YearDay(d) == d - YearStart(Year(d))
  {
    hide YearStart, Year;
  }

  // Two days have the same ISO week and week year exactly when no Monday separates them.
  lemma SameWeek(d: nat, e: nat)
    ensures ISOWeek(d) == ISOWeek(e) <==> d / 7 == e / 7
  {
    hide YearStart, YearLength, Year, YearDay, Thursday;
    var s, t := Thursday(d), Thursday(e);
    ThursdayOfWeek(d);
    ThursdayOfWeek(e);
    YearDayIs(s);
    YearDayIs(t);
    if ISOWeek(d) == ISOWeek(e) {
      SevenDays(YearDay(s), YearDay(t), d / 7, e / 7);
    }
  }

  // ----- fixed points -----

  // Day 0 is Monday, 1 January of the year 1.
  lemma TheBeginning()
    ensures DateOf(0) == Date(1, 1, 1) && Thursday(0) == 3
  {
    hide YearStart, DateOf, Thursday, DaysBefore;
    YearStartIs(1);
    DaysBeforeNext(1, 1);
    DateRoundTrip(Date(1, 1, 1));
    ThursdayIs(0);
  }

  // The Unix zero time is midnight of Thursday, 1 January 1970.
  lemma UnixEpoch()
    ensures var d := Day(UNIX_ZERO);
      && UNIX_ZERO == Midnight(d) && DateOf(d) == Date(1970, 1, 1) && Thursday(d) == d
  {
    hide DateOf, Thursday, Day, Midnight;
    UnixDay();
    UnixDate();
    ThursdayIs(719_162);
  }

  lemma UnixDay()
    ensures Day(UNIX_ZERO) == 719_162 && UNIX_ZERO == Midnight(719_162)
  {
  }

  lemma UnixDate()
    ensures DateOf(719_162) == Date(1970, 1, 1)
  {
    YearStartIs(1970);
    DateRoundTrip(Date(1970, 1, 1));
    hide YearStart, DateOf;
  }

  // 29 February 2000 was a Tuesday, in the ninth week of its year.
  lemma LeapDay()
    ensures DateOf(730_178) == Date(2000, 2, 29)
    ensures Thursday(730_178) == 730_180 && ISOWeek(730_178) == Week(2000, 9)
  {
    YearStartIs(2000);
    assert YearStart(2000) == 730_119;
    DateRoundTrip(Date(2000, 2, 29));
    ThursdayIs(730_178);
    YearUnique(730_180, 2000);
    hide YearStart, DateOf, Year, Thursday;
  }
}
