// The calendar counters against the plain log of samples they were computed from.

module CounterLog {
  import opened Calendar
  import opened Counters

  datatype Sample = Sample(at: Time, x: RxTx)

  function Last(log: seq<Sample>): Sample
    requires log != []
  {
    log[|log| - 1]
  }

  function Init(log: seq<Sample>): seq<Sample>
    requires log != []
  {
    log[..|log| - 1]
  }

  // The counters after a log of samples.
  function Run(log: seq<Sample>): NetCounters {
    if log == [] then NO_COUNTERS else Inc(Last(log).at, Last(log).x, Run(Init(log)))
  }

  function Sum(log: seq<Sample>): RxTx {
    if log == [] then NO_TRAFFIC else Sum(Init(log)).Plus(Last(log).x)
  }

  // The calendar periods, each numbered in the order of time.
  datatype Kind = ByYear | ByMonth | ByWeek | ByDay

  function Index(k: Kind, t: Time): nat {
    match k
    case ByYear => Year(Day(t))
    case ByMonth => MonthIndex(Day(t))
    case ByWeek => Day(t) / 7
    case ByDay => Day(t)
  }

  lemma IndexMonotone(k: Kind, t: Time, u: Time)
    requires t <= u
    ensures Index(k, t) <= Index(k, u)
  {
    hide Day, Year, MonthIndex;
    DayMonotone(t, u);
    YearMonotone(Day(t), Day(u));
    MonthMonotone(Day(t), Day(u));
  }

  // What was logged in one period.
  function SumIn(log: seq<Sample>, k: Kind, i: nat): RxTx {
    if log == [] then NO_TRAFFIC
    else if Index(k, Last(log).at) == i then SumIn(Init(log), k, i).Plus(Last(log).x)
    else SumIn(Init(log), k, i)
  }

  // Time does not run backwards, and the clock was set when the log began.
  ghost predicate Forward(log: seq<Sample>) {
    && (log != [] ==> log[0].at > ZERO_TIME)
    && forall i :: 0 < i < |log| ==> log[i - 1].at <= log[i].at
  }

  lemma {:induction false} ForwardBound(log: seq<Sample>, i: nat)
    requires Forward(log) && i < |log|
    ensures ZERO_TIME < log[i].at <= Last(log).at
    decreases |log|
  {
    if i < |log| - 1 {
      ForwardBound(Init(log), i);
    } else if i > 0 {
      ForwardBound(Init(log), i - 1);
    }
  }

  lemma {:induction false} NothingIn(log: seq<Sample>, k: Kind, i: nat)
    requires forall j :: 0 <= j < |log| ==> Index(k, log[j].at) != i
    ensures SumIn(log, k, i) == NO_TRAFFIC
    decreases |log|
  {
    hide Index;
    if log != [] {
      NothingIn(Init(log), k, i);
    }
  }

  lemma {:induction false} RunTotal(log: seq<Sample>)
    requires Forward(log)
    ensures Run(log).total == Sum(log)
    ensures log != [] ==> Run(log).update == Last(log).at
    decreases |log|
  {
    hide Turn, Day;
    if log != [] {
      RunTotal(Init(log));
      ForwardBound(log, 0);
      if |log| > 1 {
        TurnTotal(Day(Run(Init(log)).update), Day(Last(log).at), Last(log).x, Run(Init(log)));
      }
    }
  }

  lemma TurnTotal(d: nat, e: nat, x: RxTx, c: NetCounters)
    ensures Turn(d, e, x, c).total == c.total.Plus(x)
  {
    hide DateOf, MonthIndex, ISOWeek;
  }

  // ----- buckets that start afresh with their period -----

  function Bucket(k: Kind, c: NetCounters): RxTx {
    match k
    case ByYear => c.yearly
    case ByMonth => c.monthly
    case ByWeek => c.weekly
    case ByDay => c.daily
  }

  // The month has the same name as that of the last update, one year on.
  predicate YearJump(t: Time, u: Time) {
    var p, n := DateOf(Day(t)), DateOf(Day(u));
    p.year + 1 == n.year && p.month == n.month
  }

  // Years cannot be far apart within a week.
  lemma WeekYears(d: nat, e: nat)
    requires d / 7 == e / 7
    ensures !YearsApart(DateOf(d), DateOf(e)) || e < d
  {
    hide YearStart, YearLength, MonthStart, MonthFrom, MonthLength;
    if d <= e {
      YearMonotone(d, e);
      var y, z := Year(d), Year(e);
      if y + 1 < z {
        YearStartMonotone(y, y + 1);
        YearStartMonotone(y + 1, z);
        LongYear(y + 1);
      }
    }
  }

  lemma LongYear(y: nat)
    ensures YearLength(y) >= 365
  {
  }

  // One sample on one bucket. A bucket other than the monthly one is emptied exactly when
  // its period is over; the monthly one also survives a jump to the same month next year.
  lemma BucketStep(k: Kind, now: Time, x: RxTx, c: NetCounters)
    requires ZERO_TIME < c.update <= now
    ensures var same := Index(k, c.update) == Index(k, now);
      Bucket(k, Inc(now, x, c)) ==
      Keep(same || (k == ByMonth && YearJump(c.update, now)), Bucket(k, c)).Plus(x)
  {
    hide Year, MonthStart, MonthLength, YearStart, AddMonth, ISOWeek, DateOf, Day;
    var d, e := Day(c.update), Day(now);
    DayMonotone(c.update, now);
    YearMonotone(d, e);
    SameMonth(d, e);
    SameWeek(d, e);
    if d / 7 == e / 7 {
      WeekYears(d, e);
    }
    DateYears(d, e);
  }

  lemma DateYears(d: nat, e: nat)
    ensures DateOf(d).year == Year(d) && DateOf(e).year == Year(e)
  {
  }

  // No sample follows an update in the same month of the year before.
  ghost predicate NoYearJump(log: seq<Sample>) {
    forall i :: 0 < i < |log| ==> !YearJump(log[i - 1].at, log[i].at)
  }

  // Adding a sample to the sum of a period: if the period is a new one, nothing was in it.
  lemma SumStep(log: seq<Sample>, k: Kind)
    requires |log| > 1 && Forward(log)
    ensures var before, t, u := Init(log)[1..], Last(Init(log)).at, Last(log).at;
      SumIn(log[1..], k, Index(k, u)) ==
      Keep(Index(k, t) == Index(k, u), SumIn(before, k, Index(k, t))).Plus(Last(log).x)
  {
    hide Index;
    var before, t, u := Init(log)[1..], Last(Init(log)).at, Last(log).at;
    assert Init(log[1..]) == before;
    if Index(k, t) != Index(k, u) {
      IndexMonotone(k, t, u);
      forall j | 0 <= j < |before| ensures Index(k, before[j].at) != Index(k, u) {
        ForwardBound(Init(log), j + 1);
        IndexMonotone(k, before[j].at, t);
      }
      NothingIn(before, k, Index(k, u));
    }
  }

  // The yearly, weekly and daily counters are the sums of the year, ISO week and day of the
  // latest update over every log, but for the first sample. So is the monthly one unless a
  // sample comes exactly one year later in the same month.
  lemma {:induction false} BucketIsSum(log: seq<Sample>, k: Kind)
    requires Forward(log) && log != []
    requires k == ByMonth ==> NoYearJump(log)
    ensures Bucket(k, Run(log)) == SumIn(log[1..], k, Index(k, Last(log).at))
    decreases |log|
  {
    hide Index, Inc, YearJump;
    if |log| == 1 {
      FirstSample(log);
    } else {
      BucketIsSum(Init(log), k);
      RunTotal(Init(log));
      ForwardBound(Init(log), |log| - 2);
      SumStep(log, k);
      assert Init(log)[|log| - 2] == log[|log| - 2];
      BucketStep(k, Last(log).at, Last(log).x, Run(Init(log)));
    }
  }

  // The first sample is counted in the total alone.
  lemma FirstSample(log: seq<Sample>)
    requires |log| == 1 && Forward(log)
    ensures Run(log) == NO_COUNTERS.(update := log[0].at, total := log[0].x)
  {
    hide Turn, Day;
    assert Run(Init(log)) == NO_COUNTERS;
  }

  // A gap of fewer than 335 days is no year jump.
  lemma ShortGapNoJump(t: Time, u: Time)
    requires t <= u && Day(u) < Day(t) + 335
    ensures !YearJump(t, u)
  {
    hide YearStart, MonthFrom, DaysBefore, YearLength, DateOf, Day;
    var p, n := DateOf(Day(t)), DateOf(Day(u));
    if YearJump(t, u) {
      SameMonthNextYear(p.year, p.month);
    }
  }

  // From the end of a month to its beginning one year later there are at least 335 days.
  lemma SameMonthNextYear(y: nat, m: nat)
    requires y > 0 && 1 <= m <= 12
    ensures MonthStart(y + 1, m) >= MonthStart(y, m) + MonthLength(y, m) + 334
  {
    hide YearStart;
    YearStartNext(y);
  }

  // What the monthly counter holds too much: all it held when the month of the latest update
  // was entered by a jump of one year from the month of the same name.
  function Stale(log: seq<Sample>): RxTx {
    if |log| < 2 then NO_TRAFFIC
    else
      var t, u := Last(Init(log)).at, Last(log).at;
      if Index(ByMonth, t) == Index(ByMonth, u) then Stale(Init(log))
      else if YearJump(t, u) then Run(Init(log)).monthly
      else NO_TRAFFIC
  }

  // Over every log the monthly counter is the sum of the month and that rest, so it is right
  // exactly when there is no such rest.
  lemma {:induction false} MonthlyExact(log: seq<Sample>)
    requires Forward(log) && log != []
    ensures Run(log).monthly == SumIn(log[1..], ByMonth, Index(ByMonth, Last(log).at)).Plus(Stale(log))
    ensures Run(log).monthly == SumIn(log[1..], ByMonth, Index(ByMonth, Last(log).at)) <==> Stale(log) == NO_TRAFFIC
    decreases |log|
  {
    hide Inc, Index, YearJump, SumIn;
    if |log| == 1 {
      FirstSample(log);
      assert log[1..] == [];
      NothingIn([], ByMonth, Index(ByMonth, Last(log).at));
    } else {
      MonthlyExact(Init(log));
      MonthlyStep(log);
    }
  }

  lemma MonthlyStep(log: seq<Sample>)
    requires |log| > 1 && Forward(log)
    requires var before := Init(log);
      Run(before).monthly == SumIn(before[1..], ByMonth, Index(ByMonth, Last(before).at)).Plus(Stale(before))
    ensures var s := SumIn(log[1..], ByMonth, Index(ByMonth, Last(log).at));
      Run(log).monthly == s.Plus(Stale(log)) && (s.Plus(Stale(log)) == s <==> Stale(log) == NO_TRAFFIC)
  {
    hide Inc, Index, YearJump, SumIn, RxTx.Plus;
    var before, t, u, x := Init(log), Last(Init(log)).at, Last(log).at, Last(log).x;
    RunTotal(before);
    ForwardBound(before, |log| - 2);
    SumStep(log, ByMonth);
    BucketStep(ByMonth, u, x, Run(before));
    JumpIsNotSame(t, u);
    PlusAgain(SumIn(before[1..], ByMonth, Index(ByMonth, t)), Stale(before), x);
    PlusAgain(NO_TRAFFIC, Stale(log), x);
    PlusAgain(SumIn(log[1..], ByMonth, Index(ByMonth, u)), Stale(log), x);
  }

  lemma PlusAgain(a: RxTx, b: RxTx, x: RxTx)
    ensures a.Plus(b).Plus(x) == a.Plus(x).Plus(b)
    ensures a.Plus(b) == a <==> b == NO_TRAFFIC
    ensures NO_TRAFFIC.Plus(b) == b && b.Plus(NO_TRAFFIC) == b
  {
  }

  lemma JumpIsNotSame(t: Time, u: Time)
    ensures YearJump(t, u) ==> Index(ByMonth, t) != Index(ByMonth, u)
  {
    SameMonth(Day(t), Day(u));
  }

  // ----- yesterday's counter -----

  // The day of the month d falls on does not exist in the month of e.
  predicate TooLong(d: nat, e: nat) {
    DateOf(d).day > MonthLength(DateOf(e).year, DateOf(e).month)
  }

  // Two different days with the same day of the month, close enough for the daily counters
  // not to be emptied in between.
  predicate SameDayOfMonth(d: nat, e: nat) {
    DateOf(d).day == DateOf(e).day && !YearsApart(DateOf(d), DateOf(e)) && !MonthMissed(d, e)
  }

  // The day after the last day of a month.
  lemma NextDay(d: nat)
    ensures DateOf(d).day == MonthLength(DateOf(d).year, DateOf(d).month) ==> d + 1 == NextMonthStart(d)
    ensures DateOf(d).day < MonthLength(DateOf(d).year, DateOf(d).month) ==>
              DateOf(d + 1) == DateOf(d).(day := DateOf(d).day + 1)
  {
    hide YearStart, MonthLength, DaysBefore, DateOf, NextMonthStart;
    NextMonthStartDate(d);
    var p := DateOf(d);
    if p.day < MonthLength(p.year, p.month) {
      DateRoundTrip(p.(day := p.day + 1));
    }
  }

  // From one day to the next, the daily counter is lost exactly when the old day does not
  // exist in the new month.
  lemma MissedOvernight(d: nat)
    ensures DateOf(d).day != DateOf(d + 1).day && !YearsApart(DateOf(d), DateOf(d + 1))
    ensures MonthMissed(d, d + 1) <==> TooLong(d, d + 1)
  {
    hide YearStart, MonthLength, DaysBefore, DateOf, NextMonthStart, AddMonth, MonthIndex;
    NextDay(d);
    NextMonthStartDate(d);
    AddMonthLands(d);
  }

  // A short gap changes the day of the month.
  lemma ShortGap(d: nat, e: nat)
    requires d < e < d + 28
    ensures DateOf(d).day != DateOf(e).day
  {
    hide YearStart, DaysBefore, NextMonthStart, YearLength, MonthLength, DateOf;
    var p, n := DateOf(d), DateOf(e);
    NextMonthStartDate(d);
    MonthMonotone(d, e);
    if NextMonthStart(d) <= e {
      MonthMonotone(NextMonthStart(d), e);
      NextMonthStartDate(NextMonthStart(d));
      if MonthIndex(e) > MonthIndex(d) + 1 {
        LaterMonth(NextMonthStart(d), e);
      }
      SameMonth(NextMonthStart(d), e);
    } else {
      if MonthIndex(d) < MonthIndex(e) {
        LaterMonth(d, e);
      }
      SameMonth(d, e);
    }
  }

  lemma LaterMonth(d: nat, e: nat)
    requires MonthIndex(d) < MonthIndex(e)
    ensures NextMonthStart(d) <= e
  {
    hide NextMonthStart, MonthIndex;
    if e < d {
      MonthMonotone(e, d);
    } else if e < NextMonthStart(d) {
      BeforeNextMonth(d, e);
    }
  }

  lemma BeforeNextMonth(d: nat, e: nat)
    requires d <= e < NextMonthStart(d)
    ensures MonthIndex(e) == MonthIndex(d)
  {
    hide YearStart, DaysBefore, YearLength, MonthLength, DateOf, NextMonthStart;
    var p := DateOf(d);
    NextMonthStartDate(d);
    DateRoundTrip(p.(day := p.day + e - d));
  }

  // The sum of the day before the latest update.
  function DayBefore(log: seq<Sample>): RxTx
    requires log != []
  {
    var e := Day(Last(log).at);
    if e == 0 then NO_TRAFFIC else SumIn(log[1..], ByDay, e - 1)
  }

  // After a change of day it is what the last daily counter says, if that was yesterday's.
  lemma DayBeforeStep(log: seq<Sample>)
    requires |log| > 1 && Forward(log)
    ensures var c, e := Run(Init(log)), Day(Last(log).at);
      DayBefore(log) ==
      if Day(c.update) == e then DayBefore(Init(log)) else Keep(Day(c.update) + 1 == e, c.daily)
  {
    hide Day, Inc;
    var c, t, u := Run(Init(log)), Last(Init(log)).at, Last(log).at;
    var before := Init(log)[1..];
    var rest := log[1..];
    assert Init(rest) == before;
    assert Last(rest) == Last(log);
    RunTotal(Init(log));
    BucketIsSum(Init(log), ByDay);
    ForwardBound(Init(log), |log| - 2);
    ForwardBound(log, |log| - 2);
    assert log[|log| - 2] == Last(Init(log));
    DayMonotone(t, u);
    if Day(u) > Day(t) + 1 {
      forall j | 0 <= j < |before| ensures Index(ByDay, before[j].at) != Day(u) - 1 {
        ForwardBound(Init(log), j + 1);
        DayMonotone(before[j].at, t);
      }
      NothingIn(before, ByDay, Day(u) - 1);
    }
  }

  // Exactly when the previous day's counter is right after a change of day: overnight, if the
  // old day exists in the new month or had no traffic; after a longer gap, unless the day of
  // the month came round again while an older value was still there.
  lemma PrevDayExact(log: seq<Sample>)
    requires |log| > 1 && Forward(log) && Day(Run(Init(log)).update) < Day(Last(log).at)
    ensures var c, d, e := Run(Init(log)), Day(Run(Init(log)).update), Day(Last(log).at);
      Run(log).prevDay == DayBefore(log) <==>
      if d + 1 == e then !TooLong(d, e) || c.daily == NO_TRAFFIC
      else !SameDayOfMonth(d, e) || c.prevDay == NO_TRAFFIC
  {
    hide *;
    var c, d, e := Run(Init(log)), Day(Run(Init(log)).update), Day(Last(log).at);
    LastStep(log);
    DayBeforeStep(log);
    PrevDayStep(Last(log).at, Last(log).x, c);
    PrevDayCases(d, e, c, Run(log).prevDay, DayBefore(log));
  }

  // The latest sample, after the others.
  lemma LastStep(log: seq<Sample>)
    requires |log| > 1 && Forward(log)
    ensures var c := Run(Init(log));
      ZERO_TIME < c.update <= Last(log).at && Run(log) == Inc(Last(log).at, Last(log).x, c)
  {
    hide Inc;
    RunTotal(Init(log));
    ForwardBound(Init(log), |log| - 2);
    ForwardBound(log, |log| - 2);
    assert log[|log| - 2] == Last(Init(log));
  }

  lemma PrevDayCases(d: nat, e: nat, c: NetCounters, now: RxTx, right: RxTx)
    requires d < e && right == Keep(d + 1 == e, c.daily)
    requires now == if DateOf(d).day == DateOf(e).day then Keep(SameDayOfMonth(d, e), c.prevDay)
                    else Keep(!YearsApart(DateOf(d), DateOf(e)) && !MonthMissed(d, e) && d + 1 == e, c.daily)
    ensures now == right <==>
            if d + 1 == e then !TooLong(d, e) || c.daily == NO_TRAFFIC
            else !SameDayOfMonth(d, e) || c.prevDay == NO_TRAFFIC
  {
    hide DateOf, MonthMissed, YearsApart, TooLong;
    if d + 1 == e {
      MissedOvernight(d);
    }
  }

  // The previous day's counter after a change of day.
  lemma PrevDayStep(now: Time, x: RxTx, c: NetCounters)
    requires ZERO_TIME < c.update <= now && Day(c.update) < Day(now)
    ensures var d, e := Day(c.update), Day(now);
      Inc(now, x, c).prevDay ==
      if DateOf(d).day == DateOf(e).day then Keep(SameDayOfMonth(d, e), c.prevDay)
      else Keep(!YearsApart(DateOf(d), DateOf(e)) && !MonthMissed(d, e) && d + 1 == e, c.daily)
  {
    hide Day, DateOf, MonthMissed, YearsApart, ISOWeek;
  }

  // Samples come at least every 28 days.
  ghost predicate NoLongGap(log: seq<Sample>) {
    forall i :: 0 < i < |log| ==> Day(log[i].at) < Day(log[i - 1].at) + 28
  }

  // With gaps below 28 days the previous day's counter is right or zero, and it is zero
  // wrongly only on the first of a month that is too short for the day before.
  lemma {:induction false} PrevDayIsSum(log: seq<Sample>)
    requires Forward(log) && log != [] && NoLongGap(log)
    ensures var e := Day(Last(log).at);
      || Run(log).prevDay == DayBefore(log)
      || (Run(log).prevDay == NO_TRAFFIC && e > 0 && TooLong(e - 1, e))
    decreases |log|
  {
    hide Day, DateOf, MonthMissed, YearsApart, MonthLength, ISOWeek, TooLong;
    if |log| == 1 {
      FirstSample(log);
    } else {
      PrevDayIsSum(Init(log));
      var c, d, e := Run(Init(log)), Day(Run(Init(log)).update), Day(Last(log).at);
      RunTotal(Init(log));
      ForwardBound(Init(log), |log| - 2);
      ForwardBound(log, |log| - 2);
      assert log[|log| - 2] == Last(Init(log));
      DayMonotone(c.update, Last(log).at);
      DayBeforeStep(log);
      if d < e {
        ShortGap(d, e);
        PrevDayExact(log);
        if d + 1 == e {
          MissedOvernight(d);
        }
      }
    }
  }

  // ----- a clock that runs backwards -----

  // The samples that are not older than an update already made.
  function Accepted(log: seq<Sample>): seq<Sample> {
    if log == [] then []
    else
      var rest := Accepted(Init(log));
      if rest != [] && Last(log).at < Last(rest).at then rest else rest + [Last(log)]
  }

  // Late samples are dropped altogether: the counters are those of the accepted samples, and
  // these run forward.
  lemma {:induction false} LateSamplesAreDropped(log: seq<Sample>)
    requires forall i :: 0 <= i < |log| ==> log[i].at > ZERO_TIME
    ensures Forward(Accepted(log)) && Run(log) == Run(Accepted(log))
    decreases |log|
  {
    hide Inc;
    if log != [] {
      var rest := Accepted(Init(log));
      LateSamplesAreDropped(Init(log));
      RunTotal(rest);
      if rest != [] && Last(log).at < Last(rest).at {
        LateIsDropped(Last(log).at, Last(log).x, Run(rest));
      } else {
        assert Init(rest + [Last(log)]) == rest;
      }
    }
  }

  lemma LateIsDropped(now: Time, x: RxTx, c: NetCounters)
    requires now < c.update
    ensures Inc(now, x, c) == c
  {
  }

  // ----- inputs on which a counter is wrong -----

  function Noon(d: Date): Time
    requires d.Valid()
  {
    Midnight(DayNumber(d)) + 43_200_000_000_000
  }

  lemma NoonIsThatDay(d: Date)
    requires d.Valid()
    ensures DateOf(Day(Noon(d))) == d && Day(Noon(d)) == DayNumber(d) && Noon(d) > ZERO_TIME
  {
    hide DateOf, DayNumber, Day;
    DateRoundTrip(d);
    MiddleOfDay(DayNumber(d));
  }

  lemma MiddleOfDay(n: nat)
    ensures Day(Midnight(n) + 43_200_000_000_000) == n
  {
  }

  // On 1 February the traffic of 31 January is gone.
  lemma JanuaryIsLost(y: nat, x: RxTx)
    requires y > 0 && x != NO_TRAFFIC
    ensures var log := [Sample(Noon(Date(y, 1, 30)), NO_TRAFFIC), Sample(Noon(Date(y, 1, 31)), x),
                        Sample(Noon(Date(y, 2, 1)), NO_TRAFFIC)];
      Forward(log) && DayBefore(log) == x && Run(log).prevDay == NO_TRAFFIC
  {
    hide Day, DateOf, Noon, Inc, YearStart, MonthMissed, ISOWeek;
    var d1, d2, d3 := Date(y, 1, 30), Date(y, 1, 31), Date(y, 2, 1);
    var log := [Sample(Noon(d1), NO_TRAFFIC), Sample(Noon(d2), x), Sample(Noon(d3), NO_TRAFFIC)];
    NoonIsThatDay(d1);
    NoonIsThatDay(d2);
    NoonIsThatDay(d3);
    NoonsInOrder(d1, d2);
    NoonsInOrder(d2, d3);
    var two := Init(log);
    assert Init(two) == [log[0]] && two[1..] == [log[1]];
    RunTotal(two);
    BucketIsSum(two, ByDay);
    assert SumIn(two[1..], ByDay, Day(Noon(d2))) == x by {
      assert Init([log[1]]) == [];
    }
    DayBeforeStep(log);
    PrevDayExact(log);
    PrevDayIsSum(log);
  }

  // A year after 2 May the traffic of that day is still in the monthly counter.
  lemma MayIsKept(y: nat, x: RxTx)
    requires y > 0 && x != NO_TRAFFIC
    ensures var log := [Sample(Noon(Date(y, 5, 1)), NO_TRAFFIC), Sample(Noon(Date(y, 5, 2)), x),
                        Sample(Noon(Date(y + 1, 5, 2)), NO_TRAFFIC)];
      && Forward(log) && Run(log).monthly == x
      && SumIn(log[1..], ByMonth, Index(ByMonth, Last(log).at)) == NO_TRAFFIC
  {
    hide Day, DateOf, Noon, Inc, YearStart, ISOWeek;
    var d1, d2, d3 := Date(y, 5, 1), Date(y, 5, 2), Date(y + 1, 5, 2);
    var log := [Sample(Noon(d1), NO_TRAFFIC), Sample(Noon(d2), x), Sample(Noon(d3), NO_TRAFFIC)];
    NoonIsThatDay(d1);
    NoonIsThatDay(d2);
    NoonIsThatDay(d3);
    YearStartNext(y);
    NoonsInOrder(d1, d2);
    NoonsInOrder(d2, d3);
    var two := Init(log);
    assert two == [log[0], log[1]];
    assert Init(two) == [log[0]];
    assert two[1..] == [log[1]] && Init(log[1..]) == [log[1]];
    assert Init([log[1]]) == [];
    assert Stale(two) == NO_TRAFFIC;
    MonthlyExact(two);
    assert Run(two).monthly == x;
    assert Stale(log) == x;
    MonthlyExact(log);
    var i := Index(ByMonth, Noon(d3));
    assert SumIn([log[1]], ByMonth, i) == NO_TRAFFIC;
    assert SumIn(log[1..], ByMonth, i) == SumIn([log[1]], ByMonth, i).Plus(NO_TRAFFIC);
  }

  // On 12 April, after a month without samples, the previous day's counter still holds the
  // traffic of 11 March.
  lemma MarchIsKept(y: nat, x: RxTx)
    requires y > 0 && x != NO_TRAFFIC
    ensures var log := [Sample(Noon(Date(y, 3, 10)), NO_TRAFFIC), Sample(Noon(Date(y, 3, 11)), x),
                        Sample(Noon(Date(y, 3, 12)), NO_TRAFFIC), Sample(Noon(Date(y, 4, 12)), NO_TRAFFIC)];
      Forward(log) && Run(log).prevDay != DayBefore(log)
  {
    hide Day, DateOf, Noon, Inc, YearStart, ISOWeek, AddMonth;
    var d1, d2, d3, d4 := Date(y, 3, 10), Date(y, 3, 11), Date(y, 3, 12), Date(y, 4, 12);
    var log := [Sample(Noon(d1), NO_TRAFFIC), Sample(Noon(d2), x), Sample(Noon(d3), NO_TRAFFIC),
                Sample(Noon(d4), NO_TRAFFIC)];
    NoonIsThatDay(d1);
    NoonIsThatDay(d2);
    NoonIsThatDay(d3);
    NoonIsThatDay(d4);
    NoonsInOrder(d1, d2);
    NoonsInOrder(d2, d3);
    NoonsInOrder(d3, d4);
    var three, two := Init(log), Init(Init(log));
    assert Init(two) == [log[0]] && two[1..] == [log[1]];
    RunTotal(two);
    BucketIsSum(two, ByDay);
    assert SumIn(two[1..], ByDay, Day(Noon(d2))) == x by {
      assert Init([log[1]]) == [];
    }
    DayBeforeStep(three);
    RunTotal(three);
    PrevDayExact(three);
    AddMonthLands(DayNumber(d3));
    NextMonthStartDate(DayNumber(d3));
    PrevDayExact(log);
  }

  lemma NoonsInOrder(d: Date, e: Date)
    requires d.Valid() && e.Valid() && DayNumber(d) < DayNumber(e)
    ensures Noon(d) < Noon(e)
  {
    hide DayNumber;
  }
}
