// The calendar counters of one traffic source: how a sample moves them, and what they are
// in terms of the plain list of samples.

module Counters {
  import opened Calendar

  datatype RxTx = RxTx(rx: nat, tx: nat)
  {
    function Plus(x: RxTx): RxTx {
      RxTx(rx + x.rx, tx + x.tx)
    }
  }

  const NO_TRAFFIC := RxTx(0, 0)

  datatype NetCounters = NetCounters(
    update: Time, total: RxTx, yearly: RxTx, monthly: RxTx, weekly: RxTx, daily: RxTx, prevDay: RxTx)

  const NO_COUNTERS := NetCounters(ZERO_TIME, NO_TRAFFIC, NO_TRAFFIC, NO_TRAFFIC, NO_TRAFFIC, NO_TRAFFIC, NO_TRAFFIC)

  // More than one new year lies between two dates.
  predicate YearsApart(p: Date, n: Date) {
    p.year != n.year && p.year + 1 != n.year
  }

  // The month changed, and a month after the last update is not the current month.
  predicate MonthMissed(d: nat, e: nat) {
    DateOf(d).month != DateOf(e).month && MonthIndex(AddMonth(d)) != MonthIndex(e)
  }

  function Keep(keep: bool, bucket: RxTx): RxTx {
    if keep then bucket else NO_TRAFFIC
  }

  // The change of day: d is the day of the last update, e the day of the sample.
  function Turn(d: nat, e: nat, x: RxTx, c: NetCounters): NetCounters {
    var p, n := DateOf(d), DateOf(e);
    var kept := !YearsApart(p, n) && !MonthMissed(d, e);
    c.(total := c.total.Plus(x),
       yearly := Keep(p.year == n.year, c.yearly).Plus(x),
       weekly := Keep(!YearsApart(p, n) && ISOWeek(d) == ISOWeek(e), c.weekly).Plus(x),
       monthly := Keep(!YearsApart(p, n) && p.month == n.month, c.monthly).Plus(x),
       prevDay := if p.day == n.day then Keep(kept, c.prevDay) else Keep(kept && d + 1 == e, c.daily),
       daily := x)
  }

  // incDateSwitchRelated.
  function Inc(now: Time, x: RxTx, c: NetCounters): NetCounters {
    if now < c.update then
      c
    else if c.update == ZERO_TIME then
      NetCounters(now, c.total.Plus(x), NO_TRAFFIC, NO_TRAFFIC, NO_TRAFFIC, NO_TRAFFIC, NO_TRAFFIC)
    else if Day(c.update) == Day(now) then
      NetCounters(now, c.total.Plus(x), c.yearly.Plus(x), c.monthly.Plus(x), c.weekly.Plus(x), c.daily.Plus(x),
                  c.prevDay)
    else
      Turn(Day(c.update), Day(now), x, c).(update := now)
  }

  // Dates are compared instead of day numbers.
  lemma SameDates(d: nat, e: nat)
    ensures DateOf(d) == DateOf(e) <==> d == e
  {
    hide DateOf;
    DayRoundTrip(d);
    DayRoundTrip(e);
  }

  // The same, step by step as the program does it.
  method IncDateSwitchRelated(now: Time, x: RxTx, c0: NetCounters) returns (c: NetCounters)
    ensures c == Inc(now, x, c0)
  {
    hide DateOf, Day, Turn;
    c := c0;
    if now < c.update {
      return;
    }
    if c.update == ZERO_TIME {
      c := c.(total := c.total.Plus(x));
      c := c.(prevDay := NO_TRAFFIC, daily := NO_TRAFFIC, weekly := NO_TRAFFIC);
      c := c.(monthly := NO_TRAFFIC, yearly := NO_TRAFFIC, update := now);
      return;
    }
    SameDates(Day(c.update), Day(now));
    if DateOf(Day(c.update)) == DateOf(Day(now)) {
      c := c.(total := c.total.Plus(x), daily := c.daily.Plus(x), weekly := c.weekly.Plus(x));
      c := c.(monthly := c.monthly.Plus(x), yearly := c.yearly.Plus(x), update := now);
      return;
    }
    c := TurnDay(Day(c.update), Day(now), x, c);
    c := c.(update := now);
  }

  // Its second half, on another day than the last update.
  method TurnDay(d: nat, e: nat, x: RxTx, c0: NetCounters) returns (c: NetCounters)
    ensures c == Turn(d, e, x, c0)
  {
    hide DateOf, MonthIndex, AddMonth, ISOWeek, MonthStart, MonthLength, Year;
    var p, n := DateOf(d), DateOf(e);
    c := c0.(total := c0.total.Plus(x));
    if p.year != n.year {
      c := c.(yearly := NO_TRAFFIC);
      if p.year + 1 != n.year {
        c := c.(monthly := NO_TRAFFIC, weekly := NO_TRAFFIC, daily := NO_TRAFFIC, prevDay := NO_TRAFFIC);
      }
    }
    c := c.(yearly := c.yearly.Plus(x));
    if ISOWeek(d) != ISOWeek(e) {
      c := c.(weekly := NO_TRAFFIC);
    }
    c := c.(weekly := c.weekly.Plus(x));
    if p.month != n.month {
      c := c.(monthly := NO_TRAFFIC);
      SameMonth(AddMonth(d), e);
      var test := DateOf(AddMonth(d));
      if test.year != n.year || test.month != n.month {
        c := c.(daily := NO_TRAFFIC, prevDay := NO_TRAFFIC);
      }
    }
    c := c.(monthly := c.monthly.Plus(x));
    c := RollDay(d, e, x, c);
  }

  // Yesterday's counter takes over the daily one when the last update was yesterday.
  method RollDay(d: nat, e: nat, x: RxTx, c0: NetCounters) returns (c: NetCounters)
    ensures c == c0.(daily := x,
                     prevDay := if DateOf(d).day == DateOf(e).day then c0.prevDay else Keep(d + 1 == e, c0.daily))
  {
    hide DateOf;
    c := c0;
    if DateOf(d).day != DateOf(e).day {
      c := c.(prevDay := NO_TRAFFIC);
      SameDates(d + 1, e);
      if DateOf(d + 1) == DateOf(e) {
        c := c.(prevDay := c.daily);
      }
      c := c.(daily := NO_TRAFFIC);
    }
    c := c.(daily := x);
  }
}
