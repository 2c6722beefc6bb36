// The last-activity points of a user: the day, week, month and year in which the user was
// last seen, as a state machine driven by reports.

module Activity {
  import opened Calendar
  import opened CounterLog
  import Counters

  // The previous month's point is not modelled.
  datatype Points = Points(update: Time, total: Time, yearly: Time, monthly: Time, weekly: Time, daily: Time)

  const NO_POINTS := Points(ZERO_TIME, ZERO_TIME, ZERO_TIME, ZERO_TIME, ZERO_TIME, ZERO_TIME)

  // A time that is set. The Unix zero time counts as unset.
  predicate IsSet(t: Time) {
    t != ZERO_TIME && t != UNIX_ZERO
  }

  // A point of a period that has not become older than the period of now.
  function Kept(k: Kind, point: Time, now: Time): Time {
    if point != ZERO_TIME && Index(k, point) != Index(k, now) then ZERO_TIME else point
  }

  // The latest time of the period, where a report from the period counts only if it is later.
  function Later(k: Kind, seen: Time, point: Time, now: Time): Time {
    if Index(k, seen) == Index(k, now) && seen > point then seen else Kept(k, point, now)
  }

  // A total that is the Unix zero time is unset first, also when the report is late.
  function Fixed(p: Points): Points {
    if p.total == UNIX_ZERO then p.(total := ZERO_TIME) else p
  }

  // lastActivityMark: a report at time now that the user was last seen at the given time.
  function Mark(now: Time, reported: Time, p: Points): Points {
    var total := if p.total == UNIX_ZERO then ZERO_TIME else p.total;
    var seen := if IsSet(reported) then reported else total;
    if now < p.update then p
    else if !IsSet(reported) && total == ZERO_TIME then p.(update := now, total := total)
    else if Day(seen) == Day(now) then Points(now, seen, seen, seen, seen, seen)
    else Renew(now, seen, p).(update := now, total := seen)
  }

  // The points when the user was last seen on another day than today.
  function Renew(now: Time, seen: Time, p: Points): Points {
    p.(yearly := Later(ByYear, seen, p.yearly, now),
       monthly := Later(ByMonth, seen, p.monthly, now),
       weekly := if Index(ByWeek, seen) == Index(ByWeek, now) then seen else Kept(ByWeek, p.weekly, now),
       daily := Kept(ByDay, p.daily, now))
  }

  // The same on dates and in steps, as the program does it.
  method LastActivityMark(now: Time, reported: Time, p0: Points) returns (p: Points)
    ensures p == Mark(now, reported, p0)
  {
    hide Day, DateOf, Renew, MonthStart, MonthLength, Year, Date.Valid;
    p := p0;
    var seen := reported;
    if now < p.update {
      return;
    }
    if p.total == UNIX_ZERO {
      p := p.(total := ZERO_TIME);
    }
    if seen == ZERO_TIME || seen == UNIX_ZERO {
      if p.total == ZERO_TIME {
        p := p.(update := now);
        return;
      }
      seen := p.total;
    } else {
      p := p.(total := seen);
    }
    Counters.SameDates(Day(now), Day(seen));
    if DateOf(Day(seen)) == DateOf(Day(now)) {
      p := p.(daily := seen, weekly := seen, monthly := seen, yearly := seen, update := now);
      return;
    }
    RenewKeeps(now, seen, p0, p);
    p := RenewPoints(now, seen, p);
    p := p.(update := now);
  }

  lemma RenewKeeps(now: Time, seen: Time, p: Points, q: Points)
    requires q == p.(total := q.total)
    ensures Renew(now, seen, q) == Renew(now, seen, p).(total := q.total)
  {
    hide Index;
  }

  method RenewPoints(now: Time, seen: Time, p0: Points) returns (p: Points)
    ensures p == Renew(now, seen, p0)
  {
    hide Day, DateOf, ISOWeek, Index, MonthStart, MonthLength, Year, Date.Valid;
    p := p0;
    PeriodTests(seen, now);
    PeriodTests(p.weekly, now);
    PeriodTests(p.daily, now);
    if ISOWeek(Day(seen)) == ISOWeek(Day(now)) {
      p := p.(weekly := seen);
    } else if p.weekly != ZERO_TIME {
      if ISOWeek(Day(p.weekly)) != ISOWeek(Day(now)) {
        p := p.(weekly := ZERO_TIME);
      }
    }
    p := RenewLong(now, seen, p);
    if p.daily != ZERO_TIME {
      if DateOf(Day(p.daily)) != DateOf(Day(now)) {
        p := p.(daily := ZERO_TIME);
      }
    }
  }

  // The points of the year and the month.
  method RenewLong(now: Time, seen: Time, p0: Points) returns (p: Points)
    ensures p == p0.(yearly := Later(ByYear, seen, p0.yearly, now), monthly := Later(ByMonth, seen, p0.monthly, now))
  {
    hide Day, DateOf, ISOWeek, Index, MonthStart, MonthLength, Year, Date.Valid;
    p := p0;
    var n, ls := DateOf(Day(now)), DateOf(Day(seen));
    PeriodTests(seen, now);
    PeriodTests(p.yearly, now);
    PeriodTests(p.monthly, now);
    if ls.year == n.year && seen > p.yearly {
      p := p.(yearly := seen);
    } else if p.yearly != ZERO_TIME {
      if DateOf(Day(p.yearly)).year != n.year {
        p := p.(yearly := ZERO_TIME);
      }
    }
    if ls.year == n.year && ls.month == n.month && seen > p.monthly {
      p := p.(monthly := seen);
    } else if p.monthly != ZERO_TIME {
      var mth := DateOf(Day(p.monthly));
      if mth.year != n.year || mth.month != n.month {
        p := p.(monthly := ZERO_TIME);
      }
    }
  }

  // The tests the program makes on dates, as comparisons of period numbers.
  lemma PeriodTests(t: Time, u: Time)
    ensures ISOWeek(Day(t)) == ISOWeek(Day(u)) <==> Index(ByWeek, t) == Index(ByWeek, u)
    ensures DateOf(Day(t)).year == DateOf(Day(u)).year <==> Index(ByYear, t) == Index(ByYear, u)
    ensures DateOf(Day(t)).year == DateOf(Day(u)).year && DateOf(Day(t)).month == DateOf(Day(u)).month <==>
            Index(ByMonth, t) == Index(ByMonth, u)
    ensures DateOf(Day(t)) == DateOf(Day(u)) <==> Index(ByDay, t) == Index(ByDay, u)
  {
    hide Day, ISOWeek, MonthStart, MonthLength, YearStart;
    Counters.SameDates(Day(t), Day(u));
    SameWeek(Day(t), Day(u));
    SameMonth(Day(t), Day(u));
  }

  // ----- the log of reports -----

  datatype Report = Report(now: Time, seen: Time)

  function Run(log: seq<Report>): Points {
    if log == [] then NO_POINTS
    else Mark(log[|log| - 1].now, log[|log| - 1].seen, Run(log[..|log| - 1]))
  }

  // Nobody is seen in the future.
  ghost predicate Plausible(log: seq<Report>) {
    forall i :: 0 <= i < |log| ==> log[i].seen <= log[i].now
  }

  // The reports that were not older than an update already made.
  function Accepted(log: seq<Report>): seq<Report> {
    if log == [] then []
    else
      var rest, r := Accepted(log[..|log| - 1]), log[|log| - 1];
      if rest != [] && r.now < rest[|rest| - 1].now then rest else rest + [r]
  }

  // The user was seen in the period, according to a report.
  ghost predicate SeenIn(log: seq<Report>, k: Kind, i: nat) {
    exists r :: r in log && IsSet(r.seen) && Index(k, r.seen) == i
  }

  function Point(k: Kind, p: Points): Time {
    match k
    case ByYear => p.yearly
    case ByMonth => p.monthly
    case ByWeek => p.weekly
    case ByDay => p.daily
  }

  // A report saw the user at this very time.
  ghost predicate SeenAt(log: seq<Report>, t: Time) {
    exists r :: r in log && IsSet(r.seen) && r.seen == t
  }

  // What the points mean: a point is set exactly when the user was seen in the period of the
  // latest update, and then it lies in that period and is a time the user was seen at.
  ghost predicate Exact(k: Kind, p: Points, log: seq<Report>) {
    && Point(k, p) <= p.update
    && (Point(k, p) != ZERO_TIME <==> SeenIn(log, k, Index(k, p.update)))
    && (Point(k, p) != ZERO_TIME ==> Index(k, Point(k, p)) == Index(k, p.update) && SeenAt(log, Point(k, p)))
  }

  // The total is a time the user was seen at, if there is one.
  ghost predicate TotalExact(p: Points, log: seq<Report>) {
    && p.total <= p.update && p.total != UNIX_ZERO
    && (p.total != ZERO_TIME ==> SeenAt(log, p.total))
    && (p.total == ZERO_TIME ==> forall r :: r in log ==> !IsSet(r.seen))
    && forall r :: r in log ==> r.seen <= p.update
  }

  // The time a report is about.
  function Effective(r: Report, p: Points): Time {
    if IsSet(r.seen) then r.seen else p.total
  }

  // One report on one point, when there is a time to go by.
  lemma PointStep(k: Kind, r: Report, p: Points)
    requires p.update <= r.now && Point(k, p) <= p.update && p.total != UNIX_ZERO
    requires var e := Effective(r, p); e != ZERO_TIME && e <= r.now
    ensures var q, e := Mark(r.now, r.seen, p), Effective(r, p);
      && (Point(k, q) != ZERO_TIME <==>
          || Index(k, e) == Index(k, r.now)
          || (Point(k, p) != ZERO_TIME && Index(k, Point(k, p)) == Index(k, r.now)))
      && (Point(k, q) != ZERO_TIME ==> Index(k, Point(k, q)) == Index(k, r.now))
      && (Point(k, q) == ZERO_TIME || Point(k, q) == e || Point(k, q) == Point(k, p))
      && Point(k, q) <= r.now && q.total == e && q.update == r.now
  {
    hide Index, Day;
    var e := Effective(r, p);
    DayIndex(e, r.now);
    if Day(e) == Day(r.now) {
      SameDayIndex(k, e, r.now);
    }
    if Index(k, e) == Index(k, r.now) && e <= Point(k, p) {
      IndexMonotone(k, e, Point(k, p));
      IndexMonotone(k, Point(k, p), r.now);
    }
  }

  lemma DayIndex(t: Time, u: Time)
    ensures Index(ByDay, t) == Index(ByDay, u) <==> Day(t) == Day(u)
  {
  }

  lemma SameDayIndex(k: Kind, t: Time, u: Time)
    requires Day(t) == Day(u)
    ensures Index(k, t) == Index(k, u)
  {
  }

  // A report that is not late makes the total the time it reports, if it reports one; and while
  // the year or the month goes on, its point never moves to an earlier day.
  lemma PointsMoveOn(k: Kind, r: Report, p: Points)
    requires p.update <= r.now && r.seen <= r.now && p.total != UNIX_ZERO && p.total <= r.now
    requires k == ByYear || k == ByMonth
    requires Point(k, p) != ZERO_TIME && Point(k, p) <= p.update && Index(k, Point(k, p)) == Index(k, r.now)
    ensures var q := Mark(r.now, r.seen, p);
      && q.total == (if IsSet(r.seen) then r.seen else p.total)
      && Point(k, q) != ZERO_TIME && Day(Point(k, p)) <= Day(Point(k, q))
  {
    hide Index, Day;
    DayMonotone(Point(k, p), r.now);
    var e := Effective(r, p);
    if e > Point(k, p) {
      DayMonotone(Point(k, p), e);
    }
  }

  // In a new period nobody has been seen yet.
  lemma SeenBefore(k: Kind, p: Points, log: seq<Report>, now: Time)
    requires p.update <= now && TotalExact(p, log)
    ensures SeenIn(log, k, Index(k, now)) ==> Index(k, p.update) == Index(k, now)
  {
    hide Index;
    if SeenIn(log, k, Index(k, now)) {
      var r :| r in log && IsSet(r.seen) && Index(k, r.seen) == Index(k, now);
      IndexMonotone(k, r.seen, p.update);
      IndexMonotone(k, p.update, now);
    }
  }

  lemma SeenNow(k: Kind, log: seq<Report>, r: Report, i: nat)
    ensures SeenIn(log + [r], k, i) <==> SeenIn(log, k, i) || (IsSet(r.seen) && Index(k, r.seen) == i)
  {
    hide Index;
    if SeenIn(log, k, i) {
      var x :| x in log && IsSet(x.seen) && Index(k, x.seen) == i;
      assert x in log + [r];
    }
    if IsSet(r.seen) && Index(k, r.seen) == i {
      assert r in log + [r];
    }
  }

  lemma StillSeenAt(log: seq<Report>, r: Report)
    ensures forall t :: SeenAt(log, t) ==> SeenAt(log + [r], t)
    ensures IsSet(r.seen) ==> SeenAt(log + [r], r.seen)
  {
    assert r in log + [r];
    forall t | SeenAt(log, t) ensures SeenAt(log + [r], t) {
      var x :| x in log && IsSet(x.seen) && x.seen == t;
      assert x in log + [r];
    }
  }

  lemma TotalStep(r: Report, p: Points, log: seq<Report>)
    requires TotalExact(p, log) && p.update <= r.now && r.seen <= r.now
    ensures TotalExact(Mark(r.now, r.seen, p), log + [r])
  {
    hide Renew, Day, SeenAt;
    StillSeenAt(log, r);
    assert r in log + [r];
  }

  lemma ExactStep(k: Kind, r: Report, p: Points, log: seq<Report>)
    requires TotalExact(p, log) && Exact(k, p, log)
    requires p.update <= r.now && r.seen <= r.now
    ensures Exact(k, Mark(r.now, r.seen, p), log + [r])
  {
    hide Index, Mark, SeenAt;
    StillSeenAt(log, r);
    var e := Effective(r, p);
    SeenNow(k, log, r, Index(k, r.now));
    SeenBefore(k, p, log, r.now);
    if e == ZERO_TIME {
      NothingToGoBy(r, p);
      if SeenIn(log, k, Index(k, p.update)) {
        assert false;
      }
    } else {
      PointStep(k, r, p);
      SeenAtIn(log, p.total, k);
    }
  }

  lemma SeenAtIn(log: seq<Report>, t: Time, k: Kind)
    ensures SeenAt(log, t) ==> SeenIn(log, k, Index(k, t))
  {
    hide Index;
  }

  lemma NothingToGoBy(r: Report, p: Points)
    requires p.total == ZERO_TIME && !IsSet(r.seen) && p.update <= r.now
    ensures Mark(r.now, r.seen, p) == p.(update := r.now)
  {
  }

  // Over every run of reports, with a clock that may run backwards, every point is set
  // exactly when an accepted report saw the user in the current day, ISO week, month or year,
  // and then it is a time of that period.
  lemma {:induction false} PointsAreExact(log: seq<Report>)
    requires Plausible(log)
    ensures TotalExact(Run(log), Accepted(log)) && forall k :: Exact(k, Run(log), Accepted(log))
    ensures Accepted(log) != [] ==> Run(log).update == Accepted(log)[|Accepted(log)| - 1].now
    ensures Accepted(log) == [] ==> Run(log) == NO_POINTS
    decreases |log|
  {
    hide Index, Exact, TotalExact;
    if log == [] {
      NothingSeen();
    } else {
      var prior, r := log[..|log| - 1], log[|log| - 1];
      PointsAreExact(prior);
      if r.now >= Run(prior).update {
        TotalStep(r, Run(prior), Accepted(prior));
        forall k ensures Exact(k, Run(log), Accepted(log)) {
          ExactStep(k, r, Run(prior), Accepted(prior));
        }
      }
    }
  }

  lemma NothingSeen()
    ensures TotalExact(NO_POINTS, []) && forall k :: Exact(k, NO_POINTS, [])
  {
  }

  // Over a run the total is never the Unix zero time, so unsetting it first changes nothing.
  lemma FixedAlready(log: seq<Report>)
    requires Plausible(log)
    ensures Fixed(Run(log)) == Run(log)
  {
    hide Run;
    PointsAreExact(log);
  }

  // The user was seen today, so also this week, month and year; seen this month, so also
  // this year; never seen, so no point is set.
  lemma PointsAreNested(log: seq<Report>)
    requires Plausible(log)
    ensures var p := Run(log);
      && (p.daily != ZERO_TIME ==> p.weekly != ZERO_TIME && p.monthly != ZERO_TIME && p.yearly != ZERO_TIME)
      && (p.monthly != ZERO_TIME ==> p.yearly != ZERO_TIME)
      && (p.total == ZERO_TIME ==> forall k :: Point(k, p) == ZERO_TIME)
  {
    hide Index, Run, Accepted;
    var p, kept := Run(log), Accepted(log);
    PointsAreExact(log);
    assert Exact(ByYear, p, kept) && Exact(ByMonth, p, kept) && Exact(ByWeek, p, kept) && Exact(ByDay, p, kept);
    if p.daily != ZERO_TIME {
      SeenToday(kept, p.update);
    }
    if p.monthly != ZERO_TIME {
      SeenThisMonth(kept, p.update);
    }
    forall k | p.total == ZERO_TIME ensures Point(k, p) == ZERO_TIME {
      assert Exact(k, p, kept);
    }
  }

  lemma SeenToday(log: seq<Report>, now: Time)
    requires SeenIn(log, ByDay, Index(ByDay, now))
    ensures forall k :: SeenIn(log, k, Index(k, now))
  {
    hide Index;
    var r :| r in log && IsSet(r.seen) && Index(ByDay, r.seen) == Index(ByDay, now);
    DayIndex(r.seen, now);
    forall k ensures SeenIn(log, k, Index(k, now)) {
      SameDayIndex(k, r.seen, now);
    }
  }

  lemma SeenThisMonth(log: seq<Report>, now: Time)
    requires SeenIn(log, ByMonth, Index(ByMonth, now))
    ensures SeenIn(log, ByYear, Index(ByYear, now))
  {
    hide Index;
    var r :| r in log && IsSet(r.seen) && Index(ByMonth, r.seen) == Index(ByMonth, now);
    PeriodTests(r.seen, now);
  }
}
