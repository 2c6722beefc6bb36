// The monthly quota of a user: what is left of it, and when it is renewed.

module Quota {
  import opened Calendar

  datatype Quota = Quota(remaining: nat, resetOn: Time)

  // The first instant of the next month.
  function NextMonthlyResetOn(now: Time): Time {
    Midnight(NextMonthStart(Day(now)))
  }

  function Spend(remaining: nat, spent: nat): nat {
    if remaining >= spent then remaining - spent else 0
  }

  predicate Due(now: Time, q: Quota) {
    q.resetOn < now
  }

  // One merge: renew first if the reset time has passed, then spend.
  function Charge(now: Time, spent: nat, limit: nat, q: Quota): Quota {
    if Due(now, q) then Quota(Spend(limit, spent), NextMonthlyResetOn(now))
    else Quota(Spend(q.remaining, spent), q.resetOn)
  }

  lemma MonthStartInstant(n: nat, t: Time)
    ensures Day(Midnight(n)) == n && (Midnight(n) <= t <==> n <= Day(t))
  {
  }

  // The reset time is the first instant of the month after now.
  lemma ResetIsMonthStart(now: Time)
    ensures var r := NextMonthlyResetOn(now);
      && DateOf(Day(r)).day == 1 && r == Midnight(Day(r))
      && MonthIndex(Day(r)) == MonthIndex(Day(now)) + 1
      && now < r
  {
    hide NextMonthStart, DateOf, Day, Midnight, MonthIndex;
    NextMonthStartDate(Day(now));
    MonthStartInstant(NextMonthStart(Day(now)), now);
  }

  // ----- the log -----

  datatype Entry = Entry(now: Time, spent: nat)

  function Run(log: seq<Entry>, limit: nat, q0: Quota): Quota {
    if log == [] then q0
    else Charge(log[|log| - 1].now, log[|log| - 1].spent, limit, Run(log[..|log| - 1], limit, q0))
  }

  // The i-th merge renews the quota.
  predicate Resets(log: seq<Entry>, limit: nat, q0: Quota, i: nat)
    requires i < |log|
  {
    Due(log[i].now, Run(log[..i], limit, q0))
  }

  function Spent(log: seq<Entry>): nat {
    if log == [] then 0 else Spent(log[..|log| - 1]) + log[|log| - 1].spent
  }

  lemma {:induction false} SpentFrom(log: seq<Entry>, i: nat)
    requires i < |log|
    ensures Spent(log[i..]) == Spent(log[i..|log| - 1]) + log[|log| - 1].spent
  {
    assert log[i..][..|log[i..]| - 1] == log[i..|log| - 1];
  }

  // Since the merge that renewed the quota, that one included, the rest is the limit minus
  // everything spent, or nothing.
  lemma {:induction false} RemainingSinceReset(log: seq<Entry>, limit: nat, q0: Quota, i: nat)
    requires i < |log| && Resets(log, limit, q0, i)
    requires forall j :: i < j < |log| ==> !Resets(log, limit, q0, j)
    ensures Run(log, limit, q0).remaining == Spend(limit, Spent(log[i..]))
    decreases |log|
  {
    hide NextMonthlyResetOn;
    var prior := log[..|log| - 1];
    SpentFrom(log, i);
    if i == |log| - 1 {
      assert log[i..i] == [];
    } else {
      assert prior[..i] == log[..i];
      forall j | i < j < |prior| ensures !Resets(prior, limit, q0, j) {
        assert prior[..j] == log[..j];
        assert !Resets(log, limit, q0, j);
      }
      RemainingSinceReset(prior, limit, q0, i);
      assert prior[i..] == log[i..|log| - 1];
      assert !Resets(log, limit, q0, |log| - 1);
    }
  }

  // The same before the first renewal, counted from the initial rest.
  lemma {:induction false} RemainingWithoutReset(log: seq<Entry>, limit: nat, q0: Quota)
    requires forall j :: 0 <= j < |log| ==> !Resets(log, limit, q0, j)
    ensures Run(log, limit, q0).remaining == Spend(q0.remaining, Spent(log))
    ensures Run(log, limit, q0).resetOn == q0.resetOn
    decreases |log|
  {
    hide NextMonthlyResetOn;
    if log != [] {
      var prior := log[..|log| - 1];
      forall j | 0 <= j < |prior| ensures !Resets(prior, limit, q0, j) {
        assert prior[..j] == log[..j];
        assert !Resets(log, limit, q0, j);
      }
      RemainingWithoutReset(prior, limit, q0);
      assert !Resets(log, limit, q0, |log| - 1);
    }
  }

  // After every merge the reset time is not before now; a renewal moves it strictly later,
  // to the first instant of the month after now.
  lemma ResetMovesOn(now: Time, spent: nat, limit: nat, q: Quota)
    ensures var r := Charge(now, spent, limit, q);
      && now <= r.resetOn && q.resetOn <= r.resetOn
      && (Due(now, q) ==> q.resetOn < r.resetOn && r.resetOn == NextMonthlyResetOn(now))
      && (!Due(now, q) ==> r.resetOn == q.resetOn)
  {
    hide NextMonthlyResetOn;
    ResetIsMonthStart(now);
  }

  lemma {:induction false} ResetOnGrows(log: seq<Entry>, limit: nat, q0: Quota, i: nat)
    requires i <= |log|
    ensures Run(log[..i], limit, q0).resetOn <= Run(log, limit, q0).resetOn
    decreases |log|
  {
    hide Charge;
    if i == |log| {
      assert log[..i] == log;
    } else {
      var prior := log[..|log| - 1];
      assert prior[..i] == log[..i];
      ResetOnGrows(prior, limit, q0, i);
      ResetMovesOn(log[|log| - 1].now, log[|log| - 1].spent, limit, Run(prior, limit, q0));
    }
  }

  // Of two renewals the second is in a later calendar month.
  lemma OneResetPerMonth(log: seq<Entry>, limit: nat, q0: Quota, i: nat, j: nat)
    requires i < j < |log| && Resets(log, limit, q0, i) && Resets(log, limit, q0, j)
    ensures MonthIndex(Day(log[i].now)) < MonthIndex(Day(log[j].now))
  {
    hide MonthIndex, Day, NextMonthlyResetOn;
    var before, at := Run(log[..i], limit, q0), log[i];
    assert log[..i + 1][..i] == log[..i];
    var r := Run(log[..i + 1], limit, q0);
    assert r == Charge(at.now, at.spent, limit, before);
    ResetMovesOn(at.now, at.spent, limit, before);
    ResetIsMonthStart(at.now);
    ResetOnGrows(log[..j], limit, q0, i + 1);
    assert log[..j][..i + 1] == log[..i + 1];
    DayMonotone(r.resetOn, log[j].now);
    MonthMonotone(Day(r.resetOn), Day(log[j].now));
  }
}
