// What one merge of endpoint statistics does to a user and to the brigade, as functions,
// and what is conserved.

module Stats {
  import opened Brigade
  import opened Calendar
  import opened Counters
  import opened MonthStack
  import Activity
  import Quota

  datatype PerProto<T> = PerProto(wg: T, ipsec: T, ovc: T, outline: T, proto0: T)

  function Sum5(x: PerProto<RxTx>): RxTx {
    x.wg.Plus(x.ipsec).Plus(x.ovc).Plus(x.outline).Plus(x.proto0)
  }

  // ----- OS counters -----

  // An OS counter that went backwards has been restarted.
  function Since(os: nat, reading: nat): nat {
    if os <= reading then reading - os else reading
  }

  // The traffic a reading adds; no reading adds nothing and leaves the snapshot alone.
  function Credit(os: RxTx, reading: Option<RxTx>): RxTx {
    match reading
    case None => NO_TRAFFIC
    case Some(r) => RxTx(Since(os.rx, r.rx), Since(os.tx, r.tx))
  }

  function Snapshot(os: RxTx, reading: Option<RxTx>): RxTx {
    match reading
    case None => os
    case Some(r) => r
  }

  // A run of readings on one direction of one counter.
  function Credited(os: nat, readings: seq<Option<nat>>): nat
    decreases |readings|
  {
    if readings == [] then 0
    else match readings[0]
      case None => Credited(os, readings[1..])
      case Some(r) => Since(os, r) + Credited(r, readings[1..])
  }

  // The last reading, or the initial snapshot.
  function LastReading(os: nat, readings: seq<Option<nat>>): nat
    decreases |readings|
  {
    if readings == [] then os
    else LastReading(if readings[0].Some? then readings[0].value else os, readings[1..])
  }

  // The readings after which the counter was found to be smaller, added up.
  function BeforeRestarts(os: nat, readings: seq<Option<nat>>): nat
    decreases |readings|
  {
    if readings == [] then 0
    else match readings[0]
      case None => BeforeRestarts(os, readings[1..])
      case Some(r) => (if r < os then os else 0) + BeforeRestarts(r, readings[1..])
  }

  // Everything credited is the last reading and the readings just before a restart, minus
  // the initial snapshot.
  lemma {:induction false} Telescoping(os: nat, readings: seq<Option<nat>>)
    ensures Credited(os, readings) + os == LastReading(os, readings) + BeforeRestarts(os, readings)
    decreases |readings|
  {
    if readings != [] {
      Telescoping(if readings[0].Some? then readings[0].value else os, readings[1..]);
    }
  }

  // The two directions of a run of readings.
  function Rx(readings: seq<Option<RxTx>>): (r: seq<Option<nat>>)
    ensures |r| == |readings|
  {
    seq(|readings|, i requires 0 <= i < |readings| =>
      if readings[i].Some? then Some(readings[i].value.rx) else None)
  }

  function Tx(readings: seq<Option<RxTx>>): (r: seq<Option<nat>>)
    ensures |r| == |readings|
  {
    seq(|readings|, i requires 0 <= i < |readings| =>
      if readings[i].Some? then Some(readings[i].value.tx) else None)
  }

  datatype Reading = Reading(now: Time, value: Option<RxTx>)

  // One protocol of one user: the snapshot and the counters.
  datatype Meter = Meter(os: RxTx, counters: NetCounters)

  function Read(m: Meter, r: Reading): Meter {
    Meter(Snapshot(m.os, r.value), Inc(r.now, Credit(m.os, r.value), m.counters))
  }

  function ReadAll(m: Meter, rs: seq<Reading>): Meter
    decreases |rs|
  {
    if rs == [] then m else ReadAll(Read(m, rs[0]), rs[1..])
  }

  function Values(rs: seq<Reading>): (v: seq<Option<RxTx>>)
    ensures |v| == |rs|
  {
    seq(|rs|, i requires 0 <= i < |rs| => rs[i].value)
  }

  lemma IncTotal(now: Time, x: RxTx, c: NetCounters)
    requires c.update <= now
    ensures Inc(now, x, c).total == c.total.Plus(x) && Inc(now, x, c).update == now
  {
    hide ISOWeek, DateOf, MonthMissed, YearsApart, Day;
  }

  // Over any run of readings with time running forward, with restarts and missing readings,
  // the counters' total grows by the credited traffic, in both directions independently.
  lemma {:induction false} MeterTelescopes(m: Meter, rs: seq<Reading>)
    requires rs != [] ==> m.counters.update <= rs[0].now
    requires forall i :: 0 < i < |rs| ==> rs[i - 1].now <= rs[i].now
    ensures var end, v := ReadAll(m, rs), Values(rs);
      && end.counters.total.rx == m.counters.total.rx + Credited(m.os.rx, Rx(v))
      && end.counters.total.tx == m.counters.total.tx + Credited(m.os.tx, Tx(v))
      && end.os.rx == LastReading(m.os.rx, Rx(v)) && end.os.tx == LastReading(m.os.tx, Tx(v))
    decreases |rs|
  {
    hide Inc;
    if rs != [] {
      var next, v := Read(m, rs[0]), Values(rs);
      IncTotal(rs[0].now, Credit(m.os, rs[0].value), m.counters);
      MeterTelescopes(next, rs[1..]);
      assert Values(rs[1..]) == v[1..];
      assert Rx(v)[1..] == Rx(v[1..]) && Tx(v)[1..] == Tx(v[1..]);
    }
  }

  // ----- one user -----

  datatype LastSeen = LastSeen(wg: Time, ipsec: Time, ovc: Time, olc: Time, outline: Time, proto0: Time)

  datatype Activities = Activities(
    overall: Activity.Points, wg: Activity.Points, ipsec: Activity.Points, ovc: Activity.Points,
    olc: Activity.Points, outline: Activity.Points, proto0: Activity.Points)

  datatype UserStats = UserStats(
    meters: PerProto<Meter>, total: NetCounters, quota: Quota.Quota, activity: Activities)

  function CreditsOf(u: UserStats, readings: PerProto<Option<RxTx>>): PerProto<RxTx> {
    PerProto(Credit(u.meters.wg.os, readings.wg), Credit(u.meters.ipsec.os, readings.ipsec),
             Credit(u.meters.ovc.os, readings.ovc), Credit(u.meters.outline.os, readings.outline),
             Credit(u.meters.proto0.os, readings.proto0))
  }

  // The traffic of one user in one merge.
  function UserTraffic(u: UserStats, readings: PerProto<Option<RxTx>>): Traffic {
    var c := CreditsOf(u, readings);
    Traffic(Sum5(c), c.wg, c.ipsec, c.ovc, c.outline, c.proto0)
  }

  function ReadMeters(now: Time, m: PerProto<Meter>, readings: PerProto<Option<RxTx>>): PerProto<Meter> {
    PerProto(Read(m.wg, Reading(now, readings.wg)), Read(m.ipsec, Reading(now, readings.ipsec)),
             Read(m.ovc, Reading(now, readings.ovc)), Read(m.outline, Reading(now, readings.outline)),
             Read(m.proto0, Reading(now, readings.proto0)))
  }

  function Max(t: Time, u: Time): Time {
    if u > t then u else t
  }

  // The latest time seen by any protocol, or the latest one known before.
  function SeenOverall(a: Activities, s: LastSeen): Time {
    Max(Max(Max(Max(Max(Max(a.overall.total, s.wg), s.ipsec), s.ovc), s.olc), s.outline), s.proto0)
  }

  // It is one of the seven and not before any of them.
  lemma SeenOverallIsLatest(a: Activities, s: LastSeen)
    ensures var t := SeenOverall(a, s);
      && a.overall.total <= t && s.wg <= t && s.ipsec <= t && s.ovc <= t
      && s.olc <= t && s.outline <= t && s.proto0 <= t
      && t in {a.overall.total, s.wg, s.ipsec, s.ovc, s.olc, s.outline, s.proto0}
  {
  }

  function MarkAll(now: Time, a: Activities, s: LastSeen): Activities {
    Activities(MarkFixed(now, SeenOverall(a, s), a.overall),
               MarkFixed(now, s.wg, a.wg), MarkFixed(now, s.ipsec, a.ipsec),
               MarkFixed(now, s.ovc, a.ovc), MarkFixed(now, s.olc, a.olc),
               MarkFixed(now, s.outline, a.outline), MarkFixed(now, s.proto0, a.proto0))
  }

  function MarkFixed(now: Time, seen: Time, p: Activity.Points): Activity.Points {
    Activity.Mark(now, seen, Activity.Fixed(p))
  }

  function MergeUser(now: Time, u: UserStats, readings: PerProto<Option<RxTx>>, seen: LastSeen, limit: nat): UserStats {
    var sum := UserTraffic(u, readings).summary;
    UserStats(ReadMeters(now, u.meters, readings), Inc(now, sum, u.total),
              Quota.Charge(now, sum.rx + sum.tx, limit, u.quota), MarkAll(now, u.activity, seen))
  }

  // ----- the brigade -----

  datatype BrigadeTotals = BrigadeTotals(total: NetCounters, protos: PerProto<NetCounters>)

  function MergeTotals(now: Time, b: BrigadeTotals, t: Traffic): BrigadeTotals {
    BrigadeTotals(Inc(now, t.summary, b.total),
      PerProto(Inc(now, t.wg, b.protos.wg), Inc(now, t.ipsec, b.protos.ipsec), Inc(now, t.ovc, b.protos.ovc),
               Inc(now, t.outline, b.protos.outline), Inc(now, t.proto0, b.protos.proto0)))
  }

  // The traffic of all users in one merge.
  function AllTraffic(us: seq<UserStats>, readings: seq<PerProto<Option<RxTx>>>): Traffic
    requires |us| == |readings|
  {
    if us == [] then QUIET
    else AllTraffic(us[..|us| - 1], readings[..|us| - 1]).Plus(UserTraffic(us[|us| - 1], readings[|us| - 1]))
  }

  function MergeUsers(now: Time, us: seq<UserStats>, readings: seq<PerProto<Option<RxTx>>>, seen: seq<LastSeen>,
                      limit: nat): (r: seq<UserStats>)
    requires |us| == |readings| == |seen|
    ensures |r| == |us|
  {
    seq(|us|, i requires 0 <= i < |us| => MergeUser(now, us[i], readings[i], seen[i], limit))
  }

  // The brigade's own last activity after one more user, and after all of them.
  function SeenBrigade(last: Time, seen: Time): Time {
    if last == ZERO_TIME || last < seen then seen else last
  }

  function LastOfAll(last: Time, us: seq<UserStats>, seen: seq<LastSeen>): Time
    requires |us| == |seen|
  {
    if us == [] then last
    else
      var n := |us| - 1;
      SeenBrigade(LastOfAll(last, us[..n], seen[..n]), SeenOverall(us[n].activity, seen[n]))
  }

  // It is the latest time any of the users was seen at, or the one known before.
  lemma {:induction false} LastOfAllIsLatest(last: Time, us: seq<UserStats>, seen: seq<LastSeen>)
    requires |us| == |seen|
    ensures var t := LastOfAll(last, us, seen);
      && last <= t && (forall i :: 0 <= i < |us| ==> SeenOverall(us[i].activity, seen[i]) <= t)
      && (t == last || exists i :: 0 <= i < |us| && t == SeenOverall(us[i].activity, seen[i]))
    decreases |us|
  {
    hide SeenOverall;
    if us != [] {
      var n := |us| - 1;
      var a, s := us[..n], seen[..n];
      LastOfAllIsLatest(last, a, s);
      assert forall i :: 0 <= i < n ==> a[i] == us[i] && s[i] == seen[i];
    }
  }

  // ----- conservation -----

  // The six running totals of a user, of a list of users, of the brigade.
  function UserTotals(u: UserStats): Traffic {
    Traffic(u.total.total, u.meters.wg.counters.total, u.meters.ipsec.counters.total, u.meters.ovc.counters.total,
            u.meters.outline.counters.total, u.meters.proto0.counters.total)
  }

  function UsersTotals(us: seq<UserStats>): Traffic {
    if us == [] then QUIET else UsersTotals(us[..|us| - 1]).Plus(UserTotals(us[|us| - 1]))
  }

  function RunningTotals(b: BrigadeTotals): Traffic {
    Traffic(b.total.total, b.protos.wg.total, b.protos.ipsec.total, b.protos.ovc.total, b.protos.outline.total,
            b.protos.proto0.total)
  }

  // The total is the sum of the five protocols, received and sent.
  predicate Balanced(t: Traffic) {
    && t.summary.rx == t.wg.rx + t.ipsec.rx + t.ovc.rx + t.outline.rx + t.proto0.rx
    && t.summary.tx == t.wg.tx + t.ipsec.tx + t.ovc.tx + t.outline.tx + t.proto0.tx
  }

  lemma SumBalances(c: PerProto<RxTx>)
    ensures Balanced(Traffic(Sum5(c), c.wg, c.ipsec, c.ovc, c.outline, c.proto0))
  {
  }

  predicate UserNotAfter(u: UserStats, now: Time) {
    && u.total.update <= now
    && u.meters.wg.counters.update <= now && u.meters.ipsec.counters.update <= now
    && u.meters.ovc.counters.update <= now && u.meters.outline.counters.update <= now
    && u.meters.proto0.counters.update <= now
  }

  predicate BrigadeNotAfter(b: BrigadeTotals, now: Time) {
    && b.total.update <= now
    && b.protos.wg.update <= now && b.protos.ipsec.update <= now && b.protos.ovc.update <= now
    && b.protos.outline.update <= now && b.protos.proto0.update <= now
  }

  lemma UserGrows(now: Time, u: UserStats, readings: PerProto<Option<RxTx>>, seen: LastSeen, limit: nat)
    requires UserNotAfter(u, now)
    ensures UserTotals(MergeUser(now, u, readings, seen, limit)) == UserTotals(u).Plus(UserTraffic(u, readings))
    ensures Balanced(UserTraffic(u, readings))
  {
    hide Inc, Sum5, Credit, Quota.Charge, MarkAll, Balanced;
    var c := CreditsOf(u, readings);
    SumBalances(c);
    IncTotal(now, Sum5(c), u.total);
    IncTotal(now, c.wg, u.meters.wg.counters);
    IncTotal(now, c.ipsec, u.meters.ipsec.counters);
    IncTotal(now, c.ovc, u.meters.ovc.counters);
    IncTotal(now, c.outline, u.meters.outline.counters);
    IncTotal(now, c.proto0, u.meters.proto0.counters);
  }

  lemma BrigadeGrows(now: Time, b: BrigadeTotals, t: Traffic)
    requires BrigadeNotAfter(b, now)
    ensures RunningTotals(MergeTotals(now, b, t)) == RunningTotals(b).Plus(t)
  {
    hide Inc;
    IncTotal(now, t.summary, b.total);
    IncTotal(now, t.wg, b.protos.wg);
    IncTotal(now, t.ipsec, b.protos.ipsec);
    IncTotal(now, t.ovc, b.protos.ovc);
    IncTotal(now, t.outline, b.protos.outline);
    IncTotal(now, t.proto0, b.protos.proto0);
  }

  lemma BalancedPlus(s: Traffic, t: Traffic)
    requires Balanced(s) && Balanced(t)
    ensures Balanced(s.Plus(t))
  {
  }

  lemma Shuffle(a: Traffic, x: Traffic, b: Traffic, y: Traffic)
    ensures a.Plus(x).Plus(b.Plus(y)) == a.Plus(b).Plus(x.Plus(y))
  {
  }

  lemma {:induction false} UsersGrow(now: Time, us: seq<UserStats>, readings: seq<PerProto<Option<RxTx>>>,
                                     seen: seq<LastSeen>, limit: nat)
    requires |us| == |readings| == |seen|
    requires forall u :: u in us ==> UserNotAfter(u, now)
    ensures var t := AllTraffic(us, readings);
      UsersTotals(MergeUsers(now, us, readings, seen, limit)) == UsersTotals(us).Plus(t) && Balanced(t)
    decreases |us|
  {
    hide MergeUser, UserTraffic, UserNotAfter, Balanced, Traffic.Plus, UserTotals;
    if us == [] {
      NoUsersGrow();
    } else {
      var n := |us| - 1;
      var merged := MergeUsers(now, us, readings, seen, limit);
      assert merged[..n] == MergeUsers(now, us[..n], readings[..n], seen[..n], limit);
      UsersGrow(now, us[..n], readings[..n], seen[..n], limit);
      assert us[n] in us;
      UserGrows(now, us[n], readings[n], seen[n], limit);
      BalancedPlus(AllTraffic(us[..n], readings[..n]), UserTraffic(us[n], readings[n]));
      Shuffle(UsersTotals(us[..n]), AllTraffic(us[..n], readings[..n]), UserTotals(us[n]),
              UserTraffic(us[n], readings[n]));
    }
  }

  lemma NoUsersGrow()
    ensures Balanced(QUIET) && QUIET.Plus(QUIET) == QUIET
  {
    SilenceIsBalanced(NO_TRAFFIC);
  }

  lemma SilenceIsBalanced(x: RxTx)
    requires x.rx == 0 && x.tx == 0
    ensures Balanced(Traffic(x, x, x, x, x, x)) && x.Plus(x) == x
  {
    assert x == RxTx(0, 0);
  }

  // In one merge whose time is not before any stored update, the running totals of the
  // brigade, the running totals of all users together and the newest slot of the month stack
  // all grow by the same traffic, and of that traffic the total is the sum of the protocols.
  lemma Conservation(now: Time, us: seq<UserStats>, b: BrigadeTotals, stack: seq<Slot>, at: Time, count: nat,
                     readings: seq<PerProto<Option<RxTx>>>, seen: seq<LastSeen>, limit: nat)
    requires |us| == |readings| == |seen| && |stack| == SIZE
    requires BrigadeNotAfter(b, now) && forall u :: u in us ==> UserNotAfter(u, now)
    ensures var t := AllTraffic(us, readings);
      var e := Entry(at, count, t);
      var newest := stack[SIZE - 1];
      && RunningTotals(MergeTotals(now, b, t)) == RunningTotals(b).Plus(t)
      && UsersTotals(MergeUsers(now, us, readings, seen, limit)) == UsersTotals(us).Plus(t)
      && Put(stack, e)[SIZE - 1].traffic == (if Rolls(newest, e) then QUIET else newest.traffic).Plus(t)
      && Balanced(t)
  {
    hide MergeUser, AllTraffic, UserNotAfter, BrigadeNotAfter, Balanced, UsersTotals, RunningTotals, MergeTotals;
    UsersGrow(now, us, readings, seen, limit);
    BrigadeGrows(now, b, AllTraffic(us, readings));
  }

  // ----- a user's books -----

  // All six counters were updated together, and the total is the sum of the protocols.
  predicate InBalance(u: UserStats) {
    && Balanced(UserTotals(u))
    && u.total.update == u.meters.wg.counters.update == u.meters.ipsec.counters.update
    && u.total.update == u.meters.ovc.counters.update == u.meters.outline.counters.update
    && u.total.update == u.meters.proto0.counters.update
  }

  lemma IncLate(now: Time, x: RxTx, c: NetCounters)
    requires now < c.update
    ensures Inc(now, x, c) == c
  {
  }

  // Every merge keeps a user's books balanced, whatever its time.
  lemma MergeKeepsBalance(now: Time, u: UserStats, readings: PerProto<Option<RxTx>>, seen: LastSeen, limit: nat)
    requires InBalance(u)
    ensures InBalance(MergeUser(now, u, readings, seen, limit))
  {
    hide Inc, Credit, Quota.Charge, MarkAll, Sum5;
    var c := CreditsOf(u, readings);
    SumBalances(c);
    if u.total.update <= now {
      IncTotal(now, Sum5(c), u.total);
      IncTotal(now, c.wg, u.meters.wg.counters);
      IncTotal(now, c.ipsec, u.meters.ipsec.counters);
      IncTotal(now, c.ovc, u.meters.ovc.counters);
      IncTotal(now, c.outline, u.meters.outline.counters);
      IncTotal(now, c.proto0, u.meters.proto0.counters);
      BalancedPlus(UserTotals(u), UserTraffic(u, readings));
    } else {
      IncLate(now, Sum5(c), u.total);
      IncLate(now, c.wg, u.meters.wg.counters);
      IncLate(now, c.ipsec, u.meters.ipsec.counters);
      IncLate(now, c.ovc, u.meters.ovc.counters);
      IncLate(now, c.outline, u.meters.outline.counters);
      IncLate(now, c.proto0, u.meters.proto0.counters);
    }
  }

  datatype Merge = Merge(now: Time, readings: PerProto<Option<RxTx>>, seen: LastSeen)

  function MergeRun(u: UserStats, merges: seq<Merge>, limit: nat): UserStats
    decreases |merges|
  {
    if merges == [] then u
    else MergeRun(MergeUser(merges[0].now, u, merges[0].readings, merges[0].seen, limit), merges[1..], limit)
  }

  // So over every run of merges, with any clock, a user's total is the sum of its protocols.
  lemma {:induction false} BalancedForEver(u: UserStats, merges: seq<Merge>, limit: nat)
    requires InBalance(u)
    ensures InBalance(MergeRun(u, merges, limit))
    decreases |merges|
  {
    hide InBalance, MergeUser;
    if merges != [] {
      var m := merges[0];
      MergeKeepsBalance(m.now, u, m.readings, m.seen, limit);
      BalancedForEver(MergeUser(m.now, u, m.readings, m.seen, limit), merges[1..], limit);
    }
  }

  // ----- a user's quota -----

  // All traffic of the user so far, received and sent.
  function Used(u: UserStats): nat {
    u.total.total.rx + u.total.total.tx
  }

  // What is left of a quota after so much traffic.
  predicate LeftOf(remaining: nat, quota: nat, traffic: int) {
    remaining == if traffic <= quota then quota - traffic else 0
  }

  // In one merge the quota shrinks by what the user's total grows by, after it was renewed if
  // its reset time has passed.
  predicate Spends(now: Time, u: UserStats, v: UserStats, limit: nat) {
    && Used(u) <= Used(v)
    && (u.quota.resetOn < now ==>
          LeftOf(v.quota.remaining, limit, Used(v) - Used(u)) && v.quota.resetOn == Quota.NextMonthlyResetOn(now))
    && (now <= u.quota.resetOn ==>
          LeftOf(v.quota.remaining, u.quota.remaining, Used(v) - Used(u)) && v.quota.resetOn == u.quota.resetOn)
  }

  lemma MergeSpends(now: Time, u: UserStats, readings: PerProto<Option<RxTx>>, seen: LastSeen, limit: nat)
    requires u.total.update <= now
    ensures Spends(now, u, MergeUser(now, u, readings, seen, limit), limit)
    ensures MergeUser(now, u, readings, seen, limit).total.update == now
  {
    hide Inc, MarkAll, ReadMeters, UserTraffic, Quota.NextMonthlyResetOn;
    IncTotal(now, UserTraffic(u, readings).summary, u.total);
  }

  // The merges come in time order, and none before the user's last update.
  ghost predicate Forward(u: UserStats, merges: seq<Merge>) {
    && (merges != [] ==> u.total.update <= merges[0].now)
    && forall i :: 0 < i < |merges| ==> merges[i - 1].now <= merges[i].now
  }

  // Over a run of merges up to the reset time the quota left is what was left at the start less
  // the growth of the user's total in both directions, or nothing.
  lemma {:induction false} QuotaWithoutRenewal(u: UserStats, merges: seq<Merge>, limit: nat)
    requires Forward(u, merges) && forall i :: 0 <= i < |merges| ==> merges[i].now <= u.quota.resetOn
    ensures var end := MergeRun(u, merges, limit);
      && Used(u) <= Used(end) && LeftOf(end.quota.remaining, u.quota.remaining, Used(end) - Used(u))
      && end.quota.resetOn == u.quota.resetOn
    decreases |merges|
  {
    hide MergeUser, Used;
    if merges != [] {
      var m := merges[0];
      MergeSpends(m.now, u, m.readings, m.seen, limit);
      QuotaWithoutRenewal(MergeUser(m.now, u, m.readings, m.seen, limit), merges[1..], limit);
    }
  }

  lemma {:induction false} MergeRunConcat(u: UserStats, a: seq<Merge>, b: seq<Merge>, limit: nat)
    ensures MergeRun(u, a + b, limit) == MergeRun(MergeRun(u, a, limit), b, limit)
    decreases |a|
  {
    hide MergeUser;
    if a == [] {
      assert a + b == b;
    } else {
      assert (a + b)[1..] == a[1..] + b;
      MergeRunConcat(MergeUser(a[0].now, u, a[0].readings, a[0].seen, limit), a[1..], b, limit);
    }
  }

  // The last update of a run that moves forward is not after anything that follows.
  lemma {:induction false} StillForward(u: UserStats, merges: seq<Merge>, limit: nat, i: nat)
    requires Forward(u, merges) && i <= |merges|
    ensures Forward(MergeRun(u, merges[..i], limit), merges[i..])
    decreases |merges|
  {
    hide MergeUser, Spends;
    if i > 0 {
      var m := merges[0];
      MergeSpends(m.now, u, m.readings, m.seen, limit);
      var v := MergeUser(m.now, u, m.readings, m.seen, limit);
      StillForward(v, merges[1..], limit, i - 1);
      assert merges[..i][1..] == merges[1..][..i - 1] && merges[i..] == merges[1..][i - 1..];
    }
  }

  lemma RenewedFirst(u: UserStats, merges: seq<Merge>, limit: nat)
    requires Forward(u, merges) && merges != [] && u.quota.resetOn < merges[0].now
    requires forall j :: 0 < j < |merges| ==> merges[j].now <= Quota.NextMonthlyResetOn(merges[0].now)
    ensures var end := MergeRun(u, merges, limit);
      && Used(u) <= Used(end) && LeftOf(end.quota.remaining, limit, Used(end) - Used(u))
      && end.quota.resetOn == Quota.NextMonthlyResetOn(merges[0].now)
  {
    hide MergeUser, Used, Quota.NextMonthlyResetOn;
    var m := merges[0];
    MergeSpends(m.now, u, m.readings, m.seen, limit);
    QuotaWithoutRenewal(MergeUser(m.now, u, m.readings, m.seen, limit), merges[1..], limit);
  }

  // Since the merge that renewed it, that merge included, and up to the next reset time, the
  // quota left is the limit less the growth of the user's total, or nothing.
  lemma QuotaSinceRenewal(u: UserStats, merges: seq<Merge>, limit: nat, i: nat)
    requires Forward(u, merges) && i < |merges|
    requires MergeRun(u, merges[..i], limit).quota.resetOn < merges[i].now
    requires forall j :: i < j < |merges| ==> merges[j].now <= Quota.NextMonthlyResetOn(merges[i].now)
    ensures var before, end := MergeRun(u, merges[..i], limit), MergeRun(u, merges, limit);
      && Used(before) <= Used(end) && LeftOf(end.quota.remaining, limit, Used(end) - Used(before))
      && end.quota.resetOn == Quota.NextMonthlyResetOn(merges[i].now)
  {
    hide *;
    StillForward(u, merges, limit, i);
    assert merges == merges[..i] + merges[i..];
    MergeRunConcat(u, merges[..i], merges[i..], limit);
    RenewedFirst(MergeRun(u, merges[..i], limit), merges[i..], limit);
  }
}
