// The merge itself: a loop over the users of a brigade that updates their counters, quotas
// and activity points in place, then the counters and the month stack of the brigade.

module MergeStats {
  import opened Brigade
  import opened Calendar
  import opened Counters
  import opened MonthStack
  import opened Stats
  import Activity
  import Quota

  // The books of one user.
  class Account {
    const key: Key
    var stats: UserStats

    constructor (key: Key, stats: UserStats)
      ensures this.key == key && this.stats == stats
    {
      this.key, this.stats := key, stats;
    }
  }

  // The books of the brigade.
  class Books {
    var accounts: seq<Account>
    var totals: BrigadeTotals
    var lastActivity: Time
    const stack: array<Slot>

    constructor (accounts: seq<Account>, totals: BrigadeTotals, last: Time, stack: array<Slot>)
      ensures this.accounts == accounts && this.totals == totals && this.lastActivity == last && this.stack == stack
    {
      this.accounts, this.totals, this.lastActivity, this.stack := accounts, totals, last, stack;
    }
  }

  // What the endpoint reported, by public key.
  datatype SeenMaps = SeenMaps(wg: map<Key, Time>, ipsec: map<Key, Time>, ovc: map<Key, Time>,
                               olc: map<Key, Time>, outline: map<Key, Time>, proto0: map<Key, Time>)

  datatype Report = Report(at: Time, traffic: PerProto<map<Key, RxTx>>, seen: SeenMaps)

  function Find<T>(m: map<Key, T>, k: Key): Option<T> {
    if k in m then Some(m[k]) else None
  }

  // A missing time reads as the zero time.
  function When(m: map<Key, Time>, k: Key): Time {
    if k in m then m[k] else ZERO_TIME
  }

  function ReadingsOf(r: Report, k: Key): PerProto<Option<RxTx>> {
    PerProto(Find(r.traffic.wg, k), Find(r.traffic.ipsec, k), Find(r.traffic.ovc, k), Find(r.traffic.outline, k),
             Find(r.traffic.proto0, k))
  }

  function SeenOf(r: Report, k: Key): LastSeen {
    LastSeen(When(r.seen.wg, k), When(r.seen.ipsec, k), When(r.seen.ovc, k), When(r.seen.olc, k),
             When(r.seen.outline, k), When(r.seen.proto0, k))
  }

  function AllReadings(r: Report, keys: seq<Key>): (s: seq<PerProto<Option<RxTx>>>)
    ensures |s| == |keys|
  {
    seq(|keys|, i requires 0 <= i < |keys| => ReadingsOf(r, keys[i]))
  }

  function AllSeen(r: Report, keys: seq<Key>): (s: seq<LastSeen>)
    ensures |s| == |keys|
  {
    seq(|keys|, i requires 0 <= i < |keys| => SeenOf(r, keys[i]))
  }

  // Every protocol is counted and marked by its own part of the report; a part that does not know
  // the key counts nothing and saw the user at no time.
  ghost predicate Reported(now: Time, r: Report, k: Key, u: UserStats, v: UserStats) {
    && Metered(now, r.traffic.wg, k, u.meters.wg, v.meters.wg)
    && Metered(now, r.traffic.ipsec, k, u.meters.ipsec, v.meters.ipsec)
    && Metered(now, r.traffic.ovc, k, u.meters.ovc, v.meters.ovc)
    && Metered(now, r.traffic.outline, k, u.meters.outline, v.meters.outline)
    && Metered(now, r.traffic.proto0, k, u.meters.proto0, v.meters.proto0)
    && Marked(now, r.seen.wg, k, u.activity.wg, v.activity.wg)
    && Marked(now, r.seen.ipsec, k, u.activity.ipsec, v.activity.ipsec)
    && Marked(now, r.seen.ovc, k, u.activity.ovc, v.activity.ovc)
    && Marked(now, r.seen.olc, k, u.activity.olc, v.activity.olc)
    && Marked(now, r.seen.outline, k, u.activity.outline, v.activity.outline)
    && Marked(now, r.seen.proto0, k, u.activity.proto0, v.activity.proto0)
  }

  predicate Metered(now: Time, traffic: map<Key, RxTx>, k: Key, m: Meter, m': Meter) {
    if k in traffic then m' == Read(m, Reading(now, Some(traffic[k]))) && m'.os == traffic[k]
    else m' == Read(m, Reading(now, None)) && m'.os == m.os
  }

  predicate Marked(now: Time, seen: map<Key, Time>, k: Key, p: Activity.Points, p': Activity.Points) {
    p' == MarkFixed(now, if k in seen then seen[k] else ZERO_TIME, p)
  }

  lemma MergeReports(now: Time, r: Report, k: Key, u: UserStats, limit: nat)
    ensures Reported(now, r, k, u, MergeUser(now, u, ReadingsOf(r, k), SeenOf(r, k), limit))
  {
    hide Inc, MarkFixed, UserTraffic, Quota.Charge;
  }

  function Keys(accounts: seq<Account>): (s: seq<Key>)
    ensures |s| == |accounts|
    ensures forall i :: 0 <= i < |accounts| ==> s[i] == accounts[i].key
  {
    seq(|accounts|, i requires 0 <= i < |accounts| => accounts[i].key)
  }

  function StatsOf(accounts: seq<Account>): (s: seq<UserStats>)
    reads accounts
    ensures |s| == |accounts|
    ensures forall i :: 0 <= i < |accounts| ==> s[i] == accounts[i].stats
  {
    seq(|accounts|, i requires 0 <= i < |accounts| reads accounts => accounts[i].stats)
  }

  ghost predicate Separate(accounts: seq<Account>) {
    forall i, j :: 0 <= i < j < |accounts| ==> accounts[i] != accounts[j]
  }

  // handleTrafficStat: one protocol of one user. The credit goes to the user's sum, to the
  // brigade's sum of the protocol and to the counters.
  method HandleTrafficStat(now: Time, reading: Option<RxTx>, m0: Meter, sum0: RxTx, total0: RxTx)
    returns (m: Meter, sum: RxTx, total: RxTx)
    ensures m == Read(m0, Reading(now, reading))
    ensures sum == sum0.Plus(Credit(m0.os, reading)) && total == total0.Plus(Credit(m0.os, reading))
  {
    hide Inc;
    m, sum, total := m0, sum0, total0;
    var counters;
    if reading.Some? {
      var traffic := reading.value;
      var rx, tx := traffic.rx, traffic.tx;
      if m.os.rx <= traffic.rx {
        rx := traffic.rx - m.os.rx;
      }
      if m.os.tx <= traffic.tx {
        tx := traffic.tx - m.os.tx;
      }
      m := m.(os := traffic);
      sum := sum.Plus(RxTx(rx, tx));
      total := total.Plus(RxTx(rx, tx));
      counters := IncDateSwitchRelated(now, RxTx(rx, tx), m.counters);
      m := m.(counters := counters);
      return;
    }
    counters := IncDateSwitchRelated(now, NO_TRAFFIC, m.counters);
    m := m.(counters := counters);
    assert forall x: RxTx :: x.Plus(NO_TRAFFIC) == x;
  }

  // The five protocols of one user.
  method HandleTraffic(now: Time, a: Account, readings: PerProto<Option<RxTx>>, t0: Traffic)
    returns (sum: RxTx, t: Traffic)
    modifies a
    ensures a.stats == old(a.stats).(meters := ReadMeters(now, old(a.stats).meters, readings))
    ensures sum == UserTraffic(old(a.stats), readings).summary
    ensures t == t0.Plus(UserTraffic(old(a.stats), readings)).(summary := t0.summary)
  {
    hide Inc, Credit, RxTx.Plus;
    sum, t := NO_TRAFFIC, t0;
    var m, x;
    m, sum, x := HandleTrafficStat(now, readings.wg, a.stats.meters.wg, sum, t.wg);
    a.stats, t := a.stats.(meters := a.stats.meters.(wg := m)), t.(wg := x);
    NothingPlus(sum);
    m, sum, x := HandleTrafficStat(now, readings.ipsec, a.stats.meters.ipsec, sum, t.ipsec);
    a.stats, t := a.stats.(meters := a.stats.meters.(ipsec := m)), t.(ipsec := x);
    m, sum, x := HandleTrafficStat(now, readings.ovc, a.stats.meters.ovc, sum, t.ovc);
    a.stats, t := a.stats.(meters := a.stats.meters.(ovc := m)), t.(ovc := x);
    m, sum, x := HandleTrafficStat(now, readings.outline, a.stats.meters.outline, sum, t.outline);
    a.stats, t := a.stats.(meters := a.stats.meters.(outline := m)), t.(outline := x);
    m, sum, x := HandleTrafficStat(now, readings.proto0, a.stats.meters.proto0, sum, t.proto0);
    a.stats, t := a.stats.(meters := a.stats.meters.(proto0 := m)), t.(proto0 := x);
    NothingPlus(CreditsOf(old(a.stats), readings).wg);
  }

  lemma NothingPlus(x: RxTx)
    ensures NO_TRAFFIC.Plus(x) == x
  {
  }

  // handleLastActivity: one protocol. The latest time seen is passed along.
  method HandleLastActivity(now: Time, seen: Time, p0: Activity.Points, latest0: Time)
    returns (p: Activity.Points, latest: Time)
    ensures p == MarkFixed(now, seen, p0) && latest == Max(latest0, seen)
  {
    p := p0;
    if p.total == UNIX_ZERO {
      p := p.(total := ZERO_TIME);
    }
    p := Activity.LastActivityMark(now, seen, p);
    latest := if seen > latest0 then seen else latest0;
  }

  // The user's points over all protocols.
  method MarkOverall(now: Time, latest: Time, p0: Activity.Points) returns (p: Activity.Points)
    ensures p == MarkFixed(now, latest, p0)
  {
    p := p0;
    if p.total == UNIX_ZERO {
      p := p.(total := ZERO_TIME);
    }
    p := Activity.LastActivityMark(now, latest, p);
  }

  // All activity points of one user.
  method HandleActivities(now: Time, a: Account, s: LastSeen) returns (latest: Time)
    modifies a
    ensures a.stats == old(a.stats).(activity := MarkAll(now, old(a.stats).activity, s))
    ensures latest == SeenOverall(old(a.stats).activity, s)
  {
    hide MarkFixed, Activity.Mark, Max;
    latest := a.stats.activity.overall.total;
    var p;
    p, latest := HandleLastActivity(now, s.wg, a.stats.activity.wg, latest);
    a.stats := a.stats.(activity := a.stats.activity.(wg := p));
    p, latest := HandleLastActivity(now, s.ipsec, a.stats.activity.ipsec, latest);
    a.stats := a.stats.(activity := a.stats.activity.(ipsec := p));
    p, latest := HandleLastActivity(now, s.ovc, a.stats.activity.ovc, latest);
    a.stats := a.stats.(activity := a.stats.activity.(ovc := p));
    p, latest := HandleLastActivity(now, s.olc, a.stats.activity.olc, latest);
    a.stats := a.stats.(activity := a.stats.activity.(olc := p));
    p, latest := HandleLastActivity(now, s.outline, a.stats.activity.outline, latest);
    a.stats := a.stats.(activity := a.stats.activity.(outline := p));
    p, latest := HandleLastActivity(now, s.proto0, a.stats.activity.proto0, latest);
    a.stats := a.stats.(activity := a.stats.activity.(proto0 := p));
    p := MarkOverall(now, latest, a.stats.activity.overall);
    a.stats := a.stats.(activity := a.stats.activity.(overall := p));
  }

  // The body of the loop over the users.
  method MergeAccount(now: Time, a: Account, readings: PerProto<Option<RxTx>>, s: LastSeen, limit: nat, t0: Traffic)
    returns (t: Traffic, latest: Time)
    modifies a
    ensures a.stats == MergeUser(now, old(a.stats), readings, s, limit)
    ensures latest == SeenOverall(old(a.stats).activity, s)
    ensures t == t0.Plus(UserTraffic(old(a.stats), readings))
    ensures old(a.stats.total.update) <= now ==> Spends(now, old(a.stats), a.stats, limit)
  {
    hide Inc, ReadMeters, MarkAll, RxTx.Plus, Quota.NextMonthlyResetOn, SeenOverall, Spends;
    if a.stats.total.update <= now {
      MergeSpends(now, a.stats, readings, s, limit);
    }
    var sum;
    sum, t := HandleTraffic(now, a, readings, t0);
    t := t.(summary := t.summary.Plus(sum));
    var total := IncDateSwitchRelated(now, sum, a.stats.total);
    a.stats := a.stats.(total := total);

    var quota := a.stats.quota;
    if quota.resetOn < now {
      quota := Quota.Quota(limit, Quota.NextMonthlyResetOn(now));
    }
    var spent := sum.rx + sum.tx;
    if quota.remaining >= spent {
      quota := quota.(remaining := quota.remaining - spent);
    } else {
      quota := quota.(remaining := 0);
    }
    a.stats := a.stats.(quota := quota);

    latest := HandleActivities(now, a, s);
  }

  // The six counters of the brigade.
  method MergeBrigade(now: Time, b: Books, t: Traffic)
    modifies b`totals
    ensures b.totals == MergeTotals(now, old(b.totals), t)
  {
    hide Inc;
    var p := b.totals.protos;
    var total := IncDateSwitchRelated(now, t.summary, b.totals.total);
    var wg := IncDateSwitchRelated(now, t.wg, p.wg);
    var ipsec := IncDateSwitchRelated(now, t.ipsec, p.ipsec);
    var ovc := IncDateSwitchRelated(now, t.ovc, p.ovc);
    var outline := IncDateSwitchRelated(now, t.outline, p.outline);
    var proto0 := IncDateSwitchRelated(now, t.proto0, p.proto0);
    b.totals := BrigadeTotals(total, PerProto(wg, ipsec, ovc, outline, proto0));
  }

  // The loop over the users, which adds up their traffic and keeps the brigade's last activity.
  method MergeAccounts(now: Time, accounts: seq<Account>, r: Report, limit: nat, last0: Time)
    returns (t: Traffic, last: Time)
    requires Separate(accounts)
    modifies accounts
    ensures var before, keys := old(StatsOf(accounts)), Keys(accounts);
      && t == AllTraffic(before, AllReadings(r, keys))
      && last == LastOfAll(last0, before, AllSeen(r, keys))
      && StatsOf(accounts) == MergeUsers(now, before, AllReadings(r, keys), AllSeen(r, keys), limit)
  {
    hide MergeUser, UserTraffic, Traffic.Plus, SeenOverall, AllTraffic, LastOfAll, ReadingsOf, SeenOf;
    ghost var before, keys := StatsOf(accounts), Keys(accounts);
    ghost var readings, seen := AllReadings(r, keys), AllSeen(r, keys);
    t, last := QUIET, last0;
    NobodyYet(last0);
    for i := 0 to |accounts|
      invariant forall j :: 0 <= j < i ==>
                  accounts[j].stats == MergeUser(now, before[j], readings[j], seen[j], limit)
      invariant forall j :: i <= j < |accounts| ==> accounts[j].stats == before[j]
      invariant t == AllTraffic(before[..i], readings[..i])
      invariant last == LastOfAll(last0, before[..i], seen[..i])
    {
      OneMore(before, readings, seen, last0, i);
      var latest;
      t, latest := MergeAccount(now, accounts[i], ReadingsOf(r, accounts[i].key), SeenOf(r, accounts[i].key), limit, t);
      if last == ZERO_TIME || last < latest {
        last := latest;
      }
    }
    assert before[..|accounts|] == before && readings[..|accounts|] == readings && seen[..|accounts|] == seen;
  }

  lemma NobodyYet(last: Time)
    ensures AllTraffic([], []) == QUIET && LastOfAll(last, [], []) == last
  {
  }

  // One more user in the two sums.
  lemma OneMore(us: seq<UserStats>, readings: seq<PerProto<Option<RxTx>>>, seen: seq<LastSeen>, last: Time, i: nat)
    requires |us| == |readings| == |seen| && i < |us|
    ensures AllTraffic(us[..i + 1], readings[..i + 1]) ==
            AllTraffic(us[..i], readings[..i]).Plus(UserTraffic(us[i], readings[i]))
    ensures LastOfAll(last, us[..i + 1], seen[..i + 1]) ==
            SeenBrigade(LastOfAll(last, us[..i], seen[..i]), SeenOverall(us[i].activity, seen[i]))
  {
    hide UserTraffic, Traffic.Plus, SeenOverall, SeenBrigade;
    assert us[..i + 1][..i] == us[..i] && readings[..i + 1][..i] == readings[..i] && seen[..i + 1][..i] == seen[..i];
  }

  lemma MergedAt(now: Time, us: seq<UserStats>, r: Report, keys: seq<Key>, limit: nat, i: nat)
    requires |us| == |keys| && i < |us|
    ensures MergeUsers(now, us, AllReadings(r, keys), AllSeen(r, keys), limit)[i] ==
            MergeUser(now, us[i], ReadingsOf(r, keys[i]), SeenOf(r, keys[i]), limit)
  {
    hide MergeUser, ReadingsOf, SeenOf;
  }

  // mergeStats, on the parts of the record modelled here. Now is the clock of the keydesk;
  // the month stack goes by the time in the report.
  method MergeReport(now: Time, b: Books, r: Report, limit: nat)
    requires Separate(b.accounts) && b.stack.Length == SIZE
    modifies b`totals, b`lastActivity, b.accounts, b.stack
    ensures var before, keys := old(StatsOf(b.accounts)), Keys(b.accounts);
      var t := AllTraffic(before, AllReadings(r, keys));
      && StatsOf(b.accounts) == MergeUsers(now, before, AllReadings(r, keys), AllSeen(r, keys), limit)
      && b.totals == MergeTotals(now, old(b.totals), t)
      && b.lastActivity == LastOfAll(old(b.lastActivity), before, AllSeen(r, keys))
      && b.stack[..] == Put(old(b.stack[..]), Entry(r.at, |b.accounts|, t))
    ensures forall i :: 0 <= i < |b.accounts| ==>
      Reported(now, r, b.accounts[i].key, old(b.accounts[i].stats), b.accounts[i].stats)
  {
    hide *;
    ghost var before := StatsOf(b.accounts);
    ghost var stack := b.stack[..];
    var t, last := MergeAccounts(now, b.accounts, r, limit, b.lastActivity);
    b.lastActivity := last;
    MergeBrigade(now, b, t);
    assert b.stack[..] == stack;
    PutInPlace(b.stack, Entry(r.at, |b.accounts|, t));
    forall i | 0 <= i < |b.accounts|
      ensures Reported(now, r, b.accounts[i].key, before[i], b.accounts[i].stats)
    {
      MergedAt(now, before, r, Keys(b.accounts), limit, i);
      MergeReports(now, r, b.accounts[i].key, before[i], limit);
    }
  }
}
