// The books of a brigade over its whole life: users join and leave between the merges, and a
// patch puts the users of a file in their place.

module Books {
  import opened Brigade
  import opened Calendar
  import opened Counters
  import opened MonthStack
  import opened Stats
  import Order

  // The users that are there, the brigade's totals, every entry put on the month stack, and the
  // totals users had when they left. The clock is the latest time any counter was updated at.
  datatype Ledger = Ledger(users: seq<UserStats>, totals: BrigadeTotals, log: seq<Entry>, gone: Traffic, clock: Time)

  datatype Event =
    | Joins(user: UserStats)
    | Leaves(index: nat)
    | Patches(stays: seq<bool>, file: seq<UserStats>, latest: Time)
    | Merges(now: Time, at: Time, readings: seq<PerProto<Option<RxTx>>>, seen: seq<LastSeen>)

  const NO_TOTALS :=
    BrigadeTotals(NO_COUNTERS, PerProto(NO_COUNTERS, NO_COUNTERS, NO_COUNTERS, NO_COUNTERS, NO_COUNTERS))

  const NEW_LEDGER := Ledger([], NO_TOTALS, [], QUIET, ZERO_TIME)

  // A user as it is created: no traffic counted yet.
  predicate IsNew(u: UserStats) {
    && u.total == NO_COUNTERS
    && u.meters.wg.counters == NO_COUNTERS && u.meters.ipsec.counters == NO_COUNTERS
    && u.meters.ovc.counters == NO_COUNTERS && u.meters.outline.counters == NO_COUNTERS
    && u.meters.proto0.counters == NO_COUNTERS
  }

  // The users that stay, or those that do not.
  function Those(us: seq<UserStats>, stays: seq<bool>, stay: bool): seq<UserStats>
    requires |us| == |stays|
  {
    if us == [] then []
    else
      var n := |us| - 1;
      Those(us[..n], stays[..n], stay) + if stays[n] == stay then [us[n]] else []
  }

  // What can happen: merges have a reading for everybody and are not before any stored update.
  predicate CanHappen(l: Ledger, e: Event) {
    match e
    case Joins(u) => IsNew(u)
    case Leaves(i) => i < |l.users|
    case Patches(stays, file, latest) =>
      |stays| == |l.users| && l.clock <= latest && forall u :: u in file ==> UserNotAfter(u, latest)
    case Merges(now, at, readings, seen) =>
      |readings| == |seen| == |l.users| && l.clock <= now && at != ZERO_TIME
  }

  function Happens(l: Ledger, e: Event, limit: nat): Ledger
    requires CanHappen(l, e)
  {
    match e
    case Joins(u) => l.(users := l.users + [u])
    case Leaves(i) => l.(users := Order.RemoveAt(l.users, i), gone := l.gone.Plus(UserTotals(l.users[i])))
    // Patch takes the users, quotas and all, from the file; the brigade keeps its own counters.
    case Patches(stays, file, latest) =>
      l.(users := file, gone := l.gone.Plus(UsersTotals(Those(l.users, stays, false))), clock := latest)
    case Merges(now, at, readings, seen) =>
      var t := AllTraffic(l.users, readings);
      Ledger(MergeUsers(now, l.users, readings, seen, limit), MergeTotals(now, l.totals, t),
             l.log + [Entry(at, |l.users|, t)], l.gone, now)
  }

  // The brigade's totals are all that was ever put on the month stack, and the overall total is
  // the sum of the protocols.
  ghost predicate BrigadeBalances(l: Ledger) {
    && RunningTotals(l.totals) == Total(l.log) && Balanced(RunningTotals(l.totals))
    && BrigadeNotAfter(l.totals, l.clock) && Timed(l.log)
  }

  // They are also those of the users that are there and of those that left.
  ghost predicate UsersBalance(l: Ledger) {
    RunningTotals(l.totals) == UsersTotals(l.users).Plus(l.gone)
  }

  ghost predicate NothingLater(l: Ledger) {
    forall i :: 0 <= i < |l.users| ==> UserNotAfter(l.users[i], l.clock)
  }

  ghost predicate Kept(l: Ledger) {
    BrigadeBalances(l) && NothingLater(l)
  }

  // The file of a patch brings along what the users that stay have been counted.
  ghost predicate Faithful(l: Ledger, e: Event)
    requires CanHappen(l, e)
  {
    e.Patches? ==> UsersTotals(e.file) == UsersTotals(Those(l.users, e.stays, true))
  }

  lemma PlusSwaps(a: Traffic, b: Traffic, c: Traffic)
    ensures a.Plus(b).Plus(c) == a.Plus(c).Plus(b)
    ensures a.Plus(b) == b.Plus(a)
  {
  }

  // Taking one user out of a sum.
  lemma {:induction false} WithoutOne(us: seq<UserStats>, i: nat)
    requires i < |us|
    ensures UsersTotals(us) == UsersTotals(Order.RemoveAt(us, i)).Plus(UserTotals(us[i]))
    decreases |us|
  {
    hide UserTotals, Traffic.Plus;
    var n := |us| - 1;
    var rest := Order.RemoveAt(us, i);
    if i == n {
      assert rest == us[..n];
    } else {
      assert rest[..n - 1] == Order.RemoveAt(us[..n], i) && rest[n - 1] == us[n];
      WithoutOne(us[..n], i);
      PlusSwaps(UsersTotals(Order.RemoveAt(us[..n], i)), UserTotals(us[i]), UserTotals(us[n]));
    }
  }

  lemma NewUserHasNone(u: UserStats)
    requires IsNew(u)
    ensures UserTotals(u) == QUIET && forall now :: UserNotAfter(u, now)
  {
  }

  // After a merge no counter is later than the merge.
  lemma MergedUser(now: Time, u: UserStats, readings: PerProto<Option<RxTx>>, seen: LastSeen, limit: nat)
    requires UserNotAfter(u, now)
    ensures UserNotAfter(MergeUser(now, u, readings, seen, limit), now)
  {
    hide Inc, Sum5, Credit, Quota.Charge, MarkAll;
    var c := CreditsOf(u, readings);
    IncTotal(now, Sum5(c), u.total);
    IncTotal(now, c.wg, u.meters.wg.counters);
    IncTotal(now, c.ipsec, u.meters.ipsec.counters);
    IncTotal(now, c.ovc, u.meters.ovc.counters);
    IncTotal(now, c.outline, u.meters.outline.counters);
    IncTotal(now, c.proto0, u.meters.proto0.counters);
  }

  lemma MergedBrigade(now: Time, b: BrigadeTotals, t: Traffic)
    requires BrigadeNotAfter(b, now)
    ensures BrigadeNotAfter(MergeTotals(now, b, t), now)
  {
    hide Inc;
    IncTotal(now, t.summary, b.total);
    IncTotal(now, t.wg, b.protos.wg);
    IncTotal(now, t.ipsec, b.protos.ipsec);
    IncTotal(now, t.ovc, b.protos.ovc);
    IncTotal(now, t.outline, b.protos.outline);
    IncTotal(now, t.proto0, b.protos.proto0);
  }

  lemma StillNotAfter(u: UserStats, t: Time, now: Time)
    requires t <= now && UserNotAfter(u, t)
    ensures UserNotAfter(u, now)
  {
  }

  lemma BrigadeStillNotAfter(b: BrigadeTotals, t: Time, now: Time)
    requires t <= now && BrigadeNotAfter(b, t)
    ensures BrigadeNotAfter(b, now)
  {
  }

  lemma JoinBalances(l: Ledger, u: UserStats, limit: nat)
    requires UsersBalance(l) && IsNew(u)
    ensures UsersBalance(Happens(l, Joins(u), limit))
  {
    hide UserTotals, RunningTotals, IsNew, Traffic.Plus;
    NewUserHasNone(u);
    assert (l.users + [u])[..|l.users|] == l.users;
    PlusLaws(UsersTotals(l.users), QUIET, QUIET);
  }

  lemma LeaveBalances(l: Ledger, i: nat, limit: nat)
    requires UsersBalance(l) && i < |l.users|
    ensures UsersBalance(Happens(l, Leaves(i), limit))
  {
    hide UserTotals, UsersTotals, RunningTotals, Traffic.Plus;
    var rest := UsersTotals(Order.RemoveAt(l.users, i));
    WithoutOne(l.users, i);
    PlusLaws(rest, UserTotals(l.users[i]), l.gone);
    PlusSwaps(l.gone, UserTotals(l.users[i]), QUIET);
  }

  // Those that stay and those that do not make up all.
  lemma {:induction false} StayOrGo(us: seq<UserStats>, stays: seq<bool>)
    requires |us| == |stays|
    ensures UsersTotals(us) == UsersTotals(Those(us, stays, true)).Plus(UsersTotals(Those(us, stays, false)))
    decreases |us|
  {
    hide UserTotals, Traffic.Plus;
    if us == [] {
      PlusLaws(QUIET, QUIET, QUIET);
    } else {
      var n := |us| - 1;
      var stay, go := Those(us[..n], stays[..n], true), Those(us[..n], stays[..n], false);
      StayOrGo(us[..n], stays[..n]);
      assert (stay + [us[n]])[..|stay|] == stay && (go + [us[n]])[..|go|] == go;
      assert stay + [] == stay && go + [] == go;
      PlusSwaps(UsersTotals(stay), UsersTotals(go), UserTotals(us[n]));
      PlusLaws(UsersTotals(stay), UsersTotals(go), UserTotals(us[n]));
    }
  }

  lemma PlusCancels(a: Traffic, b: Traffic, c: Traffic)
    ensures a.Plus(c) == b.Plus(c) <==> a == b
  {
  }

  // A patch keeps the balance exactly when its file brings the totals of the users that stay.
  lemma PatchBalancesIff(l: Ledger, e: Event, limit: nat)
    requires UsersBalance(l) && e.Patches? && CanHappen(l, e)
    ensures UsersBalance(Happens(l, e, limit)) <==> Faithful(l, e)
  {
    hide UserTotals, UsersTotals, RunningTotals, Traffic.Plus, Those, UserNotAfter;
    var stay, go := UsersTotals(Those(l.users, e.stays, true)), UsersTotals(Those(l.users, e.stays, false));
    StayOrGo(l.users, e.stays);
    PlusLaws(stay, go, l.gone);
    PlusSwaps(l.gone, go, QUIET);
    PlusCancels(UsersTotals(e.file), stay, l.gone.Plus(go));
  }

  // What a merge adds to the brigade it adds to the users.
  lemma MergeBalances(l: Ledger, e: Event, limit: nat)
    requires Kept(l) && e.Merges? && CanHappen(l, e)
    ensures UsersBalance(l) ==> UsersBalance(Happens(l, e, limit))
    ensures BrigadeBalances(Happens(l, e, limit))
  {
    hide UserTotals, UsersTotals, RunningTotals, Balanced, UserNotAfter, BrigadeNotAfter, Timed, Traffic.Plus;
    hide MergeUser, MergeTotals, AllTraffic;
    var t := AllTraffic(l.users, e.readings);
    forall u | u in l.users ensures UserNotAfter(u, e.now) {
      StillNotAfter(u, l.clock, e.now);
    }
    BrigadeStillNotAfter(l.totals, l.clock, e.now);
    UsersGrow(e.now, l.users, e.readings, e.seen, limit);
    BrigadeGrows(e.now, l.totals, t);
    MergedBrigade(e.now, l.totals, t);
    BalancedPlus(RunningTotals(l.totals), t);
    PlusSwaps(UsersTotals(l.users), t, l.gone);
    LogGrows(l.log, Entry(e.at, |l.users|, t));
  }

  lemma LogGrows(log: seq<Entry>, e: Entry)
    requires Timed(log) && e.at != ZERO_TIME
    ensures Timed(log + [e]) && Total(log + [e]) == Total(log).Plus(e.traffic)
  {
    hide Traffic.Plus;
    assert (log + [e])[..|log|] == log;
  }

  lemma MergeKeepsClock(l: Ledger, e: Event, limit: nat)
    requires Kept(l) && e.Merges? && CanHappen(l, e)
    ensures NothingLater(Happens(l, e, limit))
  {
    hide BrigadeBalances, UserNotAfter, MergeUser, MergeTotals, AllTraffic;
    var after := Happens(l, e, limit);
    forall i | 0 <= i < |after.users| ensures UserNotAfter(after.users[i], e.now) {
      StillNotAfter(l.users[i], l.clock, e.now);
      MergedUser(e.now, l.users[i], e.readings[i], e.seen[i], limit);
    }
  }

  // Other events leave the brigade's own books alone.
  lemma OthersKeep(l: Ledger, e: Event, limit: nat)
    requires Kept(l) && !e.Merges? && CanHappen(l, e)
    ensures Kept(Happens(l, e, limit))
  {
    hide RunningTotals, Balanced, Total, UserNotAfter, BrigadeNotAfter, Timed, Traffic.Plus, UsersTotals, Those, IsNew;
    match e
    case Joins(u) => NewUserHasNone(u);
    case Leaves(_) =>
    case Patches(_, _, latest) => BrigadeStillNotAfter(l.totals, l.clock, latest);
  }

  lemma EventKeeps(l: Ledger, e: Event, limit: nat)
    requires Kept(l) && CanHappen(l, e)
    ensures Kept(Happens(l, e, limit))
    ensures UsersBalance(l) ==> (UsersBalance(Happens(l, e, limit)) <==> Faithful(l, e))
  {
    hide BrigadeBalances, UsersBalance, NothingLater, IsNew, Happens, Those;
    if e.Merges? {
      MergeBalances(l, e, limit);
      MergeKeepsClock(l, e, limit);
    } else {
      OthersKeep(l, e, limit);
      if UsersBalance(l) {
        match e
        case Joins(u) => JoinBalances(l, u, limit);
        case Leaves(i) => LeaveBalances(l, i, limit);
        case Patches(_, _, _) => PatchBalancesIff(l, e, limit);
      }
    }
  }

  ghost predicate Life(run: seq<Ledger>, events: seq<Event>, limit: nat) {
    && |run| == |events| + 1 && run[0] == NEW_LEDGER
    && forall i :: 0 <= i < |events| ==> CanHappen(run[i], events[i]) && run[i + 1] == Happens(run[i], events[i], limit)
  }

  // Over the whole life of a brigade its totals are the traffic the month stack holds and has
  // let go, for every protocol and for all together, and the overall total is the sum of the
  // five protocols.
  lemma {:induction false} BrigadeBalancesForEver(run: seq<Ledger>, events: seq<Event>, limit: nat, k: nat)
    requires Life(run, events, limit) && k < |run|
    ensures Kept(run[k])
    ensures var l := run[k];
      && RunningTotals(l.totals) == Held(Evicted(l.log)).Plus(Held(MonthStack.Run(l.log)))
      && Balanced(RunningTotals(l.totals))
  {
    hide Happens, CanHappen, RunningTotals, UsersTotals, Balanced, Held, Evicted, MonthStack.Run, Total, UsersBalance;
    if k == 0 {
      NewIsKept();
    } else {
      BrigadeBalancesForEver(run, events, limit, k - 1);
      EventKeeps(run[k - 1], events[k - 1], limit);
    }
    NothingIsLost(run[k].log);
  }

  // All along, they are also the sum of the totals of the users that are there and of those users
  // had when they left, if and only if every patch is faithful; so without a patch in any case.
  lemma {:induction false} BooksBalanceForEver(run: seq<Ledger>, events: seq<Event>, limit: nat)
    requires Life(run, events, limit)
    ensures (forall k :: 0 <= k < |run| ==> UsersBalance(run[k])) <==>
            (forall i :: 0 <= i < |events| ==> Faithful(run[i], events[i]))
    decreases |events|
  {
    hide CanHappen, UsersBalance, Faithful, Kept, NEW_LEDGER, Life;
    LifeBegins(run, events, limit);
    if events == [] {
      NewIsKept();
    } else {
      var n := |events| - 1;
      var before, early := run[..n + 1], events[..n];
      LifeGoesOn(run, events, limit);
      BooksBalanceForEver(before, early, limit);
      LastEventKeeps(run, events, limit);
      assert forall i :: 0 <= i <= n ==> before[i] == run[i];
      assert forall i :: 0 <= i < n ==> early[i] == events[i];
    }
  }

  lemma LifeBegins(run: seq<Ledger>, events: seq<Event>, limit: nat)
    requires Life(run, events, limit)
    ensures |run| == |events| + 1 && run[0] == NEW_LEDGER
    ensures forall i :: 0 <= i < |events| ==> CanHappen(run[i], events[i])
  {
    hide CanHappen, Happens, NEW_LEDGER;
  }

  lemma LifeGoesOn(run: seq<Ledger>, events: seq<Event>, limit: nat)
    requires Life(run, events, limit) && events != []
    ensures Life(run[..|events|], events[..|events| - 1], limit)
  {
    hide CanHappen, Happens, NEW_LEDGER;
  }

  lemma LastEventKeeps(run: seq<Ledger>, events: seq<Event>, limit: nat)
    requires Life(run, events, limit) && events != []
    ensures var n := |events| - 1;
      && CanHappen(run[n], events[n])
      && (UsersBalance(run[n]) ==> (UsersBalance(run[n + 1]) <==> Faithful(run[n], events[n])))
  {
    hide Happens, CanHappen, UsersBalance, Faithful, Kept, NEW_LEDGER;
    BrigadeBalancesForEver(run, events, limit, |events| - 1);
    EventKeeps(run[|events| - 1], events[|events| - 1], limit);
  }

  lemma NewIsKept()
    ensures Kept(NEW_LEDGER) && UsersBalance(NEW_LEDGER)
  {
    hide BrigadeBalances, NothingLater, UsersBalance;
    NewBalances();
    NewIsEarly();
  }

  lemma NewIsEarly()
    ensures NothingLater(NEW_LEDGER)
  {
    hide UserNotAfter;
  }

  lemma NewTotals()
    ensures RunningTotals(NO_TOTALS) == QUIET && BrigadeNotAfter(NO_TOTALS, ZERO_TIME)
  {
  }

  lemma NewBalances()
    ensures BrigadeBalances(NEW_LEDGER) && UsersBalance(NEW_LEDGER)
  {
    hide Sum5, Balanced, Traffic.Plus, RunningTotals, BrigadeNotAfter;
    NoUsersGrow();
    NewTotals();
  }

  // ----- a life in which the books do not balance -----

  const FIVE_BYTES: PerProto<Option<RxTx>> := PerProto(Some(RxTx(5, 0)), None, None, None, None)

  // A user joins, five bytes are merged, and a patch file still has the user as it was created.
  lemma PatchForgetsTraffic(u: UserStats, seen: LastSeen, limit: nat) returns (run: seq<Ledger>, events: seq<Event>)
    requires IsNew(u) && u.meters.wg.os == NO_TRAFFIC
    ensures Life(run, events, limit) && |events| == 3
    ensures events[2].Patches? && events[2].file == [u]
    ensures UsersBalance(run[2]) && !UsersBalance(run[3])
  {
    hide Happens, UserNotAfter, UsersBalance, Faithful, Those, Kept, NO_TOTALS;
    NewIsKept();
    NewUserHasNone(u);
    var e0, e1, e2 := Joins(u), Merges(1, 1, [FIVE_BYTES], [seen]), Patches([true], [u], 1);
    var l1 := Happens(NEW_LEDGER, e0, limit);
    EventKeeps(NEW_LEDGER, e0, limit);
    OneJoined(u, limit);
    FaithfulWithoutPatch(NEW_LEDGER, e0);
    var l2 := Happens(l1, e1, limit);
    EventKeeps(l1, e1, limit);
    OneMerged(u, seen, limit);
    FaithfulWithoutPatch(l1, e1);
    EventKeeps(l2, e2, limit);
    run, events := [NEW_LEDGER, l1, l2, Happens(l2, e2, limit)], [e0, e1, e2];
  }

  lemma FaithfulWithoutPatch(l: Ledger, e: Event)
    requires CanHappen(l, e) && !e.Patches?
    ensures Faithful(l, e)
  {
    hide CanHappen;
  }

  lemma OneJoined(u: UserStats, limit: nat)
    requires IsNew(u)
    ensures var l := Happens(NEW_LEDGER, Joins(u), limit);
      l.users == [u] && l.clock == ZERO_TIME
  {
    hide IsNew, NO_TOTALS;
  }

  lemma OneMerged(u: UserStats, seen: LastSeen, limit: nat)
    requires IsNew(u) && u.meters.wg.os == NO_TRAFFIC
    ensures var l := Happens(Happens(NEW_LEDGER, Joins(u), limit), Merges(1, 1, [FIVE_BYTES], [seen]), limit);
      var e := Patches([true], [u], 1);
      |l.users| == 1 && l.clock == 1 && CanHappen(l, e) && !Faithful(l, e)
  {
    hide MergeUser, IsNew, UserNotAfter, UsersTotals, Those, NO_TOTALS, MergeTotals, AllTraffic;
    NewUserHasNone(u);
    var v := MergeUser(1, u, FIVE_BYTES, seen, limit);
    var l := Happens(Happens(NEW_LEDGER, Joins(u), limit), Merges(1, 1, [FIVE_BYTES], [seen]), limit);
    assert l.users == [v];
    StaysAlone(v);
    MoreThanNew(u, seen, limit);
  }

  lemma StaysAlone(v: UserStats)
    ensures Those([v], [true], true) == [v]
  {
    assert Those([v][..0], [true][..0], true) == [];
  }

  lemma MoreThanNew(u: UserStats, seen: LastSeen, limit: nat)
    requires IsNew(u) && u.meters.wg.os == NO_TRAFFIC
    ensures UsersTotals([u]) != UsersTotals([MergeUser(1, u, FIVE_BYTES, seen, limit)])
  {
    hide MergeUser, UserTraffic, UserTotals, UsersTotals, UserNotAfter, Traffic.Plus, FIVE_BYTES;
    NewUserHasNone(u);
    UserGrows(1, u, FIVE_BYTES, seen, limit);
    FiveBytesCount(u);
    OneTotal(u);
    OneTotal(MergeUser(1, u, FIVE_BYTES, seen, limit));
  }

  lemma OneTotal(u: UserStats)
    ensures UsersTotals([u]) == UserTotals(u)
  {
    hide UserTotals, Traffic.Plus;
    assert [u][..0] == [];
    PlusLaws(UserTotals(u), QUIET, QUIET);
  }

  lemma FiveBytesCount(u: UserStats)
    requires u.meters.wg.os == NO_TRAFFIC
    ensures QUIET.Plus(UserTraffic(u, FIVE_BYTES)) != QUIET
  {
    hide Sum5;
    assert UserTraffic(u, FIVE_BYTES).wg == RxTx(5, 0);
  }
}
