// The registry operations themselves: they decode the stored record into user objects, call
// the endpoint, change the list and the objects, sort, and commit at the end.

module RegistryOps {
  import opened Brigade
  import opened BrigadeStorage
  import opened Endpoint
  import opened Replay
  import opened ReplayBrigade
  import opened Order
  import opened Net
  import opened FreeAddress
  import opened Names
  import opened Registry
  import opened RegistryRuns
  import opened Outcomes
  import opened Peers

  const MAX_USERS: nat := 250

  // The random sources, as the streams of what they return.
  datatype Source = Source(ids: nat -> nat, v4: nat -> bv32, v6: nat -> Draws)

  ghost predicate Offers(ids: nat -> nat, used: set<nat>) {
    exists k :: ids(k) !in used
  }

  // The sources return what their functions promise.
  ghost predicate Drawn(source: Source, b: BrigadeInfo)
    requires Prefixed(b)
  {
    (forall k :: source.ids(k) != NIL) && forall k :: Draw4(b.ipv4CGNAT, source.v4(k))
  }

  ghost predicate Offers4(source: Source, p: Prefix4, taken: set<IPv4>)
    requires p.bits <= 32
  {
    exists k :: Free4(p, taken, source.v4(k))
  }

  ghost predicate Offers6(source: Source, p: Prefix6, taken: set<IPv6>)
    requires p.bits <= 128
  {
    exists k :: Free6(p, taken, source.v6(k))
  }

  // The three searches end: something they accept comes up sooner or later.
  ghost predicate Ends(source: Source, b: BrigadeInfo, users: seq<UserRec>, form: UserInfo)
    requires Prefixed(b)
  {
    && (form.id == NIL ==> Offers(source.ids, Ids(users)))
    && Offers4(source, b.ipv4CGNAT, Taken4(b.ipv4CGNAT, users))
    && Offers6(source, b.ipv6ULA, Taken6(b.ipv6ULA, users))
  }

  // Every address draw comes up sooner or later, and so does an ID outside any small set.
  ghost predicate Fair(source: Source, b: BrigadeInfo)
    requires Prefixed(b)
  {
    && Drawn(source, b)
    && (forall used :: |used| <= MAX_USERS ==> Offers(source.ids, used))
    && (forall x :: Draw4(b.ipv4CGNAT, x) ==> exists k :: source.v4(k) == x)
    && (forall d :: DrawsOf(b.ipv6ULA, d) ==> exists k :: source.v6(k) == d)
  }

  // An address the first search can come up with.
  ghost predicate Usable4(p: Prefix4, users: seq<UserRec>, a: IPv4)
    requires p.bits <= 32
  {
    In4(p, a) && !IsZeroEnding4(a) && a !in Taken4(p, users)
  }

  // Whatever the length of the prefix and whoever the users are, some draw is accepted exactly
  // when an address is left that is not taken and does not end in zero.
  lemma FreeDrawExactly(p: Prefix4, users: seq<UserRec>)
    requires p.bits <= 32
    ensures (exists x :: Free4(p, Taken4(p, users), x)) <==> exists a :: Usable4(p, users, a)
  {
    hide In4, IsZeroEnding4, Draw4, RandomAddrIPv4, LastPrefixIPv4;
    if x :| Free4(p, Taken4(p, users), x) {
      RandomIPv4Range(p, RandomAddrIPv4(p, x));
      assert Usable4(p, users, RandomAddrIPv4(p, x));
    }
    if a :| Usable4(p, users, a) {
      RandomIPv4Range(p, a);
      var x :| Draw4(p, x) && RandomAddrIPv4(p, x) == a;
      assert Free4(p, Taken4(p, users), x);
    }
  }

  // So with a fair source the first search ends exactly then.
  lemma SearchEndsExactly(source: Source, b: BrigadeInfo, users: seq<UserRec>)
    requires Prefixed(b) && Fair(source, b)
    ensures Offers4(source, b.ipv4CGNAT, Taken4(b.ipv4CGNAT, users)) <==>
            exists a :: Usable4(b.ipv4CGNAT, users, a)
  {
    hide Usable4, Taken4, RandomAddrIPv4, IsZeroEnding4;
    var p := b.ipv4CGNAT;
    FreeDrawExactly(p, users);
    if x :| Free4(p, Taken4(p, users), x) {
      assert Draw4(p, x);
      var k :| source.v4(k) == x;
      assert Free4(p, Taken4(p, users), source.v4(k));
    }
  }

  // In a prefix of a single address not even the first search ends, as it is the last one.
  lemma SingleAddressIsNone(p: Prefix4, a: IPv4)
    requires p.bits == 32
    ensures !Usable4(p, [], a)
  {
    if In4(p, a) {
      SingleIsLast(p, a);
    }
    hide In4, IsZeroEnding4, LastPrefixIPv4;
  }

  lemma SingleIsLast(p: Prefix4, a: IPv4)
    requires p.bits == 32 && In4(p, a)
    ensures a == LastPrefixIPv4(p)
  {
    var m := HostMask4(p.bits);
    assert Network32(a, m) == Network32(p.addr, m) && LastPrefixIPv4(p) == Fill32(Network32(p.addr, m), m) by {
      hide HostMask4, Network32, Fill32;
    }
    FullLength4(p.bits);
    hide *;
    var n := Network32(p.addr, m);
    NetworkIs32(a, m);
    FillIs32(n, m);
    BareSingle(a, n, m, Fill32(n, m));
  }

  lemma BareSingle(a: bv32, n: bv32, m: bv32, l: bv32)
    requires m == 0 && n == a & !m && l == n | m
    ensures a == l
  {
  }

  // With fair sources, prefixes of length 24 and 112 at most, and no more users than the limit,
  // the searches end.
  lemma FairSearchesEnd(source: Source, b: BrigadeInfo, users: seq<UserRec>, form: UserInfo)
    requires Roomy(b) && Fair(source, b) && |users| <= MAX_USERS
    ensures Drawn(source, b) && Ends(source, b, users, form)
  {
    hide Ids, Taken4, Taken6, Draw4, DrawsOf, RandomAddrIPv4, RandomAddrIPv6, IsZeroEnding4, IsZeroEnding6;
    IdsSize(users);
    Taken4Size(b.ipv4CGNAT, users);
    Taken6Size(b.ipv6ULA, users);
    var x := FreeIPv4(b.ipv4CGNAT, Taken4(b.ipv4CGNAT, users));
    var k :| source.v4(k) == x;
    assert Free4(b.ipv4CGNAT, Taken4(b.ipv4CGNAT, users), source.v4(k));
    var d := FreeIPv6(b.ipv6ULA, Taken6(b.ipv6ULA, users));
    var j :| source.v6(j) == d;
    assert Free6(b.ipv6ULA, Taken6(b.ipv6ULA, users), source.v6(j));
  }

  method PickID(used: set<nat>, ids: nat -> nat) returns (id: nat)
    requires Offers(ids, used)
    ensures id !in used && exists k :: id == ids(k)
  {
    ghost var end: nat :| ids(end) !in used;
    var k := 0;
    while ids(k) in used
      invariant k <= end
      decreases end - k
    {
      k := k + 1;
    }
    id := ids(k);
  }

  // ----- the sets of what is taken -----

  lemma {:induction false} IdsSize(users: seq<UserRec>)
    ensures |Ids(users)| <= |users|
  {
    if users != [] {
      var rest := users[..|users| - 1];
      IdsSize(rest);
      assert Ids(users) == Ids(rest) + {users[|users| - 1].info.id};
    }
  }

  lemma {:induction false} Taken4Size(p: Prefix4, users: seq<UserRec>)
    requires p.bits <= 32
    ensures |Taken4(p, users)| <= |users| + 2
  {
    hide LastPrefixIPv4;
    if users == [] {
      assert Taken4(p, users) == {p.addr, LastPrefixIPv4(p)};
    } else {
      var rest := users[..|users| - 1];
      Taken4Size(p, rest);
      assert Taken4(p, users) == Taken4(p, rest) + {users[|users| - 1].info.ipv4};
    }
  }

  lemma {:induction false} Taken6Size(p: Prefix6, users: seq<UserRec>)
    requires p.bits <= 128
    ensures |Taken6(p, users)| <= |users| + 2
  {
    hide LastPrefixIPv6;
    if users == [] {
      assert Taken6(p, users) == {p.addr, LastPrefixIPv6(p)};
    } else {
      var rest := users[..|users| - 1];
      Taken6Size(p, rest);
      assert Taken6(p, users) == Taken6(p, rest) + {users[|users| - 1].info.ipv6};
    }
  }

  // Something the operation calls failed; the other errors are its own.
  predicate Fault(e: Error) {
    e == OpenFailed || e == EndpointFailed || e == CommitFailed
  }

  // The walk over the users: it stops at the first one that stands in the way.
  method CollectTaken(b: BrigadeInfo, users: seq<User>, fullname: string, isBrigadier: bool)
    returns (clash: Option<Error>, ids: set<nat>, ip4s: set<IPv4>, ip6s: set<IPv6>)
    requires Prefixed(b)
    ensures clash == Clash(Recs(users), fullname, isBrigadier)
    ensures clash.Some? ==> clash.value == UserCollision || clash.value == BrigadierCollision
    ensures clash == None ==>
              && ids == Ids(Recs(users))
              && ip4s == Taken4(b.ipv4CGNAT, Recs(users)) && ip6s == Taken6(b.ipv6ULA, Recs(users))
  {
    hide LastPrefixIPv4, LastPrefixIPv6;
    ghost var recs := Recs(users);
    ids := {};
    ip4s := {b.ipv4CGNAT.addr, LastPrefixIPv4(b.ipv4CGNAT)};
    ip6s := {b.ipv6ULA.addr, LastPrefixIPv6(b.ipv6ULA)};
    for k := 0 to |users|
      invariant Clash(recs, fullname, isBrigadier) == Clash(recs[k..], fullname, isBrigadier)
      invariant ids == Ids(recs[..k])
      invariant ip4s == Taken4(b.ipv4CGNAT, recs[..k]) && ip6s == Taken6(b.ipv6ULA, recs[..k])
    {
      var u := users[k].info;
      assert recs[k..][0].info == u && recs[k..][1..] == recs[k + 1..];
      if u.name == fullname {
        return Some(UserCollision), ids, ip4s, ip6s;
      }
      if isBrigadier && u.isBrigadier {
        return Some(BrigadierCollision), ids, ip4s, ip6s;
      }
      TakenMore(b, recs, k);
      ids := ids + {u.id};
      ip4s := ip4s + {u.ipv4};
      ip6s := ip6s + {u.ipv6};
    }
    assert recs[..|users|] == recs;
    clash := None;
  }

  lemma TakenMore(b: BrigadeInfo, recs: seq<UserRec>, k: nat)
    requires Prefixed(b) && k < |recs|
    ensures Ids(recs[..k + 1]) == Ids(recs[..k]) + {recs[k].info.id}
    ensures Taken4(b.ipv4CGNAT, recs[..k + 1]) == Taken4(b.ipv4CGNAT, recs[..k]) + {recs[k].info.ipv4}
    ensures Taken6(b.ipv6ULA, recs[..k + 1]) == Taken6(b.ipv6ULA, recs[..k]) + {recs[k].info.ipv6}
  {
    hide LastPrefixIPv4, LastPrefixIPv6;
    var more, less := recs[..k + 1], recs[..k];
    assert more[k] == recs[k] && forall i :: 0 <= i < k ==> more[i] == less[i];
  }

  // The two searches for a free address.
  method PickAddresses(b: BrigadeInfo, ghost users: seq<UserRec>, ghost form: UserInfo,
                       ip4s: set<IPv4>, ip6s: set<IPv6>, source: Source)
    returns (ipv4: IPv4, ipv6: IPv6)
    requires Prefixed(b) && Drawn(source, b) && Ends(source, b, users, form)
    requires ip4s == Taken4(b.ipv4CGNAT, users) && ip6s == Taken6(b.ipv6ULA, users)
    ensures Placed(b, ipv4, ipv6)
    ensures ipv4 !in ip4s && ipv6 !in ip6s
  {
    hide LastPrefixIPv4, LastPrefixIPv6, Draw4, DrawsOf, In4, In6, IsZeroEnding4, IsZeroEnding6, Free4, Free6;
    ipv4 := PickIPv4(b.ipv4CGNAT, ip4s, source.v4);
    ipv6 := PickIPv6(b.ipv6ULA, ip6s, source.v6);
  }

  // Checks in their order, then an ID, two addresses and a name.
  method AssembleUser(b: BrigadeInfo, users: seq<User>, form: UserInfo, max: nat, salt: bv32, source: Source)
    returns (res: Result<UserInfo>)
    requires Prefixed(b) && Drawn(source, b)
    requires Refusal(Recs(users), form, max) == None ==> Ends(source, b, Recs(users), form)
    ensures Refusal(Recs(users), form, max) == if res.Ok? then None else Some(res.error)
    ensures res.Err? ==> !Fault(res.error)
    ensures res.Ok? ==> Assembled(b, salt, Recs(users), form, res.value)
  {
    hide Clash, Ids, DisplayName, Placed, Taken4, Taken6, Offers4, Offers6, Draw4;
    var clash, ids, ip4s, ip6s := CollectTaken(b, users, form.name, form.isBrigadier);
    if clash.Some? {
      return Err(clash.value);
    }
    if |ids| >= max {
      return Err(UserLimit);
    }
    var id := form.id;
    if id == NIL {
      id := PickID(ids, source.ids);
    } else if id in ids {
      return Err(UnresolvableCollision);
    }
    var ipv4, ipv6 := PickAddresses(b, Recs(users), form, ip4s, ip6s, source);
    var name := DisplayName(b.ipv4CGNAT, ipv4, salt, form.name);
    return Ok(form.(id := id, ipv4 := ipv4, ipv6 := ipv6, name := name, endpointDomain := ""));
  }

  // ----- calls -----

  // More calls can follow a script.
  lemma Lengthen(api: EndpointApi, job: Job, n: nat, more: seq<Call>)
    requires Carried(api, job, n)
    ensures Carried(api, job.(script := job.script + more), n)
    ensures n == |job.script| ==> Next(job.(script := job.script + more), n, more)
  {
    var longer := job.(script := job.script + more);
    assert longer.script[..n] == job.script[..n];
    assert longer.script[|job.script|..|job.script| + |more|] == more;
  }

  // The job an operation starts with: no calls yet.
  ghost function NewJob(api: EndpointApi, iface: Iface): Job
    reads api
  {
    Job(iface, api.slots, api.log, [])
  }

  // One more call at the end of a script.
  method SendMore(api: EndpointApi, c: Call, ghost job: Job, iface: Iface)
    returns (ok: bool, ghost job': Job, ghost n: nat)
    requires job.iface == iface && Carried(api, job, |job.script|)
    modifies api
    ensures api.faults == old(api.faults) + if ok then 0 else 1
    ensures job' == job.(script := job.script + [c]) && Carried(api, job', n)
    ensures ok ==> n == |job'.script|
  {
    job' := job.(script := job.script + [c]);
    Lengthen(api, job, |job.script|, [c]);
    ok, n := SendNext(api, c, job', iface, |job.script|);
  }

  // ----- the operations -----

  method FindUser(users: seq<User>, t: Test) returns (i: nat)
    ensures i == Find(Recs(users), t)
  {
    ghost var recs := Recs(users);
    i := 0;
    while i < |users| && !Meets(t, users[i].info)
      invariant i <= |users| && Find(recs, t) == i + Find(recs[i..], t)
    {
      assert recs[i..][1..] == recs[i + 1..];
      i := i + 1;
    }
  }

  // The brigadier is spliced out of the list, and then its peer is dropped.
  method RemoveBrigadier(api: EndpointApi, users: seq<User>, ghost job: Job, iface: Iface)
    returns (ok: bool, fullname: string, rest: seq<User>, ghost job': Job, ghost n: nat)
    requires job.iface == iface && Carried(api, job, 0) && job.script == [] && Distinct(users)
    modifies api
    ensures api.faults == old(api.faults) + if ok then 0 else 1
    ensures job' == job.(script := Removal(Recs(users)).calls) && Carried(api, job', n)
    ensures ok ==> n == |job'.script|
    ensures |rest| <= |users| && Distinct(rest) && forall j :: 0 <= j < |rest| ==> rest[j] in users
    ensures Recs(rest) == Removal(Recs(users)).users
    ensures var i := Find(Recs(users), ABrigadier);
      fullname == if i < |users| then TrimNumber(Recs(users)[i].info.name) else ""
  {
    hide Carried, TrimNumber;
    var i := FindUser(users, ABrigadier);
    job', n, fullname, rest := job, 0, "", users;
    if i == |users| {
      return true, fullname, rest, job', n;
    }
    fullname := TrimNumber(users[i].info.name);
    RemoveAtKeeps(users, i);
    rest := RemoveAt(users, i);
    ok, job', n := SendMore(api, PeerDel(users[i].info.wgPublicKey), job, iface);
  }

  // The list with one more user, sorted: in any case a permutation, and the user inserted in
  // its place when the comparison is an order on the list.
  ghost predicate Joined(users: seq<UserRec>, x: UserRec, sorted: seq<UserRec>) {
    && multiset(sorted) == multiset(users + [x])
    && (Ordered(users) && Orderable(users + [x]) ==> sorted == Insert(users, x))
  }

  // Put the new user into the list and sort.
  method AppendAndSort(users: seq<User>, rec: UserRec) returns (sorted: seq<User>)
    ensures Joined(Recs(users), rec, Recs(sorted))
  {
    hide Before, Ordered, Orderable, Insert;
    var u := new User(rec);
    assert Recs(users + [u]) == Recs(users) + [rec];
    sorted := SortUsers(users + [u]);
    if Ordered(Recs(users)) && Orderable(Recs(users) + [rec]) {
      InsertedIsSorted(Recs(users), rec, Recs(sorted));
    }
  }

  // Sorting after appending is inserting.
  lemma InsertedIsSorted(users: seq<UserRec>, x: UserRec, sorted: seq<UserRec>)
    requires Ordered(users) && Orderable(users + [x]) && Ordered(sorted)
    requires multiset(sorted) == multiset(users + [x])
    ensures sorted == Insert(users, x)
  {
    hide Before, Ordered, Orderable;
    var p := Find(users, After(x.info));
    InsertPlace(users, x);
    InsertAtOrdered(users, p, x);
    InsertAtCounts(users, p, x);
    OrderableAgain(users + [x], sorted);
    OrderedUnique(sorted, Insert(users, x));
  }

  // What a creation that completes stores: the remaining users and the new one, sorted.
  ghost predicate CreationStored(op: Op, b: BrigadeRec, added: UserInfo, stored: BrigadeRec)
    requires op.Create?
  {
    stored.info == b.info && Joined(Base(op, b.users).users, UserRec(added, false, NOTHING_DELAYED), stored.users)
  }

  // What a creation that fails has done. It did not start; it has dropped the old brigadier's
  // peer at most; or it was accepted, has called the endpoint about the new user too, and may
  // have died in its commit.
  ghost predicate CreationFailed(op: Op, was: Stored, salt: bv32, max: nat, added: UserInfo, script: seq<Call>, n: nat,
                                 now: Stored)
    requires op.Create? && Prefixed(was.rec.info)
  {
    || (script == [] && NotOpened(was, now))
    || (script == Base(op, was.rec.users).calls && now == was)
    || (Allowed(op, was.rec, salt, max, added) && script == PlanOf(op, was.rec, added).calls
        && (now == was || (n == |script| && exists b :: CreationStored(op, was.rec, added, b) && Spoilt(was, b, now))))
  }

  lemma CreationPlan(op: Op, b: BrigadeRec, added: UserInfo)
    requires op.Create?
    ensures PlanOf(op, b, added).calls ==
            Base(op, b.users).calls + [PeerAdd(added.wgPublicKey, PeerOf(added, b.info.keydeskIPv6))]
    ensures PlanOf(op, b, added).users == Insert(Base(op, b.users).users, UserRec(added, false, NOTHING_DELAYED))
  {
    hide Base, Insert, PeerOf;
  }

  // The replacement of the brigadier, if it is asked for.
  method Replace(api: EndpointApi, op: Op, users: seq<User>, ghost job: Job, iface: Iface)
    returns (ok: bool, form: UserInfo, rest: seq<User>, ghost job': Job, ghost n: nat)
    requires op.Create? && job.iface == iface && Carried(api, job, 0) && job.script == [] && Distinct(users)
    modifies api
    ensures api.faults == old(api.faults) + if ok then 0 else 1
    ensures job' == job.(script := Base(op, Recs(users)).calls) && Carried(api, job', n)
    ensures ok ==> n == |job'.script|
    ensures |rest| <= |users| && forall j :: 0 <= j < |rest| ==> rest[j] in users
    ensures Recs(rest) == Base(op, Recs(users)).users
    ensures form == FormFor(op, Recs(users))
  {
    hide Carried, TrimNumber, Find, Removal, Distinct;
    ok, form, rest, job', n := true, op.form, users, job, 0;
    if op.form.isBrigadier && op.replace {
      var fullname;
      ok, fullname, rest, job', n := RemoveBrigadier(api, users, job, iface);
      form := form.(name := fullname);
    }
  }

  // The new user's peer is added, and the list with the user in its place is committed.
  method EnrolUser(db: Storage, api: EndpointApi, info: BrigadeInfo, users: seq<User>, ghost base: seq<UserRec>,
                   added: UserInfo, ghost job: Job, iface: Iface)
    returns (res: Result<UserInfo>, ghost job': Job, ghost n: nat, ghost b: BrigadeRec)
    requires job.iface == iface && Carried(api, job, |job.script|) && base == Recs(users) && db.worth.Readable?
    modifies db`rec, db`worth, db`faults, api
    ensures job' == job.(script := job.script + [PeerAdd(added.wgPublicKey, PeerOf(added, info.keydeskIPv6))])
    ensures Carried(api, job', n)
    ensures db.faults + api.faults == old(db.faults + api.faults) + if res.Ok? then 0 else 1
    ensures res.Err? ==> Fault(res.error)
    ensures res.Ok? ==> res.value == added && n == |job'.script| && db.Now() == InOrder(b)
    ensures res.Err? ==> db.Now() == old(db.Now()) || (n == |job'.script| && Spoilt(old(db.Now()), b, db.Now()))
    ensures res.Ok? || db.Now() != old(db.Now()) ==>
              b.info == info && Joined(base, UserRec(added, false, NOTHING_DELAYED), b.users)
  {
    hide Carried, Joined, PeerOf;
    var ok;
    b := db.rec;
    ok, job', n := SendMore(api, PeerAdd(added.wgPublicKey, PeerOf(added, info.keydeskIPv6)), job, iface);
    if !ok {
      return Err(EndpointFailed), job', n, b;
    }
    var sorted := AppendAndSort(users, UserRec(added, false, NOTHING_DELAYED));
    b := BrigadeRec(info, Recs(sorted));
    ok := db.Commit(info, sorted);
    res := if ok then Ok(added) else Err(CommitFailed);
  }

  // A new user whose key was not known ends up with its own peer.
  ghost predicate Served(added: UserInfo, b: BrigadeInfo, s: Slot, t: Slot) {
    s.Up? && added.wgPublicKey !in s.peers ==> HasPeer(t, added, b.keydeskIPv6)
  }

  lemma CreationServes(op: Op, b: BrigadeRec, salt: bv32, max: nat, added: UserInfo, s: Slot, t: Slot)
    requires op.Create? && Prefixed(b.info) && Allowed(op, b, salt, max, added)
    requires t == ApplyAll(PlanOf(op, b, added).calls, s)
    ensures AsAsked(op, b.info, salt, added) && Served(added, b.info, s, t)
  {
    hide PlanOf, ApplyAll, Allowed, AsAsked, HasPeer, Prefixed;
    AddedAsAsked(op, b, salt, max, added);
    if s.Up? && added.wgPublicKey !in s.peers {
      CreationReaches(op, b, added, s);
    }
  }

  // The stored users are those there were, the brigadier excepted if it is replaced, and the new
  // one, which is not blocked and has nothing pending.
  ghost predicate Enrolled(op: Op, users: seq<UserRec>, added: UserInfo, stored: seq<UserRec>)
    requires op.Create?
  {
    AllApart(users) ==>
      multiset(stored) ==
      multiset(if op.form.isBrigadier && op.replace then Ordinary(users) else users)
        + multiset{UserRec(added, false, NOTHING_DELAYED)}
  }

  lemma CreationEnrols(op: Op, b: BrigadeRec, added: UserInfo, stored: BrigadeRec)
    requires op.Create? && CreationStored(op, b, added, stored)
    ensures Enrolled(op, b.users, added, stored.users)
  {
    hide AllApart, Base, Ordinary, Ordered, Orderable;
    if AllApart(b.users) {
      BaseExactly(op, b.users);
    }
  }

  method CreateUser(db: Storage, api: EndpointApi, op: Op, max: nat, salt: bv32, source: Source)
    returns (res: Result<UserInfo>, ghost added: UserInfo, ghost job: Job, ghost n: nat)
    requires op.Create? && Prefixed(db.rec.info) && Drawn(source, db.rec.info)
    requires var base, form := Base(op, db.rec.users).users, FormFor(op, db.rec.users);
      Refusal(base, form, max) == None ==> Ends(source, db.rec.info, base, form)
    modifies db`rec, db`worth, db`faults, api
    ensures job == old(NewJob(api, Iface(db.address, db.rec.info.wgPublicKey))).(script := job.script)
    ensures Carried(api, job, n)
    ensures res.Ok? ==>
      && added == res.value && Allowed(op, old(db.rec), salt, max, added)
      && n == |job.script| && job.script == PlanOf(op, old(db.rec), added).calls
      && old(db.worth).Readable? && db.worth.Readable? && CreationStored(op, old(db.rec), added, db.rec)
    ensures db.faults + api.faults == old(db.faults + api.faults) + if res.Err? && Fault(res.error) then 1 else 0
    ensures res.Err? && !Fault(res.error) ==>
      Refusal(Base(op, old(db.rec.users)).users, FormFor(op, old(db.rec.users)), max) == Some(res.error)
    ensures res.Err? ==> CreationFailed(op, old(db.Now()), salt, max, added, job.script, n, db.Now())
    ensures res.Ok? ==> AsAsked(op, old(db.rec.info), salt, added)
    ensures res.Ok? ==> Enrolled(op, old(db.rec.users), added, db.rec.users)
    ensures res.Ok? ==> Served(added, old(db.rec.info), GetSlot(old(api.slots), job.iface),
                               GetSlot(api.slots, job.iface))
    ensures var refusal := Refusal(Base(op, old(db.rec.users)).users, FormFor(op, old(db.rec.users)), max);
      refusal.Some? ==> res.Err? && res.error in {refusal.value, EndpointFailed, OpenFailed}
  {
    hide Carried, Refusal, Insert, PeerOf, Assembled, Base, FormFor, PlanOf, Joined, Drawn, Ends, Prefixed, Distinct;
    hide AsAsked, Served, Enrolled;
    ghost var b := db.rec;
    var info := db.rec.info;
    var iface := Iface(db.address, info.wgPublicKey);
    job, added, n := NewJob(api, iface), op.form, 0;
    NothingCarried(api, job);
    var form, ok;
    ok := db.Open();
    if !ok {
      return Err(OpenFailed), added, job, n;
    }
    var users := Decode(db.rec.users);
    ok, form, users, job, n := Replace(api, op, users, job, iface);
    if !ok {
      return Err(EndpointFailed), added, job, n;
    }
    res := AssembleUser(info, users, form, max, salt, source);
    if res.Ok? {
      added := res.value;
      CreationPlan(op, b, added);
      ghost var stored;
      res, job, n, stored := EnrolUser(db, api, info, users, Base(op, b.users).users, res.value, job, iface);
      if res.Ok? {
        CarriedSlot(api, job, n);
        assert job.script[..n] == job.script;
        CreationEnrols(op, b, added, db.rec);
        CreationServes(op, b, salt, max, added, GetSlot(job.slots, iface), GetSlot(api.slots, iface));
      }
    }
  }

  lemma DeletionPlan(op: Op, b: BrigadeRec, none: UserInfo)
    requires op.Delete?
    ensures var i, plan := Find(b.users, WithIdAndRole(op.id, op.brigadier)), PlanOf(op, b, none);
      && (i == |b.users| ==> plan == Plan([], b.users))
      && (i < |b.users| ==>
            && plan.calls == (if b.users[i].isBlocked then [] else [PeerDel(b.users[i].info.wgPublicKey)])
            && (op.onlyBlock ==> plan.users == b.users[i := b.users[i].(isBlocked := true)])
            && (!op.onlyBlock ==> plan.users == RemoveAt(b.users, i)))
  {
    hide Find;
  }

  // The peer of an unblocked user is dropped, and the user is blocked if that is all that was
  // asked for.
  method DropPeer(api: EndpointApi, users: seq<User>, i: nat, onlyBlock: bool, ghost recs: seq<UserRec>,
                  ghost job: Job, iface: Iface)
    returns (ok: bool, ghost job': Job, ghost n: nat)
    requires job.iface == iface && Carried(api, job, 0) && job.script == []
    requires Distinct(users) && recs == Recs(users) && i < |users|
    modifies api, users
    ensures api.faults == old(api.faults) + if ok then 0 else 1
    ensures job' == job.(script := if recs[i].isBlocked then [] else [PeerDel(recs[i].info.wgPublicKey)])
    ensures Carried(api, job', n) && (ok ==> n == |job'.script|)
    ensures ok ==> Recs(users) == if onlyBlock then recs[i := recs[i].(isBlocked := true)] else recs
  {
    hide Carried;
    var user := users[i];
    assert recs[i].isBlocked ==> recs[i := recs[i].(isBlocked := true)] == recs;
    if user.isBlocked {
      return true, job, 0;
    }
    ok, job', n := SendMore(api, PeerDel(user.info.wgPublicKey), job, iface);
    if ok && onlyBlock {
      user.isBlocked := true;
    }
  }

  method Splice(users: seq<User>, i: nat) returns (rest: seq<User>)
    requires i < |users|
    ensures Recs(rest) == RemoveAt(Recs(users), i)
  {
    rest := RemoveAt(users, i);
  }

  // What a change of one user leaves in the storage, by how far its calls got.
  ghost predicate ChangeLeaves(was: Stored, plan: Plan, ok: bool, n: nat, now: Stored) {
    var b := was.rec.(users := plan.users);
    if ok then was.worth.Readable? && now == InOrder(b) && n == |plan.calls|
    else NotOpened(was, now) || (n == |plan.calls| && Spoilt(was, b, now))
  }

  // So a deletion that completes leaves the list without the user of that ID and role, or with it
  // blocked; and wherever it ends, everybody else is still there, with the same peer.
  lemma DeletionLeaves(op: Op, was: Stored, none: UserInfo, ok: bool, n: nat, now: Stored, s: Slot, t: Slot)
    requires op.Delete? && n <= |PlanOf(op, was.rec, none).calls|
    requires ChangeLeaves(was, PlanOf(op, was.rec, none), ok, n, now)
    requires t == ApplyAll(PlanOf(op, was.rec, none).calls[..n], s)
    ensures ok && UniqueIds(was.rec.users) ==> Deleted(op, was.rec.users, now.rec.users)
    ensures OthersStay(op, was.rec.users, now.rec.users, s, t)
  {
    hide PlanOf, ApplyAll, Lookup, UniqueKeys, UniqueIds, Deleted, Condemned;
    if UniqueIds(was.rec.users) {
      DeletionExactly(op, was.rec, none);
    }
    if UniqueKeys(was.rec.users) {
      forall u | u in was.rec.users && !Condemned(op, u)
        ensures u in now.rec.users && Lookup(t, u.Key()) == Lookup(s, u.Key())
      {
        OthersSurvive(op, was.rec, none, n, s, u);
      }
    }
  }

  // The user is looked up, its peer dropped, and the list committed.
  method DeleteFound(db: Storage, api: EndpointApi, op: Op, ghost none: UserInfo)
    returns (ok: bool, ghost job: Job, ghost n: nat)
    requires op.Delete? && db.worth.Readable?
    modifies db`rec, db`worth, db`faults, api
    ensures job == old(NewJob(api, Iface(db.address, db.rec.info.wgPublicKey)))
                   .(script := PlanOf(op, old(db.rec), none).calls)
    ensures Carried(api, job, n)
    ensures ChangeLeaves(old(db.Now()), PlanOf(op, old(db.rec), none), ok, n, db.Now())
    ensures db.faults + api.faults == old(db.faults + api.faults) + if ok then 0 else 1
  {
    hide Carried, PeerOf, Find, Meets, PlanOf;
    DeletionPlan(op, db.rec, none);
    var info := db.rec.info;
    var iface := Iface(db.address, info.wgPublicKey);
    job, n := NewJob(api, iface), 0;
    NothingCarried(api, job);
    ghost var recs := db.rec.users;
    var users := Decode(db.rec.users);
    var i := FindUser(users, WithIdAndRole(op.id, op.brigadier));
    if i == |users| {
      return true, job, n;
    }
    ok, job, n := DropPeer(api, users, i, op.onlyBlock, recs, job, iface);
    if !ok {
      return false, job, n;
    }
    if !op.onlyBlock {
      users := Splice(users, i);
    }
    ok := db.Commit(info, users);
  }

  // Deleting a user, or only blocking it. A user that is not there is no error. The plan does
  // not depend on the newcomer it takes, so any will do; likewise for unblocking.
  method DeleteUser(db: Storage, api: EndpointApi, op: Op, ghost none: UserInfo)
    returns (ok: bool, ghost job: Job, ghost n: nat)
    requires op.Delete?
    modifies db`rec, db`worth, db`faults, api
    ensures job == old(NewJob(api, Iface(db.address, db.rec.info.wgPublicKey)))
                   .(script := PlanOf(op, old(db.rec), none).calls)
    ensures Carried(api, job, n)
    ensures ChangeLeaves(old(db.Now()), PlanOf(op, old(db.rec), none), ok, n, db.Now())
    ensures ok && UniqueIds(old(db.rec.users)) ==> Deleted(op, old(db.rec.users), db.rec.users)
    ensures OthersStay(op, old(db.rec.users), db.rec.users,
                       GetSlot(old(api.slots), job.iface), GetSlot(api.slots, job.iface))
    ensures db.faults + api.faults == old(db.faults + api.faults) + if ok then 0 else 1
  {
    hide Carried, PlanOf, OthersStay, Deleted, UniqueIds, Spoilt;
    ghost var was, slots, iface := db.Now(), api.slots, Iface(db.address, db.rec.info.wgPublicKey);
    job, n := NewJob(api, iface).(script := PlanOf(op, db.rec, none).calls), 0;
    NothingCarried(api, job);
    ok := db.Open();
    if ok {
      ok, job, n := DeleteFound(db, api, op, none);
    }
    CarriedSlot(api, job, n);
    DeletionLeaves(op, was, none, ok, n, db.Now(), GetSlot(slots, iface), GetSlot(api.slots, iface));
  }

  lemma CarriedSlot(api: EndpointApi, job: Job, n: nat)
    requires Carried(api, job, n)
    ensures n <= |job.script|
    ensures GetSlot(api.slots, job.iface) == ApplyAll(job.script[..n], GetSlot(job.slots, job.iface))
  {
  }

  lemma UnblockingPlan(op: Op, b: BrigadeRec, none: UserInfo)
    requires op.Unblock?
    ensures var i, plan := Find(b.users, WithId(op.id)), PlanOf(op, b, none);
      && (i == |b.users| ==> plan == Plan([], b.users))
      && (i < |b.users| ==> var u := b.users[i];
            && plan.calls ==
                 (if u.isBlocked then [PeerAdd(u.info.wgPublicKey, PeerOf(u.info, b.info.keydeskIPv6))] else [])
            && plan.users == b.users[i := u.(isBlocked := false)])
  {
    hide Find, PeerOf;
  }

  // The peer of a blocked user is added, and the user is not blocked any more.
  method RestorePeer(api: EndpointApi, users: seq<User>, i: nat, keydesk: Option<IPv6>, ghost recs: seq<UserRec>,
                     ghost job: Job, iface: Iface)
    returns (ok: bool, ghost job': Job, ghost n: nat)
    requires job.iface == iface && Carried(api, job, 0) && job.script == []
    requires Distinct(users) && recs == Recs(users) && i < |users|
    modifies api, users
    ensures api.faults == old(api.faults) + if ok then 0 else 1
    ensures job' == job.(script :=
              if recs[i].isBlocked then [PeerAdd(recs[i].info.wgPublicKey, PeerOf(recs[i].info, keydesk))] else [])
    ensures Carried(api, job', n) && (ok ==> n == |job'.script|)
    ensures ok ==> Recs(users) == recs[i := recs[i].(isBlocked := false)]
  {
    hide Carried, PeerOf;
    var user := users[i];
    assert !recs[i].isBlocked ==> recs[i := recs[i].(isBlocked := false)] == recs;
    if !user.isBlocked {
      return true, job, 0;
    }
    ok, job', n := SendMore(api, PeerAdd(user.info.wgPublicKey, PeerOf(user.info, keydesk)), job, iface);
    if ok {
      user.isBlocked := false;
    }
  }

  // The user is looked up, its peer added, and the list committed.
  method UnblockFound(db: Storage, api: EndpointApi, op: Op, ghost none: UserInfo)
    returns (res: Result<()>, ghost job: Job, ghost n: nat)
    requires op.Unblock? && db.worth.Readable?
    modifies db`rec, db`worth, db`faults, api
    ensures job == old(NewJob(api, Iface(db.address, db.rec.info.wgPublicKey)))
                   .(script := PlanOf(op, old(db.rec), none).calls)
    ensures Carried(api, job, n)
    ensures ChangeLeaves(old(db.Now()), PlanOf(op, old(db.rec), none), res.Ok?, n, db.Now())
    ensures db.faults + api.faults == old(db.faults + api.faults) + if res.Err? && Fault(res.error) then 1 else 0
    ensures res.Err? ==> res.error in {UserNotFound, EndpointFailed, CommitFailed}
    ensures var i := Find(old(db.rec.users), WithId(op.id));
      if i == |old(db.rec.users)| || old(db.rec.users)[i].Key() == "" then
        res.Err? && res.error in {UserNotFound, EndpointFailed} && db.Now() == old(db.Now())
      else res.Ok? || res.error != UserNotFound
  {
    hide Carried, PeerOf, Find, Meets, PlanOf;
    UnblockingPlan(op, db.rec, none);
    var info := db.rec.info;
    var iface := Iface(db.address, info.wgPublicKey);
    job, n := NewJob(api, iface), 0;
    NothingCarried(api, job);
    ghost var recs := db.rec.users;
    var users := Decode(db.rec.users);
    var i := FindUser(users, WithId(op.id));
    if i == |users| {
      return Err(UserNotFound), job, n;
    }
    var ok;
    ok, job, n := RestorePeer(api, users, i, info.keydeskIPv6, recs, job, iface);
    if !ok {
      return Err(EndpointFailed), job, n;
    }
    if users[i].info.wgPublicKey == "" {
      return Err(UserNotFound), job, n;
    }
    ok := db.Commit(info, users);
    res := if ok then Ok(()) else Err(CommitFailed);
  }

  // So an unblocking that completes leaves the user of that ID unblocked and with its own peer.
  lemma UnblockingLeaves(op: Op, was: Stored, none: UserInfo, n: nat, now: Stored, s: Slot, t: Slot)
    requires op.Unblock? && n <= |PlanOf(op, was.rec, none).calls| && UniqueIds(was.rec.users)
    requires ChangeLeaves(was, PlanOf(op, was.rec, none), true, n, now)
    requires t == ApplyAll(PlanOf(op, was.rec, none).calls[..n], s)
    ensures Unblocked(op.id, was.rec.users, now.rec.users) && UnblockedServed(op.id, was.rec, s, t)
  {
    hide PlanOf, ApplyAll, UniqueIds, Unblocked, HasPeer;
    var calls := PlanOf(op, was.rec, none).calls;
    assert calls[..n] == calls;
    UnblockingExactly(op, was.rec, none);
    forall u | u in was.rec.users && u.info.id == op.id && u.isBlocked && s.Up? && u.Key() !in s.peers
      ensures HasPeer(t, u.info, was.rec.info.keydeskIPv6)
    {
      UnblockingReaches(op, was.rec, none, s, u);
    }
  }

  // Unblocking a user. The record is committed also when there was nothing to do; a user
  // without a key counts as missing.
  method UnblockUser(db: Storage, api: EndpointApi, op: Op, ghost none: UserInfo)
    returns (res: Result<()>, ghost job: Job, ghost n: nat)
    requires op.Unblock?
    modifies db`rec, db`worth, db`faults, api
    ensures job == old(NewJob(api, Iface(db.address, db.rec.info.wgPublicKey)))
                   .(script := PlanOf(op, old(db.rec), none).calls)
    ensures Carried(api, job, n)
    ensures ChangeLeaves(old(db.Now()), PlanOf(op, old(db.rec), none), res.Ok?, n, db.Now())
    ensures res.Ok? && UniqueIds(old(db.rec.users)) ==>
      && Unblocked(op.id, old(db.rec.users), db.rec.users)
      && UnblockedServed(op.id, old(db.rec), GetSlot(old(api.slots), job.iface), GetSlot(api.slots, job.iface))
    ensures var i := Find(old(db.rec.users), WithId(op.id));
      if i == |old(db.rec.users)| || old(db.rec.users)[i].Key() == "" then
        res.Err? && res.error in {UserNotFound, EndpointFailed, OpenFailed} && NotOpened(old(db.Now()), db.Now())
      else res.Ok? || res.error != UserNotFound
    ensures db.faults + api.faults == old(db.faults + api.faults) + if res.Err? && Fault(res.error) then 1 else 0
  {
    hide Carried, PlanOf, Find, Unblocked, UnblockedServed, UniqueIds, Spoilt;
    ghost var was, slots, iface := db.Now(), api.slots, Iface(db.address, db.rec.info.wgPublicKey);
    job, n := NewJob(api, iface).(script := PlanOf(op, db.rec, none).calls), 0;
    NothingCarried(api, job);
    var ok := db.Open();
    if !ok {
      return Err(OpenFailed), job, n;
    }
    res, job, n := UnblockFound(db, api, op, none);
    CarriedSlot(api, job, n);
    if res.Ok? && UniqueIds(was.rec.users) {
      UnblockingLeaves(op, was, none, n, db.Now(), GetSlot(slots, iface), GetSlot(api.slots, iface));
    }
  }

  // ----- what the methods promise is what runs are made of -----

  lemma NewcomerIsOrderable(op: Op, b: BrigadeRec, salt: bv32, max: nat, added: UserInfo)
    requires op.Create? && Prefixed(b.info) && Registered(b, salt, max) && Allowed(op, b, salt, max, added)
    requires NewKey(b.users, op.form.wgPublicKey)
    ensures var base := Base(op, b.users).users;
      Ordered(base) && Orderable(base + [UserRec(added, false, NOTHING_DELAYED)])
  {
    hide Proper, Ordered, Apart, Before, Assembled, Clash, NewKey, Base, FormFor, Orderable;
    var base, form := Base(op, b.users).users, FormFor(op, b.users);
    var x := UserRec(added, false, NOTHING_DELAYED);
    BaseKeeps(op, b, salt, max);
    FormKeepsKey(op, b.users);
    forall i | 0 <= i < |base| ensures Apart(base[i].info, added) && Apart(added, base[i].info) {
      AssembledApart(b.info, salt, base, form, added, i);
    }
    InsertAtApart(base, |base|, x);
    ApartOrderable(base + [x]);
  }

  // An operation has made a step of a run, whatever keys now differ.
  ghost predicate Steps(w: World, rec: BrigadeRec, slot: Slot, salt: bv32, max: nat)
    requires Prefixed(w.rec.info)
  {
    exists drift :: Step(w, World(rec, slot, drift), salt, max)
  }

  // Wherever a creation with a new key stops, it has made a step of a run. One that died in its
  // commit after the new main was linked has made the step of one that completed.
  lemma CreationIsStep(w: World, was: Stored, op: Op, added: UserInfo, ok: bool, script: seq<Call>, n: nat,
                       now: Stored, salt: bv32, max: nat)
    requires w.rec == was.rec && op.Create? && Prefixed(w.rec.info) && Inv(w, salt, max) && Unknown(op, w)
    requires n <= |script|
    requires ok ==>
      && Allowed(op, w.rec, salt, max, added) && n == |script| && script == PlanOf(op, w.rec, added).calls
      && CreationStored(op, w.rec, added, now.rec)
    requires !ok ==> CreationFailed(op, was, salt, max, added, script, n, now)
    ensures Steps(w, now.rec, ApplyAll(script[..n], w.slot), salt, max)
  {
    hide Allowed, PeerOf, ApplyAll, KeysOf, Inv, Unknown, Base, Joined, Spoilt, Harmless;
    if ok {
      CompletedIsStep(w, op, added, now.rec, salt, max);
      assert script[..n] == script;
    } else if now.rec == was.rec {
      FailedIsStep(w, op, added, script, n, salt, max);
    } else {
      SpoiltOtherwise(op, was, added, now, salt, max);
      CompletedIsStep(w, op, added, now.rec, salt, max);
      assert script[..n] == script;
    }
  }

  lemma SpoiltOtherwise(op: Op, was: Stored, added: UserInfo, now: Stored, salt: bv32, max: nat)
    requires op.Create? && Prefixed(was.rec.info) && now.rec != was.rec
    requires exists script, n :: CreationFailed(op, was, salt, max, added, script, n, now)
    ensures Allowed(op, was.rec, salt, max, added) && CreationStored(op, was.rec, added, now.rec)
  {
    hide Allowed, Base, Joined, PlanOf;
  }

  lemma CompletedIsStep(w: World, op: Op, added: UserInfo, stored: BrigadeRec, salt: bv32, max: nat)
    requires op.Create? && Prefixed(w.rec.info) && Inv(w, salt, max) && Unknown(op, w)
    requires Allowed(op, w.rec, salt, max, added) && CreationStored(op, w.rec, added, stored)
    ensures Steps(w, stored, ApplyAll(PlanOf(op, w.rec, added).calls, w.slot), salt, max)
  {
    hide Allowed, Ordered, Orderable, Insert, PeerOf, ApplyAll, KeysOf, Registered, AgreesBut, NewKey, Base;
    NewcomerIsOrderable(op, w.rec, salt, max, added);
    var calls := PlanOf(op, w.rec, added).calls;
    assert Completes(w, op, added, World(stored, ApplyAll(calls, w.slot), w.drift - KeysOf(calls)), salt, max);
  }

  lemma FailedIsStep(w: World, op: Op, added: UserInfo, script: seq<Call>, n: nat, salt: bv32, max: nat)
    requires op.Create? && Prefixed(w.rec.info) && Unknown(op, w) && n <= |script|
    requires || script == [] || script == Base(op, w.rec.users).calls
             || (Allowed(op, w.rec, salt, max, added) && script == PlanOf(op, w.rec, added).calls)
    ensures Steps(w, w.rec, ApplyAll(script[..n], w.slot), salt, max)
  {
    hide Allowed, PeerOf, ApplyAll, KeysOf, Unknown, Base, Insert, Harmless;
    assert PlanOf(op, w.rec, added).calls[..n] == script[..n];
    var drift := DriftAfterFailure(w.drift, op, w.rec, script[..n]);
    assert Fails(w, op, added, n, World(w.rec, ApplyAll(script[..n], w.slot), drift), salt, max);
  }

  // The same for deleting, blocking and unblocking.
  lemma ChangeIsStep(w: World, was: Stored, op: Op, none: UserInfo, ok: bool, n: nat, now: Stored, salt: bv32, max: nat)
    requires w.rec == was.rec && !op.Create? && Prefixed(w.rec.info)
    requires var plan := PlanOf(op, w.rec, none);
      n <= |plan.calls| && ChangeLeaves(was, plan, ok, n, now)
    requires ok || now.rec != was.rec ==> Allowed(op, w.rec, salt, max, none)
    ensures Steps(w, now.rec, ApplyAll(PlanOf(op, w.rec, none).calls[..n], w.slot), salt, max)
  {
    hide PlanOf, ApplyAll, KeysOf, Allowed, Harmless;
    var script := PlanOf(op, w.rec, none).calls;
    var slot := ApplyAll(script[..n], w.slot);
    if ok || now.rec != was.rec {
      assert script[..n] == script;
      assert Completes(w, op, none, World(now.rec, slot, w.drift - KeysOf(script)), salt, max);
    } else {
      var drift := DriftAfterFailure(w.drift, op, w.rec, script[..n]);
      assert Fails(w, op, none, n, World(now.rec, slot, drift), salt, max);
    }
  }
}
