// The replay command itself: it decodes the stored record into user objects, drives the
// endpoint call by call, splices the user list, clears flags, and commits at the end.

module ReplayBrigade {
  import opened Brigade
  import opened BrigadeStorage
  import opened Endpoint
  import opened Replay
  import opened Order
  import opened Modes

  // A script of calls being carried out on one interface, and where the endpoint stood
  // when it began.
  datatype Job = Job(iface: Iface, slots: map<Iface, Slot>, log: seq<Call>, script: seq<Call>)

  // The endpoint has carried out the first n calls of the script, and nothing else.
  ghost predicate Carried(api: EndpointApi, job: Job, n: nat)
    reads api
  {
    && n <= |job.script|
    && GetSlot(api.slots, job.iface) == ApplyAll(job.script[..n], GetSlot(job.slots, job.iface))
    && (forall other :: other != job.iface ==> GetSlot(api.slots, other) == GetSlot(job.slots, other))
    && api.log == job.log + job.script[..n]
  }

  lemma NothingCarried(api: EndpointApi, job: Job)
    requires job.slots == api.slots && job.log == api.log
    ensures Carried(api, job, 0)
  {
    assert job.script[..0] == [];
  }

  // From its n-th call on the script continues with these calls.
  ghost predicate Next(job: Job, n: nat, calls: seq<Call>) {
    n + |calls| <= |job.script| && job.script[n..n + |calls|] == calls
  }

  lemma NextSplit(job: Job, n: nat, a: seq<Call>, b: seq<Call>)
    ensures Next(job, n, a + b) <==> Next(job, n, a) && Next(job, n + |a|, b)
  {
    if n + |a| + |b| <= |job.script| {
      SliceInTwo(job.script, n, |a|, |b|);
      var s, t := job.script[n..n + |a|], job.script[n + |a|..n + |a| + |b|];
      assert (s + t)[..|a|] == s && (s + t)[|a|..] == t;
      assert (a + b)[..|a|] == a && (a + b)[|a|..] == b;
    }
  }

  lemma SliceInTwo(script: seq<Call>, n: nat, i: nat, j: nat)
    requires n + i + j <= |script|
    ensures script[n..n + i + j] == script[n..n + i] + script[n + i..n + i + j]
  {
  }

  lemma NextWhole(job: Job)
    ensures Next(job, 0, job.script)
  {
  }

  method SendNext(api: EndpointApi, c: Call, ghost job: Job, iface: Iface, ghost n: nat)
    returns (ok: bool, ghost n': nat)
    requires job.iface == iface
    requires Carried(api, job, n) && Next(job, n, [c])
    modifies api
    ensures api.faults == old(api.faults) + if ok then 0 else 1
    ensures Carried(api, job, n') && n <= n' <= n + 1
    ensures ok ==> n' == n + 1
  {
    ghost var took;
    ok, took := api.Send(iface, c);
    n' := if took then n + 1 else n;
    if took {
      assert job.script[n] == job.script[n..n + 1][0];
      assert job.script[..n'] == job.script[..n] + [c];
      ApplyAllConcat(job.script[..n], [c], GetSlot(job.slots, iface));
    }
  }

  // The first user waiting for deletion, or the length of the list.
  method FindDeletion(users: seq<User>) returns (i: nat)
    ensures i <= |users|
    ensures forall j :: 0 <= j < i ==> !users[j].delayed.deletion
    ensures i < |users| ==> users[i].delayed.deletion
  {
    for k := 0 to |users|
      invariant forall j :: 0 <= j < k ==> !users[j].delayed.deletion
    {
      if users[k].delayed.deletion {
        return k;
      }
    }
    return |users|;
  }

  lemma {:induction false} SpliceDeletion(recs: seq<UserRec>, i: nat)
    requires i < |recs| && recs[i].delayed.deletion
    requires forall j :: 0 <= j < i ==> !recs[j].delayed.deletion
    ensures Kept(recs) == Kept(recs[..i] + recs[i+1..])
    ensures DeletionCalls(recs) == [PeerDel(recs[i].Key())] + DeletionCalls(recs[..i] + recs[i+1..])
  {
    if i == 0 {
      assert recs[..0] + recs[1..] == recs[1..];
    } else {
      var rest := recs[..i] + recs[i+1..];
      assert recs[1..][..i-1] + recs[1..][i..] == rest[1..];
      SpliceDeletion(recs[1..], i - 1);
    }
  }

  lemma {:induction false} NothingToDelete(recs: seq<UserRec>)
    requires forall j :: 0 <= j < |recs| ==> !recs[j].delayed.deletion
    ensures Kept(recs) == recs && DeletionCalls(recs) == []
  {
    if recs != [] {
      NothingToDelete(recs[1..]);
    }
  }

  lemma RemoveAtKeeps(users: seq<User>, i: nat)
    requires i < |users| && Distinct(users)
    ensures Distinct(RemoveAt(users, i))
    ensures Recs(RemoveAt(users, i)) == Recs(users)[..i] + Recs(users)[i+1..]
    ensures forall j :: 0 <= j < |users| - 1 ==> RemoveAt(users, i)[j] in users
  {
  }

  // The splice-and-restart loop. It terminates, makes one call for each deleted user in
  // order, and leaves the stable filter of the list.
  method DeleteDelayed(api: EndpointApi, users0: seq<User>, ghost recs0: seq<UserRec>,
                       ghost job: Job, iface: Iface, ghost n0: nat)
    returns (ok: bool, users: seq<User>, ghost n: nat)
    requires job.iface == iface && Distinct(users0) && Recs(users0) == recs0
    requires Carried(api, job, n0)
    requires Next(job, n0, DeletionCalls(recs0))
    modifies api
    ensures api.faults == old(api.faults) + if ok then 0 else 1
    ensures Carried(api, job, n) && n0 <= n
    ensures Distinct(users) && forall i :: 0 <= i < |users| ==> users[i] in users0
    ensures ok ==> Recs(users) == Kept(recs0) && n == n0 + |DeletionCalls(recs0)|
  {
    hide Carried, Next;
    users, n := users0, n0;
    ghost var recs := recs0;
    while true
      invariant Carried(api, job, n) && n0 <= n && api.faults == old(api.faults)
      invariant Distinct(users) && forall i :: 0 <= i < |users| ==> users[i] in users0
      invariant Recs(users) == recs && Kept(recs) == Kept(recs0)
      invariant Next(job, n, DeletionCalls(recs))
      invariant n + |DeletionCalls(recs)| == n0 + |DeletionCalls(recs0)|
      decreases |users|
    {
      var i := FindDeletion(users);
      if i == |users| {
        NothingToDelete(recs);
        return true, users, n;
      }
      var c := PeerDel(users[i].info.wgPublicKey);
      ghost var rest := recs[..i] + recs[i+1..];
      SpliceDeletion(recs, i);
      NextSplit(job, n, [c], DeletionCalls(rest));
      RemoveAtKeeps(users, i);
      ok, n := SendNext(api, c, job, iface, n);
      if !ok {
        return false, users, n;
      }
      users, recs := RemoveAt(users, i), rest;
    }
  }

  // One user of the main walk. Flags are cleared before the calls are made, on objects that
  // are thrown away when a call fails.
  method VisitUser(api: EndpointApi, u: User, keydesk: Option<IPv6>, m: Mode,
                   ghost job: Job, iface: Iface, ghost n0: nat)
    returns (ok: bool, ghost n: nat)
    requires job.iface == iface
    requires Carried(api, job, n0) && Next(job, n0, Visit(u.Rec(), keydesk, m).calls)
    modifies api, u
    ensures api.faults == old(api.faults) + if ok then 0 else 1
    ensures Carried(api, job, n) && n0 <= n
    ensures ok ==> u.Rec() == Visit(old(u.Rec()), keydesk, m).rec
    ensures ok ==> n == n0 + |Visit(old(u.Rec()), keydesk, m).calls|
  {
    hide Carried, Next, PeerOf;
    n := n0;
    var key := u.info.wgPublicKey;
    ghost var prepared := Prepare(u.Rec(), m).calls;
    ghost var add := [PeerAdd(key, PeerOf(u.info, keydesk))];
    NextSplit(job, n0, prepared, add);
    if !m.delayed && !m.donly && u.delayed.Any() {
      return true, n;
    }
    if m.donly || m.delayed {
      if u.delayed.blocking {
        u.delayed := u.delayed.(blocking := false);
        ok, n := SendNext(api, PeerDel(key), job, iface, n);
        if !ok {
          return false, n;
        }
      } else if u.delayed.replay {
        u.delayed := u.delayed.(replay := false, creation := true);
        ok, n := SendNext(api, PeerDel(key), job, iface, n);
        if !ok {
          return false, n;
        }
      }
    }
    if u.isBlocked {
      return true, n;
    }
    if m.donly && !u.delayed.creation && !u.delayed.replay && !u.delayed.blocking {
      return true, n;
    }
    ok, n := SendNext(api, PeerAdd(key, PeerOf(u.info, keydesk)), job, iface, n);
    if !ok {
      return false, n;
    }
    if (m.donly || m.delayed) && u.delayed.creation {
      u.delayed := u.delayed.(creation := false);
    }
    return true, n;
  }

  // The main walk over the surviving users.
  method VisitAll(api: EndpointApi, users: seq<User>, ghost recs: seq<UserRec>, keydesk: Option<IPv6>, m: Mode,
                  ghost job: Job, iface: Iface, ghost n0: nat)
    returns (ok: bool, ghost n: nat)
    requires job.iface == iface && Distinct(users) && Recs(users) == recs
    requires Carried(api, job, n0) && Next(job, n0, VisitCalls(recs, keydesk, m))
    modifies api, users
    ensures api.faults == old(api.faults) + if ok then 0 else 1
    ensures Carried(api, job, n) && n0 <= n
    ensures ok ==> Recs(users) == VisitRecs(recs, keydesk, m) && n == n0 + |VisitCalls(recs, keydesk, m)|
  {
    hide Carried, Visit, Next;
    n := n0;
    for i := 0 to |users|
      invariant Carried(api, job, n) && n0 <= n && api.faults == old(api.faults)
      invariant forall j :: 0 <= j < i ==> users[j].Rec() == Visit(recs[j], keydesk, m).rec
      invariant forall j :: i <= j < |users| ==> users[j].Rec() == recs[j]
      invariant Next(job, n, VisitCalls(recs[i..], keydesk, m))
      invariant n + |VisitCalls(recs[i..], keydesk, m)| == n0 + |VisitCalls(recs, keydesk, m)|
    {
      assert recs[i..][1..] == recs[i+1..];
      NextSplit(job, n, Visit(recs[i], keydesk, m).calls, VisitCalls(recs[i+1..], keydesk, m));
      ok, n := VisitUser(api, users[i], keydesk, m, job, iface, n);
      if !ok {
        return false, n;
      }
    }
    return true, n;
  }

  // The calls about the interface itself.
  method ReplayIface(api: EndpointApi, info: BrigadeInfo, m: Mode, ghost job: Job, iface: Iface)
    returns (ok: bool, ghost n: nat)
    requires job.iface == iface && Carried(api, job, 0)
    requires Next(job, 0, IfaceCalls(info, m))
    modifies api
    ensures api.faults == old(api.faults) + if ok then 0 else 1
    ensures Carried(api, job, n)
    ensures ok ==> n == |IfaceCalls(info, m)|
  {
    n := 0;
    if !m.donly {
      ghost var add := if !m.uonly then [WgAdd(ParamsOf(info))] else [];
      NextSplit(job, 0, if m.clean then [WgDel] else [], add);
      if m.clean {
        ok, n := SendNext(api, WgDel, job, iface, n);
        if !ok {
          return false, n;
        }
      }
      if !m.uonly {
        ok, n := SendNext(api, WgAdd(ParamsOf(info)), job, iface, n);
        if !ok {
          return false, n;
        }
      }
    }
    return true, n;
  }

  // Everything the command does with the users.
  method WalkUsers(api: EndpointApi, users0: seq<User>, ghost recs: seq<UserRec>, keydesk: Option<IPv6>, m: Mode,
                   ghost job: Job, iface: Iface, ghost n0: nat)
    returns (ok: bool, users: seq<User>, ghost n: nat)
    requires job.iface == iface && Distinct(users0) && Recs(users0) == recs
    requires Carried(api, job, n0) && Next(job, n0, WalkCalls(recs, keydesk, m))
    modifies api, users0
    ensures api.faults == old(api.faults) + if ok then 0 else 1
    ensures Carried(api, job, n)
    ensures ok ==> n == n0 + |WalkCalls(recs, keydesk, m)|
    ensures ok ==> Recs(users) == VisitRecs(Survivors(recs, m), keydesk, m)
  {
    hide Carried, Next, Visit, Distinct;
    users, n := users0, n0;
    NextSplit(job, n, if m.Acts() then DeletionCalls(recs) else [], VisitCalls(Survivors(recs, m), keydesk, m));
    if m.delayed || m.donly {
      ok, users, n := DeleteDelayed(api, users0, recs, job, iface, n);
      if !ok {
        return false, users, n;
      }
    }
    ok, n := VisitAll(api, users, Survivors(recs, m), keydesk, m, job, iface, n);
  }

  // What a run of the command leaves in the storage.
  ghost predicate ReplayLeaves(was: Stored, m: Mode, ok: bool, now: Stored) {
    if ok then was.worth.Readable? && now == InOrder(Replayed(was.rec, m))
    else Spoilt(was, Replayed(was.rec, m), now)
  }

  lemma CarriedReaches(api: EndpointApi, job: Job, b: BrigadeRec, m: Mode)
    requires job.script == Script(b, m) && Carried(api, job, |job.script|)
    ensures Reached(b, m, GetSlot(job.slots, job.iface), GetSlot(api.slots, job.iface))
  {
    hide Reached, Script;
    assert job.script[..|job.script|] == job.script;
    ScriptReaches(b, m, GetSlot(job.slots, job.iface));
  }

  // The whole command. Wherever it stops, the interface of the record, at the address the
  // process calls, has seen a prefix of the script, and no other interface anything. The
  // storage is only touched after the whole script. It fails exactly when an open, a call or
  // the commit fails, and stops at the first that does.
  method ReplayBrigade(db: Storage, api: EndpointApi, m: Mode, ghost job: Job) returns (ok: bool, ghost n: nat)
    requires job == Job(Iface(db.address, db.rec.info.wgPublicKey), api.slots, api.log, Script(db.rec, m))
    modifies db`rec, db`worth, db`faults, api
    ensures Carried(api, job, n)
    ensures ok ==> n == |job.script|
    ensures ok ==> Reached(old(db.rec), m, GetSlot(old(api.slots), job.iface), GetSlot(api.slots, job.iface))
    ensures ReplayLeaves(old(db.Now()), m, ok, db.Now())
    ensures n < |job.script| ==> NotOpened(old(db.Now()), db.Now())
    ensures db.faults + api.faults == old(db.faults + api.faults) + if ok then 0 else 1
  {
    hide Carried, Next, Script, Replayed, IfaceCalls, WalkCalls, Reached;
    NothingCarried(api, job);
    n := 0;
    ok := db.Open();
    if !ok {
      return;
    }
    ghost var b := db.rec;
    var info := db.rec.info;
    var iface := Iface(db.address, info.wgPublicKey);
    var users := Decode(db.rec.users);
    NextWhole(job);
    ScriptParts(b, m, job);
    ok, n := ReplayIface(api, info, m, job, iface);
    if !ok || (m.bonly && !m.donly) {
      if ok {
        CarriedReaches(api, job, b, m);
      }
      return;
    }
    ok, users, n := WalkUsers(api, users, b.users, info.keydeskIPv6, m, job, iface, n);
    if ok {
      CarriedReaches(api, job, b, m);
    }
    if ok && (m.donly || m.delayed) {
      ok := db.Commit(info, users);
    }
  }

  // The script in its two parts, and the record for both ways the command goes on.
  lemma ScriptParts(b: BrigadeRec, m: Mode, job: Job)
    requires Next(job, 0, job.script) && job.script == Script(b, m)
    ensures var walk := if Walks(m) then WalkCalls(b.users, b.info.keydeskIPv6, m) else [];
      && Next(job, 0, IfaceCalls(b.info, m)) && Next(job, |IfaceCalls(b.info, m)|, walk)
      && |job.script| == |IfaceCalls(b.info, m)| + |walk|
    ensures !Walks(m) || !m.Acts() ==> Replayed(b, m) == b
    ensures Walks(m) && m.Acts() ==>
              Replayed(b, m) == BrigadeRec(b.info, VisitRecs(Survivors(b.users, m), b.info.keydeskIPv6, m))
  {
    hide IfaceCalls, WalkCalls, VisitRecs, Next;
    NextSplit(job, 0, IfaceCalls(b.info, m), if Walks(m) then WalkCalls(b.users, b.info.keydeskIPv6, m) else []);
  }

  // The replay command: the address is calculated from the record as it is stored now.
  method ReplayMain(db: Storage, api: EndpointApi, m: Mode, ghost was: BrigadeRec)
    returns (ok: bool, ghost job: Job, ghost n: nat)
    requires was == db.rec
    modifies db, api
    ensures job == Job(Home(was.info), old(api.slots), old(api.log), Script(was, m))
    ensures Carried(api, job, n) && (ok ==> n == |job.script|)
    ensures ok ==> Reached(was, m, GetSlot(old(api.slots), Home(was.info)), GetSlot(api.slots, Home(was.info)))
    ensures ReplayLeaves(old(db.Now()), m, ok, db.Now())
    ensures db.faults + api.faults == old(db.faults + api.faults) + if ok then 0 else 1
  {
    hide Carried, Script, Reached;
    job, n := Job(Home(was.info), api.slots, api.log, Script(was, m)), 0;
    NothingCarried(api, job);
    ok := db.SelfCheckAndInit(None);
    if !ok {
      return;
    }
    ok, n := ReplayBrigade(db, api, m, job);
  }
}
