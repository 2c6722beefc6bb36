// Interrupted replays, undisturbed users, and replaying twice.

module Resume {
  import opened Brigade
  import Strings
  import opened Endpoint
  import opened Replay
  import opened Patch
  import opened Peers
  import opened Convergence

  // ----- interruption -----

  // A deletion of the key makes the outcome independent of what was there before.
  lemma {:induction false} DeletionForgets(calls: seq<Call>, k: Key, v: Option<Peer>, w: Option<Peer>)
    requires PeerDel(k) in calls
    ensures ActAll(calls, k, v) == ActAll(calls, k, w)
    decreases |calls|
  {
    if calls[0] != PeerDel(k) {
      assert calls == [calls[0]] + calls[1..];
      DeletionForgets(calls[1..], k, ActOn(calls[0], k, v), ActOn(calls[0], k, w));
    }
  }

  // Without one, a peer that is there stays.
  lemma {:induction false} AddsKeep(calls: seq<Call>, k: Key, v: Option<Peer>)
    requires PeerDel(k) !in calls && v.Some?
    ensures ActAll(calls, k, v) == v
    decreases |calls|
  {
    if calls != [] {
      AddsKeep(calls[1..], k, v);
    }
  }

  // Running any part of a list of peer calls first does not change where the list ends.
  lemma ResumeOnKey(calls: seq<Call>, i: nat, k: Key, v: Option<Peer>)
    requires i <= |calls|
    ensures ActAll(calls, k, ActAll(calls[..i], k, v)) == ActAll(calls, k, v)
  {
    var mid := ActAll(calls[..i], k, v);
    if PeerDel(k) in calls {
      DeletionForgets(calls, k, mid, v);
    } else if mid.Some? {
      assert calls == calls[..i] + calls[i..];
      ActAllConcat(calls[..i], calls[i..], k, v);
      AddsKeep(calls[i..], k, mid);
      AddsKeep(calls, k, mid);
    } else if v.Some? {
      AddsKeep(calls[..i], k, v);
    }
  }

  lemma PeersEqual(s: Slot, t: Slot)
    requires s.Up? && t.Up? && s.params == t.params
    requires forall k :: Lookup(s, k) == Lookup(t, k)
    ensures s == t
  {
    forall k | k in s.peers || k in t.peers ensures k in s.peers && k in t.peers && s.peers[k] == t.peers[k] {
      assert Lookup(s, k) == Lookup(t, k);
    }
    assert s.peers.Keys == t.peers.Keys;
    assert s.peers == t.peers;
  }

  lemma ResumePeers(calls: seq<Call>, i: nat, s: Slot)
    requires i <= |calls| && PeerCalls(calls) && s.Up?
    ensures ApplyAll(calls, ApplyAll(calls[..i], s)) == ApplyAll(calls, s)
  {
    ApplyByKey(calls[..i], s);
    ApplyByKey(calls, ApplyAll(calls[..i], s));
    ApplyByKey(calls, s);
    forall k {
      ResumeOnKey(calls, i, k, Lookup(s, k));
    }
    PeersEqual(ApplyAll(calls, ApplyAll(calls[..i], s)), ApplyAll(calls, s));
  }

  lemma {:induction false} PeerCallsDown(calls: seq<Call>)
    requires PeerCalls(calls)
    ensures ApplyAll(calls, Down) == Down
    decreases |calls|
  {
    if calls != [] {
      PeerCallsDown(calls[1..]);
    }
  }

  lemma PeerCallsConcat(a: seq<Call>, b: seq<Call>)
    requires PeerCalls(a) && PeerCalls(b)
    ensures PeerCalls(a + b)
  {
  }

  lemma {:induction false} VisitsArePeerCalls(users: seq<UserRec>, kd: Option<IPv6>, m: Mode)
    ensures PeerCalls(VisitCalls(users, kd, m))
    decreases |users|
  {
    hide PeerOf;
    if users != [] {
      VisitsArePeerCalls(users[1..], kd, m);
      PeerCallsConcat(Visit(users[0], kd, m).calls, VisitCalls(users[1..], kd, m));
    }
  }

  lemma WalksArePeerCalls(users: seq<UserRec>, kd: Option<IPv6>, m: Mode)
    ensures PeerCalls(WalkCalls(users, kd, m))
  {
    DeletionOnKey(users, "", None);
    VisitsArePeerCalls(Survivors(users, m), kd, m);
    PeerCallsConcat(if m.Acts() then DeletionCalls(users) else [], VisitCalls(Survivors(users, m), kd, m));
  }

  // A script that starts by building the interface, on an interface in any state.
  lemma ResumeBuild(p: IfaceParams, walk: seq<Call>, i: nat, s: Slot)
    requires PeerCalls(walk) && i <= 1 + |walk|
    ensures var script := [WgAdd(p)] + walk;
      ApplyAll(script, ApplyAll(script[..i], s)) == ApplyAll(script, s)
  {
    var script := [WgAdd(p)] + walk;
    assert script[1..] == walk;
    var up := Apply(WgAdd(p), s);
    if i > 0 {
      assert script[..i][1..] == walk[..i - 1];
      ResumePeers(walk, i - 1, up);
      ApplyByKey(walk[..i - 1], up);
    }
  }

  // A replay that is cut off after any number of its calls and then run again from the
  // start ends where an uninterrupted run ends. True of every stored record, every mode
  // and every state of the interface.
  lemma Resumed(b: BrigadeRec, m: Mode, i: nat, s: Slot)
    requires i <= |Script(b, m)|
    ensures ApplyAll(Script(b, m), ApplyAll(Script(b, m)[..i], s)) == ApplyAll(Script(b, m), s)
  {
    hide VisitCalls, DeletionCalls, ParamsOf;
    var walk := if Walks(m) then WalkCalls(b.users, b.info.keydeskIPv6, m) else [];
    WalksArePeerCalls(b.users, b.info.keydeskIPv6, m);
    var script := Script(b, m);
    if m.donly || (!m.clean && m.uonly) {
      assert script == walk;
      if s.Up? {
        ResumePeers(walk, i, s);
      } else {
        PeerCallsDown(walk);
        PeerCallsDown(walk[..i]);
      }
    } else if m.clean {
      assert script[0] == WgDel;
    } else {
      assert script == [WgAdd(ParamsOf(b.info))] + walk;
      ResumeBuild(ParamsOf(b.info), walk, i, s);
    }
  }

  // Any number of attempts, each cut off somewhere.
  function Attempts(script: seq<Call>, cuts: seq<nat>, s: Slot): Slot
    requires forall i :: 0 <= i < |cuts| ==> cuts[i] <= |script|
  {
    if cuts == [] then s else Attempts(script, cuts[1..], ApplyAll(script[..cuts[0]], s))
  }

  lemma {:induction false} ResumedOften(b: BrigadeRec, m: Mode, cuts: seq<nat>, s: Slot)
    requires forall i :: 0 <= i < |cuts| ==> cuts[i] <= |Script(b, m)|
    ensures ApplyAll(Script(b, m), Attempts(Script(b, m), cuts, s)) == ApplyAll(Script(b, m), s)
    decreases |cuts|
  {
    hide Script;
    if cuts != [] {
      ResumedOften(b, m, cuts[1..], ApplyAll(Script(b, m)[..cuts[0]], s));
      Resumed(b, m, cuts[0], s);
    }
  }

  // The replay of a patch stopped somewhere, then the replay command was run in the same mode,
  // cut off any number of times, and at last once to its end. Every one of these runs calls
  // the interface the stored record leads to, wherever the patch itself called. In the end
  // that interface serves the wanted users, and the stored record says so.
  lemma RetriesEndInStep(w: World, wanted: BrigadeRec, b: BrigadeRec, n: nat, slots: map<Iface, Slot>, cuts: seq<nat>)
    requires InStep(w) && Fresh(wanted) && Patched(w.rec, wanted, b) && ReplayReached(w, wanted, b, n, slots)
    requires forall i :: 0 <= i < |cuts| ==> cuts[i] <= |Script(b, Pick(w.rec, wanted))|
    ensures Home(b.info) == Home(wanted.info)
    ensures var m := Pick(w.rec, wanted);
      var s := ApplyAll(Script(b, m), Attempts(Script(b, m), cuts, GetSlot(slots, Home(b.info))));
      Settled(s, Replayed(b, m)) && Serves(s, Live(wanted), wanted.info.keydeskIPv6)
  {
    hide Script, Pick, Settled, Live, NeedsFullReplay, CalcAPIAddr, PatchedUsers, Replayed, ApplyAll, UniqueKeys;
    var m, called, home := Pick(w.rec, wanted), Called(w.rec.info, wanted.info), Home(wanted.info);
    SameKeyUnlessFull(w.rec.info, wanted.info);
    CalledIsHome(w.rec.info, wanted.info);
    ResumedOften(b, m, cuts, GetSlot(slots, home));
    if called == home {
      Resumed(b, m, n, GetSlot(w.slots, home));
    }
    Cycle(w.rec, wanted, b, if called == home then GetSlot(w.slots, home) else GetSlot(slots, home));
  }

  // ----- no disturbance -----

  // An unblocked user with the key.
  predicate Active(u: UserRec, k: Key) {
    !u.isBlocked && u.Key() == k
  }

  // Neither list has an unblocked user with this key, or both have, and it is as before: the
  // same ID, and nothing changed but its name or what is sealed for the router.
  ghost predicate LeftAlone(was: BrigadeRec, wanted: BrigadeRec, k: Key) {
    || (forall u :: u in was.users || u in Live(wanted) ==> !Active(u, k))
    || exists o, f :: o in was.users && f in Live(wanted) && Active(o, k) && Active(f, k) && AsBefore(f.info, o.info)
  }

  lemma ChangedKey(was: BrigadeRec, wanted: BrigadeRec, k: Key)
    requires Patchable(was, wanted)
    ensures LeftAlone(was, wanted, k) <==> !Withdrawn(was, wanted, k) && !Introduced(was, wanted, k)
  {
    hide Withdrawn, Introduced, Removed, UniqueKeys, AsBefore, StillWanted, Modified;
    LiveUnique(was, wanted);
    forall a: UserInfo, b: UserInfo {
      ModifiedExactly(a, b);
    }
    if f :| f in Live(wanted) && f.Key() == k {
      forall x | x in Live(wanted) && x.Key() == k ensures x == f {
        SameKey(Live(wanted), x, f);
      }
      if o :| o in was.users && o.Key() == k {
        LiveKey(was, wanted, f, o);
      }
      if o :| o in was.users && SameUser(o.info, f.info) {
        MatchedKey(was, wanted, f, o);
      } else {
        NewKey(was, wanted, f);
        RemovedActive(was, wanted, k);
      }
    } else {
      NoKey(was, wanted, k);
      RemovedActive(was, wanted, k);
    }
  }

  lemma RemovedActive(was: BrigadeRec, wanted: BrigadeRec, k: Key)
    ensures Removed(was, wanted, k) ==> exists o :: o in was.users && Active(o, k)
  {
  }

  // The delayed-only replay of a patched record calls the endpoint about a key exactly when an
  // unblocked user with this key appeared, disappeared or is not as before.
  lemma OnlyChangedKeys(was: BrigadeRec, wanted: BrigadeRec, b: BrigadeRec, k: Key)
    requires Patchable(was, wanted) && Patched(was, wanted, b)
    ensures (exists c :: c in Script(b, DELAYED_ONLY) && About(c, k)) <==> !LeftAlone(was, wanted, k)
  {
    hide Script, Withdrawn, Introduced, Patched, Patchable, LeftAlone;
    ChangedKey(was, wanted, k);
    FinalPeer(was, wanted, b, k, None);
    var script := Script(b, DELAYED_ONLY);
    if c :| c in script && About(c, k) {
      var i :| 0 <= i < |script| && script[i] == c;
      assert !Untouched(script, k);
    }
  }

  // A patch that renames users and changes nothing else about them makes no call.
  lemma RenamingIsSilent(was: BrigadeRec, wanted: BrigadeRec, b: BrigadeRec)
    requires Patchable(was, wanted) && Patched(was, wanted, b) && |was.users| == |wanted.users|
    requires forall i :: 0 <= i < |was.users| ==>
      wanted.users[i] == was.users[i].(info := was.users[i].info.(name := wanted.users[i].info.name))
    requires forall u :: u in was.users ==> !u.delayed.deletion
    ensures Script(b, DELAYED_ONLY) == []
  {
    hide Script, Patched, Patchable, LeftAlone, AsBefore;
    var script := Script(b, DELAYED_ONLY);
    if script != [] {
      ScriptOnKey(was, wanted, b, "", None);
      assert script[0] in script && About(script[0], script[0].key);
      OnlyChangedKeys(was, wanted, b, script[0].key);
      RenamedLeftAlone(was, wanted, script[0].key);
    }
  }

  lemma RenamedLeftAlone(was: BrigadeRec, wanted: BrigadeRec, k: Key)
    requires |was.users| == |wanted.users|
    requires forall i :: 0 <= i < |was.users| ==>
      wanted.users[i] == was.users[i].(info := was.users[i].info.(name := wanted.users[i].info.name))
    requires forall u :: u in was.users ==> !u.delayed.deletion
    ensures LeftAlone(was, wanted, k)
  {
    forall u {
      LiveIn(wanted, u);
    }
    if i :| 0 <= i < |was.users| && Active(was.users[i], k) {
      var o, f := was.users[i], wanted.users[i];
      assert f in wanted.users && Active(f, k) && AsBefore(f.info, o.info);
    } else {
      forall u | u in Live(wanted) ensures !Active(u, k) {
        var i :| 0 <= i < |wanted.users| && wanted.users[i] == u;
        assert !Active(was.users[i], k);
      }
    }
  }

  // ----- replaying twice -----

  // A user whose pending actions the delayed-only replay carries out completely. A block
  // flag and a block go together, and a replay flag means that the user has a peer.
  predicate Consistent(u: UserRec) {
    && (u.delayed.blocking ==> u.isBlocked && !u.delayed.replay)
    && (u.delayed.creation || u.delayed.replay ==> !u.isBlocked)
  }

  // Patch writes only such users.
  lemma MarkIsConsistent(stored: seq<UserRec>, f: UserRec)
    ensures Consistent(Mark(stored, f)) && !Mark(stored, f).delayed.deletion
  {
    hide Modified, FirstSame;
  }

  lemma FlagsCleared(u: UserRec, kd: Option<IPv6>)
    requires Consistent(u) && !u.delayed.deletion
    ensures Visit(u, kd, DELAYED_ONLY).rec == u.(delayed := NOTHING_DELAYED)
  {
    hide PeerOf;
  }

  // No user of the list has anything pending.
  ghost predicate Quiet(users: seq<UserRec>) {
    forall i :: 0 <= i < |users| ==> users[i].delayed == NOTHING_DELAYED
  }

  lemma {:induction false} QuietMakesNoCalls(users: seq<UserRec>, kd: Option<IPv6>)
    requires Quiet(users)
    ensures DeletionCalls(users) == [] && Kept(users) == users && VisitCalls(users, kd, DELAYED_ONLY) == []
    decreases |users|
  {
    if users != [] {
      QuietMakesNoCalls(users[1..], kd);
    }
  }

  // After a replay that succeeded no flag is left, and a second one is silent.
  lemma ReplayedIsQuiet(was: BrigadeRec, wanted: BrigadeRec, b: BrigadeRec)
    requires Patched(was, wanted, b) && UniqueKeys(Live(wanted))
    ensures Quiet(Replayed(b, DELAYED_ONLY).users)
    ensures Script(Replayed(b, DELAYED_ONLY), DELAYED_ONLY) == []
  {
    hide Visit, Mark, UniqueKeys, Patched;
    var kd := b.info.keydeskIPv6;
    var users := Kept(b.users);
    PatchedKept(was, wanted, b);
    forall i | 0 <= i < |users| ensures Visit(users[i], kd, DELAYED_ONLY).rec.delayed == NOTHING_DELAYED {
      assert users[i] in users;
      MarkedByLive(was, wanted, users[i]);
      var f :| f in Live(wanted) && users[i] == Mark(was.users, f);
      MarkIsConsistent(was.users, f);
      FlagsCleared(users[i], kd);
    }
    QuietMakesNoCalls(Replayed(b, DELAYED_ONLY).users, kd);
  }

  // Patching a quiet record with itself stores the same users and asks for nothing.
  lemma PatchedWithItself(b: BrigadeRec)
    requires UniqueKeys(b.users) && Quiet(b.users)
    ensures PatchedUsers(b.users, b.users) == b.users
    ensures !NeedsFullReplay(b.info, b.info)
    ensures forall c :: Patched(b, b, c) ==> Script(c, DELAYED_ONLY) == []
  {
    NothingDropped(b.users, b.users);
    AllSame(b.users, b.users);
    hide Script, Quiet, NeedsFullReplay;
    NothingChanged(b.info);
    forall c | Patched(b, b, c) ensures Script(c, DELAYED_ONLY) == [] {
      QuietPermutes(b.users, c.users);
      QuietScript(c);
    }
  }

  lemma NothingChanged(b: BrigadeInfo)
    ensures !NeedsFullReplay(b, b)
  {
    hide Strings.Sort, Strings.Join;
  }

  lemma QuietScript(c: BrigadeRec)
    requires Quiet(c.users)
    ensures Script(c, DELAYED_ONLY) == []
  {
    QuietMakesNoCalls(c.users, c.info.keydeskIPv6);
  }

  lemma QuietPermutes(a: seq<UserRec>, b: seq<UserRec>)
    requires Quiet(a) && multiset(a) == multiset(b)
    ensures Quiet(b)
  {
    forall i | 0 <= i < |b| ensures b[i].delayed == NOTHING_DELAYED {
      assert b[i] in multiset(b);
      assert b[i] in a;
    }
  }

  lemma {:induction false} NothingDropped(part: seq<UserRec>, users: seq<UserRec>)
    requires forall u :: u in part ==> u in users && !u.delayed.deletion
    ensures Dropped(part, users) == []
    decreases |part|
  {
    if part != [] {
      assert part[0] in part;
      var i :| 0 <= i < |users| && users[i] == part[0];
      assert StillWanted(users, part[0]);
      NothingDropped(part[1..], users);
    }
  }

  lemma {:induction false} AllSame(part: seq<UserRec>, users: seq<UserRec>)
    requires UniqueKeys(users) && Quiet(users)
    requires forall u :: u in part ==> u in users
    ensures Marked(users, part) == part
    decreases |part|
  {
    if part != [] {
      var u := part[0];
      assert u in part;
      FirstSameIn(users, u);
      SameKey(users, FirstSame(users, u).value, u);
      AllSame(part[1..], users);
      assert part == [u] + part[1..];
    }
  }
}
