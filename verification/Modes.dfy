// What a replay that reached its end has made of the interface and of the record, for every
// combination of its switches. The outcome is stated on slots and users, not on calls.

module Modes {
  import opened Brigade
  import opened Endpoint
  import opened Replay
  import opened Peers
  import opened Convergence
  import opened Resume

  // ----- the interface -----

  // The interface is there with the settings of the record if the run set it up, and otherwise
  // as it was. A run for the users only never sets it up, and one for the pending actions only
  // leaves it alone.
  ghost predicate InterfaceReached(b: BrigadeInfo, m: Mode, s: Slot, t: Slot) {
    if m.donly || (m.uonly && !m.clean) then t.Up? == s.Up? && (t.Up? ==> t.params == s.params)
    else if m.uonly then t.Down?
    else t.Up? && if m.clean || s.Down? then Configured(t.params, b) else t.params == s.params
  }

  // ----- the peers -----

  // The peer under a key when the walk over the users begins.
  function Standing(m: Mode, s: Slot, k: Key): Option<Peer> {
    if m.clean && !m.donly then None else Lookup(s, k)
  }

  // The peer the user has is dropped: a block or a replay is pending, and the run acts.
  predicate Renews(u: UserRec, m: Mode) {
    (m.delayed || m.donly) && (u.delayed.blocking || u.delayed.replay)
  }

  // The user is offered to the endpoint. Without pending actions that is every unblocked user
  // with nothing pending; with them every unblocked user, or, if nothing else was asked for,
  // those whose creation or replay is pending.
  predicate Offers(u: UserRec, m: Mode) {
    && !u.isBlocked
    && (m.delayed || m.donly || u.delayed == NOTHING_DELAYED)
    && (m.donly ==> u.delayed.creation || u.delayed.replay)
  }

  // From one peer under the user's key to the next.
  ghost predicate UserReached(u: UserRec, keydesk: Option<IPv6>, m: Mode, v: Option<Peer>, w: Option<Peer>) {
    if Offers(u, m) && (v.None? || Renews(u, m)) then w.Some? && Holds(w.value, u.info, keydesk)
    else if Renews(u, m) then w.None?
    else w == v
  }

  ghost predicate PeerReached(b: BrigadeRec, m: Mode, k: Key, v: Option<Peer>, w: Option<Peer>) {
    var acts := m.delayed || m.donly;
    var v0 := if acts && Deleting(b.users, k) then None else v;
    var users := if acts then Kept(b.users) else b.users;
    if m.bonly && !m.donly then w == v
    else
      && (forall u :: u in users && u.Key() == k ==> UserReached(u, b.info.keydeskIPv6, m, v0, w))
      && ((forall u :: u in users ==> u.Key() != k) ==> w == v0)
  }

  // Where a run that reached its end has brought the interface.
  ghost predicate Reached(b: BrigadeRec, m: Mode, s: Slot, t: Slot) {
    && InterfaceReached(b.info, m, s, t)
    && (t.Up? && UniqueKeys(if m.delayed || m.donly then Kept(b.users) else b.users) ==>
          forall k :: PeerReached(b, m, k, Standing(m, s, k), Lookup(t, k)))
  }

  // ----- it is where every script leads -----

  // The slot when the walk over the users begins.
  function Begun(b: BrigadeInfo, m: Mode, s: Slot): Slot {
    ApplyAll(IfaceCalls(b, m), s)
  }

  lemma BegunIs(b: BrigadeInfo, m: Mode, s: Slot)
    ensures Begun(b, m, s) ==
            if m.donly || (m.uonly && !m.clean) then s
            else if m.uonly then Down
            else if m.clean || s.Down? then Up(ParamsOf(b), map[])
            else s
  {
    hide ParamsOf;
    var calls, add := IfaceCalls(b, m), WgAdd(ParamsOf(b));
    if m.donly || (m.uonly && !m.clean) {
      assert calls == [];
    } else if m.uonly {
      assert calls == [WgDel];
      OneCall(WgDel, [], s);
    } else if m.clean {
      assert calls == [WgDel] + ([add] + []);
      OneCall(WgDel, [add] + [], s);
      OneCall(add, [], Down);
    } else {
      assert calls == [add] + [];
      OneCall(add, [], s);
    }
  }

  lemma OneCall(c: Call, more: seq<Call>, s: Slot)
    ensures ApplyAll([c] + more, s) == ApplyAll(more, Apply(c, s))
  {
    assert ([c] + more)[1..] == more;
  }

  lemma InterfaceBegun(b: BrigadeInfo, m: Mode, s: Slot)
    ensures InterfaceReached(b, m, s, Begun(b, m, s))
    ensures Begun(b, m, s).Up? ==> forall k :: Lookup(Begun(b, m, s), k) == Standing(m, s, k)
  {
    BegunIs(b, m, s);
    hide Begun, Configured, ParamsOf;
    ParamsConfigure(ParamsOf(b), b);
  }

  // One visit in any mode.
  lemma VisitReaches(u: UserRec, kd: Option<IPv6>, m: Mode, v: Option<Peer>)
    requires m.Acts() ==> !u.delayed.deletion
    ensures UserReached(u, kd, m, v, ActAll(Visit(u, kd, m).calls, u.Key(), v))
  {
    hide PeerOf, Holds, ActAll;
    ShortActs(u.Key(), PeerOf(u.info, kd), v);
    PeerHolds(PeerOf(u.info, kd), u.info, kd);
    assert [] + [PeerAdd(u.Key(), PeerOf(u.info, kd))] == [PeerAdd(u.Key(), PeerOf(u.info, kd))];
    assert [PeerDel(u.Key())] + [PeerAdd(u.Key(), PeerOf(u.info, kd))]
        == [PeerDel(u.Key()), PeerAdd(u.Key(), PeerOf(u.info, kd))];
  }

  lemma WalkReaches(b: BrigadeRec, m: Mode, k: Key, v: Option<Peer>)
    requires UniqueKeys(Survivors(b.users, m)) && Walks(m)
    ensures PeerReached(b, m, k, v, ActAll(WalkCalls(b.users, b.info.keydeskIPv6, m), k, v))
  {
    hide Visit, UniqueKeys, UserReached, Deleting;
    var kd, users := b.info.keydeskIPv6, Survivors(b.users, m);
    var dels := if m.Acts() then DeletionCalls(b.users) else [];
    var v0 := if m.Acts() && Deleting(b.users, k) then None else v;
    DeletionOnKey(b.users, k, v);
    ActAllConcat(dels, VisitCalls(users, kd, m), k, v);
    VisitOnKey(users, kd, m, k, v0);
    forall u | u in users && u.Key() == k
      ensures UserReached(u, kd, m, v0, ActAll(Visit(u, kd, m).calls, k, v0))
    {
      KeptIn(b.users, u);
      VisitReaches(u, kd, m, v0);
    }
  }

  // Every run that reaches its end gets there, from any interface.
  lemma ScriptReaches(b: BrigadeRec, m: Mode, s: Slot)
    ensures Reached(b, m, s, ApplyAll(Script(b, m), s))
  {
    hide WalkCalls, InterfaceReached, PeerReached, UniqueKeys, IfaceCalls;
    var walk := if Walks(m) then WalkCalls(b.users, b.info.keydeskIPv6, m) else [];
    var begun := Begun(b.info, m, s);
    InterfaceBegun(b.info, m, s);
    WalksArePeerCalls(b.users, b.info.keydeskIPv6, m);
    ApplyAllConcat(IfaceCalls(b.info, m), walk, s);
    if begun.Up? {
      ApplyByKey(walk, begun);
    } else {
      PeerCallsDown(walk);
    }
    InterfaceStays(b.info, m, s, begun, ApplyAll(walk, begun));
    if begun.Up? && UniqueKeys(Survivors(b.users, m)) {
      forall k ensures PeerReached(b, m, k, Standing(m, s, k), ActAll(walk, k, Standing(m, s, k))) {
        if Walks(m) {
          WalkReaches(b, m, k, Standing(m, s, k));
        } else {
          NoWalk(b, m, k, Standing(m, s, k));
        }
      }
    }
  }

  lemma InterfaceStays(b: BrigadeInfo, m: Mode, s: Slot, t: Slot, t': Slot)
    requires InterfaceReached(b, m, s, t) && t'.Up? == t.Up? && (t.Up? ==> t'.params == t.params)
    ensures InterfaceReached(b, m, s, t')
  {
  }

  lemma NoWalk(b: BrigadeRec, m: Mode, k: Key, v: Option<Peer>)
    requires !Walks(m)
    ensures PeerReached(b, m, k, v, ActAll([], k, v))
  {
  }

  // ----- what that means for the runs the command is for -----

  // The users with nothing pending.
  function Idle(users: seq<UserRec>): seq<UserRec> {
    if users == [] then []
    else (if users[0].delayed == NOTHING_DELAYED then [users[0]] else []) + Idle(users[1..])
  }

  lemma {:induction false} IdleIn(users: seq<UserRec>, x: UserRec)
    ensures x in Idle(users) <==> x in users && x.delayed == NOTHING_DELAYED
  {
    if users != [] {
      IdleIn(users[1..], x);
      assert users == [users[0]] + users[1..];
    }
  }

  // Where there was no interface, or it was removed first, a run over the users leaves one that
  // serves exactly the unblocked users: those that stay if pending actions are carried out, and
  // those with nothing pending if not. This is the run without any switch, too.
  lemma RebuildServes(b: BrigadeRec, m: Mode, s: Slot, t: Slot)
    requires Reached(b, m, s, t) && !m.donly && !m.uonly && !m.bonly && (m.clean || s.Down?)
    ensures t.Up? && Configured(t.params, b.info)
    ensures m.delayed && UniqueKeys(Kept(b.users)) ==> Serves(t, Kept(b.users), b.info.keydeskIPv6)
    ensures !m.delayed && UniqueKeys(b.users) ==> Serves(t, Idle(b.users), b.info.keydeskIPv6)
  {
    hide Configured, Holds, UniqueKeys, Kept, Idle, Deleting;
    var kd, users := b.info.keydeskIPv6, Survivors(b.users, m);
    if UniqueKeys(users) {
      forall u | u in users
        ensures u.Key() in t.peers <==> Offers(u, m)
        ensures u.Key() in t.peers ==> Holds(t.peers[u.Key()], u.info, kd)
      {
        assert PeerReached(b, m, u.Key(), None, Lookup(t, u.Key()));
      }
      forall k | k in t.peers ensures exists u :: u in users && u.Key() == k {
        assert PeerReached(b, m, k, None, Lookup(t, k));
      }
      forall u {
        IdleIn(b.users, u);
      }
    }
  }

  // A run for the brigade only leaves an interface without peers, or the one that was there.
  lemma BrigadeAlone(b: BrigadeRec, m: Mode, s: Slot, t: Slot)
    requires Reached(b, m, s, t) && !m.donly && !m.uonly && m.bonly
    requires UniqueKeys(if m.delayed then Kept(b.users) else b.users)
    ensures t.Up?
    ensures if m.clean || s.Down? then t.peers == map[] && Configured(t.params, b.info) else t == s
  {
    hide Configured, UniqueKeys, Kept;
    forall k ensures Lookup(t, k) == Standing(m, s, k) {
      assert PeerReached(b, m, k, Standing(m, s, k), Lookup(t, k));
    }
    if m.clean || s.Down? {
      forall k ensures k !in t.peers {
        assert Lookup(t, k) == None;
      }
    } else {
      PeersEqual(t, s);
    }
  }

  // A run that carries out nothing that is pending takes no peer away from an interface that it
  // does not rebuild, and adds the unblocked users with nothing pending that were missing.
  lemma NothingTaken(b: BrigadeRec, m: Mode, s: Slot, t: Slot)
    requires Reached(b, m, s, t) && !m.delayed && !m.donly && !m.clean && !m.bonly && s.Up? && UniqueKeys(b.users)
    ensures t.Up? && t.params == s.params
    ensures forall k :: k in s.peers ==> k in t.peers && t.peers[k] == s.peers[k]
    ensures forall u :: u in b.users && u.Key() !in s.peers ==>
              (u.Key() in t.peers <==> !u.isBlocked && u.delayed == NOTHING_DELAYED)
              && (u.Key() in t.peers ==> Holds(t.peers[u.Key()], u.info, b.info.keydeskIPv6))
    ensures forall k :: k in t.peers && k !in s.peers ==> exists u :: u in b.users && u.Key() == k
  {
    hide Configured, UniqueKeys, Holds, Deleting;
    forall k ensures PeerReached(b, m, k, Lookup(s, k), Lookup(t, k)) {
      assert PeerReached(b, m, k, Standing(m, s, k), Lookup(t, k));
    }
    forall k | k in s.peers ensures k in t.peers && t.peers[k] == s.peers[k] {
      assert PeerReached(b, m, k, Lookup(s, k), Lookup(t, k));
    }
    forall u | u in b.users && u.Key() !in s.peers
      ensures (u.Key() in t.peers <==> !u.isBlocked && u.delayed == NOTHING_DELAYED)
              && (u.Key() in t.peers ==> Holds(t.peers[u.Key()], u.info, b.info.keydeskIPv6))
    {
      assert PeerReached(b, m, u.Key(), Lookup(s, u.Key()), Lookup(t, u.Key()));
    }
    forall k | k in t.peers && k !in s.peers ensures exists u :: u in b.users && u.Key() == k {
      assert PeerReached(b, m, k, Lookup(s, k), Lookup(t, k));
    }
  }

  // A run that acts on a standing interface has carried out everything that was pending.
  lemma PendingIsDone(b: BrigadeRec, m: Mode, s: Slot, t: Slot)
    requires Reached(b, m, s, t) && (m.donly || (m.delayed && !m.bonly)) && t.Up? && UniqueKeys(Kept(b.users))
    ensures forall k :: Deleting(b.users, k) && (forall u :: u in Kept(b.users) ==> u.Key() != k) ==> k !in t.peers
    ensures forall u :: u in b.users && !u.delayed.deletion ==>
              && (u.isBlocked && (u.delayed.blocking || u.delayed.replay) ==> u.Key() !in t.peers)
              && (!u.isBlocked && u.delayed.creation ==> u.Key() in t.peers)
              && (!u.isBlocked && u.delayed.replay ==>
                    u.Key() in t.peers && Holds(t.peers[u.Key()], u.info, b.info.keydeskIPv6))
  {
    hide Configured, UniqueKeys, Holds, Deleting, Kept;
    forall k | Deleting(b.users, k) && (forall u :: u in Kept(b.users) ==> u.Key() != k) ensures k !in t.peers {
      assert PeerReached(b, m, k, Standing(m, s, k), Lookup(t, k));
    }
    forall u | u in b.users && !u.delayed.deletion
      ensures u in Kept(b.users) && PeerReached(b, m, u.Key(), Standing(m, s, u.Key()), Lookup(t, u.Key()))
    {
      KeptIn(b.users, u);
    }
  }

  // ----- the record -----

  // A run that acts and walks over the users drops those waiting for deletion and keeps the
  // others in their order, with every flag cleared that it could work off; any other run stores
  // what it read. A creation stays pending for a user that is blocked, a replay for one whose
  // block was pending too.
  lemma RecordReached(b: BrigadeRec, m: Mode)
    ensures !m.donly && (!m.delayed || m.bonly) ==> Replayed(b, m) == b
    ensures m.donly || (m.delayed && !m.bonly) ==>
      var r, kept := Replayed(b, m), Kept(b.users);
      && r.info == b.info && |r.users| == |kept|
      && forall i :: 0 <= i < |kept| ==>
           var was, now := kept[i], r.users[i];
           && now.info == was.info && now.isBlocked == was.isBlocked
           && !now.delayed.deletion && !now.delayed.blocking
           && (now.delayed.replay <==> was.delayed.replay && was.delayed.blocking)
           && (now.delayed.creation <==>
                 was.isBlocked && (was.delayed.creation || (was.delayed.replay && !was.delayed.blocking)))
  {
    hide PeerOf;
    if m.Acts() {
      forall i | 0 <= i < |Kept(b.users)| ensures !Kept(b.users)[i].delayed.deletion {
        KeptIn(b.users, Kept(b.users)[i]);
      }
    }
  }
}
