// Patch followed by replay: the endpoint ends up with the wanted users, by either path,
// also when a replay is interrupted, and without touching users that did not change.

module Convergence {
  import opened Brigade
  import Order
  import opened Strings
  import opened Endpoint
  import opened Replay
  import opened Patch
  import opened Peers

  // The wanted users: those of the new file that are not marked for deletion there.
  function Live(wanted: BrigadeRec): seq<UserRec> {
    Kept(wanted.users)
  }

  // What a caller of patch has to bring along. Key uniqueness is a property of the two
  // files; coherence says that both ciphertexts of a secret were made from one secret.
  ghost predicate Patchable(was: BrigadeRec, wanted: BrigadeRec) {
    && UniqueKeys(was.users) && UniqueKeys(Live(wanted))
    && (forall u :: u in was.users || u in wanted.users ==> u.info.Coherent())
  }

  // The endpoint is in step with the stored record: its peers are the unblocked users.
  ghost predicate Settled(s: Slot, b: BrigadeRec) {
    Serves(s, b.users, b.info.keydeskIPv6)
  }

  // ----- the list patch stores, after any sort -----

  lemma {:induction false} KeptCount(users: seq<UserRec>, x: UserRec)
    ensures multiset(Kept(users))[x] == if x.delayed.deletion then 0 else multiset(users)[x]
  {
    if users != [] {
      KeptCount(users[1..], x);
      assert users == [users[0]] + users[1..];
    }
  }

  lemma KeptPermutes(a: seq<UserRec>, b: seq<UserRec>)
    requires multiset(a) == multiset(b)
    ensures multiset(Kept(a)) == multiset(Kept(b))
  {
    forall x ensures multiset(Kept(a))[x] == multiset(Kept(b))[x] {
      KeptCount(a, x);
      KeptCount(b, x);
    }
  }

  lemma CountOnce(a: seq<UserRec>, x: UserRec)
    requires UniqueKeys(a)
    ensures multiset(a)[x] <= 1
  {
    if x in a {
      var p :| 0 <= p < |a| && a[p] == x;
      assert a == a[..p] + [x] + a[p+1..];
    }
  }

  lemma UniqueKeysPermutes(a: seq<UserRec>, b: seq<UserRec>)
    requires multiset(a) == multiset(b) && UniqueKeys(a)
    ensures UniqueKeys(b)
  {
    forall i, j | 0 <= i < j < |b| ensures b[i].Key() != b[j].Key() {
      CountOnce(a, b[i]);
      Order.Twice(b, i, j);
      assert b[i] in multiset(a) && b[j] in multiset(a);
    }
  }

  lemma {:induction false} KeptConcat(a: seq<UserRec>, b: seq<UserRec>)
    ensures Kept(a + b) == Kept(a) + Kept(b)
    decreases |a|
  {
    if a == [] {
      assert a + b == b;
    } else {
      assert (a + b)[1..] == a[1..] + b;
      KeptConcat(a[1..], b);
    }
  }

  lemma {:induction false} KeptDropped(stored: seq<UserRec>, wanted: seq<UserRec>)
    ensures Kept(Dropped(stored, wanted)) == []
  {
    if stored != [] {
      var head := if StillWanted(wanted, stored[0]) || stored[0].isBlocked then []
                  else [stored[0].(delayed := Delayed(true, false, false, false))];
      assert Kept(head) == [];
      KeptConcat(head, Dropped(stored[1..], wanted));
      KeptDropped(stored[1..], wanted);
    }
  }

  // The wanted users keep their place and all but their flags.
  lemma {:induction false} MarkedAt(stored: seq<UserRec>, wanted: seq<UserRec>)
    ensures Kept(Marked(stored, wanted)) == Marked(stored, wanted)
    ensures |Marked(stored, wanted)| == |Kept(wanted)|
    ensures forall i :: 0 <= i < |Kept(wanted)| ==> Marked(stored, wanted)[i] == Mark(stored, Kept(wanted)[i])
  {
    if wanted != [] {
      var head := if wanted[0].delayed.deletion then [] else [Mark(stored, wanted[0])];
      assert Kept(head) == head;
      KeptConcat(head, Marked(stored, wanted[1..]));
      MarkedAt(stored, wanted[1..]);
    }
  }

  // Whatever order the sort leaves, the users that stay are the marked ones, each with a
  // key of its own.
  lemma PatchedKept(was: BrigadeRec, wanted: BrigadeRec, b: BrigadeRec)
    requires Patched(was, wanted, b) && UniqueKeys(Live(wanted))
    ensures UniqueKeys(Kept(b.users))
    ensures forall x :: x in Kept(b.users) <==> x in Marked(was.users, wanted.users)
    ensures forall x :: x in b.users && x.delayed.deletion <==> x in Dropped(was.users, wanted.users)
  {
    var d, m := Dropped(was.users, wanted.users), Marked(was.users, wanted.users);
    KeptPermutes(d + m, b.users);
    KeptConcat(d, m);
    KeptDropped(was.users, wanted.users);
    MarkedAt(was.users, wanted.users);
    assert Kept(d + m) == m;
    forall i, j | 0 <= i < j < |m| ensures m[i].Key() != m[j].Key() {
      assert Live(wanted)[i].Key() != Live(wanted)[j].Key();
    }
    UniqueKeysPermutes(m, Kept(b.users));
    forall x ensures x in Kept(b.users) <==> x in m {
      assert x in Kept(b.users) <==> x in multiset(Kept(b.users));
    }
    forall x ensures x in b.users && x.delayed.deletion <==> x in d {
      assert x in b.users <==> x in multiset(b.users);
      assert x in d + m <==> x in multiset(d + m);
      DroppedIn(was.users, wanted.users, x);
      MarkedIn(was.users, wanted.users, x);
    }
  }

  // ----- which keys change -----

  // An unblocked stored user with this key is wanted no more.
  ghost predicate Removed(was: BrigadeRec, wanted: BrigadeRec, k: Key) {
    exists o :: o in was.users && o.Key() == k && !o.isBlocked && !StillWanted(wanted.users, o)
  }

  // A peer of this key has to go: its user is removed, blocked or modified.
  ghost predicate Withdrawn(was: BrigadeRec, wanted: BrigadeRec, k: Key) {
    || Removed(was, wanted, k)
    || exists f, o :: f in Live(wanted) && o in was.users && SameUser(f.info, o.info) && f.Key() == k
                      && !o.isBlocked && (f.isBlocked || Modified(f.info, o.info))
  }

  // A peer of this key has to appear: its user is new or unblocked.
  ghost predicate Introduced(was: BrigadeRec, wanted: BrigadeRec, k: Key) {
    exists f :: f in Live(wanted) && f.Key() == k && !f.isBlocked
                && forall o :: o in was.users && SameUser(o.info, f.info) ==> o.isBlocked
  }

  // The first match is the only one.
  lemma MatchedUser(was: BrigadeRec, f: UserRec, o: UserRec)
    requires UniqueKeys(was.users) && o in was.users && SameUser(o.info, f.info)
    ensures FirstSame(was.users, f) == Some(o)
  {
    FirstSameIn(was.users, f);
    SameKey(was.users, FirstSame(was.users, f).value, o);
  }

  lemma SameKey(users: seq<UserRec>, a: UserRec, b: UserRec)
    requires UniqueKeys(users) && a in users && b in users && a.Key() == b.Key()
    ensures a == b
  {
    var i :| 0 <= i < |users| && users[i] == a;
    var j :| 0 <= j < |users| && users[j] == b;
  }

  lemma LiveIn(wanted: BrigadeRec, f: UserRec)
    ensures f in Live(wanted) <==> f in wanted.users && !f.delayed.deletion
  {
    KeptIn(wanted.users, f);
  }

  lemma MarkedByLive(was: BrigadeRec, wanted: BrigadeRec, x: UserRec)
    ensures x in Marked(was.users, wanted.users) <==> exists f :: f in Live(wanted) && x == Mark(was.users, f)
  {
    MarkedIn(was.users, wanted.users, x);
    forall f {
      LiveIn(wanted, f);
    }
  }

  lemma DeletingIsRemoved(was: BrigadeRec, wanted: BrigadeRec, b: BrigadeRec, k: Key)
    requires Patched(was, wanted, b) && UniqueKeys(Live(wanted))
    ensures Deleting(b.users, k) <==> Removed(was, wanted, k)
  {
    PatchedKept(was, wanted, b);
    forall x {
      DroppedIn(was.users, wanted.users, x);
    }
    if Removed(was, wanted, k) {
      var o :| o in was.users && o.Key() == k && !o.isBlocked && !StillWanted(wanted.users, o);
      var x := o.(delayed := Delayed(true, false, false, false));
      assert x in Dropped(was.users, wanted.users) && x.Key() == k;
    }
    if Deleting(b.users, k) {
      var x :| x in b.users && x.delayed.deletion && x.Key() == k;
      var o :| o in was.users && !o.isBlocked && !StillWanted(wanted.users, o)
               && x == o.(delayed := Delayed(true, false, false, false));
      assert o.Key() == k;
    }
  }

  lemma MarkKeepsInfo(stored: seq<UserRec>, f: UserRec)
    ensures Mark(stored, f).info == f.info && Mark(stored, f).isBlocked == f.isBlocked
    ensures Mark(stored, f).Key() == f.Key()
  {
  }

  // What the delayed-only script of a patched record does to one key.
  lemma ScriptOnKey(was: BrigadeRec, wanted: BrigadeRec, b: BrigadeRec, k: Key, v: Option<Peer>)
    requires Patchable(was, wanted) && Patched(was, wanted, b)
    ensures var script := Script(b, DELAYED_ONLY);
      var v0 := if Removed(was, wanted, k) then None else v;
      && PeerCalls(script)
      && (forall f :: f in Live(wanted) && f.Key() == k ==>
            var calls := Visit(Mark(was.users, f), wanted.info.keydeskIPv6, DELAYED_ONLY).calls;
            && ActAll(script, k, v) == ActAll(calls, k, v0)
            && (Untouched(script, k) <==> !Removed(was, wanted, k) && calls == []))
      && ((forall f :: f in Live(wanted) ==> f.Key() != k) ==>
            && ActAll(script, k, v) == v0
            && (Untouched(script, k) <==> !Removed(was, wanted, k)))
  {
    hide Visit, Mark, Removed, UniqueKeys, Deleting, Untouched, Script;
    PatchedKept(was, wanted, b);
    DeletingIsRemoved(was, wanted, b, k);
    DelayedOnKey(b, k, v);
    forall x {
      MarkedByLive(was, wanted, x);
    }
    forall f {
      MarkKeepsInfo(was.users, f);
    }
  }

  // ----- the delayed-only path -----

  // The wanted peer under a key.
  function Target(wanted: BrigadeRec, k: Key): Option<Peer> {
    PeerFor(Live(wanted), wanted.info.keydeskIPv6, k)
  }

  // A live user with the key decides everything about it.
  lemma LiveKey(was: BrigadeRec, wanted: BrigadeRec, f: UserRec, o: UserRec)
    requires Patchable(was, wanted) && f in Live(wanted) && o in was.users && o.Key() == f.Key()
    ensures StillWanted(wanted.users, o) <==> SameUser(o.info, f.info)
    ensures forall x :: x in Live(wanted) && x.Key() == f.Key() ==> x == f
    ensures forall x :: x in was.users && x.Key() == f.Key() ==> x == o
  {
    LiveIn(wanted, f);
    if StillWanted(wanted.users, o) {
      var i :| 0 <= i < |wanted.users| && !wanted.users[i].delayed.deletion
               && SameUser(wanted.users[i].info, o.info);
      LiveIn(wanted, wanted.users[i]);
      SameKey(Live(wanted), wanted.users[i], f);
    }
    forall x | x in Live(wanted) && x.Key() == f.Key() ensures x == f {
      SameKey(Live(wanted), x, f);
    }
    forall x | x in was.users && x.Key() == f.Key() ensures x == o {
      SameKey(was.users, x, o);
    }
  }

  // A key that no live user has belongs to nobody who is still wanted.
  lemma DeadKey(was: BrigadeRec, wanted: BrigadeRec, k: Key)
    requires forall f :: f in Live(wanted) ==> f.Key() != k
    ensures forall o :: o in was.users && o.Key() == k ==> !StillWanted(wanted.users, o)
  {
    forall o | o in was.users && o.Key() == k && StillWanted(wanted.users, o) ensures false {
      var i :| 0 <= i < |wanted.users| && !wanted.users[i].delayed.deletion
               && SameUser(wanted.users[i].info, o.info);
      LiveIn(wanted, wanted.users[i]);
    }
  }

  // The three cases of a key: a live user that was stored under the same ID, a live user
  // that was not, and no live user.

  lemma MatchedKey(was: BrigadeRec, wanted: BrigadeRec, f: UserRec, o: UserRec)
    requires Patchable(was, wanted) && f in Live(wanted) && o in was.users && SameUser(o.info, f.info)
    ensures !Removed(was, wanted, f.Key())
    ensures Withdrawn(was, wanted, f.Key()) <==> !o.isBlocked && (f.isBlocked || Modified(f.info, o.info))
    ensures Introduced(was, wanted, f.Key()) <==> !f.isBlocked && o.isBlocked
  {
    hide Modified, UniqueKeys, StillWanted;
    LiveKey(was, wanted, f, o);
  }

  lemma NewKey(was: BrigadeRec, wanted: BrigadeRec, f: UserRec)
    requires Patchable(was, wanted) && f in Live(wanted)
    requires forall o :: o in was.users ==> !SameUser(o.info, f.info)
    ensures Withdrawn(was, wanted, f.Key()) <==> Removed(was, wanted, f.Key())
    ensures Introduced(was, wanted, f.Key()) <==> !f.isBlocked
    ensures forall o :: o in was.users && o.Key() == f.Key() && !o.isBlocked ==> Removed(was, wanted, f.Key())
  {
    hide Modified, UniqueKeys, StillWanted;
    forall x | x in Live(wanted) && x.Key() == f.Key() ensures x == f {
      SameKey(Live(wanted), x, f);
    }
    forall o | o in was.users && o.Key() == f.Key() ensures !StillWanted(wanted.users, o) {
      LiveKey(was, wanted, f, o);
    }
  }

  lemma NoKey(was: BrigadeRec, wanted: BrigadeRec, k: Key)
    requires forall f :: f in Live(wanted) ==> f.Key() != k
    ensures Withdrawn(was, wanted, k) <==> Removed(was, wanted, k)
    ensures !Introduced(was, wanted, k)
    ensures forall o :: o in was.users && o.Key() == k && !o.isBlocked ==> Removed(was, wanted, k)
  {
    DeadKey(was, wanted, k);
  }

  // The calls a delayed-only visit makes for a user that is not waiting for deletion.
  function FlagCalls(u: UserRec, kd: Option<IPv6>): seq<Call> {
    var del, add := PeerDel(u.Key()), PeerAdd(u.Key(), PeerOf(u.info, kd));
    if u.delayed.blocking then
      if u.isBlocked || !(u.delayed.creation || u.delayed.replay) then [del] else [del, add]
    else if u.delayed.replay then
      if u.isBlocked then [del] else [del, add]
    else
      if u.isBlocked || !u.delayed.creation then [] else [add]
  }

  lemma VisitFlags(u: UserRec, kd: Option<IPv6>)
    ensures Visit(u, kd, DELAYED_ONLY).calls == FlagCalls(u, kd)
  {
    hide PeerOf;
  }

  // What visiting a marked user does to its key.
  lemma MarkedVisit(was: BrigadeRec, wanted: BrigadeRec, f: UserRec, v: Option<Peer>)
    ensures var calls := Visit(Mark(was.users, f), wanted.info.keydeskIPv6, DELAYED_ONLY).calls;
      var peer := Some(PeerOf(f.info, wanted.info.keydeskIPv6));
      match FirstSame(was.users, f)
      case None =>
        && (calls == [] <==> f.isBlocked)
        && ActAll(calls, f.Key(), v) == if f.isBlocked || v.Some? then v else peer
      case Some(o) =>
        && (calls == [] <==> o.isBlocked == f.isBlocked && (f.isBlocked || !Modified(f.info, o.info)))
        && ActAll(calls, f.Key(), v) ==
             if calls == [] then v
             else if f.isBlocked then None
             else if o.isBlocked && v.Some? then v
             else peer
  {
    hide Modified, FirstSame, PeerOf, ActAll, Visit;
    VisitFlags(Mark(was.users, f), wanted.info.keydeskIPv6);
    ShortActs(f.Key(), PeerOf(f.info, wanted.info.keydeskIPv6), v);
  }

  lemma ShortActs(k: Key, p: Peer, v: Option<Peer>)
    ensures ActAll([], k, v) == v
    ensures ActAll([PeerAdd(k, p)], k, v) == if v.Some? then v else Some(p)
    ensures ActAll([PeerDel(k)], k, v) == None
    ensures ActAll([PeerDel(k), PeerAdd(k, p)], k, v) == Some(p)
  {
    assert [PeerDel(k), PeerAdd(k, p)][1..] == [PeerAdd(k, p)];
    assert ActAll([PeerAdd(k, p)], k, None) == Some(p);
  }

  // The peer under a key after the whole script, and whether the script touches the key.
  lemma FinalPeer(was: BrigadeRec, wanted: BrigadeRec, b: BrigadeRec, k: Key, v: Option<Peer>)
    requires Patchable(was, wanted) && Patched(was, wanted, b)
    ensures Untouched(Script(b, DELAYED_ONLY), k) <==> !Withdrawn(was, wanted, k) && !Introduced(was, wanted, k)
    ensures ActAll(Script(b, DELAYED_ONLY), k, v) ==
            if Withdrawn(was, wanted, k) || (Introduced(was, wanted, k) && v.None?) then Target(wanted, k) else v
  {
    hide Untouched, Script, Patched, Removed, Withdrawn, Introduced, Modified, Visit, Mark, FirstSame, UniqueKeys;
    ScriptOnKey(was, wanted, b, k, v);
    PeerForIn(Live(wanted), wanted.info.keydeskIPv6, k);
    if f :| f in Live(wanted) && f.Key() == k {
      FirstSameIn(was.users, f);
      MarkedVisit(was, wanted, f, v);
      MarkedVisit(was, wanted, f, None);
      if o :| o in was.users && SameUser(o.info, f.info) {
        MatchedUser(was, f, o);
        MatchedKey(was, wanted, f, o);
      } else {
        NewKey(was, wanted, f);
      }
    } else {
      NoKey(was, wanted, k);
    }
  }

  // What the endpoint must hold under a key for the script to end well there.
  ghost predicate Ready(was: BrigadeRec, wanted: BrigadeRec, s: Slot, k: Key) {
    || Withdrawn(was, wanted, k)
    || Lookup(s, k) == Target(wanted, k)
    || (Introduced(was, wanted, k) && Lookup(s, k).None?)
  }

  // Exactly when the delayed-only replay of a patched record makes the endpoint serve the
  // wanted users, whatever the endpoint held before: on every key whose peer patch does not
  // withdraw, the endpoint must already be right, or lack a peer that is to be introduced.
  lemma ConvergesIff(was: BrigadeRec, wanted: BrigadeRec, b: BrigadeRec, s: Slot)
    requires Patchable(was, wanted) && Patched(was, wanted, b) && s.Up?
    ensures Serves(ApplyAll(Script(b, DELAYED_ONLY), s), Live(wanted), wanted.info.keydeskIPv6) <==>
            forall k :: Ready(was, wanted, s, k)
  {
    hide Withdrawn, Introduced, Script, Serves, Patched, Patchable;
    var t := ApplyAll(Script(b, DELAYED_ONLY), s);
    ScriptOnKey(was, wanted, b, "", None);
    ApplyByKey(Script(b, DELAYED_ONLY), s);
    assert UniqueKeys(Live(wanted)) by { LiveUnique(was, wanted); }
    ServesByKey(t, Live(wanted), wanted.info.keydeskIPv6);
    forall k ensures Lookup(t, k) == PeerFor(Live(wanted), wanted.info.keydeskIPv6, k) <==> Ready(was, wanted, s, k) {
      FinalPeer(was, wanted, b, k, Lookup(s, k));
    }
  }

  lemma LiveUnique(was: BrigadeRec, wanted: BrigadeRec)
    requires Patchable(was, wanted)
    ensures UniqueKeys(Live(wanted)) && UniqueKeys(was.users)
  {
  }

  // Equal shuffler ciphertexts mean equal secrets, so an unmodified user is the same peer.
  lemma UnmodifiedPeer(f: UserInfo, o: UserInfo, kd: Option<IPv6>)
    requires f.Coherent() && o.Coherent() && !Modified(f, o)
    ensures PeerOf(f, kd) == PeerOf(o, kd)
  {
  }

  // An unblocked brigadier stays as it is. Patch does not mark it, although the keydesk address
  // is part of its peer.
  ghost predicate BrigadierStays(was: BrigadeRec, wanted: BrigadeRec) {
    exists f, o :: f in Live(wanted) && o in was.users && SameUser(o.info, f.info)
                   && f.info.isBrigadier && !f.isBlocked && !o.isBlocked && !Modified(f.info, o.info)
  }

  predicate SameKeydesk(was: BrigadeRec, wanted: BrigadeRec) {
    was.info.keydeskIPv6 == wanted.info.keydeskIPv6
  }

  lemma KeydeskOfPeer(u: UserInfo, kd: Option<IPv6>, kd': Option<IPv6>)
    ensures PeerOf(u, kd) == PeerOf(u, kd') <==> kd == kd' || !u.isBrigadier
  {
  }

  // A settled endpoint meets the condition on every key but for that brigadier's.
  lemma SettledKey(was: BrigadeRec, wanted: BrigadeRec, s: Slot, k: Key)
    requires Patchable(was, wanted) && Settled(s, was)
    requires SameKeydesk(was, wanted) || !BrigadierStays(was, wanted)
    ensures Ready(was, wanted, s, k)
  {
    hide Modified, UniqueKeys, StillWanted, Withdrawn, Introduced, Removed, PeerOf, Serves;
    var kd, kd' := was.info.keydeskIPv6, wanted.info.keydeskIPv6;
    LiveUnique(was, wanted);
    ServesUp(s, was.users, kd);
    ServesByKey(s, was.users, kd);
    PeerForIn(was.users, kd, k);
    PeerForIn(Live(wanted), kd', k);
    if f :| f in Live(wanted) && f.Key() == k {
      LiveIn(wanted, f);
      if o :| o in was.users && SameUser(o.info, f.info) {
        MatchedKey(was, wanted, f, o);
        if !Modified(f.info, o.info) {
          UnmodifiedPeer(f.info, o.info, kd);
          KeydeskOfPeer(f.info, kd, kd');
        }
      } else {
        NewKey(was, wanted, f);
      }
    } else {
      NoKey(was, wanted, k);
    }
  }

  // On that brigadier's key it does not.
  lemma StaleKey(was: BrigadeRec, wanted: BrigadeRec, s: Slot, f: UserRec, o: UserRec)
    requires Patchable(was, wanted) && Settled(s, was) && !SameKeydesk(was, wanted)
    requires f in Live(wanted) && o in was.users && SameUser(o.info, f.info)
    requires f.info.isBrigadier && !f.isBlocked && !o.isBlocked && !Modified(f.info, o.info)
    ensures !Ready(was, wanted, s, f.Key())
  {
    hide Modified, UniqueKeys, StillWanted, Withdrawn, Introduced, Removed, PeerOf, Serves;
    var kd, kd' := was.info.keydeskIPv6, wanted.info.keydeskIPv6;
    LiveUnique(was, wanted);
    ServesUp(s, was.users, kd);
    ServesByKey(s, was.users, kd);
    PeerForIn(was.users, kd, f.Key());
    PeerForIn(Live(wanted), kd', f.Key());
    LiveIn(wanted, f);
    MatchedKey(was, wanted, f, o);
    UnmodifiedPeer(f.info, o.info, kd);
    KeydeskOfPeer(f.info, kd, kd');
  }

  // Convergence: from a settled endpoint, patch and a delayed-only replay leave exactly the
  // wanted unblocked users with their new contents, if and only if the keydesk address is the
  // same or no unblocked brigadier stays unmodified. Whatever else of the brigade changed.
  lemma Convergence(was: BrigadeRec, wanted: BrigadeRec, b: BrigadeRec, s: Slot)
    requires Patchable(was, wanted) && Patched(was, wanted, b) && Settled(s, was)
    ensures Serves(ApplyAll(Script(b, DELAYED_ONLY), s), Live(wanted), wanted.info.keydeskIPv6) <==>
            SameKeydesk(was, wanted) || !BrigadierStays(was, wanted)
    ensures ApplyAll(Script(b, DELAYED_ONLY), s).Up? && ApplyAll(Script(b, DELAYED_ONLY), s).params == s.params
  {
    hide Script, Patched, Patchable, SameKeydesk, Modified, Withdrawn, Introduced, Target;
    ConvergesIff(was, wanted, b, s);
    ScriptOnKey(was, wanted, b, "", None);
    ApplyByKey(Script(b, DELAYED_ONLY), s);
    if SameKeydesk(was, wanted) || !BrigadierStays(was, wanted) {
      forall k ensures Ready(was, wanted, s, k) {
        SettledKey(was, wanted, s, k);
      }
    } else {
      var f, o :| f in Live(wanted) && o in was.users && SameUser(o.info, f.info)
                  && f.info.isBrigadier && !f.isBlocked && !o.isBlocked && !Modified(f.info, o.info);
      StaleKey(was, wanted, s, f, o);
    }
  }

  // Patch asks for a full replay when the keydesk address changes, so its own choice is safe.
  lemma SameKeydeskUnlessFull(was: BrigadeRec, wanted: BrigadeRec)
    ensures !NeedsFullReplay(was.info, wanted.info) ==> SameKeydesk(was, wanted)
  {
  }

  // ----- the full path -----

  lemma FullVisit(u: UserRec, kd: Option<IPv6>)
    ensures ActAll(Visit(u, kd, FULL).calls, u.Key(), None) ==
            if u.isBlocked then None else Some(PeerOf(u.info, kd))
  {
    hide PeerOf;
    ShortActs(u.Key(), PeerOf(u.info, kd), None);
  }

  // Wiping the interface and building it again reaches the stored state from any endpoint.
  lemma FullReplay(b: BrigadeRec, s: Slot)
    requires UniqueKeys(Kept(b.users))
    ensures var t := ApplyAll(Script(b, FULL), s);
      Serves(t, Kept(b.users), b.info.keydeskIPv6) && Configured(t.params, b.info)
  {
    hide Visit, UniqueKeys, Serves, PeerOf, ParamsOf, Configured;
    var kd := b.info.keydeskIPv6;
    ParamsConfigure(ParamsOf(b.info), b.info);
    var head, dels := [WgDel, WgAdd(ParamsOf(b.info))], DeletionCalls(b.users);
    var visits := VisitCalls(Kept(b.users), kd, FULL);
    assert Script(b, FULL) == head + (dels + visits);
    ApplyAllConcat(head, dels + visits, s);
    assert head[1..] == [WgAdd(ParamsOf(b.info))];
    var up := Up(ParamsOf(b.info), map[]);
    assert ApplyAll(head, s) == up by {
      assert ApplyAll(head, s) == ApplyAll(head[1..], Down);
      assert ApplyAll(head[1..], Down) == ApplyAll(head[1..][1..], up);
    }
    DeletionOnKey(b.users, "", None);
    VisitOnKey(Kept(b.users), kd, FULL, "", None);
    ApplyByKey(dels + visits, up);
    var t := ApplyAll(dels + visits, up);
    ServesByKey(t, Kept(b.users), kd);
    forall k ensures Lookup(t, k) == PeerFor(Kept(b.users), kd, k) {
      DeletionOnKey(b.users, k, None);
      ActAllConcat(dels, visits, k, None);
      VisitOnKey(Kept(b.users), kd, FULL, k, None);
      PeerForIn(Kept(b.users), kd, k);
      if u :| u in Kept(b.users) && u.Key() == k {
        FullVisit(u, kd);
      }
    }
  }

  // The users that stay are the wanted ones but for their flags, which no peer depends on.
  lemma ServesKeptIsLive(was: BrigadeRec, wanted: BrigadeRec, b: BrigadeRec, s: Slot)
    requires Patched(was, wanted, b) && UniqueKeys(Live(wanted))
    ensures Serves(s, Kept(b.users), wanted.info.keydeskIPv6) <==> Serves(s, Live(wanted), wanted.info.keydeskIPv6)
  {
    hide Mark, UniqueKeys, PeerOf, Patched, Serves;
    var kd := wanted.info.keydeskIPv6;
    PatchedKept(was, wanted, b);
    forall k ensures PeerFor(Kept(b.users), kd, k) == PeerFor(Live(wanted), kd, k) {
      PeerForIn(Kept(b.users), kd, k);
      PeerForIn(Live(wanted), kd, k);
      if f :| f in Live(wanted) && f.Key() == k {
        MarkedByLive(was, wanted, Mark(was.users, f));
        MarkKeepsInfo(was.users, f);
      } else {
        forall x | x in Kept(b.users) ensures x.Key() != k {
          MarkedByLive(was, wanted, x);
          var f :| f in Live(wanted) && x == Mark(was.users, f);
          MarkKeepsInfo(was.users, f);
        }
      }
    }
    if s.Up? {
      ServesByKey(s, Kept(b.users), kd);
      ServesByKey(s, Live(wanted), kd);
    } else {
      ServesUp(s, Kept(b.users), kd);
      ServesUp(s, Live(wanted), kd);
    }
  }

  lemma ServesUp(s: Slot, users: seq<UserRec>, kd: Option<IPv6>)
    ensures Serves(s, users, kd) ==> s.Up?
  {
  }

  // ----- the two paths agree -----

  // Both paths store the same record, for every record.
  lemma SameRecord(b: BrigadeRec)
    ensures Replayed(b, DELAYED_ONLY) == Replayed(b, FULL)
  {
    var kd := b.info.keydeskIPv6;
    forall u ensures Visit(u, kd, DELAYED_ONLY).rec == Visit(u, kd, FULL).rec {
    }
    assert VisitRecs(Kept(b.users), kd, DELAYED_ONLY) == VisitRecs(Kept(b.users), kd, FULL);
  }

  // Patch joins the domains with blanks, a replay joins all decoys with commas.
  ghost predicate ProperDomains(b: BrigadeInfo) {
    Domains(b.proto0FakeDomains, ' ') && Domains(DecoysOf(b), ',')
  }

  // Sorting the configured decoys permutes the list that is sent, and joined with commas it is
  // the same text exactly when they were sorted.
  lemma DecoysSorted(b: BrigadeInfo)
    requires ProperDomains(b)
    ensures multiset(DecoysOf(b)) == multiset(DecoysOf(PatchedInfo(b)))
    ensures Join(DecoysOf(b), ',') == Join(DecoysOf(PatchedInfo(b)), ',') <==> Sorted(b.proto0FakeDomains)
  {
    hide Sort, Sorted, Join;
    SortSorts(b.proto0FakeDomains);
    SortFixes(b.proto0FakeDomains);
    var head := if b.proto0FakeDomain != "" then [b.proto0FakeDomain] else [];
    var was, now := DecoysOf(b), DecoysOf(PatchedInfo(b));
    assert was == head + b.proto0FakeDomains && now == head + Sort(b.proto0FakeDomains);
    assert was[|head|..] == b.proto0FakeDomains && now[|head|..] == Sort(b.proto0FakeDomains);
    DomainsPermuted(was, now, ',');
    if Join(was, ',') == Join(now, ',') {
      JoinInjective(was, now, ',');
    }
  }

  // When patch asks for no full replay, the interface parameters of the patched record are
  // those of the stored one up to the order of the decoy domains, and they are the same
  // exactly when the stored domains were sorted already.
  lemma ParamsAgree(was: BrigadeInfo, wanted: BrigadeInfo)
    requires was.Coherent() && wanted.Coherent() && ProperDomains(was) && ProperDomains(wanted)
    requires !NeedsFullReplay(was, wanted)
    ensures var p, q := ParamsOf(was), ParamsOf(PatchedInfo(wanted));
      && q == p.(proto0Domains := q.proto0Domains)
      && multiset(DecoysOf(was)) == multiset(DecoysOf(PatchedInfo(wanted)))
      && (p == q <==> Sorted(was.proto0FakeDomains))
  {
    hide Sorted, Sort, Join, Domains;
    SortSorts(was.proto0FakeDomains);
    SortSorts(wanted.proto0FakeDomains);
    DomainsPermuted(was.proto0FakeDomains, Sort(was.proto0FakeDomains), ' ');
    DomainsPermuted(wanted.proto0FakeDomains, Sort(wanted.proto0FakeDomains), ' ');
    JoinInjective(Sort(was.proto0FakeDomains), Sort(wanted.proto0FakeDomains), ' ');
    DecoysSorted(was);
    assert DecoysOf(PatchedInfo(was)) == DecoysOf(PatchedInfo(wanted));
  }

  // The incremental path refines the full path: from a settled endpoint both give the same
  // peers and the same stored record, and the same interface parameters exactly when the
  // stored decoy domains were sorted. The full path may start from any endpoint.
  lemma PathsAgree(was: BrigadeRec, wanted: BrigadeRec, b: BrigadeRec, settled: Slot, any: Slot)
    requires Patchable(was, wanted) && Patched(was, wanted, b)
    requires Settled(settled, was) && !NeedsFullReplay(was.info, wanted.info)
    requires settled.params == ParamsOf(was.info)
    requires was.info.Coherent() && wanted.info.Coherent()
    requires ProperDomains(was.info) && ProperDomains(wanted.info)
    ensures var fast, full := ApplyAll(Script(b, DELAYED_ONLY), settled), ApplyAll(Script(b, FULL), any);
      && fast.Up? && full.Up?
      && fast.peers == full.peers
      && (fast.params == full.params <==> Sorted(was.info.proto0FakeDomains))
      && Replayed(b, DELAYED_ONLY) == Replayed(b, FULL)
  {
    hide Script, NeedsFullReplay, Sorted, ParamsOf, Configured, Modified, ApplyAll, VisitRecs;
    SameKeydeskUnlessFull(was, wanted);
    Convergence(was, wanted, b, settled);
    PatchedKept(was, wanted, b);
    FullReplay(b, any);
    ParamsConfigure(ApplyAll(Script(b, FULL), any).params, b.info);
    ServesKeptIsLive(was, wanted, b, ApplyAll(Script(b, FULL), any));
    ServesSame(ApplyAll(Script(b, DELAYED_ONLY), settled), ApplyAll(Script(b, FULL), any), Live(wanted),
               wanted.info.keydeskIPv6);
    ParamsAgree(was.info, wanted.info);
    SameRecord(b);
  }

  // ----- whole runs of patches -----

  // The replay that main picks after a patch of the same mode.
  function Pick(was: BrigadeRec, wanted: BrigadeRec): Mode {
    if NeedsFullReplay(was.info, wanted.info) then FULL else DELAYED_ONLY
  }

  lemma ServesSameUsers(s: Slot, a: seq<UserRec>, b: seq<UserRec>, kd: Option<IPv6>)
    requires |a| == |b|
    requires forall i :: 0 <= i < |a| ==> a[i].info == b[i].info && a[i].isBlocked == b[i].isBlocked
    ensures Serves(s, a, kd) ==> Serves(s, b, kd)
  {
    hide Holds;
    if Serves(s, a, kd) {
      forall u | u in b && !u.isBlocked ensures u.Key() in s.peers && Holds(s.peers[u.Key()], u.info, kd) {
        var i :| 0 <= i < |b| && b[i] == u;
        assert a[i] in a;
      }
      forall k | k in s.peers ensures exists u :: u in b && !u.isBlocked && u.Key() == k {
        var u :| u in a && !u.isBlocked && u.Key() == k;
        var i :| 0 <= i < |a| && a[i] == u;
        assert b[i] in b;
      }
    }
  }

  lemma VisitKeeps(u: UserRec, kd: Option<IPv6>, m: Mode)
    ensures Visit(u, kd, m).rec.info == u.info && Visit(u, kd, m).rec.isBlocked == u.isBlocked
  {
  }

  // The replay that main picks makes the interface serve the wanted users.
  lemma CycleServes(was: BrigadeRec, wanted: BrigadeRec, b: BrigadeRec, s: Slot)
    requires Patchable(was, wanted) && Patched(was, wanted, b)
    requires NeedsFullReplay(was.info, wanted.info) || Settled(s, was)
    ensures var t := ApplyAll(Script(b, Pick(was, wanted)), s);
      Serves(t, Kept(b.users), wanted.info.keydeskIPv6) && Serves(t, Live(wanted), wanted.info.keydeskIPv6)
  {
    hide NeedsFullReplay, Script, UniqueKeys, Serves;
    LiveUnique(was, wanted);
    PatchedKept(was, wanted, b);
    ServesKeptIsLive(was, wanted, b, ApplyAll(Script(b, Pick(was, wanted)), s));
    if NeedsFullReplay(was.info, wanted.info) {
      FullReplay(b, s);
    } else {
      SameKeydeskUnlessFull(was, wanted);
      Convergence(was, wanted, b, s);
    }
  }

  // The record it stores has the kept users, and can be patched again.
  lemma CycleStores(was: BrigadeRec, wanted: BrigadeRec, b: BrigadeRec)
    requires Patchable(was, wanted) && Patched(was, wanted, b)
    ensures var kept, done := Kept(b.users), Replayed(b, Pick(was, wanted)).users;
      && |kept| == |done| && UniqueKeys(done)
      && (forall i :: 0 <= i < |kept| ==> done[i].info == kept[i].info && done[i].isBlocked == kept[i].isBlocked)
      && forall u :: u in done ==> u.info.Coherent()
  {
    hide NeedsFullReplay, Visit, UniqueKeys, Mark;
    var m := Pick(was, wanted);
    var kept, done := Kept(b.users), Replayed(b, m).users;
    LiveUnique(was, wanted);
    PatchedKept(was, wanted, b);
    forall i | 0 <= i < |kept| ensures done[i].info == kept[i].info && done[i].isBlocked == kept[i].isBlocked {
      VisitKeeps(kept[i], b.info.keydeskIPv6, m);
    }
    SameInfosUnique(kept, done);
    forall u | u in done ensures u.info.Coherent() {
      var i :| 0 <= i < |done| && done[i] == u;
      assert kept[i] in kept;
      MarkedByLive(was, wanted, kept[i]);
      var f :| f in Live(wanted) && kept[i] == Mark(was.users, f);
      MarkKeepsInfo(was.users, f);
      LiveIn(wanted, f);
    }
  }

  // One cycle: patch, then the replay that main picks. The interface of the new record ends
  // in step with the new record and with the wanted users, and the record can be patched
  // again. If the interface key changed, s is whatever the endpoint holds under the new key.
  lemma Cycle(was: BrigadeRec, wanted: BrigadeRec, b: BrigadeRec, s: Slot)
    requires Patchable(was, wanted) && Patched(was, wanted, b)
    requires NeedsFullReplay(was.info, wanted.info) || Settled(s, was)
    ensures var t, c := ApplyAll(Script(b, Pick(was, wanted)), s), Replayed(b, Pick(was, wanted));
      && Settled(t, c) && Serves(t, Live(wanted), wanted.info.keydeskIPv6)
      && UniqueKeys(c.users)
      && (forall u :: u in c.users ==> u.info.Coherent())
  {
    hide NeedsFullReplay, Script, Pick, Visit, UniqueKeys, Serves;
    CycleServes(was, wanted, b, s);
    CycleStores(was, wanted, b);
    ServesSameUsers(ApplyAll(Script(b, Pick(was, wanted)), s), Kept(b.users),
                    Replayed(b, Pick(was, wanted)).users, wanted.info.keydeskIPv6);
  }

  lemma SameInfosUnique(a: seq<UserRec>, b: seq<UserRec>)
    requires |a| == |b| && UniqueKeys(a)
    requires forall i :: 0 <= i < |a| ==> a[i].info == b[i].info
    ensures UniqueKeys(b)
  {
    forall i, j | 0 <= i < j < |b| ensures b[i].Key() != b[j].Key() {
      assert a[i].Key() != a[j].Key();
    }
  }

  // The users the new record holds are the wanted ones.
  lemma SettledIsServed(was: BrigadeRec, wanted: BrigadeRec, b: BrigadeRec, s: Slot)
    requires Patchable(was, wanted) && Patched(was, wanted, b)
    ensures Settled(s, Replayed(b, Pick(was, wanted))) <==> Serves(s, Live(wanted), wanted.info.keydeskIPv6)
  {
    hide NeedsFullReplay, Pick, Visit, UniqueKeys, Serves;
    LiveUnique(was, wanted);
    CycleStores(was, wanted, b);
    ServesKeptIsLive(was, wanted, b, s);
    var kept, done := Kept(b.users), Replayed(b, Pick(was, wanted)).users;
    ServesSameUsers(s, kept, done, wanted.info.keydeskIPv6);
    ServesSameUsers(s, done, kept, wanted.info.keydeskIPv6);
  }

  // The stored record and all endpoints, after each cycle of a run.
  datatype World = World(rec: BrigadeRec, slots: map<Iface, Slot>)

  // A record that can be patched.
  ghost predicate Fit(b: BrigadeRec) {
    UniqueKeys(b.users) && forall u :: u in b.users ==> u.info.Coherent()
  }

  // The interface the stored record leads to serves its users.
  ghost predicate InStep(w: World) {
    Fit(w.rec) && Settled(GetSlot(w.slots, Home(w.rec.info)), w.rec)
  }

  // The interface that the replay after a patch calls: the address was calculated from the
  // stored record before the patch, the key is the new one.
  function Called(was: BrigadeInfo, wanted: BrigadeInfo): Iface {
    Iface(Home(was).address, wanted.wgPublicKey)
  }

  // One interface was called, all others are as before.
  ghost predicate OnlyAt(iface: Iface, slots: map<Iface, Slot>, slots': map<Iface, Slot>, s: Slot) {
    && GetSlot(slots', iface) == s
    && forall other :: other != iface ==> GetSlot(slots', other) == GetSlot(slots, other)
  }

  // A new file that can be patched in.
  ghost predicate Fresh(newfile: BrigadeRec) {
    UniqueKeys(Live(newfile)) && forall u :: u in newfile.users ==> u.info.Coherent()
  }

  // How far the replay of a patched record got: the interface that is called has seen the
  // first n calls, all other interfaces none.
  ghost predicate ReplayReached(was: World, newfile: BrigadeRec, b: BrigadeRec, n: nat, slots: map<Iface, Slot>) {
    var script, called := Script(b, Pick(was.rec, newfile)), Called(was.rec.info, newfile.info);
    && n <= |script|
    && OnlyAt(called, was.slots, slots, ApplyAll(script[..n], GetSlot(was.slots, called)))
  }

  // A new file is patched in and the picked replay runs to its end.
  ghost predicate PatchCycle(w: World, w': World, wanted: BrigadeRec) {
    Fresh(wanted) && exists b :: Patched(w.rec, wanted, b) && CycleEnds(w, w', wanted, b)
  }

  ghost predicate CycleEnds(w: World, w': World, wanted: BrigadeRec, b: BrigadeRec) {
    var m, called := Pick(w.rec, wanted), Called(w.rec.info, wanted.info);
    && w'.rec == Replayed(b, m)
    && OnlyAt(called, w.slots, w'.slots, ApplyAll(Script(b, m), GetSlot(w.slots, called)))
  }

  // The replay reaches the endpoint that the new record leads to, or that one needs none.
  ghost predicate Arrives(w: World, wanted: BrigadeRec) {
    || w.rec.info.endpointIPv4 == wanted.info.endpointIPv4
    || Serves(GetSlot(w.slots, Home(wanted.info)), Live(wanted), wanted.info.keydeskIPv6)
  }

  lemma SameKeyUnlessFull(was: BrigadeInfo, wanted: BrigadeInfo)
    ensures !NeedsFullReplay(was, wanted) ==> Home(was) == Home(wanted)
  {
  }

  lemma CalledIsHome(was: BrigadeInfo, wanted: BrigadeInfo)
    ensures Called(was, wanted) == Home(wanted) <==> was.endpointIPv4 == wanted.endpointIPv4
  {
    hide CalcAPIAddr;
    APIAddrInjective(was.endpointIPv4, wanted.endpointIPv4);
  }

  // One cycle from an endpoint in step: the interface that is called serves the wanted users,
  // and the endpoint is in step with the new record if and only if the replay arrives there.
  lemma CycleInStep(w: World, w': World, wanted: BrigadeRec)
    requires InStep(w) && PatchCycle(w, w', wanted)
    ensures Fit(w'.rec) && Home(w'.rec.info) == Home(wanted.info)
    ensures Serves(GetSlot(w'.slots, Called(w.rec.info, wanted.info)), Live(wanted), wanted.info.keydeskIPv6)
    ensures InStep(w') <==> Arrives(w, wanted)
  {
    hide Script, Serves, Pick, UniqueKeys, ApplyAll, Replayed, NeedsFullReplay, CalcAPIAddr, PatchedUsers, GetSlot;
    var b :| Patched(w.rec, wanted, b) && CycleEnds(w, w', wanted, b);
    var called := Called(w.rec.info, wanted.info);
    SameKeyUnlessFull(w.rec.info, wanted.info);
    CalledIsHome(w.rec.info, wanted.info);
    Cycle(w.rec, wanted, b, GetSlot(w.slots, called));
    ReplayedInfo(b, Pick(w.rec, wanted));
    SettledIsServed(w.rec, wanted, b, GetSlot(w'.slots, Home(wanted.info)));
  }

  lemma ReplayedInfo(b: BrigadeRec, m: Mode)
    ensures Replayed(b, m).info == b.info
  {
  }

  // Over any run of patches the endpoint stays in step with the stored record if and only if
  // every replay arrives where its new record leads to; in particular if the brigade's IPv4
  // address never changes.
  lemma {:induction false} EveryRunStaysInStep(run: seq<World>, files: seq<BrigadeRec>)
    requires |run| == |files| + 1 && InStep(run[0])
    requires forall i :: 0 <= i < |files| ==> PatchCycle(run[i], run[i + 1], files[i])
    ensures (forall i :: 0 <= i < |run| ==> InStep(run[i])) <==>
            (forall i :: 0 <= i < |files| ==> Arrives(run[i], files[i]))
    decreases |files|
  {
    hide InStep, PatchCycle, Arrives;
    if files != [] {
      var n := |files| - 1;
      var before, early := run[..n + 1], files[..n];
      EveryRunStaysInStep(before, early);
      assert forall i :: 0 <= i <= n ==> before[i] == run[i];
      assert forall i :: 0 <= i < n ==> early[i] == files[i];
      if InStep(run[n]) {
        CycleInStep(run[n], run[n + 1], files[n]);
      }
    }
  }

  // ----- inputs at which the claims fail -----

  const NOTHING := SealedPair(NotSet, NotSet)

  // A brigade with nothing configured.
  const EXAMPLE := BrigadeInfo("brigade", "key", NOTHING, "", NOTHING, "", "", NOTHING, 1, "", 51820, 0, "", [], 0,
                               None, Prefix4(0, 24), Prefix6(IPv6(0, 0), 64))

  // Its move from one address to another: the replay goes to the old endpoint, and the one
  // that the new record leads to hears nothing.
  lemma AddressChangeIsLost(w: World, wanted: BrigadeRec)
    requires w == World(BrigadeRec(EXAMPLE, []), map[Home(EXAMPLE) := Up(ParamsOf(EXAMPLE), map[])])
    requires wanted == BrigadeRec(EXAMPLE.(endpointIPv4 := 2), [])
    ensures InStep(w) && exists w' :: PatchCycle(w, w', wanted)
    ensures forall w' :: PatchCycle(w, w', wanted) ==>
              !InStep(w') && GetSlot(w'.slots, Home(w'.rec.info)) == Down
  {
    hide ParamsOf, CalcAPIAddr, PatchCycle;
    APIAddrInjective(1, 2);
    CalledIsHome(w.rec.info, wanted.info);
    assert InStep(w) && Fresh(wanted) && !Arrives(w, wanted);
    CycleExists(w, wanted);
    forall w' | PatchCycle(w, w', wanted)
      ensures !InStep(w') && GetSlot(w'.slots, Home(w'.rec.info)) == Down
    {
      CycleInStep(w, w', wanted);
      OthersStay(w, w', wanted, Home(wanted.info));
    }
  }

  // A patch cycle is possible from everywhere.
  lemma CycleExists(w: World, wanted: BrigadeRec)
    requires Fresh(wanted)
    ensures exists w' :: PatchCycle(w, w', wanted)
  {
    hide Fresh, Script, ApplyAll, Replayed, Pick, PatchedUsers;
    var b := BrigadeRec(PatchedInfo(wanted.info), PatchedUsers(w.rec.users, wanted.users));
    var called := Called(w.rec.info, wanted.info);
    var s := ApplyAll(Script(b, Pick(w.rec, wanted)), GetSlot(w.slots, called));
    var w' := World(Replayed(b, Pick(w.rec, wanted)), w.slots[called := s]);
    assert Patched(w.rec, wanted, b) && CycleEnds(w, w', wanted, b);
    assert PatchCycle(w, w', wanted);
  }

  lemma OthersStay(w: World, w': World, wanted: BrigadeRec, other: Iface)
    requires PatchCycle(w, w', wanted) && other != Called(w.rec.info, wanted.info)
    ensures GetSlot(w'.slots, other) == GetSlot(w.slots, other)
  {
    hide Script, ApplyAll, Replayed, Pick, PatchedUsers;
  }

  // Its decoys in another order: patched with itself, the two replays leave two orders.
  lemma UnsortedDecoysDiffer(was: BrigadeRec, b: BrigadeRec, s: Slot)
    requires was == BrigadeRec(EXAMPLE.(proto0FakeDomains := ["b", "a"]), [])
    requires Patched(was, was, b) && s == Up(ParamsOf(was.info), map[])
    ensures !NeedsFullReplay(was.info, was.info)
    ensures var fast, full := ApplyAll(Script(b, DELAYED_ONLY), s), ApplyAll(Script(b, FULL), s);
      fast.Up? && full.Up? && fast.params != full.params
  {
    hide ParamsOf, Script, Sort, Patched;
    assert !Sorted(was.info.proto0FakeDomains);
    PathsAgree(was, was, b, s, s);
  }

  // A brigadier alone in it, and a new keydesk address: a delayed-only replay leaves the old one.
  lemma KeydeskChangeIsMissed(was: BrigadeRec, wanted: BrigadeRec, b: BrigadeRec, s: Slot, u: UserRec)
    requires u.info.isBrigadier && !u.isBlocked && !u.delayed.deletion && u.info.Coherent()
    requires was == BrigadeRec(EXAMPLE, [u]) && wanted == was.(info := EXAMPLE.(keydeskIPv6 := Some(IPv6(0, 1))))
    requires Patched(was, wanted, b) && Settled(s, was)
    ensures !Serves(ApplyAll(Script(b, DELAYED_ONLY), s), Live(wanted), wanted.info.keydeskIPv6)
  {
    hide Script, Patched, Serves;
    assert Kept([u]) == [u] + Kept([u][1..]);
    assert Live(wanted) == [u];
    NotModified(u.info);
    assert u in Live(wanted) && u in was.users;
    Convergence(was, wanted, b, s);
  }

  // Without a settled start the claim is false: a creation that is still pending in the
  // stored record is not carried into the new one, and the user never reaches the endpoint.
  lemma PendingCreationIsLost(was: BrigadeRec, b: BrigadeRec, s: Slot, f: UserRec)
    requires was.users == [f] && !f.isBlocked && !f.delayed.deletion && f.delayed.creation && f.info.Coherent()
    requires Patched(was, was, b) && s.Up? && Lookup(s, f.Key()) == None
    ensures Lookup(ApplyAll(Script(b, DELAYED_ONLY), s), f.Key()) == None
    ensures !Serves(ApplyAll(Script(b, DELAYED_ONLY), s), Live(was), was.info.keydeskIPv6)
  {
    hide Script, Patched, Modified;
    assert Kept(was.users) == [f] + Kept(was.users[1..]);
    assert Live(was) == [f];
    var t := ApplyAll(Script(b, DELAYED_ONLY), s);
    ScriptOnKey(was, was, b, f.Key(), None);
    ApplyByKey(Script(b, DELAYED_ONLY), s);
    FinalPeer(was, was, b, f.Key(), None);
    MatchedKey(was, was, f, f);
    assert !Modified(f.info, f.info) by { NotModified(f.info); }
    assert f in Live(was);
  }

  lemma NotModified(u: UserInfo)
    ensures !Modified(u, u)
  {
  }
}
