// What the registry operations come to, said on users and peers alone: who is deleted, blocked,
// unblocked or replaced, and what the endpoint holds of whom.

module Outcomes {
  import opened Brigade
  import opened Endpoint
  import opened Replay
  import opened Order
  import opened Net
  import opened Names
  import opened Peers
  import opened Registry
  import opened RegistryRuns

  ghost predicate UniqueIds(users: seq<UserRec>) {
    forall i, j :: 0 <= i < j < |users| ==> users[i].info.id != users[j].info.id
  }

  // ----- deletion -----

  // The user is the one that is to be deleted: it has the ID and the role asked for.
  predicate Condemned(op: Op, u: UserRec)
    requires op.Delete?
  {
    u.info.id == op.id && u.info.isBrigadier == op.brigadier
  }

  // The list without that user, or with it blocked; the same list if there is none.
  ghost predicate Deleted(op: Op, users: seq<UserRec>, left: seq<UserRec>)
    requires op.Delete?
  {
    && ((forall u :: u in users ==> !Condemned(op, u)) ==> left == users)
    && forall i :: 0 <= i < |users| && Condemned(op, users[i]) ==>
         left == if op.onlyBlock then users[..i] + [users[i].(isBlocked := true)] + users[i + 1..]
                 else users[..i] + users[i + 1..]
  }

  lemma FindExactly(users: seq<UserRec>, t: Test, i: nat)
    requires i < |users| && Meets(t, users[i].info)
    requires forall j :: 0 <= j < |users| && j != i ==> !Meets(t, users[j].info)
    ensures Find(users, t) == i
  {
  }

  // A deletion drops the peer of that user if it is not blocked, and nobody else's.
  lemma DeletionExactly(op: Op, b: BrigadeRec, none: UserInfo)
    requires op.Delete? && UniqueIds(b.users)
    ensures var plan := PlanOf(op, b, none);
      && Deleted(op, b.users, plan.users)
      && ((forall u :: u in b.users ==> !Condemned(op, u)) ==> plan.calls == [])
      && forall u :: u in b.users && Condemned(op, u) ==> plan.calls == if u.isBlocked then [] else [PeerDel(u.Key())]
  {
    hide PeerOf;
    var t, plan := WithIdAndRole(op.id, op.brigadier), PlanOf(op, b, none);
    if i :| 0 <= i < |b.users| && Condemned(op, b.users[i]) {
      FindExactly(b.users, t, i);
    } else {
      assert Find(b.users, t) == |b.users|;
    }
  }

  // Everybody else stays in the list, and its peer as it is, whatever becomes of the deletion.
  // So does the brigadier when a user is to be deleted, whatever its ID.
  lemma OthersSurvive(op: Op, b: BrigadeRec, none: UserInfo, n: nat, s: Slot, u: UserRec)
    requires op.Delete? && UniqueKeys(b.users) && u in b.users && !Condemned(op, u)
    requires n <= |PlanOf(op, b, none).calls|
    ensures u in PlanOf(op, b, none).users
    ensures Lookup(ApplyAll(PlanOf(op, b, none).calls[..n], s), u.Key()) == Lookup(s, u.Key())
  {
    hide PeerOf, ApplyAll, Lookup;
    var i, plan := Find(b.users, WithIdAndRole(op.id, op.brigadier)), PlanOf(op, b, none);
    var p :| 0 <= p < |b.users| && b.users[p] == u;
    assert i < |b.users| ==> b.users[i].Key() != u.Key();
    if op.onlyBlock {
      assert i < |b.users| ==> plan.users[p] == u;
    } else {
      assert i < |b.users| ==> plan.users[if p < i then p else p - 1] == u;
    }
    if n == 0 {
      assert plan.calls[..0] == [];
      NoCall(s);
    } else {
      var c := PeerDel(b.users[i].Key());
      assert plan.calls[..n] == [c];
      SingleCall(c, s);
      OtherPeer(c.key, s, u.Key());
    }
  }

  ghost predicate OthersStay(op: Op, users: seq<UserRec>, left: seq<UserRec>, s: Slot, t: Slot)
    requires op.Delete?
  {
    UniqueKeys(users) ==>
      forall u :: u in users && !Condemned(op, u) ==> u in left && Lookup(t, u.Key()) == Lookup(s, u.Key())
  }

  lemma OtherPeer(gone: Key, s: Slot, k: Key)
    requires gone != k
    ensures Lookup(Apply(PeerDel(gone), s), k) == Lookup(s, k)
  {
  }

  // ----- unblocking -----

  // The list with the user of this ID not blocked.
  ghost predicate Unblocked(id: nat, users: seq<UserRec>, left: seq<UserRec>) {
    forall i :: 0 <= i < |users| && users[i].info.id == id ==>
      left == users[..i] + [users[i].(isBlocked := false)] + users[i + 1..]
  }

  lemma UnblockingExactly(op: Op, b: BrigadeRec, none: UserInfo)
    requires op.Unblock? && UniqueIds(b.users)
    ensures Unblocked(op.id, b.users, PlanOf(op, b, none).users)
  {
    hide PeerOf;
    if i :| 0 <= i < |b.users| && b.users[i].info.id == op.id {
      FindExactly(b.users, WithId(op.id), i);
    }
  }

  // The endpoint holds under the key what is this user's.
  ghost predicate HasPeer(s: Slot, u: UserInfo, keydesk: Option<IPv6>) {
    s.Up? && u.wgPublicKey in s.peers && Holds(s.peers[u.wgPublicKey], u, keydesk)
  }

  lemma AddedPeer(s: Slot, u: UserInfo, keydesk: Option<IPv6>)
    requires s.Up? && u.wgPublicKey !in s.peers
    ensures HasPeer(Apply(PeerAdd(u.wgPublicKey, PeerOf(u, keydesk)), s), u, keydesk)
  {
    PeerHolds(PeerOf(u, keydesk), u, keydesk);
  }

  ghost predicate UnblockedServed(id: nat, b: BrigadeRec, s: Slot, t: Slot) {
    s.Up? ==> forall u :: u in b.users && u.info.id == id && u.isBlocked && u.Key() !in s.peers ==>
      HasPeer(t, u.info, b.info.keydeskIPv6)
  }

  // A blocked user that had no peer has its own after its unblocking.
  lemma UnblockingReaches(op: Op, b: BrigadeRec, none: UserInfo, s: Slot, u: UserRec)
    requires op.Unblock? && UniqueIds(b.users) && u in b.users && u.info.id == op.id && u.isBlocked
    requires s.Up? && u.Key() !in s.peers
    ensures HasPeer(ApplyAll(PlanOf(op, b, none).calls, s), u.info, b.info.keydeskIPv6)
  {
    hide PeerOf, Holds, ApplyAll, HasPeer;
    var i :| 0 <= i < |b.users| && b.users[i] == u;
    FindExactly(b.users, WithId(op.id), i);
    AddedPeer(s, u.info, b.info.keydeskIPv6);
    SingleCall(PeerAdd(u.Key(), PeerOf(u.info, b.info.keydeskIPv6)), s);
  }

  // ----- creation and replacement -----

  // The users that are not the brigadier.
  function Ordinary(users: seq<UserRec>): seq<UserRec> {
    if users == [] then []
    else (if users[0].info.isBrigadier then [] else [users[0]]) + Ordinary(users[1..])
  }

  lemma {:induction false} AllOrdinary(users: seq<UserRec>)
    requires forall u :: u in users ==> !u.info.isBrigadier
    ensures Ordinary(users) == users
  {
    if users != [] {
      assert users[0] in users;
      AllOrdinary(users[1..]);
    }
  }

  lemma {:induction false} OrdinaryWithout(users: seq<UserRec>, i: nat)
    requires i < |users| && users[i].info.isBrigadier
    requires forall j :: 0 <= j < |users| && j != i ==> !users[j].info.isBrigadier
    ensures Ordinary(users) == RemoveAt(users, i)
  {
    if i == 0 {
      AllOrdinary(users[1..]);
    } else {
      OrdinaryWithout(users[1..], i - 1);
    }
  }

  // A creation that replaces the brigadier starts from the users that are not, and has its peer
  // dropped; every other creation starts from all users and drops nothing.
  lemma BaseExactly(op: Op, users: seq<UserRec>)
    requires op.Create? && AllApart(users)
    ensures var base, replaced := Base(op, users), op.form.isBrigadier && op.replace;
      && base.users == (if replaced then Ordinary(users) else users)
      && (forall u :: u in users && u.info.isBrigadier && replaced ==> base.calls == [PeerDel(u.Key())])
      && (!replaced || (forall u :: u in users ==> !u.info.isBrigadier) ==> base.calls == [])
  {
    if i :| 0 <= i < |users| && users[i].info.isBrigadier {
      forall j | 0 <= j < |users| && j != i ensures !users[j].info.isBrigadier {
        assert if i < j then Apart(users[i].info, users[j].info) else Apart(users[j].info, users[i].info);
      }
      FindExactly(users, ABrigadier, i);
      OrdinaryWithout(users, i);
    } else {
      AllOrdinary(users);
      assert Find(users, ABrigadier) == |users|;
    }
  }

  // The new user is what the form says, without a domain of its own; it brings an ID if the form
  // asks for a random one, two addresses, and a name, which is made of the form's unless the
  // brigadier is replaced.
  predicate AsAsked(op: Op, b: BrigadeInfo, salt: bv32, added: UserInfo)
    requires op.Create? && b.ipv4CGNAT.bits <= 32
  {
    && added == op.form.(id := added.id, ipv4 := added.ipv4, ipv6 := added.ipv6, name := added.name,
                         endpointDomain := "")
    && (op.form.id != NIL ==> added.id == op.form.id)
    && (!(op.form.isBrigadier && op.replace) ==>
          added.name == DisplayName(b.ipv4CGNAT, added.ipv4, salt, op.form.name))
  }

  lemma AddedAsAsked(op: Op, b: BrigadeRec, salt: bv32, max: nat, added: UserInfo)
    requires op.Create? && Prefixed(b.info) && Allowed(op, b, salt, max, added)
    ensures AsAsked(op, b.info, salt, added)
  {
    hide Placed, DisplayName, TrimNumber, Refusal, Find, Ids, Taken4, Taken6, Base;
  }

  // A new user whose key the endpoint did not know has its own peer after its creation.
  lemma CreationReaches(op: Op, b: BrigadeRec, added: UserInfo, s: Slot)
    requires op.Create? && s.Up? && added.wgPublicKey !in s.peers
    ensures HasPeer(ApplyAll(PlanOf(op, b, added).calls, s), added, b.info.keydeskIPv6)
  {
    hide PeerOf, Holds, ApplyAll, HasPeer, Find, Insert;
    var base := Base(op, b.users).calls;
    var add := PeerAdd(added.wgPublicKey, PeerOf(added, b.info.keydeskIPv6));
    if base == [] {
      assert base + [add] == [add];
      SingleCall(add, s);
      AddedPeer(s, added, b.info.keydeskIPv6);
    } else {
      assert base == [base[0]];
      TwoCalls(base[0], add, s);
      AddedPeer(Apply(base[0], s), added, b.info.keydeskIPv6);
    }
  }
}
