// What every run of the registry keeps: the list stays well-formed whatever fails, and the
// endpoint strays from the record only at keys of operations that failed.

module RegistryRuns {
  import opened Brigade
  import opened Endpoint
  import opened Replay
  import opened Order
  import opened Net
  import opened FreeAddress
  import opened Names
  import opened Peers
  import opened Registry

  // ----- the registry invariant -----

  predicate Apart(a: UserInfo, b: UserInfo) {
    && a.id != b.id && a.wgPublicKey != b.wgPublicKey && a.ipv4 != b.ipv4 && a.ipv6 != b.ipv6
    && !(a.isBrigadier && b.isBrigadier)
  }

  ghost predicate AllApart(users: seq<UserRec>) {
    forall i, j :: 0 <= i < j < |users| ==> Apart(users[i].info, users[j].info)
  }

  // The user's ID is a real one, its addresses fit, and its name carries its number.
  ghost predicate Proper(b: BrigadeInfo, salt: bv32, u: UserInfo)
    requires Prefixed(b)
  {
    u.id != NIL && Placed(b, u.ipv4, u.ipv6) && exists full :: u.name == DisplayName(b.ipv4CGNAT, u.ipv4, salt, full)
  }

  ghost predicate Registered(b: BrigadeRec, salt: bv32, max: nat)
    requires Prefixed(b.info)
  {
    && |b.users| <= max && AllApart(b.users) && Ordered(b.users)
    && forall i :: 0 <= i < |b.users| ==> Proper(b.info, salt, b.users[i].info)
  }

  lemma ApartOrderable(users: seq<UserRec>)
    requires AllApart(users)
    ensures Orderable(users) && UniqueKeys(users)
  {
    forall i, j | 0 <= i < j < |users| ensures Apart(users[i].info, users[j].info) {
    }
  }

  // Under the invariant the IDs are as many as the users.
  lemma {:induction false} IdsCount(users: seq<UserRec>)
    requires AllApart(users)
    ensures |Ids(users)| == |users|
  {
    if users != [] {
      var rest := users[..|users| - 1];
      IdsCount(rest);
      var last := users[|users| - 1].info.id;
      assert Ids(users) == Ids(rest) + {last};
      assert last !in Ids(rest);
    }
  }

  lemma RemovedKeeps(b: BrigadeRec, salt: bv32, max: nat, i: nat)
    requires Prefixed(b.info) && Registered(b, salt, max) && i < |b.users|
    ensures Registered(b.(users := RemoveAt(b.users, i)), salt, max)
  {
    hide Apart, Before, Proper;
  }

  // Changing whether users are blocked does not matter to the registry.
  lemma SameInfosKeep(b: BrigadeRec, salt: bv32, max: nat, users: seq<UserRec>)
    requires Prefixed(b.info) && Registered(b, salt, max)
    requires |users| == |b.users| && forall i :: 0 <= i < |users| ==> users[i].info == b.users[i].info
    ensures Registered(b.(users := users), salt, max)
  {
    hide Apart, Before, Proper;
  }

  lemma InsertAtApart(users: seq<UserRec>, p: nat, x: UserRec)
    requires p <= |users| && AllApart(users)
    requires forall i :: 0 <= i < |users| ==> Apart(users[i].info, x.info) && Apart(x.info, users[i].info)
    ensures AllApart(InsertAt(users, p, x)) && AllApart(users + [x])
  {
    hide Apart;
  }

  lemma InsertKeeps(b: BrigadeRec, salt: bv32, max: nat, x: UserRec)
    requires Prefixed(b.info) && Registered(b, salt, max) && |b.users| < max
    requires forall i :: 0 <= i < |b.users| ==> Apart(b.users[i].info, x.info) && Apart(x.info, b.users[i].info)
    requires Proper(b.info, salt, x.info)
    ensures Registered(b.(users := Insert(b.users, x)), salt, max)
  {
    hide Apart, Before, Proper;
    var p := Find(b.users, After(x.info));
    InsertAtApart(b.users, p, x);
    ApartOrderable(b.users + [x]);
    InsertPlace(b.users, x);
    InsertAtOrdered(b.users, p, x);
  }

  lemma {:induction false} NoClash(users: seq<UserRec>, fullname: string, isBrigadier: bool)
    ensures Clash(users, fullname, isBrigadier) == None <==>
            forall i :: 0 <= i < |users| ==>
              users[i].info.name != fullname && !(isBrigadier && users[i].info.isBrigadier)
  {
    if users != [] {
      NoClash(users[1..], fullname, isBrigadier);
      assert forall i :: 1 <= i < |users| ==> users[i] == users[1..][i - 1];
    }
  }

  ghost predicate NewKey(users: seq<UserRec>, k: Key) {
    forall i :: 0 <= i < |users| ==> users[i].Key() != k
  }

  // A user that was accepted, assembled, and has a new key stands apart from the others.
  lemma AssembledApart(b: BrigadeInfo, salt: bv32, users: seq<UserRec>, form: UserInfo, added: UserInfo, i: nat)
    requires Prefixed(b) && Clash(users, form.name, form.isBrigadier) == None
    requires Assembled(b, salt, users, form, added)
    requires NewKey(users, form.wgPublicKey) && i < |users|
    ensures Apart(users[i].info, added) && Apart(added, users[i].info)
  {
    hide Clash, DisplayName, Placed, LastPrefixIPv4, LastPrefixIPv6;
    NoClash(users, form.name, form.isBrigadier);
    var u := users[i].info;
    assert u.id in Ids(users);
    assert u.ipv4 in Taken4(b.ipv4CGNAT, users);
    assert u.ipv6 in Taken6(b.ipv6ULA, users);
  }

  lemma AssembledProper(b: BrigadeInfo, salt: bv32, users: seq<UserRec>, form: UserInfo, added: UserInfo)
    requires Prefixed(b) && Assembled(b, salt, users, form, added)
    ensures Proper(b, salt, added)
  {
    hide DisplayName, Placed, Taken4, Taken6, Ids;
  }

  lemma BaseKeeps(op: Op, b: BrigadeRec, salt: bv32, max: nat)
    requires Prefixed(b.info) && Registered(b, salt, max)
    ensures Registered(b.(users := Base(op, b.users).users), salt, max)
    ensures forall k :: NewKey(b.users, k) ==> NewKey(Base(op, b.users).users, k)
  {
    hide Proper, AllApart, Ordered;
    var i := Find(b.users, ABrigadier);
    if Replaces(op) && i < |b.users| {
      RemovedKeeps(b, salt, max, i);
    }
  }

  // Every operation that completes keeps the invariant.
  lemma CompletedKeeps(op: Op, b: BrigadeRec, salt: bv32, max: nat, added: UserInfo)
    requires Prefixed(b.info) && Registered(b, salt, max) && Allowed(op, b, salt, max, added)
    requires op.Create? ==> NewKey(b.users, op.form.wgPublicKey)
    ensures Registered(b.(users := PlanOf(op, b, added).users), salt, max)
  {
    hide Proper, AllApart, Ordered, Apart, Insert, Assembled, PeerOf, Clash, NewKey, Base, FormFor, TrimNumber;
    match op
    case Create(_, _) =>
      BaseKeeps(op, b, salt, max);
      var base := b.(users := Base(op, b.users).users);
      var form := FormFor(op, b.users);
      FormKeepsKey(op, b.users);
      forall i | 0 <= i < |base.users|
        ensures Apart(base.users[i].info, added) && Apart(added, base.users[i].info)
      {
        AssembledApart(b.info, salt, base.users, form, added, i);
      }
      AssembledProper(b.info, salt, base.users, form, added);
      IdsCount(base.users);
      InsertKeeps(base, salt, max, UserRec(added, false, NOTHING_DELAYED));
    case Delete(id, brigadier, onlyBlock) =>
      var i := Find(b.users, WithIdAndRole(id, brigadier));
      if i < |b.users| {
        if onlyBlock {
          SameInfosKeep(b, salt, max, PlanOf(op, b, added).users);
        } else {
          RemovedKeeps(b, salt, max, i);
        }
      }
    case Unblock(id) =>
      SameInfosKeep(b, salt, max, PlanOf(op, b, added).users);
  }

  // ----- the endpoint -----

  function Wanted(u: UserRec, keydesk: Option<IPv6>): Option<Peer> {
    if u.isBlocked then None else Some(PeerOf(u.info, keydesk))
  }

  // The endpoint holds under a key what the list asks for.
  predicate Agrees(s: Slot, users: seq<UserRec>, keydesk: Option<IPv6>, k: Key) {
    Lookup(s, k) == PeerFor(users, keydesk, k)
  }

  // What a user's key can hold at all: nothing or the user's own peer.
  predicate Own(v: Option<Peer>, u: UserRec, keydesk: Option<IPv6>) {
    v == None || v == Some(PeerOf(u.info, keydesk))
  }

  ghost predicate AllOwn(s: Slot, users: seq<UserRec>, keydesk: Option<IPv6>) {
    forall i :: 0 <= i < |users| ==> Own(Lookup(s, users[i].Key()), users[i], keydesk)
  }

  // The endpoint agrees with the record at all keys but exactly the given ones.
  ghost predicate AgreesBut(s: Slot, b: BrigadeRec, drift: set<Key>) {
    && s.Up? && AllOwn(s, b.users, b.info.keydeskIPv6)
    && forall k :: k in drift <==> !Agrees(s, b.users, b.info.keydeskIPv6, k)
  }

  // It serves exactly the unblocked users if and only if there are no such keys.
  lemma AgreesServes(s: Slot, b: BrigadeRec, drift: set<Key>)
    requires AgreesBut(s, b, drift) && UniqueKeys(b.users)
    ensures Serves(s, b.users, b.info.keydeskIPv6) <==> drift == {}
  {
    hide PeerOf, PeerFor, Lookup;
    ServesByKey(s, b.users, b.info.keydeskIPv6);
    forall k ensures k in drift <==> Lookup(s, k) != PeerFor(b.users, b.info.keydeskIPv6, k) {
      assert k in drift <==> !Agrees(s, b.users, b.info.keydeskIPv6, k);
    }
  }

  // A list seen as one user and the others.
  lemma {:induction false} PeerForAt(users: seq<UserRec>, i: nat, keydesk: Option<IPv6>, k: Key)
    requires UniqueKeys(users) && i < |users|
    ensures PeerFor(users, keydesk, k) ==
            if k == users[i].Key() then Wanted(users[i], keydesk) else PeerFor(RemoveAt(users, i), keydesk, k)
    ensures k == users[i].Key() ==> PeerFor(RemoveAt(users, i), keydesk, k) == None
  {
    hide PeerOf;
    PeerForIn(users, keydesk, k);
    if k == users[i].Key() {
      RemovedUnique(users, i);
      PeerForIn(RemoveAt(users, i), keydesk, k);
    } else if i == 0 {
      assert RemoveAt(users, 0) == users[1..];
    } else {
      assert RemoveAt(users, i)[1..] == RemoveAt(users[1..], i - 1);
      PeerForAt(users[1..], i - 1, keydesk, k);
    }
  }

  lemma RemovedUnique(users: seq<UserRec>, i: nat)
    requires UniqueKeys(users) && i < |users|
    ensures UniqueKeys(RemoveAt(users, i)) && NewKey(RemoveAt(users, i), users[i].Key())
  {
  }

  lemma OwnAt(s: Slot, users: seq<UserRec>, i: nat, keydesk: Option<IPv6>)
    requires i < |users|
    ensures AllOwn(s, users, keydesk) <==>
            AllOwn(s, RemoveAt(users, i), keydesk) && Own(Lookup(s, users[i].Key()), users[i], keydesk)
  {
    hide Own, Lookup;
    var r := RemoveAt(users, i);
    assert forall j :: 0 <= j < i ==> r[j] == users[j];
    assert forall j :: i < j < |users| ==> r[j - 1] == users[j];
    assert forall j :: 0 <= j < |r| ==> r[j] == users[if j < i then j else j + 1];
  }

  // One call, key by key.
  lemma OneCall(c: Call, s: Slot, k: Key)
    requires s.Up? && (c.PeerDel? || c.PeerAdd?)
    ensures Apply(c, s).Up? && Lookup(Apply(c, s), k) == ActOn(c, k, Lookup(s, k))
  {
  }

  // ----- calls with and without their effect on the list -----

  // The peer of a user goes, and the user with it.
  lemma DropUser(s: Slot, b: BrigadeRec, drift: set<Key>, i: nat)
    requires AgreesBut(s, b, drift) && UniqueKeys(b.users) && i < |b.users|
    ensures AgreesBut(Apply(PeerDel(b.users[i].Key()), s), b.(users := RemoveAt(b.users, i)),
                      drift - {b.users[i].Key()})
  {
    hide PeerOf, PeerFor, Lookup, UniqueKeys, Apply;
    var c := PeerDel(b.users[i].Key());
    RemovedAgrees(s, b, i, c);
  }

  lemma RemovedAgrees(s: Slot, b: BrigadeRec, i: nat, c: Call)
    requires s.Up? && AllOwn(s, b.users, b.info.keydeskIPv6) && UniqueKeys(b.users) && i < |b.users|
    requires c == PeerDel(b.users[i].Key())
    ensures Apply(c, s).Up? && AllOwn(Apply(c, s), RemoveAt(b.users, i), b.info.keydeskIPv6)
    ensures forall k :: Agrees(s, b.users, b.info.keydeskIPv6, k) || k == b.users[i].Key() <==>
              Agrees(Apply(c, s), RemoveAt(b.users, i), b.info.keydeskIPv6, k)
  {
    hide PeerOf, PeerFor, Lookup, UniqueKeys, Apply;
    var rest := RemoveAt(b.users, i);
    OneCall(c, s, c.key);
    OwnAt(s, b.users, i, b.info.keydeskIPv6);
    forall j | 0 <= j < |rest| ensures Own(Lookup(Apply(c, s), rest[j].Key()), rest[j], b.info.keydeskIPv6) {
      OneCall(c, s, rest[j].Key());
    }
    forall k ensures Agrees(s, b.users, b.info.keydeskIPv6, k) || k == c.key <==>
                     Agrees(Apply(c, s), rest, b.info.keydeskIPv6, k) {
      OneCall(c, s, k);
      PeerForAt(b.users, i, b.info.keydeskIPv6, k);
    }
  }

  // A blocked user is deleted without a call.
  lemma ForgetUser(s: Slot, b: BrigadeRec, drift: set<Key>, i: nat)
    requires AgreesBut(s, b, drift) && UniqueKeys(b.users) && i < |b.users| && b.users[i].isBlocked
    ensures AgreesBut(s, b.(users := RemoveAt(b.users, i)), drift)
  {
    hide PeerOf, PeerFor, Lookup, UniqueKeys, Own;
    OwnAt(s, b.users, i, b.info.keydeskIPv6);
    forall k ensures k in drift <==> !Agrees(s, RemoveAt(b.users, i), b.info.keydeskIPv6, k) {
      assert k in drift <==> !Agrees(s, b.users, b.info.keydeskIPv6, k);
      PeerForAt(b.users, i, b.info.keydeskIPv6, k);
    }
  }

  // A user is blocked or unblocked, and its peer goes or comes with it.
  lemma UpdateUser(s: Slot, b: BrigadeRec, drift: set<Key>, i: nat, v: UserRec, c: Call)
    requires AgreesBut(s, b, drift) && UniqueKeys(b.users) && i < |b.users| && v.info == b.users[i].info
    requires (c.PeerDel? || c.PeerAdd?) && c.key == v.Key()
    requires ActOn(c, c.key, Lookup(s, c.key)) == Wanted(v, b.info.keydeskIPv6)
    ensures AgreesBut(Apply(c, s), b.(users := b.users[i := v]), drift - {c.key})
  {
    hide PeerOf, PeerFor, Lookup, Apply, ActOn;
    var users, kd, s' := b.users[i := v], b.info.keydeskIPv6, Apply(c, s);
    assert RemoveAt(users, i) == RemoveAt(b.users, i);
    assert UniqueKeys(users);
    OneCall(c, s, c.key);
    hide UniqueKeys;
    OwnAt(s, b.users, i, kd);
    OthersOwn(s, RemoveAt(b.users, i), kd, c);
    OwnAt(s', users, i, kd);
    forall k ensures k in drift - {c.key} <==> !Agrees(s', users, kd, k) {
      OneCall(c, s, k);
      OtherKey(c, k, Lookup(s, k));
      PeerForAt(b.users, i, kd, k);
      PeerForAt(users, i, kd, k);
      assert k in drift <==> !Agrees(s, b.users, kd, k);
    }
  }

  lemma OtherKey(c: Call, k: Key, v: Option<Peer>)
    requires c.PeerDel? || c.PeerAdd?
    ensures k != c.key ==> ActOn(c, k, v) == v
  {
  }

  // A call leaves every user with its own peer or none if what it adds is a user's own.
  lemma OthersOwn(s: Slot, users: seq<UserRec>, keydesk: Option<IPv6>, c: Call)
    requires s.Up? && (c.PeerDel? || c.PeerAdd?) && AllOwn(s, users, keydesk)
    requires c.PeerAdd? ==>
      forall i :: 0 <= i < |users| && users[i].Key() == c.key ==> c.peer == PeerOf(users[i].info, keydesk)
    ensures AllOwn(Apply(c, s), users, keydesk)
  {
    hide PeerOf, Lookup, Apply;
    forall i | 0 <= i < |users| ensures Own(Lookup(Apply(c, s), users[i].Key()), users[i], keydesk) {
      OneCall(c, s, users[i].Key());
    }
  }

  // A user with a new key is put into the list, and its peer is added.
  lemma AddUser(s: Slot, b: BrigadeRec, drift: set<Key>, x: UserRec, c: Call)
    requires AgreesBut(s, b, drift) && UniqueKeys(b.users) && NewKey(b.users, x.Key()) && !x.isBlocked
    requires Lookup(s, x.Key()) == None && c == PeerAdd(x.Key(), PeerOf(x.info, b.info.keydeskIPv6))
    ensures AgreesBut(Apply(c, s), b.(users := Insert(b.users, x)), drift - {c.key})
  {
    hide PeerOf, PeerFor, Lookup, Apply, Find;
    var p := Find(b.users, After(x.info));
    var users, kd, s' := Insert(b.users, x), b.info.keydeskIPv6, Apply(c, s);
    assert users[p] == x && RemoveAt(users, p) == b.users;
    InsertedUnique(b.users, p, x);
    OneCall(c, s, c.key);
    hide UniqueKeys;
    OthersOwn(s, b.users, kd, c);
    OwnAt(s', users, p, kd);
    forall k ensures k in drift - {c.key} <==> !Agrees(s', users, kd, k) {
      OneCall(c, s, k);
      PeerForAt(users, p, kd, k);
      assert k in drift <==> !Agrees(s, b.users, kd, k);
    }
  }

  lemma InsertedUnique(users: seq<UserRec>, p: nat, x: UserRec)
    requires UniqueKeys(users) && NewKey(users, x.Key()) && p <= |users|
    ensures UniqueKeys(InsertAt(users, p, x))
  {
  }

  // A call that took effect although the operation did not complete. It leaves the endpoint and
  // the record at odds unless it dropped a peer that nobody asked for.
  lemma StrayCall(s: Slot, b: BrigadeRec, drift: set<Key>, c: Call)
    requires AgreesBut(s, b, drift) && (c.PeerDel? || c.PeerAdd?)
    requires c.PeerAdd? ==> PeerFor(b.users, b.info.keydeskIPv6, c.key) == None
    requires c.PeerAdd? ==>
      forall i :: 0 <= i < |b.users| && b.users[i].Key() == c.key ==>
        c.peer == PeerOf(b.users[i].info, b.info.keydeskIPv6)
    ensures AgreesBut(Apply(c, s), b, drift - {c.key} + Hurt(c, b))
  {
    hide PeerOf, PeerFor, Lookup, Apply, Own;
    OneCall(c, s, c.key);
    OthersOwn(s, b.users, b.info.keydeskIPv6, c);
    forall k ensures k in drift - {c.key} + Hurt(c, b) <==> !Agrees(Apply(c, s), b.users, b.info.keydeskIPv6, k) {
      OneCall(c, s, k);
      OtherKey(c, k, Lookup(s, k));
      assert k in drift <==> !Agrees(s, b.users, b.info.keydeskIPv6, k);
    }
  }

  // The key of a call, unless the call drops what the list does not ask for.
  function Hurt(c: Call, b: BrigadeRec): set<Key>
    requires c.PeerDel? || c.PeerAdd?
  {
    if c.PeerDel? && PeerFor(b.users, b.info.keydeskIPv6, c.key) == None then {} else {c.key}
  }

  // ----- runs -----

  // The stored record, the interface, and the keys at which they differ.
  datatype World = World(rec: BrigadeRec, slot: Slot, drift: set<Key>)

  function KeysOf(calls: seq<Call>): set<Key> {
    set i | 0 <= i < |calls| && (calls[i].PeerDel? || calls[i].PeerAdd?) :: calls[i].key
  }

  // A key pair made for the new user is known to no user and not to the endpoint.
  ghost predicate Unknown(op: Op, w: World) {
    op.Create? ==> NewKey(w.rec.users, op.form.wgPublicKey) && Lookup(w.slot, op.form.wgPublicKey) == None
  }

  // The operation completes: all its calls took effect, and its list is committed.
  ghost predicate Completes(w: World, op: Op, added: UserInfo, w': World, salt: bv32, max: nat)
    requires Prefixed(w.rec.info)
  {
    var plan := PlanOf(op, w.rec, added);
    && Unknown(op, w) && Allowed(op, w.rec, salt, max, added)
    && w' == World(w.rec.(users := plan.users), ApplyAll(plan.calls, w.slot), w.drift - KeysOf(plan.calls))
  }

  // The key of a blocked brigadier that is being replaced: dropping its peer does no harm.
  function Harmless(op: Op, b: BrigadeRec): set<Key> {
    var i := Find(b.users, ABrigadier);
    if Replaces(op) && i < |b.users| && b.users[i].isBlocked then {b.users[i].Key()} else {}
  }

  // The operation fails after some of its calls took effect; nothing is committed. A user
  // that was not assembled is not offered to the endpoint.
  ghost predicate Fails(w: World, op: Op, added: UserInfo, n: nat, w': World, salt: bv32, max: nat)
    requires Prefixed(w.rec.info)
  {
    var calls := PlanOf(op, w.rec, added).calls;
    && Unknown(op, w) && n <= |calls|
    && (op.Create? && n == |calls| ==> Allowed(op, w.rec, salt, max, added))
    && w' == World(w.rec, ApplyAll(calls[..n], w.slot), DriftAfterFailure(w.drift, op, w.rec, calls[..n]))
  }

  function DriftAfterFailure(drift: set<Key>, op: Op, b: BrigadeRec, sent: seq<Call>): set<Key> {
    drift - KeysOf(sent) + (KeysOf(sent) - Harmless(op, b))
  }

  ghost predicate Step(w: World, w': World, salt: bv32, max: nat)
    requires Prefixed(w.rec.info)
  {
    || (exists op, added :: Completes(w, op, added, w', salt, max))
    || (exists op, added, n :: Fails(w, op, added, n, w', salt, max))
  }

  ghost predicate Inv(w: World, salt: bv32, max: nat)
    requires Prefixed(w.rec.info)
  {
    Registered(w.rec, salt, max) && AgreesBut(w.slot, w.rec, w.drift)
  }

  // The part of the invariant that the endpoint's side rests on.
  ghost predicate Tracked(w: World) {
    UniqueKeys(w.rec.users) && AgreesBut(w.slot, w.rec, w.drift)
  }

  lemma InvTracks(w: World, salt: bv32, max: nat)
    requires Prefixed(w.rec.info) && Inv(w, salt, max)
    ensures Tracked(w)
  {
    hide AgreesBut, Proper, Before;
    ApartOrderable(w.rec.users);
  }

  lemma NoCall(s: Slot)
    ensures ApplyAll([], s) == s && KeysOf([]) == {}
  {
  }

  lemma SingleCall(c: Call, s: Slot)
    requires c.PeerDel? || c.PeerAdd?
    ensures ApplyAll([c], s) == Apply(c, s) && KeysOf([c]) == {c.key}
  {
    assert [c][1..] == [];
    assert KeysOf([c]) == {[c][0].key};
  }

  lemma TwoCalls(c: Call, d: Call, s: Slot)
    requires (c.PeerDel? || c.PeerAdd?) && (d.PeerDel? || d.PeerAdd?)
    ensures ApplyAll([c] + [d], s) == Apply(d, Apply(c, s)) && KeysOf([c] + [d]) == {c.key} + {d.key}
  {
    ApplyAllConcat([c], [d], s);
    SingleCall(c, s);
    SingleCall(d, Apply(c, s));
    assert KeysOf([c] + [d]) == {([c] + [d])[0].key, ([c] + [d])[1].key};
  }

  lemma AddedKey(op: Op, b: BrigadeRec, salt: bv32, max: nat, added: UserInfo)
    requires Prefixed(b.info) && op.Create? && Allowed(op, b, salt, max, added)
    ensures added.wgPublicKey == op.form.wgPublicKey
  {
    FormKeepsKey(op, b.users);
    hide FormFor, Placed, DisplayName, Taken4, Taken6, Ids, Refusal;
  }

  lemma CompletedCreate(w: World, op: Op, added: UserInfo, w': World, salt: bv32, max: nat)
    requires Prefixed(w.rec.info) && Tracked(w) && op.Create? && Completes(w, op, added, w', salt, max)
    ensures AgreesBut(w'.slot, w'.rec, w'.drift)
  {
    hide PeerOf, Insert, Lookup, Apply, ApplyAll, AgreesBut, KeysOf, Allowed, Proper, Before, NewKey, FormFor;
    AddedKey(op, w.rec, salt, max, added);
    hide UniqueKeys;
    var users := w.rec.users;
    var i := Find(users, ABrigadier);
    var x := UserRec(added, false, NOTHING_DELAYED);
    var add := PeerAdd(x.Key(), PeerOf(added, w.rec.info.keydeskIPv6));
    if Replaces(op) && i < |users| {
      var del := PeerDel(users[i].Key());
      var rest := w.rec.(users := RemoveAt(users, i));
      DropUser(w.slot, w.rec, w.drift, i);
      RemovedUnique(users, i);
      RemovedNewKey(users, i, x.Key());
      AgreesUp(w.slot, w.rec, w.drift);
      OneCall(del, w.slot, x.Key());
      AddUser(Apply(del, w.slot), rest, w.drift - {del.key}, x, add);
      TwoCalls(del, add, w.slot);
      assert w.drift - {del.key} - {add.key} == w.drift - ({del.key} + {add.key});
    } else {
      AddUser(w.slot, w.rec, w.drift, x, add);
      SingleCall(add, w.slot);
      assert [] + [add] == [add];
    }
  }

  lemma RemovedNewKey(users: seq<UserRec>, i: nat, k: Key)
    requires NewKey(users, k) && i < |users|
    ensures NewKey(RemoveAt(users, i), k)
  {
  }

  lemma AgreesUp(s: Slot, b: BrigadeRec, drift: set<Key>)
    requires AgreesBut(s, b, drift)
    ensures s.Up? && AllOwn(s, b.users, b.info.keydeskIPv6)
  {
  }

  lemma CompletedDelete(w: World, op: Op, added: UserInfo, w': World, salt: bv32, max: nat)
    requires Prefixed(w.rec.info) && Tracked(w) && op.Delete? && Completes(w, op, added, w', salt, max)
    ensures AgreesBut(w'.slot, w'.rec, w'.drift)
  {
    hide PeerOf, Lookup, Apply, ApplyAll, AgreesBut, KeysOf, Proper, Before;
    hide UniqueKeys;
    NoCall(w.slot);
    assert w.drift - {} == w.drift;
    var users := w.rec.users;
    var i := Find(users, WithIdAndRole(op.id, op.brigadier));
    if i < |users| {
      var u := users[i];
      var del := PeerDel(u.Key());
      SingleCall(del, w.slot);
      if op.onlyBlock {
        if u.isBlocked {
          assert users[i := u] == users;
        } else {
          UpdateUser(w.slot, w.rec, w.drift, i, u.(isBlocked := true), del);
        }
      } else if u.isBlocked {
        ForgetUser(w.slot, w.rec, w.drift, i);
      } else {
        DropUser(w.slot, w.rec, w.drift, i);
      }
    }
  }

  lemma CompletedUnblock(w: World, op: Op, added: UserInfo, w': World, salt: bv32, max: nat)
    requires Prefixed(w.rec.info) && Tracked(w) && op.Unblock? && Completes(w, op, added, w', salt, max)
    ensures AgreesBut(w'.slot, w'.rec, w'.drift)
  {
    hide PeerOf, Lookup, Apply, ApplyAll, AgreesBut, KeysOf, Proper, Before;
    hide UniqueKeys;
    NoCall(w.slot);
    assert w.drift - {} == w.drift;
    var users := w.rec.users;
    var i := Find(users, WithId(op.id));
    if i < |users| {
      var u := users[i];
      var add := PeerAdd(u.Key(), PeerOf(u.info, w.rec.info.keydeskIPv6));
      if u.isBlocked {
        SingleCall(add, w.slot);
        AgreesUp(w.slot, w.rec, w.drift);
        assert Own(Lookup(w.slot, u.Key()), u, w.rec.info.keydeskIPv6);
        UpdateUser(w.slot, w.rec, w.drift, i, u.(isBlocked := false), add);
      } else {
        assert users[i := u] == users;
      }
    }
  }

  // ----- operations that fail -----

  // The calls of an operation add what the list does not ask for, and nothing else of a user's;
  // they drop what it does ask for but for the harmless key.
  ghost predicate Telling(calls: seq<Call>, n: nat, op: Op, b: BrigadeRec)
    requires n <= |calls|
  {
    forall j :: 0 <= j < n ==>
      && (calls[j].PeerDel? || calls[j].PeerAdd?)
      && (calls[j].PeerAdd? ==>
            && PeerFor(b.users, b.info.keydeskIPv6, calls[j].key) == None
            && forall i :: 0 <= i < |b.users| && b.users[i].Key() == calls[j].key ==>
                 calls[j].peer == PeerOf(b.users[i].info, b.info.keydeskIPv6))
      && Hurt(calls[j], b) == {calls[j].key} - Harmless(op, b)
  }

  lemma StrayCalls(w: World, op: Op, calls: seq<Call>, n: nat)
    requires AgreesBut(w.slot, w.rec, w.drift) && n <= |calls| <= 2 && Telling(calls, n, op, w.rec)
    requires n == 2 ==> calls[0].key != calls[1].key
    ensures AgreesBut(ApplyAll(calls[..n], w.slot), w.rec, DriftAfterFailure(w.drift, op, w.rec, calls[..n]))
  {
    hide PeerOf, PeerFor, Apply, ApplyAll, AgreesBut, KeysOf, Harmless, Hurt;
    NoCall(w.slot);
    var h := Harmless(op, w.rec);
    if n > 0 {
      var c := calls[0];
      StrayCall(w.slot, w.rec, w.drift, c);
      SingleCall(c, w.slot);
      var drift := w.drift - {c.key} + Hurt(c, w.rec);
      if n == 1 {
        assert calls[..1] == [c];
      } else {
        var d := calls[1];
        StrayCall(Apply(c, w.slot), w.rec, drift, d);
        TwoCalls(c, d, w.slot);
        assert calls[..2] == [c] + [d];
        assert drift - {d.key} + Hurt(d, w.rec) == w.drift - {c.key, d.key} + ({c.key, d.key} - h);
        assert {c.key, d.key} == {c.key} + {d.key};
      }
    } else {
      assert calls[..0] == [];
      assert w.drift - {} + ({} - h) == w.drift;
    }
  }

  // What the list asks for under a user's key, and under a key that no user has.
  lemma Asked(users: seq<UserRec>, i: nat, kd: Option<IPv6>)
    requires UniqueKeys(users) && i < |users|
    ensures PeerFor(users, kd, users[i].Key()) == Wanted(users[i], kd)
    ensures forall j :: 0 <= j < |users| && users[j].Key() == users[i].Key() ==> j == i
  {
    hide PeerOf;
    PeerForIn(users, kd, users[i].Key());
  }

  lemma NotAsked(users: seq<UserRec>, k: Key, kd: Option<IPv6>)
    requires UniqueKeys(users) && NewKey(users, k)
    ensures PeerFor(users, kd, k) == None
  {
    hide PeerOf;
    PeerForIn(users, kd, k);
  }

  lemma CreationIsTelling(w: World, op: Op, added: UserInfo, n: nat)
    requires UniqueKeys(w.rec.users) && op.Create? && NewKey(w.rec.users, op.form.wgPublicKey)
    requires n <= |PlanOf(op, w.rec, added).calls|
    requires n == |PlanOf(op, w.rec, added).calls| ==> added.wgPublicKey == op.form.wgPublicKey
    ensures var calls := PlanOf(op, w.rec, added).calls;
      |calls| <= 2 && Telling(calls, n, op, w.rec) && (n == 2 ==> calls[0].key != calls[1].key)
  {
    hide PeerOf, PeerFor, Insert, Find, UniqueKeys;
    var users, kd := w.rec.users, w.rec.info.keydeskIPv6;
    var i := Find(users, ABrigadier);
    NotAsked(users, op.form.wgPublicKey, kd);
    if i < |users| {
      Asked(users, i, kd);
    }
  }

  lemma ChangeIsTelling(w: World, op: Op, added: UserInfo, n: nat)
    requires UniqueKeys(w.rec.users) && !op.Create? && n <= |PlanOf(op, w.rec, added).calls|
    ensures var calls := PlanOf(op, w.rec, added).calls;
      |calls| <= 1 && Telling(calls, n, op, w.rec)
  {
    hide PeerOf, PeerFor, Find, UniqueKeys, Meets;
    var users, kd := w.rec.users, w.rec.info.keydeskIPv6;
    var i := Find(users, if op.Delete? then WithIdAndRole(op.id, op.brigadier) else WithId(op.id));
    if i < |users| {
      Asked(users, i, kd);
    }
  }

  lemma FailureIsTelling(w: World, op: Op, added: UserInfo, n: nat, salt: bv32, max: nat)
    requires Prefixed(w.rec.info) && UniqueKeys(w.rec.users) && Unknown(op, w)
    requires var calls := PlanOf(op, w.rec, added).calls;
      n <= |calls| && (op.Create? && n == |calls| ==> Allowed(op, w.rec, salt, max, added))
    ensures var calls := PlanOf(op, w.rec, added).calls;
      |calls| <= 2 && Telling(calls, n, op, w.rec) && (n == 2 ==> calls[0].key != calls[1].key)
  {
    hide PlanOf, Telling, Allowed, Lookup;
    if op.Create? {
      if n == |PlanOf(op, w.rec, added).calls| {
        AddedKey(op, w.rec, salt, max, added);
      }
      CreationIsTelling(w, op, added, n);
    } else {
      ChangeIsTelling(w, op, added, n);
    }
  }

  lemma FailureKeeps(w: World, op: Op, added: UserInfo, n: nat, w': World, salt: bv32, max: nat)
    requires Prefixed(w.rec.info) && Tracked(w) && Fails(w, op, added, n, w', salt, max)
    ensures Tracked(w')
  {
    hide PlanOf, ApplyAll, AgreesBut, Allowed, Ordered, Telling, DriftAfterFailure;
    FailureIsTelling(w, op, added, n, salt, max);
    StrayCalls(w, op, PlanOf(op, w.rec, added).calls, n);
  }

  lemma CompletionTracks(w: World, op: Op, added: UserInfo, w': World, salt: bv32, max: nat)
    requires Prefixed(w.rec.info) && Tracked(w) && Completes(w, op, added, w', salt, max)
    ensures Tracked(w')
  {
    hide PlanOf, ApplyAll, AgreesBut, KeysOf, Allowed, UniqueKeys;
    CompletedUnique(w, op, added, salt, max);
    match op
    case Create(_, _) => CompletedCreate(w, op, added, w', salt, max);
    case Delete(_, _, _) => CompletedDelete(w, op, added, w', salt, max);
    case Unblock(_) => CompletedUnblock(w, op, added, w', salt, max);
  }

  // No operation that completes makes two users share a key.
  lemma CompletedUnique(w: World, op: Op, added: UserInfo, salt: bv32, max: nat)
    requires Prefixed(w.rec.info) && UniqueKeys(w.rec.users) && Unknown(op, w) && Allowed(op, w.rec, salt, max, added)
    ensures UniqueKeys(PlanOf(op, w.rec, added).users)
  {
    hide PeerOf, Find, Meets, FormFor, Lookup, NewKey;
    var users := w.rec.users;
    match op
    case Create(_, _) =>
      AddedKey(op, w.rec, salt, max, added);
      hide UniqueKeys, Allowed;
      var i := Find(users, ABrigadier);
      if Replaces(op) && i < |users| {
        RemovedUnique(users, i);
        RemovedNewKey(users, i, added.wgPublicKey);
      }
      var base, x := Base(op, users).users, UserRec(added, false, NOTHING_DELAYED);
      InsertedUnique(base, Find(base, After(added)), x);
    case Delete(id, brigadier, _) =>
      var i := Find(users, WithIdAndRole(id, brigadier));
      if i < |users| {
        RemovedUnique(users, i);
      }
    case Unblock(_) =>
  }

  lemma CompletionKeeps(w: World, op: Op, added: UserInfo, w': World, salt: bv32, max: nat)
    requires Prefixed(w.rec.info) && Inv(w, salt, max) && Completes(w, op, added, w', salt, max)
    ensures w'.rec.info == w.rec.info && Inv(w', salt, max)
  {
    hide PlanOf, ApplyAll, AgreesBut, KeysOf, Allowed, Registered, UniqueKeys;
    CompletedKeeps(op, w.rec, salt, max, added);
    InvTracks(w, salt, max);
    CompletionTracks(w, op, added, w', salt, max);
  }

  lemma StepKeepsInv(w: World, w': World, salt: bv32, max: nat)
    requires Prefixed(w.rec.info) && Inv(w, salt, max) && Step(w, w', salt, max)
    ensures w'.rec.info == w.rec.info && Inv(w', salt, max)
  {
    hide PlanOf, ApplyAll, AgreesBut, KeysOf, Allowed, Registered, Unknown;
    if op, added :| Completes(w, op, added, w', salt, max) {
      CompletionKeeps(w, op, added, w', salt, max);
    } else {
      var op, added, n :| Fails(w, op, added, n, w', salt, max);
      InvTracks(w, salt, max);
      FailureKeeps(w, op, added, n, w', salt, max);
    }
  }

  // ----- the theorems -----

  // A brigade that has just been created: no users, an interface without peers.
  ghost predicate Empty(w: World) {
    w.rec.users == [] && w.drift == {} && w.slot.Up? && w.slot.peers == map[]
  }

  ghost predicate Run(run: seq<World>, salt: bv32, max: nat) {
    && run != [] && (forall k :: 0 <= k < |run| ==> Prefixed(run[k].rec.info))
    && forall k :: 0 < k < |run| ==> Step(run[k - 1], run[k], salt, max)
  }

  // From an empty list, whatever operations complete or fail, every state of the run is
  // well-formed, and the endpoint holds exactly the unblocked users if and only if no key is
  // left at which it differs: those of failed operations, the drop of a blocked brigadier
  // excepted, that no operation has completed on since.
  lemma {:induction false} EveryRunIsRegistered(run: seq<World>, salt: bv32, max: nat, k: nat)
    requires Run(run, salt, max) && Empty(run[0]) && k < |run|
    ensures Inv(run[k], salt, max)
    ensures Serves(run[k].slot, run[k].rec.users, run[k].rec.info.keydeskIPv6) <==> run[k].drift == {}
  {
    hide Step, Placed, DisplayName, PeerOf, Serves, Prefixed, Apart, Before;
    if k > 0 {
      EveryRunIsRegistered(run, salt, max, k - 1);
      StepKeepsInv(run[k - 1], run[k], salt, max);
    }
    ApartOrderable(run[k].rec.users);
    AgreesServes(run[k].slot, run[k].rec, run[k].drift);
  }

  ghost predicate CompletedRun(run: seq<World>, salt: bv32, max: nat) {
    && run != [] && (forall k :: 0 <= k < |run| ==> Prefixed(run[k].rec.info))
    && forall k :: 0 < k < |run| ==> CompletedStep(run[k - 1], run[k], salt, max)
  }

  ghost predicate CompletedStep(w: World, w': World, salt: bv32, max: nat)
    requires Prefixed(w.rec.info)
  {
    exists op, added :: Completes(w, op, added, w', salt, max)
  }

  // When every operation completes, the endpoint serves the users after each of them.
  lemma {:induction false} CompletedRunServes(run: seq<World>, salt: bv32, max: nat, k: nat)
    requires CompletedRun(run, salt, max) && Empty(run[0]) && k < |run|
    ensures Inv(run[k], salt, max) && run[k].drift == {}
    ensures Serves(run[k].slot, run[k].rec.users, run[k].rec.info.keydeskIPv6)
  {
    hide Allowed, Unknown, PlanOf, Placed, DisplayName, PeerOf, Serves, Prefixed, Apart, Before, ApplyAll, KeysOf;
    if k > 0 {
      CompletedRunServes(run, salt, max, k - 1);
      var op, added :| Completes(run[k - 1], op, added, run[k], salt, max);
      CompletionKeeps(run[k - 1], op, added, run[k], salt, max);
    }
    ApartOrderable(run[k].rec.users);
    AgreesServes(run[k].slot, run[k].rec, run[k].drift);
  }

  // An operation that fails where the endpoint served the users: it still does exactly when no
  // call took effect, or only the drop of a brigadier that was blocked.
  lemma FailureServes(w: World, op: Op, added: UserInfo, n: nat, w': World, salt: bv32, max: nat)
    requires Prefixed(w.rec.info) && Tracked(w) && Fails(w, op, added, n, w', salt, max)
    requires Serves(w.slot, w.rec.users, w.rec.info.keydeskIPv6)
    ensures var i := Find(w.rec.users, ABrigadier);
      Serves(w'.slot, w'.rec.users, w'.rec.info.keydeskIPv6) <==>
      n == 0 || (n == 1 && Replaces(op) && i < |w.rec.users| && w.rec.users[i].isBlocked)
  {
    hide PlanOf, ApplyAll, AgreesBut, Allowed, Telling, Serves, DriftAfterFailure, Unknown, UniqueKeys;
    AgreesServes(w.slot, w.rec, w.drift);
    FailureIsTelling(w, op, added, n, salt, max);
    FailureKeeps(w, op, added, n, w', salt, max);
    AgreesServes(w'.slot, w'.rec, w'.drift);
    HarmDone(op, w.rec, added, n);
  }

  lemma HarmDone(op: Op, b: BrigadeRec, added: UserInfo, n: nat)
    requires var calls := PlanOf(op, b, added).calls;
      n <= |calls| <= 2 && Telling(calls, n, op, b) && (n == 2 ==> calls[0].key != calls[1].key)
    ensures var i := Find(b.users, ABrigadier);
      DriftAfterFailure({}, op, b, PlanOf(op, b, added).calls[..n]) == {} <==>
      n == 0 || (n == 1 && Replaces(op) && i < |b.users| && b.users[i].isBlocked)
  {
    var calls := PlanOf(op, b, added).calls;
    SentKeys(calls, n, op, b);
    hide Telling, PeerOf, Insert, FormFor, Find, KeysOf;
    var sent, h := KeysOf(calls[..n]), Harmless(op, b);
    assert DriftAfterFailure({}, op, b, calls[..n]) == sent - h;
    if n == 1 {
      assert sent - h == {} <==> calls[0].key in h;
    } else if n == 2 {
      assert calls[1].key in sent - h;
    }
  }

  // The keys of the first calls, one by one.
  lemma SentKeys(calls: seq<Call>, n: nat, op: Op, b: BrigadeRec)
    requires n <= |calls| <= 2 && Telling(calls, n, op, b) && (n == 2 ==> calls[0].key != calls[1].key)
    ensures n == 0 ==> KeysOf(calls[..n]) == {}
    ensures n == 1 ==> KeysOf(calls[..n]) == {calls[0].key}
    ensures n == 2 ==> KeysOf(calls[..n]) == {calls[0].key, calls[1].key}
  {
    hide PeerOf, PeerFor, Hurt;
    if n > 0 {
      assert calls[..n][0] == calls[0];
    }
    if n == 2 {
      assert calls[..n][1] == calls[1];
    }
  }

  // A creation without a replacement fails after its call took effect. The endpoint then holds
  // a peer that no user has, under the new key.
  lemma OrphanArises(w: World, op: Op, added: UserInfo, salt: bv32, max: nat) returns (w': World)
    requires Prefixed(w.rec.info) && Inv(w, salt, max) && op.Create? && !Replaces(op)
    requires Unknown(op, w) && Allowed(op, w.rec, salt, max, added)
    ensures Fails(w, op, added, 1, w', salt, max) && Step(w, w', salt, max)
    ensures Lookup(w'.slot, op.form.wgPublicKey).Some?
    ensures Holds(Lookup(w'.slot, op.form.wgPublicKey).value, added, w.rec.info.keydeskIPv6)
    ensures NewKey(w'.rec.users, op.form.wgPublicKey)
    ensures !Serves(w'.slot, w'.rec.users, w'.rec.info.keydeskIPv6)
  {
    hide PeerOf, Holds, Allowed, KeysOf, Inv, NewKey, Insert, Harmless;
    var add := PeerAdd(added.wgPublicKey, PeerOf(added, w.rec.info.keydeskIPv6));
    var calls := PlanOf(op, w.rec, added).calls;
    assert calls == [add] && calls[..1] == [add];
    w' := World(w.rec, ApplyAll(calls[..1], w.slot), DriftAfterFailure(w.drift, op, w.rec, calls[..1]));
    AddedKey(op, w.rec, salt, max, added);
    SingleCall(add, w.slot);
    UpInv(w, salt, max);
    OneCall(add, w.slot, add.key);
    PeerHolds(add.peer, added, w.rec.info.keydeskIPv6);
    assert Fails(w, op, added, 1, w', salt, max);
    StrangerIsNotServed(w'.slot, w.rec.users, w.rec.info.keydeskIPv6, add.key);
  }

  lemma UpInv(w: World, salt: bv32, max: nat)
    requires Prefixed(w.rec.info) && Inv(w, salt, max)
    ensures w.slot.Up?
  {
  }

  lemma StrangerIsNotServed(s: Slot, users: seq<UserRec>, kd: Option<IPv6>, k: Key)
    requires NewKey(users, k) && Lookup(s, k) != None
    ensures !Serves(s, users, kd)
  {
  }

  // Prefix lengths that leave room for every brigade.
  predicate Roomy(b: BrigadeInfo) {
    b.ipv4CGNAT.bits <= 24 && b.ipv6ULA.bits <= 112
  }

  // A place for the first user of a brigade.
  lemma FirstPlace(b: BrigadeInfo) returns (ipv4: IPv4, ipv6: IPv6)
    requires Roomy(b)
    ensures Placed(b, ipv4, ipv6)
  {
    hide LastPrefixIPv4, LastPrefixIPv6, RandomAddrIPv4, RandomAddrIPv6, Draw4, DrawsOf, In4, In6;
    hide IsZeroEnding4, IsZeroEnding6;
    var taken4 := {b.ipv4CGNAT.addr, LastPrefixIPv4(b.ipv4CGNAT)};
    var taken6 := {b.ipv6ULA.addr, LastPrefixIPv6(b.ipv6ULA)};
    var x := FreeIPv4(b.ipv4CGNAT, taken4);
    var d := FreeIPv6(b.ipv6ULA, taken6);
    ipv4, ipv6 := RandomAddrIPv4(b.ipv4CGNAT, x), RandomAddrIPv6(b.ipv6ULA, d.lo, d.hi);
    RandomIPv4Range(b.ipv4CGNAT, ipv4);
    RandomIPv6InPrefix(b.ipv6ULA, d.lo, d.hi);
  }

  // It can happen in every brigade, to its very first user: the run of one failed creation ends
  // with an endpoint that does not serve the record.
  lemma FirstCreationCanFail(w: World, salt: bv32, max: nat, form: UserInfo) returns (run: seq<World>)
    requires Roomy(w.rec.info) && Empty(w) && max > 0 && form.id != NIL
    ensures Run(run, salt, max) && run[0] == w && |run| == 2
    ensures Lookup(run[1].slot, form.wgPublicKey) != None
    ensures !Serves(run[1].slot, run[1].rec.users, run[1].rec.info.keydeskIPv6)
  {
    hide In4, In6, LastPrefixIPv4, LastPrefixIPv6, IsZeroEnding4, IsZeroEnding6, PeerOf, DisplayName, Placed, Serves;
    var b := w.rec.info;
    var ipv4, ipv6 := FirstPlace(b);
    var op := Create(form, false);
    var added := form.(ipv4 := ipv4, ipv6 := ipv6, name := DisplayName(b.ipv4CGNAT, ipv4, salt, form.name),
                       endpointDomain := "");
    EmptyInv(w, salt, max);
    FirstIsAllowed(op, w.rec, salt, max, added);
    var w' := OrphanArises(w, op, added, salt, max);
    run := [w, w'];
  }

  lemma EmptyInv(w: World, salt: bv32, max: nat)
    requires Prefixed(w.rec.info) && Empty(w)
    ensures Inv(w, salt, max)
  {
    hide Placed, PeerOf;
  }

  lemma FirstIsAllowed(op: Op, b: BrigadeRec, salt: bv32, max: nat, added: UserInfo)
    requires Prefixed(b.info) && b.users == [] && max > 0
    requires op.Create? && !op.replace && op.form.id != NIL && Placed(b.info, added.ipv4, added.ipv6)
    requires added == op.form.(ipv4 := added.ipv4, ipv6 := added.ipv6, endpointDomain := "",
                               name := DisplayName(b.info.ipv4CGNAT, added.ipv4, salt, op.form.name))
    ensures Allowed(op, b, salt, max, added)
  {
    hide In4, In6, LastPrefixIPv4, LastPrefixIPv6, IsZeroEnding4, IsZeroEnding6, DisplayName;
    assert Ids(b.users) == {};
  }

  // A peer whose key no user has, left behind by a creation that failed, is out of reach of
  // every later operation.
  lemma OrphanStays(w: World, w': World, salt: bv32, max: nat, k: Key)
    requires Prefixed(w.rec.info) && Inv(w, salt, max) && Step(w, w', salt, max)
    requires NewKey(w.rec.users, k) && Lookup(w.slot, k).Some?
    ensures NewKey(w'.rec.users, k) && Lookup(w'.slot, k) == Lookup(w.slot, k)
  {
    hide PlanOf, ApplyAll, KeysOf, Registered, Lookup, AllOwn, Allowed;
    if op, added :| Completes(w, op, added, w', salt, max) {
      var calls := PlanOf(op, w.rec, added).calls;
      if op.Create? {
        AddedKey(op, w.rec, salt, max, added);
      }
      PlanKeys(op, w.rec, added, k);
      OtherCalls(calls, w.slot, k);
    } else {
      var op, added, n: nat :| Fails(w, op, added, n, w', salt, max);
      var calls := PlanOf(op, w.rec, added).calls;
      if op.Create? && n == |calls| {
        AddedKey(op, w.rec, salt, max, added);
      }
      PlanKeys(op, w.rec, added, k);
      OtherCalls(calls[..n], w.slot, k);
    }
  }

  // An operation calls the endpoint about keys of the list, a creation last of all about the
  // new user's.
  lemma PlanKeys(op: Op, b: BrigadeRec, added: UserInfo, k: Key)
    requires NewKey(b.users, k)
    ensures var plan := PlanOf(op, b, added);
      && PeerCalls(plan.calls)
      && (op.Create? ==> plan.calls != [])
      && (forall j :: 0 <= j < |plan.calls| - (if op.Create? then 1 else 0) ==> !About(plan.calls[j], k))
      && (op.Create? ==> (About(plan.calls[|plan.calls| - 1], k) <==> added.wgPublicKey == k))
      && ((op.Create? ==> added.wgPublicKey != k) ==> NewKey(plan.users, k))
  {
    hide PeerOf, Before, Find, Meets, Insert;
    if op.Create? {
      InsertNewKey(Base(op, b.users).users, UserRec(added, false, NOTHING_DELAYED), k);
    }
  }

  lemma InsertNewKey(users: seq<UserRec>, x: UserRec, k: Key)
    ensures NewKey(users, k) && x.Key() != k ==> NewKey(Insert(users, x), k)
  {
    hide Find;
  }

  lemma OtherCalls(calls: seq<Call>, s: Slot, k: Key)
    requires s.Up? && PeerCalls(calls) && Untouched(calls, k)
    ensures Lookup(ApplyAll(calls, s), k) == Lookup(s, k)
  {
    hide Lookup, ApplyAll;
    ApplyByKey(calls, s);
    ActUntouched(calls, k, Lookup(s, k));
  }

  // No two users share a name, however often full names repeat.
  lemma NamesDiffer(b: BrigadeRec, salt: bv32, max: nat, i: nat, j: nat)
    requires Prefixed(b.info) && Registered(b, salt, max) && i < j < |b.users|
    ensures b.users[i].info.name != b.users[j].info.name
  {
    hide DisplayName, Before, In4, In6;
    var u, v, p := b.users[i].info, b.users[j].info, b.info.ipv4CGNAT;
    assert Proper(b.info, salt, u) && Proper(b.info, salt, v) && Apart(u, v);
    var f :| u.name == DisplayName(p, u.ipv4, salt, f);
    var g :| v.name == DisplayName(p, v.ipv4, salt, g);
    NamesAreDistinct(p, u.ipv4, f, v.ipv4, g, salt);
  }

  // The users' addresses are as many as the users.
  function Addresses(users: seq<UserRec>): set<IPv4> {
    set i | 0 <= i < |users| :: users[i].info.ipv4
  }

  lemma {:induction false} AddressesCount(users: seq<UserRec>)
    requires AllApart(users)
    ensures |Addresses(users)| == |users|
  {
    if users != [] {
      var rest := users[..|users| - 1];
      AddressesCount(rest);
      var last := users[|users| - 1].info.ipv4;
      assert Addresses(users) == Addresses(rest) + {last};
      assert last !in Addresses(rest);
    }
  }

  lemma {:induction false} SubsetSize<A>(s: set<A>, t: set<A>)
    requires s <= t
    ensures |s| <= |t|
    decreases |s|
  {
    if s != {} {
      var x :| x in s;
      SubsetSize(s - {x}, t - {x});
    }
  }

  // In a prefix longer than 24 bits a registry never has more than 127 users: no user has the
  // last address, and there are 128 at most. A limit of 250 is never what stops a creation.
  lemma ShortPrefixIsSmall(b: BrigadeRec, salt: bv32, max: nat)
    requires Prefixed(b.info) && Registered(b, salt, max) && b.info.ipv4CGNAT.bits > 24
    ensures |b.users| <= 127
  {
    hide In4, In6, IsZeroEnding4, IsZeroEnding6, LastPrefixIPv4, LastPrefixIPv6, Free4, DisplayName, Apart, Before;
    var p := b.info.ipv4CGNAT;
    var all := NoFreeIPv4(p);
    LastIPv4IsLargest(p, p.addr);
    forall a | a in Addresses(b.users) ensures a in all - {LastPrefixIPv4(p)} {
      var i :| 0 <= i < |b.users| && a == b.users[i].info.ipv4;
      assert Proper(b.info, salt, b.users[i].info);
    }
    SubsetSize(Addresses(b.users), all - {LastPrefixIPv4(p)});
    AddressesCount(b.users);
  }

  // The name check never fires for a full name that does not start with a digit, so a
  // registry refuses such a user for three reasons only.
  lemma RefusedExactly(b: BrigadeRec, salt: bv32, max: nat, form: UserInfo)
    requires Prefixed(b.info) && Registered(b, salt, max)
    requires form.name == "" || !IsDigit(form.name[0])
    ensures Refusal(b.users, form, max) == None <==>
              && |b.users| < max
              && (form.isBrigadier ==> forall i :: 0 <= i < |b.users| ==> !b.users[i].info.isBrigadier)
              && (form.id != NIL ==> forall i :: 0 <= i < |b.users| ==> b.users[i].info.id != form.id)
    ensures Refusal(b.users, form, max) != Some(UserCollision)
  {
    hide Clash, Before, Placed, Apart, IsDigit;
    NoClash(b.users, form.name, form.isBrigadier);
    IdsCount(b.users);
    forall i | 0 <= i < |b.users| ensures b.users[i].info.name != form.name {
      var u := b.users[i].info;
      assert Proper(b.info, salt, u);
      var f :| u.name == DisplayName(b.info.ipv4CGNAT, u.ipv4, salt, f);
      NumberedIsNoFullName(BlurIpv4Addr(u.ipv4, b.info.ipv4CGNAT.bits, salt) as nat, f, form.name);
    }
    NoNameClash(b.users, form.name, form.isBrigadier);
  }

  lemma {:induction false} NoNameClash(users: seq<UserRec>, fullname: string, isBrigadier: bool)
    requires forall i :: 0 <= i < |users| ==> users[i].info.name != fullname
    ensures Clash(users, fullname, isBrigadier) != Some(UserCollision)
  {
    if users != [] {
      NoNameClash(users[1..], fullname, isBrigadier);
    }
  }

  // Once the old brigadier is dropped, its successor with a random ID is never refused, and
  // it takes over the full name exactly when that does not start with a digit or a space.
  lemma ReplacementIsNotStranded(b: BrigadeRec, salt: bv32, max: nat, op: Op, full: string)
    requires Prefixed(b.info) && Registered(b, salt, max) && Replaces(op) && op.form.id == NIL
    requires var i := Find(b.users, ABrigadier);
      i < |b.users| && b.users[i].info.name == DisplayName(b.info.ipv4CGNAT, b.users[i].info.ipv4, salt, full)
    ensures Refusal(Base(op, b.users).users, FormFor(op, b.users), max) == None
    ensures FormFor(op, b.users).name == full <==> full == "" || !(IsDigit(full[0]) || full[0] == ' ')
  {
    var i := Find(b.users, ABrigadier);
    var u := b.users[i].info;
    var rest := b.(users := RemoveAt(b.users, i));
    BrigadierLeaves(op, b.users, i);
    var form := FormFor(op, b.users);
    OneBrigadier(b.users, i);
    hide Find, Before, Placed, Proper, Refusal, IsDigit, TrimNumber, Base, FormFor;
    FullNameComesBack(BlurIpv4Addr(u.ipv4, b.info.ipv4CGNAT.bits, salt) as nat, full);
    RemovedKeeps(b, salt, max, i);
    hide Registered;
    RefusedExactly(rest, salt, max, form);
  }

  lemma BrigadierLeaves(op: Op, users: seq<UserRec>, i: nat)
    requires Replaces(op) && op.form.id == NIL && i == Find(users, ABrigadier) < |users|
    ensures Base(op, users).users == RemoveAt(users, i)
    ensures var form := FormFor(op, users);
      && form.id == NIL && form.isBrigadier && form.name == TrimNumber(users[i].info.name)
      && (form.name == "" || !IsDigit(form.name[0]))
  {
    hide Find, IsDigit;
  }

  lemma OneBrigadier(users: seq<UserRec>, i: nat)
    requires AllApart(users) && i < |users| && users[i].info.isBrigadier
    ensures forall j :: 0 <= j < |RemoveAt(users, i)| ==> !RemoveAt(users, i)[j].info.isBrigadier
  {
    forall j | 0 <= j < |RemoveAt(users, i)| ensures !RemoveAt(users, i)[j].info.isBrigadier {
      assert j < i ==> Apart(users[j].info, users[i].info);
      assert j >= i ==> Apart(users[i].info, users[j + 1].info);
    }
  }
}
