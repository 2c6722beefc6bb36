// How a script acts on one key of an interface that is up. This is the view in which
// convergence, resumption and no-disturbance are argued.

module Peers {
  import opened Brigade
  import opened Endpoint
  import opened Replay
  import Strings

  function Lookup(s: Slot, k: Key): Option<Peer> {
    if s.Up? && k in s.peers then Some(s.peers[k]) else None
  }

  // The calls touch peers only.
  ghost predicate PeerCalls(calls: seq<Call>) {
    forall i :: 0 <= i < |calls| ==> calls[i].PeerDel? || calls[i].PeerAdd?
  }

  function ActOn(c: Call, k: Key, v: Option<Peer>): Option<Peer> {
    match c
    case PeerDel(x) => if x == k then None else v
    case PeerAdd(x, p) => if x == k && v.None? then Some(p) else v
    case _ => v
  }

  function ActAll(calls: seq<Call>, k: Key, v: Option<Peer>): Option<Peer> {
    if calls == [] then v else ActAll(calls[1..], k, ActOn(calls[0], k, v))
  }

  lemma {:induction false} ActAllConcat(a: seq<Call>, b: seq<Call>, k: Key, v: Option<Peer>)
    ensures ActAll(a + b, k, v) == ActAll(b, k, ActAll(a, k, v))
    decreases |a|
  {
    if a == [] {
      assert a + b == b;
    } else {
      assert (a + b)[1..] == a[1..] + b;
      ActAllConcat(a[1..], b, k, ActOn(a[0], k, v));
    }
  }

  // Key by key, running peer calls on an interface that is up is ActAll.
  lemma {:induction false} ApplyByKey(calls: seq<Call>, s: Slot)
    requires PeerCalls(calls) && s.Up?
    ensures ApplyAll(calls, s).Up? && ApplyAll(calls, s).params == s.params
    ensures forall k :: Lookup(ApplyAll(calls, s), k) == ActAll(calls, k, Lookup(s, k))
    decreases |calls|
  {
    if calls != [] {
      ApplyByKey(calls[1..], Apply(calls[0], s));
    }
  }

  // A call about the key.
  predicate About(c: Call, k: Key) {
    (c.PeerDel? || c.PeerAdd?) && c.key == k
  }

  ghost predicate Untouched(calls: seq<Call>, k: Key) {
    forall i :: 0 <= i < |calls| ==> !About(calls[i], k)
  }

  lemma {:induction false} ActUntouched(calls: seq<Call>, k: Key, v: Option<Peer>)
    requires Untouched(calls, k)
    ensures ActAll(calls, k, v) == v
  {
    if calls != [] {
      assert !About(calls[0], k);
      forall i | 0 <= i < |calls[1..]| ensures !About(calls[1..][i], k) {
        assert !About(calls[i + 1], k);
      }
      ActUntouched(calls[1..], k, v);
    }
  }

  // A user waiting for deletion has this key.
  ghost predicate Deleting(users: seq<UserRec>, k: Key) {
    exists u :: u in users && u.delayed.deletion && u.Key() == k
  }

  lemma {:induction false} DeletionOnKey(users: seq<UserRec>, k: Key, v: Option<Peer>)
    ensures PeerCalls(DeletionCalls(users))
    ensures ActAll(DeletionCalls(users), k, v) == if Deleting(users, k) then None else v
    ensures Untouched(DeletionCalls(users), k) <==> !Deleting(users, k)
    decreases |users|
  {
    if users != [] {
      var u := users[0];
      var head := if u.delayed.deletion then [PeerDel(u.Key())] else [];
      assert users == [u] + users[1..];
      assert Deleting(users, k) <==> (u.delayed.deletion && u.Key() == k) || Deleting(users[1..], k);
      DeletionOnKey(users[1..], k, ActAll(head, k, v));
      ActAllConcat(head, DeletionCalls(users[1..]), k, v);
      UntouchedConcat(head, DeletionCalls(users[1..]), k);
    }
  }

  lemma UntouchedConcat(a: seq<Call>, b: seq<Call>, k: Key)
    ensures Untouched(a + b, k) <==> Untouched(a, k) && Untouched(b, k)
  {
    if Untouched(a + b, k) {
      forall i | 0 <= i < |b| ensures !About(b[i], k) {
        assert (a + b)[|a| + i] == b[i];
      }
      forall i | 0 <= i < |a| ensures !About(a[i], k) {
        assert (a + b)[i] == a[i];
      }
    }
  }

  lemma {:induction false} KeptIn(users: seq<UserRec>, x: UserRec)
    ensures x in Kept(users) <==> x in users && !x.delayed.deletion
  {
    if users != [] {
      KeptIn(users[1..], x);
      assert users == [users[0]] + users[1..];
    }
  }

  // A visit is about the user's own key.
  lemma VisitShape(u: UserRec, keydesk: Option<IPv6>, m: Mode)
    ensures PeerCalls(Visit(u, keydesk, m).calls)
    ensures forall k :: Untouched(Visit(u, keydesk, m).calls, k) <==> Visit(u, keydesk, m).calls == [] || k != u.Key()
  {
    hide PeerOf;
    var calls := Visit(u, keydesk, m).calls;
    if calls != [] {
      assert About(calls[0], u.Key());
    }
  }

  // Only the user that owns the key matters to it.
  lemma {:induction false} VisitOnKey(users: seq<UserRec>, keydesk: Option<IPv6>, m: Mode, k: Key, v: Option<Peer>)
    requires UniqueKeys(users)
    ensures PeerCalls(VisitCalls(users, keydesk, m))
    ensures forall u :: u in users && u.Key() == k ==>
              && ActAll(VisitCalls(users, keydesk, m), k, v) == ActAll(Visit(u, keydesk, m).calls, k, v)
              && (Untouched(VisitCalls(users, keydesk, m), k) <==> Visit(u, keydesk, m).calls == [])
    ensures (forall u :: u in users ==> u.Key() != k) ==>
              && ActAll(VisitCalls(users, keydesk, m), k, v) == v
              && Untouched(VisitCalls(users, keydesk, m), k)
    decreases |users|
  {
    if users != [] {
      hide Visit, Untouched;
      var u, rest := users[0], users[1..];
      VisitShape(u, keydesk, m);
      assert users == [u] + rest;
      var head := Visit(u, keydesk, m).calls;
      forall i, j | 0 <= i < j < |rest| ensures rest[i].Key() != rest[j].Key() {
        assert users[i + 1].Key() != users[j + 1].Key();
      }
      forall x | x in rest ensures x.Key() != u.Key() {
        var i :| 0 <= i < |rest| && rest[i] == x;
        assert users[0].Key() != users[i + 1].Key();
      }
      ActAllConcat(head, VisitCalls(rest, keydesk, m), k, v);
      UntouchedConcat(head, VisitCalls(rest, keydesk, m), k);
      VisitOnKey(rest, keydesk, m, k, ActAll(head, k, v));
      if u.Key() != k {
        ActUntouched(head, k, v);
      }
    }
  }

  // ----- what a peer and an interface hold -----

  // What the router makes of a sealed secret that is configured, or that is not.
  predicate Unsealed(s: Sealed, plain: Option<string>) {
    match s
    case NotSet => plain == None
    case Box(secret, _) => plain == Some(secret)
  }

  // The peer holds of a user each secret under its own name, the addresses and the certificate
  // request; the name and password for IPsec only together; the keydesk address only if the
  // user is the brigadier.
  predicate Holds(p: Peer, u: UserInfo, keydesk: Option<IPv6>) {
    && p.ipv4 == u.ipv4 && p.ipv6 == u.ipv6 && p.csr == u.csr
    && Unsealed(u.wgPSK.router, p.psk)
    && Unsealed(u.cloakUID.router, p.cloakUID)
    && Unsealed(u.outline.router, p.outline)
    && Unsealed(u.proto0.router, p.proto0)
    && (p.ipsec.Some? <==> u.ipsecUser.router.Box? && u.ipsecPassword.router.Box?)
    && (p.ipsec.Some? ==>
          p.ipsec.value.0 == u.ipsecUser.router.secret && p.ipsec.value.1 == u.ipsecPassword.router.secret)
    && (u.isBrigadier ==> p.controlHost == keydesk)
    && (!u.isBrigadier ==> p.controlHost == None)
  }

  // This fixes the peer, and it is the one that replay, creation and unblocking hand over.
  lemma PeerHolds(p: Peer, u: UserInfo, keydesk: Option<IPv6>)
    ensures Holds(p, u, keydesk) <==> p == PeerOf(u, keydesk)
  {
  }

  // The interface is set up with every setting of the brigade in its own place; the decoys are
  // the single domain, if there is one, and the list of domains after it.
  predicate Configured(p: IfaceParams, b: BrigadeInfo) {
    && Unsealed(b.wgPrivate.router, p.wgPrivate)
    && p.endpointIPv4 == b.endpointIPv4 && p.endpointPort == b.endpointPort
    && p.ipv4Net == b.ipv4CGNAT && p.ipv6Net == b.ipv6ULA
    && p.cloakDomain == b.cloakFakeDomain
    && (p.ovCA.Some? <==> b.ovCACert != "" && b.ovCAKey.router.Box?)
    && (p.ovCA.Some? ==> p.ovCA.value.0 == b.ovCACert && p.ovCA.value.1 == b.ovCAKey.router.secret)
    && Unsealed(b.ipsecPSK.router, p.ipsecPSK)
    && p.outlinePort == b.outlinePort
    && p.proto0Domains ==
         if b.proto0FakeDomain == "" then Strings.Join(b.proto0FakeDomains, ',')
         else if b.proto0FakeDomains == [] then b.proto0FakeDomain
         else b.proto0FakeDomain + "," + Strings.Join(b.proto0FakeDomains, ',')
  }

  lemma ParamsConfigure(p: IfaceParams, b: BrigadeInfo)
    ensures Configured(p, b) <==> p == ParamsOf(b)
  {
    var one, more := b.proto0FakeDomain, b.proto0FakeDomains;
    if one == "" {
      assert DecoysOf(b) == more;
    } else {
      assert DecoysOf(b) == [one] + more && DecoysOf(b)[1..] == more;
    }
  }

  // ----- serving a list of users -----

  // The peers are exactly the unblocked users of the list, and each holds what is its user's.
  ghost predicate Serves(s: Slot, users: seq<UserRec>, keydesk: Option<IPv6>) {
    && s.Up?
    && (forall u :: u in users && !u.isBlocked ==> u.Key() in s.peers && Holds(s.peers[u.Key()], u.info, keydesk))
    && (forall k :: k in s.peers ==> exists u :: u in users && !u.isBlocked && u.Key() == k)
  }

  // The same by the peers that are handed over.
  lemma ServesPeers(s: Slot, users: seq<UserRec>, keydesk: Option<IPv6>)
    ensures Serves(s, users, keydesk) <==>
      && s.Up?
      && (forall u :: u in users && !u.isBlocked ==> Lookup(s, u.Key()) == Some(PeerOf(u.info, keydesk)))
      && (forall k :: k in s.peers ==> exists u :: u in users && !u.isBlocked && u.Key() == k)
  {
    hide Holds, PeerOf;
    if s.Up? {
      forall u | u in users && !u.isBlocked
        ensures u.Key() in s.peers && Holds(s.peers[u.Key()], u.info, keydesk) <==>
                Lookup(s, u.Key()) == Some(PeerOf(u.info, keydesk))
      {
        if u.Key() in s.peers {
          PeerHolds(s.peers[u.Key()], u.info, keydesk);
        }
      }
    }
  }

  // Two interfaces that serve the same users have the same peers.
  lemma ServesSame(s: Slot, t: Slot, users: seq<UserRec>, keydesk: Option<IPv6>)
    requires Serves(s, users, keydesk) && Serves(t, users, keydesk)
    ensures s.peers == t.peers
  {
    ServesPeers(s, users, keydesk);
    ServesPeers(t, users, keydesk);
    hide Serves, PeerOf;
    forall k ensures Lookup(s, k) == Lookup(t, k) {
      if k in s.peers {
        var u :| u in users && !u.isBlocked && u.Key() == k;
      }
    }
    forall k | k in s.peers || k in t.peers ensures k in s.peers && k in t.peers && s.peers[k] == t.peers[k] {
      assert Lookup(s, k) == Lookup(t, k);
    }
    assert s.peers.Keys == t.peers.Keys;
  }

  // The peer a list of users asks for under a key.
  function PeerFor(users: seq<UserRec>, keydesk: Option<IPv6>, k: Key): Option<Peer> {
    if users == [] then None
    else if !users[0].isBlocked && users[0].Key() == k then Some(PeerOf(users[0].info, keydesk))
    else PeerFor(users[1..], keydesk, k)
  }

  lemma {:induction false} PeerForIn(users: seq<UserRec>, keydesk: Option<IPv6>, k: Key)
    requires UniqueKeys(users)
    ensures forall u :: u in users && u.Key() == k ==>
              PeerFor(users, keydesk, k) == if u.isBlocked then None else Some(PeerOf(u.info, keydesk))
    ensures (forall u :: u in users ==> u.Key() != k) ==> PeerFor(users, keydesk, k) == None
    decreases |users|
  {
    if users != [] {
      var rest := users[1..];
      assert users == [users[0]] + rest;
      forall i, j | 0 <= i < j < |rest| ensures rest[i].Key() != rest[j].Key() {
        assert users[i + 1].Key() != users[j + 1].Key();
      }
      forall x | x in rest ensures x.Key() != users[0].Key() {
        var i :| 0 <= i < |rest| && rest[i] == x;
        assert users[0].Key() != users[i + 1].Key();
      }
      PeerForIn(rest, keydesk, k);
    }
  }

  // Serving a list is agreeing with it on every key.
  lemma ServesByKey(s: Slot, users: seq<UserRec>, keydesk: Option<IPv6>)
    requires UniqueKeys(users) && s.Up?
    ensures Serves(s, users, keydesk) <==> forall k :: Lookup(s, k) == PeerFor(users, keydesk, k)
  {
    ServesPeers(s, users, keydesk);
    hide Serves, PeerOf;
    forall k {
      PeerForIn(users, keydesk, k);
    }
    if Serves(s, users, keydesk) {
      forall k ensures Lookup(s, k) == PeerFor(users, keydesk, k) {
        if k in s.peers {
          var u :| u in users && !u.isBlocked && u.Key() == k;
        }
      }
    }
    if forall k :: Lookup(s, k) == PeerFor(users, keydesk, k) {
      forall k | k in s.peers ensures exists u :: u in users && !u.isBlocked && u.Key() == k {
        assert Lookup(s, k) == PeerFor(users, keydesk, k) != None;
        var u :| u in users && u.Key() == k;
      }
      forall u | u in users && !u.isBlocked ensures Lookup(s, u.Key()) == Some(PeerOf(u.info, keydesk)) {
        assert Lookup(s, u.Key()) == PeerFor(users, keydesk, u.Key());
      }
    }
  }

  // The delayed-only script on one key: its deletions, then the visit of the user that
  // keeps the key, if there is one.
  lemma DelayedOnKey(b: BrigadeRec, k: Key, v: Option<Peer>)
    requires UniqueKeys(Kept(b.users))
    ensures PeerCalls(Script(b, DELAYED_ONLY))
    ensures var v0 := if Deleting(b.users, k) then None else v;
      && (forall u :: u in Kept(b.users) && u.Key() == k ==>
            var calls := Visit(u, b.info.keydeskIPv6, DELAYED_ONLY).calls;
            && ActAll(Script(b, DELAYED_ONLY), k, v) == ActAll(calls, k, v0)
            && (Untouched(Script(b, DELAYED_ONLY), k) <==> !Deleting(b.users, k) && calls == []))
      && ((forall u :: u in Kept(b.users) ==> u.Key() != k) ==>
            && ActAll(Script(b, DELAYED_ONLY), k, v) == v0
            && (Untouched(Script(b, DELAYED_ONLY), k) <==> !Deleting(b.users, k)))
  {
    hide Visit, UniqueKeys, Deleting, Untouched;
    var dels, visits := DeletionCalls(b.users), VisitCalls(Kept(b.users), b.info.keydeskIPv6, DELAYED_ONLY);
    assert Script(b, DELAYED_ONLY) == dels + visits;
    DeletionOnKey(b.users, k, v);
    VisitOnKey(Kept(b.users), b.info.keydeskIPv6, DELAYED_ONLY, k, ActAll(dels, k, v));
    ActAllConcat(dels, visits, k, v);
    UntouchedConcat(dels, visits, k);
  }
}
