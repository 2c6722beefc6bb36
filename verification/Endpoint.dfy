// The router-side endpoints: one slot for every WireGuard interface at every API address,
// each holding the interface parameters and a map from public keys to peers. Calls may fail,
// and a call whose reply is lost may or may not have taken effect.

module Endpoint {
  import opened Brigade

  // What a peer_add call hands over. An absent query argument is None.
  datatype Peer = Peer(
    psk: Option<string>,
    ipv4: IPv4,
    ipv6: IPv6,
    csr: string,
    cloakUID: Option<string>,
    ipsec: Option<(string, string)>,
    outline: Option<string>,
    proto0: Option<string>,
    controlHost: Option<IPv6>
  )

  // What a wg_add call hands over.
  datatype IfaceParams = IfaceParams(
    wgPrivate: Option<string>,
    endpointIPv4: IPv4,
    endpointPort: nat,
    ipv4Net: Prefix4,
    ipv6Net: Prefix6,
    cloakDomain: string,
    ovCA: Option<(string, string)>,
    ipsecPSK: Option<string>,
    outlinePort: nat,
    proto0Domains: string
  )

  datatype Slot = Down | Up(params: IfaceParams, peers: map<Key, Peer>)

  datatype Call =
    | WgDel
    | WgAdd(params: IfaceParams)
    | PeerDel(key: Key)
    | PeerAdd(key: Key, peer: Peer)

  // A present peer is left alone by peer_add (reply 151 counts as success), an absent one
  // by peer_del; wg_add on an interface that is up changes nothing.
  function Apply(c: Call, s: Slot): Slot {
    match c
    case WgDel => Down
    case WgAdd(p) => if s.Up? then s else Up(p, map[])
    case PeerDel(k) => if s.Up? then s.(peers := s.peers - {k}) else s
    case PeerAdd(k, p) => if s.Up? && k !in s.peers then s.(peers := s.peers[k := p]) else s
  }

  function ApplyAll(calls: seq<Call>, s: Slot): Slot {
    if calls == [] then s else ApplyAll(calls[1..], Apply(calls[0], s))
  }

  lemma {:induction false} ApplyAllConcat(a: seq<Call>, b: seq<Call>, s: Slot)
    ensures ApplyAll(a + b, s) == ApplyAll(b, ApplyAll(a, s))
    decreases |a|
  {
    if a == [] {
      assert a + b == b;
    } else {
      assert (a + b)[1..] == a[1..] + b;
      ApplyAllConcat(a[1..], b, Apply(a[0], s));
    }
  }

  // Where a request goes: the API address of an endpoint, and the interface it is about.
  datatype Iface = Iface(address: IPv6, key: Key)

  // The API address is calculated from the brigade's own IPv4 address.
  function CalcAPIAddr(a: IPv4): IPv6 {
    IPv6(0xFDCC_0000_0000_0000 | ((a as bv64) << 16), 3)
  }

  lemma BareAPIAddr(a: bv32, b: bv32, x: bv64, y: bv64)
    requires x == 0xFDCC_0000_0000_0000 | ((a as bv64) << 16) && y == 0xFDCC_0000_0000_0000 | ((b as bv64) << 16)
    requires x == y
    ensures a == b
  {
  }

  // It starts with the bytes FD and CC, goes on with the four of the brigade's address, and ends
  // in nine zero bytes and a three.
  lemma APIAddrBytes(a: IPv4)
    ensures var b := CalcAPIAddr(a);
      b.hi >> 48 == 0xFDCC && (b.hi >> 16) & 0xFFFF_FFFF == a as bv64 && b.hi & 0xFFFF == 0 && b.lo == 3
  {
    APIAddrIs(a);
    hide *;
    BareAPIBytes(a, CalcAPIAddr(a).hi);
  }

  lemma APIAddrIs(a: IPv4)
    ensures CalcAPIAddr(a).hi == 0xFDCC_0000_0000_0000 | ((a as bv64) << 16) && CalcAPIAddr(a).lo == 3
  {
  }

  lemma BareAPIBytes(a: bv32, h: bv64)
    requires h == 0xFDCC_0000_0000_0000 | ((a as bv64) << 16)
    ensures h >> 48 == 0xFDCC && (h >> 16) & 0xFFFF_FFFF == a as bv64 && h & 0xFFFF == 0
  {
  }

  // Brigades with different addresses have different endpoints.
  lemma APIAddrInjective(a: IPv4, b: IPv4)
    ensures CalcAPIAddr(a) == CalcAPIAddr(b) <==> a == b
  {
    if CalcAPIAddr(a) == CalcAPIAddr(b) {
      BareAPIAddr(a, b, CalcAPIAddr(a).hi, CalcAPIAddr(b).hi);
    }
  }

  // The interface a record leads to.
  function Home(b: BrigadeInfo): Iface {
    Iface(CalcAPIAddr(b.endpointIPv4), b.wgPublicKey)
  }

  function GetSlot(slots: map<Iface, Slot>, iface: Iface): Slot {
    if iface in slots then slots[iface] else Down
  }

  // The endpoints as their callers see them. A wg_del answered with the code for an
  // interface that is not there, or with the one for an attempt at deletion, counts as success.
  class EndpointApi {
    var slots: map<Iface, Slot>
    ghost var log: seq<Call>  // the calls that took effect, oldest first
    ghost var faults: nat     // how many calls failed

    constructor ()
      ensures slots == map[] && log == [] && faults == 0
    {
      slots, log, faults := map[], [], 0;
    }

    // One request. Success means that the call took effect; failure leaves it open.
    method Send(iface: Iface, c: Call) returns (ok: bool, ghost took: bool)
      modifies this
      ensures ok ==> took
      ensures faults == old(faults) + if ok then 0 else 1
      ensures took ==>
        slots == old(slots)[iface := Apply(c, GetSlot(old(slots), iface))] && log == old(log) + [c]
      ensures !took ==> slots == old(slots) && log == old(log)
    {
      var reached: bool := *;
      var replied: bool := *;
      ok := reached && replied;
      took := reached;
      if reached {
        slots := slots[iface := Apply(c, GetSlot(slots, iface))];
        log := log + [c];
      }
      faults := faults + if ok then 0 else 1;
    }
  }
}
