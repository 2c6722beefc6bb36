// The data the whole project shares: a brigade record as it is stored on disk,
// the users in it, and what the router-side endpoint is told about each of them.

module Brigade {
  datatype Option<+T> = None | Some(value: T)

  // A WireGuard public key.
  type Key = string

  type IPv4 = bv32

  // An IPv6 address as the two 64-bit halves the repository computes with.
  datatype IPv6 = IPv6(hi: bv64, lo: bv64)

  datatype Prefix4 = Prefix4(addr: IPv4, bits: bv8)
  datatype Prefix6 = Prefix6(addr: IPv6, bits: bv8)

  // A sealed secret. Two ciphertexts are equal only if they seal the same secret;
  // the nonce is what makes sealing the same secret twice give two ciphertexts.
  // The empty string stands for a secret that is not configured.
  datatype Sealed = NotSet | Box(secret: string, nonce: nat)
  {
    // What the holder of the private key sees.
    function Open(): Option<string> {
      match this
      case NotSet => None
      case Box(secret, _) => Some(secret)
    }
  }

  // The same secret sealed twice, for the router and for the shuffler.
  datatype SealedPair = SealedPair(router: Sealed, shuffler: Sealed)
  {
    predicate Coherent() {
      router.Open() == shuffler.Open()
    }
  }

  // The part of a user that patch and replay read but never write.
  datatype UserInfo = UserInfo(
    id: nat,
    name: string,
    isBrigadier: bool,
    ipv4: IPv4,
    ipv6: IPv6,
    endpointDomain: string,
    wgPublicKey: Key,
    wgPSK: SealedPair,
    cloakUID: SealedPair,
    csr: string,
    ipsecUser: SealedPair,
    ipsecPassword: SealedPair,
    outline: SealedPair,
    proto0: SealedPair
  )
  {
    // Both ciphertexts of every secret seal the same plain text.
    predicate Coherent() {
      && wgPSK.Coherent() && cloakUID.Coherent()
      && ipsecUser.Coherent() && ipsecPassword.Coherent()
      && outline.Coherent() && proto0.Coherent()
    }
  }

  // The four pending actions a user can carry in the stored record.
  datatype Delayed = Delayed(deletion: bool, creation: bool, blocking: bool, replay: bool)
  {
    predicate Any() {
      deletion || creation || blocking || replay
    }
  }

  const NOTHING_DELAYED := Delayed(false, false, false, false)

  // A user as stored on disk.
  datatype UserRec = UserRec(info: UserInfo, isBlocked: bool, delayed: Delayed)
  {
    function Key(): Key {
      info.wgPublicKey
    }
  }

  // Everything in a brigade record except its users.
  datatype BrigadeInfo = BrigadeInfo(
    mode: string,
    wgPublicKey: Key,
    wgPrivate: SealedPair,
    cloakFakeDomain: string,
    ovCAKey: SealedPair,
    ovCACert: string,
    ipsecPSKPlain: string,
    ipsecPSK: SealedPair,
    endpointIPv4: IPv4,
    endpointDomain: string,
    endpointPort: nat,
    outlinePort: nat,
    proto0FakeDomain: string,
    proto0FakeDomains: seq<string>,
    proto0Port: nat,
    keydeskIPv6: Option<IPv6>,
    ipv4CGNAT: Prefix4,
    ipv6ULA: Prefix6
  )
  {
    predicate Coherent() {
      wgPrivate.Coherent() && ovCAKey.Coherent() && ipsecPSK.Coherent()
    }
  }

  datatype BrigadeRec = BrigadeRec(info: BrigadeInfo, users: seq<UserRec>)

  // No two users of the list carry the same public key.
  ghost predicate UniqueKeys(users: seq<UserRec>) {
    forall i, j :: 0 <= i < j < |users| ==> users[i].Key() != users[j].Key()
  }

  // A decoded user: patch, replay and the registry change its block state and its
  // pending actions in place.
  class User {
    const info: UserInfo
    var isBlocked: bool
    var delayed: Delayed

    constructor (rec: UserRec)
      ensures Rec() == rec
    {
      info := rec.info;
      isBlocked := rec.isBlocked;
      delayed := rec.delayed;
    }

    function Rec(): UserRec
      reads this
    {
      UserRec(info, isBlocked, delayed)
    }
  }

  // What the list of user objects says when it is encoded.
  function Recs(users: seq<User>): (r: seq<UserRec>)
    reads users
    ensures |r| == |users|
    ensures forall i :: 0 <= i < |users| ==> r[i] == users[i].Rec()
  {
    seq(|users|, i requires 0 <= i < |users| reads users => users[i].Rec())
  }

  ghost predicate Distinct(users: seq<User>) {
    forall i, j :: 0 <= i < j < |users| ==> users[i] != users[j]
  }

  // Decoding gives every user an object of its own.
  method Decode(recs: seq<UserRec>) returns (users: seq<User>)
    ensures Recs(users) == recs
    ensures Distinct(users) && fresh(users)
  {
    users := [];
    for n := 0 to |recs|
      invariant |users| == n && Distinct(users) && fresh(users)
      invariant Recs(users) == recs[..n]
    {
      var u := new User(recs[n]);
      users := users + [u];
    }
  }
}
