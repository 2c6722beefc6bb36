// ReplayBrigade as a function of the stored record: which calls it makes and what it
// stores when it commits.

module Replay {
  import opened Brigade
  import opened Endpoint
  import Strings

  // The five switches of the command; clean asks for the interface to be removed first.
  datatype Mode = Mode(clean: bool, bonly: bool, uonly: bool, delayed: bool, donly: bool)
  {
    // Pending actions are carried out, and the record is committed.
    predicate Acts() {
      delayed || donly
    }
  }

  const DELAYED_ONLY := Mode(false, false, false, true, true)
  const FULL := Mode(true, false, false, true, false)

  function IpsecOf(u: UserInfo): Option<(string, string)> {
    match (u.ipsecUser.router.Open(), u.ipsecPassword.router.Open())
    case (Some(name), Some(password)) => Some((name, password))
    case _ => None
  }

  // The keydesk address goes only to the brigadier.
  function PeerOf(u: UserInfo, keydesk: Option<IPv6>): Peer {
    Peer(u.wgPSK.router.Open(), u.ipv4, u.ipv6, u.csr, u.cloakUID.router.Open(), IpsecOf(u),
         u.outline.router.Open(), u.proto0.router.Open(), if u.isBrigadier then keydesk else None)
  }

  function DecoysOf(b: BrigadeInfo): seq<string> {
    (if b.proto0FakeDomain != "" then [b.proto0FakeDomain] else []) + b.proto0FakeDomains
  }

  function ParamsOf(b: BrigadeInfo): IfaceParams {
    var ca := b.ovCAKey.router.Open();
    IfaceParams(b.wgPrivate.router.Open(), b.endpointIPv4, b.endpointPort, b.ipv4CGNAT, b.ipv6ULA,
                b.cloakFakeDomain,
                if b.ovCACert != "" && ca.Some? then Some((b.ovCACert, ca.value)) else None,
                b.ipsecPSK.router.Open(), b.outlinePort,
                Strings.Join(DecoysOf(b), ','))
  }

  // The calls one user causes, and the record it becomes.
  datatype Outcome = Outcome(calls: seq<Call>, rec: UserRec)

  // The pending block or replay of a user: the peer is removed first.
  function Prepare(u: UserRec, m: Mode): Outcome {
    if m.Acts() && u.delayed.blocking then
      Outcome([PeerDel(u.Key())], u.(delayed := u.delayed.(blocking := false)))
    else if m.Acts() && u.delayed.replay then
      Outcome([PeerDel(u.Key())], u.(delayed := u.delayed.(replay := false, creation := true)))
    else
      Outcome([], u)
  }

  // Whether the user's peer is then added.
  predicate Adds(u: UserRec, m: Mode) {
    !u.isBlocked && (m.donly ==> u.delayed.creation || u.delayed.replay || u.delayed.blocking)
  }

  function Visit(u: UserRec, keydesk: Option<IPv6>, m: Mode): Outcome {
    if !m.Acts() && u.delayed.Any() then
      Outcome([], u)
    else
      var o := Prepare(u, m);
      if !Adds(o.rec, m) then
        o
      else
        Outcome(o.calls + [PeerAdd(u.Key(), PeerOf(u.info, keydesk))],
                if m.Acts() then o.rec.(delayed := o.rec.delayed.(creation := false)) else o.rec)
  }

  function VisitCalls(users: seq<UserRec>, keydesk: Option<IPv6>, m: Mode): seq<Call> {
    if users == [] then []
    else Visit(users[0], keydesk, m).calls + VisitCalls(users[1..], keydesk, m)
  }

  function VisitRecs(users: seq<UserRec>, keydesk: Option<IPv6>, m: Mode): (r: seq<UserRec>)
    ensures |r| == |users|
    ensures forall i :: 0 <= i < |users| ==> r[i] == Visit(users[i], keydesk, m).rec
  {
    seq(|users|, i requires 0 <= i < |users| => Visit(users[i], keydesk, m).rec)
  }

  // The users that are not waiting for deletion, in their order.
  function Kept(users: seq<UserRec>): seq<UserRec> {
    if users == [] then []
    else (if users[0].delayed.deletion then [] else [users[0]]) + Kept(users[1..])
  }

  function DeletionCalls(users: seq<UserRec>): seq<Call> {
    if users == [] then []
    else (if users[0].delayed.deletion then [PeerDel(users[0].Key())] else []) + DeletionCalls(users[1..])
  }

  // The calls about the interface itself.
  function IfaceCalls(b: BrigadeInfo, m: Mode): seq<Call> {
    if m.donly then []
    else (if m.clean then [WgDel] else []) + (if !m.uonly then [WgAdd(ParamsOf(b))] else [])
  }

  // The walk over the users happens unless only the brigade itself was asked for.
  predicate Walks(m: Mode) {
    m.donly || !m.bonly
  }

  function Survivors(users: seq<UserRec>, m: Mode): seq<UserRec> {
    if m.Acts() then Kept(users) else users
  }

  function WalkCalls(users: seq<UserRec>, keydesk: Option<IPv6>, m: Mode): seq<Call> {
    (if m.Acts() then DeletionCalls(users) else []) + VisitCalls(Survivors(users, m), keydesk, m)
  }

  function Script(b: BrigadeRec, m: Mode): seq<Call> {
    IfaceCalls(b.info, m) + if Walks(m) then WalkCalls(b.users, b.info.keydeskIPv6, m) else []
  }

  // The record after a run that reached its end.
  function Replayed(b: BrigadeRec, m: Mode): BrigadeRec {
    if Walks(m) && m.Acts()
    then b.(users := VisitRecs(Survivors(b.users, m), b.info.keydeskIPv6, m))
    else b
  }
}
