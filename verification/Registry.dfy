// The user registry as values: what create, delete, block, unblock and the replacement of
// the brigadier ask of the endpoint and make of the user list.

module Registry {
  import opened Brigade
  import opened Endpoint
  import opened Replay
  import opened Order
  import opened Net
  import opened Names

  datatype Error =
    | UserCollision | BrigadierCollision | UserLimit | UnresolvableCollision
    | UserNotFound | OpenFailed | EndpointFailed | CommitFailed

  datatype Result<+T> = Ok(value: T) | Err(error: Error)

  // The ID that asks for a random one.
  const NIL: nat := 0

  // ----- what is taken -----

  function Ids(users: seq<UserRec>): set<nat> {
    set i | 0 <= i < |users| :: users[i].info.id
  }

  function Taken4(p: Prefix4, users: seq<UserRec>): set<IPv4>
    requires p.bits <= 32
  {
    {p.addr, LastPrefixIPv4(p)} + set i | 0 <= i < |users| :: users[i].info.ipv4
  }

  function Taken6(p: Prefix6, users: seq<UserRec>): set<IPv6>
    requires p.bits <= 128
  {
    {p.addr, LastPrefixIPv6(p)} + set i | 0 <= i < |users| :: users[i].info.ipv6
  }

  // ----- assembling a new user -----

  // The first user of the list that stands in the way, and how.
  function Clash(users: seq<UserRec>, fullname: string, isBrigadier: bool): Option<Error> {
    if users == [] then None
    else if users[0].info.name == fullname then Some(UserCollision)
    else if isBrigadier && users[0].info.isBrigadier then Some(BrigadierCollision)
    else Clash(users[1..], fullname, isBrigadier)
  }

  // Why a user is refused, if it is.
  function Refusal(users: seq<UserRec>, form: UserInfo, max: nat): Option<Error> {
    var clash := Clash(users, form.name, form.isBrigadier);
    if clash.Some? then clash
    else if |Ids(users)| >= max then Some(UserLimit)
    else if form.id != NIL && form.id in Ids(users) then Some(UnresolvableCollision)
    else None
  }

  predicate InTheWay(u: UserInfo, form: UserInfo) {
    u.name == form.name || (form.isBrigadier && u.isBrigadier)
  }

  lemma {:induction false} ClashReason(users: seq<UserRec>, form: UserInfo, i: nat)
    requires i <= |users| && forall j :: 0 <= j < i ==> !InTheWay(users[j].info, form)
    requires i < |users| ==> InTheWay(users[i].info, form)
    ensures Clash(users, form.name, form.isBrigadier) ==
            if i == |users| then None
            else Some(if users[i].info.name == form.name then UserCollision else BrigadierCollision)
  {
    if i > 0 {
      assert !InTheWay(users[0].info, form);
      ClashReason(users[1..], form, i - 1);
    }
  }

  // The reason given: the first user in the way, by its name before its role; then the limit,
  // then the ID.
  lemma RefusalReason(users: seq<UserRec>, form: UserInfo, max: nat)
    ensures forall i :: 0 <= i < |users| && InTheWay(users[i].info, form)
                        && (forall j :: 0 <= j < i ==> !InTheWay(users[j].info, form)) ==>
              Refusal(users, form, max) ==
              Some(if users[i].info.name == form.name then UserCollision else BrigadierCollision)
    ensures (forall u :: u in users ==> !InTheWay(u.info, form)) ==>
              Refusal(users, form, max) ==
              if |Ids(users)| >= max then Some(UserLimit)
              else if form.id != NIL && (exists u :: u in users && u.info.id == form.id)
              then Some(UnresolvableCollision)
              else None
  {
    hide Clash, InTheWay;
    forall i | 0 <= i < |users| && InTheWay(users[i].info, form)
               && (forall j :: 0 <= j < i ==> !InTheWay(users[j].info, form))
      ensures Refusal(users, form, max) ==
              Some(if users[i].info.name == form.name then UserCollision else BrigadierCollision)
    {
      ClashReason(users, form, i);
    }
    if forall u :: u in users ==> !InTheWay(u.info, form) {
      ClashReason(users, form, |users|);
    }
  }

  // Prefix lengths as netip allows them.
  predicate Prefixed(b: BrigadeInfo) {
    b.ipv4CGNAT.bits <= 32 && b.ipv6ULA.bits <= 128
  }

  // A pair of addresses a user can have in the two networks.
  ghost predicate Placed(b: BrigadeInfo, ipv4: IPv4, ipv6: IPv6)
    requires Prefixed(b)
  {
    && In4(b.ipv4CGNAT, ipv4) && !IsZeroEnding4(ipv4)
    && ipv4 != b.ipv4CGNAT.addr && ipv4 != LastPrefixIPv4(b.ipv4CGNAT)
    && In6(b.ipv6ULA, ipv6) && !IsZeroEnding6(ipv6)
    && ipv6 != b.ipv6ULA.addr && ipv6 != LastPrefixIPv6(b.ipv6ULA)
  }

  // A user assembled from the form: ID, addresses and numbered name are its own, a domain of its
  // own it does not have, and the rest is the form's.
  ghost predicate Assembled(b: BrigadeInfo, salt: bv32, users: seq<UserRec>, form: UserInfo, added: UserInfo)
    requires Prefixed(b)
  {
    && added == form.(id := added.id, ipv4 := added.ipv4, ipv6 := added.ipv6, endpointDomain := "",
                     name := DisplayName(b.ipv4CGNAT, added.ipv4, salt, form.name))
    && added.id != NIL && added.id !in Ids(users) && (form.id != NIL ==> added.id == form.id)
    && Placed(b, added.ipv4, added.ipv6)
    && added.ipv4 !in Taken4(b.ipv4CGNAT, users) && added.ipv6 !in Taken6(b.ipv6ULA, users)
  }

  // ----- the list -----

  // What a search through the list looks for.
  datatype Test = ABrigadier | WithId(id: nat) | WithIdAndRole(id: nat, brigadier: bool) | After(info: UserInfo)

  predicate Meets(t: Test, u: UserInfo) {
    match t
    case ABrigadier => u.isBrigadier
    case WithId(id) => u.id == id
    case WithIdAndRole(id, brigadier) => u.id == id && u.isBrigadier == brigadier
    case After(info) => Before(info, u)
  }

  // The first position whose user meets the test, or the length of the list.
  function Find(users: seq<UserRec>, t: Test): (i: nat)
    ensures i <= |users|
    ensures i < |users| ==> Meets(t, users[i].info)
    ensures forall j :: 0 <= j < i ==> !Meets(t, users[j].info)
  {
    if users == [] || Meets(t, users[0].info) then 0
    else
      var i := Find(users[1..], t);
      assert forall j :: 1 <= j < i + 1 ==> users[j] == users[1..][j - 1];
      i + 1
  }

  // A user put where the order wants it.
  function Insert(users: seq<UserRec>, x: UserRec): seq<UserRec> {
    InsertAt(users, Find(users, After(x.info)), x)
  }

  // Everybody before the place of a user stays before it.
  lemma InsertPlace(users: seq<UserRec>, x: UserRec)
    ensures var p := Find(users, After(x.info));
      && (forall i :: 0 <= i < p ==> !Before(x.info, users[i].info))
      && (p < |users| ==> Before(x.info, users[p].info))
  {
    hide Before;
  }

  // ----- the operations -----

  datatype Op =
    | Create(form: UserInfo, replace: bool)
    | Delete(id: nat, brigadier: bool, onlyBlock: bool)
    | Unblock(id: nat)

  // The calls an operation makes when it completes, and the list it stores.
  datatype Plan = Plan(calls: seq<Call>, users: seq<UserRec>)

  predicate Replaces(op: Op) {
    op.Create? && op.form.isBrigadier && op.replace
  }

  // The old brigadier's peer is dropped, and the other users are left.
  function Removal(users: seq<UserRec>): Plan {
    var i := Find(users, ABrigadier);
    if i < |users| then Plan([PeerDel(users[i].Key())], RemoveAt(users, i)) else Plan([], users)
  }

  // The form after the replacement of the brigadier: its full name is the old one's.
  function FormFor(op: Op, users: seq<UserRec>): UserInfo
    requires op.Create?
  {
    if !Replaces(op) then op.form
    else
      var i := Find(users, ABrigadier);
      op.form.(name := if i < |users| then TrimNumber(users[i].info.name) else "")
  }

  lemma FormKeepsKey(op: Op, users: seq<UserRec>)
    requires op.Create?
    ensures FormFor(op, users).wgPublicKey == op.form.wgPublicKey
    ensures FormFor(op, users).isBrigadier == op.form.isBrigadier
    ensures FormFor(op, users).id == op.form.id
  {
    hide TrimNumber;
  }

  function Base(op: Op, users: seq<UserRec>): Plan {
    if Replaces(op) then Removal(users) else Plan([], users)
  }

  function PlanOf(op: Op, b: BrigadeRec, added: UserInfo): Plan {
    match op
    case Create(_, _) =>
      var base := Base(op, b.users);
      Plan(base.calls + [PeerAdd(added.wgPublicKey, PeerOf(added, b.info.keydeskIPv6))],
           Insert(base.users, UserRec(added, false, NOTHING_DELAYED)))
    case Delete(id, brigadier, onlyBlock) =>
      var i := Find(b.users, WithIdAndRole(id, brigadier));
      if i == |b.users| then Plan([], b.users)
      else
        var u := b.users[i];
        Plan(if u.isBlocked then [] else [PeerDel(u.Key())],
             if onlyBlock then b.users[i := u.(isBlocked := true)] else RemoveAt(b.users, i))
    case Unblock(id) =>
      var i := Find(b.users, WithId(id));
      if i == |b.users| then Plan([], b.users)
      else
        var u := b.users[i];
        Plan(if u.isBlocked then [PeerAdd(u.Key(), PeerOf(u.info, b.info.keydeskIPv6))] else [],
             b.users[i := u.(isBlocked := false)])
  }

  // When an operation can complete: a created user must have been accepted and assembled,
  // an unblocked one must exist and have a key.
  ghost predicate Allowed(op: Op, b: BrigadeRec, salt: bv32, max: nat, added: UserInfo)
    requires Prefixed(b.info)
  {
    match op
    case Create(_, _) =>
      var base, form := Base(op, b.users).users, FormFor(op, b.users);
      Refusal(base, form, max) == None && Assembled(b.info, salt, base, form, added)
    case Delete(_, _, _) => true
    case Unblock(id) =>
      var i := Find(b.users, WithId(id));
      i < |b.users| && b.users[i].Key() != ""
  }
}
