// The patch command as a function of the stored record and the wanted one: which pending
// actions it writes for every user, and whether the interface itself changed.

module Patch {
  import opened Brigade
  import opened Strings

  // The same user: same ID and same public key.
  predicate SameUser(a: UserInfo, b: UserInfo) {
    a.id == b.id && a.wgPublicKey == b.wgPublicKey
  }

  // Something the endpoint is told about the user, or its domain, has changed. Secrets are
  // compared by the ciphertext made for the shuffler.
  predicate Modified(a: UserInfo, b: UserInfo) {
    || a.isBrigadier != b.isBrigadier
    || a.ipv4 != b.ipv4
    || a.ipv6 != b.ipv6
    || a.endpointDomain != b.endpointDomain
    || a.wgPSK.shuffler != b.wgPSK.shuffler
    || a.cloakUID.shuffler != b.cloakUID.shuffler
    || a.csr != b.csr
    || a.ipsecUser.shuffler != b.ipsecUser.shuffler
    || a.ipsecPassword.shuffler != b.ipsecPassword.shuffler
    || a.outline.shuffler != b.outline.shuffler
    || a.proto0.shuffler != b.proto0.shuffler
  }

  // The two are one user, by ID and key, who may have another name and whose secrets may be sealed
  // for the router anew; nothing else differs.
  predicate AsBefore(a: UserInfo, b: UserInfo) {
    a.(name := b.name,
       wgPSK := a.wgPSK.(router := b.wgPSK.router),
       cloakUID := a.cloakUID.(router := b.cloakUID.router),
       ipsecUser := a.ipsecUser.(router := b.ipsecUser.router),
       ipsecPassword := a.ipsecPassword.(router := b.ipsecPassword.router),
       outline := a.outline.(router := b.outline.router),
       proto0 := a.proto0.(router := b.proto0.router)) == b
  }

  // So the comparison of users leaves out the name and those ciphertexts, and nothing else.
  lemma ModifiedExactly(a: UserInfo, b: UserInfo)
    ensures SameUser(a, b) && !Modified(a, b) <==> AsBefore(a, b)
  {
  }

  // The wanted list has this user, and not as a user to be deleted.
  predicate StillWanted(wanted: seq<UserRec>, o: UserRec) {
    exists i :: 0 <= i < |wanted| && !wanted[i].delayed.deletion && SameUser(wanted[i].info, o.info)
  }

  function FirstSame(stored: seq<UserRec>, f: UserRec): Option<UserRec> {
    if stored == [] then None
    else if SameUser(stored[0].info, f.info) then Some(stored[0])
    else FirstSame(stored[1..], f)
  }

  // The flags of a wanted user.
  function Mark(stored: seq<UserRec>, f: UserRec): UserRec {
    f.(delayed := match FirstSame(stored, f)
       case None => Delayed(false, !f.isBlocked, false, false)
       case Some(o) => Delayed(false, o.isBlocked && !f.isBlocked, !o.isBlocked && f.isBlocked,
                               Modified(f.info, o.info) && !f.isBlocked && !o.isBlocked))
  }

  // The flags of a wanted user as its first match by ID and key calls for them. A replay is asked
  // for exactly when the user is not blocked, was not, and is not as before.
  ghost predicate Flagged(stored: seq<UserRec>, f: UserRec, g: UserRec) {
    && g == f.(delayed := g.delayed) && !g.delayed.deletion
    && ((forall o :: o in stored ==> o.info.id != f.info.id || o.Key() != f.Key()) ==>
          g.delayed == Delayed(false, !f.isBlocked, false, false))
    && forall i :: 0 <= i < |stored| && stored[i].info.id == f.info.id && stored[i].Key() == f.Key()
                   && (forall j :: 0 <= j < i ==> stored[j].info.id != f.info.id || stored[j].Key() != f.Key()) ==>
         && (g.delayed.creation <==> stored[i].isBlocked && !f.isBlocked)
         && (g.delayed.blocking <==> !stored[i].isBlocked && f.isBlocked)
         && (g.delayed.replay <==> !stored[i].isBlocked && !f.isBlocked && !AsBefore(f.info, stored[i].info))
  }

  lemma {:induction false} FirstSameAt(stored: seq<UserRec>, f: UserRec, i: nat)
    requires i < |stored| && SameUser(stored[i].info, f.info)
    requires forall j :: 0 <= j < i ==> !SameUser(stored[j].info, f.info)
    ensures FirstSame(stored, f) == Some(stored[i])
  {
    hide SameUser;
    if i > 0 {
      FirstSameAt(stored[1..], f, i - 1);
    }
  }

  lemma MarkFlags(stored: seq<UserRec>, f: UserRec)
    ensures Flagged(stored, f, Mark(stored, f))
  {
    hide Modified, AsBefore;
    FirstSameIn(stored, f);
    forall i | 0 <= i < |stored| && SameUser(stored[i].info, f.info)
               && (forall j :: 0 <= j < i ==> !SameUser(stored[j].info, f.info))
      ensures FirstSame(stored, f) == Some(stored[i])
    {
      FirstSameAt(stored, f, i);
    }
    forall o: UserRec {
      ModifiedExactly(f.info, o.info);
    }
  }

  // The stored users that have to go; a blocked one has no peer and is simply dropped.
  function Dropped(stored: seq<UserRec>, wanted: seq<UserRec>): seq<UserRec> {
    if stored == [] then []
    else (if StillWanted(wanted, stored[0]) || stored[0].isBlocked then []
          else [stored[0].(delayed := Delayed(true, false, false, false))]) + Dropped(stored[1..], wanted)
  }

  // The wanted users, flagged.
  function Marked(stored: seq<UserRec>, wanted: seq<UserRec>): seq<UserRec> {
    if wanted == [] then []
    else (if wanted[0].delayed.deletion then [] else [Mark(stored, wanted[0])]) + Marked(stored, wanted[1..])
  }

  // The users patch stores, in the order they are appended; the sort that follows may
  // leave them in any order.
  function PatchedUsers(stored: seq<UserRec>, wanted: seq<UserRec>): seq<UserRec> {
    Dropped(stored, wanted) + Marked(stored, wanted)
  }

  // The list of decoy domains is sorted in place, and the new record shares it.
  function PatchedInfo(wanted: BrigadeInfo): BrigadeInfo {
    wanted.(proto0FakeDomains := Sort(wanted.proto0FakeDomains))
  }

  // Nothing else of the wanted brigade changes, and no domain is lost.
  lemma PatchedInfoExactly(wanted: BrigadeInfo)
    ensures var b := PatchedInfo(wanted);
      && b.(proto0FakeDomains := wanted.proto0FakeDomains) == wanted
      && multiset(b.proto0FakeDomains) == multiset(wanted.proto0FakeDomains) && Sorted(b.proto0FakeDomains)
  {
    hide Sort, Sorted;
    SortSorts(wanted.proto0FakeDomains);
  }

  // The comparison that decides between the two replays; both domain lists have been
  // sorted when it is made.
  predicate SomethingChanged(was: BrigadeInfo, wanted: BrigadeInfo) {
    || was.wgPublicKey != wanted.wgPublicKey
    || was.wgPrivate.shuffler != wanted.wgPrivate.shuffler
    || was.cloakFakeDomain != wanted.cloakFakeDomain
    || was.ovCAKey.shuffler != wanted.ovCAKey.shuffler
    || was.ovCACert != wanted.ovCACert
    || was.ipsecPSKPlain != wanted.ipsecPSKPlain
    || was.ipsecPSK.shuffler != wanted.ipsecPSK.shuffler
    || was.endpointIPv4 != wanted.endpointIPv4
    || was.endpointDomain != wanted.endpointDomain
    || was.endpointPort != wanted.endpointPort
    || was.outlinePort != wanted.outlinePort
    || was.proto0FakeDomain != wanted.proto0FakeDomain
    || was.proto0Port != wanted.proto0Port
    || Join(was.proto0FakeDomains, ' ') != Join(wanted.proto0FakeDomains, ' ')
    || was.keydeskIPv6 != wanted.keydeskIPv6
    || was.ipv4CGNAT != wanted.ipv4CGNAT
    || was.ipv6ULA != wanted.ipv6ULA
  }

  predicate NeedsFullReplay(was: BrigadeInfo, wanted: BrigadeInfo) {
    SomethingChanged(PatchedInfo(was), PatchedInfo(wanted))
  }

  // The two brigades may differ in the mode, in what is sealed for the router, and in the list of
  // decoy domains; everything else is the same.
  predicate BrigadeAsBefore(a: BrigadeInfo, b: BrigadeInfo) {
    a.(mode := b.mode,
       wgPrivate := a.wgPrivate.(router := b.wgPrivate.router),
       ovCAKey := a.ovCAKey.(router := b.ovCAKey.router),
       ipsecPSK := a.ipsecPSK.(router := b.ipsecPSK.router),
       proto0FakeDomains := b.proto0FakeDomains) == b
  }

  // A full replay is asked for exactly when something else differs, or the decoy domains do,
  // sorted and joined with blanks. If they hold no blanks, that is a difference of the lists as
  // sets with multiplicities.
  lemma FullReplayExactly(a: BrigadeInfo, b: BrigadeInfo)
    ensures NeedsFullReplay(a, b) <==>
            !BrigadeAsBefore(a, b)
            || Join(Sort(a.proto0FakeDomains), ' ') != Join(Sort(b.proto0FakeDomains), ' ')
    ensures Domains(a.proto0FakeDomains, ' ') && Domains(b.proto0FakeDomains, ' ') ==>
      (NeedsFullReplay(a, b) <==>
         !BrigadeAsBefore(a, b) || multiset(a.proto0FakeDomains) != multiset(b.proto0FakeDomains))
  {
    hide Sort, Join, Sorted, Domains;
    if Domains(a.proto0FakeDomains, ' ') && Domains(b.proto0FakeDomains, ' ') {
      SortedJoins(a.proto0FakeDomains, b.proto0FakeDomains);
    }
  }

  lemma SortedJoins(a: seq<string>, b: seq<string>)
    requires Domains(a, ' ') && Domains(b, ' ')
    ensures Join(Sort(a), ' ') == Join(Sort(b), ' ') <==> multiset(a) == multiset(b)
  {
    hide Sort, Join, Sorted, Domains;
    var s, t := Sort(a), Sort(b);
    SortSorts(a);
    SortSorts(b);
    if multiset(s) == multiset(t) {
      SortedUnique(s, t);
    }
    DomainsPermuted(a, s, ' ');
    DomainsPermuted(b, t, ' ');
    if Join(s, ' ') == Join(t, ' ') {
      JoinInjective(s, t, ' ');
    }
  }

  lemma DomainsPermuted(s: seq<string>, t: seq<string>, sep: char)
    requires multiset(s) == multiset(t) && Domains(s, sep)
    ensures Domains(t, sep)
  {
    forall i | 0 <= i < |t| ensures Domain(t[i], sep) {
      assert t[i] in multiset(s);
    }
  }

  // A record that patch may store for these two.
  ghost predicate Patched(was: BrigadeRec, wanted: BrigadeRec, b: BrigadeRec) {
    && b.info == PatchedInfo(wanted.info)
    && multiset(b.users) == multiset(PatchedUsers(was.users, wanted.users))
  }

  // What both lists contain, entry by entry.

  lemma {:induction false} DroppedIn(stored: seq<UserRec>, wanted: seq<UserRec>, x: UserRec)
    ensures x in Dropped(stored, wanted) <==>
            exists o :: o in stored && !o.isBlocked && !StillWanted(wanted, o)
                        && x == o.(delayed := Delayed(true, false, false, false))
  {
    if stored != [] {
      DroppedIn(stored[1..], wanted, x);
      assert stored == [stored[0]] + stored[1..];
    }
  }

  lemma {:induction false} MarkedIn(stored: seq<UserRec>, wanted: seq<UserRec>, x: UserRec)
    ensures x in Marked(stored, wanted) <==>
            exists f :: f in wanted && !f.delayed.deletion && x == Mark(stored, f)
  {
    if wanted != [] {
      MarkedIn(stored, wanted[1..], x);
      assert wanted == [wanted[0]] + wanted[1..];
    }
  }

  lemma {:induction false} FirstSameIn(stored: seq<UserRec>, f: UserRec)
    ensures FirstSame(stored, f).None? <==> forall o :: o in stored ==> !SameUser(o.info, f.info)
    ensures FirstSame(stored, f).Some? ==>
              FirstSame(stored, f).value in stored && SameUser(FirstSame(stored, f).value.info, f.info)
  {
    if stored != [] {
      FirstSameIn(stored[1..], f);
      assert stored == [stored[0]] + stored[1..];
    }
  }
}
