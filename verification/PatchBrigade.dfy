// The patch command itself: it flags the user objects of both records, collects them in
// the new record, sorts and commits, and then picks a replay.

module PatchBrigade {
  import opened Brigade
  import opened Strings
  import opened Endpoint
  import opened Replay
  import opened Order
  import opened Patch
  import opened Peers
  import opened Convergence
  import opened BrigadeStorage
  import opened ReplayBrigade

  // A decoded record.
  class BrigadeData {
    var info: BrigadeInfo
    var users: seq<User>

    constructor (info: BrigadeInfo, users: seq<User>)
      ensures this.info == info && this.users == users
    {
      this.info, this.users := info, users;
    }
  }

  ghost predicate Disjoint(a: seq<User>, b: seq<User>) {
    forall i, j :: 0 <= i < |a| && 0 <= j < |b| ==> a[i] != b[j]
  }

  // The inner loop of deletedUsers.
  method FindWanted(o: User, wanted: seq<User>) returns (found: bool)
    ensures found <==> StillWanted(Recs(wanted), o.Rec())
  {
    for j := 0 to |wanted|
      invariant forall i :: 0 <= i < j ==> wanted[i].delayed.deletion || !SameUser(wanted[i].info, o.info)
    {
      if !wanted[j].delayed.deletion && SameUser(wanted[j].info, o.info) {
        assert SameUser(Recs(wanted)[j].info, o.Rec().info);
        return true;
      }
    }
    return false;
  }

  lemma DroppedStep(stored: seq<UserRec>, wanted: seq<UserRec>, i: nat)
    requires i < |stored|
    ensures Dropped(stored[..i + 1], wanted) == Dropped(stored[..i], wanted) + Dropped([stored[i]], wanted)
  {
    assert stored[..i + 1] == stored[..i] + [stored[i]];
    DroppedConcat(stored[..i], [stored[i]], wanted);
  }

  lemma {:induction false} DroppedConcat(a: seq<UserRec>, b: seq<UserRec>, wanted: seq<UserRec>)
    ensures Dropped(a + b, wanted) == Dropped(a, wanted) + Dropped(b, wanted)
    decreases |a|
  {
    hide StillWanted;
    if a == [] {
      assert a + b == b;
    } else {
      assert (a + b)[1..] == a[1..] + b;
      DroppedConcat(a[1..], b, wanted);
    }
  }

  // Stored users that are not wanted any more are flagged and appended to the new record.
  method DeletedUsers(newdata: BrigadeData, stored: seq<User>, wanted: seq<User>)
    requires newdata.users == [] && Distinct(stored) && Disjoint(stored, wanted)
    modifies newdata`users, stored
    ensures Recs(newdata.users) == Dropped(old(Recs(stored)), old(Recs(wanted)))
    ensures forall i :: 0 <= i < |newdata.users| ==> newdata.users[i] in stored
    ensures forall u :: u in stored ==> u.isBlocked == old(u.isBlocked)
  {
    hide StillWanted;
    ghost var was, want := Recs(stored), Recs(wanted);
    for i := 0 to |stored|
      invariant forall j :: 0 <= j < |stored| ==> stored[j].isBlocked == was[j].isBlocked
      invariant forall j :: i <= j < |stored| ==> stored[j].Rec() == was[j]
      invariant Recs(wanted) == want
      invariant Recs(newdata.users) == Dropped(was[..i], want)
      invariant forall j :: 0 <= j < |newdata.users| ==> newdata.users[j] in stored[..i]
    {
      var o := stored[i];
      DroppedStep(was, want, i);
      var found := FindWanted(o, wanted);
      if !found && !o.isBlocked {
        assert o !in stored[..i];
        o.delayed := Delayed(true, false, false, false);
        newdata.users := newdata.users + [o];
      }
    }
    assert was[..|stored|] == was;
  }

  // The inner loop of freshUsers.
  method FindStored(f: User, stored: seq<User>) returns (k: nat)
    ensures k <= |stored|
    ensures FirstSame(Recs(stored), f.Rec()) == if k < |stored| then Some(stored[k].Rec()) else None
  {
    ghost var recs := Recs(stored);
    k := 0;
    while k < |stored| && !SameUser(stored[k].info, f.info)
      invariant k <= |stored|
      invariant FirstSame(recs, f.Rec()) == FirstSame(recs[k..], f.Rec())
    {
      assert recs[k..][1..] == recs[k + 1..];
      k := k + 1;
    }
  }

  // The two lists differ in flags only.
  ghost predicate Alike(a: seq<UserRec>, b: seq<UserRec>) {
    |a| == |b| && forall i :: 0 <= i < |a| ==> a[i].info == b[i].info && a[i].isBlocked == b[i].isBlocked
  }

  lemma {:induction false} MarkAlike(a: seq<UserRec>, b: seq<UserRec>, f: UserRec)
    requires Alike(a, b)
    ensures Mark(a, f) == Mark(b, f)
  {
    hide Modified, SameUser;
    if a != [] {
      MarkAlike(a[1..], b[1..], f);
    }
  }

  lemma {:induction false} MarkedConcat(a: seq<UserRec>, b: seq<UserRec>, stored: seq<UserRec>)
    ensures Marked(stored, a + b) == Marked(stored, a) + Marked(stored, b)
    decreases |a|
  {
    if a == [] {
      assert a + b == b;
    } else {
      assert (a + b)[1..] == a[1..] + b;
      MarkedConcat(a[1..], b, stored);
    }
  }

  lemma MarkedStep(stored: seq<UserRec>, wanted: seq<UserRec>, i: nat)
    requires i < |wanted|
    ensures Marked(stored, wanted[..i + 1]) == Marked(stored, wanted[..i]) +
            if wanted[i].delayed.deletion then [] else [Mark(stored, wanted[i])]
  {
    hide Mark;
    assert wanted[..i + 1] == wanted[..i] + [wanted[i]];
    MarkedConcat(wanted[..i], [wanted[i]], stored);
  }

  // The flags of one wanted user are set from scratch.
  method MarkUser(f: User, stored: seq<User>)
    requires f !in stored
    modifies f
    ensures f.Rec() == Mark(Recs(stored), old(f.Rec()))
    ensures Flagged(Recs(stored), old(f.Rec()), f.Rec())
  {
    hide Flagged;
    MarkFlags(Recs(stored), f.Rec());
    f.delayed := NOTHING_DELAYED;
    var k := FindStored(f, stored);
    MarkIgnoresFlags(Recs(stored), f.Rec(), old(f.Rec()));
    if k < |stored| {
      var o := stored[k];
      if Modified(f.info, o.info) {
        if !f.isBlocked && !o.isBlocked {
          f.delayed := f.delayed.(replay := true);
        }
      }
      if o.isBlocked && !f.isBlocked {
        f.delayed := f.delayed.(creation := true);
      } else if !o.isBlocked && f.isBlocked {
        f.delayed := f.delayed.(blocking := true);
      }
    } else if !f.isBlocked {
      f.delayed := f.delayed.(creation := true);
    }
  }

  lemma {:induction false} MarkIgnoresFlags(stored: seq<UserRec>, f: UserRec, g: UserRec)
    requires f.info == g.info
    ensures FirstSame(stored, f) == FirstSame(stored, g)
  {
    if stored != [] {
      MarkIgnoresFlags(stored[1..], f, g);
    }
  }

  // Every wanted user is flagged and appended to the new record.
  method FreshUsers(newdata: BrigadeData, stored: seq<User>, wanted: seq<User>, ghost was: seq<UserRec>)
    requires Distinct(wanted) && Disjoint(stored, wanted)
    requires Disjoint(newdata.users, wanted)
    requires Alike(Recs(stored), was)
    modifies newdata`users, wanted
    ensures Recs(newdata.users) == old(Recs(newdata.users)) + Marked(was, old(Recs(wanted)))
    ensures forall i :: 0 <= i < |newdata.users| ==>
              newdata.users[i] in old(newdata.users) || newdata.users[i] in wanted
  {
    hide Alike, Mark, Flagged;
    ghost var want, before, users0 := Recs(wanted), Recs(newdata.users), newdata.users;
    for i := 0 to |wanted|
      invariant Recs(stored) == old(Recs(stored)) && Recs(users0) == before
      invariant forall j :: i <= j < |wanted| ==> wanted[j].Rec() == want[j]
      invariant users0 <= newdata.users
      invariant forall j :: |users0| <= j < |newdata.users| ==> newdata.users[j] in wanted[..i]
      invariant Recs(newdata.users) == before + Marked(was, want[..i])
    {
      MarkedStep(was, want, i);
      var f := wanted[i];
      if !f.delayed.deletion {
        assert f !in newdata.users;
        MarkAlike(Recs(stored), was, want[i]);
        MarkUser(f, stored);
        newdata.users := newdata.users + [f];
      }
    }
    assert want[..|wanted|] == want;
  }

  ghost predicate Separate(was: BrigadeData, wanted: BrigadeData)
    reads was, wanted
  {
    was != wanted && Distinct(was.users) && Distinct(wanted.users) && Disjoint(was.users, wanted.users)
  }

  function RecordOf(d: BrigadeData): BrigadeRec
    reads d, d.users
  {
    BrigadeRec(d.info, Recs(d.users))
  }

  // Fills the user list of the new record and sorts it. The sort is free to leave any
  // order; with one brigadier and distinct IDs it does not.
  method PatchUsers(newdata: BrigadeData, stored: seq<User>, wanted: seq<User>)
    requires newdata.users == []
    requires Distinct(stored) && Distinct(wanted) && Disjoint(stored, wanted)
    modifies newdata`users, stored, wanted
    ensures multiset(Recs(newdata.users)) == multiset(PatchedUsers(old(Recs(stored)), old(Recs(wanted))))
    ensures Orderable(Recs(newdata.users)) ==> Ordered(Recs(newdata.users))
  {
    hide Before, Orderable, Ordered, Dropped, Marked;
    ghost var a := Recs(stored);
    DeletedUsers(newdata, stored, wanted);
    assert Alike(Recs(stored), a);
    FreshUsers(newdata, stored, wanted, a);
    newdata.users := SortUsers(newdata.users);
    MultisetAgain(PatchedUsers(a, old(Recs(wanted))), Recs(newdata.users));
  }

  lemma MultisetAgain(a: seq<UserRec>, b: seq<UserRec>)
    requires multiset(a) == multiset(b)
    ensures Orderable(a) <==> Orderable(b)
  {
    if Orderable(a) {
      OrderableAgain(a, b);
    }
    if Orderable(b) {
      OrderableAgain(b, a);
    }
  }

  // Builds the record to be stored and says whether the interface has to be built again.
  method PatchBrigadeCommon(wanted: BrigadeData, was: BrigadeData) returns (newdata: BrigadeData, needFull: bool)
    requires Separate(was, wanted)
    modifies was, wanted, was.users, wanted.users
    ensures Patched(old(RecordOf(was)), old(RecordOf(wanted)), RecordOf(newdata))
    ensures Orderable(Recs(newdata.users)) ==> Ordered(Recs(newdata.users))
    ensures needFull <==> NeedsFullReplay(old(was.info), old(wanted.info))
  {
    hide Sort, PatchedUsers, Orderable, Ordered, SomethingChanged;
    newdata := new BrigadeData(wanted.info, []);
    PatchUsers(newdata, was.users, wanted.users);
    ghost var users := Recs(newdata.users);

    was.info := was.info.(proto0FakeDomains := Sort(was.info.proto0FakeDomains));
    wanted.info := wanted.info.(proto0FakeDomains := Sort(wanted.info.proto0FakeDomains));
    // newdata was copied from wanted and shares the list that has just been sorted.
    newdata.info := newdata.info.(proto0FakeDomains := wanted.info.proto0FakeDomains);
    assert Recs(newdata.users) == users;

    needFull := SomethingChanged(was.info, wanted.info);
  }

  method DecodeRecord(rec: BrigadeRec) returns (d: BrigadeData)
    ensures fresh(d) && fresh(d.users) && Distinct(d.users) && RecordOf(d) == rec
  {
    var users := Decode(rec.users);
    d := new BrigadeData(rec.info, users);
  }

  // How the command can end: everything done, the mode changed and nothing replayed, a
  // failure, or (without the replay switch) a message which replay is due.
  datatype Exit = Done | NeedRestart | NeedFullReplay | Failed

  // What the first half of the command leaves in the storage.
  ghost predicate PatchLeaves(was: Stored, newfile: BrigadeRec, dryRun: bool, ok: bool, b: BrigadeRec, now: Stored) {
    if ok then
      was.worth.Readable? && Patched(was.rec, newfile, b) && now == if dryRun then was else InOrder(b)
    else
      NotOpened(was, now) || (!dryRun && Patched(was.rec, newfile, b) && Spoilt(was, b, now))
  }

  // Reads both records, patches, commits unless this is a dry run.
  method Do(db: Storage, newfile: BrigadeRec, dryRun: bool) returns (r: Exit, ghost b: BrigadeRec)
    modifies db`rec, db`worth, db`faults
    ensures db.faults == old(db.faults) + if r == Failed then 1 else 0
    ensures PatchLeaves(old(db.Now()), newfile, dryRun, r != Failed, b, db.Now())
    ensures r != Failed ==>
      r == if old(db.rec).info.mode != newfile.info.mode then NeedRestart
           else if NeedsFullReplay(old(db.rec).info, newfile.info) then NeedFullReplay
           else Done
  {
    hide NeedsFullReplay, Patched, Recs, Ordered;
    b := newfile;
    var ok := db.Open();
    if !ok {
      return Failed, b;
    }
    var wanted := DecodeRecord(newfile);
    var was := DecodeRecord(db.rec);
    var oldMode := was.info.mode;
    var newdata, needFull := PatchBrigadeCommon(wanted, was);
    b := RecordOf(newdata);
    if !dryRun {
      ok := db.Commit(newdata.info, newdata.users);
      if !ok {
        return Failed, b;
      }
    }
    if oldMode != newfile.info.mode {
      return NeedRestart, b;
    }
    return if needFull then NeedFullReplay else Done, b;
  }

  // What is left when the command fails: the patch may not have been stored, or it was and the
  // replay stopped somewhere.
  ghost predicate PatchFails(was: Stored, newfile: BrigadeRec, b: BrigadeRec, now: Stored) {
    || NotOpened(was, now)
    || (Patched(was.rec, newfile, b)
        && (Spoilt(was, b, now) || Spoilt(InOrder(b), Replayed(b, Pick(was.rec, newfile)), now)))
  }

  // The whole command. Calls go to the address calculated from the record as it was before the
  // patch. A run with the replay switch that ends well is a patch cycle, so it ends in step
  // exactly if it arrives at the endpoint the new record leads to.
  method PatchMain(db: Storage, api: EndpointApi, newfile: BrigadeRec, dryRun: bool, replay: bool, ghost was: World)
    returns (r: Exit, ghost b: BrigadeRec, ghost n: nat)
    requires was == World(db.rec, api.slots)
    modifies db, api
    ensures ReplayReached(was, newfile, b, n, api.slots)
    ensures dryRun || !replay || r == NeedRestart ==> n == 0 && api.slots == was.slots
    ensures !dryRun && replay ==> r != NeedFullReplay
    ensures db.faults + api.faults == old(db.faults + api.faults) + if r == Failed then 1 else 0
    ensures r == Failed ==> PatchFails(old(db.Now()), newfile, b, db.Now())
    ensures r != Failed && dryRun ==> db.Now() == old(db.Now())
    ensures r != Failed && !dryRun ==> Patched(was.rec, newfile, b) && db.worth.Readable?
    ensures r != Failed && !dryRun && (!replay || r == NeedRestart) ==> db.rec == b
    ensures r == Done && !dryRun && replay ==>
      && CycleEnds(was, World(db.rec, api.slots), newfile, b)
      && (InStep(was) && Fresh(newfile) ==>
            && Serves(GetSlot(api.slots, Called(was.rec.info, newfile.info)), Live(newfile), newfile.info.keydeskIPv6)
            && (InStep(World(db.rec, api.slots)) <==> Arrives(was, newfile)))
  {
    hide NeedsFullReplay, Patched, InStep, Serves, Script, CalcAPIAddr, Replayed, Arrives, Fresh, Live, Spoilt;
    b, n := newfile, 0;
    NotReplayed(was, newfile, b);
    var ok := db.SelfCheckAndInit(None);
    if !ok {
      return Failed, b, n;
    }
    r, b := Do(db, newfile, dryRun);
    NotReplayed(was, newfile, b);
    if r == Failed || dryRun || !replay || r == NeedRestart {
      return;
    }
    var m := if r == NeedFullReplay then FULL else DELAYED_ONLY;
    PatchedInterface(was.rec, newfile, b);
    ghost var job := Job(Called(was.rec.info, newfile.info), api.slots, api.log, Script(b, m));
    ok, n := ReplayBrigade.ReplayBrigade(db, api, m, job);
    if !ok {
      return Failed, b, n;
    }
    assert job.script[..n] == job.script;
    if InStep(was) && Fresh(newfile) {
      FreshCycle(was, World(db.rec, api.slots), newfile, b);
    }
    return Done, b, n;
  }

  lemma FreshCycle(was: World, now: World, newfile: BrigadeRec, b: BrigadeRec)
    requires InStep(was) && Fresh(newfile) && Patched(was.rec, newfile, b) && CycleEnds(was, now, newfile, b)
    ensures Serves(GetSlot(now.slots, Called(was.rec.info, newfile.info)), Live(newfile), newfile.info.keydeskIPv6)
    ensures InStep(now) <==> Arrives(was, newfile)
  {
    hide InStep, Serves, CycleEnds, Patched, Arrives, Live;
    CycleInStep(was, now, newfile);
  }

  lemma NotReplayed(was: World, newfile: BrigadeRec, b: BrigadeRec)
    ensures ReplayReached(was, newfile, b, 0, was.slots)
  {
    hide Script;
    var script := Script(b, Pick(was.rec, newfile));
    assert script[..0] == [];
  }

  lemma PatchedInterface(was: BrigadeRec, wanted: BrigadeRec, b: BrigadeRec)
    requires Patched(was, wanted, b)
    ensures b.info.wgPublicKey == wanted.info.wgPublicKey
  {
  }
}
