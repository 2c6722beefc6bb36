// A brigade under everything that changes it: registry operations and patches in any order.

module Whole {
  import opened Brigade
  import opened Endpoint
  import opened Replay
  import opened Order
  import opened Peers
  import opened Registry
  import C = Convergence
  import R = RegistryRuns

  datatype Event =
    | Patch(file: BrigadeRec)
    | Completed(op: Op, added: UserInfo)
    | Failed(op: Op, added: UserInfo, n: nat)

  // How a registry operation sees the world: its calls go where the stored record leads to.
  function View(w: C.World): R.World {
    R.World(w.rec, GetSlot(w.slots, Home(w.rec.info)), {})
  }

  // The registry's part of a world after an operation, the keys at which it differs aside.
  ghost predicate Operated(w: C.World, w': C.World, after: R.World) {
    var home := Home(w.rec.info);
    w'.rec == after.rec && C.OnlyAt(home, w.slots, w'.slots, after.slot)
  }

  // Both ciphertexts of a new user's secrets are made from the same secrets.
  ghost predicate Happens(w: C.World, e: Event, w': C.World, salt: bv32, max: nat) {
    match e
    case Patch(file) => C.PatchCycle(w, w', file)
    case Completed(op, added) =>
      && Prefixed(w.rec.info) && (op.Create? ==> op.form.Coherent())
      && exists after :: R.Completes(View(w), op, added, after, salt, max) && Operated(w, w', after)
    case Failed(op, added, n) =>
      && Prefixed(w.rec.info)
      && exists after :: R.Fails(View(w), op, added, n, after, salt, max) && Operated(w, w', after)
  }

  // The event leaves the stored record and the endpoint it leads to in step: a patch whose replay
  // arrives there; an operation that completes; one that fails before a call took effect, or
  // after the drop of a blocked brigadier alone.
  ghost predicate Well(w: C.World, e: Event) {
    match e
    case Patch(file) => C.Arrives(w, file)
    case Completed(_, _) => true
    case Failed(op, _, n) =>
      var i := Find(w.rec.users, ABrigadier);
      n == 0 || (n == 1 && Replaces(op) && i < |w.rec.users| && w.rec.users[i].isBlocked)
  }

  // An endpoint that serves the users differs from the record nowhere.
  lemma ServedIsTracked(s: Slot, b: BrigadeRec)
    requires Serves(s, b.users, b.info.keydeskIPv6) && UniqueKeys(b.users)
    ensures R.Tracked(R.World(b, s, {}))
  {
    hide PeerOf, PeerFor, Lookup;
    var kd := b.info.keydeskIPv6;
    C.ServesUp(s, b.users, kd);
    ServesByKey(s, b.users, kd);
    forall k ensures R.Agrees(s, b.users, kd, k) {
      assert Lookup(s, k) == PeerFor(b.users, kd, k);
    }
    forall i | 0 <= i < |b.users| ensures R.Own(Lookup(s, b.users[i].Key()), b.users[i], kd) {
      R.Asked(b.users, i, kd);
    }
  }

  lemma TrackedServes(w: R.World)
    requires R.Tracked(w)
    ensures UniqueKeys(w.rec.users)
    ensures Serves(w.slot, w.rec.users, w.rec.info.keydeskIPv6) <==> w.drift == {}
  {
    hide UniqueKeys, Serves, R.AgreesBut;
    R.AgreesServes(w.slot, w.rec, w.drift);
  }

  ghost predicate AllCoherent(users: seq<UserRec>) {
    forall u :: u in users ==> u.info.Coherent()
  }

  // A completed operation stores users with the secrets they had or were created with.
  lemma PlanCoherent(op: Op, b: BrigadeRec, salt: bv32, max: nat, added: UserInfo)
    requires Prefixed(b.info) && Allowed(op, b, salt, max, added) && AllCoherent(b.users)
    requires op.Create? ==> op.form.Coherent()
    ensures AllCoherent(PlanOf(op, b, added).users)
  {
    hide PeerOf, Find, Meets, UserInfo.Coherent;
    if op.Create? {
      AddedCoherent(op, b, salt, max, added);
      hide Allowed;
      assert forall u :: u in Base(op, b.users).users ==> u in b.users;
    }
  }

  lemma AddedCoherent(op: Op, b: BrigadeRec, salt: bv32, max: nat, added: UserInfo)
    requires Prefixed(b.info) && op.Create? && Allowed(op, b, salt, max, added) && op.form.Coherent()
    ensures added.Coherent()
  {
    hide Placed, Taken4, Taken6, Ids, Refusal, Find, Removal;
  }

  // ----- each kind of event -----

  lemma InStepParts(w: C.World)
    ensures C.InStep(w) <==> AllCoherent(w.rec.users) && UniqueKeys(w.rec.users)
                             && Serves(View(w).slot, w.rec.users, w.rec.info.keydeskIPv6)
  {
    hide Serves, UniqueKeys, UserInfo.Coherent, GetSlot, Home;
  }

  lemma CompletionInStep(w: C.World, op: Op, added: UserInfo, w': C.World, after: R.World, salt: bv32, max: nat)
    requires C.InStep(w) && Prefixed(w.rec.info) && (op.Create? ==> op.form.Coherent())
    requires R.Completes(View(w), op, added, after, salt, max) && Operated(w, w', after)
    ensures C.InStep(w')
  {
    hide C.InStep, Serves, UniqueKeys, AllCoherent, PlanOf, Allowed, ApplyAll, R.KeysOf, GetSlot, CalcAPIAddr;
    hide R.Tracked, R.Unknown, UserInfo.Coherent;
    InStepParts(w);
    ServedIsTracked(View(w).slot, w.rec);
    R.CompletionTracks(View(w), op, added, after, salt, max);
    TrackedServes(after);
    PlanCoherent(op, w.rec, salt, max, added);
    InStepParts(w');
  }

  lemma FailureInStep(w: C.World, op: Op, added: UserInfo, n: nat, w': C.World, after: R.World, salt: bv32, max: nat)
    requires C.InStep(w) && Prefixed(w.rec.info)
    requires R.Fails(View(w), op, added, n, after, salt, max) && Operated(w, w', after)
    ensures C.InStep(w') <==> Well(w, Failed(op, added, n))
  {
    hide C.InStep, Serves, UniqueKeys, AllCoherent, PlanOf, ApplyAll, R.DriftAfterFailure, GetSlot, CalcAPIAddr;
    hide R.Tracked, R.Unknown, Find, Allowed;
    InStepParts(w);
    ServedIsTracked(View(w).slot, w.rec);
    R.FailureServes(View(w), op, added, n, after, salt, max);
    InStepParts(w');
  }

  lemma EventInStep(w: C.World, e: Event, w': C.World, salt: bv32, max: nat)
    requires C.InStep(w) && Happens(w, e, w', salt, max)
    ensures C.InStep(w') <==> Well(w, e)
  {
    hide C.InStep, C.PatchCycle, C.Arrives, GetSlot, Home, Operated, Find, R.Completes, R.Fails;
    match e
    case Patch(file) => C.CycleInStep(w, w', file);
    case Completed(op, added) =>
      var after :| R.Completes(View(w), op, added, after, salt, max) && Operated(w, w', after);
      CompletionInStep(w, op, added, w', after, salt, max);
    case Failed(op, added, n) =>
      var after :| R.Fails(View(w), op, added, n, after, salt, max) && Operated(w, w', after);
      FailureInStep(w, op, added, n, w', after, salt, max);
  }

  // Over any run of registry operations and patches, in any order and with any failures of the
  // operations, the endpoint that the stored record leads to serves exactly its unblocked users
  // throughout if and only if every event leaves it so.
  lemma {:induction false} EveryRunInStep(run: seq<C.World>, events: seq<Event>, salt: bv32, max: nat)
    requires |run| == |events| + 1 && C.InStep(run[0])
    requires forall i :: 0 <= i < |events| ==> Happens(run[i], events[i], run[i + 1], salt, max)
    ensures (forall k :: 0 <= k < |run| ==> C.InStep(run[k])) <==>
            (forall i :: 0 <= i < |events| ==> Well(run[i], events[i]))
    decreases |events|
  {
    hide C.InStep, Happens, Well;
    if events != [] {
      var n := |events| - 1;
      var before, early := run[..n + 1], events[..n];
      EveryRunInStep(before, early, salt, max);
      assert forall i :: 0 <= i <= n ==> before[i] == run[i];
      assert forall i :: 0 <= i < n ==> early[i] == events[i];
      if C.InStep(run[n]) {
        EventInStep(run[n], events[n], run[n + 1], salt, max);
      }
    }
  }
}
