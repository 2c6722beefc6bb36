// The file database: names, inodes and contents, one file-system call per step, and a crash
// possible between any two of them.

module FileDb {
  datatype Name = Main | Tmp | Bak

  // A file holds one complete encoded version, or something that does not decode: nothing
  // at all, or the beginning of a version.
  datatype Content = Complete(version: nat) | Partial

  datatype Disk = Disk(names: map<Name, nat>, files: map<nat, Content>)
  {
    // Every name leads to a file.
    ghost predicate WellFormed() {
      forall n :: n in names ==> names[n] in files
    }

    predicate Holds(n: Name, c: Content) {
      n in names && names[n] in files && files[names[n]] == c
    }

    // Opening with O_CREATE: an existing file is kept as it is.
    ghost predicate Created(n: Name, d: Disk) {
      if n in names then d == this
      else exists i: nat :: i !in files && d == Disk(names[n := i], files[i := Partial])
    }

    function Removed(n: Name): Disk {
      this.(names := names - {n})
    }

    // A second name for a file; the new name must be free.
    function Linked(n: Name, to: Name): Disk
      requires n in names && to !in names
    {
      this.(names := names[to := names[n]])
    }

    function Written(i: nat, c: Content): Disk {
      this.(files := files[i := c])
    }
  }

  // Where the one process that holds the spinlock stands. The inode is the one its write
  // handle is open on; the version is the one it has decoded.
  datatype Stage =
    | Idle
    | Locked
    | OpenedTmp(w: nat)
    | Truncated(w: nat)
    | OpenedMain(w: nat)
    | Decoded(w: nat, v: nat)
    | BakRemoved(w: nat, v: nat)
    | BackedUp(w: nat, v: nat)
    | Encoding(w: nat, v: nat)
    | Encoded(w: nat, v: nat)
    | MainRemoved(w: nat, v: nat)
    | NewLinked(w: nat, v: nat)
    | Committed(w: nat, v: nat)

  // The newest version that main has named so far is remembered for the statements.
  datatype State = State(disk: Disk, stage: Stage, newest: nat)

  datatype Act =
    | Lock | OpenTmp | Truncate | OpenMain | Decode
    | DropBak | LinkBak | Encode | FinishEncode
    | DropMain | LinkMain | DropTmp
    | Crash  // or an error, or Close: the process is gone, the files stay

  // One step of a session. An exclusive lock is held on the inode of the write handle, so
  // opening main blocks for ever when main is a name of the same file: flock locks belong
  // to the open file, and the second open asks for a shared one.
  ghost predicate Step(s: State, a: Act, t: State) {
    && (a != LinkMain ==> t.newest == s.newest)
    && match a
       case Lock => s.stage == Idle && t.stage == Locked && t.disk == s.disk
       case OpenTmp =>
         && s.stage == Locked && s.disk.Created(Tmp, t.disk)
         && Tmp in t.disk.names && t.stage == OpenedTmp(t.disk.names[Tmp])
       case Truncate =>
         && s.stage.OpenedTmp? && t.stage == Truncated(s.stage.w)
         && t.disk == s.disk.Written(s.stage.w, Partial)
       case OpenMain =>
         && s.stage.Truncated? && s.disk.Created(Main, t.disk)
         && Main in t.disk.names && t.disk.names[Main] != s.stage.w
         && t.stage == OpenedMain(s.stage.w)
       case Decode =>
         && s.stage.OpenedMain? && t.disk == s.disk
         && exists v :: s.disk.Holds(Main, Complete(v)) && t.stage == Decoded(s.stage.w, v)
       case DropBak =>
         && s.stage.Decoded? && t.disk == s.disk.Removed(Bak)
         && t.stage == BakRemoved(s.stage.w, s.stage.v)
       case LinkBak =>
         && s.stage.BakRemoved? && Main in s.disk.names && Bak !in s.disk.names
         && t.disk == s.disk.Linked(Main, Bak) && t.stage == BackedUp(s.stage.w, s.stage.v)
       case Encode =>
         && s.stage.BackedUp? && t.disk == s.disk.Written(s.stage.w, Partial)
         && t.stage == Encoding(s.stage.w, s.stage.v)
       case FinishEncode =>
         && s.stage.Encoding? && t.disk == s.disk.Written(s.stage.w, Complete(s.stage.v + 1))
         && t.stage == Encoded(s.stage.w, s.stage.v + 1)
       case DropMain =>
         && s.stage.Encoded? && t.disk == s.disk.Removed(Main)
         && t.stage == MainRemoved(s.stage.w, s.stage.v)
       case LinkMain =>
         && s.stage.MainRemoved? && Tmp in s.disk.names && Main !in s.disk.names
         && t.disk == s.disk.Linked(Tmp, Main) && t.stage == NewLinked(s.stage.w, s.stage.v)
         && t.newest == s.stage.v
       case DropTmp =>
         && s.stage.NewLinked? && t.disk == s.disk.Removed(Tmp)
         && t.stage == Committed(s.stage.w, s.stage.v)
       case Crash => t.stage == Idle && t.disk == s.disk
  }

  // A committed database with no tmp name left over.
  ghost predicate Initial(s: State) {
    && s.stage == Idle && s.disk.WellFormed()
    && s.disk.Holds(Main, Complete(s.newest)) && Tmp !in s.disk.names
  }

  // Two names of one file.
  predicate Shared(d: Disk, a: Name, b: Name) {
    a in d.names && b in d.names && d.names[a] == d.names[b]
  }

  // The three conditions a database can be in between sessions.

  // Main holds the newest version and nothing else writes to its file.
  ghost predicate Healthy(s: State) {
    s.disk.Holds(Main, Complete(s.newest)) && !Shared(s.disk, Main, Tmp)
  }

  // A commit died before the new main was linked. Main is gone or empty; the backup is the
  // newest version.
  ghost predicate Torn(s: State) {
    && s.disk.Holds(Bak, Complete(s.newest))
    && (Main in s.disk.names ==> s.disk.Holds(Main, Partial) && !Shared(s.disk, Main, Tmp))
  }

  // A commit died before tmp was removed. Main and tmp are one file, which the next open
  // empties; the backup is the version before.
  ghost predicate Aliased(s: State) {
    && s.newest > 0 && s.disk.Holds(Bak, Complete(s.newest - 1)) && Shared(s.disk, Main, Tmp)
    && (s.disk.Holds(Main, Complete(s.newest)) || s.disk.Holds(Main, Partial))
  }

  // The session has decoded and main is what it decoded.
  ghost predicate Reading(s: State, w: nat, v: nat) {
    Healthy(s) && v == s.newest && w != s.disk.names[Main]
  }

  ghost predicate Inv(s: State) {
    && s.disk.WellFormed()
    && !Shared(s.disk, Tmp, Bak)
    && (s.stage.Idle? || s.stage.Locked? || s.stage.Committed?
        || (Tmp in s.disk.names && s.disk.names[Tmp] == s.stage.w))
    && match s.stage
       case Idle => Healthy(s) || Torn(s) || Aliased(s)
       case Locked => Healthy(s) || Torn(s) || Aliased(s)
       case OpenedTmp(_) => Healthy(s) || Torn(s) || Aliased(s)
       case Truncated(_) => Healthy(s) || Torn(s) || Aliased(s)
       case OpenedMain(w) => (Healthy(s) || Torn(s)) && Main in s.disk.names
       case Decoded(w, v) => Reading(s, w, v)
       case BakRemoved(w, v) => Reading(s, w, v) && Bak !in s.disk.names
       case BackedUp(w, v) => Reading(s, w, v) && Shared(s.disk, Main, Bak)
       case Encoding(w, v) => Reading(s, w, v) && Shared(s.disk, Main, Bak)
       case Encoded(w, v) =>
         v > 0 && Reading(s, w, v - 1) && Shared(s.disk, Main, Bak) && s.disk.Holds(Tmp, Complete(v))
       case MainRemoved(w, v) =>
         && v == s.newest + 1 && Main !in s.disk.names
         && s.disk.Holds(Bak, Complete(s.newest)) && s.disk.Holds(Tmp, Complete(v))
       case NewLinked(w, v) => Aliased(s) && v == s.newest && s.disk.Holds(Main, Complete(v))
       case Committed(w, v) => Healthy(s) && Tmp !in s.disk.names && s.disk.names[Main] == w && v == s.newest
  }

  lemma InitialInv(s: State)
    requires Initial(s)
    ensures Inv(s)
  {
  }

  lemma StepKeepsInv(s: State, a: Act, t: State)
    requires Inv(s) && Step(s, a, t)
    ensures Inv(t)
  {
  }

  // ----- all runs -----

  ghost predicate IsRun(run: seq<State>, acts: seq<Act>) {
    |run| == |acts| + 1 && forall i :: 0 <= i < |acts| ==> Step(run[i], acts[i], run[i + 1])
  }

  // Main or bak holds a complete version, the newest one or the one before it.
  ghost predicate Safe(s: State) {
    exists n, v: nat :: n != Tmp && s.disk.Holds(n, Complete(v)) && s.newest <= v + 1
  }

  lemma InvIsSafe(s: State)
    requires Inv(s)
    ensures Safe(s)
  {
    if s.disk.Holds(Main, Complete(s.newest)) {
    } else if s.disk.Holds(Bak, Complete(s.newest)) {
    } else {
      assert s.disk.Holds(Bak, Complete(s.newest - 1));
    }
  }

  // Whatever sessions there are and wherever they die, main or bak is a complete version no
  // older than the one before the last commit.
  lemma {:induction false} EveryRunIsSafe(run: seq<State>, acts: seq<Act>)
    requires IsRun(run, acts) && Initial(run[0])
    ensures forall i :: 0 <= i < |run| ==> Inv(run[i]) && Safe(run[i])
    decreases |acts|
  {
    hide Inv, Safe, Step;
    if acts == [] {
      InitialInv(run[0]);
      InvIsSafe(run[0]);
    } else {
      var n := |acts|;
      EveryRunIsSafe(run[..n], acts[..n - 1]);
      assert Inv(run[..n][n - 1]);
      StepKeepsInv(run[n - 1], acts[n - 1], run[n]);
      InvIsSafe(run[n]);
      forall i | 0 <= i < |run| ensures Inv(run[i]) && Safe(run[i]) {
        if i < n {
          assert run[i] == run[..n][i];
        }
      }
    }
  }

  // ----- which crashes can be recovered from -----

  // No session is past its decode, and none ever will be.
  ghost predicate Dead(s: State) {
    && Inv(s) && (Torn(s) || Aliased(s)) && !Healthy(s)
    && (s.stage.Idle? || s.stage.Locked? || s.stage.OpenedTmp? || s.stage.Truncated? || s.stage.OpenedMain?)
    && (Aliased(s) ==> !s.stage.OpenedMain?)
  }

  lemma DeadStaysDead(s: State, a: Act, t: State)
    requires Dead(s) && Step(s, a, t)
    ensures Dead(t) && !t.stage.Decoded?
  {
    StepKeepsInv(s, a, t);
  }

  lemma {:induction false} DeadForEver(run: seq<State>, acts: seq<Act>)
    requires IsRun(run, acts) && Dead(run[0])
    ensures forall i :: 0 <= i < |run| ==> Dead(run[i]) && !run[i].stage.Decoded?
    decreases |acts|
  {
    hide Dead, Step;
    if acts == [] {
      DeadIsEarly(run[0]);
    } else {
      var n := |acts|;
      DeadForEver(run[..n], acts[..n - 1]);
      assert Dead(run[..n][n - 1]);
      DeadStaysDead(run[n - 1], acts[n - 1], run[n]);
      forall i | 0 <= i < |run| ensures Dead(run[i]) && !run[i].stage.Decoded? {
        if i < n {
          assert run[i] == run[..n][i];
        }
      }
    }
  }

  lemma DeadIsEarly(s: State)
    requires Dead(s)
    ensures !s.stage.Decoded?
  {
  }

  // After the truncation of a shared file the second open blocks: only a crash is possible,
  // and the process still holds the spinlock.
  lemma SharedOpenBlocks(s: State, a: Act, t: State)
    requires Inv(s) && Aliased(s) && s.stage.Truncated? && Step(s, a, t)
    ensures a == Crash
  {
  }

  // Main and tmp are one file, and nobody has got past the open.
  ghost predicate Stuck(s: State) {
    Inv(s) && Aliased(s) && (s.stage.Idle? || s.stage.Locked? || s.stage.OpenedTmp? || s.stage.Truncated?)
  }

  lemma StuckStays(s: State, a: Act, t: State)
    requires Stuck(s) && Step(s, a, t)
    ensures Stuck(t)
  {
    StepKeepsInv(s, a, t);
    if s.stage.Truncated? {
      SharedOpenBlocks(s, a, t);
    }
  }

  // Once main and tmp are one file, no session ever gets its handle on main: every one of them
  // ends, by a crash, before its open has returned.
  lemma {:induction false} EveryOpenBlocks(run: seq<State>, acts: seq<Act>)
    requires IsRun(run, acts) && Stuck(run[0])
    ensures forall i :: 0 <= i < |run| ==> Stuck(run[i])
    decreases |acts|
  {
    hide Stuck, Step;
    if acts != [] {
      var n := |acts|;
      EveryOpenBlocks(run[..n], acts[..n - 1]);
      assert Stuck(run[..n][n - 1]);
      StuckStays(run[n - 1], acts[n - 1], run[n]);
      forall i | 0 <= i < |run| ensures Stuck(run[i]) {
        if i < n {
          assert run[i] == run[..n][i];
        }
      }
    }
  }

  function Crashed(s: State): State {
    s.(stage := Idle)
  }

  // A session can decode the newest version from here.
  ghost predicate Recovers(s: State) {
    exists run, acts :: IsRun(run, acts) && run[0] == s && Recovered(run[|run| - 1], s.newest)
  }

  ghost predicate Recovered(s: State, v: nat) {
    s.stage.Decoded? && s.stage.v == v
  }

  lemma HealthyRecovers(s: State)
    requires s.disk.WellFormed() && s.stage == Idle && Healthy(s)
    ensures Recovers(s)
  {
    var d := s.disk;
    var w: nat := if Tmp in d.names then d.names[Tmp] else Unused(d.files.Keys);
    var d1 := if Tmp in d.names then d else Disk(d.names[Tmp := w], d.files[w := Partial]);
    assert d.Created(Tmp, d1) by {
      assert Tmp !in d.names ==> w !in d.files;
    }
    var d2 := d1.Written(w, Partial);
    assert d2.Holds(Main, Complete(s.newest));
    var s1, s2, s3 := s.(stage := Locked), State(d1, OpenedTmp(w), s.newest), State(d2, Truncated(w), s.newest);
    var s4, s5 := s3.(stage := OpenedMain(w)), s3.(stage := Decoded(w, s.newest));
    assert Step(s, Lock, s1);
    assert Step(s1, OpenTmp, s2);
    assert Step(s2, Truncate, s3);
    assert Step(s3, OpenMain, s4);
    assert Step(s4, Decode, s5);
    ReadingRun(s, s1, s2, s3, s4, s5);
  }

  lemma ReadingRun(s: State, s1: State, s2: State, s3: State, s4: State, s5: State)
    requires Step(s, Lock, s1) && Step(s1, OpenTmp, s2) && Step(s2, Truncate, s3)
    requires Step(s3, OpenMain, s4) && Step(s4, Decode, s5) && Recovered(s5, s.newest)
    ensures Recovers(s)
  {
    hide Step, Recovered;
    var run, acts := [s, s1, s2, s3, s4, s5], [Lock, OpenTmp, Truncate, OpenMain, Decode];
    assert IsRun(run, acts) && run[|run| - 1] == s5;
  }

  // An inode number that is not in use.
  ghost function Unused(s: set<nat>): (i: nat)
    ensures forall x :: x in s ==> x < i
  {
    if s == {} then 0
    else
      var x :| x in s;
      assert forall y :: y in s ==> y == x || y in s - {x};
      var i := Unused(s - {x});
      if x < i then i else x + 1
  }

  // Unless the database is dead already, a crash can be recovered from exactly when it does
  // not hit the commit between the removal of main and the removal of tmp.
  lemma CrashIsRecoverable(s: State)
    requires Inv(s) && !Dead(s)
    ensures Recovers(Crashed(s)) <==> !s.stage.MainRemoved? && !s.stage.NewLinked?
  {
    var c := Crashed(s);
    if s.stage.MainRemoved? || s.stage.NewLinked? {
      assert Dead(c);
      forall run, acts | IsRun(run, acts) && run[0] == c ensures !Recovered(run[|run| - 1], s.newest) {
        DeadForEver(run, acts);
      }
    } else {
      HealthyRecovers(c);
    }
  }

  // A session on a database that was just created, step by step.
  const D0 := Disk(map[Main := 0], map[0 := Complete(0)])
  const D1 := Disk(map[Main := 0, Tmp := 1], map[0 := Complete(0), 1 := Partial])
  const D2 := Disk(map[Main := 0, Tmp := 1, Bak := 0], map[0 := Complete(0), 1 := Partial])
  const D3 := Disk(map[Main := 0, Tmp := 1, Bak := 0], map[0 := Complete(0), 1 := Complete(1)])
  const D4 := Disk(map[Tmp := 1, Bak := 0], map[0 := Complete(0), 1 := Complete(1)])
  const D5 := Disk(map[Main := 1, Tmp := 1, Bak := 0], map[0 := Complete(0), 1 := Complete(1)])

  const SESSION := [State(D0, Idle, 0), State(D0, Locked, 0), State(D1, OpenedTmp(1), 0), State(D1, Truncated(1), 0),
                    State(D1, OpenedMain(1), 0), State(D1, Decoded(1, 0), 0), State(D1, BakRemoved(1, 0), 0),
                    State(D2, BackedUp(1, 0), 0), State(D2, Encoding(1, 0), 0), State(D3, Encoded(1, 1), 0),
                    State(D4, MainRemoved(1, 1), 0), State(D5, NewLinked(1, 1), 1)]

  const ACTS := [Lock, OpenTmp, Truncate, OpenMain, Decode, DropBak, LinkBak, Encode, FinishEncode, DropMain, LinkMain]

  lemma SessionOpens(i: nat)
    requires i < 5
    ensures Step(SESSION[i], ACTS[i], SESSION[i + 1])
  {
    if i == 0 {
    } else if i == 1 {
      assert 1 !in D0.files;
      assert D1 == Disk(D0.names[Tmp := 1], D0.files[1 := Partial]);
    } else if i == 2 {
      assert D1.Written(1, Partial) == D1;
    } else if i == 3 {
    } else {
      assert D1.Holds(Main, Complete(0));
    }
  }

  lemma SessionBacksUp(i: nat)
    requires 5 <= i < 7
    ensures Step(SESSION[i], ACTS[i], SESSION[i + 1])
  {
    if i == 5 {
      assert D1.Removed(Bak) == D1;
    } else {
      assert D1.Linked(Main, Bak) == D2;
    }
  }

  lemma SessionSaves(i: nat)
    requires 7 <= i < 9
    ensures Step(SESSION[i], ACTS[i], SESSION[i + 1])
  {
    if i == 7 {
      assert D2.Written(1, Partial) == D2;
    } else {
      assert D2.Written(1, Complete(1)) == D3;
    }
  }

  lemma SessionCommits(i: nat)
    requires 9 <= i < 11
    ensures Step(SESSION[i], ACTS[i], SESSION[i + 1])
  {
    if i == 9 {
      assert D3.Removed(Main) == D4;
    } else {
      assert D4.Linked(Tmp, Main) == D5;
    }
  }

  // Its commit dies at the first of two steps, and main is gone; or at the second, and main and
  // tmp are one file. Either database is dead.
  lemma CommitsThatKill()
    ensures Initial(SESSION[0]) && IsRun(SESSION, ACTS)
    ensures Step(SESSION[10], Crash, Crashed(SESSION[10])) && Dead(Crashed(SESSION[10])) && Torn(SESSION[10])
    ensures Step(SESSION[11], Crash, Crashed(SESSION[11])) && Dead(Crashed(SESSION[11])) && Aliased(SESSION[11])
  {
    CommitsKill();
    hide Step, Dead, Torn, Aliased;
    forall i | 0 <= i < |ACTS| ensures Step(SESSION[i], ACTS[i], SESSION[i + 1]) {
      if i < 5 {
        SessionOpens(i);
      } else if i < 7 {
        SessionBacksUp(i);
      } else if i < 9 {
        SessionSaves(i);
      } else {
        SessionCommits(i);
      }
    }
  }

  lemma CommitsKill()
    ensures Step(SESSION[10], Crash, Crashed(SESSION[10])) && Dead(Crashed(SESSION[10])) && Torn(SESSION[10])
    ensures Step(SESSION[11], Crash, Crashed(SESSION[11])) && Dead(Crashed(SESSION[11])) && Aliased(SESSION[11])
  {
  }

  // What a database is worth between sessions, seen from outside: a session can read main;
  // main is the new version, but the next open empties it; main is missing or empty.
  datatype Worth = Readable | Doomed | Gone

  ghost function WorthOf(s: State): Worth {
    if Healthy(s) then Readable
    else if Aliased(s) && s.disk.Holds(Main, Complete(s.newest)) then Doomed
    else Gone
  }

  // A session can decode the newest version exactly when main is readable.
  lemma OpensExactly(s: State)
    requires Inv(s) && s.stage == Idle
    ensures Recovers(s) <==> WorthOf(s) == Readable
  {
    if WorthOf(s) == Readable {
      HealthyRecovers(s);
    } else {
      assert Dead(s);
      forall run, acts | IsRun(run, acts) && run[0] == s ensures !Recovered(run[|run| - 1], s.newest) {
        DeadForEver(run, acts);
      }
    }
  }

  // An open that gets as far as emptying tmp takes a doomed main with it.
  lemma OpeningDoomed(s: State, t: State)
    requires Inv(s) && s.stage.OpenedTmp? && Step(s, Truncate, t)
    ensures WorthOf(Crashed(t)) == if WorthOf(Crashed(s)) == Doomed then Gone else WorthOf(Crashed(s))
  {
  }

  // The same worth, but for a doomed main that an open has emptied.
  predicate NoWorse(was: Worth, now: Worth) {
    now == was || (was == Doomed && now == Gone)
  }

  // Outside the commit no step makes a readable main unreadable, or an unreadable one readable.
  lemma StepKeepsWorth(s: State, a: Act, t: State)
    requires Inv(s) && Step(s, a, t)
    requires a != DropMain && a != LinkMain && a != DropTmp
    ensures t.newest == s.newest && NoWorse(WorthOf(Crashed(s)), WorthOf(Crashed(t)))
  {
    if a == Truncate {
      OpeningDoomed(s, t);
    } else {
      StepKeepsInv(s, a, t);
    }
  }

  // The four ways a commit can end, by the step it reached: nothing changed, main is gone,
  // main is the new version but doomed, done.
  lemma CommitEndings(s: State)
    requires Inv(s)
    ensures s.stage.Encoded? ==> WorthOf(Crashed(s)) == Readable && s.stage.v == s.newest + 1
    ensures s.stage.MainRemoved? ==> WorthOf(Crashed(s)) == Gone && s.stage.v == s.newest + 1
    ensures s.stage.NewLinked? ==> WorthOf(Crashed(s)) == Doomed && s.stage.v == s.newest
    ensures s.stage.Committed? ==> WorthOf(Crashed(s)) == Readable && s.stage.v == s.newest
  {
  }

  // What a session has made of the database by the time it stands at a stage: nothing worse than
  // an emptied main before its decode, which needs a readable one; nothing more before its commit;
  // and in the commit what its steps leave.
  ghost predicate SoFar(s: State, t: State) {
    var was, now := WorthOf(Crashed(s)), WorthOf(Crashed(t));
    match t.stage
    case Idle => Left(s, t)
    case Locked => t.newest == s.newest && NoWorse(was, now)
    case OpenedTmp(_) => t.newest == s.newest && NoWorse(was, now)
    case Truncated(_) => t.newest == s.newest && NoWorse(was, now)
    case OpenedMain(_) => t.newest == s.newest && NoWorse(was, now)
    case MainRemoved(_, _) => was == Readable && t.newest == s.newest && now == Gone
    case NewLinked(_, _) => was == Readable && t.newest == s.newest + 1 && now == Doomed
    case Committed(_, _) => was == Readable && t.newest == s.newest + 1 && now == Readable
    case _ => was == Readable && t.newest == s.newest && now == Readable
  }

  // What a session can leave: a main that is no worse; none; the next version, doomed or not.
  ghost predicate Left(s: State, t: State) {
    var was, now := WorthOf(Crashed(s)), WorthOf(Crashed(t));
    || (t.newest == s.newest && NoWorse(was, now))
    || (was == Readable && t.newest == s.newest && now == Gone)
    || (was == Readable && t.newest == s.newest + 1 && now != Gone)
  }

  // One session: it starts idle and is idle again at the end at most.
  ghost predicate IsSession(run: seq<State>, acts: seq<Act>) {
    && IsRun(run, acts) && run[0].stage == Idle
    && forall i :: 0 < i < |acts| ==> run[i].stage != Idle
  }

  lemma SessionStep(s: State, t: State, a: Act, u: State)
    requires Inv(t) && Step(t, a, u) && SoFar(s, t) && (t.stage != Idle || t == s) && s.stage == Idle && Inv(s)
    ensures SoFar(s, u)
  {
    hide WorthOf, Healthy, Torn, Aliased, Shared, Reading;
    StepKeepsInv(t, a, u);
    CommitEndings(t);
    CommitEndings(u);
    if a != DropMain && a != LinkMain && a != DropTmp {
      StepKeepsWorth(t, a, u);
    }
    if a == Decode {
      DecodesReadable(t, a, u);
    }
    hide Inv;
  }

  lemma DecodesReadable(s: State, a: Act, t: State)
    requires Inv(s) && Step(s, a, t) && a == Decode
    ensures WorthOf(Crashed(s)) == Readable
  {
  }

  // Every session, wherever it dies, leaves what its last stage says.
  lemma {:induction false} SessionLeaves(run: seq<State>, acts: seq<Act>)
    requires IsSession(run, acts) && Inv(run[0])
    ensures Inv(run[|acts|]) && SoFar(run[0], run[|acts|])
    decreases |acts|
  {
    hide Inv, SoFar, Step;
    if acts == [] {
      NothingSoFar(run[0]);
    } else {
      var n := |acts|;
      SessionLeaves(run[..n], acts[..n - 1]);
      StepKeepsInv(run[n - 1], acts[n - 1], run[n]);
      assert n - 1 > 0 ==> run[n - 1].stage != Idle;
      SessionStep(run[0], run[n - 1], acts[n - 1], run[n]);
    }
  }

  predicate Early(stage: Stage) {
    stage.Idle? || stage.Locked? || stage.OpenedTmp? || stage.Truncated? || stage.OpenedMain?
  }

  lemma EarlyStep(s: State, a: Act, t: State)
    requires Inv(s) && Step(s, a, t) && Early(s.stage) && !t.stage.Decoded?
    ensures Early(t.stage) && a != DropMain && a != LinkMain && a != DropTmp
  {
    hide Inv;
  }

  // A session that never decodes leaves a main that is no worse.
  lemma {:induction false} UnopenedSessionLeaves(run: seq<State>, acts: seq<Act>)
    requires IsSession(run, acts) && Inv(run[0]) && forall i :: 0 <= i < |run| ==> !run[i].stage.Decoded?
    ensures Inv(run[|acts|]) && Early(run[|acts|].stage) && run[|acts|].newest == run[0].newest
    ensures NoWorse(WorthOf(Crashed(run[0])), WorthOf(Crashed(run[|acts|])))
    decreases |acts|
  {
    hide Inv, WorthOf, Step, Early;
    if acts == [] {
      assert Early(run[0].stage) by { IdleIsEarly(); }
    } else {
      var n := |acts|;
      UnopenedSessionLeaves(run[..n], acts[..n - 1]);
      StepKeepsInv(run[n - 1], acts[n - 1], run[n]);
      EarlyStep(run[n - 1], acts[n - 1], run[n]);
      StepKeepsWorth(run[n - 1], acts[n - 1], run[n]);
    }
  }

  lemma IdleIsEarly()
    ensures Early(Idle)
  {
  }

  lemma NothingSoFar(s: State)
    requires s.stage == Idle
    ensures SoFar(s, s)
  {
  }

  // ----- the program -----

  // The files and the calls made on them, with the step each call stands for. After each the
  // method may have to give up, and then it leaves the files as they are.
  class Store {
    var disk: Disk
    ghost var stage: Stage
    ghost var newest: nat
    ghost var faults: nat  // how many calls on the files failed, or the process died in them

    ghost function At(): State
      reads this
    {
      State(disk, stage, newest)
    }

    constructor (d: Disk, ghost v: nat)
      requires d.WellFormed() && d.Holds(Main, Complete(v)) && Tmp !in d.names
      ensures disk == d && stage == Idle && newest == v && Inv(At())
    {
      disk, stage, newest, faults := d, Idle, v, 0;
    }

    // Open with O_CREATE.
    method Create(n: Name) returns (i: nat)
      modifies this`disk
      ensures old(disk).Created(n, disk) && n in disk.names && i == disk.names[n]
    {
      if n in disk.names {
        return disk.names[n];
      }
      assert Unused(disk.files.Keys) !in disk.files;
      i :| i !in disk.files;
      disk := Disk(disk.names[n := i], disk.files[i := Partial]);
    }

    // Takes the spinlock, opens and empties tmp, opens main. It does not come back when main
    // is the file it has just locked.
    method OpenFileDb() returns (ok: bool, w: nat)
      requires Inv(At()) && stage == Idle
      modifies this
      ensures Inv(At()) && stage == if ok then OpenedMain(w) else Idle
      ensures CarriesOn(old(At()), At())
      ensures old(Stuck(At())) ==> !ok
      ensures ok ==> faults == old(faults)
      ensures !ok ==> faults == old(faults) + 1 || (faults == old(faults) && Shared(disk, Main, Tmp))
    {
      hide Inv, CarriesOn, Stuck;
      w := 0;
      ghost var z := At();
      ghost var s := z;
      CarryNothing(z);
      stage := Locked;
      Carry(z, s, Lock, At());
      ok := *;
      if !ok { CarryStop(z, At()); stage, faults := Idle, faults + 1; return; }

      s := At();
      w := Create(Tmp);
      stage := OpenedTmp(w);
      Carry(z, s, OpenTmp, At());
      ok := *;
      if !ok { CarryStop(z, At()); stage, faults := Idle, faults + 1; return; }

      s := At();
      disk := disk.Written(w, Partial);
      stage := Truncated(w);
      Carry(z, s, Truncate, At());
      ok := *;
      if !ok || Shared(disk, Main, Tmp) {
        CarryStop(z, At());
        stage, faults, ok := Idle, if ok then faults else faults + 1, false;
        return;
      }

      s := At();
      TruncatedTmp(s);
      var r := Create(Main);
      stage := OpenedMain(w);
      Carry(z, s, OpenMain, At());
      OpenedIsNotStuck(z, At());
      ok := *;
      if !ok { CarryStop(z, At()); stage, faults := Idle, faults + 1; }
    }

    // Decodes main and renews the backup. A main that does not decode is closed again.
    method ReadAndBackup(w: nat) returns (ok: bool, v: nat)
      requires Inv(At()) && stage == OpenedMain(w)
      modifies this
      ensures Inv(At()) && newest == old(newest)
      ensures stage == if ok then BackedUp(w, v) else Idle
      ensures ok ==> v == newest && WorthOf(Crashed(At())) == Readable
      ensures old(Dead(At())) ==> !ok && Dead(At())
      ensures WorthOf(Crashed(At())) == old(WorthOf(Crashed(At())))
      ensures ok ==> faults == old(faults)
      ensures !ok ==> faults == old(faults) + 1 || (faults == old(faults) && old(disk).Holds(Main, Partial))
    {
      hide Torn, Aliased;
      v := 0;
      ok := *;
      var main := disk.files[disk.names[Main]];
      if !ok || main.Partial? {
        Stop(At());
        stage, faults, ok := Idle, if ok then faults else faults + 1, false;
        return;
      }

      ghost var s := At();
      v := main.version;
      stage := Decoded(w, v);
      assert s.disk.Holds(Main, Complete(v));
      Advance(s, Decode, At());
      ok := *;
      if !ok { stage, faults := Idle, faults + 1; return; }

      s := At();
      disk := disk.Removed(Bak);
      stage := BakRemoved(w, v);
      Advance(s, DropBak, At());
      ok := *;
      if !ok { stage, faults := Idle, faults + 1; return; }

      s := At();
      disk := disk.Linked(Main, Bak);
      stage := BackedUp(w, v);
      Advance(s, LinkBak, At());
      ok := *;
      if !ok { stage, faults := Idle, faults + 1; }
    }

    // Encodes the next version into tmp.
    method Encode(w: nat, v: nat) returns (ok: bool)
      requires Inv(At()) && stage == BackedUp(w, v)
      modifies this
      ensures Inv(At()) && newest == old(newest)
      ensures stage == if ok then Encoded(w, v + 1) else Idle
      ensures WorthOf(Crashed(At())) == old(WorthOf(Crashed(At()))) == Readable
      ensures faults == old(faults) + if ok then 0 else 1
    {
      ghost var s := At();
      disk := disk.Written(w, Partial);
      stage := Encoding(w, v);
      Advance(s, Act.Encode, At());
      ok := *;
      if !ok { stage, faults := Idle, faults + 1; return; }

      s := At();
      disk := disk.Written(w, Complete(v + 1));
      stage := Encoded(w, v + 1);
      Advance(s, FinishEncode, At());
      ok := *;
      if !ok { stage, faults := Idle, faults + 1; }
    }

    // Puts tmp in the place of main. A commit that fails has changed nothing, or lost main, or
    // left the new version in a main that the next open empties.
    method Commit(w: nat, v: nat) returns (ok: bool)
      requires Inv(At()) && stage == Encoded(w, v)
      modifies this
      ensures Inv(At()) && stage == if ok then Committed(w, v) else Idle
      ensures ok ==> newest == v && disk.Holds(Main, Complete(v)) && Tmp !in disk.names
      ensures ok ==> v > 0 && disk.Holds(Bak, Complete(v - 1))
      ensures newest == if ok || WorthOf(At()) == Doomed then v else old(newest)
      ensures !ok && WorthOf(At()) == Readable ==> disk == old(disk)
      ensures faults == old(faults) + if ok then 0 else 1
    {
      hide Inv, Dead, WorthOf;
      ghost var s := At();
      CommitEndings(s);
      ok := *;
      if !ok { Stop(At()); stage, faults := Idle, faults + 1; return; }

      disk := disk.Removed(Main);
      stage := MainRemoved(w, v);
      Advance(s, DropMain, At());
      CommitEndings(At());
      ok := *;
      if !ok { Stop(At()); stage, faults := Idle, faults + 1; return; }

      s := At();
      CommitStages(s);
      disk := disk.Linked(Tmp, Main);
      stage, newest := NewLinked(w, v), v;
      Advance(s, LinkMain, At());
      CommitEndings(At());
      ok := *;
      if !ok { Stop(At()); stage, faults := Idle, faults + 1; return; }

      s := At();
      CommitStages(s);
      disk := disk.Removed(Tmp);
      stage := Committed(w, v);
      Advance(s, DropTmp, At());
    }
  }

  lemma OpenedIsNotStuck(z: State, s: State)
    requires CarriesOn(z, s) && s.stage.OpenedMain?
    ensures !Stuck(z)
  {
    hide Stuck, Dead, NoWorse, WorthOf;
    if Stuck(z) {
      StuckIsEarly(s);
    }
  }

  // One step of the program is one step of the protocol.
  lemma Advance(s: State, a: Act, t: State)
    requires Inv(s) && Step(s, a, t)
    ensures Inv(t) && (Dead(s) ==> Dead(t))
  {
    StepKeepsInv(s, a, t);
    if Dead(s) {
      DeadStaysDead(s, a, t);
    }
  }

  lemma Stop(s: State)
    requires Inv(s)
    ensures Inv(Crashed(s)) && (Dead(s) ==> Dead(Crashed(s)))
  {
    Advance(s, Crash, Crashed(s));
  }

  // What the steps before the commit carry on: a dead database, a stuck one, and the worth.
  ghost predicate CarriesOn(s: State, t: State) {
    && (Dead(s) ==> Dead(t)) && (Stuck(s) ==> Stuck(t))
    && t.newest == s.newest && NoWorse(WorthOf(Crashed(s)), WorthOf(Crashed(t)))
  }

  lemma Carry(z: State, s: State, a: Act, t: State)
    requires Inv(s) && Step(s, a, t) && a != DropMain && a != LinkMain && a != DropTmp && CarriesOn(z, s)
    ensures Inv(t) && CarriesOn(z, t)
  {
    hide Inv, Dead, Stuck, WorthOf, Step;
    Advance(s, a, t);
    StepKeepsWorth(s, a, t);
    if Stuck(s) {
      StuckStays(s, a, t);
    }
  }

  lemma CarryStop(z: State, s: State)
    requires Inv(s) && CarriesOn(z, s)
    ensures Inv(Crashed(s)) && CarriesOn(z, Crashed(s))
  {
    Carry(z, s, Crash, Crashed(s));
  }

  lemma CarryNothing(s: State)
    ensures CarriesOn(s, s)
  {
  }

  lemma StuckIsEarly(s: State)
    requires Stuck(s)
    ensures !s.stage.OpenedMain?
  {
  }

  lemma CommitStages(s: State)
    requires Inv(s)
    ensures s.stage.MainRemoved? ==> Tmp in s.disk.names && Main !in s.disk.names
    ensures s.stage.NewLinked? ==> s.disk.Holds(Main, Complete(s.stage.v)) && s.newest == s.stage.v
    ensures s.stage.NewLinked? ==> s.stage.v > 0 && s.disk.Holds(Bak, Complete(s.stage.v - 1))
  {
  }

  lemma TruncatedTmp(s: State)
    requires Inv(s) && s.stage.Truncated?
    ensures Tmp in s.disk.names && s.disk.names[Tmp] == s.stage.w && s.stage.w in s.disk.files
  {
  }
}
