// The stack of twelve months: an array shifted in place, and the unbounded list of months
// it is the end of.

module MonthStack {
  import opened Calendar
  import opened Counters

  // The traffic of one merge, in total and per protocol.
  datatype Traffic = Traffic(summary: RxTx, wg: RxTx, ipsec: RxTx, ovc: RxTx, outline: RxTx, proto0: RxTx)
  {
    function Plus(t: Traffic): Traffic {
      Traffic(summary.Plus(t.summary), wg.Plus(t.wg), ipsec.Plus(t.ipsec), ovc.Plus(t.ovc),
              outline.Plus(t.outline), proto0.Plus(t.proto0))
    }
  }

  const QUIET := Traffic(NO_TRAFFIC, NO_TRAFFIC, NO_TRAFFIC, NO_TRAFFIC, NO_TRAFFIC, NO_TRAFFIC)

  // One month: the latest user counts (kept as an opaque number), the traffic, the time of
  // the latest update.
  datatype Slot = Slot(users: nat, traffic: Traffic, update: Time)

  const EMPTY := Slot(0, QUIET, ZERO_TIME)
  const SIZE := 12

  datatype Entry = Entry(at: Time, users: nat, traffic: Traffic)

  function Month(t: Time): nat {
    MonthIndex(Day(t))
  }

  // The slot of a month that goes on.
  function Add(s: Slot, e: Entry): Slot {
    Slot(e.users, s.traffic.Plus(e.traffic), e.at)
  }

  // Whether the entry begins a new slot.
  predicate Rolls(last: Slot, e: Entry) {
    last.update != ZERO_TIME && Month(last.update) != Month(e.at)
  }

  function Put(stack: seq<Slot>, e: Entry): (r: seq<Slot>)
    requires |stack| == SIZE
    ensures |r| == SIZE
  {
    var last := stack[SIZE - 1];
    if Rolls(last, e) then stack[1..] + [Add(EMPTY, e)] else stack[..SIZE - 1] + [Add(last, e)]
  }

  // Every month moves one place to the front; the oldest one falls out.
  method Shift(stack: array<Slot>)
    requires stack.Length == SIZE
    modifies stack
    ensures stack[..] == old(stack[1..]) + [EMPTY]
  {
    for i := 0 to SIZE - 1
      invariant forall j :: 0 <= j < i ==> stack[j] == old(stack[j + 1])
      invariant forall j :: i <= j < SIZE ==> stack[j] == old(stack[j])
    {
      stack[i] := stack[i + 1];
    }
    stack[SIZE - 1] := EMPTY;
  }

  // The method of the same name, on the array.
  method PutInPlace(stack: array<Slot>, e: Entry)
    requires stack.Length == SIZE
    modifies stack
    ensures stack[..] == Put(old(stack[..]), e)
  {
    hide DateOf, MonthIndex, MonthStart, MonthLength, Year, Day, Traffic.Plus;
    var last := stack[SIZE - 1].update;
    var p, n := DateOf(Day(last)), DateOf(Day(e.at));
    SameMonth(Day(last), Day(e.at));
    if last != ZERO_TIME && (p.year != n.year || p.month != n.month) {
      Shift(stack);
    }
    var s := stack[SIZE - 1];
    s := s.(users := e.users);
    s := s.(traffic := s.traffic.Plus(e.traffic));
    s := s.(update := e.at);
    stack[SIZE - 1] := s;
  }

  // ----- the log -----

  function Run(log: seq<Entry>): (r: seq<Slot>)
    ensures |r| == SIZE
  {
    if log == [] then Padding(SIZE) else Put(Run(log[..|log| - 1]), log[|log| - 1])
  }

  // An unbounded list of months: an entry of the last month is added to its slot.
  function Push(months: seq<Slot>, e: Entry): seq<Slot> {
    if months == [] || Month(months[|months| - 1].update) != Month(e.at) then months + [Add(EMPTY, e)]
    else months[..|months| - 1] + [Add(months[|months| - 1], e)]
  }

  // All months observed so far, oldest first.
  function Months(log: seq<Entry>): seq<Slot> {
    if log == [] then [] else Push(Months(log[..|log| - 1]), log[|log| - 1])
  }

  function Padding(n: nat): (r: seq<Slot>)
    ensures |r| == n && forall i :: 0 <= i < n ==> r[i] == EMPTY
  {
    seq(n, _ => EMPTY)
  }

  // The last twelve of a list, with empty slots in front when there are fewer.
  function LastTwelve(months: seq<Slot>): (r: seq<Slot>)
    ensures |r| == SIZE
  {
    if |months| >= SIZE then months[|months| - SIZE..]
    else Padding(SIZE - |months|) + months
  }

  ghost predicate Timed(log: seq<Entry>) {
    forall i :: 0 <= i < |log| ==> log[i].at != ZERO_TIME
  }

  lemma {:induction false} MonthsAreTimed(log: seq<Entry>)
    requires Timed(log)
    ensures log != [] ==> Months(log) != [] && Months(log)[|Months(log)| - 1].update == log[|log| - 1].at
    ensures forall i :: 0 <= i < |Months(log)| ==> Months(log)[i].update != ZERO_TIME
    decreases |log|
  {
    hide Month;
    if log != [] {
      MonthsAreTimed(log[..|log| - 1]);
    }
  }

  // After any run of entries with a time, the stack is the last twelve months observed,
  // right-aligned and padded with empty slots.
  lemma {:induction false} StackIsLastTwelve(log: seq<Entry>)
    requires Timed(log)
    ensures Run(log) == LastTwelve(Months(log))
    decreases |log|
  {
    hide Month;
    if log != [] {
      var before := log[..|log| - 1];
      StackIsLastTwelve(before);
      MonthsAreTimed(before);
      LastTwelvePut(Months(before), log[|log| - 1]);
    }
  }

  // Pushing onto the unbounded list and cutting it commute.
  lemma LastTwelvePut(months: seq<Slot>, e: Entry)
    requires months != [] ==> months[|months| - 1].update != ZERO_TIME
    ensures Put(LastTwelve(months), e) == LastTwelve(Push(months, e))
  {
    hide Month, Add, Traffic.Plus;
    var n := |months|;
    if n == 0 {
      FirstPut(Add(EMPTY, e));
    } else {
      assert LastTwelve(months)[SIZE - 1] == months[n - 1];
      if Month(months[n - 1].update) != Month(e.at) {
        LastTwelveShift(months, Add(EMPTY, e));
      } else {
        LastTwelveReplace(months, Add(months[n - 1], e));
      }
    }
  }

  lemma FirstPut(x: Slot)
    ensures LastTwelve([])[..SIZE - 1] + [x] == LastTwelve([x]) && LastTwelve([])[SIZE - 1] == EMPTY
  {
    assert LastTwelve([]) == Padding(SIZE);
  }

  lemma LastTwelveShift(months: seq<Slot>, x: Slot)
    ensures LastTwelve(months)[1..] + [x] == LastTwelve(months + [x])
  {
    var n := |months|;
    if n >= SIZE {
      assert months[n - SIZE..][1..] == months[n + 1 - SIZE..];
      assert (months + [x])[n + 1 - SIZE..] == months[n + 1 - SIZE..] + [x];
    } else {
      assert Padding(SIZE - n)[1..] == Padding(SIZE - n - 1);
      assert (Padding(SIZE - n) + months)[1..] == Padding(SIZE - n - 1) + months;
      assert Padding(SIZE - n - 1) + months + [x] == Padding(SIZE - n - 1) + (months + [x]);
      if n == SIZE - 1 {
        assert Padding(0) + (months + [x]) == (months + [x])[0..];
      }
    }
  }

  lemma LastTwelveReplace(months: seq<Slot>, x: Slot)
    requires months != []
    ensures LastTwelve(months)[..SIZE - 1] + [x] == LastTwelve(months[..|months| - 1] + [x])
  {
    var n := |months|;
    if n >= SIZE {
      assert months[n - SIZE..][..SIZE - 1] == months[n - SIZE..n - 1];
      assert (months[..n - 1] + [x])[n - SIZE..] == months[n - SIZE..n - 1] + [x];
    } else {
      assert (Padding(SIZE - n) + months)[..SIZE - 1] == Padding(SIZE - n) + months[..n - 1];
      assert Padding(SIZE - n) + months[..n - 1] + [x] == Padding(SIZE - n) + (months[..n - 1] + [x]);
    }
  }

  // ----- conservation -----

  function Total(log: seq<Entry>): Traffic {
    if log == [] then QUIET else Total(log[..|log| - 1]).Plus(log[|log| - 1].traffic)
  }

  function Held(slots: seq<Slot>): Traffic {
    if slots == [] then QUIET else Held(slots[..|slots| - 1]).Plus(slots[|slots| - 1].traffic)
  }

  lemma PlusLaws(a: Traffic, b: Traffic, c: Traffic)
    ensures a.Plus(b).Plus(c) == a.Plus(b.Plus(c))
    ensures QUIET.Plus(a) == a && a.Plus(QUIET) == a
  {
  }

  lemma {:induction false} HeldConcat(a: seq<Slot>, b: seq<Slot>)
    ensures Held(a + b) == Held(a).Plus(Held(b))
    decreases |b|
  {
    if b == [] {
      assert a + b == a;
      PlusLaws(Held(a), QUIET, QUIET);
    } else {
      assert (a + b)[..|a + b| - 1] == a + b[..|b| - 1];
      HeldConcat(a, b[..|b| - 1]);
      PlusLaws(Held(a), Held(b[..|b| - 1]), b[|b| - 1].traffic);
    }
  }

  lemma {:induction false} MonthsHoldAll(log: seq<Entry>)
    ensures Held(Months(log)) == Total(log)
    decreases |log|
  {
    hide Month, Traffic.Plus;
    if log != [] {
      var before, e := Months(log[..|log| - 1]), log[|log| - 1];
      MonthsHoldAll(log[..|log| - 1]);
      if before == [] || Month(before[|before| - 1].update) != Month(e.at) {
        assert Months(log)[..|before|] == before;
        PlusLaws(e.traffic, QUIET, QUIET);
      } else {
        var k := |before| - 1;
        assert Months(log)[..k] == before[..k];
        PlusLaws(Held(before[..k]), before[k].traffic, e.traffic);
      }
    }
  }

  lemma {:induction false} EmptyHoldsNothing(n: nat)
    ensures Held(Padding(n)) == QUIET
  {
    hide Padding, Traffic.Plus;
    PlusLaws(QUIET, QUIET, QUIET);
    if n > 0 {
      assert Padding(n)[..n - 1] == Padding(n - 1);
      EmptyHoldsNothing(n - 1);
    }
  }

  // The months that have left the stack.
  function Evicted(log: seq<Entry>): seq<Slot> {
    var months := Months(log);
    if |months| >= SIZE then months[..|months| - SIZE] else []
  }

  // Cutting a list of months in two keeps what it holds.
  lemma CutHoldsAll(months: seq<Slot>)
    ensures var gone := if |months| >= SIZE then months[..|months| - SIZE] else [];
      Held(gone).Plus(Held(LastTwelve(months))) == Held(months)
  {
    hide Held, Traffic.Plus, Padding;
    if |months| >= SIZE {
      HeldConcat(months[..|months| - SIZE], months[|months| - SIZE..]);
      assert months == months[..|months| - SIZE] + months[|months| - SIZE..];
    } else {
      HeldConcat(Padding(SIZE - |months|), months);
      EmptyHoldsNothing(SIZE - |months|);
      NothingHeld();
      PlusLaws(Held(months), QUIET, QUIET);
    }
  }

  lemma NothingHeld()
    ensures Held([]) == QUIET
  {
  }

  // No traffic is lost or counted twice: what the stack holds and what has left it make up
  // all traffic put.
  lemma NothingIsLost(log: seq<Entry>)
    requires Timed(log)
    ensures Held(Evicted(log)).Plus(Held(Run(log))) == Total(log)
  {
    hide Months, Run, Total, Held, LastTwelve, Traffic.Plus;
    StackIsLastTwelve(log);
    MonthsHoldAll(log);
    CutHoldsAll(Months(log));
  }

  // ----- months in order -----

  ghost predicate Forward(log: seq<Entry>) {
    Timed(log) && forall i :: 0 < i < |log| ==> log[i - 1].at <= log[i].at
  }

  // The traffic of one calendar month in the whole log.
  function TotalIn(log: seq<Entry>, m: nat): Traffic {
    if log == [] then QUIET
    else
      var before, e := TotalIn(log[..|log| - 1], m), log[|log| - 1];
      if Month(e.at) == m then before.Plus(e.traffic) else before
  }

  lemma {:induction false} NoneIn(log: seq<Entry>, m: nat)
    requires forall i :: 0 <= i < |log| ==> Month(log[i].at) != m
    ensures TotalIn(log, m) == QUIET
    decreases |log|
  {
    hide Month;
    if log != [] {
      NoneIn(log[..|log| - 1], m);
    }
  }

  lemma {:induction false} EarlierMonths(log: seq<Entry>, i: nat)
    requires Forward(log) && i < |log|
    ensures Month(log[i].at) <= Month(log[|log| - 1].at)
    decreases |log|
  {
    hide Day, MonthIndex;
    if i < |log| - 1 {
      EarlierMonths(log[..|log| - 1], i);
      DayMonotone(log[|log| - 2].at, log[|log| - 1].at);
      MonthMonotone(Day(log[|log| - 2].at), Day(log[|log| - 1].at));
    }
  }

  lemma AddKeeps(s: Slot, e: Entry)
    ensures Add(s, e).update == e.at && Add(s, e).traffic == s.traffic.Plus(e.traffic)
    ensures Add(EMPTY, e).traffic == e.traffic
  {
    PlusLaws(e.traffic, QUIET, QUIET);
  }

  // Each month is later than the one before it.
  ghost predicate InOrder(months: seq<Slot>) {
    forall i :: 0 < i < |months| ==> Month(months[i - 1].update) < Month(months[i].update)
  }

  lemma {:induction false} InOrderPairs(months: seq<Slot>, i: nat, j: nat)
    requires InOrder(months) && i < j < |months|
    ensures Month(months[i].update) < Month(months[j].update)
    decreases j
  {
    hide Month;
    if i < j - 1 {
      InOrderPairs(months, i, j - 1);
    }
  }

  lemma PushInOrder(months: seq<Slot>, e: Entry)
    requires InOrder(months)
    requires months != [] ==> Month(months[|months| - 1].update) <= Month(e.at)
    ensures InOrder(Push(months, e))
  {
    hide Month, Add, Traffic.Plus;
    AddKeeps(if months == [] then EMPTY else months[|months| - 1], e);
    AddKeeps(EMPTY, e);
  }

  // When time runs forward, the observed months are calendar months in order.
  lemma {:induction false} MonthsInOrder(log: seq<Entry>)
    requires Forward(log)
    ensures InOrder(Months(log))
    decreases |log|
  {
    hide Month, Add, Push, InOrder;
    if log == [] {
      assert InOrder([]) by { NoMonths(); }
    } else {
      MonthsInOrder(log[..|log| - 1]);
      MonthsAreTimed(log[..|log| - 1]);
      if |log| > 1 {
        EarlierMonths(log, |log| - 2);
      }
      PushInOrder(Months(log[..|log| - 1]), log[|log| - 1]);
    }
  }

  lemma NoMonths()
    ensures InOrder([])
  {
  }

  // And every slot holds all traffic its month had in the whole log.
  lemma {:induction false} MonthsAreComplete(log: seq<Entry>, i: nat)
    requires Forward(log) && i < |Months(log)|
    ensures Months(log)[i].traffic == TotalIn(log, Month(Months(log)[i].update))
    decreases |log|
  {
    hide Month, Add, Traffic.Plus, InOrder;
    var prior, e := log[..|log| - 1], log[|log| - 1];
    var before, ms := Months(prior), Months(log);
    MonthsInOrder(log);
    MonthsAreTimed(log);
    MonthsAreTimed(prior);
    AddKeeps(EMPTY, e);
    if i < |ms| - 1 {
      MonthsAreComplete(prior, i);
      InOrderPairs(ms, i, |ms| - 1);
    } else if |ms| == |before| {
      AddKeeps(before[i], e);
      MonthsAreComplete(prior, i);
    } else {
      forall j | 0 <= j < |prior| ensures Month(prior[j].at) != Month(e.at) {
        EarlierMonths(prior, j);
        EarlierMonths(log, |log| - 2);
      }
      NoneIn(prior, Month(e.at));
      PlusLaws(e.traffic, QUIET, QUIET);
    }
  }

  // The j-th entry is the last one of the slot's month, and left its user count and time there.
  ghost predicate LeftBy(s: Slot, log: seq<Entry>, j: nat) {
    && j < |log| && Month(log[j].at) == Month(s.update)
    && (forall k :: j < k < |log| ==> Month(log[k].at) != Month(s.update))
    && s.users == log[j].users && s.update == log[j].at
  }

  lemma {:induction false} MonthsAreLatest(log: seq<Entry>, i: nat)
    requires Forward(log) && i < |Months(log)|
    ensures exists j: nat :: LeftBy(Months(log)[i], log, j)
    decreases |log|
  {
    hide Month, Traffic.Plus, InOrder;
    var prior, e := log[..|log| - 1], log[|log| - 1];
    var ms := Months(log);
    MonthsInOrder(log);
    MonthsAreTimed(log);
    if i < |ms| - 1 {
      MonthsAreLatest(prior, i);
      InOrderPairs(ms, i, |ms| - 1);
      var j: nat :| LeftBy(ms[i], prior, j);
      assert LeftBy(ms[i], log, j);
    } else {
      assert LeftBy(ms[i], log, |log| - 1);
    }
  }
}
