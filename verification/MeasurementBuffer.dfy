/** The buffer that holds measurements until the fusion clock reaches their send time
    (src/fusion_core/measurement_buffer.cpp), over whole runs of pushes and pops. */
module MeasurementBuffering {
  import opened Basics
  import opened Sorting

  predicate SentBefore(a: Measurement, b: Measurement) {
    a.tSent < b.tSent
  }

  /** The leading measurements sent no later than `time`. */
  function Ready(s: seq<Measurement>, time: real): seq<Measurement> {
    if s == [] || s[0].tSent > time then [] else [s[0]] + Ready(s[1..], time)
  }

  class MeasurementBuffer {
    var buffer: seq<Measurement>

    constructor ()
      ensures buffer == []
    {
      buffer := [];
    }

    method Push(m: Measurement)
      modifies this
      ensures buffer == Insert(SentBefore, m, old(buffer))
    {
      var it := 0;
      while it < |buffer| && !(m.tSent < buffer[it].tSent)
        invariant it <= |buffer| && buffer == old(buffer)
        invariant forall k | 0 <= k < it :: !SentBefore(m, buffer[k])
      {
        it := it + 1;
      }
      InsertAfter(SentBefore, m, buffer[..it], buffer[it..]);
      assert buffer == buffer[..it] + buffer[it..];
      buffer := buffer[..it] + [m] + buffer[it..];
      assert buffer == buffer[..it] + ([m] + buffer[it+1..]);
    }

    method PopReady(fusionTime: real) returns (ready: seq<Measurement>)
      modifies this
      ensures ready == Ready(old(buffer), fusionTime)
      ensures old(buffer) == ready + buffer
      ensures forall k | 0 <= k < |ready| :: ready[k].tSent <= fusionTime
      ensures buffer == [] || buffer[0].tSent > fusionTime
    {
      ready := [];
      while buffer != [] && buffer[0].tSent <= fusionTime
        invariant old(buffer) == ready + buffer
        invariant Ready(old(buffer), fusionTime) == ready + Ready(buffer, fusionTime)
        invariant forall k | 0 <= k < |ready| :: ready[k].tSent <= fusionTime
        decreases |buffer|
      {
        ready := ready + [buffer[0]];
        buffer := buffer[1..];
      }
    }
  }

  // ---------------------------------------------------------------- whole runs

  datatype Op = Push(m: Measurement) | Pop(time: real)

  /** What is held, and everything popped so far in one list. */
  datatype State = State(held: seq<Measurement>, popped: seq<Measurement>)

  function Step(st: State, op: Op): State {
    match op
    case Push(m) => st.(held := Insert(SentBefore, m, st.held))
    case Pop(time) =>
      var ready := Ready(st.held, time);
      ReadyIsPrefix(st.held, time);
      State(st.held[|ready|..], st.popped + ready)
  }

  function Run(ops: seq<Op>): State {
    if ops == [] then State([], []) else Step(Run(ops[..|ops|-1]), ops[|ops|-1])
  }

  function Pushed(ops: seq<Op>): seq<Measurement> {
    if ops == [] then []
    else Pushed(ops[..|ops|-1]) + (match ops[|ops|-1] case Push(m) => [m] case Pop(_) => [])
  }

  /** The latest fusion time of the run. */
  function Clock(ops: seq<Op>): Option<real> {
    if ops == [] then None
    else
      var before := Clock(ops[..|ops|-1]);
      match ops[|ops|-1]
      case Push(_) => before
      case Pop(time) => if before.Some? then Some(MaxReal(before.value, time)) else Some(time)
  }

  predicate After(time: Option<real>, m: Measurement) {
    time.Some? ==> time.value < m.tSent
  }

  /** Every push is sent later than every earlier fusion time. */
  ghost predicate Timely(ops: seq<Op>) {
    forall k | 0 <= k < |ops| && ops[k].Push? :: After(Clock(ops[..k]), ops[k].m)
  }

  /** The measurements whose send time the clock has reached, in order. */
  function Due(s: seq<Measurement>, time: Option<real>): seq<Measurement> {
    if s == [] then []
    else if After(time, s[0]) then Due(s[1..], time)
    else [s[0]] + Due(s[1..], time)
  }

  lemma {:induction false} ReadyIsPrefix(s: seq<Measurement>, time: real)
    ensures Ready(s, time) <= s
    ensures var n := |Ready(s, time)|;
            && (forall k | 0 <= k < n :: s[k].tSent <= time)
            && (n < |s| ==> s[n].tSent > time)
  {
    if s != [] && s[0].tSent <= time {
      ReadyIsPrefix(s[1..], time);
    }
  }

  lemma {:induction false} SentBeforeIsWeakOrder()
    ensures StrictWeak(SentBefore)
  {
  }

  /** Popping a buffer in send order takes exactly what is due. */
  lemma {:induction false} PopTakesExactlyTheDue(s: seq<Measurement>, time: real)
    requires Sorted(SentBefore, s)
    ensures var n := |Ready(s, time)|;
            && n <= |s| && s == Ready(s, time) + s[n..]
            && (forall k | 0 <= k < n :: s[k].tSent <= time)
            && (forall k | n <= k < |s| :: s[k].tSent > time)
  {
    ReadyIsPrefix(s, time);
    var n := |Ready(s, time)|;
    forall k | n <= k < |s| ensures s[k].tSent > time {
      assert k == n || !SentBefore(s[k], s[n]);
    }
  }

  lemma {:induction false} StepConserves(st: State, op: Op)
    requires Sorted(SentBefore, st.held)
    ensures var next := Step(st, op);
            && Sorted(SentBefore, next.held)
            && multiset(next.popped) + multiset(next.held) ==
               multiset(st.popped) + multiset(st.held) + (if op.Push? then multiset{op.m} else multiset{})
  {
    hide Sorted;
    match op
    case Push(m) =>
      InsertKeepsElements(SentBefore, m, st.held);
      SentBeforeIsWeakOrder();
      InsertKeepsSorted(SentBefore, m, st.held);
    case Pop(time) =>
      PopTakesExactlyTheDue(st.held, time);
      SuffixSorted(st.held, |Ready(st.held, time)|);
      var rest := st.held[|Ready(st.held, time)|..];
      assert multiset(st.held) == multiset(Ready(st.held, time)) + multiset(rest);
  }

  lemma {:induction false} SuffixSorted(s: seq<Measurement>, n: nat)
    requires n <= |s| && Sorted(SentBefore, s)
    ensures Sorted(SentBefore, s[n..])
  {
  }

  /** Nothing is lost or made up, and what is held stays in send order, whatever the run. */
  lemma {:induction false} BufferConserves(ops: seq<Op>)
    ensures multiset(Run(ops).popped) + multiset(Run(ops).held) == multiset(Pushed(ops))
    ensures Sorted(SentBefore, Run(ops).held)
  {
    hide Step, Sorted;
    if ops != [] {
      var n := |ops| - 1;
      BufferConserves(ops[..n]);
      StepConserves(Run(ops[..n]), ops[n]);
    } else {
      assert Run(ops).held == [];
      EmptySorted();
    }
  }

  lemma {:induction false} EmptySorted()
    ensures Sorted(SentBefore, [])
  {
  }

  lemma {:induction false} TimelyPrefix(ops: seq<Op>)
    requires Timely(ops) && ops != []
    ensures Timely(ops[..|ops|-1])
  {
    var p := ops[..|ops|-1];
    forall k | 0 <= k < |p| && p[k].Push? ensures After(Clock(p[..k]), p[k].m) {
      assert p[..k] == ops[..k];
    }
  }

  ghost predicate Reached(time: Option<real>, s: seq<Measurement>) {
    forall k | 0 <= k < |s| :: !After(time, s[k])
  }

  ghost predicate Ahead(time: Option<real>, s: seq<Measurement>) {
    forall k | 0 <= k < |s| :: After(time, s[k])
  }

  /** The run invariant: the pops followed by what is held are all that was pushed, stably sorted,
      and the clock separates the two. */
  ghost predicate Separated(st: State, pushed: seq<Measurement>, time: Option<real>) {
    && st.popped + st.held == Sort(SentBefore, pushed)
    && Reached(time, st.popped) && Ahead(time, st.held)
  }

  lemma {:induction false} PushSeparates(st: State, pushed: seq<Measurement>, time: Option<real>, m: Measurement)
    requires Separated(st, pushed, time) && After(time, m)
    ensures Separated(Step(st, Push(m)), pushed + [m], time)
  {
    var held := Insert(SentBefore, m, st.held);
    assert (pushed + [m])[..|pushed|] == pushed;
    InsertAfter(SentBefore, m, st.popped, st.held);
    InsertKeepsElements(SentBefore, m, st.held);
    forall k | 0 <= k < |held| ensures After(time, held[k]) {
      assert held[k] in multiset(held);
      assert held[k] == m || held[k] in st.held;
    }
  }

  lemma {:induction false} PopSeparates(st: State, pushed: seq<Measurement>, time: Option<real>, t: real)
    requires Separated(st, pushed, time) && Sorted(SentBefore, st.held)
    ensures Separated(Step(st, Pop(t)), pushed, if time.Some? then Some(MaxReal(time.value, t)) else Some(t))
  {
    hide Sorted, Sort, Ready, SentBefore;
    PopTakesExactlyTheDue(st.held, t);
    var ready := Ready(st.held, t);
    assert st.popped + (ready + st.held[|ready|..]) == (st.popped + ready) + st.held[|ready|..];
  }

  /** In a timely run the pops followed by what is held are all that was pushed, stably sorted. */
  lemma {:induction false} PopsThenHeld(ops: seq<Op>)
    requires Timely(ops)
    ensures Separated(Run(ops), Pushed(ops), Clock(ops))
  {
    hide Step, Separated;
    if ops == [] {
      EmptySeparated();
    } else {
      var n := |ops| - 1;
      TimelyPrefix(ops);
      PopsThenHeld(ops[..n]);
      BufferConserves(ops[..n]);
      match ops[n]
      case Push(m) => PushSeparates(Run(ops[..n]), Pushed(ops[..n]), Clock(ops[..n]), m);
      case Pop(t) =>
        PopSeparates(Run(ops[..n]), Pushed(ops[..n]), Clock(ops[..n]), t);
        assert Pushed(ops[..n]) + [] == Pushed(ops[..n]);
    }
  }

  lemma {:induction false} EmptySeparated()
    ensures Separated(State([], []), [], None)
  {
  }

  lemma {:induction false} DueOfInsert(x: Measurement, s: seq<Measurement>, time: Option<real>)
    requires Sorted(SentBefore, s)
    ensures Due(Insert(SentBefore, x, s), time) ==
            if After(time, x) then Due(s, time) else Insert(SentBefore, x, Due(s, time))
  {
    if s != [] && !SentBefore(x, s[0]) {
      DueOfInsert(x, s[1..], time);
    } else if s != [] {
      if After(time, s[0]) {
        NoneDue(s, time);
      }
    }
  }

  lemma {:induction false} DueAppend(s: seq<Measurement>, x: Measurement, time: Option<real>)
    ensures Due(s + [x], time) == Due(s, time) + (if After(time, x) then [] else [x])
  {
    if s != [] {
      assert (s + [x])[1..] == s[1..] + [x];
      DueAppend(s[1..], x, time);
    }
  }

  lemma {:induction false} NoneDue(s: seq<Measurement>, time: Option<real>)
    requires Sorted(SentBefore, s) && s != [] && After(time, s[0])
    ensures Due(s, time) == []
  {
    if |s| > 1 {
      assert !SentBefore(s[1], s[0]);
      NoneDue(s[1..], time);
    }
  }

  /** Selecting what is due commutes with the stable sort. */
  lemma {:induction false} SortOfDue(s: seq<Measurement>, time: Option<real>)
    ensures Due(Sort(SentBefore, s), time) == Sort(SentBefore, Due(s, time))
  {
    hide Due, Sorted, After;
    if s != [] {
      var n := |s| - 1;
      SortOfDue(s[..n], time);
      SentBeforeIsWeakOrder();
      SortIsSorted(SentBefore, s[..n]);
      DueOfInsert(s[n], Sort(SentBefore, s[..n]), time);
      DueAppend(s[..n], s[n], time);
      assert s[..n] + [s[n]] == s;
      if !After(time, s[n]) {
        assert Due(s, time)[..|Due(s, time)|-1] == Due(s[..n], time);
      } else {
        assert Due(s[..n], time) + [] == Due(s[..n], time);
      }
    } else {
      assert Due([], time) == [] by { NoneDueOfNone(time); }
    }
  }

  lemma {:induction false} NoneDueOfNone(time: Option<real>)
    ensures Due([], time) == []
  {
  }

  lemma {:induction false} DueSplits(a: seq<Measurement>, b: seq<Measurement>, time: Option<real>)
    requires Reached(time, a) && Ahead(time, b)
    ensures Due(a + b, time) == a
  {
    if a != [] {
      assert (a + b)[1..] == a[1..] + b;
      DueSplits(a[1..], b, time);
    } else if b != [] {
      assert a + b == b;
      DueSplits(a, b[1..], time);
      assert a + b[1..] == b[1..];
    }
  }

  /** In a timely run the concatenation of all pops is the stable sort by send time of everything due. */
  lemma {:induction false} PopsAreSortedDue(ops: seq<Op>)
    requires Timely(ops)
    ensures Run(ops).popped == Sort(SentBefore, Due(Pushed(ops), Clock(ops)))
  {
    PopsThenHeld(ops);
    SortOfDue(Pushed(ops), Clock(ops));
    DueSplits(Run(ops).popped, Run(ops).held, Clock(ops));
  }

  // ---------------------------------------------------------------- exactly when the order is kept

  ghost predicate NotEarlier(m: Measurement, popped: seq<Measurement>) {
    forall k | 0 <= k < |popped| :: !SentBefore(m, popped[k])
  }

  /** No push is sent earlier than something already popped. */
  ghost predicate NotOvertaken(ops: seq<Op>) {
    forall k | 0 <= k < |ops| && ops[k].Push? :: NotEarlier(ops[k].m, Run(ops[..k]).popped)
  }

  lemma {:induction false} NotOvertakenPrefix(ops: seq<Op>, n: nat)
    requires n + 1 == |ops|
    ensures NotOvertaken(ops) <==>
            NotOvertaken(ops[..n]) && (ops[n].Push? ==> NotEarlier(ops[n].m, Run(ops[..n]).popped))
  {
    hide Run, NotEarlier;
    forall k | 0 <= k < n ensures ops[..n][..k] == ops[..k] {}
    if NotOvertaken(ops[..n]) && (ops[n].Push? ==> NotEarlier(ops[n].m, Run(ops[..n]).popped)) {
      forall k | 0 <= k < |ops| && ops[k].Push? ensures NotEarlier(ops[k].m, Run(ops[..k]).popped) {
        if k < n {
          assert ops[..n][k] == ops[k];
        }
      }
    } else if NotOvertaken(ops) {
      forall k | 0 <= k < n && ops[..n][k].Push? ensures NotEarlier(ops[..n][k].m, Run(ops[..n][..k]).popped) {
        assert ops[k].Push?;
      }
    }
  }

  /** One push keeps the whole list sorted exactly when it is not earlier than anything popped. */
  lemma {:induction false} PushKeepsOrderExactly(popped: seq<Measurement>, held: seq<Measurement>, m: Measurement)
    requires Sorted(SentBefore, held)
    ensures Sorted(SentBefore, popped + Insert(SentBefore, m, held)) <==>
            Sorted(SentBefore, popped + held) && NotEarlier(m, popped)
  {
    SentBeforeIsWeakOrder();
    InsertKeepsElements(SentBefore, m, held);
    if Sorted(SentBefore, popped + Insert(SentBefore, m, held)) {
      OrderReadsOff(popped, Insert(SentBefore, m, held), multiset(held) + multiset{m});
      forall i, j | 0 <= i < j < |popped + held| ensures !SentBefore((popped + held)[j], (popped + held)[i]) {
        if i < |popped| <= j {
          assert held[j-|popped|] in multiset(held) + multiset{m};
        } else if |popped| <= i {
          assert !SentBefore(held[j-|popped|], held[i-|popped|]);
        } else {
          assert !SentBefore(popped[j], popped[i]);
        }
      }
      assert m in multiset(held) + multiset{m};
    } else if Sorted(SentBefore, popped + held) && NotEarlier(m, popped) {
      InsertAfter(SentBefore, m, popped, held);
      InsertKeepsSorted(SentBefore, m, popped + held);
      assert false;
    }
  }

  lemma {:induction false} OrderReadsOff(popped: seq<Measurement>, rest: seq<Measurement>,
                                         members: multiset<Measurement>)
    requires Sorted(SentBefore, popped + rest) && multiset(rest) == members
    ensures Sorted(SentBefore, popped)
    ensures forall i, y | 0 <= i < |popped| && y in members :: !SentBefore(y, popped[i])
  {
    var whole := popped + rest;
    forall i, y | 0 <= i < |popped| && y in members ensures !SentBefore(y, popped[i]) {
      assert y in multiset(rest);
      var j :| 0 <= j < |rest| && rest[j] == y;
      assert whole[i] == popped[i] && whole[|popped|+j] == y;
    }
    forall i, j | 0 <= i < j < |popped| ensures !SentBefore(popped[j], popped[i]) {
      assert whole[i] == popped[i] && whole[j] == popped[j];
    }
  }

  lemma {:induction false} PopKeepsWhole(st: State, time: real)
    requires Sorted(SentBefore, st.held)
    ensures Step(st, Pop(time)).popped + Step(st, Pop(time)).held == st.popped + st.held
  {
    PopTakesExactlyTheDue(st.held, time);
  }

  /** Whatever the run, pops followed by the held measurements are in send order exactly when no push was
      sent earlier than something already popped; they are then the stable sort of all that was pushed. */
  lemma {:induction false} SortedUnlessOvertaken(ops: seq<Op>)
    ensures var whole := Run(ops).popped + Run(ops).held;
            && (NotOvertaken(ops) <==> Sorted(SentBefore, whole))
            && (NotOvertaken(ops) ==> whole == Sort(SentBefore, Pushed(ops)))
  {
    hide Sorted, NotOvertaken, NotEarlier;
    if ops == [] {
      EmptySorted();
      NoneOvertaken();
      assert Run(ops).popped + Run(ops).held == [];
    } else {
      var n := |ops| - 1;
      SortedUnlessOvertaken(ops[..n]);
      NotOvertakenPrefix(ops, n);
      BufferConserves(ops[..n]);
      var st := Run(ops[..n]);
      match ops[n]
      case Push(m) =>
        PushKeepsOrderExactly(st.popped, st.held, m);
        if NotOvertaken(ops) {
          NotEarlierAppends(st.popped, st.held, m);
          assert (Pushed(ops[..n]) + [m])[..|Pushed(ops[..n])|] == Pushed(ops[..n]);
        }
      case Pop(time) =>
        PopKeepsWhole(st, time);
        assert Pushed(ops[..n]) + [] == Pushed(ops[..n]);
    }
  }

  lemma {:induction false} NotEarlierAppends(popped: seq<Measurement>, held: seq<Measurement>, m: Measurement)
    requires NotEarlier(m, popped)
    ensures Insert(SentBefore, m, popped + held) == popped + Insert(SentBefore, m, held)
  {
    InsertAfter(SentBefore, m, popped, held);
  }

  lemma {:induction false} NoneOvertaken()
    ensures NotOvertaken([])
  {
  }

  /** Push i is popped by the pop at j. */
  predicate Reaches(ops: seq<Op>, i: int, j: int) {
    0 <= i < j < |ops| && ops[i].Push? && ops[j].Pop? && ops[i].m.tSent <= ops[j].time
  }

  /** A measurement has been popped exactly when some pop after its push reached its send time. */
  lemma {:induction false} PoppedExactly(ops: seq<Op>, m: Measurement)
    ensures m in Run(ops).popped <==> exists i, j :: Reaches(ops, i, j) && ops[i].m == m
  {
    if ops != [] {
      var n := |ops| - 1;
      var before := ops[..n];
      var st := Run(before);
      PoppedExactly(before, m);
      forall i, j ensures Reaches(ops, i, j) && j < n <==> Reaches(before, i, j) {
      }
      match ops[n]
      case Push(_) =>
        hide Run;
        forall i, j | Reaches(before, i, j) && before[i].m == m ensures Reaches(ops, i, j) && ops[i].m == m {
        }
        forall i, j | Reaches(ops, i, j) && ops[i].m == m ensures Reaches(before, i, j) && before[i].m == m {
        }
        assert Run(ops).popped == st.popped by {
          PushPopsNothing(ops);
        }
      case Pop(time) =>
        PopAdds(ops, m);
        PushedExactly(before, m);
        hide Run;
        if m in st.popped {
          var i, j :| Reaches(before, i, j) && before[i].m == m;
          assert Reaches(ops, i, j) && ops[i].m == m;
        } else if m in Run(ops).popped {
          var i :| 0 <= i < n && before[i].Push? && before[i].m == m;
          assert Reaches(ops, i, n) && ops[i].m == m;
        }
        if i, j :| Reaches(ops, i, j) && ops[i].m == m {
          assert before[i].Push? && before[i].m == m;
          assert j < n ==> Reaches(before, i, j);
        }
    }
  }

  lemma {:induction false} PushPopsNothing(ops: seq<Op>)
    requires ops != [] && ops[|ops|-1].Push?
    ensures Run(ops).popped == Run(ops[..|ops|-1]).popped
  {
  }

  lemma {:induction false} PushedExactly(ops: seq<Op>, m: Measurement)
    ensures m in Pushed(ops) <==> exists i :: 0 <= i < |ops| && ops[i].Push? && ops[i].m == m
  {
    if ops != [] {
      var n := |ops| - 1;
      PushedExactly(ops[..n], m);
      if i :| 0 <= i < n && ops[..n][i].Push? && ops[..n][i].m == m {
        assert ops[i].Push? && ops[i].m == m;
      }
      if i :| 0 <= i < |ops| && ops[i].Push? && ops[i].m == m {
        assert i < n ==> ops[..n][i].Push? && ops[..n][i].m == m;
      }
    }
  }

  /** A pop adds what was pushed, is not yet popped and is due. */
  lemma {:induction false} PopAdds(ops: seq<Op>, m: Measurement)
    requires ops != [] && ops[|ops|-1].Pop?
    ensures var n := |ops| - 1;
            m in Run(ops).popped <==> m in Run(ops[..n]).popped || (m in Pushed(ops[..n]) && m.tSent <= ops[n].time)
  {
    var n := |ops| - 1;
    var st := Run(ops[..n]);
    BufferConserves(ops[..n]);
    PopTakesExactlyTheDue(st.held, ops[n].time);
    var ready := Ready(st.held, ops[n].time);
    assert m in Pushed(ops[..n]) <==> m in multiset(st.popped) + multiset(st.held) by {
      assert m in Pushed(ops[..n]) <==> m in multiset(Pushed(ops[..n]));
    }
    assert Run(ops).popped == st.popped + ready;
    if m in st.held && m.tSent <= ops[n].time {
      var k :| 0 <= k < |st.held| && st.held[k] == m;
      assert k < |ready| ==> ready[k] == m;
    }
    if m in ready {
      var k :| 0 <= k < |ready| && ready[k] == m;
      assert st.held[k] == m;
    }
  }

  /** No push is sent earlier than a push that some pop in between has taken. */
  ghost predicate NoOvertaking(ops: seq<Op>) {
    forall i, j, k | Reaches(ops, i, j) && j < k < |ops| && ops[k].Push? :: ops[i].m.tSent <= ops[k].m.tSent
  }

  lemma {:induction false} OvertakingSeen(ops: seq<Op>)
    ensures NoOvertaking(ops) <==> NotOvertaken(ops)
  {
    hide Run;
    if NotOvertaken(ops) {
      forall i, j, k | Reaches(ops, i, j) && j < k < |ops| && ops[k].Push? ensures ops[i].m.tSent <= ops[k].m.tSent {
        assert Reaches(ops[..k], i, j) && ops[..k][i].m == ops[i].m;
        PoppedExactly(ops[..k], ops[i].m);
        var popped := Run(ops[..k]).popped;
        var x :| 0 <= x < |popped| && popped[x] == ops[i].m;
        assert !SentBefore(ops[k].m, popped[x]);
      }
    }
    if NoOvertaking(ops) {
      forall k | 0 <= k < |ops| && ops[k].Push? ensures NotEarlier(ops[k].m, Run(ops[..k]).popped) {
        var popped := Run(ops[..k]).popped;
        forall x | 0 <= x < |popped| ensures !SentBefore(ops[k].m, popped[x]) {
          PoppedExactly(ops[..k], popped[x]);
          var i, j :| Reaches(ops[..k], i, j) && ops[..k][i].m == popped[x];
          assert Reaches(ops, i, j);
        }
      }
    }
  }

  /** In any run, pops followed by the held measurements are in send order exactly when no push is sent earlier than
      a push some pop in between has taken; they are then the stable sort of all that was pushed. */
  lemma {:induction false} OrderKeptExactly(ops: seq<Op>)
    ensures var whole := Run(ops).popped + Run(ops).held;
            && (NoOvertaking(ops) <==> Sorted(SentBefore, whole))
            && (NoOvertaking(ops) ==> whole == Sort(SentBefore, Pushed(ops)))
  {
    hide Run, Sorted, Sort, NoOvertaking, NotOvertaken;
    OvertakingSeen(ops);
    SortedUnlessOvertaken(ops);
  }

  // ---------------------------------------------------------------- the simulation's use

  /** One tick of the loop: the measurements of `time` are pushed, then the buffer is popped at `time`. */
  datatype Tick = Tick(time: real, latencies: seq<real>, sensed: seq<Measurement>)

  /** The sensor stamps the tick's time plus a latency clamped at zero. */
  ghost predicate Stamped(t: Tick) {
    && |t.latencies| == |t.sensed|
    && forall k | 0 <= k < |t.sensed| ::
         t.sensed[k].tMeas == t.time && t.sensed[k].tSent == t.sensed[k].tMeas + MaxReal(0.0, t.latencies[k])
  }

  function Pushes(s: seq<Measurement>): (r: seq<Op>)
    ensures |r| == |s| && forall k | 0 <= k < |s| :: r[k] == Push(s[k])
  {
    seq(|s|, i requires 0 <= i < |s| => Push(s[i]))
  }

  function OpsOf(ticks: seq<Tick>): seq<Op> {
    if ticks == [] then []
    else OpsOf(ticks[..|ticks|-1]) + Pushes(ticks[|ticks|-1].sensed) + [Pop(ticks[|ticks|-1].time)]
  }

  ghost predicate Increasing(ticks: seq<Tick>) {
    forall i, j | 0 <= i < j < |ticks| :: ticks[i].time < ticks[j].time
  }

  lemma {:induction false} ClockOfPushes(ops: seq<Op>, s: seq<Measurement>, n: nat)
    requires n <= |s|
    ensures Clock(ops + Pushes(s)[..n]) == Clock(ops)
  {
    if n == 0 {
      assert ops + Pushes(s)[..0] == ops;
    } else {
      ClockOfPushes(ops, s, n - 1);
      assert (ops + Pushes(s)[..n])[..|ops|+n-1] == ops + Pushes(s)[..n-1];
    }
  }

  /** With a clock that advances, what the sensors send for a tick always leaves after the earlier fusion times;
      so the loop sees every measurement once, in stable send order. */
  lemma {:induction false} SensorRunsAreTimely(ticks: seq<Tick>)
    requires Increasing(ticks) && forall k | 0 <= k < |ticks| :: Stamped(ticks[k])
    ensures Timely(OpsOf(ticks))
    ensures Clock(OpsOf(ticks)) == if ticks == [] then None else Some(ticks[|ticks|-1].time)
  {
    if ticks != [] {
      var n := |ticks| - 1;
      SensorRunsAreTimely(ticks[..n]);
      TickIsTimely(OpsOf(ticks[..n]), ticks[n]);
    }
  }

  /** A tick whose time is later than the clock keeps a run timely and moves the clock to its time. */
  lemma {:induction false} TickIsTimely(before: seq<Op>, t: Tick)
    requires Timely(before) && Stamped(t) && (Clock(before).Some? ==> Clock(before).value < t.time)
    ensures var ops := before + Pushes(t.sensed) + [Pop(t.time)];
            Timely(ops) && Clock(ops) == Some(t.time)
  {
    hide Clock;
    var pushes := Pushes(t.sensed);
    var ops := before + pushes + [Pop(t.time)];
    forall k | 0 <= k < |ops| && ops[k].Push? ensures After(Clock(ops[..k]), ops[k].m) {
      if k < |before| {
        assert ops[..k] == before[..k];
      } else {
        assert ops[..k] == before + pushes[..k-|before|];
        ClockOfPushes(before, t.sensed, k - |before|);
      }
    }
    assert ops[..|ops|-1] == before + pushes[..|t.sensed|];
    ClockOfPushes(before, t.sensed, |t.sensed|);
    ClockOfPop(ops);
  }

  lemma {:induction false} ClockOfPop(ops: seq<Op>)
    requires ops != [] && ops[|ops|-1].Pop?
    ensures var before := Clock(ops[..|ops|-1]);
            Clock(ops) == Some(if before.Some? then MaxReal(before.value, ops[|ops|-1].time) else ops[|ops|-1].time)
  {
  }

  /** A false alarm sensed with no target: stamped from time 0, whatever the tick's time. */
  ghost predicate StampedFromZero(t: Tick) {
    && |t.latencies| == |t.sensed|
    && forall k | 0 <= k < |t.sensed| :: t.sensed[k].tMeas == 0.0 && t.sensed[k].tSent == MaxReal(0.0, t.latencies[k])
  }

  /** Two ticks with a false alarm each and no target: the second alarm, with the smaller latency, is delivered after
      the first although it was sent before. */
  lemma {:induction false} AlarmsBreakOrder(first: Measurement, second: Measurement)
    requires first.tMeas == second.tMeas == 0.0 && first.tSent == 0.5 && second.tSent == 0.1
    ensures var ticks := [Tick(1.0, [0.5], [first]), Tick(2.0, [0.1], [second])];
            && Increasing(ticks) && StampedFromZero(ticks[0]) && StampedFromZero(ticks[1])
            && OpsOf(ticks) == [Push(first), Pop(1.0), Push(second), Pop(2.0)]
            && !NoOvertaking(OpsOf(ticks)) && Run(OpsOf(ticks)).popped == [first, second]
            && !Sorted(SentBefore, Run(OpsOf(ticks)).popped)
  {
    var ops := [Push(first), Pop(1.0), Push(second), Pop(2.0)];
    AlarmOps(first, second);
    assert Reaches(ops, 0, 1) && ops[2].m == second;
    AlarmPops(first, second);
    assert SentBefore([first, second][1], [first, second][0]);
  }

  lemma {:induction false} AlarmOps(first: Measurement, second: Measurement)
    ensures OpsOf([Tick(1.0, [0.5], [first]), Tick(2.0, [0.1], [second])]) ==
            [Push(first), Pop(1.0), Push(second), Pop(2.0)]
  {
    var one := [Tick(1.0, [0.5], [first])];
    var two := [Tick(1.0, [0.5], [first]), Tick(2.0, [0.1], [second])];
    assert one[..0] == [] && two[..1] == one;
    assert OpsOf(one) == [Push(first), Pop(1.0)];
  }

  lemma {:induction false} AlarmPops(first: Measurement, second: Measurement)
    requires first.tSent == 0.5 && second.tSent == 0.1
    ensures Run([Push(first), Pop(1.0), Push(second), Pop(2.0)]).popped == [first, second]
  {
    var one, two := [Push(first)], [Push(first), Pop(1.0)];
    var three := [Push(first), Pop(1.0), Push(second)];
    var four := [Push(first), Pop(1.0), Push(second), Pop(2.0)];
    assert one[..0] == [] && two[..1] == one && three[..2] == two && four[..3] == three;
    assert Run(one) == State([first], []);
    assert Ready([first], 1.0) == [first] && Run(two) == State([], [first]);
    assert Run(three) == State([second], [first]);
    assert Ready([second], 2.0) == [second];
  }
}
