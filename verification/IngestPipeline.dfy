/** The bounded ingest queue between the telemetry producers and the publishing worker
    (src/services/telemetry_ingest/ingest_pipeline.cpp): its critical sections as methods, and every
    interleaving of them as a state machine. */
module Ingest {
  import opened Basics

  datatype Options = Options(maxQueue: nat, dropOldest: bool)

  /** What the fault injector decides for one measurement. */
  datatype Fault = Fault(drop: bool, delay: Option<real>)

  function Abs(x: real): real {
    if x < 0.0 then -x else x
  }

  function Delayed(m: Measurement, f: Fault): Measurement {
    if f.delay.Some? then m.(tSent := m.tSent + Abs(f.delay.value)) else m
  }

  /** The queue after offering m, whether something was dropped, and whether m itself was stored. */
  datatype Admission = Admission(queue: seq<Measurement>, dropped: bool, stored: bool)

  function Admit(o: Options, queue: seq<Measurement>, m: Measurement): Admission {
    if |queue| < o.maxQueue then Admission(queue + [m], false, true)
    else if o.dropOldest && queue != [] then Admission(queue[1..] + [m], true, true)
    else Admission(queue, true, false)
  }

  /** The answer reports whether nothing was dropped, not whether m was stored: the two differ exactly when the
      oldest entry made room for m. */
  lemma {:induction false} AnswerTellsStoredExactly(o: Options, queue: seq<Measurement>, m: Measurement)
    ensures var a := Admit(o, queue, m);
            (!a.dropped <==> a.stored) <==> |queue| < o.maxQueue || !o.dropOldest || queue == []
    ensures Admit(o, queue, m).stored ==> m in Admit(o, queue, m).queue
  {
  }

  // ---------------------------------------------------------------- a batch, alone

  datatype Detection = Detection(sensorId: nat, sequence: nat, m: Measurement, fault: Fault)

  /** The queue and the number of drops after a run of offers. */
  datatype Offered = Offered(queue: seq<Measurement>, drops: nat)

  function OfferAll(o: Options, queue: seq<Measurement>, batch: seq<Detection>): Offered {
    if batch == [] then Offered(queue, 0)
    else
      var before := OfferAll(o, queue, batch[..|batch|-1]);
      var d := batch[|batch|-1];
      if d.fault.drop then before.(drops := before.drops + 1)
      else
        var a := Admit(o, before.queue, Delayed(d.m, d.fault));
        Offered(a.queue, if a.dropped then before.drops + 1 else before.drops)
  }

  /** The measurements the faults let through, as they reach the queue. */
  function Arriving(batch: seq<Detection>): seq<Measurement> {
    if batch == [] then []
    else
      var d := batch[|batch|-1];
      Arriving(batch[..|batch|-1]) + (if d.fault.drop then [] else [Delayed(d.m, d.fault)])
  }

  /** The sequence number last seen from a sensor. */
  function LastSequences(last: map<nat, nat>, batch: seq<Detection>): map<nat, nat> {
    if batch == [] then last
    else
      var d := batch[|batch|-1];
      LastSequences(last, batch[..|batch|-1])[d.sensorId := d.sequence]
  }

  predicate IsLate(last: map<nat, nat>, d: Detection) {
    d.sensorId in last && d.sequence <= last[d.sensorId]
  }

  function LateCount(last: map<nat, nat>, batch: seq<Detection>): nat {
    if batch == [] then 0
    else
      var n := |batch| - 1;
      LateCount(last, batch[..n]) + (if IsLate(LastSequences(last, batch[..n]), batch[n]) then 1 else 0)
  }

  class IngestPipeline {
    const options: Options
    var queue: seq<Measurement>
    var stop: bool
    var lastSeqBySensor: map<nat, nat>
    var outOfOrder: nat
    var totalBatches: nat
    var totalDetections: nat
    var totalDrops: nat
    var totalPublished: nat
    /** What the bus topic has received. */
    var topic: seq<Measurement>

    constructor (options: Options)
      ensures this.options == options && queue == [] && topic == [] && !stop && lastSeqBySensor == map[]
      ensures outOfOrder == totalBatches == totalDetections == totalDrops == totalPublished == 0
      ensures Shows(INITIAL)
    {
      this.options := options;
      queue, topic, stop, lastSeqBySensor := [], [], false, map[];
      outOfOrder, totalBatches, totalDetections, totalDrops, totalPublished := 0, 0, 0, 0, 0;
    }

    /** The shared part of the state machine below is this object's. */
    ghost predicate Shows(s: State)
      reads this
    {
      && s.queue == queue && s.stop == stop && s.drops == totalDrops
      && s.published == topic && s.publishedTotal == totalPublished
    }

    method EnqueueMeasurement(measurement: Measurement, fault: Fault) returns (ok: bool)
      modifies this`queue, this`totalDrops
      ensures forall s: State, p: nat {:trigger Begun(s, p, measurement, fault)} | old(Shows(s)) && p !in s.pending ::
                Shows(Committed(options, Begun(s, p, measurement, fault), p))
      ensures fault.drop ==> !ok && queue == old(queue) && totalDrops == old(totalDrops) + 1
      ensures !fault.drop ==>
                var a := Admit(options, old(queue), Delayed(measurement, fault));
                && queue == a.queue && ok == !a.dropped
                && totalDrops == if a.dropped then old(totalDrops) + 1 else old(totalDrops)
    {
      if fault.drop {
        totalDrops := totalDrops + 1;
        return false;
      }
      var m := measurement;
      if fault.delay.Some? {
        m := m.(tSent := m.tSent + Abs(fault.delay.value));
      }
      var dropped := false;
      if |queue| >= options.maxQueue {
        dropped := true;
        if options.dropOldest && queue != [] {
          queue := queue[1..];
          queue := queue + [m];
        }
      } else {
        queue := queue + [m];
      }
      if dropped {
        totalDrops := totalDrops + 1;
      }
      return !dropped;
    }

    method IngestBatch(batch: seq<Detection>)
      modifies this`queue, this`totalDrops, this`lastSeqBySensor, this`outOfOrder, this`totalBatches,
        this`totalDetections
      ensures totalBatches == old(totalBatches) + 1 && totalDetections == old(totalDetections) + |batch|
      ensures lastSeqBySensor == LastSequences(old(lastSeqBySensor), batch)
      ensures outOfOrder == old(outOfOrder) + LateCount(old(lastSeqBySensor), batch)
      ensures var r := OfferAll(options, old(queue), batch);
              queue == r.queue && totalDrops == old(totalDrops) + r.drops
    {
      totalBatches := totalBatches + 1;
      totalDetections := totalDetections + |batch|;
      for k := 0 to |batch|
        invariant totalBatches == old(totalBatches) + 1 && totalDetections == old(totalDetections) + |batch|
        invariant lastSeqBySensor == LastSequences(old(lastSeqBySensor), batch[..k])
        invariant outOfOrder == old(outOfOrder) + LateCount(old(lastSeqBySensor), batch[..k])
        invariant queue == OfferAll(options, old(queue), batch[..k]).queue
        invariant totalDrops == old(totalDrops) + OfferAll(options, old(queue), batch[..k]).drops
      {
        assert batch[..k+1][..k] == batch[..k];
        var d := batch[k];
        if d.sensorId in lastSeqBySensor && d.sequence <= lastSeqBySensor[d.sensorId] {
          outOfOrder := outOfOrder + 1;
        }
        lastSeqBySensor := lastSeqBySensor[d.sensorId := d.sequence];
        var _ := EnqueueMeasurement(d.m, d.fault);
      }
      assert batch[..|batch|] == batch;
    }

    /** The worker's critical section, entered once the wait is over. */
    method TakeFront() returns (taken: Option<Measurement>)
      requires stop || queue != []
      modifies this`queue
      ensures old(queue) == (if taken.Some? then [taken.value] else []) + queue
      ensures taken.None? <==> old(queue) == []
      ensures forall s: State | old(Shows(s)) && s.worker.Waiting? ::
                && Shows(WorkerStep(s))
                && WorkerStep(s).worker == match taken { case Some(m) => Holding(m) case None => Exited }
    {
      if stop && queue == [] {
        return None;
      }
      taken := Some(queue[0]);
      queue := queue[1..];
    }

    method Publish(m: Measurement)
      modifies this`topic, this`totalPublished
      ensures topic == old(topic) + [m] && totalPublished == old(totalPublished) + 1
      ensures forall s: State | old(Shows(s)) && s.worker == Holding(m) :: Shows(WorkerStep(WorkerStep(s)))
    {
      topic := topic + [m];
      totalPublished := totalPublished + 1;
    }

    /** One turn of worker_loop, not disturbed; without a shutdown it starts once something is queued. */
    method WorkerTurn() returns (goesOn: bool)
      requires stop || queue != []
      modifies this`queue, this`topic, this`totalPublished
      ensures forall s: State | old(Shows(s)) && s.worker.AtTop? ::
                && Shows(WorkerRuns(s, 4))
                && WorkerRuns(s, 4).worker == if goesOn then AtTop else Exited
    {
      if stop {
        return false;
      }
      var taken := TakeFront();
      if taken.None? {
        return false;
      }
      Publish(taken.value);
      return true;
    }

    /** What the destructor does before it waits for the worker. */
    method Shutdown()
      modifies this`stop
      ensures stop && forall s: State | old(Shows(s)) :: Shows(Step(options, s, Stop))
    {
      stop := true;
    }
  }

  /** A batch offered to a queue within its bound: dropping the oldest keeps the newest arrivals, dropping the
      newest keeps the oldest; the drops are the faults and the overflow. */
  lemma {:induction false} OfferAllKeeps(o: Options, queue: seq<Measurement>, batch: seq<Detection>)
    requires |queue| <= o.maxQueue
    ensures var all := queue + Arriving(batch);
            var r := OfferAll(o, queue, batch);
            && r.queue == Kept(o, all)
            && r.drops + |r.queue| == |queue| + |batch|
  {
    hide Kept, Admit;
    if batch == [] {
      assert queue + [] == queue;
      KeptWithinBound(o, queue);
    } else {
      var k := |batch| - 1;
      OfferAllKeeps(o, queue, batch[..k]);
      var d := batch[k];
      var before := queue + Arriving(batch[..k]);
      if d.fault.drop {
        assert queue + Arriving(batch) == before;
      } else {
        AdmitKeeps(o, before, Delayed(d.m, d.fault));
        assert queue + Arriving(batch) == before + [Delayed(d.m, d.fault)];
      }
    }
  }

  /** What arrives of a detection: nothing but its send time changes, and that only moves on, by the size of the
      delay. */
  ghost predicate ArrivesAs(d: Detection, m: Measurement) {
    var lag := m.tSent - d.m.tSent;
    && !d.fault.drop && m == d.m.(tSent := m.tSent) && lag >= 0.0
    && (match d.fault.delay case None => lag == 0.0 case Some(x) => lag == x || lag == -x)
  }

  /** The arrivals are those of the picked detections, in order; the others are dropped. */
  ghost predicate ArriveFrom(batch: seq<Detection>, arrivals: seq<Measurement>, picks: seq<nat>) {
    && |picks| == |arrivals|
    && (forall i, j | 0 <= i < j < |picks| :: picks[i] < picks[j])
    && (forall n | 0 <= n < |picks| :: picks[n] < |batch| && ArrivesAs(batch[picks[n]], arrivals[n]))
    && (forall k | 0 <= k < |batch| :: batch[k].fault.drop || k in picks)
  }

  lemma {:induction false} OneMoreArrives(batch: seq<Detection>, arrivals: seq<Measurement>, picks: seq<nat>,
                                          m: Measurement)
    requires batch != [] && ArriveFrom(batch[..|batch|-1], arrivals, picks) && ArrivesAs(batch[|batch|-1], m)
    ensures ArriveFrom(batch, arrivals + [m], picks + [|batch| - 1])
  {
    hide ArrivesAs;
    var n := |batch| - 1;
    var few := batch[..n];
    forall k | 0 <= k < n ensures batch[k].fault.drop || k in picks {
      assert few[k] == batch[k];
    }
  }

  lemma {:induction false} OneMoreDrops(batch: seq<Detection>, arrivals: seq<Measurement>, picks: seq<nat>)
    requires batch != [] && ArriveFrom(batch[..|batch|-1], arrivals, picks) && batch[|batch|-1].fault.drop
    ensures ArriveFrom(batch, arrivals, picks)
  {
    hide ArrivesAs;
    var n := |batch| - 1;
    var few := batch[..n];
    forall k | 0 <= k < n ensures batch[k].fault.drop || k in picks {
      assert few[k] == batch[k];
    }
  }

  /** What reaches the queue of a batch is what the faults do not drop, in order. */
  lemma {:induction false} ArrivalsTell(batch: seq<Detection>) returns (picks: seq<nat>)
    ensures ArriveFrom(batch, Arriving(batch), picks)
  {
    picks := [];
    if batch != [] {
      hide ArriveFrom, Delayed;
      var n := |batch| - 1;
      picks := ArrivalsTell(batch[..n]);
      if batch[n].fault.drop {
        assert Arriving(batch[..n]) + [] == Arriving(batch[..n]);
        OneMoreDrops(batch, Arriving(batch[..n]), picks);
      } else {
        DelayedTells(batch[n]);
        OneMoreArrives(batch, Arriving(batch[..n]), picks, Delayed(batch[n].m, batch[n].fault));
        picks := picks + [n];
      }
    }
  }

  lemma {:induction false} DelayedTells(d: Detection)
    requires !d.fault.drop
    ensures ArrivesAs(d, Delayed(d.m, d.fault))
  {
  }

  lemma {:induction false} KeptWithinBound(o: Options, all: seq<Measurement>)
    requires |all| <= o.maxQueue
    ensures Kept(o, all) == all
  {
  }

  /** The part of the arrivals a bounded queue keeps: the newest, or the oldest. */
  function Kept(o: Options, all: seq<Measurement>): (r: seq<Measurement>)
    ensures |r| == Min(|all|, o.maxQueue)
  {
    var n := Min(|all|, o.maxQueue);
    if o.dropOldest then all[|all|-n..] else all[..n]
  }

  lemma {:induction false} AdmitKeeps(o: Options, all: seq<Measurement>, m: Measurement)
    ensures Admit(o, Kept(o, all), m).queue == Kept(o, all + [m])
    ensures Admit(o, Kept(o, all), m).dropped <==> |all| >= o.maxQueue
    ensures |Kept(o, all + [m])| == |Kept(o, all)| + (if |all| >= o.maxQueue then 0 else 1)
  {
  }

  /** Every sensor's sequence numbers strictly increase, from the one last seen on. */
  ghost predicate Increasing(last: map<nat, nat>, batch: seq<Detection>) {
    && (forall i | 0 <= i < |batch| && batch[i].sensorId in last :: last[batch[i].sensorId] < batch[i].sequence)
    && (forall i, j | 0 <= i < j < |batch| && batch[i].sensorId == batch[j].sensorId ::
          batch[i].sequence < batch[j].sequence)
  }

  /** What is remembered for a sensor came from the start or from one of its detections. */
  ghost predicate ComesFrom(last: map<nat, nat>, batch: seq<Detection>, sensor: nat, x: nat) {
    || (sensor in last && last[sensor] == x)
    || (exists i | 0 <= i < |batch| :: batch[i].sensorId == sensor && batch[i].sequence == x)
  }

  /** The remembered number is no less than any seen from the sensor. */
  ghost predicate Greatest(last: map<nat, nat>, batch: seq<Detection>, sensor: nat, now: map<nat, nat>) {
    && (sensor in last ==> sensor in now && last[sensor] <= now[sensor])
    && (forall i | 0 <= i < |batch| && batch[i].sensorId == sensor :: sensor in now && batch[i].sequence <= now[sensor])
  }

  lemma {:induction false} LastComesFrom(last: map<nat, nat>, batch: seq<Detection>, sensor: nat)
    requires sensor in LastSequences(last, batch)
    ensures ComesFrom(last, batch, sensor, LastSequences(last, batch)[sensor])
  {
    if batch != [] {
      var n := |batch| - 1;
      var x := LastSequences(last, batch)[sensor];
      if batch[n].sensorId != sensor {
        LastComesFrom(last, batch[..n], sensor);
        if !(sensor in last && last[sensor] == x) {
          var i :| 0 <= i < n && batch[..n][i].sensorId == sensor && batch[..n][i].sequence == x;
          assert batch[i].sensorId == sensor && batch[i].sequence == x;
        }
      }
    }
  }

  lemma {:induction false} LastIsGreatest(last: map<nat, nat>, batch: seq<Detection>, sensor: nat)
    requires Increasing(last, batch)
    ensures Greatest(last, batch, sensor, LastSequences(last, batch))
  {
    if batch != [] {
      var n := |batch| - 1;
      IncreasingPrefix(last, batch);
      LastIsGreatest(last, batch[..n], sensor);
      GreatestExtends(last, batch, sensor, LastSequences(last, batch[..n]));
    }
  }

  lemma {:induction false} GreatestExtends(last: map<nat, nat>, batch: seq<Detection>, sensor: nat, now: map<nat, nat>)
    requires batch != [] && Increasing(last, batch) && Greatest(last, batch[..|batch|-1], sensor, now)
    ensures var d := batch[|batch|-1]; Greatest(last, batch, sensor, now[d.sensorId := d.sequence])
  {
  }

  /** After increasing numbers, one more keeps them increasing exactly when it is not late. */
  lemma {:induction false} LateExactly(last: map<nat, nat>, batch: seq<Detection>, now: map<nat, nat>)
    requires batch != [] && Increasing(last, batch[..|batch|-1])
    requires var n := |batch| - 1;
             var sensor := batch[n].sensorId;
             && Greatest(last, batch[..n], sensor, now)
             && (sensor in now ==> ComesFrom(last, batch[..n], sensor, now[sensor]))
    ensures Increasing(last, batch) <==> !IsLate(now, batch[|batch|-1])
  {
  }

  /** Nothing is counted out of order exactly when every sensor's sequence numbers strictly increase. */
  lemma {:induction false} NoneLateExactly(last: map<nat, nat>, batch: seq<Detection>)
    ensures LateCount(last, batch) == 0 <==> Increasing(last, batch)
  {
    hide Increasing, Greatest, ComesFrom;
    if batch == [] {
      NoneIncreasing(last);
    } else {
      var n := |batch| - 1;
      NoneLateExactly(last, batch[..n]);
      IncreasingPrefix(last, batch);
      if Increasing(last, batch[..n]) {
        LastIsGreatest(last, batch[..n], batch[n].sensorId);
        if batch[n].sensorId in LastSequences(last, batch[..n]) {
          LastComesFrom(last, batch[..n], batch[n].sensorId);
        }
        LateExactly(last, batch, LastSequences(last, batch[..n]));
      }
    }
  }

  lemma {:induction false} NoneIncreasing(last: map<nat, nat>)
    ensures Increasing(last, [])
  {
  }

  lemma {:induction false} IncreasingPrefix(last: map<nat, nat>, batch: seq<Detection>)
    requires batch != []
    ensures Increasing(last, batch) ==> Increasing(last, batch[..|batch|-1])
  {
  }

  // ---------------------------------------------------------------- every interleaving

  datatype Worker = AtTop | Waiting | Holding(m: Measurement) | Counting | Exited

  /** The shared state, the producers between their fault decision and their critical section, the worker's
      position, and the history: attempts, and what has ever been stored, in order. */
  datatype State = State(
    queue: seq<Measurement>,
    pending: map<nat, Measurement>,
    worker: Worker,
    stop: bool,
    drops: nat,
    publishedTotal: nat,
    published: seq<Measurement>,
    stored: seq<Measurement>,
    attempts: nat)

  const INITIAL := State([], map[], AtTop, false, 0, 0, [], [], 0)

  datatype Action =
    | Begin(producer: nat, m: Measurement, fault: Fault)
    | Commit(producer: nat)
    | Work
    | Stop

  function Begun(s: State, producer: nat, m: Measurement, fault: Fault): State {
    if producer in s.pending then s
    else if fault.drop then s.(attempts := s.attempts + 1, drops := s.drops + 1)
    else s.(attempts := s.attempts + 1, pending := s.pending[producer := Delayed(m, fault)])
  }

  function Committed(o: Options, s: State, producer: nat): State {
    if producer !in s.pending then s
    else
      var r := Admit(o, s.queue, s.pending[producer]);
      s.(queue := r.queue, pending := s.pending - {producer},
         drops := if r.dropped then s.drops + 1 else s.drops,
         stored := if r.stored then s.stored + [s.pending[producer]] else s.stored)
  }

  /** The worker's own steps: the stop test, the take, the publication and its count. */
  function WorkerStep(s: State): State {
    match s.worker
    case AtTop => s.(worker := if s.stop then Exited else Waiting)
    case Waiting =>
      if s.queue != [] then s.(worker := Holding(s.queue[0]), queue := s.queue[1..])
      else if s.stop then s.(worker := Exited)
      else s
    case Holding(m) => s.(published := s.published + [m], worker := Counting)
    case Counting => s.(publishedTotal := s.publishedTotal + 1, worker := AtTop)
    case Exited => s
  }

  /** One atomic step; an action that is not enabled leaves the state alone. */
  function Step(o: Options, s: State, a: Action): State {
    match a
    case Begin(p, m, fault) => Begun(s, p, m, fault)
    case Commit(p) => Committed(o, s, p)
    case Work => WorkerStep(s)
    case Stop => s.(stop := true)
  }

  function Run(o: Options, s: State, actions: seq<Action>): State {
    if actions == [] then s else Step(o, Run(o, s, actions[..|actions|-1]), actions[|actions|-1])
  }

  /** f lists, in increasing order, where the elements of a stand in b. */
  ghost predicate Embeds(f: seq<nat>, a: seq<Measurement>, b: seq<Measurement>) {
    && |f| == |a|
    && (forall i | 0 <= i < |f| :: f[i] < |b| && b[f[i]] == a[i])
    && (forall i, j | 0 <= i < j < |f| :: f[i] < f[j])
  }

  /** a can be obtained from b by leaving elements out. */
  ghost predicate Subsequence(a: seq<Measurement>, b: seq<Measurement>) {
    exists f: seq<nat> :: Embeds(f, a, b)
  }

  function InHand(s: State): seq<Measurement> {
    if s.worker.Holding? then [s.worker.m] else []
  }

  /** Everything taken off the queue, in order. */
  function Taken(s: State): seq<Measurement> {
    s.published + InHand(s)
  }

  ghost predicate Bounded(o: Options, s: State) {
    |s.queue| <= o.maxQueue
  }

  ghost predicate Conserved(s: State) {
    && s.attempts == |s.pending| + s.drops + |s.queue| + |Taken(s)|
    && |s.published| == s.publishedTotal + (if s.worker.Counting? then 1 else 0)
  }

  /** The queue is the newest part of what was stored; what was taken is, in order, part of the rest. */
  ghost predicate InOrder(s: State) {
    && |s.queue| <= |s.stored|
    && var n := |s.stored| - |s.queue|;
       && s.queue == s.stored[n..]
       && Subsequence(Taken(s), s.stored[..n])
  }

  /** When the newest is dropped, nothing stored is ever lost. */
  ghost predicate NothingStoredIsLost(o: Options, s: State) {
    !o.dropOldest ==> s.stored == Taken(s) + s.queue
  }

  ghost predicate Sound(o: Options, s: State) {
    Bounded(o, s) && Conserved(s) && InOrder(s) && NothingStoredIsLost(o, s)
  }

  lemma {:induction false} BeginKeepsSound(o: Options, s: State, p: nat, m: Measurement, fault: Fault)
    requires Sound(o, s)
    ensures Sound(o, Begun(s, p, m, fault))
  {
    hide Subsequence;
    if p !in s.pending && !fault.drop {
      var next := s.pending[p := Delayed(m, fault)];
      assert next.Keys == s.pending.Keys + {p};
      assert |s.pending.Keys| == |s.pending| && |next.Keys| == |next|;
    }
  }

  lemma {:induction false} CommitConserves(o: Options, s: State, p: nat)
    requires Conserved(s) && p in s.pending
    ensures Conserved(Committed(o, s, p))
  {
    var rest := s.pending - {p};
    assert s.pending.Keys == rest.Keys + {p};
    assert |s.pending.Keys| == |s.pending| && |rest.Keys| == |rest|;
  }

  lemma {:induction false} CommitKeepsOrder(o: Options, s: State, p: nat)
    requires Bounded(o, s) && InOrder(s) && p in s.pending
    ensures InOrder(Committed(o, s, p))
  {
    hide Subsequence;
    var n := |s.stored| - |s.queue|;
    var next := Committed(o, s, p);
    var r := Admit(o, s.queue, s.pending[p]);
    assert Taken(next) == Taken(s);
    if r.stored && r.dropped {
      SubsequenceSkips(Taken(s), s.stored[..n], s.stored[n]);
      assert next.stored[..n+1] == s.stored[..n] + [s.stored[n]];
      assert next.queue == next.stored[n+1..];
    } else if r.stored {
      assert next.stored[..n] == s.stored[..n];
      assert next.queue == next.stored[n..];
    }
  }

  lemma {:induction false} CommitKeepsStored(o: Options, s: State, p: nat)
    requires NothingStoredIsLost(o, s) && p in s.pending
    ensures NothingStoredIsLost(o, Committed(o, s, p))
  {
  }

  lemma {:induction false} SubsequenceSkips(a: seq<Measurement>, b: seq<Measurement>, x: Measurement)
    requires Subsequence(a, b)
    ensures Subsequence(a, b + [x])
  {
    var f: seq<nat> :| Embeds(f, a, b);
    assert Embeds(f, a, b + [x]);
  }

  lemma {:induction false} SubsequenceTakes(a: seq<Measurement>, b: seq<Measurement>, x: Measurement)
    requires Subsequence(a, b)
    ensures Subsequence(a + [x], b + [x])
  {
    var f: seq<nat> :| Embeds(f, a, b);
    var g := f + [|b|];
    forall i | 0 <= i < |g| ensures g[i] < |b| + 1 && (b + [x])[g[i]] == (a + [x])[i] {
      assert i < |f| ==> g[i] == f[i];
    }
    assert Embeds(g, a + [x], b + [x]);
  }

  lemma {:induction false} TakeKeepsOrder(o: Options, s: State)
    requires InOrder(s) && s.worker.Waiting? && s.queue != []
    ensures InOrder(WorkerStep(s))
  {
    hide Subsequence;
    var next := WorkerStep(s);
    var n := |s.stored| - |s.queue|;
    SubsequenceTakes(Taken(s), s.stored[..n], s.stored[n]);
    assert next.queue == next.stored[n+1..];
    assert next.stored[..n+1] == s.stored[..n] + [s.stored[n]];
    assert Taken(s) == s.published;
  }

  lemma {:induction false} TakeKeepsStored(o: Options, s: State)
    requires NothingStoredIsLost(o, s) && s.worker.Waiting? && s.queue != []
    ensures NothingStoredIsLost(o, WorkerStep(s))
  {
  }

  lemma {:induction false} WorkKeepsSound(o: Options, s: State)
    requires Sound(o, s)
    ensures Sound(o, WorkerStep(s))
  {
    hide Subsequence;
    if s.worker.Waiting? && s.queue != [] {
      hide InOrder, NothingStoredIsLost;
      TakeKeepsOrder(o, s);
      TakeKeepsStored(o, s);
    } else {
      assert Taken(WorkerStep(s)) == Taken(s);
    }
  }

  lemma {:induction false} StepKeepsSound(o: Options, s: State, a: Action)
    requires Sound(o, s)
    ensures Sound(o, Step(o, s, a))
  {
    hide Subsequence;
    match a
    case Begin(p, m, fault) => BeginKeepsSound(o, s, p, m, fault);
    case Commit(p) =>
      if p in s.pending {
        CommitConserves(o, s, p);
        CommitKeepsOrder(o, s, p);
        CommitKeepsStored(o, s, p);
      }
    case Work => WorkKeepsSound(o, s);
    case Stop =>
      assert Taken(s.(stop := true)) == Taken(s);
  }

  /** Under every interleaving of producers, worker and shutdown, for both policies and any bound, zero included. */
  lemma {:induction false} EveryInterleaving(o: Options, actions: seq<Action>)
    ensures Sound(o, Run(o, INITIAL, actions))
  {
    if actions == [] {
      assert Embeds([], [], []);
    } else {
      var n := |actions| - 1;
      EveryInterleaving(o, actions[..n]);
      StepKeepsSound(o, Run(o, INITIAL, actions[..n]), actions[n]);
    }
  }

  /** How many more publications can follow a shutdown: the loop exits without draining the queue. */
  function AfterStop(w: Worker): nat {
    if w.Waiting? || w.Holding? then 1 else 0
  }

  /** Once stop is set, at most one more measurement is published, and none when the worker is not at its wait
      or holding one; what is still queued then stays unpublished. */
  lemma {:induction false} StopPublishesAtMostOne(o: Options, s: State, actions: seq<Action>)
    requires s.stop
    ensures var r := Run(o, s, actions);
            r.stop && |r.published| + AfterStop(r.worker) <= |s.published| + AfterStop(s.worker)
  {
    if actions != [] {
      StopPublishesAtMostOne(o, s, actions[..|actions|-1]);
    }
  }

  /** The worker running on its own. */
  function WorkerRuns(s: State, steps: nat): State
    decreases steps
  {
    if steps == 0 then s else WorkerRuns(WorkerStep(s), steps - 1)
  }

  /** Without a shutdown the worker publishes the whole queue, in order, in four steps a measurement. */
  lemma {:induction false} WorkerDrains(s: State)
    requires !s.stop && s.worker.AtTop?
    ensures WorkerRuns(s, 4 * |s.queue|) ==
            s.(queue := [], published := s.published + s.queue, publishedTotal := s.publishedTotal + |s.queue|)
    decreases |s.queue|
  {
    if s.queue == [] {
      assert s.published + s.queue == s.published;
    } else {
      var one := s.(queue := s.queue[1..], published := s.published + [s.queue[0]],
                    publishedTotal := s.publishedTotal + 1);
      OneRound(s);
      FourThenRest(s, 4 * |s.queue[1..]|);
      WorkerDrains(one);
      assert s.published + s.queue == one.published + one.queue;
    }
  }

  lemma {:induction false} OneRound(s: State)
    requires !s.stop && s.worker.AtTop? && s.queue != []
    ensures WorkerStep(WorkerStep(WorkerStep(WorkerStep(s)))) ==
            s.(queue := s.queue[1..], published := s.published + [s.queue[0]], publishedTotal := s.publishedTotal + 1)
  {
  }

  lemma {:induction false} FourThenRest(s: State, steps: nat)
    ensures WorkerRuns(s, 4 + steps) == WorkerRuns(WorkerStep(WorkerStep(WorkerStep(WorkerStep(s)))), steps)
  {
    hide WorkerStep;
    var a := WorkerStep(s);
    var b := WorkerStep(a);
    var c := WorkerStep(b);
    assert WorkerRuns(s, 4 + steps) == WorkerRuns(a, 3 + steps);
    assert WorkerRuns(b, 2 + steps) == WorkerRuns(c, 1 + steps);
  }

  /** After shutdown the worker's four next steps end it, and the queue is drained exactly when it was empty, or held
      one measurement while the worker was already waiting. */
  lemma {:induction false} ShutdownDrainsExactly(s: State)
    requires s.stop
    ensures var r := WorkerRuns(s, 4);
            && r.worker.Exited?
            && (r.queue == [] <==> s.queue == [] || (s.worker.Waiting? && |s.queue| == 1))
  {
    FourThenRest(s, 0);
  }

  /** Whatever else happens between, an exited worker publishes nothing more: what is queued by then stays queued or
      is pushed out. */
  lemma {:induction false} ExitIsFinal(o: Options, s: State, actions: seq<Action>)
    requires s.worker.Exited?
    ensures var r := Run(o, s, actions);
            r.worker.Exited? && r.published == s.published && r.publishedTotal == s.publishedTotal
  {
    if actions != [] {
      ExitIsFinal(o, s, actions[..|actions|-1]);
    }
  }

  /** A shutdown that loses a measurement: it is queued before the worker reaches its stop test. */
  lemma {:induction false} ShutdownCanLose(m: Measurement)
    ensures var s := Run(Options(1, true), INITIAL, [Begin(0, m, Fault(false, None)), Commit(0), Stop]);
            s.stop && s.queue == [m] && WorkerRuns(s, 4).worker.Exited? && WorkerRuns(s, 4).queue == [m]
  {
    var o := Options(1, true);
    var begin, commit := Begin(0, m, Fault(false, None)), Commit(0);
    var one, two := [begin], [begin, commit];
    var three := [begin, commit, Stop];
    assert one[..0] == [] && two[..1] == one && three[..2] == two;
    assert Run(o, INITIAL, one) == INITIAL.(attempts := 1, pending := map[0 := m]);
    assert Run(o, INITIAL, two).queue == [m];
    FourThenRest(Run(o, INITIAL, three), 0);
  }
}
