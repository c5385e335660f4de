/** The simulation loop around the tree: tracks and interceptors in, tick, assign, step, intercepts
    (call order of src/tools/run_sim.cpp:633-733). */
module ClosedLoop {
  import opened Basics
  import opened Sorting
  import opened Interceptors
  import opened Mission
  import opened MissionTick
  import opened MissionLaws
  import opened AllocationLaws
  import opened EngagementRules

  /** What persists from one round of the loop to the next. */
  datatype World = World(memory: Memory, board: Board, fleet: Fleet)

  /** What a round receives: the tracks, the health, the step, the hits to report and whether the
      caller clears the blackboard's engagement afterwards. Hits and clearing may be anything. */
  datatype Input = Input(
    tick: nat,
    time: real,
    tracks: seq<TrackFact>,
    health: seq<SensorHealth>,
    dt: real,
    timeout: real,
    speeds: seq<real>,
    hits: seq<(nat, nat)>,
    clear: bool)

  /** The snapshot the tree sees. */
  function SnapshotOf(cfg: Config, w: World, input: Input): Snapshot {
    Snapshot(input.tick, input.time, Sort(Outranks, input.tracks), Sort(FactBefore, FactsOf(cfg.sqrt, w.fleet.states)),
             input.health, w.board)
  }

  /** The positions the interceptors are given: confirmed tracks only. */
  function ConfirmedPositions(tracks: seq<TrackFact>): seq<(nat, Vec3)> {
    if tracks == [] then []
    else
      var n := |tracks| - 1;
      ConfirmedPositions(tracks[..n])
        + if tracks[n].status == Confirmed then [(tracks[n].trackId, tracks[n].position)] else []
  }

  function PositionsIn(input: Input): Positions {
    PositionsOf(ConfirmedPositions(input.tracks))
  }

  function Orders(commands: seq<Command>): (r: seq<(nat, nat)>)
    ensures |r| == |commands| && forall k | 0 <= k < |r| :: r[k] == (commands[k].interceptorId, commands[k].trackId)
  {
    seq(|commands|, k requires 0 <= k < |commands| => (commands[k].interceptorId, commands[k].trackId))
  }

  function Decided(cfg: Config, w: World, input: Input): Outcome {
    Tick(cfg, w.memory, SnapshotOf(cfg, w, input))
  }

  function AssignedFleet(cfg: Config, w: World, input: Input): Fleet
    requires IsFleet(w.fleet)
  {
    AssignAll(w.fleet, PositionsIn(input), Orders(Decided(cfg, w, input).result.commands))
  }

  function SteppedFleet(cfg: Config, input: Input, fleet: Fleet): (r: Fleet)
    requires |input.speeds| == |fleet.states|
    ensures r.index == fleet.index && |r.states| == |fleet.states|
    ensures forall k | 0 <= k < |r.states| ::
              r.states[k] == StepOne(cfg.sqrt, input.speeds[k], input.timeout, PositionsIn(input), fleet.states[k],
                                     input.dt)
  {
    fleet.(states := seq(|fleet.states|, k requires 0 <= k < |fleet.states| =>
      StepOne(cfg.sqrt, input.speeds[k], input.timeout, PositionsIn(input), fleet.states[k], input.dt)))
  }

  lemma {:induction false} SteppedIsFleet(cfg: Config, input: Input, fleet: Fleet)
    requires IsFleet(fleet) && |input.speeds| == |fleet.states|
    ensures IsFleet(SteppedFleet(cfg, input, fleet))
  {
    var r := SteppedFleet(cfg, input, fleet);
    forall k | 0 <= k < |r.states| ensures r.states[k].interceptorId == fleet.states[k].interceptorId {
      StepOneEngagement(cfg.sqrt, input.speeds[k], input.timeout, PositionsIn(input), fleet.states[k], input.dt);
    }
  }

  /** One round of the loop. */
  ghost function Round(cfg: Config, w: World, input: Input): World
    requires IsFleet(w.fleet) && |input.speeds| == |w.fleet.states|
  {
    var out := Decided(cfg, w, input);
    SteppedIsFleet(cfg, input, AssignedFleet(cfg, w, input));
    var handled := HandleAll(SteppedFleet(cfg, input, AssignedFleet(cfg, w, input)), input.hits);
    World(out.memory, if input.clear then out.board.(engagement := NO_ENGAGEMENT) else out.board, handled)
  }

  // ---------------------------------------------------------------- the invariant

  ghost predicate DistinctStates(states: seq<InterceptorState>) {
    forall i, j | 0 <= i < j < |states| :: states[i].interceptorId != states[j].interceptorId
  }

  /** No two engaged interceptors have the same target, and an engaged one has a target. */
  ghost predicate NoDoubleEngagement(states: seq<InterceptorState>) {
    && (forall i, j | 0 <= i < j < |states| && states[i].engaged && states[j].engaged ::
          states[i].targetId != states[j].targetId)
    && (forall i | 0 <= i < |states| && states[i].engaged :: states[i].targetId != 0)
  }

  ghost predicate IsSound(w: World) {
    && IsFleet(w.fleet) && DistinctStates(w.fleet.states)
    && NoDoubleEngagement(w.fleet.states)
    && DistinctActives(w.memory.actives)
  }

  ghost predicate IsInput(w: World, input: Input) {
    && DistinctTracks(input.tracks) && (forall t | t in input.tracks :: t.trackId != 0)
    && |input.speeds| == |w.fleet.states|
  }

  // ---------------------------------------------------------------- the snapshot mirrors the fleet

  predicate OtherTrack(a: TrackFact, b: TrackFact) {
    a.trackId != b.trackId
  }

  predicate OtherInterceptor(a: InterceptorFact, b: InterceptorFact) {
    a.interceptorId != b.interceptorId
  }

  lemma {:induction false} SnapshotIsWellFormed(cfg: Config, w: World, input: Input)
    requires IsSound(w) && IsInput(w, input)
    ensures WellFormed(SnapshotOf(cfg, w, input))
  {
    var facts := FactsOf(cfg.sqrt, w.fleet.states);
    SortKeepsPairwise(Outranks, OtherTrack, input.tracks);
    SortKeepsPairwise(FactBefore, OtherInterceptor, facts);
    var snap := SnapshotOf(cfg, w, input);
    assert forall i, j | 0 <= i < j < |snap.tracks| :: OtherTrack(snap.tracks[i], snap.tracks[j]);
    assert forall i, j | 0 <= i < j < |snap.interceptors| ::
             OtherInterceptor(snap.interceptors[i], snap.interceptors[j]);
    SortKeepsElements(Outranks, input.tracks);
    forall t | t in snap.tracks ensures t.trackId != 0 {
      SameElements(snap.tracks, input.tracks, t);
    }
  }

  /** A fact of the snapshot is the fact of some state. */
  lemma {:induction false} FactHasState(cfg: Config, w: World, input: Input, i: InterceptorFact) returns (k: nat)
    requires i in SnapshotOf(cfg, w, input).interceptors
    ensures k < |w.fleet.states| && FactOf(cfg.sqrt, w.fleet.states[k]) == i
  {
    var facts := FactsOf(cfg.sqrt, w.fleet.states);
    SortKeepsElements(FactBefore, facts);
    SameElements(Sort(FactBefore, facts), facts, i);
    k :| 0 <= k < |facts| && facts[k] == i;
  }

  lemma {:induction false} StateHasFact(cfg: Config, w: World, input: Input, k: nat)
    requires k < |w.fleet.states|
    ensures FactOf(cfg.sqrt, w.fleet.states[k]) in SnapshotOf(cfg, w, input).interceptors
  {
    var facts := FactsOf(cfg.sqrt, w.fleet.states);
    SortKeepsElements(FactBefore, facts);
    assert facts[k] in facts;
    SameElements(Sort(FactBefore, facts), facts, facts[k]);
  }

  lemma {:induction false} TrackInInput(cfg: Config, w: World, input: Input, t: TrackFact)
    ensures t in SnapshotOf(cfg, w, input).tracks <==> t in input.tracks
  {
    SortKeepsElements(Outranks, input.tracks);
    SameElements(Sort(Outranks, input.tracks), input.tracks, t);
  }

  // ---------------------------------------------------------------- the memory mirrors the fleet

  ghost predicate Remembers(actives: seq<Active>, track: nat, interceptor: nat) {
    exists a :: a in actives && a.trackId == track && a.interceptorId == interceptor
  }

  /** State k is engaged on a track that is live in the input. */
  ghost predicate EngagedLive(input: Input, s: InterceptorState) {
    s.engaged && IsLive(input.tracks, s.targetId)
  }

  lemma {:induction false} SamePairsRemember(a: seq<Active>, b: seq<Active>, track: nat, interceptor: nat)
    requires SamePairs(a, b)
    ensures Remembers(a, track, interceptor) <==> Remembers(b, track, interceptor)
  {
  }

  ghost function KeptIn(cfg: Config, w: World, input: Input): seq<Active> {
    Kept(cfg, w.memory, SnapshotOf(cfg, w, input))
  }

  lemma {:induction false} LiveInSnapshot(cfg: Config, w: World, input: Input, track: nat)
    ensures IsLive(SnapshotOf(cfg, w, input).tracks, track) <==> IsLive(input.tracks, track)
  {
    var snap := SnapshotOf(cfg, w, input);
    if t :| t in snap.tracks && t.trackId == track && t.status != Deleted {
      TrackInInput(cfg, w, input, t);
    }
    if t :| t in input.tracks && t.trackId == track && t.status != Deleted {
      TrackInInput(cfg, w, input, t);
    }
  }

  /** After reconciliation the memory holds exactly the engagements on live tracks. */
  lemma {:induction false} KeptMirrorsFleet(cfg: Config, w: World, input: Input, k: nat, track: nat)
    requires IsSound(w) && IsInput(w, input) && k < |w.fleet.states|
    ensures var s := w.fleet.states[k];
            Remembers(KeptIn(cfg, w, input), track, s.interceptorId) <==> s.targetId == track && EngagedLive(input, s)
  {
    var snap := SnapshotOf(cfg, w, input);
    var s := w.fleet.states[k];
    var survivors := Survivors(w.memory, snap);
    SnapshotIsWellFormed(cfg, w, input);
    SurvivorsAreMaintained(cfg, snap, survivors);
    SamePairsRemember(KeptIn(cfg, w, input), survivors, track, s.interceptorId);
    LiveInSnapshot(cfg, w, input, track);
    hide SnapshotOf, MaintainAll, Reconciled, Merged, WellFormed;
    if Remembers(survivors, track, s.interceptorId) {
      SurvivorHasState(cfg, w, input, track, k);
    }
    if s.targetId == track && EngagedLive(input, s) {
      StateHasSurvivor(cfg, w, input, k);
    }
  }

  lemma {:induction false} SurvivorHasState(cfg: Config, w: World, input: Input, track: nat, k: nat)
    requires IsSound(w) && IsInput(w, input) && k < |w.fleet.states|
    requires Remembers(Survivors(w.memory, SnapshotOf(cfg, w, input)), track, w.fleet.states[k].interceptorId)
    ensures w.fleet.states[k].engaged && w.fleet.states[k].targetId == track
            && IsLive(SnapshotOf(cfg, w, input).tracks, track)
  {
    var snap := SnapshotOf(cfg, w, input);
    var survivors := Survivors(w.memory, snap);
    var a :| a in survivors && a.trackId == track && a.interceptorId == w.fleet.states[k].interceptorId;
    SurvivorAgrees(snap, a);
    var i :| i in snap.interceptors && i.interceptorId == a.interceptorId && i.engaged && i.targetId == a.trackId;
    var j := FactHasState(cfg, w, input, i);
    SameState(w.fleet.states, j, k);
  }

  lemma {:induction false} SameState(states: seq<InterceptorState>, j: nat, k: nat)
    requires DistinctStates(states) && j < |states| && k < |states|
             && states[j].interceptorId == states[k].interceptorId
    ensures j == k
  {
  }

  lemma {:induction false} StateHasSurvivor(cfg: Config, w: World, input: Input, k: nat)
    requires IsSound(w) && IsInput(w, input) && k < |w.fleet.states| && EngagedLive(input, w.fleet.states[k])
    ensures Remembers(Survivors(w.memory, SnapshotOf(cfg, w, input)), w.fleet.states[k].targetId,
                      w.fleet.states[k].interceptorId)
  {
    var snap := SnapshotOf(cfg, w, input);
    var s := w.fleet.states[k];
    SnapshotIsWellFormed(cfg, w, input);
    StateHasFact(cfg, w, input, k);
    LiveInSnapshot(cfg, w, input, s.targetId);
    var a := EngagedIsRemembered(w.memory.actives, snap, FactOf(cfg.sqrt, s));
    var owner :| owner in snap.interceptors && owner.engaged && owner.targetId == s.targetId
      && owner.interceptorId == a.interceptorId;
    var j := FactHasState(cfg, w, input, owner);
    assert j == k by {
      assert !(j < k) && !(k < j);
    }
  }

  // ---------------------------------------------------------------- commands are fresh

  /** No command names a track some interceptor is already engaged on. */
  lemma {:induction false} CommandsAreFresh(cfg: Config, w: World, input: Input, c: Command, k: nat)
    requires IsSound(w) && IsInput(w, input) && k < |w.fleet.states|
    requires c in Decided(cfg, w, input).result.commands
    ensures w.fleet.states[k].engaged ==> w.fleet.states[k].targetId != c.trackId
    ensures exists t :: t in input.tracks && t.trackId == c.trackId && t.status == Confirmed
  {
    var snap := SnapshotOf(cfg, w, input);
    SnapshotIsWellFormed(cfg, w, input);
    var t := CommandsAreLegal(cfg, w.memory, snap, c);
    TrackInInput(cfg, w, input, t);
    var s := w.fleet.states[k];
    hide Tick, SnapshotOf, WellFormed;
    if s.engaged && s.targetId == c.trackId {
      KeptMirrorsFleet(cfg, w, input, k, c.trackId);
      var kept := KeptIn(cfg, w, input);
      assert Remembers(kept, c.trackId, s.interceptorId);
      RememberedIsEngaged(kept, c.trackId, s.interceptorId);
    }
  }

  lemma {:induction false} RememberedIsEngaged(actives: seq<Active>, track: nat, interceptor: nat)
    requires Remembers(actives, track, interceptor)
    ensures IsEngaged(actives, track)
  {
  }

  // ---------------------------------------------------------------- carrying the commands out

  function LastOrder(orders: seq<(nat, nat)>, id: nat): (r: Option<nat>)
    ensures r.Some? ==> (id, r.value) in orders
    ensures r.None? ==> forall o | o in orders :: o.0 != id
  {
    if orders == [] then None
    else
      var n := |orders| - 1;
      assert orders == orders[..n] + [orders[n]];
      if orders[n].0 == id then Some(orders[n].1) else LastOrder(orders[..n], id)
  }

  /** Assignment engages exactly the interceptors that were named, each on the last track named for it. */
  lemma {:induction false} AssignAllEffect(fleet: Fleet, positions: Positions, orders: seq<(nat, nat)>, k: nat)
    requires IsFleet(fleet) && DistinctStates(fleet.states) && k < |fleet.states|
    requires forall o | o in orders :: o.1 in positions
    ensures var r := AssignAll(fleet, positions, orders).states[k];
            var order := LastOrder(orders, fleet.states[k].interceptorId);
            if order.Some? then r.engaged && r.targetId == order.value else r == fleet.states[k]
  {
    if orders != [] {
      var n := |orders| - 1;
      assert orders == orders[..n] + [orders[n]];
      AssignAllEffect(fleet, positions, orders[..n], k);
      var before := AssignAll(fleet, positions, orders[..n]);
      var id := orders[n].0;
      if id in before.index {
        var i := before.index[id];
        assert before.states[i].interceptorId == id;
        if i != k {
          assert if i < k then fleet.states[i].interceptorId != fleet.states[k].interceptorId
                 else fleet.states[k].interceptorId != fleet.states[i].interceptorId;
        }
      }
      assert fleet.states[k].interceptorId == id ==> before.states[k].interceptorId in before.index;
    }
  }

  lemma {:induction false} PositionsOfHas(entries: seq<(nat, Vec3)>, e: (nat, Vec3))
    requires e in entries
    ensures e.0 in PositionsOf(entries)
  {
    var n := |entries| - 1;
    assert entries == entries[..n] + [entries[n]];
    if e != entries[n] {
      PositionsOfHas(entries[..n], e);
    }
  }

  lemma {:induction false} ConfirmedHasPosition(tracks: seq<TrackFact>, t: TrackFact)
    requires t in tracks && t.status == Confirmed
    ensures (t.trackId, t.position) in ConfirmedPositions(tracks)
  {
    var n := |tracks| - 1;
    assert tracks == tracks[..n] + [tracks[n]];
    if t != tracks[n] {
      ConfirmedHasPosition(tracks[..n], t);
    }
  }

  /** Every command can be carried out: its track is confirmed, so its position is known. */
  lemma {:induction false} OrdersHavePositions(cfg: Config, w: World, input: Input)
    requires IsSound(w) && IsInput(w, input)
    ensures forall o | o in Orders(Decided(cfg, w, input).result.commands) ::
              o.1 in PositionsIn(input) && IsLive(input.tracks, o.1) && o.1 != 0
  {
    var snap := SnapshotOf(cfg, w, input);
    SnapshotIsWellFormed(cfg, w, input);
    var commands := Decided(cfg, w, input).result.commands;
    forall o | o in Orders(commands)
      ensures o.1 in PositionsIn(input) && IsLive(input.tracks, o.1) && o.1 != 0
    {
      var k :| 0 <= k < |commands| && Orders(commands)[k] == o;
      var t := CommandsAreLegal(cfg, w.memory, snap, commands[k]);
      TrackInInput(cfg, w, input, t);
      ConfirmedHasPosition(input.tracks, t);
      PositionsOfHas(ConfirmedPositions(input.tracks), (t.trackId, t.position));
    }
  }

  // ---------------------------------------------------------------- the memory after the tick

  lemma {:induction false} KeptIsDistinct(cfg: Config, w: World, input: Input)
    requires IsSound(w)
    ensures DistinctActives(KeptIn(cfg, w, input))
  {
    var snap := SnapshotOf(cfg, w, input);
    MergedDistinct(w.memory.actives, snap);
    ReconciledDistinct(snap, Merged(w.memory.actives, snap));
    SurvivorsAreMaintained(cfg, snap, Survivors(w.memory, snap));
  }

  lemma {:induction false} NotEngagedNotIn(actives: seq<Active>, track: nat)
    requires !IsEngaged(actives, track)
    ensures forall k | 0 <= k < |actives| :: actives[k].trackId != track
  {
  }

  lemma {:induction false} AllocatedIsDistinct(sc: Scene, idle: seq<InterceptorFact>, kept: seq<Active>)
    requires DistinctActives(kept) && MissionLaws.DistinctInterceptors(idle)
    ensures DistinctActives(Allocate(sc, idle, kept).actives)
  {
    AllocateShape(sc, idle, kept);
    AllocatePairs(sc, idle, kept);
    var a := Allocate(sc, idle, kept);
    hide Allocate;
    var added := NewActives(a.pairs, sc.snap.time);
    forall i, j | 0 <= i < |kept| && 0 <= j < |added| ensures kept[i].trackId != added[j].trackId {
      assert IsPair(sc, idle, kept, a.pairs[j]) by {
        assert a.pairs[j] in a.pairs;
      }
      NotEngagedNotIn(kept, a.pairs[j].track.trackId);
    }
  }

  lemma {:induction false} IdleIsDistinct(interceptors: seq<InterceptorFact>)
    requires MissionLaws.DistinctInterceptors(interceptors)
    ensures MissionLaws.DistinctInterceptors(IdleOnes(interceptors))
  {
    if interceptors != [] {
      var n := |interceptors| - 1;
      IdleIsDistinct(interceptors[..n]);
      var r := IdleOnes(interceptors[..n]);
      forall i | 0 <= i < |r| ensures r[i].interceptorId != interceptors[n].interceptorId {
        assert r[i] in interceptors[..n];
      }
    }
  }

  /** The memory never holds two engagements of one track. */
  lemma {:induction false} MemoryStaysDistinct(cfg: Config, w: World, input: Input)
    requires IsSound(w) && IsInput(w, input)
    ensures DistinctActives(Decided(cfg, w, input).memory.actives)
  {
    var snap := SnapshotOf(cfg, w, input);
    var sc := SceneOf(cfg, w.memory, snap);
    var kept := KeptIn(cfg, w, input);
    SnapshotIsWellFormed(cfg, w, input);
    KeptIsDistinct(cfg, w, input);
    TickCommands(cfg, w.memory, snap);
    IdleIsDistinct(snap.interceptors);
    AllocatedIsDistinct(sc, IdleOnes(snap.interceptors), kept);
    ScanSwapsLegal(sc, kept, |kept|);
    var swap := ChosenSwap(sc, kept);
    if swap.Some? {
      NotEngagedNotIn(kept, swap.value.track.trackId);
    }
    hide Tick, SnapshotOf, WellFormed, Allocate;
  }

  // ---------------------------------------------------------------- memory and fleet agree after assignment

  /** Right after assignment, state k and the memory tell the same story about every live track. */
  ghost predicate Agrees(cfg: Config, w: World, input: Input, k: nat, track: nat)
    requires IsFleet(w.fleet) && k < |w.fleet.states|
  {
    var s := AssignedFleet(cfg, w, input).states[k];
    Remembers(Decided(cfg, w, input).memory.actives, track, s.interceptorId) <==>
      s.targetId == track && EngagedLive(input, s)
  }

  /** What a tick that sends idle interceptors out leaves behind. */
  lemma {:induction false} AllocationFacts(cfg: Config, w: World, input: Input)
    requires IsSound(w) && IsInput(w, input)
    ensures var snap := SnapshotOf(cfg, w, input);
            var pairs := Allocated(cfg, w.memory, snap).pairs;
            && DistinctPairs(pairs)
            && (forall p | p in pairs :: p.interceptor in IdleOnes(snap.interceptors))
            && (pairs != [] ==> Decided(cfg, w, input).result.commands == CommandsOf(pairs)
                                && Decided(cfg, w, input).memory.actives == KeptIn(cfg, w, input)
                                   + NewActives(pairs, snap.time))
  {
    var snap := SnapshotOf(cfg, w, input);
    var sc, kept, idle := SceneOf(cfg, w.memory, snap), KeptIn(cfg, w, input), IdleOnes(snap.interceptors);
    SnapshotIsWellFormed(cfg, w, input);
    hide Tick, Allocate, SnapshotOf;
    TickCommands(cfg, w.memory, snap);
    IdleIsDistinct(snap.interceptors);
    AllocateShape(sc, idle, kept);
    AllocatePairs(sc, idle, kept);
  }

  /** Assignment leaves state k alone, or engages it on the last live track ordered for it. */
  lemma {:induction false} AssignedEffect(cfg: Config, w: World, input: Input, k: nat)
    requires IsSound(w) && IsInput(w, input) && k < |w.fleet.states|
    ensures var r := AssignedFleet(cfg, w, input).states[k];
            var order := LastOrder(Orders(Decided(cfg, w, input).result.commands), w.fleet.states[k].interceptorId);
            && r.interceptorId == w.fleet.states[k].interceptorId
            && if order.Some? then r.engaged && r.targetId == order.value && r.targetId != 0
            && IsLive(input.tracks, r.targetId)
               else r == w.fleet.states[k]
  {
    hide Decided, SnapshotOf;
    OrdersHavePositions(cfg, w, input);
    AssignAllEffect(w.fleet, PositionsIn(input), Orders(Decided(cfg, w, input).result.commands), k);
  }

  /** The order for an interceptor is the track it was paired with, if any. */
  lemma {:induction false} OrderOfPairs(pairs: seq<Match>, id: nat)
    requires DistinctPairs(pairs)
    ensures var order := LastOrder(Orders(CommandsOf(pairs)), id);
            && (order.Some? ==> exists j :: 0 <= j < |pairs| && pairs[j].interceptor.interceptorId == id)
            && (forall j | 0 <= j < |pairs| && pairs[j].interceptor.interceptorId == id ::
                  order == Some(pairs[j].track.trackId))
  {
  }

  lemma {:induction false} AllocationAgrees(cfg: Config, w: World, input: Input, k: nat, track: nat)
    requires IsSound(w) && IsInput(w, input) && k < |w.fleet.states|
    requires Allocated(cfg, w.memory, SnapshotOf(cfg, w, input)).pairs != []
    ensures Agrees(cfg, w, input, k, track)
  {
    hide SnapshotOf, Allocated, KeptIn, Decided, AssignedFleet, Remembers, DistinctPairs, LastOrder, IsInput;
    var snap := SnapshotOf(cfg, w, input);
    var pairs := Allocated(cfg, w.memory, snap).pairs;
    var id := w.fleet.states[k].interceptorId;
    AllocationFacts(cfg, w, input);
    AssignedLength(cfg, w, input);
    AssignedEffect(cfg, w, input, k);
    KeptMirrorsFleet(cfg, w, input, k, track);
    PairsRemember(KeptIn(cfg, w, input), pairs, snap.time, track, id);
    OrderOfPairs(pairs, id);
    if j :| 0 <= j < |pairs| && pairs[j].interceptor.interceptorId == id {
      assert pairs[j] in pairs;
      IdleStateNotEngaged(cfg, w, input, k, pairs[j].interceptor);
    }
  }

  lemma {:induction false} IdleStateNotEngaged(cfg: Config, w: World, input: Input, k: nat, i: InterceptorFact)
    requires DistinctStates(w.fleet.states) && k < |w.fleet.states|
    requires i in IdleOnes(SnapshotOf(cfg, w, input).interceptors) && i.interceptorId == w.fleet.states[k].interceptorId
    ensures !w.fleet.states[k].engaged
  {
    var j := FactHasState(cfg, w, input, i);
    SameState(w.fleet.states, j, k);
  }

  /** What the memory holds once the pairs are added: what it held, and the pairs. */
  lemma {:induction false} PairsRemember(kept: seq<Active>, pairs: seq<Match>, time: real, track: nat, id: nat)
    ensures Remembers(kept + NewActives(pairs, time), track, id) <==>
            Remembers(kept, track, id)
            || exists j | 0 <= j < |pairs| ::
                 pairs[j].track.trackId == track && pairs[j].interceptor.interceptorId == id
  {
  }

  lemma {:induction false} SwapAgrees(cfg: Config, w: World, input: Input, k: nat, track: nat)
    requires IsSound(w) && IsInput(w, input) && k < |w.fleet.states|
    requires var snap := SnapshotOf(cfg, w, input);
             var swap := ChosenSwap(SceneOf(cfg, w.memory, snap), KeptIn(cfg, w, input));
             && swap.Some?
             && Decided(cfg, w, input).result.commands ==
                [Command(KeptIn(cfg, w, input)[swap.value.active].interceptorId, swap.value.track.trackId,
                         swap.value.track.position, RetaskAssignment)]
             && Decided(cfg, w, input).memory.actives == Swapped(KeptIn(cfg, w, input), swap.value, snap.time)
    ensures Agrees(cfg, w, input, k, track)
  {
    hide ChosenSwap, SnapshotOf, KeptIn, Decided, AssignedFleet, Remembers, IsInput;
    var snap := SnapshotOf(cfg, w, input);
    var kept := KeptIn(cfg, w, input);
    var swap := ChosenSwap(SceneOf(cfg, w.memory, snap), kept).value;
    var id := w.fleet.states[k].interceptorId;
    var owner := kept[swap.active].interceptorId;
    AssignedLength(cfg, w, input);
    AssignedEffect(cfg, w, input, k);
    KeptMirrorsFleet(cfg, w, input, k, track);
    assert Orders(Decided(cfg, w, input).result.commands) == [(owner, swap.track.trackId)];
    assert LastOrder([(owner, swap.track.trackId)], id) == if owner == id then Some(swap.track.trackId) else None;
    if owner == id {
      KeptMirrorsFleet(cfg, w, input, k, kept[swap.active].trackId);
      RemembersAt(kept, swap.active);
      KeptIsDistinct(cfg, w, input);
    }
    SwapRemembers(kept, swap, snap.time, track, id);
  }

  lemma {:induction false} RemembersAt(actives: seq<Active>, j: nat)
    requires j < |actives|
    ensures Remembers(actives, actives[j].trackId, actives[j].interceptorId)
  {
  }

  /** What the memory holds after a swap. */
  lemma {:induction false} SwapRemembers(kept: seq<Active>, swap: Swap, time: real, track: nat, id: nat)
    requires swap.active < |kept|
    ensures Remembers(Swapped(kept, swap, time), track, id) <==>
            || (kept[swap.active].interceptorId == id && swap.track.trackId == track)
            || exists j | 0 <= j < |kept| && j != swap.active ::
                 kept[j].trackId == track && kept[j].interceptorId == id
    ensures Remembers(kept, track, id) <==>
            || (kept[swap.active].interceptorId == id && kept[swap.active].trackId == track)
            || exists j | 0 <= j < |kept| && j != swap.active ::
                 kept[j].trackId == track && kept[j].interceptorId == id
  {
    var after := Swapped(kept, swap, time);
    assert after[swap.active] in after;
    if j :| 0 <= j < |kept| && j != swap.active && kept[j].trackId == track && kept[j].interceptorId == id {
      assert after[j] in after && kept[j] in kept;
    }
    if Remembers(after, track, id) {
      var a :| a in after && a.trackId == track && a.interceptorId == id;
      var j :| 0 <= j < |after| && after[j] == a;
    }
    if Remembers(kept, track, id) {
      var a :| a in kept && a.trackId == track && a.interceptorId == id;
      var j :| 0 <= j < |kept| && kept[j] == a;
    }
  }

  /** Right after assignment the engagements on live tracks are exactly the ones the memory holds. */
  lemma {:induction false} MemoryMirrorsFleet(cfg: Config, w: World, input: Input, k: nat, track: nat)
    requires IsSound(w) && IsInput(w, input) && k < |w.fleet.states|
    ensures Agrees(cfg, w, input, k, track)
  {
    var snap := SnapshotOf(cfg, w, input);
    SnapshotIsWellFormed(cfg, w, input);
    TickCommands(cfg, w.memory, snap);
    var commands := Decided(cfg, w, input).result.commands;
    hide Tick, Agrees, Allocate, SnapshotOf, WellFormed;
    if Allocated(cfg, w.memory, snap).pairs != [] {
      AllocationAgrees(cfg, w, input, k, track);
    } else if commands != [] {
      SwapAgrees(cfg, w, input, k, track);
    } else {
      NothingAgrees(cfg, w, input, k, track);
    }
  }

  lemma {:induction false} NothingAgrees(cfg: Config, w: World, input: Input, k: nat, track: nat)
    requires IsSound(w) && IsInput(w, input) && k < |w.fleet.states|
    requires Decided(cfg, w, input).result.commands == []
             && Decided(cfg, w, input).memory.actives == KeptIn(cfg, w, input)
    ensures Agrees(cfg, w, input, k, track)
  {
    assert Orders([]) == [];
    KeptMirrorsFleet(cfg, w, input, k, track);
  }

  /** Every kept engagement belongs to an interceptor of the fleet. */
  lemma {:induction false} KeptNamesFleet(cfg: Config, w: World, input: Input, j: nat) returns (k: nat)
    requires IsSound(w) && IsInput(w, input) && j < |KeptIn(cfg, w, input)|
    ensures k < |w.fleet.states| && w.fleet.states[k].interceptorId == KeptIn(cfg, w, input)[j].interceptorId
  {
    var snap := SnapshotOf(cfg, w, input);
    var survivors := Survivors(w.memory, snap);
    SurvivorsAreMaintained(cfg, snap, survivors);
    hide SnapshotOf, MaintainAll, Merged;
    SurvivorAgrees(snap, survivors[j]);
    var i :| i in snap.interceptors && i.interceptorId == survivors[j].interceptorId && i.engaged
      && i.targetId == survivors[j].trackId;
    k := FactHasState(cfg, w, input, i);
  }

  /** A tick appends engagements for pairs it made, and otherwise leaves every engagement with its interceptor. */
  lemma {:induction false} TickActives(cfg: Config, w: World, input: Input)
    requires IsSound(w) && IsInput(w, input)
    ensures var kept := KeptIn(cfg, w, input);
            var pairs := Allocated(cfg, w.memory, SnapshotOf(cfg, w, input)).pairs;
            var actives := Decided(cfg, w, input).memory.actives;
            && |actives| == |kept| + |pairs|
            && (forall j | 0 <= j < |kept| :: actives[j].interceptorId == kept[j].interceptorId)
            && (forall j | |kept| <= j < |actives| ::
                  actives[j].interceptorId == pairs[j - |kept|].interceptor.interceptorId)
  {
    hide Tick, SnapshotOf, Allocated, Kept, WellFormed, ChosenSwap, IsSound;
    SnapshotIsWellFormed(cfg, w, input);
    AllocationFacts(cfg, w, input);
    TickCommands(cfg, w.memory, SnapshotOf(cfg, w, input));
  }

  /** Every engagement in the memory belongs to an interceptor of the fleet. */
  lemma {:induction false} MemoryNamesFleet(cfg: Config, w: World, input: Input, a: Active) returns (k: nat)
    requires IsSound(w) && IsInput(w, input)
    requires a in Decided(cfg, w, input).memory.actives
    ensures k < |w.fleet.states| && w.fleet.states[k].interceptorId == a.interceptorId
  {
    hide Decided, Allocated, SnapshotOf, KeptIn;
    var pairs := Allocated(cfg, w.memory, SnapshotOf(cfg, w, input)).pairs;
    var kept, actives := KeptIn(cfg, w, input), Decided(cfg, w, input).memory.actives;
    TickActives(cfg, w, input);
    AllocationFacts(cfg, w, input);
    var j :| 0 <= j < |actives| && actives[j] == a;
    if j < |kept| {
      k := KeptNamesFleet(cfg, w, input, j);
    } else {
      assert pairs[j - |kept|] in pairs;
      k := FactHasState(cfg, w, input, pairs[j - |kept|].interceptor);
    }
  }

  // ---------------------------------------------------------------- no double engagement, ever

  /** Assignment leaves a state alone or puts it on a live track. */
  lemma {:induction false} AssignedState(cfg: Config, w: World, input: Input, k: nat)
    requires IsSound(w) && IsInput(w, input) && k < |w.fleet.states|
    ensures var states := AssignedFleet(cfg, w, input).states;
            && |states| == |w.fleet.states| && states[k].interceptorId == w.fleet.states[k].interceptorId
            && (states[k] == w.fleet.states[k] || (IsLive(input.tracks, states[k].targetId) && states[k].targetId != 0))
  {
    hide Decided, SnapshotOf, AssignedFleet, LastOrder;
    AssignedLength(cfg, w, input);
    AssignedEffect(cfg, w, input, k);
  }

  lemma {:induction false} AssignedIsSound(cfg: Config, w: World, input: Input)
    requires IsSound(w) && IsInput(w, input)
    ensures NoDoubleEngagement(AssignedFleet(cfg, w, input).states)
  {
    hide AssignedFleet, IsFleet, DistinctStates, DistinctActives, IsInput;
    var states := AssignedFleet(cfg, w, input).states;
    AssignedLength(cfg, w, input);
    forall i, j | 0 <= i < j < |states| && states[i].engaged && states[j].engaged
      ensures states[i].targetId != states[j].targetId
    {
      TwoAssigned(cfg, w, input, i, j);
    }
    forall i | 0 <= i < |states| && states[i].engaged ensures states[i].targetId != 0 {
      AssignedState(cfg, w, input, i);
    }
  }

  lemma {:induction false} TwoAssigned(cfg: Config, w: World, input: Input, i: nat, j: nat)
    requires IsSound(w) && IsInput(w, input) && i < j < |w.fleet.states|
    ensures var states := AssignedFleet(cfg, w, input).states;
            |states| == |w.fleet.states| &&
            (states[i].engaged && states[j].engaged ==> states[i].targetId != states[j].targetId)
  {
    hide AssignedFleet, Decided, DistinctActives, Remembers, IsFleet, IsInput, SnapshotOf;
    AssignedLength(cfg, w, input);
    AssignedState(cfg, w, input, i);
    AssignedState(cfg, w, input, j);
    var states := AssignedFleet(cfg, w, input).states;
    var track := states[i].targetId;
    if states[i].engaged && states[j].engaged && states[j].targetId == track && IsLive(input.tracks, track) {
      MemoryStaysDistinct(cfg, w, input);
      MemoryMirrorsFleet(cfg, w, input, i, track);
      MemoryMirrorsFleet(cfg, w, input, j, track);
      RememberedOnce(Decided(cfg, w, input).memory.actives, track, states[i].interceptorId, states[j].interceptorId);
    }
  }

  lemma {:induction false} AssignedLength(cfg: Config, w: World, input: Input)
    requires IsFleet(w.fleet)
    ensures |AssignedFleet(cfg, w, input).states| == |w.fleet.states|
  {
  }

  lemma {:induction false} RememberedOnce(actives: seq<Active>, track: nat, a: nat, b: nat)
    requires DistinctActives(actives) && Remembers(actives, track, a) && Remembers(actives, track, b)
    ensures a == b
  {
  }

  lemma {:induction false} RoundIsFleet(cfg: Config, w: World, input: Input)
    requires IsFleet(w.fleet) && |input.speeds| == |w.fleet.states|
    ensures IsFleet(Round(cfg, w, input).fleet) && |Round(cfg, w, input).fleet.states| == |w.fleet.states|
    ensures |AssignedFleet(cfg, w, input).states| == |w.fleet.states|
    ensures Round(cfg, w, input).memory == Decided(cfg, w, input).memory
  {
    SteppedIsFleet(cfg, input, AssignedFleet(cfg, w, input));
  }

  /** After one round an interceptor is engaged only if it was right after assignment, and on the same track. */
  lemma {:induction false} RoundOnlyReleases(cfg: Config, w: World, input: Input, k: nat)
    requires IsFleet(w.fleet) && |input.speeds| == |w.fleet.states| && k < |w.fleet.states|
    ensures var before := AssignedFleet(cfg, w, input).states[k];
            var after := Round(cfg, w, input).fleet.states;
            && |after| == |w.fleet.states|
            && after[k].interceptorId == w.fleet.states[k].interceptorId
            && (after[k].engaged ==>
                before.engaged && after[k].targetId == before.targetId && after[k].targetId in PositionsIn(input))
  {
    var tasked := AssignedFleet(cfg, w, input);
    SteppedIsFleet(cfg, input, tasked);
    StepOneEngagement(cfg.sqrt, input.speeds[k], input.timeout, PositionsIn(input), tasked.states[k], input.dt);
  }

  /** The positions handed to the interceptors are those of confirmed tracks. */
  lemma {:induction false} PositionedIsConfirmed(tracks: seq<TrackFact>, id: nat)
    requires id in PositionsOf(ConfirmedPositions(tracks))
    ensures exists t | t in tracks :: t.trackId == id && t.status == Confirmed
  {
    var n := |tracks| - 1;
    var few := ConfirmedPositions(tracks[..n]);
    if tracks[n].status == Confirmed {
      assert ConfirmedPositions(tracks)[..|few|] == few;
    } else {
      assert ConfirmedPositions(tracks) == few;
    }
    if tracks[n].status == Confirmed && tracks[n].trackId == id {
      assert tracks[n] in tracks;
    } else {
      PositionedIsConfirmed(tracks[..n], id);
    }
  }

  /** After one round an engaged interceptor's target is a confirmed track the round was given. */
  lemma {:induction false} EngagedIsSeen(cfg: Config, w: World, input: Input, k: nat) returns (t: TrackFact)
    requires IsFleet(w.fleet) && |input.speeds| == |w.fleet.states|
    requires k < |Round(cfg, w, input).fleet.states| && Round(cfg, w, input).fleet.states[k].engaged
    ensures t in input.tracks && t.status == Confirmed
    ensures t.trackId == Round(cfg, w, input).fleet.states[k].targetId
  {
    hide Round, IsFleet;
    RoundIsFleet(cfg, w, input);
    RoundOnlyReleases(cfg, w, input, k);
    var id := Round(cfg, w, input).fleet.states[k].targetId;
    PositionedIsConfirmed(input.tracks, id);
    t :| t in input.tracks && t.trackId == id && t.status == Confirmed;
  }

  /** Releasing engagements, or keeping them as they are, cannot create a double one. */
  lemma {:induction false} ReleasesKeepSound(before: seq<InterceptorState>, after: seq<InterceptorState>)
    requires |after| == |before| && NoDoubleEngagement(before)
    requires forall k | 0 <= k < |after| ::
               after[k].engaged ==> before[k].engaged && after[k].targetId == before[k].targetId
    ensures NoDoubleEngagement(after)
  {
  }

  lemma {:induction false} SameIdsStayDistinct(before: seq<InterceptorState>, after: seq<InterceptorState>)
    requires |after| == |before| && DistinctStates(before)
    requires forall k | 0 <= k < |after| :: after[k].interceptorId == before[k].interceptorId
    ensures DistinctStates(after)
  {
  }

  /** One round keeps the invariant, whatever the tracks, the hits and the clearing. */
  lemma {:induction false} RoundKeepsSound(cfg: Config, w: World, input: Input)
    requires IsSound(w) && IsInput(w, input)
    ensures IsSound(Round(cfg, w, input))
  {
    AssignedIsSound(cfg, w, input);
    MemoryStaysDistinct(cfg, w, input);
    var tasked := AssignedFleet(cfg, w, input).states;
    var after := Round(cfg, w, input);
    RoundIsFleet(cfg, w, input);
    hide Decided, AssignedFleet, Round, IsFleet, DistinctActives, NoDoubleEngagement, DistinctStates;
    forall k | 0 <= k < |w.fleet.states|
      ensures after.fleet.states[k].interceptorId == w.fleet.states[k].interceptorId
      ensures after.fleet.states[k].engaged ==>
              tasked[k].engaged && after.fleet.states[k].targetId == tasked[k].targetId
    {
      RoundOnlyReleases(cfg, w, input, k);
    }
    ReleasesKeepSound(tasked, after.fleet.states);
    SameIdsStayDistinct(w.fleet.states, after.fleet.states);
  }

  // ---------------------------------------------------------------- whole runs

  /** The interceptors start idle and distinct, and the tree remembers nothing. */
  ghost predicate StartsIdle(worlds: seq<World>) {
    && worlds != []
    && IsFleet(worlds[0].fleet) && DistinctStates(worlds[0].fleet.states)
    && (forall k | 0 <= k < |worlds[0].fleet.states| :: !worlds[0].fleet.states[k].engaged)
    && worlds[0].memory == FRESH_MEMORY
  }

  /** worlds[k] is the world before round k. */
  ghost predicate IsLoopRun(cfg: Config, worlds: seq<World>, inputs: seq<Input>) {
    && |worlds| == |inputs| + 1
    && StartsIdle(worlds)
    && (forall k | 0 <= k < |inputs| :: LoopStep(cfg, worlds, inputs, k))
  }

  ghost predicate LoopStep(cfg: Config, worlds: seq<World>, inputs: seq<Input>, k: nat)
    requires k < |inputs| < |worlds|
  {
    && IsInput(worlds[k], inputs[k]) && IsFleet(worlds[k].fleet)
    && worlds[k+1] == Round(cfg, worlds[k], inputs[k])
  }

  lemma {:induction false} LoopStartsSound(cfg: Config, worlds: seq<World>, inputs: seq<Input>)
    requires IsLoopRun(cfg, worlds, inputs)
    ensures IsSound(worlds[0])
  {
  }

  /** In every round of every run no two engaged interceptors share a target. */
  lemma {:induction false} LoopIsSound(cfg: Config, worlds: seq<World>, inputs: seq<Input>, k: nat)
    requires IsLoopRun(cfg, worlds, inputs) && k <= |inputs|
    ensures IsSound(worlds[k])
  {
    hide Round, IsSound, IsFleet, DistinctStates, IsInput;
    if k == 0 {
      LoopStartsSound(cfg, worlds, inputs);
    } else {
      LoopIsSound(cfg, worlds, inputs, k - 1);
      assert LoopStep(cfg, worlds, inputs, k - 1);
      RoundKeepsSound(cfg, worlds[k-1], inputs[k-1]);
    }
  }

  /** In every round of every run the memory and the fleet agree right after assignment. */
  lemma {:induction false} LoopAgrees(cfg: Config, worlds: seq<World>, inputs: seq<Input>, round: nat, k: nat,
                                      track: nat)
    requires IsLoopRun(cfg, worlds, inputs) && round < |inputs| && k < |worlds[round].fleet.states|
    ensures IsFleet(worlds[round].fleet) && Agrees(cfg, worlds[round], inputs[round], k, track)
  {
    LoopIsSound(cfg, worlds, inputs, round);
    assert LoopStep(cfg, worlds, inputs, round);
    MemoryMirrorsFleet(cfg, worlds[round], inputs[round], k, track);
  }
}
