/** The simulation's loop on the objects: track manager, blackboard, tree and interceptors, updated in place
    (src/tools/run_sim.cpp:512-737). Each turn is proved to be a round of ClosedLoop. */
module Simulation {
  import opened Basics
  import opened Sorting
  import opened Interceptors
  import opened InterceptorManagement
  import opened Mission
  import opened MissionLaws
  import opened ClosedLoop
  import MissionControl
  import T = Tracks
  import L = TrackLaws
  import M = TrackManagement
  import opened WholeSystem

  const INTERCEPT_RADIUS := 5.0

  /** The positions by track id; the first entry of an id keeps it. */
  function FirstPositions(entries: seq<(nat, Vec3)>): Positions {
    if entries == [] then map[]
    else
      var n := |entries| - 1;
      var r := FirstPositions(entries[..n]);
      if entries[n].0 in r then r else r[entries[n].0 := entries[n].1]
  }

  /** The interceptor is within the intercept radius of the track it is engaged on. */
  predicate Hits(sqrt: real -> real, positions: Positions, s: InterceptorState) {
    s.engaged && s.targetId in positions && Distance(sqrt, s.position, positions[s.targetId]) < INTERCEPT_RADIUS
  }

  function HitsAmong(sqrt: real -> real, positions: Positions, states: seq<InterceptorState>): seq<(nat, nat)> {
    if states == [] then []
    else
      var n := |states| - 1;
      HitsAmong(sqrt, positions, states[..n])
        + if Hits(sqrt, positions, states[n]) then [(states[n].interceptorId, states[n].targetId)] else []
  }

  predicate EngagedNow(states: seq<InterceptorState>, id: nat) {
    exists s :: s in states && s.interceptorId == id && s.engaged
  }

  /** When each commanded interceptor was last commanded. */
  type Engagements = map<nat, real>

  function Commanded(engagements: Engagements, commands: seq<Command>, time: real): Engagements {
    if commands == [] then engagements
    else Commanded(engagements, commands[..|commands|-1], time)[commands[|commands|-1].interceptorId := time]
  }

  ghost function HitIds(hits: seq<(nat, nat)>): set<nat> {
    set h | h in hits :: h.0
  }

  lemma {:induction false} LeavesAnother(m: Engagements, gone: set<nat>, id: nat)
    ensures m - gone - {id} == m - (gone + {id})
  {
  }

  /** The commanded interceptors that are no longer engaged. */
  ghost function GivenUp(engagements: Engagements, states: seq<InterceptorState>): set<nat> {
    set id | id in engagements && !EngagedNow(states, id)
  }

  /** The turn clears the blackboard's engagement: something was hit, or some commanded interceptor has given up. */
  ghost predicate Clears(engagements: Engagements, hits: seq<(nat, nat)>, states: seq<InterceptorState>) {
    hits != [] || GivenUp(engagements - HitIds(hits), states) != {}
  }

  /** What a turn hands to the round. */
  ghost function TurnInput(tick: nat, time: real, tracks: seq<TrackFact>, health: seq<SensorHealth>, dt: real,
                           timeout: real, speeds: seq<real>): Input
  {
    Input(tick, time, tracks, health, dt, timeout, speeds, [], false)
  }

  /** The round up to the report of hits depends on neither the hits nor the clearing. */
  lemma {:induction false} SameFlight(cfg: Config, w: World, input: Input, hits: seq<(nat, nat)>, clear: bool)
    requires IsFleet(w.fleet) && |input.speeds| == |w.fleet.states|
    ensures var full := input.(hits := hits, clear := clear);
            && Decided(cfg, w, full) == Decided(cfg, w, input)
            && AssignedFleet(cfg, w, full) == AssignedFleet(cfg, w, input)
            && SteppedFleet(cfg, full, AssignedFleet(cfg, w, input)) ==
               SteppedFleet(cfg, input, AssignedFleet(cfg, w, input))
  {
    var full := input.(hits := hits, clear := clear);
    assert SnapshotOf(cfg, w, full) == SnapshotOf(cfg, w, input);
  }

  /** The manager's step is the round's. */
  lemma {:induction false} SteppedIsSame(cfg: Config, input: Input, fleet: Fleet)
    requires |input.speeds| == |fleet.states|
    ensures fleet.(states := Stepped(cfg.sqrt, input.speeds, input.timeout, PositionsIn(input), fleet.states, input.dt,
                                     |fleet.states|)) == SteppedFleet(cfg, input, fleet)
  {
    var a := Stepped(cfg.sqrt, input.speeds, input.timeout, PositionsIn(input), fleet.states, input.dt, |fleet.states|);
    var b := SteppedFleet(cfg, input, fleet).states;
    hide StepOne, PositionsIn;
    forall k | 0 <= k < |a| ensures a[k] == b[k] {
    }
  }

  /** The world a turn leaves, from what its steps ensure. */
  lemma {:induction false} TurnIsRound(cfg: Config, w: World, base: Input, hits: seq<(nat, nat)>, clear: bool,
                                       board: Board, fleet: Fleet)
    requires IsSound(w) && IsInput(w, base) && |base.speeds| == |AssignedFleet(cfg, w, base).states|
    requires var stepped := SteppedFleet(cfg, base, AssignedFleet(cfg, w, base));
             IsFleet(stepped) && fleet == HandleAll(stepped, hits)
    requires var decided := Decided(cfg, w, base).board;
             board == if clear then decided.(engagement := NO_ENGAGEMENT) else decided
    ensures var input := base.(hits := hits, clear := clear);
            && IsInput(w, input)
            && World(Decided(cfg, w, base).memory, board, fleet) == Round(cfg, w, input)
            && IsSound(Round(cfg, w, input))
  {
    var input := base.(hits := hits, clear := clear);
    RoundKeepsSound(cfg, w, input);
    hide SteppedFleet, AssignedFleet, Decided, HandleAll;
    SameFlight(cfg, w, base, hits, clear);
  }

  /** A fleet a run may start from: distinct interceptors, all idle with their clocks at zero. */
  ghost predicate StartsFrom(fleet: Fleet) {
    && IsFleet(fleet) && DistinctStates(fleet.states)
    && (forall s | s in fleet.states :: !s.engaged && s.targetId == 0 && s.engagementTime == 0.0)
  }

  predicate OtherId(a: InterceptorConfig, b: InterceptorConfig) {
    a.interceptorId != b.interceptorId
  }

  lemma {:induction false} InitialStates(configs: seq<InterceptorConfig>)
    ensures var fleet := InitialFleet(configs);
            && IsFleet(fleet) && |fleet.states| == |configs|
            && (forall k | 0 <= k < |configs| :: fleet.states[k] == Idle(configs[k].interceptorId, configs[k].start))
  {
    if configs != [] {
      var n := |configs| - 1;
      InitialStates(configs[..n]);
      IndexedKeepsFleet(InitialFleet(configs[..n]), Idle(configs[n].interceptorId, configs[n].start));
    }
  }

  /** Distinct configurations give a fleet a run may start from. */
  lemma {:induction false} ConfigsStart(configs: seq<InterceptorConfig>)
    requires Pairwise(OtherId, configs)
    ensures StartsFrom(InitialFleet(Sort(ById, configs)))
  {
    hide IsFleet, InitialFleet, Sort;
    SortKeepsPairwise(ById, OtherId, configs);
    var sorted := Sort(ById, configs);
    InitialStates(sorted);
    forall i, j | 0 <= i < j < |sorted| ensures sorted[i].interceptorId != sorted[j].interceptorId {
      assert OtherId(sorted[i], sorted[j]);
    }
  }

  lemma {:induction false} StartIsSound(w: World)
    requires StartsFrom(w.fleet) && w.memory == FRESH_MEMORY
    ensures IsSound(w) && StartsIdle([w])
  {
    hide IsFleet, DistinctStates;
  }

  /** A prediction and a batch take st to next. */
  ghost predicate IsBatch(f: T.Filter, cfg: T.Config, st: T.State, dt: real, batch: seq<Measurement>, s: seq<int>,
                          next: T.State)
  {
    var predicted := L.Step(f, cfg, st, L.Predict(dt));
    && L.CanStep(cfg, f, predicted, L.Batch(batch, s))
    && next == L.Step(f, cfg, predicted, L.Batch(batch, s))
  }

  lemma {:induction false} StepKeepsIds(f: T.Filter, cfg: T.Config, st: T.State, e: L.Event)
    requires L.CanStep(cfg, f, st, e) && IdsInOrder(st)
    ensures IdsInOrder(L.Step(f, cfg, st, e))
  {
    hide L.Step, L.CanStep, L.Increasing;
    L.StepIds(f, cfg, st, e);
  }

  /** After a round on the tracks of st every engaged interceptor is on a track st holds as confirmed. */
  lemma {:induction false} TargetsAreConfirmed(cfg: Config, w: World, input: Input, f: T.Filter,
                                               threat: T.TrackValue -> real, st: T.State)
    requires IsFleet(w.fleet) && |input.speeds| == |w.fleet.states|
    requires input.tracks == ToldAll(f, threat, st.tracks)
    ensures forall i | i in Round(cfg, w, input).fleet.states && i.engaged ::
              exists v | v in st.tracks :: v.id == i.targetId && v.status == Confirmed
  {
    hide Round, IsFleet;
    forall i | i in Round(cfg, w, input).fleet.states && i.engaged
      ensures exists v | v in st.tracks :: v.id == i.targetId && v.status == Confirmed
    {
      var k :| 0 <= k < |Round(cfg, w, input).fleet.states| && Round(cfg, w, input).fleet.states[k] == i;
      var t := EngagedIsSeen(cfg, w, input, k);
      var n :| 0 <= n < |input.tracks| && input.tracks[n] == t;
      assert st.tracks[n] in st.tracks;
    }
  }

  class SimulationLoop {
    const tracker: M.TrackManager
    const threat: T.TrackValue -> real
    const blackboard: MissionControl.MissionBlackboard
    const tree: MissionControl.MissionBehaviorTree
    const interceptors: InterceptorManager
    var engagements: Engagements

    ghost function Contents(): World
      reads blackboard, tree, interceptors, interceptors.entries
    {
      World(tree.memory, Board(blackboard.engagement, blackboard.mode), interceptors.Contents())
    }

    ghost predicate Valid()
      reads blackboard, tree, interceptors, interceptors.entries
    {
      && interceptors.Valid() && tree.config.sqrt == interceptors.sqrt
      && IsSound(Contents())
    }

    ghost predicate Tracking()
      reads tracker, tracker.tracks
    {
      tracker.Valid() && IdsInOrder(tracker.Contents())
    }

    constructor (config: Config, trackConfig: T.Config, f: T.Filter, threat: T.TrackValue -> real,
                 interceptors: InterceptorManager)
      requires interceptors.Valid() && config.sqrt == interceptors.sqrt && StartsFrom(interceptors.Contents())
      ensures Valid() && Tracking() && StartsIdle([Contents()])
      ensures this.interceptors == interceptors && tree.config == config && this.threat == threat
      ensures tracker.f == f && tracker.cfg == trackConfig && tracker.Contents() == L.INITIAL
      ensures engagements == map[] && blackboard.sensorHealth == []
      ensures fresh(blackboard) && fresh(tree) && fresh(tracker) && fresh(tracker.tracks)
    {
      this.tracker := new M.TrackManager(trackConfig, f);
      this.threat := threat;
      this.blackboard := new MissionControl.MissionBlackboard();
      this.tree := new MissionControl.MissionBehaviorTree(config);
      this.interceptors := interceptors;
      engagements := map[];
      new;
      hide IsSound, StartsIdle, StartsFrom;
      StartIsSound(Contents());
    }

    /** Snapshot and tick. */
    method Decide(tick: nat, time: real, tracks: seq<TrackFact>, ghost base: Input) returns (commands: seq<Command>)
      requires tree.config.sqrt == interceptors.sqrt
      requires base.tick == tick && base.time == time && base.tracks == tracks
      requires base.health == blackboard.sensorHealth
      modifies blackboard, tree`memory
      ensures var out := Decided(tree.config, old(Contents()), base);
              && tree.memory == out.memory && commands == out.result.commands
              && Board(blackboard.engagement, blackboard.mode) == out.board
    {
      hide Sort, MissionTick.Tick, FactsOf, StatesOf;
      blackboard.SetTick(tick, time);
      blackboard.SetTracks(tracks);
      var states := interceptors.States();
      blackboard.SetInterceptorsFromStates(tree.config.sqrt, states);
      assert blackboard.Contents() == SnapshotOf(tree.config, old(Contents()), base);
      var result := tree.Tick(blackboard);
      commands := result.commands;
    }

    /** The orders of the commands, each noted as an engagement. */
    method NoteCommands(commands: seq<Command>, time: real) returns (orders: seq<(nat, nat)>)
      modifies this`engagements
      ensures orders == Orders(commands) && engagements == Commanded(old(engagements), commands, time)
    {
      orders := [];
      for k := 0 to |commands|
        invariant orders == Orders(commands[..k]) && engagements == Commanded(old(engagements), commands[..k], time)
      {
        assert commands[..k+1][..k] == commands[..k];
        orders := orders + [(commands[k].interceptorId, commands[k].trackId)];
        engagements := engagements[commands[k].interceptorId := time];
      }
      assert commands[..|commands|] == commands;
    }

    method FindHits(positions: Positions) returns (hits: seq<(nat, nat)>)
      ensures hits == HitsAmong(tree.config.sqrt, positions, StatesOf(interceptors.entries))
    {
      hide Distance;
      var states := interceptors.States();
      hits := [];
      for k := 0 to |states|
        invariant hits == HitsAmong(tree.config.sqrt, positions, states[..k])
      {
        assert states[..k+1][..k] == states[..k];
        var s := states[k];
        if s.engaged && s.targetId in positions {
          if Distance(tree.config.sqrt, s.position, positions[s.targetId]) < INTERCEPT_RADIUS {
            hits := hits + [(s.interceptorId, s.targetId)];
          }
        }
      }
      assert states[..|states|] == states;
    }

    method ForgetHits(hits: seq<(nat, nat)>)
      modifies this`engagements, blackboard`engagement
      ensures blackboard.engagement == if hits != [] then NO_ENGAGEMENT else old(blackboard.engagement)
      ensures engagements == old(engagements) - HitIds(hits)
    {
      for k := 0 to |hits|
        invariant engagements == old(engagements) - HitIds(hits[..k])
        invariant blackboard.engagement == if k > 0 then NO_ENGAGEMENT else old(blackboard.engagement)
      {
        assert HitIds(hits[..k+1]) == HitIds(hits[..k]) + {hits[k].0};
        blackboard.ClearEngagement();
        engagements := engagements - {hits[k].0};
      }
      assert hits[..|hits|] == hits;
    }

    method ForgetIdle()
      modifies this`engagements, blackboard`engagement
      ensures var gone := GivenUp(old(engagements), StatesOf(interceptors.entries));
              && blackboard.engagement == (if gone != {} then NO_ENGAGEMENT else old(blackboard.engagement))
              && engagements == old(engagements) - gone
    {
      hide EngagedNow, StatesOf;
      var states := interceptors.States();
      ghost var gone := GivenUp(engagements, states);
      var ids := engagements.Keys;
      while ids != {}
        invariant ids <= old(engagements).Keys
        invariant engagements == old(engagements) - (gone - ids)
        invariant blackboard.engagement == if gone - ids != {} then NO_ENGAGEMENT else old(blackboard.engagement)
        decreases |ids|
      {
        var id :| id in ids;
        if !EngagedNow(states, id) {
          assert gone - (ids - {id}) == (gone - ids) + {id};
          LeavesAnother(old(engagements), gone - ids, id);
          blackboard.ClearEngagement();
          engagements := engagements - {id};
        } else {
          assert gone - (ids - {id}) == gone - ids;
        }
        ids := ids - {id};
      }
      assert gone - {} == gone;
    }

    /** Orders, flight and hits. */
    method Fly(orders: seq<(nat, nat)>, dt: real, positions: Positions) returns (hits: seq<(nat, nat)>)
      requires interceptors.Valid()
      modifies interceptors.entries
      ensures interceptors.Valid()
      ensures var tasked := AssignAll(old(interceptors.Contents()), interceptors.trackPositions, orders);
              var stepped := tasked.(states := Stepped(interceptors.sqrt, interceptors.Speeds(),
                                                       interceptors.engagementTimeout, interceptors.trackPositions,
                                                       tasked.states, dt, |tasked.states|));
              && IsFleet(stepped)
              && hits == HitsAmong(tree.config.sqrt, positions, stepped.states)
              && interceptors.Contents() == HandleAll(stepped, hits)
    {
      hide StatesOf, HitsAmong, AssignAll, HandleAll, Stepped;
      interceptors.Assign(orders);
      interceptors.Step(dt);
      hits := FindHits(positions);
      interceptors.HandleIntercepts(hits);
    }

    /** Carries out the commands and reports the hits, as the round of `base` does. */
    method Execute(commands: seq<Command>, time: real, dt: real, positions: Positions, ghost w: World,
                   ghost base: Input)
      returns (hits: seq<(nat, nat)>)
      requires interceptors.Valid() && w.fleet == interceptors.Contents() && tree.config.sqrt == interceptors.sqrt
      requires commands == Decided(tree.config, w, base).result.commands && base.dt == dt
      requires base.speeds == interceptors.Speeds() && base.timeout == interceptors.engagementTimeout
      requires interceptors.trackPositions == PositionsIn(base)
      modifies this`engagements, interceptors.entries
      ensures interceptors.Valid() && engagements == Commanded(old(engagements), commands, time)
      ensures |base.speeds| == |AssignedFleet(tree.config, w, base).states|
      ensures var stepped := SteppedFleet(tree.config, base, AssignedFleet(tree.config, w, base));
              && IsFleet(stepped) && hits == HitsAmong(tree.config.sqrt, positions, stepped.states)
              && interceptors.Contents() == HandleAll(stepped, hits)
    {
      hide IsFleet, StatesOf, AssignAll, HandleAll, HitsAmong, Commanded, Orders, SteppedFleet, Stepped, Decided,
        PositionsIn;
      var orders := NoteCommands(commands, time);
      AssignedLength(tree.config, w, base);
      SteppedIsSame(tree.config, base, AssignedFleet(tree.config, w, base));
      hits := Fly(orders, dt, positions);
    }

    /** One turn of the loop on the given tracks: a round of ClosedLoop, with the hits and the clearing the code finds.
        */
    method Turn(tick: nat, time: real, tracks: seq<TrackFact>, dt: real) returns (ghost input: Input)
      requires Valid() && DistinctTracks(tracks) && forall t | t in tracks :: t.trackId != 0
      modifies this`engagements, blackboard, tree`memory, interceptors`trackPositions, interceptors.entries
      ensures Valid() && interceptors.entries == old(interceptors.entries)
      ensures IsInput(old(Contents()), input) && Contents() == Round(tree.config, old(Contents()), input)
      ensures input.tick == tick && input.time == time && input.tracks == tracks && input.dt == dt
      ensures input.timeout == interceptors.engagementTimeout && input.speeds == interceptors.Speeds()
      ensures input.health == old(blackboard.sensorHealth)
      ensures var w := old(Contents());
              var tasked := AssignedFleet(tree.config, w, input);
              var noted := Commanded(old(engagements), Decided(tree.config, w, input).result.commands, time);
              && input.hits == HitsAmong(tree.config.sqrt, FirstPositions(ConfirmedPositions(tracks)),
                                         SteppedFleet(tree.config, input, tasked).states)
              && input.clear == Clears(noted, input.hits, Contents().fleet.states)
    {
      hide IsSound, IsFleet, StatesOf, AssignAll, HandleAll, HitsAmong, FirstPositions, ConfirmedPositions, GivenUp,
        Commanded, SteppedFleet, AssignedFleet, DistinctTracks, Decided, Round;
      ghost var w, cfg := Contents(), tree.config;
      ghost var base := TurnInput(tick, time, tracks, blackboard.sensorHealth, dt, interceptors.engagementTimeout,
                                  interceptors.Speeds());
      var confirmed := ConfirmedPositions(tracks);
      interceptors.UpdateTrackPositions(confirmed);
      var commands := Decide(tick, time, tracks, base);
      var hits := Execute(commands, time, dt, FirstPositions(confirmed), w, base);
      ghost var noted := engagements;
      ForgetHits(hits);
      ForgetIdle();
      ghost var clear := Clears(noted, hits, StatesOf(interceptors.entries));
      TurnIsRound(cfg, w, base, hits, clear, Board(blackboard.engagement, blackboard.mode), interceptors.Contents());
      input := base.(hits := hits, clear := clear);
      SameFlight(cfg, w, base, hits, clear);
    }

    /** Sets up the loop for interceptors with distinct ids; None where the source throws. */
    static method Create(config: Config, trackConfig: T.Config, f: T.Filter, threat: T.TrackValue -> real,
                         configs: seq<InterceptorConfig>, health: seq<SensorHealth>, timeout: real)
      returns (r: Option<SimulationLoop>)
      requires IsSqrt(config.sqrt) && Pairwise(OtherId, configs)
      ensures r.None? <==> exists i :: 0 <= i < |configs| && configs[i].maxSpeed <= 0.0
      ensures r.Some? ==> r.value.Valid() && r.value.Tracking() && StartsIdle([r.value.Contents()])
      ensures r.Some? ==>
                && r.value.Contents().fleet == InitialFleet(Sort(ById, configs))
                && r.value.interceptors.Speeds() == SpeedsOf(Sort(ById, configs))
                && r.value.interceptors.engagementTimeout == (if timeout > 0.0 then timeout else 10.0)
    {
      hide Sort, IsFleet, InitialFleet, IsSound, StartsIdle;
      var built := InterceptorManager.Build(config.sqrt, configs);
      if built.None? {
        return None;
      }
      ConfigsStart(configs);
      built.value.SetEngagementTimeout(timeout);
      var simulation := new SimulationLoop(config, trackConfig, f, threat, built.value);
      simulation.blackboard.SetSensorHealth(health);
      return Some(simulation);
    }

    method Tell(snapshot: seq<T.TrackValue>) returns (tracks: seq<TrackFact>)
      ensures tracks == ToldAll(tracker.f, threat, snapshot)
    {
      tracks := [];
      for k := 0 to |snapshot|
        invariant tracks == ToldAll(tracker.f, threat, snapshot[..k])
      {
        tracks := tracks + [Told(tracker.f, threat, snapshot[k])];
      }
      assert snapshot[..|snapshot|] == snapshot;
    }

    /** Prediction, the batch, and what the blackboard is told of the tracks. */
    method Track(dt: real, batch: seq<Measurement>) returns (tracks: seq<TrackFact>, ghost s: seq<int>)
      requires Tracking()
      modifies tracker, tracker.tracks
      ensures Tracking()
      ensures IsBatch(tracker.f, tracker.cfg, old(tracker.Contents()), dt, batch, s, tracker.Contents())
      ensures tracks == ToldAll(tracker.f, threat, tracker.Contents().tracks)
    {
      hide IdsInOrder, T.Predicted, T.Updated, M.RadarFlags, M.RefinedFlags, T.UpdateFlags, M.BothCount,
        M.ValuesOf;
      ghost var st := tracker.Contents();
      tracker.PredictAll(dt);
      StepKeepsIds(tracker.f, tracker.cfg, st, L.Predict(dt));
      ghost var predicted := tracker.Contents();
      var snapshot, multisensor;
      snapshot, multisensor, s := tracker.UpdateWithMeasurements(batch);
      StepKeepsIds(tracker.f, tracker.cfg, predicted, L.Batch(batch, s));
      tracks := Tell(snapshot);
    }

    /** One tick of the simulation, from a batch of measurements to the interceptors. */
    method Tick(tick: nat, time: real, dt: real, batch: seq<Measurement>)
      returns (ghost s: seq<int>, ghost input: Input)
      requires Valid() && Tracking()
      modifies this`engagements, tracker, tracker.tracks, blackboard, tree`memory, interceptors`trackPositions,
        interceptors.entries
      ensures Valid() && Tracking()
      ensures IsBatch(tracker.f, tracker.cfg, old(tracker.Contents()), dt, batch, s, tracker.Contents())
      ensures IsInput(old(Contents()), input) && Contents() == Round(tree.config, old(Contents()), input)
      ensures input.tracks == ToldAll(tracker.f, threat, tracker.Contents().tracks)
      ensures NoDoubleEngagement(Contents().fleet.states)
      ensures forall i | i in Contents().fleet.states && i.engaged ::
                exists v | v in tracker.Contents().tracks :: v.id == i.targetId && v.status == Confirmed
    {
      hide IsBatch, Round, IsFleet, DistinctTracks, IdsInOrder, NoDoubleEngagement, DistinctActives, DistinctStates,
        ToldAll, HitsAmong, Commanded, Clears, ConfirmedPositions, FirstPositions, AssignedFleet, SteppedFleet,
        Decided, M.ValuesOf, StatesOf;
      var tracks;
      tracks, s := Track(dt, batch);
      IdsAreInput(tracker.f, threat, tracker.Contents());
      ghost var w := Contents();
      input := Turn(tick, time, tracks, dt);
      TargetsAreConfirmed(tree.config, w, input, tracker.f, threat, tracker.Contents());
    }
  }
}
