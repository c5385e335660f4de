/** The track manager feeding the simulation loop: from measurements to engaged interceptors
    (src/tools/run_sim.cpp:500-733). */
module WholeSystem {
  import opened Basics
  import opened Interceptors
  import opened Mission
  import opened MissionLaws
  import opened ClosedLoop
  import MissionTick
  import EngagementRules
  import T = Tracks
  import L = TrackLaws

  /** What the blackboard is told of a track; the threat score is a parameter. */
  function Told(f: T.Filter, threat: T.TrackValue -> real, v: T.TrackValue): TrackFact {
    TrackFact(v.id, v.status, f.position(v.est), v.q.confidence, v.q.score, threat(v))
  }

  function ToldAll(f: T.Filter, threat: T.TrackValue -> real, tracks: seq<T.TrackValue>): (r: seq<TrackFact>)
    ensures |r| == |tracks| && forall t | 0 <= t < |r| :: r[t] == Told(f, threat, tracks[t])
  {
    seq(|tracks|, t requires 0 <= t < |tracks| => Told(f, threat, tracks[t]))
  }

  /** A run of the track manager: its filter, configuration, states and events. */
  datatype Tracking = Tracking(f: T.Filter, cfg: T.Config, states: seq<T.State>, events: seq<L.Event>)

  ghost predicate IsTracking(r: Tracking) {
    L.IsRun(r.f, r.cfg, r.states, r.events)
  }

  /** Round k of the loop sees the tracks of state at[k] of the tracking run; later rounds see later states. */
  ghost predicate IsSimulation(r: Tracking, threat: T.TrackValue -> real, at: seq<nat>, cfg: Config,
                               worlds: seq<World>, inputs: seq<Input>)
  {
    && IsTracking(r) && |at| == |inputs| && StartsIdle(worlds) && |worlds| == |inputs| + 1
    && (forall k | 0 <= k < |at| :: at[k] < |r.states|)
    && (forall j, k | 0 <= j < k < |at| :: at[j] <= at[k])
    && (forall k | 0 <= k < |inputs| :: SimulationStep(r, threat, at[k], cfg, worlds[k], inputs[k], worlds[k+1]))
  }

  ghost predicate SimulationStep(r: Tracking, threat: T.TrackValue -> real, state: nat, cfg: Config,
                                 before: World, input: Input, after: World)
    requires state < |r.states|
  {
    && input.tracks == ToldAll(r.f, threat, r.states[state].tracks)
    && |input.speeds| == |before.fleet.states| && IsFleet(before.fleet)
    && after == Round(cfg, before, input)
  }

  // ---------------------------------------------------------------- what the tracker feeds the loop

  /** A state of the track manager between turns: its ids rise along the list and lie from 1 below the next id. */
  ghost predicate IdsInOrder(st: T.State) {
    st.nextId >= 1 && L.Increasing(L.Ids(st.tracks), st.nextId) && forall id | id in L.Ids(st.tracks) :: id >= 1
  }

  lemma {:induction false} IdsAreInput(f: T.Filter, threat: T.TrackValue -> real, st: T.State)
    requires IdsInOrder(st)
    ensures DistinctTracks(ToldAll(f, threat, st.tracks))
    ensures forall t | t in ToldAll(f, threat, st.tracks) :: t.trackId != 0
  {
    var told := ToldAll(f, threat, st.tracks);
    forall i, j | 0 <= i < j < |told| ensures told[i].trackId != told[j].trackId {
      assert L.Ids(st.tracks)[i] < L.Ids(st.tracks)[j];
    }
    forall t | t in told ensures t.trackId != 0 {
      var k :| 0 <= k < |told| && told[k] == t;
      assert L.Ids(st.tracks)[k] in L.Ids(st.tracks);
    }
  }

  /** Every state of every tracking run is an input the loop may be given: distinct tracks, none with id 0. */
  lemma {:induction false} TracksAreInput(r: Tracking, threat: T.TrackValue -> real, state: nat, w: World, input: Input)
    requires IsTracking(r) && state < |r.states|
    requires input.tracks == ToldAll(r.f, threat, r.states[state].tracks)
    requires |input.speeds| == |w.fleet.states|
    ensures IsInput(w, input)
  {
    L.RunIds(r.f, r.cfg, r.states, r.events, state);
    IdsAreInput(r.f, threat, r.states[state]);
  }

  /** So every simulation is a run of the loop, and has its laws. */
  lemma {:induction false} SimulationIsLoop(r: Tracking, threat: T.TrackValue -> real, at: seq<nat>, cfg: Config,
                                            worlds: seq<World>, inputs: seq<Input>)
    requires IsSimulation(r, threat, at, cfg, worlds, inputs)
    ensures IsLoopRun(cfg, worlds, inputs)
  {
    hide Round, IsFleet, IsTracking, IsInput;
    forall k | 0 <= k < |inputs| ensures LoopStep(cfg, worlds, inputs, k) {
      assert SimulationStep(r, threat, at[k], cfg, worlds[k], inputs[k], worlds[k+1]);
      TracksAreInput(r, threat, at[k], worlds[k], inputs[k]);
    }
  }

  /** In every round of every simulation no two engaged interceptors share a target. */
  lemma {:induction false} SimulationIsSound(r: Tracking, threat: T.TrackValue -> real, at: seq<nat>, cfg: Config,
                                             worlds: seq<World>, inputs: seq<Input>, k: nat)
    requires IsSimulation(r, threat, at, cfg, worlds, inputs) && k <= |inputs|
    ensures NoDoubleEngagement(worlds[k].fleet.states)
  {
    SimulationIsLoop(r, threat, at, cfg, worlds, inputs);
    LoopIsSound(cfg, worlds, inputs, k);
  }

  // ---------------------------------------------------------------- engaged interceptors and live tracks

  /** After any round of any simulation an engaged interceptor's target is a track the round saw, confirmed. */
  lemma {:induction false} EngagedIsConfirmed(r: Tracking, threat: T.TrackValue -> real, at: seq<nat>, cfg: Config,
                                              worlds: seq<World>, inputs: seq<Input>, k: nat, i: nat)
    requires IsSimulation(r, threat, at, cfg, worlds, inputs) && k < |inputs|
    requires i < |worlds[k+1].fleet.states| && worlds[k+1].fleet.states[i].engaged
    ensures exists v | v in r.states[at[k]].tracks ::
              v.id == worlds[k+1].fleet.states[i].targetId && v.status == Confirmed
  {
    hide Round, IsFleet, IsTracking;
    var input := inputs[k];
    assert SimulationStep(r, threat, at[k], cfg, worlds[k], input, worlds[k+1]);
    var t := EngagedIsSeen(cfg, worlds[k], input, i);
    var n :| 0 <= n < |input.tracks| && input.tracks[n] == t;
    assert r.states[at[k]].tracks[n] in r.states[at[k]].tracks;
  }

  /** Such a track was hit often enough to be confirmed, and has not missed often enough to be deleted. */
  lemma {:induction false} EngagedIsWellTracked(r: Tracking, threat: T.TrackValue -> real, at: seq<nat>, cfg: Config,
                                                worlds: seq<World>, inputs: seq<Input>, k: nat, i: nat)
    requires IsSimulation(r, threat, at, cfg, worlds, inputs) && k < |inputs| && r.cfg.confirmedDeleteMisses >= 1
    requires i < |worlds[k+1].fleet.states| && worlds[k+1].fleet.states[i].engaged
    ensures exists v | v in r.states[at[k]].tracks ::
              && v.id == worlds[k+1].fleet.states[i].targetId
              && v.q.hits >= r.cfg.confirmHits && v.q.misses < r.cfg.confirmedDeleteMisses
  {
    hide SimulationStep;
    EngagedIsConfirmed(r, threat, at, cfg, worlds, inputs, k, i);
    var tracks := r.states[at[k]].tracks;
    var v :| v in tracks && v.id == worlds[k+1].fleet.states[i].targetId && v.status == Confirmed;
    L.RunInvariant(r.f, r.cfg, r.states, r.events, at[k]);
    var n :| 0 <= n < |tracks| && tracks[n] == v;
    assert L.TrackInvariant(r.cfg, tracks[n]);
  }

  /** Once a track is gone no interceptor is engaged on it, in that round or any later one. */
  lemma {:induction false} GoneIsAbandoned(r: Tracking, threat: T.TrackValue -> real, at: seq<nat>, cfg: Config,
                                           worlds: seq<World>, inputs: seq<Input>, j: nat, k: nat, i: nat, id: nat)
    requires IsSimulation(r, threat, at, cfg, worlds, inputs) && j <= k < |inputs|
    requires id < r.states[at[j]].nextId && id !in L.Ids(r.states[at[j]].tracks)
    requires i < |worlds[k+1].fleet.states| && worlds[k+1].fleet.states[i].engaged
    ensures worlds[k+1].fleet.states[i].targetId != id
  {
    hide SimulationStep;
    EngagedIsConfirmed(r, threat, at, cfg, worlds, inputs, k, i);
    L.GoneStaysGone(r.f, r.cfg, r.states, r.events, at[j], at[k], id);
    var tracks := r.states[at[k]].tracks;
    var v :| v in tracks && v.id == worlds[k+1].fleet.states[i].targetId;
    var n :| 0 <= n < |tracks| && tracks[n] == v;
    assert L.Ids(tracks)[n] == v.id;
  }

  // ---------------------------------------------------------------- commands and the tracker

  lemma {:induction false} CommandHasTrack(cfg: Config, w: World, input: Input, c: Command) returns (t: TrackFact)
    requires IsSound(w) && IsInput(w, input) && c in Decided(cfg, w, input).result.commands
    ensures t in input.tracks && t.trackId == c.trackId && t.position == c.position && t.status == Confirmed
    ensures t.score > cfg.engageScoreThreshold && t.confidence >= cfg.minConfidence
  {
    hide IsSound, MissionTick.Tick, SnapshotOf, WellFormed, IsInput;
    SnapshotIsWellFormed(cfg, w, input);
    t := EngagementRules.CommandsAreLegal(cfg, w.memory, SnapshotOf(cfg, w, input), c);
    TrackInInput(cfg, w, input, t);
  }

  /** Every command of every round sends an interceptor to where the tracker estimates a track of its own to be:
      confirmed, scored above the threshold, and held with enough confidence. */
  lemma {:induction false} CommandIsOnTrack(r: Tracking, threat: T.TrackValue -> real, at: seq<nat>, cfg: Config,
                                            worlds: seq<World>, inputs: seq<Input>, k: nat, c: Command)
    requires IsSimulation(r, threat, at, cfg, worlds, inputs) && k < |inputs|
    requires c in Decided(cfg, worlds[k], inputs[k]).result.commands
    ensures exists v | v in r.states[at[k]].tracks ::
              && v.id == c.trackId && v.status == Confirmed && c.position == r.f.position(v.est)
              && v.q.score > cfg.engageScoreThreshold && v.q.confidence >= cfg.minConfidence
  {
    hide Round, IsFleet, IsTracking, IsSound, Decided, IsInput, IsLoopRun;
    SimulationIsLoop(r, threat, at, cfg, worlds, inputs);
    LoopIsSound(cfg, worlds, inputs, k);
    var input := inputs[k];
    assert SimulationStep(r, threat, at[k], cfg, worlds[k], input, worlds[k+1]);
    TracksAreInput(r, threat, at[k], worlds[k], input);
    var t := CommandHasTrack(cfg, worlds[k], input, c);
    var n :| 0 <= n < |input.tracks| && input.tracks[n] == t;
    assert r.states[at[k]].tracks[n] in r.states[at[k]].tracks;
  }
}
