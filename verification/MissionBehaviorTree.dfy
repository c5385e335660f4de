/** The blackboard and the behaviour tree as objects updated in place, proved against MissionTick
    (src/decision/blackboard.cpp, mission_behavior_tree.cpp, selector.h, sequence.h). */
module MissionControl {
  import opened Basics
  import opened Sorting
  import opened Interceptors
  import opened Mission
  import opened MissionTick
  import AllocationLaws

  predicate HealthBefore(a: SensorHealth, b: SensorHealth) {
    a.sensorId < b.sensorId
  }

  class MissionBlackboard {
    var tick: nat
    var time: real
    var tracks: seq<TrackFact>
    var interceptors: seq<InterceptorFact>
    var sensorHealth: seq<SensorHealth>
    var engagement: Engagement
    var mode: MissionMode

    constructor ()
      ensures Contents() == Snapshot(0, 0.0, [], [], [], Board(NO_ENGAGEMENT, SearchMode))
    {
      tick, time, tracks, interceptors, sensorHealth := 0, 0.0, [], [], [];
      engagement, mode := NO_ENGAGEMENT, SearchMode;
    }

    /** What snapshot() copies. */
    function Contents(): Snapshot
      reads this
    {
      Snapshot(tick, time, tracks, interceptors, sensorHealth, Board(engagement, mode))
    }

    method SetTick(tick: nat, time: real)
      modifies this
      ensures Contents() == old(Contents()).(tick := tick, time := time)
    {
      this.tick, this.time := tick, time;
    }

    /** Holds the given tracks, highest priority first and equal priorities by rising id. */
    method SetTracks(tracks: seq<TrackFact>)
      modifies this
      ensures Contents() == old(Contents()).(tracks := Sort(Outranks, tracks))
      ensures multiset(this.tracks) == multiset(tracks)
      ensures forall i, j | 0 <= i < j < |this.tracks| ::
                || this.tracks[i].priority > this.tracks[j].priority
                || (this.tracks[i].priority == this.tracks[j].priority
                    && this.tracks[i].trackId <= this.tracks[j].trackId)
    {
      this.tracks := Sort(Outranks, tracks);
      SortIsSorted(Outranks, tracks);
      SortKeepsElements(Outranks, tracks);
    }

    /** Holds the given interceptors by rising id. */
    method SetInterceptors(interceptors: seq<InterceptorFact>)
      modifies this
      ensures Contents() == old(Contents()).(interceptors := Sort(FactBefore, interceptors))
      ensures multiset(this.interceptors) == multiset(interceptors)
      ensures forall i, j | 0 <= i < j < |this.interceptors| ::
                this.interceptors[i].interceptorId <= this.interceptors[j].interceptorId
    {
      this.interceptors := Sort(FactBefore, interceptors);
      SortIsSorted(FactBefore, interceptors);
      SortKeepsElements(FactBefore, interceptors);
    }

    method SetInterceptorsFromStates(sqrt: real -> real, states: seq<InterceptorState>)
      modifies this
      ensures Contents() == old(Contents()).(interceptors := Sort(FactBefore, FactsOf(sqrt, states)))
      ensures multiset(this.interceptors) == multiset(FactsOf(sqrt, states))
      ensures forall i, j | 0 <= i < j < |this.interceptors| ::
                this.interceptors[i].interceptorId <= this.interceptors[j].interceptorId
    {
      var facts := [];
      for k := 0 to |states|
        invariant Contents() == old(Contents())
        invariant facts == FactsOf(sqrt, states)[..k]
      {
        var s := states[k];
        var speed := sqrt(Norm2(s.velocity));
        facts := facts + [InterceptorFact(s.interceptorId, !s.engaged, s.engaged, s.targetId, s.position, speed)];
      }
      assert facts == FactsOf(sqrt, states);
      SetInterceptors(facts);
    }

    method SetSensorHealth(health: seq<SensorHealth>)
      modifies this
      ensures Contents() == old(Contents()).(sensorHealth := Sort(HealthBefore, health))
      ensures multiset(sensorHealth) == multiset(health)
      ensures forall i, j | 0 <= i < j < |sensorHealth| :: sensorHealth[i].sensorId <= sensorHealth[j].sensorId
    {
      sensorHealth := Sort(HealthBefore, health);
      SortIsSorted(HealthBefore, health);
      SortKeepsElements(HealthBefore, health);
    }

    method SetMode(mode: MissionMode)
      modifies this`mode
      ensures this.mode == mode
    {
      this.mode := mode;
    }

    method SetEngagement(interceptor: nat, track: nat)
      modifies this`engagement, this`mode
      ensures engagement == Engagement(true, interceptor, track) && mode == EngageMode
    {
      engagement := Engagement(true, interceptor, track);
      mode := EngageMode;
    }

    method ClearEngagement()
      modifies this`engagement
      ensures engagement == NO_ENGAGEMENT
    {
      engagement := NO_ENGAGEMENT;
    }
  }

  class MissionBehaviorTree {
    const config: Config
    var memory: Memory

    constructor (config: Config)
      ensures this.config == config && memory == FRESH_MEMORY
    {
      this.config := config;
      memory := FRESH_MEMORY;
    }

    method AddOrRefreshActive(track: nat, interceptor: nat, time: real)
      modifies this`memory
      ensures memory == old(memory).(actives := Refreshed(old(memory).actives, track, interceptor, time))
    {
      var k := 0;
      while k < |memory.actives| && memory.actives[k].trackId != track
        invariant k <= ActiveIndex(memory.actives, track)
      {
        k := k + 1;
      }
      assert k == ActiveIndex(memory.actives, track);
      if k < |memory.actives| {
        memory := memory.(actives := memory.actives[k := memory.actives[k].(interceptorId := interceptor)]);
      } else {
        memory := memory.(actives := memory.actives + [Active(track, interceptor, time, time, 0, 0)]);
      }
    }

    /** Takes in the engagements the blackboard and the interceptors show. */
    method MergeEngagements(snap: Snapshot)
      modifies this`memory
      ensures memory == old(memory).(actives := Merged(old(memory).actives, snap))
    {
      if snap.board.engagement.active {
        AddOrRefreshActive(snap.board.engagement.trackId, snap.board.engagement.interceptorId, snap.time);
      }
      ghost var start := memory.actives;
      for k := 0 to |snap.interceptors|
        invariant memory == old(memory).(actives := RefreshedAll(start, snap.interceptors[..k], snap.time))
      {
        assert snap.interceptors[..k+1][..k] == snap.interceptors[..k];
        var i := snap.interceptors[k];
        if i.engaged && i.targetId != 0 {
          AddOrRefreshActive(i.targetId, i.interceptorId, snap.time);
        }
      }
      assert snap.interceptors[..|snap.interceptors|] == snap.interceptors;
    }

    /** Drops the engagements that no longer hold. */
    method Reconcile(snap: Snapshot, blackboard: MissionBlackboard)
      requires blackboard.Contents() == snap
      modifies this`memory, blackboard`engagement
      ensures memory == old(memory).(actives := Reconciled(snap, old(memory).actives))
      ensures Board(blackboard.engagement, blackboard.mode) == BoardAfterReconcile(snap, old(memory).actives)
    {
      var merged := memory.actives;
      var kept := [];
      for k := 0 to |merged|
        invariant memory == old(memory) && kept == Reconciled(snap, merged[..k])
        invariant Board(blackboard.engagement, blackboard.mode) == BoardAfterReconcile(snap, merged[..k])
      {
        assert merged[..k+1][..k] == merged[..k];
        ReconcileBoardStep(snap, merged, k);
        var active := merged[k];
        if RemovalOf(snap, active).Some? {
          if snap.board.engagement.active && snap.board.engagement.trackId == active.trackId
             && snap.board.engagement.interceptorId == active.interceptorId {
            blackboard.ClearEngagement();
          }
          continue;
        }
        kept := kept + [active];
      }
      assert merged[..|merged|] == merged;
      memory := memory.(actives := kept);
    }

    /** Counts one more tick for every confirmed track and forgets the others. */
    method UpdateStability(snap: Snapshot)
      modifies this`memory
      ensures memory == old(memory).(stables := NextStables(old(memory).stables, snap.tracks))
    {
      var next := [];
      for k := 0 to |snap.tracks|
        invariant memory == old(memory)
        invariant next == NextStables(memory.stables, snap.tracks[..k])
      {
        assert snap.tracks[..k+1][..k] == snap.tracks[..k];
        var t := snap.tracks[k];
        if t.status != Confirmed {
          continue;
        }
        var ticks := 1;
        var found := false;
        for j := 0 to |memory.stables|
          invariant memory == old(memory)
          invariant if found then ticks == StableTicksFor(memory.stables, t.trackId) + 1
                    else
                      && ticks == 1
                      && StableTicksFor(memory.stables, t.trackId) == StableTicksFor(memory.stables[j..], t.trackId)
        {
          assert memory.stables[j..][1..] == memory.stables[j+1..];
          if !found && memory.stables[j].trackId == t.trackId {
            ticks := memory.stables[j].ticks + 1;
            found := true;
          }
        }
        next := next + [Stability(t.trackId, ticks)];
      }
      assert snap.tracks[..|snap.tracks|] == snap.tracks;
      memory := memory.(stables := next);
    }

    /** Everything up to the choice of a branch. */
    method Prepare(snap: Snapshot, blackboard: MissionBlackboard) returns (merged: nat)
      requires blackboard.Contents() == snap
      modifies this`memory, blackboard`engagement
      ensures memory == Prepared(config, old(memory), snap)
      ensures merged == |Merged(old(memory).actives, snap)|
      ensures Board(blackboard.engagement, blackboard.mode) ==
              BoardAfterReconcile(snap, Merged(old(memory).actives, snap))
    {
      MergeEngagements(snap);
      merged := |memory.actives|;
      Reconcile(snap, blackboard);
      UpdateStability(snap);
      var best := HighestPriority(snap.tracks, true);
      if best.Some? {
        memory := memory.(stableTrackId := best.value.trackId,
                          consecutiveTrackTicks := StableTicksFor(memory.stables, best.value.trackId));
      } else {
        memory := memory.(stableTrackId := 0, consecutiveTrackTicks := 0);
      }
    }

    /** The body of the maintenance loop: what becomes of one engagement. */
    method MaintainActive(snap: Snapshot, active: Active) returns (maintained: bool, kept: Option<Active>)
      ensures maintained == IsMaintained(snap, active) && kept == MaintainOne(config, snap, active)
    {
      var track := FindLive(snap.tracks, active.trackId);
      if track.Some? && EngagedWith(snap.interceptors, active.interceptorId, active.trackId) {
        var lowTicks := if track.value.confidence < config.minConfidence then active.lowConfidenceTicks + 1 else 0;
        return true, Some(active.(missingTicks := 0, lowConfidenceTicks := lowTicks));
      }
      var missing := active.(missingTicks := active.missingTicks + 1);
      if missing.missingTicks >= config.stableTicks {
        return false, None;
      }
      return false, Some(missing);
    }

    /** The maintenance loop, with its erase-in-place. */
    method MaintainEngagements(snap: Snapshot, blackboard: MissionBlackboard) returns (maintained: bool, event: Event)
      modifies this`memory, blackboard`engagement
      ensures var m := MaintainAll(config, snap, old(memory).actives);
              && memory == old(memory).(actives := m.actives)
              && maintained == m.maintained && event == m.event
              && blackboard.engagement == if m.erased then NO_ENGAGEMENT else old(blackboard.engagement)
    {
      hide MaintainOne, IsMaintained, MaintainAll;
      var before := memory.actives;
      MaintainNone(config, snap, before);
      maintained, event := false, SEARCHING;
      var kept := [];
      ghost var held0 := blackboard.engagement;
      for k := 0 to |before|
        invariant memory == old(memory).(actives := kept + before[k..])
        invariant var m := MaintainAll(config, snap, before[..k]);
                  && kept == m.actives && maintained == m.maintained && event == m.event
                  && blackboard.engagement == if m.erased then NO_ENGAGEMENT else held0
      {
        MaintainStep(config, snap, before, k);
        var held, next := MaintainActive(snap, before[k]);
        if held {
          maintained := true;
          event := Event(before[k].trackId, MaintainEvent, EngagementActive);
        }
        if next.Some? {
          kept := kept + [next.value];
        } else {
          blackboard.ClearEngagement();
        }
        memory := memory.(actives := kept + before[k+1..]);
      }
      assert before[..|before|] == before;
      assert kept + before[|before|..] == kept;
    }

    /** The scan over idle interceptors and open tracks. */
    method SelectPair(sc: Scene, idle: seq<InterceptorFact>) returns (best: Option<Candidate>)
      ensures best == ScanAll(sc, idle, memory.actives, |idle|)
    {
      best := None;
      for i := 0 to |idle|
        invariant best == ScanAll(sc, idle, memory.actives, i)
      {
        ghost var row := best;
        for k := 0 to |sc.snap.tracks|
          invariant best == ScanRow(sc, idle, memory.actives, i, k, row)
        {
          var t := sc.snap.tracks[k];
          if IsEngaged(memory.actives, t.trackId) || !Engageable(sc, t) {
            continue;
          }
          var score := PairScore(sc.cfg, t, idle[i]);
          if best.None? || score > best.value.score {
            best := Some(Candidate(i, k, score));
          }
        }
      }
    }

    /** The greedy loop: sends idle interceptors out one best pair at a time. */
    method AssignIdle(sc: Scene, idle0: seq<InterceptorFact>, blackboard: MissionBlackboard, blank: Result)
      returns (idle: seq<InterceptorFact>, result: Result)
      requires blank.commands == [] && blank.assignmentReason.None?
      modifies this`memory, blackboard`engagement, blackboard`mode
      ensures var alloc := Allocate(sc, idle0, old(memory).actives);
              && idle == alloc.idle
              && memory == old(memory).(actives := alloc.actives)
              && result == WithPairs(blank, |old(memory).actives|, alloc.pairs)
              && Board(blackboard.engagement, blackboard.mode) ==
                 (if alloc.pairs == [] then Board(old(blackboard.engagement), old(blackboard.mode))
                  else BoardOf(alloc.pairs))
    {
      hide Allocate, ScanAll;
      idle, result := idle0, blank;
      ghost var pairs: seq<Match> := [];
      ghost var actives0 := memory.actives;
      ghost var whole := Allocate(sc, idle0, actives0);
      while idle != []
        invariant var rest := Allocate(sc, idle, memory.actives);
                  whole == Allocation(pairs + rest.pairs, rest.actives, rest.idle)
        invariant memory == old(memory).(actives := memory.actives)
        invariant |memory.actives| == |actives0| + |pairs|
        invariant result == WithPairs(blank, |actives0|, pairs)
        invariant Board(blackboard.engagement, blackboard.mode) ==
                  if pairs == [] then Board(old(blackboard.engagement), old(blackboard.mode)) else BoardOf(pairs)
        decreases |idle|
      {
        var best := SelectPair(sc, idle);
        AllocationLaws.AllocateUnfolds(sc, idle, memory.actives);
        if best.None? {
          break;
        }
        var c := best.value;
        var i, t := idle[c.interceptor], sc.snap.tracks[c.track];
        ghost var p := Match(i, t, c.score);
        ghost var rest := AllocationLaws.Rest(sc, idle, memory.actives, c);
        assert pairs + ([p] + rest.pairs) == (pairs + [p]) + rest.pairs;
        WithPairsStep(blank, |actives0|, pairs, p);
        idle := Removed(idle, c.interceptor);
        var hadEngagement := memory.actives != [];
        result := result.(commands := result.commands
                          + [Command(i.interceptorId, t.trackId, t.position, IdleAssignment)]);
        if result.assignmentReason.None? {
          result := result.(selectedTrackId := t.trackId, selectedInterceptorId := i.interceptorId,
                            selectedScore := c.score, assignmentReason := Some(IdleAssignment));
        }
        memory := memory.(actives := memory.actives + [NewActive(t.trackId, i.interceptorId, sc.snap.time)]);
        blackboard.SetEngagement(i.interceptorId, t.trackId);
        result := result.(event := Event(t.trackId, EngageEvent,
                                         if hadEngagement then IdleInterceptorEngage else EngageStart));
        pairs := pairs + [p];
      }
      AllocationLaws.AllocateUnfolds(sc, idle, memory.actives);
      assert pairs + [] == pairs;
      NothingToScan(sc, idle, memory.actives);
    }

    /** The scan over engagements and open tracks. */
    method SelectSwap(sc: Scene) returns (best: Option<Swap>)
      ensures best == ScanSwaps(sc, memory.actives, |memory.actives|)
    {
      best := None;
      for a := 0 to |memory.actives|
        invariant best == ScanSwaps(sc, memory.actives, a)
      {
        var current := FindLive(sc.snap.tracks, memory.actives[a].trackId);
        var interceptor := FindInterceptor(sc.snap.interceptors, memory.actives[a].interceptorId);
        if current.None? || interceptor.None? {
          continue;
        }
        var activeScore := PairScore(sc.cfg, current.value, interceptor.value);
        ghost var row := best;
        for k := 0 to |sc.snap.tracks|
          invariant best == ScanSwapRow(sc, memory.actives, a, current.value, interceptor.value, k, row)
        {
          var t := sc.snap.tracks[k];
          if IsEngaged(memory.actives, t.trackId) || !Engageable(sc, t) {
            continue;
          }
          var candidateScore := PairScore(sc.cfg, t, interceptor.value);
          if best.None? || candidateScore - activeScore > best.value.candidateScore - best.value.activeScore {
            best := Some(Swap(a, t, candidateScore, activeScore));
          }
        }
      }
    }

    /** The branch with engagements to maintain: perhaps a retask, in any case mode Engage. */
    method MaintainOrRetask(sc: Scene, idle: seq<InterceptorFact>, blackboard: MissionBlackboard, blank: Result)
      returns (result: Result)
      requires blank.commands == []
      modifies this`memory, blackboard`engagement, blackboard`mode
      ensures var out := MaintainedOutcome(sc, old(memory), blank,
                                           Board(old(blackboard.engagement), old(blackboard.mode)), idle);
              && memory == out.memory && result == out.result
              && Board(blackboard.engagement, blackboard.mode) == out.board
    {
      result := blank;
      if idle == [] {
        var best := SelectSwap(sc);
        ScanSwapsLegal(sc, memory.actives, |memory.actives|);
        if best.Some? && memory.actives != [] {
          var s := best.value;
          if s.candidateScore - s.activeScore >= sc.cfg.retaskMargin {
            var id := memory.actives[s.active].interceptorId;
            result := result.(commands := result.commands
                              + [Command(id, s.track.trackId, s.track.position, RetaskAssignment)],
                              selectedTrackId := s.track.trackId, selectedInterceptorId := id,
                              selectedScore := s.candidateScore, assignmentReason := Some(RetaskAssignment));
            var active := memory.actives[s.active].(trackId := s.track.trackId, startTime := sc.snap.time,
                                                    lastCommandTime := sc.snap.time,
                                                    missingTicks := 0, lowConfidenceTicks := 0);
            memory := memory.(actives := memory.actives[s.active := active]);
            blackboard.SetEngagement(id, s.track.trackId);
            result := result.(event := Event(s.track.trackId, EngageEvent, RetaskApproved));
            memory := memory.(consecutiveEngageTicks := memory.consecutiveEngageTicks + 1);
            result := Finalize(result, EngageMode);
            return;
          }
          result := result.(event := Event(s.track.trackId, result.event.kind, RetaskDenied));
        }
      }
      blackboard.SetMode(EngageMode);
      memory := memory.(consecutiveEngageTicks := memory.consecutiveEngageTicks + 1);
      result := Finalize(result, EngageMode);
    }

    method Finalize(result: Result, mode: MissionMode) returns (r: Result)
      modifies this`memory
      ensures r == result.(mode := mode, activeCount := |old(memory).actives|)
      ensures memory == old(memory).(lastMode := mode)
    {
      r := result.(mode := mode, activeCount := |memory.actives|);
      memory := memory.(lastMode := mode);
    }

    /** Runs the behaviour tree and records a denial. */
    method Fallback(sc: Scene, blackboard: MissionBlackboard, blank: Result) returns (result: Result)
      requires sc.cfg == config
      modifies this`memory, blackboard`engagement, blackboard`mode
      ensures var out := FallbackOutcome(sc, old(memory), blank,
                                         Board(old(blackboard.engagement), old(blackboard.mode)));
              && memory == out.memory && result == out.result
              && Board(blackboard.engagement, blackboard.mode) == out.board
    {
      var env := Env(sc, memory.stableTrackId, memory.consecutiveTrackTicks);
      var status, st := RunNode(env, ROOT, FallbackStart(memory, blank, Board(blackboard.engagement, blackboard.mode)));
      blackboard.engagement, blackboard.mode := st.board.engagement, st.board.mode;
      result := blank.(event := st.event, commands := st.commands);
      memory := memory.(actives := st.actives);
      if result.event.kind == DeniedEvent {
        memory := memory.(lastDeniedTrackId := result.event.trackId, lastDenialReason := result.event.reason,
                          denialCooldownUntil := sc.snap.time + MaxReal(0.0, config.denialCooldown));
      }
      if st.mode != EngageMode {
        memory := memory.(consecutiveEngageTicks := 0);
      }
      result := Finalize(result, st.mode);
    }

    /** One tick. */
    method Tick(blackboard: MissionBlackboard) returns (result: Result)
      modifies this`memory, blackboard`engagement, blackboard`mode
      ensures var out := MissionTick.Tick(config, old(memory), old(blackboard.Contents()));
              && memory == out.memory && result == out.result
              && blackboard.Contents() == old(blackboard.Contents()).(board := out.board)
    {
      hide Allocate, ScanAll, MaintainAll, Merged, Reconciled, BoardAfterReconcile, MaintainedOutcome, FallbackOutcome,
        NextStables, IdleOnes, HighestPriority;
      var snap := blackboard.Contents();
      ghost var mem := memory;
      var merged := Prepare(snap, blackboard);
      var after := |memory.actives|;
      var sc := Scene(config, snap, memory.stables, memory.lastDeniedTrackId, memory.denialCooldownUntil);
      assert sc == SceneOf(config, mem, snap);
      var idle0 := IdleOnes(snap.interceptors);
      var maintained, event := MaintainEngagements(snap, blackboard);
      var blank := Result(snap.tick, snap.time, SearchMode, event, 0, |idle0|, merged - after, after, 0, 0, 0.0, None,
                          []);
      ghost var before := memory;
      var idle;
      idle, result := AssignIdle(sc, idle0, blackboard, blank);
      result := result.(idleCount := |idle|);
      AllocationLaws.AllocateUnfolds(sc, idle0, before.actives);
      if result.commands != [] {
        memory := memory.(consecutiveEngageTicks := memory.consecutiveEngageTicks + 1);
        result := Finalize(result, EngageMode);
      } else if maintained {
        result := MaintainOrRetask(sc, idle, blackboard, result);
      } else {
        result := Fallback(sc, blackboard, result);
      }
    }
  }

  // ---------------------------------------------------------------- the greedy loop's result so far

  /** The result once these pairs have been emitted. */
  ghost function WithPairs(blank: Result, before: nat, pairs: seq<Match>): Result {
    if pairs == [] then blank
    else
      var first, last := pairs[0], pairs[|pairs|-1];
      blank.(
        event := Event(last.track.trackId, EngageEvent,
                       if before + |pairs| > 1 then IdleInterceptorEngage else EngageStart),
        selectedTrackId := first.track.trackId,
        selectedInterceptorId := first.interceptor.interceptorId,
        selectedScore := first.score,
        assignmentReason := Some(IdleAssignment),
        commands := CommandsOf(pairs))
  }

  ghost function BoardOf(pairs: seq<Match>): Board
    requires pairs != []
  {
    var last := pairs[|pairs|-1];
    Board(Engagement(true, last.interceptor.interceptorId, last.track.trackId), EngageMode)
  }

  lemma {:induction false} WithPairsStep(blank: Result, before: nat, pairs: seq<Match>, p: Match)
    requires blank.commands == [] && blank.assignmentReason.None?
    ensures var r := WithPairs(blank, before, pairs);
            var command := Command(p.interceptor.interceptorId, p.track.trackId, p.track.position, IdleAssignment);
            var event := Event(p.track.trackId, EngageEvent,
                               if before + |pairs| > 0 then IdleInterceptorEngage else EngageStart);
            var next := WithPairs(blank, before, pairs + [p]);
            && (r.assignmentReason.None? <==> pairs == [])
            && next.commands == r.commands + [command]
            && next == (if pairs == []
                        then r.(commands := r.commands + [command], event := event, selectedTrackId := p.track.trackId,
                                selectedInterceptorId := p.interceptor.interceptorId, selectedScore := p.score,
                                assignmentReason := Some(IdleAssignment))
                        else r.(commands := r.commands + [command], event := event))
  {
    assert CommandsOf(pairs + [p]) == CommandsOf(pairs)
           + [Command(p.interceptor.interceptorId, p.track.trackId, p.track.position, IdleAssignment)];
    assert pairs != [] ==> (pairs + [p])[0] == pairs[0];
  }

  lemma {:induction false} NothingToScan(sc: Scene, idle: seq<InterceptorFact>, actives: seq<Active>)
    ensures idle == [] ==> ScanAll(sc, idle, actives, |idle|).None?
  {
  }

  lemma {:induction false} ReconcileBoardStep(snap: Snapshot, merged: seq<Active>, k: nat)
    requires k < |merged|
    ensures var e := snap.board.engagement;
            var a := merged[k];
            BoardAfterReconcile(snap, merged[..k+1]) ==
            if e.active && RemovalOf(snap, a).Some? && a.trackId == e.trackId && a.interceptorId == e.interceptorId
            then snap.board.(engagement := NO_ENGAGEMENT) else BoardAfterReconcile(snap, merged[..k])
  {
  }

  lemma {:induction false} MaintainNone(cfg: Config, snap: Snapshot, actives: seq<Active>)
    ensures MaintainAll(cfg, snap, actives[..0]) == Maintenance([], false, false, SEARCHING)
  {
  }

  lemma {:induction false} MaintainStep(cfg: Config, snap: Snapshot, actives: seq<Active>, k: nat)
    requires k < |actives|
    ensures var m := MaintainAll(cfg, snap, actives[..k]);
            var kept := MaintainOne(cfg, snap, actives[k]);
            var held := IsMaintained(snap, actives[k]);
            MaintainAll(cfg, snap, actives[..k+1]) == Maintenance(
              if kept.Some? then m.actives + [kept.value] else m.actives, m.maintained || held, m.erased || kept.None?,
              if held then Event(actives[k].trackId, MaintainEvent, EngagementActive) else m.event)
  {
    hide MaintainOne, IsMaintained;
    assert actives[..k+1][..k] == actives[..k];
    var kept := MaintainOne(cfg, snap, actives[k]);
    var m := MaintainAll(cfg, snap, actives[..k]);
    assert kept.None? ==> m.actives + [] == m.actives;
  }

  // ---------------------------------------------------------------- running a tree

  method RunNode(env: Env, node: Node, st: TreeState) returns (status: Status, next: TreeState)
    ensures (status, next) == TickNode(env, node, st)
    decreases node, 0
  {
    match node
    case Leaf(name) =>
      var r := RunLeaf(env, name, st);
      status, next := r.0, r.1;
    case Sequence(children) =>
      status, next := RunSequence(env, children, st);
    case Selector(children) =>
      status, next := RunSelector(env, children, st);
  }

  method RunSequence(env: Env, children: seq<Node>, st: TreeState) returns (status: Status, next: TreeState)
    ensures (status, next) == TickSequence(env, children, st)
    decreases children, 1
  {
    next := st;
    for k := 0 to |children|
      invariant TickSequence(env, children, st) == TickSequence(env, children[k..], next)
    {
      assert children[k..][0] == children[k] && children[k..][1..] == children[k+1..];
      status, next := RunNode(env, children[k], next);
      if status == Failure || status == Running {
        return;
      }
    }
    status := Success;
  }

  method RunSelector(env: Env, children: seq<Node>, st: TreeState) returns (status: Status, next: TreeState)
    ensures (status, next) == TickSelector(env, children, st)
    decreases children, 1
  {
    next := st;
    for k := 0 to |children|
      invariant TickSelector(env, children, st) == TickSelector(env, children[k..], next)
    {
      assert children[k..][0] == children[k] && children[k..][1..] == children[k+1..];
      status, next := RunNode(env, children[k], next);
      if status == Success || status == Running {
        return;
      }
    }
    status := Failure;
  }
}
