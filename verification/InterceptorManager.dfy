/** Interceptors and their manager as objects updated in place, proved against Interceptors
    (src/agents/interceptor/interceptor.cpp, interceptor_manager.cpp). */
module InterceptorManagement {
  import opened Basics
  import opened Interceptors
  import opened Sorting

  class Interceptor {
    const sqrt: real -> real
    const maxSpeed: real
    var state: InterceptorState
    var targetPos: Vec3

    ghost predicate Valid()
      reads this
    {
      maxSpeed > 0.0 && targetPos == state.assignedTargetPosition && Norm2(state.velocity) <= maxSpeed * maxSpeed
    }

    /** The source throws when the speed is not positive; InterceptorManager.Build reports that case. */
    constructor (sqrt: real -> real, maxSpeed: real, id: nat, start: Vec3)
      requires maxSpeed > 0.0
      ensures Valid() && state == Idle(id, start)
      ensures this.sqrt == sqrt && this.maxSpeed == maxSpeed
    {
      this.sqrt := sqrt;
      this.maxSpeed := maxSpeed;
      this.state := Idle(id, start);
      this.targetPos := ORIGIN;
      new;
      assert 0.0 <= maxSpeed * maxSpeed;
    }

    method AssignTarget(id: nat, position: Vec3)
      requires Valid()
      modifies this
      ensures Valid() && state == Tasked(old(state), id, position)
    {
      if state.targetId != id {
        state := state.(engagementTime := 0.0);
      }
      state := state.(engaged := true, targetId := id, assignedTargetPosition := position);
      targetPos := position;
    }

    method ClearEngagement()
      requires Valid()
      modifies this
      ensures Valid() && state == Released(old(state))
    {
      state := state.(engaged := false);
      state := state.(targetId := 0);
      state := state.(engagementTime := 0.0);
    }

    method Step(dt: real)
      requires Valid() && IsSqrt(sqrt)
      modifies this
      ensures Valid() && state == Flown(sqrt, maxSpeed, old(state), dt)
    {
      FlownSpeed(sqrt, maxSpeed, state, dt);
      if !state.engaged || dt <= 0.0 {
        return;
      }
      state := state.(engagementTime := state.engagementTime + dt);
      var los := Minus(targetPos, state.position);
      var dist := sqrt(Norm2(los));
      if dist < NEGLIGIBLE_DISTANCE {
        return;
      }
      state := state.(velocity := Steered(state.velocity, los, dist, maxSpeed, dt));
      var speed := sqrt(Norm2(state.velocity));
      if speed > maxSpeed {
        state := state.(velocity := Scale(state.velocity, maxSpeed / speed));
      }
      state := state.(position := Plus(state.position, Scale(state.velocity, dt)));
    }

    /** The manager's step for one interceptor: follow the target's known position, or give up. */
    method Pursue(positions: Positions, timeout: real, dt: real)
      requires Valid() && IsSqrt(sqrt)
      modifies this
      ensures Valid() && state == StepOne(sqrt, maxSpeed, timeout, positions, old(state), dt)
    {
      hide Flown, Tasked, Released;
      var before := state;
      if before.engaged {
        if before.targetId !in positions {
          ClearEngagement();
        } else {
          AssignTarget(before.targetId, positions[before.targetId]);
          Step(dt);
          if state.engagementTime > timeout {
            ClearEngagement();
          }
        }
      }
    }
  }

  datatype InterceptorConfig = InterceptorConfig(interceptorId: nat, maxSpeed: real, start: Vec3)

  predicate ById(a: InterceptorConfig, b: InterceptorConfig) {
    a.interceptorId < b.interceptorId
  }

  function StatesOf(entries: seq<Interceptor>): (r: seq<InterceptorState>)
    reads entries
    ensures |r| == |entries|
  {
    seq(|entries|, i requires 0 <= i < |entries| reads entries => entries[i].state)
  }

  /** One idle interceptor per configuration, indexed by id. */
  ghost function InitialFleet(configs: seq<InterceptorConfig>): Fleet {
    if configs == [] then Fleet([], map[])
    else
      var n := |configs| - 1;
      Indexed(InitialFleet(configs[..n]), Idle(configs[n].interceptorId, configs[n].start))
  }

  function SpeedsOf(configs: seq<InterceptorConfig>): (r: seq<real>)
    ensures |r| == |configs| && forall k | 0 <= k < |r| :: r[k] == configs[k].maxSpeed
  {
    seq(|configs|, k requires 0 <= k < |configs| => configs[k].maxSpeed)
  }

  lemma {:induction false} InitialFleetStep(configs: seq<InterceptorConfig>, k: nat)
    requires k < |configs|
    ensures InitialFleet(configs[..k+1]) ==
            Indexed(InitialFleet(configs[..k]), Idle(configs[k].interceptorId, configs[k].start))
  {
    assert configs[..k+1][..k] == configs[..k];
  }

  /** The states after stepping the first k interceptors. */
  ghost function Stepped(sqrt: real -> real, speeds: seq<real>, timeout: real, positions: Positions,
                         states: seq<InterceptorState>, dt: real, k: nat): (r: seq<InterceptorState>)
    requires |speeds| == |states| && k <= |states|
    ensures |r| == |states|
  {
    seq(|states|, i requires 0 <= i < |states| =>
      if i < k then StepOne(sqrt, speeds[i], timeout, positions, states[i], dt) else states[i])
  }

  class InterceptorManager {
    const sqrt: real -> real
    var entries: seq<Interceptor>
    var indexById: map<nat, nat>
    var trackPositions: Positions
    var engagementTimeout: real

    ghost predicate Valid()
      reads this, entries
    {
      && IsSqrt(sqrt)
      && (forall i, j | 0 <= i < j < |entries| :: entries[i] != entries[j])
      && (forall i | 0 <= i < |entries| :: entries[i].Valid() && entries[i].sqrt == sqrt)
      && IsFleet(Contents())
    }

    ghost function Contents(): Fleet
      reads this, entries
    {
      Fleet(StatesOf(entries), indexById)
    }

    ghost function Speeds(): (r: seq<real>)
      reads this
      ensures |r| == |entries|
    {
      seq(|entries|, i requires 0 <= i < |entries| reads this => entries[i].maxSpeed)
    }

    constructor Empty(sqrt: real -> real)
      requires IsSqrt(sqrt)
      ensures Valid() && this.sqrt == sqrt && entries == [] && indexById == map[] && trackPositions == map[]
              && engagementTimeout == 10.0
      ensures Contents() == InitialFleet([])
    {
      this.sqrt := sqrt;
      entries, indexById, trackPositions, engagementTimeout := [], map[], map[], 10.0;
    }

    /** Sorts the configurations by id and creates an interceptor for each; None where the source throws. */
    static method Build(sqrt: real -> real, configs: seq<InterceptorConfig>) returns (r: Option<InterceptorManager>)
      requires IsSqrt(sqrt)
      ensures r.None? <==> exists i :: 0 <= i < |configs| && configs[i].maxSpeed <= 0.0
      ensures r.Some? ==>
                && fresh(r.value) && fresh(r.value.entries) && r.value.Valid() && r.value.engagementTimeout == 10.0
                && r.value.sqrt == sqrt
                && r.value.Contents() == InitialFleet(Sort(ById, configs))
                && r.value.Speeds() == SpeedsOf(Sort(ById, configs))
    {
      hide *;
      var sorted := Sort(ById, configs);
      SortKeepsElements(ById, configs);
      var m := new InterceptorManager.Empty(sqrt);
      assert sorted[..0] == [];
      for k := 0 to |sorted|
        invariant m.Valid() && m.engagementTimeout == 10.0
        invariant fresh(m) && m.sqrt == sqrt && fresh(m.entries)
        invariant m.Contents() == InitialFleet(sorted[..k]) && m.Speeds() == SpeedsOf(sorted[..k])
        invariant forall i | 0 <= i < k :: sorted[i].maxSpeed > 0.0
      {
        if sorted[k].maxSpeed <= 0.0 {
          SameElements(sorted, configs, sorted[k]);
          return None;
        }
        m.Add(sorted[k]);
        InitialFleetStep(sorted, k);
        assert SpeedsOf(sorted[..k+1]) == SpeedsOf(sorted[..k]) + [sorted[k].maxSpeed];
      }
      assert sorted[..|sorted|] == sorted;
      forall i | 0 <= i < |configs| ensures configs[i].maxSpeed > 0.0 {
        SameElements(sorted, configs, configs[i]);
      }
      r := Some(m);
    }

    method Add(config: InterceptorConfig)
      requires Valid() && config.maxSpeed > 0.0
      modifies this`entries, this`indexById
      ensures Valid() && |entries| == old(|entries|) + 1 && old(entries) <= entries && fresh(entries[old(|entries|)])
      ensures Contents() == Indexed(old(Contents()), Idle(config.interceptorId, config.start))
      ensures Speeds() == old(Speeds()) + [config.maxSpeed]
    {
      IndexedKeepsFleet(Contents(), Idle(config.interceptorId, config.start));
      hide IsFleet, Idle;
      if config.interceptorId !in indexById {
        indexById := indexById[config.interceptorId := |entries|];
      }
      var interceptor := new Interceptor(sqrt, config.maxSpeed, config.interceptorId, config.start);
      entries := entries + [interceptor];
      assert StatesOf(entries) == old(StatesOf(entries)) + [interceptor.state];
    }

    method SetEngagementTimeout(timeout: real)
      modifies this`engagementTimeout
      ensures engagementTimeout == if timeout > 0.0 then timeout else old(engagementTimeout)
    {
      if timeout > 0.0 {
        engagementTimeout := timeout;
      }
    }

    method UpdateTrackPositions(positions: seq<(nat, Vec3)>)
      modifies this`trackPositions
      ensures trackPositions == PositionsOf(positions)
    {
      trackPositions := map[];
      for k := 0 to |positions|
        invariant trackPositions == PositionsOf(positions[..k])
      {
        assert positions[..k+1][..k] == positions[..k];
        trackPositions := trackPositions[positions[k].0 := positions[k].1];
      }
      assert positions[..|positions|] == positions;
    }

    /** Releases the entry at i. */
    method ReleaseAt(i: nat)
      requires Valid() && i < |entries|
      modifies entries[i]
      ensures Valid() && StatesOf(entries) == old(StatesOf(entries))[i := Released(old(StatesOf(entries))[i])]
    {
      ghost var released := Released(entries[i].state);
      UpdateKeepsFleet(Contents(), i, released);
      hide IsFleet, Released;
      entries[i].ClearEngagement();
      assert StatesOf(entries) == old(StatesOf(entries))[i := released];
    }

    method TaskAt(i: nat, track: nat, position: Vec3)
      requires Valid() && i < |entries|
      modifies entries[i]
      ensures Valid() && StatesOf(entries) ==
              old(StatesOf(entries))[i := Tasked(old(StatesOf(entries))[i], track, position)]
    {
      ghost var tasked := Tasked(entries[i].state, track, position);
      UpdateKeepsFleet(Contents(), i, tasked);
      hide IsFleet, Tasked;
      entries[i].AssignTarget(track, position);
      assert StatesOf(entries) == old(StatesOf(entries))[i := tasked];
    }

    method StepAt(i: nat, dt: real)
      requires Valid() && i < |entries|
      modifies entries[i]
      ensures Valid()
      ensures StatesOf(entries) == old(StatesOf(entries))[i :=
                StepOne(sqrt, Speeds()[i], engagementTimeout, trackPositions, old(StatesOf(entries))[i], dt)]
    {
      ghost var stepped := StepOne(sqrt, entries[i].maxSpeed, engagementTimeout, trackPositions, entries[i].state, dt);
      StepOneEngagement(sqrt, entries[i].maxSpeed, engagementTimeout, trackPositions, entries[i].state, dt);
      UpdateKeepsFleet(Contents(), i, stepped);
      hide IsFleet, StepOne;
      entries[i].Pursue(trackPositions, engagementTimeout, dt);
      assert StatesOf(entries) == old(StatesOf(entries))[i := stepped];
    }

    method Step(dt: real)
      requires Valid()
      modifies entries
      ensures Valid()
      ensures StatesOf(entries) == Stepped(sqrt, Speeds(), engagementTimeout, trackPositions, old(StatesOf(entries)),
                                           dt, |entries|)
    {
      hide Valid, StatesOf, Speeds, StepOne;
      ghost var states := StatesOf(entries);
      assert Stepped(sqrt, Speeds(), engagementTimeout, trackPositions, states, dt, 0) == states;
      for i := 0 to |entries|
        invariant Valid()
        invariant StatesOf(entries) == Stepped(sqrt, Speeds(), engagementTimeout, trackPositions, states, dt, i)
      {
        StepAt(i, dt);
      }
    }

    method Assign(commands: seq<(nat, nat)>)
      requires Valid()
      modifies entries
      ensures Valid()
      ensures Contents() == AssignAll(old(Contents()), trackPositions, commands)
    {
      ghost var fleet := Contents();
      hide StatesOf, Tasked, IsFleet;
      for k := 0 to |commands|
        invariant Valid() && Contents() == AssignAll(fleet, trackPositions, commands[..k])
      {
        assert commands[..k+1][..k] == commands[..k];
        var (id, track) := commands[k];
        if id in indexById && track in trackPositions {
          IndexInRange(id);
          TaskAt(indexById[id], track, trackPositions[track]);
        }
      }
      assert commands[..|commands|] == commands;
    }

    method HandleIntercepts(hits: seq<(nat, nat)>)
      requires Valid()
      modifies entries
      ensures Valid()
      ensures Contents() == HandleAll(old(Contents()), hits)
    {
      ghost var fleet := Contents();
      for k := 0 to |hits|
        invariant Valid() && Contents() == HandleAll(fleet, hits[..k])
      {
        assert hits[..k+1][..k] == hits[..k];
        var (id, track) := hits[k];
        if id in indexById {
          IndexInRange(id);
          var i := indexById[id];
          if entries[i].state.engaged && entries[i].state.targetId == track {
            ReleaseAt(i);
          }
        }
      }
      assert hits[..|hits|] == hits;
    }

    lemma IndexInRange(id: nat)
      requires Valid() && id in indexById
      ensures indexById[id] < |entries| && StatesOf(entries)[indexById[id]] == entries[indexById[id]].state
    {
    }

    method States() returns (states: seq<InterceptorState>)
      ensures states == StatesOf(entries)
    {
      states := [];
      for i := 0 to |entries|
        invariant states == StatesOf(entries)[..i]
      {
        states := states + [entries[i].state];
      }
    }
  }
}
