/** Interceptors on values (src/agents/interceptor/interceptor.cpp, interceptor_manager.cpp). */
module Interceptors {
  import opened Basics

  datatype InterceptorState = InterceptorState(
    interceptorId: nat,
    position: Vec3,
    velocity: Vec3,
    engaged: bool,
    targetId: nat,
    assignedTargetPosition: Vec3,
    engagementTime: real)

  const NAV_GAIN: real := 2.0

  /** Two points this close count as one. */
  const NEGLIGIBLE_DISTANCE: real := 0.000000001

  function Idle(id: nat, start: Vec3): InterceptorState {
    InterceptorState(id, start, ORIGIN, false, 0, ORIGIN, 0.0)
  }

  /** assign_target: a new target restarts the engagement clock. */
  function Tasked(s: InterceptorState, target: nat, position: Vec3): InterceptorState {
    s.(engagementTime := if s.targetId != target then 0.0 else s.engagementTime,
       engaged := true, targetId := target, assignedTargetPosition := position)
  }

  /** clear_engagement. */
  function Released(s: InterceptorState): InterceptorState {
    s.(engaged := false, targetId := 0, engagementTime := 0.0)
  }

  function Norm2(v: Vec3): real {
    v.x * v.x + v.y * v.y + v.z * v.z
  }

  function Scale(v: Vec3, k: real): Vec3 {
    Vec3(v.x * k, v.y * k, v.z * k)
  }

  function Plus(a: Vec3, b: Vec3): Vec3 {
    Vec3(a.x + b.x, a.y + b.y, a.z + b.z)
  }

  function Minus(a: Vec3, b: Vec3): Vec3 {
    Vec3(a.x - b.x, a.y - b.y, a.z - b.z)
  }

  /** The velocity steered towards the line of sight, before the speed limit. */
  function Steered(velocity: Vec3, los: Vec3, dist: real, maxSpeed: real, dt: real): Vec3
    requires dist != 0.0
  {
    var desired := Scale(Scale(los, 1.0 / dist), maxSpeed);
    Plus(velocity, Scale(Scale(Minus(desired, velocity), NAV_GAIN), dt))
  }

  /** The speed limit. */
  function Limited(sqrt: real -> real, velocity: Vec3, maxSpeed: real): Vec3 {
    var speed := sqrt(Norm2(velocity));
    if speed > maxSpeed && speed != 0.0 then Scale(velocity, maxSpeed / speed) else velocity
  }

  /** Interceptor::step. */
  function Flown(sqrt: real -> real, maxSpeed: real, s: InterceptorState, dt: real): InterceptorState {
    if !s.engaged || dt <= 0.0 then s
    else
      var timed := s.(engagementTime := s.engagementTime + dt);
      var los := Minus(s.assignedTargetPosition, s.position);
      var dist := sqrt(Norm2(los));
      if dist < NEGLIGIBLE_DISTANCE then timed
      else
        var velocity := Limited(sqrt, Steered(s.velocity, los, dist, maxSpeed, dt), maxSpeed);
        timed.(velocity := velocity, position := Plus(s.position, Scale(velocity, dt)))
  }

  lemma {:induction false} ScaledNorm(v: Vec3, k: real)
    ensures Norm2(Scale(v, k)) == k * k * Norm2(v)
  {
  }

  lemma {:induction false} NormIsNonNegative(v: Vec3)
    ensures Norm2(v) >= 0.0
  {
    assert v.x * v.x >= 0.0 && v.y * v.y >= 0.0 && v.z * v.z >= 0.0;
  }

  lemma {:induction false} SquaresCompare(a: real, b: real)
    requires 0.0 <= a <= b
    ensures a * a <= b * b
  {
  }

  lemma {:induction false} QuotientTimes(m: real, s: real)
    requires s != 0.0
    ensures (m / s) * s == m
  {
  }

  lemma {:induction false} ProductAboveOne(q: real, s: real)
    requires q > 1.0 && s > 0.0
    ensures q * s > s
  {
    assert (q - 1.0) * s > 0.0;
  }

  lemma {:induction false} ProductNotAboveZero(q: real, s: real)
    requires q <= 0.0 && s > 0.0
    ensures q * s <= 0.0
  {
  }

  lemma {:induction false} QuotientIsFraction(m: real, s: real)
    requires 0.0 < m < s
    ensures 0.0 < m / s <= 1.0
  {
    var q := m / s;
    QuotientTimes(m, s);
    if q > 1.0 {
      ProductAboveOne(q, s);
    } else if q <= 0.0 {
      ProductNotAboveZero(q, s);
    }
  }

  lemma {:induction false} SquareOfProduct(k: real, s: real)
    ensures k * k * (s * s) == (k * s) * (k * s)
  {
  }

  /** A limited velocity is within the limit, and keeps its direction. */
  lemma {:induction false} LimitedSpeed(sqrt: real -> real, velocity: Vec3, maxSpeed: real)
    requires IsSqrt(sqrt) && maxSpeed > 0.0
    ensures Norm2(Limited(sqrt, velocity, maxSpeed)) <= maxSpeed * maxSpeed
    ensures exists k :: 0.0 < k <= 1.0 && Limited(sqrt, velocity, maxSpeed) == Scale(velocity, k)
  {
    hide Norm2, Scale;
    NormIsNonNegative(velocity);
    var speed := sqrt(Norm2(velocity));
    if speed > maxSpeed {
      var k := maxSpeed / speed;
      QuotientTimes(maxSpeed, speed);
      QuotientIsFraction(maxSpeed, speed);
      ScaledNorm(velocity, k);
      SquareOfProduct(k, speed);
    } else {
      SquaresCompare(speed, maxSpeed);
      ScaledByOne(velocity);
    }
  }

  lemma {:induction false} ScaledByOne(v: Vec3)
    ensures Scale(v, 1.0) == v
  {
  }

  /** No interceptor ever exceeds its speed, whatever it is told to chase. */
  lemma {:induction false} FlownSpeed(sqrt: real -> real, maxSpeed: real, s: InterceptorState, dt: real)
    requires IsSqrt(sqrt) && maxSpeed > 0.0
    requires Norm2(s.velocity) <= maxSpeed * maxSpeed
    ensures Norm2(Flown(sqrt, maxSpeed, s, dt).velocity) <= maxSpeed * maxSpeed
  {
    if s.engaged && dt > 0.0 {
      var los := Minus(s.assignedTargetPosition, s.position);
      var dist := sqrt(Norm2(los));
      if dist >= NEGLIGIBLE_DISTANCE {
        LimitedSpeed(sqrt, Steered(s.velocity, los, dist, maxSpeed, dt), maxSpeed);
      }
    }
  }

  // ---------------------------------------------------------------- the manager

  type Positions = map<nat, Vec3>

  /** update_track_positions: a later entry for the same track replaces an earlier one. */
  function PositionsOf(entries: seq<(nat, Vec3)>): Positions {
    if entries == [] then map[]
    else PositionsOf(entries[..|entries|-1])[entries[|entries|-1].0 := entries[|entries|-1].1]
  }

  /** The states and the index the manager looks them up by. */
  datatype Fleet = Fleet(states: seq<InterceptorState>, index: map<nat, nat>)

  /** The index maps exactly the ids present, each to an entry with that id. */
  ghost predicate IsFleet(fleet: Fleet) {
    && (forall id | id in fleet.index ::
          fleet.index[id] < |fleet.states| && fleet.states[fleet.index[id]].interceptorId == id)
    && (forall i | 0 <= i < |fleet.states| :: fleet.states[i].interceptorId in fleet.index)
  }

  lemma {:induction false} UpdateKeepsFleet(fleet: Fleet, i: nat, s: InterceptorState)
    requires IsFleet(fleet) && i < |fleet.states| && s.interceptorId == fleet.states[i].interceptorId
    ensures IsFleet(fleet.(states := fleet.states[i := s]))
  {
  }

  /** The index as the constructor builds it: the first entry with an id keeps it. */
  function Indexed(fleet: Fleet, s: InterceptorState): Fleet {
    Fleet(fleet.states + [s],
          if s.interceptorId in fleet.index then fleet.index else fleet.index[s.interceptorId := |fleet.states|])
  }

  lemma {:induction false} IndexedKeepsFleet(fleet: Fleet, s: InterceptorState)
    requires IsFleet(fleet)
    ensures IsFleet(Indexed(fleet, s))
  {
  }

  function AssignOne(fleet: Fleet, positions: Positions, id: nat, track: nat): Fleet
    requires IsFleet(fleet)
  {
    if id in fleet.index && track in positions then
      var i := fleet.index[id];
      fleet.(states := fleet.states[i := Tasked(fleet.states[i], track, positions[track])])
    else fleet
  }

  /** InterceptorManager::assign. */
  function AssignAll(fleet: Fleet, positions: Positions, commands: seq<(nat, nat)>): (r: Fleet)
    requires IsFleet(fleet)
    ensures IsFleet(r) && r.index == fleet.index && |r.states| == |fleet.states|
    ensures forall i | 0 <= i < |r.states| :: r.states[i].interceptorId == fleet.states[i].interceptorId
  {
    if commands == [] then fleet
    else
      var n := |commands| - 1;
      AssignOne(AssignAll(fleet, positions, commands[..n]), positions, commands[n].0, commands[n].1)
  }

  function StepOne(sqrt: real -> real, maxSpeed: real, timeout: real, positions: Positions, s: InterceptorState,
                   dt: real): InterceptorState {
    if !s.engaged then s
    else if s.targetId !in positions then Released(s)
    else
      var r := Flown(sqrt, maxSpeed, Tasked(s, s.targetId, positions[s.targetId]), dt);
      if r.engagementTime > timeout then Released(r) else r
  }

  /** What one step may do to an engagement: keep it, its track being known, or end it. */
  lemma {:induction false} StepOneEngagement(sqrt: real -> real, maxSpeed: real, timeout: real, positions: Positions,
                                             s: InterceptorState, dt: real)
    ensures var r := StepOne(sqrt, maxSpeed, timeout, positions, s, dt);
            && r.interceptorId == s.interceptorId
            && (r.engaged ==>
                  && s.engaged && r.targetId == s.targetId
                  && r.targetId in positions && r.engagementTime <= timeout)
            && (s.engaged && !r.engaged ==> r.targetId == 0 && r.engagementTime == 0.0)
            && (!s.engaged ==> r == s)
  {
  }

  function HandleOne(fleet: Fleet, id: nat, track: nat): Fleet
    requires IsFleet(fleet)
  {
    if id in fleet.index && fleet.states[fleet.index[id]].engaged
       && fleet.states[fleet.index[id]].targetId == track then
      var i := fleet.index[id];
      fleet.(states := fleet.states[i := Released(fleet.states[i])])
    else fleet
  }

  /** InterceptorManager::handle_intercepts. */
  function HandleAll(fleet: Fleet, hits: seq<(nat, nat)>): (r: Fleet)
    requires IsFleet(fleet)
    ensures IsFleet(r) && r.index == fleet.index && |r.states| == |fleet.states|
    ensures forall i | 0 <= i < |r.states| ::
              r.states[i].interceptorId == fleet.states[i].interceptorId
              && (r.states[i] == fleet.states[i]
                  || (fleet.states[i].engaged && r.states[i] == Released(fleet.states[i])))
  {
    if hits == [] then fleet
    else
      var n := |hits| - 1;
      HandleOne(HandleAll(fleet, hits[..n]), hits[n].0, hits[n].1)
  }
}
