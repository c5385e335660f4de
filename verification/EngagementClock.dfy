/** The engagement clock over whole runs of the loop: it measures the flight on the present target, and the timeout
    bounds it (src/agents/interceptor/interceptor.cpp:20-36, 87-91, interceptor_manager.cpp:36-54). */
module EngagementClock {
  import opened Interceptors
  import opened Mission
  import opened ClosedLoop

  /** What a round's step adds to the clock of an engaged interceptor. */
  function Elapsed(input: Input): real {
    if input.dt > 0.0 then input.dt else 0.0
  }

  /** An idle interceptor's clock is at zero. */
  ghost predicate Rested(s: InterceptorState) {
    s.engaged || (s.targetId == 0 && s.engagementTime == 0.0)
  }

  /** Interceptor i stayed on its target through round k. */
  ghost predicate Stays(worlds: seq<World>, i: nat, k: nat)
    requires k + 1 < |worlds| && i < |worlds[k].fleet.states| && i < |worlds[k+1].fleet.states|
  {
    var s, t := worlds[k].fleet.states[i], worlds[k+1].fleet.states[i];
    s.engaged && t.engaged && s.targetId == t.targetId
  }

  /** Every world of the run has the interceptor. */
  ghost predicate Flies(worlds: seq<World>, i: nat) {
    forall k | 0 <= k < |worlds| :: i < |worlds[k].fleet.states|
  }

  /** The time the first k rounds have kept interceptor i on the target it then has. */
  ghost function Flight(worlds: seq<World>, inputs: seq<Input>, i: nat, k: nat): real
    requires |worlds| == |inputs| + 1 && k <= |inputs| && Flies(worlds, i)
  {
    if k == 0 || !worlds[k].fleet.states[i].engaged then 0.0
    else (if Stays(worlds, i, k - 1) then Flight(worlds, inputs, i, k - 1) else 0.0) + Elapsed(inputs[k-1])
  }

  // ---------------------------------------------------------------- one round

  lemma {:induction false} FlownClock(sqrt: real -> real, maxSpeed: real, s: InterceptorState, dt: real)
    ensures var r := Flown(sqrt, maxSpeed, s, dt);
            && r.engaged == s.engaged && r.targetId == s.targetId
            && r.engagementTime == s.engagementTime + if s.engaged && dt > 0.0 then dt else 0.0
  {
  }

  /** A step runs the clock, or ends the engagement once it passes the timeout. */
  lemma {:induction false} StepClock(sqrt: real -> real, maxSpeed: real, timeout: real, positions: Positions,
                                     s: InterceptorState, dt: real)
    requires Rested(s)
    ensures var r := StepOne(sqrt, maxSpeed, timeout, positions, s, dt);
            && Rested(r)
            && (r.engaged ==>
                  && s.engaged && r.targetId == s.targetId && r.engagementTime <= timeout
                  && r.engagementTime == s.engagementTime + if dt > 0.0 then dt else 0.0)
  {
    hide Flown;
    if s.engaged && s.targetId in positions {
      FlownClock(sqrt, maxSpeed, Tasked(s, s.targetId, positions[s.targetId]), dt);
    }
  }

  /** An order for an interceptor always names another track than it has, so it restarts the clock. */
  lemma {:induction false} OrdersRestart(fleet: Fleet, positions: Positions, orders: seq<(nat, nat)>, k: nat)
    requires IsFleet(fleet) && k < |fleet.states| && Rested(fleet.states[k])
    requires forall o | o in orders && fleet.states[k].engaged :: o.1 != fleet.states[k].targetId
    ensures var r := AssignAll(fleet, positions, orders).states[k];
            || r == fleet.states[k]
            || (r.engaged && r.engagementTime == 0.0
                && (fleet.states[k].engaged ==> r.targetId != fleet.states[k].targetId))
  {
    if orders != [] {
      var n := |orders| - 1;
      assert orders == orders[..n] + [orders[n]];
      OrdersRestart(fleet, positions, orders[..n], k);
    }
  }

  /** One round keeps idle clocks at zero, and an engaged interceptor's clock runs on exactly when it stays on its
      target, from zero otherwise. */
  lemma {:induction false} RoundClock(cfg: Config, w: World, input: Input, i: nat)
    requires IsSound(w) && IsInput(w, input) && i < |w.fleet.states| && Rested(w.fleet.states[i])
    ensures |Round(cfg, w, input).fleet.states| == |w.fleet.states|
    ensures var s, r := w.fleet.states[i], Round(cfg, w, input).fleet.states[i];
            && Rested(r)
            && (r.engaged ==>
                  && r.engagementTime <= input.timeout
                  && r.engagementTime ==
                     (if s.engaged && s.targetId == r.targetId then s.engagementTime else 0.0) + Elapsed(input))
  {
    var orders := Orders(Decided(cfg, w, input).result.commands);
    forall o | o in orders && w.fleet.states[i].engaged ensures o.1 != w.fleet.states[i].targetId {
      var c := OrderSource(Decided(cfg, w, input).result.commands, o);
      CommandsAreFresh(cfg, w, input, c, i);
    }
    OrdersRestart(w.fleet, PositionsIn(input), orders, i);
    AssignedLength(cfg, w, input);
    RoundEndsAs(cfg, w, input, i);
    hide AssignAll, Round, Decided, Orders, StepOne, IsFleet, PositionsIn;
    StepClock(cfg.sqrt, input.speeds[i], input.timeout, PositionsIn(input), AssignedFleet(cfg, w, input).states[i],
              input.dt);
  }

  lemma {:induction false} OrderSource(commands: seq<Command>, o: (nat, nat)) returns (c: Command)
    requires o in Orders(commands)
    ensures c in commands && c.trackId == o.1
  {
    var k :| 0 <= k < |commands| && Orders(commands)[k] == o;
    c := commands[k];
  }

  /** The state a round leaves is the stepped one, or that released by a hit. */
  lemma {:induction false} RoundEndsAs(cfg: Config, w: World, input: Input, i: nat)
    requires IsFleet(w.fleet) && |input.speeds| == |w.fleet.states| && i < |w.fleet.states|
    ensures |Round(cfg, w, input).fleet.states| == |w.fleet.states| == |AssignedFleet(cfg, w, input).states|
    ensures var stepped := StepOne(cfg.sqrt, input.speeds[i], input.timeout, PositionsIn(input),
                                   AssignedFleet(cfg, w, input).states[i], input.dt);
            var r := Round(cfg, w, input).fleet.states[i];
            r == stepped || r == Released(stepped)
  {
    SteppedIsFleet(cfg, input, AssignedFleet(cfg, w, input));
  }

  // ---------------------------------------------------------------- whole runs

  lemma {:induction false} StepKeepsSize(cfg: Config, worlds: seq<World>, inputs: seq<Input>, k: nat)
    requires k < |inputs| < |worlds| && LoopStep(cfg, worlds, inputs, k)
    ensures |worlds[k+1].fleet.states| == |worlds[k].fleet.states|
  {
    hide Round, IsFleet;
    RoundIsFleet(cfg, worlds[k], inputs[k]);
  }

  lemma {:induction false} FleetKeepsSize(cfg: Config, worlds: seq<World>, inputs: seq<Input>, k: nat)
    requires IsLoopRun(cfg, worlds, inputs) && k <= |inputs|
    ensures |worlds[k].fleet.states| == |worlds[0].fleet.states|
  {
    hide LoopStep, StartsIdle;
    if k > 0 {
      FleetKeepsSize(cfg, worlds, inputs, k - 1);
      StepKeepsSize(cfg, worlds, inputs, k - 1);
    }
  }

  lemma {:induction false} EverybodyFlies(cfg: Config, worlds: seq<World>, inputs: seq<Input>, i: nat)
    requires IsLoopRun(cfg, worlds, inputs) && i < |worlds[0].fleet.states|
    ensures Flies(worlds, i)
  {
    hide LoopStep;
    forall k | 0 <= k < |worlds| ensures i < |worlds[k].fleet.states| {
      FleetKeepsSize(cfg, worlds, inputs, k);
    }
  }

  /** In every world of every run that starts with the clocks at zero, the clock of each interceptor is the time it has
      been flown at its present target, and no engagement has outlasted the timeout of the last round. */
  lemma {:induction false} ClockTellsFlight(cfg: Config, worlds: seq<World>, inputs: seq<Input>, i: nat, k: nat)
    requires IsLoopRun(cfg, worlds, inputs) && k <= |inputs|
    requires i < |worlds[0].fleet.states| && Rested(worlds[0].fleet.states[i])
    ensures Flies(worlds, i) && Rested(worlds[k].fleet.states[i])
    ensures worlds[k].fleet.states[i].engagementTime == Flight(worlds, inputs, i, k)
    ensures k > 0 && worlds[k].fleet.states[i].engaged ==> Flight(worlds, inputs, i, k) <= inputs[k-1].timeout
  {
    hide Round, IsFleet, IsSound, IsInput;
    EverybodyFlies(cfg, worlds, inputs, i);
    if k > 0 {
      ClockTellsFlight(cfg, worlds, inputs, i, k - 1);
      assert LoopStep(cfg, worlds, inputs, k - 1);
      LoopIsSound(cfg, worlds, inputs, k - 1);
      RoundClock(cfg, worlds[k-1], inputs[k-1], i);
    }
  }

  function TotalElapsed(inputs: seq<Input>): real {
    if inputs == [] then 0.0 else TotalElapsed(inputs[..|inputs|-1]) + Elapsed(inputs[|inputs|-1])
  }

  lemma {:induction false} FlightIsSum(worlds: seq<World>, inputs: seq<Input>, i: nat, j: nat, k: nat)
    requires |worlds| == |inputs| + 1 && j < k <= |inputs| && Flies(worlds, i)
    requires !Stays(worlds, i, j) && worlds[j+1].fleet.states[i].engaged
    requires forall n | j < n < k :: Stays(worlds, i, n)
    ensures Flight(worlds, inputs, i, k) == TotalElapsed(inputs[j..k]) && worlds[k].fleet.states[i].engaged
  {
    var part := inputs[j..k];
    assert part[..|part|-1] == inputs[j..k-1];
    if j + 1 < k {
      assert Stays(worlds, i, k - 1);
      FlightIsSum(worlds, inputs, i, j, k - 1);
    } else {
      assert inputs[j..j] == [];
    }
  }

  /** An engagement that begins in round j and still lasts after round k - 1 has been flown for the sum of the steps in
      between, which is within the timeout. */
  lemma {:induction false} EngagementsTimeOut(cfg: Config, worlds: seq<World>, inputs: seq<Input>, i: nat, j: nat,
                                              k: nat)
    requires IsLoopRun(cfg, worlds, inputs) && j < k <= |inputs|
    requires Flies(worlds, i) && Rested(worlds[0].fleet.states[i])
    requires !Stays(worlds, i, j) && worlds[j+1].fleet.states[i].engaged
    requires forall n | j < n < k :: Stays(worlds, i, n)
    ensures worlds[k].fleet.states[i].engagementTime == TotalElapsed(inputs[j..k]) <= inputs[k-1].timeout
  {
    hide LoopStep, Stays;
    ClockTellsFlight(cfg, worlds, inputs, i, k);
    FlightIsSum(worlds, inputs, i, j, k);
  }
}
