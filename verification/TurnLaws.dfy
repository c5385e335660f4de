/** What one turn of the simulation does to each interceptor, told by tracks, commands and distances alone
    (src/tools/run_sim.cpp:633-733, src/agents/interceptor/interceptor_manager.cpp:28-118). */
module TurnLaws {
  import opened Basics
  import opened Interceptors
  import opened InterceptorManagement
  import opened Sorting
  import opened Mission
  import opened MissionTick
  import opened MissionLaws
  import opened AllocationLaws
  import opened EngagementRules
  import opened ClosedLoop
  import opened Simulation
  import FlightLaws

  // ---------------------------------------------------------------- the positions

  /** In the manager's table a later entry of a track wins. */
  lemma {:induction false} LastEntryWins(entries: seq<(nat, Vec3)>, k: nat)
    requires k < |entries| && forall j | k < j < |entries| :: entries[j].0 != entries[k].0
    ensures entries[k].0 in PositionsOf(entries) && PositionsOf(entries)[entries[k].0] == entries[k].1
  {
    var n := |entries| - 1;
    if k < n {
      LastEntryWins(entries[..n], k);
      assert entries[n].0 != entries[k].0;
    }
  }

  lemma {:induction false} HeldIsListed(entries: seq<(nat, Vec3)>, id: nat)
    requires id in PositionsOf(entries) || id in FirstPositions(entries)
    ensures exists e :: e in entries && e.0 == id
  {
    var n := |entries| - 1;
    assert entries == entries[..n] + [entries[n]];
    if entries[n].0 != id {
      HeldIsListed(entries[..n], id);
    }
  }

  /** In the table of the hit test the first entry of a track wins. */
  lemma {:induction false} FirstEntryWins(entries: seq<(nat, Vec3)>, k: nat)
    requires k < |entries| && forall j | 0 <= j < k :: entries[j].0 != entries[k].0
    ensures entries[k].0 in FirstPositions(entries) && FirstPositions(entries)[entries[k].0] == entries[k].1
  {
    var n := |entries| - 1;
    if k < n {
      FirstEntryWins(entries[..n], k);
    } else if entries[n].0 in FirstPositions(entries[..n]) {
      HeldIsListed(entries[..n], entries[n].0);
    }
  }

  lemma {:induction false} ConfirmedTells(tracks: seq<TrackFact>, e: (nat, Vec3))
    ensures e in ConfirmedPositions(tracks) <==>
            exists t :: t in tracks && t.status == Confirmed && e == (t.trackId, t.position)
  {
    if tracks != [] {
      var n := |tracks| - 1;
      assert tracks == tracks[..n] + [tracks[n]];
      ConfirmedTells(tracks[..n], e);
    }
  }

  lemma {:induction false} NoTwin(tracks: seq<TrackFact>, j: nat, k: nat)
    requires DistinctTracks(tracks)
    requires j < |ConfirmedPositions(tracks)| && k < |ConfirmedPositions(tracks)|
    requires ConfirmedPositions(tracks)[j].0 == ConfirmedPositions(tracks)[k].0
    ensures j == k
  {
    var n := |tracks| - 1;
    var few := ConfirmedPositions(tracks[..n]);
    if j < |few| && k < |few| {
      NoTwin(tracks[..n], j, k);
    } else if j < |few| {
      TwinIsEarlier(tracks, few[j]);
    } else if k < |few| {
      TwinIsEarlier(tracks, few[k]);
    }
  }

  lemma {:induction false} TwinIsEarlier(tracks: seq<TrackFact>, e: (nat, Vec3))
    requires DistinctTracks(tracks) && tracks != []
    requires e in ConfirmedPositions(tracks[..|tracks|-1])
    ensures e.0 != tracks[|tracks|-1].trackId
  {
    var few := tracks[..|tracks|-1];
    ConfirmedTells(few, e);
    var t :| t in few && e == (t.trackId, t.position);
    var i :| 0 <= i < |few| && few[i] == t;
    assert tracks[i] == t;
  }

  /** Both tables hold exactly the confirmed tracks, each at its position. */
  lemma {:induction false} TablesTell(tracks: seq<TrackFact>, id: nat)
    requires DistinctTracks(tracks)
    ensures var held, tested := PositionsOf(ConfirmedPositions(tracks)), FirstPositions(ConfirmedPositions(tracks));
            && (id in held <==> exists t :: t in tracks && t.trackId == id && t.status == Confirmed)
            && (id in tested <==> exists t :: t in tracks && t.trackId == id && t.status == Confirmed)
            && (forall t | t in tracks && t.trackId == id && t.status == Confirmed ::
                  held[id] == t.position && tested[id] == t.position)
  {
    var entries := ConfirmedPositions(tracks);
    hide ConfirmedPositions, PositionsOf, FirstPositions;
    forall t | t in tracks && t.trackId == id && t.status == Confirmed
      ensures id in PositionsOf(entries) && PositionsOf(entries)[id] == t.position
      ensures id in FirstPositions(entries) && FirstPositions(entries)[id] == t.position
    {
      ConfirmedTells(tracks, (t.trackId, t.position));
      var k :| 0 <= k < |entries| && entries[k] == (t.trackId, t.position);
      forall j | 0 <= j < |entries| && entries[j].0 == entries[k].0 ensures j == k {
        NoTwin(tracks, j, k);
      }
      LastEntryWins(entries, k);
      FirstEntryWins(entries, k);
    }
    if id in PositionsOf(entries) || id in FirstPositions(entries) {
      HeldIsListed(entries, id);
      var e :| e in entries && e.0 == id;
      ConfirmedTells(tracks, e);
    }
  }

  // ---------------------------------------------------------------- hits

  /** The interceptor is engaged on a confirmed track and less than 5 metres from it. */
  ghost predicate IsOnTarget(tracks: seq<TrackFact>, s: InterceptorState) {
    s.engaged && exists t, d :: t in tracks && t.trackId == s.targetId && t.status == Confirmed
                                && Apart(s.position, t.position, d) && d < 5.0
  }

  lemma {:induction false} HitsMeans(sqrt: real -> real, tracks: seq<TrackFact>, s: InterceptorState)
    requires IsSqrt(sqrt) && DistinctTracks(tracks)
    ensures Hits(sqrt, FirstPositions(ConfirmedPositions(tracks)), s) <==> IsOnTarget(tracks, s)
  {
    TablesTell(tracks, s.targetId);
    var tested := FirstPositions(ConfirmedPositions(tracks));
    hide ConfirmedPositions, FirstPositions, Distance, Apart;
    if s.engaged && s.targetId in tested {
      var t :| t in tracks && t.trackId == s.targetId && t.status == Confirmed;
      var d := Distance(sqrt, s.position, t.position);
      DistanceIs(sqrt, s.position, t.position, d);
      forall u, e | u in tracks && u.trackId == s.targetId && u.status == Confirmed && Apart(s.position, u.position, e)
        ensures e == d
      {
        DistanceIs(sqrt, s.position, u.position, e);
      }
    }
  }

  /** The hits found are exactly those interceptors, each with its target. */
  lemma {:induction false} HitsTell(sqrt: real -> real, tracks: seq<TrackFact>, states: seq<InterceptorState>,
                                    hit: (nat, nat))
    requires IsSqrt(sqrt) && DistinctTracks(tracks)
    ensures hit in HitsAmong(sqrt, FirstPositions(ConfirmedPositions(tracks)), states) <==>
            exists s :: s in states && IsOnTarget(tracks, s) && hit == (s.interceptorId, s.targetId)
  {
    hide IsOnTarget, Hits, ConfirmedPositions, FirstPositions;
    if states != [] {
      var n := |states| - 1;
      assert states == states[..n] + [states[n]];
      HitsTell(sqrt, tracks, states[..n], hit);
      HitsMeans(sqrt, tracks, states[n]);
    }
  }

  /** A report of hits releases exactly the interceptors still engaged on the track reported for them. */
  lemma {:induction false} HandledExactly(fleet: Fleet, hits: seq<(nat, nat)>, k: nat)
    requires IsFleet(fleet) && DistinctStates(fleet.states) && k < |fleet.states|
    ensures var s, r := fleet.states[k], HandleAll(fleet, hits).states[k];
            if s.engaged && (s.interceptorId, s.targetId) in hits then
              !r.engaged && r.targetId == 0 && r.engagementTime == 0.0 && r.position == s.position
              && r.velocity == s.velocity
            else r == s
  {
    if hits != [] {
      var n := |hits| - 1;
      assert hits == hits[..n] + [hits[n]];
      HandledExactly(fleet, hits[..n], k);
      var before := HandleAll(fleet, hits[..n]);
      var id := hits[n].0;
      if id in before.index {
        var i := before.index[id];
        assert before.states[i].interceptorId == id;
        OnlyOne(fleet.states, i, k);
      }
      assert before.states[k].interceptorId in before.index;
    }
  }

  lemma {:induction false} OnlyOne(states: seq<InterceptorState>, i: nat, k: nat)
    requires DistinctStates(states) && i < |states| && k < |states|
    ensures states[i].interceptorId == states[k].interceptorId <==> i == k
  {
  }

  // ---------------------------------------------------------------- orders

  /** An interceptor no order names is left alone. */
  lemma {:induction false} NotOrdered(fleet: Fleet, positions: Positions, orders: seq<(nat, nat)>, k: nat)
    requires IsFleet(fleet) && k < |fleet.states|
    requires forall o | o in orders :: o.0 != fleet.states[k].interceptorId
    ensures AssignAll(fleet, positions, orders).states[k] == fleet.states[k]
  {
    if orders != [] {
      var n := |orders| - 1;
      assert orders[n] in orders;
      NotOrdered(fleet, positions, orders[..n], k);
      var before := AssignAll(fleet, positions, orders[..n]);
      if orders[n].0 in before.index {
        assert before.states[before.index[orders[n].0]].interceptorId == orders[n].0;
      }
    }
  }

  /** s sent after a track at q: the clock runs on only for the target it already has. */
  ghost predicate SentAfter(s: InterceptorState, target: nat, q: Vec3, r: InterceptorState) {
    && r.interceptorId == s.interceptorId && r.engaged && r.targetId == target && r.assignedTargetPosition == q
    && r.engagementTime == (if s.targetId == target then s.engagementTime else 0.0)
    && r.position == s.position && r.velocity == s.velocity
  }

  /** An order that alone names an interceptor sends it after its track. */
  lemma {:induction false} Ordered(fleet: Fleet, positions: Positions, orders: seq<(nat, nat)>, k: nat, m: nat)
    requires IsFleet(fleet) && DistinctStates(fleet.states) && k < |fleet.states| && m < |orders|
    requires orders[m].0 == fleet.states[k].interceptorId && orders[m].1 in positions
    requires forall j | 0 <= j < |orders| && orders[j].0 == orders[m].0 :: j == m
    ensures SentAfter(fleet.states[k], orders[m].1, positions[orders[m].1],
                      AssignAll(fleet, positions, orders).states[k])
  {
    var n := |orders| - 1;
    var before := AssignAll(fleet, positions, orders[..n]);
    if m < n {
      Ordered(fleet, positions, orders[..n], k, m);
      if orders[n].0 in before.index {
        assert before.states[before.index[orders[n].0]].interceptorId == orders[n].0;
      }
    } else {
      NotOrdered(fleet, positions, orders[..n], k);
      assert before.states[k].interceptorId in before.index;
      OnlyOne(before.states, before.index[orders[n].0], k);
    }
  }

  /** No tick commands an interceptor twice. */
  lemma {:induction false} CommandedOnce(cfg: Config, mem: Memory, snap: Snapshot, j: nat, k: nat)
    requires WellFormed(snap)
    requires j < |Tick(cfg, mem, snap).result.commands| && k < |Tick(cfg, mem, snap).result.commands|
    requires Tick(cfg, mem, snap).result.commands[j].interceptorId ==
             Tick(cfg, mem, snap).result.commands[k].interceptorId
    ensures j == k
  {
    TickCommands(cfg, mem, snap);
    IdleIsDistinct(snap.interceptors);
    AllocateShape(SceneOf(cfg, mem, snap), IdleOnes(snap.interceptors), Kept(cfg, mem, snap));
    hide Tick, Allocate, ChosenSwap, Kept, IdleOnes;
  }

  ghost predicate IsNamed(cmds: seq<Command>, id: nat) {
    exists c :: c in cmds && c.interceptorId == id
  }

  /** After the commands s is after this target, with this clock. */
  ghost predicate IsAfter(cmds: seq<Command>, s: InterceptorState, target: nat, clock: real) {
    if IsNamed(cmds, s.interceptorId) then
      && (exists c :: c in cmds && c.interceptorId == s.interceptorId && c.trackId == target)
      && clock == if s.targetId == target then s.engagementTime else 0.0
    else s.engaged && target == s.targetId && clock == s.engagementTime
  }

  /** Commands that can be carried out: nobody is named twice, and every track's position is known. */
  ghost predicate AreClear(cmds: seq<Command>, positions: Positions) {
    && (forall j, k | 0 <= j < |cmds| && 0 <= k < |cmds| && cmds[j].interceptorId == cmds[k].interceptorId :: j == k)
    && (forall k | 0 <= k < |cmds| :: cmds[k].trackId in positions)
  }

  /** What commands leave of interceptor k when it is after a target. */
  lemma {:induction false} OrdersTell(fleet: Fleet, positions: Positions, cmds: seq<Command>, k: nat, target: nat,
                                      clock: real)
    requires IsFleet(fleet) && DistinctStates(fleet.states) && AreClear(cmds, positions) && k < |fleet.states|
    requires IsAfter(cmds, fleet.states[k], target, clock)
    ensures var s, a := fleet.states[k], AssignAll(fleet, positions, Orders(cmds)).states[k];
            && a.interceptorId == s.interceptorId && a.position == s.position && a.velocity == s.velocity
            && a.engaged && a.targetId == target && a.engagementTime == clock
  {
    var s, orders := fleet.states[k], Orders(cmds);
    hide AssignAll, IsFleet, DistinctStates;
    if IsNamed(cmds, s.interceptorId) {
      var c :| c in cmds && c.interceptorId == s.interceptorId && c.trackId == target;
      var m :| 0 <= m < |cmds| && cmds[m] == c;
      assert cmds[m].trackId in positions;
      Ordered(fleet, positions, orders, k, m);
    } else {
      NobodysOrder(fleet, positions, cmds, k);
    }
  }

  lemma {:induction false} NobodysOrder(fleet: Fleet, positions: Positions, cmds: seq<Command>, k: nat)
    requires IsFleet(fleet) && k < |fleet.states| && !IsNamed(cmds, fleet.states[k].interceptorId)
    ensures AssignAll(fleet, positions, Orders(cmds)).states[k] == fleet.states[k]
  {
    var orders := Orders(cmds);
    hide AssignAll, IsFleet;
    forall o | o in orders ensures o.0 != fleet.states[k].interceptorId {
      var m :| 0 <= m < |orders| && orders[m] == o;
      assert cmds[m] in cmds;
    }
    NotOrdered(fleet, positions, orders, k);
  }

  // ---------------------------------------------------------------- one interceptor through one turn

  lemma {:induction false} CommandsAreClear(cfg: Config, w: World, input: Input)
    requires IsSound(w) && IsInput(w, input)
    ensures AreClear(Decided(cfg, w, input).result.commands, PositionsIn(input))
  {
    OrdersHavePositions(cfg, w, input);
    SnapshotIsWellFormed(cfg, w, input);
    var snap := SnapshotOf(cfg, w, input);
    hide Tick, SnapshotOf, WellFormed, IsSound, IsInput, PositionsIn, IsLive;
    var cmds := Decided(cfg, w, input).result.commands;
    forall k | 0 <= k < |cmds| ensures cmds[k].trackId in PositionsIn(input) {
      assert Orders(cmds)[k] in Orders(cmds);
    }
    forall j, k | 0 <= j < |cmds| && 0 <= k < |cmds| && cmds[j].interceptorId == cmds[k].interceptorId ensures j == k {
      CommandedOnce(cfg, w.memory, snap, j, k);
    }
  }

  /** The hits of a turn are the ones the code finds. */
  ghost predicate FindsHits(cfg: Config, w: World, input: Input)
    requires IsFleet(w.fleet) && |input.speeds| == |w.fleet.states|
  {
    input.hits == HitsAmong(cfg.sqrt, FirstPositions(ConfirmedPositions(input.tracks)),
                            SteppedFleet(cfg, input, AssignedFleet(cfg, w, input)).states)
  }

  /** The track is in sight: confirmed, and 5 metres or more from p. */
  ghost predicate StillOpen(tracks: seq<TrackFact>, target: nat, p: Vec3) {
    exists t :: && t in tracks && t.trackId == target && t.status == Confirmed
                && forall d | Apart(p, t.position, d) :: d >= 5.0
  }

  ghost function StepOf(input: Input): real {
    if input.dt > 0.0 then input.dt else 0.0
  }

  /** Flying and reporting the hits: what is left of an engaged interceptor. */
  lemma {:induction false} FlightAndHits(cfg: Config, input: Input, fleet: Fleet, k: nat)
    requires IsSqrt(cfg.sqrt) && IsFleet(fleet) && DistinctStates(fleet.states) && DistinctTracks(input.tracks)
    requires |input.speeds| == |fleet.states| && k < |fleet.states| && fleet.states[k].engaged
    requires input.hits == HitsAmong(cfg.sqrt, FirstPositions(ConfirmedPositions(input.tracks)),
                                     SteppedFleet(cfg, input, fleet).states)
    requires IsFleet(SteppedFleet(cfg, input, fleet))
    ensures var a, r := fleet.states[k], HandleAll(SteppedFleet(cfg, input, fleet), input.hits).states[k];
            && (r.engaged <==> a.engagementTime + StepOf(input) <= input.timeout
                               && StillOpen(input.tracks, a.targetId, r.position))
            && (r.engaged ==> r.targetId == a.targetId && r.engagementTime == a.engagementTime + StepOf(input))
            && r.position == StepOne(cfg.sqrt, input.speeds[k], input.timeout, PositionsIn(input), a, input.dt).position
  {
    var stepped, a := SteppedFleet(cfg, input, fleet), fleet.states[k];
    var b := stepped.states[k];
    hide HandleAll, HitsAmong, FirstPositions, ConfirmedPositions, PositionsOf, IsFleet, DistinctTracks, IsSqrt;
    hide SteppedFleet, Apart, StepOne, StillOpen, IsOnTarget;
    SteppedTells(cfg, input, fleet, k);
    SteppedAreDistinct(cfg, input, fleet);
    HandledExactly(stepped, input.hits, k);
    if b.engaged {
      FoundIsOnTarget(cfg.sqrt, input.tracks, stepped.states, k);
      OnTargetOrOpen(cfg, input.tracks, b);
    }
  }

  lemma {:induction false} SteppedAreDistinct(cfg: Config, input: Input, fleet: Fleet)
    requires DistinctStates(fleet.states) && |input.speeds| == |fleet.states|
    ensures DistinctStates(SteppedFleet(cfg, input, fleet).states)
  {
    var r := SteppedFleet(cfg, input, fleet).states;
    hide SteppedFleet, PositionsIn;
    forall k | 0 <= k < |r| ensures r[k].interceptorId == fleet.states[k].interceptorId {
      StepOneEngagement(cfg.sqrt, input.speeds[k], input.timeout, PositionsIn(input), fleet.states[k], input.dt);
    }
  }

  lemma {:induction false} SteppedTells(cfg: Config, input: Input, fleet: Fleet, k: nat)
    requires |input.speeds| == |fleet.states| && k < |fleet.states| && fleet.states[k].engaged
    requires DistinctTracks(input.tracks)
    ensures var a, b := fleet.states[k], SteppedFleet(cfg, input, fleet).states[k];
            && b.interceptorId == a.interceptorId
            && (b.engaged <==>
                  a.engagementTime + StepOf(input) <= input.timeout && IsConfirmed(input.tracks, a.targetId))
            && (b.engaged ==> b.targetId == a.targetId && b.engagementTime == a.engagementTime + StepOf(input))
  {
    var a, held := fleet.states[k], PositionsIn(input);
    TablesTell(input.tracks, a.targetId);
    hide SteppedFleet, PositionsIn, Flown;
    StepOneEngagement(cfg.sqrt, input.speeds[k], input.timeout, held, a, input.dt);
    FlightLaws.StepEndsExactly(cfg.sqrt, input.speeds[k], input.timeout, held, a, input.dt);
    if a.targetId in held {
      FlightLaws.FlownKeeps(cfg.sqrt, input.speeds[k], Tasked(a, a.targetId, held[a.targetId]), input.dt);
    }
  }

  ghost predicate IsConfirmed(tracks: seq<TrackFact>, id: nat) {
    exists t :: t in tracks && t.trackId == id && t.status == Confirmed
  }

  lemma {:induction false} FoundIsOnTarget(sqrt: real -> real, tracks: seq<TrackFact>, states: seq<InterceptorState>,
                                           k: nat)
    requires IsSqrt(sqrt) && DistinctTracks(tracks) && DistinctStates(states) && k < |states| && states[k].engaged
    ensures var hits := HitsAmong(sqrt, FirstPositions(ConfirmedPositions(tracks)), states);
            (states[k].interceptorId, states[k].targetId) in hits <==> IsOnTarget(tracks, states[k])
  {
    hide IsOnTarget, HitsAmong, FirstPositions, ConfirmedPositions, DistinctTracks, IsSqrt;
    var hit := (states[k].interceptorId, states[k].targetId);
    HitsTell(sqrt, tracks, states, hit);
    if s :| s in states && IsOnTarget(tracks, s) && hit == (s.interceptorId, s.targetId) {
      var j :| 0 <= j < |states| && states[j] == s;
      OnlyOne(states, j, k);
    }
  }

  lemma {:induction false} OnTargetOrOpen(cfg: Config, tracks: seq<TrackFact>, s: InterceptorState)
    requires IsSqrt(cfg.sqrt) && DistinctTracks(tracks) && s.engaged && IsConfirmed(tracks, s.targetId)
    ensures IsOnTarget(tracks, s) <==> !StillOpen(tracks, s.targetId, s.position)
  {
    hide Apart, IsSqrt;
    var t :| t in tracks && t.trackId == s.targetId && t.status == Confirmed;
    forall u | u in tracks && u.trackId == s.targetId ensures u == t {
      SameTrack(tracks, u, t);
    }
    var r := Distance(cfg.sqrt, s.position, t.position);
    DistanceIs(cfg.sqrt, s.position, t.position, r);
    forall d | Apart(s.position, t.position, d) ensures d == r {
      DistanceIs(cfg.sqrt, s.position, t.position, d);
    }
  }

  /** An interceptor after a target stays engaged through the turn exactly when its clock stays within the timeout, and
      the track is confirmed and 5 metres or more away when it has flown. */
  lemma {:induction false} EngagedAfterTurn(cfg: Config, w: World, input: Input, k: nat, target: nat, clock: real)
    requires IsSqrt(cfg.sqrt) && IsSound(w) && IsInput(w, input) && k < |w.fleet.states| && FindsHits(cfg, w, input)
    requires IsAfter(Decided(cfg, w, input).result.commands, w.fleet.states[k], target, clock)
    ensures var r := Round(cfg, w, input).fleet.states[k];
            && (r.engaged <==> clock + StepOf(input) <= input.timeout && StillOpen(input.tracks, target, r.position))
            && (r.engaged ==> r.targetId == target && r.engagementTime == clock + StepOf(input))
  {
    CommandsAreClear(cfg, w, input);
    hide Decided, SnapshotOf, HandleAll, SteppedFleet, HitsAmong, FirstPositions, ConfirmedPositions, PositionsIn,
      IsAfter;
    hide DistinctTracks, IsSqrt, StillOpen, AreClear, IsFleet;
    var fleet := AssignedFleet(cfg, w, input);
    OrdersTell(w.fleet, PositionsIn(input), Decided(cfg, w, input).result.commands, k, target, clock);
    SteppedIsFleet(cfg, input, fleet);
    FlightAndHits(cfg, input, fleet, k);
  }

  /** The turn flies the interceptor from where it is. */
  lemma {:induction false} TurnFlies(cfg: Config, w: World, input: Input, k: nat, target: nat, clock: real)
    returns (a: InterceptorState)
    requires IsSqrt(cfg.sqrt) && IsSound(w) && IsInput(w, input) && k < |w.fleet.states| && FindsHits(cfg, w, input)
    requires IsAfter(Decided(cfg, w, input).result.commands, w.fleet.states[k], target, clock)
    ensures a.engaged && a.targetId == target && a.engagementTime == clock
    ensures a.position == w.fleet.states[k].position && a.velocity == w.fleet.states[k].velocity
    ensures Round(cfg, w, input).fleet.states[k].position ==
            StepOne(cfg.sqrt, input.speeds[k], input.timeout, PositionsIn(input), a, input.dt).position
  {
    CommandsAreClear(cfg, w, input);
    hide Decided, SnapshotOf, HandleAll, SteppedFleet, HitsAmong, FirstPositions, ConfirmedPositions, PositionsIn,
      IsAfter;
    hide DistinctTracks, IsSqrt, StillOpen, AreClear, IsFleet, StepOne;
    var fleet := AssignedFleet(cfg, w, input);
    OrdersTell(w.fleet, PositionsIn(input), Decided(cfg, w, input).result.commands, k, target, clock);
    SteppedIsFleet(cfg, input, fleet);
    FlightAndHits(cfg, input, fleet, k);
    a := fleet.states[k];
  }

  /** One at rest, or flying straight at its confirmed track, is closer by dt times its new speed after the turn. */
  lemma {:induction false} TurnClosesIn(cfg: Config, w: World, input: Input, k: nat, target: nat, clock: real,
                                        t: TrackFact, d: real, a: real, e: real)
    requires IsSqrt(cfg.sqrt) && IsSound(w) && IsInput(w, input) && k < |w.fleet.states| && FindsHits(cfg, w, input)
    requires IsAfter(Decided(cfg, w, input).result.commands, w.fleet.states[k], target, clock)
    requires t in input.tracks && t.trackId == target && t.status == Confirmed
    requires input.dt > 0.0 && input.speeds[k] > 0.0
    requires Apart(w.fleet.states[k].position, t.position, d) && d >= NEGLIGIBLE_DISTANCE
    requires 0.0 <= a <= input.speeds[k]
    requires FlightLaws.Along(w.fleet.states[k].position, t.position, d, a, w.fleet.states[k].velocity)
    requires e == d - FlightLaws.SpeedUp(input.speeds[k], input.dt, a) * input.dt && e >= 0.0
    ensures e < d && Apart(Round(cfg, w, input).fleet.states[k].position, t.position, e)
  {
    hide Round, Decided, ConfirmedPositions, PositionsOf, FirstPositions, FindsHits, IsFleet;
    hide DistinctTracks, IsSqrt, StepOne, IsAfter, Apart, FlightLaws.Along, FlightLaws.SpeedUp;
    assert target in PositionsIn(input) && PositionsIn(input)[target] == t.position by {
      TablesTell(input.tracks, target);
    }
    hide PositionsIn, IsSound, IsInput;
    var after := TurnFlies(cfg, w, input, k, target, clock);
    FlightLaws.PursuitClosesIn(cfg.sqrt, input.speeds[k], input.timeout, PositionsIn(input), after, input.dt, d, a, e);
  }

  /** An idle interceptor nobody commands is left as it is. */
  lemma {:induction false} IdleAfterTurn(cfg: Config, w: World, input: Input, k: nat)
    requires IsSound(w) && IsInput(w, input) && k < |w.fleet.states| && !w.fleet.states[k].engaged
    requires !IsNamed(Decided(cfg, w, input).result.commands, w.fleet.states[k].interceptorId)
    ensures Round(cfg, w, input).fleet.states[k] == w.fleet.states[k]
  {
    hide Decided, SnapshotOf, HitsAmong, ConfirmedPositions, PositionsIn, IsNamed, DistinctTracks, IsFleet;
    NobodysOrder(w.fleet, PositionsIn(input), Decided(cfg, w, input).result.commands, k);
  }

  // ---------------------------------------------------------------- the start

  /** Every configuration gives one interceptor: idle at its start, at rest, with its own speed. */
  lemma {:induction false} ConfigTells(configs: seq<InterceptorConfig>, c: InterceptorConfig)
    requires c in configs
    ensures var fleet, speeds := InitialFleet(Sort(ById, configs)), SpeedsOf(Sort(ById, configs));
            && |fleet.states| == |speeds| == |configs|
            && exists k :: 0 <= k < |fleet.states| && StartsAs(c, fleet.states[k]) && speeds[k] == c.maxSpeed
  {
    hide Sort, InitialFleet, IsFleet;
    var sorted := Sort(ById, configs);
    InitialStates(sorted);
    SortKeepsElements(ById, configs);
    SameElements(sorted, configs, c);
    var k :| 0 <= k < |sorted| && sorted[k] == c;
    assert StartsAs(c, InitialFleet(sorted).states[k]);
    assert multiset(sorted) == multiset(configs) && |multiset(sorted)| == |sorted|;
  }

  ghost predicate StartsAs(c: InterceptorConfig, s: InterceptorState) {
    && s.interceptorId == c.interceptorId && s.position == c.start && s.velocity == Vec3(0.0, 0.0, 0.0)
    && !s.engaged && s.targetId == 0 && s.engagementTime == 0.0
  }
}
