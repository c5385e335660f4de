/** The fallback behaviour tree and the whole tick, on values
    (src/decision/selector.h, sequence.h, mission_behavior_tree.cpp:137-959). */
module MissionTick {
  import opened Basics
  import opened Mission

  // ---------------------------------------------------------------- behaviour trees

  datatype Status = Success | Failure | Running

  datatype LeafName =
    | TargetReady | DenialCooldown | ConfidenceAllowed | SystemHealth | RangeAllowed | StabilityGate
    | ActiveEngagementExists | MaintainEngagement
    | InterceptorAvailable | AssignInterceptor | UpdateEngagementState
    | TrackExists | KeepTracking
    | ScanWait

  datatype Node = Leaf(name: LeafName) | Sequence(children: seq<Node>) | Selector(children: seq<Node>)

  /** What the leaves read and do not write. */
  datatype Env = Env(sc: Scene, stableTrackId: nat, consecutiveTrackTicks: nat)

  /** What the leaves write. */
  datatype TreeState = TreeState(
    engageTarget: Option<TrackFact>,
    trackingTarget: Option<TrackFact>,
    interceptor: Option<InterceptorFact>,
    mode: MissionMode,
    event: Event,
    commands: seq<Command>,
    denied: bool,
    actives: seq<Active>,
    board: Board)

  function Denied(st: TreeState, target: TrackFact, reason: Reason): TreeState {
    st.(denied := true, event := Event(target.trackId, DeniedEvent, reason))
  }

  function StatusOf(ok: bool): Status {
    if ok then Success else Failure
  }

  function RunTargetReady(env: Env, st: TreeState): (Status, TreeState) {
    var target := HighestPriority(env.sc.snap.tracks, true);
    (StatusOf(target.Some? && target.value.score > env.sc.cfg.engageScoreThreshold), st.(engageTarget := target))
  }

  /** The leaves that test the engagement target. Without a target they fail. */
  function RunGate(env: Env, name: LeafName, st: TreeState): (Status, TreeState) {
    var sc := env.sc;
    if name == SystemHealth then
      if !HasStaleSensor(sc.snap.sensorHealth) then (Success, st)
      else if st.engageTarget.Some? then (Failure, Denied(st, st.engageTarget.value, SensorHealthDegraded))
      else (Failure, st.(denied := true))
    else if st.engageTarget.None? then (Failure, st)
    else
      var t := st.engageTarget.value;
      match name
      case DenialCooldown =>
        if CoolingDown(sc, t.trackId) then
           (Failure, st.(denied := true, event := Event(t.trackId, TrackEvent, EngageCooldown)))
        else (Success, st)
      case ConfidenceAllowed =>
        if t.confidence < sc.cfg.minConfidence then (Failure, Denied(st, t, LowConfidence)) else (Success, st)
      case RangeAllowed =>
        var range := Distance(sc.cfg.sqrt, t.position, ORIGIN);
        if range < sc.cfg.noEngageRadius then (Failure, Denied(st, t, InsideNoEngageZone))
        else if range > sc.cfg.maxEngagementRange then (Failure, Denied(st, t, OutsideMaxRange))
        else (Success, st)
      case _ =>
        (StatusOf(env.stableTrackId == t.trackId && env.consecutiveTrackTicks >= sc.cfg.stableTicks), st)
  }

  function RunInterceptorAvailable(env: Env, st: TreeState): (Status, TreeState) {
    var interceptor := AvailableInterceptor(env.sc.snap.interceptors);
    var chosen := st.(interceptor := interceptor);
    if interceptor.Some? then (Success, chosen)
    else if st.engageTarget.Some? then (Failure, Denied(chosen, st.engageTarget.value, InterceptorUnavailable))
    else (Failure, chosen.(denied := true))
  }

  function RunAssignInterceptor(env: Env, st: TreeState): (Status, TreeState) {
    if st.engageTarget.None? || st.interceptor.None? then (Failure, st)
    else
      var t, i := st.engageTarget.value, st.interceptor.value;
      var actives := Refreshed(st.actives, t.trackId, i.interceptorId, env.sc.snap.time);
      var k := ActiveIndex(actives, t.trackId);
      (Success, st.(
        commands := st.commands + [Command(i.interceptorId, t.trackId, t.position, TreeAssignment)],
        actives := if k < |actives| then actives[k := actives[k].(lastCommandTime := env.sc.snap.time)] else actives,
        mode := EngageMode,
        event := Event(t.trackId, EngageEvent, EngageStart)))
  }

  function RunMaintainTracking(env: Env, st: TreeState): (Status, TreeState) {
    if st.trackingTarget.None? then (Failure, st)
    else
      var t := st.trackingTarget.value;
      var event :=
        if st.denied then st.event
        else if t.status == Tentative then Event(t.trackId, AcquireEvent, TentativeWait)
        else if t.score <= env.sc.cfg.engageScoreThreshold then Event(t.trackId, IdleEvent, ScoreBelowThreshold)
        else Event(t.trackId, TrackEvent, MaintainTracking);
      (Success, st.(mode := TrackMode, event := event, board := st.board.(mode := TrackMode)))
  }

  function RunLeaf(env: Env, name: LeafName, st: TreeState): (Status, TreeState) {
    match name
    case TargetReady => RunTargetReady(env, st)
    case DenialCooldown => RunGate(env, name, st)
    case ConfidenceAllowed => RunGate(env, name, st)
    case SystemHealth => RunGate(env, name, st)
    case RangeAllowed => RunGate(env, name, st)
    case StabilityGate => RunGate(env, name, st)
    case ActiveEngagementExists =>
      (StatusOf(st.engageTarget.Some? && HasEngagementOn(env.sc.snap.interceptors, st.engageTarget.value.trackId)), st)
    case MaintainEngagement =>
      if st.engageTarget.None? then (Failure, st)
      else (Success, st.(mode := EngageMode,
                         event := Event(st.engageTarget.value.trackId, EngageEvent, EngagementActive),
                         board := st.board.(mode := EngageMode)))
    case InterceptorAvailable => RunInterceptorAvailable(env, st)
    case AssignInterceptor => RunAssignInterceptor(env, st)
    case UpdateEngagementState =>
      if st.engageTarget.None? || st.interceptor.None? then (Failure, st)
      else (Success, st.(board := Board(Engagement(true, st.interceptor.value.interceptorId,
                                                   st.engageTarget.value.trackId), EngageMode)))
    case TrackExists =>
      var target := HighestPriority(env.sc.snap.tracks, false);
      (StatusOf(target.Some?), st.(trackingTarget := target))
    case KeepTracking => RunMaintainTracking(env, st)
    case ScanWait =>
      var scanned := if st.denied then st else st.(mode := SearchMode, event := SEARCHING);
      (Success, scanned.(board := scanned.board.(mode := scanned.mode)))
  }

  function TickNode(env: Env, node: Node, st: TreeState): (Status, TreeState)
    decreases node, 0
  {
    match node
    case Leaf(name) => RunLeaf(env, name, st)
    case Sequence(children) => TickSequence(env, children, st)
    case Selector(children) => TickSelector(env, children, st)
  }

  /** Runs the children until one does not succeed. */
  function TickSequence(env: Env, children: seq<Node>, st: TreeState): (Status, TreeState)
    decreases children, 1
  {
    if children == [] then (Success, st)
    else
      var (s, next) := TickNode(env, children[0], st);
      if s != Success then (s, next) else TickSequence(env, children[1..], next)
  }

  /** Runs the children until one does not fail. */
  function TickSelector(env: Env, children: seq<Node>, st: TreeState): (Status, TreeState)
    decreases children, 1
  {
    if children == [] then (Failure, st)
    else
      var (s, next) := TickNode(env, children[0], st);
      if s != Failure then (s, next) else TickSelector(env, children[1..], next)
  }

  function Leaves(names: seq<LeafName>): seq<Node> {
    seq(|names|, i requires 0 <= i < |names| => Leaf(names[i]))
  }

  const MAINTAIN_SEQUENCE := Sequence([Leaf(ActiveEngagementExists), Leaf(MaintainEngagement)])

  const ASSIGN_SEQUENCE := Sequence([Leaf(InterceptorAvailable), Leaf(AssignInterceptor), Leaf(UpdateEngagementState)])

  const ENGAGE_CONTROL := Selector([MAINTAIN_SEQUENCE, ASSIGN_SEQUENCE])

  const GATES := [TargetReady, DenialCooldown, ConfidenceAllowed, SystemHealth, RangeAllowed, StabilityGate]

  const ENGAGE_SEQUENCE := Sequence(Leaves(GATES) + [ENGAGE_CONTROL])

  const TRACK_SEQUENCE := Sequence([Leaf(TrackExists), Leaf(KeepTracking)])

  const SEARCH_SEQUENCE := Sequence([Leaf(ScanWait)])

  const ROOT := Selector([ENGAGE_SEQUENCE, TRACK_SEQUENCE, SEARCH_SEQUENCE])

  // ---------------------------------------------------------------- the tick

  datatype Result = Result(
    tick: nat,
    time: real,
    mode: MissionMode,
    event: Event,
    activeCount: nat,
    idleCount: nat,
    removals: nat,
    activeAfterReconcile: nat,
    selectedTrackId: nat,
    selectedInterceptorId: nat,
    selectedScore: real,
    assignmentReason: Option<CommandReason>,
    commands: seq<Command>)

  datatype Outcome = Outcome(memory: Memory, result: Result, board: Board)

  function SceneOf(cfg: Config, mem: Memory, snap: Snapshot): Scene {
    Scene(cfg, snap, NextStables(mem.stables, snap.tracks), mem.lastDeniedTrackId, mem.denialCooldownUntil)
  }

  /** The memory once reconciliation and stability counting are done. */
  function Prepared(cfg: Config, mem: Memory, snap: Snapshot): Memory {
    var stables := NextStables(mem.stables, snap.tracks);
    var best := HighestPriority(snap.tracks, true);
    mem.(actives := Reconciled(snap, Merged(mem.actives, snap)),
         stables := stables,
         stableTrackId := if best.Some? then best.value.trackId else 0,
         consecutiveTrackTicks := if best.Some? then StableTicksFor(stables, best.value.trackId) else 0)
  }

  /** The result as it stands before any decision. */
  function Blank(snap: Snapshot, mem: Memory, merged: nat, idle: nat, event: Event): Result
    requires |mem.actives| <= merged
  {
    Result(snap.tick, snap.time, SearchMode, event, 0, idle, merged - |mem.actives|, |mem.actives|, 0, 0, 0.0, None, [])
  }

  function Finalized(mem: Memory, result: Result, board: Board, mode: MissionMode): Outcome {
    Outcome(mem.(lastMode := mode), result.(mode := mode, activeCount := |mem.actives|), board)
  }

  /** The outcome when idle interceptors were sent out. */
  function AssignedOutcome(mem: Memory, blank: Result, board: Board, before: nat, alloc: Allocation): Outcome
    requires alloc.pairs != []
  {
    var first, last := alloc.pairs[0], alloc.pairs[|alloc.pairs|-1];
    var hadEngagement := before + |alloc.pairs| > 1;
    Finalized(
      mem.(actives := alloc.actives, consecutiveEngageTicks := mem.consecutiveEngageTicks + 1),
      blank.(
        event := Event(last.track.trackId, EngageEvent, if hadEngagement then IdleInterceptorEngage else EngageStart),
        idleCount := |alloc.idle|,
        selectedTrackId := first.track.trackId,
        selectedInterceptorId := first.interceptor.interceptorId,
        selectedScore := first.score,
        assignmentReason := Some(IdleAssignment),
        commands := CommandsOf(alloc.pairs)),
      Board(Engagement(true, last.interceptor.interceptorId, last.track.trackId), EngageMode),
      EngageMode)
  }

  /** The outcome when engagements are maintained and, with nobody idle, perhaps one is swapped. */
  function MaintainedOutcome(sc: Scene, mem: Memory, blank: Result, board: Board, idle: seq<InterceptorFact>): Outcome {
    var engaged := mem.(consecutiveEngageTicks := mem.consecutiveEngageTicks + 1);
    var scanned := if idle == [] then ScanSwaps(sc, mem.actives, |mem.actives|) else None;
    if idle == [] && ChosenSwap(sc, mem.actives).Some? then
      var s := ChosenSwap(sc, mem.actives).value;
      var id := mem.actives[s.active].interceptorId;
      Finalized(
        engaged.(actives := Swapped(mem.actives, s, sc.snap.time)),
        blank.(
          event := Event(s.track.trackId, EngageEvent, RetaskApproved),
          selectedTrackId := s.track.trackId,
          selectedInterceptorId := id,
          selectedScore := s.candidateScore,
          assignmentReason := Some(RetaskAssignment),
          commands := [Command(id, s.track.trackId, s.track.position, RetaskAssignment)]),
        Board(Engagement(true, id, s.track.trackId), EngageMode),
        EngageMode)
    else
      var event := if scanned.Some? then Event(scanned.value.track.trackId, blank.event.kind, RetaskDenied)
        else blank.event;
      Finalized(engaged, blank.(event := event), board.(mode := EngageMode), EngageMode)
  }

  function FallbackStart(mem: Memory, blank: Result, board: Board): TreeState {
    TreeState(None, None, None, SearchMode, blank.event, [], false, mem.actives, board)
  }

  /** The outcome the behaviour tree decides. */
  function FallbackOutcome(sc: Scene, mem: Memory, blank: Result, board: Board): Outcome {
    var (status, st) := TickNode(Env(sc, mem.stableTrackId, mem.consecutiveTrackTicks), ROOT,
                                 FallbackStart(mem, blank, board));
    var denied := mem.(actives := st.actives,
                       consecutiveEngageTicks := if st.mode != EngageMode then 0 else mem.consecutiveEngageTicks);
    var remembered :=
      if st.event.kind == DeniedEvent then
        denied.(lastDeniedTrackId := st.event.trackId, lastDenialReason := st.event.reason,
                denialCooldownUntil := sc.snap.time + MaxReal(0.0, sc.cfg.denialCooldown))
      else denied;
    Finalized(remembered, blank.(event := st.event, commands := st.commands), st.board, st.mode)
  }

  function Tick(cfg: Config, mem: Memory, snap: Snapshot): Outcome {
    var merged := Merged(mem.actives, snap);
    var prepared := Prepared(cfg, mem, snap);
    var sc := SceneOf(cfg, mem, snap);
    var kept := MaintainAll(cfg, snap, prepared.actives);
    var reconciledBoard := BoardAfterReconcile(snap, merged);
    var board := if kept.erased then reconciledBoard.(engagement := NO_ENGAGEMENT) else reconciledBoard;
    var idle := IdleOnes(snap.interceptors);
    var alloc := Allocate(sc, idle, kept.actives);
    var blank := Blank(snap, prepared, |merged|, |alloc.idle|, kept.event);
    var mem' := prepared.(actives := kept.actives);
    if alloc.pairs != [] then AssignedOutcome(mem', blank, board, |kept.actives|, alloc)
    else if kept.maintained then MaintainedOutcome(sc, mem', blank, board, idle)
    else FallbackOutcome(sc, mem', blank, board)
  }
}
