/** Why a tick engages nothing, told by the tracks and the configuration alone
    (src/decision/mission_behavior_tree.cpp:648-959). */
module RefusalLaws {
  import opened Basics
  import opened Mission
  import opened MissionTick
  import opened MissionLaws
  import opened EngagementRules
  import opened ScoreLaws

  // ---------------------------------------------------------------- the foremost track

  /** t comes first among the tracks that may be selected: highest priority, then lowest id. */
  ghost predicate IsForemost(tracks: seq<TrackFact>, t: TrackFact, confirmedOnly: bool) {
    && t in tracks && t.status != Deleted && (confirmedOnly ==> t.status == Confirmed)
    && (forall u | u in tracks && u.status != Deleted && (confirmedOnly ==> u.status == Confirmed) ::
          u.priority < t.priority || (u.priority == t.priority && t.trackId <= u.trackId))
  }

  lemma {:induction false} ForemostIsFound(tracks: seq<TrackFact>, t: TrackFact, confirmedOnly: bool)
    requires DistinctTracks(tracks) && IsForemost(tracks, t, confirmedOnly)
    ensures HighestPriority(tracks, confirmedOnly) == Some(t)
  {
    var r := HighestPriority(tracks, confirmedOnly);
    assert Selectable(t, confirmedOnly);
    SameTrack(tracks, t, if r.value.trackId == t.trackId then r.value else t);
  }

  // ---------------------------------------------------------------- the engage branch

  /** The first thing that keeps an interceptor from the foremost confirmed track, d metres from the origin and
      confirmed for `ticks` ticks: the kind and the reason of the event it records, or None when it records none. */
  ghost function Obstacle(sc: Scene, ticks: nat, t: TrackFact, d: real): Option<(EventKind, Reason)> {
    if t.score <= sc.cfg.engageScoreThreshold then None
    else if sc.lastDenied == t.trackId && sc.snap.time < sc.cooldownUntil then Some((TrackEvent, EngageCooldown))
    else if t.confidence < sc.cfg.minConfidence then Some((DeniedEvent, LowConfidence))
    else if exists h :: h in sc.snap.sensorHealth && (!h.active || h.stale) then
      Some((DeniedEvent, SensorHealthDegraded))
    else if d < sc.cfg.noEngageRadius then Some((DeniedEvent, InsideNoEngageZone))
    else if d > sc.cfg.maxEngagementRange then Some((DeniedEvent, OutsideMaxRange))
    else if ticks < sc.cfg.stableTicks then None
    else Some((DeniedEvent, InterceptorUnavailable))
  }

  /** What a failed branch leaves: the event recorded, or everything as it was. */
  ghost predicate Recorded(st: TreeState, t: TrackFact, o: Option<(EventKind, Reason)>, next: TreeState) {
    && next.mode == st.mode && next.board == st.board
    && match o
       case Some(e) => next.denied && next.event == Event(t.trackId, e.0, e.1)
       case None => next.denied == st.denied && next.event == st.event
  }

  /** The gates from k on stop at the first that fails, i. */
  lemma {:induction false} GatesStopAt(env: Env, st: TreeState, k: nat, i: nat)
    requires 1 <= k <= i < |GATES| && st.engageTarget.Some?
    requires forall j | k <= j < i :: GatePasses(env, GATES[j], st.engageTarget.value)
    requires !GatePasses(env, GATES[i], st.engageTarget.value)
    ensures TickSequence(env, Leaves(GATES)[k..] + [ENGAGE_CONTROL], st) == RunGate(env, GATES[i], st)
    decreases i - k
  {
    var rest := Leaves(GATES)[k..] + [ENGAGE_CONTROL];
    var after := Leaves(GATES)[k+1..] + [ENGAGE_CONTROL];
    assert rest == [Leaf(GATES[k])] + after;
    SequenceStep(env, Leaf(GATES[k]), after, st);
    GateVerdict(env, GATES[k], st);
    if k < i {
      GatesStopAt(env, st, k + 1, i);
    }
  }

  lemma {:induction false} GatesPass(env: Env, st: TreeState, k: nat)
    requires 1 <= k <= |GATES| && st.engageTarget.Some?
    requires forall j | k <= j < |GATES| :: GatePasses(env, GATES[j], st.engageTarget.value)
    ensures TickSequence(env, Leaves(GATES)[k..] + [ENGAGE_CONTROL], st) == TickSequence(env, [ENGAGE_CONTROL], st)
    decreases |GATES| - k
  {
    var rest := Leaves(GATES)[k..] + [ENGAGE_CONTROL];
    if k == |GATES| {
      assert rest == [ENGAGE_CONTROL];
    } else {
      var after := Leaves(GATES)[k+1..] + [ENGAGE_CONTROL];
      assert rest == [Leaf(GATES[k])] + after;
      SequenceStep(env, Leaf(GATES[k]), after, st);
      GateVerdict(env, GATES[k], st);
      GatesPass(env, st, k + 1);
    }
  }

  /** With nobody idle and nobody engaged on the target, the control branch records that. */
  lemma {:induction false} ControlTells(env: Env, st: TreeState)
    requires st.engageTarget.Some?
    requires !HasEngagementOn(env.sc.snap.interceptors, st.engageTarget.value.trackId)
    requires AvailableInterceptor(env.sc.snap.interceptors).None?
    ensures var r := TickSequence(env, [ENGAGE_CONTROL], st);
            && r.0 == Failure
            && Recorded(st, st.engageTarget.value, Some((DeniedEvent, InterceptorUnavailable)), r.1)
  {
    SequenceStep(env, Leaf(ActiveEngagementExists), [Leaf(MaintainEngagement)], st);
    SequenceStep(env, Leaf(InterceptorAvailable), [Leaf(AssignInterceptor), Leaf(UpdateEngagementState)], st);
    SelectorStep(env, MAINTAIN_SEQUENCE, [ASSIGN_SEQUENCE], st);
    var (s, next) := TickNode(env, ASSIGN_SEQUENCE, st);
    SelectorStep(env, ASSIGN_SEQUENCE, [], st);
    assert [Leaf(ActiveEngagementExists)] + [Leaf(MaintainEngagement)] == MAINTAIN_SEQUENCE.children;
    assert [Leaf(InterceptorAvailable)] + [Leaf(AssignInterceptor), Leaf(UpdateEngagementState)] ==
           ASSIGN_SEQUENCE.children;
    assert [MAINTAIN_SEQUENCE] + [ASSIGN_SEQUENCE] == ENGAGE_CONTROL.children;
    assert [ASSIGN_SEQUENCE] + [] == [ASSIGN_SEQUENCE];
    SequenceStep(env, ENGAGE_CONTROL, [], st);
    assert [ENGAGE_CONTROL] + [] == [ENGAGE_CONTROL];
  }

  /** The gate that fails first records the obstacle. */
  lemma {:induction false} GateTells(env: Env, st: TreeState, t: TrackFact, d: real)
    requires st.engageTarget == Some(t) && t.status == Confirmed && t.score > env.sc.cfg.engageScoreThreshold
    requires IsSqrt(env.sc.cfg.sqrt) && Apart(t.position, ORIGIN, d)
    requires env.stableTrackId == t.trackId && env.consecutiveTrackTicks == StableTicksFor(env.sc.stables, t.trackId)
    ensures forall i | 1 <= i < |GATES| && !GatePasses(env, GATES[i], t)
                       && (forall j | 1 <= j < i :: GatePasses(env, GATES[j], t)) ::
              && RunGate(env, GATES[i], st).0 == Failure
              && Recorded(st, t, Obstacle(env.sc, StableTicksFor(env.sc.stables, t.trackId), t, d),
                          RunGate(env, GATES[i], st).1)
    ensures (forall j | 1 <= j < |GATES| :: GatePasses(env, GATES[j], t)) ==>
              && Engageable(env.sc, t)
              && Obstacle(env.sc, StableTicksFor(env.sc.stables, t.trackId), t, d) ==
                 Some((DeniedEvent, InterceptorUnavailable))
  {
    hide Distance, Apart, IsSqrt, StableTicksFor;
    DistanceIs(env.sc.cfg.sqrt, t.position, ORIGIN, d);
    assert GATES[1] == DenialCooldown && GATES[2] == ConfidenceAllowed && GATES[3] == SystemHealth;
    assert GATES[4] == RangeAllowed && GATES[5] == StabilityGate;
  }

  /** The engage branch records what keeps an interceptor from the foremost confirmed track. */
  lemma {:induction false} EngageTells(env: Env, st: TreeState, t: TrackFact, d: real)
    requires HighestPriority(env.sc.snap.tracks, true) == Some(t)
    requires IsSqrt(env.sc.cfg.sqrt) && Apart(t.position, ORIGIN, d)
    requires env.stableTrackId == t.trackId && env.consecutiveTrackTicks == StableTicksFor(env.sc.stables, t.trackId)
    requires !HasEngagementOn(env.sc.snap.interceptors, t.trackId)
    requires AvailableInterceptor(env.sc.snap.interceptors).None? || !Engageable(env.sc, t)
    ensures var r := TickNode(env, ENGAGE_SEQUENCE, st);
            r.0 == Failure && Recorded(st, t, Obstacle(env.sc, StableTicksFor(env.sc.stables, t.trackId), t, d), r.1)
  {
    var chosen := st.(engageTarget := Some(t));
    var rest := Leaves(GATES)[1..] + [ENGAGE_CONTROL];
    assert Leaves(GATES) + [ENGAGE_CONTROL] == [Leaf(TargetReady)] + rest;
    SequenceStep(env, Leaf(TargetReady), rest, st);
    hide TickSequence, GatePasses, RunGate, HighestPriority, IsSqrt, Apart, Engageable, StableTicksFor;
    if t.score > env.sc.cfg.engageScoreThreshold {
      GateTells(env, chosen, t, d);
      if forall j | 1 <= j < |GATES| :: GatePasses(env, GATES[j], t) {
        GatesPass(env, chosen, 1);
        ControlTells(env, chosen);
      } else {
        var i := FirstGate(env, t, 1);
        GatesStopAt(env, chosen, 1, i);
      }
    }
  }

  lemma {:induction false} FirstGate(env: Env, t: TrackFact, k: nat) returns (i: nat)
    requires k <= |GATES| && exists j :: k <= j < |GATES| && !GatePasses(env, GATES[j], t)
    ensures k <= i < |GATES| && !GatePasses(env, GATES[i], t)
    ensures forall j | k <= j < i :: GatePasses(env, GATES[j], t)
    decreases |GATES| - k
  {
    hide GatePasses;
    i := k;
    if GatePasses(env, GATES[k], t) {
      i := FirstGate(env, t, k + 1);
    }
  }

  // ---------------------------------------------------------------- the tracking and search branches

  /** The event that says what is being watched. */
  ghost function Watching(cfg: Config, u: TrackFact): Event {
    if u.status == Tentative then Event(u.trackId, AcquireEvent, TentativeWait)
    else if u.score <= cfg.engageScoreThreshold then Event(u.trackId, IdleEvent, ScoreBelowThreshold)
    else Event(u.trackId, TrackEvent, MaintainTracking)
  }

  ghost function WatchingAny(cfg: Config, u: Option<TrackFact>): Event {
    if u.Some? then Watching(cfg, u.value) else SEARCHING
  }

  lemma {:induction false} TrackBranchTells(env: Env, st: TreeState)
    ensures var (s, next) := TickNode(env, TRACK_SEQUENCE, st);
            var u := HighestPriority(env.sc.snap.tracks, false);
            && (s == Success <==> u.Some?) && (s == Failure <==> u.None?) && next.denied == st.denied
            && next.mode == (if u.Some? then TrackMode else st.mode)
            && next.event == if st.denied || u.None? then st.event else Watching(env.sc.cfg, u.value)
  {
    assert TRACK_SEQUENCE.children == [Leaf(TrackExists)] + [Leaf(KeepTracking)];
    SequenceStep(env, Leaf(TrackExists), [Leaf(KeepTracking)], st);
    var tracked := st.(trackingTarget := HighestPriority(env.sc.snap.tracks, false));
    SequenceStep(env, Leaf(KeepTracking), [], tracked);
    assert [Leaf(KeepTracking)] + [] == [Leaf(KeepTracking)];
  }

  lemma {:induction false} SearchBranchTells(env: Env, st: TreeState)
    ensures var (s, next) := TickNode(env, SEARCH_SEQUENCE, st);
            s == Success && next.event == if st.denied then st.event else SEARCHING
  {
    assert SEARCH_SEQUENCE.children == [Leaf(ScanWait)] + [];
    SequenceStep(env, Leaf(ScanWait), [], st);
  }

  /** Once the engage branch has failed, the event it recorded stands; otherwise it says what is watched. */
  lemma {:induction false} RootTells(env: Env, st: TreeState)
    requires TickNode(env, ENGAGE_SEQUENCE, st).0 == Failure
    ensures var next := TickNode(env, ENGAGE_SEQUENCE, st).1;
            TickNode(env, ROOT, st).1.event ==
            if next.denied then next.event else WatchingAny(env.sc.cfg, HighestPriority(env.sc.snap.tracks, false))
  {
    hide TickSequence, TickSelector, HighestPriority, Watching;
    var next := TickNode(env, ENGAGE_SEQUENCE, st).1;
    TrackBranchTells(env, next);
    var last := TickNode(env, TRACK_SEQUENCE, next).1;
    SearchBranchTells(env, last);
    assert ROOT.children == [ENGAGE_SEQUENCE] + ([TRACK_SEQUENCE] + ([SEARCH_SEQUENCE] + []));
    SelectorStep(env, ENGAGE_SEQUENCE, [TRACK_SEQUENCE] + ([SEARCH_SEQUENCE] + []), st);
    SelectorStep(env, TRACK_SEQUENCE, [SEARCH_SEQUENCE] + [], next);
    SelectorStep(env, SEARCH_SEQUENCE, [], last);
  }

  /** With no confirmed track the engage branch fails and records nothing. */
  lemma {:induction false} NothingToEngage(env: Env, st: TreeState)
    requires HighestPriority(env.sc.snap.tracks, true).None?
    ensures var r := TickNode(env, ENGAGE_SEQUENCE, st);
            r.0 == Failure && r.1.denied == st.denied && r.1.event == st.event
  {
    var rest := Leaves(GATES)[1..] + [ENGAGE_CONTROL];
    assert Leaves(GATES) + [ENGAGE_CONTROL] == [Leaf(TargetReady)] + rest;
    SequenceStep(env, Leaf(TargetReady), rest, st);
  }

  // ---------------------------------------------------------------- the tick

  /** A tick that leaves no engagement has run the tree, with nobody engaged on a live track and no open track for an
      idle interceptor. */
  lemma {:induction false} TreeRan(cfg: Config, mem: Memory, snap: Snapshot) returns (env: Env, st: TreeState)
    requires WellFormed(snap) && Tick(cfg, mem, snap).memory.actives == []
    ensures env.sc == SceneOf(cfg, mem, snap) && !st.denied
    ensures Tick(cfg, mem, snap).result.event == TickNode(env, ROOT, st).1.event
    ensures var best := HighestPriority(snap.tracks, true);
            best.Some? ==> env.stableTrackId == best.value.trackId
                           && env.consecutiveTrackTicks == StableTicksFor(env.sc.stables, best.value.trackId)
    ensures Survivors(mem, snap) == []
    ensures Allocate(SceneOf(cfg, mem, snap), IdleOnes(snap.interceptors), []).pairs == []
  {
    var survivors := Survivors(mem, snap);
    SurvivorsAreMaintained(cfg, snap, survivors);
    var kept := MaintainAll(cfg, snap, survivors);
    var sc, idle := SceneOf(cfg, mem, snap), IdleOnes(snap.interceptors);
    AllocateGrows(sc, idle, kept.actives);
    var merged, prepared := Merged(mem.actives, snap), Prepared(cfg, mem, snap);
    env := Env(sc, prepared.stableTrackId, prepared.consecutiveTrackTicks);
    st := FallbackStart(prepared.(actives := kept.actives),
                        Blank(snap, prepared, |merged|, |Allocate(sc, idle, kept.actives).idle|, kept.event),
                        BoardAfterReconcile(snap, merged));
    hide HighestPriority, StableTicksFor, MaintainAll, Allocate, Reconciled, Merged, IdleOnes, WellFormed, NextStables;
    hide BoardAfterReconcile, TickNode, ScanSwaps, ChosenSwap;
  }

  lemma {:induction false} NobodyCan(cfg: Config, mem: Memory, snap: Snapshot, t: TrackFact)
    requires WellFormed(snap) && Survivors(mem, snap) == [] && t in snap.tracks && t.status == Confirmed
    requires Allocate(SceneOf(cfg, mem, snap), IdleOnes(snap.interceptors), []).pairs == []
    ensures !HasEngagementOn(snap.interceptors, t.trackId)
    ensures AvailableInterceptor(snap.interceptors).None? || !Engageable(SceneOf(cfg, mem, snap), t)
  {
    var sc, idle := SceneOf(cfg, mem, snap), IdleOnes(snap.interceptors);
    NoSurvivorsNoEngagement(mem, snap, t);
    if Engageable(sc, t) && AvailableInterceptor(snap.interceptors).Some? {
      assert AvailableInterceptor(snap.interceptors).value in idle;
      assert Open(sc, [], t);
      ScanFinds(sc, idle, [], t);
    }
  }

  /** When a tick ends with no engagement, its event names the first obstacle to engaging the foremost confirmed track,
      or else says how the foremost track is watched. */
  lemma {:induction false} RefusalTells(cfg: Config, mem: Memory, snap: Snapshot, t: TrackFact, d: real)
    requires WellFormed(snap) && IsSqrt(cfg.sqrt) && Tick(cfg, mem, snap).memory.actives == []
    requires IsForemost(snap.tracks, t, true) && Apart(t.position, ORIGIN, d)
    ensures match Obstacle(SceneOf(cfg, mem, snap), StableTicksFor(mem.stables, t.trackId) + 1, t, d)
            case Some(e) => Tick(cfg, mem, snap).result.event == Event(t.trackId, e.0, e.1)
            case None => forall u | IsForemost(snap.tracks, u, false) ::
              Tick(cfg, mem, snap).result.event == Watching(cfg, u)
  {
    hide Tick, TickNode, Allocate, Engageable, HasEngagementOn, StableTicksFor, NextStables, Reconciled, Merged, Apart;
    hide IsSqrt, HighestPriority, Watching, Obstacle, TickSequence, TickSelector, FallbackOutcome;
    var env, st := TreeRan(cfg, mem, snap);
    NobodyCan(cfg, mem, snap, t);
    NextStableTicks(mem.stables, snap.tracks, t.trackId);
    ForemostIsFound(snap.tracks, t, true);
    EventTells(env, st, t, d);
    forall u | IsForemost(snap.tracks, u, false) ensures HighestPriority(snap.tracks, false) == Some(u) {
      ForemostIsFound(snap.tracks, u, false);
    }
    ForemostExists(snap.tracks, t);
  }

  /** The event of the whole tree. */
  lemma {:induction false} EventTells(env: Env, st: TreeState, t: TrackFact, d: real)
    requires HighestPriority(env.sc.snap.tracks, true) == Some(t) && !st.denied
    requires IsSqrt(env.sc.cfg.sqrt) && Apart(t.position, ORIGIN, d)
    requires env.stableTrackId == t.trackId && env.consecutiveTrackTicks == StableTicksFor(env.sc.stables, t.trackId)
    requires !HasEngagementOn(env.sc.snap.interceptors, t.trackId)
    requires AvailableInterceptor(env.sc.snap.interceptors).None? || !Engageable(env.sc, t)
    ensures TickNode(env, ROOT, st).1.event ==
            match Obstacle(env.sc, StableTicksFor(env.sc.stables, t.trackId), t, d)
            case Some(e) => Event(t.trackId, e.0, e.1)
            case None => WatchingAny(env.sc.cfg, HighestPriority(env.sc.snap.tracks, false))
  {
    hide TickNode, Engageable, HasEngagementOn, StableTicksFor, Apart, IsSqrt, HighestPriority, Watching, Obstacle;
    EngageTells(env, st, t, d);
    RootTells(env, st);
  }

  lemma {:induction false} ForemostExists(tracks: seq<TrackFact>, t: TrackFact)
    requires t in tracks && t.status != Deleted
    ensures HighestPriority(tracks, false).Some?
  {
    assert Selectable(t, false);
  }

  /** With no confirmed track and no engagement, the event says how the foremost track is watched, or that there is
      none. */
  lemma {:induction false} WatchTells(cfg: Config, mem: Memory, snap: Snapshot)
    requires WellFormed(snap) && Tick(cfg, mem, snap).memory.actives == []
    requires forall t | t in snap.tracks :: t.status != Confirmed
    ensures forall u | IsForemost(snap.tracks, u, false) :: Tick(cfg, mem, snap).result.event == Watching(cfg, u)
    ensures (forall t | t in snap.tracks :: t.status == Deleted) ==> Tick(cfg, mem, snap).result.event == SEARCHING
  {
    var env, st := TreeRan(cfg, mem, snap);
    hide Tick, TickNode, Allocate, Reconciled, Merged, Watching;
    NothingToEngage(env, st);
    RootTells(env, st);
    forall u | IsForemost(snap.tracks, u, false) ensures HighestPriority(snap.tracks, false) == Some(u) {
      ForemostIsFound(snap.tracks, u, false);
    }
  }
}
