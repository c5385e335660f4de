/** What a tick does with engagements: reconciliation agrees with the interceptors, every surviving engagement
    is maintained, the behaviour tree emits nothing, and the mode says what is going on. */
module MissionLaws {
  import opened Basics
  import opened Mission
  import opened MissionTick

  // ---------------------------------------------------------------- assumptions on a snapshot

  ghost predicate DistinctTracks(tracks: seq<TrackFact>) {
    forall i, j | 0 <= i < j < |tracks| :: tracks[i].trackId != tracks[j].trackId
  }

  ghost predicate DistinctInterceptors(interceptors: seq<InterceptorFact>) {
    forall i, j | 0 <= i < j < |interceptors| :: interceptors[i].interceptorId != interceptors[j].interceptorId
  }

  /** Track ids are distinct and not zero, interceptor ids are distinct. */
  ghost predicate WellFormed(snap: Snapshot) {
    && DistinctTracks(snap.tracks) && DistinctInterceptors(snap.interceptors)
    && (forall t | t in snap.tracks :: t.trackId != 0)
  }

  ghost predicate IsLive(tracks: seq<TrackFact>, id: nat) {
    exists t :: t in tracks && t.trackId == id && t.status != Deleted
  }

  lemma {:induction false} SameTrack(tracks: seq<TrackFact>, a: TrackFact, b: TrackFact)
    requires DistinctTracks(tracks) && a in tracks && b in tracks && a.trackId == b.trackId
    ensures a == b
  {
  }

  lemma {:induction false} SameInterceptor(interceptors: seq<InterceptorFact>, a: InterceptorFact, b: InterceptorFact)
    requires DistinctInterceptors(interceptors) && a in interceptors && b in interceptors
             && a.interceptorId == b.interceptorId
    ensures a == b
  {
  }

  // ---------------------------------------------------------------- merging

  ghost predicate DistinctActives(actives: seq<Active>) {
    forall i, j | 0 <= i < j < |actives| :: actives[i].trackId != actives[j].trackId
  }

  lemma {:induction false} IndexUnique(actives: seq<Active>, track: nat, k: nat)
    requires k <= |actives| && (k < |actives| ==> actives[k].trackId == track)
    requires forall j | 0 <= j < k :: actives[j].trackId != track
    ensures ActiveIndex(actives, track) == k
  {
  }

  /** Refreshing sets the owner of one track and leaves every other track's owner alone. */
  lemma {:induction false} RefreshedOwner(actives: seq<Active>, track: nat, interceptor: nat, time: real, other: nat)
    ensures var r := Refreshed(actives, track, interceptor, time);
            && IsEngaged(r, track) && r[ActiveIndex(r, track)].interceptorId == interceptor
            && (other != track ==>
                  && (IsEngaged(r, other) <==> IsEngaged(actives, other))
                  && (IsEngaged(actives, other) ==>
                        r[ActiveIndex(r, other)].interceptorId == actives[ActiveIndex(actives, other)].interceptorId))
  {
    var r := Refreshed(actives, track, interceptor, time);
    var k, o := ActiveIndex(actives, track), ActiveIndex(actives, other);
    IndexUnique(r, track, k);
    if other != track {
      IndexUnique(r, other, if o < |actives| then o else |r|);
    }
  }

  lemma {:induction false} RefreshedDistinct(actives: seq<Active>, track: nat, interceptor: nat, time: real)
    requires DistinctActives(actives)
    ensures DistinctActives(Refreshed(actives, track, interceptor, time))
  {
  }

  /** The interceptor the merge leaves as the owner of a track: the last one engaged on it. */
  ghost function OwnerOf(interceptors: seq<InterceptorFact>, track: nat): (r: Option<nat>)
    ensures r.Some? ==> exists i :: i in interceptors && i.engaged && i.targetId == track && i.interceptorId == r.value
    ensures r.None? ==> forall i | i in interceptors :: !(i.engaged && i.targetId == track)
  {
    if interceptors == [] then None
    else
      var n := |interceptors| - 1;
      assert interceptors == interceptors[..n] + [interceptors[n]];
      if interceptors[n].engaged && interceptors[n].targetId == track then Some(interceptors[n].interceptorId)
      else OwnerOf(interceptors[..n], track)
  }

  lemma {:induction false} RefreshedAllOwner(actives: seq<Active>, interceptors: seq<InterceptorFact>, time: real,
                                             track: nat)
    requires track != 0 && OwnerOf(interceptors, track).Some?
    ensures var r := RefreshedAll(actives, interceptors, time);
            IsEngaged(r, track) && r[ActiveIndex(r, track)].interceptorId == OwnerOf(interceptors, track).value
  {
    var n := |interceptors| - 1;
    var i := interceptors[n];
    var before := RefreshedAll(actives, interceptors[..n], time);
    if i.engaged && i.targetId != 0 {
      RefreshedOwner(before, i.targetId, i.interceptorId, time, track);
    }
    if !(i.engaged && i.targetId == track) {
      RefreshedAllOwner(actives, interceptors[..n], time, track);
    }
  }

  lemma {:induction false} RefreshedAllDistinct(actives: seq<Active>, interceptors: seq<InterceptorFact>, time: real)
    requires DistinctActives(actives)
    ensures DistinctActives(RefreshedAll(actives, interceptors, time))
  {
    if interceptors != [] {
      var n := |interceptors| - 1;
      RefreshedAllDistinct(actives, interceptors[..n], time);
      RefreshedDistinct(RefreshedAll(actives, interceptors[..n], time), interceptors[n].targetId,
                        interceptors[n].interceptorId, time);
    }
  }

  lemma {:induction false} MergedDistinct(actives: seq<Active>, snap: Snapshot)
    requires DistinctActives(actives)
    ensures DistinctActives(Merged(actives, snap))
  {
    var e := snap.board.engagement;
    RefreshedDistinct(actives, e.trackId, e.interceptorId, snap.time);
    RefreshedAllDistinct(if e.active then Refreshed(actives, e.trackId, e.interceptorId, snap.time) else actives,
                         snap.interceptors, snap.time);
  }

  // ---------------------------------------------------------------- reconciliation

  lemma {:induction false} ReconciledDistinct(snap: Snapshot, actives: seq<Active>)
    requires DistinctActives(actives)
    ensures DistinctActives(Reconciled(snap, actives))
  {
    if actives != [] {
      var n := |actives| - 1;
      ReconciledDistinct(snap, actives[..n]);
      var r := Reconciled(snap, actives[..n]);
      forall j | 0 <= j < |r| ensures r[j].trackId != actives[n].trackId {
        assert r[j] in actives[..n];
      }
    }
  }

  /** Every engagement that survives names a live track and an interceptor engaged on it. */
  lemma {:induction false} SurvivorAgrees(snap: Snapshot, a: Active)
    requires RemovalOf(snap, a).None?
    ensures IsLive(snap.tracks, a.trackId) && a.trackId != 0
    ensures EngagedWith(snap.interceptors, a.interceptorId, a.trackId)
    ensures IsMaintained(snap, a)
  {
  }

  /** Every interceptor engaged on a live track has that track in the memory, under the track's owner. */
  lemma {:induction false} EngagedIsRemembered(actives: seq<Active>, snap: Snapshot, i: InterceptorFact)
    returns (a: Active)
    requires WellFormed(snap)
    requires i in snap.interceptors && i.engaged && IsLive(snap.tracks, i.targetId)
    ensures a in Reconciled(snap, Merged(actives, snap))
    ensures a.trackId == i.targetId && OwnerOf(snap.interceptors, i.targetId) == Some(a.interceptorId)
  {
    var e := snap.board.engagement;
    var start := if e.active then Refreshed(actives, e.trackId, e.interceptorId, snap.time) else actives;
    var merged := Merged(actives, snap);
    RefreshedAllOwner(start, snap.interceptors, snap.time, i.targetId);
    a := merged[ActiveIndex(merged, i.targetId)];
    var owner :| owner in snap.interceptors && owner.engaged && owner.targetId == i.targetId
      && owner.interceptorId == a.interceptorId;
    var t :| t in snap.tracks && t.trackId == i.targetId && t.status != Deleted;
    SameTrack(snap.tracks, FindAnyStatus(snap.tracks, i.targetId).value, t);
    SameInterceptor(snap.interceptors, FindInterceptor(snap.interceptors, a.interceptorId).value, owner);
    assert RemovalOf(snap, a).None?;
    assert a in merged;
  }

  // ---------------------------------------------------------------- maintenance

  ghost predicate SamePairs(a: seq<Active>, b: seq<Active>) {
    && |a| == |b|
    && (forall k | 0 <= k < |a| :: a[k].trackId == b[k].trackId && a[k].interceptorId == b[k].interceptorId)
  }

  /** Nothing that survives reconciliation is ever missing: no engagement is erased or starts a missing count. */
  lemma {:induction false} SurvivorsAreMaintained(cfg: Config, snap: Snapshot, actives: seq<Active>)
    requires forall a | a in actives :: RemovalOf(snap, a).None?
    ensures var m := MaintainAll(cfg, snap, actives);
            && SamePairs(m.actives, actives)
            && !m.erased && (m.maintained <==> actives != [])
            && (forall k | 0 <= k < |m.actives| :: m.actives[k].missingTicks == 0)
  {
    if actives != [] {
      var n := |actives| - 1;
      assert actives == actives[..n] + [actives[n]];
      SurvivorsAreMaintained(cfg, snap, actives[..n]);
      SurvivorAgrees(snap, actives[n]);
    }
  }

  // ---------------------------------------------------------------- the fallback tree

  lemma {:induction false} ScanRowKeeps(sc: Scene, idle: seq<InterceptorFact>, actives: seq<Active>, i: nat, k: nat,
                                        best: Option<Candidate>)
    requires i < |idle| && k <= |sc.snap.tracks|
    ensures best.Some? ==> ScanRow(sc, idle, actives, i, k, best).Some?
    ensures (exists t :: 0 <= t < k && Open(sc, actives, sc.snap.tracks[t])) ==>
            ScanRow(sc, idle, actives, i, k, best).Some?
  {
    if k > 0 {
      ScanRowKeeps(sc, idle, actives, i, k - 1, best);
    }
  }

  /** With an idle interceptor and an open track the scan finds a candidate. */
  lemma {:induction false} ScanFinds(sc: Scene, idle: seq<InterceptorFact>, actives: seq<Active>, t: TrackFact)
    requires idle != [] && t in sc.snap.tracks && Open(sc, actives, t)
    ensures ScanAll(sc, idle, actives, |idle|).Some?
  {
    var k :| 0 <= k < |sc.snap.tracks| && sc.snap.tracks[k] == t;
    ScanRowKeeps(sc, idle, actives, |idle| - 1, |sc.snap.tracks|, ScanAll(sc, idle, actives, |idle| - 1));
  }

  /** The engage branch fails, having changed nothing but the target, the interceptor, the event and the denial flag. */
  ghost predicate Refused(before: TreeState, r: (Status, TreeState)) {
    && r.0 == Failure
    && r.1.mode == before.mode && r.1.commands == before.commands
    && r.1.actives == before.actives && r.1.board == before.board
  }

  lemma {:induction false} SequenceStep(env: Env, first: Node, rest: seq<Node>, st: TreeState)
    ensures TickSequence(env, [first] + rest, st) ==
            var (s, next) := TickNode(env, first, st);
            if s != Success then (s, next) else TickSequence(env, rest, next)
  {
    var all := [first] + rest;
    assert all[0] == first && all[1..] == rest;
  }

  lemma {:induction false} SelectorStep(env: Env, first: Node, rest: seq<Node>, st: TreeState)
    ensures TickSelector(env, [first] + rest, st) ==
            var (s, next) := TickNode(env, first, st);
            if s != Failure then (s, next) else TickSelector(env, rest, next)
  {
    var all := [first] + rest;
    assert all[0] == first && all[1..] == rest;
  }

  /** When nobody is engaged on the target and nobody is idle, the control branch refuses. */
  lemma {:induction false} ControlRefuses(env: Env, st: TreeState)
    requires st.engageTarget.Some?
    requires !HasEngagementOn(env.sc.snap.interceptors, st.engageTarget.value.trackId)
    requires AvailableInterceptor(env.sc.snap.interceptors).None?
    ensures Refused(st, TickNode(env, ENGAGE_CONTROL, st))
  {
    SequenceStep(env, Leaf(ActiveEngagementExists), [Leaf(MaintainEngagement)], st);
    SequenceStep(env, Leaf(InterceptorAvailable), [Leaf(AssignInterceptor), Leaf(UpdateEngagementState)], st);
    SelectorStep(env, MAINTAIN_SEQUENCE, [ASSIGN_SEQUENCE], st);
    var (s, next) := TickNode(env, ASSIGN_SEQUENCE, st);
    SelectorStep(env, ASSIGN_SEQUENCE, [], st);
    assert [Leaf(ActiveEngagementExists)] + [Leaf(MaintainEngagement)] == MAINTAIN_SEQUENCE.children;
    assert [Leaf(InterceptorAvailable)] + [Leaf(AssignInterceptor), Leaf(UpdateEngagementState)] ==
           ASSIGN_SEQUENCE.children;
    assert [MAINTAIN_SEQUENCE] + [ASSIGN_SEQUENCE] == ENGAGE_CONTROL.children;
    assert [ASSIGN_SEQUENCE] + [] == [ASSIGN_SEQUENCE];
  }

  /** A run of the gates from number k on: they pass only if the target passes each of their tests. */
  ghost predicate GatePasses(env: Env, name: LeafName, t: TrackFact) {
    match name
    case TargetReady => t.score > env.sc.cfg.engageScoreThreshold
    case DenialCooldown => !CoolingDown(env.sc, t.trackId)
    case ConfidenceAllowed => t.confidence >= env.sc.cfg.minConfidence
    case SystemHealth => !HasStaleSensor(env.sc.snap.sensorHealth)
    case RangeAllowed => InRange(env.sc.cfg, t.position)
    case StabilityGate => env.stableTrackId == t.trackId && env.consecutiveTrackTicks >= env.sc.cfg.stableTicks
    case _ => true
  }

  /** A gate succeeds exactly when the target passes its test, and then changes nothing. */
  lemma {:induction false} GateVerdict(env: Env, name: LeafName, st: TreeState)
    requires name in GATES[1..] && st.engageTarget.Some?
    ensures var r := TickNode(env, Leaf(name), st);
            if GatePasses(env, name, st.engageTarget.value) then r == (Success, st) else Refused(st, r)
  {
  }

  lemma {:induction false} GatesRefuse(env: Env, st: TreeState, k: nat)
    requires 1 <= k <= |GATES| && st.engageTarget.Some?
    requires Refused(st, TickNode(env, ENGAGE_CONTROL, st))
             || exists i :: k <= i < |GATES| && !GatePasses(env, GATES[i], st.engageTarget.value)
    ensures Refused(st, TickSequence(env, Leaves(GATES)[k..] + [ENGAGE_CONTROL], st))
    decreases |GATES| - k
  {
    var rest := Leaves(GATES)[k..] + [ENGAGE_CONTROL];
    if k == |GATES| {
      SequenceStep(env, ENGAGE_CONTROL, [], st);
      assert rest == [ENGAGE_CONTROL] + [];
    } else {
      var after := Leaves(GATES)[k+1..] + [ENGAGE_CONTROL];
      assert rest == [Leaf(GATES[k])] + after;
      SequenceStep(env, Leaf(GATES[k]), after, st);
      GateVerdict(env, GATES[k], st);
      if GatePasses(env, GATES[k], st.engageTarget.value) {
        GatesRefuse(env, st, k + 1);
      }
    }
  }

  /** With no engagement and nothing the greedy loop could do, the engage branch refuses. */
  lemma {:induction false} EngageRefuses(env: Env, st: TreeState)
    requires forall t | t in env.sc.snap.tracks && t.status == Confirmed ::
               && !HasEngagementOn(env.sc.snap.interceptors, t.trackId)
               && (AvailableInterceptor(env.sc.snap.interceptors).None? || !Engageable(env.sc, t))
    requires var best := HighestPriority(env.sc.snap.tracks, true);
             best.Some? ==> env.stableTrackId == best.value.trackId
                            && env.consecutiveTrackTicks == StableTicksFor(env.sc.stables, best.value.trackId)
    ensures Refused(st, TickNode(env, ENGAGE_SEQUENCE, st))
  {
    var best := HighestPriority(env.sc.snap.tracks, true);
    var chosen := st.(engageTarget := best);
    var rest := Leaves(GATES)[1..] + [ENGAGE_CONTROL];
    assert Leaves(GATES) + [ENGAGE_CONTROL] == [Leaf(TargetReady)] + rest;
    SequenceStep(env, Leaf(TargetReady), rest, st);
    if best.Some? && best.value.score > env.sc.cfg.engageScoreThreshold {
      if AvailableInterceptor(env.sc.snap.interceptors).None? {
        ControlRefuses(env, chosen);
      } else {
        SomeGateFails(env, best.value);
      }
      GatesRefuse(env, chosen, 1);
    }
  }

  lemma {:induction false} SomeGateFails(env: Env, t: TrackFact)
    requires t.status == Confirmed && t.score > env.sc.cfg.engageScoreThreshold && !Engageable(env.sc, t)
    requires env.stableTrackId == t.trackId && env.consecutiveTrackTicks == StableTicksFor(env.sc.stables, t.trackId)
    ensures exists i :: 1 <= i < |GATES| && !GatePasses(env, GATES[i], t)
  {
    if CoolingDown(env.sc, t.trackId) {
      assert !GatePasses(env, GATES[1], t);
    } else if t.confidence < env.sc.cfg.minConfidence {
      assert !GatePasses(env, GATES[2], t);
    } else if HasStaleSensor(env.sc.snap.sensorHealth) {
      assert !GatePasses(env, GATES[3], t);
    } else if !InRange(env.sc.cfg, t.position) {
      assert !GatePasses(env, GATES[4], t);
    } else {
      assert !GatePasses(env, GATES[5], t);
    }
  }

  /** The tracking branch succeeds exactly when there is a track, and then sets the mode. */
  lemma {:induction false} TrackVerdict(env: Env, st: TreeState)
    ensures var (s, next) := TickNode(env, TRACK_SEQUENCE, st);
            && next.commands == st.commands && next.actives == st.actives
            && (if HighestPriority(env.sc.snap.tracks, false).Some?
                then s == Success && next.mode == TrackMode && next.board == st.board.(mode := TrackMode)
                else s == Failure && next.mode == st.mode && next.board == st.board)
  {
    assert TRACK_SEQUENCE.children == [Leaf(TrackExists)] + [Leaf(KeepTracking)];
    SequenceStep(env, Leaf(TrackExists), [Leaf(KeepTracking)], st);
    var tracked := st.(trackingTarget := HighestPriority(env.sc.snap.tracks, false));
    SequenceStep(env, Leaf(KeepTracking), [], tracked);
    assert [Leaf(KeepTracking)] + [] == [Leaf(KeepTracking)];
  }

  /** The search branch always succeeds, and in search mode it stays there. */
  lemma {:induction false} SearchVerdict(env: Env, st: TreeState)
    requires st.mode == SearchMode
    ensures var (s, next) := TickNode(env, SEARCH_SEQUENCE, st);
            && s == Success && next.commands == st.commands && next.actives == st.actives
            && next.mode == SearchMode && next.board == st.board.(mode := SearchMode)
  {
    assert SEARCH_SEQUENCE.children == [Leaf(ScanWait)] + [];
    SequenceStep(env, Leaf(ScanWait), [], st);
  }

  /** Once the engage branch has refused, the tree tracks if there is anything to track, and searches otherwise. */
  lemma {:induction false} TreeAfterRefusal(env: Env, st: TreeState)
    requires st.mode == SearchMode && Refused(st, TickNode(env, ENGAGE_SEQUENCE, st))
    ensures var r := TickNode(env, ROOT, st).1;
            && r.commands == st.commands && r.actives == st.actives
            && r.mode == (if HighestPriority(env.sc.snap.tracks, false).Some? then TrackMode else SearchMode)
            && r.board == st.board.(mode := r.mode)
  {
    hide TickSequence, TickSelector, HighestPriority;
    var next := TickNode(env, ENGAGE_SEQUENCE, st).1;
    TrackVerdict(env, next);
    var last := TickNode(env, TRACK_SEQUENCE, next).1;
    if last.mode == SearchMode {
      SearchVerdict(env, last);
    }
    assert ROOT.children == [ENGAGE_SEQUENCE] + ([TRACK_SEQUENCE] + ([SEARCH_SEQUENCE] + []));
    SelectorStep(env, ENGAGE_SEQUENCE, [TRACK_SEQUENCE] + ([SEARCH_SEQUENCE] + []), st);
    SelectorStep(env, TRACK_SEQUENCE, [SEARCH_SEQUENCE] + [], next);
    SelectorStep(env, SEARCH_SEQUENCE, [], last);
  }

  // ---------------------------------------------------------------- the tick

  /** The engagements reconciliation leaves. */
  ghost function Survivors(mem: Memory, snap: Snapshot): seq<Active> {
    Reconciled(snap, Merged(mem.actives, snap))
  }

  lemma {:induction false} NoSurvivorsNoEngagement(mem: Memory, snap: Snapshot, t: TrackFact)
    requires WellFormed(snap) && Survivors(mem, snap) == []
    requires t in snap.tracks && t.status != Deleted
    ensures !HasEngagementOn(snap.interceptors, t.trackId)
  {
    if i :| i in snap.interceptors && i.engaged && i.targetId == t.trackId {
      var a := EngagedIsRemembered(mem.actives, snap, i);
    }
  }

  /** In the fallback branch no command is emitted, no engagement appears, and the mode is Track or Search. */
  lemma {:induction false} FallbackIsSilent(cfg: Config, mem: Memory, snap: Snapshot, blank: Result, board: Board)
    requires WellFormed(snap) && Survivors(mem, snap) == [] && blank.commands == []
    requires Allocate(SceneOf(cfg, mem, snap), IdleOnes(snap.interceptors), []).pairs == []
    ensures var out := FallbackOutcome(SceneOf(cfg, mem, snap), Prepared(cfg, mem, snap).(actives := []), blank, board);
            && out.result.commands == [] && out.memory.actives == []
            && out.result.mode ==
               (if exists t :: t in snap.tracks && t.status != Deleted then TrackMode else SearchMode)
            && out.board == board.(mode := out.result.mode) && out.memory.lastMode == out.result.mode
  {
    var prepared := Prepared(cfg, mem, snap).(actives := []);
    var sc := SceneOf(cfg, mem, snap);
    var env := Env(sc, prepared.stableTrackId, prepared.consecutiveTrackTicks);
    var st := FallbackStart(prepared, blank, board);
    forall t | t in snap.tracks && t.status == Confirmed
      ensures !HasEngagementOn(snap.interceptors, t.trackId)
      ensures AvailableInterceptor(snap.interceptors).None? || !Engageable(sc, t)
    {
      NoSurvivorsNoEngagement(mem, snap, t);
      if Engageable(sc, t) && AvailableInterceptor(snap.interceptors).Some? {
        assert AvailableInterceptor(snap.interceptors).value in IdleOnes(snap.interceptors);
        assert Open(sc, [], t);
        ScanFinds(sc, IdleOnes(snap.interceptors), [], t);
      }
    }
    EngageRefuses(env, st);
    TreeAfterRefusal(env, st);
  }

  /** What the mode of a tick means. */
  ghost predicate ModeTells(snap: Snapshot, out: Outcome) {
    && (out.result.mode == EngageMode <==> out.memory.actives != [])
    && (out.result.mode == SearchMode <==>
          out.memory.actives == [] && forall t | t in snap.tracks :: t.status == Deleted)
    && out.board.mode == out.result.mode
    && out.memory.lastMode == out.result.mode
    && (out.result.commands != [] ==> out.result.mode == EngageMode)
    && out.result.activeCount == |out.memory.actives|
  }

  /** Mode Engage exactly when some engagement is active, Search exactly when none is and no track is left,
      Track otherwise; the blackboard and the memory show the same mode. */
  lemma {:induction false} ModeIsMeaningful(cfg: Config, mem: Memory, snap: Snapshot)
    requires WellFormed(snap)
    ensures ModeTells(snap, Tick(cfg, mem, snap))
  {
    var survivors := Survivors(mem, snap);
    SurvivorsAreMaintained(cfg, snap, survivors);
    var kept := MaintainAll(cfg, snap, survivors);
    var sc := SceneOf(cfg, mem, snap);
    var alloc := Allocate(sc, IdleOnes(snap.interceptors), kept.actives);
    if alloc.pairs != [] {
      AllocateGrows(sc, IdleOnes(snap.interceptors), kept.actives);
    } else if !kept.maintained {
      var merged := Merged(mem.actives, snap);
      var prepared := Prepared(cfg, mem, snap);
      FallbackIsSilent(cfg, mem, snap, Blank(snap, prepared, |merged|, |alloc.idle|, kept.event),
                       BoardAfterReconcile(snap, merged));
    }
  }

  lemma {:induction false} AllocateGrows(sc: Scene, idle: seq<InterceptorFact>, actives: seq<Active>)
    ensures var a := Allocate(sc, idle, actives); |a.actives| == |actives| + |a.pairs|
    decreases |idle|
  {
    ScanAllCandidate(sc, idle, actives, |idle|);
    var c := ScanAll(sc, idle, actives, |idle|);
    if c.Some? {
      var i, t := idle[c.value.interceptor], sc.snap.tracks[c.value.track];
      AllocateGrows(sc, Removed(idle, c.value.interceptor),
                    actives + [NewActive(t.trackId, i.interceptorId, sc.snap.time)]);
    }
  }
}
