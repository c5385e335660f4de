/** The mission decision on values: facts, memory and the stages of one tick
    (src/decision/blackboard.*, engagement_scoring.h, mission_behavior_tree.*). */
module Mission {
  import opened Basics
  import opened Interceptors

  datatype MissionMode = SearchMode | TrackMode | EngageMode

  datatype TrackFact = TrackFact(trackId: nat, status: TrackStatus, position: Vec3, confidence: real, score: real,
                                 priority: real)

  datatype InterceptorFact = InterceptorFact(interceptorId: nat, available: bool, engaged: bool, targetId: nat,
                                             position: Vec3, speed: real)

  datatype SensorHealth = SensorHealth(sensorId: nat, active: bool, stale: bool, lastSeenAge: real)

  datatype Engagement = Engagement(active: bool, interceptorId: nat, trackId: nat)

  const NO_ENGAGEMENT := Engagement(false, 0, 0)

  datatype Snapshot = Snapshot(
    tick: nat,
    time: real,
    tracks: seq<TrackFact>,
    interceptors: seq<InterceptorFact>,
    sensorHealth: seq<SensorHealth>,
    board: Board)

  /** The part of the blackboard a tick writes. */
  datatype Board = Board(engagement: Engagement, mode: MissionMode)

  datatype Config = Config(
    engageScoreThreshold: real,
    maxEngagementRange: real,
    minConfidence: real,
    noEngageRadius: real,
    denialCooldown: real,
    stableTicks: nat,
    priorityWeight: real,
    confidenceWeight: real,
    interceptTimeWeight: real,
    distanceWeight: real,
    distanceNormalizer: real,
    defaultSpeed: real,
    retaskMargin: real,
    sqrt: real -> real)

  datatype Active = Active(trackId: nat, interceptorId: nat, startTime: real, lastCommandTime: real, missingTicks: nat,
                           lowConfidenceTicks: nat)

  datatype Stability = Stability(trackId: nat, ticks: nat)

  datatype Memory = Memory(
    lastMode: MissionMode,
    lastDeniedTrackId: nat,
    lastDenialReason: Reason,
    denialCooldownUntil: real,
    stableTrackId: nat,
    consecutiveTrackTicks: nat,
    consecutiveEngageTicks: nat,
    actives: seq<Active>,
    stables: seq<Stability>)

  datatype EventKind = SearchEvent | AcquireEvent | IdleEvent | TrackEvent | EngageEvent | MaintainEvent | DeniedEvent

  datatype Reason =
    | NoReason | WaitingForDetections | EngagementActive | IdleInterceptorEngage | EngageStart
    | RetaskApproved | RetaskDenied | EngageCooldown | LowConfidence | SensorHealthDegraded
    | InsideNoEngageZone | OutsideMaxRange | InterceptorUnavailable
    | TentativeWait | ScoreBelowThreshold | MaintainTracking

  datatype Event = Event(trackId: nat, kind: EventKind, reason: Reason)

  const SEARCHING := Event(0, SearchEvent, WaitingForDetections)

  datatype CommandReason = IdleAssignment | RetaskAssignment | TreeAssignment

  datatype Command = Command(interceptorId: nat, trackId: nat, position: Vec3, reason: CommandReason)

  const FRESH_MEMORY := Memory(SearchMode, 0, NoReason, 0.0, 0, 0, 0, [], [])

  // ---------------------------------------------------------------- facts about interceptors

  predicate FactBefore(a: InterceptorFact, b: InterceptorFact) {
    a.interceptorId < b.interceptorId
  }

  /** set_interceptors_from_states, for one state. */
  function FactOf(sqrt: real -> real, s: InterceptorState): InterceptorFact {
    InterceptorFact(s.interceptorId, !s.engaged, s.engaged, s.targetId, s.position, sqrt(Norm2(s.velocity)))
  }

  function FactsOf(sqrt: real -> real, states: seq<InterceptorState>): (r: seq<InterceptorFact>)
    ensures |r| == |states| && forall k | 0 <= k < |r| :: r[k] == FactOf(sqrt, states[k])
  {
    seq(|states|, k requires 0 <= k < |states| => FactOf(sqrt, states[k]))
  }

  // ---------------------------------------------------------------- reading the snapshot

  function FindAnyStatus(tracks: seq<TrackFact>, id: nat): (r: Option<TrackFact>)
    ensures r.Some? ==> r.value in tracks && r.value.trackId == id
    ensures r.None? ==> forall t | t in tracks :: t.trackId != id
  {
    if tracks == [] then None
    else if tracks[0].trackId == id then Some(tracks[0])
    else FindAnyStatus(tracks[1..], id)
  }

  /** find_track: the first track with this id that is not deleted. */
  function FindLive(tracks: seq<TrackFact>, id: nat): (r: Option<TrackFact>)
    ensures r.Some? ==> r.value in tracks && r.value.trackId == id && r.value.status != Deleted
    ensures r.None? ==> forall t | t in tracks && t.trackId == id :: t.status == Deleted
  {
    if tracks == [] then None
    else if tracks[0].trackId == id && tracks[0].status != Deleted then Some(tracks[0])
    else FindLive(tracks[1..], id)
  }

  function FindInterceptor(interceptors: seq<InterceptorFact>, id: nat): (r: Option<InterceptorFact>)
    ensures r.Some? ==> r.value in interceptors && r.value.interceptorId == id
    ensures r.None? ==> forall i | i in interceptors :: i.interceptorId != id
  {
    if interceptors == [] then None
    else if interceptors[0].interceptorId == id then Some(interceptors[0])
    else FindInterceptor(interceptors[1..], id)
  }

  predicate EngagedWith(interceptors: seq<InterceptorFact>, id: nat, track: nat) {
    exists i :: i in interceptors && i.interceptorId == id && i.engaged && i.targetId == track
  }

  /** has_active_engagement_for_target: its first test is subsumed by its second. */
  predicate HasEngagementOn(interceptors: seq<InterceptorFact>, track: nat) {
    exists i :: i in interceptors && i.engaged && i.targetId == track
  }

  predicate HasStaleSensor(health: seq<SensorHealth>) {
    exists h :: h in health && (!h.active || h.stale)
  }

  /** a ranks above b: higher priority, then lower id. */
  predicate Outranks(a: TrackFact, b: TrackFact) {
    a.priority > b.priority || (a.priority == b.priority && a.trackId < b.trackId)
  }

  predicate Selectable(t: TrackFact, confirmedOnly: bool) {
    t.status != Deleted && (confirmedOnly ==> t.status == Confirmed)
  }

  function HighestPriority(tracks: seq<TrackFact>, confirmedOnly: bool): (r: Option<TrackFact>)
    ensures r.Some? ==> r.value in tracks && Selectable(r.value, confirmedOnly)
    ensures r.Some? ==> forall t | t in tracks && Selectable(t, confirmedOnly) :: !Outranks(t, r.value)
    ensures r.None? ==> forall t | t in tracks :: !Selectable(t, confirmedOnly)
  {
    if tracks == [] then None
    else
      var t := tracks[|tracks|-1];
      var best := HighestPriority(tracks[..|tracks|-1], confirmedOnly);
      assert tracks == tracks[..|tracks|-1] + [t];
      if Selectable(t, confirmedOnly) && (best.None? || Outranks(t, best.value)) then Some(t) else best
  }

  /** The first idle interceptor. */
  function AvailableInterceptor(interceptors: seq<InterceptorFact>): (r: Option<InterceptorFact>)
    ensures r.Some? ==> exists k | 0 <= k < |interceptors| ::
              && interceptors[k] == r.value && IsIdle(interceptors[k])
              && forall j | 0 <= j < k :: !IsIdle(interceptors[j])
    ensures r.None? ==> forall i | i in interceptors :: !IsIdle(i)
  {
    if interceptors == [] then None
    else if IsIdle(interceptors[0]) then Some(interceptors[0])
    else AvailableInterceptor(interceptors[1..])
  }

  predicate IsIdle(i: InterceptorFact) {
    i.available && !i.engaged
  }

  function IdleOnes(interceptors: seq<InterceptorFact>): (r: seq<InterceptorFact>)
    ensures forall i | i in r :: i in interceptors && IsIdle(i)
    ensures forall i | i in interceptors && IsIdle(i) :: i in r
  {
    if interceptors == [] then []
    else
      var n := |interceptors| - 1;
      assert interceptors == interceptors[..n] + [interceptors[n]];
      IdleOnes(interceptors[..n]) + if IsIdle(interceptors[n]) then [interceptors[n]] else []
  }

  // ---------------------------------------------------------------- scoring

  const ALREADY_ENGAGED_PENALTY: real := 1000.0

  function Score(cfg: Config, track: TrackFact, interceptor: InterceptorFact, alreadyEngaged: bool): real {
    var distance := Distance(cfg.sqrt, track.position, interceptor.position);
    var configured := if interceptor.speed > 0.0 then interceptor.speed else cfg.defaultSpeed;
    var time := distance / MaxReal(configured, 1.0);
    var normalized := distance / MaxReal(cfg.distanceNormalizer, 1.0);
    cfg.priorityWeight * track.priority + cfg.confidenceWeight * track.confidence
    - cfg.interceptTimeWeight * time - cfg.distanceWeight * normalized
    - if alreadyEngaged then ALREADY_ENGAGED_PENALTY else 0.0
  }

  /** The score of a candidate pair. */
  function PairScore(cfg: Config, track: TrackFact, interceptor: InterceptorFact): real {
    Score(cfg, track, interceptor, false)
  }

  // ---------------------------------------------------------------- reconciliation

  /** active_index_for_track. */
  function ActiveIndex(actives: seq<Active>, track: nat): (k: nat)
    ensures k <= |actives|
    ensures k < |actives| ==> actives[k].trackId == track
    ensures forall j | 0 <= j < k :: actives[j].trackId != track
  {
    if actives == [] || actives[0].trackId == track then 0 else 1 + ActiveIndex(actives[1..], track)
  }

  predicate IsEngaged(actives: seq<Active>, track: nat) {
    ActiveIndex(actives, track) < |actives|
  }

  /** add_or_refresh_active. */
  function Refreshed(actives: seq<Active>, track: nat, interceptor: nat, time: real): seq<Active> {
    var k := ActiveIndex(actives, track);
    if k < |actives| then actives[k := actives[k].(interceptorId := interceptor)]
    else actives + [Active(track, interceptor, time, time, 0, 0)]
  }

  function RefreshedAll(actives: seq<Active>, interceptors: seq<InterceptorFact>, time: real): seq<Active> {
    if interceptors == [] then actives
    else
      var n := |interceptors| - 1;
      var r := RefreshedAll(actives, interceptors[..n], time);
      var i := interceptors[n];
      if i.engaged && i.targetId != 0 then Refreshed(r, i.targetId, i.interceptorId, time) else r
  }

  function Merged(actives: seq<Active>, snap: Snapshot): seq<Active> {
    var e := snap.board.engagement;
    var start := if e.active then Refreshed(actives, e.trackId, e.interceptorId, snap.time) else actives;
    RefreshedAll(start, snap.interceptors, snap.time)
  }

  datatype Removal =
    | TrackMissing | TrackDeleted | CompletedOrKilled
    | InterceptorMissing | InterceptorIdle | InterceptorRetargeted

  /** Why reconciliation drops an engagement; None when it keeps it. */
  function RemovalOf(snap: Snapshot, a: Active): Option<Removal> {
    var track := FindAnyStatus(snap.tracks, a.trackId);
    var interceptor := FindInterceptor(snap.interceptors, a.interceptorId);
    var released := interceptor.Some? && !interceptor.value.engaged;
    if track.None? then Some(if released then CompletedOrKilled else TrackMissing)
    else if track.value.status == Deleted then Some(if released then CompletedOrKilled else TrackDeleted)
    else if interceptor.None? then Some(InterceptorMissing)
    else if !interceptor.value.engaged || interceptor.value.targetId == 0 then Some(InterceptorIdle)
    else if interceptor.value.targetId != a.trackId then Some(InterceptorRetargeted)
    else None
  }

  function Reconciled(snap: Snapshot, actives: seq<Active>): (r: seq<Active>)
    ensures forall a | a in r :: a in actives && RemovalOf(snap, a).None?
    ensures forall a | a in actives && RemovalOf(snap, a).None? :: a in r
    ensures |r| <= |actives|
  {
    if actives == [] then []
    else
      var n := |actives| - 1;
      assert actives == actives[..n] + [actives[n]];
      Reconciled(snap, actives[..n]) + if RemovalOf(snap, actives[n]).None? then [actives[n]] else []
  }

  /** Removing the engagement the blackboard shows clears it there. */
  function BoardAfterReconcile(snap: Snapshot, actives: seq<Active>): Board {
    if snap.board.engagement.active
       && exists a :: a in actives && RemovalOf(snap, a).Some?
                      && a.trackId == snap.board.engagement.trackId
                      && a.interceptorId == snap.board.engagement.interceptorId
    then snap.board.(engagement := NO_ENGAGEMENT)
    else snap.board
  }

  // ---------------------------------------------------------------- stability

  function StableTicksFor(stables: seq<Stability>, id: nat): nat {
    if stables == [] then 0
    else if stables[0].trackId == id then stables[0].ticks
    else StableTicksFor(stables[1..], id)
  }

  /** One entry per confirmed track, one tick up from the previous entry or starting at one. */
  function NextStables(stables: seq<Stability>, tracks: seq<TrackFact>): seq<Stability> {
    if tracks == [] then []
    else
      var n := |tracks| - 1;
      var t := tracks[n];
      NextStables(stables, tracks[..n])
      + if t.status == Confirmed then [Stability(t.trackId, StableTicksFor(stables, t.trackId) + 1)] else []
  }

  // ---------------------------------------------------------------- engageability

  /** What the loops of one tick hold fixed. */
  datatype Scene = Scene(cfg: Config, snap: Snapshot, stables: seq<Stability>, lastDenied: nat, cooldownUntil: real)

  predicate CoolingDown(sc: Scene, id: nat) {
    sc.lastDenied == id && sc.snap.time < sc.cooldownUntil
  }

  predicate InRange(cfg: Config, position: Vec3) {
    cfg.noEngageRadius <= Distance(cfg.sqrt, position, ORIGIN) <= cfg.maxEngagementRange
  }

  /** track_is_engageable. */
  predicate Engageable(sc: Scene, t: TrackFact) {
    && t.status == Confirmed
    && t.score > sc.cfg.engageScoreThreshold
    && t.confidence >= sc.cfg.minConfidence
    && !HasStaleSensor(sc.snap.sensorHealth)
    && InRange(sc.cfg, t.position)
    && !CoolingDown(sc, t.trackId)
    && StableTicksFor(sc.stables, t.trackId) >= sc.cfg.stableTicks
  }

  /** A track an interceptor may be sent to now. */
  predicate Open(sc: Scene, actives: seq<Active>, t: TrackFact) {
    !IsEngaged(actives, t.trackId) && Engageable(sc, t)
  }

  // ---------------------------------------------------------------- maintenance

  predicate IsMaintained(snap: Snapshot, a: Active) {
    FindLive(snap.tracks, a.trackId).Some? && EngagedWith(snap.interceptors, a.interceptorId, a.trackId)
  }

  /** One step of the maintenance loop: the engagement kept, or None when it is erased. */
  function MaintainOne(cfg: Config, snap: Snapshot, a: Active): Option<Active> {
    if IsMaintained(snap, a) then
      Some(a.(missingTicks := 0,
              lowConfidenceTicks := if FindLive(snap.tracks, a.trackId).value.confidence < cfg.minConfidence
                                    then a.lowConfidenceTicks + 1 else 0))
    else if a.missingTicks + 1 >= cfg.stableTicks then None
    else Some(a.(missingTicks := a.missingTicks + 1))
  }

  datatype Maintenance = Maintenance(actives: seq<Active>, maintained: bool, erased: bool, event: Event)

  function MaintainAll(cfg: Config, snap: Snapshot, actives: seq<Active>): Maintenance {
    if actives == [] then Maintenance([], false, false, SEARCHING)
    else
      var n := |actives| - 1;
      var m := MaintainAll(cfg, snap, actives[..n]);
      var kept := MaintainOne(cfg, snap, actives[n]);
      Maintenance(
        m.actives + (match kept { case Some(a) => [a] case None => [] }),
        m.maintained || IsMaintained(snap, actives[n]),
        m.erased || kept.None?,
        if IsMaintained(snap, actives[n]) then Event(actives[n].trackId, MaintainEvent, EngagementActive) else m.event)
  }

  // ---------------------------------------------------------------- greedy assignment of idle interceptors

  datatype Candidate = Candidate(interceptor: nat, track: nat, score: real)

  /** The scan of one interceptor's row: the first pair of strictly greatest score so far. */
  function ScanRow(sc: Scene, idle: seq<InterceptorFact>, actives: seq<Active>, i: nat, k: nat,
                   best: Option<Candidate>): Option<Candidate>
    requires i < |idle| && k <= |sc.snap.tracks|
  {
    if k == 0 then best
    else
      var b := ScanRow(sc, idle, actives, i, k - 1, best);
      var t := sc.snap.tracks[k-1];
      if !Open(sc, actives, t) then b
      else
        var score := PairScore(sc.cfg, t, idle[i]);
        if b.None? || score > b.value.score then Some(Candidate(i, k - 1, score)) else b
  }

  function ScanAll(sc: Scene, idle: seq<InterceptorFact>, actives: seq<Active>, i: nat): Option<Candidate>
    requires i <= |idle|
  {
    if i == 0 then None
    else ScanRow(sc, idle, actives, i - 1, |sc.snap.tracks|, ScanAll(sc, idle, actives, i - 1))
  }

  ghost predicate IsCandidate(sc: Scene, idle: seq<InterceptorFact>, actives: seq<Active>, c: Candidate) {
    && c.interceptor < |idle| && c.track < |sc.snap.tracks|
    && Open(sc, actives, sc.snap.tracks[c.track])
    && c.score == PairScore(sc.cfg, sc.snap.tracks[c.track], idle[c.interceptor])
  }

  lemma {:induction false} ScanRowCandidate(sc: Scene, idle: seq<InterceptorFact>, actives: seq<Active>, i: nat,
                                            k: nat, best: Option<Candidate>)
    requires i < |idle| && k <= |sc.snap.tracks|
    requires best.Some? ==> IsCandidate(sc, idle, actives, best.value)
    ensures var r := ScanRow(sc, idle, actives, i, k, best);
            r.Some? ==> IsCandidate(sc, idle, actives, r.value)
  {
    if k > 0 {
      ScanRowCandidate(sc, idle, actives, i, k - 1, best);
    }
  }

  lemma {:induction false} ScanAllCandidate(sc: Scene, idle: seq<InterceptorFact>, actives: seq<Active>, i: nat)
    requires i <= |idle|
    ensures var r := ScanAll(sc, idle, actives, i);
            r.Some? ==> IsCandidate(sc, idle, actives, r.value)
  {
    if i > 0 {
      ScanAllCandidate(sc, idle, actives, i - 1);
      ScanRowCandidate(sc, idle, actives, i - 1, |sc.snap.tracks|, ScanAll(sc, idle, actives, i - 1));
    }
  }

  datatype Match = Match(interceptor: InterceptorFact, track: TrackFact, score: real)

  /** What the greedy loop has done: the pairs in order, and what is left. */
  datatype Allocation = Allocation(pairs: seq<Match>, actives: seq<Active>, idle: seq<InterceptorFact>)

  function Removed<T>(s: seq<T>, i: nat): (r: seq<T>)
    requires i < |s|
    ensures |r| == |s| - 1
    ensures forall k | 0 <= k < |r| :: r[k] == if k < i then s[k] else s[k+1]
  {
    s[..i] + s[i+1..]
  }

  function NewActive(track: nat, interceptor: nat, time: real): Active {
    Active(track, interceptor, time, time, 0, 0)
  }

  /** The greedy loop from a given number of idle interceptors down. */
  function Allocate(sc: Scene, idle: seq<InterceptorFact>, actives: seq<Active>): Allocation
    decreases |idle|
  {
    ScanAllCandidate(sc, idle, actives, |idle|);
    match ScanAll(sc, idle, actives, |idle|)
    case None => Allocation([], actives, idle)
    case Some(c) =>
      var i, t := idle[c.interceptor], sc.snap.tracks[c.track];
      var rest := Allocate(sc, Removed(idle, c.interceptor),
                           actives + [NewActive(t.trackId, i.interceptorId, sc.snap.time)]);
      Allocation([Match(i, t, c.score)] + rest.pairs, rest.actives, rest.idle)
  }

  function CommandsOf(pairs: seq<Match>): (r: seq<Command>)
    ensures |r| == |pairs|
    ensures forall k | 0 <= k < |r| ::
              r[k] == Command(pairs[k].interceptor.interceptorId, pairs[k].track.trackId, pairs[k].track.position,
                              IdleAssignment)
  {
    seq(|pairs|, k requires 0 <= k < |pairs| =>
      Command(pairs[k].interceptor.interceptorId, pairs[k].track.trackId, pairs[k].track.position, IdleAssignment))
  }

  // ---------------------------------------------------------------- retasking

  datatype Swap = Swap(active: nat, track: TrackFact, candidateScore: real, activeScore: real)

  function Gain(s: Swap): real {
    s.candidateScore - s.activeScore
  }

  function ScanSwapRow(sc: Scene, actives: seq<Active>, a: nat, current: TrackFact, interceptor: InterceptorFact,
                       k: nat, best: Option<Swap>): Option<Swap>
    requires a < |actives| && k <= |sc.snap.tracks|
  {
    if k == 0 then best
    else
      var b := ScanSwapRow(sc, actives, a, current, interceptor, k - 1, best);
      var t := sc.snap.tracks[k-1];
      if !Open(sc, actives, t) then b
      else
        var s := Swap(a, t, PairScore(sc.cfg, t, interceptor), PairScore(sc.cfg, current, interceptor));
        if b.None? || Gain(s) > Gain(b.value) then Some(s) else b
  }

  function ScanSwaps(sc: Scene, actives: seq<Active>, k: nat): Option<Swap>
    requires k <= |actives|
  {
    if k == 0 then None
    else
      var b := ScanSwaps(sc, actives, k - 1);
      var current := FindLive(sc.snap.tracks, actives[k-1].trackId);
      var interceptor := FindInterceptor(sc.snap.interceptors, actives[k-1].interceptorId);
      if current.None? || interceptor.None? then b
      else ScanSwapRow(sc, actives, k - 1, current.value, interceptor.value, |sc.snap.tracks|, b)
  }

  /** The swap the retask scan selects is a legal one. */
  ghost predicate IsSwap(sc: Scene, actives: seq<Active>, s: Swap) {
    && s.active < |actives|
    && s.track in sc.snap.tracks && Open(sc, actives, s.track)
    && FindLive(sc.snap.tracks, actives[s.active].trackId).Some?
    && FindInterceptor(sc.snap.interceptors, actives[s.active].interceptorId).Some?
    && s.candidateScore == PairScore(sc.cfg, s.track,
                                     FindInterceptor(sc.snap.interceptors, actives[s.active].interceptorId).value)
    && s.activeScore == PairScore(sc.cfg, FindLive(sc.snap.tracks, actives[s.active].trackId).value,
                                  FindInterceptor(sc.snap.interceptors, actives[s.active].interceptorId).value)
  }

  lemma {:induction false} ScanSwapRowLegal(sc: Scene, actives: seq<Active>, a: nat, k: nat, best: Option<Swap>)
    requires a < |actives| && k <= |sc.snap.tracks|
    requires FindLive(sc.snap.tracks, actives[a].trackId).Some?
    requires FindInterceptor(sc.snap.interceptors, actives[a].interceptorId).Some?
    requires best.Some? ==> IsSwap(sc, actives, best.value)
    ensures var r := ScanSwapRow(sc, actives, a, FindLive(sc.snap.tracks, actives[a].trackId).value,
                                 FindInterceptor(sc.snap.interceptors, actives[a].interceptorId).value, k, best);
            r.Some? ==> IsSwap(sc, actives, r.value)
  {
    if k > 0 {
      ScanSwapRowLegal(sc, actives, a, k - 1, best);
    }
  }

  lemma {:induction false} ScanSwapsLegal(sc: Scene, actives: seq<Active>, k: nat)
    requires k <= |actives|
    ensures var r := ScanSwaps(sc, actives, k); r.Some? ==> IsSwap(sc, actives, r.value)
  {
    if k > 0 {
      ScanSwapsLegal(sc, actives, k - 1);
      if FindLive(sc.snap.tracks, actives[k-1].trackId).Some?
         && FindInterceptor(sc.snap.interceptors, actives[k-1].interceptorId).Some? {
        ScanSwapRowLegal(sc, actives, k - 1, |sc.snap.tracks|, ScanSwaps(sc, actives, k - 1));
      }
    }
  }

  /** The swap taken this tick: the one of greatest gain, when the gain reaches the margin. */
  function ChosenSwap(sc: Scene, actives: seq<Active>): (r: Option<Swap>)
    ensures r.Some? ==> r.value.active < |actives|
  {
    ScanSwapsLegal(sc, actives, |actives|);
    var s := ScanSwaps(sc, actives, |actives|);
    if s.Some? && Gain(s.value) >= sc.cfg.retaskMargin then s else None
  }

  function Swapped(actives: seq<Active>, s: Swap, time: real): seq<Active>
    requires s.active < |actives|
  {
    actives[s.active := NewActive(s.track.trackId, actives[s.active].interceptorId, time)]
  }
}
