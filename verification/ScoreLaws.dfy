/** Whom a tick sends where, told by distances, speeds and weights alone (src/decision/engagement_scoring.h:36-62,
    mission_behavior_tree.cpp:384-629). */
module ScoreLaws {
  import opened Basics
  import Interceptors
  import opened Mission
  import opened MissionTick
  import opened MissionLaws
  import opened AllocationLaws
  import opened EngagementRules
  import opened RetaskLaws

  // ---------------------------------------------------------------- what a pair is worth

  /** The speed an interceptor is reckoned with: its own, or the default when it stands still, and at least 1. */
  ghost function Pace(cfg: Config, i: InterceptorFact): (v: real)
    ensures v >= 1.0
  {
    if i.speed > 1.0 then i.speed
    else if i.speed > 0.0 || cfg.defaultSpeed <= 1.0 then 1.0
    else cfg.defaultSpeed
  }

  ghost function Yardstick(cfg: Config): (n: real)
    ensures n >= 1.0
  {
    if cfg.distanceNormalizer > 1.0 then cfg.distanceNormalizer else 1.0
  }

  /** What a track is worth wherever it is. */
  ghost function Merit(cfg: Config, t: TrackFact): real {
    cfg.priorityWeight * t.priority + cfg.confidenceWeight * t.confidence
  }

  /** What it costs to send an interceptor d metres. */
  ghost function Toll(cfg: Config, i: InterceptorFact, d: real): real {
    cfg.interceptTimeWeight * (d / Pace(cfg, i)) + cfg.distanceWeight * (d / Yardstick(cfg))
  }

  /** The score of a pair d apart. */
  lemma {:induction false} ScoreTells(cfg: Config, t: TrackFact, i: InterceptorFact, d: real)
    requires IsSqrt(cfg.sqrt) && Apart(t.position, i.position, d)
    ensures PairScore(cfg, t, i) == Merit(cfg, t) - Toll(cfg, i, d)
  {
    hide Distance, Apart, IsSqrt;
    DistanceIs(cfg.sqrt, t.position, i.position, d);
  }

  lemma {:induction false} AreApart(cfg: Config, a: Vec3, b: Vec3) returns (d: real)
    requires IsSqrt(cfg.sqrt)
    ensures Apart(a, b, d)
  {
    d := Distance(cfg.sqrt, a, b);
    DistanceIs(cfg.sqrt, a, b, d);
  }

  // ---------------------------------------------------------------- which tracks are open

  /** The conditions on a track for an interceptor to be sent there this tick. */
  ghost predicate MayBeEngaged(cfg: Config, mem: Memory, snap: Snapshot, t: TrackFact) {
    && t in snap.tracks && t.status == Confirmed
    && t.score > cfg.engageScoreThreshold && t.confidence >= cfg.minConfidence
    && (forall h | h in snap.sensorHealth :: h.active && !h.stale)
    && (forall d | Apart(t.position, ORIGIN, d) :: cfg.noEngageRadius <= d <= cfg.maxEngagementRange)
    && (mem.lastDeniedTrackId == t.trackId ==> snap.time >= mem.denialCooldownUntil)
    && StableTicksFor(mem.stables, t.trackId) + 1 >= cfg.stableTicks
    && (forall i | i in snap.interceptors :: !(i.engaged && i.targetId == t.trackId))
  }

  lemma {:induction false} InRangeTells(cfg: Config, p: Vec3)
    requires IsSqrt(cfg.sqrt)
    ensures InRange(cfg, p) <==> forall d | Apart(p, ORIGIN, d) :: cfg.noEngageRadius <= d <= cfg.maxEngagementRange
  {
    hide Distance, Apart;
    var r := AreApart(cfg, p, ORIGIN);
    forall d | Apart(p, ORIGIN, d) ensures d == Distance(cfg.sqrt, p, ORIGIN) {
      DistanceIs(cfg.sqrt, p, ORIGIN, d);
    }
  }

  /** The memory of a tick holds a live track exactly when some interceptor is engaged on it. */
  lemma {:induction false} KeptTells(cfg: Config, mem: Memory, snap: Snapshot, t: TrackFact)
    requires WellFormed(snap) && t in snap.tracks && t.status != Deleted
    ensures IsEngaged(Kept(cfg, mem, snap), t.trackId) <==>
            exists i :: i in snap.interceptors && i.engaged && i.targetId == t.trackId
  {
    var survivors := Survivors(mem, snap);
    var kept := Kept(cfg, mem, snap);
    SurvivorsAreMaintained(cfg, snap, survivors);
    hide MaintainAll, Reconciled, Merged, WellFormed, Kept;
    if IsEngaged(kept, t.trackId) {
      var k := ActiveIndex(kept, t.trackId);
      assert survivors[k] in survivors;
      SurvivorAgrees(snap, survivors[k]);
    }
    if i :| i in snap.interceptors && i.engaged && i.targetId == t.trackId {
      var a := EngagedIsRemembered(mem.actives, snap, i);
      var k :| 0 <= k < |survivors| && survivors[k] == a;
      assert kept[k].trackId == t.trackId;
    }
  }

  /** An open track is one that meets the conditions. */
  lemma {:induction false} OpenTells(cfg: Config, mem: Memory, snap: Snapshot, t: TrackFact)
    requires WellFormed(snap) && IsSqrt(cfg.sqrt) && t in snap.tracks
    ensures Open(SceneOf(cfg, mem, snap), Kept(cfg, mem, snap), t) <==> MayBeEngaged(cfg, mem, snap, t)
  {
    NextStableTicks(mem.stables, snap.tracks, t.trackId);
    InRangeTells(cfg, t.position);
    if t.status == Confirmed {
      KeptTells(cfg, mem, snap, t);
    }
    hide Kept, WellFormed, NextStables, StableTicksFor, Apart, InRange, IsEngaged, IsSqrt;
  }

  lemma {:induction false} OpenIfAllowed(cfg: Config, mem: Memory, snap: Snapshot, u: TrackFact)
    requires WellFormed(snap) && IsSqrt(cfg.sqrt) && MayBeEngaged(cfg, mem, snap, u)
    ensures u in snap.tracks && Open(SceneOf(cfg, mem, snap), Kept(cfg, mem, snap), u)
  {
    assert u in snap.tracks;
    hide MayBeEngaged;
    OpenTells(cfg, mem, snap, u);
  }

  // ---------------------------------------------------------------- the greedy loop, command by command

  /** j is not among the interceptors of the first k pairs. */
  ghost predicate Unsent(pairs: seq<Match>, k: nat, j: InterceptorFact)
    requires k <= |pairs|
  {
    forall n | 0 <= n < k :: pairs[n].interceptor.interceptorId != j.interceptorId
  }

  ghost predicate Untaken(pairs: seq<Match>, k: nat, u: TrackFact)
    requires k <= |pairs|
  {
    forall n | 0 <= n < k :: pairs[n].track.trackId != u.trackId
  }

  /** Pair k scores at least as well as any interceptor and track the pairs before it left. */
  lemma {:induction false} PairIsBest(sc: Scene, idle: seq<InterceptorFact>, actives: seq<Active>, k: nat,
                                      j: InterceptorFact, u: TrackFact)
    requires k < |Allocate(sc, idle, actives).pairs|
    requires j in idle && Unsent(Allocate(sc, idle, actives).pairs, k, j)
    requires u in sc.snap.tracks && Open(sc, actives, u) && Untaken(Allocate(sc, idle, actives).pairs, k, u)
    ensures PairScore(sc.cfg, u, j) <= Allocate(sc, idle, actives).pairs[k].score
    decreases k
  {
    AllocateUnfolds(sc, idle, actives);
    RoundSelects(sc, idle, actives);
    var pairs := Allocate(sc, idle, actives).pairs;
    hide Allocate, ScanAll, PairScore, IsEngaged, Engageable;
    var c := ScanAll(sc, idle, actives, |idle|).value;
    var r :| 0 <= r < |idle| && idle[r] == j;
    if k == 0 {
      var t :| 0 <= t < |sc.snap.tracks| && sc.snap.tracks[t] == u;
      assert ScoreOf(sc, idle, r, t) <= c.score;
    } else {
      var rest := Rest(sc, idle, actives, c).pairs;
      assert pairs[0].interceptor == idle[c.interceptor] && pairs[0].track == sc.snap.tracks[c.track];
      StillThere(idle, c.interceptor, j);
      OpenAfter(sc, actives,
                NewActive(sc.snap.tracks[c.track].trackId, idle[c.interceptor].interceptorId, sc.snap.time), u);
      forall n | 0 <= n < k - 1
        ensures rest[n].interceptor.interceptorId != j.interceptorId && rest[n].track.trackId != u.trackId
      {
        assert rest[n] == pairs[n+1];
      }
      PairIsBest(sc, Removed(idle, c.interceptor), RestActives(sc, idle, actives, c), k - 1, j, u);
    }
  }

  lemma {:induction false} StillThere(idle: seq<InterceptorFact>, c: nat, j: InterceptorFact)
    requires c < |idle| && j in idle && j != idle[c]
    ensures j in Removed(idle, c)
  {
    var r :| 0 <= r < |idle| && idle[r] == j;
    assert Removed(idle, c)[if r < c then r else r - 1] == j;
  }

  /** An interceptor nobody else flies with, free to be sent. */
  ghost predicate IsFree(snap: Snapshot, i: InterceptorFact) {
    i in snap.interceptors && i.available && !i.engaged
  }

  ghost function Sent(cfg: Config, mem: Memory, snap: Snapshot): seq<Command> {
    Tick(cfg, mem, snap).result.commands
  }

  /** Command k sends interceptor i from d away to track t. */
  ghost predicate Sends(cfg: Config, mem: Memory, snap: Snapshot, k: nat, i: InterceptorFact, t: TrackFact, d: real) {
    && k < |Sent(cfg, mem, snap)| && i in snap.interceptors && MayBeEngaged(cfg, mem, snap, t)
    && Sent(cfg, mem, snap)[k].interceptorId == i.interceptorId && Sent(cfg, mem, snap)[k].trackId == t.trackId
    && Sent(cfg, mem, snap)[k].position == t.position && Apart(t.position, i.position, d)
  }

  /** The commands before number k leave interceptor j and track u. */
  ghost predicate Remain(cfg: Config, mem: Memory, snap: Snapshot, k: nat, j: InterceptorFact, u: TrackFact) {
    && k <= |Sent(cfg, mem, snap)| && IsFree(snap, j) && MayBeEngaged(cfg, mem, snap, u)
    && (forall n | 0 <= n < k ::
          && Sent(cfg, mem, snap)[n].interceptorId != j.interceptorId
          && Sent(cfg, mem, snap)[n].trackId != u.trackId)
  }

  /** The commands of idle interceptors are the pairs of the greedy loop. */
  lemma {:induction false} SentPairs(cfg: Config, mem: Memory, snap: Snapshot, k: nat)
    requires WellFormed(snap) && k < |Sent(cfg, mem, snap)| && Sent(cfg, mem, snap)[k].reason == IdleAssignment
    ensures var pairs := Allocated(cfg, mem, snap).pairs;
            && Sent(cfg, mem, snap) == CommandsOf(pairs)
            && Tick(cfg, mem, snap).result.selectedScore == pairs[0].score
            && Tick(cfg, mem, snap).result.selectedInterceptorId == pairs[0].interceptor.interceptorId
            && Tick(cfg, mem, snap).result.selectedTrackId == pairs[0].track.trackId
  {
    TickCommands(cfg, mem, snap);
    assert Kept(cfg, mem, snap) == MaintainAll(cfg, snap, Prepared(cfg, mem, snap).actives).actives;
  }

  /** The tick reports i, t and their score. */
  ghost predicate Reports(cfg: Config, mem: Memory, snap: Snapshot, i: InterceptorFact, t: TrackFact, d: real) {
    var r := Tick(cfg, mem, snap).result;
    && r.selectedInterceptorId == i.interceptorId && r.selectedTrackId == t.trackId
    && r.selectedScore == Merit(cfg, t) - Toll(cfg, i, d)
  }

  /** Every idle interceptor sent out makes the best pair of what the commands before it left, and the first pair's
      score is the one reported. */
  lemma {:induction false} CommandTells(cfg: Config, mem: Memory, snap: Snapshot, k: nat)
    returns (i: InterceptorFact, t: TrackFact, d: real)
    requires WellFormed(snap) && IsSqrt(cfg.sqrt)
    requires k < |Sent(cfg, mem, snap)| && Sent(cfg, mem, snap)[k].reason == IdleAssignment
    ensures IsFree(snap, i) && Sends(cfg, mem, snap, k, i, t, d)
    ensures k == 0 ==> Reports(cfg, mem, snap, i, t, d)
    ensures forall j, u, e {:trigger Remain(cfg, mem, snap, k, j, u), Apart(u.position, j.position, e)} |
              Remain(cfg, mem, snap, k, j, u) && Apart(u.position, j.position, e) ::
              Merit(cfg, u) - Toll(cfg, j, e) <= Merit(cfg, t) - Toll(cfg, i, d)
  {
    SentPairs(cfg, mem, snap, k);
    var sc, kept, idle := SceneOf(cfg, mem, snap), Kept(cfg, mem, snap), IdleOnes(snap.interceptors);
    var pairs := Allocated(cfg, mem, snap).pairs;
    AllocatePairs(sc, idle, kept);
    hide Tick, Allocate, MayBeEngaged, Apart, Merit, Toll, PairScore, Open, Kept, WellFormed, IsSqrt;
    assert pairs[k] in pairs && IsPair(sc, idle, kept, pairs[k]);
    i, t := pairs[k].interceptor, pairs[k].track;
    d := AreApart(cfg, t.position, i.position);
    ScoreTells(cfg, t, i, d);
    OpenTells(cfg, mem, snap, t);
    forall j, u, e | Remain(cfg, mem, snap, k, j, u) && Apart(u.position, j.position, e)
      ensures Merit(cfg, u) - Toll(cfg, j, e) <= Merit(cfg, t) - Toll(cfg, i, d)
    {
      LeftPair(cfg, mem, snap, k, j, u);
      ScoreTells(cfg, u, j, e);
      PairIsBest(sc, idle, kept, k, j, u);
    }
  }

  lemma {:induction false} LeftPair(cfg: Config, mem: Memory, snap: Snapshot, k: nat, j: InterceptorFact, u: TrackFact)
    requires WellFormed(snap) && IsSqrt(cfg.sqrt) && Remain(cfg, mem, snap, k, j, u)
    requires Sent(cfg, mem, snap) == CommandsOf(Allocated(cfg, mem, snap).pairs)
    ensures var pairs := Allocated(cfg, mem, snap).pairs;
            j in IdleOnes(snap.interceptors) && Unsent(pairs, k, j) && Untaken(pairs, k, u)
    ensures u in snap.tracks && Open(SceneOf(cfg, mem, snap), Kept(cfg, mem, snap), u)
  {
    assert u in snap.tracks;
    OpenTells(cfg, mem, snap, u);
    var sent, pairs := Sent(cfg, mem, snap), Allocated(cfg, mem, snap).pairs;
    hide MayBeEngaged, Tick, Allocate, Open, Kept, WellFormed, IsSqrt;
    forall n | 0 <= n < k
      ensures pairs[n].interceptor.interceptorId != j.interceptorId && pairs[n].track.trackId != u.trackId
    {
      assert sent[n].interceptorId == pairs[n].interceptor.interceptorId;
    }
  }

  /** Nothing is left over: no tick ends with an idle interceptor and an open track both without a command. */
  lemma {:induction false} NothingLeftOver(cfg: Config, mem: Memory, snap: Snapshot, j: InterceptorFact, u: TrackFact)
    requires WellFormed(snap) && IsSqrt(cfg.sqrt) && IsFree(snap, j) && MayBeEngaged(cfg, mem, snap, u)
    ensures exists c :: c in Sent(cfg, mem, snap) && c.reason == IdleAssignment
                        && (c.interceptorId == j.interceptorId || c.trackId == u.trackId)
  {
    var k := PairOfEither(cfg, mem, snap, j, u);
    TickCommands(cfg, mem, snap);
    hide Tick, Allocate, MayBeEngaged, Kept, WellFormed, IsSqrt;
    var c := CommandsOf(Allocated(cfg, mem, snap).pairs)[k];
    assert c in Sent(cfg, mem, snap);
  }

  lemma {:induction false} PairOfEither(cfg: Config, mem: Memory, snap: Snapshot, j: InterceptorFact, u: TrackFact)
    returns (k: nat)
    requires WellFormed(snap) && IsSqrt(cfg.sqrt) && IsFree(snap, j) && MayBeEngaged(cfg, mem, snap, u)
    ensures var pairs := Allocated(cfg, mem, snap).pairs;
            && k < |pairs|
            && (pairs[k].interceptor.interceptorId == j.interceptorId || pairs[k].track.trackId == u.trackId)
  {
    var sc, kept, idle := SceneOf(cfg, mem, snap), Kept(cfg, mem, snap), IdleOnes(snap.interceptors);
    OpenIfAllowed(cfg, mem, snap, u);
    assert j in idle;
    hide Allocate, MayBeEngaged, PairScore, Open, Kept, IsSqrt;
    var i :| 0 <= i < |idle| && idle[i] == j;
    var t :| 0 <= t < |snap.tracks| && snap.tracks[t] == u;
    AllocateStable(sc, idle, kept, i, t);
    var pairs := Allocated(cfg, mem, snap).pairs;
    var p :| p in pairs && (p.interceptor == j || p.track == u);
    k :| 0 <= k < |pairs| && pairs[k] == p;
  }

  // ---------------------------------------------------------------- nearest, fastest, worthiest

  /** Sending an interceptor farther never costs less, and costs more when some distance weight is positive. */
  lemma {:induction false} TollGrows(cfg: Config, i: InterceptorFact, j: InterceptorFact, d: real, e: real)
    requires cfg.interceptTimeWeight >= 0.0 && cfg.distanceWeight >= 0.0 && Pace(cfg, j) <= Pace(cfg, i)
    requires 0.0 <= d <= e
    ensures Toll(cfg, i, d) <= Toll(cfg, j, e)
    ensures d < e && (cfg.interceptTimeWeight > 0.0 || cfg.distanceWeight > 0.0) ==> Toll(cfg, i, d) < Toll(cfg, j, e)
    ensures 0.0 < d && cfg.interceptTimeWeight > 0.0 && Pace(cfg, j) < Pace(cfg, i) ==>
              Toll(cfg, i, d) < Toll(cfg, j, e)
  {
    hide Pace, Yardstick;
    QuotientGrows(d, Pace(cfg, i), e, Pace(cfg, j));
    QuotientGrows(d, Yardstick(cfg), e, Yardstick(cfg));
    Weighted(cfg.interceptTimeWeight, d / Pace(cfg, i), e / Pace(cfg, j));
    Weighted(cfg.distanceWeight, d / Yardstick(cfg), e / Yardstick(cfg));
  }

  lemma {:induction false} QuotientGrows(d: real, v: real, e: real, w: real)
    requires 0.0 <= d <= e && 1.0 <= w <= v
    ensures d / v <= e / w && (d < e || (0.0 < d && w < v) ==> d / v < e / w)
  {
    var x, y := d / v, e / w;
    Interceptors.QuotientTimes(d, v);
    Interceptors.QuotientTimes(e, w);
    assert x >= 0.0 by {
      NotNegative(x, v, d);
    }
    Compare(x, v, y, w);
    if x == y {
      Weighted(x, w, v);
    }
  }

  lemma {:induction false} NotNegative(x: real, v: real, d: real)
    requires x * v == d && v > 0.0 && d >= 0.0
    ensures x >= 0.0
  {
  }

  lemma {:induction false} Compare(x: real, v: real, y: real, w: real)
    requires x >= 0.0 && 0.0 < w <= v && x * v <= y * w
    ensures x <= y
  {
    if y < x {
      Outgrows(x, v, y, w);
    }
  }

  lemma {:induction false} Outgrows(x: real, v: real, y: real, w: real)
    requires x >= 0.0 && 0.0 < w <= v && y < x
    ensures x * v > y * w
  {
    Weighted(x, w, v);
    assert (x - y) * w > 0.0;
  }

  lemma {:induction false} Weighted(a: real, x: real, y: real)
    requires a >= 0.0 && x <= y
    ensures a * x <= a * y && (a > 0.0 && x < y ==> a * x < a * y)
  {
    assert a * (y - x) >= 0.0;
    assert a > 0.0 && x < y ==> a * (y - x) > 0.0;
  }

  /** The interceptor and the track of a command, when they are known. */
  lemma {:induction false} AsSent(cfg: Config, mem: Memory, snap: Snapshot, k: nat, i: InterceptorFact, t: TrackFact,
                                  d: real)
    requires WellFormed(snap) && IsSqrt(cfg.sqrt) && Sends(cfg, mem, snap, k, i, t, d)
    requires Sent(cfg, mem, snap)[k].reason == IdleAssignment
    ensures IsFree(snap, i)
    ensures k == 0 ==> Reports(cfg, mem, snap, i, t, d)
    ensures forall j, u, e {:trigger Remain(cfg, mem, snap, k, j, u), Apart(u.position, j.position, e)} |
              Remain(cfg, mem, snap, k, j, u) && Apart(u.position, j.position, e) ::
              Merit(cfg, u) - Toll(cfg, j, e) <= Merit(cfg, t) - Toll(cfg, i, d)
  {
    hide Tick, Remain, Merit, Toll, Apart, MayBeEngaged;
    var i', t', d' := CommandTells(cfg, mem, snap, k);
    Identified(cfg, mem, snap, k, i, t, d, i', t', d');
  }

  lemma {:induction false} Identified(cfg: Config, mem: Memory, snap: Snapshot, k: nat, i: InterceptorFact,
                                      t: TrackFact, d: real, i': InterceptorFact, t': TrackFact, d': real)
    requires WellFormed(snap) && Sends(cfg, mem, snap, k, i, t, d) && Sends(cfg, mem, snap, k, i', t', d')
    ensures i == i' && t == t' && d == d'
  {
    hide Sent;
    SameInterceptor(snap.interceptors, i, i');
    SameTrack(snap.tracks, t, t');
    OneRoot(d, d');
  }

  /** Of equally fast idle interceptors the one sent to a track is a nearest. */
  lemma {:induction false} NearestIsSent(cfg: Config, mem: Memory, snap: Snapshot, k: nat, i: InterceptorFact,
                                         t: TrackFact, d: real, j: InterceptorFact, e: real)
    requires WellFormed(snap) && IsSqrt(cfg.sqrt) && Sends(cfg, mem, snap, k, i, t, d)
    requires Sent(cfg, mem, snap)[k].reason == IdleAssignment
    requires cfg.interceptTimeWeight >= 0.0 && cfg.distanceWeight >= 0.0
    requires cfg.interceptTimeWeight > 0.0 || cfg.distanceWeight > 0.0
    requires Remain(cfg, mem, snap, k, j, t) && j.speed == i.speed && Apart(t.position, j.position, e)
    ensures d <= e
  {
    hide Tick, Sends, Remain, Sent, WellFormed, IsSqrt, Merit, Toll;
    AsSent(cfg, mem, snap, k, i, t, d);
    DistanceOfSends(cfg, mem, snap, k, i, t, d);
    if e < d {
      TollGrows(cfg, j, i, e, d);
    }
  }

  lemma {:induction false} DistanceOfSends(cfg: Config, mem: Memory, snap: Snapshot, k: nat, i: InterceptorFact,
                                           t: TrackFact, d: real)
    requires Sends(cfg, mem, snap, k, i, t, d)
    ensures d >= 0.0
  {
    hide Tick;
  }

  /** Of equally far idle interceptors the one sent to a track is a fastest, when time counts. */
  lemma {:induction false} FastestIsSent(cfg: Config, mem: Memory, snap: Snapshot, k: nat, i: InterceptorFact,
                                         t: TrackFact, d: real, j: InterceptorFact)
    requires WellFormed(snap) && IsSqrt(cfg.sqrt) && Sends(cfg, mem, snap, k, i, t, d) && d > 0.0
    requires Sent(cfg, mem, snap)[k].reason == IdleAssignment
    requires cfg.interceptTimeWeight > 0.0 && cfg.distanceWeight >= 0.0
    requires Remain(cfg, mem, snap, k, j, t) && Apart(t.position, j.position, d)
    ensures i.speed >= 1.0 ==> j.speed <= i.speed && (j.speed <= 0.0 ==> cfg.defaultSpeed <= i.speed)
    ensures i.speed <= 0.0 && cfg.defaultSpeed >= 1.0 ==> j.speed <= cfg.defaultSpeed
  {
    hide Tick, Sends, Remain, Sent, WellFormed, IsSqrt, Apart, Merit, Toll;
    AsSent(cfg, mem, snap, k, i, t, d);
    if Pace(cfg, i) < Pace(cfg, j) {
      TollGrows(cfg, j, i, d, d);
    }
  }

  /** Of equally far open tracks an idle interceptor is sent to one of greatest weighted priority and confidence. */
  lemma {:induction false} WorthiestIsChosen(cfg: Config, mem: Memory, snap: Snapshot, k: nat, i: InterceptorFact,
                                             t: TrackFact, d: real, u: TrackFact)
    requires WellFormed(snap) && IsSqrt(cfg.sqrt) && Sends(cfg, mem, snap, k, i, t, d)
    requires Sent(cfg, mem, snap)[k].reason == IdleAssignment
    requires Remain(cfg, mem, snap, k, i, u) && Apart(u.position, i.position, d)
    ensures cfg.priorityWeight * u.priority + cfg.confidenceWeight * u.confidence <=
            cfg.priorityWeight * t.priority + cfg.confidenceWeight * t.confidence
  {
    hide Tick, Sends, Remain, Sent, WellFormed, IsSqrt, Apart, Toll;
    MeritDecides(cfg, mem, snap, k, i, t, d, u);
  }

  lemma {:induction false} MeritDecides(cfg: Config, mem: Memory, snap: Snapshot, k: nat, i: InterceptorFact,
                                        t: TrackFact, d: real, u: TrackFact)
    requires WellFormed(snap) && IsSqrt(cfg.sqrt) && Sends(cfg, mem, snap, k, i, t, d)
    requires Sent(cfg, mem, snap)[k].reason == IdleAssignment
    requires Remain(cfg, mem, snap, k, i, u) && Apart(u.position, i.position, d)
    ensures Merit(cfg, u) <= Merit(cfg, t)
  {
    hide Tick, Sends, Remain, Sent, WellFormed, IsSqrt, Apart, Merit, Toll;
    AsSent(cfg, mem, snap, k, i, t, d);
  }

  /** Of equally worthy open tracks an idle interceptor is sent to a nearest. */
  lemma {:induction false} NearestIsChosen(cfg: Config, mem: Memory, snap: Snapshot, k: nat, i: InterceptorFact,
                                           t: TrackFact, d: real, u: TrackFact, e: real)
    requires WellFormed(snap) && IsSqrt(cfg.sqrt) && Sends(cfg, mem, snap, k, i, t, d)
    requires Sent(cfg, mem, snap)[k].reason == IdleAssignment
    requires cfg.interceptTimeWeight >= 0.0 && cfg.distanceWeight >= 0.0
    requires cfg.interceptTimeWeight > 0.0 || cfg.distanceWeight > 0.0
    requires Remain(cfg, mem, snap, k, i, u) && u.priority == t.priority && u.confidence == t.confidence
    requires Apart(u.position, i.position, e)
    ensures d <= e
  {
    hide Tick, Sends, Remain, Sent, WellFormed, IsSqrt, Toll;
    AsSent(cfg, mem, snap, k, i, t, d);
    DistanceOfSends(cfg, mem, snap, k, i, t, d);
    if e < d {
      TollGrows(cfg, i, i, e, d);
    }
  }

  // ---------------------------------------------------------------- retasking

  /** Interceptor i flies at track w, f metres off. */
  ghost predicate FliesAt(snap: Snapshot, i: InterceptorFact, w: TrackFact, f: real) {
    && i in snap.interceptors && i.engaged && i.targetId == w.trackId
    && w in snap.tracks && w.status != Deleted && Apart(w.position, i.position, f)
  }

  /** Nobody else flies at the target of i. */
  ghost predicate FliesAlone(snap: Snapshot, i: InterceptorFact) {
    forall x | x in snap.interceptors && x.engaged && x.targetId == i.targetId :: x == i
  }

  /** What interceptor i gains by leaving w, f off, for u, e off. */
  ghost function GainTold(cfg: Config, i: InterceptorFact, w: TrackFact, f: real, u: TrackFact, e: real): real {
    Merit(cfg, u) - Toll(cfg, i, e) - (Merit(cfg, w) - Toll(cfg, i, f))
  }

  /** An entry of the memory kept in a tick names a live track and the interceptor engaged on it. */
  lemma {:induction false} KeptIsFlight(cfg: Config, mem: Memory, snap: Snapshot, a: nat) returns (f: real)
    requires WellFormed(snap) && IsSqrt(cfg.sqrt) && a < |Kept(cfg, mem, snap)|
    requires CanSwap(SceneOf(cfg, mem, snap), Kept(cfg, mem, snap), a)
    ensures var kept := Kept(cfg, mem, snap);
            var i := FindInterceptor(snap.interceptors, kept[a].interceptorId).value;
            var w := FindLive(snap.tracks, kept[a].trackId).value;
            i.interceptorId == kept[a].interceptorId && FliesAt(snap, i, w, f)
  {
    var kept := Kept(cfg, mem, snap);
    KeptIsEngaged(cfg, mem, snap, a);
    hide Kept, Apart, IsSqrt;
    var x :| x in snap.interceptors && x.interceptorId == kept[a].interceptorId && x.engaged
      && x.targetId == kept[a].trackId;
    var i := FindInterceptor(snap.interceptors, kept[a].interceptorId).value;
    var w := FindLive(snap.tracks, kept[a].trackId).value;
    SameInterceptor(snap.interceptors, x, i);
    f := AreApart(cfg, w.position, i.position);
  }

  lemma {:induction false} KeptIsEngaged(cfg: Config, mem: Memory, snap: Snapshot, a: nat)
    requires a < |Kept(cfg, mem, snap)|
    ensures var kept := Kept(cfg, mem, snap);
            EngagedWith(snap.interceptors, kept[a].interceptorId, kept[a].trackId)
  {
    var survivors := Survivors(mem, snap);
    SurvivorsAreMaintained(cfg, snap, survivors);
    hide MaintainAll, Reconciled, Merged, RemovalOf, IsMaintained;
    assert survivors[a] in survivors;
    SurvivorAgrees(snap, survivors[a]);
  }

  /** A lone flight has its entry. */
  lemma {:induction false} FlightIsKept(cfg: Config, mem: Memory, snap: Snapshot, j: InterceptorFact, w: TrackFact,
                                        g: real) returns (a: nat)
    requires WellFormed(snap) && FliesAt(snap, j, w, g) && FliesAlone(snap, j)
    ensures var kept := Kept(cfg, mem, snap);
            && a < |kept|
            && FindInterceptor(snap.interceptors, kept[a].interceptorId) == Some(j)
            && FindLive(snap.tracks, kept[a].trackId) == Some(w)
  {
    var survivors, kept := Survivors(mem, snap), Kept(cfg, mem, snap);
    SurvivorsAreMaintained(cfg, snap, survivors);
    hide MaintainAll, Reconciled, Merged, Kept, Apart;
    var entry := EngagedIsRemembered(mem.actives, snap, j);
    a :| 0 <= a < |survivors| && survivors[a] == entry;
    SameInterceptor(snap.interceptors, FindInterceptor(snap.interceptors, kept[a].interceptorId).value, j);
    SameTrack(snap.tracks, FindLive(snap.tracks, kept[a].trackId).value, w);
  }

  lemma {:induction false} SwapGains(cfg: Config, mem: Memory, snap: Snapshot, a: nat, i: InterceptorFact, w: TrackFact,
                                     f: real, u: TrackFact, e: real)
    requires WellFormed(snap) && IsSqrt(cfg.sqrt) && a < |Kept(cfg, mem, snap)|
    requires FindInterceptor(snap.interceptors, Kept(cfg, mem, snap)[a].interceptorId) == Some(i)
    requires FindLive(snap.tracks, Kept(cfg, mem, snap)[a].trackId) == Some(w)
    requires Apart(w.position, i.position, f) && Apart(u.position, i.position, e)
    ensures GainOf(SceneOf(cfg, mem, snap), Kept(cfg, mem, snap), a, u) == GainTold(cfg, i, w, f, u, e)
  {
    hide Kept, PairScore, Merit, Toll, Apart, IsSqrt, FindInterceptor, FindLive;
    ScoreTells(cfg, u, i, e);
    ScoreTells(cfg, w, i, f);
  }

  lemma {:induction false} RetaskCase(cfg: Config, mem: Memory, snap: Snapshot)
    requires WellFormed(snap) && Sent(cfg, mem, snap) != [] && Sent(cfg, mem, snap)[0].reason == RetaskAssignment
    ensures Allocated(cfg, mem, snap).pairs == [] && Kept(cfg, mem, snap) != [] && IdleOnes(snap.interceptors) == []
    ensures ChosenSwap(SceneOf(cfg, mem, snap), Kept(cfg, mem, snap)).Some?
    ensures MaintainAll(cfg, snap, Survivors(mem, snap)).maintained
  {
    TickCommands(cfg, mem, snap);
    SurvivorsAreMaintained(cfg, snap, Survivors(mem, snap));
    hide Tick, Allocate, ChosenSwap, MaintainAll;
  }

  /** A retask is the chosen swap. */
  lemma {:induction false} RetaskReport(cfg: Config, mem: Memory, snap: Snapshot)
    requires WellFormed(snap) && Sent(cfg, mem, snap) != [] && Sent(cfg, mem, snap)[0].reason == RetaskAssignment
    ensures ChosenSwap(SceneOf(cfg, mem, snap), Kept(cfg, mem, snap)).Some?
    ensures var s := ChosenSwap(SceneOf(cfg, mem, snap), Kept(cfg, mem, snap)).value;
            var id := Kept(cfg, mem, snap)[s.active].interceptorId;
            var r := Tick(cfg, mem, snap).result;
            && r.commands == [Command(id, s.track.trackId, s.track.position, RetaskAssignment)]
            && r.selectedInterceptorId == id && r.selectedTrackId == s.track.trackId
            && r.selectedScore == s.candidateScore
  {
    RetaskCase(cfg, mem, snap);
    hide WellFormed, ChosenSwap, ScanSwaps, Allocate, MaintainAll, Reconciled, Merged, FallbackOutcome;
    hide AssignedOutcome, IdleOnes, NextStables, BoardAfterReconcile, HighestPriority;
  }

  /** The chosen swap takes an interceptor off its track. */
  lemma {:induction false} SwapTells(cfg: Config, mem: Memory, snap: Snapshot)
    returns (i: InterceptorFact, w: TrackFact, f: real, d: real)
    requires WellFormed(snap) && IsSqrt(cfg.sqrt)
    requires ChosenSwap(SceneOf(cfg, mem, snap), Kept(cfg, mem, snap)).Some?
    ensures var kept := Kept(cfg, mem, snap);
            var s := ChosenSwap(SceneOf(cfg, mem, snap), kept).value;
            && FliesAt(snap, i, w, f) && i.interceptorId == kept[s.active].interceptorId
            && MayBeEngaged(cfg, mem, snap, s.track) && Apart(s.track.position, i.position, d)
            && Gain(s) == GainTold(cfg, i, w, f, s.track, d)
            && s.candidateScore == Merit(cfg, s.track) - Toll(cfg, i, d)
  {
    hide ChosenSwap, MayBeEngaged, Apart, Merit, Toll, PairScore, Open, Kept, WellFormed, IsSqrt;
    hide FindInterceptor, FindLive, FliesAt;
    var sc, kept := SceneOf(cfg, mem, snap), Kept(cfg, mem, snap);
    ChosenSwapIsBest(sc, kept);
    var s := ChosenSwap(sc, kept).value;
    i := FindInterceptor(snap.interceptors, kept[s.active].interceptorId).value;
    w := FindLive(snap.tracks, kept[s.active].trackId).value;
    f := KeptIsFlight(cfg, mem, snap, s.active);
    d := AreApart(cfg, s.track.position, i.position);
    OpenTells(cfg, mem, snap, s.track);
    ScoreTells(cfg, s.track, i, d);
    FlightDistance(snap, i, w, f);
    ScoreTells(cfg, w, i, f);
  }

  lemma {:induction false} FlightDistance(snap: Snapshot, i: InterceptorFact, w: TrackFact, f: real)
    requires FliesAt(snap, i, w, f)
    ensures f >= 0.0 && Apart(w.position, i.position, f)
  {
  }

  /** No lone flight gains more by any swap than the chosen one, or the margin when none is chosen. */
  lemma {:induction false} LoneFlightGains(cfg: Config, mem: Memory, snap: Snapshot, j: InterceptorFact, v: TrackFact,
                                           g: real, u: TrackFact, e: real)
    requires WellFormed(snap) && IsSqrt(cfg.sqrt)
    requires FliesAt(snap, j, v, g) && FliesAlone(snap, j) && MayBeEngaged(cfg, mem, snap, u)
    requires Apart(u.position, j.position, e)
    ensures var s := ChosenSwap(SceneOf(cfg, mem, snap), Kept(cfg, mem, snap));
            if s.Some? then GainTold(cfg, j, v, g, u, e) <= Gain(s.value)
            else GainTold(cfg, j, v, g, u, e) < cfg.retaskMargin
  {
    hide ChosenSwap, MayBeEngaged, Apart, Open, Kept, WellFormed, IsSqrt, FliesAlone;
    hide FindInterceptor, FindLive, FliesAt, GainTold, GainOf, IsSwap;
    FlightDistance(snap, j, v, g);
    var a := FlightIsKept(cfg, mem, snap, j, v, g);
    OpenIfAllowed(cfg, mem, snap, u);
    SwapGains(cfg, mem, snap, a, j, v, g, u, e);
    ChosenSwapIsBest(SceneOf(cfg, mem, snap), Kept(cfg, mem, snap));
  }

  /** The command of a retask sends its interceptor where it gains most, and at least the margin. */
  lemma {:induction false} RetaskTells(cfg: Config, mem: Memory, snap: Snapshot)
    returns (i: InterceptorFact, w: TrackFact, f: real, t: TrackFact, d: real)
    requires WellFormed(snap) && IsSqrt(cfg.sqrt)
    requires Sent(cfg, mem, snap) != [] && Sent(cfg, mem, snap)[0].reason == RetaskAssignment
    ensures |Sent(cfg, mem, snap)| == 1 && FliesAt(snap, i, w, f) && Sends(cfg, mem, snap, 0, i, t, d)
    ensures Reports(cfg, mem, snap, i, t, d)
    ensures GainTold(cfg, i, w, f, t, d) >= cfg.retaskMargin
    ensures forall j, v, g, u, e | FliesAt(snap, j, v, g) && FliesAlone(snap, j) && MayBeEngaged(cfg, mem, snap, u)
                                   && Apart(u.position, j.position, e) ::
              GainTold(cfg, j, v, g, u, e) <= GainTold(cfg, i, w, f, t, d)
  {
    RetaskReport(cfg, mem, snap);
    i, w, f, d := SwapTells(cfg, mem, snap);
    var s := ChosenSwap(SceneOf(cfg, mem, snap), Kept(cfg, mem, snap)).value;
    hide Tick, MayBeEngaged, Apart, Kept, WellFormed, IsSqrt, FliesAlone, GainTold, Merit, Toll, ScanSwaps;
    t := s.track;
    forall j, v, g, u, e | FliesAt(snap, j, v, g) && FliesAlone(snap, j) && MayBeEngaged(cfg, mem, snap, u)
                           && Apart(u.position, j.position, e)
      ensures GainTold(cfg, j, v, g, u, e) <= GainTold(cfg, i, w, f, t, d)
    {
      LoneFlightGains(cfg, mem, snap, j, v, g, u, e);
    }
  }

  /** A retask to a track of the same priority and confidence goes to a nearer one. */
  lemma {:induction false} RetaskGoesNearer(cfg: Config, mem: Memory, snap: Snapshot)
    returns (i: InterceptorFact, w: TrackFact, f: real, t: TrackFact, d: real)
    requires WellFormed(snap) && IsSqrt(cfg.sqrt) && cfg.retaskMargin > 0.0
    requires cfg.interceptTimeWeight >= 0.0 && cfg.distanceWeight >= 0.0
    requires Sent(cfg, mem, snap) != [] && Sent(cfg, mem, snap)[0].reason == RetaskAssignment
    ensures FliesAt(snap, i, w, f) && Sends(cfg, mem, snap, 0, i, t, d)
    ensures t.priority == w.priority && t.confidence == w.confidence ==> d < f
  {
    hide Tick, Sent, Sends, FliesAt, WellFormed, IsSqrt, Toll, Reports;
    i, w, f, t, d := RetaskTells(cfg, mem, snap);
    FlightDistance(snap, i, w, f);
    if t.priority == w.priority && t.confidence == w.confidence && f <= d {
      TollGrows(cfg, i, i, f, d);
    }
  }

  /** With nobody idle, no command means no lone flight would gain the margin elsewhere. */
  lemma {:induction false} RetaskDeclined(cfg: Config, mem: Memory, snap: Snapshot, j: InterceptorFact, v: TrackFact,
                                          g: real, u: TrackFact, e: real)
    requires WellFormed(snap) && IsSqrt(cfg.sqrt) && Sent(cfg, mem, snap) == []
    requires forall i | i in snap.interceptors :: !IsFree(snap, i)
    requires FliesAt(snap, j, v, g) && FliesAlone(snap, j) && MayBeEngaged(cfg, mem, snap, u)
    requires Apart(u.position, j.position, e)
    ensures GainTold(cfg, j, v, g, u, e) < cfg.retaskMargin
  {
    LoneFlightGains(cfg, mem, snap, j, v, g, u, e);
    NoSwapChosen(cfg, mem, snap, j, v, g);
  }

  lemma {:induction false} NoSwapChosen(cfg: Config, mem: Memory, snap: Snapshot, j: InterceptorFact, v: TrackFact,
                                        g: real)
    requires WellFormed(snap) && Sent(cfg, mem, snap) == [] && FliesAt(snap, j, v, g) && FliesAlone(snap, j)
    requires forall i | i in snap.interceptors :: !IsFree(snap, i)
    ensures ChosenSwap(SceneOf(cfg, mem, snap), Kept(cfg, mem, snap)).None?
  {
    var a := FlightIsKept(cfg, mem, snap, j, v, g);
    TickCommands(cfg, mem, snap);
    hide Tick, Allocate, Apart, Kept, WellFormed, FliesAlone, ChosenSwap;
    if IdleOnes(snap.interceptors) != [] {
      IdleIsFree(snap);
    }
  }

  lemma {:induction false} IdleIsFree(snap: Snapshot)
    requires IdleOnes(snap.interceptors) != []
    ensures exists i :: IsFree(snap, i)
  {
    assert IdleOnes(snap.interceptors)[0] in IdleOnes(snap.interceptors);
    assert IsFree(snap, IdleOnes(snap.interceptors)[0]);
  }
}
