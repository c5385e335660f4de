/** One batch of the track manager told by the measurements and the filter's answers alone
    (src/fusion_core/track.cpp:30-64, src/fusion_core/track_manager.cpp:120-292, 518-554). */
module BatchLaws {
  import opened Basics
  import opened Matching
  import opened Association
  import opened Tracks
  import opened TrackLaws

  /** A measurement of this kind with two values and a two by two covariance. */
  ghost predicate Readable(m: Measurement, kind: MeasurementType) {
    m.measurementType == kind && m.zDim == 2 && |m.z| >= 2 && |m.rRowMajor| == 4
  }

  ghost function ToUnit(c: real): real {
    if c < 0.0 then 0.0 else if c > 1.0 then 1.0 else c
  }

  /** c' lies the given number of twentieths of the way from c to the target. */
  ghost predicate Moves(c: real, target: real, twentieths: real, c': real) {
    0.0 <= c <= 1.0 ==> 20.0 * (c' - c) == twentieths * (target - c)
  }

  ghost predicate SameTrace(last: nat, traceId: nat, now: nat) {
    now == if traceId == 0 then last else traceId
  }

  /** v as w after a radar hit by m. */
  ghost predicate HitTells(f: Filter, v: TrackValue, m: Measurement, w: TrackValue) {
    && w.id == v.id && w.status == v.status && f.updateRadar(v.est, m) == Some(w.est)
    && w.q.ageTicks == v.q.ageTicks + 1 && w.q.hits == v.q.hits + 1 && w.q.misses == 0
    && w.q.score == v.q.score + 1.0 && SameTrace(v.q.lastTraceId, m.traceId, w.q.lastTraceId)
    && (v.q.hits == 0 ==> w.q.confidence == ToUnit(m.confidence))
    && (v.q.hits > 0 ==> Moves(v.q.confidence, ToUnit(m.confidence), 6.0, w.q.confidence))
    && 0.0 <= w.q.confidence <= 1.0
  }

  /** v as w after a miss. */
  ghost predicate MissTells(v: TrackValue, w: TrackValue) {
    && w.id == v.id && w.status == v.status && w.est == v.est
    && w.q.ageTicks == v.q.ageTicks + 1 && w.q.hits == v.q.hits && w.q.misses == v.q.misses + 1
    && w.q.score == v.q.score - 0.5 && w.q.lastTraceId == v.q.lastTraceId
    && Moves(v.q.confidence, 0.0, 2.0, w.q.confidence) && 0.0 <= w.q.confidence <= 1.0
  }

  /** v as w after a refinement by m. */
  ghost predicate RefinementTells(f: Filter, v: TrackValue, m: Measurement, w: TrackValue) {
    && w.id == v.id && w.status == v.status && f.updateEoir(v.est, m) == Some(w.est)
    && w.q.ageTicks == v.q.ageTicks && w.q.hits == v.q.hits && w.q.misses == v.q.misses
    && w.q.score == v.q.score + 0.5 && SameTrace(v.q.lastTraceId, m.traceId, w.q.lastTraceId)
    && Moves(v.q.confidence, ToUnit(m.confidence), 3.0, w.q.confidence) && 0.0 <= w.q.confidence <= 1.0
  }

  // ---------------------------------------------------------------- radar

  /** The assigned measurement reaches track t: it is readable and the filter takes it. */
  ghost predicate Reaches(f: Filter, tracks: seq<TrackValue>, batch: seq<Measurement>, radar: seq<nat>, s: seq<int>,
                          t: int)
    requires Assigns(tracks, batch, radar, s)
  {
    && 0 <= t < |tracks| && s[t] >= 0 && Readable(batch[radar[s[t]]], RangeBearing2D)
    && f.updateRadar(tracks[t].est, batch[radar[s[t]]]).Some?
  }

  lemma {:induction false} RadarTells(f: Filter, tracks: seq<TrackValue>, batch: seq<Measurement>, radar: seq<nat>,
                                      s: seq<int>, t: nat)
    requires Assigns(tracks, batch, radar, s) && t < |tracks|
    ensures Reaches(f, tracks, batch, radar, s, t) <==> IsHit(f, tracks, batch, radar, s, t)
    ensures var w := RadarStage(f, tracks, batch, radar, s)[t];
            if Reaches(f, tracks, batch, radar, s, t) then HitTells(f, tracks[t], batch[radar[s[t]]], w)
            else MissTells(tracks[t], w)
  {
  }

  /** What a created track is. */
  ghost predicate NewTells(f: Filter, id: nat, m: Measurement, w: TrackValue) {
    && w.id == id && w.status == Tentative && w.est == f.seed(m)
    && w.q.ageTicks == 1 && w.q.hits == 1 && w.q.misses == 0 && w.q.score == 1.0
    && w.q.confidence == ToUnit(m.confidence) && SameTrace(0, m.traceId, w.q.lastTraceId)
  }

  /** Radar measurement number k starts a track: readable, confident enough, and no track was updated by it. */
  ghost predicate Starts(f: Filter, tracks: seq<TrackValue>, batch: seq<Measurement>, radar: seq<nat>, s: seq<int>,
                         k: int)
    requires Assigns(tracks, batch, radar, s)
  {
    && 0 <= k < |radar| && Readable(batch[radar[k]], RangeBearing2D) && batch[radar[k]].confidence >= 0.3
    && forall t | Reaches(f, tracks, batch, radar, s, t) :: s[t] != k
  }

  /** The created tracks are the starting measurements in order, with consecutive ids. */
  ghost predicate CreationTells(f: Filter, st: State, batch: seq<Measurement>, radar: seq<nat>, s: seq<int>,
                                seeds: seq<int>, created: seq<TrackValue>)
    requires Assigns(st.tracks, batch, radar, s)
  {
    && |created| == |seeds|
    && (forall i, j | 0 <= i < j < |seeds| :: seeds[i] < seeds[j])
    && (forall k :: k in seeds <==> Starts(f, st.tracks, batch, radar, s, k))
    && (forall i | 0 <= i < |seeds| :: 0 <= seeds[i] < |radar| &&
          NewTells(f, st.nextId + i, batch[radar[seeds[i]]], created[i]))
  }

  lemma {:induction false} StartsMeans(f: Filter, tracks: seq<TrackValue>, batch: seq<Measurement>, radar: seq<nat>,
                                       s: seq<int>, k: nat)
    requires Assigns(tracks, batch, radar, s) && k < |radar|
    ensures Starts(f, tracks, batch, radar, s, k) <==> Seeds(f, tracks, batch, radar, s, k)
  {
    if t :| 0 <= t < |tracks| && s[t] == k && IsHit(f, tracks, batch, radar, s, t) {
      assert Reaches(f, tracks, batch, radar, s, t);
    }
  }

  lemma {:induction false} SeedsListed(f: Filter, tracks: seq<TrackValue>, batch: seq<Measurement>, radar: seq<nat>,
                                       s: seq<int>, k: nat, n: nat)
    requires Assigns(tracks, batch, radar, s) && k < n <= |radar| && Seeds(f, tracks, batch, radar, s, k)
    ensures k in SeedNumbers(f, tracks, batch, radar, s, n)
  {
    hide Seeds;
    if k < n - 1 {
      SeedsListed(f, tracks, batch, radar, s, k, n - 1);
    }
  }

  lemma {:induction false} NewbornTells(f: Filter, id: nat, m: Measurement)
    ensures NewTells(f, id, m, Newborn(f, id, m))
  {
  }

  lemma {:induction false} CreatedTells(f: Filter, st: State, batch: seq<Measurement>, radar: seq<nat>, s: seq<int>)
    returns (seeds: seq<int>)
    requires Assigns(st.tracks, batch, radar, s)
    ensures CreationTells(f, st, batch, radar, s, seeds,
                          Created(f, st.tracks, batch, radar, s, st.nextId, |radar|))
  {
    hide Starts, Seeds, NewTells, Newborn;
    var created := Created(f, st.tracks, batch, radar, s, st.nextId, |radar|);
    seeds := SeedNumbers(f, st.tracks, batch, radar, s, |radar|);
    SeedNumbersCount(f, st.tracks, batch, radar, s, st.nextId, |radar|);
    forall k ensures k in seeds <==> Starts(f, st.tracks, batch, radar, s, k) {
      if 0 <= k < |radar| {
        StartsMeans(f, st.tracks, batch, radar, s, k);
        if Seeds(f, st.tracks, batch, radar, s, k) {
          SeedsListed(f, st.tracks, batch, radar, s, k, |radar|);
        }
      } else {
        StartsInRange(f, st.tracks, batch, radar, s, k);
      }
    }
    forall i | 0 <= i < |seeds| ensures NewTells(f, st.nextId + i, batch[radar[seeds[i]]], created[i]) {
      NewbornTells(f, st.nextId + i, batch[radar[seeds[i]]]);
    }
  }

  lemma {:induction false} StartsInRange(f: Filter, tracks: seq<TrackValue>, batch: seq<Measurement>,
                                         radar: seq<nat>, s: seq<int>, k: int)
    requires Assigns(tracks, batch, radar, s)
    ensures Starts(f, tracks, batch, radar, s, k) ==> 0 <= k < |radar|
  {
  }

  // ---------------------------------------------------------------- refinement

  /** The angular measurement m refines track t: it is readable, t is the first of least passing cost, and the filter
      takes it. */
  ghost predicate Refines(f: Filter, tracks: seq<TrackValue>, m: Measurement, t: int) {
    && 0 <= t < |tracks| && Readable(m, BearingElevation) && f.gateEoir(tracks[t].est, m).Some?
    && (forall u | 0 <= u < |tracks| && f.gateEoir(tracks[u].est, m).Some? ::
          && f.gateEoir(tracks[t].est, m).value <= f.gateEoir(tracks[u].est, m).value
          && (u < t ==> f.gateEoir(tracks[t].est, m).value < f.gateEoir(tracks[u].est, m).value))
    && f.updateEoir(tracks[t].est, m).Some?
  }

  /** One angular measurement takes the tracks to `after`. */
  ghost predicate StepTells(f: Filter, tracks: seq<TrackValue>, m: Measurement, after: seq<TrackValue>) {
    && |after| == |tracks|
    && forall t | 0 <= t < |tracks| ::
         if Refines(f, tracks, m, t) then RefinementTells(f, tracks[t], m, after[t]) else after[t] == tracks[t]
  }

  lemma {:induction false} RefinedMeans(f: Filter, tracks: seq<TrackValue>, m: Measurement, t: nat)
    requires t < |tracks|
    ensures Refines(f, tracks, m, t) <==> Refined(f, tracks, m) == t
  {
    hide BestTrack;
  }

  lemma {:induction false} RefinementStep(f: Filter, tracks: seq<TrackValue>, m: Measurement)
    ensures StepTells(f, tracks, m, AfterRefinement(f, tracks, m))
  {
    hide Refines, Refined;
    forall t | 0 <= t < |tracks| ensures Refines(f, tracks, m, t) <==> Refined(f, tracks, m) == t {
      RefinedMeans(f, tracks, m, t);
    }
  }

  /** The lists the angular measurements of a batch take the tracks through, one after the other. */
  ghost predicate ChainTells(f: Filter, batch: seq<Measurement>, eoir: seq<nat>, lists: seq<seq<TrackValue>>)
    requires forall j | 0 <= j < |eoir| :: eoir[j] < |batch|
  {
    && |lists| == |eoir| + 1
    && forall j | 0 <= j < |eoir| :: StepTells(f, lists[j], batch[eoir[j]], lists[j+1])
  }

  ghost function Stages(f: Filter, tracks: seq<TrackValue>, batch: seq<Measurement>, eoir: seq<nat>)
    : (r: seq<seq<TrackValue>>)
    requires forall j | 0 <= j < |eoir| :: eoir[j] < |batch|
    ensures |r| == |eoir| + 1 && forall j | 0 <= j < |r| :: r[j] == EoirStage(f, tracks, batch, eoir, j)
  {
    seq(|eoir| + 1, j requires 0 <= j < |eoir| + 1 => EoirStage(f, tracks, batch, eoir, j))
  }

  lemma {:induction false} StagesTell(f: Filter, tracks: seq<TrackValue>, batch: seq<Measurement>, eoir: seq<nat>)
    requires forall j | 0 <= j < |eoir| :: eoir[j] < |batch|
    ensures ChainTells(f, batch, eoir, Stages(f, tracks, batch, eoir))
  {
    hide StepTells, AfterRefinement;
    var lists := Stages(f, tracks, batch, eoir);
    forall j | 0 <= j < |eoir| ensures StepTells(f, lists[j], batch[eoir[j]], lists[j+1]) {
      RefinementStep(f, lists[j], batch[eoir[j]]);
    }
  }

  /** Some of the first k angular measurements refined track t. */
  ghost predicate WasRefined(f: Filter, batch: seq<Measurement>, eoir: seq<nat>, lists: seq<seq<TrackValue>>, t: int,
                             k: nat)
    requires k <= |eoir| < |lists| && forall j | 0 <= j < |eoir| :: eoir[j] < |batch|
  {
    exists j | 0 <= j < k :: Refines(f, lists[j], batch[eoir[j]], t)
  }

  lemma {:induction false} FlagsTell(f: Filter, tracks: seq<TrackValue>, batch: seq<Measurement>, eoir: seq<nat>,
                                     t: nat, k: nat)
    requires k <= |eoir| && t < |tracks| && forall j | 0 <= j < |eoir| :: eoir[j] < |batch|
    ensures EoirFlags(f, tracks, batch, eoir, k)[t] <==>
            WasRefined(f, batch, eoir, Stages(f, tracks, batch, eoir), t, k)
  {
    hide Refines, Refined, EoirStage;
    if k > 0 {
      FlagsTell(f, tracks, batch, eoir, t, k - 1);
      var lists := Stages(f, tracks, batch, eoir);
      RefinedMeans(f, lists[k-1], batch[eoir[k-1]], t);
      WasRefinedStep(f, batch, eoir, lists, t, k);
    }
  }

  lemma {:induction false} WasRefinedStep(f: Filter, batch: seq<Measurement>, eoir: seq<nat>,
                                          lists: seq<seq<TrackValue>>, t: int, k: nat)
    requires 0 < k <= |eoir| < |lists| && forall j | 0 <= j < |eoir| :: eoir[j] < |batch|
    ensures WasRefined(f, batch, eoir, lists, t, k) <==>
            WasRefined(f, batch, eoir, lists, t, k - 1) || Refines(f, lists[k-1], batch[eoir[k-1]], t)
  {
    hide Refines;
  }

  // ---------------------------------------------------------------- lifecycle

  /** The misses that delete v. */
  ghost function Limit(cfg: Config, v: TrackValue): nat {
    match v.status
    case Confirmed => cfg.confirmedDeleteMisses
    case Tentative => cfg.deleteMisses
    case Deleted => cfg.deleteMisses
  }

  /** v as w after the lifecycle rules: deleted at its limit of misses, else confirmed once hit often enough. */
  ghost predicate LifeTells(cfg: Config, v: TrackValue, w: TrackValue) {
    && w.id == v.id && w.q == v.q && w.est == v.est
    && w.status == (if v.q.misses >= Limit(cfg, v) then Deleted
                    else if v.status == Tentative && v.q.hits >= cfg.confirmHits then Confirmed
                    else v.status)
  }

  lemma {:induction false} SettledTells(cfg: Config, v: TrackValue, w: TrackValue)
    ensures LifeTells(cfg, v, w) <==> w == Settled(cfg, v)
    ensures Dies(cfg, v) <==> v.q.misses >= Limit(cfg, v)
    ensures Matures(cfg, v) <==> !Dies(cfg, v) && v.status == Tentative && v.q.hits >= cfg.confirmHits
  {
  }

  /** w is in `out` exactly when some track before the rules becomes w, and passes the test. */
  ghost predicate Lists(cfg: Config, all: seq<TrackValue>, out: seq<TrackValue>, test: (TrackValue, TrackValue) -> bool)
  {
    forall w :: w in out <==> exists v | v in all :: LifeTells(cfg, v, w) && test(v, w)
  }

  lemma {:induction false} ListsStep(cfg: Config, all: seq<TrackValue>, out: seq<TrackValue>,
                                     next: seq<TrackValue>, test: (TrackValue, TrackValue) -> bool)
    requires all != [] && Lists(cfg, all[..|all|-1], out, test)
    requires var v := all[|all|-1];
             next == out + if test(v, Settled(cfg, v)) then [Settled(cfg, v)] else []
    ensures Lists(cfg, all, next, test)
  {
    hide LifeTells, Settled;
    var v := all[|all|-1];
    assert all == all[..|all|-1] + [v];
    forall w ensures w in next <==> exists v | v in all :: LifeTells(cfg, v, w) && test(v, w) {
      SettledTells(cfg, v, w);
      assert w in out <==> exists v | v in all[..|all|-1] :: LifeTells(cfg, v, w) && test(v, w);
    }
  }

  predicate StaysOn(v: TrackValue, w: TrackValue) {
    w.status != Deleted
  }

  predicate IsDeleted(v: TrackValue, w: TrackValue) {
    w.status == Deleted
  }

  predicate IsConfirmed(v: TrackValue, w: TrackValue) {
    v.status == Tentative && w.status == Confirmed
  }

  lemma {:induction false} SurvivorsTell(cfg: Config, all: seq<TrackValue>)
    ensures Lists(cfg, all, Survivors(SettleAll(cfg, all)), StaysOn)
  {
    hide Lists, Settled;
    if all == [] {
      NothingLists(cfg, StaysOn);
    } else {
      var n := |all| - 1;
      SurvivorsTell(cfg, all[..n]);
      assert SettleAll(cfg, all)[..n] == SettleAll(cfg, all[..n]);
      ListsStep(cfg, all, Survivors(SettleAll(cfg, all[..n])), Survivors(SettleAll(cfg, all)), StaysOn);
    }
  }

  lemma {:induction false} NothingLists(cfg: Config, test: (TrackValue, TrackValue) -> bool)
    ensures Lists(cfg, [], [], test)
  {
  }

  /** The reports of deletions and confirmations, for tracks not yet deleted. */
  lemma {:induction false} ReportsTell(cfg: Config, all: seq<TrackValue>)
    requires forall v | v in all :: v.status != Deleted
    ensures Lists(cfg, all, Deaths(cfg, all), IsDeleted) && Lists(cfg, all, Confirmations(cfg, all), IsConfirmed)
  {
    hide Lists, Settled, Dies, Matures;
    if all == [] {
      NothingLists(cfg, IsDeleted);
      NothingLists(cfg, IsConfirmed);
    } else {
      var n := |all| - 1;
      ReportsTell(cfg, all[..n]);
      TestsMean(cfg, all[n]);
      ListsStep(cfg, all, Deaths(cfg, all[..n]), Deaths(cfg, all), IsDeleted);
      ListsStep(cfg, all, Confirmations(cfg, all[..n]), Confirmations(cfg, all), IsConfirmed);
    }
  }

  lemma {:induction false} TestsMean(cfg: Config, v: TrackValue)
    requires v.status != Deleted
    ensures IsDeleted(v, Settled(cfg, v)) <==> Dies(cfg, v)
    ensures IsConfirmed(v, Settled(cfg, v)) <==> Matures(cfg, v)
  {
  }

  lemma {:induction false} FlaggedAre(tracks: seq<TrackValue>, flags: seq<bool>, w: TrackValue)
    requires |tracks| == |flags|
    ensures w in Flagged(tracks, flags) <==> exists t | 0 <= t < |tracks| :: tracks[t] == w && flags[t]
  {
    if tracks != [] {
      var n := |tracks| - 1;
      FlaggedAre(tracks[..n], flags[..n], w);
      if t :| 0 <= t < |tracks| && tracks[t] == w && flags[t] {
        assert t == n || (tracks[..n][t] == w && flags[..n][t]);
      }
    }
  }

  lemma {:induction false} MissedAre(f: Filter, tracks: seq<TrackValue>, batch: seq<Measurement>, radar: seq<nat>,
                                     s: seq<int>, k: nat, w: TrackValue)
    requires Assigns(tracks, batch, radar, s) && k <= |tracks|
    ensures w in Coasted(f, tracks, batch, radar, s, k) <==>
            exists t | 0 <= t < k ::
              RadarStage(f, tracks, batch, radar, s)[t] == w && !Reaches(f, tracks, batch, radar, s, t)
  {
    hide Reaches, IsHit, AfterRadar, Assigns;
    if k > 0 {
      MissedAre(f, tracks, batch, radar, s, k - 1, w);
      RadarTells(f, tracks, batch, radar, s, k - 1);
    }
  }

  // ---------------------------------------------------------------- the batch

  ghost function Angular(cfg: Config, batch: seq<Measurement>): (r: seq<nat>)
    ensures forall j | 0 <= j < |r| :: r[j] < |batch|
  {
    if cfg.enableEoir then IndicesOf(batch, BearingElevation) else []
  }

  /** Radar: hits, misses and new tracks, up to the list `grown`. */
  ghost predicate RadarPart(f: Filter, st: State, batch: seq<Measurement>, s: seq<int>, seeds: seq<int>,
                            grown: seq<TrackValue>, next: State)
    requires Assigns(st.tracks, batch, IndicesOf(batch, RangeBearing2D), s)
  {
    var radar, n := IndicesOf(batch, RangeBearing2D), |st.tracks|;
    && CreationTells(f, st, batch, radar, s, seeds, next.deltas.created)
    && next.nextId == st.nextId + |next.deltas.created|
    && |grown| == n + |next.deltas.created| && grown[n..] == next.deltas.created
    && (forall t | 0 <= t < n ::
          if Reaches(f, st.tracks, batch, radar, s, t) then HitTells(f, st.tracks[t], batch[radar[s[t]]], grown[t])
          else MissTells(st.tracks[t], grown[t]))
    && (forall w :: w in next.deltas.coasted <==>
          exists t | 0 <= t < n :: grown[t] == w && !Reaches(f, st.tracks, batch, radar, s, t))
  }

  /** Refinement and lifecycle: from the list `grown` to the next state, through the lists of the chain. */
  ghost predicate LifePart(f: Filter, cfg: Config, st: State, batch: seq<Measurement>, s: seq<int>,
                           lists: seq<seq<TrackValue>>, next: State)
    requires Assigns(st.tracks, batch, IndicesOf(batch, RangeBearing2D), s)
  {
    var radar, eoir := IndicesOf(batch, RangeBearing2D), Angular(cfg, batch);
    && ChainTells(f, batch, eoir, lists)
    && var all := lists[|eoir|];
       && Lists(cfg, all, next.tracks, StaysOn)
       && Lists(cfg, all, next.deltas.deleted, IsDeleted) && Lists(cfg, all, next.deltas.confirmed, IsConfirmed)
       && (forall w :: w in next.deltas.updated <==> exists t | 0 <= t < |all| ::
             all[t] == w
             && (Reaches(f, st.tracks, batch, radar, s, t) || WasRefined(f, batch, eoir, lists, t, |eoir|)))
  }

  lemma {:induction false} RadarPartTells(f: Filter, cfg: Config, st: State, batch: seq<Measurement>, s: seq<int>)
    returns (seeds: seq<int>)
    requires Assigns(st.tracks, batch, IndicesOf(batch, RangeBearing2D), s)
    ensures RadarPart(f, st, batch, s, seeds, Grown(f, st, batch, s), Updated(f, cfg, st, batch, s))
  {
    hide HitTells, MissTells, CreationTells, Created, Coasted, BeforeLifecycle, UpdateFlags, Survivors,
      SettleAll, Obituaries, Aged, WarningsFor, Confirmations, Deaths, Flagged;
    var radar := IndicesOf(batch, RangeBearing2D);
    seeds := CreatedTells(f, st, batch, radar, s);
    var grown, n := Grown(f, st, batch, s), |st.tracks|;
    forall t | 0 <= t < n
      ensures if Reaches(f, st.tracks, batch, radar, s, t) then HitTells(f, st.tracks[t], batch[radar[s[t]]], grown[t])
              else MissTells(st.tracks[t], grown[t])
    {
      RadarTells(f, st.tracks, batch, radar, s, t);
    }
    forall w ensures w in Coasted(f, st.tracks, batch, radar, s, n) <==>
                     exists t | 0 <= t < n :: grown[t] == w && !Reaches(f, st.tracks, batch, radar, s, t)
    {
      MissedAre(f, st.tracks, batch, radar, s, n, w);
      assert forall t | 0 <= t < n :: grown[t] == RadarStage(f, st.tracks, batch, radar, s)[t];
    }
  }

  lemma {:induction false} UpdateFlagTells(f: Filter, cfg: Config, st: State, batch: seq<Measurement>, s: seq<int>,
                                           t: nat)
    requires Assigns(st.tracks, batch, IndicesOf(batch, RangeBearing2D), s) && t < |Grown(f, st, batch, s)|
    ensures var eoir := Angular(cfg, batch);
            UpdateFlags(f, cfg, st, batch, s)[t] <==>
              || Reaches(f, st.tracks, batch, IndicesOf(batch, RangeBearing2D), s, t)
              || WasRefined(f, batch, eoir, Stages(f, Grown(f, st, batch, s), batch, eoir), t, |eoir|)
  {
    hide Reaches, Refines, IsHit, Grown;
    var eoir := Angular(cfg, batch);
    if t < |st.tracks| {
      RadarTells(f, st.tracks, batch, IndicesOf(batch, RangeBearing2D), s, t);
    } else {
      ReachesPrior(f, st.tracks, batch, IndicesOf(batch, RangeBearing2D), s, t);
    }
    FlagsTell(f, Grown(f, st, batch, s), batch, eoir, t, |eoir|);
  }

  lemma {:induction false} ReachesPrior(f: Filter, tracks: seq<TrackValue>, batch: seq<Measurement>, radar: seq<nat>,
                                        s: seq<int>, t: nat)
    requires Assigns(tracks, batch, radar, s) && t >= |tracks|
    ensures !Reaches(f, tracks, batch, radar, s, t)
  {
  }

  lemma {:induction false} LifePartTells(f: Filter, cfg: Config, st: State, batch: seq<Measurement>, s: seq<int>)
    requires Assigns(st.tracks, batch, IndicesOf(batch, RangeBearing2D), s)
    requires forall v | v in st.tracks :: v.status != Deleted
    ensures LifePart(f, cfg, st, batch, s, Stages(f, Grown(f, st, batch, s), batch, Angular(cfg, batch)),
                     Updated(f, cfg, st, batch, s))
  {
    hide Lists, Reaches, WasRefined, Created, Coasted, Grown, UpdateFlags, Survivors, SettleAll, Obituaries, Aged,
      WarningsFor, Confirmations, Deaths, Flagged, EoirStage, ChainTells;
    var eoir := Angular(cfg, batch);
    var lists := Stages(f, Grown(f, st, batch, s), batch, eoir);
    var all := BeforeLifecycle(f, cfg, st, batch, s);
    StagesTell(f, Grown(f, st, batch, s), batch, eoir);
    NothingRefines(f, Grown(f, st, batch, s), batch);
    assert lists[|eoir|] == all;
    SurvivorsTell(cfg, all);
    NobodyDeletedYet(f, cfg, st, batch, s);
    ReportsTell(cfg, all);
    var flags := UpdateFlags(f, cfg, st, batch, s);
    forall w ensures w in Flagged(all, flags) <==> exists t | 0 <= t < |all| ::
        all[t] == w
        && (Reaches(f, st.tracks, batch, IndicesOf(batch, RangeBearing2D), s, t)
            || WasRefined(f, batch, eoir, lists, t, |eoir|))
    {
      FlaggedAre(all, flags, w);
      forall t | 0 <= t < |all|
        ensures flags[t] <==> Reaches(f, st.tracks, batch, IndicesOf(batch, RangeBearing2D), s, t)
                              || WasRefined(f, batch, eoir, lists, t, |eoir|)
      {
        UpdateFlagTells(f, cfg, st, batch, s, t);
      }
    }
  }

  lemma {:induction false} NothingRefines(f: Filter, tracks: seq<TrackValue>, batch: seq<Measurement>)
    ensures EoirStage(f, tracks, batch, [], 0) == tracks
  {
  }

  lemma {:induction false} NobodyDeletedYet(f: Filter, cfg: Config, st: State, batch: seq<Measurement>, s: seq<int>)
    requires Assigns(st.tracks, batch, IndicesOf(batch, RangeBearing2D), s)
    requires forall v | v in st.tracks :: v.status != Deleted
    ensures forall v | v in BeforeLifecycle(f, cfg, st, batch, s) :: v.status != Deleted
  {
    hide BeforeLifecycle, Updated, IsHit;
    var all := BeforeLifecycle(f, cfg, st, batch, s);
    forall v | v in all ensures v.status != Deleted {
      var t :| 0 <= t < |all| && all[t] == v;
      BatchTicks(f, cfg, st, batch, s, t);
    }
  }

  /** A batch from live tracks does what the radar measurements, the angular ones and the lifecycle rules say. */
  lemma {:induction false} BatchIsTold(f: Filter, cfg: Config, st: State, batch: seq<Measurement>, s: seq<int>)
    returns (seeds: seq<int>, lists: seq<seq<TrackValue>>)
    requires Assigns(st.tracks, batch, IndicesOf(batch, RangeBearing2D), s)
    requires forall v | v in st.tracks :: v.status != Deleted
    ensures lists != [] && RadarPart(f, st, batch, s, seeds, lists[0], Updated(f, cfg, st, batch, s))
    ensures LifePart(f, cfg, st, batch, s, lists, Updated(f, cfg, st, batch, s))
  {
    hide RadarPart, LifePart, Updated, Grown;
    seeds := RadarPartTells(f, cfg, st, batch, s);
    lists := Stages(f, Grown(f, st, batch, s), batch, Angular(cfg, batch));
    LifePartTells(f, cfg, st, batch, s);
  }

  /** A prediction moves every estimate by the filter, and nothing else. */
  lemma {:induction false} PredictionTells(f: Filter, st: State, dt: real)
    ensures var next := Predicted(f, st, dt);
            && next.nextId == st.nextId && next.recents == st.recents && next.deltas == st.deltas
            && |next.tracks| == |st.tracks|
            && forall t | 0 <= t < |st.tracks| ::
                 && next.tracks[t].est == f.predict(st.tracks[t].est, dt)
                 && next.tracks[t].id == st.tracks[t].id && next.tracks[t].status == st.tracks[t].status
                 && next.tracks[t].q == st.tracks[t].q
  {
  }

  // ---------------------------------------------------------------- who is matched

  /** Radar measurement number k is readable and passes the gate of track t. */
  ghost predicate Passes(f: Filter, tracks: seq<TrackValue>, batch: seq<Measurement>, radar: seq<nat>, t: int, k: int)
    requires forall j | 0 <= j < |radar| :: radar[j] < |batch|
  {
    && 0 <= t < |tracks| && 0 <= k < |radar| && Readable(batch[radar[k]], RangeBearing2D)
    && f.gateRadar(tracks[t].est, batch[radar[k]]).Some?
  }

  ghost function CostOf(f: Filter, tracks: seq<TrackValue>, batch: seq<Measurement>, radar: seq<nat>, t: int,
                        k: int): real
    requires forall j | 0 <= j < |radar| :: radar[j] < |batch|
    requires Passes(f, tracks, batch, radar, t, k)
  {
    f.gateRadar(tracks[t].est, batch[radar[k]]).value
  }

  lemma {:induction false} PassesMeans(f: Filter, tracks: seq<TrackValue>, batch: seq<Measurement>, radar: seq<nat>,
                                       t: nat, k: nat)
    requires forall j | 0 <= j < |radar| :: radar[j] < |batch|
    requires t < |tracks| && k < |radar|
    ensures Passes(f, tracks, batch, radar, t, k) <==> GatesOf(f, tracks, batch, radar)[t][k].Some?
    ensures Passes(f, tracks, batch, radar, t, k) ==>
              CostOf(f, tracks, batch, radar, t, k) == GatesOf(f, tracks, batch, radar)[t][k].value
  {
    var row := GatesOf(f, tracks, batch, radar)[t];
    assert row[k] == if RadarReadable(batch[radar[k]]) then f.gateRadar(tracks[t].est, batch[radar[k]]) else None;
  }

  /** A matching of tracks with measurements that pass their gates. */
  ghost predicate IsMatching(f: Filter, tracks: seq<TrackValue>, batch: seq<Measurement>, radar: seq<nat>, m: seq<int>)
    requires forall j | 0 <= j < |radar| :: radar[j] < |batch|
  {
    && |m| == |tracks| && IsPartial(m, |radar|)
    && forall t | 0 <= t < |m| && m[t] >= 0 :: Passes(f, tracks, batch, radar, t, m[t])
  }

  lemma {:induction false} MatchingIsGated(f: Filter, tracks: seq<TrackValue>, batch: seq<Measurement>,
                                           radar: seq<nat>, m: seq<int>)
    requires forall j | 0 <= j < |radar| :: radar[j] < |batch|
    ensures IsMatching(f, tracks, batch, radar, m) <==> IsGated(GatesOf(f, tracks, batch, radar), |radar|, m)
  {
    hide Passes, GatesOf;
    if |m| == |tracks| && IsPartial(m, |radar|) {
      forall t | 0 <= t < |m| && m[t] >= 0
        ensures Passes(f, tracks, batch, radar, t, m[t]) <==> GatesOf(f, tracks, batch, radar)[t][m[t]].Some?
      {
        PassesMeans(f, tracks, batch, radar, t, m[t]);
      }
    }
  }

  /** Every match of a batch passes its gate. */
  lemma {:induction false} MatchesPass(f: Filter, cfg: Config, st: State, e: Event)
    requires CanStep(cfg, f, st, e) && e.Batch?
    ensures IsMatching(f, st.tracks, e.batch, IndicesOf(e.batch, RangeBearing2D), e.s)
  {
    hide IsAssociation, IsMatching, GatesOf;
    var radar := IndicesOf(e.batch, RangeBearing2D);
    AssociationIsGated(cfg, GatesOf(f, st.tracks, e.batch, radar), |radar|, e.s);
    MatchingIsGated(f, st.tracks, e.batch, radar, e.s);
  }

  /** On the greedy path each track in turn takes the first cheapest passing measurement earlier tracks left. */
  lemma {:induction false} NearestTaken(f: Filter, cfg: Config, st: State, e: Event, t: nat, k: nat)
    requires CanStep(cfg, f, st, e) && e.Batch? && !cfg.useHungarian
    requires var radar := IndicesOf(e.batch, RangeBearing2D);
             Passes(f, st.tracks, e.batch, radar, t, k) && k !in e.s[..t]
    ensures var radar := IndicesOf(e.batch, RangeBearing2D);
            && Passes(f, st.tracks, e.batch, radar, t, e.s[t])
            && CostOf(f, st.tracks, e.batch, radar, t, e.s[t]) <= CostOf(f, st.tracks, e.batch, radar, t, k)
            && (k < e.s[t] ==>
                  CostOf(f, st.tracks, e.batch, radar, t, e.s[t]) < CostOf(f, st.tracks, e.batch, radar, t, k))
  {
    hide Passes, CostOf, GatesOf;
    var radar := IndicesOf(e.batch, RangeBearing2D);
    PassesIn(f, st.tracks, e.batch, radar, t, k);
    PassesMeans(f, st.tracks, e.batch, radar, t, k);
    MatchesPass(f, cfg, st, e);
    assert IsNearest(GatesOf(f, st.tracks, e.batch, radar)[t], e.s[..t], |radar|, e.s[t]);
    PassesMeans(f, st.tracks, e.batch, radar, t, e.s[t]);
  }

  lemma {:induction false} PassesIn(f: Filter, tracks: seq<TrackValue>, batch: seq<Measurement>, radar: seq<nat>,
                                    t: int, k: int)
    requires forall j | 0 <= j < |radar| :: radar[j] < |batch|
    ensures Passes(f, tracks, batch, radar, t, k) ==> 0 <= t < |tracks| && 0 <= k < |radar|
  {
  }

  /** The summed gating costs of the first n tracks' matches. */
  ghost function MatchCost(f: Filter, tracks: seq<TrackValue>, batch: seq<Measurement>, radar: seq<nat>, m: seq<int>,
                           n: nat): real
    requires forall j | 0 <= j < |radar| :: radar[j] < |batch|
    requires IsMatching(f, tracks, batch, radar, m) && n <= |m|
  {
    if n == 0 then 0.0
    else
      MatchCost(f, tracks, batch, radar, m, n - 1)
        + if m[n-1] >= 0 then CostOf(f, tracks, batch, radar, n - 1, m[n-1]) else 0.0
  }

  lemma {:induction false} MatchCostIsTotal(f: Filter, tracks: seq<TrackValue>, batch: seq<Measurement>,
                                            radar: seq<nat>, m: seq<int>, n: nat)
    requires forall j | 0 <= j < |radar| :: radar[j] < |batch|
    requires IsMatching(f, tracks, batch, radar, m) && n <= |m|
    ensures MatchCost(f, tracks, batch, radar, m, n) ==
            Total(CostMatrix(GatesOf(f, tracks, batch, radar), 0.0), m[..n])
  {
    hide Passes, CostOf, GatesOf;
    if n > 0 {
      MatchCostIsTotal(f, tracks, batch, radar, m, n - 1);
      assert m[..n][..n-1] == m[..n-1];
      if m[n-1] >= 0 {
        PassesMeans(f, tracks, batch, radar, n - 1, m[n-1]);
      }
    }
  }

  /** On the Hungarian path, when unassigned_cost exceeds what any matching can cost, a batch matches as many tracks as
      any matching does, and no matching of that size costs less. */
  lemma {:induction false} MostMatched(f: Filter, cfg: Config, st: State, e: Event, bound: real, m: seq<int>)
    requires CanStep(cfg, f, st, e) && e.Batch? && cfg.useHungarian
    requires var radar := IndicesOf(e.batch, RangeBearing2D);
             && (forall t, k | Passes(f, st.tracks, e.batch, radar, t, k) ::
                   0.0 <= CostOf(f, st.tracks, e.batch, radar, t, k) <= bound)
             && bound >= 0.0 && Multiple(Min(|st.tracks|, |radar|), bound) < cfg.unassignedCost
             && IsMatching(f, st.tracks, e.batch, radar, m)
    ensures var radar := IndicesOf(e.batch, RangeBearing2D);
            && Size(m) <= Size(e.s)
            && IsMatching(f, st.tracks, e.batch, radar, e.s)
            && (Size(m) == Size(e.s) ==>
                  MatchCost(f, st.tracks, e.batch, radar, e.s, |e.s|) <=
                  MatchCost(f, st.tracks, e.batch, radar, m, |m|))
  {
    hide Passes, CostOf, GatesOf, IsMatching, MatchCost, Total, Size, CostMatrix, IsHungarianResult, IsGated;
    var radar := IndicesOf(e.batch, RangeBearing2D);
    var table := GatesOf(f, st.tracks, e.batch, radar);
    GatesBounded(f, st.tracks, e.batch, radar, bound);
    MatchesPass(f, cfg, st, e);
    MatchingIsGated(f, st.tracks, e.batch, radar, m);
    HungarianIsMaximum(table, |radar|, cfg.unassignedCost, bound, e.s, m);
    CostIsGatedCost(f, st.tracks, e.batch, radar, m);
    CostIsGatedCost(f, st.tracks, e.batch, radar, e.s);
  }

  lemma {:induction false} GatesBounded(f: Filter, tracks: seq<TrackValue>, batch: seq<Measurement>, radar: seq<nat>,
                                        bound: real)
    requires forall j | 0 <= j < |radar| :: radar[j] < |batch|
    requires forall t, k | Passes(f, tracks, batch, radar, t, k) ::
               0.0 <= CostOf(f, tracks, batch, radar, t, k) <= bound
    ensures Bounded(GatesOf(f, tracks, batch, radar), bound)
  {
    hide Passes, CostOf, GatesOf;
    var table: GateTable := GatesOf(f, tracks, batch, radar);
    forall t: nat, k: nat | t < |table| && k < |table[t]| && table[t][k].Some?
      ensures 0.0 <= table[t][k].value <= bound
    {
      PassesMeans(f, tracks, batch, radar, t, k);
    }
  }

  lemma {:induction false} CostIsGatedCost(f: Filter, tracks: seq<TrackValue>, batch: seq<Measurement>,
                                           radar: seq<nat>, m: seq<int>)
    requires forall j | 0 <= j < |radar| :: radar[j] < |batch|
    requires IsMatching(f, tracks, batch, radar, m)
    ensures IsGated(GatesOf(f, tracks, batch, radar), |radar|, m)
    ensures MatchCost(f, tracks, batch, radar, m, |m|) == GatedCost(GatesOf(f, tracks, batch, radar), |radar|, m)
  {
    hide IsMatching, GatesOf, MatchCost, Total, IsGated;
    MatchingIsGated(f, tracks, batch, radar, m);
    MatchCostIsTotal(f, tracks, batch, radar, m, |m|);
    assert m[..|m|] == m;
  }
}
