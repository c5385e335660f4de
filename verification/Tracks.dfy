/** The track lifecycle on values: what one batch of measurements does to the track list
    (src/fusion_core/track.cpp, src/fusion_core/track_manager.cpp). The filter is an oracle. */
module Tracks {
  import opened Basics
  import opened Matching
  import opened Association

  datatype Quality = Quality(ageTicks: nat, hits: nat, misses: nat, score: real, confidence: real, lastTraceId: nat)

  datatype TrackValue = TrackValue(id: nat, status: TrackStatus, q: Quality, est: Estimate)

  datatype Config = Config(
    confirmHits: nat,
    deleteMisses: nat,
    confirmedDeleteMisses: nat,
    useHungarian: bool,
    enableEoir: bool,
    unassignedCost: real,
    warningDistance: real,
    warningWindow: nat)

  /** The filter: gates return the cost of a passing measurement, updates may be refused. */
  datatype Filter = Filter(
    predict: (Estimate, real) -> Estimate,
    gateRadar: (Estimate, Measurement) -> Option<real>,
    updateRadar: (Estimate, Measurement) -> Option<Estimate>,
    gateEoir: (Estimate, Measurement) -> Option<real>,
    updateEoir: (Estimate, Measurement) -> Option<Estimate>,
    seed: Measurement -> Estimate,
    position: Estimate -> Vec3,
    sqrt: real -> real)

  datatype Warning = Warning(originalId: nat, newId: nat, distance: real)

  datatype Recent = Recent(id: nat, position: Vec3, wasConfirmed: bool, remaining: nat)

  datatype Deltas = Deltas(
    created: seq<TrackValue>,
    confirmed: seq<TrackValue>,
    updated: seq<TrackValue>,
    coasted: seq<TrackValue>,
    deleted: seq<TrackValue>,
    warnings: seq<Warning>)

  datatype State = State(tracks: seq<TrackValue>, nextId: nat, recents: seq<Recent>, deltas: Deltas)

  const NO_DELTAS := Deltas([], [], [], [], [], [])

  // ---------------------------------------------------------------- quality counters

  function TraceOr(traceId: nat, last: nat): nat {
    if traceId != 0 then traceId else last
  }

  function RadarHit(q: Quality, confidence: real, traceId: nat): Quality {
    var clamped := Clamp(confidence, 0.0, 1.0);
    Quality(
      q.ageTicks + 1,
      q.hits + 1,
      0,
      q.score + 1.0,
      if q.hits + 1 == 1 then clamped else Clamp(0.7 * q.confidence + 0.3 * clamped, 0.0, 1.0),
      TraceOr(traceId, q.lastTraceId))
  }

  function EoirHit(q: Quality, confidence: real, traceId: nat): Quality {
    q.(score := q.score + 0.5,
       confidence := Clamp(0.85 * q.confidence + 0.15 * Clamp(confidence, 0.0, 1.0), 0.0, 1.0),
       lastTraceId := TraceOr(traceId, q.lastTraceId))
  }

  function Miss(q: Quality): Quality {
    q.(ageTicks := q.ageTicks + 1, misses := q.misses + 1, score := q.score - 0.5,
       confidence := Clamp(q.confidence * 0.9, 0.0, 1.0))
  }

  const FRESH_QUALITY := Quality(0, 0, 0, 0.0, 0.0, 0)

  // ---------------------------------------------------------------- reading measurements

  predicate WellShaped(m: Measurement) {
    m.zDim == 2 && |m.z| >= 2 && |m.rRowMajor| == m.zDim * m.zDim && |m.rRowMajor| >= 4
  }

  predicate RadarReadable(m: Measurement) {
    m.measurementType == RangeBearing2D && WellShaped(m)
  }

  predicate EoirReadable(m: Measurement) {
    m.measurementType == BearingElevation && WellShaped(m)
  }

  /** The positions in the batch of the measurements of one type, in order. */
  function IndicesOf(batch: seq<Measurement>, kind: MeasurementType): (r: seq<nat>)
    ensures forall k | 0 <= k < |r| :: r[k] < |batch| && batch[r[k]].measurementType == kind
    ensures forall j, k | 0 <= j < k < |r| :: r[j] < r[k]
    ensures forall i | 0 <= i < |batch| && batch[i].measurementType == kind :: i in r
  {
    if batch == [] then []
    else
      var n := |batch| - 1;
      var r := IndicesOf(batch[..n], kind);
      if batch[n].measurementType == kind then r + [n] else r
  }

  /** The gate table the associators work on. */
  function GatesOf(f: Filter, tracks: seq<TrackValue>, batch: seq<Measurement>, radar: seq<nat>): (table: GateTable)
    requires forall k | 0 <= k < |radar| :: radar[k] < |batch|
    ensures |table| == |tracks| && IsTable(table, |radar|)
  {
    seq(|tracks|, t requires 0 <= t < |tracks| =>
      seq(|radar|, k requires 0 <= k < |radar| =>
        if RadarReadable(batch[radar[k]]) then f.gateRadar(tracks[t].est, batch[radar[k]]) else None))
  }

  /** The assignments either associator may return. */
  ghost predicate IsAssociation(cfg: Config, table: GateTable, cols: nat, s: seq<int>)
    requires IsTable(table, cols)
  {
    if cfg.useHungarian then IsHungarianResult(table, cols, cfg.unassignedCost, s)
    else |s| == |table| && IsGreedyByTrack(table, cols, s)
  }

  lemma {:induction false} AssociationIsGated(cfg: Config, table: GateTable, cols: nat, s: seq<int>)
    requires IsTable(table, cols) && IsAssociation(cfg, table, cols, s)
    ensures IsGated(table, cols, s)
  {
    if cfg.useHungarian {
      HungarianIsGated(table, cols, cfg.unassignedCost, s);
    } else {
      GreedyIsGated(table, cols, s);
    }
  }

  /** s assigns to each track a position in `radar`, or -1. */
  ghost predicate Assigns(tracks: seq<TrackValue>, batch: seq<Measurement>, radar: seq<nat>, s: seq<int>) {
    && |s| == |tracks| && IsPartial(s, |radar|)
    && (forall k | 0 <= k < |radar| :: radar[k] < |batch|)
  }

  // ---------------------------------------------------------------- radar stage

  /** Track t is updated by the measurement assigned to it. */
  predicate IsHit(f: Filter, tracks: seq<TrackValue>, batch: seq<Measurement>, radar: seq<nat>, s: seq<int>, t: nat)
    requires Assigns(tracks, batch, radar, s) && t < |tracks|
  {
    s[t] >= 0 && RadarReadable(batch[radar[s[t]]]) && f.updateRadar(tracks[t].est, batch[radar[s[t]]]).Some?
  }

  /** A track updated by a radar measurement the filter accepts. */
  function HitBy(f: Filter, v: TrackValue, m: Measurement): TrackValue
    requires f.updateRadar(v.est, m).Some?
  {
    v.(est := f.updateRadar(v.est, m).value, q := RadarHit(v.q, m.confidence, m.traceId))
  }

  function Coast(v: TrackValue): TrackValue {
    v.(q := Miss(v.q))
  }

  /** One prior track after the radar stage: exactly one hit or one miss. */
  function AfterRadar(f: Filter, tracks: seq<TrackValue>, batch: seq<Measurement>, radar: seq<nat>, s: seq<int>,
                      t: nat): TrackValue
    requires Assigns(tracks, batch, radar, s) && t < |tracks|
  {
    var v := tracks[t];
    if IsHit(f, tracks, batch, radar, s, t) then
      HitBy(f, v, batch[radar[s[t]]])
    else
      Coast(v)
  }

  function RadarStage(f: Filter, tracks: seq<TrackValue>, batch: seq<Measurement>, radar: seq<nat>,
                      s: seq<int>): (r: seq<TrackValue>)
    requires Assigns(tracks, batch, radar, s)
    ensures |r| == |tracks|
  {
    seq(|tracks|, t requires 0 <= t < |tracks| => AfterRadar(f, tracks, batch, radar, s, t))
  }

  /** The tracks missed among the first k, after their miss. */
  function Coasted(f: Filter, tracks: seq<TrackValue>, batch: seq<Measurement>, radar: seq<nat>, s: seq<int>,
                   k: nat): seq<TrackValue>
    requires Assigns(tracks, batch, radar, s) && k <= |tracks|
  {
    if k == 0 then []
    else Coasted(f, tracks, batch, radar, s, k - 1)
         + if IsHit(f, tracks, batch, radar, s, k - 1) then [] else [AfterRadar(f, tracks, batch, radar, s, k - 1)]
  }

  /** The number of tracks hit among the first k. */
  function HitCount(f: Filter, tracks: seq<TrackValue>, batch: seq<Measurement>, radar: seq<nat>, s: seq<int>,
                    k: nat): nat
    requires Assigns(tracks, batch, radar, s) && k <= |tracks|
  {
    if k == 0 then 0
    else HitCount(f, tracks, batch, radar, s, k - 1) + if IsHit(f, tracks, batch, radar, s, k - 1) then 1 else 0
  }

  // ---------------------------------------------------------------- creation stage

  /** Radar measurement number k updated some track. */
  predicate Consumed(f: Filter, tracks: seq<TrackValue>, batch: seq<Measurement>, radar: seq<nat>, s: seq<int>, k: nat)
    requires Assigns(tracks, batch, radar, s)
  {
    exists t :: 0 <= t < |tracks| && s[t] == k && IsHit(f, tracks, batch, radar, s, t)
  }

  /** Radar measurement number k starts a track. */
  predicate Seeds(f: Filter, tracks: seq<TrackValue>, batch: seq<Measurement>, radar: seq<nat>, s: seq<int>, k: nat)
    requires Assigns(tracks, batch, radar, s) && k < |radar|
  {
    && !Consumed(f, tracks, batch, radar, s, k)
    && batch[radar[k]].confidence >= 0.3
    && RadarReadable(batch[radar[k]])
  }

  function Newborn(f: Filter, id: nat, m: Measurement): TrackValue {
    TrackValue(id, Tentative, RadarHit(FRESH_QUALITY, m.confidence, m.traceId), f.seed(m))
  }

  /** The tracks started by the first k radar measurements. */
  function Created(f: Filter, tracks: seq<TrackValue>, batch: seq<Measurement>, radar: seq<nat>, s: seq<int>,
                   nextId: nat, k: nat): seq<TrackValue>
    requires Assigns(tracks, batch, radar, s) && k <= |radar|
  {
    if k == 0 then []
    else
      var r := Created(f, tracks, batch, radar, s, nextId, k - 1);
      if Seeds(f, tracks, batch, radar, s, k - 1) then r + [Newborn(f, nextId + |r|, batch[radar[k-1]])] else r
  }

  /** The first recently deleted confirmed track within the warning distance. */
  function WarningFor(f: Filter, cfg: Config, recents: seq<Recent>, v: TrackValue): Option<Warning> {
    if cfg.warningDistance <= 0.0 || recents == [] then None
    else
      var d := Distance(f.sqrt, f.position(v.est), recents[0].position);
      if recents[0].wasConfirmed && d <= cfg.warningDistance then Some(Warning(recents[0].id, v.id, d))
      else WarningFor(f, cfg, recents[1..], v)
  }

  function WarningsFor(f: Filter, cfg: Config, recents: seq<Recent>, created: seq<TrackValue>): seq<Warning> {
    if created == [] then []
    else
      var n := |created| - 1;
      WarningsFor(f, cfg, recents, created[..n])
      + match WarningFor(f, cfg, recents, created[n]) { case Some(w) => [w] case None => [] }
  }

  // ---------------------------------------------------------------- electro-optical stage

  /** r is the first track of least passing cost, or -1 when no gate passes. */
  ghost predicate IsFirstLeast(gate: (Estimate, Measurement) -> Option<real>, tracks: seq<TrackValue>, m: Measurement,
                               r: int)
  {
    if r < 0 then r == -1 && forall v | v in tracks :: gate(v.est, m).None?
    else
      && r < |tracks| && gate(tracks[r].est, m).Some?
      && (forall t | 0 <= t < |tracks| && gate(tracks[t].est, m).Some? ::
            && gate(tracks[r].est, m).value <= gate(tracks[t].est, m).value
            && (t < r ==> gate(tracks[r].est, m).value < gate(tracks[t].est, m).value))
  }

  /** The first of the tracks below `upTo` with the least passing cost; -1 if no gate passes. */
  function BestTrack(f: Filter, tracks: seq<TrackValue>, m: Measurement, upTo: nat): (r: int)
    requires upTo <= |tracks|
    ensures IsFirstLeast(f.gateEoir, tracks[..upTo], m, r)
  {
    if upTo == 0 then -1
    else
      var r := BestTrack(f, tracks, m, upTo - 1);
      assert tracks[..upTo] == tracks[..upTo-1] + [tracks[upTo-1]];
      match f.gateEoir(tracks[upTo-1].est, m)
      case None => r
      case Some(c) => if r < 0 || c < f.gateEoir(tracks[r].est, m).value then upTo - 1 else r
  }

  /** One bearing-elevation measurement: its refined track, or -1 when it refines none. */
  function Refined(f: Filter, tracks: seq<TrackValue>, m: Measurement): (r: int)
    ensures -1 <= r < |tracks|
    ensures r >= 0 ==> EoirReadable(m) && f.updateEoir(tracks[r].est, m).Some?
    ensures EoirReadable(m) ==> exists b | IsFirstLeast(f.gateEoir, tracks, m, b) ::
              r == if b >= 0 && f.updateEoir(tracks[b].est, m).Some? then b else -1
  {
    if !EoirReadable(m) then -1
    else
      var r := BestTrack(f, tracks, m, |tracks|);
      assert tracks[..|tracks|] == tracks;
      assert IsFirstLeast(f.gateEoir, tracks, m, r);
      if r >= 0 && f.updateEoir(tracks[r].est, m).Some? then r else -1
  }

  function AfterRefinement(f: Filter, tracks: seq<TrackValue>, m: Measurement): (r: seq<TrackValue>)
    ensures |r| == |tracks|
  {
    var t := Refined(f, tracks, m);
    if t < 0 then tracks
    else
      var v := tracks[t];
      tracks[t := v.(est := f.updateEoir(v.est, m).value, q := EoirHit(v.q, m.confidence, m.traceId))]
  }

  function EoirStage(f: Filter, tracks: seq<TrackValue>, batch: seq<Measurement>, eoir: seq<nat>,
                     k: nat): (r: seq<TrackValue>)
    requires k <= |eoir| && forall j | 0 <= j < |eoir| :: eoir[j] < |batch|
    ensures |r| == |tracks|
  {
    if k == 0 then tracks
    else AfterRefinement(f, EoirStage(f, tracks, batch, eoir, k - 1), batch[eoir[k-1]])
  }

  /** Which tracks the first k bearing-elevation measurements refined. */
  function EoirFlags(f: Filter, tracks: seq<TrackValue>, batch: seq<Measurement>, eoir: seq<nat>,
                     k: nat): (r: seq<bool>)
    requires k <= |eoir| && forall j | 0 <= j < |eoir| :: eoir[j] < |batch|
    ensures |r| == |tracks|
  {
    if k == 0 then seq(|tracks|, _ => false)
    else
      var r := EoirFlags(f, tracks, batch, eoir, k - 1);
      var t := Refined(f, EoirStage(f, tracks, batch, eoir, k - 1), batch[eoir[k-1]]);
      if t < 0 then r else r[t := true]
  }

  /** The members of `tracks` whose flag is set, in order. */
  function Flagged(tracks: seq<TrackValue>, flags: seq<bool>): seq<TrackValue>
    requires |tracks| == |flags|
  {
    if tracks == [] then []
    else
      var n := |tracks| - 1;
      Flagged(tracks[..n], flags[..n]) + if flags[n] then [tracks[n]] else []
  }

  // ---------------------------------------------------------------- lifecycle stage

  function DeleteThreshold(cfg: Config, v: TrackValue): nat {
    if v.status == Confirmed then cfg.confirmedDeleteMisses else cfg.deleteMisses
  }

  predicate Dies(cfg: Config, v: TrackValue) {
    v.q.misses >= DeleteThreshold(cfg, v)
  }

  predicate Matures(cfg: Config, v: TrackValue) {
    !Dies(cfg, v) && v.status == Tentative && v.q.hits >= cfg.confirmHits
  }

  function Settled(cfg: Config, v: TrackValue): TrackValue {
    if Dies(cfg, v) then v.(status := Deleted)
    else if Matures(cfg, v) then v.(status := Confirmed)
    else v
  }

  function SettleAll(cfg: Config, tracks: seq<TrackValue>): (r: seq<TrackValue>)
    ensures |r| == |tracks|
  {
    seq(|tracks|, t requires 0 <= t < |tracks| => Settled(cfg, tracks[t]))
  }

  /** What remains once the deleted tracks are erased. */
  function Survivors(tracks: seq<TrackValue>): seq<TrackValue> {
    if tracks == [] then []
    else
      var n := |tracks| - 1;
      Survivors(tracks[..n]) + if tracks[n].status == Deleted then [] else [tracks[n]]
  }

  function Deaths(cfg: Config, tracks: seq<TrackValue>): seq<TrackValue> {
    if tracks == [] then []
    else
      var n := |tracks| - 1;
      Deaths(cfg, tracks[..n]) + if Dies(cfg, tracks[n]) then [Settled(cfg, tracks[n])] else []
  }

  function Confirmations(cfg: Config, tracks: seq<TrackValue>): seq<TrackValue> {
    if tracks == [] then []
    else
      var n := |tracks| - 1;
      Confirmations(cfg, tracks[..n]) + if Matures(cfg, tracks[n]) then [Settled(cfg, tracks[n])] else []
  }

  function Obituaries(f: Filter, cfg: Config, tracks: seq<TrackValue>): seq<Recent> {
    if tracks == [] then []
    else
      var n := |tracks| - 1;
      Obituaries(f, cfg, tracks[..n])
      + if Dies(cfg, tracks[n])
        then [Recent(tracks[n].id, f.position(tracks[n].est), tracks[n].status == Confirmed, cfg.warningWindow)]
        else []
  }

  /** Ageing at the start of a batch: every entry loses a tick and spent entries go. */
  function Aged(recents: seq<Recent>): seq<Recent> {
    if recents == [] then []
    else
      var n := |recents| - 1;
      var left := if recents[n].remaining > 0 then recents[n].remaining - 1 else 0;
      Aged(recents[..n]) + if left == 0 then [] else [recents[n].(remaining := left)]
  }

  // ---------------------------------------------------------------- one batch

  /** The track list once the radar stage and creation are done. */
  function Grown(f: Filter, st: State, batch: seq<Measurement>, s: seq<int>): seq<TrackValue>
    requires Assigns(st.tracks, batch, IndicesOf(batch, RangeBearing2D), s)
  {
    var radar := IndicesOf(batch, RangeBearing2D);
    RadarStage(f, st.tracks, batch, radar, s) + Created(f, st.tracks, batch, radar, s, st.nextId, |radar|)
  }

  /** The track list once refinement is done too, before the lifecycle rules. */
  function BeforeLifecycle(f: Filter, cfg: Config, st: State, batch: seq<Measurement>,
                           s: seq<int>): (r: seq<TrackValue>)
    requires Assigns(st.tracks, batch, IndicesOf(batch, RangeBearing2D), s)
    ensures |r| == |Grown(f, st, batch, s)|
  {
    var grown := Grown(f, st, batch, s);
    var eoir := IndicesOf(batch, BearingElevation);
    if cfg.enableEoir then EoirStage(f, grown, batch, eoir, |eoir|) else grown
  }

  /** The tracks reported as updated: hit by radar, or refined. */
  function UpdateFlags(f: Filter, cfg: Config, st: State, batch: seq<Measurement>, s: seq<int>): (r: seq<bool>)
    requires Assigns(st.tracks, batch, IndicesOf(batch, RangeBearing2D), s)
    ensures |r| == |Grown(f, st, batch, s)|
  {
    var grown := Grown(f, st, batch, s);
    var eoir := IndicesOf(batch, BearingElevation);
    seq(|grown|, t requires 0 <= t < |grown| =>
      || (t < |st.tracks| && IsHit(f, st.tracks, batch, IndicesOf(batch, RangeBearing2D), s, t))
      || (cfg.enableEoir && EoirFlags(f, grown, batch, eoir, |eoir|)[t]))
  }

  /** update_with_measurements, for the association s. */
  function Updated(f: Filter, cfg: Config, st: State, batch: seq<Measurement>, s: seq<int>): State
    requires Assigns(st.tracks, batch, IndicesOf(batch, RangeBearing2D), s)
  {
    var radar := IndicesOf(batch, RangeBearing2D);
    var recents := Aged(st.recents);
    var created := Created(f, st.tracks, batch, radar, s, st.nextId, |radar|);
    var all := BeforeLifecycle(f, cfg, st, batch, s);
    State(
      Survivors(SettleAll(cfg, all)),
      st.nextId + |created|,
      recents + Obituaries(f, cfg, all),
      Deltas(
        created,
        Confirmations(cfg, all),
        Flagged(all, UpdateFlags(f, cfg, st, batch, s)),
        Coasted(f, st.tracks, batch, radar, s, |st.tracks|),
        Deaths(cfg, all),
        WarningsFor(f, cfg, recents, created)))
  }

  /** predict_all. */
  function Predicted(f: Filter, st: State, dt: real): State {
    st.(tracks := seq(|st.tracks|, t requires 0 <= t < |st.tracks| =>
          st.tracks[t].(est := f.predict(st.tracks[t].est, dt))))
  }
}
