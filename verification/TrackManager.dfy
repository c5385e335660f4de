/** The track manager as it runs: tracks are objects updated in place, the manager reassigns its lists and flags
    (src/fusion_core/track.cpp, src/fusion_core/track_manager.cpp). Each stage is proved against Tracks. */
module TrackManagement {
  import opened Basics
  import opened Association
  import opened Tracks
  import opened TrackLaws

  /** The radar loop after its first k matches. */
  datatype Progress = Progress(values: seq<TrackValue>, hitFlags: seq<bool>, measured: seq<bool>, hits: nat)

  ghost function ProgressAt(f: Filter, before: seq<TrackValue>, batch: seq<Measurement>, radar: seq<nat>, s: seq<int>,
                            k: nat): (r: Progress)
    requires Assigns(before, batch, radar, s) && k <= |before|
    ensures |r.values| == |r.hitFlags| == |before| && |r.measured| == |batch|
  {
    if k == 0 then Progress(before, seq(|before|, _ => false), seq(|batch|, _ => false), 0)
    else
      var r := ProgressAt(f, before, batch, radar, s, k - 1);
      var t := k - 1;
      if IsHit(f, before, batch, radar, s, t) then
        Progress(r.values[t := AfterRadar(f, before, batch, radar, s, t)], r.hitFlags[t := true],
                 r.measured[radar[s[t]] := true], r.hits + 1)
      else r
  }

  /** The list with a miss on each of its first k unflagged tracks. */
  ghost function WithMisses(values: seq<TrackValue>, flags: seq<bool>, k: nat): (r: seq<TrackValue>)
    requires |flags| == |values| && k <= |values|
    ensures |r| == |values| && forall t | 0 <= t < |r| ::
              r[t] == if t < k && !flags[t] then Coast(values[t]) else values[t]
  {
    seq(|values|, t requires 0 <= t < |values| => if t < k && !flags[t] then Coast(values[t]) else values[t])
  }

  ghost function Missed(values: seq<TrackValue>, flags: seq<bool>, k: nat): seq<TrackValue>
    requires |flags| == |values| && k <= |values|
  {
    if k == 0 then [] else Missed(values, flags, k - 1) + if flags[k-1] then [] else [Coast(values[k-1])]
  }

  /** Hits first and misses after give each track exactly what the radar stage prescribes. */
  lemma {:induction false} HitsThenMisses(f: Filter, before: seq<TrackValue>, batch: seq<Measurement>, radar: seq<nat>,
                                          s: seq<int>, k: nat)
    requires Assigns(before, batch, radar, s) && k <= |before|
    ensures var r := ProgressAt(f, before, batch, radar, s, |before|);
            && WithMisses(r.values, r.hitFlags, |before|) == RadarStage(f, before, batch, radar, s)
            && Missed(r.values, r.hitFlags, k) == Coasted(f, before, batch, radar, s, k)
  {
    var r := ProgressAt(f, before, batch, radar, s, |before|);
    forall t | 0 <= t < |before|
      ensures WithMisses(r.values, r.hitFlags, |before|)[t] == AfterRadar(f, before, batch, radar, s, t)
    {
      ProgressTracks(f, before, batch, radar, s, |before|, t);
    }
    if k > 0 {
      HitsThenMisses(f, before, batch, radar, s, k - 1);
      ProgressTracks(f, before, batch, radar, s, |before|, k - 1);
    }
  }

  ghost function HitFlags(f: Filter, before: seq<TrackValue>, batch: seq<Measurement>, radar: seq<nat>,
                          s: seq<int>): (r: seq<bool>)
    requires Assigns(before, batch, radar, s)
    ensures |r| == |before|
  {
    seq(|before|, t requires 0 <= t < |before| => IsHit(f, before, batch, radar, s, t))
  }

  /** The loop leaves exactly the hit tracks flagged and updated. */
  lemma {:induction false} ProgressTracks(f: Filter, before: seq<TrackValue>, batch: seq<Measurement>, radar: seq<nat>,
                                          s: seq<int>, k: nat, t: nat)
    requires Assigns(before, batch, radar, s) && k <= |before| && t < |before|
    ensures var r := ProgressAt(f, before, batch, radar, s, k);
            && (r.hitFlags[t] <==> t < k && IsHit(f, before, batch, radar, s, t))
            && r.values[t] == (if r.hitFlags[t] then AfterRadar(f, before, batch, radar, s, t) else before[t])
            && r.hits == HitCount(f, before, batch, radar, s, k)
  {
    if k > 0 {
      ProgressTracks(f, before, batch, radar, s, k - 1, t);
    }
  }

  lemma {:induction false} NoProgress(f: Filter, before: seq<TrackValue>, batch: seq<Measurement>, radar: seq<nat>,
                                      s: seq<int>)
    requires Assigns(before, batch, radar, s)
    ensures ProgressAt(f, before, batch, radar, s, 0) ==
            Progress(before, seq(|before|, _ => false), seq(|batch|, _ => false), 0)
  {
  }

  lemma {:induction false} ProgressStep(f: Filter, before: seq<TrackValue>, batch: seq<Measurement>, radar: seq<nat>,
                                        s: seq<int>, t: nat)
    requires Assigns(before, batch, radar, s) && t < |before|
    ensures var r := ProgressAt(f, before, batch, radar, s, t);
            && r.values[t] == before[t]
            && ProgressAt(f, before, batch, radar, s, t + 1) ==
               if s[t] >= 0 && RadarReadable(batch[radar[s[t]]])
                  && f.updateRadar(before[t].est, batch[radar[s[t]]]).Some? then
                 Progress(r.values[t := HitBy(f, before[t], batch[radar[s[t]]])], r.hitFlags[t := true],
                          r.measured[radar[s[t]] := true], r.hits + 1)
               else r
  {
    ProgressTracks(f, before, batch, radar, s, t, t);
  }

  lemma {:induction false} ProgressFlags(f: Filter, before: seq<TrackValue>, batch: seq<Measurement>, radar: seq<nat>,
                                         s: seq<int>)
    requires Assigns(before, batch, radar, s)
    ensures ProgressAt(f, before, batch, radar, s, |before|).hitFlags == HitFlags(f, before, batch, radar, s)
  {
    forall t | 0 <= t < |before|
      ensures ProgressAt(f, before, batch, radar, s, |before|).hitFlags[t] == HitFlags(f, before, batch, radar, s)[t]
    {
      ProgressTracks(f, before, batch, radar, s, |before|, t);
    }
  }

  lemma {:induction false} ProgressHits(f: Filter, before: seq<TrackValue>, batch: seq<Measurement>, radar: seq<nat>,
                                        s: seq<int>, k: nat)
    requires Assigns(before, batch, radar, s) && k <= |before|
    ensures ProgressAt(f, before, batch, radar, s, k).hits == HitCount(f, before, batch, radar, s, k)
  {
    if k > 0 {
      ProgressHits(f, before, batch, radar, s, k - 1);
    }
  }

  /** The loop leaves exactly the batch entries that updated some track flagged. */
  lemma {:induction false} ProgressMeasured(f: Filter, before: seq<TrackValue>, batch: seq<Measurement>,
                                            radar: seq<nat>, s: seq<int>, k: nat, j: nat)
    requires Assigns(before, batch, radar, s) && k <= |before| && j < |radar|
    requires forall a, b | 0 <= a < b < |radar| :: radar[a] < radar[b]
    ensures ProgressAt(f, before, batch, radar, s, k).measured[radar[j]] <==>
            exists t :: 0 <= t < k && s[t] == j && IsHit(f, before, batch, radar, s, t)
  {
    if k > 0 {
      ProgressMeasured(f, before, batch, radar, s, k - 1, j);
      var t := k - 1;
      if IsHit(f, before, batch, radar, s, t) && s[t] != j {
        assert radar[s[t]] != radar[j] by {
          assert if s[t] < j then radar[s[t]] < radar[j] else radar[j] < radar[s[t]];
        }
      }
    }
  }

  /** What track creation writes to: the list, the id counter, the deltas and the update flags. */
  datatype Book = Book(values: seq<TrackValue>, nextId: nat, deltas: Deltas, flags: seq<bool>)

  /** The book once `made` has been entered, and nothing else. */
  ghost function Entered(f: Filter, cfg: Config, recents: seq<Recent>, b: Book, made: seq<TrackValue>): Book {
    Book(b.values + made, b.nextId + |made|,
         b.deltas.(created := b.deltas.created + made,
                   warnings := b.deltas.warnings + WarningsFor(f, cfg, recents, made)),
         b.flags + seq(|made|, _ => false))
  }

  ghost function WarningList(f: Filter, cfg: Config, recents: seq<Recent>, v: TrackValue): seq<Warning> {
    match WarningFor(f, cfg, recents, v) { case Some(w) => [w] case None => [] }
  }

  lemma {:induction false} EnterNone(f: Filter, cfg: Config, recents: seq<Recent>, b: Book)
    ensures Entered(f, cfg, recents, b, []) == b
  {
  }

  lemma {:induction false} EnterOneMore(f: Filter, cfg: Config, recents: seq<Recent>, b: Book, made: seq<TrackValue>,
                                        born: TrackValue)
    ensures var e := Entered(f, cfg, recents, b, made);
            Entered(f, cfg, recents, b, made + [born]) ==
            Book(e.values + [born], e.nextId + 1,
                 e.deltas.(created := e.deltas.created + [born],
                           warnings := e.deltas.warnings + WarningList(f, cfg, recents, born)),
                 e.flags + [false])
  {
    var all := made + [born];
    assert all[..|made|] == made;
    assert b.values + all == b.values + made + [born];
    assert b.deltas.created + all == b.deltas.created + made + [born];
    assert b.flags + seq(|all|, _ => false) == b.flags + seq(|made|, _ => false) + [false];
    assert b.deltas.warnings + WarningsFor(f, cfg, recents, all) ==
           b.deltas.warnings + WarningsFor(f, cfg, recents, made) + WarningList(f, cfg, recents, born);
  }

  class Track {
    const id: nat
    var status: TrackStatus
    var q: Quality
    var est: Estimate

    constructor (id: nat, est: Estimate, status: TrackStatus)
      ensures Value() == TrackValue(id, status, FRESH_QUALITY, est)
    {
      this.id := id;
      this.est := est;
      this.status := status;
      this.q := FRESH_QUALITY;
    }

    /** The copy of the track that a vector element holds. */
    function Value(): TrackValue
      reads this
    {
      TrackValue(id, status, q, est)
    }

    method MarkRadarHit(confidence: real, traceId: nat)
      modifies this`q
      ensures q == RadarHit(old(q), confidence, traceId)
    {
      q := q.(ageTicks := q.ageTicks + 1, hits := q.hits + 1, misses := 0, score := q.score + 1.0);
      var clamped := Clamp(confidence, 0.0, 1.0);
      if q.hits == 1 && q.misses == 0 {
        q := q.(confidence := clamped);
      } else {
        q := q.(confidence := Clamp(0.7 * q.confidence + 0.3 * clamped, 0.0, 1.0));
      }
      if traceId != 0 {
        q := q.(lastTraceId := traceId);
      }
    }

    method MarkEoirRefinementHit(confidence: real, traceId: nat)
      modifies this`q
      ensures q == EoirHit(old(q), confidence, traceId)
    {
      q := q.(score := q.score + 0.5);
      var clamped := Clamp(confidence, 0.0, 1.0);
      q := q.(confidence := Clamp(0.85 * q.confidence + 0.15 * clamped, 0.0, 1.0));
      if traceId != 0 {
        q := q.(lastTraceId := traceId);
      }
    }

    method MarkMiss()
      modifies this`q
      ensures q == Miss(old(q))
    {
      q := q.(ageTicks := q.ageTicks + 1, misses := q.misses + 1);
      q := q.(score := q.score - 0.5);
      q := q.(confidence := Clamp(q.confidence * 0.9, 0.0, 1.0));
    }
  }

  /** No two list positions hold the same object. */
  ghost predicate Distinct(ts: seq<Track>) {
    forall i, j | 0 <= i < j < |ts| :: ts[i] != ts[j]
  }

  function ValuesOf(ts: seq<Track>): (r: seq<TrackValue>)
    reads ts
    ensures |r| == |ts|
  {
    seq(|ts|, i requires 0 <= i < |ts| reads ts => ts[i].Value())
  }

  ghost function Either(a: seq<bool>, b: seq<bool>): (r: seq<bool>)
    requires |a| == |b|
    ensures |r| == |a| && forall i | 0 <= i < |r| :: r[i] == (a[i] || b[i])
  {
    seq(|a|, i requires 0 <= i < |a| => a[i] || b[i])
  }

  /** The positions set in both vectors. */
  function BothCount(a: seq<bool>, b: seq<bool>): nat
    requires |a| == |b|
  {
    if a == [] then 0
    else
      var n := |a| - 1;
      BothCount(a[..n], b[..n]) + if a[n] && b[n] then 1 else 0
  }

  /** Which tracks radar updated in the batch; a created track counts as not updated. */
  ghost function RadarFlags(f: Filter, st: State, batch: seq<Measurement>, s: seq<int>): (r: seq<bool>)
    requires Assigns(st.tracks, batch, IndicesOf(batch, RangeBearing2D), s)
    ensures |r| == |Grown(f, st, batch, s)|
  {
    var radar := IndicesOf(batch, RangeBearing2D);
    HitFlags(f, st.tracks, batch, radar, s)
      + seq(|Created(f, st.tracks, batch, radar, s, st.nextId, |radar|)|, _ => false)
  }

  /** Which tracks a bearing-elevation measurement refined. */
  ghost function RefinedFlags(f: Filter, cfg: Config, st: State, batch: seq<Measurement>, s: seq<int>): (r: seq<bool>)
    requires Assigns(st.tracks, batch, IndicesOf(batch, RangeBearing2D), s)
    ensures |r| == |Grown(f, st, batch, s)|
  {
    var grown := Grown(f, st, batch, s);
    var eoir := IndicesOf(batch, BearingElevation);
    if cfg.enableEoir then EoirFlags(f, grown, batch, eoir, |eoir|) else seq(|grown|, _ => false)
  }

  ghost function SettledUpTo(cfg: Config, all: seq<TrackValue>, k: nat): (r: seq<TrackValue>)
    requires k <= |all|
    ensures |r| == |all| && forall t | 0 <= t < |r| :: r[t] == if t < k then Settled(cfg, all[t]) else all[t]
  {
    seq(|all|, t requires 0 <= t < |all| => if t < k then Settled(cfg, all[t]) else all[t])
  }

  class TrackManager {
    const cfg: Config
    const f: Filter
    var tracks: seq<Track>
    var nextId: nat
    var recents: seq<Recent>
    var deltas: Deltas
    // scratch vectors, refilled by every batch
    var radarIndices: seq<nat>
    var eoirIndices: seq<nat>
    var trackAssigned: seq<bool>
    var measAssigned: seq<bool>
    var updatedFlags: seq<bool>
    var radarUpdatedFlags: seq<bool>
    var eoirUpdatedFlags: seq<bool>

    constructor (cfg: Config, f: Filter)
      ensures this.cfg == cfg && this.f == f
      ensures Valid() && Contents() == INITIAL
    {
      this.cfg := cfg;
      this.f := f;
      tracks, nextId, recents, deltas := [], 1, [], NO_DELTAS;
      radarIndices, eoirIndices, trackAssigned, measAssigned := [], [], [], [];
      updatedFlags, radarUpdatedFlags, eoirUpdatedFlags := [], [], [];
    }

    ghost predicate Valid()
      reads this`tracks
    {
      Distinct(tracks)
    }

    ghost function Contents(): State
      reads this, tracks
    {
      State(ValuesOf(tracks), nextId, recents, deltas)
    }

    method PredictAll(dt: real)
      requires Valid()
      modifies tracks
      ensures Valid() && Contents() == Predicted(f, old(Contents()), dt)
    {
      for t := 0 to |tracks|
        invariant forall i | 0 <= i < |tracks| ::
                    tracks[i].Value() == if i < t then old(tracks[i].Value()).(est := f.predict(old(tracks[i].est), dt))
                                         else old(tracks[i].Value())
      {
        tracks[t].est := f.predict(tracks[t].est, dt);
      }
    }

    method AgeRecentlyDeleted()
      modifies this`recents
      ensures recents == Aged(old(recents))
    {
      var before := recents;
      var kept := [];
      for i := 0 to |before|
        invariant kept == Aged(before[..i])
      {
        assert before[..i+1][..i] == before[..i];
        var left := if before[i].remaining > 0 then before[i].remaining - 1 else 0;
        if left != 0 {
          kept := kept + [before[i].(remaining := left)];
        }
      }
      assert before[..|before|] == before;
      recents := kept;
    }

    method SplitBatch(batch: seq<Measurement>)
      modifies this`radarIndices, this`eoirIndices
      ensures radarIndices == IndicesOf(batch, RangeBearing2D)
      ensures eoirIndices == IndicesOf(batch, BearingElevation)
    {
      radarIndices, eoirIndices := [], [];
      for i := 0 to |batch|
        invariant radarIndices == IndicesOf(batch[..i], RangeBearing2D)
        invariant eoirIndices == IndicesOf(batch[..i], BearingElevation)
      {
        assert batch[..i+1][..i] == batch[..i];
        if batch[i].measurementType == RangeBearing2D {
          radarIndices := radarIndices + [i];
        } else if batch[i].measurementType == BearingElevation {
          eoirIndices := eoirIndices + [i];
        }
      }
      assert batch[..|batch|] == batch;
    }

    method Associate(batch: seq<Measurement>) returns (s: seq<int>)
      requires forall k | 0 <= k < |radarIndices| :: radarIndices[k] < |batch|
      ensures IsAssociation(cfg, GatesOf(f, ValuesOf(tracks), batch, radarIndices), |radarIndices|, s)
      ensures Assigns(ValuesOf(tracks), batch, radarIndices, s)
    {
      var table := GatesOf(f, ValuesOf(tracks), batch, radarIndices);
      if cfg.useHungarian {
        s := HungarianAssociation(table, |radarIndices|, cfg.unassignedCost);
      } else {
        s := NearestNeighbor(table, |radarIndices|);
      }
      AssociationIsGated(cfg, table, |radarIndices|, s);
    }

    /** Runs the filter update of one matched track. */
    method UpdateMatched(t: nat, m: Measurement) returns (updated: bool)
      requires Valid() && t < |tracks|
      modifies tracks[t]
      ensures updated == f.updateRadar(old(ValuesOf(tracks))[t].est, m).Some?
      ensures ValuesOf(tracks) ==
              if updated then old(ValuesOf(tracks))[t := HitBy(f, old(ValuesOf(tracks))[t], m)]
                 else old(ValuesOf(tracks))
    {
      var outcome := f.updateRadar(tracks[t].est, m);
      updated := outcome.Some?;
      if updated {
        tracks[t].est := outcome.value;
        tracks[t].MarkRadarHit(m.confidence, m.traceId);
      }
    }

    method MissAt(t: nat) returns (coasted: TrackValue)
      requires Valid() && t < |tracks|
      modifies tracks[t]
      ensures ValuesOf(tracks) == old(ValuesOf(tracks))[t := Coast(old(ValuesOf(tracks))[t])]
      ensures coasted == Coast(old(ValuesOf(tracks))[t])
    {
      tracks[t].MarkMiss();
      coasted := tracks[t].Value();
    }

    /** Updates the matched tracks and records what was assigned. */
    method RadarUpdates(batch: seq<Measurement>, s: seq<int>) returns (radarUpdates: nat)
      requires Valid() && Assigns(ValuesOf(tracks), batch, radarIndices, s)
      modifies tracks, this`trackAssigned, this`measAssigned, this`updatedFlags, this`radarUpdatedFlags
      ensures Progress(ValuesOf(tracks), trackAssigned, measAssigned, radarUpdates) ==
              ProgressAt(f, old(ValuesOf(tracks)), batch, radarIndices, s, |tracks|)
      ensures updatedFlags == radarUpdatedFlags == trackAssigned
    {
      hide HitBy, Valid, ValuesOf, RadarReadable, IsHit, ProgressAt;
      ghost var before := ValuesOf(tracks);
      NoProgress(f, before, batch, radarIndices, s);
      trackAssigned := seq(|tracks|, _ => false);
      measAssigned := seq(|batch|, _ => false);
      updatedFlags := seq(|tracks|, _ => false);
      radarUpdatedFlags := seq(|tracks|, _ => false);
      radarUpdates := 0;
      for t := 0 to |tracks|
        invariant Progress(ValuesOf(tracks), trackAssigned, measAssigned, radarUpdates) ==
                  ProgressAt(f, before, batch, radarIndices, s, t)
        invariant updatedFlags == radarUpdatedFlags == trackAssigned
      {
        ProgressStep(f, before, batch, radarIndices, s, t);
        if s[t] >= 0 && RadarReadable(batch[radarIndices[s[t]]]) {
          var j := radarIndices[s[t]];
          var updated := UpdateMatched(t, batch[j]);
          if updated {
            trackAssigned := trackAssigned[t := true];
            measAssigned := measAssigned[j := true];
            updatedFlags := updatedFlags[t := true];
            radarUpdatedFlags := radarUpdatedFlags[t := true];
            radarUpdates := radarUpdates + 1;
          }
        }
      }
    }

    /** Marks the tracks no radar measurement updated. */
    method MarkMisses()
      requires Valid() && |trackAssigned| == |tracks|
      modifies tracks, this`deltas
      ensures ValuesOf(tracks) == WithMisses(old(ValuesOf(tracks)), trackAssigned, |tracks|)
      ensures deltas == old(deltas).(coasted := old(deltas).coasted
                                     + Missed(old(ValuesOf(tracks)), trackAssigned, |tracks|))
    {
      hide Coast, Valid, ValuesOf;
      ghost var values := ValuesOf(tracks);
      for t := 0 to |tracks|
        invariant ValuesOf(tracks) == WithMisses(values, trackAssigned, t)
        invariant deltas == old(deltas).(coasted := old(deltas).coasted + Missed(values, trackAssigned, t))
      {
        if !trackAssigned[t] {
          var coasted := MissAt(t);
          deltas := deltas.(coasted := deltas.coasted + [coasted]);
        }
      }
    }

    /** Looks for a recently deleted confirmed track near a new one. */
    method RecordWarning(created: TrackValue)
      modifies this`deltas
      ensures deltas == old(deltas).(warnings := old(deltas).warnings + WarningList(f, cfg, recents, created))
    {
      if cfg.warningDistance <= 0.0 {
        return;
      }
      for i := 0 to |recents|
        invariant deltas == old(deltas)
        invariant WarningFor(f, cfg, recents, created) == WarningFor(f, cfg, recents[i..], created)
      {
        assert recents[i..][1..] == recents[i+1..];
        if recents[i].wasConfirmed {
          var distance := Distance(f.sqrt, f.position(created.est), recents[i].position);
          if distance <= cfg.warningDistance {
            deltas := deltas.(warnings := deltas.warnings + [Warning(recents[i].id, created.id, distance)]);
            return;
          }
        }
      }
    }

    ghost function Books(): Book
      reads this, tracks
    {
      Book(ValuesOf(tracks), nextId, deltas, updatedFlags)
    }

    /** Starts a track from every confident readable radar measurement that updated none. */
    method CreateTracks(batch: seq<Measurement>, ghost s: seq<int>, ghost before: seq<TrackValue>)
      requires Valid() && Assigns(before, batch, radarIndices, s) && |measAssigned| == |batch|
      requires radarUpdatedFlags == updatedFlags
      requires forall k | 0 <= k < |radarIndices| ::
                 measAssigned[radarIndices[k]] <==> Consumed(f, before, batch, radarIndices, s, k)
      modifies this`tracks, this`nextId, this`deltas, this`updatedFlags, this`radarUpdatedFlags
      ensures radarUpdatedFlags == updatedFlags
      ensures Valid() && old(tracks) <= tracks && forall t | old(|tracks|) <= t < |tracks| :: fresh(tracks[t])
      ensures Books() == Entered(f, cfg, recents, old(Books()),
                                 Created(f, before, batch, radarIndices, s, old(nextId), |radarIndices|))
    {
      hide Consumed, Entered, Newborn;
      ghost var book := Books();
      EnterNone(f, cfg, recents, book);
      for k := 0 to |radarIndices|
        invariant Valid() && old(tracks) <= tracks && radarUpdatedFlags == updatedFlags
        invariant forall t | old(|tracks|) <= t < |tracks| :: fresh(tracks[t])
        invariant Books() == Entered(f, cfg, recents, book, Created(f, before, batch, radarIndices, s, book.nextId, k))
        invariant nextId == book.nextId + |Created(f, before, batch, radarIndices, s, book.nextId, k)|
      {
        var m := batch[radarIndices[k]];
        if !measAssigned[radarIndices[k]] && m.confidence >= 0.3 && RadarReadable(m) {
          ghost var made := Created(f, before, batch, radarIndices, s, book.nextId, k);
          var born := StartTrack(m);
          EnterOneMore(f, cfg, recents, book, made, born);
        }
      }
    }

    /** make_track_from_first_meas and the bookkeeping around it. */
    method StartTrack(m: Measurement) returns (ghost born: TrackValue)
      requires Valid()
      modifies this`tracks, this`nextId, this`deltas, this`updatedFlags, this`radarUpdatedFlags
      ensures radarUpdatedFlags == old(radarUpdatedFlags) + [false]
      ensures Valid() && |tracks| == old(|tracks|) + 1 && old(tracks) <= tracks && fresh(tracks[old(|tracks|)])
      ensures born == Newborn(f, old(nextId), m)
      ensures var b := old(Books());
              Books() == Book(b.values + [born], b.nextId + 1,
                              b.deltas.(created := b.deltas.created + [born],
                                        warnings := b.deltas.warnings + WarningList(f, cfg, recents, born)),
                              b.flags + [false])
    {
      var track := new Track(nextId, f.seed(m), Tentative);
      track.MarkRadarHit(m.confidence, m.traceId);
      nextId := nextId + 1;
      born := track.Value();
      RecordWarning(track.Value());
      deltas := deltas.(created := deltas.created + [track.Value()]);
      tracks := tracks + [track];
      updatedFlags := updatedFlags + [false];
      radarUpdatedFlags := radarUpdatedFlags + [false];
    }

    /** The first track of least passing cost for one bearing-elevation measurement. */
    method SelectTrack(m: Measurement) returns (best: int)
      ensures best == BestTrack(f, ValuesOf(tracks), m, |tracks|)
      ensures IsFirstLeast(f.gateEoir, ValuesOf(tracks), m, best)
    {
      best := -1;
      assert ValuesOf(tracks)[..|tracks|] == ValuesOf(tracks);
      for t := 0 to |tracks|
        invariant best == BestTrack(f, ValuesOf(tracks), m, t)
      {
        var gate := f.gateEoir(tracks[t].est, m);
        if gate.Some? && (best < 0 || gate.value < f.gateEoir(tracks[best].est, m).value) {
          best := t;
        }
      }
    }

    /** Applies one bearing-elevation measurement to the track it selects. */
    method RefineOne(m: Measurement) returns (t: int)
      requires Valid()
      modifies tracks
      ensures t == Refined(f, old(ValuesOf(tracks)), m)
      ensures ValuesOf(tracks) == AfterRefinement(f, old(ValuesOf(tracks)), m)
    {
      t := -1;
      if !EoirReadable(m) {
        return;
      }
      var best := SelectTrack(m);
      if best >= 0 {
        var outcome := f.updateEoir(tracks[best].est, m);
        if outcome.Some? {
          t := best;
          tracks[best].est := outcome.value;
          tracks[best].MarkEoirRefinementHit(m.confidence, m.traceId);
        }
      }
    }

    method RefineTracks(batch: seq<Measurement>)
      requires Valid() && |updatedFlags| == |tracks| && eoirUpdatedFlags == seq(|tracks|, _ => false)
      requires forall k | 0 <= k < |eoirIndices| :: eoirIndices[k] < |batch|
      modifies tracks, this`updatedFlags, this`eoirUpdatedFlags
      ensures eoirUpdatedFlags == EoirFlags(f, old(ValuesOf(tracks)), batch, eoirIndices, |eoirIndices|)
      ensures ValuesOf(tracks) == EoirStage(f, old(ValuesOf(tracks)), batch, eoirIndices, |eoirIndices|)
      ensures updatedFlags == Either(old(updatedFlags),
                                     EoirFlags(f, old(ValuesOf(tracks)), batch, eoirIndices, |eoirIndices|))
    {
      hide Refined, AfterRefinement;
      ghost var grown, flags0 := ValuesOf(tracks), updatedFlags;
      assert updatedFlags == Either(flags0, EoirFlags(f, grown, batch, eoirIndices, 0));
      for k := 0 to |eoirIndices|
        invariant ValuesOf(tracks) == EoirStage(f, grown, batch, eoirIndices, k)
        invariant eoirUpdatedFlags == EoirFlags(f, grown, batch, eoirIndices, k)
        invariant updatedFlags == Either(flags0, eoirUpdatedFlags)
      {
        var t := RefineOne(batch[eoirIndices[k]]);
        if t >= 0 {
          eoirUpdatedFlags := eoirUpdatedFlags[t := true];
          updatedFlags := updatedFlags[t := true];
        }
      }
    }

    /** How many tracks both sensors updated, for the metrics. */
    method CountMultisensor() returns (n: nat)
      requires |radarUpdatedFlags| == |eoirUpdatedFlags| == |tracks|
      ensures n == BothCount(radarUpdatedFlags, eoirUpdatedFlags)
    {
      n := 0;
      for t := 0 to |tracks|
        invariant n == BothCount(radarUpdatedFlags[..t], eoirUpdatedFlags[..t])
      {
        assert radarUpdatedFlags[..t+1][..t] == radarUpdatedFlags[..t]
               && eoirUpdatedFlags[..t+1][..t] == eoirUpdatedFlags[..t];
        if radarUpdatedFlags[t] && eoirUpdatedFlags[t] {
          n := n + 1;
        }
      }
      assert radarUpdatedFlags[..|tracks|] == radarUpdatedFlags && eoirUpdatedFlags[..|tracks|] == eoirUpdatedFlags;
    }

    method ReportUpdated()
      requires |updatedFlags| == |tracks| && deltas.updated == []
      modifies this`deltas
      ensures deltas == old(deltas).(updated := Flagged(ValuesOf(tracks), updatedFlags))
    {
      ghost var values := ValuesOf(tracks);
      for t := 0 to |tracks|
        invariant deltas == old(deltas).(updated := Flagged(values[..t], updatedFlags[..t]))
      {
        assert values[..t+1][..t] == values[..t] && updatedFlags[..t+1][..t] == updatedFlags[..t];
        if updatedFlags[t] {
          deltas := deltas.(updated := deltas.updated + [tracks[t].Value()]);
        }
      }
      assert values[..|tracks|] == values && updatedFlags[..|tracks|] == updatedFlags;
    }

    /** Applies the lifecycle rules to one track. */
    method SettleOne(t: nat)
      requires Valid() && t < |tracks|
      modifies tracks[t], this`deltas, this`recents
      ensures ValuesOf(tracks) == old(ValuesOf(tracks))[t := Settled(cfg, old(ValuesOf(tracks))[t])]
      ensures var v := old(ValuesOf(tracks))[t];
              && deltas == old(deltas).(
                   deleted := old(deltas).deleted + (if Dies(cfg, v) then [Settled(cfg, v)] else []),
                   confirmed := old(deltas).confirmed + (if Matures(cfg, v) then [Settled(cfg, v)] else []))
              && recents == old(recents) +
                   if Dies(cfg, v) then [Recent(v.id, f.position(v.est), v.status == Confirmed, cfg.warningWindow)]
                      else []
    {
      var track := tracks[t];
      var threshold := if track.status == Confirmed then cfg.confirmedDeleteMisses else cfg.deleteMisses;
      if track.q.misses >= threshold {
        var wasConfirmed := track.status == Confirmed;
        track.status := Deleted;
        deltas := deltas.(deleted := deltas.deleted + [track.Value()]);
        recents := recents + [Recent(track.id, f.position(track.est), wasConfirmed, cfg.warningWindow)];
      } else if track.status == Tentative && track.q.hits >= cfg.confirmHits {
        track.status := Confirmed;
        deltas := deltas.(confirmed := deltas.confirmed + [track.Value()]);
      }
    }

    /** Deletes, then confirms, track by track. */
    method SettleTracks()
      requires Valid() && deltas.deleted == [] && deltas.confirmed == []
      modifies tracks, this`deltas, this`recents
      ensures ValuesOf(tracks) == SettleAll(cfg, old(ValuesOf(tracks)))
      ensures deltas == old(deltas).(deleted := Deaths(cfg, old(ValuesOf(tracks))),
                                     confirmed := Confirmations(cfg, old(ValuesOf(tracks))))
      ensures recents == old(recents) + Obituaries(f, cfg, old(ValuesOf(tracks)))
    {
      hide Settled, Dies, Matures, Valid, ValuesOf;
      ghost var all := ValuesOf(tracks);
      for t := 0 to |tracks|
        invariant ValuesOf(tracks) == SettledUpTo(cfg, all, t)
        invariant deltas == old(deltas).(deleted := Deaths(cfg, all[..t]), confirmed := Confirmations(cfg, all[..t]))
        invariant recents == old(recents) + Obituaries(f, cfg, all[..t])
      {
        assert all[..t+1][..t] == all[..t];
        SettleOne(t);
      }
      assert all[..|tracks|] == all;
    }

    method EraseDeleted()
      requires Valid()
      modifies this`tracks
      ensures Valid() && ValuesOf(tracks) == Survivors(old(ValuesOf(tracks)))
      ensures forall t | 0 <= t < |tracks| :: tracks[t] in old(tracks)
    {
      var before := tracks;
      ghost var values := ValuesOf(before);
      var kept: seq<Track> := [];
      for t := 0 to |before|
        invariant ValuesOf(kept) == Survivors(values[..t])
        invariant Distinct(kept) && forall i | 0 <= i < |kept| :: kept[i] in before[..t]
      {
        assert values[..t+1][..t] == values[..t];
        if before[t].status != Deleted {
          kept := kept + [before[t]];
        }
      }
      assert values[..|before|] == values;
      tracks := kept;
    }

    /** Association, radar updates and misses. */
    method RadarPhase(batch: seq<Measurement>)
      returns (ghost s: seq<int>, unassignedTracks: nat, unassignedMeasurements: nat)
      requires Valid() && radarIndices == IndicesOf(batch, RangeBearing2D)
      modifies tracks, this`trackAssigned, this`measAssigned, this`updatedFlags, this`radarUpdatedFlags, this`deltas
      ensures var before := old(ValuesOf(tracks));
              && Assigns(before, batch, radarIndices, s)
              && IsAssociation(cfg, GatesOf(f, before, batch, radarIndices), |radarIndices|, s)
              && ValuesOf(tracks) == RadarStage(f, before, batch, radarIndices, s)
              && deltas == old(deltas).(coasted := old(deltas).coasted
                                        + Coasted(f, before, batch, radarIndices, s, |tracks|))
              && updatedFlags == radarUpdatedFlags == HitFlags(f, before, batch, radarIndices, s)
              && |measAssigned| == |batch|
              && (forall k | 0 <= k < |radarIndices| ::
                    measAssigned[radarIndices[k]] <==> Consumed(f, before, batch, radarIndices, s, k))
              && unassignedTracks + HitCount(f, before, batch, radarIndices, s, |tracks|) == |tracks|
              && unassignedMeasurements + HitCount(f, before, batch, radarIndices, s, |tracks|) == |radarIndices|
    {
      hide IsHit, AfterRadar, IsAssociation, ProgressAt, HitFlags, RadarStage, Coasted, HitCount, WithMisses, Missed;
      ghost var before := ValuesOf(tracks);
      var matches := Associate(batch);
      s := matches;
      var radarUpdates := RadarUpdates(batch, matches);
      ProgressHits(f, before, batch, radarIndices, s, |tracks|);
      CountsFit(f, before, batch, radarIndices, s, nextId);
      unassignedTracks := |tracks| - radarUpdates;
      unassignedMeasurements := |radarIndices| - radarUpdates;
      ProgressFlags(f, before, batch, radarIndices, s);
      forall k | 0 <= k < |radarIndices|
        ensures measAssigned[radarIndices[k]] <==> Consumed(f, before, batch, radarIndices, s, k)
      {
        ProgressMeasured(f, before, batch, radarIndices, s, |tracks|, k);
      }
      HitsThenMisses(f, before, batch, radarIndices, s, |tracks|);
      MarkMisses();
    }

    /** Everything before the lifecycle rules. */
    method Observe(batch: seq<Measurement>) returns (ghost s: seq<int>)
      requires Valid()
      modifies this, tracks
      ensures Valid() && forall t | 0 <= t < |tracks| :: tracks[t] in old(tracks) || fresh(tracks[t])
      ensures var st := old(Contents());
              && CanStep(cfg, f, st, Batch(batch, s))
              && ValuesOf(tracks) == Grown(f, st, batch, s)
              && updatedFlags == radarUpdatedFlags == RadarFlags(f, st, batch, s)
              && eoirIndices == IndicesOf(batch, BearingElevation)
              && nextId == Updated(f, cfg, st, batch, s).nextId
              && recents == Aged(st.recents)
              && deltas == Updated(f, cfg, st, batch, s).deltas.(confirmed := [], updated := [], deleted := [])
    {
      hide RadarStage, Created, Aged, Coasted, Consumed, IsAssociation, HitCount, HitFlags, RadarFlags, Entered, Grown,
        Updated, GatesOf, IndicesOf, Assigns, ValuesOf;
      ghost var st := Contents();
      deltas := NO_DELTAS;
      AgeRecentlyDeleted();
      SplitBatch(batch);
      ghost var before := ValuesOf(tracks);
      var unassignedTracks, unassignedMeasurements;
      s, unassignedTracks, unassignedMeasurements := RadarPhase(batch);
      EnteredIsUpdated(f, cfg, st, batch, s);
      CreateTracks(batch, s, before);
    }

    /** Refinement and the report of updated tracks. */
    method Refine(batch: seq<Measurement>) returns (multisensor: nat)
      requires Valid() && |updatedFlags| == |radarUpdatedFlags| == |tracks| && deltas.updated == []
      requires eoirIndices == IndicesOf(batch, BearingElevation)
      modifies tracks, this`updatedFlags, this`eoirUpdatedFlags, this`deltas
      ensures var grown := old(ValuesOf(tracks));
              var eoir := IndicesOf(batch, BearingElevation);
              && ValuesOf(tracks) == (if cfg.enableEoir then EoirStage(f, grown, batch, eoir, |eoir|) else grown)
              && eoirUpdatedFlags == (if cfg.enableEoir then EoirFlags(f, grown, batch, eoir, |eoir|)
                                      else seq(|grown|, _ => false))
              && updatedFlags == Either(old(updatedFlags), eoirUpdatedFlags)
              && multisensor == BothCount(radarUpdatedFlags, eoirUpdatedFlags)
              && deltas == old(deltas).(updated := Flagged(ValuesOf(tracks), updatedFlags))
    {
      hide Valid, Flagged, EoirStage, EoirFlags, BothCount;
      eoirUpdatedFlags := seq(|tracks|, _ => false);
      assert Either(updatedFlags, eoirUpdatedFlags) == updatedFlags;
      if cfg.enableEoir {
        RefineTracks(batch);
      }
      multisensor := CountMultisensor();
      ReportUpdated();
    }

    /** The lifecycle rules and the erasure of deleted tracks. */
    method ApplyLifecycleRules()
      requires Valid() && deltas.deleted == [] && deltas.confirmed == []
      modifies tracks, this`tracks, this`deltas, this`recents
      ensures Valid() && forall t | 0 <= t < |tracks| :: tracks[t] in old(tracks)
      ensures var all := old(ValuesOf(tracks));
              && ValuesOf(tracks) == Survivors(SettleAll(cfg, all))
              && deltas == old(deltas).(deleted := Deaths(cfg, all), confirmed := Confirmations(cfg, all))
              && recents == old(recents) + Obituaries(f, cfg, all)
    {
      hide SettleAll, Deaths, Confirmations, Obituaries, Survivors;
      SettleTracks();
      EraseDeleted();
    }

    /** One batch. The ghost result is the association the batch used. */
    method UpdateWithMeasurements(batch: seq<Measurement>)
      returns (snapshot: seq<TrackValue>, multisensor: nat, ghost s: seq<int>)
      requires Valid()
      modifies this, tracks
      ensures Valid()
      ensures CanStep(cfg, f, old(Contents()), Batch(batch, s))
      ensures Contents() == Updated(f, cfg, old(Contents()), batch, s)
      ensures snapshot == ValuesOf(tracks)
      ensures var st := old(Contents());
              && radarUpdatedFlags == RadarFlags(f, st, batch, s)
              && eoirUpdatedFlags == RefinedFlags(f, cfg, st, batch, s)
              && updatedFlags == UpdateFlags(f, cfg, st, batch, s)
              && multisensor == BothCount(radarUpdatedFlags, eoirUpdatedFlags)
    {
      ghost var st := Contents();
      hide Grown, UpdateFlags, RadarFlags, BothCount, EoirStage, EoirFlags, SettleAll, Deaths, Confirmations,
        Obituaries, Survivors, Flagged, IsAssociation, Created, HitFlags, Coasted, WarningsFor, Aged, Valid, Either;
      s := Observe(batch);
      FlagsAgree(f, cfg, st, batch, s);
      multisensor := Refine(batch);
      ApplyLifecycleRules();
      snapshot := ValuesOf(tracks);
    }
  }

  /** Entering the created tracks into the books of the radar stage gives what the specification says. */
  lemma {:induction false} EnteredIsUpdated(f: Filter, cfg: Config, st: State, batch: seq<Measurement>, s: seq<int>)
    requires Assigns(st.tracks, batch, IndicesOf(batch, RangeBearing2D), s)
    ensures var radar := IndicesOf(batch, RangeBearing2D);
            var coasted := Coasted(f, st.tracks, batch, radar, s, |st.tracks|);
            var book := Book(RadarStage(f, st.tracks, batch, radar, s), st.nextId, NO_DELTAS.(coasted := [] + coasted),
                             HitFlags(f, st.tracks, batch, radar, s));
            Entered(f, cfg, Aged(st.recents), book, Created(f, st.tracks, batch, radar, s, st.nextId, |radar|)) ==
            Book(Grown(f, st, batch, s), Updated(f, cfg, st, batch, s).nextId,
                 Updated(f, cfg, st, batch, s).deltas.(confirmed := [], updated := [], deleted := []),
                 RadarFlags(f, st, batch, s))
  {
    hide RadarStage, Created, Aged, Coasted, WarningsFor, IsHit, HitFlags, BeforeLifecycle, UpdateFlags, Flagged,
      Survivors, SettleAll, Deaths, Confirmations, Obituaries;
  }

  /** The three flag vectors are as long as the list before the lifecycle rules, and the tracks reported as updated
      are exactly those one of the sensors updated. */
  lemma {:induction false} FlagsAgree(f: Filter, cfg: Config, st: State, batch: seq<Measurement>, s: seq<int>)
    requires Assigns(st.tracks, batch, IndicesOf(batch, RangeBearing2D), s)
    ensures |RadarFlags(f, st, batch, s)| == |RefinedFlags(f, cfg, st, batch, s)| ==
            |BeforeLifecycle(f, cfg, st, batch, s)|
    ensures UpdateFlags(f, cfg, st, batch, s) == Either(RadarFlags(f, st, batch, s), RefinedFlags(f, cfg, st, batch, s))
  {
    var radar := IndicesOf(batch, RangeBearing2D);
    var flags := RadarFlags(f, st, batch, s);
    assert forall t | 0 <= t < |flags| :: flags[t] == (t < |st.tracks| && IsHit(f, st.tracks, batch, radar, s, t));
  }
}
