/** When a new track is reported as a possible continuation of a deleted one, over whole runs
    (src/fusion_core/track_manager.cpp:371-414, 518-532). */
module WarningLaws {
  import opened Basics
  import opened Tracks
  import opened TrackLaws

  /** The batches among the events from i up to k. */
  ghost function Batches(events: seq<Event>, i: nat, k: nat): nat
    requires k <= |events|
    decreases k
  {
    if k <= i then 0 else Batches(events, i, k - 1) + if events[k-1].Batch? then 1 else 0
  }

  /** The tracks event m puts to the lifecycle rules. */
  ghost function Judged(f: Filter, cfg: Config, states: seq<State>, events: seq<Event>, m: nat): seq<TrackValue>
    requires IsRun(f, cfg, states, events) && m < |events| && events[m].Batch?
  {
    assert CanStep(cfg, f, states[m], events[m]);
    BeforeLifecycle(f, cfg, states[m], events[m].batch, events[m].s)
  }

  ghost function ObituaryOf(f: Filter, cfg: Config, v: TrackValue, remaining: nat): Recent {
    Recent(v.id, f.position(v.est), v.status == Confirmed, remaining)
  }

  /** r is what is left, after k events, of the record event m made of track t. */
  ghost predicate Mourned(f: Filter, cfg: Config, states: seq<State>, events: seq<Event>, m: nat, t: nat, k: nat,
                          r: Recent)
    requires IsRun(f, cfg, states, events) && k <= |events|
  {
    && m < k && events[m].Batch? && t < |Judged(f, cfg, states, events, m)|
    && Dies(cfg, Judged(f, cfg, states, events, m)[t])
    && (Batches(events, m + 1, k) == 0 || Batches(events, m + 1, k) < cfg.warningWindow)
    && Batches(events, m + 1, k) + r.remaining == cfg.warningWindow
    && r == ObituaryOf(f, cfg, Judged(f, cfg, states, events, m)[t], r.remaining)
  }

  // ---------------------------------------------------------------- the records of one batch

  lemma {:induction false} AgedAre(recents: seq<Recent>, r: Recent)
    ensures r in Aged(recents) <==> r.remaining >= 1 && r.(remaining := r.remaining + 1) in recents
  {
    if recents != [] {
      var n := |recents| - 1;
      AgedAre(recents[..n], r);
      assert recents == recents[..n] + [recents[n]];
    }
  }

  lemma {:induction false} ObituariesAre(f: Filter, cfg: Config, all: seq<TrackValue>, r: Recent)
    ensures r in Obituaries(f, cfg, all) <==>
            exists t | 0 <= t < |all| :: Dies(cfg, all[t]) && r == ObituaryOf(f, cfg, all[t], cfg.warningWindow)
  {
    hide Dies;
    if all != [] {
      var n := |all| - 1;
      ObituariesAre(f, cfg, all[..n], r);
      if t :| 0 <= t < |all| && Dies(cfg, all[t]) && r == ObituaryOf(f, cfg, all[t], cfg.warningWindow) {
        assert t == n || all[..n][t] == all[t];
      }
    }
  }

  lemma {:induction false} NextRecents(f: Filter, cfg: Config, states: seq<State>, events: seq<Event>, k: nat)
    requires IsRun(f, cfg, states, events) && k < |events|
    ensures states[k+1].recents ==
            if events[k].Predict? then states[k].recents
            else Aged(states[k].recents) + Obituaries(f, cfg, Judged(f, cfg, states, events, k))
  {
    assert states[k+1] == Step(f, cfg, states[k], events[k]);
  }

  // ---------------------------------------------------------------- the records of a run

  lemma {:induction false} NothingMourned(f: Filter, cfg: Config, states: seq<State>, events: seq<Event>, r: Recent)
    requires IsRun(f, cfg, states, events)
    ensures r !in states[0].recents && forall m: nat, t: nat :: !Mourned(f, cfg, states, events, m, t, 0, r)
  {
  }

  lemma {:induction false} PredictKeepsMourned(f: Filter, cfg: Config, states: seq<State>, events: seq<Event>, m: nat,
                                               t: nat, k: nat, r: Recent)
    requires IsRun(f, cfg, states, events) && 0 < k <= |events| && events[k-1].Predict?
    ensures Mourned(f, cfg, states, events, m, t, k, r) <==> Mourned(f, cfg, states, events, m, t, k - 1, r)
  {
  }

  /** A batch takes one from every older record, and starts those of its own deletions. */
  lemma {:induction false} BatchAgesMourned(f: Filter, cfg: Config, states: seq<State>, events: seq<Event>, m: nat,
                                            t: nat, k: nat, r: Recent)
    requires IsRun(f, cfg, states, events) && 0 < k <= |events| && events[k-1].Batch? && m + 1 < k
    ensures Mourned(f, cfg, states, events, m, t, k, r) <==>
            r.remaining >= 1 && Mourned(f, cfg, states, events, m, t, k - 1, r.(remaining := r.remaining + 1))
  {
    assert Batches(events, m + 1, k) == Batches(events, m + 1, k - 1) + 1;
  }

  lemma {:induction false} FreshlyMourned(f: Filter, cfg: Config, states: seq<State>, events: seq<Event>, t: nat,
                                          k: nat,
                                          r: Recent)
    requires IsRun(f, cfg, states, events) && 0 < k <= |events| && events[k-1].Batch?
    ensures Mourned(f, cfg, states, events, k - 1, t, k, r) <==>
            && t < |Judged(f, cfg, states, events, k - 1)| && Dies(cfg, Judged(f, cfg, states, events, k - 1)[t])
            && r == ObituaryOf(f, cfg, Judged(f, cfg, states, events, k - 1)[t], cfg.warningWindow)
  {
  }

  lemma {:induction false} MournedIsPast(f: Filter, cfg: Config, states: seq<State>, events: seq<Event>, m: nat, t: nat,
                                         k: nat, r: Recent)
    requires IsRun(f, cfg, states, events) && k <= |events|
    requires Mourned(f, cfg, states, events, m, t, k, r)
    ensures m < k
  {
  }

  /** In every state of every run the records are those of the deletions within the window, each with what is left of
      its window. */
  lemma {:induction false} RecentsTellHistory(f: Filter, cfg: Config, states: seq<State>, events: seq<Event>, k: nat,
                                              r: Recent)
    requires IsRun(f, cfg, states, events) && k <= |events|
    ensures r in states[k].recents <==> exists m: nat, t: nat :: Mourned(f, cfg, states, events, m, t, k, r)
    decreases k
  {
    hide Mourned, Judged, Aged, Obituaries, Batches, Step, CanStep;
    if k == 0 {
      NothingMourned(f, cfg, states, events, r);
    } else if events[k-1].Predict? {
      NextRecents(f, cfg, states, events, k - 1);
      RecentsTellHistory(f, cfg, states, events, k - 1, r);
      if m: nat, t: nat :| Mourned(f, cfg, states, events, m, t, k, r) {
        PredictKeepsMourned(f, cfg, states, events, m, t, k, r);
      } else if r in states[k-1].recents {
        var m: nat, t: nat :| Mourned(f, cfg, states, events, m, t, k - 1, r);
        PredictKeepsMourned(f, cfg, states, events, m, t, k, r);
      }
    } else {
      NextRecents(f, cfg, states, events, k - 1);
      BatchRecents(f, cfg, states, events, k, r);
    }
  }

  lemma {:induction false} BatchRecents(f: Filter, cfg: Config, states: seq<State>, events: seq<Event>, k: nat,
                                        r: Recent)
    requires IsRun(f, cfg, states, events) && 0 < k <= |events| && events[k-1].Batch?
    ensures r in Aged(states[k-1].recents) + Obituaries(f, cfg, Judged(f, cfg, states, events, k - 1)) <==>
            exists m: nat, t: nat :: Mourned(f, cfg, states, events, m, t, k, r)
    decreases k, 0
  {
    hide Mourned, Judged, Aged, Obituaries, Batches, Dies, ObituaryOf, Step, CanStep;
    var older := r.(remaining := r.remaining + 1);
    AgedAre(states[k-1].recents, r);
    ObituariesAre(f, cfg, Judged(f, cfg, states, events, k - 1), r);
    RecentsTellHistory(f, cfg, states, events, k - 1, older);
    if m: nat, t: nat :| Mourned(f, cfg, states, events, m, t, k, r) {
      MournedIsPast(f, cfg, states, events, m, t, k, r);
      if m + 1 < k {
        BatchAgesMourned(f, cfg, states, events, m, t, k, r);
      } else {
        FreshlyMourned(f, cfg, states, events, t, k, r);
      }
    } else if r in Aged(states[k-1].recents) {
      var m: nat, t: nat :| Mourned(f, cfg, states, events, m, t, k - 1, older);
      MournedIsPast(f, cfg, states, events, m, t, k - 1, older);
      BatchAgesMourned(f, cfg, states, events, m, t, k, r);
    } else if r in Obituaries(f, cfg, Judged(f, cfg, states, events, k - 1)) {
      var all := Judged(f, cfg, states, events, k - 1);
      var t :| 0 <= t < |all| && Dies(cfg, all[t]) && r == ObituaryOf(f, cfg, all[t], cfg.warningWindow);
      FreshlyMourned(f, cfg, states, events, t, k, r);
    }
  }

  // ---------------------------------------------------------------- the warnings

  lemma {:induction false} WarningForIs(f: Filter, cfg: Config, recents: seq<Recent>, v: TrackValue, w: Warning)
    requires WarningFor(f, cfg, recents, v) == Some(w)
    ensures cfg.warningDistance > 0.0 && w.newId == v.id
    ensures exists r | r in recents ::
              && r.wasConfirmed && r.id == w.originalId
              && w.distance == Distance(f.sqrt, f.position(v.est), r.position) <= cfg.warningDistance
  {
    hide Distance;
    if !(recents[0].wasConfirmed && Distance(f.sqrt, f.position(v.est), recents[0].position) <= cfg.warningDistance) {
      WarningForIs(f, cfg, recents[1..], v, w);
    } else {
      assert recents[0] in recents;
    }
  }

  lemma {:induction false} NoWarningMeans(f: Filter, cfg: Config, recents: seq<Recent>, v: TrackValue, r: Recent)
    requires cfg.warningDistance > 0.0 && WarningFor(f, cfg, recents, v).None?
    requires r in recents && r.wasConfirmed
    ensures Distance(f.sqrt, f.position(v.est), r.position) > cfg.warningDistance
  {
    hide Distance;
    if r != recents[0] {
      NoWarningMeans(f, cfg, recents[1..], v, r);
    }
  }

  lemma {:induction false} WarningsAre(f: Filter, cfg: Config, recents: seq<Recent>, created: seq<TrackValue>,
                                       w: Warning)
    ensures w in WarningsFor(f, cfg, recents, created) <==>
            exists v | v in created :: WarningFor(f, cfg, recents, v) == Some(w)
  {
    if created != [] {
      var n := |created| - 1;
      var few := created[..n];
      WarningsAre(f, cfg, recents, few, w);
      LastWarning(f, cfg, recents, created, w);
      LastOrEarlier(created);
      hide WarningFor, WarningsFor;
      if w in WarningsFor(f, cfg, recents, few) {
        var v :| v in few && WarningFor(f, cfg, recents, v) == Some(w);
        assert v in created;
      }
      if v :| v in created && WarningFor(f, cfg, recents, v) == Some(w) {
        assert v in few || v == created[n];
      }
    }
  }

  lemma {:induction false} LastWarning(f: Filter, cfg: Config, recents: seq<Recent>, created: seq<TrackValue>,
                                       w: Warning)
    requires created != []
    ensures w in WarningsFor(f, cfg, recents, created) <==>
            || w in WarningsFor(f, cfg, recents, created[..|created|-1])
            || WarningFor(f, cfg, recents, created[|created|-1]) == Some(w)
  {
    hide WarningFor;
  }

  lemma {:induction false} LastOrEarlier(created: seq<TrackValue>)
    requires created != []
    ensures forall v :: v in created <==> v in created[..|created|-1] || v == created[|created|-1]
  {
    assert created == created[..|created|-1] + [created[|created|-1]];
  }

  /** The warning joins v to a track that event m deleted while it was confirmed, fewer than warningWindow batches
      before event k (k included), and within the warning distance of v. */
  ghost predicate DiedNear(f: Filter, cfg: Config, states: seq<State>, events: seq<Event>, m: nat, t: nat, k: nat,
                           v: TrackValue, w: Warning)
    requires IsRun(f, cfg, states, events) && k < |events|
  {
    && m < k && events[m].Batch? && t < |Judged(f, cfg, states, events, m)|
    && var gone := Judged(f, cfg, states, events, m)[t];
       && w.newId == v.id && w.originalId == gone.id && gone.status == Confirmed && Dies(cfg, gone)
       && Batches(events, m + 1, k + 1) < cfg.warningWindow
       && w.distance == Distance(f.sqrt, f.position(v.est), f.position(gone.est)) <= cfg.warningDistance
  }

  /** The records a batch compares its new tracks with are those with at least two batches left before it. */
  lemma {:induction false} ComparedWith(f: Filter, cfg: Config, states: seq<State>, events: seq<Event>, k: nat,
                                        older: Recent)
    requires IsRun(f, cfg, states, events) && k < |events| && older.remaining >= 1
    ensures older.(remaining := older.remaining - 1) in Aged(states[k].recents) <==>
            older.remaining >= 2 && exists m: nat, t: nat :: Mourned(f, cfg, states, events, m, t, k, older)
  {
    hide Mourned, Aged;
    AgedAre(states[k].recents, older.(remaining := older.remaining - 1));
    RecentsTellHistory(f, cfg, states, events, k, older);
  }

  lemma {:induction false} BatchWarnings(f: Filter, cfg: Config, states: seq<State>, events: seq<Event>, k: nat)
    requires IsRun(f, cfg, states, events) && k < |events| && events[k].Batch?
    ensures states[k+1].deltas.warnings == WarningsFor(f, cfg, Aged(states[k].recents), states[k+1].deltas.created)
  {
    assert states[k+1] == Step(f, cfg, states[k], events[k]);
  }

  lemma {:induction false} MournedDiedNear(f: Filter, cfg: Config, states: seq<State>, events: seq<Event>, m: nat,
                                           t: nat,
                                           k: nat, older: Recent, v: TrackValue, w: Warning)
    requires IsRun(f, cfg, states, events) && k < |events| && events[k].Batch?
    requires Mourned(f, cfg, states, events, m, t, k, older) && older.remaining >= 2 && older.wasConfirmed
    requires w.newId == v.id && w.originalId == older.id
    requires w.distance == Distance(f.sqrt, f.position(v.est), older.position) <= cfg.warningDistance
    ensures DiedNear(f, cfg, states, events, m, t, k, v, w)
  {
    hide Distance, Judged;
    assert Batches(events, m + 1, k + 1) == Batches(events, m + 1, k) + 1;
  }

  lemma {:induction false} NearIsMourned(f: Filter, cfg: Config, states: seq<State>, events: seq<Event>, m: nat, t: nat,
                                         k: nat, v: TrackValue, w: Warning) returns (older: Recent)
    requires IsRun(f, cfg, states, events) && k < |events| && events[k].Batch?
    requires DiedNear(f, cfg, states, events, m, t, k, v, w)
    ensures older.remaining >= 2 && older.wasConfirmed
    ensures Distance(f.sqrt, f.position(v.est), older.position) <= cfg.warningDistance
    ensures Mourned(f, cfg, states, events, m, t, k, older)
  {
    hide Distance;
    assert Batches(events, m + 1, k + 1) == Batches(events, m + 1, k) + 1;
    older := ObituaryOf(f, cfg, Judged(f, cfg, states, events, m)[t], cfg.warningWindow - Batches(events, m + 1, k));
  }

  /** In every batch of every run a warning joins a track it created to one recently deleted nearby. */
  lemma {:induction false} WarningsAreFounded(f: Filter, cfg: Config, states: seq<State>, events: seq<Event>, k: nat,
                                              w: Warning)
    requires IsRun(f, cfg, states, events) && k < |events| && events[k].Batch?
    requires w in states[k+1].deltas.warnings
    ensures cfg.warningDistance > 0.0
    ensures exists v, m: nat, t: nat | v in states[k+1].deltas.created ::
              DiedNear(f, cfg, states, events, m, t, k, v, w)
  {
    hide Mourned, Aged, WarningFor, WarningsFor, Distance, Judged, Batches;
    var recents, created := Aged(states[k].recents), states[k+1].deltas.created;
    BatchWarnings(f, cfg, states, events, k);
    WarningsAre(f, cfg, recents, created, w);
    var v :| v in created && WarningFor(f, cfg, recents, v) == Some(w);
    WarningForIs(f, cfg, recents, v, w);
    var r :| r in recents && r.wasConfirmed && r.id == w.originalId
             && w.distance == Distance(f.sqrt, f.position(v.est), r.position) <= cfg.warningDistance;
    var older := r.(remaining := r.remaining + 1);
    ComparedWith(f, cfg, states, events, k, older);
    var m: nat, t: nat :| Mourned(f, cfg, states, events, m, t, k, older);
    MournedDiedNear(f, cfg, states, events, m, t, k, older, v, w);
  }

  /** And every created track with a track recently deleted nearby is warned of. */
  lemma {:induction false} ReappearanceIsWarned(f: Filter, cfg: Config, states: seq<State>, events: seq<Event>, m: nat,
                                                t: nat, k: nat, v: TrackValue, near: Warning)
    requires IsRun(f, cfg, states, events) && k < |events| && events[k].Batch? && cfg.warningDistance > 0.0
    requires v in states[k+1].deltas.created && DiedNear(f, cfg, states, events, m, t, k, v, near)
    ensures exists w | w in states[k+1].deltas.warnings :: w.newId == v.id
  {
    hide Mourned, Aged, WarningFor, WarningsFor, Distance;
    var recents, created := Aged(states[k].recents), states[k+1].deltas.created;
    BatchWarnings(f, cfg, states, events, k);
    var older := NearIsMourned(f, cfg, states, events, m, t, k, v, near);
    ComparedWith(f, cfg, states, events, k, older);
    if WarningFor(f, cfg, recents, v).None? {
      NoWarningMeans(f, cfg, recents, v, older.(remaining := older.remaining - 1));
      assert false;
    }
    var w := WarningFor(f, cfg, recents, v).value;
    WarningForIs(f, cfg, recents, v, w);
    WarningsAre(f, cfg, recents, created, w);
  }

  lemma {:induction false} WindowNeeded(f: Filter, cfg: Config, states: seq<State>, events: seq<Event>, m: nat, t: nat,
                                        k: nat, v: TrackValue, w: Warning)
    requires IsRun(f, cfg, states, events) && k < |events| && events[k].Batch?
    requires DiedNear(f, cfg, states, events, m, t, k, v, w)
    ensures cfg.warningWindow >= 2
  {
    assert Batches(events, m + 1, k + 1) >= 1;
  }

  /** A window of one batch is as good as none: the record is aged before the next batch looks at it. */
  lemma {:induction false} ShortWindowNeverWarns(f: Filter, cfg: Config, states: seq<State>, events: seq<Event>, k: nat)
    requires IsRun(f, cfg, states, events) && k < |events| && events[k].Batch? && cfg.warningWindow <= 1
    ensures states[k+1].deltas.warnings == []
  {
    hide DiedNear, Batches;
    if states[k+1].deltas.warnings != [] {
      var w := states[k+1].deltas.warnings[0];
      WarningsAreFounded(f, cfg, states, events, k, w);
      var v, m: nat, t: nat :| v in states[k+1].deltas.created && DiedNear(f, cfg, states, events, m, t, k, v, w);
      WindowNeeded(f, cfg, states, events, m, t, k, v, w);
    }
  }
}
