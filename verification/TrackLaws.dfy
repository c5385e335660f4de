/** Laws of the track lifecycle: conservation in one batch, and invariants over whole runs. */
module TrackLaws {
  import opened Basics
  import opened Matching
  import opened Tracks

  // ---------------------------------------------------------------- one batch: who used what

  /** The radar measurement each track of the grown list came from: its update, its seed, or none (-1). */
  ghost function Uses(f: Filter, tracks: seq<TrackValue>, batch: seq<Measurement>, radar: seq<nat>,
                      s: seq<int>): (r: seq<int>)
    requires Assigns(tracks, batch, radar, s)
  {
    Updates(f, tracks, batch, radar, s) + SeedNumbers(f, tracks, batch, radar, s, |radar|)
  }

  ghost function Updates(f: Filter, tracks: seq<TrackValue>, batch: seq<Measurement>, radar: seq<nat>,
                         s: seq<int>): (r: seq<int>)
    requires Assigns(tracks, batch, radar, s)
    ensures |r| == |tracks|
  {
    seq(|tracks|, t requires 0 <= t < |tracks| => if IsHit(f, tracks, batch, radar, s, t) then s[t] else -1)
  }

  /** The radar measurements among the first k that start a track, in order. */
  ghost function SeedNumbers(f: Filter, tracks: seq<TrackValue>, batch: seq<Measurement>, radar: seq<nat>, s: seq<int>,
                             k: nat): (r: seq<int>)
    requires Assigns(tracks, batch, radar, s) && k <= |radar|
    ensures forall i | 0 <= i < |r| :: 0 <= r[i] < k && Seeds(f, tracks, batch, radar, s, r[i])
    ensures forall i, j | 0 <= i < j < |r| :: r[i] < r[j]
  {
    if k == 0 then []
    else
      var r := SeedNumbers(f, tracks, batch, radar, s, k - 1);
      if Seeds(f, tracks, batch, radar, s, k - 1) then r + [k - 1] else r
  }

  /** Each radar measurement updates at most one track or starts at most one, never both. */
  lemma {:induction false} UsesAreDistinct(f: Filter, tracks: seq<TrackValue>, batch: seq<Measurement>,
                                           radar: seq<nat>, s: seq<int>)
    requires Assigns(tracks, batch, radar, s)
    ensures IsPartial(Uses(f, tracks, batch, radar, s), |radar|)
  {
    var u := Uses(f, tracks, batch, radar, s);
    var seeds := SeedNumbers(f, tracks, batch, radar, s, |radar|);
    forall i, k | 0 <= i < k < |u| && u[i] >= 0 ensures u[i] != u[k] {
      if i < |tracks| && k >= |tracks| {
        var number := seeds[k - |tracks|];
        assert Seeds(f, tracks, batch, radar, s, number);
      }
    }
  }

  lemma {:induction false} SeedNumbersCount(f: Filter, tracks: seq<TrackValue>, batch: seq<Measurement>,
                                            radar: seq<nat>, s: seq<int>, nextId: nat, k: nat)
    requires Assigns(tracks, batch, radar, s) && k <= |radar|
    ensures |SeedNumbers(f, tracks, batch, radar, s, k)| == |Created(f, tracks, batch, radar, s, nextId, k)|
    ensures forall i | 0 <= i < |SeedNumbers(f, tracks, batch, radar, s, k)| ::
              Created(f, tracks, batch, radar, s, nextId, k)[i] ==
              Newborn(f, nextId + i, batch[radar[SeedNumbers(f, tracks, batch, radar, s, k)[i]]])
  {
    if k > 0 {
      SeedNumbersCount(f, tracks, batch, radar, s, nextId, k - 1);
    }
  }

  lemma {:induction false} UpdatesCount(f: Filter, tracks: seq<TrackValue>, batch: seq<Measurement>, radar: seq<nat>,
                                        s: seq<int>, k: nat)
    requires Assigns(tracks, batch, radar, s) && k <= |tracks|
    ensures Size(Updates(f, tracks, batch, radar, s)[..k]) == HitCount(f, tracks, batch, radar, s, k)
  {
    var u := Updates(f, tracks, batch, radar, s);
    if k > 0 {
      UpdatesCount(f, tracks, batch, radar, s, k - 1);
      assert u[..k][..k-1] == u[..k-1];
    }
  }

  lemma {:induction false} SizeConcat(a: seq<int>, b: seq<int>)
    ensures Size(a + b) == Size(a) + Size(b)
  {
    if b == [] {
      assert a + b == a;
    } else {
      SizeConcat(a, b[..|b|-1]);
      assert (a + b)[..|a + b|-1] == a + b[..|b|-1];
    }
  }

  /** No count the batch reports as a difference can go below zero. */
  lemma {:induction false} CountsFit(f: Filter, tracks: seq<TrackValue>, batch: seq<Measurement>, radar: seq<nat>,
                                     s: seq<int>, nextId: nat)
    requires Assigns(tracks, batch, radar, s)
    ensures HitCount(f, tracks, batch, radar, s, |tracks|) + |Coasted(f, tracks, batch, radar, s, |tracks|)| == |tracks|
    ensures HitCount(f, tracks, batch, radar, s, |tracks|) + |Created(f, tracks, batch, radar, s, nextId, |radar|)| <=
            |radar|
  {
    var u, seeds := Updates(f, tracks, batch, radar, s), SeedNumbers(f, tracks, batch, radar, s, |radar|);
    UsesAreDistinct(f, tracks, batch, radar, s);
    SizeAtMostCols(u + seeds, |radar|);
    SizeConcat(u, seeds);
    SizeFull(seeds);
    UpdatesCount(f, tracks, batch, radar, s, |tracks|);
    assert u[..|tracks|] == u;
    SeedNumbersCount(f, tracks, batch, radar, s, nextId, |radar|);
    HitsPlusCoasts(f, tracks, batch, radar, s, |tracks|);
  }

  lemma {:induction false} HitsPlusCoasts(f: Filter, tracks: seq<TrackValue>, batch: seq<Measurement>, radar: seq<nat>,
                                          s: seq<int>, k: nat)
    requires Assigns(tracks, batch, radar, s) && k <= |tracks|
    ensures HitCount(f, tracks, batch, radar, s, k) + |Coasted(f, tracks, batch, radar, s, k)| == k
  {
    if k > 0 {
      HitsPlusCoasts(f, tracks, batch, radar, s, k - 1);
    }
  }

  // ---------------------------------------------------------------- one batch: the counters of each track

  /** The counters the lifecycle depends on. */
  ghost predicate SameCounters(a: TrackValue, b: TrackValue) {
    && a.id == b.id && a.status == b.status
    && a.q.ageTicks == b.q.ageTicks && a.q.hits == b.q.hits && a.q.misses == b.q.misses
  }

  lemma {:induction false} RefinementKeepsCounters(f: Filter, tracks: seq<TrackValue>, batch: seq<Measurement>,
                                                   eoir: seq<nat>, k: nat, t: nat)
    requires k <= |eoir| && forall j | 0 <= j < |eoir| :: eoir[j] < |batch|
    requires t < |tracks|
    ensures SameCounters(EoirStage(f, tracks, batch, eoir, k)[t], tracks[t])
  {
    if k > 0 {
      RefinementKeepsCounters(f, tracks, batch, eoir, k - 1, t);
    }
  }

  /** One tick of a track's life: it is hit, or it is missed; nothing else moves its counters. */
  ghost predicate Ticked(before: TrackValue, after: TrackValue, hit: bool) {
    && after.id == before.id && after.status == before.status
    && after.q.ageTicks == before.q.ageTicks + 1
    && (if hit then after.q.hits == before.q.hits + 1 && after.q.misses == 0
        else after.q.hits == before.q.hits && after.q.misses == before.q.misses + 1)
  }

  ghost predicate IsFirstHit(v: TrackValue, id: nat) {
    v.id == id && v.status == Tentative && v.q.ageTicks == 1 && v.q.hits == 1 && v.q.misses == 0
  }

  /** Prior tracks tick once each, and are followed by the created tracks with consecutive new ids. */
  lemma {:induction false} BatchTicks(f: Filter, cfg: Config, st: State, batch: seq<Measurement>, s: seq<int>, t: nat)
    requires Assigns(st.tracks, batch, IndicesOf(batch, RangeBearing2D), s)
    requires t < |BeforeLifecycle(f, cfg, st, batch, s)|
    ensures var all := BeforeLifecycle(f, cfg, st, batch, s);
            var radar := IndicesOf(batch, RangeBearing2D);
            && |all| == |st.tracks| + |Updated(f, cfg, st, batch, s).deltas.created|
            && (if t < |st.tracks| then Ticked(st.tracks[t], all[t], IsHit(f, st.tracks, batch, radar, s, t))
                else IsFirstHit(all[t], st.nextId + (t - |st.tracks|)))
  {
    var radar := IndicesOf(batch, RangeBearing2D);
    var eoir := IndicesOf(batch, BearingElevation);
    var grown := Grown(f, st, batch, s);
    if cfg.enableEoir {
      RefinementKeepsCounters(f, grown, batch, eoir, |eoir|, t);
    }
    if t >= |st.tracks| {
      SeedNumbersCount(f, st.tracks, batch, radar, s, st.nextId, |radar|);
    }
  }

  // ---------------------------------------------------------------- one batch: the list

  ghost function Ids(tracks: seq<TrackValue>): (r: seq<nat>)
    ensures |r| == |tracks| && forall i | 0 <= i < |r| :: r[i] == tracks[i].id
  {
    seq(|tracks|, i requires 0 <= i < |tracks| => tracks[i].id)
  }

  ghost function Without(ids: seq<nat>, gone: seq<nat>): seq<nat> {
    if ids == [] then []
    else Without(ids[..|ids|-1], gone) + if ids[|ids|-1] in gone then [] else [ids[|ids|-1]]
  }

  ghost predicate Increasing(ids: seq<nat>, bound: nat) {
    && (forall i | 0 <= i < |ids| :: ids[i] < bound)
    && (forall i, j | 0 <= i < j < |ids| :: ids[i] < ids[j])
  }

  lemma {:induction false} DeathsAre(cfg: Config, all: seq<TrackValue>, id: nat)
    ensures id in Ids(Deaths(cfg, all)) <==> exists t :: 0 <= t < |all| && all[t].id == id && Dies(cfg, all[t])
  {
    if all != [] {
      var n := |all| - 1;
      DeathsAre(cfg, all[..n], id);
      var d := Deaths(cfg, all[..n]);
      if Dies(cfg, all[n]) {
        assert Ids(d + [Settled(cfg, all[n])]) == Ids(d) + [all[n].id];
      } else {
        assert d + [] == d;
      }
      if t :| 0 <= t < |all| && all[t].id == id && Dies(cfg, all[t]) {
        assert t == n || (all[..n][t].id == id && Dies(cfg, all[..n][t]));
      }
    }
  }

  lemma {:induction false} SurvivorsAre(cfg: Config, all: seq<TrackValue>, gone: seq<nat>)
    requires forall t | 0 <= t < |all| :: all[t].status != Deleted
    requires forall t | 0 <= t < |all| :: Dies(cfg, all[t]) <==> all[t].id in gone
    ensures Ids(Survivors(SettleAll(cfg, all))) == Without(Ids(all), gone)
  {
    if all != [] {
      var n := |all| - 1;
      SurvivorsAre(cfg, all[..n], gone);
      assert SettleAll(cfg, all)[..n] == SettleAll(cfg, all[..n]);
      assert Ids(all)[..n] == Ids(all[..n]);
      var r := Survivors(SettleAll(cfg, all[..n]));
      assert r + [] == r;
      assert Ids(r + [Settled(cfg, all[n])]) == Ids(r) + [all[n].id];
    }
  }

  /** The new list is the old list plus the created tracks minus the deleted ones, in order. */
  lemma {:induction false} ListConservation(f: Filter, cfg: Config, st: State, batch: seq<Measurement>, s: seq<int>)
    requires Invariant(cfg, st)
    requires Assigns(st.tracks, batch, IndicesOf(batch, RangeBearing2D), s)
    ensures var st' := Updated(f, cfg, st, batch, s);
            Ids(st'.tracks) == Without(Ids(st.tracks) + Ids(st'.deltas.created), Ids(st'.deltas.deleted))
  {
    var all := BeforeLifecycle(f, cfg, st, batch, s);
    var st' := Updated(f, cfg, st, batch, s);
    var gone := Ids(st'.deltas.deleted);
    BatchIds(f, cfg, st, batch, s);
    forall t | 0 <= t < |all| ensures all[t].status != Deleted {
      BatchTicks(f, cfg, st, batch, s, t);
    }
    forall t | 0 <= t < |all| ensures Dies(cfg, all[t]) <==> all[t].id in gone {
      DeathsAre(cfg, all, all[t].id);
      assert forall r | 0 <= r < |all| && Ids(all)[r] == Ids(all)[t] :: r == t;
    }
    SurvivorsAre(cfg, all, gone);
  }

  /** Before the lifecycle rules the ids are the old ones followed by fresh ones. */
  lemma {:induction false} BatchIds(f: Filter, cfg: Config, st: State, batch: seq<Measurement>, s: seq<int>)
    requires Increasing(Ids(st.tracks), st.nextId)
    requires Assigns(st.tracks, batch, IndicesOf(batch, RangeBearing2D), s)
    ensures var all := BeforeLifecycle(f, cfg, st, batch, s);
            var st' := Updated(f, cfg, st, batch, s);
            && Ids(all) == Ids(st.tracks) + Ids(st'.deltas.created)
            && Increasing(Ids(all), st'.nextId)
  {
    var all := BeforeLifecycle(f, cfg, st, batch, s);
    var st' := Updated(f, cfg, st, batch, s);
    var created := st'.deltas.created;
    CreatedIds(f, cfg, st, batch, s);
    hide BeforeLifecycle, Updated, IsHit;
    forall t | 0 <= t < |all|
      ensures all[t].id == (Ids(st.tracks) + Ids(created))[t]
    {
      BatchTicks(f, cfg, st, batch, s, t);
    }
  }

  lemma {:induction false} CreatedIds(f: Filter, cfg: Config, st: State, batch: seq<Measurement>, s: seq<int>)
    requires Assigns(st.tracks, batch, IndicesOf(batch, RangeBearing2D), s)
    ensures var st' := Updated(f, cfg, st, batch, s);
            && |BeforeLifecycle(f, cfg, st, batch, s)| == |st.tracks| + |st'.deltas.created|
            && st'.nextId == st.nextId + |st'.deltas.created|
            && (forall i | 0 <= i < |st'.deltas.created| :: st'.deltas.created[i].id == st.nextId + i)
  {
    var radar := IndicesOf(batch, RangeBearing2D);
    SeedNumbersCount(f, st.tracks, batch, radar, s, st.nextId, |radar|);
  }

  // ---------------------------------------------------------------- the lifecycle invariant

  /** Where a track may be between batches. */
  ghost predicate TrackInvariant(cfg: Config, v: TrackValue) {
    match v.status
    case Tentative => v.q.hits < cfg.confirmHits && v.q.misses < cfg.deleteMisses
    case Confirmed => v.q.hits >= cfg.confirmHits && v.q.misses < cfg.confirmedDeleteMisses
    case Deleted => false
  }

  ghost predicate Invariant(cfg: Config, st: State) {
    && Increasing(Ids(st.tracks), st.nextId)
    && (forall t | 0 <= t < |st.tracks| :: TrackInvariant(cfg, st.tracks[t]))
  }

  const INITIAL := State([], 1, [], NO_DELTAS)

  lemma {:induction false} SurvivorsIncrease(cfg: Config, all: seq<TrackValue>, bound: nat)
    requires Increasing(Ids(all), bound)
    ensures Increasing(Ids(Survivors(SettleAll(cfg, all))), bound)
    ensures forall id | id in Ids(Survivors(SettleAll(cfg, all))) :: id in Ids(all)
  {
    hide Settled;
    if all != [] {
      var n := |all| - 1;
      var v := Settled(cfg, all[n]);
      SettledKeepsCounters(cfg, all[n]);
      var few, kept := Ids(all[..n]), Survivors(SettleAll(cfg, all[..n]));
      assert Ids(all) == few + [all[n].id];
      SurvivorsIncrease(cfg, all[..n], all[n].id) by {
        assert forall k | 0 <= k < n :: Ids(all)[k] == few[k];
      }
      assert SettleAll(cfg, all)[..n] == SettleAll(cfg, all[..n]);
      if v.status == Deleted {
        assert Survivors(SettleAll(cfg, all)) == kept;
      } else {
        assert Survivors(SettleAll(cfg, all)) == kept + [v];
        assert Ids(kept + [v]) == Ids(kept) + [all[n].id];
      }
    }
  }

  lemma {:induction false} SurvivorsKeep(cfg: Config, all: seq<TrackValue>)
    requires forall t | 0 <= t < |all| ::
               Settled(cfg, all[t]).status != Deleted ==> TrackInvariant(cfg, Settled(cfg, all[t]))
    ensures forall v | v in Survivors(SettleAll(cfg, all)) :: TrackInvariant(cfg, v)
  {
    if all != [] {
      var n := |all| - 1;
      SurvivorsKeep(cfg, all[..n]);
      assert SettleAll(cfg, all)[..n] == SettleAll(cfg, all[..n]);
    }
  }

  /** One batch keeps the invariant, provided a confirmed track may miss at least once. */
  lemma {:induction false} BatchKeepsInvariant(f: Filter, cfg: Config, st: State, batch: seq<Measurement>, s: seq<int>)
    requires cfg.confirmedDeleteMisses >= 1 && Invariant(cfg, st)
    requires Assigns(st.tracks, batch, IndicesOf(batch, RangeBearing2D), s)
    ensures Invariant(cfg, Updated(f, cfg, st, batch, s))
  {
    var all := BeforeLifecycle(f, cfg, st, batch, s);
    BatchIds(f, cfg, st, batch, s);
    forall t | 0 <= t < |all|
      ensures Settled(cfg, all[t]).status != Deleted ==> TrackInvariant(cfg, Settled(cfg, all[t]))
    {
      BatchTicks(f, cfg, st, batch, s, t);
    }
    SurvivorsIncrease(cfg, all, Updated(f, cfg, st, batch, s).nextId);
    SurvivorsKeep(cfg, all);
  }

  /** A track is confirmed only in a batch that hits it, or the one that creates it. */
  lemma {:induction false} ConfirmedOnlyOnHit(f: Filter, cfg: Config, st: State, batch: seq<Measurement>, s: seq<int>,
                                              t: nat)
    requires Invariant(cfg, st)
    requires Assigns(st.tracks, batch, IndicesOf(batch, RangeBearing2D), s)
    requires t < |BeforeLifecycle(f, cfg, st, batch, s)|
    requires Matures(cfg, BeforeLifecycle(f, cfg, st, batch, s)[t])
    ensures t >= |st.tracks| || IsHit(f, st.tracks, batch, IndicesOf(batch, RangeBearing2D), s, t)
    ensures BeforeLifecycle(f, cfg, st, batch, s)[t].q.hits == if t < |st.tracks| then cfg.confirmHits else 1
  {
    BatchTicks(f, cfg, st, batch, s, t);
  }

  /** A track is deleted exactly in the batch whose miss brings its count to the threshold of its status. */
  lemma {:induction false} DeletedOnThresholdMiss(f: Filter, cfg: Config, st: State, batch: seq<Measurement>,
                                                  s: seq<int>, t: nat)
    requires cfg.deleteMisses >= 1 && cfg.confirmedDeleteMisses >= 1 && Invariant(cfg, st)
    requires Assigns(st.tracks, batch, IndicesOf(batch, RangeBearing2D), s)
    requires t < |BeforeLifecycle(f, cfg, st, batch, s)|
    ensures Dies(cfg, BeforeLifecycle(f, cfg, st, batch, s)[t]) <==>
            && t < |st.tracks|
            && !IsHit(f, st.tracks, batch, IndicesOf(batch, RangeBearing2D), s, t)
            && st.tracks[t].q.misses + 1 == DeleteThreshold(cfg, st.tracks[t])
  {
    BatchTicks(f, cfg, st, batch, s, t);
  }

  // ---------------------------------------------------------------- whole runs

  datatype Event = Predict(dt: real) | Batch(batch: seq<Measurement>, s: seq<int>)

  ghost predicate CanStep(cfg: Config, f: Filter, st: State, e: Event) {
    e.Batch? ==>
      && Assigns(st.tracks, e.batch, IndicesOf(e.batch, RangeBearing2D), e.s)
      && IsAssociation(cfg, GatesOf(f, st.tracks, e.batch, IndicesOf(e.batch, RangeBearing2D)),
                       |IndicesOf(e.batch, RangeBearing2D)|, e.s)
  }

  ghost function Step(f: Filter, cfg: Config, st: State, e: Event): State
    requires CanStep(cfg, f, st, e)
  {
    match e
    case Predict(dt) => Predicted(f, st, dt)
    case Batch(batch, s) => Updated(f, cfg, st, batch, s)
  }

  /** states[k] is what k events make of the initial state. */
  ghost predicate IsRun(f: Filter, cfg: Config, states: seq<State>, events: seq<Event>) {
    && |states| == |events| + 1 && states[0] == INITIAL
    && (forall k | 0 <= k < |events| ::
          CanStep(cfg, f, states[k], events[k]) && states[k+1] == Step(f, cfg, states[k], events[k]))
  }

  /** The batches among the first k events in which `id` coasted. */
  ghost function CoastCount(states: seq<State>, events: seq<Event>, id: nat, k: nat): nat
    requires k <= |events| < |states|
  {
    if k == 0 then 0
    else CoastCount(states, events, id, k - 1)
         + if events[k-1].Batch? && id in Ids(states[k].deltas.coasted) then 1 else 0
  }

  /** How many of the last batches in a row, counting back from event k, `id` coasted. */
  ghost function CoastStreak(states: seq<State>, events: seq<Event>, id: nat, k: nat): nat
    requires k <= |events| < |states|
  {
    if k == 0 then 0
    else if events[k-1].Predict? then CoastStreak(states, events, id, k - 1)
    else if id in Ids(states[k].deltas.coasted) then CoastStreak(states, events, id, k - 1) + 1
    else 0
  }

  lemma {:induction false} PredictKeepsInvariant(f: Filter, cfg: Config, st: State, dt: real)
    requires Invariant(cfg, st)
    ensures Invariant(cfg, Predicted(f, st, dt)) && Ids(Predicted(f, st, dt).tracks) == Ids(st.tracks)
  {
  }

  /** Every state of every run satisfies the lifecycle invariant. */
  lemma {:induction false} RunInvariant(f: Filter, cfg: Config, states: seq<State>, events: seq<Event>, k: nat)
    requires cfg.confirmedDeleteMisses >= 1 && IsRun(f, cfg, states, events) && k <= |events|
    ensures Invariant(cfg, states[k])
  {
    if k > 0 {
      RunInvariant(f, cfg, states, events, k - 1);
      match events[k-1]
      case Predict(dt) => PredictKeepsInvariant(f, cfg, states[k-1], dt);
      case Batch(batch, s) => BatchKeepsInvariant(f, cfg, states[k-1], batch, s);
    }
  }

  lemma {:induction false} PredictKeepsIds(f: Filter, st: State, dt: real)
    ensures Ids(Predicted(f, st, dt).tracks) == Ids(st.tracks)
  {
  }

  /** What one event may do to the ids: some go, and new ones are those handed out. */
  lemma {:induction false} StepIds(f: Filter, cfg: Config, st: State, e: Event)
    requires CanStep(cfg, f, st, e) && Increasing(Ids(st.tracks), st.nextId)
    ensures var st' := Step(f, cfg, st, e);
            && Increasing(Ids(st'.tracks), st'.nextId) && st.nextId <= st'.nextId
            && (forall id | id in Ids(st'.tracks) :: id in Ids(st.tracks) || st.nextId <= id)
  {
    match e
    case Predict(dt) => PredictKeepsIds(f, st, dt);
    case Batch(batch, s) =>
      var all, st' := BeforeLifecycle(f, cfg, st, batch, s), Updated(f, cfg, st, batch, s);
      BatchIds(f, cfg, st, batch, s);
      CreatedIds(f, cfg, st, batch, s);
      SurvivorsIncrease(cfg, all, st'.nextId);
  }

  lemma {:induction false} NothingIncreases(bound: nat)
    ensures Increasing(Ids([]), bound)
  {
  }

  /** In every state of every run the ids rise along the list and lie between 1 and the next id. */
  lemma {:induction false} RunIds(f: Filter, cfg: Config, states: seq<State>, events: seq<Event>, k: nat)
    requires IsRun(f, cfg, states, events) && k <= |events|
    ensures Increasing(Ids(states[k].tracks), states[k].nextId)
    ensures states[k].nextId >= 1 && forall id | id in Ids(states[k].tracks) :: id >= 1
  {
    hide Step, CanStep, Increasing;
    if k > 0 {
      RunIds(f, cfg, states, events, k - 1);
      StepIds(f, cfg, states[k-1], events[k-1]);
      assert states[k-1+1] == Step(f, cfg, states[k-1], events[k-1]);
    } else {
      NothingIncreases(1);
    }
  }

  /** An id once handed out and no longer in the list never returns to it. */
  lemma {:induction false} GoneStaysGone(f: Filter, cfg: Config, states: seq<State>, events: seq<Event>, j: nat, k: nat,
                                         id: nat)
    requires IsRun(f, cfg, states, events) && j <= k <= |events|
    requires id < states[j].nextId && id !in Ids(states[j].tracks)
    ensures id !in Ids(states[k].tracks)
  {
    hide Step, CanStep, Increasing;
    if j < k {
      GoneStaysGone(f, cfg, states, events, j, k - 1, id);
      NextIdGrows(f, cfg, states, events, j, k - 1);
      RunIds(f, cfg, states, events, k - 1);
      StepIds(f, cfg, states[k-1], events[k-1]);
      assert states[k-1+1] == Step(f, cfg, states[k-1], events[k-1]);
    }
  }

  /** Ids are handed out in increasing order: what a later batch creates was never in use before. */
  lemma {:induction false} IdsNeverReused(f: Filter, cfg: Config, states: seq<State>, events: seq<Event>, j: nat,
                                          k: nat, t: nat)
    requires IsRun(f, cfg, states, events)
    requires j <= k < |events| && events[k].Batch? && t < |states[k+1].deltas.created|
    ensures states[k+1].deltas.created[t].id >= states[k].nextId >= states[j].nextId
    ensures forall i | 0 <= i < |states[j].tracks| :: states[j].tracks[i].id < states[k+1].deltas.created[t].id
  {
    assert states[k+1] == Step(f, cfg, states[k], events[k]);
    CreatedIds(f, cfg, states[k], events[k].batch, events[k].s);
    hide Updated;
    NextIdGrows(f, cfg, states, events, j, k);
    RunIds(f, cfg, states, events, j);
    assert forall i | 0 <= i < |states[j].tracks| :: Ids(states[j].tracks)[i] < states[j].nextId;
  }

  lemma {:induction false} NextIdGrows(f: Filter, cfg: Config, states: seq<State>, events: seq<Event>, j: nat, k: nat)
    requires IsRun(f, cfg, states, events) && j <= k <= |events|
    ensures states[j].nextId <= states[k].nextId
  {
    if j < k {
      NextIdGrows(f, cfg, states, events, j, k - 1);
      assert states[k] == Step(f, cfg, states[k-1], events[k-1]);
    }
  }

  lemma {:induction false} CoastedAre(f: Filter, tracks: seq<TrackValue>, batch: seq<Measurement>, radar: seq<nat>,
                                      s: seq<int>, k: nat, id: nat)
    requires Assigns(tracks, batch, radar, s) && k <= |tracks|
    ensures id in Ids(Coasted(f, tracks, batch, radar, s, k)) <==>
            exists t :: 0 <= t < k && tracks[t].id == id && !IsHit(f, tracks, batch, radar, s, t)
  {
    if k > 0 {
      CoastedAre(f, tracks, batch, radar, s, k - 1, id);
      var c := Coasted(f, tracks, batch, radar, s, k - 1);
      assert c + [] == c;
      assert Ids(c + [AfterRadar(f, tracks, batch, radar, s, k - 1)]) == Ids(c) + [tracks[k-1].id];
    }
  }

  /** A survivor of the lifecycle rules is some track they were applied to. */
  lemma {:induction false} SurvivorSource(cfg: Config, all: seq<TrackValue>, t: nat) returns (k: nat)
    requires t < |Survivors(SettleAll(cfg, all))|
    ensures k < |all| && Survivors(SettleAll(cfg, all))[t] == Settled(cfg, all[k])
  {
    var n := |all| - 1;
    assert SettleAll(cfg, all)[..n] == SettleAll(cfg, all[..n]);
    if t < |Survivors(SettleAll(cfg, all[..n]))| {
      k := SurvivorSource(cfg, all[..n], t);
    } else {
      k := n;
    }
  }

  /** What a track's counters say about the run so far: its age is its hits plus every batch it coasted,
      and its misses are the batches it has coasted in a row. */
  ghost predicate CountersTell(states: seq<State>, events: seq<Event>, k: nat, v: TrackValue)
    requires k <= |events| < |states|
  {
    && v.q.ageTicks == v.q.hits + CoastCount(states, events, v.id, k)
    && v.q.misses == CoastStreak(states, events, v.id, k)
  }

  /** An id not yet handed out has never coasted. */
  lemma {:induction false} FutureIdsNeverCoasted(f: Filter, cfg: Config, states: seq<State>, events: seq<Event>,
                                                 k: nat, id: nat)
    requires IsRun(f, cfg, states, events) && k <= |events|
    requires id >= states[k].nextId
    ensures CoastCount(states, events, id, k) == 0 && CoastStreak(states, events, id, k) == 0
  {
    if k > 0 {
      NextIdGrows(f, cfg, states, events, k - 1, k);
      FutureIdsNeverCoasted(f, cfg, states, events, k - 1, id);
      if events[k-1].Batch? {
        var st, e := states[k-1], events[k-1];
        RunIds(f, cfg, states, events, k - 1);
        CoastedAre(f, st.tracks, e.batch, IndicesOf(e.batch, RangeBearing2D), e.s, |st.tracks|, id);
        assert forall t | 0 <= t < |st.tracks| :: Ids(st.tracks)[t] < st.nextId;
      }
    }
  }

  /** In every state of every run each track's counters tell its history. */
  lemma {:induction false} CountersTellHistory(f: Filter, cfg: Config, states: seq<State>, events: seq<Event>, k: nat,
                                               t: nat)
    requires IsRun(f, cfg, states, events) && k <= |events|
    requires t < |states[k].tracks|
    ensures CountersTell(states, events, k, states[k].tracks[t])
    decreases k
  {
    hide Step, Updated, Predicted, CountersTell;
    if k > 0 && events[k-1].Predict? {
      PredictTellsHistory(f, cfg, states, events, k, t);
    } else if k > 0 {
      BatchTellsHistory(f, cfg, states, events, k, t);
    }
  }

  lemma {:induction false} PredictTellsHistory(f: Filter, cfg: Config, states: seq<State>, events: seq<Event>, k: nat,
                                               t: nat)
    requires IsRun(f, cfg, states, events) && 0 < k <= |events|
    requires t < |states[k].tracks| && events[k-1].Predict?
    ensures CountersTell(states, events, k, states[k].tracks[t])
    decreases k, 0
  {
    hide Updated, Ids;
    assert states[k] == Step(f, cfg, states[k-1], events[k-1]);
    CountersTellHistory(f, cfg, states, events, k - 1, t);
  }

  lemma {:induction false} BatchTellsHistory(f: Filter, cfg: Config, states: seq<State>, events: seq<Event>, k: nat,
                                             t: nat)
    requires IsRun(f, cfg, states, events) && 0 < k <= |events|
    requires t < |states[k].tracks| && events[k-1].Batch?
    ensures CountersTell(states, events, k, states[k].tracks[t])
    decreases k, 0
  {
    hide BeforeLifecycle, IsHit, Coasted, TrackInvariant, Settled, IndicesOf, Assigns;
    var st, e := states[k-1], events[k-1];
    var radar := IndicesOf(e.batch, RangeBearing2D);
    assert states[k] == Step(f, cfg, st, e);
    var all := BeforeLifecycle(f, cfg, st, e.batch, e.s);
    var r := SurvivorSource(cfg, all, t);
    BatchTicks(f, cfg, st, e.batch, e.s, r);
    var id := all[r].id;
    SettledKeepsCounters(cfg, all[r]);
    CoastedAre(f, st.tracks, e.batch, radar, e.s, |st.tracks|, id);
    RunIds(f, cfg, states, events, k - 1);
    assert forall i | 0 <= i < |st.tracks| :: Ids(st.tracks)[i] < st.nextId;
    if r < |st.tracks| {
      CountersTellHistory(f, cfg, states, events, k - 1, r);
      assert forall i | 0 <= i < |st.tracks| && Ids(st.tracks)[i] == Ids(st.tracks)[r] :: i == r;
    } else {
      FutureIdsNeverCoasted(f, cfg, states, events, k - 1, id);
    }
  }

  lemma {:induction false} SettledKeepsCounters(cfg: Config, v: TrackValue)
    ensures Settled(cfg, v).q == v.q && Settled(cfg, v).id == v.id
  {
  }
}
