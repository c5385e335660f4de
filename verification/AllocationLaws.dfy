/** The greedy assignment of idle interceptors (src/decision/mission_behavior_tree.cpp:435-526):
    how many pairs it makes, in what order, and how good they are together. */
module AllocationLaws {
  import opened Basics
  import opened Mission
  import opened MissionLaws
  import opened Matching

  // ---------------------------------------------------------------- the scan selects the first best pair

  predicate Before(i: nat, t: nat, j: nat, u: nat) {
    i < j || (i == j && t < u)
  }

  ghost function ScoreOf(sc: Scene, idle: seq<InterceptorFact>, i: nat, t: nat): real
    requires i < |idle| && t < |sc.snap.tracks|
  {
    PairScore(sc.cfg, sc.snap.tracks[t], idle[i])
  }

  /** Among the open pairs before (i, k) in scan order, r has the greatest score, and is the first to have it. */
  ghost predicate IsFirstBest(sc: Scene, idle: seq<InterceptorFact>, actives: seq<Active>, i: nat, k: nat,
                              r: Option<Candidate>) {
    match r
    case None => forall j, t | 0 <= j < |idle| && 0 <= t < |sc.snap.tracks| && Before(j, t, i, k) ::
      !Open(sc, actives, sc.snap.tracks[t])
    case Some(c) =>
      && IsCandidate(sc, idle, actives, c) && Before(c.interceptor, c.track, i, k)
      && (forall j, t | 0 <= j < |idle| && 0 <= t < |sc.snap.tracks| && Before(j, t, i, k)
          && Open(sc, actives, sc.snap.tracks[t]) ::
            && ScoreOf(sc, idle, j, t) <= c.score
            && (Before(j, t, c.interceptor, c.track) ==> ScoreOf(sc, idle, j, t) < c.score))
  }

  lemma {:induction false} ScanRowIsBest(sc: Scene, idle: seq<InterceptorFact>, actives: seq<Active>, i: nat, k: nat,
                                         best: Option<Candidate>)
    requires i < |idle| && k <= |sc.snap.tracks|
    requires IsFirstBest(sc, idle, actives, i, 0, best)
    ensures IsFirstBest(sc, idle, actives, i, k, ScanRow(sc, idle, actives, i, k, best))
  {
    if k > 0 {
      ScanRowIsBest(sc, idle, actives, i, k - 1, best);
      hide ScanRow, Open, ScoreOf;
      var b := ScanRow(sc, idle, actives, i, k - 1, best);
      forall j, t | 0 <= j < |idle| && 0 <= t < |sc.snap.tracks| && Before(j, t, i, k)
        ensures Before(j, t, i, k - 1) || (j == i && t == k - 1)
      {
      }
      ScanRowStep(sc, idle, actives, i, k, best);
    }
  }

  lemma {:induction false} ScanRowStep(sc: Scene, idle: seq<InterceptorFact>, actives: seq<Active>, i: nat, k: nat,
                                       best: Option<Candidate>)
    requires i < |idle| && 0 < k <= |sc.snap.tracks|
    ensures ScanRow(sc, idle, actives, i, k, best) ==
            var b := ScanRow(sc, idle, actives, i, k - 1, best);
            if Open(sc, actives, sc.snap.tracks[k-1]) && (b.None? || ScoreOf(sc, idle, i, k - 1) > b.value.score)
            then Some(Candidate(i, k - 1, ScoreOf(sc, idle, i, k - 1))) else b
  {
  }

  lemma {:induction false} ScanAllIsBest(sc: Scene, idle: seq<InterceptorFact>, actives: seq<Active>, i: nat)
    requires i <= |idle|
    ensures IsFirstBest(sc, idle, actives, i, 0, ScanAll(sc, idle, actives, i))
  {
    if i > 0 {
      ScanAllIsBest(sc, idle, actives, i - 1);
      ScanRowIsBest(sc, idle, actives, i - 1, |sc.snap.tracks|, ScanAll(sc, idle, actives, i - 1));
      forall j, t | 0 <= j < |idle| && 0 <= t < |sc.snap.tracks|
        ensures Before(j, t, i, 0) <==> Before(j, t, i - 1, |sc.snap.tracks|)
      {
      }
    }
  }

  /** What one round of the loop selects: a best open pair, or nothing when there is none. */
  lemma {:induction false} RoundSelects(sc: Scene, idle: seq<InterceptorFact>, actives: seq<Active>)
    ensures match ScanAll(sc, idle, actives, |idle|)
            case None => idle == [] || forall t | t in sc.snap.tracks :: !Open(sc, actives, t)
            case Some(c) =>
              && IsCandidate(sc, idle, actives, c)
              && (forall j, t | 0 <= j < |idle| && 0 <= t < |sc.snap.tracks| && Open(sc, actives, sc.snap.tracks[t]) ::
                    ScoreOf(sc, idle, j, t) <= c.score)
  {
    ScanAllIsBest(sc, idle, actives, |idle|);
    if ScanAll(sc, idle, actives, |idle|).None? && idle != [] {
      forall t | t in sc.snap.tracks ensures !Open(sc, actives, t) {
        var k :| 0 <= k < |sc.snap.tracks| && sc.snap.tracks[k] == t;
        assert Before(0, k, |idle|, 0);
      }
    } else if ScanAll(sc, idle, actives, |idle|).Some? {
      forall j, t | 0 <= j < |idle| && 0 <= t < |sc.snap.tracks| ensures Before(j, t, |idle|, 0) {
      }
    }
  }

  // ---------------------------------------------------------------- what taking a pair does to the rest

  lemma {:induction false} EngagedAppend(actives: seq<Active>, a: Active, track: nat)
    ensures IsEngaged(actives + [a], track) <==> IsEngaged(actives, track) || a.trackId == track
  {
    var all := actives + [a];
    var k := ActiveIndex(actives, track);
    if k < |actives| {
      IndexUnique(all, track, k);
    } else {
      IndexUnique(all, track, if a.trackId == track then |actives| else |all|);
    }
  }

  /** The round's own track closes; every other track stays as it was. */
  lemma {:induction false} OpenAfter(sc: Scene, actives: seq<Active>, a: Active, t: TrackFact)
    ensures Open(sc, actives + [a], t) <==> Open(sc, actives, t) && t.trackId != a.trackId
  {
    EngagedAppend(actives, a, t.trackId);
  }

  /** The number of open tracks among the first k. */
  ghost function OpenCount(sc: Scene, actives: seq<Active>, k: nat): nat
    requires k <= |sc.snap.tracks|
  {
    if k == 0 then 0 else OpenCount(sc, actives, k - 1) + if Open(sc, actives, sc.snap.tracks[k-1]) then 1 else 0
  }

  lemma {:induction false} OpenCountAfter(sc: Scene, actives: seq<Active>, a: Active, c: nat, k: nat)
    requires DistinctTracks(sc.snap.tracks) && k <= |sc.snap.tracks|
    requires c < |sc.snap.tracks| && sc.snap.tracks[c].trackId == a.trackId && Open(sc, actives, sc.snap.tracks[c])
    ensures OpenCount(sc, actives + [a], k) == OpenCount(sc, actives, k) - (if c < k then 1 else 0)
  {
    if k > 0 {
      OpenCountAfter(sc, actives, a, c, k - 1);
      OpenAfter(sc, actives, a, sc.snap.tracks[k-1]);
      assert k - 1 != c ==> sc.snap.tracks[k-1].trackId != sc.snap.tracks[c].trackId;
    }
  }

  lemma {:induction false} NoneOpenCount(sc: Scene, actives: seq<Active>, k: nat)
    requires k <= |sc.snap.tracks| && forall t | t in sc.snap.tracks :: !Open(sc, actives, t)
    ensures OpenCount(sc, actives, k) == 0
  {
    if k > 0 {
      NoneOpenCount(sc, actives, k - 1);
    }
  }

  /** The state after the round that selected c. */
  ghost function Rest(sc: Scene, idle: seq<InterceptorFact>, actives: seq<Active>, c: Candidate): Allocation
    requires c.interceptor < |idle| && c.track < |sc.snap.tracks|
  {
    Allocate(sc, Removed(idle, c.interceptor), RestActives(sc, idle, actives, c))
  }

  ghost function RestActives(sc: Scene, idle: seq<InterceptorFact>, actives: seq<Active>, c: Candidate): seq<Active>
    requires c.interceptor < |idle| && c.track < |sc.snap.tracks|
  {
    actives + [NewActive(sc.snap.tracks[c.track].trackId, idle[c.interceptor].interceptorId, sc.snap.time)]
  }

  lemma {:induction false} AllocateUnfolds(sc: Scene, idle: seq<InterceptorFact>, actives: seq<Active>)
    ensures match ScanAll(sc, idle, actives, |idle|)
            case None => Allocate(sc, idle, actives) == Allocation([], actives, idle)
            case Some(c) =>
              && c.interceptor < |idle| && c.track < |sc.snap.tracks|
              && var rest := Rest(sc, idle, actives, c);
                 Allocate(sc, idle, actives) ==
                 Allocation([Match(idle[c.interceptor], sc.snap.tracks[c.track], c.score)] + rest.pairs, rest.actives,
                            rest.idle)
  {
    RoundSelects(sc, idle, actives);
  }

  // ---------------------------------------------------------------- how many pairs, in what order

  /** The loop makes as many pairs as there are idle interceptors or open tracks, whichever is fewer. */
  lemma {:induction false} AllocateCount(sc: Scene, idle: seq<InterceptorFact>, actives: seq<Active>)
    requires DistinctTracks(sc.snap.tracks)
    ensures |Allocate(sc, idle, actives).pairs| == Min(|idle|, OpenCount(sc, actives, |sc.snap.tracks|))
    decreases |idle|
  {
    RoundSelects(sc, idle, actives);
    AllocateUnfolds(sc, idle, actives);
    hide Allocate, ScanAll;
    match ScanAll(sc, idle, actives, |idle|)
    case None =>
      if idle != [] {
        NoneOpenCount(sc, actives, |sc.snap.tracks|);
      }
    case Some(c) =>
      AllocateCount(sc, Removed(idle, c.interceptor), RestActives(sc, idle, actives, c));
      OpenCountAfter(sc, actives,
                     NewActive(sc.snap.tracks[c.track].trackId, idle[c.interceptor].interceptorId, sc.snap.time),
                     c.track, |sc.snap.tracks|);
  }

  /** What every pair of an allocation is: an idle interceptor, an open track, and their score. */
  ghost predicate IsPair(sc: Scene, idle: seq<InterceptorFact>, actives: seq<Active>, p: Match) {
    && p.interceptor in idle && p.track in sc.snap.tracks && Open(sc, actives, p.track)
    && p.score == PairScore(sc.cfg, p.track, p.interceptor)
  }

  lemma {:induction false} AllocatePairs(sc: Scene, idle: seq<InterceptorFact>, actives: seq<Active>)
    ensures forall p | p in Allocate(sc, idle, actives).pairs :: IsPair(sc, idle, actives, p)
    decreases |idle|
  {
    AllocateUnfolds(sc, idle, actives);
    RoundSelects(sc, idle, actives);
    hide Allocate, ScanAll, ScoreOf;
    match ScanAll(sc, idle, actives, |idle|)
    case None =>
    case Some(c) =>
      var next := RestActives(sc, idle, actives, c);
      AllocatePairs(sc, Removed(idle, c.interceptor), next);
      forall p | p in Rest(sc, idle, actives, c).pairs ensures IsPair(sc, idle, actives, p) {
        OpenAfter(sc, actives,
                  NewActive(sc.snap.tracks[c.track].trackId, idle[c.interceptor].interceptorId, sc.snap.time), p.track);
        RemovedSubset(idle, c.interceptor, p.interceptor);
      }
  }

  lemma {:induction false} RemovedSubset<T>(s: seq<T>, i: nat, x: T)
    requires i < |s| && x in Removed(s, i)
    ensures x in s
  {
  }

  /** Scores never increase along the list of pairs. */
  lemma {:induction false} AllocateOrder(sc: Scene, idle: seq<InterceptorFact>, actives: seq<Active>, j: nat, k: nat)
    requires j <= k < |Allocate(sc, idle, actives).pairs|
    ensures Allocate(sc, idle, actives).pairs[j].score >= Allocate(sc, idle, actives).pairs[k].score
    decreases |idle|
  {
    AllocateUnfolds(sc, idle, actives);
    RoundSelects(sc, idle, actives);
    AllocatePairs(sc, idle, actives);
    var pairs := Allocate(sc, idle, actives).pairs;
    hide Allocate, ScanAll;
    var c := ScanAll(sc, idle, actives, |idle|).value;
    if j > 0 {
      AllocateOrder(sc, Removed(idle, c.interceptor), RestActives(sc, idle, actives, c), j - 1, k - 1);
    } else {
      var p := pairs[k];
      assert p in pairs && IsPair(sc, idle, actives, p);
      var i, t :| 0 <= i < |idle| && 0 <= t < |sc.snap.tracks| && idle[i] == p.interceptor
        && sc.snap.tracks[t] == p.track;
      assert ScoreOf(sc, idle, i, t) <= c.score;
    }
  }

  // ---------------------------------------------------------------- who is paired with whom

  ghost function NewActives(pairs: seq<Match>, time: real): (r: seq<Active>)
    ensures |r| == |pairs|
    ensures forall k | 0 <= k < |r| ::
              r[k] == NewActive(pairs[k].track.trackId, pairs[k].interceptor.interceptorId, time)
  {
    seq(|pairs|, k requires 0 <= k < |pairs| =>
        NewActive(pairs[k].track.trackId, pairs[k].interceptor.interceptorId, time))
  }

  /** No two pairs share an interceptor or a track. */
  ghost predicate DistinctPairs(pairs: seq<Match>) {
    forall j, k | 0 <= j < k < |pairs| ::
      && pairs[j].interceptor.interceptorId != pairs[k].interceptor.interceptorId
      && pairs[j].track.trackId != pairs[k].track.trackId
  }

  lemma {:induction false} RemovedDistinct(idle: seq<InterceptorFact>, i: nat)
    requires DistinctInterceptors(idle) && i < |idle|
    ensures DistinctInterceptors(Removed(idle, i))
    ensures forall x | x in Removed(idle, i) :: x.interceptorId != idle[i].interceptorId
  {
  }

  /** The memory gains exactly the pairs made, one interceptor and one track each. */
  lemma {:induction false} AllocateShape(sc: Scene, idle: seq<InterceptorFact>, actives: seq<Active>)
    requires DistinctInterceptors(idle)
    ensures var a := Allocate(sc, idle, actives);
            a.actives == actives + NewActives(a.pairs, sc.snap.time) && DistinctPairs(a.pairs)
    decreases |idle|
  {
    AllocateUnfolds(sc, idle, actives);
    hide Allocate, ScanAll;
    match ScanAll(sc, idle, actives, |idle|)
    case None =>
    case Some(c) =>
      RemovedDistinct(idle, c.interceptor);
      var next := RestActives(sc, idle, actives, c);
      AllocateShape(sc, Removed(idle, c.interceptor), next);
      var rest := Rest(sc, idle, actives, c);
      var first := Match(idle[c.interceptor], sc.snap.tracks[c.track], c.score);
      AllocatePairs(sc, Removed(idle, c.interceptor), next);
      forall k | 0 <= k < |rest.pairs|
        ensures rest.pairs[k].interceptor.interceptorId != first.interceptor.interceptorId
        ensures rest.pairs[k].track.trackId != first.track.trackId
      {
        assert rest.pairs[k] in rest.pairs;
        assert IsPair(sc, Removed(idle, c.interceptor), next, rest.pairs[k]);
        EngagedAppend(actives, NewActive(first.track.trackId, first.interceptor.interceptorId, sc.snap.time),
                      rest.pairs[k].track.trackId);
      }
      assert NewActives([first] + rest.pairs, sc.snap.time) ==
             [NewActive(first.track.trackId, first.interceptor.interceptorId, sc.snap.time)]
               + NewActives(rest.pairs, sc.snap.time);
  }

  // ---------------------------------------------------------------- stability

  /** Some pair of the allocation that shares an interceptor or a track with (i, t) scores at least as well. */
  ghost predicate Beaten(sc: Scene, pairs: seq<Match>, i: InterceptorFact, t: TrackFact) {
    exists p :: p in pairs && (p.interceptor == i || p.track == t) && p.score >= PairScore(sc.cfg, t, i)
  }

  /** The allocation is stable: no idle interceptor and open track would both rather have each other. */
  lemma {:induction false} AllocateStable(sc: Scene, idle: seq<InterceptorFact>, actives: seq<Active>, i: nat, t: nat)
    requires DistinctTracks(sc.snap.tracks)
    requires i < |idle| && t < |sc.snap.tracks| && Open(sc, actives, sc.snap.tracks[t])
    ensures Beaten(sc, Allocate(sc, idle, actives).pairs, idle[i], sc.snap.tracks[t])
    decreases |idle|
  {
    RoundSelects(sc, idle, actives);
    AllocateUnfolds(sc, idle, actives);
    hide Allocate, ScanAll;
    assert ScanAll(sc, idle, actives, |idle|).Some?;
    var c := ScanAll(sc, idle, actives, |idle|).value;
    var first := Match(idle[c.interceptor], sc.snap.tracks[c.track], c.score);
    var rest := Rest(sc, idle, actives, c);
    assert ScoreOf(sc, idle, i, t) <= c.score;
    if i == c.interceptor || t == c.track {
      assert first in [first] + rest.pairs;
    } else {
      var a := NewActive(sc.snap.tracks[c.track].trackId, idle[c.interceptor].interceptorId, sc.snap.time);
      OpenAfter(sc, actives, a, sc.snap.tracks[t]);
      assert sc.snap.tracks[t].trackId != sc.snap.tracks[c.track].trackId;
      var r := if i < c.interceptor then i else i - 1;
      assert Removed(idle, c.interceptor)[r] == idle[i];
      AllocateStable(sc, Removed(idle, c.interceptor), RestActives(sc, idle, actives, c), r, t);
      var p :| p in rest.pairs && (p.interceptor == idle[i] || p.track == sc.snap.tracks[t])
               && p.score >= PairScore(sc.cfg, sc.snap.tracks[t], idle[i]);
      assert p in [first] + rest.pairs;
    }
  }

  // ---------------------------------------------------------------- half of the best total

  /** A plan sends each idle interceptor to an open track, or nowhere (-1), no two to the same. */
  ghost predicate IsPlan(sc: Scene, idle: seq<InterceptorFact>, actives: seq<Active>, m: seq<int>) {
    && |m| == |idle| && IsPartial(m, |sc.snap.tracks|)
    && (forall i | 0 <= i < |m| && m[i] >= 0 :: Open(sc, actives, sc.snap.tracks[m[i]]))
  }

  ghost function PlanEntry(sc: Scene, i: InterceptorFact, t: int): real
    requires t < |sc.snap.tracks|
  {
    if t < 0 then 0.0 else PairScore(sc.cfg, sc.snap.tracks[t], i)
  }

  ghost function PlanScore(sc: Scene, idle: seq<InterceptorFact>, m: seq<int>): real
    requires |m| == |idle| && forall i | 0 <= i < |m| :: m[i] < |sc.snap.tracks|
  {
    if m == [] then 0.0
    else
      var n := |m| - 1;
      PlanScore(sc, idle[..n], m[..n]) + PlanEntry(sc, idle[n], m[n])
  }

  ghost function PairsScore(pairs: seq<Match>): real {
    if pairs == [] then 0.0 else pairs[0].score + PairsScore(pairs[1..])
  }

  lemma {:induction false} PlanScoreClear(sc: Scene, idle: seq<InterceptorFact>, m: seq<int>, k: nat)
    requires |m| == |idle| && forall i | 0 <= i < |m| :: m[i] < |sc.snap.tracks|
    requires k < |m|
    ensures PlanScore(sc, idle, m[k := -1]) == PlanScore(sc, idle, m) - PlanEntry(sc, idle[k], m[k])
  {
    var n := |m| - 1;
    if k == n {
      assert m[k := -1][..n] == m[..n];
    } else {
      assert m[k := -1][..n] == m[..n][k := -1];
      PlanScoreClear(sc, idle[..n], m[..n], k);
    }
  }

  lemma {:induction false} PlanScoreRemove(sc: Scene, idle: seq<InterceptorFact>, m: seq<int>, k: nat)
    requires |m| == |idle| && forall i | 0 <= i < |m| :: m[i] < |sc.snap.tracks|
    requires k < |m|
    ensures PlanScore(sc, Removed(idle, k), Removed(m, k)) == PlanScore(sc, idle, m) - PlanEntry(sc, idle[k], m[k])
  {
    var n := |m| - 1;
    if k == n {
      assert Removed(m, k) == m[..n] && Removed(idle, k) == idle[..n];
    } else {
      assert Removed(m, k)[..n-1] == Removed(m[..n], k) && Removed(idle, k)[..n-1] == Removed(idle[..n], k);
      PlanScoreRemove(sc, idle[..n], m[..n], k);
    }
  }

  lemma {:induction false} EmptyPlanScore(sc: Scene, idle: seq<InterceptorFact>, m: seq<int>)
    requires |m| == |idle| && forall i | 0 <= i < |m| :: m[i] < 0
    ensures PlanScore(sc, idle, m) == 0.0
  {
    if m != [] {
      EmptyPlanScore(sc, idle[..|m|-1], m[..|m|-1]);
    }
  }

  /** Takes a track out of a plan. */
  lemma {:induction false} PlanWithout(sc: Scene, idle: seq<InterceptorFact>, actives: seq<Active>, m: seq<int>,
                                       t: nat, bound: real) returns (r: seq<int>)
    requires IsPlan(sc, idle, actives, m) && t < |sc.snap.tracks| && bound >= 0.0
    requires forall j | 0 <= j < |idle| && Open(sc, actives, sc.snap.tracks[t]) :: ScoreOf(sc, idle, j, t) <= bound
    ensures IsPlan(sc, idle, actives, r) && t !in r
    ensures PlanScore(sc, idle, m) <= PlanScore(sc, idle, r) + bound
  {
    r := m;
    if h :| 0 <= h < |m| && m[h] == t {
      r := m[h := -1];
      PlanScoreClear(sc, idle, m, h);
      assert PlanEntry(sc, idle[h], m[h]) == ScoreOf(sc, idle, h, t);
    }
  }

  /** Takes an interceptor out of a plan that does not use the track c. */
  lemma {:induction false} PlanRemoves(sc: Scene, idle: seq<InterceptorFact>, actives: seq<Active>, m: seq<int>,
                                       c: Candidate)
    requires DistinctTracks(sc.snap.tracks) && IsPlan(sc, idle, actives, m)
    requires IsCandidate(sc, idle, actives, c) && c.track !in m
    ensures IsPlan(sc, Removed(idle, c.interceptor), RestActives(sc, idle, actives, c), Removed(m, c.interceptor))
  {
    var r := Removed(m, c.interceptor);
    hide Engageable, PairScore;
    forall i | 0 <= i < |r| && r[i] >= 0 ensures Open(sc, RestActives(sc, idle, actives, c), sc.snap.tracks[r[i]]) {
      var a := NewActive(sc.snap.tracks[c.track].trackId, idle[c.interceptor].interceptorId, sc.snap.time);
      var k := if i < c.interceptor then i else i + 1;
      assert r[i] == m[k] && r[i] != c.track;
      OpenAfter(sc, actives, a, sc.snap.tracks[r[i]]);
    }
  }

  /** Dropping the selected interceptor and track from a plan leaves a plan for the rest, at most two scores poorer. */
  lemma {:induction false} PlanShrinks(sc: Scene, idle: seq<InterceptorFact>, actives: seq<Active>, m: seq<int>,
                                       c: Candidate) returns (r: seq<int>)
    requires DistinctTracks(sc.snap.tracks) && IsPlan(sc, idle, actives, m)
    requires IsCandidate(sc, idle, actives, c) && c.score >= 0.0
    requires forall j, t | 0 <= j < |idle| && 0 <= t < |sc.snap.tracks| && Open(sc, actives, sc.snap.tracks[t]) ::
               ScoreOf(sc, idle, j, t) <= c.score
    ensures IsPlan(sc, Removed(idle, c.interceptor), RestActives(sc, idle, actives, c), r)
    ensures PlanScore(sc, idle, m) <= PlanScore(sc, Removed(idle, c.interceptor), r) + 2.0 * c.score
  {
    var cleared := PlanWithout(sc, idle, actives, m, c.track, c.score);
    PlanRemoves(sc, idle, actives, cleared, c);
    r := Removed(cleared, c.interceptor);
    PlanScoreRemove(sc, idle, cleared, c.interceptor);
    var t := cleared[c.interceptor];
    assert t >= 0 ==> PlanEntry(sc, idle[c.interceptor], t) == ScoreOf(sc, idle, c.interceptor, t);
    assert PlanEntry(sc, idle[c.interceptor], t) <= c.score;
  }

  /** With non-negative scores the pairs together score at least half of any plan. */
  lemma {:induction false} AllocateIsHalf(sc: Scene, idle: seq<InterceptorFact>, actives: seq<Active>, m: seq<int>)
    requires DistinctTracks(sc.snap.tracks) && IsPlan(sc, idle, actives, m)
    requires forall i, t | i in idle && t in sc.snap.tracks && Open(sc, actives, t) :: PairScore(sc.cfg, t, i) >= 0.0
    ensures PlanScore(sc, idle, m) <= 2.0 * PairsScore(Allocate(sc, idle, actives).pairs)
    decreases |idle|
  {
    RoundSelects(sc, idle, actives);
    AllocateUnfolds(sc, idle, actives);
    hide Allocate, ScanAll, PairScore;
    match ScanAll(sc, idle, actives, |idle|)
    case None =>
      EmptyPlanScore(sc, idle, m);
    case Some(c) =>
      assert c.score >= 0.0;
      var r := PlanShrinks(sc, idle, actives, m, c);
      forall i, t | i in Removed(idle, c.interceptor) && t in sc.snap.tracks
        && Open(sc, RestActives(sc, idle, actives, c), t)
        ensures PairScore(sc.cfg, t, i) >= 0.0
      {
        RemovedSubset(idle, c.interceptor, i);
        OpenAfter(sc, actives,
                  NewActive(sc.snap.tracks[c.track].trackId, idle[c.interceptor].interceptorId, sc.snap.time), t);
      }
      AllocateIsHalf(sc, Removed(idle, c.interceptor), RestActives(sc, idle, actives, c), r);
      var rest := Rest(sc, idle, actives, c);
      var first := Match(idle[c.interceptor], sc.snap.tracks[c.track], c.score);
      assert ([first] + rest.pairs)[1..] == rest.pairs;
  }
}
