/** Interceptor assignment told by coordinates and threats alone (src/decision/assignment.cpp). */
module AssignmentLaws {
  import opened Basics
  import opened Matching
  import opened Hungarian
  import opened Sorting
  import opened Interceptors
  import opened Assignment

  /** What a track's distance is divided by. */
  ghost function Weight(t: AssignmentTrack): real {
    if t.threat < 0.05 then 0.05 else t.threat
  }

  /** Idle, or allowed to be retasked and farther from its target than the commit distance. */
  ghost predicate MayBeSent(cfg: AssignmentConfig, i: InterceptorState) {
    || !i.engaged
    || (cfg.retaskEnable && forall d | Apart(i.position, i.assignedTargetPosition, d) :: d > cfg.commitDistance)
  }

  lemma {:induction false} EligibleMeans(sqrt: real -> real, cfg: AssignmentConfig, i: InterceptorState)
    requires IsSqrt(sqrt)
    ensures IsEligible(sqrt, cfg, i) <==> MayBeSent(cfg, i)
  {
    hide Apart;
    DistanceIs(sqrt, i.position, i.assignedTargetPosition, Distance(sqrt, i.position, i.assignedTargetPosition));
    forall d | Apart(i.position, i.assignedTargetPosition, d)
      ensures d == Distance(sqrt, i.position, i.assignedTargetPosition)
    {
      DistanceIs(sqrt, i.position, i.assignedTargetPosition, d);
    }
  }

  /** Only interceptors that may be sent are named. */
  lemma {:induction false} OnlySendable(sqrt: real -> real, cfg: AssignmentConfig, interceptors: seq<InterceptorState>,
                                        tracks: seq<AssignmentTrack>, s: seq<int>, result: seq<Decision>, i: nat,
                                        d: Decision)
    requires IsSqrt(sqrt) && IsAnswer(sqrt, cfg, interceptors, tracks, s, result) && DistinctInterceptors(interceptors)
    requires i < |interceptors| && d in result && d.interceptorId == interceptors[i].interceptorId
    ensures MayBeSent(cfg, interceptors[i])
  {
    hide IsAnswer;
    EligibleOfDecision(sqrt, cfg, interceptors, tracks, s, result, i, d);
    EligibleMeans(sqrt, cfg, interceptors[i]);
  }

  // ---------------------------------------------------------------- the cost of a decision

  lemma {:induction false} CostTells(sqrt: real -> real, i: InterceptorState, t: AssignmentTrack, d: real)
    requires IsSqrt(sqrt) && Apart(i.position, t.position, d)
    ensures PairCost(sqrt, i, t) == d / Weight(t) && PairCost(sqrt, i, t) * Weight(t) == d
  {
    DistanceIs(sqrt, i.position, t.position, d);
    QuotientTimes(d, Weight(t));
  }

  /** The decision flies interceptor i to track t, and its cost is their distance over the threat. */
  ghost predicate Flies(i: InterceptorState, t: AssignmentTrack, d: Decision) {
    && i.interceptorId == d.interceptorId && t.trackId == d.trackId
    && forall far | Apart(i.position, t.position, far) :: d.cost * Weight(t) == far
  }

  lemma {:induction false} CellFlies(sqrt: real -> real, i: InterceptorState, t: AssignmentTrack, d: Decision)
    requires IsSqrt(sqrt) && d.interceptorId == i.interceptorId && d.trackId == t.trackId
    requires d.cost == PairCost(sqrt, i, t)
    ensures Flies(i, t, d)
  {
    hide Apart, PairCost;
    forall far | Apart(i.position, t.position, far) ensures d.cost * Weight(t) == far {
      CostTells(sqrt, i, t, far);
    }
  }

  lemma {:induction false} PickFlies(sqrt: real -> real, cfg: AssignmentConfig, interceptors: seq<InterceptorState>,
                                     tracks: seq<AssignmentTrack>, s: seq<int>, d: Decision)
    requires IsSqrt(sqrt) && Solves(ProblemOf(sqrt, cfg, interceptors, tracks), s)
    requires d in Picks(ProblemOf(sqrt, cfg, interceptors, tracks), s, |s|)
    ensures exists i, t | i in interceptors && t in tracks :: Flies(i, t, d)
  {
    hide Flies, PairCost, EligibleRows;
    var p := ProblemOf(sqrt, cfg, interceptors, tracks);
    var picks, rows := Picks(p, s, |s|), PickRows(p, s, |s|);
    var j :| 0 <= j < |picks| && picks[j] == d;
    var i, t := interceptors[p.rows[rows[j]]], p.tracks[s[rows[j]]];
    SortKeepsElements(TrackBefore, tracks);
    SameElements(p.tracks, tracks, t);
    CellFlies(sqrt, i, t, d);
  }

  /** Without multi-engage, and for every decision that costs anything, cost times threat is the distance. */
  lemma {:induction false} CostOfDecision(sqrt: real -> real, cfg: AssignmentConfig,
                                          interceptors: seq<InterceptorState>, tracks: seq<AssignmentTrack>,
                                          s: seq<int>, result: seq<Decision>, d: Decision)
    requires IsSqrt(sqrt) && IsAnswer(sqrt, cfg, interceptors, tracks, s, result)
    requires d in result && (!cfg.allowMultiEngage || d.cost != 0.0)
    ensures exists i, t | i in interceptors && t in tracks :: Flies(i, t, d)
  {
    hide IsOptimal, IsPartial, Flies, ProblemOf, Picks, Sort;
    ProblemShape(sqrt, cfg, interceptors, tracks);
    var p := ProblemOf(sqrt, cfg, interceptors, tracks);
    var all := Unsorted(cfg, p, s);
    SortKeepsElements(DecisionBefore, all);
    SameElements(result, all, d);
    if cfg.allowMultiEngage {
      FilledInHolds(p, Picks(p, s, |s|), |p.rows|);
    }
    PickFlies(sqrt, cfg, interceptors, tracks, s, d);
  }

  // ---------------------------------------------------------------- the least plan

  /** An interceptor, a track, and how far apart they are. */
  datatype Leg = Leg(interceptor: nat, track: nat, distance: real)

  /** Legs that share neither interceptor nor track, for interceptors that may be sent. */
  ghost predicate IsPlan(cfg: AssignmentConfig, interceptors: seq<InterceptorState>, tracks: seq<AssignmentTrack>,
                         legs: seq<Leg>)
  {
    && (forall k | 0 <= k < |legs| :: IsLeg(cfg, interceptors, tracks, legs[k]))
    && (forall j, k | 0 <= j < k < |legs| ::
          legs[j].interceptor != legs[k].interceptor && legs[j].track != legs[k].track)
  }

  ghost predicate IsLeg(cfg: AssignmentConfig, interceptors: seq<InterceptorState>, tracks: seq<AssignmentTrack>,
                        leg: Leg)
  {
    && leg.interceptor < |interceptors| && leg.track < |tracks|
    && MayBeSent(cfg, interceptors[leg.interceptor])
    && Apart(interceptors[leg.interceptor].position, tracks[leg.track].position, leg.distance)
  }

  /** The summed distances, each over its track's threat. */
  ghost function PlanCost(tracks: seq<AssignmentTrack>, legs: seq<Leg>): real
    requires forall k | 0 <= k < |legs| :: legs[k].track < |tracks|
  {
    if legs == [] then 0.0
    else PlanCost(tracks, legs[..|legs|-1]) + legs[|legs|-1].distance / Weight(tracks[legs[|legs|-1].track])
  }

  /** Row r of the assignment flies one of the legs. */
  ghost predicate FromLegs(p: Problem, m: seq<int>, tracks: seq<AssignmentTrack>, legs: seq<Leg>, r: nat)
    requires Solves(p, m) && r < |m| && m[r] >= 0
    requires forall k | 0 <= k < |legs| :: legs[k].track < |tracks|
  {
    exists k | 0 <= k < |legs| :: p.rows[r] == legs[k].interceptor && p.tracks[m[r]] == tracks[legs[k].track]
  }

  /** A plan is an assignment of the problem, of its size and its cost. */
  lemma {:induction false} PlanAsAssignment(sqrt: real -> real, cfg: AssignmentConfig,
                                            interceptors: seq<InterceptorState>, tracks: seq<AssignmentTrack>,
                                            legs: seq<Leg>) returns (m: seq<int>)
    requires IsSqrt(sqrt) && IsPlan(cfg, interceptors, tracks, legs) && Pairwise(OtherTrackId, tracks)
    ensures var p := ProblemOf(sqrt, cfg, interceptors, tracks);
            && Solves(p, m) && Size(m) == |legs| && Total(p.cost, m) == PlanCost(tracks, legs)
            && (forall r | 0 <= r < |m| && m[r] >= 0 :: FromLegs(p, m, tracks, legs, r))
  {
    if legs == [] {
      m := NoPlan(ProblemOf(sqrt, cfg, interceptors, tracks), tracks);
    } else {
      PlanWithoutLast(cfg, interceptors, tracks, legs);
      var before := PlanAsAssignment(sqrt, cfg, interceptors, tracks, legs[..|legs|-1]);
      m := WithLeg(sqrt, cfg, interceptors, tracks, legs, before);
    }
  }

  lemma {:induction false} NoPlan(p: Problem, tracks: seq<AssignmentTrack>) returns (m: seq<int>)
    requires IsProblem(p)
    ensures Solves(p, m) && Size(m) == 0 && Total(p.cost, m) == PlanCost(tracks, [])
    ensures forall r | 0 <= r < |m| :: m[r] < 0
  {
    m := seq(|p.rows|, _ => -1);
    NothingSize(m);
    NoneTotal(p.cost, m);
  }

  lemma {:induction false} PlanWithoutLast(cfg: AssignmentConfig, interceptors: seq<InterceptorState>,
                                           tracks: seq<AssignmentTrack>, legs: seq<Leg>)
    requires IsPlan(cfg, interceptors, tracks, legs) && legs != []
    ensures IsPlan(cfg, interceptors, tracks, legs[..|legs|-1])
  {
    hide IsLeg;
  }

  lemma {:induction false} WithLeg(sqrt: real -> real, cfg: AssignmentConfig, interceptors: seq<InterceptorState>,
                                   tracks: seq<AssignmentTrack>, legs: seq<Leg>, before: seq<int>)
    returns (m: seq<int>)
    requires IsSqrt(sqrt) && IsPlan(cfg, interceptors, tracks, legs) && Pairwise(OtherTrackId, tracks) && legs != []
    requires var p := ProblemOf(sqrt, cfg, interceptors, tracks);
             var few := legs[..|legs|-1];
             && Solves(p, before) && Size(before) == |few| && Total(p.cost, before) == PlanCost(tracks, few)
             && (forall r | 0 <= r < |before| && before[r] >= 0 :: FromLegs(p, before, tracks, few, r))
    ensures var p := ProblemOf(sqrt, cfg, interceptors, tracks);
            && Solves(p, m) && Size(m) == |legs| && Total(p.cost, m) == PlanCost(tracks, legs)
            && (forall r | 0 <= r < |m| && m[r] >= 0 :: FromLegs(p, m, tracks, legs, r))
  {
    hide ProblemOf, Total, Size, PlanCost, FromLegs, Pairwise, Weight;
    var p := ProblemOf(sqrt, cfg, interceptors, tracks);
    var r, c := CellOfLeg(sqrt, cfg, interceptors, tracks, legs[|legs|-1]);
    RowIsFree(p, before, tracks, legs, r);
    ColumnIsFree(p, before, tracks, legs, c);
    m := before[r := c];
    SizeUpdate(before, r, c);
    TotalUpdate(p.cost, before, r, c);
    PlanCostStep(tracks, legs);
    assert Solves(p, m);
    forall x | 0 <= x < |m| && m[x] >= 0 ensures FromLegs(p, m, tracks, legs, x) {
      LegsCarryOver(p, before, m, tracks, legs, r, x);
    }
  }

  lemma {:induction false} PlanCostStep(tracks: seq<AssignmentTrack>, legs: seq<Leg>)
    requires legs != [] && forall k | 0 <= k < |legs| :: legs[k].track < |tracks|
    ensures PlanCost(tracks, legs) ==
            PlanCost(tracks, legs[..|legs|-1]) + legs[|legs|-1].distance / Weight(tracks[legs[|legs|-1].track])
  {
  }

  lemma {:induction false} NothingSize(m: seq<int>)
    requires forall r | 0 <= r < |m| :: m[r] < 0
    ensures Size(m) == 0
  {
    if m != [] {
      NothingSize(m[..|m|-1]);
    }
  }

  /** The row and the column of a leg. */
  lemma {:induction false} CellOfLeg(sqrt: real -> real, cfg: AssignmentConfig, interceptors: seq<InterceptorState>,
                                     tracks: seq<AssignmentTrack>, leg: Leg) returns (r: nat, c: nat)
    requires IsSqrt(sqrt) && IsLeg(cfg, interceptors, tracks, leg)
    ensures var p := ProblemOf(sqrt, cfg, interceptors, tracks);
            && r < |p.rows| && c < |p.tracks|
            && p.rows[r] == leg.interceptor && p.tracks[c] == tracks[leg.track]
            && p.cost[r][c] == leg.distance / Weight(tracks[leg.track])
  {
    hide MayBeSent, Apart, PairCost;
    var p := ProblemOf(sqrt, cfg, interceptors, tracks);
    EligibleMeans(sqrt, cfg, interceptors[leg.interceptor]);
    r :| 0 <= r < |p.rows| && p.rows[r] == leg.interceptor;
    SortKeepsElements(TrackBefore, tracks);
    SameElements(p.tracks, tracks, tracks[leg.track]);
    c :| 0 <= c < |p.tracks| && p.tracks[c] == tracks[leg.track];
    CostTells(sqrt, interceptors[leg.interceptor], tracks[leg.track], leg.distance);
  }

  lemma {:induction false} RowIsFree(p: Problem, m: seq<int>, tracks: seq<AssignmentTrack>, legs: seq<Leg>, r: nat)
    requires Solves(p, m) && legs != [] && forall k | 0 <= k < |legs| :: legs[k].track < |tracks|
    requires forall x | 0 <= x < |m| && m[x] >= 0 :: FromLegs(p, m, tracks, legs[..|legs|-1], x)
    requires forall j, k | 0 <= j < k < |legs| :: legs[j].interceptor != legs[k].interceptor
    requires r < |m| && p.rows[r] == legs[|legs|-1].interceptor
    ensures m[r] < 0
  {
  }

  lemma {:induction false} ColumnIsFree(p: Problem, m: seq<int>, tracks: seq<AssignmentTrack>, legs: seq<Leg>, c: nat)
    requires Solves(p, m) && legs != [] && forall k | 0 <= k < |legs| :: legs[k].track < |tracks|
    requires forall x | 0 <= x < |m| && m[x] >= 0 :: FromLegs(p, m, tracks, legs[..|legs|-1], x)
    requires forall j, k | 0 <= j < k < |legs| :: legs[j].track != legs[k].track
    requires Pairwise(OtherTrackId, tracks)
    requires c < |p.tracks| && p.tracks[c] == tracks[legs[|legs|-1].track]
    ensures c !in m
  {
    hide Pairwise;
    if x :| 0 <= x < |m| && m[x] == c {
      var few, last := legs[..|legs|-1], legs[|legs|-1];
      var k :| 0 <= k < |few| && p.rows[x] == few[k].interceptor && p.tracks[m[x]] == tracks[few[k].track];
      DistinctTracksDiffer(tracks, legs[k].track, last.track);
    }
  }

  lemma {:induction false} DistinctTracksDiffer(tracks: seq<AssignmentTrack>, a: nat, b: nat)
    requires Pairwise(OtherTrackId, tracks) && a < |tracks| && b < |tracks| && a != b
    ensures tracks[a] != tracks[b]
  {
    assert if a < b then OtherTrackId(tracks[a], tracks[b]) else OtherTrackId(tracks[b], tracks[a]);
  }

  lemma {:induction false} LegsCarryOver(p: Problem, before: seq<int>, m: seq<int>, tracks: seq<AssignmentTrack>,
                                         legs: seq<Leg>, r: nat, x: nat)
    requires Solves(p, before) && Solves(p, m) && r < |before| && x < |m| && m[x] >= 0
    requires legs != [] && forall k | 0 <= k < |legs| :: legs[k].track < |tracks|
    requires forall y | 0 <= y < |before| && before[y] >= 0 :: FromLegs(p, before, tracks, legs[..|legs|-1], y)
    requires m == before[r := m[r]] && p.rows[r] == legs[|legs|-1].interceptor
    requires m[r] >= 0 && p.tracks[m[r]] == tracks[legs[|legs|-1].track]
    ensures FromLegs(p, m, tracks, legs, x)
  {
    if x != r {
      var few := legs[..|legs|-1];
      var k :| 0 <= k < |few| && p.rows[x] == few[k].interceptor && p.tracks[before[x]] == tracks[few[k].track];
      assert legs[k] == few[k];
    } else {
      assert legs[|legs|-1].interceptor == p.rows[x];
    }
  }

  // ---------------------------------------------------------------- the answer is the least plan

  /** Every flight costs less than the pad. */
  ghost predicate Cheap(interceptors: seq<InterceptorState>, tracks: seq<AssignmentTrack>) {
    forall i, t, d | i in interceptors && t in tracks && Apart(i.position, t.position, d) :: d / Weight(t) < PAD_COST
  }

  lemma {:induction false} CheapCells(sqrt: real -> real, cfg: AssignmentConfig, interceptors: seq<InterceptorState>,
                                      tracks: seq<AssignmentTrack>)
    requires IsSqrt(sqrt) && Cheap(interceptors, tracks)
    ensures var p := ProblemOf(sqrt, cfg, interceptors, tracks);
            forall r, c | 0 <= r < |p.rows| && 0 <= c < |p.tracks| :: p.cost[r][c] < PAD_COST
  {
    hide PairCost, Apart, EligibleRows;
    var p := ProblemOf(sqrt, cfg, interceptors, tracks);
    SortKeepsElements(TrackBefore, tracks);
    forall r, c | 0 <= r < |p.rows| && 0 <= c < |p.tracks| ensures p.cost[r][c] < PAD_COST {
      var i, t := interceptors[p.rows[r]], p.tracks[c];
      SameElements(p.tracks, tracks, t);
      var d := Distance(sqrt, i.position, t.position);
      DistanceIs(sqrt, i.position, t.position, d);
      CostTells(sqrt, i, t, d);
    }
  }

  /** Without multi-engage no plan of as many legs costs less than the answer. */
  lemma {:induction false} LeastPlan(sqrt: real -> real, cfg: AssignmentConfig, interceptors: seq<InterceptorState>,
                                     tracks: seq<AssignmentTrack>, s: seq<int>, result: seq<Decision>, legs: seq<Leg>)
    requires IsSqrt(sqrt) && IsAnswer(sqrt, cfg, interceptors, tracks, s, result) && !cfg.allowMultiEngage
    requires DistinctInterceptors(interceptors) && Pairwise(OtherTrackId, tracks) && Cheap(interceptors, tracks)
    requires IsPlan(cfg, interceptors, tracks, legs)
    ensures |legs| <= |result|
    ensures |legs| == |result| ==> SumCost(result) <= PlanCost(tracks, legs)
  {
    hide ProblemOf, IsAnswer, Cheap, Pairwise, DistinctInterceptors, Total, Size, SumCost, PlanCost, FromLegs, IsPlan;
    CheapCells(sqrt, cfg, interceptors, tracks);
    SingleEngage(sqrt, cfg, interceptors, tracks, s, result);
    var m := PlanAsAssignment(sqrt, cfg, interceptors, tracks, legs);
    ProblemShape(sqrt, cfg, interceptors, tracks);
    SizeAtMostCols(m, |tracks|);
  }

  lemma {:induction false} ProblemShape(sqrt: real -> real, cfg: AssignmentConfig, interceptors: seq<InterceptorState>,
                                        tracks: seq<AssignmentTrack>)
    ensures var p := ProblemOf(sqrt, cfg, interceptors, tracks);
            p.rows == EligibleRows(sqrt, cfg, interceptors) && |p.tracks| == |tracks|
  {
  }

  /** A lone interceptor that may be sent gets a decision for a track of least distance over threat. */
  lemma {:induction false} LoneInterceptor(sqrt: real -> real, cfg: AssignmentConfig, i: InterceptorState,
                                           tracks: seq<AssignmentTrack>, s: seq<int>, result: seq<Decision>,
                                           u: nat, far: real)
    requires IsSqrt(sqrt) && IsAnswer(sqrt, cfg, [i], tracks, s, result) && !cfg.allowMultiEngage
    requires Pairwise(OtherTrackId, tracks) && Cheap([i], tracks) && MayBeSent(cfg, i)
    requires u < |tracks| && Apart(i.position, tracks[u].position, far)
    ensures |result| == 1
    ensures exists t | t in tracks :: Flies(i, t, result[0]) && result[0].cost * Weight(tracks[u]) <= far
  {
    hide IsAnswer, Cheap, Pairwise, MayBeSent, Apart, Flies, Weight;
    var legs := [Leg(0, u, far)];
    assert IsPlan(cfg, [i], tracks, legs);
    LeastPlan(sqrt, cfg, [i], tracks, s, result, legs);
    OneDecision(sqrt, cfg, i, tracks, s, result);
    CostOfDecision(sqrt, cfg, [i], tracks, s, result, result[0]);
    assert legs[..0] == [] && result[..0] == [];
    WeightIsPositive(tracks[u]);
    QuotientTimes(far, Weight(tracks[u]));
    ScaledOrder(result[0].cost, far / Weight(tracks[u]), Weight(tracks[u]));
  }

  lemma {:induction false} WeightIsPositive(t: AssignmentTrack)
    ensures Weight(t) > 0.0
  {
  }

  lemma {:induction false} ScaledOrder(a: real, b: real, w: real)
    requires a <= b && w > 0.0
    ensures a * w <= b * w
  {
  }

  lemma {:induction false} OneDecision(sqrt: real -> real, cfg: AssignmentConfig, i: InterceptorState,
                                       tracks: seq<AssignmentTrack>, s: seq<int>, result: seq<Decision>)
    requires IsAnswer(sqrt, cfg, [i], tracks, s, result) && !cfg.allowMultiEngage
    ensures |result| <= 1
  {
    hide EligibleRows;
    var p := ProblemOf(sqrt, cfg, [i], tracks);
    AtMostOneRow(sqrt, cfg, i);
    if tracks != [] && p.rows != [] {
      PicksAtMost(p, s, |s|);
    }
  }

  lemma {:induction false} AtMostOneRow(sqrt: real -> real, cfg: AssignmentConfig, i: InterceptorState)
    ensures |EligibleRows(sqrt, cfg, [i])| <= 1
  {
    assert [i][..0] == [];
  }

  lemma {:induction false} PicksAtMost(p: Problem, s: seq<int>, k: nat)
    requires Solves(p, s) && k <= |s|
    ensures |Picks(p, s, k)| <= k
  {
    if k > 0 {
      PicksAtMost(p, s, k - 1);
    }
  }

  /** Of two tracks equally far, the lone interceptor takes the one of greater threat. */
  lemma {:induction false} GreaterThreatFirst(sqrt: real -> real, cfg: AssignmentConfig, i: InterceptorState,
                                              tracks: seq<AssignmentTrack>, s: seq<int>, result: seq<Decision>,
                                              u: nat, v: nat, far: real)
    requires IsSqrt(sqrt) && IsAnswer(sqrt, cfg, [i], tracks, s, result) && !cfg.allowMultiEngage
    requires Pairwise(OtherTrackId, tracks) && Cheap([i], tracks) && MayBeSent(cfg, i)
    requires |tracks| == 2 && u < 2 && v < 2 && tracks[u].threat > tracks[v].threat >= 0.05 && far > 0.0
    requires Apart(i.position, tracks[u].position, far) && Apart(i.position, tracks[v].position, far)
    ensures |result| == 1 && result[0].interceptorId == i.interceptorId && result[0].trackId == tracks[u].trackId
    ensures result[0].cost * tracks[u].threat == far
  {
    hide IsAnswer, Cheap, Pairwise, MayBeSent, Apart;
    LoneInterceptor(sqrt, cfg, i, tracks, s, result, u, far);
    var t :| t in tracks && Flies(i, t, result[0]) && result[0].cost * Weight(tracks[u]) <= far;
    if t == tracks[v] {
      assert result[0].cost * tracks[v].threat == far;
      LessThreatCostsMore(result[0].cost, tracks[u].threat, tracks[v].threat);
    }
  }

  lemma {:induction false} LessThreatCostsMore(cost: real, a: real, b: real)
    requires a > b > 0.0 && cost * b > 0.0
    ensures cost * a > cost * b
  {
    assert cost > 0.0;
    assert cost * (a - b) > 0.0;
  }
}
