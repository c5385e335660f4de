/** Interceptor-to-track assignment by distance over threat (src/decision/assignment.cpp). */
module Assignment {
  import opened Basics
  import opened Matching
  import opened Hungarian
  import opened Sorting
  import opened Interceptors

  datatype AssignmentTrack = AssignmentTrack(trackId: nat, position: Vec3, threat: real)

  datatype Action = Assign | Retask

  datatype Decision = Decision(interceptorId: nat, trackId: nat, action: Action, cost: real)

  datatype AssignmentConfig = AssignmentConfig(allowMultiEngage: bool, retaskEnable: bool, commitDistance: real)

  /** Higher threat first, then lower id. */
  predicate TrackBefore(a: AssignmentTrack, b: AssignmentTrack) {
    if a.threat != b.threat then a.threat > b.threat else a.trackId < b.trackId
  }

  predicate DecisionBefore(a: Decision, b: Decision) {
    a.interceptorId < b.interceptorId
  }

  /** An idle interceptor, or one far enough from its target to be retasked. */
  predicate IsEligible(sqrt: real -> real, cfg: AssignmentConfig, i: InterceptorState) {
    !i.engaged || (cfg.retaskEnable && Distance(sqrt, i.position, i.assignedTargetPosition) > cfg.commitDistance)
  }

  /** The positions of the eligible interceptors, in order. */
  function EligibleRows(sqrt: real -> real, cfg: AssignmentConfig, interceptors: seq<InterceptorState>): (r: seq<nat>)
    ensures forall k | 0 <= k < |r| :: r[k] < |interceptors| && IsEligible(sqrt, cfg, interceptors[r[k]])
    ensures forall j, k | 0 <= j < k < |r| :: r[j] < r[k]
    ensures forall i | 0 <= i < |interceptors| && IsEligible(sqrt, cfg, interceptors[i]) :: i in r
  {
    if interceptors == [] then []
    else
      var n := |interceptors| - 1;
      var r := EligibleRows(sqrt, cfg, interceptors[..n]);
      if IsEligible(sqrt, cfg, interceptors[n]) then r + [n] else r
  }

  function PairCost(sqrt: real -> real, i: InterceptorState, t: AssignmentTrack): real {
    Distance(sqrt, i.position, t.position) / MaxReal(0.05, t.threat)
  }

  /** The problem handed to the solver: one row for each eligible interceptor, one column for each sorted track. */
  datatype Problem = Problem(interceptors: seq<InterceptorState>, rows: seq<nat>, tracks: seq<AssignmentTrack>,
                             cost: Matrix)

  ghost predicate IsProblem(p: Problem) {
    && (forall k | 0 <= k < |p.rows| :: p.rows[k] < |p.interceptors|)
    && |p.cost| == |p.rows|
    && (forall k | 0 <= k < |p.cost| :: |p.cost[k]| == |p.tracks|)
  }

  function CostRow(sqrt: real -> real, i: InterceptorState, tracks: seq<AssignmentTrack>): (r: seq<real>)
    ensures |r| == |tracks| && forall c | 0 <= c < |r| :: r[c] == PairCost(sqrt, i, tracks[c])
  {
    seq(|tracks|, c requires 0 <= c < |tracks| => PairCost(sqrt, i, tracks[c]))
  }

  function ProblemOf(sqrt: real -> real, cfg: AssignmentConfig, interceptors: seq<InterceptorState>,
                     tracks: seq<AssignmentTrack>): (p: Problem)
    ensures IsProblem(p)
  {
    var rows := EligibleRows(sqrt, cfg, interceptors);
    var sorted := Sort(TrackBefore, tracks);
    Problem(interceptors, rows, sorted,
            seq(|rows|, k requires 0 <= k < |rows| => CostRow(sqrt, interceptors[rows[k]], sorted)))
  }

  /** s assigns a column to each row of the problem, or -1. */
  ghost predicate Solves(p: Problem, s: seq<int>) {
    IsProblem(p) && |s| == |p.rows| && IsPartial(s, |p.tracks|)
  }

  function DecisionAt(p: Problem, row: nat, column: nat): Decision
    requires IsProblem(p) && row < |p.rows| && column < |p.tracks|
  {
    var i := p.interceptors[p.rows[row]];
    var t := p.tracks[column];
    Decision(i.interceptorId, t.trackId, if i.engaged && i.targetId != t.trackId then Retask else Assign,
             p.cost[row][column])
  }

  /** The assigned rows whose cost is below the pad cost. */
  predicate IsPick(p: Problem, s: seq<int>, row: nat)
    requires Solves(p, s) && row < |s|
  {
    s[row] >= 0 && p.cost[row][s[row]] < PAD_COST
  }

  function Picks(p: Problem, s: seq<int>, k: nat): seq<Decision>
    requires Solves(p, s) && k <= |s|
  {
    if k == 0 then []
    else Picks(p, s, k - 1) + if IsPick(p, s, k - 1) then [DecisionAt(p, k - 1, s[k-1])] else []
  }

  predicate HasDecision(result: seq<Decision>, id: nat) {
    exists d :: d in result && d.interceptorId == id
  }

  /** What an interceptor without a pick is given. */
  function Filler(p: Problem, id: nat): Decision
    requires p.tracks != []
  {
    Decision(id, p.tracks[0].trackId, Assign, 0.0)
  }

  /** With multi-engage, the eligible interceptors left over all take the most threatening track. */
  function FilledIn(p: Problem, result: seq<Decision>, k: nat): seq<Decision>
    requires IsProblem(p) && k <= |p.rows| && p.tracks != []
  {
    if k == 0 then result
    else
      var r := FilledIn(p, result, k - 1);
      var id := p.interceptors[p.rows[k-1]].interceptorId;
      if HasDecision(r, id) then r else r + [Filler(p, id)]
  }

  function Unsorted(cfg: AssignmentConfig, p: Problem, s: seq<int>): seq<Decision>
    requires Solves(p, s) && p.tracks != []
  {
    var picks := Picks(p, s, |s|);
    if cfg.allowMultiEngage then FilledIn(p, picks, |p.rows|) else picks
  }

  /** The decisions for an optimal assignment s of the problem. */
  ghost predicate IsAnswer(sqrt: real -> real, cfg: AssignmentConfig, interceptors: seq<InterceptorState>,
                           tracks: seq<AssignmentTrack>, s: seq<int>, result: seq<Decision>)
  {
    var p := ProblemOf(sqrt, cfg, interceptors, tracks);
    if tracks == [] || p.rows == [] then result == []
    else
      && Solves(p, s) && IsOptimal(p.cost, s)
      && result == Sort(DecisionBefore, Unsorted(cfg, p, s))
  }

  // ---------------------------------------------------------------- the procedure

  method FindEligible(sqrt: real -> real, cfg: AssignmentConfig, interceptors: seq<InterceptorState>)
    returns (rows: seq<nat>)
    ensures rows == EligibleRows(sqrt, cfg, interceptors)
  {
    rows := [];
    for i := 0 to |interceptors|
      invariant rows == EligibleRows(sqrt, cfg, interceptors[..i])
    {
      assert interceptors[..i+1][..i] == interceptors[..i];
      if !interceptors[i].engaged {
        rows := rows + [i];
        continue;
      }
      if !cfg.retaskEnable {
        continue;
      }
      var distance := Distance(sqrt, interceptors[i].position, interceptors[i].assignedTargetPosition);
      if distance > cfg.commitDistance {
        rows := rows + [i];
      }
    }
    assert interceptors[..|interceptors|] == interceptors;
  }

  method BuildCosts(sqrt: real -> real, interceptors: seq<InterceptorState>, rows: seq<nat>,
                    tracks: seq<AssignmentTrack>) returns (cost: Matrix)
    requires forall k | 0 <= k < |rows| :: rows[k] < |interceptors|
    ensures |cost| == |rows| && forall k | 0 <= k < |rows| :: cost[k] == CostRow(sqrt, interceptors[rows[k]], tracks)
  {
    cost := seq(|rows|, _ => seq(|tracks|, _ => PAD_COST));
    for row := 0 to |rows|
      invariant |cost| == |rows| && forall k | 0 <= k < row :: cost[k] == CostRow(sqrt, interceptors[rows[k]], tracks)
      invariant forall k | row <= k < |rows| :: cost[k] == seq(|tracks|, _ => PAD_COST)
    {
      var cells := cost[row];
      for column := 0 to |tracks|
        invariant |cells| == |tracks| && forall c | 0 <= c < column ::
                    cells[c] == PairCost(sqrt, interceptors[rows[row]], tracks[c])
      {
        var distance := Distance(sqrt, interceptors[rows[row]].position, tracks[column].position);
        cells := cells[column := distance / MaxReal(0.05, tracks[column].threat)];
      }
      assert cells == CostRow(sqrt, interceptors[rows[row]], tracks);
      cost := cost[row := cells];
    }
  }

  /** The track_used test never fires: the solver gives no two rows the same column. */
  method CollectPicks(cfg: AssignmentConfig, p: Problem, s: seq<int>) returns (result: seq<Decision>)
    requires Solves(p, s)
    ensures result == Picks(p, s, |s|)
  {
    result := [];
    var used := seq(|p.tracks|, _ => false);
    for row := 0 to |s|
      invariant result == Picks(p, s, row)
      invariant |used| == |p.tracks| && forall c | 0 <= c < |used| && used[c] :: c in s[..row]
    {
      if s[row] < 0 || p.cost[row][s[row]] >= PAD_COST {
        continue;
      }
      if !cfg.allowMultiEngage && used[s[row]] {
        assert false;
        continue;
      }
      used := used[s[row] := true];
      result := result + [DecisionAt(p, row, s[row])];
    }
  }

  method FillIn(p: Problem, picks: seq<Decision>) returns (result: seq<Decision>)
    requires IsProblem(p) && p.tracks != []
    ensures result == FilledIn(p, picks, |p.rows|)
  {
    result := picks;
    for row := 0 to |p.rows|
      invariant result == FilledIn(p, picks, row)
    {
      var id := p.interceptors[p.rows[row]].interceptorId;
      if !HasDecision(result, id) {
        result := result + [Decision(id, p.tracks[0].trackId, Assign, 0.0)];
      }
    }
  }

  method ComputeAssignments(sqrt: real -> real, interceptors: seq<InterceptorState>, tracks: seq<AssignmentTrack>,
                            cfg: AssignmentConfig)
    returns (result: seq<Decision>)
    ensures exists s :: IsAnswer(sqrt, cfg, interceptors, tracks, s, result)
  {
    ghost var p := ProblemOf(sqrt, cfg, interceptors, tracks);
    if interceptors == [] || tracks == [] {
      assert IsAnswer(sqrt, cfg, interceptors, tracks, [], []);
      return [];
    }
    var sorted := Sort(TrackBefore, tracks);
    var rows := FindEligible(sqrt, cfg, interceptors);
    if rows == [] {
      assert IsAnswer(sqrt, cfg, interceptors, tracks, [], []);
      return [];
    }
    var cost := BuildCosts(sqrt, interceptors, rows, sorted);
    assert Problem(interceptors, rows, sorted, cost) == p;
    var columns := HungarianSolve(cost);
    assert |cost[0]| == |sorted| && Width(cost) == |sorted|;
    result := CollectPicks(cfg, Problem(interceptors, rows, sorted, cost), columns);
    if cfg.allowMultiEngage && sorted != [] {
      result := FillIn(Problem(interceptors, rows, sorted, cost), result);
    }
    result := Sort(DecisionBefore, result);
    assert IsAnswer(sqrt, cfg, interceptors, tracks, columns, result);
  }

  // ---------------------------------------------------------------- what the answer guarantees

  ghost predicate DistinctInterceptors(interceptors: seq<InterceptorState>) {
    forall i, j | 0 <= i < j < |interceptors| :: interceptors[i].interceptorId != interceptors[j].interceptorId
  }

  predicate OtherInterceptor(a: Decision, b: Decision) {
    a.interceptorId != b.interceptorId
  }

  predicate OtherTrack(a: Decision, b: Decision) {
    a.trackId != b.trackId
  }

  predicate OtherTrackId(a: AssignmentTrack, b: AssignmentTrack) {
    a.trackId != b.trackId
  }

  function SumCost(result: seq<Decision>): real {
    if result == [] then 0.0 else SumCost(result[..|result|-1]) + result[|result|-1].cost
  }

  lemma {:induction false} SumCostConcat(a: seq<Decision>, b: seq<Decision>)
    ensures SumCost(a + b) == SumCost(a) + SumCost(b)
  {
    if b == [] {
      assert a + b == a;
    } else {
      assert (a + b)[..|a + b|-1] == a + b[..|b|-1];
      SumCostConcat(a, b[..|b|-1]);
    }
  }

  lemma {:induction false} InsertSumCost(x: Decision, s: seq<Decision>)
    ensures SumCost(Insert(DecisionBefore, x, s)) == SumCost(s) + x.cost
  {
    if s != [] {
      if DecisionBefore(x, s[0]) {
        SumCostConcat([x], s);
        assert SumCost([x]) == x.cost;
      } else {
        InsertSumCost(x, s[1..]);
        SumCostConcat([s[0]], Insert(DecisionBefore, x, s[1..]));
        SumCostConcat([s[0]], s[1..]);
        assert s == [s[0]] + s[1..];
      }
    }
  }

  /** Sorting the decisions does not change their total cost. */
  lemma {:induction false} SortSumCost(s: seq<Decision>)
    ensures SumCost(Sort(DecisionBefore, s)) == SumCost(s)
  {
    if s != [] {
      SortSumCost(s[..|s|-1]);
      InsertSumCost(s[|s|-1], Sort(DecisionBefore, s[..|s|-1]));
    }
  }

  /** The picked rows, in order. */
  ghost function PickRows(p: Problem, s: seq<int>, k: nat): (r: seq<nat>)
    requires Solves(p, s) && k <= |s|
    ensures |r| == |Picks(p, s, k)|
    ensures forall j | 0 <= j < |r| ::
              r[j] < k && IsPick(p, s, r[j]) && Picks(p, s, k)[j] == DecisionAt(p, r[j], s[r[j]])
    ensures forall i, j | 0 <= i < j < |r| :: r[i] < r[j]
  {
    if k == 0 then []
    else
      var r := PickRows(p, s, k - 1);
      if IsPick(p, s, k - 1) then r + [k - 1] else r
  }

  /** Picks never share an interceptor or a track. */
  lemma {:induction false} PicksAreDistinct(sqrt: real -> real, cfg: AssignmentConfig,
                                            interceptors: seq<InterceptorState>, tracks: seq<AssignmentTrack>,
                                            s: seq<int>)
    requires DistinctInterceptors(interceptors) && Pairwise(OtherTrackId, tracks)
    requires Solves(ProblemOf(sqrt, cfg, interceptors, tracks), s)
    ensures var p := ProblemOf(sqrt, cfg, interceptors, tracks);
            Pairwise(OtherInterceptor, Picks(p, s, |s|)) && Pairwise(OtherTrack, Picks(p, s, |s|))
  {
    var p := ProblemOf(sqrt, cfg, interceptors, tracks);
    var picks, rows := Picks(p, s, |s|), PickRows(p, s, |s|);
    SortKeepsPairwise(TrackBefore, OtherTrackId, tracks);
    forall i, j | 0 <= i < j < |picks| ensures OtherInterceptor(picks[i], picks[j]) && OtherTrack(picks[i], picks[j]) {
      var a, b := rows[i], rows[j];
      assert p.rows[a] < p.rows[b];
      assert s[a] != s[b];
      assert if s[a] < s[b] then OtherTrackId(p.tracks[s[a]], p.tracks[s[b]])
             else OtherTrackId(p.tracks[s[b]], p.tracks[s[a]]);
    }
  }

  /** When every cell is cheaper than the pad, every assigned row is a pick. */
  lemma {:induction false} PicksAreAll(p: Problem, s: seq<int>, k: nat)
    requires Solves(p, s) && k <= |s|
    requires forall r, c | 0 <= r < |p.rows| && 0 <= c < |p.tracks| :: p.cost[r][c] < PAD_COST
    ensures |Picks(p, s, k)| == Size(s[..k])
    ensures SumCost(Picks(p, s, k)) == Total(p.cost, s[..k])
  {
    if k > 0 {
      PicksAreAll(p, s, k - 1);
      assert s[..k][..k-1] == s[..k-1];
      var before := Picks(p, s, k - 1);
      if s[k-1] >= 0 {
        assert (before + [DecisionAt(p, k - 1, s[k-1])])[..|before|] == before;
      } else {
        assert before + [] == before;
      }
    }
  }

  lemma {:induction false} ProblemWidth(p: Problem)
    requires IsProblem(p) && p.rows != []
    ensures Width(p.cost) == |p.tracks|
  {
  }

  /** A decision of the answer names an eligible interceptor: a committed one is never touched. */
  ghost predicate NamesEligible(sqrt: real -> real, cfg: AssignmentConfig, interceptors: seq<InterceptorState>,
                                d: Decision) {
    exists i :: 0 <= i < |interceptors| && interceptors[i].interceptorId == d.interceptorId
      && IsEligible(sqrt, cfg, interceptors[i])
  }

  lemma {:induction false} FilledInNamesEligible(sqrt: real -> real, cfg: AssignmentConfig,
                                                 interceptors: seq<InterceptorState>, tracks: seq<AssignmentTrack>,
                                                 base: seq<Decision>, k: nat)
    requires tracks != [] && k <= |EligibleRows(sqrt, cfg, interceptors)|
    requires forall d | d in base :: NamesEligible(sqrt, cfg, interceptors, d)
    ensures forall d | d in FilledIn(ProblemOf(sqrt, cfg, interceptors, tracks), base, k) ::
              NamesEligible(sqrt, cfg, interceptors, d)
  {
    if k > 0 {
      FilledInNamesEligible(sqrt, cfg, interceptors, tracks, base, k - 1);
      var row := EligibleRows(sqrt, cfg, interceptors)[k-1];
      assert IsEligible(sqrt, cfg, interceptors[row]);
    }
  }

  lemma {:induction false} PickNamesEligible(sqrt: real -> real, cfg: AssignmentConfig,
                                             interceptors: seq<InterceptorState>, tracks: seq<AssignmentTrack>,
                                             s: seq<int>, d: Decision)
    requires Solves(ProblemOf(sqrt, cfg, interceptors, tracks), s)
    requires d in Picks(ProblemOf(sqrt, cfg, interceptors, tracks), s, |s|)
    ensures NamesEligible(sqrt, cfg, interceptors, d)
  {
    var p := ProblemOf(sqrt, cfg, interceptors, tracks);
    var picks, rows := Picks(p, s, |s|), PickRows(p, s, |s|);
    var j :| 0 <= j < |picks| && picks[j] == d;
    assert IsEligible(sqrt, cfg, interceptors[p.rows[rows[j]]]);
  }

  lemma {:induction false} CommittedUntouched(sqrt: real -> real, cfg: AssignmentConfig,
                                              interceptors: seq<InterceptorState>, tracks: seq<AssignmentTrack>,
                                              s: seq<int>, result: seq<Decision>, k: nat)
    requires IsAnswer(sqrt, cfg, interceptors, tracks, s, result) && k < |result|
    ensures NamesEligible(sqrt, cfg, interceptors, result[k])
  {
    var p := ProblemOf(sqrt, cfg, interceptors, tracks);
    var all := Unsorted(cfg, p, s);
    assert forall d | d in all :: NamesEligible(sqrt, cfg, interceptors, d) by {
      hide IsOptimal, IsPartial, NamesEligible;
      var picks := Picks(p, s, |s|);
      forall d | d in picks ensures NamesEligible(sqrt, cfg, interceptors, d) {
        PickNamesEligible(sqrt, cfg, interceptors, tracks, s, d);
      }
      FilledInNamesEligible(sqrt, cfg, interceptors, tracks, picks, |p.rows|);
    }
    hide *;
    SortKeepsElements(DecisionBefore, all);
    SameElements(result, all, result[k]);
  }

  /** The answer is in order of interceptor id. */
  lemma {:induction false} AnswerIsSorted(sqrt: real -> real, cfg: AssignmentConfig,
                                          interceptors: seq<InterceptorState>, tracks: seq<AssignmentTrack>,
                                          s: seq<int>, result: seq<Decision>)
    requires IsAnswer(sqrt, cfg, interceptors, tracks, s, result)
    ensures forall j, k | 0 <= j < k < |result| :: result[j].interceptorId <= result[k].interceptorId
  {
    var p := ProblemOf(sqrt, cfg, interceptors, tracks);
    if tracks != [] && p.rows != [] {
      SortIsSorted(DecisionBefore, Unsorted(cfg, p, s));
    }
  }

  /** Without multi-engage the answer pairs as many eligible interceptors and tracks as there can be pairs,
      each at most once, at the least total cost. */
  lemma {:induction false} SingleEngage(sqrt: real -> real, cfg: AssignmentConfig, interceptors: seq<InterceptorState>,
                                        tracks: seq<AssignmentTrack>, s: seq<int>, result: seq<Decision>)
    requires IsAnswer(sqrt, cfg, interceptors, tracks, s, result) && !cfg.allowMultiEngage
    requires DistinctInterceptors(interceptors) && Pairwise(OtherTrackId, tracks)
    requires var p := ProblemOf(sqrt, cfg, interceptors, tracks);
             forall r, c | 0 <= r < |p.rows| && 0 <= c < |p.tracks| :: p.cost[r][c] < PAD_COST
    ensures |result| == Min(|EligibleRows(sqrt, cfg, interceptors)|, |tracks|)
    ensures Pairwise(OtherInterceptor, result) && Pairwise(OtherTrack, result)
    ensures var p := ProblemOf(sqrt, cfg, interceptors, tracks);
            forall m | Solves(p, m) && Size(m) == Min(|p.rows|, |p.tracks|) :: SumCost(result) <= Total(p.cost, m)
  {
    var p := ProblemOf(sqrt, cfg, interceptors, tracks);
    if tracks == [] || p.rows == [] {
      forall m | Solves(p, m) && Size(m) == Min(|p.rows|, |p.tracks|) ensures SumCost(result) <= Total(p.cost, m) {
        NothingAssigned(p, m);
      }
    } else {
      SingleEngageProper(sqrt, cfg, interceptors, tracks, s, result);
    }
  }

  lemma {:induction false} NothingAssigned(p: Problem, m: seq<int>)
    requires Solves(p, m) && (p.tracks == [] || p.rows == [])
    ensures Total(p.cost, m) == 0.0
  {
    NoneTotal(p.cost, m);
  }

  lemma {:induction false} NoneTotal(cost: Matrix, m: seq<int>)
    requires forall i | 0 <= i < |m| :: m[i] < 0
    ensures Total(cost, m) == 0.0
  {
    if m != [] {
      NoneTotal(cost, m[..|m|-1]);
    }
  }

  /** The picks of an optimal assignment of cheap cells are as many as there can be, at the least cost. */
  lemma {:induction false} PicksAreOptimal(p: Problem, s: seq<int>)
    requires Solves(p, s) && IsOptimal(p.cost, s) && p.rows != []
    requires forall r, c | 0 <= r < |p.rows| && 0 <= c < |p.tracks| :: p.cost[r][c] < PAD_COST
    ensures |Picks(p, s, |s|)| == Min(|p.rows|, |p.tracks|)
    ensures forall m | Solves(p, m) && Size(m) == Min(|p.rows|, |p.tracks|) ::
              SumCost(Picks(p, s, |s|)) <= Total(p.cost, m)
  {
    hide Picks, SumCost, Total, Size;
    ProblemWidth(p);
    PicksAreAll(p, s, |s|);
    assert s[..|s|] == s;
  }

  lemma {:induction false} SingleEngageProper(sqrt: real -> real, cfg: AssignmentConfig,
                                              interceptors: seq<InterceptorState>, tracks: seq<AssignmentTrack>,
                                              s: seq<int>, result: seq<Decision>)
    requires IsAnswer(sqrt, cfg, interceptors, tracks, s, result) && !cfg.allowMultiEngage
    requires DistinctInterceptors(interceptors) && Pairwise(OtherTrackId, tracks)
    requires var p := ProblemOf(sqrt, cfg, interceptors, tracks);
             && tracks != [] && p.rows != []
             && (forall r, c | 0 <= r < |p.rows| && 0 <= c < |p.tracks| :: p.cost[r][c] < PAD_COST)
    ensures |result| == Min(|EligibleRows(sqrt, cfg, interceptors)|, |tracks|)
    ensures Pairwise(OtherInterceptor, result) && Pairwise(OtherTrack, result)
    ensures var p := ProblemOf(sqrt, cfg, interceptors, tracks);
            forall m | Solves(p, m) && Size(m) == Min(|p.rows|, |p.tracks|) :: SumCost(result) <= Total(p.cost, m)
  {
    hide Picks, SumCost, Total, Size, Solves, IsOptimal, Pairwise, Sort, DistinctInterceptors, EligibleRows;
    var p := ProblemOf(sqrt, cfg, interceptors, tracks);
    var picks := Picks(p, s, |s|);
    assert result == Sort(DecisionBefore, picks);
    PicksAreDistinct(sqrt, cfg, interceptors, tracks, s);
    SortKeepsPairwise(DecisionBefore, OtherInterceptor, picks);
    SortKeepsPairwise(DecisionBefore, OtherTrack, picks);
    PicksAreOptimal(p, s);
    SortSumCost(picks);
  }

  // ---------------------------------------------------------------- multi-engage

  /** The problem's first column is a track no other outranks. */
  lemma {:induction false} TopTrack(sqrt: real -> real, cfg: AssignmentConfig, interceptors: seq<InterceptorState>,
                                    tracks: seq<AssignmentTrack>)
    requires tracks != []
    ensures var top := ProblemOf(sqrt, cfg, interceptors, tracks).tracks[0];
            && top in tracks
            && forall t | t in tracks :: t.threat <= top.threat && (t.threat == top.threat ==> top.trackId <= t.trackId)
  {
    var sorted := Sort(TrackBefore, tracks);
    SortIsSorted(TrackBefore, tracks);
    SortKeepsElements(TrackBefore, tracks);
    SameElements(sorted, tracks, sorted[0]);
    forall t | t in tracks ensures !TrackBefore(t, sorted[0]) {
      SameElements(sorted, tracks, t);
      var k :| 0 <= k < |sorted| && sorted[k] == t;
    }
  }

  /** The decision for the interceptor of this row: its pick when it has one, the first track otherwise. */
  function Chosen(p: Problem, s: seq<int>, row: nat): Decision
    requires Solves(p, s) && p.tracks != [] && row < |s|
  {
    if IsPick(p, s, row) then DecisionAt(p, row, s[row]) else Filler(p, p.interceptors[p.rows[row]].interceptorId)
  }

  /** Filling in keeps what is there and adds the filler of every interceptor that has no decision yet. */
  lemma {:induction false} FilledInHolds(p: Problem, base: seq<Decision>, k: nat)
    requires IsProblem(p) && p.tracks != [] && k <= |p.rows|
    ensures forall d | d in base :: d in FilledIn(p, base, k)
    ensures forall d | d in FilledIn(p, base, k) :: d in base || d == Filler(p, d.interceptorId)
    ensures forall r {:trigger p.rows[r]} | 0 <= r < k && !HasDecision(base, p.interceptors[p.rows[r]].interceptorId) ::
              Filler(p, p.interceptors[p.rows[r]].interceptorId) in FilledIn(p, base, k)
  {
    if k > 0 {
      FilledInHolds(p, base, k - 1);
      var r := FilledIn(p, base, k - 1);
      var d := Filler(p, p.interceptors[p.rows[k-1]].interceptorId);
      assert d in r + [d];
    }
  }

  lemma {:induction false} FilledInIsDistinct(p: Problem, base: seq<Decision>, k: nat)
    requires IsProblem(p) && p.tracks != [] && k <= |p.rows|
    requires Pairwise(OtherInterceptor, base)
    ensures Pairwise(OtherInterceptor, FilledIn(p, base, k))
  {
    if k > 0 {
      FilledInIsDistinct(p, base, k - 1);
    }
  }

  /** The picks hold the decision of every picked row, and none for the interceptor of any other row. */
  lemma {:induction false} PicksByRow(p: Problem, s: seq<int>, row: nat)
    requires Solves(p, s) && row < |s| && DistinctInterceptors(p.interceptors)
    requires forall j, k | 0 <= j < k < |p.rows| :: p.rows[j] < p.rows[k]
    ensures IsPick(p, s, row) ==> DecisionAt(p, row, s[row]) in Picks(p, s, |s|)
    ensures !IsPick(p, s, row) ==> !HasDecision(Picks(p, s, |s|), p.interceptors[p.rows[row]].interceptorId)
  {
    var picks, rows := Picks(p, s, |s|), PickRows(p, s, |s|);
    if IsPick(p, s, row) {
      PickIsHeld(p, s, row, |s|);
    } else {
      forall d | d in picks ensures d.interceptorId != p.interceptors[p.rows[row]].interceptorId {
        var j :| 0 <= j < |picks| && picks[j] == d;
        var other := rows[j];
        assert p.rows[other] != p.rows[row];
      }
    }
  }

  lemma {:induction false} PickIsHeld(p: Problem, s: seq<int>, row: nat, k: nat)
    requires Solves(p, s) && row < k <= |s| && IsPick(p, s, row)
    ensures DecisionAt(p, row, s[row]) in Picks(p, s, k)
  {
    if row < k - 1 {
      PickIsHeld(p, s, row, k - 1);
    }
  }

  lemma {:induction false} ChosenIsHeld(sqrt: real -> real, cfg: AssignmentConfig, interceptors: seq<InterceptorState>,
                                        tracks: seq<AssignmentTrack>, s: seq<int>, result: seq<Decision>, k: nat)
    requires IsAnswer(sqrt, cfg, interceptors, tracks, s, result) && cfg.allowMultiEngage && tracks != []
    requires DistinctInterceptors(interceptors) && Pairwise(OtherTrackId, tracks)
    requires k < |EligibleRows(sqrt, cfg, interceptors)|
    ensures Pairwise(OtherInterceptor, result)
    ensures Chosen(ProblemOf(sqrt, cfg, interceptors, tracks), s, k) in result
  {
    var p := ProblemOf(sqrt, cfg, interceptors, tracks);
    var picks := Picks(p, s, |s|);
    var all := FilledIn(p, picks, |p.rows|);
    PicksAreDistinct(sqrt, cfg, interceptors, tracks, s);
    FilledInIsDistinct(p, picks, |p.rows|);
    SortKeepsPairwise(DecisionBefore, OtherInterceptor, all);
    PicksByRow(p, s, k);
    FilledInHolds(p, picks, |p.rows|);
    assert Chosen(p, s, k) in all;
    SortKeepsElements(DecisionBefore, all);
    SameElements(result, all, Chosen(p, s, k));
  }

  /** With multi-engage every eligible interceptor gets exactly one decision: its cell of the optimal assignment when
      that is cheaper than the pad, and otherwise the first of the sorted tracks at no cost. */
  lemma {:induction false} MultiEngage(sqrt: real -> real, cfg: AssignmentConfig, interceptors: seq<InterceptorState>,
                                       tracks: seq<AssignmentTrack>, s: seq<int>, result: seq<Decision>, i: nat)
    requires IsAnswer(sqrt, cfg, interceptors, tracks, s, result) && cfg.allowMultiEngage && tracks != []
    requires DistinctInterceptors(interceptors) && Pairwise(OtherTrackId, tracks)
    requires i < |interceptors| && IsEligible(sqrt, cfg, interceptors[i])
    ensures Pairwise(OtherInterceptor, result)
    ensures var p := ProblemOf(sqrt, cfg, interceptors, tracks);
            exists k | 0 <= k < |p.rows| :: p.rows[k] == i && Chosen(p, s, k) in result
  {
    hide Pairwise, Sort, Unsorted, IsOptimal, Chosen, DistinctInterceptors;
    var p := ProblemOf(sqrt, cfg, interceptors, tracks);
    var k :| 0 <= k < |p.rows| && p.rows[k] == i;
    ChosenIsHeld(sqrt, cfg, interceptors, tracks, s, result, k);
  }

  // ---------------------------------------------------------------- what a decision is called

  /** A decision is called a retask exactly when it takes its interceptor off another target. */
  predicate RightlyNamed(i: InterceptorState, d: Decision) {
    d.action == Retask <==> i.engaged && i.targetId != d.trackId
  }

  lemma {:induction false} PairwiseUnique(result: seq<Decision>, a: Decision, b: Decision)
    requires Pairwise(OtherInterceptor, result) && a in result && b in result && a.interceptorId == b.interceptorId
    ensures a == b
  {
    var i :| 0 <= i < |result| && result[i] == a;
    var j :| 0 <= j < |result| && result[j] == b;
    assert i == j;
  }

  lemma {:induction false} SameInterceptor(interceptors: seq<InterceptorState>, i: nat, j: nat)
    requires DistinctInterceptors(interceptors) && i < |interceptors| && j < |interceptors|
    requires interceptors[i].interceptorId == interceptors[j].interceptorId
    ensures i == j
  {
  }

  /** A decision that multi-engage may have filled in is rightly named exactly when it was picked, or its interceptor
      was idle or already on the first of the sorted tracks. */
  lemma {:induction false} NameOfDecision(sqrt: real -> real, cfg: AssignmentConfig,
                                          interceptors: seq<InterceptorState>, tracks: seq<AssignmentTrack>,
                                          s: seq<int>, result: seq<Decision>, k: nat, d: Decision)
    requires IsAnswer(sqrt, cfg, interceptors, tracks, s, result) && cfg.allowMultiEngage && tracks != []
    requires DistinctInterceptors(interceptors) && Pairwise(OtherTrackId, tracks)
    requires k < |EligibleRows(sqrt, cfg, interceptors)| && d in result
    requires d.interceptorId == interceptors[EligibleRows(sqrt, cfg, interceptors)[k]].interceptorId
    ensures var p := ProblemOf(sqrt, cfg, interceptors, tracks);
            var i := interceptors[p.rows[k]];
            RightlyNamed(i, d) <==> IsPick(p, s, k) || !i.engaged || i.targetId == p.tracks[0].trackId
  {
    hide Pairwise, Sort, Unsorted, IsOptimal, DistinctInterceptors, EligibleRows;
    var p := ProblemOf(sqrt, cfg, interceptors, tracks);
    ChosenIsHeld(sqrt, cfg, interceptors, tracks, s, result, k);
    PairwiseUnique(result, Chosen(p, s, k), d);
  }

  /** When every cell is cheaper than the pad, everybody is picked exactly when there are tracks enough. */
  lemma {:induction false} AllPickedExactly(p: Problem, s: seq<int>)
    requires Solves(p, s) && IsOptimal(p.cost, s) && p.rows != []
    requires forall r, c | 0 <= r < |p.rows| && 0 <= c < |p.tracks| :: p.cost[r][c] < PAD_COST
    ensures (forall k | 0 <= k < |s| :: IsPick(p, s, k)) <==> |p.rows| <= |p.tracks|
  {
    hide Size, Total;
    ProblemWidth(p);
    if |p.rows| <= |p.tracks| {
      forall k | 0 <= k < |s| ensures IsPick(p, s, k) {
        if s[k] < 0 {
          SizeNotFull(s, k);
        }
      }
    } else {
      var k := UnassignedRow(s);
      assert !IsPick(p, s, k);
    }
  }

  lemma {:induction false} PickIsRightlyNamed(sqrt: real -> real, cfg: AssignmentConfig,
                                              interceptors: seq<InterceptorState>, tracks: seq<AssignmentTrack>,
                                              s: seq<int>, i: nat, d: Decision)
    requires Solves(ProblemOf(sqrt, cfg, interceptors, tracks), s)
    requires DistinctInterceptors(interceptors)
    requires d in Picks(ProblemOf(sqrt, cfg, interceptors, tracks), s, |s|)
    requires i < |interceptors| && d.interceptorId == interceptors[i].interceptorId
    ensures RightlyNamed(interceptors[i], d)
  {
    hide EligibleRows, DistinctInterceptors, IsPick;
    var p := ProblemOf(sqrt, cfg, interceptors, tracks);
    var picks, rows := Picks(p, s, |s|), PickRows(p, s, |s|);
    var j :| 0 <= j < |picks| && picks[j] == d;
    SameInterceptor(interceptors, p.rows[rows[j]], i);
  }

  lemma {:induction false} EligibleOfDecision(sqrt: real -> real, cfg: AssignmentConfig,
                                              interceptors: seq<InterceptorState>, tracks: seq<AssignmentTrack>,
                                              s: seq<int>, result: seq<Decision>, i: nat, d: Decision)
    requires IsAnswer(sqrt, cfg, interceptors, tracks, s, result) && DistinctInterceptors(interceptors)
    requires i < |interceptors| && d in result && d.interceptorId == interceptors[i].interceptorId
    ensures IsEligible(sqrt, cfg, interceptors[i])
  {
    hide IsAnswer, IsEligible, DistinctInterceptors;
    var n :| 0 <= n < |result| && result[n] == d;
    CommittedUntouched(sqrt, cfg, interceptors, tracks, s, result, n);
    var e :| 0 <= e < |interceptors| && interceptors[e].interceptorId == d.interceptorId
      && IsEligible(sqrt, cfg, interceptors[e]);
    SameInterceptor(interceptors, e, i);
  }

  /** Without multi-engage, or with tracks enough and every cell cheaper than the pad, every decision is rightly
      named. */
  lemma {:induction false} RightNames(sqrt: real -> real, cfg: AssignmentConfig, interceptors: seq<InterceptorState>,
                                      tracks: seq<AssignmentTrack>, s: seq<int>, result: seq<Decision>, i: nat,
                                      d: Decision)
    requires IsAnswer(sqrt, cfg, interceptors, tracks, s, result)
    requires DistinctInterceptors(interceptors) && Pairwise(OtherTrackId, tracks)
    requires var p := ProblemOf(sqrt, cfg, interceptors, tracks);
             || !cfg.allowMultiEngage
             || (|p.rows| <= |p.tracks|
                 && forall r, c | 0 <= r < |p.rows| && 0 <= c < |p.tracks| :: p.cost[r][c] < PAD_COST)
    requires i < |interceptors| && d in result && d.interceptorId == interceptors[i].interceptorId
    ensures RightlyNamed(interceptors[i], d)
  {
    hide Pairwise, Sort, Total, Size, IsOptimal, RightlyNamed, Picks, IsPick, DistinctInterceptors, IsEligible;
    var p := ProblemOf(sqrt, cfg, interceptors, tracks);
    if cfg.allowMultiEngage {
      AllPickedExactly(p, s);
      EligibleOfDecision(sqrt, cfg, interceptors, tracks, s, result, i, d);
      var k :| 0 <= k < |p.rows| && p.rows[k] == i;
      hide IsAnswer;
      NameOfDecision(sqrt, cfg, interceptors, tracks, s, result, k, d);
    } else {
      SortKeepsElements(DecisionBefore, Picks(p, s, |s|));
      SameElements(result, Picks(p, s, |s|), d);
      PickIsRightlyNamed(sqrt, cfg, interceptors, tracks, s, i, d);
    }
  }

  /** Among interceptors that all fly at other targets, somebody's decision is misnamed exactly when there are fewer
      tracks than eligible interceptors. */
  lemma {:induction false} NamesFailExactly(sqrt: real -> real, cfg: AssignmentConfig,
                                            interceptors: seq<InterceptorState>, tracks: seq<AssignmentTrack>,
                                            s: seq<int>, result: seq<Decision>)
    requires IsAnswer(sqrt, cfg, interceptors, tracks, s, result) && cfg.allowMultiEngage && tracks != []
    requires DistinctInterceptors(interceptors) && Pairwise(OtherTrackId, tracks)
    requires var p := ProblemOf(sqrt, cfg, interceptors, tracks);
             && (forall r, c | 0 <= r < |p.rows| && 0 <= c < |p.tracks| :: p.cost[r][c] < PAD_COST)
             && (forall k | 0 <= k < |p.rows| ::
                   interceptors[p.rows[k]].engaged && interceptors[p.rows[k]].targetId != p.tracks[0].trackId)
    ensures (forall i, d | 0 <= i < |interceptors| && d in result && d.interceptorId == interceptors[i].interceptorId ::
               RightlyNamed(interceptors[i], d))
            <==> |EligibleRows(sqrt, cfg, interceptors)| <= |tracks|
  {
    hide Pairwise, Sort, Total, Size, IsOptimal, RightlyNamed, Picks, IsPick, DistinctInterceptors, IsEligible, Chosen;
    var p := ProblemOf(sqrt, cfg, interceptors, tracks);
    if |p.rows| <= |p.tracks| {
      forall i, d | 0 <= i < |interceptors| && d in result && d.interceptorId == interceptors[i].interceptorId
        ensures RightlyNamed(interceptors[i], d)
      {
        RightNames(sqrt, cfg, interceptors, tracks, s, result, i, d);
      }
    } else {
      AllPickedExactly(p, s);
      var k :| 0 <= k < |s| && !IsPick(p, s, k);
      ChosenIsHeld(sqrt, cfg, interceptors, tracks, s, result, k);
      var d := Chosen(p, s, k);
      ChosenNames(p, s, k);
      NameOfDecision(sqrt, cfg, interceptors, tracks, s, result, k, d);
      assert !RightlyNamed(interceptors[p.rows[k]], d);
    }
  }

  lemma {:induction false} ChosenNames(p: Problem, s: seq<int>, k: nat)
    requires Solves(p, s) && p.tracks != [] && k < |s|
    ensures Chosen(p, s, k).interceptorId == p.interceptors[p.rows[k]].interceptorId
  {
  }

  // ---------------------------------------------------------------- a misnamed decision

  const NEAR := AssignmentTrack(7, Vec3(1.0, 0.0, 0.0), 1.0)
  const FREE := Idle(1, ORIGIN)

  /** On its way to track 9, a hundred metres off. */
  const BUSY := InterceptorState(2, Vec3(3.0, 0.0, 0.0), ORIGIN, true, 9, Vec3(103.0, 0.0, 0.0), 4.0)
  const RETASKING := AssignmentConfig(true, true, 10.0)

  lemma {:induction false} BothEligible(sqrt: real -> real)
    requires IsSqrt(sqrt)
    ensures EligibleRows(sqrt, RETASKING, [FREE, BUSY]) == [0, 1]
  {
    hide Distance;
    DistanceIs(sqrt, BUSY.position, BUSY.assignedTargetPosition, 100.0);
    assert [FREE, BUSY][..1] == [FREE] && [FREE][..0] == [];
    assert IsEligible(sqrt, RETASKING, BUSY);
    assert EligibleRows(sqrt, RETASKING, [FREE]) == [0];
  }

  lemma {:induction false} NearCost(sqrt: real -> real, i: InterceptorState, d: real)
    requires IsSqrt(sqrt) && Apart(i.position, NEAR.position, d)
    ensures PairCost(sqrt, i, NEAR) == d
  {
    hide Distance, IsSqrt, Apart;
    DistanceIs(sqrt, i.position, NEAR.position, d);
  }

  lemma {:induction false} TwoOnOne(sqrt: real -> real)
    requires IsSqrt(sqrt)
    ensures var p := ProblemOf(sqrt, RETASKING, [FREE, BUSY], [NEAR]);
            p.rows == [0, 1] && p.tracks == [NEAR] && p.cost == [[1.0], [2.0]]
  {
    hide PairCost, EligibleRows, IsSqrt;
    BothEligible(sqrt);
    NearCost(sqrt, FREE, 1.0) by {
      assert Apart(FREE.position, NEAR.position, 1.0);
    }
    NearCost(sqrt, BUSY, 2.0) by {
      assert Apart(BUSY.position, NEAR.position, 2.0);
    }
    assert [NEAR][..0] == [] && Sort(TrackBefore, [NEAR]) == [NEAR];
    assert CostRow(sqrt, FREE, [NEAR]) == [1.0] && CostRow(sqrt, BUSY, [NEAR]) == [2.0];
  }

  lemma {:induction false} TotalOfTwo(cost: Matrix, s: seq<int>)
    requires |s| == 2
    ensures Total(cost, s) == CellCost(cost, 0, s[0]) + CellCost(cost, 1, s[1])
    ensures Size(s) == (if s[0] >= 0 then 1 else 0) + (if s[1] >= 0 then 1 else 0)
  {
    assert s[..1] == [s[0]] && [s[0]][..0] == [];
    assert Total(cost, [s[0]]) == CellCost(cost, 0, s[0]);
  }

  lemma {:induction false} NearerIsPicked(s: seq<int>)
    requires IsOptimal([[1.0], [2.0]], s)
    ensures |s| == 2 && s[1] < 0
  {
    hide Total, Size;
    var cost := [[1.0], [2.0]];
    assert Width(cost) == 1;
    TotalOfTwo(cost, [0, -1]);
    TotalOfTwo(cost, s);
    assert Total(cost, s) <= Total(cost, [0, -1]);
  }

  /** Two interceptors on one track: the one sent there from track 9 is told so as an assignment. */
  lemma {:induction false} RetaskCalledAssignment(sqrt: real -> real, s: seq<int>, result: seq<Decision>)
    requires IsSqrt(sqrt) && IsAnswer(sqrt, RETASKING, [FREE, BUSY], [NEAR], s, result)
    ensures Decision(2, 7, Assign, 0.0) in result && !RightlyNamed(BUSY, Decision(2, 7, Assign, 0.0))
  {
    hide IsOptimal, EligibleRows, Unsorted, Sort, CostRow;
    TwoOnOne(sqrt);
    NearerIsPicked(s);
    assert |EligibleRows(sqrt, RETASKING, [FREE, BUSY])| == 2;
    ChosenIsHeld(sqrt, RETASKING, [FREE, BUSY], [NEAR], s, result, 1);
  }
}
