/** The two radar association algorithms (src/fusion_core/track_manager.cpp:416-516), over a gate table:
    row t, column k holds the gating cost of track t and radar measurement k, or None when the
    measurement cannot be read or fails the gate. */
module Association {
  import opened Basics
  import opened Matching
  import opened Hungarian

  type GateTable = seq<seq<Option<real>>>

  /** `cols` measurements for every track. */
  ghost predicate IsTable(table: GateTable, cols: nat) {
    forall t | 0 <= t < |table| :: |table[t]| == cols
  }

  /** Each track takes at most one measurement, through the gate, and no measurement is taken twice. */
  ghost predicate IsGated(table: GateTable, cols: nat, s: seq<int>)
    requires IsTable(table, cols)
  {
    && |s| == |table| && IsPartial(s, cols)
    && (forall t | 0 <= t < |s| && s[t] >= 0 :: table[t][s[t]].Some?)
  }

  /** The summed gating cost of a gated matching. */
  ghost function GatedCost(table: GateTable, cols: nat, s: seq<int>): real
    requires IsTable(table, cols) && IsGated(table, cols, s)
  {
    Total(CostMatrix(table, 0.0), s)
  }

  /** The cost matrix handed to the solver: `unassigned` where the gate fails. */
  function CostMatrix(table: GateTable, unassigned: real): (cost: Matrix)
    ensures |cost| == |table|
    ensures forall t | 0 <= t < |table| :: |cost[t]| == |table[t]|
    ensures forall t, k | 0 <= t < |table| && 0 <= k < |table[t]| ::
              cost[t][k] == match table[t][k] { case Some(c) => c case None => unassigned }
  {
    seq(|table|, t requires 0 <= t < |table| =>
      seq(|table[t]|, k requires 0 <= k < |table[t]| =>
        match table[t][k] { case Some(c) => c case None => unassigned }))
  }

  // ---------------------------------------------------------------- nearest neighbour

  /** k is the first measurement of least cost in `row` that passes the gate and is not in `taken`; -1 if none. */
  ghost predicate IsNearest(row: seq<Option<real>>, taken: seq<int>, upTo: nat, k: int)
    requires upTo <= |row|
  {
    if k < 0 then k == -1 && forall c | 0 <= c < upTo && c !in taken :: row[c].None?
    else
      && k < upTo && k !in taken && row[k].Some?
      && (forall c | 0 <= c < upTo && c !in taken && row[c].Some? ::
            row[k].value <= row[c].value && (row[k].value == row[c].value ==> k <= c))
  }

  /** Each track in turn takes its nearest measurement among those its predecessors left. */
  ghost predicate IsGreedyByTrack(table: GateTable, cols: nat, s: seq<int>)
    requires IsTable(table, cols)
  {
    |s| <= |table| && forall t | 0 <= t < |s| :: IsNearest(table[t], s[..t], cols, s[t])
  }

  method NearestNeighbor(table: GateTable, cols: nat) returns (s: seq<int>)
    requires IsTable(table, cols)
    ensures |s| == |table| && IsGreedyByTrack(table, cols, s)
    ensures IsGated(table, cols, s)
  {
    s := [];
    var taken := seq(cols, _ => false);
    for t := 0 to |table|
      invariant |s| == t && IsGreedyByTrack(table, cols, s)
      invariant |taken| == cols && forall k | 0 <= k < cols :: taken[k] <==> k in s
    {
      var best := -1;
      for k := 0 to cols
        invariant IsNearest(table[t], s, k, best)
      {
        if !taken[k] && table[t][k].Some? && (best < 0 || table[t][k].value < table[t][best].value) {
          best := k;
        }
      }
      if best >= 0 {
        taken := taken[best := true];
      }
      ghost var before := s;
      s := s + [best];
      assert s[..t] == before;
      assert forall r | 0 <= r < t :: s[..r] == before[..r];
    }
    GreedyIsGated(table, cols, s);
  }

  lemma {:induction false} GreedyIsGated(table: GateTable, cols: nat, s: seq<int>)
    requires IsTable(table, cols) && |s| == |table| && IsGreedyByTrack(table, cols, s)
    ensures IsGated(table, cols, s)
  {
  }

  /** The greedy matching is maximal: every gated cell has its track or its measurement matched. */
  lemma {:induction false} GreedyIsMaximal(table: GateTable, cols: nat, s: seq<int>, t: nat, k: nat)
    requires IsTable(table, cols) && |s| == |table| && IsGreedyByTrack(table, cols, s)
    requires t < |s| && k < cols && table[t][k].Some?
    ensures s[t] >= 0 || k in s
  {
  }

  /** A matching whose columns all occur in another is no larger than it. */
  lemma {:induction false} SizeByColumns(m: seq<int>, s: seq<int>, cols: nat)
    requires IsPartial(m, cols) && IsPartial(s, cols)
    requires forall i | 0 <= i < |m| && m[i] >= 0 :: m[i] in s
    ensures Size(m) <= Size(s)
    decreases Size(m)
  {
    if i :| 0 <= i < |m| && m[i] >= 0 {
      var j :| 0 <= j < |s| && s[j] == m[i];
      SizeUpdate(m, i, -1);
      SizeUpdate(s, j, -1);
      var m', s' := m[i := -1], s[j := -1];
      forall h | 0 <= h < |m'| && m'[h] >= 0 ensures m'[h] in s' {
        assert h != i && m[h] != m[i] by { assert if h < i then m[h] != m[i] else m[i] != m[h]; }
        var g :| 0 <= g < |s| && s[g] == m[h];
        assert s'[g] == m[h];
      }
      SizeByColumns(m', s', cols);
    } else {
      SizeNone(m);
    }
  }

  /** Splits a matching by whether another one matches the same row. */
  lemma {:induction false} SizeSplit(m: seq<int>, s: seq<int>)
    requires |m| == |s|
    ensures Size(m) <= Size(s) + Size(UnmatchedElsewhere(m, s))
  {
    if m != [] {
      var n := |m| - 1;
      SizeSplit(m[..n], s[..n]);
      assert UnmatchedElsewhere(m, s)[..n] == UnmatchedElsewhere(m[..n], s[..n]);
    }
  }

  /** The part of m on rows that s leaves unmatched. */
  function UnmatchedElsewhere(m: seq<int>, s: seq<int>): seq<int>
    requires |m| == |s|
  {
    seq(|m|, i requires 0 <= i < |m| => if s[i] >= 0 then -1 else m[i])
  }

  /** No gated matching is more than twice as large as the greedy one. */
  lemma {:induction false} GreedyIsHalf(table: GateTable, cols: nat, s: seq<int>, m: seq<int>)
    requires IsTable(table, cols) && |s| == |table| && IsGreedyByTrack(table, cols, s)
    requires IsGated(table, cols, m)
    ensures Size(m) <= 2 * Size(s)
  {
    GreedyIsGated(table, cols, s);
    var rest := UnmatchedElsewhere(m, s);
    forall i | 0 <= i < |rest| && rest[i] >= 0 ensures rest[i] in s {
      GreedyIsMaximal(table, cols, s, i, m[i]);
    }
    SizeByColumns(rest, s, cols);
    SizeSplit(m, s);
  }

  // ---------------------------------------------------------------- Hungarian association

  /** Keeps the assigned cells cheaper than `unassigned`. */
  function Accepted(cost: Matrix, unassigned: real, s: seq<int>): (r: seq<int>)
    requires |s| == |cost|
    requires forall t | 0 <= t < |s| && s[t] >= 0 :: s[t] < |cost[t]|
    ensures |r| == |s|
    ensures forall t | 0 <= t < |s| :: r[t] == if s[t] >= 0 && cost[t][s[t]] < unassigned then s[t] else -1
  {
    seq(|s|, t requires 0 <= t < |s| => if s[t] >= 0 && cost[t][s[t]] < unassigned then s[t] else -1)
  }

  /** What the Hungarian path returns: an optimal assignment of the cost matrix with its unassigned cells dropped. */
  ghost predicate IsHungarianResult(table: GateTable, cols: nat, unassigned: real, r: seq<int>)
    requires IsTable(table, cols)
  {
    && |r| == |table|
    && if table == [] || cols == 0 then forall t | 0 <= t < |r| :: r[t] == -1
       else exists s: seq<int> {:trigger IsOptimal(CostMatrix(table, unassigned), s)} ::
              && IsOptimal(CostMatrix(table, unassigned), s)
              && |s| == |table| && IsPartial(s, cols)
              && r == Accepted(CostMatrix(table, unassigned), unassigned, s)
  }

  /** Fills the cost matrix cell by cell, leaving `unassigned` where the gate fails. */
  method FillCosts(table: GateTable, cols: nat, unassigned: real) returns (cost: Matrix)
    requires IsTable(table, cols)
    ensures cost == CostMatrix(table, unassigned)
  {
    cost := seq(|table|, _ => seq(cols, _ => unassigned));
    ghost var filled := CostMatrix(table, unassigned);
    for t := 0 to |table|
      invariant |cost| == |table|
      invariant forall i | 0 <= i < |cost| :: cost[i] == if i < t then filled[i] else seq(cols, _ => unassigned)
    {
      var row := cost[t];
      for k := 0 to cols
        invariant |row| == cols
        invariant forall c | 0 <= c < cols :: row[c] == if c < k then filled[t][c] else unassigned
      {
        if table[t][k].Some? {
          row := row[k := table[t][k].value];
        }
      }
      assert row == filled[t];
      cost := cost[t := row];
    }
  }

  /** Drops the assigned cells that are not cheaper than `unassigned`. */
  method FilterAccepted(cost: Matrix, unassigned: real, s: seq<int>) returns (r: seq<int>)
    requires |s| == |cost|
    requires forall t | 0 <= t < |s| && s[t] >= 0 :: s[t] < |cost[t]|
    ensures r == Accepted(cost, unassigned, s)
  {
    r := seq(|s|, _ => -1);
    for t := 0 to |s|
      invariant |r| == |s|
      invariant forall i | 0 <= i < |r| :: r[i] == if i < t then Accepted(cost, unassigned, s)[i] else -1
    {
      if s[t] >= 0 && cost[t][s[t]] < unassigned {
        r := r[t := s[t]];
      }
    }
  }

  method HungarianAssociation(table: GateTable, cols: nat, unassigned: real) returns (r: seq<int>)
    requires IsTable(table, cols)
    ensures IsHungarianResult(table, cols, unassigned, r)
  {
    if table == [] || cols == 0 {
      return seq(|table|, _ => -1);
    }
    hide CostMatrix, Width;
    var cost := FillCosts(table, cols, unassigned);
    var s := HungarianSolve(cost);
    TableWidth(table, cols, unassigned);
    assert |s| == |table| && IsPartial(s, cols);
    hide IsOptimal;
    r := FilterAccepted(cost, unassigned, s);
  }

  /** Every passing cost is at most `bound`, and none is negative. */
  ghost predicate Bounded(table: GateTable, bound: real) {
    forall t, k | 0 <= t < |table| && 0 <= k < |table[t]| && table[t][k].Some? :: 0.0 <= table[t][k].value <= bound
  }

  /** What one row adds to the cost of an assignment, less one penalty. */
  function Saving(cost: Matrix, unassigned: real, t: nat, c: int): real {
    if c >= 0 then Entry(cost, t, c) - unassigned else 0.0
  }

  /** The cost of an assignment less one penalty for each assigned row. */
  function NetCost(cost: Matrix, unassigned: real, s: seq<int>): real {
    if s == [] then 0.0
    else NetCost(cost, unassigned, s[..|s|-1]) + Saving(cost, unassigned, |s| - 1, s[|s|-1])
  }

  lemma {:induction false} NetCostIsTotal(cost: Matrix, unassigned: real, s: seq<int>)
    ensures NetCost(cost, unassigned, s) == Total(cost, s) - Multiple(Size(s), unassigned)
  {
    if s != [] {
      var n := |s| - 1;
      NetCostIsTotal(cost, unassigned, s[..n]);
      MultipleStep(Size(s[..n]), unassigned);
    }
  }

  /** Net costs compare as their rows do. */
  lemma {:induction false} NetCostByRow(c1: Matrix, c2: Matrix, unassigned: real, s1: seq<int>, s2: seq<int>)
    requires |s1| == |s2|
    requires forall t | 0 <= t < |s1| :: Saving(c1, unassigned, t, s1[t]) <= Saving(c2, unassigned, t, s2[t])
    ensures NetCost(c1, unassigned, s1) <= NetCost(c2, unassigned, s2)
  {
    if s1 != [] {
      var n := |s1| - 1;
      assert Saving(c1, unassigned, n, s1[n]) <= Saving(c2, unassigned, n, s2[n]);
      NetCostByRow(c1, c2, unassigned, s1[..n], s2[..n]);
    }
  }

  /** Dropping the cells that cost `unassigned` does not change the net cost. */
  lemma {:induction false} AcceptedNetCost(table: GateTable, cols: nat, unassigned: real, s: seq<int>)
    requires IsTable(table, cols) && |s| == |table| && IsPartial(s, cols)
    requires Bounded(table, unassigned)
    ensures var cost := CostMatrix(table, unassigned);
            NetCost(CostMatrix(table, 0.0), unassigned, Accepted(cost, unassigned, s)) <= NetCost(cost, unassigned, s)
  {
    var cost := CostMatrix(table, unassigned);
    var r := Accepted(cost, unassigned, s);
    forall t | 0 <= t < |s|
      ensures Saving(CostMatrix(table, 0.0), unassigned, t, r[t]) <= Saving(cost, unassigned, t, s[t])
    {
      if s[t] >= 0 {
        assert table[t][s[t]].Some? ==> table[t][s[t]].value <= unassigned;
      }
    }
    NetCostByRow(CostMatrix(table, 0.0), cost, unassigned, r, s);
  }

  /** Extending a gated matching to a larger assignment does not raise the net cost. */
  lemma {:induction false} ExtensionNetCost(table: GateTable, cols: nat, unassigned: real, m: seq<int>, t: seq<int>)
    requires IsTable(table, cols) && IsGated(table, cols, m)
    requires |t| == |table| && IsPartial(t, cols)
    requires forall i | 0 <= i < |m| && m[i] >= 0 :: t[i] == m[i]
    requires Bounded(table, unassigned)
    ensures NetCost(CostMatrix(table, unassigned), unassigned, t) <= NetCost(CostMatrix(table, 0.0), unassigned, m)
  {
    forall i | 0 <= i < |m|
      ensures Saving(CostMatrix(table, unassigned), unassigned, i, t[i]) <=
              Saving(CostMatrix(table, 0.0), unassigned, i, m[i])
    {
      if m[i] >= 0 {
        assert table[i][m[i]].Some?;
      } else if t[i] >= 0 {
        assert table[i][t[i]].Some? ==> table[i][t[i]].value <= unassigned;
      }
    }
    NetCostByRow(CostMatrix(table, unassigned), CostMatrix(table, 0.0), unassigned, t, m);
  }

  lemma {:induction false} HungarianIsGated(table: GateTable, cols: nat, unassigned: real, r: seq<int>)
    requires IsTable(table, cols) && IsHungarianResult(table, cols, unassigned, r)
    ensures IsGated(table, cols, r)
  {
    hide IsOptimal, Total, Width;
    if table != [] && cols != 0 {
      var cost := CostMatrix(table, unassigned);
      var s: seq<int> :| IsOptimal(cost, s) && |s| == |table| && IsPartial(s, cols)
        && r == Accepted(cost, unassigned, s);
      forall t | 0 <= t < |r| && r[t] >= 0 ensures table[t][r[t]].Some? {
        assert cost[t][s[t]] < unassigned;
      }
    }
  }

  lemma {:induction false} TableWidth(table: GateTable, cols: nat, unassigned: real)
    requires IsTable(table, cols) && table != []
    ensures Width(CostMatrix(table, unassigned)) == cols
  {
  }

  lemma {:induction false} OptimalAgainst(cost: Matrix, cols: nat, s: seq<int>, t: seq<int>)
    requires IsOptimal(cost, s) && Width(cost) == cols
    requires |t| == |cost| && IsPartial(t, cols) && Size(t) == Min(|cost|, cols)
    ensures Total(cost, s) <= Total(cost, t) && Size(s) == Size(t)
  {
  }

  lemma {:induction false} OptimalPenalised(table: GateTable, cols: nat, unassigned: real, s: seq<int>, m: seq<int>)
    requires IsTable(table, cols) && table != [] && cols != 0
    requires IsOptimal(CostMatrix(table, unassigned), s) && |s| == |table| && IsPartial(s, cols)
    requires Bounded(table, unassigned) && IsGated(table, cols, m)
    ensures NetCost(CostMatrix(table, 0.0), unassigned, Accepted(CostMatrix(table, unassigned), unassigned, s)) <=
            NetCost(CostMatrix(table, 0.0), unassigned, m)
  {
    hide IsOptimal, Width, Total, Size, NetCost, IsPerm, Accepted;
    var cost := CostMatrix(table, unassigned);
    TableWidth(table, cols, unassigned);
    var t, full := ExtendToLargest(m, |table|, cols);
    OptimalAgainst(cost, cols, s, t);
    AcceptedNetCost(table, cols, unassigned, s);
    ExtensionNetCost(table, cols, unassigned, m, t);
    NetCostIsTotal(cost, unassigned, s);
    NetCostIsTotal(cost, unassigned, t);
  }

  /** Against any gated matching, the Hungarian path is no worse once every matched pair is credited `unassigned`. */
  lemma {:induction false} HungarianPenalised(table: GateTable, cols: nat, unassigned: real, r: seq<int>, m: seq<int>)
    requires IsTable(table, cols) && IsHungarianResult(table, cols, unassigned, r)
    requires Bounded(table, unassigned) && IsGated(table, cols, m)
    ensures IsGated(table, cols, r)
    ensures GatedCost(table, cols, r) - Multiple(Size(r), unassigned) <=
            GatedCost(table, cols, m) - Multiple(Size(m), unassigned)
  {
    HungarianIsGated(table, cols, unassigned, r);
    if table == [] || cols == 0 {
      assert r == m;
    } else {
      hide IsOptimal, NetCost, Accepted, CostMatrix, IsGated;
      var s: seq<int> :| IsOptimal(CostMatrix(table, unassigned), s) && |s| == |table| && IsPartial(s, cols)
                         && r == Accepted(CostMatrix(table, unassigned), unassigned, s);
      OptimalPenalised(table, cols, unassigned, s, m);
      NetCostIsTotal(CostMatrix(table, 0.0), unassigned, r);
      NetCostIsTotal(CostMatrix(table, 0.0), unassigned, m);
    }
  }

  lemma {:induction false} GatedCostBounds(table: GateTable, cols: nat, bound: real, m: seq<int>)
    requires IsTable(table, cols) && |m| <= |table| && Bounded(table, bound) && bound >= 0.0
    requires forall t | 0 <= t < |m| && m[t] >= 0 :: m[t] < cols && table[t][m[t]].Some?
    ensures 0.0 <= Total(CostMatrix(table, 0.0), m) <= Multiple(Size(m), bound)
  {
    if m != [] {
      var n := |m| - 1;
      GatedCostBounds(table, cols, bound, m[..n]);
      MultipleStep(Size(m[..n]), bound);
    }
  }

  lemma {:induction false} ScaleUp(x: real, y: real, z: real)
    requires x <= y && z >= 0.0
    ensures x * z <= y * z
  {
  }

  lemma {:induction false} PenaltyDecides(k: nat, a: nat, b: nat, bound: real, unassigned: real, costA: real,
                                          costB: real)
    requires 0 < k && a <= k && 0.0 <= bound && unassigned > Multiple(k, bound)
    requires costB <= Multiple(a, bound) && costA >= 0.0
    requires costA - Multiple(b, unassigned) <= costB - Multiple(a, unassigned)
    ensures a <= b
  {
    ScaleUp(0.0, k as real, bound);
    ScaleUp(a as real, k as real, bound);
    if a > b {
      ScaleUp(b as real + 1.0, a as real, unassigned);
      MultipleStep(b, unassigned);
    }
  }

  lemma {:induction false} BoundedByPenalty(table: GateTable, k: nat, bound: real, unassigned: real)
    requires 0 < k && 0.0 <= bound && Bounded(table, bound) && unassigned > Multiple(k, bound)
    ensures Bounded(table, unassigned)
  {
  }

  lemma {:induction false} HungarianIsMaximumIn(table: GateTable, cols: nat, unassigned: real, bound: real,
                                                r: seq<int>, m: seq<int>)
    requires IsTable(table, cols) && IsHungarianResult(table, cols, unassigned, r)
    requires 0.0 <= bound && Bounded(table, bound) && Bounded(table, unassigned)
    requires 0 < Min(|table|, cols) && unassigned > Multiple(Min(|table|, cols), bound)
    requires IsGated(table, cols, m) && IsGated(table, cols, r) && Size(m) <= Min(|table|, cols)
    ensures Size(m) <= Size(r)
    ensures Size(m) == Size(r) ==> GatedCost(table, cols, r) <= GatedCost(table, cols, m)
  {
    var costR, costM, a, b := GatedCost(table, cols, r), GatedCost(table, cols, m), Size(m), Size(r);
    assert costM <= Multiple(a, bound) && 0.0 <= costR by {
      GatedCostBounds(table, cols, bound, m);
      GatedCostBounds(table, cols, bound, r);
    }
    hide *;
    HungarianPenalised(table, cols, unassigned, r, m);
    PenaltyDecides(Min(|table|, cols), a, b, bound, unassigned, costR, costM);
  }

  /** With a penalty above min(tracks, measurements) * bound the Hungarian path finds a gated matching
      of the largest size, and a cheapest one of that size. */
  lemma {:induction false} HungarianIsMaximum(table: GateTable, cols: nat, unassigned: real, bound: real, r: seq<int>,
                                              m: seq<int>)
    requires IsTable(table, cols) && IsHungarianResult(table, cols, unassigned, r)
    requires 0.0 <= bound && Bounded(table, bound)
    requires unassigned > Multiple(Min(|table|, cols), bound)
    requires IsGated(table, cols, m)
    ensures IsGated(table, cols, r)
    ensures Size(m) <= Size(r)
    ensures Size(m) == Size(r) ==> GatedCost(table, cols, r) <= GatedCost(table, cols, m)
  {
    hide IsHungarianResult, IsOptimal, Total, Size, CostMatrix;
    HungarianIsGated(table, cols, unassigned, r);
    if Min(|table|, cols) == 0 {
      assert r == m;
    } else {
      BoundedByPenalty(table, Min(|table|, cols), bound, unassigned);
      SizeAtMostCols(m, cols);
      HungarianIsMaximumIn(table, cols, unassigned, bound, r, m);
    }
  }

  /** The two paths differ by at most a factor of two in the number of tracks they match. */
  lemma {:induction false} PathsCompare(table: GateTable, cols: nat, unassigned: real, bound: real, r: seq<int>,
                                        s: seq<int>)
    requires IsTable(table, cols) && IsHungarianResult(table, cols, unassigned, r)
    requires 0.0 <= bound && Bounded(table, bound) && unassigned > Multiple(Min(|table|, cols), bound)
    requires |s| == |table| && IsGreedyByTrack(table, cols, s)
    ensures Size(s) <= Size(r) <= 2 * Size(s)
  {
    GreedyIsGated(table, cols, s);
    HungarianIsMaximum(table, cols, unassigned, bound, r, s);
    GreedyIsHalf(table, cols, s, r);
  }
}
