/** The primal-dual assignment solver (src/fusion_core/association/hungarian.cpp).
    Rows and columns are numbered from 1 inside the solver, as in the source; column 0 holds the row
    being inserted. Doubles are exact reals and `infinity` is the constructor Infinite. */
module Hungarian {
  import opened Basics
  import opened Matching

  datatype Extended = Finite(value: real) | Infinite

  predicate Less(a: Extended, b: Extended) {
    a.Finite? && (b.Finite? ==> a.value < b.value)
  }

  /** The padded cell of one-based row r and column j. */
  function Cell(cost: Matrix, r: nat, j: nat): real
    requires r >= 1 && j >= 1
  {
    Entry(cost, r - 1, j - 1)
  }

  // ---------------------------------------------------------------- solver invariants

  /** `col` inverts `p` on rows 1..i, every column except `hole` being accounted for. */
  ghost predicate Inverse(n: nat, i: nat, p: seq<nat>, col: seq<nat>, hole: nat) {
    && i <= n && |p| == n + 1 && |col| == n + 1
    && (forall j | 0 <= j <= n :: p[j] <= i)
    && (forall j {:trigger col[p[j]]} | 0 <= j <= n && j != hole && p[j] != 0 :: col[p[j]] == j)
    && (forall r | 1 <= r <= i :: col[r] <= n && col[r] != hole)
    && (forall r {:trigger p[col[r]]} | 1 <= r <= i :: p[col[r]] == r)
  }

  /** Row r satisfies dual feasibility. */
  ghost predicate Feasible(cost: Matrix, n: nat, u: seq<real>, v: seq<real>, r: nat)
    requires 1 <= r <= n && |u| == n + 1 && |v| == n + 1
  {
    forall j | 1 <= j <= n :: u[r] + v[j] <= Cell(cost, r, j)
  }

  ghost predicate Tight(cost: Matrix, n: nat, u: seq<real>, v: seq<real>, r: nat, j: nat)
    requires 1 <= r <= n && 1 <= j <= n && |u| == n + 1 && |v| == n + 1
  {
    u[r] + v[j] == Cell(cost, r, j)
  }

  /** Matched pairs other than the one at `hole` are tight. */
  ghost predicate MatchedTight(cost: Matrix, n: nat, u: seq<real>, v: seq<real>, p: seq<nat>, hole: nat)
    requires |u| == n + 1 && |v| == n + 1 && |p| == n + 1
  {
    forall j | 1 <= j <= n && j != hole && p[j] != 0 :: p[j] <= n && Tight(cost, n, u, v, p[j], j)
  }

  /** What holds between two insertions: rows 1..i are matched, feasible and tight. */
  ghost predicate Inserted(cost: Matrix, n: nat, i: nat, u: seq<real>, v: seq<real>, p: seq<nat>, col: seq<nat>) {
    && |u| == n + 1 && |v| == n + 1
    && Inverse(n, i, p, col, 0)
    && (forall r | 1 <= r <= i :: Feasible(cost, n, u, v, r))
    && MatchedTight(cost, n, u, v, p, 0)
  }

  /** The alternating tree grown from column 0. `rank` orders its columns by the time they were marked. */
  ghost predicate TreeLinks(cost: Matrix, n: nat, u: seq<real>, v: seq<real>, p: seq<nat>,
                            way: seq<nat>, used: seq<bool>, rank: seq<nat>)
    requires |u| == n + 1 && |v| == n + 1 && |p| == n + 1
    requires |way| == n + 1 && |used| == n + 1 && |rank| == n + 1
  {
    && (forall j | 0 <= j <= n && used[j] :: 1 <= p[j] <= n)
    && (forall j {:trigger Link(cost, n, u, v, p, way, used, rank, j)} | 1 <= j <= n && used[j] ::
          Link(cost, n, u, v, p, way, used, rank, j))
  }

  /** The tree edge into column j comes from an older tree column and is tight. */
  ghost predicate Link(cost: Matrix, n: nat, u: seq<real>, v: seq<real>, p: seq<nat>,
                       way: seq<nat>, used: seq<bool>, rank: seq<nat>, j: nat)
    requires |u| == n + 1 && |v| == n + 1 && |p| == n + 1
    requires |way| == n + 1 && |used| == n + 1 && |rank| == n + 1 && 1 <= j <= n
  {
    && way[j] <= n && used[way[j]] && rank[way[j]] < rank[j]
    && 1 <= p[way[j]] <= n && Tight(cost, n, u, v, p[way[j]], j)
  }

  /** minv[j] is the least slack from a tree row to column j, attained at way[j]. */
  ghost predicate Slack(cost: Matrix, n: nat, u: seq<real>, v: seq<real>, p: seq<nat>,
                        way: seq<nat>, minv: seq<Extended>, used: seq<bool>, j: nat)
    requires |u| == n + 1 && |v| == n + 1 && |p| == n + 1
    requires |way| == n + 1 && |minv| == n + 1 && |used| == n + 1 && 1 <= j <= n
  {
    && minv[j].Finite?
    && way[j] <= n && used[way[j]] && 1 <= p[way[j]] <= n
    && minv[j].value == Reduced(cost, n, u, v, p[way[j]], j)
    && (forall k | 0 <= k <= n && used[k] :: 1 <= p[k] <= n && minv[j].value <= Reduced(cost, n, u, v, p[k], j))
  }

  ghost function Reduced(cost: Matrix, n: nat, u: seq<real>, v: seq<real>, r: nat, j: nat): real
    requires 1 <= r <= n && 1 <= j <= n && |u| == n + 1 && |v| == n + 1
  {
    Cell(cost, r, j) - u[r] - v[j]
  }

  // ---------------------------------------------------------------- one pass over the columns

  function Lowered(x: Extended, delta: real): Extended {
    match x
    case Finite(value) => Finite(value - delta)
    case Infinite => Infinite
  }

  /** The effect of ScanColumns, on values. */
  ghost predicate Scanned(cost: Matrix, n: nat, u: seq<real>, v: seq<real>, i0: nat, j0: nat, used: seq<bool>,
                          way: seq<nat>, minv: seq<Extended>, way1: seq<nat>, minv1: seq<Extended>)
    requires |u| == n + 1 && |v| == n + 1 && |used| == n + 1 && |way| == n + 1 && |minv| == n + 1
    requires |way1| == n + 1 && |minv1| == n + 1 && 1 <= i0 <= n
  {
    && (forall j | 0 <= j <= n :: j == 0 || used[j] ==> minv1[j] == minv[j] && way1[j] == way[j])
    && (forall j | 1 <= j <= n && !used[j] ::
          var cur := Reduced(cost, n, u, v, i0, j);
          if Less(Finite(cur), minv[j]) then minv1[j] == Finite(cur) && way1[j] == j0
          else minv1[j] == minv[j] && way1[j] == way[j])
  }

  /** The effect of ShiftDuals, on values. */
  ghost predicate Shifted(n: nat, i: nat, col: seq<nat>, used: seq<bool>, delta: real, u: seq<real>, v: seq<real>,
                          minv: seq<Extended>, u1: seq<real>, v1: seq<real>, minv1: seq<Extended>)
    requires |used| == n + 1 && |u| == n + 1 && |v| == n + 1 && |u1| == n + 1 && |v1| == n + 1
    requires |minv| == n + 1 && |minv1| == n + 1 && i <= n && |col| == n + 1
    requires forall r | 1 <= r <= i :: col[r] <= n
  {
    && (forall j | 0 <= j <= n :: v1[j] == if used[j] then v[j] - delta else v[j])
    && (forall j | 0 <= j <= n :: minv1[j] == if used[j] then minv[j] else Lowered(minv[j], delta))
    && (forall r | 1 <= r <= i :: u1[r] == if used[col[r]] then u[r] + delta else u[r])
  }

  /** Lowers minv with the row i0 reached through column j0, and selects the least unused column. */
  method ScanColumns(cost: Matrix, a: array2<real>, u: array<real>, v: array<real>, minv: array<Extended>,
                     way: array<nat>, used: array<bool>, n: nat, i0: nat, j0: nat, ghost open: nat)
    returns (delta: real, j1: nat)
    requires a.Length0 == a.Length1 == u.Length == v.Length == minv.Length == way.Length == used.Length == n + 1
    requires forall r, j | 1 <= r <= n && 1 <= j <= n :: a[r, j] == Cell(cost, r, j)
    requires 1 <= i0 <= n && j0 <= n
    requires 1 <= open <= n && !used[open]
    requires u != v
    modifies minv, way
    ensures Scanned(cost, n, u[..], v[..], i0, j0, used[..], old(way[..]), old(minv[..]), way[..], minv[..])
    ensures 1 <= j1 <= n && !used[j1] && minv[j1] == Finite(delta)
    ensures forall j | 1 <= j <= n && !used[j] :: minv[j].Finite? && delta <= minv[j].value
  {
    var least := Infinite;
    j1 := 0;
    for j := 1 to n + 1
      invariant forall k | 0 <= k <= n ::
                  k == 0 || k >= j || used[k] ==> minv[k] == old(minv[k]) && way[k] == old(way[k])
      invariant forall k | 1 <= k < j && !used[k] ::
                  var cur := a[i0, k] - u[i0] - v[k];
                  if Less(Finite(cur), old(minv[k])) then minv[k] == Finite(cur) && way[k] == j0
                  else minv[k] == old(minv[k]) && way[k] == old(way[k])
      invariant least.Finite? ==> 1 <= j1 < j && !used[j1] && minv[j1] == least
      invariant forall k | 1 <= k < j && !used[k] :: least.Finite? && minv[k].Finite? && least.value <= minv[k].value
    {
      if used[j] {
        continue;
      }
      var cur := a[i0, j] - u[i0] - v[j];
      if Less(Finite(cur), minv[j]) {
        minv[j] := Finite(cur);
        way[j] := j0;
      }
      if Less(minv[j], least) {
        least := minv[j];
        j1 := j;
      }
    }
    assert minv[open].Finite?;
    delta := least.value;
  }

  /** Moves the duals of the tree by delta and lowers the remaining slacks by as much. */
  method ShiftDuals(u: array<real>, v: array<real>, p: array<nat>, minv: array<Extended>, used: array<bool>,
                    n: nat, delta: real, i: nat, ghost col: seq<nat>)
    requires u.Length == v.Length == p.Length == minv.Length == used.Length == n + 1
    requires u != v
    requires Inverse(n, i, p[..], col, n + 1)
    requires forall j | 0 <= j <= n && used[j] :: p[j] != 0
    modifies u, v, minv
    ensures Shifted(n, i, col, used[..], delta, old(u[..]), old(v[..]), old(minv[..]), u[..], v[..], minv[..])
  {
    for j := 0 to n + 1
      invariant forall k | 0 <= k <= n :: v[k] == if used[k] && k < j then old(v[k]) - delta else old(v[k])
      invariant forall k | 0 <= k <= n ::
                  minv[k] == if used[k] || k >= j then old(minv[k]) else Lowered(old(minv[k]), delta)
      invariant forall r | 1 <= r <= i :: u[r] == if used[col[r]] && col[r] < j then old(u[r]) + delta else old(u[r])
    {
      if used[j] {
        assert p[..][j] == p[j] && col[p[j]] == j;
        u[p[j]] := u[p[j]] + delta;
        v[j] := v[j] - delta;
      } else {
        minv[j] := Lowered(minv[j], delta);
      }
    }
  }

  // ---------------------------------------------------------------- growing the tree

  /** The state of the tree when column j0 is about to be marked. Before the first pass nothing is marked. */
  ghost predicate Growing(cost: Matrix, n: nat, i: nat, u: seq<real>, v: seq<real>, p: seq<nat>, col: seq<nat>,
                          way: seq<nat>, minv: seq<Extended>, used: seq<bool>, rank: seq<nat>, j0: nat)
  {
    && |u| == n + 1 && |v| == n + 1
    && |way| == n + 1 && |minv| == n + 1 && |used| == n + 1 && |rank| == n + 1
    && 1 <= i && Inverse(n, i, p, col, n + 1) && p[0] == i
    && (forall r | 1 <= r < i :: Feasible(cost, n, u, v, r))
    && MatchedTight(cost, n, u, v, p, 0)
    && TreeLinks(cost, n, u, v, p, way, used, rank)
    && j0 <= n && !used[j0]
    && (if used[0]
        then && Feasible(cost, n, u, v, i)
             && (forall j {:trigger minv[j]} | 1 <= j <= n && !used[j] :: Slack(cost, n, u, v, p, way, minv, used, j))
             && j0 >= 1 && minv[j0] == Finite(0.0)
        else && j0 == 0
             && (forall j | 0 <= j <= n :: !used[j] && minv[j] == Infinite))
  }

  /** Scanning from j0 restores the slack invariant for the tree enlarged by j0. */
  lemma {:induction false} ScanKeepsSlack(
    cost: Matrix, n: nat, i: nat, u: seq<real>, v: seq<real>, p: seq<nat>, col: seq<nat>,
    way: seq<nat>, minv: seq<Extended>, used: seq<bool>, rank: seq<nat>, j0: nat,
    way1: seq<nat>, minv1: seq<Extended>)
    requires Growing(cost, n, i, u, v, p, col, way, minv, used, rank, j0) && p[j0] != 0
    requires |way1| == n + 1 && |minv1| == n + 1
    requires Scanned(cost, n, u, v, p[j0], j0, used[j0 := true], way, minv, way1, minv1)
    ensures var used1 := used[j0 := true];
            forall j {:trigger minv1[j]} | 1 <= j <= n && !used1[j] :: Slack(cost, n, u, v, p, way1, minv1, used1, j)
  {
    var used1 := used[j0 := true];
    forall j | 1 <= j <= n && !used1[j]
      ensures Slack(cost, n, u, v, p, way1, minv1, used1, j)
    {
      var cur := Reduced(cost, n, u, v, p[j0], j);
      if used[0] {
        assert Slack(cost, n, u, v, p, way, minv, used, j);
      }
    }
  }

  /** Marking j0 keeps every tree link, and j0 itself is linked. */
  lemma {:induction false} MarkKeepsLinks(
    cost: Matrix, n: nat, i: nat, u: seq<real>, v: seq<real>, p: seq<nat>, col: seq<nat>,
    way: seq<nat>, minv: seq<Extended>, used: seq<bool>, rank: seq<nat>, j0: nat, mark: nat, way1: seq<nat>)
    requires Growing(cost, n, i, u, v, p, col, way, minv, used, rank, j0) && p[j0] != 0
    requires forall j | 0 <= j <= n && used[j] :: rank[j] < mark
    requires |way1| == n + 1
    requires forall j | 0 <= j <= n && (used[j] || j == j0) :: way1[j] == way[j]
    ensures TreeLinks(cost, n, u, v, p, way1, used[j0 := true], rank[j0 := mark])
  {
    var used1, rank1 := used[j0 := true], rank[j0 := mark];
    forall j | 1 <= j <= n && used1[j]
      ensures Link(cost, n, u, v, p, way1, used1, rank1, j)
    {
      if j == j0 {
        assert Slack(cost, n, u, v, p, way, minv, used, j);
      } else {
        assert Link(cost, n, u, v, p, way, used, rank, j);
      }
    }
  }

  /** The tree right after a scan: the slacks are exact and delta, at the unused column j1, is the least. */
  ghost predicate Swept(cost: Matrix, n: nat, i: nat, u: seq<real>, v: seq<real>, p: seq<nat>, col: seq<nat>,
                        way: seq<nat>, minv: seq<Extended>, used: seq<bool>, rank: seq<nat>, delta: real, j1: nat)
  {
    && |u| == n + 1 && |v| == n + 1
    && |way| == n + 1 && |minv| == n + 1 && |used| == n + 1 && |rank| == n + 1
    && 1 <= i && Inverse(n, i, p, col, n + 1) && p[0] == i
    && (forall r | 1 <= r < i :: Feasible(cost, n, u, v, r))
    && MatchedTight(cost, n, u, v, p, 0)
    && TreeLinks(cost, n, u, v, p, way, used, rank) && used[0]
    && (forall j {:trigger minv[j]} | 1 <= j <= n && !used[j] ::
          Slack(cost, n, u, v, p, way, minv, used, j) && delta <= minv[j].value)
    && 1 <= j1 <= n && !used[j1] && minv[j1] == Finite(delta)
    && (Feasible(cost, n, u, v, i) || forall j | 1 <= j <= n :: !used[j])
  }

  /** No cell of row r becomes infeasible: the four cases of row and column inside or outside the tree. */
  lemma {:induction false} ShiftKeepsCell(
    cost: Matrix, n: nat, i: nat, u: seq<real>, v: seq<real>, p: seq<nat>, col: seq<nat>,
    way: seq<nat>, minv: seq<Extended>, used: seq<bool>, rank: seq<nat>, delta: real, j1: nat,
    u1: seq<real>, v1: seq<real>, minv1: seq<Extended>, r: nat, j: nat)
    requires |u1| == n + 1 && |v1| == n + 1 && |minv1| == n + 1
    requires Swept(cost, n, i, u, v, p, col, way, minv, used, rank, delta, j1)
    requires Shifted(n, i, col, used, delta, u, v, minv, u1, v1, minv1)
    requires 1 <= r <= i && 1 <= j <= n
    ensures u1[r] + v1[j] <= Cell(cost, r, j)
  {
    var k := col[r];
    assert k <= n && p[k] == r;
    assert r == i ==> used[k] by { assert col[p[0]] == 0; }
    if !used[j] {
      assert Slack(cost, n, u, v, p, way, minv, used, j);
      if used[k] {
        assert minv[j].value <= Reduced(cost, n, u, v, p[k], j);
      } else {
        assert Feasible(cost, n, u, v, r);
      }
    } else {
      assert Slack(cost, n, u, v, p, way, minv, used, j1);
      var w := p[way[j1]];
      assert w <= i;
      assert Feasible(cost, n, u, v, w) && Feasible(cost, n, u, v, r);
    }
  }

  lemma {:induction false} ShiftKeepsFeasible(
    cost: Matrix, n: nat, i: nat, u: seq<real>, v: seq<real>, p: seq<nat>, col: seq<nat>,
    way: seq<nat>, minv: seq<Extended>, used: seq<bool>, rank: seq<nat>, delta: real, j1: nat,
    u1: seq<real>, v1: seq<real>, minv1: seq<Extended>, r: nat)
    requires |u1| == n + 1 && |v1| == n + 1 && |minv1| == n + 1
    requires Swept(cost, n, i, u, v, p, col, way, minv, used, rank, delta, j1)
    requires Shifted(n, i, col, used, delta, u, v, minv, u1, v1, minv1)
    requires 1 <= r <= i
    ensures Feasible(cost, n, u1, v1, r)
  {
    forall j | 1 <= j <= n
      ensures u1[r] + v1[j] <= Cell(cost, r, j)
    {
      ShiftKeepsCell(cost, n, i, u, v, p, col, way, minv, used, rank, delta, j1, u1, v1, minv1, r, j);
    }
  }

  lemma {:induction false} ShiftKeepsTight(
    cost: Matrix, n: nat, i: nat, u: seq<real>, v: seq<real>, p: seq<nat>, col: seq<nat>,
    way: seq<nat>, minv: seq<Extended>, used: seq<bool>, rank: seq<nat>, delta: real, j1: nat,
    u1: seq<real>, v1: seq<real>, minv1: seq<Extended>)
    requires |u1| == n + 1 && |v1| == n + 1 && |minv1| == n + 1
    requires Swept(cost, n, i, u, v, p, col, way, minv, used, rank, delta, j1)
    requires Shifted(n, i, col, used, delta, u, v, minv, u1, v1, minv1)
    ensures MatchedTight(cost, n, u1, v1, p, 0)
    ensures TreeLinks(cost, n, u1, v1, p, way, used, rank)
  {
    forall j | 1 <= j <= n && p[j] != 0
      ensures p[j] <= n && Tight(cost, n, u1, v1, p[j], j)
    {
      assert Tight(cost, n, u, v, p[j], j) && col[p[j]] == j;
    }
    forall j | 1 <= j <= n && used[j]
      ensures Link(cost, n, u1, v1, p, way, used, rank, j)
    {
      assert Link(cost, n, u, v, p, way, used, rank, j);
      assert col[p[way[j]]] == way[j] && col[p[j]] == j;
      assert Tight(cost, n, u, v, p[way[j]], j);
    }
  }

  lemma {:induction false} ShiftKeepsSlack(
    cost: Matrix, n: nat, i: nat, u: seq<real>, v: seq<real>, p: seq<nat>, col: seq<nat>,
    way: seq<nat>, minv: seq<Extended>, used: seq<bool>, rank: seq<nat>, delta: real, j1: nat,
    u1: seq<real>, v1: seq<real>, minv1: seq<Extended>, j: nat)
    requires |u1| == n + 1 && |v1| == n + 1 && |minv1| == n + 1
    requires Swept(cost, n, i, u, v, p, col, way, minv, used, rank, delta, j1)
    requires Shifted(n, i, col, used, delta, u, v, minv, u1, v1, minv1)
    requires 1 <= j <= n && !used[j]
    ensures Slack(cost, n, u1, v1, p, way, minv1, used, j)
  {
    assert Slack(cost, n, u, v, p, way, minv, used, j);
    assert col[p[way[j]]] == way[j];
    forall k | 0 <= k <= n && used[k]
      ensures 1 <= p[k] <= n && minv1[j].value <= Reduced(cost, n, u1, v1, p[k], j)
    {
      assert col[p[k]] == k;
    }
  }

  /** Shifting the duals by the least slack readies the tree for marking j1. */
  lemma {:induction false} ShiftKeepsGrowing(
    cost: Matrix, n: nat, i: nat, u: seq<real>, v: seq<real>, p: seq<nat>, col: seq<nat>,
    way: seq<nat>, minv: seq<Extended>, used: seq<bool>, rank: seq<nat>, delta: real, j1: nat,
    u1: seq<real>, v1: seq<real>, minv1: seq<Extended>)
    requires |u1| == n + 1 && |v1| == n + 1 && |minv1| == n + 1
    requires Swept(cost, n, i, u, v, p, col, way, minv, used, rank, delta, j1)
    requires Shifted(n, i, col, used, delta, u, v, minv, u1, v1, minv1)
    ensures Growing(cost, n, i, u1, v1, p, col, way, minv1, used, rank, j1)
  {
    forall r | 1 <= r <= i
      ensures Feasible(cost, n, u1, v1, r)
    {
      ShiftKeepsFeasible(cost, n, i, u, v, p, col, way, minv, used, rank, delta, j1, u1, v1, minv1, r);
    }
    ShiftKeepsTight(cost, n, i, u, v, p, col, way, minv, used, rank, delta, j1, u1, v1, minv1);
    forall j | 1 <= j <= n && !used[j]
      ensures Slack(cost, n, u1, v1, p, way, minv1, used, j)
    {
      ShiftKeepsSlack(cost, n, i, u, v, p, col, way, minv, used, rank, delta, j1, u1, v1, minv1, j);
    }
  }

  /** Marking, scanning and selecting: the three steps before the shift. */
  lemma {:induction false} PassKeepsSwept(
    cost: Matrix, n: nat, i: nat, u: seq<real>, v: seq<real>, p: seq<nat>, col: seq<nat>,
    way: seq<nat>, minv: seq<Extended>, used: seq<bool>, rank: seq<nat>, j0: nat, mark: nat,
    way1: seq<nat>, minv1: seq<Extended>, delta: real, j1: nat)
    requires Growing(cost, n, i, u, v, p, col, way, minv, used, rank, j0) && p[j0] != 0
    requires forall j | 0 <= j <= n && used[j] :: rank[j] < mark
    requires |way1| == n + 1 && |minv1| == n + 1
    requires Scanned(cost, n, u, v, p[j0], j0, used[j0 := true], way, minv, way1, minv1)
    requires 1 <= j1 <= n && !used[j0 := true][j1] && minv1[j1] == Finite(delta)
    requires forall j {:trigger minv1[j]} | 1 <= j <= n && !used[j0 := true][j] ::
               minv1[j].Finite? && delta <= minv1[j].value
    ensures Swept(cost, n, i, u, v, p, col, way1, minv1, used[j0 := true], rank[j0 := mark], delta, j1)
  {
    ScanKeepsSlack(cost, n, i, u, v, p, col, way, minv, used, rank, j0, way1, minv1);
    MarkKeepsLinks(cost, n, i, u, v, p, col, way, minv, used, rank, j0, mark, way1);
  }

  /** Nothing is marked yet: the tree is empty. */
  lemma {:induction false} StartGrowing(
    cost: Matrix, n: nat, i: nat, u: seq<real>, v: seq<real>, p: seq<nat>, col: seq<nat>,
    way: seq<nat>, minv: seq<Extended>, used: seq<bool>, rank: seq<nat>)
    requires |u| == n + 1 && |v| == n + 1
    requires |way| == n + 1 && |minv| == n + 1 && |used| == n + 1 && |rank| == n + 1
    requires 1 <= i && Inverse(n, i, p, col, n + 1) && p[0] == i
    requires forall r | 1 <= r < i :: Feasible(cost, n, u, v, r)
    requires MatchedTight(cost, n, u, v, p, 0)
    requires forall j | 0 <= j <= n :: !used[j] && minv[j] == Infinite
    ensures Growing(cost, n, i, u, v, p, col, way, minv, used, rank, 0)
  {
  }

  /** What the tree gives once it has reached the unmatched column j0. */
  ghost predicate Grown(cost: Matrix, n: nat, i: nat, u: seq<real>, v: seq<real>, p: seq<nat>,
                        way: seq<nat>, used: seq<bool>, rank: seq<nat>, j0: nat)
  {
    && |u| == n + 1 && |v| == n + 1 && |p| == n + 1
    && |way| == n + 1 && |used| == n + 1 && |rank| == n + 1
    && i <= n && (forall r | 1 <= r <= i :: Feasible(cost, n, u, v, r))
    && MatchedTight(cost, n, u, v, p, 0)
    && TreeLinks(cost, n, u, v, p, way, used, rank)
    && 1 <= j0 <= n && p[j0] == 0 && !used[j0]
    && way[j0] <= n && used[way[j0]] && Tight(cost, n, u, v, p[way[j0]], j0)
  }

  lemma {:induction false} FinishGrowing(
    cost: Matrix, n: nat, i: nat, u: seq<real>, v: seq<real>, p: seq<nat>, col: seq<nat>,
    way: seq<nat>, minv: seq<Extended>, used: seq<bool>, rank: seq<nat>, j0: nat)
    requires Growing(cost, n, i, u, v, p, col, way, minv, used, rank, j0) && p[j0] == 0
    ensures Grown(cost, n, i, u, v, p, way, used, rank, j0)
  {
  }

  lemma {:induction false} GrowingBounds(
    cost: Matrix, n: nat, i: nat, u: seq<real>, v: seq<real>, p: seq<nat>, col: seq<nat>,
    way: seq<nat>, minv: seq<Extended>, used: seq<bool>, rank: seq<nat>, j0: nat, open: nat)
    requires Growing(cost, n, i, u, v, p, col, way, minv, used, rank, j0)
    requires p[j0] != 0 && 1 <= open <= n && p[open] == 0
    ensures |rank| == |used| == |p| == n + 1 && j0 <= n && !used[j0] && 1 <= p[j0] <= n
    ensures !used[open] && j0 != open
    ensures Inverse(n, i, p, col, n + 1)
    ensures forall j | 0 <= j <= n && used[j] :: p[j] != 0
  {
  }

  /** One pass of the inner loop: marks j0, lowers the slacks, shifts the duals, selects the next column. */
  method GrowPass(cost: Matrix, a: array2<real>, u: array<real>, v: array<real>, p: array<nat>, way: array<nat>,
                  minv: array<Extended>, marked: array<bool>, n: nat, i: nat, j0: nat,
                  ghost col: seq<nat>, ghost open: nat, ghost rank: seq<nat>, ghost mark: nat)
    returns (j1: nat)
    requires a.Length0 == a.Length1 == u.Length == v.Length == p.Length == way.Length == n + 1
    requires minv.Length == marked.Length == n + 1
    requires u != v && p != way
    requires forall r, j | 1 <= r <= n && 1 <= j <= n :: a[r, j] == Cell(cost, r, j)
    requires Growing(cost, n, i, u[..], v[..], p[..], col, way[..], minv[..], marked[..], rank, j0)
    requires |rank| == n + 1 && j0 <= n && p[j0] != 0
    requires forall j | 0 <= j <= n && marked[j] :: rank[j] < mark
    requires 1 <= open <= n && p[open] == 0
    modifies u, v, way, minv, marked
    ensures 1 <= j1 <= n && !marked[j1]
    ensures marked[..] == old(marked[..])[j0 := true]
    ensures Growing(cost, n, i, u[..], v[..], p[..], col, way[..], minv[..], marked[..], rank[j0 := mark], j1)
  {
    hide Growing, Swept, Scanned, Shifted, Inverse;
    ghost var used0, way0, minv0, u0, v0, p0 := marked[..], way[..], minv[..], u[..], v[..], p[..];
    assert p0[j0] == p[j0] && p0[open] == p[open];
    GrowingBounds(cost, n, i, u0, v0, p0, col, way0, minv0, used0, rank, j0, open);
    marked[j0] := true;
    ghost var used1 := marked[..];
    assert used1 == used0[j0 := true];
    var i0 := p[j0];
    var delta;
    delta, j1 := ScanColumns(cost, a, u, v, minv, way, marked, n, i0, j0, open);
    ghost var minv1 := minv[..];
    PassKeepsSwept(cost, n, i, u0, v0, p0, col, way0, minv0, used0, rank, j0, mark, way[..], minv1, delta, j1);
    ShiftDuals(u, v, p, minv, marked, n, delta, i, col);
    ShiftKeepsGrowing(cost, n, i, u0, v0, p0, col, way[..], minv1, used1, rank[j0 := mark], delta, j1,
                      u[..], v[..], minv[..]);
  }

  /** Grows the alternating tree from column 0 until it reaches an unmatched column, which it returns. */
  method GrowTree(cost: Matrix, a: array2<real>, u: array<real>, v: array<real>, p: array<nat>, way: array<nat>,
                  n: nat, i: nat, ghost col: seq<nat>, ghost open: nat)
    returns (j0: nat, ghost used: seq<bool>, ghost rank: seq<nat>)
    requires a.Length0 == a.Length1 == u.Length == v.Length == p.Length == way.Length == n + 1
    requires u != v && p != way
    requires forall r, j | 1 <= r <= n && 1 <= j <= n :: a[r, j] == Cell(cost, r, j)
    requires 1 <= i && Inverse(n, i, p[..], col, n + 1) && p[0] == i
    requires forall r | 1 <= r < i :: Feasible(cost, n, u[..], v[..], r)
    requires MatchedTight(cost, n, u[..], v[..], p[..], 0)
    requires 1 <= open <= n && p[open] == 0
    modifies u, v, way
    ensures Grown(cost, n, i, u[..], v[..], p[..], way[..], used, rank, j0)
  {
    hide Growing, Grown, Inverse, MatchedTight;
    var minv := new Extended[n + 1](_ => Infinite);
    var marked := new bool[n + 1](_ => false);
    rank := seq(n + 1, _ => 0);
    ghost var mark := 0;
    ghost var unmarked := set j {:trigger marked[j]} | 0 <= j <= n;
    ghost var p0 := p[..];
    j0 := 0;
    StartGrowing(cost, n, i, u[..], v[..], p0, col, way[..], minv[..], marked[..], rank);
    while true
      invariant p[..] == p0
      invariant Growing(cost, n, i, u[..], v[..], p0, col, way[..], minv[..], marked[..], rank, j0)
      invariant j0 <= n && !marked[j0] && p0[j0] != 0 && |rank| == n + 1
      invariant forall j | 0 <= j <= n && marked[j] :: rank[j] < mark
      invariant forall j | 0 <= j <= n && !marked[j] :: j in unmarked
      decreases unmarked
    {
      ghost var marked0 := marked[..];
      GrowingBounds(cost, n, i, u[..], v[..], p0, col, way[..], minv[..], marked0, rank, j0, open);
      var j1 := GrowPass(cost, a, u, v, p, way, minv, marked, n, i, j0, col, open, rank, mark);
      assert forall j | 0 <= j <= n :: marked[..][j] == marked[j];
      rank := rank[j0 := mark];
      mark := mark + 1;
      unmarked := unmarked - {j0};
      j0 := j1;
      if p[j0] == 0 {
        break;
      }
    }
    used := marked[..];
    FinishGrowing(cost, n, i, u[..], v[..], p0, col, way[..], minv[..], used, rank, j0);
  }

  // ---------------------------------------------------------------- augmenting along `way`

  /** Column j0 awaits a row: every other column is in order, and tree columns older than j0 are untouched. */
  ghost predicate Augmenting(cost: Matrix, n: nat, i: nat, u: seq<real>, v: seq<real>, p0: seq<nat>, p: seq<nat>,
                             col: seq<nat>, way: seq<nat>, used: seq<bool>, rank: seq<nat>, j0: nat)
    requires |u| == n + 1 && |v| == n + 1 && |p| == |p0| == n + 1
    requires |way| == n + 1 && |used| == n + 1 && |rank| == n + 1
  {
    && j0 <= n
    && Inverse(n, i, p, col, j0)
    && MatchedTight(cost, n, u, v, p, j0)
    && (forall j | 0 <= j <= n && used[j] && (used[j0] ==> rank[j] < rank[j0]) :: p[j] == p0[j])
    && (j0 >= 1 ==> way[j0] <= n && used[way[j0]] && (used[j0] ==> rank[way[j0]] < rank[j0])
                    && 1 <= p0[way[j0]] <= n && Tight(cost, n, u, v, p0[way[j0]], j0))
  }

  /** Giving column j0 the row of way[j0] moves the gap one tree edge towards column 0. */
  lemma {:induction false} AugmentStep(cost: Matrix, n: nat, i: nat, u: seq<real>, v: seq<real>, p0: seq<nat>,
                                       p: seq<nat>,
                                       col: seq<nat>, way: seq<nat>, used: seq<bool>, rank: seq<nat>, j0: nat)
    requires |u| == n + 1 && |v| == n + 1 && |p| == |p0| == n + 1
    requires |way| == n + 1 && |used| == n + 1 && |rank| == n + 1
    requires TreeLinks(cost, n, u, v, p0, way, used, rank)
    requires j0 >= 1 && Augmenting(cost, n, i, u, v, p0, p, col, way, used, rank, j0)
    ensures var j1 := way[j0];
            && j1 <= n && used[j1] && (used[j0] ==> rank[j1] < rank[j0])
            && 1 <= p[j1] <= n
            && Augmenting(cost, n, i, u, v, p0, p[j0 := p[j1]], col[p[j1] := j0], way, used, rank, j1)
  {
    var j1 := way[j0];
    assert j1 != j0;
    assert j1 >= 1 ==> Link(cost, n, u, v, p0, way, used, rank, j1);
    var r := p[j1];
    assert r == p0[j1] && col[p[j1]] == j1;
    var p', col' := p[j0 := r], col[r := j0];
    forall j | 0 <= j <= n && j != j1 && p'[j] != 0 ensures col'[p'[j]] == j {
      if j != j0 {
        assert col[p[j]] == j;
      }
    }
    forall q | 1 <= q <= i ensures col'[q] <= n && col'[q] != j1 && p'[col'[q]] == q {
      assert p[col[q]] == q;
    }
    assert MatchedTight(cost, n, u, v, p', j1) by {
      forall j | 1 <= j <= n && j != j1 && p'[j] != 0 ensures p'[j] <= n && Tight(cost, n, u, v, p'[j], j) {
        assert j != j0 ==> Tight(cost, n, u, v, p[j], j);
      }
    }
  }

  lemma {:induction false} StartAugmenting(cost: Matrix, n: nat, i: nat, u: seq<real>, v: seq<real>, p: seq<nat>,
                                           col: seq<nat>, way: seq<nat>, used: seq<bool>, rank: seq<nat>, j0: nat)
    requires Grown(cost, n, i, u, v, p, way, used, rank, j0)
    requires Inverse(n, i, p, col, n + 1)
    ensures Augmenting(cost, n, i, u, v, p, p, col, way, used, rank, j0)
  {
  }

  /** Shifts the matching along `way` from the unmatched column `start` to column 0. */
  method Augment(cost: Matrix, p: array<nat>, way: array<nat>, n: nat, i: nat, start: nat,
                 ghost u: seq<real>, ghost v: seq<real>, ghost col: seq<nat>, ghost used: seq<bool>,
                   ghost rank: seq<nat>)
    returns (ghost col': seq<nat>)
    requires p != way && p.Length == way.Length == n + 1
    requires Grown(cost, n, i, u, v, p[..], way[..], used, rank, start)
    requires Inverse(n, i, p[..], col, n + 1)
    modifies p
    ensures Inverse(n, i, p[..], col', 0)
    ensures MatchedTight(cost, n, u, v, p[..], 0)
  {
    ghost var p0 := p[..];
    var j0 := start;
    col' := col;
    StartAugmenting(cost, n, i, u, v, p0, col, way[..], used, rank, start);
    while true
      invariant 1 <= j0 <= n && |col'| == n + 1
      invariant Augmenting(cost, n, i, u, v, p0, p[..], col', way[..], used, rank, j0)
      decreases if used[j0] then 0 else 1, rank[j0]
    {
      hide Augmenting, Inverse, MatchedTight;
      ghost var p1 := p[..];
      AugmentStep(cost, n, i, u, v, p0, p1, col', way[..], used, rank, j0);
      var j1 := way[j0];
      p[j0] := p[j1];
      assert p[..] == p1[j0 := p1[j1]];
      col' := col'[p1[j1] := j0];
      j0 := j1;
      if j0 == 0 {
        break;
      }
    }
  }

  // ---------------------------------------------------------------- inserting one row

  /** While fewer than n rows are matched some column is free. */
  lemma {:induction false} OpenColumn(n: nat, i: nat, p: seq<nat>, col: seq<nat>) returns (open: nat)
    requires Inverse(n, i, p, col, 0) && i < n
    ensures 1 <= open <= n && p[open] == 0
  {
    var s := seq<int>(n, j requires 0 <= j < n => var r: int := p[j + 1]; r - 1);
    forall j, k | 0 <= j < k < n && s[j] >= 0 ensures s[j] != s[k] {
      assert s[j] + 1 == p[j + 1] && s[k] + 1 == p[k + 1];
      assert col[p[j + 1]] == j + 1;
      assert p[k + 1] != 0 ==> col[p[k + 1]] == k + 1;
    }
    SizeAtMostCols(s, i);
    var k := UnassignedRow(s);
    open := k + 1;
  }

  lemma {:induction false} PlaceRow(n: nat, i: nat, p: seq<nat>, col: seq<nat>)
    requires 1 <= i <= n && Inverse(n, i - 1, p, col, 0)
    ensures Inverse(n, i, p[0 := i], col[i := 0], n + 1)
  {
  }

  /** Inserts row i: one round of the outer loop. */
  method InsertRow(cost: Matrix, a: array2<real>, u: array<real>, v: array<real>, p: array<nat>, way: array<nat>,
                   n: nat, i: nat, ghost col: seq<nat>)
    returns (ghost col': seq<nat>)
    requires a.Length0 == a.Length1 == u.Length == v.Length == p.Length == way.Length == n + 1
    requires u != v && p != way
    requires forall r, j | 1 <= r <= n && 1 <= j <= n :: a[r, j] == Cell(cost, r, j)
    requires 1 <= i <= n && Inserted(cost, n, i - 1, u[..], v[..], p[..], col)
    modifies u, v, p, way
    ensures Inserted(cost, n, i, u[..], v[..], p[..], col')
  {
    ghost var open := OpenColumn(n, i - 1, p[..], col);
    PlaceRow(n, i, p[..], col);
    ghost var p0 := p[..];
    p[0] := i;
    assert p[..] == p0[0 := i];
    var j0;
    ghost var used, rank;
    j0, used, rank := GrowTree(cost, a, u, v, p, way, n, i, col[i := 0], open);
    col' := Augment(cost, p, way, n, i, j0, u[..], v[..], col[i := 0], used, rank);
  }

  // ---------------------------------------------------------------- optimality by duality

  /** The permutation found once every row is inserted. */
  ghost function Found(n: nat, col: seq<nat>): (s: seq<int>)
    requires |col| == n + 1
    ensures |s| == n && forall r: int {:trigger s[r]} | 0 <= r < n :: s[r] + 1 == col[r + 1]
  {
    seq<int>(n, r requires 0 <= r < n => var c: int := col[r + 1]; c - 1)
  }

  lemma {:induction false} FoundIsPerm(n: nat, p: seq<nat>, col: seq<nat>)
    requires Inverse(n, n, p, col, 0)
    ensures IsPerm(Found(n, col), n)
  {
    var s := Found(n, col);
    forall i, k | 0 <= i < k < n ensures s[i] != s[k] {
      assert p[col[i + 1]] == i + 1 && p[col[k + 1]] == k + 1;
    }
  }

  /** The duals bound the cost of every permutation from below, row by row. */
  lemma {:induction false} DualBound(cost: Matrix, n: nat, u: seq<real>, v: seq<real>, t: seq<int>, k: nat)
    requires |u| == n + 1 && |v| == n + 1 && IsPerm(t, n) && k <= n
    requires forall r | 1 <= r <= n :: Feasible(cost, n, u, v, r)
    ensures Total(cost, t[..k]) >= Sum(u[1..k+1]) + SumAt(v[1..], t[..k])
  {
    if k > 0 {
      DualBound(cost, n, u, v, t, k - 1);
      assert t[..k][..k-1] == t[..k-1] && u[1..k+1][..k-1] == u[1..k];
      assert Feasible(cost, n, u, v, k);
      assert u[k] + v[t[k-1] + 1] <= Cell(cost, k, t[k-1] + 1);
    }
  }

  /** A permutation of tight cells attains the dual bound. */
  lemma {:induction false} DualAttained(cost: Matrix, n: nat, u: seq<real>, v: seq<real>, p: seq<nat>, col: seq<nat>,
                                        k: nat)
    requires Inserted(cost, n, n, u, v, p, col) && k <= n
    requires IsPerm(Found(n, col), n)
    ensures Total(cost, Found(n, col)[..k]) == Sum(u[1..k+1]) + SumAt(v[1..], Found(n, col)[..k])
  {
    var s := Found(n, col);
    if k > 0 {
      DualAttained(cost, n, u, v, p, col, k - 1);
      assert s[..k][..k-1] == s[..k-1] && u[1..k+1][..k-1] == u[1..k];
      assert p[col[k]] == k && s[k-1] == col[k] - 1;
      assert Tight(cost, n, u, v, p[col[k]], col[k]);
    }
  }

  /** The permutation found costs no more than any other. */
  lemma {:induction false} FoundIsOptimal(cost: Matrix, n: nat, u: seq<real>, v: seq<real>, p: seq<nat>, col: seq<nat>,
                                          t: seq<int>)
    requires Inserted(cost, n, n, u, v, p, col) && IsPerm(t, n)
    ensures Total(cost, Found(n, col)) <= Total(cost, t)
  {
    var s := Found(n, col);
    FoundIsPerm(n, p, col);
    DualBound(cost, n, u, v, t, n);
    DualAttained(cost, n, u, v, p, col, n);
    SumOverPerm(v[1..], s);
    SumOverPerm(v[1..], t);
    assert s[..n] == s && t[..n] == t;
  }

  // ---------------------------------------------------------------- the solver

  /** The number of columns of the padded problem: the longest row. */
  function Width(cost: Matrix): (w: nat)
    ensures forall i | 0 <= i < |cost| :: |cost[i]| <= w
    ensures w > 0 ==> exists i :: 0 <= i < |cost| && |cost[i]| == w
  {
    if cost == [] then 0
    else
      var w := Width(cost[..|cost|-1]);
      assert forall i | 0 <= i < |cost| - 1 :: cost[i] == cost[..|cost|-1][i];
      if w < |cost[|cost|-1]| then |cost[|cost|-1]| else w
  }

  /** An assignment of the largest possible size whose cost no other such assignment undercuts. */
  ghost predicate IsOptimal(cost: Matrix, s: seq<int>) {
    var rows, cols := |cost|, Width(cost);
    && |s| == rows && IsPartial(s, cols) && Size(s) == Min(rows, cols)
    && (forall m: seq<int> {:trigger Total(cost, m)} | |m| == rows && IsPartial(m, cols)
        && Size(m) == Min(rows, cols) ::
          Total(cost, s) <= Total(cost, m))
  }

  /** The optimal permutation of the padded matrix restricts to an optimal assignment: padding does not interfere. */
  lemma {:induction false} RestrictionIsOptimal(cost: Matrix, full: seq<int>)
    requires IsPerm(full, Max(|cost|, Width(cost)))
    requires forall t: seq<int> | IsPerm(t, Max(|cost|, Width(cost))) :: Total(cost, full) <= Total(cost, t)
    ensures IsOptimal(cost, Restrict(full, |cost|, Width(cost)))
  {
    var rows, cols := |cost|, Width(cost);
    RestrictIsPartial(full, rows, cols);
    RestrictTotal(cost, full, rows, cols);
    forall m: seq<int> | |m| == rows && IsPartial(m, cols) && Size(m) == Min(rows, cols)
      ensures Total(cost, Restrict(full, rows, cols)) <= Total(cost, m)
    {
      var t := LargestIsRestriction(m, rows, cols);
      RestrictTotal(cost, t, rows, cols);
    }
  }

  /** Reads the matched column of every row out of p. */
  method ReadAssignment(p: array<nat>, n: nat, rows: nat, cols: nat, ghost col: seq<nat>)
    returns (result: seq<int>)
    requires p.Length == n + 1 && Inverse(n, n, p[..], col, 0) && rows <= n
    ensures IsPerm(Found(n, col), n) && result == Restrict(Found(n, col), rows, cols)
  {
    FoundIsPerm(n, p[..], col);
    var rowToCol := new nat[n + 1](_ => 0);
    for j := 1 to n + 1
      invariant forall r {:trigger rowToCol[r]} | 1 <= r <= n && col[r] < j :: rowToCol[r] == col[r]
    {
      if p[j] != 0 {
        assert p[..][j] == p[j] && col[p[..][j]] == j;
        forall r | 1 <= r <= n && col[r] == j ensures r == p[j] {
          assert p[..][col[r]] == r;
        }
        rowToCol[p[j]] := j;
      } else {
        forall r | 1 <= r <= n ensures col[r] != j {
          assert p[..][col[r]] == r;
        }
      }
    }
    result := seq(rows, _ => -1);
    for i := 1 to rows + 1
      invariant |result| == rows
      invariant forall k | 0 <= k < rows ::
                  result[k] == if k < i - 1 then Restrict(Found(n, col), rows, cols)[k] else -1
    {
      var column := rowToCol[i];
      assert column == col[i] && Found(n, col)[i - 1] == col[i] - 1;
      if 1 <= column <= cols {
        result := result[i - 1 := column - 1];
      }
    }
  }

  /** The (n+1) x (n+1) matrix of padded cells. */
  method PaddedMatrix(cost: Matrix, n: nat) returns (a: array2<real>)
    requires |cost| <= n && Width(cost) <= n
    ensures fresh(a) && a.Length0 == a.Length1 == n + 1
    ensures forall r, j | 1 <= r <= n && 1 <= j <= n :: a[r, j] == Cell(cost, r, j)
  {
    a := new real[n + 1, n + 1]((_, _) => PAD_COST);
    for i := 0 to |cost|
      invariant forall r, j | 1 <= r <= n && 1 <= j <= n :: a[r, j] == if r <= i then Cell(cost, r, j) else PAD_COST
    {
      for j := 0 to |cost[i]|
        invariant forall r, c | 1 <= r <= n && 1 <= c <= n ::
                    a[r, c] == if r <= i || (r == i + 1 && c <= j) then Cell(cost, r, c) else PAD_COST
      {
        a[i + 1, j + 1] := cost[i][j];
      }
    }
  }

  /** Inserts the n rows of the padded matrix and reads the assignment back. */
  method SolvePadded(cost: Matrix, a: array2<real>, n: nat, rows: nat, cols: nat) returns (result: seq<int>)
    requires rows == |cost| && cols == Width(cost) && n == Max(rows, cols)
    requires a.Length0 == a.Length1 == n + 1
    requires forall r, j | 1 <= r <= n && 1 <= j <= n :: a[r, j] == Cell(cost, r, j)
    ensures IsOptimal(cost, result)
  {
    var u := new real[n + 1](_ => 0.0);
    var v := new real[n + 1](_ => 0.0);
    var p := new nat[n + 1](_ => 0);
    var way := new nat[n + 1](_ => 0);
    ghost var col: seq<nat> := seq(n + 1, _ => 0);
    assert Inserted(cost, n, 0, u[..], v[..], p[..], col);
    for i := 1 to n + 1
      modifies u, v, p, way
      invariant Inserted(cost, n, i - 1, u[..], v[..], p[..], col)
    {
      hide Inserted;
      col := InsertRow(cost, a, u, v, p, way, n, i, col);
    }
    result := ReadAssignment(p, n, rows, cols, col);
    forall t: seq<int> | IsPerm(t, n) ensures Total(cost, Found(n, col)) <= Total(cost, t) {
      FoundIsOptimal(cost, n, u[..], v[..], p[..], col, t);
    }
    hide IsOptimal;
    RestrictionIsOptimal(cost, Found(n, col));
  }

  /** Solves any cost matrix, rows of unequal length included. */
  method HungarianSolve(cost: Matrix) returns (result: seq<int>)
    ensures IsOptimal(cost, result)
  {
    var rows := |cost|;
    if rows == 0 {
      return [];
    }
    var cols := 0;
    for i := 0 to rows
      invariant cols == Width(cost[..i])
    {
      assert cost[..i+1][..i] == cost[..i];
      cols := Max(cols, |cost[i]|);
    }
    assert cost[..rows] == cost;
    if cols == 0 {
      result := seq(rows, _ => -1);
      SizeNone(result);
      assert forall m: seq<int> | |m| == rows && IsPartial(m, 0) :: m == result;
      return;
    }
    var n := Max(rows, cols);
    var a := PaddedMatrix(cost, n);
    result := SolvePadded(cost, a, n, rows, cols);
  }
}
