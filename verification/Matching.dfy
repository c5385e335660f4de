/** Partial assignments of rows to columns, their size and their cost.
    An assignment is a sequence with one entry per row: a column, or -1 when the row is unassigned. */
module Matching {
  import opened Basics

  /** The cost the solver writes into cells the caller did not supply. */
  const PAD_COST: real := 1000000000000.0

  /** The cell (i, j), with PAD_COST outside the supplied cells (short rows included). */
  function Entry(cost: Matrix, i: nat, j: nat): real {
    if i < |cost| && j < |cost[i]| then cost[i][j] else PAD_COST
  }

  /** Every row is unassigned or has a column below `cols`, and no column is used twice. */
  ghost predicate IsPartial(s: seq<int>, cols: nat) {
    && (forall i | 0 <= i < |s| :: -1 <= s[i] < cols)
    && (forall i, k | 0 <= i < k < |s| && s[i] >= 0 :: s[i] != s[k])
  }

  /** A permutation of 0..n-1. */
  ghost predicate IsPerm(s: seq<int>, n: nat) {
    && |s| == n
    && IsPartial(s, n)
    && (forall i | 0 <= i < |s| :: s[i] >= 0)
  }

  /** The number of assigned rows. */
  function Size(s: seq<int>): (r: nat)
    ensures r <= |s|
  {
    if s == [] then 0 else Size(s[..|s|-1]) + if s[|s|-1] >= 0 then 1 else 0
  }

  /** The summed cost of the assigned rows. */
  function Total(cost: Matrix, s: seq<int>): real {
    if s == [] then 0.0
    else Total(cost, s[..|s|-1]) + if s[|s|-1] >= 0 then Entry(cost, |s|-1, s[|s|-1]) else 0.0
  }

  /** The contribution of one row to Total. */
  function CellCost(cost: Matrix, i: nat, c: int): real {
    if c >= 0 then Entry(cost, i, c) else 0.0
  }

  lemma {:induction false} SizeUpdate(s: seq<int>, k: nat, c: int)
    requires k < |s|
    ensures Size(s[k := c]) == Size(s) - (if s[k] >= 0 then 1 else 0) + (if c >= 0 then 1 else 0)
  {
    var n := |s| - 1;
    if k == n {
      assert s[k := c][..n] == s[..n];
    } else {
      assert s[k := c][..n] == s[..n][k := c];
      SizeUpdate(s[..n], k, c);
    }
  }

  lemma {:induction false} TotalUpdate(cost: Matrix, s: seq<int>, k: nat, c: int)
    requires k < |s|
    ensures Total(cost, s[k := c]) == Total(cost, s) - CellCost(cost, k, s[k]) + CellCost(cost, k, c)
  {
    var n := |s| - 1;
    if k == n {
      assert s[k := c][..n] == s[..n];
    } else {
      assert s[k := c][..n] == s[..n][k := c];
      TotalUpdate(cost, s[..n], k, c);
    }
  }

  lemma {:induction false} SizeFull(s: seq<int>)
    requires forall i | 0 <= i < |s| :: s[i] >= 0
    ensures Size(s) == |s|
  {
    if s != [] {
      SizeFull(s[..|s|-1]);
    }
  }

  lemma {:induction false} SizeNotFull(s: seq<int>, k: nat)
    requires k < |s| && s[k] < 0
    ensures Size(s) < |s|
  {
    SizeUpdate(s, k, 0);
  }

  lemma {:induction false} UnassignedRow(s: seq<int>) returns (k: nat)
    requires Size(s) < |s|
    ensures k < |s| && s[k] < 0
  {
    if s[|s|-1] < 0 {
      k := |s| - 1;
    } else {
      k := UnassignedRow(s[..|s|-1]);
    }
  }

  /** A matching never has more rows than there are columns. */
  lemma {:induction false} SizeAtMostCols(s: seq<int>, cols: nat)
    requires IsPartial(s, cols)
    ensures Size(s) <= cols
    decreases cols
  {
    if cols == 0 {
      if Size(s) > 0 {
        SizeNone(s);
      }
    } else if k :| 0 <= k < |s| && s[k] == cols - 1 {
      var t := s[k := -1];
      SizeUpdate(s, k, -1);
      SizeAtMostCols(t, cols - 1);
    } else {
      SizeAtMostCols(s, cols - 1);
    }
  }

  lemma {:induction false} SizeNone(s: seq<int>)
    requires forall i | 0 <= i < |s| :: s[i] < 0
    ensures Size(s) == 0
  {
    if s != [] {
      SizeNone(s[..|s|-1]);
    }
  }

  /** A matching with as many rows as columns uses every column. */
  lemma {:induction false} EveryColumnUsed(s: seq<int>, cols: nat, c: nat) returns (k: nat)
    requires IsPartial(s, cols) && Size(s) == cols && c < cols
    ensures k < |s| && s[k] == c
    decreases cols
  {
    k := 0;
    if h :| 0 <= h < |s| && s[h] == cols - 1 {
      if c == cols - 1 {
        k := h;
      } else {
        SizeUpdate(s, h, -1);
        k := EveryColumnUsed(s[h := -1], cols - 1, c);
      }
    } else {
      SizeAtMostCols(s, cols - 1);
      assert false;
    }
  }

  /** A matching smaller than the number of columns leaves some column free. */
  lemma {:induction false} FreeColumn(s: seq<int>, cols: nat) returns (c: nat)
    requires IsPartial(s, cols) && Size(s) < cols
    ensures c < cols && c !in s
    decreases cols
  {
    if h :| 0 <= h < |s| && s[h] == cols - 1 {
      var t := s[h := -1];
      SizeUpdate(s, h, -1);
      c := FreeColumn(t, cols - 1);
      assert forall i | 0 <= i < |s| :: i == h || s[i] == t[i];
    } else {
      c := cols - 1;
    }
  }

  // ---------------------------------------------------------------- completion to a permutation

  /** Every square partial assignment extends to a permutation. */
  lemma {:induction false} ExtendToPerm(s: seq<int>, n: nat) returns (t: seq<int>)
    requires |s| == n && IsPartial(s, n)
    ensures IsPerm(t, n)
    ensures forall i | 0 <= i < n && s[i] >= 0 :: t[i] == s[i]
    decreases n - Size(s)
  {
    if Size(s) < n {
      var k := UnassignedRow(s);
      var c := FreeColumn(s, n);
      SizeUpdate(s, k, c);
      t := ExtendToPerm(s[k := c], n);
    } else {
      t := s;
      forall i | 0 <= i < n ensures s[i] >= 0 {
        if s[i] < 0 {
          SizeNotFull(s, i);
        }
      }
    }
  }

  /** Reads the first `rows` entries of a permutation, with columns from `cols` up counted as unassigned. */
  function Restrict(t: seq<int>, rows: nat, cols: nat): (s: seq<int>)
    requires rows <= |t|
    ensures |s| == rows
    ensures forall i | 0 <= i < rows :: s[i] == if t[i] < cols then t[i] else -1
  {
    seq(rows, i requires 0 <= i < rows => if t[i] < cols then t[i] else -1)
  }

  lemma {:induction false} RestrictIsPartial(t: seq<int>, rows: nat, cols: nat)
    requires IsPerm(t, Max(rows, cols))
    ensures IsPartial(Restrict(t, rows, cols), cols)
    ensures Size(Restrict(t, rows, cols)) == Min(rows, cols)
  {
    var s := Restrict(t, rows, cols);
    if rows <= cols {
      SizeFull(s);
    } else {
      SizeFull(t);
      SizeAtMostCols(s, cols);
      if Size(s) < cols {
        var c := FreeColumn(s, cols);
        var k := EveryColumnUsed(t, rows, c);
        assert false;
      }
    }
  }

  /** The padding of a permutation costs the same whatever the permutation. */
  lemma {:induction false} RestrictTotal(cost: Matrix, t: seq<int>, rows: nat, cols: nat)
    requires IsPerm(t, Max(rows, cols))
    requires |cost| == rows && forall i | 0 <= i < rows :: |cost[i]| <= cols
    ensures Total(cost, t) ==
            Total(cost, Restrict(t, rows, cols)) + (Max(rows, cols) - Min(rows, cols)) as real * PAD_COST
  {
    PaddedTotal(cost, t, rows, cols, Max(rows, cols));
    RestrictIsPartial(t, rows, cols);
    assert t[..Max(rows, cols)] == t;
    assert Restrict(t, rows, cols)[..rows] == Restrict(t, rows, cols);
  }

  /** Total of the first k entries: the restricted part plus one PAD_COST for every other entry. */
  lemma {:induction false} PaddedTotal(cost: Matrix, t: seq<int>, rows: nat, cols: nat, k: nat)
    requires k <= |t| && rows <= |t| && forall i | 0 <= i < |t| :: t[i] >= 0
    requires |cost| == rows && forall i | 0 <= i < rows :: |cost[i]| <= cols
    ensures var s := Restrict(t, rows, cols)[..Min(k, rows)];
            Total(cost, t[..k]) == Total(cost, s) + (k - Size(s)) as real * PAD_COST
  {
    var s := Restrict(t, rows, cols);
    if k == 0 {
      assert s[..Min(k, rows)] == [] && t[..k] == [];
    } else {
      PaddedTotal(cost, t, rows, cols, k - 1);
      assert t[..k][..k-1] == t[..k-1];
      if k <= rows {
        assert s[..k][..k-1] == s[..k-1];
      }
    }
  }

  /** Every assignment within a rows x cols matrix extends to one of the largest possible size. */
  lemma {:induction false} ExtendToLargest(s: seq<int>, rows: nat, cols: nat) returns (t: seq<int>, full: seq<int>)
    requires |s| == rows && IsPartial(s, cols)
    ensures IsPerm(full, Max(rows, cols)) && t == Restrict(full, rows, cols)
    ensures IsPartial(t, cols) && Size(t) == Min(rows, cols)
    ensures forall i | 0 <= i < rows && s[i] >= 0 :: t[i] == s[i]
  {
    var n := Max(rows, cols);
    var wide := s + seq(n - rows, _ => -1);
    full := ExtendToPerm(wide, n);
    t := Restrict(full, rows, cols);
    RestrictIsPartial(full, rows, cols);
    forall i | 0 <= i < rows && s[i] >= 0 ensures t[i] == s[i] {
      assert wide[i] == s[i];
    }
  }

  /** An assignment of the largest size is the restriction of some permutation. */
  lemma {:induction false} LargestIsRestriction(s: seq<int>, rows: nat, cols: nat) returns (full: seq<int>)
    requires |s| == rows && IsPartial(s, cols) && Size(s) == Min(rows, cols)
    ensures IsPerm(full, Max(rows, cols)) && s == Restrict(full, rows, cols)
  {
    var t;
    t, full := ExtendToLargest(s, rows, cols);
    forall i | 0 <= i < rows ensures t[i] == s[i] {
      if s[i] < 0 && t[i] >= 0 {
        // the column t[i] is already used by another row of s, hence twice by t
        SizeNotFull(s, i);
        var k := EveryColumnUsed(s, cols, t[i]);
      }
    }
  }

  // ---------------------------------------------------------------- sums over permutations

  function Sum(v: seq<real>): real {
    if v == [] then 0.0 else Sum(v[..|v|-1]) + v[|v|-1]
  }

  /** The sum of v over the entries of s, which index v. */
  function SumAt(v: seq<real>, s: seq<int>): real
    requires forall i | 0 <= i < |s| :: 0 <= s[i] < |v|
  {
    if s == [] then 0.0 else SumAt(v, s[..|s|-1]) + v[s[|s|-1]]
  }

  lemma {:induction false} SumAtUpdate(v: seq<real>, s: seq<int>, k: nat, c: nat)
    requires forall i | 0 <= i < |s| :: 0 <= s[i] < |v|
    requires k < |s| && c < |v|
    ensures SumAt(v, s[k := c]) == SumAt(v, s) - v[s[k]] + v[c]
  {
    var n := |s| - 1;
    if k == n {
      assert s[k := c][..n] == s[..n];
    } else {
      assert s[k := c][..n] == s[..n][k := c];
      SumAtUpdate(v, s[..n], k, c);
    }
  }

  lemma {:induction false} SumAtPrefix(v: seq<real>, s: seq<int>, m: nat)
    requires m <= |v| && forall i | 0 <= i < |s| :: 0 <= s[i] < m
    ensures SumAt(v, s) == SumAt(v[..m], s)
  {
    if s != [] {
      SumAtPrefix(v, s[..|s|-1], m);
    }
  }

  /** A sum does not depend on the order in which a permutation visits it. */
  lemma {:induction false} SumOverPerm(v: seq<real>, s: seq<int>)
    requires IsPerm(s, |v|)
    ensures SumAt(v, s) == Sum(v)
  {
    var n := |v|;
    if n > 0 {
      SizeFull(s);
      var k := EveryColumnUsed(s, n, n - 1);
      var last := s[n-1];
      var t := s[k := last][..n-1];
      SumAtUpdate(v, s, k, last);
      SumAtPrefix(v, t, n - 1);
      SumOverPerm(v[..n-1], t);
    }
  }
}
