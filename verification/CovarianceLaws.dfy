/** What the filter's covariance keeps over every run, and how good its gain is. */
module CovarianceLaws {
  import opened Basics
  import opened Linear
  import opened Ekf

  // ---------------------------------------------------------------- one step

  lemma {:induction false} PredictedIsCovariance(prior: Matrix, dt: real)
    requires IsCovariance(prior, STATE_DIM) && dt >= 0.0
    ensures IsCovariance(PredictedCovariance(prior, dt), STATE_DIM)
  {
    hide NonNegative, Linear.Symmetric, Sandwich, Combine, Transition, Diagonal;
    SandwichIsCovariance(Transition(dt), prior, STATE_DIM);
    DiagonalIsCovariance(STATE_DIM, dt);
    CombineIsCovariance(1.0, Sandwich(Transition(dt), prior, STATE_DIM), Diagonal(STATE_DIM, dt), STATE_DIM);
  }

  /** The innovation covariance H P Hᵀ + R. */
  lemma {:induction false} InnovationIsCovariance(h: Matrix, prior: Matrix, r: Matrix)
    requires IsMatrix(h, MEASUREMENT_DIM, STATE_DIM) && IsCovariance(prior, STATE_DIM)
             && IsCovariance(r, MEASUREMENT_DIM)
    ensures IsCovariance(InnovationCovariance(h, prior, r), MEASUREMENT_DIM)
  {
    SandwichIsCovariance(h, prior, STATE_DIM);
    CombineIsCovariance(1.0, Sandwich(h, prior, STATE_DIM), r, MEASUREMENT_DIM);
  }

  /** The Joseph form keeps a covariance whatever the gain. */
  lemma {:induction false} JosephIsCovariance(k: Matrix, h: Matrix, prior: Matrix, r: Matrix)
    requires IsMatrix(k, STATE_DIM, MEASUREMENT_DIM) && IsMatrix(h, MEASUREMENT_DIM, STATE_DIM)
    requires IsCovariance(prior, STATE_DIM) && IsCovariance(r, MEASUREMENT_DIM)
    ensures IsCovariance(Joseph(k, h, prior, r), STATE_DIM)
  {
    SandwichIsCovariance(Residual(k, h), prior, STATE_DIM);
    SandwichIsCovariance(k, r, MEASUREMENT_DIM);
    CombineIsCovariance(1.0, Sandwich(Residual(k, h), prior, STATE_DIM), Sandwich(k, r, MEASUREMENT_DIM), STATE_DIM);
  }

  lemma {:induction false} CheckAccepts(llt: Matrix -> bool, p: Matrix)
    requires IsCholesky(llt) && IsCovariance(p, STATE_DIM)
    ensures Check(llt, p) == Checked(Some(p), false) && Symmetrized(p, STATE_DIM) == p
  {
    CovarianceIsSane(llt, p, STATE_DIM, SANITY_JITTER);
  }

  /** A prediction from a covariance: the state moves by its velocity, the covariance stays one and is never
      repaired; a negative step is skipped. */
  lemma {:induction false} PredictKeepsCovariance(llt: Matrix -> bool, f: Filter, dt: real)
    requires IsCholesky(llt) && IsFilter(f) && f.initialized && IsCovariance(f.p, STATE_DIM)
    ensures Predict(llt, f, dt) ==
            if dt < 0.0 then Skipped(f) else f.(x := Apply(Transition(dt), f.x), p := PredictedCovariance(f.p, dt))
    ensures IsCovariance(Predict(llt, f, dt).p, STATE_DIM)
  {
    hide NonNegative, Linear.Symmetric, PredictedCovariance, Check, Apply, Transition, Symmetrized;
    if dt >= 0.0 {
      CheckAccepts(llt, f.p);
      PredictedIsCovariance(f.p, dt);
      CheckAccepts(llt, PredictedCovariance(f.p, dt));
    }
  }

  /** An update with a covariance R is always carried out, with some gain, and never repaired. */
  lemma {:induction false} UpdateKeepsCovariance(tools: Solvers, f: Filter, innovation: Vector, h: Matrix, r: Matrix)
    requires AreSolvers(tools) && IsFilter(f) && IsCovariance(f.p, STATE_DIM)
    requires |innovation| == MEASUREMENT_DIM && IsMatrix(h, MEASUREMENT_DIM, STATE_DIM)
             && IsCovariance(r, MEASUREMENT_DIM)
    ensures Gain(tools, h, f.p, r).Some?
    ensures var k := Gain(tools, h, f.p, r).value;
            Update(tools, f, innovation, h, r) ==
            Updated(f.(x := Axpy(1.0, f.x, Apply(k, innovation)), p := Joseph(k, h, f.p, r)), true)
    ensures IsCovariance(Update(tools, f, innovation, h, r).f.p, STATE_DIM)
  {
    hide NonNegative, Linear.Symmetric, Joseph, Check, Apply, Axpy, Gain, Symmetrized, IsCholesky, IsLdlt;
    CheckAccepts(tools.llt, f.p);
    GainExists(tools, h, f.p, r);
    var k := Gain(tools, h, f.p, r).value;
    JosephIsCovariance(k, h, f.p, r);
    CheckAccepts(tools.llt, Joseph(k, h, f.p, r));
  }

  lemma {:induction false} GainExists(tools: Solvers, h: Matrix, prior: Matrix, r: Matrix)
    requires AreSolvers(tools) && IsMatrix(h, MEASUREMENT_DIM, STATE_DIM)
    requires IsCovariance(prior, STATE_DIM) && IsCovariance(r, MEASUREMENT_DIM)
    ensures Gain(tools, h, prior, r).Some?
  {
    hide InnovationCovariance, CrossTransposed, Symmetrized, IsCholesky, PositiveDefinite, NonNegative,
      Linear.Symmetric, Mul;
    var s := InnovationCovariance(h, prior, r);
    InnovationIsCovariance(h, prior, r);
    SymmetricIsNear(s, MEASUREMENT_DIM);
    assert tools.ldlt(s, CrossTransposed(h, prior)).Some?;
  }

  // ---------------------------------------------------------------- every run

  datatype Op = PredictOp(dt: real) | UpdateOp(innovation: Vector, h: Matrix, r: Matrix)

  ghost predicate IsOp(op: Op) {
    op.UpdateOp? ==>
      |op.innovation| == MEASUREMENT_DIM && IsMatrix(op.h, MEASUREMENT_DIM, STATE_DIM)
        && IsCovariance(op.r, MEASUREMENT_DIM)
  }

  function Next(tools: Solvers, f: Filter, op: Op): (r: Filter)
    requires IsFilter(f)
    ensures IsFilter(r)
  {
    match op
    case PredictOp(dt) => Predict(tools.llt, f, dt)
    case UpdateOp(innovation, h, r) =>
      if |innovation| == MEASUREMENT_DIM && IsMatrix(h, MEASUREMENT_DIM, STATE_DIM)
         && IsMatrix(r, MEASUREMENT_DIM, MEASUREMENT_DIM)
      then Update(tools, f, innovation, h, r).f else f
  }

  function Run(tools: Solvers, f: Filter, ops: seq<Op>): (r: Filter)
    requires IsFilter(f)
    ensures IsFilter(r)
  {
    if ops == [] then f else Next(tools, Run(tools, f, ops[..|ops|-1]), ops[|ops|-1])
  }

  function Backwards(ops: seq<Op>): nat {
    if ops == [] then 0
    else Backwards(ops[..|ops|-1]) + (if ops[|ops|-1].PredictOp? && ops[|ops|-1].dt < 0.0 then 1 else 0)
  }

  /** Over every run from a covariance, with any time steps and whatever is measured: the covariance stays symmetric
      positive semidefinite, no repair ever happens, and only negative time steps are skipped. */
  lemma {:induction false} EveryRunKeepsCovariance(tools: Solvers, f: Filter, ops: seq<Op>)
    requires AreSolvers(tools) && IsFilter(f) && f.initialized && IsCovariance(f.p, STATE_DIM)
    requires forall k | 0 <= k < |ops| :: IsOp(ops[k])
    ensures var r := Run(tools, f, ops);
            && r.initialized && IsCovariance(r.p, STATE_DIM)
            && r.stabilized == f.stabilized && r.skipped == f.skipped + Backwards(ops)
  {
    hide NonNegative, Linear.Symmetric, Predict, Update, AreSolvers;
    if ops != [] {
      var n := |ops| - 1;
      EveryRunKeepsCovariance(tools, f, ops[..n]);
      NextKeepsCovariance(tools, Run(tools, f, ops[..n]), ops[n]);
    }
  }

  lemma {:induction false} NextKeepsCovariance(tools: Solvers, f: Filter, op: Op)
    requires AreSolvers(tools) && IsFilter(f) && f.initialized && IsCovariance(f.p, STATE_DIM) && IsOp(op)
    ensures var r := Next(tools, f, op);
            && r.initialized && IsCovariance(r.p, STATE_DIM) && r.stabilized == f.stabilized
            && r.skipped == f.skipped + (if op.PredictOp? && op.dt < 0.0 then 1 else 0)
  {
    hide NonNegative, Linear.Symmetric, Predict, Update, IsCholesky, IsLdlt;
    match op
    case PredictOp(dt) => PredictKeepsCovariance(tools.llt, f, dt);
    case UpdateOp(innovation, h, r) => UpdateKeepsCovariance(tools, f, innovation, h, r);
  }

  /** Two predictions move the state as one over the whole time does. */
  lemma {:induction false} TransitionsCompose(a: real, b: real, x: Vector)
    requires |x| == STATE_DIM
    ensures Apply(Transition(b), Apply(Transition(a), x)) == Apply(Transition(a + b), x)
  {
    hide Transition, Apply, Times;
    var y := Apply(Transition(a), x);
    TransitionApplies(a, x);
    TransitionApplies(a + b, x);
    TransitionApplies(b, y);
    forall i | 0 <= i < 3 ensures Times(b, y[i+3]) + y[i] == Times(a + b, x[i+3]) + x[i] {
      TimesAdds(a, b, x[i+3]);
    }
    var z, w := Apply(Transition(b), y), Apply(Transition(a + b), x);
    forall i | 0 <= i < STATE_DIM ensures z[i] == w[i] {
      if i < 3 {
        assert z[i] == Times(b, y[i+3]) + y[i];
        assert w[i] == Times(a + b, x[i+3]) + x[i];
      } else {
        assert z[i] == y[i] == x[i] == w[i];
      }
    }
  }

  lemma {:induction false} TimesAdds(a: real, b: real, y: real)
    ensures Times(a, y) + Times(b, y) == Times(a + b, y)
  {
  }

  /** Each position advances by dt times its velocity; the velocities stay. */
  lemma {:induction false} TransitionApplies(dt: real, x: Vector)
    requires |x| == STATE_DIM
    ensures var y := Apply(Transition(dt), x);
            && (forall i | 0 <= i < 3 :: y[i] == Times(dt, x[i+3]) + x[i])
            && (forall i | 3 <= i < 6 :: y[i] == x[i])
  {
    var m := Transition(dt);
    forall i | 0 <= i < 3 ensures Dot(m[i], x) == Times(dt, x[i+3]) + x[i] {
      assert m[i] == Axpy(dt, Unit(STATE_DIM, i + 3, 1.0), Unit(STATE_DIM, i, 1.0));
      DotLinear(dt, Unit(STATE_DIM, i + 3, 1.0), Unit(STATE_DIM, i, 1.0), x);
      DotUnit(STATE_DIM, i + 3, 1.0, x);
      DotUnit(STATE_DIM, i, 1.0, x);
    }
    forall i | 3 <= i < 6 ensures Dot(m[i], x) == x[i] {
      assert m[i] == Unit(STATE_DIM, i, 1.0);
      DotUnit(STATE_DIM, i, 1.0, x);
    }
  }

  // ---------------------------------------------------------------- the gain is the best one

  /** The variance the Joseph form with gain k leaves in direction x, by a = kᵀ x. */
  function Left(h: Matrix, prior: Matrix, r: Matrix, x: Vector, a: Vector): real
    requires IsMatrix(h, MEASUREMENT_DIM, STATE_DIM) && IsMatrix(prior, STATE_DIM, STATE_DIM)
    requires IsMatrix(r, MEASUREMENT_DIM, MEASUREMENT_DIM) && |x| == STATE_DIM && |a| == MEASUREMENT_DIM
  {
    Quad(prior, x) - 2.0 * Dot(a, Apply(h, Apply(prior, x))) + Quad(InnovationCovariance(h, prior, r), a)
  }

  lemma {:induction false} ResidualRow(k: Matrix, h: Matrix, x: Vector)
    requires IsMatrix(k, STATE_DIM, MEASUREMENT_DIM) && IsMatrix(h, MEASUREMENT_DIM, STATE_DIM) && |x| == STATE_DIM
    ensures Row(x, Residual(k, h), STATE_DIM) == Axpy(-1.0, Row(Row(x, k, MEASUREMENT_DIM), h, STATE_DIM), x)
  {
    var m := Residual(k, h);
    var kh := Mul(k, h, STATE_DIM);
    var a := Row(x, k, MEASUREMENT_DIM);
    forall j | 0 <= j < STATE_DIM ensures Dot(x, Column(m, j)) == Times(-1.0, Dot(a, Column(h, j))) + x[j] {
      assert Column(m, j) == Axpy(-1.0, Column(kh, j), Column(Diagonal(STATE_DIM, 1.0), j));
      assert Column(Diagonal(STATE_DIM, 1.0), j) == Unit(STATE_DIM, j, 1.0);
      DotSymmetric(x, Column(m, j));
      DotLinear(-1.0, Column(kh, j), Unit(STATE_DIM, j, 1.0), x);
      DotUnit(STATE_DIM, j, 1.0, x);
      DotSymmetric(Column(kh, j), x);
      ColumnOfProduct(k, h, j);
      RowThenDot(x, k, Column(h, j));
    }
  }

  lemma {:induction false} ColumnOfProduct(k: Matrix, h: Matrix, j: nat)
    requires IsMatrix(k, STATE_DIM, MEASUREMENT_DIM) && IsMatrix(h, MEASUREMENT_DIM, STATE_DIM) && j < STATE_DIM
    ensures Column(Mul(k, h, STATE_DIM), j) == Apply(k, Column(h, j))
  {
  }

  lemma {:induction false} QuadOfDifference(p: Matrix, y: Vector, x: Vector)
    requires |y| == |x| && IsMatrix(p, |x|, |x|) && Linear.Symmetric(p, |x|)
    ensures Quad(p, Axpy(-1.0, y, x)) == Quad(p, x) - 2.0 * Dot(y, Apply(p, x)) + Quad(p, y)
  {
    var z := Axpy(-1.0, y, x);
    DotLinear(-1.0, y, x, Apply(p, z));
    SymmetricMoves(p, y, z);
    SymmetricMoves(p, x, z);
    DotLinear(-1.0, y, x, Apply(p, y));
    DotLinear(-1.0, y, x, Apply(p, x));
    SymmetricMoves(p, x, y);
  }

  lemma {:induction false} JosephLeaves(k: Matrix, h: Matrix, prior: Matrix, r: Matrix, x: Vector)
    requires IsMatrix(k, STATE_DIM, MEASUREMENT_DIM) && IsMatrix(h, MEASUREMENT_DIM, STATE_DIM) && |x| == STATE_DIM
    requires IsMatrix(prior, STATE_DIM, STATE_DIM) && Linear.Symmetric(prior, STATE_DIM)
    requires IsMatrix(r, MEASUREMENT_DIM, MEASUREMENT_DIM)
    ensures Quad(Joseph(k, h, prior, r), x) == Left(h, prior, r, x, Row(x, k, MEASUREMENT_DIM))
  {
    hide Sandwich, Residual, Quad;
    var a := Row(x, k, MEASUREMENT_DIM);
    var ha := Row(a, h, STATE_DIM);
    QuadOfCombine(1.0, Sandwich(Residual(k, h), prior, STATE_DIM), Sandwich(k, r, MEASUREMENT_DIM), x);
    QuadOfSandwich(Residual(k, h), prior, STATE_DIM, x);
    QuadOfSandwich(k, r, MEASUREMENT_DIM, x);
    ResidualRow(k, h, x);
    QuadOfDifference(prior, ha, x);
    RowThenDot(a, h, Apply(prior, x));
    QuadOfCombine(1.0, Sandwich(h, prior, STATE_DIM), r, a);
    QuadOfSandwich(h, prior, STATE_DIM, a);
  }

  /** The gain solves S Kᵀ = H P exactly. */
  ghost predicate Solves(k: Matrix, h: Matrix, prior: Matrix, r: Matrix)
    requires IsMatrix(k, STATE_DIM, MEASUREMENT_DIM) && IsMatrix(h, MEASUREMENT_DIM, STATE_DIM)
    requires IsMatrix(prior, STATE_DIM, STATE_DIM) && IsMatrix(r, MEASUREMENT_DIM, MEASUREMENT_DIM)
  {
    Mul(InnovationCovariance(h, prior, r), Transpose(k, MEASUREMENT_DIM), STATE_DIM) == Mul(h, prior, STATE_DIM)
  }

  /** With an exact gain the posterior variance is the prior's less a variance, and any other gain leaves more
      by the innovation's variance of the difference. */
  lemma {:induction false} ExactGainLeaves(k: Matrix, h: Matrix, prior: Matrix, r: Matrix, x: Vector, a: Vector)
    requires IsMatrix(k, STATE_DIM, MEASUREMENT_DIM) && IsMatrix(h, MEASUREMENT_DIM, STATE_DIM) && |x| == STATE_DIM
    requires IsCovariance(prior, STATE_DIM) && IsCovariance(r, MEASUREMENT_DIM) && |a| == MEASUREMENT_DIM
    requires Solves(k, h, prior, r)
    ensures var s := InnovationCovariance(h, prior, r);
            var b := Row(x, k, MEASUREMENT_DIM);
            && Left(h, prior, r, x, b) == Quad(prior, x) - Quad(s, b)
            && Left(h, prior, r, x, a) == Left(h, prior, r, x, b) + Quad(s, Axpy(-1.0, b, a))
  {
    hide InnovationCovariance, NonNegative;
    var s := InnovationCovariance(h, prior, r);
    var b := Row(x, k, MEASUREMENT_DIM);
    InnovationIsCovariance(h, prior, r);
    MulThenApply(h, prior, x);
    MulThenApply(s, Transpose(k, MEASUREMENT_DIM), x);
    TransposeApplies(k, MEASUREMENT_DIM, x);
    assert Apply(h, Apply(prior, x)) == Apply(s, b);
    QuadOfDifference(s, b, a);
    SymmetricMoves(s, a, b);
  }

  /** An exact gain never increases the variance in any direction, and no gain leaves less. */
  lemma {:induction false} ExactGainIsBest(k: Matrix, other: Matrix, h: Matrix, prior: Matrix, r: Matrix, x: Vector)
    requires IsMatrix(k, STATE_DIM, MEASUREMENT_DIM) && IsMatrix(other, STATE_DIM, MEASUREMENT_DIM)
    requires IsMatrix(h, MEASUREMENT_DIM, STATE_DIM) && IsCovariance(prior, STATE_DIM)
             && IsCovariance(r, MEASUREMENT_DIM)
    requires Solves(k, h, prior, r) && |x| == STATE_DIM
    ensures Quad(Joseph(k, h, prior, r), x) <= Quad(prior, x)
    ensures Quad(Joseph(k, h, prior, r), x) <= Quad(Joseph(other, h, prior, r), x)
  {
    hide Quad, Left, Joseph, Solves;
    var a, b := Row(x, other, MEASUREMENT_DIM), Row(x, k, MEASUREMENT_DIM);
    JosephLeaves(k, h, prior, r, x);
    JosephLeaves(other, h, prior, r, x);
    ExactGainLeaves(k, h, prior, r, x, a);
    InnovationIsCovariance(h, prior, r);
    assert Quad(InnovationCovariance(h, prior, r), Axpy(-1.0, b, a)) >= 0.0;
  }

  /** The filter's own gain is exact when the measurement noise is positive definite. */
  lemma {:induction false} GainSolves(tools: Solvers, h: Matrix, prior: Matrix, r: Matrix)
    requires AreSolvers(tools) && IsMatrix(h, MEASUREMENT_DIM, STATE_DIM)
    requires IsCovariance(prior, STATE_DIM) && IsCovariance(r, MEASUREMENT_DIM) && PositiveDefinite(r, MEASUREMENT_DIM)
    ensures Gain(tools, h, prior, r).Some? && Solves(Gain(tools, h, prior, r).value, h, prior, r)
  {
    hide CrossTransposed, Symmetrized, IsCholesky, NonNegative, Linear.Symmetric, Mul, Quad, InnovationCovariance;
    var s := InnovationCovariance(h, prior, r);
    InnovationIsCovariance(h, prior, r);
    InnovationIsDefinite(h, prior, r);
    SymmetricIsNear(s, MEASUREMENT_DIM);
    CrossIsProduct(h, prior);
    var b := CrossTransposed(h, prior);
    assert tools.ldlt(s, b).Some? && Mul(s, tools.ldlt(s, b).value, STATE_DIM) == b;
    TransposeTwice(tools.ldlt(s, b).value, MEASUREMENT_DIM, STATE_DIM);
  }

  /** So with positive definite noise an update leaves no more variance in any direction than there was, and no
      more than any other gain would. */
  lemma {:induction false} UpdateIsBest(tools: Solvers, f: Filter, innovation: Vector, h: Matrix, r: Matrix,
                                        other: Matrix, x: Vector)
    requires AreSolvers(tools) && IsFilter(f) && IsCovariance(f.p, STATE_DIM) && |x| == STATE_DIM
    requires |innovation| == MEASUREMENT_DIM && IsMatrix(h, MEASUREMENT_DIM, STATE_DIM)
    requires IsCovariance(r, MEASUREMENT_DIM) && PositiveDefinite(r, MEASUREMENT_DIM)
    requires IsMatrix(other, STATE_DIM, MEASUREMENT_DIM)
    ensures Quad(Update(tools, f, innovation, h, r).f.p, x) <= Quad(f.p, x)
    ensures Quad(Update(tools, f, innovation, h, r).f.p, x) <= Quad(Joseph(other, h, f.p, r), x)
  {
    hide NonNegative, Linear.Symmetric, PositiveDefinite, Quad, Update, Gain, Joseph, Solves, IsCholesky, IsLdlt;
    UpdateKeepsCovariance(tools, f, innovation, h, r);
    GainSolves(tools, h, f.p, r);
    ExactGainIsBest(Gain(tools, h, f.p, r).value, other, h, f.p, r, x);
  }

  lemma {:induction false} InnovationIsDefinite(h: Matrix, prior: Matrix, r: Matrix)
    requires IsMatrix(h, MEASUREMENT_DIM, STATE_DIM) && IsCovariance(prior, STATE_DIM)
    requires IsCovariance(r, MEASUREMENT_DIM) && PositiveDefinite(r, MEASUREMENT_DIM)
    ensures PositiveDefinite(InnovationCovariance(h, prior, r), MEASUREMENT_DIM)
  {
    hide Quad, Sandwich, Combine;
    SandwichIsCovariance(h, prior, STATE_DIM);
    forall x: Vector | |x| == MEASUREMENT_DIM && x != Zero(MEASUREMENT_DIM)
      ensures Quad(InnovationCovariance(h, prior, r), x) > 0.0
    {
      QuadOfCombine(1.0, Sandwich(h, prior, STATE_DIM), r, x);
    }
  }

  lemma {:induction false} TransposeTwice(m: Matrix, rows: nat, cols: nat)
    requires IsMatrix(m, rows, cols)
    ensures Transpose(Transpose(m, cols), rows) == m
  {
    forall i | 0 <= i < rows ensures Transpose(Transpose(m, cols), rows)[i] == m[i] {
    }
  }

  /** The solver's right-hand side, the transpose of P Hᵀ, is H P. */
  lemma {:induction false} CrossIsProduct(h: Matrix, prior: Matrix)
    requires IsMatrix(h, MEASUREMENT_DIM, STATE_DIM) && IsCovariance(prior, STATE_DIM)
    ensures CrossTransposed(h, prior) == Mul(h, prior, STATE_DIM)
  {
    hide NonNegative;
    var ht := Transpose(h, STATE_DIM);
    var c, d := CrossTransposed(h, prior), Mul(h, prior, STATE_DIM);
    forall i, j | 0 <= i < MEASUREMENT_DIM && 0 <= j < STATE_DIM ensures c[i][j] == d[i][j] {
      assert c[i][j] == Dot(prior[j], Column(ht, i));
      assert Column(ht, i) == h[i];
      assert Column(prior, j) == prior[j];
      DotSymmetric(prior[j], h[i]);
    }
    forall i | 0 <= i < MEASUREMENT_DIM ensures c[i] == d[i] {
    }
  }

  // ---------------------------------------------------------------- a covariance beyond repair

  /** Strong correlation without variance: 100 between the first two states, 0 elsewhere. */
  ghost function Crossed(): (p: Matrix)
    ensures IsMatrix(p, STATE_DIM, STATE_DIM) && Linear.Symmetric(p, STATE_DIM)
    ensures p[0] == Unit(STATE_DIM, 1, 100.0) && p[1] == Unit(STATE_DIM, 0, 100.0)
    ensures forall i | 0 <= i < STATE_DIM :: p[i][i] == 0.0
  {
    var zero := Zero(STATE_DIM);
    [Unit(STATE_DIM, 1, 100.0), Unit(STATE_DIM, 0, 100.0), zero, zero, zero, zero]
  }

  /** (1, -1, 0, 0, 0, 0). */
  ghost function Apart(): (x: Vector)
    ensures |x| == STATE_DIM && x != Zero(STATE_DIM)
  {
    var x := Axpy(-1.0, Unit(STATE_DIM, 1, 1.0), Unit(STATE_DIM, 0, 1.0));
    assert x[0] == 1.0;
    x
  }

  lemma {:induction false} ApartDot(y: Vector)
    requires |y| == STATE_DIM
    ensures Dot(Apart(), y) == y[0] - y[1]
  {
    DotLinear(-1.0, Unit(STATE_DIM, 1, 1.0), Unit(STATE_DIM, 0, 1.0), y);
    DotUnit(STATE_DIM, 1, 1.0, y);
    DotUnit(STATE_DIM, 0, 1.0, y);
  }

  lemma {:induction false} CrossedIsIndefinite(c: real)
    requires c <= 20.0
    ensures !DefiniteWith(Crossed(), STATE_DIM, c)
  {
    hide Dot;
    var x := Apart();
    DotUnit(STATE_DIM, 1, 100.0, x);
    DotUnit(STATE_DIM, 0, 100.0, x);
    var y := Apply(Crossed(), x);
    assert y[0] == Times(100.0, x[1]) && y[1] == Times(100.0, x[0]);
    assert x[0] == 1.0 && x[1] == -1.0;
    ApartDot(y);
    ApartDot(x);
    assert Quad(Crossed(), x) == -200.0 && Times(c, Dot(x, x)) <= 40.0;
  }

  lemma {:induction false} CrossedIsPlain()
    ensures Symmetrized(Crossed(), STATE_DIM) == Crossed() && Floored(Crossed(), STATE_DIM) == Crossed()
  {
    var f := Floored(Crossed(), STATE_DIM);
    SymmetricIsNear(Crossed(), STATE_DIM);
    forall i | 0 <= i < STATE_DIM ensures f[i] == Crossed()[i] {
    }
  }

  /** The repair of this matrix fails in all eight attempts. A filter initialised with it keeps it, and from then on
      skips every prediction and every update. */
  lemma {:induction false} RepairCanFail(tools: Solvers, f: Filter, dt: real, innovation: Vector, h: Matrix, r: Matrix)
    requires IsCholesky(tools.llt) && IsFilter(f) && f.initialized && f.p == Crossed() && dt >= 0.0
    requires |innovation| == MEASUREMENT_DIM && IsMatrix(h, MEASUREMENT_DIM, STATE_DIM)
    requires IsMatrix(r, MEASUREMENT_DIM, MEASUREMENT_DIM)
    ensures FirstSane(tools.llt, Floored(Crossed(), STATE_DIM), STATE_DIM, COVARIANCE_EPSILON, ATTEMPTS).None?
    ensures Check(tools.llt, Crossed()) == Checked(None, false) && Floored(Crossed(), STATE_DIM) == Crossed()
    ensures Predict(tools.llt, f, dt) == Skipped(f)
    ensures Update(tools, f, innovation, h, r) == Updated(Skipped(f), false)
  {
    hide DefiniteWith, FirstSane, Floored, Symmetrized, IsCholesky, Joseph, Gain, PredictedCovariance;
    CrossedIsPlain();
    CrossedIsIndefinite(20.0);
    RepairSucceedsExactly(tools.llt, Crossed(), STATE_DIM);
    CrossedIsInsane(tools.llt);
  }

  lemma {:induction false} CrossedIsInsane(llt: Matrix -> bool)
    requires IsCholesky(llt)
    ensures !Sane(llt, Crossed(), STATE_DIM, SANITY_JITTER)
  {
    hide DefiniteWith, NearlySymmetric, Symmetrized, IsCholesky;
    CrossedIsPlain();
    CrossedIsIndefinite(0.0);
    CrossedIsIndefinite(SANITY_JITTER);
    CholeskyOfJittered(llt, Crossed(), STATE_DIM, 0.0);
    CholeskyOfJittered(llt, Crossed(), STATE_DIM, SANITY_JITTER);
    JitteredByNothing(Crossed(), STATE_DIM);
  }

  lemma {:induction false} JitteredByNothing(p: Matrix, n: nat)
    requires IsMatrix(p, n, n)
    ensures Jittered(p, n, 0.0) == p
  {
    var q := Jittered(p, n, 0.0);
    forall i | 0 <= i < n ensures q[i] == p[i] {
    }
  }
}
