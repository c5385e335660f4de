/** The filter's prediction and update told by dot products and quadratic forms alone
    (src/fusion_core/ekf_cv.cpp:47-99, 197-266). */
module EstimateLaws {
  import opened Basics
  import opened Linear
  import opened Ekf
  import opened CovarianceLaws

  // ---------------------------------------------------------------- prediction

  /** The positions moved on by dt times the velocities. */
  ghost function Moved(x: Vector, dt: real): Vector
    requires |x| == STATE_DIM
  {
    [x[0] + dt * x[3], x[1] + dt * x[4], x[2] + dt * x[5], x[3], x[4], x[5]]
  }

  /** Each velocity's direction with dt times its position's. */
  ghost function Dragged(x: Vector, dt: real): Vector
    requires |x| == STATE_DIM
  {
    [x[0], x[1], x[2], x[3] + dt * x[0], x[4] + dt * x[1], x[5] + dt * x[2]]
  }

  lemma {:induction false} MovedIs(x: Vector, dt: real)
    requires |x| == STATE_DIM
    ensures Apply(Transition(dt), x) == Moved(x, dt)
  {
    hide Transition, Apply;
    TransitionApplies(dt, x);
    var y, z := Apply(Transition(dt), x), Moved(x, dt);
    forall i | 0 <= i < STATE_DIM ensures y[i] == z[i] {
      assert i == 0 || i == 1 || i == 2 || i == 3 || i == 4 || i == 5;
    }
  }

  lemma {:induction false} ColumnsOfTransition(dt: real, j: nat)
    requires j < STATE_DIM
    ensures Column(Transition(dt), j) ==
            if j < 3 then Unit(STATE_DIM, j, 1.0)
            else Axpy(dt, Unit(STATE_DIM, j - 3, 1.0), Unit(STATE_DIM, j, 1.0))
  {
  }

  lemma {:induction false} DraggedAt(x: Vector, dt: real, j: nat)
    requires |x| == STATE_DIM && j < STATE_DIM
    ensures Dot(x, Column(Transition(dt), j)) == if j < 3 then x[j] else Times(dt, x[j-3]) + x[j]
  {
    hide Transition;
    ColumnsOfTransition(dt, j);
    DotSymmetric(x, Column(Transition(dt), j));
    DotUnit(STATE_DIM, j, 1.0, x);
    if j >= 3 {
      DotLinear(dt, Unit(STATE_DIM, j - 3, 1.0), Unit(STATE_DIM, j, 1.0), x);
      DotUnit(STATE_DIM, j - 3, 1.0, x);
    }
  }

  lemma {:induction false} DraggedIs(x: Vector, dt: real)
    requires |x| == STATE_DIM
    ensures Row(x, Transition(dt), STATE_DIM) == Dragged(x, dt)
  {
    hide Transition, Dot;
    var y, z := Row(x, Transition(dt), STATE_DIM), Dragged(x, dt);
    forall j | 0 <= j < STATE_DIM ensures y[j] == z[j] {
      DraggedAt(x, dt, j);
      assert j == 0 || j == 1 || j == 2 || j == 3 || j == 4 || j == 5;
    }
  }

  /** A prediction from a covariance moves the state by its velocity, and its variance in any direction is the prior's
      in the dragged direction plus dt for every unit of that direction. */
  lemma {:induction false} PredictionTells(llt: Matrix -> bool, f: Filter, dt: real, x: Vector)
    requires IsCholesky(llt) && IsFilter(f) && f.initialized && IsCovariance(f.p, STATE_DIM)
    requires dt >= 0.0 && |x| == STATE_DIM
    ensures Predict(llt, f, dt).x == Moved(f.x, dt)
    ensures Quad(Predict(llt, f, dt).p, x) == Quad(f.p, Dragged(x, dt)) + dt * Dot(x, x)
    ensures Linear.Symmetric(Predict(llt, f, dt).p, STATE_DIM)
  {
    hide Predict, IsCholesky, NonNegative, Transition, Quad, Dot, Sandwich, Diagonal, Combine;
    PredictKeepsCovariance(llt, f, dt);
    MovedIs(f.x, dt);
    QuadOfCombine(1.0, Sandwich(Transition(dt), f.p, STATE_DIM), Diagonal(STATE_DIM, dt), x);
    QuadOfSandwich(Transition(dt), f.p, STATE_DIM, x);
    DraggedIs(x, dt);
    QuadOfDiagonal(dt, x);
  }

  // ---------------------------------------------------------------- update

  /** (H P Hᵀ + R) z. */
  ghost function Weighed(h: Matrix, p: Matrix, r: Matrix, z: Vector): (w: Vector)
    requires IsMatrix(h, MEASUREMENT_DIM, STATE_DIM) && IsMatrix(p, STATE_DIM, STATE_DIM)
    requires IsMatrix(r, MEASUREMENT_DIM, MEASUREMENT_DIM) && |z| == MEASUREMENT_DIM
    ensures |w| == MEASUREMENT_DIM
  {
    Axpy(1.0, Apply(h, Apply(p, Row(z, h, STATE_DIM))), Apply(r, z))
  }

  lemma {:induction false} InnovationWeighs(h: Matrix, p: Matrix, r: Matrix, z: Vector)
    requires IsMatrix(h, MEASUREMENT_DIM, STATE_DIM) && IsMatrix(p, STATE_DIM, STATE_DIM)
    requires IsMatrix(r, MEASUREMENT_DIM, MEASUREMENT_DIM) && |z| == MEASUREMENT_DIM
    ensures Apply(InnovationCovariance(h, p, r), z) == Weighed(h, p, r, z)
  {
    hide Dot, Apply, Mul, Transpose, Combine, Row, Axpy;
    CombineApplies(1.0, Sandwich(h, p, STATE_DIM), r, MEASUREMENT_DIM, z);
    MulThenApply(Mul(h, p, STATE_DIM), Transpose(h, STATE_DIM), z);
    TransposeApplies(h, STATE_DIM, z);
    MulThenApply(h, p, Row(z, h, STATE_DIM));
  }

  lemma {:induction false} SameWeight(s: Matrix, a: Vector, b: Vector)
    requires |a| == |b| && IsMatrix(s, |a|, |a|) && Linear.Symmetric(s, |a|) && Apply(s, a) == Apply(s, b)
    ensures Quad(s, a) == Dot(b, Apply(s, a))
  {
    hide Dot, Apply;
    SymmetricMoves(s, a, b);
  }

  /** With definite noise an update takes from the variance in direction x the variance its innovation explains:
      for any z with (H P Hᵀ + R) z = H P x, the dot product of z and H P x. */
  lemma {:induction false} UpdatedVariance(tools: Solvers, f: Filter, innovation: Vector, h: Matrix, r: Matrix,
                                           x: Vector, z: Vector)
    requires AreSolvers(tools) && IsFilter(f) && IsCovariance(f.p, STATE_DIM) && |x| == STATE_DIM
    requires |innovation| == MEASUREMENT_DIM && IsMatrix(h, MEASUREMENT_DIM, STATE_DIM)
    requires IsCovariance(r, MEASUREMENT_DIM) && PositiveDefinite(r, MEASUREMENT_DIM) && |z| == MEASUREMENT_DIM
    requires Weighed(h, f.p, r, z) == Apply(h, Apply(f.p, x))
    ensures Quad(Update(tools, f, innovation, h, r).f.p, x) == Quad(f.p, x) - Dot(z, Apply(h, Apply(f.p, x)))
  {
    hide NonNegative, PositiveDefinite, Quad, Update, Gain, Joseph, IsCholesky, IsLdlt, Dot, Apply, Mul,
      InnovationCovariance, Weighed, Row, Left;
    UpdateKeepsCovariance(tools, f, innovation, h, r);
    GainSolves(tools, h, f.p, r);
    var k := Gain(tools, h, f.p, r).value;
    var s, b := InnovationCovariance(h, f.p, r), Row(x, k, MEASUREMENT_DIM);
    InnovationIsCovariance(h, f.p, r);
    JosephLeaves(k, h, f.p, r, x);
    ExactGainLeaves(k, h, f.p, r, x, b);
    GainRow(k, h, f.p, r, x);
    InnovationWeighs(h, f.p, r, z);
    SameWeight(s, b, z);
  }

  /** An exact gain answers H P x in every direction x. */
  lemma {:induction false} GainRow(k: Matrix, h: Matrix, p: Matrix, r: Matrix, x: Vector)
    requires IsMatrix(k, STATE_DIM, MEASUREMENT_DIM) && IsMatrix(h, MEASUREMENT_DIM, STATE_DIM) && |x| == STATE_DIM
    requires IsMatrix(p, STATE_DIM, STATE_DIM) && IsMatrix(r, MEASUREMENT_DIM, MEASUREMENT_DIM)
    requires CovarianceLaws.Solves(k, h, p, r)
    ensures Apply(InnovationCovariance(h, p, r), Row(x, k, MEASUREMENT_DIM)) == Apply(h, Apply(p, x))
  {
    hide Dot, Apply, Mul, InnovationCovariance;
    var s := InnovationCovariance(h, p, r);
    MulThenApply(h, p, x);
    MulThenApply(s, Transpose(k, MEASUREMENT_DIM), x);
    TransposeApplies(k, MEASUREMENT_DIM, x);
  }

  lemma {:induction false} RowOfUnit(i: nat, m: Matrix, cols: nat)
    requires i < STATE_DIM && IsMatrix(m, STATE_DIM, cols)
    ensures Row(Unit(STATE_DIM, i, 1.0), m, cols) == m[i]
  {
    hide Dot;
    var u := Unit(STATE_DIM, i, 1.0);
    forall j | 0 <= j < cols ensures Row(u, m, cols)[j] == m[i][j] {
      DotUnit(STATE_DIM, i, 1.0, Column(m, j));
    }
  }

  lemma {:induction false} ApplyToUnit(p: Matrix, i: nat)
    requires i < STATE_DIM && IsMatrix(p, STATE_DIM, STATE_DIM) && Linear.Symmetric(p, STATE_DIM)
    ensures Apply(p, Unit(STATE_DIM, i, 1.0)) == p[i]
  {
    hide Dot;
    var u := Unit(STATE_DIM, i, 1.0);
    forall j | 0 <= j < STATE_DIM ensures Apply(p, u)[j] == p[i][j] {
      DotSymmetric(p[j], u);
      DotUnit(STATE_DIM, i, 1.0, p[j]);
    }
  }

  /** With definite noise an update moves the state by P Hᵀ z, for any z with (H P Hᵀ + R) z the innovation. */
  lemma {:induction false} UpdatedState(tools: Solvers, f: Filter, innovation: Vector, h: Matrix, r: Matrix, z: Vector)
    requires AreSolvers(tools) && IsFilter(f) && IsCovariance(f.p, STATE_DIM)
    requires |innovation| == MEASUREMENT_DIM && IsMatrix(h, MEASUREMENT_DIM, STATE_DIM)
    requires IsCovariance(r, MEASUREMENT_DIM) && PositiveDefinite(r, MEASUREMENT_DIM) && |z| == MEASUREMENT_DIM
    requires Weighed(h, f.p, r, z) == innovation
    ensures Update(tools, f, innovation, h, r).ok
    ensures Update(tools, f, innovation, h, r).f.x == Axpy(1.0, f.x, Apply(f.p, Row(z, h, STATE_DIM)))
  {
    hide NonNegative, PositiveDefinite, Quad, Update, Gain, Joseph, IsCholesky, IsLdlt, Dot, Mul,
      InnovationCovariance, Weighed, Row, Left, CovarianceLaws.Solves;
    UpdateKeepsCovariance(tools, f, innovation, h, r);
    GainSolves(tools, h, f.p, r);
    InnovationWeighs(h, f.p, r, z);
    var k := Gain(tools, h, f.p, r).value;
    forall i | 0 <= i < STATE_DIM
      ensures Apply(k, innovation)[i] == Apply(f.p, Row(z, h, STATE_DIM))[i]
    {
      GainEntry(k, h, f.p, r, z, i);
    }
    assert Apply(k, innovation) == Apply(f.p, Row(z, h, STATE_DIM));
  }

  lemma {:induction false} GainEntry(k: Matrix, h: Matrix, p: Matrix, r: Matrix, z: Vector, i: nat)
    requires IsMatrix(k, STATE_DIM, MEASUREMENT_DIM) && IsMatrix(h, MEASUREMENT_DIM, STATE_DIM) && i < STATE_DIM
    requires IsCovariance(p, STATE_DIM) && IsCovariance(r, MEASUREMENT_DIM) && |z| == MEASUREMENT_DIM
    requires CovarianceLaws.Solves(k, h, p, r)
    ensures Dot(k[i], Apply(InnovationCovariance(h, p, r), z)) == Dot(p[i], Row(z, h, STATE_DIM))
  {
    hide NonNegative, InnovationCovariance, CovarianceLaws.Solves, Dot, Apply, Row;
    var s, u := InnovationCovariance(h, p, r), Unit(STATE_DIM, i, 1.0);
    InnovationIsCovariance(h, p, r);
    SymmetricMoves(s, k[i], z);
    GainRow(k, h, p, r, u);
    RowOfUnit(i, k, MEASUREMENT_DIM);
    ApplyToUnit(p, i);
    RowThenDot(z, h, p[i]);
    DotSymmetric(Row(z, h, STATE_DIM), p[i]);
  }

  // ---------------------------------------------------------------- repair

  /** r is p made symmetric, with negative diagonal entries raised to zero and s added to the diagonal. */
  ghost predicate RepairedBy(p: Matrix, r: Matrix, n: nat, s: real)
    requires IsMatrix(p, n, n) && IsMatrix(r, n, n)
  {
    forall i, j {:trigger r[i][j]} | 0 <= i < n && 0 <= j < n ::
      r[i][j] == if i != j then 0.5 * (p[i][j] + p[j][i]) else (if p[i][i] < 0.0 then 0.0 else p[i][i]) + s
  }

  lemma {:induction false} FlooredTells(p: Matrix, n: nat, s: real)
    requires IsMatrix(p, n, n)
    ensures RepairedBy(p, Floored(p, n), n, 0.0) && RepairedBy(p, Jittered(Floored(p, n), n, s), n, s)
  {
    hide Symmetrized;
    var f, r := Floored(p, n), Jittered(Floored(p, n), n, s);
    forall i, j | 0 <= i < n && 0 <= j < n
      ensures f[i][j] == if i != j then 0.5 * (p[i][j] + p[j][i]) else if p[i][i] < 0.0 then 0.0 else p[i][i]
      ensures r[i][j] == f[i][j] + if i == j then s else 0.0
    {
      SymmetrizedAt(p, n, i, j);
    }
  }

  lemma {:induction false} SymmetrizedAt(p: Matrix, n: nat, i: nat, j: nat)
    requires IsMatrix(p, n, n) && i < n && j < n
    ensures Symmetrized(p, n)[i][j] == 0.5 * (p[i][j] + p[j][i])
  {
  }

  /** A jitter ten times larger k times over. */
  ghost function Grown(jitter: real, k: nat): real {
    jitter * TenTo(k)
  }

  lemma {:induction false} GrownOnce(jitter: real, k: nat)
    ensures Grown(jitter, k + 1) == Grown(10.0 * jitter, k) && Grown(jitter, 0) == jitter
  {
    assert jitter * (10.0 * TenTo(k)) == (10.0 * jitter) * TenTo(k);
  }

  /** None of the first k jitters makes the base definite. */
  ghost predicate TooSmall(base: Matrix, n: nat, jitter: real, k: nat)
    requires IsMatrix(base, n, n)
  {
    forall j: nat {:trigger Grown(jitter, j)} | j < k :: !DefiniteWith(base, n, 2.0 * Grown(jitter, j))
  }

  lemma {:induction false} TooSmallGrows(base: Matrix, n: nat, jitter: real, k: nat)
    requires IsMatrix(base, n, n) && TooSmall(base, n, 10.0 * jitter, k) && !DefiniteWith(base, n, 2.0 * jitter)
    ensures TooSmall(base, n, jitter, k + 1)
  {
    hide DefiniteWith, Grown;
    forall j: nat | j < k + 1 ensures !DefiniteWith(base, n, 2.0 * Grown(jitter, j)) {
      if j > 0 {
        GrownOnce(jitter, j - 1);
      } else {
        GrownOnce(jitter, 0);
      }
    }
  }

  /** The repair takes the first of the jitters, ten times larger each time, whose double makes the base definite. */
  lemma {:induction false} FirstSaneTells(llt: Matrix -> bool, base: Matrix, n: nat, jitter: real, attempts: nat)
    returns (k: nat)
    requires IsCholesky(llt) && n > 0 && jitter > 0.0
    requires IsMatrix(base, n, n) && Linear.Symmetric(base, n) && NonNegativeDiagonal(base, n)
    requires FirstSane(llt, base, n, jitter, attempts).Some?
    ensures k < attempts && FirstSane(llt, base, n, jitter, attempts) == Some(Jittered(base, n, Grown(jitter, k)))
    ensures DefiniteWith(base, n, 2.0 * Grown(jitter, k)) && TooSmall(base, n, jitter, k)
    decreases attempts
  {
    hide DefiniteWith, Sane, Jittered, Grown, IsCholesky;
    CandidateSaneExactly(llt, base, n, jitter);
    k := 0;
    GrownOnce(jitter, 0);
    if !DefiniteWith(base, n, 2.0 * jitter) {
      k := FirstSaneTells(llt, base, n, 10.0 * jitter, attempts - 1);
      GrownOnce(jitter, k);
      TooSmallGrows(base, n, jitter, k);
      k := k + 1;
    }
  }

  lemma {:induction false} FlooredIsBase(p: Matrix, n: nat)
    requires IsMatrix(p, n, n)
    ensures NonNegativeDiagonal(Floored(p, n), n)
  {
  }

  /** The repair makes a matrix symmetric, raises negative diagonal entries to zero, and adds the least of 1e-6, 1e-5
      and so on up to 10 to the diagonal whose double makes it positive definite. When even 10 is too little the
      caller's matrix is left with nothing added. */
  lemma {:induction false} RepairTells(llt: Matrix -> bool, p: Matrix, n: nat)
    requires IsCholesky(llt) && IsMatrix(p, n, n) && n > 0
    ensures RepairedBy(p, Floored(p, n), n, 0.0)
    ensures match FirstSane(llt, Floored(p, n), n, COVARIANCE_EPSILON, ATTEMPTS)
            case None => !DefiniteWith(Floored(p, n), n, 20.0)
            case Some(r) => exists k: nat :: k < 8 && RepairedBy(p, r, n, Grown(0.000001, k))
                                             && DefiniteWith(Floored(p, n), n, 2.0 * Grown(0.000001, k))
                                             && TooSmall(Floored(p, n), n, 0.000001, k)
  {
    hide DefiniteWith, FirstSane, RepairedBy, Floored, Jittered, IsCholesky, Grown, TooSmall;
    var base := Floored(p, n);
    FlooredTells(p, n, 0.0);
    RepairSucceedsExactly(llt, p, n);
    if FirstSane(llt, base, n, COVARIANCE_EPSILON, ATTEMPTS).Some? {
      FlooredIsBase(p, n);
      var k := FirstSaneTells(llt, base, n, COVARIANCE_EPSILON, ATTEMPTS);
      FlooredTells(p, n, Grown(COVARIANCE_EPSILON, k));
    }
  }

  // ---------------------------------------------------------------- the check

  /** The check of a matrix that is symmetric enough asks for nothing but that the jitter makes it positive definite:
      the test of the diagonal never decides. */
  lemma {:induction false} SaneTells(llt: Matrix -> bool, p: Matrix, n: nat, jitter: real)
    requires IsCholesky(llt) && IsMatrix(p, n, n) && n > 0 && 0.0 < jitter <= 0.000001
    ensures Sane(llt, p, n, jitter) <==> NearlySymmetric(p, n) && DefiniteWith(Symmetrized(p, n), n, jitter)
  {
    hide DefiniteWith, NearlySymmetric, Jittered, Symmetrized, IsCholesky;
    var s := Symmetrized(p, n);
    FactorsTell(llt, p, n, jitter);
    if DefiniteWith(s, n, jitter) {
      forall i | 0 <= i < n ensures p[i][i] >= -0.000001 {
        SymmetrizedAt(p, n, i, i);
        DefiniteDiagonal(s, n, jitter, i);
      }
    }
  }

  lemma {:induction false} FactorsTell(llt: Matrix -> bool, p: Matrix, n: nat, jitter: real)
    requires IsCholesky(llt) && IsMatrix(p, n, n) && n > 0 && jitter > 0.0
    ensures Factors(llt, p, n, jitter) <==> DefiniteWith(Symmetrized(p, n), n, jitter)
  {
    hide Jittered, Symmetrized, IsCholesky, DefiniteWith;
    var s := Symmetrized(p, n);
    CholeskyOfJittered(llt, s, n, jitter);
    CholeskyAlone(llt, s, n);
    if DefiniteWith(s, n, 0.0) {
      DefiniteGrows(s, n, 0.0, jitter);
    }
  }

  lemma {:induction false} CholeskyAlone(llt: Matrix -> bool, s: Matrix, n: nat)
    requires IsCholesky(llt) && IsMatrix(s, n, n) && Linear.Symmetric(s, n)
    ensures llt(s) <==> DefiniteWith(s, n, 0.0)
  {
    hide Quad;
  }

  lemma {:induction false} DefiniteDiagonal(s: Matrix, n: nat, jitter: real, i: nat)
    requires IsMatrix(s, n, n) && i < n && DefiniteWith(s, n, jitter)
    ensures s[i][i] + jitter > 0.0
  {
    hide Quad;
    var e := Unit(n, i, 1.0);
    QuadOfUnit(s, n, i);
    DotUnit(n, i, 1.0, e);
    assert e[i] == 1.0 && Zero(n)[i] == 0.0;
    assert Quad(s, e) + Times(jitter, Dot(e, e)) > 0.0;
  }

  /** Symmetric enough, for two states: twice the squared difference of the off-diagonal entries is at most 1e-12 times
      the sum of all squares, or times 1 when that is more. */
  lemma {:induction false} NearlySymmetricTells(a: real, b: real, c: real, d: real)
    ensures var all := a * a + b * b + c * c + d * d;
            NearlySymmetric([[a, b], [c, d]], 2) <==>
            2.0 * ((b - c) * (b - c)) <= 0.000001 * 0.000001 * (if all > 1.0 then all else 1.0)
  {
    var p := [[a, b], [c, d]];
    var q := Combine(-1.0, Transpose(p, 2), p, 2, 2);
    OppositesOfTwo(a, b, c, d);
    NormOfTwo(a, b, c, d);
    NormOfTwo(0.0, b - c, c - b, 0.0);
    assert (c - b) * (c - b) == (b - c) * (b - c);
    hide NormSquared, Combine, Transpose;
  }

  lemma {:induction false} OppositesOfTwo(a: real, b: real, c: real, d: real)
    ensures var p := [[a, b], [c, d]];
            Combine(-1.0, Transpose(p, 2), p, 2, 2) == [[0.0, b - c], [c - b, 0.0]]
  {
    var p := [[a, b], [c, d]];
    var q, r := Combine(-1.0, Transpose(p, 2), p, 2, 2), [[0.0, b - c], [c - b, 0.0]];
    forall i, j | 0 <= i < 2 && 0 <= j < 2 ensures q[i][j] == r[i][j] {
    }
    assert q[0] == r[0] && q[1] == r[1];
  }

  lemma {:induction false} NormOfTwo(a: real, b: real, c: real, d: real)
    ensures NormSquared([[a, b], [c, d]]) == a * a + b * b + c * c + d * d
  {
    var p, rest := [[a, b], [c, d]], [[c, d]];
    assert p[1..] == rest && rest[1..] == [];
    DotOfTwo(a, b);
    DotOfTwo(c, d);
    hide Dot;
    assert NormSquared(rest) == Dot(rest[0], rest[0]) + NormSquared(rest[1..]);
    assert NormSquared(p) == Dot(p[0], p[0]) + NormSquared(p[1..]);
  }

  lemma {:induction false} DotOfTwo(a: real, b: real)
    ensures Dot([a, b], [a, b]) == a * a + b * b
  {
    var x, y := [a, b], [b];
    assert x[1..] == y && y[1..] == [];
    assert Dot(y, y) == Times(b, b) + Dot(y[1..], y[1..]);
    assert Dot(x, x) == Times(a, a) + Dot(x[1..], x[1..]);
  }

  // ---------------------------------------------------------------- carried out or skipped

  /** The filter keeps its estimate and counts one more operation skipped. */
  ghost predicate IsSkipped(f: Filter, r: Filter) {
    r.x == f.x && r.p == f.p && r.initialized == f.initialized && r.skipped == f.skipped + 1
  }

  /** From any covariance, sound or not: a prediction is skipped, and then changes no estimate, or moves the state.
      It counts at most one repair before and one after. */
  lemma {:induction false} PredictOrSkip(llt: Matrix -> bool, f: Filter, dt: real)
    requires IsFilter(f) && f.initialized
    ensures var r := Predict(llt, f, dt);
            && (IsSkipped(f, r) || (dt >= 0.0 && r.x == Moved(f.x, dt) && r.initialized && r.skipped == f.skipped))
            && f.stabilized <= r.stabilized <= f.stabilized + 2 && (dt < 0.0 ==> r.stabilized == f.stabilized)
  {
    MovedIs(f.x, dt);
    hide Check, PredictedCovariance, Transition, Apply, Symmetrized, Moved;
  }

  /** An update is reported as done exactly when it is not skipped, and a skipped one changes no estimate. */
  lemma {:induction false} UpdateOrSkip(tools: Solvers, f: Filter, innovation: Vector, h: Matrix, r: Matrix)
    requires IsFilter(f) && |innovation| == MEASUREMENT_DIM
    requires IsMatrix(h, MEASUREMENT_DIM, STATE_DIM) && IsMatrix(r, MEASUREMENT_DIM, MEASUREMENT_DIM)
    ensures var u := Update(tools, f, innovation, h, r);
            && (if u.ok then u.f.skipped == f.skipped && u.f.initialized == f.initialized else IsSkipped(f, u.f))
            && f.stabilized <= u.f.stabilized <= f.stabilized + 2
  {
    hide Check, Joseph, Gain, Apply, Axpy, Symmetrized;
  }
}
