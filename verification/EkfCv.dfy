/** The covariance of the constant-velocity filter (src/fusion_core/ekf_cv.cpp, src/common/covariance_checks.cpp)
    in exact arithmetic: prediction, Joseph-form update, and the repair of unsound covariances. */
module Ekf {
  import opened Basics
  import opened Linear

  const STATE_DIM := 6
  const MEASUREMENT_DIM := 2
  const TOLERANCE := 0.000001
  const SANITY_JITTER := 0.000000001
  const COVARIANCE_EPSILON := 0.000001
  const ATTEMPTS := 8

  // ---------------------------------------------------------------- the library's factorisations

  ghost predicate PositiveDefinite(p: Matrix, n: nat)
    requires IsMatrix(p, n, n)
  {
    forall x: Vector {:trigger Quad(p, x)} | |x| == n && x != Zero(n) :: Quad(p, x) > 0.0
  }

  /** The Cholesky success flag, and the solution of s x = b when s is accepted as positive semidefinite. */
  datatype Solvers = Solvers(llt: Matrix -> bool, ldlt: (Matrix, Matrix) -> Option<Matrix>)

  ghost predicate IsCholesky(llt: Matrix -> bool) {
    forall p: Matrix, n: nat {:trigger llt(p), IsMatrix(p, n, n)} |
      IsMatrix(p, n, n) && Linear.Symmetric(p, n) :: llt(p) <==> PositiveDefinite(p, n)
  }

  ghost predicate IsLdlt(ldlt: (Matrix, Matrix) -> Option<Matrix>) {
    forall s: Matrix, b: Matrix {:trigger ldlt(s, b)} |
      IsMatrix(s, MEASUREMENT_DIM, MEASUREMENT_DIM) && IsMatrix(b, MEASUREMENT_DIM, STATE_DIM) ::
      && (ldlt(s, b).Some? <==> IsCovariance(s, MEASUREMENT_DIM))
      && (ldlt(s, b).Some? ==>
            && IsMatrix(ldlt(s, b).value, MEASUREMENT_DIM, STATE_DIM)
            && (PositiveDefinite(s, MEASUREMENT_DIM) ==> Mul(s, ldlt(s, b).value, STATE_DIM) == b))
  }

  ghost predicate AreSolvers(tools: Solvers) {
    IsCholesky(tools.llt) && IsLdlt(tools.ldlt)
  }

  // ---------------------------------------------------------------- covariance checks

  /** Half the sum of p and its transpose. */
  function Symmetrized(p: Matrix, n: nat): (r: Matrix)
    requires IsMatrix(p, n, n)
    ensures IsMatrix(r, n, n) && Linear.Symmetric(r, n)
  {
    seq(n, i requires 0 <= i < n => seq(n, j requires 0 <= j < n => 0.5 * (p[i][j] + p[j][i])))
  }

  function NormSquared(p: Matrix): real {
    if p == [] then 0.0 else Dot(p[0], p[0]) + NormSquared(p[1..])
  }

  function Jittered(p: Matrix, n: nat, jitter: real): (r: Matrix)
    requires IsMatrix(p, n, n)
    ensures IsMatrix(r, n, n)
  {
    Combine(1.0, p, Diagonal(n, jitter), n, n)
  }

  predicate NearlySymmetric(p: Matrix, n: nat)
    requires IsMatrix(p, n, n)
  {
    NormSquared(Combine(-1.0, Transpose(p, n), p, n, n)) <= TOLERANCE * TOLERANCE * MaxReal(1.0, NormSquared(p))
  }

  predicate Factors(llt: Matrix -> bool, p: Matrix, n: nat, jitter: real)
    requires IsMatrix(p, n, n)
  {
    || llt(Symmetrized(p, n))
    || (jitter > 0.0 && llt(Jittered(Symmetrized(p, n), n, jitter)))
  }

  predicate Sane(llt: Matrix -> bool, p: Matrix, n: nat, jitter: real)
    requires IsMatrix(p, n, n)
  {
    && n != 0
    && NearlySymmetric(p, n)
    && (forall i | 0 <= i < n :: p[i][i] >= -TOLERANCE)
    && Factors(llt, p, n, jitter)
  }

  method CovarianceSane(llt: Matrix -> bool, p: Matrix, n: nat, jitter: real) returns (sane: bool)
    requires IsMatrix(p, n, n)
    ensures sane == Sane(llt, p, n, jitter)
  {
    hide NearlySymmetric, Factors;
    if n == 0 || !NearlySymmetric(p, n) {
      return false;
    }
    for i := 0 to n
      invariant forall k | 0 <= k < i :: p[k][k] >= -TOLERANCE
    {
      if p[i][i] < -TOLERANCE {
        return false;
      }
    }
    return Factors(llt, p, n, jitter);
  }

  /** Symmetrised, with negative diagonal entries raised to zero. */
  function Floored(p: Matrix, n: nat): (r: Matrix)
    requires IsMatrix(p, n, n)
    ensures IsMatrix(r, n, n) && Linear.Symmetric(r, n)
  {
    var s := Symmetrized(p, n);
    seq(n, i requires 0 <= i < n => seq(n, j requires 0 <= j < n => if i == j then MaxReal(s[i][j], 0.0) else s[i][j]))
  }

  /** The first of the growing jitters that makes the matrix sane. */
  function FirstSane(llt: Matrix -> bool, base: Matrix, n: nat, jitter: real, attempts: nat): (r: Option<Matrix>)
    requires IsMatrix(base, n, n)
    ensures r.Some? ==> IsMatrix(r.value, n, n)
    decreases attempts
  {
    if attempts == 0 then None
    else if Sane(llt, Jittered(base, n, jitter), n, jitter) then Some(Jittered(base, n, jitter))
    else FirstSane(llt, base, n, 10.0 * jitter, attempts - 1)
  }

  /** The repair loop; on failure the caller's matrix is left symmetrised and floored. */
  method StabilizeCovariance(llt: Matrix -> bool, p: Matrix, n: nat) returns (ok: bool, out: Matrix)
    requires IsMatrix(p, n, n) && n != 0
    ensures var r := FirstSane(llt, Floored(p, n), n, COVARIANCE_EPSILON, ATTEMPTS);
            ok == r.Some? && out == if r.Some? then r.value else Floored(p, n)
  {
    hide Sane, Jittered, Combine;
    out := Symmetrized(p, n);
    ghost var s := out;
    for i := 0 to n
      invariant IsMatrix(out, n, n)
      invariant forall a, b | 0 <= a < n && 0 <= b < n ::
                  out[a][b] == if a == b && a < i then MaxReal(s[a][b], 0.0) else s[a][b]
    {
      if out[i][i] < 0.0 {
        out := out[i := out[i][i := 0.0]];
      }
    }
    assert out == Floored(p, n) by {
      forall a | 0 <= a < n ensures out[a] == Floored(p, n)[a] {
      }
    }
    var base := out;
    var jitter := COVARIANCE_EPSILON;
    for attempt := 0 to ATTEMPTS
      invariant out == base && IsMatrix(base, n, n)
      invariant FirstSane(llt, base, n, COVARIANCE_EPSILON, ATTEMPTS) ==
                FirstSane(llt, base, n, jitter, ATTEMPTS - attempt)
    {
      var candidate := Jittered(base, n, jitter);
      var sane := CovarianceSane(llt, candidate, n, jitter);
      if sane {
        return true, candidate;
      }
      jitter := jitter * 10.0;
    }
    return false, base;
  }

  // ---------------------------------------------------------------- what the checks accept

  lemma {:induction false} DotPositive(x: Vector)
    requires x != Zero(|x|)
    ensures Dot(x, x) > 0.0
  {
    if x == [] {
      assert false;
    } else {
      DotSelf(x[1..]);
      if x[0] == 0.0 {
        assert x == [x[0]] + x[1..];
        assert Zero(|x|) == [0.0] + Zero(|x| - 1);
        DotPositive(x[1..]);
      } else {
        SquarePositive(x[0]);
      }
    }
  }

  lemma {:induction false} ProductPositive(a: real, b: real)
    requires a > 0.0 && b > 0.0
    ensures Times(a, b) > 0.0
  {
  }

  lemma {:induction false} SquareOfOpposite(a: real)
    ensures Times(a, a) == Times(-a, -a)
  {
  }

  lemma {:induction false} SquarePositive(a: real)
    requires a != 0.0
    ensures Times(a, a) > 0.0
  {
    hide Times;
    if a > 0.0 {
      ProductPositive(a, a);
    } else {
      SquareOfOpposite(a);
      ProductPositive(-a, -a);
    }
  }

  lemma {:induction false} NormIsNonNegative(p: Matrix)
    ensures NormSquared(p) >= 0.0
  {
    if p != [] {
      DotSelf(p[0]);
      NormIsNonNegative(p[1..]);
    }
  }

  lemma {:induction false} NormOfZeros(p: Matrix, n: nat)
    requires forall i | 0 <= i < |p| :: p[i] == Zero(n)
    ensures NormSquared(p) == 0.0
  {
    if p != [] {
      DotZero(n, p[0]);
      NormOfZeros(p[1..], n);
    }
  }

  lemma {:induction false} SymmetricIsNear(p: Matrix, n: nat)
    requires IsMatrix(p, n, n) && Linear.Symmetric(p, n)
    ensures NearlySymmetric(p, n) && Symmetrized(p, n) == p
  {
    var d := Combine(-1.0, Transpose(p, n), p, n, n);
    forall i | 0 <= i < n ensures d[i] == Zero(n) {
      forall j | 0 <= j < n ensures d[i][j] == 0.0 {
        assert d[i][j] == Times(-1.0, p[j][i]) + p[i][j];
      }
    }
    NormOfZeros(d, n);
    NormIsNonNegative(p);
    forall i | 0 <= i < n ensures Symmetrized(p, n)[i] == p[i] {
    }
  }

  lemma {:induction false} QuadOfUnit(p: Matrix, n: nat, i: nat)
    requires IsMatrix(p, n, n) && i < n
    ensures Quad(p, Unit(n, i, 1.0)) == p[i][i]
  {
    var e := Unit(n, i, 1.0);
    DotUnit(n, i, 1.0, Apply(p, e));
    DotSymmetric(p[i], e);
    DotUnit(n, i, 1.0, p[i]);
  }

  lemma {:induction false} QuadOfJittered(p: Matrix, n: nat, jitter: real, x: Vector)
    requires IsMatrix(p, n, n) && |x| == n
    ensures Quad(Jittered(p, n, jitter), x) == Quad(p, x) + Times(jitter, Dot(x, x))
  {
    hide Quad;
    QuadOfCombine(1.0, p, Diagonal(n, jitter), x);
    QuadOfDiagonal(jitter, x);
  }

  lemma {:induction false} JitteredSymmetric(p: Matrix, n: nat, jitter: real)
    requires IsMatrix(p, n, n) && Linear.Symmetric(p, n)
    ensures Linear.Symmetric(Jittered(p, n, jitter), n)
  {
  }

  /** Every covariance passes the check: in exact arithmetic nothing sound is ever repaired. */
  lemma {:induction false} CovarianceIsSane(llt: Matrix -> bool, p: Matrix, n: nat, jitter: real)
    requires IsCholesky(llt) && n > 0 && IsCovariance(p, n) && jitter > 0.0
    ensures Sane(llt, p, n, jitter) && Symmetrized(p, n) == p
  {
    hide Quad;
    SymmetricIsNear(p, n);
    forall i | 0 <= i < n ensures p[i][i] >= -TOLERANCE {
      QuadOfUnit(p, n, i);
    }
    var q := Jittered(p, n, jitter);
    JitteredSymmetric(p, n, jitter);
    forall x: Vector | |x| == n && x != Zero(n) ensures Quad(q, x) > 0.0 {
      QuadOfJittered(p, n, jitter, x);
      DotPositive(x);
      assert Times(jitter, Dot(x, x)) > 0.0;
    }
    assert llt(q) <==> PositiveDefinite(q, n);
  }

  /** Adding c times the identity makes p positive definite. */
  ghost predicate DefiniteWith(p: Matrix, n: nat, c: real)
    requires IsMatrix(p, n, n)
  {
    forall x: Vector {:trigger Quad(p, x)} | |x| == n && x != Zero(n) :: Quad(p, x) + Times(c, Dot(x, x)) > 0.0
  }

  lemma {:induction false} DefiniteGrows(p: Matrix, n: nat, c: real, d: real)
    requires IsMatrix(p, n, n) && c <= d && DefiniteWith(p, n, c)
    ensures DefiniteWith(p, n, d)
  {
    hide Quad;
    forall x: Vector | |x| == n && x != Zero(n) ensures Quad(p, x) + Times(d, Dot(x, x)) > 0.0 {
      DotSelf(x);
      TimesGrows(c, d, Dot(x, x));
    }
  }

  lemma {:induction false} TimesGrows(c: real, d: real, y: real)
    requires c <= d && y >= 0.0
    ensures Times(c, y) <= Times(d, y)
  {
  }

  lemma {:induction false} CholeskyOfJittered(llt: Matrix -> bool, p: Matrix, n: nat, c: real)
    requires IsCholesky(llt) && IsMatrix(p, n, n) && Linear.Symmetric(p, n)
    ensures llt(Jittered(p, n, c)) <==> DefiniteWith(p, n, c)
  {
    hide Quad, Times;
    JitteredSymmetric(p, n, c);
    forall x: Vector | |x| == n ensures Quad(Jittered(p, n, c), x) == Quad(p, x) + Times(c, Dot(x, x)) {
      QuadOfJittered(p, n, c, x);
    }
  }

  lemma {:induction false} JitteredTwice(p: Matrix, n: nat, c: real)
    requires IsMatrix(p, n, n)
    ensures Jittered(Jittered(p, n, c), n, c) == Jittered(p, n, 2.0 * c)
  {
    var a, b := Jittered(Jittered(p, n, c), n, c), Jittered(p, n, 2.0 * c);
    forall i | 0 <= i < n ensures a[i] == b[i] {
    }
  }

  ghost predicate NonNegativeDiagonal(p: Matrix, n: nat)
    requires IsMatrix(p, n, n)
  {
    forall i | 0 <= i < n :: p[i][i] >= 0.0
  }

  /** A candidate of the repair is sane exactly when twice its jitter makes the base positive definite. */
  lemma {:induction false} CandidateSaneExactly(llt: Matrix -> bool, base: Matrix, n: nat, jitter: real)
    requires IsCholesky(llt) && n > 0 && jitter > 0.0
    requires IsMatrix(base, n, n) && Linear.Symmetric(base, n) && NonNegativeDiagonal(base, n)
    ensures Sane(llt, Jittered(base, n, jitter), n, jitter) <==> DefiniteWith(base, n, 2.0 * jitter)
  {
    hide DefiniteWith, NearlySymmetric, Jittered, Factors;
    var q := Jittered(base, n, jitter);
    JitteredSymmetric(base, n, jitter);
    SymmetricIsNear(q, n);
    JitteredDiagonal(base, n, jitter);
    FactorsExactly(llt, base, n, jitter);
  }

  lemma {:induction false} JitteredDiagonal(base: Matrix, n: nat, jitter: real)
    requires IsMatrix(base, n, n) && NonNegativeDiagonal(base, n) && jitter > 0.0
    ensures forall i | 0 <= i < n :: Jittered(base, n, jitter)[i][i] >= -TOLERANCE
  {
  }

  lemma {:induction false} FactorsExactly(llt: Matrix -> bool, base: Matrix, n: nat, jitter: real)
    requires IsCholesky(llt) && n > 0 && jitter > 0.0
    requires IsMatrix(base, n, n) && Linear.Symmetric(base, n)
    ensures Factors(llt, Jittered(base, n, jitter), n, jitter) <==> DefiniteWith(base, n, 2.0 * jitter)
  {
    hide DefiniteWith, NearlySymmetric, Jittered, IsCholesky;
    var q := Jittered(base, n, jitter);
    JitteredSymmetric(base, n, jitter);
    SymmetricIsNear(q, n);
    JitteredTwice(base, n, jitter);
    CholeskyOfJittered(llt, base, n, jitter);
    CholeskyOfJittered(llt, base, n, 2.0 * jitter);
    if DefiniteWith(base, n, jitter) {
      DefiniteGrows(base, n, jitter, 2.0 * jitter);
    }
  }

  function TenTo(k: nat): real {
    if k == 0 then 1.0 else 10.0 * TenTo(k - 1)
  }

  /** The repair loop succeeds exactly when its last candidate would. */
  lemma {:induction false} FirstSaneExactly(llt: Matrix -> bool, base: Matrix, n: nat, jitter: real, attempts: nat,
                                            last: real)
    requires IsCholesky(llt) && n > 0 && jitter > 0.0 && attempts > 0
    requires IsMatrix(base, n, n) && Linear.Symmetric(base, n) && NonNegativeDiagonal(base, n)
    requires last == 2.0 * jitter * TenTo(attempts - 1)
    ensures FirstSane(llt, base, n, jitter, attempts).Some? <==> DefiniteWith(base, n, last)
    decreases attempts
  {
    hide DefiniteWith, Sane, Jittered;
    CandidateSaneExactly(llt, base, n, jitter);
    if attempts > 1 {
      TenTimes(jitter, attempts - 1);
      FirstSaneExactly(llt, base, n, 10.0 * jitter, attempts - 1, last);
      if DefiniteWith(base, n, 2.0 * jitter) {
        DefiniteGrows(base, n, 2.0 * jitter, last);
      }
    }
  }

  lemma {:induction false} TenTimes(jitter: real, k: nat)
    requires jitter > 0.0 && k > 0
    ensures 2.0 * (10.0 * jitter) * TenTo(k - 1) == 2.0 * jitter * TenTo(k)
    ensures 2.0 * jitter <= 2.0 * jitter * TenTo(k)
  {
    TenToIsAtLeastOne(k);
    assert (2.0 * jitter) * 1.0 <= (2.0 * jitter) * TenTo(k);
  }

  lemma {:induction false} TenToIsAtLeastOne(k: nat)
    ensures TenTo(k) >= 1.0
  {
    if k > 0 {
      TenToIsAtLeastOne(k - 1);
    }
  }

  /** The repair of any matrix succeeds exactly when 20 times the identity makes its symmetrised, floored form
      positive definite: eight attempts from 1e-6 reach a jitter of 10, checked with as much again. */
  lemma {:induction false} RepairSucceedsExactly(llt: Matrix -> bool, p: Matrix, n: nat)
    requires IsCholesky(llt) && IsMatrix(p, n, n) && n > 0
    ensures FirstSane(llt, Floored(p, n), n, COVARIANCE_EPSILON, ATTEMPTS).Some? <==>
            DefiniteWith(Floored(p, n), n, 20.0)
  {
    hide DefiniteWith, FirstSane;
    assert TenTo(7) == 10000000.0 by {
      assert TenTo(3) == 1000.0;
      assert TenTo(5) == 100000.0;
    }
    FirstSaneExactly(llt, Floored(p, n), n, COVARIANCE_EPSILON, ATTEMPTS, 20.0);
  }

  // ---------------------------------------------------------------- predict and update

  /** The filter's fields, with the metrics it counts. */
  datatype Filter = Filter(initialized: bool, x: Vector, p: Matrix, stabilized: nat, skipped: nat)

  predicate IsFilter(f: Filter) {
    |f.x| == STATE_DIM && IsMatrix(f.p, STATE_DIM, STATE_DIM)
  }

  /** A covariance as is when sane, else repaired; None when the repair fails. */
  datatype Checked = Checked(p: Option<Matrix>, repaired: bool)

  function Check(llt: Matrix -> bool, p: Matrix): (r: Checked)
    requires IsMatrix(p, STATE_DIM, STATE_DIM)
    ensures r.p.Some? ==> IsMatrix(r.p.value, STATE_DIM, STATE_DIM)
    ensures r.repaired ==> r.p.Some?
  {
    if Sane(llt, p, STATE_DIM, SANITY_JITTER) then Checked(Some(p), false)
    else
      var r := FirstSane(llt, Floored(p, STATE_DIM), STATE_DIM, COVARIANCE_EPSILON, ATTEMPTS);
      Checked(r, r.Some?)
  }

  /** The constant-velocity transition: the identity with dt from each velocity to its position. */
  function Transition(dt: real): (r: Matrix)
    ensures IsMatrix(r, STATE_DIM, STATE_DIM)
  {
    seq(STATE_DIM, i requires 0 <= i < STATE_DIM =>
      seq(STATE_DIM, j => if i == j then 1.0 else if j == i + 3 then dt else 0.0))
  }

  function PredictedCovariance(prior: Matrix, dt: real): (r: Matrix)
    requires IsMatrix(prior, STATE_DIM, STATE_DIM)
    ensures IsMatrix(r, STATE_DIM, STATE_DIM)
  {
    Combine(1.0, Sandwich(Transition(dt), prior, STATE_DIM), Diagonal(STATE_DIM, dt), STATE_DIM, STATE_DIM)
  }

  /** H P Hᵀ + R. */
  function InnovationCovariance(h: Matrix, prior: Matrix, r: Matrix): (s: Matrix)
    requires IsMatrix(h, MEASUREMENT_DIM, STATE_DIM) && IsMatrix(prior, STATE_DIM, STATE_DIM)
    requires IsMatrix(r, MEASUREMENT_DIM, MEASUREMENT_DIM)
    ensures IsMatrix(s, MEASUREMENT_DIM, MEASUREMENT_DIM)
  {
    Combine(1.0, Sandwich(h, prior, STATE_DIM), r, MEASUREMENT_DIM, MEASUREMENT_DIM)
  }

  function Residual(k: Matrix, h: Matrix): (r: Matrix)
    requires IsMatrix(k, STATE_DIM, MEASUREMENT_DIM) && IsMatrix(h, MEASUREMENT_DIM, STATE_DIM)
    ensures IsMatrix(r, STATE_DIM, STATE_DIM)
  {
    Combine(-1.0, Mul(k, h, STATE_DIM), Diagonal(STATE_DIM, 1.0), STATE_DIM, STATE_DIM)
  }

  /** (I - K H) P (I - K H)ᵀ + K R Kᵀ. */
  function Joseph(k: Matrix, h: Matrix, prior: Matrix, r: Matrix): (p: Matrix)
    requires IsMatrix(k, STATE_DIM, MEASUREMENT_DIM) && IsMatrix(h, MEASUREMENT_DIM, STATE_DIM)
    requires IsMatrix(prior, STATE_DIM, STATE_DIM) && IsMatrix(r, MEASUREMENT_DIM, MEASUREMENT_DIM)
    ensures IsMatrix(p, STATE_DIM, STATE_DIM)
  {
    Combine(1.0, Sandwich(Residual(k, h), prior, STATE_DIM), Sandwich(k, r, MEASUREMENT_DIM), STATE_DIM, STATE_DIM)
  }

  function CrossTransposed(h: Matrix, prior: Matrix): (b: Matrix)
    requires IsMatrix(h, MEASUREMENT_DIM, STATE_DIM) && IsMatrix(prior, STATE_DIM, STATE_DIM)
    ensures IsMatrix(b, MEASUREMENT_DIM, STATE_DIM)
  {
    Transpose(Mul(prior, Transpose(h, STATE_DIM), MEASUREMENT_DIM), MEASUREMENT_DIM)
  }

  /** The gain the solver gives, or None when the innovation covariance is rejected. */
  function Gain(tools: Solvers, h: Matrix, prior: Matrix, r: Matrix): (k: Option<Matrix>)
    requires IsMatrix(h, MEASUREMENT_DIM, STATE_DIM) && IsMatrix(prior, STATE_DIM, STATE_DIM)
    requires IsMatrix(r, MEASUREMENT_DIM, MEASUREMENT_DIM)
    ensures k.Some? ==> IsMatrix(k.value, STATE_DIM, MEASUREMENT_DIM)
  {
    var s := Symmetrized(InnovationCovariance(h, prior, r), MEASUREMENT_DIM);
    var solved := tools.ldlt(s, CrossTransposed(h, prior));
    if solved.Some? && IsMatrix(solved.value, MEASUREMENT_DIM, STATE_DIM) then Some(Transpose(solved.value, STATE_DIM))
       else None
  }

  function Counted(f: Filter, c: Checked): Filter {
    if c.repaired then f.(stabilized := f.stabilized + 1) else f
  }

  function Skipped(f: Filter): Filter {
    f.(skipped := f.skipped + 1)
  }

  function Predict(llt: Matrix -> bool, f: Filter, dt: real): (r: Filter)
    requires IsFilter(f)
    ensures IsFilter(r)
  {
    if !f.initialized then f
    else if dt < 0.0 then Skipped(f)
    else
      var prior := Check(llt, f.p);
      if prior.p.None? then Skipped(f)
      else
        var g := Counted(f, prior);
        var next := Check(llt, PredictedCovariance(Symmetrized(prior.p.value, STATE_DIM), dt));
        if next.p.None? then Skipped(g)
        else Counted(g, next).(x := Apply(Transition(dt), f.x), p := next.p.value)
  }

  datatype Updated = Updated(f: Filter, ok: bool)

  function Update(tools: Solvers, f: Filter, innovation: Vector, h: Matrix, r: Matrix): (u: Updated)
    requires IsFilter(f) && |innovation| == MEASUREMENT_DIM
    requires IsMatrix(h, MEASUREMENT_DIM, STATE_DIM) && IsMatrix(r, MEASUREMENT_DIM, MEASUREMENT_DIM)
    ensures IsFilter(u.f)
  {
    var checked := Check(tools.llt, f.p);
    if checked.p.None? then Updated(Skipped(f), false)
    else
      var g := Counted(f, checked);
      var prior := Symmetrized(checked.p.value, STATE_DIM);
      var k := Gain(tools, h, prior, r);
      if k.None? then Updated(Skipped(g), false)
      else
        var next := Check(tools.llt, Joseph(k.value, h, prior, r));
        if next.p.None? then Updated(Skipped(g), false)
        else Updated(Counted(g, next).(x := Axpy(1.0, f.x, Apply(k.value, innovation)), p := next.p.value), true)
  }

  class EkfCv {
    const tools: Solvers
    var x: Vector
    var p: Matrix
    var initialized: bool
    var stabilized: nat
    var skipped: nat

    predicate Valid()
      reads this
    {
      IsFilter(Contents())
    }

    function Contents(): Filter
      reads this
    {
      Filter(initialized, x, p, stabilized, skipped)
    }

    constructor (tools: Solvers)
      ensures Valid() && this.tools == tools
      ensures Contents() == Filter(false, Zero(STATE_DIM), Diagonal(STATE_DIM, 1.0), 0, 0)
    {
      this.tools := tools;
      x, p := Zero(STATE_DIM), Diagonal(STATE_DIM, 1.0);
      initialized, stabilized, skipped := false, 0, 0;
    }

    /** False where the source throws on a wrong shape. */
    method Initialize(x0: Vector, p0: Matrix) returns (ok: bool)
      requires Valid()
      modifies this
      ensures Valid()
      ensures ok <==> |x0| == STATE_DIM && IsMatrix(p0, STATE_DIM, STATE_DIM)
      ensures !ok ==> Contents() == old(Contents())
      ensures ok ==>
                var c := Check(tools.llt, p0);
                Contents() == Counted(Filter(true, x0, if c.p.Some? then c.p.value else Floored(p0, STATE_DIM),
                                             old(stabilized), old(skipped)), c)
    {
      if |x0| != STATE_DIM || !IsMatrix(p0, STATE_DIM, STATE_DIM) {
        return false;
      }
      x, p, initialized := x0, p0, true;
      var sane := CovarianceSane(tools.llt, p, STATE_DIM, SANITY_JITTER);
      if !sane {
        var repaired, out := StabilizeCovariance(tools.llt, p, STATE_DIM);
        p := out;
        if repaired {
          stabilized := stabilized + 1;
        }
      }
      return true;
    }

    /** The check both operations make of a covariance. */
    method CheckCovariance(m: Matrix) returns (checked: Option<Matrix>)
      requires IsMatrix(m, STATE_DIM, STATE_DIM)
      modifies this`stabilized
      ensures checked == Check(tools.llt, m).p
      ensures stabilized == if Check(tools.llt, m).repaired then old(stabilized) + 1 else old(stabilized)
    {
      var sane := CovarianceSane(tools.llt, m, STATE_DIM, SANITY_JITTER);
      if sane {
        return Some(m);
      }
      var repaired, out := StabilizeCovariance(tools.llt, m, STATE_DIM);
      if !repaired {
        return None;
      }
      stabilized := stabilized + 1;
      return Some(out);
    }

    method PredictBy(dt: real)
      requires Valid()
      modifies this
      ensures Valid() && Contents() == Predict(tools.llt, old(Contents()), dt)
    {
      hide Check, PredictedCovariance, Symmetrized, Apply, Transition;
      if !initialized {
        return;
      }
      if dt < 0.0 {
        skipped := skipped + 1;
        return;
      }
      var prior := CheckCovariance(p);
      if prior.None? {
        skipped := skipped + 1;
        return;
      }
      var predicted := PredictedCovariance(Symmetrized(prior.value, STATE_DIM), dt);
      var next := CheckCovariance(predicted);
      if next.None? {
        skipped := skipped + 1;
        return;
      }
      x := Apply(Transition(dt), x);
      p := next.value;
    }

    method ApplyMeasurementUpdate(innovation: Vector, h: Matrix, r: Matrix) returns (ok: bool)
      requires Valid() && |innovation| == MEASUREMENT_DIM
      requires IsMatrix(h, MEASUREMENT_DIM, STATE_DIM) && IsMatrix(r, MEASUREMENT_DIM, MEASUREMENT_DIM)
      modifies this
      ensures Valid() && Updated(Contents(), ok) == Update(tools, old(Contents()), innovation, h, r)
    {
      hide Check, Joseph, Gain, Symmetrized, Apply, Axpy;
      var checked := CheckCovariance(p);
      if checked.None? {
        skipped := skipped + 1;
        return false;
      }
      var prior := Symmetrized(checked.value, STATE_DIM);
      var k := Gain(tools, h, prior, r);
      if k.None? {
        skipped := skipped + 1;
        return false;
      }
      var next := CheckCovariance(Joseph(k.value, h, prior, r));
      if next.None? {
        skipped := skipped + 1;
        return false;
      }
      x := Axpy(1.0, x, Apply(k.value, innovation));
      p := next.value;
      return true;
    }
  }
}
