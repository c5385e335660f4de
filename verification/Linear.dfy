/** Vectors and matrices of reals as row sequences, and the identities the covariance proofs rest on. */
module Linear {
  import opened Basics

  type Vector = seq<real>

  predicate IsMatrix(m: Matrix, rows: nat, cols: nat) {
    |m| == rows && forall i | 0 <= i < rows :: |m[i]| == cols
  }

  /** Multiplication under a name, so that most proofs can leave it uninterpreted. */
  function Times(a: real, b: real): real {
    a * b
  }

  function Dot(a: Vector, b: Vector): real
    requires |a| == |b|
  {
    if a == [] then 0.0 else Times(a[0], b[0]) + Dot(a[1..], b[1..])
  }

  /** s * a + b. */
  function Axpy(s: real, a: Vector, b: Vector): (r: Vector)
    requires |a| == |b|
    ensures |r| == |a|
  {
    seq(|a|, i requires 0 <= i < |a| => Times(s, a[i]) + b[i])
  }

  function Column(m: Matrix, j: nat): (r: Vector)
    requires forall i | 0 <= i < |m| :: j < |m[i]|
    ensures |r| == |m|
  {
    seq(|m|, i requires 0 <= i < |m| => m[i][j])
  }

  function Transpose(m: Matrix, cols: nat): (r: Matrix)
    requires IsMatrix(m, |m|, cols)
    ensures IsMatrix(r, cols, |m|)
  {
    seq(cols, j requires 0 <= j < cols => Column(m, j))
  }

  /** m x. */
  function Apply(m: Matrix, x: Vector): (r: Vector)
    requires IsMatrix(m, |m|, |x|)
    ensures |r| == |m|
  {
    seq(|m|, i requires 0 <= i < |m| => Dot(m[i], x))
  }

  /** The row vector a m, which is also the transpose of m applied to a. */
  function Row(a: Vector, m: Matrix, cols: nat): (r: Vector)
    requires IsMatrix(m, |a|, cols)
    ensures |r| == cols
  {
    seq(cols, j requires 0 <= j < cols => Dot(a, Column(m, j)))
  }

  function Mul(a: Matrix, b: Matrix, cols: nat): (r: Matrix)
    requires IsMatrix(a, |a|, |b|) && IsMatrix(b, |b|, cols)
    ensures IsMatrix(r, |a|, cols)
  {
    seq(|a|, i requires 0 <= i < |a| => Row(a[i], b, cols))
  }

  /** s * a + b, entry by entry. */
  function Combine(s: real, a: Matrix, b: Matrix, rows: nat, cols: nat): (r: Matrix)
    requires IsMatrix(a, rows, cols) && IsMatrix(b, rows, cols)
    ensures IsMatrix(r, rows, cols)
  {
    seq(rows, i requires 0 <= i < rows => Axpy(s, a[i], b[i]))
  }

  function Unit(n: nat, i: nat, scale: real): (r: Vector)
    ensures |r| == n
  {
    seq(n, j => if i == j then scale else 0.0)
  }

  /** scale times the identity. */
  function Diagonal(n: nat, scale: real): (r: Matrix)
    ensures IsMatrix(r, n, n)
  {
    seq(n, i requires 0 <= i < n => Unit(n, i, scale))
  }

  function Zero(n: nat): (r: Vector)
    ensures |r| == n
  {
    seq(n, i => 0.0)
  }

  ghost predicate Symmetric(p: Matrix, n: nat)
    requires IsMatrix(p, n, n)
  {
    forall i, j | 0 <= i < n && 0 <= j < n :: p[i][j] == p[j][i]
  }

  /** The variance p gives to direction x. */
  function Quad(p: Matrix, x: Vector): real
    requires IsMatrix(p, |x|, |x|)
  {
    Dot(x, Apply(p, x))
  }

  ghost predicate NonNegative(p: Matrix, n: nat)
    requires IsMatrix(p, n, n)
  {
    forall x: Vector {:trigger Quad(p, x)} | |x| == n :: Quad(p, x) >= 0.0
  }

  /** Symmetric positive semidefinite. */
  ghost predicate IsCovariance(p: Matrix, n: nat) {
    IsMatrix(p, n, n) && Symmetric(p, n) && NonNegative(p, n)
  }

  /** a p aᵀ, for a with `rows` rows over an n by n p. */
  function Sandwich(a: Matrix, p: Matrix, n: nat): (r: Matrix)
    requires IsMatrix(a, |a|, n) && IsMatrix(p, n, n)
    ensures IsMatrix(r, |a|, |a|)
  {
    Mul(Mul(a, p, n), Transpose(a, n), |a|)
  }

  // ---------------------------------------------------------------- dot products

  lemma {:induction false} DotSymmetric(a: Vector, b: Vector)
    requires |a| == |b|
    ensures Dot(a, b) == Dot(b, a)
  {
    if a != [] {
      DotSymmetric(a[1..], b[1..]);
    }
  }

  lemma {:induction false} DotLinear(s: real, a: Vector, b: Vector, x: Vector)
    requires |a| == |b| == |x|
    ensures Dot(Axpy(s, a, b), x) == Times(s, Dot(a, x)) + Dot(b, x)
  {
    hide Times;
    if a == [] {
      assert Times(s, 0.0) == 0.0 by { TimesZero(s); }
    } else {
      DotLinear(s, a[1..], b[1..], x[1..]);
      assert Axpy(s, a, b)[1..] == Axpy(s, a[1..], b[1..]);
      Distribute(s, a[0], b[0], x[0], Dot(a[1..], x[1..]));
    }
  }

  lemma {:induction false} TimesZero(s: real)
    ensures Times(s, 0.0) == 0.0 && Times(0.0, s) == 0.0
  {
  }

  lemma {:induction false} Distribute(s: real, a: real, b: real, x: real, d: real)
    ensures Times(Times(s, a) + b, x) == Times(s, Times(a, x)) + Times(b, x)
    ensures Times(s, Times(a, x) + d) == Times(s, Times(a, x)) + Times(s, d)
  {
  }

  lemma {:induction false} DotZero(n: nat, x: Vector)
    requires |x| == n
    ensures Dot(Zero(n), x) == 0.0
  {
    if n != 0 {
      assert Zero(n)[1..] == Zero(n - 1);
      DotZero(n - 1, x[1..]);
    }
  }

  lemma {:induction false} DotSelf(x: Vector)
    ensures Dot(x, x) >= 0.0
  {
    if x != [] {
      DotSelf(x[1..]);
      assert Times(x[0], x[0]) >= 0.0;
    }
  }

  lemma {:induction false} DotUnit(n: nat, i: nat, scale: real, x: Vector)
    requires |x| == n && i < n
    ensures Dot(Unit(n, i, scale), x) == Times(scale, x[i])
  {
    var u := Unit(n, i, scale);
    if i == 0 {
      assert u[1..] == Zero(n - 1);
      DotZero(n - 1, x[1..]);
    } else {
      assert u[1..] == Unit(n - 1, i - 1, scale);
      DotUnit(n - 1, i - 1, scale, x[1..]);
    }
  }

  // ---------------------------------------------------------------- exchanging sums

  /** (a m) x = a (m x). */
  lemma {:induction false} RowThenDot(a: Vector, m: Matrix, x: Vector)
    requires IsMatrix(m, |a|, |x|)
    ensures Dot(Row(a, m, |x|), x) == Dot(a, Apply(m, x))
  {
    hide Times;
    var n := |x|;
    if a == [] {
      assert Row(a, m, n) == Zero(n);
      DotZero(n, x);
    } else {
      var rest := Row(a[1..], m[1..], n);
      assert Row(a, m, n) == Axpy(a[0], m[0], rest) by {
        forall j | 0 <= j < n ensures Row(a, m, n)[j] == Times(a[0], m[0][j]) + rest[j] {
          assert Column(m, j)[1..] == Column(m[1..], j);
        }
      }
      DotLinear(a[0], m[0], rest, x);
      RowThenDot(a[1..], m[1..], x);
      assert Apply(m, x)[1..] == Apply(m[1..], x);
    }
  }

  lemma {:induction false} MulThenApply(a: Matrix, b: Matrix, x: Vector)
    requires IsMatrix(a, |a|, |b|) && IsMatrix(b, |b|, |x|)
    ensures Apply(Mul(a, b, |x|), x) == Apply(a, Apply(b, x))
  {
    forall i | 0 <= i < |a| ensures Dot(Mul(a, b, |x|)[i], x) == Dot(a[i], Apply(b, x)) {
      RowThenDot(a[i], b, x);
    }
  }

  lemma {:induction false} TransposeApplies(m: Matrix, cols: nat, a: Vector)
    requires IsMatrix(m, |a|, cols)
    ensures Apply(Transpose(m, cols), a) == Row(a, m, cols)
  {
    forall j | 0 <= j < cols ensures Dot(Transpose(m, cols)[j], a) == Row(a, m, cols)[j] {
      DotSymmetric(Column(m, j), a);
    }
  }

  lemma {:induction false} CombineApplies(s: real, a: Matrix, b: Matrix, rows: nat, x: Vector)
    requires IsMatrix(a, rows, |x|) && IsMatrix(b, rows, |x|)
    ensures Apply(Combine(s, a, b, rows, |x|), x) == Axpy(s, Apply(a, x), Apply(b, x))
  {
    hide Times;
    forall i | 0 <= i < rows ensures Dot(Axpy(s, a[i], b[i]), x) == Times(s, Dot(a[i], x)) + Dot(b[i], x) {
      DotLinear(s, a[i], b[i], x);
    }
  }

  lemma {:induction false} DiagonalApplies(n: nat, scale: real, x: Vector)
    requires |x| == n
    ensures Apply(Diagonal(n, scale), x) == Axpy(scale, x, Zero(n))
  {
    hide Times;
    forall i | 0 <= i < n ensures Dot(Diagonal(n, scale)[i], x) == Times(scale, x[i]) {
      DotUnit(n, i, scale, x);
    }
  }

  // ---------------------------------------------------------------- quadratic forms

  /** A symmetric matrix can be moved across a dot product. */
  lemma {:induction false} SymmetricMoves(p: Matrix, a: Vector, b: Vector)
    requires |a| == |b| && IsMatrix(p, |a|, |a|) && Symmetric(p, |a|)
    ensures Dot(a, Apply(p, b)) == Dot(b, Apply(p, a))
  {
    var n := |a|;
    RowThenDot(a, p, b);
    assert Row(a, p, n) == Apply(p, a) by {
      forall j | 0 <= j < n ensures Dot(a, Column(p, j)) == Dot(p[j], a) {
        assert Column(p, j) == p[j];
        DotSymmetric(a, p[j]);
      }
    }
    DotSymmetric(Apply(p, a), b);
  }

  lemma {:induction false} QuadOfCombine(s: real, a: Matrix, b: Matrix, x: Vector)
    requires IsMatrix(a, |x|, |x|) && IsMatrix(b, |x|, |x|)
    ensures Quad(Combine(s, a, b, |x|, |x|), x) == Times(s, Quad(a, x)) + Quad(b, x)
  {
    hide Times;
    var n := |x|;
    CombineApplies(s, a, b, n, x);
    DotSymmetric(x, Axpy(s, Apply(a, x), Apply(b, x)));
    DotLinear(s, Apply(a, x), Apply(b, x), x);
    DotSymmetric(x, Apply(a, x));
    DotSymmetric(x, Apply(b, x));
  }

  lemma {:induction false} QuadOfDiagonal(scale: real, x: Vector)
    ensures Quad(Diagonal(|x|, scale), x) == Times(scale, Dot(x, x))
  {
    hide Times;
    var n := |x|;
    DiagonalApplies(n, scale, x);
    DotSymmetric(x, Axpy(scale, x, Zero(n)));
    DotLinear(scale, x, Zero(n), x);
    DotZero(n, x);
  }

  /** The variance a p aᵀ gives to x is the variance p gives to aᵀ x. */
  lemma {:induction false} QuadOfSandwich(a: Matrix, p: Matrix, n: nat, x: Vector)
    requires IsMatrix(a, |x|, n) && IsMatrix(p, n, n)
    ensures Quad(Sandwich(a, p, n), x) == Quad(p, Row(x, a, n))
  {
    var y := Row(x, a, n);
    TransposeApplies(a, n, x);
    MulThenApply(Mul(a, p, n), Transpose(a, n), x);
    MulThenApply(a, p, y);
    RowThenDot(x, a, Apply(p, y));
  }

  lemma {:induction false} SandwichEntry(a: Matrix, p: Matrix, n: nat, i: nat, j: nat)
    requires IsMatrix(a, |a|, n) && IsMatrix(p, n, n) && i < |a| && j < |a|
    ensures Sandwich(a, p, n)[i][j] == Dot(a[i], Apply(p, a[j]))
  {
    assert Column(Transpose(a, n), j) == a[j];
    assert Sandwich(a, p, n)[i][j] == Dot(Row(a[i], p, n), a[j]);
    RowThenDot(a[i], p, a[j]);
  }

  lemma {:induction false} SandwichIsCovariance(a: Matrix, p: Matrix, n: nat)
    requires IsMatrix(a, |a|, n) && IsCovariance(p, n)
    ensures IsCovariance(Sandwich(a, p, n), |a|)
  {
    hide Sandwich, Quad;
    var s := Sandwich(a, p, n);
    forall i, j | 0 <= i < |a| && 0 <= j < |a| ensures s[i][j] == s[j][i] {
      SandwichEntry(a, p, n, i, j);
      SandwichEntry(a, p, n, j, i);
      SymmetricMoves(p, a[i], a[j]);
    }
    forall x: Vector | |x| == |a| ensures Quad(s, x) >= 0.0 {
      QuadOfSandwich(a, p, n, x);
    }
  }

  lemma {:induction false} CombineIsCovariance(s: real, a: Matrix, b: Matrix, n: nat)
    requires s >= 0.0 && IsCovariance(a, n) && IsCovariance(b, n)
    ensures IsCovariance(Combine(s, a, b, n, n), n)
  {
    hide Quad;
    forall x: Vector | |x| == n ensures Quad(Combine(s, a, b, n, n), x) >= 0.0 {
      QuadOfCombine(s, a, b, x);
      assert Times(s, Quad(a, x)) >= 0.0;
    }
  }

  lemma {:induction false} DiagonalIsCovariance(n: nat, scale: real)
    requires scale >= 0.0
    ensures IsCovariance(Diagonal(n, scale), n)
  {
    forall x: Vector | |x| == n ensures Quad(Diagonal(n, scale), x) >= 0.0 {
      QuadOfDiagonal(scale, x);
      DotSelf(x);
      assert Times(scale, Dot(x, x)) >= 0.0;
    }
  }
}
