/** Finite sums, vectors and square matrices over the reals, for any dimension n. Only the entries
    below n matter. */
module Matrices {
  import opened Rounding

  type Vec = int -> real
  type Mat = (int, int) -> real

  function Sum(n: nat, f: Vec): real {
    if n == 0 then 0.0 else Sum(n - 1, f) + f(n - 1)
  }

  lemma SumEq(n: nat, f: Vec, g: Vec)
    requires forall i | 0 <= i < n :: f(i) == g(i)
    ensures Sum(n, f) == Sum(n, g)
  {}

  /** h is f + c * g. */
  lemma {:induction false} SumLinear(n: nat, h: Vec, f: Vec, c: real, g: Vec)
    requires forall i | 0 <= i < n :: h(i) == f(i) + c * g(i)
    ensures Sum(n, h) == Sum(n, f) + c * Sum(n, g)
  {
    if n > 0 {
      SumLinear(n - 1, h, f, c, g);
      Distribute(c, Sum(n - 1, g), g(n - 1));
    } else {
      assert c * 0.0 == 0.0;
    }
  }

  lemma Distribute(c: real, a: real, b: real)
    ensures c * (a + b) == c * a + c * b
  {}

  lemma SumScaled(n: nat, h: Vec, c: real, g: Vec)
    requires forall i | 0 <= i < n :: h(i) == c * g(i)
    ensures Sum(n, h) == c * Sum(n, g)
  {
    var zero := (i: int) => 0.0;
    SumLinear(n, h, zero, c, g);
    SumZero(n, zero);
  }

  lemma SumZero(n: nat, f: Vec)
    requires forall i | 0 <= i < n :: f(i) == 0.0
    ensures Sum(n, f) == 0.0
  {}

  /** A sum with at most one non-zero term. */
  lemma {:induction false} SumOnly(n: nat, f: Vec, s: nat)
    requires s < n && forall i | 0 <= i < n && i != s :: f(i) == 0.0
    ensures Sum(n, f) == f(s)
  {
    if s == n - 1 { SumZero(n - 1, f); } else { SumOnly(n - 1, f, s); }
  }

  lemma {:induction false} SumNonneg(n: nat, f: Vec)
    requires forall i | 0 <= i < n :: f(i) >= 0.0
    ensures Sum(n, f) >= 0.0
  {
    if n > 0 { SumNonneg(n - 1, f); }
  }

  function Row(b: Mat, i: int): Vec { j => b(i, j) }
  function Col(b: Mat, j: int): Vec { i => b(i, j) }

  function RowSums(n: nat, b: Mat): Vec { i => Sum(n, Row(b, i)) }
  function ColSums(m: nat, b: Mat): Vec { j => Sum(m, Col(b, j)) }

  /** The order of a double sum does not matter. */
  lemma {:induction false} SumSwap(m: nat, n: nat, b: Mat)
    ensures Sum(m, RowSums(n, b)) == Sum(n, ColSums(m, b))
  {
    if m == 0 {
      SumZero(n, ColSums(m, b));
    } else {
      SumSwap(m - 1, n, b);
      SumLinear(n, ColSums(m, b), ColSums(m - 1, b), 1.0, Row(b, m - 1));
    }
  }

  function Times(x: Vec, y: Vec): Vec { i => x(i) * y(i) }

  function Dot(n: nat, x: Vec, y: Vec): real { Sum(n, Times(x, y)) }

  function MatVec(n: nat, b: Mat, y: Vec): Vec { i => Dot(n, Row(b, i), y) }

  function Transpose(b: Mat): Mat { (i, j) => b(j, i) }

  function Mul(n: nat, a: Mat, b: Mat): Mat { (i, j) => Dot(n, Row(a, i), Col(b, j)) }

  function Add(a: Mat, b: Mat): Mat { (i, j) => a(i, j) + b(i, j) }

  function Scale(c: real, a: Mat): Mat { (i, j) => c * a(i, j) }

  function Outer(x: Vec, y: Vec): Mat { (i, j) => Prod(x(i), y(j)) }

  /** a * b * transpose(a) */
  function Congruent(n: nat, a: Mat, b: Mat): Mat { Mul(n, Mul(n, a, b), Transpose(a)) }

  function Quad(n: nat, p: Mat, x: Vec): real { Dot(n, x, MatVec(n, p, x)) }

  ghost predicate Same(n: nat, a: Mat, b: Mat) {
    forall i, j | 0 <= i < n && 0 <= j < n :: a(i, j) == b(i, j)
  }

  ghost predicate Symmetric(n: nat, p: Mat) {
    forall i, j | 0 <= i < n && 0 <= j < n :: p(i, j) == p(j, i)
  }

  ghost predicate Semidefinite(n: nat, p: Mat) {
    forall x: Vec :: Quad(n, p, x) >= 0.0
  }

  lemma DotEq(n: nat, x: Vec, y: Vec, x': Vec, y': Vec)
    requires forall i | 0 <= i < n :: x(i) == x'(i) && y(i) == y'(i)
    ensures Dot(n, x, y) == Dot(n, x', y')
  {
    SumEq(n, Times(x, y), Times(x', y'));
  }

  lemma DotCommutes(n: nat, x: Vec, y: Vec)
    ensures Dot(n, x, y) == Dot(n, y, x)
  {
    SumEq(n, Times(x, y), Times(y, x));
  }

  /** The terms of x . (b y). */
  function Terms(x: Vec, b: Mat, y: Vec): Mat { (i, j) => x(i) * (b(i, j) * y(j)) }

  lemma TermsByRow(n: nat, x: Vec, b: Mat, y: Vec, i: nat)
    requires i < n
    ensures Times(x, MatVec(n, b, y))(i) == RowSums(n, Terms(x, b, y))(i)
  {
    SumScaled(n, Row(Terms(x, b, y), i), x(i), Times(Row(b, i), y));
  }

  lemma TermsByColumn(n: nat, x: Vec, b: Mat, y: Vec, j: nat)
    requires j < n
    ensures Times(MatVec(n, Transpose(b), x), y)(j) == ColSums(n, Terms(x, b, y))(j)
  {
    var t := Times(Row(Transpose(b), j), x);
    forall i | 0 <= i < n ensures Col(Terms(x, b, y), j)(i) == y(j) * t(i) {
      Rearrange(x(i), b(i, j), y(j));
    }
    SumScaled(n, Col(Terms(x, b, y), j), y(j), t);
  }

  /** Moving a matrix across an inner product. */
  lemma Adjoint(n: nat, x: Vec, b: Mat, y: Vec)
    ensures Dot(n, x, MatVec(n, b, y)) == Dot(n, MatVec(n, Transpose(b), x), y)
  {
    hide Terms, MatVec, Times, RowSums, ColSums;
    var w := Terms(x, b, y);
    SumSwap(n, n, w);
    forall i | 0 <= i < n { TermsByRow(n, x, b, y, i); }
    forall j | 0 <= j < n { TermsByColumn(n, x, b, y, j); }
    SumEq(n, Times(x, MatVec(n, b, y)), RowSums(n, w));
    SumEq(n, Times(MatVec(n, Transpose(b), x), y), ColSums(n, w));
  }

  lemma Rearrange(x: real, b: real, y: real)
    ensures x * (b * y) == y * (b * x)
  {}

  /** (a b) y = a (b y) */
  lemma MulThenApply(n: nat, a: Mat, b: Mat, y: Vec, i: nat)
    requires i < n
    ensures MatVec(n, Mul(n, a, b), y)(i) == MatVec(n, a, MatVec(n, b, y))(i)
  {
    var ai := Row(a, i);
    Adjoint(n, ai, b, y);
    forall j | 0 <= j < n ensures Row(Mul(n, a, b), i)(j) == MatVec(n, Transpose(b), ai)(j) {
      DotCommutes(n, Row(a, i), Col(b, j));
      DotEq(n, Col(b, j), Row(a, i), Row(Transpose(b), j), ai);
    }
    DotEq(n, Row(Mul(n, a, b), i), y, MatVec(n, Transpose(b), ai), y);
    DotEq(n, ai, MatVec(n, b, y), Row(a, i), MatVec(n, b, y));
  }

  /** The quadratic form of a b a^T at x is that of b at a^T x. */
  lemma CongruentQuad(n: nat, a: Mat, b: Mat, x: Vec)
    ensures Quad(n, Congruent(n, a, b), x) == Quad(n, b, MatVec(n, Transpose(a), x))
  {
    var w := MatVec(n, Transpose(a), x);
    forall i | 0 <= i < n ensures MatVec(n, Congruent(n, a, b), x)(i) == MatVec(n, a, MatVec(n, b, w))(i) {
      MulThenApply(n, Mul(n, a, b), Transpose(a), x, i);
      MulThenApply(n, a, b, w, i);
    }
    DotEq(n, x, MatVec(n, Congruent(n, a, b), x), x, MatVec(n, a, MatVec(n, b, w)));
    Adjoint(n, x, a, MatVec(n, b, w));
  }

  lemma CongruentSemidefinite(n: nat, a: Mat, b: Mat)
    requires Semidefinite(n, b)
    ensures Semidefinite(n, Congruent(n, a, b))
  {
    forall x: Vec ensures Quad(n, Congruent(n, a, b), x) >= 0.0 {
      CongruentQuad(n, a, b, x);
    }
  }

  /** a b a^T is symmetric when b is. */
  lemma CongruentSymmetric(n: nat, a: Mat, b: Mat)
    requires Symmetric(n, b)
    ensures Symmetric(n, Congruent(n, a, b))
  {
    forall i, j | 0 <= i < n && 0 <= j < n ensures Congruent(n, a, b)(i, j) == Congruent(n, a, b)(j, i) {
      var (ai, aj) := (Row(a, i), Row(a, j));
      EntryOfCongruent(n, a, b, i, j);
      EntryOfCongruent(n, a, b, j, i);
      Adjoint(n, ai, b, aj);
      DotCommutes(n, MatVec(n, Transpose(b), ai), aj);
      forall k | 0 <= k < n ensures MatVec(n, Transpose(b), ai)(k) == MatVec(n, b, ai)(k) {
        DotEq(n, Row(Transpose(b), k), ai, Row(b, k), ai);
      }
      DotEq(n, aj, MatVec(n, Transpose(b), ai), aj, MatVec(n, b, ai));
    }
  }

  lemma CongruentSame(n: nat, a: Mat, b: Mat, c: Mat, i: nat, j: nat)
    requires Same(n, b, c) && i < n && j < n
    ensures Congruent(n, a, b)(i, j) == Congruent(n, a, c)(i, j)
  {
    EntryOfCongruent(n, a, b, i, j);
    EntryOfCongruent(n, a, c, i, j);
    hide Congruent;
    var y := Row(a, j);
    forall k | 0 <= k < n ensures MatVec(n, b, y)(k) == MatVec(n, c, y)(k) { DotEq(n, Row(b, k), y, Row(c, k), y); }
    DotEq(n, Row(a, i), MatVec(n, b, y), Row(a, i), MatVec(n, c, y));
  }

  lemma SameQuad(n: nat, a: Mat, b: Mat, v: Vec)
    requires Same(n, a, b)
    ensures Quad(n, a, v) == Quad(n, b, v)
  {
    forall i | 0 <= i < n ensures MatVec(n, a, v)(i) == MatVec(n, b, v)(i) {
      DotEq(n, Row(a, i), v, Row(b, i), v);
    }
    DotEq(n, v, MatVec(n, a, v), v, MatVec(n, b, v));
  }

  /** Entry (i, j) of a b a^T is (row i of a) . b (row j of a). */
  lemma EntryOfCongruent(n: nat, a: Mat, b: Mat, i: nat, j: nat)
    requires i < n && j < n
    ensures Congruent(n, a, b)(i, j) == Dot(n, Row(a, i), MatVec(n, b, Row(a, j)))
  {
    var aj := Row(a, j);
    DotEq(n, Row(Mul(n, a, b), i), Col(Transpose(a), j), Row(Mul(n, a, b), i), aj);
    MulThenApply(n, a, b, aj, i);
  }

  lemma MatVecLinear(n: nat, h: Mat, f: Mat, c: real, g: Mat, x: Vec, i: nat)
    requires i < n && forall j | 0 <= j < n :: h(i, j) == f(i, j) + c * g(i, j)
    ensures MatVec(n, h, x)(i) == MatVec(n, f, x)(i) + c * MatVec(n, g, x)(i)
  {
    forall j | 0 <= j < n
      ensures Times(Row(h, i), x)(j) == Times(Row(f, i), x)(j) + c * Times(Row(g, i), x)(j)
    {
      Expand(f(i, j), c, g(i, j), x(j));
    }
    SumLinear(n, Times(Row(h, i), x), Times(Row(f, i), x), c, Times(Row(g, i), x));
  }

  lemma DotLinear(n: nat, x: Vec, h: Vec, f: Vec, c: real, g: Vec)
    requires forall i | 0 <= i < n :: h(i) == f(i) + c * g(i)
    ensures Dot(n, x, h) == Dot(n, x, f) + c * Dot(n, x, g)
  {
    forall i | 0 <= i < n ensures Times(x, h)(i) == Times(x, f)(i) + c * Times(x, g)(i) {
      Expand(f(i), c, g(i), x(i));
    }
    SumLinear(n, Times(x, h), Times(x, f), c, Times(x, g));
  }

  function Plus(f: real, c: real, g: real): real { f + c * g }

  lemma QuadLinear(n: nat, h: Mat, f: Mat, c: real, g: Mat, x: Vec)
    requires forall i, j | 0 <= i < n && 0 <= j < n :: h(i, j) == Plus(f(i, j), c, g(i, j))
    ensures Quad(n, h, x) == Plus(Quad(n, f, x), c, Quad(n, g, x))
  {
    forall i | 0 <= i < n ensures MatVec(n, h, x)(i) == MatVec(n, f, x)(i) + c * MatVec(n, g, x)(i) {
      MatVecLinear(n, h, f, c, g, x, i);
    }
    DotLinear(n, x, MatVec(n, h, x), MatVec(n, f, x), c, MatVec(n, g, x));
  }

  lemma Expand(f: real, c: real, g: real, x: real)
    ensures (f + c * g) * x == f * x + c * (g * x)
    ensures x * (f + c * g) == x * f + c * (x * g)
  {}

  /** The quadratic form of x y^T factors. */
  lemma QuadOuter(n: nat, u: Vec, v: Vec, x: Vec)
    ensures Quad(n, Outer(u, v), x) == Dot(n, u, x) * Dot(n, v, x)
  {
    var vx := Dot(n, v, x);
    forall i | 0 <= i < n ensures MatVec(n, Outer(u, v), x)(i) == u(i) * vx {
      forall j | 0 <= j < n ensures Times(Row(Outer(u, v), i), x)(j) == u(i) * Times(v, x)(j) {
        assert u(i) * v(j) * x(j) == u(i) * (v(j) * x(j));
      }
      SumScaled(n, Times(Row(Outer(u, v), i), x), u(i), Times(v, x));
    }
    forall i | 0 <= i < n ensures Times(x, MatVec(n, Outer(u, v), x))(i) == vx * Times(u, x)(i) {
      Rearrange(x(i), u(i), vx);
    }
    SumScaled(n, Times(x, MatVec(n, Outer(u, v), x)), vx, Times(u, x));
  }

  lemma SemidefiniteSum(n: nat, f: Mat, c: real, g: Mat, h: Mat)
    requires Semidefinite(n, f) && Semidefinite(n, g) && c >= 0.0
    requires forall i, j | 0 <= i < n && 0 <= j < n :: h(i, j) == f(i, j) + c * g(i, j)
    ensures Semidefinite(n, h)
  {
    forall x: Vec ensures Quad(n, h, x) >= 0.0 {
      QuadLinear(n, h, f, c, g, x);
      ProductNonneg(c, Quad(n, g, x));
    }
  }

  lemma SquareNonneg(a: real)
    ensures a * a >= 0.0
  {}

  function Unit(s: int): Vec { i => if i == s then 1.0 else 0.0 }

  /** p e_s is column s. */
  lemma ApplyUnit(n: nat, p: Mat, s: nat, i: int)
    requires s < n
    ensures MatVec(n, p, Unit(s))(i) == p(i, s)
  {
    SumOnly(n, Times(Row(p, i), Unit(s)), s);
  }

  lemma DotUnit(n: nat, s: nat, y: Vec)
    requires s < n
    ensures Dot(n, Unit(s), y) == y(s) == Dot(n, y, Unit(s))
  {
    SumOnly(n, Times(Unit(s), y), s);
    SumOnly(n, Times(y, Unit(s)), s);
  }

  /** A diagonal entry is the form at a unit vector. */
  lemma DiagonalQuad(n: nat, p: Mat, s: nat)
    requires s < n
    ensures Quad(n, p, Unit(s)) == p(s, s)
  {
    DotUnit(n, s, MatVec(n, p, Unit(s)));
    ApplyUnit(n, p, s, s);
  }
}
