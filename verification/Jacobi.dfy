/** The cyclic Jacobi iteration that finds the smallest eigenvector of a symmetric 3x3 matrix. The
    rotation identities hold in any dimension. Square root enters only through its equation. */
module Jacobi {
  import opened Matrices
  import opened Rounding

  ghost predicate IsSqrt(root: real -> real) {
    forall x: real :: x >= 0.0 ==> root(x) >= 0.0 && root(x) * root(x) == x
  }

  // ---- A plane rotation

  datatype Rotation = Rotation(p: nat, q: nat, c: real, s: real)

  ghost predicate Ok(n: nat, g: Rotation) {
    g.p < g.q < n && g.c * g.c + g.s * g.s == 1.0
  }

  function Mix(f: real, x: real, e: real, y: real): real { f * x + e * y }

  function First(c: real, s: real, x: real, y: real): real { Mix(c, x, -s, y) }

  function Second(c: real, s: real, x: real, y: real): real { Mix(s, x, c, y) }

  /** The rotation applied to the entries p and q of a vector. */
  function Turn(g: Rotation, z: Vec): Vec {
    i => if i == g.p then First(g.c, g.s, z(g.p), z(g.q))
         else if i == g.q then Second(g.c, g.s, z(g.p), z(g.q))
         else z(i)
  }

  /** Its matrix: Turn(z) = J^T z. */
  function J(g: Rotation): Mat {
    (i, j) => if j == g.p then (if i == g.p then g.c else if i == g.q then -g.s else 0.0)
              else if j == g.q then (if i == g.p then g.s else if i == g.q then g.c else 0.0)
              else if i == j then 1.0 else 0.0
  }

  function Inverse(g: Rotation): Rotation { g.(s := -g.s) }

  /** The column pass, and both passes. */
  function TurnCols(g: Rotation, a: Mat): Mat { (i, j) => Turn(g, Row(a, i))(j) }

  function Turned(g: Rotation, a: Mat): Mat { (i, j) => Turn(g, Col(TurnCols(g, a), j))(i) }

  lemma TurnedEntry(g: Rotation, a: Mat, i: int, j: int)
    ensures Turned(g, a)(i, j) == Turn(g, Col(TurnCols(g, a), j))(i)
  {}

  lemma HalfTurned(g: Rotation, a: Mat, i: int, j: int)
    ensures TurnCols(g, a)(i, j) ==
            if j == g.p then First(g.c, g.s, a(i, g.p), a(i, g.q))
            else if j == g.q then Second(g.c, g.s, a(i, g.p), a(i, g.q))
            else a(i, j)
  {
    assert TurnCols(g, a)(i, j) == Turn(g, Row(a, i))(j);
  }

  /** The turned matrix, from rows of the half-turned one. */
  lemma TurnedRow(g: Rotation, a: Mat, i: int, j: int)
    ensures Turned(g, a)(i, j) ==
            if i == g.p then First(g.c, g.s, TurnCols(g, a)(g.p, j), TurnCols(g, a)(g.q, j))
            else if i == g.q then Second(g.c, g.s, TurnCols(g, a)(g.p, j), TurnCols(g, a)(g.q, j))
            else TurnCols(g, a)(i, j)
  {
    TurnedEntry(g, a, i, j);
  }

  /** Entry (i, j) at a crossing of the two planes. */
  lemma Crossing(g: Rotation, a: Mat, i: int, j: int)
    requires i == g.p || i == g.q
    requires j == g.p || j == g.q
    ensures Turned(g, a)(i, j) ==
            if i == g.p then First(g.c, g.s, TurnCols(g, a)(g.p, j), TurnCols(g, a)(g.q, j))
            else Second(g.c, g.s, TurnCols(g, a)(g.p, j), TurnCols(g, a)(g.q, j))
    ensures TurnCols(g, a)(i, j) ==
            if j == g.p then First(g.c, g.s, a(i, g.p), a(i, g.q))
            else Second(g.c, g.s, a(i, g.p), a(i, g.q))
  {
    TurnedRow(g, a, i, j);
    HalfTurned(g, a, i, j);
  }

  function Scaled(f: real, z: Vec): Vec { j => f * z(j) }

  lemma MixedTerm(h: Vec, f: real, u: Vec, e: real, w: Vec, y: Vec, j: int)
    requires h(j) == Mix(f, u(j), e, w(j))
    ensures Times(h, y)(j) == Scaled(f, Times(u, y))(j) + e * Times(w, y)(j)
  {
    MixTimes(f, u(j), e, w(j), y(j));
    hide Mix;
    assert Scaled(f, Times(u, y))(j) == f * Times(u, y)(j);
  }

  lemma Combine(n: nat, h: Vec, f: real, u: Vec, e: real, w: Vec, y: Vec)
    requires forall j | 0 <= j < n :: h(j) == Mix(f, u(j), e, w(j))
    ensures Dot(n, h, y) == Mix(f, Dot(n, u, y), e, Dot(n, w, y))
  {
    SumScaled(n, Scaled(f, Times(u, y)), f, Times(u, y));
    assert Mix(f, Dot(n, u, y), e, Dot(n, w, y)) == f * Dot(n, u, y) + e * Dot(n, w, y);
    hide Mix, Scaled, Times;
    forall j | 0 <= j < n { MixedTerm(h, f, u, e, w, y, j); }
    SumLinear(n, Times(h, y), Scaled(f, Times(u, y)), e, Times(w, y));
  }

  lemma MixTimes(f: real, u: real, e: real, w: real, y: real)
    ensures Mix(f, u, e, w) * y == f * (u * y) + e * (w * y)
  {}

  lemma DotScaled(n: nat, y: Vec, h: Vec, c: real, u: Vec)
    requires forall i | 0 <= i < n :: h(i) == c * u(i)
    ensures Dot(n, y, h) == c * Dot(n, y, u)
  {
    forall i | 0 <= i < n ensures Times(y, h)(i) == c * Times(y, u)(i) {
      Rearrange(y(i), c, u(i));
    }
    SumScaled(n, Times(y, h), c, Times(y, u));
  }

  /** Row i of J^T against y is entry i of the turned y. */
  lemma TurnIsTransposed(n: nat, g: Rotation, y: Vec, i: nat)
    requires g.p < g.q < n && i < n
    ensures Dot(n, Row(Transpose(J(g)), i), y) == Turn(g, y)(i)
  {
    var row := Row(Transpose(J(g)), i);
    DotUnit(n, g.p, y);
    DotUnit(n, g.q, y);
    DotUnit(n, i, y);
    if i == g.p {
      Combine(n, row, g.c, Unit(g.p), -g.s, Unit(g.q), y);
    } else if i == g.q {
      Combine(n, row, g.s, Unit(g.p), g.c, Unit(g.q), y);
    } else {
      DotEq(n, row, y, Unit(i), y);
    }
  }

  /** J^T a J is what turning the columns and then the rows leaves. */
  lemma TurnedIsCongruent(n: nat, g: Rotation, a: Mat, i: nat, j: nat)
    requires g.p < g.q < n && i < n && j < n
    ensures Congruent(n, Transpose(J(g)), a)(i, j) == Turned(g, a)(i, j)
  {
    var jt := Transpose(J(g));
    EntryOfCongruent(n, jt, a, i, j);
    var y := MatVec(n, a, Row(jt, j));
    var y' := Col(TurnCols(g, a), j);
    TurnIsTransposed(n, g, y, i);
    forall m | m == i || m == g.p || m == g.q ensures y(m) == y'(m) {
      DotCommutes(n, Row(a, m), Row(jt, j));
      TurnIsTransposed(n, g, Row(a, m), j);
    }
    TurnedEntry(g, a, i, j);
  }

  /** Turning back: J J^T z = z = J^T J z. */
  lemma TurnBack(g: Rotation, z: Vec, i: int)
    requires g.p < g.q && g.c * g.c + g.s * g.s == 1.0
    ensures Turn(Inverse(g), Turn(g, z))(i) == z(i) == Turn(g, Turn(Inverse(g), z))(i)
  {
    UnitCircle(g.c, g.s, z(g.p), z(g.q));
    UnitCircle(g.c, -g.s, z(g.p), z(g.q));
  }

  lemma UnitCircle(c: real, s: real, x: real, y: real)
    requires c * c + s * s == 1.0
    ensures First(c, -s, First(c, s, x, y), Second(c, s, x, y)) == x
    ensures Second(c, -s, First(c, s, x, y), Second(c, s, x, y)) == y
  {
    assert c * (c * x - s * y) + s * (s * x + c * y) == (c * c + s * s) * x;
    assert -s * (c * x - s * y) + c * (s * x + c * y) == (c * c + s * s) * y;
  }

  /** J is the transpose of the inverse rotation's matrix. */
  lemma TransposeInverts(g: Rotation, i: int, j: int)
    requires g.p < g.q
    ensures Transpose(J(Inverse(g)))(i, j) == J(g)(i, j)
  {}

  // ---- Orthogonal matrices, as operators

  ghost predicate Orthogonal(n: nat, v: Mat) {
    forall z: Vec, i | 0 <= i < n ::
      && MatVec(n, v, MatVec(n, Transpose(v), z))(i) == z(i)
      && MatVec(n, Transpose(v), MatVec(n, v, z))(i) == z(i)
  }

  lemma MatVecEq(n: nat, a: Mat, b: Mat, y: Vec, z: Vec, i: nat)
    requires i < n && forall j | 0 <= j < n :: a(i, j) == b(i, j) && y(j) == z(j)
    ensures MatVec(n, a, y)(i) == MatVec(n, b, z)(i)
  {
    DotEq(n, Row(a, i), y, Row(b, i), z);
  }

  /** v J acts as v after J; its transpose as J^T after v^T. */
  lemma TurnedColumns(n: nat, v: Mat, g: Rotation, z: Vec, i: nat)
    requires g.p < g.q < n && i < n
    ensures MatVec(n, Mul(n, v, J(g)), z)(i) == MatVec(n, v, Turn(Inverse(g), z))(i)
    ensures MatVec(n, Transpose(Mul(n, v, J(g))), z)(i) == Turn(g, MatVec(n, Transpose(v), z))(i)
  {
    MulThenApply(n, v, J(g), z, i);
    forall m | 0 <= m < n ensures MatVec(n, J(g), z)(m) == Turn(Inverse(g), z)(m) {
      TurnIsTransposed(n, Inverse(g), z, m);
      MatVecEq(n, J(g), Transpose(J(Inverse(g))), z, z, m);
    }
    MatVecEq(n, v, v, MatVec(n, J(g), z), Turn(Inverse(g), z), i);

    var (jt, vt) := (Transpose(J(g)), Transpose(v));
    forall m | 0 <= m < n ensures Transpose(Mul(n, v, J(g)))(i, m) == Mul(n, jt, vt)(i, m) {
      DotCommutes(n, Row(v, m), Col(J(g), i));
      DotEq(n, Col(J(g), i), Row(v, m), Row(jt, i), Col(vt, m));
    }
    MatVecEq(n, Transpose(Mul(n, v, J(g))), Mul(n, jt, vt), z, z, i);
    MulThenApply(n, jt, vt, z, i);
    TurnIsTransposed(n, g, MatVec(n, vt, z), i);
  }

  lemma TurnedUndoesTranspose(n: nat, v: Mat, g: Rotation, z: Vec, i: nat)
    requires Ok(n, g) && Orthogonal(n, v) && i < n
    ensures MatVec(n, Mul(n, v, J(g)), MatVec(n, Transpose(Mul(n, v, J(g))), z))(i) == z(i)
  {
    hide Mix, Dot, Mul, J, Turn, MatVec, Transpose;
    var (w, x) := (Mul(n, v, J(g)), MatVec(n, Transpose(v), z));
    var y := MatVec(n, Transpose(w), z);
    TurnedColumns(n, v, g, y, i);
    forall m: nat | m < n ensures Turn(Inverse(g), y)(m) == x(m) {
      TurnedColumns(n, v, g, z, g.p);
      TurnedColumns(n, v, g, z, g.q);
      TurnedColumns(n, v, g, z, m);
      TurnEq(Inverse(g), y, Turn(g, x), m);
      TurnBack(g, x, m);
    }
    MatVecEq(n, v, v, Turn(Inverse(g), y), x, i);
  }

  lemma TransposeUndoesTurned(n: nat, v: Mat, g: Rotation, z: Vec, i: nat)
    requires Ok(n, g) && Orthogonal(n, v) && i < n
    ensures MatVec(n, Transpose(Mul(n, v, J(g))), MatVec(n, Mul(n, v, J(g)), z))(i) == z(i)
  {
    hide Mix, Dot, Mul, J, Turn, MatVec, Transpose;
    var (u, t, vt) := (MatVec(n, Mul(n, v, J(g)), z), Turn(Inverse(g), z), Transpose(v));
    TurnedColumns(n, v, g, u, i);
    forall k: nat | k < n ensures u(k) == MatVec(n, v, t)(k) { TurnedColumns(n, v, g, z, k); }
    forall m: nat | m < n ensures MatVec(n, vt, u)(m) == t(m) {
      MatVecEq(n, vt, vt, u, MatVec(n, v, t), m);
    }
    TurnEq(g, MatVec(n, vt, u), t, i);
    TurnBack(g, z, i);
  }

  lemma TurnEq(g: Rotation, y: Vec, z: Vec, i: int)
    requires y(i) == z(i) && y(g.p) == z(g.p) && y(g.q) == z(g.q)
    ensures Turn(g, y)(i) == Turn(g, z)(i)
  {}

  /** Turning the columns of an orthogonal matrix leaves it orthogonal. */
  lemma TurnedStaysOrthogonal(n: nat, v: Mat, g: Rotation)
    requires Ok(n, g) && Orthogonal(n, v)
    ensures Orthogonal(n, Mul(n, v, J(g)))
  {
    hide Mul, J, MatVec, Transpose;
    forall z: Vec, i: nat | i < n
      ensures MatVec(n, Mul(n, v, J(g)), MatVec(n, Transpose(Mul(n, v, J(g))), z))(i) == z(i)
      ensures MatVec(n, Transpose(Mul(n, v, J(g))), MatVec(n, Mul(n, v, J(g)), z))(i) == z(i)
    {
      TurnedUndoesTranspose(n, v, g, z, i);
      TransposeUndoesTurned(n, v, g, z, i);
    }
  }

  /** (v J)(J^T a J)(v J)^T = v a v^T */
  lemma ProductStays(n: nat, v: Mat, a: Mat, g: Rotation, i: nat, j: nat)
    requires Ok(n, g) && i < n && j < n
    ensures Congruent(n, Mul(n, v, J(g)), Turned(g, a))(i, j) == Congruent(n, v, a)(i, j)
  {
    var (w, b) := (Mul(n, v, J(g)), Turned(g, a));
    EntryOfCongruent(n, w, b, i, j);
    EntryOfCongruent(n, v, a, i, j);
    var (x, y) := (Row(v, i), Row(v, j));
    forall k | 0 <= k < n ensures Row(w, i)(k) == Turn(g, x)(k) && Row(w, j)(k) == Turn(g, y)(k) {
      RowTurns(n, v, g, i, k);
      RowTurns(n, v, g, j, k);
    }
    var ay := MatVec(n, a, y);
    forall k | 0 <= k < n ensures MatVec(n, b, Row(w, j))(k) == Turn(g, ay)(k) {
      MatVecEq(n, b, b, Row(w, j), Turn(g, y), k);
      TurnedApplies(n, a, g, y, k);
    }
    DotEq(n, Row(w, i), MatVec(n, b, Row(w, j)), Turn(g, x), Turn(g, ay));
    TurnKeepsDot(n, g, x, ay);
  }

  lemma RowTurns(n: nat, v: Mat, g: Rotation, i: nat, k: nat)
    requires g.p < g.q < n && i < n && k < n
    ensures Row(Mul(n, v, J(g)), i)(k) == Turn(g, Row(v, i))(k)
  {
    DotCommutes(n, Row(v, i), Col(J(g), k));
    DotEq(n, Col(J(g), k), Row(v, i), Row(Transpose(J(g)), k), Row(v, i));
    TurnIsTransposed(n, g, Row(v, i), k);
  }

  /** Turning both vectors keeps their inner product. */
  lemma TurnKeepsDot(n: nat, g: Rotation, x: Vec, y: Vec)
    requires Ok(n, g)
    ensures Dot(n, Turn(g, x), Turn(g, y)) == Dot(n, x, y)
  {
    var jt := Transpose(J(g));
    forall i | 0 <= i < n ensures Turn(g, x)(i) == MatVec(n, jt, x)(i) && Turn(g, y)(i) == MatVec(n, jt, y)(i) {
      TurnIsTransposed(n, g, x, i);
      TurnIsTransposed(n, g, y, i);
    }
    DotEq(n, Turn(g, x), Turn(g, y), MatVec(n, jt, x), MatVec(n, jt, y));
    DotCommutes(n, MatVec(n, jt, x), MatVec(n, jt, y));
    Adjoint(n, MatVec(n, jt, y), jt, x);
    forall i | 0 <= i < n ensures MatVec(n, Transpose(jt), MatVec(n, jt, y))(i) == y(i) {
      MatVecEq(n, Transpose(jt), Transpose(J(Inverse(g))), MatVec(n, jt, y), Turn(g, y), i) by {
        forall m | 0 <= m < n ensures Transpose(jt)(i, m) == Transpose(J(Inverse(g)))(i, m) {
          TransposeInverts(g, i, m);
        }
      }
      TurnIsTransposed(n, Inverse(g), Turn(g, y), i);
      TurnBack(g, y, i);
    }
    DotEq(n, MatVec(n, Transpose(jt), MatVec(n, jt, y)), x, y, x);
    DotCommutes(n, y, x);
  }

  /** (J^T a J)(J^T y) = J^T (a y) */
  lemma TurnedApplies(n: nat, a: Mat, g: Rotation, y: Vec, k: nat)
    requires Ok(n, g) && k < n
    ensures MatVec(n, Turned(g, a), Turn(g, y))(k) == Turn(g, MatVec(n, a, y))(k)
  {
    hide Mix, Dot;
    var cols := TurnCols(g, a);
    forall m | m == k || m == g.p || m == g.q ensures Dot(n, Row(cols, m), Turn(g, y)) == MatVec(n, a, y)(m) {
      DotEq(n, Row(cols, m), Turn(g, y), Turn(g, Row(a, m)), Turn(g, y));
      TurnKeepsDot(n, g, Row(a, m), y);
    }
    var ty := Turn(g, y);
    forall j | 0 <= j < n ensures Row(Turned(g, a), k)(j) ==
            if k == g.p then First(g.c, g.s, Row(cols, g.p)(j), Row(cols, g.q)(j))
            else if k == g.q then Second(g.c, g.s, Row(cols, g.p)(j), Row(cols, g.q)(j))
            else Row(cols, k)(j) {
      TurnedRow(g, a, k, j);
    }
    if k == g.p {
      Combine(n, Row(Turned(g, a), k), g.c, Row(cols, g.p), -g.s, Row(cols, g.q), ty);
    } else if k == g.q {
      Combine(n, Row(Turned(g, a), k), g.s, Row(cols, g.p), g.c, Row(cols, g.q), ty);
    } else {
      DotEq(n, Row(Turned(g, a), k), ty, Row(cols, k), ty);
    }
  }

  // ---- The angle: one rotation removes one off-diagonal pair

  lemma InverseRoot(t: real, d: real, theta: real)
    requires t * d == 1.0 && d * d - 2.0 * theta * d == 1.0
    ensures t * t + 2.0 * theta * t == 1.0
  {
    assert t * (t * d) == t && (t * t) * d == t;
    assert (t * t) * (d * d) == 1.0;
    assert (t * t) * (d * d - 2.0 * theta * d) == t * t;
    assert (t * t) * (2.0 * theta * d) == 2.0 * theta * t;
  }

  function Theta(x: real, y: real, z: real): real
    requires z != 0.0
  {
    Ratio(y - x, 2.0 * z)
  }

  /** The tangent of the rotation angle. */
  function TangentOf(root: real -> real, theta: real): real
    requires IsSqrt(root)
  {
    RootIsLarger(root, theta);
    Ratio(if theta >= 0.0 then 1.0 else -1.0, Abs(theta) + root(theta * theta + 1.0))
  }

  lemma RootIsLarger(root: real -> real, x: real)
    requires IsSqrt(root)
    ensures x * x + 1.0 >= 0.0 && root(x * x + 1.0) > 0.0
  {
    SquareNonneg(x);
    var h := root(x * x + 1.0);
    assert h * h == x * x + 1.0;
  }

  /** t = sign(theta) / (|theta| + sqrt(theta^2 + 1)) solves t^2 + 2 theta t = 1. */
  lemma TangentSolves(root: real -> real, theta: real)
    requires IsSqrt(root)
    ensures var t := TangentOf(root, theta); t * t + 2.0 * theta * t == 1.0
  {
    RootIsLarger(root, theta);
    var (h, t) := (root(theta * theta + 1.0), TangentOf(root, theta));
    var d := if theta >= 0.0 then theta + h else theta - h;
    DivideBack(t, if theta >= 0.0 then 1.0 else -1.0, Abs(theta) + h);
    assert t * d == 1.0;
    assert h * h == theta * theta + 1.0;
    assert d * d - 2.0 * theta * d == 1.0;
    InverseRoot(t, d, theta);
  }

  lemma DivideBack(t: real, x: real, y: real)
    requires y != 0.0 && t == x / y
    ensures t * y == x
  {}

  /** The rotation chosen for diagonal entries x, y and a non-zero off-diagonal z. */
  function AngleFor(root: real -> real, x: real, y: real, z: real, p: nat, q: nat): Rotation
    requires IsSqrt(root) && z != 0.0
  {
    var t := TangentOf(root, Theta(x, y, z));
    RootIsLarger(root, t);
    var c := Ratio(1.0, root(t * t + 1.0));
    Rotation(p, q, c, t * c)
  }

  function Angle(root: real -> real, a: Mat, p: nat, q: nat): Rotation
    requires IsSqrt(root) && a(p, q) != 0.0
  {
    AngleFor(root, a(p, p), a(q, q), a(p, q), p, q)
  }

  lemma AngleIsRotation(root: real -> real, a: Mat, p: nat, q: nat)
    requires IsSqrt(root) && a(p, q) != 0.0
    ensures var g := Angle(root, a, p, q); g.c * g.c + g.s * g.s == 1.0
  {
    var t := TangentOf(root, Theta(a(p, p), a(q, q), a(p, q)));
    RootIsLarger(root, t);
    OnCircle(t, root(t * t + 1.0), Angle(root, a, p, q).c);
  }

  lemma OnCircle(t: real, k: real, c: real)
    requires k * k == t * t + 1.0 && k > 0.0 && c == 1.0 / k
    ensures c * c + t * c * (t * c) == 1.0
  {
    assert c * k == 1.0;
    assert (c * k) * (c * k) == c * c * (k * k);
    assert c * c * (t * t + 1.0) == c * c + t * c * (t * c);
  }

  /** The smaller of the two angles is chosen, at most half a right one. */
  lemma AngleIsSmall(root: real -> real, a: Mat, p: nat, q: nat)
    requires IsSqrt(root) && a(p, q) != 0.0
    ensures var g := Angle(root, a, p, q); g.s * g.s <= 0.5
  {
    var t := TangentOf(root, Theta(a(p, p), a(q, q), a(p, q)));
    TangentIsSmall(root, Theta(a(p, p), a(q, q), a(p, q)));
    RootIsLarger(root, t);
    SmallSine(t, root(t * t + 1.0), Angle(root, a, p, q).c);
  }

  lemma TangentIsSmall(root: real -> real, theta: real)
    requires IsSqrt(root)
    ensures TangentOf(root, theta) * TangentOf(root, theta) <= 1.0
  {
    RootIsLarger(root, theta);
    var q := theta * theta;
    var (h, t) := (root(q + 1.0), TangentOf(root, theta));
    SquareNonneg(theta);
    AtLeastOne(h, q);
    hide Ratio;
    if theta >= 0.0 {
      assert t == Ratio(1.0, Abs(theta) + h);
      AtMostOne(1.0, Abs(theta) + h, t);
    } else {
      assert t == Ratio(-1.0, Abs(theta) + h);
      AtMostOne(-1.0, Abs(theta) + h, t);
    }
  }

  lemma AtLeastOne(h: real, q: real)
    requires h > 0.0 && h * h == q + 1.0 && q >= 0.0
    ensures h >= 1.0
  {
    if h < 1.0 { ProductMonotone(h, 1.0, h); }
  }

  lemma AtMostOne(sign: real, d: real, t: real)
    requires sign * sign == 1.0 && d >= 1.0 && t == Ratio(sign, d)
    ensures t * t <= 1.0
  {
    assert t * d == sign;
    assert (t * t) * (d * d) == 1.0;
    assert d * d >= 1.0 by { ProductMonotone(1.0, d, d); }
    SquareNonneg(t);
    ProductMonotone(1.0, d * d, t * t);
  }

  lemma SmallSine(t: real, k: real, c: real)
    requires k * k == t * t + 1.0 && k > 0.0 && c == 1.0 / k && t * t <= 1.0
    ensures t * c * (t * c) <= 0.5
  {
    OnCircle(t, k, c);
    SquareNonneg(c);
    var (u, w) := (c * c, t * c * (t * c));
    assert w == (t * t) * u;
    ProductMonotone(t * t, 1.0, u);
  }

  lemma AngleCancels(root: real -> real, a: Mat, p: nat, q: nat)
    requires IsSqrt(root) && a(p, q) != 0.0
    ensures var (g, x, y, z) := (Angle(root, a, p, q), a(p, p), a(q, q), a(p, q));
            && First(g.c, g.s, Second(g.c, g.s, x, z), Second(g.c, g.s, z, y)) == 0.0
            && Second(g.c, g.s, First(g.c, g.s, x, z), First(g.c, g.s, z, y)) == 0.0
  {
    var (x, y, z) := (a(p, p), a(q, q), a(p, q));
    var theta := Theta(x, y, z);
    TangentSolves(root, theta);
    DivideBack(theta, y - x, 2.0 * z);
    hide First, Second, TangentOf, Theta;
    Cancels(x, y, z, theta, TangentOf(root, theta), Angle(root, a, p, q).c);
  }

  /** The entry the rotation is aimed at vanishes, which is why the code may store an exact zero there. */
  lemma PairVanishes(root: real -> real, n: nat, a: Mat, p: nat, q: nat)
    requires IsSqrt(root) && p < q < n && Symmetric(n, a) && a(p, q) != 0.0
    ensures Turned(Angle(root, a, p, q), a)(p, q) == 0.0 == Turned(Angle(root, a, p, q), a)(q, p)
  {
    var g := Angle(root, a, p, q);
    AngleCancels(root, a, p, q);
    AnglePlane(root, a, p, q);
    assert a(q, p) == a(p, q);
    hide Angle, Turned, TurnCols, First, Second;
    Crossing(g, a, p, q);
    Crossing(g, a, q, p);
    Crossing(g, a, p, p);
    Crossing(g, a, q, q);
  }

  lemma Cancels(x: real, y: real, z: real, theta: real, t: real, c: real)
    requires t * t + 2.0 * theta * t == 1.0 && theta * (2.0 * z) == y - x
    ensures First(c, t * c, Second(c, t * c, x, z), Second(c, t * c, z, y)) == 0.0
    ensures Second(c, t * c, First(c, t * c, x, z), First(c, t * c, z, y)) == 0.0
  {
    assert z * (t * t + 2.0 * theta * t) == z;
    assert z * (2.0 * theta * t) == (y - x) * t;
    var u := t * (x - y) + z - z * t * t;
    assert u == 0.0;
    assert c * (t * c * x + c * z) - t * c * (t * c * z + c * y) == c * c * u;
    assert t * c * (c * x - t * c * z) + c * (c * z - t * c * y) == c * c * u;
  }

  // ---- What one rotation keeps, and what it takes away

  function DiagonalOf(a: Mat): Vec { i => a(i, i) }

  function Square(x: real): real { x * x }

  function DiagonalSquare(a: Mat): Vec { i => Square(a(i, i)) }

  function RowSquare(n: nat, a: Mat): Vec { i => Dot(n, Row(a, i), Row(a, i)) }

  function ColSquare(n: nat, a: Mat): Vec { j => Dot(n, Col(a, j), Col(a, j)) }

  function Trace(n: nat, a: Mat): real { Sum(n, DiagonalOf(a)) }

  /** Sum of the squares of all entries, and of the off-diagonal ones. */
  function Frobenius(n: nat, a: Mat): real { Sum(n, RowSquare(n, a)) }

  function OffDiagonal(n: nat, a: Mat): real { Frobenius(n, a) - Sum(n, DiagonalSquare(a)) }

  lemma {:induction false} SumTwo(n: nat, f: Vec, h: Vec, p: nat, q: nat)
    requires p < q < n && forall i | 0 <= i < n && i != p && i != q :: f(i) == h(i)
    ensures Sum(n, h) == Sum(n, f) + (h(p) - f(p)) + (h(q) - f(q))
  {
    var (dp, dq) := (h(p) - f(p), h(q) - f(q));
    var part: Vec := i => f(i) + dp * Unit(p)(i);
    SumLinear(n, part, f, dp, Unit(p));
    SumLinear(n, h, part, dq, Unit(q));
    SumOnly(n, Unit(p), p);
    SumOnly(n, Unit(q), q);
  }

  lemma FrobeniusByColumns(n: nat, a: Mat)
    ensures Frobenius(n, a) == Sum(n, ColSquare(n, a))
  {
    var sq: Mat := (i, j) => a(i, j) * a(i, j);
    SumSwap(n, n, sq);
    forall i | 0 <= i < n ensures RowSums(n, sq)(i) == RowSquare(n, a)(i) {
      SumEq(n, Row(sq, i), Times(Row(a, i), Row(a, i)));
    }
    SumEq(n, RowSums(n, sq), RowSquare(n, a));
    forall j | 0 <= j < n ensures ColSums(n, sq)(j) == ColSquare(n, a)(j) {
      SumEq(n, Col(sq, j), Times(Col(a, j), Col(a, j)));
    }
    SumEq(n, ColSums(n, sq), ColSquare(n, a));
  }

  lemma FrobeniusKept(n: nat, g: Rotation, a: Mat)
    requires Ok(n, g)
    ensures Frobenius(n, Turned(g, a)) == Frobenius(n, a)
  {
    var (cols, b) := (TurnCols(g, a), Turned(g, a));
    forall i | 0 <= i < n ensures RowSquare(n, cols)(i) == RowSquare(n, a)(i) {
      DotEq(n, Row(cols, i), Row(cols, i), Turn(g, Row(a, i)), Turn(g, Row(a, i)));
      TurnKeepsDot(n, g, Row(a, i), Row(a, i));
    }
    SumEq(n, RowSquare(n, cols), RowSquare(n, a));
    forall j | 0 <= j < n ensures ColSquare(n, b)(j) == ColSquare(n, cols)(j) {
      forall i | 0 <= i < n ensures Col(b, j)(i) == Turn(g, Col(cols, j))(i) {
        TurnedEntry(g, a, i, j);
      }
      DotEq(n, Col(b, j), Col(b, j), Turn(g, Col(cols, j)), Turn(g, Col(cols, j)));
      TurnKeepsDot(n, g, Col(cols, j), Col(cols, j));
    }
    SumEq(n, ColSquare(n, b), ColSquare(n, cols));
    FrobeniusByColumns(n, b);
    FrobeniusByColumns(n, cols);
  }

  lemma CircleKeepsSquares(c: real, s: real, x: real, y: real)
    requires c * c + s * s == 1.0
    ensures Square(First(c, s, x, y)) + Square(Second(c, s, x, y)) == Square(x) + Square(y)
  {
    assert Square(First(c, s, x, y)) + Square(Second(c, s, x, y)) == (c * c + s * s) * (x * x + y * y);
  }

  /** The four entries at the crossings of rows and columns p and q keep their sum of squares, and
      the two diagonal ones their sum. */
  lemma CrossingKept(g: Rotation, a: Mat)
    requires g.p < g.q && g.c * g.c + g.s * g.s == 1.0
    ensures var (b, p, q) := (Turned(g, a), g.p, g.q);
            && Square(b(p, p)) + Square(b(p, q)) + Square(b(q, p)) + Square(b(q, q))
               == Square(a(p, p)) + Square(a(p, q)) + Square(a(q, p)) + Square(a(q, q))
            && b(p, p) + b(q, q) == a(p, p) + a(q, q)
  {
    hide Square, First, Second, Turned, TurnCols;
    var (p, q, cols) := (g.p, g.q, TurnCols(g, a));
    CircleKeepsSquares(g.c, g.s, a(p, p), a(p, q));
    CircleKeepsSquares(g.c, g.s, a(q, p), a(q, q));
    CircleKeepsSquares(g.c, g.s, cols(p, p), cols(q, p));
    CircleKeepsSquares(g.c, g.s, cols(p, q), cols(q, q));
    Crossing(g, a, p, p);
    Crossing(g, a, p, q);
    Crossing(g, a, q, p);
    Crossing(g, a, q, q);
    CircleKeepsTrace(g.c, g.s, a(p, p), a(p, q), a(q, p), a(q, q));
  }

  lemma CircleKeepsTrace(c: real, s: real, x: real, z: real, z': real, y: real)
    requires c * c + s * s == 1.0
    ensures First(c, s, First(c, s, x, z), First(c, s, z', y))
            + Second(c, s, Second(c, s, x, z), Second(c, s, z', y)) == x + y
  {
    assert c * (c * x - s * z) - s * (c * z' - s * y) + (s * (s * x + c * z) + c * (s * z' + c * y))
        == (c * c + s * s) * (x + y);
  }

  /** One rotation: the pair becomes zero, the matrix stays symmetric with the same trace and the
      same Frobenius norm, and the off-diagonal squares fall by exactly twice the square removed. */
  lemma RotationDescends(root: real -> real, n: nat, a: Mat, p: nat, q: nat)
    requires IsSqrt(root) && p < q < n && Symmetric(n, a) && a(p, q) != 0.0
    ensures var b := Turned(Angle(root, a, p, q), a);
            && b(p, q) == 0.0 == b(q, p)
            && Symmetric(n, b)
            && Trace(n, b) == Trace(n, a)
            && Frobenius(n, b) == Frobenius(n, a)
            && OffDiagonal(n, b) == OffDiagonal(n, a) - 2.0 * Square(a(p, q))
  {
    var g := Angle(root, a, p, q);
    var b := Turned(g, a);
    hide Angle, Turned, TurnCols, Frobenius, Dot, Theta, TangentOf;
    AngleIsRotation(root, a, p, q);
    assert g.p == p && g.q == q by { AnglePlane(root, a, p, q); }
    PairVanishes(root, n, a, p, q);
    FrobeniusKept(n, g, a);
    CrossingKept(g, a);
    forall i | 0 <= i < n && i != p && i != q ensures b(i, i) == a(i, i) {
      OtherDiagonal(g, a, i);
    }
    SumTwo(n, DiagonalOf(a), DiagonalOf(b), p, q);
    SumTwo(n, DiagonalSquare(a), DiagonalSquare(b), p, q);
    TurnedSymmetric(n, g, a);
  }

  lemma AnglePlane(root: real -> real, a: Mat, p: nat, q: nat)
    requires IsSqrt(root) && a(p, q) != 0.0
    ensures Angle(root, a, p, q).p == p && Angle(root, a, p, q).q == q
  {}

  lemma OtherDiagonal(g: Rotation, a: Mat, i: int)
    requires i != g.p && i != g.q
    ensures Turned(g, a)(i, i) == a(i, i)
  {
    TurnedRow(g, a, i, i);
    HalfTurned(g, a, i, i);
  }

  lemma TurnedSymmetric(n: nat, g: Rotation, a: Mat)
    requires g.p < g.q < n && Symmetric(n, a)
    ensures Symmetric(n, Turned(g, a))
  {
    var jt := Transpose(J(g));
    hide J, Turned, Congruent, Transpose;
    CongruentSymmetric(n, jt, a);
    forall i, j | 0 <= i < n && 0 <= j < n ensures Turned(g, a)(i, j) == Turned(g, a)(j, i) {
      TurnedIsCongruent(n, g, a, i, j);
      TurnedIsCongruent(n, g, a, j, i);
    }
  }

  // ---- A diagonal end

  ghost predicate Diagonal(n: nat, d: Mat) {
    forall i, j | 0 <= i < n && 0 <= j < n && i != j :: d(i, j) == 0.0
  }

  ghost predicate Decomposes(n: nat, input: Mat, v: Mat, d: Mat) {
    Orthogonal(n, v) && Same(n, Congruent(n, v, d), input)
  }

  /** Column m of v is a unit eigenvector of the input for d(m, m). */
  lemma ColumnIsEigenvector(n: nat, input: Mat, v: Mat, d: Mat, m: nat, i: nat)
    requires Decomposes(n, input, v, d) && Diagonal(n, d) && m < n && i < n
    ensures MatVec(n, input, Col(v, m))(i) == d(m, m) * v(i, m)
    ensures Dot(n, Col(v, m), Col(v, m)) == 1.0
  {
    hide Dot, Mul;
    var (y, e, vt) := (Col(v, m), Unit(m), Transpose(v));
    forall k | 0 <= k < n ensures MatVec(n, v, e)(k) == y(k) { ApplyUnit(n, v, m, k); }
    forall k | 0 <= k < n ensures MatVec(n, vt, y)(k) == e(k) {
      MatVecEq(n, vt, vt, y, MatVec(n, v, e), k);
    }
    var de: Vec := k => d(m, m) * e(k);
    forall k | 0 <= k < n ensures MatVec(n, d, MatVec(n, vt, y))(k) == de(k) {
      MatVecEq(n, d, d, MatVec(n, vt, y), e, k);
      ApplyUnit(n, d, m, k);
    }
    MatVecEq(n, input, Congruent(n, v, d), y, y, i);
    MulThenApply(n, Mul(n, v, d), vt, y, i);
    MulThenApply(n, v, d, MatVec(n, vt, y), i);
    MatVecEq(n, v, v, MatVec(n, d, MatVec(n, vt, y)), de, i);
    DotScaled(n, Row(v, i), de, d(m, m), e);
    calc {
      MatVec(n, input, y)(i);
      MatVec(n, Congruent(n, v, d), y)(i);
      MatVec(n, v, MatVec(n, d, MatVec(n, vt, y)))(i);
      MatVec(n, v, de)(i);
      d(m, m) * MatVec(n, v, e)(i);
    }

    DotEq(n, y, y, Row(vt, m), y);
    assert Dot(n, Row(vt, m), y) == MatVec(n, vt, y)(m);
  }

  /** Whether d is diagonal or not: column m of v is a unit vector on which the input's quadratic form is
      d(m, m). */
  lemma ColumnQuotient(n: nat, input: Mat, v: Mat, d: Mat, m: nat)
    requires Decomposes(n, input, v, d) && m < n
    ensures var y := Col(v, m); Quad(n, input, y) == d(m, m) && Dot(n, y, y) == 1.0
  {
    hide Dot, Mul, Congruent;
    var (y, e, vt) := (Col(v, m), Unit(m), Transpose(v));
    forall k | 0 <= k < n ensures MatVec(n, v, e)(k) == y(k) { ApplyUnit(n, v, m, k); }
    forall k | 0 <= k < n ensures MatVec(n, vt, y)(k) == e(k) {
      MatVecEq(n, vt, vt, y, MatVec(n, v, e), k);
    }
    DotEq(n, y, y, Row(vt, m), y);
    assert Dot(n, Row(vt, m), y) == MatVec(n, vt, y)(m);
    SameQuad(n, input, Congruent(n, v, d), y);
    CongruentQuad(n, v, d, y);
    QuadUnit(n, d, MatVec(n, vt, y), m);
  }

  lemma QuadUnit(n: nat, d: Mat, w: Vec, m: nat)
    requires m < n && forall k | 0 <= k < n :: w(k) == Unit(m)(k)
    ensures Quad(n, d, w) == d(m, m)
  {
    hide Dot;
    forall k | 0 <= k < n ensures MatVec(n, d, w)(k) == d(k, m) {
      MatVecEq(n, d, d, w, Unit(m), k);
      ApplyUnit(n, d, m, k);
    }
    DotEq(n, w, MatVec(n, d, w), Unit(m), Col(d, m));
    DotUnit(n, m, Col(d, m));
  }

  /** An orthogonal matrix keeps lengths. */
  lemma LengthKept(n: nat, v: Mat, x: Vec)
    requires Orthogonal(n, v)
    ensures var w := MatVec(n, Transpose(v), x); Dot(n, w, w) == Dot(n, x, x)
  {
    var w := MatVec(n, Transpose(v), x);
    var vtt := Transpose(Transpose(v));
    Adjoint(n, w, Transpose(v), x);
    forall i | 0 <= i < n ensures MatVec(n, vtt, w)(i) == x(i) {
      MatVecEq(n, vtt, v, w, w, i);
    }
    DotEq(n, MatVec(n, vtt, w), x, x, x);
  }

  /** No direction has a smaller quotient than the smallest diagonal entry. */
  lemma SmallestIsSmallest(n: nat, input: Mat, v: Mat, d: Mat, m: nat, x: Vec)
    requires Decomposes(n, input, v, d) && Diagonal(n, d) && m < n
    requires forall i | 0 <= i < n :: d(m, m) <= d(i, i)
    ensures Quad(n, input, x) >= d(m, m) * Dot(n, x, x)
  {
    hide Quad, Dot, MatVec, Congruent, Orthogonal, Diagonal;
    SameQuad(n, input, Congruent(n, v, d), x);
    CongruentQuad(n, v, d, x);
    DiagonalBound(n, d, d(m, m), MatVec(n, Transpose(v), x));
    LengthKept(n, v, x);
  }

  lemma DiagonalBound(n: nat, d: Mat, least: real, w: Vec)
    requires Diagonal(n, d) && forall i | 0 <= i < n :: least <= d(i, i)
    ensures Quad(n, d, w) >= least * Dot(n, w, w)
  {
    hide Low, MatVec;
    var (low, high) := (Low(least, w), Times(w, MatVec(n, d, w)));
    forall i | 0 <= i < n ensures high(i) >= low(i) {
      DiagonalTerm(n, d, least, w, i);
    }
    SumAtLeast(n, high, low);
    LowIsScaled(n, least, w);
  }

  lemma LowIsScaled(n: nat, least: real, w: Vec)
    ensures Sum(n, Low(least, w)) == least * Dot(n, w, w)
  {
    SumScaled(n, Low(least, w), least, Times(w, w));
  }

  function Low(least: real, w: Vec): Vec { i => least * (w(i) * w(i)) }

  lemma DiagonalRow(n: nat, d: Mat, w: Vec, i: nat)
    requires Diagonal(n, d) && i < n
    ensures MatVec(n, d, w)(i) == d(i, i) * w(i)
  {
    forall j | 0 <= j < n && j != i ensures Times(Row(d, i), w)(j) == 0.0 {
      ZeroTimes(d(i, j), w(j));
    }
    SumOnly(n, Times(Row(d, i), w), i);
  }

  lemma DiagonalTerm(n: nat, d: Mat, least: real, w: Vec, i: nat)
    requires Diagonal(n, d) && i < n && least <= d(i, i)
    ensures Times(w, MatVec(n, d, w))(i) >= Low(least, w)(i)
  {
    hide MatVec;
    DiagonalRow(n, d, w, i);
    ScaledSquare(least, d(i, i), w(i));
  }

  lemma ZeroTimes(d: real, w: real)
    requires d == 0.0
    ensures d * w == 0.0
  {}

  lemma ScaledSquare(least: real, d: real, w: real)
    requires least <= d
    ensures w * (d * w) >= least * (w * w)
  {
    SquareNonneg(w);
    assert w * (d * w) - least * (w * w) == (d - least) * (w * w);
    ProductNonneg(d - least, w * w);
  }

  lemma {:induction false} SumAtLeast(n: nat, f: Vec, g: Vec)
    requires forall i | 0 <= i < n :: f(i) >= g(i)
    ensures Sum(n, f) >= Sum(n, g)
  {
    if n > 0 { SumAtLeast(n - 1, f, g); }
  }
}
