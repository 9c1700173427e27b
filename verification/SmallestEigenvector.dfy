/** The whole eigenvector search: at most fifty sweeps of rotations over the pairs of a symmetric 3x3
    matrix, changing the matrix and the accumulated rotations in place. */
module SmallestEigenvector {
  import opened Matrices
  import opened Rounding
  import opened Jacobi

  type Grid = seq<seq<real>>

  const SWEEPS := 50

  predicate Shape(g: Grid) { |g| == 3 && |g[0]| == 3 && |g[1]| == 3 && |g[2]| == 3 }

  function Of(g: Grid): Mat {
    (i, j) => if 0 <= i < |g| && 0 <= j < |g[i]| then g[i][j] else 0.0
  }

  function Rows(a: Mat): (g: Grid)
    ensures Shape(g) && Same(3, Of(g), a)
  {
    [[a(0, 0), a(0, 1), a(0, 2)], [a(1, 0), a(1, 1), a(1, 2)], [a(2, 0), a(2, 1), a(2, 2)]]
  }

  /** The matrix being made diagonal and the product of the rotations so far. */
  datatype State = State(a: Grid, v: Grid)

  const IDENTITY: Grid := [[1.0, 0.0, 0.0], [0.0, 1.0, 0.0], [0.0, 0.0, 1.0]]

  function Rotate(root: real -> real, s: State, p: nat, q: nat): State
    requires IsSqrt(root)
  {
    var a := Of(s.a);
    if a(p, q) == 0.0 then s
    else
      var g := Angle(root, a, p, q);
      State(Rows(Turned(g, a)), Rows(TurnCols(g, Of(s.v))))
  }

  function Sweep(root: real -> real, s: State): State
    requires IsSqrt(root)
  {
    Rotate(root, Rotate(root, Rotate(root, s, 0, 1), 0, 2), 1, 2)
  }

  predicate Done(a: Grid) {
    Of(a)(0, 1) == 0.0 && Of(a)(0, 2) == 0.0 && Of(a)(1, 2) == 0.0
  }

  function Sweeps(root: real -> real, s: State, k: nat): State
    requires IsSqrt(root)
    decreases k
  {
    if k == 0 || Done(s.a) then s else Sweeps(root, Sweep(root, s), k - 1)
  }

  /** The first index of the smallest diagonal entry. */
  function Least(a: Mat): nat {
    var m := if a(1, 1) < a(0, 0) then 1 else 0;
    if a(2, 2) < a(m, m) then 2 else m
  }

  function Column(v: Mat, m: nat): seq<real> { [v(0, m), v(1, m), v(2, m)] }

  ghost predicate Inv(input: Grid, s: State) {
    && Shape(s.a) && Shape(s.v)
    && Symmetric(3, Of(s.a))
    && Decomposes(3, Of(input), Of(s.v), Of(s.a))
  }

  // ---- Entrywise equal matrices behave alike

  lemma SameSums(n: nat, a: Mat, b: Mat)
    requires Same(n, a, b)
    ensures Trace(n, a) == Trace(n, b) && Frobenius(n, a) == Frobenius(n, b)
    ensures OffDiagonal(n, a) == OffDiagonal(n, b)
  {
    SumEq(n, DiagonalOf(a), DiagonalOf(b));
    SumEq(n, DiagonalSquare(a), DiagonalSquare(b));
    forall i | 0 <= i < n ensures RowSquare(n, a)(i) == RowSquare(n, b)(i) {
      DotEq(n, Row(a, i), Row(a, i), Row(b, i), Row(b, i));
    }
    SumEq(n, RowSquare(n, a), RowSquare(n, b));
  }

  lemma SameOrthogonal(n: nat, v: Mat, w: Mat)
    requires Same(n, v, w) && Orthogonal(n, v)
    ensures Orthogonal(n, w)
  {
    hide MatVec;
    var (vt, wt) := (Transpose(v), Transpose(w));
    forall z: Vec, i | 0 <= i < n
      ensures MatVec(n, w, MatVec(n, wt, z))(i) == z(i) && MatVec(n, wt, MatVec(n, w, z))(i) == z(i)
    {
      forall k | 0 <= k < n ensures MatVec(n, wt, z)(k) == MatVec(n, vt, z)(k) { MatVecEq(n, wt, vt, z, z, k); }
      forall k | 0 <= k < n ensures MatVec(n, w, z)(k) == MatVec(n, v, z)(k) { MatVecEq(n, w, v, z, z, k); }
      MatVecEq(n, w, v, MatVec(n, wt, z), MatVec(n, vt, z), i);
      MatVecEq(n, wt, vt, MatVec(n, w, z), MatVec(n, v, z), i);
    }
  }

  lemma SameCongruent(n: nat, v: Mat, d: Mat, w: Mat, e: Mat, i: nat, j: nat)
    requires Same(n, v, w) && Same(n, d, e) && i < n && j < n
    ensures Congruent(n, v, d)(i, j) == Congruent(n, w, e)(i, j)
  {
    EntryOfCongruent(n, v, d, i, j);
    EntryOfCongruent(n, w, e, i, j);
    var (x, y) := (MatVec(n, d, Row(v, j)), MatVec(n, e, Row(w, j)));
    forall k | 0 <= k < n ensures x(k) == y(k) { MatVecEq(n, d, e, Row(v, j), Row(w, j), k); }
    DotEq(n, Row(v, i), x, Row(w, i), y);
  }

  // ---- What a rotation, and a run of them, keeps

  lemma StartHolds(input: Grid)
    requires Shape(input) && Symmetric(3, Of(input))
    ensures Inv(input, State(input, IDENTITY))
  {
    var v := Of(IDENTITY);
    forall z: Vec, i: nat | i < 3 ensures MatVec(3, v, z)(i) == z(i) == MatVec(3, Transpose(v), z)(i) {
      DotUnit(3, i, z);
      DotEq(3, Row(v, i), z, Unit(i), z);
      DotEq(3, Row(Transpose(v), i), z, Unit(i), z);
    }
    forall z: Vec, i: nat | i < 3
      ensures MatVec(3, v, MatVec(3, Transpose(v), z))(i) == z(i) == MatVec(3, Transpose(v), MatVec(3, v, z))(i)
    {
      assert MatVec(3, Transpose(v), z)(i) == z(i) == MatVec(3, v, z)(i);
    }
    forall i: nat, j: nat | i < 3 && j < 3 ensures Congruent(3, v, Of(input))(i, j) == Of(input)(i, j) {
      EntryOfCongruent(3, v, Of(input), i, j);
      var col := MatVec(3, Of(input), Row(v, j));
      DotEq(3, Row(v, i), col, Unit(i), col);
      DotUnit(3, i, col);
      DotEq(3, Row(Of(input), i), Row(v, j), Row(Of(input), i), Unit(j));
      ApplyUnit(3, Of(input), j, i);
    }
  }

  /** The rotations so far times the turned matrix still give the input. */
  lemma RotateKeeps(root: real -> real, input: Grid, s: State, p: nat, q: nat)
    requires IsSqrt(root) && Inv(input, s) && p < q < 3
    ensures Inv(input, Rotate(root, s, p, q))
  {
    var (a, v) := (Of(s.a), Of(s.v));
    if a(p, q) != 0.0 {
      var g := Angle(root, a, p, q);
      AngleIsRotation(root, a, p, q);
      AnglePlane(root, a, p, q);
      hide Angle, Turned, TurnCols, J, Mul, Congruent, Row, Turn;
      TurnedSymmetric(3, g, a);
      TurnedStaysOrthogonal(3, v, g);
      forall i, k | 0 <= i < 3 && 0 <= k < 3 ensures TurnCols(g, v)(i, k) == Mul(3, v, J(g))(i, k) {
        ColumnsAreProduct(g, v, i, k);
      }
      var s' := Rotate(root, s, p, q);
      SameOrthogonal(3, Mul(3, v, J(g)), Of(s'.v));
      forall i, j | 0 <= i < 3 && 0 <= j < 3
        ensures Congruent(3, Of(s'.v), Of(s'.a))(i, j) == Of(input)(i, j)
      {
        SameCongruent(3, Of(s'.v), Of(s'.a), Mul(3, v, J(g)), Turned(g, a), i, j);
        ProductStays(3, v, a, g, i, j);
      }
    }
  }

  lemma ColumnsAreProduct(g: Rotation, v: Mat, i: nat, k: nat)
    requires g.p < g.q < 3 && i < 3 && k < 3
    ensures TurnCols(g, v)(i, k) == Mul(3, v, J(g))(i, k)
  {
    RowTurns(3, v, g, i, k);
    assert Row(Mul(3, v, J(g)), i)(k) == Mul(3, v, J(g))(i, k);
  }

  /** One rotation keeps trace and Frobenius norm, clears its pair, and takes exactly twice the
      square it removes off the off-diagonal squares. */
  lemma RotateDescends(root: real -> real, s: State, p: nat, q: nat)
    requires IsSqrt(root) && Symmetric(3, Of(s.a)) && p < q < 3
    ensures var (a, b) := (Of(s.a), Of(Rotate(root, s, p, q).a));
            && b(p, q) == 0.0
            && Trace(3, b) == Trace(3, a) && Frobenius(3, b) == Frobenius(3, a)
            && OffDiagonal(3, b) == OffDiagonal(3, a) - 2.0 * Square(a(p, q))
  {
    var a := Of(s.a);
    if a(p, q) != 0.0 {
      RotationDescends(root, 3, a, p, q);
      SameSums(3, Turned(Angle(root, a, p, q), a), Of(Rotate(root, s, p, q).a));
    }
  }

  // ---- How fast the matrix becomes diagonal

  lemma OffDiagonalOfThree(a: Mat)
    requires Symmetric(3, a)
    ensures OffDiagonal(3, a) == 2.0 * (Square(a(0, 1)) + Square(a(0, 2)) + Square(a(1, 2)))
  {
    RowOfThree(a, 0);
    RowOfThree(a, 1);
    RowOfThree(a, 2);
    var (r, d) := (RowSquare(3, a), DiagonalSquare(a));
    assert Sum(3, r) == r(0) + r(1) + r(2) && Sum(3, d) == d(0) + d(1) + d(2);
    assert a(1, 0) == a(0, 1) && a(2, 0) == a(0, 2) && a(2, 1) == a(1, 2);
    hide Square, RowSquare;
  }

  lemma RowOfThree(a: Mat, i: int)
    ensures RowSquare(3, a)(i) == Square(a(i, 0)) + Square(a(i, 1)) + Square(a(i, 2))
  {
    var t := Times(Row(a, i), Row(a, i));
    assert Sum(3, t) == t(0) + t(1) + t(2);
  }

  /** With the pair (0, 1) cleared, clearing (0, 2) brings back at most half of the square at (1, 2). */
  lemma LittleComesBack(root: real -> real, s: State)
    requires IsSqrt(root) && Symmetric(3, Of(s.a)) && Of(s.a)(0, 1) == 0.0
    ensures Square(Of(Rotate(root, s, 0, 2).a)(0, 1)) <= Square(Of(s.a)(1, 2)) / 2.0
  {
    var a := Of(s.a);
    SquareIsNonneg(a(1, 2));
    if a(0, 2) != 0.0 {
      var g := Angle(root, a, 0, 2);
      AngleIsSmall(root, a, 0, 2);
      AnglePlane(root, a, 0, 2);
      hide Angle;
      TurnedSymmetric(3, g, a);
      TurnedRow(g, a, 1, 0);
      HalfTurned(g, a, 1, 0);
      var b := Turned(g, a);
      assert a(1, 0) == a(0, 1);
      assert b(0, 1) == b(1, 0) == First(g.c, g.s, 0.0, a(1, 2));
      SineScaled(g.c, g.s, a(1, 2));
    }
  }

  lemma SineScaled(c: real, s: real, y: real)
    requires s * s <= 0.5
    ensures Square(First(c, s, 0.0, y)) <= Square(y) / 2.0
  {
    assert First(c, s, 0.0, y) == -s * y;
    assert Square(-s * y) == (s * s) * (y * y);
    SquareNonneg(y);
    ProductMonotone(s * s, 0.5, y * y);
  }

  /** Every sweep at least halves the off-diagonal squares. */
  lemma SweepHalves(root: real -> real, s: State)
    requires IsSqrt(root) && Shape(s.a) && Symmetric(3, Of(s.a))
    ensures Off(Sweep(root, s)) <= Off(s) / 2.0
  {
    hide Rotate, OffDiagonal, Square, Frobenius, Trace;
    var s1 := Rotate(root, s, 0, 1);
    var s2 := Rotate(root, s1, 0, 2);
    RotateSymmetric(root, s, 0, 1);
    RotateSymmetric(root, s1, 0, 2);
    RotateDescends(root, s, 0, 1);
    RotateDescends(root, s1, 0, 2);
    RotateDescends(root, s2, 1, 2);
    LittleComesBack(root, s1);
    var (a1, a2) := (Of(s1.a), Of(s2.a));
    OffDiagonalOfThree(a1);
    OffDiagonalOfThree(a2);
    SquareIsNonneg(Of(s.a)(0, 1));
    SquareIsNonneg(a1(0, 2));
    assert Square(a1(0, 1)) == 0.0 == Square(a2(0, 2)) by { ZeroSquare(a1(0, 1)); ZeroSquare(a2(0, 2)); }
  }

  lemma ZeroSquare(x: real)
    requires x == 0.0
    ensures Square(x) == 0.0
  {}

  lemma RotateSymmetric(root: real -> real, s: State, p: nat, q: nat)
    requires IsSqrt(root) && Shape(s.a) && Symmetric(3, Of(s.a)) && p < q < 3
    ensures Shape(Rotate(root, s, p, q).a) && Symmetric(3, Of(Rotate(root, s, p, q).a))
  {
    if Of(s.a)(p, q) != 0.0 {
      AnglePlane(root, Of(s.a), p, q);
      hide Angle, Turned;
      TurnedSymmetric(3, Angle(root, Of(s.a), p, q), Of(s.a));
    }
  }

  function TwoTo(k: nat): nat { if k == 0 then 1 else 2 * TwoTo(k - 1) }

  function Off(s: State): real { OffDiagonal(3, Of(s.a)) }

  /** So k sweeps leave at most the 2^k-th part of the off-diagonal squares, and end early only when nothing
      of them is left. */
  lemma {:induction false} SweepsConverge(root: real -> real, s: State, k: nat)
    requires IsSqrt(root) && Shape(s.a) && Symmetric(3, Of(s.a))
    ensures TwoTo(k) as real * Off(Sweeps(root, s, k)) <= Off(s)
    ensures 0.0 <= Off(Sweeps(root, s, k)) && (Off(Sweeps(root, s, k)) == 0.0 <==> Done(Sweeps(root, s, k).a))
    decreases k
  {
    hide Off, Sweep, Of, Done, Symmetric;
    OffIsZero(s);
    if k == 0 {
    } else if Done(s.a) {
      assert TwoTo(k) as real * 0.0 == 0.0;
    } else {
      SweepHalves(root, s);
      SweepSymmetric(root, s);
      SweepsConverge(root, Sweep(root, s), k - 1);
      Doubled(TwoTo(k - 1) as real, Off(Sweeps(root, s, k)), Off(s));
    }
  }

  lemma Doubled(n: real, x: real, d: real)
    requires n * x <= d / 2.0
    ensures 2.0 * n * x <= d
  {}

  lemma OffIsZero(s: State)
    requires Shape(s.a) && Symmetric(3, Of(s.a))
    ensures Off(s) >= 0.0 && (Off(s) == 0.0 <==> Done(s.a))
  {
    var a := Of(s.a);
    OffDiagonalOfThree(a);
    hide OffDiagonal, Of;
    ZeroSquareOnly(a(0, 1));
    ZeroSquareOnly(a(0, 2));
    ZeroSquareOnly(a(1, 2));
    hide Square;
  }

  lemma ZeroSquareOnly(x: real)
    ensures Square(x) >= 0.0 && (Square(x) == 0.0 <==> x == 0.0)
  {
    SquareIsNonneg(x);
    if x != 0.0 { InverseSquare(x, 1.0 / x, Square(x)); }
  }

  lemma InverseSquare(x: real, y: real, z: real)
    requires x * y == 1.0 && z == x * x
    ensures z * (y * y) == 1.0
  {
    assert z * (y * y) == (x * y) * (x * y);
  }

  lemma SweepSymmetric(root: real -> real, s: State)
    requires IsSqrt(root) && Shape(s.a) && Symmetric(3, Of(s.a))
    ensures Shape(Sweep(root, s).a) && Symmetric(3, Of(Sweep(root, s).a))
  {
    hide Rotate, Symmetric;
    var s1 := Rotate(root, s, 0, 1);
    var s2 := Rotate(root, s1, 0, 2);
    RotateSymmetric(root, s, 0, 1);
    RotateSymmetric(root, s1, 0, 2);
    RotateSymmetric(root, s2, 1, 2);
  }

  function Measure(s: State): (real, real) { (Trace(3, Of(s.a)), Frobenius(3, Of(s.a))) }

  lemma SweepKeeps(root: real -> real, input: Grid, s: State)
    requires IsSqrt(root) && Inv(input, s)
    ensures Inv(input, Sweep(root, s)) && Measure(Sweep(root, s)) == Measure(s)
    ensures OffDiagonal(3, Of(Sweep(root, s).a)) <= OffDiagonal(3, Of(s.a)) - 2.0 * Square(Of(s.a)(0, 1))
  {
    hide Rotate, Trace, Frobenius, OffDiagonal, Square;
    var s1 := Rotate(root, s, 0, 1);
    var s2 := Rotate(root, s1, 0, 2);
    RotateKeeps(root, input, s, 0, 1);
    RotateKeeps(root, input, s1, 0, 2);
    RotateKeeps(root, input, s2, 1, 2);
    RotateDescends(root, s, 0, 1);
    RotateDescends(root, s1, 0, 2);
    RotateDescends(root, s2, 1, 2);
    SquareIsNonneg(Of(s1.a)(0, 2));
    SquareIsNonneg(Of(s2.a)(1, 2));
  }

  lemma SquareIsNonneg(x: real)
    ensures Square(x) >= 0.0
  {}

  lemma {:induction false} SweepsKeep(root: real -> real, input: Grid, s: State, k: nat)
    requires IsSqrt(root) && Inv(input, s)
    ensures Inv(input, Sweeps(root, s, k)) && Measure(Sweeps(root, s, k)) == Measure(s)
    ensures OffDiagonal(3, Of(Sweeps(root, s, k).a)) <= OffDiagonal(3, Of(s.a))
    decreases k
  {
    hide Sweep, Of, Inv, OffDiagonal, Measure, Square;
    if k > 0 && !Done(s.a) {
      SweepKeeps(root, input, s);
      SquareIsNonneg(Of(s.a)(0, 1));
      SweepsKeep(root, input, Sweep(root, s), k - 1);
    }
  }

  /** What the returned vector means: a unit eigenvector for the entry d(m, m), and no direction has a
      smaller Rayleigh quotient. */
  ghost predicate SmallestFor(a: Mat, e: Vec, value: real) {
    && Dot(3, e, e) == 1.0
    && (forall i: nat | i < 3 :: MatVec(3, a, e)(i) == value * e(i))
    && (forall x: Vec :: Quad(3, a, x) >= value * Dot(3, x, x))
  }

  lemma LeastOfDone(d: Mat)
    requires Symmetric(3, d) && d(0, 1) == 0.0 && d(0, 2) == 0.0 && d(1, 2) == 0.0
    ensures Diagonal(3, d) && Least(d) < 3
    ensures forall i | 0 <= i < 3 :: d(Least(d), Least(d)) <= d(i, i)
    ensures forall i | 0 <= i < Least(d) :: d(Least(d), Least(d)) < d(i, i)
  {
    assert d(1, 0) == d(0, 1) && d(2, 0) == d(0, 2) && d(2, 1) == d(1, 2);
  }

  lemma DiagonalGivesSmallest(a: Mat, v: Mat, d: Mat, m: nat)
    requires Decomposes(3, a, v, d) && Diagonal(3, d) && m < 3
    requires forall i | 0 <= i < 3 :: d(m, m) <= d(i, i)
    ensures SmallestFor(a, Col(v, m), d(m, m))
  {
    var value := d(m, m);
    hide Dot, MatVec, Quad, Decomposes, Diagonal;
    forall i: nat | i < 3 ensures MatVec(3, a, Col(v, m))(i) == value * Col(v, m)(i) {
      ColumnIsEigenvector(3, a, v, d, m, i);
    }
    ColumnIsEigenvector(3, a, v, d, m, 0);
    forall x: Vec ensures Quad(3, a, x) >= value * Dot(3, x, x) {
      SmallestIsSmallest(3, a, v, d, m, x);
    }
  }

  lemma DoneIsSmallest(input: Grid, s: State)
    requires Inv(input, s) && Done(s.a)
    ensures var (d, m) := (Of(s.a), Least(Of(s.a)));
            SmallestFor(Of(input), Col(Of(s.v), m), d(m, m))
  {
    hide SmallestFor, Decomposes, Of, Least;
    LeastOfDone(Of(s.a));
    DiagonalGivesSmallest(Of(input), Of(s.v), Of(s.a), Least(Of(s.a)));
  }

  /** After any number of sweeps: the trace and the Frobenius norm are the input's and the
      off-diagonal squares have not grown. If the sweeps ended diagonal, the returned column is a
      smallest eigenvector of the input. */
  lemma FindsSmallestEigenvector(root: real -> real, input: Grid, k: nat)
    requires IsSqrt(root) && Shape(input) && Symmetric(3, Of(input))
    ensures var end := Sweeps(root, State(input, IDENTITY), k);
            var (a, d, m) := (Of(input), Of(end.a), Least(Of(end.a)));
            && Trace(3, d) == Trace(3, a) && Frobenius(3, d) == Frobenius(3, a)
            && OffDiagonal(3, d) <= OffDiagonal(3, a)
            && (Done(end.a) ==> SmallestFor(a, Col(Of(end.v), m), d(m, m)))
  {
    var start := State(input, IDENTITY);
    StartHolds(input);
    SweepsKeep(root, input, start, k);
    if Done(Sweeps(root, start, k).a) {
      DoneIsSmallest(input, Sweeps(root, start, k));
    }
  }

  // ---- What the search gives whether or not the sweeps ended diagonal

  /** What is left beside the diagonal. */
  function Rest(d: Mat): real { Abs(d(0, 1)) + Abs(d(0, 2)) + Abs(d(1, 2)) }

  lemma RestIsSmall(d: Mat)
    requires Symmetric(3, d)
    ensures 2.0 * Square(Rest(d)) <= 3.0 * OffDiagonal(3, d)
  {
    OffDiagonalOfThree(d);
    var (x, y, z) := (Abs(d(0, 1)), Abs(d(0, 2)), Abs(d(1, 2)));
    assert Square(d(0, 1)) == Square(x) && Square(d(0, 2)) == Square(y) && Square(d(1, 2)) == Square(z);
    hide OffDiagonal;
    ThreeSquares(x, y, z);
  }

  lemma ThreeSquares(x: real, y: real, z: real)
    ensures Square(x + y + z) <= 3.0 * (Square(x) + Square(y) + Square(z))
  {
    assert 3.0 * (x * x + y * y + z * z) - (x + y + z) * (x + y + z)
        == (x - y) * (x - y) + (x - z) * (x - z) + (y - z) * (y - z);
    SquareNonneg(x - y);
    SquareNonneg(x - z);
    SquareNonneg(y - z);
  }

  lemma QuadOfThree(d: Mat, w: Vec)
    requires Symmetric(3, d)
    ensures Quad(3, d, w) == d(0, 0) * Square(w(0)) + d(1, 1) * Square(w(1)) + d(2, 2) * Square(w(2))
                             + 2.0 * (Pair(d(0, 1), w(0), w(1)) + Pair(d(0, 2), w(0), w(2)) + Pair(d(1, 2), w(1), w(2)))
  {
    RowTimes(d, w, 0);
    RowTimes(d, w, 1);
    RowTimes(d, w, 2);
    var t := Times(w, MatVec(3, d, w));
    assert Sum(3, t) == t(0) + t(1) + t(2);
    hide MatVec;
    assert d(1, 0) == d(0, 1) && d(2, 0) == d(0, 2) && d(2, 1) == d(1, 2);
  }

  function Pair(d: real, x: real, y: real): real { d * x * y }

  lemma RowTimes(d: Mat, w: Vec, i: int)
    ensures MatVec(3, d, w)(i) == d(i, 0) * w(0) + d(i, 1) * w(1) + d(i, 2) * w(2)
  {
    var t := Times(Row(d, i), w);
    assert Sum(3, t) == t(0) + t(1) + t(2);
  }

  lemma PairBound(d: real, x: real, y: real)
    ensures 2.0 * Pair(d, x, y) >= -(Abs(d) * (Square(x) + Square(y)))
  {
    SquareNonneg(x + y);
    SquareNonneg(x - y);
    if d >= 0.0 {
      ProductNonneg(d, (x + y) * (x + y));
      assert 2.0 * (d * x * y) + d * (x * x + y * y) == d * ((x + y) * (x + y));
    } else {
      ProductNonneg(-d, (x - y) * (x - y));
      assert 2.0 * (d * x * y) - d * (x * x + y * y) == -d * ((x - y) * (x - y));
    }
  }

  /** A symmetric matrix's form is at least the smallest diagonal entry less what is beside the diagonal. */
  lemma NearlyDiagonalBound(d: Mat, least: real, w: Vec)
    requires Symmetric(3, d) && (forall i | 0 <= i < 3 :: least <= d(i, i)) && Dot(3, w, w) == 1.0
    ensures Quad(3, d, w) >= least - Rest(d)
  {
    var t := Times(w, w);
    assert Sum(3, t) == t(0) + t(1) + t(2);
    var (x, y, z) := (Square(w(0)), Square(w(1)), Square(w(2)));
    assert x + y + z == 1.0;
    QuadOfThree(d, w);
    SquareIsNonneg(w(0));
    SquareIsNonneg(w(1));
    SquareIsNonneg(w(2));
    PairWithin(d(0, 1), w(0), w(1));
    PairWithin(d(0, 2), w(0), w(2));
    PairWithin(d(1, 2), w(1), w(2));
    hide Square, Pair, Quad, Dot, Symmetric;
    Weighed(least, d(0, 0), d(1, 1), d(2, 2), x, y, z);
  }

  lemma PairWithin(d: real, x: real, y: real)
    requires Square(x) + Square(y) <= 1.0
    ensures 2.0 * Pair(d, x, y) >= -Abs(d)
  {
    PairBound(d, x, y);
    SquareIsNonneg(x);
    SquareIsNonneg(y);
    hide Square, Pair;
    ProductShrinks(Abs(d), Square(x) + Square(y));
  }

  lemma Weighed(least: real, a: real, b: real, c: real, x: real, y: real, z: real)
    requires least <= a && least <= b && least <= c && 0.0 <= x && 0.0 <= y && 0.0 <= z && x + y + z == 1.0
    ensures a * x + b * y + c * z >= least
  {
    ProductNonneg(a - least, x);
    ProductNonneg(b - least, y);
    ProductNonneg(c - least, z);
    assert (a - least) * x == a * x - least * x;
    assert (b - least) * y == b * y - least * y;
    assert (c - least) * z == c * z - least * z;
    var one := x + y + z;
    assert least * one == least * x + least * y + least * z;
  }

  lemma NearlySmallest(input: Mat, v: Mat, d: Mat, m: nat, x: Vec)
    requires Decomposes(3, input, v, d) && Symmetric(3, d) && m < 3 && Dot(3, x, x) == 1.0
    requires forall i | 0 <= i < 3 :: d(m, m) <= d(i, i)
    ensures Dot(3, Col(v, m), Col(v, m)) == 1.0
    ensures Quad(3, input, Col(v, m)) <= Quad(3, input, x) + Rest(d)
  {
    hide Quad, Dot, MatVec, Congruent, Rest;
    ColumnQuotient(3, input, v, d, m);
    SameQuad(3, input, Congruent(3, v, d), x);
    CongruentQuad(3, v, d, x);
    LengthKept(3, v, x);
    NearlyDiagonalBound(d, d(m, m), MatVec(3, Transpose(v), x));
  }

  lemma LeastIsLeast(d: Mat)
    ensures Least(d) < 3 && forall i | 0 <= i < 3 :: d(Least(d), Least(d)) <= d(i, i)
  {}

  /** However the sweeps ended: the returned column is a unit vector, and no unit vector has a smaller form by
      more than what the sweeps have left, which is squared at most the 2^k-th part of 3/2 of the input's
      off-diagonal squares. */
  lemma FindsNearlySmallest(root: real -> real, input: Grid, k: nat, x: Vec)
    requires IsSqrt(root) && Shape(input) && Symmetric(3, Of(input)) && Dot(3, x, x) == 1.0
    ensures var end := Sweeps(root, State(input, IDENTITY), k);
            var e := Col(Of(end.v), Least(Of(end.a)));
            var gap := Quad(3, Of(input), e) - Quad(3, Of(input), x);
            && Dot(3, e, e) == 1.0
            && (gap > 0.0 ==> 2.0 * (TwoTo(k) as real * Square(gap)) <= 3.0 * OffDiagonal(3, Of(input)))
  {
    hide Quad, Dot, Rest, Square, OffDiagonal, Least, Of, Sweeps, Decomposes;
    var start := State(input, IDENTITY);
    var end := Sweeps(root, start, k);
    StartHolds(input);
    SweepsKeep(root, input, start, k);
    SweepsConverge(root, start, k);
    LeastIsLeast(Of(end.a));
    NearlySmallest(Of(input), Of(end.v), Of(end.a), Least(Of(end.a)), x);
    RestIsSmall(Of(end.a));
    var e := Col(Of(end.v), Least(Of(end.a)));
    var gap := Quad(3, Of(input), e) - Quad(3, Of(input), x);
    if gap > 0.0 {
      GapIsSmall(gap, Rest(Of(end.a)), Off(end), Off(start), TwoTo(k) as real);
    }
  }

  lemma GapIsSmall(gap: real, rest: real, off: real, start: real, n: real)
    requires 0.0 < gap <= rest && 2.0 * Square(rest) <= 3.0 * off && n >= 0.0 && n * off <= start
    ensures 2.0 * (n * Square(gap)) <= 3.0 * start
  {
    ProductMonotone(gap, rest, gap);
    ProductMonotone(gap, rest, rest);
    assert Square(gap) <= Square(rest);
    ProductMonotone(2.0 * Square(gap), 3.0 * off, n);
  }

  // ---- In place

  function View(a: array2<real>): (g: Grid)
    requires a.Length0 == 3 && a.Length1 == 3
    reads a
    ensures Shape(g) && forall i, j | 0 <= i < 3 && 0 <= j < 3 :: g[i][j] == a[i, j]
  {
    [[a[0, 0], a[0, 1], a[0, 2]], [a[1, 0], a[1, 1], a[1, 2]], [a[2, 0], a[2, 1], a[2, 2]]]
  }

  ghost predicate Holds(a: array2<real>, m: Mat)
    reads a
  {
    a.Length0 == 3 && a.Length1 == 3 && forall i, j | 0 <= i < 3 && 0 <= j < 3 :: a[i, j] == m(i, j)
  }

  lemma ViewIsRows(a: array2<real>, m: Mat)
    requires Holds(a, m)
    ensures View(a) == Rows(m) && Same(3, Of(View(a)), m)
  {}

  method TurnColumns(a: array2<real>, g: Rotation, ghost m: Mat)
    requires Holds(a, m) && g.p < g.q < 3
    modifies a
    ensures Holds(a, TurnCols(g, m))
  {
    hide TurnCols, Mix;
    for k := 0 to 3
      invariant forall i, j | 0 <= i < 3 && 0 <= j < 3 :: a[i, j] == if i < k then TurnCols(g, m)(i, j) else m(i, j)
    {
      forall j | 0 <= j < 3 { HalfTurned(g, m, k, j); }
      var (akp, akq) := (a[k, g.p], a[k, g.q]);
      a[k, g.p] := Mix(g.c, akp, -g.s, akq);
      a[k, g.q] := Mix(g.s, akp, g.c, akq);
    }
  }

  method TurnRows(a: array2<real>, g: Rotation, ghost m: Mat)
    requires Holds(a, TurnCols(g, m)) && g.p < g.q < 3
    modifies a
    ensures Holds(a, Turned(g, m))
  {
    hide TurnCols, Turned, Mix;
    ghost var h := TurnCols(g, m);
    for k := 0 to 3
      invariant forall i, j | 0 <= i < 3 && 0 <= j < 3 :: a[i, j] == if j < k then Turned(g, m)(i, j) else h(i, j)
    {
      forall i | 0 <= i < 3 { TurnedRow(g, m, i, k); }
      var (apk, aqk) := (a[g.p, k], a[g.q, k]);
      a[g.p, k] := Mix(g.c, apk, -g.s, aqk);
      a[g.q, k] := Mix(g.s, apk, g.c, aqk);
    }
  }

  /** Storing the zeros changes nothing, because both entries are zero already. */
  method ApplyRotation(a: array2<real>, v: array2<real>, g: Rotation, ghost m: Mat, ghost w: Mat)
    requires g.p < g.q < 3 && a != v && Holds(a, m) && Holds(v, w)
    requires Turned(g, m)(g.p, g.q) == 0.0 == Turned(g, m)(g.q, g.p)
    modifies a, v
    ensures View(a) == Rows(Turned(g, m)) && View(v) == Rows(TurnCols(g, w))
  {
    hide Turned, TurnCols, View, Rows;
    TurnColumns(a, g, m);
    TurnRows(a, g, m);
    a[g.p, g.q], a[g.q, g.p] := 0.0, 0.0;
    ViewIsRows(a, Turned(g, m));
    TurnColumns(v, g, w);
    ViewIsRows(v, TurnCols(g, w));
  }

  method RotatePair(root: real -> real, a: array2<real>, v: array2<real>, p: nat, q: nat)
    requires IsSqrt(root) && p < q < 3 && a != v
    requires a.Length0 == 3 && a.Length1 == 3 && v.Length0 == 3 && v.Length1 == 3
    requires Symmetric(3, Of(View(a)))
    modifies a, v
    ensures State(View(a), View(v)) == Rotate(root, old(State(View(a), View(v))), p, q)
    ensures Symmetric(3, Of(View(a)))
  {
    ghost var (m, w) := (Of(View(a)), Of(View(v)));
    if a[p, q] != 0.0 {
      var g := AngleFor(root, a[p, p], a[q, q], a[p, q], p, q);
      hide Turned, TurnCols, AngleFor, Rows;
      PairVanishes(root, 3, m, p, q);
      TurnedSymmetric(3, g, m);
      ApplyRotation(a, v, g, m, w);
    }
  }

  /** The rotations of a sweep that come before pair (p, q). */
  function Before(root: real -> real, s: State, p: nat, q: nat): State
    requires IsSqrt(root)
  {
    if p == 0 && q <= 1 then s
    else if p == 0 && q == 2 then Rotate(root, s, 0, 1)
    else if p == 0 || (p == 1 && q <= 2) then Rotate(root, Rotate(root, s, 0, 1), 0, 2)
    else Sweep(root, s)
  }

  method SweepOnce(root: real -> real, a: array2<real>, v: array2<real>)
    requires IsSqrt(root) && a != v
    requires a.Length0 == 3 && a.Length1 == 3 && v.Length0 == 3 && v.Length1 == 3
    requires Symmetric(3, Of(View(a)))
    modifies a, v
    ensures State(View(a), View(v)) == Sweep(root, old(State(View(a), View(v))))
    ensures Symmetric(3, Of(View(a)))
  {
    hide Rotate, Symmetric, View;
    ghost var s := State(View(a), View(v));
    for p := 0 to 2
      invariant Symmetric(3, Of(View(a)))
      invariant State(View(a), View(v)) == Before(root, s, p, p + 1)
    {
      for q := p + 1 to 3
        invariant Symmetric(3, Of(View(a)))
        invariant State(View(a), View(v)) == Before(root, s, p, q)
      {
        RotatePair(root, a, v, p, q);
      }
    }
  }

  lemma GridsEqual(g: Grid, h: Grid)
    requires Shape(g) && Shape(h) && forall i, j | 0 <= i < 3 && 0 <= j < 3 :: g[i][j] == h[i][j]
    ensures g == h
  {
    assert g[0] == h[0] && g[1] == h[1] && g[2] == h[2];
  }

  method FindSmallest(root: real -> real, input: Grid) returns (e: seq<real>)
    requires IsSqrt(root) && Shape(input) && Symmetric(3, Of(input))
    ensures var end := Sweeps(root, State(input, IDENTITY), SWEEPS);
            e == Column(Of(end.v), Least(Of(end.a)))
  {
    var a := new real[3, 3]((i, j) => if 0 <= i < 3 && 0 <= j < 3 then Of(input)(i, j) else 0.0);
    var v := new real[3, 3]((i, j) => if i == j then 1.0 else 0.0);
    GridsEqual(View(a), input);
    GridsEqual(View(v), IDENTITY);
    var sweep := 0;
    ghost var goal := Sweeps(root, State(input, IDENTITY), SWEEPS);
    hide Sweep;
    while sweep < SWEEPS
      invariant 0 <= sweep <= SWEEPS
      invariant Symmetric(3, Of(View(a)))
      invariant Sweeps(root, State(View(a), View(v)), SWEEPS - sweep) == goal
    {
      if a[0, 1] == 0.0 && a[0, 2] == 0.0 && a[1, 2] == 0.0 { break; }
      SweepOnce(root, a, v);
      sweep := sweep + 1;
    }
    assert State(View(a), View(v)) == goal;
    var m := 0;
    for i := 1 to 3
      invariant m == if i == 1 then 0 else if i == 2 && a[1, 1] >= a[0, 0] then 0
                     else if i == 2 then 1 else Least(Of(View(a)))
    {
      if a[i, i] < a[m, m] { m := i; }
    }
    e := [v[0, m], v[1, m], v[2, m]];
  }
}
