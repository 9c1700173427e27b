/** The covariance half of CarKalman: prediction F P F^T + h Q and the Joseph-form update after
    observing one state, for any dimension. The single-track model enters as the arbitrary next
    state and Jacobian it returns. */
module CarKalman {
  import opened Matrices
  import opened Rounding

  // ---- The textbook forms

  /** The optimal gain when state s is observed with noise variance r. */
  function Gain(p: Mat, s: int, r: real): Vec
    requires p(s, s) + r != 0.0
  {
    i => Ratio(p(i, s), p(s, s) + r)
  }

  /** I - k e_s^T */
  function Residual(k: Vec, s: int): Mat {
    (i, j) => (if i == j then 1.0 else 0.0) - (if j == s then k(i) else 0.0)
  }

  /** (I - k e^T) P (I - k e^T)^T + r k k^T */
  function Joseph(n: nat, p: Mat, s: int, r: real, k: Vec): Mat {
    Add(Congruent(n, Residual(k, s), p), Scale(r, Outer(k, k)))
  }

  function Predicted(n: nat, p: Mat, f: Mat, h: real, q: Mat): Mat {
    Add(Congruent(n, f, p), Scale(h, q))
  }

  // ---- What the observe loops compute, entry by entry

  /** An entry of (I - k e^T) P. */
  function FirstPass(pij: real, ki: real, psj: real): real { pij - ki * psj }

  /** An entry of the result, from the first pass. */
  function SecondPass(aij: real, ais: real, ki: real, kj: real, r: real): real { aij - ais * kj + r * ki * kj }

  function LoopEntry(p: Mat, s: int, r: real, k: Vec, i: int, j: int): real {
    SecondPass(FirstPass(p(i, j), k(i), p(s, j)), FirstPass(p(i, s), k(i), p(s, s)), k(i), k(j), r)
  }

  lemma ResidualTerm(k: Vec, s: int, i: int, y: Vec, j: int)
    ensures Times(Row(Residual(k, s), i), y)(j) == Times(Unit(i), y)(j) + (-k(i)) * Times(Unit(s), y)(j)
  {
    assert Row(Residual(k, s), i)(j) == Residual(k, s)(i, j);
  }

  /** Row i of I - k e^T against y. */
  lemma ResidualRow(n: nat, k: Vec, s: nat, i: nat, y: Vec)
    requires s < n && i < n
    ensures Dot(n, Row(Residual(k, s), i), y) == FirstPass(y(i), k(i), y(s))
  {
    var row := Times(Row(Residual(k, s), i), y);
    DotUnit(n, i, y);
    DotUnit(n, s, y);
    hide Residual, Unit;
    forall j | 0 <= j < n { ResidualTerm(k, s, i, y, j); }
    SumLinear(n, row, Times(Unit(i), y), -k(i), Times(Unit(s), y));
  }

  /** The in-place loops compute exactly the Joseph form. */
  lemma LoopIsJoseph(n: nat, p: Mat, s: nat, r: real, k: Vec, i: nat, j: nat)
    requires s < n && i < n && j < n
    ensures LoopEntry(p, s, r, k, i, j) == Joseph(n, p, s, r, k)(i, j)
  {
    hide Residual, FirstPass, SecondPass, Congruent;
    var a := Residual(k, s);
    EntryOfCongruent(n, a, p, i, j);
    ResidualRow(n, k, s, i, MatVec(n, p, Row(a, j)));
    ResidualColumn(n, p, k, s, j, i);
    ResidualColumn(n, p, k, s, j, s);
    JosephAlgebra(p(i, j), p(s, j), p(i, s), p(s, s), k(i), k(j), r);
  }

  lemma ResidualColumn(n: nat, p: Mat, k: Vec, s: nat, j: nat, m: nat)
    requires s < n && j < n
    ensures MatVec(n, p, Row(Residual(k, s), j))(m) == FirstPass(p(m, j), k(j), p(m, s))
  {
    DotCommutes(n, Row(p, m), Row(Residual(k, s), j));
    ResidualRow(n, k, s, j, Row(p, m));
  }

  lemma JosephAlgebra(pij: real, psj: real, pis: real, pss: real, ki: real, kj: real, r: real)
    ensures SecondPass(FirstPass(pij, ki, psj), FirstPass(pis, ki, pss), ki, kj, r)
         == FirstPass(FirstPass(pij, kj, pis), ki, FirstPass(psj, kj, pss)) + r * (ki * kj)
  {}

  lemma JosephEntry(n: nat, p: Mat, s: nat, r: real, k: Vec, i: int, j: int)
    ensures Joseph(n, p, s, r, k)(i, j) == Congruent(n, Residual(k, s), p)(i, j) + r * Outer(k, k)(i, j)
    ensures Outer(k, k)(i, j) == Outer(k, k)(j, i)
  {
    ProdCommutes(k(i), k(j));
  }

  /** The update keeps symmetry and semidefiniteness, with any gain. */
  lemma JosephKeeps(n: nat, p: Mat, s: nat, r: real, k: Vec, p': Mat)
    requires s < n && r >= 0.0 && Symmetric(n, p) && Semidefinite(n, p)
    requires Same(n, p', Joseph(n, p, s, r, k))
    ensures Symmetric(n, p') && Semidefinite(n, p')
  {
    hide Joseph, Congruent, Residual, Outer;
    var c := Congruent(n, Residual(k, s), p);
    CongruentSymmetric(n, Residual(k, s), p);
    CongruentSemidefinite(n, Residual(k, s), p);
    OuterSemidefinite(n, k);
    forall i, j | 0 <= i < n && 0 <= j < n
      ensures p'(i, j) == c(i, j) + r * Outer(k, k)(i, j) && p'(i, j) == p'(j, i)
    {
      JosephEntry(n, p, s, r, k, i, j);
      JosephEntry(n, p, s, r, k, j, i);
    }
    hide Semidefinite;
    SemidefiniteSum(n, c, r, Outer(k, k), p');
  }

  lemma OuterSemidefinite(n: nat, k: Vec)
    ensures Semidefinite(n, Outer(k, k))
  {
    forall x: Vec ensures Quad(n, Outer(k, k), x) >= 0.0 {
      QuadOuter(n, k, k, x);
      SquareNonneg(Dot(n, k, x));
    }
  }

  /** So does the prediction. */
  lemma PredictedKeeps(n: nat, p: Mat, f: Mat, h: real, q: Mat, p': Mat)
    requires h >= 0.0 && Symmetric(n, p) && Semidefinite(n, p) && Symmetric(n, q) && Semidefinite(n, q)
    requires Same(n, p', Predicted(n, p, f, h, q))
    ensures Symmetric(n, p') && Semidefinite(n, p')
  {
    CongruentSymmetric(n, f, p);
    CongruentSemidefinite(n, f, p);
    SemidefiniteSum(n, Congruent(n, f, p), h, q, p');
  }

  // ---- With the optimal gain, observing never loses

  lemma ShortAlgebra(pij: real, pis: real, pjs: real, pss: real, sum: real, r: real, ki: real, kj: real)
    requires sum == pss + r && ki * sum == pis && kj * sum == pjs
    ensures (pij - ki * pjs) - (pis - ki * pss) * kj + r * ki * kj == pij - ki * pjs
  {
    assert ki * pss + r * ki == ki * sum;
    assert pis - ki * pss == r * ki;
    assert (pis - ki * pss) * kj == r * ki * kj;
  }

  /** With the optimal gain the Joseph form is the short form P - k (P e)^T. */
  lemma OptimalGainShort(n: nat, p: Mat, s: nat, r: real, i: nat, j: nat)
    requires s < n && i < n && j < n && Symmetric(n, p) && p(s, s) + r != 0.0
    ensures var k := Gain(p, s, r);
      LoopEntry(p, s, r, k, i, j) == FirstPass(p(i, j), k(i), p(j, s))
  {
    var k := Gain(p, s, r);
    var sum := p(s, s) + r;
    Quotient(p(i, s), sum);
    Quotient(p(j, s), sum);
    ShortAlgebra(p(i, j), p(i, s), p(j, s), p(s, s), sum, r, k(i), k(j));
  }

  lemma Quotient(a: real, b: real)
    requires b != 0.0
    ensures (a / b) * b == a
  {}

  lemma ShortPlus(pij: real, a: real, b: real, c: real)
    requires c != 0.0
    ensures FirstPass(pij, Ratio(a, c), b) == Plus(pij, Ratio(-1.0, c), Prod(a, b))
  {
    DivideProduct(a, b, c);
  }

  lemma ShortEntry(n: nat, p: Mat, s: nat, r: real, i: nat, j: nat)
    requires s < n && i < n && j < n && Symmetric(n, p) && p(s, s) + r != 0.0
    ensures Joseph(n, p, s, r, Gain(p, s, r))(i, j)
         == Plus(p(i, j), Ratio(-1.0, p(s, s) + r), Outer(Col(p, s), Col(p, s))(i, j))
  {
    hide Joseph, LoopEntry, Plus, FirstPass, Ratio, Prod;
    LoopIsJoseph(n, p, s, r, Gain(p, s, r), i, j);
    OptimalGainShort(n, p, s, r, i, j);
    ShortPlus(p(i, j), p(i, s), p(j, s), p(s, s) + r);
  }

  /** The variance along every direction x can only fall, by exactly (x . P e_s)^2 / (P_ss + r). */
  lemma ObservingLosesNothing(n: nat, p: Mat, s: nat, r: real, p': Mat, x: Vec)
    requires s < n && Symmetric(n, p) && p(s, s) + r > 0.0
    requires Same(n, p', Joseph(n, p, s, r, Gain(p, s, r)))
    ensures var d := Dot(n, Col(p, s), x);
      Quad(n, p', x) == Quad(n, p, x) - d * d / (p(s, s) + r) <= Quad(n, p, x)
  {
    hide Plus, Joseph, Ratio, Gain, Outer, Quad, Dot;
    var sum := p(s, s) + r;
    var g := Outer(Col(p, s), Col(p, s));
    var c := Ratio(-1.0, sum);
    forall i, j | 0 <= i < n && 0 <= j < n ensures p'(i, j) == Plus(p(i, j), c, g(i, j)) {
      ShortEntry(n, p, s, r, i, j);
    }
    QuadLinear(n, p', p, c, g, x);
    QuadOuter(n, Col(p, s), Col(p, s), x);
    Fall(Quad(n, p', x), Quad(n, p, x), Quad(n, g, x), Dot(n, Col(p, s), x), c, sum);
  }

  lemma Fall(after: real, before: real, g: real, d: real, c: real, sum: real)
    requires sum > 0.0 && g == d * d && c == Ratio(-1.0, sum) && after == Plus(before, c, g)
    ensures after == before - d * d / sum <= before
  {
    SquareNonneg(d);
    DivideSquare(d * d, sum);
  }

  lemma DivideProduct(a: real, b: real, c: real)
    requires c != 0.0
    ensures -((a / c) * b) == (-1.0 / c) * (a * b)
  {}

  lemma DivideSquare(a: real, c: real)
    requires a >= 0.0 && c > 0.0
    ensures (-1.0 / c) * a == -(a / c) && a / c >= 0.0
  {}

  /** No variance grows, and the observed one ends up no larger than the noise. */
  lemma NoVarianceGrows(n: nat, p: Mat, s: nat, r: real, p': Mat, i: nat)
    requires s < n && i < n && Symmetric(n, p) && Semidefinite(n, p) && r > 0.0
    requires p(s, s) + r != 0.0 && Same(n, p', Joseph(n, p, s, r, Gain(p, s, r)))
    ensures p'(i, i) <= p(i, i)
    ensures p'(s, s) <= r
  {
    hide Joseph, Gain, Quad, LoopEntry;
    DiagonalQuad(n, p, s);
    DiagonalQuad(n, p, i);
    DiagonalQuad(n, p', i);
    ObservingLosesNothing(n, p, s, r, p', Unit(i));
    ObservedEntry(n, p, s, r);
    assert p'(s, s) == Joseph(n, p, s, r, Gain(p, s, r))(s, s);
  }

  lemma ObservedEntry(n: nat, p: Mat, s: nat, r: real)
    requires s < n && Symmetric(n, p) && p(s, s) >= 0.0 && r > 0.0
    ensures Joseph(n, p, s, r, Gain(p, s, r))(s, s) <= r
  {
    LoopIsJoseph(n, p, s, r, Gain(p, s, r), s, s);
    OptimalGainShort(n, p, s, r, s, s);
    hide Joseph, LoopEntry;
    BelowNoise(p(s, s), r);
  }

  lemma BelowNoise(v: real, r: real)
    requires v >= 0.0 && r > 0.0
    ensures v - (v / (v + r)) * v <= r
  {
    var q := v / (v + r);
    assert q * (v + r) == v;
    assert v - q * v == q * r;
    assert 0.0 <= q <= 1.0;
    ProductNonneg(1.0 - q, r);
    assert (1.0 - q) * r == r - q * r;
  }

  // ---- Whole runs

  datatype Op = Predict(f: Mat, h: real, q: Mat) | See(s: nat, r: real)

  ghost predicate OpOk(n: nat, op: Op) {
    match op
    case Predict(f, h, q) => h >= 0.0 && Symmetric(n, q) && Semidefinite(n, q)
    case See(s, r) => s < n && r > 0.0
  }

  /** The covariance after a run of predictions and observations; an observation of no uncertainty
      at all (which never happens, see below) would leave it alone. */
  function Covariance(n: nat, p: Mat, ops: seq<Op>): Mat {
    if ops == [] then p
    else
      var before := Covariance(n, p, ops[..|ops| - 1]);
      match ops[|ops| - 1]
      case Predict(f, h, q) => Predicted(n, before, f, h, q)
      case See(s, r) => if before(s, s) + r == 0.0 then before else Joseph(n, before, s, r, Gain(before, s, r))
  }

  /** Over every run of predictions and observations the covariance stays symmetric and positive
      semidefinite, no variance is negative, and so the gain's divisor is never zero. */
  lemma {:induction false} CovarianceStaysValid(n: nat, p: Mat, ops: seq<Op>)
    requires Symmetric(n, p) && Semidefinite(n, p) && forall op <- ops :: OpOk(n, op)
    ensures Symmetric(n, Covariance(n, p, ops)) && Semidefinite(n, Covariance(n, p, ops))
    ensures forall s | 0 <= s < n :: Covariance(n, p, ops)(s, s) >= 0.0
  {
    if ops != [] {
      var (init, op) := (ops[..|ops| - 1], ops[|ops| - 1]);
      assert op in ops;
      CovarianceStaysValid(n, p, init);
      var before := Covariance(n, p, init);
      hide Joseph, Predicted, Gain;
      match op
      case Predict(f, h, q) => PredictedKeeps(n, before, f, h, q, Predicted(n, before, f, h, q));
      case See(s, r) =>
        DiagonalNonneg(n, before, s);
        JosephKeeps(n, before, s, r, Gain(before, s, r), Joseph(n, before, s, r, Gain(before, s, r)));
    }
    forall s | 0 <= s < n ensures Covariance(n, p, ops)(s, s) >= 0.0 {
      DiagonalNonneg(n, Covariance(n, p, ops), s);
    }
  }

  /** Such a run is what its operations do one after another: each prediction the prediction form, each
      observation the Joseph form with the code's gain, never skipped. */
  lemma RunsStepByStep(n: nat, p: Mat, ops: seq<Op>, op: Op)
    requires Symmetric(n, p) && Semidefinite(n, p) && (forall o <- ops :: OpOk(n, o)) && OpOk(n, op)
    ensures Covariance(n, p, []) == p
    ensures var (was, now) := (Covariance(n, p, ops), Covariance(n, p, ops + [op]));
            match op
            case Predict(f, h, q) => now == Predicted(n, was, f, h, q)
            case See(s, r) => was(s, s) + r > 0.0 && now == Joseph(n, was, s, r, Gain(was, s, r))
  {
    hide Predicted, Joseph, Gain, Symmetric, Semidefinite;
    assert (ops + [op])[..|ops|] == ops;
    CovarianceStaysValid(n, p, ops);
  }

  /** The code's process noise, which is also the first covariance: a diagonal of squares. */
  function Squares(d: Vec): Mat { (i, j) => if i == j then Prod(d(i), d(i)) else 0.0 }

  lemma SquaresTerm(n: nat, d: Vec, x: Vec, i: nat)
    requires i < n
    ensures Times(x, MatVec(n, Squares(d), x))(i) >= 0.0
  {
    var row := Times(Row(Squares(d), i), x);
    forall j | 0 <= j < n && j != i ensures row(j) == 0.0 {
      assert Row(Squares(d), i)(j) == 0.0;
    }
    SumOnly(n, row, i);
    assert MatVec(n, Squares(d), x)(i) == Prod(d(i), d(i)) * x(i);
    SquareTwice(d(i), x(i));
  }

  lemma SquareTwice(d: real, x: real)
    ensures x * (Prod(d, d) * x) >= 0.0
  {
    SquareNonneg(d * x);
    assert x * (Prod(d, d) * x) == (d * x) * (d * x);
  }

  lemma SquaresValid(n: nat, d: Vec)
    ensures Symmetric(n, Squares(d)) && Semidefinite(n, Squares(d))
  {
    forall x: Vec ensures Quad(n, Squares(d), x) >= 0.0 {
      forall i | 0 <= i < n { SquaresTerm(n, d, x, i); }
      SumNonneg(n, Times(x, MatVec(n, Squares(d), x)));
    }
  }

  /** So with the code's own noise nothing is asked of the covariance: started from it and driven by it, it
      stays valid over every run. */
  lemma OwnNoiseStaysValid(n: nat, d: Vec, ops: seq<Op>)
    requires forall op <- ops ::
      if op.Predict? then op.h >= 0.0 && op.q == Squares(d) else op.s < n && op.r > 0.0
    ensures Symmetric(n, Covariance(n, Squares(d), ops)) && Semidefinite(n, Covariance(n, Squares(d), ops))
    ensures forall s | 0 <= s < n :: Covariance(n, Squares(d), ops)(s, s) >= 0.0
  {
    SquaresValid(n, d);
    hide Symmetric, Semidefinite, Squares;
    CovarianceStaysValid(n, Squares(d), ops);
  }

  // ---- The filter object

  const PREDICT_STEP_S: real := 0.001

  /** How many Euler steps a prediction over dt is split into: the least number that makes none longer than
      the limit, but for the rounding guard. */
  function EulerSteps(dt: real): (k: nat)
    ensures k >= 1
    ensures dt / k as real <= PREDICT_STEP_S + 0.000000000001
    ensures k > 1 ==> dt / PREDICT_STEP_S > (k - 1) as real
  {
    var exact := dt / PREDICT_STEP_S - 0.000000001;
    var ceil := -((-exact).Floor);
    if ceil < 1 then 1 else ceil
  }

  /** The single-track model: the next state and the Jacobian of one Euler step. */
  datatype Model = Model(next: (seq<real>, real) -> seq<real>, jacobian: (seq<real>, real) -> Mat)

  /** A snapshot of a square array as a matrix. */
  function Snapshot(a: array2<real>): (m: Mat)
    requires a.Length0 == a.Length1
    reads a
    ensures forall i, j | 0 <= i < a.Length0 && 0 <= j < a.Length0 :: m(i, j) == a[i, j]
  {
    var n := a.Length0;
    var rows := seq(n, i requires 0 <= i < n reads a => seq(n, j requires 0 <= j < n reads a => a[i, j]));
    (i, j) => if 0 <= i < n && 0 <= j < n then rows[i][j] else 0.0
  }

  /** One inner product accumulated by a loop, as in the source. */
  method Accumulate(n: nat, x: Vec, y: Vec) returns (acc: real)
    ensures acc == Dot(n, x, y)
  {
    acc := 0.0;
    for l := 0 to n
      invariant acc == Dot(l, x, y)
    {
      acc := acc + x(l) * y(l);
    }
  }

  /** A model that keeps the state's size. */
  ghost predicate Fits(model: Model) {
    forall v: seq<real>, h: real :: |model.next(v, h)| == |v|
  }

  /** State and covariance after k Euler steps. */
  function Advanced(n: nat, x: seq<real>, p: Mat, model: Model, h: real, q: Mat, k: nat): (r: (seq<real>, Mat))
    requires Fits(model)
    ensures |r.0| == |x|
  {
    if k == 0 then (x, p)
    else
      var (y, c) := Advanced(n, x, p, model, h, q, k - 1);
      (model.next(y, h), Predicted(n, c, model.jacobian(y, h), h, q))
  }

  /** The number of steps with which an observation at time `at` is reached, and their width. */
  function StepsTo(hasTime: bool, t: real, at: real): (r: (nat, real))
    ensures if hasTime && at > t
      then r.0 >= 1 && r.1 * r.0 as real == at - t && 0.0 < r.1 <= PREDICT_STEP_S + 0.000000000001
      else r.0 == 0
  {
    if hasTime && at > t then (EulerSteps(at - t), WidthOf(at - t, EulerSteps(at - t))) else (0, 0.0)
  }

  function WidthOf(dt: real, k: nat): (h: real)
    requires k >= 1
    ensures h == dt / k as real && h * k as real == dt
    ensures dt > 0.0 ==> h > 0.0
  {
    dt / k as real
  }

  // ---- How much a prediction adds

  /** The matrix is the identity, up to n. */
  ghost predicate IsIdentity(n: nat, f: Mat) {
    forall i, j | 0 <= i < n && 0 <= j < n :: f(i, j) == if i == j then 1.0 else 0.0
  }

  lemma IdentityCongruent(n: nat, f: Mat, p: Mat, i: nat, j: nat)
    requires IsIdentity(n, f) && i < n && j < n
    ensures Congruent(n, f, p)(i, j) == p(i, j)
  {
    var y := MatVec(n, p, Row(f, j));
    EntryOfCongruent(n, f, p, i, j);
    DotEq(n, Row(f, i), y, Unit(i), y);
    DotUnit(n, i, y);
    DotEq(n, Row(p, i), Row(f, j), Row(p, i), Unit(j));
    DotUnit(n, j, Row(p, i));
  }

  lemma OneMoreWidth(k: nat, h: real, q: real)
    requires k >= 1
    ensures (k as real * h) * q == ((k - 1) as real * h) * q + h * q
  {}

  /** With an identity Jacobian k steps of width h add k h Q, entry by entry, for every dimension. */
  lemma {:induction false} StepsAddNoise(
      n: nat, x: seq<real>, p: Mat, model: Model, h: real, q: Mat, k: nat, i: nat, j: nat)
    requires Fits(model) && i < n && j < n
    requires forall y: seq<real>, w: real :: IsIdentity(n, model.jacobian(y, w))
    ensures Advanced(n, x, p, model, h, q, k).1(i, j) == p(i, j) + (k as real * h) * q(i, j)
    decreases k
  {
    if k > 0 {
      StepsAddNoise(n, x, p, model, h, q, k - 1, i, j);
      var (y, c) := Advanced(n, x, p, model, h, q, k - 1);
      IdentityCongruent(n, model.jacobian(y, h), c, i, j);
      hide Congruent;
      OneMoreWidth(k, h, q(i, j));
    }
  }

  /** So an observation at time `at` meets the covariance P + (at - t) Q, however many steps it took, and P when
      it is the first or late. */
  lemma NoiseGrowsWithTime(
      n: nat, x: seq<real>, p: Mat, model: Model, q: Mat, hasTime: bool, t: real, at: real, i: nat, j: nat)
    requires Fits(model) && i < n && j < n
    requires forall y: seq<real>, w: real :: IsIdentity(n, model.jacobian(y, w))
    ensures var (k, h) := StepsTo(hasTime, t, at);
            Advanced(n, x, p, model, h, q, k).1(i, j)
            == if hasTime && at > t then p(i, j) + (at - t) * q(i, j) else p(i, j)
  {
    var (k, h) := StepsTo(hasTime, t, at);
    StepsAddNoise(n, x, p, model, h, q, k, i, j);
  }

  /** Under a model that moves each state at a constant rate, the state moves by that rate times the time. */
  lemma {:induction false} StepsDrift(
      n: nat, x: seq<real>, p: Mat, model: Model, h: real, q: Mat, k: nat, rate: seq<real>, i: nat)
    requires Fits(model) && |rate| == |x| && i < |x|
    requires forall y: seq<real>, w: real | |y| == |x| :: Drifts(model.next(y, w), y, w, rate)
    ensures Advanced(n, x, p, model, h, q, k).0[i] == x[i] + (k as real * h) * rate[i]
    decreases k
  {
    if k > 0 {
      StepsDrift(n, x, p, model, h, q, k - 1, rate, i);
      var y := Advanced(n, x, p, model, h, q, k - 1).0;
      assert Drifts(model.next(y, h), y, h, rate);
      OneMoreWidth(k, h, rate[i]);
    }
  }

  ghost predicate Drifts(next: seq<real>, y: seq<real>, h: real, rate: seq<real>)
    requires |rate| == |y|
  {
    |next| == |y| && forall i | 0 <= i < |y| :: next[i] == y[i] + h * rate[i]
  }

  /** The observed state ends between its old value and the measurement, nearer to the less uncertain one. */
  predicate Balanced(before: real, after: real, z: real, variance: real, r: real) {
    (after - before) * r == (z - after) * variance
  }

  /** Every other state moves along with it, by the ratio of covariance to variance. */
  predicate Correlated(before: real, after: real, seen: real, moved: real, covariance: real, variance: real) {
    (after - before) * variance == covariance * (moved - seen)
  }

  /** What the gain does to the state, without naming it. */
  lemma GainMoves(p: Mat, s: int, r: real, i: int, xi: real, xs: real, z: real)
    requires p(s, s) + r != 0.0
    ensures var k := Gain(p, s, r);
            && Balanced(xs, xs + k(s) * (z - xs), z, p(s, s), r)
            && Correlated(xi, xi + k(i) * (z - xs), xs, xs + k(s) * (z - xs), p(i, s), p(s, s))
  {
    var (sum, y) := (p(s, s) + r, z - xs);
    var (ks, ki) := (Gain(p, s, r)(s), Gain(p, s, r)(i));
    assert ks * sum == p(s, s) && ki * sum == p(i, s);
    Regroup(ks, p(s, s), r, y);
    assert (ki * y) * (ks * sum) == (ki * sum) * (ks * y);
  }

  lemma Regroup(k: real, p: real, r: real, y: real)
    requires k * (p + r) == p
    ensures (k * y) * r == (y - k * y) * p
  {
    assert (k * y) * r == y * (k * r) && k * r == p - k * p;
    assert (y - k * y) * p == y * (p - k * p);
  }

  lemma GainSame(n: nat, p: Mat, p': Mat, s: nat, r: real, i: nat)
    requires Same(n, p, p') && s < n && i < n && p(s, s) + r != 0.0
    ensures Gain(p, s, r)(i) == Gain(p', s, r)(i)
  {}

  lemma PredictedEntry(n: nat, p: Mat, f: Mat, h: real, q: Mat, fp: Mat, i: nat, j: nat)
    requires i < n && j < n && Same(n, fp, Mul(n, f, p))
    ensures Plus(Dot(n, Row(fp, i), Row(f, j)), h, q(i, j)) == Predicted(n, p, f, h, q)(i, j)
  {
    DotEq(n, Row(fp, i), Row(f, j), Row(Mul(n, f, p), i), Col(Transpose(f), j));
  }

  lemma PredictedSame(n: nat, p: Mat, p': Mat, f: Mat, h: real, q: Mat)
    requires Same(n, p, p')
    ensures Same(n, Predicted(n, p, f, h, q), Predicted(n, p', f, h, q))
  {
    forall i, j | 0 <= i < n && 0 <= j < n
      ensures Predicted(n, p, f, h, q)(i, j) == Predicted(n, p', f, h, q)(i, j)
    {
      CongruentSame(n, f, p, p', i, j);
    }
  }

  /** Entrywise equal covariances give entrywise equal results. */
  lemma JosephSame(n: nat, p: Mat, p': Mat, s: nat, r: real)
    requires Same(n, p, p') && s < n && p(s, s) + r != 0.0
    ensures Same(n, Joseph(n, p, s, r, Gain(p, s, r)), Joseph(n, p', s, r, Gain(p', s, r)))
  {
    forall i, j | 0 <= i < n && 0 <= j < n
      ensures Joseph(n, p, s, r, Gain(p, s, r))(i, j) == Joseph(n, p', s, r, Gain(p', s, r))(i, j)
    {
      var (k, k') := (Gain(p, s, r), Gain(p', s, r));
      assert k(i) == k'(i) && k(j) == k'(j);
      hide Joseph;
      LoopIsJoseph(n, p, s, r, k, i, j);
      LoopIsJoseph(n, p', s, r, k', i, j);
    }
  }

  class Filter {
    const n: nat
    const p: array2<real>
    const x: array<real>
    var t: real
    var hasTime: bool

    ghost predicate Valid()
      reads this, p
    {
      && p.Length0 == n && p.Length1 == n && x.Length == n
      && Symmetric(n, Snapshot(p)) && Semidefinite(n, Snapshot(p))
    }

    /** init */
    constructor (x0: seq<real>, p0: Mat, hasT: bool, t0: real)
      requires Symmetric(|x0|, p0) && Semidefinite(|x0|, p0)
      ensures Valid() && n == |x0| && x[..] == x0 && Same(n, Snapshot(p), p0) && t == t0 && hasTime == hasT
      ensures fresh(p) && fresh(x)
    {
      n := |x0|;
      p := new real[|x0|, |x0|]((i, j) => p0(i, j));
      x := new real[|x0|](i requires 0 <= i < |x0| => x0[i]);
      t, hasTime := t0, hasT;
      new;
      forall v: Vec ensures Quad(n, Snapshot(p), v) >= 0.0 {
        SameQuad(n, Snapshot(p), p0, v);
      }
    }

    /** The observation half of predict_and_observe: gain, state, and the two in-place passes. */
    method Observe(state: nat, z: real, r: real)
      requires Valid() && state < n && r > 0.0
      modifies p, x
      ensures Valid()
      ensures var was := old(Snapshot(p));
        && was(state, state) + r > 0.0
        && var k := Gain(was, state, r);
          && Same(n, Snapshot(p), Joseph(n, was, state, r, k))
          && forall i | 0 <= i < n :: x[i] == old(x[i]) + k(i) * (z - old(x[state]))
      ensures forall i | 0 <= i < n :: p[i, i] <= old(p[i, i])
      ensures p[state, state] <= r
    {
      hide Joseph, Gain, Symmetric, Semidefinite, FirstPass, SecondPass;
      ghost var was := Snapshot(p);
      DiagonalNonneg(n, was, state);
      var k := ComputeGain(state, r);
      UpdateState(state, z, k);
      UpdateCovariance(state, r, k);
      ObservedCovariance(n, was, state, r, k[..], Snapshot(p));
    }

    method ComputeGain(state: nat, r: real) returns (k: array<real>)
      requires p.Length0 == n && p.Length1 == n && state < n && p[state, state] + r != 0.0
      ensures fresh(k) && k.Length == n
      ensures forall i | 0 <= i < n :: k[i] == Gain(Snapshot(p), state, r)(i)
    {
      var sum := p[state, state] + r;
      k := new real[n];
      for i := 0 to n
        modifies k
        invariant forall m | 0 <= m < i :: k[m] == Gain(Snapshot(p), state, r)(m)
      {
        k[i] := Ratio(p[i, state], sum);
      }
    }

    method UpdateState(state: nat, z: real, k: array<real>)
      requires x.Length == n && k.Length == n && k != x && state < n
      modifies x
      ensures forall i | 0 <= i < n :: x[i] == old(x[i]) + k[i] * (z - old(x[state]))
    {
      var y := z - x[state];
      for i := 0 to n
        invariant forall m | 0 <= m < n :: x[m] == if m < i then old(x[m]) + k[m] * y else old(x[m])
        invariant forall m | 0 <= m < n :: k[m] == old(k[m])
      {
        x[i] := x[i] + k[i] * y;
      }
    }

    /** a = (I - k e^T) P, then P from a and k in place. */
    method UpdateCovariance(state: nat, r: real, k: array<real>)
      requires p.Length0 == n && p.Length1 == n && k.Length == n && state < n
      modifies p
      ensures forall i, j | 0 <= i < n && 0 <= j < n ::
        p[i, j] == SecondPass(FirstPass(old(p[i, j]), k[i], old(p[state, j])),
                              FirstPass(old(p[i, state]), k[i], old(p[state, state])), k[i], k[j], r)
    {
      hide FirstPass, SecondPass;
      var a := new real[n, n];
      for i := 0 to n
        modifies a
        invariant forall m, c | 0 <= m < i && 0 <= c < n :: a[m, c] == FirstPass(p[m, c], k[m], p[state, c])
      {
        for c := 0 to n
          modifies a
          invariant forall m, d | 0 <= m < i && 0 <= d < n :: a[m, d] == FirstPass(p[m, d], k[m], p[state, d])
          invariant forall d | 0 <= d < c :: a[i, d] == FirstPass(p[i, d], k[i], p[state, d])
        {
          a[i, c] := FirstPass(p[i, c], k[i], p[state, c]);
        }
      }
      for i := 0 to n
        modifies p
        invariant forall m, c | 0 <= m < i && 0 <= c < n :: p[m, c] == SecondPass(a[m, c], a[m, state], k[m], k[c], r)
      {
        for c := 0 to n
          modifies p
          invariant forall m, d | 0 <= m < i && 0 <= d < n :: p[m, d] == SecondPass(a[m, d], a[m, state], k[m], k[d], r)
          invariant forall d | 0 <= d < c :: p[i, d] == SecondPass(a[i, d], a[i, state], k[i], k[d], r)
        {
          p[i, c] := SecondPass(a[i, c], a[i, state], k[i], k[c], r);
        }
      }
    }

    /** One Euler step of predict: fp = F P, then P = fp F^T + h Q in place. */
    method PredictStep(f: Mat, h: real, q: Mat)
      requires Valid() && h >= 0.0 && Symmetric(n, q) && Semidefinite(n, q)
      modifies p
      ensures Valid()
      ensures Same(n, Snapshot(p), Predicted(n, old(Snapshot(p)), f, h, q))
    {
      hide Predicted, Symmetric, Semidefinite, Dot, Mul, Plus;
      ghost var was := Snapshot(p);
      var fp := Multiply(n, f, Snapshot(p));
      AddTransposed(Snapshot(fp), f, h, q);
      forall i, j | 0 <= i < n && 0 <= j < n ensures p[i, j] == Predicted(n, was, f, h, q)(i, j) {
        PredictedEntry(n, was, f, h, q, Snapshot(fp), i, j);
      }
      PredictedKeeps(n, was, f, h, q, Snapshot(p));
    }

    /** predict: Euler steps of at most one millisecond. */
    method PredictOver(dt: real, model: Model, q: Mat)
      requires Valid() && dt >= 0.0 && Symmetric(n, q) && Semidefinite(n, q)
      requires Fits(model)
      modifies p, x
      ensures Valid()
      ensures var (k, x0, p0) := (EulerSteps(dt), old(x[..]), old(Snapshot(p)));
              var (x', p') := Advanced(n, x0, p0, model, dt / k as real, q, k);
              x[..] == x' && Same(n, Snapshot(p), p')
    {
      hide Symmetric, Semidefinite, Predicted, EulerSteps;
      var steps := EulerSteps(dt);
      var h := dt / steps as real;
      ghost var (x0, p0) := (x[..], Snapshot(p));
      for i := 0 to steps
        invariant Valid()
        invariant x[..] == Advanced(n, x0, p0, model, h, q, i).0
        invariant Same(n, Snapshot(p), Advanced(n, x0, p0, model, h, q, i).1)
      {
        ghost var was := Snapshot(p);
        var (next, f) := (model.next(x[..], h), model.jacobian(x[..], h));
        PredictStep(f, h, q);
        PredictedSame(n, was, Advanced(n, x0, p0, model, h, q, i).1, f, h, q);
        forall j | 0 <= j < n { x[j] := next[j]; }
        assert x[..] == next;
      }
    }

    /** The prediction half of predict_and_observe: a first or late observation predicts nothing. */
    method PredictTo(at: real, model: Model, q: Mat)
      requires Valid() && Symmetric(n, q) && Semidefinite(n, q) && Fits(model)
      modifies this`t, this`hasTime, p, x
      ensures Valid() && hasTime
      ensures t == if old(hasTime) && at <= old(t) then old(t) else at
      ensures var (k, h) := StepsTo(old(hasTime), old(t), at);
              var (x', p') := Advanced(n, old(x[..]), old(Snapshot(p)), model, h, q, k);
              x[..] == x' && Same(n, Snapshot(p), p')
    {
      hide Symmetric, Semidefinite, EulerSteps;
      if !hasTime {
        t, hasTime := at, true;
      } else if at > t {
        PredictOver(at - t, model, q);
        t := at;
      }
    }

    method PredictAndObserve(at: real, state: nat, z: real, r: real, model: Model, q: Mat)
      requires Valid() && state < n && r > 0.0 && Symmetric(n, q) && Semidefinite(n, q) && Fits(model)
      modifies this`t, this`hasTime, p, x
      ensures Valid() && hasTime
      ensures t == if old(hasTime) && at <= old(t) then old(t) else at
      ensures p[state, state] <= r
      ensures var (k, h) := StepsTo(old(hasTime), old(t), at);
              var (x', p') := Advanced(n, old(x[..]), old(Snapshot(p)), model, h, q, k);
              && (if old(hasTime) && at > old(t)
                  then k >= 1 && h * k as real == at - old(t) && 0.0 < h <= 0.001000000001
                  else k == 0)
              && p'(state, state) + r > 0.0
              && Same(n, Snapshot(p), Joseph(n, p', state, r, Gain(p', state, r)))
              && forall i | 0 <= i < n :: x[i] == x'[i] + Gain(p', state, r)(i) * (z - x'[state])
    {
      hide Joseph, Gain, Advanced, Symmetric, Semidefinite;
      ghost var (k, h) := StepsTo(hasTime, t, at);
      ghost var (x', p') := Advanced(n, x[..], Snapshot(p), model, h, q, k);
      PredictTo(at, model, q);
      ghost var was := Snapshot(p);
      Observe(state, z, r);
      JosephSame(n, was, p', state, r);
      forall i | 0 <= i < n { GainSame(n, was, p', state, r, i); }
    }

    method AddTransposed(fp: Mat, f: Mat, h: real, q: Mat)
      requires p.Length0 == n && p.Length1 == n
      modifies p
      ensures forall i, j | 0 <= i < n && 0 <= j < n :: p[i, j] == Plus(Dot(n, Row(fp, i), Row(f, j)), h, q(i, j))
    {
      hide Plus, Dot;
      for i := 0 to n
        invariant forall m, c | 0 <= m < i && 0 <= c < n :: p[m, c] == Plus(Dot(n, Row(fp, m), Row(f, c)), h, q(m, c))
      {
        for c := 0 to n
          invariant forall m, d | 0 <= m < i && 0 <= d < n :: p[m, d] == Plus(Dot(n, Row(fp, m), Row(f, d)), h, q(m, d))
          invariant forall d | 0 <= d < c :: p[i, d] == Plus(Dot(n, Row(fp, i), Row(f, d)), h, q(i, d))
        {
          var acc := Accumulate(n, Row(fp, i), Row(f, c));
          p[i, c] := Plus(acc, h, q(i, c));
        }
      }
    }
  }

  method Multiply(n: nat, a: Mat, b: Mat) returns (ab: array2<real>)
    ensures fresh(ab) && ab.Length0 == n && ab.Length1 == n
    ensures forall i, j | 0 <= i < n && 0 <= j < n :: ab[i, j] == Mul(n, a, b)(i, j)
  {
    ab := new real[n, n];
    for i := 0 to n
      invariant forall m, c | 0 <= m < i && 0 <= c < n :: ab[m, c] == Mul(n, a, b)(m, c)
    {
      for c := 0 to n
        invariant forall m, d | 0 <= m < i && 0 <= d < n :: ab[m, d] == Mul(n, a, b)(m, d)
        invariant forall d | 0 <= d < c :: ab[i, d] == Mul(n, a, b)(i, d)
      {
        var acc := Accumulate(n, Row(a, i), Col(b, c));
        ab[i, c] := acc;
      }
    }
  }

  lemma DiagonalNonneg(n: nat, p: Mat, s: nat)
    requires s < n && Semidefinite(n, p)
    ensures p(s, s) >= 0.0
  {
    DiagonalQuad(n, p, s);
  }

  /** What the passes leave is the Joseph form for the gain: symmetric, semidefinite, and with no
      variance larger than before. */
  lemma ObservedCovariance(n: nat, was: Mat, s: nat, r: real, k: seq<real>, now: Mat)
    requires s < n && |k| == n && r > 0.0 && was(s, s) + r != 0.0
    requires Symmetric(n, was) && Semidefinite(n, was)
    requires forall i | 0 <= i < n :: k[i] == Gain(was, s, r)(i)
    requires forall i, j | 0 <= i < n && 0 <= j < n ::
      now(i, j) == SecondPass(FirstPass(was(i, j), k[i], was(s, j)), FirstPass(was(i, s), k[i], was(s, s)),
                              k[i], k[j], r)
    ensures Same(n, now, Joseph(n, was, s, r, Gain(was, s, r)))
    ensures Symmetric(n, now) && Semidefinite(n, now)
    ensures now(s, s) <= r && forall i | 0 <= i < n :: now(i, i) <= was(i, i)
  {
    hide Joseph, FirstPass, SecondPass, Gain;
    forall i, j | 0 <= i < n && 0 <= j < n ensures now(i, j) == Joseph(n, was, s, r, Gain(was, s, r))(i, j) {
      LoopIsJoseph(n, was, s, r, Gain(was, s, r), i, j);
    }
    JosephKeeps(n, was, s, r, Gain(was, s, r), now);
    forall i | 0 <= i < n ensures now(i, i) <= was(i, i) && now(s, s) <= r {
      NoVarianceGrows(n, was, s, r, now, i);
    }
  }
}
