/** The torque line fitted to the buckets' points: a random draw without replacement, the Gram matrix of
    the rows [x, 1, y], and its smallest eigenvector. */
module TorqueFit {
  import opened Matrices
  import opened Rounding
  import opened Jacobi
  import opened SmallestEigenvector
  import opened TorqueBuckets

  const FIT_POINTS := 2000

  // ---- The draw

  function Swap<T>(s: seq<T>, i: nat, j: nat): (r: seq<T>)
    requires i < |s| && j < |s|
    ensures |r| == |s|
  {
    s[i := s[j]][j := s[i]]
  }

  /** The partner of place i: one of the places not yet settled. */
  function Partner(i: nat, total: nat, draw: nat): (j: nat)
    requires i < total
    ensures i <= j < total
  {
    i + draw % (total - i)
  }

  function Drawn<T>(s: seq<T>, draws: nat -> nat, n: nat): (r: seq<T>)
    requires n <= |s|
    ensures |r| == |s|
  {
    if n == 0 then s else Swap(Drawn(s, draws, n - 1), n - 1, Partner(n - 1, |s|, draws(n - 1)))
  }

  lemma {:induction false} DrawnIsPermuted<T>(s: seq<T>, draws: nat -> nat, n: nat)
    requires n <= |s|
    ensures multiset(Drawn(s, draws, n)) == multiset(s)
  {
    hide Partner, Swap;
    if n > 0 {
      var i := n - 1;
      DrawnIsPermuted(s, draws, i);
      SwapKeeps(Drawn(s, draws, i), i, Partner(i, |s|, draws(i)));
    }
  }

  /** Shuffling keeps the points, so the drawn ones are drawn without replacement. */
  lemma DrawnKeeps<T>(s: seq<T>, draws: nat -> nat, n: nat)
    requires n <= |s|
    ensures multiset(Drawn(s, draws, n)) == multiset(s)
    ensures multiset(Drawn(s, draws, n)[..n]) <= multiset(s)
  {
    DrawnIsPermuted(s, draws, n);
    hide Drawn;
    PrefixOf(Drawn(s, draws, n), n);
  }

  lemma SwapKeeps<T>(s: seq<T>, i: nat, j: nat)
    requires i < |s| && j < |s|
    ensures multiset(Swap(s, i, j)) == multiset(s)
  {}

  lemma PrefixOf<T>(s: seq<T>, n: nat)
    requires n <= |s|
    ensures multiset(s[..n]) <= multiset(s)
  {
    assert s == s[..n] + s[n..];
  }

  /** A settled place is never touched again. */
  lemma {:induction false} DrawnSettles<T>(s: seq<T>, draws: nat -> nat, k: nat, n: nat)
    requires k <= n <= |s|
    ensures Drawn(s, draws, n)[..k] == Drawn(s, draws, k)[..k]
    decreases n
  {
    hide Partner;
    if k < n { DrawnSettles(s, draws, k, n - 1); }
  }

  lemma PartnerReaches(i: nat, total: nat, j: nat)
    requires i <= j < total
    ensures Partner(i, total, j - i) == j
  {}

  /** Some draw fetches any point that is not yet settled. */
  lemma {:induction false} DrawReaches<T>(s: seq<T>, draws: nat -> nat, n: nat, j: nat) returns (draw: nat)
    requires n < |s| && n <= j < |s|
    ensures var d := (i: nat) => if i == n then draw else draws(i);
            Drawn(s, d, n + 1)[n] == Drawn(s, draws, n)[j] && Drawn(s, d, n) == Drawn(s, draws, n)
  {
    draw := j - n;
    PartnerReaches(n, |s|, j);
    hide Partner;
    var d := (i: nat) => if i == n then draw else draws(i);
    DrawsAgree(s, draws, d, n);
  }

  lemma {:induction false} DrawsAgree<T>(s: seq<T>, a: nat -> nat, b: nat -> nat, n: nat)
    requires n <= |s| && forall i | 0 <= i < n :: a(i) == b(i)
    ensures Drawn(s, a, n) == Drawn(s, b, n)
  {
    hide Partner;
    if n > 0 { DrawsAgree(s, a, b, n - 1); }
  }

  lemma InRest<T>(s: seq<T>, n: nat, x: T)
    requires n <= |s| && multiset(s[..n])[x] < multiset(s)[x]
    ensures exists j :: n <= j < |s| && s[j] == x
  {
    assert s == s[..n] + s[n..];
    assert x in s[n..];
  }

  lemma Counts<T>(rest: seq<T>, x: T)
    ensures multiset(rest)[x] < multiset(rest + [x])[x] && |multiset(rest)| == |rest|
    ensures multiset(rest) <= multiset(rest + [x])
  {}

  lemma SelectOneMore<T>(s: seq<T>, before: nat -> nat, rest: seq<T>, x: T) returns (draws: nat -> nat)
    requires |rest| < |s| && Drawn(s, before, |rest|)[..|rest|] == rest && multiset(rest + [x]) <= multiset(s)
    ensures Drawn(s, draws, |rest| + 1)[..|rest| + 1] == rest + [x]
  {
    hide Drawn;
    var n := |rest|;
    var drawn := Drawn(s, before, n);
    DrawnIsPermuted(s, before, n);
    Counts(rest, x);
    InRest(drawn, n, x);
    var j :| n <= j < |drawn| && drawn[j] == x;
    var draw := DrawReaches(s, before, n, j);
    draws := (i: nat) => if i == n then draw else before(i);
    DrawnSettles(s, draws, n, n + 1);
    assert Drawn(s, draws, n + 1)[..n] == rest;
    assert Drawn(s, draws, n + 1)[n] == x;
  }

  /** Every selection is possible: any of the points, each at most as often as it occurs, in any order, come
      out first for some draws. */
  lemma {:induction false} EverySelectionReached<T>(s: seq<T>, wanted: seq<T>) returns (draws: nat -> nat)
    requires multiset(wanted) <= multiset(s)
    ensures |wanted| <= |s| && Drawn(s, draws, |wanted|)[..|wanted|] == wanted
    decreases |wanted|
  {
    hide Drawn;
    Fewer(s, wanted);
    if wanted == [] {
      return _ => 0;
    }
    var (rest, x) := (wanted[..|wanted| - 1], wanted[|wanted| - 1]);
    assert wanted == rest + [x];
    Counts(rest, x);
    var before := EverySelectionReached(s, rest);
    draws := SelectOneMore(s, before, rest, x);
  }

  lemma Fewer<T>(s: seq<T>, wanted: seq<T>)
    requires multiset(wanted) <= multiset(s)
    ensures |wanted| <= |s|
  {
    assert |multiset(s)| == |multiset(wanted)| + |multiset(s) - multiset(wanted)|;
  }

  method PartialShuffle<T>(a: array<T>, n: nat, draws: nat -> nat)
    requires n <= a.Length
    modifies a
    ensures a[..] == Drawn(old(a[..]), draws, n)
    ensures multiset(a[..]) == multiset(old(a[..]))
  {
    hide Partner;
    for i := 0 to n
      invariant a[..] == Drawn(old(a[..]), draws, i)
    {
      var j := Partner(i, a.Length, draws(i));
      a[i], a[j] := a[j], a[i];
    }
    DrawnKeeps(old(a[..]), draws, n);
  }

  // ---- The Gram matrix

  function Sample(p: Point): Vec { i => if i == 0 then p.x else if i == 1 then 1.0 else p.y }

  function Entry(ps: seq<Point>, a: int, b: int): real
    decreases |ps|
  {
    if ps == [] then 0.0
    else Plus(Entry(ps[..|ps| - 1], a, b), 1.0, Outer(Sample(ps[|ps| - 1]), Sample(ps[|ps| - 1]))(a, b))
  }

  function Gram(ps: seq<Point>): Mat { (a, b) => Entry(ps, a, b) }

  lemma {:induction false} EntrySymmetric(ps: seq<Point>, a: int, b: int)
    ensures Entry(ps, a, b) == Entry(ps, b, a)
    decreases |ps|
  {
    if ps != [] {
      EntrySymmetric(ps[..|ps| - 1], a, b);
      ProdCommutes(Sample(ps[|ps| - 1])(a), Sample(ps[|ps| - 1])(b));
    }
  }

  lemma GramSymmetric(ps: seq<Point>)
    ensures Symmetric(3, Of(Rows(Gram(ps))))
  {
    forall a, b | 0 <= a < 3 && 0 <= b < 3 ensures Gram(ps)(a, b) == Gram(ps)(b, a) { EntrySymmetric(ps, a, b); }
  }

  function Misfit(p: Point, e: Vec): real { Square(Dot(3, Sample(p), e)) }

  /** Sum of squared misfits of the direction e. */
  function Residual(ps: seq<Point>, e: Vec): real
    decreases |ps|
  {
    if ps == [] then 0.0 else Residual(ps[..|ps| - 1], e) + Misfit(ps[|ps| - 1], e)
  }

  lemma {:induction false} GramMeasures(ps: seq<Point>, e: Vec)
    ensures Quad(3, Gram(ps), e) == Residual(ps, e)
    decreases |ps|
  {
    if ps == [] {
      forall i | 0 <= i < 3 ensures MatVec(3, Gram(ps), e)(i) == 0.0 {
        ZeroRow(Row(Gram(ps), i), e);
      }
      ZeroRow(MatVec(3, Gram(ps), e), e);
      DotCommutes(3, MatVec(3, Gram(ps), e), e);
    } else {
      var (rest, p) := (ps[..|ps| - 1], ps[|ps| - 1]);
      GramMeasures(rest, e);
      QuadLinear(3, Gram(ps), Gram(rest), 1.0, Outer(Sample(p), Sample(p)), e);
      QuadOuter(3, Sample(p), Sample(p), e);
    }
  }

  lemma ZeroRow(z: Vec, e: Vec)
    requires forall i | 0 <= i < 3 :: z(i) == 0.0
    ensures Dot(3, z, e) == 0.0
  {
    forall i | 0 <= i < 3 ensures Times(z, e)(i) == 0.0 { ZeroTimes(z(i), e(i)); }
    SumZero(3, Times(z, e));
  }

  /** When the sweeps end diagonal, the fitted direction has unit length and no unit direction has a
      smaller sum of squared misfits. */
  lemma FitIsBest(root: real -> real, ps: seq<Point>, k: nat, x: Vec)
    requires IsSqrt(root) && Dot(3, x, x) == 1.0
    ensures var end := Sweeps(root, State(Rows(Gram(ps)), IDENTITY), k);
            var e := Col(Of(end.v), Least(Of(end.a)));
            Done(end.a) ==> Dot(3, e, e) == 1.0 && Residual(ps, e) <= Residual(ps, x)
  {
    GramReady(ps);
    var (a, end) := (Of(Rows(Gram(ps))), Sweeps(root, State(Rows(Gram(ps)), IDENTITY), k));
    var (d, m) := (Of(end.a), Least(Of(end.a)));
    var e := Col(Of(end.v), m);
    FindsSmallestEigenvector(root, Rows(Gram(ps)), k);
    hide Sweeps, Dot, Rows, Least, Quad, Gram, Of, Residual;
    if Done(end.a) {
      SmallestBound(a, e, d(m, m), x);
      SameQuad(3, a, Gram(ps), x);
      SameQuad(3, a, Gram(ps), e);
      GramMeasures(ps, x);
      GramMeasures(ps, e);
    }
  }

  /** However they end, no unit direction beats the fitted one by more than the fifty sweeps have left: the
      square of the advantage is at most 2^-50 times 3/2 of the points' off-diagonal squares. */
  lemma FitIsNearlyBest(root: real -> real, ps: seq<Point>, x: Vec)
    requires IsSqrt(root) && Dot(3, x, x) == 1.0
    ensures var end := Sweeps(root, State(Rows(Gram(ps)), IDENTITY), SWEEPS);
            var e := Col(Of(end.v), Least(Of(end.a)));
            var gap := Residual(ps, e) - Residual(ps, x);
            && Dot(3, e, e) == 1.0
            && (gap > 0.0 ==>
                  2.0 * (1125899906842624.0 * Square(gap)) <= 3.0 * OffDiagonal(3, Of(Rows(Gram(ps)))))
  {
    hide Sweeps, Dot, Rows, Least, Quad, Gram, Of, Residual, OffDiagonal, Square, TwoTo;
    GramReady(ps);
    var end := Sweeps(root, State(Rows(Gram(ps)), IDENTITY), SWEEPS);
    var e := Col(Of(end.v), Least(Of(end.a)));
    FindsNearlySmallest(root, Rows(Gram(ps)), SWEEPS, x);
    FiftyDoublings();
    SameQuad(3, Of(Rows(Gram(ps))), Gram(ps), x);
    SameQuad(3, Of(Rows(Gram(ps))), Gram(ps), e);
    GramMeasures(ps, x);
    GramMeasures(ps, e);
  }

  lemma FiftyDoublings()
    ensures TwoTo(50) == 1125899906842624
  {
    assert TwoTo(10) == 1024;
    assert TwoTo(20) == 1024 * 1024;
    assert TwoTo(30) == 1024 * 1024 * 1024;
    assert TwoTo(40) == 1024 * 1024 * 1024 * 1024;
  }

  lemma GramReady(ps: seq<Point>)
    ensures Shape(Rows(Gram(ps))) && Symmetric(3, Of(Rows(Gram(ps)))) && Same(3, Of(Rows(Gram(ps))), Gram(ps))
  {
    GramSymmetric(ps);
  }

  lemma SmallestBound(a: Mat, e: Vec, value: real, x: Vec)
    requires SmallestFor(a, e, value) && Dot(3, x, x) == 1.0
    ensures Dot(3, e, e) == 1.0 && Quad(3, a, e) <= Quad(3, a, x)
  {
    var ae := MatVec(3, a, e);
    DotScaled(3, e, ae, value, e);
  }

  // ---- The estimate

  /** The points used: all of them, or the first FIT_POINTS of a shuffle. */
  function Used(ps: seq<Point>, all: bool, draws: nat -> nat): seq<Point> {
    if !all && |ps| > FIT_POINTS then Drawn(ps, draws, FIT_POINTS)[..FIT_POINTS] else ps
  }

  /** Up to 2000 points, or when asked for all, every point is used. Of more, exactly 2000 are used, each at
      most as often as it occurs; and every such choice, in every order, is used for some draws. */
  lemma UsedExactly(ps: seq<Point>, all: bool, draws: nat -> nat, wanted: seq<Point>)
    ensures all || |ps| <= 2000 ==> Used(ps, all, draws) == ps
    ensures !all && |ps| > 2000 ==>
              && |Used(ps, all, draws)| == 2000 && multiset(Used(ps, all, draws)) <= multiset(ps)
              && (|wanted| == 2000 && multiset(wanted) <= multiset(ps) ==>
                    exists other: nat -> nat :: Used(ps, all, other) == wanted)
  {
    hide Drawn;
    if !all && |ps| > 2000 {
      DrawnKeeps(ps, draws, 2000);
      if |wanted| == 2000 && multiset(wanted) <= multiset(ps) {
        var other := EverySelectionReached(ps, wanted);
        assert Used(ps, all, other) == wanted;
      }
    }
  }

  lemma EntryPush(ps: seq<Point>, n: nat, a: int, b: int)
    requires n < |ps|
    ensures Entry(ps[..n + 1], a, b) == Entry(ps[..n], a, b) + Sample(ps[n])(a) * Sample(ps[n])(b)
  {
    assert ps[..n + 1][..n] == ps[..n];
  }

  method AccumulateGram(ps: seq<Point>) returns (g: Grid)
    ensures g == Rows(Gram(ps))
  {
    var ata := new real[3, 3]((i, j) => 0.0);
    for n := 0 to |ps|
      invariant forall a, b | 0 <= a < 3 && 0 <= b < 3 :: ata[a, b] == Entry(ps[..n], a, b)
    {
      var r := Sample(ps[n]);
      for a := 0 to 3
        invariant forall c, b | 0 <= c < 3 && 0 <= b < 3 :: ata[c, b] == Entry(ps[..if c < a then n + 1 else n], c, b)
      {
        for b := 0 to 3
          invariant forall c, d | 0 <= c < 3 && 0 <= d < 3 ::
            ata[c, d] == Entry(ps[..if c < a || (c == a && d < b) then n + 1 else n], c, d)
        {
          EntryPush(ps, n, a, b);
          ata[a, b] := ata[a, b] + r(a) * r(b);
        }
      }
    }
    assert ps[..|ps|] == ps;
    ViewIsRows(ata, Gram(ps));
    g := View(ata);
  }

  datatype Line = Vertical | Line(slope: real, offset: real)

  /** The line whose normal is e. */
  function LineOf(e: seq<real>): Line
    requires |e| == 3
  {
    if e[2] == 0.0 then Vertical else Line(Ratio(-e[0], e[2]), Ratio(-e[1], e[2]))
  }

  /** The misfit of a point is its vertical distance from the line, scaled by e[2]. */
  lemma MisfitIsDistance(e: seq<real>, p: Point)
    requires |e| == 3 && e[2] != 0.0
    ensures var line := LineOf(e);
            Misfit(p, i => if 0 <= i < 3 then e[i] else 0.0)
            == Square(e[2] * (p.y - (line.slope * p.x + line.offset)))
  {
    var v: Vec := i => if 0 <= i < 3 then e[i] else 0.0;
    var t := Times(Sample(p), v);
    assert Sum(3, t) == t(0) + t(1) + t(2);
    var line := LineOf(e);
    DivideBack(line.slope, -e[0], e[2]);
    DivideBack(line.offset, -e[1], e[2]);
    Spread(e[2], line.slope, line.offset, p.x, p.y);
  }

  lemma Spread(z: real, slope: real, offset: real, x: real, y: real)
    ensures z * (y - (slope * x + offset)) == z * y - slope * z * x - offset * z
  {}

  method EstimateLine(ps: seq<Point>, all: bool, draws: nat -> nat, root: real -> real) returns (line: Line)
    requires IsSqrt(root)
    ensures var end := Sweeps(root, State(Rows(Gram(Used(ps, all, draws))), IDENTITY), SWEEPS);
            line == LineOf(Column(Of(end.v), Least(Of(end.a))))
  {
    hide Sweeps, Of, Least, Rows, Gram, Drawn, LineOf;
    var a := new Point[|ps|](i requires 0 <= i < |ps| => ps[i]);
    assert a[..] == ps;
    var n := |ps|;
    if !all && |ps| > FIT_POINTS {
      n := FIT_POINTS;
      PartialShuffle(a, n, draws);
    }
    assert a[..n] == Used(ps, all, draws);
    var gram := AccumulateGram(a[..n]);
    GramReady(a[..n]);
    var e := FindSmallest(root, gram);
    line := LineOf(e);
  }
}
