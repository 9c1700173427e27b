/** The times at which the planned car passes the fixed distances of the lane lines. The plan gives x at
    fixed knot times and may stand still or jump back; a pointer into it only ever moves forward. */
module LaneTimes {
  import opened Rounding

  const SIZE := 33

  /** The grids of the driving model: both quadratic in the index. */
  function KnotTime(i: int): real { 10.0 * (i as real / 32.0) * (i as real / 32.0) }

  function GridX(i: int): real { 192.0 * (i as real / 32.0) * (i as real / 32.0) }

  type Plan = x: seq<real> | |x| == SIZE witness seq(SIZE, _ => 0.0)

  lemma GridsGrow(i: nat, j: nat)
    requires i < j
    ensures 0.0 <= KnotTime(i) < KnotTime(j) && 0.0 <= GridX(i) < GridX(j)
    ensures KnotTime(0) == 0.0 && KnotTime(SIZE - 1) == 10.0 && GridX(SIZE - 1) == 192.0
  {
    var (u, v) := (i as real / 32.0, j as real / 32.0);
    Squares(u, v);
  }

  lemma Squares(u: real, v: real)
    requires 0.0 <= u < v
    ensures 0.0 <= u * u < v * v
  {
    Positive(v - u, v + u);
    assert v * v - u * u == (v - u) * (v + u);
  }

  lemma Positive(a: real, b: real)
    requires 0.0 < a && 0.0 < b
    ensures 0.0 < a * b
  {}

  // ---- The reference: each grid point by a search of its own

  /** The first knot from k on whose successor reaches x; the last knot if none does. */
  function Knot(plan: Plan, x: real, k: nat): (r: nat)
    requires k < SIZE
    ensures k <= r < SIZE
    decreases SIZE - k
  {
    if k + 1 < SIZE && plan[k + 1] < x then Knot(plan, x, k + 1) else k
  }

  function Fraction(x: real, from: real, to: real): real {
    if to - from > 0.0 then ClampReal((x - from) / (to - from), 0.0, 1.0) else 1.0
  }

  function Mix(p: real, a: real, b: real): real { p * b + (1.0 - p) * a }

  /** The passing time of grid point i. */
  function Time(plan: Plan, i: nat): real {
    var k := Knot(plan, GridX(i), 0);
    if k == SIZE - 1 then KnotTime(SIZE - 1)
    else Mix(Fraction(GridX(i), plan[k], plan[k + 1]), KnotTime(k), KnotTime(k + 1))
  }

  datatype Entry = Undefined | At(t: real)

  /** The plan ends before grid point i - 1, so i and later ones stay undefined. */
  predicate Ended(plan: Plan, i: nat) {
    i > 1 && Knot(plan, GridX(i - 1), 0) == SIZE - 1
  }

  function Expected(plan: Plan, i: nat): Entry {
    if i == 0 then At(0.0) else if Ended(plan, i) then Undefined else At(Time(plan, i))
  }

  // ---- Facts about the search

  lemma {:induction false} KnotGrows(plan: Plan, x: real, y: real, k: nat)
    requires x <= y && k < SIZE
    ensures Knot(plan, x, k) <= Knot(plan, y, k)
    ensures Knot(plan, y, Knot(plan, x, k)) == Knot(plan, y, k)
    decreases SIZE - k
  {
    if k + 1 < SIZE && plan[k + 1] < x { KnotGrows(plan, x, y, k + 1); }
  }

  lemma {:induction false} KnotReached(plan: Plan, x: real, k: nat)
    requires k < SIZE
    ensures var r := Knot(plan, x, k);
            && (r + 1 < SIZE ==> plan[r + 1] >= x)
            && (forall m | k < m <= r :: plan[m] < x)
    decreases SIZE - k
  {
    if k + 1 < SIZE && plan[k + 1] < x { KnotReached(plan, x, k + 1); }
  }

  /** The search ends on the last knot exactly when the plan never reaches x after its start. */
  lemma {:induction false} LastKnot(plan: Plan, x: real, k: nat)
    requires k < SIZE
    ensures Knot(plan, x, k) == SIZE - 1 <==> forall m | k < m < SIZE :: plan[m] < x
    decreases SIZE - k
  {
    if k + 1 < SIZE && plan[k + 1] < x { LastKnot(plan, x, k + 1); }
  }

  /** Which entries have a time, by the plan alone: the first, and every other unless the plan, after its
      start, never reaches the grid point before it. An entry the plan never reaches gets the last time. */
  lemma DefinedExactly(plan: Plan, i: nat)
    requires i < SIZE
    ensures Expected(plan, i) == Undefined <==> i >= 2 && forall m | 1 <= m < SIZE :: plan[m] < GridX(i - 1)
    ensures i == 0 ==> Expected(plan, i) == At(0.0)
    ensures i > 0 && Expected(plan, i) != Undefined && (forall m | 1 <= m < SIZE :: plan[m] < GridX(i)) ==>
              Expected(plan, i) == At(10.0)
  {
    hide GridX, Mix, Fraction;
    if i > 0 {
      LastKnot(plan, GridX(i), 0);
      LastKnot(plan, GridX(i - 1), 0);
    }
  }

  lemma FractionInRange(x: real, y: real, from: real, to: real)
    requires x <= y
    ensures 0.0 <= Fraction(x, from, to) <= Fraction(y, from, to) <= 1.0
  {
    if to - from > 0.0 { RatioGrows(x - from, y - from, to - from); }
  }

  lemma RatioGrows(a: real, b: real, d: real)
    requires a <= b && d > 0.0
    ensures a / d <= b / d
  {}

  lemma MixBetween(p: real, q: real, a: real, b: real)
    requires 0.0 <= p <= q <= 1.0 && a <= b
    ensures a <= Mix(p, a, b) <= Mix(q, a, b) <= b
  {
    assert Mix(p, a, b) == a + p * (b - a);
    assert Mix(q, a, b) == a + q * (b - a);
    assert q * (b - a) - p * (b - a) == (q - p) * (b - a);
    assert (b - a) - q * (b - a) == (1.0 - q) * (b - a);
  }

  /** A time lies between its knot's time and the next one's. */
  lemma TimeAtKnot(plan: Plan, i: nat)
    ensures var k := Knot(plan, GridX(i), 0);
            KnotTime(k) <= Time(plan, i) <= KnotTime(if k + 1 < SIZE then k + 1 else k)
  {
    var k := Knot(plan, GridX(i), 0);
    if k + 1 < SIZE {
      hide Mix, Fraction, KnotTime, GridX;
      GridsGrow(k, k + 1);
      FractionInRange(GridX(i), GridX(i), plan[k], plan[k + 1]);
      var p := Fraction(GridX(i), plan[k], plan[k + 1]);
      MixBetween(p, p, KnotTime(k), KnotTime(k + 1));
    }
  }

  lemma TimesOnOneKnot(plan: Plan, i: nat, j: nat)
    requires GridX(i) <= GridX(j) && Knot(plan, GridX(i), 0) == Knot(plan, GridX(j), 0)
    ensures Time(plan, i) <= Time(plan, j)
  {
    hide Mix, Fraction, KnotTime, GridX;
    var k := Knot(plan, GridX(i), 0);
    if k + 1 < SIZE {
      GridsGrow(k, k + 1);
      FractionInRange(GridX(i), GridX(j), plan[k], plan[k + 1]);
      MixBetween(Fraction(GridX(i), plan[k], plan[k + 1]), Fraction(GridX(j), plan[k], plan[k + 1]),
                 KnotTime(k), KnotTime(k + 1));
    }
  }

  /** For every plan, whatever its jumps, the times never decrease and stay within the knots' range. */
  lemma TimesAreOrdered(plan: Plan, i: nat, j: nat)
    requires 1 <= i <= j < SIZE
    ensures KnotTime(0) <= Time(plan, i) <= Time(plan, j) <= KnotTime(SIZE - 1)
  {
    hide Time, KnotTime, GridX, Knot;
    if i < j { GridsGrow(i, j); }
    KnotGrows(plan, GridX(i), GridX(j), 0);
    TimeAtKnot(plan, i);
    TimeAtKnot(plan, j);
    var (k, l) := (Knot(plan, GridX(i), 0), Knot(plan, GridX(j), 0));
    if k == l {
      TimesOnOneKnot(plan, i, j);
    }
    if k > 0 { GridsGrow(0, k); }
    if l + 1 < SIZE - 1 { GridsGrow(l + 1, SIZE - 1); }
    if k + 1 < l { GridsGrow(k + 1, l); }
  }

  // ---- A plan that moves forward

  /** The point (t, x) is on the straight line from (a, from) to (b, to). */
  ghost predicate OnLine(t: real, x: real, a: real, from: real, b: real, to: real) {
    a <= t <= b && (x - from) * (b - a) == (t - a) * (to - from)
  }

  /** The plan's x at a time between the first and the last knot, by straight lines. */
  ghost predicate PassesAt(plan: Plan, t: real, x: real) {
    exists k :: 0 <= k < SIZE - 1 && OnLine(t, x, KnotTime(k), plan[k], KnotTime(k + 1), plan[k + 1])
  }

  /** If the plan starts at or before the first grid point and moves strictly forward, then at every
      time before the plan's end it is exactly at the grid point. */
  lemma PassesTheGridPoint(plan: Plan, i: nat)
    requires 1 <= i < SIZE && (forall m | 0 <= m < SIZE - 1 :: plan[m] < plan[m + 1])
    requires plan[0] <= GridX(1) && Knot(plan, GridX(i), 0) < SIZE - 1
    ensures PassesAt(plan, Time(plan, i), GridX(i))
  {
    var k := Knot(plan, GridX(i), 0);
    hide KnotTime, GridX;
    KnotReached(plan, GridX(i), 0);
    TimeAtKnot(plan, i);
    if 1 < i { GridsGrow(1, i); }
    assert plan[k] <= GridX(i) <= plan[k + 1];
    OnTheLine(GridX(i), plan[k], plan[k + 1], KnotTime(k), KnotTime(k + 1));
    hide Knot, Mix, Fraction, OnLine;
    assert OnLine(Time(plan, i), GridX(i), KnotTime(k), plan[k], KnotTime(k + 1), plan[k + 1]);
  }

  lemma OnTheLine(x: real, from: real, to: real, a: real, b: real)
    requires from <= x <= to && from < to
    requires a <= Mix(Fraction(x, from, to), a, b) <= b
    ensures OnLine(Mix(Fraction(x, from, to), a, b), x, a, from, b, to)
  {
    var p := (x - from) / (to - from);
    Within01(x - from, to - from);
    assert p * (to - from) == x - from;
    assert Mix(p, a, b) - a == p * (b - a);
    Swapped(p, b - a, to - from);
  }

  lemma Within01(n: real, d: real)
    requires 0.0 <= n <= d && 0.0 < d
    ensures 0.0 <= n / d <= 1.0
  {}

  lemma Swapped(p: real, u: real, v: real)
    ensures p * u * v == p * v * u
  {}

  // ---- The loop

  lemma ExpectedAt(plan: Plan, i: nat)
    requires i >= 1 && !Ended(plan, i)
    ensures var k := Knot(plan, GridX(i), 0);
            Expected(plan, i) == At(if k == SIZE - 1 then KnotTime(SIZE - 1)
                                    else Mix(Fraction(GridX(i), plan[k], plan[k + 1]), KnotTime(k), KnotTime(k + 1)))
  {}

  lemma EndedStays(plan: Plan, xidx: nat, i: nat)
    requires 1 <= xidx < i && Knot(plan, GridX(xidx), 0) == SIZE - 1
    ensures Expected(plan, i) == Undefined
  {
    hide GridX;
    if xidx < i - 1 { GridsGrow(xidx, i - 1); }
    KnotGrows(plan, GridX(xidx), GridX(i - 1), 0);
  }

  /** The inner loop: advance the pointer to the knot for grid point xidx. */
  method Advance(plan: Plan, xidx: nat, from: nat) returns (tidx: nat)
    requires 1 <= xidx < SIZE && from < SIZE
    requires from == if xidx == 1 then 0 else Knot(plan, GridX(xidx - 1), 0)
    ensures tidx == Knot(plan, GridX(xidx), 0)
  {
    hide GridX;
    tidx := from;
    var next := tidx + 1;
    while next < SIZE && plan[next] < GridX(xidx)
      invariant next == tidx + 1 && tidx < SIZE
      invariant Knot(plan, GridX(xidx), tidx) == Knot(plan, GridX(xidx), from)
    {
      tidx := tidx + 1;
      next := next + 1;
    }
    if xidx > 1 {
      GridsGrow(xidx - 1, xidx);
      KnotGrows(plan, GridX(xidx - 1), GridX(xidx), 0);
    }
  }

  /** One pointer serves all grid points, since it never has to move back. */
  method FillLaneTimes(plan: Plan, lane: array<Entry>)
    requires lane.Length == SIZE
    modifies lane
    ensures forall i: nat | i < SIZE :: lane[i] == Expected(plan, i)
  {
    assert Expected(plan, 0) == At(0.0);
    hide KnotTime, GridX, Mix, Fraction, Knot, Expected;
    forall i | 0 <= i < SIZE { lane[i] := Undefined; }
    lane[0] := At(0.0);
    var tidx: nat := 0;
    var xidx: nat := 1;
    while xidx < SIZE
      invariant 1 <= xidx <= SIZE && tidx < SIZE
      invariant tidx == if xidx == 1 then 0 else Knot(plan, GridX(xidx - 1), 0)
      invariant xidx > 1 ==> tidx < SIZE - 1
      invariant forall i: nat | i < xidx :: lane[i] == Expected(plan, i)
      invariant forall i: nat | xidx <= i < SIZE :: lane[i] == Undefined
    {
      tidx := Advance(plan, xidx, tidx);
      ExpectedAt(plan, xidx);
      if tidx == SIZE - 1 {
        lane[xidx] := At(KnotTime(SIZE - 1));
        forall i: nat | xidx < i < SIZE { EndedStays(plan, xidx, i); }
        break;
      }
      var p := Fraction(GridX(xidx), plan[tidx], plan[tidx + 1]);
      lane[xidx] := At(Mix(p, KnotTime(tidx), KnotTime(tidx + 1)));
      xidx := xidx + 1;
    }
  }
}
