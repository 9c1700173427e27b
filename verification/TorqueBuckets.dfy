/** The torque learner's points, kept in eight buckets by steering torque. */
module TorqueBuckets {
  import opened Rings
  import opened Rounding

  datatype Point = Point(x: real, y: real)

  const BUCKETS := 8
  const CAPACITY := 1500
  const MIN_TOTAL := 4000

  function Lower(i: nat): real
    requires i < BUCKETS
  {
    [-0.5, -0.3, -0.2, -0.1, 0.0, 0.1, 0.2, 0.3][i]
  }

  function Upper(i: nat): real
    requires i < BUCKETS
  {
    [-0.3, -0.2, -0.1, 0.0, 0.1, 0.2, 0.3, 0.5][i]
  }

  function MinPoints(i: nat): nat
    requires i < BUCKETS
  {
    [100, 300, 500, 500, 500, 500, 300, 100][i]
  }

  predicate Within(i: nat, p: Point)
    requires i < BUCKETS
  {
    Lower(i) <= p.x < Upper(i)
  }

  /** The points of one bucket, in order. */
  function OfBucket(ps: seq<Point>, i: nat): (s: seq<Point>)
    requires i < BUCKETS
    ensures forall p | p in s :: Within(i, p)
  {
    if ps == [] then []
    else
      var p := ps[|ps| - 1];
      OfBucket(ps[..|ps| - 1], i) + if Within(i, p) then [p] else []
  }

  lemma OneBucket(i: nat, j: nat, p: Point)
    requires i < BUCKETS && j < BUCKETS && Within(i, p) && Within(j, p)
    ensures i == j
  {}

  /** A steering torque from -0.5 up to but not including 0.5 belongs to a bucket, and no other does. */
  lemma BucketsCover(p: Point)
    ensures (exists i | 0 <= i < BUCKETS :: Within(i, p)) <==> -0.5 <= p.x < 0.5
  {
    if -0.5 <= p.x < 0.5 {
      assert || Within(0, p) || Within(1, p) || Within(2, p) || Within(3, p)
             || Within(4, p) || Within(5, p) || Within(6, p) || Within(7, p);
    }
  }

  lemma OfBucketPush(ps: seq<Point>, p: Point, i: nat)
    requires i < BUCKETS
    ensures OfBucket(ps + [p], i) == OfBucket(ps, i) + if Within(i, p) then [p] else []
  {
    assert (ps + [p])[..|ps|] == ps;
  }

  lemma {:induction false} OfBucketAppend(ps: seq<Point>, qs: seq<Point>, i: nat)
    requires i < BUCKETS
    ensures OfBucket(ps + qs, i) == OfBucket(ps, i) + OfBucket(qs, i)
    decreases |qs|
  {
    if qs == [] {
      assert ps + qs == ps;
    } else {
      hide OfBucket, Within;
      var (rest, q) := (qs[..|qs| - 1], qs[|qs| - 1]);
      OfBucketAppend(ps, rest, i);
      assert ps + qs == ps + rest + [q] && qs == rest + [q];
      OfBucketPush(ps + rest, q, i);
      OfBucketPush(rest, q, i);
    }
  }

  /** A bucket's own points all come back, and none of them to another bucket. */
  lemma {:induction false} OfBucketOwn(ps: seq<Point>, i: nat, j: nat)
    requires i < BUCKETS && j < BUCKETS && forall p | p in ps :: Within(j, p)
    ensures OfBucket(ps, i) == if i == j then ps else []
    decreases |ps|
  {
    if ps != [] {
      var (rest, p) := (ps[..|ps| - 1], ps[|ps| - 1]);
      assert ps == rest + [p];
      assert p in ps;
      OfBucketOwn(rest, i, j);
      if i != j && Within(i, p) { OneBucket(i, j, p); }
    }
  }

  lemma NothingKept(i: nat)
    requires i < BUCKETS
    ensures Keep(CAPACITY, OfBucket([], i)) == []
  {}

  lemma KeptAfter(ps: seq<Point>, p: Point, n: nat)
    requires n < BUCKETS && Within(n, p)
    ensures Keep(CAPACITY, Keep(CAPACITY, OfBucket(ps, n)) + [p]) == Keep(CAPACITY, OfBucket(ps + [p], n))
  {
    OfBucketPush(ps, p, n);
    KeepThenPush(CAPACITY, OfBucket(ps, n), p);
  }

  lemma KeptElsewhere(ps: seq<Point>, p: Point, n: nat, i: nat)
    requires n < BUCKETS && i < BUCKETS && i != n && Within(n, p)
    ensures OfBucket(ps + [p], i) == OfBucket(ps, i)
  {
    OfBucketPush(ps, p, i);
    if Within(i, p) { OneBucket(i, n, p); }
  }

  // ---- Enough points

  function Total(counts: seq<nat>): nat {
    if counts == [] then 0 else Total(counts[..|counts| - 1]) + counts[|counts| - 1]
  }

  predicate EnoughPoints(counts: seq<nat>)
    requires |counts| == BUCKETS
  {
    (forall i | 0 <= i < BUCKETS :: counts[i] >= MinPoints(i)) && Total(counts) >= MIN_TOTAL
  }

  /** How many points each bucket holds after all of these were added. */
  function KeptCounts(added: seq<Point>): (c: seq<nat>)
    ensures |c| == BUCKETS
  {
    seq(BUCKETS, i requires 0 <= i < BUCKETS => |Keep(CAPACITY, OfBucket(added, i))|)
  }

  /** The loop's start value, 1e300 in the code; anything from 100 up gives the same result. */
  const HUGE: real := 1000000000.0

  function Share(counts: seq<nat>, i: nat): real
    requires |counts| == BUCKETS && i < BUCKETS
  {
    counts[i] as real / MinPoints(i) as real * 100.0
  }

  /** The smallest share of the first n buckets. */
  function LeastShare(counts: seq<nat>, n: nat): real
    requires |counts| == BUCKETS && n <= BUCKETS
  {
    if n == 0 then HUGE else MinReal(LeastShare(counts, n - 1), Share(counts, n - 1))
  }

  function Percent(counts: seq<nat>): int
    requires |counts| == BUCKETS
  {
    var total := MinReal(Total(counts) as real / MIN_TOTAL as real * 100.0, 100.0);
    var individual := MinReal(LeastShare(counts, BUCKETS), 100.0);
    ((total + individual) / 2.0).Floor
  }

  lemma {:induction false} LeastShareFull(counts: seq<nat>, n: nat)
    requires |counts| == BUCKETS && n <= BUCKETS
    ensures LeastShare(counts, n) >= 100.0 <==> forall i | 0 <= i < n :: counts[i] >= MinPoints(i)
    ensures LeastShare(counts, n) >= 0.0
  {
    if n > 0 {
      LeastShareFull(counts, n - 1);
      var (c, m) := (counts[n - 1] as real, MinPoints(n - 1) as real);
      assert c / m >= 1.0 <==> c >= m;
    }
  }

  /** One hundred percent means valid, and nothing else does; anything less stays under it. */
  lemma FullPercentIsValid(counts: seq<nat>)
    requires |counts| == BUCKETS
    ensures 0 <= Percent(counts) <= 100
    ensures Percent(counts) == 100 <==> EnoughPoints(counts)
  {
    LeastShareFull(counts, BUCKETS);
  }

  // ---- The buckets in place

  function Flatten(lists: seq<seq<Point>>): seq<Point> {
    if lists == [] then [] else Flatten(lists[..|lists| - 1]) + lists[|lists| - 1]
  }

  lemma FlattenPush(lists: seq<seq<Point>>, n: nat)
    requires n < |lists|
    ensures Flatten(lists[..n + 1]) == Flatten(lists[..n]) + lists[n]
  {
    assert lists[..n + 1][..n] == lists[..n];
  }

  class Buckets {
    const rings: seq<Ring<Point>>
    /** Everything added since the last reset, in order. */
    ghost var added: seq<Point>

    ghost function Slots(): set<object> { set r: Ring<Point> | r in rings :: r.slots as object }

    ghost predicate Shape()
      reads rings
    {
      && |rings| == BUCKETS
      && (forall i | 0 <= i < BUCKETS :: rings[i].Valid() && rings[i].slots.Length == CAPACITY)
      && (forall i, j | 0 <= i < j < BUCKETS :: rings[i] != rings[j] && rings[i].slots != rings[j].slots)
    }

    /** Each bucket holds exactly the most recent points of its interval, in arrival order. */
    ghost predicate Valid()
      reads this, rings, Slots()
    {
      && Shape()
      && (forall i | 0 <= i < BUCKETS :: rings[i].Contents() == Keep(CAPACITY, OfBucket(added, i)))
    }

    constructor ()
      ensures Valid() && added == [] && fresh(rings) && fresh(Slots())
    {
      var made: seq<Ring<Point>> := [];
      for n := 0 to BUCKETS
        invariant |made| == n
        invariant forall i | 0 <= i < n :: fresh(made[i]) && fresh(made[i].slots)
        invariant forall i | 0 <= i < n ::
          made[i].Valid() && made[i].slots.Length == CAPACITY && made[i].Contents() == []
        invariant forall i, j | 0 <= i < j < n :: made[i] != made[j] && made[i].slots != made[j].slots
      {
        var r := new Ring<Point>(CAPACITY, Point(0.0, 0.0));
        made := made + [r];
      }
      rings, added := made, [];
    }

    method Reset()
      requires Valid()
      modifies this, rings
      ensures Valid() && added == []
    {
      for n := 0 to BUCKETS
        invariant Shape() && unchanged(this)
        invariant forall i | 0 <= i < n :: rings[i].Contents() == []
      {
        rings[n].Clear();
      }
      added := [];
      hide Keep, OfBucket;
      forall i | 0 <= i < BUCKETS ensures rings[i].Contents() == Keep(CAPACITY, OfBucket(added, i)) { NothingKept(i); }
    }

    method Put(n: nat, p: Point)
      requires Valid() && n < BUCKETS && Within(n, p)
      modifies this, rings[n], rings[n].slots
      ensures Valid() && added == old(added) + [p]
    {
      hide OfBucket, Keep, Within;
      ghost var was := added;
      rings[n].Push(p);
      added := added + [p];
      assert Shape();
      forall i | 0 <= i < BUCKETS ensures rings[i].Contents() == Keep(CAPACITY, OfBucket(added, i)) {
        if i == n {
          KeptAfter(was, p, n);
        } else {
          KeptElsewhere(was, p, n, i);
          assert rings[i].Contents() == old(rings[i].Contents());
        }
      }
    }

    /** A point outside every interval is dropped. */
    method AddPoint(p: Point)
      requires Valid()
      modifies this, rings, Slots()
      ensures Valid() && added == old(added) + [p]
    {
      for n := 0 to BUCKETS
        invariant Valid() && unchanged(this) && unchanged(rings) && unchanged(Slots())
        invariant forall i | 0 <= i < n :: !Within(i, p)
      {
        if Within(n, p) {
          Put(n, p);
          return;
        }
      }
      forall i | 0 <= i < BUCKETS { OfBucketPush(added, p, i); }
      added := added + [p];
    }

    ghost function Counts(): seq<nat>
      requires Shape()
      reads rings
    {
      seq(BUCKETS, i requires 0 <= i < BUCKETS && Shape() reads rings => rings[i].count)
    }

    lemma CountsAreKept()
      requires Valid()
      ensures Counts() == KeptCounts(added)
    {
      forall i | 0 <= i < BUCKETS ensures Counts()[i] == KeptCounts(added)[i] {
        assert rings[i].Contents() == Keep(CAPACITY, OfBucket(added, i));
      }
    }

    method TotalPoints() returns (total: nat)
      requires Shape()
      ensures total == Total(Counts())
    {
      total := 0;
      for n := 0 to BUCKETS
        invariant total == Total(Counts()[..n])
      {
        assert Counts()[..n + 1][..n] == Counts()[..n];
        total := total + rings[n].count;
      }
      assert Counts()[..BUCKETS] == Counts();
    }

    method IsCalculable() returns (ok: bool)
      requires Shape()
      ensures ok <==> forall i | 0 <= i < BUCKETS :: rings[i].count > 0
      ensures EnoughPoints(Counts()) ==> ok
    {
      for n := 0 to BUCKETS
        invariant forall i | 0 <= i < n :: rings[i].count > 0
      {
        if rings[n].count == 0 {
          assert Counts()[n] < MinPoints(n);
          return false;
        }
      }
      ok := true;
    }

    method IsValid() returns (ok: bool)
      requires Shape()
      ensures ok <==> EnoughPoints(Counts())
    {
      for n := 0 to BUCKETS
        invariant forall i | 0 <= i < n :: rings[i].count >= MinPoints(i)
      {
        if rings[n].count < MinPoints(n) { return false; }
      }
      var total := TotalPoints();
      ok := total >= MIN_TOTAL;
    }

    method ValidPercent() returns (percent: int)
      requires Shape()
      ensures percent == Percent(Counts())
      ensures percent == 100 <==> EnoughPoints(Counts())
    {
      var points := TotalPoints();
      var total := MinReal(points as real / MIN_TOTAL as real * 100.0, 100.0);
      var individual := HUGE;
      for n := 0 to BUCKETS
        invariant individual == LeastShare(Counts(), n)
      {
        individual := MinReal(individual, rings[n].count as real / MinPoints(n) as real * 100.0);
      }
      individual := MinReal(individual, 100.0);
      percent := ((total + individual) / 2.0).Floor;
      FullPercentIsValid(Counts());
    }

    ghost function Lists(): (s: seq<seq<Point>>)
      requires Shape()
      reads rings, Slots()
      ensures |s| == BUCKETS
    {
      seq(BUCKETS, i requires 0 <= i < BUCKETS && Shape() reads rings, Slots() => rings[i].Contents())
    }

    /** Bucket by bucket, oldest first. */
    method Points() returns (out: seq<Point>)
      requires Shape()
      ensures out == Flatten(Lists())
    {
      ghost var lists := Lists();
      out := [];
      for n := 0 to BUCKETS
        invariant out == Flatten(lists[..n])
      {
        var ring := rings[n];
        for i := 0 to ring.count
          invariant out == Flatten(lists[..n]) + lists[n][..i]
        {
          var p := ring.At(i);
          out := out + [p];
        }
        FlattenPush(lists, n);
        assert lists[n][..ring.count] == lists[n];
      }
      assert lists[..BUCKETS] == lists == Lists();
    }
  }
}
