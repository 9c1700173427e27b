/** The online camera calibrator: blocks of a hundred samples, a mean over them, a restart when they
    disagree, and an output that fades from the mean before a restart to the new one.

    Trigonometry is left out: each sample brings the angles it composes to, which may be anything. */
module Calibrator {
  import opened Rounding

  const BLOCK_SIZE := 100
  const NEEDED := 5
  const WANTED := 50
  const SMOOTH_CYCLES: real := 400.0
  const PITCH_MIN: real := -0.09074112085129739
  const PITCH_MAX: real := 0.14907572052989657
  const YAW_MIN: real := -0.06912048084718224
  const YAW_MAX: real := 0.06912048084718235
  const MARGIN: real := 0.005
  const MIN_SPEED: real := 6.7056
  const MAX_YAW_RATE: real := 0.0349065850398866
  const MAX_SPREAD: real := 0.0349065850398866

  datatype Rpy = Rpy(roll: real, pitch: real, yaw: real)

  datatype Composed = NotFinite | Finite(rpy: Rpy)

  /** `certain` is the comparison of the lateral velocity's angle with its limit. */
  datatype Sample = Sample(
    finite: bool, speed: real, forward: real, yawRate: real, certain: bool, composed: Composed)

  datatype Status = Uncalibrated | Calibrated | Invalid

  datatype Snapshot = Snapshot(
    rpy: Rpy, spread: Rpy, validBlocks: int, sampleCount: int, status: Status, accepted: nat, rejected: nat)

  datatype State = State(blocks: seq<Rpy>, sample: int, block: int, earlier: Rpy, weight: real, snap: Snapshot)

  const ZERO := Rpy(0.0, 0.0, 0.0)

  predicate ValidAngles(r: Rpy) { PITCH_MIN < r.pitch < PITCH_MAX && YAW_MIN < r.yaw < YAW_MAX }

  /** The box that clipping keeps angles in. */
  predicate InBox(r: Rpy) {
    PITCH_MIN - MARGIN <= r.pitch <= PITCH_MAX + MARGIN && YAW_MIN - MARGIN <= r.yaw <= YAW_MAX + MARGIN
  }

  function Clipped(c: Composed): Rpy {
    match c
    case NotFinite => ZERO
    case Finite(r) =>
      Rpy(r.roll,
          MaxReal(PITCH_MIN - MARGIN, MinReal(PITCH_MAX + MARGIN, r.pitch)),
          MaxReal(YAW_MIN - MARGIN, MinReal(YAW_MAX + MARGIN, r.yaw)))
  }

  function Blend(p: real, a: Rpy, b: Rpy): Rpy {
    Rpy(Weighted(p, a.roll, b.roll), Weighted(p, a.pitch, b.pitch), Weighted(p, a.yaw, b.yaw))
  }

  /** What the rest of the system is given. */
  function Smooth(s: State): Rpy { if s.weight > 0.0 then Blend(s.weight, s.earlier, s.snap.rpy) else s.snap.rpy }

  // ---- Mean and spread of the finished blocks

  datatype Stats = Stats(sum: Rpy, low: Rpy, high: Rpy, count: nat)

  const NO_STATS := Stats(ZERO, ZERO, ZERO, 0)

  function Include(t: Stats, r: Rpy): Stats {
    var low := if t.count == 0 then r else t.low;
    var high := if t.count == 0 then r else t.high;
    Stats(Rpy(t.sum.roll + r.roll, t.sum.pitch + r.pitch, t.sum.yaw + r.yaw),
          Rpy(MinReal(low.roll, r.roll), MinReal(low.pitch, r.pitch), MinReal(low.yaw, r.yaw)),
          Rpy(MaxReal(high.roll, r.roll), MaxReal(high.pitch, r.pitch), MaxReal(high.yaw, r.yaw)),
          t.count + 1)
  }

  /** Over the first n blocks without the one being filled. */
  function Collect(blocks: seq<Rpy>, skip: int, n: nat): Stats
    requires n <= |blocks|
  {
    if n == 0 then NO_STATS
    else if n - 1 == skip then Collect(blocks, skip, n - 1)
    else Include(Collect(blocks, skip, n - 1), blocks[n - 1])
  }

  function Quotient(x: real, n: nat): real
    requires n > 0
  {
    x / n as real
  }

  function Mean(t: Stats): Rpy
    requires t.count > 0
  {
    Rpy(Quotient(t.sum.roll, t.count), Quotient(t.sum.pitch, t.count), Quotient(t.sum.yaw, t.count))
  }

  function Spread(t: Stats): Rpy {
    Rpy(Abs(t.high.roll - t.low.roll), Abs(t.high.pitch - t.low.pitch), Abs(t.high.yaw - t.low.yaw))
  }

  function Widest(r: Rpy): real { MaxReal(r.roll, MaxReal(r.pitch, r.yaw)) }

  // ---- The state machine, as functions

  function ResetTo(s: State, rpy: Rpy, validBlocks: int, smoothFrom: Composed): State {
    var n := Max(0, Min(validBlocks, WANTED));
    State(seq(WANTED, _ => rpy), 0, 0,
          if smoothFrom.Finite? then smoothFrom.rpy else ZERO,
          if smoothFrom.Finite? then 1.0 else 0.0,
          s.snap.(rpy := rpy, spread := ZERO, validBlocks := n, sampleCount := 0,
                  status := if n >= NEEDED && ValidAngles(rpy) then Calibrated else Uncalibrated))
  }

  predicate Sized(s: State) {
    |s.blocks| == WANTED && 0 <= s.snap.validBlocks <= WANTED && 0 <= s.block < WANTED && 0 <= s.sample < BLOCK_SIZE
  }

  function Measured(s: State): Snapshot
    requires Sized(s)
  {
    var t := Collect(s.blocks, s.block, s.snap.validBlocks);
    var snap := if t.count > 0 then s.snap.(rpy := Mean(t), spread := Spread(t)) else s.snap.(spread := ZERO);
    snap.(status := if s.snap.validBlocks < NEEDED then Uncalibrated
                    else if ValidAngles(snap.rpy) then Calibrated else Invalid)
  }

  predicate Disagrees(snap: Snapshot) { snap.status == Calibrated && Widest(snap.spread) > MAX_SPREAD }

  function Next(b: int): (r: int)
    ensures 0 <= b < WANTED ==> r == if b == WANTED - 1 then 0 else b + 1
  {
    (b + 1) % WANTED
  }

  function Before(b: int): (r: int)
    ensures 0 <= b < WANTED ==> r == if b == 0 then WANTED - 1 else b - 1
  {
    (b + WANTED - 1) % WANTED
  }

  function LastBlock(s: State): int { Before(s.block) }

  function Judged(s: State): State
    requires Sized(s)
  {
    var snap := Measured(s);
    if Disagrees(snap)
    then ResetTo(s.(snap := snap), s.blocks[LastBlock(s)], NEEDED, Finite(snap.rpy))
    else s.(snap := snap)
  }

  predicate Usable(s: State, i: Sample) {
    && i.finite && i.speed > MIN_SPEED && i.forward > MIN_SPEED && Abs(i.yawRate) < MAX_YAW_RATE
    && (i.certain || s.snap.validBlocks < NEEDED)
  }

  function Faded(s: State): State { s.(weight := MaxReal(0.0, s.weight - 1.0 / SMOOTH_CYCLES)) }

  /** One more sample averaged into the block being filled. */
  function Added(s: State, r: Rpy): State
    requires Sized(s)
  {
    var b := Blend(Quotient(s.sample as real, BLOCK_SIZE), s.blocks[s.block], r);
    var next := (s.sample + 1) % BLOCK_SIZE;
    s.(blocks := s.blocks[s.block := b], sample := next,
       snap := s.snap.(accepted := s.snap.accepted + 1, sampleCount := next))
  }

  function Completed(s: State): State {
    s.(block := Next(s.block),
       snap := s.snap.(validBlocks := Min(WANTED, Max(s.block + 1, s.snap.validBlocks))))
  }

  /** The state whose status is judged after an accepted sample. */
  function Filled(s: State, i: Sample): State
    requires Sized(s)
  {
    var s1 := Added(Faded(s), Clipped(i.composed));
    if s1.sample == 0 then Completed(s1) else s1
  }

  function Step(s: State, i: Sample): State
    requires Sized(s)
  {
    if !Usable(s, i) then Faded(s).(snap := s.snap.(rejected := s.snap.rejected + 1))
    else Judged(Filled(s, i))
  }

  // ---- What is kept

  ghost predicate BlocksInBox(s: State) { forall b | 0 <= b < |s.blocks| :: InBox(s.blocks[b]) }

  ghost predicate Inv(s: State) {
    && Sized(s) && s.block <= s.snap.validBlocks
    && BlocksInBox(s) && InBox(s.snap.rpy) && InBox(s.earlier) && 0.0 <= s.weight <= 1.0
  }

  lemma BlendInBox(p: real, a: Rpy, b: Rpy)
    requires 0.0 <= p <= 1.0 && InBox(a) && InBox(b)
    ensures InBox(Blend(p, a, b))
  {
    WeightedBetween(p, a.pitch, b.pitch, PITCH_MIN - MARGIN, PITCH_MAX + MARGIN);
    WeightedBetween(p, a.yaw, b.yaw, YAW_MIN - MARGIN, YAW_MAX + MARGIN);
  }

  function Times(n: nat, x: real): real { n as real * x }

  lemma {:induction false} SumsInBox(blocks: seq<Rpy>, skip: int, n: nat)
    requires n <= |blocks| && forall b | 0 <= b < n :: InBox(blocks[b])
    ensures var t := Collect(blocks, skip, n);
            && Times(t.count, PITCH_MIN - MARGIN) <= t.sum.pitch <= Times(t.count, PITCH_MAX + MARGIN)
            && Times(t.count, YAW_MIN - MARGIN) <= t.sum.yaw <= Times(t.count, YAW_MAX + MARGIN)
  {
    if n > 0 { SumsInBox(blocks, skip, n - 1); }
  }

  lemma QuotientBetween(n: nat, lo: real, x: real, hi: real)
    requires n > 0 && Times(n, lo) <= x <= Times(n, hi)
    ensures lo <= Quotient(x, n) <= hi
  {
    DivisionOrder(lo, x, n as real);
    DivisionOrder(-hi, -x, n as real);
  }

  lemma DivisionOrder(lo: real, x: real, n: real)
    requires n > 0.0 && n * lo <= x
    ensures lo <= x / n
  {}

  lemma MeanInBox(blocks: seq<Rpy>, skip: int, n: nat)
    requires n <= |blocks| && (forall b | 0 <= b < n :: InBox(blocks[b])) && Collect(blocks, skip, n).count > 0
    ensures InBox(Mean(Collect(blocks, skip, n)))
  {
    SumsInBox(blocks, skip, n);
    hide Times, Quotient;
    var t := Collect(blocks, skip, n);
    QuotientBetween(t.count, PITCH_MIN - MARGIN, t.sum.pitch, PITCH_MAX + MARGIN);
    QuotientBetween(t.count, YAW_MIN - MARGIN, t.sum.yaw, YAW_MAX + MARGIN);
  }

  /** The spread is what it says: no two finished blocks lie further apart in any angle. */
  lemma {:induction false} SpreadBounds(blocks: seq<Rpy>, skip: int, n: nat, a: nat, b: nat)
    requires n <= |blocks| && a < n && b < n && a != skip && b != skip
    ensures var t := Collect(blocks, skip, n);
            && t.low.pitch <= blocks[a].pitch <= t.high.pitch && t.low.yaw <= blocks[a].yaw <= t.high.yaw
            && t.low.roll <= blocks[a].roll <= t.high.roll
            && Abs(blocks[a].pitch - blocks[b].pitch) <= Spread(t).pitch
            && Abs(blocks[a].yaw - blocks[b].yaw) <= Spread(t).yaw
            && Abs(blocks[a].roll - blocks[b].roll) <= Spread(t).roll
    decreases n
  {
    Extremes(blocks, skip, n, a);
    Extremes(blocks, skip, n, b);
  }

  lemma {:induction false} Extremes(blocks: seq<Rpy>, skip: int, n: nat, a: nat)
    requires n <= |blocks| && a < n && a != skip
    ensures var t := Collect(blocks, skip, n);
            && t.low.pitch <= blocks[a].pitch <= t.high.pitch && t.low.yaw <= blocks[a].yaw <= t.high.yaw
            && t.low.roll <= blocks[a].roll <= t.high.roll && t.count > 0
    decreases n
  {
    if a < n - 1 { Extremes(blocks, skip, n - 1, a); }
  }

  lemma AddedKeeps(s: State, r: Rpy)
    requires Inv(s) && InBox(r)
    ensures var s1 := Added(s, r); Inv(s1) && s1.block == s.block && s1.sample == (s.sample + 1) % BLOCK_SIZE
    ensures forall b | 0 <= b < WANTED && b != s.block :: Added(s, r).blocks[b] == s.blocks[b]
  {
    hide Blend, InBox;
    assert 0.0 <= Quotient(s.sample as real, BLOCK_SIZE) <= 1.0;
    BlendInBox(Quotient(s.sample as real, BLOCK_SIZE), s.blocks[s.block], r);
  }

  lemma FilledKeeps(s: State, i: Sample)
    requires Inv(s)
    ensures Inv(Filled(s, i))
  {
    assert InBox(Clipped(i.composed));
    assert Inv(Faded(s));
    hide Added, InBox;
    AddedKeeps(Faded(s), Clipped(i.composed));
  }

  lemma UpdateStatusKeeps(s: State)
    requires Inv(s)
    ensures Inv(Judged(s))
  {
    var t := Collect(s.blocks, s.block, s.snap.validBlocks);
    if t.count > 0 { MeanInBox(s.blocks, s.block, s.snap.validBlocks); }
    hide Collect, Mean, Spread, Widest;
    assert InBox(Measured(s).rpy);
  }

  /** Calibrated means: at least five blocks, valid angles, and no angle spread too wide. */
  ghost predicate Trustworthy(snap: Snapshot) {
    snap.status == Calibrated ==>
      snap.validBlocks >= NEEDED && ValidAngles(snap.rpy) && Widest(snap.spread) <= MAX_SPREAD
  }

  lemma StepInv(s: State, i: Sample)
    requires Inv(s)
    ensures Inv(Step(s, i))
  {
    if Usable(s, i) {
      hide Filled, Judged;
      FilledKeeps(s, i);
      UpdateStatusKeeps(Filled(s, i));
    }
  }

  lemma UpdateStatusTrusted(s: State)
    requires Inv(s)
    ensures Trustworthy(Judged(s).snap)
  {
    hide Collect, Mean, Spread;
  }

  /** For every sample: the block being filled, the mean, the smoothed output and every block stay in the
      clipping box, the counters in their ranges; and after an accepted one Calibrated can be trusted. */
  lemma StepKeeps(s: State, i: Sample)
    requires Inv(s)
    ensures Inv(Step(s, i)) && InBox(Smooth(Step(s, i)))
    ensures Usable(s, i) ==> Trustworthy(Step(s, i).snap)
  {
    StepInv(s, i);
    if Usable(s, i) {
      FilledKeeps(s, i);
      UpdateStatusTrusted(Filled(s, i));
    }
    var s1 := Step(s, i);
    hide Step, Filled, Judged, Blend, InBox;
    BlendInBox(s1.weight, s1.earlier, s1.snap.rpy);
  }

  // ---- What single samples do

  /** Out-of-range angles become the nearest ones in the box, and angles in it stay. */
  lemma ClippedIsNearest(r: Rpy)
    ensures var c := Clipped(Finite(r));
            && c.roll == r.roll
            && c.pitch == (if r.pitch < -0.09574112085129739 then -0.09574112085129739
                           else if r.pitch > 0.15407572052989657 then 0.15407572052989657 else r.pitch)
            && c.yaw == (if r.yaw < -0.07412048084718224 then -0.07412048084718224
                         else if r.yaw > 0.07412048084718235 then 0.07412048084718235 else r.yaw)
    ensures InBox(r) <==> Clipped(Finite(r)) == r
  {}

  /** A sample is accepted exactly when all its numbers are finite, the car drives straight and faster than 15 mph,
      and the velocity is certain enough or the calibration has hardly begun; a rejected one leaves all but
      the count of rejections and the fading as it was. */
  lemma AcceptedExactly(s: State, i: Sample)
    requires Inv(s)
    ensures var s' := Step(s, i);
            var ok := i.finite && i.speed > 6.7056 && i.forward > 6.7056
                      && -0.0349065850398866 < i.yawRate < 0.0349065850398866 && (i.certain || s.snap.validBlocks <= 4);
            && s'.snap.accepted == s.snap.accepted + (if ok then 1 else 0)
            && s'.snap.rejected == s.snap.rejected + (if ok then 0 else 1)
            && (!ok ==> s'.blocks == s.blocks && s'.sample == s.sample && s'.block == s.block
                        && s'.snap == s.snap.(rejected := s.snap.rejected + 1))
  {
    hide Collect, Mean, Spread, Blend, Clipped;
  }

  /** The first sample of a block replaces what was there, and a block stays where its samples do. */
  lemma AddedReplaces(s: State, r: Rpy)
    requires Sized(s) && (s.sample == 0 || s.blocks[s.block] == r)
    ensures Added(s, r).blocks[s.block] == r
  {
    var p := Quotient(s.sample as real, BLOCK_SIZE);
    if s.sample == 0 { assert p == 0.0; }
    WeightedSame(p, r.roll);
    WeightedSame(p, r.pitch);
    WeightedSame(p, r.yaw);
    hide Quotient;
  }

  lemma WeightedSame(p: real, x: real)
    ensures Weighted(p, x, x) == x
  {}

  /** What two blocks differ by before their n-th further sample shrinks to n hundredths of it. */
  lemma AddedShrinks(s: State, t: State, r: Rpy)
    requires Sized(s) && Sized(t) && s.sample == t.sample
    ensures var (a, b) := (s.blocks[s.block], t.blocks[t.block]);
            var (c, d) := (Added(s, r).blocks[s.block], Added(t, r).blocks[t.block]);
            && 100.0 * (c.roll - d.roll) == s.sample as real * (a.roll - b.roll)
            && 100.0 * (c.pitch - d.pitch) == s.sample as real * (a.pitch - b.pitch)
            && 100.0 * (c.yaw - d.yaw) == s.sample as real * (a.yaw - b.yaw)
  {
    var (a, b, p) := (s.blocks[s.block], t.blocks[t.block], Quotient(s.sample as real, BLOCK_SIZE));
    assert 100.0 * p == s.sample as real;
    WeightedDifference(p, a.roll, b.roll, r.roll, s.sample as real);
    WeightedDifference(p, a.pitch, b.pitch, r.pitch, s.sample as real);
    WeightedDifference(p, a.yaw, b.yaw, r.yaw, s.sample as real);
    hide Quotient, Weighted;
  }

  lemma WeightedDifference(p: real, a: real, b: real, x: real, n: real)
    requires 100.0 * p == n
    ensures 100.0 * (Weighted(p, a, x) - Weighted(p, b, x)) == n * (a - b)
  {
    assert Weighted(p, a, x) - Weighted(p, b, x) == p * (a - b);
  }

  /** So a block is not the mean of its samples: of the first two, the second already has ninety-nine parts in a
      hundred. */
  lemma BlockIsNotMean(s: State, first: Rpy, second: Rpy)
    requires Sized(s) && s.sample == 0
    ensures Added(Added(s, first), second).blocks[s.block].pitch == 0.01 * first.pitch + 0.99 * second.pitch
  {
    AddedReplaces(s, first);
    var t := Added(s, first);
    assert t.sample == 1 && t.block == s.block && Quotient(t.sample as real, BLOCK_SIZE) == 0.01;
    hide Quotient;
    assert Added(t, second).blocks[s.block].pitch == Weighted(0.01, first.pitch, second.pitch);
  }

  lemma WeightedMoves(p: real, a: real, b: real)
    ensures Weighted(p, a, b) - b == p * (a - b)
    ensures p == 0.0 ==> p * (a - b) == 0.0
  {}

  /** What the output is: the angles, moved towards those before the restart by the weight. */
  lemma SmoothMoves(s: State)
    requires s.weight >= 0.0
    ensures var (o, r) := (Smooth(s), s.snap.rpy);
            && o.roll - r.roll == s.weight * (s.earlier.roll - r.roll)
            && o.pitch - r.pitch == s.weight * (s.earlier.pitch - r.pitch)
            && o.yaw - r.yaw == s.weight * (s.earlier.yaw - r.yaw)
  {
    hide Weighted;
    WeightedMoves(s.weight, s.earlier.roll, s.snap.rpy.roll);
    WeightedMoves(s.weight, s.earlier.pitch, s.snap.rpy.pitch);
    WeightedMoves(s.weight, s.earlier.yaw, s.snap.rpy.yaw);
  }

  function After(s: State, samples: seq<Sample>): State
    requires Inv(s)
    decreases |samples|
  {
    if samples == [] then s else StepInv(s, samples[0]); After(Step(s, samples[0]), samples[1..])
  }

  ghost predicate NoRestart(s: State, samples: seq<Sample>)
    requires Inv(s)
    decreases |samples|
  {
    samples == []
    || (StepInv(s, samples[0]); !Restarts(s, samples[0]) && NoRestart(Step(s, samples[0]), samples[1..]))
  }

  lemma StepFades(s: State, i: Sample)
    requires Inv(s) && !Restarts(s, i)
    ensures Step(s, i).weight == MaxReal(0.0, s.weight - 0.0025) && Step(s, i).earlier == s.earlier
  {
    hide Collect, Mean, Spread, Blend, Clipped;
  }

  /** Whatever the samples, the weight falls by one four-hundredth each; after four hundred without a restart the
      output is the calibration itself. */
  lemma {:induction false} FadesOut(s: State, samples: seq<Sample>)
    requires Inv(s) && NoRestart(s, samples)
    ensures After(s, samples).weight == MaxReal(0.0, s.weight - |samples| as real * 0.0025)
    ensures |samples| >= 400 ==> Smooth(After(s, samples)) == After(s, samples).snap.rpy
    decreases |samples|
  {
    if samples != [] {
      StepInv(s, samples[0]);
      StepFades(s, samples[0]);
      FadesOut(Step(s, samples[0]), samples[1..]);
    }
    hide Step, Restarts;
  }

  // ---- Mean, spread and status

  /** The finished blocks. */
  function Kept(blocks: seq<Rpy>, skip: int, n: nat): seq<Rpy>
    requires n <= |blocks|
  {
    if 0 <= skip < n then blocks[..skip] + blocks[skip + 1..n] else blocks[..n]
  }

  function SumOf(rs: seq<Rpy>): Rpy {
    if rs == [] then ZERO
    else
      var (t, r) := (SumOf(rs[..|rs| - 1]), rs[|rs| - 1]);
      Rpy(t.roll + r.roll, t.pitch + r.pitch, t.yaw + r.yaw)
  }

  lemma SumOfPush(rs: seq<Rpy>, r: Rpy)
    ensures SumOf(rs + [r]) == Rpy(SumOf(rs).roll + r.roll, SumOf(rs).pitch + r.pitch, SumOf(rs).yaw + r.yaw)
  {
    assert (rs + [r])[..|rs|] == rs;
  }

  lemma IncludeAdds(t: Stats, r: Rpy)
    ensures var u := Include(t, r);
            && u.count == t.count + 1
            && u.sum == Rpy(t.sum.roll + r.roll, t.sum.pitch + r.pitch, t.sum.yaw + r.yaw)
  {}

  lemma NothingKept(blocks: seq<Rpy>, skip: int)
    ensures Kept(blocks, skip, 0) == [] && SumOf([]) == ZERO
  {}

  lemma KeptPush(blocks: seq<Rpy>, skip: int, n: nat)
    requires n < |blocks|
    ensures Kept(blocks, skip, n + 1) == Kept(blocks, skip, n) + if skip == n then [] else [blocks[n]]
  {
    assert blocks[..n + 1] == blocks[..n] + [blocks[n]];
    if 0 <= skip < n { assert blocks[skip + 1..n + 1] == blocks[skip + 1..n] + [blocks[n]]; }
  }

  /** The mean is over exactly the finished blocks. */
  lemma {:induction false} CollectsKept(blocks: seq<Rpy>, skip: int, n: nat)
    requires n <= |blocks|
    ensures var (t, kept) := (Collect(blocks, skip, n), Kept(blocks, skip, n));
            t.count == |kept| && t.sum == SumOf(kept)
    decreases n
  {
    hide Kept, SumOf, Include;
    if n > 0 {
      var last := n - 1;
      var kept := Kept(blocks, skip, last);
      CollectsKept(blocks, skip, last);
      KeptPush(blocks, skip, last);
      assert kept + [] == kept;
      SumOfPush(kept, blocks[last]);
      IncludeAdds(Collect(blocks, skip, last), blocks[last]);
    } else {
      NothingKept(blocks, skip);
    }
  }

  lemma MeanTimesCount(t: Stats)
    requires t.count > 0
    ensures var m := Mean(t);
            && Times(t.count, m.roll) == t.sum.roll && Times(t.count, m.pitch) == t.sum.pitch
            && Times(t.count, m.yaw) == t.sum.yaw
  {}

  const ROLL: Rpy -> real := (r: Rpy) => r.roll
  const PITCH: Rpy -> real := (r: Rpy) => r.pitch
  const YAW: Rpy -> real := (r: Rpy) => r.yaw

  /** Two finished blocks lie more than two degrees apart in one angle. */
  ghost predicate Apart(blocks: seq<Rpy>, skip: int, n: nat, f: Rpy -> real)
    requires n <= |blocks|
  {
    exists a, b ::
      0 <= a < n && 0 <= b < n && a != skip && b != skip && f(blocks[a]) - f(blocks[b]) > 0.0349065850398866
  }

  /** Both ends of an angle's range are those of a finished block. */
  ghost predicate Reached(blocks: seq<Rpy>, skip: int, n: nat, f: Rpy -> real, low: real, high: real)
    requires n <= |blocks|
  {
    && (exists a :: 0 <= a < n && a != skip && f(blocks[a]) == low)
    && (exists b :: 0 <= b < n && b != skip && f(blocks[b]) == high)
  }

  lemma ReachedOn(blocks: seq<Rpy>, skip: int, n: nat, f: Rpy -> real, low: real, high: real)
    requires n < |blocks| && n != skip && Reached(blocks, skip, n, f, low, high)
    ensures Reached(blocks, skip, n + 1, f, MinReal(low, f(blocks[n])), MaxReal(high, f(blocks[n])))
  {
    var a :| 0 <= a < n && a != skip && f(blocks[a]) == low;
    var b :| 0 <= b < n && b != skip && f(blocks[b]) == high;
    assert f(blocks[a]) == low && f(blocks[b]) == high;
    if f(blocks[n]) < low { assert f(blocks[n]) == MinReal(low, f(blocks[n])); }
    if f(blocks[n]) > high { assert f(blocks[n]) == MaxReal(high, f(blocks[n])); }
  }

  lemma ReachedFirst(blocks: seq<Rpy>, skip: int, n: nat, f: Rpy -> real)
    requires n < |blocks| && n != skip
    ensures Reached(blocks, skip, n + 1, f, f(blocks[n]), f(blocks[n]))
  {}

  lemma ReachedSkip(blocks: seq<Rpy>, skip: int, n: nat, f: Rpy -> real, low: real, high: real)
    requires n < |blocks| && Reached(blocks, skip, n, f, low, high)
    ensures Reached(blocks, skip, n + 1, f, low, high)
  {}

  lemma {:induction false} RangesReached(blocks: seq<Rpy>, skip: int, n: nat)
    requires n <= |blocks| && Collect(blocks, skip, n).count > 0
    ensures var t := Collect(blocks, skip, n);
            && Reached(blocks, skip, n, ROLL, t.low.roll, t.high.roll)
            && Reached(blocks, skip, n, PITCH, t.low.pitch, t.high.pitch)
            && Reached(blocks, skip, n, YAW, t.low.yaw, t.high.yaw)
    decreases n
  {
    hide Reached;
    var t := Collect(blocks, skip, n - 1);
    if n - 1 == skip {
      RangesReached(blocks, skip, n - 1);
      ReachedSkip(blocks, skip, n - 1, ROLL, t.low.roll, t.high.roll);
      ReachedSkip(blocks, skip, n - 1, PITCH, t.low.pitch, t.high.pitch);
      ReachedSkip(blocks, skip, n - 1, YAW, t.low.yaw, t.high.yaw);
    } else if t.count == 0 {
      ReachedFirst(blocks, skip, n - 1, ROLL);
      ReachedFirst(blocks, skip, n - 1, PITCH);
      ReachedFirst(blocks, skip, n - 1, YAW);
    } else {
      RangesReached(blocks, skip, n - 1);
      ReachedOn(blocks, skip, n - 1, ROLL, t.low.roll, t.high.roll);
      ReachedOn(blocks, skip, n - 1, PITCH, t.low.pitch, t.high.pitch);
      ReachedOn(blocks, skip, n - 1, YAW, t.low.yaw, t.high.yaw);
    }
  }

  lemma SpreadOfAngle(blocks: seq<Rpy>, skip: int, n: nat, f: Rpy -> real, low: real, high: real)
    requires n <= |blocks| && Reached(blocks, skip, n, f, low, high)
    requires forall a | 0 <= a < n && a != skip :: low <= f(blocks[a]) <= high
    ensures Abs(high - low) > MAX_SPREAD <==> Apart(blocks, skip, n, f)
  {
    var a :| 0 <= a < n && a != skip && f(blocks[a]) == high;
    var b :| 0 <= b < n && b != skip && f(blocks[b]) == low;
    assert high - low > MAX_SPREAD ==> f(blocks[a]) - f(blocks[b]) > MAX_SPREAD;
  }

  /** The spread is too wide exactly when two finished blocks lie too far apart in some angle. */
  lemma WidestExactly(blocks: seq<Rpy>, skip: int, n: nat)
    requires n <= |blocks| && Collect(blocks, skip, n).count > 0
    ensures Widest(Spread(Collect(blocks, skip, n))) > MAX_SPREAD <==>
            Apart(blocks, skip, n, ROLL) || Apart(blocks, skip, n, PITCH) || Apart(blocks, skip, n, YAW)
  {
    var t := Collect(blocks, skip, n);
    RangesReached(blocks, skip, n);
    forall a: nat | a < n && a != skip { Extremes(blocks, skip, n, a); }
    hide Collect, Reached, Apart;
    SpreadOfAngle(blocks, skip, n, ROLL, t.low.roll, t.high.roll);
    SpreadOfAngle(blocks, skip, n, PITCH, t.low.pitch, t.high.pitch);
    SpreadOfAngle(blocks, skip, n, YAW, t.low.yaw, t.high.yaw);
  }

  /** The angles before the judgement of an accepted sample: the mean of the finished blocks, if there are any. */
  function Estimated(f: State): Rpy
    requires Sized(f)
  {
    var kept := Kept(f.blocks, f.block, f.snap.validBlocks);
    if kept == [] then f.snap.rpy
    else
      var (t, n) := (SumOf(kept), |kept| as real);
      Rpy(t.roll / n, t.pitch / n, t.yaw / n)
  }

  predicate InRange(r: Rpy) {
    && r.pitch > -0.09074112085129739 && r.pitch < 0.14907572052989657
    && r.yaw > -0.06912048084718224 && r.yaw < 0.06912048084718235
  }

  lemma MeasuredIsEstimated(f: State)
    requires Sized(f)
    ensures Measured(f).rpy == Estimated(f)
  {
    var n := f.snap.validBlocks;
    CollectsKept(f.blocks, f.block, n);
    hide Collect, Kept, SumOf;
  }

  /** A restart comes exactly with five blocks, a mean inside the valid angles, and two finished blocks too far
      apart. */
  lemma RestartsExactly(s: State, i: Sample)
    requires Inv(s) && Usable(s, i)
    ensures var f := Filled(s, i);
            Restarts(s, i) <==>
            && f.snap.validBlocks >= 5 && InRange(Estimated(f))
            && (|| Apart(f.blocks, f.block, f.snap.validBlocks, ROLL)
                || Apart(f.blocks, f.block, f.snap.validBlocks, PITCH)
                || Apart(f.blocks, f.block, f.snap.validBlocks, YAW))
  {
    var f := Filled(s, i);
    FilledKeeps(s, i);
    MeasuredIsEstimated(f);
    KeptLeavesOne(f.blocks, f.block, f.snap.validBlocks);
    CollectsKept(f.blocks, f.block, f.snap.validBlocks);
    hide Filled, Estimated, Collect, Mean, Kept, Apart, Widest, Spread;
    if f.snap.validBlocks >= 5 { WidestExactly(f.blocks, f.block, f.snap.validBlocks); }
  }

  lemma KeptLeavesOne(blocks: seq<Rpy>, skip: int, n: nat)
    requires n <= |blocks|
    ensures |Kept(blocks, skip, n)| >= n - 1
  {}

  /** Without one, the status and the angles are what the finished blocks say. */
  lemma StatusExactly(s: State, i: Sample)
    requires Inv(s) && Usable(s, i) && !Restarts(s, i)
    ensures var (f, snap) := (Filled(s, i), Step(s, i).snap);
            && snap.rpy == Estimated(f) && snap.validBlocks == f.snap.validBlocks
            && snap.status == (if f.snap.validBlocks < 5 then Uncalibrated
                               else if InRange(Estimated(f)) then Calibrated else Invalid)
  {
    MeasuredIsEstimated(Filled(s, i));
    hide Filled, Estimated, Collect, Mean, Kept, Widest, Spread;
  }

  /** Each accepted sample goes into one block; the hundredth completes it, and the next of fifty is filled. After
      a restart everything is at its beginning: five blocks, the old angles at full weight, no spread, and
      calibrated if the block it starts from is in range. */
  lemma CountsExactly(s: State, i: Sample)
    requires Inv(s) && Usable(s, i)
    ensures var s' := Step(s, i);
            && s'.snap.sampleCount == s'.sample
            && (if Restarts(s, i) then
                  && s'.sample == 0 && s'.block == 0 && s'.snap.validBlocks == 5 && s'.weight == 1.0
                  && s'.snap.spread == ZERO && s'.earlier == Estimated(Filled(s, i))
                  && s'.snap.status == if InRange(s'.blocks[0]) then Calibrated else Uncalibrated
                else
                  && s'.sample == (if s.sample == 99 then 0 else s.sample + 1)
                  && s'.block == (if s.sample < 99 then s.block else if s.block == 49 then 0 else s.block + 1)
                  && s'.snap.validBlocks == (if s.sample < 99 || s.block < s.snap.validBlocks then s.snap.validBlocks
                                             else s.block + 1)
                  && s'.blocks == s.blocks[s.block := s'.blocks[s.block]])
  {
    MeasuredIsEstimated(Filled(s, i));
    hide Estimated, Collect, Mean, Kept, Widest, Spread, Blend, Clipped, Usable;
  }

  // ---- Restarts

  /** A calibrator followed from its last reset: the angles it was reset to, and the blocks completed
      since, in order. */
  datatype Followed = Followed(state: State, anchor: Rpy, done: seq<Rpy>)

  function DoneAfter(t: Followed, i: Sample): seq<Rpy>
    requires Sized(t.state)
  {
    var f := Filled(t.state, i);
    if f.sample == 0 then t.done + [f.blocks[t.state.block]] else t.done
  }

  predicate Restarts(s: State, i: Sample)
    requires Sized(s)
  {
    Usable(s, i) && Disagrees(Measured(Filled(s, i)))
  }

  function Follow(t: Followed, i: Sample): Followed
    requires Sized(t.state)
  {
    var s := Step(t.state, i);
    if !Usable(t.state, i) then Followed(s, t.anchor, t.done)
    else if Restarts(t.state, i) then Followed(s, s.snap.rpy, [])
    else Followed(s, t.anchor, DoneAfter(t, i))
  }

  ghost predicate FollowInv(t: Followed) {
    var s := t.state;
    && Inv(s) && s.block == |t.done| % WANTED
    && (t.done != [] ==> s.blocks[LastBlock(s)] == t.done[|t.done| - 1])
    && (t.done == [] ==> forall b | 0 < b < WANTED :: s.blocks[b] == t.anchor)
  }

  lemma {:induction false} SameBlocksAgree(blocks: seq<Rpy>, n: nat, r: Rpy)
    requires n <= |blocks| && forall b | 0 < b < n :: blocks[b] == r
    ensures var t := Collect(blocks, 0, n); t.count > 0 ==> t.low == r == t.high
  {
    if n > 0 { SameBlocksAgree(blocks, n - 1, r); }
  }

  lemma CountOn(n: nat)
    ensures (n + 1) % WANTED == Next(n % WANTED)
  {}

  /** The bookkeeping after an accepted sample, before the status is judged. */
  lemma FilledFollows(t: Followed, i: Sample)
    requires FollowInv(t)
    ensures var (f, done) := (Filled(t.state, i), DoneAfter(t, i));
            && Inv(f) && f.block == |done| % WANTED
            && (done != [] ==> f.blocks[LastBlock(f)] == done[|done| - 1])
            && (done == [] ==> forall b | 0 < b < WANTED :: f.blocks[b] == t.anchor)
  {
    var (s, f) := (t.state, Filled(t.state, i));
    FilledKeeps(s, i);
    AddedKeeps(Faded(s), Clipped(i.composed));
    CountOn(|t.done|);
    hide Next, Before, Added, Blend, Clipped;
    assert forall b | 0 <= b < WANTED && b != s.block :: f.blocks[b] == s.blocks[b];
    hide Filled, Inv, Sized;
  }

  /** A restart happens only after some block was completed, and starts every block over from the most
      recently completed one; the smoothed output does not jump, it stays at the mean just judged. */
  lemma RestartsFromLastCompleted(t: Followed, i: Sample)
    requires FollowInv(t) && Restarts(t.state, i)
    ensures var (done, s) := (DoneAfter(t, i), Step(t.state, i));
            && done != []
            && (forall b | 0 <= b < WANTED :: s.blocks[b] == done[|done| - 1])
            && s.snap.rpy == done[|done| - 1]
            && Smooth(s) == Measured(Filled(t.state, i)).rpy
  {
    var f := Filled(t.state, i);
    FilledFollows(t, i);
    if DoneAfter(t, i) == [] {
      SameBlocksAgree(f.blocks, f.snap.validBlocks, t.anchor);
      assert false;
    }
    hide Filled, Collect, Mean, DoneAfter;
  }

  lemma FollowKeeps(t: Followed, i: Sample)
    requires FollowInv(t)
    ensures FollowInv(Follow(t, i))
  {
    StepInv(t.state, i);
    if Restarts(t.state, i) {
      RestartsFromLastCompleted(t, i);
    } else if Usable(t.state, i) {
      FilledFollows(t, i);
      hide Filled, DoneAfter, Inv, Disagrees, Measured;
    }
  }

  /** Resetting starts a new history. */
  lemma ResetFollows(s: State, rpy: Rpy, n: int, smoothFrom: Composed)
    requires InBox(rpy) && (smoothFrom.Finite? ==> InBox(smoothFrom.rpy))
    ensures FollowInv(Followed(ResetTo(s, rpy, n, smoothFrom), rpy, []))
  {}

  function Run(t: Followed, samples: seq<Sample>): (end: Followed)
    requires FollowInv(t)
    ensures FollowInv(end)
    decreases |samples|
  {
    if samples == [] then t
    else
      FollowKeeps(t, samples[0]);
      Run(Follow(t, samples[0]), samples[1..])
  }

  // ---- In place

  class OnlineCalibrator {
    const blocks: array<Rpy>
    var sample: int
    var block: int
    var earlier: Rpy
    var weight: real
    var snap: Snapshot

    ghost function View(): State
      reads this, blocks
    {
      State(blocks[..], sample, block, earlier, weight, snap)
    }

    ghost predicate Valid()
      reads this, blocks
    {
      Inv(View())
    }

    constructor ()
      ensures Valid() && fresh(blocks) && FollowInv(Followed(View(), ZERO, []))
      ensures snap.status == Uncalibrated && snap.validBlocks == 0
    {
      blocks := new Rpy[WANTED](_ => ZERO);
      sample, block, earlier, weight := 0, 0, ZERO, 0.0;
      snap := Snapshot(ZERO, ZERO, 0, 0, Uncalibrated, 0, 0);
      new;
      ResetToRpy(ZERO, 0, NotFinite);
    }

    method ResetToRpy(rpy: Rpy, validBlocks: int, smoothFrom: Composed)
      requires blocks.Length == WANTED
      modifies this, blocks
      ensures View() == ResetTo(old(View()), rpy, validBlocks, smoothFrom)
      ensures InBox(rpy) && (smoothFrom.Finite? ==> InBox(smoothFrom.rpy)) ==> FollowInv(Followed(View(), rpy, []))
    {
      var n := Max(0, Min(validBlocks, WANTED));
      for b := 0 to WANTED
        invariant unchanged(this) && forall k | 0 <= k < b :: blocks[k] == rpy
      {
        blocks[b] := rpy;
      }
      sample, block := 0, 0;
      if smoothFrom.Finite? {
        earlier, weight := smoothFrom.rpy, 1.0;
      } else {
        earlier, weight := ZERO, 0.0;
      }
      snap := snap.(rpy := rpy, spread := ZERO, validBlocks := n, sampleCount := 0,
                    status := if n >= NEEDED && ValidAngles(rpy) then Calibrated else Uncalibrated);
      if InBox(rpy) && (smoothFrom.Finite? ==> InBox(smoothFrom.rpy)) {
        ResetFollows(old(View()), rpy, validBlocks, smoothFrom);
      }
    }

    method UpdateStatus()
      requires Valid()
      modifies this, blocks
      ensures Valid() && View() == Judged(old(View()))
    {
      UpdateStatusKeeps(View());
      ghost var s := View();
      hide Include, Mean, Spread, ResetTo;
      var t := NO_STATS;
      for b := 0 to snap.validBlocks
        invariant t == Collect(blocks[..], block, b)
      {
        if b == block { continue; }
        t := Include(t, blocks[b]);
      }
      if t.count > 0 {
        snap := snap.(rpy := Mean(t), spread := Spread(t));
      } else {
        snap := snap.(spread := ZERO);
      }
      if snap.validBlocks < NEEDED {
        snap := snap.(status := Uncalibrated);
      } else if ValidAngles(snap.rpy) {
        snap := snap.(status := Calibrated);
      } else {
        snap := snap.(status := Invalid);
      }
      assert snap == Measured(s);
      hide Collect, Measured;
      if snap.status == Calibrated && Widest(snap.spread) > MAX_SPREAD {
        var last := Before(block);
        ResetToRpy(blocks[last], NEEDED, Finite(snap.rpy));
      }
    }

    method AddSample(r: Rpy)
      requires Sized(View())
      modifies this, blocks
      ensures View() == Added(old(View()), r) && sample == (old(sample) + 1) % BLOCK_SIZE
    {
      blocks[block] := Blend(Quotient(sample as real, BLOCK_SIZE), blocks[block], r);
      sample := (sample + 1) % BLOCK_SIZE;
      snap := snap.(accepted := snap.accepted + 1, sampleCount := sample);
    }

    method Accept(i: Sample, ghost s: State) returns (completed: bool)
      requires Inv(s) && View() == Faded(s)
      modifies this, blocks
      ensures Valid() && View() == Judged(Filled(s, i))
      ensures completed <==> s.sample == BLOCK_SIZE - 1
    {
      FilledKeeps(s, i);
      hide Blend, Clipped, Judged, Inv, Added;
      AddSample(Clipped(i.composed));
      completed := sample == 0;
      if completed {
        snap := snap.(validBlocks := Min(WANTED, Max(block + 1, snap.validBlocks)));
        block := Next(block);
      }
      UpdateStatus();
    }

    method Update(i: Sample) returns (accepted: bool, completed: bool)
      requires Valid()
      modifies this, blocks
      ensures Valid() && View() == Step(old(View()), i)
      ensures accepted <==> Usable(old(View()), i)
      ensures completed <==> accepted && old(sample) == BLOCK_SIZE - 1
    {
      ghost var s := View();
      StepInv(s, i);
      weight := MaxReal(0.0, weight - 1.0 / SMOOTH_CYCLES);
      var straightAndFast := i.finite && i.speed > MIN_SPEED && i.forward > MIN_SPEED && Abs(i.yawRate) < MAX_YAW_RATE;
      var certainIfCalibrated := i.finite && (i.certain || snap.validBlocks < NEEDED);
      if !straightAndFast || !certainIfCalibrated {
        snap := snap.(rejected := snap.rejected + 1);
        return false, false;
      }
      assert View() == Faded(s);
      hide Judged, Inv, Filled, Faded;
      accepted := true;
      completed := Accept(i, s);
    }

    /** Only angles inside the valid range are taken over. */
    method Restore(rpy: Composed, validBlocks: int, spread: Composed) returns (ok: bool)
      requires Valid()
      modifies this, blocks
      ensures Valid()
      ensures ok <==> rpy.Finite? && ValidAngles(rpy.rpy)
      ensures ok ==> FollowInv(Followed(View(), rpy.rpy, [])) && snap.status == Calibrated
                     && snap.validBlocks == Min(WANTED, Max(NEEDED, validBlocks)) && Smooth(View()) == rpy.rpy
      ensures !ok ==> View() == old(View())
    {
      if rpy.NotFinite? || !ValidAngles(rpy.rpy) { return false; }
      ResetToRpy(rpy.rpy, Max(NEEDED, validBlocks), NotFinite);
      if spread.Finite? {
        snap := snap.(spread := Rpy(MaxReal(0.0, spread.rpy.roll), MaxReal(0.0, spread.rpy.pitch),
                                    MaxReal(0.0, spread.rpy.yaw)));
      }
      ok := snap.status == Calibrated;
    }
  }
}
