/** The torque learner's 20 Hz tick: a history of raw samples, binary-search interpolation over it, and
    the choice of the points that enter the buckets. */
module TorqueEstimator {
  import opened Rings
  import opened Rounding
  import opened TorqueBuckets

  const DT: real := 0.05
  const SLACK: real := 0.001
  const HISTORY := 100
  const MIN_SPEED: real := 15.0
  const STEER_THRESHOLD: real := 0.02
  const ACC_THRESHOLD: real := 1.0
  const ENGAGE_BUFFER: real := 2.0
  const GRAVITY: real := 9.81

  /** `t` has the lag added to it. */
  datatype Sample = Sample(t: real, active: real, steer: real, speed: real, overridden: real)

  datatype Input = Input(
    t: real, inputsFresh: bool, active: bool, steer: real, speed: real, overridden: bool,
    poseValid: bool, yawRate: real, sinRoll: real)

  const ACTIVE: Sample -> real := (s: Sample) => s.active
  const STEER: Sample -> real := (s: Sample) => s.steer
  const SPEED: Sample -> real := (s: Sample) => s.speed
  const OVERRIDDEN: Sample -> real := (s: Sample) => s.overridden

  ghost predicate Increasing(s: seq<Sample>) {
    forall i, j | 0 <= i < j < |s| :: s[i].t < s[j].t
  }

  // ---- Interpolation

  /** The straight line through two samples. */
  function Between(a: Sample, b: Sample, f: Sample -> real, x: real): real
    requires a.t != b.t
  {
    Ratio(f(b) - f(a), b.t - a.t) * (x - a.t) + f(a)
  }

  /** The reference: scan for the segment that holds x, with constant ends. */
  function Scan(s: seq<Sample>, f: Sample -> real, x: real, i: nat): real
    requires i < |s| && Increasing(s)
    decreases |s| - i
  {
    if i + 1 == |s| then f(s[i])
    else if x < s[i + 1].t then Between(s[i], s[i + 1], f, x)
    else Scan(s, f, x, i + 1)
  }

  function Interp(s: seq<Sample>, f: Sample -> real, x: real): real
    requires s != [] && Increasing(s)
  {
    if x < s[0].t then f(s[0]) else Scan(s, f, x, 0)
  }

  lemma {:induction false} ScanFinds(s: seq<Sample>, f: Sample -> real, x: real, i: nat, k: nat)
    requires i <= k < |s| && Increasing(s) && s[k].t <= x && (k + 1 < |s| ==> x < s[k + 1].t)
    ensures Scan(s, f, x, i) == if k + 1 == |s| then f(s[k]) else Between(s[k], s[k + 1], f, x)
    decreases k - i
  {
    if i < k { ScanFinds(s, f, x, i + 1, k); }
  }

  lemma LineStaysBetween(a: Sample, b: Sample, f: Sample -> real, x: real)
    requires a.t <= x < b.t
    ensures x == a.t ==> Between(a, b, f, x) == f(a)
    ensures MinReal(f(a), f(b)) <= Between(a, b, f, x) <= -MinReal(-f(a), -f(b))
  {
    var (rise, run, d) := (f(b) - f(a), b.t - a.t, x - a.t);
    var m := Ratio(rise, run);
    assert m * run == rise;
    Proportion(m, run, d);
  }

  lemma Proportion(m: real, run: real, d: real)
    requires 0.0 <= d < run
    ensures if m >= 0.0 then 0.0 <= m * d <= m * run else m * run <= m * d <= 0.0
    ensures d == 0.0 ==> m * d == 0.0
  {
    assert m * run - m * d == m * (run - d);
  }

  /** Inside the history the value lies between two neighbouring samples, and at a sample it is the
      sample's own; outside it is the nearest end's. */
  lemma InterpLiesBetween(s: seq<Sample>, f: Sample -> real, x: real) returns (k: nat)
    requires s != [] && Increasing(s)
    ensures k < |s|
    ensures x < s[0].t ==> Interp(s, f, x) == f(s[0])
    ensures x >= s[|s| - 1].t ==> Interp(s, f, x) == f(s[|s| - 1])
    ensures s[0].t <= x < s[|s| - 1].t ==>
              && k + 1 < |s| && s[k].t <= x < s[k + 1].t
              && MinReal(f(s[k]), f(s[k + 1])) <= Interp(s, f, x) <= -MinReal(-f(s[k]), -f(s[k + 1]))
              && (x == s[k].t ==> Interp(s, f, x) == f(s[k]))
  {
    k := 0;
    if x >= s[|s| - 1].t {
      ScanFinds(s, f, x, 0, |s| - 1);
    } else if x >= s[0].t {
      k := Locate(s, x, 0);
      ScanFinds(s, f, x, 0, k);
      LineStaysBetween(s[k], s[k + 1], f, x);
    }
  }

  lemma {:induction false} Locate(s: seq<Sample>, x: real, i: nat) returns (k: nat)
    requires i < |s| && s[i].t <= x < s[|s| - 1].t
    ensures k + 1 < |s| && s[k].t <= x < s[k + 1].t
    decreases |s| - i
  {
    if x < s[i + 1].t { k := i; } else { k := Locate(s, x, i + 1); }
  }

  ghost predicate OnTheChord(a: Sample, b: Sample, f: Sample -> real, x: real, v: real) {
    (v - f(a)) * (b.t - a.t) == (f(b) - f(a)) * (x - a.t)
  }

  /** v lies on the line through the two samples around x, or is the value of the nearest end. */
  ghost predicate OnTheLines(s: seq<Sample>, f: Sample -> real, x: real, v: real)
    requires s != []
  {
    && (x < s[0].t ==> v == f(s[0]))
    && (x >= s[|s| - 1].t ==> v == f(s[|s| - 1]))
    && forall k, n | 0 <= k && n == k + 1 < |s| && s[k].t <= x < s[n].t :: OnTheChord(s[k], s[n], f, x, v)
  }

  lemma ChordIsBetween(a: Sample, b: Sample, f: Sample -> real, x: real, v: real)
    requires a.t < b.t
    ensures OnTheChord(a, b, f, x, v) <==> v == Between(a, b, f, x)
  {
    SlopeIsChord(f(b) - f(a), b.t - a.t, x - a.t, v - f(a));
  }

  lemma SlopeIsChord(rise: real, run: real, d: real, u: real)
    requires run > 0.0
    ensures u * run == rise * d <==> u == Ratio(rise, run) * d
  {
    var m := rise / run;
    assert m * run == rise;
    assert u * run - rise * d == (u - m * d) * run;
  }

  /** Exactly: the interpolated value is the one point on the straight line between the two samples around
      x, and outside the history the nearest end. */
  lemma InterpExactly(s: seq<Sample>, f: Sample -> real, x: real, v: real)
    requires s != [] && Increasing(s)
    ensures v == Interp(s, f, x) <==> OnTheLines(s, f, x, v)
  {
    hide Between, Scan;
    forall k, n | 0 <= k && n == k + 1 < |s| && s[k].t <= x < s[n].t
      ensures Interp(s, f, x) == Between(s[k], s[n], f, x)
      ensures OnTheChord(s[k], s[n], f, x, v) <==> v == Interp(s, f, x)
    {
      ScanFinds(s, f, x, 0, k);
      ChordIsBetween(s[k], s[n], f, x, v);
    }
    hide OnTheChord;
    if x >= s[|s| - 1].t {
      ScanFinds(s, f, x, 0, |s| - 1);
    } else if x >= s[0].t {
      var k := Locate(s, x, 0);
      var n := k + 1;
      assert OnTheChord(s[k], s[n], f, x, v) <==> v == Interp(s, f, x);
    }
  }

  /** The sample is next to x on one side, or is at x. */
  predicate Near(s: seq<Sample>, k: nat, x: real)
    requires k < |s|
  {
    (k == 0 || s[k - 1].t < x) && (k + 1 == |s| || x < s[k + 1].t)
  }

  ghost predicate Touched(s: seq<Sample>, f: Sample -> real, x: real) {
    exists k | 0 <= k < |s| :: f(s[k]) != 0.0 && Near(s, k, x)
  }

  ghost predicate IsFlag(s: seq<Sample>, f: Sample -> real) {
    forall k | 0 <= k < |s| :: f(s[k]) == 0.0 || f(s[k]) == 1.0
  }

  lemma MixedFlag(u: real, w: real, run: real, d: real, v: real)
    requires u in {0.0, 1.0} && w in {0.0, 1.0} && 0.0 <= d < run && (v - u) * run == (w - u) * d
    ensures v != 0.0 <==> u != 0.0 || (w != 0.0 && d > 0.0)
  {
    assert v * run == u * run + (w - u) * d;
  }

  lemma OnlyNear(s: seq<Sample>, k: nat, j: nat, x: real)
    requires Increasing(s) && k + 1 < |s| && s[k].t <= x < s[k + 1].t && j < |s|
    ensures Near(s, j, x) <==> j == k || (j == k + 1 && s[k].t < x)
  {}

  /** A flag read at x is raised exactly when a sample next to x has it raised. */
  lemma FlagTouched(s: seq<Sample>, f: Sample -> real, x: real)
    requires s != [] && Increasing(s) && IsFlag(s, f)
    ensures Interp(s, f, x) != 0.0 <==> Touched(s, f, x)
  {
    var v := Interp(s, f, x);
    InterpExactly(s, f, x, v);
    hide Interp;
    if x < s[0].t {
      assert forall j | 0 <= j < |s| :: Near(s, j, x) <==> j == 0;
    } else if x >= s[|s| - 1].t {
      assert forall j | 0 <= j < |s| :: Near(s, j, x) <==> j == |s| - 1;
    } else {
      var k := Locate(s, x, 0);
      var n := k + 1;
      assert OnTheChord(s[k], s[n], f, x, v);
      MixedFlag(f(s[k]), f(s[n]), s[n].t - s[k].t, x - s[k].t, v);
      forall j | 0 <= j < |s| ensures Near(s, j, x) <==> j == k || (j == n && s[k].t < x) { OnlyNear(s, k, j, x); }
    }
  }

  // ---- One tick, as a function

  function Ceil(x: real): int { -((-x).Floor) }

  /** The grid of times looked at: from two seconds ago, every DT, up to now plus the lag. */
  function GridSize(lag: real): int { Ceil((ENGAGE_BUFFER + lag) / DT) }

  function GridTime(t: real, i: int): real { t - ENGAGE_BUFFER + i as real * DT }

  predicate AllActive(s: seq<Sample>, t: real, n: int)
    requires s != [] && Increasing(s)
  {
    forall i | 0 <= i < n :: Interp(s, ACTIVE, GridTime(t, i)) != 0.0
  }

  predicate AnyOverride(s: seq<Sample>, t: real, n: int)
    requires s != [] && Increasing(s)
  {
    exists i | 0 <= i < n :: Interp(s, OVERRIDDEN, GridTime(t, i)) != 0.0
  }

  function Measured(s: seq<Sample>, i: Input): Point
    requires s != [] && Increasing(s)
  {
    Point(Interp(s, STEER, i.t),
          Interp(s, SPEED, i.t) * i.yawRate - i.sinRoll * GRAVITY)
  }

  predicate Accepted(s: seq<Sample>, lag: real, i: Input)
    requires Increasing(s)
  {
    && |s| == HISTORY && i.poseValid
    && AllActive(s, i.t, GridSize(lag)) && !AnyOverride(s, i.t, GridSize(lag))
    && Interp(s, SPEED, i.t) > MIN_SPEED
    && Abs(Measured(s, i).x) > STEER_THRESHOLD && Abs(Measured(s, i).y) <= ACC_THRESHOLD
  }

  /** At the k-th of the times looked back at, the controller steered and the driver did not. */
  ghost predicate SteeredAlone(s: seq<Sample>, t: real, k: nat) {
    var x := t - 2.0 + k as real * 0.05;
    Touched(s, ACTIVE, x) && !Touched(s, OVERRIDDEN, x)
  }

  lemma CeilIsAbove(k: int, x: real)
    ensures k < Ceil(x / 0.05) <==> k as real * 0.05 < x
  {
    var y := x / 0.05;
    assert y * 0.05 == x;
    assert k as real < y <==> k as real * 0.05 < x;
  }

  lemma LookBackExactly(s: seq<Sample>, lag: real, t: real)
    requires s != [] && Increasing(s) && IsFlag(s, ACTIVE) && IsFlag(s, OVERRIDDEN)
    ensures AllActive(s, t, GridSize(lag)) && !AnyOverride(s, t, GridSize(lag)) <==>
            forall k: nat | k as real * 0.05 < 2.0 + lag :: SteeredAlone(s, t, k)
  {
    hide Interp, Touched, Increasing, IsFlag;
    forall k: nat
      ensures k < GridSize(lag) <==> k as real * 0.05 < 2.0 + lag
      ensures SteeredAlone(s, t, k) <==>
              Interp(s, ACTIVE, GridTime(t, k)) != 0.0 && Interp(s, OVERRIDDEN, GridTime(t, k)) == 0.0
    {
      CeilIsAbove(k, 2.0 + lag);
      FlagTouched(s, ACTIVE, GridTime(t, k));
      FlagTouched(s, OVERRIDDEN, GridTime(t, k));
    }
    hide SteeredAlone, GridTime, GridSize;
    if AllActive(s, t, GridSize(lag)) && !AnyOverride(s, t, GridSize(lag)) {
      forall k: nat | k as real * 0.05 < 2.0 + lag ensures SteeredAlone(s, t, k) {
        assert Interp(s, ACTIVE, GridTime(t, k)) != 0.0;
        assert Interp(s, OVERRIDDEN, GridTime(t, k)) == 0.0;
      }
    }
    if forall k: nat | k as real * 0.05 < 2.0 + lag :: SteeredAlone(s, t, k) {
      forall i | 0 <= i < GridSize(lag)
        ensures Interp(s, ACTIVE, GridTime(t, i)) != 0.0 && Interp(s, OVERRIDDEN, GridTime(t, i)) == 0.0
      {
        var k: nat := i;
        assert SteeredAlone(s, t, k);
      }
    }
  }

  /** A point is the steering torque against speed times yaw rate less gravity's share, both read off the
      history; it is kept exactly when the history is full, the pose valid, the speed above 15 m/s, the
      torque above 0.02, the acceleration at most 1, and at every twentieth of a second from two seconds ago
      to the lag ahead the controller steered and the driver did not. */
  lemma AcceptedExactly(s: seq<Sample>, lag: real, i: Input, steer: real, speed: real)
    requires s != [] && Increasing(s) && IsFlag(s, ACTIVE) && IsFlag(s, OVERRIDDEN)
    requires OnTheLines(s, STEER, i.t, steer) && OnTheLines(s, SPEED, i.t, speed)
    ensures var acc := speed * i.yawRate - 9.81 * i.sinRoll;
            && Measured(s, i) == Point(steer, acc)
            && (Accepted(s, lag, i) <==>
                  && |s| == 100 && i.poseValid && speed > 15.0
                  && (steer > 0.02 || steer < -0.02) && -1.0 <= acc <= 1.0
                  && forall k: nat | k as real * 0.05 < 2.0 + lag :: SteeredAlone(s, i.t, k))
  {
    InterpExactly(s, STEER, i.t, steer);
    InterpExactly(s, SPEED, i.t, speed);
    LookBackExactly(s, lag, i.t);
    hide Interp, AllActive, AnyOverride, SteeredAlone, OnTheLines, GridSize, Increasing, IsFlag;
  }

  /** The tick's state: the gate, the history, and the points accepted since the last reset. */
  datatype State = State(has: bool, last: real, frame: int, history: seq<Sample>, added: seq<Point>)

  const INITIAL := State(false, 0.0, -1, [], [])

  predicate Due(s: State, t: real) { !s.has || t - s.last >= DT - SLACK }

  function Taken(lag: real, i: Input): Sample {
    Sample(i.t + lag, if i.active then 1.0 else 0.0, i.steer, i.speed, if i.overridden then 1.0 else 0.0)
  }

  ghost predicate Inv(s: State, lag: real) {
    && Increasing(s.history) && |s.history| <= HISTORY
    && (s.history != [] ==> s.has && s.history[|s.history| - 1].t <= s.last + lag)
  }

  lemma PushKeepsOrder(s: State, lag: real, i: Input)
    requires Inv(s, lag) && Due(s, i.t)
    ensures Increasing(Keep(HISTORY, s.history + [Taken(lag, i)]))
  {}

  /** A valid set of points whose fit is not a number is thrown away, and the history with it. */
  function Publish(s: State, fault: bool): State {
    if EnoughPoints(KeptCounts(s.added)) && fault then s.(history := [], added := []) else s
  }

  /** A due tick up to the publications. */
  function Sampled(s: State, lag: real, i: Input): State
    requires Inv(s, lag) && Due(s, i.t)
  {
    PushKeepsOrder(s, lag, i);
    var h := if i.inputsFresh then Keep(HISTORY, s.history + [Taken(lag, i)]) else s.history;
    var p := if i.inputsFresh && Accepted(h, lag, i) then [Measured(h, i)] else [];
    State(true, i.t, s.frame + 1, h, s.added + p)
  }

  /** `faults` says whether each publication of this tick finds a fit that is not a number. */
  function Published(s: State, faults: (bool, bool)): State {
    var s1 := if s.frame % 5 == 0 then Publish(s, faults.0) else s;
    if s.frame % 240 == 0 then Publish(s1, faults.1) else s1
  }

  function Tick(s: State, lag: real, i: Input, faults: (bool, bool)): State
    requires Inv(s, lag)
  {
    if Due(s, i.t) then Published(Sampled(s, lag, i), faults) else s
  }

  datatype Moment = Moment(input: Input, faults: (bool, bool))

  lemma TickKeeps(s: State, lag: real, m: Moment)
    requires Inv(s, lag)
    ensures Inv(Tick(s, lag, m.input, m.faults), lag)
  {
    hide Accepted, EnoughPoints, KeptCounts;
    if Due(s, m.input.t) { PushKeepsOrder(s, lag, m.input); }
  }

  /** Whatever the inputs, clocks that jump back included, the history stays strictly increasing in
      time and no longer than its capacity. */
  function Run(s: State, lag: real, ms: seq<Moment>): (end: State)
    requires Inv(s, lag)
    ensures Inv(end, lag)
    decreases |ms|
  {
    if ms == [] then s
    else
      TickKeeps(s, lag, ms[0]);
      Run(Tick(s, lag, ms[0].input, ms[0].faults), lag, ms[1..])
  }

  /** A run is its ticks one after another. */
  lemma {:induction false} RunsTickByTick(s: State, lag: real, ms: seq<Moment>, m: Moment)
    requires Inv(s, lag)
    ensures Run(s, lag, []) == s
    ensures Run(s, lag, ms + [m]) == Tick(Run(s, lag, ms), lag, m.input, m.faults)
    decreases |ms|
  {
    hide Tick, Inv;
    var all := ms + [m];
    TickKeeps(s, lag, all[0]);
    if ms == [] {
      assert all[1..] == [];
    } else {
      assert all[1..] == ms[1..] + [m];
      RunsTickByTick(Tick(s, lag, ms[0].input, ms[0].faults), lag, ms[1..], m);
    }
  }

  /** The sample is this input's, dated ahead by the lag. */
  ghost predicate Records(h: Sample, lag: real, i: Input) {
    && h.t == i.t + lag && h.steer == i.steer && h.speed == i.speed
    && (i.active <==> h.active == 1.0) && (!i.active <==> h.active == 0.0)
    && (i.overridden <==> h.overridden == 1.0) && (!i.overridden <==> h.overridden == 0.0)
  }

  /** A tick sooner than 49 ms after the last one taken changes nothing. Any other is counted; fresh inputs
      put their sample after the 99 before it and may add a point; and everything collected is dropped
      exactly when every fifth tick, or every 240th, publishes a faulty fit of enough points. */
  lemma TickExactly(s: State, lag: real, m: Moment) returns (h: seq<Sample>, points: seq<Point>)
    requires Inv(s, lag)
    ensures var (i, s') := (m.input, Tick(s, lag, m.input, m.faults));
            var due := !s.has || i.t >= s.last + 0.049;
            var drop := EnoughPoints(KeptCounts(points))
                        && ((s'.frame % 5 == 0 && m.faults.0) || (s'.frame % 240 == 0 && m.faults.1));
            && (!i.inputsFresh ==> h == s.history && points == s.added)
            && (i.inputsFresh && due ==>
                  && h != [] && Increasing(h) && Records(h[|h| - 1], lag, i)
                  && h[..|h| - 1] == s.history[if |s.history| < 100 then 0 else |s.history| - 99..]
                  && points == s.added + if Accepted(h, lag, i) then [Measured(h, i)] else [])
            && s' == (if !due then s
                      else if drop then State(true, i.t, s.frame + 1, [], [])
                      else State(true, i.t, s.frame + 1, h, points))
  {
    hide Sampled, Published, Accepted, Measured, Increasing, Keep, Records, EnoughPoints, KeptCounts, Inv;
    var i := m.input;
    h, points := s.history, s.added;
    if Due(s, i.t) {
      var sampled := Sampled(s, lag, i);
      h, points := sampled.history, sampled.added;
      SampledExactly(s, lag, i);
      PublishedExactly(sampled, m.faults);
    }
  }

  lemma SampledExactly(s: State, lag: real, i: Input)
    requires Inv(s, lag) && Due(s, i.t)
    ensures var s' := Sampled(s, lag, i);
            var h := s'.history;
            && s'.has && s'.last == i.t && s'.frame == s.frame + 1
            && (!i.inputsFresh ==> h == s.history && s'.added == s.added)
            && (i.inputsFresh ==>
                  && h != [] && Increasing(h) && Records(h[|h| - 1], lag, i)
                  && h[..|h| - 1] == s.history[if |s.history| < 100 then 0 else |s.history| - 99..]
                  && s'.added == s.added + if Accepted(h, lag, i) then [Measured(h, i)] else [])
  {
    hide Accepted, Measured, Increasing, Keep, Taken, Records, Due;
    PushKeepsOrder(s, lag, i);
    LastTaken(s.history, Taken(lag, i));
    TakenRecords(lag, i);
  }

  lemma TakenRecords(lag: real, i: Input)
    ensures Records(Taken(lag, i), lag, i)
  {}

  lemma LastTaken(before: seq<Sample>, x: Sample)
    requires |before| <= HISTORY
    ensures var h := Keep(HISTORY, before + [x]);
            && h != [] && h[|h| - 1] == x
            && h[..|h| - 1] == before[if |before| < 100 then 0 else |before| - 99..]
  {}

  lemma PublishedExactly(s: State, faults: (bool, bool))
    ensures Published(s, faults) ==
            if EnoughPoints(KeptCounts(s.added))
               && ((s.frame % 5 == 0 && faults.0) || (s.frame % 240 == 0 && faults.1))
            then s.(history := [], added := []) else s
  {
    NothingIsEnough();
    hide EnoughPoints, KeptCounts;
  }

  lemma NothingIsEnough()
    ensures !EnoughPoints(KeptCounts([]))
  {
    NothingKept(0);
    assert KeptCounts([])[0] < MinPoints(0);
  }

  ghost predicate FromInputs(h: Sample, lag: real, ms: seq<Moment>) {
    exists j | 0 <= j < |ms| :: ms[j].input.inputsFresh && Records(h, lag, ms[j].input)
  }

  /** Every sample in the history is that of a fresh input of the run. */
  lemma {:induction false} HistoryIsTaken(s: State, lag: real, ms: seq<Moment>)
    requires Inv(s, lag)
    ensures forall h | h in Run(s, lag, ms).history :: h in s.history || FromInputs(h, lag, ms)
    decreases |ms|
  {
    if ms != [] {
      var t := Tick(s, lag, ms[0].input, ms[0].faults);
      TickKeeps(s, lag, ms[0]);
      OneTaken(s, lag, ms[0]);
      HistoryIsTaken(t, lag, ms[1..]);
      hide Tick, Inv, Records;
      forall h | h in Run(s, lag, ms).history ensures h in s.history || FromInputs(h, lag, ms) {
        if h in t.history {
          if h !in s.history { assert Records(h, lag, ms[0].input); }
        } else {
          var j :| 0 <= j < |ms[1..]| && ms[1..][j].input.inputsFresh && Records(h, lag, ms[1..][j].input);
          var k := j + 1;
          assert ms[k] == ms[1..][j];
        }
      }
    }
  }

  lemma OneTaken(s: State, lag: real, m: Moment)
    requires Inv(s, lag)
    ensures forall h | h in Tick(s, lag, m.input, m.faults).history ::
              h in s.history || (m.input.inputsFresh && Records(h, lag, m.input))
  {
    hide Tick, Accepted, Measured, EnoughPoints, KeptCounts, Increasing, Inv, Records;
    var h, _ := TickExactly(s, lag, m);
    if m.input.inputsFresh && (!s.has || m.input.t >= s.last + 0.049) {
      assert h == h[..|h| - 1] + [h[|h| - 1]];
    }
  }

  /** So over every run from the start the flags in the history are zero or one, as AcceptedExactly asks. */
  lemma FlagsAreFlags(lag: real, ms: seq<Moment>)
    ensures IsFlag(Run(INITIAL, lag, ms).history, ACTIVE) && IsFlag(Run(INITIAL, lag, ms).history, OVERRIDDEN)
  {
    var end := Run(INITIAL, lag, ms).history;
    HistoryIsTaken(INITIAL, lag, ms);
    hide Run;
    forall h | h in end
      ensures (ACTIVE(h) == 0.0 || ACTIVE(h) == 1.0) && (OVERRIDDEN(h) == 0.0 || OVERRIDDEN(h) == 1.0)
    {
      assert FromInputs(h, lag, ms);
    }
    hide FromInputs;
    assert forall k | 0 <= k < |end| :: end[k] in end;
  }

  // ---- In place

  class Estimator {
    const lag: real
    const raw: Ring<Sample>
    const buckets: Buckets
    var frame: int
    var hasMotion: bool
    var lastMotion: real

    ghost function Repr(): set<object>
      reads buckets
    {
      {this, raw, raw.slots, buckets} + (set r | r in buckets.rings) + buckets.Slots()
    }

    ghost predicate Valid()
      reads this, raw, raw.slots, buckets, buckets.rings, buckets.Slots()
    {
      && raw.Valid() && raw.slots.Length == HISTORY && buckets.Valid()
      && (forall r | r in buckets.rings :: r.slots as object != raw.slots && r as object != raw)
      && Inv(View(), lag)
    }

    ghost function View(): State
      requires raw.Valid()
      reads this, raw, raw.slots, buckets
    {
      State(hasMotion, lastMotion, frame, raw.Contents(), buckets.added)
    }

    constructor (lag: real)
      ensures Valid() && View() == INITIAL && this.lag == lag && fresh(Repr())
    {
      this.lag := lag;
      raw := new Ring<Sample>(HISTORY, Sample(0.0, 0.0, 0.0, 0.0, 0.0));
      buckets := new Buckets();
      frame, hasMotion, lastMotion := -1, false, 0.0;
    }

    method InterpRaw(x: real, f: Sample -> real) returns (y: real)
      requires raw.Valid() && raw.count > 0 && Increasing(raw.Contents())
      ensures y == Interp(raw.Contents(), f, x)
    {
      hide Scan, Ratio, Increasing;
      ghost var s := raw.Contents();
      var n := raw.count;
      var first := raw.At(0);
      if x < first.t { return f(first); }
      var last := raw.At(n - 1);
      if x >= last.t {
        ScanFinds(s, f, x, 0, n - 1);
        return f(last);
      }
      var lo, hi := 0, n - 1;
      while hi - lo > 1
        invariant 0 <= lo < hi < n && s[lo].t <= x < s[hi].t
      {
        var mid := (lo + hi) / 2;
        var m := raw.At(mid);
        if m.t <= x { lo := mid; } else { hi := mid; }
      }
      ScanFinds(s, f, x, 0, lo);
      var a := raw.At(lo);
      var b := raw.At(hi);
      if a.t == x {
        LineStaysBetween(a, b, f, x);
        return f(a);
      }
      y := Ratio(f(b) - f(a), b.t - a.t) * (x - a.t) + f(a);
    }

    /** Whether the driver let the controller steer over the whole grid of times. */
    method LookBack(t: real) returns (allActive: bool, anyOverride: bool)
      requires raw.Valid() && raw.count > 0 && Increasing(raw.Contents())
      ensures allActive == AllActive(raw.Contents(), t, GridSize(lag))
      ensures anyOverride == AnyOverride(raw.Contents(), t, GridSize(lag))
    {
      hide Interp, GridTime;
      var n := GridSize(lag);
      allActive, anyOverride := true, false;
      var k := 0;
      while k < n
        invariant 0 <= k && (k <= n || k == 0)
        invariant allActive == AllActive(raw.Contents(), t, k)
        invariant anyOverride == AnyOverride(raw.Contents(), t, k)
      {
        var active := InterpRaw(GridTime(t, k), ACTIVE);
        allActive := allActive && active != 0.0;
        var overridden := InterpRaw(GridTime(t, k), OVERRIDDEN);
        anyOverride := anyOverride || overridden != 0.0;
        k := k + 1;
      }
    }

    /** The point this tick measures, and whether it is worth keeping. */
    method Judge(i: Input) returns (ok: bool, p: Point)
      requires raw.Valid() && raw.count <= HISTORY && Increasing(raw.Contents())
      ensures ok <==> Accepted(raw.Contents(), lag, i)
      ensures ok ==> p == Measured(raw.Contents(), i)
    {
      hide Interp, AllActive, AnyOverride, Increasing;
      p := Point(0.0, 0.0);
      if raw.count < HISTORY || !i.poseValid { return false, p; }
      var allActive, anyOverride := LookBack(i.t);
      var speed := InterpRaw(i.t, SPEED);
      var steer := InterpRaw(i.t, STEER);
      var acc := speed * i.yawRate - i.sinRoll * GRAVITY;
      p := Point(steer, acc);
      ok := allActive && !anyOverride && speed > MIN_SPEED
            && Abs(steer) > STEER_THRESHOLD && Abs(acc) <= ACC_THRESHOLD;
    }

    method HandleDeviceMotion(i: Input)
      requires Valid()
      modifies buckets, buckets.rings, buckets.Slots()
      ensures Valid() && raw.Contents() == old(raw.Contents())
      ensures buckets.added == old(buckets.added)
              + if Accepted(raw.Contents(), lag, i) then [Measured(raw.Contents(), i)] else []
    {
      hide Accepted, Measured;
      var ok, p := Judge(i);
      if ok { buckets.AddPoint(p); }
    }

    method Reset()
      requires Valid()
      modifies raw, buckets, buckets.rings
      ensures Valid() && raw.Contents() == [] && buckets.added == []
    {
      raw.Clear();
      buckets.Reset();
    }

    /** The part of a publication that reaches back into the points: dropping them all. */
    method DropIfFaulty(fault: bool)
      requires Valid()
      modifies raw, buckets, buckets.rings
      ensures Valid() && View() == Publish(old(View()), fault)
    {
      hide EnoughPoints, KeptCounts;
      buckets.CountsAreKept();
      var calculable := buckets.IsCalculable();
      if calculable {
        var valid := buckets.IsValid();
        if valid && fault { Reset(); }
      }
    }

    /** A fresh tick: record the sample, then measure a point. */
    method TakeInputs(i: Input)
      requires Valid() && hasMotion && lastMotion == i.t
      requires Increasing(Keep(HISTORY, raw.Contents() + [Taken(lag, i)]))
      modifies raw, raw.slots, buckets, buckets.rings, buckets.Slots()
      ensures Valid()
      ensures var h := Keep(HISTORY, old(raw.Contents()) + [Taken(lag, i)]);
              && raw.Contents() == h
              && buckets.added == old(buckets.added) + if Accepted(h, lag, i) then [Measured(h, i)] else []
    {
      hide Accepted, Measured, Increasing;
      raw.Push(Taken(lag, i));
      HandleDeviceMotion(i);
    }

    method TakeTick(i: Input)
      requires Valid() && Due(View(), i.t)
      modifies Repr()
      ensures Valid() && View() == Sampled(old(View()), lag, i)
    {
      hide Accepted, Measured, Keep;
      ghost var before := View();
      PushKeepsOrder(before, lag, i);
      hasMotion, lastMotion, frame := true, i.t, frame + 1;
      assert Valid();
      hide Increasing;
      if i.inputsFresh { TakeInputs(i); }
    }

    method Update(i: Input, faults: (bool, bool)) returns (publish: bool)
      requires Valid()
      modifies Repr()
      ensures Valid() && View() == Tick(old(View()), lag, i, faults)
      ensures publish <==> Due(old(View()), i.t) && frame % 5 == 0
    {
      hide Sampled, Publish, Inv;
      if hasMotion && i.t - lastMotion < DT - SLACK { return false; }
      TakeTick(i);
      publish := frame % 5 == 0;
      if publish { DropIfFaulty(faults.0); }
      if frame % 240 == 0 { DropIfFaulty(faults.1); }
    }
  }
}
