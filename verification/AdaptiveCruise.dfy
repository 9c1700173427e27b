/** Vision cruise. The car never reports its set speed, so the controller adds up its own button
    presses, and moves its target by imitating the SET and RES buttons of the stalk. */
module AdaptiveCruise {
  import opened Rounding

  const RELEASE_DELAY_S: real := 0.5
  const TEARDOWN_S: real := 0.3
  const SETTLE_S: real := 2.0
  const MISMATCH_KPH: real := 5.0
  const MISMATCH_HOLD_S: real := 5.0
  const BACKOFF_S: real := 30.0
  const STEADY_KPH: real := 0.5
  const STEADY_HOLD_S: real := 0.5
  const SCALE_TAU_S: real := 5.0
  const SCALE_MIN: real := 0.97
  const SCALE_MAX: real := 1.25
  const SCALE_LEARN_KPH: real := 30.0
  const RESUME: int := 1
  const SET: int := 2
  const MPH: real := 1.609344
  const UNSET: real := -1.0

  datatype Reading = NotFinite | Finite(v: real)

  datatype Config = Config(
    leadProbability: real, standstillGap: real, followingTime: real, gapGain: real,
    maxSlowdown: real, maxSpeedup: real, deceleration: real,
    leadHold: real, restoreDelay: real, interval: real, pulseFrames: int)

  datatype Input = Input(
    now: real, enabled: bool, ready: bool, cruiseActive: bool, brake: bool,
    gas: bool, driverAccelerator: bool, mph: bool, driverButton: int, mainButton: int,
    ego: Reading, cluster: Reading, driverSet: Reading,
    leadUpdated: bool, leadValid: bool, probability: Reading, distance: Reading, relativeSpeed: Reading)

  datatype Session = Session(
    valid: bool, maximum: real, commanded: real, reanchorPending: bool, adjustUntil: real,
    mismatchSince: real, ineffectiveUntil: real)

  /** The button being held for a few frames, and when the last press began. */
  datatype Pulse = Pulse(button: int, frames: int, lastCommand: real, lastWasSet: bool)

  datatype Lead = Lead(distance: real, relativeSpeed: real, lastValid: real)

  datatype Scale = Scale(ratio: real, valid: bool)

  datatype Timing = Timing(mainButton: int, lastOverride: real, lastUpdate: real, inactiveSince: real)

  /** The cluster speed that has been steady, and since when. */
  datatype Steady = Steady(kph: real, since: real)

  datatype State = State(
    session: Session, pulse: Pulse, lead: Lead, scale: Scale, timing: Timing, steady: Steady)

  datatype Output = Output(
    sessionValid: bool, active: bool, leadValid: bool,
    maximum: real, commanded: real, target: real, scale: real, button: int)

  const NO_SESSION := Session(false, 0.0, 0.0, false, UNSET, UNSET, UNSET)
  const INITIAL := State(
    NO_SESSION, Pulse(0, 0, UNSET, false), Lead(0.0, 0.0, UNSET), Scale(1.0, false),
    Timing(0, UNSET, UNSET, UNSET), Steady(0.0, UNSET))

  function Minimum(mph: bool): real { if mph then 20.0 * MPH else 30.0 }

  function StepSize(mph: bool): real { if mph then 2.0 * MPH else 2.0 }

  // ---- The stages of one tick

  function Blend(from: real, alpha: real, to: real): real { from + alpha * (to - from) }

  function LearnScale(s: Scale, i: Input, dt: real): Scale {
    if dt <= 0.0 || i.cluster.NotFinite? || i.ego.NotFinite?
       || i.cluster.v < SCALE_LEARN_KPH || i.ego.v < SCALE_LEARN_KPH then s
    else
      var raw := Ratio(i.cluster.v, i.ego.v);
      if raw < SCALE_MIN || raw > SCALE_MAX then s.(valid := false)
      else if !s.valid then Scale(raw, true)
      else s.(ratio := Blend(s.ratio, Ratio(dt, SCALE_TAU_S + dt), raw))
  }

  predicate LeadUsable(c: Config, i: Input) {
    && i.leadValid
    && i.probability.Finite? && i.probability.v >= c.leadProbability
    && i.distance.Finite? && i.relativeSpeed.Finite?
    && 1.0 <= i.distance.v <= 150.0 && Abs(i.relativeSpeed.v) <= 40.0
  }

  function TrackLead(l: Lead, c: Config, i: Input): Lead {
    if !i.leadUpdated || !LeadUsable(c, i) then l
    else if l.lastValid < 0.0 || i.now - l.lastValid > c.leadHold then
      Lead(i.distance.v, i.relativeSpeed.v, i.now)
    else
      var alpha := if i.distance.v < l.distance then 0.45 else 0.2;
      Lead(Blend(l.distance, alpha, i.distance.v), Blend(l.relativeSpeed, 0.3, i.relativeSpeed.v), i.now)
  }

  predicate MainPressed(t: Timing, i: Input) { i.mainButton != 0 && t.mainButton == 0 }

  predicate Overriding(i: Input) { i.gas || i.driverAccelerator }

  function InactiveSince(t: Timing, i: Input): real {
    if i.cruiseActive then UNSET else if t.inactiveSince < 0.0 then i.now else t.inactiveSince
  }

  predicate Ends(t: Timing, i: Input) {
    var since := InactiveSince(t, i);
    || !i.enabled || MainPressed(t, i)
    || (!i.cruiseActive && since >= 0.0 && i.now - since >= TEARDOWN_S)
  }

  function Teardown(s: State, i: Input): State {
    var t := s.timing.(inactiveSince := InactiveSince(s.timing, i));
    if Ends(s.timing, i)
    then s.(timing := t, session := NO_SESSION, lead := s.lead.(lastValid := UNSET),
            pulse := s.pulse.(lastWasSet := false))
    else s.(timing := t)
  }

  function TrackDriver(s: Session, i: Input): Session {
    if i.driverButton != 0 && s.valid
    then s.(adjustUntil := i.now + SETTLE_S, reanchorPending := true)
    else s
  }

  predicate Adjusting(s: Session, i: Input) { s.adjustUntil >= 0.0 && i.now < s.adjustUntil }

  predicate ValidSetSpeed(r: Reading) { r.Finite? && 0.0 < r.v < 300.0 }

  predicate Opens(s: State, i: Input) {
    i.enabled && i.cruiseActive && !MainPressed(s.timing, i) && !s.session.valid && ValidSetSpeed(i.driverSet)
  }

  function Begin(s: State, i: Input): State {
    if !Opens(s, i) then s
    else
      var speed := MaxReal(Minimum(i.mph), i.driverSet.v);
      s.(session := Session(true, speed, speed, false, s.session.adjustUntil, UNSET, UNSET),
         pulse := Pulse(0, 0, i.now, false))
  }

  predicate ClusterValid(i: Input) { i.cluster.Finite? && i.cluster.v > 0.0 }

  function WatchCluster(r: Steady, i: Input): Steady {
    if !ClusterValid(i) then r.(since := UNSET)
    else if r.since < 0.0 || Abs(i.cluster.v - r.kph) > STEADY_KPH then Steady(i.cluster.v, i.now)
    else r
  }

  predicate ClusterSteady(r: Steady, i: Input) {
    ClusterValid(i) && r.since >= 0.0 && i.now - r.since >= STEADY_HOLD_S
  }

  predicate Reanchors(s: State, i: Input) {
    && s.session.valid && i.cruiseActive && s.session.reanchorPending
    && !Adjusting(s.session, i) && i.driverButton == 0
    && ClusterSteady(WatchCluster(s.steady, i), i)
  }

  function Reanchor(s: State, i: Input): State {
    var s1 := s.(steady := WatchCluster(s.steady, i));
    if !Reanchors(s, i) then s1
    else
      var anchor := MaxReal(Minimum(i.mph), i.cluster.v);
      s1.(session := Session(true, anchor, anchor, false, s.session.adjustUntil, UNSET, UNSET),
          pulse := s.pulse.(lastCommand := i.now))
  }

  /** Commands have been quiet for long enough to compare the reading with the sum of presses. */
  predicate Compares(s: State, i: Input) {
    && s.session.valid && i.cruiseActive && ClusterValid(i) && !Adjusting(s.session, i)
    && s.pulse.frames == 0 && s.pulse.lastCommand >= 0.0 && i.now - s.pulse.lastCommand >= MISMATCH_HOLD_S
  }

  function Resolve(s: State, i: Input): Session {
    var x := s.session;
    if !Compares(s, i) then x
    else if Abs(i.cluster.v - x.commanded) <= MISMATCH_KPH then x.(mismatchSince := UNSET)
    else
      var since := if x.mismatchSince < 0.0 then i.now else x.mismatchSince;
      if i.now - since < MISMATCH_HOLD_S then x.(mismatchSince := since)
      else x.(ineffectiveUntil := if i.cluster.v > x.commanded then i.now + BACKOFF_S else x.ineffectiveUntil,
              commanded := ClampReal(i.cluster.v, Minimum(i.mph), x.maximum),
              mismatchSince := UNSET)
  }

  predicate LeadFresh(s: State, c: Config, i: Input) {
    && s.session.valid && i.ego.Finite? && s.lead.lastValid >= 0.0
    && i.now >= s.lead.lastValid && i.now - s.lead.lastValid <= c.leadHold
  }

  /** The correction for the gap error to the lead, predicted past the response to the next press. */
  function Correction(c: Config, l: Lead, ego: real, step: real): real {
    var gap := c.standstillGap + c.followingTime * ego;
    var response := Ratio(step, MaxReal(0.1, c.deceleration));
    var horizon := MinReal(2.0, c.interval + 0.5 * response);
    var predicted := MaxReal(1.0, l.distance + MinReal(0.0, l.relativeSpeed) * horizon);
    ClampReal((predicted - gap) * c.gapGain, -c.maxSlowdown, c.maxSpeedup)
  }

  /** The speed that closes the gap error to the lead, on the cluster's scale. */
  function FollowSpeed(c: Config, l: Lead, egoKph: real, ratio: real, step: real): real {
    var ego := MaxReal(0.0, egoKph / 3.6);
    var leadSpeed := MaxReal(0.0, ego + l.relativeSpeed);
    (leadSpeed + Correction(c, l, ego, step)) * 3.6 * ratio
  }

  function Target(s: State, c: Config, i: Input): real {
    var x := s.session;
    if x.valid && LeadFresh(s, c, i) && s.scale.valid then
      ClampReal(FollowSpeed(c, s.lead, i.ego.v, s.scale.ratio, StepSize(i.mph)), Minimum(i.mph), x.maximum)
    else if x.valid && (s.lead.lastValid < 0.0 || i.now - s.lead.lastValid >= c.restoreDelay) then x.maximum
    else x.commanded
  }

  predicate Active(s: State, i: Input) { i.enabled && s.session.valid && i.cruiseActive }

  predicate Allowed(s: State, i: Input) {
    && Active(s, i) && i.ego.Finite? && s.scale.valid && i.ready && !i.brake && !Overriding(i)
    && (s.timing.lastOverride < 0.0 || i.now - s.timing.lastOverride >= RELEASE_DELAY_S)
    && !Adjusting(s.session, i)
    && (s.session.ineffectiveUntil < 0.0 || i.now >= s.session.ineffectiveUntil)
    && i.driverButton == 0 && !MainPressed(s.timing, i)
  }

  predicate WantsSet(x: Session, target: real, mph: bool) {
    target <= x.commanded - StepSize(mph) && x.commanded > Minimum(mph) + 0.1
  }

  predicate WantsResume(x: Session, target: real, mph: bool) {
    target >= x.commanded + StepSize(mph) && x.commanded < x.maximum - 0.1
  }

  function ButtonInterval(p: Pulse, c: Config, mph: bool): real {
    if p.lastWasSet
    then MaxReal(c.interval, Ratio(StepSize(mph), MaxReal(0.1, c.deceleration)))
    else c.interval
  }

  predicate IntervalReady(p: Pulse, c: Config, i: Input) {
    p.lastCommand < 0.0 || i.now - p.lastCommand >= ButtonInterval(p, c, i.mph)
  }

  /** The button a new pulse would begin with, 0 for none. */
  function Chosen(s: State, c: Config, i: Input, target: real): int {
    if !IntervalReady(s.pulse, c, i) then 0
    else if WantsSet(s.session, target, i.mph) then SET
    else if WantsResume(s.session, target, i.mph) then RESUME
    else 0
  }

  function Press(s: State, c: Config, i: Input, button: int): State {
    if button == 0 then s.(pulse := s.pulse.(button := 0))
    else
      var moved := if button == SET
        then MaxReal(Minimum(i.mph), s.session.commanded - StepSize(i.mph))
        else MinReal(s.session.maximum, s.session.commanded + StepSize(i.mph));
      s.(session := s.session.(commanded := moved, mismatchSince := UNSET),
         pulse := Pulse(button, c.pulseFrames - 1, i.now, button == SET))
  }

  function Pace(s: State, c: Config, i: Input, target: real): (State, int) {
    if !Allowed(s, i) then (s.(pulse := s.pulse.(button := 0, frames := 0)), 0)
    else if s.pulse.frames > 0 then (s.(pulse := s.pulse.(frames := s.pulse.frames - 1)), s.pulse.button)
    else
      var b := Chosen(s, c, i, target);
      (Press(s, c, i, b), b)
  }

  function Elapsed(t: Timing, i: Input): real {
    if t.lastUpdate < 0.0 || i.now < t.lastUpdate then 0.0 else MinReal(0.1, i.now - t.lastUpdate)
  }

  function Clocked(s: State, i: Input): State {
    s.(scale := LearnScale(s.scale, i, Elapsed(s.timing, i)),
       timing := s.timing.(lastUpdate := i.now,
                           lastOverride := if Overriding(i) then i.now else s.timing.lastOverride))
  }

  /** The stages up to the session's own bookkeeping; then the comparison; then the lead. */
  function Driven(s: State, i: Input): State {
    var s1 := Teardown(Clocked(s, i), i);
    s1.(session := TrackDriver(s1.session, i))
  }

  function Anchored(s: State, i: Input): State { Reanchor(Begin(Driven(s, i), i), i) }

  function Settled(s: State, c: Config, i: Input): State {
    var s1 := Anchored(s, i);
    s1.(session := Resolve(s1, i), lead := TrackLead(s1.lead, c, i))
  }

  function Step(s: State, c: Config, i: Input): (State, Output) {
    var s1 := Settled(s, c, i);
    var target := Target(s1, c, i);
    var (s2, button) := Pace(s1, c, i, target);
    (s2.(timing := s2.timing.(mainButton := i.mainButton)),
     Output(s2.session.valid, Active(s1, i), LeadFresh(s1, c, i),
            s2.session.maximum, s2.session.commanded, target, s2.scale.ratio, button))
  }

  // ---- One tick

  /** What a session keeps while the speed unit stays the same. */
  ghost predicate Bounded(x: Session, mph: bool) {
    x.valid ==> Minimum(mph) <= x.commanded <= x.maximum
  }

  lemma SettledKeepsBounds(s: State, c: Config, i: Input)
    requires Bounded(s.session, i.mph)
    ensures Bounded(Settled(s, c, i).session, i.mph)
  {
    hide LearnScale, TrackLead, WatchCluster;
    assert Bounded(Driven(s, i).session, i.mph);
  }

  /** No press is ever clipped: a wanted press lands inside the session's range. */
  lemma PressFits(s: State, c: Config, i: Input)
    requires Bounded(s.session, i.mph) && s.session.valid
    ensures var (x, t, step) := (s.session, Target(s, c, i), StepSize(i.mph));
            && (t <= x.commanded - step ==> Minimum(i.mph) <= x.commanded - step && WantsSet(x, t, i.mph))
            && (t >= x.commanded + step ==> x.commanded + step <= x.maximum && WantsResume(x, t, i.mph))
  {
    hide FollowSpeed;
  }

  /** A pulse starts exactly when a press is output with none in progress; it moves the tracked speed
      by exactly one display step, inside the range. Every other tick's pacing leaves it alone. */
  lemma PressMovesOneStep(s: State, c: Config, i: Input)
    requires Bounded(s.session, i.mph)
    ensures var s1 := Settled(s, c, i);
            var (s2, o) := Step(s, c, i);
            && Bounded(s2.session, i.mph)
            && s2.session.maximum == s1.session.maximum && s2.session.valid == s1.session.valid
            && o.commanded == s2.session.commanded
            && s2.session.commanded == s1.session.commanded
                 + (if o.button == 0 || s1.pulse.frames > 0 then 0.0
                    else if o.button == SET then -StepSize(i.mph) else StepSize(i.mph))
  {
    var s1 := Settled(s, c, i);
    SettledKeepsBounds(s, c, i);
    hide Settled, Target;
    if s1.session.valid { PressFits(s1, c, i); }
  }

  function After(s: State, c: Config, ins: seq<Input>): State
    decreases |ins|
  {
    if ins == [] then s else After(Step(s, c, ins[0]).0, c, ins[1..])
  }

  /** Whatever the inputs, as long as the speed unit stays the same, a session's tracked speed never leaves
      its range. */
  lemma {:induction false} RangeHolds(s: State, c: Config, ins: seq<Input>, mph: bool)
    requires Bounded(s.session, mph) && forall i <- ins :: i.mph == mph
    ensures Bounded(After(s, c, ins).session, mph)
    decreases |ins|
  {
    if ins != [] {
      PressMovesOneStep(s, c, ins[0]);
      RangeHolds(Step(s, c, ins[0]).0, c, ins[1..], mph);
    }
    hide Step;
  }

  function Span(frames: int, period: real): real { frames as real * period }

  lemma SpanGrows(frames: int, period: real)
    ensures Span(frames + 1, period) == Span(frames, period) + period
    ensures Span(0, period) == 0.0
    ensures frames >= 0 && period >= 0.0 ==> Span(frames, period) >= 0.0
  {
    if frames >= 0 && period >= 0.0 { ProductNonneg(frames as real, period); }
  }

  /** A pulse begins in this tick. */
  predicate Begins(s: State, c: Config, i: Input) { Step(s, c, i).1.button != 0 && Settled(s, c, i).pulse.frames <= 0 }

  function Presses(s: State, c: Config, ins: seq<Input>): nat
    decreases |ins|
  {
    if ins == [] then 0
    else (if Begins(s, c, ins[0]) then 1 else 0) + Presses(Step(s, c, ins[0]).0, c, ins[1..])
  }

  /** Ticks of one session under a fixed target, with nothing but presses moving the tracked speed. */
  ghost predicate Steered(s: State, c: Config, ins: seq<Input>, target: real, mph: bool)
    decreases |ins|
  {
    ins == [] ||
      (var (x, y) := (s.session, Settled(s, c, ins[0]).session);
       && ins[0].mph == mph && y.valid && y.commanded == x.commanded && y.maximum == x.maximum
       && Target(Settled(s, c, ins[0]), c, ins[0]) == target
       && Steered(Step(s, c, ins[0]).0, c, ins[1..], target, mph))
  }

  /** From x to y the distance to the target falls by d, on the same side of it. */
  ghost predicate Nears(target: real, x: real, y: real, d: real) {
    && Abs(target - y) == Abs(target - x) - d
    && (target <= x ==> target <= y <= x) && (target >= x ==> x <= y <= target)
  }

  lemma NearsOn(target: real, x: real, y: real, z: real, d: real, e: real)
    requires Nears(target, x, y, d) && Nears(target, y, z, e)
    ensures Nears(target, x, z, d + e)
  {}

  /** A press that begins is towards the target and not beyond it. */
  lemma PressIsTowards(s: State, c: Config, i: Input)
    requires Bounded(s.session, i.mph) && Settled(s, c, i).session.valid
    ensures Nears(Target(Settled(s, c, i), c, i), Settled(s, c, i).session.commanded, Step(s, c, i).0.session.commanded,
                  if Begins(s, c, i) then StepSize(i.mph) else 0.0)
  {
    var s1 := Settled(s, c, i);
    SettledKeepsBounds(s, c, i);
    PressFits(s1, c, i);
    hide Settled, Target, Allowed;
  }

  /** With nothing in the way of a press, none begins exactly when the tracked speed is within one step of
      the target. */
  lemma RestsWithinOneStep(s: State, c: Config, i: Input)
    requires Bounded(s.session, i.mph)
    requires var s1 := Settled(s, c, i); Allowed(s1, i) && s1.pulse.frames <= 0 && IntervalReady(s1.pulse, c, i)
    ensures var s1 := Settled(s, c, i);
            Step(s, c, i).1.button == 0 <==> Abs(Target(s1, c, i) - s1.session.commanded) < StepSize(i.mph)
  {
    var s1 := Settled(s, c, i);
    SettledKeepsBounds(s, c, i);
    PressFits(s1, c, i);
    hide Settled, Target, IntervalReady;
  }

  /** The dead band is one whole step, so over every run of ticks under a fixed target the tracked speed
      stays on its side of the target and comes nearer by exactly one step per press; so there are never
      more presses than steps in the distance. */
  lemma {:induction false} PressesSettle(s: State, c: Config, ins: seq<Input>, target: real, mph: bool)
    requires Bounded(s.session, mph) && Steered(s, c, ins, target, mph)
    ensures Nears(target, s.session.commanded, After(s, c, ins).session.commanded,
                  Span(Presses(s, c, ins), StepSize(mph)))
    decreases |ins|
  {
    SpanGrows(0, StepSize(mph));
    if ins != [] {
      hide Step, Settled, Target, Begins, Span, StepSize, Nears;
      PressMovesOneStep(s, c, ins[0]);
      PressIsTowards(s, c, ins[0]);
      var (t, n) := (Step(s, c, ins[0]).0, Presses(Step(s, c, ins[0]).0, c, ins[1..]));
      PressesSettle(t, c, ins[1..], target, mph);
      SpanGrows(n, StepSize(mph));
      NearsOn(target, s.session.commanded, t.session.commanded, After(s, c, ins).session.commanded,
              if Begins(s, c, ins[0]) then StepSize(mph) else 0.0, Span(n, StepSize(mph)));
    }
  }

  // ---- The learned scale and the filtered lead

  /** What the filters hold stays inside the range that single measurements must lie in. */
  ghost predicate FiltersInRange(s: State) {
    && (s.scale.valid ==> SCALE_MIN <= s.scale.ratio <= SCALE_MAX)
    && (s.lead.lastValid >= 0.0 ==> 1.0 <= s.lead.distance <= 150.0 && -40.0 <= s.lead.relativeSpeed <= 40.0)
  }

  lemma BlendBetween(from: real, alpha: real, to: real, lo: real, hi: real)
    requires 0.0 <= alpha <= 1.0 && lo <= from <= hi && lo <= to <= hi
    ensures lo <= Blend(from, alpha, to) <= hi
  {
    BlendIsWeighted(from, alpha, to);
    WeightedBetween(alpha, to, from, lo, hi);
    hide Blend, Weighted;
  }

  lemma BlendIsWeighted(from: real, alpha: real, to: real)
    ensures Blend(from, alpha, to) == Weighted(alpha, to, from)
  {}

  lemma LearnScaleInRange(x: Scale, i: Input, dt: real)
    requires x.valid ==> SCALE_MIN <= x.ratio <= SCALE_MAX
    ensures var y := LearnScale(x, i, dt); y.valid ==> SCALE_MIN <= y.ratio <= SCALE_MAX
  {
    if LearnScale(x, i, dt).valid && x.valid && LearnScale(x, i, dt) != x {
      var (raw, alpha) := (Ratio(i.cluster.v, i.ego.v), Ratio(dt, SCALE_TAU_S + dt));
      BlendBetween(x.ratio, alpha, raw, SCALE_MIN, SCALE_MAX);
    }
  }

  lemma TrackLeadInRange(l: Lead, c: Config, i: Input)
    requires l.lastValid >= 0.0 ==> 1.0 <= l.distance <= 150.0 && -40.0 <= l.relativeSpeed <= 40.0
    ensures var m := TrackLead(l, c, i);
            m.lastValid >= 0.0 ==> 1.0 <= m.distance <= 150.0 && -40.0 <= m.relativeSpeed <= 40.0
  {
    if i.leadUpdated && LeadUsable(c, i) && l.lastValid >= 0.0 {
      BlendBetween(l.distance, if i.distance.v < l.distance then 0.45 else 0.2, i.distance.v, 1.0, 150.0);
      BlendBetween(l.relativeSpeed, 0.3, i.relativeSpeed.v, -40.0, 40.0);
    }
    hide Blend;
  }

  /** A scale in use always lies in the plausible range, and so does a lead in use, whatever the inputs. */
  lemma FiltersStayInRange(s: State, c: Config, i: Input)
    requires FiltersInRange(s)
    ensures FiltersInRange(Step(s, c, i).0)
  {
    LearnScaleInRange(s.scale, i, Elapsed(s.timing, i));
    TrackLeadInRange(s.lead, c, i);
    TrackLeadInRange(s.lead.(lastValid := UNSET), c, i);
    SettledFilters(s, c, i);
    hide Settled, LearnScale, TrackLead, Target;
  }

  lemma SettledFilters(s: State, c: Config, i: Input)
    ensures Settled(s, c, i).scale == LearnScale(s.scale, i, Elapsed(s.timing, i))
    ensures Settled(s, c, i).lead
         == TrackLead(if Ends(s.timing, i) then s.lead.(lastValid := UNSET) else s.lead, c, i)
  {
    hide LearnScale, TrackLead, WatchCluster, Resolve, Reanchors, Opens, Ends, InactiveSince;
    assert Ends(Clocked(s, i).timing, i) == Ends(s.timing, i) by { EndsIgnoresClock(s, i); }
  }

  lemma EndsIgnoresClock(s: State, i: Input)
    ensures Ends(Clocked(s, i).timing, i) == Ends(s.timing, i)
  {}

  // ---- The car

  /** A stalk press counts once, on its rising edge, and moves the set speed one step. */
  datatype Car = Car(setSpeed: real, button: int)

  function Obey(car: Car, button: int, mph: bool): Car {
    if button == 0 || car.button != 0 then car.(button := button)
    else if button == SET then Car(MaxReal(Minimum(mph), car.setSpeed - StepSize(mph)), button)
    else if button == RESUME then Car(car.setSpeed + StepSize(mph), button)
    else car.(button := button)
  }

  /** `parted` is history: since the session was opened or anchored, a mismatch check has set the tracked
      speed to something that is not the car's. */
  datatype World = World(ctrl: State, car: Car, parted: bool)

  /** One tick of the closed loop. `driven` is the set speed after what the driver does to it, which
      counts only while the driver holds a button or no session is open. */
  datatype Moment = Moment(input: Input, driven: real)

  function AfterDriver(w: World, m: Moment): Car {
    if m.input.driverButton != 0 || !w.ctrl.session.valid then w.car.(setSpeed := m.driven) else w.car
  }

  /** The mismatch check overwrites the tracked speed: the comparison has been on, and off by more than
      the tolerance, for as long as it takes. */
  predicate Overwrites(s: State, i: Input) {
    && Compares(s, i) && Abs(i.cluster.v - s.session.commanded) > MISMATCH_KPH
    && s.session.mismatchSince >= 0.0 && i.now - s.session.mismatchSince >= MISMATCH_HOLD_S
  }

  /** ... with something that is not the car's set speed. */
  predicate Parts(w: World, m: Moment) {
    var (s, i) := (Anchored(w.ctrl, m.input), m.input);
    Overwrites(s, i) && ClampReal(i.cluster.v, Minimum(i.mph), s.session.maximum) != AfterDriver(w, m).setSpeed
  }

  predicate Anchors(s: State, i: Input) { Opens(Driven(s, i), i) || Reanchors(Begin(Driven(s, i), i), i) }

  function Tick(w: World, c: Config, m: Moment): World {
    var (s, o) := Step(w.ctrl, c, m.input);
    World(s, Obey(AfterDriver(w, m), o.button, m.input.mph),
          s.session.valid && !Anchors(w.ctrl, m.input) && (w.parted || Parts(w, m)))
  }

  function At(w: World, c: Config, ms: seq<Moment>): World
    decreases |ms|
  {
    if ms == [] then w else At(Tick(w, c, ms[0]), c, ms[1..])
  }

  /** Ticks at most `period` apart, with room for a released frame between two presses. */
  ghost predicate Timely(c: Config, period: real) {
    period > 0.0 && c.pulseFrames >= 1 && Span(c.pulseFrames, period) < c.interval
  }

  /** The ranges of the parameter loader. */
  predicate Accepted(c: Config) {
    && 0.2 <= c.leadProbability <= 0.99 && 2.0 <= c.standstillGap <= 20.0 && 0.8 <= c.followingTime <= 4.0
    && 0.05 <= c.gapGain <= 1.0 && 0.5 <= c.maxSlowdown <= 10.0 && 0.0 <= c.maxSpeedup <= 5.0
    && 0.5 <= c.deceleration <= 5.0 && 0.1 <= c.leadHold <= 2.0 && 1.0 <= c.restoreDelay <= 10.0
    && 0.5 <= c.interval <= 5.0 && 1 <= c.pulseFrames <= 10
  }

  /** Every parameter the loader accepts is timely for ticks under 50 ms. */
  lemma AcceptedParametersAreTimely(c: Config, period: real)
    requires Accepted(c) && 0.0 < period < 0.05
    ensures Timely(c, period)
  {
    ProductMonotone(c.pulseFrames as real, 10.0, period);
  }

  /** What is asked of the surroundings in one tick: the readings that a session is opened or anchored
      with are the car's set speed. All other readings may be anything. */
  ghost predicate Honest(w: World, m: Moment, mph: bool, period: real) {
    var (s, i, car) := (w.ctrl, m.input, AfterDriver(w, m));
    && i.mph == mph && i.now >= 0.0
    && (s.timing.lastUpdate >= 0.0 ==> s.timing.lastUpdate <= i.now <= s.timing.lastUpdate + period)
    && (Opens(Driven(s, i), i) ==> MaxReal(Minimum(mph), i.driverSet.v) == car.setSpeed)
    && (Reanchors(Begin(Driven(s, i), i), i) ==> MaxReal(Minimum(mph), i.cluster.v) == car.setSpeed)
  }

  ghost predicate AllHonest(w: World, c: Config, ms: seq<Moment>, mph: bool, period: real)
    decreases |ms|
  {
    ms == [] || (Honest(w, ms[0], mph, period) && AllHonest(Tick(w, c, ms[0]), c, ms[1..], mph, period))
  }

  /** A session with no driver adjustment outstanding. */
  predicate Steadied(w: World) { w.ctrl.session.valid && !w.ctrl.session.reanchorPending }

  /** The tracked speed is the car's set speed. */
  predicate Agrees(w: World) { w.ctrl.session.commanded == w.car.setSpeed }

  /** A held button belongs to the current pulse, and the pulse is as old as the frames it has used. */
  ghost predicate Linked(p: Pulse, lastUpdate: real, sessionValid: bool, held: int, c: Config, period: real) {
    && 0 <= p.frames < c.pulseFrames
    && (p.frames > 0 ==> held != 0 && (p.button == SET || p.button == RESUME))
    && (held != 0 ==> lastUpdate >= 0.0)
    && (held != 0 ==> p.lastCommand >= 0.0 && lastUpdate - p.lastCommand <= Span(c.pulseFrames - 1 - p.frames, period))
    && (sessionValid ==> p.lastCommand >= 0.0)
  }

  ghost predicate Inv(w: World, c: Config, mph: bool, period: real) {
    && Bounded(w.ctrl.session, mph)
    && (Steadied(w) && !w.parted ==> Agrees(w))
    && Linked(w.ctrl.pulse, w.ctrl.timing.lastUpdate, w.ctrl.session.valid, w.car.button, c, period)
  }

  /** Up to the choice of a button the tracked speed is still the car's, unless the check parts them; then
      it is not, and a speed that was raised is not followed by a press. */
  lemma SettledTracks(w: World, c: Config, m: Moment, mph: bool, period: real)
    requires Inv(w, c, mph, period) && Honest(w, m, mph, period) && (!w.parted || Anchors(w.ctrl, m.input))
    ensures var (s, i, speed) := (Settled(w.ctrl, c, m.input), m.input, AfterDriver(w, m).setSpeed);
            s.session.valid && !s.session.reanchorPending ==>
              && (s.session.commanded == speed <==> !Parts(w, m))
              && (Anchors(w.ctrl, i) ==> !Parts(w, m))
              && (Parts(w, m) ==> s.session.commanded < speed || !Allowed(s, i))
  {
    hide LearnScale, TrackLead, WatchCluster, Span;
    var (s, i, car) := (w.ctrl, m.input, AfterDriver(w, m));
    var s1 := Driven(s, i);
    assert s1.session.valid && !s1.session.reanchorPending && !w.parted ==> s1.session.commanded == car.setSpeed;
    var s2 := Anchored(s, i);
    assert s2.session.valid && !s2.session.reanchorPending ==> s2.session.commanded == car.setSpeed;
    assert Anchors(s, i) ==> s2.pulse.lastCommand == i.now;
  }

  /** Pacing: the car sees every pulse as one press, since a released frame always comes first. */
  lemma PaceLinks(s: State, c: Config, i: Input, target: real, car: Car, lastUpdate: real, period: real)
    requires Timely(c, period) && Linked(s.pulse, lastUpdate, s.session.valid, car.button, c, period)
    requires i.now >= 0.0 && (lastUpdate >= 0.0 ==> lastUpdate <= i.now <= lastUpdate + period)
    ensures var (s', b) := Pace(s, c, i, target);
            && Linked(s'.pulse, i.now, s'.session.valid, Obey(car, b, i.mph).button, c, period)
            && (b != 0 && s.pulse.frames > 0 ==> car.button != 0)
            && (b != 0 && s.pulse.frames == 0 ==> car.button == 0)
  {
    SpanGrows(c.pulseFrames - 1, period);
    SpanGrows(c.pulseFrames - 1 - s.pulse.frames, period);
    SpanGrows(0, period);
    hide Span, Ratio, Allowed, WantsSet, WantsResume;
  }

  lemma SettledLinks(w: World, c: Config, m: Moment, mph: bool, period: real)
    requires Inv(w, c, mph, period) && Honest(w, m, mph, period) && Timely(c, period)
    ensures var s1 := Settled(w.ctrl, c, m.input);
            Linked(s1.pulse, w.ctrl.timing.lastUpdate, s1.session.valid, w.car.button, c, period)
  {
    hide LearnScale, TrackLead, WatchCluster;
    var (s, i) := (w.ctrl, m.input);
    SpanGrows(c.pulseFrames - 1 - s.pulse.frames, period);
    SpanGrows(c.pulseFrames - 1, period);
    hide Span;
    var s1 := Begin(Driven(s, i), i);
    assert Linked(s1.pulse, s.timing.lastUpdate, s1.session.valid, w.car.button, c, period);
  }

  lemma TickKeeps(w: World, c: Config, m: Moment, mph: bool, period: real)
    requires Inv(w, c, mph, period) && Honest(w, m, mph, period) && Timely(c, period)
    ensures var t := Tick(w, c, m);
            && Inv(t, c, mph, period)
            && (Steadied(t) && (!w.parted || Anchors(w.ctrl, m.input)) ==> (Agrees(t) <==> !t.parted))
  {
    var (i, car, s1) := (m.input, AfterDriver(w, m), Settled(w.ctrl, c, m.input));
    if !w.parted || Anchors(w.ctrl, i) { SettledTracks(w, c, m, mph, period); }
    SettledLinks(w, c, m, mph, period);
    SettledKeepsBounds(w.ctrl, c, i);
    PressMovesOneStep(w.ctrl, c, i);
    PaceLinks(s1, c, i, Target(s1, c, i), car, w.ctrl.timing.lastUpdate, period);
    hide Settled, Target, Span, Chosen, Allowed, Anchors, Parts;
  }

  /** Over every run whose ticks leave room between presses and whose sessions are opened and anchored at
      the car's set speed, whatever else the readings say: in a session the tracked speed stays in range,
      and unless a driver's adjustment is outstanding, or a mismatch check has overwritten it with something
      else since, it is the set speed of the car, which saw only button edges. */
  lemma {:induction false} TracksTheCar(w: World, c: Config, ms: seq<Moment>, mph: bool, period: real)
    requires Inv(w, c, mph, period) && Timely(c, period) && AllHonest(w, c, ms, mph, period)
    ensures Inv(At(w, c, ms), c, mph, period)
    decreases |ms|
  {
    if ms != [] {
      hide Tick, Inv, Honest;
      TickKeeps(w, c, ms[0], mph, period);
      TracksTheCar(Tick(w, c, ms[0]), c, ms[1..], mph, period);
    }
  }

  function Start(setSpeed: real): World { World(INITIAL, Car(setSpeed, 0), false) }

  lemma TracksFromStart(setSpeed: real, c: Config, ms: seq<Moment>, mph: bool, period: real)
    requires Timely(c, period) && AllHonest(Start(setSpeed), c, ms, mph, period)
    ensures var w := At(Start(setSpeed), c, ms);
            w.ctrl.session.valid ==>
              && Minimum(mph) <= w.ctrl.session.commanded <= w.ctrl.session.maximum
              && (!w.ctrl.session.reanchorPending && !w.parted ==> w.ctrl.session.commanded == w.car.setSpeed)
  {
    hide At;
    TracksTheCar(Start(setSpeed), c, ms, mph, period);
  }

  /** At every moment of the run, the two speeds agree where they should. */
  ghost predicate AgreesThroughout(w: World, c: Config, ms: seq<Moment>)
    decreases |ms|
  {
    (Steadied(w) ==> Agrees(w)) && (ms == [] || AgreesThroughout(Tick(w, c, ms[0]), c, ms[1..]))
  }

  /** No mismatch check of the run parts them in a session that has no adjustment outstanding. */
  ghost predicate NeverParts(w: World, c: Config, ms: seq<Moment>)
    decreases |ms|
  {
    ms == [] ||
      (var t := Tick(w, c, ms[0]);
       (Steadied(t) ==> !Parts(w, ms[0])) && NeverParts(t, c, ms[1..]))
  }

  lemma SteadiedBefore(s: State, c: Config, i: Input)
    requires Step(s, c, i).0.session.valid && !Step(s, c, i).0.session.reanchorPending && !Anchors(s, i)
    ensures s.session.valid && !s.session.reanchorPending
  {
    hide LearnScale, TrackLead, WatchCluster, Target, Allowed, Chosen, Compares;
    assert Settled(s, c, i).session.valid && !Settled(s, c, i).session.reanchorPending;
  }

  lemma PartedByCheck(w: World, c: Config, m: Moment, mph: bool, period: real)
    requires Inv(w, c, mph, period) && Honest(w, m, mph, period) && (Steadied(w) ==> !w.parted)
    ensures var t := Tick(w, c, m); Steadied(t) ==> (t.parted <==> Parts(w, m))
  {
    PressMovesOneStep(w.ctrl, c, m.input);
    StepKeepsPending(w.ctrl, c, m.input);
    if !w.parted || Anchors(w.ctrl, m.input) { SettledTracks(w, c, m, mph, period); }
    if Steadied(Tick(w, c, m)) && !Anchors(w.ctrl, m.input) { SteadiedBefore(w.ctrl, c, m.input); }
    hide Step, Settled, Anchors, Parts, Honest;
  }

  lemma StepKeepsPending(s: State, c: Config, i: Input)
    ensures Step(s, c, i).0.session.reanchorPending == Settled(s, c, i).session.reanchorPending
  {
    hide Settled, Target, Chosen, Allowed;
  }

  /** Exactly when: the tracked speed is the car's throughout a run if and only if no mismatch check
      overwrites it with a reading that, brought into range, is not the set speed. */
  lemma {:induction false} AgreesExactly(w: World, c: Config, ms: seq<Moment>, mph: bool, period: real)
    requires Inv(w, c, mph, period) && Timely(c, period) && AllHonest(w, c, ms, mph, period)
    requires Steadied(w) ==> !w.parted
    ensures AgreesThroughout(w, c, ms) <==> NeverParts(w, c, ms)
    decreases |ms|
  {
    if ms != [] {
      var t := Tick(w, c, ms[0]);
      TickKeeps(w, c, ms[0], mph, period);
      PartedByCheck(w, c, ms[0], mph, period);
      if Steadied(t) ==> !t.parted {
        AgreesExactly(t, c, ms[1..], mph, period);
      }
      hide Tick, Inv, Honest, Parts;
    }
  }

  // ---- In place

  class Controller {
    const config: Config
    var session: Session
    var pulse: Pulse
    var lead: Lead
    var scale: Scale
    var timing: Timing
    var steady: Steady

    ghost function View(): State
      reads this
    {
      State(session, pulse, lead, scale, timing, steady)
    }

    constructor (c: Config)
      ensures config == c && View() == INITIAL
    {
      config := c;
      session, pulse, lead := NO_SESSION, INITIAL.pulse, INITIAL.lead;
      scale, timing, steady := INITIAL.scale, INITIAL.timing, INITIAL.steady;
    }

    method BeginSession(speed: real, now: real)
      modifies this`session, this`pulse
      ensures if ValidSetSpeed(Finite(speed))
        then session == Session(true, speed, speed, false, old(session).adjustUntil, UNSET, UNSET)
             && pulse == Pulse(0, 0, now, false)
        else session == old(session) && pulse == old(pulse)
    {
      if !ValidSetSpeed(Finite(speed)) { return; }
      session := Session(true, speed, speed, false, session.adjustUntil, UNSET, UNSET);
      pulse := Pulse(0, 0, now, false);
    }

    method UpdateDisplayScale(i: Input, dt: real)
      modifies this`scale
      ensures scale == LearnScale(old(scale), i, dt)
    {
      if dt <= 0.0 || i.cluster.NotFinite? || i.ego.NotFinite? { return; }
      if i.cluster.v < SCALE_LEARN_KPH || i.ego.v < SCALE_LEARN_KPH { return; }
      var raw := Ratio(i.cluster.v, i.ego.v);
      if raw < SCALE_MIN || raw > SCALE_MAX {
        scale := scale.(valid := false);
        return;
      }
      if !scale.valid {
        scale := Scale(raw, true);
        return;
      }
      scale := scale.(ratio := Blend(scale.ratio, Ratio(dt, SCALE_TAU_S + dt), raw));
    }

    method UpdateVisionLead(i: Input)
      modifies this`lead
      ensures lead == TrackLead(old(lead), config, i)
    {
      if !i.leadUpdated || !LeadUsable(config, i) { return; }
      if lead.lastValid < 0.0 || i.now - lead.lastValid > config.leadHold {
        lead := lead.(distance := i.distance.v, relativeSpeed := i.relativeSpeed.v);
      } else {
        var alpha := if i.distance.v < lead.distance then 0.45 else 0.2;
        lead := lead.(distance := Blend(lead.distance, alpha, i.distance.v),
                      relativeSpeed := Blend(lead.relativeSpeed, 0.3, i.relativeSpeed.v));
      }
      lead := lead.(lastValid := i.now);
    }

    method TeardownSession(i: Input)
      modifies this
      ensures View() == Teardown(old(View()), i)
    {
      var ends := Ends(timing, i);
      if i.cruiseActive {
        timing := timing.(inactiveSince := UNSET);
      } else if timing.inactiveSince < 0.0 {
        timing := timing.(inactiveSince := i.now);
      }
      if ends {
        session := NO_SESSION;
        lead := lead.(lastValid := UNSET);
        pulse := pulse.(lastWasSet := false);
      }
    }

    method TrackDriverAdjustment(i: Input)
      modifies this`session
      ensures session == TrackDriver(old(session), i)
    {
      if i.driverButton != 0 && session.valid {
        session := session.(adjustUntil := i.now + SETTLE_S, reanchorPending := true);
      }
    }

    method BeginSessionIfReady(i: Input)
      modifies this`session, this`pulse
      ensures View() == Begin(old(View()), i)
    {
      if Opens(State(session, pulse, lead, scale, timing, steady), i) {
        BeginSession(MaxReal(Minimum(i.mph), i.driverSet.v), i.now);
      }
    }

    method ReanchorAfterDriver(i: Input)
      modifies this
      ensures View() == Reanchor(old(View()), i)
    {
      if ClusterValid(i) {
        if steady.since < 0.0 || Abs(i.cluster.v - steady.kph) > STEADY_KPH {
          steady := Steady(i.cluster.v, i.now);
        }
      } else {
        steady := steady.(since := UNSET);
      }
      if session.valid && i.cruiseActive && session.reanchorPending
         && !Adjusting(session, i) && i.driverButton == 0 {
        if ClusterSteady(steady, i) {
          var anchor := MaxReal(Minimum(i.mph), i.cluster.v);
          session := Session(true, anchor, anchor, false, session.adjustUntil, UNSET, UNSET);
          pulse := pulse.(lastCommand := i.now);
        }
      }
    }

    method ResolveCommandMismatch(i: Input)
      modifies this`session
      ensures session == Resolve(old(View()), i)
    {
      if Compares(State(session, pulse, lead, scale, timing, steady), i) {
        if Abs(i.cluster.v - session.commanded) > MISMATCH_KPH {
          if session.mismatchSince < 0.0 { session := session.(mismatchSince := i.now); }
          if i.now - session.mismatchSince >= MISMATCH_HOLD_S {
            if i.cluster.v > session.commanded {
              session := session.(ineffectiveUntil := i.now + BACKOFF_S);
            }
            session := session.(
              commanded := ClampReal(i.cluster.v, Minimum(i.mph), session.maximum),
              mismatchSince := UNSET);
          }
        } else {
          session := session.(mismatchSince := UNSET);
        }
      }
    }

    method TargetSpeed(i: Input) returns (target: real, leadFresh: bool)
      modifies this`lead
      ensures lead == TrackLead(old(lead), config, i)
      ensures target == Target(View(), config, i) && leadFresh == LeadFresh(View(), config, i)
    {
      UpdateVisionLead(i);
      leadFresh := LeadFresh(State(session, pulse, lead, scale, timing, steady), config, i);
      target := session.commanded;
      if session.valid && leadFresh && scale.valid {
        target := ClampReal(FollowSpeed(config, lead, i.ego.v, scale.ratio, StepSize(i.mph)),
                            Minimum(i.mph), session.maximum);
      } else if session.valid && (lead.lastValid < 0.0 || i.now - lead.lastValid >= config.restoreDelay) {
        target := session.maximum;
      }
    }

    method PaceButtons(i: Input, target: real) returns (button: int)
      modifies this`session, this`pulse
      ensures (View(), button) == Pace(old(View()), config, i, target)
    {
      var allowed := Allowed(State(session, pulse, lead, scale, timing, steady), i);
      if !allowed { pulse := pulse.(button := 0, frames := 0); }
      button := 0;
      if allowed && pulse.frames > 0 {
        button := pulse.button;
        pulse := pulse.(frames := pulse.frames - 1);
      } else if allowed {
        var ready := IntervalReady(pulse, config, i);
        if WantsSet(session, target, i.mph) && ready {
          pulse := pulse.(button := SET, lastWasSet := true);
          session := session.(commanded := MaxReal(Minimum(i.mph), session.commanded - StepSize(i.mph)));
        } else if WantsResume(session, target, i.mph) && ready {
          pulse := pulse.(button := RESUME, lastWasSet := false);
          session := session.(commanded := MinReal(session.maximum, session.commanded + StepSize(i.mph)));
        } else {
          pulse := pulse.(button := 0);
        }
        if pulse.button != 0 {
          pulse := pulse.(lastCommand := i.now, frames := config.pulseFrames - 1);
          button := pulse.button;
          session := session.(mismatchSince := UNSET);
        }
      }
    }

    method Update(i: Input) returns (o: Output)
      modifies this
      ensures (View(), o) == Step(old(View()), config, i)
    {
      hide FollowSpeed, Ratio, Blend, Pace, Target, Resolve, Reanchor, Begin, Teardown, LearnScale, TrackLead;
      var dt := Elapsed(timing, i);
      timing := timing.(lastUpdate := i.now);
      UpdateDisplayScale(i, dt);
      if Overriding(i) { timing := timing.(lastOverride := i.now); }
      TeardownSession(i);
      TrackDriverAdjustment(i);
      BeginSessionIfReady(i);
      ReanchorAfterDriver(i);
      ResolveCommandMismatch(i);
      var target, leadFresh := TargetSpeed(i);
      var active := i.enabled && session.valid && i.cruiseActive;
      var button := PaceButtons(i, target);
      timing := timing.(mainButton := i.mainButton);
      o := Output(session.valid, active, leadFresh, session.maximum, session.commanded, target, scale.ratio, button);
    }
  }
}
