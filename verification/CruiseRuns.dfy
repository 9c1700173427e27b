/** Runs of the vision cruise and its car from a fresh controller: one in which a mismatch check parts the
    two speeds, and one in which two presses merge. */
module CruiseRuns {
  import opened Rounding
  import opened AdaptiveCruise

  /** A tick behind the wheel at 80 km/h; `lead` says that a lead is seen a metre ahead, closing at 40 m/s. */
  function Seen(mph: bool, now: real, ready: bool, gas: bool, cluster: real, lead: bool): Input {
    Input(now, true, ready, true, false, gas, false, mph, 0, 0, Finite(75.0), Finite(cluster), Finite(80.0),
          lead, lead, Finite(1.0), Finite(1.0), Finite(-40.0))
  }

  /** A session opened at 80 km/h, with nothing going on. */
  ghost predicate Cruising(w: World, commanded: real, speed: real, now: real, lastValid: real) {
    && w.ctrl.session == Session(true, 80.0, commanded, false, UNSET, UNSET, UNSET)
    && w.ctrl.timing == Timing(0, UNSET, now, UNSET)
    && w.ctrl.lead.lastValid == lastValid
    && (w.ctrl.scale == INITIAL.scale || w.ctrl.scale == Scale(Ratio(80.0, 75.0), true))
    && w.ctrl.pulse.lastCommand >= 0.0 && now >= 0.0 && 75.0 <= commanded <= 80.0
    && w.car.setSpeed == speed && !w.parted
  }

  lemma OpenTick(c: Config, mph: bool, period: real)
    ensures var m := Moment(Seen(mph, 0.0, false, false, 80.0, false), 80.0);
            var w := Tick(Start(80.0), c, m);
            && Honest(Start(80.0), m, mph, period)
            && Cruising(w, 80.0, 80.0, 0.0, UNSET) && w.ctrl.pulse == Pulse(0, 0, 0.0, false) && w.car.button == 0
  {
    hide Ratio;
  }

  lemma ScaleStays(s: Scale, i: Input, dt: real)
    requires s == INITIAL.scale || s == Scale(Ratio(80.0, 75.0), true)
    requires dt > 0.0 && i.ego == Finite(75.0) && i.cluster == Finite(80.0)
    ensures LearnScale(s, i, dt) == Scale(Ratio(80.0, 75.0), true)
  {}

  /** The next tick, one period later. */
  function Next(w: World, mph: bool, period: real, ready: bool, lead: bool): Moment {
    Moment(Seen(mph, w.ctrl.timing.lastUpdate + period, ready, false, 80.0, lead), 80.0)
  }

  /** Up to the pacing. */
  lemma SettledCruising(w: World, c: Config, mph: bool, period: real, ready: bool, lead: bool)
    requires Cruising(w, w.ctrl.session.commanded, w.car.setSpeed, w.ctrl.timing.lastUpdate, w.ctrl.lead.lastValid)
    requires period > 0.0
    ensures var (m, i) := (Next(w, mph, period, ready, lead), Next(w, mph, period, ready, lead).input);
            var s := Settled(w.ctrl, c, i);
            && s.session == w.ctrl.session && s.pulse == w.ctrl.pulse && s.scale == Scale(Ratio(80.0, 75.0), true)
            && s.timing == Timing(0, UNSET, i.now, UNSET) && s.lead == TrackLead(w.ctrl.lead, c, i)
            && !Anchors(w.ctrl, i) && !Parts(w, m) && Honest(w, m, mph, period)
  {
    var i := Next(w, mph, period, ready, lead).input;
    ScaleStays(w.ctrl.scale, i, Elapsed(w.ctrl.timing, i));
    hide LearnScale, TrackLead, WatchCluster, Ratio;
  }

  /** Not ready: a pulse is dropped, the button is released, and nothing else happens. */
  lemma WaitTick(w: World, c: Config, mph: bool, period: real, commanded: real, speed: real, now: real, lastValid: real)
    requires Cruising(w, commanded, speed, now, lastValid) && period > 0.0
    ensures var t := Tick(w, c, Next(w, mph, period, false, false));
            && Honest(w, Next(w, mph, period, false, false), mph, period)
            && Cruising(t, commanded, speed, now + period, lastValid)
            && t.ctrl.pulse == w.ctrl.pulse.(button := 0, frames := 0) && t.car.button == 0
  {
    SettledCruising(w, c, mph, period, false, false);
    hide Settled, Target, Ratio, Honest, Anchors, Parts;
  }

  lemma NoSpeedup(gap: real, gain: real, down: real, up: real)
    requires gap >= 1.0 && gain >= 0.0 && down >= 0.0
    ensures ClampReal((1.0 - gap) * gain, -down, up) <= 0.0
  {
    ProductNonneg(gap - 1.0, gain);
    NegatedProduct(gap - 1.0, gain);
  }

  lemma ScaledBelowZero(x: real, ratio: real)
    requires x <= 0.0 && ratio >= 0.0
    ensures x * 3.6 * ratio <= 0.0
  {
    ProductNonneg(-x * 3.6, ratio);
    NegatedProduct(-x * 3.6, ratio);
  }

  /** A lead that close asks for no speed at all. */
  lemma SlowCorrection(c: Config, lastValid: real, ego: real, step: real)
    requires Accepted(c) && ego >= 0.0 && step >= 0.0
    ensures Correction(c, Lead(1.0, -40.0, lastValid), ego, step) <= 0.0
  {
    var gap := c.standstillGap + c.followingTime * ego;
    var response := Ratio(step, MaxReal(0.1, c.deceleration));
    assert gap >= 1.0 by { ProductNonneg(c.followingTime, ego); }
    assert response >= 0.0 by { RatioNonneg(step, MaxReal(0.1, c.deceleration)); }
    NoSpeedup(gap, c.gapGain, c.maxSlowdown, c.maxSpeedup);
    hide Ratio, ClampReal;
  }

  lemma SlowFollow(c: Config, lastValid: real, ratio: real, step: real)
    requires Accepted(c) && ratio >= 0.0 && step >= 0.0
    ensures FollowSpeed(c, Lead(1.0, -40.0, lastValid), 75.0, ratio, step) <= 0.0
  {
    hide Correction;
    var correction := Correction(c, Lead(1.0, -40.0, lastValid), 75.0 / 3.6, step);
    SlowCorrection(c, lastValid, 75.0 / 3.6, step);
    ScaledBelowZero(0.0 + correction, ratio);
  }

  /** Behind it the target is the lowest speed. */
  lemma SlowTarget(s: State, c: Config, i: Input)
    requires Accepted(c) && s.session.valid && s.session.maximum == 80.0 && i.ego == Finite(75.0)
    requires s.lead == Lead(1.0, -40.0, i.now) && i.now >= 0.0 && s.scale == Scale(Ratio(80.0, 75.0), true)
    ensures Target(s, c, i) == Minimum(i.mph)
  {
    SlowFollow(c, i.now, s.scale.ratio, StepSize(i.mph));
    hide FollowSpeed, Ratio;
  }

  lemma RatioNonneg(a: real, b: real)
    requires a >= 0.0 && b > 0.0
    ensures Ratio(a, b) >= 0.0
  {}

  /** The lead appears, and SET is pressed. The car takes the press only if it saw no button. */
  lemma SetTick(w: World, c: Config, mph: bool, period: real, commanded: real, speed: real, now: real, lastValid: real)
    requires Accepted(c) && Cruising(w, commanded, speed, now, lastValid) && period > 0.0 && commanded >= 79.0
    requires lastValid < 0.0 || now + period - lastValid > c.leadHold
    requires w.ctrl.pulse.frames == 0 && now + period - w.ctrl.pulse.lastCommand >= ButtonInterval(w.ctrl.pulse, c, mph)
    requires speed == 80.0
    ensures var m := Next(w, mph, period, true, true);
            var t := Tick(w, c, m);
            && Honest(w, m, mph, period) && Settled(w.ctrl, c, m.input).pulse == w.ctrl.pulse
            && Step(w.ctrl, c, m.input).1.button == SET
            && Cruising(t, commanded - StepSize(mph), if w.car.button == 0 then speed - StepSize(mph) else speed,
                        now + period, now + period)
            && t.ctrl.pulse == Pulse(SET, c.pulseFrames - 1, now + period, true) && t.car.button == SET
  {
    var i := Next(w, mph, period, true, true).input;
    SettledCruising(w, c, mph, period, true, true);
    assert TrackLead(w.ctrl.lead, c, i) == Lead(1.0, -40.0, i.now);
    SlowTarget(Settled(w.ctrl, c, i), c, i);
    hide Settled, Target, Ratio, Honest, Anchors, Parts, TrackLead;
  }

  /** The lead is long gone, and RES is pressed. */
  lemma ResumeTick(w: World, c: Config, mph: bool, period: real, now: real, lastValid: real)
    requires Accepted(c) && period > 0.0
    requires Cruising(w, 80.0 - StepSize(mph), 80.0 - StepSize(mph), now, lastValid)
    requires lastValid >= 0.0 && now + period - lastValid > c.leadHold && now + period - lastValid >= c.restoreDelay
    requires w.ctrl.pulse.frames == 0 && w.car.button == 0
    requires now + period - w.ctrl.pulse.lastCommand >= ButtonInterval(w.ctrl.pulse, c, mph)
    ensures var m := Next(w, mph, period, true, false);
            var t := Tick(w, c, m);
            && Honest(w, m, mph, period)
            && Cruising(t, 80.0, 80.0, now + period, lastValid)
            && t.ctrl.pulse == Pulse(RESUME, c.pulseFrames - 1, now + period, false) && t.car.button == RESUME
  {
    SettledCruising(w, c, mph, period, true, false);
    hide Settled, FollowSpeed, Ratio, Honest, Anchors, Parts;
  }

  /** The pulse goes on. */
  lemma HoldTick(w: World, c: Config, mph: bool, period: real, commanded: real, speed: real, now: real, lastValid: real)
    requires Cruising(w, commanded, speed, now, lastValid) && period > 0.0 && w.ctrl.pulse.frames > 0
    requires w.car.button != 0 && w.ctrl.pulse.button != 0
    ensures var m := Next(w, mph, period, true, false);
            var t := Tick(w, c, m);
            && Honest(w, m, mph, period)
            && Cruising(t, commanded, speed, now + period, lastValid)
            && t.ctrl.pulse == w.ctrl.pulse.(frames := w.ctrl.pulse.frames - 1) && t.car.button == w.ctrl.pulse.button
  {
    SettledCruising(w, c, mph, period, true, false);
    hide Settled, Target, Ratio, Honest, Anchors, Parts;
  }

  lemma {:induction false} RunsOn(w: World, c: Config, a: seq<Moment>, b: seq<Moment>, mph: bool, period: real)
    ensures At(w, c, a + b) == At(At(w, c, a), c, b)
    ensures AllHonest(w, c, a + b, mph, period) <==>
            AllHonest(w, c, a, mph, period) && AllHonest(At(w, c, a), c, b, mph, period)
    decreases |a|
  {
    hide Tick, Honest;
    if a == [] {
      assert a + b == b;
    } else {
      assert (a + b)[1..] == a[1..] + b;
      RunsOn(Tick(w, c, a[0]), c, a[1..], b, mph, period);
    }
  }

  lemma OneTick(w: World, c: Config, m: Moment, mph: bool, period: real)
    ensures At(w, c, [m]) == Tick(w, c, m)
    ensures AllHonest(w, c, [m], mph, period) <==> Honest(w, m, mph, period)
  {
    hide Tick, Honest;
  }

  lemma {:induction false} Wait(
      w: World, c: Config, mph: bool, period: real, commanded: real, speed: real, now: real, lastValid: real, n: nat)
    returns (ms: seq<Moment>)
    requires Cruising(w, commanded, speed, now, lastValid) && period > 0.0
    ensures AllHonest(w, c, ms, mph, period)
    ensures var t := At(w, c, ms);
            && Cruising(t, commanded, speed, now + Span(n, period), lastValid)
            && (if n == 0 then t == w else t.ctrl.pulse == w.ctrl.pulse.(button := 0, frames := 0) && t.car.button == 0)
    decreases n
  {
    SpanGrows(0, period);
    SpanGrows(n - 1, period);
    hide Cruising, Honest, Tick, Span;
    if n == 0 {
      return [];
    }
    WaitTick(w, c, mph, period, commanded, speed, now, lastValid);
    var m := Next(w, mph, period, false, false);
    var rest := Wait(Tick(w, c, m), c, mph, period, commanded, speed, now + period, lastValid, n - 1);
    ms := [m] + rest;
    RunsOn(w, c, [m], rest, mph, period);
    OneTick(w, c, m, mph, period);
  }

  lemma {:induction false} Hold(
      w: World, c: Config, mph: bool, period: real, commanded: real, speed: real, now: real, lastValid: real)
    returns (ms: seq<Moment>)
    requires Cruising(w, commanded, speed, now, lastValid) && period > 0.0 && w.ctrl.pulse.frames >= 0
    requires w.car.button == w.ctrl.pulse.button != 0
    ensures AllHonest(w, c, ms, mph, period)
    ensures var t := At(w, c, ms);
            && Cruising(t, commanded, speed, now + Span(w.ctrl.pulse.frames, period), lastValid)
            && t.ctrl.pulse == w.ctrl.pulse.(frames := 0) && t.car.button == w.car.button
    decreases w.ctrl.pulse.frames
  {
    SpanGrows(0, period);
    SpanGrows(w.ctrl.pulse.frames - 1, period);
    hide Cruising, Honest, Tick, Span;
    if w.ctrl.pulse.frames == 0 {
      return [];
    }
    HoldTick(w, c, mph, period, commanded, speed, now, lastValid);
    var m := Next(w, mph, period, true, false);
    var rest := Hold(Tick(w, c, m), c, mph, period, commanded, speed, now + period, lastValid);
    ms := [m] + rest;
    RunsOn(w, c, [m], rest, mph, period);
    OneTick(w, c, m, mph, period);
  }

  /** Enough ticks for any time. */
  lemma Enough(period: real, time: real) returns (n: nat)
    requires period > 0.0 && time >= 0.0
    ensures n > 0 && Span(n, period) >= time
  {
    n := (time / period).Floor + 1;
    assert time == (time / period) * period;
    ProductMonotone(time / period, n as real, period);
  }

  lemma IntervalsAreShort(p: Pulse, c: Config, mph: bool)
    requires Accepted(c)
    ensures ButtonInterval(p, c, mph) <= 20.0
  {
    var (step, slow) := (StepSize(mph), MaxReal(0.1, c.deceleration));
    assert step <= 10.0 * slow;
    assert Ratio(step, slow) <= 10.0 by { RatioAtMost(step, slow, 10.0); }
  }

  lemma RatioAtMost(a: real, b: real, k: real)
    requires b > 0.0 && a <= k * b
    ensures Ratio(a, b) <= k
  {}

  /** A session is opened, twenty seconds pass, a lead appears, and SET is pressed. */
  lemma Slowed(c: Config, mph: bool, period: real) returns (ms: seq<Moment>, now: real)
    requires Accepted(c) && period > 0.0
    ensures AllHonest(Start(80.0), c, ms, mph, period) && now >= 0.0
    ensures var t := At(Start(80.0), c, ms);
            && Cruising(t, 80.0 - StepSize(mph), 80.0 - StepSize(mph), now, now)
            && t.ctrl.pulse == Pulse(SET, c.pulseFrames - 1, now, true) && t.car.button == SET
  {
    hide Cruising, Honest, Tick, Span, At, AllHonest, ButtonInterval, Ratio;
    var open := Moment(Seen(mph, 0.0, false, false, 80.0, false), 80.0);
    OpenTick(c, mph, period);
    OneTick(Start(80.0), c, open, mph, period);
    var w1 := Tick(Start(80.0), c, open);
    var n := Enough(period, 20.0);
    var wait := Wait(w1, c, mph, period, 80.0, 80.0, 0.0, UNSET, n);
    var w2 := At(w1, c, wait);
    RunsOn(Start(80.0), c, [open], wait, mph, period);
    IntervalsAreShort(w2.ctrl.pulse, c, mph);
    SetTick(w2, c, mph, period, 80.0, 80.0, Span(n, period), UNSET);
    var press := Next(w2, mph, period, true, true);
    OneTick(w2, c, press, mph, period);
    RunsOn(Start(80.0), c, [open] + wait, [press], mph, period);
    ms, now := [open] + wait + [press], Span(n, period) + period;
  }

  // ---- Presses that merge

  /** A pulse begins while the car still sees a button, so the car takes no second press. */
  ghost predicate Merges(w: World, c: Config, m: Moment) {
    w.car.button != 0 && Begins(w.ctrl, c, m.input)
  }

  ghost predicate NeverMerges(c: Config, mph: bool, period: real) {
    forall speed: real, ms: seq<Moment>, m: Moment | AllHonest(Start(speed), c, ms + [m], mph, period) ::
      !Merges(At(Start(speed), c, ms), c, m)
  }

  /** Twenty more seconds pass. */
  lemma Waited(c: Config, mph: bool, period: real) returns (ms: seq<Moment>, now: real, lastValid: real)
    requires Accepted(c) && period > 0.0
    ensures AllHonest(Start(80.0), c, ms, mph, period) && 0.0 <= lastValid && now - lastValid >= 20.0
    ensures var t := At(Start(80.0), c, ms);
            && Cruising(t, 80.0 - StepSize(mph), 80.0 - StepSize(mph), now, lastValid)
            && t.ctrl.pulse == Pulse(0, 0, lastValid, true) && t.car.button == 0
  {
    var slowed: seq<Moment>;
    slowed, lastValid := Slowed(c, mph, period);
    var n := Enough(period, 20.0);
    hide Cruising, Honest, Tick, At, AllHonest, Span;
    var w := At(Start(80.0), c, slowed);
    var wait := Wait(w, c, mph, period, 80.0 - StepSize(mph), 80.0 - StepSize(mph), lastValid, lastValid, n);
    RunsOn(Start(80.0), c, slowed, wait, mph, period);
    ms, now := slowed + wait, lastValid + Span(n, period);
  }

  /** RES follows, since the lead is long gone; its pulse is held to the end. */
  lemma Resumed(c: Config, mph: bool, period: real)
    returns (ms: seq<Moment>, now: real, pressed: real, lastValid: real)
    requires Accepted(c) && period > 0.0
    ensures AllHonest(Start(80.0), c, ms, mph, period) && now == pressed + Span(c.pulseFrames - 1, period)
    ensures 0.0 <= lastValid && now - lastValid > c.leadHold
    ensures var t := At(Start(80.0), c, ms);
            && Cruising(t, 80.0, 80.0, now, lastValid)
            && t.ctrl.pulse == Pulse(RESUME, 0, pressed, false) && t.car.button == RESUME
  {
    SpanGrows(c.pulseFrames - 1, period);
    hide Cruising, Honest, Tick, At, AllHonest, ButtonInterval, Span, Ratio;
    var waited: seq<Moment>, before: real;
    waited, before, lastValid := Waited(c, mph, period);
    var w := At(Start(80.0), c, waited);
    IntervalsAreShort(w.ctrl.pulse, c, mph);
    ResumeTick(w, c, mph, period, before, lastValid);
    var press := Next(w, mph, period, true, false);
    OneTick(w, c, press, mph, period);
    RunsOn(Start(80.0), c, waited, [press], mph, period);
    pressed := before + period;
    var hold := Hold(Tick(w, c, press), c, mph, period, 80.0, 80.0, pressed, lastValid);
    RunsOn(Start(80.0), c, waited + [press], hold, mph, period);
    ms, now := waited + [press] + hold, pressed + Span(c.pulseFrames - 1, period);
  }

  /** If a pulse takes as long as the command interval, a second press can begin before the car has seen a
      release, and the two speeds part. */
  lemma PressCanMerge(c: Config, mph: bool, period: real) returns (ms: seq<Moment>, m: Moment)
    requires Accepted(c) && period > 0.0 && Span(c.pulseFrames, period) >= c.interval
    ensures AllHonest(Start(80.0), c, ms + [m], mph, period) && Merges(At(Start(80.0), c, ms), c, m)
    ensures var t := At(Start(80.0), c, ms + [m]);
            Steadied(t) && !t.parted && t.ctrl.session.commanded == t.car.setSpeed - StepSize(mph)
  {
    var now: real, pressed: real, lastValid: real;
    ms, now, pressed, lastValid := Resumed(c, mph, period);
    var w := At(Start(80.0), c, ms);
    SpanGrows(c.pulseFrames - 1, period);
    SetTick(w, c, mph, period, 80.0, 80.0, now, lastValid);
    m := Next(w, mph, period, true, true);
    hide Honest, Tick, At, AllHonest, Span, Step, Settled;
    OneTick(w, c, m, mph, period);
    RunsOn(Start(80.0), c, ms, [m], mph, period);
  }

  lemma TimelyNeverMerges(w: World, c: Config, m: Moment, mph: bool, period: real)
    requires Inv(w, c, mph, period) && Timely(c, period) && Honest(w, m, mph, period)
    ensures !Merges(w, c, m)
  {
    var i := m.input;
    SettledLinks(w, c, m, mph, period);
    var s := Settled(w.ctrl, c, i);
    PaceLinks(s, c, i, Target(s, c, i), w.car, w.ctrl.timing.lastUpdate, period);
    hide Settled, Target, Pace, Honest;
  }

  /** Exactly when: no run of ticks at most a period apart ever has a press that the car does not see if and
      only if the frames of one pulse take less time than the command interval. */
  lemma MergesExactly(c: Config, mph: bool, period: real)
    requires Accepted(c) && period > 0.0
    ensures NeverMerges(c, mph, period) <==> Timely(c, period)
  {
    if Timely(c, period) {
      forall speed: real, ms: seq<Moment>, m: Moment | AllHonest(Start(speed), c, ms + [m], mph, period)
        ensures !Merges(At(Start(speed), c, ms), c, m)
      {
        RunsOn(Start(speed), c, ms, [m], mph, period);
        OneTick(At(Start(speed), c, ms), c, m, mph, period);
        TracksTheCar(Start(speed), c, ms, mph, period);
        TimelyNeverMerges(At(Start(speed), c, ms), c, m, mph, period);
        hide Merges, Honest, Inv, At;
      }
    } else {
      var ms, m := PressCanMerge(c, mph, period);
    }
  }

  // ---- A mismatch check that parts the speeds

  /** The gas pedal held at 88 km/h since SET was pressed at `pressed`. */
  ghost predicate Overridden(w: World, mph: bool, period: real, now: real, pressed: real) {
    var (x, p) := (w.ctrl.session, w.ctrl.pulse);
    && x == Session(true, 80.0, 80.0 - StepSize(mph), false, UNSET, x.mismatchSince, UNSET)
    && w.ctrl.timing.mainButton == 0 && w.ctrl.timing.lastUpdate == now && w.ctrl.timing.inactiveSince == UNSET
    && w.car.setSpeed == 80.0 - StepSize(mph) && !w.parted
    && 0.0 <= pressed == p.lastCommand && pressed <= now && (p.frames == 0 || now == pressed)
    && (if now - pressed < MISMATCH_HOLD_S then x.mismatchSince == UNSET
        else pressed + MISMATCH_HOLD_S <= x.mismatchSince <= pressed + MISMATCH_HOLD_S + period
             && now - x.mismatchSince < MISMATCH_HOLD_S)
  }

  /** No adjustment outstanding, and yet the controller is one step above the car. */
  ghost predicate Lost(w: World, mph: bool) {
    Steadied(w) && w.parted && w.ctrl.session.commanded == 80.0 && w.car.setSpeed == 80.0 - StepSize(mph)
  }

  function Pedal(w: World, mph: bool, period: real): Moment {
    Moment(Seen(mph, w.ctrl.timing.lastUpdate + period, true, true, 88.0, false), 80.0)
  }

  lemma PedalTick(w: World, c: Config, mph: bool, period: real, now: real, pressed: real)
    requires Overridden(w, mph, period, now, pressed) && 0.0 < period < MISMATCH_HOLD_S
    ensures var t := Tick(w, c, Pedal(w, mph, period));
            && Honest(w, Pedal(w, mph, period), mph, period)
            && (Overridden(t, mph, period, now + period, pressed) || Lost(t, mph))
  {
    hide LearnScale, TrackLead, WatchCluster, Target;
  }

  lemma {:induction false} HoldPedal(w: World, c: Config, mph: bool, period: real, now: real, pressed: real, n: nat)
    returns (ms: seq<Moment>)
    requires Overridden(w, mph, period, now, pressed) && 0.0 < period < MISMATCH_HOLD_S
    ensures AllHonest(w, c, ms, mph, period)
    ensures Overridden(At(w, c, ms), mph, period, now + Span(n, period), pressed) || Lost(At(w, c, ms), mph)
    decreases n
  {
    SpanGrows(0, period);
    SpanGrows(n - 1, period);
    hide Overridden, Lost, Honest, Tick, Span;
    if n == 0 {
      return [];
    }
    PedalTick(w, c, mph, period, now, pressed);
    var m := Pedal(w, mph, period);
    OneTick(w, c, m, mph, period);
    if Lost(Tick(w, c, m), mph) {
      return [m];
    }
    var rest := HoldPedal(Tick(w, c, m), c, mph, period, now + period, pressed, n - 1);
    ms := [m] + rest;
    RunsOn(w, c, [m], rest, mph, period);
  }

  /** Tracking really is lost: with any accepted parameters and timely ticks, a driver who follows a SET press
      with the gas pedal held ten seconds makes the mismatch check raise the tracked speed, and the car's set
      speed is still where the press left it. */
  lemma OverrideLosesTheCar(c: Config, mph: bool, period: real) returns (ms: seq<Moment>)
    requires Accepted(c) && Timely(c, period)
    ensures AllHonest(Start(80.0), c, ms, mph, period) && Lost(At(Start(80.0), c, ms), mph)
  {
    var slowed, now := Slowed(c, mph, period);
    var w := At(Start(80.0), c, slowed);
    SpanGrows(c.pulseFrames - 1, period);
    assert period < MISMATCH_HOLD_S;
    assert Overridden(w, mph, period, now, now);
    var n := Enough(period, 20.0);
    var pedal := HoldPedal(w, c, mph, period, now, now, n);
    RunsOn(Start(80.0), c, slowed, pedal, mph, period);
    ms := slowed + pedal;
    hide Honest, Tick, At, AllHonest, Span;
  }
}
