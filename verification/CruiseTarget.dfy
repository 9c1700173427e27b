/** What the vision cruise aims at: the learned scale and the filtered lead by the errors that remain, the
    speed asked for by the gap, and which of the three targets applies, by the inputs of a drive. */
module CruiseTarget {
  import opened Rounding
  import opened AdaptiveCruise
  import opened CruiseGates

  // ---- The learned scale

  /** Below 30 km/h, without a reading or without time passing nothing is learned. A ratio out of range is
      refused and makes the scale unusable; the first one in range is taken as it is; after that the error
      against the displayed speed shrinks to 5 / (5 + dt) of what it was. */
  lemma ScaleExactly(x: Scale, i: Input, dt: real)
    ensures var y := LearnScale(x, i, dt);
            if dt > 0.0 && i.cluster.Finite? && i.ego.Finite? && i.cluster.v >= 30.0 && i.ego.v >= 30.0 then
              var (shown, wheel) := (i.cluster.v, i.ego.v);
              && (y.valid <==> 0.97 * wheel <= shown <= 1.25 * wheel)
              && (!y.valid ==> y.ratio == x.ratio)
              && (y.valid && !x.valid ==> y.ratio * wheel == shown)
              && (y.valid && x.valid ==> (y.ratio * wheel - shown) * (5.0 + dt) == (x.ratio * wheel - shown) * 5.0)
            else y == x
  {
    if dt > 0.0 && i.cluster.Finite? && i.ego.Finite? && i.cluster.v >= 30.0 && i.ego.v >= 30.0 {
      var (shown, wheel) := (i.cluster.v, i.ego.v);
      var raw := Ratio(shown, wheel);
      assert raw * wheel == shown;
      RatioInRange(raw, wheel, shown);
      Relaxed(x.ratio, dt, raw, wheel);
      hide Ratio, Blend;
    }
  }

  lemma RatioInRange(raw: real, wheel: real, shown: real)
    requires wheel > 0.0 && raw * wheel == shown
    ensures 0.97 <= raw <= 1.25 <==> 0.97 * wheel <= shown <= 1.25 * wheel
  {
    assert shown - 0.97 * wheel == (raw - 0.97) * wheel;
    assert 1.25 * wheel - shown == (1.25 - raw) * wheel;
  }

  lemma Relaxed(from: real, dt: real, to: real, wheel: real)
    requires dt > 0.0
    ensures var y := Blend(from, Ratio(dt, 5.0 + dt), to);
            (y * wheel - to * wheel) * (5.0 + dt) == (from * wheel - to * wheel) * 5.0
  {
    var alpha := Ratio(dt, 5.0 + dt);
    assert alpha * (5.0 + dt) == dt;
    var y := from + alpha * (to - from);
    assert (y - to) * (5.0 + dt) == (from - to) * (5.0 + dt) + alpha * (5.0 + dt) * (to - from);
    assert (y - to) * (5.0 + dt) == (from - to) * 5.0;
    assert (y * wheel - to * wheel) * (5.0 + dt) == (y - to) * (5.0 + dt) * wheel;
  }

  /** Over every drive the time that passes is that since the tick before, a tenth of a second at most, and none
      on the first tick. */
  lemma LearnsWithTime(c: Config, ins: seq<Input>, k: nat)
    requires Drive(ins) && k < |ins|
    ensures var dt := if k == 0 then 0.0
                      else if ins[k].now - ins[k - 1].now <= 0.1 then ins[k].now - ins[k - 1].now else 0.1;
            Before(c, ins, k + 1).scale == LearnScale(Before(c, ins, k).scale, ins[k], dt)
  {
    StepScale(Before(c, ins, k), c, ins[k]);
    if k > 0 { StepScale(Before(c, ins, k - 1), c, ins[k - 1]); }
    hide Step, LearnScale;
  }

  lemma StepScale(s: State, c: Config, i: Input)
    ensures var t := Step(s, c, i).0;
            t.timing.lastUpdate == i.now && t.scale == LearnScale(s.scale, i, Elapsed(s.timing, i))
  {
    SettledFilters(s, c, i);
    hide LearnScale, TrackLead, WatchCluster, Target, Chosen, Allowed, Resolve, Opens, Reanchors, Ends;
  }

  // ---- The filtered lead

  /** A lead the vision model is sure of, at a plausible distance and speed, on a new frame. */
  predicate Seen(c: Config, i: Input) {
    && i.leadUpdated && i.leadValid
    && i.probability.Finite? && c.leadProbability <= i.probability.v
    && i.distance.Finite? && 1.0 <= i.distance.v && i.distance.v <= 150.0
    && i.relativeSpeed.Finite? && -40.0 <= i.relativeSpeed.v && i.relativeSpeed.v <= 40.0
  }

  /** Only a lead that is seen counts. After a pause longer than the hold time it is taken as measured;
      otherwise the distance keeps 55 % of its error when it shrinks and 80 % when it grows, and the
      relative speed 70 %. */
  lemma LeadFilterExactly(l: Lead, c: Config, i: Input)
    ensures var m := TrackLead(l, c, i);
            if !Seen(c, i) then m == l
            else
              var (d, r) := (i.distance.v, i.relativeSpeed.v);
              if l.lastValid < 0.0 || i.now > l.lastValid + c.leadHold then m == Lead(d, r, i.now)
              else
                && m.lastValid == i.now
                && m.relativeSpeed - r == 0.7 * (l.relativeSpeed - r)
                && m.distance - d == (if d < l.distance then 0.55 else 0.8) * (l.distance - d)
  {}

  // ---- The speed asked for by the gap

  /** A wheel speed in metres per second, as the cluster shows it. */
  function Display(speed: real, ratio: real): real { speed * 3.6 * ratio }

  lemma FollowsInDisplay(c: Config, l: Lead, egoKph: real, ratio: real, step: real)
    ensures var ego := MaxReal(0.0, egoKph / 3.6);
            FollowSpeed(c, l, egoKph, ratio, step)
            == Display(MaxReal(0.0, ego + l.relativeSpeed) + Correction(c, l, ego, step), ratio)
  {
    hide Correction;
  }

  /** A lead driving as fast as the car: at the wanted gap the target is the car's own speed on the
      cluster's scale; every metre more or less changes it by the gain, up to the two limits. */
  lemma KeepsTheGap(c: Config, d: real, at: real, egoKph: real, ratio: real, step: real)
    requires d >= 1.0 && -c.maxSlowdown <= c.maxSpeedup
    ensures var ego := MaxReal(0.0, egoKph / 3.6);
            var more := (d - (c.standstillGap + c.followingTime * ego)) * c.gapGain;
            FollowSpeed(c, Lead(d, 0.0, at), egoKph, ratio, step)
            == Display(ego + (if more < -c.maxSlowdown then -c.maxSlowdown
                              else if more > c.maxSpeedup then c.maxSpeedup else more), ratio)
  {
    FollowsInDisplay(c, Lead(d, 0.0, at), egoKph, ratio, step);
    NoPrediction(c, d, at, MaxReal(0.0, egoKph / 3.6), step);
    hide Correction, FollowSpeed, Display;
  }

  lemma NoPrediction(c: Config, d: real, at: real, ego: real, step: real)
    requires d >= 1.0
    ensures Correction(c, Lead(d, 0.0, at), ego, step)
         == ClampReal((d - (c.standstillGap + c.followingTime * ego)) * c.gapGain, -c.maxSlowdown, c.maxSpeedup)
  {
    var horizon := MinReal(2.0, c.interval + 0.5 * Ratio(step, MaxReal(0.1, c.deceleration)));
    assert 0.0 * horizon == 0.0;
    assert MaxReal(1.0, d + MinReal(0.0, 0.0) * horizon) == d;
  }

  /** How far ahead the lead is predicted: past the response to the next press, two seconds at most. */
  function Horizon(c: Config, step: real): real {
    MinReal(2.0, c.interval + step / MaxReal(0.1, c.deceleration) / 2.0)
  }

  /** Any other lead: its own speed, corrected as for a lead as fast as the car at the distance it will have
      come to by then; one that draws away is taken to stay where it is. */
  lemma LeadIsPredicted(c: Config, l: Lead, at: real, egoKph: real, ratio: real, step: real)
    requires l.distance >= 1.0
    ensures var ego := MaxReal(0.0, egoKph / 3.6);
            var distance := if l.relativeSpeed >= 0.0 then l.distance
                            else MaxReal(1.0, l.distance + l.relativeSpeed * Horizon(c, step));
            FollowSpeed(c, l, egoKph, ratio, step) - Display(MaxReal(0.0, ego + l.relativeSpeed), ratio)
            == FollowSpeed(c, Lead(distance, 0.0, at), egoKph, ratio, step) - Display(ego, ratio)
  {
    hide Correction, FollowSpeed, Display, Horizon;
    var ego := MaxReal(0.0, egoKph / 3.6);
    var distance := if l.relativeSpeed >= 0.0 then l.distance
                    else MaxReal(1.0, l.distance + l.relativeSpeed * Horizon(c, step));
    var m := Lead(distance, 0.0, at);
    SameCorrection(c, l, m, ego, step);
    FollowsInDisplay(c, l, egoKph, ratio, step);
    FollowsInDisplay(c, m, egoKph, ratio, step);
    DisplayAdds(MaxReal(0.0, ego + l.relativeSpeed), Correction(c, l, ego, step), ratio);
    DisplayAdds(ego, Correction(c, m, ego, step), ratio);
  }

  lemma DisplayAdds(speed: real, u: real, ratio: real)
    ensures Display(speed + u, ratio) == Display(speed, ratio) + Display(u, ratio)
  {}

  lemma SameCorrection(c: Config, l: Lead, m: Lead, ego: real, step: real)
    requires l.distance >= 1.0 && m.relativeSpeed == 0.0
    requires m.distance == if l.relativeSpeed >= 0.0 then l.distance
                           else MaxReal(1.0, l.distance + l.relativeSpeed * Horizon(c, step))
    ensures Correction(c, l, ego, step) == Correction(c, m, ego, step)
  {
    var horizon := MinReal(2.0, c.interval + 0.5 * Ratio(step, MaxReal(0.1, c.deceleration)));
    assert horizon == Horizon(c, step);
    hide Horizon, Ratio;
    assert 0.0 * horizon == 0.0;
    assert m.distance >= 1.0;
    assert MaxReal(1.0, l.distance + MinReal(0.0, l.relativeSpeed) * horizon) == m.distance;
    assert MaxReal(1.0, m.distance + MinReal(0.0, m.relativeSpeed) * horizon) == m.distance;
  }

  // ---- Which target applies

  /** When the lead was last seen in this session. */
  ghost predicate LeadKnown(c: Config, last: real, ins: seq<Input>, k: nat)
    requires k <= |ins|
  {
    && (last < 0.0 || exists m: nat :: m < k && Seen(c, ins[m]) && NoEnd(ins, m, k) && last == ins[m].now)
    && (forall m: nat | m < k && Seen(c, ins[m]) && NoEnd(ins, m, k) :: last >= ins[m].now)
  }

  lemma StepLead(s: State, c: Config, i: Input)
    ensures var last := if Seen(c, i) then i.now else if Ends(s.timing, i) then UNSET else s.lead.lastValid;
            Settled(s, c, i).lead.lastValid == last && Step(s, c, i).0.lead.lastValid == last
  {
    SettledFilters(s, c, i);
    LeadFilterExactly(s.lead, c, i);
    LeadFilterExactly(s.lead.(lastValid := UNSET), c, i);
    hide Settled, TrackLead, LearnScale, Target, Chosen, Allowed, Ends, Seen;
  }

  lemma LeadStep(c: Config, last: real, ins: seq<Input>, k: nat)
    requires Drive(ins) && k < |ins| && LeadKnown(c, last, ins, k)
    ensures LeadKnown(c, if Seen(c, ins[k]) then ins[k].now else if EndsAt(ins, k) then UNSET else last, ins, k + 1)
  {
    hide EndsAt, NoEnd, Seen;
    forall m: nat | m < k { NoEndOn(ins, m, k); }
    if Seen(c, ins[k]) {
      NothingBetween(ins, k);
    } else if !EndsAt(ins, k) && last >= 0.0 {
      var m: nat :| m < k && Seen(c, ins[m]) && NoEnd(ins, m, k) && last == ins[m].now;
      assert NoEnd(ins, m, k + 1);
    }
  }

  lemma {:induction false} LeadFollows(c: Config, ins: seq<Input>, k: nat)
    requires Drive(ins) && k <= |ins|
    ensures LeadKnown(c, Before(c, ins, k).lead.lastValid, ins, k)
  {
    hide Step, Ends, EndsAt, LeadKnown, Seen;
    if k > 0 {
      LeadFollows(c, ins, k - 1);
      StepLead(Before(c, ins, k - 1), c, ins[k - 1]);
      EndsExactly(c, ins, k - 1);
      LeadStep(c, Before(c, ins, k - 1).lead.lastValid, ins, k - 1);
    } else {
      NothingSeen(c, ins);
    }
  }

  lemma NothingSeen(c: Config, ins: seq<Input>)
    ensures LeadKnown(c, INITIAL.lead.lastValid, ins, 0)
  {}

  /** A lead was seen in this session, no longer ago than it may be held. */
  ghost predicate Held(c: Config, ins: seq<Input>, k: nat)
    requires k < |ins|
  {
    exists m: nat :: m <= k && Seen(c, ins[m]) && NoEnd(ins, m, k + 1) && ins[k].now - ins[m].now <= c.leadHold
  }

  /** No lead was seen in this session within the restore delay. */
  ghost predicate Gone(c: Config, ins: seq<Input>, k: nat)
    requires k < |ins|
  {
    forall m: nat | m <= k && Seen(c, ins[m]) && NoEnd(ins, m, k + 1) :: ins[k].now - ins[m].now >= c.restoreDelay
  }

  lemma LeadTimes(c: Config, last: real, ins: seq<Input>, k: nat)
    requires Drive(ins) && k < |ins| && LeadKnown(c, last, ins, k + 1)
    ensures last >= 0.0 && ins[k].now - last <= c.leadHold <==> Held(c, ins, k)
    ensures last < 0.0 || ins[k].now - last >= c.restoreDelay <==> Gone(c, ins, k)
    ensures ins[k].now >= last
  {
    hide NoEnd, Seen;
  }

  /** The target on every tick of every drive: in a session with a held lead, a speed and a known scale, the
      speed the gap asks for, brought into the session's range; otherwise, once no lead has been seen for the
      restore delay, the session's maximum; otherwise the tracked speed stays the target. */
  lemma TargetExactly(c: Config, ins: seq<Input>, k: nat)
    requires Drive(ins) && k < |ins|
    ensures var (s, i, o) := (Settled(Before(c, ins, k), c, ins[k]), ins[k], Out(c, ins, k));
            && o.sessionValid == s.session.valid && o.maximum == s.session.maximum
            && (o.leadValid <==> o.sessionValid && i.ego.Finite? && Held(c, ins, k))
            && o.target ==
               if o.leadValid && s.scale.valid then
                 ClampReal(FollowSpeed(c, s.lead, i.ego.v, s.scale.ratio, if i.mph then 2.0 * 1.609344 else 2.0),
                           if i.mph then 20.0 * 1.609344 else 30.0, s.session.maximum)
               else if o.sessionValid && Gone(c, ins, k) then s.session.maximum
               else s.session.commanded
  {
    var (s0, i) := (Before(c, ins, k), ins[k]);
    LeadFollows(c, ins, k);
    EndsExactly(c, ins, k);
    StepLead(s0, c, i);
    hide Before, Settled, EndsAt, Ends, Seen, LeadKnown, Held, Gone, FollowSpeed, ClampReal, Allowed, Chosen;
    LeadStep(c, s0.lead.lastValid, ins, k);
    LeadTimes(c, Settled(s0, c, i).lead.lastValid, ins, k);
  }
}
