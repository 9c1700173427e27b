/** When the vision cruise may press a button, by the inputs of a drive and their history. A drive is a run of
    ticks from a fresh controller on a clock that does not run backwards. */
module CruiseGates {
  import opened AdaptiveCruise

  ghost predicate Drive(ins: seq<Input>) {
    forall i, j | 0 <= i <= j < |ins| :: 0.0 <= ins[i].now <= ins[j].now
  }

  /** The controller before tick k. */
  function Before(c: Config, ins: seq<Input>, k: nat): State
    requires k <= |ins|
  {
    if k == 0 then INITIAL else Step(Before(c, ins, k - 1), c, ins[k - 1]).0
  }

  function Out(c: Config, ins: seq<Input>, k: nat): Output
    requires k < |ins|
  {
    Step(Before(c, ins, k), c, ins[k]).1
  }

  predicate Pedal(i: Input) { i.gas || i.driverAccelerator }

  /** The main button goes down on tick k. */
  predicate MainDown(ins: seq<Input>, k: nat)
    requires k < |ins|
  {
    ins[k].mainButton != 0 && (k == 0 || ins[k - 1].mainButton == 0)
  }

  /** Cruise has been off from tick m to tick k. */
  predicate OffSince(ins: seq<Input>, m: nat, k: nat)
    requires k < |ins|
  {
    forall j | m <= j <= k :: !ins[j].cruiseActive
  }

  /** A session ends on tick k, by the inputs alone. */
  ghost predicate EndsAt(ins: seq<Input>, k: nat)
    requires k < |ins|
  {
    || !ins[k].enabled || MainDown(ins, k)
    || exists m: nat :: m <= k && OffSince(ins, m, k) && ins[k].now - ins[m].now >= 0.3
  }

  /** What the timers remember before tick k: since when cruise has been off, ... */
  ghost predicate OffKnown(since: real, ins: seq<Input>, k: nat)
    requires k <= |ins|
  {
    if k == 0 || ins[k - 1].cruiseActive then since < 0.0
    else exists m: nat :: m < k && OffSince(ins, m, k - 1) && (m > 0 ==> ins[m - 1].cruiseActive) && since == ins[m].now
  }

  /** ... and the last use of the pedal. */
  ghost predicate PedalKnown(last: real, ins: seq<Input>, k: nat)
    requires k <= |ins|
  {
    && (last < 0.0 || exists m: nat :: m < k && Pedal(ins[m]) && last == ins[m].now)
    && (forall m: nat | m < k && Pedal(ins[m]) :: last >= ins[m].now)
  }

  ghost predicate TimersKnow(t: Timing, ins: seq<Input>, k: nat)
    requires k <= |ins|
  {
    && t.mainButton == (if k == 0 then 0 else ins[k - 1].mainButton)
    && OffKnown(t.inactiveSince, ins, k) && PedalKnown(t.lastOverride, ins, k)
  }

  lemma StepTimers(s: State, c: Config, i: Input)
    ensures var t := Step(s, c, i).0.timing;
            && t.mainButton == i.mainButton && t.inactiveSince == InactiveSince(s.timing, i)
            && t.lastOverride == if Overriding(i) then i.now else s.timing.lastOverride
    ensures Ends(Clocked(s, i).timing, i) == Ends(s.timing, i)
  {
    hide LearnScale, TrackLead, WatchCluster, Target, Chosen, Allowed, Resolve, Opens, Reanchors;
  }

  lemma OffStep(t: Timing, ins: seq<Input>, k: nat)
    requires Drive(ins) && 0 < k <= |ins| && OffKnown(t.inactiveSince, ins, k - 1)
    ensures OffKnown(InactiveSince(t, ins[k - 1]), ins, k)
  {
    hide OffSince;
    var last := k - 1;
    if !ins[last].cruiseActive {
      if last == 0 || ins[last - 1].cruiseActive {
        OffAlone(ins, last);
        assert OffKnown(ins[last].now, ins, k);
      } else {
        var m: nat :| m < last && OffSince(ins, m, last - 1) && (m > 0 ==> ins[m - 1].cruiseActive)
                      && t.inactiveSince == ins[m].now;
        OffLonger(ins, m, last);
        assert OffKnown(ins[m].now, ins, k);
      }
    }
  }

  lemma OffAlone(ins: seq<Input>, k: nat)
    requires k < |ins| && !ins[k].cruiseActive
    ensures OffSince(ins, k, k)
  {}

  lemma OffLonger(ins: seq<Input>, m: nat, k: nat)
    requires m < k < |ins| && !ins[k].cruiseActive && OffSince(ins, m, k - 1)
    ensures OffSince(ins, m, k)
  {}

  lemma PedalStep(last: real, ins: seq<Input>, k: nat)
    requires Drive(ins) && 0 < k <= |ins| && PedalKnown(last, ins, k - 1)
    ensures PedalKnown(if Pedal(ins[k - 1]) then ins[k - 1].now else last, ins, k)
  {}

  lemma {:induction false} TimersFollow(c: Config, ins: seq<Input>, k: nat)
    requires Drive(ins) && k <= |ins|
    ensures TimersKnow(Before(c, ins, k).timing, ins, k)
  {
    hide Step, Ends, OffKnown, PedalKnown, Drive, InactiveSince;
    if k > 0 {
      TimersFollow(c, ins, k - 1);
      var t := Before(c, ins, k - 1).timing;
      StepTimers(Before(c, ins, k - 1), c, ins[k - 1]);
      OffStep(t, ins, k);
      PedalStep(t.lastOverride, ins, k);
    } else {
      NothingKnown(ins);
    }
  }

  lemma NothingKnown(ins: seq<Input>)
    ensures OffKnown(INITIAL.timing.inactiveSince, ins, 0) && PedalKnown(INITIAL.timing.lastOverride, ins, 0)
  {}

  /** When a session ends, by the inputs of the drive: cruise control disabled, the main button pressed, or
      cruise off for three tenths of a second without a break. */
  lemma EndsExactly(c: Config, ins: seq<Input>, k: nat)
    requires Drive(ins) && k < |ins|
    ensures Ends(Before(c, ins, k).timing, ins[k]) <==> EndsAt(ins, k)
    ensures MainPressed(Before(c, ins, k).timing, ins[k]) <==> MainDown(ins, k)
  {
    TimersFollow(c, ins, k);
    hide Before;
    var (t, i) := (Before(c, ins, k).timing, ins[k]);
    OffStep(t, ins, k + 1);
    OffLongEnough(InactiveSince(t, i), ins, k);
  }

  lemma OffLongEnough(since: real, ins: seq<Input>, k: nat)
    requires Drive(ins) && k < |ins| && OffKnown(since, ins, k + 1)
    ensures !ins[k].cruiseActive && since >= 0.0 && ins[k].now - since >= 0.3 <==>
            exists m: nat :: m <= k && OffSince(ins, m, k) && ins[k].now - ins[m].now >= 0.3
  {
    if !ins[k].cruiseActive {
      var m: nat :| m < k + 1 && OffSince(ins, m, k) && (m > 0 ==> ins[m - 1].cruiseActive) && since == ins[m].now;
      forall n: nat | n < m && OffSince(ins, n, k) { OffInside(ins, n, k, m); }
    }
  }

  lemma OffInside(ins: seq<Input>, n: nat, k: nat, m: nat)
    requires k < |ins| && OffSince(ins, n, k) && n < m <= k
    ensures !ins[m - 1].cruiseActive
  {}

  // ---- What a session remembers of the driver and of mismatch checks

  /** No session ends after tick m and before tick k. */
  ghost predicate NoEnd(ins: seq<Input>, m: nat, k: nat)
    requires k <= |ins|
  {
    forall j | m < j < k :: !EndsAt(ins, j)
  }

  /** The driver holds a button in an open session on tick m. */
  ghost predicate TouchedAt(c: Config, ins: seq<Input>, m: nat)
    requires m < |ins|
  {
    ins[m].driverButton != 0 && Before(c, ins, m).session.valid && !EndsAt(ins, m)
  }

  /** A mismatch check raises the tracked speed on tick m. */
  ghost predicate RaisedAt(c: Config, ins: seq<Input>, m: nat)
    requires m < |ins|
  {
    var s := Anchored(Before(c, ins, m), ins[m]);
    Overwrites(s, ins[m]) && ins[m].cluster.v > s.session.commanded
  }

  /** The session that tick m belongs to is neither ended nor opened nor anchored before tick k. */
  ghost predicate SameAnchor(c: Config, ins: seq<Input>, m: nat, k: nat)
    requires k <= |ins|
  {
    forall j | m < j < k :: !EndsAt(ins, j) && !Anchors(Before(c, ins, j), ins[j])
  }

  /** The end of the driver's adjustment: two seconds after the last touch in the session. */
  ghost predicate AdjustKnown(c: Config, until: real, ins: seq<Input>, k: nat)
    requires k <= |ins|
  {
    && (until < 0.0 || exists m: nat :: m < k && TouchedAt(c, ins, m) && NoEnd(ins, m, k) && until == ins[m].now + 2.0)
    && (forall m: nat | m < k && TouchedAt(c, ins, m) && NoEnd(ins, m, k) :: until >= ins[m].now + 2.0)
  }

  /** The end of the backoff: thirty seconds after the last raising check since the anchor. */
  ghost predicate BackoffKnown(c: Config, until: real, ins: seq<Input>, k: nat)
    requires k <= |ins|
  {
    && (until < 0.0 || exists m: nat ::
          m < k && RaisedAt(c, ins, m) && SameAnchor(c, ins, m, k) && until == ins[m].now + 30.0)
    && (forall m: nat | m < k && RaisedAt(c, ins, m) && SameAnchor(c, ins, m, k) :: until >= ins[m].now + 30.0)
  }

  /** What one tick does to both, up to the choice of a button and after it. */
  lemma StepMemory(s: State, c: Config, i: Input)
    requires i.now >= 0.0
    ensures var (x, y) := (s.session, Settled(s, c, i).session);
            var a := Anchored(s, i);
            && Step(s, c, i).0.session.adjustUntil == y.adjustUntil
            && Step(s, c, i).0.session.ineffectiveUntil == y.ineffectiveUntil
            && y.adjustUntil == (if Ends(s.timing, i) then UNSET
                                 else if i.driverButton != 0 && x.valid then i.now + 2.0 else x.adjustUntil)
            && y.ineffectiveUntil == (if Overwrites(a, i) && i.cluster.v > a.session.commanded then i.now + 30.0
                                      else if Ends(s.timing, i) || Anchors(s, i) then UNSET else x.ineffectiveUntil)
            && (Overwrites(a, i) ==> !Ends(s.timing, i) && !Anchors(s, i))
  {
    hide LearnScale, TrackLead, WatchCluster, Target, Chosen, Allowed;
    StepTimers(s, c, i);
    hide Ends;
  }

  lemma NoEndOn(ins: seq<Input>, m: nat, k: nat)
    requires m < k < |ins|
    ensures NoEnd(ins, m, k + 1) <==> NoEnd(ins, m, k) && !EndsAt(ins, k)
  {
    hide EndsAt;
  }

  lemma AdjustStep(c: Config, until: real, ins: seq<Input>, k: nat)
    requires Drive(ins) && k < |ins| && AdjustKnown(c, until, ins, k)
    ensures AdjustKnown(c, if EndsAt(ins, k) then UNSET else if TouchedAt(c, ins, k) then ins[k].now + 2.0 else until,
                        ins, k + 1)
  {
    hide EndsAt, NoEnd, Before;
    forall m: nat | m < k { NoEndOn(ins, m, k); }
    if EndsAt(ins, k) {
    } else if TouchedAt(c, ins, k) {
      NothingBetween(ins, k);
    } else if until >= 0.0 {
      var m: nat :| m < k && TouchedAt(c, ins, m) && NoEnd(ins, m, k) && until == ins[m].now + 2.0;
      assert NoEnd(ins, m, k + 1);
    }
  }

  lemma NothingBetween(ins: seq<Input>, k: nat)
    requires k < |ins|
    ensures NoEnd(ins, k, k + 1)
  {}

  lemma SameAnchorOn(c: Config, ins: seq<Input>, m: nat, k: nat)
    requires m < k < |ins|
    ensures SameAnchor(c, ins, m, k + 1) <==>
            SameAnchor(c, ins, m, k) && !EndsAt(ins, k) && !Anchors(Before(c, ins, k), ins[k])
  {
    hide EndsAt, Anchors, Before;
  }

  lemma BackoffStep(c: Config, until: real, ins: seq<Input>, k: nat)
    requires Drive(ins) && k < |ins| && BackoffKnown(c, until, ins, k)
    requires RaisedAt(c, ins, k) ==> !EndsAt(ins, k) && !Anchors(Before(c, ins, k), ins[k])
    ensures BackoffKnown(c, if RaisedAt(c, ins, k) then ins[k].now + 30.0
                            else if EndsAt(ins, k) || Anchors(Before(c, ins, k), ins[k]) then UNSET else until,
                         ins, k + 1)
  {
    hide EndsAt, SameAnchor, Before, Anchors, RaisedAt;
    var next := k + 1;
    forall m: nat | m < k
      ensures SameAnchor(c, ins, m, next) <==>
              SameAnchor(c, ins, m, k) && !EndsAt(ins, k) && !Anchors(Before(c, ins, k), ins[k])
    {
      SameAnchorOn(c, ins, m, k);
    }
    AnchoredAlone(c, ins, k);
    if until >= 0.0 {
      var m: nat :| m < k && RaisedAt(c, ins, m) && SameAnchor(c, ins, m, k) && until == ins[m].now + 30.0;
      if !EndsAt(ins, k) && !Anchors(Before(c, ins, k), ins[k]) { assert SameAnchor(c, ins, m, next); }
    }
  }

  lemma AnchoredAlone(c: Config, ins: seq<Input>, k: nat)
    requires k < |ins|
    ensures SameAnchor(c, ins, k, k + 1)
  {}

  lemma NothingTouched(c: Config, ins: seq<Input>)
    ensures AdjustKnown(c, UNSET, ins, 0) && BackoffKnown(c, UNSET, ins, 0)
  {}

  lemma {:induction false} MemoryFollows(c: Config, ins: seq<Input>, k: nat)
    requires Drive(ins) && k <= |ins|
    ensures AdjustKnown(c, Before(c, ins, k).session.adjustUntil, ins, k)
    ensures BackoffKnown(c, Before(c, ins, k).session.ineffectiveUntil, ins, k)
  {
    hide Step, Ends, AdjustKnown, BackoffKnown, EndsAt, Anchors, Anchored, Overwrites;
    if k > 0 {
      MemoryFollows(c, ins, k - 1);
      SettledFollows(c, ins, k - 1);
      StepMemory(Before(c, ins, k - 1), c, ins[k - 1]);
    } else {
      NothingTouched(c, ins);
    }
  }

  /** The same of the state in which the button is chosen. */
  lemma SettledFollows(c: Config, ins: seq<Input>, k: nat)
    requires Drive(ins) && k < |ins|
    requires AdjustKnown(c, Before(c, ins, k).session.adjustUntil, ins, k)
    requires BackoffKnown(c, Before(c, ins, k).session.ineffectiveUntil, ins, k)
    ensures var x := Settled(Before(c, ins, k), c, ins[k]).session;
            AdjustKnown(c, x.adjustUntil, ins, k + 1) && BackoffKnown(c, x.ineffectiveUntil, ins, k + 1)
  {
    var (s, i) := (Before(c, ins, k), ins[k]);
    StepMemory(s, c, i);
    EndsExactly(c, ins, k);
    hide Before, Settled, Step, EndsAt, Ends, Anchors, Anchored, Overwrites, AdjustKnown, BackoffKnown;
    AdjustStep(c, s.session.adjustUntil, ins, k);
    BackoffStep(c, s.session.ineffectiveUntil, ins, k);
  }

  // ---- The gate

  /** No use of the pedal in the last half second. */
  ghost predicate PedalQuiet(ins: seq<Input>, k: nat)
    requires k < |ins|
  {
    forall m: nat | m <= k && Pedal(ins[m]) :: ins[k].now - ins[m].now >= 0.5
  }

  /** The driver touched no button in this session in the last two seconds. */
  ghost predicate DriverQuiet(c: Config, ins: seq<Input>, k: nat)
    requires k < |ins|
  {
    forall m: nat | m <= k && TouchedAt(c, ins, m) && NoEnd(ins, m, k + 1) :: ins[k].now - ins[m].now >= 2.0
  }

  /** No mismatch check raised the tracked speed in the last thirty seconds, since the session was anchored. */
  ghost predicate ChecksQuiet(c: Config, ins: seq<Input>, k: nat)
    requires k < |ins|
  {
    forall m: nat | m <= k && RaisedAt(c, ins, m) && SameAnchor(c, ins, m, k + 1) :: ins[k].now - ins[m].now >= 30.0
  }

  /** Everything about the surroundings that pressing a button asks for. */
  ghost predicate MayPress(c: Config, ins: seq<Input>, k: nat)
    requires k < |ins|
  {
    var i := ins[k];
    && i.enabled && i.cruiseActive && i.ready && i.ego.Finite? && !i.brake && !Pedal(i) && i.driverButton == 0
    && !MainDown(ins, k) && PedalQuiet(ins, k) && DriverQuiet(c, ins, k) && ChecksQuiet(c, ins, k)
  }

  lemma QuietByTimers(c: Config, last: real, adjust: real, backoff: real, ins: seq<Input>, k: nat)
    requires Drive(ins) && k < |ins| && !Pedal(ins[k])
    requires PedalKnown(last, ins, k + 1) && AdjustKnown(c, adjust, ins, k + 1) && BackoffKnown(c, backoff, ins, k + 1)
    ensures last < 0.0 || ins[k].now - last >= 0.5 <==> PedalQuiet(ins, k)
    ensures !(adjust >= 0.0 && ins[k].now < adjust) <==> DriverQuiet(c, ins, k)
    ensures backoff < 0.0 || ins[k].now >= backoff <==> ChecksQuiet(c, ins, k)
  {
    hide TouchedAt, RaisedAt, NoEnd, SameAnchor;
  }

  /** The gate in front of the buttons is open exactly when the drive allows it, a session is open, and the
      cluster's scale is known. */
  lemma GateExactly(c: Config, ins: seq<Input>, k: nat)
    requires Drive(ins) && k < |ins|
    ensures var s := Settled(Before(c, ins, k), c, ins[k]);
            Allowed(s, ins[k]) <==> MayPress(c, ins, k) && s.session.valid && s.scale.valid
  {
    var (s0, i) := (Before(c, ins, k), ins[k]);
    MemoryFollows(c, ins, k);
    SettledFollows(c, ins, k);
    TimersFollow(c, ins, k);
    EndsExactly(c, ins, k);
    PedalStep(s0.timing.lastOverride, ins, k + 1);
    SettledTimers(s0, c, i);
    hide Before, Settled, EndsAt, Ends, TimersKnow, PedalKnown, AdjustKnown, BackoffKnown, MainDown;
    hide PedalQuiet, DriverQuiet, ChecksQuiet;
    var s := Settled(s0, c, i);
    if !Pedal(i) {
      QuietByTimers(c, s.timing.lastOverride, s.session.adjustUntil, s.session.ineffectiveUntil, ins, k);
    }
  }

  lemma SettledTimers(s: State, c: Config, i: Input)
    ensures var t := Settled(s, c, i).timing;
            && t.mainButton == s.timing.mainButton
            && t.lastOverride == if Overriding(i) then i.now else s.timing.lastOverride
  {
    hide LearnScale, TrackLead, WatchCluster, Resolve, Opens, Reanchors, Ends, InactiveSince;
  }

  /** Over every drive a button goes out only when the drive allows it: cruise on and ready, no brake, no pedal now
      or in the last half second, no driver's button now or in the last two seconds of the session, no press
      of the main button, and no raising mismatch check in the last thirty seconds since the anchor. */
  lemma PressNeeds(c: Config, ins: seq<Input>, k: nat)
    requires Drive(ins) && k < |ins| && Out(c, ins, k).button != 0
    ensures MayPress(c, ins, k)
  {
    GateExactly(c, ins, k);
    hide MayPress, Before, Settled, Allowed, Target, Chosen;
  }

  /** And where it does, in an open session with a known scale, no pulse in progress and the interval over, a
      press begins exactly when the target is at least one step away, towards it. */
  lemma PressExactly(c: Config, ins: seq<Input>, k: nat)
    requires Drive(ins) && k < |ins| && MayPress(c, ins, k) && Bounded(Before(c, ins, k).session, ins[k].mph)
    requires var s := Settled(Before(c, ins, k), c, ins[k]);
             s.session.valid && s.scale.valid && s.pulse.frames <= 0 && IntervalReady(s.pulse, c, ins[k])
    ensures var s := Settled(Before(c, ins, k), c, ins[k]);
            var (gap, step) := (Target(s, c, ins[k]) - s.session.commanded, StepSize(ins[k].mph));
            var b := Out(c, ins, k).button;
            (b == SET <==> gap <= -step) && (b == RESUME <==> gap >= step) && (b == 0 || b == SET || b == RESUME)
  {
    GateExactly(c, ins, k);
    PressedSide(Before(c, ins, k), c, ins[k]);
    hide MayPress, Before, Settled, Allowed, Target, Chosen, IntervalReady, Step;
  }

  lemma PressedSide(s0: State, c: Config, i: Input)
    requires Bounded(s0.session, i.mph)
    requires var s := Settled(s0, c, i); Allowed(s, i) && s.pulse.frames <= 0 && IntervalReady(s.pulse, c, i)
    ensures var s := Settled(s0, c, i);
            var (gap, step, b) := (Target(s, c, i) - s.session.commanded, StepSize(i.mph), Step(s0, c, i).1.button);
            (b == SET <==> gap <= -step) && (b == RESUME <==> gap >= step) && (b == 0 || b == SET || b == RESUME)
  {
    var s := Settled(s0, c, i);
    SettledKeepsBounds(s0, c, i);
    PressFits(s, c, i);
    hide Settled, Target, IntervalReady;
  }
}
