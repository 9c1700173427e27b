/** Over a drive: when a session of the vision cruise opens and is anchored again, how long a press is held,
    how far presses lie apart, and when a mismatch check overwrites the tracked speed. */
module CruiseSessions {
  import opened Rounding
  import opened AdaptiveCruise
  import opened CruiseGates

  predicate PressedAt(c: Config, ins: seq<Input>, k: nat)
    requires k < |ins|
  {
    Begins(Before(c, ins, k), c, ins[k])
  }

  predicate OpensAt(c: Config, ins: seq<Input>, k: nat)
    requires k < |ins|
  {
    Opens(Driven(Before(c, ins, k), ins[k]), ins[k])
  }

  predicate AnchorsAt(c: Config, ins: seq<Input>, k: nat)
    requires k < |ins|
  {
    Anchors(Before(c, ins, k), ins[k])
  }

  predicate GateAt(c: Config, ins: seq<Input>, k: nat)
    requires k < |ins|
  {
    Allowed(Settled(Before(c, ins, k), c, ins[k]), ins[k])
  }

  // ---- Opening a session

  lemma DrivenSession(s: State, i: Input)
    ensures var (x, y) := (s.session, Driven(s, i).session);
            && y.valid == (x.valid && !Ends(s.timing, i))
            && MainPressed(Driven(s, i).timing, i) == MainPressed(s.timing, i)
            && Driven(s, i).steady == s.steady && Driven(s, i).pulse.frames == s.pulse.frames
            && (y.valid ==> y.commanded == x.commanded && y.maximum == x.maximum
                            && y.reanchorPending == (x.reanchorPending || i.driverButton != 0))
  {
    StepTimersOnly(s, i);
    hide LearnScale, Ends;
  }

  lemma StepTimersOnly(s: State, i: Input)
    ensures Ends(Clocked(s, i).timing, i) == Ends(s.timing, i)
  {}

  lemma OffIsInactive(ins: seq<Input>, k: nat)
    requires k < |ins| && EndsAt(ins, k) && ins[k].enabled && !MainDown(ins, k)
    ensures !ins[k].cruiseActive
  {}

  /** A session opens exactly when there is none, cruise is enabled and on, the main button does not go down,
      and the driver's set speed is plausible. Then tracked speed and maximum are that speed, or the lowest
      one the car can hwas. It lasts until it ends. */
  lemma OpensExactly(c: Config, ins: seq<Input>, k: nat)
    requires Drive(ins) && k < |ins|
    ensures var (s, i) := (Before(c, ins, k), ins[k]);
            var x := Settled(s, c, i).session;
            && (OpensAt(c, ins, k) <==>
                  && !s.session.valid && i.enabled && i.cruiseActive && !MainDown(ins, k)
                  && i.driverSet.Finite? && 0.0 < i.driverSet.v && i.driverSet.v < 300.0)
            && (Out(c, ins, k).sessionValid <==> OpensAt(c, ins, k) || (s.session.valid && !EndsAt(ins, k)))
            && (OpensAt(c, ins, k) ==>
                  x.commanded == x.maximum == MaxReal(if i.mph then 20.0 * 1.609344 else 30.0, i.driverSet.v))
  {
    var (s, i) := (Before(c, ins, k), ins[k]);
    EndsExactly(c, ins, k);
    DrivenSession(s, i);
    if EndsAt(ins, k) && i.enabled && !MainDown(ins, k) { OffIsInactive(ins, k); }
    hide Before, Driven, EndsAt, MainDown, Ends, MainPressed;
    SettledSession(s, c, i);
    hide Settled, Allowed, Chosen, Target;
  }

  lemma SettledSession(s: State, c: Config, i: Input)
    ensures var x := Settled(s, c, i).session;
            var d := Driven(s, i);
            && x.valid == (d.session.valid || Opens(d, i))
            && (Opens(d, i) ==> x.commanded == x.maximum == MaxReal(Minimum(i.mph), i.driverSet.v))
            && (Reanchors(Begin(d, i), i) ==> x.commanded == x.maximum == MaxReal(Minimum(i.mph), i.cluster.v))
            && (Anchors(s, i) ==> !x.reanchorPending)
            && (!Anchors(s, i) ==> x.reanchorPending == d.session.reanchorPending)
  {
    hide LearnScale, TrackLead, WatchCluster, Teardown;
  }

  // ---- A steady display

  predicate Shown(i: Input) { i.cluster.Finite? && i.cluster.v > 0.0 }

  /** From tick m on and before tick k the display stayed within half a unit of what it was on tick m. */
  ghost predicate CloseSince(ins: seq<Input>, m: nat, k: nat)
    requires m < k <= |ins|
  {
    forall j | m <= j < k :: Shown(ins[j]) && Shown(ins[m]) && Abs(ins[j].cluster.v - ins[m].cluster.v) <= 0.5
  }

  ghost predicate SameSince(ins: seq<Input>, m: nat, k: nat)
    requires m < k <= |ins|
  {
    forall j | m <= j < k :: Shown(ins[j]) && ins[j].cluster == ins[m].cluster
  }

  predicate IsReading(r: Steady, i: Input) { Shown(i) && r.kph == i.cluster.v && r.since == i.now }

  ghost predicate SteadyKnown(r: Steady, ins: seq<Input>, k: nat)
    requires k <= |ins|
  {
    && (r.since < 0.0 || exists m: nat :: m < k && CloseSince(ins, m, k) && IsReading(r, ins[m]))
    && (forall n: nat | n < k && SameSince(ins, n, k) :: 0.0 <= r.since <= ins[n].now)
  }

  lemma Alone(ins: seq<Input>, k: nat)
    requires k < |ins| && Shown(ins[k])
    ensures CloseSince(ins, k, k + 1) && SameSince(ins, k, k + 1)
  {}

  lemma CloseOn(ins: seq<Input>, m: nat, k: nat)
    requires m < k < |ins|
    ensures CloseSince(ins, m, k + 1) <==>
            CloseSince(ins, m, k) && Shown(ins[k]) && Abs(ins[k].cluster.v - ins[m].cluster.v) <= 0.5
    ensures SameSince(ins, m, k + 1) <==> SameSince(ins, m, k) && Shown(ins[k]) && ins[k].cluster == ins[m].cluster
  {}

  /** The reference speed is within half a unit of a speed that has not changed since tick n. */
  lemma CloseToSame(ins: seq<Input>, m: nat, n: nat, k: nat)
    requires m < k <= |ins| && n < k && CloseSince(ins, m, k) && SameSince(ins, n, k)
    ensures Shown(ins[m]) && Shown(ins[n]) && Abs(ins[n].cluster.v - ins[m].cluster.v) <= 0.5
  {
    assert Shown(ins[m]) && Shown(ins[n]);
    if n < m { assert ins[m].cluster == ins[n].cluster; }
  }

  lemma SteadyStep(r: Steady, ins: seq<Input>, k: nat)
    requires Drive(ins) && k < |ins| && SteadyKnown(r, ins, k)
    ensures SteadyKnown(WatchCluster(r, ins[k]), ins, k + 1)
  {
    hide CloseSince, SameSince;
    var (i, r') := (ins[k], WatchCluster(r, ins[k]));
    forall n: nat | n < k { CloseOn(ins, n, k); }
    if Shown(i) { Alone(ins, k); }
    if r.since >= 0.0 {
      var m: nat :| m < k && CloseSince(ins, m, k) && IsReading(r, ins[m]);
      if Shown(i) && r' == r { assert CloseSince(ins, m, k + 1); }
      forall n: nat | n < k && SameSince(ins, n, k)
        ensures Shown(ins[n]) && Abs(ins[n].cluster.v - ins[m].cluster.v) <= 0.5
      {
        CloseToSame(ins, m, n, k);
      }
    }
    if SameSince(ins, k, k + 1) { NotShown(ins, k); }
  }

  lemma NotShown(ins: seq<Input>, k: nat)
    requires k < |ins| && SameSince(ins, k, k + 1)
    ensures Shown(ins[k])
  {}

  lemma {:induction false} SteadyFollows(c: Config, ins: seq<Input>, k: nat)
    requires Drive(ins) && k <= |ins|
    ensures SteadyKnown(Before(c, ins, k).steady, ins, k)
  {
    hide Step, SteadyKnown, WatchCluster;
    if k > 0 {
      SteadyFollows(c, ins, k - 1);
      StepSteady(Before(c, ins, k - 1), c, ins[k - 1]);
      SteadyStep(Before(c, ins, k - 1).steady, ins, k - 1);
    } else {
      NothingShown(ins);
    }
  }

  lemma NothingShown(ins: seq<Input>)
    ensures SteadyKnown(INITIAL.steady, ins, 0)
  {}

  lemma StepSteady(s: State, c: Config, i: Input)
    ensures Step(s, c, i).0.steady == WatchCluster(s.steady, i)
    ensures Driven(s, i).steady == s.steady && Begin(Driven(s, i), i).steady == s.steady
  {
    hide LearnScale, TrackLead, WatchCluster, Target, Chosen, Allowed, Resolve, Opens, Reanchors, Ends;
  }

  /** The display counts as steady on tick k. */
  predicate SteadyAt(c: Config, ins: seq<Input>, k: nat)
    requires k < |ins|
  {
    ClusterSteady(WatchCluster(Before(c, ins, k).steady, ins[k]), ins[k])
  }

  /** A display that counts as steady has stayed within half a unit of one of its readings for half a second;
      and one that has shown the same reading for half a second counts as steady. */
  lemma SteadyMeans(c: Config, ins: seq<Input>, k: nat)
    requires Drive(ins) && k < |ins|
    ensures SteadyAt(c, ins, k) ==>
            exists m: nat :: m <= k && CloseSince(ins, m, k + 1) && ins[k].now - ins[m].now >= 0.5
    ensures forall n: nat | n <= k && SameSince(ins, n, k + 1) && ins[k].now - ins[n].now >= 0.5 :: SteadyAt(c, ins, k)
  {
    SteadyFollows(c, ins, k);
    SteadyStep(Before(c, ins, k).steady, ins, k);
    var next := k + 1;
    if exists n: nat :: n <= k && SameSince(ins, n, next) { assert Shown(ins[k]); }
    hide Before, CloseSince, SameSince, WatchCluster;
  }

  // ---- Anchoring after the driver

  ghost predicate PendingKnown(c: Config, pending: bool, ins: seq<Input>, k: nat)
    requires k <= |ins|
  {
    pending <==> exists m: nat :: m < k && TouchedAt(c, ins, m) && SameAnchor(c, ins, m, k)
  }

  lemma PendingStep(c: Config, pending: bool, ins: seq<Input>, k: nat)
    requires k < |ins| && PendingKnown(c, pending, ins, k)
    ensures PendingKnown(c, TouchedAt(c, ins, k) || (pending && !EndsAt(ins, k) && !AnchorsAt(c, ins, k)), ins, k + 1)
  {
    hide EndsAt, SameAnchor, Before, Anchors, TouchedAt;
    var next := k + 1;
    forall m: nat | m < k
      ensures SameAnchor(c, ins, m, next) <==> SameAnchor(c, ins, m, k) && !EndsAt(ins, k) && !AnchorsAt(c, ins, k)
    {
      SameAnchorOn(c, ins, m, k);
    }
    AnchoredAlone(c, ins, k);
    if TouchedAt(c, ins, k) {
      assert PendingKnown(c, true, ins, next);
    } else if pending && !EndsAt(ins, k) && !AnchorsAt(c, ins, k) {
      var m: nat :| m < k && TouchedAt(c, ins, m) && SameAnchor(c, ins, m, k);
      assert SameAnchor(c, ins, m, next);
    }
  }

  lemma StepPending(s: State, c: Config, i: Input)
    ensures Step(s, c, i).0.session.reanchorPending ==
            if s.session.valid && !Ends(s.timing, i) && i.driverButton != 0 then true
            else s.session.reanchorPending && !Ends(s.timing, i) && !Anchors(s, i)
  {
    DrivenPending(s, i);
    StepKeepsPending(s, c, i);
    SettledSession(s, c, i);
    hide Step, Settled, Ends, Driven;
  }

  lemma DrivenPending(s: State, i: Input)
    ensures Driven(s, i).session.reanchorPending ==
            if s.session.valid && !Ends(s.timing, i) && i.driverButton != 0 then true
            else s.session.reanchorPending && !Ends(s.timing, i)
    ensures Driven(s, i).session.valid ==> s.session.valid && !Ends(s.timing, i)
    ensures s.session.valid && !Ends(s.timing, i) ==> Driven(s, i).session.valid
  {
    StepTimersOnly(s, i);
    hide LearnScale, Ends;
  }

  lemma {:induction false} PendingFollows(c: Config, ins: seq<Input>, k: nat)
    requires Drive(ins) && k <= |ins|
    ensures PendingKnown(c, Before(c, ins, k).session.reanchorPending, ins, k)
  {
    hide Step, Ends, PendingKnown, EndsAt, Anchors;
    if k > 0 {
      PendingFollows(c, ins, k - 1);
      StepPending(Before(c, ins, k - 1), c, ins[k - 1]);
      EndsExactly(c, ins, k - 1);
      PendingStep(c, Before(c, ins, k - 1).session.reanchorPending, ins, k - 1);
    } else {
      hide Before;
      assert PendingKnown(c, false, ins, 0) by { NoTicks(c, ins); }
      assert Before(c, ins, 0) == INITIAL by { BeforeAll(c, ins); }
    }
  }

  lemma NoTicks(c: Config, ins: seq<Input>)
    ensures PendingKnown(c, false, ins, 0)
  {}

  lemma BeforeAll(c: Config, ins: seq<Input>)
    ensures Before(c, ins, 0) == INITIAL
  {}

  predicate ReanchorsAt(c: Config, ins: seq<Input>, k: nat)
    requires k < |ins|
  {
    var (s, i) := (Before(c, ins, k), ins[k]);
    Reanchors(Begin(Driven(s, i), i), i)
  }

  /** An open session is anchored again exactly when the driver has touched a button since it was opened or
      last anchored, two seconds ago or longer, holds none now, and the display is steady. Then tracked speed
      and maximum are what the display shows, or the lowest speed the car can hwas. */
  lemma ReanchorsExactly(c: Config, ins: seq<Input>, k: nat)
    requires Drive(ins) && k < |ins|
    ensures var (s, i) := (Before(c, ins, k), ins[k]);
            var x := Settled(s, c, i).session;
            && (ReanchorsAt(c, ins, k) <==>
                  && s.session.valid && !EndsAt(ins, k) && i.cruiseActive && i.driverButton == 0
                  && (exists m: nat :: m < k && TouchedAt(c, ins, m) && SameAnchor(c, ins, m, k))
                  && DriverQuiet(c, ins, k) && SteadyAt(c, ins, k))
            && (ReanchorsAt(c, ins, k) ==>
                  x.commanded == x.maximum == MaxReal(if i.mph then 20.0 * 1.609344 else 30.0, i.cluster.v))
  {
    var (s, i) := (Before(c, ins, k), ins[k]);
    EndsExactly(c, ins, k);
    PendingFollows(c, ins, k);
    QuietNow(c, ins, k);
    DrivenPending(s, i);
    SameAdjust(s, c, i);
    StepSteady(s, c, i);
    SettledSession(s, c, i);
    hide Before, Driven, Settled, EndsAt, Ends, WatchCluster, SameAnchor, TouchedAt, DriverQuiet;
  }

  lemma SameAdjust(s: State, c: Config, i: Input)
    ensures Driven(s, i).session.adjustUntil == Settled(s, c, i).session.adjustUntil
    ensures Begin(Driven(s, i), i).session.adjustUntil == Settled(s, c, i).session.adjustUntil
    ensures Anchored(s, i).session.adjustUntil == Settled(s, c, i).session.adjustUntil
  {
    hide LearnScale, TrackLead, WatchCluster, Teardown, Compares, Opens, Reanchors;
  }

  lemma QuietNow(c: Config, ins: seq<Input>, k: nat)
    requires Drive(ins) && k < |ins|
    ensures Adjusting(Settled(Before(c, ins, k), c, ins[k]).session, ins[k]) <==> !DriverQuiet(c, ins, k)
  {
    MemoryFollows(c, ins, k);
    SettledFollows(c, ins, k);
    hide Before, Settled, TouchedAt, NoEnd, BackoffKnown;
  }

  // ---- Presses

  /** On tick k a press begins with the gate open; the gate stays open until tick k and no press begins. */
  ghost predicate OpenSince(c: Config, ins: seq<Input>, m: nat, k: nat)
    requires k <= |ins|
  {
    forall j | m < j < k :: GateAt(c, ins, j) && !PressedAt(c, ins, j)
  }

  ghost predicate FramesKnown(c: Config, p: Pulse, ins: seq<Input>, k: nat)
    requires k <= |ins|
  {
    && p.frames >= 0
    && (p.frames > 0 ==> exists m: nat :: m < k && PressedAt(c, ins, m) && OpenSince(c, ins, m, k)
                                          && p.frames == c.pulseFrames - (k - m) && p.button == Out(c, ins, m).button)
    && (forall m: nat | m < k < m + c.pulseFrames && PressedAt(c, ins, m) && OpenSince(c, ins, m, k) ::
          p.frames == c.pulseFrames - (k - m) && p.button == Out(c, ins, m).button)
  }

  /** What one tick does to a pulse. */
  lemma StepPulse(s: State, c: Config, i: Input)
    ensures var ((t, o), gate) := (Step(s, c, i), Allowed(Settled(s, c, i), i));
            var (was, p, pressed) := (Settled(s, c, i).pulse, t.pulse, Begins(s, c, i));
            && (pressed ==>
                  gate && o.button in {SET, RESUME} && p == Pulse(o.button, c.pulseFrames - 1, i.now, o.button == SET))
            && (!pressed ==> p.lastCommand == was.lastCommand && p.lastWasSet == was.lastWasSet)
            && (!gate ==> o.button == 0 && p.frames == 0)
            && (gate && was.frames > 0 ==>
                  !pressed && o.button == was.button && p.frames == was.frames - 1 && p.button == was.button)
            && (gate && was.frames <= 0 && !pressed ==> o.button == 0 && p.frames == was.frames)
  {
    hide Settled, Target, Allowed, WantsSet, WantsResume, IntervalReady;
  }

  lemma SettledPulse(s: State, c: Config, i: Input)
    ensures var (p, q) := (s.pulse, Settled(s, c, i).pulse);
            && q.frames == (if Opens(Driven(s, i), i) then 0 else p.frames)
            && (q.frames > 0 ==> q.button == p.button)
            && q.lastCommand == (if Anchors(s, i) then i.now else p.lastCommand)
            && q.lastWasSet == (p.lastWasSet && !Ends(s.timing, i) && !Opens(Driven(s, i), i))
            && (Opens(Driven(s, i), i) ==> Anchors(s, i))
  {
    StepTimersOnly(s, i);
    hide LearnScale, TrackLead, WatchCluster, Ends;
  }

  lemma OpenOn(c: Config, ins: seq<Input>, m: nat, k: nat)
    requires m < k < |ins|
    ensures OpenSince(c, ins, m, k + 1) <==> OpenSince(c, ins, m, k) && GateAt(c, ins, k) && !PressedAt(c, ins, k)
  {
    hide GateAt, PressedAt;
  }

  lemma OpenAlone(c: Config, ins: seq<Input>, k: nat)
    requires k < |ins|
    ensures OpenSince(c, ins, k, k + 1)
  {}

  lemma GateKeepsSession(c: Config, ins: seq<Input>, k: nat)
    requires Drive(ins) && 0 < k < |ins| && GateAt(c, ins, k - 1)
    ensures !OpensAt(c, ins, k)
  {
    OpensExactly(c, ins, k);
    PressKeepsSession(Before(c, ins, k - 1), c, ins[k - 1]);
    hide Step, Settled, Opens, EndsAt, Driven;
  }

  lemma PressKeepsSession(s: State, c: Config, i: Input)
    ensures Step(s, c, i).0.session.valid == Settled(s, c, i).session.valid
    ensures Allowed(Settled(s, c, i), i) ==> Settled(s, c, i).session.valid
  {
    hide Settled, Target, Chosen;
  }

  /** One tick of a drive, for the pulse. */
  lemma TickPulse(c: Config, ins: seq<Input>, k: nat)
    requires k < |ins|
    ensures var (p, p', b) := (Before(c, ins, k).pulse, Before(c, ins, k + 1).pulse, Out(c, ins, k).button);
            var (pressed, gate, opens) := (PressedAt(c, ins, k), GateAt(c, ins, k), OpensAt(c, ins, k));
            && (pressed ==> gate && b in {SET, RESUME} && p'.frames == c.pulseFrames - 1 && p'.button == b)
            && (!gate ==> b == 0 && p'.frames == 0)
            && (gate && !opens && p.frames > 0 ==>
                  !pressed && b == p.button && p'.frames == p.frames - 1 && p'.button == p.button)
            && (gate && (opens || p.frames <= 0) && !pressed ==> b == 0 && p'.frames == if opens then 0 else p.frames)
  {
    StepPulse(Before(c, ins, k), c, ins[k]);
    SettledPulse(Before(c, ins, k), c, ins[k]);
    hide Settled, Step, Begins, Allowed, Opens, Driven, Anchors, Ends;
  }

  /** While a pulse is out no session opens. */
  lemma GateBefore(c: Config, ins: seq<Input>, m: nat, k: nat)
    requires Drive(ins) && m < k < |ins| && PressedAt(c, ins, m) && OpenSince(c, ins, m, k)
    ensures !OpensAt(c, ins, k)
  {
    hide PressedAt, GateAt, OpensAt, Out, Before;
    TickPulse(c, ins, m);
    assert GateAt(c, ins, k - 1);
    GateKeepsSession(c, ins, k);
  }

  lemma FramesStep(c: Config, ins: seq<Input>, k: nat)
    requires Drive(ins) && k < |ins| && c.pulseFrames >= 1 && FramesKnown(c, Before(c, ins, k).pulse, ins, k)
    ensures FramesKnown(c, Before(c, ins, k + 1).pulse, ins, k + 1)
  {
    hide PressedAt, GateAt, OpensAt, Out, Before, OpenSince;
    TickPulse(c, ins, k);
    var next := k + 1;
    var p := Before(c, ins, k).pulse;
    forall m: nat | m < k
      ensures OpenSince(c, ins, m, next) <==> OpenSince(c, ins, m, k) && GateAt(c, ins, k) && !PressedAt(c, ins, k)
      ensures PressedAt(c, ins, m) && OpenSince(c, ins, m, k) ==> !OpensAt(c, ins, k)
    {
      OpenOn(c, ins, m, k);
      if PressedAt(c, ins, m) && OpenSince(c, ins, m, k) { GateBefore(c, ins, m, k); }
    }
    OpenAlone(c, ins, k);
    if p.frames > 0 {
      var m: nat :| m < k && PressedAt(c, ins, m) && OpenSince(c, ins, m, k)
                    && p.frames == c.pulseFrames - (k - m) && p.button == Out(c, ins, m).button;
      assert PressedAt(c, ins, k) || !GateAt(c, ins, k) || OpenSince(c, ins, m, next);
    }
  }

  lemma {:induction false} FramesFollow(c: Config, ins: seq<Input>, k: nat)
    requires Drive(ins) && k <= |ins| && c.pulseFrames >= 1
    ensures FramesKnown(c, Before(c, ins, k).pulse, ins, k)
  {
    hide Step, FramesKnown;
    if k > 0 {
      FramesFollow(c, ins, k - 1);
      FramesStep(c, ins, k - 1);
    } else {
      NothingPressed(c, ins);
    }
  }

  lemma NothingPressed(c: Config, ins: seq<Input>)
    ensures FramesKnown(c, INITIAL.pulse, ins, 0)
  {}

  /** A button is out on tick k exactly when a press of it began on a tick fewer than the pulse's frames ago
      and the gate has been open since; a gate that closes ends the press for good. */
  lemma HeldExactly(c: Config, ins: seq<Input>, k: nat)
    requires Drive(ins) && k < |ins| && c.pulseFrames >= 1
    ensures Out(c, ins, k).button != 0 <==>
            exists m: nat :: m <= k < m + c.pulseFrames && PressedAt(c, ins, m) && OpenSince(c, ins, m, k + 1)
    ensures forall m: nat | m <= k < m + c.pulseFrames && PressedAt(c, ins, m) && OpenSince(c, ins, m, k + 1) ::
              Out(c, ins, k).button == Out(c, ins, m).button
  {
    hide PressedAt, GateAt, OpensAt, Out, Before, OpenSince;
    FramesFollow(c, ins, k);
    var next := k + 1;
    forall m: nat | m <= k
      ensures m < k ==> (OpenSince(c, ins, m, next) <==>
                           OpenSince(c, ins, m, k) && GateAt(c, ins, k) && !PressedAt(c, ins, k))
      ensures m < k && PressedAt(c, ins, m) && OpenSince(c, ins, m, k) ==> !OpensAt(c, ins, k)
      ensures PressedAt(c, ins, m) ==> Out(c, ins, m).button != 0
    {
      TickPulse(c, ins, m);
      if m < k {
        OpenOn(c, ins, m, k);
        if PressedAt(c, ins, m) && OpenSince(c, ins, m, k) { GateBefore(c, ins, m, k); }
      }
    }
    OpenAlone(c, ins, k);
    TickPulse(c, ins, k);
    if Out(c, ins, k).button != 0 && !PressedAt(c, ins, k) {
      var p := Before(c, ins, k).pulse;
      var m: nat :| m < k && PressedAt(c, ins, m) && OpenSince(c, ins, m, k)
                    && p.frames == c.pulseFrames - (k - m) && p.button == Out(c, ins, m).button;
      assert OpenSince(c, ins, m, next);
    }
  }

  // ---- The time between presses

  /** A press begins, or the session is opened or anchored. */
  predicate CommandAt(c: Config, ins: seq<Input>, k: nat)
    requires k < |ins|
  {
    PressedAt(c, ins, k) || AnchorsAt(c, ins, k)
  }

  ghost predicate CommandKnown(c: Config, last: real, ins: seq<Input>, k: nat)
    requires k <= |ins|
  {
    && (last < 0.0 || exists m: nat :: m < k && CommandAt(c, ins, m) && last == ins[m].now)
    && (forall m: nat | m < k && CommandAt(c, ins, m) :: last >= ins[m].now)
  }

  /** After tick m and before tick k no press begins and no session ends or opens. */
  ghost predicate NothingSince(c: Config, ins: seq<Input>, m: nat, k: nat)
    requires k <= |ins|
  {
    forall j | m < j < k :: !PressedAt(c, ins, j) && !EndsAt(ins, j) && !OpensAt(c, ins, j)
  }

  /** The last press of this session, on tick m, was SET. */
  ghost predicate SetAt(c: Config, ins: seq<Input>, m: nat, k: nat)
    requires m < k <= |ins|
  {
    PressedAt(c, ins, m) && Out(c, ins, m).button == SET && NothingSince(c, ins, m, k)
  }

  ghost predicate SetKnown(c: Config, was: bool, ins: seq<Input>, k: nat)
    requires k <= |ins|
  {
    was <==> exists m: nat :: m < k && SetAt(c, ins, m, k)
  }

  lemma SetOn(c: Config, ins: seq<Input>, m: nat, k: nat)
    requires m < k < |ins|
    ensures SetAt(c, ins, m, k + 1) <==>
            SetAt(c, ins, m, k) && !PressedAt(c, ins, k) && !EndsAt(ins, k) && !OpensAt(c, ins, k)
  {
    hide PressedAt, EndsAt, OpensAt, Out;
  }

  lemma SetNow(c: Config, ins: seq<Input>, k: nat)
    requires k < |ins|
    ensures SetAt(c, ins, k, k + 1) <==> PressedAt(c, ins, k) && Out(c, ins, k).button == SET
  {
    hide PressedAt, EndsAt, OpensAt, Out;
  }

  /** One tick of a drive, for the memory of commands; and that memory when the button is chosen. */
  lemma TickCommand(c: Config, ins: seq<Input>, k: nat)
    requires Drive(ins) && k < |ins|
    ensures var (p, p', now) := (Before(c, ins, k).pulse, Before(c, ins, k + 1).pulse, ins[k].now);
            var q := Settled(Before(c, ins, k), c, ins[k]).pulse;
            && p'.lastCommand == (if CommandAt(c, ins, k) then now else p.lastCommand)
            && p'.lastWasSet == (if PressedAt(c, ins, k) then Out(c, ins, k).button == SET
                                 else p.lastWasSet && !EndsAt(ins, k) && !OpensAt(c, ins, k))
            && q.lastCommand == (if AnchorsAt(c, ins, k) then now else p.lastCommand)
            && q.lastWasSet == (p.lastWasSet && !EndsAt(ins, k) && !OpensAt(c, ins, k))
  {
    StepPulse(Before(c, ins, k), c, ins[k]);
    SettledPulse(Before(c, ins, k), c, ins[k]);
    EndsExactly(c, ins, k);
    hide Settled, Step, Begins, Allowed, Opens, Driven, Anchors, Ends, EndsAt;
  }

  lemma CommandStep(c: Config, ins: seq<Input>, k: nat)
    requires Drive(ins) && k < |ins|
    requires CommandKnown(c, Before(c, ins, k).pulse.lastCommand, ins, k)
    requires SetKnown(c, Before(c, ins, k).pulse.lastWasSet, ins, k)
    ensures CommandKnown(c, Before(c, ins, k + 1).pulse.lastCommand, ins, k + 1)
    ensures SetKnown(c, Before(c, ins, k + 1).pulse.lastWasSet, ins, k + 1)
  {
    hide CommandAt, PressedAt, EndsAt, OpensAt, AnchorsAt, Out, Before, Settled, SetAt;
    TickCommand(c, ins, k);
    var next := k + 1;
    forall m: nat | m < k
      ensures SetAt(c, ins, m, next) <==>
              SetAt(c, ins, m, k) && !PressedAt(c, ins, k) && !EndsAt(ins, k) && !OpensAt(c, ins, k)
    {
      SetOn(c, ins, m, k);
    }
    SetNow(c, ins, k);
    if Before(c, ins, next).pulse.lastWasSet && !PressedAt(c, ins, k) {
      var m: nat :| m < k && SetAt(c, ins, m, k);
      assert SetAt(c, ins, m, next);
    }
  }

  lemma {:induction false} CommandsFollow(c: Config, ins: seq<Input>, k: nat)
    requires Drive(ins) && k <= |ins|
    ensures CommandKnown(c, Before(c, ins, k).pulse.lastCommand, ins, k)
    ensures SetKnown(c, Before(c, ins, k).pulse.lastWasSet, ins, k)
  {
    hide Step, CommandKnown, SetKnown;
    if k > 0 {
      CommandsFollow(c, ins, k - 1);
      CommandStep(c, ins, k - 1);
    } else {
      NothingCommanded(c, ins);
    }
  }

  lemma NothingCommanded(c: Config, ins: seq<Input>)
    ensures CommandKnown(c, INITIAL.pulse.lastCommand, ins, 0) && SetKnown(c, INITIAL.pulse.lastWasSet, ins, 0)
  {}

  /** How long a press has to wait for the command before it: the interval, and after a SET of the same
      session also the time the car takes to lose one step. */
  ghost function Wait(c: Config, ins: seq<Input>, k: nat): real
    requires k < |ins|
  {
    if (exists m: nat :: m < k && SetAt(c, ins, m, k)) && !EndsAt(ins, k) && !OpensAt(c, ins, k)
    then MaxReal(c.interval, (if ins[k].mph then 2.0 * 1.609344 else 2.0) / MaxReal(0.1, c.deceleration))
    else c.interval
  }

  /** The interval is over exactly when every command lies far enough back. */
  lemma IntervalExactly(c: Config, ins: seq<Input>, k: nat)
    requires Drive(ins) && k < |ins|
    ensures IntervalReady(Settled(Before(c, ins, k), c, ins[k]).pulse, c, ins[k]) <==>
            && (AnchorsAt(c, ins, k) ==> 0.0 >= Wait(c, ins, k))
            && forall m: nat | m < k && CommandAt(c, ins, m) :: ins[k].now - ins[m].now >= Wait(c, ins, k)
  {
    hide CommandAt, PressedAt, EndsAt, OpensAt, AnchorsAt, Out, Before, Settled, SetAt;
    CommandsFollow(c, ins, k);
    TickCommand(c, ins, k);
    assert Wait(c, ins, k) == ButtonInterval(Settled(Before(c, ins, k), c, ins[k]).pulse, c, ins[k].mph);
    hide Wait, ButtonInterval;
  }

  // ---- The mismatch check

  predicate ComparesAt(c: Config, ins: seq<Input>, k: nat)
    requires k < |ins|
  {
    Compares(Anchored(Before(c, ins, k), ins[k]), ins[k])
  }

  predicate OverwritesAt(c: Config, ins: seq<Input>, k: nat)
    requires k < |ins|
  {
    Overwrites(Anchored(Before(c, ins, k), ins[k]), ins[k])
  }

  /** The display is compared with the tracked speed, and off by more than five. */
  predicate MissAt(c: Config, ins: seq<Input>, k: nat)
    requires k < |ins|
  {
    ComparesAt(c, ins, k) && Abs(ins[k].cluster.v - Before(c, ins, k).session.commanded) > 5.0
  }

  lemma AnchoredFacts(s: State, i: Input)
    ensures var (x, a) := (s.session, Anchored(s, i));
            && (a.session.valid && !Anchors(s, i) ==>
                  && x.valid && !Ends(s.timing, i) && a.session.commanded == x.commanded
                  && a.session.mismatchSince == x.mismatchSince && a.pulse == s.pulse)
            && (x.valid && !Ends(s.timing, i) ==> a.session.valid)
            && (Anchors(s, i) ==> a.pulse.lastCommand == i.now && a.session.mismatchSince < 0.0)
            && (!a.session.valid ==> a.session.mismatchSince == if Ends(s.timing, i) then UNSET else x.mismatchSince)
  {
    StepTimersOnly(s, i);
    hide LearnScale, WatchCluster, Ends, ClusterSteady;
  }

  /** The display is compared exactly in a session that goes on, with cruise on and a reading, two seconds
      after the driver's last touch and five after the last command, with no pulse out. */
  lemma ComparesExactly(c: Config, ins: seq<Input>, k: nat)
    requires Drive(ins) && k < |ins| && c.pulseFrames >= 1
    ensures ComparesAt(c, ins, k) <==>
            && Before(c, ins, k).session.valid && !EndsAt(ins, k) && !AnchorsAt(c, ins, k)
            && ins[k].cruiseActive && Shown(ins[k]) && DriverQuiet(c, ins, k)
            && (forall m: nat | m < k < m + c.pulseFrames && PressedAt(c, ins, m) :: !OpenSince(c, ins, m, k))
            && (exists m: nat :: m < k && CommandAt(c, ins, m))
            && forall m: nat | m < k && CommandAt(c, ins, m) :: ins[k].now - ins[m].now >= 5.0
  {
    var (s, i) := (Before(c, ins, k), ins[k]);
    EndsExactly(c, ins, k);
    FramesFollow(c, ins, k);
    CommandsFollow(c, ins, k);
    QuietNow(c, ins, k);
    SameAdjust(s, c, i);
    AnchoredFacts(s, i);
    hide Before, Anchored, Settled, Driven, Begin, EndsAt, Ends, Anchors, DriverQuiet;
    hide PressedAt, OpenSince, CommandAt, SetKnown;
    PulseOut(c, s.pulse, ins, k);
    LongAgo(c, s.pulse.lastCommand, ins, k);
    hide FramesKnown, CommandKnown;
  }

  lemma PulseOut(c: Config, p: Pulse, ins: seq<Input>, k: nat)
    requires k <= |ins| && FramesKnown(c, p, ins, k)
    ensures p.frames == 0 <==>
            forall m: nat | m < k < m + c.pulseFrames && PressedAt(c, ins, m) :: !OpenSince(c, ins, m, k)
  {
    hide PressedAt, OpenSince, Out;
  }

  lemma LongAgo(c: Config, last: real, ins: seq<Input>, k: nat)
    requires Drive(ins) && k < |ins| && CommandKnown(c, last, ins, k)
    ensures last >= 0.0 && ins[k].now - last >= 5.0 <==>
            && (exists m: nat :: m < k && CommandAt(c, ins, m))
            && forall m: nat | m < k && CommandAt(c, ins, m) :: ins[k].now - ins[m].now >= 5.0
  {
    hide CommandAt;
  }

  /** Nothing on tick k interrupts a mismatch: no press, no end, no anchor, no overwriting, and no comparison
      that agrees. */
  ghost predicate CalmAt(c: Config, ins: seq<Input>, k: nat)
    requires k < |ins|
  {
    && (ComparesAt(c, ins, k) ==> MissAt(c, ins, k)) && !OverwritesAt(c, ins, k)
    && !PressedAt(c, ins, k) && !EndsAt(ins, k) && !AnchorsAt(c, ins, k)
  }

  /** The display has been off since tick m. */
  ghost predicate OffFrom(c: Config, ins: seq<Input>, m: nat, k: nat)
    requires m < k <= |ins|
  {
    MissAt(c, ins, m) && forall j | m <= j < k :: CalmAt(c, ins, j)
  }

  ghost predicate MismatchKnown(c: Config, since: real, ins: seq<Input>, k: nat)
    requires k <= |ins|
  {
    && (since < 0.0 || exists m: nat :: m < k && OffFrom(c, ins, m, k) && since == ins[m].now)
    && (forall m: nat | m < k && OffFrom(c, ins, m, k) :: 0.0 <= since <= ins[m].now)
  }

  lemma OffOn(c: Config, ins: seq<Input>, m: nat, k: nat)
    requires m < k < |ins|
    ensures OffFrom(c, ins, m, k + 1) <==> OffFrom(c, ins, m, k) && CalmAt(c, ins, k)
  {
    hide MissAt, CalmAt;
  }

  lemma OffNow(c: Config, ins: seq<Input>, k: nat)
    requires k < |ins|
    ensures OffFrom(c, ins, k, k + 1) <==> MissAt(c, ins, k) && CalmAt(c, ins, k)
  {
    hide MissAt, CalmAt;
  }

  /** One tick's check, and what choosing a button leaves of it. */
  lemma StepMismatch(s: State, c: Config, i: Input)
    ensures var (x, a, t) := (s.session, Anchored(s, i), Step(s, c, i).0.session);
            && t.mismatchSince == (if Begins(s, c, i) then UNSET else Resolve(a, i).mismatchSince)
            && Settled(s, c, i).session == Resolve(a, i)
  {
    hide Anchored, TrackLead, Resolve, Target, Allowed, Chosen;
  }

  lemma ResolveMismatch(s: State, i: Input)
    ensures var x := s.session;
            Resolve(s, i) ==
              if Overwrites(s, i) then
                x.(commanded := ClampReal(i.cluster.v, Minimum(i.mph), x.maximum), mismatchSince := UNSET,
                   ineffectiveUntil := if i.cluster.v > x.commanded then i.now + 30.0 else x.ineffectiveUntil)
              else if !Compares(s, i) then x
              else if Abs(i.cluster.v - x.commanded) <= 5.0 then x.(mismatchSince := UNSET)
              else x.(mismatchSince := if x.mismatchSince < 0.0 then i.now else x.mismatchSince)
    ensures Overwrites(s, i) <==>
            && Compares(s, i) && Abs(i.cluster.v - s.session.commanded) > 5.0
            && s.session.mismatchSince >= 0.0 && i.now - s.session.mismatchSince >= 5.0
  {
    hide Compares, ClampReal;
  }

  /** One tick of a drive, for the memory of the mismatch. */
  lemma TickMismatch(c: Config, ins: seq<Input>, k: nat)
    requires Drive(ins) && k < |ins|
    ensures var (since, since', now) := (Before(c, ins, k).session.mismatchSince,
                                         Before(c, ins, k + 1).session.mismatchSince, ins[k].now);
            && (OverwritesAt(c, ins, k) <==> MissAt(c, ins, k) && since >= 0.0 && now - since >= 5.0)
            && (ComparesAt(c, ins, k) ==> !EndsAt(ins, k) && !AnchorsAt(c, ins, k))
            && (!CalmAt(c, ins, k) ==> since' < 0.0)
            && (CalmAt(c, ins, k) ==> since' == if MissAt(c, ins, k) && since < 0.0 then now else since)
  {
    var (s, i) := (Before(c, ins, k), ins[k]);
    EndsExactly(c, ins, k);
    StepMismatch(s, c, i);
    ResolveMismatch(Anchored(s, i), i);
    AnchoredFacts(s, i);
    ComparesInSession(Anchored(s, i), i);
    assert Step(s, c, i).0 == Before(c, ins, k + 1);
    hide Before, Anchored, Settled, Step, Begins, EndsAt, Ends, Anchors, Compares, Overwrites, Resolve;
  }

  lemma ComparesInSession(s: State, i: Input)
    ensures Compares(s, i) ==> s.session.valid && i.now - s.pulse.lastCommand >= 5.0
  {}

  lemma {:induction false} MismatchFollows(c: Config, ins: seq<Input>, k: nat)
    requires Drive(ins) && k <= |ins|
    ensures MismatchKnown(c, Before(c, ins, k).session.mismatchSince, ins, k)
  {
    hide Step, MissAt, CalmAt, Before, OverwritesAt, ComparesAt, AnchorsAt, EndsAt, OffFrom;
    if k > 0 {
      var last := k - 1;
      MismatchFollows(c, ins, last);
      TickMismatch(c, ins, last);
      forall m: nat | m < last
        ensures OffFrom(c, ins, m, k) <==> OffFrom(c, ins, m, last) && CalmAt(c, ins, last)
      {
        OffOn(c, ins, m, last);
      }
      OffNow(c, ins, last);
      var since := Before(c, ins, last).session.mismatchSince;
      if CalmAt(c, ins, last) && since >= 0.0 {
        var m: nat :| m < last && OffFrom(c, ins, m, last) && since == ins[m].now;
        assert OffFrom(c, ins, m, k);
      }
    } else {
      BeforeAll(c, ins);
    }
  }

  /** The tracked speed is overwritten exactly when the display is off, was already off in a comparison five
      seconds ago or earlier, and nothing has interrupted that since; it becomes what the display shows,
      brought into the session's range, and no other check changes it. */
  lemma OverwritesExactly(c: Config, ins: seq<Input>, k: nat)
    requires Drive(ins) && k < |ins|
    ensures OverwritesAt(c, ins, k) <==>
            MissAt(c, ins, k) && exists m: nat :: m < k && OffFrom(c, ins, m, k) && ins[k].now - ins[m].now >= 5.0
    ensures var (i, a, x) := (ins[k], Anchored(Before(c, ins, k), ins[k]).session,
                              Settled(Before(c, ins, k), c, ins[k]).session);
            && x.maximum == a.maximum
            && x.commanded == if OverwritesAt(c, ins, k)
                              then ClampReal(i.cluster.v, if i.mph then 20.0 * 1.609344 else 30.0, a.maximum)
                              else a.commanded
  {
    var s := Before(c, ins, k);
    StepMismatch(s, c, ins[k]);
    ResolveMismatch(Anchored(s, ins[k]), ins[k]);
    MismatchFollows(c, ins, k);
    TickMismatch(c, ins, k);
    hide Before, Anchored, Settled, Step, MissAt, OffFrom, CalmAt, Overwrites, Resolve, ClampReal;
  }
}
