/** Alerts while the car stands still: the lead has driven off, or the light has turned green. */
module DepartureAlert {
  import opened Rounding

  const DRIVE_GEAR := 5
  const STOPPED_MPS: real := 0.1
  const MOVING_MPS: real := 0.5
  const MINIMUM_STOP_S: real := 1.0
  const LEAD_MIN_M: real := 1.0
  const LEAD_MAX_M: real := 30.0
  const LEAD_ARM_S: real := 1.0
  const LEAD_CHANGE_M: real := 0.5
  const LEAD_SPEED_MPS: real := 0.5
  const LEAD_CONFIRM_S: real := 0.3
  const PLAN_MIN_M: real := -5.0
  const PLAN_STOPPED_M: real := 5.0
  const PLAN_OPEN_M: real := 10.0
  const SIGNAL_STOP_S: real := 3.0
  const GREEN_CONFIRM_S: real := 0.3
  const DISPLAY_S: real := 3.0
  const UNSET: real := -1.0
  const ID_LIMIT := 0x1_0000_0000

  datatype Float = NaN | PlusInf | MinusInf | Finite(v: real)

  predicate Above(x: Float, limit: real) { x.PlusInf? || (x.Finite? && x.v > limit) }

  datatype Alert = NoAlert | LeadDeparted | GreenLight

  datatype Input = Input(
    now: real, vehicleValid: bool, gear: int, speed: Float, gas: bool,
    leadUpdated: bool, leadValid: bool, leadDistance: Float, leadSpeed: Float,
    modelUpdated: bool, modelValid: bool, planDistance: Float)

  datatype Lead = Lead(seenSince: real, candidateSince: real, baseline: real, armed: bool)

  datatype Green = Green(candidateSince: real, armed: bool)

  datatype Shown = Shown(alert: Alert, until: real, eventId: int)

  datatype State = State(consumed: bool, stoppedSince: real, lead: Lead, green: Green, shown: Shown)

  const NO_LEAD := Lead(UNSET, UNSET, 0.0, false)
  const NO_GREEN := Green(UNSET, false)
  const INITIAL := State(false, UNSET, NO_LEAD, NO_GREEN, Shown(NoAlert, UNSET, 0))

  predicate Elapsed(now: real, since: real, duration: real) {
    since >= 0.0 && now >= since && now - since >= duration
  }

  // ---- One tick, as a function

  predicate Resets(i: Input) {
    !i.vehicleValid || i.gear != DRIVE_GEAR || i.gas || !i.speed.Finite? || i.speed.v > MOVING_MPS
  }

  predicate Stands(i: Input) { !Resets(i) && i.speed.v <= STOPPED_MPS }

  predicate LeadPresent(i: Input) {
    i.leadValid && i.leadDistance.Finite? && LEAD_MIN_M <= i.leadDistance.v <= LEAD_MAX_M
  }

  function Expire(x: Shown, now: real): Shown {
    if x.alert != NoAlert && now >= x.until then x.(alert := NoAlert) else x
  }

  function Standstill(s: State, i: Input): State {
    if Resets(i) then s.(consumed := false, stoppedSince := UNSET, lead := NO_LEAD, green := NO_GREEN)
    else if Stands(i) then (if s.stoppedSince < 0.0 then s.(stoppedSince := i.now) else s)
    else s.(stoppedSince := UNSET, lead := NO_LEAD, green := NO_GREEN)
  }

  /** A lead whose distance was just measured, and whether it has driven off. */
  function MeasureLead(l: Lead, i: Input): (Lead, bool)
    requires i.leadDistance.Finite?
  {
    var d := i.leadDistance.v;
    var l1 := if l.seenSince < 0.0 then l.(seenSince := i.now, baseline := d)
              else l.(baseline := MinReal(l.baseline, d));
    var armed := Elapsed(i.now, l1.seenSince, LEAD_ARM_S);
    var l2 := l1.(armed := armed);
    if armed && d - l2.baseline > LEAD_CHANGE_M && Above(i.leadSpeed, LEAD_SPEED_MPS) then
      var since := if l2.candidateSince < 0.0 then i.now else l2.candidateSince;
      (l2.(candidateSince := since), Elapsed(i.now, since, LEAD_CONFIRM_S))
    else (l2.(candidateSince := UNSET), false)
  }

  function WatchLead(s: State, i: Input): (Lead, bool) {
    if !LeadPresent(i) then (NO_LEAD, false)
    else if Elapsed(i.now, s.stoppedSince, MINIMUM_STOP_S) && i.leadUpdated then MeasureLead(s.lead, i)
    else (s.lead, false)
  }

  predicate PlansToStop(i: Input) {
    i.planDistance.Finite? && PLAN_MIN_M < i.planDistance.v < PLAN_STOPPED_M
  }

  function WatchGreen(s: State, i: Input): (Green, bool) {
    if !i.modelUpdated || !i.modelValid then (s.green, false)
    else
      var armed := s.green.armed || (PlansToStop(i) && Elapsed(i.now, s.stoppedSince, SIGNAL_STOP_S));
      if armed && Above(i.planDistance, PLAN_OPEN_M) then
        var since := if s.green.candidateSince < 0.0 then i.now else s.green.candidateSince;
        (Green(since, armed), Elapsed(i.now, since, GREEN_CONFIRM_S))
      else (Green(UNSET, armed), false)
  }

  function NextId(id: int): int {
    var n := (id + 1) % ID_LIMIT;
    if n == 0 then 1 else n
  }

  function Trigger(s: State, alert: Alert, now: real): State {
    s.(shown := Shown(alert, now + DISPLAY_S, NextId(s.shown.eventId)), consumed := true,
       lead := NO_LEAD, green := NO_GREEN)
  }

  /** What this tick would alert about. */
  function Finding(s: State, i: Input): Alert {
    if s.stoppedSince < 0.0 || s.consumed then NoAlert
    else if WatchLead(s, i).1 then LeadDeparted
    else if WatchGreen(s, i).1 then GreenLight
    else NoAlert
  }

  function Watch(s: State, i: Input): State {
    if s.stoppedSince < 0.0 || s.consumed then s
    else
      var s1 := s.(lead := WatchLead(s, i).0, green := WatchGreen(s, i).0);
      var alert := Finding(s, i);
      if alert == NoAlert then s1 else Trigger(s1, alert, i.now)
  }

  function Step(s: State, i: Input): State {
    Watch(Standstill(s.(shown := Expire(s.shown, i.now)), i), i)
  }

  /** The alert this tick raises. */
  function Raised(s: State, i: Input): Alert {
    Finding(Standstill(s.(shown := Expire(s.shown, i.now)), i), i)
  }

  // ---- The detector with the part of the past that matters

  /** `stand`: the ticks since the car came to stand; `sight`: those since the present lead was first
      measured; `alerts`: how many were raised since the last cycle reset. */
  datatype Followed = Followed(state: State, now: real, stand: seq<Input>, sight: seq<Input>, alerts: nat)

  const FOLLOWED_INITIAL := Followed(INITIAL, 0.0, [], [], 0)

  function Follow(t: Followed, i: Input): Followed {
    var s := Step(t.state, i);
    var stand := if Stands(i) then t.stand + [i] else [];
    var sight := if s.lead.seenSince < 0.0 then [] else t.sight + [i];
    var before := if Resets(i) then 0 else t.alerts;
    Followed(s, i.now, stand, sight, if Raised(t.state, i) == NoAlert then before else before + 1)
  }

  /** The smallest distance measured. */
  function Nearest(sight: seq<Input>): real {
    if sight == [] then 0.0
    else
      var (rest, i) := (sight[..|sight| - 1], sight[|sight| - 1]);
      if !i.leadUpdated || !i.leadDistance.Finite? then Nearest(rest)
      else if rest == [] then i.leadDistance.v
      else MinReal(Nearest(rest), i.leadDistance.v)
  }

  ghost predicate StandInv(t: Followed) {
    var s := t.state;
    && (forall m | 0 <= m < |t.stand| :: Stands(t.stand[m]) && t.stand[m].now <= t.now)
    && (s.stoppedSince >= 0.0 <==> t.stand != [])
    && (t.stand != [] ==> t.stand[0].now == s.stoppedSince)
  }

  ghost predicate LeadInv(t: Followed) {
    var (s, l) := (t.state, t.state.lead);
    && (l.seenSince >= 0.0 <==> t.sight != [])
    && (t.sight != [] ==>
          && t.sight[0].now == l.seenSince && t.sight[0].leadUpdated
          && l.seenSince >= s.stoppedSince + MINIMUM_STOP_S
          && s.stoppedSince >= 0.0
          && (forall m | 0 <= m < |t.sight| :: LeadPresent(t.sight[m]))
          && |t.sight| <= |t.stand| && t.sight == t.stand[|t.stand| - |t.sight|..]
          && l.baseline == Nearest(t.sight))
    && (l.candidateSince >= 0.0 ==> l.seenSince >= 0.0 && l.candidateSince >= l.seenSince + LEAD_ARM_S)
  }

  ghost predicate GreenInv(t: Followed) {
    var (s, g) := (t.state, t.state.green);
    && (g.armed ==> s.stoppedSince >= 0.0
                    && t.stand != [] && exists m :: 0 <= m < |t.stand| && ArmsGreen(t.stand, m))
    && (g.candidateSince >= 0.0 ==> g.armed && g.candidateSince >= s.stoppedSince + SIGNAL_STOP_S)
  }

  /** The plan ended here, three seconds into the stand. */
  ghost predicate ArmsGreen(stand: seq<Input>, m: nat)
    requires m < |stand|
  {
    PlansToStop(stand[m]) && stand[m].now >= stand[0].now + SIGNAL_STOP_S
  }

  ghost predicate Inv(t: Followed) {
    && t.now >= 0.0 && StandInv(t) && LeadInv(t) && GreenInv(t)
    && (t.state.consumed ==> t.state.lead == NO_LEAD && t.state.green == NO_GREEN)
    && t.alerts == if t.state.consumed then 1 else 0
  }

  lemma NearestPush(sight: seq<Input>, i: Input)
    ensures Nearest(sight + [i]) ==
            if !i.leadUpdated || !i.leadDistance.Finite? then Nearest(sight)
            else if sight == [] then i.leadDistance.v
            else MinReal(Nearest(sight), i.leadDistance.v)
  {
    assert (sight + [i])[..|sight|] == sight;
  }

  /** The part of the tick before alerts are looked for. */
  function Settled(s: State, i: Input): State { Standstill(s.(shown := Expire(s.shown, i.now)), i) }

  lemma StandKeeps(t: Followed, i: Input)
    requires Inv(t) && i.now >= t.now
    ensures StandInv(Follow(t, i))
  {}

  /** What a measured lead says about the past. */
  lemma WatchedLead(t: Followed, i: Input)
    requires Inv(t) && i.now >= t.now
    requires Settled(t.state, i).stoppedSince >= 0.0 && !Settled(t.state, i).consumed
    ensures var (s, (l, gone)) := (Settled(t.state, i), WatchLead(Settled(t.state, i), i));
            var (stand, sight) := (t.stand + [i], if l.seenSince >= 0.0 then t.sight + [i] else []);
            && LeadInv(Followed(s.(lead := l), i.now, stand, sight, 0))
            && (gone ==>
                  && l.seenSince >= 0.0 && i.now - l.candidateSince >= LEAD_CONFIRM_S
                  && l.candidateSince >= 0.0 && i.leadUpdated
                  && i.leadDistance.v - l.baseline > LEAD_CHANGE_M && Above(i.leadSpeed, LEAD_SPEED_MPS))
  {
    NearestPush(t.sight, i);
    hide Nearest;
    var (s, l) := (Settled(t.state, i), WatchLead(Settled(t.state, i), i).0);
    var (stand, sight) := (t.stand + [i], if l.seenSince >= 0.0 then t.sight + [i] else []);
    assert sight == stand[|stand| - |sight|..];
    assert sight != [] ==> l.baseline == Nearest(sight);
  }

  lemma SettledStands(t: Followed, i: Input)
    requires Inv(t) && i.now >= t.now
    ensures var s := Settled(t.state, i);
            && (s.stoppedSince >= 0.0 <==> Stands(i))
            && (s.stoppedSince < 0.0 || s.consumed ==> s.lead == NO_LEAD && s.green == NO_GREEN)
  {}

  lemma LeadKeeps(t: Followed, i: Input)
    requires Inv(t) && i.now >= t.now
    ensures LeadInv(Follow(t, i))
  {
    var s := Settled(t.state, i);
    SettledStands(t, i);
    if s.stoppedSince >= 0.0 && !s.consumed {
      WatchedLead(t, i);
      hide Nearest, WatchLead, WatchGreen, Standstill, Stands, LeadPresent, Inv;
    }
  }

  lemma WatchedGreen(t: Followed, i: Input)
    requires Inv(t) && i.now >= t.now && Stands(i)
    ensures var (s, (g, turned)) := (Settled(t.state, i), WatchGreen(Settled(t.state, i), i));
            && GreenInv(Followed(s.(green := g), i.now, t.stand + [i], [], 0))
            && (turned ==> g.candidateSince >= 0.0 && i.now - g.candidateSince >= GREEN_CONFIRM_S
                           && Above(i.planDistance, PLAN_OPEN_M))
  {
    var (s, stand) := (Settled(t.state, i), t.stand + [i]);
    var g := WatchGreen(s, i).0;
    if g.armed {
      if t.state.green.armed {
        var m :| 0 <= m < |t.stand| && ArmsGreen(t.stand, m);
        assert ArmsGreen(stand, m);
      } else {
        assert ArmsGreen(stand, |t.stand|);
      }
    }
  }

  lemma GreenKeeps(t: Followed, i: Input)
    requires Inv(t) && i.now >= t.now
    ensures GreenInv(Follow(t, i))
  {
    if Stands(i) {
      WatchedGreen(t, i);
      hide WatchLead, WatchGreen;
    }
  }

  lemma FollowKeeps(t: Followed, i: Input)
    requires Inv(t) && i.now >= t.now
    ensures Inv(Follow(t, i))
  {
    StandKeeps(t, i);
    LeadKeeps(t, i);
    GreenKeeps(t, i);
    hide WatchLead, WatchGreen, Nearest;
  }

  // ---- Whole drives

  ghost predicate Timed(ins: seq<Input>) {
    (ins != [] ==> ins[0].now >= 0.0) && forall m | 0 <= m < |ins| - 1 :: ins[m].now <= ins[m + 1].now
  }

  lemma {:induction false} TimedPrefix(ins: seq<Input>, n: nat)
    requires Timed(ins) && n <= |ins|
    ensures Timed(ins[..n])
  {}

  function Run(ins: seq<Input>): (t: Followed)
    requires Timed(ins)
    ensures Inv(t) && t.now == (if ins == [] then 0.0 else ins[|ins| - 1].now)
    decreases |ins|
  {
    if ins == [] then FOLLOWED_INITIAL
    else
      var (rest, i) := (ins[..|ins| - 1], ins[|ins| - 1]);
      assert rest != [] ==> rest[|rest| - 1].now <= i.now;
      FollowKeeps(Run(rest), i);
      Follow(Run(rest), i)
  }

  ghost predicate IsSuffix<T>(tail: seq<T>, all: seq<T>) {
    |tail| <= |all| && tail == all[|all| - |tail|..]
  }

  lemma SuffixPush<T>(all: seq<T>, tail: seq<T>, x: T)
    requires IsSuffix(tail, all)
    ensures IsSuffix(tail + [x], all + [x]) && tail + [x] == (all + [x])[|all| - |tail|..]
  {}

  lemma StandGrows(t: Followed, i: Input)
    ensures Follow(t, i).stand == if Stands(i) then t.stand + [i] else []
  {
    hide Step, Stands;
  }

  /** The remembered ticks are the last ones of the drive. */
  lemma {:induction false} RememberedAreLast(ins: seq<Input>)
    requires Timed(ins)
    ensures IsSuffix(Run(ins).stand, ins)
    decreases |ins|
  {
    if ins != [] {
      hide Run, Inv, Follow, Timed, IsSuffix;
      var (rest, i) := (ins[..|ins| - 1], ins[|ins| - 1]);
      assert ins == rest + [i];
      RunPush(rest, i);
      RememberedAreLast(rest);
      SuffixPush(rest, Run(rest).stand, i);
      StandGrows(Run(rest), i);
      EmptySuffix(ins);
    }
  }

  lemma EmptySuffix<T>(all: seq<T>)
    ensures IsSuffix([], all)
  {}

  lemma RunPush(ins: seq<Input>, i: Input)
    requires Timed(ins + [i])
    ensures Timed(ins) && Run(ins + [i]) == Follow(Run(ins), i) && i.now >= Run(ins).now
  {
    assert (ins + [i])[..|ins|] == ins;
    TimedPrefix(ins + [i], |ins|);
    if ins != [] { assert (ins + [i])[|ins| - 1].now <= (ins + [i])[|ins|].now; }
  }

  ghost predicate AllStand(ins: seq<Input>) { forall m | 0 <= m < |ins| :: Stands(ins[m]) }

  ghost predicate AllSeeLead(ins: seq<Input>) { forall m | 0 <= m < |ins| :: LeadPresent(ins[m]) }

  lemma LeadAlertHere(t: Followed, i: Input)
    requires Inv(t) && i.now >= t.now && Raised(t.state, i) == LeadDeparted
    ensures var (stand, sight) := (t.stand + [i], t.sight + [i]);
            && AllStand(stand) && AllSeeLead(sight) && |sight| <= |stand| && sight == stand[|stand| - |sight|..]
            && i.now - stand[0].now >= MINIMUM_STOP_S + LEAD_ARM_S + LEAD_CONFIRM_S
            && i.now - sight[0].now >= LEAD_ARM_S + LEAD_CONFIRM_S
            && i.leadDistance.Finite? && i.leadDistance.v - Nearest(sight) > LEAD_CHANGE_M
            && Above(i.leadSpeed, LEAD_SPEED_MPS)
  {
    SettledStands(t, i);
    WatchedLead(t, i);
    hide Nearest, WatchLead, WatchGreen;
  }

  /** The lead alert: the car has stood without a break for at least 2.3 s (ticks j to now), and for at
      least the last 1.3 s of that (ticks k to now) a lead was there all the time and is now more than
      half a metre further away than the nearest it was measured. */
  lemma LeadAlertMeans(ins: seq<Input>, i: Input) returns (j: nat, k: nat)
    requires Timed(ins + [i]) && Timed(ins) && Raised(Run(ins).state, i) == LeadDeparted
    ensures var all := ins + [i];
            && j <= k < |all| && AllStand(all[j..]) && AllSeeLead(all[k..])
            && i.now - all[j].now >= MINIMUM_STOP_S + LEAD_ARM_S + LEAD_CONFIRM_S
            && i.now - all[k].now >= LEAD_ARM_S + LEAD_CONFIRM_S
            && i.leadDistance.Finite? && i.leadDistance.v - Nearest(all[k..]) > LEAD_CHANGE_M
            && Above(i.leadSpeed, LEAD_SPEED_MPS)
  {
    hide Run, Nearest, Inv, Timed, Raised, AllStand, AllSeeLead, Follow;
    var t := Run(ins);
    RunPush(ins, i);
    RememberedAreLast(ins);
    LeadAlertHere(t, i);
    SuffixPush(ins, t.stand, i);
    var (all, stand, sight) := (ins + [i], t.stand + [i], t.sight + [i]);
    j, k := |all| - |stand|, |all| - |sight|;
    assert all[k..] == stand[|stand| - |sight|..];
    assert stand[0] == all[j] && sight[0] == all[k];
  }

  lemma GreenAlertHere(t: Followed, i: Input) returns (m: nat)
    requires Inv(t) && i.now >= t.now && Raised(t.state, i) == GreenLight
    ensures var stand := t.stand + [i];
            && m < |stand| && AllStand(stand) && ArmsGreen(stand, m)
            && i.now - stand[0].now >= SIGNAL_STOP_S + GREEN_CONFIRM_S
            && Above(i.planDistance, PLAN_OPEN_M)
  {
    SettledStands(t, i);
    WatchedGreen(t, i);
    hide WatchLead, WatchGreen;
    var stand := t.stand + [i];
    m :| m < |stand| && ArmsGreen(stand, m);
  }

  /** The green-light alert: the car has stood without a break for at least 3.3 s, and at some tick at
      least 3 s into that the plan ended here, while it now reaches out past 10 m. */
  lemma GreenAlertMeans(ins: seq<Input>, i: Input) returns (j: nat, k: nat)
    requires Timed(ins + [i]) && Timed(ins) && Raised(Run(ins).state, i) == GreenLight
    ensures var all := ins + [i];
            && j <= k < |all| && AllStand(all[j..])
            && i.now - all[j].now >= SIGNAL_STOP_S + GREEN_CONFIRM_S
            && PlansToStop(all[k]) && all[k].now - all[j].now >= SIGNAL_STOP_S
            && Above(i.planDistance, PLAN_OPEN_M)
  {
    hide Run, Inv, Timed, Raised, AllStand, Follow, PlansToStop, Above;
    var t := Run(ins);
    RunPush(ins, i);
    RememberedAreLast(ins);
    var m := GreenAlertHere(t, i);
    SuffixPush(ins, t.stand, i);
    j := |ins| - |t.stand|;
    k := j + m;
    assert (ins + [i])[k] == (t.stand + [i])[m];
  }

  lemma RaisingSpends(t: Followed, i: Input)
    requires Inv(t) && i.now >= t.now
    ensures Raised(t.state, i) != NoAlert ==> Follow(t, i).state.consumed
    ensures t.state.consumed && !Resets(i) ==> Follow(t, i).state.consumed && Raised(t.state, i) == NoAlert
  {
    hide WatchLead, WatchGreen;
  }

  /** The detector before tick k. */
  function RunAt(ins: seq<Input>, k: nat): Followed
    requires Timed(ins) && k <= |ins|
  {
    TimedPrefix(ins, k);
    Run(ins[..k])
  }

  lemma RunAtNext(ins: seq<Input>, k: nat)
    requires Timed(ins) && k < |ins|
    ensures RunAt(ins, k + 1) == Follow(RunAt(ins, k), ins[k]) && Inv(RunAt(ins, k)) && ins[k].now >= RunAt(ins, k).now
  {
    TimedPrefix(ins, k + 1);
    TimedPrefix(ins, k);
    assert ins[..k + 1] == ins[..k] + [ins[k]];
    hide Timed, Follow, Inv;
    RunPush(ins[..k], ins[k]);
  }

  lemma {:induction false} SpentUntilReset(ins: seq<Input>, a: nat, n: nat)
    requires Timed(ins) && a < n <= |ins|
    requires Raised(RunAt(ins, a).state, ins[a]) != NoAlert
    requires forall m | a < m < n :: !Resets(ins[m])
    ensures RunAt(ins, n).state.consumed
    decreases n
  {
    hide RunAt, Timed, Raised, Follow, Resets, Inv;
    RunAtNext(ins, n - 1);
    if a < n - 1 { SpentUntilReset(ins, a, n - 1); }
    RaisingSpends(RunAt(ins, n - 1), ins[n - 1]);
  }

  /** At most one alert per cycle: after one there is no other until a tick that resets the cycle, by
      driving off, leaving the gear, the pedal, or lost signals. */
  lemma OneAlertPerCycle(ins: seq<Input>, a: nat, b: nat)
    requires Timed(ins) && a < b < |ins|
    requires Raised(RunAt(ins, a).state, ins[a]) != NoAlert
    requires forall m | a < m <= b :: !Resets(ins[m])
    ensures Raised(RunAt(ins, b).state, ins[b]) == NoAlert
  {
    hide RunAt, Timed, Raised, Follow, Inv;
    SpentUntilReset(ins, a, b);
    RunAtNext(ins, b);
    RaisingSpends(RunAt(ins, b), ins[b]);
  }

  // ---- Exactly when an alert comes

  /** On tick m of a sighting the lead is well away: half a metre beyond its nearest, moving off, a second in. */
  ghost predicate Far(sight: seq<Input>, m: nat)
    requires m < |sight|
  {
    && sight[m].leadDistance.Finite? && sight[m].leadDistance.v - Nearest(sight[..m + 1]) > 0.5
    && (sight[m].leadSpeed.PlusInf? || (sight[m].leadSpeed.Finite? && sight[m].leadSpeed.v > 0.5))
    && sight[m].now - sight[0].now >= 1.0
  }

  /** It was measured on tick c, and has been well away whenever measured since. */
  ghost predicate AwayFrom(sight: seq<Input>, c: nat) {
    && c < |sight| && sight[c].leadUpdated
    && forall m | c <= m < |sight| && sight[m].leadUpdated :: Far(sight, m)
  }

  /** The lead is measured on tick m of the stand, a second in, and is there from then on. */
  ghost predicate Sees(stand: seq<Input>, m: nat) {
    && m < |stand| && stand[m].leadUpdated && stand[m].now - stand[0].now >= 1.0
    && forall n | m <= n < |stand| :: LeadPresent(stand[n])
  }

  /** The sighting is the longest one. */
  ghost predicate SightIs(stand: seq<Input>, sight: seq<Input>) {
    && |sight| <= |stand| && sight == stand[|stand| - |sight|..]
    && (sight != [] ==> Sees(stand, |stand| - |sight|))
    && forall m: nat | Sees(stand, m) :: m >= |stand| - |sight|
  }

  /** The candidate's time is that of the first tick it has been away from. */
  ghost predicate CandidateIs(since: real, sight: seq<Input>) {
    if since < 0.0 then forall d: nat :: !AwayFrom(sight, d)
    else exists c: nat :: c < |sight| && AwayFrom(sight, c) && sight[c].now == since
                          && forall d: nat | AwayFrom(sight, d) :: c <= d
  }

  lemma FarPush(sight: seq<Input>, i: Input, m: nat)
    requires m < |sight|
    ensures Far(sight + [i], m) <==> Far(sight, m)
  {
    assert (sight + [i])[..m + 1] == sight[..m + 1];
  }

  lemma AwayPush(sight: seq<Input>, i: Input, d: nat)
    ensures AwayFrom(sight + [i], d) <==>
            if d < |sight| then AwayFrom(sight, d) && (i.leadUpdated ==> Far(sight + [i], |sight|))
            else d == |sight| && i.leadUpdated && Far(sight + [i], |sight|)
  {
    hide Far;
    forall m: nat | m < |sight| { FarPush(sight, i, m); }
  }

  lemma CandidatePush(since: real, sight: seq<Input>, i: Input)
    requires CandidateIs(since, sight) && i.now >= 0.0
    ensures CandidateIs(if !i.leadUpdated then since
                        else if !Far(sight + [i], |sight|) then UNSET
                        else if since < 0.0 then i.now else since, sight + [i])
  {
    var all := sight + [i];
    forall d: nat { AwayPush(sight, i, d); }
    hide Far, AwayFrom;
    if since >= 0.0 {
      var c: nat :| c < |sight| && AwayFrom(sight, c) && sight[c].now == since
                    && forall d: nat | AwayFrom(sight, d) :: c <= d;
      assert all[c].now == since;
      if i.leadUpdated && !Far(all, |sight|) {
        assert CandidateIs(UNSET, all);
      } else {
        assert AwayFrom(all, c);
      }
    } else if i.leadUpdated && Far(all, |sight|) {
      assert AwayFrom(all, |sight|) && all[|sight|].now == i.now;
    }
  }

  lemma SeesPush(stand: seq<Input>, i: Input, m: nat)
    ensures Sees(stand + [i], m) <==>
            LeadPresent(i) && (if m < |stand| then Sees(stand, m)
                               else m == |stand| && i.leadUpdated && i.now - (stand + [i])[0].now >= 1.0)
  {
    var all := stand + [i];
    if m < |stand| { assert all[m] == stand[m] && all[0] == stand[0]; }
    if m < |stand| && Sees(stand, m) && LeadPresent(i) {
      forall n | m <= n < |all| ensures LeadPresent(all[n]) { if n < |stand| { assert all[n] == stand[n]; } }
    }
    if m < |stand| && Sees(all, m) {
      assert LeadPresent(all[|stand|]);
      forall n | m <= n < |stand| ensures LeadPresent(stand[n]) { assert LeadPresent(all[n]); }
    }
  }

  lemma SightPush(stand: seq<Input>, sight: seq<Input>, i: Input)
    requires SightIs(stand, sight)
    ensures SightIs(stand + [i],
                    if !LeadPresent(i) then []
                    else if sight != [] then sight + [i]
                    else if i.leadUpdated && i.now - (stand + [i])[0].now >= 1.0 then [i] else [])
  {
    forall m: nat { SeesPush(stand, i, m); }
    SeenInside(stand);
    hide Sees, LeadPresent;
    assert sight != [] ==> sight + [i] == (stand + [i])[|stand| - |sight|..];
  }

  lemma SeenInside(stand: seq<Input>)
    ensures forall m: nat | Sees(stand, m) :: m < |stand|
  {}

  /** What the watch for the lead remembers, exactly, while an alert is still to come. */
  ghost predicate LeadExact(t: Followed) {
    !t.state.consumed ==> SightIs(t.stand, t.sight) && CandidateIs(t.state.lead.candidateSince, t.sight)
  }

  lemma NothingSeen()
    ensures SightIs([], []) && CandidateIs(UNSET, [])
  {}

  lemma MeasuredFar(l: Lead, sight: seq<Input>, i: Input)
    requires LeadPresent(i) && i.leadUpdated && i.now >= 0.0
    requires l.seenSince >= 0.0 <==> sight != []
    requires sight != [] ==> sight[0].now == l.seenSince && l.baseline == Nearest(sight)
    ensures var (l', gone) := MeasureLead(l, i);
            var all := sight + [i];
            && l'.candidateSince == (if !Far(all, |sight|) then UNSET
                                     else if l.candidateSince < 0.0 then i.now else l.candidateSince)
            && (gone <==> Far(all, |sight|) && l'.candidateSince <= i.now && i.now - l'.candidateSince >= 0.3)
  {
    NearestPush(sight, i);
    assert (sight + [i])[..|sight| + 1] == sight + [i];
    hide Nearest;
  }

  /** One tick of the watch while the car stands and no alert has been raised. */
  lemma LeadWatched(t: Followed, i: Input)
    requires Inv(t) && i.now >= t.now && LeadExact(t) && Stands(i) && !t.state.consumed
    ensures var (s, (l, gone)) := (Settled(t.state, i), WatchLead(Settled(t.state, i), i));
            var stand := t.stand + [i];
            var sight := if l.seenSince >= 0.0 then t.sight + [i] else [];
            && SightIs(stand, sight) && CandidateIs(l.candidateSince, sight)
            && (gone <==> sight != [] && i.leadUpdated && Far(sight, |sight| - 1) && i.now - l.candidateSince >= 0.3
                          && l.candidateSince <= i.now)
  {
    SightPush(t.stand, t.sight, i);
    CandidatePush(t.state.lead.candidateSince, t.sight, i);
    NothingSeen();
    var s := Settled(t.state, i);
    assert s.lead == t.state.lead && s.stoppedSince == (t.stand + [i])[0].now;
    if LeadPresent(i) && i.leadUpdated && i.now - s.stoppedSince >= 1.0 {
      assert WatchLead(s, i) == MeasureLead(s.lead, i);
      MeasuredFar(t.state.lead, t.sight, i);
    } else {
      assert LeadPresent(i) && i.leadUpdated ==> t.sight == [];
    }
    hide MeasureLead, Far, SightIs, CandidateIs, Settled;
  }


  lemma LeadExactKeeps(t: Followed, i: Input)
    requires Inv(t) && i.now >= t.now && LeadExact(t)
    ensures LeadExact(Follow(t, i))
  {
    NothingSeen();
    if Stands(i) && !t.state.consumed { LeadWatched(t, i); }
    hide WatchLead, WatchGreen, SightIs, CandidateIs, Inv;
  }

  /** A fresh model says so on tick m: the plan ends here. */
  ghost predicate EndsHere(i: Input) {
    i.modelUpdated && i.modelValid && i.planDistance.Finite? && -5.0 < i.planDistance.v < 5.0
  }

  /** Three seconds into the stand, by tick m, a fresh model had the plan end here. */
  ghost predicate ArmedBy(stand: seq<Input>, m: nat)
    requires m < |stand|
  {
    exists a: nat :: a <= m && EndsHere(stand[a]) && stand[a].now - stand[0].now >= 3.0
  }

  ghost predicate OpenAt(stand: seq<Input>, m: nat)
    requires m < |stand|
  {
    && (stand[m].planDistance.PlusInf? || (stand[m].planDistance.Finite? && stand[m].planDistance.v > 10.0))
    && ArmedBy(stand, m)
  }

  /** A fresh model had the plan open on tick c, and every fresh one since. */
  ghost predicate OpenFrom(stand: seq<Input>, c: nat) {
    && c < |stand| && stand[c].modelUpdated && stand[c].modelValid
    && forall m | c <= m < |stand| && stand[m].modelUpdated && stand[m].modelValid :: OpenAt(stand, m)
  }

  ghost predicate OpenSince(since: real, stand: seq<Input>) {
    if since < 0.0 then forall d: nat :: !OpenFrom(stand, d)
    else exists c: nat :: c < |stand| && OpenFrom(stand, c) && stand[c].now == since
                          && forall d: nat | OpenFrom(stand, d) :: c <= d
  }

  ghost predicate GreenExact(t: Followed) {
    !t.state.consumed ==>
      && (t.state.green.armed <==> t.stand != [] && ArmedBy(t.stand, |t.stand| - 1))
      && OpenSince(t.state.green.candidateSince, t.stand)
  }

  lemma ArmedPush(stand: seq<Input>, i: Input, m: nat)
    requires m <= |stand|
    ensures ArmedBy(stand + [i], m) <==>
            if m < |stand| then ArmedBy(stand, m)
            else (stand != [] && ArmedBy(stand, |stand| - 1)) || (EndsHere(i) && i.now - (stand + [i])[0].now >= 3.0)
  {
    var all := stand + [i];
    hide EndsHere;
    forall a: nat | a < |stand| ensures all[a] == stand[a] && all[0] == stand[0] {}
    if m < |stand| {
      if ArmedBy(all, m) {
        var a: nat :| a <= m && EndsHere(all[a]) && all[a].now - all[0].now >= 3.0;
        assert EndsHere(stand[a]);
      }
      if ArmedBy(stand, m) {
        var a: nat :| a <= m && EndsHere(stand[a]) && stand[a].now - stand[0].now >= 3.0;
        assert EndsHere(all[a]);
      }
    } else {
      if ArmedBy(all, m) {
        var a: nat :| a <= m && EndsHere(all[a]) && all[a].now - all[0].now >= 3.0;
        if a < m { assert EndsHere(stand[a]); }
      }
      if stand != [] && ArmedBy(stand, |stand| - 1) {
        var a: nat :| a <= |stand| - 1 && EndsHere(stand[a]) && stand[a].now - stand[0].now >= 3.0;
        assert EndsHere(all[a]);
      }
      if EndsHere(i) && i.now - all[0].now >= 3.0 { assert EndsHere(all[m]); }
    }
  }

  lemma OpenAtPush(stand: seq<Input>, i: Input, m: nat)
    requires m < |stand|
    ensures OpenAt(stand + [i], m) <==> OpenAt(stand, m)
  {
    ArmedPush(stand, i, m);
    hide ArmedBy;
  }

  lemma OpenFromPush(stand: seq<Input>, i: Input, d: nat)
    ensures OpenFrom(stand + [i], d) <==>
            if d < |stand| then OpenFrom(stand, d) && (i.modelUpdated && i.modelValid ==> OpenAt(stand + [i], |stand|))
            else d == |stand| && i.modelUpdated && i.modelValid && OpenAt(stand + [i], |stand|)
  {
    hide OpenAt;
    forall m: nat | m < |stand| { OpenAtPush(stand, i, m); }
  }

  lemma OpenSincePush(since: real, stand: seq<Input>, i: Input)
    requires OpenSince(since, stand) && i.now >= 0.0
    ensures OpenSince(if !i.modelUpdated || !i.modelValid then since
                      else if !OpenAt(stand + [i], |stand|) then UNSET
                      else if since < 0.0 then i.now else since, stand + [i])
  {
    var all := stand + [i];
    forall d: nat { OpenFromPush(stand, i, d); }
    hide OpenAt, OpenFrom;
    if since >= 0.0 {
      var c: nat :| c < |stand| && OpenFrom(stand, c) && stand[c].now == since
                    && forall d: nat | OpenFrom(stand, d) :: c <= d;
      assert all[c].now == since;
      if i.modelUpdated && i.modelValid && !OpenAt(all, |stand|) {
        assert OpenSince(UNSET, all);
      } else {
        assert OpenFrom(all, c);
      }
    } else if i.modelUpdated && i.modelValid && OpenAt(all, |stand|) {
      assert OpenFrom(all, |stand|) && all[|stand|].now == i.now;
    }
  }

  lemma NothingOpen()
    ensures OpenSince(UNSET, [])
  {}

  lemma GreenWatched(t: Followed, i: Input)
    requires Inv(t) && i.now >= t.now && GreenExact(t) && Stands(i) && !t.state.consumed
    ensures var (g, turned) := WatchGreen(Settled(t.state, i), i);
            var stand := t.stand + [i];
            && (g.armed <==> ArmedBy(stand, |t.stand|)) && OpenSince(g.candidateSince, stand)
            && (turned <==> i.modelUpdated && i.modelValid && OpenAt(stand, |t.stand|)
                            && i.now - g.candidateSince >= 0.3 && g.candidateSince <= i.now)
  {
    ArmedPush(t.stand, i, |t.stand|);
    OpenSincePush(t.state.green.candidateSince, t.stand, i);
    var s := Settled(t.state, i);
    assert s.green == t.state.green && s.stoppedSince == (t.stand + [i])[0].now;
    SinceNow(t.state.green.candidateSince, t.stand, t.now);
    hide ArmedBy, OpenSince, Settled;
  }

  lemma SinceNow(since: real, stand: seq<Input>, now: real)
    requires OpenSince(since, stand) && forall m | 0 <= m < |stand| :: stand[m].now <= now
    ensures since < 0.0 || since <= now
  {}

  lemma GreenExactKeeps(t: Followed, i: Input)
    requires Inv(t) && i.now >= t.now && GreenExact(t)
    ensures GreenExact(Follow(t, i))
  {
    NothingOpen();
    if Stands(i) && !t.state.consumed { GreenWatched(t, i); }
    hide WatchLead, WatchGreen, ArmedBy, OpenSince, Inv;
  }


  /** The inputs behind the cycle: a car in gear, off the pedal, at no more than 0.1 m/s stands; one out of gear,
      on the pedal, without signals or above 0.5 m/s starts over; a lead counts between 1 and 30 m. */
  lemma CycleInputs(i: Input)
    ensures Stands(i) <==> i.vehicleValid && i.gear == 5 && !i.gas && i.speed.Finite? && i.speed.v <= 0.1
    ensures Resets(i) <==> !(i.vehicleValid && i.gear == 5 && !i.gas && i.speed.Finite? && i.speed.v <= 0.5)
    ensures LeadPresent(i) <==>
            i.leadValid && i.leadDistance.Finite? && 1.0 <= i.leadDistance.v && i.leadDistance.v <= 30.0
  {}

  lemma {:induction false} RunExact(ins: seq<Input>)
    requires Timed(ins)
    ensures LeadExact(Run(ins)) && GreenExact(Run(ins))
    decreases |ins|
  {
    if ins == [] {
      NothingSeen();
      NothingOpen();
    } else {
      var (rest, i) := (ins[..|ins| - 1], ins[|ins| - 1]);
      assert ins == rest + [i];
      hide Run, Inv, Timed, LeadExact, GreenExact, Follow;
      RunPush(rest, i);
      RunExact(rest);
      LeadExactKeeps(Run(rest), i);
      GreenExactKeeps(Run(rest), i);
    }
  }

  ghost predicate Longest(ins: seq<Input>, n: nat) {
    n <= |ins| && AllStand(ins[|ins| - n..]) && (n < |ins| ==> !Stands(ins[|ins| - n - 1]))
  }

  lemma LongestPush(ins: seq<Input>, i: Input, n: nat)
    requires Longest(ins, n)
    ensures Longest(ins + [i], if Stands(i) then n + 1 else 0)
  {
    hide Stands;
    var all := ins + [i];
    if Stands(i) {
      assert all[|all| - (n + 1)..] == ins[|ins| - n..] + [i];
      if n < |ins| { assert all[|ins| - n - 1] == ins[|ins| - n - 1]; }
    } else {
      assert all[|all| - 0..] == [];
    }
  }

  /** The stand is the longest one at the end of the drive. */
  lemma {:induction false} StandIsLongest(ins: seq<Input>)
    requires Timed(ins)
    ensures Longest(ins, |Run(ins).stand|)
    decreases |ins|
  {
    if ins != [] {
      hide Run, Inv, Timed, Follow, Stands, Longest;
      var (rest, i) := (ins[..|ins| - 1], ins[|ins| - 1]);
      assert ins == rest + [i];
      RunPush(rest, i);
      StandIsLongest(rest);
      StandGrows(Run(rest), i);
      LongestPush(rest, i, |Run(rest).stand|);
    }
  }

  /** The lead has driven off, by the ticks of the stand: seen from tick k on, away from tick c of that, and
      measured away for three tenths of a second up to now. */
  ghost predicate LeadGone(stand: seq<Input>) {
    exists k: nat, c: nat ::
      && Sees(stand, k) && (forall m: nat | Sees(stand, m) :: k <= m)
      && AwayFrom(stand[k..], c) && k + c < |stand|
      && stand[|stand| - 1].leadUpdated && stand[|stand| - 1].now - stand[k + c].now >= 0.3
  }

  ghost predicate LightTurned(stand: seq<Input>) {
    exists c: nat :: c < |stand| && OpenFrom(stand, c)
      && stand[|stand| - 1].modelUpdated && stand[|stand| - 1].modelValid
      && stand[|stand| - 1].now - stand[c].now >= 0.3
  }

  ghost predicate Ordered(stand: seq<Input>) {
    forall a, b | 0 <= a <= b < |stand| :: 0.0 <= stand[a].now <= stand[b].now
  }

  lemma SightStart(stand: seq<Input>, sight: seq<Input>, k: nat)
    requires SightIs(stand, sight) && Sees(stand, k) && forall m: nat | Sees(stand, m) :: k <= m
    ensures k < |stand| && sight == stand[k..]
  {
    hide LeadPresent;
  }

  lemma AwayIsCandidate(sight: seq<Input>, since: real, c: nat)
    requires CandidateIs(since, sight) && Ordered(sight) && AwayFrom(sight, c) && sight[|sight| - 1].leadUpdated
    ensures Far(sight, |sight| - 1) && 0.0 <= since <= sight[c].now
  {
    hide Far;
  }

  lemma CandidateIsAway(sight: seq<Input>, since: real) returns (c: nat)
    requires CandidateIs(since, sight) && since >= 0.0
    ensures c < |sight| && AwayFrom(sight, c) && sight[c].now == since
  {
    c :| c < |sight| && AwayFrom(sight, c) && sight[c].now == since && forall d: nat | AwayFrom(sight, d) :: c <= d;
  }

  lemma GoneAt(stand: seq<Input>, sight: seq<Input>, since: real, k: nat, c: nat)
    requires SightIs(stand, sight) && CandidateIs(since, sight) && Ordered(stand)
    requires Sees(stand, k) && (forall m: nat | Sees(stand, m) :: k <= m) && AwayFrom(stand[k..], c) && k + c < |stand|
    requires stand[|stand| - 1].leadUpdated
    ensures sight != [] && Far(sight, |sight| - 1) && 0.0 <= since <= stand[k + c].now
  {
    SightStart(stand, sight, k);
    hide Sees, AwayFrom, Far, CandidateIs, SightIs;
    assert sight[c] == stand[k + c] && sight[|sight| - 1] == stand[|stand| - 1];
    AwayIsCandidate(sight, since, c);
  }

  lemma GoneForward(stand: seq<Input>, sight: seq<Input>, since: real)
    requires SightIs(stand, sight) && CandidateIs(since, sight) && stand != [] && Ordered(stand) && LeadGone(stand)
    ensures var i := stand[|stand| - 1];
            sight != [] && i.leadUpdated && Far(sight, |sight| - 1) && since >= 0.0 && i.now - since >= 0.3
  {
    hide Sees, AwayFrom, Far, CandidateIs, SightIs, Ordered;
    var i := stand[|stand| - 1];
    var k: nat, c: nat :| Sees(stand, k) && (forall m: nat | Sees(stand, m) :: k <= m)
      && AwayFrom(stand[k..], c) && k + c < |stand| && i.leadUpdated && i.now - stand[k + c].now >= 0.3;
    GoneAt(stand, sight, since, k, c);
  }

  lemma GoneBack(stand: seq<Input>, sight: seq<Input>, since: real)
    requires SightIs(stand, sight) && CandidateIs(since, sight) && stand != [] && sight != [] && since >= 0.0
    requires stand[|stand| - 1].leadUpdated && stand[|stand| - 1].now - since >= 0.3
    ensures LeadGone(stand)
  {
    var c := CandidateIsAway(sight, since);
    var k: nat := |stand| - |sight|;
    hide Sees, AwayFrom, Far, CandidateIs;
    assert sight == stand[k..] && stand[k + c] == sight[c];
    assert Sees(stand, k) && AwayFrom(stand[k..], c);
  }

  /** The candidate's timer has run out exactly when the lead is gone. */
  lemma GoneByCandidate(stand: seq<Input>, sight: seq<Input>, since: real)
    requires SightIs(stand, sight) && CandidateIs(since, sight) && stand != [] && Ordered(stand)
    ensures var i := stand[|stand| - 1];
            LeadGone(stand) <==>
            sight != [] && i.leadUpdated && Far(sight, |sight| - 1) && since >= 0.0 && i.now - since >= 0.3
  {
    hide SightIs, CandidateIs, LeadGone, Far, Ordered;
    if LeadGone(stand) { GoneForward(stand, sight, since); }
    var i := stand[|stand| - 1];
    if sight != [] && i.leadUpdated && since >= 0.0 && i.now - since >= 0.3 { GoneBack(stand, sight, since); }
  }

  lemma TurnedByCandidate(stand: seq<Input>, since: real)
    requires OpenSince(since, stand) && stand != [] && Ordered(stand)
    ensures var i := stand[|stand| - 1];
            LightTurned(stand) <==>
            i.modelUpdated && i.modelValid && OpenAt(stand, |stand| - 1) && since >= 0.0 && i.now - since >= 0.3
  {
    hide OpenAt;
  }

  lemma StandOrdered(ins: seq<Input>, i: Input)
    requires Timed(ins + [i]) && Timed(ins)
    ensures Ordered(Run(ins).stand + [i])
  {
    hide Run, Timed, Inv;
    RememberedAreLast(ins);
    TimesOrdered(ins + [i]);
    SuffixPush(ins, Run(ins).stand, i);
  }

  lemma {:induction false} TimesOrdered(ins: seq<Input>)
    requires Timed(ins)
    ensures Ordered(ins)
    decreases |ins|
  {
    if ins != [] {
      TimedPrefix(ins, |ins| - 1);
      TimesOrdered(ins[..|ins| - 1]);
      var n := |ins| - 1;
      assert forall a | 0 <= a < n :: ins[..n][a] == ins[a];
      if n > 0 { assert ins[n - 1].now <= ins[n].now; }
    }
  }

  lemma LeadFound(t: Followed, i: Input)
    requires Inv(t) && i.now >= t.now && LeadExact(t) && Ordered(t.stand + [i]) && Stands(i) && !t.state.consumed
    ensures WatchLead(Settled(t.state, i), i).1 <==> LeadGone(t.stand + [i])
  {
    LeadWatched(t, i);
    CandidateSet(t, i);
    hide WatchLead, WatchGreen, Inv, LeadExact, Far, SightIs, CandidateIs, LeadGone, Settled, Ordered;
    var l := WatchLead(Settled(t.state, i), i).0;
    GoneByCandidate(t.stand + [i], if l.seenSince >= 0.0 then t.sight + [i] else [], l.candidateSince);
  }

  lemma LightFound(t: Followed, i: Input)
    requires Inv(t) && i.now >= t.now && GreenExact(t) && Ordered(t.stand + [i]) && Stands(i) && !t.state.consumed
    ensures WatchGreen(Settled(t.state, i), i).1 <==> LightTurned(t.stand + [i])
  {
    GreenWatched(t, i);
    CandidateSet(t, i);
    hide WatchLead, WatchGreen, Inv, GreenExact, OpenAt, OpenSince, LightTurned, Settled, Ordered;
    TurnedByCandidate(t.stand + [i], WatchGreen(Settled(t.state, i), i).0.candidateSince);
  }

  /** Exactly when an alert is raised: the car stands, none was raised in this cycle, and by the ticks of the stand
      the lead is gone, or else the light has turned. */
  lemma AlertExactly(ins: seq<Input>, i: Input)
    requires Timed(ins + [i]) && Timed(ins)
    ensures var (t, stand) := (Run(ins), Run(ins).stand + [i]);
            Raised(t.state, i) == if !Stands(i) || t.state.consumed then NoAlert
                                  else if LeadGone(stand) then LeadDeparted
                                  else if LightTurned(stand) then GreenLight
                                  else NoAlert
  {
    hide Run, Timed, WatchLead, WatchGreen, LeadExact, GreenExact, Stands, LeadGone, LightTurned, Ordered;
    RunPush(ins, i);
    RunExact(ins);
    StandOrdered(ins, i);
    var t := Run(ins);
    SettledStands(t, i);
    if Stands(i) && !t.state.consumed {
      LeadFound(t, i);
      LightFound(t, i);
    }
    StandingSpends(t.state, i);
    hide Inv;
  }

  lemma StandingSpends(s: State, i: Input)
    ensures Stands(i) ==> Settled(s, i).consumed == s.consumed
  {}

  /** A tick that finds something has set the candidate's time. */
  lemma CandidateSet(t: Followed, i: Input)
    requires Inv(t) && i.now >= t.now
    ensures var s := Settled(t.state, i);
            var (a, b) := (WatchLead(s, i), WatchGreen(s, i));
            (a.1 ==> a.0.candidateSince >= 0.0) && (b.1 ==> b.0.candidateSince >= 0.0)
  {}

  /** An alert is raised on tick a. */
  ghost predicate RaisedAt(ins: seq<Input>, a: nat)
    requires Timed(ins) && a < |ins|
  {
    Raised(RunAt(ins, a).state, ins[a]) != NoAlert
  }

  /** On tick a, and the cycle has not started over since. */
  ghost predicate SpentSince(ins: seq<Input>, a: nat, n: nat)
    requires Timed(ins) && n <= |ins|
  {
    a < n && RaisedAt(ins, a) && forall m | a < m < n :: !Resets(ins[m])
  }

  lemma StepSpends(t: Followed, i: Input)
    requires Inv(t) && i.now >= t.now
    ensures Follow(t, i).state.consumed <==> Raised(t.state, i) != NoAlert || (t.state.consumed && !Resets(i))
  {
    hide WatchLead, WatchGreen;
  }

  lemma SpentStep(ins: seq<Input>, n: nat, next: nat, before: bool, after: bool)
    requires Timed(ins) && next == n + 1 <= |ins| && (before <==> exists a: nat :: SpentSince(ins, a, n))
    requires after <==> Raised(RunAt(ins, n).state, ins[n]) != NoAlert || (before && !Resets(ins[n]))
    ensures after <==> exists a: nat :: SpentSince(ins, a, next)
  {
    hide Timed, Raised, Resets, RunAt, SpentSince;
    SpentInside(ins, n);
    SpentInside(ins, next);
    forall a: nat | SpentSince(ins, a, next) ensures after { SpentPush(ins, a, n); }
    if Raised(RunAt(ins, n).state, ins[n]) != NoAlert {
      RaisedSpends(ins, n);
    } else if after {
      var a: nat :| SpentSince(ins, a, n);
      SpentPush(ins, a, n);
      assert SpentSince(ins, a, next);
    }
  }

  lemma SpentInside(ins: seq<Input>, n: nat)
    requires Timed(ins) && n <= |ins|
    ensures forall a: nat | SpentSince(ins, a, n) :: a < n
  {
    hide Raised, RunAt, Timed, Resets;
  }

  lemma NothingSpent(ins: seq<Input>)
    requires Timed(ins)
    ensures !RunAt(ins, 0).state.consumed
    ensures !exists a: nat :: SpentSince(ins, a, 0)
  {
    SpentInside(ins, 0);
    hide SpentSince, Timed;
    assert ins[..0] == [];
  }

  /** No further alert is to come exactly when one was raised in this cycle. */
  lemma {:induction false} SpentExactly(ins: seq<Input>, n: nat)
    requires Timed(ins) && n <= |ins|
    ensures RunAt(ins, n).state.consumed <==> exists a: nat :: SpentSince(ins, a, n)
    decreases n
  {
    hide Timed, Raised, Follow, Resets, Inv, RunAt, SpentSince;
    if n == 0 {
      NothingSpent(ins);
    } else {
      SpentExactly(ins, n - 1);
      RunAtNext(ins, n - 1);
      StepSpends(RunAt(ins, n - 1), ins[n - 1]);
      SpentStep(ins, n - 1, n, RunAt(ins, n - 1).state.consumed, RunAt(ins, n).state.consumed);
    }
  }

  lemma RaisedSpends(ins: seq<Input>, n: nat)
    requires Timed(ins) && n < |ins| && Raised(RunAt(ins, n).state, ins[n]) != NoAlert
    ensures SpentSince(ins, n, n + 1)
  {
    hide Raised, RunAt, Timed;
  }

  lemma SpentPush(ins: seq<Input>, a: nat, n: nat)
    requires Timed(ins) && n < |ins|
    ensures SpentSince(ins, a, n + 1) <==>
            if a < n then SpentSince(ins, a, n) && !Resets(ins[n])
            else a == n && Raised(RunAt(ins, n).state, ins[n]) != NoAlert
  {
    hide Raised, RunAt, Timed, Resets;
  }

  lemma StepShows(s: State, i: Input)
    ensures var (x, y) := (s.shown, Step(s, i).shown);
            if Raised(s, i) != NoAlert
            then y.alert == Raised(s, i) && y.until == i.now + 3.0
                 && y.eventId != x.eventId && 1 <= y.eventId < 0x1_0000_0000
            else y.until == x.until && y.eventId == x.eventId
                 && y.alert == (if i.now < x.until then x.alert else NoAlert)
    requires s.shown.alert == NoAlert || s.shown.until >= 0.0
    requires 0 <= s.shown.eventId < 0x1_0000_0000
  {
    hide WatchLead, WatchGreen;
  }

  /** Tick a is the last before n that raised an alert, -1 for none, and this is what is shown. */
  ghost predicate ShownIs(ins: seq<Input>, n: nat, a: int, x: Shown)
    requires Timed(ins) && n <= |ins|
  {
    && -1 <= a < n && (forall m: nat | a < m < n :: !RaisedAt(ins, m)) && 0 <= x.eventId < 0x1_0000_0000
    && (if a == -1 then x.alert == NoAlert
        else RaisedAt(ins, a) && x.until == ins[a].now + 3.0 && x.eventId != 0
             && x.alert == (if ins[n - 1].now < ins[a].now + 3.0 then Raised(RunAt(ins, a).state, ins[a]) else NoAlert))
  }

  lemma ShownPush(ins: seq<Input>, n: nat, a: int, x: Shown, y: Shown)
    requires Timed(ins) && n < |ins| && Ordered(ins) && ShownIs(ins, n, a, x)
    requires var alert := Raised(RunAt(ins, n).state, ins[n]);
             if alert != NoAlert
             then y.alert == alert && y.until == ins[n].now + 3.0
                  && y.eventId != x.eventId && 1 <= y.eventId < 0x1_0000_0000
             else y.until == x.until && y.eventId == x.eventId
                  && y.alert == (if ins[n].now < x.until then x.alert else NoAlert)
    ensures ShownIs(ins, n + 1, if RaisedAt(ins, n) then n else a, y)
  {
    hide Raised, RunAt, Timed;
  }

  /** The alert shown after a drive is the last one raised, for three seconds from its tick, and otherwise none;
      each one has a number of its own. */
  lemma {:induction false} ShownForThreeSeconds(ins: seq<Input>, n: nat) returns (a: int)
    requires Timed(ins) && n <= |ins|
    ensures ShownIs(ins, n, a, RunAt(ins, n).state.shown)
    decreases n
  {
    hide Raised, Follow, Inv, RunAt, Timed, Ordered, ShownIs, RaisedAt;
    if n == 0 {
      ShownAtFirst(ins);
      return -1;
    }
    a := ShownForThreeSeconds(ins, n - 1);
    TimesOrdered(ins);
    var (t, i) := (RunAt(ins, n - 1), ins[n - 1]);
    ShownBefore(ins, n - 1, a, t.state.shown);
    RunAtNext(ins, n - 1);
    ShownStep(t, i);
    ShownPush(ins, n - 1, a, t.state.shown, RunAt(ins, n).state.shown);
    if RaisedAt(ins, n - 1) { a := n - 1; }
  }

  lemma ShownAtFirst(ins: seq<Input>)
    requires Timed(ins)
    ensures ShownIs(ins, 0, -1, RunAt(ins, 0).state.shown)
  {
    assert ins[..0] == [];
  }

  lemma ShownBefore(ins: seq<Input>, n: nat, a: int, x: Shown)
    requires Timed(ins) && n < |ins| && Ordered(ins) && ShownIs(ins, n, a, x)
    ensures 0.0 <= ins[n].now && (x.alert == NoAlert || x.until >= 0.0) && 0 <= x.eventId < 0x1_0000_0000
  {
    hide Raised, RunAt, Timed;
  }

  lemma ShownStep(t: Followed, i: Input)
    requires i.now >= 0.0 && (t.state.shown.alert == NoAlert || t.state.shown.until >= 0.0)
    requires 0 <= t.state.shown.eventId < 0x1_0000_0000
    ensures var (x, y) := (t.state.shown, Follow(t, i).state.shown);
            if Raised(t.state, i) != NoAlert
            then y.alert == Raised(t.state, i) && y.until == i.now + 3.0
                 && y.eventId != x.eventId && 1 <= y.eventId < 0x1_0000_0000
            else y.until == x.until && y.eventId == x.eventId
                 && y.alert == (if i.now < x.until then x.alert else NoAlert)
  {
    StepShows(t.state, i);
    hide Step, Raised;
  }


  // ---- In place

  class Detector {
    var consumed: bool
    var stoppedSince: real
    var lead: Lead
    var green: Green
    var shown: Shown

    ghost function View(): State
      reads this
    {
      State(consumed, stoppedSince, lead, green, shown)
    }

    constructor ()
      ensures View() == INITIAL
    {
      consumed, stoppedSince, lead, green, shown := false, UNSET, NO_LEAD, NO_GREEN, INITIAL.shown;
    }

    method ResetCycle()
      modifies this
      ensures View() == old(View()).(consumed := false, stoppedSince := UNSET, lead := NO_LEAD, green := NO_GREEN)
    {
      consumed, stoppedSince, lead, green := false, UNSET, NO_LEAD, NO_GREEN;
    }

    method TriggerAlert(alert: Alert, now: real)
      modifies this
      ensures View() == Trigger(old(View()), alert, now)
    {
      consumed := true;
      shown := Shown(alert, now + DISPLAY_S, (shown.eventId + 1) % ID_LIMIT);
      if shown.eventId == 0 { shown := shown.(eventId := 1); }
      lead, green := NO_LEAD, NO_GREEN;
    }

    method LookForLead(i: Input) returns (departed: bool)
      modifies this`lead
      ensures (lead, departed) == WatchLead(old(View()), i)
    {
      departed := false;
      if !LeadPresent(i) {
        lead := NO_LEAD;
      } else if Elapsed(i.now, stoppedSince, MINIMUM_STOP_S) && i.leadUpdated {
        var d := i.leadDistance.v;
        if lead.seenSince < 0.0 {
          lead := lead.(seenSince := i.now, baseline := d);
        } else {
          lead := lead.(baseline := MinReal(lead.baseline, d));
        }
        lead := lead.(armed := Elapsed(i.now, lead.seenSince, LEAD_ARM_S));
        if lead.armed && d - lead.baseline > LEAD_CHANGE_M && Above(i.leadSpeed, LEAD_SPEED_MPS) {
          if lead.candidateSince < 0.0 { lead := lead.(candidateSince := i.now); }
          departed := Elapsed(i.now, lead.candidateSince, LEAD_CONFIRM_S);
        } else {
          lead := lead.(candidateSince := UNSET);
        }
      }
    }

    method LookForGreen(i: Input) returns (turned: bool)
      modifies this`green
      ensures (green, turned) == WatchGreen(old(View()), i)
    {
      turned := false;
      if i.modelUpdated && i.modelValid {
        if !green.armed {
          green := green.(armed := PlansToStop(i) && Elapsed(i.now, stoppedSince, SIGNAL_STOP_S));
        }
        if green.armed && Above(i.planDistance, PLAN_OPEN_M) {
          if green.candidateSince < 0.0 { green := green.(candidateSince := i.now); }
          turned := Elapsed(i.now, green.candidateSince, GREEN_CONFIRM_S);
        } else {
          green := green.(candidateSince := UNSET);
        }
      }
    }

    method Update(i: Input)
      modifies this
      ensures View() == Step(old(View()), i)
    {
      hide WatchLead, WatchGreen;
      if shown.alert != NoAlert && i.now >= shown.until { shown := shown.(alert := NoAlert); }
      if Resets(i) {
        ResetCycle();
      } else if i.speed.v <= STOPPED_MPS {
        if stoppedSince < 0.0 { stoppedSince := i.now; }
      } else {
        stoppedSince, lead, green := UNSET, NO_LEAD, NO_GREEN;
      }
      assert View() == Settled(old(View()), i);
      if stoppedSince >= 0.0 && !consumed {
        LeadThenGreen(View(), i);
        var departed := LookForLead(i);
        var turned := LookForGreen(i);
        if departed {
          TriggerAlert(LeadDeparted, i.now);
        } else if turned {
          TriggerAlert(GreenLight, i.now);
        }
      }
    }
  }

  /** The two watches do not look at each other's state. */
  lemma LeadThenGreen(s: State, i: Input)
    ensures WatchGreen(s.(lead := WatchLead(s, i).0), i) == WatchGreen(s, i)
  {}
}
