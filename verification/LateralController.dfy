/** The lateral controller tick: buttons, engage handshake with the panda, block reasons, the
    steer-request cut, the torque ramp above the MDPS fault angle, and the torque limiter.

    The torque controller's own output enters as an arbitrary input, as do the clock and the
    freshness of the vehicle signals. Frame building is in Lkas11Frame, Clu11Frame and Mdps12Frame. */
module LateralController {
  import opened Rounding

  const BUTTON_SET: int := 2
  const BUTTON_CANCEL: int := 4
  const GEAR_DRIVE: int := 5
  const ENGAGE_GRACE_S: real := 1.0
  const PATH_RETURN_S: real := 0.5

  datatype BlockKind = Clear | Reject | Hard | Transient | Availability

  datatype BlockReason =
    | NotBlocked | NotEngaged | ControllerDisabled | SeedsMissing | VehicleStateStale | SpeedInvalid
    | DoorOpen | SeatbeltUnlatched | EspDisabled | ParkBrake | BrakeError | GearNotDrive | MdpsFault
    | ParamsdInvalid | PandaNotReady | PandaControlsOff | EspStale | YawRateInvalid | Stopped
    | PathInvalid | LateralPlanInvalid | LateralPlanStale

  function Kind(r: BlockReason): BlockKind {
    match r
    case NotBlocked => Clear
    case ControllerDisabled | DoorOpen | SeatbeltUnlatched | EspDisabled | ParkBrake | BrakeError
       | GearNotDrive | MdpsFault | ParamsdInvalid => Hard
    case PandaNotReady | PandaControlsOff => Transient
    case Stopped | PathInvalid => Availability
    case _ => Reject
  }

  datatype Limits = Limits(
    steerMax: int, deltaUp: int, deltaDown: int,
    driverAllowance: int, driverMultiplier: int, driverFactor: int)

  datatype Config = Config(
    forceEngaged: bool, enabled: bool, limits: Limits,
    avoidFault: bool, maxAngle: real, maxFrames: int, cutFrames: int,
    useAngle: bool, useLiveVehicle: bool, minSteerSpeed: real,
    modelTimeout: real, driverTorqueThreshold: int)

  /** One 10 ms tick's inputs. `rawTorque` is what the torque controller returned. */
  datatype Input = Input(
    button: int, now: real,
    pathUsable: bool, targetValid: bool, mpcValid: bool, hasCapture: bool, planAge: real,
    seedsReady: bool, vehicleFresh: bool, espFresh: bool, yawValid: bool,
    speedFinite: bool, speedKph: real,
    doorOpen: bool, seatbeltUnlatched: bool, espDisabled: bool, parkBrake: bool, brakeError: bool,
    gear: int, steeringFault: bool, liveVehicleSeen: bool, liveVehicleValid: bool, liveCalibrated: bool,
    pandaReady: bool, pandaAllowed: bool,
    angle: real, driverTorque: int, mdpsErrorCount: int, rawTorque: int)

  /** Engagement and the handshake with the panda. */
  datatype Engage = Engage(engaged: bool, lastButton: int, pending: bool, pendingSince: real, lastDisengage: real)

  /** The debounce of the path's validity. */
  datatype PathState = PathState(validSince: real, usable: bool, seenInvalid: bool)

  /** The two counters above the fault angle, and the cut of the steer request. */
  datatype Guard = Guard(angleCounter: nat, faultFrames: nat, cutCount: nat, cut: bool)

  datatype State = State(engage: Engage, path: PathState, guard: Guard, lastTorque: int, driverTimer: int)

  const CLEAR_GUARD := Guard(0, 0, 0, false)
  const INITIAL := State(Engage(false, 0, false, -1000.0, -1000.0), PathState(-1.0, false, false), CLEAR_GUARD, 0, 100)

  datatype Result = Result(
    engaged: bool, active: bool, rejected: bool, reset: bool, reason: BlockReason,
    hold: bool, cut: bool, desired: int, torque: int)

  // ---- What one tick does, as a function

  function Disengage(e: Engage, now: real): Engage {
    e.(pending := false, engaged := false, lastDisengage := now)
  }

  predicate Cancels(e: Engage, button: int) { button != e.lastButton && button == BUTTON_CANCEL }

  predicate SetReleased(e: Engage, button: int) { button == 0 && e.lastButton == BUTTON_SET }

  function PressButtons(e: Engage, button: int, now: real): Engage {
    var t := if Cancels(e, button) then Disengage(e, now)
             else if SetReleased(e, button) then e.(engaged := true)
             else e;
    t.(lastButton := button)
  }

  function DebouncePath(p: PathState, usable: bool, now: real): PathState {
    if !usable then PathState(-1.0, false, true)
    else if p.usable then p
    else
      var since := if p.validSince < 0.0 then now else p.validSince;
      PathState(since, !p.seenInvalid || now - since >= PATH_RETURN_S, p.seenInvalid)
  }

  function Reason(c: Config, engaged: bool, pathUsable: bool, i: Input): BlockReason {
    if !c.forceEngaged && !engaged then NotEngaged
    else if !c.enabled then ControllerDisabled
    else if !i.seedsReady then SeedsMissing
    else if !i.vehicleFresh then VehicleStateStale
    else if !i.speedFinite then SpeedInvalid
    else if i.doorOpen then DoorOpen
    else if i.seatbeltUnlatched then SeatbeltUnlatched
    else if i.espDisabled then EspDisabled
    else if i.parkBrake then ParkBrake
    else if i.brakeError then BrakeError
    else if i.gear != GEAR_DRIVE then GearNotDrive
    else if i.steeringFault then MdpsFault
    else if c.useLiveVehicle && i.liveVehicleSeen && !i.liveVehicleValid && i.liveCalibrated then ParamsdInvalid
    else if !i.pandaReady then PandaNotReady
    else if !i.pandaAllowed then PandaControlsOff
    else if !c.useAngle && !i.espFresh then EspStale
    else if !c.useAngle && !i.yawValid then YawRateInvalid
    else if !pathUsable then
      (if i.speedKph / 3.6 < c.minSteerSpeed then Stopped else PathInvalid)
    else if !i.targetValid || !i.mpcValid then LateralPlanInvalid
    else if i.hasCapture && i.planAge > c.modelTimeout then LateralPlanStale
    else NotBlocked
  }

  /** `requested` says that this tick released SET while disengaged. The second result says that
      the request was rejected. */
  function Handshake(c: Config, e: Engage, requested: bool, kind: BlockKind, now: real): (Engage, bool) {
    var e1 := if (c.forceEngaged || e.engaged) && kind == Hard then Disengage(e, now) else e;
    var e2 := if !requested then e1
              else if kind == Transient then e1.(pending := true, pendingSince := now)
              else e1.(pending := false);
    var refused := requested && (kind == Hard || kind == Reject);
    var e3 := if refused then Disengage(e2, now) else e2;
    if !e3.pending then (e3, refused)
    else if kind == Clear || kind == Availability then (e3.(pending := false), refused)
    else if kind != Transient || now - e3.pendingSince >= ENGAGE_GRACE_S then (Disengage(e3, now), true)
    else (e3, refused)
  }

  predicate AboveAngle(c: Config, i: Input) { Abs(i.angle) >= c.maxAngle }

  function CutSteer(c: Config, g: Guard, active: bool, i: Input): Guard {
    var counter := if c.avoidFault && active && AboveAngle(c, i) then g.angleCounter + 1 else 0;
    var over := if c.avoidFault then counter > c.maxFrames else i.mdpsErrorCount > c.maxFrames;
    var ended := !over && g.cutCount >= Max(1, c.cutFrames);
    var cut := over || (g.cut && !ended);
    var count := if ended then 0 else g.cutCount;
    if cut then g.(angleCounter := 0, cutCount := count + 1, cut := true)
    else g.(angleCounter := counter, cutCount := count, cut := false)
  }

  function RampFrames(c: Config): (r: int)
    ensures r > 0
  {
    Max(1, c.maxFrames - 20)
  }

  /** How much torque is left after `frames` frames above the fault angle. */
  function AngleScale(ramp: int, frames: int): (r: real)
    requires ramp > 0
    ensures 0.0 <= r <= 1.0
  {
    ClampReal(1.0 - frames as real / ramp as real, 0.0, 1.0)
  }

  function DriverScale(timer: int): (r: real)
    ensures 0.0 <= r <= 1.0
  {
    if 0 <= timer < 100 then ClampReal(timer as real / 100.0, 0.0, 1.0) else 1.0
  }

  /** The share of the torque that a tick may ask for. */
  function Share(c: Config, faultFrames: int, i: Input): (r: real)
    ensures 0.0 <= r <= 1.0
  {
    if c.avoidFault && AboveAngle(c, i) then AngleScale(RampFrames(c), faultFrames) else 1.0
  }

  function Part(max: int, share: real): int { Lround(Prod(max as real, share)) }

  function Fade(raw: int, driver: real, share: real): int {
    Lround(Prod(Prod(raw as real, driver), share))
  }

  function Desired(c: Config, faultFrames: int, driverTimer: int, i: Input): int {
    Fade(i.rawTorque, DriverScale(driverTimer), Share(c, faultFrames, i))
  }

  function DriverClamp(desired: int, driverTorque: int, l: Limits): int {
    var hi := l.steerMax + (l.driverAllowance + driverTorque * l.driverFactor) * l.driverMultiplier;
    var lo := -l.steerMax + (-l.driverAllowance + driverTorque * l.driverFactor) * l.driverMultiplier;
    Clamp(desired, Min(Max(-l.steerMax, lo), 0), Max(Min(l.steerMax, hi), 0))
  }

  function RateClamp(wanted: int, last: int, l: Limits): int {
    if last > 0 then Clamp(wanted, Max(last - l.deltaDown, -l.deltaUp), last + l.deltaUp)
    else Clamp(wanted, last - l.deltaUp, Min(last + l.deltaDown, l.deltaUp))
  }

  function LimitTorque(desired: int, last: int, driverTorque: int, l: Limits): int {
    RateClamp(DriverClamp(desired, driverTorque, l), last, l)
  }

  function DriverGuard(c: Config, timer: int, i: Input): int {
    if AbsInt(i.driverTorque) > c.driverTorqueThreshold then Max(0, timer - 1) else Min(100, timer + 5)
  }

  predicate Requested(c: Config, e: Engage, i: Input) {
    !c.forceEngaged && !e.engaged && SetReleased(e, i.button)
  }

  /** Buttons, path, block reason and handshake. `logical` is the engagement the reason was taken
      with, `reset` says that the control state was cleared. */
  datatype Gates = Gates(
    engage: Engage, path: PathState, logical: bool, reason: BlockReason, rejected: bool, reset: bool)

  function PassGates(c: Config, s: State, i: Input): Gates {
    var pressed := PressButtons(s.engage, i.button, i.now);
    var path := DebouncePath(s.path, i.pathUsable, i.now);
    var reason := Reason(c, pressed.engaged, path.usable, i);
    var logical := c.forceEngaged || pressed.engaged;
    var (engage, rejected) := Handshake(c, pressed, Requested(c, s.engage, i), Kind(reason), i.now);
    Gates(engage, path, logical, reason, rejected,
          Cancels(s.engage, i.button) || (logical && Kind(reason) == Hard) || rejected)
  }

  /** Everything in a tick up to the torque request. */
  datatype Decision = Decision(
    engage: Engage, path: PathState, guard: Guard,
    engaged: bool, active: bool, rejected: bool, reset: bool, reason: BlockReason, hold: bool)

  function Decide(c: Config, s: State, i: Input): Decision {
    var g := PassGates(c, s, i);
    var kind := Kind(g.reason);
    var active := kind == Clear;
    var cut := CutSteer(c, if g.reset then CLEAR_GUARD else s.guard, active, i);
    var above := active && c.avoidFault && AboveAngle(c, i);
    Decision(g.engage, g.path, cut.(faultFrames := if above then cut.faultFrames + 1 else 0),
             if g.rejected || (g.logical && kind == Hard) then c.forceEngaged else g.logical,
             active, g.rejected, g.reset, g.reason,
             g.logical && !active && (kind == Availability || g.reason == LateralPlanInvalid))
  }

  /** One tick. */
  function Step(c: Config, s: State, i: Input): (State, Result) {
    var d := Decide(c, s, i);
    var (last, timer) := if d.reset then (0, 100) else (s.lastTorque, s.driverTimer);
    var desired := if d.active then Desired(c, d.guard.faultFrames, timer, i) else 0;
    var torque := if d.active then LimitTorque(desired, last, i.driverTorque, c.limits) else 0;
    (State(d.engage, d.path, d.guard, torque, DriverGuard(c, timer, i)),
     Result(d.engaged, d.active, d.rejected, d.reset, d.reason, d.hold, d.guard.cut, desired, torque))
  }

  // ---- Runs

  /** The state before tick k. */
  function At(c: Config, s: State, ins: seq<Input>, k: nat): State
    requires k <= |ins|
  {
    if k == 0 then s else Step(c, At(c, s, ins, k - 1), ins[k - 1]).0
  }

  /** What tick k gives out. */
  function Out(c: Config, s: State, ins: seq<Input>, k: nat): Result
    requires k < |ins|
  {
    Step(c, At(c, s, ins, k), ins[k]).1
  }

  /** The limits make sense, and the torque controller stays within its own range. */
  predicate Sane(c: Config, ins: seq<Input>) {
    && c.limits.steerMax >= 0 && c.limits.deltaUp >= 0 && c.limits.deltaDown >= 0
    && forall i <- ins :: AbsInt(i.rawTorque) <= c.limits.steerMax
  }

  // ---- The limiter

  /** One limited step goes no further from zero than the request, except that a larger torque is
      brought down by at most deltaDown. */
  lemma LimitBound(desired: int, last: int, driver: int, l: Limits)
    requires l.steerMax >= 0 && l.deltaUp >= 0 && l.deltaDown >= 0
    ensures var t := LimitTorque(desired, last, driver, l);
      && AbsInt(DriverClamp(desired, driver, l)) <= Min(l.steerMax, AbsInt(desired))
      && AbsInt(t) <= Max(AbsInt(desired), AbsInt(last) - l.deltaDown)
      && AbsInt(t) <= Max(l.steerMax, AbsInt(last))
      && AbsInt(t) <= AbsInt(last) + l.deltaUp
      && ((t >= 0 && last > 0) || (t <= 0 && last < 0) ==> AbsInt(t) >= AbsInt(last) - l.deltaDown)
  {
  }

  lemma RoundedBound(raw: int, max: int, d: real, scale: real)
    requires AbsInt(raw) <= max && 0.0 <= d <= 1.0 && 0.0 <= scale
    ensures AbsInt(Fade(raw, d, scale)) <= Part(max, scale)
  {
    hide Prod, Lround;
    FadedBound(raw as real, max as real, d, scale);
  }

  lemma FadedBound(r: real, m: real, d: real, scale: real)
    requires -m <= r <= m && 0.0 <= d <= 1.0 && 0.0 <= scale
    ensures AbsInt(Lround(Prod(Prod(r, d), scale))) <= Lround(Prod(m, scale))
  {
    ShrinkWithin(r, m, d);
    ScaleWithin(Prod(r, d), m, scale);
    assert Prod(Prod(r, d), scale) == Prod(r, d) * scale && Prod(m, scale) == m * scale;
    hide Lround, AbsInt, Prod;
    LroundWithin(Prod(Prod(r, d), scale), Prod(m, scale));
  }

  lemma DesiredBound(c: Config, faultFrames: int, timer: int, i: Input)
    requires AbsInt(i.rawTorque) <= c.limits.steerMax
    ensures AbsInt(Desired(c, faultFrames, timer, i)) <= Part(c.limits.steerMax, Share(c, faultFrames, i))
  {
    hide Part, Fade;
    RoundedBound(i.rawTorque, c.limits.steerMax, DriverScale(timer), Share(c, faultFrames, i));
  }

  /** An active tick was not reset. */
  lemma ActiveTick(c: Config, t: State, i: Input)
    requires Decide(c, t, i).active && !c.forceEngaged
    ensures !Decide(c, t, i).reset
  {
    hide CutSteer, AboveAngle;
  }

  /** What the limiter promises of one tick's torque, given the one before. */
  predicate TorqueOk(c: Config, last: int, r: Result) {
    && AbsInt(r.torque) <= c.limits.steerMax
    && (r.torque != 0 ==> r.active)
    && AbsInt(r.torque) <= AbsInt(last) + c.limits.deltaUp
    && (r.active && ((r.torque >= 0 && last > 0) || (r.torque <= 0 && last < 0)) ==>
          AbsInt(r.torque) >= AbsInt(last) - c.limits.deltaDown)
  }

  lemma TorqueTick(c: Config, t: State, i: Input)
    requires c.limits.steerMax >= 0 && c.limits.deltaUp >= 0 && c.limits.deltaDown >= 0
    requires AbsInt(t.lastTorque) <= c.limits.steerMax && !c.forceEngaged
    ensures TorqueOk(c, t.lastTorque, Step(c, t, i).1)
    ensures Step(c, t, i).1.torque == Step(c, t, i).0.lastTorque
  {
    var d := Decide(c, t, i);
    if d.active {
      ActiveTick(c, t, i);
      LimitBound(Desired(c, d.guard.faultFrames, t.driverTimer, i), t.lastTorque, i.driverTorque, c.limits);
    }
  }

  lemma {:induction false} LastTorqueBounded(c: Config, s: State, ins: seq<Input>, k: nat)
    requires Sane(c, ins) && k <= |ins| && !c.forceEngaged
    requires AbsInt(s.lastTorque) <= c.limits.steerMax
    ensures AbsInt(At(c, s, ins, k).lastTorque) <= c.limits.steerMax
  {
    hide Step;
    if k > 0 {
      LastTorqueBounded(c, s, ins, k - 1);
      TorqueTick(c, At(c, s, ins, k - 1), ins[k - 1]);
    }
  }

  /** Over every run the applied torque stays within steerMax, is zero unless active, grows by at
      most deltaUp a tick, and while active a fall that keeps the sign is at most deltaDown. */
  lemma TorqueStaysLimited(c: Config, s: State, ins: seq<Input>, k: nat)
    requires Sane(c, ins) && k < |ins| && !c.forceEngaged
    requires AbsInt(s.lastTorque) <= c.limits.steerMax
    ensures TorqueOk(c, At(c, s, ins, k).lastTorque, Out(c, s, ins, k))
    ensures k > 0 ==> At(c, s, ins, k).lastTorque == Out(c, s, ins, k - 1).torque
  {
    hide Step;
    LastTorqueBounded(c, s, ins, k);
    TorqueTick(c, At(c, s, ins, k), ins[k]);
    if k > 0 {
      LastTorqueBounded(c, s, ins, k - 1);
      TorqueTick(c, At(c, s, ins, k - 1), ins[k - 1]);
    }
  }

  // ---- The cut of the steer request

  /** Fault avoidance by angle, with a limit of at least one frame. */
  predicate Avoids(c: Config) { c.avoidFault && c.maxFrames >= 1 && !c.forceEngaged }

  /** What both counters keep to. */
  predicate CutInv(c: Config, g: Guard) {
    && g.angleCounter <= Min(c.maxFrames, g.faultFrames)
    && (if g.cut then 1 <= g.cutCount <= Max(1, c.cutFrames) && g.angleCounter == 0 else g.cutCount == 0)
  }

  /** What a tick does to the two counters and the cut. `above` says that it was active above the angle. */
  predicate CutTick(c: Config, g: Guard, g': Guard, reset: bool, above: bool) {
    && CutInv(c, g')
    && (!g.cut ==> (g'.cut <==> above && g.angleCounter == c.maxFrames))
    && (g'.cut && !g.cut ==> g'.cutCount == 1 && g'.faultFrames > c.maxFrames)
    && (g.cut && !reset && g.cutCount < Max(1, c.cutFrames) ==> g'.cut && g'.cutCount == g.cutCount + 1)
    && (g.cut && g.cutCount >= Max(1, c.cutFrames) ==> !g'.cut)
    && g'.faultFrames == (if above then g.faultFrames + 1 else 0)
    && g'.angleCounter == (if above && !g'.cut then g.angleCounter + 1 else 0)
  }

  lemma DecideCut(c: Config, t: State, i: Input)
    requires Avoids(c) && CutInv(c, t.guard)
    ensures var d := Decide(c, t, i); CutTick(c, t.guard, d.guard, d.reset, d.active && AboveAngle(c, i))
  {
    hide AboveAngle, Handshake, Reason, PressButtons;
    if Decide(c, t, i).active { ActiveTick(c, t, i); }
  }

  predicate UpThere(c: Config, s: State, ins: seq<Input>, k: nat)
    requires k < |ins|
  {
    Out(c, s, ins, k).active && AboveAngle(c, ins[k])
  }

  predicate CutTickAt(c: Config, s: State, ins: seq<Input>, k: nat)
    requires k < |ins|
  {
    var (g, g', r) := (At(c, s, ins, k).guard, At(c, s, ins, k + 1).guard, Out(c, s, ins, k));
    CutTick(c, g, g', r.reset, UpThere(c, s, ins, k)) && g'.cut == r.cut
  }

  lemma {:induction false} CutHolds(c: Config, s: State, ins: seq<Input>, k: nat)
    requires Avoids(c) && s == INITIAL && k <= |ins|
    ensures CutInv(c, At(c, s, ins, k).guard)
    ensures k < |ins| ==> CutTickAt(c, s, ins, k)
  {
    hide Decide, AboveAngle, Desired, LimitTorque;
    if k > 0 { CutHolds(c, s, ins, k - 1); }
    if k < |ins| { DecideCut(c, At(c, s, ins, k), ins[k]); }
  }

  /** A cut begins on this tick. */
  predicate CutBegins(c: Config, s: State, ins: seq<Input>, k: nat)
    requires k < |ins|
  {
    Out(c, s, ins, k).cut && (k > 0 ==> !Out(c, s, ins, k - 1).cut)
  }

  /** The ticks from a up to b are active, above the angle and not cut. */
  predicate HeldUncut(c: Config, s: State, ins: seq<Input>, a: nat, b: nat)
    requires b <= |ins|
  {
    forall j | a <= j < b :: UpThere(c, s, ins, j) && !Out(c, s, ins, j).cut
  }

  /** No more than maxFrames ticks in a row are active, above the angle and not cut. */
  lemma {:induction false} UncutStretch(c: Config, s: State, ins: seq<Input>, a: nat, b: nat)
    requires Avoids(c) && s == INITIAL && a <= b <= |ins| && HeldUncut(c, s, ins, a, b)
    ensures b - a <= At(c, s, ins, b).guard.angleCounter <= c.maxFrames
  {
    hide Step, UpThere;
    CutHolds(c, s, ins, b);
    if a < b {
      UncutStretch(c, s, ins, a, b - 1);
      CutHolds(c, s, ins, b - 1);
      assert UpThere(c, s, ins, b - 1);
    }
  }

  /** The counter is the length of a stretch of such ticks that has just ended. */
  lemma {:induction false} CounterCounts(c: Config, s: State, ins: seq<Input>, k: nat)
    requires Avoids(c) && s == INITIAL && k <= |ins|
    ensures var m := At(c, s, ins, k).guard.angleCounter; m <= k && HeldUncut(c, s, ins, k - m, k)
  {
    hide Step, UpThere;
    if k > 0 {
      CounterCounts(c, s, ins, k - 1);
      CutHolds(c, s, ins, k - 1);
    }
  }

  lemma CutBefore(c: Config, s: State, ins: seq<Input>, k: nat)
    requires Avoids(c) && s == INITIAL && k < |ins|
    ensures CutBegins(c, s, ins, k) <==> Out(c, s, ins, k).cut && !At(c, s, ins, k).guard.cut
  {
    hide Step;
    if k > 0 { CutHolds(c, s, ins, k - 1); }
  }

  /** A cut begins on exactly those ticks that are held active above the angle and come after maxFrames
      uncut ones that were. */
  lemma CutBeginsExactly(c: Config, s: State, ins: seq<Input>, k: nat)
    requires Avoids(c) && s == INITIAL && k < |ins|
    ensures CutBegins(c, s, ins, k) <==>
            c.maxFrames <= k && UpThere(c, s, ins, k) && HeldUncut(c, s, ins, k - c.maxFrames, k)
  {
    hide Step, At, Out, UpThere;
    CutBefore(c, s, ins, k);
    CutHolds(c, s, ins, k);
    CounterCounts(c, s, ins, k);
    if c.maxFrames <= k && HeldUncut(c, s, ins, k - c.maxFrames, k) {
      UncutStretch(c, s, ins, k - c.maxFrames, k);
      CutHolds(c, s, ins, k - 1);
      assert !Out(c, s, ins, k - 1).cut;
    }
  }

  lemma {:induction false} NoEarlyCut(c: Config, s: State, ins: seq<Input>, a: nat, n: nat)
    requires Avoids(c) && s == INITIAL && n <= c.maxFrames && a + n <= |ins|
    requires !At(c, s, ins, a).guard.cut && At(c, s, ins, a).guard.angleCounter == 0
    requires forall j | a <= j < a + n :: UpThere(c, s, ins, j)
    ensures !At(c, s, ins, a + n).guard.cut && At(c, s, ins, a + n).guard.angleCounter == n
    ensures HeldUncut(c, s, ins, a, a + n)
  {
    hide Step, UpThere;
    if n > 0 {
      NoEarlyCut(c, s, ins, a, n - 1);
      CutHolds(c, s, ins, a + n - 1);
    }
  }

  /** Held active above the angle from a tick with a clear counter on, the cut begins exactly maxFrames
      ticks later and on none before. */
  lemma CutComesOnTime(c: Config, s: State, ins: seq<Input>, a: nat)
    requires Avoids(c) && s == INITIAL && a + c.maxFrames < |ins|
    requires !At(c, s, ins, a).guard.cut && At(c, s, ins, a).guard.angleCounter == 0
    requires forall j | a <= j <= a + c.maxFrames :: UpThere(c, s, ins, j)
    ensures CutBegins(c, s, ins, a + c.maxFrames)
    ensures forall j | a <= j < a + c.maxFrames :: !Out(c, s, ins, j).cut
  {
    hide Step, At, Out, UpThere;
    NoEarlyCut(c, s, ins, a, c.maxFrames);
    CutBeginsExactly(c, s, ins, a + c.maxFrames);
  }

  /** A cut that began at tick k is still on after n more ticks, and counts them. */
  lemma {:induction false} CutGoesOn(c: Config, s: State, ins: seq<Input>, k: nat, n: nat)
    requires Avoids(c) && s == INITIAL && k + n < |ins| && n < Max(1, c.cutFrames)
    requires CutBegins(c, s, ins, k)
    requires forall j | k < j <= k + n :: !Out(c, s, ins, j).reset
    ensures Out(c, s, ins, k + n).cut && At(c, s, ins, k + n + 1).guard.cutCount == n + 1
  {
    hide Step, UpThere;
    CutHolds(c, s, ins, k + n);
    if n > 0 {
      CutGoesOn(c, s, ins, k, n - 1);
      CutHolds(c, s, ins, k + n - 1);
    } else {
      CutBefore(c, s, ins, k);
    }
  }

  /** A cut lasts exactly the configured number of ticks, unless the state is reset. */
  lemma CutLastsExactly(c: Config, s: State, ins: seq<Input>, k: nat)
    requires Avoids(c) && s == INITIAL && k + Max(1, c.cutFrames) < |ins|
    requires CutBegins(c, s, ins, k)
    requires forall j | k < j < k + Max(1, c.cutFrames) :: !Out(c, s, ins, j).reset
    ensures forall j | k <= j < k + Max(1, c.cutFrames) :: Out(c, s, ins, j).cut
    ensures !Out(c, s, ins, k + Max(1, c.cutFrames)).cut
  {
    hide Step, UpThere;
    var n := Max(1, c.cutFrames);
    forall j | k <= j < k + n ensures Out(c, s, ins, j).cut {
      CutGoesOn(c, s, ins, k, j - k);
    }
    CutGoesOn(c, s, ins, k, n - 1);
    CutHolds(c, s, ins, k + n - 1);
    CutHolds(c, s, ins, k + n);
  }

  /** The frame limit must be at least one: with none, every active tick above the angle is cut. */
  lemma NoLimitAlwaysCuts(c: Config, t: State, i: Input)
    requires c.avoidFault && c.maxFrames <= 0 && !c.forceEngaged
    requires Step(c, t, i).1.active && AboveAngle(c, i)
    ensures Step(c, t, i).1.cut
  {
    hide AboveAngle, Handshake, Reason, PressButtons, Desired, LimitTorque;
    ActiveTick(c, t, i);
  }

  // ---- The torque ramp above the fault angle

  /** The torque that may be left after `frames` frames above the fault angle. */
  function Envelope(c: Config, frames: nat): int {
    Part(c.limits.steerMax, AngleScale(RampFrames(c), frames))
  }

  lemma PartWithin(max: nat, a: real)
    requires 0.0 <= a <= 1.0
    ensures 0 <= Part(max, a) <= max
  {
    ProductShrinks(max as real, a);
    ProductNonneg(max as real, a);
  }

  lemma DesiredUnderEnvelope(c: Config, faultFrames: nat, timer: int, i: Input)
    requires c.avoidFault && AboveAngle(c, i) && AbsInt(i.rawTorque) <= c.limits.steerMax
    ensures AbsInt(Desired(c, faultFrames, timer, i)) <= Envelope(c, faultFrames)
  {
    hide Part, Desired;
    DesiredBound(c, faultFrames, timer, i);
  }

  /** A bound on the torque by frames above the angle: over the ramp, and falling no faster than the rate
      limiter can follow. */
  ghost predicate Bounds(c: Config, b: nat -> int) {
    && c.limits.steerMax <= b(0)
    && forall f: nat :: BoundAt(c, b, f)
  }

  ghost predicate BoundAt(c: Config, b: nat -> int, f: nat) {
    Envelope(c, f) <= b(f) <= b(f + 1) + c.limits.deltaDown && 0 <= b(f)
  }

  ghost predicate RampInv(c: Config, b: nat -> int, s: State) {
    CutInv(c, s.guard) && AbsInt(s.lastTorque) <= Min(c.limits.steerMax, b(s.guard.faultFrames))
  }

  /** Any such bound bounds the torque of every tick. */
  lemma TorqueUnderBound(c: Config, b: nat -> int, t: State, i: Input)
    requires Avoids(c) && c.limits.deltaUp >= 0 && c.limits.deltaDown >= 0
    requires Bounds(c, b) && RampInv(c, b, t) && AbsInt(i.rawTorque) <= c.limits.steerMax
    ensures RampInv(c, b, Step(c, t, i).0) && Step(c, t, i).1.torque == Step(c, t, i).0.lastTorque
  {
    DecideCut(c, t, i);
    var d := Decide(c, t, i);
    hide Decide, Envelope, Desired, LimitTorque, RampFrames, AboveAngle;
    assert BoundAt(c, b, t.guard.faultFrames) && BoundAt(c, b, d.guard.faultFrames);
    if d.active {
      ActiveTick(c, t, i);
      var desired := Desired(c, d.guard.faultFrames, t.driverTimer, i);
      if AboveAngle(c, i) { DesiredUnderEnvelope(c, d.guard.faultFrames, t.driverTimer, i); }
      LimitBound(desired, t.lastTorque, i.driverTorque, c.limits);
    }
  }

  lemma {:induction false} BoundHolds(c: Config, b: nat -> int, s: State, ins: seq<Input>, k: nat)
    requires Avoids(c) && Bounds(c, b) && s == INITIAL && Sane(c, ins) && k <= |ins|
    ensures RampInv(c, b, At(c, s, ins, k))
    ensures k < |ins| ==> Out(c, s, ins, k).torque == At(c, s, ins, k + 1).lastTorque
  {
    hide Step, BoundAt;
    if k > 0 {
      BoundHolds(c, b, s, ins, k - 1);
      TorqueUnderBound(c, b, At(c, s, ins, k - 1), ins[k - 1]);
    }
    if k < |ins| { TorqueUnderBound(c, b, At(c, s, ins, k), ins[k]); }
  }

  lemma ScaleStep(ramp: int, f: nat)
    requires ramp > 0
    ensures AngleScale(ramp, f) <= AngleScale(ramp, f + 1) + 1.0 / ramp as real
    ensures AngleScale(ramp, f + 1) <= AngleScale(ramp, f)
    ensures f >= ramp ==> AngleScale(ramp, f) == 0.0
  {
    var r := ramp as real;
    assert (f + 1) as real / r == f as real / r + 1.0 / r;
    if f >= ramp {
      assert f as real / r == 1.0 + (f - ramp) as real / r;
      assert (f - ramp) as real / r >= 0.0;
    }
  }

  lemma RoundStep(x: real, y: real, d: real, down: int)
    requires 0.0 <= y <= x <= y + d && d + 1.0 <= down as real
    ensures Lround(x) <= Lround(y) + down
  {}

  lemma TimesInverse(m: real, r: real)
    requires r > 0.0
    ensures m * (1.0 / r) == m / r
  {}

  lemma Distribute(m: real, a: real, b: real)
    ensures m * (a + b) == m * a + m * b
  {}

  lemma ScaledStep(m: real, a: real, b: real, r: real)
    requires 0.0 <= m && 0.0 < r && 0.0 <= b <= a <= b + 1.0 / r
    ensures 0.0 <= m * b <= m * a <= m * b + m / r
    ensures 0.0 <= m / r
  {
    ProductNonneg(m, b);
    ProductNonneg(m, 1.0 / r);
    ProductMonotone(b, a, m);
    ProductMonotone(a, b + 1.0 / r, m);
    Distribute(m, b, 1.0 / r);
    TimesInverse(m, r);
  }

  lemma RoundedStep(max: nat, a: real, b: real, r: real, down: int)
    requires 0.0 < r && 0.0 <= b <= a <= b + 1.0 / r
    requires max as real / r + 1.0 <= down as real
    ensures Part(max, a) <= Part(max, b) + down && down >= 0
  {
    var m := max as real;
    ScaledStep(m, a, b, r);
    RoundStep(m * a, m * b, m / r, down);
  }

  /** A ramp that the rate limiter can follow frame by frame. */
  predicate RampFollows(c: Config) {
    c.limits.steerMax >= 0 && c.limits.steerMax as real / RampFrames(c) as real + 1.0 <= c.limits.deltaDown as real
  }

  /** The rate limiter can follow the ramp. */
  lemma EnvelopeStep(c: Config, f: nat)
    requires RampFollows(c)
    ensures Envelope(c, f) <= Envelope(c, f + 1) + c.limits.deltaDown
    ensures c.limits.deltaDown >= 0
  {
    hide AngleScale, Part;
    var ramp := RampFrames(c);
    ScaleStep(ramp, f);
    var (a, b) := (AngleScale(ramp, f), AngleScale(ramp, f + 1));
    RoundedStep(c.limits.steerMax, a, b, ramp as real, c.limits.deltaDown);
  }

  function Ramp(c: Config): nat -> int { (f: nat) => Envelope(c, f) }

  lemma RampBounds(c: Config)
    requires RampFollows(c)
    ensures Bounds(c, Ramp(c))
  {
    assert AngleScale(RampFrames(c), 0) == 1.0;
    assert Prod(c.limits.steerMax as real, 1.0) == c.limits.steerMax as real;
    assert Ramp(c)(0) == c.limits.steerMax;
    forall f: nat ensures BoundAt(c, Ramp(c), f) {
      EnvelopeStep(c, f);
      PartWithin(c.limits.steerMax, AngleScale(RampFrames(c), f));
      hide Envelope;
    }
  }

  /** Then the applied torque stays under the ramp on every frame. */
  lemma TorqueUnderRamp(c: Config, s: State, ins: seq<Input>, k: nat)
    requires Avoids(c) && RampFollows(c) && s == INITIAL && Sane(c, ins) && k < |ins|
    ensures AbsInt(Out(c, s, ins, k).torque) <= Envelope(c, At(c, s, ins, k + 1).guard.faultFrames)
  {
    hide Step, At, Out, Envelope, Bounds;
    RampBounds(c);
    BoundHolds(c, Ramp(c), s, ins, k);
    BoundHolds(c, Ramp(c), s, ins, k + 1);
  }

  /** What is left of a fall at the down rate that ends after m frames. */
  function FallLeft(m: nat, f: nat, down: int): int { Max(0, (m - f) * down) }

  function Fall(c: Config, m: nat): nat -> int { (f: nat) => FallLeft(m, f, c.limits.deltaDown) }

  /** m frames are enough for the ramp, and for the rate limiter to come down from steerMax. */
  predicate FallFits(c: Config, m: nat) {
    RampFrames(c) <= m && c.limits.steerMax <= m * c.limits.deltaDown
  }

  lemma LineUnderLine(s: real, d: real, m: real, r: real, f: real)
    requires 0.0 <= s <= m * d && 0.0 <= d && 0.0 < r <= m && 0.0 <= f <= r
    ensures s * (1.0 - f / r) <= (m - f) * d
  {
    var x := f / r;
    assert f == x * r && 0.0 <= x <= 1.0;
    ProductMonotone(s, m * d, 1.0 - x);
    ProductMonotone(r, m, x);
    ProductMonotone(f, m * x, d);
    assert m * d * (1.0 - x) == m * d - (m * x) * d;
  }

  lemma PartUnder(max: nat, scale: real, n: int)
    requires max as real * scale <= n as real
    ensures Part(max, scale) <= n
  {
    LroundMonotone(max as real * scale, n as real);
  }

  lemma EnvelopeUnderFall(c: Config, m: nat, f: nat)
    requires FallFits(c, m) && c.limits.steerMax >= 0 && c.limits.deltaDown >= 0
    ensures Envelope(c, f) <= FallLeft(m, f, c.limits.deltaDown)
  {
    hide Part, RampFrames;
    var (s, d, ramp) := (c.limits.steerMax, c.limits.deltaDown, RampFrames(c));
    if f >= ramp {
      ScaleStep(ramp, f);
      PartUnder(s, 0.0, 0);
    } else {
      LineUnderLine(s as real, d as real, m as real, ramp as real, f as real);
      ScaleInside(ramp, f);
      PartUnder(s, AngleScale(ramp, f), (m - f) * d);
    }
  }

  lemma ScaleInside(ramp: int, f: nat)
    requires 0 <= f < ramp
    ensures AngleScale(ramp, f) == 1.0 - f as real / ramp as real
  {
    assert 0.0 <= f as real / ramp as real <= 1.0;
  }

  lemma FallSteps(m: nat, f: nat, down: int)
    requires down >= 0
    ensures 0 <= FallLeft(m, f, down) <= FallLeft(m, f + 1, down) + down
    ensures FallLeft(m, 0, down) >= m * down
    ensures f >= m ==> FallLeft(m, f, down) == 0
  {
    assert (m - f) * down == (m - (f + 1)) * down + down;
    if f >= m { assert (f - m) * down >= 0; }
  }

  lemma FallBounds(c: Config, m: nat)
    requires FallFits(c, m) && c.limits.steerMax >= 0 && c.limits.deltaDown >= 0
    ensures Bounds(c, Fall(c, m))
  {
    hide Envelope, FallLeft;
    forall f: nat ensures BoundAt(c, Fall(c, m), f) {
      EnvelopeUnderFall(c, m, f);
      FallSteps(m, f, c.limits.deltaDown);
    }
    FallSteps(m, 0, c.limits.deltaDown);
    assert Fall(c, m)(0) == FallLeft(m, 0, c.limits.deltaDown);
  }

  /** After m frames in a row above the angle, the ramp counter is at least m. */
  lemma {:induction false} FramesCounted(c: Config, s: State, ins: seq<Input>, k: nat, m: nat)
    requires Avoids(c) && s == INITIAL && m <= k <= |ins|
    requires forall j | k - m <= j < k :: UpThere(c, s, ins, j)
    ensures At(c, s, ins, k).guard.faultFrames >= m
  {
    hide Step, UpThere;
    CutHolds(c, s, ins, k);
    if m > 0 {
      FramesCounted(c, s, ins, k - 1, m - 1);
      CutHolds(c, s, ins, k - 1);
    }
  }

  /** The applied torque is zero on the m-th tick in a row above the angle, and on all that follow, as
      soon as m frames fit the ramp and the fall. */
  lemma RampReachesZero(c: Config, s: State, ins: seq<Input>, k: nat, m: nat)
    requires Avoids(c) && FallFits(c, m) && s == INITIAL && Sane(c, ins) && m <= k + 1 <= |ins|
    requires forall j | k + 1 - m <= j <= k :: UpThere(c, s, ins, j)
    ensures Out(c, s, ins, k).torque == 0
  {
    hide Step, At, Out, UpThere, Bounds, FallLeft;
    FramesCounted(c, s, ins, k + 1, m);
    FallBounds(c, m);
    BoundHolds(c, Fall(c, m), s, ins, k);
    BoundHolds(c, Fall(c, m), s, ins, k + 1);
    FallSteps(m, At(c, s, ins, k + 1).guard.faultFrames, c.limits.deltaDown);
  }

  /** If the rate limiter can come down from steerMax within the frame limit and the frame of the cut,
      every cut begins at zero torque. */
  lemma CutBeginsAtZeroTorque(c: Config, s: State, ins: seq<Input>, k: nat)
    requires Avoids(c) && c.limits.steerMax <= (c.maxFrames + 1) * c.limits.deltaDown
    requires s == INITIAL && Sane(c, ins) && k < |ins| && CutBegins(c, s, ins, k)
    ensures Out(c, s, ins, k).torque == 0
  {
    hide Step, At, Out, UpThere;
    CutBeginsExactly(c, s, ins, k);
    RampReachesZero(c, s, ins, k, c.maxFrames + 1);
  }

  // ---- Cutting by the MDPS's own error count

  predicate OverAt(c: Config, ins: seq<Input>, k: nat)
    requires k < |ins|
  {
    ins[k].mdpsErrorCount > c.maxFrames
  }

  /** A cut began on tick b and has gone on without a reset up to tick k. */
  ghost predicate CutSince(c: Config, s: State, ins: seq<Input>, b: nat, k: nat)
    requires b < k <= |ins|
  {
    && (b == 0 || !Out(c, s, ins, b - 1).cut || Out(c, s, ins, b).reset)
    && (forall j | b <= j < k :: Out(c, s, ins, j).cut)
    && (forall j | b < j < k :: !Out(c, s, ins, j).reset)
  }

  lemma ErrorTick(c: Config, t: State, i: Input)
    requires !c.avoidFault && (!t.guard.cut ==> t.guard.cutCount == 0)
    ensures var (t', r) := Step(c, t, i);
            var g := if r.reset then CLEAR_GUARD else t.guard;
            && (r.cut <==> i.mdpsErrorCount > c.maxFrames || (g.cut && g.cutCount < Max(1, c.cutFrames)))
            && t'.guard.cut == r.cut && t'.guard.cutCount == if r.cut then g.cutCount + 1 else 0
  {
    hide Handshake, Reason, PressButtons, DebouncePath, Desired, LimitTorque, AboveAngle;
  }

  lemma CutOn(c: Config, s: State, ins: seq<Input>, b: nat, k: nat)
    requires b < k < |ins| && CutSince(c, s, ins, b, k) && Out(c, s, ins, k).cut && !Out(c, s, ins, k).reset
    ensures CutSince(c, s, ins, b, k + 1)
  {
    hide Out;
  }

  lemma CutAlone(c: Config, s: State, ins: seq<Input>, k: nat)
    requires k < |ins| && Out(c, s, ins, k).cut
    requires k == 0 || !Out(c, s, ins, k - 1).cut || Out(c, s, ins, k).reset
    ensures CutSince(c, s, ins, k, k + 1)
  {
    hide Out;
  }

  lemma OneBeginning(c: Config, s: State, ins: seq<Input>, a: nat, b: nat, k: nat)
    requires a < k <= |ins| && b < k && CutSince(c, s, ins, a, k) && CutSince(c, s, ins, b, k)
    ensures a == b
  {
    hide Out;
  }

  ghost predicate ErrorsKnown(c: Config, s: State, ins: seq<Input>, k: nat)
    requires k <= |ins|
  {
    var g := At(c, s, ins, k).guard;
    && (k > 0 ==> g.cut == Out(c, s, ins, k - 1).cut)
    && (if g.cut then exists b: nat :: b < k && CutSince(c, s, ins, b, k) && g.cutCount == k - b else g.cutCount == 0)
  }

  lemma {:induction false} ErrorsFollow(c: Config, s: State, ins: seq<Input>, k: nat)
    requires !c.avoidFault && s == INITIAL && k <= |ins|
    ensures ErrorsKnown(c, s, ins, k)
  {
    hide Step, CutSince;
    if k > 0 {
      var last := k - 1;
      ErrorsFollow(c, s, ins, last);
      var (g, r) := (At(c, s, ins, last).guard, Out(c, s, ins, last));
      ErrorTick(c, At(c, s, ins, last), ins[last]);
      if r.cut {
        if g.cut && !r.reset {
          var b: nat :| b < last && CutSince(c, s, ins, b, last) && g.cutCount == last - b;
          CutOn(c, s, ins, b, last);
        } else {
          CutAlone(c, s, ins, last);
        }
      }
    }
  }

  /** Without fault avoidance by angle, over every run: the request is cut on exactly the ticks on which the MDPS
      counts more errors than the limit, and on those that follow the beginning of a cut without a reset by
      fewer ticks than a cut lasts. */
  lemma ErrorsCutExactly(c: Config, s: State, ins: seq<Input>, k: nat)
    requires !c.avoidFault && s == INITIAL && k < |ins|
    ensures Out(c, s, ins, k).cut <==>
            || OverAt(c, ins, k)
            || (!Out(c, s, ins, k).reset
                && exists b: nat :: b < k && CutSince(c, s, ins, b, k) && k - b < Max(1, c.cutFrames))
  {
    hide Step, CutSince;
    ErrorsFollow(c, s, ins, k);
    ErrorTick(c, At(c, s, ins, k), ins[k]);
    forall a: nat, b: nat | a < k && b < k && CutSince(c, s, ins, a, k) && CutSince(c, s, ins, b, k) ensures a == b {
      OneBeginning(c, s, ins, a, b, k);
    }
    forall b: nat | b < k && CutSince(c, s, ins, b, k) ensures Out(c, s, ins, k - 1).cut {
      CutBeforeEnd(c, s, ins, b, k);
    }
  }

  lemma CutBeforeEnd(c: Config, s: State, ins: seq<Input>, b: nat, k: nat)
    requires b < k <= |ins| && CutSince(c, s, ins, b, k)
    ensures Out(c, s, ins, k - 1).cut
  {}

  // ---- A drive that is cut

  /** A tick with everything in order but what is given. */
  function Fine(button: int, now: real, allowed: bool, angle: real, torque: int): Input {
    Input(button, now, true, true, true, false, 0.0, true, true, true, true, true, 50.0,
          false, false, false, false, false, GEAR_DRIVE, false, false, false, false,
          true, allowed, angle, 0, 0, torque)
  }

  /** SET pressed; released while the panda does not allow controls yet; confirmed; then `calm` ticks
      straight ahead, and from then on the fault angle. Ticks are 10 ms apart. */
  function DriveTick(c: Config, calm: nat, torque: int, k: nat): Input {
    var now := k as real / 100.0;
    if k == 0 then Fine(BUTTON_SET, now, false, 0.0, 0)
    else if k == 1 then Fine(0, now, false, 0.0, 0)
    else Fine(0, now, true, if k < 3 + calm then 0.0 else c.maxAngle, torque)
  }

  function Drive(c: Config, calm: nat, held: nat, torque: int): (ins: seq<Input>)
    ensures |ins| == 3 + calm + held && forall k | 0 <= k < |ins| :: ins[k] == DriveTick(c, calm, torque, k)
  {
    seq(3 + calm + held, k requires k >= 0 => DriveTick(c, calm, torque, k))
  }

  /** What the parameter loader accepts, and limits under which any torque at all is possible. */
  predicate Drivable(c: Config) {
    && Avoids(c) && c.enabled && c.maxAngle > 0.0 && c.driverTorqueThreshold >= 0
    && c.limits.steerMax >= 0 && c.limits.deltaUp >= 1 && c.limits.deltaDown >= 0
    && c.limits.driverAllowance >= 0 && c.limits.driverMultiplier >= 0
  }

  /** Engaged or about to be confirmed, with nothing in the way. */
  predicate Steady(s: State) {
    s.engage.engaged && s.engage.lastButton == 0 && s.path.usable && s.driverTimer == 100
  }

  lemma PressTick(c: Config, calm: nat, torque: int)
    requires Drivable(c)
    ensures Step(c, INITIAL, DriveTick(c, calm, torque, 0)).0
         == INITIAL.(engage := INITIAL.engage.(lastButton := BUTTON_SET), path := PathState(0.0, true, false))
  {
    hide Desired, LimitTorque;
  }

  lemma ReleaseTick(c: Config, s: State, calm: nat, torque: int)
    requires Drivable(c) && s.path.usable && s.driverTimer == 100 && !s.guard.cut && s.guard.cutCount == 0
    requires !s.engage.engaged && s.engage.lastButton == BUTTON_SET
    ensures var (s', r) := Step(c, s, DriveTick(c, calm, torque, 1));
            Steady(s') && s'.engage.pending && !r.active && s'.guard == CLEAR_GUARD && s'.lastTorque == 0
  {
    hide Desired, LimitTorque;
  }

  lemma SteadyTick(c: Config, s: State, now: real, angle: real, torque: int)
    requires Drivable(c) && Steady(s)
    ensures var (s', r) := Step(c, s, Fine(0, now, true, angle, torque));
            Steady(s') && !s'.engage.pending && r.active && !r.reset && s'.lastTorque == r.torque
  {
    hide Desired, LimitTorque, AboveAngle;
  }

  /** A full torque to one side: built up by deltaUp while calm, and never left faster than by deltaDown. */
  lemma SteadyTorque(c: Config, s: State, now: real, angle: real)
    requires Drivable(c) && Steady(s) && -c.limits.steerMax <= s.lastTorque <= 0
    ensures var i := Fine(0, now, true, angle, -c.limits.steerMax);
            var t := Step(c, s, i).1.torque;
            && -c.limits.steerMax <= t <= s.lastTorque + c.limits.deltaDown
            && (!AboveAngle(c, i) ==> t == Max(-c.limits.steerMax, s.lastTorque - c.limits.deltaUp))
  {
    var i := Fine(0, now, true, angle, -c.limits.steerMax);
    SteadyTick(c, s, now, angle, -c.limits.steerMax);
    ActiveTick(c, s, i);
    if !AboveAngle(c, i) { FullDesired(c, Decide(c, s, i).guard.faultFrames, i); }
    FullUnclamped(c);
    LimitBound(Step(c, s, i).1.desired, s.lastTorque, 0, c.limits);
    hide Decide, Desired, DriverClamp, AboveAngle;
  }

  lemma FullDesired(c: Config, faultFrames: nat, i: Input)
    requires !AboveAngle(c, i)
    ensures Desired(c, faultFrames, 100, i) == i.rawTorque
  {
    var raw := i.rawTorque as real;
    assert Prod(Prod(raw, 1.0), 1.0) == raw;
  }

  lemma FullUnclamped(c: Config)
    requires Drivable(c)
    ensures DriverClamp(-c.limits.steerMax, 0, c.limits) == -c.limits.steerMax
  {
    assert c.limits.driverAllowance * c.limits.driverMultiplier >= 0;
    assert (-c.limits.driverAllowance + 0) * c.limits.driverMultiplier
        == -(c.limits.driverAllowance * c.limits.driverMultiplier);
  }

  /** From the release on the drive is steady, and no cut is counted while it is calm. */
  lemma {:induction false} DriveIsSteady(c: Config, calm: nat, held: nat, torque: int, k: nat)
    requires Drivable(c) && 2 <= k <= 3 + calm + held
    ensures var (ins, s) := (Drive(c, calm, held, torque), At(c, INITIAL, Drive(c, calm, held, torque), k));
      && Steady(s)
      && (k <= 3 + calm ==> !s.guard.cut && s.guard.angleCounter == 0)
      && (k == 2 ==> s.lastTorque == 0 && s.engage.pending)
      && (k < |ins| ==>
            && Out(c, INITIAL, ins, k).active
            && Out(c, INITIAL, ins, k).torque == At(c, INITIAL, ins, k + 1).lastTorque)
      && (k >= 3 + calm && k < |ins| ==> UpThere(c, INITIAL, ins, k))
  {
    hide Step, Steady;
    var ins := Drive(c, calm, held, torque);
    if k == 2 {
      PressTick(c, calm, torque);
      assert At(c, INITIAL, ins, 1) == Step(c, INITIAL, ins[0]).0;
      ReleaseTick(c, At(c, INITIAL, ins, 1), calm, torque);
    } else {
      DriveIsSteady(c, calm, held, torque, k - 1);
      SteadyTick(c, At(c, INITIAL, ins, k - 1), ins[k - 1].now, ins[k - 1].angle, torque);
      CutHolds(c, INITIAL, ins, k - 1);
    }
    if k < |ins| {
      SteadyTick(c, At(c, INITIAL, ins, k), ins[k].now, ins[k].angle, torque);
    }
  }

  /** So the hypotheses of CutComesOnTime are met by a drive of every length. */
  lemma CutIsReached(c: Config, calm: nat, torque: int)
    requires Drivable(c)
    ensures var (ins, a) := (Drive(c, calm, c.maxFrames + 1, torque), 3 + calm);
      && !At(c, INITIAL, ins, a).guard.cut && At(c, INITIAL, ins, a).guard.angleCounter == 0
      && (forall j | a <= j <= a + c.maxFrames :: UpThere(c, INITIAL, ins, j))
      && CutBegins(c, INITIAL, ins, a + c.maxFrames)
  {
    hide Step, At, Out, UpThere, Drive, CutBegins;
    var ins := Drive(c, calm, c.maxFrames + 1, torque);
    DriveIsSteady(c, calm, c.maxFrames + 1, torque, 3 + calm);
    forall j | 3 + calm <= j <= 3 + calm + c.maxFrames ensures UpThere(c, INITIAL, ins, j) {
      DriveIsSteady(c, calm, c.maxFrames + 1, torque, j);
    }
    CutComesOnTime(c, INITIAL, ins, 3 + calm);
  }

  /** The torque of a drive that asks for all of it: full after enough calm ticks, and held above the angle
      for longer than the rate limiter needs, not yet gone. */
  lemma {:induction false} DriveTorque(c: Config, held: nat, k: nat)
    requires Drivable(c) && c.limits.steerMax > held * c.limits.deltaDown && 2 <= k <= 3 + c.limits.steerMax + held
    ensures var max := c.limits.steerMax;
            var t := At(c, INITIAL, Drive(c, max, held, -max), k).lastTorque;
            && -max <= t <= 0
            && (k <= 3 + max ==> t <= -Min(max, k - 2))
            && (k >= 3 + max ==> t <= (k - 3 - max) * c.limits.deltaDown - max)
    decreases k
  {
    hide Step, Steady, AboveAngle, Drive;
    var (max, down) := (c.limits.steerMax, c.limits.deltaDown);
    var ins := Drive(c, max, held, -max);
    DriveIsSteady(c, max, held, -max, k);
    if k > 2 {
      DriveTorque(c, held, k - 1);
      DriveIsSteady(c, max, held, -max, k - 1);
      SteadyTorque(c, At(c, INITIAL, ins, k - 1), ins[k - 1].now, ins[k - 1].angle);
      NotAbove(c, ins[k - 1]);
      if k > 3 + max { StillFalling(max, down, k - 3 - max, held); }
    }
  }

  lemma StillFalling(max: nat, down: nat, n: nat, held: nat)
    requires 0 < n <= held && held * down < max
    ensures n * down == (n - 1) * down + down && n * down < max
  {
    assert (held - n) * down >= 0;
  }

  lemma NotAbove(c: Config, i: Input)
    requires c.maxAngle > 0.0
    ensures i.angle == 0.0 ==> !AboveAngle(c, i)
  {}

  /** Every cut of every run begins at zero torque. */
  ghost predicate CutsAtZero(c: Config) {
    forall ins: seq<Input>, k: nat | Sane(c, ins) && k < |ins| && CutBegins(c, INITIAL, ins, k) ::
      Out(c, INITIAL, ins, k).torque == 0
  }

  /** A steeper fall than the limiter allows: the drive is cut with torque left. */
  lemma FallTooSlow(c: Config)
    requires Drivable(c) && c.limits.steerMax > (c.maxFrames + 1) * c.limits.deltaDown
    ensures var (max, held) := (c.limits.steerMax, c.maxFrames + 1);
            var (ins, k) := (Drive(c, max, held, -max), 2 + max + held);
            Sane(c, ins) && CutBegins(c, INITIAL, ins, k) && Out(c, INITIAL, ins, k).torque < 0
  {
    hide Step, At, Out, CutBegins;
    var (max, held) := (c.limits.steerMax, c.maxFrames + 1);
    CutIsReached(c, max, -max);
    DriveTorque(c, held, 3 + max + held);
    DriveIsSteady(c, max, held, -max, 2 + max + held);
  }

  /** Exactly when the torque is zero at every cut: the frame limit and the frame of the cut leave the rate
      limiter time to come down from steerMax. */
  lemma CutsAtZeroExactly(c: Config)
    requires Drivable(c)
    ensures CutsAtZero(c) <==> c.limits.steerMax <= (c.maxFrames + 1) * c.limits.deltaDown
  {
    hide Step, At, Out, CutBegins, Drive;
    if c.limits.steerMax <= (c.maxFrames + 1) * c.limits.deltaDown {
      forall ins: seq<Input>, k: nat | Sane(c, ins) && k < |ins| && CutBegins(c, INITIAL, ins, k)
        ensures Out(c, INITIAL, ins, k).torque == 0
      {
        CutBeginsAtZeroTorque(c, INITIAL, ins, k);
      }
    } else {
      FallTooSlow(c);
    }
  }

  /** With the torque limits the panda fixes, the accepted frame limits that are too short are those below 54. */
  lemma AcceptedLimitsThatFit(c: Config)
    requires Drivable(c) && c.limits.steerMax == 384 && c.limits.deltaDown == 7
    ensures CutsAtZero(c) <==> c.maxFrames >= 54
  {
    hide CutsAtZero;
    CutsAtZeroExactly(c);
  }

  /** The shipped parameters satisfy what the ramp results ask for. */
  lemma ShippedParametersFit(c: Config)
    requires c.avoidFault && c.maxFrames == 89 && !c.forceEngaged
    requires c.limits.steerMax == 384 && c.limits.deltaUp == 3 && c.limits.deltaDown == 7
    ensures RampFollows(c) && RampFrames(c) == 69 && FallFits(c, 69)
  {
    assert 384.0 / 69.0 <= 6.0;
  }

  // ---- What is asked for, and how fast it comes

  lemma Nearest(x: real)
    ensures -0.5 <= Lround(x) as real - x <= 0.5
  {}

  lemma ShareOfRamp(ramp: int, frames: nat)
    requires ramp > 0
    ensures AngleScale(ramp, frames) == Max(0, ramp - frames) as real / ramp as real
  {
    var (f, r) := (frames as real, ramp as real);
    RestOfWhole(f, r);
    if frames >= ramp {
      assert f / r >= 1.0;
    } else {
      assert 0.0 <= f / r <= 1.0;
    }
  }

  lemma RestOfWhole(f: real, r: real)
    requires r > 0.0
    ensures 1.0 - f / r == (r - f) / r
  {
    var (q, p) := (f / r, (r - f) / r);
    assert q * r == f && p * r == r - f;
    assert (q + p - 1.0) * r == 0.0;
    ZeroFactor(q + p - 1.0, r);
  }

  lemma ZeroFactor(u: real, r: real)
    requires u * r == 0.0 && r > 0.0
    ensures u == 0.0
  {}

  /** The torque to be asked for, before rounding: the controller's torque times the driver's share out of a
      hundred, and above the fault angle times what is left of the ramp. */
  function Unrounded(c: Config, faultFrames: nat, timer: int, i: Input): real {
    var ramp := Max(1, c.maxFrames - 20);
    var left := if c.avoidFault && Abs(i.angle) >= c.maxAngle then Max(0, ramp - faultFrames) else ramp;
    i.rawTorque as real * (timer as real / 100.0) * (left as real / ramp as real)
  }

  /** What is asked for is the nearest whole torque. */
  lemma DesiredIsNearest(c: Config, faultFrames: nat, timer: int, i: Input)
    requires 0 <= timer <= 100
    ensures -0.5 <= Desired(c, faultFrames, timer, i) as real - Unrounded(c, faultFrames, timer, i) <= 0.5
  {
    hide Fade, AngleScale, DriverScale;
    var ramp := RampFrames(c);
    var left := if c.avoidFault && AboveAngle(c, i) then Max(0, ramp - faultFrames) else ramp;
    var (q, share) := (DriverScale(timer), Share(c, faultFrames, i));
    ShareOfRamp(ramp, faultFrames);
    assert share == left as real / ramp as real;
    DriverHundredth(timer);
    FadeIsNearest(i.rawTorque, q, share, timer as real / 100.0, left as real / ramp as real);
  }

  lemma DriverHundredth(timer: int)
    requires 0 <= timer <= 100
    ensures DriverScale(timer) == timer as real / 100.0
  {}

  lemma FadeIsNearest(raw: int, q: real, share: real, hundredth: real, part: real)
    requires q == hundredth && share == part
    ensures -0.5 <= Fade(raw, q, share) as real - raw as real * hundredth * part <= 0.5
  {
    var x := raw as real * q * share;
    assert Fade(raw, q, share) == Lround(x);
    Nearest(x);
  }

  /** A torque that may follow another: away from zero by at most one rate, towards zero by at most the other,
      and across zero by at most the first. */
  predicate RateAllows(v: int, last: int, l: Limits) {
    if last > 0 then v <= last + l.deltaUp && v >= last - l.deltaDown && v >= -l.deltaUp
    else v >= last - l.deltaUp && v <= last + l.deltaDown && v <= l.deltaUp
  }

  /** The rate limit gives the allowed torque nearest to the wanted one. */
  lemma RateClampIsNearest(wanted: int, last: int, l: Limits)
    requires l.deltaUp >= 0 && l.deltaDown >= 0
    ensures var r := RateClamp(wanted, last, l);
            RateAllows(r, last, l) && forall v | RateAllows(v, last, l) :: AbsInt(r - wanted) <= AbsInt(v - wanted)
  {}

  // ---- Reaching the target

  /** One step closes the distance to the target by the smaller rate, and never leaves it. */
  lemma Approaches(target: int, last: int, l: Limits)
    requires l.deltaUp >= 1 && l.deltaDown >= 1
    ensures AbsInt(RateClamp(target, last, l) - target) <= Max(0, AbsInt(last - target) - Min(l.deltaUp, l.deltaDown))
  {}

  /** While the request and the driver torque stay the same, the torque reaches the driver-clamped
      target within distance / min(rates) ticks and stays there. */
  lemma {:induction false} SettlesOnTarget(
      c: Config, s: State, ins: seq<Input>, a: nat, n: nat, desired: int, driver: int)
    requires !c.forceEngaged && c.limits.deltaUp >= 1 && c.limits.deltaDown >= 1 && a + n <= |ins|
    requires forall j | a <= j < a + n ::
      Out(c, s, ins, j).active && Out(c, s, ins, j).desired == desired && ins[j].driverTorque == driver
    ensures var target := DriverClamp(desired, driver, c.limits);
      AbsInt(At(c, s, ins, a + n).lastTorque - target)
        <= Max(0, AbsInt(At(c, s, ins, a).lastTorque - target) - n * Min(c.limits.deltaUp, c.limits.deltaDown))
  {
    hide Step, DriverClamp, RateClamp, AbsInt;
    if n > 0 {
      SettlesOnTarget(c, s, ins, a, n - 1, desired, driver);
      var t := At(c, s, ins, a + n - 1);
      assert Out(c, s, ins, a + n - 1).active;
      ActiveTorque(c, t, ins[a + n - 1]);
      Approaches(DriverClamp(desired, driver, c.limits), t.lastTorque, c.limits);
      OneMore(n, Min(c.limits.deltaUp, c.limits.deltaDown));
    }
  }

  lemma OneMore(n: int, m: int)
    ensures n * m == (n - 1) * m + m
  {}

  lemma ActiveTorque(c: Config, t: State, i: Input)
    requires Step(c, t, i).1.active && !c.forceEngaged
    ensures var r := Step(c, t, i).1;
      r.torque == Step(c, t, i).0.lastTorque
      == RateClamp(DriverClamp(r.desired, i.driverTorque, c.limits), t.lastTorque, c.limits)
  {
    ActiveTick(c, t, i);
  }

  // ---- The engage handshake

  function Count(a: bool, b: bool, c: bool, d: bool): nat {
    (if a then 1 else 0) + (if b then 1 else 0) + (if c then 1 else 0) + (if d then 1 else 0)
  }

  /** How a pending request can end: confirmed, rejected, cancelled, or hard-disengaged. */
  predicate EndsOneWay(e: Engage, i: Input, e': Engage, r: Result) {
    && Count(e'.engaged, r.rejected, Cancels(e, i.button), Kind(r.reason) == Hard) == 1
    && (e'.engaged ==> Kind(r.reason) == Clear || Kind(r.reason) == Availability)
    && (r.rejected ==> Kind(r.reason) == Reject || Kind(r.reason) == Transient)
  }

  predicate HandshakeOk(c: Config, e: Engage, i: Input, e': Engage, r: Result) {
    && r.engaged == e'.engaged
    && (r.active ==> e'.engaged)
    && (Kind(r.reason) == Hard ==> !e'.engaged)
    && (e'.pending ==> e'.engaged && i.now - e'.pendingSince < ENGAGE_GRACE_S)
    && (e'.pending && e.pending ==> e'.pendingSince == e.pendingSince)
    && (e'.pending && !e.pending ==> Requested(c, e, i) && e'.pendingSince == i.now)
    && (e.pending && !e'.pending ==> EndsOneWay(e, i, e', r))
    && (e.pending && i.now - e.pendingSince >= ENGAGE_GRACE_S ==> !e'.pending)
    && (e'.engaged && !e.engaged ==> Requested(c, e, i))
    && (Requested(c, e, i) ==> (r.rejected <==> !e'.engaged) && (e'.pending <==> Kind(r.reason) == Transient))
  }

  /** One tick of the engage handshake: active implies engaged, a hard block never leaves the
      controller engaged, pending is bounded by the grace and never extended, and a pending request
      that ends does so in exactly one way. */
  lemma HandshakeTick(c: Config, t: State, i: Input)
    requires !c.forceEngaged && (t.engage.pending ==> t.engage.engaged)
    ensures HandshakeOk(c, t.engage, i, Step(c, t, i).0.engage, Step(c, t, i).1)
  {
    hide Reason, CutSteer, Desired, LimitTorque, AboveAngle, DebouncePath;
    var path := DebouncePath(t.path, i.pathUsable, i.now);
    NotEngagedFirst(c, PressButtons(t.engage, i.button, i.now).engaged, path.usable, i);
  }

  lemma NotEngagedFirst(c: Config, engaged: bool, pathUsable: bool, i: Input)
    requires !c.forceEngaged
    ensures Reason(c, engaged, pathUsable, i) == NotEngaged <==> !engaged
    ensures Kind(Reason(c, engaged, pathUsable, i)) == Clear ==> pathUsable
  {}

  lemma {:induction false} PendingImpliesEngaged(c: Config, s: State, ins: seq<Input>, k: nat)
    requires !c.forceEngaged && s == INITIAL && k <= |ins|
    ensures At(c, s, ins, k).engage.pending ==> At(c, s, ins, k).engage.engaged
  {
    hide Step;
    if k > 0 {
      PendingImpliesEngaged(c, s, ins, k - 1);
      HandshakeTick(c, At(c, s, ins, k - 1), ins[k - 1]);
    }
  }

  /** Over every run, a request that is pending was made at one SET release less than a second ago,
      has been pending ever since, and later SETs did not move that moment. */
  lemma {:induction false} GraceIsNeverExtended(c: Config, s: State, ins: seq<Input>, k: nat) returns (j: nat)
    requires !c.forceEngaged && s == INITIAL && k <= |ins| && At(c, s, ins, k).engage.pending
    ensures j < k && Requested(c, At(c, s, ins, j).engage, ins[j])
    ensures At(c, s, ins, k).engage.pendingSince == ins[j].now && ins[k - 1].now - ins[j].now < ENGAGE_GRACE_S
    ensures forall m | j < m <= k :: At(c, s, ins, m).engage.pending && At(c, s, ins, m).engage.engaged
  {
    hide Step, Requested;
    PendingImpliesEngaged(c, s, ins, k - 1);
    HandshakeTick(c, At(c, s, ins, k - 1), ins[k - 1]);
    if At(c, s, ins, k - 1).engage.pending {
      j := GraceIsNeverExtended(c, s, ins, k - 1);
    } else {
      j := k - 1;
    }
  }

  // ---- Which inputs steer

  /** Engagement after the buttons of this tick: CANCEL ends it, releasing SET begins it, on a change only. */
  predicate EngagedAfterButtons(e: Engage, button: int) {
    if button == 4 && e.lastButton != 4 then false
    else e.engaged || (button == 0 && e.lastButton == 2)
  }

  /** The path has been usable from the first, or again for half a second. */
  predicate PathReady(p: PathState, i: Input) {
    i.pathUsable && (p.usable || !p.seenInvalid || (p.validSince >= 0.0 && i.now - p.validSince >= 0.5))
  }

  predicate DataIn(i: Input) { i.seedsReady && i.vehicleFresh && i.speedFinite }

  /** A fault of the vehicle. */
  predicate Faulty(c: Config, i: Input) {
    || i.doorOpen || i.seatbeltUnlatched || i.espDisabled || i.parkBrake || i.brakeError
    || i.gear != 5 || i.steeringFault
    || (i.liveVehicleSeen && !i.liveVehicleValid && i.liveCalibrated && c.useLiveVehicle)
  }

  /** What the control law needs from the ESP. */
  predicate EspIn(c: Config, i: Input) { c.useAngle || (i.espFresh && i.yawValid) }

  predicate PlanIn(c: Config, i: Input) {
    i.targetValid && i.mpcValid && !(i.hasCapture && i.planAge > c.modelTimeout)
  }

  /** The kinds of block by their inputs: vehicle faults come before the panda, whatever it says, and the panda
      before the path. */
  lemma KindsByInputs(c: Config, engaged: bool, usable: bool, i: Input)
    requires !c.forceEngaged
    ensures var kind := Kind(Reason(c, engaged, usable, i));
            var live := engaged && c.enabled && DataIn(i) && !Faulty(c, i);
            && (kind == Hard <==> engaged && (!c.enabled || (DataIn(i) && Faulty(c, i))))
            && (kind == Transient <==> live && !(i.pandaReady && i.pandaAllowed))
            && (kind == Availability <==> live && i.pandaReady && i.pandaAllowed && EspIn(c, i) && !usable)
            && (kind == Clear <==> live && i.pandaReady && i.pandaAllowed && EspIn(c, i) && usable && PlanIn(c, i))
  {}

  /** The reason shown is one that is there. */
  lemma ReasonIsTrue(c: Config, engaged: bool, usable: bool, i: Input)
    ensures match Reason(c, engaged, usable, i)
            case NotBlocked => true
            case NotEngaged => !engaged
            case ControllerDisabled => !c.enabled
            case SeedsMissing => !i.seedsReady
            case VehicleStateStale => !i.vehicleFresh
            case SpeedInvalid => !i.speedFinite
            case DoorOpen => i.doorOpen
            case SeatbeltUnlatched => i.seatbeltUnlatched
            case EspDisabled => i.espDisabled
            case ParkBrake => i.parkBrake
            case BrakeError => i.brakeError
            case GearNotDrive => i.gear != 5
            case MdpsFault => i.steeringFault
            case ParamsdInvalid => !i.liveVehicleValid && i.liveCalibrated
            case PandaNotReady => !i.pandaReady
            case PandaControlsOff => i.pandaReady && !i.pandaAllowed
            case EspStale => !i.espFresh && !c.useAngle
            case YawRateInvalid => !i.yawValid && !c.useAngle
            case Stopped => !usable && i.speedKph / 3.6 < c.minSteerSpeed
            case PathInvalid => !usable && i.speedKph / 3.6 >= c.minSteerSpeed
            case LateralPlanInvalid => !(i.targetValid && i.mpcValid)
            case LateralPlanStale => i.hasCapture && i.planAge > c.modelTimeout
  {}

  lemma ButtonsAndPath(e: Engage, p: PathState, i: Input)
    ensures PressButtons(e, i.button, i.now).engaged == EngagedAfterButtons(e, i.button)
    ensures p.usable ==> DebouncePath(p, i.pathUsable, i.now).usable == PathReady(p, i)
    ensures DebouncePath(p, i.pathUsable, i.now).usable == PathReady(p, i)
  {}

  /** A tick steers exactly when all of its inputs allow it. */
  lemma ActiveExactly(c: Config, t: State, i: Input)
    requires !c.forceEngaged
    ensures Step(c, t, i).1.active <==>
      && EngagedAfterButtons(t.engage, i.button) && c.enabled && DataIn(i) && !Faulty(c, i)
      && i.pandaReady && i.pandaAllowed && EspIn(c, i) && PathReady(t.path, i) && PlanIn(c, i)
  {
    hide Reason, PressButtons, DebouncePath, Handshake, CutSteer, Desired, LimitTorque, Faulty, PlanIn, EspIn;
    ButtonsAndPath(t.engage, t.path, i);
    KindsByInputs(c, EngagedAfterButtons(t.engage, i.button), PathReady(t.path, i), i);
  }

  /** What becomes of an engagement, a pending request and a new one, by the kind of block: a hard one ends them
      all; a refusing one ends what is pending or new; a transient one is waited for, a second at most; nothing
      else ends an engagement but CANCEL. */
  lemma EngagedExactly(c: Config, t: State, i: Input)
    requires !c.forceEngaged && (t.engage.pending ==> t.engage.engaged)
    ensures var ((t', r), e) := (Step(c, t, i), t.engage);
            var (kind, asked) := (Kind(r.reason), Requested(c, e, i));
            var (on, late) := (EngagedAfterButtons(e, i.button), i.now - e.pendingSince >= 1.0);
            && (t'.engage.engaged <==>
                  && on && kind != Hard && !(kind == Reject && (asked || e.pending))
                  && !(kind == Transient && e.pending && late))
            && (t'.engage.pending <==> on && kind == Transient && (asked || (e.pending && !late)))
            && (r.rejected <==>
                  || (asked && (kind == Hard || kind == Reject))
                  || (on && e.pending && (kind == Reject || (kind == Transient && late))))
            && (r.reset <==> Cancels(e, i.button) || (on && kind == Hard) || r.rejected)
  {
    hide Reason, CutSteer, Desired, LimitTorque, AboveAngle, DebouncePath;
    var path := DebouncePath(t.path, i.pathUsable, i.now);
    NotEngagedFirst(c, PressButtons(t.engage, i.button, i.now).engaged, path.usable, i);
  }

  /** A fault of the vehicle disengages at once and clears the control state, whatever the panda says. */
  lemma FaultDisengages(c: Config, t: State, i: Input)
    requires !c.forceEngaged && EngagedAfterButtons(t.engage, i.button)
    requires !c.enabled || (DataIn(i) && Faulty(c, i))
    ensures var (t', r) := Step(c, t, i);
            && !t'.engage.engaged && !t'.engage.pending && t'.engage.lastDisengage == i.now
            && !r.engaged && !r.active && !r.hold && r.reset && r.torque == 0 && t'.lastTorque == 0
            && (c.avoidFault && c.maxFrames >= 0 ==> !r.cut && t'.guard == CLEAR_GUARD)
  {
    hide Reason, PressButtons, DebouncePath, Desired, LimitTorque, Faulty;
    ButtonsAndPath(t.engage, t.path, i);
    KindsByInputs(c, EngagedAfterButtons(t.engage, i.button), PathReady(t.path, i), i);
    NotHardHold(Reason(c, EngagedAfterButtons(t.engage, i.button), PathReady(t.path, i), i));
  }

  /** Forced engagement, as the replay tests have it: the buttons do not matter, nothing is requested or
      rejected, and all other inputs count as they do without it. */
  lemma ForcedTick(c: Config, t: State, i: Input)
    requires c.forceEngaged && !t.engage.pending
    ensures var (t', r) := Step(c, t, i);
            var live := c.enabled && DataIn(i) && !Faulty(c, i) && i.pandaReady && i.pandaAllowed && EspIn(c, i);
            && r.engaged && !r.rejected && !t'.engage.pending
            && (r.active <==> live && PathReady(t.path, i) && PlanIn(c, i))
            && (r.hold <==> live && !(PathReady(t.path, i) && i.targetValid && i.mpcValid))
            && (r.reset <==> Cancels(t.engage, i.button) || !c.enabled || (DataIn(i) && Faulty(c, i)))
  {
    hide CutSteer, Desired, LimitTorque, AboveAngle, DebouncePath;
    ButtonsAndPath(t.engage, t.path, i);
  }

  lemma NotHardHold(r: BlockReason)
    ensures Kind(r) == Hard ==> Kind(r) != Availability && r != LateralPlanInvalid
  {}

  /** The request is held at zero torque exactly while nothing but the path or the plan itself is missing. */
  lemma HoldExactly(c: Config, t: State, i: Input)
    requires !c.forceEngaged
    ensures Step(c, t, i).1.hold <==>
      && EngagedAfterButtons(t.engage, i.button) && c.enabled && DataIn(i) && !Faulty(c, i)
      && i.pandaReady && i.pandaAllowed && EspIn(c, i)
      && !(PathReady(t.path, i) && i.targetValid && i.mpcValid)
    ensures Step(c, t, i).1.hold ==> Step(c, t, i).1.torque == 0
  {
    hide PressButtons, DebouncePath, Handshake, CutSteer, Desired, LimitTorque;
    ButtonsAndPath(t.engage, t.path, i);
  }

  // ---- The driver against the torque

  /** What the driver's torque allows: up to `hi` to one side and down to `lo` to the other. */
  predicate DriverAllows(v: int, driver: int, l: Limits) {
    && -l.steerMax <= v <= l.steerMax
    && (v > 0 ==> v <= l.steerMax + (l.driverAllowance + driver * l.driverFactor) * l.driverMultiplier)
    && (v < 0 ==> v >= -l.steerMax + (-l.driverAllowance + driver * l.driverFactor) * l.driverMultiplier)
  }

  /** The clamp keeps the request's side and as much of it as the driver's torque allows. */
  lemma DriverClampKeepsMost(desired: int, driver: int, l: Limits)
    requires l.steerMax >= 0
    ensures var r := DriverClamp(desired, driver, l);
            && DriverAllows(r, driver, l)
            && (desired >= 0 ==> 0 <= r <= desired) && (desired <= 0 ==> desired <= r <= 0)
            && forall v | DriverAllows(v, driver, l) && (0 <= v <= desired || desired <= v <= 0) ::
                 AbsInt(v) <= AbsInt(r)
  {
    var up := (l.driverAllowance + driver * l.driverFactor) * l.driverMultiplier;
    var down := (-l.driverAllowance + driver * l.driverFactor) * l.driverMultiplier;
  }

  lemma ProductsOrdered(a: int, b: int, k: int)
    requires a <= b && k >= 0
    ensures a * k <= b * k
  {
    assert (b - a) * k >= 0;
  }

  /** Pushing to one side never allows less torque to that side. */
  lemma DriverClampFollows(desired: int, driver: int, harder: int, l: Limits)
    requires l.driverFactor >= 0 && l.driverMultiplier >= 0 && driver <= harder
    ensures DriverClamp(desired, driver, l) <= DriverClamp(desired, harder, l)
  {
    ProductsOrdered(driver, harder, l.driverFactor);
    ProductsOrdered(l.driverAllowance + driver * l.driverFactor, l.driverAllowance + harder * l.driverFactor,
                    l.driverMultiplier);
    ProductsOrdered(-l.driverAllowance + driver * l.driverFactor, -l.driverAllowance + harder * l.driverFactor,
                    l.driverMultiplier);
  }

  /** The driver turns hard enough to be noticed. */
  predicate Noticed(c: Config, i: Input) {
    i.driverTorque > c.driverTorqueThreshold || -i.driverTorque > c.driverTorqueThreshold
  }

  lemma TimerTick(c: Config, t: State, i: Input)
    requires 0 <= t.driverTimer <= 100
    ensures var (t', r) := Step(c, t, i);
            var before := if r.reset then 100 else t.driverTimer;
            && t'.driverTimer == (if Noticed(c, i) then Max(0, before - 1) else Min(100, before + 5))
            && 0 <= t'.driverTimer <= 100
            && (r.active && t.driverTimer == 0 && !r.reset ==> r.desired == 0)
            && (r.active && before == 100 && !(c.avoidFault && AboveAngle(c, i)) ==> r.desired == i.rawTorque)
  {
    hide Handshake, Reason, PressButtons, DebouncePath, CutSteer, LimitTorque, AboveAngle;
    NoShareNoTorque(i.rawTorque, Share(c, Decide(c, t, i).guard.faultFrames, i));
    FullShare(i.rawTorque);
  }

  lemma NoShareNoTorque(raw: int, share: real)
    ensures Fade(raw, 0.0, share) == 0
  {
    assert Prod(raw as real, 0.0) == 0.0 && Prod(0.0, share) == 0.0;
  }

  lemma FullShare(raw: int)
    ensures Fade(raw, 1.0, 1.0) == raw
  {
    assert Prod(Prod(raw as real, 1.0), 1.0) == raw as real;
  }

  lemma {:induction false} TimerInRange(c: Config, s: State, ins: seq<Input>, k: nat)
    requires s == INITIAL && k <= |ins|
    ensures 0 <= At(c, s, ins, k).driverTimer <= 100
  {
    hide Step;
    if k > 0 {
      TimerInRange(c, s, ins, k - 1);
      TimerTick(c, At(c, s, ins, k - 1), ins[k - 1]);
    }
  }

  /** While the driver turns and nothing is reset the torque fades by one part in a hundred a tick. */
  lemma {:induction false} DriverFades(c: Config, s: State, ins: seq<Input>, a: nat, n: nat)
    requires s == INITIAL && a + n <= |ins|
    requires forall j | a <= j < a + n :: Noticed(c, ins[j]) && !Out(c, s, ins, j).reset
    ensures At(c, s, ins, a + n).driverTimer == Max(0, At(c, s, ins, a).driverTimer - n)
  {
    hide Step, Noticed;
    if n > 0 {
      DriverFades(c, s, ins, a, n - 1);
      TimerInRange(c, s, ins, a + n - 1);
      TimerTick(c, At(c, s, ins, a + n - 1), ins[a + n - 1]);
      assert Noticed(c, ins[a + n - 1]) && !Out(c, s, ins, a + n - 1).reset;
    } else {
      TimerInRange(c, s, ins, a);
    }
  }

  /** After a second of it no torque is asked for. */
  lemma DriverTakesOver(c: Config, s: State, ins: seq<Input>, a: nat)
    requires s == INITIAL && a + 100 < |ins|
    requires forall j | a <= j <= a + 100 :: Noticed(c, ins[j]) && !Out(c, s, ins, j).reset
    ensures Out(c, s, ins, a + 100).desired == 0
  {
    hide Step, Noticed, At;
    TimerInRange(c, s, ins, a);
    DriverFades(c, s, ins, a, 100);
    TimerTick(c, At(c, s, ins, a + 100), ins[a + 100]);
    DesiredWhenActive(c, At(c, s, ins, a + 100), ins[a + 100]);
  }

  lemma DesiredWhenActive(c: Config, t: State, i: Input)
    ensures !Step(c, t, i).1.active ==> Step(c, t, i).1.desired == 0 == Step(c, t, i).1.torque
  {
    hide Desired, LimitTorque, Decide;
  }

  /** And after a fifth of a second without it, all of it is there again. */
  lemma {:induction false} DriverLetsGo(c: Config, s: State, ins: seq<Input>, a: nat, n: nat)
    requires s == INITIAL && a + n <= |ins|
    requires forall j | a <= j < a + n :: !Noticed(c, ins[j])
    ensures At(c, s, ins, a + n).driverTimer >= Min(100, At(c, s, ins, a).driverTimer + 5 * n)
  {
    hide Step, Noticed;
    TimerInRange(c, s, ins, a);
    if n > 0 {
      DriverLetsGo(c, s, ins, a, n - 1);
      TimerInRange(c, s, ins, a + n - 1);
      TimerTick(c, At(c, s, ins, a + n - 1), ins[a + n - 1]);
      assert !Noticed(c, ins[a + n - 1]);
    }
  }

  // ---- The path debounce

  predicate TimeRuns(ins: seq<Input>) {
    forall i, j | 0 <= i <= j < |ins| :: 0.0 <= ins[i].now <= ins[j].now
  }

  lemma PathTick(c: Config, t: State, i: Input)
    ensures Step(c, t, i).0.path == DebouncePath(t.path, i.pathUsable, i.now)
    ensures Step(c, t, i).1.active ==> Step(c, t, i).0.path.usable
  {
    hide Desired, LimitTorque, CutSteer, Handshake;
  }

  /** Steering resumes only after the path was usable for half a second without a break. */
  lemma {:induction false} PathReturnsLate(c: Config, s: State, ins: seq<Input>, i: nat, k: nat)
    requires TimeRuns(ins) && i < k <= |ins| && !ins[i].pathUsable
    ensures var p := At(c, s, ins, k).path;
      && p.seenInvalid
      && (p.validSince < 0.0 || p.validSince >= ins[i].now)
      && (p.usable || Out(c, s, ins, k - 1).active ==> ins[k - 1].now - ins[i].now >= PATH_RETURN_S)
  {
    hide Step;
    PathTick(c, At(c, s, ins, k - 1), ins[k - 1]);
    if k > i + 1 {
      PathReturnsLate(c, s, ins, i, k - 1);
    }
  }

  // ---- The controller object

  /** LateralController with its fields, in three groups, updated in the source's own order. */
  class Controller {
    const config: Config
    var engage: Engage
    var path: PathState
    var guard: Guard
    var lastTorque: int
    var driverTimer: int

    ghost function View(): State
      reads this
    {
      State(engage, path, guard, lastTorque, driverTimer)
    }

    constructor (c: Config)
      ensures config == c && View() == INITIAL
    {
      config := c;
      engage, path, guard := INITIAL.engage, INITIAL.path, CLEAR_GUARD;
      lastTorque, driverTimer := 0, 100;
    }

    method ResetControlState()
      modifies this`guard, this`lastTorque, this`driverTimer
      ensures guard == CLEAR_GUARD && lastTorque == 0 && driverTimer == 100
    {
      lastTorque := 0;
      guard := CLEAR_GUARD;
      driverTimer := 100;
    }

    /** Give up the engagement and clear the control state. */
    method Release(now: real)
      modifies this`engage, this`guard, this`lastTorque, this`driverTimer
      ensures engage == Disengage(old(engage), now)
      ensures guard == CLEAR_GUARD && lastTorque == 0 && driverTimer == 100
    {
      engage := engage.(pending := false, engaged := false);
      ResetControlState();
      engage := engage.(lastDisengage := now);
    }

    method UpdateButtonState(button: int, now: real)
      modifies this`engage, this`guard, this`lastTorque, this`driverTimer
      ensures engage == PressButtons(old(engage), button, now)
      ensures if Cancels(old(engage), button)
        then guard == CLEAR_GUARD && lastTorque == 0 && driverTimer == 100
        else guard == old(guard) && lastTorque == old(lastTorque) && driverTimer == old(driverTimer)
    {
      if button == engage.lastButton { return; }
      if button == BUTTON_CANCEL {
        Release(now);
      } else if button == 0 && engage.lastButton == BUTTON_SET {
        engage := engage.(engaged := true);
      }
      engage := engage.(lastButton := button);
    }

    method UpdatePath(usable: bool, now: real)
      modifies this`path
      ensures path == DebouncePath(old(path), usable, now)
    {
      if !usable {
        path := PathState(-1.0, false, true);
      } else if !path.usable {
        if path.validSince < 0.0 { path := path.(validSince := now); }
        if !path.seenInvalid || now - path.validSince >= PATH_RETURN_S { path := path.(usable := true); }
      }
    }

    method UpdateCutSteerState(active: bool, i: Input) returns (cutting: bool)
      modifies this`guard
      ensures guard == CutSteer(config, old(guard), active, i) && cutting == guard.cut
    {
      if config.avoidFault && active && AboveAngle(config, i) {
        guard := guard.(angleCounter := guard.angleCounter + 1);
      } else {
        guard := guard.(angleCounter := 0);
      }
      if (if config.avoidFault then guard.angleCounter else i.mdpsErrorCount) > config.maxFrames {
        guard := guard.(cut := true);
      } else if guard.cutCount >= Max(1, config.cutFrames) {
        guard := guard.(cutCount := 0, cut := false);
      }
      if !guard.cut { return false; }
      guard := guard.(angleCounter := 0, cutCount := guard.cutCount + 1);
      return true;
    }

    /** The engage handshake part of update. */
    method UpdateHandshake(requested: bool, kind: BlockKind, now: real, logical: bool) returns (rejected: bool)
      requires logical == (config.forceEngaged || engage.engaged)
      modifies this`engage, this`guard, this`lastTorque, this`driverTimer
      ensures (engage, rejected) == Handshake(config, old(engage), requested, kind, now)
      ensures if rejected || (logical && kind == Hard)
        then guard == CLEAR_GUARD && lastTorque == 0 && driverTimer == 100
        else guard == old(guard) && lastTorque == old(lastTorque) && driverTimer == old(driverTimer)
    {
      rejected := false;
      if logical && kind == Hard {
        Release(now);
      }
      if requested {
        if kind == Transient {
          engage := engage.(pending := true, pendingSince := now);
        } else {
          engage := engage.(pending := false);
        }
      }
      if requested && (kind == Hard || kind == Reject) {
        engage := engage.(engaged := false);
        ResetControlState();
        engage := engage.(lastDisengage := now);
        rejected := true;
      }
      if engage.pending {
        if kind == Clear || kind == Availability {
          engage := engage.(pending := false);
        } else if kind != Transient || now - engage.pendingSince >= ENGAGE_GRACE_S {
          Release(now);
          rejected := true;
        }
      }
    }

    method UpdateGates(i: Input) returns (g: Gates)
      modifies this
      ensures g == PassGates(config, old(View()), i)
      ensures View() == if g.reset then State(g.engage, g.path, CLEAR_GUARD, 0, 100)
                        else State(g.engage, g.path, old(guard), old(lastTorque), old(driverTimer))
    {
      hide Handshake, DebouncePath, PressButtons, Reason, Kind;
      var requested := !config.forceEngaged && !engage.engaged && i.button == 0 && engage.lastButton == BUTTON_SET;
      var cancelled := i.button != engage.lastButton && i.button == BUTTON_CANCEL;
      UpdateButtonState(i.button, i.now);
      var logical := config.forceEngaged || engage.engaged;
      UpdatePath(i.pathUsable, i.now);
      var reason := Reason(config, engage.engaged, path.usable, i);
      var rejected := UpdateHandshake(requested, Kind(reason), i.now, logical);
      g := Gates(engage, path, logical, reason, rejected, cancelled || (logical && Kind(reason) == Hard) || rejected);
    }

    /** Everything up to the torque request. */
    method UpdateDecision(i: Input) returns (d: Decision)
      modifies this
      ensures d == Decide(config, old(View()), i)
      ensures View() == State(d.engage, d.path, d.guard, if d.reset then 0 else old(lastTorque),
                              if d.reset then 100 else old(driverTimer))
    {
      hide PassGates, CutSteer, AboveAngle, Kind;
      var g := UpdateGates(i);
      var kind := Kind(g.reason);
      var active := kind == Clear;
      var hold := g.logical && !active && (kind == Availability || g.reason == LateralPlanInvalid);
      var cutting := UpdateCutSteerState(active, i);
      var above := active && config.avoidFault && AboveAngle(config, i);
      guard := guard.(faultFrames := if above then guard.faultFrames + 1 else 0);
      d := Decision(engage, path, guard,
                    if g.rejected || (g.logical && kind == Hard) then config.forceEngaged else g.logical,
                    active, g.rejected, g.reset, g.reason, hold);
    }

    /** One 10 ms tick is exactly the specified step. */
    method Update(i: Input) returns (r: Result)
      modifies this
      ensures (View(), r) == Step(config, old(View()), i)
    {
      hide Decide, Desired, LimitTorque, DriverGuard;
      var d := UpdateDecision(i);
      var desired, torque := 0, 0;
      if d.active {
        desired := Desired(config, guard.faultFrames, driverTimer, i);
        torque := LimitTorque(desired, lastTorque, i.driverTorque, config.limits);
      }
      lastTorque := torque;
      driverTimer := DriverGuard(config, driverTimer, i);
      r := Result(d.engaged, d.active, d.rejected, d.reset, d.reason, d.hold, guard.cut, desired, torque);
    }
  }
}
