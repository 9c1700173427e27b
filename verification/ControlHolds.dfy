/** Two short holds in front of the controller: the panda's last verdict for up to 100 ms when none can be
    made, and the last good path for up to 150 ms under a bad model frame. Times are nanoseconds. */
module ControlHolds {
  const PANDA_MODEL := 24
  const PANDA_PARAM := 0
  const PANDA_TIMEOUT: nat := 1_100_000_000
  const PANDA_HOLD: nat := 100_000_000
  const PATH_HOLD: nat := 150_000_000

  /** An unset stamp and one from the future are both stale. */
  predicate Fresh(stamp: nat, now: nat, maxAge: nat) { stamp != 0 && stamp <= now && now - stamp <= maxAge }

  // ---- The panda gate

  datatype Panda = Panda(
    stamp: nat, connected: bool, commsHealthy: bool, txEnabled: bool, heartbeatLost: bool,
    safetyMode: int, safetyParam: int, controlsAllowed: bool)

  datatype Moment = Moment(panda: Panda, now: nat, forced: bool)

  datatype PandaOutput = PandaOutput(
    stateFresh: bool, readyRaw: bool, controlsOff: bool, hold: bool, ready: bool, controlsAllowed: bool)

  datatype PandaState = PandaState(haveLast: bool, lastAllowed: bool, lastReady: nat)

  const NO_PANDA := PandaState(false, false, 0)

  predicate ReadyRaw(m: Moment) {
    && Fresh(m.panda.stamp, m.now, PANDA_TIMEOUT) && m.panda.connected && m.panda.commsHealthy && m.panda.txEnabled
    && !m.panda.heartbeatLost && m.panda.safetyMode == PANDA_MODEL && m.panda.safetyParam == PANDA_PARAM
  }

  function Remember(s: PandaState, m: Moment): PandaState {
    if ReadyRaw(m) then PandaState(true, m.panda.controlsAllowed, m.now) else s
  }

  predicate Holds(s: PandaState, m: Moment) {
    !ReadyRaw(m) && s.haveLast && s.lastReady <= m.now && m.now - s.lastReady <= PANDA_HOLD
  }

  function Judge(s: PandaState, m: Moment): PandaOutput {
    var raw := ReadyRaw(m);
    var held := Holds(s, m);
    PandaOutput(
      Fresh(m.panda.stamp, m.now, PANDA_TIMEOUT), raw, raw && !m.panda.controlsAllowed, held,
      m.forced || raw || held,
      m.forced || (raw && m.panda.controlsAllowed) || (held && s.lastAllowed))
  }

  function PandaAfter(ms: seq<Moment>): PandaState {
    if ms == [] then NO_PANDA else Remember(PandaAfter(ms[..|ms| - 1]), ms[|ms| - 1])
  }

  /** The last judgeable snapshot of a run. */
  ghost predicate LastReadyAt(ms: seq<Moment>, j: int) {
    0 <= j < |ms| && ReadyRaw(ms[j]) && forall m | j < m < |ms| :: !ReadyRaw(ms[m])
  }

  lemma OneLastReady(ms: seq<Moment>, j: int, k: int)
    requires LastReadyAt(ms, j) && LastReadyAt(ms, k)
    ensures j == k
  {}

  lemma {:induction false} RemembersLastReady(ms: seq<Moment>) returns (j: int)
    ensures var s := PandaAfter(ms);
            if s.haveLast
            then LastReadyAt(ms, j) && s.lastAllowed == ms[j].panda.controlsAllowed && s.lastReady == ms[j].now
            else j == -1 && forall m | 0 <= m < |ms| :: !ReadyRaw(ms[m])
  {
    if ms == [] {
      j := -1;
    } else if ReadyRaw(ms[|ms| - 1]) {
      j := |ms| - 1;
    } else {
      var rest := ms[..|ms| - 1];
      j := RemembersLastReady(rest);
      forall m | j < m < |ms| ensures !ReadyRaw(ms[m]) {
        if m < |rest| { assert !ReadyRaw(rest[m]); }
      }
    }
  }

  /** Without forcing, controls are allowed exactly when the latest judgeable snapshot, this one or one at
      most 100 ms ago, said so. An explicit refusal is therefore never held over. */
  lemma AllowedMeansRecentlyAllowed(ms: seq<Moment>, m: Moment)
    requires !m.forced
    ensures Judge(PandaAfter(ms), m).controlsAllowed <==>
            exists j :: LastReadyAt(ms + [m], j) && (ms + [m])[j].panda.controlsAllowed
                        && (ms + [m])[j].now <= m.now <= (ms + [m])[j].now + PANDA_HOLD
  {
    var all := ms + [m];
    var j := RemembersLastReady(all);
    assert all[..|all| - 1] == ms;
    if j >= 0 {
      assert LastReadyAt(all, j);
      forall k | LastReadyAt(all, k) { OneLastReady(all, j, k); }
    } else {
      forall k ensures !LastReadyAt(all, k) {}
    }
  }

  /** A panda that reported within 1.1 s, is connected and healthy, may transmit, hears the heartbeat and runs the
      expected safety model. */
  predicate Healthy(p: Panda, now: nat) {
    && p.stamp > 0 && p.stamp <= now <= p.stamp + 1_100_000_000
    && p.connected && p.commsHealthy && p.txEnabled && !p.heartbeatLost
    && (p.safetyMode, p.safetyParam) == (24, 0)
  }

  /** Controls are never allowed without a healthy panda that allowed them at most 100 ms ago, and no healthy one
      since then that did not. */
  lemma AllowedNeedsHealth(ms: seq<Moment>, m: Moment)
    requires !m.forced && Judge(PandaAfter(ms), m).controlsAllowed
    ensures exists j :: 0 <= j <= |ms|
              && Healthy((ms + [m])[j].panda, (ms + [m])[j].now) && (ms + [m])[j].panda.controlsAllowed
              && (ms + [m])[j].now <= m.now <= (ms + [m])[j].now + 100_000_000
              && forall k | j < k <= |ms| :: !Healthy((ms + [m])[k].panda, (ms + [m])[k].now)
  {
    AllowedMeansRecentlyAllowed(ms, m);
    var j :| LastReadyAt(ms + [m], j) && (ms + [m])[j].panda.controlsAllowed
             && (ms + [m])[j].now <= m.now <= (ms + [m])[j].now + PANDA_HOLD;
    forall k | 0 <= k <= |ms| { ReadyIsHealthy((ms + [m])[k]); }
    hide ReadyRaw, Healthy, Judge, PandaAfter;
  }

  lemma ReadyIsHealthy(m: Moment)
    ensures ReadyRaw(m) <==> Healthy(m.panda, m.now)
  {}

  /** A healthy panda decides at once: what it says is what is put out, and a refusal is reported as one. */
  lemma HealthyDecides(s: PandaState, m: Moment)
    requires Healthy(m.panda, m.now)
    ensures var o := Judge(s, m);
            && o.stateFresh && o.readyRaw && o.ready && !o.hold
            && (o.controlsAllowed <==> m.forced || m.panda.controlsAllowed)
            && (o.controlsOff <==> !m.panda.controlsAllowed)
    ensures Remember(s, m) == PandaState(true, m.panda.controlsAllowed, m.now)
  {}

  /** Without one the last verdict stands for 100 ms, and then nothing is ready unless forced. */
  lemma UnhealthyHolds(s: PandaState, m: Moment)
    requires !Healthy(m.panda, m.now)
    ensures var (o, held) := (Judge(s, m), s.haveLast && s.lastReady <= m.now <= s.lastReady + 100_000_000);
            && !o.readyRaw && !o.controlsOff && o.hold == held && (o.ready <==> m.forced || held)
            && (o.controlsAllowed <==> m.forced || (held && s.lastAllowed))
    ensures Remember(s, m) == s
  {}

  class PandaHealthGate {
    var haveLast: bool
    var lastAllowed: bool
    var lastReady: nat

    ghost function View(): PandaState
      reads this
    {
      PandaState(haveLast, lastAllowed, lastReady)
    }

    constructor ()
      ensures View() == NO_PANDA
    {
      haveLast, lastAllowed, lastReady := false, false, 0;
    }

    method Update(m: Moment) returns (o: PandaOutput)
      modifies this
      ensures View() == Remember(old(View()), m) && o == Judge(old(View()), m)
    {
      var fresh_ := Fresh(m.panda.stamp, m.now, PANDA_TIMEOUT);
      var transport := fresh_ && m.panda.connected && m.panda.commsHealthy && m.panda.txEnabled;
      var safety := !m.panda.heartbeatLost && m.panda.safetyMode == PANDA_MODEL && m.panda.safetyParam == PANDA_PARAM;
      var raw := transport && safety;
      var allowedRaw := raw && m.panda.controlsAllowed;
      if raw { haveLast, lastAllowed, lastReady := true, allowedRaw, m.now; }
      var held := !raw && haveLast && m.now >= lastReady && m.now - lastReady <= PANDA_HOLD;
      o := PandaOutput(fresh_, raw, raw && !m.panda.controlsAllowed, held, m.forced || raw || held,
                       m.forced || allowedRaw || (held && lastAllowed));
    }
  }

  // ---- The path

  datatype Coordinate = NotFinite | Finite(v: real)

  datatype Point = Point(x: Coordinate, y: Coordinate)

  datatype Reason = NoReason | ModelInvalid | ModelStale | PathInvalid

  datatype Path = Path(points: nat, reach: real, left: bool, right: bool, usable: bool, reason: Reason)

  datatype Model = Model(valid: bool, stamp: nat, leftProbability: real, rightProbability: real, plan: seq<Point>)

  const NO_PATH := Path(0, 0.0, false, false, false, NoReason)

  /** A point counts when it lies in the useful range and beyond every counted one. */
  predicate Counts(p: Point, points: nat, reach: real) {
    p.x.Finite? && p.y.Finite? && 1.0 <= p.x.v <= 80.0 && !(points > 0 && p.x.v <= reach)
  }

  function Reached(plan: seq<Point>): (r: (nat, real)) {
    if plan == [] then (0, 0.0)
    else
      var ((points, reach), p) := (Reached(plan[..|plan| - 1]), plan[|plan| - 1]);
      if Counts(p, points, reach) then (points + 1, p.x.v) else (points, reach)
  }

  function PathOf(model: Model, now: nat, timeout: nat): Path {
    if !model.valid then NO_PATH.(reason := ModelInvalid)
    else if !Fresh(model.stamp, now, timeout) then NO_PATH.(reason := ModelStale)
    else
      var (points, reach) := Reached(model.plan);
      var usable := points >= 4 && reach >= 5.0;
      Path(points, reach, model.leftProbability >= 0.3, model.rightProbability >= 0.3, usable,
           if usable then NoReason else PathInvalid)
  }

  // ---- What a path's points are

  /** A point in the useful range that is a number. */
  predicate Usable(p: Point) { p.x.Finite? && p.y.Finite? && 1.0 <= p.x.v && p.x.v <= 80.0 }

  /** It lies beyond every useful one before it. */
  ghost predicate Advances(plan: seq<Point>, k: nat)
    requires k < |plan|
  {
    Usable(plan[k]) && forall m | 0 <= m < k && Usable(plan[m]) :: plan[m].x.v < plan[k].x.v
  }

  ghost function Advancing(plan: seq<Point>): set<nat> { set k: nat | k < |plan| && Advances(plan, k) }

  /** The points counted are the ones that advance; the reach is the farthest useful x, and 0 without any. */
  lemma {:induction false} ReachedMeans(plan: seq<Point>)
    ensures var (points, reach) := Reached(plan);
            && points == |Advancing(plan)|
            && (forall k | 0 <= k < |plan| && Usable(plan[k]) :: plan[k].x.v <= reach)
            && (if points == 0 then reach == 0.0
                else exists k :: 0 <= k < |plan| && Usable(plan[k]) && plan[k].x.v == reach)
            && (points == 0 ==> forall k | 0 <= k < |plan| :: !Usable(plan[k]))
  {
    if plan != [] {
      var (rest, p) := (plan[..|plan| - 1], plan[|plan| - 1]);
      ReachedMeans(rest);
      AdvancingPush(rest, p);
      assert plan == rest + [p];
      assert Advances(plan, |rest|) <==> Counts(p, Reached(rest).0, Reached(rest).1);
    }
  }

  lemma AdvancingPush(plan: seq<Point>, p: Point)
    ensures var all := plan + [p];
            Advancing(all) == Advancing(plan) + if Advances(all, |plan|) then {|plan|} else {}
    ensures |plan| !in Advancing(plan)
  {
    var all := plan + [p];
    forall k: nat | k < |plan| ensures Advances(all, k) <==> Advances(plan, k) {
      assert forall m | 0 <= m <= k :: all[m] == plan[m];
    }
  }

  /** A path is usable exactly when the model is valid and fresh, at least four points advance, and a useful one
      lies at least five metres out; lanes are reported from a probability of three tenths on. */
  lemma UsableExactly(model: Model, now: nat, timeout: nat)
    ensures var p := PathOf(model, now, timeout);
            var fresh_ := 0 < model.stamp <= now && now <= model.stamp + timeout;
            && (p.usable <==> && model.valid && fresh_ && |Advancing(model.plan)| >= 4
                              && exists k :: 0 <= k < |model.plan| && Usable(model.plan[k]) && model.plan[k].x.v >= 5.0)
            && (p.reason == (if !model.valid then ModelInvalid else if !fresh_ then ModelStale
                             else if p.usable then NoReason else PathInvalid))
            && (model.valid && fresh_ ==> (p.left <==> 10.0 * model.leftProbability >= 3.0)
                                          && (p.right <==> 10.0 * model.rightProbability >= 3.0))
            && (!model.valid || !fresh_ ==> !p.left && !p.right && p.points == 0)
  {
    ReachedMeans(model.plan);
    hide Reached, Advancing, Usable;
  }

  method PathFromModelState(model: Model, now: nat, timeout: nat) returns (path: Path)
    ensures path == PathOf(model, now, timeout)
  {
    path := NO_PATH;
    if !model.valid { return path.(reason := ModelInvalid); }
    if model.stamp == 0 || now < model.stamp || now - model.stamp > timeout {
      return path.(reason := ModelStale);
    }
    path := path.(left := model.leftProbability >= 0.3, right := model.rightProbability >= 0.3);
    for i := 0 to |model.plan|
      invariant (path.points, path.reach) == Reached(model.plan[..i])
      invariant path == NO_PATH.(points := path.points, reach := path.reach,
                                 left := model.leftProbability >= 0.3, right := model.rightProbability >= 0.3)
    {
      var p := model.plan[i];
      assert model.plan[..i + 1][..i] == model.plan[..i];
      if p.x.NotFinite? || p.y.NotFinite? || p.x.v < 1.0 || p.x.v > 80.0 { continue; }
      if path.points > 0 && p.x.v <= path.reach { continue; }
      path := path.(reach := p.x.v, points := path.points + 1);
    }
    assert model.plan[..|model.plan|] == model.plan;
    path := path.(usable := path.points >= 4 && path.reach >= 5.0);
    if !path.usable { path := path.(reason := PathInvalid); }
  }

  // ---- The path hold

  datatype Frame = Frame(model: Model, now: nat)

  datatype PathState = PathState(last: Path, stamp: nat)

  const NO_LAST := PathState(NO_PATH, 0)

  datatype PathOutput = PathOutput(raw: Path, path: Path, hold: bool)

  function Keep(s: PathState, f: Frame, timeout: nat): PathState {
    var raw := PathOf(f.model, f.now, timeout);
    if raw.usable then PathState(raw, f.model.stamp) else s
  }

  predicate HoldsPath(s: PathState, f: Frame, timeout: nat) {
    && PathOf(f.model, f.now, timeout).reason == PathInvalid && s.last.usable
    && Fresh(f.model.stamp, f.now, timeout) && Fresh(s.stamp, f.now, PATH_HOLD)
  }

  function Choose(s: PathState, f: Frame, timeout: nat): PathOutput {
    var raw := PathOf(f.model, f.now, timeout);
    if !raw.usable && HoldsPath(s, f, timeout)
    then PathOutput(raw, s.last.(reason := NoReason), true)
    else PathOutput(raw, raw, false)
  }

  function PathAfter(fs: seq<Frame>, timeout: nat): PathState {
    if fs == [] then NO_LAST else Keep(PathAfter(fs[..|fs| - 1], timeout), fs[|fs| - 1], timeout)
  }

  ghost predicate LastUsableAt(fs: seq<Frame>, timeout: nat, j: int) {
    && 0 <= j < |fs| && PathOf(fs[j].model, fs[j].now, timeout).usable
    && forall m | j < m < |fs| :: !PathOf(fs[m].model, fs[m].now, timeout).usable
  }

  lemma OneLastUsable(fs: seq<Frame>, timeout: nat, j: int, k: int)
    requires LastUsableAt(fs, timeout, j) && LastUsableAt(fs, timeout, k)
    ensures j == k
  {
    hide PathOf;
  }

  lemma {:induction false} KeepsLastUsable(fs: seq<Frame>, timeout: nat) returns (j: int)
    ensures var s := PathAfter(fs, timeout);
            if s.last.usable
            then LastUsableAt(fs, timeout, j) && s.stamp == fs[j].model.stamp
                 && s.last == PathOf(fs[j].model, fs[j].now, timeout)
            else j == -1 && forall m | 0 <= m < |fs| :: !PathOf(fs[m].model, fs[m].now, timeout).usable
  {
    hide PathOf;
    if fs == [] {
      j := -1;
    } else if PathOf(fs[|fs| - 1].model, fs[|fs| - 1].now, timeout).usable {
      j := |fs| - 1;
    } else {
      var rest := fs[..|fs| - 1];
      j := KeepsLastUsable(rest, timeout);
      forall m | j < m < |fs| ensures !PathOf(fs[m].model, fs[m].now, timeout).usable {
        if m < |rest| { assert !PathOf(rest[m].model, rest[m].now, timeout).usable; }
      }
    }
  }

  /** A held path is the last usable one, from a model frame stamped at most 150 ms before now, under a
      current model that is itself fresh. The stamp is the frame's own, so however often the path is held
      the hold ends 150 ms after it. And it is held whenever that much is true. */
  lemma HeldPathIsRecent(fs: seq<Frame>, f: Frame, timeout: nat)
    ensures var o := Choose(PathAfter(fs, timeout), f, timeout);
            && (o.hold ==> exists j ::
                  && LastUsableAt(fs, timeout, j)
                  && o.path == PathOf(fs[j].model, fs[j].now, timeout)
                  && Fresh(fs[j].model.stamp, f.now, PATH_HOLD) && Fresh(f.model.stamp, f.now, timeout))
            && (!o.hold ==> o.path == PathOf(f.model, f.now, timeout))
            && (o.hold <==>
                  && PathOf(f.model, f.now, timeout).reason == PathInvalid
                  && exists j :: LastUsableAt(fs, timeout, j) && Fresh(fs[j].model.stamp, f.now, PATH_HOLD))
  {
    var j := KeepsLastUsable(fs, timeout);
    UsableHasNoReason(f, timeout);
    if j >= 0 {
      UsableHasNoReason(fs[j], timeout);
      forall k | LastUsableAt(fs, timeout, k) { OneLastUsable(fs, timeout, j, k); }
    }
    hide PathOf;
  }

  lemma UsableHasNoReason(f: Frame, timeout: nat)
    ensures var p := PathOf(f.model, f.now, timeout);
            (p.usable ==> p.reason == NoReason) && (p.reason == PathInvalid ==> Fresh(f.model.stamp, f.now, timeout))
  {}

  class PathHoldGate {
    var last: Path
    var stamp: nat

    ghost function View(): PathState
      reads this
    {
      PathState(last, stamp)
    }

    constructor ()
      ensures View() == NO_LAST
    {
      last, stamp := NO_PATH, 0;
    }

    method Update(f: Frame, timeout: nat) returns (o: PathOutput)
      modifies this
      ensures View() == Keep(old(View()), f, timeout) && o == Choose(old(View()), f, timeout)
    {
      var raw := PathFromModelState(f.model, f.now, timeout);
      hide PathOf;
      o := PathOutput(raw, raw, false);
      if raw.usable {
        last, stamp := raw, f.model.stamp;
      } else if raw.reason == PathInvalid && last.usable && Fresh(f.model.stamp, f.now, timeout)
                && stamp != 0 && f.now >= stamp && f.now - stamp <= PATH_HOLD {
        o := PathOutput(raw, last.(reason := NoReason), true);
      }
    }
  }
}
