/** The lateral planner's thread. The control loop overwrites one request and one set of parameters in a
    mailbox; the thread takes what is there, plans, and publishes the newest result. Each critical section
    is one step and the threads interleave freely.

    Requests and parameter sets are known by their number in the order of submission; parameter set 0 is the
    one the worker was built with. */
module PlannerWorker {
  import opened Options

  /** A result remembers the request it answers and the parameters it was planned with. */
  datatype Result = Result(request: nat, params: nat)

  datatype Worker =
    | Waiting
    | Applying(taken: Option<nat>, fresher: Option<nat>)
    | Planning(request: nat)
    | Publishing(result: Result)
    | Gone

  /** `asked[k]` is how many parameter updates had been submitted before request k; `published` lists the
      results in the order they were published. Both are history. */
  datatype State = State(
    mailRequest: nat, requestPending: bool, mailParams: nat, paramsPending: bool, stop: bool,
    latest: Option<Result>, worker: Worker, plannerParams: nat,
    asked: seq<nat>, updates: nat, published: seq<Result>)

  const INITIAL := State(0, false, 0, false, false, None, Waiting, 0, [], 0, [])

  datatype Action = Submit | UpdateParams | Stop | Take | Apply | Plan | Publish

  predicate Enabled(s: State, a: Action) {
    match a
    case Submit | UpdateParams | Stop => true
    case Take => s.worker.Waiting? && (s.stop || s.requestPending || s.paramsPending)
    case Apply => s.worker.Applying?
    case Plan => s.worker.Planning?
    case Publish => s.worker.Publishing?
  }

  /** One step; a step that is not enabled changes nothing. */
  function Step(s: State, a: Action): State {
    if !Enabled(s, a) then s
    else
      match a
      case Submit =>
        s.(mailRequest := |s.asked|, requestPending := true, asked := s.asked + [s.updates])
      case UpdateParams =>
        s.(mailParams := s.updates + 1, paramsPending := true, updates := s.updates + 1)
      case Stop => s.(stop := true)
      case Take =>
        if s.stop then s.(worker := Gone)
        else s.(worker := Applying(if s.requestPending then Some(s.mailRequest) else None,
                                   if s.paramsPending then Some(s.mailParams) else None),
                requestPending := false, paramsPending := false)
      case Apply =>
        s.(plannerParams := if s.worker.fresher.Some? then s.worker.fresher.value else s.plannerParams,
           worker := if s.worker.taken.Some? then Planning(s.worker.taken.value) else Waiting)
      case Plan => s.(worker := Publishing(Result(s.worker.request, s.plannerParams)))
      case Publish =>
        s.(latest := Some(s.worker.result), published := s.published + [s.worker.result], worker := Waiting)
  }

  function Run(actions: seq<Action>): State {
    if actions == [] then INITIAL else Step(Run(actions[..|actions| - 1]), actions[|actions| - 1])
  }

  /** The request being worked on. */
  function InHand(w: Worker): Option<nat> {
    match w
    case Applying(taken, _) => taken
    case Planning(request) => Some(request)
    case Publishing(result) => Some(result.request)
    case _ => None
  }

  /** The parameters the planner has, or is about to get. */
  function Current(s: State): nat {
    if s.worker.Applying? && s.worker.fresher.Some? then s.worker.fresher.value else s.plannerParams
  }

  /** The newest request taken so far, -1 for none. */
  function Newest(s: State): int {
    if InHand(s.worker).Some? then InHand(s.worker).value
    else if s.published != [] then s.published[|s.published| - 1].request
    else -1
  }

  ghost predicate Sound(s: State, r: Result) {
    r.request < |s.asked| && s.asked[r.request] <= r.params <= s.updates
  }

  /** The mailbox holds the newest of each kind; what is no longer in it has been taken. */
  ghost predicate MailInv(s: State) {
    && (s.asked != [] ==> s.mailRequest == |s.asked| - 1)
    && s.mailParams == s.updates
    && (forall k | 0 <= k < |s.asked| :: s.asked[k] <= s.updates)
    && Current(s) <= s.updates && (!s.paramsPending ==> Current(s) == s.updates)
    && (s.requestPending ==> s.asked != [] && Newest(s) < |s.asked| - 1)
    && (!s.requestPending && !s.worker.Gone? ==> Newest(s) == |s.asked| - 1)
    && Newest(s) < |s.asked|
    && (s.worker.Gone? ==> s.stop)
  }

  /** Taken requests only ever get newer. */
  ghost predicate OrderInv(s: State) {
    && (forall i, k | 0 <= i < k < |s.published| :: s.published[i].request < s.published[k].request)
    && (InHand(s.worker).Some? ==>
          forall k | 0 <= k < |s.published| :: s.published[k].request < InHand(s.worker).value)
    && s.latest == if s.published == [] then None else Some(s.published[|s.published| - 1])
  }

  ghost predicate SoundInv(s: State) {
    && (forall k | 0 <= k < |s.published| :: Sound(s, s.published[k]))
    && ((s.worker.Applying? || s.worker.Planning?) && InHand(s.worker).Some? ==>
          Sound(s, Result(InHand(s.worker).value, Current(s))))
    && (s.worker.Publishing? ==> Sound(s, s.worker.result))
  }

  lemma StepKeepsMail(s: State, a: Action)
    requires MailInv(s)
    ensures MailInv(Step(s, a))
  {}

  lemma StepKeepsOrder(s: State, a: Action)
    requires MailInv(s) && OrderInv(s)
    ensures OrderInv(Step(s, a))
  {
    if a.Take? && Enabled(s, a) && s.published != [] {
      assert forall k | 0 <= k < |s.published| :: s.published[k].request <= Newest(s);
    }
  }

  lemma SoundLater(s: State, a: Action, r: Result)
    requires Sound(s, r)
    ensures Sound(Step(s, a), r)
  {}

  lemma StepKeepsSound(s: State, a: Action)
    requires MailInv(s) && SoundInv(s)
    ensures SoundInv(Step(s, a))
  {
    forall r | Sound(s, r) { SoundLater(s, a, r); }
    if a.Take? && Enabled(s, a) && s.requestPending { assert Sound(s, Result(s.mailRequest, s.updates)); }
    hide MailInv;
  }

  lemma {:induction false} RunKeeps(actions: seq<Action>)
    ensures MailInv(Run(actions)) && OrderInv(Run(actions)) && SoundInv(Run(actions))
    decreases |actions|
  {
    if actions != [] {
      hide Step, MailInv, OrderInv, SoundInv;
      RunKeeps(actions[..|actions| - 1]);
      StepKeepsMail(Run(actions[..|actions| - 1]), actions[|actions| - 1]);
      StepKeepsOrder(Run(actions[..|actions| - 1]), actions[|actions| - 1]);
      StepKeepsSound(Run(actions[..|actions| - 1]), actions[|actions| - 1]);
    }
  }

  /** In every interleaving: results come out in the order their requests were submitted, each planned with
      every parameter update submitted before its request, and the result on show is the newest one. */
  lemma PublishesInOrder(actions: seq<Action>)
    ensures var s := Run(actions);
            && (forall i, k | 0 <= i < k < |s.published| :: s.published[i].request < s.published[k].request)
            && (forall k | 0 <= k < |s.published| ::
                  && s.published[k].request < |s.asked|
                  && s.published[k].params >= s.asked[s.published[k].request])
            && s.latest == (if s.published == [] then None else Some(s.published[|s.published| - 1]))
  {
    RunKeeps(actions);
    var s := Run(actions);
    hide Run;
    forall k | 0 <= k < |s.published| ensures Sound(s, s.published[k]) {}
  }

  /** Requests may be overwritten, but never the newest: when the thread rests with nothing pending, the
      result on show answers the last request, and the planner has the last parameters. */
  lemma RestsOnTheNewest(actions: seq<Action>)
    requires Run(actions).worker.Waiting? && !Run(actions).requestPending && !Run(actions).paramsPending
    ensures var s := Run(actions);
            && s.plannerParams == s.updates
            && (s.asked != [] ==> s.latest.Some? && s.latest.value.request == |s.asked| - 1)
  {
    RunKeeps(actions);
    hide Run;
  }

  // ---- Progress

  predicate OfThread(a: Action) { a.Take? || a.Apply? || a.Plan? || a.Publish? }

  /** The steps the thread has still to take if nobody else acts. */
  function Left(s: State): nat {
    var next := if s.stop then 1 else if s.requestPending then 4 else if s.paramsPending then 2 else 0;
    match s.worker
    case Waiting => next
    case Applying(taken, _) => next + if taken.Some? then 3 else 1
    case Planning(_) => next + 2
    case Publishing(_) => next + 1
    case Gone => 0
  }

  /** Whatever the thread can do takes it one step nearer, and while anything is left it can do something. */
  lemma EveryStepCounts(s: State, a: Action)
    requires OfThread(a)
    ensures Enabled(s, a) ==> Left(s) > 0 && Left(Step(s, a)) == Left(s) - 1
    ensures Left(s) > 0 ==>
            Enabled(s, if s.worker.Waiting? then Take
                       else if s.worker.Applying? then Apply
                       else if s.worker.Planning? then Plan
                       else Publish)
  {}

  /** A stop is never forgotten, and there is none that was not asked for. */
  lemma {:induction false} StopStays(actions: seq<Action>)
    ensures Run(actions).stop <==> Stop in actions
    decreases |actions|
  {
    if actions != [] {
      StopStays(actions[..|actions| - 1]);
      assert actions == actions[..|actions| - 1] + [actions[|actions| - 1]];
    }
  }

  /** From every moment of every run, the thread's own steps alone bring it to its end after a stop, and
      otherwise to rest with the last request answered under the last parameters. */
  lemma {:induction false} AnswersTheNewest(actions: seq<Action>) returns (own: seq<Action>)
    ensures |own| == Left(Run(actions)) && forall a <- own :: OfThread(a)
    ensures var (s, end) := (Run(actions), Run(actions + own));
            && end.asked == s.asked && end.updates == s.updates
            && (Stop in actions ==> end.worker.Gone?)
            && (Stop !in actions ==>
                  && end.worker.Waiting? && !end.requestPending && !end.paramsPending
                  && end.plannerParams == s.updates
                  && (s.asked != [] ==> end.latest.Some? && end.latest.value.request == |s.asked| - 1))
    decreases Left(Run(actions))
  {
    hide Run;
    var s := Run(actions);
    RunKeeps(actions);
    StopStays(actions);
    if Left(s) == 0 {
      assert actions + [] == actions;
      return [];
    }
    var a := if s.worker.Waiting? then Take
             else if s.worker.Applying? then Apply
             else if s.worker.Planning? then Plan
             else Publish;
    EveryStepCounts(s, a);
    RunPush(actions, a);
    hide MailInv, OrderInv, SoundInv;
    var rest := AnswersTheNewest(actions + [a]);
    assert Stop in actions + [a] <==> Stop in actions;
    own := [a] + rest;
    assert actions + own == actions + [a] + rest;
  }

  lemma RunPush(actions: seq<Action>, a: Action)
    ensures Run(actions + [a]) == Step(Run(actions), a)
  {
    assert (actions + [a])[..|actions|] == actions;
  }
}
