/** K230CanQueue: a ring of CAN batches between one producing and one consuming process.

    Every load and store of the two counters is a step, and a batch is copied word by word in any
    order. The producer may also reset the queue. Counters are unbounded here except where their
    64-bit difference matters. */
module CanQueue {
  type Batch = seq<int>

  datatype Producer =
    | Idle
    | LoadedWrite(b: Batch, w: nat)
    | LoadedRead(b: Batch, w: nat, r: nat)
    | Filling(b: Batch, w: nat, done: set<nat>)
    | ResetRead
    | ResetWrite
    | Clearing(i: nat)

  datatype Consumer =
    | Resting
    | GotRead(r: nat)
    | GotWrite(r: nat, w: nat)
    | Draining(r: nat, buffer: Batch, done: set<nat>)

  /** `accepted` and `popped` are history since the last reset: the batches for which push returned
      true and those pop handed out. `stale` is history too: the pop under way loaded the read counter
      before the latest reset had stored both counters. */
  datatype State = State(
    writeSeq: nat, readSeq: nat, slots: seq<Batch>,
    producer: Producer, consumer: Consumer,
    accepted: seq<Batch>, popped: seq<Batch>, stale: bool)

  datatype Action =
    | Push(b: Batch) | LoadReadSeq | Decide | FillWord(j: nat) | Publish
    | Reset | StoreRead | StoreWrite | ClearSlot
    | Pop | LoadWriteSeq | Check | DrainWord(j: nat) | Release

  const TWO_64: nat := 0x1_0000_0000_0000_0000

  /** Subtraction of two uint64_t values. */
  function Sub64(a: nat, b: nat): nat { (a - b) % TWO_64 }

  predicate Resetting(p: Producer) { p.ResetRead? || p.ResetWrite? || p.Clearing? }

  /** One step of either process over a ring of `n` slots of `len` words; a step that is not enabled
      changes nothing. */
  function Step(n: nat, len: nat, s: State, a: Action): (t: State)
    requires n > 0 && |s.slots| == n
    ensures |t.slots| == n
  {
    match a
    case Push(b) =>
      if s.producer.Idle? && |b| == len then s.(producer := LoadedWrite(b, s.writeSeq)) else s
    case LoadReadSeq =>
      if s.producer.LoadedWrite?
      then s.(producer := LoadedRead(s.producer.b, s.producer.w, s.readSeq)) else s
    case Decide =>
      if !s.producer.LoadedRead? then s
      else if Sub64(s.producer.w, s.producer.r) >= n then s.(producer := Idle)
      else s.(producer := Filling(s.producer.b, s.producer.w, {}))
    case FillWord(j) =>
      if s.producer.Filling? && j < len && j < |s.producer.b| && j < |s.slots[s.producer.w % n]|
      then s.(slots := s.slots[s.producer.w % n := s.slots[s.producer.w % n][j := s.producer.b[j]]],
              producer := s.producer.(done := s.producer.done + {j}))
      else s
    case Publish =>
      if s.producer.Filling? && forall j | 0 <= j < len :: j in s.producer.done
      then s.(writeSeq := s.producer.w + 1, accepted := s.accepted + [s.producer.b], producer := Idle)
      else s
    case Reset => if s.producer.Idle? then s.(producer := ResetRead) else s
    case StoreRead =>
      if s.producer.ResetRead?
      then s.(readSeq := 0, accepted := [], popped := [], producer := ResetWrite, stale := !s.consumer.Resting?)
      else s
    case StoreWrite =>
      if s.producer.ResetWrite? then s.(writeSeq := 0, producer := Clearing(0)) else s
    case ClearSlot =>
      if !s.producer.Clearing? then s
      else if s.producer.i < n
      then s.(slots := s.slots[s.producer.i := seq(len, _ => 0)], producer := Clearing(s.producer.i + 1))
      else s.(producer := Idle)
    case Pop =>
      if s.consumer.Resting? then s.(consumer := GotRead(s.readSeq), stale := s.producer.ResetWrite?) else s
    case LoadWriteSeq =>
      if s.consumer.GotRead? then s.(consumer := GotWrite(s.consumer.r, s.writeSeq)) else s
    case Check =>
      if !s.consumer.GotWrite? then s
      else if s.consumer.r == s.consumer.w || s.consumer.w < s.consumer.r
           || Sub64(s.consumer.w, s.consumer.r) > n
      then s.(consumer := Resting)
      else s.(consumer := Draining(s.consumer.r, seq(len, _ => 0), {}))
    case DrainWord(j) =>
      if s.consumer.Draining? && j < |s.consumer.buffer| && j < |s.slots[s.consumer.r % n]|
      then s.(consumer := s.consumer.(buffer := s.consumer.buffer[j := s.slots[s.consumer.r % n][j]],
                                      done := s.consumer.done + {j}))
      else s
    case Release =>
      if s.consumer.Draining? && forall j | 0 <= j < len :: j in s.consumer.done
      then s.(readSeq := s.consumer.r + 1, popped := s.popped + [s.consumer.buffer], consumer := Resting)
      else s
  }

  function Run(n: nat, len: nat, s: State, acts: seq<Action>): (t: State)
    requires n > 0 && |s.slots| == n
    ensures |t.slots| == n
    decreases |acts|
  {
    if acts == [] then s else Run(n, len, Step(n, len, s, acts[0]), acts[1..])
  }

  predicate Init(n: nat, len: nat, s: State) {
    && n > 0 && |s.slots| == n && (forall b <- s.slots :: |b| == len)
    && s.writeSeq == s.readSeq == 0 && s.accepted == s.popped == []
    && s.producer == Idle && s.consumer == Resting && !s.stale
  }

  /** What the queue owes at every moment. A reset that has stored only its first counter has forgotten
      everything. */
  ghost predicate Sound(n: nat, len: nat, s: State)
    requires n > 0 && |s.slots| == n
  {
    if s.producer.ResetWrite? then s.readSeq == 0 && s.accepted == s.popped == [] else QueueInv(n, len, s)
  }

  ghost predicate Inv(n: nat, len: nat, s: State) {
    && 0 < n < TWO_64 && |s.slots| == n && (forall b <- s.slots :: |b| == len)
    && ProducerInv(n, len, s)
    && (!s.stale ==> ConsumerInv(n, len, s))
    && (s.producer.ResetWrite? ==> s.consumer.Resting? || s.stale)
    && (s.producer.Clearing? ==> s.writeSeq == 0)
    && Sound(n, len, s)
  }

  /** The ring holds exactly the accepted batches that were not popped yet. */
  ghost predicate QueueInv(n: nat, len: nat, s: State)
    requires n > 0 && |s.slots| == n
  {
    && s.readSeq <= s.writeSeq <= s.readSeq + n
    && |s.accepted| == s.writeSeq && s.popped == s.accepted[..s.readSeq]
    && (forall b <- s.accepted :: |b| == len)
    && forall i | s.readSeq <= i < s.writeSeq :: s.slots[i % n] == s.accepted[i]
  }

  ghost predicate ProducerInv(n: nat, len: nat, s: State)
    requires n > 0 && |s.slots| == n
  {
    match s.producer
    case LoadedWrite(b, w) => w == s.writeSeq && |b| == len
    case LoadedRead(b, w, r) => w == s.writeSeq && |b| == len && r <= s.readSeq && w <= r + n
    case Filling(b, w, done) =>
      && w == s.writeSeq && |b| == len && w < s.readSeq + n
      && forall j <- done :: j < len && j < |s.slots[w % n]| && s.slots[w % n][j] == b[j]
    case _ => true
  }

  ghost predicate ConsumerInv(n: nat, len: nat, s: State)
    requires n > 0 && |s.slots| == n
  {
    match s.consumer
    case GotRead(r) => r == s.readSeq
    case GotWrite(r, w) => r == s.readSeq && w <= s.writeSeq && r <= w <= r + n
    case Draining(r, buffer, done) =>
      && r == s.readSeq && r < s.writeSeq && |buffer| == len
      && forall j <- done :: j < len && j < |s.slots[r % n]| && buffer[j] == s.slots[r % n][j]
    case Resting => true
  }

  lemma Multiple(n: nat, d: int)
    ensures d <= 0 ==> n * d <= 0
    ensures d >= 1 ==> n * d >= n
  {}

  lemma Sub64Exact(a: nat, b: nat)
    requires b <= a < b + TWO_64
    ensures Sub64(a, b) == a - b
  {}

  /** The slot being filled is never one that is still to be read. */
  lemma {:induction false} SlotsApart(n: nat, i: nat, w: nat)
    requires n > 0 && i < w < i + n
    ensures i % n != w % n
  {
    var d := w / n - i / n;
    assert w - i == n * d + (w % n - i % n);
    if i % n == w % n {
      Multiple(n, d);
    }
  }

  lemma FillKeeps(n: nat, len: nat, s: State, j: nat)
    requires Inv(n, len, s) && s.producer.Filling?
    ensures Inv(n, len, Step(n, len, s, FillWord(j)))
  {
    forall i | s.readSeq <= i < s.writeSeq ensures i % n != s.writeSeq % n {
      SlotsApart(n, i, s.writeSeq);
    }
  }

  lemma PublishedQueue(n: nat, len: nat, s: State)
    requires Inv(n, len, s) && s.producer.Filling? && forall j | 0 <= j < len :: j in s.producer.done
    ensures QueueInv(n, len, Step(n, len, s, Publish))
  {
    hide ConsumerInv;
    assert s.slots[s.producer.w % n] == s.producer.b;
    var s' := Step(n, len, s, Publish);
    assert s'.popped == s'.accepted[..s'.readSeq];
  }

  lemma PublishKeeps(n: nat, len: nat, s: State)
    requires Inv(n, len, s) && s.producer.Filling?
    ensures Inv(n, len, Step(n, len, s, Publish))
  {
    if forall j | 0 <= j < len :: j in s.producer.done { PublishedQueue(n, len, s); }
    hide QueueInv;
  }

  /** This step lets a pop hand out its batch. */
  ghost predicate Releases(len: nat, s: State, a: Action) {
    a.Release? && s.consumer.Draining? && forall j | 0 <= j < len :: j in s.consumer.done
  }

  /** The pop holds the oldest unread batch. */
  ghost predicate HoldsOldest(s: State) {
    && s.consumer.Draining? && s.consumer.r == s.readSeq
    && s.readSeq < |s.accepted| && s.consumer.buffer == s.accepted[s.readSeq]
  }

  /** A stale pop is let go only if what it holds happens to be the oldest unread batch. */
  ghost predicate Harmless(len: nat, s: State, a: Action) {
    Releases(len, s, a) && s.stale ==> HoldsOldest(s)
  }

  lemma ReleaseKeeps(n: nat, len: nat, s: State)
    requires Inv(n, len, s) && Harmless(len, s, Release)
    ensures Inv(n, len, Step(n, len, s, Release))
  {
    if Releases(len, s, Release) && !s.stale {
      assert s.consumer.buffer == s.slots[s.consumer.r % n];
      assert s.consumer.buffer == s.accepted[s.readSeq];
    }
  }

  lemma SoundAfterRelease(n: nat, len: nat, s: State)
    requires Inv(n, len, s) && Releases(len, s, Release) && Sound(n, len, Step(n, len, s, Release))
    ensures HoldsOldest(s)
  {
    var t := Step(n, len, s, Release);
    if !s.producer.ResetWrite? {
      assert |t.popped| == s.readSeq + 1 == t.readSeq;
      assert t.popped[s.readSeq] == s.consumer.buffer;
    }
    hide ProducerInv, ConsumerInv;
  }

  /** Letting go of anything else breaks the queue at once. */
  lemma ReleaseBreaks(n: nat, len: nat, s: State)
    requires Inv(n, len, s) && Releases(len, s, Release) && !HoldsOldest(s)
    ensures !Sound(n, len, Step(n, len, s, Release))
  {
    hide ProducerInv, ConsumerInv, Sound, Step, Releases, HoldsOldest;
    if Sound(n, len, Step(n, len, s, Release)) { SoundAfterRelease(n, len, s); }
  }

  lemma DecideKeeps(n: nat, len: nat, s: State)
    requires Inv(n, len, s) && s.producer.LoadedRead?
    ensures Inv(n, len, Step(n, len, s, Decide))
  {
    Sub64Exact(s.producer.w, s.producer.r);
  }

  lemma CheckKeeps(n: nat, len: nat, s: State)
    requires Inv(n, len, s) && s.consumer.GotWrite?
    ensures Inv(n, len, Step(n, len, s, Check))
  {
    if !s.stale { Sub64Exact(s.consumer.w, s.consumer.r); }
  }

  lemma LoadKeeps(n: nat, len: nat, s: State, a: Action)
    requires Inv(n, len, s) && (a.Push? || a.LoadReadSeq? || a.Pop? || a.LoadWriteSeq? || a.DrainWord?)
    ensures Inv(n, len, Step(n, len, s, a))
  {}

  lemma ResetKeeps(n: nat, len: nat, s: State, a: Action)
    requires Inv(n, len, s) && (a.Reset? || a.StoreRead? || a.StoreWrite? || a.ClearSlot?)
    ensures Inv(n, len, Step(n, len, s, a))
  {}

  lemma StepKeeps(n: nat, len: nat, s: State, a: Action)
    requires Inv(n, len, s) && Harmless(len, s, a)
    ensures Inv(n, len, Step(n, len, s, a))
  {
    match a
    case FillWord(j) => if s.producer.Filling? { FillKeeps(n, len, s, j); }
    case Publish => if s.producer.Filling? { PublishKeeps(n, len, s); }
    case Release => ReleaseKeeps(n, len, s);
    case Decide => if s.producer.LoadedRead? { DecideKeeps(n, len, s); }
    case Check => if s.consumer.GotWrite? { CheckKeeps(n, len, s); }
    case Reset | StoreRead | StoreWrite | ClearSlot => ResetKeeps(n, len, s, a);
    case Push(_) | LoadReadSeq | Pop | LoadWriteSeq | DrainWord(_) => LoadKeeps(n, len, s, a);
    hide Inv, Harmless;
  }

  ghost predicate SoundThroughout(n: nat, len: nat, s: State, acts: seq<Action>)
    requires n > 0 && |s.slots| == n
    decreases |acts|
  {
    Sound(n, len, s) && (acts == [] || SoundThroughout(n, len, Step(n, len, s, acts[0]), acts[1..]))
  }

  ghost predicate HarmlessThroughout(n: nat, len: nat, s: State, acts: seq<Action>)
    requires n > 0 && |s.slots| == n
    decreases |acts|
  {
    acts == [] || (Harmless(len, s, acts[0]) && HarmlessThroughout(n, len, Step(n, len, s, acts[0]), acts[1..]))
  }

  /** When resets may overlap pops in any way, the queue stays a FIFO throughout a run exactly if no pop
      is let go that loaded the read counter before the latest reset's stores, other than one that
      holds the oldest unread batch all the same. */
  lemma {:induction false} SoundExactly(n: nat, len: nat, s: State, acts: seq<Action>)
    requires Inv(n, len, s)
    ensures SoundThroughout(n, len, s, acts) <==> HarmlessThroughout(n, len, s, acts)
    ensures HarmlessThroughout(n, len, s, acts) ==> Inv(n, len, Run(n, len, s, acts))
    decreases |acts|
  {
    if acts != [] {
      if Harmless(len, s, acts[0]) {
        StepKeeps(n, len, s, acts[0]);
        SoundExactly(n, len, Step(n, len, s, acts[0]), acts[1..]);
      } else {
        ReleaseBreaks(n, len, s);
      }
    }
  }

  /** A reset and a pop are kept apart. */
  predicate Apart(s: State, a: Action) {
    && (a.Reset? ==> s.consumer.Resting?)
    && (a.Pop? ==> !Resetting(s.producer))
  }

  ghost predicate ApartThroughout(n: nat, len: nat, s: State, acts: seq<Action>)
    requires n > 0 && |s.slots| == n
    decreases |acts|
  {
    acts == [] || (Apart(s, acts[0]) && ApartThroughout(n, len, Step(n, len, s, acts[0]), acts[1..]))
  }

  lemma {:induction false} ApartIsHarmless(n: nat, len: nat, s: State, acts: seq<Action>)
    requires n > 0 && |s.slots| == n && ApartThroughout(n, len, s, acts)
    requires !s.stale && (Resetting(s.producer) ==> s.consumer.Resting?)
    ensures HarmlessThroughout(n, len, s, acts)
    decreases |acts|
  {
    if acts != [] {
      ApartIsHarmless(n, len, Step(n, len, s, acts[0]), acts[1..]);
    }
  }

  /** FIFO. In every interleaving that keeps resets and pops apart the popped batches are exactly the first
      accepted pushes, in order; the depth stays within the ring, and every accepted batch not yet
      popped is intact in its slot. */
  lemma FifoOverAllRuns(n: nat, len: nat, s: State, acts: seq<Action>)
    requires n < TWO_64 && Init(n, len, s) && ApartThroughout(n, len, s, acts)
    ensures SoundThroughout(n, len, s, acts)
    ensures var t := Run(n, len, s, acts); !Resetting(t.producer) ==> QueueInv(n, len, t)
  {
    ApartIsHarmless(n, len, s, acts);
    SoundExactly(n, len, s, acts);
  }

  /** A push is refused exactly when the ring was full at the moment it read read_seq. */
  lemma RefusedIffFull(n: nat, len: nat, s: State)
    requires Inv(n, len, s) && s.producer.LoadedWrite?
    ensures var t := Step(n, len, s, LoadReadSeq);
      Step(n, len, t, Decide).producer.Idle? <==> s.writeSeq - s.readSeq == n
  {
    Sub64Exact(s.writeSeq, s.readSeq);
  }

  /** A pop finds nothing exactly when the ring was empty at the moment it read write_seq. */
  lemma EmptyIffNothing(n: nat, len: nat, s: State)
    requires Inv(n, len, s) && s.consumer.GotRead? && !s.stale
    ensures var t := Step(n, len, s, LoadWriteSeq);
      Step(n, len, t, Check).consumer.Resting? <==> s.accepted == s.popped
  {
    Sub64Exact(s.writeSeq, s.readSeq);
  }

  // ---- A reset that overlaps a pop

  /** A queue behind its own reader. */
  ghost predicate Wedged(n: nat, s: State) {
    && 0 < n && |s.slots| == n
    && s.writeSeq < s.readSeq <= TWO_64 - n
    && (match s.producer
        case Idle => true
        case LoadedWrite(_, w) => w == s.writeSeq
        case LoadedRead(_, w, r) => w == s.writeSeq && r == s.readSeq
        case _ => false)
    && (match s.consumer
        case Resting => true
        case GotRead(r) => r == s.readSeq
        case GotWrite(r, w) => r == s.readSeq && w == s.writeSeq
        case _ => false)
  }

  /** A ring of two one-word slots as it is created. */
  const CREATED := State(0, 0, [[0], [0]], Idle, Resting, [], [], false)

  function PushOf(x: int): seq<Action> { [Push([x]), LoadReadSeq, Decide, FillWord(0)] + [Publish] }

  const POP_TO_DRAIN: seq<Action> := [Pop, LoadWriteSeq, Check, DrainWord(0)]

  const WHOLE_RESET: seq<Action> := [Reset, StoreRead, StoreWrite, ClearSlot] + [ClearSlot, ClearSlot]

  lemma {:induction false} RunsOn(n: nat, len: nat, s: State, a: seq<Action>, b: seq<Action>)
    requires n > 0 && |s.slots| == n
    ensures Run(n, len, s, a + b) == Run(n, len, Run(n, len, s, a), b)
    decreases |a|
  {
    if a == [] {
      assert a + b == b;
    } else {
      assert (a + b)[1..] == a[1..] + b;
      RunsOn(n, len, Step(n, len, s, a[0]), a[1..], b);
    }
  }

  lemma RunTwo(n: nat, len: nat, s: State, a: Action, b: Action)
    requires n > 0 && |s.slots| == n
    ensures Run(n, len, s, [a, b]) == Step(n, len, Step(n, len, s, a), b)
    ensures Run(n, len, s, [a]) == Step(n, len, s, a)
  {
    hide Step;
    var t := Step(n, len, s, a);
    assert [a, b][1..] == [b];
    assert Run(n, len, t, [b]) == Run(n, len, Step(n, len, t, b), []);
  }

  lemma RunFour(n: nat, len: nat, s: State, a: Action, b: Action, c: Action, d: Action)
    requires n > 0 && |s.slots| == n
    ensures Run(n, len, s, [a, b, c, d]) == Step(n, len, Step(n, len, Step(n, len, Step(n, len, s, a), b), c), d)
  {
    hide Step, Run;
    assert [a, b, c, d] == [a, b] + [c, d];
    RunsOn(n, len, s, [a, b], [c, d]);
    RunTwo(n, len, s, a, b);
    RunTwo(n, len, Run(n, len, s, [a, b]), c, d);
  }

  /** The slot is filled. */
  lemma PushFills(s: State, x: int)
    requires |s.slots| == 2 && |s.slots[s.writeSeq % 2]| == 1 && s.producer.Idle?
    requires s.readSeq <= s.writeSeq < s.readSeq + 2
    ensures Step(2, 1, Step(2, 1, Step(2, 1, Step(2, 1, s, Push([x])), LoadReadSeq), Decide), FillWord(0))
         == s.(slots := s.slots[s.writeSeq % 2 := [x]], producer := Filling([x], s.writeSeq, {0}))
  {
    Sub64Exact(s.writeSeq, s.readSeq);
    var s3 := Step(2, 1, Step(2, 1, Step(2, 1, s, Push([x])), LoadReadSeq), Decide);
    assert s3 == s.(producer := Filling([x], s.writeSeq, {}));
    assert s.slots[s.writeSeq % 2][0 := x] == [x];
    assert Step(2, 1, s3, FillWord(0)).producer == Filling([x], s.writeSeq, {0});
  }

  /** An undisturbed push. */
  lemma RunPush(s: State, x: int)
    requires |s.slots| == 2 && |s.slots[s.writeSeq % 2]| == 1 && s.producer.Idle?
    requires s.readSeq <= s.writeSeq < s.readSeq + 2
    ensures Run(2, 1, s, PushOf(x)) == s.(
              writeSeq := s.writeSeq + 1, accepted := s.accepted + [[x]], slots := s.slots[s.writeSeq % 2 := [x]])
  {
    var filled := s.(slots := s.slots[s.writeSeq % 2 := [x]], producer := Filling([x], s.writeSeq, {0}));
    assert Step(2, 1, filled, Publish) == filled.(
        writeSeq := s.writeSeq + 1, accepted := s.accepted + [[x]], producer := Idle);
    hide Step, Run;
    PushFills(s, x);
    RunsOn(2, 1, s, [Push([x]), LoadReadSeq, Decide, FillWord(0)], [Publish]);
    RunFour(2, 1, s, Push([x]), LoadReadSeq, Decide, FillWord(0));
    RunTwo(2, 1, filled, Publish, Publish);
  }

  /** A pop up to the point where its batch is copied. */
  lemma RunPop(s: State)
    requires |s.slots| == 2 && |s.slots[s.readSeq % 2]| == 1 && s.consumer.Resting? && !s.producer.ResetWrite?
    requires s.readSeq < s.writeSeq <= s.readSeq + 2
    ensures Run(2, 1, s, POP_TO_DRAIN)
         == s.(consumer := Draining(s.readSeq, s.slots[s.readSeq % 2], {0}), stale := false)
  {
    Sub64Exact(s.writeSeq, s.readSeq);
    RunFour(2, 1, s, Pop, LoadWriteSeq, Check, DrainWord(0));
    var s3 := Step(2, 1, Step(2, 1, Step(2, 1, s, Pop), LoadWriteSeq), Check);
    assert s3 == s.(consumer := Draining(s.readSeq, seq(1, _ => 0), {}), stale := false);
    assert seq(1, _ => 0)[0 := s.slots[s.readSeq % 2][0]] == s.slots[s.readSeq % 2];
  }

  lemma ResetClearsFirst(s: State)
    requires |s.slots| == 2 && s.producer.Idle?
    ensures Step(2, 1, Step(2, 1, Step(2, 1, Step(2, 1, s, Reset), StoreRead), StoreWrite), ClearSlot)
         == State(0, 0, s.slots[0 := [0]], Clearing(1), s.consumer, [], [], !s.consumer.Resting?)
  {
    assert seq(1, _ => 0) == [0];
  }

  /** A whole reset. */
  lemma RunReset(s: State)
    requires |s.slots| == 2 && s.producer.Idle?
    ensures Run(2, 1, s, WHOLE_RESET) == State(0, 0, [[0], [0]], Idle, s.consumer, [], [], !s.consumer.Resting?)
  {
    var first := State(0, 0, s.slots[0 := [0]], Clearing(1), s.consumer, [], [], !s.consumer.Resting?);
    assert seq(1, _ => 0) == [0];
    assert s.slots[0 := [0]][1 := [0]] == [[0], [0]];
    assert Step(2, 1, first, ClearSlot) == first.(slots := [[0], [0]], producer := Clearing(2));
    hide Run;
    ResetClearsFirst(s);
    RunsOn(2, 1, s, [Reset, StoreRead, StoreWrite, ClearSlot], [ClearSlot, ClearSlot]);
    RunFour(2, 1, s, Reset, StoreRead, StoreWrite, ClearSlot);
    RunTwo(2, 1, first, ClearSlot, ClearSlot);
  }

  /** A push, a pop that has copied the batch, and a whole reset before the pop goes on. */
  const OVERLAP: seq<Action> := PushOf(7) + POP_TO_DRAIN + WHOLE_RESET

  lemma Overlapped()
    ensures Init(2, 1, CREATED)
    ensures Run(2, 1, CREATED, OVERLAP) == State(0, 0, [[0], [0]], Idle, Draining(0, [7], {0}), [], [], true)
  {
    hide Step, Run;
    RunsOn(2, 1, CREATED, PushOf(7) + POP_TO_DRAIN, WHOLE_RESET);
    RunsOn(2, 1, CREATED, PushOf(7), POP_TO_DRAIN);
    RunPush(CREATED, 7);
    assert Run(2, 1, CREATED, PushOf(7)) == State(1, 0, [[7], [0]], Idle, Resting, [[7]], [], false);
    RunPop(State(1, 0, [[7], [0]], Idle, Resting, [[7]], [], false));
    RunReset(State(1, 0, [[7], [0]], Idle, Draining(0, [7], {0}), [[7]], [], false));
  }

  /** If the pop then stores its counter over the zero, the queue is wedged. */
  lemma OverlappingResetWedges()
    ensures Init(2, 1, CREATED) && Wedged(2, Run(2, 1, CREATED, OVERLAP + [Release]))
  {
    hide Run;
    Overlapped();
    RunsOn(2, 1, CREATED, OVERLAP, [Release]);
    RunTwo(2, 1, Run(2, 1, CREATED, OVERLAP), Release, Release);
  }

  /** If two pushes come in between, it is not, and the loss is silent: a batch from before the reset has
      been handed out in place of the first one accepted since. */
  lemma OverlappingResetMisleads()
    ensures var t := Run(2, 1, CREATED, OVERLAP + PushOf(8) + PushOf(9) + [Release]);
            t.popped == [[7]] && t.accepted == [[8], [9]] && t.readSeq == 1 && t.writeSeq == 2
  {
    hide Run;
    Overlapped();
    RunsOn(2, 1, CREATED, OVERLAP + PushOf(8) + PushOf(9), [Release]);
    RunsOn(2, 1, CREATED, OVERLAP + PushOf(8), PushOf(9));
    RunsOn(2, 1, CREATED, OVERLAP, PushOf(8));
    var s := Run(2, 1, CREATED, OVERLAP);
    RunPush(s, 8);
    RunPush(Run(2, 1, s, PushOf(8)), 9);
    RunTwo(2, 1, Run(2, 1, Run(2, 1, s, PushOf(8)), PushOf(9)), Release, Release);
  }

  /** Once wedged, no push is accepted and no pop succeeds until the next reset. */
  lemma {:induction false} WedgedForever(n: nat, len: nat, s: State, acts: seq<Action>)
    requires Wedged(n, s) && forall a <- acts :: !a.Reset?
    ensures var t := Run(n, len, s, acts); Wedged(n, t) && t.accepted == s.accepted && t.popped == s.popped
    decreases |acts|
  {
    if acts != [] {
      WedgedStep(n, len, s, acts[0]);
      WedgedForever(n, len, Step(n, len, s, acts[0]), acts[1..]);
    }
  }

  lemma WedgedStep(n: nat, len: nat, s: State, a: Action)
    requires Wedged(n, s) && !a.Reset?
    ensures var t := Step(n, len, s, a); Wedged(n, t) && t.accepted == s.accepted && t.popped == s.popped
  {
    if a.Decide? && s.producer.LoadedRead? {
      Sub64Wraps(s.producer.w, s.producer.r);
    }
  }

  lemma Sub64Wraps(a: nat, b: nat)
    requires a < b <= TWO_64
    ensures Sub64(a, b) == TWO_64 - (b - a)
  {}
}
