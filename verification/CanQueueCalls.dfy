/** Whole calls on the CAN queue, each left alone from its first step to its last: a push is accepted while there is
    room, a pop hands out the oldest batch while there is one, and a reset leaves an empty queue. */
module CanQueueCalls {
  import opened CanQueue

  ghost predicate Covers(order: seq<nat>, len: nat) { forall j: nat | j < len :: j in order }

  function Fills(order: seq<nat>): seq<Action> { seq(|order|, i requires 0 <= i < |order| => FillWord(order[i])) }

  function Drains(order: seq<nat>): seq<Action> { seq(|order|, i requires 0 <= i < |order| => DrainWord(order[i])) }

  /** The words of the batch may be copied in any order. */
  function WholePush(b: Batch, order: seq<nat>): seq<Action> {
    [Push(b), LoadReadSeq, Decide] + Fills(order) + [Publish]
  }

  function WholePop(order: seq<nat>): seq<Action> {
    [Pop, LoadWriteSeq, Check] + Drains(order) + [Release]
  }

  function Clears(k: nat): seq<Action> { seq(k, _ => ClearSlot) }

  function WholeReset(n: nat): seq<Action> { [Reset, StoreRead, StoreWrite] + Clears(n + 1) }

  lemma {:induction false} RunsOn(n: nat, len: nat, s: State, a: seq<Action>, b: seq<Action>)
    requires n > 0 && |s.slots| == n
    ensures Run(n, len, s, a + b) == Run(n, len, Run(n, len, s, a), b)
    decreases |a|
  {
    hide Step;
    if a == [] {
      assert a + b == b;
    } else {
      assert (a + b)[0] == a[0] && (a + b)[1..] == a[1..] + b;
      RunsOn(n, len, Step(n, len, s, a[0]), a[1..], b);
    }
  }

  lemma ThreeSteps(n: nat, len: nat, s: State, a: Action, b: Action, c: Action)
    requires n > 0 && |s.slots| == n
    ensures Run(n, len, s, [a, b, c]) == Step(n, len, Step(n, len, Step(n, len, s, a), b), c)
  {
    hide Step;
    assert [a, b, c][1..] == [b, c] && [b, c][1..] == [c] && [c][1..] == [];
    assert Run(n, len, Step(n, len, Step(n, len, s, a), b), [c])
        == Step(n, len, Step(n, len, Step(n, len, s, a), b), c);
  }

  lemma OneStep(n: nat, len: nat, s: State, a: Action)
    requires n > 0 && |s.slots| == n
    ensures Run(n, len, s, [a]) == Step(n, len, s, a)
  {
    hide Step;
    assert [a][1..] == [];
  }

  // ---- A push

  lemma {:induction false} FillsRun(n: nat, len: nat, s: State, order: seq<nat>)
    requires Inv(n, len, s) && s.producer.Filling?
    ensures var t := Run(n, len, s, Fills(order));
            && Inv(n, len, t) && t.producer.Filling? && t.producer.b == s.producer.b && t.producer.w == s.producer.w
            && t == s.(producer := t.producer, slots := t.slots)
            && s.producer.done <= t.producer.done && forall j: nat | j in order && j < len :: j in t.producer.done
    decreases |order|
  {
    assert n > 0 && |s.slots| == n;
    hide Step, Inv;
    if order != [] {
      var s1 := Step(n, len, s, FillWord(order[0]));
      FillKeeps(n, len, s, order[0]);
      assert Fills(order)[1..] == Fills(order[1..]);
      FillFrame(n, len, s, order[0]);
      FillsRun(n, len, s1, order[1..]);
      hide Run;
      var t := Run(n, len, s1, Fills(order[1..]));
      forall j: nat | j in order && j < len ensures j in t.producer.done {
        if j != order[0] { assert j in order[1..]; }
      }
    }
  }

  lemma FillFrame(n: nat, len: nat, s: State, j: nat)
    requires Inv(n, len, s) && s.producer.Filling?
    ensures var t := Step(n, len, s, FillWord(j));
            && t.producer.Filling? && t.producer.b == s.producer.b && t.producer.w == s.producer.w
            && s.producer.done <= t.producer.done && t == s.(producer := t.producer, slots := t.slots)
            && (j < len ==> j in t.producer.done)
  {
    assert s.slots[s.producer.w % n] in s.slots;
  }

  /** A push is accepted exactly while the ring has room, and otherwise changes nothing. */
  lemma PushAccepts(n: nat, len: nat, s: State, b: Batch, order: seq<nat>)
    requires Inv(n, len, s) && s.producer.Idle? && |b| == len && Covers(order, len)
    ensures var t := Run(n, len, s, WholePush(b, order));
            if s.writeSeq < s.readSeq + n then
              && Inv(n, len, t) && t.producer.Idle? && t.accepted == s.accepted + [b] && t.writeSeq == s.writeSeq + 1
              && t.readSeq == s.readSeq && t.popped == s.popped && t.consumer == s.consumer && t.stale == s.stale
            else t == s
  {
    assert n > 0 && |s.slots| == n;
    hide Run, Inv, Step;
    var s3 := Run(n, len, s, [Push(b), LoadReadSeq, Decide]);
    ThreeSteps(n, len, s, Push(b), LoadReadSeq, Decide);
    Decided(n, len, s, b);
    RunsOn(n, len, s, [Push(b), LoadReadSeq, Decide], Fills(order) + [Publish]);
    assert WholePush(b, order) == [Push(b), LoadReadSeq, Decide] + (Fills(order) + [Publish]);
    RunsOn(n, len, s3, Fills(order), [Publish]);
    if s.writeSeq < s.readSeq + n {
      FillsRun(n, len, s3, order);
      var s4 := Run(n, len, s3, Fills(order));
      OneStep(n, len, s4, Publish);
      PublishKeeps(n, len, s4);
      Published(n, len, s4);
    } else {
      NothingToFill(n, len, s, order);
      OneStep(n, len, s, Publish);
      NothingToPublish(n, len, s);
    }
  }

  lemma Published(n: nat, len: nat, s: State)
    requires n > 0 && |s.slots| == n && s.producer.Filling? && forall j: nat | j < len :: j in s.producer.done
    ensures Step(n, len, s, Publish)
         == s.(writeSeq := s.producer.w + 1, accepted := s.accepted + [s.producer.b], producer := Idle)
  {}

  lemma NothingToPublish(n: nat, len: nat, s: State)
    requires n > 0 && |s.slots| == n
    ensures s.producer.Idle? ==> Step(n, len, s, Publish) == s
    ensures s.consumer.Resting? ==> Step(n, len, s, Release) == s
  {}

  lemma Decided(n: nat, len: nat, s: State, b: Batch)
    requires Inv(n, len, s) && s.producer.Idle? && |b| == len
    ensures var s3 := Step(n, len, Step(n, len, Step(n, len, s, Push(b)), LoadReadSeq), Decide);
            if s.writeSeq < s.readSeq + n
            then s3 == s.(producer := Filling(b, s.writeSeq, {})) && Inv(n, len, s3) else s3 == s
  {
    Sub64Exact(s.writeSeq, s.readSeq);
  }

  lemma {:induction false} NothingToFill(n: nat, len: nat, s: State, order: seq<nat>)
    requires n > 0 && |s.slots| == n && s.producer.Idle?
    ensures Run(n, len, s, Fills(order)) == s
    decreases |order|
  {
    if order != [] {
      assert Fills(order)[1..] == Fills(order[1..]);
      NothingToFill(n, len, s, order[1..]);
    }
  }

  // ---- A pop

  lemma {:induction false} DrainsRun(n: nat, len: nat, s: State, order: seq<nat>)
    requires Inv(n, len, s) && !s.stale && s.consumer.Draining?
    ensures var t := Run(n, len, s, Drains(order));
            && Inv(n, len, t) && t.consumer.Draining? && t == s.(consumer := t.consumer)
            && s.consumer.done <= t.consumer.done && forall j: nat | j in order && j < len :: j in t.consumer.done
    decreases |order|
  {
    assert n > 0 && |s.slots| == n;
    hide Step, Inv;
    if order != [] {
      var s1 := Step(n, len, s, DrainWord(order[0]));
      LoadKeeps(n, len, s, DrainWord(order[0]));
      assert Drains(order)[1..] == Drains(order[1..]);
      DrainFrame(n, len, s, order[0]);
      DrainsRun(n, len, s1, order[1..]);
      hide Run;
      var t := Run(n, len, s1, Drains(order[1..]));
      forall j: nat | j in order && j < len ensures j in t.consumer.done {
        if j != order[0] { assert j in order[1..]; }
      }
    }
  }

  lemma DrainFrame(n: nat, len: nat, s: State, j: nat)
    requires Inv(n, len, s) && !s.stale && s.consumer.Draining?
    ensures var t := Step(n, len, s, DrainWord(j));
            && t.consumer.Draining? && s.consumer.done <= t.consumer.done && t == s.(consumer := t.consumer)
            && (j < len ==> j in t.consumer.done)
  {
    assert s.slots[s.consumer.r % n] in s.slots;
  }

  /** Whatever the counters: a pop goes on to copy exactly when the write counter it loaded is ahead of the read
      counter by no more than the ring, and otherwise ends with nothing handed out. */
  lemma CheckExactly(n: nat, len: nat, s: State)
    requires 0 < n < TWO_64 && |s.slots| == n && s.consumer.GotWrite? && s.consumer.w < s.consumer.r + TWO_64
    ensures var (t, r, w) := (Step(n, len, s, Check), s.consumer.r, s.consumer.w);
            t == s.(consumer := if r < w <= r + n then Draining(r, seq(len, _ => 0), {}) else Resting)
  {
    if s.consumer.r <= s.consumer.w { Sub64Exact(s.consumer.w, s.consumer.r); }
  }

  /** A pop hands out the oldest batch exactly while there is one, and otherwise changes nothing. */
  lemma PopReturns(n: nat, len: nat, s: State, order: seq<nat>)
    requires Inv(n, len, s) && s.producer.Idle? && s.consumer.Resting? && Covers(order, len)
    ensures var t := Run(n, len, s, WholePop(order));
            && t.consumer.Resting? && t.accepted == s.accepted && t.writeSeq == s.writeSeq && t.slots == s.slots
            && (if s.readSeq < s.writeSeq
                then s.readSeq < |s.accepted| && t.popped == s.popped + [s.accepted[s.readSeq]]
                     && t.readSeq == s.readSeq + 1
                else t.popped == s.popped && t.readSeq == s.readSeq)
  {
    assert n > 0 && |s.slots| == n;
    hide Run, Inv, Step;
    var s3 := Run(n, len, s, [Pop, LoadWriteSeq, Check]);
    ThreeSteps(n, len, s, Pop, LoadWriteSeq, Check);
    Checked(n, len, s);
    RunsOn(n, len, s, [Pop, LoadWriteSeq, Check], Drains(order) + [Release]);
    assert WholePop(order) == [Pop, LoadWriteSeq, Check] + (Drains(order) + [Release]);
    RunsOn(n, len, s3, Drains(order), [Release]);
    if s.readSeq < s.writeSeq {
      DrainsRun(n, len, s3, order);
      var s4 := Run(n, len, s3, Drains(order));
      OneStep(n, len, s4, Release);
      HandedOut(n, len, s4);
    } else {
      NothingToDrain(n, len, s3, order);
      OneStep(n, len, s3, Release);
      NothingToPublish(n, len, s3);
    }
  }

  lemma Checked(n: nat, len: nat, s: State)
    requires Inv(n, len, s) && s.producer.Idle? && s.consumer.Resting?
    ensures var s3 := Step(n, len, Step(n, len, Step(n, len, s, Pop), LoadWriteSeq), Check);
            if s.readSeq < s.writeSeq
            then s3 == s.(consumer := Draining(s.readSeq, seq(len, _ => 0), {}), stale := false) && Inv(n, len, s3)
            else s3 == s.(stale := false)
  {
    Sub64Exact(s.writeSeq, s.readSeq);
  }

  lemma HandedOut(n: nat, len: nat, s: State)
    requires Inv(n, len, s) && !s.stale && s.producer.Idle? && s.consumer.Draining?
    requires forall j: nat | j < len :: j in s.consumer.done
    ensures var t := Step(n, len, s, Release);
            && s.readSeq < |s.accepted| && t.consumer.Resting? && t.popped == s.popped + [s.accepted[s.readSeq]]
            && t.readSeq == s.readSeq + 1 && t.accepted == s.accepted && t.writeSeq == s.writeSeq && t.slots == s.slots
  {
    assert s.consumer.buffer == s.slots[s.consumer.r % n];
  }

  lemma {:induction false} NothingToDrain(n: nat, len: nat, s: State, order: seq<nat>)
    requires n > 0 && |s.slots| == n && s.consumer.Resting?
    ensures Run(n, len, s, Drains(order)) == s
    decreases |order|
  {
    if order != [] {
      assert Drains(order)[1..] == Drains(order[1..]);
      NothingToDrain(n, len, s, order[1..]);
    }
  }

  // ---- A reset

  lemma {:induction false} ClearsRun(n: nat, len: nat, s: State, k: nat)
    requires n > 0 && |s.slots| == n && s.producer.Clearing? && s.producer.i + k <= n + 1
    ensures var t := Run(n, len, s, Clears(k));
            && t == s.(producer := t.producer, slots := t.slots)
            && (if s.producer.i + k <= n then t.producer == Clearing(s.producer.i + k)
                else k > 0 ==> t.producer == Idle)
            && forall i | 0 <= i < n ::
                 t.slots[i] == if s.producer.i <= i < s.producer.i + k then seq(len, _ => 0) else s.slots[i]
    decreases k
  {
    if k > 0 {
      assert Clears(k)[1..] == Clears(k - 1);
      var s1 := Step(n, len, s, ClearSlot);
      if s1.producer.Clearing? { ClearsRun(n, len, s1, k - 1); }
      if k == 1 { assert Clears(0) == []; }
    }
  }

  /** A reset forgets everything and clears every slot, and does nothing else. */
  lemma ResetEmpties(n: nat, len: nat, s: State)
    requires n > 0 && |s.slots| == n && s.producer.Idle?
    ensures var t := Run(n, len, s, WholeReset(n));
            && t.readSeq == t.writeSeq == 0 && t.accepted == t.popped == [] && t.producer.Idle?
            && t.consumer == s.consumer && t.stale == !s.consumer.Resting?
            && forall i | 0 <= i < n :: t.slots[i] == seq(len, _ => 0)
  {
    hide Run;
    var s3 := Run(n, len, s, [Reset, StoreRead, StoreWrite]);
    ThreeSteps(n, len, s, Reset, StoreRead, StoreWrite);
    RunsOn(n, len, s, [Reset, StoreRead, StoreWrite], Clears(n + 1));
    ClearsRun(n, len, s3, n + 1);
  }
}
