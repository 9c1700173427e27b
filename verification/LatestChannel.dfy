/** K230LatestChannel: one seqlocked payload of varying size. The tag word of the cell is the
    payload size; the timestamp word is left out. */
module LatestChannel {
  import opened Seqlock

  const READ_ATTEMPTS: nat := 4

  datatype Phase =
    | Resting
    | AtSeq(attempt: nat)
    | AtSize(attempt: nat, before: nat)
    | Moving(attempt: nat, before: nat, size: nat, done: set<nat>)

  /** What read_new handed to its caller. */
  datatype Received = Received(at: nat, payload: seq<Byte>)

  /** What one read returned. */
  datatype Outcome = Failed | Success(at: nat, payload: seq<Byte>)

  /** A reading process: `capacity` is its buffer, `lastSeq` the caller's last_seq. `started`, the counter
      when the present read began, and `log`, what its reads returned so far, are history. */
  datatype Reader = Reader(
    capacity: nat, phase: Phase, started: nat, buffer: seq<Byte>, lastSeq: nat, received: seq<Received>,
    log: seq<Outcome>)

  datatype ReaderAction = Start | LoadSeq | LoadSize | MoveByte(j: nat) | LoadSeqAgain

  datatype State = State(cell: Cell, writer: Writer, readers: seq<Reader>)

  datatype Action = Publish(wa: WriterAction) | Read(who: nat, ra: ReaderAction)

  /** The result of a successful read inside read_new: a value already seen is not handed over. */
  function Accept(r: Reader, at: nat, size: nat): Reader
    requires size <= |r.buffer|
  {
    var done := r.(phase := Resting, log := r.log + [Success(at, r.buffer[..size])]);
    if at == r.lastSeq then done
    else done.(lastSeq := at, received := r.received + [Received(at, r.buffer[..size])])
  }

  function Fail(r: Reader): Reader { r.(phase := Resting, log := r.log + [Failed]) }

  ghost function ReaderStep(c: Cell, r: Reader, a: ReaderAction): Reader {
    match (r.phase, a)
    case (Resting, Start) => r.(phase := AtSeq(0), started := c.seqNo)
    case (AtSeq(attempt), LoadSeq) =>
      if c.seqNo == 0 || !Even(c.seqNo) then Fail(r)
      else r.(phase := AtSize(attempt, c.seqNo))
    case (AtSize(attempt, before), LoadSize) =>
      if c.tag == 0 || c.tag > r.capacity then Fail(r)
      else r.(phase := Moving(attempt, before, c.tag, {}))
    case (Moving(attempt, before, size, done), MoveByte(j)) =>
      if j < size && j < |c.bytes| && j < |r.buffer|
      then r.(phase := Moving(attempt, before, size, done + {j}), buffer := r.buffer[j := c.bytes[j]])
      else r
    case (Moving(attempt, before, size, done), LoadSeqAgain) =>
      if !(forall j | 0 <= j < size :: j in done) then r
      else if before == c.seqNo && Even(c.seqNo) && size <= |r.buffer| then Accept(r, before, size)
      else if attempt + 1 < READ_ATTEMPTS then r.(phase := AtSeq(attempt + 1))
      else Fail(r)
    case _ => r
  }

  /** A publish stores the payload's own size. */
  ghost function Step(s: State, a: Action): State {
    match a
    case Publish(wa) =>
      if wa.Begin? ==> wa.w.tag == |wa.w.payload|
      then var (c, p) := WriterStep(s.cell, s.writer, wa); s.(cell := c, writer := p)
      else s
    case Read(who, ra) =>
      if who < |s.readers|
      then s.(readers := s.readers[who := ReaderStep(s.cell, s.readers[who], ra)])
      else s
  }

  ghost function Run(s: State, acts: seq<Action>): State {
    if acts == [] then s else Step(Run(s, acts[..|acts| - 1]), acts[|acts| - 1])
  }

  ghost predicate Init(s: State) {
    && s.cell.seqNo == 0 && s.cell.completed == map[] && s.writer == Idle
    && forall r <- s.readers ::
         r.phase == Resting && r.lastSeq == 0 && r.received == [] && r.log == [] && |r.buffer| == r.capacity
  }

  /** Sequence numbers rise strictly and each names a completed, non-empty publish that fits. */
  ghost predicate ReceivedOk(c: Cell, r: Reader) {
    && (forall n | 0 <= n < |r.received| ::
          && r.received[n].at in c.completed
          && r.received[n].payload == c.completed[r.received[n].at].payload
          && Even(r.received[n].at)
          && 0 < |r.received[n].payload| <= r.capacity)
    && (forall m, n | 0 <= m < n < |r.received| :: r.received[m].at < r.received[n].at)
    && r.lastSeq == (if r.received == [] then 0 else r.received[|r.received| - 1].at)
  }

  ghost predicate PhaseOk(c: Cell, r: Reader) {
    && |r.buffer| == r.capacity
    && (!r.phase.Resting? ==>
          && r.lastSeq <= r.started <= c.seqNo
          && (r.phase.AtSeq?
              || (Even(r.phase.before) && r.phase.before != 0 && r.started <= r.phase.before <= c.seqNo)))
    && (r.phase.Moving? ==>
          && 0 < r.phase.size <= r.capacity
          && (c.seqNo == r.phase.before ==>
                && c.tag == r.phase.size
                && forall j <- r.phase.done :: j < |c.bytes| && j < |r.buffer| && r.buffer[j] == c.bytes[j]))
  }

  ghost predicate ReaderInv(c: Cell, r: Reader) {
    PhaseOk(c, r) && ReceivedOk(c, r) && r.lastSeq <= c.seqNo
  }

  /** Each publish stores the size of what it published. */
  ghost predicate Sized(c: Cell) {
    forall n <- c.completed.Keys :: c.completed[n].tag == |c.completed[n].payload|
  }

  ghost predicate Inv(s: State) {
    && CellInv(s.cell, s.writer) && Sized(s.cell)
    && (!s.writer.Idle? ==> s.writer.w.tag == |s.writer.w.payload|)
    && (forall i | 0 <= i < |s.readers| :: ReaderInv(s.cell, s.readers[i]))
  }

  /** When the counter still reads as it did before the copy, the buffer holds that publish. */
  lemma AcceptKeeps(c: Cell, p: Writer, r: Reader)
    requires CellInv(c, p) && Sized(c) && ReaderInv(c, r)
    requires r.phase.Moving? && r.phase.before == c.seqNo
    requires forall j | 0 <= j < r.phase.size :: j in r.phase.done
    ensures r.phase.size <= |r.buffer| && ReaderInv(c, Accept(r, c.seqNo, r.phase.size))
    ensures r.buffer[..r.phase.size] == c.completed[c.seqNo].payload
  {
    var w := c.completed[c.seqNo];
    assert r.buffer[..r.phase.size] == c.bytes[..|w.payload|];
    var r' := Accept(r, c.seqNo, r.phase.size);
    if r.received != [] && c.seqNo != r.lastSeq {
      assert r'.received[|r.received| - 1] == r.received[|r.received| - 1];
    }
  }

  lemma ReadKeeps(c: Cell, p: Writer, r: Reader, a: ReaderAction)
    requires CellInv(c, p) && Sized(c) && ReaderInv(c, r)
    ensures ReaderInv(c, ReaderStep(c, r, a)) && r.received <= ReaderStep(c, r, a).received
  {
    if r.phase.Moving? && a.LoadSeqAgain? && r.phase.before == c.seqNo
       && forall j | 0 <= j < r.phase.size :: j in r.phase.done {
      AcceptKeeps(c, p, r);
    }
  }

  lemma ReaderSurvives(c: Cell, c': Cell, r: Reader)
    requires Evolves(c, c') && ReaderInv(c, r)
    ensures ReaderInv(c', r)
  {}

  lemma StepKeeps(s: State, a: Action)
    requires Inv(s)
    ensures Inv(Step(s, a)) && |Step(s, a).readers| == |s.readers|
  {
    match a
    case Publish(wa) =>
      WriterStepKeeps(s.cell, s.writer, wa);
      var c := WriterStep(s.cell, s.writer, wa).0;
      forall i | 0 <= i < |s.readers| ensures ReaderInv(c, s.readers[i]) {
        ReaderSurvives(s.cell, c, s.readers[i]);
      }
    case Read(who, ra) =>
      if who < |s.readers| {
        ReadKeeps(s.cell, s.writer, s.readers[who], ra);
      }
  }

  lemma {:induction false} RunKeeps(s: State, acts: seq<Action>)
    requires Inv(s)
    ensures Inv(Run(s, acts)) && |Run(s, acts).readers| == |s.readers|
  {
    if acts != [] {
      RunKeeps(s, acts[..|acts| - 1]);
      StepKeeps(Run(s, acts[..|acts| - 1]), acts[|acts| - 1]);
    }
  }

  /** In every interleaving with a writer that may die half way, whatever read_new hands over is one
      whole completed publish, and the sequence numbers a reader sees are even and strictly rise. */
  lemma ReadsWholePublishesInOrder(s: State, acts: seq<Action>, who: nat)
    requires Init(s) && who < |s.readers|
    ensures |Run(s, acts).readers| == |s.readers|
    ensures ReceivedOk(Run(s, acts).cell, Run(s, acts).readers[who])
  {
    RunKeeps(s, acts);
  }

  /** A read is never stale: what it returns was still the newest completed publish at some moment
      after the read began. */
  lemma ReadIsFresh(s: State, who: nat)
    requires Inv(s) && who < |s.readers| && !s.readers[who].phase.Resting?
    ensures var (r, r') := (s.readers[who], ReaderStep(s.cell, s.readers[who], LoadSeqAgain));
      |r'.received| > |r.received| ==>
        && r.started <= r'.lastSeq == s.cell.seqNo
        && r'.received[|r.received|].payload == s.cell.completed[s.cell.seqNo].payload
        && forall n <- s.cell.completed.Keys :: n <= r'.lastSeq
  {
    assert ReaderInv(s.cell, s.readers[who]);
    ReadKeeps(s.cell, s.writer, s.readers[who], LoadSeqAgain);
  }

  // ---- A read that no publish overlaps

  /** The newest completed publish, if there is one in memory that the reader's buffer can take. */
  ghost predicate Readable(c: Cell, capacity: nat) {
    && Even(c.seqNo) && c.seqNo in c.completed
    && 0 < |c.completed[c.seqNo].payload| <= capacity
  }

  /** What a quiet read must answer. */
  ghost function Answer(c: Cell, capacity: nat): Outcome {
    if Readable(c, capacity) then Success(c.seqNo, c.completed[c.seqNo].payload) else Failed
  }

  /** What reads from r0 on have done while the memory stood still. */
  ghost predicate Answered(c: Cell, r0: Reader, r: Reader) {
    && r0.log <= r.log && (forall k | |r0.log| <= k < |r.log| :: r.log[k] == Answer(c, r0.capacity))
    && (if |r.log| > |r0.log| && Readable(c, r0.capacity) && c.seqNo != r0.lastSeq
        then r.lastSeq == c.seqNo && r.received == r0.received + [Received(c.seqNo, c.completed[c.seqNo].payload)]
        else r.lastSeq == r0.lastSeq && r.received == r0.received)
    && r.capacity == r0.capacity
    && match r.phase
       case Resting => true
       case AtSeq(attempt) => attempt == 0
       case AtSize(attempt, before) => attempt == 0 && before == c.seqNo
       case Moving(attempt, before, size, _) => attempt == 0 && before == c.seqNo && Readable(c, r.capacity)
  }

  lemma ReadStepAnswers(c: Cell, p: Writer, r0: Reader, r: Reader, a: ReaderAction)
    requires CellInv(c, p) && Sized(c) && ReaderInv(c, r) && Answered(c, r0, r)
    ensures Answered(c, r0, ReaderStep(c, r, a))
  {
    var r' := ReaderStep(c, r, a);
    if r.phase.Moving? && a.LoadSeqAgain? && forall j | 0 <= j < r.phase.size :: j in r.phase.done {
      AcceptKeeps(c, p, r);
    }
  }

  /** While only readers run, every read of a reader that was at rest succeeds with exactly the newest completed
      publish, if the memory holds one that is not empty and fits, and fails if not; the value is handed
      over the first time, unless it is the one handed over last. */
  lemma {:induction false} QuietReadsAnswer(s: State, acts: seq<Action>, who: nat)
    requires Inv(s) && who < |s.readers| && s.readers[who].phase.Resting? && forall a <- acts :: a.Read?
    ensures Run(s, acts).cell == s.cell && |Run(s, acts).readers| == |s.readers|
    ensures Answered(s.cell, s.readers[who], Run(s, acts).readers[who])
  {
    RunKeeps(s, acts);
    if acts != [] {
      var (rest, a) := (acts[..|acts| - 1], acts[|acts| - 1]);
      assert a in acts;
      QuietReadsAnswer(s, rest, who);
      RunKeeps(s, rest);
      var m := Run(s, rest);
      hide Run, Answered;
      if a.who == who { ReadStepAnswers(s.cell, m.writer, s.readers[who], m.readers[who], a.ra); }
    }
  }

  // ---- Reading and writing to the end

  function Moves(order: seq<nat>): seq<ReaderAction> { seq(|order|, i requires 0 <= i < |order| => MoveByte(order[i])) }

  /** One read from its first step to its last, with the bytes in any order. */
  function WholeRead(order: seq<nat>): seq<ReaderAction> {
    [Start, LoadSeq, LoadSize] + Moves(order) + [LoadSeqAgain]
  }

  function Reads(who: nat, acts: seq<ReaderAction>): seq<Action> {
    seq(|acts|, i requires 0 <= i < |acts| => Read(who, acts[i]))
  }

  function Publishes(acts: seq<WriterAction>): seq<Action> {
    seq(|acts|, i requires 0 <= i < |acts| => Publish(acts[i]))
  }

  lemma RunPush(s: State, acts: seq<Action>, a: Action)
    ensures Run(s, acts + [a]) == Step(Run(s, acts), a)
  {
    assert (acts + [a])[..|acts|] == acts;
  }

  lemma {:induction false} RunsOn(s: State, a: seq<Action>, b: seq<Action>)
    ensures Run(s, a + b) == Run(Run(s, a), b)
    decreases |b|
  {
    if b == [] {
      assert a + b == a;
    } else {
      var (rest, x) := (b[..|b| - 1], b[|b| - 1]);
      RunsOn(s, a, rest);
      assert a + b == a + rest + [x];
      RunPush(s, a + rest, x);
      hide Step;
    }
  }

  ghost function ReaderRun(c: Cell, r: Reader, acts: seq<ReaderAction>): Reader {
    if acts == [] then r else ReaderStep(c, ReaderRun(c, r, acts[..|acts| - 1]), acts[|acts| - 1])
  }

  lemma ReaderRunPush(c: Cell, r: Reader, acts: seq<ReaderAction>, a: ReaderAction)
    ensures ReaderRun(c, r, acts + [a]) == ReaderStep(c, ReaderRun(c, r, acts), a)
  {
    assert (acts + [a])[..|acts|] == acts;
  }

  lemma {:induction false} ReadsRun(s: State, who: nat, acts: seq<ReaderAction>)
    requires who < |s.readers|
    ensures Run(s, Reads(who, acts)) == s.(readers := s.readers[who := ReaderRun(s.cell, s.readers[who], acts)])
    decreases |acts|
  {
    if acts != [] {
      var (rest, a) := (acts[..|acts| - 1], acts[|acts| - 1]);
      ReadsRun(s, who, rest);
      assert Reads(who, acts) == Reads(who, rest) + [Read(who, a)];
      RunPush(s, Reads(who, rest), Read(who, a));
      hide ReaderStep;
    }
  }

  lemma {:induction false} PublishesRun(s: State, acts: seq<WriterAction>)
    requires forall a <- acts :: a.Begin? ==> a.w.tag == |a.w.payload|
    ensures var (c, p) := WriterRun(s.cell, s.writer, acts); Run(s, Publishes(acts)) == s.(cell := c, writer := p)
    decreases |acts|
  {
    if acts != [] {
      var (rest, a) := (acts[..|acts| - 1], acts[|acts| - 1]);
      PublishesRun(s, rest);
      assert a in acts;
      assert Publishes(acts) == Publishes(rest) + [Publish(a)];
      RunPush(s, Publishes(rest), Publish(a));
      hide WriterStep;
    }
  }

  lemma {:induction false} RestsOn(c: Cell, r: Reader, head: seq<ReaderAction>, tail: seq<ReaderAction>)
    requires ReaderRun(c, r, head).phase.Resting? && forall a <- tail :: !a.Start?
    ensures ReaderRun(c, r, head + tail) == ReaderRun(c, r, head)
    decreases |tail|
  {
    if tail == [] {
      assert head + tail == head;
    } else {
      var (rest, a) := (tail[..|tail| - 1], tail[|tail| - 1]);
      RestsOn(c, r, head, rest);
      assert head + tail == head + rest + [a];
      ReaderRunPush(c, r, head + rest, a);
    }
  }

  lemma {:induction false} MovesRun(c: Cell, r: Reader, order: seq<nat>)
    requires r.phase.Moving? && r.phase.size <= |c.bytes| && r.phase.size <= |r.buffer|
    ensures var r' := ReaderRun(c, r, Moves(order));
            && r'.phase.Moving? && r'.phase.before == r.phase.before && r'.phase.size == r.phase.size
            && |r'.buffer| == |r.buffer| && r'.log == r.log
            && r'.phase.attempt == r.phase.attempt && r'.capacity == r.capacity
            && r'.received == r.received && r'.lastSeq == r.lastSeq
            && r'.buffer[r.phase.size..] == r.buffer[r.phase.size..]
            && forall j: nat | j in order && j < r.phase.size :: j in r'.phase.done
    decreases |order|
  {
    if order != [] {
      var (rest, j) := (order[..|order| - 1], order[|order| - 1]);
      MovesRun(c, r, rest);
      assert Moves(order) == Moves(rest) + [MoveByte(j)];
      ReaderRunPush(c, r, Moves(rest), MoveByte(j));
      assert order == rest + [j];
    }
  }

  lemma {:induction false} ReaderRunsOn(c: Cell, r: Reader, a: seq<ReaderAction>, b: seq<ReaderAction>)
    ensures ReaderRun(c, r, a + b) == ReaderRun(c, ReaderRun(c, r, a), b)
    decreases |b|
  {
    if b == [] {
      assert a + b == a;
    } else {
      var (rest, x) := (b[..|b| - 1], b[|b| - 1]);
      ReaderRunsOn(c, r, a, rest);
      assert a + b == a + rest + [x];
      ReaderRunPush(c, r, a + rest, x);
      ReaderRunPush(c, ReaderRun(c, r, a), rest, x);
      assert b == rest + [x];
      hide ReaderStep, ReaderRun;
    }
  }

  lemma FirstSteps(c: Cell, r: Reader)
    ensures ReaderRun(c, r, [Start, LoadSeq, LoadSize])
         == ReaderStep(c, ReaderStep(c, ReaderStep(c, r, Start), LoadSeq), LoadSize)
  {
    hide ReaderStep;
    assert [Start, LoadSeq, LoadSize][..2] == [Start, LoadSeq] && [Start, LoadSeq][..1] == [Start];
    assert [Start][..0] == [];
    assert ReaderRun(c, r, [Start]) == ReaderStep(c, ReaderRun(c, r, []), Start);
    assert ReaderRun(c, r, [Start, LoadSeq]) == ReaderStep(c, ReaderRun(c, r, [Start]), LoadSeq);
  }

  lemma FirstStepsLead(c: Cell, p: Writer, r: Reader)
    requires CellInv(c, p) && Sized(c) && ReaderInv(c, r) && r.phase.Resting?
    ensures var r3 := ReaderRun(c, r, [Start, LoadSeq, LoadSize]);
            || (r3.phase.Resting? && |r3.log| == |r.log| + 1)
            || (&& r3.phase.Moving? && r3.phase.before == c.seqNo && Even(c.seqNo) && r3.log == r.log
                && r3.phase.size == c.tag && c.tag <= |c.bytes| && c.tag <= |r3.buffer|)
  {
    FirstSteps(c, r);
    hide ReaderRun;
  }

  /** A whole read in a quiet memory comes to its end in one go. */
  lemma WholeReadEnds(c: Cell, p: Writer, r: Reader, order: seq<nat>)
    requires CellInv(c, p) && Sized(c) && ReaderInv(c, r) && r.phase.Resting? && AllOf(order, c.tag)
    ensures var r' := ReaderRun(c, r, WholeRead(order)); r'.phase.Resting? && |r'.log| == |r.log| + 1
  {
    hide ReaderRun, CellInv, ReaderInv, Sized;
    var head := [Start, LoadSeq, LoadSize];
    FirstStepsLead(c, p, r);
    var r3 := ReaderRun(c, r, head);
    assert WholeRead(order) == head + (Moves(order) + [LoadSeqAgain]);
    if r3.phase.Resting? {
      RestsOn(c, r, head, Moves(order) + [LoadSeqAgain]);
    } else {
      ReaderRunsOn(c, r, head, Moves(order) + [LoadSeqAgain]);
      MovesRun(c, r3, order);
      ReaderRunPush(c, r3, Moves(order), LoadSeqAgain);
    }
  }

  /** Left alone, a whole read ends with the answer it must give, and that is all it does to the others. */
  lemma WholeReadAnswers(s: State, who: nat, order: seq<nat>)
    requires Inv(s) && who < |s.readers| && s.readers[who].phase.Resting? && AllOf(order, s.cell.tag)
    ensures var (r, s') := (s.readers[who], Run(s, Reads(who, WholeRead(order))));
            && |s'.readers| == |s.readers|
            && var r' := s'.readers[who];
               && r'.log == r.log + [Answer(s.cell, r.capacity)] && r'.phase.Resting?
               && r'.received == r.received
                                 + (if Readable(s.cell, r.capacity) && s.cell.seqNo != r.lastSeq
                                    then [Received(s.cell.seqNo, s.cell.completed[s.cell.seqNo].payload)] else [])
  {
    hide Run, ReaderRun, CellInv, Readable;
    ReadsRun(s, who, WholeRead(order));
    assert ReaderInv(s.cell, s.readers[who]);
    hide ReaderInv, Sized;
    WholeReadEnds(s.cell, s.writer, s.readers[who], order);
    QuietReadsAnswer(s, Reads(who, WholeRead(order)), who);
    var (n, r') := (|s.readers[who].log|, Run(s, Reads(who, WholeRead(order))).readers[who]);
    assert r'.log == s.readers[who].log + [r'.log[n]];
  }

  /** A publish and then a read, each left alone: whatever was published, not empty and no larger than the
      memory and the reader's buffer, is what the reader is handed, under the new number. */
  lemma PublishedIsRead(s: State, who: nat, payload: seq<Byte>, copied: seq<nat>, moved: seq<nat>)
    requires Inv(s) && s.writer == Idle && who < |s.readers| && s.readers[who].phase.Resting?
    requires 0 < |payload| <= |s.cell.bytes| && |payload| <= s.readers[who].capacity
    requires AllOf(copied, |payload|) && AllOf(moved, |payload|)
    ensures var acts := Publishes(WholeWrite(Entry(|payload|, payload), copied)) + Reads(who, WholeRead(moved));
            var s' := Run(s, acts);
            && |s'.readers| == |s.readers|
            && s'.readers[who].received
               == s.readers[who].received + [Received(s.cell.seqNo + (if s.cell.seqNo % 2 == 0 then 2 else 3), payload)]
  {
    hide Run, WriterRun;
    var w := Entry(|payload|, payload);
    var publish := Publishes(WholeWrite(w, copied));
    WholeWriteCompletes(s.cell, w, copied);
    PublishesRun(s, WholeWrite(w, copied));
    RunKeeps(s, publish);
    var s1 := Run(s, publish);
    RunsOn(s, publish, Reads(who, WholeRead(moved)));
    assert ReaderInv(s.cell, s.readers[who]);
    hide CellInv, ReaderInv, Sized, WholeWrite, Publishes, Reads, WholeRead;
    WholeReadAnswers(s1, who, moved);
  }

  // ---- Disturbed reads

  lemma LoadsLead(c: Cell, r: Reader)
    requires r.phase.AtSeq? && Even(c.seqNo) && c.seqNo != 0 && 0 < c.tag <= r.capacity
    ensures ReaderRun(c, r, [LoadSeq, LoadSize]) == r.(phase := Moving(r.phase.attempt, c.seqNo, c.tag, {}))
  {
    assert [LoadSeq, LoadSize][..1] == [LoadSeq] && [LoadSeq][..0] == [];
    assert ReaderRun(c, r, [LoadSeq]) == ReaderStep(c, ReaderRun(c, r, []), LoadSeq);
  }

  /** An attempt during which a publish began is given up and made again, and after the fourth the read fails;
      nothing is handed over, and nothing beyond the size is touched. */
  lemma DisturbedAttempt(c: Cell, d: Cell, r: Reader, order: seq<nat>)
    requires r.phase.AtSeq? && |r.buffer| == r.capacity && d.seqNo != c.seqNo
    requires Even(c.seqNo) && c.seqNo != 0 && 0 < c.tag <= r.capacity && c.tag <= |c.bytes| && AllOf(order, c.tag)
    ensures var r' := ReaderStep(d, ReaderRun(c, r, [LoadSeq, LoadSize] + Moves(order)), LoadSeqAgain);
            && |r'.buffer| == |r.buffer| && r'.buffer[c.tag..] == r.buffer[c.tag..]
            && r'.received == r.received && r'.lastSeq == r.lastSeq && r'.capacity == r.capacity
            && (if r.phase.attempt < 3 then r'.phase == AtSeq(r.phase.attempt + 1) && r'.log == r.log
                else r'.phase.Resting? && r'.log == r.log + [Failed])
  {
    hide ReaderRun;
    var r1 := r.(phase := Moving(r.phase.attempt, c.seqNo, c.tag, {}));
    LoadsLead(c, r);
    ReaderRunsOn(c, r, [LoadSeq, LoadSize], Moves(order));
    MovesRun(c, r1, order);
  }

  /** One attempt of a read: the memory while it copies, and when it looks at the counter again. */
  datatype Attempt = Attempt(copied: Cell, checked: Cell, order: seq<nat>)

  ghost predicate Disturbs(x: Attempt, capacity: nat) {
    var c := x.copied;
    && Even(c.seqNo) && c.seqNo != 0 && 0 < c.tag <= capacity && c.tag <= |c.bytes| && AllOf(x.order, c.tag)
    && x.checked.seqNo != c.seqNo
  }

  ghost function Attempted(r: Reader, xs: seq<Attempt>): Reader {
    if xs == [] then r
    else
      var x := xs[|xs| - 1];
      ReaderStep(x.checked, ReaderRun(x.copied, Attempted(r, xs[..|xs| - 1]), [LoadSeq, LoadSize] + Moves(x.order)),
                 LoadSeqAgain)
  }

  /** A read disturbed again and again hands nothing over, goes on for four attempts, and then fails. */
  lemma {:induction false} GivesUpAfterFour(c: Cell, r: Reader, xs: seq<Attempt>)
    requires r.phase.Resting? && |r.buffer| == r.capacity && |xs| <= 4 && forall x <- xs :: Disturbs(x, r.capacity)
    ensures var r' := Attempted(ReaderStep(c, r, Start), xs);
            && r'.received == r.received && r'.lastSeq == r.lastSeq
            && r'.capacity == r.capacity && |r'.buffer| == |r.buffer|
            && (if |xs| < 4 then r'.phase == AtSeq(|xs|) && r'.log == r.log
                else r'.phase.Resting? && r'.log == r.log + [Failed])
    decreases |xs|
  {
    if xs != [] {
      var x := xs[|xs| - 1];
      GivesUpAfterFour(c, r, xs[..|xs| - 1]);
      assert Disturbs(x, r.capacity);
      hide ReaderStep, ReaderRun;
      DisturbedAttempt(x.copied, x.checked, Attempted(ReaderStep(c, r, Start), xs[..|xs| - 1]), x.order);
    }
  }
}
