/** K230FrameRing: a ring of frame slots, each guarded by its own sequence counter, with one writing
    process and any number of readers that retry. */
module FrameRing {
  import opened Seqlock

  const COPY_ATTEMPTS: nat := 8

  datatype Geometry = Geometry(width: nat, height: nat)

  function FrameBytes(g: Geometry): nat { g.width * g.height * 3 / 2 }

  /** Where a reader wants the frame: one block, or NV12 planes with strides of their own. */
  datatype Layout = Flat | Planes(lumaStride: nat, chromaStride: nat)

  /** One destination byte. */
  datatype Place = Whole(at: nat) | Luma(at: nat) | Chroma(at: nat)

  predicate LayoutOk(g: Geometry, l: Layout) {
    g.width > 0 && (l.Planes? ==> l.lumaStride >= g.width && l.chromaStride >= g.width)
  }

  /** How many of the frame's bytes a copy moves: an odd last row of chroma is not copied. */
  function Count(g: Geometry, l: Layout): nat {
    if l.Flat? then FrameBytes(g) else g.width * g.height + g.width * (g.height / 2)
  }

  /** Where byte j of a plane of rows goes when the rows are `stride` apart. */
  function Strided(width: nat, stride: nat, j: nat): nat
    requires width > 0
  {
    (j / width) * stride + j % width
  }

  /** The destination of frame byte j. */
  function PlaceOf(g: Geometry, l: Layout, j: nat): Place
    requires g.width > 0
  {
    if l.Flat? then Whole(j)
    else if j < g.width * g.height then Luma(Strided(g.width, l.lumaStride, j))
    else Chroma(Strided(g.width, l.chromaStride, j - g.width * g.height))
  }

  lemma {:induction false} CountFits(g: Geometry, l: Layout)
    ensures Count(g, l) <= FrameBytes(g)
  {
    var half := g.height / 2;
    assert g.width * (2 * half) <= g.width * g.height;
    assert 2 * (g.width * half) == g.width * (2 * half);
  }

  lemma {:induction false} RowOrder(width: nat, i: nat, j: nat)
    requires 0 < width && i < j
    ensures i / width <= j / width
    ensures i / width == j / width ==> i % width < j % width
  {
    var ri, rj, ci, cj := i / width, j / width, i % width, j % width;
    assert i == ri * width + ci && j == rj * width + cj;
    if rj < ri {
      LaterRow(width, width, rj, ri, cj, ci);
    }
  }

  lemma {:induction false} LaterRow(width: nat, stride: nat, ri: nat, rj: nat, ci: nat, cj: nat)
    requires ci < width <= stride && ri < rj
    ensures ri * stride + ci < rj * stride + cj
  {
    assert (ri + 1) * stride <= rj * stride;
  }

  /** Rows at least as far apart as they are wide never share a byte. */
  lemma {:induction false} StridedInjective(width: nat, stride: nat, i: nat, j: nat)
    requires 0 < width <= stride && i < j
    ensures Strided(width, stride, i) < Strided(width, stride, j)
  {
    RowOrder(width, i, j);
    if i / width < j / width {
      LaterRow(width, stride, i / width, j / width, i % width, j % width);
    }
  }

  lemma PlacesDistinct(g: Geometry, l: Layout, i: nat, j: nat)
    requires LayoutOk(g, l) && i != j
    ensures PlaceOf(g, l, i) != PlaceOf(g, l, j)
  {
    if l.Planes? {
      var lo, hi := if i < j then i else j, if i < j then j else i;
      var luma := g.width * g.height;
      if hi < luma {
        StridedInjective(g.width, l.lumaStride, lo, hi);
      } else if luma <= lo {
        StridedInjective(g.width, l.chromaStride, lo - luma, hi - luma);
      }
    }
  }

  /** A copy_slot or copy_slot_planes call. */
  datatype Call = Call(slot: nat, frameId: nat, layout: Layout)

  /** What the call wrote, byte by byte. */
  type Dest = map<Place, Byte>

  datatype Phase =
    | Resting
    | AtSeq(call: Call, attempt: nat)
    | AtId(call: Call, attempt: nat, before: nat)
    | Moving(call: Call, attempt: nat, before: nat, done: set<nat>)
    | AtIdAgain(call: Call, attempt: nat, before: nat, after: nat)

  /** `started` is the slot's counter when the call began, `at` the one it succeeded with. */
  datatype Outcome =
    | Delivered(call: Call, started: nat, at: nat, dest: Dest)
    | Refused(call: Call)

  datatype Reader = Reader(phase: Phase, started: nat, dest: Dest, log: seq<Outcome>)

  datatype ReaderAction = Start(call: Call) | LoadSeq | LoadId | MoveByte(j: nat) | LoadSeqAgain | LoadIdAgain

  datatype State = State(slots: seq<Cell>, target: nat, writer: Writer, readers: seq<Reader>)

  datatype Action =
    | Write(slot: nat, wa: WriterAction)
    | Read(who: nat, ra: ReaderAction)

  function Retry(r: Reader, call: Call, attempt: nat): Reader {
    if attempt + 1 < COPY_ATTEMPTS then r.(phase := AtSeq(call, attempt + 1))
    else r.(phase := Resting, log := r.log + [Refused(call)])
  }

  predicate AllMoved(g: Geometry, l: Layout, done: set<nat>) {
    forall j | 0 <= j < Count(g, l) :: j in done
  }

  /** One step of a reader on the slot it is looking at. */
  ghost function ReaderStep(g: Geometry, c: Cell, r: Reader, a: ReaderAction): Reader
    requires g.width > 0
  {
    match (r.phase, a)
    case (Resting, Start(call)) =>
      if LayoutOk(g, call.layout)
      then r.(phase := AtSeq(call, 0), started := c.seqNo, dest := map[])
      else r.(log := r.log + [Refused(call)])
    case (AtSeq(call, attempt), LoadSeq) =>
      if c.seqNo == 0 || !Even(c.seqNo) then Retry(r, call, attempt)
      else r.(phase := AtId(call, attempt, c.seqNo))
    case (AtId(call, attempt, before), LoadId) =>
      if c.tag == call.frameId then r.(phase := Moving(call, attempt, before, {}))
      else if c.tag > call.frameId then r.(phase := Resting, log := r.log + [Refused(call)])
      else Retry(r, call, attempt)
    case (Moving(call, attempt, before, done), MoveByte(j)) =>
      if j < Count(g, call.layout) && j < |c.bytes|
      then r.(phase := Moving(call, attempt, before, done + {j}),
              dest := r.dest[PlaceOf(g, call.layout, j) := c.bytes[j]])
      else r
    case (Moving(call, attempt, before, done), LoadSeqAgain) =>
      if AllMoved(g, call.layout, done)
      then r.(phase := AtIdAgain(call, attempt, before, c.seqNo))
      else r
    case (AtIdAgain(call, attempt, before, after), LoadIdAgain) =>
      if before == after && Even(after) && c.tag == call.frameId
      then r.(phase := Resting, log := r.log + [Delivered(call, r.started, after, r.dest)])
      else Retry(r, call, attempt)
    case _ => r
  }

  function SlotOf(r: Reader, a: ReaderAction): nat {
    if r.phase.Resting? then (if a.Start? then a.call.slot else 0) else r.phase.call.slot
  }

  /** One step of the whole system; a step that is not enabled changes nothing. The writer works
      on one slot at a time and writes whole frames only. */
  ghost function Step(g: Geometry, s: State, a: Action): State
    requires g.width > 0
  {
    match a
    case Write(slot, wa) =>
      var k := if s.writer.Idle? then slot else s.target;
      if k < |s.slots| && (wa.Begin? ==> |wa.w.payload| == FrameBytes(g))
      then
        var (c, p) := WriterStep(s.slots[k], s.writer, wa);
        s.(slots := s.slots[k := c], target := k, writer := p)
      else s
    case Read(who, ra) =>
      if who < |s.readers| && SlotOf(s.readers[who], ra) < |s.slots|
      then s.(readers := s.readers[who := ReaderStep(g, s.slots[SlotOf(s.readers[who], ra)], s.readers[who], ra)])
      else s
  }

  ghost function Run(g: Geometry, s: State, acts: seq<Action>): State
    requires g.width > 0
  {
    if acts == [] then s else Step(g, Run(g, s, acts[..|acts| - 1]), acts[|acts| - 1])
  }

  /** As a fresh ring is created: counters zero, no frame id, bytes zero, no reader busy. */
  ghost predicate Init(g: Geometry, s: State) {
    && s.writer == Idle
    && (forall c <- s.slots :: c.seqNo == 0 && c.completed == map[] && |c.bytes| == FrameBytes(g))
    && (forall r <- s.readers :: r.phase == Resting && r.log == [])
  }

  /** The first `Count` bytes of the frame are at their places, and nothing else was written. */
  ghost predicate Carries(g: Geometry, l: Layout, dest: Dest, frame: seq<Byte>)
    requires g.width > 0
  {
    && Count(g, l) <= |frame|
    && (forall j | 0 <= j < Count(g, l) :: PlaceOf(g, l, j) in dest && dest[PlaceOf(g, l, j)] == frame[j])
    && OnlyPlaces(g, l, dest)
  }

  ghost predicate OnlyPlaces(g: Geometry, l: Layout, dest: Dest)
    requires g.width > 0
  {
    forall p <- dest.Keys :: exists j :: 0 <= j < Count(g, l) && p == PlaceOf(g, l, j)
  }

  /** A success is the whole of one completed write of the frame asked for, and that write was
      still current at some moment of the call. */
  ghost predicate OutcomeOk(g: Geometry, slots: seq<Cell>, o: Outcome)
    requires g.width > 0
  {
    o.Delivered? ==>
      && o.call.slot < |slots|
      && o.started <= o.at
      && o.at in slots[o.call.slot].completed
      && slots[o.call.slot].completed[o.at].tag == o.call.frameId
      && Carries(g, o.call.layout, o.dest, slots[o.call.slot].completed[o.at].payload)
  }

  ghost predicate PhaseOk(g: Geometry, slots: seq<Cell>, r: Reader)
    requires g.width > 0
  {
    r.phase.Resting? ||
    (&& r.phase.call.slot < |slots|
     && r.phase.attempt < COPY_ATTEMPTS
     && LayoutOk(g, r.phase.call.layout)
     && OnlyPlaces(g, r.phase.call.layout, r.dest)
     && r.started <= slots[r.phase.call.slot].seqNo
     && BeforeOk(g, slots[r.phase.call.slot], r))
  }

  ghost predicate BeforeOk(g: Geometry, c: Cell, r: Reader)
    requires g.width > 0 && !r.phase.Resting?
  {
    r.phase.AtSeq? ||
    (&& Even(r.phase.before) && r.phase.before != 0
     && r.started <= r.phase.before <= c.seqNo
     && match r.phase
        case Moving(call, _, before, done) =>
          c.seqNo == before ==>
            && c.tag == call.frameId
            && forall j <- done ::
                 && j < |c.bytes|
                 && PlaceOf(g, call.layout, j) in r.dest
                 && r.dest[PlaceOf(g, call.layout, j)] == c.bytes[j]
        case AtIdAgain(call, _, before, after) =>
          before == after ==>
            && before in c.completed
            && c.completed[before].tag == call.frameId
            && Carries(g, call.layout, r.dest, c.completed[before].payload)
        case _ => true)
  }

  ghost predicate ReaderInv(g: Geometry, slots: seq<Cell>, r: Reader)
    requires g.width > 0
  {
    PhaseOk(g, slots, r) && forall o <- r.log :: OutcomeOk(g, slots, o)
  }

  ghost predicate Inv(g: Geometry, s: State)
    requires g.width > 0
  {
    && (!s.writer.Idle? ==> s.target < |s.slots| && |s.writer.w.payload| == FrameBytes(g))
    && (forall k | 0 <= k < |s.slots| :: SlotInv(g, s, k))
    && (forall i | 0 <= i < |s.readers| :: ReaderInv(g, s.slots, s.readers[i]))
  }

  ghost predicate SlotInv(g: Geometry, s: State, k: nat)
    requires k < |s.slots|
  {
    && |s.slots[k].bytes| == FrameBytes(g)
    && CellInv(s.slots[k], if k == s.target then s.writer else Idle)
    && forall n <- s.slots[k].completed.Keys :: |s.slots[k].completed[n].payload| == FrameBytes(g)
  }

  lemma InitInv(g: Geometry, s: State)
    requires g.width > 0 && Init(g, s)
    ensures Inv(g, s)
  {}

  /** Whatever the writer does, no reader's invariant is disturbed. */
  lemma ReaderSurvives(g: Geometry, slots: seq<Cell>, k: nat, c: Cell, r: Reader)
    requires g.width > 0 && k < |slots| && Evolves(slots[k], c)
    requires ReaderInv(g, slots, r)
    ensures ReaderInv(g, slots[k := c], r)
  {}

  lemma WriteKeeps(g: Geometry, s: State, slot: nat, wa: WriterAction)
    requires g.width > 0 && Inv(g, s)
    ensures Inv(g, Step(g, s, Write(slot, wa)))
  {
    var k := if s.writer.Idle? then slot else s.target;
    if k < |s.slots| && (wa.Begin? ==> |wa.w.payload| == FrameBytes(g)) {
      assert SlotInv(g, s, k);
      WriterStepKeeps(s.slots[k], s.writer, wa);
      var c := WriterStep(s.slots[k], s.writer, wa).0;
      forall i | 0 <= i < |s.readers| ensures ReaderInv(g, s.slots[k := c], s.readers[i]) {
        ReaderSurvives(g, s.slots, k, c, s.readers[i]);
      }
      var s' := Step(g, s, Write(slot, wa));
      forall m | 0 <= m < |s'.slots| ensures SlotInv(g, s', m) {
        assert SlotInv(g, s, m);
      }
    }
  }

  /** A byte moved while the counter still reads `before` is a byte of that frame. */
  lemma MoveKeeps(g: Geometry, c: Cell, r: Reader, j: nat)
    requires g.width > 0 && r.phase.Moving? && LayoutOk(g, r.phase.call.layout)
    requires OnlyPlaces(g, r.phase.call.layout, r.dest) && BeforeOk(g, c, r)
    ensures var r' := ReaderStep(g, c, r, MoveByte(j));
      BeforeOk(g, c, r') && OnlyPlaces(g, r.phase.call.layout, r'.dest)
  {
    var l := r.phase.call.layout;
    if j < Count(g, l) && j < |c.bytes| {
      forall i <- r.phase.done | i != j ensures PlaceOf(g, l, i) != PlaceOf(g, l, j) {
        PlacesDistinct(g, l, i, j);
      }
    }
  }

  lemma ReadKeeps(g: Geometry, slots: seq<Cell>, c: Cell, r: Reader, a: ReaderAction)
    requires g.width > 0 && ReaderInv(g, slots, r)
    requires SlotOf(r, a) < |slots| && c == slots[SlotOf(r, a)]
    requires CellInv(c, Idle) || !Even(c.seqNo)
    requires |c.bytes| == FrameBytes(g)
    requires forall n <- c.completed.Keys :: |c.completed[n].payload| == FrameBytes(g)
    ensures ReaderInv(g, slots, ReaderStep(g, c, r, a))
  {
    match (r.phase, a)
    case (Moving(call, attempt, before, done), MoveByte(j)) =>
      MoveKeeps(g, c, r, j);
    case (Moving(call, attempt, before, done), LoadSeqAgain) =>
      CountFits(g, call.layout);
      if AllMoved(g, call.layout, done) && c.seqNo == before {
        var w := c.completed[before];
        assert c.bytes[..|w.payload|] == c.bytes;
        assert Carries(g, call.layout, r.dest, w.payload);
      }
    case _ =>
  }

  lemma StepKeeps(g: Geometry, s: State, a: Action)
    requires g.width > 0 && Inv(g, s)
    ensures Inv(g, Step(g, s, a))
  {
    match a
    case Write(slot, wa) => WriteKeeps(g, s, slot, wa);
    case Read(who, ra) =>
      if who < |s.readers| && SlotOf(s.readers[who], ra) < |s.slots| {
        var k := SlotOf(s.readers[who], ra);
        assert SlotInv(g, s, k);
        ReadKeeps(g, s.slots, s.slots[k], s.readers[who], ra);
        var s' := Step(g, s, a);
        forall m | 0 <= m < |s'.slots| ensures SlotInv(g, s', m) {
          assert SlotInv(g, s, m);
        }
      }
  }

  lemma {:induction false} RunKeeps(g: Geometry, s: State, acts: seq<Action>)
    requires g.width > 0 && Inv(g, s)
    ensures Inv(g, Run(g, s, acts))
  {
    if acts != [] {
      RunKeeps(g, s, acts[..|acts| - 1]);
      StepKeeps(g, Run(g, s, acts[..|acts| - 1]), acts[|acts| - 1]);
    }
  }

  /** No torn reads. In every interleaving, with a writer that may die at any step and restart, a
      successful call delivers exactly the bytes of one completed write of the frame it asked for,
      at exactly the destinations of its layout, and never a frame that had already been replaced
      when the call began. */
  lemma {:induction false} NoTornFrame(g: Geometry, s: State, acts: seq<Action>, who: nat, n: nat)
    requires g.width > 0 && Init(g, s)
    requires who < |s.readers|
    ensures |Run(g, s, acts).readers| == |s.readers|
    ensures n < |Run(g, s, acts).readers[who].log| ==>
      OutcomeOk(g, Run(g, s, acts).slots, Run(g, s, acts).readers[who].log[n])
  {
    InitInv(g, s);
    RunKeeps(g, s, acts);
    ReadersStay(g, s, acts);
    assert ReaderInv(g, Run(g, s, acts).slots, Run(g, s, acts).readers[who]);
  }

  lemma ReadersStay(g: Geometry, s: State, acts: seq<Action>)
    requires g.width > 0
    ensures |Run(g, s, acts).readers| == |s.readers|
  {}

  /** A call that is in its first attempt on a slot that holds the frame it wants. */
  ghost predicate Undisturbed(g: Geometry, s: State, who: nat, call: Call, log: seq<Outcome>)
    requires g.width > 0
  {
    && who < |s.readers| && call.slot < |s.slots|
    && var (c, r) := (s.slots[call.slot], s.readers[who]);
      && c.seqNo != 0 && Even(c.seqNo) && c.tag == call.frameId
      && if |r.log| > |log|
         then r.log[..|log|] == log && r.log[|log|].Delivered?
         else
           && r.log == log && !r.phase.Resting? && r.phase.call == call && r.phase.attempt == 0
           && (r.phase.AtSeq? || r.phase.before == c.seqNo)
           && (r.phase.AtIdAgain? ==> r.phase.after == c.seqNo)
  }

  /** A call that no writer step overlaps never fails when the slot holds its frame, whatever the
      other readers do. */
  lemma {:induction false} QuietCallSucceeds(
      g: Geometry, s: State, acts: seq<Action>, who: nat, call: Call, log: seq<Outcome>)
    requires g.width > 0
    requires Undisturbed(g, s, who, call, log)
    requires forall a <- acts :: a.Read?
    ensures Undisturbed(g, Run(g, s, acts), who, call, log)
  {
    if acts != [] {
      var (before, a) := (acts[..|acts| - 1], acts[|acts| - 1]);
      assert a in acts;
      QuietCallSucceeds(g, s, before, who, call, log);
      var m := Run(g, s, before);
      if a.who == who && SlotOf(m.readers[who], a.ra) < |m.slots| {
        var r' := ReaderStep(g, m.slots[SlotOf(m.readers[who], a.ra)], m.readers[who], a.ra);
        assert |m.readers[who].log| > |log| ==> r'.log[..|log|] == m.readers[who].log[..|log|];
      }
    }
  }

  // ---- One call on a slot that no writer step touches

  ghost function ReaderRun(g: Geometry, c: Cell, r: Reader, acts: seq<ReaderAction>): Reader
    requires g.width > 0
  {
    if acts == [] then r else ReaderStep(g, c, ReaderRun(g, c, r, acts[..|acts| - 1]), acts[|acts| - 1])
  }

  lemma ReaderRunPush(g: Geometry, c: Cell, r: Reader, acts: seq<ReaderAction>, a: ReaderAction)
    requires g.width > 0
    ensures ReaderRun(g, c, r, acts + [a]) == ReaderStep(g, c, ReaderRun(g, c, r, acts), a)
  {
    assert (acts + [a])[..|acts|] == acts;
  }

  /** The slot holds the frame asked for, and the destination is usable. */
  ghost predicate Held(g: Geometry, c: Cell, call: Call) {
    && LayoutOk(g, call.layout) && Even(c.seqNo) && c.seqNo in c.completed
    && c.completed[c.seqNo].tag == call.frameId
  }

  /** The call is under way, or has answered: with a delivery exactly if the slot holds the frame. */
  ghost predicate CallAnswers(g: Geometry, c: Cell, call: Call, log: seq<Outcome>, r: Reader) {
    if r.phase.Resting?
    then |r.log| == |log| + 1 && r.log[..|log|] == log && r.log[|log|].call == call
         && (r.log[|log|].Delivered? <==> Held(g, c, call))
    else
      && r.log == log && r.phase.call == call && LayoutOk(g, call.layout) && r.phase.attempt < COPY_ATTEMPTS
      && (if Held(g, c, call)
          then r.phase.attempt == 0 && (r.phase.AtSeq? || r.phase.before == c.seqNo)
               && (r.phase.AtIdAgain? ==> r.phase.after == c.seqNo)
          else r.phase.AtSeq? || (r.phase.AtId? && Even(c.seqNo) && c.seqNo != 0))
  }

  lemma CallStepAnswers(g: Geometry, c: Cell, p: Writer, call: Call, log: seq<Outcome>, r: Reader, a: ReaderAction)
    requires g.width > 0 && CellInv(c, p) && CallAnswers(g, c, call, log, r) && !a.Start?
    ensures CallAnswers(g, c, call, log, ReaderStep(g, c, r, a))
  {}

  /** While no writer step touches the slot, a call answers with a delivery exactly if the slot holds the
      frame asked for, and with a refusal otherwise. */
  lemma {:induction false} QuietCallAnswers(
      g: Geometry, c: Cell, p: Writer, r: Reader, call: Call, acts: seq<ReaderAction>)
    requires g.width > 0 && CellInv(c, p) && r.phase.Resting? && forall a <- acts :: !a.Start?
    ensures CallAnswers(g, c, call, r.log, ReaderRun(g, c, r, [Start(call)] + acts))
    decreases |acts|
  {
    if acts == [] {
      assert [Start(call)] + acts == [] + [Start(call)];
      ReaderRunPush(g, c, r, [], Start(call));
    } else {
      var (rest, a) := (acts[..|acts| - 1], acts[|acts| - 1]);
      QuietCallAnswers(g, c, p, r, call, rest);
      assert [Start(call)] + acts == [Start(call)] + rest + [a];
      ReaderRunPush(g, c, r, [Start(call)] + rest, a);
      hide ReaderRun, CallAnswers, ReaderStep, CellInv;
      CallStepAnswers(g, c, p, call, r.log, ReaderRun(g, c, r, [Start(call)] + rest), a);
    }
  }

  function Moves(order: seq<nat>): seq<ReaderAction> { seq(|order|, i requires 0 <= i < |order| => MoveByte(order[i])) }

  lemma {:induction false} MovesRun(g: Geometry, c: Cell, r: Reader, order: seq<nat>)
    requires g.width > 0 && r.phase.Moving? && Count(g, r.phase.call.layout) <= |c.bytes|
    ensures var r' := ReaderRun(g, c, r, Moves(order));
            && r'.phase.Moving? && r'.phase.call == r.phase.call && r'.phase.before == r.phase.before
            && r'.phase.attempt == r.phase.attempt && r'.log == r.log
            && forall j: nat | j in order && j < Count(g, r.phase.call.layout) :: j in r'.phase.done
    decreases |order|
  {
    if order != [] {
      var (rest, j) := (order[..|order| - 1], order[|order| - 1]);
      MovesRun(g, c, r, rest);
      assert Moves(order) == Moves(rest) + [MoveByte(j)];
      ReaderRunPush(g, c, r, Moves(rest), MoveByte(j));
      assert order == rest + [j];
      hide ReaderRun;
    }
  }

  /** From the copy on, a quiet attempt needs only its bytes and two more loads. */
  lemma CopyEnds(g: Geometry, c: Cell, r: Reader, order: seq<nat>)
    requires g.width > 0 && Even(c.seqNo)
    requires r.phase.Moving? && r.phase.before == c.seqNo && c.tag == r.phase.call.frameId
    requires Count(g, r.phase.call.layout) <= |c.bytes| && AllOf(order, Count(g, r.phase.call.layout))
    ensures var r' := ReaderRun(g, c, r, Moves(order) + [LoadSeqAgain, LoadIdAgain]);
            r'.phase.Resting? && |r'.log| == |r.log| + 1
  {
    MovesRun(g, c, r, order);
    ReaderRunPush(g, c, r, Moves(order), LoadSeqAgain);
    ReaderRunPush(g, c, r, Moves(order) + [LoadSeqAgain], LoadIdAgain);
    assert Moves(order) + [LoadSeqAgain, LoadIdAgain] == Moves(order) + [LoadSeqAgain] + [LoadIdAgain];
    hide ReaderRun;
  }

  /** How to bring a call to its end: another round of steps, whatever state it is in. */
  function Round(order: seq<nat>): seq<ReaderAction> { [LoadSeq, LoadId] + Moves(order) + [LoadSeqAgain, LoadIdAgain] }

  lemma {:induction false} ReaderRunsOn(g: Geometry, c: Cell, r: Reader, a: seq<ReaderAction>, b: seq<ReaderAction>)
    requires g.width > 0
    ensures ReaderRun(g, c, r, a + b) == ReaderRun(g, c, ReaderRun(g, c, r, a), b)
    decreases |b|
  {
    if b == [] {
      assert a + b == a;
    } else {
      var (rest, x) := (b[..|b| - 1], b[|b| - 1]);
      ReaderRunsOn(g, c, r, a, rest);
      assert a + b == a + rest + [x];
      ReaderRunPush(g, c, r, a + rest, x);
      ReaderRunPush(g, c, ReaderRun(g, c, r, a), rest, x);
      assert b == rest + [x];
      hide ReaderStep, ReaderRun;
    }
  }

  lemma TwoSteps(g: Geometry, c: Cell, r: Reader, a: ReaderAction, b: ReaderAction)
    requires g.width > 0
    ensures ReaderRun(g, c, r, [a, b]) == ReaderStep(g, c, ReaderStep(g, c, r, a), b)
  {
    hide ReaderStep;
    assert [a, b][..1] == [a] && [a][..0] == [];
    assert ReaderRun(g, c, r, [a]) == ReaderStep(g, c, ReaderRun(g, c, r, []), a);
  }

  function Tries(n: nat): seq<ReaderAction> { if n == 0 then [] else [LoadSeq, LoadId] + Tries(n - 1) }

  /** A slot that does not hold the frame is given up after the last attempt. */
  lemma {:induction false} TriesEnd(g: Geometry, c: Cell, p: Writer, call: Call, log: seq<Outcome>, r: Reader, n: nat)
    requires g.width > 0 && CellInv(c, p) && CallAnswers(g, c, call, log, r) && !Held(g, c, call)
    requires r.phase.Resting? || (r.phase.AtSeq? && r.phase.attempt + n >= COPY_ATTEMPTS)
    ensures ReaderRun(g, c, r, Tries(n)).phase.Resting?
    decreases n
  {
    if n > 0 {
      var t := ReaderStep(g, c, ReaderStep(g, c, r, LoadSeq), LoadId);
      TwoSteps(g, c, r, LoadSeq, LoadId);
      ReaderRunsOn(g, c, r, [LoadSeq, LoadId], Tries(n - 1));
      CallStepAnswers(g, c, p, call, log, r, LoadSeq);
      CallStepAnswers(g, c, p, call, log, ReaderStep(g, c, r, LoadSeq), LoadId);
      hide ReaderRun, CallAnswers;
      TriesEnd(g, c, p, call, log, t, n - 1);
    }
  }

  /** And every such call can be brought to its end: in one attempt when the slot holds the frame, the bytes
      moved in any order, and otherwise after the last attempt. */
  lemma QuietCallEnds(g: Geometry, c: Cell, p: Writer, r: Reader, call: Call, order: seq<nat>)
    returns (acts: seq<ReaderAction>)
    requires g.width > 0 && CellInv(c, p) && r.phase.Resting? && |c.bytes| == FrameBytes(g)
    requires AllOf(order, Count(g, call.layout))
    ensures forall a <- acts :: !a.Start?
    ensures var r' := ReaderRun(g, c, r, [Start(call)] + acts);
            r'.phase.Resting? && CallAnswers(g, c, call, r.log, r')
  {
    hide ReaderRun, CallAnswers, ReaderStep, Held;
    var r1 := ReaderStep(g, c, r, Start(call));
    QuietCallAnswers(g, c, p, r, call, []);
    assert [Start(call)] + [] == [Start(call)];
    OneStep(g, c, r, Start(call));
    acts := if Held(g, c, call) then Round(order) else Tries(COPY_ATTEMPTS);
    StepsStartNothing(order);
    ReaderRunsOn(g, c, r, [Start(call)], acts);
    QuietCallAnswers(g, c, p, r, call, acts);
    if Held(g, c, call) {
      RoundEnds(g, c, p, r, call, order);
    } else {
      StartedCall(g, c, r, call);
      TriesEnd(g, c, p, call, r.log, r1, COPY_ATTEMPTS);
    }
  }

  lemma StartedCall(g: Geometry, c: Cell, r: Reader, call: Call)
    requires g.width > 0 && r.phase.Resting?
    ensures var phase := ReaderStep(g, c, r, Start(call)).phase; phase.Resting? || phase.AtSeq?
  {}

  lemma OneStep(g: Geometry, c: Cell, r: Reader, a: ReaderAction)
    requires g.width > 0
    ensures ReaderRun(g, c, r, [a]) == ReaderStep(g, c, r, a)
  {
    hide ReaderStep;
    assert [a] == [] + [a];
    ReaderRunPush(g, c, r, [], a);
  }

  lemma RoundEnds(g: Geometry, c: Cell, p: Writer, r: Reader, call: Call, order: seq<nat>)
    requires g.width > 0 && CellInv(c, p) && r.phase.Resting? && |c.bytes| == FrameBytes(g)
    requires AllOf(order, Count(g, call.layout)) && Held(g, c, call)
    ensures ReaderRun(g, c, ReaderStep(g, c, r, Start(call)), Round(order)).phase.Resting?
  {
    hide ReaderRun;
    var r1 := ReaderStep(g, c, r, Start(call));
    CountFits(g, call.layout);
    var copying := ReaderStep(g, c, ReaderStep(g, c, r1, LoadSeq), LoadId);
    TwoSteps(g, c, r1, LoadSeq, LoadId);
    assert Round(order) == [LoadSeq, LoadId] + (Moves(order) + [LoadSeqAgain, LoadIdAgain]);
    ReaderRunsOn(g, c, r1, [LoadSeq, LoadId], Moves(order) + [LoadSeqAgain, LoadIdAgain]);
    assert copying.phase.Moving?;
    CopyEnds(g, c, copying, order);
  }

  lemma StepsStartNothing(order: seq<nat>)
    ensures forall a <- Round(order) :: !a.Start?
    ensures forall a <- Tries(COPY_ATTEMPTS) :: !a.Start?
  {
    TriesStartless(COPY_ATTEMPTS);
  }

  lemma {:induction false} TriesStartless(n: nat)
    ensures forall a <- Tries(n) :: !a.Start?
  {
    if n > 0 { TriesStartless(n - 1); }
  }

  /** memcpy. */
  method CopyBytes(dest: array<Byte>, at: nat, source: seq<Byte>, from: nat, n: nat)
    requires at + n <= dest.Length && from + n <= |source|
    modifies dest
    ensures forall k | 0 <= k < dest.Length ::
      dest[k] == if at <= k < at + n then source[from + k - at] else old(dest[k])
  {
    for i := 0 to n
      invariant forall k | 0 <= k < dest.Length ::
        dest[k] == if at <= k < at + i then source[from + k - at] else old(dest[k])
    {
      dest[at + i] := source[from + i];
    }
  }

  /** dest holds the first n plane bytes at their strided places; every other byte is as it was. */
  ghost predicate PlaneCopied(
      dest: seq<Byte>, was: seq<Byte>, stride: nat, source: seq<Byte>, from: nat, width: nat, n: nat)
    requires width > 0 && |dest| == |was| && from + n <= |source|
  {
    && (forall j | 0 <= j < n ::
          Strided(width, stride, j) < |dest| && dest[Strided(width, stride, j)] == source[from + j])
    && (forall k | 0 <= k < |dest| && dest[k] != was[k] :: exists j :: 0 <= j < n && k == Strided(width, stride, j))
  }

  lemma {:induction false} RowPlaces(width: nat, stride: nat, row: nat, j: nat)
    requires 0 < width <= stride
    ensures row * width <= j < (row + 1) * width ==> Strided(width, stride, j) == row * stride + (j - row * width)
    ensures j < row * width ==> Strided(width, stride, j) < row * stride
  {
    assert j == (j / width) * width + j % width;
    if row * width <= j < (row + 1) * width {
      if j / width < row { LaterRow(width, width, j / width, row, j % width, 0); }
      if row < j / width { LaterRow(width, width, row, j / width, width - 1, j % width); }
    } else if j < row * width {
      if j / width < row { LaterRow(width, stride, j / width, row, j % width, 0); }
      else if row < j / width { LaterRow(width, width, row, j / width, 0, j % width); }
    }
  }

  /** One more row: what CopyBytes did to the destination extends the plane by one row. */
  lemma RowCopied(dest: seq<Byte>, mid: seq<Byte>, was: seq<Byte>, stride: nat,
                  source: seq<Byte>, from: nat, width: nat, row: nat)
    requires 0 < width <= stride && |dest| == |mid| == |was| && from + (row + 1) * width <= |source|
    requires row * stride + width <= |dest|
    requires from + row * width <= |source|
    requires PlaneCopied(mid, was, stride, source, from, width, row * width)
    requires forall k | 0 <= k < |dest| ::
      dest[k] == if row * stride <= k < row * stride + width then source[from + row * width + (k - row * stride)]
                 else mid[k]
    ensures PlaneCopied(dest, was, stride, source, from, width, (row + 1) * width)
  {
    var n := (row + 1) * width;
    assert n == row * width + width;
    forall j | 0 <= j < n
      ensures Strided(width, stride, j) < |dest| && dest[Strided(width, stride, j)] == source[from + j]
    {
      RowPlaces(width, stride, row, j);
    }
    forall k | 0 <= k < |dest| && dest[k] != was[k]
      ensures exists j :: 0 <= j < n && k == Strided(width, stride, j)
    {
      if row * stride <= k < row * stride + width {
        RowPlaces(width, stride, row, row * width + (k - row * stride));
      } else {
        assert mid[k] != was[k];
        var j :| 0 <= j < row * width && k == Strided(width, stride, j);
      }
    }
  }

  /** The row-by-row branch of copy_plane. */
  method CopyRows(dest: array<Byte>, stride: nat, source: seq<Byte>, from: nat, width: nat, rows: nat)
    requires 0 < width <= stride && from + rows * width <= |source|
    requires rows > 0 ==> (rows - 1) * stride + width <= dest.Length
    modifies dest
    ensures PlaneCopied(dest[..], old(dest[..]), stride, source, from, width, rows * width)
  {
    for row := 0 to rows
      invariant from + row * width <= |source|
      invariant PlaneCopied(dest[..], old(dest[..]), stride, source, from, width, row * width)
    {
      RowBounds(width, stride, row, rows);
      ghost var mid := dest[..];
      CopyBytes(dest, row * stride, source, from + row * width, width);
      RowCopied(dest[..], mid, old(dest[..]), stride, source, from, width, row);
    }
  }

  lemma RowBounds(width: nat, stride: nat, row: nat, rows: nat)
    requires row < rows
    ensures (row + 1) * width <= rows * width && row * width + width == (row + 1) * width
    ensures row * stride <= (rows - 1) * stride
  {}

  lemma FlatPlaces(width: nat, n: nat)
    requires width > 0
    ensures forall j: nat | j < n :: Strided(width, width, j) == j
  {}

  /** copy_plane: every plane byte lands at its strided place and the padding keeps its value. */
  method CopyPlane(dest: array<Byte>, stride: nat, source: seq<Byte>, from: nat, width: nat, rows: nat)
    requires 0 < width <= stride && from + rows * width <= |source|
    requires rows > 0 ==> (rows - 1) * stride + width <= dest.Length
    modifies dest
    ensures PlaneCopied(dest[..], old(dest[..]), stride, source, from, width, rows * width)
  {
    if stride == width {
      RowBounds(width, stride, if rows > 0 then rows - 1 else 0, if rows > 0 then rows else 1);
      CopyBytes(dest, 0, source, from, rows * width);
      FlatPlaces(width, dest.Length);
      forall k | 0 <= k < dest.Length && dest[k] != old(dest[k])
        ensures exists j :: 0 <= j < rows * width && k == Strided(width, stride, j)
      {
        assert k == Strided(width, stride, k);
      }
    } else {
      CopyRows(dest, stride, source, from, width, rows);
    }
  }
}
