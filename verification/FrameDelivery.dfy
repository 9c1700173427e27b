/** What a reader of the frame ring gets, said by pixels and by whole calls: every delivery is the image, a frame
    that is written is a frame that can be copied, and a disturbed call gives up after eight attempts. */
module FrameDelivery {
  import opened Seqlock
  import opened FrameRing

  // ---- The image

  /** Row by row, `rows` rows of the frame from byte `from` on lie `stride` apart in a plane. */
  ghost predicate PixelOk(dest: Dest, place: nat -> Place, stride: nat, frame: seq<Byte>, from: nat, width: nat,
                          row: nat, col: nat)
  {
    var (at, k) := (row * stride + col, from + row * width + col);
    k < |frame| && place(at) in dest && dest[place(at)] == frame[k]
  }

  const LUMA: nat -> Place := (at: nat) => Luma(at)
  const CHROMA: nat -> Place := (at: nat) => Chroma(at)

  ghost predicate ByteOk(dest: Dest, frame: seq<Byte>, j: nat) {
    j < |frame| && Whole(j) in dest && dest[Whole(j)] == frame[j]
  }

  /** The whole frame at its places: as one block, or as a plane of `height` rows and one of half as many. */
  ghost predicate Image(g: Geometry, l: Layout, dest: Dest, frame: seq<Byte>) {
    match l
    case Flat => forall j: nat | j < g.width * g.height * 3 / 2 :: ByteOk(dest, frame, j)
    case Planes(luma, chroma) =>
      && (forall row: nat, col: nat | row < g.height && col < g.width ::
            PixelOk(dest, LUMA, luma, frame, 0, g.width, row, col))
      && (forall row: nat, col: nat | row < g.height / 2 && col < g.width ::
            PixelOk(dest, CHROMA, chroma, frame, g.width * g.height, g.width, row, col))
  }

  lemma InsidePlane(width: nat, rows: nat, row: nat, col: nat)
    requires row < rows && col < width
    ensures row * width <= row * width + col < (row + 1) * width && row * width + col < rows * width
  {
    assert (row + 1) * width == row * width + width;
    assert (row + 1) * width <= rows * width by { Grows(row + 1, rows, width); }
  }

  lemma Grows(a: nat, b: nat, k: nat)
    requires a <= b
    ensures a * k <= b * k
  {}

  lemma RowOf(width: nat, row: nat, col: nat)
    requires col < width
    ensures (row * width + col) / width == row && (row * width + col) % width == col
  {
    var j := row * width + col;
    assert j == (j / width) * width + j % width;
    if j / width < row { LaterRow(width, width, j / width, row, j % width, col); }
    if row < j / width { LaterRow(width, width, row, j / width, col, j % width); }
  }

  lemma LumaPixel(g: Geometry, l: Layout, dest: Dest, frame: seq<Byte>, row: nat, col: nat)
    requires g.width > 0 && l.Planes? && Carries(g, l, dest, frame) && row < g.height && col < g.width
    ensures PixelOk(dest, LUMA, l.lumaStride, frame, 0, g.width, row, col)
  {
    var j := row * g.width + col;
    InsidePlane(g.width, g.height, row, col);
    RowOf(g.width, row, col);
    assert j < g.width * g.height <= Count(g, l);
    assert PlaceOf(g, l, j) == Luma(row * l.lumaStride + col);
    hide OnlyPlaces, Strided;
  }

  lemma ChromaPixel(g: Geometry, l: Layout, dest: Dest, frame: seq<Byte>, row: nat, col: nat)
    requires g.width > 0 && l.Planes? && Carries(g, l, dest, frame) && row < g.height / 2 && col < g.width
    ensures PixelOk(dest, CHROMA, l.chromaStride, frame, g.width * g.height, g.width, row, col)
  {
    var k := row * g.width + col;
    var j := g.width * g.height + k;
    InsidePlane(g.width, g.height / 2, row, col);
    RowOf(g.width, row, col);
    assert g.width * g.height <= j < Count(g, l);
    assert PlaceOf(g, l, j) == Chroma(row * l.chromaStride + col);
    hide OnlyPlaces, Strided;
  }

  lemma CarriedIsImage(g: Geometry, l: Layout, dest: Dest, frame: seq<Byte>)
    requires g.width > 0 && Carries(g, l, dest, frame)
    ensures Image(g, l, dest, frame)
  {
    if l.Planes? {
      hide Carries, PixelOk;
      forall row: nat, col: nat | row < g.height && col < g.width
        ensures PixelOk(dest, LUMA, l.lumaStride, frame, 0, g.width, row, col)
      {
        LumaPixel(g, l, dest, frame, row, col);
      }
      forall row: nat, col: nat | row < g.height / 2 && col < g.width
        ensures PixelOk(dest, CHROMA, l.chromaStride, frame, g.width * g.height, g.width, row, col)
      {
        ChromaPixel(g, l, dest, frame, row, col);
      }
    } else {
      forall j: nat | j < g.width * g.height * 3 / 2 ensures ByteOk(dest, frame, j) {
        assert PlaceOf(g, l, j) == Whole(j);
      }
    }
  }

  /** In every interleaving, writers that die included, each delivery is the image of one completed write of the
      frame that was asked for. */
  lemma DeliversTheImage(g: Geometry, s: State, acts: seq<Action>, who: nat, n: nat)
    requires g.width > 0 && Init(g, s) && who < |s.readers|
    ensures |Run(g, s, acts).readers| == |s.readers|
    ensures var (slots, log) := (Run(g, s, acts).slots, Run(g, s, acts).readers[who].log);
            n < |log| && log[n].Delivered? ==>
              exists at :: && log[n].call.slot < |slots| && at in slots[log[n].call.slot].completed
                           && slots[log[n].call.slot].completed[at].tag == log[n].call.frameId
                           && Image(g, log[n].call.layout, log[n].dest, slots[log[n].call.slot].completed[at].payload)
  {
    hide Run, Image, Carries, Init;
    NoTornFrame(g, s, acts, who, n);
    var log := Run(g, s, acts).readers[who].log;
    if n < |log| && log[n].Delivered? {
      var c := Run(g, s, acts).slots[log[n].call.slot];
      CarriedIsImage(g, log[n].call.layout, log[n].dest, c.completed[log[n].at].payload);
    }
  }

  // ---- A frame written is a frame read

  function Writes(slot: nat, acts: seq<WriterAction>): seq<Action> {
    seq(|acts|, i requires 0 <= i < |acts| => Write(slot, acts[i]))
  }

  function Reads(who: nat, acts: seq<ReaderAction>): seq<Action> {
    seq(|acts|, i requires 0 <= i < |acts| => Read(who, acts[i]))
  }

  lemma RunPush(g: Geometry, s: State, acts: seq<Action>, a: Action)
    requires g.width > 0
    ensures Run(g, s, acts + [a]) == Step(g, Run(g, s, acts), a)
  {
    assert (acts + [a])[..|acts|] == acts;
  }

  lemma {:induction false} RunsOn(g: Geometry, s: State, a: seq<Action>, b: seq<Action>)
    requires g.width > 0
    ensures Run(g, s, a + b) == Run(g, Run(g, s, a), b)
    decreases |b|
  {
    hide Step;
    if b == [] {
      assert a + b == a;
    } else {
      var (rest, x) := (b[..|b| - 1], b[|b| - 1]);
      RunsOn(g, s, a, rest);
      assert a + b == a + rest + [x];
      RunPush(g, s, a + rest, x);
    }
  }

  /** The writer alone, on one slot. */
  lemma {:induction false} WritesRun(g: Geometry, s: State, k: nat, acts: seq<WriterAction>)
    requires g.width > 0 && k < |s.slots| && s.writer.Idle?
    requires forall a <- acts :: a.Begin? ==> |a.w.payload| == FrameBytes(g)
    ensures var (c, p) := WriterRun(s.slots[k], Idle, acts);
            var s' := Run(g, s, Writes(k, acts));
            && s'.slots == s.slots[k := c] && s'.writer == p && s'.readers == s.readers
            && (s'.writer.Idle? || s'.target == k)
    decreases |acts|
  {
    if acts != [] {
      var (rest, a) := (acts[..|acts| - 1], acts[|acts| - 1]);
      WritesRun(g, s, k, rest);
      assert a in acts;
      assert Writes(k, acts) == Writes(k, rest) + [Write(k, a)];
      RunPush(g, s, Writes(k, rest), Write(k, a));
      hide WriterStep, Run;
    }
  }

  /** A reader alone, while its call is on slot k. */
  lemma {:induction false} ReadsRun(g: Geometry, s: State, who: nat, call: Call, acts: seq<ReaderAction>)
    requires g.width > 0 && who < |s.readers| && call.slot < |s.slots| && s.readers[who].phase.Resting?
    requires acts != [] && acts[0] == Start(call) && forall i | 0 < i < |acts| :: !acts[i].Start?
    ensures var r := ReaderRun(g, s.slots[call.slot], s.readers[who], acts);
            && Run(g, s, Reads(who, acts)) == s.(readers := s.readers[who := r])
            && (r.phase.Resting? || r.phase.call == call)
    decreases |acts|
  {
    var (rest, a) := (acts[..|acts| - 1], acts[|acts| - 1]);
    assert acts == rest + [a];
    assert Reads(who, acts) == Reads(who, rest) + [Read(who, a)];
    RunPush(g, s, Reads(who, rest), Read(who, a));
    ReaderRunPush(g, s.slots[call.slot], s.readers[who], rest, a);
    if rest == [] {
      assert ReaderRun(g, s.slots[call.slot], s.readers[who], []) == s.readers[who];
    } else {
      ReadsRun(g, s, who, call, rest);
      RestingStays(g, s.slots[0], s.slots[call.slot], ReaderRun(g, s.slots[call.slot], s.readers[who], rest), a);
    }
  }

  /** Without a call there is nothing to step. */
  lemma RestingStays(g: Geometry, c: Cell, d: Cell, r: Reader, a: ReaderAction)
    requires g.width > 0 && !a.Start?
    ensures r.phase.Resting? ==> ReaderStep(g, c, r, a) == r == ReaderStep(g, d, r, a)
    ensures !r.phase.Resting? ==>
            var r' := ReaderStep(g, d, r, a); r'.phase.Resting? || r'.phase.call == r.phase.call
  {}

  ghost predicate AtNow(c: Cell, n: nat, r: Reader) {
    && n <= |r.log| && (forall i | n <= i < |r.log| :: r.log[i].Delivered? ==> r.log[i].at == c.seqNo)
    && (r.phase.AtIdAgain? ==> r.phase.after == c.seqNo)
  }

  lemma {:induction false} DeliveredNow(g: Geometry, c: Cell, r: Reader, acts: seq<ReaderAction>)
    requires g.width > 0 && r.phase.Resting?
    ensures AtNow(c, |r.log|, ReaderRun(g, c, r, acts))
    decreases |acts|
  {
    if acts != [] { DeliveredNow(g, c, r, acts[..|acts| - 1]); }
  }

  /** One call on a slot that holds its frame, left alone. */
  lemma CallDelivers(g: Geometry, c: Cell, r: Reader, call: Call, order: seq<nat>)
    requires g.width > 0 && CellInv(c, Idle) && r.phase.Resting? && |c.bytes| == FrameBytes(g)
    requires AllOf(order, FrameBytes(g)) && Held(g, c, call)
    ensures var r' := ReaderRun(g, c, r, [Start(call)] + Round(order));
            && r'.phase.Resting? && |r'.log| == |r.log| + 1 && r'.log[..|r.log|] == r.log
            && var o := r'.log[|r.log|]; o.Delivered? && o.call == call && o.at == c.seqNo
  {
    CountFits(g, call.layout);
    assert AllOf(order, Count(g, call.layout));
    StepsStartNothing(order);
    OneStep(g, c, r, Start(call));
    ReaderRunsOn(g, c, r, [Start(call)], Round(order));
    RoundEnds(g, c, Idle, r, call, order);
    QuietCallAnswers(g, c, Idle, r, call, Round(order));
    DeliveredNow(g, c, r, [Start(call)] + Round(order));
    hide ReaderRun, ReaderStep, Round, CellInv, Held;
  }

  /** A frame that is written and then asked for, each left alone, is delivered as the image it is, to every
      destination whose strides are at least the width. */
  lemma WrittenIsCopied(
      g: Geometry, s: State, who: nat, call: Call, frame: seq<Byte>, copied: seq<nat>, moved: seq<nat>)
    requires g.width > 0 && Inv(g, s) && s.writer.Idle?
    requires who < |s.readers| && s.readers[who].phase.Resting? && call.slot < |s.slots|
    requires |frame| == g.width * g.height * 3 / 2 && AllOf(copied, |frame|) && AllOf(moved, |frame|)
    requires call.layout.Planes? ==> call.layout.lumaStride >= g.width && call.layout.chromaStride >= g.width
    ensures var write := Writes(call.slot, WholeWrite(Entry(call.frameId, frame), copied));
            var s' := Run(g, s, write + Reads(who, [Start(call)] + Round(moved)));
            && |s'.readers| == |s.readers|
            && var (log, r') := (s.readers[who].log, s'.readers[who]);
               && r'.phase.Resting? && |r'.log| == |log| + 1 && r'.log[..|log|] == log
               && r'.log[|log|].Delivered? && r'.log[|log|].call == call
               && Image(g, call.layout, r'.log[|log|].dest, frame)
  {
    hide Run, Step, ReaderRun, ReaderStep, WriterRun, WriterStep, Image, Carries, CellInv, Round, WholeWrite;
    var (k, w, c) := (call.slot, Entry(call.frameId, frame), s.slots[call.slot]);
    var write := Writes(k, WholeWrite(w, copied));
    var read := Reads(who, [Start(call)] + Round(moved));
    assert SlotInv(g, s, k);
    WholeWriteCompletes(c, w, copied);
    OnlyThisBegins(w, copied);
    WritesRun(g, s, k, WholeWrite(w, copied));
    var s1 := Run(g, s, write);
    var c1 := s1.slots[k];
    CallDelivers(g, c1, s.readers[who], call, moved);
    StepsStartNothing(moved);
    ReadsRun(g, s1, who, call, [Start(call)] + Round(moved));
    RunsOn(g, s, write, read);
    RunKeeps(g, s, write + read);
    var s2 := Run(g, s, write + read);
    var o := s2.readers[who].log[|s.readers[who].log|];
    assert ReaderInv(g, s2.slots, s2.readers[who]);
    assert o in s2.readers[who].log && OutcomeOk(g, s2.slots, o);
    CarriedIsImage(g, call.layout, o.dest, frame);
  }

  lemma OnlyThisBegins(w: Entry, order: seq<nat>)
    ensures forall a <- WholeWrite(w, order) :: a.Begin? ==> a.w == w
  {}

  // ---- Disturbed calls

  /** An attempt that cannot succeed: the slot is being written or never was, holds an older frame, or is
      overtaken by the writer while it is copied. */
  datatype Attempt =
    | Unready(c: Cell)
    | Older(c: Cell, d: Cell)
    | Overtaken(c: Cell, order: seq<nat>, d: Cell, e: Cell)

  ghost predicate Fails(g: Geometry, call: Call, x: Attempt) {
    match x
    case Unready(c) => c.seqNo == 0 || c.seqNo % 2 == 1
    case Older(c, d) => c.seqNo != 0 && c.seqNo % 2 == 0 && d.tag < call.frameId
    case Overtaken(c, order, d, e) =>
      && c.seqNo != 0 && c.seqNo % 2 == 0 && c.tag == call.frameId && d.seqNo != c.seqNo
      && Count(g, call.layout) <= |c.bytes| && AllOf(order, Count(g, call.layout))
  }

  ghost function Attempted(g: Geometry, r: Reader, x: Attempt): Reader
    requires g.width > 0
  {
    match x
    case Unready(c) => ReaderStep(g, c, r, LoadSeq)
    case Older(c, d) => ReaderStep(g, d, ReaderStep(g, c, r, LoadSeq), LoadId)
    case Overtaken(c, order, d, e) =>
      var moved := ReaderRun(g, c, ReaderStep(g, c, ReaderStep(g, c, r, LoadSeq), LoadId), Moves(order));
      ReaderStep(g, e, ReaderStep(g, d, moved, LoadSeqAgain), LoadIdAgain)
  }

  lemma AttemptFails(g: Geometry, r: Reader, x: Attempt)
    requires g.width > 0 && r.phase.AtSeq? && Fails(g, r.phase.call, x)
    ensures var r' := Attempted(g, r, x);
            if r.phase.attempt < 7 then r'.phase == AtSeq(r.phase.call, r.phase.attempt + 1) && r'.log == r.log
            else r'.phase.Resting? && r'.log == r.log + [Refused(r.phase.call)]
  {
    if x.Overtaken? {
      MovesRun(g, x.c, ReaderStep(g, x.c, ReaderStep(g, x.c, r, LoadSeq), LoadId), x.order);
    }
    hide ReaderRun;
  }

  ghost function AllAttempted(g: Geometry, r: Reader, xs: seq<Attempt>): Reader
    requires g.width > 0
  {
    if xs == [] then r else Attempted(g, AllAttempted(g, r, xs[..|xs| - 1]), xs[|xs| - 1])
  }

  /** A call whose attempts all fail makes eight of them, and is then refused. */
  lemma {:induction false} GivesUpAfterEight(g: Geometry, c: Cell, r: Reader, call: Call, xs: seq<Attempt>)
    requires g.width > 0 && r.phase.Resting? && LayoutOk(g, call.layout) && |xs| <= 8
    requires forall x <- xs :: Fails(g, call, x)
    ensures var r' := AllAttempted(g, ReaderStep(g, c, r, Start(call)), xs);
            if |xs| < 8 then r'.phase == AtSeq(call, |xs|) && r'.log == r.log
            else r'.phase.Resting? && r'.log == r.log + [Refused(call)]
    decreases |xs|
  {
    if xs != [] {
      var (rest, x) := (xs[..|xs| - 1], xs[|xs| - 1]);
      GivesUpAfterEight(g, c, r, call, rest);
      assert Fails(g, call, x);
      hide ReaderStep, Attempted, Fails;
      AttemptFails(g, AllAttempted(g, ReaderStep(g, c, r, Start(call)), rest), x);
    }
  }

  /** A slot that holds a newer frame is not tried again, since the one asked for is gone. */
  lemma NewerIsRefused(g: Geometry, r: Reader, c: Cell, d: Cell)
    requires g.width > 0 && r.phase.AtSeq? && c.seqNo != 0 && c.seqNo % 2 == 0 && d.tag > r.phase.call.frameId
    ensures var r' := ReaderStep(g, d, ReaderStep(g, c, r, LoadSeq), LoadId);
            r'.phase.Resting? && r'.log == r.log + [Refused(r.phase.call)]
  {}
}
