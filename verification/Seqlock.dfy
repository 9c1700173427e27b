/** The writer half shared by the frame ring and the latest-value channel: an even/odd sequence
    counter around a block of bytes and one tag word (frame id, or payload size).

    Every load, every store and every single byte of a memcpy is a step of its own, under
    sequential consistency, and memcpy may move its bytes in any order. The process that writes may
    die between any two steps and start again. */
module Seqlock {
  type Byte = b: int | 0 <= b < 256

  /** What one call asks to be stored. */
  datatype Entry = Entry(tag: nat, payload: seq<Byte>)

  /** The shared memory. `completed` is history: the write that was closed with each even
      sequence number. */
  datatype Cell = Cell(seqNo: nat, tag: nat, bytes: seq<Byte>, ghost completed: map<nat, Entry>)

  /** Where the writing process is. */
  datatype Writer =
    | Idle
    | Loaded(w: Entry, loaded: nat)
    | Copying(w: Entry, next: nat, done: set<nat>)
    | Closing(w: Entry, next: nat)

  datatype WriterAction =
    | Begin(w: Entry)   // load the counter
    | Open              // store an odd counter
    | CopyByte(j: nat)  // one byte of the memcpy
    | StoreTag          // after the memcpy
    | Close             // store the even counter
    | Die               // the process dies and is started again

  predicate Even(n: nat) { n % 2 == 0 }

  /** One step of the writer; a step that is not enabled changes nothing. */
  ghost function WriterStep(c: Cell, p: Writer, a: WriterAction): (Cell, Writer) {
    match (p, a)
    case (Idle, Begin(w)) =>
      if |w.payload| <= |c.bytes| then (c, Loaded(w, c.seqNo)) else (c, p)
    case (Loaded(w, loaded), Open) =>
      var next := if Even(loaded) then loaded else loaded + 1;
      (c.(seqNo := next + 1), Copying(w, next, {}))
    case (Copying(w, next, done), CopyByte(j)) =>
      if j < |w.payload| && j < |c.bytes|
      then (c.(bytes := c.bytes[j := w.payload[j]]), Copying(w, next, done + {j}))
      else (c, p)
    case (Copying(w, next, done), StoreTag) =>
      if forall j | 0 <= j < |w.payload| :: j in done
      then (c.(tag := w.tag), Closing(w, next))
      else (c, p)
    case (Closing(w, next), Close) =>
      (c.(seqNo := next + 2, completed := c.completed[next + 2 := w]), Idle)
    case (_, Die) => (c, Idle)
    case _ => (c, p)
  }

  /** The bytes in memory start with the payload. */
  ghost predicate Holds(bytes: seq<Byte>, w: Entry) {
    |w.payload| <= |bytes| && bytes[..|w.payload|] == w.payload
  }

  /** Holds after every step: an even, non-zero counter names a completed write, and that write is
      what the memory contains. */
  ghost predicate CellInv(c: Cell, p: Writer) {
    && (forall n <- c.completed.Keys :: Even(n) && 2 <= n <= c.seqNo)
    && (Even(c.seqNo) && c.seqNo != 0 ==>
          && c.seqNo in c.completed
          && c.completed[c.seqNo].tag == c.tag
          && Holds(c.bytes, c.completed[c.seqNo]))
    && match p
       case Idle => true
       case Loaded(w, loaded) => loaded == c.seqNo && |w.payload| <= |c.bytes|
       case Copying(w, next, done) =>
         && Even(next) && c.seqNo == next + 1 && |w.payload| <= |c.bytes|
         && (forall j <- done :: j < |w.payload| && c.bytes[j] == w.payload[j])
       case Closing(w, next) =>
         && Even(next) && c.seqNo == next + 1 && c.tag == w.tag && Holds(c.bytes, w)
  }

  /** All that a reader may rely on about the steps of others. */
  ghost predicate Evolves(c: Cell, c': Cell) {
    && |c'.bytes| == |c.bytes|
    && c.seqNo <= c'.seqNo
    && (forall n <- c.completed.Keys :: n in c'.completed && c'.completed[n] == c.completed[n])
    && (c'.seqNo == c.seqNo && Even(c.seqNo) ==> c'.tag == c.tag && c'.bytes == c.bytes)
  }

  /** Each writer step keeps the invariant, never reuses a sequence number, and leaves the memory
      alone while the counter stays even -- also when the process dies half way. */
  lemma WriterStepKeeps(c: Cell, p: Writer, a: WriterAction)
    requires CellInv(c, p)
    ensures var (c', p') := WriterStep(c, p, a); CellInv(c', p') && Evolves(c, c')
  {
    if p.Copying? && a.StoreTag? && (forall j | 0 <= j < |p.w.payload| :: j in p.done) {
      assert c.bytes[..|p.w.payload|] == p.w.payload;
    }
  }

  // ---- A writer left to itself

  ghost function WriterRun(c: Cell, p: Writer, acts: seq<WriterAction>): (Cell, Writer) {
    if acts == [] then (c, p)
    else
      var (c', p') := WriterRun(c, p, acts[..|acts| - 1]);
      WriterStep(c', p', acts[|acts| - 1])
  }

  lemma WriterRunPush(c: Cell, p: Writer, acts: seq<WriterAction>, a: WriterAction)
    ensures var (c', p') := WriterRun(c, p, acts); WriterRun(c, p, acts + [a]) == WriterStep(c', p', a)
  {
    assert (acts + [a])[..|acts|] == acts;
  }

  function Copies(order: seq<nat>): seq<WriterAction> {
    seq(|order|, i requires 0 <= i < |order| => CopyByte(order[i]))
  }

  /** One call from its first step to its last, with the bytes in any order. */
  function WholeWrite(w: Entry, order: seq<nat>): seq<WriterAction> {
    [Begin(w), Open] + Copies(order) + [StoreTag, Close]
  }

  ghost predicate AllOf(order: seq<nat>, n: nat) { forall j: nat | j < n :: j in order }

  /** Between the odd counter and the tag, with at least the bytes of `order` copied. */
  ghost predicate Copied(c: Cell, w: Entry, order: seq<nat>, c': Cell, p': Writer) {
    && |w.payload| <= |c.bytes| == |c'.bytes|
    && CellInv(c', p') && p'.Copying? && p'.w == w && p'.next == (if Even(c.seqNo) then c.seqNo else c.seqNo + 1)
    && (forall j: nat | j in order && j < |w.payload| :: j in p'.done)
    && c'.completed == c.completed
    && forall k | |w.payload| <= k < |c.bytes| :: c'.bytes[k] == c.bytes[k]
  }

  lemma OpenedToCopy(c: Cell, w: Entry)
    requires CellInv(c, Idle) && |w.payload| <= |c.bytes|
    ensures var (c', p') := WriterRun(c, Idle, [Begin(w), Open]); Copied(c, w, [], c', p')
  {
    WriterRunPush(c, Idle, [], Begin(w));
    WriterRunPush(c, Idle, [Begin(w)], Open);
    assert [] + [Begin(w)] == [Begin(w)] && [Begin(w)] + [Open] == [Begin(w), Open];
    assert WriterRun(c, Idle, []) == (c, Idle);
    hide WriterRun;
    WriterStepKeeps(c, Loaded(w, c.seqNo), Open);
  }

  lemma CopyOneMore(c: Cell, w: Entry, order: seq<nat>, c': Cell, p': Writer, j: nat)
    requires Copied(c, w, order, c', p')
    ensures var (c'', p'') := WriterStep(c', p', CopyByte(j)); Copied(c, w, order + [j], c'', p'')
  {
    WriterStepKeeps(c', p', CopyByte(j));
    hide CellInv;
  }

  lemma {:induction false} CopiesRun(c: Cell, w: Entry, order: seq<nat>)
    requires CellInv(c, Idle) && |w.payload| <= |c.bytes|
    ensures var (c', p') := WriterRun(c, Idle, [Begin(w), Open] + Copies(order)); Copied(c, w, order, c', p')
    decreases |order|
  {
    hide CellInv, Copied, WriterStep;
    if order == [] {
      assert [Begin(w), Open] + Copies(order) == [Begin(w), Open];
      OpenedToCopy(c, w);
    } else {
      var (rest, j) := (order[..|order| - 1], order[|order| - 1]);
      CopiesRun(c, w, rest);
      assert [Begin(w), Open] + Copies(order) == [Begin(w), Open] + Copies(rest) + [CopyByte(j)];
      WriterRunPush(c, Idle, [Begin(w), Open] + Copies(rest), CopyByte(j));
      var (c', p') := WriterRun(c, Idle, [Begin(w), Open] + Copies(rest));
      CopyOneMore(c, w, rest, c', p', j);
      assert order == rest + [j];
    }
  }

  /** Undisturbed, a write of anything that fits ends with that entry completed under a new even number and
      held by the memory; bytes past the payload stay. */
  lemma WholeWriteCompletes(c: Cell, w: Entry, order: seq<nat>)
    requires CellInv(c, Idle) && |w.payload| <= |c.bytes| && AllOf(order, |w.payload|)
    ensures var (c', p') := WriterRun(c, Idle, WholeWrite(w, order));
            && p' == Idle && CellInv(c', p')
            && c'.seqNo == c.seqNo + (if c.seqNo % 2 == 0 then 2 else 3) && c'.seqNo % 2 == 0
            && c'.completed == c.completed[c'.seqNo := w]
            && c'.tag == w.tag && Holds(c'.bytes, w) && |c'.bytes| == |c.bytes|
            && c'.bytes[|w.payload|..] == c.bytes[|w.payload|..]
  {
    hide WriterRun, WriterStep, Copied, CellInv, Holds;
    var copied := [Begin(w), Open] + Copies(order);
    CopiesRun(c, w, order);
    var (c1, p1) := WriterRun(c, Idle, copied);
    CopiedCloses(c, w, order, c1, p1);
    WriterRunPush(c, Idle, copied, StoreTag);
    WriterRunPush(c, Idle, copied + [StoreTag], Close);
    assert WholeWrite(w, order) == copied + [StoreTag] + [Close];
  }

  lemma CopiedCloses(c: Cell, w: Entry, order: seq<nat>, c1: Cell, p1: Writer)
    requires Copied(c, w, order, c1, p1) && AllOf(order, |w.payload|)
    ensures var (c2, p2) := WriterStep(c1, p1, StoreTag);
            var (c', p') := WriterStep(c2, p2, Close);
            && p' == Idle && CellInv(c', p')
            && c'.seqNo == c.seqNo + (if c.seqNo % 2 == 0 then 2 else 3) && c'.seqNo % 2 == 0
            && c'.completed == c.completed[c'.seqNo := w]
            && c'.tag == w.tag && Holds(c'.bytes, w) && |c'.bytes| == |c.bytes|
            && c'.bytes[|w.payload|..] == c.bytes[|w.payload|..]
  {
    var (c2, p2) := WriterStep(c1, p1, StoreTag);
    assert p2 == Closing(w, p1.next) && c2.bytes == c1.bytes;
    WriterStepKeeps(c1, p1, StoreTag);
    WriterStepKeeps(c2, p2, Close);
  }

  /** What does not fit is refused, and nothing changes. */
  lemma {:induction false} OversizeIsRefused(c: Cell, w: Entry, order: seq<nat>)
    requires |w.payload| > |c.bytes|
    ensures WriterRun(c, Idle, WholeWrite(w, order)) == (c, Idle)
  {
    var acts := WholeWrite(w, order);
    forall k: nat | k <= |acts| { IdleStays(c, w, acts, k); }
    assert acts[..|acts|] == acts;
  }

  lemma {:induction false} IdleStays(c: Cell, w: Entry, acts: seq<WriterAction>, k: nat)
    requires |w.payload| > |c.bytes| && k <= |acts|
    requires forall a <- acts :: a.Begin? ==> a.w == w
    ensures WriterRun(c, Idle, acts[..k]) == (c, Idle)
  {
    if k > 0 {
      IdleStays(c, w, acts, k - 1);
      assert acts[..k] == acts[..k - 1] + [acts[k - 1]];
      WriterRunPush(c, Idle, acts[..k - 1], acts[k - 1]);
    }
  }
}
