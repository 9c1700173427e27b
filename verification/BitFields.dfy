/** Little-endian bit fields in a byte buffer, and layouts made of disjoint fields. A byte is an
    integer from 0 to 255; a word is a natural number. */
module BitFields {
  type Byte = x: int | 0 <= x < 256

  datatype CanFrame = CanFrame(address: int, bus: Byte, length: int, data: seq<Byte>)

  function Pow2(n: nat): (p: nat)
    ensures p >= 1
  {
     if n == 0 then 1 else 2 * Pow2(n - 1)
  }

  /** raw & (1 << i) */
  predicate BitOf(raw: nat, i: nat)
    decreases i
  {
    if i == 0 then raw % 2 == 1 else BitOf(raw / 2, i - 1)
  }

  lemma BitOfZero(i: nat)
    ensures !BitOf(0, i)
  {}

  /** raw | (1 << i); below, raw & ~(1 << i) */
  function WithBit(raw: nat, i: nat): nat { if BitOf(raw, i) then raw else raw + Pow2(i) }

  lemma {:induction false} BitWeight(raw: nat, i: nat)
    requires BitOf(raw, i)
    ensures Pow2(i) <= raw
    decreases i
  {
    if i > 0 { BitWeight(raw / 2, i - 1); }
  }

  function WithoutBit(raw: nat, i: nat): nat {
    if BitOf(raw, i) then BitWeight(raw, i); raw - Pow2(i) else raw
  }

  lemma {:induction false} FlipBit(raw: nat, i: nat, k: nat, n: nat)
    requires i < n && raw < Pow2(n)
    ensures WithBit(raw, i) < Pow2(n) && WithoutBit(raw, i) < Pow2(n)
    ensures BitOf(WithBit(raw, i), k) == (k == i || BitOf(raw, k))
    ensures BitOf(WithoutBit(raw, i), k) == (k != i && BitOf(raw, k))
    decreases i
  {
    if BitOf(raw, i) { BitWeight(raw, i); }
    if i > 0 {
      FlipBit(raw / 2, i - 1, if k > 0 then k - 1 else 0, n - 1);
      assert WithBit(raw, i) / 2 == WithBit(raw / 2, i - 1) && WithBit(raw, i) % 2 == raw % 2;
      assert WithoutBit(raw, i) / 2 == WithoutBit(raw / 2, i - 1) && WithoutBit(raw, i) % 2 == raw % 2;
    }
  }

  lemma FlipByte(x: Byte, i: nat, k: nat)
    requires i < 8
    ensures WithBit(x, i) < 256 && WithoutBit(x, i) < 256
    ensures BitOf(WithBit(x, i), k) == (k == i || BitOf(x, k))
    ensures BitOf(WithoutBit(x, i), k) == (k != i && BitOf(x, k))
  {
    assert Pow2(8) == 256;
    FlipBit(x, i, k, 8);
  }

  /** A word is its bits. */
  lemma {:induction false} BitsDetermine(x: nat, y: nat, n: nat)
    requires x < Pow2(n) && y < Pow2(n)
    requires forall i: nat | i < n :: BitOf(x, i) == BitOf(y, i)
    ensures x == y
  {
    if n > 0 {
      forall i: nat | i < n - 1 ensures BitOf(x / 2, i) == BitOf(y / 2, i) {
        assert BitOf(x, i + 1) == BitOf(y, i + 1);
      }
      BitsDetermine(x / 2, y / 2, n - 1);
      assert BitOf(x, 0) == BitOf(y, 0);
    }
  }

  // ---- Buffers as bits

  function Bits(data: seq<Byte>): (b: seq<bool>)
    ensures |b| == 8 * |data|
  {
    seq(8 * |data|, k requires 0 <= k < 8 * |data| => BitOf(data[k / 8], k % 8))
  }

  lemma BytesAreTheirBits(a: seq<Byte>, b: seq<Byte>)
    requires |a| == |b| && Bits(a) == Bits(b)
    ensures a == b
  {
    forall j | 0 <= j < |a| ensures a[j] == b[j] {
      ByteIsItsBits(a, b, j);
    }
  }

  lemma ByteIsItsBits(a: seq<Byte>, b: seq<Byte>, j: nat)
    requires j < |a| == |b| && forall i | 8 * j <= i < 8 * j + 8 :: Bits(a)[i] == Bits(b)[i]
    ensures a[j] == b[j]
  {
    forall i: nat | i < 8 ensures BitOf(a[j], i) == BitOf(b[j], i) {
      assert Bits(a)[8 * j + i] == Bits(b)[8 * j + i];
    }
    assert Pow2(8) == 256;
    BitsDetermine(a[j], b[j], 8);
  }

  lemma BitAt(data: seq<Byte>, k: nat)
    requires k < 8 * |data|
    ensures Bits(data)[k] == BitOf(data[k / 8], k % 8)
  {}

  /** The word in a field, low bit first. */
  function Read(b: seq<bool>, start: nat, length: nat): (raw: nat)
    requires start + length <= |b|
    ensures raw < Pow2(length)
    decreases length
  {
    if length == 0 then 0 else (if b[start] then 1 else 0) + 2 * Read(b, start + 1, length - 1)
  }

  function Write(b: seq<bool>, start: nat, length: nat, raw: nat): (r: seq<bool>)
    ensures |r| == |b|
  {
    seq(|b|, k requires 0 <= k < |b| => if start <= k < start + length then BitOf(raw, k - start) else b[k])
  }

  lemma {:induction false} ReadTop(b: seq<bool>, start: nat, length: nat)
    requires start + length < |b|
    ensures Read(b, start, length + 1) == Read(b, start, length) + (if b[start + length] then Pow2(length) else 0)
    decreases length
  {
    if length > 0 { ReadTop(b, start + 1, length - 1); }
  }

  lemma {:induction false} ReadSame(a: seq<bool>, b: seq<bool>, start: nat, length: nat)
    requires |a| == |b| && start + length <= |a|
    requires forall k | start <= k < start + length :: a[k] == b[k]
    ensures Read(a, start, length) == Read(b, start, length)
    decreases length
  {
    if length > 0 { ReadSame(a, b, start + 1, length - 1); }
  }

  lemma {:induction false} ReadBit(b: seq<bool>, start: nat, length: nat, i: nat)
    requires start + length <= |b| && i < length
    ensures BitOf(Read(b, start, length), i) == b[start + i]
    decreases length
  {
    if i > 0 { ReadBit(b, start + 1, length - 1, i - 1); }
  }

  // ---- Fields by the arithmetic of their bytes

  function Shr(x: nat, i: nat): nat { if i == 0 then x else Shr(x / 2, i - 1) }

  lemma {:induction false} ShrOne(x: nat, i: nat)
    ensures Shr(x, i + 1) == Shr(x, i) / 2 && (BitOf(x, i) <==> Shr(x, i) % 2 == 1)
  {
    if i > 0 { ShrOne(x / 2, i - 1); }
  }

  /** x & ((1 << l) - 1) */
  function Low(x: nat, l: nat): nat { x % Pow2(l) }

  lemma LowSplit(x: nat, l: nat)
    requires l > 0
    ensures Low(x, l) == x % 2 + 2 * Low(x / 2, l - 1)
  {
    var p := Pow2(l - 1);
    var (q, r) := (x / 2 / p, x / 2 % p);
    assert x / 2 == q * p + r;
    Regroup(q, p);
    ModUnique(x, 2 * p, q, 2 * r + x % 2);
  }

  lemma Regroup(p: nat, x: nat)
    ensures 2 * (p * x) == 2 * p * x == p * (2 * x)
  {}

  lemma Multiple(t: int, d: int)
    requires d >= 0
    ensures (t >= 1 ==> t * d >= d) && (t <= -1 ==> t * d <= -d)
  {}

  lemma ModUnique(y: nat, d: nat, q: nat, r: nat)
    requires d > 0 && y == q * d + r && r < d
    ensures y % d == r
  {
    var t := q - y / d;
    assert t * d == q * d - (y / d) * d;
    Multiple(t, d);
  }

  lemma BitInByte(data: seq<Byte>, j: nat, i: nat)
    requires j < |data| && i < 8
    ensures Bits(data)[8 * j + i] <==> Shr(data[j], i) % 2 == 1
  {
    BitAt(data, 8 * j + i);
    assert (8 * j + i) / 8 == j && (8 * j + i) % 8 == i;
    hide Shr, BitOf, Bits;
    ShrOne(data[j], i);
  }

  /** A field inside one byte: shift and mask. */
  lemma {:induction false} ReadInByte(data: seq<Byte>, j: nat, i: nat, l: nat)
    requires j < |data| && i + l <= 8
    ensures Read(Bits(data), 8 * j + i, l) == Low(Shr(data[j], i), l)
    decreases l
  {
    if l > 0 {
      hide Bits, Shr, Low, Pow2;
      ReadInByte(data, j, i + 1, l - 1);
      BitInByte(data, j, i);
      ShrOne(data[j], i);
      LowSplit(Shr(data[j], i), l);
    }
  }

  /** A field that goes on in the next byte. */
  lemma {:induction false} ReadSplit(b: seq<bool>, start: nat, l: nat, m: nat)
    requires start + l + m <= |b|
    ensures Read(b, start, l + m) == Read(b, start, l) + Pow2(l) * Read(b, start + l, m)
    decreases l
  {
    if l > 0 {
      ReadSplit(b, start + 1, l - 1, m);
      Regroup(Pow2(l - 1), Read(b, start + l, m));
    }
  }

  const POWERS: seq<int> := [1, 2, 4, 8, 16, 32, 64, 128, 256]

  lemma ShrByte(x: Byte, i: nat)
    requires i < 8
    ensures Shr(x, i) == x as int / POWERS[i]
  {
    if i > 0 {
      ShrByte(x, i - 1);
      ShrOne(x, i - 1);
    }
  }

  /** A field inside one byte, by division. */
  lemma FieldOfByte(data: seq<Byte>, j: nat, i: nat, l: nat)
    requires j < |data| && i + l <= 8 && i < 8
    ensures Read(Bits(data), 8 * j + i, l) == data[j] as int / POWERS[i] % POWERS[l]
  {
    hide Read, Bits, Shr;
    PowersOfTwo();
    ReadInByte(data, j, i, l);
    ShrByte(data[j], i);
    assert Pow2(l) == POWERS[l];
  }

  lemma {:induction false} ReadWritten(b: seq<bool>, start: nat, length: nat, raw: nat)
    requires start + length <= |b| && raw < Pow2(length)
    ensures Read(Write(b, start, length, raw), start, length) == raw
  {
    var w := Write(b, start, length, raw);
    forall i: nat | i < length ensures BitOf(Read(w, start, length), i) == BitOf(raw, i) {
      ReadBit(w, start, length, i);
    }
    BitsDetermine(Read(w, start, length), raw, length);
  }

  // ---- Layouts

  datatype Field = Field(start: nat, length: nat)

  predicate Covers(f: Field, k: int) { f.start <= k < f.start + f.length }

  predicate Disjoint(f: Field, g: Field) {
    f.start + f.length <= g.start || g.start + g.length <= f.start
  }

  ghost predicate Layout(fs: seq<Field>, size: nat) {
    && (forall i | 0 <= i < |fs| :: fs[i].start + fs[i].length <= size)
    && (forall i, j | 0 <= i < j < |fs| :: Disjoint(fs[i], fs[j]))
  }

  /** The first n fields written in order. */
  function WriteAll(b: seq<bool>, fs: seq<Field>, raw: seq<nat>, n: nat): (r: seq<bool>)
    requires n <= |fs| == |raw|
    ensures |r| == |b|
    decreases n
  {
    if n == 0 then b
    else Write(WriteAll(b, fs, raw, n - 1), fs[n - 1].start, fs[n - 1].length, raw[n - 1])
  }

  function ReadAll(b: seq<bool>, fs: seq<Field>): (raw: seq<nat>)
    requires forall i | 0 <= i < |fs| :: fs[i].start + fs[i].length <= |b|
    ensures |raw| == |fs|
  {
    seq(|fs|, i requires 0 <= i < |fs| => Read(b, fs[i].start, fs[i].length))
  }

  /** What is written to one field of a layout is what is read from it, whatever is written around it. */
  lemma {:induction false} FieldKept(b: seq<bool>, fs: seq<Field>, raw: seq<nat>, n: nat, i: nat)
    requires Layout(fs, |b|) && i < n <= |fs| == |raw| && raw[i] < Pow2(fs[i].length)
    ensures Read(WriteAll(b, fs, raw, n), fs[i].start, fs[i].length) == raw[i]
    decreases n
  {
    var before := WriteAll(b, fs, raw, n - 1);
    if i == n - 1 {
      ReadWritten(before, fs[i].start, fs[i].length, raw[i]);
    } else {
      FieldKept(b, fs, raw, n - 1, i);
      assert Disjoint(fs[i], fs[n - 1]);
      ReadSame(WriteAll(b, fs, raw, n), before, fs[i].start, fs[i].length);
    }
  }

  lemma WrittenReadsBack(b: seq<bool>, fs: seq<Field>, raw: seq<nat>)
    requires Layout(fs, |b|) && |fs| == |raw| && forall i | 0 <= i < |fs| :: raw[i] < Pow2(fs[i].length)
    ensures ReadAll(WriteAll(b, fs, raw, |fs|), fs) == raw
  {
    forall i | 0 <= i < |fs| ensures Read(WriteAll(b, fs, raw, |fs|), fs[i].start, fs[i].length) == raw[i] {
      FieldKept(b, fs, raw, |fs|, i);
    }
  }

  /** A bit outside every field stays; a bit inside one comes from that field's word. */
  lemma {:induction false} BitsOutside(b: seq<bool>, fs: seq<Field>, raw: seq<nat>, n: nat, k: nat)
    requires n <= |fs| == |raw| && k < |b| && forall i | 0 <= i < n :: !Covers(fs[i], k)
    ensures WriteAll(b, fs, raw, n)[k] == b[k]
    decreases n
  {
    if n > 0 { BitsOutside(b, fs, raw, n - 1, k); }
  }

  ghost predicate Covered(fs: seq<Field>, k: nat) {
    exists i :: 0 <= i < |fs| && Covers(fs[i], k)
  }

  /** A value forced into a field's range. */
  function Fit(value: int, length: nat): nat {
    if value < 0 then 0 else if value >= Pow2(length) then Pow2(length) - 1 else value
  }

  function FitAll(fs: seq<Field>, values: seq<int>): (raw: seq<nat>)
    requires |fs| == |values|
    ensures |raw| == |fs| && forall i | 0 <= i < |fs| :: raw[i] < Pow2(fs[i].length)
  {
    seq(|fs|, i requires 0 <= i < |fs| => Fit(values[i], fs[i].length))
  }

  ghost predicate AllFit(fs: seq<Field>, values: seq<int>)
    requires |fs| == |values|
  {
    forall i | 0 <= i < |fs| :: 0 <= values[i] < Pow2(fs[i].length)
  }

  lemma FitsUpdated(fs: seq<Field>, values: seq<int>, i: nat, x: int)
    requires |fs| == |values| && i < |fs| && AllFit(fs, values) && 0 <= x < Pow2(fs[i].length)
    ensures AllFit(fs, values[i := x])
  {}

  /** A frame packed from values, starting from all zero bits. */
  function Packed(fs: seq<Field>, values: seq<int>, size: nat): (b: seq<bool>)
    requires |fs| == |values|
    ensures |b| == size
  {
    WriteAll(seq(size, _ => false), fs, FitAll(fs, values), |fs|)
  }

  /** Unpacking returns the fitted values, which are the values themselves exactly when all of them fit. */
  lemma PackedReadsBack(fs: seq<Field>, values: seq<int>, size: nat)
    requires |fs| == |values| && Layout(fs, size)
    ensures ReadAll(Packed(fs, values, size), fs) == FitAll(fs, values)
    ensures FitAll(fs, values) == values <==> AllFit(fs, values)
  {
    hide WriteAll;
    WrittenReadsBack(seq(size, _ => false), fs, FitAll(fs, values));
    if FitAll(fs, values) == values {
      forall i | 0 <= i < |fs| ensures 0 <= values[i] < Pow2(fs[i].length) {
        assert FitAll(fs, values)[i] == values[i];
      }
    }
  }

  /** Packing what was unpacked restores every covered bit and clears the rest. */
  lemma UnpackedRestores(fs: seq<Field>, b: seq<bool>, values: seq<int>, k: nat)
    requires Layout(fs, |b|) && |values| == |fs| && k < |b|
    requires forall i | 0 <= i < |fs| :: Covers(fs[i], k) ==> values[i] == Read(b, fs[i].start, fs[i].length)
    ensures Packed(fs, values, |b|)[k] == (Covered(fs, k) && b[k])
  {
    hide WriteAll, Read;
    var (zeros, raw) := (seq(|b|, _ => false), FitAll(fs, values));
    if Covered(fs, k) {
      var i :| 0 <= i < |fs| && Covers(fs[i], k);
      UnpackedBit(fs, b, values, i, k);
    } else {
      forall i | 0 <= i < |fs| ensures !Covers(fs[i], k) {}
      BitsOutside(zeros, fs, raw, |fs|, k);
    }
  }

  lemma UnpackedBit(fs: seq<Field>, b: seq<bool>, values: seq<int>, i: nat, k: nat)
    requires Layout(fs, |b|) && |values| == |fs| && i < |fs| && Covers(fs[i], k)
    requires values[i] == Read(b, fs[i].start, fs[i].length)
    ensures k < |b| && Packed(fs, values, |b|)[k] == b[k]
  {
    hide WriteAll, Read;
    var (zeros, raw) := (seq(|b|, _ => false), FitAll(fs, values));
    FieldKept(zeros, fs, raw, |fs|, i);
    assert raw[i] == values[i];
    ReadBit(Packed(fs, values, |b|), fs[i].start, fs[i].length, k - fs[i].start);
    ReadBit(b, fs[i].start, fs[i].length, k - fs[i].start);
  }

  /** Fields that follow one another, and those that do so without gaps. */
  ghost predicate Ascending(fs: seq<Field>) {
    forall m | 0 <= m < |fs| - 1 :: fs[m].start + fs[m].length <= fs[m + 1].start
  }

  ghost predicate Contiguous(fs: seq<Field>, n: nat)
    requires n <= |fs|
  {
    forall m | 0 <= m < n - 1 :: fs[m].start + fs[m].length == fs[m + 1].start
  }

  lemma {:induction false} Ordered(fs: seq<Field>, i: nat, j: nat)
    requires i < j < |fs| && Ascending(fs)
    ensures fs[i].start + fs[i].length <= fs[j].start
  {
    if i < j - 1 { Ordered(fs, i, j - 1); }
  }

  lemma AscendingIsLayout(fs: seq<Field>, size: nat)
    requires fs != [] && Ascending(fs) && fs[|fs| - 1].start + fs[|fs| - 1].length <= size
    ensures Layout(fs, size)
  {
    forall i, j | 0 <= i < j < |fs| ensures fs[i].start + fs[i].length <= fs[j].start { Ordered(fs, i, j); }
  }

  /** The first n + 1 fields, if contiguous from bit 0, cover every bit up to the end of the last. */
  lemma {:induction false} CoveredUpTo(fs: seq<Field>, k: nat, n: nat)
    requires n < |fs| && fs[0].start == 0 && k < fs[n].start + fs[n].length && Contiguous(fs, n + 1)
    ensures Covered(fs, k)
  {
    if k >= fs[n].start { assert Covers(fs[n], k); } else { CoveredUpTo(fs, k, n - 1); }
  }

  // ---- Whole bytes

  function ToBytes(b: seq<bool>, n: nat): (data: seq<Byte>)
    requires |b| >= 8 * n
    ensures |data| == n
  {
    assert Pow2(8) == 256;
    seq(n, j requires 0 <= j < n => Read(b, 8 * j, 8))
  }

  lemma BitsOfBytes(b: seq<bool>, n: nat)
    requires |b| == 8 * n
    ensures Bits(ToBytes(b, n)) == b
  {
    forall k | 0 <= k < |b| ensures Bits(ToBytes(b, n))[k] == b[k] {
      ReadBit(b, 8 * (k / 8), 8, k % 8);
    }
  }

  lemma BytesOfBits(data: seq<Byte>)
    ensures ToBytes(Bits(data), |data|) == data
  {
    BitsOfBytes(Bits(data), |data|);
    BytesAreTheirBits(ToBytes(Bits(data), |data|), data);
  }

  /** A field outside byte c does not see it. */
  lemma OutsideByte(a: seq<Byte>, b: seq<Byte>, c: nat, f: Field)
    requires |a| == |b| && f.start + f.length <= 8 * |a|
    requires forall j | 0 <= j < |a| && j != c :: a[j] == b[j]
    requires Disjoint(f, Field(8 * c, 8))
    ensures Read(Bits(a), f.start, f.length) == Read(Bits(b), f.start, f.length)
  {
    ReadSame(Bits(a), Bits(b), f.start, f.length);
  }

  /** A wholly covered byte is restored by packing what was unpacked from it. */
  lemma UnpackedByte(fs: seq<Field>, data: seq<Byte>, values: seq<int>, j: nat)
    requires Layout(fs, 8 * |data|) && |values| == |fs| && j < |data|
    requires forall k: nat | 8 * j <= k < 8 * j + 8 :: Covered(fs, k)
    requires forall i | 0 <= i < |fs| ::
               Disjoint(fs[i], Field(8 * j, 8)) || values[i] == Read(Bits(data), fs[i].start, fs[i].length)
    ensures ToBytes(Packed(fs, values, 8 * |data|), |data|)[j] == data[j]
  {
    hide Packed, Bits, ToBytes, Read, Layout, Covered;
    var b := Bits(data);
    var bits := Packed(fs, values, |b|);
    BitsOfBytes(bits, |data|);
    forall k | 8 * j <= k < 8 * j + 8 ensures bits[k] == b[k] {
      UnpackedRestores(fs, b, values, k);
    }
    ByteIsItsBits(ToBytes(bits, |data|), data, j);
  }

  // ---- The two loops over a frame's eight bytes

  method GetSignal(data: array<Byte>, start: nat, length: nat) returns (raw: nat)
    requires start + length <= 8 * data.Length
    ensures raw == Read(Bits(data[..]), start, length)
  {
    hide Bits, BitOf, Pow2;
    raw := 0;
    assert Read(Bits(data[..]), start, 0) == 0;
    hide Read;
    for i := 0 to length
      invariant raw == Read(Bits(data[..]), start, i)
    {
      ReadTop(Bits(data[..]), start, i);
      var bit := start + i;
      BitAt(data[..], bit);
      if BitOf(data[bit / 8], bit % 8) {
        raw := raw + Pow2(i);
      }
    }
  }

  method SetSignal(data: array<Byte>, start: nat, length: nat, raw: nat)
    requires start + length <= 8 * data.Length
    modifies data
    ensures Bits(data[..]) == Write(old(Bits(data[..])), start, length, raw)
  {
    ghost var before := Bits(data[..]);
    for i := 0 to length
      invariant Bits(data[..]) == Write(before, start, i, raw)
    {
      var bit := start + i;
      var (at, b) := (bit / 8, bit % 8);
      ghost var was := data[..];
      forall k: nat { FlipByte(data[at], b, k); }
      if BitOf(raw, i) {
        data[at] := WithBit(data[at], b);
      } else {
        data[at] := WithoutBit(data[at], b);
      }
      forall k | 0 <= k < 8 * data.Length
        ensures Bits(data[..])[k] == if k == bit then BitOf(raw, i) else Bits(was)[k]
      {
        assert data[..][k / 8] == if k / 8 == at then data[at] else was[k / 8];
      }
    }
  }

  function Flag(b: bool): int { if b then 1 else 0 }

  /** clamp_u32 from 0 */
  function ClampTo(value: int, hi: nat): nat { if value < 0 then 0 else if value > hi then hi else value }

  lemma PowersOfTwo()
    ensures Pow2(1) == 2 && Pow2(2) == 4 && Pow2(3) == 8 && Pow2(4) == 16 && Pow2(5) == 32
    ensures Pow2(8) == 256 && Pow2(9) == 512 && Pow2(11) == 2048
  {
    assert Pow2(4) == 16;
    assert Pow2(8) == 256;
  }

  ghost predicate Holds(data: array<Byte>, b0: seq<bool>, fs: seq<Field>, values: seq<int>, n: nat)
    requires n <= |fs| == |values|
    reads data
  {
    data.Length == 8 && Bits(data[..]) == WriteAll(b0, fs, FitAll(fs, values), n)
  }

  /** One call of set_signal_le, writing the next field of a layout. */
  method SetField(data: array<Byte>, start: nat, length: nat, raw: nat,
                  ghost b0: seq<bool>, ghost fs: seq<Field>, ghost values: seq<int>, ghost n: nat)
    requires n < |fs| == |values| && Holds(data, b0, fs, values, n)
    requires fs[n] == Field(start, length) && start + length <= 64
    requires raw == Fit(values[n], length)
    modifies data
    ensures Holds(data, b0, fs, values, n + 1)
  {
    hide Bits, Write;
    SetSignal(data, start, length, raw);
  }

  lemma ZeroBits(data: seq<Byte>)
    requires forall j | 0 <= j < |data| :: data[j] == 0
    ensures Bits(data) == seq(8 * |data|, _ => false)
  {
    forall k | 0 <= k < 8 * |data| ensures !Bits(data)[k] { BitOfZero(k % 8); }
  }

  lemma HoldsAtFirst(data: array<Byte>, fs: seq<Field>, values: seq<int>)
    requires |fs| == |values| && data.Length == 8
    ensures Holds(data, Bits(data[..]), fs, values, 0)
  {}

  lemma HoldsMeans(data: array<Byte>, b0: seq<bool>, fs: seq<Field>, values: seq<int>)
    requires |fs| == |values| && Holds(data, b0, fs, values, |fs|)
    ensures Bits(data[..]) == WriteAll(b0, fs, FitAll(fs, values), |fs|)
  {}
}
