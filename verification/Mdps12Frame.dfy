/** The MDPS12 frame sent back to the camera bus: the seed taken from the power steering, with the fault
    bits replaced, a running count and a checksum. */
module Mdps12Frame {
  import opened BitFields

  function Sum(data: seq<Byte>): nat {
    if data == [] then 0 else Sum(data[..|data| - 1]) + data[|data| - 1] as int
  }

  /** What every built frame looks like, bit by bit. */
  ghost predicate Describes(data: seq<Byte>, seed: seq<Byte>, frame: int)
    requires |data| == |seed| == 8
  {
    && (forall k | 0 <= k < 64 && k != 12 && k != 13 && !(16 <= k < 32) :: Bits(data)[k] == Bits(seed)[k])
    && Bits(data)[12] && !Bits(data)[13]
    && data[2] == frame % 256
    && data[3] == Sum(data[3 := 0]) % 256
  }

  /** The description leaves nothing open: one frame per seed and count. */
  lemma DescriptionIsComplete(a: seq<Byte>, b: seq<Byte>, seed: seq<Byte>, frame: int)
    requires |a| == |b| == |seed| == 8 && Describes(a, seed, frame) && Describes(b, seed, frame)
    ensures a == b
  {
    forall j | 0 <= j < 8 && j != 3 ensures a[j] == b[j] {
      if j != 2 { ByteIsItsBits(a, b, j); }
    }
    assert a[3 := 0] == b[3 := 0];
  }

  /** Building again from a built frame depends only on the new count. */
  lemma RebuildForgets(a: seq<Byte>, b: seq<Byte>, c: seq<Byte>, seed: seq<Byte>, first: int, second: int)
    requires |a| == |b| == |c| == |seed| == 8
    requires Describes(a, seed, first) && Describes(b, a, second) && Describes(c, seed, second)
    ensures b == c
  {
    assert Describes(b, seed, second);
    DescriptionIsComplete(b, c, seed, second);
  }

  /** The same by the bytes: five as they were, two bits of the second replaced, the count, and the sum of the
      other seven bytes. */
  lemma OnTheWire(data: seq<Byte>, seed: seq<Byte>, frame: int)
    requires |data| == |seed| == 8 && Describes(data, seed, frame)
    ensures data[0] == seed[0] && data[4..] == seed[4..]
    ensures data[1] as int % 16 == seed[1] as int % 16 && data[1] as int / 64 == seed[1] as int / 64
    ensures data[1] as int / 16 % 2 == 1 && data[1] as int / 32 % 2 == 0
    ensures data[2] as int == frame % 256
    ensures data[3] as int
         == (data[0] as int + data[1] as int + data[2] as int + data[4] as int + data[5] as int + data[6] as int
             + data[7] as int) % 256
  {
    forall j | 0 <= j < 8 && (j == 0 || j >= 4) ensures data[j] == seed[j] { ByteIsItsBits(data, seed, j); }
    SumOfEight(data[3 := 0]);
    hide Sum, Bits;
    SecondByte(data, seed);
  }

  lemma SecondByte(data: seq<Byte>, seed: seq<Byte>)
    requires |data| == |seed| == 8 && Bits(data)[12] && !Bits(data)[13]
    requires forall k | 8 <= k < 16 && k != 12 && k != 13 :: Bits(data)[k] == Bits(seed)[k]
    ensures data[1] as int % 16 == seed[1] as int % 16 && data[1] as int / 64 == seed[1] as int / 64
    ensures data[1] as int / 16 % 2 == 1 && data[1] as int / 32 % 2 == 0
  {
    hide Bits, Read;
    KeptField(data, seed, 0, 4);
    KeptField(data, seed, 6, 2);
    FaultBits(data);
  }

  lemma KeptField(data: seq<Byte>, seed: seq<Byte>, i: nat, l: nat)
    requires |data| == |seed| == 8 && i + l <= 8 && i < 8
    requires forall k | 8 + i <= k < 8 + i + l :: Bits(data)[k] == Bits(seed)[k]
    ensures data[1] as int / POWERS[i] % POWERS[l] == seed[1] as int / POWERS[i] % POWERS[l]
  {
    hide Bits, Read;
    ReadSame(Bits(data), Bits(seed), 8 + i, l);
    FieldOfByte(data, 1, i, l);
    FieldOfByte(seed, 1, i, l);
  }

  lemma FaultBits(data: seq<Byte>)
    requires |data| == 8 && Bits(data)[12] && !Bits(data)[13]
    ensures data[1] as int / 16 % 2 == 1 && data[1] as int / 32 % 2 == 0
  {
    hide Bits, Shr;
    BitInByte(data, 1, 4);
    BitInByte(data, 1, 5);
    ShrByte(data[1], 4);
    ShrByte(data[1], 5);
  }

  lemma SumOfEight(d: seq<Byte>)
    requires |d| == 8
    ensures Sum(d) == d[0] as int + d[1] as int + d[2] as int + d[3] as int + d[4] as int + d[5] as int
                      + d[6] as int + d[7] as int
  {
    assert d[..7][..6] == d[..6] && d[..6][..5] == d[..5] && d[..5][..4] == d[..4];
    assert d[..4][..3] == d[..3] && d[..3][..2] == d[..2] && d[..2][..1] == d[..1] && d[..1][..0] == [];
    assert Sum(d[..1]) == d[0] as int;
    assert Sum(d[..2]) == Sum(d[..1]) + d[1] as int;
    assert Sum(d[..3]) == Sum(d[..2]) + d[2] as int;
    assert Sum(d[..4]) == Sum(d[..3]) + d[3] as int;
    assert Sum(d[..5]) == Sum(d[..4]) + d[4] as int;
    assert Sum(d[..6]) == Sum(d[..5]) + d[5] as int;
    assert Sum(d[..7]) == Sum(d[..6]) + d[6] as int;
  }

  lemma ByteFromField(data: seq<Byte>, j: nat, raw: Byte)
    requires j < |data| && forall k | 8 * j <= k < 8 * j + 8 :: Bits(data)[k] == BitOf(raw, k - 8 * j)
    ensures data[j] == raw
  {
    forall i: nat | i < 8 ensures BitOf(data[j], i) == BitOf(raw, i) {
      assert Bits(data)[8 * j + i] == BitOf(raw, i);
    }
    PowersOfTwo();
    BitsDetermine(data[j], raw, 8);
  }

  method SetByte(data: array<Byte>, j: nat, raw: Byte)
    requires data.Length == 8 && j < 8
    modifies data
    ensures data[..] == old(data[..])[j := raw]
  {
    ghost var was := data[..];
    SetSignal(data, 8 * j, 8, raw);
    ghost var now := data[..];
    hide Bits;
    ByteFromField(now, j, raw);
    forall m | 0 <= m < 8 && m != j ensures now[m] == was[m] {
      ByteIsItsBits(now, was, m);
    }
  }

  method CreateMdps12Frame(seed: seq<Byte>, frame: int) returns (f: CanFrame)
    requires |seed| == 8
    ensures f.address == 593 && f.bus == 2 && f.length == 8 && |f.data| == 8
    ensures Describes(f.data, seed, frame)
  {
    var data := new Byte[8](j requires 0 <= j < 8 => seed[j]);
    assert data[..] == seed;
    SetSignal(data, 13, 1, 0);
    SetSignal(data, 12, 1, 1);
    ghost var flagged := data[..];
    SetByte(data, 2, frame % 256);
    SetByte(data, 3, 0);
    ghost var zeroed := data[..];
    var checksum: nat := 0;
    for j := 0 to 8
      invariant data[..] == zeroed && checksum == Sum(zeroed[..j])
    {
      assert zeroed[..j + 1][..j] == zeroed[..j];
      checksum := checksum + data[j] as int;
    }
    assert zeroed[..8] == zeroed;
    SetByte(data, 3, checksum % 256);
    assert data[..][3 := 0] == zeroed;
    f := CanFrame(593, 2, 8, data[..]);
    Flagged(seed, flagged);
    Untouched(f.data, flagged);
  }

  lemma Flagged(seed: seq<Byte>, flagged: seq<Byte>)
    requires |seed| == |flagged| == 8
    requires Bits(flagged) == Write(Write(Bits(seed), 13, 1, 0), 12, 1, 1)
    ensures Bits(flagged)[12] && !Bits(flagged)[13]
    ensures forall k | 0 <= k < 64 && k != 12 && k != 13 :: Bits(flagged)[k] == Bits(seed)[k]
  {
    hide Bits;
    assert Write(Bits(seed), 13, 1, 0)[13] == BitOf(0, 0) == false;
    assert Bits(flagged)[12] == BitOf(1, 0) == true;
    assert Bits(flagged)[13] == Write(Bits(seed), 13, 1, 0)[13];
  }

  lemma Untouched(data: seq<Byte>, flagged: seq<Byte>)
    requires |data| == |flagged| == 8 && forall j | 0 <= j < 8 && j != 2 && j != 3 :: data[j] == flagged[j]
    ensures forall k | 0 <= k < 64 && !(16 <= k < 32) :: Bits(data)[k] == Bits(flagged)[k]
  {}
}
