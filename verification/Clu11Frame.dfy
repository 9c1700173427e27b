/** The CLU11 frame: the cluster's buttons and speed, sent with a replaced speed and button. */
module Clu11Frame {
  import opened BitFields
  import opened Rounding

  datatype Clu11 = Clu11(
    cruiseSwState: int, cruiseSwMain: int, sldMainSw: int, parityBit: int,
    speedDecimal: real, speed: real, speedUnitMph: bool, detentOut: int, rheostatLevel: int,
    cluInfo: int, ampInfo: int, aliveCount: int)

  function Fields(): (fs: seq<Field>)
    ensures |fs| == 12
  {
    [Field(0, 3), Field(3, 1), Field(4, 1), Field(5, 1), Field(6, 2), Field(8, 9), Field(17, 1), Field(18, 1),
     Field(19, 5), Field(24, 1), Field(25, 1), Field(28, 4)]
  }

  /** Speeds are carried in units of 0.125 and 0.5. */
  function DecimalWord(x: real): int { Lround(ClampReal(x, 0.0, 0.375) / 0.125) }

  function SpeedWord(x: real): int { Lround(ClampReal(x, 0.0, 255.5) / 0.5) }

  function Values(v: Clu11): (values: seq<int>)
    ensures |values| == 12
  {
    [v.cruiseSwState, v.cruiseSwMain, v.sldMainSw, v.parityBit, DecimalWord(v.speedDecimal), SpeedWord(v.speed),
     Flag(v.speedUnitMph), v.detentOut, v.rheostatLevel, v.cluInfo, v.ampInfo, v.aliveCount]
  }

  function From(raw: seq<int>): Clu11
    requires |raw| == 12
  {
    Clu11(raw[0], raw[1], raw[2], raw[3], raw[4] as real * 0.125, raw[5] as real * 0.5, raw[6] != 0,
          raw[7], raw[8], raw[9], raw[10], raw[11])
  }

  lemma FieldsLayout()
    ensures Layout(Fields(), 32) && Layout(Fields(), 64)
    ensures Fields()[6].length == 1 && Fields()[4].length == 2 && Fields()[5].length == 9
  {
    AscendingIsLayout(Fields(), 32);
  }

  lemma FieldsOrder()
    ensures Ascending(Fields()) && Contiguous(Fields(), 11) && Fields()[0].start == 0
    ensures Fields()[10] == Field(25, 1) && Fields()[11] == Field(28, 4)
  {}

  lemma FieldsGap(k: nat)
    requires k == 26 || k == 27
    ensures !Covered(Fields(), k)
  {
    var fs := Fields();
    FieldsOrder();
    hide Fields, Ascending, Contiguous;
    forall i | 0 <= i < 12 ensures !Covers(fs[i], k) {
      if i < 10 { Ordered(fs, i, 10); }
    }
  }

  /** The fields leave out bits 26 and 27 of the first four bytes. */
  lemma FieldsCover(k: nat)
    requires k < 32
    ensures Covered(Fields(), k) <==> k != 26 && k != 27
  {
    FieldsOrder();
    hide Fields, Ascending, Contiguous;
    if k < 26 {
      CoveredUpTo(Fields(), k, 10);
    } else if k >= 28 {
      assert Covers(Fields()[11], k);
    } else {
      FieldsGap(k);
    }
  }

  function Widened(data: seq<Byte>): (d: seq<Byte>)
    requires |data| == 4
    ensures |d| == 8
  {
    data + [0, 0, 0, 0]
  }

  function Data(v: Clu11): (data: seq<Byte>)
    ensures |data| == 4
  {
    ToBytes(Packed(Fields(), Values(v), 64), 8)[..4]
  }

  function Words(data: seq<Byte>): (raw: seq<int>)
    requires |data| == 4
    ensures |raw| == 12
  {
    FieldsLayout();
    ReadAll(Bits(Widened(data)), Fields())
  }

  function Decoded(data: seq<Byte>): Clu11
    requires |data| == 4
  {
    From(Words(data))
  }

  function Carried(v: Clu11): Clu11 { From(FitAll(Fields(), Values(v))) }

  /** The first four bytes hold every field. */
  lemma WordsOfData(v: Clu11)
    ensures Words(Data(v)) == FitAll(Fields(), Values(v))
  {
    FieldsLayout();
    hide Fields, Values, Packed, FitAll, Read, Layout;
    var (fs, values) := (Fields(), Values(v));
    var bits := Packed(fs, values, 64);
    BitsOfBytes(bits, 8);
    PackedReadsBack(fs, values, 64);
    var b := Bits(Widened(Data(v)));
    forall k | 0 <= k < 32 ensures b[k] == bits[k] {
      assert b[k] == Bits(ToBytes(bits, 8))[k];
    }
    forall i | 0 <= i < 12 ensures Words(Data(v))[i] == FitAll(fs, values)[i] {
      FieldBelow(fs, 32, i);
      ReadSame(b, bits, fs[i].start, fs[i].length);
      assert ReadAll(bits, fs)[i] == FitAll(fs, values)[i];
    }
  }

  lemma FieldBelow(fs: seq<Field>, size: nat, i: nat)
    requires Layout(fs, size) && i < |fs|
    ensures fs[i].start + fs[i].length <= size
  {}

  lemma SpeedWordsFit(v: Clu11)
    ensures 0 <= DecimalWord(v.speedDecimal) <= 3 && 0 <= SpeedWord(v.speed) <= 511
    ensures Abs(SpeedWord(v.speed) as real * 0.5 - ClampReal(v.speed, 0.0, 255.5)) <= 0.25
    ensures Abs(DecimalWord(v.speedDecimal) as real * 0.125 - ClampReal(v.speedDecimal, 0.0, 0.375)) <= 0.0625
  {}

  /** Decoding a sent frame gives the integers saturated into their fields and the speeds, clamped to
      their range, within half a unit; everything exactly as sent when it fits and the speeds are whole
      units. */
  lemma RoundTrip(v: Clu11)
    ensures Decoded(Data(v)) == Carried(v)
    ensures Carried(v) == v <==>
            AllFit(Fields(), Values(v))
            && v.speed == SpeedWord(v.speed) as real * 0.5
            && v.speedDecimal == DecimalWord(v.speedDecimal) as real * 0.125
    ensures Abs(Carried(v).speed - ClampReal(v.speed, 0.0, 255.5)) <= 0.25
    ensures Abs(Carried(v).speedDecimal - ClampReal(v.speedDecimal, 0.0, 0.375)) <= 0.0625
  {
    WordsOfData(v);
    CarriedIsExact(v);
    CarriedSpeeds(v);
    hide From, Data, Words, FitAll, AllFit, Fields, Values, SpeedWord, DecimalWord, ClampReal;
  }

  lemma CarriedSpeeds(v: Clu11)
    ensures Abs(Carried(v).speed - ClampReal(v.speed, 0.0, 255.5)) <= 0.25
    ensures Abs(Carried(v).speedDecimal - ClampReal(v.speedDecimal, 0.0, 0.375)) <= 0.0625
  {
    SpeedWordsFit(v);
    FieldsLayout();
    PowersOfTwo();
    hide SpeedWord, DecimalWord, Pow2, Fields;
    var fit := FitAll(Fields(), Values(v));
    assert fit[4] == DecimalWord(v.speedDecimal) && fit[5] == SpeedWord(v.speed);
  }

  lemma CarriedIsExact(v: Clu11)
    ensures Carried(v) == v <==>
            AllFit(Fields(), Values(v))
            && v.speed == SpeedWord(v.speed) as real * 0.5
            && v.speedDecimal == DecimalWord(v.speedDecimal) as real * 0.125
  {
    FieldsLayout();
    SpeedWordsFit(v);
    PowersOfTwo();
    hide Fields, SpeedWord, DecimalWord, Pow2;
    var fit := FitAll(Fields(), Values(v));
    PackedReadsBack(Fields(), Values(v), 64);
    assert fit[4] == Values(v)[4] && fit[5] == Values(v)[5] && 0 <= fit[6] < 2;
    hide FitAll, AllFit;
    FromEquals(fit, v);
  }

  lemma FromEquals(fit: seq<int>, v: Clu11)
    requires |fit| == 12 && fit[4] == Values(v)[4] && fit[5] == Values(v)[5] && 0 <= fit[6] < 2
    ensures From(fit) == v <==>
            fit == Values(v)
            && v.speed == SpeedWord(v.speed) as real * 0.5
            && v.speedDecimal == DecimalWord(v.speedDecimal) as real * 0.125
  {
    hide SpeedWord, DecimalWord;
  }

  lemma ValuesFrom(raw: seq<int>)
    requires |raw| == 12 && 0 <= raw[4] <= 3 && 0 <= raw[5] <= 511 && 0 <= raw[6] <= 1
    ensures Values(From(raw)) == raw
  {
    assert DecimalWord(raw[4] as real * 0.125) == raw[4];
    assert SpeedWord(raw[5] as real * 0.5) == raw[5];
  }

  lemma RepackedBit(data: seq<Byte>, k: nat)
    requires |data| == 4 && k < 32
    ensures Packed(Fields(), Words(data), 64)[k] == (k != 26 && k != 27 && Bits(Widened(data))[k])
  {
    FieldsLayout();
    FieldsCover(k);
    hide Fields, Packed, Read, Layout, Covered;
    UnpackedRestores(Fields(), Bits(Widened(data)), Words(data), k);
  }

  lemma WordsInRange(data: seq<Byte>)
    requires |data| == 4
    ensures var raw := Words(data); 0 <= raw[4] <= 3 && 0 <= raw[5] <= 511 && 0 <= raw[6] <= 1
  {
    FieldsLayout();
    PowersOfTwo();
    hide Fields, Pow2;
  }

  lemma FirstBytesBits(d: seq<Byte>, n: nat, k: nat)
    requires n <= |d| && k < 8 * n
    ensures Bits(d[..n])[k] == Bits(d)[k]
  {}

  lemma DecodedValues(data: seq<Byte>)
    requires |data| == 4
    ensures Values(Decoded(data)) == Words(data)
  {
    WordsInRange(data);
    hide Words, Values, From;
    ValuesFrom(Words(data));
  }

  /** Sending what was decoded from any four bytes restores every bit of them but the two unused ones,
      which become zero. */
  lemma Reencoded(data: seq<Byte>, k: nat)
    requires |data| == 4 && k < 32
    ensures Bits(Data(Decoded(data)))[k] == (k != 26 && k != 27 && Bits(data)[k])
  {
    DecodedValues(data);
    RepackedBit(data, k);
    hide Fields, Values, Decoded, Packed, Words, Bits, ToBytes;
    var bits := Packed(Fields(), Words(data), 64);
    BitsOfBytes(bits, 8);
    FirstBytesBits(ToBytes(bits, 8), 4, k);
    FirstBytesBits(Widened(data), 4, k);
    assert Widened(data)[..4] == data;
  }

  // ---- On the wire

  lemma WireSpeed(data: seq<Byte>)
    requires |data| == 8
    ensures Read(Bits(data), 8, 9) == data[1] as int + 256 * (data[2] as int % 2)
  {
    PowersOfTwo();
    hide Pow2, Read, Bits;
    FieldOfByte(data, 1, 0, 8);
    FieldOfByte(data, 2, 0, 1);
    ReadSplit(Bits(data), 8, 8, 1);
  }

  lemma WireWords(data: seq<Byte>)
    requires |data| == 4
    ensures var (v, b) := (Decoded(data), Bits(Widened(data)));
            && v.cruiseSwState == Read(b, 0, 3) && v.cruiseSwMain == Read(b, 3, 1) && v.sldMainSw == Read(b, 4, 1)
            && v.speedDecimal == Read(b, 6, 2) as real * 0.125 && v.speed == Read(b, 8, 9) as real * 0.5
            && (v.speedUnitMph <==> Read(b, 17, 1) != 0) && v.aliveCount == Read(b, 28, 4)
  {
    hide Read, Bits;
  }

  /** The fields that the cruise reads and sets, by the bytes on the wire. */
  lemma OnTheWire(data: seq<Byte>)
    requires |data| == 4
    ensures var v := Decoded(data);
            && v.cruiseSwState == data[0] as int % 8
            && v.cruiseSwMain == data[0] as int / 8 % 2
            && v.sldMainSw == data[0] as int / 16 % 2
            && v.speedDecimal == (data[0] as int / 64) as real * 0.125
            && v.speed == (data[1] as int + 256 * (data[2] as int % 2)) as real * 0.5
            && (v.speedUnitMph <==> data[2] as int / 2 % 2 == 1)
            && v.aliveCount == data[3] as int / 16
  {
    WireWords(data);
    hide Read, Bits, Decoded;
    WireButtons(Widened(data));
    WireRest(Widened(data));
    WireSpeed(Widened(data));
  }

  lemma WireButtons(d: seq<Byte>)
    requires |d| == 8
    ensures var b := Bits(d);
            && Read(b, 0, 3) == d[0] as int % 8 && Read(b, 3, 1) == d[0] as int / 8 % 2
            && Read(b, 4, 1) == d[0] as int / 16 % 2 && Read(b, 6, 2) == d[0] as int / 64
  {
    hide Read, Bits;
    FieldOfByte(d, 0, 0, 3);
    FieldOfByte(d, 0, 3, 1);
    FieldOfByte(d, 0, 4, 1);
    FieldOfByte(d, 0, 6, 2);
  }

  lemma WireRest(d: seq<Byte>)
    requires |d| == 8
    ensures Read(Bits(d), 17, 1) == d[2] as int / 2 % 2 && Read(Bits(d), 28, 4) == d[3] as int / 16
  {
    hide Read, Bits;
    FieldOfByte(d, 2, 1, 1);
    FieldOfByte(d, 3, 4, 4);
  }

  // ---- The builder

  datatype CluCommand = CluCommand(button: int, speed: real, frame: int)

  method SetButtonFields(data: array<Byte>, v: Clu11, ghost b0: seq<bool>)
    requires Holds(data, b0, Fields(), Values(v), 0)
    modifies data
    ensures Holds(data, b0, Fields(), Values(v), 6)
  {
    PowersOfTwo();
    SpeedWordsFit(v);
    hide Holds, Pow2, DecimalWord, SpeedWord;
    SetField(data, 0, 3, ClampTo(v.cruiseSwState, 7), b0, Fields(), Values(v), 0);
    SetField(data, 3, 1, ClampTo(v.cruiseSwMain, 1), b0, Fields(), Values(v), 1);
    SetField(data, 4, 1, ClampTo(v.sldMainSw, 1), b0, Fields(), Values(v), 2);
    SetField(data, 5, 1, ClampTo(v.parityBit, 1), b0, Fields(), Values(v), 3);
    SetField(data, 6, 2, ClampTo(DecimalWord(v.speedDecimal), 3), b0, Fields(), Values(v), 4);
    SetField(data, 8, 9, ClampTo(SpeedWord(v.speed), 511), b0, Fields(), Values(v), 5);
  }

  method SetClusterFields(data: array<Byte>, v: Clu11, ghost b0: seq<bool>)
    requires Holds(data, b0, Fields(), Values(v), 6)
    modifies data
    ensures Holds(data, b0, Fields(), Values(v), 12)
  {
    PowersOfTwo();
    hide Holds, Pow2, DecimalWord, SpeedWord;
    SetField(data, 17, 1, Flag(v.speedUnitMph), b0, Fields(), Values(v), 6);
    SetField(data, 18, 1, ClampTo(v.detentOut, 1), b0, Fields(), Values(v), 7);
    SetField(data, 19, 5, ClampTo(v.rheostatLevel, 31), b0, Fields(), Values(v), 8);
    SetField(data, 24, 1, ClampTo(v.cluInfo, 1), b0, Fields(), Values(v), 9);
    SetField(data, 25, 1, ClampTo(v.ampInfo, 1), b0, Fields(), Values(v), 10);
    SetField(data, 28, 4, ClampTo(v.aliveCount, 15), b0, Fields(), Values(v), 11);
  }

  method PackWide(v: Clu11) returns (data: array<Byte>)
    ensures data.Length == 8 && data[..] == ToBytes(Packed(Fields(), Values(v), 64), 8)
  {
    data := new Byte[8](_ => 0);
    ghost var b0 := Bits(data[..]);
    ZeroBits(data[..]);
    hide Bits, WriteAll, FitAll, Fields, Values, ToBytes;
    HoldsAtFirst(data, Fields(), Values(v));
    SetButtonFields(data, v, b0);
    SetClusterFields(data, v, b0);
    HoldsMeans(data, b0, Fields(), Values(v));
    BytesOfBits(data[..]);
  }

  method Pack(v: Clu11) returns (packed: seq<Byte>)
    ensures packed == Data(v)
  {
    hide Packed, ToBytes, Fields, Values;
    var data := PackWide(v);
    packed := [data[0], data[1], data[2], data[3]];
    assert packed == data[..][..4];
  }

  method CreateClu11Frame(seed: Clu11, c: CluCommand, bus: Byte) returns (f: CanFrame)
    ensures f == CanFrame(1265, bus, 4, Widened(Data(seed.(cruiseSwState := c.button, speed := c.speed,
                                                        aliveCount := c.frame % 16))))
  {
    var packed := Pack(seed.(cruiseSwState := c.button, speed := c.speed, aliveCount := c.frame % 16));
    f := CanFrame(1265, bus, 4, packed + [0, 0, 0, 0]);
  }

  /** The frame built for a button and a speed says so on the wire, whatever the seed: the button, the speed to
      a quarter of a unit, and the count. */
  lemma CommandOnTheWire(seed: Clu11, c: CluCommand)
    requires 0 <= c.button <= 7
    ensures var data := Data(seed.(cruiseSwState := c.button, speed := c.speed, aliveCount := c.frame % 16));
            && data[0] as int % 8 == c.button && data[3] as int / 16 == c.frame % 16
            && Abs((data[1] as int + 256 * (data[2] as int % 2)) as real * 0.5 - ClampReal(c.speed, 0.0, 255.5)) <= 0.25
  {
    var v := seed.(cruiseSwState := c.button, speed := c.speed, aliveCount := c.frame % 16);
    RoundTrip(v);
    OnTheWire(Data(v));
    CarriedCommand(v);
    hide Data, Decoded, Carried, ClampReal;
  }

  lemma CarriedCommand(v: Clu11)
    requires 0 <= v.cruiseSwState <= 7 && 0 <= v.aliveCount <= 15
    ensures Carried(v).cruiseSwState == v.cruiseSwState && Carried(v).aliveCount == v.aliveCount
  {
    FieldsLayout();
    PowersOfTwo();
    hide Pow2, SpeedWord, DecimalWord;
    var fit := FitAll(Fields(), Values(v));
    assert Fields()[0] == Field(0, 3) && Fields()[11] == Field(28, 4);
    assert fit[0] == v.cruiseSwState && fit[11] == v.aliveCount;
  }
}
