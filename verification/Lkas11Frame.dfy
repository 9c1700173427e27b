/** The LKAS11 frame, which carries the torque command: what is sent is what decodes. */
module Lkas11Frame {
  import opened BitFields

  // ---- LKAS11

  datatype Lkas11 = Lkas11(
    ldwsActiveMode: int, ldwsSysState: int, sysWarning: int, leftLaneDepart: int, rightLaneDepart: int,
    hbaLamp: int, fcwBasReq: int, steerTorque: int, steerReq: bool, toiFault: bool, hbaSysState: int,
    fcwOpt: int, hbaOpt: int, msgCount: int, fcwSysState: int, fcwCollisionWarning: int,
    fusionState: int, unknown1: int, fcwOptUsm: int, ldwsOptUsm: int, unknown2: int)

  /** The fields in the order they are written; field 18 is the checksum's byte, written as zero. */
  function Lkas11Fields(): (fs: seq<Field>)
    ensures |fs| == 22
  {
    [Field(0, 2), Field(2, 4), Field(6, 4), Field(10, 2), Field(12, 2), Field(14, 1), Field(15, 1),
     Field(16, 11), Field(27, 1), Field(28, 1), Field(29, 3), Field(32, 2), Field(34, 2), Field(36, 4),
     Field(40, 3), Field(43, 2), Field(45, 2), Field(47, 1), Field(48, 8), Field(56, 3), Field(59, 3), Field(62, 2)]
  }

  const SUM_FIELD := 18

  function Lkas11Values(v: Lkas11): (values: seq<int>)
    ensures |values| == 22 && values[SUM_FIELD] == 0
  {
    [v.ldwsActiveMode, v.ldwsSysState, v.sysWarning, v.leftLaneDepart, v.rightLaneDepart, v.hbaLamp, v.fcwBasReq,
     v.steerTorque + 1024, Flag(v.steerReq), Flag(v.toiFault), v.hbaSysState, v.fcwOpt, v.hbaOpt, v.msgCount,
     v.fcwSysState, v.fcwCollisionWarning, v.fusionState, v.unknown1, 0, v.fcwOptUsm, v.ldwsOptUsm, v.unknown2]
  }

  function Lkas11From(raw: seq<int>): Lkas11
    requires |raw| == 22
  {
    Lkas11(raw[0], raw[1], raw[2], raw[3], raw[4], raw[5], raw[6], raw[7] - 1024, raw[8] != 0, raw[9] != 0,
           raw[10], raw[11], raw[12], raw[13], raw[14], raw[15], raw[16], raw[17], raw[19], raw[20], raw[21])
  }

  lemma Lkas11Layout()
    ensures Layout(Lkas11Fields(), 64) && forall k: nat | k < 64 :: Covered(Lkas11Fields(), k)
    ensures Lkas11Fields()[SUM_FIELD] == Field(48, 8)
    ensures Lkas11Fields()[8].length == 1 && Lkas11Fields()[9].length == 1
  {
    var fs := Lkas11Fields();
    assert Contiguous(fs, 22);
    AscendingIsLayout(fs, 64);
    forall k: nat | k < 64 ensures Covered(fs, k) { CoveredUpTo(fs, k, 21); }
  }

  function Checksum(data: seq<Byte>): Byte
    requires |data| == 8
  {
    (data[0] as int + data[1] as int + data[2] as int + data[3] as int + data[4] as int + data[5] as int
     + data[7] as int) % 256
  }

  function Lkas11Data(v: Lkas11): (data: seq<Byte>)
    ensures |data| == 8
  {
    var d := ToBytes(Packed(Lkas11Fields(), Lkas11Values(v), 64), 8);
    d[6 := Checksum(d)]
  }

  function Lkas11Words(data: seq<Byte>): (raw: seq<int>)
    requires |data| == 8
    ensures |raw| == 22
  {
    Lkas11Layout();
    ReadAll(Bits(data), Lkas11Fields())
  }

  function DecodedLkas11(data: seq<Byte>): Lkas11
    requires |data| == 8
  {
    Lkas11From(Lkas11Words(data))
  }

  /** The values as they can be carried: out-of-range ones forced into their fields. */
  function Saturated(v: Lkas11): Lkas11 { Lkas11From(FitAll(Lkas11Fields(), Lkas11Values(v))) }

  ghost predicate Lkas11Fits(v: Lkas11) { AllFit(Lkas11Fields(), Lkas11Values(v)) }

  lemma Lkas11FromValues(v: Lkas11)
    ensures Lkas11From(Lkas11Values(v)) == v
  {}

  lemma Lkas11ValuesFrom(raw: seq<int>)
    requires |raw| == 22 && 0 <= raw[8] < 2 && 0 <= raw[9] < 2
    ensures Lkas11Values(Lkas11From(raw)) == raw[SUM_FIELD := 0]
  {}

  lemma SaturatedIsExact(v: Lkas11)
    ensures Saturated(v) == v <==> Lkas11Fits(v)
  {
    var (fs, values) := (Lkas11Fields(), Lkas11Values(v));
    Lkas11Layout();
    PackedReadsBack(fs, values, 64);
    Lkas11FromValues(v);
    var fit := FitAll(fs, values);
    assert Pow2(1) == 2;
    if Saturated(v) == v {
      Lkas11ValuesFrom(fit);
      assert fit[SUM_FIELD] == 0;
    }
  }

  /** Decoding a sent frame gives the sent values with out-of-range ones saturated: exactly the sent
      values when, and only when, all of them fit. Byte 6 is the sum of the other seven modulo 256. */
  lemma Lkas11RoundTrip(v: Lkas11)
    ensures DecodedLkas11(Lkas11Data(v)) == Saturated(v)
    ensures Saturated(v) == v <==> Lkas11Fits(v)
    ensures Lkas11Data(v)[6] == Checksum(Lkas11Data(v))
  {
    Lkas11Layout();
    SaturatedIsExact(v);
    hide Lkas11Fields, Lkas11Values, Lkas11From, Packed, FitAll, Read, Bits, Lkas11Fits, ToBytes;
    var (fs, values, data) := (Lkas11Fields(), Lkas11Values(v), Lkas11Data(v));
    var bits := Packed(fs, values, 64);
    var d := ToBytes(bits, 8);
    BitsOfBytes(bits, 8);
    PackedReadsBack(fs, values, 64);
    forall i | 0 <= i < 22 && i != SUM_FIELD ensures Lkas11Words(data)[i] == FitAll(fs, values)[i] {
      assert Disjoint(fs[i], fs[SUM_FIELD]);
      OutsideByte(d, data, 6, fs[i]);
      assert ReadAll(bits, fs)[i] == Read(bits, fs[i].start, fs[i].length);
    }
    FromIgnoresSum(Lkas11Words(data), FitAll(fs, values));
  }

  lemma FromIgnoresSum(a: seq<int>, b: seq<int>)
    requires |a| == |b| == 22 && forall i | 0 <= i < 22 && i != SUM_FIELD :: a[i] == b[i]
    ensures Lkas11From(a) == Lkas11From(b)
  {}

  lemma Lkas11BytesRestored(data: seq<Byte>, values: seq<int>, j: nat)
    requires |data| == 8 && j < 8 && j != 6 && values == Lkas11Words(data)[SUM_FIELD := 0]
    ensures ToBytes(Packed(Lkas11Fields(), values, 64), 8)[j] == data[j]
  {
    Lkas11Layout();
    hide Lkas11Fields, Packed, Read, Bits, ToBytes;
    UnpackedByte(Lkas11Fields(), data, values, j);
  }

  lemma ChecksumSkipsItself(a: seq<Byte>, b: seq<Byte>)
    requires |a| == |b| == 8 && forall j | 0 <= j < 8 && j != 6 :: a[j] == b[j]
    ensures Checksum(a) == Checksum(b) && a[6 := Checksum(a)] == b[6 := Checksum(b)]
  {}

  /** Sending what was decoded from any eight bytes restores them all except the checksum, which comes
      out right. */
  lemma Lkas11Reencoded(data: seq<Byte>)
    requires |data| == 8
    ensures Lkas11Data(DecodedLkas11(data)) == data[6 := Checksum(data)]
  {
    Lkas11Layout();
    assert Pow2(1) == 2;
    var raw := Lkas11Words(data);
    Lkas11ValuesFrom(raw);
    hide Lkas11Fields, Lkas11Values, Lkas11From, Lkas11Words, Packed, ToBytes, Checksum;
    var d := ToBytes(Packed(Lkas11Fields(), raw[SUM_FIELD := 0], 64), 8);
    forall j: nat | j < 8 && j != 6 ensures d[j] == data[j] {
      Lkas11BytesRestored(data, raw[SUM_FIELD := 0], j);
    }
    ChecksumSkipsItself(d, data);
  }

  // ---- The builders, on the eight-byte buffer

  /** Bytes 0 and 1. */
  method SetStateFields(data: array<Byte>, v: Lkas11, ghost b0: seq<bool>)
    requires Holds(data, b0, Lkas11Fields(), Lkas11Values(v), 0)
    modifies data
    ensures Holds(data, b0, Lkas11Fields(), Lkas11Values(v), 3)
  {
    PowersOfTwo();
    hide Holds, Pow2;
    SetField(data, 0, 2, ClampTo(v.ldwsActiveMode, 3), b0, Lkas11Fields(), Lkas11Values(v), 0);
    SetField(data, 2, 4, ClampTo(v.ldwsSysState, 15), b0, Lkas11Fields(), Lkas11Values(v), 1);
    SetField(data, 6, 4, ClampTo(v.sysWarning, 15), b0, Lkas11Fields(), Lkas11Values(v), 2);
  }

  method SetLaneFields(data: array<Byte>, v: Lkas11, ghost b0: seq<bool>)
    requires Holds(data, b0, Lkas11Fields(), Lkas11Values(v), 3)
    modifies data
    ensures Holds(data, b0, Lkas11Fields(), Lkas11Values(v), 7)
  {
    PowersOfTwo();
    hide Holds, Pow2;
    SetField(data, 10, 2, ClampTo(v.leftLaneDepart, 3), b0, Lkas11Fields(), Lkas11Values(v), 3);
    SetField(data, 12, 2, ClampTo(v.rightLaneDepart, 3), b0, Lkas11Fields(), Lkas11Values(v), 4);
    SetField(data, 14, 1, ClampTo(v.hbaLamp, 1), b0, Lkas11Fields(), Lkas11Values(v), 5);
    SetField(data, 15, 1, ClampTo(v.fcwBasReq, 1), b0, Lkas11Fields(), Lkas11Values(v), 6);
  }

  /** Bytes 2 and 3. */
  method SetSteerFields(data: array<Byte>, v: Lkas11, ghost b0: seq<bool>)
    requires Holds(data, b0, Lkas11Fields(), Lkas11Values(v), 7)
    modifies data
    ensures Holds(data, b0, Lkas11Fields(), Lkas11Values(v), 11)
  {
    PowersOfTwo();
    hide Holds, Pow2;
    SetField(data, 16, 11, ClampTo(v.steerTorque + 1024, 2047), b0, Lkas11Fields(), Lkas11Values(v), 7);
    SetField(data, 27, 1, Flag(v.steerReq), b0, Lkas11Fields(), Lkas11Values(v), 8);
    SetField(data, 28, 1, Flag(v.toiFault), b0, Lkas11Fields(), Lkas11Values(v), 9);
    SetField(data, 29, 3, ClampTo(v.hbaSysState, 7), b0, Lkas11Fields(), Lkas11Values(v), 10);
  }

  /** Bytes 4 and 5. */
  method SetOptionFields(data: array<Byte>, v: Lkas11, ghost b0: seq<bool>)
    requires Holds(data, b0, Lkas11Fields(), Lkas11Values(v), 11)
    modifies data
    ensures Holds(data, b0, Lkas11Fields(), Lkas11Values(v), 18)
  {
    PowersOfTwo();
    hide Holds, Pow2;
    SetField(data, 32, 2, ClampTo(v.fcwOpt, 3), b0, Lkas11Fields(), Lkas11Values(v), 11);
    SetField(data, 34, 2, ClampTo(v.hbaOpt, 3), b0, Lkas11Fields(), Lkas11Values(v), 12);
    SetField(data, 36, 4, ClampTo(v.msgCount, 15), b0, Lkas11Fields(), Lkas11Values(v), 13);
    SetField(data, 40, 3, ClampTo(v.fcwSysState, 7), b0, Lkas11Fields(), Lkas11Values(v), 14);
    SetField(data, 43, 2, ClampTo(v.fcwCollisionWarning, 3), b0, Lkas11Fields(), Lkas11Values(v), 15);
    SetField(data, 45, 2, ClampTo(v.fusionState, 3), b0, Lkas11Fields(), Lkas11Values(v), 16);
    SetField(data, 47, 1, ClampTo(v.unknown1, 1), b0, Lkas11Fields(), Lkas11Values(v), 17);
  }

  /** Bytes 6 and 7. */
  method SetLastFields(data: array<Byte>, v: Lkas11, ghost b0: seq<bool>)
    requires Holds(data, b0, Lkas11Fields(), Lkas11Values(v), 18)
    modifies data
    ensures Holds(data, b0, Lkas11Fields(), Lkas11Values(v), 22)
  {
    PowersOfTwo();
    hide Holds, Pow2;
    SetField(data, 48, 8, 0, b0, Lkas11Fields(), Lkas11Values(v), 18);
    SetField(data, 56, 3, ClampTo(v.fcwOptUsm, 7), b0, Lkas11Fields(), Lkas11Values(v), 19);
    SetField(data, 59, 3, ClampTo(v.ldwsOptUsm, 7), b0, Lkas11Fields(), Lkas11Values(v), 20);
    SetField(data, 62, 2, ClampTo(v.unknown2, 3), b0, Lkas11Fields(), Lkas11Values(v), 21);
  }

  method SetCommonLkasFields(data: array<Byte>, v: Lkas11)
    requires data.Length == 8
    modifies data
    ensures Bits(data[..]) == WriteAll(old(Bits(data[..])), Lkas11Fields(), FitAll(Lkas11Fields(), Lkas11Values(v)), 22)
  {
    ghost var b0 := Bits(data[..]);
    hide Lkas11Fields, Lkas11Values, Bits, FitAll;
    SetStateFields(data, v, b0);
    SetLaneFields(data, v, b0);
    SetSteerFields(data, v, b0);
    SetOptionFields(data, v, b0);
    SetLastFields(data, v, b0);
  }

  method DecodeLkas11(data: array<Byte>) returns (v: Lkas11)
    requires data.Length == 8
    ensures v == DecodedLkas11(data[..])
  {
    hide Bits, Read;
    var a0 := GetSignal(data, 0, 2);
    var a1 := GetSignal(data, 2, 4);
    var a2 := GetSignal(data, 6, 4);
    var a3 := GetSignal(data, 10, 2);
    var a4 := GetSignal(data, 12, 2);
    var a5 := GetSignal(data, 14, 1);
    var a6 := GetSignal(data, 15, 1);
    var torque := GetSignal(data, 16, 11);
    var request := GetSignal(data, 27, 1);
    var fault := GetSignal(data, 28, 1);
    var b0 := GetSignal(data, 29, 3);
    var b1 := GetSignal(data, 32, 2);
    var b2 := GetSignal(data, 34, 2);
    var count := GetSignal(data, 36, 4);
    var c0 := GetSignal(data, 40, 3);
    var c1 := GetSignal(data, 43, 2);
    var c2 := GetSignal(data, 45, 2);
    var c3 := GetSignal(data, 47, 1);
    var d0 := GetSignal(data, 56, 3);
    var d1 := GetSignal(data, 59, 3);
    var d2 := GetSignal(data, 62, 2);
    v := Lkas11(a0, a1, a2, a3, a4, a5, a6, torque as int - 1024, request != 0, fault != 0,
                b0, b1, b2, count, c0, c1, c2, c3, d0, d1, d2);
  }

  datatype LkasCommand = LkasCommand(
    applySteer: int, steerReq: bool, cutSteer: bool, sysWarning: bool, sysState: int,
    leftLaneDepart: int, rightLaneDepart: int, msgCount: int, ldwsFix: bool)

  function Commanded(v: Lkas11, c: LkasCommand): Lkas11 {
    v.(ldwsSysState := c.sysState,
       sysWarning := if c.sysWarning then 3 else 0,
       leftLaneDepart := c.leftLaneDepart, rightLaneDepart := c.rightLaneDepart,
       steerTorque := c.applySteer,
       steerReq := c.steerReq && !c.cutSteer, toiFault := c.cutSteer,
       msgCount := c.msgCount % 16,
       ldwsOptUsm := if c.ldwsFix then 3 else v.ldwsOptUsm)
  }

  method StoreChecksum(data: array<Byte>)
    requires data.Length == 8
    modifies data
    ensures data[..] == old(data[..][6 := Checksum(data[..])])
  {
    data[6] := (data[0] as int + data[1] as int + data[2] as int + data[3] as int + data[4] as int
                + data[5] as int + data[7] as int) % 256;
  }

  method PackLkas11(v: Lkas11) returns (data: array<Byte>)
    ensures data.Length == 8 && fresh(data)
    ensures data[..] == ToBytes(Packed(Lkas11Fields(), Lkas11Values(v), 64), 8)
  {
    data := new Byte[8](_ => 0);
    ZeroBits(data[..]);
    hide Lkas11Fields, Lkas11Values, Bits, ToBytes, WriteAll, FitAll;
    SetCommonLkasFields(data, v);
    BytesOfBits(data[..]);
  }

  method CreateLkas11Frame(seed: Lkas11, c: LkasCommand, bus: Byte) returns (f: CanFrame)
    ensures f == CanFrame(832, bus, 8, Lkas11Data(Commanded(seed, c)))
  {
    hide Lkas11Fields, Lkas11Values, Commanded, Checksum, ToBytes, Packed;
    var data := PackLkas11(Commanded(seed, c));
    StoreChecksum(data);
    f := CanFrame(832, bus, 8, data[..]);
  }

  predicate CommandFits(c: LkasCommand) {
    -1024 <= c.applySteer <= 1023 && 0 <= c.sysState <= 15 && 0 <= c.leftLaneDepart <= 3 && 0 <= c.rightLaneDepart <= 3
  }

  /** A frame built on a seed taken off the bus carries the command exactly, and every field that the
      command does not set as it was on the bus. */
  lemma CommandArrives(seed: seq<Byte>, c: LkasCommand)
    requires |seed| == 8 && CommandFits(c)
    ensures var v := DecodedLkas11(seed);
            DecodedLkas11(Lkas11Data(Commanded(v, c))) == Commanded(v, c)
  {
    hide DecodedLkas11, Lkas11Data, Saturated, Commanded, Lkas11Fits, CommandFits;
    var v := DecodedLkas11(seed);
    DecodedFits(seed);
    Lkas11RoundTrip(Commanded(v, c));
    assert Lkas11Fits(Commanded(v, c)) by { CommandedFits(v, c); }
  }

  /** What the built frame says, field by field: the torque, a request unless it is cut, the fault flag exactly
      during a cut, the other commanded fields, and the rest as it was on the bus. */
  lemma CommandDecodes(seed: seq<Byte>, c: LkasCommand)
    requires |seed| == 8 && CommandFits(c)
    ensures var (v, w) := (DecodedLkas11(seed), DecodedLkas11(Lkas11Data(Commanded(DecodedLkas11(seed), c))));
      && w.steerTorque == c.applySteer
      && (w.steerReq <==> c.steerReq && !c.cutSteer) && (w.toiFault <==> c.cutSteer)
      && w.sysWarning == (if c.sysWarning then 3 else 0) && w.ldwsSysState == c.sysState
      && w.leftLaneDepart == c.leftLaneDepart && w.rightLaneDepart == c.rightLaneDepart
      && w.msgCount == c.msgCount % 16 && w.ldwsOptUsm == (if c.ldwsFix then 3 else v.ldwsOptUsm)
      && w.ldwsActiveMode == v.ldwsActiveMode && w.hbaLamp == v.hbaLamp && w.fcwBasReq == v.fcwBasReq
      && w.hbaSysState == v.hbaSysState && w.fcwOpt == v.fcwOpt && w.hbaOpt == v.hbaOpt
      && w.fcwSysState == v.fcwSysState && w.fcwCollisionWarning == v.fcwCollisionWarning
      && w.fusionState == v.fusionState && w.unknown1 == v.unknown1
      && w.fcwOptUsm == v.fcwOptUsm && w.unknown2 == v.unknown2
  {
    hide DecodedLkas11, Lkas11Data, CommandFits;
    CommandArrives(seed, c);
  }

  lemma WordsFit(seed: seq<Byte>)
    requires |seed| == 8
    ensures AllFit(Lkas11Fields(), Lkas11Words(seed))
  {
    Lkas11Layout();
    hide Lkas11Fields, Pow2;
  }

  lemma DecodedFits(seed: seq<Byte>)
    requires |seed| == 8
    ensures Lkas11Fits(DecodedLkas11(seed))
  {
    WordsFit(seed);
    PowersOfTwo();
    Lkas11Layout();
    hide Lkas11Words, Lkas11Fields, Lkas11Values, Lkas11From, Pow2;
    var (fs, raw) := (Lkas11Fields(), Lkas11Words(seed));
    assert 0 <= raw[8] < Pow2(fs[8].length) && 0 <= raw[9] < Pow2(fs[9].length);
    FitsUpdated(fs, raw, SUM_FIELD, 0);
    hide AllFit;
    Lkas11ValuesFrom(raw);
  }

  /** The words a command replaces. */
  function CommandedWords(a: seq<int>, w: Lkas11): (b: seq<int>)
    requires |a| == 22
    ensures |b| == 22
  {
    a[1 := w.ldwsSysState][2 := w.sysWarning][3 := w.leftLaneDepart][4 := w.rightLaneDepart]
     [7 := w.steerTorque + 1024][8 := Flag(w.steerReq)][9 := Flag(w.toiFault)][13 := w.msgCount][20 := w.ldwsOptUsm]
  }

  lemma CommandedValues(v: Lkas11, c: LkasCommand)
    ensures Lkas11Values(Commanded(v, c)) == CommandedWords(Lkas11Values(v), Commanded(v, c))
  {}

  lemma CommandedFits(v: Lkas11, c: LkasCommand)
    requires Lkas11Fits(v) && CommandFits(c)
    ensures Lkas11Fits(Commanded(v, c))
  {
    CommandedValues(v, c);
    PowersOfTwo();
    var (fs, a, w) := (Lkas11Fields(), Lkas11Values(v), Commanded(v, c));
    assert 0 <= a[20] < Pow2(fs[20].length);
    assert fs[1].length == 4 && fs[2].length == 4 && fs[3].length == 2 && fs[4].length == 2;
    assert fs[7].length == 11 && fs[8].length == 1 && fs[9].length == 1 && fs[13].length == 4 && fs[20].length == 3;
    assert a[20] == v.ldwsOptUsm;
    hide AllFit, Lkas11Values, Lkas11Fields, Pow2;
    FitsUpdated(fs, a, 1, w.ldwsSysState);
    var a2 := a[1 := w.ldwsSysState];
    FitsUpdated(fs, a2, 2, w.sysWarning);
    var a3 := a2[2 := w.sysWarning];
    FitsUpdated(fs, a3, 3, w.leftLaneDepart);
    var a4 := a3[3 := w.leftLaneDepart];
    FitsUpdated(fs, a4, 4, w.rightLaneDepart);
    var a7 := a4[4 := w.rightLaneDepart];
    FitsUpdated(fs, a7, 7, w.steerTorque + 1024);
    var a8 := a7[7 := w.steerTorque + 1024];
    FitsUpdated(fs, a8, 8, Flag(w.steerReq));
    var a9 := a8[8 := Flag(w.steerReq)];
    FitsUpdated(fs, a9, 9, Flag(w.toiFault));
    var a13 := a9[9 := Flag(w.toiFault)];
    FitsUpdated(fs, a13, 13, w.msgCount);
    FitsUpdated(fs, a13[13 := w.msgCount], 20, w.ldwsOptUsm);
  }

  lemma WireTorque(data: seq<Byte>)
    requires |data| == 8
    ensures Read(Bits(data), 16, 11) == data[2] as int + 256 * (data[3] as int % 8)
  {
    PowersOfTwo();
    hide Pow2, Read, Bits;
    FieldOfByte(data, 2, 0, 8);
    FieldOfByte(data, 3, 0, 3);
    ReadSplit(Bits(data), 16, 8, 3);
  }

  lemma WireWarning(data: seq<Byte>)
    requires |data| == 8
    ensures Read(Bits(data), 6, 4) == data[0] as int / 64 + 4 * (data[1] as int % 4)
  {
    PowersOfTwo();
    hide Pow2, Read, Bits;
    FieldOfByte(data, 0, 6, 2);
    FieldOfByte(data, 1, 0, 2);
    ReadSplit(Bits(data), 6, 2, 2);
  }

  lemma WireState(data: seq<Byte>)
    requires |data| == 8
    ensures var b := Bits(data);
            && Read(b, 36, 4) == data[4] as int / 16 && Read(b, 2, 4) == data[0] as int / 4 % 16
            && Read(b, 10, 2) == data[1] as int / 4 % 4 && Read(b, 12, 2) == data[1] as int / 16 % 4
  {
    hide Bits, Read;
    FieldOfByte(data, 4, 4, 4);
    FieldOfByte(data, 0, 2, 4);
    FieldOfByte(data, 1, 2, 2);
    FieldOfByte(data, 1, 4, 2);
  }

  lemma WireFlags(data: seq<Byte>)
    requires |data| == 8
    ensures Read(Bits(data), 27, 1) == data[3] as int / 8 % 2 && Read(Bits(data), 28, 1) == data[3] as int / 16 % 2
  {
    hide Bits, Read;
    FieldOfByte(data, 3, 3, 1);
    FieldOfByte(data, 3, 4, 1);
  }

  /** The fields that a command sets, by the bytes on the wire. */
  lemma OnTheWire(data: seq<Byte>)
    requires |data| == 8
    ensures var v := DecodedLkas11(data);
            && v.steerTorque == data[2] as int + 256 * (data[3] as int % 8) - 1024
            && (v.steerReq <==> data[3] as int / 8 % 2 == 1)
            && (v.toiFault <==> data[3] as int / 16 % 2 == 1)
            && v.msgCount == data[4] as int / 16
            && v.ldwsSysState == data[0] as int / 4 % 16
            && v.sysWarning == data[0] as int / 64 + 4 * (data[1] as int % 4)
            && v.leftLaneDepart == data[1] as int / 4 % 4
            && v.rightLaneDepart == data[1] as int / 16 % 4
  {
    WireWords(data);
    hide Bits, Read, DecodedLkas11;
    WireTorque(data);
    WireWarning(data);
    WireFlags(data);
    WireState(data);
  }

  lemma WireWords(data: seq<Byte>)
    requires |data| == 8
    ensures var (v, b) := (DecodedLkas11(data), Bits(data));
            && v.steerTorque == Read(b, 16, 11) - 1024 && (v.steerReq <==> Read(b, 27, 1) != 0)
            && (v.toiFault <==> Read(b, 28, 1) != 0) && v.msgCount == Read(b, 36, 4)
            && v.ldwsSysState == Read(b, 2, 4) && v.sysWarning == Read(b, 6, 4)
            && v.leftLaneDepart == Read(b, 10, 2) && v.rightLaneDepart == Read(b, 12, 2)
  {
    hide Read, Bits;
  }

  // ---- The frame counter

  datatype Counter = Counter(value: int, valid: bool)

  /** The count to send, and the counter after it. The first one continues the seed's. */
  function NextCount(c: Counter, seed: seq<Byte>): (int, Counter)
    requires |seed| == 8
  {
    var count := if c.valid then c.value % 16 else (DecodedLkas11(seed).msgCount + 1) % 16;
    (count, Counter((count + 1) % 16, true))
  }

  function After(c: Counter, seeds: seq<seq<Byte>>): Counter
    requires forall s | s in seeds :: |s| == 8
    decreases |seeds|
  {
    if seeds == [] then c else NextCount(After(c, seeds[..|seeds| - 1]), seeds[|seeds| - 1]).1
  }

  /** Sent frames count up by one modulo 16 from the first seed's own count, whatever later seeds say,
      and the count is what the frame decodes to. */
  lemma {:induction false} CountsFollow(seeds: seq<seq<Byte>>, seed: seq<Byte>, c: LkasCommand)
    requires forall s | s in seeds :: |s| == 8
    requires |seed| == 8 && CommandFits(c)
    requires c.msgCount == NextCount(After(Counter(0, false), seeds), seed).0
    ensures var first := if seeds == [] then seed else seeds[0];
            DecodedLkas11(Lkas11Data(Commanded(DecodedLkas11(seed), c))).msgCount
            == (DecodedLkas11(first).msgCount + 1 + |seeds|) % 16
  {
    hide DecodedLkas11, Lkas11Data, CommandFits;
    CommandArrives(seed, c);
    if seeds != [] { AfterCounts(seeds); }
  }

  lemma OneMore(a: int)
    ensures (a % 16 + 1) % 16 == (a + 1) % 16
    ensures a % 16 % 16 == a % 16
  {}

  lemma {:induction false} AfterCounts(seeds: seq<seq<Byte>>)
    requires seeds != [] && forall s | s in seeds :: |s| == 8
    ensures After(Counter(0, false), seeds) == Counter((DecodedLkas11(seeds[0]).msgCount + 1 + |seeds|) % 16, true)
    decreases |seeds|
  {
    hide DecodedLkas11;
    var first := DecodedLkas11(seeds[0]).msgCount;
    OneMore(first + |seeds|);
    if |seeds| > 1 {
      AfterCounts(seeds[..|seeds| - 1]);
    } else {
      assert After(Counter(0, false), seeds[..0]) == Counter(0, false);
    }
  }

  class CounterSource {
    var counter: int
    var counterValid: bool

    constructor ()
      ensures !counterValid
    {
      counter, counterValid := 0, false;
    }

    method NextLkas11Counter(seed: array<Byte>) returns (count: int)
      requires seed.Length == 8
      modifies this
      ensures (count, Counter(counter, counterValid))
           == NextCount(Counter(old(counter), old(counterValid)), seed[..])
    {
      hide DecodedLkas11;
      if !counterValid {
        var v := DecodeLkas11(seed);
        counter := (v.msgCount + 1) % 16;
        counterValid := true;
      }
      count := counter % 16;
      counter := (counter + 1) % 16;
    }
  }
}
