/** What the lateral controller's ticks put on the bus: the command made of a tick's result, and the frame
    built for it on the seed taken off the bus. */
module LateralFrames {
  import opened BitFields
  import opened Lkas11Frame
  import L = LateralController

  /** The HUD state, with both lanes reported as they always are: it follows the engagement. */
  function SysState(engaged: bool): int { if engaged then 3 else 4 }

  function CommandOf(r: L.Result, count: int): LkasCommand {
    LkasCommand(r.torque, r.active || r.hold, r.cut, false, SysState(r.engaged), 0, 0, count, false)
  }

  function FrameData(seed: seq<Byte>, r: L.Result, count: int): (data: seq<Byte>)
    requires |seed| == 8
    ensures |data| == 8
  {
    Lkas11Data(Commanded(DecodedLkas11(seed), CommandOf(r, count)))
  }

  method BuildLkasFrame(source: CounterSource, seed: array<Byte>, r: L.Result, bus: Byte) returns (f: CanFrame)
    requires seed.Length == 8
    modifies source
    ensures var count := NextCount(Counter(old(source.counter), old(source.counterValid)), seed[..]).0;
            f == CanFrame(832, bus, 8, FrameData(seed[..], r, count))
    ensures Counter(source.counter, source.counterValid)
         == NextCount(Counter(old(source.counter), old(source.counterValid)), seed[..]).1
  {
    hide Commanded, DecodedLkas11, Lkas11Data;
    var count := source.NextLkas11Counter(seed);
    var v := DecodeLkas11(seed);
    f := CreateLkas11Frame(v, CommandOf(r, count), bus);
  }

  /** On the wire, by its bytes: the request and fault bits and the torque of one frame. */
  lemma FrameSays(seed: seq<Byte>, r: L.Result, count: int)
    requires |seed| == 8 && -1024 <= r.torque <= 1023
    ensures var data := FrameData(seed, r, count);
            && data[2] as int + 256 * (data[3] as int % 8) - 1024 == r.torque
            && (data[3] as int / 8 % 2 == 1 <==> (r.active || r.hold) && !r.cut)
            && (data[3] as int / 16 % 2 == 1 <==> r.cut)
            && data[4] as int / 16 == count % 16
            && data[0] as int / 4 % 16 == (if r.engaged then 3 else 4)
            && data[0] as int / 64 + 4 * (data[1] as int % 4) == 0
  {
    hide DecodedLkas11, Lkas11Data, Commanded;
    CommandDecodes(seed, CommandOf(r, count));
    OnTheWire(FrameData(seed, r, count));
  }

  /** Over every run: the frame of a tick carries its torque; the request bit is off and the fault bit on exactly
      while the request is cut; and with no cut the request is on exactly while the tick steers or holds. */
  lemma RunSays(c: L.Config, s: L.State, ins: seq<L.Input>, k: nat, seed: seq<Byte>, count: int)
    requires L.Sane(c, ins) && k < |ins| && !c.forceEngaged && c.limits.steerMax <= 1023
    requires s == L.INITIAL && |seed| == 8
    ensures var (r, data) := (L.Out(c, s, ins, k), FrameData(seed, L.Out(c, s, ins, k), count));
            && data[2] as int + 256 * (data[3] as int % 8) - 1024 == r.torque
            && (r.cut ==> data[3] as int / 8 % 2 == 0 && data[3] as int / 16 % 2 == 1)
            && (!r.cut ==> data[3] as int / 16 % 2 == 0 && (data[3] as int / 8 % 2 == 1 <==> r.active || r.hold))
            && (data[3] as int / 8 % 2 == 0 && !r.cut ==> r.torque == 0)
  {
    hide L.Step, FrameData;
    L.TorqueStaysLimited(c, s, ins, k);
    FrameSays(seed, L.Out(c, s, ins, k), count);
  }

  /** With limits that fit, the first frame whose request is cut carries no torque. */
  lemma CutArrivesAtZero(c: L.Config, s: L.State, ins: seq<L.Input>, k: nat, seed: seq<Byte>, count: int)
    requires L.Avoids(c) && c.limits.steerMax <= (c.maxFrames + 1) * c.limits.deltaDown && c.limits.steerMax <= 1023
    requires s == L.INITIAL && L.Sane(c, ins) && k < |ins| && L.CutBegins(c, s, ins, k) && |seed| == 8
    ensures var data := FrameData(seed, L.Out(c, s, ins, k), count);
            data[2] as int + 256 * (data[3] as int % 8) == 1024 && data[3] as int / 8 % 2 == 0
  {
    L.CutBeginsAtZeroTorque(c, s, ins, k);
    hide L.Step, L.At, FrameData;
    RunSays(c, s, ins, k, seed, count);
  }
}
