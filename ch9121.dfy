/**
 * The CH9121 serial-to-Ethernet bridge and its configuration protocol:
 * fixed frames `0x57 0xAB <opcode> <data>` written over the UART while the
 * chip's CFG pin is held low, then save / apply / exit and CFG high again.
 *
 * Pins, UART baud changes and written frames are recorded, in order, in a
 * trace; delays are not modelled.
 */
module Ch9121 {
  import opened Common

  /** A 4-byte IPv4 address or mask, in network order (`uint8_t[4]`). */
  type Address = s: seq<u8> | |s| == 4 witness [0, 0, 0, 0]

  /** The chip configuration (`CH9121Config`). */
  datatype Config = Config(
    gateway: Address, subnetMask: Address, localIp: Address, targetIp: Address,
    localPort: u16, targetPort: u16, baudRate: u32, mode: u8)

  const Header: seq<u8> := [0x57, 0xAB]

  const OpSetMode: u8 := 0x10
  const OpSetLocalIp: u8 := 0x11
  const OpSetSubnetMask: u8 := 0x12
  const OpSetGateway: u8 := 0x13
  const OpSetLocalPort: u8 := 0x14
  const OpSetTargetIp: u8 := 0x15
  const OpSetTargetPort: u8 := 0x16
  const OpSetBaudRate: u8 := 0x21
  const OpSave: u8 := 0x0D
  const OpApply: u8 := 0x0E
  const OpExitConfig: u8 := 0x5E

  /** The UART rate used while the chip is in configuration mode. */
  const ConfigBaud: nat := 9600

  /** A bare action (3 bytes). */
  function SimpleFrame(op: u8): seq<u8> { Header + [op] }
  /** One data byte (4 bytes): the mode. */
  function ByteFrame(op: u8, data: u8): seq<u8> { Header + [op, data] }
  /** A port, low byte first (5 bytes). */
  function PortFrame(op: u8, port: u16): seq<u8> { Header + [op] + Le16(port) }
  /** An address in array order (7 bytes). */
  function AddressFrame(op: u8, addr: Address): seq<u8> { Header + [op] + addr }
  /** A baud rate, least significant byte first (7 bytes). */
  function BaudFrame(op: u8, baud: u32): seq<u8> { Header + [op] + Le32(baud) }

  datatype Pin = Rst | Cfg
  datatype Level = Unset | Low | High

  datatype WireEvent =
    | PinModeOutput(pin: Pin)
    | DigitalWrite(pin: Pin, level: Level)
    | UartBegin(baud: nat)
    | Frame(bytes: seq<u8>)

  /** The field frames `Configure` writes, in its order. */
  function FieldFrames(c: Config): seq<seq<u8>> {
    [ByteFrame(OpSetMode, c.mode),
     AddressFrame(OpSetLocalIp, c.localIp),
     AddressFrame(OpSetSubnetMask, c.subnetMask),
     AddressFrame(OpSetGateway, c.gateway),
     AddressFrame(OpSetTargetIp, c.targetIp),
     PortFrame(OpSetLocalPort, c.localPort),
     PortFrame(OpSetTargetPort, c.targetPort),
     BaudFrame(OpSetBaudRate, c.baudRate)]
  }

  /** Save, apply, exit configuration mode. */
  function CommitFrames(): seq<seq<u8>> {
    [SimpleFrame(OpSave), SimpleFrame(OpApply), SimpleFrame(OpExitConfig)]
  }

  function Sent(frames: seq<seq<u8>>): (t: seq<WireEvent>)
    ensures |t| == |frames|
  {
    if frames == [] then [] else [Frame(frames[0])] + Sent(frames[1..])
  }

  function StartTrace(): seq<WireEvent> {
    [DigitalWrite(Cfg, Low), DigitalWrite(Rst, High), UartBegin(ConfigBaud)]
  }

  function EndTrace(baud: u32): seq<WireEvent> {
    Sent(CommitFrames()) + [DigitalWrite(Cfg, High), UartBegin(baud)]
  }

  function ConfigureTrace(c: Config): seq<WireEvent> {
    StartTrace() + Sent(FieldFrames(c)) + EndTrace(c.baudRate)
  }

  class CH9121 {
    /** The configuration given at construction; only read. */
    const config: Config
    /** The frame buffer; bytes 0 and 1 always hold the header. */
    const txBuffer: array<u8>
    /** Everything done to the pins and the UART, in order. */
    ghost var trace: seq<WireEvent>
    ghost var cfg: Level
    ghost var rst: Level
    /** The UART's current rate; 0 before it was first begun. */
    ghost var baud: nat

    ghost predicate Valid()
      reads this, txBuffer
    {
      txBuffer.Length == 8 && txBuffer[..2] == Header
    }

    constructor (config: Config)
      ensures Valid() && fresh(txBuffer) && this.config == config
      ensures trace == [] && cfg == Unset && rst == Unset && baud == 0
    {
      this.config := config;
      txBuffer := new u8[8](i => if i == 0 then 0x57 else if i == 1 then 0xAB else 0);
      trace := [];
      cfg, rst, baud := Unset, Unset, 0;
    }

    /** Power-up: both pins outputs, driven high. */
    method Begin()
      modifies this`trace, this`cfg, this`rst
      ensures trace == old(trace) + [PinModeOutput(Rst), PinModeOutput(Cfg), DigitalWrite(Rst, High), DigitalWrite(Cfg, High)]
      ensures cfg == High && rst == High && baud == old(baud)
    {
      trace := trace + [PinModeOutput(Rst), PinModeOutput(Cfg)];
      trace, rst := trace + [DigitalWrite(Rst, High)], High;
      trace, cfg := trace + [DigitalWrite(Cfg, High)], High;
    }

    /** Enter configuration mode: CFG low, RST high, UART at 9600. */
    method StartConfiguration()
      modifies this`trace, this`cfg, this`rst, this`baud
      ensures trace == old(trace) + StartTrace()
      ensures cfg == Low && rst == High && baud == ConfigBaud
    {
      trace, cfg := trace + [DigitalWrite(Cfg, Low)], Low;
      trace, rst := trace + [DigitalWrite(Rst, High)], High;
      trace, baud := trace + [UartBegin(ConfigBaud)], ConfigBaud;
    }

    /** Save, apply and leave configuration mode; CFG high, UART at the configured rate. */
    method EndConfiguration()
      requires Valid()
      modifies this`trace, this`cfg, this`baud, txBuffer
      ensures Valid()
      ensures trace == old(trace) + EndTrace(config.baudRate)
      ensures cfg == High && rst == old(rst) && baud == config.baudRate
    {
      SendSimpleCommand(OpSave);
      SendSimpleCommand(OpApply);
      SendSimpleCommand(OpExitConfig);
      trace, cfg := trace + [DigitalWrite(Cfg, High)], High;
      trace, baud := trace + [UartBegin(config.baudRate)], config.baudRate;
      assert Sent(CommitFrames()) == [Frame(SimpleFrame(OpSave)), Frame(SimpleFrame(OpApply)), Frame(SimpleFrame(OpExitConfig))];
    }

    /** Program every field of `config`, then commit. */
    method Configure()
      requires Valid()
      modifies this`trace, this`cfg, this`rst, this`baud, txBuffer
      ensures Valid()
      ensures trace == old(trace) + ConfigureTrace(config)
      ensures cfg == High && rst == High && baud == config.baudRate
    {
      ghost var fields := Sent(FieldFrames(config));
      StartConfiguration();
      WriteFields();
      assert trace == old(trace) + StartTrace() + fields;
      EndConfiguration();
    }

    /** The eight setter calls of `Configure`, in its order. */
    method WriteFields()
      requires Valid()
      modifies this`trace, txBuffer
      ensures Valid() && trace == old(trace) + Sent(FieldFrames(config))
    {
      ghost var f := FieldFrames(config);
      SetMode(config.mode);
      SetLocalIP(config.localIp);
      SetSubnetMask(config.subnetMask);
      SetGateway(config.gateway);
      SentFour(f[..4]);
      assert trace == old(trace) + Sent(f[..4]);
      SetTargetIP(config.targetIp);
      SetLocalPort(config.localPort);
      SetTargetPort(config.targetPort);
      SetBaudRate(config.baudRate);
      SentFour(f[4..]);
      assert trace == old(trace) + Sent(f[..4]) + Sent(f[4..]);
      SentConcat(f[..4], f[4..]);
      assert f[..4] + f[4..] == f;
    }

    method SendSimpleCommand(command: u8)
      requires Valid()
      modifies this`trace, txBuffer
      ensures Valid() && trace == old(trace) + [Frame(SimpleFrame(command))]
    {
      txBuffer[2] := command;
      assert txBuffer[..3] == SimpleFrame(command);
      trace := trace + [Frame(txBuffer[..3])];
    }

    method Send4ByteCommand(data: u8, command: u8)
      requires Valid()
      modifies this`trace, txBuffer
      ensures Valid() && trace == old(trace) + [Frame(ByteFrame(command, data))]
    {
      txBuffer[2] := command;
      txBuffer[3] := data;
      assert txBuffer[..4] == ByteFrame(command, data);
      trace := trace + [Frame(txBuffer[..4])];
    }

    method Send5ByteCommand(data: u16, command: u8)
      requires Valid()
      modifies this`trace, txBuffer
      ensures Valid() && trace == old(trace) + [Frame(PortFrame(command, data))]
    {
      txBuffer[2] := command;
      txBuffer[3] := data % 0x100;
      txBuffer[4] := (data / 0x100) % 0x100;
      assert txBuffer[..5] == PortFrame(command, data);
      trace := trace + [Frame(txBuffer[..5])];
    }

    method Send7ByteCommand(data: Address, command: u8)
      requires Valid()
      modifies this`trace, txBuffer
      ensures Valid() && trace == old(trace) + [Frame(AddressFrame(command, data))]
    {
      txBuffer[2] := command;
      for i := 0 to 4
        invariant txBuffer[..3] == Header + [command] && trace == old(trace)
        invariant txBuffer[3..3 + i] == data[..i]
      {
        txBuffer[3 + i] := data[i];
        assert txBuffer[3..3 + i + 1] == txBuffer[3..3 + i] + [data[i]];
      }
      assert txBuffer[..7] == txBuffer[..3] + txBuffer[3..7];
      assert txBuffer[..7] == AddressFrame(command, data);
      trace := trace + [Frame(txBuffer[..7])];
    }

    method SendBaudRateCommand(data: u32, command: u8)
      requires Valid()
      modifies this`trace, txBuffer
      ensures Valid() && trace == old(trace) + [Frame(BaudFrame(command, data))]
    {
      txBuffer[2] := command;
      txBuffer[3] := data % 0x100;
      txBuffer[4] := (data / 0x100) % 0x100;
      txBuffer[5] := (data / 0x1_0000) % 0x100;
      txBuffer[6] := (data / 0x100_0000) % 0x100;
      assert txBuffer[..7] == BaudFrame(command, data);
      trace := trace + [Frame(txBuffer[..7])];
    }

    method SetMode(mode: u8)
      requires Valid()
      modifies this`trace, txBuffer
      ensures Valid() && trace == old(trace) + [Frame(ByteFrame(OpSetMode, mode))]
    {
      Send4ByteCommand(mode, OpSetMode);
    }

    method SetLocalIP(ip: Address)
      requires Valid()
      modifies this`trace, txBuffer
      ensures Valid() && trace == old(trace) + [Frame(AddressFrame(OpSetLocalIp, ip))]
    {
      Send7ByteCommand(ip, OpSetLocalIp);
    }

    method SetSubnetMask(subnet: Address)
      requires Valid()
      modifies this`trace, txBuffer
      ensures Valid() && trace == old(trace) + [Frame(AddressFrame(OpSetSubnetMask, subnet))]
    {
      Send7ByteCommand(subnet, OpSetSubnetMask);
    }

    method SetGateway(gateway: Address)
      requires Valid()
      modifies this`trace, txBuffer
      ensures Valid() && trace == old(trace) + [Frame(AddressFrame(OpSetGateway, gateway))]
    {
      Send7ByteCommand(gateway, OpSetGateway);
    }

    method SetTargetIP(targetIp: Address)
      requires Valid()
      modifies this`trace, txBuffer
      ensures Valid() && trace == old(trace) + [Frame(AddressFrame(OpSetTargetIp, targetIp))]
    {
      Send7ByteCommand(targetIp, OpSetTargetIp);
    }

    method SetLocalPort(port: u16)
      requires Valid()
      modifies this`trace, txBuffer
      ensures Valid() && trace == old(trace) + [Frame(PortFrame(OpSetLocalPort, port))]
    {
      Send5ByteCommand(port, OpSetLocalPort);
    }

    method SetTargetPort(targetPort: u16)
      requires Valid()
      modifies this`trace, txBuffer
      ensures Valid() && trace == old(trace) + [Frame(PortFrame(OpSetTargetPort, targetPort))]
    {
      Send5ByteCommand(targetPort, OpSetTargetPort);
    }

    method SetBaudRate(baudRate: u32)
      requires Valid()
      modifies this`trace, txBuffer
      ensures Valid() && trace == old(trace) + [Frame(BaudFrame(OpSetBaudRate, baudRate))]
    {
      SendBaudRateCommand(baudRate, OpSetBaudRate);
    }
  }

  lemma {:induction false} SentConcat(a: seq<seq<u8>>, b: seq<seq<u8>>)
    ensures Sent(a + b) == Sent(a) + Sent(b)
  {
    if a == [] {
      assert a + b == b;
    } else {
      assert (a + b)[1..] == a[1..] + b;
      SentConcat(a[1..], b);
    }
  }

  /** Sending four frames one after the other. */
  lemma SentFour(f: seq<seq<u8>>)
    requires |f| == 4
    ensures Sent(f) == [Frame(f[0]), Frame(f[1]), Frame(f[2]), Frame(f[3])]
  {
    var r := f[1..][1..][1..];
    assert Sent(r) == [Frame(f[3])] by {
      assert r == [f[3]];
    }
    assert Sent(f[1..][1..]) == [Frame(f[2])] + Sent(r);
    assert Sent(f[1..]) == [Frame(f[1])] + Sent(f[1..][1..]);
  }

  /** Opcode byte of each frame. */
  function Opcodes(frames: seq<seq<u8>>): (ops: seq<u8>)
    requires forall i :: 0 <= i < |frames| ==> |frames[i]| >= 3
    ensures |ops| == |frames| && forall i :: 0 <= i < |frames| ==> ops[i] == frames[i][2]
  {
    if frames == [] then [] else [frames[0][2]] + Opcodes(frames[1..])
  }

  /** Every frame starts with the 0x57 0xAB header; byte 2 is the opcode. */
  ghost predicate WellFormed(f: seq<u8>, op: u8, dataLength: nat) {
    |f| == 3 + dataLength && f[..2] == Header && f[2] == op
  }

  /** The five frame shapes: 3, 4, 5, 7 and 7 bytes, header then opcode. */
  lemma FrameShapes(op: u8, data: u8, port: u16, addr: Address, baud: u32)
    ensures WellFormed(SimpleFrame(op), op, 0)
    ensures WellFormed(ByteFrame(op, data), op, 1) && ByteFrame(op, data)[3] == data
    ensures WellFormed(PortFrame(op, port), op, 2)
    ensures FromLe16(PortFrame(op, port)[3], PortFrame(op, port)[4]) == port
    ensures WellFormed(AddressFrame(op, addr), op, 4) && AddressFrame(op, addr)[3..] == addr
    ensures WellFormed(BaudFrame(op, baud), op, 4)
    ensures var f := BaudFrame(op, baud); FromLe32(f[3], f[4], f[5], f[6]) == baud
  {
    Le16RoundTrip(port);
    Le32RoundTrip(baud);
  }

  /** `Configure` writes the fields in the order mode, local IP, subnet,
      gateway, target IP, local port, target port, baud, then save, apply, exit. */
  lemma ConfigureOpcodes(c: Config)
    ensures var frames := FieldFrames(c) + CommitFrames();
      (forall i :: 0 <= i < |frames| ==> |frames[i]| >= 3 && frames[i][..2] == Header) &&
      Opcodes(frames) == [0x10, 0x11, 0x12, 0x13, 0x15, 0x14, 0x16, 0x21, 0x0D, 0x0E, 0x5E]
  {
    var frames := FieldFrames(c) + CommitFrames();
    var want: seq<u8> := [0x10, 0x11, 0x12, 0x13, 0x15, 0x14, 0x16, 0x21, 0x0D, 0x0E, 0x5E];
    forall i | 0 <= i < |frames|
      ensures |frames[i]| >= 3 && frames[i][..2] == Header && frames[i][2] == want[i]
    {
      if i < 8 {
        assert frames[i] == FieldFrames(c)[i];
        FieldFrameStarts(c, i);
      } else {
        assert frames[i] == CommitFrames()[i - 8];
      }
    }
    assert Opcodes(frames) == want;
  }

  /** Each field frame starts with the header and the opcode of its field. */
  lemma FieldFrameStarts(c: Config, i: nat)
    requires i < 8
    ensures |FieldFrames(c)[i]| >= 3 && FieldFrames(c)[i][..2] == Header
    ensures FieldFrames(c)[i][2] == [OpSetMode, OpSetLocalIp, OpSetSubnetMask, OpSetGateway,
      OpSetTargetIp, OpSetLocalPort, OpSetTargetPort, OpSetBaudRate][i]
  {
    var f := FieldFrames(c)[i];
    assert f[..3] == Header + [f[2]];
  }

  /**
   * The chip's side of the protocol: how a field frame changes the
   * configuration it stores. Frames it does not know leave it unchanged.
   */
  function ApplyFrame(c: Config, f: seq<u8>): Config {
    if |f| < 3 || f[..2] != Header then c
    else if f[2] == OpSetMode && |f| == 4 then c.(mode := f[3])
    else if f[2] == OpSetLocalIp && |f| == 7 then c.(localIp := f[3..])
    else if f[2] == OpSetSubnetMask && |f| == 7 then c.(subnetMask := f[3..])
    else if f[2] == OpSetGateway && |f| == 7 then c.(gateway := f[3..])
    else if f[2] == OpSetTargetIp && |f| == 7 then c.(targetIp := f[3..])
    else if f[2] == OpSetLocalPort && |f| == 5 then c.(localPort := FromLe16(f[3], f[4]))
    else if f[2] == OpSetTargetPort && |f| == 5 then c.(targetPort := FromLe16(f[3], f[4]))
    else if f[2] == OpSetBaudRate && |f| == 7 then c.(baudRate := FromLe32(f[3], f[4], f[5], f[6]))
    else c
  }

  function ApplyAll(c: Config, frames: seq<seq<u8>>): Config
    decreases |frames|
  {
    if frames == [] then c else ApplyAll(ApplyFrame(c, frames[0]), frames[1..])
  }

  /** Whatever the chip held before, after the field frames it holds exactly `c`. */
  lemma FieldFramesRoundTrip(prior: Config, c: Config)
    ensures ApplyAll(prior, FieldFrames(c)) == c
  {
    var f := FieldFrames(c);
    FrameShapes(OpSetMode, c.mode, c.localPort, c.localIp, c.baudRate);
    FrameShapes(OpSetLocalPort, c.mode, c.localPort, c.localIp, c.baudRate);
    FrameShapes(OpSetTargetPort, c.mode, c.targetPort, c.localIp, c.baudRate);
    FrameShapes(OpSetBaudRate, c.mode, c.localPort, c.localIp, c.baudRate);
    var c1 := ApplyFrame(prior, f[0]);
    assert c1 == prior.(mode := c.mode);
    var c2 := ApplyFrame(c1, f[1]);
    assert c2 == c1.(localIp := c.localIp);
    var c3 := ApplyFrame(c2, f[2]);
    assert c3 == c2.(subnetMask := c.subnetMask);
    var c4 := ApplyFrame(c3, f[3]);
    assert c4 == c3.(gateway := c.gateway);
    var c5 := ApplyFrame(c4, f[4]);
    assert c5 == c4.(targetIp := c.targetIp);
    var c6 := ApplyFrame(c5, f[5]);
    assert c6 == c5.(localPort := c.localPort);
    var c7 := ApplyFrame(c6, f[6]);
    assert c7 == c6.(targetPort := c.targetPort);
    var c8 := ApplyFrame(c7, f[7]);
    assert c8 == c7.(baudRate := c.baudRate);
    ApplyAllUnfold(prior, f);
  }

  lemma ApplyAllUnfold(c: Config, f: seq<seq<u8>>)
    requires |f| == 8
    ensures ApplyAll(c, f) ==
      ApplyFrame(ApplyFrame(ApplyFrame(ApplyFrame(ApplyFrame(ApplyFrame(ApplyFrame(ApplyFrame(
        c, f[0]), f[1]), f[2]), f[3]), f[4]), f[5]), f[6]), f[7])
  {
    var r := f;
    var d := c;
    assert ApplyAll(d, r) == ApplyAll(ApplyFrame(d, r[0]), r[1..]);
    r, d := r[1..], ApplyFrame(d, r[0]);
    assert ApplyAll(d, r) == ApplyAll(ApplyFrame(d, r[0]), r[1..]);
    r, d := r[1..], ApplyFrame(d, r[0]);
    assert ApplyAll(d, r) == ApplyAll(ApplyFrame(d, r[0]), r[1..]);
    r, d := r[1..], ApplyFrame(d, r[0]);
    assert ApplyAll(d, r) == ApplyAll(ApplyFrame(d, r[0]), r[1..]);
    r, d := r[1..], ApplyFrame(d, r[0]);
    assert ApplyAll(d, r) == ApplyAll(ApplyFrame(d, r[0]), r[1..]);
    r, d := r[1..], ApplyFrame(d, r[0]);
    assert ApplyAll(d, r) == ApplyAll(ApplyFrame(d, r[0]), r[1..]);
    r, d := r[1..], ApplyFrame(d, r[0]);
    assert ApplyAll(d, r) == ApplyAll(ApplyFrame(d, r[0]), r[1..]);
    r, d := r[1..], ApplyFrame(d, r[0]);
    assert ApplyAll(d, r) == ApplyAll(ApplyFrame(d, r[0]), r[1..]);
    r, d := r[1..], ApplyFrame(d, r[0]);
    assert r == [];
  }

  /**
   * Replays a trace from the given CFG level and UART rate, and holds when
   * every frame is written while CFG is low and the UART runs at 9600.
   */
  ghost predicate FramesInConfigMode(t: seq<WireEvent>, cfg: Level, baud: nat)
    decreases |t|
  {
    if t == [] then true
    else match t[0]
      case Frame(_) => cfg == Low && baud == ConfigBaud && FramesInConfigMode(t[1..], cfg, baud)
      case DigitalWrite(Cfg, level) => FramesInConfigMode(t[1..], level, baud)
      case UartBegin(b) => FramesInConfigMode(t[1..], cfg, b)
      case _ => FramesInConfigMode(t[1..], cfg, baud)
  }

  /** The frames only reach the chip in configuration mode, whatever state `Configure` starts from. */
  lemma FramesOnlyInConfigMode(c: Config, cfg: Level, baud: nat)
    ensures FramesInConfigMode(ConfigureTrace(c), cfg, baud)
  {
    var frames := FieldFrames(c) + CommitFrames();
    SentConcat(FieldFrames(c), CommitFrames());
    var tail := [DigitalWrite(Cfg, High), UartBegin(c.baudRate)];
    var body := Sent(frames) + tail;
    assert ConfigureTrace(c) == StartTrace() + body;
    assert FramesInConfigMode(tail, Low, ConfigBaud) by {
      assert tail[1..] == [UartBegin(c.baudRate)];
      assert tail[1..][1..] == [];
    }
    SentFrom(frames, tail);
    var t := StartTrace() + body;
    assert t[1..] == [DigitalWrite(Rst, High), UartBegin(ConfigBaud)] + body;
    assert t[1..][1..] == [UartBegin(ConfigBaud)] + body;
    assert t[1..][1..][1..] == body;
  }

  /** Sending frames in configuration mode keeps the mode. */
  lemma {:induction false} SentFrom(frames: seq<seq<u8>>, rest: seq<WireEvent>)
    requires FramesInConfigMode(rest, Low, ConfigBaud)
    ensures FramesInConfigMode(Sent(frames) + rest, Low, ConfigBaud)
  {
    var t := Sent(frames) + rest;
    if frames == [] {
      assert t == rest;
    } else {
      SentFrom(frames[1..], rest);
      assert t[0] == Frame(frames[0]);
      assert t[1..] == Sent(frames[1..]) + rest;
    }
  }
}
