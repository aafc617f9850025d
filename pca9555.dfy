/**
 * The PCA9555 16-bit I2C I/O expander that drives the six backlight LEDs
 * and reads the six buttons and the four-position DIP switch. The I2C bus
 * is replaced by the chip's register file: a register write updates it and
 * is logged, a register read looks it up.
 */
module Pca9555 {
  import opened Common

  const RegInput0: u8 := 0x00
  const RegInput1: u8 := 0x01
  const RegOutput0: u8 := 0x02
  const RegOutput1: u8 := 0x03
  const RegConfig0: u8 := 0x06
  const RegConfig1: u8 := 0x07

  /** LED, button and DIP line numbers are bytes, as the `uint8_t` indices of the driver. */
  const NumLeds: bv8 := 6
  const NumButtons: bv8 := 6

  /** What a register read yields when the chip sends no byte back. */
  const NoData: bv8 := 0xFF

  /** Direction bytes written by `begin`: a 1 bit is an input pin, a 0 bit an output pin. */
  const Config0: bv8 := 0xAA
  const Config1: bv8 := 0xFA

  /** The two bytes of a port pair: port 0 and port 1. */
  datatype Ports = Ports(p0: bv8, p1: bv8)

  /** The byte of the pair that holds line `i`: lines 0-3 are on port 0, lines 4-5 on port 1. */
  function PortOf(ports: Ports, i: bv8): bv8 {
    if i < 4 then ports.p0 else ports.p1
  }

  /** The pin of LED `i` within its port: LEDs sit on the even bits 0, 2, 4, 6. */
  function LedMask(i: bv8): bv8
    requires i < NumLeds
  {
    1 << (2 * (i & 3))
  }

  /** The pin of button `i` within its port: buttons sit on the odd bits 1, 3, 5, 7. */
  function ButtonMask(i: bv8): bv8
    requires i < NumButtons
  {
    2 << (2 * (i & 3))
  }

  /** The pins of the two output ports that drive an LED. */
  const LedPins: Ports := Ports(0x55, 0x05)

  /** LED `i` is lit by the output ports. */
  predicate LedOn(out: Ports, i: bv8)
    requires i < NumLeds
  {
    PortOf(out, i) & LedMask(i) != 0
  }

  /** Button `i` is pressed in the input ports: its pin reads low (active-low). */
  predicate Pressed(input: Ports, i: bv8)
    requires i < NumButtons
  {
    PortOf(input, i) & ButtonMask(i) == 0
  }

  /** The six LED states the output ports show, LED 0 first. */
  function LedStates(out: Ports): (s: seq<bool>)
    ensures |s| == 6
  {
    [LedOn(out, 0), LedOn(out, 1), LedOn(out, 2), LedOn(out, 3), LedOn(out, 4), LedOn(out, 5)]
  }

  /** A byte with the pins `mask` switched on or off. */
  function Switched(b: bv8, mask: bv8, on: bool): bv8 {
    if on then b | mask else b & !mask
  }

  /** The output ports after LED `idx` is switched `on`: the one pin changes, in its own port. */
  function WithLed(out: Ports, idx: bv8, on: bool): Ports
    requires idx < NumLeds
  {
    if idx < 4 then Ports(Switched(out.p0, LedMask(idx), on), out.p1)
    else Ports(out.p0, Switched(out.p1, LedMask(idx), on))
  }

  /**
   * Switching LED `idx` sets that LED as asked, leaves every other LED as
   * it was, and changes no pin that drives no LED.
   */
  lemma WithLedChangesOneLed(out: Ports, idx: bv8, on: bool)
    requires idx < NumLeds
    ensures LedOn(WithLed(out, idx, on), idx) == on
    ensures forall j: bv8 :: j < NumLeds && j != idx ==> LedOn(WithLed(out, idx, on), j) == LedOn(out, j)
    ensures WithLed(out, idx, on).p0 & !LedPins.p0 == out.p0 & !LedPins.p0
    ensures WithLed(out, idx, on).p1 & !LedPins.p1 == out.p1 & !LedPins.p1
  {
  }

  /** The six cases of `setLed`'s switch each compute `WithLed`. */
  lemma SwitchedPort(out: Ports, idx: bv8, on: bool, out0: bv8, out1: bv8)
    requires idx < NumLeds
    requires idx < 4 ==> out1 == out.p1 && out0 == Switched(out.p0, 1 << (2 * idx), on)
    requires idx >= 4 ==> out0 == out.p0 && out1 == Switched(out.p1, 1 << (2 * (idx - 4)), on)
    ensures Ports(out0, out1) == WithLed(out, idx, on)
  {
  }

  /** The output ports that light exactly the LEDs whose state is true, with every other pin low. */
  function LedPorts(states: seq<bool>): (out: Ports)
    requires |states| == 6
    ensures out.p0 & !LedPins.p0 == 0 && out.p1 & !LedPins.p1 == 0
  {
    var p0 := (if states[0] then 0x01 else 0) | (if states[1] then 0x04 else 0)
            | (if states[2] then 0x10 else 0) | (if states[3] then 0x40 else 0);
    var p1 := (if states[4] then 0x01 else 0) | (if states[5] then 0x04 else 0);
    Ports(p0, p1)
  }

  /** The ports `setAllLeds` writes show exactly the requested states. */
  lemma LedPortsShowStates(states: seq<bool>)
    requires |states| == 6
    ensures LedStates(LedPorts(states)) == states
  {
    assert states == [states[0], states[1], states[2], states[3], states[4], states[5]];
  }

  /** Bit `i` of a byte, as the mask `1 << i`. */
  function Bit(i: bv8): bv8
    requires i < 8
  {
    1 << i
  }

  /** The button byte for the input ports: bit `i` is set exactly when button `i` is pressed. */
  function Buttons(input: Ports): (b: bv8)
    ensures b < 64
    ensures forall i: bv8 :: i < NumButtons ==> (b & Bit(i) != 0 <==> Pressed(input, i))
  {
    (if input.p0 & 0x02 == 0 then 0x01 else 0) | (if input.p0 & 0x08 == 0 then 0x02 else 0)
    | (if input.p0 & 0x20 == 0 then 0x04 else 0) | (if input.p0 & 0x80 == 0 then 0x08 else 0)
    | (if input.p1 & 0x02 == 0 then 0x10 else 0) | (if input.p1 & 0x08 == 0 then 0x20 else 0)
  }

  /** A logged `writeRegister(reg, value)` call. */
  datatype RegisterWrite = RegisterWrite(reg: u8, value: bv8)

  /** The direction bytes `begin` writes make every LED pin an output and every button and DIP pin an input. */
  lemma PinDirections()
    ensures forall i: bv8 :: i < NumLeds ==> PortOf(Ports(Config0, Config1), i) & LedMask(i) == 0
    ensures forall i: bv8 :: i < NumButtons ==> PortOf(Ports(Config0, Config1), i) & ButtonMask(i) != 0
    ensures Config1 & 0xF0 == 0xF0
  {
  }

  /** LED pins and button pins never share a pin. */
  lemma LedAndButtonPinsDisjoint(i: bv8, j: bv8)
    requires i < NumLeds && j < NumButtons && (i < 4) == (j < 4)
    ensures LedMask(i) & ButtonMask(j) == 0
  {
  }

  /**
   * The driver and the chip's register file behind it. Register reads are
   * field reads; an input port that gets no answer over the bus reads as
   * 0xFF, which is one of the values `input` can hold.
   */
  class Expander {
    /** Input ports 0 and 1: the pin levels a read returns. */
    var input: Ports
    /** Output ports 0 and 1, as last written. */
    var output: Ports
    /** Direction registers for ports 0 and 1, as last written. */
    var config: Ports
    /** Every register write, in order. */
    ghost var writes: seq<RegisterWrite>

    constructor (input: Ports, output: Ports, config: Ports)
      ensures this.input == input && this.output == output && this.config == config && writes == []
    {
      this.input := input;
      this.output := output;
      this.config := config;
      writes := [];
    }

    /** `writeRegister` for the four registers the driver writes. */
    method WriteRegister(reg: u8, value: bv8)
      requires reg == RegOutput0 || reg == RegOutput1 || reg == RegConfig0 || reg == RegConfig1
      modifies this
      ensures writes == old(writes) + [RegisterWrite(reg, value)]
      ensures input == old(input)
      ensures output == if reg == RegOutput0 then old(output).(p0 := value)
                        else if reg == RegOutput1 then old(output).(p1 := value) else old(output)
      ensures config == if reg == RegConfig0 then old(config).(p0 := value)
                        else if reg == RegConfig1 then old(config).(p1 := value) else old(config)
    {
      if reg == RegOutput0 {
        output := output.(p0 := value);
      } else if reg == RegOutput1 {
        output := output.(p1 := value);
      } else if reg == RegConfig0 {
        config := config.(p0 := value);
      } else {
        config := config.(p1 := value);
      }
      writes := writes + [RegisterWrite(reg, value)];
    }

    /** `begin`: pin directions first, then every LED off. */
    method Begin()
      modifies this
      ensures writes == old(writes) + [RegisterWrite(RegConfig0, Config0), RegisterWrite(RegConfig1, Config1),
                                       RegisterWrite(RegOutput0, 0), RegisterWrite(RegOutput1, 0)]
      ensures config == Ports(Config0, Config1) && output == Ports(0, 0) && input == old(input)
      ensures LedStates(output) == [false, false, false, false, false, false]
    {
      WriteRegister(RegConfig0, Config0);
      WriteRegister(RegConfig1, Config1);
      WriteRegister(RegOutput0, 0x00);
      WriteRegister(RegOutput1, 0x00);
    }

    /**
     * `setLed`: read both output registers, change the one pin of LED `idx`
     * and write both back. An index past the last LED touches nothing.
     */
    method SetLed(idx: bv8, on: bool)
      modifies this
      ensures idx >= NumLeds ==> writes == old(writes) && output == old(output)
      ensures idx < NumLeds ==> output == WithLed(old(output), idx, on)
      ensures idx < NumLeds ==>
        writes == old(writes) + [RegisterWrite(RegOutput0, output.p0), RegisterWrite(RegOutput1, output.p1)]
      ensures input == old(input) && config == old(config)
    {
      if idx >= NumLeds {
        return;
      }
      var out0 := output.p0;
      var out1 := output.p1;
      ghost var before := output;
      if idx == 0 {
        if on { out0 := out0 | (1 << 0); } else { out0 := out0 & !(1 << 0); }
      } else if idx == 1 {
        if on { out0 := out0 | (1 << 2); } else { out0 := out0 & !(1 << 2); }
      } else if idx == 2 {
        if on { out0 := out0 | (1 << 4); } else { out0 := out0 & !(1 << 4); }
      } else if idx == 3 {
        if on { out0 := out0 | (1 << 6); } else { out0 := out0 & !(1 << 6); }
      } else if idx == 4 {
        if on { out1 := out1 | (1 << 0); } else { out1 := out1 & !(1 << 0); }
      } else {
        if on { out1 := out1 | (1 << 2); } else { out1 := out1 & !(1 << 2); }
      }
      SwitchedPort(before, idx, on, out0, out1);
      WriteRegister(RegOutput0, out0);
      WriteRegister(RegOutput1, out1);
      assert output == Ports(out0, out1);
    }

    /** `setAllLeds`: both output registers rebuilt from the six states, every other pin low. */
    method SetAllLeds(states: array<bool>)
      requires states.Length == 6
      modifies this
      ensures output == LedPorts(states[..])
      ensures writes == old(writes) + [RegisterWrite(RegOutput0, output.p0), RegisterWrite(RegOutput1, output.p1)]
      ensures input == old(input) && config == old(config)
    {
      var out0: bv8, out1: bv8 := 0, 0;
      if states[0] { out0 := out0 | (1 << 0); }
      if states[1] { out0 := out0 | (1 << 2); }
      if states[2] { out0 := out0 | (1 << 4); }
      if states[3] { out0 := out0 | (1 << 6); }
      if states[4] { out1 := out1 | (1 << 0); }
      if states[5] { out1 := out1 | (1 << 2); }
      WriteRegister(RegOutput0, out0);
      WriteRegister(RegOutput1, out1);
    }

    /** `readButtons`: the button byte of the current input levels. */
    method ReadButtons() returns (result: bv8)
      ensures result == Buttons(input)
    {
      var in0 := input.p0;
      var in1 := input.p1;
      result := 0;
      if in0 & (1 << 1) == 0 { result := result | (1 << 0); }
      if in0 & (1 << 3) == 0 { result := result | (1 << 1); }
      if in0 & (1 << 5) == 0 { result := result | (1 << 2); }
      if in0 & (1 << 7) == 0 { result := result | (1 << 3); }
      if in1 & (1 << 1) == 0 { result := result | (1 << 4); }
      if in1 & (1 << 3) == 0 { result := result | (1 << 5); }
    }

    /** `readDIP`: the four DIP switches are the high nibble of input port 1. */
    function ReadDIP(): (d: bv8)
      reads this
      ensures d < 16
      ensures d << 4 == input.p1 & 0xF0
    {
      (input.p1 >> 4) & 0x0F
    }
  }

  /** With no answer from the chip every input reads high: no button is pressed and the DIP value is 15. */
  lemma NoDataReadsReleased(i: bv8)
    requires i < NumButtons
    ensures !Pressed(Ports(NoData, NoData), i)
    ensures (NoData >> 4) & 0x0F == 15
  {
  }
}
