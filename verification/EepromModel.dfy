/** The two-wire serial EEPROM 24C02 as values (src/systems/nes/mappers/eeprom_24c0x.h), and the bus
    conditions of the I2C-bus specification UM10204, sections 3.1.4 to 3.1.6, that drive it. */
module EepromModel {
  import opened Types

  datatype Mode = Idle | Address | Read | Write | SendAck | WaitAck | ChipAddress

  type Rom = s: seq<u8> | |s| == 256 witness seq(256, i => 0)
  type Count = x: int | 0 <= x <= 8

  /** `scl` and `sda` are the lines as last written, `output` what the chip drives. */
  datatype Chip = Chip(mode: Mode, next: Mode, chip: u8, address: u8, data: u8, counter: Count, output: bool,
                       scl: bool, sda: bool, rom: Rom)

  type Bits = s: seq<bool> | |s| == 8 witness seq(8, i => false)

  function Pow2(k: nat): nat { if k == 0 then 1 else 2 * Pow2(k - 1) }

  /** The low k bits, most significant first. */
  function ToBits(x: nat, k: nat): (bits: seq<bool>)
    ensures |bits| == k
    decreases k
  {
    if k == 0 then [] else ToBits(x / 2, k - 1) + [x % 2 == 1]
  }

  function Value(bits: seq<bool>): (x: nat)
    ensures x < Pow2(|bits|)
    decreases |bits|
  {
    if bits == [] then 0 else 2 * Value(bits[..|bits| - 1]) + if bits[|bits| - 1] then 1 else 0
  }

  function BitsOf(byte: u8): Bits { ToBits(byte, 8) }

  predicate BitAt(byte: u8, n: u3) { BitsOf(byte)[n] }

  function Compose(bits: Bits): u8 {
    assert Pow2(8) == 2 * 2 * 2 * Pow2(5) == 256;
    Value(bits)
  }

  /** write_bit: one bit replaced. */
  function SetBit(byte: u8, n: u3, bit: bool): u8 { Compose(BitsOf(byte)[n := bit]) }

  /** The chip has its own address when bits 7 and 5 are set. */
  predicate Selected(chip: u8) { BitAt(chip, 0) && BitAt(chip, 2) }

  function Rise(e: Chip, sda: bool): Chip {
    match e.mode
    case ChipAddress =>
      if e.counter < 8 then e.(chip := SetBit(e.chip, e.counter, sda), counter := e.counter + 1) else e
    case Address =>
      if e.counter < 8 then e.(address := SetBit(e.address, e.counter, sda), counter := e.counter + 1) else e
    case Write =>
      if e.counter < 8 then e.(data := SetBit(e.data, e.counter, sda), counter := e.counter + 1) else e
    case Read =>
      if e.counter < 8 then e.(output := BitAt(e.data, e.counter), counter := e.counter + 1) else e
    case SendAck => e.(output := false)
    case WaitAck => if !sda then e.(next := Read, data := e.rom[e.address]) else e
    case Idle => e
  }

  function Fall(e: Chip): Chip {
    match e.mode
    case ChipAddress =>
      if e.counter != 8 then e
      else if !Selected(e.chip) then e.(mode := Idle, counter := 0, output := true)
      else if BitAt(e.chip, 7)
      then e.(mode := SendAck, counter := 0, output := true, next := Read, data := e.rom[e.address])
      else e.(mode := SendAck, counter := 0, output := true, next := Address)
    case Address => if e.counter != 8 then e else e.(mode := SendAck, counter := 0, next := Write, output := true)
    case Read => if e.counter != 8 then e else e.(mode := WaitAck, address := (e.address + 1) % 0x100)
    case Write =>
      if e.counter != 8 then e
      else e.(mode := SendAck, counter := 0, next := Write, rom := e.rom[e.address := e.data],
              address := (e.address + 1) % 0x100)
    case SendAck => e.(mode := e.next, counter := 0, output := true)
    case WaitAck => e.(mode := e.next, counter := 0, output := true)
    case Idle => e
  }

  /** write(): the lines take new values; both may change at once. */
  function Lines(e: Chip, scl: bool, sda: bool): Chip {
    var s :=
      if e.scl && scl && !sda && e.sda then e.(mode := ChipAddress, counter := 0, output := true)
      else if e.scl && scl && sda && !e.sda then e.(mode := Idle, output := true)
      else if scl && !e.scl then Rise(e, sda)
      else if !scl && e.scl then Fall(e)
      else e;
    s.(scl := scl, sda := sda)
  }

  // ---- the master's side ----

  /** START: the clock goes low, then high with the data line high, and the data line falls. */
  function Start(e: Chip): Chip { Lines(Lines(Lines(Lines(e, false, true), true, true), true, false), false, false) }

  function Stop(e: Chip): Chip { Lines(Lines(Lines(e, false, false), true, false), true, true) }

  /** The clock is high with the data line at `bit`. */
  function High(e: Chip, bit: bool): Chip { Lines(Lines(e, false, bit), true, bit) }

  function Pulse(e: Chip, bit: bool): Chip { Lines(High(e, bit), false, bit) }

  /** The bits of a byte from the n-th on, most significant first. */
  function SendBits(e: Chip, byte: u8, n: Count): Chip
    decreases 8 - n
  {
    if n == 8 then e else SendBits(Pulse(e, BitAt(byte, n)), byte, n + 1)
  }

  /** A byte and the ninth clock, at which the receiver acknowledges by pulling the data line low. */
  function Send(e: Chip, byte: u8): Chip { Pulse(SendBits(e, byte, 0), true) }

  predicate Acked(e: Chip, byte: u8) { !High(SendBits(e, byte, 0), true).output }

  /** The data line is released and sampled while the clock is high. */
  function ReceiveBits(e: Chip, n: Count): (Chip, seq<bool>)
    decreases 8 - n
  {
    if n == 8 then (e, [])
    else
      var (f, bits) := ReceiveBits(Pulse(e, true), n + 1);
      (f, [High(e, true).output] + bits)
  }

  function SendAll(e: Chip, bytes: seq<u8>): Chip
    decreases |bytes|
  {
    if bytes == [] then e else SendAll(Send(e, bytes[0]), bytes[1..])
  }

  predicate AllAcked(e: Chip, bytes: seq<u8>)
    decreases |bytes|
  {
    bytes == [] || (Acked(e, bytes[0]) && AllAcked(Send(e, bytes[0]), bytes[1..]))
  }

  /** n bytes, each acknowledged by the master. */
  function ReceiveAll(e: Chip, n: nat): seq<seq<bool>>
    decreases n
  {
    if n == 0 then []
    else
      var (f, bits) := ReceiveBits(e, 0);
      [bits] + ReceiveAll(Pulse(f, false), n - 1)
  }
}
