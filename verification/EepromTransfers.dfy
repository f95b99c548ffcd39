/** Whole transfers over the two wires: what is written is what is read back. */
module EepromTransfers {
  import opened Arithmetic
  import opened ByteBits
  import opened Types
  import opened EepromModel

  // ---- bits ----

  lemma {:induction false} ToBitsValue(bits: seq<bool>)
    ensures ToBits(Value(bits), |bits|) == bits
    decreases |bits|
  {
    if bits != [] { ToBitsValue(bits[..|bits| - 1]); }
  }

  lemma {:induction false} ValueToBits(x: nat, k: nat)
    requires x < Pow2(k)
    ensures Value(ToBits(x, k)) == x
    decreases k
  {
    if k > 0 {
      ValueToBits(x / 2, k - 1);
      assert ToBits(x, k)[..k - 1] == ToBits(x / 2, k - 1);
    }
  }

  lemma BitsOfCompose(bits: Bits)
    ensures BitsOf(Compose(bits)) == bits
  {
    ToBitsValue(bits);
  }

  lemma ComposeBitsOf(byte: u8)
    ensures Compose(BitsOf(byte)) == byte
  {
    assert Pow2(8) == 2 * 2 * 2 * Pow2(5) == 256;
    ValueToBits(byte, 8);
  }

  lemma SetBitAt(byte: u8, n: u3, bit: bool, k: u3)
    ensures BitAt(SetBit(byte, n, bit), k) == if k == n then bit else BitAt(byte, k)
  {
    hide Compose, BitsOf;
    BitsOfCompose(BitsOf(byte)[n := bit]);
    assert BitsOf(SetBit(byte, n, bit))[k] == BitsOf(byte)[n := bit][k];
  }

  ghost predicate Agrees(x: u8, y: u8, n: Count) { forall k: u3 :: k < n ==> BitAt(x, k) == BitAt(y, k) }

  lemma AgreesAll(x: u8, y: u8)
    requires Agrees(x, y, 8)
    ensures x == y
  {
    hide Compose, BitsOf;
    ComposeBitsOf(x);
    ComposeBitsOf(y);
    forall n: u3 ensures BitsOf(x)[n] == BitsOf(y)[n] { assert BitAt(x, n) == BitAt(y, n); }
    assert BitsOf(x) == BitsOf(y);
  }

  // ---- receiving a byte ----

  predicate Receiving(e: Chip) { !e.scl && (e.mode == ChipAddress || e.mode == Address || e.mode == Write) }

  /** The register that a receiving chip shifts into. */
  function Register(e: Chip): u8
    requires Receiving(e)
  {
    if e.mode == ChipAddress then e.chip else if e.mode == Address then e.address else e.data
  }

  function SetRegister(e: Chip, value: u8): Chip
    requires Receiving(e)
  {
    if e.mode == ChipAddress then e.(chip := value)
    else if e.mode == Address then e.(address := value) else e.(data := value)
  }

  lemma HighReceives(e: Chip, bit: bool)
    requires Receiving(e) && e.counter < 8
    ensures High(e, bit) == SetRegister(e, SetBit(Register(e), e.counter, bit)).(counter := e.counter + 1, scl := true,
                                                                                 sda := bit)
  {
    hide SetBit, Fall;
  }

  lemma PulseReceives(e: Chip, bit: bool)
    requires Receiving(e) && e.counter < 8
    ensures var f := SetRegister(e, SetBit(Register(e), e.counter, bit)).(counter := e.counter + 1, sda := bit);
            Pulse(e, bit) == if e.counter == 7 then Fall(f) else f
  {
    hide SetBit, Selected, BitAt, High;
    HighReceives(e, bit);
  }

  /** Eight clocks replace the register, whatever it held, and the last one completes the byte. */
  lemma {:induction false} SendBitsReceived(e: Chip, byte: u8, n: Count)
    requires Receiving(e) && e.counter == n < 8 && Agrees(Register(e), byte, n)
    ensures SendBits(e, byte, n) == Fall(SetRegister(e, byte).(counter := 8, sda := BitAt(byte, 7)))
    decreases 8 - n
  {
    hide SetBit, BitAt, Fall, Pulse;
    var bit := BitAt(byte, n);
    var value := SetBit(Register(e), n, bit);
    forall k: u3 | k < n + 1 ensures BitAt(value, k) == BitAt(byte, k) { SetBitAt(Register(e), n, bit, k); }
    PulseReceives(e, bit);
    if n == 7 { AgreesAll(value, byte); } else { SendBitsReceived(Pulse(e, bit), byte, n + 1); }
  }

  lemma AckPulse(e: Chip)
    requires !e.scl && e.mode == SendAck
    ensures !High(e, true).output && Pulse(e, true) == e.(mode := e.next, counter := 0, output := true, sda := true)
  {}

  /** A received byte: the chip acknowledges and goes on, unless the byte is the address of another chip. */
  lemma SendReceived(e: Chip, byte: u8)
    requires Receiving(e) && e.counter == 0
    ensures var f := Fall(SetRegister(e, byte).(counter := 8));
            if e.mode == ChipAddress && !Selected(byte)
            then !Acked(e, byte) && Send(e, byte).mode == Idle && Send(e, byte).rom == e.rom && !Send(e, byte).scl
            else Acked(e, byte) && Send(e, byte) == f.(mode := f.next, counter := 0, output := true, sda := true)
  {
    hide SetBit, BitAt, Selected, SendBits;
    SendBitsReceived(e, byte, 0);
    var f := SendBits(e, byte, 0);
    if f.mode == SendAck { AckPulse(f); }
  }

  // ---- conditions ----

  /** START begins with a low clock. On a chip whose clock is high that is a falling edge, which may complete a byte. */
  function Lowered(e: Chip): Chip { if e.scl then Fall(e) else e }

  /** Only a byte whose eight bits are all in is stored by that edge. */
  lemma LoweredStores(e: Chip)
    ensures Lowered(e).rom == if e.scl && e.mode == Write && e.counter == 8 then e.rom[e.address := e.data] else e.rom
  {
    hide Selected, BitAt;
  }

  /** START, from any state, selects nothing yet, and leaves memory alone once the clock is low; it keeps the address
      unless one was being sent. */
  lemma StartListens(e: Chip)
    ensures var s, l := Start(e), Lowered(e);
            && s.mode == ChipAddress && s.counter == 0 && !s.scl && s.rom == l.rom
            && (l.mode != Address ==> s.address == l.address)
  {
    hide SetBit, Selected, BitsOf;
  }

  /** STOP ends a transfer between bytes, or drops an unfinished byte; memory stays as it is. */
  lemma StopIdles(e: Chip)
    requires !e.scl
    ensures Stop(e).mode == Idle && Stop(e).rom == e.rom && Stop(e).scl
  {
    hide SetBit, Selected, BitsOf;
  }

  // ---- transfers ----

  const WRITE_CHIP: u8 := 0xA0
  const READ_CHIP: u8 := 0xA1

  lemma ChipBits()
    ensures Selected(WRITE_CHIP) && !BitAt(WRITE_CHIP, 7) && Selected(READ_CHIP) && BitAt(READ_CHIP, 7)
  {
    assert ToBits(5, 3) == [true, false, true];
    assert ToBits(10, 4) == [true, false, true, false];
    assert ToBits(80, 7) == ToBits(10, 4) + [false, false, false];
    assert BitsOf(WRITE_CHIP) == ToBits(80, 7) + [false];
    assert BitsOf(READ_CHIP) == ToBits(80, 7) + [true];
  }

  /** START, the chip's address for writing, and a word address. */
  function Seek(e: Chip, a: u8): Chip { Send(Send(Start(e), WRITE_CHIP), a) }

  predicate AddressAcked(e: Chip, a: u8) {
    Acked(Start(e), WRITE_CHIP) && Acked(Send(Start(e), WRITE_CHIP), a)
  }

  lemma Addressed(e: Chip, a: u8)
    ensures AddressAcked(e, a)
    ensures var f := Seek(e, a);
            f.mode == Write && f.counter == 0 && !f.scl && f.address == a && f.rom == Lowered(e).rom
  {
    hide SetBit, BitsOf, Send, Acked, Start, Selected;
    StartListens(e);
    ChipBits();
    SendReceived(Start(e), WRITE_CHIP);
    SendReceived(Send(Start(e), WRITE_CHIP), a);
  }

  /** Bytes stored one after the other, the address wrapping at the end of memory. */
  function Store(rom: Rom, a: u8, bytes: seq<u8>): Rom
    decreases |bytes|
  {
    if bytes == [] then rom else Store(rom[a := bytes[0]], (a + 1) % 0x100, bytes[1..])
  }

  lemma {:induction false} SendAllStores(e: Chip, bytes: seq<u8>)
    requires e.mode == Write && e.counter == 0 && !e.scl
    ensures AllAcked(e, bytes)
    ensures var f := SendAll(e, bytes);
            f.mode == Write && f.counter == 0 && !f.scl && f.rom == Store(e.rom, e.address, bytes)
    decreases |bytes|
  {
    hide Send, Acked;
    if bytes != [] {
      SendReceived(e, bytes[0]);
      SendAllStores(Send(e, bytes[0]), bytes[1..]);
    }
  }

  /** START, 0xA0, the address, the bytes, STOP. */
  function WriteTransfer(e: Chip, a: u8, bytes: seq<u8>): Chip { Stop(SendAll(Seek(e, a), bytes)) }

  /** START, 0xA0, the address, START, 0xA1, and n bytes, each acknowledged by the master. */
  function ReadTransfer(e: Chip, a: u8, n: nat): seq<seq<bool>> {
    ReceiveAll(Send(Start(Seek(e, a)), READ_CHIP), n)
  }

  lemma WriteTransferStores(e: Chip, a: u8, bytes: seq<u8>)
    ensures AddressAcked(e, a) && AllAcked(Seek(e, a), bytes)
    ensures var w := WriteTransfer(e, a, bytes); w.mode == Idle && w.rom == Store(Lowered(e).rom, a, bytes)
  {
    hide Seek, AddressAcked, SendAll, AllAcked, Stop;
    Addressed(e, a);
    SendAllStores(Seek(e, a), bytes);
    StopIdles(SendAll(Seek(e, a), bytes));
  }

  // ---- reading ----

  lemma ReadPulse(e: Chip)
    requires !e.scl && e.mode == Read && e.counter < 8
    ensures High(e, true).output == BitAt(e.data, e.counter)
    ensures var f := e.(output := BitAt(e.data, e.counter), counter := e.counter + 1, sda := true);
            Pulse(e, true) == if e.counter == 7 then Fall(f) else f
  {
    hide BitsOf;
  }

  lemma {:induction false} ReceiveBitsReads(e: Chip, n: Count)
    requires !e.scl && e.mode == Read && e.counter == n < 8
    ensures var (f, bits) := ReceiveBits(e, n);
            && bits == BitsOf(e.data)[n..]
            && f == e.(mode := WaitAck, counter := 8, output := BitAt(e.data, 7), sda := true,
                       address := (e.address + 1) % 0x100)
    decreases 8 - n
  {
    hide BitsOf, Pulse, High;
    ReadPulse(e);
    if n < 7 { ReceiveBitsReads(Pulse(e, true), n + 1); }
  }

  lemma MasterAck(e: Chip)
    requires !e.scl && e.mode == WaitAck
    ensures Pulse(e, false)
         == e.(mode := Read, next := Read, data := e.rom[e.address], counter := 0, output := true, sda := false)
  {}

  lemma {:induction false} ReceiveAllReads(e: Chip, n: nat)
    requires !e.scl && e.mode == Read && e.counter == 0 && e.data == e.rom[e.address]
    ensures var got := ReceiveAll(e, n);
            |got| == n && forall k :: 0 <= k < n ==> got[k] == BitsOf(e.rom[(e.address + k) % 0x100])
    decreases n
  {
    hide BitsOf, Pulse, ReceiveBits;
    if n > 0 {
      ReceiveBitsReads(e, 0);
      var (f, bits) := ReceiveBits(e, 0);
      MasterAck(f);
      var next := Pulse(f, false);
      ReceiveAllReads(next, n - 1);
      assert bits == BitsOf(e.rom[e.address]);
      forall k | 1 <= k < n ensures ReceiveAll(e, n)[k] == BitsOf(e.rom[(e.address + k) % 0x100]) {
        assert ReceiveAll(e, n)[k] == ReceiveAll(next, n - 1)[k - 1];
        assert (next.address + (k - 1)) % 0x100 == (e.address + k) % 0x100;
      }
    }
  }

  lemma ReadTransferReads(e: Chip, a: u8, n: nat)
    ensures AddressAcked(e, a) && Acked(Start(Seek(e, a)), READ_CHIP)
    ensures var got := ReadTransfer(e, a, n);
            |got| == n && forall k :: 0 <= k < n ==> got[k] == BitsOf(Lowered(e).rom[(a + k) % 0x100])
  {
    hide Seek, AddressAcked, ReceiveAll, Send, Acked, Start, BitsOf, Selected;
    Addressed(e, a);
    StartListens(Seek(e, a));
    ChipBits();
    SendReceived(Start(Seek(e, a)), READ_CHIP);
    ReceiveAllReads(Send(Start(Seek(e, a)), READ_CHIP), n);
  }

  /** A byte that the master does not acknowledge is sent once more instead of the next one, and the byte in between is
      skipped: an acknowledgement after the repetition continues two cells on. */
  lemma NackRepeats(e: Chip)
    requires Reading(e) && e.next == Read
    ensures var nacked := Pulse(ReceiveBits(e, 0).0, true);
            && ReceiveBits(e, 0).1 == ReceiveBits(nacked, 0).1 == BitsOf(e.data)
            && ReceiveBits(Pulse(ReceiveBits(nacked, 0).0, false), 0).1 == BitsOf(e.rom[(e.address + 2) % 0x100])
  {
    hide BitsOf, Pulse, ReceiveBits, Reading;
    Nacked(e);
    var nacked := Pulse(ReceiveBits(e, 0).0, true);
    Nacked(nacked);
    Acknowledged(nacked);
    Nacked(Pulse(ReceiveBits(nacked, 0).0, false));
  }

  /** About to send a byte. */
  predicate Reading(e: Chip) { !e.scl && e.mode == Read && e.counter == 0 }

  lemma Nacked(e: Chip)
    requires Reading(e)
    ensures var f := Pulse(ReceiveBits(e, 0).0, true);
            && ReceiveBits(e, 0).1 == BitsOf(e.data)
            && (e.next == Read ==> Reading(f) && f.next == Read && f.data == e.data && f.rom == e.rom
                                   && f.address == (e.address + 1) % 0x100)
  {
    hide BitsOf, ReceiveBits, Pulse, BitAt;
    ByteReceived(e);
    NackPulse(ReceiveBits(e, 0).0);
  }

  lemma Acknowledged(e: Chip)
    requires Reading(e)
    ensures var f := Pulse(ReceiveBits(e, 0).0, false);
            Reading(f) && f.data == e.rom[(e.address + 1) % 0x100]
  {
    hide BitsOf, ReceiveBits, Pulse, BitAt;
    ByteReceived(e);
    MasterAck(ReceiveBits(e, 0).0);
  }

  lemma ByteReceived(e: Chip)
    requires !e.scl && e.mode == Read && e.counter == 0
    ensures var (f, bits) := ReceiveBits(e, 0);
            && bits == BitsOf(e.data) && !f.scl && f.mode == WaitAck && f.next == e.next && f.data == e.data
            && f.rom == e.rom && f.address == (e.address + 1) % 0x100
  {
    hide BitsOf, ReceiveBits, BitAt;
    ReceiveBitsReads(e, 0);
    assert BitsOf(e.data)[0..] == BitsOf(e.data);
  }

  lemma NackPulse(e: Chip)
    requires !e.scl && e.mode == WaitAck
    ensures Pulse(e, true) == e.(mode := e.next, counter := 0, output := true, sda := true)
  {}

  // ---- the round trip ----

  lemma {:induction false} StoreFills(rom: Rom, a: u8, bytes: seq<u8>, cell: u8)
    requires |bytes| <= 0x100
    ensures Store(rom, a, bytes)[cell] == if Offset(a, cell) < |bytes| then bytes[Offset(a, cell)] else rom[cell]
    decreases |bytes|
  {
    if bytes != [] { StoreFills(rom[a := bytes[0]], (a + 1) % 0x100, bytes[1..], cell); }
  }

  /** Whatever the chip held and was doing, up to 256 bytes written from address a on are read back from a on, most
      significant bit first, the address wrapping around; every transfer is acknowledged throughout, and no other cell
      changes but for a byte that was complete when the chip was interrupted. */
  lemma WrittenIsReadBack(e: Chip, a: u8, bytes: seq<u8>)
    requires |bytes| <= 0x100
    ensures AddressAcked(e, a) && AllAcked(Seek(e, a), bytes)
    ensures var w := WriteTransfer(e, a, bytes);
            && (forall cell: u8 ::
                  w.rom[cell] == if Offset(a, cell) < |bytes| then bytes[Offset(a, cell)] else Lowered(e).rom[cell])
            && AddressAcked(w, a) && Acked(Start(Seek(w, a)), READ_CHIP)
            && var got := ReadTransfer(w, a, |bytes|);
               |got| == |bytes| && forall k :: 0 <= k < |bytes| ==> got[k] == BitsOf(bytes[k])
  {
    hide Seek, AddressAcked, AllAcked, WriteTransfer, ReadTransfer, Acked, Start, BitsOf, Store;
    WriteTransferStores(e, a, bytes);
    var w := WriteTransfer(e, a, bytes);
    forall cell: u8
      ensures w.rom[cell] == if Offset(a, cell) < |bytes| then bytes[Offset(a, cell)] else Lowered(e).rom[cell]
    {
      StoreFills(Lowered(e).rom, a, bytes, cell);
    }
    ReadTransferReads(w, a, |bytes|);
    forall k | 0 <= k < |bytes| ensures w.rom[(a + k) % 0x100] == bytes[k] {
      assert Offset(a, (a + k) % 0x100) == k;
    }
  }

  /** A chip addressed by another device type code does not answer, and stays silent whatever is sent, until
      the next START; memory is not touched. */
  lemma OtherChipsIgnored(e: Chip, chip: u8, bytes: seq<u8>)
    requires !Selected(chip)
    ensures !Acked(Start(e), chip)
    ensures var f := SendAll(Send(Start(e), chip), bytes); f.mode == Idle && f.rom == Lowered(e).rom
  {
    hide Send, Acked, Start, Selected, SendAll;
    StartListens(e);
    SendReceived(Start(e), chip);
    IdleIgnores(Send(Start(e), chip), bytes);
  }

  lemma {:induction false} IdleIgnores(e: Chip, bytes: seq<u8>)
    requires e.mode == Idle && !e.scl
    ensures var f := SendAll(e, bytes); f.mode == Idle && f.rom == e.rom && !f.scl
    decreases |bytes|
  {
    hide Send;
    if bytes != [] {
      IdleByte(e, bytes[0]);
      IdleIgnores(Send(e, bytes[0]), bytes[1..]);
    }
  }

  lemma IdleByte(e: Chip, byte: u8)
    requires e.mode == Idle && !e.scl
    ensures var f := Send(e, byte); f.mode == Idle && f.rom == e.rom && !f.scl
  {
    hide BitsOf, SendBits;
    IdleBits(e, byte, 0);
  }

  lemma {:induction false} IdleBits(e: Chip, byte: u8, n: Count)
    requires e.mode == Idle && !e.scl
    ensures var f := SendBits(e, byte, n); f.mode == Idle && f.rom == e.rom && !f.scl
    decreases 8 - n
  {
    hide BitsOf;
    if n < 8 { IdleBits(Pulse(e, BitAt(byte, n)), byte, n + 1); }
  }

  /** A byte cut short by STOP is lost: memory changes only when all eight bits have been clocked in. */
  lemma {:induction false} PartialByteLost(e: Chip, bits: seq<bool>)
    requires e.mode == Write && e.counter == 0 && !e.scl && |bits| < 8
    ensures Stop(Pulses(e, bits)).rom == e.rom
  {
    PulsesKeep(e, bits);
    StopIdles(Pulses(e, bits));
  }

  function Pulses(e: Chip, bits: seq<bool>): Chip
    decreases |bits|
  {
    if bits == [] then e else Pulses(Pulse(e, bits[0]), bits[1..])
  }

  lemma {:induction false} PulsesKeep(e: Chip, bits: seq<bool>)
    requires e.mode == Write && !e.scl && e.counter + |bits| < 8
    ensures var f := Pulses(e, bits); f.rom == e.rom && !f.scl
    decreases |bits|
  {
    hide SetBit, Pulse;
    if bits != [] {
      PulseReceives(e, bits[0]);
      PulsesKeep(Pulse(e, bits[0]), bits[1..]);
    }
  }

  // ---- the same in numbers ----

  lemma {:induction false} ToBitsAt(x: nat, k: nat, i: nat)
    requires i < k
    ensures Pow2(k - 1 - i) > 0 && ToBits(x, k)[i] == (x / Pow2(k - 1 - i) % 2 == 1)
    decreases k
  {
    if i < k - 1 {
      ToBitsAt(x / 2, k - 1, i);
      HalfFirst(x, Pow2(k - 2 - i));
    } else {
      assert Pow2(0) == 1;
    }
  }

  lemma HalfFirst(x: nat, p: nat)
    requires p > 0
    ensures x / 2 / p == x / (2 * p)
  {
    var q, r := x / 2 / p, x / 2 % p;
    assert x == 2 * (q * p + r) + x % 2;
    DivideUnique(x, 2 * p, q, 2 * r + x % 2);
  }

  /** Bits are sent and received most significant first. */
  lemma BitAtIsDigit(byte: u8, n: u3)
    ensures BitAt(byte, n) == (Digit(byte, 7 - n) == 1)
  {
    ToBitsAt(byte, 8, n);
    assert Pow2(3) == 2 * Pow2(2) == 8 && Pow2(2) == 4;
    assert Pow2(7) == 2 * Pow2(6) == 4 * Pow2(5) == 8 * Pow2(4) == 16 * Pow2(3);
  }

  /** From any state START and a chip code are acknowledged if and only if bits 7 and 5 of the code are set. */
  lemma AckedChips(e: Chip, chip: u8)
    ensures Acked(Start(e), chip) <==> chip / 128 == 1 && chip / 32 % 2 == 1
  {
    hide SendBits, Start, BitsOf, Fall;
    StartListens(e);
    BitAtIsDigit(chip, 0);
    BitAtIsDigit(chip, 2);
    hide BitAt, Acked, Send;
    SendReceived(Start(e), chip);
  }
}
