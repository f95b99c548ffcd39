/** What the CPU reads from the MMC3, told by the writes alone. */
module Mmc3Writes {
  import opened ByteBits
  import opened Mmc3Mapper
  import opened Types

  type History = seq<(u16, u8)>

  predicate SelectsRegister(addr: u16) { 0x8000 <= addr < 0xA000 && addr % 2 == 0 }

  predicate SetsRegister(addr: u16) { 0x8000 <= addr < 0xA000 && addr % 2 == 1 }

  predicate SetsWorkRam(addr: u16) { 0xA000 <= addr < 0xC000 && addr % 2 == 1 }

  /** The low three bits of the last even write to $8000-$9FFF. */
  function Selected(h: History): u3 {
    if h == [] then 0
    else var (addr, value) := h[|h| - 1]; if SelectsRegister(addr) then value % 8 else Selected(h[..|h| - 1])
  }

  /** Bit 6 of that write. */
  predicate Swapped(h: History) {
    h != [] && var (addr, value) := h[|h| - 1];
               if SelectsRegister(addr) then value / 64 % 2 == 1 else Swapped(h[..|h| - 1])
  }

  /** The last odd write to $8000-$9FFF while register 6 or 7 was selected; 0 and 1 at power-on. */
  function LastSet(h: History, register: u3): u8
    requires register == 6 || register == 7
  {
    if h == [] then register - 6
    else
      var (addr, value) := h[|h| - 1];
      if SetsRegister(addr) && Selected(h[..|h| - 1]) == register then value else LastSet(h[..|h| - 1], register)
  }

  /** The page that shows at an address from $8000 on. */
  function ShownPage(h: History, addr: u16): nat
    requires addr >= 0x8000
  {
    if addr >= 0xE000 then 65535
    else if 0xA000 <= addr < 0xC000 then LastSet(h, 7)
    else if (addr < 0xA000) == Swapped(h) then 65534
    else LastSet(h, 6)
  }

  function Shown(rom: PrgRom, h: History, addr: u16): u8
    requires addr >= 0x8000
  {
    BankInRom(ShownPage(h, addr), |rom| / 0x2000, addr % 0x2000);
    rom[ShownPage(h, addr) % (|rom| / 0x2000) * 0x2000 + addr % 0x2000]
  }

  /** The writes as the mapper hears them: with bus conflicts a register write is masked by the byte shown there. */
  function Heard(rom: PrgRom, conflicts: bool, writes: History): History {
    if writes == [] then []
    else
      var before := Heard(rom, conflicts, writes[..|writes| - 1]);
      var (addr, value) := writes[|writes| - 1];
      before + [(addr, if conflicts && addr >= 0x8000 then And(value, Shown(rom, before, addr)) else value)]
  }

  /** Bits 7 and 6 of the last odd write to $A000-$BFFF. */
  predicate Enabled(h: History) {
    h != [] && var (addr, value) := h[|h| - 1];
               if SetsWorkRam(addr) then value / 128 == 1 else Enabled(h[..|h| - 1])
  }

  predicate Protected(h: History) {
    h != [] && var (addr, value) := h[|h| - 1];
               if SetsWorkRam(addr) then value / 64 % 2 == 1 else Protected(h[..|h| - 1])
  }

  // ---- the registers are what was heard ----

  ghost predicate Follows(m: Mmc3, h: History) {
    && m.current == Selected(h) && m.prgMode == Swapped(h)
    && m.registers[6] == LastSet(h, 6) && m.registers[7] == LastSet(h, 7)
    && m.enabled == Enabled(h) && m.protect == Protected(h)
  }

  lemma BankIsShown(m: Mmc3, h: History, addr: u16)
    requires Follows(m, h) && addr >= 0x8000
    ensures Bank(m, (addr - 0x8000) / 0x2000) == ShownPage(h, addr)
  {
    hide Selected, Swapped, LastSet, Enabled, Protected;
  }

  lemma ReadIsShown(m: Mmc3, h: History, addr: u16, openBus: u8)
    requires RomCached(m) && Follows(m, h) && addr >= 0x8000
    ensures ReadRam(m, addr, openBus) == Shown(m.rom, h, addr)
  {
    hide Follows, Bank, RomCached, ReadRam, ShownPage;
    BankIsShown(m, h, addr);
    CachedRead(m, addr, openBus);
  }

  lemma PointedIsShown(m: Mmc3, h: History, addr: u16)
    requires RomCached(m) && Follows(m, h) && addr >= 0x8000
    ensures Pointed(m, addr) == Some(Shown(m.rom, h, addr))
  {
    hide Follows, Bank, Shown;
    ReadIsShown(m, h, addr, 0);
    ReadIsShown(m, h, addr, 1);
    var i: u8 := addr / 0x100;
    assert m.table.access[i] == ReadWrite;
  }

  lemma RegisterFields(m: Mmc3, addr: u16, value: u8)
    requires addr >= 0x8000
    ensures var n := WriteRegister(m, addr, value);
            && n.current == (if SelectsRegister(addr) then value % 8 else m.current)
            && n.prgMode == (if SelectsRegister(addr) then value / 64 % 2 == 1 else m.prgMode)
            && (forall r: u3 :: r == 6 || r == 7 ==>
                  n.registers[r] == if SetsRegister(addr) && m.current == r then value else m.registers[r])
            && n.enabled == (if SetsWorkRam(addr) then value / 128 == 1 else m.enabled)
            && n.protect == (if SetsWorkRam(addr) then value / 64 % 2 == 1 else m.protect)
  {
    hide Update;
  }

  lemma RegisterFollows(m: Mmc3, h: History, addr: u16, value: u8)
    requires Follows(m, h) && addr >= 0x8000
    ensures Follows(WriteRegister(m, addr, value), h + [(addr, value)])
  {
    var after := h + [(addr, value)];
    assert after[..|after| - 1] == h;
    hide WriteRegister, SelectsRegister, SetsRegister, SetsWorkRam;
    RegisterFields(m, addr, value);
  }

  lemma WriteFollows(m: Mmc3, h: History, addr: u16, value: u8)
    requires TableOk(m) && Follows(m, h)
    ensures var heard := if m.conflicts && addr >= 0x8000 then And(value, Shown(m.rom, h, addr)) else value;
            Follows(WriteRam(m, addr, value), h + [(addr, heard)])
  {
    hide WriteRegister, Shown, Store, RomCached, WorkCached, WorkDefault;
    if addr >= 0x8000 {
      PointedIsShown(m, h, addr);
      hide Follows;
      RegisterFollows(m, h, addr, OnBus(m, addr, value));
    } else {
      StoreKeeps(m, addr, value);
      var after := h + [(addr, value)];
      assert after[..|after| - 1] == h;
    }
  }

  lemma {:induction false} WritesSnoc(m: Mmc3, writes: History)
    requires writes != []
    ensures var last := |writes| - 1;
            Writes(m, writes) == WriteRam(Writes(m, writes[..last]), writes[last].0, writes[last].1)
    decreases |writes|
  {
    hide WriteRam;
    var last := |writes| - 1;
    if last > 0 {
      WritesSnoc(WriteRam(m, writes[0].0, writes[0].1), writes[1..]);
      assert writes[1..][..last - 1] == writes[..last][1..];
    } else {
      assert writes[..0] == [] && writes[1..] == [];
    }
  }

  lemma ConflictsStay(m: Mmc3, addr: u16, value: u8)
    ensures WriteRam(m, addr, value).conflicts == m.conflicts
  {
    hide SelectAll, MapRange, Bit;
  }

  lemma {:induction false} AllFollow(rom: PrgRom, base: BaseRam, conflicts: bool, writes: History)
    ensures var m := Writes(Loaded(rom, base, conflicts), writes);
            m.conflicts == conflicts && Follows(m, Heard(rom, conflicts, writes))
    decreases |writes|
  {
    var m := Loaded(rom, base, conflicts);
    hide WriteRam, Shown, RomCached, WorkCached, WorkDefault, Remapped;
    if writes == [] {
      assert Writes(m, []) == m;
    } else {
      hide Follows, Loaded, Writes;
      var before, last := writes[..|writes| - 1], writes[|writes| - 1];
      AllFollow(rom, base, conflicts, before);
      TableExactlyWhen(rom, base, conflicts, before);
      WritesSnoc(m, writes);
      WriteFollows(Writes(m, before), Heard(rom, conflicts, before), last.0, last.1);
      ConflictsStay(Writes(m, before), last.0, last.1);
    }
  }

  /** After a load and any writes, on boards with and without bus conflicts, a read from $8000 on gives the byte of PRG
      ROM, as loaded, that the writes ask for: $A000 shows the page last set in register 7, one of $8000 and $C000 that
      of register 6 and the other one page 65534, as bit 6 says, and $E000 page 65535, all modulo the page count. */
  lemma ReadsFollowWrites(rom: PrgRom, base: BaseRam, conflicts: bool, writes: History, addr: u16, openBus: u8)
    requires addr >= 0x8000
    ensures ReadRam(Writes(Loaded(rom, base, conflicts), writes), addr, openBus)
         == Shown(rom, Heard(rom, conflicts, writes), addr)
  {
    hide Writes, Loaded, ReadRam, Shown, Follows, RomCached, WorkCached, WorkDefault, Remapped;
    AllFollow(rom, base, conflicts, writes);
    TableExactlyWhen(rom, base, conflicts, writes);
    ReadIsShown(Writes(Loaded(rom, base, conflicts), writes), Heard(rom, conflicts, writes), addr, openBus);
  }

  /** Without bus conflicts what is heard is what is written. */
  lemma {:induction false} HeardAsWritten(rom: PrgRom, writes: History)
    ensures Heard(rom, false, writes) == writes
    decreases |writes|
  {
    if writes != [] {
      HeardAsWritten(rom, writes[..|writes| - 1]);
      var last := writes[|writes| - 1];
      assert (last.0, last.1) == last;
      assert writes == writes[..|writes| - 1] + [writes[|writes| - 1]];
    }
  }

  /** $6000-$7FFF, once a write has updated the mapping: the last odd write to $A000-$BFFF enables the work RAM by its
      bit 7 and protects it by its bit 6. */
  lemma WorkRamFollowsWrites(rom: PrgRom, base: BaseRam, conflicts: bool, writes: History, addr: u16, value: u8,
                             openBus: u8)
    requires 0x6000 <= addr < 0x8000 && Remapped(writes)
    ensures var m, h := Writes(Loaded(rom, base, conflicts), writes), Heard(rom, conflicts, writes);
            var at := addr - 0x6000;
            && ReadRam(m, addr, openBus) == (if Enabled(h) then m.work[at] else openBus)
            && WriteRam(m, addr, value)
               == if Enabled(h) && !Protected(h) then m.(work := m.work[at := value]) else m
  {
    AllFollow(rom, base, conflicts, writes);
    WorkRamExactlyWhen(rom, base, conflicts, writes, addr, value, openBus);
    hide Writes, Loaded, ReadRam, WriteRam, Remapped, Heard;
  }
}
