/** The MMC3's CPU page table (src/systems/nes/mappers/mapper_004.cpp, src/systems/nes/mappers/base_mapper.cpp). */
module Mmc3Mapper {
  import opened Arithmetic
  import opened ByteBits
  import opened Types

  datatype MemoryAccess = NoAccess | ReadOnly | ReadWrite

  /** A page pointer: nowhere, into PRG ROM, into the MMC3's own work RAM, or into the base class's work or save RAM. */
  datatype Page = Unmapped | Rom(offset: nat) | Work(offset: nat) | Base(offset: nat)

  type Pages = s: seq<Page> | |s| == 256 witness seq(256, i => Unmapped)
  type Accesses = s: seq<MemoryAccess> | |s| == 256 witness seq(256, i => NoAccess)
  type WorkRam = s: Bytes | |s| == 0x2000 witness seq(0x2000, i => 0)
  type BaseRam = s: Bytes | |s| >= 0x2000 witness seq(0x2000, i => 0)
  type Registers = s: seq<u8> | |s| == 8 witness seq(8, i => 0)

  /** PRG ROM in whole 8 KiB pages, at most 256 MiB, so that page numbers fit the program's 16-bit types. */
  type PageCount = p: int | 0 < p <= 0x8000 witness 1
  type PrgRom = s: Bytes | |s| % 0x2000 == 0 && 0 < |s| <= 0x8000 * 0x2000 witness seq(0x2000, i => 0)

  datatype Table = Table(pages: Pages, access: Accesses)

  datatype Mmc3 = Mmc3(current: u3, prgMode: bool, registers: Registers, enabled: bool, protect: bool,
                       conflicts: bool, rom: PrgRom, work: WorkRam, base: BaseRam, table: Table)

  function Count(m: Mmc3): PageCount { |m.rom| / 0x2000 }

  /** The page `k` pages after one. */
  function After(p: Page, k: nat): Page {
    match p
    case Unmapped => Unmapped
    case Rom(o) => Rom(o + k * 0x100)
    case Work(o) => Work(o + k * 0x100)
    case Base(o) => Base(o + k * 0x100)
  }

  /** set_cpu_memory_mapping: entries first .. last. */
  function MapRange(t: Table, first: u8, last: u8, source: Page, access: MemoryAccess): (r: Table)
    ensures forall i: u8 :: r.pages[i] == if first <= i <= last then After(source, i - first) else t.pages[i]
    ensures forall i: u8 :: r.access[i] == if first <= i <= last then access else t.access[i]
  {
    var pages := seq(256, i requires 0 <= i < 256 =>
      if first <= i <= last then After(source, i - first) else t.pages[i]);
    var accesses := seq(256, i requires 0 <= i < 256 => if first <= i <= last then access else t.access[i]);
    Table(pages, accesses)
  }

  /** select_prg_page: the page number is taken modulo the ROM's size. */
  function Select(t: Table, slot: u2, page: u16, count: PageCount): Table {
    MapRange(t, 0x80 + slot * 0x20, 0x9F + slot * 0x20, Rom(page % count * 0x2000), ReadWrite)
  }

  /** The bank number that a slot asks for: registers 6 and 7 and the last two banks, by mode. */
  function Bank(m: Mmc3, slot: u2): u16 {
    match slot
    case 0 => if m.prgMode then 0xFFFE else m.registers[6]
    case 1 => m.registers[7]
    case 2 => if m.prgMode then m.registers[6] else 0xFFFE
    case 3 => 0xFFFF
  }

  function WorkAccess(m: Mmc3): MemoryAccess {
    if !m.enabled then NoAccess else if m.protect then ReadOnly else ReadWrite
  }

  function SelectAll(t: Table, m: Mmc3): Table {
    var low := Select(Select(t, 0, Bank(m, 0), Count(m)), 1, Bank(m, 1), Count(m));
    Select(Select(low, 2, Bank(m, 2), Count(m)), 3, Bank(m, 3), Count(m))
  }

  /** update_state */
  function Update(m: Mmc3): (n: Mmc3)
    ensures n == m.(table := n.table)
  {
    m.(table := SelectAll(MapRange(m.table, 0x60, 0x7F, Work(0), WorkAccess(m)), m))
  }

  /** write_register, for the registers that concern the CPU side. */
  function WriteRegister(m: Mmc3, addr: u16, value: u8): Mmc3
    requires addr >= 0x8000
  {
    var odd := addr % 2 == 1;
    if addr < 0xA000 then
      if !odd then Update(m.(current := value % 8, prgMode := Bit(value, 6)))
      else Update(m.(registers := m.registers[m.current := if m.current <= 1 then value - value % 2 else value]))
    else if addr < 0xC000 && odd then Update(m.(enabled := Bit(value, 7), protect := Bit(value, 6)))
    else m
  }

  /** The byte that an address's page pointer leads to, if there is one. */
  function Pointed(m: Mmc3, addr: u16): Option<u8> {
    var low := addr % 0x100;
    match m.table.pages[addr / 0x100]
    case Unmapped => None
    case Rom(o) => if o + low < |m.rom| then Some(m.rom[o + low]) else None
    case Work(o) => if o + low < |m.work| then Some(m.work[o + low]) else None
    case Base(o) => if o + low < |m.base| then Some(m.base[o + low]) else None
  }

  /** A store through the page pointer, whatever memory that leads to. */
  function Store(m: Mmc3, addr: u16, value: u8): Mmc3 {
    var low := addr % 0x100;
    match m.table.pages[addr / 0x100]
    case Unmapped => m
    case Rom(o) => if o + low < |m.rom| then m.(rom := m.rom[o + low := value]) else m
    case Work(o) => if o + low < |m.work| then m.(work := m.work[o + low := value]) else m
    case Base(o) => if o + low < |m.base| then m.(base := m.base[o + low := value]) else m
  }

  /** On a board with bus conflicts the ROM drives the bus as well. */
  function OnBus(m: Mmc3, addr: u16, value: u8): u8 {
    if m.conflicts && Pointed(m, addr).Some? then And(value, Pointed(m, addr).value) else value
  }

  /** write_ram: everything from $8000 on is a register. */
  function WriteRam(m: Mmc3, addr: u16, value: u8): Mmc3 {
    if addr >= 0x8000 then WriteRegister(m, addr, OnBus(m, addr, value))
    else if m.table.access[addr / 0x100].ReadWrite? then Store(m, addr, value) else m
  }

  /** read_ram; `openBus` is what an unmapped address gives. */
  function ReadRam(m: Mmc3, addr: u16, openBus: u8): u8 {
    if m.table.access[addr / 0x100].NoAccess? || Pointed(m, addr).None? then openBus else Pointed(m, addr).value
  }

  /** init, on a fresh object. */
  function Initial(rom: PrgRom, base: BaseRam, conflicts: bool): Mmc3 {
    Update(Mmc3(0, false, [0, 2, 4, 5, 6, 7, 0, 1], false, false, conflicts, rom, seq(0x2000, i => 0), base,
                Table(seq(256, i => Unmapped), seq(256, i => NoAccess))))
  }

  /** setup_default_work_ram: $6000-$7FFF is the base class's RAM, whatever the enable flag says. */
  function MapDefault(m: Mmc3): Mmc3 { m.(table := MapRange(m.table, 0x60, 0x7F, Base(0), ReadWrite)) }

  /** What loading a ROM leaves. */
  function Loaded(rom: PrgRom, base: BaseRam, conflicts: bool): Mmc3 { MapDefault(Initial(rom, base, conflicts)) }

  // ---- the table is a cache of the registers, from $8000 on always, below only after an update ----

  /** The entries from $8000 on are what the registers ask for, and nothing is mapped below $6000. */
  ghost predicate RomCached(m: Mmc3) {
    forall i: u8 :: (i < 0x60 ==> m.table.pages[i] == Unmapped && m.table.access[i] == NoAccess)
      && (i >= 0x80 ==>
        && m.table.pages[i] == Rom(Bank(m, (i - 0x80) / 0x20) % Count(m) * 0x2000 + i % 0x20 * 0x100)
        && m.table.access[i] == ReadWrite)
  }

  /** $6000-$7FFF is the MMC3's work RAM, accessible as its two flags say. */
  ghost predicate WorkCached(m: Mmc3) {
    forall i: u8 :: 0x60 <= i < 0x80 ==>
      m.table.pages[i] == Work((i - 0x60) * 0x100) && m.table.access[i] == WorkAccess(m)
  }

  /** $6000-$7FFF is the base class's RAM. */
  ghost predicate WorkDefault(m: Mmc3) {
    forall i: u8 :: 0x60 <= i < 0x80 ==> m.table.pages[i] == Base((i - 0x60) * 0x100) && m.table.access[i] == ReadWrite
  }

  ghost predicate TableOk(m: Mmc3) { RomCached(m) && (WorkCached(m) || WorkDefault(m)) }

  ghost predicate LowUnmapped(t: Table) {
    forall i: u8 :: i < 0x60 ==> t.pages[i] == Unmapped && t.access[i] == NoAccess
  }

  lemma UpdateCaches(m: Mmc3)
    requires LowUnmapped(m.table)
    ensures RomCached(Update(m)) && WorkCached(Update(m))
  {
    var n := Update(m);
    assert forall s: u2 :: Bank(n, s) == Bank(m, s);
    hide Bank, WorkAccess, MapRange;
  }

  lemma LoadedOk(rom: PrgRom, base: BaseRam, conflicts: bool)
    ensures var m := Loaded(rom, base, conflicts); RomCached(m) && WorkDefault(m) && m.rom == rom && m.base == base
  {
    hide Update, Bank;
    var m := Initial(rom, base, conflicts);
    UpdateCaches(Mmc3(0, false, [0, 2, 4, 5, 6, 7, 0, 1], false, false, conflicts, rom, seq(0x2000, i => 0), base,
                      Table(seq(256, i => Unmapped), seq(256, i => NoAccess))));
    var n := MapDefault(m);
    assert forall s: u2 :: Bank(n, s) == Bank(m, s) by { SameBanks(m, n); }
  }

  lemma SameBanks(m: Mmc3, n: Mmc3)
    requires n == m.(table := n.table, work := n.work, base := n.base)
    ensures forall s: u2 :: Bank(n, s) == Bank(m, s)
  {}

  /** The registers whose writes end in update_state. */
  predicate Remaps(addr: u16) { 0x8000 <= addr < 0xA000 || (0xA000 <= addr < 0xC000 && addr % 2 == 1) }

  lemma RegisterCaches(m: Mmc3, addr: u16, value: u8)
    requires RomCached(m) && addr >= 0x8000
    ensures var n := WriteRegister(m, addr, value);
            && n.rom == m.rom && RomCached(n) && (if Remaps(addr) then WorkCached(n) else n == m)
  {
    hide Bit, Bank, Update, RomCached, WorkCached;
    LowFree(m);
    UpdateCaches(m.(current := value % 8, prgMode := Bit(value, 6)));
    var stored := if m.current <= 1 then value - value % 2 else value;
    UpdateCaches(m.(registers := m.registers[m.current := stored]));
    UpdateCaches(m.(enabled := Bit(value, 7), protect := Bit(value, 6)));
  }

  lemma LowFree(m: Mmc3)
    requires RomCached(m)
    ensures LowUnmapped(m.table)
  {}

  /** A store leaves the table alone, and it cannot reach the ROM: no page below $8000 points there. */
  lemma StoreKeeps(m: Mmc3, addr: u16, value: u8)
    requires TableOk(m) && addr < 0x8000
    ensures var n := WriteRam(m, addr, value); n == m.(work := n.work, base := n.base)
  {
    hide Bank;
    var i: u8 := addr / 0x100;
    assert m.table.pages[i] == m.table.pages[i];
  }

  lemma WriteKeepsTable(m: Mmc3, addr: u16, value: u8)
    requires TableOk(m)
    ensures var n := WriteRam(m, addr, value);
            TableOk(n) && n.rom == m.rom && (WorkCached(n) <==> WorkCached(m) || Remaps(addr))
  {
    hide Bank, WriteRegister, OnBus;
    DefaultNotCached(m);
    DefaultNotCached(WriteRam(m, addr, value));
    if addr >= 0x8000 {
      RegisterCaches(m, addr, OnBus(m, addr, value));
    } else {
      var n := WriteRam(m, addr, value);
      StoreKeeps(m, addr, value);
      SameBanks(m, n);
      hide WriteRam;
    }
  }

  lemma DefaultNotCached(m: Mmc3)
    ensures !(WorkCached(m) && WorkDefault(m))
  {
    var i: u8 := 0x60;
    assert WorkCached(m) ==> m.table.pages[i] == Work(0);
    assert WorkDefault(m) ==> m.table.pages[i] == Base(0);
  }

  /** Writes to anywhere on the CPU bus, in order. */
  function Writes(m: Mmc3, writes: seq<(u16, u8)>): Mmc3
    decreases |writes|
  {
    if writes == [] then m else Writes(WriteRam(m, writes[0].0, writes[0].1), writes[1..])
  }

  /** One of the writes has updated the mapping. */
  predicate Remapped(writes: seq<(u16, u8)>) { exists k :: 0 <= k < |writes| && Remaps(writes[k].0) }

  lemma RemappedCons(writes: seq<(u16, u8)>)
    requires writes != []
    ensures Remapped(writes) <==> Remaps(writes[0].0) || Remapped(writes[1..])
  {
    if Remapped(writes) {
      var k :| 0 <= k < |writes| && Remaps(writes[k].0);
      assert k > 0 ==> writes[1..][k - 1] == writes[k];
    }
    if Remapped(writes[1..]) {
      var k :| 0 <= k < |writes[1..]| && Remaps(writes[1..][k].0);
      assert writes[k + 1] == writes[1..][k];
    }
  }

  lemma {:induction false} WritesKeepTable(m: Mmc3, writes: seq<(u16, u8)>)
    requires TableOk(m)
    ensures var n := Writes(m, writes);
            TableOk(n) && n.rom == m.rom && (WorkCached(n) <==> WorkCached(m) || Remapped(writes))
    decreases |writes|
  {
    hide WriteRam, WorkCached, TableOk, Remaps;
    if writes != [] {
      RemappedCons(writes);
      WriteKeepsTable(m, writes[0].0, writes[0].1);
      WritesKeepTable(WriteRam(m, writes[0].0, writes[0].1), writes[1..]);
    }
  }

  /** After a load and any writes PRG ROM is as it was loaded. The table is the registers' from $8000 on; at
      $6000-$7FFF it is theirs if and only if one of the writes went to $8000-$9FFF or to an odd address in
      $A000-$BFFF. Until then $6000-$7FFF is the base class's RAM. */
  lemma TableExactlyWhen(rom: PrgRom, base: BaseRam, conflicts: bool, writes: seq<(u16, u8)>)
    ensures var m := Writes(Loaded(rom, base, conflicts), writes);
            && m.rom == rom && RomCached(m)
            && (WorkCached(m) <==> Remapped(writes)) && (WorkDefault(m) <==> !Remapped(writes))
  {
    hide Writes, Loaded, RomCached, WorkCached, WorkDefault, Remapped;
    var m := Loaded(rom, base, conflicts);
    LoadedOk(rom, base, conflicts);
    DefaultNotCached(m);
    WritesKeepTable(m, writes);
    DefaultNotCached(Writes(m, writes));
  }

  /** After a load and any writes, a read from $8000 on gives the byte of PRG ROM, as loaded, in the bank that the mode
      and registers 6 and 7 select for its slot, taken modulo the ROM's size. */
  lemma ReadsFollowRegisters(rom: PrgRom, base: BaseRam, conflicts: bool, writes: seq<(u16, u8)>, addr: u16,
                             openBus: u8)
    requires addr >= 0x8000
    ensures var m := Writes(Loaded(rom, base, conflicts), writes);
            var at := Bank(m, (addr - 0x8000) / 0x2000) % Count(m) * 0x2000 + addr % 0x2000;
            at < |rom| && ReadRam(m, addr, openBus) == rom[at]
  {
    hide Writes, Loaded, Bank, RomCached, WorkCached, WorkDefault, Remapped;
    TableExactlyWhen(rom, base, conflicts, writes);
    CachedRead(Writes(Loaded(rom, base, conflicts), writes), addr, openBus);
  }

  lemma CachedRead(m: Mmc3, addr: u16, openBus: u8)
    requires RomCached(m) && addr >= 0x8000
    ensures var at := Bank(m, (addr - 0x8000) / 0x2000) % Count(m) * 0x2000 + addr % 0x2000;
            at < |m.rom| && ReadRam(m, addr, openBus) == m.rom[at]
  {
    hide Bank;
    var i: u8 := addr / 0x100;
    assert m.table.access[i] == ReadWrite;
    assert (i - 0x80) / 0x20 == (addr - 0x8000) / 0x2000 && i % 0x20 * 0x100 + addr % 0x100 == addr % 0x2000;
    BankInRom(Bank(m, (i - 0x80) / 0x20), Count(m), addr % 0x2000);
  }

  lemma BankInRom(bank: u16, count: PageCount, low: nat)
    requires low < 0x2000
    ensures bank % count * 0x2000 + low < count * 0x2000
  {
    var b := bank % count;
    assert (count - 1 - b) * 0x2000 >= 0;
  }

  /** $E000 always shows bank 65535 modulo the page count; that is the last bank exactly when the page count
      divides 65536, as every power of two does. */
  lemma LastBankFixed(m: Mmc3)
    ensures Bank(m, 3) % Count(m) == Count(m) - 1 <==> 0x10000 % Count(m) == 0
  {
    var count: int := Count(m);
    var q, r := 0xFFFF / count, 0xFFFF % count;
    assert 0xFFFF == q * count + r;
    if r == count - 1 {
      assert (q + 1) * count == q * count + count;
      DivideUnique(0x10000, count, q + 1, 0);
    } else {
      DivideUnique(0x10000, count, q, r + 1);
    }
  }

  /** With twelve pages $E000 shows the fourth, and not the last. */
  lemma LastBankMissed(rom: PrgRom, base: BaseRam, conflicts: bool, writes: seq<(u16, u8)>, low: nat, openBus: u8)
    requires |rom| == 12 * 0x2000 && low < 0x2000
    ensures ReadRam(Writes(Loaded(rom, base, conflicts), writes), 0xE000 + low, openBus) == rom[3 * 0x2000 + low]
  {
    hide Writes, Loaded, ReadRam;
    TableExactlyWhen(rom, base, conflicts, writes);
    ReadsFollowRegisters(rom, base, conflicts, writes, 0xE000 + low, openBus);
  }

  /** $6000-$7FFF after a load and any writes. Once the mapping has been updated, it is work RAM, seen when enabled and
      changed only when not write-protected. Until then it is the base class's RAM, seen and changed in any case. */
  lemma WorkRamExactlyWhen(rom: PrgRom, base: BaseRam, conflicts: bool, writes: seq<(u16, u8)>, addr: u16, value: u8,
                           openBus: u8)
    requires 0x6000 <= addr < 0x8000
    ensures var m := Writes(Loaded(rom, base, conflicts), writes);
            var n, at := WriteRam(m, addr, value), addr - 0x6000;
            if Remapped(writes) then
              && ReadRam(m, addr, openBus) == (if m.enabled then m.work[at] else openBus)
              && n == if m.enabled && !m.protect then m.(work := m.work[at := value]) else m
            else ReadRam(m, addr, openBus) == m.base[at] && n == m.(base := m.base[at := value])
  {
    hide Writes, Loaded, Bank, RomCached, Remapped;
    TableExactlyWhen(rom, base, conflicts, writes);
    var i: u8 := addr / 0x100;
    var m := Writes(Loaded(rom, base, conflicts), writes);
    assert m.table.pages[i] == (if Remapped(writes) then Work((i - 0x60) * 0x100) else Base((i - 0x60) * 0x100));
  }

  /** Right after a load the work RAM is disabled, and yet a write to $6000 sticks and can be read back. */
  lemma LoadIgnoresGuard(rom: PrgRom, base: BaseRam, conflicts: bool, value: u8, openBus: u8)
    ensures var m := Loaded(rom, base, conflicts);
            !m.enabled && !WorkCached(m) && ReadRam(WriteRam(m, 0x6000, value), 0x6000, openBus) == value
  {
    var m := Loaded(rom, base, conflicts);
    assert !m.enabled && Writes(m, []) == m;
    hide Loaded, WriteRam, Writes, WorkCached, ReadRam;
    LoadedOk(rom, base, conflicts);
    DefaultNotCached(m);
    WorkRamExactlyWhen(rom, base, conflicts, [], 0x6000, value, openBus);
    var n := WriteRam(m, 0x6000, value);
    assert n.table == m.table && n.base[0] == value;
    DefaultRead(n, openBus);
  }

  lemma DefaultRead(m: Mmc3, openBus: u8)
    requires WorkDefault(m)
    ensures ReadRam(m, 0x6000, openBus) == m.base[0]
  {
    var i: u8 := 0x60;
    assert m.table.pages[i] == Base(0) && m.table.access[i] == ReadWrite;
  }
}
