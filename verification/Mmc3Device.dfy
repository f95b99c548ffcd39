/** The MMC3 as the source writes it: registers, and page tables filled by loops
    (src/systems/nes/mappers/mapper_004.cpp, src/systems/nes/mappers/base_mapper.cpp). */
module Mmc3Device {
  import opened ByteBits
  import opened Mmc3Mapper
  import opened Types

  class Mapper004 {
    const hasBusConflicts: bool
    const prgRom: array<u8>
    const prgPages: array<Page>
    const prgMemoryAccess: array<MemoryAccess>
    /** The MMC3's own work RAM, and the work or save RAM of its base class. */
    const workRam: array<u8>
    const baseRam: array<u8>
    var currentRegister: u3
    var prgMode: bool
    var registers: Registers
    var wramEnabled: bool
    var wramWriteProtected: bool

    ghost predicate Valid()
      reads this
    {
      && prgRom.Length % 0x2000 == 0 && 0 < prgRom.Length <= 0x8000 * 0x2000
      && prgPages.Length == 256 && prgMemoryAccess.Length == 256 && workRam.Length == 0x2000
      && baseRam.Length >= 0x2000 && prgRom != workRam && prgRom != baseRam && workRam != baseRam
    }

    function PageTotal(): PageCount
      requires Valid()
      reads this
    {
      prgRom.Length / 0x2000
    }

    ghost function TableState(): Table
      requires Valid()
      reads this, prgPages, prgMemoryAccess
    {
      Table(prgPages[..], prgMemoryAccess[..])
    }

    ghost function State(): Mmc3
      requires Valid()
      reads this, prgRom, prgPages, prgMemoryAccess, workRam, baseRam
    {
      Mmc3(currentRegister, prgMode, registers, wramEnabled, wramWriteProtected, hasBusConflicts, prgRom[..],
           workRam[..], baseRam[..], TableState())
    }

    /** What load_rom does with a fresh object: init, then setup_default_work_ram. `base` is what the base class's RAM
        holds by then, a trainer included. */
    constructor (rom: PrgRom, base: BaseRam, conflicts: bool)
      ensures Valid() && State() == Loaded(rom, base, conflicts)
      ensures fresh(prgRom) && fresh(prgPages) && fresh(prgMemoryAccess) && fresh(workRam) && fresh(baseRam)
    {
      hasBusConflicts := conflicts;
      prgRom := new u8[|rom|](i requires 0 <= i < |rom| => rom[i]);
      baseRam := new u8[|base|](i requires 0 <= i < |base| => base[i]);
      prgPages := new Page[256](i => Unmapped);
      prgMemoryAccess := new MemoryAccess[256](i => NoAccess);
      workRam := new u8[0x2000](i => 0);
      currentRegister, prgMode, registers := 0, false, [0, 2, 4, 5, 6, 7, 0, 1];
      wramEnabled, wramWriteProtected := false, false;
      new;
      hide Update, MapRange;
      assert prgPages[..] == seq(256, i => Unmapped) && prgMemoryAccess[..] == seq(256, i => NoAccess);
      assert prgRom[..] == rom && baseRam[..] == base && workRam[..] == seq(0x2000, i => 0);
      UpdateState();
      SetupDefaultWorkRam();
    }

    method SetCpuMemoryMapping(first: u8, last: u8, source: Page, access: MemoryAccess)
      requires Valid()
      modifies prgPages, prgMemoryAccess
      ensures TableState() == MapRange(old(TableState()), first, last, source, access)
    {
      var i: int := first;
      while i <= last
        invariant first <= i <= 256 && (i <= last + 1 || i == first)
        invariant forall j: u8 :: prgPages[j] == if first <= j < i then After(source, j - first) else old(prgPages[j])
        invariant forall j: u8 :: prgMemoryAccess[j] == if first <= j < i then access else old(prgMemoryAccess[j])
      {
        prgPages[i] := After(source, i - first);
        prgMemoryAccess[i] := access;
        i := i + 1;
      }
      ghost var t := MapRange(old(TableState()), first, last, source, access);
      assert forall j: u8 :: prgPages[..][j] == t.pages[j] && prgMemoryAccess[..][j] == t.access[j];
      assert prgPages[..] == t.pages && prgMemoryAccess[..] == t.access;
    }

    method SetupDefaultWorkRam()
      requires Valid()
      modifies prgPages, prgMemoryAccess
      ensures State() == MapDefault(old(State()))
    {
      hide MapRange;
      SetCpuMemoryMapping(0x60, 0x7F, Base(0), ReadWrite);
    }

    method SelectPrgPage(slot: u2, page: u16)
      requires Valid()
      modifies prgPages, prgMemoryAccess
      ensures TableState() == Select(old(TableState()), slot, page, PageTotal())
    {
      SetCpuMemoryMapping(0x80 + slot * 0x20, 0x9F + slot * 0x20, Rom(page % PageTotal() * 0x2000), ReadWrite);
    }

    method UpdatePrgMapping()
      requires Valid()
      modifies prgPages, prgMemoryAccess
      ensures State() == old(State()).(table := SelectAll(old(TableState()), old(State())))
    {
      hide Select;
      if !prgMode {
        SelectPrgPage(0, registers[6]);
        SelectPrgPage(1, registers[7]);
        SelectPrgPage(2, 0xFFFE);
        SelectPrgPage(3, 0xFFFF);
      } else {
        SelectPrgPage(0, 0xFFFE);
        SelectPrgPage(1, registers[7]);
        SelectPrgPage(2, registers[6]);
        SelectPrgPage(3, 0xFFFF);
      }
    }

    method UpdateState()
      requires Valid()
      modifies prgPages, prgMemoryAccess
      ensures State() == Update(old(State()))
    {
      hide SelectAll, MapRange;
      var access := if wramEnabled then (if !wramWriteProtected then ReadWrite else ReadOnly) else NoAccess;
      SetCpuMemoryMapping(0x60, 0x7F, Work(0), access);
      SameSelection(old(State()), State());
      UpdatePrgMapping();
    }

    method WriteRegisterValue(addr: u16, value: u8)
      requires Valid() && addr >= 0x8000
      modifies this, prgPages, prgMemoryAccess
      ensures State() == WriteRegister(old(State()), addr, value)
    {
      hide Update, Bit;
      var odd := addr % 2 == 1;
      if addr < 0xA000 {
        if !odd {
          currentRegister := value % 8;
          prgMode := Bit(value, 6);
        } else {
          registers := registers[currentRegister := if currentRegister <= 1 then value - value % 2 else value];
        }
        UpdateState();
      } else if addr < 0xC000 && odd {
        wramEnabled := Bit(value, 7);
        wramWriteProtected := Bit(value, 6);
        UpdateState();
      }
    }

    /** The byte that an address's page pointer leads to. */
    method Follow(addr: u16) returns (byte: Option<u8>)
      requires Valid()
      ensures byte == Pointed(State(), addr)
    {
      var low := addr % 0x100;
      match prgPages[addr / 0x100] {
        case Unmapped => byte := None;
        case Rom(o) => byte := if o + low < prgRom.Length then Some(prgRom[o + low]) else None;
        case Work(o) => byte := if o + low < workRam.Length then Some(workRam[o + low]) else None;
        case Base(o) => byte := if o + low < baseRam.Length then Some(baseRam[o + low]) else None;
      }
    }

    /** write_ram: below $8000 the byte goes to wherever the page pointer leads, PRG ROM included. */
    method WriteRamValue(addr: u16, value: u8)
      requires Valid()
      modifies this, prgRom, prgPages, prgMemoryAccess, workRam, baseRam
      ensures State() == WriteRam(old(State()), addr, value)
    {
      hide WriteRegister;
      if addr >= 0x8000 {
        var driven := value;
        if hasBusConflicts {
          var byte := Follow(addr);
          if byte.Some? { driven := And(value, byte.value); }
        }
        WriteRegisterValue(addr, driven);
      } else if prgMemoryAccess[addr / 0x100].ReadWrite? {
        StoreByte(addr, value);
      }
    }

    method StoreByte(addr: u16, value: u8)
      requires Valid()
      modifies prgRom, workRam, baseRam
      ensures State() == Store(old(State()), addr, value)
    {
      var low := addr % 0x100;
      match prgPages[addr / 0x100] {
        case Unmapped =>
        case Rom(o) => if o + low < prgRom.Length { prgRom[o + low] := value; }
        case Work(o) => if o + low < workRam.Length { workRam[o + low] := value; }
        case Base(o) => if o + low < baseRam.Length { baseRam[o + low] := value; }
      }
      assert prgPages[addr / 0x100].Rom? ==> prgRom[..] == Store(old(State()), addr, value).rom;
      assert prgPages[addr / 0x100].Work? ==> workRam[..] == Store(old(State()), addr, value).work;
      assert prgPages[addr / 0x100].Base? ==> baseRam[..] == Store(old(State()), addr, value).base;
    }

    method ReadRamValue(addr: u16, openBus: u8) returns (value: u8)
      requires Valid()
      ensures value == ReadRam(State(), addr, openBus)
    {
      value := openBus;
      if !prgMemoryAccess[addr / 0x100].NoAccess? {
        var byte := Follow(addr);
        if byte.Some? { value := byte.value; }
      }
    }
  }

  lemma SameSelection(m: Mmc3, n: Mmc3)
    requires m == n.(table := m.table)
    ensures forall t: Table :: SelectAll(t, m) == SelectAll(t, n)
  {}
}
