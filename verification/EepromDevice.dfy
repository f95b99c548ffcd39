/** The 24C02 as the source writes it (src/systems/nes/mappers/eeprom_24c0x.h). */
module EepromDevice {
  import opened Types
  import opened EepromModel

  class Eeprom24C02 {
    var mode: Mode
    var nextMode: Mode
    var chipAddress: u8
    var address: u8
    var data: u8
    var counter: Count
    var output: bool
    var prevScl: bool
    var prevSda: bool
    const romData: array<u8>

    ghost predicate Valid()
      reads this
    {
      romData.Length == 256
    }

    ghost function State(): Chip
      requires Valid()
      reads this, romData
    {
      Chip(mode, nextMode, chipAddress, address, data, counter, output, prevScl, prevSda, romData[..])
    }

    constructor ()
      ensures Valid() && fresh(romData)
      ensures State() == Chip(Idle, Idle, 0, 0, 0, 0, false, false, false, seq(256, i => 0))
    {
      mode, nextMode, chipAddress, address, data, counter := Idle, Idle, 0, 0, 0, 0;
      output, prevScl, prevSda := false, false, false;
      romData := new u8[256](i => 0);
      new;
      assert romData[..] == seq(256, i => 0);
    }

    /** The clock line rises. */
    method RisingEdge(sda: bool)
      requires Valid()
      modifies this
      ensures Valid() && State() == Rise(old(State()), sda)
    {
      hide SetBit, BitAt;
      match mode {
        case ChipAddress =>
          if counter < 8 {
            chipAddress := SetBit(chipAddress, counter, sda);
            counter := counter + 1;
          }
        case Address =>
          if counter < 8 {
            address := SetBit(address, counter, sda);
            counter := counter + 1;
          }
        case Read =>
          if counter < 8 {
            output := BitAt(data, counter);
            counter := counter + 1;
          }
        case Write =>
          if counter < 8 {
            data := SetBit(data, counter, sda);
            counter := counter + 1;
          }
        case SendAck => output := false;
        case WaitAck =>
          if !sda {
            nextMode := Read;
            data := romData[address];
          }
        case Idle =>
      }
    }

    /** The clock line falls. */
    method FallingEdge()
      requires Valid()
      modifies this, romData
      ensures Valid() && State() == Fall(old(State()))
    {
      hide BitAt, Selected;
      match mode {
        case ChipAddress =>
          if counter == 8 {
            counter := 0;
            output := true;
            if Selected(chipAddress) {
              mode := SendAck;
              if BitAt(chipAddress, 7) {
                nextMode := Read;
                data := romData[address];
              } else {
                nextMode := Address;
              }
            } else {
              mode := Idle;
            }
          }
        case Address =>
          if counter == 8 {
            counter := 0;
            mode := SendAck;
            nextMode := Write;
            output := true;
          }
        case Read =>
          if counter == 8 {
            mode := WaitAck;
            address := (address + 1) % 0x100;
          }
        case Write =>
          if counter == 8 {
            counter := 0;
            mode := SendAck;
            nextMode := Write;
            romData[address] := data;
            address := (address + 1) % 0x100;
          }
        case SendAck =>
          mode := nextMode;
          counter := 0;
          output := true;
        case WaitAck =>
          mode := nextMode;
          counter := 0;
          output := true;
        case Idle =>
      }
    }

    method WriteLines(scl: bool, sda: bool)
      requires Valid()
      modifies this, romData
      ensures Valid() && State() == Lines(old(State()), scl, sda)
    {
      hide Rise, Fall;
      if prevScl && scl && !sda && prevSda {
        mode := ChipAddress;
        counter := 0;
        output := true;
      } else if prevScl && scl && sda && !prevSda {
        mode := Idle;
        output := true;
      } else if scl && !prevScl {
        RisingEdge(sda);
      } else if !scl && prevScl {
        FallingEdge();
      }
      prevScl := scl;
      prevSda := sda;
    }

    method WriteScl(scl: bool)
      requires Valid()
      modifies this, romData
      ensures Valid() && State() == Lines(old(State()), scl, old(prevSda))
    {
      WriteLines(scl, prevSda);
    }

    method WriteSda(sda: bool)
      requires Valid()
      modifies this, romData
      ensures Valid() && State() == Lines(old(State()), old(prevScl), sda)
    {
      WriteLines(prevScl, sda);
    }

    method ReadOutput() returns (bit: bool)
      requires Valid()
      ensures bit == State().output
    {
      bit := output;
    }
  }
}
