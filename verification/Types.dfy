/** Machine integers of the emulator, as ranges. Wrap-around is written out where it can happen. */
module Types {
  type u2 = x: int | 0 <= x < 4
  type u3 = x: int | 0 <= x < 8
  type u4 = x: int | 0 <= x < 16
  type u5 = x: int | 0 <= x < 32
  type u6 = x: int | 0 <= x < 64
  type u7 = x: int | 0 <= x < 128
  type u8 = x: int | 0 <= x < 0x100
  type u11 = x: int | 0 <= x < 0x800
  type u12 = x: int | 0 <= x < 0x1000
  type u16 = x: int | 0 <= x < 0x10000
  type u32 = x: int | 0 <= x < 0x1_0000_0000
  type u64 = x: int | 0 <= x < 0x1_0000_0000_0000_0000
  type i8 = x: int | -128 <= x < 128
  type i16 = x: int | -0x8000 <= x < 0x8000

  type Bytes = seq<u8>

  /** A value stored in 16 signed bits. */
  function Wrap16(x: int): i16 { (x + 0x8000) % 0x10000 - 0x8000 }

  /** How far cell `cell` of a 256-byte memory is from `at`, going up and around. */
  function Offset(at: u8, cell: u8): u8 { if cell >= at then cell - at else cell + 0x100 - at }

  // Bit k of a register value.
  predicate Bit(value: u8, k: u3) {
    value / [1, 2, 4, 8, 16, 32, 64, 128][k] % 2 == 1
  }

  datatype Option<+T> = None | Some(value: T)
}
