/** Bytes as numbers and as bits. */
module ByteBits {
  lemma ByteBack(a: int)
    requires 0 <= a < 0x100
    ensures (a as bv8) as int == a
  {}

  lemma BitsBack(b: bv8)
    ensures b as int < 0x100 && (b as int) as bv8 == b
  {}

  /** Bit k of a byte. */
  function Digit(byte: int, k: int): (r: int)
    requires 0 <= byte < 0x100 && 0 <= k < 8
    ensures r == 0 || r == 1
  {
    byte / (if k == 0 then 1 else if k == 1 then 2 else if k == 2 then 4 else if k == 3 then 8 else if k == 4 then 16
            else if k == 5 then 32 else if k == 6 then 64 else 128) % 2
  }

  /** a & b */
  function And(a: int, b: int): (r: int)
    requires a >= 0 && b >= 0
    ensures 0 <= r <= a && r <= b
    decreases a
  {
    if a == 0 || b == 0 then 0 else (if a % 2 == b % 2 == 1 then 1 else 0) + 2 * And(a / 2, b / 2)
  }
}
