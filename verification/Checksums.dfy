/** The CRC-32 of section 8 of RFC 1952 and the 64-bit content identity, as computed by src/core/ear6.cpp. */
module Checksums {
  import opened Arithmetic
  import opened ByteBits
  import opened Types

  /** t is s with exactly one byte changed. */
  ghost predicate OneByteEdit(s: Bytes, t: Bytes, i: nat) {
    |s| == |t| && i < |s| && s[i] != t[i] && forall j :: 0 <= j < |s| && j != i ==> s[j] == t[j]
  }

  lemma SameByte(a: u8, b: u8)
    ensures a as bv8 == b as bv8 <==> a == b
  {
    ByteBack(a);
    ByteBack(b);
  }

  // ---- CRC-32 ----

  const POLYNOMIAL: bv32 := 0xEDB88320

  function CrcBit(crc: bv32): bv32 { (crc >> 1) ^ (POLYNOMIAL & (0 - (crc & 1))) }

  function CrcBits(crc: bv32, n: nat): bv32 { if n == 0 then crc else CrcBit(CrcBits(crc, n - 1)) }

  function MixByte(crc: bv32, byte: u8): bv32 { crc ^ ((byte as bv8) as bv32) }

  function CrcByte(crc: bv32, byte: u8): bv32 { CrcBits(MixByte(crc, byte), 8) }

  function CrcRun(crc: bv32, s: Bytes): bv32
    decreases |s|
  {
    if s == [] then crc else CrcByte(CrcRun(crc, s[..|s| - 1]), s[|s| - 1])
  }

  function Crc(s: Bytes): bv32 { !CrcRun(0xFFFF_FFFF, s) }

  /** A step loses nothing: the polynomial's top bit tells which bit was shifted out. */
  lemma CrcBitInjective(a: bv32, b: bv32)
    requires CrcBit(a) == CrcBit(b)
    ensures a == b
  {}

  lemma {:induction false} CrcBitsInjective(a: bv32, b: bv32, n: nat)
    requires CrcBits(a, n) == CrcBits(b, n)
    ensures a == b
  {
    hide CrcBit;
    if n > 0 {
      CrcBitInjective(CrcBits(a, n - 1), CrcBits(b, n - 1));
      CrcBitsInjective(a, b, n - 1);
    }
  }

  lemma MixByteInjective(a: bv32, b: bv32, x: u8, y: u8)
    requires MixByte(a, x) == MixByte(b, y)
    ensures a == b <==> x == y
  {
    XorInjective(a, b, x as bv8, y as bv8);
    SameByte(x, y);
  }

  lemma XorInjective(a: bv32, b: bv32, x: bv8, y: bv8)
    requires a ^ (x as bv32) == b ^ (y as bv32)
    ensures a == b <==> x == y
  {}

  /** A byte step is a bijection on states, and tells bytes apart. */
  lemma CrcByteInjective(a: bv32, b: bv32, x: u8, y: u8)
    requires CrcByte(a, x) == CrcByte(b, y)
    ensures a == b <==> x == y
  {
    hide CrcBits, MixByte;
    CrcBitsInjective(MixByte(a, x), MixByte(b, y), 8);
    MixByteInjective(a, b, x, y);
  }

  lemma {:induction false} EditChangesRun(s: Bytes, t: Bytes, i: nat)
    requires OneByteEdit(s, t, i)
    ensures CrcRun(0xFFFF_FFFF, s) != CrcRun(0xFFFF_FFFF, t)
    decreases |s|
  {
    hide CrcByte;
    var a, b := s[..|s| - 1], t[..|t| - 1];
    if i < |s| - 1 { EditChangesRun(a, b, i); } else { assert a == b; }
    if CrcRun(0xFFFF_FFFF, s) == CrcRun(0xFFFF_FFFF, t) {
      CrcByteInjective(CrcRun(0xFFFF_FFFF, a), CrcRun(0xFFFF_FFFF, b), s[|s| - 1], t[|t| - 1]);
    }
  }

  lemma EditChangesCrc(s: Bytes, t: Bytes, i: nat)
    requires OneByteEdit(s, t, i)
    ensures Crc(s) != Crc(t)
  {
    EditChangesRun(s, t, i);
    NotInjective(CrcRun(0xFFFF_FFFF, s), CrcRun(0xFFFF_FFFF, t));
  }

  lemma NotInjective(a: bv32, b: bv32)
    requires a != b
    ensures !a != !b
  {}

  // ---- content identity ----

  const PRIME := 1099511628211
  const MODULUS := 0x1_0000_0000_0000_0000

  function XorBits(a: bv8, b: bv8): bv8 { a ^ b }

  function Xor8(a: u8, b: u8): u8 {
    hide XorBits;
    BitsBack(XorBits(a as bv8, b as bv8));
    XorBits(a as bv8, b as bv8) as int
  }

  /** Only the low eight bits take part. */
  function MixIdentity(identity: u64, byte: u8): u64 {
    hide Xor8;
    identity / 256 * 256 + Xor8(identity % 256, byte)
  }

  function TimesPrime(identity: u64): u64 { identity * PRIME % MODULUS }

  function IdentityByte(identity: u64, byte: u8): u64 { TimesPrime(MixIdentity(identity, byte)) }

  function Identity(s: Bytes): u64
    decreases |s|
  {
    if s == [] then 1469598103934665603 else IdentityByte(Identity(s[..|s| - 1]), s[|s| - 1])
  }

  const INVERSE := 14886173955864302971
  const QUOTIENT := 887285111055

  /** The multiplier is odd, so it has an inverse modulo 2^64. */
  lemma TimesInverse(x: u64)
    ensures TimesPrime(x) * INVERSE % MODULUS == x
  {
    var q := x * PRIME / MODULUS;
    assert PRIME * INVERSE == 1 + QUOTIENT * MODULUS;
    assert TimesPrime(x) * INVERSE == (x * QUOTIENT - q * INVERSE) * MODULUS + x;
    DivideUnique(TimesPrime(x) * INVERSE, MODULUS, x * QUOTIENT - q * INVERSE, x);
  }

  lemma TimesPrimeInjective(a: u64, b: u64)
    requires TimesPrime(a) == TimesPrime(b)
    ensures a == b
  {
    hide TimesPrime;
    TimesInverse(a);
    TimesInverse(b);
  }

  lemma Xor8Injective(a: u8, b: u8, x: u8, y: u8)
    requires Xor8(a, x) == Xor8(b, y)
    ensures a == b <==> x == y
  {
    hide XorBits;
    SameByte(a, b);
    SameByte(x, y);
    BitsBack(XorBits(a as bv8, x as bv8));
    BitsBack(XorBits(b as bv8, y as bv8));
    XorBitsInjective(a as bv8, b as bv8, x as bv8, y as bv8);
  }

  lemma XorTwice(a: bv8, x: bv8)
    ensures XorBits(XorBits(a, x), x) == a && XorBits(XorBits(a, x), a) == x
  {}

  lemma XorBitsInjective(a: bv8, b: bv8, x: bv8, y: bv8)
    requires XorBits(a, x) == XorBits(b, y)
    ensures a == b <==> x == y
  {
    hide XorBits;
    XorTwice(a, x);
    XorTwice(b, y);
  }

  lemma IdentityByteInjective(a: u64, b: u64, x: u8, y: u8)
    requires IdentityByte(a, x) == IdentityByte(b, y)
    ensures a == b <==> x == y
  {
    hide TimesPrime, Xor8;
    TimesPrimeInjective(MixIdentity(a, x), MixIdentity(b, y));
    Xor8Injective(a % 256, b % 256, x, y);
  }

  /** Two contents of one length that differ in exactly one byte have different identities. */
  lemma {:induction false} EditChangesIdentity(s: Bytes, t: Bytes, i: nat)
    requires OneByteEdit(s, t, i)
    ensures Identity(s) != Identity(t)
    decreases |s|
  {
    hide IdentityByte;
    var a, b := s[..|s| - 1], t[..|t| - 1];
    if i < |s| - 1 { EditChangesIdentity(a, b, i); } else { assert a == b; }
    if Identity(s) == Identity(t) { IdentityByteInjective(Identity(a), Identity(b), s[|s| - 1], t[|t| - 1]); }
  }

  // ---- the loops ----

  method Crc32(data: Bytes) returns (result: bv32)
    ensures result == Crc(data)
  {
    hide CrcBit, MixByte;
    var crc: bv32 := 0xFFFF_FFFF;
    var i := 0;
    while i < |data|
      invariant i <= |data| && crc == CrcRun(0xFFFF_FFFF, data[..i])
    {
      assert data[..i + 1][..i] == data[..i];
      crc := MixByte(crc, data[i]);
      ghost var mixed := crc;
      var bit := 0;
      while bit < 8
        invariant 0 <= bit <= 8 && crc == CrcBits(mixed, bit)
      {
        crc := CrcBit(crc);
        bit := bit + 1;
      }
      i := i + 1;
    }
    assert data[..|data|] == data;
    result := !crc;
  }

  method ContentIdentity(data: Bytes) returns (identity: u64)
    ensures identity == Identity(data)
  {
    hide TimesPrime, MixIdentity;
    identity := 1469598103934665603;
    var i := 0;
    while i < |data|
      invariant i <= |data| && identity == Identity(data[..i])
    {
      assert data[..i + 1][..i] == data[..i];
      identity := MixIdentity(identity, data[i]);
      identity := TimesPrime(identity);
      i := i + 1;
    }
    assert data[..|data|] == data;
  }
}
