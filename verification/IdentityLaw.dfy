/** The content identity byte by byte: each step can be undone, and only then. */
module IdentityLaw {
  import opened ByteBits
  import opened Checksums
  import opened CrcPolynomial
  import opened Types

  lemma MaskXorLow(a: bv8, b: bv8)
    ensures Has(XorBits(a, b), 1) == (Has(a, 1) != Has(b, 1))
    ensures Has(XorBits(a, b), 2) == (Has(a, 2) != Has(b, 2))
    ensures Has(XorBits(a, b), 4) == (Has(a, 4) != Has(b, 4))
    ensures Has(XorBits(a, b), 8) == (Has(a, 8) != Has(b, 8))
  {}

  lemma MaskXorHigh(a: bv8, b: bv8)
    ensures Has(XorBits(a, b), 16) == (Has(a, 16) != Has(b, 16))
    ensures Has(XorBits(a, b), 32) == (Has(a, 32) != Has(b, 32))
    ensures Has(XorBits(a, b), 64) == (Has(a, 64) != Has(b, 64))
    ensures Has(XorBits(a, b), 128) == (Has(a, 128) != Has(b, 128))
  {}

  lemma MaskXor(a: bv8, b: bv8, k: u3)
    ensures Masked(XorBits(a, b), k) == (Masked(a, k) != Masked(b, k))
  {
    MaskXorLow(a, b);
    MaskXorHigh(a, b);
    hide XorBits, Has;
  }

  lemma XorDigits(a: u8, b: u8, k: u3)
    ensures Digit(Xor8(a, b), k) == (Digit(a, k) + Digit(b, k)) % 2
  {
    hide Masked, XorBits, Digit;
    ByteBack(a);
    ByteBack(b);
    MaskXor(a as bv8, b as bv8, k);
    MaskDigit(a as bv8, k);
    MaskDigit(b as bv8, k);
    MaskDigit(XorBits(a as bv8, b as bv8), k);
  }

  /** Dividing by the prime 1099511628211 modulo 2^64, as multiplying by its inverse. */
  function Unmultiplied(identity: u64): u64 { identity * 14886173955864302971 % 0x1_0000_0000_0000_0000 }

  lemma Unmultiplies(x: u64)
    ensures Unmultiplied(TimesPrime(x)) == x
    ensures 1099511628211 * 14886173955864302971 % 0x1_0000_0000_0000_0000 == 1
  {
    hide TimesPrime;
    TimesInverse(x);
  }

  lemma IdentityNext(s: Bytes, byte: u8)
    ensures Identity(s + [byte]) == TimesPrime(MixIdentity(Identity(s), byte))
  {
    assert (s + [byte])[..|s|] == s;
    hide MixIdentity, TimesPrime;
  }

  lemma MixParts(identity: u64, byte: u8)
    ensures MixIdentity(identity, byte) / 256 == identity / 256
    ensures MixIdentity(identity, byte) % 256 == Xor8(identity % 256, byte)
  {
    hide Xor8;
  }

  /** The identity of no content is the constant it starts from. A byte more changes it by the bits of that byte, in its
      low eight bits, and multiplies it by the prime. */
  lemma IdentityStep(s: Bytes, byte: u8, k: u3)
    ensures Identity([]) == 1469598103934665603
    ensures var before, mixed := Identity(s), Unmultiplied(Identity(s + [byte]));
            && mixed / 256 == before / 256
            && Digit(mixed % 256, k) == (Digit(before % 256, k) + Digit(byte, k)) % 2
  {
    hide Xor8, Digit, TimesPrime, MixIdentity, Unmultiplied;
    MixParts(Identity(s), byte);
    IdentityNext(s, byte);
    Unmultiplies(MixIdentity(Identity(s), byte));
    XorDigits(Identity(s) % 256, byte, k);
  }

  // ---- the constant it starts from ----

  /** The 64-bit FNV-1a hash, whose offset basis is 14695981039346656037. */
  function Fnv1a(s: Bytes): u64
    decreases |s|
  {
    if s == [] then 14695981039346656037 else IdentityByte(Fnv1a(s[..|s| - 1]), s[|s| - 1])
  }

  /** The program starts from another number, its last digit being missing, and the steps keep different numbers apart:
      the identity is not the FNV-1a hash of any content. */
  lemma {:induction false} NeverFnv1a(s: Bytes)
    ensures Identity(s) != Fnv1a(s)
    decreases |s|
  {
    hide IdentityByte;
    if s != [] {
      NeverFnv1a(s[..|s| - 1]);
      var byte := s[|s| - 1];
      if Identity(s) == Fnv1a(s) {
        IdentityByteInjective(Identity(s[..|s| - 1]), Fnv1a(s[..|s| - 1]), byte, byte);
      }
    }
  }
}
