/** What a CRC is: the remainder of the message, taken as a polynomial over the integers modulo 2. A polynomial is given
    by telling for every exponent whether it occurs. */
module CrcPolynomial {
  import opened Arithmetic
  import opened ByteBits
  import opened Checksums
  import opened Types

  /** x^32 + x^26 + x^23 + x^22 + x^16 + x^12 + x^11 + x^10 + x^8 + x^7 + x^5 + x^4 + x^2 + x + 1 */
  predicate Generator(e: int) {
    e == 32 || e == 26 || e == 23 || e == 22 || e == 16 || e == 12 || e == 11 || e == 10 || e == 8 || e == 7 || e == 5
    || e == 4 || e == 2 || e == 1 || e == 0
  }

  /** The generator times the sum of the powers of x that q lists. */
  predicate Product(q: seq<nat>, e: int) { q != [] && Generator(e - q[0]) != Product(q[1..], e) }

  /** The message: its bits in the order they are sent, the least significant one of each byte first, and the first one
      with the highest power. */
  predicate Message(s: Bytes, e: int) { 0 <= e < 8 * |s| && Digit(s[|s| - 1 - e / 8], 7 - e % 8) == 1 }

  /** The message with 32 zero bits after it, its first 32 bits complemented. */
  predicate Dividend(s: Bytes, e: int) { Message(s, e - 32) != (8 * |s| <= e < 8 * |s| + 32) }

  // ---- words as polynomials ----

  function Half(c: bv32): bv32 { c >> 1 }

  predicate Odd(c: bv32) { c & 1 == 1 }

  function Xor(a: bv32, b: bv32): bv32 { a ^ b }

  predicate BitOf(c: bv32, i: nat) { if i == 0 then Odd(c) else BitOf(Half(c), i - 1) }

  /** The least significant bit of a word stands for x^31. */
  predicate Word(c: bv32, e: int) { 0 <= e < 32 && BitOf(c, 31 - e) }

  lemma HalfXor(a: bv32, b: bv32)
    ensures Half(Xor(a, b)) == Xor(Half(a), Half(b)) && (Odd(Xor(a, b)) <==> Odd(a) != Odd(b))
  {}

  lemma {:induction false} XorBit(a: bv32, b: bv32, i: nat)
    ensures BitOf(Xor(a, b), i) == (BitOf(a, i) != BitOf(b, i))
    decreases i
  {
    hide Half, Odd, Xor;
    HalfXor(a, b);
    if i > 0 { XorBit(Half(a), Half(b), i - 1); }
  }

  function Eighth(c: bv32): bv32 { c >> 8 }

  lemma EighthIsHalves(c: bv32)
    ensures Half(Half(Half(Half(Half(Half(Half(Half(c)))))))) == Eighth(c)
  {}

  lemma BitOfEighth(c: bv32, i: nat)
    ensures BitOf(c, i + 8) == BitOf(Eighth(c), i)
  {
    EighthIsHalves(c);
    hide Half, Odd, Eighth;
    var d := Half(Half(Half(Half(c))));
    assert BitOf(c, i + 8) == BitOf(Half(c), i + 7) == BitOf(Half(Half(c)), i + 6);
    assert BitOf(Half(Half(c)), i + 6) == BitOf(Half(Half(Half(c))), i + 5) == BitOf(d, i + 4);
    assert BitOf(d, i + 4) == BitOf(Half(d), i + 3) == BitOf(Half(Half(d)), i + 2);
    assert BitOf(Half(Half(d)), i + 2) == BitOf(Half(Half(Half(d))), i + 1) == BitOf(Half(Half(Half(Half(d)))), i);
  }

  lemma HalvesMask(c: bv32)
    ensures Odd(c) == (c & 1 != 0) && Odd(Half(c)) == (c & 2 != 0) && Odd(Half(Half(c))) == (c & 4 != 0)
    ensures Odd(Half(Half(Half(c)))) == (c & 8 != 0) && Odd(Half(Half(Half(Half(c))))) == (c & 16 != 0)
    ensures Odd(Half(Half(Half(Half(Half(c)))))) == (c & 32 != 0)
    ensures Odd(Half(Half(Half(Half(Half(Half(c))))))) == (c & 64 != 0)
    ensures Odd(Half(Half(Half(Half(Half(Half(Half(c)))))))) == (c & 128 != 0)
  {}

  lemma LowBits(c: bv32)
    ensures BitOf(c, 0) == (c & 1 != 0) && BitOf(c, 1) == (c & 2 != 0) && BitOf(c, 2) == (c & 4 != 0)
    ensures BitOf(c, 3) == (c & 8 != 0) && BitOf(c, 4) == (c & 16 != 0) && BitOf(c, 5) == (c & 32 != 0)
    ensures BitOf(c, 6) == (c & 64 != 0) && BitOf(c, 7) == (c & 128 != 0)
  {
    HalvesMask(c);
    hide Half, Odd;
    var a := Half(c);
    var b := Half(a);
    var d := Half(b);
    var e := Half(d);
    var f := Half(e);
    var g := Half(f);
    assert BitOf(c, 1) == BitOf(a, 0) && BitOf(c, 2) == BitOf(a, 1) == BitOf(b, 0);
    assert BitOf(c, 3) == BitOf(a, 2) == BitOf(b, 1) == BitOf(d, 0);
    assert BitOf(c, 4) == BitOf(a, 3) == BitOf(b, 2) == BitOf(d, 1) == BitOf(e, 0);
    assert BitOf(c, 5) == BitOf(a, 4) == BitOf(b, 3) == BitOf(d, 2) == BitOf(e, 1) == BitOf(f, 0);
    assert BitOf(c, 6) == BitOf(a, 5) == BitOf(b, 4) == BitOf(d, 3) == BitOf(e, 2) == BitOf(f, 1) == BitOf(g, 0);
    assert BitOf(c, 7) == BitOf(a, 6) == BitOf(b, 5) == BitOf(d, 4) == BitOf(e, 3) == BitOf(f, 2) == BitOf(g, 1)
                       == BitOf(Half(g), 0);
  }

  lemma NoBit32(c: bv32)
    ensures !BitOf(c, 32)
  {
    BitOfEighth(c, 24);
    BitOfEighth(Eighth(c), 16);
    BitOfEighth(Eighth(Eighth(c)), 8);
    BitOfEighth(Eighth(Eighth(Eighth(c))), 0);
    NothingLeft(c);
    hide Eighth, BitOf;
  }

  lemma NothingLeft(c: bv32)
    ensures !BitOf(Eighth(Eighth(Eighth(Eighth(c)))), 0)
  {}

  /** The constant is the generator without x^32. */
  lemma PolynomialBits(i: nat)
    requires i < 32
    ensures BitOf(POLYNOMIAL, i) == Generator(31 - i)
  {
    LowBits(POLYNOMIAL);
    LowBits(0xEDB883);
    LowBits(0xEDB8);
    LowBits(0xED);
    assert Eighth(POLYNOMIAL) == 0xEDB883 && Eighth(0xEDB883) == 0xEDB8 && Eighth(0xEDB8) == 0xED;
    hide BitOf;
    if i >= 8 { BitOfEighth(POLYNOMIAL, i - 8); }
    if i >= 16 { BitOfEighth(0xEDB883, i - 16); }
    if i >= 24 { BitOfEighth(0xEDB8, i - 24); }
  }

  lemma CrcBitCases(c: bv32)
    ensures CrcBit(c) == if Odd(c) then Xor(Half(c), POLYNOMIAL) else Half(c)
  {
    if Odd(c) {
      assert c & 1 == 1;
      assert 0 - (c & 1) == 0xFFFF_FFFF;
    } else {
      assert c & 1 == 0;
      assert 0 - (c & 1) == 0;
    }
  }

  /** A bit step multiplies by x and reduces. */
  lemma BitStep(c: bv32, e: int)
    ensures Word(CrcBit(c), e) == (Word(c, e - 1) != (Odd(c) && Generator(e)))
  {
    CrcBitCases(c);
    hide CrcBit, Half, Odd, Xor, Generator;
    NoBit32(c);
    GeneratorEnds(e);
    if 0 <= e < 32 {
      XorBit(Half(c), POLYNOMIAL, 31 - e);
      PolynomialBits(31 - e);
    }
  }

  lemma GeneratorEnds(e: int)
    ensures Generator(32) && (e < 0 || e > 32 ==> !Generator(e))
  {}

  // ---- bytes ----

  function Wide(byte: u8): bv32 { (byte as bv8) as bv32 }

  lemma {:induction false} ZeroBits(i: nat)
    ensures !BitOf(0, i)
    decreases i
  {
    assert Half(0) == 0 && !Odd(0);
    hide Half, Odd;
    if i > 0 { ZeroBits(i - 1); }
  }

  lemma WideMask(byte: u8)
    ensures Eighth(Wide(byte)) == 0
    ensures forall k: u3 :: Masked(byte as bv8, k) == (Digit(byte, k) == 1)
  {
    ByteBack(byte);
    hide Masked, Digit;
    forall k: u3 ensures Masked(byte as bv8, k) == (Digit(byte, k) == 1) { MaskDigit(byte as bv8, k); }
  }

  predicate Has(b: bv8, mask: bv8) { b & mask != 0 }

  predicate Masked(b: bv8, k: u3) {
    if k == 0 then Has(b, 1) else if k == 1 then Has(b, 2) else if k == 2 then Has(b, 4) else if k == 3 then Has(b, 8)
    else if k == 4 then Has(b, 16) else if k == 5 then Has(b, 32) else if k == 6 then Has(b, 64) else Has(b, 128)
  }

  function One(bit: bool): (r: int)
    ensures r == 0 || r == 1
  {
    if bit then 1 else 0
  }

  lemma BitSum(b: bv8)
    ensures b as int
         == One(Has(b, 1)) + 2 * One(Has(b, 2)) + 4 * One(Has(b, 4)) + 8 * One(Has(b, 8))
            + 16 * One(Has(b, 16)) + 32 * One(Has(b, 32)) + 64 * One(Has(b, 64)) + 128 * One(Has(b, 128))
  {}

  lemma PlaceDigit(x: nat, p: nat, high: nat, bit: int, low: nat)
    requires 0 <= bit <= 1 && low < p && x == (2 * high + bit) * p + low
    ensures x / p % 2 == bit
  {
    DivideUnique(x, p, 2 * high + bit, low);
  }

  predicate IsDigit(x: int) { 0 <= x <= 1 }

  lemma PlacesOfSum(x: u8, a: int, b: int, c: int, d: int, e: int, f: int, g: int, h: int)
    requires IsDigit(a) && IsDigit(b) && IsDigit(c) && IsDigit(d)
    requires IsDigit(e) && IsDigit(f) && IsDigit(g) && IsDigit(h)
    requires x == a + 2 * b + 4 * c + 8 * d + 16 * e + 32 * f + 64 * g + 128 * h
    ensures Digit(x, 0) == a && Digit(x, 1) == b && Digit(x, 2) == c && Digit(x, 3) == d
    ensures Digit(x, 4) == e && Digit(x, 5) == f && Digit(x, 6) == g && Digit(x, 7) == h
  {
    var low, high := a + 2 * b + 4 * c + 8 * d, e + 2 * f + 4 * g + 8 * h;
    PlaceDigit(x, 1, b + 2 * c + 4 * d + 8 * high, a, 0);
    PlaceDigit(x, 2, c + 2 * d + 4 * high, b, a);
    PlaceDigit(x, 4, d + 2 * high, c, a + 2 * b);
    PlaceDigit(x, 8, high, d, a + 2 * b + 4 * c);
    PlaceDigit(x, 16, f + 2 * g + 4 * h, e, low);
    PlaceDigit(x, 32, g + 2 * h, f, low + 16 * e);
    PlaceDigit(x, 64, h, g, low + 16 * e + 32 * f);
    PlaceDigit(x, 128, 0, h, low + 16 * e + 32 * f + 64 * g);
  }

  lemma MaskOfSum(b: bv8, x: u8, k: u3)
    requires x == One(Has(b, 1)) + 2 * One(Has(b, 2)) + 4 * One(Has(b, 4)) + 8 * One(Has(b, 8)) + 16 * One(Has(b, 16))
                  + 32 * One(Has(b, 32)) + 64 * One(Has(b, 64)) + 128 * One(Has(b, 128))
    ensures Masked(b, k) == (Digit(x, k) == 1)
  {
    hide Has, Digit;
    PlacesOfSum(x, One(Has(b, 1)), One(Has(b, 2)), One(Has(b, 4)), One(Has(b, 8)), One(Has(b, 16)), One(Has(b, 32)),
                One(Has(b, 64)), One(Has(b, 128)));
  }

  lemma MaskDigit(b: bv8, k: u3)
    ensures Masked(b, k) == (Digit(b as int, k) == 1)
  {
    BitSum(b);
    hide Has, Masked, Digit, One;
    MaskOfSum(b, b as int, k);
  }

  lemma WideLow(byte: u8, k: u3)
    ensures BitOf(Wide(byte), k) == Masked(byte as bv8, k)
  {
    LowBits(Wide(byte));
    WideHas(byte);
    hide BitOf, Wide, Has;
  }

  lemma WideHas(byte: u8)
    ensures var c, b := Wide(byte), byte as bv8;
            && (c & 1 != 0) == Has(b, 1) && (c & 2 != 0) == Has(b, 2) && (c & 4 != 0) == Has(b, 4)
            && (c & 8 != 0) == Has(b, 8) && (c & 16 != 0) == Has(b, 16) && (c & 32 != 0) == Has(b, 32)
            && (c & 64 != 0) == Has(b, 64) && (c & 128 != 0) == Has(b, 128)
  {}

  lemma WideBits(byte: u8, i: nat)
    ensures BitOf(Wide(byte), i) == (i < 8 && Digit(byte, i) == 1)
  {
    WideMask(byte);
    hide BitOf, Wide, Eighth, Masked;
    if i < 8 {
      WideLow(byte, i);
    } else {
      BitOfEighth(Wide(byte), i - 8);
      ZeroBits(i - 8);
    }
  }

  /** A byte goes into the eight highest powers of the register. */
  lemma MixStep(c: bv32, byte: u8, e: int)
    ensures Word(MixByte(c, byte), e) == (Word(c, e) != (24 <= e < 32 && Digit(byte, 31 - e) == 1))
  {
    assert MixByte(c, byte) == Xor(c, Wide(byte));
    hide MixByte, Xor, Wide, BitOf;
    if 0 <= e < 32 {
      XorBit(c, Wide(byte), 31 - e);
      WideBits(byte, 31 - e);
    }
  }

  // ---- division ----

  lemma {:induction false} ProductShift(q: seq<nat>) returns (r: seq<nat>)
    ensures forall e: int :: Product(r, e) == Product(q, e - 1)
  {
    hide Generator;
    if q == [] {
      r := [];
    } else {
      var t := ProductShift(q[1..]);
      r := [q[0] + 1] + t;
      assert r[1..] == t;
      forall e: int
        ensures Product(r, e) == Product(q, e - 1)
      {
        assert Product(t, e) == Product(q[1..], e - 1);
      }
    }
  }

  /** The dividend without its lowest k powers differs from the register by a multiple of the generator. */
  ghost predicate Divides(q: seq<nat>, s: Bytes, k: nat, c: bv32) {
    forall e: int :: Product(q, e) == (Dividend(s, e + k) != Word(c, e))
  }

  lemma BitDivides(q: seq<nat>, s: Bytes, k: nat, c: bv32) returns (r: seq<nat>)
    requires k > 0 && Divides(q, s, k, c)
    ensures Divides(r, s, k - 1, CrcBit(c))
  {
    var t := ProductShift(q);
    r := if Odd(c) then [0] + t else t;
    hide Generator, Word, Dividend, CrcBit, Odd;
    assert Odd(c) ==> r[1..] == t;
    forall e: int
      ensures Product(r, e) == (Dividend(s, e + (k - 1)) != Word(CrcBit(c), e))
    {
      BitStep(c, e);
      assert Product(t, e) == Product(q, e - 1);
      assert Product(q, e - 1) == (Dividend(s, e - 1 + k) != Word(c, e - 1));
      assert Odd(c) ==> Product(r, e) == (Generator(e) != Product(t, e));
    }
  }

  lemma {:induction false} BitsDivide(q: seq<nat>, s: Bytes, c: bv32, n: nat) returns (r: seq<nat>)
    requires n <= 8 && Divides(q, s, 8, c)
    ensures Divides(r, s, 8 - n, CrcBits(c, n))
    decreases n
  {
    hide CrcBit, Divides;
    r := q;
    if n > 0 {
      var t := BitsDivide(q, s, c, n - 1);
      r := BitDivides(t, s, 9 - n, CrcBits(c, n - 1));
    }
  }

  /** One byte more shifts the dividend by eight and puts the byte's bits above x^32. */
  lemma DividendByte(s: Bytes, byte: u8, e: int)
    ensures Dividend(s + [byte], e + 8) == (Dividend(s, e) != (24 <= e < 32 && Digit(byte, 31 - e) == 1))
  {
    var t, d := s + [byte], e - 32;
    if 0 <= d < 8 * |s| {
      assert (d + 8) / 8 == d / 8 + 1 && (d + 8) % 8 == d % 8;
      assert t[|t| - 1 - (d + 8) / 8] == s[|s| - 1 - d / 8];
    }
    assert t[|t| - 1] == byte;
  }

  lemma {:induction false} RunDivides(s: Bytes) returns (q: seq<nat>)
    ensures Divides(q, s, 0, CrcRun(0xFFFF_FFFF, s))
    decreases |s|
  {
    hide CrcBits, MixByte, Word;
    if s == [] {
      q := [];
      EmptyDivides();
    } else {
      hide Dividend;
      var before, byte := s[..|s| - 1], s[|s| - 1];
      var c := CrcRun(0xFFFF_FFFF, before);
      var t := RunDivides(before);
      assert s == before + [byte];
      forall e: int
        ensures Product(t, e) == (Dividend(s, e + 8) != Word(MixByte(c, byte), e))
      {
        MixStep(c, byte, e);
        DividendByte(before, byte, e);
        assert Product(t, e) == (Dividend(before, e + 0) != Word(c, e));
      }
      q := BitsDivide(t, s, MixByte(c, byte), 8);
    }
  }

  lemma {:induction false} AllOnes(i: nat)
    requires i < 32
    ensures BitOf(0xFFFF_FFFF, i)
  {
    LowBits(0xFFFF_FFFF);
    LowBits(0xFF_FFFF);
    LowBits(0xFFFF);
    LowBits(0xFF);
    assert Eighth(0xFFFF_FFFF) == 0xFF_FFFF && Eighth(0xFF_FFFF) == 0xFFFF && Eighth(0xFFFF) == 0xFF;
    hide BitOf;
    if i >= 8 { BitOfEighth(0xFFFF_FFFF, i - 8); }
    if i >= 16 { BitOfEighth(0xFF_FFFF, i - 16); }
    if i >= 24 { BitOfEighth(0xFFFF, i - 24); }
  }

  lemma EmptyDivides()
    ensures Divides([], [], 0, 0xFFFF_FFFF)
  {
    hide BitOf;
    forall e: int
      ensures Product([], e) == (Dividend([], e + 0) != Word(0xFFFF_FFFF, e))
    {
      if 0 <= e < 32 { AllOnes(31 - e); }
    }
  }

  lemma CrcComplements(s: Bytes)
    ensures Crc(s) == Xor(CrcRun(0xFFFF_FFFF, s), 0xFFFF_FFFF)
  {
    hide CrcRun;
  }

  /** The CRC of a message, complemented and its bits reversed, is the remainder: added to the dividend it gives a
      multiple of the generator, and it has no power above x^31. */
  lemma CrcIsRemainder(s: Bytes) returns (q: seq<nat>)
    ensures forall e: int :: Product(q, e) == (Dividend(s, e) != (0 <= e < 32 && !BitOf(Crc(s), 31 - e)))
  {
    q := RunDivides(s);
    CrcComplements(s);
    hide BitOf, Dividend, Product, Xor, CrcRun, Crc;
    var c := CrcRun(0xFFFF_FFFF, s);
    forall e: int
      ensures Product(q, e) == (Dividend(s, e) != (0 <= e < 32 && !BitOf(Crc(s), 31 - e)))
    {
      assert Product(q, e) == (Dividend(s, e + 0) != Word(c, e));
      if 0 <= e < 32 {
        XorBit(c, 0xFFFF_FFFF, 31 - e);
        AllOnes(31 - e);
      }
    }
  }

  // ---- there is only one remainder ----

  lemma {:induction false} ProductSum(p: seq<nat>, q: seq<nat>, e: int)
    ensures Product(p + q, e) == (Product(p, e) != Product(q, e))
    decreases |p|
  {
    hide Generator;
    if p == [] {
      assert p + q == q;
    } else {
      assert (p + q)[1..] == p[1..] + q;
      ProductSum(p[1..], q, e);
    }
  }

  /** A power may be taken out wherever it stands. */
  lemma TakeOut(q: seq<nat>, i: nat, e: int)
    requires i < |q|
    ensures Product(q, e) == (Generator(e - q[i]) != Product(q[..i] + q[i + 1..], e))
  {
    hide Generator;
    assert q == q[..i] + q[i..];
    ProductSum(q[..i], q[i..], e);
    ProductSum(q[..i], q[i + 1..], e);
    assert q[i..][1..] == q[i + 1..];
  }

  lemma {:induction false} Largest(q: seq<nat>) returns (i: nat)
    requires q != []
    ensures i < |q| && forall k :: 0 <= k < |q| ==> q[k] <= q[i]
  {
    i := 0;
    if |q| > 1 {
      var j := Largest(q[1..]);
      assert forall k :: 1 <= k < |q| ==> q[k] == q[1..][k - 1];
      if q[j + 1] > q[0] { i := j + 1; }
    }
  }

  lemma {:induction false} NothingAbove(q: seq<nat>, top: nat)
    requires forall k :: 0 <= k < |q| ==> q[k] < top
    ensures !Product(q, top + 32)
  {
    if q != [] { NothingAbove(q[1..], top); }
  }

  /** A multiple of the generator without powers above x^31 is 0. */
  lemma {:induction false} SmallMultiple(q: seq<nat>)
    requires forall e: int :: e >= 32 ==> !Product(q, e)
    ensures forall e: int :: !Product(q, e)
    decreases |q|
  {
    if q != [] {
      var i := Largest(q);
      var top := q[i];
      var rest := q[..i] + q[i + 1..];
      TakeOut(q, i, top + 32);
      if top !in rest { NothingAbove(rest, top); }
      var j :| 0 <= j < |rest| && rest[j] == top;
      var less := rest[..j] + rest[j + 1..];
      hide Generator;
      forall e: int
        ensures Product(less, e) == Product(q, e)
      {
        TakeOut(q, i, e);
        TakeOut(rest, j, e);
      }
      SmallMultiple(less);
      assert forall e: int :: Product(less, e) == Product(q, e);
    }
  }

  /** Two words that both leave a multiple of the generator are the same in every bit. */
  lemma RemainderUnique(s: Bytes, p: seq<nat>, q: seq<nat>, a: bv32, b: bv32)
    requires Divides(p, s, 0, a) && Divides(q, s, 0, b)
    ensures forall i: nat :: i < 32 ==> BitOf(a, i) == BitOf(b, i)
  {
    hide Generator, BitOf, Dividend;
    forall e: int
      ensures Product(p + q, e) == (Word(a, e) != Word(b, e))
    {
      ProductSum(p, q, e);
      assert Product(p, e) == (Dividend(s, e + 0) != Word(a, e)) && Product(q, e) == (Dividend(s, e + 0) != Word(b, e));
    }
    SmallMultiple(p + q);
    forall i: nat | i < 32
      ensures BitOf(a, i) == BitOf(b, i)
    {
      assert !Product(p + q, 31 - i);
    }
  }
}
