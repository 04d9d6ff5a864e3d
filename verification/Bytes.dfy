/** Bytes as numbers, and their exclusive or. */
module Bytes {
  import opened Numbers

  type Byte = b: nat | b < 256

  /** Bit by bit: two bits differ when their sum is odd. */
  function XorBits(a: nat, b: nat, bits: nat): (x: nat)
    ensures x < Power2(bits)
  {
    if bits == 0 then 0 else (a + b) % 2 + 2 * XorBits(a / 2, b / 2, bits - 1)
  }

  function Xor(a: Byte, b: Byte): Byte {
    EightBits();
    XorBits(a, b, 8)
  }

  lemma EightBits()
    ensures Power2(8) == 256
  {
    assert Power2(4) == 16;
    assert Power2(6) == 64;
  }

  lemma {:induction false} XorBitsTwice(a: nat, b: nat, bits: nat)
    requires a < Power2(bits)
    ensures XorBits(XorBits(a, b, bits), b, bits) == a
  {
    if bits > 0 {
      var x := XorBits(a, b, bits);
      FirstBit(a, b, bits);
      FirstBit(x, b, bits);
      XorBitsTwice(a / 2, b / 2, bits - 1);
      hide XorBits;
      SameParity(a, b, x);
    }
  }

  lemma FirstBit(a: nat, b: nat, bits: nat)
    requires bits > 0
    ensures XorBits(a, b, bits) % 2 == (a + b) % 2 && XorBits(a, b, bits) / 2 == XorBits(a / 2, b / 2, bits - 1)
  {
  }

  lemma SameParity(a: nat, b: nat, x: nat)
    requires x % 2 == (a + b) % 2
    ensures (x + b) % 2 == a % 2
  {
  }

  lemma XorTwice(a: Byte, b: Byte)
    ensures Xor(Xor(a, b), b) == a
  {
    EightBits();
    XorBitsTwice(a, b, 8);
  }

  /** The i-th bit, the lowest first. */
  predicate Bit(n: nat, i: nat) {
    if i == 0 then n % 2 == 1 else Bit(n / 2, i - 1)
  }

  lemma BitUnfolds(n: nat, i: nat)
    ensures Bit(n, i) <==> if i == 0 then n % 2 == 1 else Bit(n / 2, i - 1)
  {
  }

  lemma OddSum(a: nat, b: nat)
    ensures (a + b) % 2 == 1 <==> (a % 2 == 1) != (b % 2 == 1)
  {
  }

  lemma {:induction false} BitOfXor(a: nat, b: nat, bits: nat, i: nat)
    requires i < bits
    ensures Bit(XorBits(a, b, bits), i) <==> Bit(a, i) != Bit(b, i)
    decreases i
  {
    hide *;
    FirstBit(a, b, bits);
    BitUnfolds(a, i);
    BitUnfolds(b, i);
    BitUnfolds(XorBits(a, b, bits), i);
    if i > 0 {
      BitOfXor(a / 2, b / 2, bits - 1, i - 1);
    } else {
      OddSum(a, b);
    }
  }

  /** A bit of the exclusive or is set exactly when it differs. */
  lemma XorIsBitwise(a: Byte, b: Byte, i: nat)
    requires i < 8
    ensures Bit(Xor(a, b), i) <==> Bit(a, i) != Bit(b, i)
  {
    BitOfXor(a, b, 8, i);
  }
}
