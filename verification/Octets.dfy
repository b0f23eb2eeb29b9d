/** An octet converted to bits and back. */
module Conversion {
  lemma OctetSurvives(a: int)
    requires 0 <= a < 256
    ensures (a as bv8) as int == a
  {}
}

/** Octets, and the bit operations of e2e/device.js as arithmetic on 0..255. */
module Octets {
  import Conversion

  type Byte = b: int | 0 <= b < 256

  function Low4(b: Byte): Byte { b % 16 }

  function Low7(b: Byte): Byte { b % 128 }

  function WithTopBit(b: Byte): Byte { if b < 128 then b + 128 else b }

  function Xor(a: Byte, b: Byte): Byte { ((a as bv8) ^ (b as bv8)) as int }

  lemma ArithmeticIsBitwise(b: bv8)
    ensures (b & 0x0f) as int == Low4(b as int)
    ensures (b & 0x7f) as int == Low7(b as int)
    ensures (b | 0x80) as int == WithTopBit(b as int)
  {}

  lemma XorAsBits(a: Byte, b: Byte)
    ensures (Xor(a, b) as bv8) == (a as bv8) ^ (b as bv8)
  {}

  lemma XorTwice(a: Byte, b: Byte)
    ensures Xor(Xor(a, b), b) == a
  {
    XorAsBits(a, b);
    Conversion.OctetSurvives(a);
  }
}
