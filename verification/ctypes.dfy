/**
 C integer widths used by the HiVoPuCounter firmware.

 Dafny integers are unbounded, so every fixed-width C type of the firmware is a
 subset type here and every wrap-around or narrowing conversion is written out.
 */
module CTypes {

  const U16Modulus: int := 0x1_0000
  const U32Modulus: int := 0x1_0000_0000
  const I32Min: int := -0x8000_0000

  /** uint8_t: also one FRAM cell. */
  type U8 = x: int | 0 <= x < 0x100
  /** uint16_t: an ADC sample, a table entry, an FRAM address. */
  type U16 = x: int | 0 <= x < 0x1_0000
  /** uint32_t: the running average, the block counter, a histogram count. */
  type U32 = x: int | 0 <= x < 0x1_0000_0000
  /** int32_t: the argument of int2str. */
  type I32 = x: int | -0x8000_0000 <= x < 0x8000_0000

  /** Result of a uint32_t addition or subtraction: the exact value reduced modulo 2^32. */
  function Wrap32(x: int): (r: U32)
    ensures 0 <= x < U32Modulus ==> r == x
    ensures -U32Modulus <= x < 0 ==> r == x + U32Modulus
    ensures U32Modulus <= x < 2 * U32Modulus ==> r == x - U32Modulus
  {
    x % U32Modulus
  }

  /** Reducing modulo 2^32 before a further addition does not change the final result. */
  lemma Wrap32Add(x: nat, y: nat)
    ensures Wrap32(Wrap32(x) + y) == Wrap32(x + y)
  {
    var q := x / U32Modulus;
    assert x == q * U32Modulus + Wrap32(x);
    ModAddMultiple(Wrap32(x) + y, q);
  }

  lemma {:induction false} ModAddMultiple(a: nat, q: nat)
    ensures (a + q * U32Modulus) % U32Modulus == a % U32Modulus
    decreases q
  {
    if q > 0 {
      ModAddMultiple(a, q - 1);
      assert a + q * U32Modulus == (a + (q - 1) * U32Modulus) + U32Modulus;
    }
  }

  /** Conversion of a uint32_t to uint16_t (keeps the low 16 bits). */
  function Trunc16(x: U32): (r: U16)
    ensures x < U16Modulus ==> r == x
    ensures (x - r) % U16Modulus == 0
  {
    x % U16Modulus
  }

  /**
   Conversion of a uint32_t to int32_t, as two's-complement targets (the
   firmware's compiler) perform it: values from 2^31 up read as negative.
   */
  function AsI32(x: U32): (r: I32)
    ensures Wrap32(r) == x
    ensures r < 0 <==> x >= 0x8000_0000
  {
    if x < 0x8000_0000 then x else x - U32Modulus
  }
}
