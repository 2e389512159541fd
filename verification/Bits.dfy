/** Bytes as bits. The flag bytes are taken apart and put together with shifts and masks; these are
    the facts about the conversions. */
module Bits {

  lemma Successor(b: bv8)
    requires b != 0xff
    ensures (b + 1) as int == b as int + 1
    ensures (b as int + 1) as bv8 == b + 1
  {
  }

  /** A byte is its bits. */
  lemma {:induction false} SameByte(x: int)
    requires 0 <= x < 0x100
    ensures (x as bv8) as int == x
  {
    if x > 0 {
      SameByte(x - 1);
      Successor((x - 1) as bv8);
    }
  }

  lemma BitsBelow(b: bv8)
    ensures b < 16 <==> b as int < 16
    ensures b < 4 <==> b as int < 4
  {
  }

  /** Comparing bytes is comparing their bits, here with the bounds of type and QoS. */
  lemma ByteBits(x: int)
    requires 0 <= x < 0x100
    ensures (x as bv8) as int == x
    ensures x as bv8 < 16 <==> x < 16
    ensures x as bv8 < 4 <==> x < 4
  {
    SameByte(x);
    BitsBelow(x as bv8);
  }

  /** Or of bits that do not overlap is a sum. */
  lemma DisjointSum(a: bv8, b: bv8)
    requires a & b == 0
    ensures (a | b) as int == a as int + b as int
  {
    assert a | b == a + b;
  }

  lemma Shifts(a: bv8)
    ensures a < 16 ==> (a << 4) as int == 16 * (a as int)
    ensures a < 4 ==> (a << 3) as int == 8 * (a as int)
    ensures a < 4 ==> (a << 1) as int == 2 * (a as int)
  {
  }

  lemma Multiple(d: int, k: int)
    requires d > 0
    ensures k >= 1 ==> d * k >= d
    ensures k <= -1 ==> d * k <= -d
  {
    if k >= 1 {
      assert d * (k - 1) >= 0;
    } else if k <= -1 {
      assert d * (-1 - k) >= 0;
    }
  }

  /** Dividing cuts off what is less than the divisor. */
  lemma Quotient(x: int, d: int, q: int, r: int)
    requires x == d * q + r && 0 <= r < d
    ensures x / d == q && x % d == r
  {
    var k := x / d - q;
    assert d * k == d * (x / d) - d * q == r - x % d;
    Multiple(d, k);
  }

  lemma Digit(x: int, d: int, base: int, above: int, digit: int, below: int)
    requires x == d * (base * above + digit) + below && 0 <= digit < base && 0 <= below < d
    ensures x / d % base == digit
  {
    Quotient(x, d, base * above + digit, below);
    Quotient(base * above + digit, base, above, digit);
  }
}
