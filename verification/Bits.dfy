/** Bitwise operations on unsigned integers, and what the masks of the string decoder
    come to in arithmetic. A shift is a multiplication or division by a power of two. */
module Bits {
  function And(x: nat, y: nat): nat {
    if x == 0 || y == 0 then 0 else 2 * And(x / 2, y / 2) + (if x % 2 == 1 && y % 2 == 1 then 1 else 0)
  }

  function Or(x: nat, y: nat): nat
    decreases x + y
  {
    if x == 0 then y
    else if y == 0 then x
    else 2 * Or(x / 2, y / 2) + (if x % 2 == 1 || y % 2 == 1 then 1 else 0)
  }

  function Power(k: nat): (r: nat)
    ensures r >= 1
  {
    if k == 0 then 1 else 2 * Power(k - 1)
  }

  /** Or in terms of halves, whatever is zero. */
  lemma OrHalves(x: nat, y: nat)
    ensures Or(x, y) == 2 * Or(x / 2, y / 2) + (if x % 2 == 1 || y % 2 == 1 then 1 else 0)
  {
  }

  lemma AndHalves(x: nat, y: nat)
    ensures And(x, y) == 2 * And(x / 2, y / 2) + (if x % 2 == 1 && y % 2 == 1 then 1 else 0)
  {
  }

  /** A mask of low bits takes a remainder. */
  lemma {:induction false} AndMask(x: nat, k: nat)
    ensures And(x, Power(k) - 1) == x % Power(k)
    decreases k
  {
    hide And;
    if k == 0 {
      AndZero(x);
    } else {
      var p := Power(k - 1);
      HalveMask(x, p);
      AndMask(x / 2, k - 1);
      RemainderOfDouble(x, p);
    }
  }

  lemma HalveMask(x: nat, p: nat)
    requires p >= 1
    ensures And(x, 2 * p - 1) == 2 * And(x / 2, p - 1) + x % 2
  {
    hide And;
    AndHalves(x, 2 * p - 1);
    assert (2 * p - 1) / 2 == p - 1 && (2 * p - 1) % 2 == 1;
  }

  lemma RemainderOfDouble(x: nat, p: nat)
    requires p >= 1
    ensures x % (2 * p) == 2 * (x / 2 % p) + x % 2
  {
    var q, r := x / 2 / p, x / 2 % p;
    assert x / 2 == q * p + r;
    assert x == 2 * (q * p + r) + x % 2;
    var low := 2 * r + x % 2;
    assert x == q * (2 * p) + low && 0 <= low < 2 * p;
    DivisionIs(x, 2 * p, q, low);
  }

  lemma DivisionIs(x: nat, d: nat, q: nat, r: nat)
    requires d >= 1 && r < d && x == q * d + r
    ensures x % d == r
  {
    var a, b := x / d, x % d;
    QuotientsApart(a, q, d, b, r);
  }

  lemma QuotientsApart(a: int, q: int, d: nat, b: nat, r: nat)
    requires a * d + b == q * d + r && b < d && r < d
    ensures b == r
  {
    Times(a - q, d);
    assert (a - q) * d == a * d - q * d;
  }

  lemma Times(k: int, d: nat)
    ensures k >= 1 ==> k * d >= d
    ensures k <= -1 ==> k * d + d <= 0
    ensures k == 0 ==> k * d == 0
  {
  }

  /** Bits above and below each other add up. */
  lemma {:induction false} OrAbove(a: nat, b: nat, k: nat)
    requires b < Power(k)
    ensures Or(a * Power(k), b) == a * Power(k) + b
    decreases k
  {
    hide Or;
    if k == 0 {
      OrZero(a * 1);
    } else {
      var t := a * Power(k - 1);
      DoubleOutside(a, Power(k - 1));
      OrOfDouble(t, b);
      OrAbove(a, b / 2, k - 1);
    }
  }

  lemma DoubleOutside(a: nat, p: nat)
    ensures a * (2 * p) == 2 * (a * p)
  {
  }

  lemma OrZero(x: nat)
    ensures Or(x, 0) == x
  {
  }

  lemma OrOfDouble(t: nat, b: nat)
    ensures Or(2 * t, b) == 2 * Or(t, b / 2) + b % 2
  {
    hide Or;
    OrHalves(2 * t, b);
    assert 2 * t / 2 == t && 2 * t % 2 == 0;
  }

  /** `(x | 0x80) & 0xBF`: the low six bits behind a continuation mark. */
  lemma ContinuationByte(x: nat)
    ensures And(Or(x, 0x80), 0xBF) == 0x80 + x % 0x40
  {
    hide And, Or;
    LowBit(x, 0x40, 0x5F);
    LowBit(x / 2, 0x20, 0x2F);
    LowBit(x / 4, 0x10, 0x17);
    LowBit(x / 8, 0x08, 0x0B);
    LowBit(x / 16, 0x04, 0x05);
    LowBit(x / 32, 0x02, 0x02);
    HighBits(x / 64);
    assert x / 2 / 2 == x / 4 && x / 4 / 2 == x / 8 && x / 8 / 2 == x / 16 && x / 16 / 2 == x / 32
      && x / 32 / 2 == x / 64;
  }

  /** A low bit passes a mark above it and a mask with it. */
  lemma LowBit(x: nat, mark: nat, mask: nat)
    ensures And(Or(x, 2 * mark), 2 * mask + 1) == 2 * And(Or(x / 2, mark), mask) + x % 2
  {
    hide And, Or;
    OrHalves(x, 2 * mark);
    var y := Or(x, 2 * mark);
    assert y / 2 == Or(x / 2, mark) && y % 2 == x % 2;
    AndHalves(y, 2 * mask + 1);
  }

  lemma HighBits(q: nat)
    ensures And(Or(q, 2), 2) == 2
  {
    hide And, Or;
    OrHalves(q, 2);
    OrHalves(q / 2, 1);
    var y := Or(q, 2);
    AndHalves(y, 2);
    AndHalves(y / 2, 1);
    AndZero(y / 2 / 2);
  }

  lemma AndZero(x: nat)
    ensures And(x, 0) == 0
  {
  }

  /** `(x | mark) & 0xFF`: a lead byte, whose mark lies above the bits it carries. */
  lemma LeadByte(x: nat, mark: nat, a: nat, k: nat)
    requires x < Power(k) && mark == a * Power(k) && mark + x < 0x100
    ensures And(Or(x, mark), 0xFF) == mark + x
  {
    hide And, Or, Power;
    OrAbove(a, x, k);
    OrSwaps(x, mark);
    EightBits();
    AndMask(mark + x, 8);
  }

  lemma EightBits()
    ensures Power(8) == 0x100
  {
  }

  lemma {:induction false} OrSwaps(x: nat, y: nat)
    ensures Or(x, y) == Or(y, x)
    decreases x + y
  {
    if x != 0 && y != 0 {
      OrSwaps(x / 2, y / 2);
    }
  }

  lemma TenBits()
    ensures Power(10) == 0x400
  {
  }

  /** `((x & 0x3FF) << 10) | (y & 0x3FF)`: the two halves of a surrogate pair. */
  lemma SurrogateBits(x: nat, y: nat)
    ensures Or(And(x, 0x3FF) * 0x400, And(y, 0x3FF)) == x % 0x400 * 0x400 + y % 0x400
  {
    hide And, Or, Power;
    TenBits();
    AndMask(x, 10);
    AndMask(y, 10);
    OrAbove(x % 0x400, y % 0x400, 10);
  }
}
