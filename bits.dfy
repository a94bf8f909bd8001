/** Python's integer bit operators, as the drivers use them on non-negative values.

    Every byte the drivers handle comes from the bus as a Python `int` in 0..255, and
    the decoders combine them with `<<`, `>>` and `&` on unbounded integers. This module
    defines those operators on `nat` and proves the mask identities the drivers rely on.
 */
module Bits {

  /** One unsigned byte as returned by a bus read. */
  type Byte = x: int | 0 <= x < 256

  function Pow2(n: nat): (r: nat)
    ensures r >= 1
  {
    if n == 0 then 1 else 2 * Pow2(n - 1)
  }

  /** Python's `x << n` on a non-negative integer. */
  function Shl(x: nat, n: nat): nat
  {
    x * Pow2(n)
  }

  /** Python's `x >> n` on a non-negative integer: n halvings, rounding down
      (`ShrIsDivision` shows it is floor division by 2^n). */
  function Shr(x: nat, n: nat): nat
  {
    if n == 0 then x else Shr(x / 2, n - 1)
  }

  /** Python's `a & b` on non-negative integers, computed from the least significant bit up.
      The result never exceeds either operand, so a constant mask bounds it. */
  function And(a: nat, b: nat): (r: nat)
    ensures r <= a && r <= b
    decreases a
  {
    if a == 0 || b == 0 then 0
    else 2 * And(a / 2, b / 2) + (if a % 2 == 1 && b % 2 == 1 then 1 else 0)
  }

  /** pyi2c's `getBit(x, n)`, taken to be `(x >> n) & 1`: the n-th binary digit of x. */
  function GetBit(x: nat, n: nat): (r: nat)
    ensures r == Shr(x, n) % 2
  {
    And(Shr(x, n), 1)
  }

  // ---------------------------------------------------------------------------------
  // Arithmetic helpers

  /** A positive multiple of a positive number is at least that number. */
  lemma {:induction false} MulAtLeast(d: int, x: int)
    requires d > 0 && x > 0
    ensures d * x >= d
    decreases x
  {
    if x > 1 {
      assert d * x == d * (x - 1) + d;
      MulAtLeast(d, x - 1);
    }
  }

  /** Division and remainder are determined by any decomposition with a small remainder. */
  lemma DivModUnique(a: int, d: int, q: int, r: int)
    requires d > 0 && 0 <= r < d && a == d * q + r
    ensures a / d == q && a % d == r
  {
    var q', r' := a / d, a % d;
    assert a == d * q' + r';
    if q > q' {
      assert d * q == d * q' + d * (q - q');
      MulAtLeast(d, q - q');
      assert false;
    } else if q < q' {
      assert d * q' == d * q + d * (q' - q);
      MulAtLeast(d, q' - q);
      assert false;
    }
  }

  /** Halving first and then dividing by p is dividing by 2p; the remainder splits the same way. */
  lemma DivHalf(a: nat, p: nat)
    requires p >= 1
    ensures a / 2 / p == a / (2 * p)
    ensures a % (2 * p) == 2 * ((a / 2) % p) + a % 2
  {
    var q, r := a / (2 * p), a % (2 * p);
    assert a == 2 * p * q + r;
    var h := a / 2;
    assert a == 2 * h + a % 2;
    assert h == p * q + r / 2 by {
      assert r == 2 * (r / 2) + r % 2;
      assert a == 2 * (p * q + r / 2) + r % 2;
      DivModUnique(a, 2, p * q + r / 2, r % 2);
    }
    DivModUnique(h, p, q, r / 2);
    DivModUnique(a, 2, h, a % 2);
    assert r % 2 == a % 2 by {
      DivModUnique(a, 2, p * q + r / 2, r % 2);
    }
  }

  /** Moving one step up the bit index is the same as halving the value first. */
  lemma GetBitNext(x: nat, n: nat)
    ensures GetBit(x, n + 1) == GetBit(x / 2, n)
  {
  }

  /** n halvings are one floor division by 2^n. */
  lemma {:induction false} ShrIsDivision(x: nat, n: nat)
    ensures Shr(x, n) == x / Pow2(n)
  {
    if n > 0 {
      ShrIsDivision(x / 2, n - 1);
      DivHalf(x, Pow2(n - 1));
    }
  }

  /** Powers of two grow with the exponent. */
  lemma {:induction false} Pow2Le(k: nat, n: nat)
    requires k <= n
    ensures Pow2(k) <= Pow2(n)
    decreases n
  {
    if k < n {
      Pow2Le(k, n - 1);
    }
  }

  /** The powers of two that index the bits of a byte. */
  lemma Pow2Small(i: nat)
    requires i < 8
    ensures Pow2(i) == [1, 2, 4, 8, 16, 32, 64, 128][i]
  {
    if i > 0 {
      Pow2Small(i - 1);
    }
  }

  // ---------------------------------------------------------------------------------
  // Mask identities

  /** `a & (2^k - 1)` keeps the low k bits: it is `a % 2^k`. */
  lemma {:induction false} AndLowMask(a: nat, k: nat)
    ensures And(a, Pow2(k) - 1) == a % Pow2(k)
  {
    if k == 0 {
    } else if a == 0 {
    } else {
      var p := Pow2(k - 1);
      assert (Pow2(k) - 1) / 2 == p - 1 && (Pow2(k) - 1) % 2 == 1;
      AndLowMask(a / 2, k - 1);
      DivHalf(a, p);
    }
  }

  /** Against an even mask, the lowest bit of `a & m` is clear and the rest is `(a / 2) & (m / 2)`. */
  lemma AndEvenMask(a: nat, c: nat)
    ensures And(a, 2 * c) == 2 * And(a / 2, c)
  {
    assert (2 * c) / 2 == c && (2 * c) % 2 == 0;
  }

  /** `a & 2^k` is nonzero exactly when bit k of a is set, and then it is 2^k. */
  lemma {:induction false} AndSingleBit(a: nat, k: nat)
    ensures And(a, Pow2(k)) == (if GetBit(a, k) == 1 then Pow2(k) else 0)
  {
    if k == 0 {
    } else if a == 0 {
      ShrIsDivision(0, k);
    } else {
      assert Pow2(k) / 2 == Pow2(k - 1) && Pow2(k) % 2 == 0;
      AndSingleBit(a / 2, k - 1);
      GetBitNext(a, k - 1);
    }
  }

  /** Bit i of `a & b` is set exactly when bit i is set in both operands. */
  lemma {:induction false} GetBitAnd(a: nat, b: nat, i: nat)
    ensures GetBit(And(a, b), i) == (if GetBit(a, i) == 1 && GetBit(b, i) == 1 then 1 else 0)
  {
    var c := And(a, b);
    var e := if a % 2 == 1 && b % 2 == 1 then 1 else 0;
    assert c == 2 * And(a / 2, b / 2) + e;
    if i == 0 {
      assert GetBit(c, 0) == c % 2 && GetBit(a, 0) == a % 2 && GetBit(b, 0) == b % 2;
    } else {
      assert c / 2 == And(a / 2, b / 2);
      GetBitNext(c, i - 1);
      GetBitNext(a, i - 1);
      GetBitNext(b, i - 1);
      GetBitAnd(a / 2, b / 2, i - 1);
    }
  }

  /** Two values below 2^n with the same n low bits are equal. */
  lemma {:induction false} BitsDetermine(x: nat, y: nat, n: nat)
    requires x < Pow2(n) && y < Pow2(n)
    requires forall i :: 0 <= i < n ==> GetBit(x, i) == GetBit(y, i)
    ensures x == y
  {
    if n > 0 {
      assert GetBit(x, 0) == GetBit(y, 0);
      forall i | 0 <= i < n - 1
        ensures GetBit(x / 2, i) == GetBit(y / 2, i)
      {
        GetBitNext(x, i);
        GetBitNext(y, i);
        assert GetBit(x, i + 1) == GetBit(y, i + 1);
      }
      BitsDetermine(x / 2, y / 2, n - 1);
    }
  }

  /** The low n bits are all clear exactly when the value is a multiple of 2^n. */
  lemma {:induction false} LowBitsClear(x: nat, n: nat)
    ensures x % Pow2(n) == 0 <==> forall j :: 0 <= j < n ==> GetBit(x, j) == 0
  {
    if n > 0 {
      LowBitsClear(x / 2, n - 1);
      DivHalf(x, Pow2(n - 1));
      forall j | 0 <= j < n - 1
        ensures GetBit(x, j + 1) == GetBit(x / 2, j)
      {
        GetBitNext(x, j);
      }
      if x % Pow2(n) == 0 {
        forall j | 0 <= j < n
          ensures GetBit(x, j) == 0
        {
          if j > 0 {
            assert GetBit(x, (j - 1) + 1) == GetBit(x / 2, j - 1);
          }
        }
      } else {
        if x % 2 == 0 {
          var j :| 0 <= j < n - 1 && GetBit(x / 2, j) != 0;
          assert GetBit(x, j + 1) != 0;
        } else {
          assert GetBit(x, 0) != 0;
        }
      }
    }
  }

  // ---------------------------------------------------------------------------------
  // The byte masks the decoders use

  /** `b & 0xF0` keeps the high nibble of a byte in place (it is not shifted down). */
  lemma HighNibble(b: Byte)
    ensures And(b, 0xF0) == b - b % 16
    ensures And(b, 0xF0) % 16 == 0 && And(b, 0xF0) <= 0xF0
  {
    HighNibbleShift(b);
    LowNibble(b / 16);
    NibbleSplit(b);
  }

  /** A byte is its high nibble, times 16, plus its low nibble. */
  lemma NibbleSplit(b: Byte)
    ensures 16 * ((b / 16) % 16) == b - b % 16
    ensures (b - b % 16) % 16 == 0 && b - b % 16 <= 0xF0
  {
    assert b / 16 < 16;
  }

  /** Four halvings of `b & 0xF0` leave `(b / 16) & 0x0F`. */
  lemma HighNibbleShift(b: Byte)
    ensures And(b, 0xF0) == 16 * And(b / 16, 0x0F)
  {
    AndEvenMask(b, 0x78);
    AndEvenMask(b / 2, 0x3C);
    AndEvenMask(b / 4, 0x1E);
    AndEvenMask(b / 8, 0x0F);
    assert b / 2 / 2 == b / 4 && b / 4 / 2 == b / 8 && b / 8 / 2 == b / 16;
  }

  /** `b & 0x0F` is the low nibble of a byte. */
  lemma LowNibble(b: Byte)
    ensures And(b, 0x0F) == b % 16
  {
    assert Pow2(4) == 16;
    AndLowMask(b, 4);
  }

  /** For a byte, bit 7 is set exactly when the byte is at least 128. */
  lemma TopBit(b: Byte)
    ensures GetBit(b, 7) == (if b >= 128 then 1 else 0)
  {
    ShrIsDivision(b, 7);
    assert Pow2(7) == 128;
  }

  /** `status & mask == want`, for byte-sized constants, is decided bit by bit. */
  lemma {:induction false} MaskedEquals(s: Byte, mask: Byte, want: Byte)
    ensures And(s, mask) == want <==>
      forall i :: 0 <= i < 8 ==>
        GetBit(want, i) == (if GetBit(s, i) == 1 && GetBit(mask, i) == 1 then 1 else 0)
  {
    assert Pow2(8) == 256;
    var c := And(s, mask);
    forall i | 0 <= i < 8
      ensures GetBit(c, i) == (if GetBit(s, i) == 1 && GetBit(mask, i) == 1 then 1 else 0)
    {
      GetBitAnd(s, mask, i);
    }
    if forall i :: 0 <= i < 8 ==>
        GetBit(want, i) == (if GetBit(s, i) == 1 && GetBit(mask, i) == 1 then 1 else 0)
    {
      BitsDetermine(c, want, 8);
    }
  }
}
