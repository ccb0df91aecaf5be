/** Unsigned bit operations, the bit-interleaving masks of the matrix code, and
    the Z-order (Morton) index arithmetic built on them. */
module Bits {

  const EVEN_MASK: nat := 0x5555_5555
  const ODD_MASK: nat := 0xaaaa_aaaa

  /** Base-4 digits covered by the two 32-bit masks. */
  const MASK_DIGITS: nat := 16

  // ---------- unsigned `&` and `|`, one binary digit at a time ----------

  function BitAnd(x: nat, y: nat): nat
    decreases x
  {
    if x == 0 || y == 0 then 0
    else (if x % 2 == 1 && y % 2 == 1 then 1 else 0) + 2 * BitAnd(x / 2, y / 2)
  }

  function BitOr(x: nat, y: nat): nat
    decreases x
  {
    if x == 0 then y
    else if y == 0 then x
    else (if x % 2 == 1 || y % 2 == 1 then 1 else 0) + 2 * BitOr(x / 2, y / 2)
  }

  function Pow2(m: nat): (p: nat)
    ensures p >= 1
  {
    if m == 0 then 1 else 2 * Pow2(m - 1)
  }

  function Pow4(m: nat): (p: nat)
    ensures p >= 1
  {
    if m == 0 then 1 else 4 * Pow4(m - 1)
  }

  lemma PowStep(m: nat)
    requires m > 0
    ensures Pow2(m) == 2 * Pow2(m - 1) && Pow4(m) == 4 * Pow4(m - 1)
  {
  }

  lemma {:induction false} Pow4IsSquare(m: nat)
    ensures Pow4(m) == Pow2(m) * Pow2(m) == Pow2(2 * m)
  {
    if m > 0 {
      hide *;
      Pow4IsSquare(m - 1);
      PowStep(m);
      PowStep(2 * m);
      PowStep(2 * m - 1);
      var p := Pow2(m - 1);
      assert 2 * m - 1 - 1 == 2 * (m - 1);
      assert (2 * p) * (2 * p) == 4 * (p * p);
    }
  }

  lemma {:induction false} PowMonotone(m: nat, n: nat)
    requires m <= n
    ensures Pow2(m) <= Pow2(n) && Pow4(m) <= Pow4(n)
    ensures m < n ==> 2 * Pow2(m) <= Pow2(n) && 4 * Pow4(m) <= Pow4(n)
    decreases n
  {
    if m < n {
      PowMonotone(m, n - 1);
    }
  }

  lemma {:induction false} BitOrBound(x: nat, y: nat, k: nat)
    requires x < Pow2(k) && y < Pow2(k)
    ensures BitOr(x, y) < Pow2(k)
    decreases x
  {
    if x != 0 && y != 0 {
      BitOrBound(x / 2, y / 2, k - 1);
    }
  }

  /** `x << b | k` is `x * 2^b + k` when `k` fits in the `b` freed bits. */
  lemma {:induction false} BitOrShifted(x: nat, b: nat, k: nat)
    requires k < Pow2(b)
    ensures BitOr(x * Pow2(b), k) == x * Pow2(b) + k
    decreases b
  {
    if b > 0 && x > 0 && k > 0 {
      var y := x * Pow2(b);
      assert y == 2 * (x * Pow2(b - 1));
      BitOrShifted(x, b - 1, k / 2);
    }
  }

  // ---------- the two masks ----------

  /** 0b01 repeated `d` times. */
  function EvenMask(d: nat): nat {
    if d == 0 then 0 else 1 + 4 * EvenMask(d - 1)
  }

  lemma EvenMaskStep(d: nat)
    requires d > 0
    ensures EvenMask(d) == 4 * EvenMask(d - 1) + 1
  {
  }

  lemma MasksAre32Bit()
    ensures EvenMask(MASK_DIGITS) == EVEN_MASK
    ensures 2 * EvenMask(MASK_DIGITS) == ODD_MASK
  {
    assert EvenMask(4) == 0x55;
    assert EvenMask(8) == 0x5555;
    assert EvenMask(12) == 0x55_5555;
  }

  /** The even-position bits of the `d` low base-4 digits, packed together. */
  function Gather(v: nat, d: nat): nat {
    if d == 0 then 0 else v % 2 + 2 * Gather(v / 4, d - 1)
  }

  lemma {:induction false} GatherBound(v: nat, d: nat)
    ensures Gather(v, d) < Pow2(d)
  {
    if d > 0 {
      GatherBound(v / 4, d - 1);
    }
  }

  lemma GatherStep(v: nat, d: nat)
    requires d > 0
    ensures Gather(v, d) == v % 2 + 2 * Gather(v / 4, d - 1)
  {
  }

  lemma GatherDigit(q: nat, hi: nat, lo: nat, d: nat)
    requires hi < 2 && lo < 2 && d > 0
    ensures Gather(4 * q + 2 * hi + lo, d) == lo + 2 * Gather(q, d - 1)
  {
    hide *;
    DigitSplit(q, hi, lo);
    GatherStep(4 * q + 2 * hi + lo, d);
  }

  // ---------- bit spreading ----------

  /** The bits of `k` moved to the even positions: bit i of `k` becomes bit 2i. */
  function Spread(k: nat): nat {
    if k == 0 then 0 else k % 2 + 4 * Spread(k / 2)
  }

  /** The bits at even positions, packed: the inverse of `Spread`. */
  function Unspread(v: nat): nat {
    if v == 0 then 0 else v % 2 + 2 * Unspread(v / 4)
  }

  lemma SpreadDigit(q: nat, b: nat)
    requires b < 2
    ensures Spread(2 * q + b) == b + 4 * Spread(q)
  {
  }

  lemma UnspreadStep(v: nat)
    ensures Unspread(v) == v % 2 + 2 * Unspread(v / 4)
  {
    if v == 0 {
      assert Unspread(0) == 0;
    }
  }

  lemma DigitSplit(q: nat, hi: nat, lo: nat)
    requires hi < 2 && lo < 2
    ensures var v := 4 * q + 2 * hi + lo;
            v / 4 == v / 2 / 2 == q && v % 2 == lo && v / 2 % 2 == hi && v / 2 / 4 == q / 2
  {
    var v := 4 * q + 2 * hi + lo;
    assert v / 2 == 2 * q + hi;
  }

  lemma ZeroIndex()
    ensures Spread(0) == Unspread(0) == 0
    ensures Row(0) == Col(0) == Z(0, 0) == 0
  {
  }

  lemma {:induction false} SpreadRoundTrip(k: nat)
    ensures Unspread(Spread(k)) == k
    ensures Unspread(Spread(k) / 2) == 0
  {
    hide Spread, Unspread, Row, Col, Z;
    if k == 0 {
      ZeroIndex();
    } else {
      var q, b := k / 2, k % 2;
      assert k == 2 * q + b;
      SpreadRoundTrip(q);
      SpreadDigit(q, b);
      var s := Spread(q);
      DigitSplit(s, 0, b);
      UnspreadStep(4 * s + b);
      UnspreadStep((4 * s + b) / 2);
    }
  }

  lemma {:induction false} SpreadMonotone(j: nat, k: nat)
    requires j < k
    ensures Spread(j) < Spread(k)
  {
    if j / 2 < k / 2 {
      SpreadMonotone(j / 2, k / 2);
    }
  }

  lemma {:induction false} SpreadBound(k: nat, m: nat)
    ensures k < Pow2(m) <==> Spread(k) < Pow4(m)
    ensures k < Pow2(m) ==> 3 * Spread(k) < Pow4(m)
    decreases k
  {
    if k > 0 && m > 0 {
      SpreadBound(k / 2, m - 1);
    } else if k > 0 {
      SpreadMonotone(0, k);
    }
  }

  /** `Spread` of a full block of ones is the alternating mask. */
  lemma {:induction false} SpreadOfOnes(d: nat)
    ensures Spread(Pow2(d) - 1) == EvenMask(d)
  {
    hide Spread, Unspread, Row, Col, Z;
    if d == 0 {
      ZeroIndex();
    } else {
      SpreadOfOnes(d - 1);
      SpreadDigit(Pow2(d - 1) - 1, 1);
    }
  }

  lemma SpreadSumDigit(k: nat, p: nat, r: nat)
    requires Spread(k / 2 + p) == Spread(k / 2) + r
    ensures Spread(k + 2 * p) == Spread(k) + 4 * r
  {
    hide Spread, Unspread, Row, Col, Z;
    SpreadDigit(k / 2, k % 2);
    SpreadDigit(k / 2 + p, k % 2);
  }

  /** Setting bit `m` above a number of `m` bits sets bit `2m` of its spread. */
  lemma {:induction false} SpreadTopBit(k: nat, m: nat)
    requires k < Pow2(m)
    ensures Spread(k + Pow2(m)) == Spread(k) + Pow4(m)
    decreases m
  {
    hide Spread, Unspread, Row, Col, Z;
    if m == 0 {
      ZeroIndex();
      SpreadDigit(0, 1);
    } else {
      SpreadTopBit(k / 2, m - 1);
      SpreadSumDigit(k, Pow2(m - 1), Pow4(m - 1));
    }
  }

  /** Masking with 0b..0101 keeps exactly the even bits of the covered digits. */
  lemma {:induction false} AndEvenMask(v: nat, d: nat)
    ensures BitAnd(v, EvenMask(d)) == Spread(Gather(v, d))
    decreases d
  {
    if d > 0 {
      hide *;
      AndEvenMask(v / 4, d - 1);
      DigitsOf(v);
      AndEvenMaskStep(v / 4, (v / 2) % 2, v % 2, d);
    }
  }

  lemma AndEvenMaskStep(q: nat, hi: nat, lo: nat, d: nat)
    requires d > 0 && hi < 2 && lo < 2 && BitAnd(q, EvenMask(d - 1)) == Spread(Gather(q, d - 1))
    ensures BitAnd(4 * q + 2 * hi + lo, EvenMask(d)) == Spread(Gather(4 * q + 2 * hi + lo, d))
  {
    EvenMaskStep(d);
    hide *;
    var v, y := 4 * q + 2 * hi + lo, EvenMask(d);
    GatherDigit(q, hi, lo, d);
    DigitSplit(q, hi, lo);
    DigitSplit(EvenMask(d - 1), 0, 1);
    AndStep(v, y);
    AndStep(v / 2, y / 2);
    SpreadDigit(Gather(q, d - 1), lo);
  }

  lemma AndStep(x: nat, y: nat)
    ensures BitAnd(x, y) == (if x % 2 == 1 && y % 2 == 1 then 1 else 0) + 2 * BitAnd(x / 2, y / 2)
  {
  }

  /** Masking with 0b..1010 keeps exactly the odd bits of the covered digits. */
  lemma AndOddMask(v: nat, d: nat)
    ensures BitAnd(v, 2 * EvenMask(d)) == 2 * Spread(Gather(v / 2, d))
  {
    AndEvenMask(v / 2, d);
    var y := 2 * EvenMask(d);
    assert y / 2 == EvenMask(d) && y % 2 == 0;
    if v == 0 || y == 0 {
      assert BitAnd(v / 2, EvenMask(d)) == 0;
    }
  }

  /** Within the covered digits `Gather` is `Unspread`. */
  lemma {:induction false} GatherSmall(v: nat, d: nat)
    requires v < Pow4(d)
    ensures Gather(v, d) == Unspread(v)
    decreases d
  {
    if d > 0 {
      GatherSmall(v / 4, d - 1);
    }
  }

  // ---------- Z-order ----------

  /** The position of row `r`, column `c` in a matrix laid out in Z-order. */
  function Z(r: nat, c: nat): nat { 2 * Spread(r) + Spread(c) }

  function Row(z: nat): nat { Unspread(z / 2) }

  function Col(z: nat): nat { Unspread(z) }

  /** Peeling one base-4 digit off a Z-order index peels one bit off its row
      and one off its column. */
  lemma RowColDigit(q: nat, hi: nat, lo: nat)
    requires hi < 2 && lo < 2
    ensures Row(4 * q + 2 * hi + lo) == hi + 2 * Row(q)
    ensures Col(4 * q + 2 * hi + lo) == lo + 2 * Col(q)
  {
    var v := 4 * q + 2 * hi + lo;
    DigitSplit(q, hi, lo);
    UnspreadStep(v);
    UnspreadStep(v / 2);
  }

  lemma ZDigit(r: nat, c: nat, hi: nat, lo: nat)
    requires hi < 2 && lo < 2
    ensures Z(2 * r + hi, 2 * c + lo) == 4 * Z(r, c) + 2 * hi + lo
  {
    SpreadDigit(r, hi);
    SpreadDigit(c, lo);
  }

  lemma DigitsOf(z: nat)
    ensures z == 4 * (z / 4) + 2 * ((z / 2) % 2) + z % 2
  {
  }

  lemma ZOfRowColStep(q: nat, hi: nat, lo: nat)
    requires hi < 2 && lo < 2 && Z(Row(q), Col(q)) == q
    ensures var z := 4 * q + 2 * hi + lo; Z(Row(z), Col(z)) == z
  {
    hide *;
    RowColDigit(q, hi, lo);
    ZDigit(Row(q), Col(q), hi, lo);
  }

  lemma {:induction false} ZOfRowCol(z: nat)
    ensures Z(Row(z), Col(z)) == z
  {
    hide *;
    if z == 0 {
      ZeroIndex();
    } else {
      DigitsOf(z);
      ZOfRowCol(z / 4);
      ZOfRowColStep(z / 4, (z / 2) % 2, z % 2);
    }
  }

  lemma RowColOfZStep(r: nat, hi: nat, c: nat, lo: nat)
    requires hi < 2 && lo < 2 && Row(Z(r, c)) == r && Col(Z(r, c)) == c
    ensures Row(Z(2 * r + hi, 2 * c + lo)) == 2 * r + hi
    ensures Col(Z(2 * r + hi, 2 * c + lo)) == 2 * c + lo
  {
    hide *;
    ZDigit(r, c, hi, lo);
    RowColDigit(Z(r, c), hi, lo);
  }

  lemma {:induction false} RowColOfZ(r: nat, c: nat)
    ensures Row(Z(r, c)) == r && Col(Z(r, c)) == c
    decreases r + c
  {
    hide *;
    if r == 0 && c == 0 {
      ZeroIndex();
    } else {
      RowColOfZ(r / 2, c / 2);
      RowColOfZStep(r / 2, r % 2, c / 2, c % 2);
    }
  }

  /** Splitting an index is a bijection between [0, 4^m) and [0, 2^m) x [0, 2^m). */
  lemma ZBound(r: nat, c: nat, m: nat)
    ensures r < Pow2(m) && c < Pow2(m) <==> Z(r, c) < Pow4(m)
  {
    SpreadBound(r, m);
    SpreadBound(c, m);
    assert Spread(r) >= 0 && Spread(c) >= 0;
  }

  lemma RowColBound(z: nat, m: nat)
    requires z < Pow4(m)
    ensures Row(z) < Pow2(m) && Col(z) < Pow2(m)
  {
    ZOfRowCol(z);
    ZBound(Row(z), Col(z), m);
  }

  lemma OrStep(x: nat, y: nat)
    ensures BitOr(x, y) == (if x % 2 == 1 || y % 2 == 1 then 1 else 0) + 2 * BitOr(x / 2, y / 2)
  {
    if x == 0 {
      assert y == 2 * (y / 2) + y % 2;
    } else if y == 0 {
      assert x == 2 * (x / 2) + x % 2;
      assert BitOr(x / 2, y / 2) == x / 2;
    }
  }

  lemma OrZero(z: nat, x: nat)
    requires z == 0
    ensures BitOr(z, x) == BitOr(x, z) == x
  {
  }

  lemma {:induction false} OrOfSpreads(j: nat, k: nat)
    ensures BitOr(2 * Spread(j), Spread(k)) == 2 * Spread(j) + Spread(k)
    decreases j + k
  {
    hide *;
    if j == 0 {
      ZeroIndex();
      OrZero(2 * Spread(j), Spread(k));
    } else if k == 0 {
      ZeroIndex();
      OrZero(Spread(k), 2 * Spread(j));
    } else {
      OrOfSpreads(j / 2, k / 2);
      OrOfSpreadsStep(j / 2, j % 2, k / 2, k % 2);
    }
  }

  lemma OrOfSpreadsStep(j: nat, b: nat, k: nat, c: nat)
    requires b < 2 && c < 2 && BitOr(2 * Spread(j), Spread(k)) == 2 * Spread(j) + Spread(k)
    ensures BitOr(2 * Spread(2 * j + b), Spread(2 * k + c)) == 2 * Spread(2 * j + b) + Spread(2 * k + c)
  {
    hide *;
    SpreadDigit(j, b);
    SpreadDigit(k, c);
    var x, y := 4 * (2 * Spread(j)) + 2 * b + 0, 4 * Spread(k) + 2 * 0 + c;
    DigitSplit(2 * Spread(j), b, 0);
    DigitSplit(Spread(k), 0, c);
    OrStep(x, y);
    OrStep(x / 2, y / 2);
    assert x / 2 / 2 == 2 * Spread(j) && y / 2 / 2 == Spread(k);
  }

  /** The two masks split a Z-order index into its row part and column part. */
  lemma MaskedIndex(ij: nat, m: nat)
    requires m <= MASK_DIGITS && ij < Pow4(m)
    ensures BitAnd(ij, ODD_MASK) == 2 * Spread(Row(ij))
    ensures BitAnd(ij, EVEN_MASK) == Spread(Col(ij))
  {
    MasksAre32Bit();
    PowMonotone(m, MASK_DIGITS);
    AndOddMask(ij, MASK_DIGITS);
    AndEvenMask(ij, MASK_DIGITS);
    GatherSmall(ij, MASK_DIGITS);
    GatherSmall(ij / 2, MASK_DIGITS);
  }

  /** Every unchecked read of the Z-order multiply is in range and reads the
      intended element: for output index `ij` and the `k`-th counter value,
      `i | k` is the position of (row, k) and `k << 1 | j` that of (k, column). */
  lemma {:induction false} UncheckedReads(ij: nat, k: nat, m: nat)
    requires m <= MASK_DIGITS && ij < Pow4(m) && k < Pow2(m)
    ensures BitOr(BitAnd(ij, ODD_MASK), Spread(k)) == Z(Row(ij), k) < Pow4(m)
    ensures BitOr(2 * Spread(k), BitAnd(ij, EVEN_MASK)) == Z(k, Col(ij)) < Pow4(m)
  {
    MaskedIndex(ij, m);
    RowColBound(ij, m);
    OrOfSpreads(Row(ij), k);
    OrOfSpreads(k, Col(ij));
    ZBound(Row(ij), k, m);
    ZBound(k, Col(ij), m);
  }

  // ---------- the length test ----------

  function CountOnes(x: nat): nat {
    if x == 0 then 0 else x % 2 + CountOnes(x / 2)
  }

  function TrailingZeros(x: nat): nat
    requires x > 0
  {
    if x % 2 == 1 then 0 else 1 + TrailingZeros(x / 2)
  }

  lemma {:induction false} CountOnesPositive(x: nat)
    ensures x > 0 ==> CountOnes(x) >= 1
  {
    if x > 1 {
      CountOnesPositive(x / 2);
    }
  }

  lemma {:induction false} OneBitIsPow2(x: nat)
    requires x > 0 && CountOnes(x) == 1
    ensures x == Pow2(TrailingZeros(x))
  {
    if x % 2 == 1 {
      CountOnesPositive(x / 2);
    } else {
      OneBitIsPow2(x / 2);
    }
  }

  lemma {:induction false} Pow2IsOneBit(n: nat)
    ensures CountOnes(Pow2(n)) == 1 && TrailingZeros(Pow2(n)) == n
  {
    if n > 0 {
      Pow2IsOneBit(n - 1);
      assert Pow2(n) % 2 == 0 && Pow2(n) / 2 == Pow2(n - 1);
    }
  }

  ghost predicate IsPowerOfFour(len: nat) { exists m: nat :: len == Pow4(m) }

  /** The asserted guard accepts exactly the powers of four. */
  lemma LengthGuard(len: nat)
    ensures len > 0 && CountOnes(len) == 1 && TrailingZeros(len) % 2 == 0 <==> IsPowerOfFour(len)
  {
    hide Pow2, Pow4, CountOnes, TrailingZeros;
    if len > 0 && CountOnes(len) == 1 && TrailingZeros(len) % 2 == 0 {
      OneBitIsPow2(len);
      var m := TrailingZeros(len) / 2;
      Pow4IsSquare(m);
    }
    if IsPowerOfFour(len) {
      var m: nat :| len == Pow4(m);
      Pow4IsSquare(m);
      Pow2IsOneBit(2 * m);
    }
  }
}
