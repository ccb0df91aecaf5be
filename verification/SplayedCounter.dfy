/** The iterator behind the leaf multiply's inner loop: its items are the spread numbers
    below a limit, although the field it counts in also carries other bits. */
module SplayedCounter {
  import opened Bits
  import opened Options

  const USIZE_MAX: nat := 0xffff_ffff_ffff_ffff

  /** Indices the masks can address: 2^16. */
  const PERIOD: nat := 0x1_0000

  /** Values of half a word: 2^32. */
  const HALF: nat := 0x1_0000_0000

  /** The number of the advance that leaves 64 bits: 2^48 - 1. */
  const LAST: nat := 0xffff_ffff_ffff

  /** Set all odd-position bits, then add one so that the carry runs through them. The addition
      wraps as in a release build; where overflow is checked it panics (see `Overflows`). */
  function Advance(value: nat): nat {
    var filled := BitOr(value, ODD_MASK);
    if filled >= USIZE_MAX then 0 else filled + 1
  }

  /** Adding one to the filled value leaves 64 bits. */
  predicate Overflows(value: nat) { BitOr(value, ODD_MASK) >= USIZE_MAX }

  /** The counter field after `n` advances. */
  function ValueAfter(n: nat): nat {
    if n == 0 then 0 else Advance(ValueAfter(n - 1))
  }

  lemma OrOddMaskDigit(q: nat, hi: nat, lo: nat, d: nat)
    requires hi < 2 && lo < 2 && d > 0
    ensures BitOr(4 * q + 2 * hi + lo, 2 * EvenMask(d)) == 4 * BitOr(q, 2 * EvenMask(d - 1)) + 2 + lo
  {
    var v, y, y' := 4 * q + 2 * hi + lo, 2 * EvenMask(d), 2 * EvenMask(d - 1);
    hide *;
    EvenMaskStep(d);
    assert y == 4 * y' + 2 * 1 + 0;
    DigitSplit(q, hi, lo);
    DigitSplit(y', 1, 0);
    OrStep(v, y);
    OrStep(v / 2, y / 2);
  }

  /** Filling the odd positions leaves the even ones alone. */
  lemma {:induction false} FillKeepsEven(v: nat, d: nat)
    ensures Gather(BitOr(v, 2 * EvenMask(d)), d) == Gather(v, d)
    decreases d
  {
    if d > 0 {
      hide *;
      FillKeepsEven(v / 4, d - 1);
      DigitsOf(v);
      FillKeepsEvenStep(v / 4, (v / 2) % 2, v % 2, d);
    }
  }

  lemma FillKeepsEvenStep(q: nat, hi: nat, lo: nat, d: nat)
    requires d > 0 && hi < 2 && lo < 2
    requires Gather(BitOr(q, 2 * EvenMask(d - 1)), d - 1) == Gather(q, d - 1)
    ensures Gather(BitOr(4 * q + 2 * hi + lo, 2 * EvenMask(d)), d) == Gather(4 * q + 2 * hi + lo, d)
  {
    hide *;
    OrOddMaskDigit(q, hi, lo, d);
    GatherDigit(q, hi, lo, d);
    GatherDigit(BitOr(q, 2 * EvenMask(d - 1)), 1, lo, d);
  }

  /** Whatever the other positions hold, one advance adds one to the number
      held in the even positions, modulo 2^d. */
  lemma {:induction false} FillAndAdd(v: nat, d: nat)
    ensures Gather(BitOr(v, 2 * EvenMask(d)) + 1, d)
         == if Gather(v, d) + 1 == Pow2(d) then 0 else Gather(v, d) + 1
    decreases d
  {
    if d > 0 {
      hide *;
      FillAndAdd(v / 4, d - 1);
      DigitsOf(v);
      FillAndAddStep(v / 4, (v / 2) % 2, v % 2, d);
    }
  }

  lemma FillAndAddStep(q: nat, hi: nat, lo: nat, d: nat)
    requires d > 0 && hi < 2 && lo < 2
    requires Gather(BitOr(q, 2 * EvenMask(d - 1)) + 1, d - 1)
          == if Gather(q, d - 1) + 1 == Pow2(d - 1) then 0 else Gather(q, d - 1) + 1
    ensures var v := 4 * q + 2 * hi + lo;
            Gather(BitOr(v, 2 * EvenMask(d)) + 1, d)
            == if Gather(v, d) + 1 == Pow2(d) then 0 else Gather(v, d) + 1
  {
    hide *;
    PowStep(d);
    OrOddMaskDigit(q, hi, lo, d);
    var b := BitOr(q, 2 * EvenMask(d - 1));
    FillKeepsEven(q, d - 1);
    GatherDigit(q, hi, lo, d);
    if lo == 0 {
      GatherDigit(b, 1, 1, d);
    } else {
      GatherDigit(b + 1, 0, 0, d);
    }
  }

  /** What lies above the `d` low base-4 digits. */
  function High(v: nat, d: nat): nat {
    if d == 0 then v else High(v / 4, d - 1)
  }

  lemma HighStep(v: nat, d: nat)
    requires d > 0
    ensures High(v, d) == High(v / 4, d - 1)
  {
  }

  lemma HighDigit(q: nat, hi: nat, lo: nat, d: nat)
    requires hi < 2 && lo < 2 && d > 0
    ensures High(4 * q + 2 * hi + lo, d) == High(q, d - 1)
  {
    hide *;
    DigitSplit(q, hi, lo);
    HighStep(4 * q + 2 * hi + lo, d);
  }

  lemma {:induction false} HighBound(v: nat, d: nat, e: nat)
    ensures High(v, d) < Pow4(e) <==> v < Pow4(d + e)
    decreases d
  {
    if d > 0 {
      HighBound(v / 4, d - 1, e);
      PowStep(d + e);
    }
  }

  lemma {:induction false} FillKeepsHigh(v: nat, d: nat)
    ensures High(BitOr(v, 2 * EvenMask(d)), d) == High(v, d)
    decreases d
  {
    if d == 0 {
      OrZero(2 * EvenMask(d), v);
    } else {
      hide *;
      FillKeepsHigh(v / 4, d - 1);
      DigitsOf(v);
      OrOddMaskDigit(v / 4, (v / 2) % 2, v % 2, d);
      HighDigit(v / 4, (v / 2) % 2, v % 2, d);
      HighDigit(BitOr(v / 4, 2 * EvenMask(d - 1)), 1, v % 2, d);
    }
  }

  /** One advance carries into the digits above exactly when the even positions are full. */
  lemma {:induction false} FillAndCarry(v: nat, d: nat)
    ensures High(BitOr(v, 2 * EvenMask(d)) + 1, d)
         == High(v, d) + if Gather(v, d) + 1 == Pow2(d) then 1 else 0
    decreases d
  {
    if d == 0 {
      OrZero(2 * EvenMask(d), v);
    } else {
      hide *;
      FillAndCarry(v / 4, d - 1);
      DigitsOf(v);
      FillAndCarryStep(v / 4, (v / 2) % 2, v % 2, d);
    }
  }

  lemma FillAndCarryStep(q: nat, hi: nat, lo: nat, d: nat)
    requires d > 0 && hi < 2 && lo < 2
    requires High(BitOr(q, 2 * EvenMask(d - 1)) + 1, d - 1)
          == High(q, d - 1) + if Gather(q, d - 1) + 1 == Pow2(d - 1) then 1 else 0
    ensures var v := 4 * q + 2 * hi + lo;
            High(BitOr(v, 2 * EvenMask(d)) + 1, d)
            == High(v, d) + if Gather(v, d) + 1 == Pow2(d) then 1 else 0
  {
    hide *;
    PowStep(d);
    OrOddMaskDigit(q, hi, lo, d);
    var b := BitOr(q, 2 * EvenMask(d - 1));
    HighDigit(q, hi, lo, d);
    GatherDigit(q, hi, lo, d);
    if lo == 0 {
      FillKeepsHigh(q, d - 1);
      HighDigit(b, 1, 1, d);
    } else {
      HighDigit(b + 1, 0, 0, d);
    }
  }

  lemma {:induction false} HighZero(v: nat, d: nat)
    requires v == 0
    ensures High(v, d) == 0
  {
    if d > 0 {
      HighZero(v / 4, d - 1);
    }
  }

  lemma {:induction false} GatherZero(v: nat, d: nat)
    requires v == 0
    ensures Gather(v, d) == 0
  {
    if d > 0 {
      GatherZero(v / 4, d - 1);
    }
  }

  lemma {:induction false} GatherTop(v: nat, e: nat, d: nat)
    requires d <= e && v == Pow4(e)
    ensures Gather(v, d) == 0
    decreases d
  {
    if d > 0 {
      GatherTop(Pow4(e - 1), e - 1, d - 1);
      GatherDigit(Pow4(e - 1), 0, 0, d);
    }
  }

  lemma {:induction false} Pow2At(n: nat, p: nat, q: nat)
    requires Pow2(n) == p && q == p * p
    ensures Pow2(2 * n) == q && Pow4(n) == q
  {
    Pow4IsSquare(n);
  }

  lemma WordSizes()
    ensures Pow2(MASK_DIGITS) == PERIOD
    ensures Pow2(64) == Pow4(32) == USIZE_MAX + 1
  {
    assert Pow2(4) == 16;
    Pow2At(4, 0x10, 0x100);
    Pow2At(8, 0x100, 0x1_0000);
    Pow2At(16, 0x1_0000, 0x1_0000_0000);
    Pow2At(32, 0x1_0000_0000, 0x1_0000_0000_0000_0000);
  }

  /** One advance on a 64-bit word, wrap-around included. */
  lemma AdvanceCounts(v: nat)
    requires v <= USIZE_MAX
    ensures Advance(v) <= USIZE_MAX
    ensures Gather(Advance(v), MASK_DIGITS) == (Gather(v, MASK_DIGITS) + 1) % PERIOD
  {
    hide BitOr, BitAnd, Gather, EvenMask, Pow2, Pow4, Spread;
    WordSizes();
    MasksAre32Bit();
    BitOrBound(v, ODD_MASK, 64);
    FillAndAdd(v, MASK_DIGITS);
    GatherBound(v, MASK_DIGITS);
    var g, f := Gather(v, MASK_DIGITS), BitOr(v, ODD_MASK);
    if f == USIZE_MAX {
      GatherTop(f + 1, 32, MASK_DIGITS);
      GatherZero(Advance(v), MASK_DIGITS);
    }
    assert (g + 1) % PERIOD == if g + 1 == PERIOD then 0 else g + 1;
  }

  /** The field has two parts: the number in the even positions of its low 32 bits, and what
      lies above them. An advance counts the first up, and the second when the first wraps. */
  lemma AdvanceCarries(v: nat)
    requires v <= USIZE_MAX
    ensures Overflows(v) <==> High(v, MASK_DIGITS) == HALF - 1 && Gather(v, MASK_DIGITS) == PERIOD - 1
    ensures !Overflows(v) ==>
              High(Advance(v), MASK_DIGITS) == High(v, MASK_DIGITS) + if Gather(v, MASK_DIGITS) == PERIOD - 1 then 1 else 0
  {
    hide BitOr, BitAnd, Gather, EvenMask, Pow2, Pow4, Spread, High;
    WordSizes();
    MasksAre32Bit();
    Pow4IsSquare(MASK_DIGITS);
    FillAndCarry(v, MASK_DIGITS);
    GatherBound(v, MASK_DIGITS);
    HighBound(v, MASK_DIGITS, MASK_DIGITS);
    HighBound(BitOr(v, ODD_MASK) + 1, MASK_DIGITS, MASK_DIGITS);
  }

  lemma {:induction false} ValueAfterHigh(n: nat)
    requires n <= LAST
    ensures High(ValueAfter(n), MASK_DIGITS) == n / PERIOD
    ensures n < LAST ==> !Overflows(ValueAfter(n))
  {
    hide BitOr, BitAnd, Gather, EvenMask, Pow2, Pow4, Spread, High, Overflows, Advance;
    ValueAfterCounts(n);
    if n == 0 {
      HighZero(ValueAfter(n), MASK_DIGITS);
    } else {
      ValueAfterHigh(n - 1);
      ValueAfterCounts(n - 1);
      AdvanceCarries(ValueAfter(n - 1));
    }
    AdvanceCarries(ValueAfter(n));
  }

  /** The addition leaves 64 bits for the first time in call 2^48. */
  lemma FirstOverflow(n: nat)
    requires n <= LAST
    ensures Overflows(ValueAfter(n)) <==> n == LAST
  {
    hide BitOr, BitAnd, Gather, EvenMask, Pow2, Pow4, Spread, High, Overflows, Advance, ValueAfter;
    ValueAfterHigh(n);
    ValueAfterCounts(n);
    AdvanceCarries(ValueAfter(n));
  }

  /** What the iterator offers next, given its field. */
  lemma Offered(v: nat)
    ensures BitAnd(v, EVEN_MASK) == Spread(Gather(v, MASK_DIGITS)) <= EVEN_MASK
  {
    hide BitOr, BitAnd, Gather, EvenMask, Pow2, Pow4, Spread;
    MasksAre32Bit();
    WordSizes();
    AndEvenMask(v, MASK_DIGITS);
    GatherBound(v, MASK_DIGITS);
    SpreadOfOnes(MASK_DIGITS);
    if Gather(v, MASK_DIGITS) < PERIOD - 1 {
      SpreadMonotone(Gather(v, MASK_DIGITS), PERIOD - 1);
    }
  }

  lemma {:induction false} ValueAfterCounts(n: nat)
    ensures ValueAfter(n) <= USIZE_MAX
    ensures Gather(ValueAfter(n), MASK_DIGITS) == n % PERIOD
  {
    hide BitOr, BitAnd, Gather, EvenMask, Pow2, Pow4, Spread;
    if n == 0 {
      GatherZero(ValueAfter(n), MASK_DIGITS);
    } else {
      ValueAfterCounts(n - 1);
      AdvanceCounts(ValueAfter(n - 1));
    }
  }

  /** Short of the last item an advance stays within 32 bits. */
  lemma AdvanceInHalf(v: nat)
    requires v < HALF && BitAnd(v, EVEN_MASK) < EVEN_MASK
    ensures BitOr(v, ODD_MASK) + 1 < HALF
  {
    hide BitOr, BitAnd, Gather, EvenMask, Pow2, Pow4, Spread, High;
    WordSizes();
    MasksAre32Bit();
    Pow4IsSquare(MASK_DIGITS);
    Offered(v);
    LastItem();
    FillAndCarry(v, MASK_DIGITS);
    SmallHigh(v, MASK_DIGITS);
    SmallHigh(BitOr(v, ODD_MASK) + 1, MASK_DIGITS);
  }

  lemma SmallHigh(v: nat, d: nat)
    ensures High(v, d) == 0 <==> v < Pow4(d)
  {
    hide High;
    var e: nat := 0;
    HighBound(v, d, e);
    assert Pow4(e) == 1 && d + e == d;
  }

  /** After `n` advances the iterator stops at bound `max`. */
  predicate StopsAt(max: nat, n: nat) { BitAnd(ValueAfter(n), EVEN_MASK) >= max }

  /** Iteration ends exactly for bounds the 32-bit mask can reach; above
      0x5555_5555 the iterator yields `Some` forever. */
  lemma TerminatesIff(max: nat)
    ensures (exists n: nat :: StopsAt(max, n)) <==> max <= EVEN_MASK
  {
    hide BitOr, BitAnd, Gather, EvenMask, Pow2, Pow4, Spread;
    if max <= EVEN_MASK {
      ValueAfterCounts(PERIOD - 1);
      MasksAre32Bit();
      WordSizes();
      AndEvenMask(ValueAfter(PERIOD - 1), MASK_DIGITS);
      SpreadOfOnes(MASK_DIGITS);
      assert StopsAt(max, PERIOD - 1);
    }
    forall n: nat | StopsAt(max, n)
      ensures max <= EVEN_MASK
    {
      Offered(ValueAfter(n));
    }
  }

  /** The iterator is still running at call `n`. */
  ghost predicate Running(max: nat, n: nat) {
    forall k: nat :: k <= n ==> !StopsAt(max, k)
  }

  /** A checked addition ever fails exactly for limits above 0x5555_5555. */
  lemma OverflowIff(max: nat)
    ensures (exists n: nat :: Running(max, n) && Overflows(ValueAfter(n))) <==> max > EVEN_MASK
  {
    hide BitOr, BitAnd, Gather, EvenMask, Pow2, Pow4, Spread, Overflows, ValueAfter, StopsAt;
    if max > EVEN_MASK {
      OverflowAbove(max, LAST);
    } else {
      forall n: nat | Running(max, n)
        ensures !Overflows(ValueAfter(n))
      {
        StopsInTime(max, PERIOD - 1);
        assert n < PERIOD - 1;
        FirstOverflow(n);
      }
    }
  }

  lemma OverflowAbove(max: nat, n: nat)
    requires max > EVEN_MASK && n == LAST
    ensures Running(max, n) && Overflows(ValueAfter(n))
  {
    hide BitOr, BitAnd, Gather, EvenMask, Pow2, Pow4, Spread, Overflows, ValueAfter;
    FirstOverflow(n);
    forall k: nat | k <= n
      ensures !StopsAt(max, k)
    {
      Offered(ValueAfter(k));
    }
  }

  lemma StopsInTime(max: nat, n: nat)
    requires max <= EVEN_MASK && n == PERIOD - 1
    ensures StopsAt(max, n)
  {
    hide BitOr, BitAnd, Gather, EvenMask, Pow2, Pow4, Spread, ValueAfter;
    ValueAfterCounts(n);
    Offered(ValueAfter(n));
    LastItem();
  }

  class SplayedBitsCounter {
    var value: nat
    var max: nat
    /** How many items have been returned. */
    ghost var yielded: nat

    ghost predicate Valid()
      reads this
    {
      && value <= USIZE_MAX && Gather(value, MASK_DIGITS) == yielded % PERIOD
      && (max <= EVEN_MASK ==> value < HALF)
    }

    constructor (max: nat)
      ensures Valid() && this.max == max && yielded == 0
    {
      this.value, this.max, this.yielded := 0, max, 0;
      new;
      GatherZero(value, MASK_DIGITS);
    }

    method Next() returns (r: Option<nat>)
      requires Valid()
      modifies this
      ensures Valid() && max == old(max)
      ensures var item := Spread(old(yielded) % PERIOD);
              if item < max then r == Some(item) && yielded == old(yielded) + 1
              else r == None && yielded == old(yielded) && value == old(value)
      ensures r.Some? && max <= EVEN_MASK ==> value == BitOr(old(value), ODD_MASK) + 1 < HALF
    {
      hide BitOr, BitAnd, Gather, EvenMask, Pow2, Pow4, Spread;
      Offered(value);
      var prev := BitAnd(value, EVEN_MASK);
      if prev < max {
        AdvanceCounts(value);
        if max <= EVEN_MASK {
          AdvanceInHalf(value);
        }
        value := BitOr(value, ODD_MASK);
        value := if value >= USIZE_MAX then 0 else value + 1;
        yielded := yielded + 1;
        r := Some(prev);
      } else {
        r := None;
      }
    }
  }

  /** The items of a whole iteration: the spread numbers below `max`, in order. */
  method Collect(max: nat) returns (items: seq<nat>)
    requires max <= EVEN_MASK
    ensures forall k :: 0 <= k < |items| ==> items[k] == Spread(k) < max
    ensures max <= Spread(|items|)
    ensures forall j, k :: 0 <= j < k < |items| ==> items[j] < items[k]
    ensures forall v :: v in items <==> 0 <= v < max && BitAnd(v, EVEN_MASK) == v
  {
    hide BitOr, BitAnd, Gather, EvenMask, Pow2, Pow4, Spread;
    items := [];
    var counter := new SplayedBitsCounter(max);
    LastItem();
    while true
      invariant fresh(counter) && counter.Valid() && counter.max == max
      invariant counter.yielded == |items| < PERIOD
      invariant forall k :: 0 <= k < |items| ==> items[k] == Spread(k) < max
      decreases PERIOD - |items|
    {
      var r := counter.Next();
      if r == None {
        break;
      }
      items := items + [r.value];
    }
    forall j, k | 0 <= j < k < |items|
      ensures items[j] < items[k]
    {
      SpreadMonotone(j, k);
    }
    ExactItems(items, max);
  }

  lemma LastItem()
    ensures Spread(PERIOD - 1) == EVEN_MASK
  {
    hide BitOr, BitAnd, Gather, EvenMask, Pow2, Pow4, Spread;
    MasksAre32Bit();
    WordSizes();
    SpreadOfOnes(MASK_DIGITS);
  }

  lemma ExactItems(items: seq<nat>, max: nat)
    requires |items| <= PERIOD && max <= EVEN_MASK
    requires forall k :: 0 <= k < |items| ==> items[k] == Spread(k) < max
    requires max <= Spread(|items|)
    ensures forall v :: v in items <==> 0 <= v < max && BitAnd(v, EVEN_MASK) == v
  {
    hide BitOr, BitAnd, Gather, EvenMask, Pow2, Pow4, Spread;
    forall v: nat | v < max && BitAnd(v, EVEN_MASK) == v
      ensures v in items
    {
      Offered(v);
      var k := Gather(v, MASK_DIGITS);
      if k > |items| {
        SpreadMonotone(|items|, k);
      }
      assert items[k] == v;
    }
    forall v | v in items
      ensures 0 <= v < max && BitAnd(v, EVEN_MASK) == v
    {
      var k :| 0 <= k < |items| && items[k] == v;
      MaskKeepsSpread(k);
    }
  }

  lemma {:induction false} MaskKeepsSpread(k: nat)
    requires k < PERIOD
    ensures BitAnd(Spread(k), EVEN_MASK) == Spread(k)
  {
    hide BitOr, BitAnd, Gather, EvenMask, Pow2, Pow4, Spread;
    WordSizes();
    MasksAre32Bit();
    AndEvenMask(Spread(k), MASK_DIGITS);
    SpreadBound(k, MASK_DIGITS);
    GatherSmall(Spread(k), MASK_DIGITS);
    SpreadRoundTrip(k);
  }

  /** For a matrix length 4^m the iterator yields 2^m items. */
  lemma {:induction false} ItemCount(m: nat, n: nat)
    requires m < MASK_DIGITS
    requires forall k :: 0 <= k < n ==> Spread(k) < Pow4(m)
    requires Pow4(m) <= Spread(n)
    ensures n == Pow2(m) && Pow4(m) <= EVEN_MASK
  {
    hide BitOr, BitAnd, Gather, EvenMask, Pow2, Pow4, Spread;
    SpreadBound(n, m);
    assert n >= Pow2(m);
    if n > Pow2(m) {
      SpreadBound(Pow2(m), m);
    }
    CounterBound(m);
  }

  lemma CounterBound(m: nat)
    requires m < MASK_DIGITS
    ensures Pow4(m) <= EVEN_MASK && Pow2(m) < PERIOD
  {
    hide BitOr, BitAnd, Gather, EvenMask, Pow2, Pow4, Spread;
    WordSizes();
    PowMonotone(m, MASK_DIGITS);
    PowMonotone(m, 15);
    PowMonotone(15, MASK_DIGITS);
    Pow4IsSquare(MASK_DIGITS);
    assert PERIOD * PERIOD == 0x1_0000_0000;
  }
}
