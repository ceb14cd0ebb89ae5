/** Exponential backoff on 64-bit signed durations, in nanoseconds. */
module Backoff {
  import opened Arithmetic

  const TWO_63: int := 0x8000_0000_0000_0000
  const TWO_64: int := 0x1_0000_0000_0000_0000

  newtype Int64 = x: int | -0x8000_0000_0000_0000 <= x < 0x8000_0000_0000_0000

  const MAX_SHIFT: nat := 30

  function Pow2(n: nat): nat {
    if n == 0 then 1 else 2 * Pow2(n - 1)
  }

  /** The low 64 bits of `x`, read as a signed number. */
  function Wrap(x: int): Int64 {
    ((x + TWO_63) % TWO_64 - TWO_63) as Int64
  }

  /** `base << shift` in Go: the bits shifted out are lost. */
  function ShiftLeft(base: Int64, shift: nat): Int64 {
    Wrap(base as int * Pow2(shift))
  }

  function Shift(attempt: int): nat {
    if attempt < 1 then 0 else if attempt - 1 > MAX_SHIFT then MAX_SHIFT else attempt - 1
  }

  /** The delay before the given attempt. */
  function Next(base: Int64, max: Int64, attempt: int): Int64 {
    var d := ShiftLeft(base, Shift(attempt));
    if d <= 0 || d > max then max else d
  }

  /** The product the shift stands for, without overflow. */
  function Product(base: Int64, attempt: int): int {
    base as int * Pow2(Shift(attempt))
  }

  // ----- powers of two -----

  lemma {:induction false} Pow2Sum(a: nat, b: nat)
    ensures Pow2(a + b) == Pow2(a) * Pow2(b)
  {
    if b > 0 {
      Pow2Sum(a, b - 1);
    }
  }

  lemma {:induction false} Pow2Grows(a: nat, b: nat)
    requires a <= b
    ensures 1 <= Pow2(a) <= Pow2(b)
    ensures a < b ==> 2 * Pow2(a) <= Pow2(b)
  {
    if a < b {
      Pow2Grows(a, b - 1);
    } else if a > 0 {
      Pow2Grows(a - 1, a - 1);
    }
  }

  lemma Pow2Of30()
    ensures Pow2(MAX_SHIFT) == 0x4000_0000
  {
    assert Pow2(5) == 32;
    Pow2Sum(5, 5);
    Pow2Sum(10, 10);
    Pow2Sum(20, 10);
  }

  lemma WrapIs(x: int)
    ensures 0 <= x < TWO_63 ==> Wrap(x) as int == x
    ensures TWO_63 <= x < TWO_64 ==> Wrap(x) as int == x - TWO_64 < 0
    ensures TWO_64 <= x < TWO_64 + TWO_63 ==> Wrap(x) as int == x - TWO_64 >= 0
  {
  }

  // ----- what the delay is -----

  /** With a positive cap the delay is positive and within the cap, whatever the base. */
  lemma DelayIsInRange(base: Int64, max: Int64, attempt: int)
    requires max > 0
    ensures 0 < Next(base, max, attempt) <= max
  {
  }

  /** The overflow that goes unnoticed: the low 64 bits of an overflowing product read as a positive
      number below the cap. */
  predicate Misread(base: Int64, max: Int64, attempt: int) {
    Product(base, attempt) >= TWO_63 && 0 < Wrap(Product(base, attempt)) < max
  }

  /** The exact condition: for a positive base and cap the delay is the capped product, unless an
      overflow goes unnoticed. */
  lemma DelayIsCappedProductIff(base: Int64, max: Int64, attempt: int)
    requires base > 0 && max > 0
    ensures Next(base, max, attempt) as int == Min(Product(base, attempt), max as int)
            <==> !Misread(base, max, attempt)
  {
    var p := Product(base, attempt);
    Pow2Grows(0, Shift(attempt));
    TimesGrows(1, base as int, Pow2(Shift(attempt)));
    WrapIs(p);
    hide Wrap, Pow2;
  }

  /** The capped shift overflows for no attempt exactly if the base is below 2^33. */
  lemma NoOverflowIff(base: Int64)
    requires base > 0
    ensures (forall attempt :: Product(base, attempt) < TWO_63) <==> base as int < 0x2_0000_0000
  {
    Pow2Of30();
    var b := base as int;
    assert Product(base, 31) == b * 0x4000_0000;
    if b < 0x2_0000_0000 {
      forall attempt ensures Product(base, attempt) < TWO_63 {
        ProductBound(base, attempt);
      }
    }
  }

  lemma ProductBound(base: Int64, attempt: int)
    requires base > 0
    ensures base as int <= Product(base, attempt) <= base as int * 0x4000_0000
  {
    Pow2Of30();
    Pow2Grows(0, Shift(attempt));
    Pow2Grows(Shift(attempt), MAX_SHIFT);
    TimesGrows(1, Pow2(Shift(attempt)), base as int);
    TimesGrows(Pow2(Shift(attempt)), 0x4000_0000, base as int);
  }

  /** The first attempt whose product overflows: it is less than twice the largest number, so it
      reads negative. */
  lemma {:induction false} FirstOverflow(base: Int64, attempt: int) returns (first: int)
    requires base > 0 && Product(base, attempt) >= TWO_63
    ensures first <= attempt && TWO_63 <= Product(base, first) < TWO_64
    decreases attempt
  {
    if attempt <= 1 {
      first := attempt;
    } else if Product(base, attempt - 1) >= TWO_63 {
      first := FirstOverflow(base, attempt - 1);
    } else {
      first := attempt;
      ProductDoubles(base, attempt);
    }
  }

  lemma ProductDoubles(base: Int64, attempt: int)
    requires base > 0 && attempt > 1
    ensures Product(base, attempt) <= 2 * Product(base, attempt - 1)
  {
    var s, b := Shift(attempt - 1), base as int;
    Pow2Grows(0, s);
    TimesGrows(0, b, Pow2(s));
    if attempt - 1 <= MAX_SHIFT {
      assert b * (2 * Pow2(s)) == 2 * (b * Pow2(s));
    }
  }

  /** The capped product, attempt by attempt, is what makes the delay never fall, and nothing else
      does: if an overflow at some attempt reads as a positive number below the cap, an earlier
      attempt already got the cap. */
  lemma DelayNeverFallsIff(base: Int64, max: Int64)
    requires base > 0 && max > 0
    ensures (forall early, late :: early <= late ==> Next(base, max, early) <= Next(base, max, late))
            <==> (forall attempt :: !Misread(base, max, attempt))
  {
    if forall attempt :: !Misread(base, max, attempt) {
      forall early, late | early <= late ensures Next(base, max, early) <= Next(base, max, late) {
        DelayIsCappedProductIff(base, max, early);
        DelayIsCappedProductIff(base, max, late);
        ProductGrows(base, early, late);
        assert !Misread(base, max, early) && !Misread(base, max, late);
        hide Next, Product, Wrap;
      }
    } else {
      var late :| Misread(base, max, late);
      MisreadFalls(base, max, late);
    }
  }

  lemma MisreadFalls(base: Int64, max: Int64, late: int)
    requires base > 0 && max > 0 && Misread(base, max, late)
    ensures exists early :: early <= late && Next(base, max, early) > Next(base, max, late)
  {
    var early := FirstOverflow(base, late);
    WrapIs(Product(base, early));
    assert Next(base, max, early) == max;
    assert Next(base, max, late) == Wrap(Product(base, late));
  }

  /** Up to 2^34, twice that bound, an overflow is always noticed: the delay is the capped product. */
  lemma DelayIsCappedProduct(base: Int64, max: Int64, attempt: int)
    requires 0 < base <= 0x4_0000_0000
    ensures !Misread(base, max, attempt)
    ensures Next(base, max, attempt) as int == Min(Product(base, attempt), max as int)
  {
    var p := Product(base, attempt);
    ProductBound(base, attempt);
    TimesGrows(base as int, 0x4_0000_0000, 0x4000_0000);
    assert 0 < p <= TWO_64;
    WrapIs(p);
    hide Product;
  }

  /** So up to 2^34 it never falls from one attempt to a later one, whatever the cap. */
  lemma DelayNeverFalls(base: Int64, max: Int64, early: int, late: int)
    requires 0 < base <= 0x4_0000_0000 && early <= late
    ensures Next(base, max, early) <= Next(base, max, late)
  {
    DelayIsCappedProduct(base, max, early);
    DelayIsCappedProduct(base, max, late);
    ProductGrows(base, early, late);
    hide Next, Product;
  }

  lemma ProductGrows(base: Int64, early: int, late: int)
    requires base > 0 && early <= late
    ensures Product(base, early) <= Product(base, late)
  {
    var e, l, b := Pow2(Shift(early)), Pow2(Shift(late)), base as int;
    Pow2Grows(Shift(early), Shift(late));
    hide Pow2, Shift;
    TimesGrows(e, l, b);
    assert b * e == e * b && b * l == l * b;
  }

  /** One above that bound an overflow goes unnoticed: the delay falls from the cap to
      about a second. */
  lemma DelayCanFall()
    ensures Next(0x4_0000_0001, 0x7FFF_FFFF_FFFF_FFFF, 30) == 0x7FFF_FFFF_FFFF_FFFF
    ensures Next(0x4_0000_0001, 0x7FFF_FFFF_FFFF_FFFF, 31) == 0x4000_0000
  {
    Pow2Of30();
    Pow2Sum(29, 1);
    assert Pow2(1) == 2;
    assert Pow2(29) == 0x2000_0000;
    var base: Int64 := 0x4_0000_0001;
    WrapIs(base as int * Pow2(29));
    WrapIs(base as int * Pow2(30));
    hide Pow2, Wrap;
    assert ShiftLeft(base, 29) < 0 && ShiftLeft(base, 30) == 0x4000_0000;
  }

  /** The documented delay, min(base * 2^(attempt-1), max), is what the code gives exactly if no
      overflow goes unnoticed and the attempt is at most 31 or the cap is reached: from attempt 32
      on the shift is capped. */
  lemma DocumentedDelayIff(base: Int64, max: Int64, attempt: int)
    requires base > 0 && max > 0 && attempt >= 1
    ensures Next(base, max, attempt) as int == Min(base as int * Pow2(attempt - 1), max as int)
            <==> !Misread(base, max, attempt) && (attempt <= 31 || base as int * 0x4000_0000 >= max as int)
  {
    DelayIsCappedProductIff(base, max, attempt);
    if attempt > 31 {
      Pow2Of30();
      Pow2Grows(MAX_SHIFT, attempt - 1);
      TimesGrows(2 * Pow2(MAX_SHIFT), Pow2(attempt - 1), base as int);
      assert base as int * Pow2(attempt - 1) >= 2 * (base as int * 0x4000_0000);
      assert Product(base, attempt) == base as int * 0x4000_0000;
    }
    hide Pow2, Wrap;
  }
}
