/**
 * Number() and the subtraction of its results: IEEE 754 binary64, section 4.3.1 (rounding to nearest, ties to even).
 * Costs are whole numbers of 1e-8 USD; the decimal texts that hold them are read as doubles.
 */
module Doubles {

  /** x times 2^p. */
  function Shift(x: real, p: nat): real
    decreases p
  {
    if p == 0 then x else Shift(2.0 * x, p - 1)
  }

  /** The smallest significand of a normal number, 2^52. */
  const LEAST := 4503599627370496.0

  function Size(x: real): real { if x < 0.0 then -x else x }

  /** The nearest integer; of two, the even one. */
  function Nearest(y: real): int {
    var below := y.Floor;
    var rest := y - below as real;
    if rest < 0.5 || (rest == 0.5 && below % 2 == 0) then below else below + 1
  }

  /** With p fraction bits, x has a significand of 53 bits. */
  predicate Fits(x: real, p: nat) { p <= 1074 && LEAST <= Size(Shift(x, p)) < 2.0 * LEAST }

  /**
   * `fl` rounds to doubles: a number that fits with p fraction bits is rounded to p fraction bits. What becomes of
   * numbers of 2^53 and more, and of subnormal ones, is left open, apart from order.
   */
  ghost predicate RoundsToDouble(fl: real -> real) {
    && fl(0.0) == 0.0
    && (forall x, y :: x <= y ==> fl(x) <= fl(y))
    && (forall x: real, p: nat :: Fits(x, p) ==> Shift(fl(x), p) == Nearest(Shift(x, p)) as real)
  }

  /** Number() of a cost in units of 1e-8 USD. */
  function Number(fl: real -> real, cost: int): real { fl(cost as real / 100_000_000.0) }

  /** Two sums differ by more than 1e-6 USD, all in doubles. */
  predicate Exceeds(fl: real -> real, roll: int, raw: int) {
    Size(fl(Number(fl, roll) - Number(fl, raw))) > fl(0.000001)
  }

  // ----- shifting -----

  lemma {:induction false} ShiftNext(x: real, p: nat)
    ensures Shift(x, p + 1) == 2.0 * Shift(x, p)
    decreases p
  {
    if p > 0 { ShiftNext(2.0 * x, p - 1); }
  }

  lemma {:induction false} ShiftMinus(x: real, y: real, p: nat)
    ensures Shift(x - y, p) == Shift(x, p) - Shift(y, p)
    decreases p
  {
    if p > 0 {
      ShiftMinus(2.0 * x, 2.0 * y, p - 1);
      assert 2.0 * (x - y) == 2.0 * x - 2.0 * y;
    }
  }

  lemma {:induction false} ShiftTwice(x: real, m: nat, n: nat)
    ensures Shift(x, m + n) == Shift(Shift(x, m), n)
    decreases m
  {
    if m > 0 { ShiftTwice(2.0 * x, m - 1, n); }
  }

  lemma {:induction false} ShiftSize(x: real, p: nat)
    ensures Size(Shift(x, p)) == Shift(Size(x), p) && Size(Shift(x, p)) >= Size(x)
    decreases p
  {
    if p > 0 {
      ShiftSize(2.0 * x, p - 1);
      assert Size(2.0 * x) == 2.0 * Size(x);
    }
  }

  lemma By4(x: real)
    ensures Shift(x, 4) == 16.0 * x
  {
    assert Shift(16.0 * x, 0) == 16.0 * x;
    assert Shift(8.0 * x, 1) == 16.0 * x;
    assert Shift(4.0 * x, 2) == 16.0 * x;
  }

  lemma By8(x: real)
    ensures Shift(x, 8) == 256.0 * x
  {
    hide Shift;
    By4(x);
    By4(16.0 * x);
    ShiftTwice(x, 4, 4);
  }

  lemma By24(x: real)
    ensures Shift(x, 24) == 16777216.0 * x
  {
    hide Shift;
    By8(x);
    By8(256.0 * x);
    By8(65536.0 * x);
    ShiftTwice(x, 8, 8);
    ShiftTwice(x, 16, 8);
  }

  const BITS28 := 268435456.0
  const BITS72 := 4722366482869645213696.0
  const BITS83 := 9671406556917033397649408.0

  lemma By28(x: real)
    ensures Shift(x, 28) == BITS28 * x
  {
    hide Shift;
    By24(x);
    By4(16777216.0 * x);
    ShiftTwice(x, 24, 4);
  }

  lemma By52(x: real)
    ensures Shift(x, 52) == LEAST * x
  {
    hide Shift;
    By28(x);
    By24(BITS28 * x);
    ShiftTwice(x, 28, 24);
  }

  lemma By72(x: real)
    ensures Shift(x, 72) == BITS72 * x
  {
    hide Shift;
    By24(x);
    By24(16777216.0 * x);
    By24(281474976710656.0 * x);
    ShiftTwice(x, 24, 24);
    ShiftTwice(x, 48, 24);
  }

  lemma By83(x: real)
    ensures Shift(x, 83) == BITS83 * x
  {
    hide Shift;
    By72(x);
    By8(BITS72 * x);
    ShiftTwice(x, 72, 8);
    ShiftNext(x, 80);
    ShiftNext(x, 81);
    ShiftNext(x, 82);
  }

  // ----- how far a double is from the number it stands for -----

  lemma NearestIsNear(y: real)
    ensures -0.5 <= Nearest(y) as real - y <= 0.5
  {}

  lemma NearAt(fl: real -> real, x: real, p: nat)
    requires RoundsToDouble(fl) && Fits(x, p) && p >= 28
    ensures Size(BITS28 * (fl(x) - x)) <= 0.5
  {
    assert Shift(fl(x), p) == Nearest(Shift(x, p)) as real;
    hide RoundsToDouble, Nearest, Shift;
    NearestIsNear(Shift(x, p));
    ShiftMinus(fl(x), x, p);
    ShiftTwice(fl(x) - x, 28, p - 28);
    ShiftSize(Shift(fl(x) - x, 28), p - 28);
    By28(fl(x) - x);
  }

  /** A number of moderate size fits with 28 to 83 fraction bits. */
  lemma FractionBits(x: real, p: nat) returns (q: nat)
    requires p <= 83 && Size(Shift(x, p)) < 2.0 * LEAST && Size(Shift(x, 83)) >= LEAST
    ensures p <= q <= 83 && Fits(x, q)
    decreases 83 - p
  {
    hide Shift;
    if Size(Shift(x, p)) >= LEAST {
      q := p;
    } else {
      ShiftNext(x, p);
      q := FractionBits(x, p + 1);
    }
  }

  const TINY := 1.0 / 2147483648.0

  lemma Ordered(fl: real -> real, x: real, y: real)
    requires RoundsToDouble(fl) && x <= y
    ensures fl(x) <= fl(y)
  {}

  lemma Exact(fl: real -> real, x: real, n: int, p: nat)
    requires RoundsToDouble(fl) && Fits(x, p) && Shift(x, p) == n as real
    ensures Shift(fl(x), p) == Shift(x, p)
  {}

  lemma TinyIsExact(fl: real -> real)
    requires RoundsToDouble(fl)
    ensures fl(TINY) == TINY && fl(-TINY) == -TINY
  {
    hide RoundsToDouble, Shift;
    By83(TINY);
    By83(-TINY);
    Exact(fl, TINY, 4503599627370496, 83);
    Exact(fl, -TINY, -4503599627370496, 83);
    By83(fl(TINY));
    By83(fl(-TINY));
  }

  lemma NearZero(fl: real -> real, x: real)
    requires RoundsToDouble(fl) && Size(x) <= TINY
    ensures Size(fl(x)) <= TINY
  {
    hide RoundsToDouble;
    Ordered(fl, -TINY, x);
    Ordered(fl, x, TINY);
    TinyIsExact(fl);
  }

  /** Below 2^25 a double is off by at most 2^-29. */
  lemma Near(fl: real -> real, x: real)
    requires RoundsToDouble(fl) && Size(x) < 33554432.0
    ensures Size(BITS28 * (fl(x) - x)) <= 0.5
  {
    hide RoundsToDouble, Shift;
    if Size(x) <= TINY {
      NearZero(fl, x);
    } else {
      By28(x);
      By83(x);
      var p := FractionBits(x, 28);
      NearAt(fl, x, p);
    }
  }

  /** Up to 16 million USD, in units of 1e-8 USD. */
  predicate Moderate(cost: int) { -1_600_000_000_000_000 <= cost <= 1_600_000_000_000_000 }

  /** The doubles decide as exact numbers do, unless the sums are exactly 1e-6 USD apart. */
  lemma ExceedsOffTheBoundary(fl: real -> real, roll: int, raw: int)
    requires RoundsToDouble(fl) && Moderate(roll) && Moderate(raw)
    ensures roll - raw > 100 || raw - roll > 100 ==> Exceeds(fl, roll, raw)
    ensures -100 < roll - raw < 100 ==> !Exceeds(fl, roll, raw)
  {
    hide RoundsToDouble;
    var a, b := roll as real / 100_000_000.0, raw as real / 100_000_000.0;
    Near(fl, a);
    Near(fl, b);
    Near(fl, fl(a) - fl(b));
    Near(fl, 0.000001);
  }

  // ----- on the boundary -----

  lemma At(fl: real -> real, x: real, p: nat)
    requires RoundsToDouble(fl) && Fits(x, p)
    ensures Shift(fl(x), p) == Nearest(Shift(x, p)) as real
  {
    hide Shift, Nearest;
  }

  /** 1e-6 and, with one bit less, 2e-6. */
  lemma Microdollars(fl: real -> real)
    requires RoundsToDouble(fl)
    ensures BITS72 * fl(0.000001) == 4722366482869645.0 && fl(0.000002) == 2.0 * fl(0.000001)
  {
    hide RoundsToDouble, Shift;
    By72(0.000001);
    At(fl, 0.000001, 72);
    By72(fl(0.000001));
    By72(0.000002);
    ShiftNext(0.000002, 71);
    At(fl, 0.000002, 71);
    ShiftNext(fl(0.000002), 71);
    By72(fl(0.000002));
  }

  /** Two sums that are 1e-6 USD apart: 0.000002 and 0.000001 pass. */
  lemma MicrodollarPasses(fl: real -> real)
    requires RoundsToDouble(fl)
    ensures !Exceeds(fl, 200, 100)
  {
    hide RoundsToDouble, Shift;
    Microdollars(fl);
    assert 200 as real / 100_000_000.0 == 0.000002 && 100 as real / 100_000_000.0 == 0.000001;
    var d := fl(0.000002) - fl(0.000001);
    By72(d);
    Exact(fl, d, 4722366482869645, 72);
    By72(fl(d));
  }

  /** Two sums that are 1e-6 USD apart: 1.000002 and 1.000001 do not. */
  lemma MicrodollarIsReported(fl: real -> real)
    requires RoundsToDouble(fl)
    ensures Exceeds(fl, 100_000_200, 100_000_100)
  {
    hide RoundsToDouble, Shift;
    Microdollars(fl);
    assert 100_000_200 as real / 100_000_000.0 == 1.000002 && 100_000_100 as real / 100_000_000.0 == 1.000001;
    By52(1.000002);
    At(fl, 1.000002, 52);
    By52(fl(1.000002));
    By52(1.000001);
    At(fl, 1.000001, 52);
    By52(fl(1.000001));
    var d := fl(1.000002) - fl(1.000001);
    By72(d);
    Exact(fl, d, 4722366483529728, 72);
    By72(fl(d));
  }
}
