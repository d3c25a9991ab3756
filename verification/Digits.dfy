/** Decimal digit strings: what BigInt(text), toString, padStart and padEnd do in the two money codecs. */
module Digits {

  predicate IsDigit(c: char) { '0' <= c <= '9' }

  predicate AllDigits(s: string) { forall i :: 0 <= i < |s| ==> IsDigit(s[i]) }

  function Pow10(n: nat): (p: nat)
    ensures p >= 1
  {
    if n == 0 then 1 else 10 * Pow10(n - 1)
  }

  /** The natural number a digit string denotes; the empty string denotes 0, as BigInt("") does. */
  function DigitsValue(s: string): (v: nat)
    requires AllDigits(s)
    ensures v < Pow10(|s|)
  {
    if |s| == 0 then 0
    else
      10 * DigitsValue(s[..|s| - 1]) + (s[|s| - 1] as int - '0' as int)
  }

  function Zeros(n: nat): string { seq(n, _ => '0') }

  /** toString of a natural number. */
  function NatToString(n: nat): (s: string)
    ensures |s| >= 1 && AllDigits(s)
    ensures DigitsValue(s) == n
  {
    var last := [('0' as int + n % 10) as char];
    if n < 10 then last
    else
      var init := NatToString(n / 10);
      assert (init + last)[..|init + last| - 1] == init;
      init + last
  }

  function PadStart(s: string, n: nat): string { if |s| >= n then s else Zeros(n - |s|) + s }

  function PadEnd(s: string, n: nat): string { if |s| >= n then s else s + Zeros(n - |s|) }

  lemma {:induction false} Pow10Add(a: nat, b: nat)
    ensures Pow10(a + b) == Pow10(a) * Pow10(b)
  {
    if a > 0 { Pow10Add(a - 1, b); }
  }

  lemma {:induction false} Pow10Monotone(a: nat, b: nat)
    requires a <= b
    ensures Pow10(a) <= Pow10(b)
  {
    if a < b { Pow10Monotone(a, b - 1); }
  }

  /** Reading two digit strings side by side. */
  lemma {:induction false} ValueOfConcat(a: string, b: string)
    requires AllDigits(a) && AllDigits(b)
    ensures AllDigits(a + b)
    ensures DigitsValue(a + b) == DigitsValue(a) * Pow10(|b|) + DigitsValue(b)
  {
    if b == [] {
      assert a + b == a;
    } else {
      var init := b[..|b| - 1];
      assert (a + b)[..|a + b| - 1] == a + init;
      ValueOfConcat(a, init);
      assert (a + b)[|a + b| - 1] == b[|b| - 1];
      NextDigit(DigitsValue(a), Pow10(|init|), DigitsValue(init), DigitsValue(b) - 10 * DigitsValue(init));
    }
  }

  lemma NextDigit(v: int, p: int, w: int, d: int)
    ensures 10 * (v * p + w) + d == v * (10 * p) + (10 * w + d)
  {}

  lemma Scale(v: int, p: int)
    ensures v * (10 * p) == 10 * (v * p)
  {}

  lemma {:induction false} ValueOfZeros(n: nat)
    ensures AllDigits(Zeros(n)) && DigitsValue(Zeros(n)) == 0
  {
    if n > 0 {
      assert Zeros(n)[..n - 1] == Zeros(n - 1);
      ValueOfZeros(n - 1);
    }
  }

  /** padEnd with "0" multiplies by a power of ten. */
  lemma ValueOfPadEnd(s: string, n: nat)
    requires AllDigits(s) && |s| <= n
    ensures AllDigits(PadEnd(s, n)) && |PadEnd(s, n)| == n
    ensures DigitsValue(PadEnd(s, n)) == DigitsValue(s) * Pow10(n - |s|)
  {
    if |s| < n {
      ValueOfZeros(n - |s|);
      ValueOfConcat(s, Zeros(n - |s|));
    }
  }

  /** padStart with "0" keeps the value. */
  lemma ValueOfPadStart(s: string, n: nat)
    requires AllDigits(s)
    ensures AllDigits(PadStart(s, n)) && |PadStart(s, n)| == if |s| <= n then n else |s|
    ensures DigitsValue(PadStart(s, n)) == DigitsValue(s)
  {
    if |s| < n {
      ValueOfZeros(n - |s|);
      ValueOfConcat(Zeros(n - |s|), s);
    }
  }

  /** A number below 10^n prints in at most n digits. */
  lemma {:induction false} LengthOfNatToString(v: nat, n: nat)
    requires n >= 1 && v < Pow10(n)
    ensures |NatToString(v)| <= n
  {
    if v >= 10 {
      LengthOfNatToString(v / 10, n - 1);
    }
  }

  /** A padded remainder fills its field exactly and reads back as itself. */
  lemma ReadPadded(v: nat, n: nat)
    requires n >= 1 && v < Pow10(n)
    ensures var s := PadStart(NatToString(v), n); |s| == n && AllDigits(s) && DigitsValue(s) == v
  {
    LengthOfNatToString(v, n);
    ValueOfPadStart(NatToString(v), n);
  }
}
