/**
 * The two money codecs: the worker's scaled decimals (apps/worker/src/ingest/rollups.ts) and the
 * gateway's price and picoUSD strings (packages/pricing/src/calculator.ts).
 */
module Money {
  import opened Wrappers
  import opened Digits

  /** A decimal literal taken apart: optional minus, whole digits, optional fraction digits. */
  datatype Literal = Literal(neg: bool, whole: string, frac: Option<string>) {
    predicate Wf() {
      && |whole| > 0 && AllDigits(whole)
      && (frac.Some? ==> |frac.value| > 0 && AllDigits(frac.value))
    }

    function Places(): nat { if frac.Some? then |frac.value| else 0 }

    function Digits(): (s: string)
      requires Wf()
      ensures AllDigits(s)
    {
      whole + if frac.Some? then frac.value else ""
    }

    /** The literal denotes Numerator() / 10^Places(). */
    function Numerator(): int
      requires Wf()
    {
      if neg then -(DigitsValue(Digits()) as int) else DigitsValue(Digits())
    }

    function Render(): string {
      (if neg then "-" else "") + whole + (if frac.Some? then "." + frac.value else "")
    }
  }

  function IndexOfDot(s: string): (i: nat)
    ensures i <= |s|
    ensures i < |s| ==> s[i] == '.'
    ensures forall j :: 0 <= j < i ==> s[j] != '.'
  {
    if |s| == 0 || s[0] == '.' then 0 else 1 + IndexOfDot(s[1..])
  }

  /** The regular expression of parseDecimalScaled: minus?, digits, then optionally a dot and digits. */
  function MatchDecimal(s: string): (m: Option<Literal>)
    ensures m.Some? ==> m.value.Wf() && m.value.Render() == s
  {
    var neg := |s| > 0 && s[0] == '-';
    var body := if neg then s[1..] else s;
    var dot := IndexOfDot(body);
    var lit := Literal(neg, body[..dot], if dot < |body| then Some(body[dot + 1..]) else None);
    if lit.Wf() then
      assert lit.frac.Some? ==> body == lit.whole + "." + lit.frac.value;
      Some(lit)
    else None
  }

  /** The part of a literal behind the minus, and what is taken out of it again. */
  lemma BodySplits(lit: Literal)
    requires lit.Wf()
    ensures var body := lit.whole + if lit.frac.Some? then "." + lit.frac.value else "";
      && body != "" && IsDigit(body[0]) && IndexOfDot(body) == |lit.whole| && body[..|lit.whole|] == lit.whole
      && (if |lit.whole| < |body| then Some(body[|lit.whole| + 1..]) else None) == lit.frac
  {
    var tail := if lit.frac.Some? then "." + lit.frac.value else "";
    var body := lit.whole + tail;
    DotAfterDigits(lit.whole, tail);
    assert IsDigit(lit.whole[0]) && body[0] == lit.whole[0];
    assert body[..|lit.whole|] == lit.whole && body[|lit.whole|..] == tail;
    if lit.frac.Some? { assert body[|lit.whole| + 1..] == tail[1..] == lit.frac.value; }
  }

  /** MatchDecimal accepts every rendering of a literal and returns that literal, so it is the grammar. */
  lemma MatchRender(lit: Literal)
    requires lit.Wf()
    ensures MatchDecimal(lit.Render()) == Some(lit)
  {
    hide IndexOfDot, AllDigits;
    var s, body := lit.Render(), lit.whole + if lit.frac.Some? then "." + lit.frac.value else "";
    BodySplits(lit);
    if lit.neg {
      assert s == "-" + body && s[1..] == body;
    } else {
      assert s == body;
    }
  }

  lemma {:induction false} DotAfterDigits(whole: string, tail: string)
    requires AllDigits(whole) && (tail == "" || tail[0] == '.')
    ensures IndexOfDot(whole + tail) == |whole|
  {
    if whole == "" {
      assert whole + tail == tail;
    } else {
      assert IsDigit(whole[0]) && (whole + tail)[0] == whole[0];
      assert (whole + tail)[1..] == whole[1..] + tail;
      DotAfterDigits(whole[1..], tail);
    }
  }

  /** The grammar in plain terms: a minus or none, digits, and a dot with digits or neither. */
  lemma Grammar(s: string)
    ensures MatchDecimal(s).Some? <==>
      exists minus: string, whole: string, tail: string {:trigger minus + whole + tail} ::
        && minus + whole + tail == s && (minus == "" || minus == "-") && whole != "" && AllDigits(whole)
        && (tail == "" || (|tail| > 1 && tail[0] == '.' && AllDigits(tail[1..])))
  {
    hide MatchDecimal;
    if MatchDecimal(s).Some? {
      var lit := MatchDecimal(s).value;
      var minus, tail := if lit.neg then "-" else "", if lit.frac.Some? then "." + lit.frac.value else "";
      assert tail != "" ==> tail[1..] == lit.frac.value;
      assert minus + lit.whole + tail == s;
    }
    forall minus: string, whole: string, tail: string {:trigger minus + whole + tail} |
      minus + whole + tail == s && (minus == "" || minus == "-") && whole != "" && AllDigits(whole)
      && (tail == "" || (|tail| > 1 && tail[0] == '.' && AllDigits(tail[1..])))
      ensures MatchDecimal(s).Some?
    {
      var lit := Literal(minus == "-", whole, if tail == "" then None else Some(tail[1..]));
      assert tail != "" ==> tail == "." + tail[1..];
      assert lit.Wf() && lit.Render() == s;
      MatchRender(lit);
    }
  }

  /** The value at `scale` decimals, in units of 10^-scale; more than `scale` places or a malformed text throws. */
  function ParseDecimalScaled(decimal: string, scale: nat): Result<int> {
    match MatchDecimal(decimal)
    case None => Err
    case Some(lit) =>
      if lit.Places() > scale then Err
      else
        var magnitude := ScaledMagnitude(lit, scale);
        Ok(if lit.neg then -magnitude else magnitude)
  }

  /** Accepts exactly the literals of at most `scale` places, and returns the number they denote times 10^scale. */
  lemma ParseMeaning(lit: Literal, scale: nat)
    requires lit.Wf()
    ensures ParseDecimalScaled(lit.Render(), scale).Ok? <==> lit.Places() <= scale
    ensures lit.Places() <= scale ==>
      ParseDecimalScaled(lit.Render(), scale) == Ok(lit.Numerator() * Pow10(scale - lit.Places()))
  {
    hide MatchDecimal, ScaledMagnitude, DigitsValue;
    MatchRender(lit);
    if lit.Places() <= scale {
      MagnitudeMeaning(lit, scale);
      NumeratorTimes(lit, Pow10(scale - lit.Places()));
      assert ParseDecimalScaled(lit.Render(), scale).value ==
        if lit.neg then -ScaledMagnitude(lit, scale) else ScaledMagnitude(lit, scale);
    }
  }

  lemma NumeratorTimes(lit: Literal, p: int)
    requires lit.Wf()
    ensures lit.Numerator() * p == if lit.neg then -(DigitsValue(lit.Digits()) * p) else DigitsValue(lit.Digits()) * p
  {
    NegTimes(DigitsValue(lit.Digits()), p);
  }

  /** Which texts the worker accepts: the literals with at most `scale` places, and nothing else. */
  lemma ParseAccepts(decimal: string, scale: nat)
    ensures ParseDecimalScaled(decimal, scale).Ok? <==>
      exists lit: Literal :: lit.Wf() && lit.Render() == decimal && lit.Places() <= scale
  {
    forall lit: Literal | lit.Wf() && lit.Render() == decimal ensures MatchDecimal(decimal) == Some(lit) {
      MatchRender(lit);
    }
  }

  lemma NegTimes(n: int, p: int)
    ensures (-n) * p == -(n * p)
  {}

  /** v × 10^n, as repeated multiplication by the constant ten so that proofs stay linear. */
  function Shift(v: nat, n: nat): nat { if n == 0 then v else 10 * Shift(v, n - 1) }

  lemma {:induction false} ShiftIsProduct(v: nat, n: nat)
    ensures Shift(v, n) == v * Pow10(n)
  {
    if n > 0 {
      ShiftIsProduct(v, n - 1);
      Scale(v, Pow10(n - 1));
    }
  }

  function ScaledMagnitude(lit: Literal, scale: nat): int
    requires lit.Wf() && lit.Places() <= scale
  {
    var frac := if lit.frac.Some? then lit.frac.value else "";
    ValueOfPadEnd(frac, scale);
    Shift(DigitsValue(lit.whole), scale) + DigitsValue(PadEnd(frac, scale))
  }

  lemma MagnitudeMeaning(lit: Literal, scale: nat)
    requires lit.Wf() && lit.Places() <= scale
    ensures ScaledMagnitude(lit, scale) == DigitsValue(lit.Digits()) * Pow10(scale - lit.Places())
  {
    var frac := if lit.frac.Some? then lit.frac.value else "";
    ValueOfPadEnd(frac, scale);
    SplitWhole(lit.whole, frac, scale);
    assert lit.Digits() == lit.whole + frac;
    ShiftIsProduct(DigitsValue(lit.whole), scale);
  }

  /** whole × 10^scale plus the padded fraction is whole-and-fraction read as one number, scaled. */
  lemma SplitWhole(whole: string, frac: string, scale: nat)
    requires AllDigits(whole) && AllDigits(frac) && |frac| <= scale
    ensures AllDigits(whole + frac)
    ensures DigitsValue(whole) * Pow10(scale) + DigitsValue(frac) * Pow10(scale - |frac|)
         == DigitsValue(whole + frac) * Pow10(scale - |frac|)
  {
    ValueOfConcat(whole, frac);
    Pow10Add(|frac|, scale - |frac|);
    Distribute(DigitsValue(whole), Pow10(|frac|), DigitsValue(frac), Pow10(scale - |frac|));
  }

  lemma Distribute(w: int, p: int, f: int, q: int)
    ensures w * (p * q) + f * q == (w * p + f) * q
  {}

  /** BigInt quotient and remainder of a non-negative number. */
  function DivMod(a: nat, d: nat): (qr: (nat, nat))
    requires d > 0
    ensures qr.1 < d
  {
    if a < d then (0, a)
    else
      var (q, r) := DivMod(a - d, d);
      (q + 1, r)
  }

  lemma {:induction false} DivModMeaning(a: nat, d: nat)
    requires d > 0
    ensures a == DivMod(a, d).0 * d + DivMod(a, d).1
  {
    if a >= d {
      DivModMeaning(a - d, d);
      NextMultiple(DivMod(a - d, d).0, d);
    }
  }

  lemma NextMultiple(q: int, d: int)
    ensures (q + 1) * d == q * d + d
  {}

  lemma {:induction false} DivModUnique(a: nat, d: nat, q: nat, r: nat)
    requires r < d && a == q * d + r
    ensures DivMod(a, d) == (q, r)
  {
    if q > 0 {
      NextMultiple(q - 1, d);
      DivModUnique(a - d, d, q - 1, r);
    }
  }

  function FormatScaled(value: int, scale: nat): string {
    var sign := if value < 0 then "-" else "";
    var (whole, rest) := DivMod(Abs(value), Pow10(scale));
    sign + NatToString(whole) + "." + PadStart(NatToString(rest), scale)
  }

  function Abs(v: int): nat { if v < 0 then -v else v }

  /** The literal FormatScaled prints. */
  ghost function FormatLiteral(value: int, scale: nat): Literal {
    var (whole, rest) := DivMod(Abs(value), Pow10(scale));
    Literal(value < 0, NatToString(whole), Some(PadStart(NatToString(rest), scale)))
  }

  /** Its digits are |value| with the dot `scale` places from the right. */
  lemma FormatIsLiteral(value: int, scale: nat)
    ensures var lit := FormatLiteral(value, scale);
      && lit.Wf() && FormatScaled(value, scale) == lit.Render()
      && (scale >= 1 ==> lit.Places() == scale && lit.Numerator() == value)
      && (scale == 0 ==> lit.Places() >= 1)
  {
    var (whole, rest) := DivMod(Abs(value), Pow10(scale));
    var lit := FormatLiteral(value, scale);
    DivModMeaning(Abs(value), Pow10(scale));
    ValueOfPadStart(NatToString(rest), scale);
    if scale >= 1 {
      ReadPadded(rest, scale);
      ValueOfConcat(lit.whole, lit.frac.value);
      assert lit.Digits() == lit.whole + lit.frac.value;
      assert DigitsValue(lit.Digits()) == Abs(value);
    }
  }

  /** Formatting then parsing gives the value back exactly when the scale is at least 1. */
  lemma ParseFormat(value: int, scale: nat)
    ensures ParseDecimalScaled(FormatScaled(value, scale), scale) == Ok(value) <==> scale >= 1
  {
    hide ParseDecimalScaled, FormatScaled, FormatLiteral;
    FormatIsLiteral(value, scale);
    ParseMeaning(FormatLiteral(value, scale), scale);
    assert Pow10(0) == 1;
  }

  /** "3.75" to 3750000 µUSD per million tokens; a sign or a seventh decimal throws. */
  function MicroUsdPerMtok(decimal: string): (r: Result<nat>)
  {
    match MatchDecimal(decimal)
    case None => Err
    case Some(lit) =>
      if lit.neg || lit.Places() > 6 then Err
      else
        var frac := if lit.frac.Some? then lit.frac.value else "";
        ValueOfPadEnd(frac, 6);
        Ok(DigitsValue(lit.whole) * 1_000_000 + DigitsValue(PadEnd(frac, 6)))
  }

  /** The gateway's price reader is the worker's decimal reader at scale 6, on every text without a minus sign. */
  lemma PriceCodecsAgree(decimal: string)
    ensures |decimal| > 0 && decimal[0] == '-' ==> MicroUsdPerMtok(decimal).Err?
    ensures !(|decimal| > 0 && decimal[0] == '-') ==>
      match ParseDecimalScaled(decimal, 6)
      case Err => MicroUsdPerMtok(decimal).Err?
      case Ok(v) => v >= 0 && MicroUsdPerMtok(decimal) == Ok(v)
  {
    hide MatchDecimal, DigitsValue, PadEnd;
    var m := MatchDecimal(decimal);
    if m.Some? {
      MinusIsFirst(m.value);
      if m.value.Places() <= 6 { ShiftSix(DigitsValue(m.value.whole)); }
    }
  }

  lemma MinusIsFirst(lit: Literal)
    requires lit.Wf()
    ensures lit.neg <==> lit.Render()[0] == '-'
  {
    assert !lit.neg ==> lit.Render()[0] == lit.whole[0];
    assert IsDigit(lit.whole[0]);
  }

  lemma ShiftSix(v: nat)
    ensures Shift(v, 6) == v * 1_000_000
  {
    assert Shift(v, 1) == 10 * Shift(v, 0) && Shift(v, 2) == 10 * Shift(v, 1) && Shift(v, 3) == 10 * Shift(v, 2);
    assert Shift(v, 4) == 10 * Shift(v, 3) && Shift(v, 5) == 10 * Shift(v, 4) && Shift(v, 6) == 10 * Shift(v, 5);
  }

  /** BigInt division and remainder truncate toward zero. */
  function TruncDiv(a: int, b: nat): int
    requires b > 0
  {
    if a >= 0 then DivMod(a, b).0 else -(DivMod(-a, b).0 as int)
  }

  function TruncMod(a: int, b: nat): int
    requires b > 0
  {
    if a >= 0 then DivMod(a, b).1 else -(DivMod(-a, b).1 as int)
  }

  function IntToString(v: int): string { if v < 0 then "-" + NatToString(-v) else NatToString(v) }

  /** picoUSD to a decimal with 8 places, truncated. */
  function FormatPicoUsd(pico: int): string {
    IntToString(TruncDiv(pico, 1_000_000_000_000)) + "." +
    PadStart(IntToString(TruncDiv(TruncMod(pico, 1_000_000_000_000), 10_000)), 8)
  }

  /** Cutting a picoUSD amount to 1e-8 USD keeps its whole dollars and its first 8 decimals. */
  lemma CutTo8(pico: nat, whole: nat, frac8: nat, rest: nat)
    requires pico == whole * 1_000_000_000_000 + frac8 * 10_000 + rest
    requires frac8 < 100_000_000 && rest < 10_000
    ensures pico / 10_000 == whole * 100_000_000 + frac8
    ensures DivMod(pico / 10_000, Pow10(8)) == (whole, frac8)
  {
    assert Pow10(8) == 100_000_000;
    DivModUnique(pico / 10_000, 100_000_000, whole, frac8);
  }

  /** For a non-negative amount the gateway prints what the worker would print for it cut to 8 decimals. */
  lemma CostCodecsAgree(pico: nat)
    ensures FormatPicoUsd(pico) == FormatScaled(pico / 10_000, 8)
    ensures ParseDecimalScaled(FormatPicoUsd(pico), 8) == Ok(pico / 10_000)
  {
    PartsOfPico(pico);
    ParseFormat(pico / 10_000, 8);
  }

  lemma PartsOfPico(pico: nat)
    ensures FormatPicoUsd(pico) == FormatScaled(pico / 10_000, 8)
  {
    var (whole, frac) := DivMod(pico, 1_000_000_000_000);
    var (frac8, rest) := DivMod(frac, 10_000);
    DivModMeaning(pico, 1_000_000_000_000);
    DivModMeaning(frac, 10_000);
    PrintedParts(pico, whole, frac, frac8, rest);
  }

  lemma PrintedParts(pico: nat, whole: nat, frac: nat, frac8: nat, rest: nat)
    requires DivMod(pico, 1_000_000_000_000) == (whole, frac) && DivMod(frac, 10_000) == (frac8, rest)
    requires pico == whole * 1_000_000_000_000 + frac && frac == frac8 * 10_000 + rest
    ensures FormatPicoUsd(pico) == FormatScaled(pico / 10_000, 8)
  {
    hide PadStart, NatToString;
    CutTo8(pico, whole, frac8, rest);
  }

  lemma ZeroFractionIsRead(whole: int)
    ensures ParseDecimalScaled(IntToString(whole) + "." + PadStart(IntToString(0), 8), 8).Ok?
  {
    var tail := PadStart(IntToString(0), 8);
    assert Pow10(8) == 100_000_000;
    ReadPadded(0, 8);
    var lit := Literal(whole < 0, NatToString(Abs(whole)), Some(tail));
    assert IntToString(whole) + "." + tail == lit.Render();
    MatchRender(lit);
  }

  lemma InnerMinusIsNotRead(whole: string, tail: string, i: nat)
    requires i < |tail| && tail[i] == '-'
    ensures MatchDecimal(whole + "." + tail).None?
  {
    var text := whole + "." + tail;
    assert text[|whole| + 1 + i] == '-';
    var m := MatchDecimal(text);
    if m.Some? { NoInnerMinus(m.value, |whole| + 1 + i); }
  }

  lemma NegativeFractionIsNotRead(whole: int, frac8: int)
    requires frac8 < 0
    ensures ParseDecimalScaled(IntToString(whole) + "." + PadStart(IntToString(frac8), 8), 8).Err?
  {
    var text := IntToString(frac8);
    assert text[0] == '-';
    InnerMinusIsNotRead(IntToString(whole), PadStart(text, 8), |PadStart(text, 8)| - |text|);
  }

  /**
   * Below zero the two codecs agree only on whole dollars (up to truncation): any other amount puts its
   * minus sign inside the fraction, and the worker rejects the text.
   */
  lemma NegativePicoUnreadable(pico: int)
    requires pico < 0
    ensures ParseDecimalScaled(FormatPicoUsd(pico), 8).Ok? <==> TruncDiv(TruncMod(pico, 1_000_000_000_000), 10_000) == 0
  {
    var whole, frac8 := TruncDiv(pico, 1_000_000_000_000), TruncDiv(TruncMod(pico, 1_000_000_000_000), 10_000);
    if frac8 == 0 { ZeroFractionIsRead(whole); } else { NegativeFractionIsNotRead(whole, frac8); }
  }

  /** No literal has a minus sign after its first character. */
  lemma NoInnerMinus(lit: Literal, i: nat)
    requires lit.Wf() && 0 < i < |lit.Render()|
    ensures lit.Render()[i] != '-'
  {
    var body := lit.whole + if lit.frac.Some? then "." + lit.frac.value else "";
    var at := i - if lit.neg then 1 else 0;
    assert lit.Render() == (if lit.neg then "-" else "") + body;
    assert lit.Render()[i] == body[at];
    if at < |lit.whole| {
      assert IsDigit(lit.whole[at]);
    } else if at > |lit.whole| {
      assert IsDigit(lit.frac.value[at - |lit.whole| - 1]);
    }
  }
}
