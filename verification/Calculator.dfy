/** Request cost (packages/pricing/src/calculator.ts): exact integers in, a truncated decimal string out. */
module Calculator {
  import opened Wrappers
  import opened Matcher
  import opened Money

  /** A JavaScript number as Number.isInteger sees it; the code itself has to refuse fractions and negatives. */
  datatype Num = Whole(n: int) | Fraction

  datatype TokenCounts = TokenCounts(input: Num, output: Num, cacheRead: Option<Num>, cacheWrite: Option<Num>)

  function OrZero(n: Option<Num>): Num { if n.Some? then n.value else Whole(0) }

  /** BigInt multiplication, as repeated addition so that proofs stay linear; TimesIsProduct says it is `*`. */
  function Times(a: nat, b: nat): nat { if a == 0 then 0 else b + Times(a - 1, b) }

  lemma {:induction false} TimesIsProduct(a: nat, b: nat)
    ensures Times(a, b) == a * b
  {
    if a > 0 { TimesIsProduct(a - 1, b); }
  }

  lemma {:induction false} TimesMonotone(a: nat, b: nat, a': nat, b': nat)
    requires a <= a' && b <= b'
    ensures Times(a, b) <= Times(a', b')
  {
    if a > 0 { TimesMonotone(a - 1, b, a' - 1, b'); }
  }

  /** One token class of a request: its count and its price as read, which a zero count never looks at. */
  datatype ClassUse = ClassUse(tokens: Num, micro: Result<nat>) {
    function CostPico(): Result<nat> {
      if tokens == Whole(0) then Ok(0)
      else if tokens.Fraction? || tokens.n < 0 then Err
      else
        match micro
        case Err => Err
        case Ok(m) => Ok(Times(tokens.n, m))
    }
  }

  function Classes(t: TokenCounts, p: PriceEntry): seq<ClassUse> {
    [ClassUse(t.input, MicroUsdPerMtok(p.inputPerMtok)),
     ClassUse(t.output, MicroUsdPerMtok(p.outputPerMtok)),
     ClassUse(OrZero(t.cacheRead), MicroUsdPerMtok(p.cacheReadPerMtok)),
     ClassUse(OrZero(t.cacheWrite), MicroUsdPerMtok(p.cacheWritePerMtok))]
  }

  /** The sum of the class costs; a class that throws aborts it. */
  function SumPico(cs: seq<ClassUse>): Result<nat> {
    if cs == [] then Ok(0)
    else
      match (cs[0].CostPico(), SumPico(cs[1..]))
      case (Ok(first), Ok(rest)) => Ok(first + rest)
      case _ => Err
  }

  function CalculateCostUsd(t: TokenCounts, p: PriceEntry): Result<string> {
    match SumPico(Classes(t, p))
    case Err => Err
    case Ok(pico) => Ok(FormatPicoUsd(pico))
  }

  // ----- what a request owes -----

  /** A price text that has no sign and at most six decimals; its value is in 1e-6 USD per million tokens. */
  predicate ReadablePrice(price: string) { price != "" && price[0] != '-' && ParseDecimalScaled(price, 6).Ok? }

  /** What can be charged: no tokens at any price, or a positive whole number of them at a readable price. */
  predicate Chargeable(tokens: Num, price: string) {
    tokens == Whole(0) || (tokens.Whole? && tokens.n > 0 && ReadablePrice(price))
  }

  /** tokens × price, in picoUSD. */
  function Owed(tokens: Num, price: string): int {
    if tokens.Whole? && tokens.n > 0 && ReadablePrice(price) then tokens.n * ParseDecimalScaled(price, 6).value else 0
  }

  /** Each of the four counts can be charged at its own price. */
  predicate AllChargeable(t: TokenCounts, p: PriceEntry) {
    && Chargeable(t.input, p.inputPerMtok) && Chargeable(t.output, p.outputPerMtok)
    && (t.cacheRead.Some? ==> Chargeable(t.cacheRead.value, p.cacheReadPerMtok))
    && (t.cacheWrite.Some? ==> Chargeable(t.cacheWrite.value, p.cacheWritePerMtok))
  }

  /** Each of the four counts at its own price. */
  function ExactSum(t: TokenCounts, p: PriceEntry): int {
    Owed(t.input, p.inputPerMtok) + Owed(t.output, p.outputPerMtok)
    + (if t.cacheRead.Some? then Owed(t.cacheRead.value, p.cacheReadPerMtok) else 0)
    + (if t.cacheWrite.Some? then Owed(t.cacheWrite.value, p.cacheWritePerMtok) else 0)
  }

  /** One class: the code refuses what cannot be charged, and charges what is owed. */
  lemma ClassCost(tokens: Num, price: string)
    ensures ClassUse(tokens, MicroUsdPerMtok(price)).CostPico() ==
      if Chargeable(tokens, price) then Ok(Owed(tokens, price)) else Err
    ensures Owed(tokens, price) >= 0
  {
    hide ParseDecimalScaled, MicroUsdPerMtok;
    PriceCodecsAgree(price);
    EmptyIsNoPrice();
    if tokens.Whole? && tokens.n > 0 && ReadablePrice(price) {
      TimesIsProduct(tokens.n, ParseDecimalScaled(price, 6).value);
      Product(tokens.n, ParseDecimalScaled(price, 6).value);
    }
  }

  lemma Product(a: nat, b: nat)
    ensures a * b >= 0
  {}

  lemma EmptyIsNoPrice()
    ensures MicroUsdPerMtok("").Err?
  {}

  lemma SumOfFour(a: ClassUse, b: ClassUse, c: ClassUse, d: ClassUse)
    ensures SumPico([a, b, c, d]) ==
      if a.CostPico().Ok? && b.CostPico().Ok? && c.CostPico().Ok? && d.CostPico().Ok?
      then Ok(a.CostPico().value + b.CostPico().value + c.CostPico().value + d.CostPico().value)
      else Err
  {
    hide SumPico;
    assert [a, b, c, d] == [a] + ([b] + ([c] + ([d] + [])));
    SumOfMore(a, [b] + ([c] + ([d] + [])));
    SumOfMore(b, [c] + ([d] + []));
    SumOfMore(c, [d] + []);
    SumOfMore(d, []);
  }

  lemma SumOfMore(c: ClassUse, cs: seq<ClassUse>)
    ensures SumPico([]) == Ok(0)
    ensures SumPico([c] + cs) ==
      if c.CostPico().Ok? && SumPico(cs).Ok? then Ok(c.CostPico().value + SumPico(cs).value) else Err
  {
    assert ([c] + cs)[1..] == cs;
  }

  lemma RequestCost(t: TokenCounts, p: PriceEntry)
    ensures SumPico(Classes(t, p)) == if AllChargeable(t, p) then Ok(ExactSum(t, p)) else Err
    ensures ExactSum(t, p) >= 0
  {
    hide SumPico, Chargeable, Owed, MicroUsdPerMtok;
    var cacheRead, cacheWrite := OrZero(t.cacheRead), OrZero(t.cacheWrite);
    ClassCost(t.input, p.inputPerMtok);
    ClassCost(t.output, p.outputPerMtok);
    ClassCost(cacheRead, p.cacheReadPerMtok);
    ClassCost(cacheWrite, p.cacheWritePerMtok);
    NoTokens(p.cacheReadPerMtok);
    NoTokens(p.cacheWritePerMtok);
    var classes := Classes(t, p);
    SumOfFour(classes[0], classes[1], classes[2], classes[3]);
  }

  lemma NoTokens(price: string)
    ensures Chargeable(Whole(0), price) && Owed(Whole(0), price) == 0
  {}

  /**
   * End to end: the gateway charges exactly the chargeable counts, each at its own price, and the worker reads the
   * emitted string back as the exact sum cut to 1e-8 USD; it never rejects it.
   */
  lemma WorkerReadsBack(t: TokenCounts, p: PriceEntry)
    ensures CalculateCostUsd(t, p).Ok? <==> AllChargeable(t, p)
    ensures AllChargeable(t, p) ==>
      ParseDecimalScaled(CalculateCostUsd(t, p).value, 8) == Ok(ExactSum(t, p) / 10_000)
  {
    hide AllChargeable, ExactSum, Classes, ParseDecimalScaled, FormatPicoUsd;
    RequestCost(t, p);
    if AllChargeable(t, p) { CostCodecsAgree(ExactSum(t, p)); }
  }

  /** Whole counts at prices that read as a, b, c and d µUSD per million tokens. */
  lemma CostIsLinear(p: PriceEntry, i: nat, o: nat, r: nat, w: nat, a: nat, b: nat, c: nat, d: nat)
    requires ReadablePrice(p.inputPerMtok) && ParseDecimalScaled(p.inputPerMtok, 6) == Ok(a)
    requires ReadablePrice(p.outputPerMtok) && ParseDecimalScaled(p.outputPerMtok, 6) == Ok(b)
    requires ReadablePrice(p.cacheReadPerMtok) && ParseDecimalScaled(p.cacheReadPerMtok, 6) == Ok(c)
    requires ReadablePrice(p.cacheWritePerMtok) && ParseDecimalScaled(p.cacheWritePerMtok, 6) == Ok(d)
    ensures var cost := CalculateCostUsd(TokenCounts(Whole(i), Whole(o), Some(Whole(r)), Some(Whole(w))), p);
      cost.Ok? && ParseDecimalScaled(cost.value, 8) == Ok((i * a + o * b + r * c + w * d) / 10_000)
  {
    hide ParseDecimalScaled, CalculateCostUsd, ReadablePrice;
    WorkerReadsBack(TokenCounts(Whole(i), Whole(o), Some(Whole(r)), Some(Whole(w))), p);
  }

  /** The stored cost of a request in 1e-8 USD. */
  ghost function Cost8(t: TokenCounts, p: PriceEntry): int
    requires AllChargeable(t, p)
  {
    WorkerReadsBack(t, p);
    ParseDecimalScaled(CalculateCostUsd(t, p).value, 8).value
  }

  /** At most as many tokens, at a price at most as high. */
  predicate NoDearer(n: Num, price: string, n': Num, price': string) {
    && n.Whole? && n'.Whole? && n.n <= n'.n
    && (n.n > 0 && ReadablePrice(price) && ReadablePrice(price') ==>
          ParseDecimalScaled(price, 6).value <= ParseDecimalScaled(price', 6).value)
  }

  lemma OwesNoMore(n: Num, price: string, n': Num, price': string)
    requires Chargeable(n, price) && Chargeable(n', price') && NoDearer(n, price, n', price')
    ensures Owed(n, price) <= Owed(n', price')
  {
    hide ParseDecimalScaled, MicroUsdPerMtok;
    ClassCost(n', price');
    if n.n > 0 {
      PriceCodecsAgree(price);
      var a, b := ParseDecimalScaled(price, 6).value, ParseDecimalScaled(price', 6).value;
      TimesMonotone(n.n, a, n'.n, b);
      TimesIsProduct(n.n, a);
      TimesIsProduct(n'.n, b);
    }
  }

  /** More tokens or higher prices never lower the stored cost, truncation included. */
  lemma CostIsMonotone(t: TokenCounts, p: PriceEntry, t': TokenCounts, p': PriceEntry)
    requires AllChargeable(t, p) && AllChargeable(t', p')
    requires NoDearer(t.input, p.inputPerMtok, t'.input, p'.inputPerMtok)
    requires NoDearer(t.output, p.outputPerMtok, t'.output, p'.outputPerMtok)
    requires NoDearer(OrZero(t.cacheRead), p.cacheReadPerMtok, OrZero(t'.cacheRead), p'.cacheReadPerMtok)
    requires NoDearer(OrZero(t.cacheWrite), p.cacheWritePerMtok, OrZero(t'.cacheWrite), p'.cacheWritePerMtok)
    ensures Cost8(t, p) <= Cost8(t', p')
  {
    hide ParseDecimalScaled, CalculateCostUsd, NoDearer, Owed, Chargeable;
    WorkerReadsBack(t, p);
    WorkerReadsBack(t', p');
    NoTokens(p.cacheReadPerMtok);
    NoTokens(p.cacheWritePerMtok);
    NoTokens(p'.cacheReadPerMtok);
    NoTokens(p'.cacheWritePerMtok);
    OwesNoMore(t.input, p.inputPerMtok, t'.input, p'.inputPerMtok);
    OwesNoMore(t.output, p.outputPerMtok, t'.output, p'.outputPerMtok);
    OwesNoMore(OrZero(t.cacheRead), p.cacheReadPerMtok, OrZero(t'.cacheRead), p'.cacheReadPerMtok);
    OwesNoMore(OrZero(t.cacheWrite), p.cacheWritePerMtok, OrZero(t'.cacheWrite), p'.cacheWritePerMtok);
    assert ExactSum(t, p) <= ExactSum(t', p');
  }

  datatype Request = Request(tokens: TokenCounts, price: PriceEntry) {
    predicate Chargeable() { AllChargeable(tokens, price) }
  }

  ghost function TotalPico(rs: seq<Request>): int
    requires forall i :: 0 <= i < |rs| ==> rs[i].Chargeable()
  {
    if rs == [] then 0
    else
      var last := rs[|rs| - 1];
      TotalPico(rs[..|rs| - 1]) + ExactSum(last.tokens, last.price)
  }

  ghost function TotalCost8(rs: seq<Request>): int
    requires forall i :: 0 <= i < |rs| ==> rs[i].Chargeable()
  {
    if rs == [] then 0
    else
      var last := rs[|rs| - 1];
      assert last.Chargeable();
      TotalCost8(rs[..|rs| - 1]) + Cost8(last.tokens, last.price)
  }

  /** n requests never overcharge and lose less than n × 1e-8 USD in all (1e-8 USD is 10^4 picoUSD). */
  lemma {:induction false} TruncationLoss(rs: seq<Request>)
    requires forall i :: 0 <= i < |rs| ==> rs[i].Chargeable()
    ensures 0 <= TotalPico(rs) - 10_000 * TotalCost8(rs) <= 9_999 * |rs|
  {
    if rs != [] {
      hide AllChargeable, ExactSum, Cost8;
      var last := rs[|rs| - 1];
      TruncationLoss(rs[..|rs| - 1]);
      assert last.Chargeable();
      CutLoss(last);
    }
  }

  /** One request loses the remainder of its division by 10^4. */
  lemma CutLoss(r: Request)
    requires r.Chargeable()
    ensures 0 <= ExactSum(r.tokens, r.price) - 10_000 * Cost8(r.tokens, r.price) <= 9_999
  {
    hide AllChargeable, ExactSum, CalculateCostUsd, ParseDecimalScaled;
    WorkerReadsBack(r.tokens, r.price);
  }
}
