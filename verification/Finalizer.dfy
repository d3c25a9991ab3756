/** EventFinalizer (apps/gateway/src/proxy/core.ts): one request, at most one usage event, priced once. */
module Finalizer {
  import opened Wrappers
  import opened Matcher
  import opened Money
  import opened Events
  import opened ProviderUsage
  import Calculator
  import Rollups

  datatype Info = Info(
    provider: Provider, requestModel: string, occurredAt: int,
    workspaceId: string, projectId: string, teamId: Option<string>, userId: string, virtualKeyId: string,
    catalog: seq<PriceEntry>, overrides: seq<PriceEntry>)

  /** The arguments of one call, with the fresh id and the elapsed time it reads. */
  datatype Call = Call(httpStatus: int, usage: Option<NormalizedUsage>, aborted: bool, statusOverride: Option<Status>,
                       id: string, elapsedMs: int)

  /** The model reported, or else requested, or else "unknown". */
  function ModelOf(info: Info, c: Call): string {
    if c.usage.Some? && c.usage.value.model != "" then c.usage.value.model
    else if info.requestModel != "" then info.requestModel
    else "unknown"
  }

  function Tokens(u: NormalizedUsage): Calculator.TokenCounts {
    Calculator.TokenCounts(Calculator.Whole(u.inputTokens), Calculator.Whole(u.outputTokens),
                           Some(Calculator.Whole(u.cacheReadTokens)), Some(Calculator.Whole(u.cacheWriteTokens)))
  }

  function CostOf(u: NormalizedUsage, p: PriceEntry): Result<string> {
    if u.upstreamCostUsd.Some? then Ok(u.upstreamCostUsd.value) else Calculator.CalculateCostUsd(Tokens(u), p)
  }

  const ZERO_COST := "0.00000000"

  /** The cost text and its basis; computing them may throw. */
  function Charge(c: Call, price: Option<PriceEntry>): Result<(string, CostBasis)> {
    if price.Some? && c.usage.Some? then
      match CostOf(c.usage.value, price.value)
      case Err => Err
      case Ok(cost) => Ok((cost, if c.usage.value.complete && !c.aborted then ACTUAL else ESTIMATED))
    else Ok((ZERO_COST, UNPRICED))
  }

  function StatusOf(c: Call): Status {
    match c.statusOverride
    case Some(s) => s
    case None => if c.httpStatus < 400 then OK else PROVIDER_ERROR
  }

  /** The event that the call builds at the price found, if building it does not throw. */
  function EventOf(info: Info, c: Call, price: Option<PriceEntry>): Result<UsageEvent> {
    match Charge(c, price)
    case Err => Err
    case Ok((cost, basis)) =>
      var u := if c.usage.Some? then c.usage.value else NormalizedUsage("", 0, 0, 0, 0, 0, false, None);
      Ok(UsageEvent(c.id, info.occurredAt, info.workspaceId, info.projectId,
                    if info.teamId == Some("") then None else info.teamId, info.userId, info.virtualKeyId,
                    info.provider, ModelOf(info, c), StatusOf(c),
                    u.inputTokens, u.outputTokens, u.cacheReadTokens, u.cacheWriteTokens, u.reasoningTokens,
                    cost, basis, c.elapsedMs))
  }

  datatype State = State(done: bool, emitted: seq<UsageEvent>)

  function Step(info: Info, s: State, c: Call, price: Option<PriceEntry>): State {
    if s.done then s
    else
      match EventOf(info, c, price)
      case Err => State(true, s.emitted)
      case Ok(e) => State(true, s.emitted + [e])
  }

  function Run(info: Info, calls: seq<(Call, Option<PriceEntry>)>): State {
    if calls == [] then State(false, [])
    else Step(info, Run(info, calls[..|calls| - 1]), calls[|calls| - 1].0, calls[|calls| - 1].1)
  }

  /** What the first call alone leaves behind. */
  function FirstOnly(info: Info, calls: seq<(Call, Option<PriceEntry>)>): seq<UsageEvent> {
    if calls == [] then []
    else
      match EventOf(info, calls[0].0, calls[0].1)
      case Err => []
      case Ok(e) => [e]
  }

  /** Any sequence of calls emits what its first call emits: at most one event, and none ever if that call throws. */
  lemma {:induction false} OnlyTheFirstCallCounts(info: Info, calls: seq<(Call, Option<PriceEntry>)>)
    ensures Run(info, calls).emitted == FirstOnly(info, calls) && (Run(info, calls).done <==> calls != [])
    ensures |Run(info, calls).emitted| <= 1
  {
    if |calls| == 1 {
      assert calls[..0] == [];
      assert Run(info, []).emitted == [];
    } else if calls != [] {
      OnlyTheFirstCallCounts(info, calls[..|calls| - 1]);
      assert calls[..|calls| - 1][0] == calls[0];
    }
  }

  /** Building the event throws exactly when a price applies and the calculator refuses the counts or the price. */
  lemma ThrowsIffNotChargeable(info: Info, c: Call, price: Option<PriceEntry>)
    ensures EventOf(info, c, price).Err? <==>
      price.Some? && c.usage.Some? && c.usage.value.upstreamCostUsd.None?
        && var (u, p) := (c.usage.value, price.value);
           !(Calculator.Chargeable(Calculator.Whole(u.inputTokens), p.inputPerMtok)
             && Calculator.Chargeable(Calculator.Whole(u.outputTokens), p.outputPerMtok)
             && Calculator.Chargeable(Calculator.Whole(u.cacheReadTokens), p.cacheReadPerMtok)
             && Calculator.Chargeable(Calculator.Whole(u.cacheWriteTokens), p.cacheWritePerMtok))
  {
    hide Calculator.CalculateCostUsd, Calculator.Chargeable;
    if c.usage.Some? && price.Some? { Calculator.WorkerReadsBack(Tokens(c.usage.value), price.value); }
  }

  /** The columns of an event, each from the call, its usage or the request; `model` is also what the price is for. */
  lemma EventSays(info: Info, c: Call, price: Option<PriceEntry>)
    requires EventOf(info, c, price).Ok?
    ensures var e := EventOf(info, c, price).value;
      && e.id == c.id && e.occurredAt == info.occurredAt && e.provider == info.provider
      && (e.workspaceId, e.projectId, e.userId, e.virtualKeyId)
           == (info.workspaceId, info.projectId, info.userId, info.virtualKeyId)
      && e.teamId == (if info.teamId == Some("") then None else info.teamId)
      && (c.statusOverride.Some? ==> e.status == c.statusOverride.value)
      && (c.statusOverride.None? ==>
            (e.status == OK <==> c.httpStatus < 400) && (e.status == PROVIDER_ERROR <==> c.httpStatus >= 400))
      && (c.usage.Some? && c.usage.value.model != "" ==> e.model == c.usage.value.model)
      && ((c.usage.None? || c.usage.value.model == "") && info.requestModel != "" ==> e.model == info.requestModel)
      && ((c.usage.None? || c.usage.value.model == "") && info.requestModel == "" ==> e.model == "unknown")
      && (c.usage.Some? ==>
            && (e.inputTokens, e.outputTokens) == (c.usage.value.inputTokens, c.usage.value.outputTokens)
            && (e.cacheReadTokens, e.cacheWriteTokens)
                 == (c.usage.value.cacheReadTokens, c.usage.value.cacheWriteTokens)
            && e.reasoningTokens == c.usage.value.reasoningTokens)
      && (c.usage.None? ==>
            e.inputTokens == e.outputTokens == e.cacheReadTokens == e.cacheWriteTokens == e.reasoningTokens == 0)
      && e.latencyMs == c.elapsedMs
      && (price.Some? && c.usage.Some? && c.usage.value.upstreamCostUsd.Some? ==>
            e.costUsd == c.usage.value.upstreamCostUsd.value)
  {
    hide Calculator.CalculateCostUsd;
  }

  /**
   * The rollup rows that the event will count in, and that it counts there as one request, and as an error exactly
   * when it was blocked or answered with 400 or more.
   */
  lemma EventIsFiledUnder(info: Info, c: Call, price: Option<PriceEntry>, u: Rollups.Unit)
    requires EventOf(info, c, price).Ok?
    ensures var e := EventOf(info, c, price).value;
      && Rollups.KeyOf(e, u).bucket <= info.occurredAt < Rollups.KeyOf(e, u).bucket
        + (if u == Rollups.Hour then Rollups.HOUR_MS else Rollups.DAY_MS)
      && Rollups.KeyOf(e, u).dims
        == Rollups.Dims(info.workspaceId, info.projectId, info.userId, info.provider, e.model)
      && Rollups.TotalOf(e).counts.requests == 1
      && Rollups.TotalOf(e).counts.errors ==
           (if (if c.statusOverride.Some? then c.statusOverride.value == OK else c.httpStatus < 400) then 0 else 1)
  {
    hide Charge, Calculator.CalculateCostUsd;
    EventSays(info, c, price);
    Rollups.TruncationNests(info.occurredAt);
  }

  lemma ZeroReadsBack()
    ensures ParseDecimalScaled(ZERO_COST, 8) == Ok(0)
  {
    CostCodecsAgree(0);
    ZeroIsPrinted();
  }

  lemma ZeroIsPrinted()
    ensures FormatPicoUsd(0) == ZERO_COST
  {
  }

  /**
   * The worker reads every emitted cost unless the provider reported an unreadable one: the exact price of the event's
   * own token columns, cut to 1e-8 USD, when calculated, and zero when there was no usage or no price.
   */
  lemma EmittedCostIsRead(info: Info, c: Call, price: Option<PriceEntry>)
    requires EventOf(info, c, price).Ok?
    ensures var e := EventOf(info, c, price).value;
      && (e.costBasis == UNPRICED <==> price.None? || c.usage.None?)
      && (e.costBasis == UNPRICED ==> Rollups.Priced(e) && Rollups.Cost8(e) == 0)
      && (e.costBasis != UNPRICED && c.usage.value.upstreamCostUsd.None? ==>
            && var p := price.value;
               Rollups.Priced(e) && Rollups.Cost8(e) ==
                 (Calculator.Owed(Calculator.Whole(e.inputTokens), p.inputPerMtok)
                  + Calculator.Owed(Calculator.Whole(e.outputTokens), p.outputPerMtok)
                  + Calculator.Owed(Calculator.Whole(e.cacheReadTokens), p.cacheReadPerMtok)
                  + Calculator.Owed(Calculator.Whole(e.cacheWriteTokens), p.cacheWritePerMtok)) / 10_000)
      && (e.costBasis == ACTUAL <==> price.Some? && c.usage.Some? && c.usage.value.complete && !c.aborted)
  {
    hide Calculator.CalculateCostUsd, Calculator.Owed, Calculator.Chargeable, ParseDecimalScaled;
    ZeroReadsBack();
    if c.usage.Some? && price.Some? { Calculator.WorkerReadsBack(Tokens(c.usage.value), price.value); }
  }

  /** What deps.pricing.match returns. */
  ghost predicate Chosen(info: Info, model: string, price: Option<PriceEntry>) {
    if exists j :: 0 <= j < |info.overrides| && Applies(info.overrides[j], info.provider, model)
    then Selects(info.overrides, info.provider, model, price)
    else Selects(info.catalog, info.provider, model, price)
  }

  class EventFinalizer {
    const info: Info
    var done: bool
    ghost var emitted: seq<UsageEvent>

    ghost function Abs(): State
      reads this
    {
      State(done, emitted)
    }

    constructor (info: Info)
      ensures this.info == info && Abs() == Run(info, [])
    {
      this.info, done, emitted := info, false, [];
    }

    /** finalize; `threw` when the exception of the calculator leaves it. */
    method Finalize(c: Call) returns (threw: bool, sent: Option<UsageEvent>, ghost price: Option<PriceEntry>)
      modifies this
      ensures Abs() == Step(info, old(Abs()), c, price)
      ensures !old(done) ==> Chosen(info, ModelOf(info, c), price)
      ensures sent.Some? ==> Chosen(info, sent.value.model, price)
      ensures emitted == old(emitted) + if sent.Some? then [sent.value] else []
      ensures threw <==> !old(done) && EventOf(info, c, price).Err?
    {
      threw, sent, price := false, None, None;
      if done { return; }
      done := true;
      var model := ModelOf(info, c);
      var found := MatchPrice(info.provider, model, info.catalog, info.overrides);
      price := found;
      var event := EventOf(info, c, found);
      if event.Err? { return true, None, price; }
      sent := Some(event.value);
      emitted := emitted + [event.value];
    }
  }
}
