/**
 * Reading an Anthropic event stream: the usage extractor (packages/providers/src/anthropic.ts) and the
 * Anthropic-to-OpenAI re-encoder (packages/providers/src/translate.ts), each against the message the stream assembles
 * to.
 */
module Anthropic {
  import opened Wrappers
  import opened FrameTap
  import opened ProviderUsage

  /** A JSON number field. */
  datatype Field = Absent | Null | Num(n: int)

  datatype Usage = Usage(input: Field, output: Field, cacheRead: Field, cacheWrite: Field)

  const NO_USAGE := Usage(Absent, Absent, Absent, Absent)

  datatype Start = Start(model: Option<string>, usage: Option<Usage>)

  datatype Delta = TextDelta(text: string) | OtherDelta

  /** An SSE frame after ssePayload: one case per event type, `NoData` when there is nothing to parse. */
  datatype Event =
    | MessageStart(message: Option<Start>)
    | BlockStart(initial: string)
    | BlockDelta(delta: Option<Delta>)
    | BlockStop
    | MessageDelta(stopReason: Option<string>, usage: Option<Usage>)
    | MessageStop
    | OtherEvent
    | NoData

  // ----- the usage extractor -----

  function OrZero(f: Field): int { if f.Num? then f.n else 0 }

  function Normalize(model: string, u: Usage, complete: bool): NormalizedUsage {
    NormalizedUsage(model, OrZero(u.input), OrZero(u.output), OrZero(u.cacheRead), OrZero(u.cacheWrite), 0, complete,
      None)
  }

  /** Object.assign on one field: a present field overwrites, even with null. */
  function Assign(old_: Field, new_: Field): Field { if new_.Absent? then old_ else new_ }

  function AssignAll(u: Usage, v: Usage): Usage {
    Usage(Assign(u.input, v.input), Assign(u.output, v.output), Assign(u.cacheRead, v.cacheRead),
      Assign(u.cacheWrite, v.cacheWrite))
  }

  /** The null check on one field: only a number overwrites. */
  function Override(old_: Field, new_: Field): Field { if new_.Num? then new_ else old_ }

  /** What the extractor's closure holds. */
  datatype Meter = Meter(model: string, acc: Usage, sawDelta: bool)

  const IDLE := Meter("", NO_USAGE, false)

  function Observe(m: Meter, e: Event): Meter {
    match e
    case MessageStart(Some(start)) =>
      Meter(if start.model.Some? then start.model.value else m.model,
            AssignAll(m.acc, if start.usage.Some? then start.usage.value else NO_USAGE), m.sawDelta)
    case MessageDelta(_, Some(u)) =>
      Meter(m.model, m.acc.(output := Override(m.acc.output, u.output), input := Override(m.acc.input, u.input)), true)
    case _ => m
  }

  function ObserveAll(m: Meter, es: seq<Event>): Meter {
    if es == [] then m else Observe(ObserveAll(m, es[..|es| - 1]), es[|es| - 1])
  }

  class UsageExtractor {
    var model: string
    var acc: Usage
    var sawDelta: bool
    ghost var seen: seq<Event>

    ghost function Abs(): Meter
      reads this
    {
      Meter(model, acc, sawDelta)
    }

    ghost predicate Valid()
      reads this
    {
      Abs() == ObserveAll(IDLE, seen)
    }

    constructor ()
      ensures Valid() && seen == []
    {
      model, acc, sawDelta, seen := "", NO_USAGE, false, [];
    }

    method OnFrame(data: Event)
      requires Valid()
      modifies this
      ensures Valid() && seen == old(seen) + [data] && Abs() == Observe(old(Abs()), data)
    {
      assert (seen + [data])[..|seen|] == seen;
      seen := seen + [data];
      if data.MessageStart? && data.message.Some? {
        var message := data.message.value;
        if message.model.Some? { model := message.model.value; }
        if message.usage.Some? { acc := AssignAll(acc, message.usage.value); }
      } else if data.MessageDelta? && data.usage.Some? {
        var usage := data.usage.value;
        if usage.output.Num? { acc := acc.(output := usage.output); }
        if usage.input.Num? { acc := acc.(input := usage.input); }
        sawDelta := true;
      }
    }

    /**
     * finish: the model and the counts of the message, input and output as last reported, the cache counts as
     * message_start gave them.
     */
    method Finish() returns (u: NormalizedUsage)
      requires Valid()
      ensures forall k: nat :: StartsAt(seen, k) ==>
        && u.model == (if ModelIn(seen).Some? then ModelIn(seen).value else "")
        && u.inputTokens == CountOrZero(LastReport(seen, Input, 0))
        && u.outputTokens == CountOrZero(LastReport(seen, Output, 0))
        && u.cacheReadTokens == CountOrZero(Report(seen[k], CacheRead))
        && u.cacheWriteTokens == CountOrZero(Report(seen[k], CacheWrite))
        && u.reasoningTokens == 0 && u.upstreamCostUsd == None && (u.complete <==> ReportsUsage(seen, k + 1))
      ensures u.complete <==> sawDelta
      ensures forall k :: StartsAt(seen, k) ==> (u == ParseUsage(MessageOf(seen)) <==> CountsSettledAtStart(seen, k))
    {
      u := Normalize(model, acc, sawDelta);
      forall k | StartsAt(seen, k) ensures u == ParseUsage(MessageOf(seen)) <==> CountsSettledAtStart(seen, k) {
        StreamedUsageIsParsedUsage(seen, k);
      }
      forall k: nat | StartsAt(seen, k)
        ensures u.inputTokens == CountOrZero(LastReport(seen, Input, 0))
          && u.outputTokens == CountOrZero(LastReport(seen, Output, 0))
          && u.cacheReadTokens == CountOrZero(Report(seen[k], CacheRead))
          && u.cacheWriteTokens == CountOrZero(Report(seen[k], CacheWrite))
          && (u.complete <==> ReportsUsage(seen, k + 1))
          && u.model == (if ModelIn(seen).Some? then ModelIn(seen).value else "")
      {
        MeterReads(seen, k);
      }
    }
  }

  // ----- the message whose usage a stream reports -----

  datatype Count = Input | Output | CacheRead | CacheWrite

  function FieldOf(u: Usage, c: Count): Field {
    match c
    case Input => u.input
    case Output => u.output
    case CacheRead => u.cacheRead
    case CacheWrite => u.cacheWrite
  }

  /** The usage object of an event, whichever of the two kinds carries it. */
  function UsageIn(e: Event): Option<Usage> {
    match e
    case MessageStart(Some(start)) => start.usage
    case MessageDelta(_, usage) => usage
    case _ => None
  }

  function Report(e: Event, c: Count): Option<int> {
    match UsageIn(e)
    case None => None
    case Some(u) => if FieldOf(u, c).Num? then Some(FieldOf(u, c).n) else None
  }

  /** Reported counts are cumulative: the last report of a count, among the events from `from` on, is its value. */
  function LastReport(es: seq<Event>, c: Count, from: nat): Option<int> {
    if |es| <= from then None
    else if Report(es[|es| - 1], c).Some? then Report(es[|es| - 1], c)
    else LastReport(es[..|es| - 1], c, from)
  }

  predicate ReportsUsage(es: seq<Event>, from: nat) {
    |es| > from && (UsageIn(es[|es| - 1]).Some? || ReportsUsage(es[..|es| - 1], from))
  }

  function AsField(n: Option<int>): Field { if n.Some? then Num(n.value) else Absent }

  /** The JSON body of the buffered response: parseUsage looks at its model and its usage. */
  datatype Body = Body(model: Option<string>, usage: Option<Usage>)

  /** The model that the last message_start to give one gives. */
  function ModelIn(es: seq<Event>): Option<string> {
    if es == [] then None
    else
      match es[|es| - 1]
      case MessageStart(Some(Start(Some(model), _))) => Some(model)
      case _ => ModelIn(es[..|es| - 1])
  }

  /** The message that a stream stands for: every count as last reported, by message_start or by message_delta. */
  function MessageOf(es: seq<Event>): Body {
    Body(ModelIn(es),
         if ReportsUsage(es, 0)
         then Some(Usage(AsField(LastReport(es, Input, 0)), AsField(LastReport(es, Output, 0)),
                         AsField(LastReport(es, CacheRead, 0)), AsField(LastReport(es, CacheWrite, 0))))
         else None)
  }

  function ParseUsage(json: Body): NormalizedUsage {
    Normalize(if json.model.Some? then json.model.value else "",
              if json.usage.Some? then json.usage.value else NO_USAGE, json.usage.Some?)
  }

  predicate IsStart(e: Event) { e.MessageStart? && e.message.Some? }

  /** The stream has one message_start, at position k, and no usage before it. */
  ghost predicate StartsAt(es: seq<Event>, k: nat) {
    && k < |es| && IsStart(es[k])
    && (forall i :: 0 <= i < |es| && i != k ==> !IsStart(es[i]))
    && (forall i :: 0 <= i < k ==> UsageIn(es[i]).None?)
  }

  function CountOrZero(n: Option<int>): int { if n.Some? then n.value else 0 }

  /** A count that message_delta reports again at its end is the one message_start gave. */
  predicate Unchanged(es: seq<Event>, k: nat, c: Count)
    requires k < |es|
  {
    LastReport(es, c, k + 1).Some? ==> LastReport(es, c, k + 1).value == CountOrZero(Report(es[k], c))
  }

  /** Both cache counts are final at message_start, and message_delta reports usage if message_start did. */
  predicate CountsSettledAtStart(es: seq<Event>, k: nat)
    requires k < |es|
  {
    && Unchanged(es, k, CacheRead) && Unchanged(es, k, CacheWrite)
    && (UsageIn(es[k]).Some? ==> ReportsUsage(es, k + 1))
  }

  lemma {:induction false} NothingBeforeStart(es: seq<Event>)
    requires forall i :: 0 <= i < |es| ==> !IsStart(es[i]) && UsageIn(es[i]).None?
    ensures ObserveAll(IDLE, es) == IDLE && ModelIn(es) == None && !ReportsUsage(es, 0)
    ensures forall c :: LastReport(es, c, 0) == None
  {
    if es != [] { NothingBeforeStart(es[..|es| - 1]); }
  }

  /** Reports from k on: those after k, or else the one at k. */
  lemma {:induction false} ReportsFromStart(es: seq<Event>, k: nat, c: Count)
    requires k < |es| && forall i :: 0 <= i < k ==> UsageIn(es[i]).None?
    ensures LastReport(es, c, 0) ==
      if LastReport(es, c, k + 1).Some? then LastReport(es, c, k + 1) else Report(es[k], c)
    ensures ReportsUsage(es, 0) <==> UsageIn(es[k]).Some? || ReportsUsage(es, k + 1)
  {
    if |es| > k + 1 {
      ReportsFromStart(es[..|es| - 1], k, c);
    } else {
      NoneBefore(es[..k], c);
      assert es[..|es| - 1] == es[..k];
    }
  }

  lemma {:induction false} NoneBefore(es: seq<Event>, c: Count)
    requires forall i :: 0 <= i < |es| ==> UsageIn(es[i]).None?
    ensures LastReport(es, c, 0) == None && !ReportsUsage(es, 0)
  {
    if es != [] { NoneBefore(es[..|es| - 1], c); }
  }

  /** What the closure holds: input and output as last reported, the cache counts as message_start left them. */
  lemma {:induction false} MeterReads(es: seq<Event>, k: nat)
    requires StartsAt(es, k)
    ensures var m := ObserveAll(IDLE, es);
      && m.model == (if ModelIn(es).Some? then ModelIn(es).value else "")
      && OrZero(m.acc.input) == CountOrZero(LastReport(es, Input, 0))
      && OrZero(m.acc.output) == CountOrZero(LastReport(es, Output, 0))
      && OrZero(m.acc.cacheRead) == CountOrZero(Report(es[k], CacheRead))
      && OrZero(m.acc.cacheWrite) == CountOrZero(Report(es[k], CacheWrite))
      && (m.sawDelta <==> ReportsUsage(es, k + 1))
  {
    var init := es[..|es| - 1];
    if k == |es| - 1 {
      NothingBeforeStart(init);
    } else {
      assert StartsAt(init, k);
      MeterReads(init, k);
    }
  }

  /**
   * Streamed and buffered responses are metered alike exactly when message_delta adds nothing to the cache counts of
   * message_start: the extractor takes input and output from message_delta and drops the cache counts it reports.
   */
  lemma StreamedUsageIsParsedUsage(es: seq<Event>, k: nat)
    requires StartsAt(es, k)
    ensures var m := ObserveAll(IDLE, es);
      Normalize(m.model, m.acc, m.sawDelta) == ParseUsage(MessageOf(es)) <==> CountsSettledAtStart(es, k)
  {
    MeterReads(es, k);
    ReportsFromStart(es, k, CacheRead);
    ReportsFromStart(es, k, CacheWrite);
    forall c | !ReportsUsage(es, 0) ensures LastReport(es, c, 0) == None { UnreportedCounts(es, c); }
  }

  lemma {:induction false} UnreportedCounts(es: seq<Event>, c: Count)
    requires !ReportsUsage(es, 0)
    ensures LastReport(es, c, 0) == None
  {
    if es != [] { UnreportedCounts(es[..|es| - 1], c); }
  }

  function After(was: int, reported: Field): int {
    match reported
    case Absent => was
    case Null => 0
    case Num(n) => n
  }

  /** After any events, a message_start replaces what it names, a null counting as zero, and keeps the rest. */
  lemma StartReplaces(es: seq<Event>, start: Start)
    ensures var m, t := ObserveAll(IDLE, es), ObserveAll(IDLE, es + [MessageStart(Some(start))]);
      && t.model == (if start.model.Some? then start.model.value else m.model) && t.sawDelta == m.sawDelta
      && (start.usage.None? ==> t.acc == m.acc)
      && (start.usage.Some? ==>
            var u := start.usage.value;
            && OrZero(t.acc.input) == After(OrZero(m.acc.input), u.input)
            && OrZero(t.acc.output) == After(OrZero(m.acc.output), u.output)
            && OrZero(t.acc.cacheRead) == After(OrZero(m.acc.cacheRead), u.cacheRead)
            && OrZero(t.acc.cacheWrite) == After(OrZero(m.acc.cacheWrite), u.cacheWrite))
  {
    assert (es + [MessageStart(Some(start))])[..|es|] == es;
  }

  /** A cache count that only message_delta reports is not metered: the message says 7, the meter 0. */
  lemma LateCacheCountIsDropped(model: string)
    ensures var es := [MessageStart(Some(Start(Some(model), Some(Usage(Num(10), Num(1), Num(0), Num(0)))))),
                       MessageDelta(None, Some(Usage(Num(10), Num(5), Num(7), Num(0)))), MessageStop];
      var m := ObserveAll(IDLE, es);
      && Normalize(m.model, m.acc, m.sawDelta) == NormalizedUsage(model, 10, 5, 0, 0, 0, true, None)
      && ParseUsage(MessageOf(es)) == NormalizedUsage(model, 10, 5, 7, 0, 0, true, None)
  {
    var start := MessageStart(Some(Start(Some(model), Some(Usage(Num(10), Num(1), Num(0), Num(0))))));
    var delta := MessageDelta(None, Some(Usage(Num(10), Num(5), Num(7), Num(0))));
    var es := [start, delta, MessageStop];
    assert es[..2] == [start, delta] && [start, delta][..1] == [start] && [start][..0] == [];
    assert ObserveAll(IDLE, [start]) == Observe(IDLE, start);
    assert ObserveAll(IDLE, [start, delta]) == Observe(Observe(IDLE, start), delta);
    forall c ensures LastReport(es, c, 0) == Report(delta, c) {
      assert LastReport([start, delta], c, 0) == Report(delta, c);
    }
    assert ReportsUsage([start, delta], 0);
    assert ModelIn([start]) == Some(model);
    assert ModelIn([start, delta]) == Some(model);
    assert ModelIn(es) == Some(model);
  }

  // ----- the re-encoder -----

  /** One emitted OpenAI line; rendering to JSON text is left to the caller. */
  datatype Chunk = RoleChunk | ContentChunk(text: string) | FinishChunk(reason: string) | DoneLine

  function FinishReason(stopReason: Option<string>): string {
    match stopReason
    case Some(s) =>
      if s == "max_tokens" then "length" else if s == "tool_use" then "tool_calls" else "stop"
    case None => "stop"
  }

  /** The stop reasons that do not end in "stop". */
  lemma FinishReasons(stopReason: Option<string>)
    ensures FinishReason(stopReason) == "length" <==> stopReason == Some("max_tokens")
    ensures FinishReason(stopReason) == "tool_calls" <==> stopReason == Some("tool_use")
    ensures stopReason != Some("max_tokens") && stopReason != Some("tool_use") ==> FinishReason(stopReason) == "stop"
  {
    assert |"length"| == 6 && |"tool_calls"| == 10 && |"stop"| == 4;
  }

  function Translate(started: bool, e: Event): (bool, seq<Chunk>) {
    match e
    case MessageStart(_) => (true, if started then [] else [RoleChunk])
    case BlockDelta(Some(TextDelta(text))) => (started, if text != "" then [ContentChunk(text)] else [])
    case MessageDelta(stopReason, _) => (started, [FinishChunk(FinishReason(stopReason))])
    case MessageStop => (started, [DoneLine])
    case _ => (started, [])
  }

  function TranslateAll(es: seq<Event>): (bool, seq<Chunk>) {
    if es == [] then (false, [])
    else
      var (started, out) := TranslateAll(es[..|es| - 1]);
      var (started', more) := Translate(started, es[|es| - 1]);
      (started', out + more)
  }

  class OpenaiStream {
    var started: bool
    ghost var seen: seq<Event>
    ghost var emitted: seq<Chunk>

    ghost predicate Valid()
      reads this
    {
      (started, emitted) == TranslateAll(seen)
    }

    constructor ()
      ensures Valid() && seen == [] && emitted == []
    {
      started, seen, emitted := false, [], [];
    }

    method OnFrame(data: Event) returns (out: seq<Chunk>)
      requires Valid()
      modifies this
      ensures Valid() && seen == old(seen) + [data] && emitted == old(emitted) + out
      ensures (started, out) == Translate(old(started), data)
    {
      assert (seen + [data])[..|seen|] == seen;
      seen := seen + [data];
      out := [];
      if data.MessageStart? && !started {
        started := true;
        out := out + [RoleChunk];
      } else if data.BlockDelta? {
        if data.delta.Some? && data.delta.value.TextDelta? && data.delta.value.text != "" {
          out := out + [ContentChunk(data.delta.value.text)];
        }
      } else if data.MessageDelta? {
        out := out + [FinishChunk(FinishReason(data.stopReason))];
      } else if data.MessageStop? {
        out := out + [DoneLine];
      }
      assert forall c: Chunk :: [] + [c] == [c];
      emitted := emitted + out;
    }
  }

  // ----- the message whose text a stream spells -----

  /** A content block: the text it starts with and the text its deltas add. A block without text has "". */
  datatype Block = Block(initial: string, streamed: string)

  /** The parts of a message that the translation looks at; `reasons` holds what its message_delta events say. */
  datatype Message = Message(blocks: seq<Block>, reasons: seq<Option<string>>)

  /** Where a stream is: message_start, content, any message_delta events, message_stop; other events anywhere. */
  datatype Assembly =
    | Before
    | Open(msg: Message)
    | Ended(msg: Message)
    | Stopped(msg: Message)
    | Malformed

  function Advance(a: Assembly, e: Event): Assembly {
    if e.OtherEvent? || e.NoData? then a
    else
      match a
      case Before => if e.MessageStart? then Open(Message([], [])) else Malformed
      case Open(msg) => AdvanceOpen(msg, e)
      case Ended(msg) =>
        if e.MessageDelta? then Ended(msg.(reasons := msg.reasons + [e.stopReason]))
        else if e.MessageStop? then Stopped(msg)
        else Malformed
      case Stopped(_) => Malformed
      case Malformed => Malformed
  }

  function OrOneBlock(blocks: seq<Block>): (r: seq<Block>)
    ensures r != []
  {
    if blocks == [] then [Block("", "")] else blocks
  }

  /** A text delta belongs to the block last started; without one it starts a block of its own. */
  function AdvanceOpen(msg: Message, e: Event): Assembly {
    match e
    case BlockStart(initial) => Open(msg.(blocks := msg.blocks + [Block(initial, "")]))
    case BlockDelta(Some(TextDelta(text))) =>
      Open(msg.(blocks := Extend(OrOneBlock(msg.blocks), text)))
    case BlockDelta(_) => Open(msg)
    case BlockStop => Open(msg)
    case MessageDelta(stopReason, _) => Ended(msg.(reasons := msg.reasons + [stopReason]))
    case MessageStop => Stopped(msg)
    case _ => Malformed
  }

  function Extend(blocks: seq<Block>, text: string): seq<Block>
    requires blocks != []
  {
    var last := blocks[|blocks| - 1];
    blocks[..|blocks| - 1] + [last.(streamed := last.streamed + text)]
  }

  function Assemble(es: seq<Event>): Assembly {
    if es == [] then Before else Advance(Assemble(es[..|es| - 1]), es[|es| - 1])
  }

  function Text(blocks: seq<Block>): string {
    if blocks == [] then ""
    else Text(blocks[..|blocks| - 1]) + (blocks[|blocks| - 1].initial + blocks[|blocks| - 1].streamed)
  }

  /** The stop reason of the message: the last one reported. */
  function StopReason(reasons: seq<Option<string>>): Option<string> {
    if reasons == [] then None
    else
      var last := reasons[|reasons| - 1];
      if last.Some? then last else StopReason(reasons[..|reasons| - 1])
  }

  /** What the message_delta events of a stream say, in order. */
  function Reasons(es: seq<Event>): seq<Option<string>> {
    if es == [] then []
    else
      var last := es[|es| - 1];
      Reasons(es[..|es| - 1]) + if last.MessageDelta? then [last.stopReason] else []
  }

  lemma {:induction false} MessageHoldsReasons(es: seq<Event>)
    ensures Assemble(es).Before? ==> Reasons(es) == []
    ensures Assemble(es).Open? || Assemble(es).Ended? || Assemble(es).Stopped? ==>
      Assemble(es).msg.reasons == Reasons(es)
  {
    if es != [] {
      hide Extend, OrOneBlock;
      MessageHoldsReasons(es[..|es| - 1]);
    }
  }

  /** One finish chunk for each message_delta. */
  function Finishes(reasons: seq<Option<string>>): seq<Chunk> {
    seq(|reasons|, i requires 0 <= i < |reasons| => FinishChunk(FinishReason(reasons[i])))
  }

  /** anthropicToOpenaiResponse: the assistant text and the finish reason. */
  datatype Response = Response(content: string, finishReason: string)

  function ToOpenaiResponse(msg: Message): Response {
    Response(Text(msg.blocks), FinishReason(StopReason(msg.reasons)))
  }

  predicate AllContent(cs: seq<Chunk>) { forall i :: 0 <= i < |cs| ==> cs[i].ContentChunk? && cs[i].text != "" }

  function ContentOf(cs: seq<Chunk>): string
    requires AllContent(cs)
  {
    if cs == [] then "" else ContentOf(cs[..|cs| - 1]) + cs[|cs| - 1].text
  }

  function Streamed(blocks: seq<Block>): string {
    if blocks == [] then "" else Streamed(blocks[..|blocks| - 1]) + blocks[|blocks| - 1].streamed
  }

  lemma ExtendStreams(blocks: seq<Block>, text: string)
    requires blocks != []
    ensures Streamed(Extend(blocks, text)) == Streamed(blocks) + text
  {
    var b := Extend(blocks, text);
    assert b[..|b| - 1] == blocks[..|blocks| - 1];
    assert Streamed(blocks[..|blocks| - 1]) + (blocks[|blocks| - 1].streamed + text) ==
      Streamed(blocks[..|blocks| - 1]) + blocks[|blocks| - 1].streamed + text;
  }

  /** The content chunks of a prefix: everything between the role chunk and the tail. */
  ghost predicate Shape(chunks: seq<Chunk>, blocks: seq<Block>, tail: seq<Chunk>) {
    exists cs :: AllContent(cs) && chunks == [RoleChunk] + cs + tail && ContentOf(cs) == Streamed(blocks)
  }

  lemma OneMoreContent(cs: seq<Chunk>, text: string)
    requires AllContent(cs) && text != ""
    ensures AllContent(cs + [ContentChunk(text)]) && ContentOf(cs + [ContentChunk(text)]) == ContentOf(cs) + text
  {
    assert (cs + [ContentChunk(text)])[..|cs|] == cs;
  }

  lemma AddContent(chunks: seq<Chunk>, blocks: seq<Block>, text: string)
    requires Shape(chunks, blocks, []) && blocks != []
    ensures Shape(chunks + if text != "" then [ContentChunk(text)] else [], Extend(blocks, text), [])
  {
    hide Streamed, Extend;
    var cs :| AllContent(cs) && chunks == [RoleChunk] + cs + [] && ContentOf(cs) == Streamed(blocks);
    ExtendStreams(blocks, text);
    if text == "" {
      assert chunks + [] == chunks;
      assert ContentOf(cs) + "" == ContentOf(cs);
    } else {
      var more := [ContentChunk(text)];
      OneMoreContent(cs, text);
      assert chunks + more == [RoleChunk] + (cs + more) + [];
    }
  }

  lemma AddTail(chunks: seq<Chunk>, blocks: seq<Block>, tail: seq<Chunk>, more: seq<Chunk>)
    requires Shape(chunks, blocks, tail)
    ensures Shape(chunks + more, blocks, tail + more)
  {
    var cs :| AllContent(cs) && chunks == [RoleChunk] + cs + tail && ContentOf(cs) == Streamed(blocks);
    assert chunks + more == [RoleChunk] + cs + (tail + more);
  }

  /** What has been emitted at every point of the protocol. */
  ghost predicate Emitted(a: Assembly, started: bool, out: seq<Chunk>) {
    match a
    case Before => !started && out == []
    case Open(msg) => started && Shape(out, msg.blocks, []) && msg.reasons == []
    case Ended(msg) => started && Shape(out, msg.blocks, Finishes(msg.reasons))
    case Stopped(msg) => started && Shape(out, msg.blocks, Finishes(msg.reasons) + [DoneLine])
    case Malformed => true
  }

  lemma FirstChunk(chunks: seq<Chunk>)
    requires chunks == [RoleChunk]
    ensures Shape(chunks, [], [])
  {
    assert chunks == [RoleChunk] + [] + [];
    assert AllContent([]) && ContentOf([]) == Streamed([]);
  }

  lemma EmptyBlock(chunks: seq<Chunk>, blocks: seq<Block>, initial: string)
    requires Shape(chunks, blocks, [])
    ensures Shape(chunks, blocks + [Block(initial, "")], [])
  {
    assert (blocks + [Block(initial, "")])[..|blocks|] == blocks;
    assert Streamed(blocks + [Block(initial, "")]) == Streamed(blocks);
  }

  lemma AddDelta(chunks: seq<Chunk>, blocks: seq<Block>, text: string)
    requires Shape(chunks, blocks, [])
    ensures Shape(chunks + if text != "" then [ContentChunk(text)] else [], Extend(OrOneBlock(blocks), text), [])
  {
    if blocks == [] {
      EmptyBlock(chunks, blocks, "");
      assert blocks + [Block("", "")] == [Block("", "")];
    }
    AddContent(chunks, OrOneBlock(blocks), text);
  }

  lemma AddEnd(out: seq<Chunk>, msg: Message, e: Event)
    requires Shape(out, msg.blocks, Finishes(msg.reasons)) && (e.MessageDelta? || e.MessageStop?)
    ensures e.MessageDelta? ==>
      Shape(out + [FinishChunk(FinishReason(e.stopReason))], msg.blocks, Finishes(msg.reasons + [e.stopReason]))
    ensures e.MessageStop? ==> Shape(out + [DoneLine], msg.blocks, Finishes(msg.reasons) + [DoneLine])
  {
    hide Shape;
    if e.MessageDelta? {
      var more := [FinishChunk(FinishReason(e.stopReason))];
      AddTail(out, msg.blocks, Finishes(msg.reasons), more);
      assert Finishes(msg.reasons) + more == Finishes(msg.reasons + [e.stopReason]);
    } else {
      AddTail(out, msg.blocks, Finishes(msg.reasons), [DoneLine]);
    }
  }

  lemma EmitNext(a: Assembly, started: bool, out: seq<Chunk>, e: Event)
    requires Emitted(a, started, out)
    ensures var (started', more) := Translate(started, e); Emitted(Advance(a, e), started', out + more)
  {
    hide Shape, Streamed, Extend, OrOneBlock;
    var (started', more) := Translate(started, e);
    assert more == [] ==> out + more == out;
    match a
    case Before =>
      if e.MessageStart? { FirstChunk(out + more); }
    case Open(msg) =>
      if e.BlockStart? {
        EmptyBlock(out, msg.blocks, e.initial);
      } else if e.BlockDelta? && e.delta.Some? && e.delta.value.TextDelta? {
        AddDelta(out, msg.blocks, e.delta.value.text);
      } else if e.MessageDelta? || e.MessageStop? {
        assert Finishes([]) == [];
        AddEnd(out, msg, e);
      }
    case Ended(msg) =>
      if e.MessageDelta? || e.MessageStop? { AddEnd(out, msg, e); }
    case Stopped(_) =>
    case Malformed =>
  }

  lemma {:induction false} EmittedAlways(es: seq<Event>)
    ensures Emitted(Assemble(es), TranslateAll(es).0, TranslateAll(es).1)
  {
    if es != [] {
      EmittedAlways(es[..|es| - 1]);
      var (started, out) := TranslateAll(es[..|es| - 1]);
      EmitNext(Assemble(es[..|es| - 1]), started, out, es[|es| - 1]);
    }
  }

  lemma {:induction false} TextIsStreamed(blocks: seq<Block>)
    ensures |Text(blocks)| >= |Streamed(blocks)|
    ensures (|Text(blocks)| == |Streamed(blocks)|) <==> (forall i :: 0 <= i < |blocks| ==> blocks[i].initial == "")
    ensures (forall i :: 0 <= i < |blocks| ==> blocks[i].initial == "") ==> Text(blocks) == Streamed(blocks)
  {
    if blocks != [] {
      var init, last := blocks[..|blocks| - 1], blocks[|blocks| - 1];
      TextIsStreamed(init);
      assert (forall i :: 0 <= i < |blocks| ==> blocks[i].initial == "") <==>
        (last.initial == "" && forall i :: 0 <= i < |init| ==> init[i].initial == "");
    }
  }

  /** The translation of a buffered response: one finish chunk, with its reason. */
  ghost predicate FinishesOnce(out: seq<Chunk>, reason: string) {
    exists cs :: AllContent(cs) && out == [RoleChunk] + cs + [FinishChunk(reason), DoneLine]
  }

  lemma OnlyOneFinish(cs: seq<Chunk>, reasons: seq<Option<string>>, reason: string)
    requires AllContent(cs) && FinishesOnce([RoleChunk] + cs + Finishes(reasons) + [DoneLine], reason)
    ensures |reasons| == 1
  {
    var out := [RoleChunk] + cs + Finishes(reasons) + [DoneLine];
    var cs' :| AllContent(cs') && out == [RoleChunk] + cs' + [FinishChunk(reason), DoneLine];
    assert forall k :: 0 <= k < |out| ==> (out[k].FinishChunk? <==> |cs| < k <= |cs| + |reasons|);
    assert forall k :: 0 <= k < |out| ==> (out[k].FinishChunk? <==> k == |cs'| + 1);
    assert out[|cs'| + 1].FinishChunk? && out[|cs| + 1].FinishChunk?;
  }

  /**
   * A complete stream is re-encoded as one role chunk, the content chunks, a finish chunk for each message_delta, and
   * [DONE].
   * - The contents spell the buffered translation's text exactly when no block starts with text of its own: the
   *   re-encoder forwards deltas only.
   * - The last finish chunk has the finish_reason of the buffered translation exactly when the last message_delta
   *   names a stop reason, or the buffered one is "stop" anyway.
   * - There is a single finish chunk, with that finish_reason, exactly when there is a single message_delta.
   */
  lemma StreamedTranslationIsBuffered(es: seq<Event>)
    requires Assemble(es).Stopped?
    ensures var msg, reasons := Assemble(es).msg, Reasons(es);
      var buffered := ToOpenaiResponse(msg);
      && (exists cs :: AllContent(cs) && TranslateAll(es).1 == [RoleChunk] + cs + Finishes(reasons) + [DoneLine]
            && (ContentOf(cs) == buffered.content <==>
                  forall i :: 0 <= i < |msg.blocks| ==> msg.blocks[i].initial == ""))
      && (reasons != [] ==>
            (Finishes(reasons)[|reasons| - 1] == FinishChunk(buffered.finishReason) <==>
              reasons[|reasons| - 1].Some? || buffered.finishReason == "stop"))
      && (FinishesOnce(TranslateAll(es).1, buffered.finishReason) <==> |reasons| == 1)
  {
    hide Text, Streamed, Assemble, TranslateAll;
    var msg, reasons := Assemble(es).msg, Reasons(es);
    EmittedAlways(es);
    TextIsStreamed(msg.blocks);
    MessageHoldsReasons(es);
    var out := TranslateAll(es).1;
    var cs :| AllContent(cs) && out == [RoleChunk] + cs + (Finishes(reasons) + [DoneLine])
      && ContentOf(cs) == Streamed(msg.blocks);
    assert out == [RoleChunk] + cs + Finishes(reasons) + [DoneLine];
    var reason := ToOpenaiResponse(msg).finishReason;
    if |reasons| == 1 {
      assert reasons[..0] == [] && StopReason([]) == None;
      assert FinishReason(StopReason(reasons)) == FinishReason(reasons[0]);
      assert Finishes(reasons) == [FinishChunk(reason)];
      assert Finishes(reasons) + [DoneLine] == [FinishChunk(reason), DoneLine];
    }
    if FinishesOnce(out, reason) { OnlyOneFinish(cs, reasons, reason); }
  }

  lemma NextEvent(es: seq<Event>, e: Event)
    ensures Assemble(es + [e]) == Advance(Assemble(es), e)
    ensures TranslateAll(es + [e]).1 == TranslateAll(es).1 + Translate(TranslateAll(es).0, e).1
    ensures TranslateAll(es + [e]).0 == Translate(TranslateAll(es).0, e).0
  {
    assert (es + [e])[..|es|] == es;
  }

  function RoleChunks(cs: seq<Chunk>): nat {
    if cs == [] then 0 else RoleChunks(cs[..|cs| - 1]) + if cs[|cs| - 1].RoleChunk? then 1 else 0
  }

  function Starts(es: seq<Event>): nat {
    if es == [] then 0 else Starts(es[..|es| - 1]) + if es[|es| - 1].MessageStart? then 1 else 0
  }

  lemma OneChunkMore(cs: seq<Chunk>, more: seq<Chunk>)
    requires |more| <= 1
    ensures RoleChunks(cs + more) == RoleChunks(cs) + if more != [] && more[0].RoleChunk? then 1 else 0
  {
    if more == [] { assert cs + more == cs; } else { assert (cs + more)[..|cs|] == cs; }
  }

  /** However many message_start events a stream has, there is one role chunk; without one there is none. */
  lemma {:induction false} OneRoleChunk(es: seq<Event>)
    ensures RoleChunks(TranslateAll(es).1) == if Starts(es) > 0 then 1 else 0
    ensures TranslateAll(es).0 <==> Starts(es) > 0
  {
    if es != [] {
      hide RoleChunks;
      var (started, out) := TranslateAll(es[..|es| - 1]);
      OneRoleChunk(es[..|es| - 1]);
      OneChunkMore(out, Translate(started, es[|es| - 1]).1);
    } else {
      assert RoleChunks([]) == 0;
    }
  }

  /** The text a block starts with is in the buffered translation and not in the streamed one. */
  lemma InitialTextIsDropped()
    ensures var es :=
      [MessageStart(None)] + [BlockStart("Hello")] + [MessageDelta(Some("end_turn"), None)] + [MessageStop];
      && Assemble(es).Stopped? && ToOpenaiResponse(Assemble(es).msg).content == "Hello"
      && TranslateAll(es).1 == [RoleChunk, FinishChunk("stop"), DoneLine]
  {
    hide Assemble, TranslateAll, Text;
    var a, b, c := MessageStart(None), BlockStart("Hello"), MessageDelta(Some("end_turn"), None);
    NoEvents();
    NextEvent([], a);
    assert [] + [a] == [a];
    NextEvent([a], b);
    NextEvent([a] + [b], c);
    NextEvent([a] + [b] + [c], MessageStop);
    assert [] + [Block("Hello", "")] == [Block("Hello", "")];
    OneBlock(Block("Hello", ""));
    assert "Hello" + "" == "Hello";
  }

  /** Two message_delta events, which the protocol allows: the client gets two finish chunks, the first one wrong. */
  lemma TwoDeltasFinishTwice()
    ensures var es :=
      [MessageStart(None)] + [MessageDelta(None, None)] + [MessageDelta(Some("max_tokens"), None)] + [MessageStop];
      && Assemble(es).Stopped? && ToOpenaiResponse(Assemble(es).msg).finishReason == "length"
      && TranslateAll(es).1 == [RoleChunk, FinishChunk("stop"), FinishChunk("length"), DoneLine]
  {
    hide Assemble, TranslateAll, Text;
    var a, b, c := MessageStart(None), MessageDelta(None, None), MessageDelta(Some("max_tokens"), None);
    NoEvents();
    NextEvent([], a);
    assert [] + [a] == [a];
    NextEvent([a], b);
    NextEvent([a] + [b], c);
    NextEvent([a] + [b] + [c], MessageStop);
    assert [] + [None] + [Some("max_tokens")] == [None, Some("max_tokens")];
  }

  lemma NoEvents()
    ensures Assemble([]) == Before && TranslateAll([]) == (false, [])
  {}

  lemma OneBlock(b: Block)
    ensures Text([b]) == b.initial + b.streamed
  {
    assert [b][..0] == [];
    assert "" + (b.initial + b.streamed) == b.initial + b.streamed;
  }

  // ----- from raw text to usage -----

  /** White space cut off at the front. */
  function TrimStart(s: string): string { if s != "" && IsSpace(s[0]) then TrimStart(s[1..]) else s }

  function TrimEnd(s: string): string {
    if s != "" && IsSpace(s[|s| - 1]) then TrimEnd(s[..|s| - 1]) else s
  }

  function FirstDataLine(lines: seq<string>): (r: Option<string>)
    ensures r.Some? ==> "data:" <= r.value && r.value in lines
  {
    if lines == [] then None else if "data:" <= lines[0] then Some(lines[0]) else FirstDataLine(lines[1..])
  }

  /** ssePayload, with JSON.parse and the reading of its result passed in. */
  function SsePayload(frame: string, parse: string -> Event): Event {
    match FirstDataLine(Split(frame, "\n"))
    case None => NoData
    case Some(line) =>
      var raw := TrimEnd(TrimStart(line[5..]));
      if raw == "" || raw == "[DONE]" then NoData else parse(raw)
  }

  lemma {:induction false} TrimsFront(space: string, text: string)
    requires Blank(space) && text != "" && !IsSpace(text[0])
    ensures TrimStart(space + text) == text
  {
    if space == "" {
      assert space + text == text;
    } else {
      assert IsSpace(space[0]);
      assert (space + text)[1..] == space[1..] + text;
      TrimsFront(space[1..], text);
    }
  }

  lemma {:induction false} TrimsEnd(text: string, space: string)
    requires Blank(space) && text != "" && !IsSpace(text[|text| - 1])
    ensures TrimEnd(text + space) == text
  {
    if space == "" {
      assert text + space == text;
    } else {
      var n := |space| - 1;
      assert IsSpace(space[n]);
      assert (text + space)[..|text| + n] == text + space[..n];
      TrimsEnd(text, space[..n]);
    }
  }

  predicate OneLine(s: string) { forall i :: 0 <= i < |s| ==> s[i] != '\n' }

  lemma LineIsAPiece(line: string, rest: string)
    requires OneLine(line)
    ensures Split(line, "\n") == [line] && Split(line + "\n" + rest, "\n") == [line] + Split(rest, "\n")
  {
    var text := line + "\n" + rest;
    forall j: nat ensures !OccursAt(line, "\n", j) {
      if j < |line| { assert line[j..j + 1][0] == line[j]; }
    }
    assert OccursAt(text, "\n", |line|);
    forall j | 0 <= j < |line| ensures !OccursAt(text, "\n", j) { assert text[j..j + 1][0] == line[j]; }
    assert IndexOf(text, "\n") == Some(|line|);
    assert text[..|line|] == line && text[|line| + 1..] == rest;
  }

  /** A frame that is one data line carries what its text, white space cut off, parses to. */
  lemma DataLineIsParsed(front: string, raw: string, back: string, parse: string -> Event)
    requires OneLine(front + raw + back) && Blank(front) && Blank(back)
    requires raw != "" && raw != "[DONE]" && !IsSpace(raw[0]) && !IsSpace(raw[|raw| - 1])
    ensures SsePayload("data:" + (front + raw + back), parse) == parse(raw)
  {
    hide Split;
    var line := "data:" + (front + raw + back);
    LineIsAPiece(line, "");
    assert line[5..] == front + (raw + back);
    TrimsFront(front, raw + back);
    TrimsEnd(raw, back);
  }

  /** An empty data line and the end marker carry nothing. */
  lemma NoDataInAnEmptyLine(parse: string -> Event)
    ensures SsePayload("data:", parse) == NoData && SsePayload("data: [DONE]", parse) == NoData
  {
    hide Split;
    LineIsAPiece("data:", "");
    LineIsAPiece("data: [DONE]", "");
    assert "data: [DONE]"[5..] == " " + "[DONE]";
    TrimsFront(" ", "[DONE]");
    TrimsEnd("[DONE]", "");
    assert "[DONE]" + "" == "[DONE]";
  }

  /** Other lines carry nothing; of several data lines the first counts. */
  lemma OtherLinesAreSkipped(line: string, rest: string, parse: string -> Event)
    requires OneLine(line)
    ensures !("data:" <= line) ==>
      SsePayload(line, parse) == NoData && SsePayload(line + "\n" + rest, parse) == SsePayload(rest, parse)
    ensures "data:" <= line ==> SsePayload(line + "\n" + rest, parse) == SsePayload(line, parse)
  {
    hide Split;
    LineIsAPiece(line, rest);
    assert ([line] + Split(rest, "\n"))[1..] == Split(rest, "\n");
    assert [line][1..] == [];
  }

  function EventsOf(frames: seq<string>, parse: string -> Event): seq<Event> {
    seq(|frames|, i requires 0 <= i < |frames| => SsePayload(frames[i], parse))
  }

  /** The extractor as FrameTap's tap, with no translation. */
  function Tapping(parse: string -> Event): Handler<Meter> {
    Handler((m: Meter, frame: string) => Observe(m, SsePayload(frame, parse)), None)
  }

  lemma {:induction false} TapObserves(parse: string -> Event, m: Meter, frames: seq<string>)
    ensures Tapping(parse).HandleAll(m, frames).0 == ObserveAll(m, EventsOf(frames, parse))
  {
    if frames != [] {
      var init, last := frames[..|frames| - 1], frames[|frames| - 1];
      assert frames == init + [last];
      assert EventsOf(frames, parse)[..|frames| - 1] == EventsOf(init, parse);
      TapObserves(parse, m, init);
      HandleConcat(Tapping(parse), m, init, [last]);
      assert [last][1..] == [];
    }
  }

  /**
   * End to end, for every stream: however the network cuts it, the client receives the provider's text unchanged, and
   * what is metered is what the events add up to. It is parseUsage of the message under the condition above.
   */
  lemma MeteringIgnoresTheNetwork(parse: string -> Event, chunks: seq<string>)
    ensures var end := Finish(Tapping(parse), FeedAll(Tapping(parse), "\n\n", Tap("", IDLE, [], ""), chunks));
      var es := EventsOf(Frames(Concat(chunks), "\n\n"), parse);
      && end.written == Concat(chunks) && end.state == ObserveAll(IDLE, es)
      && forall k :: StartsAt(es, k) ==>
           (Normalize(end.state.model, end.state.acc, end.state.sawDelta) == ParseUsage(MessageOf(es)) <==>
             CountsSettledAtStart(es, k))
  {
    var frames := Frames(Concat(chunks), "\n\n");
    var es := EventsOf(frames, parse);
    StreamIsFramed(Tapping(parse), "\n\n", IDLE, chunks);
    TapObserves(parse, IDLE, frames);
    forall k | StartsAt(es, k) ensures var m := ObserveAll(IDLE, es);
      Normalize(m.model, m.acc, m.sawDelta) == ParseUsage(MessageOf(es)) <==> CountsSettledAtStart(es, k)
    {
      StreamedUsageIsParsedUsage(es, k);
    }
  }

  function RenderAll(render: Chunk -> string, cs: seq<Chunk>): string {
    if cs == [] then "" else render(cs[0]) + RenderAll(render, cs[1..])
  }

  lemma {:induction false} RenderConcat(render: Chunk -> string, a: seq<Chunk>, b: seq<Chunk>)
    ensures RenderAll(render, a + b) == RenderAll(render, a) + RenderAll(render, b)
  {
    if a == [] {
      assert a + b == b;
    } else {
      assert (a + b)[1..] == a[1..] + b;
      RenderConcat(render, a[1..], b);
    }
  }

  /** The unified endpoint's callbacks: the extractor as tap, the re-encoder as transform. */
  function Translating(parse: string -> Event, render: Chunk -> string): Handler<(Meter, bool)> {
    Handler((s: (Meter, bool), frame: string) => (Observe(s.0, SsePayload(frame, parse)), s.1),
            Some((s: (Meter, bool), frame: string) =>
              var (started, out) := Translate(s.1, SsePayload(frame, parse));
              ((s.0, started), Some(RenderAll(render, out)))))
  }

  lemma {:induction false} TransformTranslates(parse: string -> Event, render: Chunk -> string, frames: seq<string>)
    ensures var es := EventsOf(frames, parse);
      Translating(parse, render).HandleAll((IDLE, false), frames)
      == ((ObserveAll(IDLE, es), TranslateAll(es).0), RenderAll(render, TranslateAll(es).1))
  {
    var h := Translating(parse, render);
    if frames != [] {
      var init, last := frames[..|frames| - 1], frames[|frames| - 1];
      assert frames == init + [last];
      assert EventsOf(frames, parse)[..|frames| - 1] == EventsOf(init, parse);
      TransformTranslates(parse, render, init);
      HandleConcat(h, (IDLE, false), init, [last]);
      assert [last][1..] == [];
      var (started, out) := TranslateAll(EventsOf(init, parse));
      var (started', more) := Translate(started, SsePayload(last, parse));
      RenderConcat(render, out, more);
      assert RenderAll(render, more) + "" == RenderAll(render, more);
    }
  }

  /**
   * End to end for the unified endpoint, for every stream: the text written is the rendering of the events, whatever
   * the cuts.
   */
  lemma TranslationIgnoresTheNetwork(parse: string -> Event, render: Chunk -> string, chunks: seq<string>)
    ensures var h := Translating(parse, render);
      var es := EventsOf(Frames(Concat(chunks), "\n\n"), parse);
      var end := Finish(h, FeedAll(h, "\n\n", Tap("", (IDLE, false), [], ""), chunks));
      end.written == RenderAll(render, TranslateAll(es).1) && end.state.0 == ObserveAll(IDLE, es)
  {
    var frames := Frames(Concat(chunks), "\n\n");
    StreamIsFramed(Translating(parse, render), "\n\n", (IDLE, false), chunks);
    TransformTranslates(parse, render, frames);
  }
}
