/** OpenAI-compatible usage (packages/providers/src/openai-compatible.ts). */
module OpenAi {
  import opened Wrappers
  import opened ProviderUsage

  /** The usage object; costText is a numeric cost printed with eight decimals. */
  datatype OpenAiUsage = OpenAiUsage(prompt: Option<int>, completion: Option<int>, cached: Option<int>,
                                     reasoning: Option<int>, costText: Option<string>)

  const NO_USAGE := OpenAiUsage(None, None, None, None, None)

  function OrZero(n: Option<int>): int { if n.Some? then n.value else 0 }

  function Max(a: int, b: int): int { if a < b then b else a }

  function NormalizeOpenAiUsage(model: string, u: OpenAiUsage, complete: bool): NormalizedUsage {
    NormalizedUsage(model, Max(0, OrZero(u.prompt) - OrZero(u.cached)), OrZero(u.completion), OrZero(u.cached), 0,
                    OrZero(u.reasoning), complete, u.costText)
  }

  /**
   * Cached tokens are taken out of the prompt once: the two classes charge the prompt, or all cached tokens if those
   * are more.
   */
  lemma PromptIsSplit(model: string, u: OpenAiUsage, complete: bool)
    ensures var n := NormalizeOpenAiUsage(model, u, complete);
      n.inputTokens >= 0 && n.inputTokens + n.cacheReadTokens == Max(OrZero(u.prompt), OrZero(u.cached))
  {}

  /** A frame after ssePayload, or a whole response body: its model and its usage, if it has them. */
  datatype Chunk = NoData | Data(model: Option<string>, usage: Option<OpenAiUsage>)

  function ParseUsage(json: Chunk): NormalizedUsage
    requires json.Data?
  {
    NormalizeOpenAiUsage(if json.model.Some? then json.model.value else "",
                         if json.usage.Some? then json.usage.value else NO_USAGE, json.usage.Some?)
  }

  predicate Names(c: Chunk) { c.Data? && c.model.Some? && c.model.value != "" }

  predicate Reports(c: Chunk) { c.Data? && c.usage.Some? }

  /** The response that a stream stands for: the last model named, the last usage reported. */
  ghost predicate StandsFor(chunks: seq<Chunk>, json: Chunk) {
    && json.Data?
    && (match json.model
        case None => forall i :: 0 <= i < |chunks| ==> !Names(chunks[i])
        case Some(m) => exists i :: 0 <= i < |chunks| && Names(chunks[i]) && chunks[i].model == Some(m)
                                    && forall j :: i < j < |chunks| ==> !Names(chunks[j]))
    && (match json.usage
        case None => forall i :: 0 <= i < |chunks| ==> !Reports(chunks[i])
        case Some(u) => exists i :: 0 <= i < |chunks| && Reports(chunks[i]) && chunks[i].usage == Some(u)
                                    && forall j :: i < j < |chunks| ==> !Reports(chunks[j]))
  }

  class StreamUsageExtractor {
    var model: string
    var usage: Option<OpenAiUsage>
    ghost var seen: seq<Chunk>

    /** The fields are those of the response that the frames so far stand for. */
    ghost predicate Valid()
      reads this
    {
      StandsFor(seen, Data(if model == "" then None else Some(model), usage))
    }

    constructor ()
      ensures Valid() && seen == []
    {
      model, usage, seen := "", None, [];
    }

    method OnFrame(c: Chunk)
      requires Valid()
      modifies this
      ensures Valid() && seen == old(seen) + [c]
    {
      ghost var before := seen;
      seen := seen + [c];
      assert forall i :: 0 <= i < |before| ==> seen[i] == before[i];
      assert seen[|before|] == c;
      if c.NoData? { return; }
      if c.model.Some? && c.model.value != "" { model := c.model.value; }
      if c.usage.Some? { usage := c.usage; }
    }

    /**
     * finish: every count from the last usage reported, missing ones being zero, and the prompt without its cached
     * tokens; so it is parseUsage of the response that the stream stands for.
     */
    method Finish() returns (r: NormalizedUsage)
      requires Valid()
      ensures forall json {:trigger StandsFor(seen, json)} :: StandsFor(seen, json) ==>
        && (json.usage.None? ==>
              r.inputTokens == r.outputTokens == r.cacheReadTokens == r.reasoningTokens == 0
                && r.upstreamCostUsd == None)
        && (json.usage.Some? ==>
              var u := json.usage.value;
              && r.outputTokens == (if u.completion.Some? then u.completion.value else 0)
              && r.reasoningTokens == (if u.reasoning.Some? then u.reasoning.value else 0)
              && r.cacheReadTokens == (if u.cached.Some? then u.cached.value else 0)
              && (var uncached := (if u.prompt.Some? then u.prompt.value else 0) - r.cacheReadTokens;
                  r.inputTokens == if uncached < 0 then 0 else uncached)
              && r.upstreamCostUsd == u.costText)
        && r.cacheWriteTokens == 0 && (r.complete <==> json.usage.Some?)
        && r.model == (if json.model.Some? then json.model.value else "")
      ensures r.complete <==> exists i :: 0 <= i < |seen| && Reports(seen[i])
      ensures forall json :: StandsFor(seen, json) ==> r == ParseUsage(json)
    {
      r := NormalizeOpenAiUsage(model, if usage.Some? then usage.value else NO_USAGE, usage.Some?);
      forall json | StandsFor(seen, json) ensures r == ParseUsage(json) {
        OneResponse(seen, json, Data(if model == "" then None else Some(model), usage));
      }
    }
  }

  /** A stream stands for one response only. */
  lemma OneResponse(chunks: seq<Chunk>, a: Chunk, b: Chunk)
    requires StandsFor(chunks, a) && StandsFor(chunks, b)
    ensures a == b
  {
    if a.usage.Some? && b.usage.Some? {
      var i :| 0 <= i < |chunks| && Reports(chunks[i]) && chunks[i].usage == a.usage
        && forall j :: i < j < |chunks| ==> !Reports(chunks[j]);
      var k :| 0 <= k < |chunks| && Reports(chunks[k]) && chunks[k].usage == b.usage
        && forall j :: k < j < |chunks| ==> !Reports(chunks[j]);
      assert i == k;
    }
    if a.model.Some? && b.model.Some? {
      var i :| 0 <= i < |chunks| && Names(chunks[i]) && chunks[i].model == a.model
        && forall j :: i < j < |chunks| ==> !Names(chunks[j]);
      var k :| 0 <= k < |chunks| && Names(chunks[k]) && chunks[k].model == b.model
        && forall j :: k < j < |chunks| ==> !Names(chunks[j]);
      assert i == k;
    }
  }
}
