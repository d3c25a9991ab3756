/** Provider-agnostic usage (packages/providers/src/types.ts): what the extractors report and the finalizer charges. */
module ProviderUsage {
  import opened Wrappers

  datatype NormalizedUsage = NormalizedUsage(
    model: string, inputTokens: int, outputTokens: int, cacheReadTokens: int, cacheWriteTokens: int,
    reasoningTokens: int, complete: bool, upstreamCostUsd: Option<string>)
}
