/** The usage event that travels from the gateway to the worker (packages/queue/src/index.ts, UsageEventMessage). */
module Events {
  import opened Wrappers
  import opened Matcher

  datatype Status = OK | PROVIDER_ERROR | BLOCKED_BUDGET | BLOCKED_RATELIMIT | AUTH_ERROR

  datatype CostBasis = ACTUAL | ESTIMATED | OVERRIDDEN | UNPRICED

  /** Instants are milliseconds since the epoch; columns that no modelled code reads are left out. */
  datatype UsageEvent = UsageEvent(
    id: string, occurredAt: int,
    workspaceId: string, projectId: string, teamId: Option<string>, userId: string, virtualKeyId: string,
    provider: Provider, model: string, status: Status,
    inputTokens: int, outputTokens: int, cacheReadTokens: int, cacheWriteTokens: int, reasoningTokens: int,
    costUsd: string, costBasis: CostBasis, latencyMs: int)
}
