/** Fixed-window request limiting (apps/gateway/src/ratelimit.ts), the Redis and the in-process variant. */
module RateLimit {
  import opened Wrappers
  import opened Digits

  datatype Info = Info(window: nat, retryAfterS: nat)

  function WindowInfo(nowMs: nat): Info {
    var window := nowMs / 60_000;
    Info(window, ((window + 1) * 60_000 - nowMs + 999) / 1000)
  }

  /** Waiting retryAfterS, always 1 to 60 seconds, lands in the very next window. */
  lemma WaitingOpensTheNextWindow(nowMs: nat)
    ensures var i := WindowInfo(nowMs);
      1 <= i.retryAfterS <= 60 && WindowInfo(nowMs + i.retryAfterS * 1000).window == i.window + 1
  {}

  datatype Decision = Decision(allowed: bool, retryAfterS: nat)

  /** One check: when the gateway read its clock and when Redis executed the INCR. */
  datatype Call = Call(bucket: string, limit: int, start: nat, land: nat) {
    function Window(): nat { start / 60_000 }
  }

  // ----- the Redis variant -----

  /** A key without an expiry stays for good. */
  datatype Counter = Counter(count: nat, expiresAt: Option<nat>)

  function RedisKey(bucket: string, window: nat): string { "rl:" + bucket + ":" + NatToString(window) }

  /** INCR at time `land`: an expired key counts as absent. */
  function IncrCount(counters: map<string, Counter>, key: string, land: nat): nat {
    if key in counters && (counters[key].expiresAt.None? || land <= counters[key].expiresAt.value)
    then counters[key].count + 1
    else 1
  }

  /** One check against Redis: INCR, and EXPIRE 120 s on the first. */
  function RedisCheck(counters: map<string, Counter>, c: Call): (map<string, Counter>, Decision) {
    var key := RedisKey(c.bucket, c.Window());
    var count := IncrCount(counters, key, c.land);
    var expiresAt := if count == 1 then Some(c.land + 120_000) else counters[key].expiresAt;
    (counters[key := Counter(count, expiresAt)], Decision(count <= c.limit, WindowInfo(c.start).retryAfterS))
  }

  datatype Fault = Up | Down | CountsThenThrows

  /** INCR without the EXPIRE. */
  function CountedOnly(counters: map<string, Counter>, c: Call): map<string, Counter> {
    var key := RedisKey(c.bucket, c.Window());
    var count := IncrCount(counters, key, c.land);
    counters[key := Counter(count, if count == 1 then None else counters[key].expiresAt)]
  }

  class RedisRateLimiter {
    var counters: map<string, Counter>

    constructor ()
      ensures counters == map[]
    {
      counters := map[];
    }

    /**
     * One check. When Redis is down, or the INCR takes effect and then it or the EXPIRE after it throws, the request is
     * let through; in the second case it is counted all the same, and a counter that begins so has no expiry.
     */
    method Check(c: Call, fault: Fault) returns (d: Decision)
      modifies this
      ensures fault == Up ==> (counters, d) == RedisCheck(old(counters), c)
      ensures fault != Up ==> d == Decision(true, 0)
      ensures fault == Down ==> counters == old(counters)
      ensures fault == CountsThenThrows ==> counters == CountedOnly(old(counters), c)
    {
      if fault == Down { return Decision(true, 0); }
      var info := WindowInfo(c.start);
      var key := RedisKey(c.bucket, info.window);
      var count := IncrCount(counters, key, c.land);
      counters := counters[key := Counter(count, if count == 1 then None else counters[key].expiresAt)];
      if fault == CountsThenThrows { return Decision(true, 0); }
      if count == 1 { counters := counters[key := Counter(count, Some(c.land + 120_000))]; }
      assert counters == RedisCheck(old(counters), c).0;
      return Decision(count <= c.limit, info.retryAfterS);
    }
  }

  /** A whole history of checks, in the order Redis saw them. */
  function RedisAfter(calls: seq<Call>): map<string, Counter> {
    if calls == [] then map[] else RedisCheck(RedisAfter(calls[..|calls| - 1]), calls[|calls| - 1]).0
  }

  function RedisDecision(calls: seq<Call>): Decision
    requires calls != []
  {
    RedisCheck(RedisAfter(calls[..|calls| - 1]), calls[|calls| - 1]).1
  }

  // ----- what the limiter is for -----

  /** Checks of a bucket started in a window. */
  function CountIn(calls: seq<Call>, bucket: string, window: nat): nat {
    if calls == [] then 0
    else
      var c := calls[|calls| - 1];
      CountIn(calls[..|calls| - 1], bucket, window) + if c.bucket == bucket && c.Window() == window then 1 else 0
  }

  /** The reference: a check is allowed when fewer than `limit` checks of its bucket came before it in its window. */
  predicate Allowed(calls: seq<Call>)
    requires calls != []
  {
    var c := calls[|calls| - 1];
    CountIn(calls[..|calls| - 1], c.bucket, c.Window()) < c.limit
  }

  /** Clocks never run back at Redis, and a check lands within a minute of its clock reading. */
  ghost predicate WellTimed(calls: seq<Call>) {
    && (forall i :: 0 <= i < |calls| ==> calls[i].start <= calls[i].land <= calls[i].start + 60_000)
    && (forall i, j :: 0 <= i < j < |calls| ==> calls[i].land <= calls[j].land)
  }

  /** The window is the digits after the last colon, so the key determines bucket and window. */
  lemma KeysAreDistinct(b: string, w: nat, b': string, w': nat)
    requires b + ":" + NatToString(w) == b' + ":" + NatToString(w')
    ensures b == b' && w == w'
  {
    var s, s' := NatToString(w), NatToString(w');
    var k := b + ":" + s;
    TailIsDigits(k, s);
    TailIsDigits(k, s');
    assert k[|b|] == ':' && k[|b'|] == ':' && !IsDigit(':');
    assert |b| == |b'|;
    assert k[..|b|] == b && k[..|b|] == b';
    assert k[|b| + 1..] == s && k[|b| + 1..] == s';
  }

  lemma TailIsDigits(k: string, tail: string)
    requires AllDigits(tail) && |tail| <= |k| && k[|k| - |tail|..] == tail
    ensures forall j :: |k| - |tail| <= j < |k| ==> IsDigit(k[j])
  {
    forall j | |k| - |tail| <= j < |k| ensures IsDigit(k[j]) {
      assert k[j] == tail[j - (|k| - |tail|)];
    }
  }

  lemma RedisKeysAreDistinct(b: string, w: nat, b': string, w': nat)
    requires RedisKey(b, w) == RedisKey(b', w')
    ensures b == b' && w == w'
  {
    assert RedisKey(b, w)[3..] == b + ":" + NatToString(w);
    assert RedisKey(b', w')[3..] == b' + ":" + NatToString(w');
    KeysAreDistinct(b, w, b', w');
  }

  /** The counter of a window counts its checks, and its 120 s expiry outlives every check that can still land. */
  lemma {:induction false} CounterCounts(calls: seq<Call>, bucket: string, window: nat)
    requires WellTimed(calls)
    ensures var key, m := RedisKey(bucket, window), RedisAfter(calls);
      && (CountIn(calls, bucket, window) == 0 ==> key !in m)
      && (CountIn(calls, bucket, window) > 0 ==>
            key in m && m[key].count == CountIn(calls, bucket, window)
            && m[key].expiresAt.Some? && m[key].expiresAt.value >= (window + 2) * 60_000)
  {
    if calls != [] {
      var init, c := calls[..|calls| - 1], calls[|calls| - 1];
      CounterCounts(init, bucket, window);
      if RedisKey(c.bucket, c.Window()) == RedisKey(bucket, window) {
        RedisKeysAreDistinct(c.bucket, c.Window(), bucket, window);
        assert c.land < (window + 2) * 60_000;
      }
    }
  }

  /** Whatever the interleaving of gateways, Redis decides as the reference does. */
  lemma RedisDecidesRight(calls: seq<Call>)
    requires calls != [] && WellTimed(calls)
    ensures RedisDecision(calls).allowed == Allowed(calls)
  {
    var init, c := calls[..|calls| - 1], calls[|calls| - 1];
    CounterCounts(init, c.bucket, c.Window());
  }

  function Min(m: nat, n: nat): nat { if m <= n then m else n }

  /** Checks of a bucket started in a window that are let through; `decides` judges the last check of a history. */
  function AllowedIn(decides: seq<Call> -> bool, calls: seq<Call>, bucket: string, window: nat): nat {
    if calls == [] then 0
    else
      var c := calls[|calls| - 1];
      AllowedIn(decides, calls[..|calls| - 1], bucket, window) +
      if c.bucket == bucket && c.Window() == window && decides(calls) then 1 else 0
  }

  /** Likewise for the 60 s from `from` on. */
  function AllowedWithin(decides: seq<Call> -> bool, calls: seq<Call>, bucket: string, from: nat): nat {
    if calls == [] then 0
    else
      var c := calls[|calls| - 1];
      AllowedWithin(decides, calls[..|calls| - 1], bucket, from) +
      if c.bucket == bucket && from <= c.start < from + 60_000 && decides(calls) then 1 else 0
  }

  ghost predicate LimitIs(calls: seq<Call>, bucket: string, limit: nat) {
    forall i :: 0 <= i < |calls| && calls[i].bucket == bucket ==> calls[i].limit == limit
  }

  /** `decides` decides every check of the history as the reference does. */
  ghost predicate DecidesRight(decides: seq<Call> -> bool, calls: seq<Call>) {
    calls == [] || (decides(calls) == Allowed(calls) && DecidesRight(decides, calls[..|calls| - 1]))
  }

  /** A limiter that decides right lets exactly the first `limit` checks of a window through. */
  lemma {:induction false} RightDecisionsFillTheWindow(decides: seq<Call> -> bool, calls: seq<Call>, bucket: string,
      window: nat, limit: nat)
    requires DecidesRight(decides, calls) && LimitIs(calls, bucket, limit)
    ensures AllowedIn(decides, calls, bucket, window) == Min(CountIn(calls, bucket, window), limit)
  {
    if calls != [] { RightDecisionsFillTheWindow(decides, calls[..|calls| - 1], bucket, window, limit); }
  }

  lemma {:induction false} MinuteSpansTwoWindows(decides: seq<Call> -> bool, calls: seq<Call>, bucket: string,
      from: nat)
    ensures AllowedWithin(decides, calls, bucket, from) <=
      AllowedIn(decides, calls, bucket, from / 60_000) + AllowedIn(decides, calls, bucket, from / 60_000 + 1)
  {
    if calls != [] { MinuteSpansTwoWindows(decides, calls[..|calls| - 1], bucket, from); }
  }

  lemma RightDecisionsBoundTheMinute(decides: seq<Call> -> bool, calls: seq<Call>, bucket: string, from: nat,
      limit: nat)
    requires DecidesRight(decides, calls) && LimitIs(calls, bucket, limit)
    ensures AllowedWithin(decides, calls, bucket, from) <= 2 * limit
  {
    MinuteSpansTwoWindows(decides, calls, bucket, from);
    RightDecisionsFillTheWindow(decides, calls, bucket, from / 60_000, limit);
    RightDecisionsFillTheWindow(decides, calls, bucket, from / 60_000 + 1, limit);
  }

  // ----- what Redis decides -----

  /** Whatever the history, the wait that a decision names is 1 to 60 seconds and lands in the next window. */
  lemma WaitIsRight(calls: seq<Call>)
    requires calls != []
    ensures var start := calls[|calls| - 1].start;
      && 1 <= RedisDecision(calls).retryAfterS <= 60
      && (start + 1000 * RedisDecision(calls).retryAfterS) / 60_000 == start / 60_000 + 1
      && 1 <= MemoryDecision(calls).retryAfterS <= 60
      && (start + 1000 * MemoryDecision(calls).retryAfterS) / 60_000 == start / 60_000 + 1
  {
    hide RedisAfter, MemoryAfter, NatToString;
    WaitingOpensTheNextWindow(calls[|calls| - 1].start);
  }

  /** A counter lives for two minutes from its first check, whatever checks follow; other counters stay. */
  lemma CountersExpire(counters: map<string, Counter>, c: Call)
    ensures var key, after := RedisKey(c.bucket, c.Window()), RedisCheck(counters, c).0;
      && after.Keys == counters.Keys + {key} && (forall k :: k in counters && k != key ==> after[k] == counters[k])
      && (key !in counters || (counters[key].expiresAt.Some? && c.land > counters[key].expiresAt.value) ==>
            after[key] == Counter(1, Some(c.land + 120_000)))
      && (key in counters && counters[key].count > 0 && counters[key].expiresAt.Some?
          && c.land <= counters[key].expiresAt.value ==>
            after[key] == Counter(counters[key].count + 1, counters[key].expiresAt))
  {
    hide NatToString;
  }

  /** A check that counts and then throws leaves a count one higher; the first of a key leaves it without expiry. */
  lemma CountsWithoutExpiry(counters: map<string, Counter>, c: Call)
    ensures var key, after := RedisKey(c.bucket, c.Window()), CountedOnly(counters, c);
      && after.Keys == counters.Keys + {key} && (forall k :: k in counters && k != key ==> after[k] == counters[k])
      && (key !in counters ==> after[key] == Counter(1, None))
      && (key in counters && (counters[key].expiresAt.None? || c.land <= counters[key].expiresAt.value) ==>
            after[key].count == counters[key].count + 1
            && (counters[key].count > 0 ==> after[key].expiresAt == counters[key].expiresAt))
  {
    hide NatToString;
  }

  predicate RedisAllows(calls: seq<Call>) { calls != [] && RedisDecision(calls).allowed }

  lemma {:induction false} RedisAlwaysDecidesRight(calls: seq<Call>)
    requires WellTimed(calls)
    ensures DecidesRight(RedisAllows, calls)
  {
    if calls != [] {
      RedisDecidesRight(calls);
      RedisAlwaysDecidesRight(calls[..|calls| - 1]);
    }
  }

  /** In a window Redis lets exactly the first `limit` checks through. */
  lemma WindowAllowsExactly(calls: seq<Call>, bucket: string, window: nat, limit: nat)
    requires WellTimed(calls) && LimitIs(calls, bucket, limit)
    ensures AllowedIn(RedisAllows, calls, bucket, window) == Min(CountIn(calls, bucket, window), limit)
  {
    RedisAlwaysDecidesRight(calls);
    RightDecisionsFillTheWindow(RedisAllows, calls, bucket, window, limit);
  }

  /** In no 60 s interval does Redis let more than twice the limit through. */
  lemma MinuteAllowsAtMostTwice(calls: seq<Call>, bucket: string, from: nat, limit: nat)
    requires WellTimed(calls) && LimitIs(calls, bucket, limit)
    ensures AllowedWithin(RedisAllows, calls, bucket, from) <= 2 * limit
  {
    RedisAlwaysDecidesRight(calls);
    RightDecisionsBoundTheMinute(RedisAllows, calls, bucket, from, limit);
  }

  /** k checks of one bucket at one instant. */
  function Burst(bucket: string, limit: nat, at: nat, k: nat): seq<Call> {
    seq(k, _ => Call(bucket, limit, at, at))
  }

  lemma NextCall(decides: seq<Call> -> bool, calls: seq<Call>, c: Call, bucket: string, window: nat, from: nat)
    ensures CountIn(calls + [c], bucket, window) ==
      CountIn(calls, bucket, window) + if c.bucket == bucket && c.Window() == window then 1 else 0
    ensures Allowed(calls + [c]) <==> CountIn(calls, c.bucket, c.Window()) < c.limit
    ensures AllowedWithin(decides, calls + [c], bucket, from) == AllowedWithin(decides, calls, bucket, from) +
      if c.bucket == bucket && from <= c.start < from + 60_000 && decides(calls + [c]) then 1 else 0
    ensures DecidesRight(decides, calls + [c]) ==>
      decides(calls + [c]) == Allowed(calls + [c]) && DecidesRight(decides, calls)
  {
    assert (calls + [c])[..|calls|] == calls;
  }

  /** A burst of at most `limit` checks into an empty window passes whole. */
  lemma {:induction false} BurstCounts(decides: seq<Call> -> bool, calls: seq<Call>, bucket: string, limit: nat,
      at: nat, k: nat, w: nat)
    requires k <= limit && CountIn(calls, bucket, at / 60_000) == 0
      && DecidesRight(decides, calls + Burst(bucket, limit, at, k))
    ensures var all := calls + Burst(bucket, limit, at, k);
      && CountIn(all, bucket, at / 60_000) == k
      && (w != at / 60_000 ==> CountIn(all, bucket, w) == CountIn(calls, bucket, w))
      && AllowedWithin(decides, all, bucket, 59_999) ==
           AllowedWithin(decides, calls, bucket, 59_999) + if 59_999 <= at < 119_999 then k else 0
  {
    var all := calls + Burst(bucket, limit, at, k);
    if k == 0 {
      assert all == calls;
    } else {
      hide CountIn, AllowedWithin, Allowed, DecidesRight;
      var before, c := calls + Burst(bucket, limit, at, k - 1), Call(bucket, limit, at, at);
      assert all == before + [c];
      NextCall(decides, before, c, bucket, at / 60_000, 59_999);
      NextCall(decides, before, c, bucket, w, 59_999);
      BurstCounts(decides, calls, bucket, limit, at, k - 1, w);
    }
  }

  function TwoBursts(bucket: string, limit: nat): seq<Call> {
    Burst(bucket, limit, 59_999, limit) + Burst(bucket, limit, 60_000, limit)
  }

  lemma {:induction false} RightOnPrefix(decides: seq<Call> -> bool, a: seq<Call>, b: seq<Call>)
    requires DecidesRight(decides, a + b)
    ensures DecidesRight(decides, a)
  {
    if b == [] {
      assert a + b == a;
    } else {
      assert (a + b)[..|a + b| - 1] == a + b[..|b| - 1];
      RightOnPrefix(decides, a, b[..|b| - 1]);
    }
  }

  lemma TwoBurstsPass(decides: seq<Call> -> bool, bucket: string, limit: nat)
    requires DecidesRight(decides, TwoBursts(bucket, limit))
    ensures AllowedWithin(decides, TwoBursts(bucket, limit), bucket, 59_999) == 2 * limit
  {
    var first := Burst(bucket, limit, 59_999, limit);
    assert [] + first == first;
    RightOnPrefix(decides, first, Burst(bucket, limit, 60_000, limit));
    BurstCounts(decides, [], bucket, limit, 59_999, limit, 1);
    BurstCounts(decides, first, bucket, limit, 60_000, limit, 0);
  }

  /**
   * The bound is reached: Redis lets a full burst on either side of a window boundary pass whole, one millisecond
   * apart.
   */
  lemma TwiceIsReached(bucket: string, limit: nat)
    ensures var calls := TwoBursts(bucket, limit);
      WellTimed(calls) && LimitIs(calls, bucket, limit)
        && AllowedWithin(RedisAllows, calls, bucket, 59_999) == 2 * limit
  {
    RedisAlwaysDecidesRight(TwoBursts(bucket, limit));
    TwoBurstsPass(RedisAllows, bucket, limit);
  }

  // ----- the in-process variant -----

  function MemoryKey(bucket: string, window: nat): string { bucket + ":" + NatToString(window) }

  function MemoryCheck(counts: map<string, nat>, c: Call): (map<string, nat>, Decision) {
    var key := MemoryKey(c.bucket, c.Window());
    var count := (if key in counts then counts[key] else 0) + 1;
    var updated := counts[key := count];
    (if |updated| > 10_000 then map[] else updated, Decision(count <= c.limit, WindowInfo(c.start).retryAfterS))
  }

  class MemoryRateLimiter {
    var counts: map<string, nat>

    constructor ()
      ensures counts == map[]
    {
      counts := map[];
    }

    method Check(c: Call) returns (d: Decision)
      modifies this
      ensures (counts, d) == MemoryCheck(old(counts), c)
    {
      var info := WindowInfo(c.start);
      var key := MemoryKey(c.bucket, info.window);
      var count := if key in counts then counts[key] + 1 else 1;
      counts := counts[key := count];
      if |counts| > 10_000 { counts := map[]; }
      return Decision(count <= c.limit, info.retryAfterS);
    }
  }

  function MemoryAfter(calls: seq<Call>): map<string, nat> {
    if calls == [] then map[] else MemoryCheck(MemoryAfter(calls[..|calls| - 1]), calls[|calls| - 1]).0
  }

  function MemoryDecision(calls: seq<Call>): Decision
    requires calls != []
  {
    MemoryCheck(MemoryAfter(calls[..|calls| - 1]), calls[|calls| - 1]).1
  }

  /** The different keys of some checks. */
  function KeysOf(calls: seq<Call>): set<string> {
    set i | 0 <= i < |calls| :: MemoryKey(calls[i].bucket, calls[i].Window())
  }

  /** Where the checks since the last clearing begin: a clearing comes whenever they have more than 10,000 keys. */
  function LastClear(calls: seq<Call>): (p: nat)
    ensures p <= |calls|
  {
    if calls == [] then 0
    else
      var p := LastClear(calls[..|calls| - 1]);
      if |KeysOf(calls[p..])| > 10_000 then |calls| else p
  }

  /** The checks that the map still knows of. */
  function Since(calls: seq<Call>): seq<Call> { calls[LastClear(calls)..] }

  lemma SinceNext(calls: seq<Call>, c: Call)
    ensures var more := Since(calls) + [c];
      Since(calls + [c]) == if |KeysOf(more)| > 10_000 then [] else more
  {
    var all := calls + [c];
    assert all[..|calls|] == calls;
    assert all[LastClear(calls)..] == Since(calls) + [c];
  }

  lemma OneMoreKey(calls: seq<Call>, c: Call)
    ensures KeysOf(calls + [c]) == KeysOf(calls) + {MemoryKey(c.bucket, c.Window())}
  {
    hide MemoryKey;
    var all := calls + [c];
    assert forall i :: 0 <= i < |calls| ==> all[i] == calls[i];
    assert all[|calls|] == c;
  }

  lemma OneMoreCount(calls: seq<Call>, c: Call, bucket: string, window: nat)
    ensures CountIn(calls + [c], bucket, window) ==
      CountIn(calls, bucket, window) + if c.bucket == bucket && c.Window() == window then 1 else 0
  {
    assert (calls + [c])[..|calls|] == calls;
  }

  /** The map counts the checks of `calls`. */
  ghost predicate Counts(m: map<string, nat>, calls: seq<Call>) {
    && m.Keys == KeysOf(calls)
    && forall b: string, w: nat ::
         (if MemoryKey(b, w) in m then m[MemoryKey(b, w)] else 0) == CountIn(calls, b, w)
  }

  lemma CountsNext(m: map<string, nat>, calls: seq<Call>, c: Call)
    requires Counts(m, calls)
    ensures var key := MemoryKey(c.bucket, c.Window());
      Counts(m[key := (if key in m then m[key] else 0) + 1], calls + [c])
  {
    hide MemoryKey, KeysOf, CountIn;
    var key := MemoryKey(c.bucket, c.Window());
    var t := m[key := (if key in m then m[key] else 0) + 1];
    OneMoreKey(calls, c);
    assert t.Keys == m.Keys + {key};
    forall b: string, w: nat
      ensures (if MemoryKey(b, w) in t then t[MemoryKey(b, w)] else 0) == CountIn(calls + [c], b, w)
    {
      OneMoreCount(calls, c, b, w);
      if MemoryKey(b, w) == key { SameKey(b, w, c); }
    }
  }

  lemma SameKey(b: string, w: nat, c: Call)
    requires MemoryKey(b, w) == MemoryKey(c.bucket, c.Window())
    ensures b == c.bucket && w == c.Window()
  {
    KeysAreDistinct(b, w, c.bucket, c.Window());
  }

  lemma CheckNext(m: map<string, nat>, calls: seq<Call>, c: Call)
    requires Counts(m, calls)
    ensures Counts(MemoryCheck(m, c).0, if |KeysOf(calls + [c])| > 10_000 then [] else calls + [c])
  {
    hide MemoryKey, KeysOf, Counts;
    var key := MemoryKey(c.bucket, c.Window());
    CountsNext(m, calls, c);
    SameSize(m[key := (if key in m then m[key] else 0) + 1], calls + [c]);
    NothingCounted();
  }

  /** After any history the map holds exactly the checks since the last clearing. */
  lemma {:induction false} MemoryCounts(calls: seq<Call>)
    ensures Counts(MemoryAfter(calls), Since(calls))
  {
    if calls == [] {
      NothingCounted();
    } else {
      hide Counts, KeysOf, Since, MemoryCheck;
      var init, c := calls[..|calls| - 1], calls[|calls| - 1];
      assert calls == init + [c];
      MemoryCounts(init);
      CheckNext(MemoryAfter(init), Since(init), c);
      SinceNext(init, c);
    }
  }

  lemma SameSize(m: map<string, nat>, calls: seq<Call>)
    requires Counts(m, calls)
    ensures |m| == |KeysOf(calls)|
  {
    assert |m| == |m.Keys|;
  }

  lemma NothingCounted()
    ensures Counts(map[], [])
  {}

  predicate MemoryAllows(calls: seq<Call>) { calls != [] && MemoryDecision(calls).allowed }

  lemma {:induction false} SinceIsLess(calls: seq<Call>, p: nat, bucket: string, window: nat)
    requires p <= |calls|
    ensures CountIn(calls[p..], bucket, window) <= CountIn(calls, bucket, window)
  {
    if p < |calls| {
      var init, c := calls[..|calls| - 1], calls[|calls| - 1];
      SinceIsLess(init, p, bucket, window);
      assert calls[p..] == init[p..] + [c];
      OneMoreCount(init[p..], c, bucket, window);
    }
  }

  /**
   * What the in-process limiter decides, for every history: it counts the checks since the last clearing. So it
   * strays from the reference exactly when those are below the limit and all checks of the window are not, and never
   * denies what the reference allows.
   */
  lemma MemoryDecidesRight(calls: seq<Call>)
    requires calls != []
    ensures var init, c := calls[..|calls| - 1], calls[|calls| - 1];
      var known, all := CountIn(Since(init), c.bucket, c.Window()), CountIn(init, c.bucket, c.Window());
      && (MemoryAllows(calls) <==> known < c.limit)
      && (MemoryAllows(calls) != Allowed(calls) <==> known < c.limit <= all)
      && (Allowed(calls) ==> MemoryAllows(calls))
  {
    var init, c := calls[..|calls| - 1], calls[|calls| - 1];
    MemoryCounts(init);
    var key, m := MemoryKey(c.bucket, c.Window()), MemoryAfter(init);
    assert (if key in m then m[key] else 0) == CountIn(Since(init), c.bucket, c.Window());
    SinceIsLess(init, LastClear(init), c.bucket, c.Window());
  }

  /** The map has never been cleared if and only if the history has at most 10,000 different keys. */
  lemma {:induction false} FewKeysNeverClear(calls: seq<Call>)
    ensures LastClear(calls) == 0 <==> |KeysOf(calls)| <= 10_000
  {
    if calls == [] {
      assert KeysOf(calls) == {};
    } else {
      hide MemoryKey;
      var init, c := calls[..|calls| - 1], calls[|calls| - 1];
      assert calls == init + [c] && calls[0..] == calls;
      FewKeysNeverClear(init);
      OneMoreKey(init, c);
      FewerKeys(KeysOf(init), KeysOf(calls));
    }
  }

  lemma FewerKeys(a: set<string>, b: set<string>)
    requires a <= b
    ensures |a| <= |b|
  {
    assert b == a + (b - a);
  }

  lemma {:induction false} MemoryAlwaysDecidesRight(calls: seq<Call>)
    requires LastClear(calls) == 0
    ensures DecidesRight(MemoryAllows, calls)
  {
    if calls != [] {
      var init := calls[..|calls| - 1];
      assert Since(init) == init;
      MemoryDecidesRight(calls);
      MemoryAlwaysDecidesRight(init);
    }
  }

  /** With at most 10,000 keys the in-process limiter keeps the same bounds. */
  lemma MemoryBounds(calls: seq<Call>, bucket: string, window: nat, from: nat, limit: nat)
    requires |KeysOf(calls)| <= 10_000 && LimitIs(calls, bucket, limit)
    ensures AllowedIn(MemoryAllows, calls, bucket, window) == Min(CountIn(calls, bucket, window), limit)
    ensures AllowedWithin(MemoryAllows, calls, bucket, from) <= 2 * limit
  {
    FewKeysNeverClear(calls);
    MemoryAlwaysDecidesRight(calls);
    RightDecisionsFillTheWindow(MemoryAllows, calls, bucket, window, limit);
    RightDecisionsBoundTheMinute(MemoryAllows, calls, bucket, from, limit);
  }

  /** The clearings that threw away a count of this bucket in this window. */
  function Forgotten(calls: seq<Call>, bucket: string, window: nat): nat {
    if calls == [] then 0
    else
      var init, c := calls[..|calls| - 1], calls[|calls| - 1];
      Forgotten(init, bucket, window) +
      if Since(calls) == [] && CountIn(Since(init) + [c], bucket, window) > 0 then 1 else 0
  }

  lemma NoneCounted(bucket: string, window: nat)
    ensures CountIn([], bucket, window) == 0
  {}

  function Bound(forgotten: nat, known: nat, limit: nat): nat { forgotten * limit + Min(known, limit) }

  lemma BoundNext(allowed: nat, forgotten: nat, known: nat, limit: nat, hit: bool, cleared: bool)
    requires allowed <= Bound(forgotten, known, limit)
    ensures var more := known + if hit then 1 else 0;
      allowed + (if hit && known < limit then 1 else 0) <=
        Bound(forgotten + if cleared && more > 0 then 1 else 0, if cleared then 0 else more, limit)
  {
    assert (forgotten + 1) * limit == forgotten * limit + limit;
  }

  lemma BoundAtMost(forgotten: nat, known: nat, limit: nat)
    ensures Bound(forgotten, known, limit) <= (forgotten + 1) * limit
  {
    assert (forgotten + 1) * limit == forgotten * limit + limit;
  }

  lemma OneMoreAllowed(calls: seq<Call>, c: Call, bucket: string, window: nat)
    ensures AllowedIn(MemoryAllows, calls + [c], bucket, window) == AllowedIn(MemoryAllows, calls, bucket, window)
      + if c.bucket == bucket && c.Window() == window && CountIn(Since(calls), bucket, window) < c.limit then 1 else 0
    ensures Forgotten(calls + [c], bucket, window) == Forgotten(calls, bucket, window)
      + if Since(calls + [c]) == [] && CountIn(Since(calls) + [c], bucket, window) > 0 then 1 else 0
  {
    hide MemoryAllows, Since, CountIn, Allowed;
    assert (calls + [c])[..|calls|] == calls;
    MemoryDecidesRight(calls + [c]);
  }

  lemma {:induction false} ForgettingCosts(calls: seq<Call>, bucket: string, window: nat, limit: nat)
    requires LimitIs(calls, bucket, limit)
    ensures AllowedIn(MemoryAllows, calls, bucket, window) <=
      Bound(Forgotten(calls, bucket, window), CountIn(Since(calls), bucket, window), limit)
  {
    if calls == [] {
      assert AllowedIn(MemoryAllows, calls, bucket, window) == 0;
    } else {
      hide KeysOf, MemoryAllows, Since, CountIn, Allowed, AllowedIn, Forgotten, Bound;
      var init, c := calls[..|calls| - 1], calls[|calls| - 1];
      assert calls == init + [c];
      ForgettingCosts(init, bucket, window, limit);
      OneMoreAllowed(init, c, bucket, window);
      SinceNext(init, c);
      OneMoreCount(Since(init), c, bucket, window);
      NoneCounted(bucket, window);
      BoundNext(AllowedIn(MemoryAllows, init, bucket, window), Forgotten(init, bucket, window),
        CountIn(Since(init), bucket, window), limit, c.bucket == bucket && c.Window() == window, Since(calls) == []);
    }
  }

  /** Whatever the number of keys, a window lets through at most `limit` checks, and as many again per clearing. */
  lemma ForgettingIsBounded(calls: seq<Call>, bucket: string, window: nat, limit: nat)
    requires LimitIs(calls, bucket, limit)
    ensures AllowedIn(MemoryAllows, calls, bucket, window) <= (Forgotten(calls, bucket, window) + 1) * limit
  {
    hide AllowedIn, MemoryAllows, Forgotten, CountIn, Since, Bound, LimitIs;
    ForgettingCosts(calls, bucket, window, limit);
    BoundAtMost(Forgotten(calls, bucket, window), CountIn(Since(calls), bucket, window), limit);
  }

  /** One check each of n buckets in window 0. */
  function Flood(n: nat): seq<Call> { seq(n, k requires 0 <= k < n => Call(NatToString(k), 1, 0, 0)) }

  lemma NumbersAreDistinct(j: nat, k: nat)
    requires MemoryKey(NatToString(j), 0) == MemoryKey(NatToString(k), 0)
    ensures j == k
  {
    KeysAreDistinct(NatToString(j), 0, NatToString(k), 0);
    assert DigitsValue(NatToString(j)) == j && DigitsValue(NatToString(k)) == k;
  }

  lemma NewKey(m: map<string, nat>, c: Call)
    requires |m| < 10_000 && MemoryKey(c.bucket, c.Window()) !in m
    ensures var t, key := MemoryCheck(m, c).0, MemoryKey(c.bucket, c.Window());
      |t| == |m| + 1 && t.Keys == m.Keys + {key}
  {}

  /** The keys of the first n buckets. */
  ghost predicate HoldsFlood(keys: set<string>, n: nat) {
    forall k: nat :: MemoryKey(NatToString(k), 0) in keys <==> k < n
  }

  lemma OneMoreBucket(keys: set<string>, n: nat)
    requires HoldsFlood(keys, n)
    ensures HoldsFlood(keys + {MemoryKey(NatToString(n), 0)}, n + 1) && MemoryKey(NatToString(n), 0) !in keys
  {
    hide NatToString, MemoryKey;
    forall k: nat ensures MemoryKey(NatToString(k), 0) in keys + {MemoryKey(NatToString(n), 0)} <==> k < n + 1 {
      if MemoryKey(NatToString(k), 0) == MemoryKey(NatToString(n), 0) { NumbersAreDistinct(k, n); }
    }
  }

  lemma FloodStep(n: nat)
    requires n < 10_000 && |MemoryAfter(Flood(n))| == n && HoldsFlood(MemoryAfter(Flood(n)).Keys, n)
    ensures |MemoryAfter(Flood(n + 1))| == n + 1 && HoldsFlood(MemoryAfter(Flood(n + 1)).Keys, n + 1)
  {
    hide NatToString, MemoryKey, MemoryCheck, HoldsFlood, Flood;
    FloodNext(n);
    OneMoreBucket(MemoryAfter(Flood(n)).Keys, n);
    NewKey(MemoryAfter(Flood(n)), Call(NatToString(n), 1, 0, 0));
  }

  /** Up to 10,000 buckets each have their key. */
  lemma {:induction false} FloodFills(n: nat)
    requires n <= 10_000
    ensures |MemoryAfter(Flood(n))| == n && HoldsFlood(MemoryAfter(Flood(n)).Keys, n)
  {
    hide NatToString, MemoryKey, MemoryCheck;
    if n == 0 {
      assert Flood(0) == [];
    } else {
      FloodFills(n - 1);
      FloodStep(n - 1);
    }
  }

  lemma FloodNext(n: nat)
    ensures |Flood(n + 1)| == n + 1 && Flood(n + 1)[..n] == Flood(n) && Flood(n + 1)[n] == Call(NatToString(n), 1, 0, 0)
  {}

  lemma FloodClears()
    ensures MemoryAfter(Flood(10_001)) == map[]
  {
    hide NatToString, MemoryKey, HoldsFlood;
    FloodFills(10_000);
    FloodNext(10_000);
    var m, c := MemoryAfter(Flood(10_000)), Call(NatToString(10_000), 1, 0, 0);
    OneMoreBucket(m.Keys, 10_000);
    assert |m[MemoryKey(c.bucket, c.Window()) := 1]| == 10_001;
  }

  /** The 10,001st key clears the map: a bucket at its limit is let through again within its window. */
  lemma ClearingForgets()
    ensures var calls := Flood(10_001) + [Call("0", 1, 0, 0)];
      MemoryAllows(calls) && !Allowed(calls)
  {
    var calls, c := Flood(10_001) + [Call("0", 1, 0, 0)], Call("0", 1, 0, 0);
    assert calls[..10_001] == Flood(10_001);
    FloodClears();
    assert NatToString(0) == "0";
    CountsFirst(Flood(10_001), c);
  }

  lemma {:induction false} CountsFirst(calls: seq<Call>, c: Call)
    requires calls != [] && calls[0] == c
    ensures CountIn(calls, c.bucket, c.Window()) >= 1
  {
    if |calls| > 1 {
      CountsFirst(calls[..|calls| - 1], c);
    } else {
      assert calls[..0] == [];
    }
  }
}
