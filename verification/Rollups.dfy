/**
 * Rollup aggregation (apps/worker/src/ingest/rollups.ts): a batch of events becomes one increment per hour and
 * dimension tuple.
 */
module Rollups {
  import opened Wrappers
  import opened Matcher
  import opened Money
  import opened Events
  import opened Sequences

  datatype Unit = Hour | Day

  const HOUR_MS: int := 3_600_000
  const DAY_MS: int := 86_400_000

  /** setUTCMinutes(0, 0, 0), and setUTCHours(0) for a day, on milliseconds since the epoch (UTC days are 24 hours). */
  function TruncateUtc(t: int, unit: Unit): int {
    var day, inDay := t / 86_400_000, t % 86_400_000;
    match unit
    case Hour => day * 86_400_000 + inDay / 3_600_000 * 3_600_000
    case Day => day * 86_400_000
  }

  /** A bucket starts at a whole unit, contains its instant, and the day of an hour is the day of the instant. */
  lemma TruncationNests(t: int)
    ensures TruncateUtc(t, Hour) <= t < TruncateUtc(t, Hour) + HOUR_MS && TruncateUtc(t, Hour) % HOUR_MS == 0
    ensures TruncateUtc(t, Day) <= t < TruncateUtc(t, Day) + DAY_MS && TruncateUtc(t, Day) % DAY_MS == 0
    ensures TruncateUtc(TruncateUtc(t, Hour), Day) == TruncateUtc(t, Day)
  {}

  datatype Dims = Dims(workspaceId: string, projectId: string, userId: string, provider: Provider, model: string)

  /** The primary key of a rollup row. */
  datatype Key = Key(bucket: int, dims: Dims)

  function DimsOf(e: UsageEvent): Dims { Dims(e.workspaceId, e.projectId, e.userId, e.provider, e.model) }

  function KeyOf(e: UsageEvent, u: Unit): Key { Key(TruncateUtc(e.occurredAt, u), DimsOf(e)) }

  /** The measures that are exact everywhere. */
  datatype Counts = Counts(requests: int, errors: int, inputTokens: int, outputTokens: int, cacheReadTokens: int,
                           cacheWriteTokens: int, reasoningTokens: int, latencyMsSum: int, latencyCount: int) {
    function Plus(c: Counts): Counts {
      Counts(requests + c.requests, errors + c.errors, inputTokens + c.inputTokens, outputTokens + c.outputTokens,
             cacheReadTokens + c.cacheReadTokens, cacheWriteTokens + c.cacheWriteTokens,
             reasoningTokens + c.reasoningTokens, latencyMsSum + c.latencyMsSum, latencyCount + c.latencyCount)
    }
  }

  const NO_COUNTS := Counts(0, 0, 0, 0, 0, 0, 0, 0, 0)

  /** All measures of some events, their cost as an integer: 1e-8 USD for events and groups, 1e-6 USD in rollup rows. */
  datatype Total = Total(counts: Counts, cost: int) {
    function Plus(t: Total): Total { Total(counts.Plus(t.counts), cost + t.cost) }
  }

  const NOTHING := Total(NO_COUNTS, 0)

  predicate Priced(e: UsageEvent) { ParseDecimalScaled(e.costUsd, 8).Ok? }

  function Cost8(e: UsageEvent): int { if Priced(e) then ParseDecimalScaled(e.costUsd, 8).value else 0 }

  function TotalOf(e: UsageEvent): Total {
    Total(Counts(1, if e.status != OK then 1 else 0, e.inputTokens, e.outputTokens, e.cacheReadTokens,
                 e.cacheWriteTokens, e.reasoningTokens, e.latencyMs, 1), Cost8(e))
  }

  // ----- what the code computes -----

  datatype Group = Group(hour: int, day: int, dims: Dims, teamId: Option<string>, total: Total) {
    function Bucket(u: Unit): Key { Key(if u == Hour then hour else day, dims) }

    function Add(e: UsageEvent): Group { this.(total := total.Plus(TotalOf(e))) }
  }

  function NewGroup(e: UsageEvent): Group {
    Group(TruncateUtc(e.occurredAt, Hour), TruncateUtc(e.occurredAt, Day), DimsOf(e), e.teamId, NOTHING)
  }

  /** A Map entry. */
  datatype Keyed<K> = Keyed(key: K, group: Group)

  function Position<K(==)>(groups: seq<Keyed<K>>, k: K): (i: nat)
    ensures i <= |groups|
    ensures i < |groups| ==> groups[i].key == k
    ensures forall j :: 0 <= j < i ==> groups[j].key != k
  {
    FirstWith(groups, (entry: Keyed<K>) => entry.key == k)
  }

  /** The body of the loop: find or create the group, then add the event. */
  function AddEvent<K(==)>(key: UsageEvent -> K, groups: seq<Keyed<K>>, e: UsageEvent): seq<Keyed<K>> {
    var i := Position(groups, key(e));
    if i < |groups| then groups[i := Keyed(key(e), groups[i].group.Add(e))]
    else groups + [Keyed(key(e), NewGroup(e).Add(e))]
  }

  function GroupBy<K(==)>(key: UsageEvent -> K, events: seq<UsageEvent>): seq<Keyed<K>> {
    if events == [] then [] else AddEvent(key, GroupBy(key, events[..|events| - 1]), events[|events| - 1])
  }

  function ProviderName(p: Provider): string {
    match p
    case ANTHROPIC => "ANTHROPIC" case OPENAI => "OPENAI" case GEMINI => "GEMINI" case MINIMAX => "MINIMAX"
    case OPENROUTER => "OPENROUTER" case DEEPSEEK => "DEEPSEEK" case OLLAMA => "OLLAMA"
  }

  function JoinBars(parts: seq<string>): string
    requires parts != []
  {
    if |parts| == 1 then parts[0] else parts[0] + "|" + JoinBars(parts[1..])
  }

  /** The group key; `iso` is toISOString. */
  function TextKey(iso: int -> string): UsageEvent -> string {
    (e: UsageEvent) => JoinBars([iso(TruncateUtc(e.occurredAt, Hour)), e.workspaceId, e.projectId, e.userId,
      ProviderName(e.provider), e.model])
  }

  function HourKey(): UsageEvent -> Key { (e: UsageEvent) => KeyOf(e, Hour) }

  datatype Increment = Increment(hour: int, day: int, dims: Dims, teamId: Option<string>, counts: Counts,
    costUsd: string) {
    function Bucket(u: Unit): Key { Key(if u == Hour then hour else day, dims) }
  }

  function ToIncrement(g: Group): Increment {
    Increment(g.hour, g.day, g.dims, g.teamId, g.total.counts, FormatScaled(g.total.cost, 8))
  }

  function ToIncrements<K>(groups: seq<Keyed<K>>): seq<Increment> {
    seq(|groups|, i requires 0 <= i < |groups| => ToIncrement(groups[i].group))
  }

  ghost predicate PricedUpTo(events: seq<UsageEvent>, n: nat)
    requires n <= |events|
  {
    n == 0 || (Priced(events[n - 1]) && PricedUpTo(events, n - 1))
  }

  /** Every cost of the batch parses. */
  ghost predicate AllPriced(events: seq<UsageEvent>) { PricedUpTo(events, |events|) }

  lemma {:induction false} UnpricedStays(events: seq<UsageEvent>, n: nat, m: nat)
    requires n <= m <= |events| && !PricedUpTo(events, n)
    ensures !PricedUpTo(events, m)
  {
    hide ParseDecimalScaled;
    if n < m { UnpricedStays(events, n, m - 1); }
  }

  method GroupRollups(iso: int -> string, events: seq<UsageEvent>) returns (r: Result<seq<Increment>>)
    ensures r.Ok? <==> AllPriced(events)
    ensures r.Ok? ==> r.value == ToIncrements(GroupBy(TextKey(iso), events))
  {
    hide ParseDecimalScaled, TextKey, AddEvent, NewGroup, IsMap;
    EmptyMap();
    var key := TextKey(iso);
    var groups: map<string, Group> := map[];
    var order: seq<string> := [];
    ghost var entries: seq<Keyed<string>> := [];
    for n := 0 to |events|
      invariant PricedUpTo(events, n)
      invariant entries == GroupBy(key, events[..n]) && IsMap(groups, order, entries)
    {
      var e := events[n];
      if !Priced(e) {
        UnpricedStays(events, n + 1, |events|);
        return Err;
      }
      GroupByNext(key, events, n);
      MapStep(key, groups, order, entries, e);
      entries := AddEvent(key, entries, e);
      var groupKey := key(e);
      var group := if groupKey in groups then groups[groupKey] else NewGroup(e);
      if groupKey !in groups { order := order + [groupKey]; }
      groups := groups[groupKey := group.Add(e)];
    }
    assert events[..|events|] == events;
    r := Ok(Values(groups, order, entries));
  }

  lemma EmptyMap()
    ensures IsMap(map[], [], [])
  {}

  lemma GroupByNext<K>(key: UsageEvent -> K, events: seq<UsageEvent>, n: nat)
    requires n < |events|
    ensures GroupBy(key, events[..n + 1]) == AddEvent(key, GroupBy(key, events[..n]), events[n])
  {
    assert events[..n + 1][..n] == events[..n];
  }

  /** The groups in insertion order, as increments. */
  function Values(groups: map<string, Group>, order: seq<string>,
      ghost entries: seq<Keyed<string>>): (r: seq<Increment>)
    requires IsMap(groups, order, entries)
    ensures r == ToIncrements(entries)
  {
    seq(|order|, i requires 0 <= i < |order| => ToIncrement(groups[order[i]]))
  }

  /** A JavaScript Map read as its entries in insertion order. */
  ghost predicate IsMap(groups: map<string, Group>, order: seq<string>, entries: seq<Keyed<string>>) {
    && |order| == |entries|
    && (forall i :: 0 <= i < |order| ==>
      order[i] == entries[i].key && order[i] in groups && groups[order[i]] == entries[i].group)
    && (forall k :: k in groups ==> k in order)
    && (forall i, j :: 0 <= i < j < |order| ==> order[i] != order[j])
  }

  lemma MapHas(groups: map<string, Group>, order: seq<string>, entries: seq<Keyed<string>>, k: string)
    requires IsMap(groups, order, entries)
    ensures k in groups <==> Position(entries, k) < |entries|
    ensures k in groups ==> groups[k] == entries[Position(entries, k)].group
  {
    if k in groups {
      var j :| 0 <= j < |order| && order[j] == k;
      assert entries[j].key == k;
    }
    if Position(entries, k) < |entries| { assert order[Position(entries, k)] == k; }
  }

  lemma MapOverwrite(groups: map<string, Group>, order: seq<string>, entries: seq<Keyed<string>>, i: nat, g: Group)
    requires IsMap(groups, order, entries) && i < |entries|
    ensures IsMap(groups[entries[i].key := g], order, entries[i := Keyed(entries[i].key, g)])
  {
    assert order[i] == entries[i].key;
  }

  lemma MapInsert(groups: map<string, Group>, order: seq<string>, entries: seq<Keyed<string>>, k: string, g: Group)
    requires IsMap(groups, order, entries) && k !in groups
    ensures IsMap(groups[k := g], order + [k], entries + [Keyed(k, g)])
  {
    var after := order + [k];
    assert after[|order|] == k;
    assert forall i :: 0 <= i < |order| ==> after[i] == order[i] && order[i] in groups;
  }

  lemma MapStep(key: UsageEvent -> string, groups: map<string, Group>, order: seq<string>,
                entries: seq<Keyed<string>>, e: UsageEvent)
    requires IsMap(groups, order, entries)
    ensures var k := key(e);
      IsMap(groups[k := (if k in groups then groups[k] else NewGroup(e)).Add(e)],
            if k in groups then order else order + [k], AddEvent(key, entries, e))
  {
    hide ParseDecimalScaled, NewGroup, IsMap, TotalOf;
    var k := key(e);
    MapHas(groups, order, entries, k);
    var i := Position(entries, k);
    if i < |entries| {
      MapOverwrite(groups, order, entries, i, groups[k].Add(e));
    } else {
      MapInsert(groups, order, entries, k, NewGroup(e).Add(e));
    }
  }

  // ----- the text key -----

  predicate NoBar(s: string) { forall i :: 0 <= i < |s| ==> s[i] != '|' }

  /** A part without bars is what stands before the first bar. */
  lemma {:induction false} FirstPart(a: string, s: string, b: string, t: string)
    requires NoBar(a) && NoBar(b) && a + "|" + s == b + "|" + t
    ensures a == b && s == t
  {
    var k := a + "|" + s;
    assert k[|a|] == '|' && k[|b|] == '|';
    assert forall i :: 0 <= i < |a| ==> k[i] == a[i];
    assert forall i :: 0 <= i < |b| ==> k[i] == b[i];
    assert |a| == |b|;
    assert k[..|a|] == a && k[..|a|] == b && k[|a| + 1..] == s && k[|a| + 1..] == t;
  }

  /** Joining with bars is injective on equally many parts when none but the last holds a bar. */
  lemma {:induction false} JoinIsInjective(a: seq<string>, b: seq<string>)
    requires |a| == |b| > 0 && JoinBars(a) == JoinBars(b)
    requires forall i :: 0 <= i < |a| - 1 ==> NoBar(a[i]) && NoBar(b[i])
    ensures a == b
  {
    if |a| > 1 {
      FirstPart(a[0], JoinBars(a[1..]), b[0], JoinBars(b[1..]));
      JoinIsInjective(a[1..], b[1..]);
      assert a == [a[0]] + a[1..] && b == [b[0]] + b[1..];
    }
  }

  /** toISOString: different instants print differently, and no bar is printed. */
  ghost predicate IsoFormat(iso: int -> string) {
    && (forall t :: NoBar(iso(t)))
    && (forall t, t' :: iso(t) == iso(t') ==> t == t')
  }

  /** Ids are UUIDs by the time events are grouped: the insert before it casts them. */
  predicate PlainIds(e: UsageEvent) { NoBar(e.workspaceId) && NoBar(e.projectId) && NoBar(e.userId) }

  /** On events with plain ids the joined text identifies exactly the hour and the dimensions. */
  lemma TextKeyIsExact(iso: int -> string, e: UsageEvent, f: UsageEvent)
    requires IsoFormat(iso) && PlainIds(e) && PlainIds(f)
    ensures TextKey(iso)(e) == TextKey(iso)(f) <==> KeyOf(e, Hour) == KeyOf(f, Hour)
  {
    var a := [iso(TruncateUtc(e.occurredAt, Hour)), e.workspaceId, e.projectId, e.userId, ProviderName(e.provider),
      e.model];
    var b := [iso(TruncateUtc(f.occurredAt, Hour)), f.workspaceId, f.projectId, f.userId, ProviderName(f.provider),
      f.model];
    if TextKey(iso)(e) == TextKey(iso)(f) {
      JoinIsInjective(a, b);
      assert a[0] == b[0] && a[1] == b[1] && a[2] == b[2] && a[3] == b[3] && a[4] == b[4] && a[5] == b[5];
    }
  }

  /** A bar in an id merges two dimension tuples. */
  lemma BarsCollide(iso: int -> string, e: UsageEvent)
    ensures var f, g := e.(workspaceId := "a|b", projectId := "c"), e.(workspaceId := "a", projectId := "b|c");
      TextKey(iso)(f) == TextKey(iso)(g) && KeyOf(f, Hour) != KeyOf(g, Hour)
  {
    var rest := [e.userId, ProviderName(e.provider), e.model];
    var h := iso(TruncateUtc(e.occurredAt, Hour));
    assert [h, "a|b", "c"] + rest == [h, "a|b", "c", e.userId, ProviderName(e.provider), e.model];
    assert [h, "a", "b|c"] + rest == [h, "a", "b|c", e.userId, ProviderName(e.provider), e.model];
    JoinThree(h, "a|b", "c", rest);
    JoinThree(h, "a", "b|c", rest);
    assert "a|b" + "|" + "c" == "a" + "|" + "b|c";
  }

  lemma JoinThree(a: string, b: string, c: string, rest: seq<string>)
    requires rest != []
    ensures JoinBars([a, b, c] + rest) == a + "|" + (b + "|" + c) + "|" + JoinBars(rest)
  {
    assert ([a, b, c] + rest)[1..] == [b, c] + rest;
    assert ([b, c] + rest)[1..] == [c] + rest;
    assert ([c] + rest)[1..] == rest;
    assert JoinBars([c] + rest) == c + "|" + JoinBars(rest);
    assert JoinBars([b, c] + rest) == b + "|" + (c + "|" + JoinBars(rest));
    assert JoinBars([a, b, c] + rest) == a + "|" + (b + "|" + (c + "|" + JoinBars(rest)));
  }

  /** The first event of every group, in order. */
  ghost function Firsts<K>(key: UsageEvent -> K, events: seq<UsageEvent>): (r: seq<UsageEvent>)
    ensures |r| == |GroupBy(key, events)|
    ensures forall i :: 0 <= i < |r| ==> r[i] in events && GroupBy(key, events)[i].key == key(r[i])
  {
    if events == [] then []
    else
      var init, e := events[..|events| - 1], events[|events| - 1];
      var before := Firsts(key, init);
      if Position(GroupBy(key, init), key(e)) < |before| then before else before + [e]
  }

  /** Two keys that identify the same pairs of events produce the same groups. */
  lemma {:induction false} SameGroups<K, L>(k: UsageEvent -> K, l: UsageEvent -> L, events: seq<UsageEvent>)
    requires forall e, f :: e in events && f in events ==> (k(e) == k(f) <==> l(e) == l(f))
    ensures Firsts(k, events) == Firsts(l, events)
    ensures forall i :: 0 <= i < |GroupBy(k, events)| ==> GroupBy(k, events)[i].group == GroupBy(l, events)[i].group
  {
    hide ParseDecimalScaled, NewGroup, TotalOf;
    if events != [] {
      var init, e := events[..|events| - 1], events[|events| - 1];
      SameGroups(k, l, init);
      var gk, gl, reps := GroupBy(k, init), GroupBy(l, init), Firsts(k, init);
      var i, j := Position(gk, k(e)), Position(gl, l(e));
      assert forall m :: 0 <= m < |gk| ==> (gk[m].key == k(e) <==> gl[m].key == l(e)) by {
        forall m | 0 <= m < |gk| ensures gk[m].key == k(e) <==> gl[m].key == l(e) {
          assert reps[m] in events && e in events;
        }
      }
      assert i == j;
    }
  }

  // ----- what the groups mean -----

  /** A measured quantity filed under a bucket. */
  datatype Entry = Entry(key: Key, total: Total)

  /** Σ f over the entries. */
  function SumOf(es: seq<Entry>, f: Entry -> int): int {
    if es == [] then 0 else SumOf(es[..|es| - 1], f) + f(es[|es| - 1])
  }

  /**
   * A measure that adds up: a count, a token sum, a latency sum or a cost, over all buckets or over any choice of them.
   */
  ghost predicate Additive(f: Entry -> int) {
    && (forall k, a: Total, b: Total {:trigger f(Entry(k, a.Plus(b)))} ::
      f(Entry(k, a.Plus(b))) == f(Entry(k, a)) + f(Entry(k, b)))
    && (forall k {:trigger f(Entry(k, NOTHING))} :: f(Entry(k, NOTHING)) == 0)
  }

  function EntryOf(e: UsageEvent, u: Unit): Entry { Entry(KeyOf(e, u), TotalOf(e)) }

  function EventEntries(events: seq<UsageEvent>, u: Unit): seq<Entry> {
    seq(|events|, i requires 0 <= i < |events| => EntryOf(events[i], u))
  }

  function GroupEntries<K>(groups: seq<Keyed<K>>, u: Unit): seq<Entry> {
    seq(|groups|, i requires 0 <= i < |groups| => Entry(groups[i].group.Bucket(u), groups[i].group.total))
  }

  /** Adding to one entry adds to the sum. */
  lemma {:induction false} SumUpdate(es: seq<Entry>, i: nat, x: Entry, f: Entry -> int)
    requires i < |es|
    ensures SumOf(es[i := x], f) == SumOf(es, f) - f(es[i]) + f(x)
  {
    var n := |es| - 1;
    if i == n {
      assert es[i := x][..n] == es[..n];
    } else {
      assert es[i := x][..n] == es[..n][i := x];
      SumUpdate(es[..n], i, x, f);
    }
  }

  lemma SumAppend(es: seq<Entry>, x: Entry, f: Entry -> int)
    ensures SumOf(es + [x], f) == SumOf(es, f) + f(x)
  {
    assert (es + [x])[..|es|] == es;
  }

  lemma {:induction false} SumConcat(a: seq<Entry>, b: seq<Entry>, f: Entry -> int)
    ensures SumOf(a + b, f) == SumOf(a, f) + SumOf(b, f)
  {
    if b == [] {
      assert a + b == a;
    } else {
      var init, x := b[..|b| - 1], b[|b| - 1];
      assert a + b == a + init + [x] && b == init + [x];
      SumConcat(a, init, f);
      SumAppend(a + init, x, f);
    }
  }

  /** Every Map entry is filed under its own hour bucket, and its day is the day of its hour. */
  ghost predicate WellFiled(groups: seq<Keyed<Key>>) {
    forall i :: 0 <= i < |groups| ==>
      groups[i].key == groups[i].group.Bucket(Hour) && groups[i].group.day == TruncateUtc(groups[i].group.hour, Day)
  }

  ghost predicate DistinctKeys<K(!new)>(groups: seq<Keyed<K>>) {
    forall i, j :: 0 <= i < j < |groups| ==> groups[i].key != groups[j].key
  }

  /** Adding an event to groups that are distinct and well filed keeps them so and adds its entry to one group. */
  lemma AddEventMeaning(groups: seq<Keyed<Key>>, e: UsageEvent)
    requires WellFiled(groups) && DistinctKeys(groups)
    ensures var after, i := AddEvent(HourKey(), groups, e), Position(groups, KeyOf(e, Hour));
      && WellFiled(after) && DistinctKeys(after)
      && (i < |groups| ==> after == groups[i := Keyed(KeyOf(e, Hour), groups[i].group.Add(e))]
                           && forall u :: groups[i].group.Bucket(u) == KeyOf(e, u))
      && (i == |groups| ==> after == groups + [Keyed(KeyOf(e, Hour), NewGroup(e).Add(e))])
  {
    TruncationNests(e.occurredAt);
  }

  lemma AddEventSums(groups: seq<Keyed<Key>>, e: UsageEvent, u: Unit, f: Entry -> int)
    requires WellFiled(groups) && DistinctKeys(groups) && Additive(f)
    ensures SumOf(GroupEntries(AddEvent(HourKey(), groups, e), u), f) == SumOf(GroupEntries(groups, u), f)
      + f(EntryOf(e, u))
  {
    var after, i, t := AddEvent(HourKey(), groups, e), Position(groups, KeyOf(e, Hour)), TotalOf(e);
    AddEventMeaning(groups, e);
    var es := GroupEntries(groups, u);
    if i < |groups| {
      assert GroupEntries(after, u) == es[i := Entry(KeyOf(e, u), es[i].total.Plus(t))];
      SumUpdate(es, i, Entry(KeyOf(e, u), es[i].total.Plus(t)), f);
    } else {
      assert GroupEntries(after, u) == es + [Entry(KeyOf(e, u), NOTHING.Plus(t))];
      SumAppend(es, Entry(KeyOf(e, u), NOTHING.Plus(t)), f);
    }
  }

  /** Grouping keeps keys distinct and well filed. */
  lemma {:induction false} GroupingIsFiled(events: seq<UsageEvent>)
    ensures WellFiled(GroupBy(HourKey(), events)) && DistinctKeys(GroupBy(HourKey(), events))
  {
    if events != [] {
      GroupingIsFiled(events[..|events| - 1]);
      AddEventMeaning(GroupBy(HourKey(), events[..|events| - 1]), events[|events| - 1]);
    }
  }

  /** The groups add up to the events, in every additive measure of hour buckets and of day buckets. */
  lemma {:induction false} GroupingIsASum(events: seq<UsageEvent>, u: Unit, f: Entry -> int)
    requires Additive(f)
    ensures SumOf(GroupEntries(GroupBy(HourKey(), events), u), f) == SumOf(EventEntries(events, u), f)
  {
    hide EntryOf, AddEvent;
    if events != [] {
      var init, e := events[..|events| - 1], events[|events| - 1];
      GroupingIsASum(init, u, f);
      GroupingIsFiled(init);
      AddEventSums(GroupBy(HourKey(), init), e, u, f);
      assert EventEntries(events, u)[..|init|] == EventEntries(init, u);
    }
  }

  /** A bucket has a group exactly when some event falls into it. */
  lemma {:induction false} GroupingCovers(events: seq<UsageEvent>, k: Key)
    ensures Position(GroupBy(HourKey(), events), k) < |GroupBy(HourKey(), events)| <==> OccursIn(events, k)
  {
    if events != [] {
      GroupingCovers(events[..|events| - 1], k);
      PositionAfter(GroupBy(HourKey(), events[..|events| - 1]), events[|events| - 1], k);
    }
  }

  predicate OccursIn(events: seq<UsageEvent>, k: Key) {
    events != [] && (KeyOf(events[|events| - 1], Hour) == k || OccursIn(events[..|events| - 1], k))
  }

  lemma PositionAfter(groups: seq<Keyed<Key>>, e: UsageEvent, k: Key)
    ensures var after := AddEvent(HourKey(), groups, e);
      Position(after, k) < |after| <==> (KeyOf(e, Hour) == k || Position(groups, k) < |groups|)
  {
    var after, i := AddEvent(HourKey(), groups, e), Position(groups, KeyOf(e, Hour));
    var p, p' := Position(groups, k), Position(after, k);
    assert after[i].key == KeyOf(e, Hour);
    assert forall m :: 0 <= m < |groups| ==> after[m].key == groups[m].key;
    if p < |groups| { assert after[p].key == k; }
  }

  /** Grouping a ++ b adds up to the groupings of a and of b: the cut into batches does not matter. */
  lemma GroupingMerges(a: seq<UsageEvent>, b: seq<UsageEvent>, u: Unit, f: Entry -> int)
    requires Additive(f)
    ensures SumOf(GroupEntries(GroupBy(HourKey(), a + b), u), f)
      == SumOf(GroupEntries(GroupBy(HourKey(), a), u), f) + SumOf(GroupEntries(GroupBy(HourKey(), b), u), f)
  {
    GroupingIsASum(a + b, u, f);
    GroupingIsASum(a, u, f);
    GroupingIsASum(b, u, f);
    EntriesConcat(a, b, u);
    SumConcat(EventEntries(a, u), EventEntries(b, u), f);
  }

  lemma EntriesConcat(a: seq<UsageEvent>, b: seq<UsageEvent>, u: Unit)
    ensures EventEntries(a + b, u) == EventEntries(a, u) + EventEntries(b, u)
  {
    hide EntryOf;
  }

  lemma SumEventsConcat(a: seq<UsageEvent>, b: seq<UsageEvent>, u: Unit, f: Entry -> int)
    ensures SumOf(EventEntries(a + b, u), f) == SumOf(EventEntries(a, u), f) + SumOf(EventEntries(b, u), f)
  {
    EntriesConcat(a, b, u);
    SumConcat(EventEntries(a, u), EventEntries(b, u), f);
  }

  lemma SumWithout(b: seq<UsageEvent>, i: nat, u: Unit, f: Entry -> int)
    requires i < |b|
    ensures SumOf(EventEntries(b, u), f) == SumOf(EventEntries(b[..i] + b[i + 1..], u), f)
      + SumOf(EventEntries([b[i]], u), f)
  {
    hide EventEntries, SumOf;
    assert b == b[..i] + [b[i]] + b[i + 1..];
    SumEventsConcat(b[..i], b[i + 1..], u, f);
    SumEventsConcat(b[..i] + [b[i]], b[i + 1..], u, f);
    SumEventsConcat(b[..i], [b[i]], u, f);
  }

  /** Nor does the order in which events arrive. */
  lemma {:induction false} SumIgnoresOrder(a: seq<UsageEvent>, b: seq<UsageEvent>, u: Unit, f: Entry -> int)
    requires multiset(a) == multiset(b)
    ensures SumOf(EventEntries(a, u), f) == SumOf(EventEntries(b, u), f)
  {
    hide EventEntries, SumOf;
    if a != [] {
      var init, e := a[..|a| - 1], a[|a| - 1];
      var i := WithoutLast(a, b);
      SumIgnoresOrder(init, b[..i] + b[i + 1..], u, f);
      SumWithout(b, i, u, f);
      SumEventsConcat(init, [e], u, f);
      assert a == init + [e];
    } else {
      assert |multiset(b)| == 0;
      assert a == b;
    }
  }

  /** Distinct groups, read back as increments, order and cost text included: nothing of a group is lost. */
  lemma IncrementReadsBack(g: Group)
    ensures var inc := ToIncrement(g);
      && (inc.hour, inc.day, inc.dims, inc.teamId, inc.counts) == (g.hour, g.day, g.dims, g.teamId, g.total.counts)
      && ParseDecimalScaled(inc.costUsd, 8) == Ok(g.total.cost)
  {
    ParseFormat(g.total.cost, 8);
  }

  /** On events with plain ids, what groupRollups returns is the grouping by hour bucket and dimensions. */
  lemma TextGroupsAreExact(iso: int -> string, events: seq<UsageEvent>)
    requires IsoFormat(iso) && forall e :: e in events ==> PlainIds(e)
    ensures ToIncrements(GroupBy(TextKey(iso), events)) == ToIncrements(GroupBy(HourKey(), events))
  {
    forall e, f | e in events && f in events
      ensures TextKey(iso)(e) == TextKey(iso)(f) <==> HourKey()(e) == HourKey()(f)
    {
      TextKeyIsExact(iso, e, f);
    }
    SameGroups(TextKey(iso), HourKey(), events);
    assert |Firsts(TextKey(iso), events)| == |Firsts(HourKey(), events)|;
  }

  // ----- the concrete measures -----

  datatype Measure = Requests | Errors | InputTokens | OutputTokens | CacheReadTokens | CacheWriteTokens
                   | ReasoningTokens | LatencyMsSum | LatencyCount | Cost

  function Get(t: Total, m: Measure): int {
    match m
    case Requests => t.counts.requests
    case Errors => t.counts.errors
    case InputTokens => t.counts.inputTokens
    case OutputTokens => t.counts.outputTokens
    case CacheReadTokens => t.counts.cacheReadTokens
    case CacheWriteTokens => t.counts.cacheWriteTokens
    case ReasoningTokens => t.counts.reasoningTokens
    case LatencyMsSum => t.counts.latencyMsSum
    case LatencyCount => t.counts.latencyCount
    case Cost => t.cost
  }

  /** A measure over the buckets that satisfy q. */
  function Over(m: Measure, q: Key -> bool): Entry -> int {
    (x: Entry) => if q(x.key) then Get(x.total, m) else 0
  }

  lemma MeasuresAddUp(m: Measure, q: Key -> bool)
    ensures Additive(Over(m, q))
  {
    var f := Over(m, q);
    forall k, t ensures f(Entry(k, t)) == if q(k) then Get(t, m) else 0 {
      assert Entry(k, t).key == k && Entry(k, t).total == t;
    }
    forall k, a: Total, b: Total ensures f(Entry(k, a.Plus(b))) == f(Entry(k, a)) + f(Entry(k, b)) { GetPlus(a, b, m); }
    forall k ensures f(Entry(k, NOTHING)) == 0 { GetPlus(NOTHING, NOTHING, m); }
  }

  lemma GetPlus(a: Total, b: Total, m: Measure)
    ensures Get(a.Plus(b), m) == Get(a, m) + Get(b, m) && Get(NOTHING, m) == 0
  {
  }
}
