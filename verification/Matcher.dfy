/** Price matching (packages/pricing/src/matcher.ts): workspace overrides before the catalog, longest pattern first. */
module Matcher {
  import opened Wrappers

  datatype Provider = ANTHROPIC | OPENAI | GEMINI | MINIMAX | OPENROUTER | DEEPSEEK | OLLAMA

  datatype Source = SEED | SYNC | MANUAL | OVERRIDE

  datatype PriceEntry = PriceEntry(
    provider: Provider, modelPattern: string,
    inputPerMtok: string, outputPerMtok: string, cacheReadPerMtok: string, cacheWritePerMtok: string,
    source: Source)

  /** "claude-sonnet-5*" gives "claude-sonnet-5"; a pattern without a trailing star gives None. */
  function PatternPrefix(pattern: string): Option<string> {
    if |pattern| > 0 && pattern[|pattern| - 1] == '*' then Some(pattern[..|pattern| - 1]) else None
  }

  predicate Exact(e: PriceEntry, provider: Provider, model: string) {
    e.provider == provider && e.modelPattern == model
  }

  predicate ByPrefix(e: PriceEntry, provider: Provider, model: string) {
    && e.provider == provider
    && PatternPrefix(e.modelPattern).Some?
    && PatternPrefix(e.modelPattern).value <= model
  }

  predicate Applies(e: PriceEntry, provider: Provider, model: string) {
    Exact(e, provider, model) || ByPrefix(e, provider, model)
  }

  /** The declared precedence: an exact entry beats every prefix, a longer pattern beats a shorter one. */
  predicate Beats(e: PriceEntry, f: PriceEntry, provider: Provider, model: string) {
    || (Exact(e, provider, model) && !Exact(f, provider, model))
    || (Exact(e, provider, model) == Exact(f, provider, model) && |e.modelPattern| > |f.modelPattern|)
  }

  /** `i` is the first applicable entry that no applicable entry beats. */
  ghost predicate IsWinner(entries: seq<PriceEntry>, provider: Provider, model: string, i: nat) {
    && i < |entries| && Applies(entries[i], provider, model)
    && (forall j :: 0 <= j < |entries| && Applies(entries[j], provider, model) ==>
          !Beats(entries[j], entries[i], provider, model))
    && (forall j :: 0 <= j < i && Applies(entries[j], provider, model) ==>
          Beats(entries[i], entries[j], provider, model))
  }

  /** What the search must return: the winner, or nothing when no entry applies. */
  ghost predicate Selects(entries: seq<PriceEntry>, provider: Provider, model: string, r: Option<PriceEntry>) {
    match r
    case None => forall j :: 0 <= j < |entries| ==> !Applies(entries[j], provider, model)
    case Some(e) => exists i: nat :: IsWinner(entries, provider, model, i) && entries[i] == e
  }

  method FindIn(entries: seq<PriceEntry>, provider: Provider, model: string) returns (r: Option<PriceEntry>)
    ensures Selects(entries, provider, model, r)
  {
    var bestPrefix: Option<PriceEntry> := None;
    var bestPrefixLen := -1;
    ghost var best: nat := 0;
    for k := 0 to |entries|
      invariant -1 <= bestPrefixLen
      invariant bestPrefix.None? <==> bestPrefixLen == -1
      invariant forall j :: 0 <= j < k ==> !Exact(entries[j], provider, model)
      invariant forall j :: 0 <= j < k && ByPrefix(entries[j], provider, model) ==>
        |entries[j].modelPattern| - 1 <= bestPrefixLen
      invariant bestPrefix.Some? ==>
        && best < k && entries[best] == bestPrefix.value && ByPrefix(entries[best], provider, model)
        && |entries[best].modelPattern| - 1 == bestPrefixLen
        && forall j :: 0 <= j < best && ByPrefix(entries[j], provider, model) ==>
             |entries[j].modelPattern| - 1 < bestPrefixLen
    {
      var entry := entries[k];
      if entry.provider != provider { continue; }
      if entry.modelPattern == model {
        assert IsWinner(entries, provider, model, k);
        return Some(entry);
      }
      var prefix := PatternPrefix(entry.modelPattern);
      if prefix.Some? && prefix.value <= model && |prefix.value| > bestPrefixLen {
        bestPrefix := Some(entry);
        bestPrefixLen := |prefix.value|;
        best := k;
      }
    }
    if bestPrefix.Some? { assert IsWinner(entries, provider, model, best); }
    return bestPrefix;
  }

  method MatchPrice(provider: Provider, model: string, catalog: seq<PriceEntry>, overrides: seq<PriceEntry>)
    returns (r: Option<PriceEntry>)
    ensures (exists j :: 0 <= j < |overrides| && Applies(overrides[j], provider, model)) ==>
      Selects(overrides, provider, model, r)
    ensures (forall j :: 0 <= j < |overrides| ==> !Applies(overrides[j], provider, model)) ==>
      Selects(catalog, provider, model, r)
    ensures r.Some? ==> Applies(r.value, provider, model)
  {
    r := FindIn(overrides, provider, model);
    if r.None? {
      r := FindIn(catalog, provider, model);
    }
  }

  /** The rule leaves no choice. */
  lemma SelectionIsUnique(entries: seq<PriceEntry>, provider: Provider, model: string,
                          r: Option<PriceEntry>, r': Option<PriceEntry>)
    requires Selects(entries, provider, model, r) && Selects(entries, provider, model, r')
    ensures r == r'
  {
    if r.Some? && r'.Some? {
      var i: nat :| IsWinner(entries, provider, model, i) && entries[i] == r.value;
      var j: nat :| IsWinner(entries, provider, model, j) && entries[j] == r'.value;
      assert Applies(entries[i], provider, model) && Applies(entries[j], provider, model);
      assert i == j;
    }
  }

  /** A selected entry is never beaten, whatever its position. */
  lemma SelectedIsUnbeaten(entries: seq<PriceEntry>, provider: Provider, model: string, e: PriceEntry, f: PriceEntry)
    requires Selects(entries, provider, model, Some(e)) && f in entries && Applies(f, provider, model)
    ensures e in entries && Applies(e, provider, model) && !Beats(f, e, provider, model)
  {
    var i: nat :| IsWinner(entries, provider, model, i) && entries[i] == e;
    var j :| 0 <= j < |entries| && entries[j] == f;
  }

  /** The pattern p + "*" applies to exactly the models that begin with p, or are the pattern itself. */
  lemma StarMatchesPrefixes(e: PriceEntry, p: string, provider: Provider, model: string)
    requires e.modelPattern == p + "*"
    ensures Applies(e, provider, model) <==>
      e.provider == provider && ((|p| <= |model| && model[..|p|] == p) || model == p + "*")
  {
    assert PatternPrefix(e.modelPattern) == Some(p);
  }

  /** A pattern without a trailing star applies to the model it spells and to no other; the bare star to every model. */
  lemma PlainMatchesItself(e: PriceEntry, provider: Provider, model: string)
    ensures (e.modelPattern == "" || e.modelPattern[|e.modelPattern| - 1] != '*') ==>
      (Applies(e, provider, model) <==> e.provider == provider && e.modelPattern == model)
    ensures e.modelPattern == "*" ==> (Applies(e, provider, model) <==> e.provider == provider)
  {
    if e.modelPattern == "*" { StarMatchesPrefixes(e, "", provider, model); }
  }

  /**
   * The rule in plain terms: entry i applies; it spells the model if any entry of the provider does, and is the first
   * that does; otherwise no pattern that applies is longer, and of equally long ones it is the first.
   */
  ghost predicate FollowsTheRule(entries: seq<PriceEntry>, provider: Provider, model: string, i: nat) {
    && i < |entries| && Applies(entries[i], provider, model)
    && (forall j :: 0 <= j < |entries| && entries[j].provider == provider && entries[j].modelPattern == model ==>
          entries[i].modelPattern == model && i <= j)
    && (entries[i].modelPattern != model ==>
          forall j :: 0 <= j < |entries| && Applies(entries[j], provider, model) ==>
            |entries[j].modelPattern| < |entries[i].modelPattern|
            || (|entries[j].modelPattern| == |entries[i].modelPattern| && i <= j))
  }

  /** The search follows it: no entry is found exactly when none applies. */
  lemma RuleInPlainTerms(entries: seq<PriceEntry>, provider: Provider, model: string, r: Option<PriceEntry>)
    requires Selects(entries, provider, model, r)
    ensures r.None? <==> forall j :: 0 <= j < |entries| ==> !Applies(entries[j], provider, model)
    ensures r.Some? ==> exists i: nat :: FollowsTheRule(entries, provider, model, i) && entries[i] == r.value
  {
    if r.Some? {
      var i: nat :| IsWinner(entries, provider, model, i) && entries[i] == r.value;
      forall j | 0 <= j < |entries| && Applies(entries[j], provider, model)
        ensures !Beats(entries[j], entries[i], provider, model)
      {}
      assert FollowsTheRule(entries, provider, model, i);
    }
  }

  /** No two entries share provider and pattern. */
  ghost predicate UniquePatterns(entries: seq<PriceEntry>) {
    forall i, j :: 0 <= i < j < |entries| ==>
      entries[i].provider != entries[j].provider || entries[i].modelPattern != entries[j].modelPattern
  }

  /** Two applicable entries neither of which beats the other carry the same pattern. */
  lemma TiesShareThePattern(e: PriceEntry, f: PriceEntry, provider: Provider, model: string)
    requires Applies(e, provider, model) && Applies(f, provider, model)
    requires !Beats(e, f, provider, model) && !Beats(f, e, provider, model)
    ensures e.provider == f.provider && e.modelPattern == f.modelPattern
  {
    if !Exact(e, provider, model) {
      var n := |e.modelPattern| - 1;
      assert e.modelPattern == model[..n] + "*";
      assert f.modelPattern == model[..n] + "*";
    }
  }

  /** The order of the rows does not matter when (provider, pattern) pairs are unique. */
  lemma OrderIrrelevant(a: seq<PriceEntry>, b: seq<PriceEntry>, provider: Provider, model: string,
                        ra: Option<PriceEntry>, rb: Option<PriceEntry>)
    requires multiset(a) == multiset(b) && UniquePatterns(a)
    requires Selects(a, provider, model, ra) && Selects(b, provider, model, rb)
    ensures ra == rb
  {
    assert forall e :: e in a <==> e in multiset(a);
    assert forall e :: e in b <==> e in multiset(b);
    if ra.Some? {
      var i: nat :| IsWinner(a, provider, model, i) && a[i] == ra.value;
      assert ra.value in b;
    }
    if rb.Some? {
      var j: nat :| IsWinner(b, provider, model, j) && b[j] == rb.value;
      assert rb.value in a;
    }
    if ra.Some? && rb.Some? {
      SelectedIsUnbeaten(a, provider, model, ra.value, rb.value);
      SelectedIsUnbeaten(b, provider, model, rb.value, ra.value);
      TiesShareThePattern(ra.value, rb.value, provider, model);
    }
  }

  /** Without uniqueness the first row wins, so swapping two rows changes the price. */
  lemma DuplicatesDependOnOrder(e: PriceEntry, f: PriceEntry)
    requires e != f && e.provider == f.provider && e.modelPattern == f.modelPattern
    ensures Selects([e, f], e.provider, e.modelPattern, Some(e)) && Selects([f, e], e.provider, e.modelPattern, Some(f))
    ensures multiset([e, f]) == multiset([f, e])
  {
    assert IsWinner([e, f], e.provider, e.modelPattern, 0);
    assert IsWinner([f, e], e.provider, e.modelPattern, 0);
  }
}
