/**
 * What the rollup tables say in every reachable state of the pipeline, and exactly when they agree with the raw events.
 */
module Exactness {
  import opened Events
  import opened Rollups
  import opened Ledger
  import opened LedgerLaws
  import opened Pipeline
  import opened Sequences

  function TableOf(s: State, u: Unit): seq<Row> { if u == Hour then s.db.hourly else s.db.daily }

  // ----- the tables are the increments applied -----

  ghost predicate Follows(s: State) {
    && s.db.hourly == UpsertAll([], s.applied, Hour) && s.db.daily == UpsertAll([], s.applied, Day)
    && DaysFollowHours(s.applied)
  }

  lemma CommitTables(db: Tables, batch: seq<UsageEvent>)
    ensures Commit(db, batch).hourly == UpsertAll(db.hourly, GroupBy(HourKey(), CountedBy(db, batch)), Hour)
    ensures Commit(db, batch).daily == UpsertAll(db.daily, GroupBy(HourKey(), CountedBy(db, batch)), Day)
  {
    if Inserted(db.rows, batch) == [] {
      assert Ids([]) == {};
      NothingFresh(batch);
    }
  }

  lemma FollowsKept(s: State, a: Action)
    requires Follows(s)
    ensures Follows(Step(s, a))
  {
    if Enabled(s, a) && a.CommitBatch? {
      var more := GroupBy(HourKey(), CountedBy(s.db, Batch(s, a.w)));
      CommitTables(s.db, Batch(s, a.w));
      UpsertAllConcat([], s.applied, more, Hour);
      UpsertAllConcat([], s.applied, more, Day);
      GroupingIsFiled(CountedBy(s.db, Batch(s, a.w)));
    }
  }

  lemma {:induction false} FollowsAlways(s: State, actions: seq<Action>)
    requires Initial(s)
    ensures Follows(Run(s, actions))
  {
    if actions != [] {
      FollowsAlways(s, actions[..|actions| - 1]);
      FollowsKept(Run(s, actions[..|actions| - 1]), actions[|actions| - 1]);
    }
  }

  /** In every additive measure, the rows of a table add up to the rounded increments. */
  lemma TableIsIncrements(s: State, u: Unit, f: Entry -> int)
    requires Follows(s) && Additive(f)
    ensures SumOf(RowEntries(TableOf(s, u)), f) == SumOf(RoundedEntries(s.applied, u), f)
    ensures DistinctRows(TableOf(s, u))
  {
    UpsertAllSums([], s.applied, u, f);
    RowsStayDistinct([], s.applied, u);
    assert RowEntries([]) == [];
  }

  /**
   * In every reachable state the daily table is the hourly table by day, in every additive measure and for rounded cost
   * too.
   */
  lemma DailyIsHourly(s: State, actions: seq<Action>, f: Entry -> int)
    requires Initial(s) && Additive(f)
    ensures var db := Run(s, actions).db; SumOf(RowEntries(db.daily), f) == SumOf(RowEntries(db.hourly), ByDay(f))
  {
    var t := Run(s, actions);
    FollowsAlways(s, actions);
    ByDayIsAdditive(f);
    TableIsIncrements(t, Day, f);
    TableIsIncrements(t, Hour, ByDay(f));
    DayIncrementsFollowHours(t.applied, f);
  }

  /** So each daily row holds, in every measure, the sum of the hourly rows of its day and dimensions. */
  lemma EachDayIsItsHours(s: State, actions: seq<Action>, k: Key, m: Measure)
    requires Initial(s)
    ensures var db := Run(s, actions).db;
      Get(RowTotal(db.daily, k), m) == SumOf(RowEntries(db.hourly), Over(m, x => DayOf(x) == k))
  {
    var t, f, g := Run(s, actions), Over(m, x => x == k), Over(m, x => DayOf(x) == k);
    MeasuresAddUp(m, x => x == k);
    DailyIsHourly(s, actions, f);
    FollowsAlways(s, actions);
    TableIsIncrements(t, Day, f);
    RowIsSum(t.db.daily, k, m);
    forall x: Entry ensures ByDay(f)(x) == g(x) {}
    SumsAgree(RowEntries(t.db.hourly), ByDay(f), g);
  }

  lemma {:induction false} SumsAgree(es: seq<Entry>, f: Entry -> int, g: Entry -> int)
    requires forall x :: f(x) == g(x)
    ensures SumOf(es, f) == SumOf(es, g)
  {
    if es != [] { SumsAgree(es[..|es| - 1], f, g); }
  }

  // ----- the increments are the events counted -----

  lemma IncrementsOfMore(applied: seq<Keyed<Key>>, counted: seq<UsageEvent>, more: seq<UsageEvent>, u: Unit,
      f: Entry -> int)
    requires Additive(f) && SumOf(GroupEntries(applied, u), f) == SumOf(EventEntries(counted, u), f)
    ensures SumOf(GroupEntries(applied + GroupBy(HourKey(), more), u), f) == SumOf(EventEntries(counted + more, u), f)
  {
    GroupSumsConcat(applied, GroupBy(HourKey(), more), u, f);
    SumEventsConcat(counted, more, u, f);
    GroupingIsASum(more, u, f);
  }

  lemma GroupSumsConcat(a: seq<Keyed<Key>>, b: seq<Keyed<Key>>, u: Unit, f: Entry -> int)
    ensures SumOf(GroupEntries(a + b, u), f) == SumOf(GroupEntries(a, u), f) + SumOf(GroupEntries(b, u), f)
  {
    assert GroupEntries(a + b, u) == GroupEntries(a, u) + GroupEntries(b, u);
    SumConcat(GroupEntries(a, u), GroupEntries(b, u), f);
  }

  lemma HistoryStep(s: State, a: Action)
    ensures var t := Step(s, a);
      || (t.counted == s.counted && t.applied == s.applied)
      || exists more :: t.counted == s.counted + more && t.applied == s.applied + GroupBy(HourKey(), more)
  {
    if Enabled(s, a) && a.CommitBatch? {
      var more := CountedBy(s.db, Batch(s, a.w));
      assert Step(s, a).counted == s.counted + more;
    }
  }

  lemma IncrementsKept(s: State, a: Action, u: Unit, f: Entry -> int)
    requires Additive(f) && SumOf(GroupEntries(s.applied, u), f) == SumOf(EventEntries(s.counted, u), f)
    ensures SumOf(GroupEntries(Step(s, a).applied, u), f) == SumOf(EventEntries(Step(s, a).counted, u), f)
  {
    var t := Step(s, a);
    HistoryStep(s, a);
    if !(t.counted == s.counted && t.applied == s.applied) {
      var more :| t.counted == s.counted + more && t.applied == s.applied + GroupBy(HourKey(), more);
      IncrementsOfMore(s.applied, s.counted, more, u, f);
    }
  }

  lemma {:induction false} IncrementsAlways(s: State, actions: seq<Action>, u: Unit, f: Entry -> int)
    requires Initial(s) && Additive(f)
    ensures SumOf(GroupEntries(Run(s, actions).applied, u), f) == SumOf(EventEntries(Run(s, actions).counted, u), f)
  {
    if actions != [] {
      IncrementsAlways(s, actions[..|actions| - 1], u, f);
      IncrementsKept(Run(s, actions[..|actions| - 1]), actions[|actions| - 1], u, f);
    }
  }

  // ----- events counted against events stored -----

  /** Batch elements are distinct unless they are stored already. */
  ghost predicate NoNewTwice(rows: seq<UsageEvent>, batch: seq<UsageEvent>) {
    forall i, j :: 0 <= i < j < |batch| && batch[i] == batch[j] ==> batch[i] in rows
  }

  /** The two conditions on a commit: no unstored event twice in the batch, and none that retention has deleted. */
  ghost predicate Careful(s: State, a: Action) {
    Enabled(s, a) && a.CommitBatch? ==>
      && NoNewTwice(s.db.rows, Batch(s, a.w))
      && forall e :: e in Batch(s, a.w) && e in s.purged ==> e in s.db.rows
  }

  ghost predicate CarefulRun(s: State, actions: seq<Action>) {
    actions == []
      || (CarefulRun(s, actions[..|actions| - 1]) && Careful(Run(s, actions[..|actions| - 1]), actions[|actions| - 1]))
  }

  ghost predicate NoDup(events: seq<UsageEvent>) { forall e :: multiset(events)[e] <= 1 }

  /** Every row ever stored is another event, and exactly the stored rows were counted. */
  ghost predicate Exact(s: State) { |s.counted| == |s.Stored()| && NoDup(s.Stored()) }

  lemma {:induction false} CountedCovers(rows: seq<UsageEvent>, batch: seq<UsageEvent>, ids: set<string>, n: nat)
    requires n <= |batch| && forall i :: 0 <= i < n && New(rows, batch, i) ==> batch[i].id in ids
    ensures multiset(Inserted(rows, batch[..n])) <= multiset(Fresh(ids, batch[..n]))
  {
    if n == 0 {
      assert batch[..0] == [];
    } else {
      hide Fresh, Inserted;
      CountedCovers(rows, batch, ids, n - 1);
      InsertedNext(rows, batch, n - 1);
      FreshNext(ids, batch, n - 1);
      CoversNext(Inserted(rows, batch[..n - 1]), Fresh(ids, batch[..n - 1]), batch[n - 1], New(rows, batch, n - 1),
        batch[n - 1].id in ids);
    }
  }

  lemma CoversNext<T>(a: seq<T>, b: seq<T>, e: T, inA: bool, inB: bool)
    requires multiset(a) <= multiset(b) && (inA ==> inB)
    ensures multiset(a + if inA then [e] else []) <= multiset(b + if inB then [e] else [])
  {
    AppendCovers(a, b, e);
    assert a + [] == a && b + [] == b;
  }

  /** With identical copies, a primary key identifies an event. */
  lemma PkIsEvent(s: State, rows: seq<UsageEvent>, e: UsageEvent)
    requires Copies(s) && e in s.gateway.emitted && forall f :: f in rows ==> f in s.gateway.emitted
    ensures HasPk(rows, e) <==> e in rows
  {
    if HasPk(rows, e) {
      var i :| 0 <= i < |rows| && SamePk(rows[i], e);
      assert rows[i] == e;
    }
    if e in rows {
      MemberHasPk(rows, e);
    }
  }

  /** Batch position i is inserted exactly when its event is neither stored nor earlier in the batch. */
  lemma NewMeans(s: State, batch: seq<UsageEvent>, i: nat)
    requires Copies(s) && i < |batch| && forall e :: e in batch ==> e in s.gateway.emitted
    ensures New(s.db.rows, batch, i) <==> batch[i] !in s.db.rows && batch[i] !in batch[..i]
  {
    forall e | e in s.db.rows ensures e in s.gateway.emitted { assert e in s.Stored(); }
    forall e | e in batch[..i] ensures e in s.gateway.emitted { assert e in batch; }
    PkIsEvent(s, s.db.rows, batch[i]);
    PkIsEvent(s, batch[..i], batch[i]);
  }

  lemma FirstOccurrence(batch: seq<UsageEvent>, e: UsageEvent) returns (i: nat)
    requires e in batch
    ensures i < |batch| && batch[i] == e && e !in batch[..i]
  {
    i := 0;
    while batch[i] != e
      invariant i < |batch| && e !in batch[..i] && e in batch[i..]
      decreases |batch| - i
    {
      i := i + 1;
    }
  }

  /** For identical copies the fresh filter is right exactly when no unstored event occurs twice in the batch. */
  lemma CleanMeans(s: State, batch: seq<UsageEvent>)
    requires Copies(s) && forall e :: e in batch ==> e in s.gateway.emitted
    ensures Clean(s.db.rows, batch) <==> NoNewTwice(s.db.rows, batch)
  {
    var rows := s.db.rows;
    forall i | 0 <= i < |batch| ensures New(rows, batch, i) <==> batch[i] !in rows && batch[i] !in batch[..i] {
      NewMeans(s, batch, i);
    }
    if Clean(rows, batch) {
      forall i, j | 0 <= i < j < |batch| && batch[i] == batch[j] ensures batch[i] in rows {
        var i' := FirstOccurrence(batch, batch[i]);
        assert batch[j] in batch[..j];
      }
    }
    if NoNewTwice(rows, batch) {
      forall i, j | 0 <= i < |batch| && 0 <= j < |batch| && batch[i].id == batch[j].id && New(rows, batch, i)
        ensures New(rows, batch, j) {
        assert batch[i] == batch[j] && batch[i] in batch;
      }
    }
  }

  /** What a commit counts covers what it inserts, and is no more exactly when no unstored event occurs twice. */
  lemma CommitCounts(s: State, w: nat)
    requires Copies(s) && Ready(s, w)
    ensures var batch := Batch(s, w);
      var inserted, more := Inserted(s.db.rows, batch), CountedBy(s.db, batch);
      && multiset(inserted) <= multiset(more) && |more| >= |inserted|
      && (|more| == |inserted| <==> NoNewTwice(s.db.rows, batch))
  {
    var batch := Batch(s, w);
    BatchIsEmitted(s, w);
    CountedExactlyWhenClean(s.db.rows, batch);
    CleanMeans(s, batch);
    assert batch[..|batch|] == batch;
    forall i | 0 <= i < |batch| && New(s.db.rows, batch, i) ensures batch[i].id in Ids(Inserted(s.db.rows, batch)) {
      InsertedIds(s.db.rows, batch, |batch|, batch[i].id);
    }
    CountedCovers(s.db.rows, batch, Ids(Inserted(s.db.rows, batch)), |batch|);
  }

  lemma {:induction false} InsertedOnce(rows: seq<UsageEvent>, batch: seq<UsageEvent>)
    ensures NoDup(Inserted(rows, batch))
  {
    if batch != [] {
      var before, e := Inserted(rows, batch[..|batch| - 1]), batch[|batch| - 1];
      InsertedOnce(rows, batch[..|batch| - 1]);
      if e in before { MemberHasPk(before, e); }
    }
  }

  lemma MemberHasPk(rows: seq<UsageEvent>, e: UsageEvent)
    requires e in rows
    ensures HasPk(rows, e)
  {
    var i :| 0 <= i < |rows| && rows[i] == e;
    assert SamePk(rows[i], e);
  }

  /** With identical copies, the events of the batch that are not stored are inserted. */
  lemma InsertedMeans(s: State, w: nat, e: UsageEvent)
    requires Copies(s) && Ready(s, w)
    ensures e in Inserted(s.db.rows, Batch(s, w)) <==> e in Batch(s, w) && e !in s.db.rows
  {
    var rows, batch := s.db.rows, Batch(s, w);
    var inserted := Inserted(rows, batch);
    BatchIsEmitted(s, w);
    InsertedAreOfTheBatch(rows, batch);
    forall f | f in rows ensures f in s.gateway.emitted { assert f in s.Stored(); }
    if e in batch {
      PkIsEvent(s, rows, e);
      PkIsEvent(s, rows + inserted, e);
      StoresTheBatch(rows, batch, e);
    }
  }

  lemma CommitStores(s: State, w: nat)
    requires Ready(s, w)
    ensures var inserted, t := Inserted(s.db.rows, Batch(s, w)), Committed(s, w);
      multiset(t.Stored()) == multiset(s.Stored()) + multiset(inserted) && |t.Stored()| == |s.Stored()| + |inserted|
  {
    CommitRows(s.db, Batch(s, w));
  }

  /** A commit stores no event twice unless one was before, or retention deleted one that the batch brings back. */
  lemma CommitDuplicates(s: State, w: nat)
    requires Copies(s) && Ready(s, w)
    ensures NoDup(Committed(s, w).Stored()) <==>
            NoDup(s.Stored()) && forall e :: e in Batch(s, w) && e in s.purged ==> e in s.db.rows
  {
    var inserted, t := Inserted(s.db.rows, Batch(s, w)), Committed(s, w);
    CommitStores(s, w);
    InsertedOnce(s.db.rows, Batch(s, w));
    forall e ensures e in inserted <==> e in Batch(s, w) && e !in s.db.rows { InsertedMeans(s, w, e); }
    assert multiset(s.Stored()) == multiset(s.db.rows) + multiset(s.purged);
    if NoDup(t.Stored()) {
      forall e ensures multiset(s.Stored())[e] <= 1 { assert multiset(t.Stored())[e] <= 1; }
      forall e | e in Batch(s, w) && e in s.purged ensures e in s.db.rows {
        assert multiset(t.Stored())[e] <= 1 && e in multiset(s.purged);
        assert e in inserted ==> e in multiset(inserted);
      }
    }
    if NoDup(s.Stored()) && forall e :: e in Batch(s, w) && e in s.purged ==> e in s.db.rows {
      forall e ensures multiset(t.Stored())[e] <= 1 {
        if e in inserted {
          assert e !in s.db.rows && e !in s.purged;
          assert e !in multiset(s.db.rows) && e !in multiset(s.purged);
        } else {
          assert e !in multiset(inserted);
        }
      }
    }
  }

  lemma {:induction false} FreshMeans(ids: set<string>, batch: seq<UsageEvent>, e: UsageEvent)
    ensures e in Fresh(ids, batch) <==> e in batch && e.id in ids
  {
    if batch != [] {
      var init, last := batch[..|batch| - 1], batch[|batch| - 1];
      FreshMeans(ids, init, e);
      assert batch == init + [last];
    }
  }

  /** With identical copies, what a commit counts is stored: an event that shares the id of an inserted one is it. */
  lemma CountedIsKept(s: State, w: nat, e: UsageEvent)
    requires Copies(s) && Ready(s, w) && e in CountedBy(s.db, Batch(s, w))
    ensures e in Inserted(s.db.rows, Batch(s, w))
  {
    var batch := Batch(s, w);
    var inserted := Inserted(s.db.rows, batch);
    FreshMeans(Ids(inserted), batch, e);
    InsertedAreOfTheBatch(s.db.rows, batch);
    BatchIsEmitted(s, w);
    var i :| 0 <= i < |inserted| && inserted[i].id == e.id;
    assert inserted[i] in batch && e in batch;
  }

  ghost predicate OnlyStored(s: State) { forall e :: e in s.counted ==> e in s.Stored() }

  lemma OnlyStoredKept(s: State, a: Action)
    requires Copies(s) && OnlyStored(s)
    ensures OnlyStored(Step(s, a))
  {
    if Enabled(s, a) {
      match a
      case CommitBatch(w) =>
        forall e | e in CountedBy(s.db, Batch(s, w)) ensures e in Inserted(s.db.rows, Batch(s, w)) {
          CountedIsKept(s, w, e);
        }
        CommitRows(s.db, Batch(s, w));
      case Purge(row) =>
        PurgeKeeps(s, row);
      case _ =>
        OtherTally(s, a);
    }
  }

  /** In every run, only events that were stored are counted. */
  lemma {:induction false} OnlyStoredAlways(s: State, actions: seq<Action>)
    requires Initial(s)
    ensures OnlyStored(Run(s, actions))
  {
    if actions != [] {
      OnlyStoredAlways(s, actions[..|actions| - 1]);
      Pipeline.InvAlways(s, actions[..|actions| - 1]);
      OnlyStoredKept(Run(s, actions[..|actions| - 1]), actions[|actions| - 1]);
    }
  }

  /** Nothing stored goes uncounted. */
  ghost predicate Covered(s: State) { multiset(s.Stored()) <= multiset(s.counted) }

  lemma CommitTally(s: State, w: nat)
    requires Copies(s) && Covered(s) && Enabled(s, CommitBatch(w))
    ensures Covered(Committed(s, w)) && (Exact(Committed(s, w)) <==> Exact(s) && Careful(s, CommitBatch(w)))
  {
    CommitCounts(s, w);
    CommitStores(s, w);
    CommitDuplicates(s, w);
    var more := CountedBy(s.db, Batch(s, w));
    assert multiset(s.counted + more) == multiset(s.counted) + multiset(more);
    assert |multiset(s.Stored())| <= |multiset(s.counted)| by {
      SmallerMultiset(multiset(s.Stored()), multiset(s.counted));
    }
  }

  lemma SmallerMultiset<T>(a: multiset<T>, b: multiset<T>)
    requires a <= b
    ensures |a| <= |b| && (|a| == |b| ==> a == b)
  {
    assert b == a + (b - a);
    if |a| == |b| { assert b - a == multiset{}; }
  }

  /** A state is exact after a step if and only if it was and the step was careful. */
  lemma TallyKept(s: State, a: Action)
    requires Copies(s) && Covered(s)
    ensures Covered(Step(s, a)) && (Exact(Step(s, a)) <==> Exact(s) && Careful(s, a))
  {
    if Enabled(s, a) {
      match a
      case CommitBatch(w) =>
        CommitTally(s, w);
      case Purge(row) =>
        PurgeKeeps(s, row);
      case _ =>
        OtherTally(s, a);
    }
  }

  lemma OtherTally(s: State, a: Action)
    requires Enabled(s, a) && !a.CommitBatch? && !a.Purge?
    ensures Step(s, a).Stored() == s.Stored() && Step(s, a).counted == s.counted
  {}

  lemma {:induction false} TallyAlways(s: State, actions: seq<Action>)
    requires Initial(s)
    ensures Covered(Run(s, actions)) && (Exact(Run(s, actions)) <==> CarefulRun(s, actions))
  {
    if actions != [] {
      TallyAlways(s, actions[..|actions| - 1]);
      Pipeline.InvAlways(s, actions[..|actions| - 1]);
      TallyKept(Run(s, actions[..|actions| - 1]), actions[|actions| - 1]);
    }
  }

  // ----- the main results -----

  predicate AnyKey(k: Key) { true }

  lemma RequestIsOne(e: UsageEvent, u: Unit)
    ensures Over(Requests, AnyKey)(EntryOf(e, u)) == 1
  {
    var x := EntryOf(e, u);
    assert Get(x.total, Requests) == 1;
    EveryKey(x, Requests);
  }

  lemma EveryKey(x: Entry, m: Measure)
    ensures Over(m, AnyKey)(x) == Get(x.total, m)
  {
    var q: Key -> bool := AnyKey;
    assert q(x.key) == AnyKey(x.key);
  }

  lemma {:induction false} RequestsAreEvents(events: seq<UsageEvent>, u: Unit)
    ensures SumOf(EventEntries(events, u), Over(Requests, AnyKey)) == |events|
  {
    if events != [] {
      var init := events[..|events| - 1];
      RequestsAreEvents(init, u);
      assert EventEntries(events, u)[..|init|] == EventEntries(init, u);
      RequestIsOne(events[|init|], u);
    }
  }

  /** The counts of the tables are the counts of the events counted, over any choice of buckets. */
  lemma TableCounts(s: State, actions: seq<Action>, u: Unit, m: Measure, q: Key -> bool)
    requires Initial(s) && m != Cost
    ensures var t := Run(s, actions);
      SumOf(RowEntries(TableOf(t, u)), Over(m, q)) == SumOf(EventEntries(t.counted, u), Over(m, q))
  {
    var t := Run(s, actions);
    FollowsAlways(s, actions);
    MeasuresAddUp(m, q);
    TableIsIncrements(t, u, Over(m, q));
    CountMeasures(m, q);
    RoundingKeepsCounts(t.applied, u, Over(m, q));
    IncrementsAlways(s, actions, u, Over(m, q));
  }

  /**
   * Over every run: a table's requests number the rows ever stored, and those are all different events, if and only
   * if no commit had an unstored event twice in its batch or brought back a row that retention had deleted.
   * Otherwise the table counts too much, never too little.
   */
  lemma ExactIffCareful(s: State, actions: seq<Action>, u: Unit)
    requires Initial(s)
    ensures var t := Run(s, actions);
      var requests := SumOf(RowEntries(TableOf(t, u)), Over(Requests, AnyKey));
      && (requests == |t.Stored()| && NoDup(t.Stored()) <==> CarefulRun(s, actions))
      && requests >= |t.Stored()|
  {
    var t := Run(s, actions);
    TallyAlways(s, actions);
    TableCounts(s, actions, u, Requests, AnyKey);
    RequestsAreEvents(t.counted, u);
    SmallerMultiset(multiset(t.Stored()), multiset(t.counted));
  }

  /** In a careful run the events counted are the events stored. */
  lemma CountedIsStored(s: State, actions: seq<Action>, u: Unit, f: Entry -> int)
    requires Initial(s) && CarefulRun(s, actions)
    ensures var t := Run(s, actions);
      NoDup(t.Stored()) && SumOf(EventEntries(t.counted, u), f) == SumOf(EventEntries(t.Stored(), u), f)
  {
    var t := Run(s, actions);
    TallyAlways(s, actions);
    SmallerMultiset(multiset(t.Stored()), multiset(t.counted));
    SumIgnoresOrder(t.counted, t.Stored(), u, f);
  }

  /** What one event adds to a count column. */
  function ColumnOf(e: UsageEvent, m: Measure): int
    requires m != Cost
  {
    match m
    case Requests => 1
    case Errors => if e.status == OK then 0 else 1
    case InputTokens => e.inputTokens
    case OutputTokens => e.outputTokens
    case CacheReadTokens => e.cacheReadTokens
    case CacheWriteTokens => e.cacheWriteTokens
    case ReasoningTokens => e.reasoningTokens
    case LatencyMsSum => e.latencyMs
    case LatencyCount => 1
  }

  /** SELECT SUM(column) over raw events whose hour or day and dimensions are those of k. */
  function SumFor(events: seq<UsageEvent>, u: Unit, k: Key, m: Measure): int
    requires m != Cost
  {
    if events == [] then 0
    else
      var e := events[|events| - 1];
      SumFor(events[..|events| - 1], u, k, m) + if KeyOf(e, u) == k then ColumnOf(e, m) else 0
  }

  lemma EntryReads(e: UsageEvent, u: Unit, k: Key, m: Measure)
    requires m != Cost
    ensures Over(m, x => x == k)(EntryOf(e, u)) == if KeyOf(e, u) == k then ColumnOf(e, m) else 0
  {
    hide Cost8, KeyOf;
    var q: Key -> bool, x := x => x == k, EntryOf(e, u);
    assert x.key == KeyOf(e, u) && x.total == TotalOf(e);
    assert Get(TotalOf(e), m) == ColumnOf(e, m);
  }

  lemma {:induction false} EntriesRead(events: seq<UsageEvent>, u: Unit, k: Key, m: Measure)
    requires m != Cost
    ensures SumOf(EventEntries(events, u), Over(m, x => x == k)) == SumFor(events, u, k, m)
  {
    if events != [] {
      hide EntryOf, SumOf, EventEntries;
      EntriesRead(events[..|events| - 1], u, k, m);
      EntryReads(events[|events| - 1], u, k, m);
      LastEvent(events, u, Over(m, x => x == k));
    }
  }

  lemma LastEvent(events: seq<UsageEvent>, u: Unit, f: Entry -> int)
    requires events != []
    ensures SumOf(EventEntries(events, u), f) == SumOf(EventEntries(events[..|events| - 1], u), f)
      + f(EntryOf(events[|events| - 1], u))
  {
    hide EntryOf;
    assert EventEntries(events, u)[..|events| - 1] == EventEntries(events[..|events| - 1], u);
  }

  lemma RowHoldsCounted(s: State, actions: seq<Action>, u: Unit, k: Key, m: Measure)
    requires Initial(s) && m != Cost
    ensures var t := Run(s, actions);
      Get(RowTotal(TableOf(t, u), k), m) == SumOf(EventEntries(t.counted, u), Over(m, x => x == k))
  {
    hide SumOf, EventEntries;
    var t := Run(s, actions);
    TableCounts(s, actions, u, m, x => x == k);
    FollowsAlways(s, actions);
    MeasuresAddUp(m, x => x == k);
    TableIsIncrements(t, u, Over(m, x => x == k));
    RowIsSum(TableOf(t, u), k, m);
  }

  /**
   * In every careful run each count and token measure of every row is the sum over the stored events of its key, each
   * once.
   */
  lemma RowsAreExact(s: State, actions: seq<Action>, u: Unit, k: Key, m: Measure)
    requires Initial(s) && CarefulRun(s, actions) && m != Cost
    ensures var t := Run(s, actions);
      NoDup(t.Stored()) && Get(RowTotal(TableOf(t, u), k), m) == SumFor(t.Stored(), u, k, m)
  {
    hide SumOf, EventEntries, SumFor, CarefulRun;
    RowHoldsCounted(s, actions, u, k, m);
    CountedIsStored(s, actions, u, Over(m, x => x == k));
    EntriesRead(Run(s, actions).Stored(), u, k, m);
  }

  /** How many increments a bucket, or a choice of buckets, has received. */
  ghost function Increments(t: State, u: Unit, q: Key -> bool): int { SumOf(GroupEntries(t.applied, u), Hits(q)) }

  /** Over any choice of buckets the cost of a table is off by at most 5e-7 USD (50 units of 1e-8) per increment. */
  lemma CostWithinBound(s: State, actions: seq<Action>, u: Unit, q: Key -> bool)
    requires Initial(s) && CarefulRun(s, actions)
    ensures var t := Run(s, actions);
      var n, rollup := Increments(t, u, q), SumOf(RowEntries(TableOf(t, u)), Over(Cost, q));
      var raw := SumOf(EventEntries(t.Stored(), u), Over(Cost, q));
      -50 * n <= 100 * rollup - raw <= 50 * n
  {
    var t, f := Run(s, actions), Over(Cost, q);
    MeasuresAddUp(Cost, q);
    FollowsAlways(s, actions);
    TableIsIncrements(t, u, f);
    IncrementsAlways(s, actions, u, f);
    CountedIsStored(s, actions, u, f);
    RoundingDrift(t.applied, u, q);
  }
}
