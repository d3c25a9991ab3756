/** What one commit means for the rollup tables: exact sums, rounding, and when a batch is counted right. */
module LedgerLaws {
  import opened Wrappers
  import opened Events
  import opened Rollups
  import opened Ledger

  // ----- tables as sums -----

  lemma UpsertSums(table: seq<Row>, k: Key, teamId: Option<string>, t: Total, f: Entry -> int)
    requires Additive(f)
    ensures SumOf(RowEntries(Upsert(table, k, teamId, t)), f) == SumOf(RowEntries(table), f) + f(Entry(k, t))
  {
    var i, es := RowPosition(table, k), RowEntries(table);
    var after := Upsert(table, k, teamId, t);
    if i < |table| {
      assert RowEntries(after) == es[i := Entry(k, table[i].total.Plus(t))];
      SumUpdate(es, i, Entry(k, table[i].total.Plus(t)), f);
    } else {
      assert RowEntries(after) == es + [Entry(k, t)];
      SumAppend(es, Entry(k, t), f);
    }
  }

  /** The increments as the tables store them. */
  function RoundedEntries(groups: seq<Keyed<Key>>, u: Unit): seq<Entry> {
    seq(|groups|, i requires 0 <= i < |groups| => Entry(groups[i].group.Bucket(u), Rounded(groups[i].group.total)))
  }

  /** A table is the sum of its increments, in every additive measure. */
  lemma {:induction false} UpsertAllSums(table: seq<Row>, groups: seq<Keyed<Key>>, u: Unit, f: Entry -> int)
    requires Additive(f)
    ensures SumOf(RowEntries(UpsertAll(table, groups, u)), f) == SumOf(RowEntries(table), f)
      + SumOf(RoundedEntries(groups, u), f)
  {
    if groups != [] {
      hide Upsert, RowEntries, RoundedEntries, Rounded;
      var init, g := groups[..|groups| - 1], groups[|groups| - 1].group;
      UpsertAllSums(table, init, u, f);
      UpsertSums(UpsertAll(table, init, u), g.Bucket(u), g.teamId, Rounded(g.total), f);
      RoundedNext(groups, u, f);
    }
  }

  lemma RoundedNext(groups: seq<Keyed<Key>>, u: Unit, f: Entry -> int)
    requires groups != []
    ensures var init, g := groups[..|groups| - 1], groups[|groups| - 1].group;
      SumOf(RoundedEntries(groups, u), f) == SumOf(RoundedEntries(init, u), f) + f(Entry(g.Bucket(u), Rounded(g.total)))
  {
    assert RoundedEntries(groups, u)[..|groups| - 1] == RoundedEntries(groups[..|groups| - 1], u);
  }

  lemma {:induction false} UpsertAllConcat(table: seq<Row>, a: seq<Keyed<Key>>, b: seq<Keyed<Key>>, u: Unit)
    ensures UpsertAll(table, a + b, u) == UpsertAll(UpsertAll(table, a, u), b, u)
  {
    if b == [] {
      assert a + b == a;
    } else {
      assert (a + b)[..|a + b| - 1] == a + b[..|b| - 1];
      UpsertAllConcat(table, a, b[..|b| - 1], u);
    }
  }

  /** Upserts keep one row per key. */
  lemma {:induction false} RowsStayDistinct(table: seq<Row>, groups: seq<Keyed<Key>>, u: Unit)
    requires DistinctRows(table)
    ensures DistinctRows(UpsertAll(table, groups, u))
  {
    if groups != [] { RowsStayDistinct(table, groups[..|groups| - 1], u); }
  }

  /** The totals stored under a key; nothing when there is no row. */
  function RowTotal(table: seq<Row>, k: Key): Total {
    var i := RowPosition(table, k);
    if i < |table| then table[i].total else NOTHING
  }

  /** With one row per key, a row holds the sum over its key. */
  lemma {:induction false} RowIsSum(table: seq<Row>, k: Key, m: Measure)
    requires DistinctRows(table)
    ensures SumOf(RowEntries(table), Over(m, x => x == k)) == Get(RowTotal(table, k), m)
  {
    var f := Over(m, x => x == k);
    if table == [] {
      GetPlus(NOTHING, NOTHING, m);
    } else {
      var init, last := table[..|table| - 1], table[|table| - 1];
      RowIsSum(init, k, m);
      assert RowEntries(table)[..|init|] == RowEntries(init);
      assert RowEntries(table)[|init|] == Entry(last.key, last.total);
      RowPositionInit(table, k);
    }
  }

  lemma {:induction false} RowPositionInit(table: seq<Row>, k: Key)
    requires table != [] && DistinctRows(table)
    ensures var init, last := table[..|table| - 1], table[|table| - 1];
      && (last.key == k ==> RowTotal(table, k) == last.total && RowTotal(init, k) == NOTHING)
      && (last.key != k ==> RowTotal(table, k) == RowTotal(init, k))
  {
    var init := table[..|table| - 1];
    var p, p' := RowPosition(table, k), RowPosition(init, k);
    assert forall i :: 0 <= i < |init| ==> init[i] == table[i];
    if table[|table| - 1].key == k { assert table[p].key == k; }
  }

  // ----- the two tables -----

  function DayOf(k: Key): Key { Key(TruncateUtc(k.bucket, Day), k.dims) }

  /** A measure of days, taken over hours. */
  function ByDay(f: Entry -> int): Entry -> int { (x: Entry) => f(Entry(DayOf(x.key), x.total)) }

  ghost predicate DaysFollowHours(groups: seq<Keyed<Key>>) {
    forall i :: 0 <= i < |groups| ==> groups[i].group.day == TruncateUtc(groups[i].group.hour, Day)
  }

  /** Both tables receive the same rounded increment, the day one under the day of the hour. */
  lemma {:induction false} DayIncrementsFollowHours(groups: seq<Keyed<Key>>, f: Entry -> int)
    requires DaysFollowHours(groups)
    ensures SumOf(RoundedEntries(groups, Day), f) == SumOf(RoundedEntries(groups, Hour), ByDay(f))
  {
    if groups != [] {
      var init, g := groups[..|groups| - 1], groups[|groups| - 1].group;
      DayIncrementsFollowHours(init, f);
      assert RoundedEntries(groups, Day)[..|init|] == RoundedEntries(init, Day);
      assert RoundedEntries(groups, Hour)[..|init|] == RoundedEntries(init, Hour);
      assert DayOf(g.Bucket(Hour)) == g.Bucket(Day);
      assert RoundedEntries(groups, Hour)[|init|] == Entry(g.Bucket(Hour), Rounded(g.total));
      assert RoundedEntries(groups, Day)[|init|] == Entry(g.Bucket(Day), Rounded(g.total));
    }
  }

  lemma ByDayIsAdditive(f: Entry -> int)
    requires Additive(f)
    ensures Additive(ByDay(f))
  {
    var g := ByDay(f);
    forall k, a: Total, b: Total ensures g(Entry(k, a.Plus(b))) == g(Entry(k, a)) + g(Entry(k, b)) {
      assert f(Entry(DayOf(k), a.Plus(b))) == f(Entry(DayOf(k), a)) + f(Entry(DayOf(k), b));
      assert Entry(k, a).key == k && Entry(k, b).key == k && Entry(k, a.Plus(b)).key == k;
    }
    forall k ensures g(Entry(k, NOTHING)) == 0 {
      assert f(Entry(DayOf(k), NOTHING)) == 0;
      assert Entry(k, NOTHING).key == k;
    }
  }

  // ----- rounding -----

  /** A measure that does not look at the cost. */
  ghost predicate CountsOnly(f: Entry -> int) {
    forall k, c, x, y {:trigger f(Entry(k, Total(c, x))), f(Entry(k, Total(c, y)))} ::
      f(Entry(k, Total(c, x))) == f(Entry(k, Total(c, y)))
  }

  lemma CountMeasures(m: Measure, q: Key -> bool)
    requires m != Cost
    ensures CountsOnly(Over(m, q))
  {
    var f := Over(m, q);
    forall k, c, x, y ensures f(Entry(k, Total(c, x))) == f(Entry(k, Total(c, y))) {
      assert Entry(k, Total(c, x)).key == k && Entry(k, Total(c, y)).key == k;
      assert Get(Total(c, x), m) == Get(Total(c, y), m);
    }
  }

  /** Rounding does not touch the counts. */
  lemma {:induction false} RoundingKeepsCounts(groups: seq<Keyed<Key>>, u: Unit, f: Entry -> int)
    requires CountsOnly(f)
    ensures SumOf(RoundedEntries(groups, u), f) == SumOf(GroupEntries(groups, u), f)
  {
    if groups != [] {
      var init, g := groups[..|groups| - 1], groups[|groups| - 1].group;
      RoundingKeepsCounts(init, u, f);
      assert RoundedEntries(groups, u)[..|init|] == RoundedEntries(init, u);
      assert GroupEntries(groups, u)[..|init|] == GroupEntries(init, u);
      assert f(Entry(g.Bucket(u), Rounded(g.total))) == f(Entry(g.Bucket(u), g.total)) by {
        assert g.total == Total(g.total.counts, g.total.cost);
        assert Rounded(g.total) == Total(g.total.counts, RoundTo6(g.total.cost));
      }
    }
  }

  /** How many entries fall into the buckets of q. */
  function Hits(q: Key -> bool): Entry -> int { (x: Entry) => if q(x.key) then 1 else 0 }

  /** The rounded cost strays from the exact one by at most half a unit of 1e-6 USD per increment. */
  lemma {:induction false} RoundingDrift(groups: seq<Keyed<Key>>, u: Unit, q: Key -> bool)
    ensures var exact, n := SumOf(GroupEntries(groups, u), Over(Cost, q)), SumOf(GroupEntries(groups, u), Hits(q));
      -50 * n <= 100 * SumOf(RoundedEntries(groups, u), Over(Cost, q)) - exact <= 50 * n
  {
    if groups != [] {
      var init, g := groups[..|groups| - 1], groups[|groups| - 1].group;
      RoundingDrift(init, u, q);
      RoundingError(g.total.cost);
      assert RoundedEntries(groups, u)[..|init|] == RoundedEntries(init, u);
      assert GroupEntries(groups, u)[..|init|] == GroupEntries(init, u);
      assert Over(Cost, q)(Entry(g.Bucket(u), Rounded(g.total))) ==
        if q(g.Bucket(u)) then RoundTo6(g.total.cost) else 0;
      assert Over(Cost, q)(Entry(g.Bucket(u), g.total)) == if q(g.Bucket(u)) then g.total.cost else 0;
      assert Hits(q)(Entry(g.Bucket(u), g.total)) == if q(g.Bucket(u)) then 1 else 0;
    }
  }

  // ----- which batches are counted right -----

  /** Event i of the batch is inserted: its key is neither stored nor earlier in the batch. */
  predicate New(rows: seq<UsageEvent>, batch: seq<UsageEvent>, i: nat)
    requires i < |batch|
  {
    !HasPk(rows, batch[i]) && !HasPk(batch[..i], batch[i])
  }

  /** A batch the fresh filter counts right: when one event of an id is inserted, so are all with that id. */
  ghost predicate Clean(rows: seq<UsageEvent>, batch: seq<UsageEvent>) {
    forall i, j :: 0 <= i < |batch| && 0 <= j < |batch| && batch[i].id == batch[j].id && New(rows, batch, i) ==>
      New(rows, batch, j)
  }

  lemma {:induction false} InsertedKeys(rows: seq<UsageEvent>, batch: seq<UsageEvent>, e: UsageEvent)
    requires !HasPk(rows, e)
    ensures HasPk(Inserted(rows, batch), e) <==> HasPk(batch, e)
  {
    if batch != [] {
      var init, last := batch[..|batch| - 1], batch[|batch| - 1];
      InsertedKeys(rows, init, e);
      assert batch == init + [last];
      HasPkConcat(init, [last], e);
      HasPkConcat(Inserted(rows, init), [last], e);
      OnePk(last, e);
      if SamePk(last, e) {
        SamePkMeans(rows, last, e);
        SamePkMeans(Inserted(rows, init), last, e);
      }
    }
  }

  lemma OnePk(last: UsageEvent, e: UsageEvent)
    ensures HasPk([last], e) <==> SamePk(last, e)
  {
    if SamePk(last, e) { assert SamePk([last][0], e); }
  }

  lemma SamePkMeans(rows: seq<UsageEvent>, e: UsageEvent, f: UsageEvent)
    requires SamePk(e, f)
    ensures HasPk(rows, e) <==> HasPk(rows, f)
  {
    if HasPk(rows, e) {
      var i :| 0 <= i < |rows| && SamePk(rows[i], e);
      assert SamePk(rows[i], f);
    }
    if HasPk(rows, f) {
      var i :| 0 <= i < |rows| && SamePk(rows[i], f);
      assert SamePk(rows[i], e);
    }
  }

  lemma InsertedNext(rows: seq<UsageEvent>, batch: seq<UsageEvent>, n: nat)
    requires n < |batch|
    ensures Inserted(rows, batch[..n + 1]) ==
      Inserted(rows, batch[..n]) + if New(rows, batch, n) then [batch[n]] else []
  {
    assert batch[..n + 1][..n] == batch[..n];
    if !HasPk(rows, batch[n]) { InsertedKeys(rows, batch[..n], batch[n]); }
  }

  lemma FreshNext(ids: set<string>, batch: seq<UsageEvent>, n: nat)
    requires n < |batch|
    ensures Fresh(ids, batch[..n + 1]) == Fresh(ids, batch[..n]) + if batch[n].id in ids then [batch[n]] else []
  {
    assert batch[..n + 1][..n] == batch[..n];
  }

  /** The first n events with an inserted id were all inserted themselves. */
  ghost predicate AgreeUpTo(rows: seq<UsageEvent>, batch: seq<UsageEvent>, ids: set<string>, n: nat)
    requires n <= |batch|
  {
    forall i :: 0 <= i < n && batch[i].id in ids ==> New(rows, batch, i)
  }

  lemma {:induction false} FreshAgainstInserted(rows: seq<UsageEvent>, batch: seq<UsageEvent>, ids: set<string>, n: nat)
    requires n <= |batch| && forall i :: 0 <= i < |batch| && New(rows, batch, i) ==> batch[i].id in ids
    ensures |Fresh(ids, batch[..n])| >= |Inserted(rows, batch[..n])|
    ensures |Fresh(ids, batch[..n])| == |Inserted(rows, batch[..n])| <==> AgreeUpTo(rows, batch, ids, n)
    ensures AgreeUpTo(rows, batch, ids, n) ==> Fresh(ids, batch[..n]) == Inserted(rows, batch[..n])
  {
    if n > 0 {
      FreshAgainstInserted(rows, batch, ids, n - 1);
      InsertedNext(rows, batch, n - 1);
      FreshNext(ids, batch, n - 1);
    }
  }

  /** The inserted ids are the ids of the new events. */
  lemma {:induction false} InsertedIds(rows: seq<UsageEvent>, batch: seq<UsageEvent>, n: nat, id: string)
    requires n <= |batch|
    ensures id in Ids(Inserted(rows, batch[..n])) <==>
      exists i :: 0 <= i < n && batch[i].id == id && New(rows, batch, i)
  {
    if n > 0 {
      InsertedIds(rows, batch, n - 1, id);
      InsertedNext(rows, batch, n - 1);
      var before := Inserted(rows, batch[..n - 1]);
      if New(rows, batch, n - 1) {
        IdsAppend(before, batch[n - 1]);
      } else {
        assert before + [] == before;
      }
    }
  }

  lemma IdsAppend(events: seq<UsageEvent>, e: UsageEvent)
    ensures Ids(events + [e]) == Ids(events) + {e.id}
  {
    var more := events + [e];
    assert forall i :: 0 <= i < |events| ==> more[i] == events[i];
    forall id ensures id in Ids(more) <==> id in Ids(events) || id == e.id {
      if id in Ids(events) {
        var i :| 0 <= i < |events| && events[i].id == id;
        assert more[i].id == id;
      }
      if id == e.id { assert more[|events|].id == id; }
    }
  }

  /**
   * persistBatch counts exactly the rows it inserts if and only if the batch is clean; otherwise it counts more.
   */
  lemma CountedExactlyWhenClean(rows: seq<UsageEvent>, batch: seq<UsageEvent>)
    ensures var inserted := Inserted(rows, batch);
      var counted := Fresh(Ids(inserted), batch);
      && (Clean(rows, batch) ==> counted == inserted)
      && (|counted| == |inserted| <==> Clean(rows, batch))
      && |counted| >= |inserted|
  {
    var ids := Ids(Inserted(rows, batch));
    assert batch[..|batch|] == batch;
    forall id ensures id in ids <==> exists i :: 0 <= i < |batch| && batch[i].id == id && New(rows, batch, i) {
      InsertedIds(rows, batch, |batch|, id);
    }
    FreshAgainstInserted(rows, batch, ids, |batch|);
  }

  /** What the pipeline can promise: ids occur once per batch, and a stored id is stored with the same instant. */
  lemma DistinctIdsAreClean(rows: seq<UsageEvent>, batch: seq<UsageEvent>)
    requires forall i, j :: 0 <= i < j < |batch| ==> batch[i].id != batch[j].id
    ensures Clean(rows, batch)
  {}

  /** Two copies of one new event in a batch are both counted though one row is stored. */
  lemma TwinCopiesCountTwice(e: UsageEvent)
    ensures Inserted([], [e, e]) == [e] && Fresh(Ids(Inserted([], [e, e])), [e, e]) == [e, e]
  {
    assert [e, e][..1] == [e] && [e][..0] == [];
    assert Inserted([], [e]) == [e];
    assert SamePk([e][0], e);
    assert e.id in Ids([e]) by { assert [e][0].id == e.id; }
    FreshTwins(Ids([e]), e);
  }

  lemma FreshTwins(ids: set<string>, e: UsageEvent)
    requires e.id in ids
    ensures Fresh(ids, [e, e]) == [e, e]
  {
    assert [e, e][..1] == [e] && [e][..0] == [];
    assert Fresh(ids, []) == [];
    assert Fresh(ids, [e]) == [e];
  }

  /** A copy of a stored event whose instant differs is stored, and so counted, a second time. */
  lemma ShiftedCopyCountsTwice(e: UsageEvent, later: int)
    requires later != e.occurredAt
    ensures var copy := e.(occurredAt := later); Inserted([e], [copy]) == [copy]
  {
    var copy := e.(occurredAt := later);
    assert [copy][..0] == [];
    assert !SamePk([e][0], copy);
  }
}
