/**
 * persistBatch (apps/worker/src/ingest/persist.ts): one transaction inserts the batch idempotently and adds
 * the rollup increments of what was inserted to the hourly and the daily table.
 */
module Ledger {
  import opened Wrappers
  import opened Money
  import opened Events
  import opened Rollups
  import opened Sequences

  // ----- the raw table -----

  /** Primary key (id, occurredAt). */
  predicate SamePk(e: UsageEvent, f: UsageEvent) { e.id == f.id && e.occurredAt == f.occurredAt }

  predicate HasPk(rows: seq<UsageEvent>, e: UsageEvent) { exists i :: 0 <= i < |rows| && SamePk(rows[i], e) }

  /** ON CONFLICT (id, occurredAt) DO NOTHING, value by value: the rows of the batch that are inserted. */
  function Inserted(rows: seq<UsageEvent>, batch: seq<UsageEvent>): seq<UsageEvent> {
    if batch == [] then []
    else
      var before, e := Inserted(rows, batch[..|batch| - 1]), batch[|batch| - 1];
      if HasPk(rows, e) || HasPk(before, e) then before else before + [e]
  }

  function Ids(events: seq<UsageEvent>): set<string> { set i | 0 <= i < |events| :: events[i].id }

  /** The events of the batch whose id is among the inserted ones. */
  function Fresh(ids: set<string>, batch: seq<UsageEvent>): seq<UsageEvent> {
    if batch == [] then []
    else
      var before, e := Fresh(ids, batch[..|batch| - 1]), batch[|batch| - 1];
      if e.id in ids then before + [e] else before
  }

  // ----- the rollup tables -----

  /** A row; the cost of its total is in 1e-6 USD. */
  datatype Row = Row(key: Key, teamId: Option<string>, total: Total)

  function RowEntries(table: seq<Row>): seq<Entry> {
    seq(|table|, i requires 0 <= i < |table| => Entry(table[i].key, table[i].total))
  }

  /** numeric(14,6): a cost in 1e-8 USD rounded half away from zero to 1e-6 USD. */
  function RoundTo6(cost8: int): int {
    if cost8 >= 0 then (cost8 + 50) / 100 else -((-cost8 + 50) / 100)
  }

  lemma RoundingError(cost8: int)
    ensures -50 <= 100 * RoundTo6(cost8) - cost8 <= 50
  {}

  function Rounded(t: Total): Total { t.(cost := RoundTo6(t.cost)) }

  function RowPosition(table: seq<Row>, k: Key): (i: nat)
    ensures i <= |table|
    ensures i < |table| ==> table[i].key == k
    ensures forall j :: 0 <= j < i ==> table[j].key != k
  {
    FirstWith(table, (row: Row) => row.key == k)
  }

  /** INSERT ... ON CONFLICT (key) DO UPDATE SET every measure = measure + EXCLUDED.measure; teamId stays. */
  function Upsert(table: seq<Row>, k: Key, teamId: Option<string>, t: Total): seq<Row> {
    var i := RowPosition(table, k);
    if i < |table| then table[i := Row(k, table[i].teamId, table[i].total.Plus(t))]
    else table + [Row(k, teamId, t)]
  }

  function UpsertAll(table: seq<Row>, groups: seq<Keyed<Key>>, u: Unit): seq<Row> {
    if groups == [] then table
    else
      var g := groups[|groups| - 1].group;
      Upsert(UpsertAll(table, groups[..|groups| - 1], u), g.Bucket(u), g.teamId, Rounded(g.total))
  }

  lemma UpsertNext(table: seq<Row>, groups: seq<Keyed<Key>>, n: nat, u: Unit)
    requires n < |groups|
    ensures var g := groups[n].group;
      UpsertAll(table, groups[..n + 1], u)
        == Upsert(UpsertAll(table, groups[..n], u), g.Bucket(u), g.teamId, Rounded(g.total))
  {
    assert groups[..n + 1][..n] == groups[..n];
  }

  /** The value list of the upsert: the counts, and the cost text cast to numeric and rounded by the column. */
  function StoredTotal(g: Increment): Total {
    match ParseDecimalScaled(g.costUsd, 8)
    case Ok(cost8) => Rounded(Total(g.counts, cost8))
    case Err => Total(g.counts, 0)
  }

  lemma StoredExactly(g: Group)
    ensures StoredTotal(ToIncrement(g)) == Rounded(g.total)
  {
    IncrementReadsBack(g);
  }

  ghost predicate DistinctRows(table: seq<Row>) {
    forall i, j :: 0 <= i < j < |table| ==> table[i].key != table[j].key
  }

  // ----- lastUsedAt -----

  /** touchVirtualKeys: lastUsedAt of an existing key moves forward to the latest event of the batch. */
  function Touch(lastUsed: map<string, Option<int>>, events: seq<UsageEvent>): map<string, Option<int>> {
    map k | k in lastUsed ::
      match Latest(events, k)
      case None => lastUsed[k]
      case Some(t) => if lastUsed[k].None? || lastUsed[k].value < t then Some(t) else lastUsed[k]
  }

  /** The latest occurredAt of a virtual key's events. */
  function Latest(events: seq<UsageEvent>, key: string): Option<int> {
    if events == [] then None
    else
      var before, e := Latest(events[..|events| - 1], key), events[|events| - 1];
      if e.virtualKeyId == key && (before.None? || e.occurredAt > before.value) then Some(e.occurredAt) else before
  }

  lemma {:induction false} LatestIsMaximum(events: seq<UsageEvent>, key: string)
    ensures var r := Latest(events, key);
      && (forall i :: 0 <= i < |events| && events[i].virtualKeyId == key ==> r.Some? && r.value >= events[i].occurredAt)
      && (r.Some? ==> exists i :: 0 <= i < |events| && events[i].virtualKeyId == key && events[i].occurredAt == r.value)
  {
    if events != [] {
      var init := events[..|events| - 1];
      LatestIsMaximum(init, key);
      assert forall i :: 0 <= i < |init| ==> events[i] == init[i];
    }
  }

  /** lastUsedAt never moves back, reaches every event of its key, and moves only to one of them. */
  lemma TouchMovesForward(lastUsed: map<string, Option<int>>, events: seq<UsageEvent>, key: string)
    requires key in lastUsed
    ensures var was, is_ := lastUsed[key], Touch(lastUsed, events)[key];
      && Touch(lastUsed, events).Keys == lastUsed.Keys
      && (was.Some? ==> is_.Some? && is_.value >= was.value)
      && (forall i :: 0 <= i < |events| && events[i].virtualKeyId == key ==>
        is_.Some? && is_.value >= events[i].occurredAt)
      && (is_ == was ||
          exists i :: 0 <= i < |events| && events[i].virtualKeyId == key && is_ == Some(events[i].occurredAt))
  {
    LatestIsMaximum(events, key);
  }

  // ----- the transaction -----

  datatype Tables = Tables(rows: seq<UsageEvent>, hourly: seq<Row>, daily: seq<Row>, lastUsed: map<string, Option<int>>)

  /** What a commit does once the insert has taken `inserted` rows. */
  function Apply(db: Tables, inserted: seq<UsageEvent>, batch: seq<UsageEvent>): Tables {
    var counted := Fresh(Ids(inserted), batch);
    var groups := GroupBy(HourKey(), counted);
    Tables(db.rows + inserted, UpsertAll(db.hourly, groups, Hour), UpsertAll(db.daily, groups, Day),
           Touch(db.lastUsed, counted))
  }

  /** A batch whose fresh events all have a readable cost; grouping throws on any other. */
  ghost predicate Readable(db: Tables, batch: seq<UsageEvent>) {
    AllPriced(Fresh(Ids(Inserted(db.rows, batch)), batch))
  }

  /** The state a successful persistBatch leaves. */
  function Commit(db: Tables, batch: seq<UsageEvent>): Tables {
    var inserted := Inserted(db.rows, batch);
    if inserted == [] then db else Apply(db, inserted, batch)
  }

  /** The INSERT's casts and constraints, and toISOString. */
  datatype Database = Database(accepts: UsageEvent -> bool, iso: int -> string) {
    /** Ids are cast to uuid, so accepted events hold no bar in them. */
    ghost predicate Sound() {
      IsoFormat(iso) && forall e :: accepts(e) ==> PlainIds(e)
    }
  }

  class UsageStore {
    const pg: Database
    var rows: seq<UsageEvent>
    var hourly: seq<Row>
    var daily: seq<Row>
    var lastUsed: map<string, Option<int>>

    ghost function Db(): Tables
      reads this
    {
      Tables(rows, hourly, daily, lastUsed)
    }

    constructor (pg: Database, lastUsed: map<string, Option<int>>)
      ensures this.pg == pg && Db() == Tables([], [], [], lastUsed)
    {
      this.pg, this.lastUsed := pg, lastUsed;
      rows, hourly, daily := [], [], [];
    }

    /** insertEvents; a value that fails a cast or a constraint throws. */
    method InsertEvents(events: seq<UsageEvent>) returns (r: Result<seq<UsageEvent>>)
      modifies this`rows
      ensures r.Ok? <==> forall i :: 0 <= i < |events| ==> pg.accepts(events[i])
      ensures r.Ok? ==> r.value == Inserted(old(rows), events) && rows == old(rows) + r.value
    {
      var inserted: seq<UsageEvent> := [];
      for n := 0 to |events|
        invariant forall i :: 0 <= i < n ==> pg.accepts(events[i])
        invariant inserted == Inserted(old(rows), events[..n]) && rows == old(rows) + inserted
      {
        var e := events[n];
        if !pg.accepts(e) { return Err; }
        assert events[..n + 1][..n] == events[..n];
        HasPkConcat(old(rows), inserted, e);
        if !HasPk(rows, e) {
          inserted := inserted + [e];
          rows := rows + [e];
        }
      }
      assert events[..|events|] == events;
      r := Ok(inserted);
    }

    /** touchVirtualKeys */
    method TouchVirtualKeys(events: seq<UsageEvent>)
      modifies this`lastUsed
      ensures lastUsed == Touch(old(lastUsed), events)
    {
      var latest: map<string, int> := map[];
      for n := 0 to |events|
        invariant forall k :: k in latest <==> Latest(events[..n], k).Some?
        invariant forall k :: k in latest ==> Latest(events[..n], k) == Some(latest[k])
      {
        var e := events[n];
        assert events[..n + 1][..n] == events[..n];
        if e.virtualKeyId !in latest || e.occurredAt > latest[e.virtualKeyId] {
          latest := latest[e.virtualKeyId := e.occurredAt];
        }
      }
      assert events[..|events|] == events;
      lastUsed := map k | k in lastUsed ::
        if k in latest && (lastUsed[k].None? || lastUsed[k].value < latest[k]) then Some(latest[k]) else lastUsed[k];
    }

    /** One increment goes into both tables, under its hour and under its day. */
    method UpsertBoth(inc: Increment, ghost g: Group)
      requires inc == ToIncrement(g)
      modifies this`hourly, this`daily
      ensures hourly == Upsert(old(hourly), g.Bucket(Hour), g.teamId, Rounded(g.total))
      ensures daily == Upsert(old(daily), g.Bucket(Day), g.teamId, Rounded(g.total))
    {
      StoredExactly(g);
      var total := StoredTotal(inc);
      hourly := Upsert(hourly, inc.Bucket(Hour), inc.teamId, total);
      daily := Upsert(daily, inc.Bucket(Day), inc.teamId, total);
    }

    /** The loop over increments. */
    method ApplyIncrements(increments: seq<Increment>, ghost groups: seq<Keyed<Key>>)
      requires increments == ToIncrements(groups)
      modifies this`hourly, this`daily
      ensures hourly == UpsertAll(old(hourly), groups, Hour) && daily == UpsertAll(old(daily), groups, Day)
    {
      for n := 0 to |increments|
        invariant hourly == UpsertAll(old(hourly), groups[..n], Hour)
        invariant daily == UpsertAll(old(daily), groups[..n], Day)
      {
        UpsertNext(old(hourly), groups, n, Hour);
        UpsertNext(old(daily), groups, n, Day);
        UpsertBoth(increments[n], groups[n].group);
      }
      assert groups[..|groups|] == groups;
    }

    /** persistBatch: on success the new state is Commit of the old one; when anything throws, nothing has changed. */
    method PersistBatch(events: seq<UsageEvent>) returns (r: Result<nat>)
      requires pg.Sound()
      modifies this
      ensures r.Ok? <==> (forall i :: 0 <= i < |events| ==> pg.accepts(events[i])) && Readable(old(Db()), events)
      ensures r.Ok? ==> Db() == Commit(old(Db()), events) && r.value == |Ids(Inserted(old(rows), events))|
      ensures r.Err? ==> Db() == old(Db())
    {
      if |events| == 0 { return Ok(0); }
      var snapshot := rows;
      var inserted := InsertEvents(events);
      if inserted.Err? {
        rows := snapshot;
        return Err;
      }
      var ids := Ids(inserted.value);
      if inserted.value == [] {
        NothingFresh(events);
        assert ids == {} && rows == old(rows);
        return Ok(0);
      }
      var counted := Fresh(ids, events);
      FreshIsPlain(pg, ids, events);
      var groups := GroupRollups(pg.iso, counted);
      if groups.Err? {
        rows := snapshot;
        return Err;
      }
      TextGroupsAreExact(pg.iso, counted);
      TouchVirtualKeys(counted);
      ApplyIncrements(groups.value, GroupBy(HourKey(), counted));
      return Ok(|ids|);
    }
  }

  lemma HasPkConcat(a: seq<UsageEvent>, b: seq<UsageEvent>, e: UsageEvent)
    ensures HasPk(a + b, e) <==> HasPk(a, e) || HasPk(b, e)
  {
    if HasPk(b, e) {
      var i :| 0 <= i < |b| && SamePk(b[i], e);
      assert (a + b)[|a| + i] == b[i];
    }
    if HasPk(a, e) {
      var i :| 0 <= i < |a| && SamePk(a[i], e);
      assert (a + b)[i] == a[i];
    }
  }

  lemma {:induction false} NothingFresh(batch: seq<UsageEvent>)
    ensures Fresh({}, batch) == []
  {
    if batch != [] { NothingFresh(batch[..|batch| - 1]); }
  }

  lemma {:induction false} FreshIsPlain(pg: Database, ids: set<string>, batch: seq<UsageEvent>)
    requires pg.Sound() && forall i :: 0 <= i < |batch| ==> pg.accepts(batch[i])
    ensures forall e :: e in Fresh(ids, batch) ==> PlainIds(e)
  {
    if batch != [] { FreshIsPlain(pg, ids, batch[..|batch| - 1]); }
  }
}
