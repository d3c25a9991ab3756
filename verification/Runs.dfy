/** Concrete runs of the pipeline, from an initial state, that reach the states in which a promise fails. */
module Runs {
  import opened Events
  import opened Rollups
  import opened Ledger
  import opened LedgerLaws
  import opened Pipeline
  import opened Exactness
  import opened Doubles
  import Money
  import Reconcile
  import G = Gateway

  ghost predicate OneWorker(s: State) { Initial(s) && s.workers == [Idle] && s.group == Present(0, {}) }

  lemma RunTwo(s: State, a: Action, b: Action)
    ensures Run(s, [a, b]) == Step(Step(s, a), b)
  {
    hide Step;
    RunNext(s, [], a);
    RunNext(s, [a], b);
    assert [a] + [b] == [a, b];
  }

  lemma RunThree(s: State, a: Action, b: Action, c: Action)
    ensures Run(s, [a, b, c]) == Step(Step(Step(s, a), b), c)
  {
    hide Step;
    RunTwo(s, a, b);
    RunNext(s, [a, b], c);
    assert [a, b] + [c] == [a, b, c];
  }

  // ----- stretches of a run -----

  function Publish(e: UsageEvent): seq<Action> { [Move(G.Emits(e)), Move(G.Sends(e))] }

  /** The entry lands, but the publish is retried. */
  function PublishTwice(e: UsageEvent): seq<Action> { [Move(G.Emits(e)), Move(G.Lands(e)), Move(G.Sends(e))] }

  const CONSUME := [Deliver(0, 1), CommitBatch(0), Ack(0)]

  ghost predicate NewId(s: State, e: UsageEvent) { forall f :: f in s.gateway.emitted ==> f.id != e.id }

  /** The same state apart from its gateway and its log. */
  ghost predicate Longer(s: State, t: State, e: UsageEvent, more: seq<Content>) {
    && t == s.(gateway := t.gateway, log := t.log) && t.log == s.log + more
    && t.gateway.emitted == s.gateway.emitted + multiset{e}
  }

  lemma EmitStep(s: State, e: UsageEvent)
    requires NewId(s, e)
    ensures Longer(s, Step(s, Move(G.Emits(e))), e, []) && e in Step(s, Move(G.Emits(e))).gateway.unsent
  {
    assert Enabled(s, Move(G.Emits(e)));
  }

  lemma SendStep(s: State, t: State, e: UsageEvent, more: seq<Content>)
    requires Longer(s, t, e, more) && e in t.gateway.unsent
    ensures Longer(s, Step(t, Move(G.Sends(e))), e, more + [Sent(e)])
    ensures Longer(s, Step(t, Move(G.Lands(e))), e, more + [Sent(e)]) && e in Step(t, Move(G.Lands(e))).gateway.unsent
  {
    assert Enabled(t, Move(G.Sends(e))) && Enabled(t, Move(G.Lands(e)));
    assert s.log + more + [Sent(e)] == s.log + (more + [Sent(e)]);
  }

  lemma Publishes(s: State, e: UsageEvent)
    requires NewId(s, e)
    ensures Longer(s, Run(s, Publish(e)), e, [Sent(e)])
  {
    hide Longer, Run, Step;
    EmitStep(s, e);
    SendStep(s, Step(s, Move(G.Emits(e))), e, []);
    RunTwo(s, Move(G.Emits(e)), Move(G.Sends(e)));
    assert [] + [Sent(e)] == [Sent(e)];
  }

  lemma PublishesTwice(s: State, e: UsageEvent)
    requires NewId(s, e)
    ensures Longer(s, Run(s, PublishTwice(e)), e, [Sent(e), Sent(e)])
  {
    hide Longer, Run, Step;
    var s1 := Step(s, Move(G.Emits(e)));
    EmitStep(s, e);
    SendStep(s, s1, e, []);
    SendStep(s, Step(s1, Move(G.Lands(e))), e, [Sent(e)]);
    RunThree(s, Move(G.Emits(e)), Move(G.Lands(e)), Move(G.Sends(e)));
    assert [] + [Sent(e)] == [Sent(e)] && [Sent(e)] + [Sent(e)] == [Sent(e), Sent(e)];
  }

  /** An idle worker that will next read entry `at`. */
  ghost predicate Next(s: State, at: nat) {
    s.workers == [Idle] && s.group.Present? && s.group.cursor == at && at <= |s.log|
  }

  lemma DeliverStep(s: State, at: nat, count: nat)
    requires Next(s, at) && at + count <= |s.log| && count > 0
    ensures var t := Step(s, Deliver(0, count));
      && t == s.(workers := [Reading(at, at + count, 0)], group := t.group)
      && t.group == Present(at + count, s.group.pending + Positions(at, at + count))
  {
    assert Enabled(s, Deliver(0, count));
  }

  /** Committing one batch that holds no invalid entry. */
  lemma CommitStep(s: State, lo: nat, hi: nat, batch: seq<UsageEvent>)
    requires s.workers == [Reading(lo, hi, 0)] && lo <= hi <= |s.log| && Invalid(s.log, lo, hi) == []
      && Valid(s.log, lo, hi) == batch
    requires Readable(s.db, batch) && forall e :: e in batch ==> s.pg.accepts(e)
    ensures var more := CountedBy(s.db, batch);
      Step(s, CommitBatch(0))
        == s.(workers := [Persisted(lo, hi)], db := Commit(s.db, batch), counted := s.counted + more,
                                    applied := s.applied + GroupBy(HourKey(), more))
  {
    hide Run, Valid, Invalid, Readable, CountedBy, GroupBy, Commit;
    assert Enabled(s, CommitBatch(0));
  }

  lemma AckStep(s: State, lo: nat, hi: nat)
    requires s.workers == [Persisted(lo, hi)] && s.group.Present?
    ensures Step(s, Ack(0))
      == s.(workers := [Idle], group := Present(s.group.cursor, s.group.pending - Positions(lo, hi)),
                                  acked := s.acked + Positions(lo, hi))
  {
    assert Enabled(s, Ack(0));
  }

  lemma OneSent(log: seq<Content>, e: UsageEvent, at: nat)
    requires at < |log| && log[at] == Sent(e)
    ensures Valid(log, at, at + 1) == [e] && Invalid(log, at, at + 1) == []
  {
    assert Valid(log, at, at) == [] && Invalid(log, at, at) == [];
  }

  /** A batch of one event that is not stored. */
  lemma OneNew(db: Tables, e: UsageEvent)
    requires !HasPk(db.rows, e) && Priced(e)
    ensures Readable(db, [e]) && CountedBy(db, [e]) == [e] && Commit(db, [e]).rows == db.rows + [e]
  {
    hide Priced;
    assert [e][..0] == [];
    assert Inserted(db.rows, []) == [];
    assert Inserted(db.rows, [e]) == [e];
    assert e.id in Ids([e]) by { assert [e][0].id == e.id; }
    assert Fresh(Ids([e]), []) == [];
    assert Fresh(Ids([e]), [e]) == [e];
    assert PricedUpTo([e], 0) && PricedUpTo([e], 1);
  }

  /** The state after the next entry, a copy of e that is not stored, has been consumed. */
  ghost predicate Consumed(s: State, t: State, e: UsageEvent, at: nat) {
    && Next(t, at + 1) && t.db.rows == s.db.rows + [e]
    && t.counted == s.counted + [e] && t.applied == s.applied + GroupBy(HourKey(), [e])
    && t == s.(group := t.group, db := t.db, counted := t.counted, applied := t.applied, acked := t.acked,
               workers := t.workers)
  }

  ghost predicate Consumable(s: State, e: UsageEvent, at: nat) {
    && Next(s, at) && at < |s.log| && s.log[at] == Sent(e)
    && !HasPk(s.db.rows, e) && s.pg.accepts(e) && Priced(e)
  }

  lemma CommitsOne(s: State, e: UsageEvent, at: nat)
    requires at < |s.log| && s.log[at] == Sent(e) && s.workers == [Reading(at, at + 1, 0)]
    requires !HasPk(s.db.rows, e) && s.pg.accepts(e) && Priced(e)
    ensures var t := Step(s, CommitBatch(0));
      && t == s.(workers := [Persisted(at, at + 1)], db := t.db, counted := s.counted + [e],
                 applied := s.applied + GroupBy(HourKey(), [e]))
      && t.db.rows == s.db.rows + [e]
  {
    hide Step, Readable, CountedBy, Inserted, Priced, Commit, GroupBy, HasPk;
    OneSent(s.log, e, at);
    OneNew(s.db, e);
    CommitStep(s, at, at + 1, [e]);
  }

  lemma Consumes(s: State, e: UsageEvent, at: nat)
    requires Consumable(s, e, at)
    ensures Consumed(s, Run(s, CONSUME), e, at)
  {
    hide Step, Run, Priced, GroupBy, HasPk;
    DeliverStep(s, at, 1);
    var s1 := Step(s, Deliver(0, 1));
    CommitsOne(s1, e, at);
    AckStep(Step(s1, CommitBatch(0)), at, at + 1);
    RunThree(s, Deliver(0, 1), CommitBatch(0), Ack(0));
  }

  /** What the hourly table counts, in a run from an initial state. */
  lemma RequestsCounted(s: State, actions: seq<Action>)
    requires Initial(s)
    ensures SumOf(RowEntries(Run(s, actions).db.hourly), Over(Requests, AnyKey)) == |Run(s, actions).counted|
  {
    TableCounts(s, actions, Hour, Requests, AnyKey);
    RequestsAreEvents(Run(s, actions).counted, Hour);
  }

  // ----- two copies in one batch -----

  lemma TwoSent(log: seq<Content>, e: UsageEvent)
    requires log == [Sent(e), Sent(e)]
    ensures Valid(log, 0, 2) == [e, e] && Invalid(log, 0, 2) == []
  {
    assert Valid(log, 0, 1) == Valid(log, 0, 0) + [e];
    assert Valid(log, 0, 2) == Valid(log, 0, 1) + [e];
    assert Invalid(log, 0, 1) == Invalid(log, 0, 0);
    assert Invalid(log, 0, 2) == Invalid(log, 0, 1);
  }

  lemma TwinsReadable(db: Tables, e: UsageEvent)
    requires db.rows == [] && Priced(e)
    ensures Readable(db, [e, e]) && CountedBy(db, [e, e]) == [e, e] && Commit(db, [e, e]).rows == [e]
  {
    hide Priced;
    TwinCopiesCountTwice(e);
    assert PricedUpTo([e, e], 0) && PricedUpTo([e, e], 1) && PricedUpTo([e, e], 2);
    CommitRows(db, [e, e]);
  }

  lemma BothInOneBatch(s: State, e: UsageEvent)
    requires Next(s, 0) && s.log == [Sent(e), Sent(e)] && s.db.rows == [] && s.pg.accepts(e) && Priced(e)
    ensures var t := Run(s, [Deliver(0, 2), CommitBatch(0)]);
      t.db.rows == [e] && t.counted == s.counted + [e, e] && t.purged == s.purged
  {
    hide Step, Run, Readable, CountedBy, Commit, GroupBy, Priced;
    DeliverStep(s, 0, 2);
    TwoSent(s.log, e);
    TwinsReadable(s.db, e);
    CommitStep(Step(s, Deliver(0, 2)), 0, 2, [e, e]);
    RunTwo(s, Deliver(0, 2), CommitBatch(0));
  }

  /** Both copies of a retried publish in one batch: one row, two requests. */
  lemma TwinsAreCountedTwice(s: State, e: UsageEvent)
    requires OneWorker(s) && s.pg.accepts(e) && Priced(e)
    ensures var t := Run(s, PublishTwice(e) + [Deliver(0, 2), CommitBatch(0)]);
      t.Stored() == [e] && SumOf(RowEntries(t.db.hourly), Over(Requests, AnyKey)) == 2
  {
    hide Step, Run, Priced, SumOf;
    PublishesTwice(s, e);
    assert [] + [Sent(e), Sent(e)] == [Sent(e), Sent(e)];
    BothInOneBatch(Run(s, PublishTwice(e)), e);
    RunConcat(s, PublishTwice(e), [Deliver(0, 2), CommitBatch(0)]);
    RequestsCounted(s, PublishTwice(e) + [Deliver(0, 2), CommitBatch(0)]);
    assert [] + [e, e] == [e, e];
  }

  // ----- a copy delivered after its row was deleted -----

  /** The wait until e is past its retention window. */
  function Wait(s: State, e: UsageEvent): nat {
    if e.occurredAt < s.now - s.retentionMs then 0 else e.occurredAt + s.retentionMs - s.now + 1
  }

  lemma Ages(s: State, e: UsageEvent)
    requires s.db.rows == [e]
    ensures var t := Run(s, [Tick(Wait(s, e)), Purge(0)]);
      t == s.(now := t.now, db := s.db.(rows := []), purged := s.purged + [e])
  {
    hide Run;
    RunTwo(s, Tick(Wait(s, e)), Purge(0));
    assert Enabled(Step(s, Tick(Wait(s, e))), Purge(0));
    assert s.db.rows[..0] + s.db.rows[1..] == [];
  }

  lemma Restarts(s: State)
    ensures Run(s, [LoseGroup, Recreate]) == s.(group := Present(s.base, {}))
  {
    hide Run;
    RunTwo(s, LoseGroup, Recreate);
    assert Enabled(s, LoseGroup) && Enabled(Step(s, LoseGroup), Recreate);
  }

  /** Consumed, aged, deleted, and consumed again by a group recreated from the start of the stream. */
  lemma ConsumedTwice(s: State, e: UsageEvent)
    requires Consumable(s, e, 0) && s.db.rows == [] && s.base == 0
    ensures var t :=
      Run(Run(Run(Run(s, CONSUME), [Tick(Wait(Run(s, CONSUME), e)), Purge(0)]), [LoseGroup, Recreate]), CONSUME);
      t.db.rows == [e] && t.purged == s.purged + [e] && t.counted == s.counted + [e] + [e]
  {
    hide Run, Step, GroupBy, Priced;
    var s1 := Run(s, CONSUME);
    Consumes(s, e, 0);
    assert [] + [e] == [e];
    Ages(s1, e);
    var s2 := Run(s1, [Tick(Wait(s1, e)), Purge(0)]);
    Restarts(s2);
    Consumes(Run(s2, [LoseGroup, Recreate]), e, 0);
  }

  lemma RunParts(s: State, a: seq<Action>, b: seq<Action>, c: seq<Action>, d: seq<Action>, f: seq<Action>)
    ensures Run(s, a + b + c + d + f) == Run(Run(Run(Run(Run(s, a), b), c), d), f)
  {
    hide Run;
    RunConcat(s, a, b);
    RunConcat(s, a + b, c);
    RunConcat(s, a + b + c, d);
    RunConcat(s, a + b + c + d, f);
  }

  /**
   * An event past its retention window, still on the stream when the group is recreated from its start, is stored and
   * counted again.
   */
  lemma PurgedEventsAreCountedAgain(s: State, e: UsageEvent)
    requires OneWorker(s) && s.pg.accepts(e) && Priced(e)
    ensures exists wait: nat ::
      var t := Run(s, Publish(e) + CONSUME + [Tick(wait), Purge(0)] + [LoseGroup, Recreate] + CONSUME);
      t.Stored() == [e, e] && SumOf(RowEntries(t.db.hourly), Over(Requests, AnyKey)) == 2
  {
    hide Run, Step, Priced, SumOf;
    var s1 := Run(s, Publish(e));
    Publishes(s, e);
    assert [] + [Sent(e)] == [Sent(e)];
    ConsumedTwice(s1, e);
    var wait := Wait(Run(s1, CONSUME), e);
    var all := Publish(e) + CONSUME + [Tick(wait), Purge(0)] + [LoseGroup, Recreate] + CONSUME;
    RunParts(s, Publish(e), CONSUME, [Tick(wait), Purge(0)], [LoseGroup, Recreate], CONSUME);
    RequestsCounted(s, all);
    assert [e] + ([] + [e]) == [e, e];
    assert Run(s, all).Stored() == [e, e];
  }

  // ----- an entry whose worker fails -----

  /** A worker fails with a batch in hand: the entry is abandoned. */
  lemma FailedBatchIsAbandoned(s: State, e: UsageEvent)
    requires OneWorker(s)
    ensures var t := Run(s, Publish(e) + [Deliver(0, 1), Fail(0)]);
      t.log == [Sent(e)] && t.acked == {} && Abandoned(t, 0)
  {
    hide Run, Step;
    var s1 := Run(s, Publish(e));
    Publishes(s, e);
    assert [] + [Sent(e)] == [Sent(e)];
    DeliverStep(s1, 0, 1);
    var s2 := Step(s1, Deliver(0, 1));
    FailStep(s2);
    RunTwo(s1, Deliver(0, 1), Fail(0));
    RunConcat(s, Publish(e), [Deliver(0, 1), Fail(0)]);
  }

  lemma FailStep(s: State)
    requires |s.workers| == 1
    ensures Step(s, Fail(0)) == s.(workers := [Idle])
  {
    assert Enabled(s, Fail(0));
  }

  // ----- many small increments on one day -----

  function Meter(e: UsageEvent): seq<Action> { Publish(e) + CONSUME }

  function MeterAll(events: seq<UsageEvent>): seq<Action> {
    if events == [] then [] else MeterAll(events[..|events| - 1]) + Meter(events[|events| - 1])
  }

  ghost predicate Metered(s: State, events: seq<UsageEvent>) {
    && Next(s, |s.log|) && s.db.rows == events && s.counted == events && s.purged == []
    && s.gateway.emitted == multiset(events)
    && |s.applied| == |events| && forall i :: 0 <= i < |events| ==>
      s.applied[i].group == NewGroup(events[i]).Add(events[i])
  }

  lemma GroupOfOne(e: UsageEvent)
    ensures GroupBy(HourKey(), [e]) == [Keyed(KeyOf(e, Hour), NewGroup(e).Add(e))]
  {
    hide TotalOf, NewGroup, KeyOf;
    assert [e][..0] == [];
    assert GroupBy(HourKey(), []) == [];
    assert HourKey()(e) == KeyOf(e, Hour);
  }

  ghost predicate Meterable(pg: Database, e: UsageEvent) { pg.accepts(e) && Priced(e) }

  lemma NewIsNotStored(events: seq<UsageEvent>, e: UsageEvent)
    requires forall i :: 0 <= i < |events| ==> events[i].id != e.id
    ensures !HasPk(events, e) && forall f :: f in multiset(events) ==> f.id != e.id
  {}

  lemma MetersOne(s: State, events: seq<UsageEvent>, e: UsageEvent)
    requires Metered(s, events) && Meterable(s.pg, e) && forall i :: 0 <= i < |events| ==> events[i].id != e.id
    ensures Metered(Run(s, Meter(e)), events + [e]) && Run(s, Meter(e)).pg == s.pg
  {
    hide Run, Step, GroupBy, NewGroup, Priced, HasPk;
    NewIsNotStored(events, e);
    var s1 := Run(s, Publish(e));
    Publishes(s, e);
    Consumes(s1, e, |s.log|);
    RunConcat(s, Publish(e), CONSUME);
    GroupOfOne(e);
    assert multiset(events + [e]) == multiset(events) + multiset{e};
  }

  ghost predicate DistinctIds(events: seq<UsageEvent>) {
    forall i, j :: 0 <= i < j < |events| ==> events[i].id != events[j].id
  }

  lemma StartIsMetered(s: State)
    requires OneWorker(s)
    ensures Metered(Run(s, []), []) && Run(s, []).pg == s.pg
  {}

  lemma {:induction false} MetersAll(s: State, events: seq<UsageEvent>)
    requires OneWorker(s) && DistinctIds(events) && forall i :: 0 <= i < |events| ==> Meterable(s.pg, events[i])
    ensures Metered(Run(s, MeterAll(events)), events) && Run(s, MeterAll(events)).pg == s.pg
  {
    hide OneWorker, Run, Metered, Meterable, Meter;
    if events == [] {
      StartIsMetered(s);
    } else {
      var init, e := events[..|events| - 1], events[|events| - 1];
      MetersAll(s, init);
      MetersOne(Run(s, MeterAll(init)), init, e);
      RunConcat(s, MeterAll(init), Meter(e));
      assert init + [e] == events;
    }
  }

  /** Such a run is careful: each event is counted once and stored once. */
  lemma MeteringIsCareful(s: State, events: seq<UsageEvent>)
    requires OneWorker(s) && DistinctIds(events) && forall i :: 0 <= i < |events| ==> Meterable(s.pg, events[i])
    ensures CarefulRun(s, MeterAll(events))
  {
    hide Run, CarefulRun, Meterable;
    MetersAll(s, events);
    TallyAlways(s, MeterAll(events));
    DistinctHasNoDup(events);
    assert events + [] == events;
  }

  lemma {:induction false} DistinctHasNoDup(events: seq<UsageEvent>)
    requires DistinctIds(events)
    ensures NoDup(events)
  {
    if events != [] {
      var init, e := events[..|events| - 1], events[|events| - 1];
      DistinctHasNoDup(init);
      assert events == init + [e];
      assert e !in init;
    }
  }

  /** An event of the given day; its cost, in units of 1e-8 USD, is printed as the gateway prints it. */
  ghost predicate CostsOn(pg: Database, e: UsageEvent, cost: nat, day: int) {
    pg.accepts(e) && e.costUsd == Money.FormatPicoUsd(10_000 * cost) && TruncateUtc(e.occurredAt, Day) == day
  }

  lemma CostIsMeterable(pg: Database, e: UsageEvent, cost: nat, day: int)
    requires CostsOn(pg, e, cost, day)
    ensures Meterable(pg, e) && Cost8(e) == cost && TruncateUtc(e.occurredAt, Day) == day
    ensures NewGroup(e).Add(e).day == day && NewGroup(e).Add(e).total.cost == cost
  {
    hide Money.ParseDecimalScaled, Money.FormatPicoUsd;
    Money.CostCodecsAgree(10_000 * cost);
    assert Cost8(e) == cost;
  }

  lemma {:induction false} EqualCostsApplied(t: State, events: seq<UsageEvent>, cost: nat, day: int)
    requires Metered(t, events) && forall i :: 0 <= i < |events| ==> CostsOn(t.pg, events[i], cost, day)
    ensures |t.applied| == |events| && forall i :: 0 <= i < |t.applied| ==>
      t.applied[i].group.day == day && t.applied[i].group.total.cost == cost
  {
    hide NewGroup, CostsOn, Priced;
    forall i | 0 <= i < |t.applied| ensures t.applied[i].group.day == day && t.applied[i].group.total.cost == cost {
      CostIsMeterable(t.pg, events[i], cost, day);
    }
  }

  lemma {:induction false} EqualCostsSum(pg: Database, events: seq<UsageEvent>, cost: nat, day: int)
    requires forall i :: 0 <= i < |events| ==> CostsOn(pg, events[i], cost, day)
    ensures Reconcile.RawSum(events, day, Cost) == |events| * cost
  {
    hide CostsOn, Reconcile.RawSum;
    if events != [] {
      var init, e := events[..|events| - 1], events[|events| - 1];
      assert events == init + [e];
      EqualCostsSum(pg, init, cost, day);
      OneMoreCost(pg, init, e, cost, day);
      OneMoreTimes(|init|, cost);
    } else {
      NoCost(day);
    }
  }

  lemma NoCost(day: int)
    ensures Reconcile.RawSum([], day, Cost) == 0
  {}

  lemma OneMoreTimes(n: nat, cost: nat)
    ensures (n + 1) * cost == n * cost + cost
  {}

  lemma OneMoreCost(pg: Database, events: seq<UsageEvent>, e: UsageEvent, cost: nat, day: int)
    requires CostsOn(pg, e, cost, day)
    ensures Reconcile.RawSum(events + [e], day, Cost) == Reconcile.RawSum(events, day, Cost) + cost
  {
    hide CostsOn, EntryOf, Over;
    assert EventEntries(events + [e], Day)[..|events|] == EventEntries(events, Day);
    assert EventEntries(events + [e], Day)[|events|] == EntryOf(e, Day);
    CostOfOne(pg, e, cost, day);
  }

  lemma CostOfOne(pg: Database, e: UsageEvent, cost: nat, day: int)
    requires CostsOn(pg, e, cost, day)
    ensures Over(Cost, Reconcile.On(day))(EntryOf(e, Day)) == cost
  {
    hide CostsOn, Meterable, NewGroup, Cost8, TruncateUtc;
    CostIsMeterable(pg, e, cost, day);
    Reconcile.OnTheDay(EntryOf(e, Day), day, Cost);
  }

  lemma {:induction false} MetersEqualCosts(s: State, events: seq<UsageEvent>, cost: nat, day: int)
    requires OneWorker(s) && DistinctIds(events)
    requires forall i :: 0 <= i < |events| ==> CostsOn(s.pg, events[i], cost, day)
    ensures var t := Run(s, MeterAll(events));
      && CarefulRun(s, MeterAll(events)) && t.db.rows == events && t.purged == []
      && Reconcile.RoundingOf(t.applied, day) == 100 * (|events| * RoundTo6(cost)) - |events| * cost
      && Reconcile.RawSum(events, day, Cost) == |events| * cost
  {
    hide OneWorker, Run, CarefulRun, CostsOn, Meterable, SumOf, RoundTo6, Reconcile.RoundingOf, Reconcile.RawSum;
    var t := Run(s, MeterAll(events));
    forall i | 0 <= i < |events| ensures Meterable(s.pg, events[i]) { CostIsMeterable(s.pg, events[i], cost, day); }
    MetersAll(s, events);
    MeteringIsCareful(s, events);
    EqualCostsApplied(t, events, cost, day);
    Reconcile.EqualCostsRound(t.applied, day, cost);
    EqualCostsSum(s.pg, events, cost, day);
  }

  /**
   * A careful run of events of one day that all cost the same, consumed one by one: whether reconcile reports the day
   * is decided by the doubles of n rounded costs and of n exact ones.
   */
  lemma {:induction false} EqualCostsDrift(fl: real -> real, s: State, events: seq<UsageEvent>, cost: nat,
      day: int, from: int)
    requires RoundsToDouble(fl) && OneWorker(s) && DistinctIds(events) && from % DAY_MS == 0 && day >= from
    requires forall i :: 0 <= i < |events| ==> CostsOn(s.pg, events[i], cost, day)
    ensures var t := Run(s, MeterAll(events));
      CarefulRun(s, MeterAll(events)) && t.db.rows == events
        && (Reconcile.Drifts(fl, t.db.rows, t.db.daily, day) <==>
              Exceeds(fl, 100 * (|events| * RoundTo6(cost)), |events| * cost))
  {
    hide Run, CarefulRun, CostsOn, Reconcile.Drifts, Exceeds, RoundsToDouble, RoundTo6, Reconcile.RoundingOf,
      Reconcile.RawSum, MeterAll, DistinctIds;
    MetersEqualCosts(s, events, cost, day);
    Reconcile.DriftsIffRoundingShows(fl, s, MeterAll(events), from, day);
  }

  /**
   * Events of half a unit of 1e-6 USD each: the day is reported from the third event on although every event was
   * counted right. The bound on their number is that of 16 million USD a day.
   */
  lemma {:induction false} HalvesAreReportedFromTheThirdOn(fl: real -> real, s: State, events: seq<UsageEvent>,
      day: int, from: int)
    requires RoundsToDouble(fl) && OneWorker(s) && DistinctIds(events) && from % DAY_MS == 0 && day >= from
    requires |events| <= 16_000_000_000_000 && forall i :: 0 <= i < |events| ==> CostsOn(s.pg, events[i], 50, day)
    ensures var t := Run(s, MeterAll(events));
      CarefulRun(s, MeterAll(events)) && t.db.rows == events
        && (Reconcile.Drifts(fl, t.db.rows, t.db.daily, day) <==> |events| >= 3)
  {
    hide Run, CarefulRun, CostsOn, Reconcile.Drifts, Exceeds, RoundsToDouble;
    EqualCostsDrift(fl, s, events, 50, day, from);
    ExceedsOffTheBoundary(fl, 100 * |events|, 50 * |events|);
    MicrodollarPasses(fl);
  }

  /** Two events of 0.50000050 USD: the doubles of their sums are more than 1e-6 apart, and the day is reported. */
  lemma {:induction false} TwoHalvesCanBeReported(fl: real -> real, s: State, events: seq<UsageEvent>,
      day: int, from: int)
    requires RoundsToDouble(fl) && OneWorker(s) && DistinctIds(events) && from % DAY_MS == 0 && day >= from
    requires |events| == 2 && forall i :: 0 <= i < |events| ==> CostsOn(s.pg, events[i], 50_000_050, day)
    ensures var t := Run(s, MeterAll(events));
      CarefulRun(s, MeterAll(events)) && t.db.rows == events && Reconcile.Drifts(fl, t.db.rows, t.db.daily, day)
  {
    hide Run, CarefulRun, CostsOn, Reconcile.Drifts, Exceeds, RoundsToDouble;
    EqualCostsDrift(fl, s, events, 50_000_050, day, from);
    MicrodollarIsReported(fl);
  }
}
