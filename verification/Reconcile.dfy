/** The daily comparison of raw events with the daily table (apps/worker/src/jobs/reconcile.ts), costs in 1e-8 USD. */
module Reconcile {
  import opened Events
  import opened Rollups
  import opened Ledger
  import opened LedgerLaws
  import opened Pipeline
  import opened Exactness
  import opened Doubles

  datatype DayAgg = DayAgg(day: int, requests: int, cost: int)

  function On(day: int): Key -> bool { (k: Key) => k.bucket == day }

  function RawSum(rows: seq<UsageEvent>, day: int, m: Measure): int { SumOf(EventEntries(rows, Day), Over(m, On(day))) }

  function RollupSum(daily: seq<Row>, day: int, m: Measure): int { SumOf(RowEntries(daily), Over(m, On(day))) }

  function With(days: seq<int>, day: int): seq<int> { if day in days then days else days + [day] }

  /** The UTC days, from `from` on, that hold raw events. */
  function RawDays(rows: seq<UsageEvent>, from: int): seq<int> {
    if rows == [] then []
    else
      var before, t := RawDays(rows[..|rows| - 1], from), rows[|rows| - 1].occurredAt;
      if t >= from then With(before, TruncateUtc(t, Day)) else before
  }

  function RollupDays(daily: seq<Row>, from: int): seq<int> {
    if daily == [] then []
    else
      var before, bucket := RollupDays(daily[..|daily| - 1], from), daily[|daily| - 1].key.bucket;
      if bucket >= from then With(before, bucket) else before
  }

  /** The two GROUP BY queries. */
  function QueryRaw(rows: seq<UsageEvent>, from: int): seq<DayAgg> {
    var days := RawDays(rows, from);
    seq(|days|, i requires 0 <= i < |days| =>
      DayAgg(days[i], RawSum(rows, days[i], Requests), RawSum(rows, days[i], Cost)))
  }

  function QueryRollup(daily: seq<Row>, from: int): seq<DayAgg> {
    var days := RollupDays(daily, from);
    seq(|days|, i requires 0 <= i < |days| =>
      DayAgg(days[i], RollupSum(daily, days[i], Requests), 100 * RollupSum(daily, days[i], Cost)))
  }

  function Abs(x: int): int { if x < 0 then -x else x }

  /** A day is reported when its requests differ or its cost is off by more than 1e-6 USD, compared in doubles. */
  predicate Drifts(fl: real -> real, rows: seq<UsageEvent>, daily: seq<Row>, day: int) {
    || RollupSum(daily, day, Requests) != RawSum(rows, day, Requests)
    || Exceeds(fl, 100 * RollupSum(daily, day, Cost), RawSum(rows, day, Cost))
  }

  function Drifting(fl: real -> real, rows: seq<UsageEvent>, daily: seq<Row>, days: seq<int>): nat {
    if days == [] then 0
    else Drifting(fl, rows, daily, days[..|days| - 1]) + if Drifts(fl, rows, daily, days[|days| - 1]) then 1 else 0
  }

  function WindowStart(now: int, windowDays: nat): int { TruncateUtc(now - windowDays * DAY_MS, Day) }

  lemma {:induction false} RollupDaysMeaning(daily: seq<Row>, from: int, day: int)
    ensures day in RollupDays(daily, from) ==> day >= from
    ensures day >= from && day !in RollupDays(daily, from) ==> forall i :: 0 <= i < |daily| ==>
      daily[i].key.bucket != day
  {
    if daily != [] { RollupDaysMeaning(daily[..|daily| - 1], from, day); }
  }

  lemma {:induction false} RawDaysMeaning(rows: seq<UsageEvent>, from: int)
    requires from % DAY_MS == 0
    ensures forall day :: day in RawDays(rows, from) ==> day >= from
    ensures forall i, j :: 0 <= i < j < |RawDays(rows, from)| ==> RawDays(rows, from)[i] != RawDays(rows, from)[j]
    ensures forall i :: 0 <= i < |rows| && rows[i].occurredAt >= from ==>
      TruncateUtc(rows[i].occurredAt, Day) in RawDays(rows, from)
  {
    if rows != [] {
      RawDaysMeaning(rows[..|rows| - 1], from);
      DayInWindow(rows[|rows| - 1].occurredAt, from);
    }
  }

  lemma DayInWindow(t: int, from: int)
    requires from % DAY_MS == 0
    ensures t >= from <==> TruncateUtc(t, Day) >= from
  {
    TruncationNests(t);
  }

  /** The window begins with the UTC day that the instant windowDays days ago falls in. */
  lemma WindowBegins(now: int, windowDays: nat)
    ensures var from, since := WindowStart(now, windowDays), now - windowDays * 86_400_000;
      from <= since < from + 86_400_000 && from % 86_400_000 == 0
  {
    TruncationNests(now - windowDays * DAY_MS);
  }

  lemma {:induction false} RawDaysHoldEvents(rows: seq<UsageEvent>, from: int, day: int)
    requires day in RawDays(rows, from)
    ensures exists i :: 0 <= i < |rows| && DayHolds(day, rows[i])
  {
    hide TruncateUtc, DayHolds;
    var init, e := rows[..|rows| - 1], rows[|rows| - 1];
    OwnDay(e);
    if day in RawDays(init, from) {
      RawDaysHoldEvents(init, from, day);
      var i :| 0 <= i < |init| && DayHolds(day, init[i]);
      assert rows[i] == init[i];
    }
  }

  /**
   * The days checked: every raw event of the last windowDays days lies in one of them, each is a whole UTC day that
   * holds a raw event, and none ends before the window begins.
   */
  lemma DaysChecked(rows: seq<UsageEvent>, now: int, windowDays: nat)
    ensures var days, since := RawDays(rows, WindowStart(now, windowDays)), now - windowDays * 86_400_000;
      && (forall i :: 0 <= i < |rows| && rows[i].occurredAt >= since ==> exists d :: d in days && DayHolds(d, rows[i]))
      && (forall d :: d in days ==> d % 86_400_000 == 0 && since < d + 86_400_000)
      && (forall d :: d in days ==> exists i :: 0 <= i < |rows| && DayHolds(d, rows[i]))
  {
    hide WindowStart, RawDays, DayHolds;
    var from := WindowStart(now, windowDays);
    WindowBegins(now, windowDays);
    RawDaysMeaning(rows, from);
    RawDaysAreWhole(rows, from);
    forall i | 0 <= i < |rows| && rows[i].occurredAt >= now - windowDays * 86_400_000
      ensures exists d :: d in RawDays(rows, from) && DayHolds(d, rows[i])
    {
      OwnDay(rows[i]);
      assert TruncateUtc(rows[i].occurredAt, Day) in RawDays(rows, from);
    }
    forall d | d in RawDays(rows, from) ensures exists i :: 0 <= i < |rows| && DayHolds(d, rows[i]) {
      RawDaysHoldEvents(rows, from, d);
    }
  }

  predicate DayHolds(day: int, e: UsageEvent) { day <= e.occurredAt < day + 86_400_000 }

  lemma OwnDay(e: UsageEvent)
    ensures DayHolds(TruncateUtc(e.occurredAt, Day), e)
  {
    TruncationNests(e.occurredAt);
  }

  lemma {:induction false} RawDaysAreWhole(rows: seq<UsageEvent>, from: int)
    ensures forall d :: d in RawDays(rows, from) ==> d % 86_400_000 == 0
  {
    if rows != [] {
      RawDaysAreWhole(rows[..|rows| - 1], from);
      TruncationNests(rows[|rows| - 1].occurredAt);
    }
  }

  lemma {:induction false} NoRowsNoSum(daily: seq<Row>, day: int, m: Measure)
    requires forall i :: 0 <= i < |daily| ==> daily[i].key.bucket != day
    ensures RollupSum(daily, day, m) == 0
  {
    if daily != [] {
      var init, last := daily[..|daily| - 1], daily[|daily| - 1];
      NoRowsNoSum(init, day, m);
      assert RowEntries(daily)[..|init|] == RowEntries(init);
      assert Over(m, On(day))(Entry(last.key, last.total)) == 0;
    }
  }

  /** A day without rollup rows, which the lookup defaults to zero, sums to zero. */
  lemma MissingIsZero(daily: seq<Row>, from: int, day: int)
    requires day >= from && day !in RollupDays(daily, from)
    ensures RollupSum(daily, day, Requests) == 0 && RollupSum(daily, day, Cost) == 0
  {
    RollupDaysMeaning(daily, from, day);
    NoRowsNoSum(daily, day, Requests);
    NoRowsNoSum(daily, day, Cost);
  }

  /** The rollup rows as a map by day. */
  method RollupByDay(daily: seq<Row>, from: int) returns (byDay: map<int, DayAgg>)
    ensures forall d :: d in byDay <==> d in RollupDays(daily, from)
    ensures forall d :: d in byDay ==>
      byDay[d] == DayAgg(d, RollupSum(daily, d, Requests), 100 * RollupSum(daily, d, Cost))
  {
    var rollupRows := QueryRollup(daily, from);
    byDay := map[];
    for n := 0 to |rollupRows|
      invariant forall d :: d in byDay <==> d in RollupDays(daily, from)[..n]
      invariant forall d :: d in byDay ==>
        byDay[d] == DayAgg(d, RollupSum(daily, d, Requests), 100 * RollupSum(daily, d, Cost))
    {
      byDay := byDay[rollupRows[n].day := rollupRows[n]];
    }
    assert RollupDays(daily, from)[..|rollupRows|] == RollupDays(daily, from);
  }

  lemma DriftingNext(fl: real -> real, rows: seq<UsageEvent>, daily: seq<Row>, days: seq<int>, n: nat)
    requires n < |days|
    ensures Drifting(fl, rows, daily, days[..n + 1]) ==
      Drifting(fl, rows, daily, days[..n]) + if Drifts(fl, rows, daily, days[n]) then 1 else 0
    ensures Drifting(fl, rows, daily, days[..0]) == 0
  {
    assert days[..n + 1][..n] == days[..n];
  }

  /** runReconcile counts the days with raw events in the window, and those of them that drift. */
  method RunReconcile(fl: real -> real, rows: seq<UsageEvent>, daily: seq<Row>, now: int, windowDays: nat)
      returns (checkedDays: nat, driftDays: nat)
    ensures var days := RawDays(rows, WindowStart(now, windowDays));
      checkedDays == |days| && driftDays == Drifting(fl, rows, daily, days)
  {
    hide RawSum, RollupSum, SumOf, WindowStart, RawDays, RollupDays, Drifting, TruncateUtc;
    var from := WindowStart(now, windowDays);
    WindowBegins(now, windowDays);
    var rawRows := QueryRaw(rows, from);
    var rollupByDay := RollupByDay(daily, from);
    ghost var days := RawDays(rows, from);
    RawDaysMeaning(rows, from);
    driftDays := 0;
    if days != [] { DriftingNext(fl, rows, daily, days, 0); } else { NoneDrifting(fl, rows, daily, days); }
    for n := 0 to |rawRows|
      invariant driftDays == Drifting(fl, rows, daily, days[..n])
    {
      var raw := rawRows[n];
      var roll := if raw.day in rollupByDay then rollupByDay[raw.day] else DayAgg(raw.day, 0, 0);
      assert days[n] in days;
      if raw.day !in rollupByDay { MissingIsZero(daily, from, days[n]); }
      var reqDrift := roll.requests - raw.requests;
      var costDrift := Size(fl(Number(fl, roll.cost) - Number(fl, raw.cost)));
      assert reqDrift != 0 || costDrift > fl(0.000001) <==> Drifts(fl, rows, daily, days[n]);
      DriftingNext(fl, rows, daily, days, n);
      if reqDrift != 0 || costDrift > fl(0.000001) { driftDays := driftDays + 1; }
    }
    assert days[..|days|] == days;
    checkedDays := |rawRows|;
  }

  // ----- what the report means -----

  lemma {:induction false} OldEventsAddNothing(purged: seq<UsageEvent>, from: int, day: int, m: Measure)
    requires from % DAY_MS == 0 && day >= from && forall e :: e in purged ==> e.occurredAt < from
    ensures RawSum(purged, day, m) == 0
  {
    if purged != [] {
      var init, e := purged[..|purged| - 1], purged[|purged| - 1];
      OldEventsAddNothing(init, from, day, m);
      DayInWindow(e.occurredAt, from);
      assert EventEntries(purged, Day)[..|init|] == EventEntries(init, Day);
      OutsideIsZero(e, day, m);
    }
  }

  lemma OutsideIsZero(e: UsageEvent, day: int, m: Measure)
    requires TruncateUtc(e.occurredAt, Day) != day
    ensures Over(m, On(day))(EntryOf(e, Day)) == 0
  {
    var x := EntryOf(e, Day);
    assert x.key.bucket == TruncateUtc(e.occurredAt, Day);
  }

  lemma WindowSum(rows: seq<UsageEvent>, purged: seq<UsageEvent>, from: int, day: int, m: Measure)
    requires from % DAY_MS == 0 && day >= from && forall e :: e in purged ==> e.occurredAt < from
    ensures RawSum(rows + purged, day, m) == RawSum(rows, day, m)
  {
    SumEventsConcat(rows, purged, Day, Over(m, On(day)));
    OldEventsAddNothing(purged, from, day, m);
  }

  lemma RequestsAgree(s: State, actions: seq<Action>, day: int)
    requires Initial(s) && CarefulRun(s, actions)
    ensures RollupSum(Run(s, actions).db.daily, day, Requests) == RawSum(Run(s, actions).Stored(), day, Requests)
  {
    hide Run, CarefulRun, Initial, SumOf;
    TableCounts(s, actions, Day, Requests, On(day));
    CountedIsStored(s, actions, Day, Over(Requests, On(day)));
  }

  lemma CostsAgree(s: State, actions: seq<Action>, day: int)
    requires Initial(s) && CarefulRun(s, actions)
    ensures var t := Run(s, actions);
      Abs(100 * RollupSum(t.db.daily, day, Cost) - RawSum(t.Stored(), day, Cost)) <= 50 * Increments(t, Day, On(day))
  {
    hide Run, CarefulRun, Initial, SumOf;
    CostWithinBound(s, actions, Day, On(day));
  }

  /** Nothing of the window has been deleted. */
  ghost predicate WindowIntact(t: State, from: int) { forall e :: e in t.purged ==> e.occurredAt < from }

  /** A window within the retention window is intact in every run. */
  lemma RetentionSparesTheWindow(s: State, actions: seq<Action>, from: int)
    requires Initial(s) && from >= Run(s, actions).now - s.retentionMs
    ensures WindowIntact(Run(s, actions), from)
  {
    hide Run;
    WindowIsKept(s, actions);
  }

  /**
   * A day's requests are those of the raw events, and its cost is off by at most 50 units of 1e-8 USD per increment.
   */
  ghost predicate Agrees(t: State, raw: seq<UsageEvent>, day: int) {
    && RollupSum(t.db.daily, day, Requests) == RawSum(raw, day, Requests)
    && Abs(100 * RollupSum(t.db.daily, day, Cost) - RawSum(raw, day, Cost)) <= 50 * Increments(t, Day, On(day))
  }

  lemma AgreesInWindow(t: State, from: int, day: int)
    requires Agrees(t, t.Stored(), day) && WindowIntact(t, from) && from % DAY_MS == 0 && day >= from
    ensures Agrees(t, t.db.rows, day)
  {
    WindowSum(t.db.rows, t.purged, from, day, Requests);
    WindowSum(t.db.rows, t.purged, from, day, Cost);
  }

  lemma AgreesAlways(s: State, actions: seq<Action>, day: int)
    requires Initial(s) && CarefulRun(s, actions)
    ensures Agrees(Run(s, actions), Run(s, actions).Stored(), day)
  {
    hide Run, CarefulRun, Initial, SumOf;
    RequestsAgree(s, actions, day);
    CostsAgree(s, actions, day);
  }

  /**
   * After any careful run, and with no raw event of the window deleted, no day of the window drifts in requests, and
   * its cost drifts by no more than its increments were rounded.
   */
  lemma DriftIsRounding(s: State, actions: seq<Action>, from: int, day: int)
    requires Initial(s) && CarefulRun(s, actions) && WindowIntact(Run(s, actions), from) && from % DAY_MS == 0
      && day >= from
    ensures Agrees(Run(s, actions), Run(s, actions).db.rows, day)
  {
    hide Run, CarefulRun, Initial, SumOf;
    var t := Run(s, actions);
    AgreesAlways(s, actions, day);
    AgreesInWindow(t, from, day);
  }

  /** How much rounding has moved a day's cost, in 1e-8 USD. */
  ghost function RoundingOf(groups: seq<Keyed<Key>>, day: int): int {
    100 * SumOf(RoundedEntries(groups, Day), Over(Cost, On(day)))
      - SumOf(GroupEntries(groups, Day), Over(Cost, On(day)))
  }

  lemma CostsDifferByRounding(s: State, actions: seq<Action>, day: int)
    requires Initial(s) && CarefulRun(s, actions)
    ensures var t := Run(s, actions);
      100 * RollupSum(t.db.daily, day, Cost) - RawSum(t.Stored(), day, Cost) == RoundingOf(t.applied, day)
  {
    hide Run, CarefulRun, SumOf;
    var f := Over(Cost, On(day));
    FollowsAlways(s, actions);
    MeasuresAddUp(Cost, On(day));
    TableIsIncrements(Run(s, actions), Day, f);
    IncrementsAlways(s, actions, Day, f);
    CountedIsStored(s, actions, Day, f);
  }

  lemma SumsInWindow(t: State, from: int, day: int)
    requires Agrees(t, t.Stored(), day) && WindowIntact(t, from) && from % DAY_MS == 0 && day >= from
    requires 100 * RollupSum(t.db.daily, day, Cost) - RawSum(t.Stored(), day, Cost) == RoundingOf(t.applied, day)
    ensures RollupSum(t.db.daily, day, Requests) == RawSum(t.db.rows, day, Requests)
    ensures 100 * RollupSum(t.db.daily, day, Cost) == RawSum(t.db.rows, day, Cost) + RoundingOf(t.applied, day)
  {
    hide SumOf, RoundingOf;
    WindowSum(t.db.rows, t.purged, from, day, Requests);
    WindowSum(t.db.rows, t.purged, from, day, Cost);
  }

  /** A day's two sums come to at most 16 million USD. */
  ghost predicate ModerateDay(t: State, day: int) {
    Moderate(100 * RollupSum(t.db.daily, day, Cost)) && Moderate(RawSum(t.db.rows, day, Cost))
  }

  /**
   * After any careful run, and with no raw event of the window deleted, rounding the increments one by one is all that
   * can have a day reported: the doubles of the raw cost, with and without what rounding has moved it by, decide. On a
   * day of at most 16 million USD it is reported if that is more than 1e-6 USD, and not if it is less; at 1e-6 USD
   * exactly it can go either way (BoundaryGoesEitherWay).
   */
  lemma DriftsIffRoundingShows(fl: real -> real, s: State, actions: seq<Action>, from: int, day: int)
    requires RoundsToDouble(fl)
    requires Initial(s) && CarefulRun(s, actions) && WindowIntact(Run(s, actions), from) && from % DAY_MS == 0
      && day >= from
    ensures var t := Run(s, actions);
      var raw, moved := RawSum(t.db.rows, day, Cost), RoundingOf(t.applied, day);
      var drifts := Drifts(fl, t.db.rows, t.db.daily, day);
      && (drifts <==> Exceeds(fl, raw + moved, raw))
      && (ModerateDay(t, day) && Abs(moved) != 100 ==> (drifts <==> Abs(moved) > 100))
  {
    hide Run, CarefulRun, Initial, SumOf, RoundingOf, RoundsToDouble, Exceeds;
    AgreesAlways(s, actions, day);
    CostsDifferByRounding(s, actions, day);
    var t := Run(s, actions);
    SumsInWindow(t, from, day);
    if ModerateDay(t, day) {
      ExceedsOffTheBoundary(fl, 100 * RollupSum(t.db.daily, day, Cost), RawSum(t.db.rows, day, Cost));
    }
  }

  // ----- what the report catches -----

  /** How many of the events fall on a UTC day. */
  function CountOn(events: seq<UsageEvent>, day: int): nat {
    if events == [] then 0
    else
      CountOn(events[..|events| - 1], day) + if DayHolds(day, events[|events| - 1]) then 1 else 0
  }

  lemma DayOfInstant(t: int, day: int)
    requires day % 86_400_000 == 0
    ensures TruncateUtc(t, Day) == day <==> day <= t < day + 86_400_000
  {}

  lemma OneOnDay(e: UsageEvent, day: int)
    requires day % 86_400_000 == 0
    ensures Over(Requests, On(day))(EntryOf(e, Day)) == if DayHolds(day, e) then 1 else 0
  {
    hide Cost8, TruncateUtc;
    var x := EntryOf(e, Day);
    DayOfInstant(e.occurredAt, day);
    if x.key.bucket == day { OnTheDay(x, day, Requests); } else { OutsideIsZero(e, day, Requests); }
  }

  lemma {:induction false} RequestsOnDay(events: seq<UsageEvent>, day: int)
    requires day % 86_400_000 == 0
    ensures RawSum(events, day, Requests) == CountOn(events, day)
  {
    if events != [] {
      hide EntryOf, Over;
      RequestsOnDay(events[..|events| - 1], day);
      OneOnDay(events[|events| - 1], day);
      LastEvent(events, Day, Over(Requests, On(day)));
    }
  }

  lemma {:induction false} CountedSomewhere(events: seq<UsageEvent>, day: int)
    requires CountOn(events, day) > 0
    ensures exists e :: e in events && DayHolds(day, e)
  {
    var init, e := events[..|events| - 1], events[|events| - 1];
    if !DayHolds(day, e) { CountedSomewhere(init, day); }
  }

  /** An event of the window that was ever stored is stored still, so its day is checked. */
  lemma StoredDayIsChecked(t: State, from: int, day: int, e: UsageEvent)
    requires WindowIntact(t, from) && from % DAY_MS == 0 && day >= from && day % 86_400_000 == 0
    requires e in t.Stored() && DayHolds(day, e)
    ensures day in RawDays(t.db.rows, from)
  {
    hide TruncateUtc;
    assert e in t.db.rows;
    var i :| 0 <= i < |t.db.rows| && t.db.rows[i] == e;
    RawDaysMeaning(t.db.rows, from);
    DayOfInstant(e.occurredAt, day);
  }

  /**
   * Over every run, careful or not, with no raw event of the window deleted: a day of the window on which more events
   * were counted than stored, because one was counted twice, is checked and reported.
   */
  lemma DoubleCountsAreReported(fl: real -> real, s: State, actions: seq<Action>, from: int, day: int)
    requires Initial(s) && WindowIntact(Run(s, actions), from) && from % DAY_MS == 0
    requires day >= from && day % 86_400_000 == 0
    requires CountOn(Run(s, actions).counted, day) != CountOn(Run(s, actions).Stored(), day)
    ensures var t := Run(s, actions);
      day in RawDays(t.db.rows, from) && Drifts(fl, t.db.rows, t.db.daily, day)
  {
    hide Run, Initial, SumOf, Exceeds, RawDays, CountOn;
    var t := Run(s, actions);
    TableCounts(s, actions, Day, Requests, On(day));
    OnlyStoredAlways(s, actions);
    RequestsOnDay(t.counted, day);
    RequestsOnDay(t.Stored(), day);
    WindowSum(t.db.rows, t.purged, from, day, Requests);
    if CountOn(t.counted, day) > 0 { CountedSomewhere(t.counted, day); } else { CountedSomewhere(t.Stored(), day); }
    var e :| e in t.Stored() && DayHolds(day, e);
    StoredDayIsChecked(t, from, day, e);
  }

  /** At exactly 1e-6 USD the doubles report 1.000002 against 1.000001, and not 0.000002 against 0.000001. */
  lemma BoundaryGoesEitherWay(fl: real -> real)
    requires RoundsToDouble(fl)
    ensures Exceeds(fl, 100_000_200, 100_000_100) && !Exceeds(fl, 200, 100)
  {
    MicrodollarIsReported(fl);
    MicrodollarPasses(fl);
  }

  lemma {:induction false} NoneDrifting(fl: real -> real, rows: seq<UsageEvent>, daily: seq<Row>, days: seq<int>)
    requires forall i :: 0 <= i < |days| ==> !Drifts(fl, rows, daily, days[i])
    ensures Drifting(fl, rows, daily, days) == 0
  {
    if days != [] { NoneDrifting(fl, rows, daily, days[..|days| - 1]); }
  }

  /** A day of one increment, or of two whose rounding does not add up to 1e-6 USD. */
  ghost predicate QuietDay(t: State, day: int) {
    && ModerateDay(t, day)
    && (Increments(t, Day, On(day)) <= 1
        || (Increments(t, Day, On(day)) == 2 && Abs(RoundingOf(t.applied, day)) != 100))
  }

  lemma QuietDoesNotDrift(fl: real -> real, s: State, actions: seq<Action>, from: int, day: int)
    requires RoundsToDouble(fl)
    requires Initial(s) && CarefulRun(s, actions) && WindowIntact(Run(s, actions), from) && from % DAY_MS == 0
    requires QuietDay(Run(s, actions), day) && day >= from
    ensures !Drifts(fl, Run(s, actions).db.rows, Run(s, actions).db.daily, day)
  {
    hide Run, CarefulRun, Initial, SumOf, RoundingOf, RoundsToDouble, Exceeds, Drifts, ModerateDay;
    AgreesAlways(s, actions, day);
    CostsDifferByRounding(s, actions, day);
    DriftsIffRoundingShows(fl, s, actions, from, day);
  }

  /**
   * Such a run is reported clean when every day of the window has received at most two increments, and those of a day
   * of two are not both half units rounded the same way. Two half units can have their day reported
   * (Runs.TwoHalvesCanBeReported).
   */
  lemma QuietUpToTwoIncrements(fl: real -> real, s: State, actions: seq<Action>, now: int, windowDays: nat)
    requires RoundsToDouble(fl)
    requires Initial(s) && CarefulRun(s, actions) && WindowIntact(Run(s, actions), WindowStart(now, windowDays))
    requires forall day :: day in RawDays(Run(s, actions).db.rows, WindowStart(now, windowDays)) ==>
      QuietDay(Run(s, actions), day)
    ensures var t := Run(s, actions);
      Drifting(fl, t.db.rows, t.db.daily, RawDays(t.db.rows, WindowStart(now, windowDays))) == 0
  {
    hide Run, CarefulRun, Initial, SumOf, QuietDay, RoundsToDouble, Drifts;
    var t, from := Run(s, actions), WindowStart(now, windowDays);
    TruncationNests(now - windowDays * DAY_MS);
    var days := RawDays(t.db.rows, from);
    RawDaysMeaning(t.db.rows, from);
    forall i | 0 <= i < |days| ensures !Drifts(fl, t.db.rows, t.db.daily, days[i]) {
      assert days[i] in days;
      QuietDoesNotDrift(fl, s, actions, from, days[i]);
    }
    NoneDrifting(fl, t.db.rows, t.db.daily, days);
  }

  lemma OnTheDay(x: Entry, day: int, m: Measure)
    requires x.key.bucket == day
    ensures Over(m, On(day))(x) == Get(x.total, m)
  {
    var q := On(day);
    assert q(x.key);
  }

  lemma {:induction false} EqualCosts(groups: seq<Keyed<Key>>, day: int, cost: int)
    requires forall i :: 0 <= i < |groups| ==> groups[i].group.day == day && groups[i].group.total.cost == cost
    ensures SumOf(RoundedEntries(groups, Day), Over(Cost, On(day))) == |groups| * RoundTo6(cost)
    ensures SumOf(GroupEntries(groups, Day), Over(Cost, On(day))) == |groups| * cost
  {
    if groups != [] {
      hide RoundTo6;
      var init, g := groups[..|groups| - 1], groups[|groups| - 1].group;
      EqualCosts(init, day, cost);
      assert RoundedEntries(groups, Day)[..|init|] == RoundedEntries(init, Day);
      assert GroupEntries(groups, Day)[..|init|] == GroupEntries(init, Day);
      OnTheDay(Entry(g.Bucket(Day), Rounded(g.total)), day, Cost);
      OnTheDay(Entry(g.Bucket(Day), g.total), day, Cost);
    }
  }

  /** n increments of equal cost on one day are moved by n times what rounding moves one. */
  lemma EqualCostsRound(groups: seq<Keyed<Key>>, day: int, cost: int)
    requires forall i :: 0 <= i < |groups| ==> groups[i].group.day == day && groups[i].group.total.cost == cost
    ensures RoundingOf(groups, day) == 100 * (|groups| * RoundTo6(cost)) - |groups| * cost
  {
    EqualCosts(groups, day, cost);
  }
}
