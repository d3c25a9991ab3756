/** lastUsedAt of the virtual keys (apps/worker/src/ingest/persist.ts, touchVirtualKeys), for a commit and over runs. */
module LastUsed {
  import opened Wrappers
  import opened Events
  import opened Rollups
  import opened Ledger
  import opened LedgerLaws
  import opened Pipeline
  import opened Exactness

  /**
   * `after` is the latest of `before` and the instants of the key's events among `events`: not earlier than any of
   * them, and one of them.
   */
  ghost predicate IsLatest(before: Option<int>, events: seq<UsageEvent>, key: string, after: Option<int>) {
    && (before.Some? ==> after.Some? && after.value >= before.value)
    && (forall e :: e in events && e.virtualKeyId == key ==> after.Some? && after.value >= e.occurredAt)
    && (after == before || exists e :: e in events && e.virtualKeyId == key && after == Some(e.occurredAt))
  }

  // ----- one commit -----

  lemma InsertedIsCounted(db: Tables, batch: seq<UsageEvent>, e: UsageEvent)
    requires e in Inserted(db.rows, batch)
    ensures e in CountedBy(db, batch)
  {
    var inserted := Inserted(db.rows, batch);
    InsertedAreOfTheBatch(db.rows, batch);
    var i :| 0 <= i < |inserted| && inserted[i] == e;
    assert inserted[i].id in Ids(inserted);
    FreshMeans(Ids(inserted), batch, e);
  }

  lemma CommitMoves(db: Tables, batch: seq<UsageEvent>, key: string)
    requires key in db.lastUsed
    ensures Commit(db, batch).lastUsed.Keys == db.lastUsed.Keys
    ensures IsLatest(db.lastUsed[key], CountedBy(db, batch), key, Commit(db, batch).lastUsed[key])
  {
    var inserted, counted := Inserted(db.rows, batch), CountedBy(db, batch);
    TouchMovesForward(db.lastUsed, counted, key);
    if inserted == [] {
      assert Ids([]) == {};
      NothingFresh(batch);
    }
  }

  lemma NewIsInserted(rows: seq<UsageEvent>, batch: seq<UsageEvent>, n: nat, i: nat)
    requires i < n <= |batch| && New(rows, batch, i)
    ensures batch[i] in Inserted(rows, batch[..n])
  {
    InsertedNext(rows, batch, n - 1);
    if i < n - 1 { NewIsInserted(rows, batch, n - 1, i); }
  }

  /**
   * What a commit does to lastUsedAt of an existing key: it reaches every event of the key that is inserted, never
   * moves back, and moves only to the instant of an event of the key in the batch. No key appears or disappears.
   */
  lemma CommitTouches(db: Tables, batch: seq<UsageEvent>, key: string)
    requires key in db.lastUsed
    ensures Commit(db, batch).lastUsed.Keys == db.lastUsed.Keys
    ensures var was, now_ := db.lastUsed[key], Commit(db, batch).lastUsed[key];
      && (forall i :: 0 <= i < |batch| && New(db.rows, batch, i) && batch[i].virtualKeyId == key ==>
            now_.Some? && now_.value >= batch[i].occurredAt)
      && (was.Some? ==> now_.Some? && now_.value >= was.value)
      && (now_ == was || exists e :: e in batch && e.virtualKeyId == key && now_ == Some(e.occurredAt))
  {
    hide Commit, Inserted;
    CommitMoves(db, batch, key);
    assert batch[..|batch|] == batch;
    forall i | 0 <= i < |batch| && New(db.rows, batch, i) ensures batch[i] in CountedBy(db, batch) {
      NewIsInserted(db.rows, batch, |batch|, i);
      InsertedIsCounted(db, batch, batch[i]);
    }
    forall e ensures e in CountedBy(db, batch) ==> e in batch { FreshMeans(Ids(Inserted(db.rows, batch)), batch, e); }
  }

  // ----- over runs -----

  lemma Onward(a: Option<int>, b: Option<int>, c: Option<int>, old_: seq<UsageEvent>, more: seq<UsageEvent>,
      all: seq<UsageEvent>, key: string)
    requires IsLatest(a, old_, key, b) && IsLatest(b, more, key, c)
    requires forall e :: e in all <==> e in old_ || e in more
    ensures IsLatest(a, all, key, c)
  {}

  ghost predicate SameKeys(s: State, t: State) { t.db.lastUsed.Keys == s.db.lastUsed.Keys }

  /** In a step, the events that lastUsedAt is moved by are those that the step adds to the stored ones. */
  lemma StepMoves(s: State, a: Action, key: string) returns (more: seq<UsageEvent>)
    requires Copies(s) && key in s.db.lastUsed
    ensures SameKeys(s, Step(s, a)) && IsLatest(s.db.lastUsed[key], more, key, Step(s, a).db.lastUsed[key])
    ensures forall e :: e in Step(s, a).Stored() <==> e in s.Stored() || e in more
  {
    more := [];
    if Enabled(s, a) {
      match a
      case CommitBatch(w) =>
        more := CountedBy(s.db, Batch(s, w));
        CommitMoves(s.db, Batch(s, w), key);
        CommitAdds(s, w);
      case Purge(row) =>
        PurgeKeeps(s, row);
      case _ =>
        OtherTables(s, a);
    }
  }

  lemma OtherTables(s: State, a: Action)
    requires Enabled(s, a) && !a.CommitBatch? && !a.Purge?
    ensures Step(s, a).db == s.db && Step(s, a).purged == s.purged
  {}

  lemma CommitAdds(s: State, w: nat)
    requires Copies(s) && Ready(s, w)
    ensures forall e :: e in Committed(s, w).Stored() <==> e in s.Stored() || e in CountedBy(s.db, Batch(s, w))
  {
    var batch := Batch(s, w);
    var inserted := Inserted(s.db.rows, batch);
    CommitRows(s.db, batch);
    forall e | e in CountedBy(s.db, batch) ensures e in s.Stored() || e in inserted { CountedIsKept(s, w, e); }
    forall e | e in inserted ensures e in CountedBy(s.db, batch) { InsertedIsCounted(s.db, batch, e); }
  }

  /** In every reachable state lastUsedAt of a key is the latest of its initial value and of its events ever stored. */
  lemma {:induction false} LastUsedIsLatest(s: State, actions: seq<Action>, key: string)
    requires Initial(s) && key in s.db.lastUsed
    ensures var t := Run(s, actions);
      SameKeys(s, t) && IsLatest(s.db.lastUsed[key], t.Stored(), key, t.db.lastUsed[key])
  {
    if actions != [] {
      hide Step, IsLatest, Initial;
      var init, a := actions[..|actions| - 1], actions[|actions| - 1];
      LastUsedIsLatest(s, init, key);
      Pipeline.InvAlways(s, init);
      var more := StepMoves(Run(s, init), a, key);
      var t := Run(s, init);
      Onward(s.db.lastUsed[key], t.db.lastUsed[key], Step(t, a).db.lastUsed[key], t.Stored(), more,
        Step(t, a).Stored(), key);
    } else {
      NothingStored(s, key);
    }
  }

  lemma NothingStored(s: State, key: string)
    requires Initial(s) && key in s.db.lastUsed
    ensures IsLatest(s.db.lastUsed[key], s.Stored(), key, s.db.lastUsed[key])
  {}

  /** It never moves back, whatever happens. */
  lemma NeverBack(s: State, before: seq<Action>, a: Action, key: string)
    requires Initial(s) && key in s.db.lastUsed
    ensures var was := Run(s, before).db.lastUsed;
      var now_ := Run(s, before + [a]).db.lastUsed;
      key in was && key in now_ && (was[key].Some? ==> now_[key].Some? && now_[key].value >= was[key].value)
  {
    hide Step, Initial;
    LastUsedIsLatest(s, before, key);
    Pipeline.InvAlways(s, before);
    RunNext(s, before, a);
    var more := StepMoves(Run(s, before), a, key);
  }
}
