/**
 * The metering path as a step system: gateway, stream, consumer group, any number of workers, tables, retention.
 * Every stretch of worker code between two awaits is one step, and every call may fail at any point.
 */
module Pipeline {
  import opened Events
  import opened Rollups
  import opened Ledger
  import opened Sequences
  import G = Gateway

  /** A stream entry as decodeBatch sees it; its id is its position in the log of all entries ever added. */
  datatype Content = Sent(event: UsageEvent) | Poison(payload: string)

  datatype DeadLetter = DeadLetter(sourceId: nat, payload: string)

  datatype ConsumerGroup = Absent | Present(cursor: nat, pending: set<nat>)

  /**
   * An ingest loop between two awaits; the batch is the stretch log[lo..hi], of whose invalid entries `written` are in
   * the DLQ.
   */
  datatype Worker = Idle | Reading(lo: nat, hi: nat, written: nat) | Persisted(lo: nat, hi: nat)

  /**
   * The stream holds log[base..]; `now` is the retention job's clock. The last four fields are history: entries acked,
   * rows deleted by retention, events counted by the commits, and the increments that the commits applied.
   */
  datatype State = State(
    pg: Database, retentionMs: nat, now: int, gateway: G.Gateway, log: seq<Content>, base: nat, group: ConsumerGroup,
      workers: seq<Worker>,
    db: Tables, dlq: seq<DeadLetter>,
    acked: set<nat>, purged: seq<UsageEvent>, counted: seq<UsageEvent>, applied: seq<Keyed<Key>>) {
    /** Every row ever stored. */
    function Stored(): seq<UsageEvent> { db.rows + purged }
  }

  ghost predicate Initial(s: State) {
    && s.gateway == G.EMPTY && s.log == [] && s.base == 0 && s.dlq == []
    && (forall w :: 0 <= w < |s.workers| ==> s.workers[w] == Idle)
    && (s.group.Present? ==> s.group == Present(0, {}))
    && s.db.rows == [] && s.db.hourly == [] && s.db.daily == []
    && s.acked == {} && s.purged == [] && s.counted == [] && s.applied == []
  }

  datatype Action =
    | Move(move: G.Move)           // the gateway emits, publishes or drops
    | Foreign(payload: string)     // something else puts an undecodable entry on the stream
    | Deliver(w: nat, count: nat)  // XREADGROUP ... COUNT count ... >
    | WriteDlq(w: nat)
    | CommitBatch(w: nat)          // persistBatch succeeds
    | Ack(w: nat)
    | Fail(w: nat)                 // an abort, another error or a crash sends the worker back to its loop head
    | LoseGroup
    | LoseStream
    | Recreate                     // XGROUP CREATE ... 0 MKSTREAM
    | Tick(ms: nat)
    | Purge(row: nat)              // retention deletes a row past its window

  /** The events that decode, in order. */
  function Valid(log: seq<Content>, lo: nat, hi: nat): seq<UsageEvent>
    requires lo <= hi <= |log|
    decreases hi
  {
    if lo == hi then []
    else Valid(log, lo, hi - 1) + if log[hi - 1].Sent? then [log[hi - 1].event] else []
  }

  function Invalid(log: seq<Content>, lo: nat, hi: nat): seq<DeadLetter>
    requires lo <= hi <= |log|
    decreases hi
  {
    if lo == hi then []
    else Invalid(log, lo, hi - 1) + if log[hi - 1].Poison? then [DeadLetter(hi - 1, log[hi - 1].payload)] else []
  }

  function Positions(lo: nat, hi: nat): (r: set<nat>)
    ensures forall i :: i in r <==> lo <= i < hi
  {
    if lo >= hi then {} else Positions(lo, hi - 1) + {hi - 1}
  }

  /** The batch a reading worker will persist, once every invalid entry of it is in the DLQ. */
  ghost predicate Ready(s: State, w: nat) {
    && w < |s.workers| && s.workers[w].Reading? && s.workers[w].lo <= s.workers[w].hi <= |s.log|
    && s.workers[w].written == |Invalid(s.log, s.workers[w].lo, s.workers[w].hi)|
  }

  function Batch(s: State, w: nat): seq<UsageEvent>
    requires w < |s.workers| && s.workers[w].Reading? && s.workers[w].lo <= s.workers[w].hi <= |s.log|
  {
    Valid(s.log, s.workers[w].lo, s.workers[w].hi)
  }

  ghost predicate Enabled(s: State, a: Action) {
    match a
    case Move(m) => m.Emits? ==> forall e :: e in s.gateway.emitted ==> e.id != m.event.id  // ids are fresh
    case Foreign(_) => true
    case Deliver(w, count) =>
      && w < |s.workers| && s.workers[w].Idle?
      && s.group.Present? && s.group.cursor < |s.log| && count > 0
    case WriteDlq(w) =>
      && w < |s.workers| && s.workers[w].Reading? && s.workers[w].lo <= s.workers[w].hi <= |s.log|
      && s.workers[w].written < |Invalid(s.log, s.workers[w].lo, s.workers[w].hi)|
    case CommitBatch(w) =>
      && Ready(s, w)
      && (forall i :: 0 <= i < |Batch(s, w)| ==> s.pg.accepts(Batch(s, w)[i]))
      && Readable(s.db, Batch(s, w))
    case Ack(w) => w < |s.workers| && s.workers[w].Persisted?
    case Fail(w) => w < |s.workers|
    case LoseGroup => true
    case LoseStream => true
    case Recreate => s.group.Absent?
    case Tick(_) => true
    case Purge(row) => row < |s.db.rows| && s.db.rows[row].occurredAt < s.now - s.retentionMs
  }

  function Min(a: nat, b: nat): nat { if a < b then a else b }

  function Delivered(s: State, w: nat, count: nat): State
    requires w < |s.workers| && s.group.Present? && s.group.cursor < |s.log|
  {
    var lo, hi := s.group.cursor, Min(s.group.cursor + count, |s.log|);
    s.(workers := s.workers[w := Reading(lo, hi, 0)], group := Present(hi, s.group.pending + Positions(lo, hi)))
  }

  /** The events that committing a batch counts. */
  function CountedBy(db: Tables, batch: seq<UsageEvent>): seq<UsageEvent> {
    Fresh(Ids(Inserted(db.rows, batch)), batch)
  }

  function Committed(s: State, w: nat): State
    requires w < |s.workers| && s.workers[w].Reading? && s.workers[w].lo <= s.workers[w].hi <= |s.log|
  {
    var more := CountedBy(s.db, Batch(s, w));
    s.(db := Commit(s.db, Batch(s, w)), counted := s.counted + more, applied := s.applied + GroupBy(HourKey(), more),
       workers := s.workers[w := Persisted(s.workers[w].lo, s.workers[w].hi)])
  }

  function Acked(s: State, w: nat): State
    requires w < |s.workers| && s.workers[w].Persisted?
  {
    var ids := Positions(s.workers[w].lo, s.workers[w].hi);
    s.(group := if s.group.Present? then s.group.(pending := s.group.pending - ids) else Absent,
       acked := s.acked + ids, workers := s.workers[w := Idle])
  }

  function Moved(s: State, m: G.Move): State {
    var g := G.Apply(s.gateway, m);
    s.(gateway := g, log := s.log + if |g.stream| > |s.gateway.stream| then [Sent(g.stream[|g.stream| - 1])] else [])
  }

  ghost function Step(s: State, a: Action): State {
    if !Enabled(s, a) then s
    else
      match a
      case Move(m) => Moved(s, m)
      case Foreign(payload) => s.(log := s.log + [Poison(payload)])
      case Deliver(w, count) => Delivered(s, w, count)
      case WriteDlq(w) =>
        var k := s.workers[w];
        s.(dlq := s.dlq + [Invalid(s.log, k.lo, k.hi)[k.written]],
           workers := s.workers[w := k.(written := k.written + 1)])
      case CommitBatch(w) => Committed(s, w)
      case Ack(w) => Acked(s, w)
      case Fail(w) => s.(workers := s.workers[w := Idle])
      case LoseGroup => s.(group := Absent)
      case LoseStream => s.(group := Absent, base := |s.log|)
      case Recreate => s.(group := Present(s.base, {}))
      case Tick(ms) => s.(now := s.now + ms)
      case Purge(row) =>
        s.(db := s.db.(rows := s.db.rows[..row] + s.db.rows[row + 1..]), purged := s.purged + [s.db.rows[row]])
  }

  ghost function Run(s: State, actions: seq<Action>): State {
    if actions == [] then s else Step(Run(s, actions[..|actions| - 1]), actions[|actions| - 1])
  }

  lemma RunNext(s: State, steps: seq<Action>, a: Action)
    ensures Run(s, steps + [a]) == Step(Run(s, steps), a) && Run(s, []) == s
    ensures steps == [] ==> steps + [a] == [a]
  {
    assert (steps + [a])[..|steps|] == steps;
  }

  lemma {:induction false} RunConcat(s: State, a: seq<Action>, b: seq<Action>)
    ensures Run(s, a + b) == Run(Run(s, a), b)
  {
    if b == [] {
      assert a + b == a;
    } else {
      assert (a + b)[..|a + b| - 1] == a + b[..|b| - 1];
      RunConcat(s, a, b[..|b| - 1]);
    }
  }

  // ----- what every step keeps -----

  ghost predicate UniqueIds(events: multiset<UsageEvent>) {
    forall e, f :: e in events && f in events && e.id == f.id ==> e == f
  }

  /** Copies of an id are identical, and whatever is on the stream or in the table was emitted. */
  ghost predicate Copies(s: State) {
    && UniqueIds(s.gateway.emitted)
    && (forall e :: e in s.gateway.unsent ==> e in s.gateway.emitted)
    && (forall i :: 0 <= i < |s.log| && s.log[i].Sent? ==> s.log[i].event in s.gateway.emitted)
    && (forall e :: e in s.Stored() ==> e in s.gateway.emitted)
  }

  /** An entry is settled when its event is, or was, stored or it is in the DLQ. */
  ghost predicate Settled(s: State, i: nat) {
    && i < |s.log|
    && match s.log[i]
       case Sent(e) => e in s.Stored()
       case Poison(payload) => DeadLetter(i, payload) in s.dlq
  }

  ghost predicate WorkerSafe(s: State, k: Worker) {
    match k
    case Idle => true
    case Reading(lo, hi, written) =>
      && lo <= hi <= |s.log| && written <= |Invalid(s.log, lo, hi)|
      && forall j :: 0 <= j < written ==> Invalid(s.log, lo, hi)[j] in s.dlq
    case Persisted(lo, hi) => lo <= hi <= |s.log| && forall i :: lo <= i < hi ==> Settled(s, i)
  }

  ghost predicate Safe(s: State) {
    && (forall i :: i in s.acked ==> Settled(s, i))
    && (forall w :: 0 <= w < |s.workers| ==> WorkerSafe(s, s.workers[w]))
  }

  /** What is on the stream and was delivered to the group is pending or acked. */
  ghost predicate Tracked(s: State) {
    && s.base <= |s.log|
    && (s.group.Present? ==>
          && s.base <= s.group.cursor <= |s.log|
          && forall i: nat :: s.base <= i < s.group.cursor ==> i in s.group.pending || i in s.acked)
  }

  /** The gateway's account: an emitted event that never reached the stream is unsent or counted as dropped. */
  ghost predicate Accounted(g: G.Gateway) {
    g.emitted <= g.unsent + g.dropped + multiset(g.stream)
  }

  ghost predicate LogIsStream(s: State) { Valid(s.log, 0, |s.log|) == s.gateway.stream }

  // ----- growth -----

  lemma {:induction false} LongerLog(log: seq<Content>, more: seq<Content>, lo: nat, hi: nat)
    requires lo <= hi <= |log|
    ensures Valid(log + more, lo, hi) == Valid(log, lo, hi) && Invalid(log + more, lo, hi) == Invalid(log, lo, hi)
    decreases hi
  {
    if lo < hi { LongerLog(log, more, lo, hi - 1); }
  }

  /** The log, the DLQ and the store only grow. */
  ghost predicate Grows(s: State, t: State) {
    && s.log <= t.log
    && (forall d :: d in s.dlq ==> d in t.dlq)
    && (forall e :: e in s.Stored() ==> e in t.Stored())
  }

  lemma {:induction false} InsertedAreOfTheBatch(rows: seq<UsageEvent>, batch: seq<UsageEvent>)
    ensures forall e :: e in Inserted(rows, batch) ==> e in batch && !HasPk(rows, e)
  {
    if batch != [] { InsertedAreOfTheBatch(rows, batch[..|batch| - 1]); }
  }

  lemma CommitRows(db: Tables, batch: seq<UsageEvent>)
    ensures Commit(db, batch).rows == db.rows + Inserted(db.rows, batch)
  {}

  lemma StepGrows(s: State, a: Action)
    ensures Grows(s, Step(s, a))
  {
    var t := Step(s, a);
    if Enabled(s, a) {
      match a
      case CommitBatch(w) =>
        CommitRows(s.db, Batch(s, w));
      case Purge(row) =>
        PurgeKeeps(s, row);
      case _ =>
    }
  }

  lemma PurgeKeeps(s: State, row: nat)
    requires Enabled(s, Purge(row))
    ensures multiset(Step(s, Purge(row)).Stored()) == multiset(s.Stored())
    ensures forall e :: e in Step(s, Purge(row)).Stored() <==> e in s.Stored()
  {
    hide Run;
    var t := Step(s, Purge(row));
    assert t.Stored() == s.db.rows[..row] + s.db.rows[row + 1..] + (s.purged + [s.db.rows[row]]);
    MoveOver(s.db.rows, s.purged, row);
    SameElements(t.Stored(), s.Stored());
  }

  lemma SettledStays(s: State, t: State, i: nat)
    requires Grows(s, t) && Settled(s, i)
    ensures Settled(t, i)
  {
    assert t.log[i] == s.log[i];
  }

  lemma WorkerStaysSafe(s: State, t: State, k: Worker)
    requires Grows(s, t) && WorkerSafe(s, k)
    ensures WorkerSafe(t, k)
  {
    if k.Reading? {
      LongerLog(s.log, t.log[|s.log|..], k.lo, k.hi);
      assert s.log + t.log[|s.log|..] == t.log;
    }
    if k.Persisted? {
      forall i | k.lo <= i < k.hi ensures Settled(t, i) { SettledStays(s, t, i); }
    }
  }

  // ----- each invariant is kept -----

  lemma {:induction false} ValidIsOnLog(log: seq<Content>, lo: nat, hi: nat, e: UsageEvent)
    requires lo <= hi <= |log|
    ensures e in Valid(log, lo, hi) <==> exists i :: lo <= i < hi && log[i] == Sent(e)
    decreases hi
  {
    if lo < hi {
      ValidIsOnLog(log, lo, hi - 1, e);
      var before := Valid(log, lo, hi - 1);
      if log[hi - 1].Sent? {
        assert Valid(log, lo, hi) == before + [log[hi - 1].event];
        assert e in before + [log[hi - 1].event] <==> e in before || e == log[hi - 1].event;
      } else {
        assert Valid(log, lo, hi) == before;
      }
    }
  }

  lemma {:induction false} InvalidIsOnLog(log: seq<Content>, lo: nat, hi: nat, i: nat)
    requires lo <= i < hi <= |log| && log[i].Poison?
    ensures DeadLetter(i, log[i].payload) in Invalid(log, lo, hi)
    decreases hi
  {
    if i < hi - 1 { InvalidIsOnLog(log, lo, hi - 1, i); }
  }

  lemma BatchIsEmitted(s: State, w: nat)
    requires Copies(s) && Ready(s, w)
    ensures forall e :: e in Batch(s, w) ==> e in s.gateway.emitted
  {
    forall e | e in Batch(s, w) ensures e in s.gateway.emitted {
      ValidIsOnLog(s.log, s.workers[w].lo, s.workers[w].hi, e);
    }
  }

  lemma EmitCopies(s: State, e: UsageEvent)
    requires Copies(s) && Enabled(s, Move(G.Emits(e)))
    ensures Copies(Moved(s, G.Emits(e)))
  {
    var t := Moved(s, G.Emits(e));
    assert t.log == s.log;
    assert forall f :: f in t.gateway.emitted <==> f in s.gateway.emitted || f == e;
    assert UniqueIds(t.gateway.emitted);
  }

  lemma SendCopies(s: State, m: G.Move)
    requires Copies(s) && !m.Emits?
    ensures Copies(Moved(s, m))
  {
    var t := Moved(s, m);
    assert t.gateway.emitted == s.gateway.emitted;
    assert forall e :: e in t.gateway.unsent ==> e in s.gateway.unsent;
    if |t.gateway.stream| > |s.gateway.stream| {
      assert t.log == s.log + [Sent(m.event)] && m.event in s.gateway.unsent;
    } else {
      assert t.log == s.log;
    }
  }

  lemma CopiesKept(s: State, a: Action)
    requires Copies(s)
    ensures Copies(Step(s, a))
  {
    if Enabled(s, a) {
      match a
      case Move(m) => if m.Emits? { EmitCopies(s, m.event); } else { SendCopies(s, m); }
      case CommitBatch(w) =>
        BatchIsEmitted(s, w);
        InsertedAreOfTheBatch(s.db.rows, Batch(s, w));
        CommitRows(s.db, Batch(s, w));
      case Purge(row) => PurgeKeeps(s, row);
      case _ =>
    }
  }

  /** After the transaction every event of its batch is stored, as the very event that was sent. */
  lemma CommitSettles(s: State, w: nat, i: nat)
    requires Ready(s, w) && Copies(s) && Copies(Committed(s, w)) && WorkerSafe(s, s.workers[w])
    requires s.workers[w].lo <= i < s.workers[w].hi
    ensures Settled(Committed(s, w), i)
  {
    var k, t, batch := s.workers[w], Committed(s, w), Batch(s, w);
    if s.log[i].Sent? {
      var e := s.log[i].event;
      ValidIsOnLog(s.log, k.lo, k.hi, e);
      CommitRows(s.db, batch);
      StoresTheBatch(s.db.rows, batch, e);
      var j :| 0 <= j < |t.db.rows| && SamePk(t.db.rows[j], e);
      assert t.db.rows[j] in t.Stored();
    } else {
      InvalidIsOnLog(s.log, k.lo, k.hi, i);
    }
  }

  lemma {:induction false} StoresTheBatch(rows: seq<UsageEvent>, batch: seq<UsageEvent>, e: UsageEvent)
    requires e in batch
    ensures HasPk(rows + Inserted(rows, batch), e)
  {
    var init, last := batch[..|batch| - 1], batch[|batch| - 1];
    var before := Inserted(rows, init);
    assert batch == init + [last];
    HasPkConcat(rows, before, e);
    HasPkConcat(rows, before + [last], e);
    HasPkConcat(before, [last], e);
    if e in init {
      StoresTheBatch(rows, init, e);
    } else if !HasPk(rows, e) && !HasPk(before, e) {
      assert SamePk([last][0], e);
    } else {
      HasPkConcat(rows, Inserted(rows, batch), e);
    }
  }

  lemma CommitIsSafe(s: State, w: nat)
    requires Copies(s) && Safe(s) && Enabled(s, CommitBatch(w))
    ensures WorkerSafe(Committed(s, w), Persisted(s.workers[w].lo, s.workers[w].hi))
  {
    CopiesKept(s, CommitBatch(w));
    forall i | s.workers[w].lo <= i < s.workers[w].hi ensures Settled(Committed(s, w), i) { CommitSettles(s, w, i); }
  }

  /** The new phase of the one worker that a step touches. */
  lemma NewPhaseIsSafe(s: State, a: Action, w: nat)
    requires Copies(s) && Safe(s) && Tracked(s) && Enabled(s, a) && w < |s.workers|
    requires Step(s, a).workers[w] != s.workers[w]
    ensures WorkerSafe(Step(s, a), Step(s, a).workers[w])
  {
    var t := Step(s, a);
    match a
    case WriteDlq(_) =>
      var k := s.workers[w];
      StepGrows(s, a);
      WorkerStaysSafe(s, t, k);
      assert Invalid(s.log, k.lo, k.hi)[k.written] in t.dlq;
    case CommitBatch(_) =>
      CommitIsSafe(s, w);
    case _ =>
  }

  lemma SafeKept(s: State, a: Action)
    requires Copies(s) && Safe(s) && Tracked(s)
    ensures Safe(Step(s, a))
  {
    var t := Step(s, a);
    if Enabled(s, a) {
      StepGrows(s, a);
      forall i | i in t.acked ensures Settled(t, i) {
        if i in s.acked {
          SettledStays(s, t, i);
        } else {
          assert Settled(s, i);
          SettledStays(s, t, i);
        }
      }
      assert |t.workers| == |s.workers|;
      forall w | 0 <= w < |t.workers| ensures WorkerSafe(t, t.workers[w]) {
        if t.workers[w] == s.workers[w] { WorkerStaysSafe(s, t, s.workers[w]); } else { NewPhaseIsSafe(s, a, w); }
      }
    }
  }

  lemma TrackedKept(s: State, a: Action)
    requires Tracked(s)
    ensures Tracked(Step(s, a))
  {
    if Enabled(s, a) { StepGrows(s, a); }
  }

  lemma LogIsStreamKept(s: State, a: Action)
    requires LogIsStream(s)
    ensures LogIsStream(Step(s, a))
  {
    if Enabled(s, a) {
      StepGrows(s, a);
      var t := Step(s, a);
      LongerLog(s.log, t.log[|s.log|..], 0, |s.log|);
      assert s.log + t.log[|s.log|..] == t.log;
    }
  }

  lemma AccountedKept(g: G.Gateway, m: G.Move)
    requires Accounted(g)
    ensures Accounted(G.Apply(g, m))
  {
    var h := G.Apply(g, m);
    if |h.stream| > |g.stream| { assert multiset(h.stream) == multiset(g.stream) + multiset{m.event}; }
  }

  ghost predicate Inv(s: State) { Copies(s) && Safe(s) && Tracked(s) && LogIsStream(s) && Accounted(s.gateway) }

  lemma GatewayKept(s: State, a: Action)
    requires Accounted(s.gateway)
    ensures Accounted(Step(s, a).gateway)
  {
    if Enabled(s, a) && a.Move? { AccountedKept(s.gateway, a.move); }
  }

  lemma InvKept(s: State, a: Action)
    requires Inv(s)
    ensures Inv(Step(s, a))
  {
    CopiesKept(s, a);
    SafeKept(s, a);
    TrackedKept(s, a);
    LogIsStreamKept(s, a);
    GatewayKept(s, a);
  }

  /** Retention deletes only what is past its window. */
  ghost predicate PurgedIsOld(s: State) { forall e :: e in s.purged ==> e.occurredAt < s.now - s.retentionMs }

  /** An ack takes exactly the worker's batch out of the pending entries, and records it. */
  lemma AckClears(s: State, w: nat)
    requires Enabled(s, Ack(w)) && s.group.Present?
    ensures var t, k := Step(s, Ack(w)), s.workers[w];
      && t.group.Present? && t.group.cursor == s.group.cursor && t.workers[w] == Idle
      && (forall i :: i in t.group.pending <==> i in s.group.pending && !(k.lo <= i < k.hi))
      && (forall i :: i in t.acked <==> i in s.acked || k.lo <= i < k.hi)
  {}

  lemma PurgedIsOldKept(s: State, a: Action)
    requires PurgedIsOld(s)
    ensures PurgedIsOld(Step(s, a)) && Step(s, a).retentionMs == s.retentionMs && Step(s, a).now >= s.now
  {}

  /** Over every run an event that was ever stored is stored still unless it is past the retention window. */
  lemma {:induction false} WindowIsKept(s: State, actions: seq<Action>)
    requires Initial(s)
    ensures var t := Run(s, actions);
      && PurgedIsOld(t) && t.retentionMs == s.retentionMs
      && forall e :: e in t.Stored() && e.occurredAt >= t.now - s.retentionMs ==> e in t.db.rows
  {
    if actions != [] {
      hide Step;
      WindowIsKept(s, actions[..|actions| - 1]);
      PurgedIsOldKept(Run(s, actions[..|actions| - 1]), actions[|actions| - 1]);
    }
  }

  lemma InitialInv(s: State)
    requires Initial(s)
    ensures Inv(s)
  {}

  lemma {:induction false} InvAlways(s: State, actions: seq<Action>)
    requires Initial(s)
    ensures Inv(Run(s, actions))
  {
    if actions == [] {
      InitialInv(s);
    } else {
      InvAlways(s, actions[..|actions| - 1]);
      InvKept(Run(s, actions[..|actions| - 1]), actions[|actions| - 1]);
    }
  }

  // ----- what holds in every reachable state -----

  /** Over every run, an acked entry is in the DLQ or its event is stored (or was, until retention deleted it). */
  lemma AckedIsSettled(s: State, actions: seq<Action>, i: nat)
    requires Initial(s) && i in Run(s, actions).acked
    ensures var t := Run(s, actions);
      i < |t.log| && match t.log[i]
                     case Sent(e) => e in t.db.rows || e in t.purged
                     case Poison(payload) => DeadLetter(i, payload) in t.dlq
  {
    InvAlways(s, actions);
    assert Settled(Run(s, actions), i);
  }

  /**
   * Over every run, an emitted event is still with its gateway, was counted as dropped, or is an entry of the
   * stream's log; and that entry was lost with the stream, awaits delivery, is pending, or was acked.
   */
  lemma NothingIsLost(s: State, actions: seq<Action>, e: UsageEvent)
    requires Initial(s) && e in Run(s, actions).gateway.emitted
    ensures var t := Run(s, actions);
      || e in t.gateway.unsent || e in t.gateway.dropped
      || exists i :: 0 <= i < |t.log| && t.log[i] == Sent(e) && Whereabouts(t, i)
  {
    var t := Run(s, actions);
    InvAlways(s, actions);
    if e !in t.gateway.unsent && e !in t.gateway.dropped {
      assert t.gateway.emitted[e] <= (t.gateway.unsent + t.gateway.dropped + multiset(t.gateway.stream))[e];
      assert e in multiset(t.gateway.stream);
      ValidIsOnLog(t.log, 0, |t.log|, e);
      var i :| 0 <= i < |t.log| && t.log[i] == Sent(e);
      assert Whereabouts(t, i);
    }
  }

  ghost predicate Whereabouts(t: State, i: nat) {
    t.group.Present? ==> i < t.base || i >= t.group.cursor || i in t.group.pending || i in t.acked
  }

  // ----- no claim of pending entries -----

  /** Entry i of the present stream was delivered, was not acked, and no worker holds it any more. */
  ghost predicate Abandoned(s: State, i: nat) {
    && s.group.Present? && s.base <= i < s.group.cursor <= |s.log| && i in s.group.pending
    && forall w :: 0 <= w < |s.workers| ==>
      match s.workers[w]
      case Idle => true
      case Reading(lo, hi, _) => !(lo <= i < hi)
      case Persisted(lo, hi) => !(lo <= i < hi)
  }

  /** The step delivers entry i. */
  ghost predicate Delivers(s: State, a: Action, i: nat) {
    Enabled(s, a) && a.Deliver? && s.group.cursor <= i < Min(s.group.cursor + a.count, |s.log|)
  }

  ghost predicate Redelivers(s: State, actions: seq<Action>, i: nat) {
    actions != []
      && (Redelivers(s, actions[..|actions| - 1], i)
        || Delivers(Run(s, actions[..|actions| - 1]), actions[|actions| - 1], i))
  }

  predicate KeepsStream(actions: seq<Action>) { forall j :: 0 <= j < |actions| ==> !actions[j].LoseStream? }

  predicate LosesGroup(actions: seq<Action>) { exists j :: 0 <= j < |actions| && actions[j].LoseGroup? }

  lemma AbandonedStep(s: State, a: Action, i: nat)
    requires Abandoned(s, i) && !a.LoseGroup? && !a.LoseStream?
    ensures Abandoned(Step(s, a), i) && !Delivers(s, a, i)
  {}

  lemma SplitLast(actions: seq<Action>)
    requires actions != []
    ensures var init, a := actions[..|actions| - 1], actions[|actions| - 1];
      && (KeepsStream(actions) <==> KeepsStream(init) && !a.LoseStream?)
      && (LosesGroup(actions) <==> LosesGroup(init) || a.LoseGroup?)
  {
    var init, a := actions[..|actions| - 1], actions[|actions| - 1];
    assert actions == init + [a];
    if LosesGroup(init) {
      var j :| 0 <= j < |init| && init[j].LoseGroup?;
      assert actions[j].LoseGroup?;
    }
  }

  /** Only `>` is read and nothing claims pending entries: an abandoned entry stays so until the group is lost. */
  lemma {:induction false} AbandonedIsNotRetried(s: State, actions: seq<Action>, i: nat)
    requires Abandoned(s, i) && KeepsStream(actions) && !LosesGroup(actions)
    ensures Abandoned(Run(s, actions), i) && !Redelivers(s, actions, i)
  {
    if actions != [] {
      SplitLast(actions);
      AbandonedIsNotRetried(s, actions[..|actions| - 1], i);
      AbandonedStep(Run(s, actions[..|actions| - 1]), actions[|actions| - 1], i);
    }
  }

  /** The entry is on the stream, and the group, if there is one, has not come to it. */
  ghost predicate Ahead(s: State, i: nat) {
    s.base <= i < |s.log| && (s.group.Present? ==> s.base <= s.group.cursor <= i)
  }

  lemma AheadStep(s: State, a: Action, i: nat)
    requires Ahead(s, i) && !a.LoseStream? && !Delivers(s, a, i)
    ensures Ahead(Step(s, a), i) && |Step(s, a).workers| == |s.workers|
  {
    StepGrows(s, a);
  }

  lemma LoseGroupStep(s: State, i: nat)
    requires s.base <= i < |s.log|
    ensures Ahead(Step(s, LoseGroup), i)
  {}

  lemma StreamStays(s: State, a: Action)
    requires !a.LoseStream?
    ensures Step(s, a).base == s.base && |Step(s, a).log| >= |s.log| && |Step(s, a).workers| == |s.workers|
  {
    StepGrows(s, a);
  }

  /** Once the group has been lost, the entry lies ahead of the group or has been delivered again. */
  lemma {:induction false} LostGroupComesBack(s: State, actions: seq<Action>, i: nat)
    requires s.base <= i < |s.log| && KeepsStream(actions)
    ensures var t := Run(s, actions); t.base == s.base && |t.log| >= |s.log| && |t.workers| == |s.workers|
    ensures LosesGroup(actions) ==> Ahead(Run(s, actions), i) || Redelivers(s, actions, i)
  {
    if actions != [] {
      var init, a := actions[..|actions| - 1], actions[|actions| - 1];
      SplitLast(actions);
      LostGroupComesBack(s, init, i);
      StreamStays(Run(s, init), a);
      if a.LoseGroup? {
        LoseGroupStep(Run(s, init), i);
      } else if LosesGroup(init) && !Redelivers(s, actions, i) {
        AheadStep(Run(s, init), a, i);
      }
    }
  }

  /** An entry ahead of the group is delivered by a worker that starts over. */
  lemma AheadIsDelivered(s: State, i: nat)
    requires Ahead(s, i) && |s.workers| > 0
    ensures Redelivers(s, [Recreate] + [Fail(0)] + [Deliver(0, i + 1)], i)
  {
    RunNext(s, [], Recreate);
    assert [] + [Recreate] == [Recreate];
    var s1 := Step(s, Recreate);
    AheadStep(s, Recreate, i);
    RunNext(s, [Recreate], Fail(0));
    var s2 := Step(s1, Fail(0));
    AheadStep(s1, Fail(0), i);
    var all := [Recreate] + [Fail(0)] + [Deliver(0, i + 1)];
    assert all[..2] == [Recreate] + [Fail(0)];
    assert s2.workers[0] == Idle && Delivers(s2, Deliver(0, i + 1), i);
  }

  lemma {:induction false} RedeliversLater(s: State, actions: seq<Action>, more: seq<Action>, i: nat)
    requires Redelivers(s, actions, i) || Redelivers(Run(s, actions), more, i)
    ensures Redelivers(s, actions + more, i)
  {
    if more == [] {
      assert actions + more == actions;
    } else {
      var init := more[..|more| - 1];
      assert (actions + more)[..|actions + more| - 1] == actions + init;
      RunConcat(s, actions, init);
      if Redelivers(s, actions, i) || Redelivers(Run(s, actions), init, i) { RedeliversLater(s, actions, init, i); }
    }
  }

  ghost predicate CanRedeliver(s: State, actions: seq<Action>, i: nat) {
    exists more :: KeepsStream(more) && !LosesGroup(more) && Redelivers(s, actions + more, i)
  }

  lemma LosesGroupSomewhere(a: seq<Action>, b: seq<Action>)
    ensures LosesGroup(a + b) ==> LosesGroup(a) || LosesGroup(b)
    ensures KeepsStream(a) && KeepsStream(b) ==> KeepsStream(a + b)
  {}

  /**
   * An abandoned entry of a stream that is not lost is delivered again, now or later without further loss of the group,
   * if and only if the group has been lost.
   */
  lemma RetriedIffGroupIsLost(s: State, actions: seq<Action>, i: nat)
    requires Abandoned(s, i) && |s.workers| > 0 && KeepsStream(actions)
    ensures CanRedeliver(s, actions, i) <==> LosesGroup(actions)
  {
    if LosesGroup(actions) {
      LostGroupComesBack(s, actions, i);
      var more := if Redelivers(s, actions, i) then [] else [Recreate] + [Fail(0)] + [Deliver(0, i + 1)];
      if !Redelivers(s, actions, i) { AheadIsDelivered(Run(s, actions), i); }
      RedeliversLater(s, actions, more, i);
      assert CanRedeliver(s, actions, i);
    } else if CanRedeliver(s, actions, i) {
      var more :| KeepsStream(more) && !LosesGroup(more) && Redelivers(s, actions + more, i);
      LosesGroupSomewhere(actions, more);
      AbandonedIsNotRetried(s, actions + more, i);
    }
  }
}
