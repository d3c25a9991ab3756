/**
 * The ingest loop (apps/worker/src/ingest/consumer.ts) in its own form: its iterations are runs of the pipeline's
 * steps.
 */
module Consumer {
  import opened Wrappers
  import opened Events
  import opened Rollups
  import opened Ledger
  import opened Pipeline
  import G = Gateway

  // ----- decodeBatch -----

  datatype StreamEntry = StreamEntry(id: nat, fields: seq<string>)

  /** JSON.parse: a throw (or a value without properties), or an object, which may lack occurredAt. */
  datatype Json = NotJson | Json(event: UsageEvent, dated: bool)

  /** Array.prototype.indexOf; the length when absent. */
  function IndexOf(fields: seq<string>, name: string): (i: nat)
    ensures i <= |fields|
  {
    if fields == [] || fields[0] == name then 0 else 1 + IndexOf(fields[1..], name)
  }

  /** It is the first position. */
  lemma {:induction false} IndexIsFirst(fields: seq<string>, name: string, i: nat)
    requires i <= |fields| && (i < |fields| ==> fields[i] == name) && forall j :: 0 <= j < i ==> fields[j] != name
    ensures IndexOf(fields, name) == i
  {
    if i > 0 {
      assert fields[0] != name;
      assert forall j :: 0 <= j < i - 1 ==> fields[1..][j] == fields[j + 1];
      IndexIsFirst(fields[1..], name, i - 1);
    }
  }

  function Decode(parse: string -> Json, fields: seq<string>): Content {
    var i := IndexOf(fields, "payload");
    if i + 1 >= |fields| || fields[i + 1] == "" then Poison("")
    else
      match parse(fields[i + 1])
      case NotJson => Poison(fields[i + 1])
      case Json(e, dated) => if e.id == "" || e.workspaceId == "" || !dated then Poison(fields[i + 1]) else Sent(e)
  }

  function Decoded(parse: string -> Json, stream: seq<seq<string>>): seq<Content> {
    seq(|stream|, i requires 0 <= i < |stream| => Decode(parse, stream[i]))
  }

  /** What publishUsageEvent puts on the stream; `text` is JSON.stringify. */
  function Published(text: UsageEvent -> string, events: seq<UsageEvent>): seq<seq<string>> {
    seq(|events|, i requires 0 <= i < |events| => ["payload", text(events[i])])
  }

  /** JSON text is not empty and reads back. */
  ghost predicate ReadsBack(parse: string -> Json, text: UsageEvent -> string) {
    forall e {:trigger text(e)} :: text(e) != "" && parse(text(e)) == Json(e, true)
  }

  predicate Named(e: UsageEvent) { e.id != "" && e.workspaceId != "" }

  lemma EntryDecodes(parse: string -> Json, text: UsageEvent -> string, e: UsageEvent)
    requires ReadsBack(parse, text)
    ensures Decode(parse, ["payload", text(e)]) == if Named(e) then Sent(e) else Poison(text(e))
  {
    assert IndexOf(["payload", text(e)], "payload") == 0;
  }

  /**
   * An entry decodes exactly when what follows its first "payload" is a text that parses to an event with an id, a
   * workspace and an instant. Any other is a dead letter with that text, or without one when there is none.
   */
  lemma DecodesIff(parse: string -> Json, fields: seq<string>, i: nat)
    requires i <= |fields| && (i < |fields| ==> fields[i] == "payload")
    requires forall j :: 0 <= j < i ==> fields[j] != "payload"
    ensures var c := Decode(parse, fields);
      && (i + 1 >= |fields| ==> c == Poison(""))
      && (i + 1 < |fields| ==>
            && (forall e :: c == Sent(e) <==>
                  fields[i + 1] != "" && parse(fields[i + 1]) == Json(e, true) && e.id != "" && e.workspaceId != "")
            && (c.Poison? ==> c.payload == fields[i + 1]))
  {
    hide IndexOf;
    IndexIsFirst(fields, "payload", i);
  }

  /** The named ones among some events, in order. */
  function NamedOf(events: seq<UsageEvent>): seq<UsageEvent> {
    if events == [] then []
    else
      var last := events[|events| - 1];
      NamedOf(events[..|events| - 1]) + if Named(last) then [last] else []
  }

  /** Dead letters for the others, under their positions; the first event is at lo. */
  function UnnamedOf(text: UsageEvent -> string, events: seq<UsageEvent>, lo: nat): seq<DeadLetter> {
    if events == [] then []
    else
      var n := |events| - 1;
      UnnamedOf(text, events[..n], lo) + if Named(events[n]) then [] else [DeadLetter(lo + n, text(events[n]))]
  }

  /**
   * The worker gets from any stretch of a stream of published events exactly those that have an id and a workspace,
   * in order, and the rest become dead letters with their texts, in order.
   */
  lemma PublishedDecodes(parse: string -> Json, text: UsageEvent -> string, events: seq<UsageEvent>, lo: nat, hi: nat)
    requires ReadsBack(parse, text) && lo <= hi <= |events|
    ensures var log := Decoded(parse, Published(text, events));
      && Pipeline.Valid(log, lo, hi) == NamedOf(events[lo..hi])
      && Invalid(log, lo, hi) == UnnamedOf(text, events[lo..hi], lo)
  {
    hide Pipeline.Valid, Invalid, NamedOf, UnnamedOf;
    PublishedByName(parse, text, events);
    SplitByName(Decoded(parse, Published(text, events)), text, events, lo, hi);
  }

  /** Each entry is its event, if that is named, and else a poison entry with its text. */
  ghost predicate ByName(log: seq<Content>, text: UsageEvent -> string, events: seq<UsageEvent>) {
    && |log| == |events|
    && forall i :: 0 <= i < |log| ==> log[i] == if Named(events[i]) then Sent(events[i]) else Poison(text(events[i]))
  }

  lemma PublishedByName(parse: string -> Json, text: UsageEvent -> string, events: seq<UsageEvent>)
    requires ReadsBack(parse, text)
    ensures ByName(Decoded(parse, Published(text, events)), text, events)
  {
    hide Named, Decode;
    forall i | 0 <= i < |events|
      ensures Decoded(parse, Published(text, events))[i] ==
        if Named(events[i]) then Sent(events[i]) else Poison(text(events[i]))
    {
      EntryIsDecoded(parse, text, events, i);
    }
  }

  lemma {:induction false} SplitByName(log: seq<Content>, text: UsageEvent -> string, events: seq<UsageEvent>,
      lo: nat, hi: nat)
    requires lo <= hi <= |log| == |events| && ByName(log, text, events)
    ensures Pipeline.Valid(log, lo, hi) == NamedOf(events[lo..hi])
    ensures Invalid(log, lo, hi) == UnnamedOf(text, events[lo..hi], lo)
    decreases hi
  {
    hide Pipeline.Valid, Invalid, NamedOf, UnnamedOf, ByName;
    if lo == hi {
      NothingDecodes(log, text, events, lo);
    } else {
      SplitByName(log, text, events, lo, hi - 1);
      OneMoreDecodes(log, text, events, lo, hi - 1);
    }
  }

  lemma NothingDecodes(log: seq<Content>, text: UsageEvent -> string, events: seq<UsageEvent>, lo: nat)
    requires lo <= |log| == |events|
    ensures Pipeline.Valid(log, lo, lo) == NamedOf(events[lo..lo])
    ensures Invalid(log, lo, lo) == UnnamedOf(text, events[lo..lo], lo)
  {
    assert events[lo..lo] == [];
  }

  lemma OneMoreDecodes(log: seq<Content>, text: UsageEvent -> string, events: seq<UsageEvent>, lo: nat, n: nat)
    requires lo <= n < |log| == |events|
    requires ByName(log, text, events)
    requires Pipeline.Valid(log, lo, n) == NamedOf(events[lo..n])
    requires Invalid(log, lo, n) == UnnamedOf(text, events[lo..n], lo)
    ensures Pipeline.Valid(log, lo, n + 1) == NamedOf(events[lo..n + 1])
    ensures Invalid(log, lo, n + 1) == UnnamedOf(text, events[lo..n + 1], lo)
  {
    hide Pipeline.Valid, Invalid, NamedOf, UnnamedOf, Named;
    NextContent(log, lo, n);
    assert events[lo..n + 1] == events[lo..n] + [events[n]];
    NextNamed(text, events[lo..n], events[n], lo);
  }

  lemma NextNamed(text: UsageEvent -> string, events: seq<UsageEvent>, e: UsageEvent, lo: nat)
    ensures NamedOf(events + [e]) == NamedOf(events) + if Named(e) then [e] else []
    ensures UnnamedOf(text, events + [e], lo) ==
      UnnamedOf(text, events, lo) + if Named(e) then [] else [DeadLetter(lo + |events|, text(e))]
  {
    assert (events + [e])[..|events|] == events;
  }

  lemma NoEntries(log: seq<Content>, lo: nat)
    requires lo <= |log|
    ensures Pipeline.Valid(log, lo, lo) == [] && Invalid(log, lo, lo) == []
  {}

  lemma NextContent(log: seq<Content>, lo: nat, n: nat)
    requires lo <= n < |log|
    ensures Pipeline.Valid(log, lo, n + 1) ==
      Pipeline.Valid(log, lo, n) + if log[n].Sent? then [log[n].event] else []
    ensures Invalid(log, lo, n + 1) ==
      Invalid(log, lo, n) + if log[n].Poison? then [DeadLetter(n, log[n].payload)] else []
  {}

  lemma EntryIsDecoded(parse: string -> Json, text: UsageEvent -> string, events: seq<UsageEvent>, i: nat)
    requires ReadsBack(parse, text) && i < |events|
    ensures Decoded(parse, Published(text, events))[i] ==
      if Named(events[i]) then Sent(events[i]) else Poison(text(events[i]))
  {
    hide Decode;
    EntryDecodes(parse, text, events[i]);
    assert Published(text, events)[i] == ["payload", text(events[i])];
  }

  /** The entries delivered are log[lo..], under their positions. */
  ghost predicate IsStretch(parse: string -> Json, entries: seq<StreamEntry>, log: seq<Content>, lo: nat) {
    lo + |entries| <= |log| && forall i :: 0 <= i < |entries| ==>
      entries[i].id == lo + i && Decode(parse, entries[i].fields) == log[lo + i]
  }

  lemma NextEntry(parse: string -> Json, entries: seq<StreamEntry>, log: seq<Content>, lo: nat, n: nat)
    requires IsStretch(parse, entries, log, lo) && n < |entries|
    ensures var c := Decode(parse, entries[n].fields);
      && Pipeline.Valid(log, lo, lo + n + 1) ==
           Pipeline.Valid(log, lo, lo + n) + (if c.Sent? then [c.event] else [])
      && Invalid(log, lo, lo + n + 1) ==
           Invalid(log, lo, lo + n) + if c.Poison? then [DeadLetter(entries[n].id, c.payload)] else []
  {
    hide Decode, Pipeline.Valid, Invalid;
    NextContent(log, lo, lo + n);
    assert entries[n].id == lo + n && Decode(parse, entries[n].fields) == log[lo + n];
  }

  lemma DecodeSplits(parse: string -> Json, fields: seq<string>)
    ensures var i := IndexOf(fields, "payload");
      Decode(parse, fields) ==
        if i + 1 >= |fields| || fields[i + 1] == "" then Poison("")
        else if parse(fields[i + 1]).Json? && parse(fields[i + 1]).event.id != ""
                && parse(fields[i + 1]).event.workspaceId != "" && parse(fields[i + 1]).dated
             then Sent(parse(fields[i + 1]).event)
             else Poison(fields[i + 1])
  {
    hide IndexOf;
  }

  /** Every entry is acked, and each either decodes or goes to the DLQ under its id. */
  method DecodeBatch(parse: string -> Json, entries: seq<StreamEntry>, ghost log: seq<Content>, ghost lo: nat)
    returns (events: seq<UsageEvent>, ackIds: seq<nat>, invalid: seq<DeadLetter>)
    requires IsStretch(parse, entries, log, lo)
    ensures events == Pipeline.Valid(log, lo, lo + |entries|) && invalid == Invalid(log, lo, lo + |entries|)
    ensures |ackIds| == |entries| && forall i :: 0 <= i < |entries| ==> ackIds[i] == entries[i].id
    ensures |events| + |invalid| == |ackIds|
  {
    assert lo + |entries| <= |log|;
    hide Pipeline.Valid, Invalid, IsStretch, Decode, IndexOf;
    NoEntries(log, lo);
    events, ackIds, invalid := [], [], [];
    for n := 0 to |entries|
      invariant events == Pipeline.Valid(log, lo, lo + n) && invalid == Invalid(log, lo, lo + n)
      invariant |ackIds| == n && forall i :: 0 <= i < n ==> ackIds[i] == entries[i].id
      invariant |events| + |invalid| == |ackIds|
    {
      var id, fields := entries[n].id, entries[n].fields;
      var payloadIndex := IndexOf(fields, "payload");
      ackIds := ackIds + [id];
      NextEntry(parse, entries, log, lo, n);
      DecodeSplits(parse, fields);
      if payloadIndex + 1 >= |fields| || fields[payloadIndex + 1] == "" {
        invalid := invalid + [DeadLetter(id, "")];
        continue;
      }
      var payload := fields[payloadIndex + 1];
      var json := parse(payload);
      if json.Json? && json.event.id != "" && json.event.workspaceId != "" && json.dated {
        events := events + [json.event];
      } else {
        invalid := invalid + [DeadLetter(id, payload)];
      }
    }
  }

  // ----- the loop body -----

  /**
   * How an iteration's calls end; of the DLQ writes, the one numbered dlqAt throws, after taking effect if dlqLands.
   */
  datatype Faults = Faults(read: Call, create: Call, dlqAt: nat, dlqLands: bool, persist: Call, ack: Call)

  /** The database takes the batch: it accepts every event, and every fresh cost is readable. */
  ghost predicate Takes(pg: Database, db: Tables, batch: seq<UsageEvent>) {
    (forall i :: 0 <= i < |batch| ==> pg.accepts(batch[i])) && Readable(db, batch)
  }

  /** How many of n dead letters reach the DLQ. */
  function LettersWritten(faults: Faults, n: nat): nat {
    if faults.dlqAt >= n then n else if faults.dlqLands then faults.dlqAt + 1 else faults.dlqAt
  }

  class Ingest {
    const parse: string -> Json
    const store: UsageStore
    const w: nat
    var stream: seq<seq<string>>
    var group: ConsumerGroup
    var dlq: seq<DeadLetter>
    ghost const retentionMs: nat
    ghost var now: int
    ghost var gateway: G.Gateway
    var base: nat
    ghost var workers: seq<Worker>
    ghost var acked: set<nat>
    ghost var purged: seq<UsageEvent>
    ghost var counted: seq<UsageEvent>
    ghost var applied: seq<Keyed<Key>>

    ghost function Abs(): State
      reads this, store
    {
      State(store.pg, retentionMs, now, gateway, Decoded(parse, stream), base, group, workers, store.Db(), dlq, acked,
        purged, counted, applied)
    }

    ghost predicate Valid()
      reads this, store
    {
      store.pg.Sound() && w < |workers| && base <= |stream| && (group.Present? ==> group.cursor <= |stream|)
    }

    constructor (parse: string -> Json, store: UsageStore)
      requires store.pg.Sound() && store.rows == [] && store.hourly == [] && store.daily == []
      ensures Valid() && Initial(Abs()) && this.store == store
    {
      this.parse, this.store, w := parse, store, 0;
      stream, group, dlq := [], Absent, [];
      retentionMs, now := 0, 0;
      gateway, base, workers, acked, purged, counted, applied := G.EMPTY, 0, [Idle], {}, [], [], [];
      new;
      assert Decoded(this.parse, stream) == [];
    }

    /** ensureConsumerGroup; a group that exists stays as it is (BUSYGROUP). */
    method EnsureConsumerGroup()
      requires Valid()
      modifies this`group
      ensures Valid() && Abs() == Step(old(Abs()), Recreate)
      ensures group == if old(group).Absent? then Present(base, {}) else old(group)
    {
      if group.Absent? { group := Present(base, {}); }
    }

    /** XREADGROUP on `>`. */
    method ReadGroup(count: nat) returns (entries: seq<StreamEntry>, lo: nat)
      requires Valid() && workers[w] == Idle && group.Present? && count > 0
      modifies this`group, this`workers
      ensures Valid() && lo == old(group.cursor) && IsStretch(parse, entries, Abs().log, lo)
      ensures lo + |entries| == Min(lo + count, |stream|)
      ensures entries == [] ==> Abs() == old(Abs())
      ensures entries != [] ==>
        Abs() == Step(old(Abs()), Deliver(w, count)) && workers[w] == Reading(lo, lo + |entries|, 0)
      ensures group == Present(lo + |entries|, old(group).pending + Positions(lo, lo + |entries|))
    {
      hide Readable, Run, Decode, Committed, Acked, Moved;
      lo := group.cursor;
      var hi := Min(lo + count, |stream|);
      if lo == |stream| { return [], lo; }
      var all := stream;
      entries := seq(hi - lo, i requires 0 <= i < hi - lo => StreamEntry(lo + i, all[lo + i]));
      group := Present(hi, group.pending + Positions(lo, hi));
      workers := workers[w := Reading(lo, hi, 0)];
    }

    /** XADD to the DLQ. */
    method WriteDeadLetter(d: DeadLetter)
      requires Valid() && Enabled(Abs(), WriteDlq(w))
      requires d == Invalid(Abs().log, workers[w].lo, workers[w].hi)[workers[w].written]
      modifies this`dlq, this`workers
      ensures Valid() && Abs() == Step(old(Abs()), WriteDlq(w))
      ensures dlq == old(dlq) + [d] && |workers| == |old(workers)|
        && workers[w] == old(workers[w]).(written := old(workers[w]).written + 1)
    {
      hide Committed, Acked, Moved, Decode;
      dlq := dlq + [d];
      workers := workers[w := workers[w].(written := workers[w].written + 1)];
    }

    /** Control leaves the body by an exception. */
    ghost method GiveUp()
      requires Valid()
      modifies this`workers
      ensures Valid() && Abs() == Step(old(Abs()), Pipeline.Fail(w)) && workers[w] == Idle
    {
      workers := workers[w := Idle];
    }

    /** persistBatch, unless there is nothing to persist. */
    method Persist(events: seq<UsageEvent>) returns (ok: bool)
      requires Valid() && Ready(Abs(), w) && events == Batch(Abs(), w)
      modifies store, this`workers, this`counted, this`applied
      ensures Valid() && Abs() == if ok then Step(old(Abs()), CommitBatch(w)) else old(Abs())
      ensures ok <==> old(Takes(store.pg, store.Db(), events))
      ensures store.Db() == if ok then Commit(old(store.Db()), events) else old(store.Db())
      ensures ok ==> workers[w] == Persisted(old(workers[w]).lo, old(workers[w]).hi)
    {
      hide Run, Readable, Commit, CountedBy, GroupBy, Decode, Delivered, Acked, Moved;
      ghost var s := Abs();
      ghost var more := CountedBy(store.Db(), events);
      var r := store.PersistBatch(events);
      ok := r.Ok?;
      if ok {
        counted := counted + more;
        applied := applied + GroupBy(HourKey(), more);
        workers := workers[w := Persisted(workers[w].lo, workers[w].hi)];
        assert Abs() == Committed(s, w);
      }
    }

    /** XACK. */
    method Acknowledge(ids: seq<nat>)
      requires Valid() && workers[w].Persisted?
      requires (set i | 0 <= i < |ids| :: ids[i]) == Positions(workers[w].lo, workers[w].hi)
      modifies this`group, this`workers, this`acked
      ensures Valid() && Abs() == Step(old(Abs()), Ack(w)) && workers[w] == Idle
      ensures acked == old(acked) + Positions(old(workers[w]).lo, old(workers[w]).hi)
      ensures group ==
        if old(group).Present?
        then Present(old(group).cursor, old(group).pending - Positions(old(workers[w]).lo, old(workers[w]).hi))
        else Absent
    {
      var these := set i | 0 <= i < |ids| :: ids[i];
      if group.Present? { group := Present(group.cursor, group.pending - these); }
      acked := acked + these;
      workers := workers[w := Idle];
    }

    /** The first `upTo` rounds of the DLQ loop. */
    method WriteLetters(invalid: seq<DeadLetter>, upTo: nat) returns (ghost steps: seq<Action>)
      requires Valid() && workers[w].Reading? && workers[w].written == 0 && workers[w].lo <= workers[w].hi <= |stream|
      requires invalid == Invalid(Abs().log, workers[w].lo, workers[w].hi) && upTo <= |invalid|
      modifies this`dlq, this`workers
      ensures Valid() && Abs() == Run(old(Abs()), steps)
      ensures |workers| == |old(workers)| && workers[w] == old(workers[w]).(written := upTo)
      ensures dlq == old(dlq) + invalid[..upTo]
    {
      hide Step, Run;
      ghost var s := Abs();
      steps := [];
      RunNext(s, [], WriteDlq(w));
      for n := 0 to upTo
        invariant Valid() && Abs() == Run(s, steps) && dlq == old(dlq) + invalid[..n]
        invariant |workers| == |old(workers)| && workers[w] == old(workers[w]).(written := n)
      {
        assert invalid[..n + 1] == invalid[..n] + [invalid[n]];
        RunNext(s, steps, WriteDlq(w));
        WriteDeadLetter(invalid[n]);
        steps := steps + [WriteDlq(w)];
      }
    }

    /** The DLQ loop; the call numbered `failing` throws, having taken effect or not, which ends the body. */
    method WriteDeadLetters(invalid: seq<DeadLetter>, failing: nat, lands: bool)
        returns (ok: bool, ghost steps: seq<Action>)
      requires Valid() && workers[w].Reading? && workers[w].written == 0 && workers[w].lo <= workers[w].hi <= |stream|
      requires invalid == Invalid(Abs().log, workers[w].lo, workers[w].hi)
      modifies this`dlq, this`workers
      ensures Valid() && Abs() == Run(old(Abs()), steps)
      ensures ok <==> failing >= |invalid|
      ensures ok ==> workers[w] == old(workers[w]).(written := |invalid|) && Ready(Abs(), w)
      ensures !ok ==> workers[w] == Idle
      ensures dlq == old(dlq) +
        invalid[..if failing >= |invalid| then |invalid| else if lands then failing + 1 else failing]
    {
      hide Run, Step;
      ok := failing >= |invalid|;
      steps := WriteLetters(invalid, Min(if lands then failing + 1 else failing, |invalid|));
      if !ok {
        RunNext(old(Abs()), steps, Pipeline.Fail(w));
        GiveUp();
        steps := steps + [Pipeline.Fail(w)];
      }
    }

    /** persistBatch and XACK, for a batch whose invalid entries are in the DLQ. */
    method PersistAndAck(events: seq<UsageEvent>, ackIds: seq<nat>, faults: Faults)
        returns (settled: bool, ghost steps: seq<Action>)
      requires Valid() && Ready(Abs(), w) && events == Batch(Abs(), w)
      requires (set i | 0 <= i < |ackIds| :: ackIds[i]) == Positions(workers[w].lo, workers[w].hi)
      modifies this`workers, this`group, this`acked, this`counted, this`applied, store
      ensures Valid() && Abs() == Run(old(Abs()), steps) && workers[w] == Idle
      ensures acked == old(acked) + if settled then Positions(old(workers[w]).lo, old(workers[w]).hi) else {}
      ensures settled <==> old(Takes(store.pg, store.Db(), events)) && faults.persist.Succeeds? && !faults.ack.Throws?
      ensures store.Db() ==
        if !faults.persist.Throws? && old(Takes(store.pg, store.Db(), events)) then Commit(old(store.Db()), events)
        else old(store.Db())
      ensures group ==
        if settled && old(group).Present?
        then Present(old(group).cursor, old(group).pending - Positions(old(workers[w]).lo, old(workers[w]).hi))
        else old(group)
    {
      hide Run, Step, Readable, Commit;
      ghost var s := Abs();
      settled, steps := false, [];
      RunNext(s, [], Pipeline.Fail(w));
      if !faults.persist.Throws? {
        RunNext(s, [], CommitBatch(w));
        var ok := Persist(events);
        if ok {
          steps := [CommitBatch(w)];
          RunNext(s, steps, Pipeline.Fail(w));
          RunNext(s, steps, Ack(w));
          if faults.persist.Succeeds? && !faults.ack.Throws? {
            Acknowledge(ackIds);
            settled, steps := true, steps + [Ack(w)];
            return;
          }
        }
      }
      GiveUp();
      steps := steps + [Pipeline.Fail(w)];
    }

    /** The body after a delivery, up to its end or the first call that throws. */
    method Process(entries: seq<StreamEntry>, lo: nat, faults: Faults) returns (settled: bool, ghost steps: seq<Action>)
      requires Valid() && entries != [] && IsStretch(parse, entries, Abs().log, lo)
      requires workers[w] == Reading(lo, lo + |entries|, 0)
      modifies this`dlq, this`workers, this`group, this`acked, this`counted, this`applied, store
      ensures Valid() && Abs() == Run(old(Abs()), steps) && workers[w] == Idle
      ensures acked == old(acked) + if settled then Positions(lo, lo + |entries|) else {}
      ensures var log, hi := Decoded(parse, stream), lo + |entries|;
        var letters, batch := Invalid(log, lo, hi), Pipeline.Valid(log, lo, hi);
        var taken := faults.dlqAt >= |letters| && old(Takes(store.pg, store.Db(), batch));
        && (settled <==> taken && faults.persist.Succeeds? && !faults.ack.Throws?)
        && dlq == old(dlq) + letters[..LettersWritten(faults, |letters|)]
        && store.Db() == (if taken && !faults.persist.Throws? then Commit(old(store.Db()), batch) else old(store.Db()))
        && group == (if settled && old(group).Present?
                     then Present(old(group).cursor, old(group).pending - Positions(lo, hi)) else old(group))
    {
      hide Run, Step, Readable, Commit;
      ghost var s := Abs();
      var events, ackIds, invalid := DecodeBatch(parse, entries, s.log, lo);
      AllIds(entries, ackIds, lo);
      var ok;
      ok, steps := WriteDeadLetters(invalid, faults.dlqAt, faults.dlqLands);
      if ok {
        ghost var more;
        settled, more := PersistAndAck(events, ackIds, faults);
        RunConcat(s, steps, more);
        steps := steps + more;
      } else {
        settled := false;
      }
    }

    /** The try block, when the group exists: read, and process what was read. */
    method ReadAndProcess(count: nat, faults: Faults) returns (settled: bool, ghost steps: seq<Action>)
      requires Valid() && workers[w] == Idle && group.Present? && count > 0
      modifies this`dlq, this`workers, this`group, this`acked, this`counted, this`applied, store
      ensures Valid() && Abs() == Run(old(Abs()), steps) && workers[w] == Idle
      ensures var lo := old(group).cursor;
        var log, hi := Decoded(parse, stream), Min(lo + count, |stream|);
        var letters, batch := Invalid(log, lo, hi), Pipeline.Valid(log, lo, hi);
        var got := faults.read.Succeeds? && lo < |stream|;
        var taken := got && faults.dlqAt >= |letters| && old(Takes(store.pg, store.Db(), batch));
        && (settled <==> taken && faults.persist.Succeeds? && !faults.ack.Throws?)
        && dlq == old(dlq) + (if got then letters[..LettersWritten(faults, |letters|)] else [])
        && store.Db() == (if taken && !faults.persist.Throws? then Commit(old(store.Db()), batch) else old(store.Db()))
        && acked == old(acked) + (if settled then Positions(lo, hi) else {})
        && group == (if faults.read.Throws? then old(group)
                     else Present(hi, if settled then old(group).pending - Positions(lo, hi)
                                      else old(group).pending + Positions(lo, hi)))
    {
      hide Run, Step, Readable, Commit, Takes, Invalid, Pipeline.Valid;
      ghost var s := Abs();
      settled, steps := false, [];
      RunNext(s, [], Deliver(w, count));
      if faults.read.Throws? { return; }
      var entries, lo := ReadGroup(count);
      if entries == [] { return; }
      steps := [Deliver(w, count)];
      if faults.read.LandsAndThrows? {
        RunNext(s, steps, Pipeline.Fail(w));
        GiveUp();
        steps := steps + [Pipeline.Fail(w)];
        return;
      }
      ghost var more;
      settled, more := Process(entries, lo, faults);
      RunConcat(s, steps, more);
      steps := steps + more;
    }

    /**
     * One iteration of the loop. Whatever throws, and whether or not it took effect first, the iteration is a run of
     * the pipeline's steps that ends with the worker idle; either the next `count` entries are acked (all that are
     * left, if fewer) or none is, exactly under the stated conditions. A missing group is recreated. The DLQ gets the
     * letters of the stretch up to the call that throws, and the tables the batch, if the database takes it.
     */
    method Iteration(count: nat, faults: Faults) returns (settled: bool, ghost steps: seq<Action>)
      requires Valid() && workers[w] == Idle && count > 0
      modifies this`dlq, this`workers, this`group, this`acked, this`counted, this`applied, store
      ensures Valid() && Abs() == Run(old(Abs()), steps) && workers[w] == Idle
      ensures old(group).Absent? ==>
        && !settled && group == (if faults.create.Throws? then Absent else Present(base, {}))
        && dlq == old(dlq) && store.Db() == old(store.Db()) && acked == old(acked)
      ensures old(group).Present? ==>
        var lo := old(group).cursor;
        var log, hi := Decoded(parse, stream), Min(lo + count, |stream|);
        var letters, batch := Invalid(log, lo, hi), Pipeline.Valid(log, lo, hi);
        var got := faults.read.Succeeds? && lo < |stream|;
        var taken := got && faults.dlqAt >= |letters| && old(Takes(store.pg, store.Db(), batch));
        && (settled <==> taken && faults.persist.Succeeds? && !faults.ack.Throws?)
        && dlq == old(dlq) + (if got then letters[..LettersWritten(faults, |letters|)] else [])
        && store.Db() == (if taken && !faults.persist.Throws? then Commit(old(store.Db()), batch) else old(store.Db()))
        && acked == old(acked) + (if settled then Positions(lo, hi) else {})
        && group == (if faults.read.Throws? then old(group)
                     else Present(hi, if settled then old(group).pending - Positions(lo, hi)
                                      else old(group).pending + Positions(lo, hi)))
    {
      hide Run, Step, Readable, Commit, Takes, Invalid, Pipeline.Valid, LettersWritten;
      if group.Present? {
        settled, steps := ReadAndProcess(count, faults);
        return;
      }
      RunNext(Abs(), [], Recreate);
      settled, steps := false, [];
      if !faults.create.Throws? {
        EnsureConsumerGroup();
        steps := [Recreate];
      }
    }
  }

  lemma AllIds(entries: seq<StreamEntry>, ids: seq<nat>, lo: nat)
    requires |ids| == |entries| && forall i :: 0 <= i < |entries| ==> ids[i] == entries[i].id == lo + i
    ensures (set i | 0 <= i < |ids| :: ids[i]) == Positions(lo, lo + |entries|)
  {
    var all := set i | 0 <= i < |ids| :: ids[i];
    forall k ensures k in all <==> k in Positions(lo, lo + |entries|) {
      if k in Positions(lo, lo + |entries|) { assert ids[k - lo] == k; }
    }
  }
}
