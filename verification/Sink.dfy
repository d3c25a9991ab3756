/**
 * The gateway's event sink (apps/gateway/src/sink.ts): publish at once, buffer on failure, drain with one loop.
 * Every stretch of code between two awaits is one atomic step.
 */
module Sink {
  import opened Events
  import opened Gateway
  import opened Sequences

  /** A flush loop stopped at one of its two awaits. */
  datatype Loop = Publishing(event: UsageEvent) | Sleeping

  /**
   * `direct` are the first publishes in flight, `loops` the flush loops that exist; `flushing`, `buffer` and
   * `droppedCount` are the fields. The rest is history: all emitted events, all ever buffered, the order in which
   * the loop published, the events counted as dropped, and what actually reached the stream.
   */
  datatype State = State(
    maxBuffer: nat, buffer: seq<UsageEvent>, flushing: bool, droppedCount: nat,
    direct: multiset<UsageEvent>, loops: seq<Loop>,
    emitted: multiset<UsageEvent>, buffered: seq<UsageEvent>, flushed: seq<UsageEvent>,
    published: multiset<UsageEvent>, dropped: multiset<UsageEvent>, stream: seq<UsageEvent>)

  function Init(maxBuffer: nat): State {
    State(maxBuffer, [], false, 0, multiset{}, [], multiset{}, [], [], multiset{}, multiset{}, [])
  }

  datatype Action =
    | Emit(event: UsageEvent)
    | DirectOk(event: UsageEvent)       // a first publish resolves
    | DirectFailed(event: UsageEvent)   // a first publish rejects
    | FlushOk(i: nat)                   // loop i's publish resolves
    | FlushFailed(i: nat)               // loop i's publish rejects
    | Timer(i: nat)                     // loop i's one-second sleep ends
    | DirectLands(event: UsageEvent)    // an entry lands although its publish has not resolved and may still reject
    | FlushLands(i: nat)

  predicate Enabled(s: State, a: Action) {
    match a
    case Emit(_) => true
    case DirectOk(e) => e in s.direct
    case DirectFailed(e) => e in s.direct
    case DirectLands(e) => e in s.direct
    case FlushOk(i) => i < |s.loops| && s.loops[i].Publishing?
    case FlushLands(i) => i < |s.loops| && s.loops[i].Publishing?
    case FlushFailed(i) => i < |s.loops| && s.loops[i].Publishing?
    case Timer(i) => i < |s.loops| && s.loops[i].Sleeping?
  }

  /** The head of the while loop, for loop i: publish the first event, or stop flushing and leave. */
  function LoopHead(s: State, i: nat): State
    requires i < |s.loops|
  {
    if |s.buffer| > 0 then s.(loops := s.loops[i := Publishing(s.buffer[0])])
    else s.(flushing := false, loops := s.loops[..i] + s.loops[i + 1..])
  }

  /** bufferEvent: drop and count when full, else push and start a loop unless one is flushing. */
  function BufferEvent(s: State, e: UsageEvent): State {
    if |s.buffer| >= s.maxBuffer then s.(droppedCount := s.droppedCount + 1, dropped := s.dropped + multiset{e})
    else
      var pushed := s.(buffer := s.buffer + [e], buffered := s.buffered + [e]);
      if s.flushing then pushed
      else LoopHead(pushed.(flushing := true, loops := s.loops + [Sleeping]), |s.loops|)
  }

  function Step(s: State, a: Action): State {
    if !Enabled(s, a) then s
    else
      match a
      case Emit(e) => s.(direct := s.direct + multiset{e}, emitted := s.emitted + multiset{e})
      case DirectOk(e) =>
        s.(direct := s.direct - multiset{e}, published := s.published + multiset{e}, stream := s.stream + [e])
      case DirectFailed(e) => BufferEvent(s.(direct := s.direct - multiset{e}), e)
      case DirectLands(e) => s.(stream := s.stream + [e])
      case FlushLands(i) => s.(stream := s.stream + [s.loops[i].event])
      case FlushOk(i) =>
        var e := s.loops[i].event;
        var shifted := if |s.buffer| > 0 then s.buffer[1..] else [];
        LoopHead(s.(buffer := shifted, flushed := s.flushed + [e], published := s.published + multiset{e},
                    stream := s.stream + [e]), i)
      case FlushFailed(i) => s.(loops := s.loops[i := Sleeping])
      case Timer(i) => LoopHead(s, i)
  }

  function Run(maxBuffer: nat, actions: seq<Action>): State {
    if actions == [] then Init(maxBuffer) else Step(Run(maxBuffer, actions[..|actions| - 1]), actions[|actions| - 1])
  }

  /** The loop and the buffer between any two steps. */
  ghost predicate Control(s: State) {
    && |s.buffer| <= s.maxBuffer
    && |s.loops| == (if s.flushing then 1 else 0)                                          // at most one loop
    && (|s.buffer| > 0 <==> s.flushing)                                                    // nothing is stranded
    && (s.flushing && s.loops[0].Publishing? ==> s.loops[0].event == s.buffer[0])          // the head stays put
    && s.buffered == s.flushed + s.buffer                                                  // FIFO
  }

  /** Every emitted event is published, in flight, buffered or counted as dropped. */
  ghost predicate Accounts(s: State) {
    && s.emitted == s.published + s.direct + multiset(s.buffer) + s.dropped
    && s.droppedCount == |s.dropped|
  }

  /** What is published is on the stream, and only emitted events are. */
  ghost predicate OnStream(s: State) {
    && (forall e :: e in s.stream ==> e in s.emitted)
    && (forall e :: e in s.published ==> e in s.stream)
  }

  ghost predicate Inv(s: State) { Control(s) && Accounts(s) && OnStream(s) }

  lemma ControlKept(s: State, a: Action)
    requires Control(s)
    ensures Control(Step(s, a))
  {
    if Enabled(s, a) {
      match a
      case DirectFailed(e) =>
        assert s.flushed + s.buffer + [e] == s.flushed + (s.buffer + [e]);
        if !s.flushing { assert s.loops + [Sleeping] == [Sleeping]; }
      case FlushOk(i) =>
        assert s.buffer == [s.loops[i].event] + s.buffer[1..];
        assert s.flushed + [s.loops[i].event] + s.buffer[1..] == s.flushed + s.buffer;
      case _ =>
    }
  }

  /** One event moves from the second pile to the first. */
  lemma MoveOne(all: multiset<UsageEvent>, to: multiset<UsageEvent>, from: multiset<UsageEvent>,
                rest: multiset<UsageEvent>, e: UsageEvent)
    requires all == to + from + rest && e in from
    ensures all == (to + multiset{e}) + (from - multiset{e}) + rest
  {}

  lemma AccountsKept(s: State, a: Action)
    requires Control(s) && Accounts(s)
    ensures Accounts(Step(s, a))
  {
    if Enabled(s, a) {
      hide Step, Accounts, Control;
      match a
      case Emit(e) => EmitAccounts(s, e);
      case DirectFailed(e) => DirectFailedAccounts(s, e);
      case DirectOk(e) => DirectOkAccounts(s, e);
      case FlushOk(i) => FlushOkAccounts(s, i);
      case _ => OtherAccounts(s, a);
    }
  }

  lemma EmitAccounts(s: State, e: UsageEvent)
    requires Accounts(s)
    ensures Accounts(Step(s, Emit(e)))
  {
    assert s.emitted + multiset{e} == s.published + (s.direct + multiset{e}) + multiset(s.buffer) + s.dropped;
  }

  lemma DirectOkAccounts(s: State, e: UsageEvent)
    requires Accounts(s) && e in s.direct
    ensures Accounts(Step(s, DirectOk(e)))
  {
    MoveOne(s.emitted, s.published, s.direct, multiset(s.buffer) + s.dropped, e);
  }

  lemma OtherAccounts(s: State, a: Action)
    requires Accounts(s) && Enabled(s, a) && (a.DirectLands? || a.FlushLands? || a.FlushFailed? || a.Timer?)
    ensures Accounts(Step(s, a))
  {
    var t := Step(s, a);
    assert (t.emitted, t.published, t.direct, t.buffer, t.dropped, t.droppedCount)
        == (s.emitted, s.published, s.direct, s.buffer, s.dropped, s.droppedCount);
  }

  lemma DirectFailedAccounts(s: State, e: UsageEvent)
    requires Accounts(s) && e in s.direct
    ensures Accounts(Step(s, DirectFailed(e)))
  {
    DirectFailedMoves(s, e);
    hide Step;
    MoveOne(s.emitted, multiset{}, s.direct, s.published + multiset(s.buffer) + s.dropped, e);
    assert multiset(s.buffer + [e]) == multiset(s.buffer) + multiset{e};
  }

  /** An event is dropped only when its first publish fails while the buffer is full, and is counted then. */
  lemma DropsOnlyWhenFull(s: State, a: Action)
    requires Control(s)
    ensures var t := Step(s, a);
      t.dropped != s.dropped || t.droppedCount != s.droppedCount <==>
        Enabled(s, a) && a.DirectFailed? && |s.buffer| == s.maxBuffer
  {
    if Enabled(s, a) && a.DirectFailed? {
      DirectFailedMoves(s, a.event);
      assert |s.dropped + multiset{a.event}| == |s.dropped| + 1;
    }
  }

  /** A loop that wakes up, or whose publish succeeded, publishes the first buffered event, if there is one. */
  lemma LoopGoesOn(s: State, a: Action)
    requires Control(s) && Enabled(s, a) && (a.Timer? || a.FlushOk?)
    ensures var t := Step(s, a);
      if t.buffer == [] then t.loops == [] && !t.flushing else t.loops == [Publishing(t.buffer[0])] && t.flushing
  {
    assert s.loops == [s.loops[0]];
  }

  lemma FlushOkAccounts(s: State, i: nat)
    requires Control(s) && Accounts(s) && Enabled(s, FlushOk(i))
    ensures Accounts(Step(s, FlushOk(i)))
  {
    var e := s.loops[i].event;
    FlushOkShifts(s, i);
    hide Step, Control, Enabled;
    RemoveFirst(s.buffer);
    MoveOne(s.emitted, s.published, multiset(s.buffer), s.direct + s.dropped, e);
  }

  /** The buffer's head is published, and no other account changes. */
  lemma FlushOkShifts(s: State, i: nat)
    requires Control(s) && Enabled(s, FlushOk(i))
    ensures var t := Step(s, FlushOk(i));
      && s.buffer != [] && s.loops[i].event == s.buffer[0] && t.buffer == s.buffer[1..]
      && t.published == s.published + multiset{s.buffer[0]}
      && (t.emitted, t.direct, t.dropped, t.droppedCount) == (s.emitted, s.direct, s.dropped, s.droppedCount)
      && t.stream == s.stream + [s.buffer[0]]
  {}

  lemma InFlightIsEmitted(s: State, e: UsageEvent)
    requires Accounts(s) && (e in s.direct || e in s.buffer)
    ensures e in s.emitted
  {
    if e in s.buffer { assert e in multiset(s.buffer); }
  }

  lemma StreamGrows(s: State, s': State, more: seq<UsageEvent>)
    requires OnStream(s)
    requires s'.stream == s.stream + more
    requires s'.published == s.published || s'.published == s.published + multiset(more)
    requires s.emitted <= s'.emitted && forall e :: e in more ==> e in s.emitted
    ensures OnStream(s')
  {}

  /** The event a step puts on the stream, if it does. */
  function Landing(s: State, a: Action): seq<UsageEvent>
    requires Enabled(s, a)
  {
    match a
    case DirectOk(e) => [e]
    case DirectLands(e) => [e]
    case FlushOk(i) => [s.loops[i].event]
    case FlushLands(i) => [s.loops[i].event]
    case _ => []
  }

  lemma StreamStep(s: State, a: Action)
    requires Enabled(s, a)
    ensures Step(s, a).stream == s.stream + Landing(s, a)
    ensures Step(s, a).published == s.published || Step(s, a).published == s.published + multiset(Landing(s, a))
    ensures s.emitted <= Step(s, a).emitted
  {}

  lemma LandingIsEmitted(s: State, a: Action, e: UsageEvent)
    requires Enabled(s, a) && Control(s) && Accounts(s) && e in Landing(s, a)
    ensures e in s.emitted
  {
    InFlightIsEmitted(s, e);
  }

  lemma StreamKept(s: State, a: Action)
    requires Enabled(s, a) && Control(s) && Accounts(s) && OnStream(s)
    ensures OnStream(Step(s, a))
  {
    var more := Landing(s, a);
    forall e | e in more ensures e in s.emitted { LandingIsEmitted(s, a, e); }
    StreamStep(s, a);
    StreamGrows(s, Step(s, a), more);
  }

  lemma StepKeepsInv(s: State, a: Action)
    requires Inv(s)
    ensures Inv(Step(s, a))
  {
    ControlKept(s, a);
    AccountsKept(s, a);
    if Enabled(s, a) { StreamKept(s, a); }
  }

  /** Under every interleaving of emits, publish results and timers. */
  lemma {:induction false} InvAlways(maxBuffer: nat, actions: seq<Action>)
    ensures Inv(Run(maxBuffer, actions))
  {
    if actions != [] {
      InvAlways(maxBuffer, actions[..|actions| - 1]);
      StepKeepsInv(Run(maxBuffer, actions[..|actions| - 1]), actions[|actions| - 1]);
    }
  }

  // ----- the sink refines the gateway of the pipeline -----

  function View(s: State): Gateway { Gateway(s.emitted, s.direct + multiset(s.buffer), s.dropped, s.stream) }

  function MoveOf(s: State, a: Action): Move
    requires Enabled(s, a)
  {
    match a
    case Emit(e) => Emits(e)
    case DirectOk(e) => Sends(e)
    case DirectFailed(e) => if |s.buffer| >= s.maxBuffer then Drops(e) else Waits
    case DirectLands(e) => Lands(e)
    case FlushOk(i) => Sends(s.loops[i].event)
    case FlushLands(i) => Lands(s.loops[i].event)
    case FlushFailed(_) => Waits
    case Timer(_) => Waits
  }

  lemma FirstLeaves(direct: multiset<UsageEvent>, buffer: seq<UsageEvent>)
    requires buffer != []
    ensures buffer[0] in direct + multiset(buffer)
    ensures direct + multiset(buffer[1..]) == direct + multiset(buffer) - multiset{buffer[0]}
  {
    RemoveFirst(buffer);
  }

  lemma FlushOkView(s: State, i: nat)
    requires Control(s) && Enabled(s, FlushOk(i))
    ensures View(Step(s, FlushOk(i))) == Apply(View(s), Sends(s.loops[i].event))
  {
    FlushOkShifts(s, i);
    hide Step, Control;
    FirstLeaves(s.direct, s.buffer);
  }

  lemma Piles(a: multiset<UsageEvent>, b: multiset<UsageEvent>, e: UsageEvent)
    ensures a + multiset{e} + b == a + b + multiset{e}
    ensures e in a ==> a - multiset{e} + b == a + b - multiset{e}
    ensures e in a ==> a - multiset{e} + (b + multiset{e}) == a + b
  {}

  lemma DirectFailedView(s: State, e: UsageEvent)
    requires Enabled(s, DirectFailed(e))
    ensures View(Step(s, DirectFailed(e))) == Apply(View(s), MoveOf(s, DirectFailed(e)))
  {
    DirectFailedMoves(s, e);
    hide Step;
    Piles(s.direct, multiset(s.buffer), e);
    assert multiset(s.buffer + [e]) == multiset(s.buffer) + multiset{e};
  }

  /** The event leaves `direct` for the buffer or for the dropped ones. */
  lemma DirectFailedMoves(s: State, e: UsageEvent)
    requires Enabled(s, DirectFailed(e))
    ensures var t, full := Step(s, DirectFailed(e)), |s.buffer| >= s.maxBuffer;
      && (t.emitted, t.stream, t.published) == (s.emitted, s.stream, s.published)
      && t.direct == s.direct - multiset{e} && t.buffer == (if full then s.buffer else s.buffer + [e])
      && t.dropped == (if full then s.dropped + multiset{e} else s.dropped)
      && t.droppedCount == if full then s.droppedCount + 1 else s.droppedCount
  {}

  lemma DirectView(s: State, e: UsageEvent)
    ensures View(Step(s, Emit(e))) == Apply(View(s), Emits(e))
    ensures e in s.direct ==> View(Step(s, DirectOk(e))) == Apply(View(s), Sends(e))
  {
    Piles(s.direct, multiset(s.buffer), e);
  }

  /** Every step of the sink is one move of the gateway. */
  lemma SinkRefinesGateway(s: State, a: Action)
    requires Control(s) && Enabled(s, a)
    ensures View(Step(s, a)) == Apply(View(s), MoveOf(s, a))
  {
    match a
    case Emit(e) => DirectView(s, e);
    case DirectOk(e) => DirectView(s, e);
    case DirectFailed(e) => DirectFailedView(s, e);
    case FlushOk(i) => FlushOkView(s, i);
    case FlushLands(i) => assert s.loops[i].event in multiset(s.buffer);
    case DirectLands(e) =>
    case FlushFailed(i) =>
    case Timer(i) =>
  }

  // ----- the object -----

  class RedisStreamSink {
    const maxBuffer: nat
    var buffer: seq<UsageEvent>
    var flushing: bool
    var droppedCount: nat
    var direct: multiset<UsageEvent>
    var loops: seq<Loop>
    ghost var emitted: multiset<UsageEvent>
    ghost var buffered: seq<UsageEvent>
    ghost var flushed: seq<UsageEvent>
    ghost var published: multiset<UsageEvent>
    ghost var dropped: multiset<UsageEvent>
    ghost var stream: seq<UsageEvent>

    ghost function Abs(): State
      reads this
    {
      State(maxBuffer, buffer, flushing, droppedCount, direct, loops, emitted, buffered, flushed, published, dropped,
        stream)
    }

    constructor (maxBuffer: nat)
      ensures Abs() == Init(maxBuffer)
    {
      this.maxBuffer := maxBuffer;
      buffer, flushing, droppedCount, direct, loops := [], false, 0, multiset{}, [];
      emitted, buffered, flushed, published, dropped, stream := multiset{}, [], [], multiset{}, multiset{}, [];
    }

    /** emit: start a publish and return. */
    method EmitEvent(e: UsageEvent)
      modifies this
      ensures Abs() == Step(old(Abs()), Emit(e))
    {
      direct := direct + multiset{e};
      emitted := emitted + multiset{e};
    }

    method OnDirectOk(e: UsageEvent)
      requires e in direct
      modifies this
      ensures Abs() == Step(old(Abs()), DirectOk(e))
    {
      direct := direct - multiset{e};
      published, stream := published + multiset{e}, stream + [e];
    }

    /** The catch handler of emit. */
    method OnDirectFailed(e: UsageEvent)
      requires e in direct
      modifies this
      ensures Abs() == Step(old(Abs()), DirectFailed(e))
    {
      direct := direct - multiset{e};
      Buffer(e);
    }

    /** bufferEvent */
    method Buffer(e: UsageEvent)
      modifies this
      ensures Abs() == BufferEvent(old(Abs()), e)
    {
      hide LoopHead;
      if |buffer| >= maxBuffer {
        droppedCount := droppedCount + 1;
        dropped := dropped + multiset{e};
        return;
      }
      buffer := buffer + [e];
      buffered := buffered + [e];
      if !flushing { StartLoop(); }
    }

    /** A call of flushLoop, up to its first await. */
    method StartLoop()
      modifies this`flushing, this`loops
      ensures Abs() == LoopHead(old(Abs()).(flushing := true, loops := old(loops) + [Sleeping]), |old(loops)|)
    {
      hide LoopHead;
      flushing := true;
      loops := loops + [Sleeping];
      Turn(|loops| - 1);
    }

    /** flushLoop from its loop head to its next await, or to its end. */
    method Turn(i: nat)
      requires i < |loops|
      modifies this`flushing, this`loops
      ensures Abs() == LoopHead(old(Abs()), i)
    {
      if |buffer| > 0 {
        loops := loops[i := Publishing(buffer[0])];
      } else {
        flushing := false;
        loops := loops[..i] + loops[i + 1..];
      }
    }

    method OnFlushOk(i: nat)
      requires i < |loops| && loops[i].Publishing?
      modifies this
      ensures Abs() == Step(old(Abs()), FlushOk(i))
    {
      hide LoopHead;
      ghost var e := loops[i].event;
      if |buffer| > 0 { buffer := buffer[1..]; }
      flushed, published, stream := flushed + [e], published + multiset{e}, stream + [e];
      Turn(i);
    }

    method OnFlushFailed(i: nat)
      requires i < |loops| && loops[i].Publishing?
      modifies this
      ensures Abs() == Step(old(Abs()), FlushFailed(i))
    {
      loops := loops[i := Sleeping];
    }

    method OnTimer(i: nat)
      requires i < |loops| && loops[i].Sleeping?
      modifies this
      ensures Abs() == Step(old(Abs()), Timer(i))
    {
      Turn(i);
    }
  }
}
