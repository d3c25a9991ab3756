/**
 * The two-tier key cache (apps/gateway/src/stores/cached.ts), for one key hash and any number of gateways that share
 * Redis. Every stretch of code between two awaits is one atomic step, and so is every command Redis processes.
 */
module KeyCache {
  import opened Wrappers

  const REDIS_TTL_MS: int := 60_000
  const LOCAL_TTL_MS: int := 5_000

  datatype KeyStatus = ACTIVE | REVOKED | EXPIRED

  datatype Context = Context(vkId: string, workspaceId: string, status: KeyStatus)

  /** null for an unknown key; both tiers cache that too. */
  type Value = Option<Context>

  /** A value read from the inner store, with the instant at which it was read. */
  datatype Copy = Copy(value: Value, readAt: int)

  datatype LocalEntry = LocalEntry(copy: Copy, expiresAt: int)

  datatype Slot = Slot(copy: Copy, expiresAt: int)

  /** A call of resolve, at one of its awaits or finished; the answers are on their way. */
  datatype Stage =
    | AskingRedis
    | RedisAnswered(hit: Option<Copy>)
    | AskingInner
    | InnerAnswered(copy: Copy)
    | Writing(copy: Copy)
    | Done(copy: Copy)
    | Failed

  datatype Resolve = Resolve(gateway: nat, startedAt: int, stage: Stage)

  datatype Change = Change(at: int, value: Value)

  /**
   * `history` are the changes of the inner store, the last being current; `sets` are the SET commands under way, which
   * may outlive a failed call; `delay` bounds the time from an inner read to its Redis write.
   */
  datatype State = State(delay: nat, now: int, history: seq<Change>, redis: Option<Slot>, sets: seq<Copy>,
                         locals: seq<Option<LocalEntry>>, resolves: seq<Resolve>) {
    function Current(): Value
      requires history != []
    {
      history[|history| - 1].value
    }
  }

  ghost predicate Initial(s: State) {
    && |s.history| == 1 && s.history[0].at <= s.now && s.redis == None && s.sets == [] && s.resolves == []
    && forall g :: 0 <= g < |s.locals| ==> s.locals[g] == None
  }

  datatype Action =
    | Tick(ms: nat)
    | Start(gateway: nat)
    | RedisGet(i: nat)      // Redis processes the GET of call i
    | RedisGetFails(i: nat)
    | RedisReply(i: nat)    // its answer reaches the gateway
    | InnerRead(i: nat)
    | InnerFails(i: nat)
    | InnerReply(i: nat)
    | RedisSet(k: nat)      // Redis processes a SET, at most `delay` after the inner read
    | Return(i: nat)        // the SET is answered, or has failed
    | Update(value: Value)  // the control plane changes the key
    | RedisDel              // by the control plane, or by a gateway that was notified
    | Invalidate(gateway: nat)

  function At(s: State, i: nat): Option<Stage> { if i < |s.resolves| then Some(s.resolves[i].stage) else None }

  predicate Enabled(s: State, a: Action) {
    match a
    case Tick(_) => true
    case Start(g) => g < |s.locals|
    case RedisGet(i) => At(s, i) == Some(AskingRedis)
    case RedisGetFails(i) => At(s, i) == Some(AskingRedis)
    case RedisReply(i) => At(s, i).Some? && At(s, i).value.RedisAnswered? && s.resolves[i].gateway < |s.locals|
    case InnerRead(i) => At(s, i) == Some(AskingInner) && s.history != []
    case InnerFails(i) => At(s, i) == Some(AskingInner)
    case InnerReply(i) => At(s, i).Some? && At(s, i).value.InnerAnswered? && s.resolves[i].gateway < |s.locals|
    case RedisSet(k) => k < |s.sets| && s.now <= s.sets[k].readAt + s.delay
    case Return(i) => At(s, i).Some? && At(s, i).value.Writing?
    case Update(_) => true
    case RedisDel => true
    case Invalidate(g) => g < |s.locals|
  }

  /** A local entry is used until it expires. */
  function LocalHit(entry: Option<LocalEntry>, now: int): Option<Copy> {
    if entry.Some? && entry.value.expiresAt > now then Some(entry.value.copy) else None
  }

  function Lookup(redis: Option<Slot>, now: int): Option<Copy> {
    if redis.Some? && now <= redis.value.expiresAt then Some(redis.value.copy) else None
  }

  function To(s: State, i: nat, stage: Stage): State
    requires i < |s.resolves|
  {
    s.(resolves := s.resolves[i := s.resolves[i].(stage := stage)])
  }

  /** The gateway keeps the answer for five seconds from the start of the call. */
  function Keep(s: State, i: nat, copy: Copy): State
    requires i < |s.resolves| && s.resolves[i].gateway < |s.locals|
  {
    s.(locals := s.locals[s.resolves[i].gateway := Some(LocalEntry(copy, s.resolves[i].startedAt + LOCAL_TTL_MS))])
  }

  function Step(s: State, a: Action): State {
    if !Enabled(s, a) then s
    else
      match a
      case Tick(ms) => s.(now := s.now + ms)
      case Start(g) =>
        var hit := LocalHit(s.locals[g], s.now);
        s.(resolves := s.resolves + [Resolve(g, s.now, if hit.Some? then Done(hit.value) else AskingRedis)])
      case RedisGet(i) => To(s, i, RedisAnswered(Lookup(s.redis, s.now)))
      case RedisGetFails(i) => To(s, i, AskingInner)
      case RedisReply(i) =>
        var hit := s.resolves[i].stage.hit;
        if hit.Some? then To(Keep(s, i, hit.value), i, Done(hit.value)) else To(s, i, AskingInner)
      case InnerRead(i) => To(s, i, InnerAnswered(Copy(s.Current(), s.now)))
      case InnerFails(i) => To(s, i, Failed)
      case InnerReply(i) =>
        var copy := s.resolves[i].stage.copy;
        To(Keep(s, i, copy), i, Writing(copy)).(sets := s.sets + [copy])
      case RedisSet(k) =>
        s.(redis := Some(Slot(s.sets[k], s.now + REDIS_TTL_MS)), sets := s.sets[..k] + s.sets[k + 1..])
      case Return(i) => To(s, i, Done(s.resolves[i].stage.copy))
      case Update(value) => s.(history := s.history + [Change(s.now, value)])
      case RedisDel => s.(redis := None)
      case Invalidate(g) => s.(locals := s.locals[g := None])
  }

  function Run(s: State, actions: seq<Action>): State {
    if actions == [] then s else Step(Run(s, actions[..|actions| - 1]), actions[|actions| - 1])
  }

  // ----- how old a value can be -----

  /** The inner store held the value at time t. */
  ghost predicate HeldAt(history: seq<Change>, value: Value, t: int) {
    exists i :: 0 <= i < |history| && history[i].value == value && history[i].at <= t
      && (i + 1 < |history| ==> t <= history[i + 1].at)
  }

  ghost predicate Known(s: State, c: Copy) { c.readAt <= s.now && HeldAt(s.history, c.value, c.readAt) }

  /** What a call that started at t may have obtained beyond its own gateway's map. */
  ghost predicate Obtained(s: State, c: Copy, t: int) { Known(s, c) && c.readAt >= t - REDIS_TTL_MS - s.delay }

  ghost predicate StageOk(s: State, stage: Stage, t: int) {
    match stage
    case AskingRedis => true
    case RedisAnswered(hit) => hit.Some? ==> Obtained(s, hit.value, t)
    case AskingInner => true
    case InnerAnswered(c) => Obtained(s, c, t)
    case Writing(c) => Obtained(s, c, t)
    case Done(c) => Known(s, c) && c.readAt > t - REDIS_TTL_MS - LOCAL_TTL_MS - s.delay
    case Failed => true
  }

  ghost predicate LocalOk(s: State, entry: Option<LocalEntry>) {
    entry.Some? ==>
      Obtained(s, entry.value.copy, entry.value.expiresAt - LOCAL_TTL_MS)
        && entry.value.expiresAt <= s.now + LOCAL_TTL_MS
  }

  ghost predicate RedisOk(s: State) {
    s.redis.Some? ==>
      && Known(s, s.redis.value.copy)
      && s.redis.value.expiresAt <= s.redis.value.copy.readAt + s.delay + REDIS_TTL_MS
  }

  ghost predicate ResolveOk(s: State, r: Resolve) {
    r.gateway < |s.locals| && r.startedAt <= s.now && StageOk(s, r.stage, r.startedAt)
  }

  ghost predicate Inv(s: State) {
    && s.history != [] && (forall i :: 0 <= i < |s.history| ==> s.history[i].at <= s.now)
    && RedisOk(s)
    && (forall k :: 0 <= k < |s.sets| ==> Known(s, s.sets[k]))
    && (forall g :: 0 <= g < |s.locals| ==> LocalOk(s, s.locals[g]))
    && (forall i :: 0 <= i < |s.resolves| ==> ResolveOk(s, s.resolves[i]))
  }

  /** Time passes and the inner store moves on; what was held stays held. */
  ghost predicate Later(s: State, t: State) {
    && t.delay == s.delay && s.now <= t.now && |t.locals| == |s.locals|
    && (t.history == s.history
      || (|t.history| == |s.history| + 1 && t.history[..|s.history|] == s.history
        && t.history[|s.history|].at == s.now))
  }

  lemma KnownStays(s: State, t: State, c: Copy)
    requires Later(s, t) && Known(s, c)
    ensures Known(t, c)
  {
    var i :| 0 <= i < |s.history| && s.history[i].value == c.value && s.history[i].at <= c.readAt
             && (i + 1 < |s.history| ==> c.readAt <= s.history[i + 1].at);
    assert t.history[i] == s.history[i];
    if i + 1 < |s.history| { assert t.history[i + 1] == s.history[i + 1]; }
  }

  lemma ResolveStays(s: State, t: State, r: Resolve)
    requires Later(s, t) && ResolveOk(s, r)
    ensures ResolveOk(t, r)
  {
    match r.stage
    case RedisAnswered(hit) => if hit.Some? { KnownStays(s, t, hit.value); }
    case InnerAnswered(c) => KnownStays(s, t, c);
    case Writing(c) => KnownStays(s, t, c);
    case Done(c) => KnownStays(s, t, c);
    case _ =>
  }

  lemma LocalStays(s: State, t: State, entry: Option<LocalEntry>)
    requires Later(s, t) && LocalOk(s, entry)
    ensures LocalOk(t, entry)
  {
    if entry.Some? { KnownStays(s, t, entry.value.copy); }
  }

  lemma StepIsLater(s: State, a: Action)
    ensures Later(s, Step(s, a))
  {}

  /** Calls that a step does not concern. */
  lemma OldCalls(s: State, a: Action, i: nat)
    requires Enabled(s, a) && i < |s.resolves|
    ensures var t := Step(s, a);
      && |t.resolves| >= |s.resolves|
      && t.resolves[i].gateway == s.resolves[i].gateway && t.resolves[i].startedAt == s.resolves[i].startedAt
    ensures Step(s, a).resolves[i].stage != s.resolves[i].stage ==>
      match a
      case RedisGet(j) => j == i case RedisGetFails(j) => j == i case RedisReply(j) => j == i
      case InnerRead(j) => j == i case InnerFails(j) => j == i case InnerReply(j) => j == i case Return(j) => j == i
      case _ => false
  {}

  lemma NewStageOk(s: State, a: Action, i: nat)
    requires Inv(s) && Enabled(s, a) && i < |s.resolves| && Step(s, a).resolves[i].stage != s.resolves[i].stage
    ensures ResolveOk(Step(s, a), Step(s, a).resolves[i])
  {
    var t := Step(s, a);
    OldCalls(s, a, i);
    StepIsLater(s, a);
    ResolveStays(s, t, s.resolves[i]);
    match a
    case RedisGet(_) => if s.redis.Some? { KnownStays(s, t, s.redis.value.copy); }
    case InnerRead(_) =>
      var last := |s.history| - 1;
      assert HeldAt(t.history, s.Current(), s.now) by { assert t.history[last].value == s.Current(); }
    case _ =>
  }

  lemma ResolvesKept(s: State, a: Action)
    requires Inv(s) && Enabled(s, a)
    ensures forall i :: 0 <= i < |Step(s, a).resolves| ==> ResolveOk(Step(s, a), Step(s, a).resolves[i])
  {
    var t := Step(s, a);
    StepIsLater(s, a);
    forall i | 0 <= i < |t.resolves| ensures ResolveOk(t, t.resolves[i]) {
      if i < |s.resolves| {
        OldCalls(s, a, i);
        if t.resolves[i].stage == s.resolves[i].stage {
          ResolveStays(s, t, s.resolves[i]);
        } else {
          NewStageOk(s, a, i);
        }
      }
    }
  }

  lemma LocalsKept(s: State, a: Action)
    requires Inv(s) && Enabled(s, a)
    ensures forall g :: 0 <= g < |Step(s, a).locals| ==> LocalOk(Step(s, a), Step(s, a).locals[g])
  {
    var t := Step(s, a);
    StepIsLater(s, a);
    forall g | 0 <= g < |t.locals| ensures LocalOk(t, t.locals[g]) {
      LocalStays(s, t, s.locals[g]);
      match a
      case RedisReply(i) => ResolveStays(s, t, s.resolves[i]);
      case InnerReply(i) => ResolveStays(s, t, s.resolves[i]);
      case _ =>
    }
  }

  lemma RedisKept(s: State, a: Action)
    requires Inv(s) && Enabled(s, a)
    ensures RedisOk(Step(s, a))
  {
    var t := Step(s, a);
    StepIsLater(s, a);
    if a.RedisSet? {
      KnownStays(s, t, s.sets[a.k]);
    } else if t.redis.Some? {
      KnownStays(s, t, s.redis.value.copy);
    }
  }

  lemma SetsKept(s: State, a: Action)
    requires Inv(s) && Enabled(s, a)
    ensures forall k :: 0 <= k < |Step(s, a).sets| ==> Known(Step(s, a), Step(s, a).sets[k])
  {
    var t := Step(s, a);
    StepIsLater(s, a);
    forall k | 0 <= k < |t.sets| ensures Known(t, t.sets[k]) {
      if a.InnerReply? && k == |s.sets| {
        ResolveStays(s, t, s.resolves[a.i]);
      } else {
        KnownStays(s, t, if a.RedisSet? && k >= a.k then s.sets[k + 1] else s.sets[k]);
      }
    }
  }

  lemma HistoryKept(s: State, a: Action)
    requires Inv(s) && Enabled(s, a)
    ensures var t := Step(s, a); t.history != [] && forall i :: 0 <= i < |t.history| ==> t.history[i].at <= t.now
  {}

  lemma InvKept(s: State, a: Action)
    requires Inv(s)
    ensures Inv(Step(s, a))
  {
    if Enabled(s, a) {
      HistoryKept(s, a);
      RedisKept(s, a);
      SetsKept(s, a);
      LocalsKept(s, a);
      ResolvesKept(s, a);
    }
  }

  lemma {:induction false} InvAlways(s: State, actions: seq<Action>)
    requires Inv(s)
    ensures Inv(Run(s, actions))
  {
    if actions != [] {
      InvAlways(s, actions[..|actions| - 1]);
      InvKept(Run(s, actions[..|actions| - 1]), actions[|actions| - 1]);
    }
  }

  /**
   * Over every run, with any number of gateways: a call of resolve that started at t returns a value which the inner
   * store held at some instant later than t - 65 s - delay.
   */
  lemma ResolvedIsRecent(s: State, actions: seq<Action>, i: nat)
    requires Initial(s) && i < |Run(s, actions).resolves| && Run(s, actions).resolves[i].stage.Done?
    ensures var t := Run(s, actions);
      var call := t.resolves[i];
      exists at :: call.startedAt - 65_000 - t.delay < at <= t.now && HeldAt(t.history, call.stage.copy.value, at)
  {
    InvAlways(s, actions);
    var t := Run(s, actions);
    assert ResolveOk(t, t.resolves[i]);
    assert HeldAt(t.history, t.resolves[i].stage.copy.value, t.resolves[i].stage.copy.readAt);
  }

  // ----- how fast an update takes effect -----

  predicate NoUpdate(actions: seq<Action>) { forall j :: 0 <= j < |actions| ==> !actions[j].Update? }

  /** A copy that an update has overtaken but that can still be written to Redis. */
  ghost predicate Stale(s: State, v: Value, c: Copy) { c.value != v && s.now <= c.readAt + s.delay }

  /** Some inner read from before the update is still on its way to Redis. */
  ghost predicate Straddled(s: State, v: Value) {
    || (exists i ::
          0 <= i < |s.resolves| && s.resolves[i].stage.InnerAnswered? && Stale(s, v, s.resolves[i].stage.copy))
    || (exists k :: 0 <= k < |s.sets| && Stale(s, v, s.sets[k]))
  }

  /** Every call that started 5 s or more after d and has returned, has returned v. */
  ghost predicate AllNew(s: State, d: int, v: Value) {
    forall i :: 0 <= i < |s.resolves| && s.resolves[i].stage.Done? && s.resolves[i].startedAt >= d + LOCAL_TTL_MS ==>
      s.resolves[i].stage.copy.value == v
  }

  ghost predicate CallFresh(s: State, d: int, v: Value, r: Resolve) {
    && r.gateway < |s.locals|
    && match r.stage
       case RedisAnswered(hit) => hit.Some? && hit.value.value != v ==> r.startedAt <= d
       case InnerAnswered(c) => c.value != v ==> r.startedAt <= d && !Stale(s, v, c)
       case Writing(c) => c.value != v ==> r.startedAt <= d
       case Done(c) => c.value != v ==> r.startedAt < d + LOCAL_TTL_MS
       case _ => true
  }

  ghost predicate LocalFresh(d: int, v: Value, entry: Option<LocalEntry>) {
    entry.Some? && entry.value.copy.value != v ==> entry.value.expiresAt <= d + LOCAL_TTL_MS
  }

  /** Stale copies are only where they run out 5 s after d. */
  ghost predicate Fresh(s: State, d: int, v: Value) {
    && s.history != [] && s.Current() == v
    && (s.redis.Some? ==> s.redis.value.copy.value == v)
    && (forall k :: 0 <= k < |s.sets| ==> !Stale(s, v, s.sets[k]))
    && (forall g :: 0 <= g < |s.locals| ==> LocalFresh(d, v, s.locals[g]))
    && (forall i :: 0 <= i < |s.resolves| ==> CallFresh(s, d, v, s.resolves[i]))
  }

  /** Right after the Redis delete, unless a stale read straddles it. */
  lemma DeleteIsFresh(s: State)
    requires Inv(s) && !Straddled(s, s.Current())
    ensures Fresh(Step(s, RedisDel), s.now, s.Current())
  {
    var t, v := Step(s, RedisDel), s.Current();
    forall g | 0 <= g < |t.locals| ensures LocalFresh(s.now, v, t.locals[g]) { assert LocalOk(s, s.locals[g]); }
    forall i | 0 <= i < |t.resolves| ensures CallFresh(t, s.now, v, t.resolves[i]) {
      assert ResolveOk(s, s.resolves[i]);
    }
  }

  lemma CallStaysFresh(s: State, a: Action, d: int, v: Value, i: nat)
    requires Fresh(s, d, v) && Enabled(s, a) && !a.Update? && i < |s.resolves|
    ensures CallFresh(Step(s, a), d, v, Step(s, a).resolves[i])
  {
    OldCalls(s, a, i);
    StepIsLater(s, a);
    assert CallFresh(s, d, v, s.resolves[i]);
  }

  lemma LocalStaysFresh(s: State, a: Action, d: int, v: Value, g: nat)
    requires Fresh(s, d, v) && Enabled(s, a) && !a.Update? && g < |s.locals|
    ensures LocalFresh(d, v, Step(s, a).locals[g])
  {
    assert LocalFresh(d, v, s.locals[g]);
    match a
    case RedisReply(i) => assert CallFresh(s, d, v, s.resolves[i]);
    case InnerReply(i) => assert CallFresh(s, d, v, s.resolves[i]);
    case _ =>
  }

  lemma SetsStayFresh(s: State, a: Action, d: int, v: Value)
    requires Fresh(s, d, v) && Enabled(s, a) && !a.Update?
    ensures forall k :: 0 <= k < |Step(s, a).sets| ==> !Stale(Step(s, a), v, Step(s, a).sets[k])
  {
    var t := Step(s, a);
    StepIsLater(s, a);
    forall k | 0 <= k < |t.sets| ensures !Stale(t, v, t.sets[k]) {
      if a.InnerReply? && k == |s.sets| {
        assert CallFresh(s, d, v, s.resolves[a.i]);
      } else {
        assert !Stale(s, v, if a.RedisSet? && k >= a.k then s.sets[k + 1] else s.sets[k]);
      }
    }
  }

  lemma FreshKept(s: State, a: Action, d: int, v: Value)
    requires Fresh(s, d, v) && !a.Update?
    ensures Fresh(Step(s, a), d, v)
  {
    if Enabled(s, a) {
      var t := Step(s, a);
      StepIsLater(s, a);
      SetsStayFresh(s, a, d, v);
      forall g | 0 <= g < |t.locals| ensures LocalFresh(d, v, t.locals[g]) { LocalStaysFresh(s, a, d, v, g); }
      forall i | 0 <= i < |t.resolves| ensures CallFresh(t, d, v, t.resolves[i]) {
        if i < |s.resolves| { CallStaysFresh(s, a, d, v, i); } else { assert LocalFresh(d, v, s.locals[a.gateway]); }
      }
      if a.RedisSet? { assert !Stale(s, v, s.sets[a.k]); }
    }
  }

  lemma {:induction false} FreshAlways(s: State, actions: seq<Action>, d: int, v: Value)
    requires Fresh(s, d, v) && NoUpdate(actions)
    ensures Fresh(Run(s, actions), d, v)
  {
    if actions != [] {
      FreshAlways(s, actions[..|actions| - 1], d, v);
      FreshKept(Run(s, actions[..|actions| - 1]), actions[|actions| - 1], d, v);
    }
  }

  lemma {:induction false} RunConcat(s: State, a: seq<Action>, b: seq<Action>)
    ensures Run(s, a + b) == Run(Run(s, a), b)
  {
    if b == [] {
      assert a + b == a;
    } else {
      assert (a + b)[..|a + b| - 1] == a + b[..|b| - 1];
      RunConcat(s, a, b[..|b| - 1]);
    }
  }

  lemma RunOne(s: State, a: Action)
    ensures Run(s, [a]) == Step(s, a)
  {
    assert [a][..0] == [];
    assert Run(s, []) == s;
  }

  lemma RunThree(s: State, a: Action, b: Action, c: Action)
    ensures Run(s, [a, b, c]) == Step(Step(Step(s, a), b), c)
  {
    hide Step;
    RunOne(s, a);
    RunConcat(s, [a], [b]);
    RunOne(Step(s, a), b);
    RunConcat(s, [a, b], [c]);
    RunOne(Step(Step(s, a), b), c);
    assert [a] + [b] == [a, b] && [a, b] + [c] == [a, b, c];
  }

  /** Five seconds on, no gateway's map still serves what it holds now. */
  lemma LocalRunsOut(s: State, g: nat)
    requires Inv(s) && g < |s.locals|
    ensures LocalHit(s.locals[g], s.now + 5_000) == None
  {
    assert LocalOk(s, s.locals[g]);
  }

  /** A stale SET lands and, five seconds on, a call starts. */
  lemma StaleSetLands(s: State, k: nat)
    requires Inv(s) && |s.locals| > 0 && Enabled(s, RedisSet(k))
    ensures var t := Run(s, [RedisSet(k), Tick(5_000), Start(0)]);
      && t.redis == Some(Slot(s.sets[k], s.now + REDIS_TTL_MS)) && t.now == s.now + 5_000 && |t.locals| > 0
      && t.resolves == s.resolves + [Resolve(0, s.now + 5_000, AskingRedis)]
  {
    hide Run, Inv, LocalHit;
    LocalRunsOut(s, 0);
    RunThree(s, RedisSet(k), Tick(5_000), Start(0));
  }

  /** A call that asks Redis gets what is there. */
  lemma RedisIsAsked(s: State, i: nat, slot: Slot)
    requires i < |s.resolves| && s.resolves[i].stage == AskingRedis && s.resolves[i].gateway < |s.locals|
    requires s.redis == Some(slot) && s.now <= slot.expiresAt
    ensures var t := Run(s, [RedisGet(i), RedisReply(i)]);
      |t.resolves| == |s.resolves| && t.resolves[i] == s.resolves[i].(stage := Done(slot.copy))
  {
    RunOne(s, RedisGet(i));
    RunConcat(s, [RedisGet(i)], [RedisReply(i)]);
    RunOne(Step(s, RedisGet(i)), RedisReply(i));
    assert [RedisGet(i)] + [RedisReply(i)] == [RedisGet(i), RedisReply(i)];
  }

  lemma StaleSetIsServed(s: State, k: nat, v: Value) returns (actions: seq<Action>)
    requires Inv(s) && |s.locals| > 0 && k < |s.sets| && Stale(s, v, s.sets[k])
    ensures NoUpdate(actions) && !AllNew(Run(s, actions), s.now, v)
  {
    var first, i := [RedisSet(k), Tick(5_000), Start(0)], |s.resolves|;
    actions := first + [RedisGet(i), RedisReply(i)];
    StaleSetLands(s, k);
    RedisIsAsked(Run(s, first), i, Slot(s.sets[k], s.now + REDIS_TTL_MS));
    RunConcat(s, first, [RedisGet(i), RedisReply(i)]);
    assert Run(s, actions).resolves[i] == Resolve(0, s.now + 5_000, Done(s.sets[k]));
  }

  lemma ReplyIsSent(s: State, i: nat, v: Value)
    requires Inv(s) && i < |s.resolves| && s.resolves[i].stage.InnerAnswered? && Stale(s, v, s.resolves[i].stage.copy)
    ensures var t := Step(s, InnerReply(i));
      && t.sets == s.sets + [s.resolves[i].stage.copy] && Stale(t, v, t.sets[|s.sets|])
      && t.now == s.now && |t.locals| == |s.locals|
  {
    assert ResolveOk(s, s.resolves[i]);
  }

  lemma StraddlingIsServed(s: State, v: Value) returns (actions: seq<Action>)
    requires Inv(s) && |s.locals| > 0 && Straddled(s, v)
    ensures NoUpdate(actions) && !AllNew(Run(s, actions), s.now, v)
  {
    if k :| 0 <= k < |s.sets| && Stale(s, v, s.sets[k]) {
      actions := StaleSetIsServed(s, k, v);
    } else {
      var i :| 0 <= i < |s.resolves| && s.resolves[i].stage.InnerAnswered? && Stale(s, v, s.resolves[i].stage.copy);
      var s1 := Step(s, InnerReply(i));
      ReplyIsSent(s, i, v);
      InvKept(s, InnerReply(i));
      hide Step, Inv, Stale, Run;
      var rest := StaleSetIsServed(s1, |s.sets|, v);
      actions := [InnerReply(i)] + rest;
      RunConcat(s, [InnerReply(i)], rest);
      RunOne(s, InnerReply(i));
    }
  }

  lemma DeleteLeavesStraddled(s: State, v: Value)
    requires Straddled(s, v)
    ensures var t := Step(s, RedisDel); Straddled(t, v) && t.locals == s.locals && t.now == s.now
  {}

  /**
   * In any reachable state, a Redis delete makes the current value the one that every call starting at least 5 s later
   * returns, however the run goes on, if and only if no inner read of an older value straddles the delete.
   */
  lemma DeleteTakesEffectIffNothingStraddles(s: State, before: seq<Action>)
    requires Initial(s) && |Run(s, before).locals| > 0
    ensures var t := Run(s, before);
      t.history != [] &&
      ((forall actions :: NoUpdate(actions) ==> AllNew(Run(Step(t, RedisDel), actions), t.now, t.Current())) <==>
        !Straddled(t, t.Current()))
  {
    hide Step, Run;
    var t := Run(s, before);
    InvAlways(s, before);
    var v := t.Current();
    if Straddled(t, v) {
      InvKept(t, RedisDel);
      DeleteLeavesStraddled(t, v);
      var actions := StraddlingIsServed(Step(t, RedisDel), v);
    } else {
      DeleteIsFresh(t);
      forall actions | NoUpdate(actions) ensures AllNew(Run(Step(t, RedisDel), actions), t.now, v) {
        FreshAlways(Step(t, RedisDel), actions, t.now, v);
        FreshMeansNew(Run(Step(t, RedisDel), actions), t.now, v);
      }
    }
  }

  lemma FreshMeansNew(s: State, d: int, v: Value)
    requires Fresh(s, d, v)
    ensures AllNew(s, d, v)
  {
    forall i | 0 <= i < |s.resolves| && s.resolves[i].stage.Done? && s.resolves[i].startedAt >= d + LOCAL_TTL_MS
      ensures s.resolves[i].stage.copy.value == v
    {
      assert CallFresh(s, d, v, s.resolves[i]);
    }
  }

  lemma RunNext(s: State, actions: seq<Action>, a: Action)
    ensures Run(s, actions + [a]) == Step(Run(s, actions), a)
  {
    assert (actions + [a])[..|actions|] == actions;
  }

  /** A call that has read the inner store when the key changes: from any initial state a straddled one is reached. */
  lemma StraddlingIsReached(s: State, v: Value)
    requires Initial(s) && |s.locals| > 0 && s.Current() != v
    ensures var t := Run(s, [Start(0)] + [RedisGet(0)] + [RedisReply(0)] + [InnerRead(0)] + [Update(v)]);
      t.history != [] && t.Current() == v && Straddled(t, v)
  {
    hide Run;
    var s1, s2 := Step(s, Start(0)), Step(Step(s, Start(0)), RedisGet(0));
    assert s1.resolves == [Resolve(0, s.now, AskingRedis)];
    assert s2.resolves == [Resolve(0, s.now, RedisAnswered(None))];
    var s3 := Step(s2, RedisReply(0));
    assert s3.resolves == [Resolve(0, s.now, AskingInner)] && s3.history == s.history;
    var s4 := Step(s3, InnerRead(0));
    assert s4.resolves == [Resolve(0, s.now, InnerAnswered(Copy(s.Current(), s.now)))];
    var t := Step(s4, Update(v));
    assert t.resolves[0].stage == InnerAnswered(Copy(s.Current(), s.now)) && Stale(t, v, t.resolves[0].stage.copy);
    assert [] + [Start(0)] == [Start(0)];
    RunOne(s, Start(0));
    RunNext(s, [Start(0)], RedisGet(0));
    RunNext(s, [Start(0)] + [RedisGet(0)], RedisReply(0));
    RunNext(s, [Start(0)] + [RedisGet(0)] + [RedisReply(0)], InnerRead(0));
    RunNext(s, [Start(0)] + [RedisGet(0)] + [RedisReply(0)] + [InnerRead(0)], Update(v));
  }

  // ----- who answers a call -----

  /** A call that Redis fails goes on to the inner store, returns what it holds, keeps it and sends it to Redis. */
  lemma FailedGetAsksTheInnerStore(s: State, i: nat)
    requires At(s, i) == Some(AskingRedis) && s.resolves[i].gateway < |s.locals| && s.history != []
    ensures var t := Run(s, [RedisGetFails(i)] + [InnerRead(i)] + [InnerReply(i)] + [Return(i)]);
      var copy, g := Copy(s.Current(), s.now), s.resolves[i].gateway;
      && At(t, i) == Some(Done(copy)) && t.sets == s.sets + [copy]
      && |t.locals| == |s.locals| && t.locals[g] == Some(LocalEntry(copy, s.resolves[i].startedAt + 5_000))
  {
    hide Run;
    var s1 := Step(s, RedisGetFails(i));
    var s2 := Step(s1, InnerRead(i));
    var s3 := Step(s2, InnerReply(i));
    assert At(s1, i) == Some(AskingInner) && At(s2, i) == Some(InnerAnswered(Copy(s.Current(), s.now)));
    assert At(s3, i) == Some(Writing(Copy(s.Current(), s.now)));
    RunOne(s, RedisGetFails(i));
    RunNext(s, [RedisGetFails(i)], InnerRead(i));
    RunNext(s, [RedisGetFails(i)] + [InnerRead(i)], InnerReply(i));
    RunNext(s, [RedisGetFails(i)] + [InnerRead(i)] + [InnerReply(i)], Return(i));
  }

  /** An inner store that fails ends the call without an answer, and nothing is kept. */
  lemma InnerFailureEndsTheCall(s: State, i: nat)
    requires At(s, i) == Some(AskingInner)
    ensures var t := Step(s, InnerFails(i));
      At(t, i) == Some(Failed) && (t.locals, t.redis, t.sets) == (s.locals, s.redis, s.sets)
  {}

  /** So does one that Redis has no entry for; an entry that has not expired answers the call, and is kept. */
  lemma RedisDecides(s: State, i: nat)
    requires At(s, i) == Some(AskingRedis) && s.resolves[i].gateway < |s.locals|
    ensures var t, g := Run(s, [RedisGet(i)] + [RedisReply(i)]), s.resolves[i].gateway;
      var hit := s.redis.Some? && s.now <= s.redis.value.expiresAt;
      && (!hit ==> At(t, i) == Some(AskingInner) && t.locals == s.locals)
      && (hit ==>
            && At(t, i) == Some(Done(s.redis.value.copy))
            && t.locals == s.locals[g := Some(LocalEntry(s.redis.value.copy, s.resolves[i].startedAt + 5_000))])
  {
    hide Run;
    RunOne(s, RedisGet(i));
    RunNext(s, [RedisGet(i)], RedisReply(i));
  }

  /** What a SET leaves in Redis answers for 60 s and no longer. */
  lemma RedisKeepsAMinute(s: State, k: nat, ms: nat)
    requires Enabled(s, RedisSet(k))
    ensures var t := Run(s, [RedisSet(k)] + [Tick(ms)]);
      Lookup(t.redis, t.now) == if ms <= 60_000 then Some(s.sets[k]) else None
  {
    hide Run;
    RunOne(s, RedisSet(k));
    RunNext(s, [RedisSet(k)], Tick(ms));
  }

  /** A value that the inner store has answered with answers the gateway's later calls for 5 s from its own start. */
  lemma LocalAnswersForFiveSeconds(s: State, i: nat, ms: nat)
    requires Enabled(s, InnerReply(i))
    ensures var r := s.resolves[i];
      var t := Run(s, [InnerReply(i)] + [Tick(ms)] + [Start(r.gateway)]);
      |t.resolves| == |s.resolves| + 1
        && t.resolves[|s.resolves|].stage ==
             (if s.now + ms < r.startedAt + 5_000 then Done(r.stage.copy) else AskingRedis)
  {
    hide Run;
    var g := s.resolves[i].gateway;
    RunOne(s, InnerReply(i));
    RunNext(s, [InnerReply(i)], Tick(ms));
    RunNext(s, [InnerReply(i)] + [Tick(ms)], Start(g));
  }

  predicate NoAnswers(actions: seq<Action>) {
    forall j :: 0 <= j < |actions| ==> !actions[j].RedisReply? && !actions[j].InnerReply?
  }

  lemma {:induction false} MapStaysEmpty(s: State, actions: seq<Action>, g: nat)
    requires g < |s.locals| && s.locals[g] == None && NoAnswers(actions)
    ensures g < |Run(s, actions).locals| && Run(s, actions).locals[g] == None
  {
    if actions != [] { MapStaysEmpty(s, actions[..|actions| - 1], g); }
  }

  /** After an invalidation the gateway asks Redis again, whatever happens until some call of resolve is answered. */
  lemma InvalidatedAsksAgain(s: State, g: nat, actions: seq<Action>)
    requires g < |s.locals| && NoAnswers(actions)
    ensures var t := Run(Step(s, Invalidate(g)), actions);
      Step(t, Start(g)).resolves == t.resolves + [Resolve(g, t.now, AskingRedis)]
  {
    MapStaysEmpty(Step(s, Invalidate(g)), actions, g);
  }

  // ----- the object -----

  /**
   * Gateway number `gateway` of the step systems of the key hashes it serves, one system a hash: its map holds this
   * gateway's entry of each. The stretches of resolve between two awaits, and the notification handler, are its steps.
   */
  class CachedKeyStore {
    const gateway: nat
    var local: map<string, LocalEntry>
    ghost var systems: map<string, State>

    function Tier(keyHash: string): Option<LocalEntry>
      reads this
    {
      if keyHash in local then Some(local[keyHash]) else None
    }

    ghost predicate Valid()
      reads this
    {
      forall k :: k in systems ==> gateway < |systems[k].locals| && systems[k].locals[gateway] == Tier(k)
    }

    constructor (gateway: nat, ghost systems: map<string, State>)
      requires forall k :: k in systems ==> Initial(systems[k]) && gateway < |systems[k].locals|
      ensures Valid() && this.gateway == gateway && this.systems == systems
    {
      this.gateway, this.local, this.systems := gateway, map[], systems;
    }

    /** resolve up to its first await: a local entry that has not expired is the answer. */
    method Begin(keyHash: string, now: int) returns (hit: Option<Copy>)
      requires Valid() && keyHash in systems && systems[keyHash].now == now
      modifies this`systems
      ensures Valid() && systems == old(systems)[keyHash := Step(old(systems[keyHash]), Start(gateway))]
      ensures hit == LocalHit(Tier(keyHash), now)
    {
      systems := systems[keyHash := Step(systems[keyHash], Start(gateway))];
      if keyHash in local && local[keyHash].expiresAt > now { return Some(local[keyHash].copy); }
      return None;
    }

    /** The answer of Redis to call i: a hit is kept and returned, a miss leads to the inner store. */
    method OnRedisReply(keyHash: string, startedAt: int, answer: Option<Copy>, ghost i: nat) returns (done: bool)
      requires Valid() && keyHash in systems && i < |systems[keyHash].resolves|
      requires systems[keyHash].resolves[i] == Resolve(gateway, startedAt, RedisAnswered(answer))
      modifies this
      ensures Valid() && systems == old(systems)[keyHash := Step(old(systems[keyHash]), RedisReply(i))]
      ensures done <==> answer.Some?
    {
      done := answer.Some?;
      if done { local := local[keyHash := LocalEntry(answer.value, startedAt + LOCAL_TTL_MS)]; }
      systems := systems[keyHash := Step(systems[keyHash], RedisReply(i))];
    }

    /**
     * The answer of the inner store to call i is kept for five seconds from the start of the call, and sent to Redis.
     */
    method OnInnerReply(keyHash: string, startedAt: int, copy: Copy, ghost i: nat)
      requires Valid() && keyHash in systems && i < |systems[keyHash].resolves|
      requires systems[keyHash].resolves[i] == Resolve(gateway, startedAt, InnerAnswered(copy))
      modifies this
      ensures Valid() && systems == old(systems)[keyHash := Step(old(systems[keyHash]), InnerReply(i))]
    {
      local := local[keyHash := LocalEntry(copy, startedAt + LOCAL_TTL_MS)];
      systems := systems[keyHash := Step(systems[keyHash], InnerReply(i))];
    }

    /** invalidate */
    method Forget(keyHash: string)
      requires Valid() && keyHash in systems
      modifies this
      ensures Valid() && systems == old(systems)[keyHash := Step(old(systems[keyHash]), Invalidate(gateway))]
    {
      local := local - {keyHash};
      systems := systems[keyHash := Step(systems[keyHash], Invalidate(gateway))];
    }
  }
}
