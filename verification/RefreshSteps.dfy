/**
 * The session handlers (apps/api/src/modules/auth.ts) cut at their awaits: a refresh reads its session, revokes it and
 * creates the next one in three statements, and statements of other requests may run in between.
 */
module RefreshSteps {
  import opened Wrappers
  import S = Sessions

  /** A refresh that found its session revoked, or live; then after its own revocation; then over. */
  datatype Stage = Reusing | Reading | Rotating | Over

  /** `since` is how many writes had been logged when the session was read. */
  datatype Refresh = Refresh(session: S.Session, stage: Stage, since: nat)

  /** A write to an existing family: a session handed on by the token `parent`, or the family's live session revoked. */
  datatype Write = Created(family: string, parent: string) | Killed(family: string)

  /** The log of writes is history. */
  datatype State = State(db: seq<S.Session>, refreshes: seq<Refresh>, log: seq<Write>)

  const EMPTY := State([], [], [])

  datatype Action =
    | Login(userId: string, familyId: string, token: string, now: int)
    | Read(presented: string, now: int)           // findUnique, and the checks on its result
    | RevokeFamily(i: nat, now: int)              // updateMany on the family, after reuse was detected
    | RevokeOwn(i: nat, now: int)                 // update of the session read
    | Create(i: nat, token: string, now: int)     // issueSession
    | Logout(presented: string, now: int)

  function At(s: State, i: nat): Option<Stage> { if i < |s.refreshes| then Some(s.refreshes[i].stage) else None }

  predicate Enabled(s: State, a: Action) {
    match a
    case Login(_, f, t, _) => !S.HasToken(s.db, t) && !S.HasFamily(s.db, f)
    case Read(presented, now) => S.Find(s.db, presented).Some? && S.Find(s.db, presented).value.expiresAt >= now
    case RevokeFamily(i, _) => At(s, i) == Some(Reusing)
    case RevokeOwn(i, _) => At(s, i) == Some(Reading)
    case Create(i, t, _) => At(s, i) == Some(Rotating) && !S.HasToken(s.db, t)
    case Logout(presented, _) => S.Find(s.db, presented).Some?
  }

  function To(s: State, i: nat, stage: Stage): State
    requires i < |s.refreshes|
  {
    s.(refreshes := s.refreshes[i := s.refreshes[i].(stage := stage)])
  }

  function Step(s: State, a: Action): State {
    if !Enabled(s, a) then s
    else
      match a
      case Login(u, f, t, now) => s.(db := S.Issue(s.db, u, f, t, now))
      case Read(presented, _) =>
        var session := S.Find(s.db, presented).value;
        s.(refreshes := s.refreshes + [Refresh(session, if session.revokedAt.Some? then Reusing else Reading, |s.log|)])
      case RevokeFamily(i, now) =>
        var f := s.refreshes[i].session.familyId;
        To(s, i, Over).(db := S.RevokeFamily(s.db, f, now), log := s.log + [Killed(f)])
      case RevokeOwn(i, now) => To(s, i, Rotating).(db := S.RevokeToken(s.db, s.refreshes[i].session.token, now))
      case Create(i, t, now) =>
        var session := s.refreshes[i].session;
        To(s, i, Over).(db := S.Issue(s.db, session.userId, session.familyId, t, now),
                        log := s.log + [Created(session.familyId, session.token)])
      case Logout(presented, now) =>
        var session := S.Find(s.db, presented).value;
        s.(db := S.RevokeToken(s.db, presented, now),
           log := s.log + if session.revokedAt.None? then [Killed(session.familyId)] else [])
  }

  function Run(s: State, actions: seq<Action>): State {
    if actions == [] then s else Step(Run(s, actions[..|actions| - 1]), actions[|actions| - 1])
  }

  /** The handler without interleaving is its statements one after the other. */
  lemma HandlerIsItsStatements(s: State, presented: string, token: string, now: int)
    requires !S.HasToken(s.db, token)
    ensures var i := |s.refreshes|;
      Step(Step(Step(Step(s, Read(presented, now)), RevokeFamily(i, now)), RevokeOwn(i, now)), Create(i, token, now)).db
      == S.Handle(s.db, S.Refresh(Some(presented), token, now)).0
  {
    if Enabled(s, Read(presented, now)) {
      var session := S.Find(s.db, presented).value;
      if session.revokedAt.None? { RevokingKeepsTokens(s.db, presented, now, token); }
    }
  }

  /** So are login and logout, of one statement each. */
  lemma OtherHandlersAreSteps(s: State, u: string, f: string, t: string, presented: string, now: int)
    ensures !S.HasToken(s.db, t) && !S.HasFamily(s.db, f) ==>
      Step(s, Login(u, f, t, now)).db == S.Handle(s.db, S.Login(u, f, t, now)).0
    ensures Step(s, Logout(presented, now)).db == S.Handle(s.db, S.Logout(Some(presented), now)).0
  {
    if S.Find(s.db, presented).None? { S.RevokeAbsentToken(s.db, presented, now); }
  }

  lemma RevokingKeepsTokens(db: seq<S.Session>, presented: string, now: int, token: string)
    ensures S.HasToken(S.RevokeToken(db, presented, now), token) <==> S.HasToken(db, token)
  {
    var r := S.RevokeToken(db, presented, now);
    assert forall k :: 0 <= k < |db| ==> r[k].token == db[k].token;
  }

  // ----- the promise of rotation -----

  predicate IsLive(db: seq<S.Session>, k: nat, f: string) { k < |db| && db[k].familyId == f && db[k].revokedAt.None? }

  ghost function LiveTokens(db: seq<S.Session>, f: string): set<string> {
    set k: nat | k < |db| && IsLive(db, k, f) :: db[k].token
  }

  /** A family has at most one live session. */
  ghost predicate OneLive(s: State) {
    forall f, t, u :: t in LiveTokens(s.db, f) && u in LiveTokens(s.db, f) ==> t == u
  }

  /** A family whose live session was revoked, by reuse or by logout, has no live session. */
  ghost predicate DeadStaysDead(s: State) {
    forall n :: 0 <= n < |s.log| && s.log[n].Killed? ==> LiveTokens(s.db, s.log[n].family) == {}
  }

  /** A token is handed on at most once. */
  ghost predicate RedeemedOnce(s: State) {
    forall m, n :: 0 <= m < n < |s.log| && s.log[m].Created? && s.log[n].Created? ==> s.log[m].parent != s.log[n].parent
  }

  ghost predicate Promise(s: State) { OneLive(s) && DeadStaysDead(s) && RedeemedOnce(s) }

  /** Nobody else has written to the family since refresh i read its session. */
  predicate Undisturbed(s: State, i: nat)
    requires i < |s.refreshes|
  {
    forall n :: s.refreshes[i].since <= n < |s.log| ==> s.log[n].family != s.refreshes[i].session.familyId
  }

  /** A step is orderly unless it creates a session after another write to the family has come between. */
  predicate Orderly(s: State, a: Action) { Enabled(s, a) && a.Create? ==> Undisturbed(s, a.i) }

  predicate OrderlyRun(actions: seq<Action>) {
    actions == []
      || (OrderlyRun(actions[..|actions| - 1]) && Orderly(Run(EMPTY, actions[..|actions| - 1]), actions[|actions| - 1]))
  }

  ghost predicate KeptThroughout(actions: seq<Action>) {
    Promise(Run(EMPTY, actions)) && (actions != [] ==> KeptThroughout(actions[..|actions| - 1]))
  }

  // ----- what the statements do to live tokens -----

  lemma LiveAfterIssue(db: seq<S.Session>, u: string, f: string, t: string, now: int, g: string)
    ensures LiveTokens(S.Issue(db, u, f, t, now), g) == LiveTokens(db, g) + if g == f then {t} else {}
  {
    var r := S.Issue(db, u, f, t, now);
    assert forall k :: 0 <= k < |db| ==> r[k] == db[k];
    forall x ensures x in LiveTokens(r, g) <==> x in LiveTokens(db, g) + if g == f then {t} else {} {
      if x in LiveTokens(db, g) {
        var k: nat :| k < |db| && IsLive(db, k, g) && db[k].token == x;
        assert IsLive(r, k, g);
      }
      if g == f && x == t { assert IsLive(r, |db|, g); }
    }
  }

  lemma LiveAfterFamily(db: seq<S.Session>, f: string, now: int, g: string)
    ensures LiveTokens(S.RevokeFamily(db, f, now), g) == if g == f then {} else LiveTokens(db, g)
  {
    var r := S.RevokeFamily(db, f, now);
    forall x | g != f ensures x in LiveTokens(r, g) <==> x in LiveTokens(db, g) {
      if x in LiveTokens(db, g) {
        var k: nat :| k < |db| && IsLive(db, k, g) && db[k].token == x;
        assert IsLive(r, k, g);
      }
      if x in LiveTokens(r, g) {
        var k: nat :| k < |r| && IsLive(r, k, g) && r[k].token == x;
        assert IsLive(db, k, g);
      }
    }
  }

  lemma LiveAfterToken(db: seq<S.Session>, token: string, now: int, g: string)
    ensures LiveTokens(S.RevokeToken(db, token, now), g) == LiveTokens(db, g) - {token}
  {
    var r := S.RevokeToken(db, token, now);
    forall x ensures x in LiveTokens(r, g) <==> x in LiveTokens(db, g) && x != token {
      if x in LiveTokens(db, g) && x != token {
        var k: nat :| k < |db| && IsLive(db, k, g) && db[k].token == x;
        assert IsLive(r, k, g);
      }
      if x in LiveTokens(r, g) {
        var k: nat :| k < |r| && IsLive(r, k, g) && r[k].token == x;
        assert IsLive(db, k, g);
      }
    }
  }

  lemma LiveIsFound(db: seq<S.Session>, token: string, f: string)
    requires S.UniqueTokens(db) && S.Find(db, token).Some?
    ensures var s := S.Find(db, token).value;
      && (token in LiveTokens(db, f) <==> s.revokedAt.None? && s.familyId == f)
      && S.HasFamily(db, s.familyId)
  {
    var s := S.Find(db, token).value;
    var k: nat :| k < |db| && db[k] == s;
    if s.revokedAt.None? && s.familyId == f { assert IsLive(db, k, f); }
  }

  // ----- the invariant of orderly runs -----

  predicate Active(s: State, i: nat) {
    i < |s.refreshes| && (s.refreshes[i].stage == Reading || s.refreshes[i].stage == Rotating)
  }

  /** Tokens are unique, and what the log and the refreshes name is in the table; a token handed on is revoked. */
  ghost predicate Known(s: State) {
    && S.UniqueTokens(s.db)
    && (forall n :: 0 <= n < |s.log| ==> S.HasFamily(s.db, s.log[n].family))
    && (forall n :: 0 <= n < |s.log| && s.log[n].Created? ==> S.HasToken(s.db, s.log[n].parent))
    && (forall i :: 0 <= i < |s.refreshes| ==>
          && s.refreshes[i].since <= |s.log|
          && HasRow(s.db, s.refreshes[i].session.token, s.refreshes[i].session.familyId))
  }

  predicate HasRow(db: seq<S.Session>, token: string, family: string) {
    exists k :: 0 <= k < |db| && db[k].token == token && db[k].familyId == family
  }

  lemma RowIsKnown(db: seq<S.Session>, token: string, family: string)
    requires HasRow(db, token, family)
    ensures S.HasToken(db, token) && S.HasFamily(db, family)
    ensures S.UniqueTokens(db) ==> forall f :: HasRow(db, token, f) ==> f == family
  {}

  ghost predicate ParentsRevoked(s: State) {
    && (forall n, f :: 0 <= n < |s.log| && s.log[n].Created? ==> s.log[n].parent !in LiveTokens(s.db, f))
    && (forall i, f :: 0 <= i < |s.refreshes| && s.refreshes[i].stage == Rotating ==>
      s.refreshes[i].session.token !in LiveTokens(s.db, f))
  }

  /**
   * An undisturbed refresh holds its family: no other session is live, the family is not dead, its token not handed on.
   */
  ghost predicate Holds(s: State, i: nat)
    requires i < |s.refreshes|
  {
    var r := s.refreshes[i];
    && LiveTokens(s.db, r.session.familyId) <= (if r.stage == Reading then {r.session.token} else {})
    && (forall n :: 0 <= n < |s.log| ==> s.log[n] != Killed(r.session.familyId))
    && (forall n :: 0 <= n < |s.log| && s.log[n].Created? ==> s.log[n].parent != r.session.token)
  }

  ghost predicate UndisturbedHold(s: State) { forall i: nat :: Active(s, i) && Undisturbed(s, i) ==> Holds(s, i) }

  /** Two undisturbed refreshes of one family have read the same session. */
  ghost predicate SameToken(s: State) {
    forall i: nat, j: nat :: Rivals(s, i, j) ==> s.refreshes[i].session.token == s.refreshes[j].session.token
  }

  predicate Rivals(s: State, i: nat, j: nat) {
    && Active(s, i) && Active(s, j) && Undisturbed(s, i) && Undisturbed(s, j)
    && s.refreshes[i].session.familyId == s.refreshes[j].session.familyId
  }

  /** Its family was killed since it read, or its token was handed on. */
  ghost predicate Overtaken(s: State, i: nat)
    requires i < |s.refreshes|
  {
    var r := s.refreshes[i];
    exists n :: r.since <= n < |s.log|
      && (s.log[n] == Killed(r.session.familyId) || s.log[n] == Created(r.session.familyId, r.session.token))
  }

  ghost predicate DisturbedOvertaken(s: State) {
    forall i: nat :: Active(s, i) && !Undisturbed(s, i) ==> Overtaken(s, i)
  }

  ghost predicate Inv(s: State) {
    Known(s) && Promise(s) && ParentsRevoked(s) && UndisturbedHold(s) && SameToken(s) && DisturbedOvertaken(s)
  }

  /** The write a step logs, if any. */
  function Logged(s: State, a: Action): seq<Write>
    requires Enabled(s, a)
  {
    match a
    case RevokeFamily(i, _) => [Killed(s.refreshes[i].session.familyId)]
    case Create(i, _, _) => [Created(s.refreshes[i].session.familyId, s.refreshes[i].session.token)]
    case Logout(presented, _) =>
      var session := S.Find(s.db, presented).value;
      if session.revokedAt.None? then [Killed(session.familyId)] else []
    case _ => []
  }

  lemma LogStep(s: State, a: Action)
    requires Enabled(s, a)
    ensures Step(s, a).log == s.log + Logged(s, a)
  {}

  /** Rows are only added and revoked. */
  ghost predicate Grows(db: seq<S.Session>, db': seq<S.Session>) {
    && |db| <= |db'|
    && forall k :: 0 <= k < |db| ==> db'[k].token == db[k].token && db'[k].familyId == db[k].familyId
  }

  lemma RowStays(db: seq<S.Session>, db': seq<S.Session>, token: string, family: string)
    requires Grows(db, db') && HasRow(db, token, family)
    ensures HasRow(db', token, family)
  {
    var k :| 0 <= k < |db| && db[k].token == token && db[k].familyId == family;
    assert db'[k].token == token && db'[k].familyId == family;
  }

  lemma GrowsKeeps(db: seq<S.Session>, db': seq<S.Session>, x: string)
    requires Grows(db, db')
    ensures S.HasToken(db, x) ==> S.HasToken(db', x)
    ensures S.HasFamily(db, x) ==> S.HasFamily(db', x)
  {
    if S.HasToken(db, x) {
      var k :| 0 <= k < |db| && db[k].token == x;
      assert db'[k].token == x;
    }
    if S.HasFamily(db, x) {
      var k :| 0 <= k < |db| && db[k].familyId == x;
      assert db'[k].familyId == x;
    }
  }

  lemma StepGrows(s: State, a: Action)
    ensures Grows(s.db, Step(s, a).db)
  {}

  lemma TokensStayUnique(s: State, a: Action)
    requires S.UniqueTokens(s.db)
    ensures S.UniqueTokens(Step(s, a).db)
  {}

  lemma ReadIsKnown(s: State, presented: string)
    requires S.UniqueTokens(s.db) && S.Find(s.db, presented).Some?
    ensures HasRow(s.db, presented, S.Find(s.db, presented).value.familyId)
  {
    var k :| 0 <= k < |s.db| && s.db[k] == S.Find(s.db, presented).value;
    assert s.db[k].token == presented;
  }

  lemma RefreshesKnown(s: State, a: Action)
    requires Known(s) && Enabled(s, a)
    ensures var t := Step(s, a);
      forall i :: 0 <= i < |t.refreshes| ==>
        t.refreshes[i].since <= |t.log| && HasRow(t.db, t.refreshes[i].session.token, t.refreshes[i].session.familyId)
  {
    var t := Step(s, a);
    StepGrows(s, a);
    if a.Read? { ReadIsKnown(s, a.presented); }
    forall i | 0 <= i < |s.refreshes|
      ensures HasRow(t.db, s.refreshes[i].session.token, s.refreshes[i].session.familyId) {
      RowStays(s.db, t.db, s.refreshes[i].session.token, s.refreshes[i].session.familyId);
    }
  }

  lemma LoggedIsKnown(s: State, a: Action, w: Write)
    requires Known(s) && Enabled(s, a) && w in Logged(s, a)
    ensures S.HasFamily(s.db, w.family) && (w.Created? ==> S.HasToken(s.db, w.parent))
  {
    match a
    case Logout(presented, _) => ReadIsKnown(s, presented);
    case RevokeFamily(i, _) => RowIsKnown(s.db, s.refreshes[i].session.token, s.refreshes[i].session.familyId);
    case Create(i, _, _) => RowIsKnown(s.db, s.refreshes[i].session.token, s.refreshes[i].session.familyId);
    case _ =>
  }

  lemma KnownKept(s: State, a: Action)
    requires Known(s) && Enabled(s, a)
    ensures Known(Step(s, a))
  {
    var t := Step(s, a);
    StepGrows(s, a);
    TokensStayUnique(s, a);
    RefreshesKnown(s, a);
    LogStep(s, a);
    forall n | 0 <= n < |t.log|
      ensures S.HasFamily(t.db, t.log[n].family) && (t.log[n].Created? ==> S.HasToken(t.db, t.log[n].parent)) {
      if n >= |s.log| { LoggedIsKnown(s, a, t.log[n]); }
      GrowsKeeps(s.db, t.db, t.log[n].family);
      if t.log[n].Created? { GrowsKeeps(s.db, t.db, t.log[n].parent); }
    }
  }

  /** No live session has a token that is not in the table. */
  lemma LiveIsKnown(db: seq<S.Session>, f: string, t: string)
    requires t in LiveTokens(db, f)
    ensures S.HasToken(db, t) && S.HasFamily(db, f)
  {
    var k: nat :| k < |db| && IsLive(db, k, f) && db[k].token == t;
  }

  /** What a step adds to the live tokens of a family, and whether it removes any. */
  lemma LiveStep(s: State, a: Action, g: string)
    requires Enabled(s, a)
    ensures var before, after := LiveTokens(s.db, g), LiveTokens(Step(s, a).db, g);
      match a
      case Login(_, f, t, _) => after == before + if g == f then {t} else {}
      case Read(_, _) => after == before
      case RevokeFamily(i, _) => after == if g == s.refreshes[i].session.familyId then {} else before
      case RevokeOwn(i, _) => after == before - {s.refreshes[i].session.token}
      case Create(i, t, _) => after == before + if g == s.refreshes[i].session.familyId then {t} else {}
      case Logout(presented, _) => after == before - {presented}
  {
    match a
    case Login(u, f, t, now) => LiveAfterIssue(s.db, u, f, t, now, g);
    case Read(_, _) =>
    case RevokeFamily(i, now) => LiveAfterFamily(s.db, s.refreshes[i].session.familyId, now, g);
    case RevokeOwn(i, now) => LiveAfterToken(s.db, s.refreshes[i].session.token, now, g);
    case Create(i, t, now) =>
      LiveAfterIssue(s.db, s.refreshes[i].session.userId, s.refreshes[i].session.familyId, t, now, g);
    case Logout(presented, now) => LiveAfterToken(s.db, presented, now, g);
  }

  /** A token that some step makes live is new. */
  lemma ParentsKept(s: State, a: Action)
    requires Known(s) && ParentsRevoked(s) && Enabled(s, a)
    ensures ParentsRevoked(Step(s, a))
  {
    var t := Step(s, a);
    forall f ensures forall x :: x in LiveTokens(t.db, f) ==> x in LiveTokens(s.db, f) || !S.HasToken(s.db, x) {
      LiveStep(s, a, f);
    }
    forall n, f | 0 <= n < |t.log| && t.log[n].Created? ensures t.log[n].parent !in LiveTokens(t.db, f) {
      if n < |s.log| { assert t.log[n] == s.log[n]; }
    }
    forall i, f | 0 <= i < |t.refreshes| && t.refreshes[i].stage == Rotating
      ensures t.refreshes[i].session.token !in LiveTokens(t.db, f) {
      LiveStep(s, a, f);
    }
  }

  /** An old refresh keeps its session; it stays undisturbed unless the step writes to its family. */
  lemma OldRefresh(s: State, a: Action, i: nat)
    requires Enabled(s, a) && i < |s.refreshes| && Known(s)
    ensures var t := Step(s, a);
      && |t.refreshes| >= |s.refreshes|
      && t.refreshes[i].session == s.refreshes[i].session && t.refreshes[i].since == s.refreshes[i].since
      && (Active(t, i) ==> Active(s, i))
      && (Undisturbed(t, i) <==> Undisturbed(s, i) && forall w :: w in Logged(s, a) ==>
        w.family != s.refreshes[i].session.familyId)
  {
    var t := Step(s, a);
    LogStep(s, a);
    if Undisturbed(t, i) {
      forall n | s.refreshes[i].since <= n < |s.log| ensures s.log[n].family != s.refreshes[i].session.familyId {
        assert t.log[n] == s.log[n];
      }
      forall w | w in Logged(s, a) ensures w.family != s.refreshes[i].session.familyId {
        assert t.log[|s.log|] == Logged(s, a)[0];
      }
    }
  }

  lemma FreshFamilyIsEmpty(s: State, f: string)
    requires Known(s) && !S.HasFamily(s.db, f)
    ensures LiveTokens(s.db, f) == {} && forall n :: 0 <= n < |s.log| ==> s.log[n].family != f
  {
    forall t | t in LiveTokens(s.db, f) ensures false { LiveIsKnown(s.db, f, t); }
  }

  lemma OneLiveKept(s: State, a: Action)
    requires Inv(s) && Enabled(s, a) && Orderly(s, a)
    ensures OneLive(Step(s, a))
  {
    forall f, t, u | t in LiveTokens(Step(s, a).db, f) && u in LiveTokens(Step(s, a).db, f) ensures t == u {
      LiveStep(s, a, f);
      if a.Login? { FreshFamilyIsEmpty(s, a.familyId); }
      if a.Create? { assert Active(s, a.i) && Holds(s, a.i); }
    }
  }

  lemma DeadStaysDeadKept(s: State, a: Action)
    requires Inv(s) && Enabled(s, a) && Orderly(s, a)
    ensures DeadStaysDead(Step(s, a))
  {
    var t := Step(s, a);
    LogStep(s, a);
    forall n | 0 <= n < |t.log| && t.log[n].Killed? ensures LiveTokens(t.db, t.log[n].family) == {} {
      var f := t.log[n].family;
      LiveStep(s, a, f);
      if a.Login? { FreshFamilyIsEmpty(s, a.familyId); }
      if a.Create? { assert Active(s, a.i) && Holds(s, a.i); }
      if a.Logout? { LiveIsFound(s.db, a.presented, f); }
    }
  }

  lemma RedeemedOnceKept(s: State, a: Action)
    requires Inv(s) && Enabled(s, a) && Orderly(s, a)
    ensures RedeemedOnce(Step(s, a))
  {
    LogStep(s, a);
    if a.Create? { assert Active(s, a.i) && Holds(s, a.i); }
  }

  /** A session just read live holds its family. */
  lemma ReadHolds(s: State, presented: string, now: int)
    requires Inv(s) && Enabled(s, Read(presented, now)) && S.Find(s.db, presented).value.revokedAt.None?
    ensures Holds(Step(s, Read(presented, now)), |s.refreshes|)
  {
    var session := S.Find(s.db, presented).value;
    LiveIsFound(s.db, presented, session.familyId);
  }

  lemma HoldsKept(s: State, a: Action, i: nat)
    requires Inv(s) && Enabled(s, a) && Orderly(s, a)
    requires Active(Step(s, a), i) && Undisturbed(Step(s, a), i)
    ensures Holds(Step(s, a), i)
  {
    var t := Step(s, a);
    if i < |s.refreshes| {
      OldRefresh(s, a, i);
      LogStep(s, a);
      assert Holds(s, i);
      LiveStep(s, a, s.refreshes[i].session.familyId);
      RowIsKnown(s.db, s.refreshes[i].session.token, s.refreshes[i].session.familyId);
    } else {
      ReadHolds(s, a.presented, a.now);
    }
  }

  lemma SameTokenKept(s: State, a: Action)
    requires Inv(s) && Enabled(s, a) && Orderly(s, a)
    ensures SameToken(Step(s, a))
  {
    var t := Step(s, a);
    forall i: nat, j: nat | Rivals(t, i, j) ensures t.refreshes[i].session.token == t.refreshes[j].session.token {
      if i < |s.refreshes| { OldRefresh(s, a, i); }
      if j < |s.refreshes| { OldRefresh(s, a, j); }
      if i < |s.refreshes| && j < |s.refreshes| {
        assert Rivals(s, i, j);
      } else if i < |s.refreshes| {
        ReadMeets(s, a, i);
      } else if j < |s.refreshes| {
        ReadMeets(s, a, j);
      }
    }
  }

  /** A live session that is read while an undisturbed refresh holds its family is the one that refresh read. */
  lemma ReadMeets(s: State, a: Action, i: nat)
    requires Inv(s) && Enabled(s, a) && a.Read? && Active(s, i) && Undisturbed(s, i)
    requires S.Find(s.db, a.presented).value.revokedAt.None?
    requires S.Find(s.db, a.presented).value.familyId == s.refreshes[i].session.familyId
    ensures S.Find(s.db, a.presented).value.token == s.refreshes[i].session.token
  {
    LiveIsFound(s.db, a.presented, s.refreshes[i].session.familyId);
    assert Holds(s, i);
  }

  lemma OvertakenStays(s: State, a: Action, i: nat)
    requires Enabled(s, a) && Known(s) && i < |s.refreshes| && Overtaken(s, i)
    ensures Overtaken(Step(s, a), i)
  {
    var t, r := Step(s, a), s.refreshes[i];
    LogStep(s, a);
    OldRefresh(s, a, i);
    var n :| r.since <= n < |s.log|
      && (s.log[n] == Killed(r.session.familyId) || s.log[n] == Created(r.session.familyId, r.session.token));
    assert t.log[n] == s.log[n];
  }

  /** The first write to disturb a refresh kills its family or hands its token on. */
  lemma OvertakenNow(s: State, a: Action, i: nat)
    requires Inv(s) && Enabled(s, a) && Orderly(s, a) && i < |s.refreshes|
    requires Active(Step(s, a), i) && Undisturbed(s, i) && !Undisturbed(Step(s, a), i)
    ensures Overtaken(Step(s, a), i)
  {
    var t, r := Step(s, a), s.refreshes[i];
    LogStep(s, a);
    OldRefresh(s, a, i);
    var w :| w in Logged(s, a) && w.family == r.session.familyId;
    assert t.log[|s.log|] == w;
    if a.Create? { assert Rivals(s, i, a.i); }
  }

  lemma OvertakenKept(s: State, a: Action, i: nat)
    requires Inv(s) && Enabled(s, a) && Orderly(s, a)
    requires Active(Step(s, a), i) && !Undisturbed(Step(s, a), i)
    ensures Overtaken(Step(s, a), i)
  {
    var t := Step(s, a);
    if i < |s.refreshes| {
      OldRefresh(s, a, i);
      if Undisturbed(s, i) { OvertakenNow(s, a, i); } else { OvertakenStays(s, a, i); }
    }
  }

  lemma OrderlyKept(s: State, a: Action)
    requires Inv(s) && Enabled(s, a) && Orderly(s, a)
    ensures Inv(Step(s, a))
  {
    hide Step, OneLive, DeadStaysDead, RedeemedOnce, Known, ParentsRevoked, Holds, SameToken, Overtaken;
    KnownKept(s, a);
    OneLiveKept(s, a);
    DeadStaysDeadKept(s, a);
    RedeemedOnceKept(s, a);
    ParentsKept(s, a);
    SameTokenKept(s, a);
    var t := Step(s, a);
    forall i: nat | Active(t, i) && Undisturbed(t, i) ensures Holds(t, i) { HoldsKept(s, a, i); }
    forall i: nat | Active(t, i) && !Undisturbed(t, i) ensures Overtaken(t, i) { OvertakenKept(s, a, i); }
  }

  /** A create that comes too late hands a token on twice or puts a live session into a dead family. */
  lemma LateCreateBreaks(s: State, a: Action)
    requires Inv(s) && Enabled(s, a) && !Orderly(s, a)
    ensures !Promise(Step(s, a))
  {
    var t, r := Step(s, a), s.refreshes[a.i];
    LogStep(s, a);
    assert Active(s, a.i) && Overtaken(s, a.i);
    var n :| r.since <= n < |s.log|
      && (s.log[n] == Killed(r.session.familyId) || s.log[n] == Created(r.session.familyId, r.session.token));
    assert t.log[n] == s.log[n];
    if s.log[n].Killed? {
      LiveStep(s, a, r.session.familyId);
      assert a.token in LiveTokens(t.db, t.log[n].family);
    } else {
      assert t.log[|s.log|] == Created(r.session.familyId, r.session.token);
    }
  }

  lemma EmptyIsFine()
    ensures Inv(EMPTY)
  {
    assert forall f :: LiveTokens([], f) == {};
  }

  lemma {:induction false} OrderlyRunsAreFine(actions: seq<Action>)
    requires OrderlyRun(actions)
    ensures Inv(Run(EMPTY, actions)) && KeptThroughout(actions)
  {
    if actions == [] {
      EmptyIsFine();
    } else {
      var before, a := Run(EMPTY, actions[..|actions| - 1]), actions[|actions| - 1];
      OrderlyRunsAreFine(actions[..|actions| - 1]);
      if Enabled(before, a) { OrderlyKept(before, a); }
    }
  }

  lemma {:induction false} DisorderBreaks(actions: seq<Action>)
    requires !OrderlyRun(actions)
    ensures !KeptThroughout(actions)
  {
    var init, a := actions[..|actions| - 1], actions[|actions| - 1];
    if OrderlyRun(init) {
      OrderlyRunsAreFine(init);
      LateCreateBreaks(Run(EMPTY, init), a);
    } else {
      DisorderBreaks(init);
    }
  }

  /**
   * Over every interleaving: each family keeps at most one live session, a dead family stays dead and no token is
   * handed on twice, at every point of the run, if and only if no refresh creates its session after another write to
   * the family (another refresh's create, or a revocation) came after its read.
   */
  lemma RotationHoldsIffOrderly(actions: seq<Action>)
    ensures KeptThroughout(actions) <==> OrderlyRun(actions)
  {
    if OrderlyRun(actions) { OrderlyRunsAreFine(actions); } else { DisorderBreaks(actions); }
  }

  // ----- the two ways to lose the promise -----

  lemma RunNext(actions: seq<Action>, a: Action)
    ensures Run(EMPTY, actions + [a]) == Step(Run(EMPTY, actions), a)
  {
    assert (actions + [a])[..|actions|] == actions;
  }

  function First(u: string, f: string, t0: string, now: int): S.Session {
    S.Session(u, f, t0, now + S.REFRESH_TTL_MS, None)
  }

  lemma ReadsTheFirst(u: string, f: string, t0: string, now: int)
    ensures Step(EMPTY, Login(u, f, t0, now)) == State([First(u, f, t0, now)], [], [])
    ensures Step(State([First(u, f, t0, now)], [], []), Read(t0, now))
      == State([First(u, f, t0, now)], [Refresh(First(u, f, t0, now), Reading, 0)], [])
  {}

  /** A login, and a refresh that has read the new session. */
  lemma {:induction false} LoginAndRead(u: string, f: string, t0: string, now: int)
    ensures Run(EMPTY, [Login(u, f, t0, now)] + [Read(t0, now)])
      == State([First(u, f, t0, now)], [Refresh(First(u, f, t0, now), Reading, 0)], [])
  {
    hide Step, First;
    ReadsTheFirst(u, f, t0, now);
    RunNext([], Login(u, f, t0, now));
    assert [] + [Login(u, f, t0, now)] == [Login(u, f, t0, now)];
    RunNext([Login(u, f, t0, now)], Read(t0, now));
  }

  lemma RevokesOwn(first: S.Session, rest: seq<S.Session>, now: int)
    requires first.revokedAt.None? && forall k :: 0 <= k < |rest| ==> rest[k].token != first.token
    ensures S.RevokeToken([first] + rest, first.token, now) == [first.(revokedAt := Some(now))] + rest
    ensures S.RevokeToken([first.(revokedAt := Some(now))] + rest, first.token, now)
      == [first.(revokedAt := Some(now))] + rest
  {}

  /** Two refreshes of one token that both read before either writes: the run ends with two live sessions. */
  lemma InterleavedRefreshesForkTheFamily(u: string, f: string, t0: string, t1: string, t2: string, now: int)
    requires t0 != t1 && t0 != t2 && t1 != t2
    ensures var actions :=
      [Login(u, f, t0, now)] + [Read(t0, now)] + [Read(t0, now)] + [RevokeOwn(0, now)] + [Create(0, t1, now)]
                           + [RevokeOwn(1, now)] + [Create(1, t2, now)];
      && t1 in LiveTokens(Run(EMPTY, actions).db, f) && t2 in LiveTokens(Run(EMPTY, actions).db, f)
      && !KeptThroughout(actions)
  {
    var first, second := First(u, f, t0, now), First(u, f, t1, now);
    var revoked := first.(revokedAt := Some(now));
    var a2 := [Login(u, f, t0, now)] + [Read(t0, now)];
    LoginAndRead(u, f, t0, now);
    RunNext(a2, Read(t0, now));
    assert Run(EMPTY, a2 + [Read(t0, now)])
      == State([first], [Refresh(first, Reading, 0), Refresh(first, Reading, 0)], []);
    var a4 := a2 + [Read(t0, now)] + [RevokeOwn(0, now)];
    RunNext(a2 + [Read(t0, now)], RevokeOwn(0, now));
    RevokesOwn(first, [], now);
    assert Run(EMPTY, a4) == State([revoked], [Refresh(first, Rotating, 0), Refresh(first, Reading, 0)], []);
    var a5 := a4 + [Create(0, t1, now)];
    RunNext(a4, Create(0, t1, now));
    assert Run(EMPTY, a5)
      == State([revoked, second], [Refresh(first, Over, 0), Refresh(first, Reading, 0)], [Created(f, t0)]);
    var a6 := a5 + [RevokeOwn(1, now)];
    RunNext(a5, RevokeOwn(1, now));
    RevokesOwn(first, [second], now);
    assert Run(EMPTY, a6)
      == State([revoked, second], [Refresh(first, Over, 0), Refresh(first, Rotating, 0)], [Created(f, t0)]);
    RunNext(a6, Create(1, t2, now));
    var db := Run(EMPTY, a6 + [Create(1, t2, now)]).db;
    assert db == [revoked, second, First(u, f, t2, now)];
    assert IsLive(db, 1, f) && IsLive(db, 2, f);
  }

  lemma ReadThenLogout(u: string, f: string, t0: string, now: int)
    ensures Run(EMPTY, [Login(u, f, t0, now)] + [Read(t0, now)] + [Logout(t0, now)])
      == State([First(u, f, t0, now).(revokedAt := Some(now))], [Refresh(First(u, f, t0, now), Reading, 0)],
               [Killed(f)])
  {
    LoginAndRead(u, f, t0, now);
    RunNext([Login(u, f, t0, now)] + [Read(t0, now)], Logout(t0, now));
    RevokesOwn(First(u, f, t0, now), [], now);
  }

  /** The refresh goes on: its revocation finds nothing left to do, and its create succeeds. */
  lemma RotatesAllTheSame(first: S.Session, t1: string, now: int)
    requires first.revokedAt.None? && first.token != t1
    ensures var revoked, log := first.(revokedAt := Some(now)), [Killed(first.familyId)];
      Step(Step(State([revoked], [Refresh(first, Reading, 0)], log), RevokeOwn(0, now)), Create(0, t1, now))
      == State([revoked, First(first.userId, first.familyId, t1, now)], [Refresh(first, Over, 0)],
               log + [Created(first.familyId, first.token)])
  {
    var revoked, log := first.(revokedAt := Some(now)), [Killed(first.familyId)];
    RevokesOwn(first, [], now);
    assert [revoked] + [] == [revoked];
    assert Step(State([revoked], [Refresh(first, Reading, 0)], log), RevokeOwn(0, now))
      == State([revoked], [Refresh(first, Rotating, 0)], log);
  }

  lemma LiveThoughKilled(actions: seq<Action>, k: nat, n: nat, f: string)
    requires var s := Run(EMPTY, actions);
      IsLive(s.db, k, f) && n < |s.log| && s.log[n] == Killed(f)
    ensures Run(EMPTY, actions).db[k].token in LiveTokens(Run(EMPTY, actions).db, f) && !KeptThroughout(actions)
  {
    hide Run, OneLive, RedeemedOnce;
  }

  /** A refresh that rotates while its family is killed, here by a logout, brings the family back to life. */
  lemma InterleavedRevokeIsUndone(u: string, f: string, t0: string, t1: string, now: int)
    requires t0 != t1
    ensures var actions :=
      [Login(u, f, t0, now)] + [Read(t0, now)] + [Logout(t0, now)] + [RevokeOwn(0, now)] + [Create(0, t1, now)];
      && Killed(f) in Run(EMPTY, actions).log && t1 in LiveTokens(Run(EMPTY, actions).db, f)
      && !KeptThroughout(actions)
  {
    hide Step, Run, KeptThroughout, LiveTokens;
    var a3 := [Login(u, f, t0, now)] + [Read(t0, now)] + [Logout(t0, now)];
    ReadThenLogout(u, f, t0, now);
    RunNext(a3, RevokeOwn(0, now));
    RunNext(a3 + [RevokeOwn(0, now)], Create(0, t1, now));
    RotatesAllTheSame(First(u, f, t0, now), t1, now);
    var actions := a3 + [RevokeOwn(0, now)] + [Create(0, t1, now)];
    var t := Run(EMPTY, actions);
    assert t.log[0] == Killed(f) && t.db[1] == First(u, f, t1, now);
    LiveThoughKilled(actions, 1, 0, f);
  }

  // ----- the object -----

  /** The handlers over one table, cut at their awaits. */
  class Handlers {
    var db: seq<S.Session>
    ghost var refreshes: seq<Refresh>
    ghost var log: seq<Write>

    ghost function Abs(): State
      reads this
    {
      State(db, refreshes, log)
    }

    constructor ()
      ensures Abs() == EMPTY
    {
      db, refreshes, log := [], [], [];
    }

    /** The first statement of /auth/refresh, and the checks on what it returns. */
    method OnRead(presented: string, now: int) returns (found: Option<S.Session>)
      modifies this
      ensures Abs() == Step(old(Abs()), Read(presented, now))
      ensures found == if old(Enabled(Abs(), Read(presented, now))) then S.Find(db, presented) else None
    {
      found := S.Find(db, presented);
      if found.None? || found.value.expiresAt < now { return None; }
      refreshes := refreshes + [Refresh(found.value, if found.value.revokedAt.Some? then Reusing else Reading, |log|)];
    }

    /** Reuse was detected: revoke the family. */
    method OnReuse(session: S.Session, now: int, ghost i: nat)
      requires i < |refreshes| && refreshes[i].session == session && refreshes[i].stage == Reusing
      modifies this
      ensures Abs() == Step(old(Abs()), RevokeFamily(i, now))
    {
      db := S.RevokeFamily(db, session.familyId, now);
      log := log + [Killed(session.familyId)];
      refreshes := refreshes[i := refreshes[i].(stage := Over)];
    }

    /** The session read is revoked. */
    method OnRevoke(session: S.Session, now: int, ghost i: nat)
      requires i < |refreshes| && refreshes[i].session == session && refreshes[i].stage == Reading
      modifies this
      ensures Abs() == Step(old(Abs()), RevokeOwn(i, now))
    {
      db := S.RevokeToken(db, session.token, now);
      refreshes := refreshes[i := refreshes[i].(stage := Rotating)];
    }

    /** issueSession at the end of a refresh. */
    method OnCreate(session: S.Session, token: string, now: int, ghost i: nat)
      requires i < |refreshes| && refreshes[i].session == session && refreshes[i].stage == Rotating
      requires !S.HasToken(db, token)
      modifies this
      ensures Abs() == Step(old(Abs()), Create(i, token, now))
    {
      db := db + [S.Session(session.userId, session.familyId, token, now + S.REFRESH_TTL_MS, None)];
      log := log + [Created(session.familyId, session.token)];
      refreshes := refreshes[i := refreshes[i].(stage := Over)];
    }
  }
}
