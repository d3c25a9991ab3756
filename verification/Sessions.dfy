/**
 * Refresh-token families (apps/api/src/modules/auth.ts): login opens a family, refresh rotates its token,
 * and presenting a rotated token again revokes the family (section 4.14.2 of RFC 9700).
 */
module Sessions {
  import opened Wrappers

  const REFRESH_TTL_MS: int := 30 * 24 * 60 * 60 * 1000

  /** A session row. The token stands for its SHA-256 hash, which is taken to be injective. */
  datatype Session = Session(userId: string, familyId: string, token: string, expiresAt: int, revokedAt: Option<int>)

  datatype Outcome = Issued(token: string) | Denied

  predicate HasToken(db: seq<Session>, token: string) { exists i :: 0 <= i < |db| && db[i].token == token }

  predicate HasFamily(db: seq<Session>, familyId: string) { exists i :: 0 <= i < |db| && db[i].familyId == familyId }

  // ----- the statements the handlers issue -----

  /** findUnique by token hash. */
  function Find(db: seq<Session>, token: string): (r: Option<Session>)
    ensures r.Some? ==> r.value in db && r.value.token == token
    ensures r.None? ==> !HasToken(db, token)
  {
    if db == [] then None else if db[0].token == token then Some(db[0]) else Find(db[1..], token)
  }

  /** updateMany where familyId matches and revokedAt is null. */
  function RevokeFamily(db: seq<Session>, familyId: string, now: int): (r: seq<Session>)
    ensures |r| == |db|
  {
    seq(|db|, i requires 0 <= i < |db| =>
      if db[i].familyId == familyId && db[i].revokedAt.None? then db[i].(revokedAt := Some(now)) else db[i])
  }

  /** update / updateMany of the row with this token, revoked or not. */
  function RevokeToken(db: seq<Session>, token: string, now: int): (r: seq<Session>)
    ensures |r| == |db|
  {
    seq(|db|, i requires 0 <= i < |db| => if db[i].token == token then db[i].(revokedAt := Some(now)) else db[i])
  }

  /** issueSession */
  function Issue(db: seq<Session>, userId: string, familyId: string, token: string, now: int): seq<Session> {
    db + [Session(userId, familyId, token, now + REFRESH_TTL_MS, None)]
  }

  // ----- the handlers, each one atomic step; RefreshSteps.dfy cuts them at their awaits -----

  datatype Action =
    | Login(userId: string, familyId: string, token: string, now: int)
    | Refresh(presented: Option<string>, token: string, now: int)
    | Logout(presented: Option<string>, now: int)

  /** Minted tokens and family ids are new. */
  predicate Enabled(db: seq<Session>, a: Action) {
    match a
    case Login(_, f, t, _) => !HasToken(db, t) && !HasFamily(db, f)
    case Refresh(_, t, _) => !HasToken(db, t)
    case Logout(_, _) => true
  }

  function Handle(db: seq<Session>, a: Action): (seq<Session>, Outcome) {
    match a
    case Login(u, f, t, now) => (Issue(db, u, f, t, now), Issued(t))
    case Refresh(None, _, _) => (db, Denied)
    case Refresh(Some(presented), t, now) =>
      (match Find(db, presented)
       case None => (db, Denied)
       case Some(s) =>
         if s.expiresAt < now then (db, Denied)
         else if s.revokedAt.Some? then (RevokeFamily(db, s.familyId, now), Denied)
         else (Issue(RevokeToken(db, presented, now), s.userId, s.familyId, t, now), Issued(t)))
    case Logout(None, _) => (db, Denied)
    case Logout(Some(presented), now) => (RevokeToken(db, presented, now), Denied)
  }

  function Step(db: seq<Session>, a: Action): seq<Session> { if Enabled(db, a) then Handle(db, a).0 else db }

  function RunFrom(db: seq<Session>, actions: seq<Action>): seq<Session>
    decreases |actions|
  {
    if actions == [] then db else RunFrom(Step(db, actions[0]), actions[1..])
  }

  /** The handlers over one session table. */
  class AuthModule {
    var db: seq<Session>

    constructor ()
      ensures db == []
    {
      db := [];
    }

    method OnLogin(userId: string, familyId: string, token: string, now: int)
      modifies this
      ensures db == Handle(old(db), Login(userId, familyId, token, now)).0
    {
      db := db + [Session(userId, familyId, token, now + REFRESH_TTL_MS, None)];
    }

    method OnRefresh(presented: Option<string>, token: string, now: int) returns (r: Outcome)
      modifies this
      ensures (db, r) == Handle(old(db), Refresh(presented, token, now))
    {
      if presented.None? { return Denied; }
      var session := Find(db, presented.value);
      if session.None? || session.value.expiresAt < now { return Denied; }
      if session.value.revokedAt.Some? {
        db := RevokeFamily(db, session.value.familyId, now);
        return Denied;
      }
      db := RevokeToken(db, presented.value, now);
      db := db + [Session(session.value.userId, session.value.familyId, token, now + REFRESH_TTL_MS, None)];
      return Issued(token);
    }

    method OnLogout(presented: Option<string>, now: int)
      modifies this
      ensures db == Handle(old(db), Logout(presented, now)).0
    {
      if presented.Some? { db := RevokeToken(db, presented.value, now); }
    }
  }

  // ----- families over whole runs -----

  /** Unrevoked sessions of a family. */
  function LiveIn(db: seq<Session>, familyId: string): nat {
    if db == [] then 0
    else
      var last := db[|db| - 1];
      LiveIn(db[..|db| - 1], familyId) + if last.familyId == familyId && last.revokedAt.None? then 1 else 0
  }

  ghost predicate UniqueTokens(db: seq<Session>) {
    forall i, j :: 0 <= i < j < |db| ==> db[i].token != db[j].token
  }

  lemma {:induction false} LiveAfterRevokeFamily(db: seq<Session>, familyId: string, now: int, f: string)
    ensures LiveIn(RevokeFamily(db, familyId, now), f) == if f == familyId then 0 else LiveIn(db, f)
  {
    if db != [] {
      var r := RevokeFamily(db, familyId, now);
      assert r[..|r| - 1] == RevokeFamily(db[..|db| - 1], familyId, now);
      LiveAfterRevokeFamily(db[..|db| - 1], familyId, now, f);
    }
  }

  lemma {:induction false} RevokeAbsentToken(db: seq<Session>, token: string, now: int)
    requires !HasToken(db, token)
    ensures RevokeToken(db, token, now) == db
  {}

  /** Revoking a token removes its session from the live ones of its family and touches no other family. */
  lemma {:induction false} LiveAfterRevokeToken(db: seq<Session>, token: string, now: int, f: string)
    requires UniqueTokens(db)
    ensures LiveIn(RevokeToken(db, token, now), f) ==
      var s := Find(db, token);
      LiveIn(db, f) - if s.Some? && s.value.familyId == f && s.value.revokedAt.None? then 1 else 0
  {
    if db != [] {
      var init, last := db[..|db| - 1], db[|db| - 1];
      var r := RevokeToken(db, token, now);
      assert r[..|r| - 1] == RevokeToken(init, token, now);
      FindInInit(db, token);
      if last.token == token {
        assert !HasToken(init, token);
        RevokeAbsentToken(init, token, now);
      } else {
        LiveAfterRevokeToken(init, token, now, f);
      }
    }
  }

  lemma {:induction false} FindInInit(db: seq<Session>, token: string)
    requires db != []
    ensures var init, last := db[..|db| - 1], db[|db| - 1];
      && (HasToken(init, token) ==> Find(db, token) == Find(init, token))
      && (!HasToken(init, token) ==> Find(db, token) == if last.token == token then Some(last) else None)
  {
    var init := db[..|db| - 1];
    if |db| > 1 && db[0].token != token {
      assert init[1..] == db[1..][..|db[1..]| - 1];
      assert HasToken(init, token) <==> HasToken(init[1..], token) by {
        assert forall i :: 1 <= i < |init| ==> init[i] == init[1..][i - 1];
      }
      FindInInit(db[1..], token);
    } else if |db| > 1 {
      assert init[0].token == token;
    }
  }

  lemma LiveAfterIssue(db: seq<Session>, userId: string, familyId: string, token: string, now: int, f: string)
    ensures LiveIn(Issue(db, userId, familyId, token, now), f) == LiveIn(db, f) + if f == familyId then 1 else 0
  {
    assert Issue(db, userId, familyId, token, now)[..|db|] == db;
  }

  lemma {:induction false} NoFamilyNoneLive(db: seq<Session>, f: string)
    requires !HasFamily(db, f)
    ensures LiveIn(db, f) == 0
  {
    if db != [] { NoFamilyNoneLive(db[..|db| - 1], f); }
  }

  lemma {:induction false} LiveSessionCounts(db: seq<Session>, s: Session)
    requires s in db && s.revokedAt.None?
    ensures LiveIn(db, s.familyId) >= 1
  {
    if db[|db| - 1] != s {
      assert s in db[..|db| - 1];
      LiveSessionCounts(db[..|db| - 1], s);
    }
  }

  lemma StepKeepsTokensUnique(db: seq<Session>, a: Action)
    requires UniqueTokens(db)
    ensures UniqueTokens(Step(db, a))
  {}

  lemma StepKeepsFamilies(db: seq<Session>, a: Action, f: string)
    requires HasFamily(db, f)
    ensures HasFamily(Step(db, a), f)
  {
    var i :| 0 <= i < |db| && db[i].familyId == f;
    assert Step(db, a)[i].familyId == f;
  }

  /** One step leaves a family with at most one live session, and never revives a dead one. */
  lemma StepOnFamily(db: seq<Session>, a: Action, f: string)
    requires UniqueTokens(db) && LiveIn(db, f) <= 1
    ensures LiveIn(Step(db, a), f) <= 1
    ensures HasFamily(db, f) && LiveIn(db, f) == 0 ==> LiveIn(Step(db, a), f) == 0
  {
    if Enabled(db, a) {
      match a
      case Login(u, g, t, now) =>
        LiveAfterIssue(db, u, g, t, now, f);
        if !HasFamily(db, f) { NoFamilyNoneLive(db, f); }
      case Refresh(Some(presented), t, now) =>
        var found := Find(db, presented);
        if found.Some? && found.value.expiresAt >= now {
          var s := found.value;
          if s.revokedAt.Some? {
            LiveAfterRevokeFamily(db, s.familyId, now, f);
          } else {
            LiveSessionCounts(db, s);
            LiveAfterRevokeToken(db, presented, now, f);
            LiveAfterIssue(RevokeToken(db, presented, now), s.userId, s.familyId, t, now, f);
          }
        }
      case Refresh(None, _, _) =>
      case Logout(Some(presented), now) => LiveAfterRevokeToken(db, presented, now, f);
      case Logout(None, _) =>
    }
  }

  /** In every reachable state each family has at most one unrevoked session, and a dead family stays dead. */
  lemma {:induction false} FamiliesOverRuns(db: seq<Session>, actions: seq<Action>, f: string)
    requires UniqueTokens(db) && LiveIn(db, f) <= 1
    ensures UniqueTokens(RunFrom(db, actions)) && LiveIn(RunFrom(db, actions), f) <= 1
    ensures HasFamily(db, f) && LiveIn(db, f) == 0 ==> LiveIn(RunFrom(db, actions), f) == 0
    decreases |actions|
  {
    if actions != [] {
      StepKeepsTokensUnique(db, actions[0]);
      StepOnFamily(db, actions[0], f);
      if HasFamily(db, f) { StepKeepsFamilies(db, actions[0], f); }
      FamiliesOverRuns(Step(db, actions[0]), actions[1..], f);
    }
  }

  lemma AtMostOneLive(actions: seq<Action>, f: string)
    ensures LiveIn(RunFrom([], actions), f) <= 1
  {
    FamiliesOverRuns([], actions, f);
  }

  lemma ReachableDb(actions: seq<Action>)
    ensures UniqueTokens(RunFrom([], actions))
  {
    FamiliesOverRuns([], actions, "");
  }

  // ----- what a refresh answers -----

  /** Row i is the session of the presented token. */
  predicate IsRow(db: seq<Session>, i: nat, presented: string) { i < |db| && db[i].token == presented }

  lemma FindsRow(db: seq<Session>, i: nat, presented: string)
    requires UniqueTokens(db) && IsRow(db, i, presented)
    ensures Find(db, presented) == Some(db[i])
  {
    assert HasToken(db, presented) && Find(db, presented).Some?;
    var j :| 0 <= j < |db| && db[j] == Find(db, presented).value;
    assert db[i].token == db[j].token;
  }

  /**
   * For every table with unique tokens: a refresh is answered with a session if and only if the presented token's row
   * exists, is not revoked and has not expired; it is then revoked and followed by one new row of its user and family.
   * A token without a row, or one that has expired, changes nothing. Reuse of a revoked one revokes, of its family,
   * exactly what was not.
   */
  lemma RefreshAnswers(db: seq<Session>, presented: string, token: string, now: int)
    requires UniqueTokens(db)
    ensures var (db', r) := Handle(db, Refresh(Some(presented), token, now));
      && (r.Issued? <==> exists i: nat :: IsRow(db, i, presented) && db[i].revokedAt.None? && db[i].expiresAt >= now)
      && (r.Issued? ==> r.token == token)
      && ((forall i: nat :: IsRow(db, i, presented) ==> db[i].expiresAt < now) ==> r == Denied && db' == db)
      && forall i: nat :: IsRow(db, i, presented) && db[i].expiresAt >= now ==>
           && (db[i].revokedAt.None? ==>
                 && |db'| == |db| + 1
                 && db'[|db|] == Session(db[i].userId, db[i].familyId, token, now + 30 * 86_400_000, None)
                 && forall j :: 0 <= j < |db| ==> db'[j] == if j == i then db[j].(revokedAt := Some(now)) else db[j])
           && (db[i].revokedAt.Some? ==>
                 && r == Denied && |db'| == |db|
                 && forall j :: 0 <= j < |db| ==>
                      db'[j] == if db[j].familyId == db[i].familyId && db[j].revokedAt.None?
                                then db[j].(revokedAt := Some(now)) else db[j])
  {
    forall i: nat | IsRow(db, i, presented) ensures Find(db, presented) == Some(db[i]) { FindsRow(db, i, presented); }
    if Find(db, presented).Some? {
      var i :| 0 <= i < |db| && db[i] == Find(db, presented).value;
      assert IsRow(db, i, presented);
    }
  }

  /** Without a token nothing happens. */
  lemma NoTokenNoAnswer(db: seq<Session>, token: string, now: int)
    ensures Handle(db, Refresh(None, token, now)) == (db, Denied) && Handle(db, Logout(None, now)) == (db, Denied)
  {}

  /** Over every run: no refresh is answered with a session on a token that has no row, is revoked or has expired. */
  lemma NoSessionForAnExpiredToken(before: seq<Action>, presented: string, token: string, now: int)
    ensures var db := RunFrom([], before);
      Handle(db, Refresh(Some(presented), token, now)).1.Issued? <==>
        exists i: nat :: IsRow(db, i, presented) && db[i].revokedAt.None? && db[i].expiresAt >= now
  {
    ReachableDb(before);
    RefreshAnswers(RunFrom([], before), presented, token, now);
  }

  /** A login adds one live session, of a family of its own, that lives 30 days; no other row changes. */
  lemma LoginAdds(db: seq<Session>, u: string, f: string, t: string, now: int)
    requires !HasFamily(db, f)
    ensures var (db', r) := Handle(db, Login(u, f, t, now));
      && r == Issued(t) && LiveIn(db', f) == 1
      && |db'| == |db| + 1 && db'[..|db|] == db
      && db'[|db|] == Session(u, f, t, now + 30 * 86_400_000, None)
  {
    NoFamilyNoneLive(db, f);
    LiveAfterIssue(db, u, f, t, now, f);
  }

  /** A logout of a family's live session ends the family for good; it touches the presented token's row alone. */
  lemma LogoutEndsTheFamily(before: seq<Action>, i: nat, now: int, later: seq<Action>)
    requires var db := RunFrom([], before); i < |db| && db[i].revokedAt.None?
    ensures var db := RunFrom([], before);
      var db' := Step(db, Logout(Some(db[i].token), now));
      && db' == db[i := db[i].(revokedAt := Some(now))]
      && LiveIn(RunFrom(db', later), db[i].familyId) == 0
  {
    hide RunFrom, LiveIn;
    var db := RunFrom([], before);
    var a, f := Logout(Some(db[i].token), now), db[i].familyId;
    ReachableDb(before);
    AtMostOneLive(before, f);
    FindsRow(db, i, db[i].token);
    LiveSessionCounts(db, db[i]);
    LiveAfterRevokeToken(db, db[i].token, now, f);
    StepKeepsTokensUnique(db, a);
    assert HasFamily(db, f);
    StepKeepsFamilies(db, a, f);
    FamiliesOverRuns(Step(db, a), later, f);
  }

  /** Presenting a revoked, unexpired token ends its family for good, whatever happens afterwards. */
  lemma ReuseEndsTheFamily(before: seq<Action>, presented: string, token: string, now: int, later: seq<Action>)
    requires var db := RunFrom([], before);
      && !HasToken(db, token)
      && Find(db, presented).Some? && Find(db, presented).value.revokedAt.Some?
        && Find(db, presented).value.expiresAt >= now
    ensures var db := RunFrom([], before);
      var db' := Step(db, Refresh(Some(presented), token, now));
      && Handle(db, Refresh(Some(presented), token, now)).1 == Denied
      && LiveIn(RunFrom(db', later), Find(db, presented).value.familyId) == 0
  {
    var db := RunFrom([], before);
    var a := Refresh(Some(presented), token, now);
    var f := Find(db, presented).value.familyId;
    FamiliesOverRuns([], before, f);
    LiveAfterRevokeFamily(db, f, now, f);
    StepKeepsTokensUnique(db, a);
    var i :| 0 <= i < |db| && db[i] == Find(db, presented).value;
    assert HasFamily(db, f);
    StepKeepsFamilies(db, a, f);
    FamiliesOverRuns(Step(db, a), later, f);
  }

  /** A successful refresh hands the family over: the presented token is dead, the new one is its only live session. */
  lemma RefreshRotates(before: seq<Action>, presented: string, token: string, now: int)
    requires var db := RunFrom([], before);
      !HasToken(db, token) && Handle(db, Refresh(Some(presented), token, now)).1.Issued?
    ensures var db := RunFrom([], before);
      var db' := Step(db, Refresh(Some(presented), token, now));
      var f := Find(db, presented).value.familyId;
      && LiveIn(db', f) == 1
      && Find(db', token) == Some(Session(Find(db, presented).value.userId, f, token, now + REFRESH_TTL_MS, None))
      && Find(db', presented).Some? && Find(db', presented).value.revokedAt == Some(now)
  {
    hide RunFrom, LiveIn, HasToken;
    ReachableDb(before);
    var db := RunFrom([], before);
    var s := Find(db, presented).value;
    var revoked := RevokeToken(db, presented, now);
    AtMostOneLive(before, s.familyId);
    LiveSessionCounts(db, s);
    StepOnFamily(db, Refresh(Some(presented), token, now), s.familyId);
    LiveAfterRevokeToken(db, presented, now, s.familyId);
    LiveAfterIssue(revoked, s.userId, s.familyId, token, now, s.familyId);
    TokensAfterRotation(db, presented, token, now);
  }

  lemma TokensAfterRotation(db: seq<Session>, presented: string, token: string, now: int)
    requires !HasToken(db, token) && Find(db, presented).Some?
    ensures var s := Find(db, presented).value;
      var db' := Issue(RevokeToken(db, presented, now), s.userId, s.familyId, token, now);
      && Find(db', token) == Some(Session(s.userId, s.familyId, token, now + REFRESH_TTL_MS, None))
      && Find(db', presented) == Some(s.(revokedAt := Some(now)))
  {
    var s, revoked := Find(db, presented).value, RevokeToken(db, presented, now);
    var db' := Issue(revoked, s.userId, s.familyId, token, now);
    assert db'[..|revoked|] == revoked;
    FindInInit(db', token);
    FindInInit(db', presented);
    assert !HasToken(revoked, token) by {
      assert forall i :: 0 <= i < |db| ==> revoked[i].token == db[i].token;
    }
    FindRevoked(db, presented, now);
  }

  lemma {:induction false} FindRevoked(db: seq<Session>, token: string, now: int)
    requires Find(db, token).Some?
    ensures HasToken(RevokeToken(db, token, now), token)
    ensures Find(RevokeToken(db, token, now), token) == Some(Find(db, token).value.(revokedAt := Some(now)))
  {
    var r := RevokeToken(db, token, now);
    if db[0].token != token {
      FindRevoked(db[1..], token, now);
      assert r[1..] == RevokeToken(db[1..], token, now);
    }
    assert exists i :: 0 <= i < |r| && r[i].token == token by {
      var i :| 0 <= i < |db| && db[i] == Find(db, token).value;
      assert r[i].token == token;
    }
  }
}
