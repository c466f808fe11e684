/**
 The auth-service calls that write the token, session and reset tables, at the
 granularity where calls do not interleave but each may die after any of its
 writes. `Plan` lists the writes of a call in order; a cut call performs a
 prefix of them.
 */
module AuthCalls {
  import opened Prelude
  import opened AuthTables

  datatype NewToken = NewToken(id: Uuid, hash: Digest, expiresAt: Time)

  datatype Call =
    | Refresh(hash: Digest, now: Time, issued: NewToken)
    | Login(userId: Uuid, tenantId: Uuid, sid: Uuid, twoFactor: bool, now: Time, issued: NewToken)
    | VerifyTwoFactor(userId: Uuid, sid: Uuid, now: Time, issued: NewToken)
    | LogoutCurrent(sid: Uuid, presented: Option<Digest>, now: Time)
    | LogoutAll(userId: Uuid, now: Time)
    | DeactivateStaff(userId: Uuid, tenantId: Uuid, sessionsFirst: bool, now: Time)
    | RequestReset(userId: Uuid, resetHash: Digest, now: Time, createdAt: Time, ttl: nat)
    | ResetPassword(resetHash: Digest, password: Digest, now: Time)

  datatype RefreshOutcome = Rotated(newId: Uuid) | Invalid | ReuseDetected | InsertFailed

  function RootRow(userId: Uuid, sid: Uuid, issued: NewToken): Token {
    Token(issued.hash, userId, sid, issued.id, None, issued.expiresAt, None, None, None)
  }

  function ChildRow(parentId: Uuid, parent: Token, issued: NewToken): Token {
    Token(issued.hash, parent.userId, parent.sessionId, parent.familyId, Some(parentId), issued.expiresAt,
          None, None, None)
  }

  // ---------------------------------------------------------------------------
  // Plans
  // ---------------------------------------------------------------------------

  ghost function SessionOpen(db: Db, sid: Uuid): bool {
    sid in db.sessions && db.sessions[sid].endedAt.None?
  }

  /** A usable token is burned first, whatever its session and its child come to. */
  ghost function BurnPlan(db: Db, id: Uuid, t: Token, now: Time, issued: NewToken): (r: (RefreshOutcome, seq<Write>)) {
    if !SessionOpen(db, t.sessionId) then (Invalid, [MarkUsed(id, now)])
    else if !CanCreate(db, issued.id, issued.hash, t.sessionId) then (InsertFailed, [MarkUsed(id, now)])
    else
      (Rotated(issued.id),
       [MarkUsed(id, now), CreateToken(issued.id, ChildRow(id, t, issued)), TouchSession(t.sessionId, now)])
  }

  ghost function RefreshPlan(db: Db, hash: Digest, now: Time, issued: NewToken): (r: (RefreshOutcome, seq<Write>)) {
    match FindByHash(db.tokens, hash)
    case None => (Invalid, [])
    case Some(id) =>
      var t := db.tokens[id];
      if t.revokedAt.Some? then (Invalid, [])
      else if t.usedAt.Some? then
        (ReuseDetected,
         [RevokeFamily(t.familyId, OnReuse, now), EndSession(t.sessionId, TokenReuseDetected, now)])
      else if t.expiresAt <= now then (Invalid, [])
      else BurnPlan(db, id, t, now, issued)
  }

  ghost function RootPlan(db: Db, userId: Uuid, sid: Uuid, issued: NewToken): seq<Write> {
    if CanCreate(db, issued.id, issued.hash, sid) then [CreateToken(issued.id, RootRow(userId, sid, issued))] else []
  }

  ghost function LoginPlan(db: Db, userId: Uuid, tenantId: Uuid, sid: Uuid, twoFactor: bool, now: Time,
                           issued: NewToken): seq<Write> {
    if sid in db.sessions then []
    else
      var create := CreateSession(sid, userId, tenantId, now);
      [create] + if twoFactor then [] else RootPlan(Apply(db, create), userId, sid, issued)
  }

  ghost function LogoutPlan(db: Db, sid: Uuid, presented: Option<Digest>, now: Time): seq<Write> {
    var found := if presented.Some? then FindByHash(db.tokens, presented.value) else None;
    (if found.Some? && db.tokens[found.value].revokedAt.None? then [RevokeOne(found.value, OnLogout, now)] else [])
    + if sid in db.sessions then [EndSession(sid, Logout, now)] else []
  }

  ghost function OpenSessionsIn(ss: Sessions, userId: Uuid, tenantId: Uuid): set<Uuid> {
    set sid | sid in ss && ss[sid].userId == userId && ss[sid].tenantId == tenantId && ss[sid].endedAt.None?
  }

  ghost function DeactivatePlan(db: Db, userId: Uuid, tenantId: Uuid, sessionsFirst: bool, now: Time): seq<Write> {
    var sids := OpenSessionsIn(db.sessions, userId, tenantId);
    var ends := [EndTenantSessions(userId, tenantId, RevokedByAdmin, now)];
    var revokes := if sids == {} then [] else [RevokeForSessions(sids, OnDeactivation, now)];
    if sessionsFirst then ends + revokes else revokes + ends
  }

  ghost function RequestResetPlan(db: Db, userId: Uuid, hash: Digest, now: Time, createdAt: Time,
                                  ttl: nat): seq<Write> {
    if hash in db.resets then [] else [IssueReset(userId, hash, now, createdAt + ttl * 1000)]
  }

  ghost function ResetPlan(db: Db, hash: Digest, password: Digest, now: Time): seq<Write> {
    if hash in db.resets && db.resets[hash].usedAt.None? && now < db.resets[hash].expiresAt
    then [ConsumeReset(hash, password, now)]
    else []
  }

  ghost function Plan(db: Db, call: Call): seq<Write> {
    match call
    case Refresh(hash, now, issued) => RefreshPlan(db, hash, now, issued).1
    case Login(userId, tenantId, sid, twoFactor, now, issued) =>
      LoginPlan(db, userId, tenantId, sid, twoFactor, now, issued)
    case VerifyTwoFactor(userId, sid, _, issued) => RootPlan(db, userId, sid, issued)
    case LogoutCurrent(sid, presented, now) => LogoutPlan(db, sid, presented, now)
    case LogoutAll(userId, now) =>
      [RevokeAllForUser(userId, OnLogoutAll, now), EndAllForUser(userId, Logout, now)]
    case DeactivateStaff(userId, tenantId, sessionsFirst, now) =>
      DeactivatePlan(db, userId, tenantId, sessionsFirst, now)
    case RequestReset(userId, hash, now, createdAt, ttl) => RequestResetPlan(db, userId, hash, now, createdAt, ttl)
    case ResetPassword(hash, password, now) => ResetPlan(db, hash, password, now)
  }

  lemma MarkKeepsCreatable(db: Db, id: Uuid, now: Time, newId: Uuid, hash: Digest, sid: Uuid)
    requires id in db.tokens
    ensures CanCreate(db, newId, hash, sid) <==> CanCreate(Apply(db, MarkUsed(id, now)), newId, hash, sid)
  {
    var after := Apply(db, MarkUsed(id, now));
    forall other | other in db.tokens
      ensures other in after.tokens && after.tokens[other].hash == db.tokens[other].hash
    {
    }
  }

  // ---------------------------------------------------------------------------
  // Runs of calls, each complete or cut short
  // ---------------------------------------------------------------------------

  /** A call that dies after at most `writes` of its writes. */
  datatype CutCall = CutCall(call: Call, writes: nat)

  ghost function Prefix(ws: seq<Write>, k: nat): seq<Write> {
    if k < |ws| then ws[..k] else ws
  }

  ghost function Perform(db: Db, c: CutCall): Db {
    ApplyAll(db, Prefix(Plan(db, c.call), c.writes))
  }

  ghost function Complete(db: Db, call: Call): Db {
    ApplyAll(db, Plan(db, call))
  }

  ghost function Run(db: Db, cs: seq<CutCall>): Db
    decreases |cs|
  {
    if cs == [] then db else Run(Perform(db, cs[0]), cs[1..])
  }

  lemma {:induction false} RunAppend(db: Db, cs: seq<CutCall>, ds: seq<CutCall>)
    ensures Run(db, cs + ds) == Run(Run(db, cs), ds)
    decreases |cs|
  {
    if cs == [] {
      assert cs + ds == ds;
    } else {
      assert (cs + ds)[1..] == cs[1..] + ds;
      RunAppend(Perform(db, cs[0]), cs[1..], ds);
    }
  }

  lemma ApplyPrefix(db: Db, ws: seq<Write>, k: nat)
    requires |ws| <= 3
    ensures var db1 := if 0 < k && 0 < |ws| then Apply(db, ws[0]) else db;
            var db2 := if 1 < k && 1 < |ws| then Apply(db1, ws[1]) else db1;
            ApplyAll(db, Prefix(ws, k)) == if 2 < k && 2 < |ws| then Apply(db2, ws[2]) else db2
  {
    var p := Prefix(ws, k);
    if |p| > 0 {
      assert ApplyAll(db, p) == ApplyAll(Apply(db, p[0]), p[1..]);
      if |p| > 1 {
        assert p[1..][1..] == p[2..];
        assert ApplyAll(Apply(db, p[0]), p[1..]) == ApplyAll(Apply(Apply(db, p[0]), p[1]), p[2..]);
        if |p| > 2 { assert p[2..][1..] == []; }
      }
    }
  }

  /**
   A refresh succeeds exactly with an unrevoked, unused, unexpired token on an open session, if its child can be
   stored.
   */
  lemma RefreshAcceptsIff(db: Db, id: Uuid, now: Time, issued: NewToken)
    requires Sound(db) && id in db.tokens
    ensures var t := db.tokens[id];
            RefreshPlan(db, t.hash, now, issued).0 == Rotated(issued.id) <==>
              && t.revokedAt.None? && t.usedAt.None? && now < t.expiresAt
              && SessionOpen(db, t.sessionId)
              && CanCreate(db, issued.id, issued.hash, t.sessionId)
  {
    assert FindByHash(db.tokens, db.tokens[id].hash) == Some(id);
  }

  /**
   What a complete rotation leaves: the token used, one new unused child in its family, session and user, and the
   session active `now`; every other row as it was.
   */
  lemma RotationEffect(db: Db, id: Uuid, now: Time, issued: NewToken)
    requires Sound(db) && id in db.tokens
    requires RefreshPlan(db, db.tokens[id].hash, now, issued).0.Rotated?
    ensures var t := db.tokens[id];
            var db' := Complete(db, Refresh(t.hash, now, issued));
            && id != issued.id
            && db'.tokens.Keys == db.tokens.Keys + {issued.id}
            && db'.tokens[id] == t.(usedAt := Some(now))
            && db'.tokens[issued.id] == Token(issued.hash, t.userId, t.sessionId, t.familyId, Some(id),
                issued.expiresAt, None, None, None)
            && (forall other :: other in db.tokens && other != id ==> db'.tokens[other] == db.tokens[other])
            && db'.sessions == db.sessions[t.sessionId := db.sessions[t.sessionId].(lastActiveAt := now)]
            && db'.resets == db.resets && db'.passwords == db.passwords
  {
    var t := db.tokens[id];
    RefreshAcceptsIff(db, id, now, issued);
    assert FindByHash(db.tokens, t.hash) == Some(id);
    ApplyPrefix(db, Plan(db, Refresh(t.hash, now, issued)), 3);
    MarkKeepsCreatable(db, id, now, issued.id, issued.hash, t.sessionId);
  }

  // ---------------------------------------------------------------------------
  // What each call leaves, row by row
  // ---------------------------------------------------------------------------

  /** The rows of `after` are those of `before`, the ones in `which` revoked for `reason`. */
  ghost predicate OnlyRevoked(before: Tokens, after: Tokens, which: set<Uuid>, reason: RevokeReason, now: Time) {
    && after.Keys == before.Keys
    && forall id :: id in before ==>
         after[id] == if id in which && before[id].revokedAt.None?
                      then before[id].(revokedAt := Some(now), revokedReason := Some(reason)) else before[id]
  }

  /** The rows of `after` are those of `before`, the open ones in `which` ended for `reason`. */
  ghost predicate OnlyEnded(before: Sessions, after: Sessions, which: set<Uuid>, reason: EndReason, now: Time) {
    && after.Keys == before.Keys
    && forall sid :: sid in before ==>
         after[sid] == if sid in which && before[sid].endedAt.None?
                       then before[sid].(endedAt := Some(now), endReason := Some(reason)) else before[sid]
  }

  ghost function TokensOf(ts: Tokens, userId: Uuid): set<Uuid> {
    set id | id in ts && ts[id].userId == userId
  }

  ghost function SessionsOf(ss: Sessions, userId: Uuid): set<Uuid> {
    set sid | sid in ss && ss[sid].userId == userId
  }

  ghost function SessionsIn(ss: Sessions, userId: Uuid, tenantId: Uuid): set<Uuid> {
    set sid | sid in ss && ss[sid].userId == userId && ss[sid].tenantId == tenantId
  }

  /** The child cannot be stored: its id or hash is taken. */
  ghost predicate Taken(ts: Tokens, issued: NewToken) {
    issued.id in ts || exists other :: other in ts && ts[other].hash == issued.hash
  }

  /** A refresh of a token that is not there. */
  ghost predicate UnknownLeaves(db: Db, hash: Digest, outcome: RefreshOutcome, after: Db) {
    (forall id :: id in db.tokens ==> db.tokens[id].hash != hash) ==> outcome == Invalid && after == db
  }

  /** A refresh of token `id`: what it answers and what it leaves, in each state of the row and its session. */
  ghost predicate RefreshLeaves(db: Db, id: Uuid, now: Time, issued: NewToken, outcome: RefreshOutcome, after: Db)
    requires id in db.tokens
  {
    var t := db.tokens[id];
    var unused := t.revokedAt.None? && t.usedAt.None?;
    var live := unused && now < t.expiresAt;
    var open := t.sessionId in db.sessions && db.sessions[t.sessionId].endedAt.None?;
    && after.resets == db.resets && after.passwords == db.passwords
    && (t.revokedAt.Some? || (unused && t.expiresAt <= now) ==> outcome == Invalid && after == db)
    && (outcome == ReuseDetected <==> t.usedAt.Some? && t.revokedAt.None?)
    && (t.usedAt.Some? && t.revokedAt.None? ==>
          && OnlyRevoked(db.tokens, after.tokens, Family(db.tokens, t.familyId), OnReuse, now)
          && t.sessionId in db.sessions
          && after.sessions == db.sessions[t.sessionId :=
               db.sessions[t.sessionId].(endedAt := Some(now), endReason := Some(TokenReuseDetected))])
    && (live && !open ==> outcome == Invalid)
    && (live && open && Taken(db.tokens, issued) ==> outcome == InsertFailed)
    && (live && (!open || Taken(db.tokens, issued)) ==>
          after.tokens == db.tokens[id := t.(usedAt := Some(now))] && after.sessions == db.sessions)
    && (live && open && !Taken(db.tokens, issued) ==>
          && outcome == Rotated(issued.id)
          && after.tokens == db.tokens[id := t.(usedAt := Some(now))][issued.id :=
               Token(issued.hash, t.userId, t.sessionId, t.familyId, Some(id), issued.expiresAt, None, None, None)]
          && after.sessions == db.sessions[t.sessionId := db.sessions[t.sessionId].(lastActiveAt := now)])
  }

  lemma MarkedRefreshEffect(db: Db, id: Uuid, now: Time, issued: NewToken)
    requires Sound(db) && id in db.tokens
    requires RefreshPlan(db, db.tokens[id].hash, now, issued).1 == [MarkUsed(id, now)]
    ensures var r := RefreshPlan(db, db.tokens[id].hash, now, issued);
            RefreshLeaves(db, id, now, issued, r.0, ApplyAll(db, r.1))
  {
    assert FindByHash(db.tokens, db.tokens[id].hash) == Some(id);
    assert ApplyAll(db, [MarkUsed(id, now)]) == Apply(db, MarkUsed(id, now)) by {
      ApplyPrefix(db, [MarkUsed(id, now)], 1);
    }
  }

  function ReplayWrites(t: Token, now: Time): seq<Write> {
    [RevokeFamily(t.familyId, OnReuse, now), EndSession(t.sessionId, TokenReuseDetected, now)]
  }

  lemma ReplayedRows(db: Db, t: Token, now: Time)
    requires t.sessionId in db.sessions
    ensures var after := ApplyAll(db, ReplayWrites(t, now));
            && after.resets == db.resets && after.passwords == db.passwords
            && OnlyRevoked(db.tokens, after.tokens, Family(db.tokens, t.familyId), OnReuse, now)
            && after.sessions == db.sessions[t.sessionId :=
                 db.sessions[t.sessionId].(endedAt := Some(now), endReason := Some(TokenReuseDetected))]
  {
    var ws := ReplayWrites(t, now);
    ApplyPrefix(db, ws, 2);
    FamilyRevoked(db, t.familyId, now);
    assert ApplyAll(db, ws).tokens == Apply(db, ws[0]).tokens;
  }

  lemma ReplayedRefreshEffect(db: Db, id: Uuid, now: Time, issued: NewToken)
    requires id in db.tokens && db.tokens[id].usedAt.Some? && db.tokens[id].revokedAt.None?
    requires db.tokens[id].sessionId in db.sessions
    ensures RefreshLeaves(db, id, now, issued, ReuseDetected, ApplyAll(db, ReplayWrites(db.tokens[id], now)))
  {
    ReplayedRows(db, db.tokens[id], now);
  }

  lemma FamilyRevoked(db: Db, f: Uuid, now: Time)
    ensures OnlyRevoked(db.tokens, Apply(db, RevokeFamily(f, OnReuse, now)).tokens, Family(db.tokens, f), OnReuse, now)
  {
  }

  lemma RefusedRefreshEffect(db: Db, id: Uuid, now: Time, issued: NewToken)
    requires Sound(db) && id in db.tokens
    requires !RefreshPlan(db, db.tokens[id].hash, now, issued).0.Rotated?
    ensures var r := RefreshPlan(db, db.tokens[id].hash, now, issued);
            RefreshLeaves(db, id, now, issued, r.0, ApplyAll(db, r.1))
  {
    assert FindByHash(db.tokens, db.tokens[id].hash) == Some(id);
    if db.tokens[id].usedAt.Some? && db.tokens[id].revokedAt.None? {
      ReplayPlan(db, id, now, issued);
      ReplayedRefreshEffect(db, id, now, issued);
    } else if RefreshPlan(db, db.tokens[id].hash, now, issued).1 == [MarkUsed(id, now)] {
      MarkedRefreshEffect(db, id, now, issued);
    }
  }

  lemma RotatedRefreshEffect(db: Db, id: Uuid, now: Time, issued: NewToken)
    requires Sound(db) && id in db.tokens
    requires RefreshPlan(db, db.tokens[id].hash, now, issued).0.Rotated?
    ensures var r := RefreshPlan(db, db.tokens[id].hash, now, issued);
            RefreshLeaves(db, id, now, issued, r.0, ApplyAll(db, r.1))
  {
    RefreshAcceptsIff(db, id, now, issued);
    RotationEffect(db, id, now, issued);
    assert FindByHash(db.tokens, db.tokens[id].hash) == Some(id);
  }

  ghost predicate RefreshedAsPromised(db: Db, hash: Digest, now: Time, issued: NewToken, outcome: RefreshOutcome,
                                      after: Db) {
    && UnknownLeaves(db, hash, outcome, after)
    && forall id :: id in db.tokens && db.tokens[id].hash == hash ==> RefreshLeaves(db, id, now, issued, outcome, after)
  }

  /** No token has the hash, or one that is revoked, or unused and expired. */
  ghost predicate RefusedSilently(ts: Tokens, hash: Digest, now: Time) {
    forall id :: id in ts && ts[id].hash == hash ==>
      ts[id].revokedAt.Some? || (ts[id].usedAt.None? && ts[id].expiresAt <= now)
  }

  /** Every refresh, of a known token or not, answers and leaves what is promised; a silent refusal writes nothing. */
  lemma RefreshEffect(db: Db, hash: Digest, now: Time, issued: NewToken)
    requires Sound(db)
    ensures var r := RefreshPlan(db, hash, now, issued);
            RefreshedAsPromised(db, hash, now, issued, r.0, ApplyAll(db, r.1))
    ensures RefusedSilently(db.tokens, hash, now) ==> RefreshPlan(db, hash, now, issued).1 == []
  {
    forall id | id in db.tokens && db.tokens[id].hash == hash
      ensures var r := RefreshPlan(db, hash, now, issued);
              RefreshLeaves(db, id, now, issued, r.0, ApplyAll(db, r.1))
    {
      if RefreshPlan(db, hash, now, issued).0.Rotated? {
        RotatedRefreshEffect(db, id, now, issued);
      } else {
        RefusedRefreshEffect(db, id, now, issued);
      }
    }
  }

  /** A login opens one session and, without a pending second factor, inserts its root token if it can be stored. */
  lemma LoginEffect(db: Db, userId: Uuid, tenantId: Uuid, sid: Uuid, twoFactor: bool, now: Time, issued: NewToken)
    ensures var after := Complete(db, Login(userId, tenantId, sid, twoFactor, now, issued));
            && after.resets == db.resets && after.passwords == db.passwords
            && (sid in db.sessions ==> after == db)
            && (sid !in db.sessions ==>
                  && after.sessions.Keys == db.sessions.Keys + {sid}
                  && after.sessions[sid].userId == userId && after.sessions[sid].tenantId == tenantId
                  && after.sessions[sid].lastActiveAt == now
                  && after.sessions[sid].endedAt.None? && after.sessions[sid].endReason.None?
                  && (forall other :: other in db.sessions ==> after.sessions[other] == db.sessions[other])
                  && after.tokens ==
                       if twoFactor || Taken(db.tokens, issued) then db.tokens
                       else db.tokens[issued.id := Token(issued.hash, userId, sid, issued.id, None, issued.expiresAt,
                                                         None, None, None)])
  {
    ApplyPrefix(db, Plan(db, Login(userId, tenantId, sid, twoFactor, now, issued)), 3);
  }

  /** A verified second factor inserts a root token on the pending session, open or not, if it can be stored. */
  lemma VerifyEffect(db: Db, userId: Uuid, sid: Uuid, now: Time, issued: NewToken)
    ensures var after := Complete(db, VerifyTwoFactor(userId, sid, now, issued));
            after == if sid in db.sessions && !Taken(db.tokens, issued)
                     then db.(tokens := db.tokens[issued.id :=
                            Token(issued.hash, userId, sid, issued.id, None, issued.expiresAt, None, None, None)])
                     else db
  {
    ApplyPrefix(db, Plan(db, VerifyTwoFactor(userId, sid, now, issued)), 3);
  }

  /** A logout revokes the presented token, if it stands, and ends its one session; all other rows stay. */
  lemma LogoutCurrentEffect(db: Db, sid: Uuid, presented: Option<Digest>, now: Time)
    requires Sound(db)
    ensures var after := Complete(db, LogoutCurrent(sid, presented, now));
            && after.resets == db.resets && after.passwords == db.passwords
            && OnlyRevoked(db.tokens, after.tokens,
                           (set id | id in db.tokens && presented == Some(db.tokens[id].hash)), OnLogout, now)
            && after.sessions ==
                 if sid in db.sessions
                 then db.sessions[sid := db.sessions[sid].(endedAt := Some(now), endReason := Some(Logout))]
                 else db.sessions
  {
    ApplyPrefix(db, Plan(db, LogoutCurrent(sid, presented, now)), 3);
    if id :| id in db.tokens && presented == Some(db.tokens[id].hash) {
      assert FindByHash(db.tokens, presented.value) == Some(id);
    }
  }

  /** A logout everywhere revokes the user's standing tokens and ends the user's open sessions; all other rows stay. */
  lemma LogoutAllEffect(db: Db, userId: Uuid, now: Time)
    ensures var after := Complete(db, LogoutAll(userId, now));
            && after.resets == db.resets && after.passwords == db.passwords
            && OnlyRevoked(db.tokens, after.tokens, TokensOf(db.tokens, userId), OnLogoutAll, now)
            && OnlyEnded(db.sessions, after.sessions, SessionsOf(db.sessions, userId), Logout, now)
  {
    ApplyPrefix(db, Plan(db, LogoutAll(userId, now)), 3);
  }

  /** The tokens on open sessions of the user in the tenant. */
  ghost function TokensOnOpen(db: Db, userId: Uuid, tenantId: Uuid): set<Uuid> {
    set id | id in db.tokens && db.tokens[id].sessionId in SessionsIn(db.sessions, userId, tenantId)
             && db.sessions[db.tokens[id].sessionId].endedAt.None?
  }

  /**
   A deactivation ends the user's open sessions in the tenant and revokes their standing tokens; all other rows stay.
   */
  lemma DeactivateEffect(db: Db, userId: Uuid, tenantId: Uuid, sessionsFirst: bool, now: Time)
    ensures var after := Complete(db, DeactivateStaff(userId, tenantId, sessionsFirst, now));
            && after.resets == db.resets && after.passwords == db.passwords
            && OnlyEnded(db.sessions, after.sessions, SessionsIn(db.sessions, userId, tenantId), RevokedByAdmin, now)
            && OnlyRevoked(db.tokens, after.tokens, TokensOnOpen(db, userId, tenantId), OnDeactivation, now)
  {
    var sids := OpenSessionsIn(db.sessions, userId, tenantId);
    var after := Complete(db, DeactivateStaff(userId, tenantId, sessionsFirst, now));
    ApplyPrefix(db, Plan(db, DeactivateStaff(userId, tenantId, sessionsFirst, now)), 3);
    assert after.tokens ==
           if sids == {} then db.tokens else Apply(db, RevokeForSessions(sids, OnDeactivation, now)).tokens;
    assert after.sessions == Apply(db, EndTenantSessions(userId, tenantId, RevokedByAdmin, now)).sessions;
    SessionsRevoked(db, userId, tenantId, now);
    TenantSessionsEnded(db, userId, tenantId, now);
  }

  lemma TenantSessionsEnded(db: Db, userId: Uuid, tenantId: Uuid, now: Time)
    ensures OnlyEnded(db.sessions, Apply(db, EndTenantSessions(userId, tenantId, RevokedByAdmin, now)).sessions,
                      SessionsIn(db.sessions, userId, tenantId), RevokedByAdmin, now)
  {
  }

  lemma SessionsRevoked(db: Db, userId: Uuid, tenantId: Uuid, now: Time)
    ensures var sids := OpenSessionsIn(db.sessions, userId, tenantId);
            var after := if sids == {} then db.tokens
                         else Apply(db, RevokeForSessions(sids, OnDeactivation, now)).tokens;
            OnlyRevoked(db.tokens, after, TokensOnOpen(db, userId, tenantId), OnDeactivation, now)
  {
    var sids := OpenSessionsIn(db.sessions, userId, tenantId);
    forall id | id in db.tokens
      ensures id in TokensOnOpen(db, userId, tenantId) <==> db.tokens[id].sessionId in sids
    {
    }
  }

  /**
   A request stores its row, with the lifetime in seconds, and expires the user's unused ones; all other rows stay.
   */
  lemma RequestResetEffect(db: Db, userId: Uuid, hash: Digest, now: Time, createdAt: Time, ttl: nat)
    ensures var after := Complete(db, RequestReset(userId, hash, now, createdAt, ttl));
            && after.tokens == db.tokens && after.sessions == db.sessions && after.passwords == db.passwords
            && (hash in db.resets ==> after == db)
            && (hash !in db.resets ==>
                  && after.resets.Keys == db.resets.Keys + {hash}
                  && after.resets[hash].userId == userId && after.resets[hash].usedAt.None?
                  && after.resets[hash].expiresAt == createdAt + 1000 * ttl
                  && forall h :: h in db.resets ==>
                       after.resets[h] == if db.resets[h].userId == userId && db.resets[h].usedAt.None?
                                          then db.resets[h].(expiresAt := now) else db.resets[h])
  {
    ApplyPrefix(db, Plan(db, RequestReset(userId, hash, now, createdAt, ttl)), 3);
  }

  /** The row can be used: it is there, unused, and expires later than `now`. */
  ghost predicate Redeemable(db: Db, hash: Digest, now: Time) {
    hash in db.resets && db.resets[hash].usedAt.None? && db.resets[hash].expiresAt > now
  }

  /** A reset that commits uses its row, sets that user's password and purges that user; all other rows stay. */
  lemma ResetPasswordEffect(db: Db, hash: Digest, password: Digest, now: Time)
    ensures var after := Complete(db, ResetPassword(hash, password, now));
            && (!Redeemable(db, hash, now) ==> after == db)
            && (Redeemable(db, hash, now) ==>
                  var u := db.resets[hash].userId;
                  && after.resets == db.resets[hash := db.resets[hash].(usedAt := Some(now))]
                  && after.passwords == db.passwords[u := password]
                  && OnlyRevoked(db.tokens, after.tokens, TokensOf(db.tokens, u), OnPasswordReset, now)
                  && OnlyEnded(db.sessions, after.sessions, SessionsOf(db.sessions, u), PasswordChanged, now))
  {
    ApplyPrefix(db, Plan(db, ResetPassword(hash, password, now)), 3);
  }

  // ---------------------------------------------------------------------------
  // The rotation chain
  // ---------------------------------------------------------------------------

  /** `c` lists family `f` from its root on, each token the parent of the next, all but the last used. */
  ghost predicate IsChain(ts: Tokens, f: Uuid, c: seq<Uuid>) {
    && |c| > 0
    && c[0] == f
    && (forall i :: 0 <= i < |c| ==> c[i] in ts && ts[c[i]].familyId == f)
    && (forall id :: id in ts && ts[id].familyId == f ==> id in c)
    && ts[f].parentId.None?
    && (forall i :: 0 < i < |c| ==> ts[c[i]].parentId == Some(c[i - 1]))
    && (forall i :: 0 <= i < |c| - 1 ==> ts[c[i]].usedAt.Some?)
    && (forall i, j :: 0 <= i < j < |c| ==> c[i] != c[j])
  }

  ghost predicate HasChain(ts: Tokens, f: Uuid) {
    exists c :: IsChain(ts, f, c)
  }

  ghost predicate AllChained(ts: Tokens) {
    forall id :: id in ts ==> HasChain(ts, ts[id].familyId)
  }

  ghost predicate Good(db: Db) {
    Sound(db) && AllChained(db.tokens)
  }

  lemma ChainSurvives(before: Tokens, after: Tokens, f: Uuid, c: seq<Uuid>)
    requires IsChain(before, f, c) && TokensEvolve(before, after) && after.Keys == before.Keys
    ensures IsChain(after, f, c)
  {
  }

  lemma MarksKeepChains(db: Db, w: Write)
    requires AllChained(db.tokens) && !w.CreateToken?
    ensures AllChained(Apply(db, w).tokens)
  {
    var after := Apply(db, w).tokens;
    WriteEvolvesTokens(db, w);
    forall id | id in after
      ensures HasChain(after, after[id].familyId)
    {
      assert HasChain(db.tokens, db.tokens[id].familyId);
      var c :| IsChain(db.tokens, db.tokens[id].familyId, c);
      ChainSurvives(db.tokens, after, db.tokens[id].familyId, c);
    }
  }

  lemma OtherFamiliesKeepChains(db: Db, id: Uuid, row: Token)
    requires AllChained(db.tokens) && id !in db.tokens
    requires HasChain(db.tokens[id := row], row.familyId)
    ensures AllChained(db.tokens[id := row])
  {
    var after := db.tokens[id := row];
    forall other | other in after && after[other].familyId != row.familyId
      ensures HasChain(after, after[other].familyId)
    {
      assert HasChain(db.tokens, db.tokens[other].familyId);
      var c :| IsChain(db.tokens, db.tokens[other].familyId, c);
      assert IsChain(after, after[other].familyId, c);
    }
  }

  lemma RootStartsChain(db: Db, id: Uuid, row: Token)
    requires Good(db) && IsRoot(id, row)
    ensures AllChained(Apply(db, CreateToken(id, row)).tokens)
  {
    if CanCreate(db, id, row.hash, row.sessionId) {
      var after := db.tokens[id := row];
      assert IsChain(after, id, [id]);
      OtherFamiliesKeepChains(db, id, row);
    }
  }

  lemma AppendToChain(ts: Tokens, id: Uuid, row: Token, chain: seq<Uuid>)
    requires id !in ts && IsChildOf(ts, row) && IsChain(ts, row.familyId, chain)
    requires chain[|chain| - 1] == row.parentId.value
    ensures IsChain(ts[id := row], row.familyId, chain + [id])
  {
    var after := ts[id := row];
    var longer := chain + [id];
    forall i | 0 <= i < |longer|
      ensures longer[i] in after && after[longer[i]].familyId == row.familyId
      ensures i > 0 ==> after[longer[i]].parentId == Some(longer[i - 1])
    {
      if i < |chain| { assert longer[i] == chain[i] && chain[i] in ts; }
    }
    forall other | other in after && after[other].familyId == row.familyId
      ensures other in longer
    {
      if other == id { assert longer[|chain|] == id; } else { assert other in chain; }
    }
    forall i | 0 <= i < |longer| - 1
      ensures after[longer[i]].usedAt.Some?
    {
      assert longer[i] == chain[i] && chain[i] in ts;
    }
  }

  /** Appending under the only childless token keeps the chain a chain. */
  lemma ChildExtendsChain(db: Db, id: Uuid, row: Token, chain: seq<Uuid>)
    requires Good(db) && IsChildOf(db.tokens, row) && IsChain(db.tokens, row.familyId, chain)
    requires chain[|chain| - 1] == row.parentId.value
    ensures AllChained(Apply(db, CreateToken(id, row)).tokens)
  {
    if CanCreate(db, id, row.hash, row.sessionId) {
      AppendToChain(db.tokens, id, row, chain);
      OtherFamiliesKeepChains(db, id, row);
    }
  }

  lemma UnusedIsLast(ts: Tokens, id: Uuid, chain: seq<Uuid>)
    requires id in ts && ts[id].usedAt.None? && IsChain(ts, ts[id].familyId, chain)
    ensures chain[|chain| - 1] == id
  {
  }

  lemma MarkKeepsGood(db: Db, w: Write)
    requires Good(db) && !w.CreateToken?
    ensures Good(Apply(db, w))
  {
    WriteKeepsSound(db, w);
    MarksKeepChains(db, w);
  }

  /** The rotated token was the last of its chain. */
  lemma MarkedTokenEndsChain(db: Db, id: Uuid, now: Time) returns (chain: seq<Uuid>)
    requires AllChained(db.tokens) && id in db.tokens && db.tokens[id].usedAt.None?
    ensures IsChain(Apply(db, MarkUsed(id, now)).tokens, db.tokens[id].familyId, chain)
    ensures chain[|chain| - 1] == id
  {
    assert HasChain(db.tokens, db.tokens[id].familyId);
    chain :| IsChain(db.tokens, db.tokens[id].familyId, chain);
    UnusedIsLast(db.tokens, id, chain);
    WriteEvolvesTokens(db, MarkUsed(id, now));
    ChainSurvives(db.tokens, Apply(db, MarkUsed(id, now)).tokens, db.tokens[id].familyId, chain);
  }

  /** So the child lands at the end of the chain. */
  lemma RotationExtendsChain(db: Db, id: Uuid, now: Time, issued: NewToken)
    requires Good(db) && id in db.tokens && db.tokens[id].usedAt.None?
    ensures var db1 := Apply(db, MarkUsed(id, now));
            Good(db1) && Good(Apply(db1, CreateToken(issued.id, ChildRow(id, db.tokens[id], issued))))
  {
    var db1 := Apply(db, MarkUsed(id, now));
    var row := ChildRow(id, db.tokens[id], issued);
    MarkKeepsGood(db, MarkUsed(id, now));
    var chain := MarkedTokenEndsChain(db, id, now);
    assert IsChildOf(db1.tokens, row);
    WriteKeepsSound(db1, CreateToken(issued.id, row));
    ChildExtendsChain(db1, issued.id, row, chain);
  }

  lemma RotationKeepsGood(db: Db, hash: Digest, now: Time, issued: NewToken, k: nat)
    requires Good(db) && RefreshPlan(db, hash, now, issued).0.Rotated?
    ensures Good(ApplyAll(db, Prefix(RefreshPlan(db, hash, now, issued).1, k)))
  {
    var ws := RefreshPlan(db, hash, now, issued).1;
    ApplyPrefix(db, ws, k);
    RotationExtendsChain(db, ws[0].id, now, issued);
    MarkKeepsGood(Apply(Apply(db, ws[0]), ws[1]), ws[2]);
  }

  /** Writes that mark rows or insert roots keep everything, whatever prefix of them happens. */
  lemma {:induction false} MarksAndRootsKeepGood(db: Db, ws: seq<Write>)
    requires Good(db)
    requires forall w :: w in ws && w.CreateToken? ==>
               IsRoot(w.id, w.row) && w.row.usedAt.None? && w.row.revokedAt.None?
    ensures Good(ApplyAll(db, ws))
    decreases |ws|
  {
    if ws != [] {
      WriteKeepsSound(db, ws[0]);
      if ws[0].CreateToken? { RootStartsChain(db, ws[0].id, ws[0].row); } else { MarksKeepChains(db, ws[0]); }
      MarksAndRootsKeepGood(Apply(db, ws[0]), ws[1..]);
    }
  }

  lemma OnlyRotationsInsertChildren(db: Db, call: Call)
    requires call.Refresh? ==> !RefreshPlan(db, call.hash, call.now, call.issued).0.Rotated?
    ensures forall w :: w in Plan(db, call) && w.CreateToken? ==>
        IsRoot(w.id, w.row) && w.row.usedAt.None? && w.row.revokedAt.None?
  {
  }

  lemma PerformKeepsGood(db: Db, c: CutCall)
    requires Good(db)
    ensures Good(Perform(db, c))
  {
    if c.call.Refresh? && RefreshPlan(db, c.call.hash, c.call.now, c.call.issued).0.Rotated? {
      RotationKeepsGood(db, c.call.hash, c.call.now, c.call.issued, c.writes);
    } else {
      OnlyRotationsInsertChildren(db, c.call);
      MarksAndRootsKeepGood(db, Prefix(Plan(db, c.call), c.writes));
    }
  }

  /** Every family, in every state any run of complete or cut calls reaches, is one parent chain from its root. */
  lemma {:induction false} RunKeepsGood(db: Db, cs: seq<CutCall>)
    requires Good(db)
    ensures Good(Run(db, cs))
    decreases |cs|
  {
    if cs != [] {
      PerformKeepsGood(db, cs[0]);
      RunKeepsGood(Perform(db, cs[0]), cs[1..]);
    }
  }

  lemma ReachableFamiliesAreChains(cs: seq<CutCall>, f: Uuid)
    requires f in Run(EMPTY_DB, cs).tokens && Run(EMPTY_DB, cs).tokens[f].familyId == f
    ensures exists c :: IsChain(Run(EMPTY_DB, cs).tokens, f, c)
  {
    RunKeepsGood(EMPTY_DB, cs);
    assert HasChain(Run(EMPTY_DB, cs).tokens, f);
  }

  /** "Used exactly once": no token has two children, and at most one token of a family is still unused. */
  lemma TokensAreSingleUse(cs: seq<CutCall>, a: Uuid, b: Uuid)
    requires a in Run(EMPTY_DB, cs).tokens && b in Run(EMPTY_DB, cs).tokens
    ensures var ts := Run(EMPTY_DB, cs).tokens;
            && (ts[a].parentId.Some? && ts[a].parentId == ts[b].parentId ==> a == b)
            && (ts[a].familyId == ts[b].familyId && ts[a].usedAt.None? && ts[b].usedAt.None? ==> a == b)
  {
    RunKeepsGood(EMPTY_DB, cs);
    var ts := Run(EMPTY_DB, cs).tokens;
    assert HasChain(ts, ts[a].familyId);
    var c :| IsChain(ts, ts[a].familyId, c);
    if ts[a].familyId == ts[b].familyId {
      var i, j :| 0 <= i < |c| && 0 <= j < |c| && c[i] == a && c[j] == b;
      if ts[a].parentId.Some? && ts[a].parentId == ts[b].parentId {
        assert i > 0 && j > 0 && c[i - 1] == c[j - 1];
        assert i - 1 == j - 1;
      }
    }
  }

  // ---------------------------------------------------------------------------
  // What no continuation undoes
  // ---------------------------------------------------------------------------

  lemma {:induction false} RunEvolves(db: Db, cs: seq<CutCall>)
    ensures Evolves(db, Run(db, cs))
    decreases |cs|
  {
    if cs != [] {
      WritesEvolve(db, Prefix(Plan(db, cs[0].call), cs[0].writes));
      RunEvolves(Perform(db, cs[0]), cs[1..]);
      EvolvesTransitive(db, Perform(db, cs[0]), Run(db, cs));
    }
  }

  ghost function Family(ts: Tokens, f: Uuid): set<Uuid> {
    set id | id in ts && ts[id].familyId == f
  }

  /** Every token ever issued in family `f` is revoked. */
  ghost predicate FamilyDead(ts: Tokens, f: Uuid) {
    && f in ts
    && forall id :: id in Family(ts, f) ==> ts[id].revokedAt.Some?
  }

  lemma {:induction false} WritesKeepFamily(db: Db, ws: seq<Write>, f: Uuid)
    requires f in db.tokens
    requires forall w :: w in ws && w.CreateToken? ==> w.row.familyId != f || w.id == f
    ensures Family(ApplyAll(db, ws).tokens, f) == Family(db.tokens, f)
    decreases |ws|
  {
    if ws != [] {
      var db1 := Apply(db, ws[0]);
      WriteEvolves(db, ws[0]);
      forall id | id in db1.tokens
        ensures id in Family(db1.tokens, f) <==> id in Family(db.tokens, f)
      {
      }
      assert Family(db1.tokens, f) == Family(db.tokens, f);
      WritesKeepFamily(db1, ws[1..], f);
    }
  }

  lemma DeadFamilyGetsNoMember(db: Db, c: CutCall, f: Uuid)
    requires Sound(db) && FamilyDead(db.tokens, f)
    ensures FamilyDead(Perform(db, c).tokens, f)
    ensures Family(Perform(db, c).tokens, f) == Family(db.tokens, f)
  {
    var ws := Prefix(Plan(db, c.call), c.writes);
    forall w | w in ws && w.CreateToken?
      ensures w.row.familyId != f || w.id == f
    {
      if c.call.Refresh? {
        var id := FindByHash(db.tokens, c.call.hash).value;
        assert id !in Family(db.tokens, f);
      }
    }
    WritesKeepFamily(db, ws, f);
    WritesEvolve(db, ws);
  }

  lemma {:induction false} DeadFamilyStaysDead(db: Db, cs: seq<CutCall>, f: Uuid)
    requires Good(db) && FamilyDead(db.tokens, f)
    ensures FamilyDead(Run(db, cs).tokens, f)
    ensures Family(Run(db, cs).tokens, f) == Family(db.tokens, f)
    decreases |cs|
  {
    if cs != [] {
      DeadFamilyGetsNoMember(db, cs[0], f);
      PerformKeepsGood(db, cs[0]);
      DeadFamilyStaysDead(Perform(db, cs[0]), cs[1..], f);
    }
  }

  lemma RevokedTokenIsRefused(db: Db, id: Uuid, now: Time, issued: NewToken)
    requires Sound(db) && id in db.tokens && db.tokens[id].revokedAt.Some?
    ensures RefreshPlan(db, db.tokens[id].hash, now, issued) == (Invalid, [])
  {
  }

  lemma ReplayPlan(db: Db, id: Uuid, now: Time, issued: NewToken)
    requires Sound(db) && id in db.tokens && db.tokens[id].usedAt.Some? && db.tokens[id].revokedAt.None?
    ensures var t := db.tokens[id];
            RefreshPlan(db, t.hash, now, issued)
            == (ReuseDetected, [RevokeFamily(t.familyId, OnReuse, now),
                EndSession(t.sessionId, TokenReuseDetected, now)])
  {
    assert FindByHash(db.tokens, db.tokens[id].hash) == Some(id);
  }

  lemma RevokeFamilyKills(db: Db, f: Uuid, now: Time)
    requires f in db.tokens
    ensures var db1 := Apply(db, RevokeFamily(f, OnReuse, now));
            FamilyDead(db1.tokens, f) && Family(db1.tokens, f) == Family(db.tokens, f)
  {
    WritesKeepFamily(db, [RevokeFamily(f, OnReuse, now)], f);
    ApplyPrefix(db, [RevokeFamily(f, OnReuse, now)], 1);
  }

  lemma RevokeThenEnd(db: Db, f: Uuid, sid: Uuid, now: Time)
    requires f in db.tokens && sid in db.sessions
    ensures var db1 := ApplyAll(db, [RevokeFamily(f, OnReuse, now), EndSession(sid, TokenReuseDetected, now)]);
            && Family(db1.tokens, f) == Family(db.tokens, f)
            && FamilyDead(db1.tokens, f)
            && sid in db1.sessions && db1.sessions[sid].endedAt.Some?
  {
    var ws := [RevokeFamily(f, OnReuse, now), EndSession(sid, TokenReuseDetected, now)];
    ApplyPrefix(db, ws, 2);
    RevokeFamilyKills(db, f, now);
    assert Apply(Apply(db, ws[0]), ws[1]).tokens == Apply(db, ws[0]).tokens;
  }

  lemma ReplayRevokesAndEnds(db: Db, replay: Call, id: Uuid)
    requires replay.Refresh? && Sound(db)
    requires id in db.tokens && db.tokens[id].hash == replay.hash
    requires db.tokens[id].usedAt.Some? && db.tokens[id].revokedAt.None?
    ensures var t := db.tokens[id];
            var db1 := Complete(db, replay);
            && RefreshPlan(db, replay.hash, replay.now, replay.issued).0 == ReuseDetected
            && Family(db1.tokens, t.familyId) == Family(db.tokens, t.familyId)
            && FamilyDead(db1.tokens, t.familyId)
            && t.sessionId in db1.sessions && db1.sessions[t.sessionId].endedAt.Some?
  {
    var t := db.tokens[id];
    ReplayPlan(db, id, replay.now, replay.issued);
    RevokeThenEnd(db, t.familyId, t.sessionId, replay.now);
  }

  /**
   Replaying a used, unrevoked token revokes its whole family and ends its session. In every continuation
   the family gains no member, its session stays ended and each of its tokens is refused without a write.
   */
  lemma ReplayKillsFamilyForGood(before: seq<CutCall>, replay: Call, after: seq<CutCall>, id: Uuid, now: Time,
                                 issued: NewToken)
    requires replay.Refresh?
    requires var db := Run(EMPTY_DB, before);
             id in db.tokens && db.tokens[id].hash == replay.hash
             && db.tokens[id].usedAt.Some? && db.tokens[id].revokedAt.None?
    ensures var db := Run(EMPTY_DB, before);
            var f := db.tokens[id].familyId;
            var sid := db.tokens[id].sessionId;
            var db1 := Complete(db, replay);
            var db2 := Run(db1, after);
            && RefreshPlan(db, replay.hash, replay.now, replay.issued).0 == ReuseDetected
            && Family(db1.tokens, f) == Family(db.tokens, f)
            && FamilyDead(db1.tokens, f)
            && sid in db1.sessions && db1.sessions[sid].endedAt.Some?
            && sid in db2.sessions && db2.sessions[sid].endedAt.Some?
            && Family(db2.tokens, f) == Family(db.tokens, f)
            && (forall m :: m in Family(db2.tokens, f) ==>
                  RefreshPlan(db2, db2.tokens[m].hash, now, issued) == (Invalid, []))
  {
    var db := Run(EMPTY_DB, before);
    var f := db.tokens[id].familyId;
    RunKeepsGood(EMPTY_DB, before);
    ReplayRevokesAndEnds(db, replay, id);
    var db1 := Complete(db, replay);
    ReplayPlan(db, id, replay.now, replay.issued);
    MarksAndRootsKeepGood(db, Plan(db, replay));
    DeadFamilyStaysDead(db1, after, f);
    RunEvolves(db1, after);
    RunKeepsGood(db1, after);
    var db2 := Run(db1, after);
    forall m | m in Family(db2.tokens, f)
      ensures RefreshPlan(db2, db2.tokens[m].hash, now, issued) == (Invalid, [])
    {
      RevokedTokenIsRefused(db2, m, now, issued);
    }
  }

  // ---------------------------------------------------------------------------
  // Logout everywhere and password reset
  // ---------------------------------------------------------------------------

  /** The complete calls that purge a user: a logout everywhere, or a reset that commits for that user. */
  ghost predicate Purges(db: Db, call: Call, userId: Uuid) {
    || (call.LogoutAll? && call.userId == userId)
    || (call.ResetPassword? && ResetPlan(db, call.resetHash, call.password, call.now) != []
        && db.resets[call.resetHash].userId == userId)
  }

  /** Every token of the user is revoked and every session ended. */
  ghost predicate Purged(db: Db, userId: Uuid) {
    && (forall id :: id in db.tokens && db.tokens[id].userId == userId ==> db.tokens[id].revokedAt.Some?)
    && (forall sid :: sid in db.sessions && db.sessions[sid].userId == userId ==> db.sessions[sid].endedAt.Some?)
  }

  lemma PurgeRevokesAndEnds(db: Db, call: Call, userId: Uuid)
    requires Purges(db, call, userId)
    ensures var db1 := Complete(db, call);
            db1.tokens.Keys == db.tokens.Keys && db1.sessions.Keys == db.sessions.Keys && Purged(db1, userId)
  {
    var ws := Plan(db, call);
    if call.LogoutAll? {
      assert ApplyAll(db, ws) == ApplyAll(Apply(db, ws[0]), ws[1..]) == Apply(Apply(db, ws[0]), ws[1]);
    } else {
      assert ApplyAll(db, ws) == Apply(db, ws[0]);
    }
  }

  lemma EndedSessionNeverRotates(db: Db, id: Uuid, now: Time, issued: NewToken)
    requires Sound(db) && id in db.tokens && db.sessions[db.tokens[id].sessionId].endedAt.Some?
    ensures !RefreshPlan(db, db.tokens[id].hash, now, issued).0.Rotated?
  {
    assert FindByHash(db.tokens, db.tokens[id].hash) == Some(id);
  }

  lemma PurgedTokenIsRefused(db1: Db, db2: Db, userId: Uuid, id: Uuid, now: Time, issued: NewToken)
    requires Purged(db1, userId) && Evolves(db1, db2) && Sound(db2)
    requires id in db1.tokens && db1.tokens[id].userId == userId
    ensures id in db2.tokens && RefreshPlan(db2, db1.tokens[id].hash, now, issued) == (Invalid, [])
  {
    RevokedTokenIsRefused(db2, id, now, issued);
  }

  lemma PurgedSessionNeverRotates(db1: Db, db2: Db, userId: Uuid, id: Uuid, now: Time, issued: NewToken)
    requires Purged(db1, userId) && Evolves(db1, db2) && Sound(db2)
    requires id in db2.tokens && db2.tokens[id].sessionId in db1.sessions
    requires db1.sessions[db2.tokens[id].sessionId].userId == userId
    ensures !RefreshPlan(db2, db2.tokens[id].hash, now, issued).0.Rotated?
  {
    EndedSessionNeverRotates(db2, id, now, issued);
  }

  lemma PurgeEvolves(before: seq<CutCall>, purge: Call, userId: Uuid, after: seq<CutCall>)
    requires Purges(Run(EMPTY_DB, before), purge, userId)
    ensures var db1 := Complete(Run(EMPTY_DB, before), purge);
            Purged(db1, userId) && Sound(Run(db1, after)) && Evolves(db1, Run(db1, after))
  {
    var db := Run(EMPTY_DB, before);
    var db1 := Complete(db, purge);
    assert Purged(db1, userId) by { PurgeRevokesAndEnds(db, purge, userId); }
    assert Good(db1) by {
      RunKeepsGood(EMPTY_DB, before);
      MarksAndRootsKeepGood(db, Plan(db, purge));
    }
    RunKeepsGood(db1, after);
    RunEvolves(db1, after);
  }

  /**
   After a purge completes, in every continuation: every token the user held is refused without a write, every
   session the user had stays ended, and no token on such a session - held before or inserted later - rotates.
   */
  lemma PurgeIsForGood(before: seq<CutCall>, purge: Call, userId: Uuid, after: seq<CutCall>, now: Time,
                       issued: NewToken)
    requires Purges(Run(EMPTY_DB, before), purge, userId)
    ensures var db1 := Complete(Run(EMPTY_DB, before), purge);
            var db2 := Run(db1, after);
            && (forall id :: id in db1.tokens && db1.tokens[id].userId == userId ==>
                  id in db2.tokens && RefreshPlan(db2, db1.tokens[id].hash, now, issued) == (Invalid, []))
            && (forall sid :: sid in db1.sessions && db1.sessions[sid].userId == userId ==>
                  sid in db2.sessions && db2.sessions[sid].endedAt.Some?)
            && (forall id :: id in db2.tokens && db2.tokens[id].sessionId in db1.sessions
                             && db1.sessions[db2.tokens[id].sessionId].userId == userId ==>
                  !RefreshPlan(db2, db2.tokens[id].hash, now, issued).0.Rotated?)
  {
    PurgeEvolves(before, purge, userId, after);
    var db1 := Complete(Run(EMPTY_DB, before), purge);
    var db2 := Run(db1, after);
    forall id | id in db1.tokens && db1.tokens[id].userId == userId
      ensures id in db2.tokens && RefreshPlan(db2, db1.tokens[id].hash, now, issued) == (Invalid, [])
    {
      PurgedTokenIsRefused(db1, db2, userId, id, now, issued);
    }
    forall id | id in db2.tokens && db2.tokens[id].sessionId in db1.sessions
                && db1.sessions[db2.tokens[id].sessionId].userId == userId
      ensures !RefreshPlan(db2, db2.tokens[id].hash, now, issued).0.Rotated?
    {
      PurgedSessionNeverRotates(db1, db2, userId, id, now, issued);
    }
  }

  lemma LogoutEffect(db: Db, sid: Uuid, presented: Option<Digest>, at: Time)
    requires Sound(db) && sid in db.sessions
    ensures var db1 := Complete(db, LogoutCurrent(sid, presented, at));
            && sid in db1.sessions && db1.sessions[sid].endedAt.Some?
            && (forall id :: id in db.tokens && presented == Some(db.tokens[id].hash) ==>
                id in db1.tokens && db1.tokens[id].revokedAt.Some?)
  {
    ApplyPrefix(db, Plan(db, LogoutCurrent(sid, presented, at)), 2);
    if id :| id in db.tokens && presented == Some(db.tokens[id].hash) {
      assert FindByHash(db.tokens, presented.value) == Some(id);
    }
  }

  lemma LogoutEvolves(before: seq<CutCall>, sid: Uuid, presented: Option<Digest>, at: Time, after: seq<CutCall>)
    ensures var db := Run(EMPTY_DB, before);
            var db1 := Complete(db, LogoutCurrent(sid, presented, at));
            Sound(db) && Sound(Run(db1, after)) && Evolves(db, db1) && Evolves(db1, Run(db1, after))
  {
    var db := Run(EMPTY_DB, before);
    var db1 := Complete(db, LogoutCurrent(sid, presented, at));
    assert Good(db) by { RunKeepsGood(EMPTY_DB, before); }
    MarksAndRootsKeepGood(db, Plan(db, LogoutCurrent(sid, presented, at)));
    WritesEvolve(db, Plan(db, LogoutCurrent(sid, presented, at)));
    RunKeepsGood(db1, after);
    RunEvolves(db1, after);
  }

  /**
   After a complete logout, in every continuation, the presented token is refused and no token of the session rotates.
   */
  lemma LogoutIsForGood(before: seq<CutCall>, sid: Uuid, presented: Option<Digest>, at: Time, after: seq<CutCall>,
                        now: Time, issued: NewToken)
    requires sid in Run(EMPTY_DB, before).sessions
    ensures var db := Run(EMPTY_DB, before);
            var db2 := Run(Complete(db, LogoutCurrent(sid, presented, at)), after);
            && (forall id :: id in db2.tokens && db2.tokens[id].sessionId == sid ==>
                  !RefreshPlan(db2, db2.tokens[id].hash, now, issued).0.Rotated?)
            && (forall id :: id in db.tokens && presented == Some(db.tokens[id].hash) ==>
                  id in db2.tokens && RefreshPlan(db2, db.tokens[id].hash, now, issued) == (Invalid, []))
  {
    var db := Run(EMPTY_DB, before);
    var db1 := Complete(db, LogoutCurrent(sid, presented, at));
    var db2 := Run(db1, after);
    LogoutEvolves(before, sid, presented, at, after);
    LogoutEffect(db, sid, presented, at);
    forall id | id in db2.tokens && db2.tokens[id].sessionId == sid
      ensures !RefreshPlan(db2, db2.tokens[id].hash, now, issued).0.Rotated?
    {
      EndedSessionNeverRotates(db2, id, now, issued);
    }
    forall id | id in db.tokens && presented == Some(db.tokens[id].hash)
      ensures id in db2.tokens && RefreshPlan(db2, db.tokens[id].hash, now, issued) == (Invalid, [])
    {
      RevokedTokenIsRefused(db2, id, now, issued);
    }
  }

  /**
   The purge is needed on both tables: a pending second factor still inserts an unrevoked token on the ended session.
   */
  lemma PendingSecondFactorOutlivesPurge()
    ensures exists before: seq<CutCall>, after: seq<CutCall>, id: Uuid ::
              var db1 := Complete(Run(EMPTY_DB, before), LogoutAll(1, 20));
              var db2 := Run(db1, after);
              && id in db2.tokens && id !in db1.tokens
              && db2.tokens[id].userId == 1
              && db2.tokens[id].revokedAt.None? && db2.tokens[id].usedAt.None?
              && db2.tokens[id].sessionId in db1.sessions
  {
    var issued := NewToken(7, 70, 1000);
    var login := CutCall(Login(1, 2, 3, true, 10, issued), 9);
    var verify := CutCall(VerifyTwoFactor(1, 3, 30, issued), 9);
    var db0 := Apply(EMPTY_DB, CreateSession(3, 1, 2, 10));
    assert Plan(EMPTY_DB, login.call) == [CreateSession(3, 1, 2, 10)];
    assert Perform(EMPTY_DB, login) == ApplyAll(db0, []);
    assert Run(EMPTY_DB, [login]) == Run(Perform(EMPTY_DB, login), []);
    PurgeRevokesAndEnds(db0, LogoutAll(1, 20), 1);
    var db1 := Complete(db0, LogoutAll(1, 20));
    assert Plan(db1, verify.call) == [CreateToken(7, RootRow(1, 3, issued))];
    var db2 := Apply(db1, CreateToken(7, RootRow(1, 3, issued)));
    assert Perform(db1, verify) == ApplyAll(db2, []);
    assert Run(db1, [verify]) == Run(Perform(db1, verify), []) == db2;
    assert 7 in db2.tokens && 7 !in db1.tokens;
  }

  // ---------------------------------------------------------------------------
  // Password-reset rows
  // ---------------------------------------------------------------------------

  ghost predicate Acceptable(db: Db, h: Digest, now: Time) {
    h in db.resets && db.resets[h].usedAt.None? && now < db.resets[h].expiresAt
  }

  /** At `now`, a user has at most one reset row that `resetPassword` would accept. */
  ghost predicate OneAcceptable(db: Db, now: Time) {
    forall a, b | Acceptable(db, a, now) && Acceptable(db, b, now) ::
      db.resets[a].userId == db.resets[b].userId ==> a == b
  }

  function CallEnd(call: Call): Time {
    if call.RequestReset? then call.createdAt else call.now
  }

  /** The calls read a clock that never goes back, starting at `clock`. */
  ghost predicate InOrder(clock: Time, cs: seq<CutCall>)
    decreases |cs|
  {
    cs == [] || (
      && clock <= cs[0].call.now <= CallEnd(cs[0].call)
      && InOrder(CallEnd(cs[0].call), cs[1..]))
  }

  function LastClock(clock: Time, cs: seq<CutCall>): Time
  {
    if cs == [] then clock else CallEnd(cs[|cs| - 1].call)
  }

  lemma {:induction false} OtherWritesKeepResets(db: Db, ws: seq<Write>)
    requires forall w :: w in ws ==> !w.IssueReset? && !w.ConsumeReset?
    ensures ApplyAll(db, ws).resets == db.resets
    decreases |ws|
  {
    if ws != [] {
      OtherWritesKeepResets(Apply(db, ws[0]), ws[1..]);
    }
  }

  lemma PerformKeepsOneAcceptable(db: Db, c: CutCall, clock: Time)
    requires OneAcceptable(db, clock) && clock <= c.call.now <= CallEnd(c.call)
    ensures OneAcceptable(Perform(db, c), CallEnd(c.call))
  {
    var ws := Prefix(Plan(db, c.call), c.writes);
    if c.call.RequestReset? {
      RequestKeepsOneAcceptable(db, c, clock);
    } else if c.call.ResetPassword? {
      if |ws| == 1 { assert ApplyAll(db, ws) == Apply(db, ws[0]); }
    } else {
      OtherWritesKeepResets(db, ws);
    }
  }

  lemma RequestKeepsOneAcceptable(db: Db, c: CutCall, clock: Time)
    requires c.call.RequestReset? && OneAcceptable(db, clock) && clock <= c.call.now <= c.call.createdAt
    ensures OneAcceptable(Perform(db, c), c.call.createdAt)
  {
    var ws := Prefix(Plan(db, c.call), c.writes);
    if |ws| == 1 { assert ApplyAll(db, ws) == Apply(db, ws[0]); }
  }

  /** With a clock that never goes back, at every moment at most one reset row per user is acceptable. */
  lemma {:induction false} AtMostOneResetAcceptable(db: Db, clock: Time, cs: seq<CutCall>, now: Time)
    requires OneAcceptable(db, clock) && InOrder(clock, cs) && LastClock(clock, cs) <= now
    ensures OneAcceptable(Run(db, cs), now)
    decreases |cs|
  {
    if cs != [] {
      PerformKeepsOneAcceptable(db, cs[0], clock);
      assert |cs| > 1 ==> cs[1..][|cs| - 2] == cs[|cs| - 1];
      AtMostOneResetAcceptable(Perform(db, cs[0]), CallEnd(cs[0].call), cs[1..], now);
    }
  }

  /** Call number `i` of the run changes the password with row `h`. */
  ghost predicate ChangesPassword(db: Db, cs: seq<CutCall>, i: nat, h: Digest)
    requires i < |cs|
  {
    && cs[i].call.ResetPassword?
    && cs[i].call.resetHash == h
    && cs[i].writes > 0
    && Plan(Run(db, cs[..i]), cs[i].call) != []
  }

  /** Over any run, a reset row changes the password at most once. */
  lemma ResetRowWorksOnce(db: Db, cs: seq<CutCall>, i: nat, j: nat, h: Digest)
    requires i < j < |cs| && ChangesPassword(db, cs, i, h)
    ensures !ChangesPassword(db, cs, j, h)
  {
    var dbi := Run(db, cs[..i]);
    var dbi1 := Perform(dbi, cs[i]);
    var ws := Prefix(Plan(dbi, cs[i].call), cs[i].writes);
    assert ApplyAll(dbi, ws) == Apply(dbi, ws[0]);
    assert dbi1.resets[h].usedAt.Some?;
    assert cs[..j] == cs[..i] + ([cs[i]] + cs[i + 1..j]);
    RunAppend(db, cs[..i], [cs[i]] + cs[i + 1..j]);
    assert ([cs[i]] + cs[i + 1..j])[1..] == cs[i + 1..j];
    RunEvolves(dbi1, cs[i + 1..j]);
  }
}
