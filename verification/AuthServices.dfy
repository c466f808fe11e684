/**
 The repositories and services in the form the program has them: a store whose
 rows are updated in place, one write per awaited statement, and services that
 issue those writes in order. `log` records the writes, so each service is
 proved to perform exactly the writes of its plan, in the plan's order - which
 is what a call that dies part-way leaves behind.
 */
module AuthServices {
  import opened Prelude
  import opened AuthTables
  import opened AuthCalls

  class AuthStore {
    var tokens: Tokens
    var sessions: Sessions
    var resets: Resets
    var passwords: map<Uuid, Digest>
    ghost var log: seq<Write>

    ghost function Tables(): Db
      reads this
    {
      Db(tokens, sessions, resets, passwords)
    }

    constructor ()
      ensures Tables() == EMPTY_DB && log == []
    {
      tokens, sessions, resets, passwords, log := map[], map[], map[], map[], [];
    }

    // --- refresh tokens ---

    method FindByHash(hash: Digest) returns (r: Option<Uuid>)
      requires UniqueHashes(tokens)
      ensures r == AuthTables.FindByHash(tokens, hash)
    {
      if id :| id in tokens && tokens[id].hash == hash {
        r := Some(id);
      } else {
        r := None;
      }
    }

    method CreateToken(id: Uuid, row: Token) returns (ok: bool)
      modifies this
      ensures ok == CanCreate(old(Tables()), id, row.hash, row.sessionId)
      ensures Tables() == Apply(old(Tables()), Write.CreateToken(id, row))
      ensures log == if ok then old(log) + [Write.CreateToken(id, row)] else old(log)
    {
      ok := id !in tokens && row.sessionId in sessions
            && forall other | other in tokens :: tokens[other].hash != row.hash;
      if ok {
        tokens := tokens[id := row];
        log := log + [Write.CreateToken(id, row)];
      }
    }

    method MarkUsed(id: Uuid, now: Time)
      requires id in tokens
      modifies this
      ensures Tables() == Apply(old(Tables()), Write.MarkUsed(id, now))
      ensures log == old(log) + [Write.MarkUsed(id, now)]
    {
      tokens := tokens[id := tokens[id].(usedAt := Some(now))];
      log := log + [Write.MarkUsed(id, now)];
    }

    method Revoke(id: Uuid, reason: RevokeReason, now: Time)
      requires id in tokens
      modifies this
      ensures Tables() == Apply(old(Tables()), RevokeOne(id, reason, now))
      ensures log == old(log) + [RevokeOne(id, reason, now)]
    {
      tokens := tokens[id := tokens[id].(revokedAt := Some(now), revokedReason := Some(reason))];
      log := log + [RevokeOne(id, reason, now)];
    }

    method RevokeFamily(familyId: Uuid, reason: RevokeReason, now: Time)
      modifies this
      ensures Tables() == Apply(old(Tables()), Write.RevokeFamily(familyId, reason, now))
      ensures log == old(log) + [Write.RevokeFamily(familyId, reason, now)]
    {
      tokens := map id | id in tokens ::
        if tokens[id].familyId == familyId && tokens[id].revokedAt.None?
        then tokens[id].(revokedAt := Some(now), revokedReason := Some(reason)) else tokens[id];
      log := log + [Write.RevokeFamily(familyId, reason, now)];
    }

    method RevokeAllForUser(userId: Uuid, reason: RevokeReason, now: Time)
      modifies this
      ensures Tables() == Apply(old(Tables()), Write.RevokeAllForUser(userId, reason, now))
      ensures log == old(log) + [Write.RevokeAllForUser(userId, reason, now)]
    {
      tokens := map id | id in tokens ::
        if tokens[id].userId == userId && tokens[id].revokedAt.None?
        then tokens[id].(revokedAt := Some(now), revokedReason := Some(reason)) else tokens[id];
      log := log + [Write.RevokeAllForUser(userId, reason, now)];
    }

    // --- sessions ---

    method CreateSession(sid: Uuid, userId: Uuid, tenantId: Uuid, now: Time) returns (ok: bool)
      modifies this
      ensures ok == (sid !in old(sessions))
      ensures Tables() == Apply(old(Tables()), Write.CreateSession(sid, userId, tenantId, now))
      ensures log == if ok then old(log) + [Write.CreateSession(sid, userId, tenantId, now)] else old(log)
    {
      ok := sid !in sessions;
      if ok {
        sessions := sessions[sid := Session(userId, tenantId, now, None, None)];
        log := log + [Write.CreateSession(sid, userId, tenantId, now)];
      }
    }

    method Touch(sid: Uuid, now: Time)
      requires sid in sessions
      modifies this
      ensures Tables() == Apply(old(Tables()), TouchSession(sid, now))
      ensures log == old(log) + [TouchSession(sid, now)]
    {
      sessions := sessions[sid := sessions[sid].(lastActiveAt := now)];
      log := log + [TouchSession(sid, now)];
    }

    method End(sid: Uuid, reason: EndReason, now: Time)
      requires sid in sessions
      modifies this
      ensures Tables() == Apply(old(Tables()), EndSession(sid, reason, now))
      ensures log == old(log) + [EndSession(sid, reason, now)]
    {
      sessions := sessions[sid := sessions[sid].(endedAt := Some(now), endReason := Some(reason))];
      log := log + [EndSession(sid, reason, now)];
    }

    method EndAllForUser(userId: Uuid, reason: EndReason, now: Time)
      modifies this
      ensures Tables() == Apply(old(Tables()), Write.EndAllForUser(userId, reason, now))
      ensures log == old(log) + [Write.EndAllForUser(userId, reason, now)]
    {
      sessions := map sid | sid in sessions ::
        if sessions[sid].userId == userId && sessions[sid].endedAt.None?
        then sessions[sid].(endedAt := Some(now), endReason := Some(reason)) else sessions[sid];
      log := log + [Write.EndAllForUser(userId, reason, now)];
    }

    // --- the two password-reset transactions ---

    method IssueReset(userId: Uuid, hash: Digest, expireNow: Time, expiresAt: Time) returns (ok: bool)
      modifies this
      ensures ok == (hash !in old(resets))
      ensures Tables() == Apply(old(Tables()), Write.IssueReset(userId, hash, expireNow, expiresAt))
      ensures log == if ok then old(log) + [Write.IssueReset(userId, hash, expireNow, expiresAt)] else old(log)
    {
      ok := hash !in resets;
      if ok {
        resets := map h | h in resets ::
          if resets[h].userId == userId && resets[h].usedAt.None?
          then resets[h].(expiresAt := expireNow) else resets[h];
        resets := resets[hash := Reset(userId, expiresAt, None)];
        log := log + [Write.IssueReset(userId, hash, expireNow, expiresAt)];
      }
    }

    method ConsumeReset(hash: Digest, password: Digest, now: Time)
      requires hash in resets
      modifies this
      ensures Tables() == Apply(old(Tables()), Write.ConsumeReset(hash, password, now))
      ensures log == old(log) + [Write.ConsumeReset(hash, password, now)]
    {
      var u := resets[hash].userId;
      resets := resets[hash := resets[hash].(usedAt := Some(now))];
      passwords := passwords[u := password];
      sessions := map sid | sid in sessions ::
        if sessions[sid].userId == u && sessions[sid].endedAt.None?
        then sessions[sid].(endedAt := Some(now), endReason := Some(PasswordChanged)) else sessions[sid];
      tokens := map id | id in tokens ::
        if tokens[id].userId == u && tokens[id].revokedAt.None?
        then tokens[id].(revokedAt := Some(now), revokedReason := Some(OnPasswordReset)) else tokens[id];
      log := log + [Write.ConsumeReset(hash, password, now)];
    }
  }

  /** `call` ran to its end on `store`: its plan's writes, in the plan's order, and nothing else. */
  twostate predicate Performed(store: AuthStore, call: Call)
    reads store
  {
    && store.log == old(store.log) + Plan(old(store.Tables()), call)
    && store.Tables() == Complete(old(store.Tables()), call)
  }

  class RefreshService {
    const store: AuthStore

    constructor (store: AuthStore)
      ensures this.store == store
    {
      this.store := store;
    }

    method Execute(hash: Digest, now: Time, issued: NewToken) returns (outcome: RefreshOutcome)
      requires Sound(store.Tables())
      modifies store
      ensures Performed(store, Refresh(hash, now, issued))
      ensures outcome == RefreshPlan(old(store.Tables()), hash, now, issued).0
      ensures RefreshedAsPromised(old(store.Tables()), hash, now, issued, outcome, store.Tables())
      ensures RefusedSilently(old(store.tokens), hash, now) ==> store.log == old(store.log)
    {
      ghost var db := store.Tables();
      ghost var ws := Plan(db, Refresh(hash, now, issued));
      ApplyPrefix(db, ws, 3);
      RefreshEffect(db, hash, now, issued);
      var existing := store.FindByHash(hash);
      if existing.None? {
        return Invalid;
      }
      var id := existing.value;
      var row := store.tokens[id];
      if row.revokedAt.Some? {
        return Invalid;
      }
      if row.usedAt.Some? {
        store.RevokeFamily(row.familyId, OnReuse, now);
        store.End(row.sessionId, TokenReuseDetected, now);
        return ReuseDetected;
      }
      if row.expiresAt <= now {
        return Invalid;
      }
      outcome := Rotate(id, row, now, issued);
    }

    /** The rest of `Execute`, once the row has passed its checks: it is burned before the session is looked at. */
    method Rotate(id: Uuid, row: Token, now: Time, issued: NewToken) returns (outcome: RefreshOutcome)
      requires id in store.tokens && store.tokens[id] == row
      modifies store
      ensures outcome == BurnPlan(old(store.Tables()), id, row, now, issued).0
      ensures store.log == old(store.log) + BurnPlan(old(store.Tables()), id, row, now, issued).1
      ensures store.Tables() == ApplyAll(old(store.Tables()), BurnPlan(old(store.Tables()), id, row, now, issued).1)
    {
      ghost var db := store.Tables();
      ghost var ws := BurnPlan(db, id, row, now, issued).1;
      ApplyPrefix(db, ws, 3);
      store.MarkUsed(id, now);
      MarkKeepsCreatable(db, id, now, issued.id, issued.hash, row.sessionId);
      if row.sessionId !in store.sessions || store.sessions[row.sessionId].endedAt.Some? {
        return Invalid;
      }
      var child := Token(issued.hash, row.userId, row.sessionId, row.familyId, Some(id), issued.expiresAt,
                         None, None, None);
      var ok := store.CreateToken(issued.id, child);
      if !ok {
        return InsertFailed;
      }
      store.Touch(row.sessionId, now);
      assert store.log == old(store.log) + [ws[0]] + [ws[1]] + [ws[2]] == old(store.log) + ws;
      return Rotated(issued.id);
    }
  }

  class LoginService {
    const store: AuthStore

    constructor (store: AuthStore)
      ensures this.store == store
    {
      this.store := store;
    }

    /** The part of a login after the password was accepted; an accepted invite issues the same writes. */
    method OpenSession(userId: Uuid, tenantId: Uuid, sid: Uuid, twoFactor: bool, now: Time, issued: NewToken)
      returns (ok: bool)
      modifies store
      ensures Performed(store, Login(userId, tenantId, sid, twoFactor, now, issued))
      ensures ok <==> sid !in old(store.sessions) && (twoFactor || !Taken(old(store.tokens), issued))
      ensures !ok || twoFactor ==> store.tokens == old(store.tokens)
      ensures ok && !twoFactor ==>
                store.tokens == old(store.tokens)[issued.id :=
                  Token(issued.hash, userId, sid, issued.id, None, issued.expiresAt, None, None, None)]
      ensures store.sessions ==
                if sid in old(store.sessions) then old(store.sessions)
                else old(store.sessions)[sid := Session(userId, tenantId, now, None, None)]
      ensures store.resets == old(store.resets) && store.passwords == old(store.passwords)
    {
      ghost var db := store.Tables();
      LoginEffect(db, userId, tenantId, sid, twoFactor, now, issued);
      ApplyPrefix(db, Plan(db, Login(userId, tenantId, sid, twoFactor, now, issued)), 3);
      ok := store.CreateSession(sid, userId, tenantId, now);
      if !ok || twoFactor {
        return;
      }
      var root := Token(issued.hash, userId, sid, issued.id, None, issued.expiresAt, None, None, None);
      ok := store.CreateToken(issued.id, root);
    }
  }

  class LogoutService {
    const store: AuthStore

    constructor (store: AuthStore)
      ensures this.store == store
    {
      this.store := store;
    }

    method LogoutCurrent(sid: Uuid, presented: Option<Digest>, now: Time)
      requires Sound(store.Tables())
      modifies store
      ensures Performed(store, Call.LogoutCurrent(sid, presented, now))
      ensures OnlyRevoked(old(store.tokens), store.tokens,
                          (set id | id in old(store.tokens) && presented == Some(old(store.tokens)[id].hash)),
                          OnLogout, now)
      ensures store.sessions ==
                if sid in old(store.sessions)
                then old(store.sessions)[sid :=
                       old(store.sessions)[sid].(endedAt := Some(now), endReason := Some(Logout))]
                else old(store.sessions)
      ensures store.resets == old(store.resets) && store.passwords == old(store.passwords)
    {
      ghost var db := store.Tables();
      LogoutCurrentEffect(db, sid, presented, now);
      ApplyPrefix(db, Plan(db, Call.LogoutCurrent(sid, presented, now)), 3);
      if presented.Some? {
        var existing := store.FindByHash(presented.value);
        if existing.Some? && store.tokens[existing.value].revokedAt.None? {
          store.Revoke(existing.value, OnLogout, now);
        }
      }
      if sid in store.sessions {
        store.End(sid, Logout, now);
      }
    }

    method LogoutAll(userId: Uuid, now: Time)
      modifies store
      ensures Performed(store, Call.LogoutAll(userId, now))
      ensures OnlyRevoked(old(store.tokens), store.tokens, TokensOf(old(store.tokens), userId), OnLogoutAll, now)
      ensures OnlyEnded(old(store.sessions), store.sessions, SessionsOf(old(store.sessions), userId), Logout, now)
      ensures store.resets == old(store.resets) && store.passwords == old(store.passwords)
    {
      ghost var db := store.Tables();
      LogoutAllEffect(db, userId, now);
      ApplyPrefix(db, Plan(db, Call.LogoutAll(userId, now)), 3);
      store.RevokeAllForUser(userId, OnLogoutAll, now);
      store.EndAllForUser(userId, Logout, now);
    }
  }

  class PasswordResetService {
    const store: AuthStore
    const ttlSeconds: nat

    constructor (store: AuthStore, ttlSeconds: nat)
      ensures this.store == store && this.ttlSeconds == ttlSeconds
    {
      this.store, this.ttlSeconds := store, ttlSeconds;
    }

    method RequestReset(userId: Uuid, hash: Digest, now: Time, createdAt: Time) returns (ok: bool)
      modifies store
      ensures Performed(store, Call.RequestReset(userId, hash, now, createdAt, ttlSeconds))
      ensures ok ==> Acceptable(store.Tables(), hash, createdAt) || ttlSeconds == 0
      ensures ok <==> hash !in old(store.resets)
      ensures ok ==>
                && store.resets.Keys == old(store.resets).Keys + {hash}
                && store.resets[hash] == Reset(userId, createdAt + 1000 * ttlSeconds, None)
                && forall h :: h in old(store.resets) ==>
                     store.resets[h] == var row := old(store.resets)[h];
                                        if row.userId == userId && row.usedAt.None? then row.(expiresAt := now) else row
      ensures !ok ==> store.resets == old(store.resets)
      ensures store.tokens == old(store.tokens) && store.sessions == old(store.sessions)
      ensures store.passwords == old(store.passwords)
    {
      ghost var db := store.Tables();
      RequestResetEffect(db, userId, hash, now, createdAt, ttlSeconds);
      ApplyPrefix(db, Plan(db, Call.RequestReset(userId, hash, now, createdAt, ttlSeconds)), 3);
      ok := store.IssueReset(userId, hash, now, createdAt + ttlSeconds * 1000);
    }

    method ResetPassword(hash: Digest, password: Digest, now: Time) returns (ok: bool)
      modifies store
      ensures Performed(store, Call.ResetPassword(hash, password, now))
      ensures ok == Redeemable(old(store.Tables()), hash, now)
      ensures ok ==> !Acceptable(store.Tables(), hash, now)
      ensures ok ==> store.passwords == old(store.passwords)[old(store.resets)[hash].userId := password]
      ensures ok ==> store.resets == old(store.resets)[hash := old(store.resets)[hash].(usedAt := Some(now))]
      ensures ok ==> OnlyRevoked(old(store.tokens), store.tokens,
                                 TokensOf(old(store.tokens), old(store.resets)[hash].userId), OnPasswordReset, now)
      ensures ok ==> OnlyEnded(old(store.sessions), store.sessions,
                               SessionsOf(old(store.sessions), old(store.resets)[hash].userId), PasswordChanged, now)
      ensures !ok ==> store.Tables() == old(store.Tables()) && store.log == old(store.log)
    {
      ghost var db := store.Tables();
      ResetPasswordEffect(db, hash, password, now);
      ApplyPrefix(db, Plan(db, Call.ResetPassword(hash, password, now)), 3);
      if hash !in store.resets {
        return false;
      }
      var record := store.resets[hash];
      if record.usedAt.Some? {
        return false;
      }
      if record.expiresAt <= now {
        return false;
      }
      store.ConsumeReset(hash, password, now);
      return true;
    }
  }
}
