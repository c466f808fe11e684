/**
 The tables behind the session and refresh-token protocol, and the primitive
 writes the services issue against them. One `Write` is one database commit.
 A write the database rejects (missing row, unique or foreign key violation)
 leaves the tables as they were.
 */
module AuthTables {
  import opened Prelude

  datatype EndReason = Logout | RevokedByAdmin | PasswordChanged | TokenReuseDetected
  datatype RevokeReason = OnReuse | OnLogout | OnLogoutAll | OnPasswordReset | OnDeactivation

  datatype Token = Token(
    hash: Digest,
    userId: Uuid,
    sessionId: Uuid,
    familyId: Uuid,
    parentId: Option<Uuid>,
    expiresAt: Time,
    usedAt: Option<Time>,
    revokedAt: Option<Time>,
    revokedReason: Option<RevokeReason>)

  datatype Session = Session(
    userId: Uuid,
    tenantId: Uuid,
    lastActiveAt: Time,
    endedAt: Option<Time>,
    endReason: Option<EndReason>)

  datatype Reset = Reset(userId: Uuid, expiresAt: Time, usedAt: Option<Time>)

  type Tokens = map<Uuid, Token>
  type Sessions = map<Uuid, Session>

  /** Reset rows are keyed by their unique `tokenHash`. */
  type Resets = map<Digest, Reset>

  datatype Db = Db(tokens: Tokens, sessions: Sessions, resets: Resets, passwords: map<Uuid, Digest>)

  const EMPTY_DB: Db := Db(map[], map[], map[], map[])

  datatype Write =
    | CreateSession(sid: Uuid, userId: Uuid, tenantId: Uuid, now: Time)
    | CreateToken(id: Uuid, row: Token)
    | MarkUsed(id: Uuid, now: Time)
    | RevokeOne(id: Uuid, reason: RevokeReason, now: Time)
    | RevokeFamily(familyId: Uuid, reason: RevokeReason, now: Time)
    | RevokeAllForUser(userId: Uuid, reason: RevokeReason, now: Time)
    | RevokeForSessions(sids: set<Uuid>, reason: RevokeReason, now: Time)
    | TouchSession(sid: Uuid, now: Time)
    | EndSession(sid: Uuid, endReason: EndReason, now: Time)
    | EndAllForUser(userId: Uuid, endReason: EndReason, now: Time)
    | EndTenantSessions(userId: Uuid, tenantId: Uuid, endReason: EndReason, now: Time)
    | IssueReset(userId: Uuid, hash: Digest, expireNow: Time, expiresAt: Time)
    | ConsumeReset(hash: Digest, password: Digest, now: Time)

  // ---------------------------------------------------------------------------
  // Row lookups and row updates
  // ---------------------------------------------------------------------------

  ghost predicate UniqueHashes(ts: Tokens) {
    forall a, b :: a in ts && b in ts && ts[a].hash == ts[b].hash ==> a == b
  }

  ghost function FindByHash(ts: Tokens, hash: Digest): (r: Option<Uuid>)
    ensures r.Some? ==> r.value in ts && ts[r.value].hash == hash
    ensures r.None? ==> forall id :: id in ts ==> ts[id].hash != hash
  {
    if exists id :: id in ts && ts[id].hash == hash then
      var id :| id in ts && ts[id].hash == hash;
      Some(id)
    else
      None
  }

  ghost predicate CanCreate(db: Db, id: Uuid, hash: Digest, sid: Uuid) {
    && id !in db.tokens
    && sid in db.sessions
    && forall other :: other in db.tokens ==> db.tokens[other].hash != hash
  }

  function Revoked(t: Token, reason: RevokeReason, now: Time): Token {
    t.(revokedAt := Some(now), revokedReason := Some(reason))
  }

  function Ended(s: Session, reason: EndReason, now: Time): Session {
    s.(endedAt := Some(now), endReason := Some(reason))
  }

  function EndAll(ss: Sessions, userId: Uuid, reason: EndReason, now: Time): Sessions {
    map sid | sid in ss ::
      if ss[sid].userId == userId && ss[sid].endedAt.None? then Ended(ss[sid], reason, now) else ss[sid]
  }

  function RevokeAll(ts: Tokens, userId: Uuid, reason: RevokeReason, now: Time): Tokens {
    map id | id in ts ::
      if ts[id].userId == userId && ts[id].revokedAt.None? then Revoked(ts[id], reason, now) else ts[id]
  }

  function ExpireResets(rs: Resets, userId: Uuid, now: Time): Resets {
    map h | h in rs ::
      if rs[h].userId == userId && rs[h].usedAt.None? then rs[h].(expiresAt := now) else rs[h]
  }

  // ---------------------------------------------------------------------------
  // The effect of one write
  // ---------------------------------------------------------------------------

  ghost function Apply(db: Db, w: Write): Db {
    match w
    case CreateSession(sid, userId, tenantId, now) =>
      if sid in db.sessions then db
      else db.(sessions := db.sessions[sid := Session(userId, tenantId, now, None, None)])
    case CreateToken(id, row) =>
      if CanCreate(db, id, row.hash, row.sessionId) then db.(tokens := db.tokens[id := row]) else db
    case MarkUsed(id, now) =>
      if id in db.tokens then db.(tokens := db.tokens[id := db.tokens[id].(usedAt := Some(now))]) else db
    case RevokeOne(id, reason, now) =>
      if id in db.tokens then db.(tokens := db.tokens[id := Revoked(db.tokens[id], reason, now)]) else db
    case RevokeFamily(familyId, reason, now) =>
      var ts := db.tokens;
      db.(tokens := map id | id in ts ::
        if ts[id].familyId == familyId && ts[id].revokedAt.None? then Revoked(ts[id], reason, now) else ts[id])
    case RevokeAllForUser(userId, reason, now) =>
      db.(tokens := RevokeAll(db.tokens, userId, reason, now))
    case RevokeForSessions(sids, reason, now) =>
      var ts := db.tokens;
      db.(tokens := map id | id in ts ::
        if ts[id].sessionId in sids && ts[id].revokedAt.None? then Revoked(ts[id], reason, now) else ts[id])
    case TouchSession(sid, now) =>
      if sid in db.sessions then db.(sessions := db.sessions[sid := db.sessions[sid].(lastActiveAt := now)]) else db
    case EndSession(sid, reason, now) =>
      if sid in db.sessions then db.(sessions := db.sessions[sid := Ended(db.sessions[sid], reason, now)]) else db
    case EndAllForUser(userId, reason, now) =>
      db.(sessions := EndAll(db.sessions, userId, reason, now))
    case EndTenantSessions(userId, tenantId, reason, now) =>
      var ss := db.sessions;
      db.(sessions := map sid | sid in ss ::
        if ss[sid].userId == userId && ss[sid].tenantId == tenantId && ss[sid].endedAt.None?
        then Ended(ss[sid], reason, now) else ss[sid])
    case IssueReset(userId, hash, expireNow, expiresAt) =>
      if hash in db.resets then db
      else db.(resets := ExpireResets(db.resets, userId, expireNow)[hash := Reset(userId, expiresAt, None)])
    case ConsumeReset(hash, password, now) =>
      if hash in db.resets then
        var u := db.resets[hash].userId;
        Db(RevokeAll(db.tokens, u, OnPasswordReset, now),
           EndAll(db.sessions, u, PasswordChanged, now),
           db.resets[hash := db.resets[hash].(usedAt := Some(now))],
           db.passwords[u := password])
      else db
  }

  ghost function ApplyAll(db: Db, ws: seq<Write>): Db
    decreases |ws|
  {
    if ws == [] then db else ApplyAll(Apply(db, ws[0]), ws[1..])
  }

  // ---------------------------------------------------------------------------
  // What every write keeps
  // ---------------------------------------------------------------------------

  predicate SameIdentity(a: Token, b: Token) {
    && a.hash == b.hash
    && a.userId == b.userId
    && a.sessionId == b.sessionId
    && a.familyId == b.familyId
    && a.parentId == b.parentId
    && a.expiresAt == b.expiresAt
  }

  ghost predicate TokensEvolve(before: Tokens, after: Tokens) {
    forall id :: id in before ==>
      && id in after
      && SameIdentity(before[id], after[id])
      && (before[id].usedAt.Some? ==> after[id].usedAt.Some?)
      && (before[id].revokedAt.Some? ==> after[id].revokedAt.Some?)
  }

  ghost predicate SessionsEvolve(before: Sessions, after: Sessions) {
    forall sid :: sid in before ==>
      && sid in after
      && before[sid].userId == after[sid].userId
      && before[sid].tenantId == after[sid].tenantId
      && (before[sid].endedAt.Some? ==> after[sid].endedAt.Some?)
  }

  ghost predicate ResetsEvolve(before: Resets, after: Resets) {
    forall h :: h in before ==>
      && h in after
      && before[h].userId == after[h].userId
      && (before[h].usedAt.Some? ==> after[h].usedAt.Some?)
  }

  /** `after` may follow `before`: no row vanishes, no identity changes, no mark is taken back. */
  ghost predicate Evolves(before: Db, after: Db) {
    && TokensEvolve(before.tokens, after.tokens)
    && SessionsEvolve(before.sessions, after.sessions)
    && ResetsEvolve(before.resets, after.resets)
  }

  predicate IsRoot(id: Uuid, row: Token) {
    row.parentId.None? && row.familyId == id
  }

  predicate IsChildOf(ts: Tokens, row: Token) {
    && row.parentId.Some?
    && row.parentId.value in ts
    && var parent := ts[row.parentId.value];
       && row.familyId == parent.familyId
       && row.sessionId == parent.sessionId
       && row.userId == parent.userId
       && parent.usedAt.Some?
  }

  /** The only rows any service inserts: an untouched root, or an untouched child of a used token. */
  predicate Insertable(ts: Tokens, id: Uuid, row: Token) {
    && row.usedAt.None?
    && row.revokedAt.None?
    && (IsRoot(id, row) || IsChildOf(ts, row))
  }

  predicate WellFormed(db: Db, w: Write) {
    w.CreateToken? ==> Insertable(db.tokens, w.id, w.row)
  }

  /** Families are rooted at their id, live in one session, and every parent is used. */
  ghost predicate Sound(db: Db) {
    && UniqueHashes(db.tokens)
    && (forall id :: id in db.tokens ==>
          var t := db.tokens[id];
          && t.sessionId in db.sessions
          && t.familyId in db.tokens
          && db.tokens[t.familyId].familyId == t.familyId
          && db.tokens[t.familyId].sessionId == t.sessionId
          && (IsRoot(id, t) || IsChildOf(db.tokens, t)))
  }

  lemma WriteKeepsSound(db: Db, w: Write)
    requires Sound(db) && WellFormed(db, w)
    ensures Sound(Apply(db, w))
  {
    var after := Apply(db, w);
    if w.CreateToken? && after != db {
      assert after.tokens == db.tokens[w.id := w.row];
      forall id | id in after.tokens
        ensures IsRoot(id, after.tokens[id]) || IsChildOf(after.tokens, after.tokens[id])
      {
        if id == w.id {} else { assert IsRoot(id, db.tokens[id]) || IsChildOf(db.tokens, db.tokens[id]); }
      }
    } else {
      forall id | id in db.tokens
        ensures id in after.tokens && SameIdentity(db.tokens[id], after.tokens[id])
        ensures IsRoot(id, after.tokens[id]) || IsChildOf(after.tokens, after.tokens[id])
      {
        WriteEvolves(db, w);
        assert IsRoot(id, db.tokens[id]) || IsChildOf(db.tokens, db.tokens[id]);
      }
      WriteEvolves(db, w);
    }
  }

  lemma WriteEvolvesTokens(db: Db, w: Write)
    ensures TokensEvolve(db.tokens, Apply(db, w).tokens)
    ensures !w.CreateToken? ==> Apply(db, w).tokens.Keys == db.tokens.Keys
  {
  }

  lemma WriteEvolvesSessions(db: Db, w: Write)
    ensures SessionsEvolve(db.sessions, Apply(db, w).sessions)
  {
  }

  lemma WriteEvolvesResets(db: Db, w: Write)
    ensures ResetsEvolve(db.resets, Apply(db, w).resets)
  {
  }

  lemma WriteEvolves(db: Db, w: Write)
    ensures Evolves(db, Apply(db, w))
    ensures !w.CreateToken? ==> Apply(db, w).tokens.Keys == db.tokens.Keys
  {
    WriteEvolvesTokens(db, w);
    WriteEvolvesSessions(db, w);
    WriteEvolvesResets(db, w);
  }

  lemma EvolvesTransitive(a: Db, b: Db, c: Db)
    requires Evolves(a, b) && Evolves(b, c)
    ensures Evolves(a, c)
  {
  }

  lemma {:induction false} WritesEvolve(db: Db, ws: seq<Write>)
    ensures Evolves(db, ApplyAll(db, ws))
    decreases |ws|
  {
    if ws != [] {
      WriteEvolves(db, ws[0]);
      WritesEvolve(Apply(db, ws[0]), ws[1..]);
      EvolvesTransitive(db, Apply(db, ws[0]), ApplyAll(db, ws));
    }
  }

  lemma {:induction false} ApplyAllAppend(db: Db, ws: seq<Write>, w: Write)
    ensures ApplyAll(db, ws + [w]) == Apply(ApplyAll(db, ws), w)
    decreases |ws|
  {
    if ws != [] {
      assert (ws + [w])[1..] == ws[1..] + [w];
      ApplyAllAppend(Apply(db, ws[0]), ws[1..], w);
    }
  }
}
