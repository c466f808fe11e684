/**
 Refresh calls with every awaited statement a step of its own: any number of
 calls interleave with each other and with the writes of every other service.
 A call that is never scheduled again has died.
 */
module RefreshInterleaving {
  import opened Prelude
  import opened AuthTables
  import opened AuthCalls

  /** What a call awaits next, or how it ended. */
  datatype Stage =
    | RevokingFamily | EndingSession | ReuseReported
    | MarkingUsed | CheckingSession | IssuingAccess | InsertingChild | TouchingSession | Done
    | Refused

  /** A call that found token `id`; `row` is the copy it read and works from. */
  datatype Progress = Progress(id: Uuid, row: Token, stage: Stage, child: Option<Uuid>)

  datatype System = System(db: Db, calls: map<nat, Progress>)

  const START: System := System(EMPTY_DB, map[])

  datatype Action =
    | Begin(c: nat, hash: Digest, now: Time)
    | Advance(c: nat, now: Time, issued: NewToken)
    | Elsewhere(w: Write)

  function StageAfterRead(row: Token, now: Time): Stage {
    if row.revokedAt.Some? then Refused
    else if row.usedAt.Some? then RevokingFamily
    else if row.expiresAt <= now then Refused
    else MarkingUsed
  }

  /** The write of the statement a call awaits, if that statement is a write. */
  function CallWrite(p: Progress, now: Time, issued: NewToken): Option<Write> {
    match p.stage
    case RevokingFamily => Some(RevokeFamily(p.row.familyId, OnReuse, now))
    case EndingSession => Some(EndSession(p.row.sessionId, TokenReuseDetected, now))
    case MarkingUsed => Some(MarkUsed(p.id, now))
    case InsertingChild => Some(CreateToken(issued.id, ChildRow(p.id, p.row, issued)))
    case TouchingSession => Some(TouchSession(p.row.sessionId, now))
    case _ => None
  }

  /** Where the call stands after that statement. */
  ghost function CallNext(db: Db, p: Progress, issued: NewToken): Progress {
    match p.stage
    case RevokingFamily => p.(stage := EndingSession)
    case EndingSession => p.(stage := ReuseReported)
    case MarkingUsed => p.(stage := CheckingSession)
    case CheckingSession => p.(stage := if SessionOpen(db, p.row.sessionId) then IssuingAccess else Refused)
    case IssuingAccess => p.(stage := InsertingChild)
    case InsertingChild =>
      if CanCreate(db, issued.id, issued.hash, p.row.sessionId)
      then p.(stage := TouchingSession, child := Some(issued.id))
      else p.(stage := Refused)
    case TouchingSession => p.(stage := Done)
    case _ => p
  }

  ghost function ApplyIf(db: Db, w: Option<Write>): Db {
    if w.Some? then Apply(db, w.value) else db
  }

  /** The other services insert root tokens only; their other writes are unrestricted. */
  predicate AllowedElsewhere(w: Write) {
    w.CreateToken? ==> IsRoot(w.id, w.row) && w.row.usedAt.None? && w.row.revokedAt.None?
  }

  ghost function Step(s: System, a: Action): System {
    match a
    case Begin(c, hash, now) =>
      var found := FindByHash(s.db.tokens, hash);
      if c in s.calls || found.None? then s
      else
        var row := s.db.tokens[found.value];
        s.(calls := s.calls[c := Progress(found.value, row, StageAfterRead(row, now), None)])
    case Advance(c, now, issued) =>
      if c !in s.calls then s
      else
        System(ApplyIf(s.db, CallWrite(s.calls[c], now, issued)), s.calls[c := CallNext(s.db, s.calls[c], issued)])
    case Elsewhere(w) =>
      if AllowedElsewhere(w) then s.(db := Apply(s.db, w)) else s
  }

  ghost function Exec(s: System, actions: seq<Action>): System
    decreases |actions|
  {
    if actions == [] then s else Exec(Step(s, actions[0]), actions[1..])
  }

  lemma {:induction false} ExecAppend(s: System, xs: seq<Action>, ys: seq<Action>)
    ensures Exec(s, xs + ys) == Exec(Exec(s, xs), ys)
    decreases |xs|
  {
    if xs == [] {
      assert xs + ys == ys;
    } else {
      assert (xs + ys)[1..] == xs[1..] + ys;
      ExecAppend(Step(s, xs[0]), xs[1..], ys);
    }
  }

  // ---------------------------------------------------------------------------
  // Invariants of every interleaving
  // ---------------------------------------------------------------------------

  predicate PastMark(stage: Stage) {
    stage.CheckingSession? || PastSessionCheck(stage)
  }

  /** The call was let through by the session check: it issues an access token and a child. */
  predicate PastSessionCheck(stage: Stage) {
    stage.IssuingAccess? || stage.InsertingChild? || stage.TouchingSession? || stage.Done?
  }

  ghost predicate CallOk(db: Db, p: Progress) {
    && p.id in db.tokens
    && SameIdentity(p.row, db.tokens[p.id])
    && (PastMark(p.stage) ==> db.tokens[p.id].usedAt.Some?)
    && p.row.sessionId in db.sessions
    && (p.stage.ReuseReported? ==> db.sessions[p.row.sessionId].endedAt.Some?)
  }

  ghost predicate Inv(s: System) {
    Sound(s.db) && forall c :: c in s.calls ==> CallOk(s.db, s.calls[c])
  }

  lemma CallOkIsStable(before: Db, after: Db, p: Progress)
    requires Evolves(before, after) && CallOk(before, p)
    ensures CallOk(after, p)
  {
  }

  lemma CallWriteIsSound(db: Db, p: Progress, now: Time, issued: NewToken)
    requires Sound(db) && CallOk(db, p)
    ensures var db' := ApplyIf(db, CallWrite(p, now, issued));
            Sound(db') && Evolves(db, db')
  {
    var w := CallWrite(p, now, issued);
    if w.Some? {
      if p.stage.InsertingChild? { assert IsChildOf(db.tokens, w.value.row); }
      WriteKeepsSound(db, w.value);
      WriteEvolves(db, w.value);
    }
  }

  lemma CallNextIsOk(db: Db, p: Progress, now: Time, issued: NewToken)
    requires CallOk(db, p)
    ensures CallOk(ApplyIf(db, CallWrite(p, now, issued)), CallNext(db, p, issued))
  {
    var w := CallWrite(p, now, issued);
    if w.Some? { WriteEvolves(db, w.value); }
    CallOkIsStable(db, ApplyIf(db, w), p);
  }

  lemma StepKeepsInv(s: System, a: Action)
    requires Inv(s)
    ensures Inv(Step(s, a)) && Evolves(s.db, Step(s, a).db)
  {
    var s' := Step(s, a);
    match a
    case Begin(c, hash, now) =>
    case Advance(c, now, issued) =>
      if c in s.calls {
        CallWriteIsSound(s.db, s.calls[c], now, issued);
        CallNextIsOk(s.db, s.calls[c], now, issued);
        forall d | d in s'.calls && d != c
          ensures CallOk(s'.db, s'.calls[d])
        {
          CallOkIsStable(s.db, s'.db, s.calls[d]);
        }
      }
    case Elsewhere(w) =>
      if AllowedElsewhere(w) {
        WriteKeepsSound(s.db, w);
        WriteEvolves(s.db, w);
        forall d | d in s'.calls
          ensures CallOk(s'.db, s'.calls[d])
        {
          CallOkIsStable(s.db, s'.db, s.calls[d]);
        }
      }
  }

  lemma {:induction false} ExecKeepsInv(s: System, actions: seq<Action>)
    requires Inv(s)
    ensures Inv(Exec(s, actions)) && Evolves(s.db, Exec(s, actions).db)
    decreases |actions|
  {
    if actions != [] {
      StepKeepsInv(s, actions[0]);
      ExecKeepsInv(Step(s, actions[0]), actions[1..]);
      EvolvesTransitive(s.db, Step(s, actions[0]).db, Exec(s, actions).db);
    }
  }

  // ---------------------------------------------------------------------------
  // The session check survives interleaving
  // ---------------------------------------------------------------------------

  /** No call outside `earlier` on a token of session `sid` got past the session check. */
  ghost predicate LaterCallsStopped(s: System, earlier: set<nat>, sid: Uuid) {
    forall c :: c in s.calls && c !in earlier && s.calls[c].row.sessionId == sid ==> !PastSessionCheck(s.calls[c].stage)
  }

  lemma StepStopsLaterCalls(s: System, a: Action, earlier: set<nat>, sid: Uuid)
    requires sid in s.db.sessions && s.db.sessions[sid].endedAt.Some?
    requires LaterCallsStopped(s, earlier, sid)
    ensures LaterCallsStopped(Step(s, a), earlier, sid)
  {
    var s' := Step(s, a);
    forall c | c in s'.calls && c !in earlier && s'.calls[c].row.sessionId == sid
      ensures !PastSessionCheck(s'.calls[c].stage)
    {
      if c in s.calls && a.Advance? && a.c == c {
        assert !PastSessionCheck(s.calls[c].stage) && s.calls[c].row == s'.calls[c].row;
      }
    }
  }

  lemma {:induction false} EndedSessionStopsLaterCalls(s: System, actions: seq<Action>, earlier: set<nat>, sid: Uuid)
    requires Inv(s) && sid in s.db.sessions && s.db.sessions[sid].endedAt.Some?
    requires LaterCallsStopped(s, earlier, sid)
    ensures LaterCallsStopped(Exec(s, actions), earlier, sid)
    decreases |actions|
  {
    if actions != [] {
      StepKeepsInv(s, actions[0]);
      StepStopsLaterCalls(s, actions[0], earlier, sid);
      EndedSessionStopsLaterCalls(Step(s, actions[0]), actions[1..], earlier, sid);
    }
  }

  /**
   Once a session has ended - by logout, reset, deactivation or reuse - a refresh on any of its tokens that has not
   passed the session check yet never will, begun or not, however calls interleave.
   */
  lemma EndedSessionSupportsNoRefresh(before: seq<Action>, sid: Uuid, after: seq<Action>, c: nat)
    requires var s := Exec(START, before);
             && sid in s.db.sessions && s.db.sessions[sid].endedAt.Some?
             && (c in s.calls ==> !PastSessionCheck(s.calls[c].stage))
    ensures var s' := Exec(Exec(START, before), after);
            c in s'.calls && s'.calls[c].row.sessionId == sid ==> !PastSessionCheck(s'.calls[c].stage)
  {
    var s := Exec(START, before);
    ExecKeepsInv(START, before);
    EndedSessionStopsLaterCalls(s, after, (set d | d in s.calls && PastSessionCheck(s.calls[d].stage)), sid);
  }

  /**
   Once a reuse handler has finished, a refresh on any token of the family - one inserted after the family was
   revoked included - that has not passed the session check yet never will, however calls interleave.
   */
  lemma ReuseHandlerStopsFamily(before: seq<Action>, handler: nat, after: seq<Action>, c: nat)
    requires var s := Exec(START, before);
             && handler in s.calls && s.calls[handler].stage == ReuseReported
             && (c in s.calls ==> !PastSessionCheck(s.calls[c].stage))
    ensures var s := Exec(START, before);
            var s' := Exec(s, after);
            c in s'.calls && s'.calls[c].row.familyId == s.calls[handler].row.familyId ==>
              !PastSessionCheck(s'.calls[c].stage)
  {
    var s := Exec(START, before);
    ExecKeepsInv(START, before);
    var row := s.calls[handler].row;
    assert CallOk(s.db, s.calls[handler]);
    EndedSessionSupportsNoRefresh(before, row.sessionId, after, c);
    ExecKeepsInv(s, after);
    var s' := Exec(s, after);
    if c in s'.calls && s'.calls[c].row.familyId == row.familyId {
      FamilyInOneSession(s, s', handler, c);
    }
  }

  lemma FamilyInOneSession(s: System, s': System, a: nat, b: nat)
    requires Inv(s) && Inv(s') && Evolves(s.db, s'.db) && a in s.calls && b in s'.calls
    requires s.calls[a].row.familyId == s'.calls[b].row.familyId
    ensures s.calls[a].row.sessionId == s'.calls[b].row.sessionId
  {
    var f := s.calls[a].row.familyId;
    var ta := s.db.tokens[s.calls[a].id];
    var tb := s'.db.tokens[s'.calls[b].id];
    assert ta.familyId == f && tb.familyId == f;
    assert s.db.tokens[f].sessionId == ta.sessionId && s'.db.tokens[f].sessionId == tb.sessionId;
  }

  // ---------------------------------------------------------------------------
  // "Used exactly once" under interleaving
  // ---------------------------------------------------------------------------

  /** Call `c` found token `t` unused and was not refused since. */
  predicate OnPath(s: System, c: nat, t: Uuid) {
    c in s.calls && s.calls[c].id == t && (s.calls[c].stage == MarkingUsed || PastMark(s.calls[c].stage))
  }

  predicate Overlap(s: System, c: nat, d: nat, t: Uuid) {
    && c in s.calls && s.calls[c].id == t && s.calls[c].stage == MarkingUsed
    && d in s.calls && s.calls[d].id == t && s.calls[d].stage == MarkingUsed
  }

  lemma PathStartsAtRead(s: System, a: Action, c: nat, t: Uuid)
    requires OnPath(Step(s, a), c, t) && !OnPath(s, c, t)
    ensures a.Begin? && a.c == c && c !in s.calls && t in s.db.tokens && s.db.tokens[t].usedAt.None?
    ensures Step(s, a).calls[c].stage == MarkingUsed && Step(s, a).db == s.db
    ensures forall d :: d in s.calls ==> Step(s, a).calls[d] == s.calls[d]
  {
  }

  lemma StepNeedsOverlap(s: System, a: Action, c: nat, d: nat, t: Uuid)
    requires forall e :: e in s.calls ==> CallOk(s.db, s.calls[e])
    requires OnPath(Step(s, a), c, t) && OnPath(Step(s, a), d, t) && c != d
    ensures (OnPath(s, c, t) && OnPath(s, d, t)) || Overlap(Step(s, a), c, d, t)
  {
    if !OnPath(s, c, t) {
      PathStartsAtRead(s, a, c, t);
      assert CallOk(s.db, s.calls[d]);
    } else if !OnPath(s, d, t) {
      PathStartsAtRead(s, a, d, t);
      assert CallOk(s.db, s.calls[c]);
    }
  }

  /**
   Two calls both go through with one token only if, at some moment, both had read it unused and neither had marked it.
   */
  lemma {:induction false} DoubleUseNeedsOverlap(actions: seq<Action>, c: nat, d: nat, t: Uuid) returns (k: nat)
    requires c != d && OnPath(Exec(START, actions), c, t) && OnPath(Exec(START, actions), d, t)
    ensures k <= |actions| && Overlap(Exec(START, actions[..k]), c, d, t)
    decreases |actions|
  {
    if actions == [] {
      assert false;
    } else {
      var n := |actions| - 1;
      var s := Exec(START, actions[..n]);
      assert actions == actions[..n] + [actions[n]];
      ExecAppend(START, actions[..n], [actions[n]]);
      assert Exec(s, [actions[n]]) == Exec(Step(s, actions[n]), []);
      ExecKeepsInv(START, actions[..n]);
      StepNeedsOverlap(s, actions[n], c, d, t);
      if OnPath(s, c, t) && OnPath(s, d, t) {
        k := DoubleUseNeedsOverlap(actions[..n], c, d, t);
        assert actions[..n][..k] == actions[..k];
      } else {
        k := |actions|;
        assert actions[..k] == actions;
      }
    }
  }

  // --- the same of the table ---

  /** Call `c` inserted token `id`, a child of the token it had found. */
  predicate Inserted(s: System, c: nat, id: Uuid) {
    && c in s.calls && s.calls[c].child == Some(id)
    && (s.calls[c].stage.TouchingSession? || s.calls[c].stage.Done?)
    && id in s.db.tokens && s.db.tokens[id].parentId == Some(s.calls[c].id)
  }

  /** Every stored child was inserted by a call on its parent. */
  ghost predicate ChildrenHaveCalls(s: System) {
    forall id :: id in s.db.tokens && s.db.tokens[id].parentId.Some? ==> exists c :: Inserted(s, c, id)
  }

  lemma InsertedStays(s: System, a: Action, c: nat, id: Uuid)
    requires Inserted(s, c, id) && TokensEvolve(s.db.tokens, Step(s, a).db.tokens)
    ensures Inserted(Step(s, a), c, id)
  {
    assert c in Step(s, a).calls;
  }

  lemma OldChildHasCall(s: System, a: Action, id: Uuid)
    requires ChildrenHaveCalls(s) && TokensEvolve(s.db.tokens, Step(s, a).db.tokens)
    requires id in s.db.tokens && Step(s, a).db.tokens[id].parentId.Some?
    ensures exists c :: Inserted(Step(s, a), c, id)
  {
    assert SameIdentity(s.db.tokens[id], Step(s, a).db.tokens[id]);
    var c :| Inserted(s, c, id);
    InsertedStays(s, a, c, id);
  }

  lemma StepKeepsChildren(s: System, a: Action)
    requires ChildrenHaveCalls(s) && TokensEvolve(s.db.tokens, Step(s, a).db.tokens)
    ensures ChildrenHaveCalls(Step(s, a))
  {
    forall id | id in Step(s, a).db.tokens && Step(s, a).db.tokens[id].parentId.Some?
      ensures exists c :: Inserted(Step(s, a), c, id)
    {
      if id in s.db.tokens { OldChildHasCall(s, a, id); } else { NewChildIsInserted(s, a, id); }
    }
  }

  lemma NewChildIsInserted(s: System, a: Action, id: Uuid)
    requires id !in s.db.tokens && id in Step(s, a).db.tokens && Step(s, a).db.tokens[id].parentId.Some?
    ensures a.Advance? && Inserted(Step(s, a), a.c, id)
  {
    var w := if a.Elsewhere? then Some(a.w)
             else if a.Advance? && a.c in s.calls then CallWrite(s.calls[a.c], a.now, a.issued) else None;
    if w.Some? { WriteEvolvesTokens(s.db, w.value); }
  }

  lemma {:induction false} ExecKeepsChildren(s: System, actions: seq<Action>)
    requires Inv(s) && ChildrenHaveCalls(s)
    ensures ChildrenHaveCalls(Exec(s, actions))
    decreases |actions|
  {
    if actions != [] {
      StepKeepsInv(s, actions[0]);
      StepKeepsChildren(s, actions[0]);
      ExecKeepsChildren(Step(s, actions[0]), actions[1..]);
    }
  }

  /**
   Two stored tokens have one parent only if two calls inserted them and, at some moment, both had read the parent
   unused and neither had marked it.
   */
  lemma SharedParentNeedsOverlap(actions: seq<Action>, a: Uuid, b: Uuid) returns (c: nat, d: nat, k: nat)
    requires var ts := Exec(START, actions).db.tokens;
             a != b && a in ts && b in ts && ts[a].parentId.Some? && ts[a].parentId == ts[b].parentId
    ensures var s := Exec(START, actions);
            && Inserted(s, c, a) && Inserted(s, d, b) && c != d
            && k <= |actions| && Overlap(Exec(START, actions[..k]), c, d, s.db.tokens[a].parentId.value)
  {
    var s := Exec(START, actions);
    ExecKeepsChildren(START, actions);
    c :| Inserted(s, c, a);
    d :| Inserted(s, d, b);
    k := DoubleUseNeedsOverlap(actions, c, d, s.db.tokens[a].parentId.value);
  }

  function Finish(c: nat, now: Time, issued: NewToken): seq<Action> {
    var a := Advance(c, now, issued);
    [a, a, a, a, a]
  }

  lemma ExecFirst(s: System, actions: seq<Action>)
    requires actions != []
    ensures Exec(s, actions) == Exec(Step(s, actions[0]), actions[1..])
  {
  }

  /** Mark, session check and access token of an uninterrupted call. */
  lemma FirstHalf(s: System, c: nat, now: Time, issued: NewToken)
    requires c in s.calls && s.calls[c].stage == MarkingUsed && s.calls[c].id in s.db.tokens
    requires SessionOpen(s.db, s.calls[c].row.sessionId)
    ensures var a := Advance(c, now, issued);
            var p := s.calls[c];
            Step(Step(Step(s, a), a), a)
            == System(Apply(s.db, MarkUsed(p.id, now)), s.calls[c := p.(stage := InsertingChild)])
  {
    var a := Advance(c, now, issued);
    var p := s.calls[c];
    var s1 := Step(s, a);
    assert s1 == System(Apply(s.db, MarkUsed(p.id, now)), s.calls[c := p.(stage := CheckingSession)]);
    var s2 := Step(s1, a);
    assert s2 == System(s1.db, s.calls[c := p.(stage := IssuingAccess)]);
    var s3 := Step(s2, a);
    assert s3.calls == s.calls[c := p.(stage := InsertingChild)];
  }

  /** Child insertion and session touch of an uninterrupted call. */
  lemma SecondHalf(s: System, c: nat, now: Time, issued: NewToken)
    requires c in s.calls && s.calls[c].stage == InsertingChild
    requires CanCreate(s.db, issued.id, issued.hash, s.calls[c].row.sessionId)
    ensures var a := Advance(c, now, issued);
            var p := s.calls[c];
            Step(Step(s, a), a) ==
              System(Apply(Apply(s.db, CreateToken(issued.id, ChildRow(p.id, p.row, issued))),
                  TouchSession(p.row.sessionId, now)),
                     s.calls[c := p.(stage := Done, child := Some(issued.id))])
  {
    var a := Advance(c, now, issued);
    var p := s.calls[c];
    var s1 := Step(s, a);
    assert s1.calls == s.calls[c := p.(stage := TouchingSession, child := Some(issued.id))];
    var s2 := Step(s1, a);
    assert s2.calls == s.calls[c := p.(stage := Done, child := Some(issued.id))];
  }

  /**
   A call that read its token unused rotates it if nothing interrupts it, whether or not another call rotated it
   meanwhile.
   */
  lemma UninterruptedCallRotates(s: System, c: nat, now: Time, issued: NewToken)
    requires c in s.calls && s.calls[c].stage == MarkingUsed && s.calls[c].id in s.db.tokens
    requires SessionOpen(s.db, s.calls[c].row.sessionId)
    requires CanCreate(s.db, issued.id, issued.hash, s.calls[c].row.sessionId)
    ensures var p := s.calls[c];
            Exec(s, Finish(c, now, issued)) ==
              System(ApplyAll(s.db, RotationWrites(p.id, p.row, now, issued)),
                     s.calls[c := p.(stage := Done, child := Some(issued.id))])
  {
    var a := Advance(c, now, issued);
    var p := s.calls[c];
    var ws := RotationWrites(p.id, p.row, now, issued);
    var s3 := Step(Step(Step(s, a), a), a);
    FirstHalf(s, c, now, issued);
    MarkKeepsCreatable(s.db, p.id, now, issued.id, issued.hash, p.row.sessionId);
    SecondHalf(s3, c, now, issued);
    ApplyPrefix(s.db, ws, 3);
    ExecFirst(s, Finish(c, now, issued));
    ExecFirst(Step(s, a), [a, a, a, a]);
    ExecFirst(Step(Step(s, a), a), [a, a, a]);
    ExecFirst(s3, [a, a]);
    ExecFirst(Step(s3, a), [a]);
    assert [a, a, a, a, a][1..] == [a, a, a, a] && [a, a, a, a][1..] == [a, a, a];
    assert [a, a, a][1..] == [a, a] && [a, a][1..] == [a] && [a][1..] == [];
  }

  function RotationWrites(id: Uuid, row: Token, now: Time, issued: NewToken): seq<Write> {
    [MarkUsed(id, now), CreateToken(issued.id, ChildRow(id, row, issued)), TouchSession(row.sessionId, now)]
  }

  lemma RotationInserts(db: Db, id: Uuid, row: Token, now: Time, x: NewToken)
    requires id in db.tokens && SessionOpen(db, row.sessionId) && CanCreate(db, x.id, x.hash, row.sessionId)
    ensures var db' := ApplyAll(db, RotationWrites(id, row, now, x));
            && db'.tokens == Apply(db, MarkUsed(id, now)).tokens[x.id := ChildRow(id, row, x)]
            && SessionOpen(db', row.sessionId)
  {
    var ws := RotationWrites(id, row, now, x);
    var db1 := Apply(db, ws[0]);
    var db2 := Apply(db1, ws[1]);
    assert db2 == db1.(tokens := db1.tokens[x.id := ChildRow(id, row, x)]) by {
      MarkKeepsCreatable(db, id, now, x.id, x.hash, row.sessionId);
    }
    assert ApplyAll(db, ws) == Apply(db2, ws[2]) by { ApplyPrefix(db, ws, 3); }
  }

  lemma RotationLeavesRoom(db: Db, id: Uuid, row: Token, now: Time, x: NewToken, y: NewToken)
    requires id in db.tokens && SessionOpen(db, row.sessionId) && CanCreate(db, x.id, x.hash, row.sessionId)
    requires CanCreate(db, y.id, y.hash, row.sessionId) && x.id != y.id && x.hash != y.hash
    ensures CanCreate(ApplyAll(db, RotationWrites(id, row, now, x)), y.id, y.hash, row.sessionId)
  {
    RotationInserts(db, id, row, now, x);
    MarkKeepsCreatable(db, id, now, y.id, y.hash, row.sessionId);
  }

  /** Whenever two calls overlap on an open session, both can go through: the token then has two children. */
  lemma OverlapAllowsDoubleUse(s: System, c: nat, d: nat, t: Uuid, now: Time, x: NewToken, y: NewToken)
    requires Inv(s) && c != d && Overlap(s, c, d, t)
    requires SessionOpen(s.db, s.calls[c].row.sessionId)
    requires CanCreate(s.db, x.id, x.hash, s.calls[c].row.sessionId)
    requires CanCreate(s.db, y.id, y.hash, s.calls[c].row.sessionId)
    requires x.id != y.id && x.hash != y.hash
    ensures var s' := Exec(s, Finish(c, now, x) + Finish(d, now, y));
            && c in s'.calls && d in s'.calls
            && s'.calls[c].stage == Done && s'.calls[d].stage == Done
            && s'.calls[c].child == Some(x.id) && s'.calls[d].child == Some(y.id)
            && x.id in s'.db.tokens && y.id in s'.db.tokens
            && s'.db.tokens[x.id].parentId == Some(t) && s'.db.tokens[y.id].parentId == Some(t)
  {
    var row := s.calls[c].row;
    assert CallOk(s.db, s.calls[c]) && CallOk(s.db, s.calls[d]);
    UninterruptedCallRotates(s, c, now, x);
    RotationInserts(s.db, t, row, now, x);
    RotationLeavesRoom(s.db, t, row, now, x, y);
    var s1 := Exec(s, Finish(c, now, x));
    UninterruptedCallRotates(s1, d, now, y);
    RotationInserts(s1.db, t, s.calls[d].row, now, y);
    ExecAppend(s, Finish(c, now, x), Finish(d, now, y));
  }

  lemma InsertAfterRevocation(db: Db, f: Uuid, id: Uuid, row: Token, sid: Uuid, now: Time)
    requires CanCreate(db, id, row.hash, row.sessionId) && row.familyId == f
    ensures var db1 := Apply(db, RevokeFamily(f, OnReuse, now));
            && CanCreate(db1, id, row.hash, row.sessionId)
            && var db3 := Apply(Apply(db1, CreateToken(id, row)), EndSession(sid, TokenReuseDetected, now));
               id in db3.tokens && db3.tokens[id] == row
  {
    var db1 := Apply(db, RevokeFamily(f, OnReuse, now));
    forall other | other in db1.tokens
      ensures other in db.tokens && db1.tokens[other].hash == db.tokens[other].hash
    {
    }
  }

  /**
   The family revocation alone is not enough: a child inserted after it is unrevoked and unused when the handler is
   done.
   */
  lemma UnrevokedChildOutlivesReuseHandler(s: System, racer: nat, handler: nat, now: Time, issued: NewToken)
    requires racer != handler
    requires racer in s.calls && s.calls[racer].stage == InsertingChild
    requires handler in s.calls && s.calls[handler].stage == RevokingFamily
    requires s.calls[racer].row.familyId == s.calls[handler].row.familyId
    requires CanCreate(s.db, issued.id, issued.hash, s.calls[racer].row.sessionId)
    ensures var h := Advance(handler, now, issued);
            var s' := Exec(s, [h, Advance(racer, now, issued), h]);
            && handler in s'.calls && s'.calls[handler].stage == ReuseReported
            && issued.id in s'.db.tokens
            && s'.db.tokens[issued.id].familyId == s.calls[handler].row.familyId
            && s'.db.tokens[issued.id].revokedAt.None? && s'.db.tokens[issued.id].usedAt.None?
  {
    var h := Advance(handler, now, issued);
    var r := Advance(racer, now, issued);
    var p := s.calls[racer];
    var q := s.calls[handler];
    InsertAfterRevocation(s.db, q.row.familyId, issued.id, ChildRow(p.id, p.row, issued), q.row.sessionId, now);
    var s1 := Step(s, h);
    assert s1.calls[racer] == p && s1.calls[handler] == q.(stage := EndingSession);
    var s2 := Step(s1, r);
    assert s2.calls[handler] == q.(stage := EndingSession);
    ExecFirst(s, [h, r, h]);
    ExecFirst(s1, [r, h]);
    ExecFirst(s2, [h]);
    assert [h, r, h][1..] == [r, h] && [r, h][1..] == [h] && [h][1..] == [];
  }

  /**
   And only such a child: whatever runs after the handler's revocation step, a token of the family that is unrevoked
   in a later state was not in the table when the step ran. It is a child, inserted by a call that had read its parent.
   */
  lemma OnlyLaterChildrenEscapeRevocation(before: seq<Action>, handler: nat, now: Time, issued: NewToken,
                                          after: seq<Action>, id: Uuid)
    requires var s := Exec(START, before);
             handler in s.calls && s.calls[handler].stage == RevokingFamily
    requires var s := Exec(START, before);
             var s' := Exec(Step(s, Advance(handler, now, issued)), after);
             && id in s'.db.tokens && s'.db.tokens[id].familyId == s.calls[handler].row.familyId
             && s'.db.tokens[id].revokedAt.None?
    ensures var s := Exec(START, before);
            var s' := Exec(Step(s, Advance(handler, now, issued)), after);
            id !in s.db.tokens && s'.db.tokens[id].parentId.Some?
  {
    ExecKeepsInv(START, before);
    var s := Exec(START, before);
    assert CallOk(s.db, s.calls[handler]);
    StepKeepsInv(s, Advance(handler, now, issued));
    var s1 := Step(s, Advance(handler, now, issued));
    ExecKeepsInv(s1, after);
    UnrevokedIsNew(s.db, Exec(s1, after).db, s.calls[handler].row.familyId, now, id);
  }

  lemma UnrevokedIsNew(db: Db, later: Db, f: Uuid, now: Time, id: Uuid)
    requires Sound(later) && Evolves(Apply(db, RevokeFamily(f, OnReuse, now)), later)
    requires f in db.tokens && db.tokens[f].familyId == f
    requires id in later.tokens && later.tokens[id].familyId == f && later.tokens[id].revokedAt.None?
    ensures id !in db.tokens && later.tokens[id].parentId.Some?
  {
    var db1 := Apply(db, RevokeFamily(f, OnReuse, now));
    assert TokensEvolve(db1.tokens, later.tokens);
    assert f in db1.tokens && db1.tokens[f].revokedAt.Some? && id != f;
    assert IsRoot(id, later.tokens[id]) || IsChildOf(later.tokens, later.tokens[id]);
  }

  // ---------------------------------------------------------------------------
  // Two runs that show both gaps are real
  // ---------------------------------------------------------------------------

  const ROOT: Token := RootRow(1, 1, NewToken(2, 20, 1000))

  /** A login on an empty database: session 1 and its root token 2. */
  const AFTER_LOGIN: seq<Action> := [Elsewhere(CreateSession(1, 1, 1, 0)), Elsewhere(CreateToken(2, ROOT))]

  lemma LoginState()
    ensures var s := Exec(START, AFTER_LOGIN);
            s.db.tokens == map[2 := ROOT] && SessionOpen(s.db, 1) && s.calls == map[]
    ensures FindByHash(map[2 := ROOT], 20) == Some(2)
  {
    var s1 := Step(START, AFTER_LOGIN[0]);
    ExecFirst(START, AFTER_LOGIN);
    ExecFirst(s1, AFTER_LOGIN[1..]);
    assert AFTER_LOGIN[1..][1..] == [];
    assert 2 in map[2 := ROOT] && map[2 := ROOT][2].hash == 20;
  }

  lemma ReadsAfterLogin(s: System, c: nat, row: Token)
    requires s.db.tokens == map[2 := row] && SameIdentity(row, ROOT) && c !in s.calls && row.revokedAt.None?
    ensures Step(s, Begin(c, 20, 5)) ==
              var stage := if row.usedAt.Some? then RevokingFamily else MarkingUsed;
              s.(calls := s.calls[c := Progress(2, row, stage, None)])
  {
    assert 2 in s.db.tokens && s.db.tokens[2].hash == 20;
    assert FindByHash(s.db.tokens, 20) == Some(2);
  }

  /** "Used exactly once" fails when calls interleave: a run in which two calls both rotate one token. */
  lemma DoubleUseIsReachable()
    ensures exists actions :: var s := Exec(START, actions);
              && 1 in s.calls && 2 in s.calls && s.calls[1].id == s.calls[2].id
              && s.calls[1].stage == Done && s.calls[2].stage == Done
  {
    LoginState();
    var s := Exec(START, AFTER_LOGIN);
    var begins := [Begin(1, 20, 5), Begin(2, 20, 5)];
    var s1 := Step(s, begins[0]);
    ReadsAfterLogin(s, 1, ROOT);
    ReadsAfterLogin(s1, 2, ROOT);
    var s2 := Step(s1, begins[1]);
    ExecFirst(s, begins);
    ExecFirst(s1, begins[1..]);
    assert begins[1..][1..] == [];
    ExecKeepsInv(START, AFTER_LOGIN);
    ExecKeepsInv(s, begins);
    var x, y := NewToken(3, 30, 2000), NewToken(4, 40, 2000);
    assert forall other :: other in s2.db.tokens ==> s2.db.tokens[other] == ROOT;
    OverlapAllowsDoubleUse(s2, 1, 2, 2, 6, x, y);
    var finishes := Finish(1, 6, x) + Finish(2, 6, y);
    var end := Exec(s2, finishes);
    assert end.calls[1].id == end.calls[2].id == 2 by {
      CallKeepsItsToken(s2, finishes, 1);
      CallKeepsItsToken(s2, finishes, 2);
    }
    ExecAppend(s, begins, finishes);
    ExecAppend(START, AFTER_LOGIN, begins + finishes);
  }

  lemma {:induction false} CallKeepsItsToken(s: System, actions: seq<Action>, c: nat)
    requires c in s.calls
    ensures c in Exec(s, actions).calls
    ensures Exec(s, actions).calls[c].id == s.calls[c].id && Exec(s, actions).calls[c].row == s.calls[c].row
    decreases |actions|
  {
    if actions != [] { CallKeepsItsToken(Step(s, actions[0]), actions[1..], c); }
  }

  /** Call 1 reads the root and marks it; call 2 reads it only then, as used. */
  function Race(a: Action): seq<Action> {
    [Begin(1, 20, 5), a, a, a, Begin(2, 20, 5)]
  }

  lemma RaceSteps(s: System, a: Action)
    ensures Exec(s, Race(a)) == Step(Step(Step(Step(Step(s, Begin(1, 20, 5)), a), a), a), Begin(2, 20, 5))
  {
    var b := Begin(2, 20, 5);
    var s1 := Step(s, Begin(1, 20, 5));
    ExecFirst(s, Race(a));
    assert Race(a)[1..] == [a, a, a, b];
    ExecFirst(s1, [a, a, a, b]);
    assert [a, a, a, b][1..] == [a, a, b];
    ExecFirst(Step(s1, a), [a, a, b]);
    assert [a, a, b][1..] == [a, b];
    ExecFirst(Step(Step(s1, a), a), [a, b]);
    assert [a, b][1..] == [b];
    ExecFirst(Step(Step(Step(s1, a), a), a), [b]);
    assert [b][1..] == [];
  }

  lemma RaceState(s: System, x: NewToken)
    requires s.db.tokens == map[2 := ROOT] && SessionOpen(s.db, 1) && s.calls == map[]
    ensures var s' := Exec(s, Race(Advance(1, 6, x)));
            && s'.db.tokens == map[2 := ROOT.(usedAt := Some(6))] && s'.db.sessions == s.db.sessions
            && s'.calls == map[1 := Progress(2, ROOT, InsertingChild, None),
                               2 := Progress(2, ROOT.(usedAt := Some(6)), RevokingFamily, None)]
  {
    var a := Advance(1, 6, x);
    RaceSteps(s, a);
    ReadsAfterLogin(s, 1, ROOT);
    var s1 := Step(s, Begin(1, 20, 5));
    FirstHalf(s1, 1, 6, x);
    var s4 := Step(Step(Step(s1, a), a), a);
    assert s4.db.tokens == map[2 := ROOT.(usedAt := Some(6))];
    ReadsAfterLogin(s4, 2, ROOT.(usedAt := Some(6)));
  }

  ghost predicate LeavesUnrevokedChild(s: System) {
    && 2 in s.calls && s.calls[2].stage == ReuseReported && 3 in s.db.tokens
    && s.db.tokens[3].familyId == s.calls[2].row.familyId
    && s.db.tokens[3].revokedAt.None? && s.db.tokens[3].usedAt.None?
  }

  lemma RaceEndsUnrevoked(s: System, x: NewToken)
    requires s.db.tokens == map[2 := ROOT] && SessionOpen(s.db, 1) && s.calls == map[]
    requires x == NewToken(3, 30, 2000)
    ensures var a, h := Advance(1, 6, x), Advance(2, 6, x);
            LeavesUnrevokedChild(Exec(Exec(s, Race(a)), [h, a, h]))
  {
    var a, h := Advance(1, 6, x), Advance(2, 6, x);
    RaceState(s, x);
    var s' := Exec(s, Race(a));
    assert forall other :: other in s'.db.tokens ==> s'.db.tokens[other].hash == 20;
    UnrevokedChildOutlivesReuseHandler(s', 1, 2, 6, x);
    CallKeepsItsToken(s', [h, a, h], 2);
  }

  /** A run that ends with the reuse handler done and an unrevoked, unused token in the family it revoked. */
  lemma UnrevokedChildIsReachable()
    ensures exists actions :: LeavesUnrevokedChild(Exec(START, actions))
  {
    var x := NewToken(3, 30, 2000);
    var a, h := Advance(1, 6, x), Advance(2, 6, x);
    LoginState();
    RaceEndsUnrevoked(Exec(START, AFTER_LOGIN), x);
    ExecAppend(Exec(START, AFTER_LOGIN), Race(a), [h, a, h]);
    ExecAppend(START, AFTER_LOGIN, Race(a) + [h, a, h]);
  }

  // ---------------------------------------------------------------------------
  // Calls that run alone, whole or cut short, are interleavings too
  // ---------------------------------------------------------------------------

  function AsElsewhere(ws: seq<Write>): seq<Action> {
    if ws == [] then [] else [Elsewhere(ws[0])] + AsElsewhere(ws[1..])
  }

  lemma {:induction false} WritesElsewhere(s: System, ws: seq<Write>)
    requires forall w :: w in ws ==> AllowedElsewhere(w)
    ensures Exec(s, AsElsewhere(ws)) == System(ApplyAll(s.db, ws), s.calls)
    decreases |ws|
  {
    if ws != [] {
      var s1 := Step(s, Elsewhere(ws[0]));
      ExecFirst(s, AsElsewhere(ws));
      assert AsElsewhere(ws)[1..] == AsElsewhere(ws[1..]);
      WritesElsewhere(s1, ws[1..]);
    }
  }

  /** A rotation cut after `k` of its writes, performed step by step by call `c`. */
  lemma CutRotationIsInterleaved(s: System, c: nat, k: nat, now: Time, issued: NewToken) returns (actions: seq<Action>)
    requires c in s.calls && s.calls[c].stage == MarkingUsed && s.calls[c].id in s.db.tokens
    requires SessionOpen(s.db, s.calls[c].row.sessionId)
    requires CanCreate(s.db, issued.id, issued.hash, s.calls[c].row.sessionId)
    ensures Exec(s, actions).db == ApplyAll(s.db, Prefix(RotationWrites(s.calls[c].id, s.calls[c].row, now, issued), k))
    ensures Exec(s, actions).calls.Keys == s.calls.Keys
    ensures forall a :: a in actions ==> !a.Elsewhere?
  {
    var a := Advance(c, now, issued);
    var p := s.calls[c];
    var ws := RotationWrites(p.id, p.row, now, issued);
    ApplyPrefix(s.db, ws, k);
    if k == 0 {
      actions := [];
    } else if k == 1 {
      actions := [a];
      ExecFirst(s, [a]);
    } else if k == 2 {
      FirstHalf(s, c, now, issued);
      MarkKeepsCreatable(s.db, p.id, now, issued.id, issued.hash, p.row.sessionId);
      actions := [a, a, a, a];
      ExecFirst(s, [a, a, a, a]);
      ExecFirst(Step(s, a), [a, a, a]);
      ExecFirst(Step(Step(s, a), a), [a, a]);
      ExecFirst(Step(Step(Step(s, a), a), a), [a]);
      assert [a, a, a, a][1..] == [a, a, a] && [a, a, a][1..] == [a, a] && [a, a][1..] == [a] && [a][1..] == [];
    } else {
      actions := Finish(c, now, issued);
      UninterruptedCallRotates(s, c, now, issued);
      ApplyPrefix(s.db, ws, 3);
    }
  }

  lemma CutRefreshIsInterleaved(s: System, c: nat, hash: Digest, now: Time, issued: NewToken, k: nat)
    returns (actions: seq<Action>)
    requires Inv(s) && c !in s.calls
    ensures Exec(s, actions).db == ApplyAll(s.db, Prefix(RefreshPlan(s.db, hash, now, issued).1, k))
    ensures Exec(s, actions).calls.Keys <= s.calls.Keys + {c}
    ensures forall a :: a in actions ==> !a.Elsewhere?
  {
    var plan := RefreshPlan(s.db, hash, now, issued);
    var ws := plan.1;
    ApplyPrefix(s.db, ws, k);
    if ws == [] || k == 0 {
      return [];
    }
    var a := Advance(c, now, issued);
    var s1 := Step(s, Begin(c, hash, now));
    assert s1.db == s.db && c in s1.calls;
    var rest := [a];
    if plan.0.Rotated? {
      rest := CutRotationIsInterleaved(s1, c, k, now, issued);
    } else {
      ExecFirst(s1, [a]);
      assert [a][1..] == [];
      if plan.0.ReuseDetected? && k > 1 {
        rest := [a, a];
        assert [a, a][1..] == [a];
        ExecFirst(s1, [a, a]);
        ExecFirst(Step(s1, a), [a]);
      }
    }
    actions := [Begin(c, hash, now)] + rest;
    ExecFirst(s, actions);
    assert actions[1..] == rest;
  }

  // --- a whole call, step by step, answers and leaves what the call as one does ---

  function Whole(c: nat, hash: Digest, now: Time, issued: NewToken): seq<Action> {
    [Begin(c, hash, now)] + Finish(c, now, issued)
  }

  predicate EndsAs(stage: Stage, outcome: RefreshOutcome) {
    match outcome
    case Rotated(_) => stage.Done?
    case ReuseDetected => stage.ReuseReported?
    case Invalid => stage.Refused?
    case InsertFailed => stage.Refused?
  }

  lemma {:induction false} EndedCallIsIdle(s: System, c: nat, now: Time, issued: NewToken, n: nat)
    requires c in s.calls ==>
               s.calls[c].stage.Refused? || s.calls[c].stage.Done? || s.calls[c].stage.ReuseReported?
    ensures Exec(s, seq(n, _ => Advance(c, now, issued))) == s
    decreases n
  {
    if n > 0 {
      var a := Advance(c, now, issued);
      var actions := seq(n, _ => a);
      if c in s.calls { assert s.calls[c := s.calls[c]] == s.calls; }
      assert Step(s, a) == s;
      assert actions[1..] == seq(n - 1, _ => a);
      ExecFirst(s, actions);
      EndedCallIsIdle(s, c, now, issued, n - 1);
    }
  }

  lemma RunsOn(s: System, c: nat, now: Time, issued: NewToken, n: nat, m: nat)
    ensures var a := Advance(c, now, issued);
            Exec(s, seq(n + m, _ => a)) == Exec(Exec(s, seq(n, _ => a)), seq(m, _ => a))
  {
    var a := Advance(c, now, issued);
    assert seq(n + m, _ => a) == seq(n, _ => a) + seq(m, _ => a);
    ExecAppend(s, seq(n, _ => a), seq(m, _ => a));
  }

  lemma TwoOn(s: System, c: nat, now: Time, issued: NewToken)
    ensures var a := Advance(c, now, issued);
            Exec(s, seq(2, _ => a)) == Step(Step(s, a), a)
  {
    var a := Advance(c, now, issued);
    assert seq(2, _ => a) == [a, a] && [a, a][1..] == [a] && [a][1..] == [];
    ExecFirst(s, [a, a]);
    ExecFirst(Step(s, a), [a]);
  }

  lemma FinishIsFive(c: nat, now: Time, issued: NewToken)
    ensures Finish(c, now, issued) == seq(5, _ => Advance(c, now, issued))
  {
  }

  /** A reuse handler that nothing interrupts: the revocation, the session's end, and no more. */
  lemma UninterruptedReuse(s: System, c: nat, now: Time, issued: NewToken)
    requires c in s.calls && s.calls[c].stage.RevokingFamily?
    ensures var s' := Exec(s, Finish(c, now, issued));
            && s'.db == ApplyAll(s.db, ReplayWrites(s.calls[c].row, now))
            && s'.calls == s.calls[c := s.calls[c].(stage := ReuseReported)]
  {
    var a := Advance(c, now, issued);
    var p := s.calls[c];
    var s1 := Step(s, a);
    assert s1.calls == s.calls[c := p.(stage := EndingSession)];
    var s2 := Step(s1, a);
    assert s2.calls == s.calls[c := p.(stage := ReuseReported)];
    ApplyPrefix(s.db, ReplayWrites(p.row, now), 2);
    FinishIsFive(c, now, issued);
    RunsOn(s, c, now, issued, 2, 3);
    TwoOn(s, c, now, issued);
    EndedCallIsIdle(s2, c, now, issued, 3);
  }

  /** A call on a closed session that nothing interrupts: the mark, and no more. */
  lemma UninterruptedOnClosed(s: System, c: nat, now: Time, issued: NewToken)
    requires c in s.calls && s.calls[c].stage.MarkingUsed? && s.calls[c].id in s.db.tokens
    requires !SessionOpen(s.db, s.calls[c].row.sessionId)
    ensures var s' := Exec(s, Finish(c, now, issued));
            && s'.db == Apply(s.db, MarkUsed(s.calls[c].id, now))
            && s'.calls == s.calls[c := s.calls[c].(stage := Refused)]
  {
    var a := Advance(c, now, issued);
    var p := s.calls[c];
    var s1 := Step(s, a);
    assert s1.calls == s.calls[c := p.(stage := CheckingSession)];
    var s2 := Step(s1, a);
    assert s2.calls == s.calls[c := p.(stage := Refused)] && s2.db == s1.db;
    FinishIsFive(c, now, issued);
    RunsOn(s, c, now, issued, 2, 3);
    TwoOn(s, c, now, issued);
    EndedCallIsIdle(s2, c, now, issued, 3);
  }

  /** A call whose child cannot be stored: the mark, and no more. */
  lemma UninterruptedWithoutChild(s: System, c: nat, now: Time, issued: NewToken)
    requires c in s.calls && s.calls[c].stage.MarkingUsed? && s.calls[c].id in s.db.tokens
    requires SessionOpen(s.db, s.calls[c].row.sessionId)
    requires !CanCreate(s.db, issued.id, issued.hash, s.calls[c].row.sessionId)
    ensures var s' := Exec(s, Finish(c, now, issued));
            && s'.db == Apply(s.db, MarkUsed(s.calls[c].id, now))
            && s'.calls == s.calls[c := s.calls[c].(stage := Refused)]
  {
    var a := Advance(c, now, issued);
    var p := s.calls[c];
    var s3 := Step(Step(Step(s, a), a), a);
    FirstHalf(s, c, now, issued);
    MarkKeepsCreatable(s.db, p.id, now, issued.id, issued.hash, p.row.sessionId);
    var s4 := Step(s3, a);
    assert s4.calls == s.calls[c := p.(stage := Refused)] && s4.db == s3.db;
    FinishIsFive(c, now, issued);
    RunsOn(s, c, now, issued, 2, 3);
    RunsOn(Exec(s, seq(2, _ => a)), c, now, issued, 2, 1);
    TwoOn(s, c, now, issued);
    TwoOn(Step(Step(s, a), a), c, now, issued);
    EndedCallIsIdle(s4, c, now, issued, 1);
  }

  /** Burning a token, nothing interrupting. */
  lemma UninterruptedBurn(s: System, c: nat, now: Time, issued: NewToken)
    requires c in s.calls && s.calls[c].stage.MarkingUsed? && s.calls[c].id in s.db.tokens
    ensures var p := s.calls[c];
            var r := BurnPlan(s.db, p.id, p.row, now, issued);
            var s' := Exec(s, Finish(c, now, issued));
            && s'.db == ApplyAll(s.db, r.1)
            && c in s'.calls && EndsAs(s'.calls[c].stage, r.0)
            && forall d :: d in s.calls && d != c ==> d in s'.calls && s'.calls[d] == s.calls[d]
  {
    var p := s.calls[c];
    if !SessionOpen(s.db, p.row.sessionId) {
      UninterruptedOnClosed(s, c, now, issued);
      ApplyPrefix(s.db, [MarkUsed(p.id, now)], 1);
    } else if !CanCreate(s.db, issued.id, issued.hash, p.row.sessionId) {
      UninterruptedWithoutChild(s, c, now, issued);
      ApplyPrefix(s.db, [MarkUsed(p.id, now)], 1);
    } else {
      UninterruptedCallRotates(s, c, now, issued);
    }
  }

  /** In every case a refresh that nothing interrupts answers and leaves what the call as one does. */
  lemma UninterruptedRefreshIsTheCall(s: System, c: nat, hash: Digest, now: Time, issued: NewToken)
    requires Inv(s) && c !in s.calls
    ensures var r := RefreshPlan(s.db, hash, now, issued);
            var s' := Exec(s, Whole(c, hash, now, issued));
            && s'.db == ApplyAll(s.db, r.1)
            && (c in s'.calls <==> FindByHash(s.db.tokens, hash).Some?)
            && (c in s'.calls ==> EndsAs(s'.calls[c].stage, r.0))
  {
    var s1 := Step(s, Begin(c, hash, now));
    ExecFirst(s, Whole(c, hash, now, issued));
    assert Whole(c, hash, now, issued)[1..] == Finish(c, now, issued);
    FinishIsFive(c, now, issued);
    if c !in s1.calls || s1.calls[c].stage.Refused? {
      EndedCallIsIdle(s1, c, now, issued, 5);
    } else if s1.calls[c].stage.RevokingFamily? {
      UninterruptedReuse(s1, c, now, issued);
    } else {
      UninterruptedBurn(s1, c, now, issued);
    }
  }

  /** Every run of complete and cut calls is one of the interleavings: what holds of all interleavings holds of it. */
  lemma {:induction false} CallRunIsInterleaving(s: System, n: nat, cs: seq<CutCall>) returns (actions: seq<Action>)
    requires Inv(s) && forall c :: c in s.calls ==> c < n
    ensures Exec(s, actions).db == Run(s.db, cs)
    decreases |cs|
  {
    if cs == [] {
      return [];
    }
    var call := cs[0].call;
    var first: seq<Action>;
    if call.Refresh? {
      first := CutRefreshIsInterleaved(s, n, call.hash, call.now, call.issued, cs[0].writes);
    } else {
      var ws := Prefix(Plan(s.db, call), cs[0].writes);
      first := AsElsewhere(ws);
      WritesElsewhere(s, ws);
    }
    ExecKeepsInv(s, first);
    var rest := CallRunIsInterleaving(Exec(s, first), n + 1, cs[1..]);
    actions := first + rest;
    ExecAppend(s, first, rest);
  }
}
