/**
 Password resets with acceptance and commit as separate steps: `resetPassword`
 reads the row and checks it, hashes the new password, and only then runs its
 transaction, which does not look at the row again. Any number of resets
 interleave with each other and with the writes of every other service.
 */
module ResetInterleaving {
  import opened Prelude
  import opened AuthTables
  import opened AuthCalls

  datatype Stage = Committing | Done

  /** A call that accepted the row `hash`. */
  datatype Progress = Progress(hash: Digest, stage: Stage)

  datatype System = System(db: Db, calls: map<nat, Progress>)

  const START: System := System(EMPTY_DB, map[])

  datatype Action =
    | Accept(c: nat, hash: Digest, now: Time)
    | Commit(c: nat, password: Digest, now: Time)
    | Elsewhere(w: Write)

  /** Only resets consume a row. */
  ghost function Step(s: System, a: Action): System {
    match a
    case Accept(c, hash, now) =>
      if c !in s.calls && Acceptable(s.db, hash, now) then s.(calls := s.calls[c := Progress(hash, Committing)]) else s
    case Commit(c, password, now) =>
      if c in s.calls && s.calls[c].stage.Committing?
      then System(Apply(s.db, ConsumeReset(s.calls[c].hash, password, now)),
          s.calls[c := s.calls[c].(stage := Done)]) else s
    case Elsewhere(w) =>
      if w.ConsumeReset? then s else s.(db := Apply(s.db, w))
  }

  ghost function Exec(s: System, actions: seq<Action>): System
    decreases |actions|
  {
    if actions == [] then s else Exec(Step(s, actions[0]), actions[1..])
  }

  lemma {:induction false} ExecAppend(s: System, xs: seq<Action>, ys: seq<Action>)
    ensures Exec(s, xs + ys) == Exec(Exec(s, xs), ys)
    decreases |xs|
  {
    if xs == [] {
      assert xs + ys == ys;
    } else {
      assert (xs + ys)[1..] == xs[1..] + ys;
      ExecAppend(Step(s, xs[0]), xs[1..], ys);
    }
  }

  lemma ExecLast(s: System, actions: seq<Action>)
    requires actions != []
    ensures var n := |actions| - 1;
            Exec(s, actions) == Step(Exec(s, actions[..n]), actions[n])
  {
    var n := |actions| - 1;
    assert actions == actions[..n] + [actions[n]];
    ExecAppend(s, actions[..n], [actions[n]]);
    assert [actions[n]][1..] == [];
  }

  // ---------------------------------------------------------------------------
  // Invariants of every interleaving
  // ---------------------------------------------------------------------------

  predicate CallOk(db: Db, p: Progress) {
    p.hash in db.resets && (p.stage.Done? ==> db.resets[p.hash].usedAt.Some?)
  }

  ghost predicate Inv(s: System) {
    forall c :: c in s.calls ==> CallOk(s.db, s.calls[c])
  }

  lemma StepKeepsInv(s: System, a: Action)
    requires Inv(s)
    ensures Inv(Step(s, a)) && Evolves(s.db, Step(s, a).db)
  {
    var s' := Step(s, a);
    if s'.db != s.db {
      WriteEvolves(s.db, if a.Commit? then ConsumeReset(s.calls[a.c].hash, a.password, a.now) else a.w);
    }
    forall c | c in s'.calls
      ensures CallOk(s'.db, s'.calls[c])
    {
      if c in s.calls { assert CallOk(s.db, s.calls[c]); }
    }
  }

  lemma {:induction false} ExecKeepsInv(s: System, actions: seq<Action>)
    requires Inv(s)
    ensures Inv(Exec(s, actions))
    decreases |actions|
  {
    if actions != [] {
      StepKeepsInv(s, actions[0]);
      ExecKeepsInv(Step(s, actions[0]), actions[1..]);
    }
  }

  // ---------------------------------------------------------------------------
  // What changes a password
  // ---------------------------------------------------------------------------

  /** The step commits a call that accepted row `h`. */
  predicate Commits(s: System, a: Action, h: Digest) {
    a.Commit? && a.c in s.calls && s.calls[a.c] == Progress(h, Committing)
  }

  /**
   Once accepted, a row changes its user's password whenever the call commits: the row may have expired, been
   superseded or been used since. No other step changes a password.
   */
  lemma AcceptedRowChangesPassword(before: seq<Action>, a: Action, h: Digest)
    ensures var s := Exec(START, before);
            Commits(s, a, h) ==>
              && h in s.db.resets
              && Step(s, a).db.passwords == s.db.passwords[s.db.resets[h].userId := a.password]
              && Step(s, a).calls[a.c] == Progress(h, Done)
    ensures var s := Exec(START, before);
            (forall r :: !Commits(s, a, r)) ==> Step(s, a).db.passwords == s.db.passwords
  {
    ExecKeepsInv(START, before);
    var s := Exec(START, before);
    if a.Commit? && a.c in s.calls && s.calls[a.c].stage.Committing? {
      assert CallOk(s.db, s.calls[a.c]);
      assert Commits(s, a, s.calls[a.c].hash);
    }
  }

  /** An acceptance followed at once by its commit is the atomic call. */
  lemma AdjacentStepsAreTheCall(s: System, c: nat, h: Digest, password: Digest, now: Time)
    requires c !in s.calls && Acceptable(s.db, h, now)
    ensures Step(Step(s, Accept(c, h, now)), Commit(c, password, now)).db
            == Complete(s.db, ResetPassword(h, password, now))
  {
    ApplyPrefix(s.db, Plan(s.db, ResetPassword(h, password, now)), 1);
  }

  // ---------------------------------------------------------------------------
  // When a row changes the password twice
  // ---------------------------------------------------------------------------

  predicate OnRow(s: System, c: nat, h: Digest) {
    c in s.calls && s.calls[c].hash == h
  }

  predicate Changed(s: System, c: nat, h: Digest) {
    OnRow(s, c, h) && s.calls[c].stage.Done?
  }

  /** Both calls have accepted the row and neither has committed. */
  predicate Overlap(s: System, c: nat, d: nat, h: Digest) {
    OnRow(s, c, h) && OnRow(s, d, h) && s.calls[c].stage.Committing? && s.calls[d].stage.Committing?
  }

  lemma StepNeedsOverlap(s: System, a: Action, c: nat, d: nat, h: Digest)
    requires Inv(s) && c != d && OnRow(Step(s, a), c, h) && OnRow(Step(s, a), d, h)
    ensures (OnRow(s, c, h) && OnRow(s, d, h)) || Overlap(Step(s, a), c, d, h)
  {
    if OnRow(s, c, h) { assert CallOk(s.db, s.calls[c]); }
    if OnRow(s, d, h) { assert CallOk(s.db, s.calls[d]); }
  }

  lemma {:induction false} TwoCallsNeedOverlap(actions: seq<Action>, c: nat, d: nat, h: Digest) returns (k: nat)
    requires c != d && OnRow(Exec(START, actions), c, h) && OnRow(Exec(START, actions), d, h)
    ensures k <= |actions| && Overlap(Exec(START, actions[..k]), c, d, h)
    decreases |actions|
  {
    if actions == [] {
      assert false;
    } else {
      var n := |actions| - 1;
      var s := Exec(START, actions[..n]);
      ExecLast(START, actions);
      ExecKeepsInv(START, actions[..n]);
      StepNeedsOverlap(s, actions[n], c, d, h);
      if OnRow(s, c, h) && OnRow(s, d, h) {
        k := TwoCallsNeedOverlap(actions[..n], c, d, h);
        assert actions[..n][..k] == actions[..k];
      } else {
        k := |actions|;
        assert actions[..k] == actions;
      }
    }
  }

  lemma {:induction false} CallsStayOnRow(s: System, actions: seq<Action>, c: nat, h: Digest)
    requires OnRow(s, c, h)
    ensures OnRow(Exec(s, actions), c, h)
    decreases |actions|
  {
    if actions != [] { CallsStayOnRow(Step(s, actions[0]), actions[1..], c, h); }
  }

  predicate Pending(s: System, c: nat) {
    c in s.calls && s.calls[c].stage.Committing?
  }

  /**
   In every run in which both calls have run to their end, a row has changed the password twice if and only if at
   some moment both calls had accepted it and neither had committed.
   */
  lemma RowChangesTwiceIff(actions: seq<Action>, c: nat, d: nat, h: Digest)
    requires c != d && !Pending(Exec(START, actions), c) && !Pending(Exec(START, actions), d)
    ensures Changed(Exec(START, actions), c, h) && Changed(Exec(START, actions), d, h)
            <==> exists k :: 0 <= k <= |actions| && Overlap(Exec(START, actions[..k]), c, d, h)
  {
    if Changed(Exec(START, actions), c, h) && Changed(Exec(START, actions), d, h) {
      var k := TwoCallsNeedOverlap(actions, c, d, h);
    }
    if k :| 0 <= k <= |actions| && Overlap(Exec(START, actions[..k]), c, d, h) {
      assert actions == actions[..k] + actions[k..];
      ExecAppend(START, actions[..k], actions[k..]);
      CallsStayOnRow(Exec(START, actions[..k]), actions[k..], c, h);
      CallsStayOnRow(Exec(START, actions[..k]), actions[k..], d, h);
    }
  }

  /**
   From every such moment both calls can commit, at any two instants: the password is the first's, then the second's.
   */
  lemma OverlapAllowsTwoChanges(before: seq<Action>, c: nat, d: nat, h: Digest, first: Digest, second: Digest,
                                now: Time, later: Time)
    requires c != d && Overlap(Exec(START, before), c, d, h)
    ensures var s := Exec(START, before);
            var s1 := Step(s, Commit(c, first, now));
            var s2 := Step(s1, Commit(d, second, later));
            && h in s.db.resets
            && var u := s.db.resets[h].userId;
               && s1.db.passwords == s.db.passwords[u := first] && s2.db.passwords == s1.db.passwords[u := second]
               && Changed(s2, c, h) && Changed(s2, d, h)
  {
    ExecKeepsInv(START, before);
    assert CallOk(Exec(START, before).db, Exec(START, before).calls[c]);
  }

  /** A run in which a row changes the password twice, both times after it expired. */
  lemma TwoChangesAreReachable()
    ensures exists before: seq<Action>, h: Digest, now: Time ::
              && Overlap(Exec(START, before), 1, 2, h)
              && h in Exec(START, before).db.resets
              && Exec(START, before).db.resets[h].expiresAt <= now
              && var s' := Exec(Exec(START, before), [Commit(1, 111, now), Commit(2, 222, now)]);
                 Changed(s', 1, h) && Changed(s', 2, h) && 7 in s'.db.passwords && s'.db.passwords[7] == 222
  {
    var before := [Elsewhere(IssueReset(7, 50, 0, 100)), Accept(1, 50, 5), Accept(2, 50, 6)];
    var s1 := Step(START, before[0]);
    assert s1.db.resets == map[50 := Reset(7, 100, None)];
    var s2 := Step(s1, before[1]);
    var s3 := Step(s2, before[2]);
    assert Exec(START, before) == s3 by {
      assert before[1..][1..] == [before[2]] && [before[2]][1..] == [];
      assert Exec(s1, before[1..]) == Exec(s2, before[1..][1..]);
    }
    var commits := [Commit(1, 111, 200), Commit(2, 222, 200)];
    OverlapAllowsTwoChanges(before, 1, 2, 50, 111, 222, 200, 200);
    assert commits[1..][1..] == [];
    assert Exec(s3, commits) == Step(Step(s3, commits[0]), commits[1]);
  }
}
