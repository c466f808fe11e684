/**
 Second-factor calls with the read of the user's record and the write of it as
 separate steps: a call decides on the copy it read, and the write stores all
 three columns of what it computed from that copy. Any number of calls of one
 user interleave. A call whose write is never scheduled has died.
 */
module TwoFactorInterleaving {
  import opened Prelude
  import TF = TwoFactor

  type Record = TF.Record
  type Call = TF.Call

  /** `read` is the copy the call decided on; it is pending until its write. */
  datatype Progress = Progress(call: Call, read: Record, pending: bool)

  /** `spent`: the hashes that logged in since codes were last installed, in the order of their writes. */
  datatype System = System(record: Record, calls: map<nat, Progress>, spent: seq<string>)

  const START: System := System(TF.NEW_USER.record, map[], [])

  datatype Action = Begin(c: nat, call: Call) | Write(c: nat)

  /** The calls that store the record: refusals and logins by TOTP do not. */
  predicate Stores(sha: string -> string, read: Record, call: Call) {
    var outcome := TF.Serve(sha, read, call).1;
    outcome.Ok? || outcome.ByBackupCode?
  }

  predicate Pending(s: System, c: nat) {
    c in s.calls && s.calls[c].pending
  }

  function SpentAfter(sha: string -> string, spent: seq<string>, p: Progress): seq<string> {
    if TF.Installs(sha, p.read, p.call) then []
    else if TF.Serve(sha, p.read, p.call).1.ByBackupCode? then spent + [TF.HashCode(sha, p.call.code)]
    else spent
  }

  function Step(sha: string -> string, s: System, a: Action): System {
    match a
    case Begin(c, call) =>
      if c in s.calls then s else s.(calls := s.calls[c := Progress(call, s.record, Stores(sha, s.record, call))])
    case Write(c) =>
      if !Pending(s, c) then s
      else
        var p := s.calls[c];
        System(TF.Serve(sha, p.read, p.call).0, s.calls[c := p.(pending := false)], SpentAfter(sha, s.spent, p))
  }

  function Exec(sha: string -> string, s: System, actions: seq<Action>): System
    decreases |actions|
  {
    if actions == [] then s else Exec(sha, Step(sha, s, actions[0]), actions[1..])
  }

  lemma {:induction false} ExecAppend(sha: string -> string, s: System, xs: seq<Action>, ys: seq<Action>)
    ensures Exec(sha, s, xs + ys) == Exec(sha, Exec(sha, s, xs), ys)
    decreases |xs|
  {
    if xs == [] {
      assert xs + ys == ys;
    } else {
      assert (xs + ys)[1..] == xs[1..] + ys;
      ExecAppend(sha, Step(sha, s, xs[0]), xs[1..], ys);
    }
  }

  lemma ExecLast(sha: string -> string, s: System, actions: seq<Action>)
    requires actions != []
    ensures var n := |actions| - 1;
            Exec(sha, s, actions) == Step(sha, Exec(sha, s, actions[..n]), actions[n])
  {
    var n := |actions| - 1;
    assert actions == actions[..n] + [actions[n]];
    ExecAppend(sha, s, actions[..n], [actions[n]]);
    assert [actions[n]][1..] == [];
  }

  // ---------------------------------------------------------------------------
  // What survives every interleaving
  // ---------------------------------------------------------------------------

  predicate IssuesTen(actions: seq<Action>) {
    forall a :: a in actions && a.Begin? ==> TF.IssuesTen(a.call)
  }

  predicate RecordOk(r: Record) {
    (r.enabled || r.codes != [] ==> r.secret.Some?) && |r.codes| <= TF.BACKUP_CODE_COUNT
  }

  predicate Inv(s: System) {
    && RecordOk(s.record)
    && forall c :: c in s.calls ==> RecordOk(s.calls[c].read) && TF.IssuesTen(s.calls[c].call)
  }

  lemma ServeKeepsRecordOk(sha: string -> string, r: Record, call: Call)
    requires RecordOk(r) && TF.IssuesTen(call)
    ensures RecordOk(TF.Serve(sha, r, call).0)
  {
  }

  /** Under every interleaving: 2FA on, or any code stored, implies a secret, and at most ten codes are stored. */
  lemma {:induction false} ExecKeepsInv(sha: string -> string, s: System, actions: seq<Action>)
    requires Inv(s) && IssuesTen(actions)
    ensures Inv(Exec(sha, s, actions))
    decreases |actions|
  {
    if actions != [] {
      var a := actions[0];
      assert a in actions;
      if a.Write? && Pending(s, a.c) { ServeKeepsRecordOk(sha, s.calls[a.c].read, s.calls[a.c].call); }
      ExecKeepsInv(sha, Step(sha, s, a), actions[1..]);
    }
  }

  /** A read followed at once by its write, if there is one, is the call as one. */
  lemma AdjacentStepsAreTheCall(sha: string -> string, s: System, c: nat, call: Call)
    requires c !in s.calls
    ensures var s' := Step(sha, Step(sha, s, Begin(c, call)), Write(c));
            TF.State(s'.record, s'.spent) == TF.Step(sha, TF.State(s.record, s.spent), call) && !Pending(s', c)
  {
    var s1 := Step(sha, s, Begin(c, call));
    assert s1.calls[c] == Progress(call, s.record, Stores(sha, s.record, call));
  }

  // ---------------------------------------------------------------------------
  // Runs without a stale write are runs of whole calls
  // ---------------------------------------------------------------------------

  /** The step stores what was computed from a copy the record no longer equals. */
  predicate Stale(s: System, a: Action) {
    a.Write? && Pending(s, a.c) && s.calls[a.c].read != s.record
  }

  predicate NeverStale(sha: string -> string, actions: seq<Action>) {
    forall k :: 0 <= k < |actions| ==> !Stale(Exec(sha, START, actions[..k]), actions[k])
  }

  lemma {:induction false} CallsAppend(sha: string -> string, s: TF.State, calls: seq<Call>, call: Call)
    ensures TF.Run(sha, s, calls + [call]) == TF.Step(sha, TF.Run(sha, s, calls), call)
    decreases |calls|
  {
    if calls == [] {
      assert (calls + [call])[1..] == [];
    } else {
      assert (calls + [call])[1..] == calls[1..] + [call];
      CallsAppend(sha, TF.Step(sha, s, calls[0]), calls[1..], call);
    }
  }

  lemma CallsWereBegun(sha: string -> string, actions: seq<Action>)
    requires IssuesTen(actions)
    ensures forall c :: c in Exec(sha, START, actions).calls ==> TF.IssuesTen(Exec(sha, START, actions).calls[c].call)
  {
    assert Inv(START);
    ExecKeepsInv(sha, START, actions);
  }

  /** An interleaving in which no write is stale leaves what the same calls leave one after the other. */
  lemma {:induction false} FreshRunIsAtomic(sha: string -> string, actions: seq<Action>) returns (calls: seq<Call>)
    requires NeverStale(sha, actions) && IssuesTen(actions)
    ensures forall call :: call in calls ==> TF.IssuesTen(call)
    ensures var s := Exec(sha, START, actions);
            TF.Run(sha, TF.NEW_USER, calls) == TF.State(s.record, s.spent)
    decreases |actions|
  {
    if actions == [] {
      calls := [];
    } else {
      var n := |actions| - 1;
      var before, a := actions[..n], actions[n];
      forall k | 0 <= k < n
        ensures !Stale(Exec(sha, START, before[..k]), before[k])
      {
        assert before[..k] == actions[..k];
      }
      calls := FreshRunIsAtomic(sha, before);
      ExecLast(sha, START, actions);
      CallsWereBegun(sha, before);
      var s := Exec(sha, START, before);
      if a.Write? && Pending(s, a.c) {
        assert !Stale(Exec(sha, START, actions[..n]), actions[n]);
        CallsAppend(sha, TF.NEW_USER, calls, s.calls[a.c].call);
        calls := calls + [s.calls[a.c].call];
      }
    }
  }

  predicate Repeats(spent: seq<string>) {
    exists i, j :: 0 <= i < j < |spent| && spent[i] == spent[j]
  }

  /**
   A code logs in twice since the last installation only if some call wrote although the record had changed since it
   read.
   */
  lemma RepeatNeedsStaleWrite(sha: string -> string, actions: seq<Action>) returns (k: nat)
    requires IssuesTen(actions) && Repeats(Exec(sha, START, actions).spent)
    ensures k < |actions| && Stale(Exec(sha, START, actions[..k]), actions[k])
  {
    if NeverStale(sha, actions) {
      var calls := FreshRunIsAtomic(sha, actions);
      TF.BackupLoginsAreBounded(sha, calls);
      assert false;
    }
    k :| 0 <= k < |actions| && Stale(Exec(sha, START, actions[..k]), actions[k]);
  }

  /** A pending call's copy has gone stale only because another call wrote after it had read. */
  lemma {:induction false} StaleNeedsWriteBetween(sha: string -> string, actions: seq<Action>, c: nat) returns (k: nat)
    requires var s := Exec(sha, START, actions); Pending(s, c) && s.calls[c].read != s.record
    ensures k < |actions| && actions[k].Write? && actions[k].c != c
    ensures var s := Exec(sha, START, actions[..k]); Pending(s, c) && Pending(s, actions[k].c)
    decreases |actions|
  {
    if actions == [] {
      assert false;
    } else {
      var n := |actions| - 1;
      ExecLast(sha, START, actions);
      var s := Exec(sha, START, actions[..n]);
      if Pending(s, c) && s.calls[c].read != s.record {
        k := StaleNeedsWriteBetween(sha, actions[..n], c);
        assert actions[..n][..k] == actions[..k];
      } else {
        k := n;
      }
    }
  }

  // ---------------------------------------------------------------------------
  // When a code works again
  // ---------------------------------------------------------------------------

  /** The call's write will log in with `hash`, or store it again. */
  predicate Restores(sha: string -> string, p: Progress, hash: string) {
    p.pending && !TF.Installs(sha, p.read, p.call) && hash in p.read.codes
  }

  predicate Live(sha: string -> string, s: System, hash: string) {
    hash in s.record.codes || exists c :: c in s.calls && Restores(sha, s.calls[c], hash)
  }

  predicate InstallStep(sha: string -> string, s: System, a: Action) {
    a.Write? && Pending(s, a.c) && TF.Installs(sha, s.calls[a.c].read, s.calls[a.c].call)
  }

  predicate NoInstall(sha: string -> string, s: System, actions: seq<Action>)
    decreases |actions|
  {
    actions == [] || (!InstallStep(sha, s, actions[0]) && NoInstall(sha, Step(sha, s, actions[0]), actions[1..]))
  }

  predicate LogsIn(sha: string -> string, s: System, a: Action, hash: string) {
    && a.Write? && Pending(s, a.c)
    && s.calls[a.c].call.VerifyLogin?
    && TF.Serve(sha, s.calls[a.c].read, s.calls[a.c].call).1.ByBackupCode?
    && TF.HashCode(sha, s.calls[a.c].call.code) == hash
  }

  predicate EndsInLogin(sha: string -> string, s: System, actions: seq<Action>, hash: string)
    decreases |actions|
  {
    && actions != []
    && if |actions| == 1 then LogsIn(sha, s, actions[0], hash)
       else EndsInLogin(sha, Step(sha, s, actions[0]), actions[1..], hash)
  }

  /** The code of `hash` can log in again before codes are installed anew. */
  ghost predicate WorksAgain(sha: string -> string, s: System, hash: string) {
    exists actions :: NoInstall(sha, s, actions) && EndsInLogin(sha, s, actions, hash)
  }

  lemma StepKeepsDead(sha: string -> string, s: System, a: Action, hash: string)
    requires !Live(sha, s, hash) && !InstallStep(sha, s, a)
    ensures !Live(sha, Step(sha, s, a), hash) && !LogsIn(sha, s, a, hash)
  {
    var s' := Step(sha, s, a);
    if a.Write? && Pending(s, a.c) { assert !Restores(sha, s.calls[a.c], hash); }
    forall c | c in s'.calls
      ensures !Restores(sha, s'.calls[c], hash)
    {
      if c in s.calls { assert !Restores(sha, s.calls[c], hash); }
    }
  }

  lemma {:induction false} DeadNeverLogsIn(sha: string -> string, s: System, actions: seq<Action>, hash: string)
    requires !Live(sha, s, hash) && NoInstall(sha, s, actions)
    ensures !EndsInLogin(sha, s, actions, hash)
    decreases |actions|
  {
    if actions != [] {
      StepKeepsDead(sha, s, actions[0], hash);
      DeadNeverLogsIn(sha, Step(sha, s, actions[0]), actions[1..], hash);
    }
  }

  lemma {:induction false} UnusedId(ids: set<nat>) returns (n: nat)
    ensures forall m :: m in ids ==> m < n
  {
    if forall m :: m !in ids {
      n := 0;
    } else {
      var m :| m in ids;
      var other := UnusedId(ids - {m});
      n := if other > m then other else m + 1;
      assert ids == (ids - {m}) + {m};
    }
  }

  /** With 2FA on and the hash stored, a login with the code works: a read and a write. */
  lemma StoredCodeWorks(sha: string -> string, s: System, code: string)
    requires s.record.enabled && s.record.secret.Some? && TF.HashCode(sha, code) in s.record.codes
    ensures WorksAgain(sha, s, TF.HashCode(sha, code))
  {
    var d := UnusedId(s.calls.Keys);
    var login := TF.VerifyLogin(code, false);
    var actions := [Begin(d, login), Write(d)];
    var s1 := Step(sha, s, actions[0]);
    assert s1.calls[d] == Progress(login, s.record, true);
    assert actions[1..] == [Write(d)] && [Write(d)][1..] == [];
    assert LogsIn(sha, s1, Write(d), TF.HashCode(sha, code));
    assert NoInstall(sha, s1, [Write(d)]);
    assert NoInstall(sha, s, actions) && EndsInLogin(sha, s, actions, TF.HashCode(sha, code));
  }

  lemma StepThenWorks(sha: string -> string, s: System, a: Action, hash: string)
    requires !InstallStep(sha, s, a) && WorksAgain(sha, Step(sha, s, a), hash)
    ensures WorksAgain(sha, s, hash)
  {
    var s1 := Step(sha, s, a);
    var rest :| NoInstall(sha, s1, rest) && EndsInLogin(sha, s1, rest, hash);
    var actions := [a] + rest;
    assert actions[1..] == rest;
    assert NoInstall(sha, s, actions) && EndsInLogin(sha, s, actions, hash);
  }

  lemma PendingCodeWorks(sha: string -> string, s: System, c: nat, code: string)
    requires Inv(s) && c in s.calls && Restores(sha, s.calls[c], TF.HashCode(sha, code))
        && Stores(sha, s.calls[c].read, s.calls[c].call)
    ensures WorksAgain(sha, s, TF.HashCode(sha, code))
  {
    var hash := TF.HashCode(sha, code);
    if LogsIn(sha, s, Write(c), hash) {
      var actions := [Write(c)];
      assert actions[1..] == [];
      assert NoInstall(sha, Step(sha, s, Write(c)), actions[1..]);
      assert NoInstall(sha, s, actions) && EndsInLogin(sha, s, actions, hash);
    } else {
      StoredCodeWorks(sha, Step(sha, s, Write(c)), code);
      StepThenWorks(sha, s, Write(c), hash);
    }
  }

  lemma UnconfirmedCodeWorks(sha: string -> string, s: System, code: string)
    requires Inv(s) && !s.record.enabled && TF.HashCode(sha, code) in s.record.codes
    ensures WorksAgain(sha, s, TF.HashCode(sha, code))
  {
    var e := UnusedId(s.calls.Keys);
    var confirm := TF.ConfirmSetup(true);
    var s1 := Step(sha, s, Begin(e, confirm));
    assert s1.calls[e] == Progress(confirm, s.record, true);
    var s2 := Step(sha, s1, Write(e));
    StoredCodeWorks(sha, s2, code);
    StepThenWorks(sha, s1, Write(e), TF.HashCode(sha, code));
    StepThenWorks(sha, s, Begin(e, confirm), TF.HashCode(sha, code));
  }

  predicate PendingStores(sha: string -> string, s: System) {
    forall c :: c in s.calls && Pending(s, c) ==> Stores(sha, s.calls[c].read, s.calls[c].call)
  }

  lemma {:induction false} ExecKeepsPendingStores(sha: string -> string, s: System, actions: seq<Action>)
    requires PendingStores(sha, s)
    ensures PendingStores(sha, Exec(sha, s, actions))
    decreases |actions|
  {
    if actions != [] {
      var s1 := Step(sha, s, actions[0]);
      forall c | c in s1.calls && Pending(s1, c)
        ensures Stores(sha, s1.calls[c].read, s1.calls[c].call)
      {
        if c in s.calls { assert Pending(s, c); }
      }
      ExecKeepsPendingStores(sha, s1, actions[1..]);
    }
  }

  /**
   In every reachable state, a code can log in before the next installation if and only if its hash is stored or some
   call that read it is still to write - whether or not it has logged in already.
   */
  lemma CodeWorksIff(sha: string -> string, actions: seq<Action>, code: string)
    requires IssuesTen(actions)
    ensures var s := Exec(sha, START, actions);
            WorksAgain(sha, s, TF.HashCode(sha, code)) <==> Live(sha, s, TF.HashCode(sha, code))
  {
    var s := Exec(sha, START, actions);
    var hash := TF.HashCode(sha, code);
    assert Inv(START) && PendingStores(sha, START);
    ExecKeepsInv(sha, START, actions);
    ExecKeepsPendingStores(sha, START, actions);
    if !Live(sha, s, hash) {
      forall more | NoInstall(sha, s, more)
        ensures !EndsInLogin(sha, s, more, hash)
      {
        DeadNeverLogsIn(sha, s, more, hash);
      }
    } else if hash in s.record.codes {
      if s.record.enabled { StoredCodeWorks(sha, s, code); } else { UnconfirmedCodeWorks(sha, s, code); }
    } else {
      var c :| c in s.calls && Restores(sha, s.calls[c], hash);
      assert Pending(s, c);
      PendingCodeWorks(sha, s, c, code);
    }
  }

  /**
   As long as no write was stale, a code that has logged in can do so again if and only if some call read the record
   before that login wrote it and is still to write. So with no such call the code is spent for good.
   */
  lemma SpentCodeWorksAgainIff(sha: string -> string, actions: seq<Action>, code: string)
    requires IssuesTen(actions) && NeverStale(sha, actions)
    requires TF.HashCode(sha, code) in Exec(sha, START, actions).spent
    ensures var s := Exec(sha, START, actions);
            WorksAgain(sha, s, TF.HashCode(sha, code)) <==>
              exists c :: c in s.calls && Restores(sha, s.calls[c], TF.HashCode(sha, code))
                  && s.calls[c].read != s.record
  {
    var s := Exec(sha, START, actions);
    var hash := TF.HashCode(sha, code);
    var calls := FreshRunIsAtomic(sha, actions);
    TF.RunKeepsInv(sha, TF.NEW_USER, calls);
    assert hash !in s.record.codes;
    CodeWorksIff(sha, actions, code);
    if Live(sha, s, hash) {
      var c :| c in s.calls && Restores(sha, s.calls[c], hash);
      assert s.calls[c].read != s.record;
    }
  }

  // ---------------------------------------------------------------------------
  // When 2FA comes back on
  // ---------------------------------------------------------------------------

  /** The call's write will store the record with 2FA on. */
  predicate TurnsOn(sha: string -> string, p: Progress) {
    p.pending && TF.Serve(sha, p.read, p.call).0.enabled
  }

  predicate NoSetup(actions: seq<Action>) {
    forall a :: a in actions && a.Begin? ==> !a.call.BeginSetup? && !a.call.ConfirmSetup?
  }

  predicate StaysOff(sha: string -> string, s: System) {
    !s.record.enabled && forall c :: c in s.calls ==> !TurnsOn(sha, s.calls[c])
  }

  lemma {:induction false} OffStaysOff(sha: string -> string, s: System, actions: seq<Action>)
    requires StaysOff(sha, s) && NoSetup(actions)
    ensures !Exec(sha, s, actions).record.enabled
    decreases |actions|
  {
    if actions != [] {
      var s1 := Step(sha, s, actions[0]);
      assert actions[0] in actions;
      forall c | c in s1.calls
        ensures !TurnsOn(sha, s1.calls[c])
      {
        if c in s.calls { assert !TurnsOn(sha, s.calls[c]); }
      }
      if actions[0].Write? && Pending(s, actions[0].c) { assert !TurnsOn(sha, s.calls[actions[0].c]); }
      OffStaysOff(sha, s1, actions[1..]);
    }
  }

  /**
   With 2FA off - say by a completed `disable` - it comes back on without a new setup if and only if a call that read
   it on, or was confirming a setup, is still to write.
   */
  lemma ComesBackOnIff(sha: string -> string, s: System)
    requires !s.record.enabled
    ensures (exists actions :: NoSetup(actions) && Exec(sha, s, actions).record.enabled)
            <==> exists c :: c in s.calls && TurnsOn(sha, s.calls[c])
  {
    if c :| c in s.calls && TurnsOn(sha, s.calls[c]) {
      var actions := [Write(c)];
      assert actions[1..] == [];
      assert Exec(sha, s, actions) == Step(sha, s, Write(c));
      assert NoSetup(actions) && Exec(sha, s, actions).record.enabled;
    } else {
      forall actions | NoSetup(actions)
        ensures !Exec(sha, s, actions).record.enabled
      {
        OffStaysOff(sha, s, actions);
      }
    }
  }

  // ---------------------------------------------------------------------------
  // Runs that show both
  // ---------------------------------------------------------------------------

  function SetUpCalls(secret: string, codes: seq<string>): seq<Action> {
    [Begin(1, TF.BeginSetup(secret, codes)), Write(1), Begin(2, TF.ConfirmSetup(true)), Write(2)]
  }

  /** Setup, confirmation, and two logins with the same code whose reads come before either write. */
  function LoginTwice(secret: string, codes: seq<string>, code: string): seq<Action> {
    SetUpCalls(secret, codes)
    + [Begin(3, TF.VerifyLogin(code, false)), Begin(4, TF.VerifyLogin(code, false)), Write(3), Write(4)]
  }

  lemma FourSteps(sha: string -> string, s: System, a: Action, b: Action, c: Action, d: Action)
    ensures Exec(sha, s, [a, b, c, d]) == Step(sha, Step(sha, Step(sha, Step(sha, s, a), b), c), d)
  {
    assert [a, b, c, d][1..] == [b, c, d] && [b, c, d][1..] == [c, d] && [c, d][1..] == [d] && [d][1..] == [];
    var s1 := Step(sha, s, a);
    var s2 := Step(sha, s1, b);
    assert Exec(sha, s, [a, b, c, d]) == Exec(sha, s1, [b, c, d]) == Exec(sha, s2, [c, d]);
    assert Exec(sha, s2, [c, d]) == Exec(sha, Step(sha, s2, c), [d]) == Step(sha, Step(sha, s2, c), d);
  }

  /** A state in which 2FA has been set up with `codes` and nothing is pending. */
  predicate SetUp(sha: string -> string, s: System, secret: string, codes: seq<string>) {
    && s.record == TF.Record(true, Some(secret), TF.HashAll(sha, codes))
    && s.spent == [] && s.calls.Keys == {1, 2} && !Pending(s, 1) && !Pending(s, 2)
  }

  lemma SetUpIsReachable(sha: string -> string, secret: string, codes: seq<string>)
    ensures SetUp(sha, Exec(sha, START, SetUpCalls(secret, codes)), secret, codes)
  {
    var setup, confirm := TF.BeginSetup(secret, codes), TF.ConfirmSetup(true);
    FourSteps(sha, START, Begin(1, setup), Write(1), Begin(2, confirm), Write(2));
    var s1 := Step(sha, START, Begin(1, setup));
    assert s1.calls[1] == Progress(setup, START.record, true);
    var s2 := Step(sha, s1, Write(1));
    assert s2.record == TF.Record(false, Some(secret), TF.HashAll(sha, codes));
    var s3 := Step(sha, s2, Begin(2, confirm));
    assert s3.calls[2] == Progress(confirm, s2.record, true);
  }

  /** Whatever ten codes are issued, each of them can log in twice. */
  lemma CodeLogsInTwice(sha: string -> string, secret: string, codes: seq<string>, i: nat)
    requires |codes| == TF.BACKUP_CODE_COUNT && i < |codes|
    ensures var actions := LoginTwice(secret, codes, codes[i]);
            && IssuesTen(actions)
            && Exec(sha, START, actions).spent == [TF.HashCode(sha, codes[i]), TF.HashCode(sha, codes[i])]
  {
    var code := codes[i];
    var login := TF.VerifyLogin(code, false);
    var hash := TF.HashCode(sha, code);
    var early := SetUpCalls(secret, codes);
    var logins := [Begin(3, login), Begin(4, login), Write(3), Write(4)];
    assert LoginTwice(secret, codes, code) == early + logins;
    ExecAppend(sha, START, early, logins);
    SetUpIsReachable(sha, secret, codes);
    var s := Exec(sha, START, early);
    assert s.record.codes[i] == hash;
    FourSteps(sha, s, Begin(3, login), Begin(4, login), Write(3), Write(4));
    var s2 := Step(sha, Step(sha, s, Begin(3, login)), Begin(4, login));
    assert s2.calls[3] == Progress(login, s.record, true) && s2.calls[4] == Progress(login, s.record, true);
    var s3 := Step(sha, s2, Write(3));
    assert s3.spent == [hash] && s3.calls[4] == s2.calls[4];
  }

  /** And a login that read before a completed `disable` turns 2FA back on, with the other codes. */
  lemma DisableIsUndone(sha: string -> string, secret: string, codes: seq<string>, i: nat)
    requires i < |codes|
    ensures exists actions :: var s := Exec(sha, START, actions);
              && !s.record.enabled && s.record.secret.None?
              && Pending(s, 3)
              && Step(sha, s, Write(3)).record
                 == TF.Record(true, Some(secret), TF.Without(TF.HashAll(sha, codes), TF.HashCode(sha, codes[i])))
  {
    var login, disable := TF.VerifyLogin(codes[i], false), TF.Disable("", true);
    var early := SetUpCalls(secret, codes);
    SetUpIsReachable(sha, secret, codes);
    var s := Exec(sha, START, early);
    assert s.record.codes[i] == TF.HashCode(sha, codes[i]);
    var more := [Begin(3, login), Begin(4, disable), Write(4), Write(4)];
    FourSteps(sha, s, Begin(3, login), Begin(4, disable), Write(4), Write(4));
    ExecAppend(sha, START, early, more);
    var s2 := Step(sha, Step(sha, s, Begin(3, login)), Begin(4, disable));
    assert s2.calls[3] == Progress(login, s.record, true) && s2.calls[4] == Progress(disable, s.record, true);
    var s3 := Step(sha, s2, Write(4));
    assert s3.record == TF.Record(false, None, []) && Step(sha, s3, Write(4)) == s3;
    assert Exec(sha, START, early + more) == s3;
  }
}
