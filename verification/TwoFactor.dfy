/**
 A user's second factor: a TOTP secret and a list of hashed backup codes. Whether
 a TOTP code is valid is an input; SHA-256 is an arbitrary function `sha`, passed
 in, of which nothing is assumed.
 */
module TwoFactor {
  import opened Prelude
  import opened AuthTables
  import opened AuthCalls
  import opened AuthServices

  const BACKUP_CODE_COUNT := 10

  datatype Record = Record(enabled: bool, secret: Option<string>, codes: seq<string>)

  function UpperChar(c: char): char {
    if 'a' <= c <= 'z' then c - 'a' + 'A' else c
  }

  /** `toUpperCase` on the letters backup codes are made of. */
  function ToUpper(s: string): (r: string)
    ensures |r| == |s|
    ensures forall i :: 0 <= i < |s| ==> if 'a' <= s[i] <= 'z' then r[i] as int == s[i] as int - 32 else r[i] == s[i]
  {
    seq(|s|, i requires 0 <= i < |s| => UpperChar(s[i]))
  }

  function HashCode(sha: string -> string, code: string): string {
    sha(ToUpper(code))
  }

  predicate IsBackupCode(sha: string -> string, r: Record, code: string) {
    HashCode(sha, code) in r.codes
  }

  /** `filter(h => h !== hash)`. */
  function Without(codes: seq<string>, hash: string): (r: seq<string>)
    ensures forall h :: h in r <==> h in codes && h != hash
    ensures |r| <= |codes|
    ensures hash in codes ==> |r| < |codes|
  {
    if codes == [] then []
    else if codes[0] == hash then Without(codes[1..], hash)
    else [codes[0]] + Without(codes[1..], hash)
  }

  function HashAll(sha: string -> string, codes: seq<string>): (r: seq<string>)
    ensures |r| == |codes|
    ensures forall i :: 0 <= i < |codes| ==> r[i] == HashCode(sha, codes[i])
  {
    seq(|codes|, i requires 0 <= i < |codes| => HashCode(sha, codes[i]))
  }

  /** `hashes` are the hashes of `codes`, one by one. */
  predicate HashesOf(sha: string -> string, codes: seq<string>, hashes: seq<string>) {
    |hashes| == |codes| && forall i :: 0 <= i < |codes| ==> hashes[i] == sha(ToUpper(codes[i]))
  }

  /** Filtering takes every copy of the hash and leaves the others, each as often as before and in order. */
  lemma {:induction false} WithoutKeepsOthers(codes: seq<string>, hash: string)
    ensures multiset(Without(codes, hash)) == multiset(codes)[hash := 0]
  {
    if codes != [] {
      assert codes == [codes[0]] + codes[1..];
      WithoutKeepsOthers(codes[1..], hash);
    }
  }

  lemma NothingToTake(codes: seq<string>, hash: string)
    requires hash !in codes
    ensures multiset(codes)[hash := 0] == multiset(codes)
  {
  }

  // ---------------------------------------------------------------------------
  // One call at a time
  // ---------------------------------------------------------------------------

  datatype Call =
    | BeginSetup(secret: string, codes: seq<string>)
    | ConfirmSetup(totpOk: bool)
    | Disable(code: string, totpOk: bool)
    | VerifyLogin(code: string, totpOk: bool)
    | Regenerate(totpOk: bool, codes: seq<string>)

  /** `TokenRejected`: the code was good, and is spent, but the refresh token could not be stored. */
  datatype Outcome = AlreadyEnabled | NotEnabled | NotStarted | InvalidCode | ByBackupCode | ByTotp | TokenRejected | Ok

  function Serve(sha: string -> string, r: Record, call: Call): (Record, Outcome) {
    match call
    case BeginSetup(secret, codes) =>
      if r.enabled then (r, AlreadyEnabled) else (Record(false, Some(secret), HashAll(sha, codes)), Ok)
    case ConfirmSetup(totpOk) =>
      if r.enabled then (r, AlreadyEnabled)
      else if r.secret.None? then (r, NotStarted)
      else if !totpOk then (r, InvalidCode)
      else (Record(true, r.secret, r.codes), Ok)
    case Disable(code, totpOk) =>
      if !r.enabled then (r, NotEnabled)
      else if !(totpOk || IsBackupCode(sha, r, code)) then (r, InvalidCode)
      else (Record(false, None, []), Ok)
    case VerifyLogin(code, totpOk) =>
      if !r.enabled || r.secret.None? then (r, NotEnabled)
      else if IsBackupCode(sha, r, code) then
        (Record(true, r.secret, Without(r.codes, HashCode(sha, code))), ByBackupCode)
      else if totpOk then (r, ByTotp)
      else (r, InvalidCode)
    case Regenerate(totpOk, codes) =>
      if !r.enabled || r.secret.None? then (r, NotEnabled)
      else if !totpOk then (r, InvalidCode)
      else (Record(true, r.secret, HashAll(sha, codes)), Ok)
  }

  /** The calls that replace the list: a new set of codes, or none. */
  predicate Installs(sha: string -> string, r: Record, call: Call) {
    Serve(sha, r, call).1.Ok? && (call.BeginSetup? || call.Regenerate? || call.Disable?)
  }

  /** The service hands out exactly ten codes at a time. */
  predicate IssuesTen(call: Call) {
    (call.BeginSetup? || call.Regenerate?) ==> |call.codes| == BACKUP_CODE_COUNT
  }

  // ---------------------------------------------------------------------------
  // Runs
  // ---------------------------------------------------------------------------

  /** `spent`: the hashes that logged in through the backup branch since the last installation. */
  datatype State = State(record: Record, spent: seq<string>)

  const NEW_USER: State := State(Record(false, None, []), [])

  function Step(sha: string -> string, s: State, call: Call): State {
    var served := Serve(sha, s.record, call);
    State(served.0,
          if Installs(sha, s.record, call) then []
          else if served.1.ByBackupCode? then s.spent + [HashCode(sha, call.code)]
          else s.spent)
  }

  function Run(sha: string -> string, s: State, calls: seq<Call>): State
    decreases |calls|
  {
    if calls == [] then s else Run(sha, Step(sha, s, calls[0]), calls[1..])
  }

  predicate Inv(s: State) {
    && (s.record.enabled ==> s.record.secret.Some?)
    && |s.spent| + |s.record.codes| <= BACKUP_CODE_COUNT
    && (forall h :: h in s.spent ==> h !in s.record.codes)
    && (forall i, j :: 0 <= i < j < |s.spent| ==> s.spent[i] != s.spent[j])
  }

  lemma {:induction false} RunKeepsInv(sha: string -> string, s: State, calls: seq<Call>)
    requires Inv(s) && forall c :: c in calls ==> IssuesTen(c)
    ensures Inv(Run(sha, s, calls))
    decreases |calls|
  {
    if calls != [] {
      assert IssuesTen(calls[0]);
      RunKeepsInv(sha, Step(sha, s, calls[0]), calls[1..]);
    }
  }

  /** Since the last installation of codes: at most ten backup logins, no hash twice; and 2FA on implies a secret. */
  lemma BackupLoginsAreBounded(sha: string -> string, calls: seq<Call>)
    requires forall c :: c in calls ==> IssuesTen(c)
    ensures var s := Run(sha, NEW_USER, calls);
            && |s.spent| <= BACKUP_CODE_COUNT
            && (forall i, j :: 0 <= i < j < |s.spent| ==> s.spent[i] != s.spent[j])
            && (s.record.enabled ==> s.record.secret.Some?)
  {
    RunKeepsInv(sha, NEW_USER, calls);
  }

  predicate NoInstall(sha: string -> string, s: State, calls: seq<Call>)
    decreases |calls|
  {
    calls == [] || (!Installs(sha, s.record, calls[0]) && NoInstall(sha, Step(sha, s, calls[0]), calls[1..]))
  }

  lemma {:induction false} AbsentHashStaysAbsent(sha: string -> string, s: State, calls: seq<Call>, hash: string)
    requires hash !in s.record.codes && NoInstall(sha, s, calls)
    ensures hash !in Run(sha, s, calls).record.codes
    decreases |calls|
  {
    if calls != [] {
      AbsentHashStaysAbsent(sha, Step(sha, s, calls[0]), calls[1..], hash);
    }
  }

  /** A backup code that logged in does not log in again, in any letter case, until codes are installed anew. */
  lemma BackupCodeWorksOnce(sha: string -> string, s: State, code: string, totp: bool, calls: seq<Call>, again: string,
                            totpAgain: bool)
    requires Serve(sha, s.record, VerifyLogin(code, totp)).1.ByBackupCode?
    requires NoInstall(sha, Step(sha, s, VerifyLogin(code, totp)), calls)
    requires ToUpper(again) == ToUpper(code)
    ensures var s' := Run(sha, Step(sha, s, VerifyLogin(code, totp)), calls);
            !Serve(sha, s'.record, VerifyLogin(again, totpAgain)).1.ByBackupCode?
  {
    AbsentHashStaysAbsent(sha, Step(sha, s, VerifyLogin(code, totp)), calls, HashCode(sha, code));
  }

  /** The characters are equal, or one is the capital of the other. */
  predicate SameLetter(c: char, d: char) {
    || c == d
    || ('a' <= c <= 'z' && d as int == c as int - 32)
    || ('a' <= d <= 'z' && c as int == d as int - 32)
  }

  /** Codes are told apart by everything but letter case. */
  lemma LetterCaseIsIgnored(s: string, t: string)
    ensures ToUpper(s) == ToUpper(t) <==> |s| == |t| && forall i :: 0 <= i < |s| ==> SameLetter(s[i], t[i])
  {
    if ToUpper(s) == ToUpper(t) {
      forall i | 0 <= i < |s|
        ensures SameLetter(s[i], t[i])
      {
        assert ToUpper(s)[i] == ToUpper(t)[i];
      }
    }
    if |s| == |t| && forall i :: 0 <= i < |s| ==> SameLetter(s[i], t[i]) {
      assert forall i :: 0 <= i < |s| ==> ToUpper(s)[i] == ToUpper(t)[i];
    }
  }

  /** A second-factor code is good: a valid TOTP, or the hash of a stored backup code. */
  predicate GoodCode(sha: string -> string, r: Record, code: string, totpOk: bool) {
    totpOk || sha(ToUpper(code)) in r.codes
  }

  // ---------------------------------------------------------------------------
  // The service
  // ---------------------------------------------------------------------------

  class TwoFactorService {
    const sha: string -> string
    const store: AuthStore
    var record: Record

    constructor (sha: string -> string, store: AuthStore)
      ensures this.sha == sha && this.store == store && record == NEW_USER.record
    {
      this.sha, this.store := sha, store;
      record := Record(false, None, []);
    }

    method BeginSetup(secret: string, codes: seq<string>) returns (outcome: Outcome)
      modifies this`record
      ensures (record, outcome) == Serve(sha, old(record), Call.BeginSetup(secret, codes))
      ensures outcome == if old(record).enabled then AlreadyEnabled else Ok
      ensures outcome.Ok? ==> !record.enabled && record.secret == Some(secret) && HashesOf(sha, codes, record.codes)
      ensures !outcome.Ok? ==> record == old(record)
    {
      if record.enabled {
        return AlreadyEnabled;
      }
      record := Record(false, Some(secret), HashAll(sha, codes));
      return Ok;
    }

    method ConfirmSetup(totpOk: bool) returns (outcome: Outcome)
      modifies this`record
      ensures (record, outcome) == Serve(sha, old(record), Call.ConfirmSetup(totpOk))
      ensures outcome.Ok? <==> !old(record).enabled && old(record).secret.Some? && totpOk
      ensures outcome.AlreadyEnabled? <==> old(record).enabled
      ensures outcome.NotStarted? <==> !old(record).enabled && old(record).secret.None?
      ensures outcome.InvalidCode? <==> !old(record).enabled && old(record).secret.Some? && !totpOk
      ensures record == if outcome.Ok? then old(record).(enabled := true) else old(record)
    {
      if record.enabled {
        return AlreadyEnabled;
      }
      if record.secret.None? {
        return NotStarted;
      }
      if !totpOk {
        return InvalidCode;
      }
      record := record.(enabled := true);
      return Ok;
    }

    method Disable(code: string, totpOk: bool) returns (outcome: Outcome)
      modifies this`record
      ensures (record, outcome) == Serve(sha, old(record), Call.Disable(code, totpOk))
      ensures outcome.Ok? <==> old(record).enabled && GoodCode(sha, old(record), code, totpOk)
      ensures outcome.NotEnabled? <==> !old(record).enabled
      ensures outcome.InvalidCode? <==> old(record).enabled && !GoodCode(sha, old(record), code, totpOk)
      ensures record == if outcome.Ok? then Record(false, None, []) else old(record)
    {
      if !record.enabled {
        return NotEnabled;
      }
      if !totpOk && !IsBackupCode(sha, record, code) {
        return InvalidCode;
      }
      record := Record(false, None, []);
      return Ok;
    }

    /**
     A good code also inserts a root refresh token on the pending session, which need not be open. When the table
     rejects the token the call fails, with the backup code spent.
     */
    method VerifyLogin(userId: Uuid, sid: Uuid, code: string, totpOk: bool, now: Time, issued: NewToken)
      returns (outcome: Outcome)
      modifies this`record, store
      ensures outcome.ByBackupCode? || outcome.ByTotp? || outcome.TokenRejected? <==>
                old(record).enabled && old(record).secret.Some? && GoodCode(sha, old(record), code, totpOk)
      ensures outcome.NotEnabled? <==> !(old(record).enabled && old(record).secret.Some?)
      ensures outcome.InvalidCode? <==>
                old(record).enabled && old(record).secret.Some? && !GoodCode(sha, old(record), code, totpOk)
      ensures outcome.NotEnabled? || outcome.InvalidCode? ==>
                record == old(record) && store.Tables() == old(store.Tables()) && store.log == old(store.log)
      ensures outcome.ByBackupCode? ==> sha(ToUpper(code)) in old(record).codes
      ensures outcome.ByTotp? ==> sha(ToUpper(code)) !in old(record).codes
      ensures record.enabled == old(record).enabled && record.secret == old(record).secret
      ensures outcome.ByBackupCode? || outcome.ByTotp? || outcome.TokenRejected? ==>
                multiset(record.codes) == multiset(old(record).codes)[sha(ToUpper(code)) := 0]
      ensures outcome.ByBackupCode? || outcome.ByTotp? ==>
                && sid in old(store.sessions)
                && store.tokens == old(store.tokens)[issued.id :=
                     Token(issued.hash, userId, sid, issued.id, None, issued.expiresAt, None, None, None)]
                && store.sessions == old(store.sessions)
      ensures outcome.TokenRejected? ==> store.Tables() == old(store.Tables())
      ensures record == Serve(sha, old(record), Call.VerifyLogin(code, totpOk)).0
      ensures var served := Serve(sha, old(record), Call.VerifyLogin(code, totpOk)).1;
              if served.ByBackupCode? || served.ByTotp? then
                && Performed(store, VerifyTwoFactor(userId, sid, now, issued))
                && outcome == (if CanCreate(old(store.Tables()), issued.id, issued.hash, sid) then served
                               else TokenRejected)
              else
                store.Tables() == old(store.Tables()) && store.log == old(store.log) && outcome == served
    {
      if !record.enabled || record.secret.None? {
        return NotEnabled;
      }
      var isBackupCode := IsBackupCode(sha, record, code);
      if !isBackupCode && !totpOk {
        return InvalidCode;
      }
      if isBackupCode {
        record := record.(codes := Without(record.codes, HashCode(sha, code)));
      }
      WithoutKeepsOthers(old(record).codes, HashCode(sha, code));
      if !isBackupCode { NothingToTake(old(record).codes, HashCode(sha, code)); }
      ghost var db := store.Tables();
      ApplyPrefix(db, Plan(db, VerifyTwoFactor(userId, sid, now, issued)), 3);
      var root := Token(issued.hash, userId, sid, issued.id, None, issued.expiresAt, None, None, None);
      var ok := store.CreateToken(issued.id, root);
      if !ok {
        return TokenRejected;
      }
      return if isBackupCode then ByBackupCode else ByTotp;
    }

    method RegenerateBackupCodes(totpOk: bool, codes: seq<string>) returns (outcome: Outcome)
      modifies this`record
      ensures (record, outcome) == Serve(sha, old(record), Regenerate(totpOk, codes))
      ensures outcome.Ok? <==> old(record).enabled && old(record).secret.Some? && totpOk
      ensures outcome.NotEnabled? <==> !(old(record).enabled && old(record).secret.Some?)
      ensures outcome.Ok? ==>
                record.enabled && record.secret == old(record).secret && HashesOf(sha, codes, record.codes)
      ensures !outcome.Ok? ==> record == old(record)
    {
      if !record.enabled || record.secret.None? {
        return NotEnabled;
      }
      if !totpOk {
        return InvalidCode;
      }
      record := record.(codes := HashAll(sha, codes));
      return Ok;
    }
  }
}
