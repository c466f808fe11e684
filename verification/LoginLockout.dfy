/**
 The failed-login counter: a Redis key that a rejected password increments, that
 expires a fixed time after the first rejection, and that an accepted password
 deletes. Calls are atomic and read a clock that never goes back.
 */
module LoginLockout {
  import opened Prelude

  datatype UserStatus = Invited | PendingVerification | Active | Locked | Suspended | Deleted

  datatype Counter = Counter(count: nat, expiresAt: Time)

  datatype Account = Account(status: UserStatus, lockedUntil: Option<Time>, counter: Option<Counter>)

  /** `maxAttempts` is validated positive by the configuration schema. */
  datatype Config = Config(maxAttempts: nat, lockoutSeconds: nat)

  datatype LoginOutcome =
    | EmailNotVerified
    | AccountLocked(until: Option<Time>)
    | AccountSuspended
    | Inactive
    | TooManyFailures
    | Rejected
    | Accepted

  function Window(cfg: Config): int {
    cfg.lockoutSeconds * 1000
  }

  /** What `GET` on the counter key answers, 0 standing for no key. */
  function Count(a: Account, now: Time): nat {
    if a.counter.Some? && now < a.counter.value.expiresAt then a.counter.value.count else 0
  }

  /** The status check before anything else; `None` lets the login go on. */
  function AssertUserCanLogIn(a: Account): (r: Option<LoginOutcome>)
    ensures r.None? <==> a.status.Active?
    ensures r.Some? ==> !r.value.Accepted? && !r.value.Rejected? && !r.value.TooManyFailures?
    ensures a.status.PendingVerification? <==> r == Some(EmailNotVerified)
    ensures a.status.Suspended? <==> r == Some(AccountSuspended)
    ensures a.status.Invited? || a.status.Deleted? <==> r == Some(Inactive)
    ensures a.status.Locked? <==> r == Some(AccountLocked(a.lockedUntil))
  {
    match a.status
    case Active => None
    case PendingVerification => Some(EmailNotVerified)
    case Locked => Some(AccountLocked(a.lockedUntil))
    case Suspended => Some(AccountSuspended)
    case Invited => Some(Inactive)
    case Deleted => Some(Inactive)
  }

  function Lock(cfg: Config, a: Account, now: Time): Account {
    a.(status := Locked, lockedUntil := Some(now + Window(cfg)))
  }

  function Increment(cfg: Config, a: Account, now: Time): Counter {
    if Count(a, now) == 0 then Counter(1, now + Window(cfg))
    else Counter(a.counter.value.count + 1, a.counter.value.expiresAt)
  }

  function Attempt(cfg: Config, a: Account, passwordOk: bool, now: Time): (Account, LoginOutcome) {
    var barred := AssertUserCanLogIn(a);
    if barred.Some? then (a, barred.value)
    else if Count(a, now) > 0 && Count(a, now) >= cfg.maxAttempts then (Lock(cfg, a, now), TooManyFailures)
    else if passwordOk then (a.(counter := None), Accepted)
    else
      var next := Increment(cfg, a, now);
      var a1 := a.(counter := Some(next));
      (if next.count >= cfg.maxAttempts then Lock(cfg, a1, now) else a1, Rejected)
  }

  /** The failures that count at `now`: those of a key that has not expired. */
  function LiveCount(a: Account, now: Time): nat {
    match a.counter
    case None => 0
    case Some(key) => if key.expiresAt <= now then 0 else key.count
  }

  /** The account was locked at `now`. */
  predicate Locks(cfg: Config, now: Time, after: Account) {
    after.status.Locked? && after.lockedUntil == Some(now + 1000 * cfg.lockoutSeconds)
  }

  predicate StatusKept(before: Account, after: Account) {
    after.status == before.status && after.lockedUntil == before.lockedUntil
  }

  /** What an attempt on an active account with `count` live failures answers and leaves. */
  predicate Attempted(cfg: Config, before: Account, count: nat, passwordOk: bool, now: Time,
                      after: Account, outcome: LoginOutcome) {
    var atLimit := count > 0 && count >= cfg.maxAttempts;
    && (outcome.TooManyFailures? <==> atLimit)
    && (outcome.Accepted? <==> !atLimit && passwordOk)
    && (outcome.Rejected? <==> !atLimit && !passwordOk)
    && (outcome.TooManyFailures? ==> Locks(cfg, now, after) && after.counter == before.counter)
    && (outcome.Accepted? ==> StatusKept(before, after) && after.counter.None?)
    && (outcome.Rejected? ==>
          && after.counter.Some? && after.counter.value.count == count + 1
          && after.counter.value.expiresAt == (if count == 0 || before.counter.None?
                                               then now + 1000 * cfg.lockoutSeconds
                                               else before.counter.value.expiresAt)
          && if count + 1 >= cfg.maxAttempts then Locks(cfg, now, after) else StatusKept(before, after))
  }

  class LoginAttempts {
    const cfg: Config
    var account: Account

    constructor (cfg: Config)
      ensures this.cfg == cfg && account == Account(Active, None, None)
    {
      this.cfg := cfg;
      account := Account(Active, None, None);
    }

    method Execute(passwordOk: bool, now: Time) returns (outcome: LoginOutcome)
      modifies this`account
      ensures (account, outcome) == Attempt(cfg, old(account), passwordOk, now)
      ensures !old(account).status.Active? ==>
                account == old(account) && AssertUserCanLogIn(old(account)) == Some(outcome)
      ensures old(account).status.Active? ==>
                Attempted(cfg, old(account), LiveCount(old(account), now), passwordOk, now, account, outcome)
    {
      var barred := AssertUserCanLogIn(account);
      if barred.Some? {
        return barred.value;
      }
      var failureCount := 0;
      if account.counter.Some? && now < account.counter.value.expiresAt {
        failureCount := account.counter.value.count;
      }
      if failureCount > 0 && failureCount >= cfg.maxAttempts {
        account := account.(status := Locked, lockedUntil := Some(now + cfg.lockoutSeconds * 1000));
        return TooManyFailures;
      }
      if !passwordOk {
        var newCount := failureCount + 1;
        var expiresAt := now + cfg.lockoutSeconds * 1000;
        if newCount != 1 {
          expiresAt := account.counter.value.expiresAt;
        }
        account := account.(counter := Some(Counter(newCount, expiresAt)));
        if newCount >= cfg.maxAttempts {
          account := account.(status := Locked, lockedUntil := Some(now + cfg.lockoutSeconds * 1000));
        }
        return Rejected;
      }
      account := account.(counter := None);
      return Accepted;
    }
  }

  // ---------------------------------------------------------------------------
  // Runs
  // ---------------------------------------------------------------------------

  /** Logins interleave with anything that sets the status: unlock, activate, suspend, delete. */
  datatype Event = Try(passwordOk: bool, now: Time) | SetStatus(status: UserStatus, lockedUntil: Option<Time>)

  datatype Entry = Entry(now: Time, outcome: LoginOutcome)

  datatype State = State(account: Account, history: seq<Entry>)

  function Step(cfg: Config, s: State, e: Event): State {
    match e
    case Try(passwordOk, now) =>
      var r := Attempt(cfg, s.account, passwordOk, now);
      State(r.0, s.history + [Entry(now, r.1)])
    case SetStatus(status, until) =>
      s.(account := s.account.(status := status, lockedUntil := until))
  }

  function Run(cfg: Config, s: State, events: seq<Event>): State
    decreases |events|
  {
    if events == [] then s else Run(cfg, Step(cfg, s, events[0]), events[1..])
  }

  predicate InOrder(clock: Time, events: seq<Event>)
    decreases |events|
  {
    events == [] ||
    if events[0].Try? then clock <= events[0].now && InOrder(events[0].now, events[1..])
    else InOrder(clock, events[1..])
  }

  // ---------------------------------------------------------------------------
  // The counter, read off the history alone
  // ---------------------------------------------------------------------------

  function Rejections(h: seq<Entry>): nat {
    if h == [] then 0 else Rejections(h[..|h| - 1]) + if h[|h| - 1].outcome.Rejected? then 1 else 0
  }

  /** The rejection that opened the window the key belongs to. */
  function Opened(cfg: Config, h: seq<Entry>): (r: Option<nat>)
    ensures r.Some? ==> r.value < |h| && h[r.value].outcome.Rejected?
  {
    if h == [] then None
    else
      var n := |h| - 1;
      var before := Opened(cfg, h[..n]);
      if h[n].outcome.Accepted? then None
      else if h[n].outcome.Rejected? && (before.None? || h[n].now >= h[before.value].now + Window(cfg)) then Some(n)
      else before
  }

  predicate Ordered(h: seq<Entry>) {
    forall i, j :: 0 <= i < j < |h| ==> h[i].now <= h[j].now
  }

  /** The stored key is what the history says, and within the limit. */
  predicate Tracks(cfg: Config, a: Account, h: seq<Entry>) {
    match Opened(cfg, h)
    case None => a.counter.None?
    case Some(i) =>
      && a.counter == Some(Counter(Rejections(h[i..]), h[i].now + Window(cfg)))
      && 0 < Rejections(h[i..]) <= cfg.maxAttempts
  }

  ghost predicate Inv(cfg: Config, s: State, clock: Time) {
    && Ordered(s.history)
    && (s.history != [] ==> s.history[|s.history| - 1].now <= clock)
    && (forall k :: 0 <= k < |s.history| ==> WithinLimit(cfg, s.history[..k]))
    && Tracks(cfg, s.account, s.history)
  }

  /** No window of the history holds more rejections than the limit. */
  predicate WithinLimit(cfg: Config, h: seq<Entry>) {
    var o := Opened(cfg, h);
    o.Some? ==> Rejections(h[o.value..]) <= cfg.maxAttempts
  }

  lemma RejectionsAppend(h: seq<Entry>, e: Entry)
    ensures Rejections(h + [e]) == Rejections(h) + if e.outcome.Rejected? then 1 else 0
  {
    assert (h + [e])[..|h|] == h;
  }

  lemma OpenedAppend(cfg: Config, h: seq<Entry>, e: Entry)
    ensures var o := Opened(cfg, h);
            Opened(cfg, h + [e]) ==
              if e.outcome.Accepted? then None
              else if e.outcome.Rejected? && (o.None? || e.now >= h[o.value].now + Window(cfg)) then Some(|h|)
              else o
  {
    assert (h + [e])[..|h|] == h;
  }

  /** The rejections of the current window, when `e` joins it or opens a new one. */
  lemma WindowAppend(cfg: Config, h: seq<Entry>, e: Entry)
    ensures Rejections((h + [e])[|h|..]) == if e.outcome.Rejected? then 1 else 0
    ensures var o := Opened(cfg, h);
            o.Some? ==>
                Rejections((h + [e])[o.value..]) == Rejections(h[o.value..]) + if e.outcome.Rejected? then 1 else 0
  {
    var o := Opened(cfg, h);
    if o.Some? {
      assert (h + [e])[o.value..] == h[o.value..] + [e];
      RejectionsAppend(h[o.value..], e);
    }
    assert (h + [e])[|h|..] == [] + [e];
    RejectionsAppend([], e);
  }

  lemma AttemptTracks(cfg: Config, a: Account, h: seq<Entry>, passwordOk: bool, now: Time)
    requires cfg.maxAttempts > 0 && Tracks(cfg, a, h)
    ensures var r := Attempt(cfg, a, passwordOk, now);
            Tracks(cfg, r.0, h + [Entry(now, r.1)])
  {
    var e := Entry(now, Attempt(cfg, a, passwordOk, now).1);
    OpenedAppend(cfg, h, e);
    WindowAppend(cfg, h, e);
    var o := Opened(cfg, h);
    assert o.Some? ==> (h + [e])[o.value] == h[o.value];
    assert (h + [e])[|h|] == e;
  }

  lemma AttemptKeepsInv(cfg: Config, s: State, passwordOk: bool, now: Time, clock: Time)
    requires cfg.maxAttempts > 0 && Inv(cfg, s, clock) && clock <= now
    ensures Inv(cfg, Step(cfg, s, Try(passwordOk, now)), now)
  {
    var h := s.history;
    AttemptTracks(cfg, s.account, h, passwordOk, now);
    var h' := Step(cfg, s, Try(passwordOk, now)).history;
    forall k | 0 <= k < |h'|
      ensures WithinLimit(cfg, h'[..k])
    {
      assert h'[..k] == h[..k];
      if k == |h| { assert h[..k] == h; }
    }
    assert Ordered(h');
  }

  lemma SetStatusKeepsInv(cfg: Config, s: State, e: Event, clock: Time)
    requires Inv(cfg, s, clock) && e.SetStatus?
    ensures Inv(cfg, Step(cfg, s, e), clock)
  {
  }

  /** In every run the stored count is the rejections since the window opened, and never more than the limit. */
  lemma {:induction false} CounterTracksHistory(cfg: Config, s: State, events: seq<Event>, clock: Time)
    returns (end: Time)
    requires cfg.maxAttempts > 0 && Inv(cfg, s, clock) && InOrder(clock, events)
    ensures Inv(cfg, Run(cfg, s, events), end)
    decreases |events|
  {
    if events == [] {
      end := clock;
    } else if events[0].Try? {
      AttemptKeepsInv(cfg, s, events[0].passwordOk, events[0].now, clock);
      end := CounterTracksHistory(cfg, Step(cfg, s, events[0]), events[1..], events[0].now);
    } else {
      SetStatusKeepsInv(cfg, s, events[0], clock);
      end := CounterTracksHistory(cfg, Step(cfg, s, events[0]), events[1..], clock);
    }
  }

  // ---------------------------------------------------------------------------
  // How many passwords a stretch of time can reject
  // ---------------------------------------------------------------------------

  predicate NoneAccepted(h: seq<Entry>, i: nat, j: nat)
    requires i <= j <= |h|
  {
    forall k :: i <= k < j ==> !h[k].outcome.Accepted?
  }

  lemma RejectionsUpTo(h: seq<Entry>, i: nat, j: nat)
    requires i < j <= |h|
    ensures Rejections(h[i..j]) == Rejections(h[i..j - 1]) + if h[j - 1].outcome.Rejected? then 1 else 0
  {
    assert h[i..j] == h[i..j - 1] + [h[j - 1]];
    RejectionsAppend(h[i..j - 1], h[j - 1]);
  }

  lemma {:induction false} RejectionsSplit(h: seq<Entry>, i: nat, m: nat, j: nat)
    requires i <= m <= j <= |h|
    ensures Rejections(h[i..j]) == Rejections(h[i..m]) + Rejections(h[m..j])
    decreases j
  {
    if m < j {
      RejectionsSplit(h, i, m, j - 1);
      RejectionsUpTo(h, i, j);
      RejectionsUpTo(h, m, j);
    }
  }

  lemma {:induction false} NoWindowNoRejection(cfg: Config, h: seq<Entry>, i: nat, j: nat)
    requires i <= j <= |h| && NoneAccepted(h, i, j) && Opened(cfg, h[..j]).None?
    ensures Rejections(h[i..j]) == 0
    decreases j
  {
    if i < j {
      assert h[..j][..j - 1] == h[..j - 1];
      NoWindowNoRejection(cfg, h, i, j - 1);
      RejectionsUpTo(h, i, j);
    }
  }

  lemma {:induction false} OpenedStays(cfg: Config, h: seq<Entry>, j: nat)
    requires j <= |h| && Opened(cfg, h[..j]).Some?
    ensures var o := Opened(cfg, h[..j]).value;
            var before := Opened(cfg, h[..o]);
            && Opened(cfg, h[..o + 1]) == Some(o)
            && (before.Some? ==> h[o].now >= h[before.value].now + Window(cfg))
    decreases j
  {
    assert h[..j][..j - 1] == h[..j - 1];
    var o := Opened(cfg, h[..j]).value;
    if o == j - 1 {
      assert h[..o + 1] == h[..j];
    } else {
      OpenedStays(cfg, h, j - 1);
    }
  }

  /** A window that was open at the end and opened before `i` was open at `i`. */
  lemma {:induction false} WindowPersists(cfg: Config, h: seq<Entry>, i: nat, j: nat)
    requires i <= j <= |h| && Opened(cfg, h[..j]).Some? && Opened(cfg, h[..j]).value < i
    ensures Opened(cfg, h[..i]) == Opened(cfg, h[..j])
    decreases j
  {
    if i < j {
      assert h[..j][..j - 1] == h[..j - 1];
      WindowPersists(cfg, h, i, j - 1);
    }
  }

  lemma {:induction false} NoWindowPersists(cfg: Config, h: seq<Entry>, i: nat, j: nat)
    requires i <= j <= |h| && NoneAccepted(h, i, j) && Opened(cfg, h[..j]).None?
    ensures Opened(cfg, h[..i]).None?
    decreases j
  {
    if i < j {
      assert h[..j][..j - 1] == h[..j - 1];
      NoWindowPersists(cfg, h, i, j - 1);
    }
  }

  /** The counter after `h`, as the history gives it: by `Tracks` it is what Redis stores. */
  function Reading(cfg: Config, h: seq<Entry>): nat {
    var o := Opened(cfg, h);
    if o.None? then 0 else Rejections(h[o.value..])
  }

  lemma ReadingUpTo(cfg: Config, h: seq<Entry>, j: nat)
    requires j <= |h|
    ensures var o := Opened(cfg, h[..j]);
            Reading(cfg, h[..j]) == if o.None? then 0 else Rejections(h[o.value..j])
  {
    var o := Opened(cfg, h[..j]);
    if o.Some? { assert h[..j][o.value..] == h[o.value..j]; }
  }

  /** Without a new window the rejections from `i` to `j` are the counter's gain. */
  lemma GainInWindow(cfg: Config, h: seq<Entry>, i: nat, j: nat)
    requires i <= j <= |h| && NoneAccepted(h, i, j)
    requires var o := Opened(cfg, h[..j]); o.Some? ==> o.value < i
    ensures Opened(cfg, h[..i]) == Opened(cfg, h[..j])
    ensures Rejections(h[i..j]) == Reading(cfg, h[..j]) - Reading(cfg, h[..i])
  {
    var o := Opened(cfg, h[..j]);
    ReadingUpTo(cfg, h, i);
    ReadingUpTo(cfg, h, j);
    if o.None? {
      NoWindowNoRejection(cfg, h, i, j);
      NoWindowPersists(cfg, h, i, j);
    } else {
      WindowPersists(cfg, h, i, j);
      RejectionsSplit(h, o.value, i, j);
    }
  }

  /** Entries `i` to `j`, without an accepted password, in less time than the lockout. */
  predicate ShortStretch(cfg: Config, h: seq<Entry>, i: nat, j: nat) {
    i < j <= |h| && NoneAccepted(h, i, j) && h[j - 1].now < h[i].now + Window(cfg)
  }

  /** A window opened in the stretch, after its first entry. */
  predicate Reopens(cfg: Config, h: seq<Entry>, i: nat, j: nat)
    requires j <= |h|
  {
    var o := Opened(cfg, h[..j]);
    o.Some? && o.value > i
  }

  /** The window before the one that opened in a short stretch had opened before the stretch, or there was none. */
  lemma OneReopening(cfg: Config, h: seq<Entry>, i: nat, j: nat)
    requires Ordered(h) && ShortStretch(cfg, h, i, j) && Reopens(cfg, h, i, j)
    ensures var before := Opened(cfg, h[..Opened(cfg, h[..j]).value]);
            before.Some? ==> before.value < i
  {
    OpenedStays(cfg, h, j);
    var o := Opened(cfg, h[..j]).value;
    var before := Opened(cfg, h[..o]);
    assert h[o].now <= h[j - 1].now;
  }

  /** The rejections of a short stretch, from counter readings alone. */
  lemma StretchReadings(cfg: Config, h: seq<Entry>, i: nat, j: nat)
    requires Ordered(h) && ShortStretch(cfg, h, i, j)
    ensures var o := Opened(cfg, h[..j]);
            Rejections(h[i..j]) ==
              if Reopens(cfg, h, i, j) then Reading(cfg, h[..o.value]) - Reading(cfg, h[..i]) + Reading(cfg, h[..j])
              else if o == Some(i) then Reading(cfg, h[..j])
              else Reading(cfg, h[..j]) - Reading(cfg, h[..i])
  {
    var o := Opened(cfg, h[..j]);
    ReadingUpTo(cfg, h, j);
    if Reopens(cfg, h, i, j) {
      OneReopening(cfg, h, i, j);
      GainInWindow(cfg, h, i, o.value);
      RejectionsSplit(h, i, o.value, j);
    } else if o != Some(i) {
      GainInWindow(cfg, h, i, j);
    }
  }

  // ---------------------------------------------------------------------------
  // The same on every run of a fresh account
  // ---------------------------------------------------------------------------

  function History(cfg: Config, status: UserStatus, events: seq<Event>): seq<Entry> {
    Run(cfg, State(Account(status, None, None), []), events).history
  }

  lemma RunHistory(cfg: Config, status: UserStatus, events: seq<Event>, clock: Time)
    requires cfg.maxAttempts > 0 && InOrder(clock, events)
    ensures var h := History(cfg, status, events);
            Ordered(h) && forall k :: 0 <= k <= |h| ==> Reading(cfg, h[..k]) <= cfg.maxAttempts
  {
    var end := CounterTracksHistory(cfg, State(Account(status, None, None), []), events, clock);
    var h := History(cfg, status, events);
    assert h[..|h|] == h;
    forall k | 0 <= k <= |h|
      ensures Reading(cfg, h[..k]) <= cfg.maxAttempts
    {
      if k < |h| { assert WithinLimit(cfg, h[..k]); }
    }
  }

  /**
   In every run: as long as no window opens, no more passwords than the limit are rejected, whatever unlocks happen.
   */
  lemma WindowBound(cfg: Config, status: UserStatus, events: seq<Event>, clock: Time, i: nat, j: nat)
    requires cfg.maxAttempts > 0 && InOrder(clock, events)
    requires i <= j <= |History(cfg, status, events)| && NoneAccepted(History(cfg, status, events), i, j)
    requires !Reopens(cfg, History(cfg, status, events), i, j)
    ensures Rejections(History(cfg, status, events)[i..j]) <= cfg.maxAttempts
  {
    var h := History(cfg, status, events);
    RunHistory(cfg, status, events, clock);
    ReadingUpTo(cfg, h, j);
    if Opened(cfg, h[..j]) != Some(i) { GainInWindow(cfg, h, i, j); }
  }

  /**
   In every run, a stretch shorter than the lockout and without an accepted password rejects more passwords than the
   limit if and only if a window opens in it and the old counter's gain since the stretch began, with the new
   counter, exceeds the limit. It never rejects twice the limit: the rejection that opened the old window is not in it.
   */
  lemma RejectionsInAnyStretch(cfg: Config, status: UserStatus, events: seq<Event>, clock: Time, i: nat, j: nat)
    requires cfg.maxAttempts > 0 && InOrder(clock, events)
    requires ShortStretch(cfg, History(cfg, status, events), i, j)
    ensures var h := History(cfg, status, events);
            && Rejections(h[i..j]) <= 2 * cfg.maxAttempts - 1
            && (Rejections(h[i..j]) > cfg.maxAttempts <==>
                  && Reopens(cfg, h, i, j)
                  && var o := Opened(cfg, h[..j]).value;
                     Reading(cfg, h[..o]) - Reading(cfg, h[..i]) + Reading(cfg, h[..j]) > cfg.maxAttempts)
  {
    var h := History(cfg, status, events);
    RunHistory(cfg, status, events, clock);
    StretchReadings(cfg, h, i, j);
    if Reopens(cfg, h, i, j) {
      var o := Opened(cfg, h[..j]).value;
      OneReopening(cfg, h, i, j);
      ReadingUpTo(cfg, h, o);
      ReadingUpTo(cfg, h, i);
      if Opened(cfg, h[..o]).Some? { OpeningCounts(cfg, h, i, o); }
    }
  }

  /** A window that opened before `i` has counted its opening by then. */
  lemma OpeningCounts(cfg: Config, h: seq<Entry>, i: nat, o: nat)
    requires i <= o <= |h| && Opened(cfg, h[..o]).Some? && Opened(cfg, h[..o]).value < i
    ensures Reading(cfg, h[..i]) > 0
  {
    var b := Opened(cfg, h[..o]).value;
    WindowPersists(cfg, h, i, o);
    ReadingUpTo(cfg, h, i);
    RejectionsSplit(h, b, b + 1, i);
    assert h[b..b + 1] == [] + [h[b]];
    RejectionsAppend([], h[b]);
  }

  // ---------------------------------------------------------------------------
  // The bound is reached
  // ---------------------------------------------------------------------------

  function Wrong(n: nat, now: Time): seq<Event> {
    if n == 0 then [] else [Try(false, now)] + Wrong(n - 1, now)
  }

  function Refusals(n: nat, now: Time): (r: seq<Entry>)
    ensures |r| == n && forall e :: e in r ==> e == Entry(now, Rejected)
  {
    if n == 0 then [] else [Entry(now, Rejected)] + Refusals(n - 1, now)
  }

  lemma {:induction false} RunAppend(cfg: Config, s: State, xs: seq<Event>, ys: seq<Event>)
    ensures Run(cfg, s, xs + ys) == Run(cfg, Run(cfg, s, xs), ys)
    decreases |xs|
  {
    if xs == [] {
      assert xs + ys == ys;
    } else {
      assert (xs + ys)[1..] == xs[1..] + ys;
      RunAppend(cfg, Step(cfg, s, xs[0]), xs[1..], ys);
    }
  }

  lemma {:induction false} WrongInOrder(clock: Time, n: nat, now: Time, rest: seq<Event>)
    requires clock <= now && InOrder(now, rest)
    ensures InOrder(clock, Wrong(n, now) + rest)
    decreases n
  {
    if n == 0 {
      assert Wrong(n, now) + rest == rest;
      LaterClock(clock, now, rest);
    } else {
      WrongInOrder(now, n - 1, now, rest);
      assert (Wrong(n, now) + rest)[1..] == Wrong(n - 1, now) + rest;
    }
  }

  lemma {:induction false} LaterClock(clock: Time, now: Time, events: seq<Event>)
    requires clock <= now && InOrder(now, events)
    ensures InOrder(clock, events)
    decreases |events|
  {
    if events != [] && !events[0].Try? { LaterClock(clock, now, events[1..]); }
  }

  /** One wrong password, while the counter has room for it. */
  lemma WrongStep(cfg: Config, s: State, now: Time)
    requires s.account.status.Active? && Count(s.account, now) < cfg.maxAttempts && cfg.lockoutSeconds > 0
    ensures var s' := Step(cfg, s, Try(false, now));
            var count := Count(s.account, now) + 1;
            && s'.history == s.history + [Entry(now, Rejected)]
            && s'.account.counter == Some(Counter(count, Increment(cfg, s.account, now).expiresAt))
            && Count(s'.account, now) == count
            && Increment(cfg, s'.account, now).expiresAt == Increment(cfg, s.account, now).expiresAt
            && (count < cfg.maxAttempts ==> s'.account.status.Active?)
  {
  }

  lemma FirstWrong(cfg: Config, s: State, n: nat, now: Time)
    requires n > 0
    ensures Run(cfg, s, Wrong(n, now)) == Run(cfg, Step(cfg, s, Try(false, now)), Wrong(n - 1, now))
    ensures n == 1 ==> Run(cfg, s, Wrong(n, now)) == Step(cfg, s, Try(false, now))
    ensures Refusals(n, now) == [Entry(now, Rejected)] + Refusals(n - 1, now)
    ensures n == 1 ==> Refusals(n, now) == [Entry(now, Rejected)]
  {
    assert Wrong(n, now)[0] == Try(false, now) && Wrong(n, now)[1..] == Wrong(n - 1, now);
  }

  /** `n` wrong passwords in a row at one instant, as many as the counter has room for. */
  lemma {:induction false} WrongRun(cfg: Config, s: State, n: nat, now: Time)
    requires s.account.status.Active? && 0 < n && Count(s.account, now) + n <= cfg.maxAttempts && cfg.lockoutSeconds > 0
    ensures var s' := Run(cfg, s, Wrong(n, now));
            && s'.history == s.history + Refusals(n, now)
            && s'.account.counter == Some(Counter(Count(s.account, now) + n, Increment(cfg, s.account, now).expiresAt))
    decreases n
  {
    var s1 := Step(cfg, s, Try(false, now));
    WrongStep(cfg, s, now);
    FirstWrong(cfg, s, n, now);
    if n > 1 {
      WrongRun(cfg, s1, n - 1, now);
      assert s.history + [Entry(now, Rejected)] + Refusals(n - 1, now) == s.history + Refusals(n, now);
    } else {
      assert s.history + Refusals(1, now) == s.history + [Entry(now, Rejected)];
    }
  }

  lemma {:induction false} AllRejected(h: seq<Entry>)
    requires forall e :: e in h ==> e.outcome.Rejected?
    ensures Rejections(h) == |h|
    decreases |h|
  {
    if h != [] { AllRejected(h[..|h| - 1]); }
  }

  /** One rejection at 0, the rest of the limit just before its window ends, an unlock, and a full window just after. */
  function WorstCase(cfg: Config): seq<Event>
    requires cfg.maxAttempts > 0
  {
    var late := Wrong(cfg.maxAttempts, Window(cfg)) + [];
    Wrong(1, 0) + (Wrong(cfg.maxAttempts - 1, Window(cfg) - 1) + ([SetStatus(Active, None)] + late))
  }

  lemma WorstCaseHistory(cfg: Config)
    requires cfg.maxAttempts > 0 && cfg.lockoutSeconds > 0
    ensures InOrder(0, WorstCase(cfg))
    ensures History(cfg, Active, WorstCase(cfg))
            == Refusals(1, 0) + Refusals(cfg.maxAttempts - 1, Window(cfg) - 1) + Refusals(cfg.maxAttempts, Window(cfg))
  {
    var m, w := cfg.maxAttempts, Window(cfg);
    var unlock := SetStatus(Active, None);
    var last := Wrong(m, w) + [];
    var afterFirst := Wrong(m - 1, w - 1) + ([unlock] + last);
    WrongInOrder(w - 1, m, w, []);
    assert ([unlock] + last)[1..] == last;
    assert InOrder(w - 1, [unlock] + last);
    WrongInOrder(0, m - 1, w - 1, [unlock] + last);
    WrongInOrder(0, 1, 0, afterFirst);

    var s0 := State(Account(Active, None, None), []);
    RunAppend(cfg, s0, Wrong(1, 0), afterFirst);
    WrongRun(cfg, s0, 1, 0);
    var s1 := Run(cfg, s0, Wrong(1, 0));
    RunAppend(cfg, s1, Wrong(m - 1, w - 1), [unlock] + last);
    if m > 1 { FirstRejectionStaysActive(cfg, s0); WrongRun(cfg, s1, m - 1, w - 1); }
    var s2 := Run(cfg, s1, Wrong(m - 1, w - 1));
    assert s2.account.counter.value.expiresAt == w;
    var s3 := Step(cfg, s2, unlock);
    assert Run(cfg, s2, [unlock] + last) == Run(cfg, s3, last);
    assert last == Wrong(m, w);
    WrongRun(cfg, s3, m, w);
  }

  lemma FirstRejectionStaysActive(cfg: Config, s: State)
    requires cfg.maxAttempts > 1 && cfg.lockoutSeconds > 0 && s.account == Account(Active, None, None)
    ensures Run(cfg, s, Wrong(1, 0)).account == Account(Active, None, Some(Counter(1, Window(cfg))))
  {
    assert Wrong(1, 0) == [Try(false, 0)];
    assert Run(cfg, s, [Try(false, 0)]) == Run(cfg, Step(cfg, s, Try(false, 0)), []);
  }

  /** For every limit there is a run that reaches the bound: twice the limit less one, in two milliseconds. */
  lemma BoundIsReached(cfg: Config)
    requires cfg.maxAttempts > 0 && cfg.lockoutSeconds > 0
    ensures var h := History(cfg, Active, WorstCase(cfg));
            && InOrder(0, WorstCase(cfg))
            && ShortStretch(cfg, h, 1, 2 * cfg.maxAttempts)
            && Rejections(h[1..2 * cfg.maxAttempts]) == 2 * cfg.maxAttempts - 1
  {
    var m, w := cfg.maxAttempts, Window(cfg);
    WorstCaseHistory(cfg);
    var h := History(cfg, Active, WorstCase(cfg));
    var early, late := Refusals(m - 1, w - 1), Refusals(m, w);
    assert |h| == 2 * m;
    assert h[1..2 * m] == early + late;
    assert h[2 * m - 1] == late[m - 1] && late[m - 1] in late;
    if m > 1 { assert h[1] == early[0] && early[0] in early; } else { assert h[1] == late[0] && late[0] in late; }
    assert early + late == h[1..2 * m] && forall e :: e in early + late ==> e.outcome.Rejected?;
    AllRejected(early + late);
    forall k | 1 <= k < 2 * m
      ensures !h[k].outcome.Accepted?
    {
      assert h[k] == (early + late)[k - 1];
    }
  }

  /** No run has a stretch shorter than the lockout that rejects more passwords than the limit. */
  ghost predicate StretchesWithinLimit(cfg: Config) {
    forall status, events, clock, i: nat, j: nat ::
      InOrder(clock, events) && ShortStretch(cfg, History(cfg, status, events), i, j) ==>
      Rejections(History(cfg, status, events)[i..j]) <= cfg.maxAttempts
  }

  /**
   "At most the limit per lockout time" holds of a configuration if and only if the limit is one or the lockout empty.
   */
  lemma StretchesWithinLimitIff(cfg: Config)
    requires cfg.maxAttempts > 0
    ensures StretchesWithinLimit(cfg) <==> cfg.maxAttempts == 1 || cfg.lockoutSeconds == 0
  {
    if cfg.maxAttempts == 1 || cfg.lockoutSeconds == 0 {
      forall status, events, clock, i: nat, j: nat |
        InOrder(clock, events) && ShortStretch(cfg, History(cfg, status, events), i, j)
        ensures Rejections(History(cfg, status, events)[i..j]) <= cfg.maxAttempts
      {
        RunHistory(cfg, status, events, clock);
        RejectionsInAnyStretch(cfg, status, events, clock, i, j);
      }
    } else {
      BoundIsReached(cfg);
      var h := History(cfg, Active, WorstCase(cfg));
      assert Rejections(h[1..2 * cfg.maxAttempts]) > cfg.maxAttempts;
    }
  }

  predicate OnlyLogins(events: seq<Event>) {
    forall e :: e in events ==> e.Try?
  }

  /**
   A lock does not lapse: `lockedUntil` is reported but never compared, so only an unlock lets a login through again.
   */
  lemma {:induction false} LockDoesNotLapse(cfg: Config, s: State, events: seq<Event>)
    requires s.account.status.Locked? && OnlyLogins(events)
    ensures var s' := Run(cfg, s, events);
            && s'.account == s.account
            && s.history <= s'.history
            && forall k :: |s.history| <= k < |s'.history| ==>
                s'.history[k].outcome == AccountLocked(s.account.lockedUntil)
    decreases |events|
  {
    if events != [] {
      var s1 := Step(cfg, s, events[0]);
      assert s1.history[|s.history|].outcome == AccountLocked(s.account.lockedUntil);
      LockDoesNotLapse(cfg, s1, events[1..]);
    }
  }

  /**
   In every run of a fresh account: once the current window holds the limit of rejections, every attempt is answered
   that the account is locked, until the time of the last rejection plus the lockout, for as long as no status is set.
   */
  lemma LimitLocksOut(cfg: Config, status: UserStatus, before: seq<Event>, clock: Time, now: Time, after: seq<Event>)
    requires cfg.maxAttempts > 0 && InOrder(clock, before + [Try(false, now)]) && OnlyLogins(after)
    requires var h := History(cfg, status, before + [Try(false, now)]);
             h != [] && h[|h| - 1].outcome.Rejected? && Reading(cfg, h) == cfg.maxAttempts
    ensures var h := History(cfg, status, before + [Try(false, now)]);
            var h' := History(cfg, status, before + [Try(false, now)] + after);
            && h <= h'
            && forall k :: |h| <= k < |h'| ==>
                 h'[k].outcome == AccountLocked(Some(now + 1000 * cfg.lockoutSeconds))
  {
    var s0 := State(Account(status, None, None), []);
    var first := before + [Try(false, now)];
    RunAppend(cfg, s0, before, [Try(false, now)]);
    RunAppend(cfg, s0, first, after);
    var s := Run(cfg, s0, before);
    assert [Try(false, now)][1..] == [];
    var s1 := Step(cfg, s, Try(false, now));
    assert Run(cfg, s0, first) == s1;
    var _ := CounterTracksHistory(cfg, s0, first, clock);
    assert s1.account.counter.Some? && s1.account.counter.value.count == cfg.maxAttempts;
    LockDoesNotLapse(cfg, s1, after);
  }
}
