/**
 Login attempts on one account with every awaited statement a step of its own:
 the status check, the read of the failure counter, its increment, its expiry,
 the lock and the deletion of the counter. Any number of attempts interleave
 with each other, with the expiry of the key and with changes of the status.
 */
module LockoutInterleaving {
  import opened Prelude
  import LL = LoginLockout

  /** The counter key; without `ttl` Redis keeps it until it is deleted. */
  datatype Key = Key(count: nat, ttl: bool)

  /** What an attempt awaits next. `Incrementing` has passed the check of the counter and seen a wrong password. */
  datatype Stage = Checking | Incrementing | SettingExpiry | Locking | Deleting | Ended

  datatype Attempt = Attempt(passwordOk: bool, stage: Stage)

  datatype System = System(status: LL.UserStatus, key: Option<Key>, attempts: map<nat, Attempt>)

  const START: System := System(LL.Active, None, map[])

  datatype Action =
    | Begin(c: nat, passwordOk: bool)
    | Advance(c: nat)
    | KeyExpires
    | SetStatus(status: LL.UserStatus)

  function Count(s: System): nat {
    if s.key.Some? then s.key.value.count else 0
  }

  function AfterCount(max: nat, count: nat): Stage {
    if count >= max then Locking else Ended
  }

  function Advanced(max: nat, s: System, c: nat): System
    requires c in s.attempts
  {
    var p := s.attempts[c];
    match p.stage
    case Checking =>
      var next := if Count(s) > 0 && Count(s) >= max then Locking else if p.passwordOk then Deleting else Incrementing;
      s.(attempts := s.attempts[c := p.(stage := next)])
    case Incrementing =>
      var count := Count(s) + 1;
      s.(key := Some(Key(count, s.key.Some? && s.key.value.ttl)),
         attempts := s.attempts[c := p.(stage := if count == 1 then SettingExpiry else AfterCount(max, count))])
    case SettingExpiry =>
      s.(key := if s.key.Some? then Some(s.key.value.(ttl := true)) else None,
         attempts := s.attempts[c := p.(stage := AfterCount(max, 1))])
    case Locking => s.(status := LL.Locked, attempts := s.attempts[c := p.(stage := Ended)])
    case Deleting => s.(key := None, attempts := s.attempts[c := p.(stage := Ended)])
    case Ended => s
  }

  function Step(max: nat, s: System, a: Action): System {
    match a
    case Begin(c, passwordOk) =>
      if c in s.attempts || !s.status.Active? then s
      else s.(attempts := s.attempts[c := Attempt(passwordOk, Checking)])
    case Advance(c) => if c in s.attempts then Advanced(max, s, c) else s
    case KeyExpires => if s.key.Some? && s.key.value.ttl then s.(key := None) else s
    case SetStatus(status) => s.(status := status)
  }

  function Exec(max: nat, s: System, actions: seq<Action>): System
    decreases |actions|
  {
    if actions == [] then s else Exec(max, Step(max, s, actions[0]), actions[1..])
  }

  lemma {:induction false} ExecAppend(max: nat, s: System, xs: seq<Action>, ys: seq<Action>)
    ensures Exec(max, s, xs + ys) == Exec(max, Exec(max, s, xs), ys)
    decreases |xs|
  {
    if xs == [] {
      assert xs + ys == ys;
    } else {
      assert (xs + ys)[1..] == xs[1..] + ys;
      ExecAppend(max, Step(max, s, xs[0]), xs[1..], ys);
    }
  }

  /** The account of the atomic attempt that this state stands for at `now`; its key always has an expiry. */
  predicate StandsFor(s: System, a: LL.Account, now: Time) {
    a.status == s.status && LL.Count(a, now) == Count(s) && (s.key.Some? ==> s.key.value.ttl)
  }

  /**
   An attempt that nothing interrupts leaves the status and the count that the attempt as one leaves, and no
   key without expiry.
   */
  lemma UninterruptedAttemptIsTheCall(cfg: LL.Config, s: System, c: nat, ok: bool, a: LL.Account, now: Time)
    requires cfg.lockoutSeconds > 0 && StandsFor(s, a, now) && c !in s.attempts
    ensures var x := Advance(c);
            StandsFor(Exec(cfg.maxAttempts, s, [Begin(c, ok), x, x, x, x]), LL.Attempt(cfg, a, ok, now).0, now)
  {
    var max := cfg.maxAttempts;
    var x := Advance(c);
    var xs := [Begin(c, ok), x, x, x, x];
    var s1 := Step(max, s, xs[0]);
    assert s.status.Active? ==> s1.attempts[c] == Attempt(ok, Checking);
    var s2 := Step(max, s1, x);
    var s3 := Step(max, s2, x);
    var s4 := Step(max, s3, x);
    assert xs[1..] == [x, x, x, x] && [x, x, x, x][1..] == [x, x, x] && [x, x, x][1..] == [x, x];
    assert [x, x][1..] == [x] && [x][1..] == [];
    assert Exec(max, s, xs) == Exec(max, s1, [x, x, x, x]) == Exec(max, s2, [x, x, x]) == Exec(max, s3, [x, x]);
    assert Exec(max, s3, [x, x]) == Exec(max, s4, [x]) == Step(max, s4, x);
    FourAdvances(cfg, s1, c, ok, a, now);
  }

  lemma FourAdvances(cfg: LL.Config, s: System, c: nat, ok: bool, a: LL.Account, now: Time)
    requires cfg.lockoutSeconds > 0 && StandsFor(s, a, now)
    requires s.status.Active? ==> c in s.attempts && s.attempts[c] == Attempt(ok, Checking)
    requires !s.status.Active? ==> c !in s.attempts
    ensures var x := Advance(c);
            var m := cfg.maxAttempts;
            StandsFor(Step(m, Step(m, Step(m, Step(m, s, x), x), x), x), LL.Attempt(cfg, a, ok, now).0, now)
  {
    var m := cfg.maxAttempts;
    var s1 := Step(m, s, Advance(c));
    var s2 := Step(m, s1, Advance(c));
    var s3 := Step(m, s2, Advance(c));
    if s.status.Active? {
      assert c in s1.attempts && c in s2.attempts && c in s3.attempts;
      assert LL.AssertUserCanLogIn(a).None?;
    }
  }

  // ---------------------------------------------------------------------------
  // Attempts in flight
  // ---------------------------------------------------------------------------

  /** The attempts that are going to increment the counter whatever it holds by then. */
  function InFlight(s: System): set<nat> {
    set c | c in s.attempts && s.attempts[c].stage.Incrementing?
  }

  /** How a step changes them. */
  lemma InFlightStep(max: nat, s: System, a: Action)
    ensures var s' := Step(max, s, a);
            if a.Advance? && a.c in s.attempts && s.attempts[a.c].stage.Incrementing? then
              a.c in InFlight(s) && InFlight(s') == InFlight(s) - {a.c} && Count(s') == Count(s) + 1
            else if a.Advance? && a.c in s.attempts && s.attempts[a.c].stage.Checking? then
              a.c !in InFlight(s) && Count(s') == Count(s)
              && InFlight(s') == InFlight(s) + (if s'.attempts[a.c].stage.Incrementing? then {a.c} else {})
            else InFlight(s') == InFlight(s) && (Count(s') == Count(s) || Count(s') == 0)
  {
    var s' := Step(max, s, a);
    forall c | c in s.attempts && !(a.Advance? && a.c == c)
      ensures c in s'.attempts && s'.attempts[c] == s.attempts[c]
    {
    }
  }

  /** In every state of the run at most `m` attempts are in flight. */
  predicate AtMostInFlight(max: nat, m: nat, s: System, actions: seq<Action>)
    decreases |actions|
  {
    |InFlight(s)| <= m && (actions == [] || AtMostInFlight(max, m, Step(max, s, actions[0]), actions[1..]))
  }

  predicate Bounded(max: nat, m: nat, s: System) {
    Count(s) < max || Count(s) + |InFlight(s)| < max + m
  }

  lemma StepKeepsBounded(max: nat, m: nat, s: System, a: Action)
    requires max > 0 && m > 0 && Bounded(max, m, s) && |InFlight(s)| <= m
    ensures Bounded(max, m, Step(max, s, a))
  {
    InFlightStep(max, s, a);
    var s' := Step(max, s, a);
    if a.Advance? && a.c in s.attempts && s.attempts[a.c].stage.Incrementing? {
      assert |InFlight(s')| == |InFlight(s)| - 1;
    }
  }

  /** If never more than `m` attempts are in flight together, the counter never reaches the limit plus `m`. */
  lemma {:induction false} CounterBound(max: nat, m: nat, s: System, actions: seq<Action>)
    requires max > 0 && m > 0 && Bounded(max, m, s) && AtMostInFlight(max, m, s, actions)
    ensures Count(Exec(max, s, actions)) < max + m
    decreases |actions|
  {
    if actions != [] {
      StepKeepsBounded(max, m, s, actions[0]);
      CounterBound(max, m, Step(max, s, actions[0]), actions[1..]);
    }
  }

  // ---------------------------------------------------------------------------
  // How far past the limit the counter can get
  // ---------------------------------------------------------------------------

  /** No step of the run loses the key: it does not expire and no right password deletes it. */
  predicate KeyKept(max: nat, s: System, actions: seq<Action>)
    decreases |actions|
  {
    actions == [] ||
    (Count(Step(max, s, actions[0])) >= Count(s) && KeyKept(max, Step(max, s, actions[0]), actions[1..]))
  }

  lemma {:induction false} NoMoreThanInFlight(max: nat, s: System, actions: seq<Action>)
    requires max > 0 && Count(s) >= max && KeyKept(max, s, actions)
    ensures var s' := Exec(max, s, actions);
            Count(s) <= Count(s') && Count(s') + |InFlight(s')| <= Count(s) + |InFlight(s)|
    decreases |actions|
  {
    if actions != [] {
      InFlightStep(max, s, actions[0]);
      NoMoreThanInFlight(max, Step(max, s, actions[0]), actions[1..]);
    }
  }

  lemma {:induction false} InFlightIncrement(max: nat, s: System, n: nat) returns (actions: seq<Action>)
    requires n <= |InFlight(s)|
    ensures KeyKept(max, s, actions) && Count(Exec(max, s, actions)) == Count(s) + n
    decreases n
  {
    if n == 0 {
      actions := [];
    } else {
      var c := AnElement(InFlight(s));
      InFlightStep(max, s, Advance(c));
      var rest := InFlightIncrement(max, Step(max, s, Advance(c)), n - 1);
      actions := [Advance(c)] + rest;
      assert actions[1..] == rest;
    }
  }

  lemma AnElement(ids: set<nat>) returns (c: nat)
    requires |ids| > 0
    ensures c in ids
  {
    if forall m :: m !in ids { NoElementIsEmpty(ids); assert false; } else { c :| c in ids; }
  }

  /**
   Once the limit is reached, the counter can get to `n` before the key is lost exactly if enough attempts are in
   flight.
   */
  lemma CountReachableIff(max: nat, s: System, n: nat)
    requires max > 0 && Count(s) >= max
    ensures (exists actions :: KeyKept(max, s, actions) && Count(Exec(max, s, actions)) == n)
            <==> Count(s) <= n <= Count(s) + |InFlight(s)|
  {
    if Count(s) <= n <= Count(s) + |InFlight(s)| {
      var actions := InFlightIncrement(max, s, n - Count(s));
    }
    forall actions | KeyKept(max, s, actions)
      ensures Count(s) <= Count(Exec(max, s, actions)) <= Count(s) + |InFlight(s)|
    {
      NoMoreThanInFlight(max, s, actions);
    }
  }

  // ---------------------------------------------------------------------------
  // The bound is reached
  // ---------------------------------------------------------------------------

  /** `n` wrong passwords one after the other, from attempt `c` on. */
  function OneByOne(c: nat, n: nat): seq<Action>
    decreases n
  {
    if n == 0 then [] else [Begin(c, false), Advance(c), Advance(c), Advance(c)] + OneByOne(c + 1, n - 1)
  }

  /** Attempts `c` to `c + n` increment. */
  function Increments(c: nat, n: nat): seq<Action>
    decreases n
  {
    if n == 0 then [] else [Advance(c)] + Increments(c + 1, n - 1)
  }

  predicate Below(s: System, c: nat) {
    forall d :: d in s.attempts ==> d < c
  }

  lemma {:induction false} AtMostAppend(max: nat, m: nat, s: System, xs: seq<Action>, ys: seq<Action>)
    requires AtMostInFlight(max, m, s, xs) && AtMostInFlight(max, m, Exec(max, s, xs), ys)
    ensures AtMostInFlight(max, m, s, xs + ys)
    decreases |xs|
  {
    if xs == [] {
      assert xs + ys == ys;
    } else {
      assert (xs + ys)[1..] == xs[1..] + ys;
      AtMostAppend(max, m, Step(max, s, xs[0]), xs[1..], ys);
    }
  }

  /** One undisturbed wrong password, below the limit. */
  lemma OneWrong(max: nat, m: nat, s: System, c: nat)
    requires m > 0 && s.status.Active? && Below(s, c) && Count(s) + 1 < max && InFlight(s) == {}
    ensures var xs := [Begin(c, false), Advance(c), Advance(c), Advance(c)];
            var s' := Exec(max, s, xs);
            && AtMostInFlight(max, m, s, xs)
            && s'.status.Active? && Below(s', c + 1) && Count(s') == Count(s) + 1 && InFlight(s') == {}
  {
    var xs := [Begin(c, false), Advance(c), Advance(c), Advance(c)];
    var s1 := Step(max, s, xs[0]);
    InFlightStep(max, s, xs[0]);
    assert s1.attempts[c] == Attempt(false, Checking);
    var s2 := Step(max, s1, xs[1]);
    InFlightStep(max, s1, xs[1]);
    var s3 := Step(max, s2, xs[2]);
    InFlightStep(max, s2, xs[2]);
    var s4 := Step(max, s3, xs[3]);
    InFlightStep(max, s3, xs[3]);
    assert xs[1..][1..] == xs[2..] && xs[2..][1..] == xs[3..] && xs[3..][1..] == [];
    assert Exec(max, s, xs) == Exec(max, s1, xs[1..]) == Exec(max, s2, xs[2..]) == Exec(max, s3, xs[3..]) == s4;
    assert AtMostInFlight(max, m, s3, xs[3..]) && AtMostInFlight(max, m, s2, xs[2..]);
    assert AtMostInFlight(max, m, s1, xs[1..]);
  }

  lemma {:induction false} OneByOneCounts(max: nat, m: nat, s: System, c: nat, n: nat)
    requires m > 0 && s.status.Active? && Below(s, c) && Count(s) + n < max && InFlight(s) == {}
    ensures var s' := Exec(max, s, OneByOne(c, n));
            && AtMostInFlight(max, m, s, OneByOne(c, n))
            && s'.status.Active? && Below(s', c + n) && Count(s') == Count(s) + n && InFlight(s') == {}
    decreases n
  {
    if n > 0 {
      var xs := [Begin(c, false), Advance(c), Advance(c), Advance(c)];
      OneWrong(max, m, s, c);
      OneByOneCounts(max, m, Exec(max, s, xs), c + 1, n - 1);
      ExecAppend(max, s, xs, OneByOne(c + 1, n - 1));
      AtMostAppend(max, m, s, xs, OneByOne(c + 1, n - 1));
    }
  }

  function Range(c: nat, n: nat): (r: set<nat>)
    ensures forall d :: d in r <==> c <= d < c + n
    ensures |r| == n
  {
    if n == 0 then {} else Range(c, n - 1) + {c + n - 1}
  }

  /** Attempts `c` to `c + n` are exactly those in flight. */
  predicate FlightIs(s: System, c: nat, n: nat) {
    InFlight(s) == Range(c, n)
  }

  lemma BeginsInFlight(max: nat, s: System, base: nat, k: nat) returns (s1: System, s2: System)
    requires s.status.Active? && Below(s, base + k) && Count(s) < max && FlightIs(s, base, k)
    ensures s1 == Step(max, s, Begin(base + k, false)) && InFlight(s1) == InFlight(s)
    ensures s2 == Step(max, s1, Advance(base + k)) && FlightIs(s2, base, k + 1)
    ensures s2.status.Active? && Below(s2, base + k + 1) && Count(s2) == Count(s)
  {
    var c := base + k;
    s1 := Step(max, s, Begin(c, false));
    InFlightStep(max, s, Begin(c, false));
    assert s1.attempts[c] == Attempt(false, Checking);
    s2 := Step(max, s1, Advance(c));
    InFlightStep(max, s1, Advance(c));
    assert InFlight(s2) == Range(base, k + 1);
  }

  /** One more attempt begins and passes the check. */
  lemma OneMoreInFlight(max: nat, m: nat, s: System, base: nat, k: nat) returns (xs: seq<Action>, after: System)
    requires s.status.Active? && Below(s, base + k) && Count(s) < max && FlightIs(s, base, k) && k < m
    ensures after == Exec(max, s, xs) && AtMostInFlight(max, m, s, xs)
    ensures after.status.Active? && Below(after, base + k + 1) && Count(after) == Count(s)
    ensures FlightIs(after, base, k + 1)
  {
    var s1, s2 := BeginsInFlight(max, s, base, k);
    after := s2;
    xs := [Begin(base + k, false), Advance(base + k)];
    assert xs[1..] == [Advance(base + k)] && xs[1..][1..] == [];
    assert Exec(max, s1, xs[1..]) == s2;
    assert AtMostInFlight(max, m, s2, []);
    assert AtMostInFlight(max, m, s1, xs[1..]);
  }

  /** `n` more attempts begin and pass the check. */
  lemma {:induction false} TogetherInFlight(max: nat, m: nat, s: System, base: nat, k: nat, n: nat)
    returns (xs: seq<Action>, after: System)
    requires s.status.Active? && Below(s, base + k) && Count(s) < max && FlightIs(s, base, k) && k + n <= m
    ensures after == Exec(max, s, xs) && AtMostInFlight(max, m, s, xs)
    ensures FlightIs(after, base, k + n) && Count(after) == Count(s)
    decreases n
  {
    if n == 0 {
      xs, after := [], s;
    } else {
      var ys, s1 := OneMoreInFlight(max, m, s, base, k);
      var zs, s2 := TogetherInFlight(max, m, s1, base, k + 1, n - 1);
      ExecAppend(max, s, ys, zs);
      AtMostAppend(max, m, s, ys, zs);
      xs, after := ys + zs, s2;
    }
  }

  lemma {:induction false} IncrementsCount(max: nat, m: nat, s: System, c: nat, n: nat)
    requires FlightIs(s, c, n) && n <= m
    ensures AtMostInFlight(max, m, s, Increments(c, n))
    ensures Count(Exec(max, s, Increments(c, n))) == Count(s) + n
    decreases n
  {
    if n > 0 {
      assert c in InFlight(s);
      var s1 := Step(max, s, Advance(c));
      InFlightStep(max, s, Advance(c));
      assert InFlight(s1) == Range(c + 1, n - 1);
      IncrementsCount(max, m, s1, c + 1, n - 1);
      assert Increments(c, n)[1..] == Increments(c + 1, n - 1);
    }
  }

  lemma TogetherThenIncrements(max: nat, m: nat, s: System, c: nat) returns (actions: seq<Action>)
    requires s.status.Active? && Below(s, c) && Count(s) < max && InFlight(s) == {}
    ensures AtMostInFlight(max, m, s, actions) && Count(Exec(max, s, actions)) == Count(s) + m
  {
    assert FlightIs(s, c, 0);
    var xs, s1 := TogetherInFlight(max, m, s, c, 0, m);
    IncrementsCount(max, m, s1, c, m);
    ExecAppend(max, s, xs, Increments(c, m));
    AtMostAppend(max, m, s, xs, Increments(c, m));
    actions := xs + Increments(c, m);
  }

  /** For every limit and every number of attempts in flight, some run reaches one below the bound. */
  lemma BoundIsReached(max: nat, m: nat) returns (actions: seq<Action>)
    requires max > 0 && m > 0
    ensures AtMostInFlight(max, m, START, actions) && Count(Exec(max, START, actions)) == max + m - 1
  {
    assert InFlight(START) == {};
    OneByOneCounts(max, m, START, 0, max - 1);
    var rest := TogetherThenIncrements(max, m, Exec(max, START, OneByOne(0, max - 1)), max - 1);
    ExecAppend(max, START, OneByOne(0, max - 1), rest);
    AtMostAppend(max, m, START, OneByOne(0, max - 1), rest);
    actions := OneByOne(0, max - 1) + rest;
  }

  // ---------------------------------------------------------------------------
  // A key that does not expire
  // ---------------------------------------------------------------------------

  /** A key without expiry is one whose expiry some attempt is still to set. */
  predicate ExpiryOwed(s: System) {
    s.key.Some? && !s.key.value.ttl ==> exists c :: c in s.attempts && s.attempts[c].stage.SettingExpiry?
  }

  lemma {:induction false} ExpiryIsOwed(max: nat, s: System, actions: seq<Action>)
    requires ExpiryOwed(s) && (s.key.Some? ==> s.key.value.count > 0)
    ensures ExpiryOwed(Exec(max, s, actions))
    decreases |actions|
  {
    if actions != [] {
      var s1 := Step(max, s, actions[0]);
      if s1.key.Some? && !s1.key.value.ttl {
        if s.key.Some? && !s.key.value.ttl {
          var c :| c in s.attempts && s.attempts[c].stage.SettingExpiry?;
          assert s1.attempts[c] == s.attempts[c];
        } else {
          assert s1.attempts[actions[0].c].stage.SettingExpiry?;
        }
      }
      ExpiryIsOwed(max, s1, actions[1..]);
    }
  }

  predicate NoneDeletes(s: System) {
    forall c :: c in s.attempts ==> !s.attempts[c].passwordOk && !s.attempts[c].stage.Deleting?
  }

  predicate OnlyWrong(actions: seq<Action>) {
    forall a :: a in actions && a.Begin? ==> !a.passwordOk
  }

  /** If that attempt dies instead, the failures never lapse: without a right password the count only grows. */
  lemma {:induction false} StuckCounterNeverLapses(max: nat, s: System, actions: seq<Action>, dead: set<nat>)
    requires s.key.Some? && !s.key.value.ttl && s.key.value.count > 0 && NoneDeletes(s) && OnlyWrong(actions)
    requires forall c :: c in s.attempts && s.attempts[c].stage.SettingExpiry? ==> c in dead
    requires forall a :: a in actions && a.Advance? ==> a.c !in dead
    ensures var s' := Exec(max, s, actions);
            s'.key.Some? && !s'.key.value.ttl && Count(s') >= Count(s)
    decreases |actions|
  {
    if actions != [] {
      assert actions[0] in actions;
      var s1 := Step(max, s, actions[0]);
      forall c | c in s1.attempts
        ensures !s1.attempts[c].passwordOk && !s1.attempts[c].stage.Deleting?
        ensures s1.attempts[c].stage.SettingExpiry? ==> c in dead
      {
        if c in s.attempts { assert !s.attempts[c].passwordOk; }
      }
      StuckCounterNeverLapses(max, s1, actions[1..], dead);
    }
  }

  /** A run that leaves such a counter, if attempt 0 goes no further. */
  lemma StuckCounterIsReachable(max: nat)
    requires max > 0
    ensures var s := Exec(max, START, [Begin(0, false), Advance(0), Advance(0)]);
            && s.key == Some(Key(1, false)) && NoneDeletes(s)
            && forall c :: c in s.attempts && s.attempts[c].stage.SettingExpiry? <==> c == 0
  {
    var xs := [Begin(0, false), Advance(0), Advance(0)];
    var s1 := Step(max, START, xs[0]);
    assert s1.attempts == map[0 := Attempt(false, Checking)];
    var s2 := Step(max, s1, xs[1]);
    assert s2.attempts == map[0 := Attempt(false, Incrementing)];
    var s3 := Step(max, s2, xs[2]);
    assert xs[1..][1..] == [xs[2]] && [xs[2]][1..] == [];
    assert Exec(max, START, xs) == Exec(max, s1, xs[1..]) == Exec(max, s2, [xs[2]]) == s3;
  }
}
