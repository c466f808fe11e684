/**
 Requests on the activities of one lead with every statement a step of its own:
 guards, writes, and the query and the store of each recalculation. Any number
 of creations, updates and deletions interleave; the statements a request
 issues together take effect in any order. A creation reads one clock.
 */
module LeadActivityInterleaving {
  import opened Prelude
  import opened LeadActivityCache

  /** A request whose guard let it through, and how far it has come. */
  datatype Request =
    | Creating(id: Uuid, kind: ActivityType, dueAt: Option<Time>, now: Time, inserted: bool, counted: bool,
        next: Recalc)
    | Updating(id: Uuid, due: Option<Option<Time>>, status: Option<Option<TaskStatus>>, patched: bool, next: Recalc)
    | Deleting(id: Uuid, now: Time, stamped: bool, decremented: bool, last: Recalc, next: Recalc)

  /**
   The tables as seen from one lead, its requests, and how many deletions stamped an activity that was already deleted.
   */
  datatype System = System(leadId: Uuid, acts: Activities, lead: Lead, requests: seq<Request>, restamps: nat)

  datatype Action =
    | BeginCreate(id: Uuid, kind: ActivityType, dueAt: Option<Time>, now: Time)
    | BeginUpdate(id: Uuid, due: Option<Option<Time>>, status: Option<Option<TaskStatus>>)
    | BeginDelete(id: Uuid, now: Time)
    | Insert(c: nat)
    | Count(c: nat)
    | Patch(c: nat)
    | Stamp(c: nat)
    | Decrement(c: nat)
    | Next(c: nat)
    | Last(c: nat)

  /** The request has done the writes its recalculation of `nextFollowUpAt` waits for, and has one to do. */
  predicate RecalculatesNext(p: Request) {
    match p
    case Creating(_, kind, dueAt, _, inserted, counted, _) => kind.TaskA? && dueAt.Some? && inserted && counted
    case Updating(_, due, status, patched, _) => patched && (due.Some? || status.Some?)
    case Deleting(_, _, stamped, _, _, _) => stamped
  }

  /** A creation that is counted on the lead and not inserted yet. */
  predicate Announces(p: Request) {
    p.Creating? && p.counted && !p.inserted
  }

  function Announced(requests: seq<Request>): set<Time> {
    set c | 0 <= c < |requests| && Announces(requests[c]) :: requests[c].now
  }

  /** The creation times the lead has to account for. */
  function Expected(s: System): set<Time> {
    CreationTimes(s.acts, s.leadId) + Announced(s.requests)
  }

  predicate GuardPasses(s: System, a: Action) {
    match a
    case BeginCreate(_, kind, dueAt, _) => s.lead.deletedAt.None? && (kind.TaskA? ==> dueAt.Some?)
    case BeginUpdate(id, _, _) => id in s.acts && IsLive(s.acts[id], s.leadId)
    case BeginDelete(id, _) => id in s.acts && IsLive(s.acts[id], s.leadId)
    case _ => false
  }

  function Begun(a: Action): Request
    requires Begins(a)
  {
    match a
    case BeginCreate(id, kind, dueAt, now) => Creating(id, kind, dueAt, now, false, false, Waiting)
    case BeginUpdate(id, due, status) => Updating(id, due, status, false, Waiting)
    case BeginDelete(id, now) => Deleting(id, now, false, false, Waiting, Waiting)
  }

  /** Whether the statement can run: the request is there, has come that far, and has not run it yet. */
  predicate Enabled(s: System, a: Action) {
    if Begins(a) then GuardPasses(s, a)
    else
      && a.c < |s.requests|
      && var p := s.requests[a.c];
         match a
         case Insert(_) => p.Creating? && !p.inserted && p.id !in s.acts
         case Count(_) => p.Creating? && !p.counted
         case Patch(_) => p.Updating? && !p.patched && p.id in s.acts
         case Stamp(_) => p.Deleting? && !p.stamped && p.id in s.acts
         case Decrement(_) => p.Deleting? && p.stamped && !p.decremented
         case Next(_) => RecalculatesNext(p) && !p.next.Stored?
         case Last(_) => p.Deleting? && p.stamped && !p.last.Stored?
  }

  predicate Begins(a: Action) {
    a.BeginCreate? || a.BeginUpdate? || a.BeginDelete?
  }

  /** Where the request stands after the statement. */
  ghost function Progressed(s: System, a: Action): Request
    requires Enabled(s, a) && !Begins(a)
  {
    var p := s.requests[a.c];
    match a
    case Insert(_) => p.(inserted := true)
    case Count(_) => p.(counted := true)
    case Patch(_) => p.(patched := true)
    case Stamp(_) => p.(stamped := true)
    case Decrement(_) => p.(decremented := true)
    case Next(_) => p.(next := if p.next.Waiting? then Answered(Least(DueTimes(s.acts, s.leadId))) else Stored)
    case Last(_) => p.(last := if p.last.Waiting? then Answered(Greatest(CreationTimes(s.acts, s.leadId))) else Stored)
    case _ => p
  }

  /** What the statement writes; neither an update nor a stamp checks whether the row was deleted meanwhile. */
  ghost function Written(s: System, a: Action): System
    requires Enabled(s, a) && !Begins(a)
  {
    var p := s.requests[a.c];
    match a
    case Insert(_) => s.(acts := s.acts[p.id := NewActivity(s.leadId, p.kind, p.dueAt, p.now)])
    case Count(_) => s.(lead := s.lead.(lastActivityAt := Some(p.now), touchpointCount := s.lead.touchpointCount + 1))
    case Patch(_) => s.(acts := s.acts[p.id := Patched(s.acts[p.id], p.due, p.status)])
    case Stamp(_) =>
      s.(acts := s.acts[p.id := s.acts[p.id].(deletedAt := Some(p.now))],
         restamps := s.restamps + if s.acts[p.id].deletedAt.Some? then 1 else 0)
    case Decrement(_) => s.(lead := s.lead.(touchpointCount := s.lead.touchpointCount - 1))
    case Next(_) => if p.next.Waiting? then s else s.(lead := s.lead.(nextFollowUpAt := p.next.v))
    case Last(_) => if p.last.Waiting? then s else s.(lead := s.lead.(lastActivityAt := p.last.v))
    case _ => s
  }

  ghost function Step(s: System, a: Action): System {
    if !Enabled(s, a) then s
    else if Begins(a) then s.(requests := s.requests + [Begun(a)])
    else Written(s, a).(requests := s.requests[a.c := Progressed(s, a)])
  }

  ghost function Exec(s: System, actions: seq<Action>): System
    decreases |actions|
  {
    if actions == [] then s else Exec(Step(s, actions[0]), actions[1..])
  }

  lemma {:induction false} ExecAppend(s: System, xs: seq<Action>, ys: seq<Action>)
    ensures Exec(s, xs + ys) == Exec(Exec(s, xs), ys)
    decreases |xs|
  {
    if xs == [] {
      assert xs + ys == ys;
    } else {
      assert (xs + ys)[1..] == xs[1..] + ys;
      ExecAppend(Step(s, xs[0]), xs[1..], ys);
    }
  }

  lemma ExecLast(s: System, actions: seq<Action>)
    requires actions != []
    ensures var n := |actions| - 1;
            Exec(s, actions) == Step(Exec(s, actions[..n]), actions[n])
  {
    var n := |actions| - 1;
    assert actions == actions[..n] + [actions[n]];
    ExecAppend(s, actions[..n], [actions[n]]);
    assert [actions[n]][1..] == [];
  }

  function Start(leadId: Uuid, acts: Activities, lead: Lead): System {
    System(leadId, acts, lead, [], 0)
  }

  predicate Finished(p: Request) {
    match p
    case Creating(_, kind, dueAt, _, inserted, counted, next) =>
      inserted && counted && (kind.TaskA? && dueAt.Some? ==> next.Stored?)
    case Updating(_, due, status, patched, next) => patched && (due.Some? || status.Some? ==> next.Stored?)
    case Deleting(_, _, stamped, decremented, last, next) => stamped && decremented && last.Stored? && next.Stored?
  }

  predicate Quiescent(s: System) {
    forall c :: 0 <= c < |s.requests| ==> Finished(s.requests[c])
  }

  // ---------------------------------------------------------------------------
  // Requests stay consistent with the table
  // ---------------------------------------------------------------------------

  predicate RequestOk(s: System, p: Request) {
    match p
    case Creating(_, kind, dueAt, _, inserted, counted, next) =>
      (kind.TaskA? ==> dueAt.Some?) && (!(inserted && counted) ==> next.Waiting?)
    case Updating(id, _, _, patched, next) =>
      id in s.acts && s.acts[id].leadId == s.leadId && (!patched ==> next.Waiting?)
    case Deleting(id, _, stamped, decremented, last, next) =>
      id in s.acts && s.acts[id].leadId == s.leadId && (!stamped ==> !decremented && last.Waiting? && next.Waiting?)
  }

  predicate RequestsOk(s: System) {
    forall c :: 0 <= c < |s.requests| ==> RequestOk(s, s.requests[c])
  }

  /** No step removes an activity or moves it to another lead. */
  ghost predicate ActsKept(s: System, s': System) {
    s'.leadId == s.leadId && forall id :: id in s.acts ==> id in s'.acts && s'.acts[id].leadId == s.acts[id].leadId
  }

  lemma StepKeepsActs(s: System, a: Action)
    ensures ActsKept(s, Step(s, a))
  {
  }

  lemma RequestStaysOk(s: System, s': System, p: Request)
    requires ActsKept(s, s') && RequestOk(s, p)
    ensures RequestOk(s', p)
  {
  }

  lemma ProgressedIsOk(s: System, a: Action)
    requires Enabled(s, a) && !Begins(a) && RequestOk(s, s.requests[a.c])
    ensures RequestOk(s, Progressed(s, a))
  {
  }

  lemma StepKeepsRequestsOk(s: System, a: Action)
    requires RequestsOk(s)
    ensures RequestsOk(Step(s, a)) && Step(s, a).leadId == s.leadId
  {
    var s' := Step(s, a);
    StepKeepsActs(s, a);
    forall c | 0 <= c < |s'.requests|
      ensures RequestOk(s', s'.requests[c])
    {
      if Enabled(s, a) && !Begins(a) { ProgressedIsOk(s, a); }
      RequestStaysOk(s, s', s'.requests[c]);
    }
  }

  // ---------------------------------------------------------------------------
  // The count
  // ---------------------------------------------------------------------------

  function Bit(b: bool): int {
    if b then 1 else 0
  }

  /** What the request has changed in the table and not on the lead yet. */
  function Owed(p: Request): int {
    match p
    case Creating(_, _, _, _, inserted, counted, _) => Bit(inserted) - Bit(counted)
    case Updating(_, _, _, _, _) => 0
    case Deleting(_, _, stamped, decremented, _, _) => Bit(decremented) - Bit(stamped)
  }

  function TotalOwed(requests: seq<Request>): int {
    if requests == [] then 0 else TotalOwed(requests[..|requests| - 1]) + Owed(requests[|requests| - 1])
  }

  lemma {:induction false} OwedAfter(requests: seq<Request>, c: nat, p: Request)
    requires c < |requests|
    ensures TotalOwed(requests[c := p]) == TotalOwed(requests) - Owed(requests[c]) + Owed(p)
    decreases |requests|
  {
    var n := |requests| - 1;
    if c == n {
      assert requests[c := p][..n] == requests[..n];
    } else {
      assert requests[c := p][..n] == requests[..n][c := p];
      OwedAfter(requests[..n], c, p);
    }
  }

  lemma {:induction false} NothingOwed(requests: seq<Request>)
    requires forall c :: 0 <= c < |requests| ==> Finished(requests[c])
    ensures TotalOwed(requests) == 0
    decreases |requests|
  {
    if requests != [] { NothingOwed(requests[..|requests| - 1]); }
  }

  predicate CountOk(s: System) {
    s.lead.touchpointCount + TotalOwed(s.requests) == |LiveIds(s.acts, s.leadId)| - s.restamps
  }

  lemma StampedAgain(acts: Activities, id: Uuid, now: Time)
    requires id in acts && acts[id].deletedAt.Some?
    ensures var acts' := acts[id := acts[id].(deletedAt := Some(now))];
            && LiveIds(acts', acts[id].leadId) == LiveIds(acts, acts[id].leadId)
  {
  }

  lemma BeginKeepsCountOk(s: System, a: Action)
    requires CountOk(s) && GuardPasses(s, a)
    ensures CountOk(Step(s, a))
  {
    assert (s.requests + [Begun(a)])[..|s.requests|] == s.requests;
  }

  lemma InsertKeepsCountOk(s: System, c: nat)
    requires CountOk(s) && Enabled(s, Insert(c))
    ensures CountOk(Step(s, Insert(c)))
  {
    var p := s.requests[c];
    OwedAfter(s.requests, c, p.(inserted := true));
    AddedActivity(s.acts, p.id, NewActivity(s.leadId, p.kind, p.dueAt, p.now));
  }

  lemma PatchKeepsCountOk(s: System, c: nat)
    requires RequestsOk(s) && CountOk(s) && Enabled(s, Patch(c))
    ensures CountOk(Step(s, Patch(c)))
  {
    var p := s.requests[c];
    assert RequestOk(s, p);
    OwedAfter(s.requests, c, p.(patched := true));
    PatchedActivity(s.acts, p.id, Patched(s.acts[p.id], p.due, p.status));
  }

  lemma StampKeepsCountOk(s: System, c: nat)
    requires RequestsOk(s) && CountOk(s) && Enabled(s, Stamp(c))
    ensures CountOk(Step(s, Stamp(c)))
  {
    var p := s.requests[c];
    assert RequestOk(s, p);
    OwedAfter(s.requests, c, p.(stamped := true));
    if s.acts[p.id].deletedAt.None? {
      RemovedActivity(s.acts, p.id, p.now);
    } else {
      StampedAgain(s.acts, p.id, p.now);
    }
  }

  lemma LeadWriteKeepsCountOk(s: System, a: Action)
    requires CountOk(s) && Enabled(s, a) && (a.Count? || a.Decrement? || a.Next? || a.Last?)
    ensures CountOk(Step(s, a))
  {
    OwedAfter(s.requests, a.c, Progressed(s, a));
    var counted := Written(s, a).lead.touchpointCount - s.lead.touchpointCount;
    assert Owed(Progressed(s, a)) == Owed(s.requests[a.c]) - counted;
  }

  lemma StepKeepsCountOk(s: System, a: Action)
    requires RequestsOk(s) && CountOk(s)
    ensures CountOk(Step(s, a))
  {
    if Enabled(s, a) {
      match a
      case Insert(c) => InsertKeepsCountOk(s, c);
      case Patch(c) => PatchKeepsCountOk(s, c);
      case Stamp(c) => StampKeepsCountOk(s, c);
      case BeginCreate(_, _, _, _) => BeginKeepsCountOk(s, a);
      case BeginUpdate(_, _, _) => BeginKeepsCountOk(s, a);
      case BeginDelete(_, _) => BeginKeepsCountOk(s, a);
      case _ => LeadWriteKeepsCountOk(s, a);
    }
  }

  // ---------------------------------------------------------------------------
  // The two recomputed columns
  // ---------------------------------------------------------------------------

  /** The request has changed the due times and has still to store their least. */
  predicate OwesNext(p: Request) {
    match p
    case Creating(_, kind, dueAt, _, inserted, _, next) => kind.TaskA? && dueAt.Some? && inserted && !next.Stored?
    case Updating(_, due, status, patched, next) => patched && (due.Some? || status.Some?) && !next.Stored?
    case Deleting(_, _, stamped, _, _, next) => stamped && !next.Stored?
  }

  /** The request has changed the creation times and has still to store the greatest. */
  predicate OwesLast(p: Request) {
    match p
    case Creating(_, _, _, _, inserted, counted, _) => inserted && !counted
    case Updating(_, _, _, _, _) => false
    case Deleting(_, _, stamped, _, last, _) => stamped && !last.Stored?
  }

  predicate NextOwed(s: System) {
    exists c :: 0 <= c < |s.requests| && OwesNext(s.requests[c])
  }

  predicate LastOwed(s: System) {
    exists c :: 0 <= c < |s.requests| && OwesLast(s.requests[c])
  }

  /** The step stores `nextFollowUpAt`. */
  predicate StoresFollowUp(s: System, a: Action) {
    a.Next? && Enabled(s, a) && s.requests[a.c].next.Answered?
  }

  /** The step stores `lastActivityAt`: a creation's count, or a recalculation. */
  predicate StoresActivity(s: System, a: Action) {
    Enabled(s, a) && (a.Count? || (a.Last? && s.requests[a.c].last.Answered?))
  }

  lemma StillOwed(s: System, a: Action)
    requires !StoresFollowUp(s, a)
    ensures NextOwed(s) ==> NextOwed(Step(s, a))
  {
    if NextOwed(s) {
      var c :| 0 <= c < |s.requests| && OwesNext(s.requests[c]);
      assert OwesNext(Step(s, a).requests[c]);
    }
  }

  lemma DueTimesChange(s: System, a: Action)
    requires RequestsOk(s)
    ensures DueTimes(Step(s, a).acts, s.leadId) == DueTimes(s.acts, s.leadId) || NextOwed(Step(s, a))
  {
    var s' := Step(s, a);
    if s'.acts != s.acts {
      var p := s.requests[a.c];
      assert RequestOk(s, p) && s'.requests[a.c].id == p.id;
      if a.Insert? {
        AddedActivity(s.acts, p.id, NewActivity(s.leadId, p.kind, p.dueAt, p.now));
        if p.kind.TaskA? { assert OwesNext(s'.requests[a.c]); }
      } else {
        assert a.Patch? && p.due.None? && p.status.None? ==> s'.acts == s.acts;
        assert OwesNext(s'.requests[a.c]);
      }
    }
  }

  predicate FollowUpRight(s: System) {
    IsLeast(s.lead.nextFollowUpAt, DueTimes(s.acts, s.leadId))
  }

  /** Right also for the creations that are announced. */
  predicate ActivityRight(s: System) {
    IsGreatest(s.lead.lastActivityAt, Expected(s))
  }

  /** Unless the column is stored or a store is owed afterwards, neither the column nor the due times change. */
  lemma FollowUpStep(s: System, a: Action)
    requires RequestsOk(s) && !StoresFollowUp(s, a) && !NextOwed(Step(s, a))
    ensures !NextOwed(s) && Step(s, a).lead.nextFollowUpAt == s.lead.nextFollowUpAt
    ensures DueTimes(Step(s, a).acts, s.leadId) == DueTimes(s.acts, s.leadId)
    ensures FollowUpRight(Step(s, a)) <==> FollowUpRight(s)
  {
    StillOwed(s, a);
    DueTimesChange(s, a);
  }

  lemma LastStillOwed(s: System, a: Action)
    requires !StoresActivity(s, a)
    ensures LastOwed(s) ==> LastOwed(Step(s, a))
  {
    if LastOwed(s) {
      var c :| 0 <= c < |s.requests| && OwesLast(s.requests[c]);
      assert OwesLast(Step(s, a).requests[c]);
    }
  }

  lemma AnnouncedKept(s: System, a: Action)
    requires !a.Count? && !a.Insert?
    ensures Announced(Step(s, a).requests) == Announced(s.requests)
  {
    var s' := Step(s, a);
    forall c | 0 <= c < |s'.requests|
      ensures c < |s.requests| ==> (Announces(s'.requests[c]) <==> Announces(s.requests[c]))
      ensures c < |s.requests| && Announces(s.requests[c]) ==> s'.requests[c].now == s.requests[c].now
      ensures c >= |s.requests| ==> !Announces(s'.requests[c])
    {
    }
    forall t | t in Announced(s.requests)
      ensures t in Announced(s'.requests)
    {
      var c :| 0 <= c < |s.requests| && Announces(s.requests[c]) && s.requests[c].now == t;
      assert Announces(s'.requests[c]) && s'.requests[c].now == t;
    }
    forall t | t in Announced(s'.requests)
      ensures t in Announced(s.requests)
    {
      var c :| 0 <= c < |s'.requests| && Announces(s'.requests[c]) && s'.requests[c].now == t;
      assert c < |s.requests| && Announces(s.requests[c]) && s.requests[c].now == t;
    }
  }

  /** An insertion that was announced leaves what the lead has to account for as it was. */
  lemma AnnouncedInsert(s: System, c: nat)
    requires Enabled(s, Insert(c)) && s.requests[c].counted
    ensures Expected(Step(s, Insert(c))) == Expected(s)
  {
    var s' := Step(s, Insert(c));
    var p := s.requests[c];
    AddedActivity(s.acts, p.id, NewActivity(s.leadId, p.kind, p.dueAt, p.now));
    assert p.now in Announced(s.requests);
    forall t
      ensures t in Announced(s.requests) <==> t in Announced(s'.requests) || t == p.now
    {
      if t in Announced(s'.requests) {
        var d :| 0 <= d < |s'.requests| && Announces(s'.requests[d]) && s'.requests[d].now == t;
        assert d != c && s.requests[d] == s'.requests[d];
      }
      if t in Announced(s.requests) && t != p.now {
        var d :| 0 <= d < |s.requests| && Announces(s.requests[d]) && s.requests[d].now == t;
        assert d != c && s.requests[d] == s'.requests[d];
      }
    }
  }

  /** Unless the column is stored or a store is owed afterwards, neither it nor what the lead accounts for changes. */
  lemma ActivityStep(s: System, a: Action)
    requires RequestsOk(s) && !StoresActivity(s, a) && !LastOwed(Step(s, a))
    ensures !LastOwed(s) && Step(s, a).lead.lastActivityAt == s.lead.lastActivityAt
    ensures Expected(Step(s, a)) == Expected(s)
    ensures ActivityRight(Step(s, a)) <==> ActivityRight(s)
  {
    LastStillOwed(s, a);
    var s' := Step(s, a);
    if Enabled(s, a) {
      assert forall c :: 0 <= c < |s'.requests| ==> !OwesLast(s'.requests[c]);
      assert !Begins(a) ==> !OwesLast(s'.requests[a.c]);
      if a.Insert? {
        AnnouncedInsert(s, a.c);
      } else {
        AnnouncedKept(s, a);
        if a.Patch? {
          var p := s.requests[a.c];
          assert RequestOk(s, p);
          PatchedActivity(s.acts, p.id, Patched(s.acts[p.id], p.due, p.status));
        }
      }
    }
  }

  /** What the lead accounts for after a creation is counted. */
  lemma ExpectedAfterCount(s: System, c: nat)
    requires Enabled(s, Count(c))
    ensures Expected(Step(s, Count(c))) == Expected(s) + if s.requests[c].inserted then {} else {s.requests[c].now}
  {
    var s' := Step(s, Count(c));
    forall t
      ensures t in Announced(s'.requests) <==>
          t in Announced(s.requests) || (!s.requests[c].inserted && t == s.requests[c].now)
    {
      if t in Announced(s.requests) {
        var d :| 0 <= d < |s.requests| && Announces(s.requests[d]) && s.requests[d].now == t;
        assert d != c && s'.requests[d] == s.requests[d];
      }
      if t in Announced(s'.requests) {
        var d :| 0 <= d < |s'.requests| && Announces(s'.requests[d]) && s'.requests[d].now == t;
        assert d != c ==> s'.requests[d] == s.requests[d];
      }
      if !s.requests[c].inserted { assert Announces(s'.requests[c]) && s'.requests[c].now == s.requests[c].now; }
    }
  }

  // ---------------------------------------------------------------------------
  // Stores and their queries in a run
  // ---------------------------------------------------------------------------

  /** The last step of the run that stores `nextFollowUpAt`. */
  ghost function FinalFollowUp(start: System, actions: seq<Action>): (r: Option<nat>)
    ensures r.Some? ==> r.value < |actions| && StoresFollowUp(Exec(start, actions[..r.value]), actions[r.value])
    ensures forall j :: (if r.Some? then r.value + 1 else 0) <= j < |actions| ==>
              !StoresFollowUp(Exec(start, actions[..j]), actions[j])
    decreases |actions|
  {
    if actions == [] then None
    else
      var n := |actions| - 1;
      if StoresFollowUp(Exec(start, actions[..n]), actions[n]) then Some(n)
      else
        assert forall j :: 0 <= j < n ==> actions[..n][..j] == actions[..j];
        FinalFollowUp(start, actions[..n])
  }

  ghost function FinalActivity(start: System, actions: seq<Action>): (r: Option<nat>)
    ensures r.Some? ==> r.value < |actions| && StoresActivity(Exec(start, actions[..r.value]), actions[r.value])
    ensures forall j :: (if r.Some? then r.value + 1 else 0) <= j < |actions| ==>
              !StoresActivity(Exec(start, actions[..j]), actions[j])
    decreases |actions|
  {
    if actions == [] then None
    else
      var n := |actions| - 1;
      if StoresActivity(Exec(start, actions[..n]), actions[n]) then Some(n)
      else
        assert forall j :: 0 <= j < n ==> actions[..n][..j] == actions[..j];
        FinalActivity(start, actions[..n])
  }

  /** The last step before the end of the run at which statement `a` ran: the query, if `a` is then about to store. */
  ghost function RanLast(start: System, actions: seq<Action>, a: Action): (r: Option<nat>)
    ensures r.Some? ==> r.value < |actions| && actions[r.value] == a && Enabled(Exec(start, actions[..r.value]), a)
    decreases |actions|
  {
    if actions == [] then None
    else
      var n := |actions| - 1;
      if actions[n] == a && Enabled(Exec(start, actions[..n]), a) then Some(n)
      else
        assert forall j :: 0 <= j < n ==> actions[..n][..j] == actions[..j];
        RanLast(start, actions[..n], a)
  }

  lemma {:induction false} FollowUpAnswer(start: System, actions: seq<Action>, c: nat)
    requires start.requests == []
    requires var s := Exec(start, actions); c < |s.requests| && s.requests[c].next.Answered?
    ensures var q := RanLast(start, actions, Next(c));
            && q.Some?
            && var sq := Exec(start, actions[..q.value]);
               Exec(start, actions).requests[c].next.v == Least(DueTimes(sq.acts, sq.leadId))
    decreases |actions|
  {
    if actions == [] {
      assert false;
    } else {
      var n := |actions| - 1;
      ExecLast(start, actions);
      var s := Exec(start, actions[..n]);
      if !(actions[n] == Next(c) && Enabled(s, Next(c))) {
        assert c < |s.requests| && s.requests[c].next == Exec(start, actions).requests[c].next;
        FollowUpAnswer(start, actions[..n], c);
        var q := RanLast(start, actions[..n], Next(c)).value;
        assert actions[..n][..q] == actions[..q];
      }
    }
  }

  lemma {:induction false} ActivityAnswer(start: System, actions: seq<Action>, c: nat)
    requires start.requests == []
    requires var s := Exec(start, actions);
             c < |s.requests| && s.requests[c].Deleting? && s.requests[c].last.Answered?
    ensures var q := RanLast(start, actions, Last(c));
            && q.Some?
            && var sq := Exec(start, actions[..q.value]);
               Exec(start, actions).requests[c].last.v == Greatest(CreationTimes(sq.acts, sq.leadId))
    decreases |actions|
  {
    if actions == [] {
      assert false;
    } else {
      var n := |actions| - 1;
      ExecLast(start, actions);
      var s := Exec(start, actions[..n]);
      if !(actions[n] == Last(c) && Enabled(s, Last(c))) {
        assert c < |s.requests| && s.requests[c].Deleting?
            && s.requests[c].last == Exec(start, actions).requests[c].last;
        ActivityAnswer(start, actions[..n], c);
        var q := RanLast(start, actions[..n], Last(c)).value;
        assert actions[..n][..q] == actions[..q];
      }
    }
  }

  // ---------------------------------------------------------------------------
  // When a store is wrong
  // ---------------------------------------------------------------------------

  /** The least due time is the same at the query of the recalculation about to store and now. */
  ghost predicate FollowUpUndisturbed(start: System, actions: seq<Action>, a: Action) {
    var q := RanLast(start, actions, a);
    && q.Some?
    && var sq, s := Exec(start, actions[..q.value]), Exec(start, actions);
       Least(DueTimes(sq.acts, sq.leadId)) == Least(DueTimes(s.acts, s.leadId))
  }

  /**
   For a recalculation: the greatest creation time at its query is still the greatest, also counting the creations that
   are announced. For a count: no creation the lead accounts for is later, and its own activity is not deleted already.
   */
  ghost predicate ActivityUndisturbed(start: System, actions: seq<Action>, a: Action)
    requires StoresActivity(Exec(start, actions), a)
  {
    var s := Exec(start, actions);
    if a.Count? then
      && (forall t :: t in Expected(s) ==> t <= s.requests[a.c].now)
      && (s.requests[a.c].inserted ==> s.requests[a.c].now in Expected(s))
    else
      var q := RanLast(start, actions, a);
      && q.Some?
      && var sq := Exec(start, actions[..q.value]);
         Greatest(CreationTimes(sq.acts, sq.leadId)) == Greatest(Expected(s))
  }

  /** What a recalculation stores in `nextFollowUpAt` is right if and only if the least due time is as at its query. */
  lemma FollowUpStoreRightIff(start: System, actions: seq<Action>, a: Action)
    requires start.requests == [] && StoresFollowUp(Exec(start, actions), a)
    ensures FollowUpRight(Step(Exec(start, actions), a)) <==> FollowUpUndisturbed(start, actions, a)
  {
    var s := Exec(start, actions);
    FollowUpAnswer(start, actions, a.c);
    LeastIsUnique(s.requests[a.c].next.v, DueTimes(s.acts, s.leadId));
  }

  lemma LeastIsUnique(v: Option<Time>, times: set<Time>)
    ensures IsLeast(v, times) <==> v == Least(times)
  {
    if IsLeast(v, times) && times != {} { assert v.value == Least(times).value; }
  }

  lemma GreatestIsUnique(v: Option<Time>, times: set<Time>)
    ensures IsGreatest(v, times) <==> v == Greatest(times)
  {
    if IsGreatest(v, times) && times != {} { assert v.value == Greatest(times).value; }
  }

  /** What a step stores in `lastActivityAt` is right if and only if it is undisturbed in the sense above. */
  lemma ActivityStoreRightIff(start: System, actions: seq<Action>, a: Action)
    requires start.requests == [] && StoresActivity(Exec(start, actions), a)
    ensures ActivityRight(Step(Exec(start, actions), a)) <==> ActivityUndisturbed(start, actions, a)
  {
    var s := Exec(start, actions);
    if a.Count? {
      ExpectedAfterCount(s, a.c);
      CountRightIff(Expected(s), s.requests[a.c].now, s.requests[a.c].inserted);
    } else {
      ActivityAnswer(start, actions, a.c);
      AnnouncedKept(s, a);
      GreatestIsUnique(s.requests[a.c].last.v, Expected(s));
    }
  }

  lemma CountRightIff(times: set<Time>, now: Time, inserted: bool)
    ensures IsGreatest(Some(now), times + if inserted then {} else {now}) <==>
              (forall t :: t in times ==> t <= now) && (inserted ==> now in times)
  {
    var all := times + if inserted then {} else {now};
    assert forall t :: t in all <==> t in times || (!inserted && t == now);
  }

  // ---------------------------------------------------------------------------
  // When the columns are right
  // ---------------------------------------------------------------------------

  lemma {:induction false} ExecKeepsOk(s: System, actions: seq<Action>)
    requires RequestsOk(s) && CountOk(s)
    ensures RequestsOk(Exec(s, actions)) && CountOk(Exec(s, actions)) && Exec(s, actions).leadId == s.leadId
    decreases |actions|
  {
    if actions != [] {
      StepKeepsRequestsOk(s, actions[0]);
      StepKeepsCountOk(s, actions[0]);
      ExecKeepsOk(Step(s, actions[0]), actions[1..]);
    }
  }

  /** The final store of `nextFollowUpAt`, if there is one, was undisturbed. */
  ghost predicate FinalFollowUpUndisturbed(start: System, actions: seq<Action>) {
    var k := FinalFollowUp(start, actions);
    k.Some? ==> FollowUpUndisturbed(start, actions[..k.value], actions[k.value])
  }

  ghost predicate FinalActivityUndisturbed(start: System, actions: seq<Action>) {
    var k := FinalActivity(start, actions);
    k.Some? ==> ActivityUndisturbed(start, actions[..k.value], actions[k.value])
  }

  lemma FinalFollowUpStays(start: System, actions: seq<Action>)
    requires actions != []
    requires var n := |actions| - 1; !StoresFollowUp(Exec(start, actions[..n]), actions[n])
    ensures FinalFollowUpUndisturbed(start, actions) <==> FinalFollowUpUndisturbed(start, actions[..|actions| - 1])
  {
    var before := actions[..|actions| - 1];
    var k := FinalFollowUp(start, before);
    if k.Some? { assert before[..k.value] == actions[..k.value]; }
  }

  lemma FinalActivityStays(start: System, actions: seq<Action>)
    requires actions != []
    requires var n := |actions| - 1; !StoresActivity(Exec(start, actions[..n]), actions[n])
    ensures FinalActivityUndisturbed(start, actions) <==> FinalActivityUndisturbed(start, actions[..|actions| - 1])
  {
    var before := actions[..|actions| - 1];
    var k := FinalActivity(start, before);
    if k.Some? { assert before[..k.value] == actions[..k.value]; }
  }

  lemma {:induction false} FollowUpAtEnd(start: System, actions: seq<Action>)
    requires start.requests == [] && RequestsOk(start) && CountOk(start)
    requires FollowUpRight(start)
    ensures var s := Exec(start, actions);
            NextOwed(s) || (FollowUpRight(s) <==> FinalFollowUpUndisturbed(start, actions))
    decreases |actions|
  {
    if actions != [] {
      var n := |actions| - 1;
      ExecLast(start, actions);
      var before := actions[..n];
      var s := Exec(start, before);
      if StoresFollowUp(s, actions[n]) {
        FollowUpStoreRightIff(start, before, actions[n]);
      } else if !NextOwed(Exec(start, actions)) {
        ExecKeepsOk(start, before);
        FollowUpStep(s, actions[n]);
        FollowUpAtEnd(start, before);
        FinalFollowUpStays(start, actions);
      }
    }
  }

  lemma {:induction false} ActivityAtEnd(start: System, actions: seq<Action>)
    requires start.requests == [] && RequestsOk(start) && CountOk(start)
    requires ActivityRight(start)
    ensures var s := Exec(start, actions);
            LastOwed(s) || (ActivityRight(s) <==> FinalActivityUndisturbed(start, actions))
    decreases |actions|
  {
    if actions != [] {
      var n := |actions| - 1;
      ExecLast(start, actions);
      var before := actions[..n];
      var s := Exec(start, before);
      if StoresActivity(s, actions[n]) {
        ActivityStoreRightIff(start, before, actions[n]);
      } else if !LastOwed(Exec(start, actions)) {
        ExecKeepsOk(start, before);
        ActivityStep(s, actions[n]);
        ActivityAtEnd(start, before);
        FinalActivityStays(start, actions);
      }
    }
  }

  lemma StartIsOk(leadId: Uuid, acts: Activities, lead: Lead)
    requires Exact(acts, leadId, lead)
    ensures var s := Start(leadId, acts, lead);
            RequestsOk(s) && CountOk(s) && Expected(s) == CreationTimes(acts, leadId)
  {
    assert Announced([]) == {};
  }

  lemma NothingAnnounced(s: System)
    requires Quiescent(s)
    ensures Expected(s) == CreationTimes(s.acts, s.leadId) && !NextOwed(s) && !LastOwed(s)
  {
    assert forall c :: 0 <= c < |s.requests| ==> !Announces(s.requests[c]);
  }

  /**
   Whenever all requests have run to their end, however they interleaved: the count is below the live activities by
   the number of deletions that stamped an already deleted activity; `nextFollowUpAt` is right if and only if the least
   due time did not change between the query and the store of the last recalculation; and `lastActivityAt` if and only
   if the same holds of the greatest creation time and the last recalculation, with announced creations, or the last
   store was the count of a creation that no other is later than and that is not deleted.
   */
  lemma ColumnsAreRightIff(leadId: Uuid, acts: Activities, lead: Lead, actions: seq<Action>)
    requires Exact(acts, leadId, lead) && Quiescent(Exec(Start(leadId, acts, lead), actions))
    ensures var start := Start(leadId, acts, lead);
            var s := Exec(start, actions);
            && s.lead.touchpointCount == |LiveIds(s.acts, leadId)| - s.restamps
            && (IsLeast(s.lead.nextFollowUpAt, DueTimes(s.acts, leadId)) <==> FinalFollowUpUndisturbed(start, actions))
            && (IsGreatest(s.lead.lastActivityAt, CreationTimes(s.acts, leadId)) <==>
                FinalActivityUndisturbed(start, actions))
            && (Exact(s.acts, leadId, s.lead) <==>
                  s.restamps == 0 && FinalFollowUpUndisturbed(start, actions)
                      && FinalActivityUndisturbed(start, actions))
  {
    var start := Start(leadId, acts, lead);
    var s := Exec(start, actions);
    StartIsOk(leadId, acts, lead);
    ExecKeepsOk(start, actions);
    NothingOwed(s.requests);
    NothingAnnounced(s);
    FollowUpAtEnd(start, actions);
    ActivityAtEnd(start, actions);
  }

  // ---------------------------------------------------------------------------
  // Runs that end exact
  // ---------------------------------------------------------------------------

  /** Step `k` counts a creation. */
  ghost predicate CountsAt(start: System, actions: seq<Action>, k: nat) {
    k < |actions| && actions[k].Count? && Enabled(Exec(start, actions[..k]), actions[k])
  }

  ghost function CountedTime(start: System, actions: seq<Action>, k: nat): Time
    requires CountsAt(start, actions, k)
  {
    Exec(start, actions[..k]).requests[actions[k].c].now
  }

  /** Creations are counted in the order of their clocks, and none is earlier than an activity already there. */
  ghost predicate CountsInOrder(start: System, actions: seq<Action>) {
    && (forall k: nat, t :: CountsAt(start, actions, k) && t in CreationTimes(start.acts, start.leadId) ==>
          t <= CountedTime(start, actions, k))
    && (forall j: nat, k: nat :: j < k && CountsAt(start, actions, j) && CountsAt(start, actions, k) ==>
          CountedTime(start, actions, j) <= CountedTime(start, actions, k))
  }

  /** A creation that is inserted when it is counted has not been deleted in between. */
  ghost predicate CountsLive(start: System, actions: seq<Action>) {
    forall k: nat :: CountsAt(start, actions, k) ==>
      var s := Exec(start, actions[..k]);
      s.requests[actions[k].c].inserted ==> CountedTime(start, actions, k) in CreationTimes(s.acts, s.leadId)
  }

  /** No activity changes between the query and the store of a recalculation. */
  ghost predicate RecalculationsUndisturbed(start: System, actions: seq<Action>) {
    forall k :: 0 <= k < |actions| ==>
      var s := Exec(start, actions[..k]);
      StoresFollowUp(s, actions[k]) || (StoresActivity(s, actions[k]) && actions[k].Last?) ==>
        var q := RanLast(start, actions[..k], actions[k]);
        q.Some? && Exec(start, actions[..q.value]).acts == s.acts
  }

  /** No deletion stores `lastActivityAt` while a creation is counted and not inserted. */
  ghost predicate NoneAnnouncedAtStores(start: System, actions: seq<Action>) {
    forall k :: 0 <= k < |actions| ==>
      var s := Exec(start, actions[..k]);
      StoresActivity(s, actions[k]) && actions[k].Last? ==> Announced(s.requests) == {}
  }

  /** A live activity was there at the start, or a creation inserted it. */
  ghost predicate TimesAccounted(start: System, s: System) {
    forall t :: t in CreationTimes(s.acts, s.leadId) ==>
      t in CreationTimes(start.acts, start.leadId)
      || exists d :: 0 <= d < |s.requests| && s.requests[d].Creating? && s.requests[d].now == t
  }

  lemma CreationTimesStep(s: System, a: Action, t: Time)
    requires RequestsOk(s) && t in CreationTimes(Step(s, a).acts, s.leadId)
    ensures t in CreationTimes(s.acts, s.leadId)
            || (a.Insert? && Enabled(s, a) && s.requests[a.c].now == t)
  {
    var s' := Step(s, a);
    var id :| id in s'.acts && IsLive(s'.acts[id], s.leadId) && s'.acts[id].createdAt == t;
    if id in s.acts { assert IsLive(s.acts[id], s.leadId) ==> s.acts[id].createdAt in CreationTimes(s.acts, s.leadId); }
  }

  lemma StepKeepsAccounted(start: System, s: System, a: Action)
    requires RequestsOk(s) && TimesAccounted(start, s)
    ensures TimesAccounted(start, Step(s, a))
  {
    var s' := Step(s, a);
    forall t | t in CreationTimes(s'.acts, s'.leadId) && t !in CreationTimes(start.acts, start.leadId)
      ensures exists d :: 0 <= d < |s'.requests| && s'.requests[d].Creating? && s'.requests[d].now == t
    {
      CreationTimesStep(s, a, t);
      if t in CreationTimes(s.acts, s.leadId) {
        var d :| 0 <= d < |s.requests| && s.requests[d].Creating? && s.requests[d].now == t;
        assert s'.requests[d].Creating? && s'.requests[d].now == t;
      } else {
        assert s'.requests[a.c].Creating? && s'.requests[a.c].now == t;
      }
    }
  }

  lemma {:induction false} ExecKeepsAccounted(start: System, actions: seq<Action>)
    requires RequestsOk(start) && CountOk(start)
    ensures TimesAccounted(start, Exec(start, actions))
    decreases |actions|
  {
    if actions != [] {
      var n := |actions| - 1;
      ExecLast(start, actions);
      ExecKeepsOk(start, actions[..n]);
      ExecKeepsAccounted(start, actions[..n]);
      StepKeepsAccounted(start, Exec(start, actions[..n]), actions[n]);
    }
  }

  lemma {:induction false} CreationStays(s: System, actions: seq<Action>, d: nat)
    requires d < |s.requests| && s.requests[d].Creating?
    ensures var s' := Exec(s, actions);
            d < |s'.requests| && s'.requests[d].Creating? && s'.requests[d].now == s.requests[d].now
    decreases |actions|
  {
    if actions != [] { CreationStays(Step(s, actions[0]), actions[1..], d); }
  }

  /** A creation that is counted in the end was counted at some step. */
  lemma {:induction false} WasCounted(start: System, actions: seq<Action>, d: nat) returns (k: nat)
    requires start.requests == []
    requires var s := Exec(start, actions); d < |s.requests| && s.requests[d].Creating? && s.requests[d].counted
    ensures CountsAt(start, actions, k) && actions[k] == Count(d)
    ensures CountedTime(start, actions, k) == Exec(start, actions).requests[d].now
    decreases |actions|
  {
    if actions == [] {
      assert false;
    } else {
      var n := |actions| - 1;
      ExecLast(start, actions);
      var s := Exec(start, actions[..n]);
      assert d < |s.requests| && s.requests[d].Creating? && s.requests[d].now == Exec(start, actions).requests[d].now;
      if s.requests[d].counted {
        k := WasCounted(start, actions[..n], d);
        assert actions[..n][..k] == actions[..k];
      } else {
        k := n;
      }
    }
  }

  lemma TimeOfCreation(start: System, s: System, t: Time) returns (d: nat)
    requires TimesAccounted(start, s) && t in Expected(s) && t !in CreationTimes(start.acts, start.leadId)
    ensures d < |s.requests| && s.requests[d].Creating? && s.requests[d].now == t
  {
    if t in Announced(s.requests) {
      d :| 0 <= d < |s.requests| && Announces(s.requests[d]) && s.requests[d].now == t;
    } else {
      d :| 0 <= d < |s.requests| && s.requests[d].Creating? && s.requests[d].now == t;
    }
  }

  /** A creation under way at the final store was counted by then. */
  lemma CountedByThen(start: System, actions: seq<Action>, k: nat, d: nat) returns (j: nat)
    requires start.requests == [] && Quiescent(Exec(start, actions)) && FinalActivity(start, actions) == Some(k)
    requires d < |Exec(start, actions[..k]).requests| && Exec(start, actions[..k]).requests[d].Creating?
    ensures j <= k && CountsAt(start, actions, j)
    ensures CountedTime(start, actions, j) == Exec(start, actions[..k]).requests[d].now
  {
    assert actions == actions[..k] + actions[k..];
    ExecAppend(start, actions[..k], actions[k..]);
    CreationStays(Exec(start, actions[..k]), actions[k..], d);
    assert Finished(Exec(start, actions).requests[d]);
    j := WasCounted(start, actions, d);
    assert StoresActivity(Exec(start, actions[..j]), actions[j]);
  }

  /** In order, the last count stores the greatest of the times the lead has to account for. */
  lemma FinalCountIsGreatest(start: System, actions: seq<Action>, k: nat, t: Time)
    requires start.requests == [] && RequestsOk(start) && CountOk(start) && CountsInOrder(start, actions)
    requires Quiescent(Exec(start, actions)) && FinalActivity(start, actions) == Some(k) && actions[k].Count?
    requires t in Expected(Exec(start, actions[..k]))
    ensures CountsAt(start, actions, k) && t <= CountedTime(start, actions, k)
  {
    assert CountsAt(start, actions, k);
    if t !in CreationTimes(start.acts, start.leadId) {
      ExecKeepsAccounted(start, actions[..k]);
      var d := TimeOfCreation(start, Exec(start, actions[..k]), t);
      var j := CountedByThen(start, actions, k, d);
    }
  }

  /**
   If no deletion stamps a deleted activity, creations are counted in clock order and before any deletion of theirs, and
   no recalculation is disturbed or stores while a creation is announced, all three columns are right in the end.
   */
  lemma OrderlyRunsEndExact(leadId: Uuid, acts: Activities, lead: Lead, actions: seq<Action>)
    requires Exact(acts, leadId, lead)
    requires var start := Start(leadId, acts, lead);
             && Quiescent(Exec(start, actions)) && Exec(start, actions).restamps == 0
             && CountsInOrder(start, actions) && CountsLive(start, actions)
             && RecalculationsUndisturbed(start, actions) && NoneAnnouncedAtStores(start, actions)
    ensures var s := Exec(Start(leadId, acts, lead), actions);
            Exact(s.acts, leadId, s.lead)
  {
    var start := Start(leadId, acts, lead);
    StartIsOk(leadId, acts, lead);
    var k := FinalActivity(start, actions);
    if k.Some? {
      FinalActivityIsOrderly(start, actions, k.value);
    }
    var j := FinalFollowUp(start, actions);
    if j.Some? {
      ExecKeepsOk(start, actions[..j.value]);
      var q := RanLast(start, actions[..j.value], actions[j.value]);
      QueryLead(start, actions, j.value, q.value);
    }
    ColumnsAreRightIff(leadId, acts, lead, actions);
  }

  lemma QueryLead(start: System, actions: seq<Action>, k: nat, q: nat)
    requires RequestsOk(start) && CountOk(start) && q < k <= |actions|
    ensures actions[..k][..q] == actions[..q]
    ensures Exec(start, actions[..q]).leadId == Exec(start, actions[..k]).leadId
  {
    ExecKeepsOk(start, actions[..q]);
    ExecKeepsOk(start, actions[..k]);
  }

  lemma FinalActivityIsOrderly(start: System, actions: seq<Action>, k: nat)
    requires start.requests == [] && RequestsOk(start) && CountOk(start)
    requires Quiescent(Exec(start, actions)) && FinalActivity(start, actions) == Some(k)
    requires CountsInOrder(start, actions) && CountsLive(start, actions)
    requires RecalculationsUndisturbed(start, actions) && NoneAnnouncedAtStores(start, actions)
    ensures ActivityUndisturbed(start, actions[..k], actions[k])
  {
    var s := Exec(start, actions[..k]);
    if actions[k].Count? {
      assert CountsAt(start, actions, k);
      forall t | t in Expected(s)
        ensures t <= s.requests[actions[k].c].now
      {
        FinalCountIsGreatest(start, actions, k, t);
      }
    } else {
      var q := RanLast(start, actions[..k], actions[k]);
      QueryLead(start, actions, k, q.value);
      assert Announced(s.requests) == {};
      assert Expected(s) == CreationTimes(s.acts, s.leadId);
    }
  }

  // ---------------------------------------------------------------------------
  // Runs that show each column wrong
  // ---------------------------------------------------------------------------

  /** What is left of a deletion after its stamp. */
  function Finish(c: nat): seq<Action> {
    [Decrement(c), Last(c), Last(c), Next(c), Next(c)]
  }

  lemma FiveSteps(s: System, a: Action, b: Action, c: Action, d: Action, e: Action)
    ensures Exec(s, [a, b, c, d, e]) == Step(Step(Step(Step(Step(s, a), b), c), d), e)
  {
    var s1 := Step(s, a);
    var s2 := Step(s1, b);
    var s3 := Step(s2, c);
    assert [a, b, c, d, e][1..] == [b, c, d, e] && [b, c, d, e][1..] == [c, d, e];
    assert [c, d, e][1..] == [d, e] && [d, e][1..] == [e] && [e][1..] == [];
    assert Exec(s, [a, b, c, d, e]) == Exec(s1, [b, c, d, e]) == Exec(s2, [c, d, e]) == Exec(s3, [d, e]);
    assert Exec(s3, [d, e]) == Exec(Step(s3, d), [e]) == Step(Step(s3, d), e);
  }

  lemma ThreeSteps(s: System, a: Action, b: Action, c: Action)
    ensures Exec(s, [a, b, c]) == Step(Step(Step(s, a), b), c)
  {
    var s1 := Step(s, a);
    var s2 := Step(s1, b);
    assert [a, b, c][1..] == [b, c] && [b, c][1..] == [c] && [c][1..] == [];
    assert Exec(s, [a, b, c]) == Exec(s1, [b, c]) == Exec(s2, [c]) == Exec(Step(s2, c), []);
  }

  /** Only request `c` and the lead change, as far as the rest is concerned. */
  predicate OnlyRequest(s: System, s': System, c: nat) {
    && s'.leadId == s.leadId && s'.acts == s.acts && s'.restamps == s.restamps && s'.lead.deletedAt == s.lead.deletedAt
    && c < |s.requests| == |s'.requests| && s'.requests == s.requests[c := s'.requests[c]]
  }

  lemma DecrementStep(s: System, c: nat)
    requires c < |s.requests| && s.requests[c].Deleting? && s.requests[c].stamped
    ensures var s' := Step(s, Decrement(c));
            && OnlyRequest(s, s', c) && s'.requests[c] == s.requests[c].(decremented := true)
            && s'.lead == s.lead.(touchpointCount := s.lead.touchpointCount - Bit(!s.requests[c].decremented))
  {
    if s.requests[c].decremented { assert s.requests == s.requests[c := s.requests[c]]; }
  }

  lemma LastSteps(s: System, c: nat)
    requires c < |s.requests| && s.requests[c].Deleting? && s.requests[c].stamped
    ensures var s' := Step(Step(s, Last(c)), Last(c));
            && OnlyRequest(s, s', c) && s'.requests[c] == s.requests[c].(last := Stored)
            && s'.lead == s.lead.(lastActivityAt := s'.lead.lastActivityAt)
            && (s.requests[c].last.Stored? ==> s'.lead == s.lead)
            && (s.requests[c].last.Waiting? ==> s'.lead.lastActivityAt == Greatest(CreationTimes(s.acts, s.leadId)))
  {
    if s.requests[c].last.Stored? { assert s.requests == s.requests[c := s.requests[c]]; }
  }

  lemma NextSteps(s: System, c: nat)
    requires c < |s.requests| && s.requests[c].Deleting? && s.requests[c].stamped
    ensures var s' := Step(Step(s, Next(c)), Next(c));
            && OnlyRequest(s, s', c) && s'.requests[c] == s.requests[c].(next := Stored)
            && s'.lead == s.lead.(nextFollowUpAt := s'.lead.nextFollowUpAt)
            && (s.requests[c].next.Answered? ==> s'.lead.nextFollowUpAt == s.requests[c].next.v)
            && (s.requests[c].next.Waiting? ==> s'.lead.nextFollowUpAt == Least(DueTimes(s.acts, s.leadId)))
  {
    if s.requests[c].next.Stored? { assert s.requests == s.requests[c := s.requests[c]]; }
  }

  lemma FinishEffect(s: System, c: nat)
    requires c < |s.requests| && s.requests[c].Deleting? && s.requests[c].stamped
    ensures var s' := Exec(s, Finish(c));
            && OnlyRequest(s, s', c) && Finished(s'.requests[c])
            && ((forall d :: 0 <= d < |s.requests| && d != c ==> Finished(s.requests[d])) ==> Quiescent(s'))
            && s'.lead.touchpointCount == s.lead.touchpointCount - Bit(!s.requests[c].decremented)
            && (s.requests[c].last.Stored? ==> s'.lead.lastActivityAt == s.lead.lastActivityAt)
            && (s.requests[c].last.Waiting? ==> s'.lead.lastActivityAt == Greatest(CreationTimes(s.acts, s.leadId)))
            && (s.requests[c].next.Waiting? ==> s'.lead.nextFollowUpAt == Least(DueTimes(s.acts, s.leadId)))
            && (s.requests[c].next.Answered? ==>
                  (FollowUpRight(s') <==> IsLeast(s.requests[c].next.v, DueTimes(s.acts, s.leadId))))
  {
    FiveSteps(s, Decrement(c), Last(c), Last(c), Next(c), Next(c));
    var s1 := Step(s, Decrement(c));
    DecrementStep(s, c);
    var s2 := Step(Step(s1, Last(c)), Last(c));
    LastSteps(s1, c);
    NextSteps(s2, c);
  }

  // ---------------------------------------------------------------------------
  // A request that nothing disturbs
  // ---------------------------------------------------------------------------

  function TablesOf(s: System): Tables {
    Tables(s.acts, map[s.leadId := s.lead])
  }

  /** One more request, which has ended. */
  predicate OneMoreEnded(s: System, s': System) {
    && s'.leadId == s.leadId && s'.restamps == s.restamps
    && |s'.requests| == |s.requests| + 1 && s'.requests[..|s.requests|] == s.requests
    && Finished(s'.requests[|s.requests|])
  }

  lemma BeginAppends(s: System, a: Action)
    requires Begins(a) && GuardPasses(s, a)
    ensures Step(s, a) == s.(requests := s.requests + [Begun(a)])
  {
  }

  lemma WholeRecalculation(s: System, c: nat)
    requires c < |s.requests| && RecalculatesNext(s.requests[c]) && s.requests[c].next.Waiting?
    ensures Step(Step(s, Next(c)), Next(c))
            == s.(lead := RecalcNext(s.acts, s.leadId, s.lead),
                  requests := s.requests[c := s.requests[c].(next := Stored)])
  {
  }

  lemma BothWrites(s: System, c: nat)
    requires c < |s.requests| && s.requests[c].Creating? && !s.requests[c].inserted && !s.requests[c].counted
    requires s.requests[c].id !in s.acts
    ensures var p := s.requests[c];
            Step(Step(s, Insert(c)), Count(c))
            == s.(acts := s.acts[p.id := NewActivity(s.leadId, p.kind, p.dueAt, p.now)],
                  lead := s.lead.(lastActivityAt := Some(p.now), touchpointCount := s.lead.touchpointCount + 1),
                  requests := s.requests[c := p.(inserted := true, counted := true)])
  {
  }

  lemma IdleStep(s: System, c: nat)
    requires c < |s.requests| && (!RecalculatesNext(s.requests[c]) || s.requests[c].next.Stored?)
    ensures Step(s, Next(c)) == s
  {
  }

  /** Its steps one after another are the call on the tables. */
  lemma UndisturbedCreation(s: System, id: Uuid, kind: ActivityType, dueAt: Option<Time>, now: Time)
    returns (after: System)
    requires CanCreate(TablesOf(s), s.leadId, kind, dueAt) && id !in s.acts
    ensures var c := |s.requests|;
            after == Exec(s, [BeginCreate(id, kind, dueAt, now), Insert(c), Count(c), Next(c), Next(c)])
    ensures OneMoreEnded(s, after) && TablesOf(after) == Created(TablesOf(s), id, s.leadId, kind, dueAt, now, now)
  {
    var b, c := BeginCreate(id, kind, dueAt, now), |s.requests|;
    FiveSteps(s, b, Insert(c), Count(c), Next(c), Next(c));
    BeginAppends(s, b);
    var s1 := Step(s, b);
    BothWrites(s1, c);
    var s3 := Step(Step(s1, Insert(c)), Count(c));
    after := Step(Step(s3, Next(c)), Next(c));
    if kind.TaskA? { WholeRecalculation(s3, c); } else { IdleStep(s3, c); }
  }

  lemma PatchWrites(s: System, c: nat)
    requires c < |s.requests| && s.requests[c].Updating? && !s.requests[c].patched && s.requests[c].id in s.acts
    ensures var p := s.requests[c];
            Step(s, Patch(c)) == s.(acts := s.acts[p.id := Patched(s.acts[p.id], p.due, p.status)],
                                    requests := s.requests[c := p.(patched := true)])
  {
  }

  lemma UndisturbedUpdate(s: System, id: Uuid, due: Option<Option<Time>>, status: Option<Option<TaskStatus>>)
    returns (after: System)
    requires CanChange(TablesOf(s), s.leadId, id)
    ensures var c := |s.requests|;
            after == Exec(s, [BeginUpdate(id, due, status), Patch(c), Next(c), Next(c), Next(c)])
    ensures OneMoreEnded(s, after) && TablesOf(after) == Updated(TablesOf(s), s.leadId, id, due, status)
  {
    var b, c := BeginUpdate(id, due, status), |s.requests|;
    FiveSteps(s, b, Patch(c), Next(c), Next(c), Next(c));
    BeginAppends(s, b);
    var s1 := Step(s, b);
    PatchWrites(s1, c);
    var s2 := Step(s1, Patch(c));
    var s4 := Step(Step(s2, Next(c)), Next(c));
    if due.Some? || status.Some? { WholeRecalculation(s2, c); } else { IdleStep(s2, c); }
    IdleStep(s4, c);
    after := Step(s4, Next(c));
  }

  lemma StampWrites(s: System, c: nat)
    requires c < |s.requests| && s.requests[c].Deleting? && !s.requests[c].stamped
    requires s.requests[c].id in s.acts && s.acts[s.requests[c].id].deletedAt.None?
    ensures var p := s.requests[c];
            Step(s, Stamp(c)) == s.(acts := s.acts[p.id := s.acts[p.id].(deletedAt := Some(p.now))],
                                    requests := s.requests[c := p.(stamped := true)])
  {
  }

  lemma TwoSteps(s: System, a: Action, b: Action)
    ensures Exec(s, [a, b]) == Step(Step(s, a), b)
  {
    assert [a, b][1..] == [b] && [b][1..] == [];
    assert Exec(s, [a, b]) == Exec(Step(s, a), [b]) == Exec(Step(Step(s, a), b), []);
  }

  lemma UndisturbedDeletion(s: System, id: Uuid, now: Time) returns (after: System)
    requires CanChange(TablesOf(s), s.leadId, id)
    ensures after == Exec(s, [BeginDelete(id, now), Stamp(|s.requests|)] + Finish(|s.requests|))
    ensures OneMoreEnded(s, after) && TablesOf(after) == Deleted(TablesOf(s), s.leadId, id, now)
  {
    var b, c := BeginDelete(id, now), |s.requests|;
    BeginAppends(s, b);
    StampWrites(Step(s, b), c);
    TwoSteps(s, b, Stamp(c));
    ExecAppend(s, [b, Stamp(c)], Finish(c));
    FinishEffect(Step(Step(s, b), Stamp(c)), c);
    after := Exec(Step(Step(s, b), Stamp(c)), Finish(c));
  }

  lemma BothStamp(leadId: Uuid, acts: Activities, lead: Lead, id: Uuid, now: Time)
    requires id in acts && IsLive(acts[id], leadId)
    ensures var d := BeginDelete(id, now);
            var s := Exec(Start(leadId, acts, lead), [d, d, Stamp(0), Stamp(1), Stamp(1)]);
            && s.leadId == leadId && s.restamps == 1 && |s.requests| == 2
            && s.requests[0].Deleting? && s.requests[0].stamped && s.requests[1].Deleting? && s.requests[1].stamped
  {
    var s0 := Start(leadId, acts, lead);
    var d := BeginDelete(id, now);
    FiveSteps(s0, d, d, Stamp(0), Stamp(1), Stamp(1));
    var s2 := Step(Step(s0, d), d);
    assert s2.requests == [Begun(d), Begun(d)];
    var s3 := Step(s2, Stamp(0));
    assert s3.requests == [Deleting(id, now, true, false, Waiting, Waiting), Begun(d)] && s3.restamps == 0;
    var s4 := Step(s3, Stamp(1));
    assert s4.restamps == 1 && Step(s4, Stamp(1)) == s4;
  }

  lemma FinishBoth(s: System)
    requires |s.requests| == 2
    requires s.requests[0].Deleting? && s.requests[0].stamped && s.requests[1].Deleting? && s.requests[1].stamped
    ensures var s' := Exec(s, Finish(0) + Finish(1));
            Quiescent(s') && s'.restamps == s.restamps
  {
    FinishEffect(s, 0);
    var s1 := Exec(s, Finish(0));
    FinishEffect(s1, 1);
    ExecAppend(s, Finish(0), Finish(1));
  }

  function DeleteTwice(id: Uuid, now: Time): seq<Action> {
    [BeginDelete(id, now), BeginDelete(id, now), Stamp(0), Stamp(1), Stamp(1)] + (Finish(0) + Finish(1))
  }

  /** Two deletions of one activity, the second past its guard before the first stamps. */
  lemma TwoDeletionsMiscount(leadId: Uuid, acts: Activities, lead: Lead, id: Uuid, now: Time)
    requires Exact(acts, leadId, lead) && id in acts && IsLive(acts[id], leadId)
    ensures var s := Exec(Start(leadId, acts, lead), DeleteTwice(id, now));
            Quiescent(s) && s.restamps == 1 && s.lead.touchpointCount == |LiveIds(s.acts, leadId)| - 1
  {
    var s0 := Start(leadId, acts, lead);
    var d := BeginDelete(id, now);
    var first := [d, d, Stamp(0), Stamp(1), Stamp(1)];
    BothStamp(leadId, acts, lead, id, now);
    FinishBoth(Exec(s0, first));
    ExecAppend(s0, first, Finish(0) + Finish(1));
    ColumnsAreRightIff(leadId, acts, lead, DeleteTwice(id, now));
  }

  /** A deletion that has stamped its activity and queried the due times. */
  lemma DeletionQueries(leadId: Uuid, acts: Activities, lead: Lead, gone: Uuid, now: Time)
    requires gone in acts && IsLive(acts[gone], leadId)
    ensures var s := Exec(Start(leadId, acts, lead), [BeginDelete(gone, now), Stamp(0), Next(0)]);
            var acts' := acts[gone := acts[gone].(deletedAt := Some(now))];
            s == System(leadId, acts', lead,
                [Deleting(gone, now, true, false, Waiting, Answered(Least(DueTimes(acts', leadId))))], 0)
  {
    var s0 := Start(leadId, acts, lead);
    ThreeSteps(s0, BeginDelete(gone, now), Stamp(0), Next(0));
    var s1 := Step(s0, BeginDelete(gone, now));
    assert s1.requests == [Deleting(gone, now, false, false, Waiting, Waiting)];
    var s2 := Step(s1, Stamp(0));
    assert s2.requests == [Deleting(gone, now, true, false, Waiting, Waiting)];
  }

  /** An undisturbed creation of a task, as the second request. */
  lemma TaskIsCreated(s: System, id: Uuid, due: Time, now: Time)
    requires |s.requests| == 1 && s.lead.deletedAt.None? && id !in s.acts
    ensures var s' := Exec(s, [BeginCreate(id, TaskA, Some(due), now), Insert(1), Count(1), Next(1), Next(1)]);
            && s'.leadId == s.leadId && s'.acts == s.acts[id := NewActivity(s.leadId, TaskA, Some(due), now)]
            && s'.restamps == s.restamps
            && |s'.requests| == 2 && s'.requests[0] == s.requests[0] && Finished(s'.requests[1])
  {
    var b := BeginCreate(id, TaskA, Some(due), now);
    FiveSteps(s, b, Insert(1), Count(1), Next(1), Next(1));
    var s1 := Step(s, b);
    assert s1.requests == [s.requests[0], Begun(b)];
    var s3 := Step(Step(s1, Insert(1)), Count(1));
    assert s3.requests == [s.requests[0], Creating(id, TaskA, Some(due), now, true, true, Waiting)];
  }

  lemma StampShrinks(acts: Activities, leadId: Uuid, id: Uuid, now: Time)
    requires id in acts
    ensures var acts' := acts[id := acts[id].(deletedAt := Some(now))];
            DueTimes(acts', leadId) <= DueTimes(acts, leadId)
                && CreationTimes(acts', leadId) <= CreationTimes(acts, leadId)
  {
  }

  lemma SoonerTaskIsMissed(acts: Activities, leadId: Uuid, id: Uuid, due: Time, now: Time)
    requires id !in acts && forall t :: t in DueTimes(acts, leadId) ==> due < t
    ensures !IsLeast(Least(DueTimes(acts, leadId)),
        DueTimes(acts[id := NewActivity(leadId, TaskA, Some(due), now)], leadId))
  {
    var acts' := acts[id := NewActivity(leadId, TaskA, Some(due), now)];
    assert acts'[id].dueAt.value == due && IsLive(acts'[id], leadId) && IsOpenTask(acts'[id]);
    assert due in DueTimes(acts', leadId);
  }

  function ForgetTask(gone: Uuid, id: Uuid, due: Time, now: Time): seq<Action> {
    [BeginDelete(gone, now), Stamp(0), Next(0)]
    + ([BeginCreate(id, TaskA, Some(due), now), Insert(1), Count(1), Next(1), Next(1)] + Finish(0))
  }

  /** The deletion has queried, and the task has been created, before the deletion stores. */
  lemma TaskIsMissed(leadId: Uuid, acts: Activities, lead: Lead, gone: Uuid, id: Uuid, due: Time, now: Time)
    requires gone in acts && IsLive(acts[gone], leadId) && id !in acts && lead.deletedAt.None?
    requires forall t :: t in DueTimes(acts, leadId) ==> due < t
    ensures var s1 := Exec(Start(leadId, acts, lead), [BeginDelete(gone, now), Stamp(0), Next(0)]);
            var s := Exec(s1, [BeginCreate(id, TaskA, Some(due), now), Insert(1), Count(1), Next(1), Next(1)]);
            && s.restamps == 0 && |s.requests| == 2 && Finished(s.requests[1])
            && s.requests[0].Deleting? && s.requests[0].stamped && s.requests[0].next.Answered?
            && s.leadId == leadId && !IsLeast(s.requests[0].next.v, DueTimes(s.acts, leadId))
  {
    DeletionQueries(leadId, acts, lead, gone, now);
    var s1 := Exec(Start(leadId, acts, lead), [BeginDelete(gone, now), Stamp(0), Next(0)]);
    TaskIsCreated(s1, id, due, now);
    StampShrinks(acts, leadId, gone, now);
    SoonerTaskIsMissed(s1.acts, leadId, id, due, now);
  }

  /**
   A deletion queries, a task due sooner is created, and the deletion stores what it had read: the task is forgotten.
   */
  lemma StaleStoreForgetsTask(leadId: Uuid, acts: Activities, lead: Lead, gone: Uuid, id: Uuid, due: Time, now: Time)
    requires gone in acts && IsLive(acts[gone], leadId) && id !in acts && lead.deletedAt.None?
    requires forall t :: t in DueTimes(acts, leadId) ==> due < t
    ensures var s := Exec(Start(leadId, acts, lead), ForgetTask(gone, id, due, now));
            Quiescent(s) && s.restamps == 0 && !FollowUpRight(s)
  {
    var s0 := Start(leadId, acts, lead);
    var first := [BeginDelete(gone, now), Stamp(0), Next(0)];
    var second := [BeginCreate(id, TaskA, Some(due), now), Insert(1), Count(1), Next(1), Next(1)];
    TaskIsMissed(leadId, acts, lead, gone, id, due, now);
    var s1 := Exec(s0, first);
    FinishEffect(Exec(s1, second), 0);
    ExecAppend(s1, second, Finish(0));
    ExecAppend(s0, first, second + Finish(0));
  }

  /** A creation counted on the lead, then a deletion that has stamped its activity. */
  lemma CountedThenStamped(leadId: Uuid, acts: Activities, lead: Lead, gone: Uuid, id: Uuid, now: Time)
    requires gone in acts && IsLive(acts[gone], leadId) && lead.deletedAt.None?
    ensures var s := Exec(Start(leadId, acts, lead),
        [BeginCreate(id, NoteA, None, now), Count(0), BeginDelete(gone, now), Stamp(1), Stamp(1)]);
            && s.leadId == leadId && s.acts == acts[gone := acts[gone].(deletedAt := Some(now))] && s.restamps == 0
            && s.requests == [Creating(id, NoteA, None, now, false, true, Waiting),
                Deleting(gone, now, true, false, Waiting, Waiting)]
  {
    var s0 := Start(leadId, acts, lead);
    var b, d := BeginCreate(id, NoteA, None, now), BeginDelete(gone, now);
    FiveSteps(s0, b, Count(0), d, Stamp(1), Stamp(1));
    var s1 := Step(s0, b);
    assert s1.requests == [Begun(b)];
    var s3 := Step(Step(s1, Count(0)), d);
    assert s3.requests == [Creating(id, NoteA, None, now, false, true, Waiting), Begun(d)];
    var s4 := Step(s3, Stamp(1));
    assert s4.requests[1].stamped && Step(s4, Stamp(1)) == s4;
  }

  /** The deletion's recalculation, with nothing between its query and its store, and then the insertion. */
  lemma RecalculatedThenInserted(s: System, gone: Uuid, id: Uuid, now: Time)
    requires id !in s.acts && forall t :: t in CreationTimes(s.acts, s.leadId) ==> t < now
    requires s.requests == [Creating(id, NoteA, None, now, false, true, Waiting),
        Deleting(gone, now, true, false, Waiting, Waiting)]
    ensures var s' := Exec(s, [Last(1), Last(1), Insert(0)]);
            && s'.leadId == s.leadId && s'.restamps == s.restamps
            && !IsGreatest(s'.lead.lastActivityAt, CreationTimes(s'.acts, s.leadId))
            && s'.requests == [Creating(id, NoteA, None, now, true, true, Waiting),
                Deleting(gone, now, true, false, Stored, Waiting)]
  {
    ThreeSteps(s, Last(1), Last(1), Insert(0));
    var answer := Greatest(CreationTimes(s.acts, s.leadId));
    var s1 := Step(s, Last(1));
    assert s1.requests[1] == Deleting(gone, now, true, false, Answered(answer), Waiting);
    var s2 := Step(s1, Last(1));
    assert s2.lead.lastActivityAt == answer;
    AddedActivity(s2.acts, id, NewActivity(s.leadId, NoteA, None, now));
    var s3 := Step(s2, Insert(0));
    assert now in CreationTimes(s3.acts, s.leadId);
  }

  function ForgetInsert(gone: Uuid, id: Uuid, now: Time): seq<Action> {
    [BeginCreate(id, NoteA, None, now), Count(0), BeginDelete(gone, now), Stamp(1), Stamp(1)]
    + ([Last(1), Last(1), Insert(0)] + Finish(1))
  }

  /**
   A creation is counted on the lead, a deletion recalculates undisturbed, and only then is the creation inserted:
   `lastActivityAt` misses it.
   */
  lemma LateInsertIsForgotten(leadId: Uuid, acts: Activities, lead: Lead, gone: Uuid, id: Uuid, now: Time)
    requires gone in acts && IsLive(acts[gone], leadId) && id !in acts && lead.deletedAt.None?
    requires forall t :: t in CreationTimes(acts, leadId) ==> t < now
    ensures var s := Exec(Start(leadId, acts, lead), ForgetInsert(gone, id, now));
            Quiescent(s) && s.restamps == 0 && !IsGreatest(s.lead.lastActivityAt, CreationTimes(s.acts, leadId))
  {
    var s0 := Start(leadId, acts, lead);
    var first := [BeginCreate(id, NoteA, None, now), Count(0), BeginDelete(gone, now), Stamp(1), Stamp(1)];
    var second := [Last(1), Last(1), Insert(0)];
    CountedThenStamped(leadId, acts, lead, gone, id, now);
    var s1 := Exec(s0, first);
    StampShrinks(acts, leadId, gone, now);
    RecalculatedThenInserted(s1, gone, id, now);
    FinishEffect(Exec(s1, second), 1);
    ExecAppend(s1, second, Finish(1));
    ExecAppend(s0, first, second + Finish(1));
  }

  function CountBackwards(a: Uuid, b: Uuid, earlier: Time, later: Time): seq<Action> {
    [BeginCreate(a, NoteA, None, earlier), BeginCreate(b, NoteA, None, later), Count(1)]
    + [Count(0), Insert(0), Insert(1)]
  }

  /**
   Two creations, no deletion and no recalculation: counted in the other order than their clocks, the earlier time
   stays.
   */
  lemma CountsOutOfOrder(leadId: Uuid, acts: Activities, lead: Lead, a: Uuid, b: Uuid, earlier: Time, later: Time)
    requires lead.deletedAt.None? && a !in acts && b !in acts && a != b && earlier < later
    ensures var s := Exec(Start(leadId, acts, lead), CountBackwards(a, b, earlier, later));
            && Quiescent(s) && s.restamps == 0
            && s.lead.lastActivityAt == Some(earlier) && later in CreationTimes(s.acts, leadId)
  {
    var s0 := Start(leadId, acts, lead);
    var first := [BeginCreate(a, NoteA, None, earlier), BeginCreate(b, NoteA, None, later), Count(1)];
    var second := [Count(0), Insert(0), Insert(1)];
    ThreeSteps(s0, first[0], first[1], first[2]);
    var s1 := Exec(s0, first);
    assert s1.requests == [Begun(first[0]), Begun(first[1]).(counted := true)];
    ThreeSteps(s1, second[0], second[1], second[2]);
    ExecAppend(s0, first, second);
    var s3 := Step(Step(s1, second[0]), second[1]);
    assert s3.acts == acts[a := NewActivity(leadId, NoteA, None, earlier)];
    AddedActivity(s3.acts, b, NewActivity(leadId, NoteA, None, later));
  }

  function CountDeleted(id: Uuid, now: Time): seq<Action> {
    [BeginCreate(id, NoteA, None, now), Insert(0), BeginDelete(id, now), Stamp(1), Stamp(1)] + (Finish(1) + [Count(0)])
  }

  lemma InsertedThenStamped(leadId: Uuid, acts: Activities, lead: Lead, id: Uuid, now: Time)
    requires lead.deletedAt.None? && id !in acts
    ensures var s := Exec(Start(leadId, acts, lead),
        [BeginCreate(id, NoteA, None, now), Insert(0), BeginDelete(id, now), Stamp(1), Stamp(1)]);
            && s.leadId == leadId && s.restamps == 0
            && CreationTimes(s.acts, leadId) == CreationTimes(acts, leadId)
            && s.requests == [Creating(id, NoteA, None, now, true, false, Waiting),
                Deleting(id, now, true, false, Waiting, Waiting)]
  {
    var s0 := Start(leadId, acts, lead);
    var b, d := BeginCreate(id, NoteA, None, now), BeginDelete(id, now);
    FiveSteps(s0, b, Insert(0), d, Stamp(1), Stamp(1));
    var s1 := Step(s0, b);
    assert s1.requests == [Begun(b)];
    var s3 := Step(Step(s1, Insert(0)), d);
    assert s3.requests == [Creating(id, NoteA, None, now, true, false, Waiting), Begun(d)];
    var s4 := Step(s3, Stamp(1));
    assert s4.requests[1].stamped && Step(s4, Stamp(1)) == s4;
    assert s4.acts == acts[id := NewActivity(leadId, NoteA, None, now).(deletedAt := Some(now))];
    assert forall x :: x in acts ==> x in s4.acts && s4.acts[x] == acts[x];
  }

  /** A creation is inserted and deleted, undisturbed, before it is counted: its time comes back when it is. */
  lemma CountAfterDeletion(leadId: Uuid, acts: Activities, lead: Lead, id: Uuid, now: Time)
    requires lead.deletedAt.None? && id !in acts && now !in CreationTimes(acts, leadId)
    ensures var s := Exec(Start(leadId, acts, lead), CountDeleted(id, now));
            && Quiescent(s) && s.restamps == 0
            && s.lead.lastActivityAt == Some(now) && now !in CreationTimes(s.acts, leadId)
  {
    var s0 := Start(leadId, acts, lead);
    var first := [BeginCreate(id, NoteA, None, now), Insert(0), BeginDelete(id, now), Stamp(1), Stamp(1)];
    InsertedThenStamped(leadId, acts, lead, id, now);
    var s1 := Exec(s0, first);
    FinishEffect(s1, 1);
    var s2 := Exec(s1, Finish(1));
    ExecAppend(s1, Finish(1), [Count(0)]);
    ExecAppend(s0, first, Finish(1) + [Count(0)]);
    assert [Count(0)][1..] == [];
    assert Exec(s2, [Count(0)]) == Step(s2, Count(0));
  }
}
