/**
 `touchpointCount`, `nextFollowUpAt` and `lastActivityAt` on a lead are a cache
 of its activities, kept by hand: incremented, overwritten and recomputed. The
 reference is what the live activities themselves say.
 */
module LeadActivityCache {
  import opened Prelude

  datatype ActivityType = NoteA | CallA | EmailA | SmsA | WhatsappA | MeetingA | TaskA
  datatype TaskStatus = Pending | InProgress | Completed | Cancelled

  datatype Activity = Activity(
    leadId: Uuid,
    kind: ActivityType,
    dueAt: Option<Time>,
    taskStatus: Option<TaskStatus>,
    createdAt: Time,
    deletedAt: Option<Time>)

  datatype Lead = Lead(
    touchpointCount: int,
    nextFollowUpAt: Option<Time>,
    lastActivityAt: Option<Time>,
    deletedAt: Option<Time>)

  type Activities = map<Uuid, Activity>

  datatype Tables = Tables(activities: Activities, leads: map<Uuid, Lead>)

  // ---------------------------------------------------------------------------
  // The reference: what the live activities say
  // ---------------------------------------------------------------------------

  predicate IsLive(a: Activity, leadId: Uuid) {
    a.leadId == leadId && a.deletedAt.None?
  }

  /** The filter of the next-follow-up query. */
  predicate IsOpenTask(a: Activity) {
    a.kind.TaskA? && (a.taskStatus == Some(Pending) || a.taskStatus == Some(InProgress)) && a.dueAt.Some?
  }

  function LiveIds(acts: Activities, leadId: Uuid): set<Uuid> {
    set id | id in acts && IsLive(acts[id], leadId)
  }

  function DueTimes(acts: Activities, leadId: Uuid): set<Time> {
    set id | id in acts && IsLive(acts[id], leadId) && IsOpenTask(acts[id]) :: acts[id].dueAt.value
  }

  function CreationTimes(acts: Activities, leadId: Uuid): set<Time> {
    set id | id in acts && IsLive(acts[id], leadId) :: acts[id].createdAt
  }

  predicate IsLeast(v: Option<Time>, times: set<Time>) {
    if times == {} then v.None? else v.Some? && v.value in times && forall t :: t in times ==> v.value <= t
  }

  predicate IsGreatest(v: Option<Time>, times: set<Time>) {
    if times == {} then v.None? else v.Some? && v.value in times && forall t :: t in times ==> t <= v.value
  }

  predicate Exact(acts: Activities, leadId: Uuid, lead: Lead) {
    && lead.touchpointCount == |LiveIds(acts, leadId)|
    && IsLeast(lead.nextFollowUpAt, DueTimes(acts, leadId))
    && IsGreatest(lead.lastActivityAt, CreationTimes(acts, leadId))
  }

  lemma {:induction false} LeastExists(times: set<Time>) returns (v: Option<Time>)
    ensures IsLeast(v, times)
  {
    if forall t :: t !in times {
      NoElementIsEmpty(times);
      v := None;
    } else {
      var t :| t in times;
      var rest := LeastExists(times - {t});
      v := if rest.Some? && rest.value < t then rest else Some(t);
      assert times == (times - {t}) + {t};
    }
  }

  lemma {:induction false} GreatestExists(times: set<Time>) returns (v: Option<Time>)
    ensures IsGreatest(v, times)
  {
    if forall t :: t !in times {
      NoElementIsEmpty(times);
      v := None;
    } else {
      var t :| t in times;
      var rest := GreatestExists(times - {t});
      v := if rest.Some? && rest.value > t then rest else Some(t);
      assert times == (times - {t}) + {t};
    }
  }

  lemma LeastIsInhabited(times: set<Time>)
    ensures exists v :: IsLeast(v, times)
  {
    var _ := LeastExists(times);
  }

  lemma GreatestIsInhabited(times: set<Time>)
    ensures exists v :: IsGreatest(v, times)
  {
    var _ := GreatestExists(times);
  }

  ghost function Least(times: set<Time>): (v: Option<Time>)
    ensures IsLeast(v, times)
  {
    LeastIsInhabited(times);
    var v :| IsLeast(v, times);
    v
  }

  ghost function Greatest(times: set<Time>): (v: Option<Time>)
    ensures IsGreatest(v, times)
  {
    GreatestIsInhabited(times);
    var v :| IsGreatest(v, times);
    v
  }

  // ---------------------------------------------------------------------------
  // The operations
  // ---------------------------------------------------------------------------

  ghost function RecalcNext(acts: Activities, leadId: Uuid, lead: Lead): Lead {
    lead.(nextFollowUpAt := Least(DueTimes(acts, leadId)))
  }

  ghost function RecalcLast(acts: Activities, leadId: Uuid, lead: Lead): Lead {
    lead.(lastActivityAt := Greatest(CreationTimes(acts, leadId)))
  }

  predicate CanCreate(t: Tables, leadId: Uuid, kind: ActivityType, dueAt: Option<Time>) {
    leadId in t.leads && t.leads[leadId].deletedAt.None? && (kind.TaskA? ==> dueAt.Some?)
  }

  predicate CanChange(t: Tables, leadId: Uuid, id: Uuid) {
    id in t.activities && IsLive(t.activities[id], leadId)
  }

  function NewActivity(leadId: Uuid, kind: ActivityType, dueAt: Option<Time>, dbNow: Time): Activity {
    Activity(leadId, kind, dueAt, if kind.TaskA? then Some(Pending) else None, dbNow, None)
  }

  /** The row takes `createdAt` from the database clock, the lead takes `lastActivityAt` from the program's. */
  ghost function Created(t: Tables, id: Uuid, leadId: Uuid, kind: ActivityType, dueAt: Option<Time>, appNow: Time,
                         dbNow: Time): Tables
    requires CanCreate(t, leadId, kind, dueAt)
  {
    var acts := t.activities[id := NewActivity(leadId, kind, dueAt, dbNow)];
    var lead := t.leads[leadId];
    var counted := lead.(lastActivityAt := Some(appNow), touchpointCount := lead.touchpointCount + 1);
    Tables(acts, t.leads[leadId := if kind.TaskA? then RecalcNext(acts, leadId, counted) else counted])
  }

  /** An outer `None` is a field the request leaves alone, an inner one a field it clears. */
  function Patched(a: Activity, dueAt: Option<Option<Time>>, status: Option<Option<TaskStatus>>): Activity {
    var b := if dueAt.Some? then a.(dueAt := dueAt.value) else a;
    if status.Some? then b.(taskStatus := status.value) else b
  }

  ghost function Updated(t: Tables, leadId: Uuid, id: Uuid, dueAt: Option<Option<Time>>,
                         status: Option<Option<TaskStatus>>): Tables
    requires CanChange(t, leadId, id) && leadId in t.leads
  {
    var acts := t.activities[id := Patched(t.activities[id], dueAt, status)];
    Tables(acts, if dueAt.Some? || status.Some? then t.leads[leadId := RecalcNext(acts, leadId, t.leads[leadId])]
                 else t.leads)
  }

  /** The writes of a deletion; that the activity is live was checked by an earlier statement. */
  ghost function Deleted(t: Tables, leadId: Uuid, id: Uuid, now: Time): Tables
    requires id in t.activities && leadId in t.leads
  {
    var acts := t.activities[id := t.activities[id].(deletedAt := Some(now))];
    var lead := t.leads[leadId];
    var counted := lead.(touchpointCount := lead.touchpointCount - 1);
    Tables(acts, t.leads[leadId := RecalcNext(acts, leadId, RecalcLast(acts, leadId, counted))])
  }

  // ---------------------------------------------------------------------------
  // The cache is exact in every reachable state
  // ---------------------------------------------------------------------------

  datatype Event =
    | AddLead(leadId: Uuid)
    | RemoveLead(leadId: Uuid, now: Time)
    | Create(id: Uuid, leadId: Uuid, kind: ActivityType, dueAt: Option<Time>, now: Time)
    | Update(leadId: Uuid, id: Uuid, due: Option<Option<Time>>, status: Option<Option<TaskStatus>>)
    | Delete(leadId: Uuid, id: Uuid, now: Time)

  /** A request whose guard fails changes nothing; generated ids are new. Creation reads one clock. */
  ghost function Step(t: Tables, e: Event): Tables {
    match e
    case AddLead(leadId) =>
      if leadId in t.leads then t else t.(leads := t.leads[leadId := Lead(0, None, None, None)])
    case RemoveLead(leadId, now) =>
      if leadId in t.leads then t.(leads := t.leads[leadId := t.leads[leadId].(deletedAt := Some(now))]) else t
    case Create(id, leadId, kind, dueAt, now) =>
      if id !in t.activities && CanCreate(t, leadId, kind, dueAt)
      then Created(t, id, leadId, kind, dueAt, now, now) else t
    case Update(leadId, id, due, status) =>
      if CanChange(t, leadId, id) && leadId in t.leads then Updated(t, leadId, id, due, status) else t
    case Delete(leadId, id, now) =>
      if CanChange(t, leadId, id) && leadId in t.leads then Deleted(t, leadId, id, now) else t
  }

  ghost function Run(t: Tables, events: seq<Event>): Tables
    decreases |events|
  {
    if events == [] then t else Run(Step(t, events[0]), events[1..])
  }

  predicate InOrder(clock: Time, events: seq<Event>)
    decreases |events|
  {
    events == [] ||
    if events[0].Create? then clock <= events[0].now && InOrder(events[0].now, events[1..])
    else InOrder(clock, events[1..])
  }

  ghost predicate Inv(t: Tables, clock: Time) {
    && (forall id :: id in t.activities ==> t.activities[id].leadId in t.leads && t.activities[id].createdAt <= clock)
    && (forall leadId :: leadId in t.leads ==> Exact(t.activities, leadId, t.leads[leadId]))
  }

  /** An activity of another lead does not enter a lead's reference values. */
  lemma OthersUnaffected(acts: Activities, id: Uuid, a: Activity, other: Uuid)
    requires a.leadId != other && (id in acts ==> acts[id].leadId != other)
    ensures LiveIds(acts[id := a], other) == LiveIds(acts, other)
    ensures DueTimes(acts[id := a], other) == DueTimes(acts, other)
    ensures CreationTimes(acts[id := a], other) == CreationTimes(acts, other)
  {
    var acts' := acts[id := a];
    forall x | x in acts && x != id
      ensures x in acts' && acts'[x] == acts[x]
    {
    }
  }

  lemma AddedActivity(acts: Activities, id: Uuid, a: Activity)
    requires id !in acts && a.deletedAt.None?
    ensures LiveIds(acts[id := a], a.leadId) == LiveIds(acts, a.leadId) + {id}
    ensures CreationTimes(acts[id := a], a.leadId) == CreationTimes(acts, a.leadId) + {a.createdAt}
    ensures !IsOpenTask(a) ==> DueTimes(acts[id := a], a.leadId) == DueTimes(acts, a.leadId)
  {
    var acts' := acts[id := a];
    assert acts'[id] == a;
    forall x | x in acts
      ensures x in acts' && acts'[x] == acts[x]
    {
    }
  }

  lemma PatchedActivity(acts: Activities, id: Uuid, a: Activity)
    requires id in acts && a.leadId == acts[id].leadId && a.createdAt == acts[id].createdAt
        && a.deletedAt == acts[id].deletedAt
    ensures LiveIds(acts[id := a], a.leadId) == LiveIds(acts, a.leadId)
    ensures CreationTimes(acts[id := a], a.leadId) == CreationTimes(acts, a.leadId)
  {
    var acts' := acts[id := a];
    forall x | x in acts
      ensures x in acts' && IsLive(acts'[x], a.leadId) == IsLive(acts[x], a.leadId)
          && acts'[x].createdAt == acts[x].createdAt
    {
    }
  }

  lemma RemovedActivity(acts: Activities, id: Uuid, now: Time)
    requires id in acts && acts[id].deletedAt.None?
    ensures var acts' := acts[id := acts[id].(deletedAt := Some(now))];
            LiveIds(acts', acts[id].leadId) == LiveIds(acts, acts[id].leadId) - {id}
    ensures id in LiveIds(acts, acts[id].leadId)
  {
  }

  lemma CreatedRowIsExact(t: Tables, id: Uuid, leadId: Uuid, kind: ActivityType, dueAt: Option<Time>, now: Time)
    requires id !in t.activities && CanCreate(t, leadId, kind, dueAt) && Exact(t.activities, leadId, t.leads[leadId])
    requires forall time :: time in CreationTimes(t.activities, leadId) ==> time <= now
    ensures var t' := Created(t, id, leadId, kind, dueAt, now, now);
            Exact(t'.activities, leadId, t'.leads[leadId])
  {
    AddedActivity(t.activities, id, NewActivity(leadId, kind, dueAt, now));
  }

  lemma CreateKeepsInv(t: Tables, id: Uuid, leadId: Uuid, kind: ActivityType, dueAt: Option<Time>, now: Time,
                       clock: Time)
    requires Inv(t, clock) && clock <= now && id !in t.activities && CanCreate(t, leadId, kind, dueAt)
    ensures Inv(Created(t, id, leadId, kind, dueAt, now, now), now)
  {
    var t' := Created(t, id, leadId, kind, dueAt, now, now);
    CreatedRowIsExact(t, id, leadId, kind, dueAt, now);
    forall other | other in t'.leads && other != leadId
      ensures Exact(t'.activities, other, t'.leads[other])
    {
      assert Exact(t.activities, other, t.leads[other]);
      OthersUnaffected(t.activities, id, NewActivity(leadId, kind, dueAt, now), other);
    }
  }

  lemma UpdateKeepsInv(t: Tables, leadId: Uuid, id: Uuid, due: Option<Option<Time>>,
                       status: Option<Option<TaskStatus>>, clock: Time)
    requires Inv(t, clock) && CanChange(t, leadId, id) && leadId in t.leads
    ensures Inv(Updated(t, leadId, id, due, status), clock)
  {
    var t' := Updated(t, leadId, id, due, status);
    var a := Patched(t.activities[id], due, status);
    PatchedActivity(t.activities, id, a);
    assert due.None? && status.None? ==> t'.activities == t.activities;
    forall other | other in t'.leads
      ensures Exact(t'.activities, other, t'.leads[other])
    {
      assert Exact(t.activities, other, t.leads[other]);
      if other != leadId { OthersUnaffected(t.activities, id, a, other); }
    }
  }

  lemma DeleteKeepsInv(t: Tables, leadId: Uuid, id: Uuid, now: Time, clock: Time)
    requires Inv(t, clock) && CanChange(t, leadId, id) && leadId in t.leads
    ensures Inv(Deleted(t, leadId, id, now), clock)
  {
    var t' := Deleted(t, leadId, id, now);
    RemovedActivity(t.activities, id, now);
    forall other | other in t'.leads
      ensures Exact(t'.activities, other, t'.leads[other])
    {
      assert Exact(t.activities, other, t.leads[other]);
      if other != leadId { OthersUnaffected(t.activities, id, t.activities[id].(deletedAt := Some(now)), other); }
    }
  }

  /** In every state a run reaches, the three columns of every lead are what its live activities say. */
  lemma {:induction false} CacheIsExact(t: Tables, clock: Time, events: seq<Event>) returns (end: Time)
    requires Inv(t, clock) && InOrder(clock, events)
    ensures Inv(Run(t, events), end)
    decreases |events|
  {
    if events == [] {
      end := clock;
    } else {
      var e := events[0];
      var next := if e.Create? then e.now else clock;
      assert Inv(Step(t, e), next) by {
        match e
        case Create(id, leadId, kind, dueAt, now) =>
          if id !in t.activities && CanCreate(t, leadId, kind, dueAt) {
            CreateKeepsInv(t, id, leadId, kind, dueAt, now, clock);
          }
        case Update(leadId, id, due, status) =>
          if CanChange(t, leadId, id) && leadId in t.leads { UpdateKeepsInv(t, leadId, id, due, status, clock); }
        case Delete(leadId, id, now) =>
          if CanChange(t, leadId, id) && leadId in t.leads { DeleteKeepsInv(t, leadId, id, now, clock); }
        case AddLead(leadId) => NewLeadIsExact(t, leadId, clock);
        case RemoveLead(leadId, now) =>
      }
      end := CacheIsExact(Step(t, e), next, events[1..]);
    }
  }

  lemma NewLeadIsExact(t: Tables, leadId: Uuid, clock: Time)
    requires Inv(t, clock)
    ensures Inv(Step(t, AddLead(leadId)), clock)
  {
    if leadId !in t.leads {
      assert LiveIds(t.activities, leadId) == {} && DueTimes(t.activities, leadId) == {}
          && CreationTimes(t.activities, leadId) == {};
    }
  }

  /**
   With the program's and the database's clocks apart, a creation leaves `lastActivityAt` exact if and only if the
   program's reading is the later of the database's reading and the newest live creation.
   */
  lemma TwoClocksExactIff(t: Tables, id: Uuid, leadId: Uuid, kind: ActivityType, dueAt: Option<Time>, appNow: Time,
                          dbNow: Time)
    requires id !in t.activities && CanCreate(t, leadId, kind, dueAt) && Exact(t.activities, leadId, t.leads[leadId])
    ensures var t' := Created(t, id, leadId, kind, dueAt, appNow, dbNow);
            var newest := t.leads[leadId].lastActivityAt;
            IsGreatest(t'.leads[leadId].lastActivityAt, CreationTimes(t'.activities, leadId))
            <==> appNow == if newest.Some? && newest.value > dbNow then newest.value else dbNow
  {
    AddedActivity(t.activities, id, NewActivity(leadId, kind, dueAt, dbNow));
    GreatestWithOneMore(CreationTimes(t.activities, leadId), t.leads[leadId].lastActivityAt, dbNow, appNow);
    assert Created(t, id, leadId, kind, dueAt, appNow, dbNow).leads[leadId].lastActivityAt == Some(appNow);
  }

  lemma GreatestWithOneMore(times: set<Time>, newest: Option<Time>, t: Time, v: Time)
    requires IsGreatest(newest, times)
    ensures IsGreatest(Some(v), times + {t}) <==> v == if newest.Some? && newest.value > t then newest.value else t
  {
    assert times + {t} != {} by { assert t in times + {t}; }
    assert forall x :: x in times ==> x in times + {t};
  }

  // ---------------------------------------------------------------------------
  // The three parallel parts of a deletion
  // ---------------------------------------------------------------------------

  datatype Part = DecrementCount | RecomputeLast | RecomputeNext

  /** A recalculation is a query, whose answer it holds, then an update. */
  datatype Recalc = Waiting | Answered(v: Option<Time>) | Stored

  datatype Deletion = Deletion(lead: Lead, decremented: bool, last: Recalc, next: Recalc)

  ghost function Advance(acts: Activities, leadId: Uuid, d: Deletion, p: Part): Deletion {
    match p
    case DecrementCount =>
      if d.decremented then d
      else d.(lead := d.lead.(touchpointCount := d.lead.touchpointCount - 1), decremented := true)
    case RecomputeLast =>
      (match d.last
       case Waiting => d.(last := Answered(Greatest(CreationTimes(acts, leadId))))
       case Answered(v) => d.(lead := d.lead.(lastActivityAt := v), last := Stored)
       case Stored => d)
    case RecomputeNext =>
      (match d.next
       case Waiting => d.(next := Answered(Least(DueTimes(acts, leadId))))
       case Answered(v) => d.(lead := d.lead.(nextFollowUpAt := v), next := Stored)
       case Stored => d)
  }

  ghost function Schedule(acts: Activities, leadId: Uuid, d: Deletion, parts: seq<Part>): Deletion
    decreases |parts|
  {
    if parts == [] then d else Schedule(acts, leadId, Advance(acts, leadId, d, parts[0]), parts[1..])
  }

  predicate Finished(d: Deletion) {
    d.decremented && d.last.Stored? && d.next.Stored?
  }

  ghost predicate OnCourse(acts: Activities, leadId: Uuid, start: Lead, d: Deletion) {
    && d.lead == Lead(
         start.touchpointCount - (if d.decremented then 1 else 0),
         if d.next.Stored? then Least(DueTimes(acts, leadId)) else start.nextFollowUpAt,
         if d.last.Stored? then Greatest(CreationTimes(acts, leadId)) else start.lastActivityAt,
         start.deletedAt)
    && (d.last.Answered? ==> d.last.v == Greatest(CreationTimes(acts, leadId)))
    && (d.next.Answered? ==> d.next.v == Least(DueTimes(acts, leadId)))
  }

  lemma {:induction false} ScheduleStaysOnCourse(acts: Activities, leadId: Uuid, start: Lead, d: Deletion,
                                                 parts: seq<Part>)
    requires OnCourse(acts, leadId, start, d)
    ensures OnCourse(acts, leadId, start, Schedule(acts, leadId, d, parts))
    decreases |parts|
  {
    if parts != [] {
      ScheduleStaysOnCourse(acts, leadId, start, Advance(acts, leadId, d, parts[0]), parts[1..]);
    }
  }

  /**
   Every interleaving of the decrement and the two read-then-write recalculations ends in the row the deletion
   specifies; and if the row was exact before, that row is exact.
   */
  lemma EveryInterleavingAgrees(t: Tables, leadId: Uuid, id: Uuid, now: Time, parts: seq<Part>)
    requires CanChange(t, leadId, id) && leadId in t.leads
    requires var acts := t.activities[id := t.activities[id].(deletedAt := Some(now))];
             Finished(Schedule(acts, leadId, Deletion(t.leads[leadId], false, Waiting, Waiting), parts))
    ensures var acts := t.activities[id := t.activities[id].(deletedAt := Some(now))];
            var end := Schedule(acts, leadId, Deletion(t.leads[leadId], false, Waiting, Waiting), parts).lead;
            && end == Deleted(t, leadId, id, now).leads[leadId]
            && (Exact(t.activities, leadId, t.leads[leadId]) ==> Exact(acts, leadId, end))
  {
    var acts := t.activities[id := t.activities[id].(deletedAt := Some(now))];
    ScheduleStaysOnCourse(acts, leadId, t.leads[leadId], Deletion(t.leads[leadId], false, Waiting, Waiting), parts);
    RemovedActivity(t.activities, id, now);
  }

  // ---------------------------------------------------------------------------
  // The repository
  // ---------------------------------------------------------------------------

  datatype Group = Group(kind: ActivityType, count: nat)

  datatype Summary = Summary(counts: map<ActivityType, nat>, total: nat, lead: Option<Lead>)

  function LiveOfKinds(acts: Activities, leadId: Uuid, kinds: set<ActivityType>): set<Uuid> {
    set id | id in acts && IsLive(acts[id], leadId) && acts[id].kind in kinds
  }

  /** What the grouped count answers: one row per type that occurs. */
  predicate IsGrouping(groups: seq<Group>, acts: Activities, leadId: Uuid) {
    && (forall i :: 0 <= i < |groups| ==> groups[i].count == |LiveOfKinds(acts, leadId, {groups[i].kind})|)
    && (forall i, j :: 0 <= i < j < |groups| ==> groups[i].kind != groups[j].kind)
    && (forall id :: id in acts && IsLive(acts[id], leadId) ==>
        exists i :: 0 <= i < |groups| && groups[i].kind == acts[id].kind)
  }

  function KindsOf(groups: seq<Group>): set<ActivityType> {
    set i | 0 <= i < |groups| :: groups[i].kind
  }

  lemma CountOneMoreKind(acts: Activities, leadId: Uuid, groups: seq<Group>, i: nat)
    requires i < |groups| && forall k, l :: 0 <= k < l < |groups| ==> groups[k].kind != groups[l].kind
    ensures |LiveOfKinds(acts, leadId, KindsOf(groups[..i + 1]))|
            == |LiveOfKinds(acts, leadId, KindsOf(groups[..i]))| + |LiveOfKinds(acts, leadId, {groups[i].kind})|
  {
    var kind := groups[i].kind;
    assert kind !in KindsOf(groups[..i]);
    assert KindsOf(groups[..i + 1]) == KindsOf(groups[..i]) + {kind} by {
      assert groups[..i + 1] == groups[..i] + [groups[i]];
      assert groups[..i + 1][i].kind == kind;
      forall x | x in KindsOf(groups[..i])
        ensures x in KindsOf(groups[..i + 1])
      {
        var k :| 0 <= k < i && groups[..i][k].kind == x;
        assert groups[..i + 1][k].kind == x;
      }
    }
    var before := LiveOfKinds(acts, leadId, KindsOf(groups[..i]));
    var more := LiveOfKinds(acts, leadId, {kind});
    assert LiveOfKinds(acts, leadId, KindsOf(groups[..i + 1])) == before + more;
    assert before !! more;
  }

  lemma AllKindsAreGrouped(acts: Activities, leadId: Uuid, groups: seq<Group>)
    requires IsGrouping(groups, acts, leadId)
    ensures LiveOfKinds(acts, leadId, KindsOf(groups)) == LiveIds(acts, leadId)
  {
  }

  /** A first row of the next-follow-up query, ordered by `dueAt`. */
  predicate IsEarliest(acts: Activities, leadId: Uuid, id: Uuid)
    requires id in acts
  {
    && IsLive(acts[id], leadId)
    && IsOpenTask(acts[id])
    && forall x | x in acts && IsLive(acts[x], leadId) && IsOpenTask(acts[x]) ::
        acts[id].dueAt.value <= acts[x].dueAt.value
  }

  /** A first row of the last-activity query, ordered by `createdAt` descending. */
  predicate IsLatest(acts: Activities, leadId: Uuid, id: Uuid)
    requires id in acts
  {
    && IsLive(acts[id], leadId)
    && forall x | x in acts && IsLive(acts[x], leadId) :: acts[x].createdAt <= acts[id].createdAt
  }

  lemma EarliestIsLeast(acts: Activities, leadId: Uuid)
    ensures forall id :: id in acts && IsEarliest(acts, leadId, id) ==> acts[id].dueAt == Least(DueTimes(acts, leadId))
    ensures Least(DueTimes(acts, leadId)).Some? ==> exists id :: id in acts && IsEarliest(acts, leadId, id)
  {
    var times := DueTimes(acts, leadId);
    assert forall x | x in acts && IsLive(acts[x], leadId) && IsOpenTask(acts[x]) :: acts[x].dueAt.value in times;
    if Least(times).Some? {
      var id :| id in acts && IsLive(acts[id], leadId) && IsOpenTask(acts[id])
          && acts[id].dueAt.value == Least(times).value;
      assert IsEarliest(acts, leadId, id);
    }
  }

  lemma LatestIsGreatest(acts: Activities, leadId: Uuid)
    ensures forall id :: id in acts && IsLatest(acts, leadId, id) ==>
        Some(acts[id].createdAt) == Greatest(CreationTimes(acts, leadId))
    ensures Greatest(CreationTimes(acts, leadId)).Some? ==> exists id :: id in acts && IsLatest(acts, leadId, id)
  {
    var times := CreationTimes(acts, leadId);
    assert forall x | x in acts && IsLive(acts[x], leadId) :: acts[x].createdAt in times;
    if Greatest(times).Some? {
      var id :| id in acts && IsLive(acts[id], leadId) && acts[id].createdAt == Greatest(times).value;
      assert IsLatest(acts, leadId, id);
    }
  }

  /** A live task of the lead that is to be done and has a due time. */
  predicate Due(acts: Activities, leadId: Uuid, id: Uuid) {
    && id in acts && acts[id].leadId == leadId && acts[id].deletedAt.None?
    && acts[id].kind == TaskA && acts[id].dueAt != None
    && (acts[id].taskStatus == Some(Pending) || acts[id].taskStatus == Some(InProgress))
  }

  predicate Present(acts: Activities, leadId: Uuid, id: Uuid) {
    id in acts && acts[id].leadId == leadId && acts[id].deletedAt.None?
  }

  /** The soonest due time of the lead's tasks, or nothing if there are none. */
  ghost predicate Soonest(acts: Activities, leadId: Uuid, v: Option<Time>) {
    && (v.None? <==> forall id :: !Due(acts, leadId, id))
    && (v.Some? ==> exists id :: Due(acts, leadId, id) && acts[id].dueAt == v)
    && (v.Some? ==> forall id :: Due(acts, leadId, id) ==> v.value <= acts[id].dueAt.value)
  }

  /** The newest creation time of the lead's activities, or nothing if there are none. */
  ghost predicate Newest(acts: Activities, leadId: Uuid, v: Option<Time>) {
    && (v.None? <==> forall id :: !Present(acts, leadId, id))
    && (v.Some? ==> exists id :: Present(acts, leadId, id) && acts[id].createdAt == v.value)
    && (v.Some? ==> forall id :: Present(acts, leadId, id) ==> acts[id].createdAt <= v.value)
  }

  lemma LeastIsSoonest(acts: Activities, leadId: Uuid)
    ensures Soonest(acts, leadId, Least(DueTimes(acts, leadId)))
  {
    var v := Least(DueTimes(acts, leadId));
    forall id | Due(acts, leadId, id)
      ensures acts[id].dueAt.value in DueTimes(acts, leadId)
    {
    }
    if v.Some? {
      var id :| id in acts && IsLive(acts[id], leadId) && IsOpenTask(acts[id]) && acts[id].dueAt.value == v.value;
      assert Due(acts, leadId, id);
    }
  }

  lemma GreatestIsNewest(acts: Activities, leadId: Uuid)
    ensures Newest(acts, leadId, Greatest(CreationTimes(acts, leadId)))
  {
    var v := Greatest(CreationTimes(acts, leadId));
    forall id | Present(acts, leadId, id)
      ensures acts[id].createdAt in CreationTimes(acts, leadId)
    {
    }
    if v.Some? {
      var id :| id in acts && IsLive(acts[id], leadId) && acts[id].createdAt == v.value;
      assert Present(acts, leadId, id);
    }
  }

  class LeadActivityRepository {
    var activities: Activities
    var leads: map<Uuid, Lead>

    constructor ()
      ensures activities == map[] && leads == map[]
    {
      activities, leads := map[], map[];
    }

    ghost function State(): Tables
      reads this
    {
      Tables(activities, leads)
    }

    method RecalcNextFollowUp(leadId: Uuid)
      requires leadId in leads
      modifies this`leads
      ensures leads == old(leads)[leadId := RecalcNext(activities, leadId, old(leads)[leadId])]
      ensures leads == old(leads)[leadId := old(leads)[leadId].(nextFollowUpAt := leads[leadId].nextFollowUpAt)]
      ensures Soonest(activities, leadId, leads[leadId].nextFollowUpAt)
    {
      LeastIsSoonest(activities, leadId);
      EarliestIsLeast(activities, leadId);
      var earliest: Option<Time> := None;
      if id :| id in activities && IsEarliest(activities, leadId, id) {
        earliest := activities[id].dueAt;
      }
      leads := leads[leadId := leads[leadId].(nextFollowUpAt := earliest)];
    }

    method RecalcLastActivityAt(leadId: Uuid)
      requires leadId in leads
      modifies this`leads
      ensures leads == old(leads)[leadId := RecalcLast(activities, leadId, old(leads)[leadId])]
      ensures leads == old(leads)[leadId := old(leads)[leadId].(lastActivityAt := leads[leadId].lastActivityAt)]
      ensures Newest(activities, leadId, leads[leadId].lastActivityAt)
    {
      GreatestIsNewest(activities, leadId);
      LatestIsGreatest(activities, leadId);
      var latest: Option<Time> := None;
      if id :| id in activities && IsLatest(activities, leadId, id) {
        latest := Some(activities[id].createdAt);
      }
      leads := leads[leadId := leads[leadId].(lastActivityAt := latest)];
    }

    method Create(id: Uuid, leadId: Uuid, kind: ActivityType, dueAt: Option<Time>, appNow: Time, dbNow: Time)
      returns (ok: bool)
      requires id !in activities
      modifies this
      ensures ok <==> leadId in old(leads) && old(leads)[leadId].deletedAt.None? && (kind == TaskA ==> dueAt != None)
      ensures ok ==> State() == Created(old(State()), id, leadId, kind, dueAt, appNow, dbNow)
      ensures ok ==>
                && id in activities && activities == old(activities)[id := activities[id]]
                && activities[id].leadId == leadId && activities[id].kind == kind && activities[id].dueAt == dueAt
                && activities[id].createdAt == dbNow && activities[id].deletedAt.None?
                && activities[id].taskStatus == if kind == TaskA then Some(Pending) else None
      ensures ok ==>
                && leadId in leads && leads == old(leads)[leadId := leads[leadId]]
                && leads[leadId].touchpointCount == old(leads)[leadId].touchpointCount + 1
                && leads[leadId].lastActivityAt == Some(appNow) && leads[leadId].deletedAt.None?
                && if kind == TaskA then Soonest(activities, leadId, leads[leadId].nextFollowUpAt)
                   else leads[leadId].nextFollowUpAt == old(leads)[leadId].nextFollowUpAt
      ensures !ok ==> State() == old(State())
    {
      if leadId !in leads || leads[leadId].deletedAt.Some? {
        return false;
      }
      if kind.TaskA? && dueAt.None? {
        return false;
      }
      var status := if kind.TaskA? then Some(Pending) else None;
      activities := activities[id := Activity(leadId, kind, dueAt, status, dbNow, None)];
      var lead := leads[leadId];
      leads := leads[leadId := lead.(lastActivityAt := Some(appNow), touchpointCount := lead.touchpointCount + 1)];
      if kind.TaskA? && dueAt.Some? {
        RecalcNextFollowUp(leadId);
      }
      return true;
    }

    method Update(leadId: Uuid, id: Uuid, dueAt: Option<Option<Time>>, status: Option<Option<TaskStatus>>)
      returns (ok: bool)
      requires forall x :: x in activities ==> activities[x].leadId in leads
      modifies this
      ensures ok <==> Present(old(activities), leadId, id)
      ensures ok ==> State() == Updated(old(State()), leadId, id, dueAt, status)
      ensures ok ==>
                activities == old(activities)[id := old(activities)[id].(
                  dueAt := if dueAt.Some? then dueAt.value else old(activities)[id].dueAt,
                  taskStatus := if status.Some? then status.value else old(activities)[id].taskStatus)]
      ensures ok && (dueAt.Some? || status.Some?) ==>
                && leadId in leads
                && leads == old(leads)[leadId := old(leads)[leadId].(nextFollowUpAt := leads[leadId].nextFollowUpAt)]
                && Soonest(activities, leadId, leads[leadId].nextFollowUpAt)
      ensures ok && dueAt.None? && status.None? ==> leads == old(leads)
      ensures !ok ==> State() == old(State())
    {
      if id !in activities || activities[id].leadId != leadId || activities[id].deletedAt.Some? {
        return false;
      }
      var activity := activities[id];
      if dueAt.Some? {
        activity := activity.(dueAt := dueAt.value);
      }
      if status.Some? {
        activity := activity.(taskStatus := status.value);
      }
      activities := activities[id := activity];
      if status.Some? || dueAt.Some? {
        RecalcNextFollowUp(activity.leadId);
      }
      return true;
    }

    method SoftDelete(leadId: Uuid, id: Uuid, now: Time) returns (ok: bool)
      requires forall x :: x in activities ==> activities[x].leadId in leads
      modifies this
      ensures ok <==> Present(old(activities), leadId, id)
      ensures ok ==> State() == Deleted(old(State()), leadId, id, now)
      ensures ok ==> activities == old(activities)[id := old(activities)[id].(deletedAt := Some(now))]
      ensures ok ==>
                && leadId in leads && leads == old(leads)[leadId := leads[leadId]]
                && leads[leadId].touchpointCount == old(leads)[leadId].touchpointCount - 1
                && leads[leadId].deletedAt == old(leads)[leadId].deletedAt
                && Newest(activities, leadId, leads[leadId].lastActivityAt)
                && Soonest(activities, leadId, leads[leadId].nextFollowUpAt)
      ensures !ok ==> State() == old(State())
    {
      if id !in activities || activities[id].leadId != leadId || activities[id].deletedAt.Some? {
        return false;
      }
      activities := activities[id := activities[id].(deletedAt := Some(now))];
      leads := leads[leadId := leads[leadId].(touchpointCount := leads[leadId].touchpointCount - 1)];
      RecalcLastActivityAt(leadId);
      RecalcNextFollowUp(leadId);
      return true;
    }

    /** Adds up the groups of the grouped query; on an exact row the total is the touchpoint count. */
    method Summarise(leadId: Uuid, grouped: seq<Group>) returns (s: Summary)
      requires IsGrouping(grouped, activities, leadId)
      ensures s.total == |LiveIds(activities, leadId)|
      ensures leadId in leads && Exact(activities, leadId, leads[leadId]) ==> s.total == leads[leadId].touchpointCount
      ensures forall k :: k in s.counts ==> s.counts[k] == |LiveOfKinds(activities, leadId, {k})|
      ensures forall id :: id in LiveIds(activities, leadId) ==> activities[id].kind in s.counts
      ensures s.lead == if leadId in leads then Some(leads[leadId]) else None
    {
      var counts: map<ActivityType, nat> := map[];
      var total := 0;
      for i := 0 to |grouped|
        invariant total == |LiveOfKinds(activities, leadId, KindsOf(grouped[..i]))|
        invariant forall j :: 0 <= j < i ==> grouped[j].kind in counts
        invariant forall k :: k in counts ==> counts[k] == |LiveOfKinds(activities, leadId, {k})|
      {
        CountOneMoreKind(activities, leadId, grouped, i);
        counts := counts[grouped[i].kind := grouped[i].count];
        total := total + grouped[i].count;
      }
      assert grouped[..|grouped|] == grouped;
      AllKindsAreGrouped(activities, leadId, grouped);
      s := Summary(counts, total, if leadId in leads then Some(leads[leadId]) else None);
    }
  }
}
