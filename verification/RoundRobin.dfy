/**
 Round-robin lead assignment: workers draw consecutive values from one atomic
 counter and index the ordered list of eligible agents with them.
 */
module RoundRobin {
  import opened Prelude

  // ---------------------------------------------------------------------------
  // The list of agents
  // ---------------------------------------------------------------------------

  datatype Membership = Membership(userId: Uuid, branchId: Option<Uuid>, roleId: Uuid, revoked: bool, available: bool)

  predicate Eligible(m: Membership, branchId: Uuid, roleIds: seq<Uuid>) {
    m.branchId == Some(branchId) && !m.revoked && m.available && m.roleId in roleIds
  }

  predicate Sorted(users: seq<Uuid>) {
    forall i, j :: 0 <= i < j < |users| ==> users[i] <= users[j]
  }

  predicate StrictlyIncreasing(users: seq<Uuid>) {
    forall i, j :: 0 <= i < j < |users| ==> users[i] < users[j]
  }

  /** What the ordered query answers: a user id for each eligible row. */
  predicate IsAnswer(users: seq<Uuid>, rows: set<Membership>, branchId: Uuid, roleIds: seq<Uuid>) {
    && Sorted(users)
    && (forall u :: u in users ==> exists m :: m in rows && Eligible(m, branchId, roleIds) && m.userId == u)
    && (forall m :: m in rows && Eligible(m, branchId, roleIds) ==> m.userId in users)
  }

  /** A set built from a list keeps the first occurrences in order. */
  function Dedup(users: seq<Uuid>): (r: seq<Uuid>)
    ensures forall u :: u in r <==> u in users
  {
    if users == [] then []
    else
      var n := |users| - 1;
      var before := Dedup(users[..n]);
      if users[n] in users[..n] then before else before + [users[n]]
  }

  function FindEligibleAgents(answer: seq<Uuid>, roleIds: seq<Uuid>): seq<Uuid> {
    if |roleIds| == 0 then [] else Dedup(answer)
  }

  lemma {:induction false} DedupOfSorted(users: seq<Uuid>)
    requires Sorted(users)
    ensures StrictlyIncreasing(Dedup(users))
  {
    if users != [] {
      var n := |users| - 1;
      DedupOfSorted(users[..n]);
      var before := Dedup(users[..n]);
      forall i | 0 <= i < |before|
        ensures before[i] <= users[n]
      {
        assert before[i] in users[..n];
      }
      if users[n] !in users[..n] {
        assert forall i :: 0 <= i < |before| ==> before[i] in users[..n];
      }
    }
  }

  /** The agents are strictly increasing by user id and are exactly the eligible users. */
  lemma AgentsAreTheEligibleUsers(answer: seq<Uuid>, rows: set<Membership>, branchId: Uuid, roleIds: seq<Uuid>, u: Uuid)
    requires IsAnswer(answer, rows, branchId, roleIds)
    ensures var agents := FindEligibleAgents(answer, roleIds);
            && StrictlyIncreasing(agents)
            && (u in agents <==>
                exists m :: m in rows && m.userId == u && m.branchId == Some(branchId) && m.roleId in roleIds
                    && !m.revoked && m.available)
  {
    DedupOfSorted(answer);
    if roleIds == [] {
      assert forall m :: m in rows ==> !Eligible(m, branchId, roleIds);
    }
  }

  // ---------------------------------------------------------------------------
  // How often an index comes up
  // ---------------------------------------------------------------------------

  /** The agent a counter value selects: values start at 1. */
  function Pick(agents: seq<Uuid>, value: nat): Uuid
    requires agents != [] && value > 0
  {
    agents[(value - 1) % |agents|]
  }

  /** How many of the `k` values after `c` select `agent`. */
  function Picks(agents: seq<Uuid>, c: nat, k: nat, agent: Uuid): nat
    requires agents != []
  {
    if k == 0 then 0 else Picks(agents, c, k - 1, agent) + if Pick(agents, c + k) == agent then 1 else 0
  }

  lemma {:induction false} PicksSplit(agents: seq<Uuid>, c: nat, j: nat, k: nat, agent: Uuid)
    requires agents != []
    ensures Picks(agents, c, j + k, agent) == Picks(agents, c, j, agent) + Picks(agents, c + j, k, agent)
    decreases k
  {
    if k > 0 {
      PicksSplit(agents, c, j, k - 1, agent);
    }
  }

  lemma MulAtLeast(n: nat, k: int)
    requires k >= 1
    ensures n * k >= n
  {
    assert n * k == n * (k - 1) + n;
    assert n * (k - 1) >= 0;
  }

  lemma ModUnique(x: nat, n: nat, q: nat, r: nat)
    requires n > 0 && x == n * q + r && r < n
    ensures x % n == r && x / n == q
  {
    var d, e := x / n, x % n;
    assert x == n * d + e;
    assert n * (q - d) == n * q - n * d;
    if q > d {
      MulAtLeast(n, q - d);
    } else if d > q {
      assert n * (d - q) == n * d - n * q;
      MulAtLeast(n, d - q);
    }
  }

  lemma PickRepeats(agents: seq<Uuid>, value: nat)
    requires agents != [] && value > 0
    ensures Pick(agents, value + |agents|) == Pick(agents, value)
  {
    var n := |agents|;
    var x := value - 1;
    assert x + n == n * (x / n + 1) + x % n;
    ModUnique(x + n, n, x / n + 1, x % n);
  }

  lemma {:induction false} FirstCycle(agents: seq<Uuid>, k: nat, p: nat)
    requires StrictlyIncreasing(agents) && p < |agents| && k <= |agents|
    ensures Picks(agents, 0, k, agents[p]) == if p < k then 1 else 0
    decreases k
  {
    if k > 0 {
      FirstCycle(agents, k - 1, p);
      ModUnique(k - 1, |agents|, 0, k - 1);
      assert Pick(agents, k) == agents[k - 1];
    }
  }

  /** Any full turn of the counter selects every agent once. */
  lemma {:induction false} EveryCycle(agents: seq<Uuid>, c: nat, agent: Uuid)
    requires StrictlyIncreasing(agents) && agent in agents
    ensures Picks(agents, c, |agents|, agent) == 1
    decreases c
  {
    var n := |agents|;
    if c == 0 {
      var p :| 0 <= p < n && agents[p] == agent;
      FirstCycle(agents, n, p);
    } else {
      EveryCycle(agents, c - 1, agent);
      PicksSplit(agents, c - 1, 1, n, agent);
      PicksSplit(agents, c - 1, n, 1, agent);
      PickRepeats(agents, c);
      assert Picks(agents, c - 1, 1, agent) == if Pick(agents, c) == agent then 1 else 0 by {
        assert Picks(agents, c - 1, 0, agent) == 0;
      }
      assert Picks(agents, c - 1 + n, 1, agent) == if Pick(agents, c + n) == agent then 1 else 0 by {
        assert Picks(agents, c - 1 + n, 0, agent) == 0;
      }
    }
  }

  lemma {:induction false} ManyCycles(agents: seq<Uuid>, c: nat, q: nat, agent: Uuid)
    requires StrictlyIncreasing(agents) && agent in agents
    ensures Picks(agents, c, |agents| * q, agent) == q
    decreases q
  {
    var n := |agents|;
    if q > 0 {
      ManyCycles(agents, c, q - 1, agent);
      assert n * q == n * (q - 1) + n;
      PicksSplit(agents, c, n * (q - 1), n, agent);
      EveryCycle(agents, c + n * (q - 1), agent);
    }
  }

  /**
   Over any `k` consecutive values each of `n` agents is selected `k / n` times, rounded down or, if `n` does not
   divide `k`, up.
   */
  lemma ConsecutiveValuesAreFair(agents: seq<Uuid>, c: nat, k: nat, agent: Uuid)
    requires StrictlyIncreasing(agents) && agent in agents
    ensures var n := |agents|;
            k / n <= Picks(agents, c, k, agent) <= k / n + if k % n == 0 then 0 else 1
  {
    var n := |agents|;
    var q, r := k / n, k % n;
    assert k == n * q + r;
    ManyCycles(agents, c, q, agent);
    PicksSplit(agents, c, n * q, r, agent);
    PicksSplit(agents, c + n * q, r, n - r, agent);
    EveryCycle(agents, c + n * q, agent);
  }

  // ---------------------------------------------------------------------------
  // Interleaved workers
  // ---------------------------------------------------------------------------

  /** A worker has its agents, then holds a counter value, then has written the lead, then has announced it. */
  datatype Stage = Ready | Drawn(value: nat) | Assigned(value: nat) | Announced(value: nat)

  datatype State = State(counter: nat, jobs: map<Uuid, Stage>, owners: map<Uuid, Uuid>, announced: seq<(Uuid, Uuid)>)

  /** One job per created lead; every statement of a worker is a step of its own. */
  datatype Action = Take(lead: Uuid) | Draw(lead: Uuid) | Assign(lead: Uuid) | Announce(lead: Uuid)

  function Step(agents: seq<Uuid>, s: State, a: Action): State
    requires agents != []
  {
    match a
    case Take(lead) => if lead in s.jobs then s else s.(jobs := s.jobs[lead := Ready])
    case Draw(lead) =>
      if lead in s.jobs && s.jobs[lead].Ready?
      then s.(counter := s.counter + 1, jobs := s.jobs[lead := Drawn(s.counter + 1)]) else s
    case Assign(lead) =>
      if lead in s.jobs && s.jobs[lead].Drawn? && s.jobs[lead].value > 0
      then s.(owners := s.owners[lead := Pick(agents, s.jobs[lead].value)],
          jobs := s.jobs[lead := Assigned(s.jobs[lead].value)])
      else s
    case Announce(lead) =>
      if lead in s.jobs && s.jobs[lead].Assigned? && s.jobs[lead].value > 0
      then s.(announced := s.announced + [(lead, Pick(agents, s.jobs[lead].value))],
          jobs := s.jobs[lead := Announced(s.jobs[lead].value)])
      else s
  }

  function Run(agents: seq<Uuid>, s: State, actions: seq<Action>): State
    requires agents != []
    decreases |actions|
  {
    if actions == [] then s else Run(agents, Step(agents, s, actions[0]), actions[1..])
  }

  /** The leads whose job holds a value that selects `agent`. */
  function Selected(agents: seq<Uuid>, s: State, agent: Uuid): set<Uuid>
    requires agents != []
  {
    set lead | lead in s.jobs && !s.jobs[lead].Ready? && s.jobs[lead].value > 0
        && Pick(agents, s.jobs[lead].value) == agent
  }

  predicate JobOk(agents: seq<Uuid>, s: State, lead: Uuid)
    requires agents != [] && lead in s.jobs
  {
    var job := s.jobs[lead];
    && (!job.Ready? ==> job.value > 0)
    && (job.Assigned? || job.Announced? ==> lead in s.owners && s.owners[lead] == Pick(agents, job.value))
  }

  ghost predicate Inv(agents: seq<Uuid>, s: State, c: nat)
    requires agents != []
  {
    && c <= s.counter
    && (forall lead :: lead in s.jobs ==> JobOk(agents, s, lead))
    && (forall lead :: lead in s.owners ==> lead in s.jobs && (s.jobs[lead].Assigned? || s.jobs[lead].Announced?))
    && (forall agent :: |Selected(agents, s, agent)| == Picks(agents, c, s.counter - c, agent))
  }

  lemma DrawSelects(agents: seq<Uuid>, s: State, lead: Uuid, agent: Uuid)
    requires agents != [] && lead in s.jobs && s.jobs[lead].Ready?
    ensures var s' := Step(agents, s, Draw(lead));
            Selected(agents, s', agent)
            == Selected(agents, s, agent) + if Pick(agents, s.counter + 1) == agent then {lead} else {}
    ensures lead !in Selected(agents, s, agent)
  {
    var s' := Step(agents, s, Draw(lead));
    assert s'.jobs[lead] == Drawn(s.counter + 1);
    forall other | other in s'.jobs && other != lead
      ensures s'.jobs[other] == s.jobs[other]
    {
    }
  }

  lemma DrawKeepsInv(agents: seq<Uuid>, s: State, lead: Uuid, c: nat)
    requires agents != [] && Inv(agents, s, c) && lead in s.jobs && s.jobs[lead].Ready?
    ensures Inv(agents, Step(agents, s, Draw(lead)), c)
  {
    var s' := Step(agents, s, Draw(lead));
    forall agent
      ensures |Selected(agents, s', agent)| == Picks(agents, c, s'.counter - c, agent)
    {
      DrawSelects(agents, s, lead, agent);
      assert |Selected(agents, s, agent)| == Picks(agents, c, s.counter - c, agent);
    }
    forall other | other in s'.jobs
      ensures JobOk(agents, s', other)
    {
      assert JobOk(agents, s, other);
    }
  }

  lemma StepKeepsInv(agents: seq<Uuid>, s: State, a: Action, c: nat)
    requires agents != [] && Inv(agents, s, c)
    ensures Inv(agents, Step(agents, s, a), c)
  {
    if a.Draw? && a.lead in s.jobs && s.jobs[a.lead].Ready? {
      DrawKeepsInv(agents, s, a.lead, c);
    } else {
      var s' := Step(agents, s, a);
      forall agent
        ensures Selected(agents, s', agent) == Selected(agents, s, agent)
      {
      }
      forall other | other in s'.jobs
        ensures JobOk(agents, s', other)
      {
        assert other in s.jobs ==> JobOk(agents, s, other);
      }
    }
  }

  lemma {:induction false} RunKeepsInv(agents: seq<Uuid>, s: State, actions: seq<Action>, c: nat)
    requires agents != [] && Inv(agents, s, c)
    ensures Inv(agents, Run(agents, s, actions), c)
    decreases |actions|
  {
    if actions != [] {
      StepKeepsInv(agents, s, actions[0], c);
      RunKeepsInv(agents, Step(agents, s, actions[0]), actions[1..], c);
    }
  }

  function DrawnJobs(s: State): set<Uuid> {
    set lead | lead in s.jobs && !s.jobs[lead].Ready?
  }

  lemma DrawIsCounted(agents: seq<Uuid>, s: State, lead: Uuid)
    requires agents != [] && lead in s.jobs && s.jobs[lead].Ready?
    ensures DrawnJobs(Step(agents, s, Draw(lead))) == DrawnJobs(s) + {lead} && lead !in DrawnJobs(s)
  {
  }

  lemma OthersDrawNothing(agents: seq<Uuid>, s: State, a: Action)
    requires agents != [] && (a.Draw? ==> a.lead !in s.jobs || !s.jobs[a.lead].Ready?)
    ensures DrawnJobs(Step(agents, s, a)) == DrawnJobs(s) && Step(agents, s, a).counter == s.counter
  {
    var s' := Step(agents, s, a);
    forall lead
      ensures lead in DrawnJobs(s') <==> lead in DrawnJobs(s)
    {
    }
  }

  lemma {:induction false} CounterCountsDraws(agents: seq<Uuid>, s: State, actions: seq<Action>)
    requires agents != []
    ensures var s' := Run(agents, s, actions);
            s'.counter - |DrawnJobs(s')| == s.counter - |DrawnJobs(s)|
    decreases |actions|
  {
    if actions != [] {
      var a := actions[0];
      if a.Draw? && a.lead in s.jobs && s.jobs[a.lead].Ready? {
        DrawIsCounted(agents, s, a.lead);
      } else {
        OthersDrawNothing(agents, s, a);
      }
      CounterCountsDraws(agents, Step(agents, s, a), actions[1..]);
    }
  }

  predicate FairShare(share: nat, k: nat, n: nat)
    requires n > 0
  {
    k / n <= share <= k / n + if k % n == 0 then 0 else 1
  }

  /**
   However workers interleave, from counter value `c` on and in every state they reach: one value was drawn per job
   that got as far, and each agent was selected for a fair share of them, written yet or not.
   */
  lemma WorkersShareFairly(agents: seq<Uuid>, c: nat, actions: seq<Action>, agent: Uuid)
    requires StrictlyIncreasing(agents) && agent in agents
    ensures var s := Run(agents, State(c, map[], map[], []), actions);
            && s.counter == c + |DrawnJobs(s)|
            && FairShare(|Selected(agents, s, agent)|, |DrawnJobs(s)|, |agents|)
  {
    var s0 := State(c, map[], map[], []);
    assert forall a :: Selected(agents, s0, a) == {};
    RunKeepsInv(agents, s0, actions, c);
    CounterCountsDraws(agents, s0, actions);
    assert DrawnJobs(s0) == {};
    var s := Run(agents, s0, actions);
    ConsecutiveValuesAreFair(agents, c, s.counter - c, agent);
  }

  function OwnedBy(s: State, agent: Uuid): set<Uuid> {
    set lead | lead in s.owners && s.owners[lead] == agent
  }

  /** A lead's owner is the agent its job selected, and once no job stands between drawing and writing, every job's. */
  lemma OwnersAreSelected(agents: seq<Uuid>, s: State, c: nat, agent: Uuid)
    requires agents != [] && Inv(agents, s, c)
    ensures OwnedBy(s, agent) <= Selected(agents, s, agent) && s.owners.Keys <= DrawnJobs(s)
    ensures (forall lead :: lead in s.jobs ==> !s.jobs[lead].Drawn?) ==>
              OwnedBy(s, agent) == Selected(agents, s, agent) && s.owners.Keys == DrawnJobs(s)
  {
    forall lead | lead in s.jobs
      ensures JobOk(agents, s, lead)
    {
    }
    if forall lead :: lead in s.jobs ==> !s.jobs[lead].Drawn? {
      forall lead | lead in Selected(agents, s, agent)
        ensures lead in OwnedBy(s, agent)
      {
        assert lead in s.jobs && JobOk(agents, s, lead) && !s.jobs[lead].Drawn?;
      }
      forall lead | lead in DrawnJobs(s)
        ensures lead in s.owners.Keys
      {
        assert lead in s.jobs && JobOk(agents, s, lead) && !s.jobs[lead].Drawn?;
      }
    }
  }

  /**
   So no agent ever owns more than the larger share, and once every drawn job is written each owns a fair share of the
   leads.
   */
  lemma LeadsAreOwnedFairly(agents: seq<Uuid>, c: nat, actions: seq<Action>, agent: Uuid)
    requires StrictlyIncreasing(agents) && agent in agents
    ensures var s := Run(agents, State(c, map[], map[], []), actions);
            && |OwnedBy(s, agent)| <= |DrawnJobs(s)| / |agents| + (if |DrawnJobs(s)| % |agents| == 0 then 0 else 1)
            && ((forall lead :: lead in s.jobs ==> !s.jobs[lead].Drawn?) ==>
                  FairShare(|OwnedBy(s, agent)|, |s.owners.Keys|, |agents|))
  {
    var s0 := State(c, map[], map[], []);
    assert forall a :: Selected(agents, s0, a) == {};
    RunKeepsInv(agents, s0, actions, c);
    WorkersShareFairly(agents, c, actions, agent);
    var s := Run(agents, s0, actions);
    OwnersAreSelected(agents, s, c, agent);
    SubsetIsSmaller(OwnedBy(s, agent), Selected(agents, s, agent));
  }

  // ---------------------------------------------------------------------------
  // Announcements
  // ---------------------------------------------------------------------------

  ghost predicate AnnouncementsOk(s: State) {
    && (forall p :: p in s.announced ==>
          && p.0 in s.owners && s.owners[p.0] == p.1
          && p.0 in s.jobs && s.jobs[p.0].Announced?)
    && (forall i, j :: 0 <= i < j < |s.announced| ==> s.announced[i].0 != s.announced[j].0)
    && (forall lead :: lead in s.jobs && s.jobs[lead].Announced? ==>
          lead in s.owners && (lead, s.owners[lead]) in s.announced)
  }

  lemma StepKeepsAnnouncements(agents: seq<Uuid>, s: State, a: Action, c: nat)
    requires agents != [] && Inv(agents, s, c) && AnnouncementsOk(s)
    ensures AnnouncementsOk(Step(agents, s, a))
  {
    var s' := Step(agents, s, a);
    if a.lead in s.jobs { assert JobOk(agents, s, a.lead); }
    if a.Announce? && s' != s {
      assert s'.announced == s.announced + [(a.lead, s.owners[a.lead])];
    } else {
      assert s'.announced == s.announced;
    }
  }

  lemma {:induction false} RunKeepsAnnouncements(agents: seq<Uuid>, s: State, actions: seq<Action>, c: nat)
    requires agents != [] && Inv(agents, s, c) && AnnouncementsOk(s)
    ensures AnnouncementsOk(Run(agents, s, actions))
    decreases |actions|
  {
    if actions != [] {
      StepKeepsAnnouncements(agents, s, actions[0], c);
      StepKeepsInv(agents, s, actions[0], c);
      RunKeepsAnnouncements(agents, Step(agents, s, actions[0]), actions[1..], c);
    }
  }

  /**
   However workers interleave: a lead is announced at most once, to the agent who owns it, and a job that has ended has
   announced its lead.
   */
  lemma AnnouncedToOwnerOnce(agents: seq<Uuid>, c: nat, actions: seq<Action>)
    requires agents != []
    ensures var s := Run(agents, State(c, map[], map[], []), actions);
            && (forall p :: p in s.announced ==> p.0 in s.owners && s.owners[p.0] == p.1)
            && (forall i, j :: 0 <= i < j < |s.announced| ==> s.announced[i].0 != s.announced[j].0)
            && (forall lead :: lead in s.jobs && s.jobs[lead].Announced? ==>
                  lead in s.owners && (lead, s.owners[lead]) in s.announced)
  {
    var s0 := State(c, map[], map[], []);
    assert forall a :: Selected(agents, s0, a) == {};
    RunKeepsAnnouncements(agents, s0, actions, c);
  }

  /** The steps of one job after another are the call. */
  lemma UndisturbedJobIsTheCall(agents: seq<Uuid>, s: State, lead: Uuid)
    requires agents != [] && lead in s.jobs && s.jobs[lead].Ready?
    ensures var user := agents[s.counter % |agents|];
            Run(agents, s, [Draw(lead), Assign(lead), Announce(lead)])
            == State(s.counter + 1, s.jobs[lead := Stage.Announced(s.counter + 1)], s.owners[lead := user],
                     s.announced + [(lead, user)])
  {
    var xs := [Draw(lead), Assign(lead), Announce(lead)];
    var s1 := Step(agents, s, xs[0]);
    var s2 := Step(agents, s1, xs[1]);
    assert xs[1..][0] == xs[1] && xs[1..][1..] == [xs[2]] && [xs[2]][1..] == [];
    assert Run(agents, s, xs) == Run(agents, s1, xs[1..]) == Run(agents, s2, [xs[2]])
        == Run(agents, Step(agents, s2, xs[2]), []);
  }

  lemma SubsetIsSmaller(a: set<Uuid>, b: set<Uuid>)
    requires a <= b
    ensures |a| <= |b|
  {
    assert b == a + (b - a);
  }

  // ---------------------------------------------------------------------------
  // The processor
  // ---------------------------------------------------------------------------

  datatype AssignmentConfig = AssignmentConfig(roundRobin: bool, isActive: bool, roleIds: seq<Uuid>)

  /** How a job ends; `LeadGone`: the owner could not be written, with the counter already moved. */
  datatype JobOutcome = Skipped | LeadGone | AssignedTo(user: Uuid)

  class LeadAssignmentProcessor {
    var counter: nat
    var leads: set<Uuid>
    var owners: map<Uuid, Uuid>
    var announced: seq<(Uuid, Uuid)>

    constructor (leads: set<Uuid>)
      ensures counter == 0 && this.leads == leads && owners == map[] && announced == []
    {
      counter, this.leads, owners, announced := 0, leads, map[], [];
    }

    method HandleLeadCreated(lead: Uuid, config: Option<AssignmentConfig>, answer: seq<Uuid>)
      returns (outcome: JobOutcome)
      modifies this`counter, this`owners, this`announced
      ensures outcome.Skipped? <==> !(config.Some? && config.value.isActive && config.value.roundRobin
                                      && config.value.roleIds != [] && answer != [])
      ensures outcome.Skipped? ==> counter == old(counter)
      ensures !outcome.Skipped? ==> counter == old(counter) + 1 && (outcome.LeadGone? <==> lead !in leads)
      ensures !outcome.AssignedTo? ==> owners == old(owners) && announced == old(announced)
      ensures outcome.AssignedTo? ==>
                && outcome.user == Dedup(answer)[old(counter) % |Dedup(answer)|]
                && owners == old(owners)[lead := outcome.user]
                && announced == old(announced) + [(lead, outcome.user)]
    {
      if config.None? || !config.value.isActive || !config.value.roundRobin {
        return Skipped;
      }
      var agents := FindEligibleAgents(answer, config.value.roleIds);
      assert answer != [] ==> answer[0] in Dedup(answer);
      if |agents| == 0 {
        return Skipped;
      }
      counter := counter + 1;
      var assignedUserId := agents[(counter - 1) % |agents|];
      if lead !in leads {
        return LeadGone;
      }
      owners := owners[lead := assignedUserId];
      announced := announced + [(lead, assignedUserId)];
      return AssignedTo(assignedUserId);
    }
  }
}
