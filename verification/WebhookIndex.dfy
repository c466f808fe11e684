/**
 Webhook tokens are looked up through one Redis map, `token -> "tenant|schema"`,
 instead of a scan of every tenant's webhook table. Table and map are written by
 separate statements, so a call that dies in between leaves them apart.
 */
module WebhookIndex {
  import opened Prelude

  datatype Webhook = Webhook(token: string, isActive: bool)

  type Table = map<Uuid, Webhook>

  /** `tables` is keyed by schema name; a schema without an entry has an empty table. */
  datatype State = State(tenants: map<string, string>, tables: map<string, Table>, redis: map<string, string>)

  const EMPTY: State := State(map[], map[], map[])

  function TableOf(s: State, schema: string): Table {
    if schema in s.tables then s.tables[schema] else map[]
  }

  function Entry(tenant: string, schema: string): string {
    tenant + "|" + schema
  }

  // ---------------------------------------------------------------------------
  // Splitting the entry
  // ---------------------------------------------------------------------------

  function SplitBar(s: string): (r: seq<string>)
    ensures r != []
  {
    if s == [] then [""]
    else if s[0] == '|' then [""] + SplitBar(s[1..])
    else
      var rest := SplitBar(s[1..]);
      [[s[0]] + rest[0]] + rest[1..]
  }

  lemma {:induction false} SplitNoBar(s: string)
    requires '|' !in s
    ensures SplitBar(s) == [s]
    decreases |s|
  {
    if s != [] {
      SplitNoBar(s[1..]);
      assert s == [s[0]] + s[1..];
    }
  }

  lemma {:induction false} SplitConcat(a: string, b: string)
    requires '|' !in a
    ensures SplitBar(a + "|" + b) == [a] + SplitBar(b)
    decreases |a|
  {
    var s := a + "|" + b;
    if a == [] {
      assert s[1..] == b;
    } else {
      assert s[1..] == a[1..] + "|" + b;
      SplitConcat(a[1..], b);
      assert a == [a[0]] + a[1..];
    }
  }

  lemma {:induction false} PartsHaveNoBar(s: string)
    ensures forall p :: p in SplitBar(s) ==> '|' !in p
    decreases |s|
  {
    if s != [] { PartsHaveNoBar(s[1..]); }
  }

  /** The tenant and the schema survive the round trip through the entry if and only if neither holds a bar. */
  lemma EntrySurvivesSplit(tenant: string, schema: string)
    ensures var parts := SplitBar(Entry(tenant, schema));
            (|parts| >= 2 && parts[0] == tenant && parts[1] == schema) <==> ('|' !in tenant && '|' !in schema)
  {
    PartsHaveNoBar(Entry(tenant, schema));
    if '|' !in tenant && '|' !in schema {
      SplitConcat(tenant, schema);
      SplitNoBar(schema);
    }
  }

  // ---------------------------------------------------------------------------
  // Operations and their writes
  // ---------------------------------------------------------------------------

  datatype Write =
    | InsertRow(schema: string, id: Uuid, token: string)
    | SetRowToken(schema: string, id: Uuid, token: string)
    | SetRowActive(schema: string, id: Uuid, active: bool)
    | DeleteRow(schema: string, id: Uuid)
    | SetKey(token: string, entry: string)
    | DeleteKey(token: string)

  function Apply(s: State, w: Write): State {
    match w
    case InsertRow(schema, id, token) =>
      s.(tables := s.tables[schema := TableOf(s, schema)[id := Webhook(token, true)]])
    case SetRowToken(schema, id, token) =>
      var t := TableOf(s, schema);
      if id in t then s.(tables := s.tables[schema := t[id := t[id].(token := token)]]) else s
    case SetRowActive(schema, id, active) =>
      var t := TableOf(s, schema);
      if id in t then s.(tables := s.tables[schema := t[id := t[id].(isActive := active)]]) else s
    case DeleteRow(schema, id) => s.(tables := s.tables[schema := TableOf(s, schema) - {id}])
    case SetKey(token, entry) => s.(redis := s.redis[token := entry])
    case DeleteKey(token) => s.(redis := s.redis - {token})
  }

  function ApplyAll(s: State, ws: seq<Write>): State
    decreases |ws|
  {
    if ws == [] then s else ApplyAll(Apply(s, ws[0]), ws[1..])
  }

  datatype Op =
    | CreateWebhook(tenant: string, id: Uuid, token: string)
    | UpdateWebhook(tenant: string, id: Uuid, active: bool)
    | DeleteWebhook(tenant: string, id: Uuid)
    | RegenerateToken(tenant: string, id: Uuid, token: string, deleteFirst: bool)

  /** The unique index on a table's tokens. */
  predicate TokenFree(t: Table, token: string) {
    forall id :: id in t ==> t[id].token != token
  }

  predicate TokenFreeFor(t: Table, id: Uuid, token: string) {
    forall other :: other in t && other != id ==> t[other].token != token
  }

  /** An unknown tenant or webhook, or a taken id or token, stops the call before it writes. */
  function Plan(s: State, op: Op): seq<Write> {
    if op.tenant !in s.tenants then []
    else
      var schema := s.tenants[op.tenant];
      var t := TableOf(s, schema);
      match op
      case CreateWebhook(tenant, id, token) =>
        if id in t || !TokenFree(t, token) then []
        else [InsertRow(schema, id, token), SetKey(token, Entry(tenant, schema))]
      case UpdateWebhook(_, id, active) =>
        if id in t then [SetRowActive(schema, id, active)] else []
      case DeleteWebhook(_, id) =>
        if id in t then [DeleteRow(schema, id), DeleteKey(t[id].token)] else []
      case RegenerateToken(tenant, id, token, deleteFirst) =>
        if id !in t || !TokenFreeFor(t, id, token) then []
        else if deleteFirst then
          [SetRowToken(schema, id, token), DeleteKey(t[id].token), SetKey(token, Entry(tenant, schema))]
        else
          [SetRowToken(schema, id, token), SetKey(token, Entry(tenant, schema)), DeleteKey(t[id].token)]
  }

  /** New tenants come between operations; an operation may die after any of its writes. */
  datatype Event = AddTenant(tenant: string, schema: string) | Perform(op: Op, writes: nat)

  predicate NameOk(name: string) {
    name != "" && '|' !in name
  }

  function Step(s: State, e: Event): State {
    match e
    case AddTenant(tenant, schema) =>
      if tenant !in s.tenants && schema !in s.tenants.Values && NameOk(tenant) && NameOk(schema)
      then s.(tenants := s.tenants[tenant := schema]) else s
    case Perform(op, writes) =>
      var ws := Plan(s, op);
      ApplyAll(s, if writes < |ws| then ws[..writes] else ws)
  }

  function Run(s: State, events: seq<Event>): State
    decreases |events|
  {
    if events == [] then s else Run(Step(s, events[0]), events[1..])
  }

  // ---------------------------------------------------------------------------
  // The lookup, and the scan it stands for
  // ---------------------------------------------------------------------------

  ghost function FindByToken(t: Table, token: string): (r: Option<Uuid>)
    ensures r.Some? ==> r.value in t && t[r.value].token == token
    ensures r.None? ==> TokenFree(t, token)
  {
    if id :| id in t && t[id].token == token then Some(id) else None
  }

  /** The second half of the lookup: `cached` is what the key held. */
  ghost function LookUp(s: State, cached: string, token: string): Option<(string, string, Uuid)> {
    if cached == "" then None
    else
      var parts := SplitBar(cached);
      if |parts| < 2 || parts[0] == "" || parts[1] == "" then None
      else
        var found := FindByToken(TableOf(s, parts[1]), token);
        if found.None? || !TableOf(s, parts[1])[found.value].isActive then None
        else Some((parts[0], parts[1], found.value))
  }

  ghost function ResolveToken(s: State, token: string): Option<(string, string, Uuid)> {
    if token !in s.redis then None else LookUp(s, s.redis[token], token)
  }

  /** What a scan of all tenant schemas would find. */
  predicate ScanFinds(s: State, token: string, tenant: string, schema: string, id: Uuid) {
    && tenant in s.tenants && s.tenants[tenant] == schema
    && id in TableOf(s, schema)
    && TableOf(s, schema)[id] == Webhook(token, true)
  }

  // ---------------------------------------------------------------------------
  // Soundness, whatever is cut short
  // ---------------------------------------------------------------------------

  predicate TenantsOk(s: State) {
    && (forall t :: t in s.tenants ==> NameOk(t) && NameOk(s.tenants[t]))
    && (forall t, u :: t in s.tenants && u in s.tenants && s.tenants[t] == s.tenants[u] ==> t == u)
  }

  ghost predicate EntryOk(s: State, entry: string) {
    exists t :: t in s.tenants && entry == Entry(t, s.tenants[t])
  }

  ghost predicate KeysOk(s: State) {
    forall token :: token in s.redis ==> EntryOk(s, s.redis[token])
  }

  ghost predicate UniqueTokens(t: Table) {
    forall a, b :: a in t && b in t && t[a].token == t[b].token ==> a == b
  }

  ghost predicate Sound(s: State) {
    TenantsOk(s) && KeysOk(s) && forall schema :: schema in s.tables ==> UniqueTokens(s.tables[schema])
  }

  predicate WriteOk(s: State, w: Write) {
    match w
    case InsertRow(schema, id, token) => TokenFree(TableOf(s, schema), token)
    case SetRowToken(schema, id, token) => TokenFreeFor(TableOf(s, schema), id, token)
    case SetKey(token, entry) => exists t :: t in s.tenants && entry == Entry(t, s.tenants[t])
    case _ => true
  }

  lemma WriteKeepsSound(s: State, w: Write)
    requires Sound(s) && WriteOk(s, w)
    ensures Sound(Apply(s, w)) && Apply(s, w).tenants == s.tenants
  {
    var s' := Apply(s, w);
    forall token | token in s'.redis
      ensures EntryOk(s', s'.redis[token])
    {
      if w.SetKey? && token == w.token {} else { assert EntryOk(s, s.redis[token]); }
    }
    forall schema | schema in s'.tables
      ensures UniqueTokens(s'.tables[schema])
    {
      assert UniqueTokens(TableOf(s, schema));
    }
  }

  lemma PlanKeepsSound(s: State, op: Op, k: nat)
    requires Sound(s)
    ensures Sound(Step(s, Perform(op, k)))
  {
    var ws := Plan(s, op);
    var p := if k < |ws| then ws[..k] else ws;
    if |p| > 0 {
      WriteKeepsSound(s, p[0]);
      var s1 := Apply(s, p[0]);
      assert ApplyAll(s, p) == ApplyAll(s1, p[1..]);
      if |p| > 1 {
        WriteKeepsSound(s1, p[1]);
        var s2 := Apply(s1, p[1]);
        assert ApplyAll(s1, p[1..]) == ApplyAll(s2, p[1..][1..]);
        if |p| > 2 {
          WriteKeepsSound(s2, p[2]);
          assert ApplyAll(s2, p[1..][1..]) == ApplyAll(Apply(s2, p[2]), p[1..][1..][1..]);
        }
      }
    }
  }

  lemma AddTenantKeepsSound(s: State, tenant: string, schema: string)
    requires Sound(s)
    ensures Sound(Step(s, AddTenant(tenant, schema)))
  {
    var s' := Step(s, AddTenant(tenant, schema));
    forall token | token in s'.redis
      ensures EntryOk(s', s'.redis[token])
    {
      assert EntryOk(s, s.redis[token]);
      var t :| t in s.tenants && s.redis[token] == Entry(t, s.tenants[t]);
      assert t in s'.tenants && s'.tenants[t] == s.tenants[t];
    }
  }

  lemma {:induction false} RunKeepsSound(s: State, events: seq<Event>)
    requires Sound(s)
    ensures Sound(Run(s, events))
    decreases |events|
  {
    if events != [] {
      match events[0] {
        case AddTenant(tenant, schema) => AddTenantKeepsSound(s, tenant, schema);
        case Perform(op, k) => PlanKeepsSound(s, op, k);
      }
      RunKeepsSound(Step(s, events[0]), events[1..]);
    }
  }

  lemma LookUpIsScan(s: State, cached: string, token: string, tenant: string, schema: string, id: Uuid)
    requires TenantsOk(s) && EntryOk(s, cached) && LookUp(s, cached, token) == Some((tenant, schema, id))
    ensures ScanFinds(s, token, tenant, schema, id)
  {
    var t :| t in s.tenants && cached == Entry(t, s.tenants[t]);
    EntrySurvivesSplit(t, s.tenants[t]);
  }

  lemma ResolveIsScan(s: State, token: string, tenant: string, schema: string, id: Uuid)
    requires Sound(s) && ResolveToken(s, token) == Some((tenant, schema, id))
    ensures ScanFinds(s, token, tenant, schema, id)
  {
    assert EntryOk(s, s.redis[token]);
    LookUpIsScan(s, s.redis[token], token, tenant, schema, id);
  }

  /**
   Whatever operation was cut short where, a resolved token is an active webhook with that token in that tenant's own
   schema.
   */
  lemma ResolveIsSound(events: seq<Event>, token: string, tenant: string, schema: string, id: Uuid)
    requires ResolveToken(Run(EMPTY, events), token) == Some((tenant, schema, id))
    ensures ScanFinds(Run(EMPTY, events), token, tenant, schema, id)
  {
    RunKeepsSound(EMPTY, events);
    ResolveIsScan(Run(EMPTY, events), token, tenant, schema, id);
  }

  // ---------------------------------------------------------------------------
  // Completeness, when every operation completes
  // ---------------------------------------------------------------------------

  /** Every stored webhook of every tenant has its entry. */
  ghost predicate Indexed(s: State) {
    forall t, id :: t in s.tenants && id in TableOf(s, s.tenants[t]) ==>
      var token := TableOf(s, s.tenants[t])[id].token;
      token in s.redis && s.redis[token] == Entry(t, s.tenants[t])
  }

  /** Rows belong to tenants' schemas only. */
  predicate RowsOwned(s: State) {
    forall schema, id :: schema in s.tables && id in s.tables[schema] ==> schema in s.tenants.Values
  }

  /** A generated token is none that is stored or indexed anywhere. */
  ghost predicate FreshToken(s: State, token: string) {
    token !in s.redis && forall schema :: TokenFree(TableOf(s, schema), token)
  }

  ghost predicate CompleteAndFresh(s: State, e: Event) {
    e.Perform? ==>
      && e.writes >= 3
      && (e.op.CreateWebhook? || e.op.RegenerateToken? ==> FreshToken(s, e.op.token))
  }

  ghost predicate AllComplete(s: State, events: seq<Event>)
    decreases |events|
  {
    events == [] || (CompleteAndFresh(s, events[0]) && AllComplete(Step(s, events[0]), events[1..]))
  }

  /** Two tenants' rows never share a token, since the token's one entry names one tenant. */
  lemma TokensDiffer(s: State, t: string, id: Uuid, u: string, other: Uuid)
    requires Sound(s) && Indexed(s)
    requires t in s.tenants && id in TableOf(s, s.tenants[t]) && u in s.tenants && other in TableOf(s, s.tenants[u])
    requires TableOf(s, s.tenants[t])[id].token == TableOf(s, s.tenants[u])[other].token
    ensures t == u && id == other
  {
    EntrySurvivesSplit(t, s.tenants[t]);
    EntrySurvivesSplit(u, s.tenants[u]);
    assert UniqueTokens(TableOf(s, s.tenants[t]));
  }

  lemma ThreeWrites(s: State, ws: seq<Write>)
    requires 0 < |ws| <= 3
    ensures ApplyAll(s, ws) ==
              if |ws| == 1 then Apply(s, ws[0])
              else if |ws| == 2 then Apply(Apply(s, ws[0]), ws[1])
              else Apply(Apply(Apply(s, ws[0]), ws[1]), ws[2])
  {
    var s1 := Apply(s, ws[0]);
    assert ApplyAll(s, ws) == ApplyAll(s1, ws[1..]);
    if |ws| > 1 {
      var s2 := Apply(s1, ws[1]);
      assert ws[1..][1..] == ws[2..];
      assert ApplyAll(s1, ws[1..]) == ApplyAll(s2, ws[2..]);
      if |ws| > 2 { assert ApplyAll(s2, ws[2..]) == ApplyAll(Apply(s2, ws[2]), ws[2..][1..]); }
    }
  }

  lemma CompleteState(s: State, op: Op)
    ensures var ws := Plan(s, op);
            |ws| <= 3 && ApplyAll(s, ws) ==
              if |ws| == 0 then s
              else if |ws| == 1 then Apply(s, ws[0])
              else if |ws| == 2 then Apply(Apply(s, ws[0]), ws[1])
              else Apply(Apply(Apply(s, ws[0]), ws[1]), ws[2])
  {
    if Plan(s, op) != [] { ThreeWrites(s, Plan(s, op)); }
  }

  /** What a complete operation that writes does to the tables and the keys. */
  ghost predicate Effect(s: State, op: Op, s': State)
    requires op.tenant in s.tenants
    requires !op.CreateWebhook? ==> op.id in TableOf(s, s.tenants[op.tenant])
  {
    var mine := s.tenants[op.tenant];
    var t := TableOf(s, mine);
    && s'.tenants == s.tenants
    && (forall schema :: schema != mine ==> TableOf(s', schema) == TableOf(s, schema))
    && match op
       case CreateWebhook(tenant, id, token) =>
         TableOf(s', mine) == t[id := Webhook(token, true)] && s'.redis == s.redis[token := Entry(tenant, mine)]
       case UpdateWebhook(_, id, active) =>
         TableOf(s', mine) == t[id := t[id].(isActive := active)] && s'.redis == s.redis
       case DeleteWebhook(_, id) =>
         TableOf(s', mine) == t - {id} && s'.redis == s.redis - {t[id].token}
       case RegenerateToken(tenant, id, token, _) =>
         && TableOf(s', mine) == t[id := t[id].(token := token)]
         && (token != t[id].token ==> token in s'.redis && s'.redis[token] == Entry(tenant, mine))
         && (forall k :: k in s.redis && k != token && k != t[id].token ==> k in s'.redis && s'.redis[k] == s.redis[k])
  }

  lemma RegenerateEffect(s: State, op: Op)
    requires Plan(s, op) != [] && op.RegenerateToken?
    ensures Effect(s, op, ApplyAll(s, Plan(s, op)))
  {
    CompleteState(s, op);
    var ws := Plan(s, op);
    var mine := s.tenants[op.tenant];
    var s1 := Apply(s, ws[0]);
    SwapKeys(s1, TableOf(s, mine)[op.id].token, op.token, Entry(op.tenant, mine));
    assert ApplyAll(s, ws) == Apply(Apply(s1, ws[1]), ws[2]);
  }

  lemma OpEffect(s: State, op: Op)
    requires Plan(s, op) != []
    ensures Effect(s, op, ApplyAll(s, Plan(s, op)))
  {
    CompleteState(s, op);
    if op.RegenerateToken? { RegenerateEffect(s, op); }
  }

  /** The two Redis commands of a regeneration, in either order. */
  lemma SwapKeys(s: State, stale: string, token: string, entry: string)
    ensures forall s' :: s' == Apply(Apply(s, DeleteKey(stale)), SetKey(token, entry))
                         || s' == Apply(Apply(s, SetKey(token, entry)), DeleteKey(stale)) ==>
              && s'.tables == s.tables && s'.tenants == s.tenants
              && (token != stale ==> token in s'.redis && s'.redis[token] == entry)
              && (forall k :: k in s.redis && k != token && k != stale ==> k in s'.redis && s'.redis[k] == s.redis[k])
  {
  }

  /** The entry of a row that `op` does not touch is still there. */
  lemma OtherRowStaysIndexed(s: State, op: Op, t: string, id: Uuid)
    requires Sound(s) && Indexed(s) && (op.CreateWebhook? || op.RegenerateToken? ==> FreshToken(s, op.token))
    requires Plan(s, op) != [] && t in s.tenants && id in TableOf(s, s.tenants[t]) && !(t == op.tenant && id == op.id)
    ensures var s' := ApplyAll(s, Plan(s, op));
            var token := TableOf(s, s.tenants[t])[id].token;
            token in s'.redis && s'.redis[token] == Entry(t, s.tenants[t])
  {
    OpEffect(s, op);
    var token := TableOf(s, s.tenants[t])[id].token;
    assert token in s.redis;
    if op.DeleteWebhook? || op.RegenerateToken? {
      var mine := TableOf(s, s.tenants[op.tenant]);
      assert mine[op.id].token in s.redis;
      if token == mine[op.id].token {
        TokensDiffer(s, t, id, op.tenant, op.id);
      }
    }
  }

  lemma OpKeepsIndexed(s: State, op: Op)
    requires Sound(s) && Indexed(s) && (op.CreateWebhook? || op.RegenerateToken? ==> FreshToken(s, op.token))
    ensures Indexed(ApplyAll(s, Plan(s, op)))
  {
    var s' := ApplyAll(s, Plan(s, op));
    if Plan(s, op) != [] {
      OpEffect(s, op);
      var mine := s.tenants[op.tenant];
      assert op.RegenerateToken? ==> op.id in TableOf(s, mine) && TableOf(s, mine)[op.id].token in s.redis;
      forall t, id | t in s'.tenants && id in TableOf(s', s'.tenants[t])
        ensures var token := TableOf(s', s'.tenants[t])[id].token;
                token in s'.redis && s'.redis[token] == Entry(t, s'.tenants[t])
      {
        assert s.tenants[t] == mine ==> t == op.tenant;
        if !(t == op.tenant && id == op.id) {
          assert id in TableOf(s, s.tenants[t]) && TableOf(s', s.tenants[t])[id] == TableOf(s, s.tenants[t])[id];
          OtherRowStaysIndexed(s, op, t, id);
        }
      }
    }
  }

  lemma OpKeepsRowsOwned(s: State, op: Op)
    requires RowsOwned(s)
    ensures RowsOwned(ApplyAll(s, Plan(s, op)))
  {
    CompleteState(s, op);
    if op.tenant in s.tenants { assert s.tenants[op.tenant] in s.tenants.Values; }
  }

  lemma AddTenantKeepsIndexed(s: State, tenant: string, schema: string)
    requires Sound(s) && Indexed(s) && RowsOwned(s)
    ensures Indexed(Step(s, AddTenant(tenant, schema))) && RowsOwned(Step(s, AddTenant(tenant, schema)))
  {
    var s' := Step(s, AddTenant(tenant, schema));
    if s' != s {
      assert forall id :: id !in TableOf(s, schema);
      forall t, id | t in s'.tenants && id in TableOf(s', s'.tenants[t])
        ensures var token := TableOf(s', s'.tenants[t])[id].token;
                token in s'.redis && s'.redis[token] == Entry(t, s'.tenants[t])
      {
        assert t in s.tenants && id in TableOf(s, s.tenants[t]);
      }
      forall x, id | x in s'.tables && id in s'.tables[x]
        ensures x in s'.tenants.Values
      {
        var u :| u in s.tenants && s.tenants[u] == x;
        assert s'.tenants[u] == x;
      }
    }
  }

  lemma {:induction false} CompleteRunsStayIndexed(s: State, events: seq<Event>)
    requires Sound(s) && Indexed(s) && RowsOwned(s) && AllComplete(s, events)
    ensures Sound(Run(s, events)) && Indexed(Run(s, events))
    decreases |events|
  {
    if events != [] {
      match events[0] {
        case AddTenant(tenant, schema) =>
          AddTenantKeepsSound(s, tenant, schema);
          AddTenantKeepsIndexed(s, tenant, schema);
        case Perform(op, k) =>
          CompleteState(s, op);
          PlanKeepsSound(s, op, k);
          OpKeepsIndexed(s, op);
          OpKeepsRowsOwned(s, op);
      }
      CompleteRunsStayIndexed(Step(s, events[0]), events[1..]);
    }
  }

  lemma ScanIsResolved(s: State, token: string, tenant: string, schema: string, id: Uuid)
    requires Sound(s) && Indexed(s) && ScanFinds(s, token, tenant, schema, id)
    ensures ResolveToken(s, token) == Some((tenant, schema, id))
  {
    EntrySurvivesSplit(tenant, schema);
    assert s.redis[token] == Entry(tenant, schema);
    assert UniqueTokens(TableOf(s, schema));
  }

  /** When every operation completes and generated tokens are fresh, the lookup answers exactly as the scan. */
  lemma ResolveRefinesScan(events: seq<Event>, token: string, tenant: string, schema: string, id: Uuid)
    requires AllComplete(EMPTY, events)
    ensures var s := Run(EMPTY, events);
            ResolveToken(s, token) == Some((tenant, schema, id)) <==> ScanFinds(s, token, tenant, schema, id)
  {
    var s := Run(EMPTY, events);
    CompleteRunsStayIndexed(EMPTY, events);
    if ResolveToken(s, token) == Some((tenant, schema, id)) { ResolveIsScan(s, token, tenant, schema, id); }
    if ScanFinds(s, token, tenant, schema, id) { ScanIsResolved(s, token, tenant, schema, id); }
  }

  // ---------------------------------------------------------------------------
  // The service
  // ---------------------------------------------------------------------------

  type Tables = map<string, Table>

  function Rows(tables: Tables, schema: string): Table {
    if schema in tables then tables[schema] else map[]
  }

  /** The tenant is known and its table holds the webhook. */
  predicate Stores(tenants: map<string, string>, tables: Tables, tenant: string, id: Uuid) {
    tenant in tenants && id in Rows(tables, tenants[tenant])
  }

  /** No webhook of the table but `id` has the token. */
  predicate NoOtherHas(rows: Table, id: Uuid, token: string) {
    forall other :: other in rows && rows[other].token == token ==> other == id
  }

  class LeadWebhookService {
    var tenants: map<string, string>
    var tables: Tables
    var redis: map<string, string>
    ghost var log: seq<Write>

    constructor ()
      ensures Now() == EMPTY && log == []
    {
      tenants, tables, redis, log := map[], map[], map[], [];
    }

    ghost function Now(): State
      reads this
    {
      State(tenants, tables, redis)
    }

    twostate predicate Performed(op: Op)
      reads this
    {
      && log == old(log) + Plan(old(Now()), op)
      && Now() == ApplyAll(old(Now()), Plan(old(Now()), op))
    }

    method PutRow(schemaName: string, id: Uuid, row: Webhook, ghost w: Write)
      requires Apply(Now(), w) == Now().(tables := tables[schemaName := TableOf(Now(), schemaName)[id := row]])
      modifies this
      ensures Now() == Apply(old(Now()), w) && log == old(log) + [w]
    {
      var table := if schemaName in tables then tables[schemaName] else map[];
      tables := tables[schemaName := table[id := row]];
      log := log + [w];
    }

    method Set(token: string, entry: string)
      modifies this
      ensures Now() == Apply(old(Now()), SetKey(token, entry)) && log == old(log) + [SetKey(token, entry)]
    {
      redis := redis[token := entry];
      log := log + [SetKey(token, entry)];
    }

    method Del(token: string)
      modifies this
      ensures Now() == Apply(old(Now()), DeleteKey(token)) && log == old(log) + [DeleteKey(token)]
    {
      redis := redis - {token};
      log := log + [DeleteKey(token)];
    }

    method CreateWebhook(tenantId: string, id: Uuid, token: string) returns (ok: bool)
      modifies this
      ensures Performed(Op.CreateWebhook(tenantId, id, token))
      ensures tenants == old(tenants)
      ensures ok <==>
                && tenantId in tenants && id !in Rows(old(tables), tenants[tenantId])
                && NoOtherHas(Rows(old(tables), tenants[tenantId]), id, token)
      ensures ok ==>
                var schema := tenants[tenantId];
                && tables == old(tables)[schema := Rows(old(tables), schema)[id := Webhook(token, true)]]
                && redis == old(redis)[token := tenantId + "|" + schema]
      ensures !ok ==> tables == old(tables) && redis == old(redis)
    {
      CompleteState(Now(), Op.CreateWebhook(tenantId, id, token));
      if tenantId !in tenants {
        return false;
      }
      var schemaName := tenants[tenantId];
      var table := if schemaName in tables then tables[schemaName] else map[];
      if id in table || exists other | other in table :: table[other].token == token {
        return false;
      }
      PutRow(schemaName, id, Webhook(token, true), InsertRow(schemaName, id, token));
      Set(token, tenantId + "|" + schemaName);
      return true;
    }

    method UpdateWebhook(tenantId: string, id: Uuid, active: bool) returns (ok: bool)
      modifies this
      ensures Performed(Op.UpdateWebhook(tenantId, id, active))
      ensures tenants == old(tenants) && redis == old(redis)
      ensures ok <==> Stores(tenants, old(tables), tenantId, id)
      ensures ok ==>
                var schema := tenants[tenantId];
                tables == old(tables)[schema :=
                  old(tables)[schema][id := Webhook(old(tables)[schema][id].token, active)]]
      ensures !ok ==> tables == old(tables)
    {
      CompleteState(Now(), Op.UpdateWebhook(tenantId, id, active));
      if tenantId !in tenants {
        return false;
      }
      var schemaName := tenants[tenantId];
      if schemaName !in tables || id !in tables[schemaName] {
        return false;
      }
      PutRow(schemaName, id, tables[schemaName][id].(isActive := active), SetRowActive(schemaName, id, active));
      return true;
    }

    method DeleteWebhook(tenantId: string, id: Uuid) returns (ok: bool)
      modifies this
      ensures Performed(Op.DeleteWebhook(tenantId, id))
      ensures tenants == old(tenants)
      ensures ok <==> Stores(tenants, old(tables), tenantId, id)
      ensures ok ==>
                var schema := tenants[tenantId];
                && tables == old(tables)[schema := old(tables)[schema] - {id}]
                && redis == old(redis) - {old(tables)[schema][id].token}
      ensures !ok ==> tables == old(tables) && redis == old(redis)
    {
      CompleteState(Now(), Op.DeleteWebhook(tenantId, id));
      if tenantId !in tenants {
        return false;
      }
      var schemaName := tenants[tenantId];
      if schemaName !in tables || id !in tables[schemaName] {
        return false;
      }
      var existing := tables[schemaName][id];
      tables := tables[schemaName := tables[schemaName] - {id}];
      log := log + [DeleteRow(schemaName, id)];
      Del(existing.token);
      return true;
    }

    /** The two Redis commands are sent together; `deleteFirst` says which one takes effect first. */
    method RegenerateToken(tenantId: string, id: Uuid, newToken: string, deleteFirst: bool) returns (ok: bool)
      modifies this
      ensures Performed(Op.RegenerateToken(tenantId, id, newToken, deleteFirst))
      ensures tenants == old(tenants)
      ensures ok <==>
                && Stores(tenants, old(tables), tenantId, id)
                && NoOtherHas(old(tables)[tenants[tenantId]], id, newToken)
      ensures ok ==>
                var schema := tenants[tenantId];
                var was := old(tables)[schema][id];
                var entry := tenantId + "|" + schema;
                && tables == old(tables)[schema := old(tables)[schema][id := Webhook(newToken, was.isActive)]]
                && redis == if deleteFirst then (old(redis) - {was.token})[newToken := entry]
                            else old(redis)[newToken := entry] - {was.token}
      ensures !ok ==> tables == old(tables) && redis == old(redis)
    {
      ghost var ws := Plan(Now(), Op.RegenerateToken(tenantId, id, newToken, deleteFirst));
      CompleteState(Now(), Op.RegenerateToken(tenantId, id, newToken, deleteFirst));
      if tenantId !in tenants {
        return false;
      }
      var schemaName := tenants[tenantId];
      if schemaName !in tables || id !in tables[schemaName] {
        return false;
      }
      var table := tables[schemaName];
      if exists other | other in table :: other != id && table[other].token == newToken {
        return false;
      }
      var existing := table[id];
      PutRow(schemaName, id, existing.(token := newToken), SetRowToken(schemaName, id, newToken));
      if deleteFirst {
        Del(existing.token);
        Set(newToken, tenantId + "|" + schemaName);
      } else {
        Set(newToken, tenantId + "|" + schemaName);
        Del(existing.token);
      }
      assert log == old(log) + [ws[0]] + [ws[1]] + [ws[2]] == old(log) + ws;
      return true;
    }

    method Resolve(token: string) returns (r: Option<(string, string, Uuid)>)
      requires Sound(Now())
      ensures r == ResolveToken(Now(), token)
      ensures r.Some? ==> ScanFinds(Now(), token, r.value.0, r.value.1, r.value.2)
    {
      if token !in redis || redis[token] == "" {
        return None;
      }
      var parts := SplitBar(redis[token]);
      if |parts| < 2 || parts[0] == "" || parts[1] == "" {
        return None;
      }
      var table := if parts[1] in tables then tables[parts[1]] else map[];
      assert UniqueTokens(table);
      if id :| id in table && table[id].token == token {
        assert FindByToken(table, token) == Some(id);
        if !table[id].isActive {
          return None;
        }
        ResolveIsScan(Now(), token, parts[0], parts[1], id);
        return Some((parts[0], parts[1], id));
      }
      return None;
    }
  }
}
