/**
 Webhook operations with every write a step of its own: any number of operations
 interleave, and the lookup itself reads the key and the table at two moments.
 An operation whose next write is never scheduled has died.
 */
module WebhookInterleaving {
  import opened Prelude
  import opened WebhookIndex

  /** For each operation under way, the writes it has still to issue. */
  datatype System = System(state: State, pending: map<nat, seq<Write>>)

  const START: System := System(EMPTY, map[])

  datatype Action =
    | AddTenant(tenant: string, schema: string)
    | Begin(c: nat, op: Op)
    | Advance(c: nat)

  /** The writes an operation sets out to issue after its reads; the table's indexes are checked at the writes. */
  function Intended(s: State, op: Op): seq<Write> {
    if op.tenant !in s.tenants then []
    else
      var schema := s.tenants[op.tenant];
      var t := TableOf(s, schema);
      match op
      case CreateWebhook(tenant, id, token) => [InsertRow(schema, id, token), SetKey(token, Entry(tenant, schema))]
      case UpdateWebhook(_, id, active) => if id in t then [SetRowActive(schema, id, active)] else []
      case DeleteWebhook(_, id) => if id in t then [DeleteRow(schema, id), DeleteKey(t[id].token)] else []
      case RegenerateToken(tenant, id, token, deleteFirst) =>
        if id !in t then []
        else if deleteFirst then
          [SetRowToken(schema, id, token), DeleteKey(t[id].token), SetKey(token, Entry(tenant, schema))]
        else
          [SetRowToken(schema, id, token), SetKey(token, Entry(tenant, schema)), DeleteKey(t[id].token)]
  }

  /** The database accepts the write: the row it changes is there, and no id or token would occur twice. */
  predicate Accepted(s: State, w: Write) {
    match w
    case InsertRow(schema, id, token) => id !in TableOf(s, schema) && TokenFree(TableOf(s, schema), token)
    case SetRowToken(schema, id, token) => id in TableOf(s, schema) && TokenFreeFor(TableOf(s, schema), id, token)
    case SetRowActive(schema, id, _) => id in TableOf(s, schema)
    case DeleteRow(schema, id) => id in TableOf(s, schema)
    case _ => true
  }

  /** A rejected write ends its operation. */
  function Step(y: System, a: Action): System {
    match a
    case AddTenant(tenant, schema) => y.(state := WebhookIndex.Step(y.state, Event.AddTenant(tenant, schema)))
    case Begin(c, op) =>
      if c in y.pending then y else y.(pending := y.pending[c := Intended(y.state, op)])
    case Advance(c) =>
      if c !in y.pending || y.pending[c] == [] then y
      else if !Accepted(y.state, y.pending[c][0]) then y.(pending := y.pending[c := []])
      else System(Apply(y.state, y.pending[c][0]), y.pending[c := y.pending[c][1..]])
  }

  function Exec(y: System, actions: seq<Action>): System
    decreases |actions|
  {
    if actions == [] then y else Exec(Step(y, actions[0]), actions[1..])
  }

  /** Three steps issue what is pending, if the first write is accepted and the others are key writes. */
  lemma ThreeAdvances(y: System, c: nat)
    requires c in y.pending && 0 < |y.pending[c]| <= 3 && Accepted(y.state, y.pending[c][0])
    requires forall w :: w in y.pending[c][1..] ==> w.SetKey? || w.DeleteKey?
    ensures Step(Step(Step(y, Advance(c)), Advance(c)), Advance(c))
            == System(ApplyAll(y.state, y.pending[c]), y.pending[c := []])
  {
    var ws := y.pending[c];
    var y1 := Step(y, Advance(c));
    assert y1 == System(Apply(y.state, ws[0]), y.pending[c := ws[1..]]);
    var y2 := Step(y1, Advance(c));
    if |ws| > 1 {
      assert ws[1] in ws[1..];
      assert y2 == System(Apply(y1.state, ws[1]), y.pending[c := ws[2..]]);
      assert |ws| > 2 ==> ws[2] in ws[1..] && ws[2..][1..] == [];
    }
    ThreeWrites(y.state, ws);
  }

  /** An operation that nothing disturbs does what the call does. */
  lemma UndisturbedOpIsTheCall(y: System, c: nat, op: Op)
    requires c !in y.pending
    ensures var y' := Step(Step(Step(Step(y, Begin(c, op)), Advance(c)), Advance(c)), Advance(c));
            y' == System(ApplyAll(y.state, Plan(y.state, op)), y.pending[c := []])
  {
    var y1 := Step(y, Begin(c, op));
    if Plan(y.state, op) == [] {
      assert Step(y1, Advance(c)).pending[c] == [];
    } else {
      assert Intended(y.state, op) == Plan(y.state, op);
      ThreeAdvances(y1, c);
    }
  }

  // ---------------------------------------------------------------------------
  // Soundness under every interleaving
  // ---------------------------------------------------------------------------

  ghost predicate WritesOk(s: State, ws: seq<Write>) {
    forall w :: w in ws && w.SetKey? ==> EntryOk(s, w.entry)
  }

  ghost predicate Inv(y: System) {
    Sound(y.state) && forall c :: c in y.pending ==> WritesOk(y.state, y.pending[c])
  }

  /** Tenants are only added, so an entry once written for a tenant stays one. */
  predicate TenantsGrow(s: State, s': State) {
    forall t :: t in s.tenants ==> t in s'.tenants && s'.tenants[t] == s.tenants[t]
  }

  lemma EntryStaysOk(s: State, s': State, entry: string)
    requires TenantsGrow(s, s') && EntryOk(s, entry)
    ensures EntryOk(s', entry)
  {
    var t :| t in s.tenants && entry == Entry(t, s.tenants[t]);
    assert t in s'.tenants && s'.tenants[t] == s.tenants[t];
  }

  lemma IntendedIsOk(s: State, op: Op)
    ensures WritesOk(s, Intended(s, op))
  {
    if op.tenant in s.tenants { assert EntryOk(s, Entry(op.tenant, s.tenants[op.tenant])); }
  }

  lemma StateStaysSound(y: System, a: Action)
    requires Inv(y)
    ensures Sound(Step(y, a).state) && TenantsGrow(y.state, Step(y, a).state)
  {
    match a
    case AddTenant(tenant, schema) => AddTenantKeepsSound(y.state, tenant, schema);
    case Begin(_, _) =>
    case Advance(c) =>
      if c in y.pending && y.pending[c] != [] && Accepted(y.state, y.pending[c][0]) {
        assert WritesOk(y.state, y.pending[c]) && y.pending[c][0] in y.pending[c];
        WriteKeepsSound(y.state, y.pending[c][0]);
      }
  }

  lemma StepKeepsInv(y: System, a: Action)
    requires Inv(y)
    ensures Inv(Step(y, a)) && TenantsGrow(y.state, Step(y, a).state)
  {
    var y' := Step(y, a);
    StateStaysSound(y, a);
    if a.Begin? { IntendedIsOk(y.state, a.op); }
    forall c, w | c in y'.pending && w in y'.pending[c] && w.SetKey?
      ensures EntryOk(y'.state, w.entry)
    {
      if c in y.pending && w in y.pending[c] {
        assert WritesOk(y.state, y.pending[c]);
        EntryStaysOk(y.state, y'.state, w.entry);
      }
    }
  }

  lemma {:induction false} ExecKeepsInv(y: System, actions: seq<Action>)
    requires Inv(y)
    ensures Inv(Exec(y, actions)) && TenantsGrow(y.state, Exec(y, actions).state)
    decreases |actions|
  {
    if actions != [] {
      StepKeepsInv(y, actions[0]);
      ExecKeepsInv(Step(y, actions[0]), actions[1..]);
    }
  }

  /**
   However operations interleave, and whatever they do between the two reads of a lookup: the answer is an active
   webhook with that token, in that tenant's own schema, at the moment the table is read.
   */
  lemma LookupIsSound(before: seq<Action>, between: seq<Action>, token: string, tenant: string, schema: string,
                      id: Uuid)
    requires token in Exec(START, before).state.redis
    requires LookUp(Exec(Exec(START, before), between).state, Exec(START, before).state.redis[token], token)
             == Some((tenant, schema, id))
    ensures ScanFinds(Exec(Exec(START, before), between).state, token, tenant, schema, id)
  {
    var y := Exec(START, before);
    assert Inv(START);
    ExecKeepsInv(START, before);
    ExecKeepsInv(y, between);
    assert EntryOk(y.state, y.state.redis[token]);
    EntryStaysOk(y.state, Exec(y, between).state, y.state.redis[token]);
    LookUpIsScan(Exec(y, between).state, y.state.redis[token], token, tenant, schema, id);
  }

  // ---------------------------------------------------------------------------
  // Completeness: what every reachable state keeps of rows, keys and pending writes
  // ---------------------------------------------------------------------------

  predicate HasRow(s: State, schema: string, id: Uuid, token: string) {
    id in TableOf(s, schema) && TableOf(s, schema)[id].token == token
  }

  /** The entry names the tenant whose schema this is. */
  ghost predicate EntryOf(s: State, schema: string, entry: string) {
    exists t :: t in s.tenants && s.tenants[t] == schema && entry == Entry(t, schema)
  }

  predicate BringsToken(w: Write) {
    w.InsertRow? || w.SetRowToken?
  }

  predicate KeyWrite(w: Write) {
    w.SetKey? || w.DeleteKey?
  }

  /** The operation has only key writes left: its row write, if it had one, is done. */
  predicate KeysOnly(ws: seq<Write>) {
    forall w :: w in ws ==> KeyWrite(w)
  }

  predicate Sets(ws: seq<Write>, token: string) {
    exists w :: w in ws && w.SetKey? && w.token == token
  }

  predicate Mentions(ws: seq<Write>, token: string) {
    exists w :: w in ws && (BringsToken(w) || KeyWrite(w)) && w.token == token
  }

  /** A key for the token will be set by an operation whose row write is done. */
  predicate KeyOwed(y: System, token: string) {
    exists c :: c in y.pending && KeysOnly(y.pending[c]) && Sets(y.pending[c], token)
  }

  /** Every row is keyed or its key is owed. */
  ghost predicate RowsCovered(y: System) {
    forall schema, id, token :: HasRow(y.state, schema, id, token) ==> token in y.state.redis || KeyOwed(y, token)
  }

  /** The key of a row's token holds the row's own tenant and schema. */
  ghost predicate KeysMatch(y: System) {
    forall schema, id, token :: HasRow(y.state, schema, id, token) && token in y.state.redis ==>
      EntryOf(y.state, schema, y.state.redis[token])
  }

  /** No two rows of any schemas share a token. */
  ghost predicate RowsDiffer(s: State) {
    forall a, i, b, j, token :: HasRow(s, a, i, token) && HasRow(s, b, j, token) ==> a == b && i == j
  }

  /** Before its key writes an operation has one row write; one that brings a token goes on to set its key. */
  predicate ShapeOk(ws: seq<Write>) {
    ws != [] ==> KeysOnly(ws[1..]) && (BringsToken(ws[0]) ==> Sets(ws, ws[0].token))
  }

  /** A key to be set matches the row that has the token, or that is to get it. */
  ghost predicate SetsMatch(s: State, ws: seq<Write>) {
    forall w :: w in ws && w.SetKey? ==>
      && (forall schema, id :: HasRow(s, schema, id, w.token) ==> EntryOf(s, schema, w.entry))
      && (!KeyWrite(ws[0]) ==> BringsToken(ws[0]) && ws[0].token == w.token && EntryOf(s, ws[0].schema, w.entry))
  }

  /** A key to be deleted is no row's, or the operation's own row write on that row still comes before. */
  ghost predicate DeletesSafe(s: State, ws: seq<Write>) {
    forall w, schema, id :: w in ws && w.DeleteKey? && HasRow(s, schema, id, w.token) ==>
      (ws[0].DeleteRow? || ws[0].SetRowToken?) && ws[0].schema == schema && ws[0].id == id
  }

  /** A token about to be written is in no row and no key. */
  ghost predicate TokenUnseen(s: State, token: string) {
    token !in s.redis && forall schema, id :: !HasRow(s, schema, id, token)
  }

  /** Nor is it in any other operation, nor deleted by its own. */
  ghost predicate BroughtTokenNew(y: System, c: nat)
    requires c in y.pending
  {
    var ws := y.pending[c];
    ws != [] && BringsToken(ws[0]) ==>
      && TokenUnseen(y.state, ws[0].token)
      && DeleteKey(ws[0].token) !in ws
      && forall d :: d in y.pending && d != c ==> !Mentions(y.pending[d], ws[0].token)
  }

  ghost predicate OpsOk(y: System) {
    forall c :: c in y.pending ==>
      && ShapeOk(y.pending[c])
      && SetsMatch(y.state, y.pending[c])
      && DeletesSafe(y.state, y.pending[c])
  }

  ghost predicate BroughtTokensNew(y: System) {
    forall c :: c in y.pending ==> BroughtTokenNew(y, c)
  }

  ghost predicate Complete(y: System) {
    RowsCovered(y) && KeysMatch(y) && RowsDiffer(y.state) && OpsOk(y) && BroughtTokensNew(y)
  }

  /** A generated token is new: in no row, no key and no operation. */
  ghost predicate FreshToken(y: System, token: string) {
    TokenUnseen(y.state, token) && forall c :: c in y.pending ==> !Mentions(y.pending[c], token)
  }

  ghost predicate FreshStep(y: System, a: Action) {
    a.Begin? && (a.op.CreateWebhook? || a.op.RegenerateToken?) ==> FreshToken(y, a.op.token)
  }

  ghost predicate FreshRun(y: System, actions: seq<Action>)
    decreases |actions|
  {
    actions == [] || (FreshStep(y, actions[0]) && FreshRun(Step(y, actions[0]), actions[1..]))
  }

  // --- a new tenant ---

  lemma EntryOfStays(s: State, s': State, schema: string, entry: string)
    requires TenantsGrow(s, s') && EntryOf(s, schema, entry)
    ensures EntryOf(s', schema, entry)
  {
    var t :| t in s.tenants && s.tenants[t] == schema && entry == Entry(t, schema);
    assert t in s'.tenants && s'.tenants[t] == schema;
  }

  lemma SetsMatchStays(s: State, s': State, ws: seq<Write>)
    requires SetsMatch(s, ws) && TenantsGrow(s, s')
    requires forall schema, id, token :: HasRow(s', schema, id, token) ==> HasRow(s, schema, id, token)
    ensures SetsMatch(s', ws)
  {
    forall w | w in ws && w.SetKey?
      ensures forall schema, id :: HasRow(s', schema, id, w.token) ==> EntryOf(s', schema, w.entry)
      ensures !KeyWrite(ws[0]) ==> BringsToken(ws[0]) && ws[0].token == w.token && EntryOf(s', ws[0].schema, w.entry)
    {
      forall schema, id | HasRow(s', schema, id, w.token)
        ensures EntryOf(s', schema, w.entry)
      {
        EntryOfStays(s, s', schema, w.entry);
      }
      if !KeyWrite(ws[0]) { EntryOfStays(s, s', ws[0].schema, w.entry); }
    }
  }

  lemma AddTenantKeepsComplete(y: System, tenant: string, schema: string)
    requires Inv(y) && Complete(y)
    ensures Complete(Step(y, Action.AddTenant(tenant, schema)))
  {
    var y' := Step(y, Action.AddTenant(tenant, schema));
    StateStaysSound(y, Action.AddTenant(tenant, schema));
    assert forall sc, id, token :: HasRow(y'.state, sc, id, token) <==> HasRow(y.state, sc, id, token);
    forall sc, id, token | HasRow(y'.state, sc, id, token) && token in y'.state.redis
      ensures EntryOf(y'.state, sc, y'.state.redis[token])
    {
      EntryOfStays(y.state, y'.state, sc, y.state.redis[token]);
    }
    forall c | c in y'.pending
      ensures SetsMatch(y'.state, y'.pending[c]) && DeletesSafe(y'.state, y'.pending[c])
    {
      SetsMatchStays(y.state, y'.state, y.pending[c]);
    }
  }

  // --- an operation begins ---

  lemma IntendedFits(y: System, op: Op)
    requires RowsDiffer(y.state)
    requires op.CreateWebhook? || op.RegenerateToken? ==> FreshToken(y, op.token)
    ensures var ws := Intended(y.state, op);
            ShapeOk(ws) && SetsMatch(y.state, ws) && DeletesSafe(y.state, ws)
  {
    var s := y.state;
    var ws := Intended(s, op);
    if ws != [] {
      var schema := s.tenants[op.tenant];
      assert EntryOf(s, schema, Entry(op.tenant, schema));
      assert !op.CreateWebhook? ==> HasRow(s, schema, op.id, TableOf(s, schema)[op.id].token);
      if BringsToken(ws[0]) { assert SetKey(op.token, Entry(op.tenant, schema)) in ws; }
    }
  }

  lemma IntendedBringsNew(y: System, op: Op)
    requires op.CreateWebhook? || op.RegenerateToken? ==> FreshToken(y, op.token)
    ensures var ws := Intended(y.state, op);
            ws != [] && BringsToken(ws[0]) ==> FreshToken(y, ws[0].token) && DeleteKey(ws[0].token) !in ws
    ensures forall token :: Mentions(Intended(y.state, op), token) ==>
              || ((op.CreateWebhook? || op.RegenerateToken?) && token == op.token)
              || exists schema, id :: HasRow(y.state, schema, id, token)
  {
    var s := y.state;
    var ws := Intended(s, op);
    if ws != [] && !op.CreateWebhook? {
      var schema := s.tenants[op.tenant];
      assert HasRow(s, schema, op.id, TableOf(s, schema)[op.id].token);
    }
  }

  lemma BeginKeepsComplete(y: System, c: nat, op: Op)
    requires Complete(y) && FreshStep(y, Begin(c, op)) && c !in y.pending
    ensures Complete(Step(y, Begin(c, op)))
  {
    var y' := Step(y, Begin(c, op));
    IntendedFits(y, op);
    IntendedBringsNew(y, op);
    forall token | KeyOwed(y, token)
      ensures KeyOwed(y', token)
    {
      var d :| d in y.pending && KeysOnly(y.pending[d]) && Sets(y.pending[d], token);
      assert d in y'.pending && y'.pending[d] == y.pending[d];
    }
    forall d | d in y'.pending
      ensures BroughtTokenNew(y', d)
    {
      if d != c {
        assert BroughtTokenNew(y, d);
        if y.pending[d] != [] && BringsToken(y.pending[d][0]) {
          assert Mentions(y.pending[d], y.pending[d][0].token);
        }
      }
    }
  }

  // --- an operation writes ---

  lemma RowsAfter(s: State, w: Write)
    requires Accepted(s, w)
    ensures forall schema, id, token :: HasRow(Apply(s, w), schema, id, token) <==>
              if BringsToken(w) && schema == w.schema && id == w.id then token == w.token
              else if w.DeleteRow? && schema == w.schema && id == w.id then false
              else HasRow(s, schema, id, token)
  {
  }

  predicate Writes(y: System, c: nat) {
    c in y.pending && y.pending[c] != [] && Accepted(y.state, y.pending[c][0])
  }

  lemma OwedStaysOwed(y: System, c: nat, token: string)
    requires Writes(y, c) && ShapeOk(y.pending[c]) && KeyOwed(y, token)
    ensures KeyOwed(Step(y, Advance(c)), token) || (y.pending[c][0].SetKey? && y.pending[c][0].token == token)
  {
    var y' := Step(y, Advance(c));
    var d :| d in y.pending && KeysOnly(y.pending[d]) && Sets(y.pending[d], token);
    var w :| w in y.pending[d] && w.SetKey? && w.token == token;
    if d != c {
      assert d in y'.pending && y'.pending[d] == y.pending[d];
    } else if w != y.pending[c][0] {
      assert w in y'.pending[c];
      assert Sets(y'.pending[c], token) && KeysOnly(y'.pending[c]);
    }
  }

  lemma BroughtKeyIsOwed(y: System, c: nat)
    requires Writes(y, c) && ShapeOk(y.pending[c]) && BringsToken(y.pending[c][0])
    ensures KeyOwed(Step(y, Advance(c)), y.pending[c][0].token)
  {
    var ws := y.pending[c];
    var w :| w in ws && w.SetKey? && w.token == ws[0].token;
    assert w in ws[1..];
    assert Step(y, Advance(c)).pending[c] == ws[1..];
  }

  lemma WriteKeepsCovered(y: System, c: nat)
    requires Complete(y) && Writes(y, c)
    ensures RowsCovered(Step(y, Advance(c)))
  {
    var y' := Step(y, Advance(c));
    var w := y.pending[c][0];
    RowsAfter(y.state, w);
    if BringsToken(w) { BroughtKeyIsOwed(y, c); }
    forall schema, id, token | HasRow(y'.state, schema, id, token)
      ensures token in y'.state.redis || KeyOwed(y', token)
    {
      if HasRow(y.state, schema, id, token) {
        if KeyOwed(y, token) { OwedStaysOwed(y, c, token); }
        if w.DeleteKey? { assert w in y.pending[c] && DeletesSafe(y.state, y.pending[c]); }
      }
    }
  }

  lemma WriteKeepsKeysMatch(y: System, c: nat)
    requires Complete(y) && Writes(y, c)
    ensures KeysMatch(Step(y, Advance(c)))
  {
    var y' := Step(y, Advance(c));
    var w := y.pending[c][0];
    RowsAfter(y.state, w);
    assert BroughtTokenNew(y, c) && SetsMatch(y.state, y.pending[c]) && w in y.pending[c];
    forall schema, id, token | HasRow(y'.state, schema, id, token) && token in y'.state.redis
      ensures EntryOf(y'.state, schema, y'.state.redis[token])
    {
      assert HasRow(y.state, schema, id, token);
      assert y'.state.tenants == y.state.tenants;
      var entry := y'.state.redis[token];
      assert EntryOf(y.state, schema, entry);
      EntryOfStays(y.state, y'.state, schema, entry);
    }
  }

  lemma WriteKeepsRowsDiffer(y: System, c: nat)
    requires Complete(y) && Writes(y, c)
    ensures RowsDiffer(Step(y, Advance(c)).state)
  {
    RowsAfter(y.state, y.pending[c][0]);
    assert BroughtTokenNew(y, c);
  }

  lemma OtherOpStaysOk(y: System, c: nat, d: nat)
    requires Complete(y) && Writes(y, c) && d in y.pending && d != c
    ensures SetsMatch(Step(y, Advance(c)).state, y.pending[d])
    ensures DeletesSafe(Step(y, Advance(c)).state, y.pending[d])
  {
    var s, s' := y.state, Step(y, Advance(c)).state;
    var w, ws := y.pending[c][0], y.pending[d];
    RowsAfter(s, w);
    assert BroughtTokenNew(y, c) && SetsMatch(s, ws) && DeletesSafe(s, ws);
    forall v | v in ws && KeyWrite(v)
      ensures forall schema, id :: HasRow(s', schema, id, v.token) ==> HasRow(s, schema, id, v.token)
    {
      assert Mentions(ws, v.token);
    }
    forall v | v in ws && v.SetKey?
      ensures forall schema, id :: HasRow(s', schema, id, v.token) ==> EntryOf(s', schema, v.entry)
      ensures !KeyWrite(ws[0]) ==> BringsToken(ws[0]) && ws[0].token == v.token && EntryOf(s', ws[0].schema, v.entry)
    {
      forall schema, id | HasRow(s', schema, id, v.token)
        ensures EntryOf(s', schema, v.entry)
      {
        EntryOfStays(s, s', schema, v.entry);
      }
      if !KeyWrite(ws[0]) { EntryOfStays(s, s', ws[0].schema, v.entry); }
    }
  }

  lemma OwnOpStaysOk(y: System, c: nat)
    requires Complete(y) && Writes(y, c)
    ensures var y' := Step(y, Advance(c));
            ShapeOk(y'.pending[c]) && SetsMatch(y'.state, y'.pending[c]) && DeletesSafe(y'.state, y'.pending[c])
  {
    var s, s' := y.state, Step(y, Advance(c)).state;
    var ws := y.pending[c];
    var w, rest := ws[0], ws[1..];
    RowsAfter(s, w);
    assert ShapeOk(ws) && SetsMatch(s, ws) && DeletesSafe(s, ws) && BroughtTokenNew(y, c);
    assert forall v :: v in rest ==> v in ws && KeyWrite(v);
    assert rest != [] ==> rest[0] in rest;
    forall v, schema, id | v in rest && v.SetKey? && HasRow(s', schema, id, v.token)
      ensures EntryOf(s', schema, v.entry)
    {
      EntryOfStays(s, s', schema, v.entry);
    }
    assert forall v, schema, id :: v in rest && v.DeleteKey? ==> !HasRow(s', schema, id, v.token);
  }

  lemma WriteKeepsBroughtNew(y: System, c: nat)
    requires Complete(y) && Writes(y, c)
    ensures BroughtTokensNew(Step(y, Advance(c)))
  {
    var y' := Step(y, Advance(c));
    var ws := y.pending[c];
    RowsAfter(y.state, ws[0]);
    assert ShapeOk(ws) && BroughtTokenNew(y, c);
    forall d | d in y'.pending
      ensures BroughtTokenNew(y', d)
    {
      if d == c {
        assert y'.pending[c] == ws[1..];
        assert ws[1..] != [] ==> ws[1..][0] in ws[1..] && KeyWrite(ws[1..][0]);
      } else {
        assert BroughtTokenNew(y, d);
        var vs := y.pending[d];
        if vs != [] && BringsToken(vs[0]) {
          assert !Mentions(ws, vs[0].token);
          assert ws[0] in ws;
          assert !Mentions(ws[1..], vs[0].token) by { assert forall v :: v in ws[1..] ==> v in ws; }
        }
      }
    }
  }

  lemma WriteKeepsComplete(y: System, c: nat)
    requires Complete(y) && Writes(y, c)
    ensures Complete(Step(y, Advance(c)))
  {
    var y' := Step(y, Advance(c));
    WriteKeepsCovered(y, c);
    WriteKeepsKeysMatch(y, c);
    WriteKeepsRowsDiffer(y, c);
    WriteKeepsBroughtNew(y, c);
    forall d | d in y'.pending
      ensures ShapeOk(y'.pending[d]) && SetsMatch(y'.state, y'.pending[d]) && DeletesSafe(y'.state, y'.pending[d])
    {
      if d == c { OwnOpStaysOk(y, c); } else { OtherOpStaysOk(y, c, d); }
    }
  }

  /** A rejected write was a row write, so no key was owed by the operation it ends. */
  lemma RejectionKeepsComplete(y: System, c: nat)
    requires Complete(y) && c in y.pending && y.pending[c] != [] && !Accepted(y.state, y.pending[c][0])
    ensures Complete(Step(y, Advance(c)))
  {
    var y' := Step(y, Advance(c));
    assert y'.state == y.state && y'.pending[c] == [];
    forall token | KeyOwed(y, token)
      ensures KeyOwed(y', token)
    {
      var d :| d in y.pending && KeysOnly(y.pending[d]) && Sets(y.pending[d], token);
      assert y.pending[c][0] in y.pending[c];
      assert d != c && y'.pending[d] == y.pending[d];
    }
    forall d | d in y'.pending
      ensures BroughtTokenNew(y', d)
    {
      assert BroughtTokenNew(y, d);
    }
  }

  lemma StepKeepsComplete(y: System, a: Action)
    requires Inv(y) && Complete(y) && FreshStep(y, a)
    ensures Complete(Step(y, a))
  {
    match a
    case AddTenant(tenant, schema) => AddTenantKeepsComplete(y, tenant, schema);
    case Begin(c, op) => if c !in y.pending { BeginKeepsComplete(y, c, op); }
    case Advance(c) =>
      if Writes(y, c) { WriteKeepsComplete(y, c); }
      else if c in y.pending && y.pending[c] != [] { RejectionKeepsComplete(y, c); }
  }

  lemma {:induction false} ExecKeepsComplete(y: System, actions: seq<Action>)
    requires Inv(y) && Complete(y) && FreshRun(y, actions)
    ensures Inv(Exec(y, actions)) && Complete(Exec(y, actions))
    decreases |actions|
  {
    if actions != [] {
      StepKeepsComplete(y, actions[0]);
      StepKeepsInv(y, actions[0]);
      ExecKeepsComplete(Step(y, actions[0]), actions[1..]);
    }
  }

  // ---------------------------------------------------------------------------
  // When a stored webhook is found
  // ---------------------------------------------------------------------------

  lemma KeyedIsFound(y: System, token: string, tenant: string, schema: string, id: Uuid)
    requires Inv(y) && Complete(y) && ScanFinds(y.state, token, tenant, schema, id) && token in y.state.redis
    ensures y.state.redis[token] == Entry(tenant, schema)
    ensures ResolveToken(y.state, token) == Some((tenant, schema, id))
  {
    var s := y.state;
    assert HasRow(s, schema, id, token);
    assert EntryOf(s, schema, s.redis[token]);
    EntrySurvivesSplit(tenant, schema);
    assert UniqueTokens(TableOf(s, schema));
  }

  /**
   In every reachable state, also after operations that died: a stored active webhook is found exactly if its token has
   a key. If it has none, an operation whose row write is done still owes that key, with the right entry.
   */
  lemma FoundIffKeyed(actions: seq<Action>, token: string, tenant: string, schema: string, id: Uuid)
    requires FreshRun(START, actions) && ScanFinds(Exec(START, actions).state, token, tenant, schema, id)
    ensures var y := Exec(START, actions);
            && (ResolveToken(y.state, token) == Some((tenant, schema, id)) <==> token in y.state.redis)
            && (token !in y.state.redis ==>
                  exists c :: c in y.pending && KeysOnly(y.pending[c])
                      && SetKey(token, Entry(tenant, schema)) in y.pending[c])
  {
    var y := Exec(START, actions);
    assert Inv(START) && Complete(START);
    ExecKeepsComplete(START, actions);
    assert HasRow(y.state, schema, id, token);
    if token in y.state.redis {
      KeyedIsFound(y, token, tenant, schema, id);
    } else {
      var c :| c in y.pending && KeysOnly(y.pending[c]) && Sets(y.pending[c], token);
      var w :| w in y.pending[c] && w.SetKey? && w.token == token;
      assert SetsMatch(y.state, y.pending[c]) && EntryOf(y.state, schema, w.entry);
      assert w == SetKey(token, Entry(tenant, schema));
    }
  }

  predicate Quiescent(y: System) {
    forall c :: c in y.pending ==> y.pending[c] == []
  }

  /**
   Once no operation has a write left - however they interleaved, and whichever writes the database rejected - the
   lookup answers exactly as a scan of all tenant schemas.
   */
  lemma QuiescentLookupIsScan(actions: seq<Action>, token: string, tenant: string, schema: string, id: Uuid)
    requires FreshRun(START, actions) && Quiescent(Exec(START, actions))
    ensures var s := Exec(START, actions).state;
            ResolveToken(s, token) == Some((tenant, schema, id)) <==> ScanFinds(s, token, tenant, schema, id)
  {
    var s := Exec(START, actions).state;
    if ScanFinds(s, token, tenant, schema, id) { FoundIffKeyed(actions, token, tenant, schema, id); }
    if ResolveToken(s, token) == Some((tenant, schema, id)) { LookupIsSound(actions, [], token, tenant, schema, id); }
  }

  // ---------------------------------------------------------------------------
  // A cut regeneration
  // ---------------------------------------------------------------------------

  /**
   A regeneration that dies after its row write hides its webhook: a scan finds it under the new token, the lookup
   under neither - whichever of the two Redis commands was to come first.
   */
  lemma CutRegenerationHides(before: seq<Action>, c: nat, tenant: string, id: Uuid, stale: string, token: string,
                             first: bool)
    requires var y := Exec(START, before);
             && FreshRun(START, before) && c !in y.pending && FreshToken(y, token)
             && tenant in y.state.tenants && ScanFinds(y.state, stale, tenant, y.state.tenants[tenant], id)
    ensures var y := Exec(START, before);
            var s := Step(Step(y, Begin(c, RegenerateToken(tenant, id, token, first))), Advance(c)).state;
            && ScanFinds(s, token, tenant, y.state.tenants[tenant], id)
            && ResolveToken(s, token) == None && ResolveToken(s, stale) == None
  {
    var y := Exec(START, before);
    var schema := y.state.tenants[tenant];
    assert Inv(START) && Complete(START);
    ExecKeepsComplete(START, before);
    var y1 := Step(y, Begin(c, RegenerateToken(tenant, id, token, first)));
    assert HasRow(y.state, schema, id, stale);
    assert y1.pending[c] != [] && y1.pending[c][0] == SetRowToken(schema, id, token);
    assert Accepted(y1.state, y1.pending[c][0]) by {
      assert forall other :: other in TableOf(y.state, schema) ==>
          HasRow(y.state, schema, other, TableOf(y.state, schema)[other].token);
    }
    var s := Step(y1, Advance(c)).state;
    RowsAfter(y.state, SetRowToken(schema, id, token));
    assert token !in s.redis;
    if stale in s.redis {
      assert EntryOf(y.state, schema, y.state.redis[stale]);
      EntrySurvivesSplit(tenant, schema);
      assert s.redis[stale] == Entry(tenant, schema);
      assert forall other :: !HasRow(s, schema, other, stale);
    }
  }

  /** A tenant, and one webhook created undisturbed. */
  const CREATED: seq<Action> :=
    [Action.AddTenant("t", "s"), Begin(1, CreateWebhook("t", 1, "a")), Advance(1), Advance(1)]

  lemma WebhookIsCreated()
    ensures FreshRun(START, CREATED)
    ensures Exec(START, CREATED)
            == System(State(map["t" := "s"], map["s" := map[1 := Webhook("a", true)]], map["a" := Entry("t", "s")]),
                map[1 := []])
  {
    var y1 := Step(START, CREATED[0]);
    assert y1.state.tenants == map["t" := "s"];
    var y2 := Step(y1, CREATED[1]);
    assert y2.pending == map[1 := [InsertRow("s", 1, "a"), SetKey("a", Entry("t", "s"))]];
    var y3 := Step(y2, CREATED[2]);
    assert y3.pending == map[1 := [SetKey("a", Entry("t", "s"))]];
    assert y3.state.tables == map["s" := map[1 := Webhook("a", true)]];
    FourSteps(CREATED);
  }

  lemma NewTokenIsFresh(token: string)
    requires token != "a"
    ensures FreshToken(Exec(START, CREATED), token)
  {
    WebhookIsCreated();
  }

  /** A run that ends so. */
  lemma CutRegenerationIsReachable()
    ensures exists actions :: var s := Exec(START, actions).state;
              FreshRun(START, actions) && ScanFinds(s, "b", "t", "s", 1) && ResolveToken(s, "b") == None
  {
    var y := Exec(START, CREATED);
    var cut := [Begin(2, RegenerateToken("t", 1, "b", true)), Advance(2)];
    WebhookIsCreated();
    NewTokenIsFresh("b");
    assert "a" != "b" by { assert "a"[0] != "b"[0]; }
    CutRegenerationHides(CREATED, 2, "t", 1, "a", "b", true);
    TwoSteps(y, cut);
    ExecAppend(START, CREATED, cut);
    FreshAppend(START, CREATED, cut);
  }

  lemma TwoSteps(y: System, xs: seq<Action>)
    requires |xs| == 2
    ensures Exec(y, xs) == Step(Step(y, xs[0]), xs[1])
    ensures FreshStep(y, xs[0]) && !xs[1].Begin? ==> FreshRun(y, xs)
  {
    var y1 := Step(y, xs[0]);
    assert xs[1..][0] == xs[1] && xs[1..][1..] == [];
    assert Exec(y1, xs[1..]) == Step(y1, xs[1]);
    assert FreshRun(y1, xs[1..]) <==> FreshStep(y1, xs[1]);
  }

  lemma {:induction false} ExecAppend(y: System, xs: seq<Action>, ys: seq<Action>)
    ensures Exec(y, xs + ys) == Exec(Exec(y, xs), ys)
    decreases |xs|
  {
    if xs == [] {
      assert xs + ys == ys;
    } else {
      assert (xs + ys)[1..] == xs[1..] + ys;
      ExecAppend(Step(y, xs[0]), xs[1..], ys);
    }
  }

  lemma {:induction false} FreshAppend(y: System, xs: seq<Action>, ys: seq<Action>)
    requires FreshRun(y, xs) && FreshRun(Exec(y, xs), ys)
    ensures FreshRun(y, xs + ys)
    decreases |xs|
  {
    if xs == [] {
      assert xs + ys == ys;
    } else {
      assert (xs + ys)[1..] == xs[1..] + ys;
      FreshAppend(Step(y, xs[0]), xs[1..], ys);
    }
  }

  lemma FourSteps(xs: seq<Action>)
    requires |xs| == 4
    ensures Exec(START, xs) == Step(Step(Step(Step(START, xs[0]), xs[1]), xs[2]), xs[3])
    ensures FreshStep(START, xs[0]) && FreshStep(Step(START, xs[0]), xs[1]) && !xs[2].Begin? && !xs[3].Begin? ==>
              FreshRun(START, xs)
  {
    var y1 := Step(START, xs[0]);
    var y2 := Step(y1, xs[1]);
    var y3 := Step(y2, xs[2]);
    assert xs[1..][0] == xs[1] && xs[1..][1..] == xs[2..] && xs[2..][0] == xs[2] && xs[2..][1..] == xs[3..];
    assert xs[3..][0] == xs[3] && xs[3..][1..] == [];
    assert Exec(START, xs) == Exec(y1, xs[1..]) == Exec(y2, xs[2..]) == Exec(y3, xs[3..]) == Step(y3, xs[3]);
    assert FreshRun(y3, xs[3..]) <==> FreshStep(y3, xs[3]);
    assert FreshRun(y2, xs[2..]) <==> FreshStep(y2, xs[2]) && FreshRun(y3, xs[3..]);
    assert FreshRun(y1, xs[1..]) <==> FreshStep(y1, xs[1]) && FreshRun(y2, xs[2..]);
  }
}
