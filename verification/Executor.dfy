/**
 The sequential executor of validated workflows: input resolution, runtime checks,
 execution, and the node records that a replay later reads.
 */
module Executor {
  import opened Wrappers
  import opened CanonicalJson
  import opened Workflow
  import opened Validation
  import opened Lineage
  import opened ProductStore
  import Identity

  datatype NodeStatus = Running | Succeeded | Failed

  /** One node run. `reused` tells whether an output was found among products older than the
      node, so that the node added its parents to somebody else's product. */
  datatype NodeRecord = NodeRecord(status: NodeStatus, inputs: seq<string>, outputs: seq<string>, reused: bool)

  datatype Produced = Produced(id: string, typ: ProductType, role: string)

  /** What running an operation returns: a process result, or no result at all. */
  datatype CommandOutcome =
    | CommandDone(stdout: string, stderr: string, exitCode: int, runId: Option<string>)
    | CommandError

  /** What the model does not compute: command results, storage references, and the clock. */
  datatype Environment = Environment(
    command: string -> CommandOutcome,
    storageRef: (string, ProductType) -> string,
    createdAt: (string, nat) -> string)

  /** One run: its digests, what it cannot compute, its id, and the decision time of its workflow. */
  datatype Session = Session(h: Hasher, env: Environment, runId: string, asOf: int)

  datatype RunError =
    | UnknownNode | UnknownAlgorithm | MissingInput
    | RuntimeRejected | CommandFailed | PersistFailed

  // ----- Payloads

  function Field(v: Json, key: string): Option<Json> {
    if !v.Obj? then None
    else if exists i :: 0 <= i < |v.members| && v.members[i].key == key then
      Some(Lookup(v.members, key))
    else None
  }

  function Lookup(ms: seq<Member>, key: string): Json
    requires exists i :: 0 <= i < |ms| && ms[i].key == key
  {
    if ms[0].key == key then ms[0].value
    else
      assert exists i :: 0 <= i < |ms[1..]| && ms[1..][i].key == key by {
        var i :| 0 <= i < |ms| && ms[i].key == key;
        assert ms[1..][i - 1].key == key;
      }
      Lookup(ms[1..], key)
  }

  function ContentHash(h: Hasher, v: Json): string {
    h.sha(Print(v))
  }

  function Message(config: Json): string {
    var m := Field(config, "message");
    if m.Some? && m.value.Str? then m.value.s else ""
  }

  const NOOP_KEYS: seq<string> := ["algorithm", "config_sha256", "message"]
  const COMMAND_KEYS: seq<string> := ["stdout", "stderr", "exit_code"]
  const DOMAIN_KEYS: seq<string> :=
    ["storage_ref", "algorithm_id", "node_id", "workflow_run_id", "run_id", "created_at"]

  function AlgorithmName(id: AlgorithmId): string {
    match id
    case Recon => "cmd.recon.v1"
    case Plan => "cmd.plan.v1"
    case Value => "cmd.value.v1"
    case Feat => "cmd.feat.v1"
    case Gate => "cmd.gate.v1"
    case StageCmd => "cmd.stage.v1"
    case SendMock => "cmd.send.mock.v1"
    case ReportDaily => "cmd.report.daily.v1"
    case SeedPortfolio => "fixture.seed_portfolio.v1"
    case IngestSecPackage => "fixture.ingest_sec_package.v1"
    case SeedModelObservations => "fixture.seed_model_observations.v1"
    case SetMode => "fixture.set_mode.v1"
    case Noop => "noop.test.v1"
    case OtherAlgorithm(name) => name
  }

  function NoopPayload(h: Hasher, node: Node): Json {
    Obj(Zip(NOOP_KEYS, [Str(AlgorithmName(node.algorithm)), Str(ContentHash(h, node.config)), Str(Message(node.config))]))
  }

  function CommandPayload(o: CommandOutcome): Json
    requires o.CommandDone?
  {
    Obj(Zip(COMMAND_KEYS, [Str(o.stdout), Str(o.stderr), Int(o.exitCode)]))
  }

  /** The fields of a domain payload other than the node id. */
  datatype DomainFields = DomainFields(storageRef: string, algorithm: string, runId: string, stepId: Option<string>, createdAt: string)

  function DomainValues(nodeId: string, d: DomainFields): (r: seq<Json>)
    ensures |r| == 6
  {
    [Str(d.storageRef), Str(d.algorithm), Str(nodeId), Str(d.runId), Identity.OptionalStr(d.stepId), Str(d.createdAt)]
  }

  function DomainPayload(nodeId: string, d: DomainFields): Json {
    Obj(Zip(DOMAIN_KEYS, DomainValues(nodeId, d)))
  }

  // ----- The outputs a node persists

  /** Roles declared for command output, or the fallback role. */
  function OutputRoles(outputs: seq<NodeOutput>, fallback: string): seq<string> {
    var roles := CommandRoles(outputs);
    if roles == [] then [fallback] else roles
  }

  function CommandRoles(outputs: seq<NodeOutput>): seq<string> {
    if outputs == [] then []
    else (if outputs[0].typ.CommandOutput? then [outputs[0].role] else []) + CommandRoles(outputs[1..])
  }

  function DomainOutputs(outputs: seq<NodeOutput>): seq<NodeOutput> {
    if outputs == [] then []
    else (if outputs[0].typ.CommandOutput? then [] else [outputs[0]]) + DomainOutputs(outputs[1..])
  }

  lemma {:induction false} RolesMembers(outputs: seq<NodeOutput>)
    ensures forall o :: o in outputs && o.typ.CommandOutput? ==> o.role in CommandRoles(outputs)
    ensures forall o :: o in DomainOutputs(outputs) <==> o in outputs && !o.typ.CommandOutput?
  {
    if outputs != [] {
      RolesMembers(outputs[1..]);
      assert outputs == [outputs[0]] + outputs[1..];
    }
  }

  type ProducedMap = map<(string, string), Produced>

  /** Records outputs under (node, role) in order, a later one replacing an earlier one. */
  function RecordAll(m: ProducedMap, id: string, outs: seq<Produced>): ProducedMap {
    if outs == [] then m
    else
      var last := outs[|outs| - 1];
      RecordAll(m, id, outs[..|outs| - 1])[(id, last.role) := last]
  }

  lemma {:induction false} RecordOthers(m: ProducedMap, id: string, outs: seq<Produced>, k: (string, string))
    requires k.0 != id
    ensures k in RecordAll(m, id, outs) <==> k in m
    ensures k in m ==> RecordAll(m, id, outs)[k] == m[k]
  {
    if outs != [] {
      RecordOthers(m, id, outs[..|outs| - 1], k);
    }
  }

  /** The recorded output of a role is the last one persisted for it. */
  lemma {:induction false} RecordLast(m: ProducedMap, id: string, outs: seq<Produced>, i: nat) returns (j: nat)
    requires i < |outs|
    ensures i <= j < |outs| && outs[j].role == outs[i].role
    ensures (id, outs[i].role) in RecordAll(m, id, outs) && RecordAll(m, id, outs)[(id, outs[i].role)] == outs[j]
    ensures forall k :: j < k < |outs| ==> outs[k].role != outs[i].role
  {
    var front, last := outs[..|outs| - 1], outs[|outs| - 1];
    if last.role == outs[i].role {
      j := |outs| - 1;
    } else {
      j := RecordLast(m, id, front, i);
      forall k | j < k < |outs| ensures outs[k].role != outs[i].role {
        if k < |front| {
          assert front[k] == outs[k];
        }
      }
    }
  }

  /** The outputs persisted for a node: first the command output roles, then the domain outputs. */
  ghost predicate Planned(outputs: seq<NodeOutput>, fallback: string, outs: seq<Produced>) {
    var roles, domain := OutputRoles(outputs, fallback), DomainOutputs(outputs);
    && |outs| == |roles| + |domain|
    && (forall i :: 0 <= i < |roles| ==> outs[i].role == roles[i] && outs[i].typ.CommandOutput?)
    && (forall i :: 0 <= i < |domain| ==> PlannedDomain(outs, |roles|, domain, i))
  }

  ghost predicate PlannedDomain(outs: seq<Produced>, offset: nat, domain: seq<NodeOutput>, i: nat)
    requires i < |domain| && |outs| == offset + |domain|
  {
    outs[offset + i].role == domain[i].role && outs[offset + i].typ == domain[i].typ
  }

  /** Some persisted output serves every declared one. */
  lemma PlanServes(outputs: seq<NodeOutput>, fallback: string, outs: seq<Produced>, o: NodeOutput) returns (i: nat)
    requires Planned(outputs, fallback, outs) && o in outputs
    ensures i < |outs| && outs[i].role == o.role && outs[i].typ == o.typ
    ensures !o.typ.CommandOutput? ==> i >= |OutputRoles(outputs, fallback)|
  {
    RolesMembers(outputs);
    var roles, domain := OutputRoles(outputs, fallback), DomainOutputs(outputs);
    if o.typ.CommandOutput? {
      assert o.role in roles;
      i :| 0 <= i < |roles| && roles[i] == o.role;
    } else {
      var d :| 0 <= d < |domain| && domain[d] == o;
      assert PlannedDomain(outs, |roles|, domain, d);
      i := |roles| + d;
    }
  }

  /** After recording, every declared role holds a product of the declared type. */
  lemma PlanCovers(m: ProducedMap, id: string, outputs: seq<NodeOutput>, fallback: string, outs: seq<Produced>,
                   o: NodeOutput) returns (j: nat)
    requires DistinctRoles(outputs) && Planned(outputs, fallback, outs) && o in outputs
    ensures (id, o.role) in RecordAll(m, id, outs) && j < |outs|
    ensures RecordAll(m, id, outs)[(id, o.role)] == outs[j] && outs[j].typ == o.typ && outs[j].role == o.role
  {
    var i := PlanServes(outputs, fallback, outs, o);
    j := RecordLast(m, id, outs, i);
    var roles, domain := OutputRoles(outputs, fallback), DomainOutputs(outputs);
    if j >= |roles| {
      assert PlannedDomain(outs, |roles|, domain, j - |roles|);
      RolesMembers(outputs);
      assert domain[j - |roles|] in outputs;
      SameRole(outputs, domain[j - |roles|], o);
    }
  }

  lemma SameRole(outputs: seq<NodeOutput>, a: NodeOutput, b: NodeOutput)
    requires DistinctRoles(outputs) && a in outputs && b in outputs && a.role == b.role
    ensures a == b
  {
    var i :| 0 <= i < |outputs| && outputs[i] == a;
    var j :| 0 <= j < |outputs| && outputs[j] == b;
    assert i == j;
  }

  // ----- Persisting a node's outputs

  /** What an algorithm's execution hands to the store. */
  datatype Execution =
    | NoopExecution(payload: Json)
    | CommandExecution(payload: Json, exitCode: int, runId: Option<string>)

  function Fallback(exec: Execution): string {
    if exec.NoopExecution? then "output" else "command_output"
  }

  function Ids(outs: seq<Produced>): (ids: seq<string>)
    ensures |ids| == |outs| && forall i :: 0 <= i < |outs| ==> ids[i] == outs[i].id
  {
    seq(|outs|, i requires 0 <= i < |outs| => outs[i].id)
  }

  function ParentsFrom(inputs: seq<Produced>): (parents: seq<Parent>)
    ensures |parents| == |inputs|
    ensures forall i :: 0 <= i < |inputs| ==> parents[i] == Parent(inputs[i].id, inputs[i].role)
  {
    seq(|inputs|, i requires 0 <= i < |inputs| => Parent(inputs[i].id, inputs[i].role))
  }

  ghost predicate DomainContent(h: Hasher, nodeId: string, content: string) {
    exists d :: content == ContentHash(h, DomainPayload(nodeId, d))
  }

  /** The content a node's product of type `t` has. */
  ghost predicate ContentOf(h: Hasher, nodeId: string, payload: Json, t: ProductType, content: string) {
    if t.CommandOutput? then content == ContentHash(h, payload) else DomainContent(h, nodeId, content)
  }

  /** The row was produced by the node's algorithm, configuration and cell. */
  ghost predicate SameSource(h: Hasher, row: ProductRow, node: Node) {
    row.algorithm == node.algorithm && row.config == ContentHash(h, node.config) && row.cell == CellId(h, node)
  }

  // ----- The rows a node persists

  /** What executing the node hands to the store; nothing when its command gives no result. */
  function ExecutionOf(s: Session, n: Node): Option<Execution> {
    if n.algorithm.Noop? then Some(NoopExecution(NoopPayload(s.h, n)))
    else
      var o := s.env.command(n.id);
      if o.CommandError? then None else Some(CommandExecution(CommandPayload(o), o.exitCode, o.runId))
  }

  function RowFor(s: Session, n: Node, t: ProductType, content: string, payload: Json): ProductRow {
    ProductRow(t, CellId(s.h, n), content, n.algorithm, ContentHash(s.h, n.config), s.asOf, payload)
  }

  function CellId(h: Hasher, node: Node): string {
    node.layer + ":" + h.short(Print(node.cellKey))
  }

  function CommandRow(s: Session, n: Node, exec: Execution): ProductRow {
    RowFor(s, n, CommandOutput, ContentHash(s.h, exec.payload), exec.payload)
  }

  function FieldsOf(s: Session, n: Node, stepId: Option<string>, t: ProductType, index: nat): DomainFields {
    DomainFields(s.env.storageRef(n.id, t), AlgorithmName(n.algorithm), s.runId, stepId, s.env.createdAt(n.id, index))
  }

  /** The row of the `index`-th declared output other than command output. */
  function DomainRow(s: Session, n: Node, exec: Execution, t: ProductType, index: nat): ProductRow
    requires exec.CommandExecution?
  {
    RowFor(s, n, t, ContentHash(s.h, DomainPayload(n.id, FieldsOf(s, n, exec.runId, t, index))), exec.payload)
  }

  function DomainRows(s: Session, n: Node, exec: Execution): (rows: seq<ProductRow>)
    requires exec.CommandExecution?
    ensures |rows| == |DomainOutputs(n.outputs)|
    ensures forall i :: 0 <= i < |rows| ==> rows[i] == DomainRow(s, n, exec, DomainOutputs(n.outputs)[i].typ, i)
  {
    seq(|DomainOutputs(n.outputs)|, i requires 0 <= i < |DomainOutputs(n.outputs)| =>
      DomainRow(s, n, exec, DomainOutputs(n.outputs)[i].typ, i))
  }

  /** The rows a node persists: its command output and, for a clean exit, its domain outputs. They follow from the
      session and the node alone. */
  function PlannedRows(s: Session, n: Node): seq<ProductRow> {
    var exec := ExecutionOf(s, n);
    if exec.None? then []
    else [CommandRow(s, n, exec.value)]
         + if exec.value.CommandExecution? && exec.value.exitCode == 0 then DomainRows(s, n, exec.value) else []
  }

  lemma HeadAndTail<T>(x: T, xs: seq<T>)
    ensures x in [x] + xs && forall i :: 0 <= i < |xs| ==> xs[i] in [x] + xs
  {
    assert ([x] + xs)[0] == x;
    forall i | 0 <= i < |xs| ensures xs[i] in [x] + xs {
      assert ([x] + xs)[1 + i] == xs[i];
    }
  }

  lemma PlannedCommand(s: Session, n: Node, exec: Execution)
    requires ExecutionOf(s, n) == Some(exec)
    ensures CommandRow(s, n, exec) in PlannedRows(s, n)
  {
    HeadAndTail(CommandRow(s, n, exec), PlannedRows(s, n)[1..]);
  }

  lemma PlannedDomainRows(s: Session, n: Node, exec: Execution)
    requires ExecutionOf(s, n) == Some(exec) && exec.CommandExecution? && exec.exitCode == 0
    ensures DomainPlanned(s, n, exec, DomainOutputs(n.outputs), PlannedRows(s, n))
  {
    var rows := DomainRows(s, n, exec);
    HeadAndTail(CommandRow(s, n, exec), rows);
    forall i | 0 <= i < |rows| ensures DomainRow(s, n, exec, DomainOutputs(n.outputs)[i].typ, i) in PlannedRows(s, n) {
      assert rows[i] in PlannedRows(s, n);
    }
  }

  /** Rows with the node's source, and content computed from its payload. */
  ghost predicate RowsFrom(h: Hasher, n: Node, payload: Json, rows: seq<ProductRow>) {
    forall row :: row in rows ==> RowFrom(h, n, payload, row)
  }

  ghost predicate RowFrom(h: Hasher, n: Node, payload: Json, row: ProductRow) {
    SameSource(h, row, n) && ContentOf(h, n.id, payload, row.typ, row.content) && row.payload == payload
  }

  lemma PlannedFrom(s: Session, n: Node, exec: Execution)
    requires ExecutionOf(s, n) == Some(exec)
    ensures RowsFrom(s.h, n, exec.payload, PlannedRows(s, n))
  {
    var rows := PlannedRows(s, n);
    forall row | row in rows ensures RowFrom(s.h, n, exec.payload, row) {
      if row != CommandRow(s, n, exec) {
        var i :| 0 <= i < |DomainRows(s, n, exec)| && DomainRows(s, n, exec)[i] == row;
        DomainFrom(s, n, exec, i);
      }
    }
  }

  lemma DomainFrom(s: Session, n: Node, exec: Execution, i: nat)
    requires exec.CommandExecution? && i < |DomainOutputs(n.outputs)|
    ensures RowFrom(s.h, n, exec.payload, DomainRow(s, n, exec, DomainOutputs(n.outputs)[i].typ, i))
  {
    var o := DomainOutputs(n.outputs)[i];
    RolesMembers(n.outputs);
    assert o in DomainOutputs(n.outputs);
    assert DomainContent(s.h, n.id, ContentHash(s.h, DomainPayload(n.id, FieldsOf(s, n, exec.runId, o.typ, i))));
  }

  // ----- Storing them

  /** Some row of the list has the unique key of `r`. */
  predicate HasKey(rows: seq<ProductRow>, r: ProductRow) {
    exists k :: 0 <= k < |rows| && SameKey(r, rows[k])
  }

  /** The output is stored under the key of one of the rows. */
  ghost predicate Stored(products: Products, rows: seq<ProductRow>, out: Produced) {
    out.id in products && products[out.id].typ == out.typ && HasKey(rows, products[out.id])
  }

  /** Products are never changed or removed. */
  ghost predicate Keeps(p0: Products, p1: Products) {
    forall p :: p in p0 ==> p in p1 && p1[p] == p0[p]
  }

  /** A stored row is one of the list, under the id that it gets with these parents. */
  ghost predicate NewRow(h: Hasher, id: string, row: ProductRow, parents: seq<Parent>, rows: seq<ProductRow>) {
    row in rows && id == CandidateId(h, row, parents)
  }

  /** The store after persisting `outs`, from `rows`, on top of `p0` and `l0`. */
  ghost predicate Saved(h: Hasher, p0: Products, l0: seq<Row>, p1: Products, l1: seq<Row>,
                        parents: seq<Parent>, rows: seq<ProductRow>, outs: seq<Produced>)
  {
    && StoreOk(p1, l1) && Grown(p0, l0, p1, l1, parents, Ids(outs))
    && (forall o :: o in outs ==> Stored(p1, rows, o))
    && (forall c :: c in p1 && c !in p0 ==> NewRow(h, c, p1[c], parents, rows))
  }

  lemma SavedNone(h: Hasher, p0: Products, l0: seq<Row>, parents: seq<Parent>, rows: seq<ProductRow>)
    requires StoreOk(p0, l0)
    ensures Saved(h, p0, l0, p0, l0, parents, rows, [])
  {
    GrownNone(p0, l0, parents);
    assert Ids([]) == [];
  }

  lemma StoredStep(p1: Products, p2: Products, rows: seq<ProductRow>, outs: seq<Produced>, row: ProductRow, out: Produced)
    requires (forall o :: o in outs ==> Stored(p1, rows, o)) && Keeps(p1, p2)
    requires out.id in p2 && SameKey(p2[out.id], row) && row in rows && row.typ == out.typ
    ensures forall o :: o in outs + [out] ==> Stored(p2, rows, o)
  {
    var k :| 0 <= k < |rows| && rows[k] == row;
    forall o | o in outs + [out] ensures Stored(p2, rows, o) {
      if o in outs {
        assert Stored(p1, rows, o);
      } else {
        assert SameKey(p2[o.id], rows[k]);
      }
    }
  }

  lemma NewRowsStep(h: Hasher, p0: Products, p1: Products, p2: Products, parents: seq<Parent>,
                    rows: seq<ProductRow>, row: ProductRow, id: string)
    requires forall c :: c in p1 && c !in p0 ==> NewRow(h, c, p1[c], parents, rows)
    requires p2 == if id in p1 then p1 else p1[id := row]
    requires row in rows && (id !in p1 ==> id == CandidateId(h, row, parents))
    ensures forall c :: c in p2 && c !in p0 ==> NewRow(h, c, p2[c], parents, rows)
  {
    forall c | c in p2 && c !in p0 ensures NewRow(h, c, p2[c], parents, rows) {
      assert c != id ==> c in p1 && p2[c] == p1[c];
    }
  }

  lemma SavedStep(h: Hasher, p0: Products, l0: seq<Row>, p1: Products, l1: seq<Row>, p2: Products, l2: seq<Row>,
                  parents: seq<Parent>, rows: seq<ProductRow>, outs: seq<Produced>, row: ProductRow, out: Produced)
    requires Saved(h, p0, l0, p1, l1, parents, rows, outs)
    requires Persisted(p1, l1, p2, l2, row, parents, out.id) && StoreOk(p2, l2)
    requires row in rows && row.typ == out.typ && forall c :: c in p2 && c !in p0 ==> NewRow(h, c, p2[c], parents, rows)
    ensures Saved(h, p0, l0, p2, l2, parents, rows, outs + [out])
  {
    GrownStep(p0, l0, p1, l1, p2, l2, parents, Ids(outs), row, out.id);
    assert Ids(outs + [out]) == Ids(outs) + [out.id];
    StoredStep(p1, p2, rows, outs, row, out);
  }

  lemma SavedKeeps(h: Hasher, p0: Products, l0: seq<Row>, p1: Products, l1: seq<Row>,
                   parents: seq<Parent>, rows: seq<ProductRow>, outs: seq<Produced>)
    requires Saved(h, p0, l0, p1, l1, parents, rows, outs)
    ensures Keeps(p0, p1) && StoreOk(p1, l1)
  {
  }

  /** Another row has the id that `row` gets. */
  ghost predicate Clashes(h: Hasher, row: ProductRow, parents: seq<Parent>, other: ProductRow, others: seq<Parent>) {
    !SameKey(other, row) && CandidateId(h, other, others) == CandidateId(h, row, parents)
  }

  /** A row whose key is free cannot be stored: its id is a stored product's, or another planned row's. */
  ghost predicate Collides(h: Hasher, products: Products, rows: seq<ProductRow>, parents: seq<Parent>) {
    exists row :: row in rows && !KeyTaken(products, row) && IdInUse(h, products, rows, parents, row)
  }

  ghost predicate IdInUse(h: Hasher, products: Products, rows: seq<ProductRow>, parents: seq<Parent>, row: ProductRow) {
    || CandidateId(h, row, parents) in products
    || exists other :: other in rows && Clashes(h, row, parents, other, parents)
  }

  lemma SavedCollides(h: Hasher, p0: Products, l0: seq<Row>, p1: Products, l1: seq<Row>,
                      parents: seq<Parent>, rows: seq<ProductRow>, outs: seq<Produced>, row: ProductRow)
    requires Saved(h, p0, l0, p1, l1, parents, rows, outs) && row in rows
    requires CandidateId(h, row, parents) in p1 && !KeyTaken(p1, row)
    ensures Collides(h, p0, rows, parents)
  {
    var c := CandidateId(h, row, parents);
    assert c !in p0 ==> NewRow(h, c, p1[c], parents, rows) && Clashes(h, row, parents, p1[c], parents);
    forall q | q in p0 ensures !SameKey(p0[q], row) {
      assert q in p1 && p1[q] == p0[q];
    }
    assert IdInUse(h, p0, rows, parents, row);
  }

  /** Persists one row of the list for one output role. */
  method PersistRow(store: Store, h: Hasher, row: ProductRow, role: string, parents: seq<Parent>,
                    ghost p0: Products, ghost l0: seq<Row>, ghost rows: seq<ProductRow>, ghost outs: seq<Produced>)
    returns (r: Result<Produced, RunError>)
    requires store.Valid() && row in rows && forall p :: p in parents ==> p.id in store.products
    requires Saved(h, p0, l0, store.products, store.lineage, parents, rows, outs)
    modifies store
    ensures forall p :: p in old(store.products) ==> p in store.products
    ensures r.Ok? ==> r.value.role == role && r.value.typ == row.typ
    ensures r.Ok? ==> Saved(h, p0, l0, store.products, store.lineage, parents, rows, outs + [r.value])
    ensures r.Err? ==> Collides(h, p0, rows, parents)
  {
    ghost var p1, l1 := store.products, store.lineage;
    var id := store.Persist(h, row, parents);
    if id.Err? {
      SavedCollides(h, p0, l0, p1, l1, parents, rows, outs, row);
      return Err(PersistFailed);
    }
    r := Ok(Produced(id.value, row.typ, role));
    NewRowsStep(h, p0, p1, store.products, parents, rows, row, id.value);
    SavedStep(h, p0, l0, p1, l1, store.products, store.lineage, parents, rows, outs, row, r.value);
  }

  /** The outputs answer the roles declared for command output. */
  ghost predicate AnswersRoles(roles: seq<string>, outs: seq<Produced>) {
    |outs| == |roles| && forall i :: 0 <= i < |roles| ==> outs[i].role == roles[i] && outs[i].typ.CommandOutput?
  }

  /** Persists the command output under every role declared for it. */
  method PersistCommandOutputs(store: Store, h: Hasher, roles: seq<string>, row: ProductRow, parents: seq<Parent>,
                               ghost rows: seq<ProductRow>)
    returns (r: Result<seq<Produced>, RunError>)
    requires store.Valid() && row in rows && row.typ.CommandOutput?
    requires forall p :: p in parents ==> p.id in store.products
    modifies store
    ensures r.Ok? ==> Saved(h, old(store.products), old(store.lineage), store.products, store.lineage, parents, rows, r.value)
    ensures r.Ok? ==> AnswersRoles(roles, r.value)
    ensures r.Err? ==> Collides(h, old(store.products), rows, parents)
  {
    var outs: seq<Produced> := [];
    ghost var p0, l0 := store.products, store.lineage;
    SavedNone(h, p0, l0, parents, rows);
    for i := 0 to |roles|
      invariant Saved(h, p0, l0, store.products, store.lineage, parents, rows, outs)
      invariant forall p :: p in parents ==> p.id in store.products
      invariant AnswersRoles(roles[..i], outs)
    {
      var out := PersistRow(store, h, row, roles[i], parents, p0, l0, rows, outs);
      if out.Err? {
        return Err(PersistFailed);
      }
      outs := outs + [out.value];
    }
    assert roles[..|roles|] == roles;
    r := Ok(outs);
  }

  /** The outputs answer the first declared domain outputs. */
  ghost predicate AnswersDomain(domain: seq<NodeOutput>, outs: seq<Produced>) {
    |outs| <= |domain| && forall i :: 0 <= i < |outs| ==> outs[i].role == domain[i].role && outs[i].typ == domain[i].typ
  }

  lemma Appended(first: seq<Produced>, outs: seq<Produced>, out: Produced)
    ensures first + (outs + [out]) == first + outs + [out]
  {
  }

  /** Some row of the node's plan cannot be stored: its type is unknown, or its id is in use. */
  ghost predicate Unstorable(s: Session, n: Node, products: Products, parents: seq<Parent>) {
    || (exists o :: o in n.outputs && LoadProductType(o.typ).None?)
    || Collides(s.h, products, PlannedRows(s, n), parents)
  }

  /** The rows of the declared domain outputs are in the list. */
  ghost predicate DomainPlanned(s: Session, n: Node, exec: Execution, domain: seq<NodeOutput>, rows: seq<ProductRow>)
    requires exec.CommandExecution?
  {
    forall i :: 0 <= i < |domain| ==> DomainRow(s, n, exec, domain[i].typ, i) in rows
  }

  /** Persists the `index`-th declared output other than command output. */
  method PersistDomainOutput(store: Store, s: Session, node: Node, o: NodeOutput, index: nat, parents: seq<Parent>,
                             exec: Execution, ghost p0: Products, ghost l0: seq<Row>, ghost rows: seq<ProductRow>,
                             ghost outs: seq<Produced>)
    returns (r: Result<Produced, RunError>)
    requires store.Valid() && forall p :: p in parents ==> p.id in store.products
    requires exec.CommandExecution? && DomainRow(s, node, exec, o.typ, index) in rows
    requires Saved(s.h, p0, l0, store.products, store.lineage, parents, rows, outs)
    modifies store
    ensures forall p :: p in old(store.products) ==> p in store.products
    ensures r.Ok? ==> r.value.role == o.role && r.value.typ == o.typ
    ensures r.Ok? ==> Saved(s.h, p0, l0, store.products, store.lineage, parents, rows, outs + [r.value])
    ensures r.Err? ==> LoadProductType(o.typ).None? || Collides(s.h, p0, rows, parents)
  {
    if LoadProductType(o.typ).None? {
      return Err(PersistFailed);
    }
    var row := DomainRow(s, node, exec, o.typ, index);
    r := PersistRow(store, s.h, row, o.role, parents, p0, l0, rows, outs);
  }

  /** Persists the declared outputs other than command output, in order. */
  method PersistDomainOutputs(store: Store, s: Session, node: Node, domain: seq<NodeOutput>, parents: seq<Parent>,
                              exec: Execution, ghost p0: Products, ghost l0: seq<Row>, ghost rows: seq<ProductRow>,
                              ghost first: seq<Produced>)
    returns (r: Result<seq<Produced>, RunError>)
    requires store.Valid() && forall p :: p in parents ==> p.id in store.products
    requires exec.CommandExecution? && DomainPlanned(s, node, exec, domain, rows)
    requires Saved(s.h, p0, l0, store.products, store.lineage, parents, rows, first)
    modifies store
    ensures r.Ok? ==> Saved(s.h, p0, l0, store.products, store.lineage, parents, rows, first + r.value)
    ensures r.Ok? ==> |r.value| == |domain| && AnswersDomain(domain, r.value)
    ensures r.Err? ==> (exists o :: o in domain && LoadProductType(o.typ).None?) || Collides(s.h, p0, rows, parents)
  {
    var outs: seq<Produced> := [];
    assert first + outs == first;
    for i := 0 to |domain|
      invariant Saved(s.h, p0, l0, store.products, store.lineage, parents, rows, first + outs)
      invariant forall p :: p in parents ==> p.id in store.products
      invariant |outs| == i && AnswersDomain(domain, outs)
    {
      var out := PersistDomainOutput(store, s, node, domain[i], i, parents, exec, p0, l0, rows, first + outs);
      if out.Err? {
        assert domain[i] in domain;
        return Err(PersistFailed);
      }
      Appended(first, outs, out.value);
      outs := outs + [out.value];
    }
    r := Ok(outs);
  }

  lemma PlannedAnswers(outputs: seq<NodeOutput>, fallback: string, first: seq<Produced>, rest: seq<Produced>)
    requires AnswersRoles(OutputRoles(outputs, fallback), first)
    requires |rest| == |DomainOutputs(outputs)| && AnswersDomain(DomainOutputs(outputs), rest)
    ensures Planned(outputs, fallback, first + rest)
  {
  }

  /** The store holds the command output only, under every declared role. */
  ghost predicate CommandSaved(s: Session, n: Node, exec: Execution, p0: Products, l0: seq<Row>,
                               p1: Products, l1: seq<Row>, parents: seq<Parent>)
  {
    exists outs :: Saved(s.h, p0, l0, p1, l1, parents, PlannedRows(s, n), outs)
                   && AnswersRoles(OutputRoles(n.outputs, Fallback(exec)), outs)
  }

  /** Command output, then, for a clean exit, the domain outputs. */
  method PersistOutputs(store: Store, s: Session, node: Node, parents: seq<Parent>, exec: Execution)
    returns (r: Result<seq<Produced>, RunError>)
    requires store.Valid() && forall p :: p in parents ==> p.id in store.products
    requires ExecutionOf(s, node) == Some(exec)
    modifies store
    ensures r.Ok? ==> Saved(s.h, old(store.products), old(store.lineage), store.products, store.lineage, parents,
                            PlannedRows(s, node), r.value)
    ensures r.Ok? && (exec.NoopExecution? ==> DomainOutputs(node.outputs) == []) ==>
              Planned(node.outputs, Fallback(exec), r.value)
    ensures r.Ok? && exec.CommandExecution? ==> exec.exitCode == 0
    ensures r.Err? ==> r.error.PersistFailed? || r.error.CommandFailed?
    ensures r.Err? && r.error.PersistFailed? ==> Unstorable(s, node, old(store.products), parents)
    ensures r.Err? && r.error.CommandFailed? ==>
              && exec.CommandExecution? && exec.exitCode != 0
              && CommandSaved(s, node, exec, old(store.products), old(store.lineage), store.products, store.lineage, parents)
  {
    ghost var p0, l0, rows := store.products, store.lineage, PlannedRows(s, node);
    PlannedCommand(s, node, exec);
    var roles := OutputRoles(node.outputs, Fallback(exec));
    var first := PersistCommandOutputs(store, s.h, roles, CommandRow(s, node, exec), parents, rows);
    if first.Err? {
      return Err(PersistFailed);
    }
    SavedKeeps(s.h, p0, l0, store.products, store.lineage, parents, rows, first.value);
    if exec.NoopExecution? {
      PlannedOnly(node.outputs, Fallback(exec), first.value);
      return first;
    }
    if exec.exitCode != 0 {
      return Err(CommandFailed);
    }
    PlannedDomainRows(s, node, exec);
    var domain := DomainOutputs(node.outputs);
    var rest := PersistDomainOutputs(store, s, node, domain, parents, exec, p0, l0, rows, first.value);
    if rest.Err? {
      RolesMembers(node.outputs);
      return Err(PersistFailed);
    }
    PlannedAnswers(node.outputs, Fallback(exec), first.value, rest.value);
    r := Ok(first.value + rest.value);
  }

  /** One transaction: a failing command keeps its recorded output; any other failure leaves the store as it was. */
  method PersistNodeOutputs(store: Store, s: Session, node: Node, inputs: seq<Produced>, exec: Execution)
    returns (r: Result<seq<Produced>, RunError>)
    requires store.Valid() && forall i :: i in inputs ==> i.id in store.products
    requires ExecutionOf(s, node) == Some(exec)
    modifies store
    ensures store.Valid() && Keeps(old(store.products), store.products)
    ensures r.Ok? ==> Saved(s.h, old(store.products), old(store.lineage), store.products, store.lineage,
                            ParentsFrom(inputs), PlannedRows(s, node), r.value)
    ensures r.Ok? && (exec.NoopExecution? ==> DomainOutputs(node.outputs) == []) ==>
              Planned(node.outputs, Fallback(exec), r.value)
    ensures r.Ok? && exec.CommandExecution? ==> exec.exitCode == 0
    ensures r.Err? ==> r.error.PersistFailed? || r.error.CommandFailed?
    ensures r.Err? && r.error.PersistFailed? ==> store.products == old(store.products) && store.lineage == old(store.lineage)
    ensures r.Err? && r.error.PersistFailed? ==> Unstorable(s, node, old(store.products), ParentsFrom(inputs))
    ensures r.Err? && r.error.CommandFailed? ==>
              && exec.CommandExecution? && exec.exitCode != 0
              && CommandSaved(s, node, exec, old(store.products), old(store.lineage), store.products, store.lineage,
                              ParentsFrom(inputs))
  {
    var products, lineage := store.products, store.lineage;
    r := PersistOutputs(store, s, node, ParentsFrom(inputs), exec);
    if r.Err? && r.error.PersistFailed? {
      store.products, store.lineage := products, lineage;
    }
  }

  lemma PlannedOnly(outputs: seq<NodeOutput>, fallback: string, outs: seq<Produced>)
    requires AnswersRoles(OutputRoles(outputs, fallback), outs)
    ensures DomainOutputs(outputs) == [] ==> Planned(outputs, fallback, outs)
  {
  }
}
