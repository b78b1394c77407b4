/**
 Running a validated workflow node by node, and what its records guarantee: typed
 inputs, completed predecessors, and acceptance by the replay.
 */
module WorkflowRun {
  import opened Wrappers
  import opened Ordering
  import opened Topology
  import opened Workflow
  import opened Validation
  import opened Lineage
  import opened ProductStore
  import opened Authority
  import opened Executor
  import opened Replay
  import opened RunProgress
  import opened Reuse
  import opened PreRun

  // ----- The engine

  function FindNode(nodes: seq<Node>, id: string): Option<Node> {
    if nodes == [] then None
    else if nodes[0].id == id then Some(nodes[0])
    else FindNode(nodes[1..], id)
  }

  lemma {:induction false} FindNodeFound(nodes: seq<Node>, id: string)
    requires id in NodeIds(nodes)
    ensures FindNode(nodes, id).Some? && FindNode(nodes, id).value in nodes && FindNode(nodes, id).value.id == id
  {
    if nodes[0].id != id {
      var i :| 0 <= i < |nodes| && NodeIds(nodes)[i] == id;
      assert NodeIds(nodes[1..])[i - 1] == id;
      FindNodeFound(nodes[1..], id);
    }
  }

  method ResolveInputs(node: Node, produced: ProducedMap) returns (r: Result<seq<Produced>, RunError>)
    ensures r.Ok? <==> forall i :: i in node.inputs ==> (i.from, i.role) in produced
    ensures r.Err? ==> r.error.MissingInput?
    ensures r.Ok? ==> |r.value| == |node.inputs|
                      && forall i :: 0 <= i < |r.value| ==> Resolved(produced, node.inputs[i], r.value[i])
  {
    var inputs: seq<Produced> := [];
    for i := 0 to |node.inputs|
      invariant |inputs| == i && forall j :: 0 <= j < i ==> Resolved(produced, node.inputs[j], inputs[j])
    {
      var key := (node.inputs[i].from, node.inputs[i].role);
      if key !in produced {
        assert node.inputs[i] in node.inputs;
        return Err(MissingInput);
      }
      inputs := inputs + [produced[key]];
    }
    forall x | x in node.inputs ensures (x.from, x.role) in produced {
      var i :| 0 <= i < |node.inputs| && node.inputs[i] == x;
      assert Resolved(produced, node.inputs[i], inputs[i]);
    }
    r := Ok(inputs);
  }

  /** Whether an input product breaks a runtime rule: lookahead, or Class C into Class A. */
  predicate InputRejected(products: Products, alg: Algorithm, id: string, decisionAsOf: int)
    requires id in products
  {
    || (products[id].availableAt > 0 && decisionAsOf > 0 && products[id].availableAt > decisionAsOf)
    || (alg.hazard.A? && LoadProductType(products[id].typ) == Some(C))
  }

  /** On a validated node only the lookahead rule can reject an input. */
  lemma RejectedIsLate(s: Session, spec: Spec, n: Node, alg: Algorithm, produced: ProducedMap, products: Products,
                       inputs: seq<Produced>, i: nat)
    requires WellFormed(spec) && n in spec.nodes && LoadAlgorithm(n.algorithm) == Some(alg) && i < |n.inputs|
    requires |inputs| == |n.inputs| && Resolved(produced, n.inputs[i], inputs[i])
    requires InputTyped(products, OutputsOf(spec.nodes), n.inputs[i], inputs[i].id)
    requires InputRejected(products, alg, inputs[i].id, s.asOf)
    ensures ReadsLate(s, n, produced, products)
  {
    assert n.inputs[i] in n.inputs && NodeOk(spec, n, OutputsOf(spec.nodes));
    assert Late(products, produced[(n.inputs[i].from, n.inputs[i].role)].id, s.asOf);
  }

  class Engine {
    const s: Session
    const store: Store
    var records: map<string, NodeRecord>
    var produced: ProducedMap

    constructor (s: Session, store: Store)
      ensures this.s == s && this.store == store
      ensures records == map[] && produced == map[]
    {
      this.s, this.store := s, store;
      records, produced := map[], map[];
    }

    ghost function State(): Snap
      reads this, store
    {
      Snap(store.products, store.lineage, produced, records)
    }

    /** Runs an algorithm on a node, without touching the tables. */
    method Execute(node: Node, alg: Algorithm) returns (r: Result<Execution, RunError>)
      requires LoadAlgorithm(node.algorithm) == Some(alg)
      ensures r.Err? ==> r.error.CommandFailed? && ExecutionOf(s, node).None?
      ensures r.Ok? ==> ExecutionOf(s, node) == Some(r.value)
    {
      NoopOnly(node);
      if alg.kind.NoopTest? {
        return Ok(NoopExecution(NoopPayload(s.h, node)));
      }
      match s.env.command(node.id)
      case CommandError =>
        return Err(CommandFailed);
      case CommandDone(stdout, stderr, code, stepId) =>
        return Ok(CommandExecution(CommandPayload(s.env.command(node.id)), code, stepId));
    }

    /** Resolves a node's inputs and applies the runtime rules to them. */
    method Prepare(spec: Spec, node: Node, alg: Algorithm, ghost done: set<string>)
      returns (r: Result<seq<Produced>, RunError>)
      requires WellFormed(spec) && node in spec.nodes && Progress(s.h, spec, done, State())
      requires LoadAlgorithm(node.algorithm) == Some(alg) && forall i :: i in node.inputs ==> i.from in done
      ensures r.Err? ==> r.error.RuntimeRejected? && ReadsLate(s, node, produced, store.products)
      ensures r.Ok? ==> |r.value| == |node.inputs|
                        && forall i :: 0 <= i < |r.value| ==> Resolved(produced, node.inputs[i], r.value[i])
      ensures r.Ok? ==> forall p :: p in r.value ==> p.id in store.products
    {
      SourcesProduced(s.h, spec, done, State(), node);
      r := ResolveInputs(node, produced);
      TypedNew(s.h, spec, done, State(), node, r.value);
      InputsStored(store.products, OutputsOf(spec.nodes), node, r.value);
      if exists i :: i in r.value && InputRejected(store.products, alg, i.id, s.asOf) {
        var k :| 0 <= k < |r.value| && InputRejected(store.products, alg, r.value[k].id, s.asOf);
        assert InputTyped(store.products, OutputsOf(spec.nodes), node.inputs[k], Ids(r.value)[k]);
        RejectedIsLate(s, spec, node, alg, produced, store.products, r.value, k);
        r := Err(RuntimeRejected);
      }
    }

    /** Executes a node and persists what it produced. */
    method ExecuteAndPersist(node: Node, alg: Algorithm, inputs: seq<Produced>)
      returns (r: Result<seq<Produced>, RunError>)
      requires LoadAlgorithm(node.algorithm) == Some(alg) && store.Valid()
      requires forall p :: p in inputs ==> p.id in store.products
      requires node.algorithm.Noop? ==> DomainOutputs(node.outputs) == []
      requires |inputs| == |node.inputs| && forall o :: o in node.outputs ==> LoadProductType(o.typ).Some?
      modifies store
      ensures Keeps(old(store.products), store.products)
      ensures r.Err? ==> r.error.CommandFailed? || r.error.PersistFailed?
      ensures r.Err? ==> Blocked(s, node, produced, old(store.products), r.error)
      ensures r.Ok? ==> CleanExecution(s, node)
      ensures r.Ok? ==> Saved(s.h, old(store.products), old(store.lineage), store.products, store.lineage,
                              ParentsFrom(inputs), PlannedRows(s, node), r.value)
      ensures r.Ok? ==> Planned(node.outputs, Fallback(ExecutionOf(s, node).value), r.value)
    {
      var exec := Execute(node, alg);
      if exec.Err? {
        return Err(CommandFailed);
      }
      r := PersistNodeOutputs(store, s, node, inputs, exec.value);
    }

    /** Executes a node that is recorded as running, and records its failure if it fails. */
    method Attempt(node: Node, alg: Algorithm, inputs: seq<Produced>) returns (r: Result<seq<Produced>, RunError>)
      requires LoadAlgorithm(node.algorithm) == Some(alg) && store.Valid()
      requires forall p :: p in inputs ==> p.id in store.products
      requires node.algorithm.Noop? ==> DomainOutputs(node.outputs) == []
      requires |inputs| == |node.inputs| && forall o :: o in node.outputs ==> LoadProductType(o.typ).Some?
      modifies this`records, store
      ensures Keeps(old(store.products), store.products)
      ensures r.Err? ==> Blocked(s, node, produced, old(store.products), r.error)
      ensures r.Err? ==> Stopped(old(records), records, node.id)
      ensures r.Ok? ==> CleanExecution(s, node) && records == old(records)
      ensures r.Ok? ==> Saved(s.h, old(store.products), old(store.lineage), store.products, store.lineage,
                              ParentsFrom(inputs), PlannedRows(s, node), r.value)
      ensures r.Ok? ==> Planned(node.outputs, Fallback(ExecutionOf(s, node).value), r.value)
    {
      var ids, earlier := Ids(inputs), records;
      records := records[node.id := NodeRecord(Running, ids, [], false)];
      r := ExecuteAndPersist(node, alg, inputs);
      records := if r.Ok? then earlier else earlier[node.id := NodeRecord(Failed, ids, [], false)];
    }

    /** Records the success of a node whose outputs are stored. */
    method Succeed(spec: Spec, node: Node, inputs: seq<Produced>, outs: seq<Produced>, before: Products,
                   ghost s0: Snap, ghost done: set<string>)
      requires WellFormed(spec) && node in spec.nodes && node.id !in done && Progress(s.h, spec, done, s0)
      requires forall i :: i in node.inputs ==> i.from in done
      requires CleanExecution(s, node) && Planned(node.outputs, Fallback(ExecutionOf(s, node).value), outs)
      requires before == s0.products && produced == s0.produced && records == s0.records
      requires Saved(s.h, s0.products, s0.lineage, store.products, store.lineage, ParentsFrom(inputs), PlannedRows(s, node), outs)
      requires |inputs| == |node.inputs| && forall i :: 0 <= i < |inputs| ==> Resolved(s0.produced, node.inputs[i], inputs[i])
      modifies this`records, this`produced
      ensures Progress(s.h, spec, done + {node.id}, State())
      ensures NextNode(s, spec, s0.products, s0.lineage, store.products, store.lineage, s0.records, records, node)
    {
      records := records[node.id := NodeRecord(Succeeded, Ids(inputs), Ids(outs), AnyOlder(Ids(outs), before))];
      produced := RecordAll(produced, node.id, outs);
      RanAdvance(s, spec, done, s0, State(), node, inputs, outs);
    }

    /** Runs one node whose sources are done. */
    method RunNode(spec: Spec, node: Node, alg: Algorithm, ghost done: set<string>) returns (r: Result<(), RunError>)
      requires WellFormed(spec) && node in spec.nodes && node.id !in done && LoadAlgorithm(node.algorithm) == Some(alg)
      requires Progress(s.h, spec, done, State()) && forall i :: i in node.inputs ==> i.from in done
      modifies this`records, this`produced, store
      ensures r.Ok? ==> Progress(s.h, spec, done + {node.id}, State())
      ensures r.Err? ==> Blocked(s, node, old(produced), old(store.products), r.error)
      ensures r.Err? ==> Stopped(old(records), records, node.id) && Keeps(old(store.products), store.products)
      ensures r.Ok? ==> NextNode(s, spec, old(store.products), old(store.lineage), store.products, store.lineage,
                                 old(records), records, node)
    {
      var inputs := Prepare(spec, node, alg, done);
      if inputs.Err? {
        return Err(RuntimeRejected);
      }
      ghost var s0 := State();
      var before := store.products;
      NoopDomain(spec, node);
      var outs := Attempt(node, alg, inputs.value);
      if outs.Err? {
        return Err(outs.error);
      }
      Succeed(spec, node, inputs.value, outs.value, before, s0, done);
      r := Ok(());
    }

    /** Runs the node whose turn it is. */
    method RunTurn(v: Validated, i: nat, ghost p0: Products, ghost l0: seq<Row>) returns (r: Result<(), RunError>)
      requires WellFormed(v.spec) && OrderOk(v) && i < |v.order|
      requires Progress(s.h, v.spec, Elems(v.order[..i]), State())
      requires Tracked(s, v.spec, p0, l0, store.products, store.lineage, records)
      modifies this`records, this`produced, store
      ensures r.Ok? ==> Progress(s.h, v.spec, Elems(v.order[..i + 1]), State())
      ensures r.Ok? ==> Tracked(s, v.spec, p0, l0, store.products, store.lineage, records)
      ensures r.Err? ==> PrefixSucceeded(v.order, i, records) && PrefixTyped(v, i, store.products, records)
      ensures r.Err? ==> Obstructed(s, v.spec, p0, r.error)
    {
      ghost var snap, done := State(), Elems(v.order[..i]);
      var node := FindNode(v.spec.nodes, v.order[i]);
      OrderNode(v, i);
      if node.None? {
        return Err(UnknownNode);
      }
      assert NodeOk(v.spec, node.value, OutputsOf(v.spec.nodes));
      var alg := LoadAlgorithm(node.value.algorithm);
      if alg.None? {
        return Err(RunError.UnknownAlgorithm);
      }
      SourcesDone(v, i, node.value);
      ElemsSnoc(v.order, i);
      r := RunNode(v.spec, node.value, alg.value, done);
      if r.Err? {
        StoppedAt(s, v, i, p0, l0, snap, node.value, r.error, store.products, records);
      } else {
        TrackedStep(s, v.spec, p0, l0, snap.products, snap.lineage, store.products, store.lineage, snap.records, records,
                    node.value);
      }
    }

    /** Runs a validated workflow in its order, stopping at the first failure. */
    method Run(v: Validated) returns (r: Result<(), RunError>, ghost k: nat)
      requires WellFormed(v.spec) && OrderOk(v) && s.asOf == v.spec.decisionAsOf
      requires store.Valid() && records == map[] && produced == map[]
      modifies this`records, this`produced, store
      ensures r.Err? ==> Obstructed(s, v.spec, old(store.products), r.error)
      ensures k <= |v.order| && (r.Ok? <==> k == |v.order|)
      ensures PrefixSucceeded(v.order, k, records)
      ensures PrefixTyped(v, k, store.products, records)
      ensures r.Ok? ==> RunTracked(s, v.spec, old(store.products), old(store.lineage),
                                   store.products, store.lineage, records)
      ensures r.Ok? ==> ReplayDecided(s, v.spec, old(store.products), old(store.lineage),
                                      store.products, store.lineage, records)
    {
      ghost var p0, l0 := store.products, store.lineage;
      RunStarted(s, v, State());
      for i := 0 to |v.order|
        invariant Progress(s.h, v.spec, Elems(v.order[..i]), State())
        invariant Tracked(s, v.spec, p0, l0, store.products, store.lineage, records)
      {
        r := RunTurn(v, i, p0, l0);
        if r.Err? {
          return r, i;
        }
      }
      RunCompleted(s, v, p0, l0, State());
      return Ok(()), |v.order|;
    }
  }

  /** A completed run: every node is tracked from the store it started on, and the store is consistent. */
  ghost predicate RunTracked(s: Session, spec: Spec, p0: Products, l0: seq<Row>, p: Products, l: seq<Row>,
                             records: map<string, NodeRecord>)
  {
    && StoreOk(p, l) && Keeps(p0, p)
    && (forall n :: n in spec.nodes ==> n.id in records && RecordTracked(s, n, p, records[n.id]))
    && (Fresh(s, spec, p0) ==> Unreused(spec, records))
  }

  /** Where reuse alone decides whether a completed run replays. */
  ghost predicate ReuseDecides(s: Session, spec: Spec, p0: Products, l0: seq<Row>) {
    NoRepeats(spec) && CollisionFree(s.h) && Apart(s, spec) && Honest(s.h, p0) && Distinct(l0)
  }

  /** What decides whether a completed run replays: that it reused nothing; in general, whether what it reused agrees
      with what it read; and, for a new run, whether what it was to find had no parents. */
  ghost predicate ReplayDecided(s: Session, spec: Spec, p0: Products, l0: seq<Row>, p: Products, l: seq<Row>,
                                records: map<string, NodeRecord>)
  {
    && (NoRepeats(spec) && CollisionFree(s.h) && Unreused(spec, records) ==> Replays(s.h, spec, p, l, records))
    && (ReuseDecides(s, spec, p0, l0) ==> (Replays(s.h, spec, p, l, records) <==> ReuseAgrees(spec, l0, records)))
    && (NewRun(s, p0) ==> (ReuseAgrees(spec, l0, records) <==> FoundParentless(s, spec, p0, l0)))
  }

  /** A run stopped at `id`: earlier records stand, and the node is absent or failed. */
  ghost predicate Stopped(before: map<string, NodeRecord>, after: map<string, NodeRecord>, id: string) {
    || after == before
    || (id in after && after[id].status.Failed? && after == before[id := after[id]])
  }

  lemma RanAdvance(s: Session, spec: Spec, done: set<string>, s0: Snap, s1: Snap, n: Node,
                   inputs: seq<Produced>, outs: seq<Produced>)
    requires WellFormed(spec) && n in spec.nodes && n.id !in done && Progress(s.h, spec, done, s0)
    requires forall i :: i in n.inputs ==> i.from in done
    requires CleanExecution(s, n)
    requires Saved(s.h, s0.products, s0.lineage, s1.products, s1.lineage, ParentsFrom(inputs), PlannedRows(s, n), outs)
    requires s1.produced == RecordAll(s0.produced, n.id, outs)
    requires s1.records == s0.records[n.id := NodeRecord(Succeeded, Ids(inputs), Ids(outs), AnyOlder(Ids(outs), s0.products))]
    requires Planned(n.outputs, Fallback(ExecutionOf(s, n).value), outs) && |inputs| == |n.inputs|
    requires forall i :: 0 <= i < |inputs| ==> Resolved(s0.produced, n.inputs[i], inputs[i])
    ensures Progress(s.h, spec, done + {n.id}, s1)
    ensures NextNode(s, spec, s0.products, s0.lineage, s1.products, s1.lineage, s0.records, s1.records, n)
  {
    var exec := ExecutionOf(s, n).value;
    NoopDomain(spec, n);
    PlannedFrom(s, n, exec);
    CleanExit(s, n);
    assert Ran(s.h, n, s0, s1, inputs, exec.payload, PlannedRows(s, n), outs, Fallback(exec));
    Advance(s.h, spec, done, s0, s1, n, inputs, exec.payload, PlannedRows(s, n), outs, Fallback(exec));
    RanStepped(s, spec, done, s0, s1, n, inputs, exec.payload, outs, Fallback(exec));
  }

  lemma CleanExit(s: Session, n: Node)
    requires CleanExecution(s, n)
    ensures !n.algorithm.Noop? ==> ExitCode(ExecutionOf(s, n).value.payload) == 0
    ensures n.algorithm.Noop? ==> ExecutionOf(s, n).value.payload == NoopPayload(s.h, n)
  {
    if !n.algorithm.Noop? {
      var o := s.env.command(n.id);
      CommandExit(o.stdout, o.stderr, o.exitCode, o.runId);
    }
  }

  /** Every input of a node whose sources are done has been produced. */
  lemma SourcesProduced(h: Hasher, spec: Spec, done: set<string>, s: Snap, n: Node)
    requires WellFormed(spec) && n in spec.nodes && Progress(h, spec, done, s)
    requires forall i :: i in n.inputs ==> i.from in done
    ensures forall i :: i in n.inputs ==> (i.from, i.role) in s.produced
  {
    forall i | i in n.inputs ensures (i.from, i.role) in s.produced {
      var m, t := InputSource(spec, n, i);
      assert NodeOutput(i.role, t) in m.outputs && NodeReady(h, s.products, s.produced, m);
      assert OutputReady(h, s.products, s.produced, m, NodeOutput(i.role, t));
    }
  }

  lemma InputsStored(products: Products, index: OutputIndex, n: Node, inputs: seq<Produced>)
    requires |inputs| == |n.inputs|
    requires forall i :: 0 <= i < |n.inputs| ==> InputTyped(products, index, n.inputs[i], Ids(inputs)[i])
    ensures forall p :: p in inputs ==> p.id in products
  {
    forall p | p in inputs ensures p.id in products {
      var i :| 0 <= i < |inputs| && inputs[i] == p;
      assert InputTyped(products, index, n.inputs[i], Ids(inputs)[i]);
    }
  }

  /** A validated node declares outputs of known types, and a noop node command output only. */
  lemma NoopDomain(spec: Spec, n: Node)
    requires WellFormed(spec) && n in spec.nodes
    ensures n.algorithm.Noop? ==> DomainOutputs(n.outputs) == []
    ensures DetOp(n) ==> !n.algorithm.Noop?
    ensures forall o :: o in n.outputs ==> LoadProductType(o.typ).Some?
  {
    assert NodeOk(spec, n, OutputsOf(spec.nodes));
    var domain := DomainOutputs(n.outputs);
    assert |domain| > 0 ==> domain[0] in domain;
    RolesMembers(n.outputs);
  }

  /** The first `k` nodes of the order succeeded; at most the next one was started, and it failed. */
  ghost predicate PrefixSucceeded(order: seq<string>, k: nat, records: map<string, NodeRecord>)
    requires k <= |order|
  {
    && (forall id :: id in order[..k] ==> id in records && records[id].status.Succeeded?)
    && (forall id :: id in records && id !in order[..k] ==>
          k < |order| && id == order[k] && records[id].status.Failed?)
  }

  lemma StoppedPrefix(order: seq<string>, k: nat, before: map<string, NodeRecord>, after: map<string, NodeRecord>)
    requires k < |order| && Distinct(order) && Stopped(before, after, order[k])
    requires before.Keys == Elems(order[..k]) && PrefixSucceeded(order, k, before)
    ensures PrefixSucceeded(order, k, after)
  {
    forall id | id in order[..k] ensures id in after && after[id].status.Succeeded? {
      var j :| 0 <= j < k && order[j] == id;
      assert order[j] != order[k];
      assert id in before;
    }
  }

  /** Every succeeded node recorded inputs of the statically declared types. */
  ghost predicate PrefixTyped(v: Validated, k: nat, products: Products, records: map<string, NodeRecord>)
    requires k <= |v.order|
  {
    forall n :: n in v.spec.nodes && n.id in v.order[..k] ==>
      n.id in records && RecordTyped(products, OutputsOf(v.spec.nodes), n, records[n.id])
  }

  lemma ProgressFacts(h: Hasher, v: Validated, k: nat, s: Snap)
    requires k <= |v.order| && Progress(h, v.spec, Elems(v.order[..k]), s)
    ensures s.records.Keys == Elems(v.order[..k]) && StoreOk(s.products, s.lineage)
    ensures PrefixTyped(v, k, s.products, s.records)
    ensures WellFormed(v.spec) && OrderOk(v) ==> PrefixSucceeded(v.order, k, s.records)
  {
    if WellFormed(v.spec) && OrderOk(v) {
      ProgressSucceeded(h, v, k, s);
    }
    forall n | n in v.spec.nodes && n.id in v.order[..k]
      ensures n.id in s.records && RecordTyped(s.products, OutputsOf(v.spec.nodes), n, s.records[n.id])
    {
      assert n.id in Elems(v.order[..k]);
    }
  }

  lemma RunStarted(s: Session, v: Validated, snap: Snap)
    requires StoreOk(snap.products, snap.lineage) && snap.records == map[] && snap.produced == map[]
    ensures Progress(s.h, v.spec, Elems(v.order[..0]), snap)
    ensures Tracked(s, v.spec, snap.products, snap.lineage, snap.products, snap.lineage, snap.records)
  {
    TrackedNone(s, v.spec, snap.products, snap.lineage);
  }

  lemma RunCompleted(s: Session, v: Validated, p0: Products, l0: seq<Row>, snap: Snap)
    requires WellFormed(v.spec) && OrderOk(v) && Progress(s.h, v.spec, Elems(v.order[..|v.order|]), snap)
    requires Tracked(s, v.spec, p0, l0, snap.products, snap.lineage, snap.records) && StoreOk(p0, l0)
    ensures PrefixSucceeded(v.order, |v.order|, snap.records) && PrefixTyped(v, |v.order|, snap.products, snap.records)
    ensures RunTracked(s, v.spec, p0, l0, snap.products, snap.lineage, snap.records)
    ensures ReplayDecided(s, v.spec, p0, l0, snap.products, snap.lineage, snap.records)
  {
    assert v.order[..|v.order|] == v.order;
    ProgressFacts(s.h, v, |v.order|, snap);
    forall n | n in v.spec.nodes ensures n.id in snap.records && RecordTracked(s, n, snap.products, snap.records[n.id]) {
      InOrder(v, n);
    }
    if NoRepeats(v.spec) && Unreused(v.spec, snap.records) && CollisionFree(s.h) {
      RunReplays(s.h, v, snap);
    }
    if ReuseDecides(s, v.spec, p0, l0) {
      ReplaysExactly(s, v, p0, l0, snap);
    }
    if NewRun(s, p0) {
      AgreesExactly(s, v, p0, l0, snap);
    }
  }

  lemma ProgressSucceeded(h: Hasher, v: Validated, k: nat, s: Snap)
    requires WellFormed(v.spec) && OrderOk(v) && k <= |v.order| && Progress(h, v.spec, Elems(v.order[..k]), s)
    ensures PrefixSucceeded(v.order, k, s.records)
  {
    forall id | id in v.order[..k] ensures id in s.records && s.records[id].status.Succeeded? {
      assert id in Elems(v.order[..k]) && id in v.order;
      MultisetMember(v.order, NodeIds(v.spec.nodes));
      var i :| 0 <= i < |v.spec.nodes| && NodeIds(v.spec.nodes)[i] == id;
      assert v.spec.nodes[i] in v.spec.nodes;
      assert RecordSound(h, s.products, v.spec.nodes[i], s.records[id]);
    }
  }

  lemma StoppedTyped(v: Validated, k: nat, before: map<string, NodeRecord>, after: map<string, NodeRecord>,
                     p0: Products, p1: Products)
    requires k < |v.order| && Distinct(v.order) && Stopped(before, after, v.order[k]) && Keeps(p0, p1)
    requires PrefixTyped(v, k, p0, before)
    ensures PrefixTyped(v, k, p1, after)
  {
    forall n | n in v.spec.nodes && n.id in v.order[..k]
      ensures n.id in after && RecordTyped(p1, OutputsOf(v.spec.nodes), n, after[n.id])
    {
      var j :| 0 <= j < k && v.order[j] == n.id;
      assert v.order[j] != v.order[k];
      assert after[n.id] == before[n.id];
      TypedGrows(OutputsOf(v.spec.nodes), n, p0, p1, before[n.id]);
    }
  }

  /** A run that stops at its `k`-th node: what it did before stands, and what stopped it was there from the start. */
  lemma StoppedAt(s: Session, v: Validated, k: nat, p0: Products, l0: seq<Row>, snap: Snap, n: Node, e: RunError,
                  products: Products, records: map<string, NodeRecord>)
    requires WellFormed(v.spec) && OrderOk(v) && k < |v.order| && Progress(s.h, v.spec, Elems(v.order[..k]), snap)
    requires Tracked(s, v.spec, p0, l0, snap.products, snap.lineage, snap.records)
    requires n in v.spec.nodes && n.id == v.order[k] && Blocked(s, n, snap.produced, snap.products, e)
    requires Stopped(snap.records, records, n.id) && Keeps(snap.products, products)
    ensures PrefixSucceeded(v.order, k, records) && PrefixTyped(v, k, products, records)
    ensures Obstacle(s, v.spec, n, p0, e)
  {
    ProgressFacts(s.h, v, k, snap);
    StoppedPrefix(v.order, k, snap.records, records);
    StoppedTyped(v, k, snap.records, records, snap.products, products);
    ObstacleBefore(s, v.spec, Elems(v.order[..k]), p0, l0, snap, n, e);
  }

  /** The order names a node at every place, and that node is not done yet. */
  lemma OrderNode(v: Validated, i: nat)
    requires WellFormed(v.spec) && OrderOk(v) && i < |v.order|
    ensures var node := FindNode(v.spec.nodes, v.order[i]);
            node.Some? && node.value in v.spec.nodes && node.value.id == v.order[i]
    ensures v.order[i] !in Elems(v.order[..i])
  {
    MultisetMember(v.order, NodeIds(v.spec.nodes));
    assert v.order[i] in v.order;
    FindNodeFound(v.spec.nodes, v.order[i]);
  }

  /** When a node's turn comes, everything it reads from is done. */
  lemma SourcesDone(v: Validated, i: nat, n: Node)
    requires WellFormed(v.spec) && OrderOk(v) && i < |v.order| && n in v.spec.nodes && n.id == v.order[i]
    ensures forall x :: x in n.inputs ==> x.from in Elems(v.order[..i])
  {
    forall x | x in n.inputs ensures x.from in Elems(v.order[..i]) {
      var m, t := InputSource(v.spec, n, x);
      InOrder(v, m);
      var a :| 0 <= a < |v.order| && v.order[a] == m.id;
      assert IsEdge(v.edges, v.order[a], v.order[i]);
      assert v.order[..i][a] == m.id;
    }
  }

  /** The records of a completed run match the store. */
  lemma RunReplays(h: Hasher, v: Validated, s: Snap)
    requires WellFormed(v.spec) && OrderOk(v) && Progress(h, v.spec, Elems(v.order), s)
    requires NoRepeats(v.spec) && Unreused(v.spec, s.records) && CollisionFree(h)
    ensures Replays(h, v.spec, s.products, s.lineage, s.records)
  {
    forall n | n in v.spec.nodes ensures NodeReplays(h, s.products, s.lineage, s.records, n) {
      InOrder(v, n);
      assert NodeOk(v.spec, n, OutputsOf(v.spec.nodes));
      NodeReplay(h, s, n, s.records[n.id]);
    }
  }

  /** A node has run only after every node it reads from succeeded. */
  lemma PredecessorsFirst(v: Validated, k: nat, records: map<string, NodeRecord>, n: Node, x: NodeInput)
    requires WellFormed(v.spec) && OrderOk(v) && k <= |v.order| && PrefixSucceeded(v.order, k, records)
    requires n in v.spec.nodes && x in n.inputs && n.id in records
    ensures x.from in records && records[x.from].status.Succeeded?
  {
    InOrder(v, n);
    var i :| 0 <= i < |v.order| && v.order[i] == n.id;
    SourcesDone(v, i, n);
    assert i <= k by {
      if n.id in v.order[..k] {
        var j :| 0 <= j < k && v.order[j] == n.id;
        assert i == j;
      }
    }
    var a :| 0 <= a < i && v.order[..i][a] == x.from;
    assert v.order[..k][a] == x.from;
  }

  /** Validates, runs and replays a workflow. A run without repeated inputs or digest collisions is accepted by the
      replay when it found no deterministic output in the store, so when its keys were fresh; and, over an honest
      store, exactly when what it found already had no other parents. For a run id not used before, the store and the
      plan decide that: nothing a deterministic operation will find may have parents at all. */
  method RecordThenReplay(h: Hasher, env: Environment, runId: string, store: Store, spec: Spec)
    returns (valid: bool, ran: bool, replayed: bool, records: map<string, NodeRecord>)
    requires store.Valid()
    modifies store
    ensures valid <==> WellFormed(spec)
    ensures ran ==> valid
    ensures valid && !ran ==> exists e :: Obstructed(SessionOf(h, env, runId, spec), spec, old(store.products), e)
    ensures ran ==> RunTracked(SessionOf(h, env, runId, spec), spec, old(store.products), old(store.lineage),
                               store.products, store.lineage, records)
    ensures ran && NoRepeats(spec) && CollisionFree(h) && Unreused(spec, records) ==> replayed
    ensures ran && NoRepeats(spec) && CollisionFree(h) && Fresh(SessionOf(h, env, runId, spec), spec, old(store.products)) ==>
              replayed
    ensures ran && ReuseDecides(SessionOf(h, env, runId, spec), spec, old(store.products), old(store.lineage)) ==>
              (replayed <==> ReuseAgrees(spec, old(store.lineage), records))
    ensures var s := SessionOf(h, env, runId, spec);
            ran && ReuseDecides(s, spec, old(store.products), old(store.lineage)) && NewRun(s, old(store.products)) ==>
              (replayed <==> FoundParentless(s, spec, old(store.products), old(store.lineage)))
  {
    var found, v := ValidateWorkflow(spec);
    if v.None? {
      return false, false, false, map[];
    }
    var engine := new Engine(SessionOf(h, env, runId, spec), store);
    var r, k := engine.Run(v.value);
    if r.Err? {
      return true, false, false, engine.records;
    }
    var replay := ReplayWorkflow(h, spec, store.products, store.lineage, engine.records);
    return true, true, replay.Ok?, engine.records;
  }

  function SessionOf(h: Hasher, env: Environment, runId: string, spec: Spec): Session {
    Session(h, env, runId, spec.decisionAsOf)
  }
}
