/**
 What acceptance by the validator guarantees, over workflows of any size: the
 Class A closure of authority-bearing nodes, and the chain behind broker events.
 */
module Authority {
  import opened Wrappers
  import opened Ordering
  import opened Topology
  import opened Modes
  import opened Workflow
  import opened Validation

  /** Node `n` declares an output of type `t` in `role`. */
  ghost predicate Declares(n: Node, role: string, t: ProductType) {
    NodeOutput(role, t) in n.outputs
  }

  ghost predicate Produced(nodes: seq<Node>, from: string, role: string, t: ProductType) {
    exists n :: n in nodes && n.id == from && Declares(n, role, t)
  }

  lemma {:induction false} NodeEntry(index: OutputIndex, id: string, outputs: seq<NodeOutput>, k: (string, string))
    requires k in AddOutputs(index, id, outputs)
    ensures (k in index && AddOutputs(index, id, outputs)[k] == index[k])
            || (k.0 == id && NodeOutput(k.1, AddOutputs(index, id, outputs)[k]) in outputs)
  {
    if outputs != [] {
      var front, o := outputs[..|outputs| - 1], outputs[|outputs| - 1];
      assert outputs == front + [o];
      if k != (id, o.role) {
        NodeEntry(index, id, front, k);
      }
    }
  }

  /** Every indexed type was declared by some node. */
  lemma {:induction false} EntryProduced(nodes: seq<Node>, k: (string, string))
    requires k in OutputsOf(nodes)
    ensures Produced(nodes, k.0, k.1, OutputsOf(nodes)[k])
  {
    if nodes != [] {
      var front, last := nodes[..|nodes| - 1], nodes[|nodes| - 1];
      assert nodes == front + [last];
      NodeEntry(OutputsOf(front), last.id, last.outputs, k);
      if k in OutputsOf(front) && OutputsOf(nodes)[k] == OutputsOf(front)[k] {
        EntryProduced(front, k);
        var n :| n in front && n.id == k.0 && Declares(n, k.1, OutputsOf(nodes)[k]);
        assert n in nodes;
      } else {
        assert last in nodes && Declares(last, k.1, OutputsOf(nodes)[k]);
      }
    }
  }

  lemma {:induction false} EdgesIntoMeaning(n: Node, inputs: seq<NodeInput>)
    ensures forall e :: e in EdgesInto(n, inputs) <==> e.to == n.id && NodeInput(e.from, e.role) in inputs
  {
    if inputs != [] {
      EdgesIntoMeaning(n, inputs[..|inputs| - 1]);
      assert inputs == inputs[..|inputs| - 1] + [inputs[|inputs| - 1]];
    }
  }

  ghost predicate Reads(nodes: seq<Node>, e: Edge<string>) {
    exists n :: n in nodes && n.id == e.to && NodeInput(e.from, e.role) in n.inputs
  }

  lemma {:induction false} EdgesMeaning(nodes: seq<Node>, e: Edge<string>)
    ensures e in EdgesOf(nodes) <==> Reads(nodes, e)
  {
    if nodes != [] {
      var front, last := nodes[..|nodes| - 1], nodes[|nodes| - 1];
      EdgesMeaning(front, e);
      EdgesIntoMeaning(last, last.inputs);
      assert nodes == front + [last];
      if Reads(front, e) {
        var n :| n in front && n.id == e.to && NodeInput(e.from, e.role) in n.inputs;
        assert n in nodes;
      }
      if e in EdgesInto(last, last.inputs) {
        assert last in nodes;
      }
    }
  }

  /** In a well-formed workflow an id names one node. */
  lemma UniqueNode(nodes: seq<Node>, m: Node, n: Node)
    requires NodesOk(nodes) && m in nodes && n in nodes && m.id == n.id
    ensures m == n
  {
    var i :| 0 <= i < |nodes| && nodes[i] == m;
    var j :| 0 <= j < |nodes| && nodes[j] == n;
    assert NodeIds(nodes)[i] == NodeIds(nodes)[j];
  }

  /** An input of a well-formed workflow has a producing node, whose contract declares its type. */
  lemma InputSource(spec: Spec, n: Node, i: NodeInput) returns (m: Node, t: ProductType)
    requires WellFormed(spec) && n in spec.nodes && i in n.inputs
    ensures InputType(OutputsOf(spec.nodes), i) == Some(t)
    ensures m in spec.nodes && m.id == i.from && Declares(m, i.role, t)
    ensures LoadAlgorithm(m.algorithm).Some? && t in LoadAlgorithm(m.algorithm).value.outputs
    ensures LoadAlgorithm(n.algorithm).Some? && t in LoadAlgorithm(n.algorithm).value.inputs
    ensures IsEdge(EdgesOf(spec.nodes), m.id, n.id)
  {
    var index := OutputsOf(spec.nodes);
    assert InputsResolve(n.inputs, index) && InputType(index, i).Some?;
    t := InputType(index, i).value;
    EntryProduced(spec.nodes, (i.from, i.role));
    m :| m in spec.nodes && m.id == i.from && Declares(m, i.role, t);
    assert NodeOk(spec, m, index) && NodeOk(spec, n, index);
    var e := Edge(i.from, n.id, i.role);
    EdgesMeaning(spec.nodes, e);
    assert e in EdgesOf(spec.nodes);
  }

  predicate ClassA(n: Node) {
    LoadAlgorithm(n.algorithm).Some? && LoadAlgorithm(n.algorithm).value.hazard.A?
  }

  /** Whatever a Class A algorithm may consume, only Class A algorithms may produce. */
  lemma ClassASource(consumer: AlgorithmId, producer: AlgorithmId, t: ProductType)
    requires LoadAlgorithm(consumer).Some? && LoadAlgorithm(producer).Some?
    requires LoadAlgorithm(consumer).value.hazard.A?
    requires t in LoadAlgorithm(consumer).value.inputs && t in LoadAlgorithm(producer).value.outputs
    ensures LoadAlgorithm(producer).value.hazard.A?
  {
  }

  /** The node named by the source of an edge into a Class A node is Class A. */
  lemma ClassAParent(spec: Spec, n: Node, m: Node)
    requires WellFormed(spec) && n in spec.nodes && m in spec.nodes && ClassA(n)
    requires IsEdge(EdgesOf(spec.nodes), m.id, n.id)
    ensures ClassA(m)
  {
    var e :| e in EdgesOf(spec.nodes) && e.from == m.id && e.to == n.id;
    EdgesMeaning(spec.nodes, e);
    var n' :| n' in spec.nodes && n'.id == e.to && NodeInput(e.from, e.role) in n'.inputs;
    UniqueNode(spec.nodes, n', n);
    var m', t := InputSource(spec, n, NodeInput(e.from, e.role));
    UniqueNode(spec.nodes, m', m);
    ClassASource(n.algorithm, m.algorithm, t);
  }

  /** The source of an edge into a node is itself a node. */
  lemma EdgeParent(spec: Spec, x: string, n: Node) returns (p: Node)
    requires WellFormed(spec) && n in spec.nodes && IsEdge(EdgesOf(spec.nodes), x, n.id)
    ensures p in spec.nodes && p.id == x
  {
    var e :| e in EdgesOf(spec.nodes) && e.from == x && e.to == n.id;
    EdgesMeaning(spec.nodes, e);
    var n' :| n' in spec.nodes && n'.id == e.to && NodeInput(e.from, e.role) in n'.inputs;
    var t;
    p, t := InputSource(spec, n', NodeInput(e.from, e.role));
  }

  /** Every transitive ancestor of a Class A node is Class A. */
  lemma {:induction false} ClassAAncestors(spec: Spec, w: seq<string>, n: Node, m: Node)
    requires WellFormed(spec) && n in spec.nodes && m in spec.nodes && ClassA(n)
    requires IsWalk(EdgesOf(spec.nodes), w) && w[0] == m.id && w[|w| - 1] == n.id
    ensures ClassA(m)
    decreases |w|
  {
    var edges := EdgesOf(spec.nodes);
    if |w| == 1 {
      UniqueNode(spec.nodes, m, n);
    } else {
      assert Step(edges, w, |w| - 2);
      var p := EdgeParent(spec, w[|w| - 2], n);
      ClassAParent(spec, n, p);
      SubWalk(edges, w, 0, |w| - 1);
      ClassAAncestors(spec, w[0..|w| - 1], p, m);
    }
  }

  /** A node reading an input of type `t` has a producer of `t` before it in every valid order. */
  lemma TypedSource(v: Validated, n: Node, t: ProductType) returns (m: Node, role: string)
    requires WellFormed(v.spec) && OrderOk(v) && n in v.spec.nodes
    requires HasInputType(n, OutputsOf(v.spec.nodes), t)
    ensures m in v.spec.nodes && Declares(m, role, t) && Before(v.order, m.id, n.id)
  {
    var i :| i in n.inputs && InputType(OutputsOf(v.spec.nodes), i) == Some(t);
    var t';
    m, t' := InputSource(v.spec, n, i);
    role := i.role;
    InOrder(v, m);
    InOrder(v, n);
    var a :| 0 <= a < |v.order| && v.order[a] == m.id;
    var b :| 0 <= b < |v.order| && v.order[b] == n.id;
    assert IsEdge(v.edges, v.order[a], v.order[b]);
  }

  ghost predicate Before(order: seq<string>, x: string, y: string) {
    exists i, j :: 0 <= i < j < |order| && order[i] == x && order[j] == y
  }

  lemma InOrder(v: Validated, n: Node)
    requires OrderOk(v) && n in v.spec.nodes
    ensures n.id in v.order
  {
    var i :| 0 <= i < |v.spec.nodes| && v.spec.nodes[i] == n;
    assert NodeIds(v.spec.nodes)[i] == n.id;
    MultisetMember(v.order, NodeIds(v.spec.nodes));
  }

  /** The nodes and the permissions behind a declared broker event. */
  ghost predicate BrokerChain(v: Validated, n: Node, staged: Node, risk: Node, recon: Node) {
    && staged in v.spec.nodes && risk in v.spec.nodes && recon in v.spec.nodes
    && (exists role :: Declares(staged, role, StagedOrderSet))
    && (exists role :: Declares(risk, role, RiskDecisionSet))
    && (exists role :: Declares(recon, role, ReconciliationSnapshot))
    && Before(v.order, risk.id, staged.id) && Before(v.order, staged.id, n.id) && Before(v.order, recon.id, n.id)
  }

  /** A node declaring broker events runs only in a submit mode with both permissions, after a
      risk decision, then a staging node, and a reconciliation. */
  lemma BrokerEventChain(v: Validated, n: Node, role: string) returns (staged: Node, risk: Node, recon: Node)
    requires WellFormed(v.spec) && OrderOk(v) && n in v.spec.nodes && Declares(n, role, BrokerEventSet)
    ensures CanSubmit(v.spec.mode) && v.spec.allowExternalWrite && v.spec.allowBrokerResource
    ensures BrokerChain(v, n, staged, risk, recon)
    ensures ClassA(n) && ClassA(staged) && ClassA(risk) && ClassA(recon)
  {
    var index := OutputsOf(v.spec.nodes);
    assert NodeOk(v.spec, n, index);
    BrokerMode(v.spec, n, role);
    var r0, r1, r2;
    staged, r0 := TypedSource(v, n, StagedOrderSet);
    recon, r1 := TypedSource(v, n, ReconciliationSnapshot);
    assert NodeOk(v.spec, staged, index) && NodeOk(v.spec, recon, index);
    risk, r2 := TypedSource(v, staged, RiskDecisionSet);
    assert NodeOk(v.spec, risk, index);
    AuthorityProducers(staged, r0, StagedOrderSet);
    AuthorityProducers(recon, r1, ReconciliationSnapshot);
    AuthorityProducers(risk, r2, RiskDecisionSet);
  }

  /** Only the mock sender declares broker events, and it needs every permission. */
  lemma BrokerMode(spec: Spec, n: Node, role: string)
    requires NodeOk(spec, n, OutputsOf(spec.nodes)) && Declares(n, role, BrokerEventSet)
    ensures n.algorithm.SendMock?
    ensures CanSubmit(spec.mode) && spec.allowExternalWrite && spec.allowBrokerResource
  {
    var alg := LoadAlgorithm(n.algorithm).value;
    assert NodeOutput(role, BrokerEventSet).typ in alg.outputs;
    assert n.algorithm.SendMock?;
    assert alg.resources[1] == Broker;
  }

  lemma AuthorityProducers(n: Node, role: string, t: ProductType)
    requires LoadAlgorithm(n.algorithm).Some? && Declares(n, role, t) && AuthorityProduct(t)
    requires forall o :: o in n.outputs ==> o.typ in LoadAlgorithm(n.algorithm).value.outputs
    ensures ClassA(n)
  {
    assert NodeOutput(role, t).typ in LoadAlgorithm(n.algorithm).value.outputs;
  }
}
