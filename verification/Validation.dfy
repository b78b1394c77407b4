/**
 The workflow validator. Each pass reports the violations it finds; a workflow is
 accepted exactly when it is well formed.
 */
module Validation {
  import opened Wrappers
  import opened Ordering
  import opened Topology
  import opened Modes
  import opened Workflow

  datatype Violation =
    | UnsupportedSpecVersion | WorkflowNameRequired | InvalidMode
    | LayerIdRequired | DuplicateLayer(layer: string) | UnknownParentLayer(layer: string)
    | NodeIdRequired | DuplicateNode(node: string) | DuplicateOutputRole(node: string, role: string)
    | UnknownInputNode(node: string, from: string) | UnknownInputRole(node: string, from: string, role: string)
    | GraphMustBeAcyclic
    | UnknownCellLayer(node: string) | UnknownAlgorithm(node: string)
    | InputContractMismatch(node: string, from: string, role: string)
    | UnknownProductType(node: string, typ: ProductType) | OutputContractMismatch(node: string, typ: ProductType)
    | StagedOrderRequiresApprovedRisk(node: string)
    | BrokerEventRequiresStagedOrder(node: string) | BrokerEventRequiresReconciliation(node: string)
    | NoExternalWrite(algorithm: AlgorithmId) | StageMode(algorithm: AlgorithmId)
    | ResourceMode(resource: Resource) | BrokerResourceMode(resource: Resource)
    | ClassCCannotCreateAuthority(typ: ProductType) | NoClassAFromClassC(typ: ProductType)

  // ----- The output index

  /** The declared type of every (node, role); a later declaration replaces an earlier one. */
  type OutputIndex = map<(string, string), ProductType>

  function AddOutputs(index: OutputIndex, id: string, outputs: seq<NodeOutput>): OutputIndex {
    if outputs == [] then index
    else
      var o := outputs[|outputs| - 1];
      AddOutputs(index, id, outputs[..|outputs| - 1])[(id, o.role) := o.typ]
  }

  function OutputsOf(nodes: seq<Node>): OutputIndex {
    if nodes == [] then map[]
    else AddOutputs(OutputsOf(nodes[..|nodes| - 1]), nodes[|nodes| - 1].id, nodes[|nodes| - 1].outputs)
  }

  /** The declared type an input resolves to, if it resolves. */
  function InputType(index: OutputIndex, input: NodeInput): Option<ProductType> {
    if (input.from, input.role) in index then Some(index[(input.from, input.role)]) else None
  }

  // ----- Well-formed workflows

  ghost predicate DistinctRoles(outputs: seq<NodeOutput>) {
    forall i, j :: 0 <= i < j < |outputs| ==> outputs[i].role != outputs[j].role
  }

  ghost predicate LayersOk(layers: seq<Layer>) {
    && (forall l :: l in layers ==> !Blank(l.name))
    && (forall i, j :: 0 <= i < j < |layers| ==> layers[i].name != layers[j].name)
  }

  ghost predicate ParentsOk(layers: seq<Layer>) {
    forall l :: l in layers && l.parent.Some? ==> exists k :: k in layers && k.name == l.parent.value
  }

  ghost predicate NodesOk(nodes: seq<Node>) {
    && (forall n :: n in nodes ==> !Blank(n.id))
    && Distinct(NodeIds(nodes))
  }

  ghost predicate RolesOk(nodes: seq<Node>) {
    forall n :: n in nodes ==> DistinctRoles(n.outputs)
  }

  ghost predicate InputsResolve(inputs: seq<NodeInput>, index: OutputIndex) {
    forall i :: i in inputs ==> InputType(index, i).Some?
  }

  ghost predicate InputsOk(nodes: seq<Node>, index: OutputIndex) {
    forall n :: n in nodes ==> InputsResolve(n.inputs, index)
  }

  ghost predicate ContractOk(node: Node, alg: Algorithm, index: OutputIndex) {
    && (forall i :: i in node.inputs && InputType(index, i).Some? ==> InputType(index, i).value in alg.inputs)
    && (forall o :: o in node.outputs ==> LoadProductType(o.typ).Some? && o.typ in alg.outputs)
  }

  predicate HasInputType(node: Node, index: OutputIndex, t: ProductType) {
    exists i :: i in node.inputs && InputType(index, i) == Some(t)
  }

  ghost predicate ShapeOk(node: Node, index: OutputIndex) {
    forall o :: o in node.outputs ==>
      && (o.typ.StagedOrderSet? ==> HasInputType(node, index, RiskDecisionSet))
      && (o.typ.BrokerEventSet? ==> HasInputType(node, index, StagedOrderSet)
                                    && HasInputType(node, index, ReconciliationSnapshot))
  }

  ghost predicate ModeOk(id: AlgorithmId, alg: Algorithm, spec: Spec) {
    && (alg.purity.ExternalWrite? ==> CanSubmit(spec.mode) && spec.allowExternalWrite)
    && (id.StageCmd? ==> CanStage(spec.mode))
    && (forall r :: r in alg.resources ==>
          ResourceAllows(r, spec.mode) && (r.Broker? ==> CanSubmit(spec.mode) && spec.allowBrokerResource))
  }

  ghost predicate ClassOk(node: Node, alg: Algorithm, index: OutputIndex) {
    && (alg.hazard.C? ==> forall o :: o in node.outputs ==> !AuthorityProduct(o.typ))
    && (alg.hazard.A? ==> forall i :: i in node.inputs && InputType(index, i).Some? ==>
                                       LoadProductType(InputType(index, i).value) != Some(C))
  }

  ghost predicate NodeOk(spec: Spec, node: Node, index: OutputIndex) {
    && (exists l :: l in spec.layers && l.name == node.layer)
    && LoadAlgorithm(node.algorithm).Some?
    && var alg := LoadAlgorithm(node.algorithm).value;
       && ContractOk(node, alg, index) && ShapeOk(node, index)
       && ModeOk(node.algorithm, alg, spec) && ClassOk(node, alg, index)
  }

  /** Every condition a workflow must meet, checked against the spec alone. */
  ghost predicate WellFormed(spec: Spec) {
    && spec.version == 1 && !Blank(spec.name) && ValidMode(spec.mode)
    && LayersOk(spec.layers) && ParentsOk(spec.layers)
    && NodesOk(spec.nodes) && RolesOk(spec.nodes) && InputsOk(spec.nodes, OutputsOf(spec.nodes))
    && !HasCycle(EdgesOf(spec.nodes))
    && forall n :: n in spec.nodes ==> NodeOk(spec, n, OutputsOf(spec.nodes))
  }

  /** One edge per input, in declaration order. */
  function EdgesInto(node: Node, inputs: seq<NodeInput>): seq<Edge<string>> {
    if inputs == [] then []
    else EdgesInto(node, inputs[..|inputs| - 1])
         + [Edge(inputs[|inputs| - 1].from, node.id, inputs[|inputs| - 1].role)]
  }

  function EdgesOf(nodes: seq<Node>): seq<Edge<string>> {
    if nodes == [] then []
    else EdgesOf(nodes[..|nodes| - 1]) + EdgesInto(nodes[|nodes| - 1], nodes[|nodes| - 1].inputs)
  }

  // ----- The passes

  method CollectLayers(layers: seq<Layer>) returns (found: seq<Violation>, names: set<string>)
    ensures found == [] <==> LayersOk(layers)
    ensures names == set l | l in layers :: l.name
  {
    found, names := [], {};
    for i := 0 to |layers|
      invariant found == [] <==> LayersOk(layers[..i])
      invariant names == set l | l in layers[..i] :: l.name
    {
      var layer := layers[i];
      LayersSnoc(layers, i);
      if Blank(layer.name) {
        found := found + [LayerIdRequired];
      }
      if layer.name in names {
        found := found + [DuplicateLayer(layer.name)];
      }
      names := names + {layer.name};
    }
    assert layers[..|layers|] == layers;
  }

  lemma LayersSnoc(layers: seq<Layer>, i: nat)
    requires i < |layers|
    ensures (set l | l in layers[..i + 1] :: l.name) == (set l | l in layers[..i] :: l.name) + {layers[i].name}
    ensures LayersOk(layers[..i + 1]) <==>
            LayersOk(layers[..i]) && !Blank(layers[i].name)
            && layers[i].name !in (set l | l in layers[..i] :: l.name)
  {
    var xs, x := layers[..i], layers[i];
    assert layers[..i + 1] == xs + [x];
    if x.name in (set l | l in xs :: l.name) {
      var l :| l in xs && l.name == x.name;
      var j :| 0 <= j < |xs| && xs[j] == l;
      assert layers[..i + 1][j].name == layers[..i + 1][i].name;
    } else {
      assert forall j :: 0 <= j < |xs| ==> xs[j] in xs;
    }
    assert LayersOk(layers[..i + 1]) ==> LayersOk(xs) by {
      assert forall j :: 0 <= j < |xs| ==> xs[j] == layers[..i + 1][j];
    }
  }

  method ReferenceLayers(layers: seq<Layer>, names: set<string>) returns (found: seq<Violation>)
    requires names == set l | l in layers :: l.name
    ensures found == [] <==> ParentsOk(layers)
  {
    found := [];
    for i := 0 to |layers|
      invariant found == [] <==> forall l :: l in layers[..i] && l.parent.Some? ==> l.parent.value in names
    {
      assert layers[..i + 1] == layers[..i] + [layers[i]];
      if layers[i].parent.Some? && layers[i].parent.value !in names {
        found := found + [UnknownParentLayer(layers[i].name)];
      }
    }
    assert layers[..|layers|] == layers;
  }

  method CollectNodes(nodes: seq<Node>) returns (found: seq<Violation>, ids: set<string>)
    ensures found == [] <==> NodesOk(nodes)
    ensures ids == Elems(NodeIds(nodes))
  {
    found, ids := [], {};
    for i := 0 to |nodes|
      invariant found == [] <==> (forall n :: n in nodes[..i] ==> !Blank(n.id)) && Distinct(NodeIds(nodes)[..i])
      invariant ids == Elems(NodeIds(nodes)[..i])
    {
      assert nodes[..i + 1] == nodes[..i] + [nodes[i]];
      ElemsSnoc(NodeIds(nodes), i);
      DistinctSnoc(NodeIds(nodes), i);
      if Blank(nodes[i].id) {
        found := found + [NodeIdRequired];
      }
      if nodes[i].id in ids {
        found := found + [DuplicateNode(nodes[i].id)];
      }
      ids := ids + {nodes[i].id};
    }
    assert nodes[..|nodes|] == nodes && NodeIds(nodes)[..|nodes|] == NodeIds(nodes);
  }

  function Roles(outputs: seq<NodeOutput>): (rs: seq<string>)
    ensures |rs| == |outputs| && forall i :: 0 <= i < |outputs| ==> rs[i] == outputs[i].role
  {
    seq(|outputs|, i requires 0 <= i < |outputs| => outputs[i].role)
  }

  lemma OutputsSnoc(index: OutputIndex, id: string, outputs: seq<NodeOutput>, i: nat)
    requires i < |outputs|
    ensures AddOutputs(index, id, outputs[..i + 1])
            == AddOutputs(index, id, outputs[..i])[(id, outputs[i].role) := outputs[i].typ]
  {
    assert outputs[..i + 1][..i] == outputs[..i];
  }

  /** Indexes one node's outputs. */
  method CollectNodeOutputs(node: Node, index0: OutputIndex) returns (found: seq<Violation>, index: OutputIndex)
    ensures found == [] <==> DistinctRoles(node.outputs)
    ensures index == AddOutputs(index0, node.id, node.outputs)
  {
    found, index := [], index0;
    var outputs, seen := node.outputs, {};
    ghost var roles := Roles(outputs);
    for i := 0 to |outputs|
      invariant found == [] <==> Distinct(roles[..i])
      invariant seen == Elems(roles[..i])
      invariant index == AddOutputs(index0, node.id, outputs[..i])
    {
      var o := outputs[i];
      OutputsSnoc(index0, node.id, outputs, i);
      ElemsSnoc(roles, i);
      DistinctSnoc(roles, i);
      if o.role in seen {
        found := found + [DuplicateOutputRole(node.id, o.role)];
      }
      seen := seen + {o.role};
      index := index[(node.id, o.role) := o.typ];
    }
    assert outputs[..|outputs|] == outputs && roles[..|outputs|] == roles;
  }

  method CollectOutputs(nodes: seq<Node>) returns (found: seq<Violation>, index: OutputIndex)
    ensures found == [] <==> RolesOk(nodes)
    ensures index == OutputsOf(nodes)
  {
    found, index := [], map[];
    for i := 0 to |nodes|
      invariant found == [] <==> RolesOk(nodes[..i])
      invariant index == OutputsOf(nodes[..i])
    {
      assert nodes[..i + 1] == nodes[..i] + [nodes[i]];
      var more;
      more, index := CollectNodeOutputs(nodes[i], index);
      found := found + more;
    }
    assert nodes[..|nodes|] == nodes;
  }

  lemma ResolveSnoc(inputs: seq<NodeInput>, index: OutputIndex, i: nat)
    requires i < |inputs|
    ensures InputsResolve(inputs[..i + 1], index)
            <==> InputsResolve(inputs[..i], index) && (inputs[i].from, inputs[i].role) in index
  {
    assert inputs[..i + 1] == inputs[..i] + [inputs[i]];
    assert inputs[i] in inputs[..i + 1];
  }

  method CollectNodeEdges(node: Node, ids: set<string>, index: OutputIndex)
    returns (found: seq<Violation>, edges: seq<Edge<string>>)
    requires forall k :: k in index ==> k.0 in ids
    ensures found == [] <==> InputsResolve(node.inputs, index)
    ensures found == [] ==> edges == EdgesInto(node, node.inputs)
    ensures forall e :: e in edges ==> e.to == node.id && e.from in ids
  {
    found, edges := [], [];
    var inputs := node.inputs;
    for i := 0 to |inputs|
      invariant found == [] <==> InputsResolve(inputs[..i], index)
      invariant found == [] ==> edges == EdgesInto(node, inputs[..i])
      invariant forall e :: e in edges ==> e.to == node.id && e.from in ids
    {
      var input := inputs[i];
      ResolveSnoc(inputs, index, i);
      assert inputs[..i + 1][..i] == inputs[..i];
      if input.from !in ids {
        assert (input.from, input.role).0 !in ids;
        found := found + [UnknownInputNode(node.id, input.from)];
      } else if (input.from, input.role) !in index {
        found := found + [UnknownInputRole(node.id, input.from, input.role)];
      } else {
        edges := edges + [Edge(input.from, node.id, input.role)];
      }
    }
    assert inputs[..|inputs|] == inputs;
  }

  method CollectEdges(nodes: seq<Node>, ids: set<string>, index: OutputIndex)
    returns (found: seq<Violation>, edges: seq<Edge<string>>)
    requires ids == Elems(NodeIds(nodes)) && forall k :: k in index ==> k.0 in ids
    ensures found == [] <==> InputsOk(nodes, index)
    ensures found == [] ==> edges == EdgesOf(nodes)
    ensures Listed(NodeIds(nodes), edges)
  {
    found, edges := [], [];
    for i := 0 to |nodes|
      invariant found == [] <==> InputsOk(nodes[..i], index)
      invariant found == [] ==> edges == EdgesOf(nodes[..i])
      invariant Listed(NodeIds(nodes), edges)
    {
      assert nodes[..i + 1] == nodes[..i] + [nodes[i]];
      var more, into := CollectNodeEdges(nodes[i], ids, index);
      assert NodeIds(nodes)[i] == nodes[i].id;
      found, edges := found + more, edges + into;
    }
    assert nodes[..|nodes|] == nodes;
  }

  lemma {:induction false} IndexNodeKeys(index: OutputIndex, id: string, outputs: seq<NodeOutput>)
    ensures forall k :: k in AddOutputs(index, id, outputs) ==> k in index || k.0 == id
  {
    if outputs != [] {
      IndexNodeKeys(index, id, outputs[..|outputs| - 1]);
    }
  }

  lemma {:induction false} IndexKeys(nodes: seq<Node>)
    ensures forall k :: k in OutputsOf(nodes) ==> k.0 in Elems(NodeIds(nodes))
  {
    if nodes != [] {
      var front, last := nodes[..|nodes| - 1], nodes[|nodes| - 1];
      IndexKeys(front);
      IndexNodeKeys(OutputsOf(front), last.id, last.outputs);
      forall x | x in Elems(NodeIds(front)) ensures x in Elems(NodeIds(nodes)) {
        var i :| 0 <= i < |front| && NodeIds(front)[i] == x;
        assert NodeIds(nodes)[i] == x;
      }
      assert NodeIds(nodes)[|nodes| - 1] == last.id;
    }
  }

  // ----- The checks of one node

  method CheckContract(node: Node, alg: Algorithm, index: OutputIndex) returns (found: seq<Violation>)
    ensures found == [] <==> ContractOk(node, alg, index)
  {
    found := [];
    for i := 0 to |node.inputs|
      invariant found == [] <==> forall x :: x in node.inputs[..i] && InputType(index, x).Some? ==>
        InputType(index, x).value in alg.inputs
    {
      var input := node.inputs[i];
      assert node.inputs[..i + 1] == node.inputs[..i] + [input];
      var t := InputType(index, input);
      if t.Some? && t.value !in alg.inputs {
        found := found + [InputContractMismatch(node.id, input.from, input.role)];
      }
    }
    assert node.inputs[..|node.inputs|] == node.inputs;
    ghost var before := found;
    for i := 0 to |node.outputs|
      invariant found == [] <==> before == [] && forall o :: o in node.outputs[..i] ==>
        LoadProductType(o.typ).Some? && o.typ in alg.outputs
    {
      var o := node.outputs[i];
      assert node.outputs[..i + 1] == node.outputs[..i] + [o];
      if LoadProductType(o.typ).None? {
        found := found + [UnknownProductType(node.id, o.typ)];
      }
      if o.typ !in alg.outputs {
        found := found + [OutputContractMismatch(node.id, o.typ)];
      }
    }
    assert node.outputs[..|node.outputs|] == node.outputs;
  }

  method CheckShape(node: Node, index: OutputIndex) returns (found: seq<Violation>)
    ensures found == [] <==> ShapeOk(node, index)
  {
    found := [];
    for i := 0 to |node.outputs|
      invariant found == [] <==> ShapeOk(node.(outputs := node.outputs[..i]), index)
    {
      assert node.outputs[..i + 1] == node.outputs[..i] + [node.outputs[i]];
      match node.outputs[i].typ
      case StagedOrderSet =>
        if !HasInputType(node, index, RiskDecisionSet) {
          found := found + [StagedOrderRequiresApprovedRisk(node.id)];
        }
      case BrokerEventSet =>
        if !HasInputType(node, index, StagedOrderSet) {
          found := found + [BrokerEventRequiresStagedOrder(node.id)];
        }
        if !HasInputType(node, index, ReconciliationSnapshot) {
          found := found + [BrokerEventRequiresReconciliation(node.id)];
        }
      case _ =>
    }
    assert node.(outputs := node.outputs[..|node.outputs|]) == node;
  }

  method CheckMode(id: AlgorithmId, alg: Algorithm, spec: Spec) returns (found: seq<Violation>)
    ensures found == [] <==> ModeOk(id, alg, spec)
  {
    found := [];
    if alg.purity.ExternalWrite? && (!CanSubmit(spec.mode) || !spec.allowExternalWrite) {
      found := found + [NoExternalWrite(id)];
    }
    if id.StageCmd? && !CanStage(spec.mode) {
      found := found + [StageMode(id)];
    }
    ghost var before := found;
    for i := 0 to |alg.resources|
      invariant found == [] <==> before == [] && forall r :: r in alg.resources[..i] ==>
        ResourceAllows(r, spec.mode) && (r.Broker? ==> CanSubmit(spec.mode) && spec.allowBrokerResource)
    {
      var r := alg.resources[i];
      assert alg.resources[..i + 1] == alg.resources[..i] + [r];
      if !ResourceAllows(r, spec.mode) {
        found := found + [ResourceMode(r)];
      }
      if r.Broker? && (!CanSubmit(spec.mode) || !spec.allowBrokerResource) {
        found := found + [BrokerResourceMode(r)];
      }
    }
    assert alg.resources[..|alg.resources|] == alg.resources;
  }

  method CheckClasses(node: Node, alg: Algorithm, index: OutputIndex) returns (found: seq<Violation>)
    ensures found == [] <==> ClassOk(node, alg, index)
  {
    found := [];
    if alg.hazard.C? {
      for i := 0 to |node.outputs|
        invariant found == [] <==> forall o :: o in node.outputs[..i] ==> !AuthorityProduct(o.typ)
      {
        assert node.outputs[..i + 1] == node.outputs[..i] + [node.outputs[i]];
        if AuthorityProduct(node.outputs[i].typ) {
          found := found + [ClassCCannotCreateAuthority(node.outputs[i].typ)];
        }
      }
      assert node.outputs[..|node.outputs|] == node.outputs;
    }
    ghost var before := found;
    for i := 0 to |node.inputs|
      invariant found == [] <==> before == [] && (alg.hazard.A? ==>
        forall x :: x in node.inputs[..i] && InputType(index, x).Some? ==>
          LoadProductType(InputType(index, x).value) != Some(C))
    {
      assert node.inputs[..i + 1] == node.inputs[..i] + [node.inputs[i]];
      var t := InputType(index, node.inputs[i]);
      if t.Some? && alg.hazard.A? && LoadProductType(t.value) == Some(C) {
        found := found + [NoClassAFromClassC(t.value)];
      }
    }
    assert node.inputs[..|node.inputs|] == node.inputs;
  }

  method ValidateNode(spec: Spec, node: Node, names: set<string>, index: OutputIndex) returns (found: seq<Violation>)
    requires names == set l | l in spec.layers :: l.name
    ensures found == [] <==> NodeOk(spec, node, index)
  {
    found := [];
    if node.layer !in names {
      found := found + [UnknownCellLayer(node.id)];
    }
    assert node.layer in names <==> exists l :: l in spec.layers && l.name == node.layer;
    var alg := LoadAlgorithm(node.algorithm);
    if alg.None? {
      return found + [UnknownAlgorithm(node.id)];
    }
    var contract := CheckContract(node, alg.value, index);
    var shape := CheckShape(node, index);
    var mode := CheckMode(node.algorithm, alg.value, spec);
    var classes := CheckClasses(node, alg.value, index);
    found := found + contract + shape + mode + classes;
  }

  method ValidateNodes(spec: Spec, names: set<string>, index: OutputIndex) returns (found: seq<Violation>)
    requires names == set l | l in spec.layers :: l.name
    ensures found == [] <==> forall n :: n in spec.nodes ==> NodeOk(spec, n, index)
  {
    found := [];
    for i := 0 to |spec.nodes|
      invariant found == [] <==> forall n :: n in spec.nodes[..i] ==> NodeOk(spec, n, index)
    {
      assert spec.nodes[..i + 1] == spec.nodes[..i] + [spec.nodes[i]];
      var more := ValidateNode(spec, spec.nodes[i], names, index);
      found := found + more;
    }
    assert spec.nodes[..|spec.nodes|] == spec.nodes;
  }

  /** A validated workflow with its order and edges. */
  datatype Validated = Validated(spec: Spec, order: seq<string>, edges: seq<Edge<string>>)

  /** The order of a validated workflow lists its nodes once, every edge forward. */
  ghost predicate OrderOk(v: Validated) {
    && v.edges == EdgesOf(v.spec.nodes)
    && multiset(v.order) == multiset(NodeIds(v.spec.nodes)) && Distinct(v.order)
    && Forward(v.order, v.edges)
  }

  /** The validator accepts exactly the well-formed workflows. */
  method ValidateWorkflow(spec: Spec) returns (found: seq<Violation>, r: Option<Validated>)
    ensures r.Some? <==> found == []
    ensures r.Some? <==> WellFormed(spec)
    ensures r.Some? ==> r.value.spec == spec && OrderOk(r.value)
  {
    found := [];
    if spec.version != 1 {
      found := found + [UnsupportedSpecVersion];
    }
    if Blank(spec.name) {
      found := found + [WorkflowNameRequired];
    }
    if !ValidMode(spec.mode) {
      found := found + [InvalidMode];
    }
    var layerViolations, names := CollectLayers(spec.layers);
    var nodeViolations, ids := CollectNodes(spec.nodes);
    var outputViolations, index := CollectOutputs(spec.nodes);
    var parentViolations := ReferenceLayers(spec.layers, names);
    IndexKeys(spec.nodes);
    var edgeViolations, edges := CollectEdges(spec.nodes, ids, index);
    var sorted := TopologicalOrder(NodeIds(spec.nodes), edges, StrLe);
    found := found + layerViolations + nodeViolations + outputViolations + parentViolations + edgeViolations;
    if sorted.Err? {
      found := found + [GraphMustBeAcyclic];
    }
    var checks := ValidateNodes(spec, names, index);
    found := found + checks;
    r := if found == [] then Some(Validated(spec, sorted.value, edges)) else None;
  }
}
