/**
 The replay program: it accepts a recorded run exactly when every deterministic
 node's record matches the store.
 */
module Replay {
  import opened Wrappers
  import opened Ordering
  import opened CanonicalJson
  import opened Workflow
  import opened Lineage
  import opened ProductStore
  import opened Executor

  // ----- What replay checks

  /** The exit code in a recorded command output; -1 when absent. */
  function ExitCode(payload: Json): int {
    var code := Field(payload, "exit_code");
    if code.Some? && code.value.Int? then code.value.n else -1
  }

  function ParentIds(rows: seq<Row>): (ids: seq<string>)
    ensures |ids| == |rows| && forall i :: 0 <= i < |rows| ==> ids[i] == rows[i].parent
  {
    seq(|rows|, i requires 0 <= i < |rows| => rows[i].parent)
  }

  /** The stored product `id` matches the node that recorded it. */
  ghost predicate OutputMatches(h: Hasher, products: Products, lineage: seq<Row>, node: Node, rec: NodeRecord, id: string) {
    && id in products
    && var row := products[id];
       && row.algorithm == node.algorithm && row.config == ContentHash(h, node.config)
       && multiset(ParentIds(RowsIn(lineage, {id}))) == multiset(rec.inputs)
       && (row.typ.CommandOutput? ==> ContentHash(h, row.payload) == row.content && ExitCode(row.payload) == 0)
  }

  /** The first recorded command output, if any. */
  function FirstCommandOutput(products: Products, ids: seq<string>): Option<ProductRow> {
    if ids == [] then None
    else if ids[0] in products && products[ids[0]].typ.CommandOutput? then Some(products[ids[0]])
    else FirstCommandOutput(products, ids[1..])
  }

  ghost predicate NoopMatches(h: Hasher, products: Products, node: Node, rec: NodeRecord) {
    var first := FirstCommandOutput(products, rec.outputs);
    first.Some? && first.value.content == ContentHash(h, NoopPayload(h, node))
  }

  ghost predicate NodeReplays(h: Hasher, products: Products, lineage: seq<Row>, records: map<string, NodeRecord>, node: Node) {
    var alg := LoadAlgorithm(node.algorithm);
    && alg.Some?
    && (alg.value.deterministic ==>
         && node.id in records && records[node.id].status.Succeeded?
         && (if alg.value.kind.RustOperation?
             then forall id :: id in records[node.id].outputs ==>
                    OutputMatches(h, products, lineage, node, records[node.id], id)
             else NoopMatches(h, products, node, records[node.id])))
  }

  /** Every deterministic node's record matches the store. */
  ghost predicate Replays(h: Hasher, spec: Spec, products: Products, lineage: seq<Row>, records: map<string, NodeRecord>) {
    forall n :: n in spec.nodes ==> NodeReplays(h, products, lineage, records, n)
  }

  datatype ReplayError =
    | UnregisteredAlgorithm | NotSucceeded | MissingProduct | ForeignProduct | ConfigMismatch
    | ParentMismatch | OutputHashMismatch | NonzeroExit | NoCommandOutput

  /** Checks one recorded output. */
  method ReplayOutput(h: Hasher, products: Products, lineage: seq<Row>, node: Node, rec: NodeRecord, id: string)
    returns (r: Result<(), ReplayError>)
    ensures r.Ok? <==> OutputMatches(h, products, lineage, node, rec, id)
  {
    if id !in products {
      return Err(MissingProduct);
    }
    var row := products[id];
    if row.algorithm != node.algorithm {
      return Err(ForeignProduct);
    }
    if row.config != ContentHash(h, node.config) {
      return Err(ConfigMismatch);
    }
    var actual := Sort(ParentIds(RowsIn(lineage, {id})), StrLe);
    var expected := Sort(rec.inputs, StrLe);
    SortStringsCanonical(ParentIds(RowsIn(lineage, {id})), rec.inputs);
    if actual != expected {
      return Err(ParentMismatch);
    }
    if row.typ.CommandOutput? {
      if ContentHash(h, row.payload) != row.content {
        return Err(OutputHashMismatch);
      }
      if ExitCode(row.payload) != 0 {
        return Err(NonzeroExit);
      }
    }
    r := Ok(());
  }

  method ReplayNode(h: Hasher, products: Products, lineage: seq<Row>, records: map<string, NodeRecord>, node: Node)
    returns (r: Result<(), ReplayError>)
    ensures r.Ok? <==> NodeReplays(h, products, lineage, records, node)
  {
    var alg := LoadAlgorithm(node.algorithm);
    if alg.None? {
      return Err(UnregisteredAlgorithm);
    }
    if !alg.value.deterministic {
      return Ok(());
    }
    if node.id !in records || !records[node.id].status.Succeeded? {
      return Err(NotSucceeded);
    }
    var rec := records[node.id];
    if alg.value.kind.RustOperation? {
      for i := 0 to |rec.outputs|
        invariant forall id :: id in rec.outputs[..i] ==> OutputMatches(h, products, lineage, node, rec, id)
      {
        assert rec.outputs[..i + 1] == rec.outputs[..i] + [rec.outputs[i]];
        var one := ReplayOutput(h, products, lineage, node, rec, rec.outputs[i]);
        if one.Err? {
          assert rec.outputs[i] in rec.outputs;
          return one;
        }
      }
      assert rec.outputs[..|rec.outputs|] == rec.outputs;
      return Ok(());
    }
    var first := FirstCommandOutput(products, rec.outputs);
    if first.None? {
      return Err(NoCommandOutput);
    }
    if first.value.content != ContentHash(h, NoopPayload(h, node)) {
      return Err(OutputHashMismatch);
    }
    r := Ok(());
  }

  /** Replay succeeds exactly when every deterministic node's record matches the store. */
  method ReplayWorkflow(h: Hasher, spec: Spec, products: Products, lineage: seq<Row>, records: map<string, NodeRecord>)
    returns (r: Result<(), ReplayError>)
    ensures r.Ok? <==> Replays(h, spec, products, lineage, records)
  {
    for i := 0 to |spec.nodes|
      invariant forall n :: n in spec.nodes[..i] ==> NodeReplays(h, products, lineage, records, n)
    {
      assert spec.nodes[..i + 1] == spec.nodes[..i] + [spec.nodes[i]];
      var one := ReplayNode(h, products, lineage, records, spec.nodes[i]);
      if one.Err? {
        assert spec.nodes[i] in spec.nodes;
        return one;
      }
    }
    assert spec.nodes[..|spec.nodes|] == spec.nodes;
    r := Ok(());
  }
}
