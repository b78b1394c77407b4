/**
 What a run of a validated workflow keeps after each node: typed records, contents
 that replay, and the lineage of deterministic operations.
 */
module RunProgress {
  import opened Wrappers
  import opened Ordering
  import opened CanonicalJson
  import opened Workflow
  import opened Validation
  import opened Lineage
  import opened ProductStore
  import opened Authority
  import opened Executor
  import opened Replay

  // ----- What a run keeps after each node

  /** The tables and the produced outputs of a run in progress. */
  datatype Snap = Snap(products: Products, lineage: seq<Row>, produced: ProducedMap, records: map<string, NodeRecord>)

  predicate DetOp(n: Node) {
    var alg := LoadAlgorithm(n.algorithm);
    alg.Some? && alg.value.deterministic && alg.value.kind.RustOperation?
  }

  ghost predicate OutputReady(h: Hasher, products: Products, m: ProducedMap, n: Node, o: NodeOutput) {
    && (n.id, o.role) in m
    && var p := m[(n.id, o.role)];
       && p.typ == o.typ && p.id in products && products[p.id].typ == o.typ && p.role == o.role
       && (!o.typ.CommandOutput? ==> DomainContent(h, n.id, products[p.id].content))
  }

  ghost predicate NodeReady(h: Hasher, products: Products, m: ProducedMap, n: Node) {
    forall o :: o in n.outputs ==> OutputReady(h, products, m, n, o)
  }

  /** The recorded inputs are stored products of the statically declared types. */
  ghost predicate RecordTyped(products: Products, index: OutputIndex, n: Node, rec: NodeRecord) {
    |rec.inputs| == |n.inputs| && forall i :: 0 <= i < |n.inputs| ==> InputTyped(products, index, n.inputs[i], rec.inputs[i])
  }

  ghost predicate InputTyped(products: Products, index: OutputIndex, input: NodeInput, id: string) {
    id in products && InputType(index, input) == Some(products[id].typ)
  }

  /** The recorded outputs are this node's products, and their contents replay. */
  ghost predicate RecordSound(h: Hasher, products: Products, n: Node, rec: NodeRecord) {
    && rec.status.Succeeded?
    && (forall id :: id in rec.outputs ==> OutputSound(h, products, n, rec, id))
    && (n.algorithm.Noop? ==> NoopMatches(h, products, n, rec))
  }

  ghost predicate OutputSound(h: Hasher, products: Products, n: Node, rec: NodeRecord, id: string) {
    && id in products
    && var row := products[id];
       && row.algorithm == n.algorithm && row.config == ContentHash(h, n.config)
       && (DetOp(n) && !rec.reused && row.typ.CommandOutput? ==>
             ContentHash(h, row.payload) == row.content && ExitCode(row.payload) == 0)
  }

  /** The lineage of a deterministic operation's outputs is exactly its inputs. */
  ghost predicate LineageExact(lineage: seq<Row>, rec: NodeRecord) {
    forall id :: id in rec.outputs ==> multiset(ParentIds(RowsIn(lineage, {id}))) == multiset(rec.inputs)
  }

  /** No deterministic operation found an output among older products. */
  ghost predicate Unreused(spec: Spec, records: map<string, NodeRecord>) {
    forall n :: n in spec.nodes && DetOp(n) && n.id in records ==> !records[n.id].reused
  }

  /** No node reads the same role of the same node twice. */
  ghost predicate NoRepeats(spec: Spec) {
    forall n :: n in spec.nodes ==> Distinct(n.inputs)
  }

  ghost predicate CollisionFree(h: Hasher) {
    forall x, y :: h.sha(x) == h.sha(y) ==> x == y
  }

  predicate RecordedBy(records: map<string, NodeRecord>, from: string, id: string) {
    from in records && id in records[from].outputs
  }

  /** The recorded inputs are outputs that the nodes they come from recorded. */
  ghost predicate InputsListed(n: Node, records: map<string, NodeRecord>)
    requires n.id in records
  {
    && |records[n.id].inputs| == |n.inputs|
    && forall i :: 0 <= i < |n.inputs| ==> RecordedBy(records, n.inputs[i].from, records[n.id].inputs[i])
  }

  /** What was produced is recorded by its node, and so is what was read. */
  ghost predicate Linked(spec: Spec, produced: ProducedMap, records: map<string, NodeRecord>) {
    && (forall key :: key in produced ==> RecordedBy(records, key.0, produced[key].id))
    && (forall n :: n in spec.nodes && n.id in records ==> InputsListed(n, records))
  }

  ghost predicate Progress(h: Hasher, spec: Spec, done: set<string>, s: Snap) {
    && StoreOk(s.products, s.lineage) && s.records.Keys == done && Linked(spec, s.produced, s.records)
    && (forall n :: n in spec.nodes && n.id in done ==>
         && NodeReady(h, s.products, s.produced, n)
         && RecordTyped(s.products, OutputsOf(spec.nodes), n, s.records[n.id])
         && RecordSound(h, s.products, n, s.records[n.id]))
    && (Unreused(spec, s.records) && NoRepeats(spec) && CollisionFree(h) ==>
         forall n :: n in spec.nodes && n.id in done && DetOp(n) ==> LineageExact(s.lineage, s.records[n.id]))
  }

  predicate AnyOlder(ids: seq<string>, older: Products) {
    exists id :: id in ids && id in older
  }

  /** The stored output has the node's source and content. */
  ghost predicate Made(h: Hasher, products: Products, n: Node, payload: Json, out: Produced) {
    && out.id in products
    && var row := products[out.id];
       && row.typ == out.typ && SameSource(h, row, n) && ContentOf(h, n.id, payload, out.typ, row.content)
  }

  lemma AllMade(h: Hasher, products: Products, n: Node, payload: Json, rows: seq<ProductRow>, outs: seq<Produced>)
    requires RowsFrom(h, n, payload, rows) && forall o :: o in outs ==> Stored(products, rows, o)
    ensures forall o :: o in outs ==> Made(h, products, n, payload, o)
  {
    forall o | o in outs ensures Made(h, products, n, payload, o) {
      assert Stored(products, rows, o);
      var k :| 0 <= k < |rows| && SameKey(products[o.id], rows[k]);
      assert rows[k] in rows && RowFrom(h, n, payload, rows[k]);
    }
  }

  lemma AllSourced(h: Hasher, products: Products, n: Node, payload: Json, rows: seq<ProductRow>, outs: seq<Produced>)
    requires RowsFrom(h, n, payload, rows) && forall o :: o in outs ==> Stored(products, rows, o)
    ensures forall id :: id in Ids(outs) ==> id in products && SameSource(h, products[id], n) && HasKey(rows, products[id])
  {
    AllMade(h, products, n, payload, rows, outs);
    forall id | id in Ids(outs) ensures id in products && SameSource(h, products[id], n) && HasKey(rows, products[id]) {
      var i :| 0 <= i < |outs| && Ids(outs)[i] == id;
      assert outs[i] in outs && Made(h, products, n, payload, outs[i]) && Stored(products, rows, outs[i]);
    }
  }

  /** What running `n` on resolved `inputs` did: `rows`, made from `payload`, are stored as `outs`. */
  ghost predicate Ran(h: Hasher, n: Node, s0: Snap, s1: Snap, inputs: seq<Produced>, payload: Json,
                      rows: seq<ProductRow>, outs: seq<Produced>, fallback: string)
  {
    && Saved(h, s0.products, s0.lineage, s1.products, s1.lineage, ParentsFrom(inputs), rows, outs)
    && RowsFrom(h, n, payload, rows)
    && s1.produced == RecordAll(s0.produced, n.id, outs)
    && s1.records == s0.records[n.id :=
         NodeRecord(Succeeded, Ids(inputs), Ids(outs), AnyOlder(Ids(outs), s0.products))]
    && Planned(n.outputs, fallback, outs)
    && |inputs| == |n.inputs|
    && (forall i :: 0 <= i < |inputs| ==> Resolved(s0.produced, n.inputs[i], inputs[i]))
    && (DetOp(n) ==> ExitCode(payload) == 0)
    && (n.algorithm.Noop? ==> payload == NoopPayload(h, n))
  }

  ghost predicate Resolved(m: ProducedMap, input: NodeInput, p: Produced) {
    (input.from, input.role) in m && m[(input.from, input.role)] == p
  }

  // ----- Earlier nodes stay as they were

  lemma ReadyKept(h: Hasher, n: Node, m: Node, s0: Snap, s1: Snap, outs: seq<Produced>)
    requires m.id != n.id && NodeReady(h, s0.products, s0.produced, m)
    requires s1.produced == RecordAll(s0.produced, n.id, outs)
    requires forall p :: p in s0.products ==> p in s1.products && s1.products[p] == s0.products[p]
    ensures NodeReady(h, s1.products, s1.produced, m)
  {
    forall o | o in m.outputs ensures OutputReady(h, s1.products, s1.produced, m, o) {
      assert OutputReady(h, s0.products, s0.produced, m, o);
      RecordOthers(s0.produced, n.id, outs, (m.id, o.role));
    }
  }

  lemma {:induction false} FirstKept(p0: Products, p1: Products, ids: seq<string>)
    requires forall p :: p in p0 ==> p in p1 && p1[p] == p0[p]
    requires forall id :: id in ids ==> id in p0
    ensures FirstCommandOutput(p1, ids) == FirstCommandOutput(p0, ids)
  {
    if ids != [] {
      TailIn(ids);
      FirstKept(p0, p1, ids[1..]);
    }
  }

  lemma RecordKept(h: Hasher, index: OutputIndex, m: Node, rec: NodeRecord, p0: Products, p1: Products)
    requires RecordTyped(p0, index, m, rec) && RecordSound(h, p0, m, rec)
    requires forall p :: p in p0 ==> p in p1 && p1[p] == p0[p]
    ensures RecordTyped(p1, index, m, rec) && RecordSound(h, p1, m, rec)
  {
    forall i | 0 <= i < |m.inputs| ensures InputTyped(p1, index, m.inputs[i], rec.inputs[i]) {
      assert InputTyped(p0, index, m.inputs[i], rec.inputs[i]);
    }
    forall id | id in rec.outputs ensures OutputSound(h, p1, m, rec, id) && id in p0 {
      assert OutputSound(h, p0, m, rec, id);
    }
    FirstKept(p0, p1, rec.outputs);
  }

  // ----- The node just run

  lemma ReadyNew(h: Hasher, n: Node, m: ProducedMap, products: Products, payload: Json, outs: seq<Produced>, fallback: string)
    requires Planned(n.outputs, fallback, outs) && DistinctRoles(n.outputs)
    requires forall p :: p in outs ==> Made(h, products, n, payload, p)
    ensures NodeReady(h, products, RecordAll(m, n.id, outs), n)
  {
    forall o | o in n.outputs ensures OutputReady(h, products, RecordAll(m, n.id, outs), n, o) {
      var j := PlanCovers(m, n.id, n.outputs, fallback, outs, o);
      assert outs[j] in outs && Made(h, products, n, payload, outs[j]);
    }
  }

  lemma SoundNew(h: Hasher, n: Node, s0: Snap, s1: Snap, inputs: seq<Produced>, payload: Json,
                 rows: seq<ProductRow>, outs: seq<Produced>, fallback: string)
    requires Ran(h, n, s0, s1, inputs, payload, rows, outs, fallback)
    ensures RecordSound(h, s1.products, n, s1.records[n.id])
  {
    var rec := s1.records[n.id];
    AllMade(h, s1.products, n, payload, rows, outs);
    forall id | id in rec.outputs ensures OutputSound(h, s1.products, n, rec, id) {
      var i :| 0 <= i < |outs| && Ids(outs)[i] == id;
      assert outs[i] in outs && Made(h, s1.products, n, payload, outs[i]);
      if !rec.reused {
        assert id !in s0.products;
        assert RowFrom(h, n, payload, s1.products[id]);
      }
    }
    if n.algorithm.Noop? {
      assert |OutputRoles(n.outputs, fallback)| > 0;
      assert outs[0] in outs && Made(h, s1.products, n, payload, outs[0]);
      assert rec.outputs[0] == outs[0].id;
    }
  }

  /** Resolved inputs carry the declared types, and domain inputs their producer's payload. */
  lemma InputReady(h: Hasher, spec: Spec, done: set<string>, s: Snap, n: Node, i: nat, p: Produced)
    requires WellFormed(spec) && n in spec.nodes && i < |n.inputs|
    requires n.inputs[i].from in done && Progress(h, spec, done, s)
    requires Resolved(s.produced, n.inputs[i], p)
    ensures InputTyped(s.products, OutputsOf(spec.nodes), n.inputs[i], p.id) && p.role == n.inputs[i].role
    ensures LoadAlgorithm(n.algorithm).Some? && s.products[p.id].typ in LoadAlgorithm(n.algorithm).value.inputs
    ensures !s.products[p.id].typ.CommandOutput? ==>
              DomainContent(h, n.inputs[i].from, s.products[p.id].content)
  {
    assert n.inputs[i] in n.inputs;
    var m, t := InputSource(spec, n, n.inputs[i]);
    var o := NodeOutput(n.inputs[i].role, t);
    assert o in m.outputs && NodeReady(h, s.products, s.produced, m);
    assert OutputReady(h, s.products, s.produced, m, o);
  }

  lemma TypedNew(h: Hasher, spec: Spec, done: set<string>, s: Snap, n: Node, inputs: seq<Produced>)
    requires WellFormed(spec) && n in spec.nodes && Progress(h, spec, done, s)
    requires (forall i :: i in n.inputs ==> i.from in done) && |inputs| == |n.inputs|
    requires forall i :: 0 <= i < |inputs| ==> Resolved(s.produced, n.inputs[i], inputs[i])
    ensures forall i :: 0 <= i < |n.inputs| ==>
              InputTyped(s.products, OutputsOf(spec.nodes), n.inputs[i], Ids(inputs)[i])
  {
    forall i | 0 <= i < |n.inputs|
      ensures InputTyped(s.products, OutputsOf(spec.nodes), n.inputs[i], Ids(inputs)[i])
    {
      assert n.inputs[i] in n.inputs;
      InputReady(h, spec, done, s, n, i, inputs[i]);
    }
  }

  lemma DomainKeysDistinct()
    ensures Distinct(DOMAIN_KEYS)
  {
    var k := DOMAIN_KEYS;
    assert |k[0]| == 11 && |k[1]| == 12 && |k[2]| == 7 && |k[3]| == 15 && |k[4]| == 6 && |k[5]| == 10;
  }

  /** Without digest collisions a domain payload names its node. */
  lemma DomainNode(h: Hasher, a: string, b: string, content: string)
    requires CollisionFree(h) && DomainContent(h, a, content) && DomainContent(h, b, content)
    ensures a == b
  {
    var d :| content == ContentHash(h, DomainPayload(a, d));
    var e :| content == ContentHash(h, DomainPayload(b, e));
    DomainKeysDistinct();
    DomainValuesValid(a, d);
    DomainValuesValid(b, e);
    SamePlaces(DOMAIN_KEYS, DomainValues(a, d), DomainValues(b, e));
    DomainValuesName(a, d, b, e);
  }

  lemma DomainValuesValid(a: string, d: DomainFields)
    ensures forall i :: 0 <= i < 6 ==> Valid(DomainValues(a, d)[i])
  {
  }

  lemma DomainValuesName(a: string, d: DomainFields, b: string, e: DomainFields)
    requires Equivalent(DomainValues(a, d)[2], DomainValues(b, e)[2])
    ensures a == b
  {
  }

  /** A deterministic operation that repeats no input reads distinct (product, role) pairs. */
  lemma ParentsDistinct(h: Hasher, spec: Spec, done: set<string>, s: Snap, n: Node, inputs: seq<Produced>)
    requires WellFormed(spec) && n in spec.nodes && Progress(h, spec, done, s) && DetOp(n)
    requires (forall i :: i in n.inputs ==> i.from in done) && |inputs| == |n.inputs|
    requires forall i :: 0 <= i < |inputs| ==> Resolved(s.produced, n.inputs[i], inputs[i])
    requires Distinct(n.inputs) && CollisionFree(h)
    ensures Distinct(ParentsFrom(inputs))
  {
    var parents := ParentsFrom(inputs);
    forall i, j | 0 <= i < j < |parents| ensures parents[i] != parents[j] {
      assert n.inputs[i] != n.inputs[j];
      ParentsDiffer(h, spec, done, s, n, i, j, inputs[i], inputs[j]);
    }
  }

  /** No deterministic operation reads command output. */
  lemma DetOpInput(n: Node, t: ProductType)
    requires DetOp(n) && t in LoadAlgorithm(n.algorithm).value.inputs
    ensures !t.CommandOutput?
  {
  }

  lemma ParentsDiffer(h: Hasher, spec: Spec, done: set<string>, s: Snap, n: Node, i: nat, j: nat, p: Produced, q: Produced)
    requires WellFormed(spec) && n in spec.nodes && Progress(h, spec, done, s) && DetOp(n) && CollisionFree(h)
    requires (forall x :: x in n.inputs ==> x.from in done) && i < |n.inputs| && j < |n.inputs|
    requires Resolved(s.produced, n.inputs[i], p) && Resolved(s.produced, n.inputs[j], q)
    requires n.inputs[i] != n.inputs[j]
    ensures p.id != q.id || p.role != q.role
  {
    assert n.inputs[i] in n.inputs && n.inputs[j] in n.inputs;
    InputReady(h, spec, done, s, n, i, p);
    InputReady(h, spec, done, s, n, j, q);
    if p.id == q.id {
      DetOpInput(n, s.products[p.id].typ);
      DomainNode(h, n.inputs[i].from, n.inputs[j].from, s.products[p.id].content);
    }
  }

  lemma LineageNew(p0: Products, l0: seq<Row>, p1: Products, l1: seq<Row>, inputs: seq<Produced>, outs: seq<Produced>, rec: NodeRecord)
    requires StoreOk(p0, l0) && Grown(p0, l0, p1, l1, ParentsFrom(inputs), Ids(outs)) && Distinct(ParentsFrom(inputs))
    requires rec.inputs == Ids(inputs) && rec.outputs == Ids(outs)
    requires forall id :: id in Ids(outs) ==> id !in p0
    ensures LineageExact(l1, rec)
  {
    forall id | id in rec.outputs ensures multiset(ParentIds(RowsIn(l1, {id}))) == multiset(rec.inputs) {
      GrownNew(p0, l0, p1, l1, ParentsFrom(inputs), Ids(outs), id);
      assert ParentIds(RowsIn(l1, {id})) == rec.inputs;
    }
  }

  /** A later node leaves an earlier deterministic operation's lineage alone, unless it is
      itself a deterministic operation that reused a product. */
  lemma LineageKept(h: Hasher, n: Node, m: Node, rec: NodeRecord, s0: Snap, s1: Snap,
                    parents: seq<Parent>, payload: Json, rows: seq<ProductRow>, outs: seq<Produced>)
    requires Saved(h, s0.products, s0.lineage, s1.products, s1.lineage, parents, rows, outs)
    requires RowsFrom(h, n, payload, rows)
    requires RecordSound(h, s0.products, m, rec) && LineageExact(s0.lineage, rec) && DetOp(m)
    requires DetOp(n) ==> forall id :: id in Ids(outs) ==> id !in s0.products
    ensures LineageExact(s1.lineage, rec)
  {
    AllSourced(h, s1.products, n, payload, rows, outs);
    forall id | id in rec.outputs
      ensures multiset(ParentIds(RowsIn(s1.lineage, {id}))) == multiset(rec.inputs)
    {
      assert OutputSound(h, s0.products, m, rec, id);
      assert id !in Ids(outs);
    }
  }

  // ----- Who produced what was read

  /** What is recorded was recorded before, or is one of the new outputs. */
  lemma {:induction false} RecordAllFrom(m: ProducedMap, id: string, outs: seq<Produced>, key: (string, string))
    requires key in RecordAll(m, id, outs)
    ensures var p := RecordAll(m, id, outs)[key]; (key in m && m[key] == p) || (key.0 == id && p.id in Ids(outs))
  {
    if outs != [] {
      var front, last := outs[..|outs| - 1], outs[|outs| - 1];
      assert Ids(outs) == Ids(front) + [last.id];
      if key != (id, last.role) {
        RecordAllFrom(m, id, front, key);
      }
    }
  }

  lemma ListedKept(records: map<string, NodeRecord>, id: string, rec: NodeRecord)
    requires id !in records
    ensures forall from, x :: RecordedBy(records, from, x) ==> RecordedBy(records[id := rec], from, x)
  {
  }

  lemma LinkedStep(spec: Spec, n: Node, s0: Snap, s1: Snap, inputs: seq<Produced>, outs: seq<Produced>)
    requires Linked(spec, s0.produced, s0.records) && NodesOk(spec.nodes) && n in spec.nodes && n.id !in s0.records
    requires s1.produced == RecordAll(s0.produced, n.id, outs)
    requires n.id in s1.records && s1.records == s0.records[n.id := s1.records[n.id]]
    requires s1.records[n.id].inputs == Ids(inputs) && s1.records[n.id].outputs == Ids(outs)
    requires |inputs| == |n.inputs| && forall i :: 0 <= i < |inputs| ==> Resolved(s0.produced, n.inputs[i], inputs[i])
    ensures Linked(spec, s1.produced, s1.records)
  {
    ListedKept(s0.records, n.id, s1.records[n.id]);
    forall key | key in s1.produced ensures RecordedBy(s1.records, key.0, s1.produced[key].id) {
      RecordAllFrom(s0.produced, n.id, outs, key);
    }
    forall m | m in spec.nodes && m.id in s1.records ensures InputsListed(m, s1.records) {
      if m.id == n.id {
        UniqueNode(spec.nodes, m, n);
        assert forall i :: 0 <= i < |inputs| ==> Resolved(s0.produced, n.inputs[i], inputs[i]);
      } else {
        assert InputsListed(m, s0.records);
      }
    }
  }

  /** Running one more node keeps everything a run guarantees. */
  lemma Advance(h: Hasher, spec: Spec, done: set<string>, s0: Snap, s1: Snap, n: Node,
                inputs: seq<Produced>, payload: Json, rows: seq<ProductRow>, outs: seq<Produced>,
                fallback: string)
    requires WellFormed(spec) && n in spec.nodes && n.id !in done && Progress(h, spec, done, s0)
    requires forall i :: i in n.inputs ==> i.from in done
    requires Ran(h, n, s0, s1, inputs, payload, rows, outs, fallback)
    ensures Progress(h, spec, done + {n.id}, s1)
  {
    assert s1.records.Keys == done + {n.id};
    LinkedStep(spec, n, s0, s1, inputs, outs);
    TypedNew(h, spec, done, s0, n, inputs);
    AllMade(h, s1.products, n, payload, rows, outs);
    ReadyNew(h, n, s0.produced, s1.products, payload, outs, fallback);
    SoundNew(h, n, s0, s1, inputs, payload, rows, outs, fallback);
    forall m | m in spec.nodes && m.id in done + {n.id}
      ensures NodeReady(h, s1.products, s1.produced, m)
      ensures RecordTyped(s1.products, OutputsOf(spec.nodes), m, s1.records[m.id])
      ensures RecordSound(h, s1.products, m, s1.records[m.id])
    {
      if m.id == n.id {
        UniqueNode(spec.nodes, m, n);
        TypedGrows(OutputsOf(spec.nodes), n, s0.products, s1.products, s1.records[n.id]);
      } else {
        ReadyKept(h, n, m, s0, s1, outs);
        RecordKept(h, OutputsOf(spec.nodes), m, s0.records[m.id], s0.products, s1.products);
      }
    }
    if Unreused(spec, s1.records) && NoRepeats(spec) && CollisionFree(h) {
      AdvanceLineage(h, spec, done, s0, s1, n, inputs, payload, rows, outs, fallback);
    }
  }

  lemma TypedGrows(index: OutputIndex, n: Node, p0: Products, p1: Products, rec: NodeRecord)
    requires |rec.inputs| == |n.inputs|
    requires forall i :: 0 <= i < |n.inputs| ==> InputTyped(p0, index, n.inputs[i], rec.inputs[i])
    requires forall p :: p in p0 ==> p in p1 && p1[p] == p0[p]
    ensures RecordTyped(p1, index, n, rec)
  {
    forall i | 0 <= i < |n.inputs| ensures InputTyped(p1, index, n.inputs[i], rec.inputs[i]) {
      assert InputTyped(p0, index, n.inputs[i], rec.inputs[i]);
    }
  }

  lemma AdvanceLineage(h: Hasher, spec: Spec, done: set<string>, s0: Snap, s1: Snap, n: Node,
                       inputs: seq<Produced>, payload: Json, rows: seq<ProductRow>, outs: seq<Produced>,
                fallback: string)
    requires WellFormed(spec) && n in spec.nodes && n.id !in done && Progress(h, spec, done, s0)
    requires forall i :: i in n.inputs ==> i.from in done
    requires Ran(h, n, s0, s1, inputs, payload, rows, outs, fallback)
    requires Unreused(spec, s1.records) && NoRepeats(spec) && CollisionFree(h)
    ensures forall m :: m in spec.nodes && m.id in done + {n.id} && DetOp(m) ==> LineageExact(s1.lineage, s1.records[m.id])
  {
    assert Unreused(spec, s0.records) by {
      forall m | m in spec.nodes && DetOp(m) && m.id in s0.records ensures !s0.records[m.id].reused {
        assert m.id in s1.records && s1.records[m.id] == s0.records[m.id];
      }
    }
    assert DetOp(n) ==> forall id :: id in Ids(outs) ==> id !in s0.products;
    forall m | m in spec.nodes && m.id in done + {n.id} && DetOp(m)
      ensures LineageExact(s1.lineage, s1.records[m.id])
    {
      if m.id == n.id {
        UniqueNode(spec.nodes, m, n);
        ParentsDistinct(h, spec, done, s0, n, inputs);
        LineageNew(s0.products, s0.lineage, s1.products, s1.lineage, inputs, outs, s1.records[n.id]);
      } else {
        LineageKept(h, n, m, s0.records[m.id], s0, s1, ParentsFrom(inputs), payload, rows, outs);
      }
    }
  }

  // ----- From records to the replay

  lemma CommandExit(stdout: string, stderr: string, code: int, runId: Option<string>)
    ensures ExitCode(CommandPayload(CommandDone(stdout, stderr, code, runId))) == code
  {
    var v := CommandPayload(CommandDone(stdout, stderr, code, runId));
    var ms := v.members;
    assert |ms[0].key| == 6 && |ms[1].key| == 6 && ms[2].key == "exit_code" && |"exit_code"| == 9;
    assert Lookup(ms[2..], "exit_code") == ms[2].value;
    assert Lookup(ms[1..], "exit_code") == Lookup(ms[1..][1..], "exit_code") && ms[1..][1..] == ms[2..];
    assert Lookup(ms, "exit_code") == Lookup(ms[1..], "exit_code");
  }

  lemma NoopOnly(n: Node)
    requires LoadAlgorithm(n.algorithm).Some?
    ensures LoadAlgorithm(n.algorithm).value.kind.NoopTest? <==> n.algorithm.Noop?
  {
  }

  lemma NodeReplay(h: Hasher, s: Snap, n: Node, rec: NodeRecord)
    requires n.id in s.records && s.records[n.id] == rec && LoadAlgorithm(n.algorithm).Some?
    requires RecordSound(h, s.products, n, rec)
    requires DetOp(n) ==> !rec.reused && LineageExact(s.lineage, rec)
    ensures NodeReplays(h, s.products, s.lineage, s.records, n)
  {
    NoopOnly(n);
    if DetOp(n) {
      forall id | id in rec.outputs ensures OutputMatches(h, s.products, s.lineage, n, rec, id) {
        assert OutputSound(h, s.products, n, rec, id);
      }
    }
  }
}
