/**
 Products found instead of stored: which rows a run plans, when their keys are
 fresh, and exactly when a run that reused products still replays.
 */
module Reuse {
  import opened Wrappers
  import opened Ordering
  import opened Topology
  import opened CanonicalJson
  import opened Workflow
  import opened Validation
  import opened Lineage
  import opened ProductStore
  import opened Authority
  import opened Executor
  import opened Replay
  import opened RunProgress

  // ----- Fresh keys

  ghost predicate NodesApart(s: Session, m: Node, n: Node) {
    forall a, b :: a in PlannedRows(s, m) && b in PlannedRows(s, n) ==> !SameKey(a, b)
  }

  /** No node plans a row under the key of another node's row, if either is a deterministic operation. */
  ghost predicate Apart(s: Session, spec: Spec) {
    forall m, n :: m in spec.nodes && n in spec.nodes && DetOp(n) && m.id != n.id ==> NodesApart(s, m, n)
  }

  /** Nor is the key of any row a deterministic operation plans taken in the store. */
  ghost predicate Fresh(s: Session, spec: Spec, products: Products) {
    && Apart(s, spec)
    && forall n, row :: n in spec.nodes && DetOp(n) && row in PlannedRows(s, n) ==> !KeyTaken(products, row)
  }

  // ----- What one node did to the store

  function OwnParents(n: Node, rec: NodeRecord): (parents: seq<Parent>)
    requires |rec.inputs| == |n.inputs|
    ensures |parents| == |n.inputs|
    ensures forall i :: 0 <= i < |parents| ==> parents[i] == Parent(rec.inputs[i], n.inputs[i].role)
  {
    seq(|n.inputs|, i requires 0 <= i < |n.inputs| => Parent(rec.inputs[i], n.inputs[i].role))
  }

  /** The node's command, if it has one, exits cleanly. */
  predicate CleanExecution(s: Session, n: Node) {
    var exec := ExecutionOf(s, n);
    exec.Some? && (exec.value.CommandExecution? ==> exec.value.exitCode == 0)
  }

  ghost predicate OutputKeyed(s: Session, n: Node, products: Products, id: string) {
    id in products && HasKey(PlannedRows(s, n), products[id])
  }

  ghost predicate FirstIsCommand(products: Products, rec: NodeRecord) {
    rec.outputs != [] && rec.outputs[0] in products && products[rec.outputs[0]].typ.CommandOutput?
  }

  /** The node stored its planned rows, or found their keys, and recorded its inputs on them. */
  ghost predicate Stepped(s: Session, n: Node, p0: Products, l0: seq<Row>, p1: Products, l1: seq<Row>, rec: NodeRecord) {
    && Keeps(p0, p1) && CleanExecution(s, n)
    && |rec.inputs| == |n.inputs| && FirstIsCommand(p1, rec)
    && (NoRepeatedInput(n) && CollisionFree(s.h) && DetOp(n) ==> Distinct(OwnParents(n, rec)))
    && (forall id :: id in p1 && id !in p0 ==> NewRow(s.h, id, p1[id], OwnParents(n, rec), PlannedRows(s, n)))
    && (forall id :: id in rec.outputs ==> OutputKeyed(s, n, p1, id))
    && (rec.reused ==> exists id :: id in rec.outputs && id in p0)
    && LineageStepped(n, l0, l1, rec)
  }

  ghost predicate LineageStepped(n: Node, l0: seq<Row>, l1: seq<Row>, rec: NodeRecord)
    requires |rec.inputs| == |n.inputs|
  {
    && (forall c :: c !in rec.outputs ==> RowsIn(l1, {c}) == RowsIn(l0, {c}))
    && (forall c :: c in rec.outputs ==> RowsIn(l1, {c}) == InsertParents(RowsIn(l0, {c}), c, OwnParents(n, rec)))
  }

  ghost predicate NoRepeatedInput(n: Node) { Distinct(n.inputs) }

  lemma RanParents(s: Session, spec: Spec, done: set<string>, s0: Snap, n: Node, inputs: seq<Produced>, rec: NodeRecord)
    requires WellFormed(spec) && n in spec.nodes && Progress(s.h, spec, done, s0)
    requires (forall i :: i in n.inputs ==> i.from in done) && |inputs| == |n.inputs|
    requires forall i :: 0 <= i < |inputs| ==> Resolved(s0.produced, n.inputs[i], inputs[i])
    requires rec.inputs == Ids(inputs)
    ensures ParentsFrom(inputs) == OwnParents(n, rec)
    ensures NoRepeatedInput(n) && CollisionFree(s.h) && DetOp(n) ==> Distinct(OwnParents(n, rec))
  {
    forall i | 0 <= i < |n.inputs| ensures inputs[i].role == n.inputs[i].role {
      assert n.inputs[i] in n.inputs;
      InputReady(s.h, spec, done, s0, n, i, inputs[i]);
    }
    assert ParentsFrom(inputs) == OwnParents(n, rec);
    if NoRepeatedInput(n) && CollisionFree(s.h) && DetOp(n) {
      ParentsDistinct(s.h, spec, done, s0, n, inputs);
    }
  }

  lemma StoredKeyed(s: Session, n: Node, products: Products, outs: seq<Produced>)
    requires forall o :: o in outs ==> Stored(products, PlannedRows(s, n), o)
    ensures forall id :: id in Ids(outs) ==> OutputKeyed(s, n, products, id)
  {
    forall id | id in Ids(outs) ensures OutputKeyed(s, n, products, id) {
      var i :| 0 <= i < |outs| && Ids(outs)[i] == id;
      assert outs[i] in outs && Stored(products, PlannedRows(s, n), outs[i]);
    }
  }

  lemma SavedStepped(s: Session, n: Node, p0: Products, l0: seq<Row>, p1: Products, l1: seq<Row>,
                     outs: seq<Produced>, rec: NodeRecord)
    requires |rec.inputs| == |n.inputs| && outs != [] && outs[0].typ.CommandOutput? && CleanExecution(s, n)
    requires NoRepeatedInput(n) && CollisionFree(s.h) && DetOp(n) ==> Distinct(OwnParents(n, rec))
    requires Saved(s.h, p0, l0, p1, l1, OwnParents(n, rec), PlannedRows(s, n), outs)
    requires rec.outputs == Ids(outs) && rec.reused == AnyOlder(Ids(outs), p0)
    ensures Stepped(s, n, p0, l0, p1, l1, rec)
  {
    StoredKeyed(s, n, p1, outs);
    assert outs[0] in outs && rec.outputs[0] == outs[0].id && Stored(p1, PlannedRows(s, n), outs[0]);
    GrownLineage(n, p0, l0, p1, l1, rec);
  }

  lemma GrownLineage(n: Node, p0: Products, l0: seq<Row>, p1: Products, l1: seq<Row>, rec: NodeRecord)
    requires |rec.inputs| == |n.inputs| && Grown(p0, l0, p1, l1, OwnParents(n, rec), rec.outputs)
    ensures LineageStepped(n, l0, l1, rec)
  {
  }

  lemma RanStepped(s: Session, spec: Spec, done: set<string>, s0: Snap, s1: Snap, n: Node,
                   inputs: seq<Produced>, payload: Json, outs: seq<Produced>, fallback: string)
    requires WellFormed(spec) && n in spec.nodes && Progress(s.h, spec, done, s0)
    requires forall i :: i in n.inputs ==> i.from in done
    requires Ran(s.h, n, s0, s1, inputs, payload, PlannedRows(s, n), outs, fallback) && CleanExecution(s, n)
    ensures Stepped(s, n, s0.products, s0.lineage, s1.products, s1.lineage, s1.records[n.id])
  {
    RanParents(s, spec, done, s0, n, inputs, s1.records[n.id]);
    assert |OutputRoles(n.outputs, fallback)| > 0;
    SavedStepped(s, n, s0.products, s0.lineage, s1.products, s1.lineage, outs, s1.records[n.id]);
  }

  // ----- What a run has done so far

  /** The product is a row that some node of the run planned, under the id that the row gets. */
  ghost predicate FromRun(s: Session, spec: Spec, id: string, row: ProductRow, records: map<string, NodeRecord>) {
    exists m, parents :: m in spec.nodes && m.id in records && NewRow(s.h, id, row, parents, PlannedRows(s, m))
  }

  ghost predicate ListedBy(spec: Spec, records: map<string, NodeRecord>, id: string) {
    exists m :: m in spec.nodes && m.id in records && id in records[m.id].outputs
  }

  ghost predicate RecordTracked(s: Session, n: Node, products: Products, rec: NodeRecord) {
    && |rec.inputs| == |n.inputs| && FirstIsCommand(products, rec) && CleanExecution(s, n)
    && (NoRepeatedInput(n) && CollisionFree(s.h) && DetOp(n) ==> Distinct(OwnParents(n, rec)))
    && forall id :: id in rec.outputs ==> OutputKeyed(s, n, products, id)
  }

  /** The lineage of an output is what the store had on it, and the node's inputs. */
  ghost predicate LineageTracked(n: Node, rec: NodeRecord, l0: seq<Row>, l: seq<Row>)
    requires |rec.inputs| == |n.inputs|
  {
    forall id :: id in rec.outputs ==> RowsIn(l, {id}) == InsertParents(RowsIn(l0, {id}), id, OwnParents(n, rec))
  }

  /** A run that started from `p0` and `l0` and has reached `p` and `l`. */
  ghost predicate Tracked(s: Session, spec: Spec, p0: Products, l0: seq<Row>, p: Products, l: seq<Row>,
                          records: map<string, NodeRecord>)
  {
    && Keeps(p0, p)
    && (forall id :: id in p && id !in p0 ==> FromRun(s, spec, id, p[id], records))
    && (forall n :: n in spec.nodes && n.id in records ==> RecordTracked(s, n, p, records[n.id]))
    && (forall c :: !ListedBy(spec, records, c) ==> RowsIn(l, {c}) == RowsIn(l0, {c}))
    && (Apart(s, spec) ==> forall n :: n in spec.nodes && n.id in records && DetOp(n) ==>
          |records[n.id].inputs| == |n.inputs| && LineageTracked(n, records[n.id], l0, l))
    && (Fresh(s, spec, p0) ==> Unreused(spec, records))
  }

  lemma TrackedNone(s: Session, spec: Spec, p0: Products, l0: seq<Row>)
    ensures Tracked(s, spec, p0, l0, p0, l0, map[])
  {
  }

  lemma ApartLists(a: seq<ProductRow>, b: seq<ProductRow>, r: ProductRow)
    requires (forall x, y :: x in a && y in b ==> !SameKey(x, y)) && HasKey(a, r)
    ensures !HasKey(b, r)
  {
    var j :| 0 <= j < |a| && SameKey(r, a[j]);
    forall k | 0 <= k < |b| ensures !SameKey(r, b[k]) {
      assert a[j] in a && b[k] in b;
    }
  }

  lemma ApartMeans(s: Session, m: Node, n: Node)
    requires NodesApart(s, m, n)
    ensures forall x, y :: x in PlannedRows(s, m) && y in PlannedRows(s, n) ==> !SameKey(x, y) && !SameKey(y, x)
  {
  }

  lemma PlansApart(s: Session, spec: Spec, m: Node, n: Node)
    requires Apart(s, spec) && m in spec.nodes && n in spec.nodes && (DetOp(m) || DetOp(n)) && m.id != n.id
    ensures forall x, y :: x in PlannedRows(s, m) && y in PlannedRows(s, n) ==> !SameKey(x, y)
  {
    if DetOp(n) {
      ApartMeans(s, m, n);
    } else {
      ApartMeans(s, n, m);
    }
  }

  /** Nodes apart share no output. */
  lemma OutputsApart(s: Session, spec: Spec, products: Products, m: Node, n: Node, id: string)
    requires Apart(s, spec) && m in spec.nodes && n in spec.nodes && (DetOp(m) || DetOp(n)) && m.id != n.id
    requires OutputKeyed(s, m, products, id)
    ensures !OutputKeyed(s, n, products, id)
  {
    PlansApart(s, spec, m, n);
    ApartLists(PlannedRows(s, m), PlannedRows(s, n), products[id]);
  }

  lemma KeyedLater(s: Session, n: Node, p0: Products, p1: Products, id: string)
    requires OutputKeyed(s, n, p0, id) && Keeps(p0, p1)
    ensures OutputKeyed(s, n, p1, id)
  {
  }

  /** One more node. */
  ghost predicate NextNode(s: Session, spec: Spec, p1: Products, l1: seq<Row>, p2: Products, l2: seq<Row>,
                           r1: map<string, NodeRecord>, r2: map<string, NodeRecord>, n: Node)
  {
    && NodesOk(spec.nodes) && n in spec.nodes && n.id !in r1 && n.id in r2 && r2 == r1[n.id := r2[n.id]]
    && Stepped(s, n, p1, l1, p2, l2, r2[n.id])
  }

  lemma RecordsTrackedStep(s: Session, spec: Spec, p0: Products, l0: seq<Row>, p1: Products, l1: seq<Row>,
                           p2: Products, l2: seq<Row>, r1: map<string, NodeRecord>, r2: map<string, NodeRecord>, n: Node)
    requires Tracked(s, spec, p0, l0, p1, l1, r1) && NextNode(s, spec, p1, l1, p2, l2, r1, r2, n)
    ensures forall m :: m in spec.nodes && m.id in r2 ==> RecordTracked(s, m, p2, r2[m.id])
    ensures forall id :: id in p2 && id !in p0 ==> FromRun(s, spec, id, p2[id], r2)
    ensures forall c :: !ListedBy(spec, r2, c) ==> RowsIn(l2, {c}) == RowsIn(l0, {c})
  {
    forall m | m in spec.nodes && m.id in r2 ensures RecordTracked(s, m, p2, r2[m.id]) {
      if m.id == n.id {
        UniqueNode(spec.nodes, m, n);
      } else {
        assert RecordTracked(s, m, p1, r1[m.id]);
        forall id | id in r2[m.id].outputs ensures OutputKeyed(s, m, p2, id) {
          KeyedLater(s, m, p1, p2, id);
        }
      }
    }
    forall id | id in p2 && id !in p0 ensures FromRun(s, spec, id, p2[id], r2) {
      if id in p1 {
        var m, parents :| m in spec.nodes && m.id in r1 && NewRow(s.h, id, p1[id], parents, PlannedRows(s, m));
        assert m.id in r2;
      }
    }
    forall c | !ListedBy(spec, r2, c) ensures RowsIn(l2, {c}) == RowsIn(l0, {c}) {
      assert c !in r2[n.id].outputs;
      ListedStays(spec, r1, r2, n, c);
    }
  }

  lemma ListedStays(spec: Spec, r1: map<string, NodeRecord>, r2: map<string, NodeRecord>, n: Node, c: string)
    requires n.id !in r1 && n.id in r2 && r2 == r1[n.id := r2[n.id]]
    ensures ListedBy(spec, r1, c) ==> ListedBy(spec, r2, c)
  {
    if ListedBy(spec, r1, c) {
      var m :| m in spec.nodes && m.id in r1 && c in r1[m.id].outputs;
      assert m.id in r2 && r2[m.id] == r1[m.id];
    }
  }

  lemma LineageTrackedStep(s: Session, spec: Spec, p0: Products, l0: seq<Row>, p1: Products, l1: seq<Row>,
                           p2: Products, l2: seq<Row>, r1: map<string, NodeRecord>, r2: map<string, NodeRecord>,
                           n: Node, m: Node)
    requires Tracked(s, spec, p0, l0, p1, l1, r1) && NextNode(s, spec, p1, l1, p2, l2, r1, r2, n)
    requires Apart(s, spec) && m in spec.nodes && m.id in r2 && DetOp(m)
    ensures |r2[m.id].inputs| == |m.inputs| && LineageTracked(m, r2[m.id], l0, l2)
  {
    if m.id == n.id {
      UniqueNode(spec.nodes, m, n);
      forall id | id in r2[n.id].outputs ensures RowsIn(l1, {id}) == RowsIn(l0, {id}) {
        NotListedYet(s, spec, p0, l0, p1, l1, p2, l2, r1, r2, n, id);
      }
    } else {
      assert RecordTracked(s, m, p1, r1[m.id]) && LineageTracked(m, r1[m.id], l0, l1);
      forall id | id in r2[m.id].outputs ensures RowsIn(l2, {id}) == RowsIn(l1, {id}) {
        KeyedLater(s, m, p1, p2, id);
        OutputsApart(s, spec, p2, m, n, id);
      }
    }
  }

  /** What a deterministic operation stores or finds, no earlier node listed. */
  lemma NotListedYet(s: Session, spec: Spec, p0: Products, l0: seq<Row>, p1: Products, l1: seq<Row>,
                     p2: Products, l2: seq<Row>, r1: map<string, NodeRecord>, r2: map<string, NodeRecord>,
                     n: Node, id: string)
    requires Tracked(s, spec, p0, l0, p1, l1, r1) && NextNode(s, spec, p1, l1, p2, l2, r1, r2, n)
    requires Apart(s, spec) && DetOp(n) && id in r2[n.id].outputs
    ensures !ListedBy(spec, r1, id)
  {
    if ListedBy(spec, r1, id) {
      var m :| m in spec.nodes && m.id in r1 && id in r1[m.id].outputs;
      assert RecordTracked(s, m, p1, r1[m.id]);
      KeyedLater(s, m, p1, p2, id);
      OutputsApart(s, spec, p2, m, n, id);
      assert false;
    }
  }

  /** With fresh keys a deterministic operation finds nothing. */
  lemma FreshFindsNothing(s: Session, spec: Spec, p0: Products, l0: seq<Row>, p1: Products, l1: seq<Row>,
                          p2: Products, l2: seq<Row>, r1: map<string, NodeRecord>, r2: map<string, NodeRecord>, n: Node)
    requires Tracked(s, spec, p0, l0, p1, l1, r1) && NextNode(s, spec, p1, l1, p2, l2, r1, r2, n)
    requires Fresh(s, spec, p0) && DetOp(n)
    ensures !r2[n.id].reused
  {
    forall id | id in r2[n.id].outputs ensures id !in p1 {
      assert OutputKeyed(s, n, p2, id);
      var k :| 0 <= k < |PlannedRows(s, n)| && SameKey(p2[id], PlannedRows(s, n)[k]);
      assert PlannedRows(s, n)[k] in PlannedRows(s, n);
      assert id in p0 ==> KeyTaken(p0, PlannedRows(s, n)[k]);
      assert id in p1 && id !in p0 ==> FromRun(s, spec, id, p1[id], r1);
      assert forall m :: m in spec.nodes && m.id in r1 ==> NodesApart(s, m, n);
    }
  }

  lemma UnreusedStep(spec: Spec, r1: map<string, NodeRecord>, r2: map<string, NodeRecord>, n: Node)
    requires Unreused(spec, r1) && NodesOk(spec.nodes) && n in spec.nodes
    requires n.id in r2 && r2 == r1[n.id := r2[n.id]] && (DetOp(n) ==> !r2[n.id].reused)
    ensures Unreused(spec, r2)
  {
    forall m | m in spec.nodes && DetOp(m) && m.id in r2 ensures !r2[m.id].reused {
      if m.id == n.id {
        UniqueNode(spec.nodes, m, n);
      }
    }
  }

  lemma KeepsStep(p0: Products, p1: Products, p2: Products)
    requires Keeps(p0, p1) && Keeps(p1, p2)
    ensures Keeps(p0, p2)
  {
  }

  lemma TrackedStep(s: Session, spec: Spec, p0: Products, l0: seq<Row>, p1: Products, l1: seq<Row>,
                    p2: Products, l2: seq<Row>, r1: map<string, NodeRecord>, r2: map<string, NodeRecord>, n: Node)
    requires Tracked(s, spec, p0, l0, p1, l1, r1) && NextNode(s, spec, p1, l1, p2, l2, r1, r2, n)
    ensures Tracked(s, spec, p0, l0, p2, l2, r2)
  {
    KeepsStep(p0, p1, p2);
    RecordsTrackedStep(s, spec, p0, l0, p1, l1, p2, l2, r1, r2, n);
    if Apart(s, spec) {
      forall m | m in spec.nodes && m.id in r2 && DetOp(m)
        ensures |r2[m.id].inputs| == |m.inputs| && LineageTracked(m, r2[m.id], l0, l2)
      {
        LineageTrackedStep(s, spec, p0, l0, p1, l1, p2, l2, r1, r2, n, m);
      }
    }
    if Fresh(s, spec, p0) {
      if DetOp(n) {
        FreshFindsNothing(s, spec, p0, l0, p1, l1, p2, l2, r1, r2, n);
      }
      UnreusedStep(spec, r1, r2, n);
    }
  }

  // ----- Exactly when a run that reused products replays

  /** Every lineage row that a deterministic operation's output already had is one the operation records itself. */
  ghost predicate ReuseAgrees(spec: Spec, l0: seq<Row>, records: map<string, NodeRecord>) {
    forall n :: n in spec.nodes && DetOp(n) && n.id in records ==> NodeAgrees(n, l0, records[n.id])
  }

  ghost predicate NodeAgrees(n: Node, l0: seq<Row>, rec: NodeRecord) {
    forall id :: id in rec.outputs ==> OutputAgrees(n, l0, rec, id)
  }

  ghost predicate OutputAgrees(n: Node, l0: seq<Row>, rec: NodeRecord, id: string) {
    |rec.inputs| == |n.inputs| &&
    forall row :: row in l0 && row.child == id ==> Parent(row.parent, row.role) in OwnParents(n, rec)
  }

  /** Stored command outputs carry the digest of their payload. */
  ghost predicate Honest(h: Hasher, products: Products) {
    forall id :: id in products && products[id].typ.CommandOutput? ==>
      Valid(products[id].payload) && ContentHash(h, products[id].payload) == products[id].content
  }

  lemma {:induction false} RowsInDistinct(rows: seq<Row>, s: set<string>)
    requires Distinct(rows)
    ensures Distinct(RowsIn(rows, s))
  {
    if rows != [] {
      RowsInDistinct(rows[1..], s);
      RowsInMembers(rows[1..], s);
      assert rows == [rows[0]] + rows[1..];
      var rest := RowsIn(rows[1..], s);
      forall k | 0 <= k < |rest| ensures rest[k] != rows[0] {
        assert rest[k] in rest && rest[k] in rows[1..];
      }
    }
  }

  lemma {:induction false} InsertDistinct(rows: seq<Row>, child: string, parents: seq<Parent>)
    requires Distinct(rows)
    ensures Distinct(InsertParents(rows, child, parents))
  {
    if parents != [] {
      InsertDistinct(rows, child, parents[..|parents| - 1]);
    }
  }

  lemma ParentsWithout(b: seq<Row>, j: nat)
    requires j < |b|
    ensures multiset(ParentIds(b)) == multiset(ParentIds(b[..j] + b[j + 1..])) + multiset{b[j].parent}
  {
    RemoveAt(ParentIds(b), j);
    assert ParentIds(b[..j] + b[j + 1..]) == ParentIds(b)[..j] + ParentIds(b)[j + 1..];
  }

  lemma FirstMoved<T>(a: seq<T>, b: seq<T>) returns (j: nat)
    requires a != [] && multiset(a) == multiset(b)
    ensures j < |b| && b[j] == a[0] && multiset(a[1..]) == multiset(b[..j] + b[j + 1..])
  {
    MultisetMember(a, b);
    assert a[0] in b;
    j :| 0 <= j < |b| && b[j] == a[0];
    RemoveAt(b, j);
    RemoveAt(a, 0);
    assert a[..0] + a[1..] == a[1..];
    Cancel(multiset(a[1..]), multiset(b[..j] + b[j + 1..]), a[0]);
  }

  lemma Cancel<T>(x: multiset<T>, y: multiset<T>, r: T)
    requires x + multiset{r} == y + multiset{r}
    ensures x == y
  {
    assert x + multiset{r} - multiset{r} == x && y + multiset{r} - multiset{r} == y;
  }

  lemma HeadParent(a: seq<Row>)
    requires a != []
    ensures multiset(ParentIds(a)) == multiset(ParentIds(a[1..])) + multiset{a[0].parent}
  {
    assert ParentIds(a) == [a[0].parent] + ParentIds(a[1..]);
  }

  lemma {:induction false} SameParents(a: seq<Row>, b: seq<Row>)
    requires multiset(a) == multiset(b)
    ensures multiset(ParentIds(a)) == multiset(ParentIds(b))
  {
    if a != [] {
      var j := FirstMoved(a, b);
      var rest := b[..j] + b[j + 1..];
      SameParents(a[1..], rest);
      ParentsWithout(b, j);
      HeadParent(a);
    } else {
      MultisetMember(a, b);
      assert b == [];
    }
  }

  lemma DistinctFits(a: seq<Row>, b: seq<Row>)
    requires Distinct(a) && forall x :: x in a ==> x in b
    ensures |a| <= |b|
  {
    DistinctCount(a);
    DistinctCount(b);
    SubsetSize(Elems(a), Elems(b));
  }

  lemma SubsetSize(a: set<Row>, b: set<Row>)
    requires a <= b
    ensures |a| <= |b|
  {
    assert |b| == |a| + |b - a| by {
      assert b == a + (b - a);
    }
  }

  lemma RowOf(id: string, parents: seq<Parent>, p: Parent)
    requires p in parents
    ensures Row(id, p.id, p.role) in ParentRows(id, parents)
  {
    var i :| 0 <= i < |parents| && parents[i] == p;
    assert ParentRows(id, parents)[i] == Row(id, p.id, p.role);
  }

  lemma ParentRowsDistinct(id: string, parents: seq<Parent>)
    requires Distinct(parents)
    ensures Distinct(ParentRows(id, parents))
    ensures forall row :: row in ParentRows(id, parents) ==> row.child == id && Parent(row.parent, row.role) in parents
  {
    forall i, j | 0 <= i < j < |parents| ensures ParentRows(id, parents)[i] != ParentRows(id, parents)[j] {
      assert parents[i] != parents[j];
    }
  }

  /** Inserting distinct parents yields exactly those parents, as a multiset, when every older row is one of them. */
  lemma InsertExactly(rows: seq<Row>, id: string, parents: seq<Parent>)
    requires Distinct(rows) && Distinct(parents) && forall row :: row in rows ==> row.child == id
    ensures multiset(ParentIds(InsertParents(rows, id, parents))) == multiset(ParentIds(ParentRows(id, parents))) <==>
            forall row :: row in rows ==> Parent(row.parent, row.role) in parents
  {
    var after, own := InsertParents(rows, id, parents), ParentRows(id, parents);
    InsertDistinct(rows, id, parents);
    InsertedAll(rows, id, parents);
    InsertedRows(rows, id, parents);
    ParentRowsDistinct(id, parents);
    forall row | row in own ensures row in after {
      assert Parent(row.parent, row.role) in parents;
    }
    if forall row :: row in rows ==> Parent(row.parent, row.role) in parents {
      forall row | row in after ensures row in own {
        RowOf(id, parents, Parent(row.parent, row.role));
      }
      DistinctFits(after, own);
      DistinctFits(own, after);
      DistinctSubset(after, own);
      SameParents(after, own);
    } else {
      var row :| row in rows && Parent(row.parent, row.role) !in parents;
      assert row !in own;
      DistinctFits(own + [row], after);
      assert |multiset(ParentIds(after))| == |after| && |multiset(ParentIds(own))| == |own|;
    }
  }

  lemma OwnParentIds(n: Node, rec: NodeRecord, id: string)
    requires |rec.inputs| == |n.inputs|
    ensures ParentIds(ParentRows(id, OwnParents(n, rec))) == rec.inputs
  {
  }

  /** The parents of an output match its record exactly when the rows it already had agree. */
  lemma OutputParentsExactly(n: Node, rec: NodeRecord, l0: seq<Row>, l: seq<Row>, id: string)
    requires |rec.inputs| == |n.inputs| && Distinct(OwnParents(n, rec)) && Distinct(l0)
    requires id in rec.outputs && LineageTracked(n, rec, l0, l)
    ensures multiset(ParentIds(RowsIn(l, {id}))) == multiset(rec.inputs) <==> OutputAgrees(n, l0, rec, id)
  {
    RowsInDistinct(l0, {id});
    RowsInMembers(l0, {id});
    InsertExactly(RowsIn(l0, {id}), id, OwnParents(n, rec));
    OwnParentIds(n, rec, id);
  }

  // ----- Command outputs found in the store

  lemma {:induction false} LookupMeans(ms: seq<Member>, m: Member)
    requires m in ms && forall i, j :: 0 <= i < j < |ms| ==> ms[i].key != ms[j].key
    ensures (exists i :: 0 <= i < |ms| && ms[i].key == m.key) && Lookup(ms, m.key) == m.value
  {
    var i :| 0 <= i < |ms| && ms[i] == m;
    if i > 0 {
      assert ms[1..][i - 1] == m;
      LookupMeans(ms[1..], m);
    }
  }

  lemma FieldFollows(a: Json, b: Json, key: string)
    requires Valid(a) && Valid(b) && Equivalent(a, b) && Field(a, key).Some?
    ensures Field(b, key).Some? && Equivalent(Field(a, key).value, Field(b, key).value)
  {
    var ms, ns := a.members, b.members;
    var i :| 0 <= i < |ms| && ms[i].key == key;
    assert ms[i] in ms && MatchedIn(ms[i], ns);
    var n :| n in ns && SameMember(ms[i], n);
    LookupMeans(ms, ms[i]);
    LookupMeans(ns, n);
  }

  lemma SameExit(a: Json, b: Json)
    requires Valid(a) && Valid(b) && Equivalent(a, b) && Field(a, "exit_code").Some?
    ensures ExitCode(a) == ExitCode(b)
  {
    FieldFollows(a, b, "exit_code");
  }

  /** Payloads with one digest have one exit code. */
  lemma ExitFollows(h: Hasher, a: Json, b: Json)
    requires CollisionFree(h) && Valid(a) && Valid(b) && ContentHash(h, a) == ContentHash(h, b)
    ensures ExitCode(a) == ExitCode(b)
  {
    Unambiguous(a, b);
    Unambiguous(b, a);
    if Field(a, "exit_code").Some? {
      SameExit(a, b);
    } else if Field(b, "exit_code").Some? {
      SameExit(b, a);
    }
  }

  lemma CommandKeysDistinct()
    ensures Distinct(COMMAND_KEYS)
  {
    var k := COMMAND_KEYS;
    assert |k[0]| == 6 && |k[1]| == 6 && |k[2]| == 9 && k[0][3] == 'o' && k[1][3] == 'e';
  }

  lemma CleanPayload(stdout: string, stderr: string, runId: Option<string>)
    ensures var v := CommandPayload(CommandDone(stdout, stderr, 0, runId)); Valid(v) && ExitCode(v) == 0
  {
    CommandKeysDistinct();
    ZipValid(COMMAND_KEYS, [Str(stdout), Str(stderr), Int(0)]);
    CommandExit(stdout, stderr, 0, runId);
  }

  /** The only planned row of command output type is the command's. */
  lemma CommandRowOnly(s: Session, n: Node, row: ProductRow)
    requires CleanExecution(s, n) && row in PlannedRows(s, n) && row.typ.CommandOutput?
    ensures row == CommandRow(s, n, ExecutionOf(s, n).value)
  {
    var exec := ExecutionOf(s, n).value;
    RolesMembers(n.outputs);
    assert forall i :: 0 <= i < |DomainOutputs(n.outputs)| ==> DomainOutputs(n.outputs)[i] in DomainOutputs(n.outputs);
    assert exec.CommandExecution? ==> forall r :: r in DomainRows(s, n, exec) ==> !r.typ.CommandOutput?;
  }

  lemma DetOpCommand(n: Node)
    requires DetOp(n)
    ensures !n.algorithm.Noop?
  {
  }

  /** A command output under a key of a clean node has the digest of a payload that exits cleanly. */
  lemma KeyedCommand(s: Session, n: Node, r: ProductRow) returns (payload: Json)
    requires CleanExecution(s, n) && !n.algorithm.Noop? && HasKey(PlannedRows(s, n), r) && r.typ.CommandOutput?
    ensures payload == ExecutionOf(s, n).value.payload && r.content == ContentHash(s.h, payload)
    ensures Valid(payload) && ExitCode(payload) == 0
  {
    var o := s.env.command(n.id);
    payload := CommandPayload(o);
    CleanPayload(o.stdout, o.stderr, o.runId);
    assert o == CommandDone(o.stdout, o.stderr, 0, o.runId);
    var k :| 0 <= k < |PlannedRows(s, n)| && SameKey(r, PlannedRows(s, n)[k]);
    CommandRowOnly(s, n, PlannedRows(s, n)[k]);
  }

  /** A product the run stored under a key of a deterministic operation is that operation's own row. */
  lemma OwnRow(s: Session, spec: Spec, records: map<string, NodeRecord>, n: Node, id: string, r: ProductRow)
    requires Apart(s, spec) && NodesOk(spec.nodes) && n in spec.nodes && DetOp(n)
    requires FromRun(s, spec, id, r, records) && HasKey(PlannedRows(s, n), r)
    ensures r in PlannedRows(s, n)
  {
    var m, parents :| m in spec.nodes && m.id in records && NewRow(s.h, id, r, parents, PlannedRows(s, m));
    var k :| 0 <= k < |PlannedRows(s, n)| && SameKey(r, PlannedRows(s, n)[k]);
    assert PlannedRows(s, n)[k] in PlannedRows(s, n);
    assert !NodesApart(s, m, n);
    UniqueNode(spec.nodes, m, n);
  }

  /** Every command output a deterministic operation lists has its digest and a clean exit. */
  lemma CommandOutputClean(s: Session, spec: Spec, p0: Products, p: Products,
                           records: map<string, NodeRecord>, n: Node, id: string)
    requires Keeps(p0, p) && Apart(s, spec) && Honest(s.h, p0) && CollisionFree(s.h)
    requires NodesOk(spec.nodes) && n in spec.nodes && DetOp(n) && CleanExecution(s, n)
    requires OutputKeyed(s, n, p, id) && p[id].typ.CommandOutput?
    requires id !in p0 ==> FromRun(s, spec, id, p[id], records)
    ensures ContentHash(s.h, p[id].payload) == p[id].content && ExitCode(p[id].payload) == 0
  {
    DetOpCommand(n);
    var payload := KeyedCommand(s, n, p[id]);
    if id in p0 {
      ExitFollows(s.h, p[id].payload, payload);
    } else {
      OwnRow(s, spec, records, n, id, p[id]);
      CommandRowOnly(s, n, p[id]);
    }
  }

  lemma NodeReplaysExactly(s: Session, spec: Spec, p0: Products, l0: seq<Row>, snap: Snap, n: Node)
    requires Tracked(s, spec, p0, l0, snap.products, snap.lineage, snap.records)
    requires Apart(s, spec) && Honest(s.h, p0) && CollisionFree(s.h) && Distinct(l0) && NoRepeatedInput(n)
    requires NodesOk(spec.nodes) && n in spec.nodes && n.id in snap.records && DetOp(n)
    requires RecordSound(s.h, snap.products, n, snap.records[n.id])
    ensures NodeReplays(s.h, snap.products, snap.lineage, snap.records, n) <==>
            NodeAgrees(n, l0, snap.records[n.id])
  {
    var rec := snap.records[n.id];
    assert RecordTracked(s, n, snap.products, rec);
    forall id | id in rec.outputs
      ensures OutputMatches(s.h, snap.products, snap.lineage, n, rec, id) <==> OutputAgrees(n, l0, rec, id)
    {
      assert OutputSound(s.h, snap.products, n, rec, id);
      OutputParentsExactly(n, rec, l0, snap.lineage, id);
      if snap.products[id].typ.CommandOutput? {
        CommandOutputClean(s, spec, p0, snap.products, snap.records, n, id);
      }
    }
  }

  /**
   A completed run replays exactly when every lineage row its reused outputs already had is one it records itself:
   over an honest store with unique lineage rows, for nodes that plan no common keys and repeat no input.
   */
  lemma ReplaysExactly(s: Session, v: Validated, p0: Products, l0: seq<Row>, snap: Snap)
    requires WellFormed(v.spec) && OrderOk(v) && Progress(s.h, v.spec, Elems(v.order), snap)
    requires Tracked(s, v.spec, p0, l0, snap.products, snap.lineage, snap.records)
    requires NoRepeats(v.spec) && CollisionFree(s.h) && Apart(s, v.spec) && Honest(s.h, p0) && Distinct(l0)
    ensures Replays(s.h, v.spec, snap.products, snap.lineage, snap.records) <==> ReuseAgrees(v.spec, l0, snap.records)
  {
    forall n | n in v.spec.nodes
      ensures n.id in snap.records
      ensures NodeReplays(s.h, snap.products, snap.lineage, snap.records, n) <==>
              (DetOp(n) ==> NodeAgrees(n, l0, snap.records[n.id]))
    {
      AnyNodeReplaysExactly(s, v, p0, l0, snap, n);
    }
  }

  lemma AnyNodeReplaysExactly(s: Session, v: Validated, p0: Products, l0: seq<Row>, snap: Snap, n: Node)
    requires WellFormed(v.spec) && OrderOk(v) && Progress(s.h, v.spec, Elems(v.order), snap) && n in v.spec.nodes
    requires Tracked(s, v.spec, p0, l0, snap.products, snap.lineage, snap.records)
    requires NoRepeats(v.spec) && CollisionFree(s.h) && Apart(s, v.spec) && Honest(s.h, p0) && Distinct(l0)
    ensures n.id in snap.records
    ensures NodeReplays(s.h, snap.products, snap.lineage, snap.records, n) <==>
            (DetOp(n) ==> NodeAgrees(n, l0, snap.records[n.id]))
  {
    InOrder(v, n);
    assert NodeOk(v.spec, n, OutputsOf(v.spec.nodes));
    DoneSound(s.h, v.spec, Elems(v.order), snap, n);
    if DetOp(n) {
      NodeReplaysExactly(s, v.spec, p0, l0, snap, n);
    } else {
      NodeReplay(s.h, snap, n, snap.records[n.id]);
    }
  }

  lemma DoneSound(h: Hasher, spec: Spec, done: set<string>, snap: Snap, n: Node)
    requires Progress(h, spec, done, snap) && n in spec.nodes && n.id in done
    ensures n.id in snap.records && RecordSound(h, snap.products, n, snap.records[n.id])
  {
  }
}
