/**
 What the store and the plan decide before a run: whether the products it will find
 have the parents it will record, and what can stop it.
 */
module PreRun {
  import opened Topology
  import opened Workflow
  import opened Validation
  import opened Lineage
  import opened ProductStore
  import opened Authority
  import opened Executor
  import opened RunProgress
  import opened Reuse

  // ----- Products found

  /** The content of a domain product that names the run. */
  ghost predicate NamesRun(s: Session, content: string) {
    exists node: string, d: DomainFields :: d.runId == s.runId && content == ContentHash(s.h, DomainPayload(node, d))
  }

  /** No product but command output names this run: nobody used its id before. */
  ghost predicate NewRun(s: Session, p0: Products) {
    forall id :: id in p0 && !p0[id].typ.CommandOutput? ==> !NamesRun(s, p0[id].content)
  }

  predicate Parentless(lineage: seq<Row>, id: string) {
    forall row :: row in lineage ==> row.child != id
  }

  /** Whatever a deterministic operation will find in the store has no parents there. */
  ghost predicate FoundParentless(s: Session, spec: Spec, p0: Products, l0: seq<Row>) {
    forall n, id :: n in spec.nodes && DetOp(n) && OutputKeyed(s, n, p0, id) ==> Parentless(l0, id)
  }

  /** Every planned row other than the command output names the run. */
  lemma PlannedNames(s: Session, n: Node, row: ProductRow)
    requires CleanExecution(s, n) && row in PlannedRows(s, n) && !row.typ.CommandOutput?
    ensures NamesRun(s, row.content)
  {
    var exec := ExecutionOf(s, n).value;
    var i :| 0 <= i < |DomainRows(s, n, exec)| && DomainRows(s, n, exec)[i] == row;
    var d := FieldsOf(s, n, exec.runId, DomainOutputs(n.outputs)[i].typ, i);
    assert row.content == ContentHash(s.h, DomainPayload(n.id, d));
  }

  /** A product under a planned key that is in the store of a new run is command output. */
  lemma FoundIsCommand(s: Session, n: Node, p0: Products, id: string)
    requires NewRun(s, p0) && CleanExecution(s, n) && OutputKeyed(s, n, p0, id)
    ensures p0[id].typ.CommandOutput?
  {
    var rows := PlannedRows(s, n);
    var k :| 0 <= k < |rows| && SameKey(p0[id], rows[k]);
    if !p0[id].typ.CommandOutput? {
      PlannedNames(s, n, rows[k]);
    }
  }

  /** Command outputs under keys of one node have one key. */
  lemma OneCommandKey(s: Session, n: Node, a: ProductRow, b: ProductRow)
    requires CleanExecution(s, n) && HasKey(PlannedRows(s, n), a) && HasKey(PlannedRows(s, n), b)
    requires a.typ.CommandOutput? && b.typ.CommandOutput?
    ensures SameKey(a, b)
  {
    var rows := PlannedRows(s, n);
    var i :| 0 <= i < |rows| && SameKey(a, rows[i]);
    var j :| 0 <= j < |rows| && SameKey(b, rows[j]);
    CommandRowOnly(s, n, rows[i]);
    CommandRowOnly(s, n, rows[j]);
  }

  /** What a node of a new run finds, it lists first. */
  lemma FoundIsListed(s: Session, n: Node, p0: Products, p: Products, l: seq<Row>, rec: NodeRecord, id: string)
    requires NewRun(s, p0) && Keeps(p0, p) && StoreOk(p, l) && RecordTracked(s, n, p, rec)
    requires OutputKeyed(s, n, p0, id)
    ensures id in rec.outputs
  {
    FoundIsCommand(s, n, p0, id);
    var first := rec.outputs[0];
    assert first in rec.outputs && OutputKeyed(s, n, p, first);
    OneCommandKey(s, n, p[id], p[first]);
  }

  /** A deterministic operation reads no command output. */
  lemma InputsAreDomain(spec: Spec, products: Products, n: Node, rec: NodeRecord, i: nat)
    requires WellFormed(spec) && n in spec.nodes && DetOp(n) && i < |n.inputs|
    requires RecordTyped(products, OutputsOf(spec.nodes), n, rec)
    ensures rec.inputs[i] in products && !products[rec.inputs[i]].typ.CommandOutput?
  {
    assert n.inputs[i] in n.inputs;
    assert InputTyped(products, OutputsOf(spec.nodes), n.inputs[i], rec.inputs[i]);
    var m, t := InputSource(spec, n, n.inputs[i]);
    DetOpInput(n, t);
  }

  lemma DoneFacts(s: Session, v: Validated, p0: Products, l0: seq<Row>, snap: Snap, n: Node)
    requires WellFormed(v.spec) && OrderOk(v) && Progress(s.h, v.spec, Elems(v.order), snap) && n in v.spec.nodes
    requires Tracked(s, v.spec, p0, l0, snap.products, snap.lineage, snap.records)
    ensures n.id in snap.records && RecordTracked(s, n, snap.products, snap.records[n.id])
    ensures RecordTyped(snap.products, OutputsOf(v.spec.nodes), n, snap.records[n.id])
    ensures InputsListed(n, snap.records)
  {
    InOrder(v, n);
  }

  /** No input of a deterministic operation of a new run is a product the run started with. */
  lemma InputsAreNew(s: Session, v: Validated, p0: Products, l0: seq<Row>, snap: Snap, n: Node, i: nat)
    requires WellFormed(v.spec) && OrderOk(v) && Progress(s.h, v.spec, Elems(v.order), snap)
    requires Tracked(s, v.spec, p0, l0, snap.products, snap.lineage, snap.records)
    requires n in v.spec.nodes && DetOp(n) && i < |n.inputs| && NewRun(s, p0)
    ensures n.id in snap.records && |snap.records[n.id].inputs| == |n.inputs| && snap.records[n.id].inputs[i] !in p0
  {
    DoneFacts(s, v, p0, l0, snap, n);
    var id := snap.records[n.id].inputs[i];
    InputsAreDomain(v.spec, snap.products, n, snap.records[n.id], i);
    assert n.inputs[i] in n.inputs;
    var m, t := InputSource(v.spec, n, n.inputs[i]);
    DoneFacts(s, v, p0, l0, snap, m);
    assert RecordedBy(snap.records, m.id, id) && OutputKeyed(s, m, snap.products, id);
    if id in p0 {
      FoundIsCommand(s, m, p0, id);
    }
  }

  lemma AgreeingIsParentless(s: Session, v: Validated, p0: Products, l0: seq<Row>, snap: Snap, n: Node, id: string)
    requires WellFormed(v.spec) && OrderOk(v) && Progress(s.h, v.spec, Elems(v.order), snap)
    requires Tracked(s, v.spec, p0, l0, snap.products, snap.lineage, snap.records)
    requires StoreOk(p0, l0) && NewRun(s, p0) && n in v.spec.nodes && DetOp(n) && OutputKeyed(s, n, p0, id)
    requires ReuseAgrees(v.spec, l0, snap.records)
    ensures Parentless(l0, id)
  {
    DoneFacts(s, v, p0, l0, snap, n);
    var rec := snap.records[n.id];
    FoundIsListed(s, n, p0, snap.products, snap.lineage, rec, id);
    assert NodeAgrees(n, l0, rec) && OutputAgrees(n, l0, rec, id);
    forall row | row in l0 ensures row.child != id {
      if row.child == id {
        var own := OwnParents(n, rec);
        var i :| 0 <= i < |own| && own[i] == Parent(row.parent, row.role);
        InputsAreNew(s, v, p0, l0, snap, n, i);
        assert false;
      }
    }
  }

  lemma ParentlessAgrees(s: Session, spec: Spec, p0: Products, l0: seq<Row>, p: Products, n: Node, rec: NodeRecord)
    requires StoreOk(p0, l0) && Keeps(p0, p) && RecordTracked(s, n, p, rec)
    requires n in spec.nodes && DetOp(n) && FoundParentless(s, spec, p0, l0)
    ensures NodeAgrees(n, l0, rec)
  {
    forall id | id in rec.outputs ensures OutputAgrees(n, l0, rec, id) {
      assert OutputKeyed(s, n, p, id);
      if id in p0 {
        assert OutputKeyed(s, n, p0, id);
        assert Parentless(l0, id);
      }
    }
  }

  /** What a new run reused agrees with what it read exactly when it had no parents: as the store it started on tells. */
  lemma AgreesExactly(s: Session, v: Validated, p0: Products, l0: seq<Row>, snap: Snap)
    requires WellFormed(v.spec) && OrderOk(v) && Progress(s.h, v.spec, Elems(v.order), snap)
    requires Tracked(s, v.spec, p0, l0, snap.products, snap.lineage, snap.records)
    requires StoreOk(p0, l0) && NewRun(s, p0)
    ensures ReuseAgrees(v.spec, l0, snap.records) <==> FoundParentless(s, v.spec, p0, l0)
  {
    if FoundParentless(s, v.spec, p0, l0) {
      forall n | n in v.spec.nodes && DetOp(n) && n.id in snap.records ensures NodeAgrees(n, l0, snap.records[n.id]) {
        ParentlessAgrees(s, v.spec, p0, l0, snap.products, n, snap.records[n.id]);
      }
    }
    if ReuseAgrees(v.spec, l0, snap.records) {
      forall n, id | n in v.spec.nodes && DetOp(n) && OutputKeyed(s, n, p0, id) ensures Parentless(l0, id) {
        AgreeingIsParentless(s, v, p0, l0, snap, n, id);
      }
    }
  }

  // ----- What can stop a run

  /** A product of the store, under a key that the source of one of the node's inputs plans, was available after the
      decision time. */
  ghost predicate FindsLate(s: Session, spec: Spec, n: Node, p0: Products) {
    s.asOf > 0 && exists x, m, id :: x in n.inputs && m in spec.nodes && m.id == x.from && LateFor(s, m, p0, id)
  }

  ghost predicate LateFor(s: Session, m: Node, p0: Products, id: string) {
    OutputKeyed(s, m, p0, id) && p0[id].availableAt > s.asOf
  }

  /** With these parents, a planned row whose key is free gets the id of a stored product or of another planned row. */
  ghost predicate Ambiguous(s: Session, spec: Spec, n: Node, p0: Products, parents: seq<Parent>) {
    exists row :: row in PlannedRows(s, n) && !KeyTaken(p0, row) && AmbiguousRow(s, spec, p0, parents, row)
  }

  ghost predicate AmbiguousRow(s: Session, spec: Spec, p0: Products, parents: seq<Parent>, row: ProductRow) {
    || CandidateId(s.h, row, parents) in p0
    || exists m, other, others :: m in spec.nodes && other in PlannedRows(s, m) && Clashes(s.h, row, parents, other, others)
  }

  /** What a failed run means for the store and the plan: a node would read a product from after the decision time, its
      command gives no clean result, or two products get one id. */
  ghost predicate Obstacle(s: Session, spec: Spec, n: Node, p0: Products, e: RunError) {
    match e
    case RuntimeRejected => FindsLate(s, spec, n, p0)
    case CommandFailed => !CleanExecution(s, n)
    case PersistFailed => exists parents :: |parents| == |n.inputs| && Ambiguous(s, spec, n, p0, parents)
    case _ => false
  }

  /** Some node meets such an obstacle. */
  ghost predicate Obstructed(s: Session, spec: Spec, p0: Products, e: RunError) {
    exists n :: n in spec.nodes && Obstacle(s, spec, n, p0, e)
  }

  ghost predicate Late(products: Products, id: string, asOf: int) {
    id in products && products[id].availableAt > asOf
  }

  ghost predicate ReadsLate(s: Session, n: Node, produced: ProducedMap, products: Products) {
    s.asOf > 0 && exists x :: x in n.inputs && (x.from, x.role) in produced
                              && Late(products, produced[(x.from, x.role)].id, s.asOf)
  }

  /** The same, where the run stands. */
  ghost predicate Blocked(s: Session, n: Node, produced: ProducedMap, products: Products, e: RunError) {
    match e
    case RuntimeRejected => ReadsLate(s, n, produced, products)
    case CommandFailed => !CleanExecution(s, n)
    case PersistFailed => exists parents :: |parents| == |n.inputs| && Collides(s.h, products, PlannedRows(s, n), parents)
    case _ => false
  }

  lemma PlannedAsOf(s: Session, n: Node, row: ProductRow)
    requires row in PlannedRows(s, n)
    ensures row.availableAt == s.asOf
  {
  }

  /** What the run stores is available at its decision time, so anything later was there before. */
  lemma LateIsOld(s: Session, spec: Spec, p0: Products, p: Products, records: map<string, NodeRecord>, m: Node, id: string)
    requires Keeps(p0, p) && (id in p && id !in p0 ==> FromRun(s, spec, id, p[id], records))
    requires OutputKeyed(s, m, p, id) && p[id].availableAt > s.asOf
    ensures LateFor(s, m, p0, id)
  {
    if id !in p0 {
      var k, parents :| k in spec.nodes && k.id in records && NewRow(s.h, id, p[id], parents, PlannedRows(s, k));
      PlannedAsOf(s, k, p[id]);
    }
  }

  lemma LateBefore(s: Session, spec: Spec, done: set<string>, p0: Products, l0: seq<Row>, snap: Snap, n: Node)
    requires WellFormed(spec) && n in spec.nodes && Progress(s.h, spec, done, snap)
    requires Tracked(s, spec, p0, l0, snap.products, snap.lineage, snap.records)
    requires ReadsLate(s, n, snap.produced, snap.products)
    ensures FindsLate(s, spec, n, p0)
  {
    var x :| x in n.inputs && (x.from, x.role) in snap.produced
             && Late(snap.products, snap.produced[(x.from, x.role)].id, s.asOf);
    var id := snap.produced[(x.from, x.role)].id;
    var m, t := InputSource(spec, n, x);
    assert RecordedBy(snap.records, x.from, id) && RecordTracked(s, m, snap.products, snap.records[m.id]);
    assert OutputKeyed(s, m, snap.products, id);
    LateIsOld(s, spec, p0, snap.products, snap.records, m, id);
  }

  lemma ClashBefore(s: Session, spec: Spec, p0: Products, p: Products, records: map<string, NodeRecord>,
                    n: Node, parents: seq<Parent>)
    requires Keeps(p0, p) && n in spec.nodes && Collides(s.h, p, PlannedRows(s, n), parents)
    requires forall id :: id in p && id !in p0 ==> FromRun(s, spec, id, p[id], records)
    ensures Ambiguous(s, spec, n, p0, parents)
  {
    var rows := PlannedRows(s, n);
    var row :| row in rows && !KeyTaken(p, row) && IdInUse(s.h, p, rows, parents, row);
    forall q | q in p0 ensures !SameKey(p0[q], row) {
      assert q in p && p[q] == p0[q];
    }
    var c := CandidateId(s.h, row, parents);
    if c in p && c !in p0 {
      var m, others :| m in spec.nodes && m.id in records && NewRow(s.h, c, p[c], others, PlannedRows(s, m));
      assert Clashes(s.h, row, parents, p[c], others);
    } else if c !in p {
      var other :| other in rows && Clashes(s.h, row, parents, other, parents);
    }
    assert AmbiguousRow(s, spec, p0, parents, row);
  }

  /** What blocks the run where it stands was there in the store and the plan it started with. */
  lemma ObstacleBefore(s: Session, spec: Spec, done: set<string>, p0: Products, l0: seq<Row>, snap: Snap,
                       n: Node, e: RunError)
    requires WellFormed(spec) && n in spec.nodes && Progress(s.h, spec, done, snap)
    requires Tracked(s, spec, p0, l0, snap.products, snap.lineage, snap.records)
    requires Blocked(s, n, snap.produced, snap.products, e)
    ensures Obstacle(s, spec, n, p0, e)
  {
    match e
    case RuntimeRejected => LateBefore(s, spec, done, p0, l0, snap, n);
    case PersistFailed =>
      var parents :| |parents| == |n.inputs| && Collides(s.h, snap.products, PlannedRows(s, n), parents);
      ClashBefore(s, spec, p0, snap.products, snap.records, n, parents);
    case _ =>
  }
}
