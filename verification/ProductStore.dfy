/**
 The product store: products deduplicated by content, and the lineage rows that
 every producing run adds to them.
 */
module ProductStore {
  import opened Wrappers
  import opened Ordering
  import opened CanonicalJson
  import opened Workflow
  import opened Lineage
  import Identity

  /** Digests as parameters: the full digest, the truncated one used in identifiers, and the
      identity fields of a row (names, versions and timestamps as text). */
  datatype Hasher = Hasher(
    sha: string -> string,
    short: string -> string,
    fields: ProductRow -> Identity.ProductFields)

  datatype ProductRow = ProductRow(
    typ: ProductType,
    cell: string,
    content: string,
    algorithm: AlgorithmId,
    config: string,
    availableAt: int,
    payload: Json)

  /** A parent product and the role it was read in. */
  datatype Parent = Parent(id: string, role: string)

  type Products = map<string, ProductRow>

  datatype StoreError = IdTaken

  /** Agreement on the columns of the store's unique key. */
  predicate SameKey(a: ProductRow, b: ProductRow) {
    a.typ == b.typ && a.cell == b.cell && a.content == b.content && a.algorithm == b.algorithm && a.config == b.config
  }

  /** The store has a product under the unique key of `row`. */
  predicate KeyTaken(products: Products, row: ProductRow) {
    exists q :: q in products && SameKey(products[q], row)
  }

  function ParentIdsOf(parents: seq<Parent>): seq<string> {
    seq(|parents|, i requires 0 <= i < |parents| => parents[i].id)
  }

  /** The id a new product gets: a truncated digest of its identity payload. */
  function CandidateId(h: Hasher, row: ProductRow, parents: seq<Parent>): string {
    "prod_" + h.short(Identity.ProductPayload(h.fields(row), ParentIdsOf(parents)))
  }

  ghost predicate StoreOk(products: Products, lineage: seq<Row>) {
    && (forall p, q :: p in products && q in products && SameKey(products[p], products[q]) ==> p == q)
    && (forall row :: row in lineage ==> row.child in products && row.parent in products)
  }

  function InsertIgnore(rows: seq<Row>, row: Row): seq<Row> {
    if row in rows then rows else rows + [row]
  }

  function InsertParents(rows: seq<Row>, child: string, parents: seq<Parent>): seq<Row> {
    if parents == [] then rows
    else
      var last := parents[|parents| - 1];
      InsertIgnore(InsertParents(rows, child, parents[..|parents| - 1]), Row(child, last.id, last.role))
  }

  /** One row per parent, in order. */
  function ParentRows(child: string, parents: seq<Parent>): (rows: seq<Row>)
    ensures |rows| == |parents|
    ensures forall i :: 0 <= i < |parents| ==> rows[i] == Row(child, parents[i].id, parents[i].role)
  {
    seq(|parents|, i requires 0 <= i < |parents| => Row(child, parents[i].id, parents[i].role))
  }

  /** The effect of persisting `row` with `parents`, which stored it, or found it, as `id`. */
  ghost predicate Persisted(p0: Products, l0: seq<Row>, p1: Products, l1: seq<Row>,
                            row: ProductRow, parents: seq<Parent>, id: string)
  {
    && id in p1 && SameKey(p1[id], row)
    && p1 == (if id in p0 then p0 else p0[id := row])
    && l1 == InsertParents(l0, id, parents)
  }

  // ----- Lineage rows of one child

  lemma {:induction false} RowsInAppend(rows: seq<Row>, row: Row, s: set<string>)
    ensures RowsIn(rows + [row], s) == RowsIn(rows, s) + if row.child in s then [row] else []
  {
    if rows != [] {
      RowsInAppend(rows[1..], row, s);
      assert (rows + [row])[1..] == rows[1..] + [row];
    }
  }

  /** Inserting parents touches only the child's rows. */
  lemma {:induction false} InsertElsewhere(rows: seq<Row>, child: string, parents: seq<Parent>, other: string)
    requires other != child
    ensures RowsIn(InsertParents(rows, child, parents), {other}) == RowsIn(rows, {other})
  {
    if parents != [] {
      var front, last := parents[..|parents| - 1], parents[|parents| - 1];
      InsertElsewhere(rows, child, front, other);
      RowsInAppend(InsertParents(rows, child, front), Row(child, last.id, last.role), {other});
    }
  }

  /** A child without rows gets exactly one row per distinct parent. */
  lemma {:induction false} InsertNew(rows: seq<Row>, child: string, parents: seq<Parent>)
    requires RowsIn(rows, {child}) == [] && Distinct(parents)
    ensures RowsIn(InsertParents(rows, child, parents), {child}) == ParentRows(child, parents)
  {
    if parents != [] {
      var front, last := parents[..|parents| - 1], parents[|parents| - 1];
      var row := Row(child, last.id, last.role);
      assert parents == front + [last];
      InsertNew(rows, child, front);
      var mid := InsertParents(rows, child, front);
      RowsInMembers(mid, {child});
      assert row !in ParentRows(child, front);
      RowsInAppend(mid, row, {child});
      assert ParentRows(child, parents) == ParentRows(child, front) + [row];
    }
  }

  /** Inserting parents that are all recorded changes nothing. */
  lemma {:induction false} InsertAgain(rows: seq<Row>, child: string, parents: seq<Parent>)
    requires forall p :: p in parents ==> Row(child, p.id, p.role) in rows
    ensures InsertParents(rows, child, parents) == rows
  {
    if parents != [] {
      var front, last := parents[..|parents| - 1], parents[|parents| - 1];
      assert parents == front + [last];
      InsertAgain(rows, child, front);
    }
  }

  /** What inserting does to the child's own rows does not depend on the others. */
  lemma {:induction false} InsertHere(rows: seq<Row>, child: string, parents: seq<Parent>)
    ensures RowsIn(InsertParents(rows, child, parents), {child}) == InsertParents(RowsIn(rows, {child}), child, parents)
  {
    if parents != [] {
      var front, last := parents[..|parents| - 1], parents[|parents| - 1];
      var mid, row := InsertParents(rows, child, front), Row(child, last.id, last.role);
      InsertHere(rows, child, front);
      RowsInMembers(mid, {child});
      RowsInAppend(mid, row, {child});
    }
  }

  lemma {:induction false} InsertedAll(rows: seq<Row>, child: string, parents: seq<Parent>)
    ensures forall p :: p in parents ==> Row(child, p.id, p.role) in InsertParents(rows, child, parents)
    ensures forall row :: row in rows ==> row in InsertParents(rows, child, parents)
  {
    if parents != [] {
      var front, last := parents[..|parents| - 1], parents[|parents| - 1];
      assert parents == front + [last];
      InsertedAll(rows, child, front);
    }
  }

  /** Inserting the same parents twice is inserting them once. */
  lemma InsertTwice(rows: seq<Row>, child: string, parents: seq<Parent>)
    ensures InsertParents(InsertParents(rows, child, parents), child, parents) == InsertParents(rows, child, parents)
  {
    InsertedAll(rows, child, parents);
    InsertAgain(InsertParents(rows, child, parents), child, parents);
  }

  lemma {:induction false} InsertedRows(rows: seq<Row>, child: string, parents: seq<Parent>)
    ensures forall row :: row in InsertParents(rows, child, parents) ==>
      row in rows || (row.child == child && Parent(row.parent, row.role) in parents)
  {
    if parents != [] {
      var front, last := parents[..|parents| - 1], parents[|parents| - 1];
      assert parents == front + [last];
      InsertedRows(rows, child, front);
    }
  }

  lemma PersistKeeps(p0: Products, l0: seq<Row>, p1: Products, l1: seq<Row>,
                     row: ProductRow, parents: seq<Parent>, id: string)
    requires StoreOk(p0, l0) && Persisted(p0, l0, p1, l1, row, parents, id)
    requires forall p :: p in parents ==> p.id in p0
    requires id !in p0 ==> forall q :: q in p0 ==> !SameKey(p0[q], row)
    ensures StoreOk(p1, l1)
  {
    InsertedRows(l0, id, parents);
  }

  // ----- A series of persists with the same parents

  /** What a series of persists with `parents`, ending in the products `ids`, did to the store. */
  ghost predicate Grown(p0: Products, l0: seq<Row>, p1: Products, l1: seq<Row>, parents: seq<Parent>, ids: seq<string>) {
    && (forall p :: p in p0 ==> p in p1 && p1[p] == p0[p])
    && (forall p :: p in p1 && p !in p0 ==> p in ids)
    && (forall c :: c in ids ==> c in p1)
    && (forall c :: c !in ids ==> RowsIn(l1, {c}) == RowsIn(l0, {c}))
    && (forall c :: c in ids ==> RowsIn(l1, {c}) == InsertParents(RowsIn(l0, {c}), c, parents))
  }

  lemma GrownNone(products: Products, lineage: seq<Row>, parents: seq<Parent>)
    ensures Grown(products, lineage, products, lineage, parents, [])
  {
  }

  lemma NoRows(products: Products, lineage: seq<Row>, c: string)
    requires StoreOk(products, lineage) && c !in products
    ensures RowsIn(lineage, {c}) == []
  {
    var rows := RowsIn(lineage, {c});
    assert |rows| > 0 ==> rows[0] in rows;
    RowsInMembers(lineage, {c});
  }

  lemma GrownStep(p0: Products, l0: seq<Row>, p1: Products, l1: seq<Row>, p2: Products, l2: seq<Row>,
                  parents: seq<Parent>, ids: seq<string>, row: ProductRow, id: string)
    requires StoreOk(p1, l1) && Grown(p0, l0, p1, l1, parents, ids)
    requires Persisted(p1, l1, p2, l2, row, parents, id)
    ensures Grown(p0, l0, p2, l2, parents, ids + [id])
  {
    forall c | c !in ids + [id] ensures RowsIn(l2, {c}) == RowsIn(l0, {c}) {
      assert c !in ids && c != id;
      InsertElsewhere(l1, id, parents, c);
    }
    forall c | c in ids + [id] ensures RowsIn(l2, {c}) == InsertParents(RowsIn(l0, {c}), c, parents) {
      if c != id {
        assert c in ids;
        InsertElsewhere(l1, id, parents, c);
      } else {
        InsertHere(l1, id, parents);
        InsertTwice(RowsIn(l0, {id}), id, parents);
      }
    }
  }

  /** A product that is new in a series has exactly one lineage row per distinct parent. */
  lemma GrownNew(p0: Products, l0: seq<Row>, p1: Products, l1: seq<Row>, parents: seq<Parent>, ids: seq<string>, c: string)
    requires StoreOk(p0, l0) && Grown(p0, l0, p1, l1, parents, ids) && Distinct(parents)
    requires c in ids && c !in p0
    ensures RowsIn(l1, {c}) == ParentRows(c, parents)
  {
    NoRows(p0, l0, c);
    InsertNew([], c, parents);
    InsertHere([], c, parents);
  }

  // ----- The store

  class Store {
    var products: Products
    var lineage: seq<Row>

    ghost predicate Valid()
      reads this
    {
      StoreOk(products, lineage)
    }

    /** A store opened on existing tables. */
    constructor (products: Products, lineage: seq<Row>)
      requires StoreOk(products, lineage)
      ensures this.products == products && this.lineage == lineage
    {
      this.products, this.lineage := products, lineage;
    }

    /** Inserts a product unless its id or its unique key is taken, and records its parents
        on the stored product either way. */
    method Persist(h: Hasher, row: ProductRow, parents: seq<Parent>)
      returns (r: Result<string, StoreError>)
      requires Valid() && forall p :: p in parents ==> p.id in products
      modifies this
      ensures Valid()
      ensures r.Err? <==> CandidateId(h, row, parents) in old(products) && !KeyTaken(old(products), row)
      ensures r.Err? ==> products == old(products) && lineage == old(lineage)
      ensures r.Ok? ==> Persisted(old(products), old(lineage), products, lineage, row, parents, r.value)
      ensures r.Ok? ==> (r.value in old(products) <==> KeyTaken(old(products), row))
      ensures r.Ok? && r.value !in old(products) ==> r.value == CandidateId(h, row, parents)
    {
      r := InsertProduct(CandidateId(h, row, parents), row);
      if r.Ok? {
        RecordParents(r.value, parents);
        PersistKeeps(old(products), old(lineage), products, lineage, row, parents, r.value);
      }
    }

    /** INSERT OR IGNORE of the product, then the id stored under its unique key. */
    method InsertProduct(candidate: string, row: ProductRow) returns (r: Result<string, StoreError>)
      modifies this`products
      ensures r.Err? <==> candidate in old(products) && !KeyTaken(old(products), row)
      ensures r.Err? ==> products == old(products)
      ensures r.Ok? ==> r.value in products && SameKey(products[r.value], row)
      ensures r.Ok? ==> products == if r.value in old(products) then old(products) else old(products)[r.value := row]
      ensures r.Ok? ==> (r.value in old(products) <==> KeyTaken(old(products), row))
      ensures r.Ok? && r.value !in old(products) ==> r.value == candidate
    {
      if KeyTaken(products, row) {
        var id :| id in products && SameKey(products[id], row);
        return Ok(id);
      }
      if candidate in products {
        return Err(IdTaken);
      }
      products := products[candidate := row];
      r := Ok(candidate);
    }

    method RecordParents(id: string, parents: seq<Parent>)
      modifies this`lineage
      ensures lineage == InsertParents(old(lineage), id, parents)
    {
      for i := 0 to |parents|
        invariant lineage == InsertParents(old(lineage), id, parents[..i])
      {
        assert parents[..i + 1][..i] == parents[..i];
        lineage := InsertIgnore(lineage, Row(id, parents[i].id, parents[i].role));
      }
      assert parents[..|parents|] == parents;
    }
  }
}
