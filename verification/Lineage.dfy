/**
 The recursive lineage walk over an arbitrary lineage table. Deduplicated
 products collect the parents of every run that produced them, so the table may
 hold cycles and self-loops; the walk still visits exactly what is reachable.
 */
module Lineage {
  import opened Wrappers
  import opened Ordering

  datatype Row = Row(child: string, parent: string, role: string)

  // ----- Specification: reachability through parent links

  ghost predicate IsParent(rows: seq<Row>, x: string, y: string) {
    exists row :: row in rows && row.child == x && row.parent == y
  }

  ghost predicate Hop(rows: seq<Row>, p: seq<string>, i: int)
    requires 0 <= i < |p| - 1
  {
    IsParent(rows, p[i], p[i + 1])
  }

  ghost predicate IsPath(rows: seq<Row>, p: seq<string>) {
    |p| >= 1 && forall i :: 0 <= i < |p| - 1 ==> Hop(rows, p, i)
  }

  ghost predicate Reachable(rows: seq<Row>, x: string, y: string) {
    exists p :: IsPath(rows, p) && p[0] == x && p[|p| - 1] == y
  }

  lemma ReachableSelf(rows: seq<Row>, x: string)
    ensures Reachable(rows, x, x)
  {
    assert IsPath(rows, [x]);
  }

  lemma ReachableStep(rows: seq<Row>, x: string, y: string, z: string)
    requires IsParent(rows, x, y) && Reachable(rows, y, z)
    ensures Reachable(rows, x, z)
  {
    var p :| IsPath(rows, p) && p[0] == y && p[|p| - 1] == z;
    var q := [x] + p;
    forall i | 0 <= i < |q| - 1 ensures Hop(rows, q, i) {
      if i > 0 {
        assert Hop(rows, p, i - 1);
      }
    }
    assert IsPath(rows, q) && q[0] == x && q[|q| - 1] == z;
  }

  /** Every parent of a member of `s` is in `t`. */
  ghost predicate ParentsIn(rows: seq<Row>, s: set<string>, t: set<string>) {
    forall row :: row in rows && row.child in s ==> row.parent in t
  }

  /** A set closed under parents contains whatever its members reach. */
  lemma {:induction false} ClosedReach(rows: seq<Row>, s: set<string>, p: seq<string>)
    requires ParentsIn(rows, s, s) && IsPath(rows, p) && p[0] in s
    ensures p[|p| - 1] in s
    decreases |p|
  {
    if |p| > 1 {
      var front := p[..|p| - 1];
      forall i | 0 <= i < |front| - 1 ensures Hop(rows, front, i) {
        assert Hop(rows, p, i);
      }
      ClosedReach(rows, s, front);
      assert Hop(rows, p, |p| - 2);
    }
  }

  // ----- The SELECT of one child's rows

  predicate RowLe(a: Row, b: Row) {
    if a.parent != b.parent then StrLe(a.parent, b.parent) else StrLe(a.role, b.role)
  }

  /** The rows whose child is in `s`, in table order. */
  function RowsIn(rows: seq<Row>, s: set<string>): seq<Row> {
    if rows == [] then []
    else if rows[0].child in s then [rows[0]] + RowsIn(rows[1..], s)
    else RowsIn(rows[1..], s)
  }

  /** The rows of one child, ordered by parent and role. */
  function RowsOf(rows: seq<Row>, child: string): seq<Row> {
    Sort(RowsIn(rows, {child}), RowLe)
  }

  lemma {:induction false} RowsInMembers(rows: seq<Row>, s: set<string>)
    ensures forall row :: row in RowsIn(rows, s) <==> row in rows && row.child in s
  {
    if rows != [] {
      RowsInMembers(rows[1..], s);
      assert rows == [rows[0]] + rows[1..];
    }
  }

  lemma {:induction false} RowsInUnion(rows: seq<Row>, s: set<string>, t: set<string>)
    requires s !! t
    ensures multiset(RowsIn(rows, s + t)) == multiset(RowsIn(rows, s)) + multiset(RowsIn(rows, t))
  {
    if rows != [] {
      RowsInUnion(rows[1..], s, t);
    }
  }

  lemma {:induction false} RowsInEmpty(rows: seq<Row>)
    ensures RowsIn(rows, {}) == []
  {
    if rows != [] {
      RowsInEmpty(rows[1..]);
    }
  }

  lemma RowsOfMembers(rows: seq<Row>, child: string)
    ensures multiset(RowsOf(rows, child)) == multiset(RowsIn(rows, {child}))
    ensures forall row :: row in RowsOf(rows, child) <==> row in rows && row.child == child
  {
    RowsInMembers(rows, {child});
    MultisetMember(RowsOf(rows, child), RowsIn(rows, {child}));
  }

  // ----- The walk

  /** What a walk reports: the products met and the lineage rows followed. */
  datatype Report<P> = Report(root: string, products: map<string, P>, edges: seq<Row>)

  /** `after` extends `before` by the rows `listed` and the rows of the children in `added`. */
  ghost predicate Appended(rows: seq<Row>, before: seq<Row>, after: seq<Row>, listed: seq<Row>, added: set<string>) {
    multiset(after) == multiset(before) + multiset(listed) + multiset(RowsIn(rows, added))
  }

  lemma AppendedStep(rows: seq<Row>, before: seq<Row>, mid: seq<Row>, after: seq<Row>,
                     kids: seq<Row>, i: nat, s: set<string>, t: set<string>)
    requires i < |kids| && s !! t
    requires Appended(rows, before, mid, kids[..i], s)
    requires Appended(rows, mid + [kids[i]], after, [], t)
    ensures Appended(rows, before, after, kids[..i + 1], s + t)
  {
    assert kids[..i + 1] == kids[..i] + [kids[i]];
    RowsInUnion(rows, s, t);
  }

  lemma AppendedDone(rows: seq<Row>, before: seq<Row>, after: seq<Row>, id: string, s: set<string>)
    requires id !in s && Appended(rows, before, after, RowsOf(rows, id), s)
    ensures Appended(rows, before, after, [], {id} + s)
  {
    RowsOfMembers(rows, id);
    RowsInUnion(rows, {id}, s);
  }

  lemma AppendedNone(rows: seq<Row>, edges: seq<Row>)
    ensures Appended(rows, edges, edges, [], {})
  {
    RowsInEmpty(rows);
  }

  /** The ids seen and the rows followed so far. */
  datatype Trail = Trail(seen: set<string>, edges: seq<Row>)

  /** A completed walk from `id`: what it added is reachable from `id`, has all
      its parents seen, and contributed each of its rows once. */
  ghost predicate Walked(rows: seq<Row>, id: string, before: Trail, after: Trail) {
    && id in after.seen && before.seen <= after.seen
    && (forall x :: x in after.seen - before.seen ==> Reachable(rows, id, x))
    && ParentsIn(rows, after.seen - before.seen, after.seen)
    && Appended(rows, before.edges, after.edges, [], after.seen - before.seen)
  }

  /** The walk of a freshly seen `id` after `i` of its rows `kids`. */
  ghost predicate Scanning(rows: seq<Row>, id: string, kids: seq<Row>, i: nat, before: Trail, now: Trail)
    requires i <= |kids|
  {
    var start := before.seen + {id};
    && start <= now.seen
    && (forall x :: x in now.seen - start ==> Reachable(rows, id, x))
    && (forall j :: 0 <= j < i ==> kids[j].parent in now.seen)
    && ParentsIn(rows, now.seen - start, now.seen)
    && Appended(rows, before.edges, now.edges, kids[..i], now.seen - start)
  }

  lemma WalkSeen(rows: seq<Row>, id: string, before: Trail)
    requires id in before.seen
    ensures Walked(rows, id, before, before)
  {
    AppendedNone(rows, before.edges);
    assert before.seen - before.seen == {};
  }

  lemma ScanStart(rows: seq<Row>, id: string, kids: seq<Row>, before: Trail)
    ensures Scanning(rows, id, kids, 0, before, Trail(before.seen + {id}, before.edges))
  {
    AppendedNone(rows, before.edges);
    assert (before.seen + {id}) - (before.seen + {id}) == {} && kids[..0] == [];
  }

  lemma ScanStep(rows: seq<Row>, id: string, kids: seq<Row>, i: nat, before: Trail, now: Trail, after: Trail)
    requires i < |kids| && IsParent(rows, id, kids[i].parent)
    requires Scanning(rows, id, kids, i, before, now)
    requires Walked(rows, kids[i].parent, Trail(now.seen, now.edges + [kids[i]]), after)
    ensures Scanning(rows, id, kids, i + 1, before, after)
  {
    var start := before.seen + {id};
    forall x | x in after.seen - now.seen ensures Reachable(rows, id, x) {
      ReachableStep(rows, id, kids[i].parent, x);
    }
    AppendedStep(rows, before.edges, now.edges, after.edges, kids, i, now.seen - start, after.seen - now.seen);
    assert after.seen - start == (now.seen - start) + (after.seen - now.seen);
  }

  lemma ScanDone(rows: seq<Row>, id: string, before: Trail, now: Trail)
    requires id !in before.seen && Scanning(rows, id, RowsOf(rows, id), |RowsOf(rows, id)|, before, now)
    ensures Walked(rows, id, before, now)
  {
    var kids := RowsOf(rows, id);
    var start := before.seen + {id};
    RowsOfMembers(rows, id);
    ReachableSelf(rows, id);
    assert kids[..|kids|] == kids;
    AppendedDone(rows, before.edges, now.edges, id, now.seen - start);
    assert now.seen - before.seen == {id} + (now.seen - start);
    forall row | row in rows && row.child == id ensures row.parent in now.seen {
      assert row in kids;
    }
  }

  lemma ParentsOf(rows: seq<Row>, id: string, universe: set<string>)
    requires ParentsIn(rows, universe, universe) && id in universe
    ensures forall j :: 0 <= j < |RowsOf(rows, id)| ==>
      RowsOf(rows, id)[j].parent in universe && IsParent(rows, id, RowsOf(rows, id)[j].parent)
  {
    RowsOfMembers(rows, id);
    var kids := RowsOf(rows, id);
    forall j | 0 <= j < |kids| ensures kids[j].parent in universe && IsParent(rows, id, kids[j].parent) {
      assert kids[j] in kids;
    }
  }

  class Walker<P> {
    const table: map<string, P>
    const rows: seq<Row>
    var seen: set<string>
    var products: map<string, P>
    var edges: seq<Row>

    constructor (table: map<string, P>, rows: seq<Row>)
      ensures this.table == table && this.rows == rows
      ensures Valid() && seen == {} && edges == []
    {
      this.table, this.rows := table, rows;
      seen, products, edges := {}, map[], [];
    }

    /** The products recorded are those of the ids seen. */
    ghost predicate Valid()
      reads this
    {
      products.Keys == seen <= table.Keys && forall x :: x in products ==> products[x] == table[x]
    }

    ghost function Progress(): Trail
      reads this
    {
      Trail(seen, edges)
    }

    method Walk(id: string, ghost universe: set<string>) returns (r: Result<(), string>)
      requires Valid() && id in universe && seen <= universe && ParentsIn(rows, universe, universe)
      modifies this
      decreases universe - seen
      ensures r.Ok? ==> Valid() && seen <= universe && Walked(rows, id, old(Progress()), Progress())
      ensures r.Err? ==> r.error !in table && Reachable(rows, id, r.error)
    {
      ghost var before := Progress();
      if id in seen {
        WalkSeen(rows, id, before);
        return Ok(());
      }
      seen := seen + {id};
      if id !in table {
        ReachableSelf(rows, id);
        return Err(id);
      }
      products := products[id := table[id]];
      assert products.Keys == seen;
      var kids := RowsOf(rows, id);
      ParentsOf(rows, id, universe);
      ScanStart(rows, id, kids, before);
      for i := 0 to |kids|
        invariant Valid() && seen <= universe && Scanning(rows, id, kids, i, before, Progress())
      {
        ghost var now := Progress();
        edges := edges + [kids[i]];
        var sub := Walk(kids[i].parent, universe);
        if sub.Err? {
          ReachableStep(rows, id, kids[i].parent, sub.error);
          return sub;
        }
        ScanStep(rows, id, kids, i, before, now, Progress());
      }
      ScanDone(rows, id, before, Progress());
      r := Ok(());
    }
  }

  /** Every id a walk from `root` could meet. */
  ghost function Universe(rows: seq<Row>, root: string): set<string> {
    {root} + set row | row in rows :: row.parent
  }

  /** The lineage of `root`: exactly the products it reaches, with every row of
      a reached child listed exactly once; an error exactly when one is missing. */
  method LineageJson<P>(table: map<string, P>, rows: seq<Row>, root: string)
    returns (r: Result<Report<P>, string>)
    ensures r.Ok? <==> forall x :: Reachable(rows, root, x) ==> x in table
    ensures r.Err? ==> Reachable(rows, root, r.error) && r.error !in table
    ensures r.Ok? ==> forall x :: x in r.value.products <==> Reachable(rows, root, x)
    ensures r.Ok? ==> forall x :: x in r.value.products ==> x in table && r.value.products[x] == table[x]
    ensures r.Ok? ==> multiset(r.value.edges) == multiset(RowsIn(rows, r.value.products.Keys))
    ensures r.Ok? ==> r.value.root == root
  {
    var walker := new Walker(table, rows);
    var result := walker.Walk(root, Universe(rows, root));
    if result.Err? {
      return Err(result.error);
    }
    forall x | Reachable(rows, root, x) ensures x in walker.seen {
      var p :| IsPath(rows, p) && p[0] == root && p[|p| - 1] == x;
      ClosedReach(rows, walker.seen, p);
    }
    assert walker.seen - {} == walker.seen;
    r := Ok(Report(root, walker.products, walker.edges));
  }

  /** With the table's foreign keys in force the walk fails only on a missing root. */
  lemma ForeignKeysSuffice<P>(table: map<string, P>, rows: seq<Row>, root: string)
    requires forall row :: row in rows ==> row.child in table && row.parent in table
    ensures (forall x :: Reachable(rows, root, x) ==> x in table) <==> root in table
  {
    ReachableSelf(rows, root);
    if root in table {
      forall x | Reachable(rows, root, x) ensures x in table {
        var p :| IsPath(rows, p) && p[0] == root && p[|p| - 1] == x;
        ClosedReach(rows, table.Keys, p);
      }
    }
  }
}
