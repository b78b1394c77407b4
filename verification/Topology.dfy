/**
 The workflow graph's topological sort (Kahn's algorithm), against the
 independent notion of a directed cycle.
 */
module Topology {
  import opened Wrappers
  import opened Ordering

  /** An input of node `to` that reads `role` of node `from`. */
  datatype Edge<Id> = Edge(from: Id, to: Id, role: string)

  datatype GraphError = MustBeAcyclic

  // ----- Specification: walks, cycles, and orders that respect every edge

  ghost predicate IsEdge<Id(!new)>(edges: seq<Edge<Id>>, u: Id, v: Id) {
    exists e :: e in edges && e.from == u && e.to == v
  }

  ghost predicate Step<Id(!new)>(edges: seq<Edge<Id>>, w: seq<Id>, i: int)
    requires 0 <= i < |w| - 1
  {
    IsEdge(edges, w[i], w[i + 1])
  }

  ghost predicate IsWalk<Id(!new)>(edges: seq<Edge<Id>>, w: seq<Id>) {
    |w| >= 1 && forall i :: 0 <= i < |w| - 1 ==> Step(edges, w, i)
  }

  ghost predicate IsCycle<Id(!new)>(edges: seq<Edge<Id>>, w: seq<Id>) {
    |w| >= 2 && w[0] == w[|w| - 1] && IsWalk(edges, w)
  }

  ghost predicate HasCycle<Id(!new)>(edges: seq<Edge<Id>>) {
    exists w :: IsCycle(edges, w)
  }

  /** Every edge runs from an earlier to a later place of `order`. */
  ghost predicate Forward<Id(!new)>(order: seq<Id>, edges: seq<Edge<Id>>) {
    forall i, j :: 0 <= i < |order| && 0 <= j < |order| && IsEdge(edges, order[i], order[j]) ==> i < j
  }

  ghost predicate Listed<Id(!new)>(ids: seq<Id>, edges: seq<Edge<Id>>) {
    forall e :: e in edges ==> e.from in ids && e.to in ids
  }

  // ----- Counting the edges into a node that are not yet resolved

  /** Number of edges into `v` whose source is not in `done`. */
  function Pending<Id(!new, ==)>(edges: seq<Edge<Id>>, v: Id, done: set<Id>): nat {
    if edges == [] then 0
    else Pending(edges[..|edges| - 1], v, done)
         + (var e := edges[|edges| - 1]; if e.to == v && e.from !in done then 1 else 0)
  }

  /** Targets of the edges out of `u`, repeated edges repeated, in edge order. */
  function Targets<Id(!new, ==)>(edges: seq<Edge<Id>>, u: Id): seq<Id> {
    if edges == [] then []
    else
      var rest := Targets(edges[..|edges| - 1], u);
      var e := edges[|edges| - 1];
      if e.from == u then rest + [e.to] else rest
  }

  /** Resolving one more node lowers a count by the node's edges into it. */
  lemma {:induction false} PendingResolve<Id(!new)>(edges: seq<Edge<Id>>, v: Id, done: set<Id>, u: Id)
    requires u !in done
    ensures Pending(edges, v, done) == Pending(edges, v, done + {u}) + multiset(Targets(edges, u))[v]
  {
    if edges != [] {
      PendingResolve(edges[..|edges| - 1], v, done, u);
    }
  }

  lemma {:induction false} PendingZero<Id(!new)>(edges: seq<Edge<Id>>, v: Id, done: set<Id>)
    ensures Pending(edges, v, done) == 0 <==> forall e :: e in edges && e.to == v ==> e.from in done
  {
    if edges != [] {
      var front := edges[..|edges| - 1];
      PendingZero(front, v, done);
      assert edges == front + [edges[|edges| - 1]];
    }
  }

  lemma {:induction false} TargetsListed<Id(!new)>(ids: seq<Id>, edges: seq<Edge<Id>>, u: Id)
    requires Listed(ids, edges)
    ensures forall v :: v in Targets(edges, u) ==> v in ids && IsEdge(edges, u, v)
  {
    if edges != [] {
      var front := edges[..|edges| - 1];
      assert edges == front + [edges[|edges| - 1]];
      TargetsListed(ids, front, u);
    }
  }

  // ----- Cycles

  lemma SubWalk<Id(!new)>(edges: seq<Edge<Id>>, w: seq<Id>, lo: nat, hi: nat)
    requires IsWalk(edges, w) && lo < hi <= |w|
    ensures IsWalk(edges, w[lo..hi])
  {
    forall m | 0 <= m < hi - lo - 1 ensures Step(edges, w[lo..hi], m) {
      assert Step(edges, w, lo + m);
    }
  }

  /** A forward order of all nodes rules cycles out. */
  lemma {:induction false} WalkAdvances<Id(!new)>(order: seq<Id>, edges: seq<Edge<Id>>, w: seq<Id>, i: nat, j: nat)
    requires Forward(order, edges) && Listed(order, edges) && IsWalk(edges, w)
    requires |w| >= 2 && i < |order| && j < |order| && order[i] == w[0] && order[j] == w[|w| - 1]
    ensures i < j
    decreases |w|
  {
    assert Step(edges, w, 0);
    if |w| > 2 {
      assert w[1] in order;
      var k :| 0 <= k < |order| && order[k] == w[1];
      var tail := w[1..|w|];
      SubWalk(edges, w, 1, |w|);
      WalkAdvances(order, edges, tail, k, j);
    }
  }

  lemma ForwardMeansAcyclic<Id(!new)>(order: seq<Id>, edges: seq<Edge<Id>>)
    requires Forward(order, edges) && Listed(order, edges)
    ensures !HasCycle(edges)
  {
    forall w | IsCycle(edges, w) ensures false {
      assert Step(edges, w, 0);
      var i :| 0 <= i < |order| && order[i] == w[0];
      WalkAdvances(order, edges, w, i, i);
    }
  }

  ghost predicate HasSource<Id(!new)>(edges: seq<Edge<Id>>, among: set<Id>, v: Id) {
    exists u :: u in among && IsEdge(edges, u, v)
  }

  /** Inside a set where every node has a predecessor, walks of any length exist. */
  lemma {:induction false} WalkBack<Id(!new)>(edges: seq<Edge<Id>>, stuck: set<Id>, start: Id, n: nat)
    returns (w: seq<Id>)
    requires start in stuck && forall v :: v in stuck ==> HasSource(edges, stuck, v)
    ensures |w| == n + 1 && IsWalk(edges, w) && forall x :: x in w ==> x in stuck
  {
    if n == 0 {
      w := [start];
    } else {
      var tail := WalkBack(edges, stuck, start, n - 1);
      assert tail[0] in stuck;
      var u :| u in stuck && IsEdge(edges, u, tail[0]);
      w := [u] + tail;
      PrependWalk(edges, u, tail);
    }
  }

  lemma PrependWalk<Id(!new)>(edges: seq<Edge<Id>>, u: Id, tail: seq<Id>)
    requires IsWalk(edges, tail) && IsEdge(edges, u, tail[0])
    ensures IsWalk(edges, [u] + tail)
  {
    var w := [u] + tail;
    forall i | 0 <= i < |w| - 1 ensures Step(edges, w, i) {
      if i > 0 {
        assert Step(edges, tail, i - 1);
      }
    }
  }

  /** A list longer than the set its elements come from repeats an element. */
  lemma {:induction false} Pigeonhole<Id(!new)>(w: seq<Id>, s: set<Id>)
    requires Distinct(w) && forall x :: x in w ==> x in s
    ensures |w| <= |s|
  {
    if w != [] {
      var x := w[|w| - 1];
      var front := w[..|w| - 1];
      forall y | y in front ensures y in s - {x} {
        var i :| 0 <= i < |front| && front[i] == y;
        assert w[i] != w[|w| - 1];
      }
      Pigeonhole(front, s - {x});
    }
  }

  /** A nonempty set where every node has a predecessor in the set holds a cycle. */
  lemma StuckMeansCycle<Id(!new)>(edges: seq<Edge<Id>>, stuck: set<Id>)
    requires stuck != {} && forall v :: v in stuck ==> HasSource(edges, stuck, v)
    ensures HasCycle(edges)
  {
    var start :| start in stuck;
    var w := WalkBack(edges, stuck, start, |stuck|);
    if Distinct(w) {
      Pigeonhole(w, stuck);
      assert false;
    }
    var i, j :| 0 <= i < j < |w| && w[i] == w[j];
    RepeatMeansCycle(edges, w, i, j);
  }

  lemma RepeatMeansCycle<Id(!new)>(edges: seq<Edge<Id>>, w: seq<Id>, i: nat, j: nat)
    requires IsWalk(edges, w) && i < j < |w| && w[i] == w[j]
    ensures HasCycle(edges)
  {
    SubWalk(edges, w, i, j + 1);
    assert IsCycle(edges, w[i..j + 1]);
  }

  // ----- Facts about lists and the set of their elements

  function Elems<Id(!new, ==)>(xs: seq<Id>): set<Id> {
    set x | x in xs
  }

  lemma {:induction false} DistinctCount<Id(!new)>(xs: seq<Id>)
    ensures |Elems(xs)| <= |xs|
    ensures Distinct(xs) <==> |Elems(xs)| == |xs|
  {
    if xs != [] {
      var front, x := xs[..|xs| - 1], xs[|xs| - 1];
      DistinctCount(front);
      assert xs == front + [x];
      if x in front {
        assert Elems(xs) == Elems(front);
      } else {
        assert Elems(xs) == Elems(front) + {x};
        if Distinct(front) {
          assert Distinct(xs);
        } else {
          var i, j :| 0 <= i < j < |front| && front[i] == front[j];
          assert xs[i] == xs[j];
        }
      }
      if Distinct(xs) {
        assert Distinct(front);
        assert forall i :: 0 <= i < |front| ==> front[i] == xs[i] != xs[|xs| - 1];
      }
    }
  }

  lemma {:induction false} DistinctMultiset<Id(!new)>(a: seq<Id>, b: seq<Id>)
    requires Distinct(a) && Distinct(b) && Elems(a) == Elems(b)
    ensures multiset(a) == multiset(b)
  {
    forall x ensures multiset(a)[x] == multiset(b)[x] {
      CountDistinct(a, x);
      CountDistinct(b, x);
      assert x in a <==> x in Elems(a);
      assert x in b <==> x in Elems(b);
    }
  }

  lemma {:induction false} CountDistinct<Id(!new)>(a: seq<Id>, x: Id)
    requires Distinct(a)
    ensures multiset(a)[x] == if x in a then 1 else 0
  {
    if a != [] {
      assert a == a[..|a| - 1] + [a[|a| - 1]];
      CountDistinct(a[..|a| - 1], x);
    }
  }

  // ----- The sort

  function ChildrenOf<Id(!new, ==)>(children: map<Id, seq<Id>>, u: Id): seq<Id> {
    if u in children then children[u] else []
  }

  lemma DistinctSnoc<Id(!new)>(xs: seq<Id>, i: nat)
    requires i < |xs|
    ensures Distinct(xs[..i + 1]) <==> Distinct(xs[..i]) && xs[i] !in Elems(xs[..i])
  {
    var front, all := xs[..i], xs[..i + 1];
    assert all == front + [xs[i]];
    DistinctCount(front);
    DistinctCount(all);
    if xs[i] in front {
      assert Elems(all) == Elems(front);
    } else {
      assert Elems(all) == Elems(front) + {xs[i]};
    }
  }

  lemma ElemsSnoc<Id(!new)>(xs: seq<Id>, i: nat)
    requires i < |xs|
    ensures Elems(xs[..i + 1]) == Elems(xs[..i]) + {xs[i]}
  {
    assert xs[..i + 1] == xs[..i] + [xs[i]];
  }

  /** Adds a key to the sorted key list of a BTreeMap, once. */
  function InsertKey<Id(!new, ==)>(keys: seq<Id>, k: Id, le: (Id, Id) -> bool): (r: seq<Id>)
    ensures Elems(r) == Elems(keys) + {k}
    ensures Distinct(keys) ==> Distinct(r)
  {
    if k in keys then keys
    else
      var r := Insert(k, keys, le);
      InsertedElems(k, keys, le);
      r
  }

  lemma InsertedElems<Id(!new)>(k: Id, keys: seq<Id>, le: (Id, Id) -> bool)
    requires k !in keys
    ensures Elems(Insert(k, keys, le)) == Elems(keys) + {k}
    ensures Distinct(keys) ==> Distinct(Insert(k, keys, le))
  {
    var r := Insert(k, keys, le);
    MultisetMember(r, keys + [k]);
    assert Elems(r) == Elems(keys) + {k};
    if Distinct(keys) {
      DistinctCount(keys);
      DistinctCount(r);
    }
  }

  /** The state between two dequeues: counts are exact and `order` plus `queue`
      hold exactly the nodes whose counts reached zero. */
  ghost predicate Inv<Id(!new)>(ids: seq<Id>, edges: seq<Edge<Id>>, indegree: map<Id, nat>,
                      order: seq<Id>, queue: seq<Id>)
  {
    && indegree.Keys == Elems(ids)
    && Distinct(order + queue)
    && (forall v :: v in order + queue ==> v in ids)
    && (forall v :: v in ids ==> indegree[v] == Pending(edges, v, Elems(order)))
    && (forall v :: v in ids ==> (indegree[v] == 0 <==> v in order + queue))
  }

  lemma SnocEdge<Id(!new)>(edges: seq<Edge<Id>>, i: nat, v: Id)
    requires i < |edges|
    ensures Pending(edges[..i + 1], v, {}) == Pending(edges[..i], v, {}) + if edges[i].to == v then 1 else 0
    ensures Targets(edges[..i + 1], v) == Targets(edges[..i], v) + if edges[i].from == v then [edges[i].to] else []
  {
    assert edges[..i + 1][..i] == edges[..i];
  }

  /** The node keys in map order, each with in-degree zero. */
  method IndexNodes<Id(!new, ==)>(ids: seq<Id>, le: (Id, Id) -> bool)
    returns (keys: seq<Id>, indegree: map<Id, nat>)
    ensures Elems(keys) == Elems(ids) == indegree.Keys && Distinct(keys)
    ensures forall v :: v in indegree ==> indegree[v] == 0
  {
    keys, indegree := [], map[];
    for i := 0 to |ids|
      invariant Elems(keys) == Elems(ids[..i]) == indegree.Keys && Distinct(keys)
      invariant forall v :: v in indegree ==> indegree[v] == 0
    {
      ElemsSnoc(ids, i);
      keys := InsertKey(keys, ids[i], le);
      indegree := indegree[ids[i] := 0];
      assert indegree.Keys == Elems(ids[..i]) + {ids[i]};
    }
    assert ids[..|ids|] == ids;
  }

  ghost predicate Indexed<Id(!new)>(ids: seq<Id>, edges: seq<Edge<Id>>, indegree: map<Id, nat>,
                                    children: map<Id, seq<Id>>)
  {
    && indegree.Keys == Elems(ids)
    && (forall v :: v in indegree ==> indegree[v] == Pending(edges, v, {}))
    && (forall u :: ChildrenOf(children, u) == Targets(edges, u))
  }

  lemma IndexStep<Id(!new)>(ids: seq<Id>, edges: seq<Edge<Id>>, i: nat, indegree: map<Id, nat>,
                            children: map<Id, seq<Id>>)
    requires Listed(ids, edges) && i < |edges| && Indexed(ids, edges[..i], indegree, children)
    ensures edges[i].to in indegree
    ensures var e := edges[i];
            Indexed(ids, edges[..i + 1], indegree[e.to := indegree[e.to] + 1],
                    children[e.from := ChildrenOf(children, e.from) + [e.to]])
  {
    var e := edges[i];
    assert e in edges && e.to in Elems(ids);
    var indegree' := indegree[e.to := indegree[e.to] + 1];
    var children' := children[e.from := ChildrenOf(children, e.from) + [e.to]];
    assert indegree'.Keys == Elems(ids);
    forall v | v in indegree' ensures indegree'[v] == Pending(edges[..i + 1], v, {}) {
      SnocEdge(edges, i, v);
    }
    forall u ensures ChildrenOf(children', u) == Targets(edges[..i + 1], u) {
      SnocEdge(edges, i, u);
      assert ChildrenOf(children, u) == Targets(edges[..i], u);
    }
  }

  /** Every in-degree, and the children of every node. */
  method IndexEdges<Id(!new, ==)>(ghost ids: seq<Id>, edges: seq<Edge<Id>>, zero: map<Id, nat>)
    returns (indegree: map<Id, nat>, children: map<Id, seq<Id>>)
    requires Listed(ids, edges) && zero.Keys == Elems(ids) && forall v :: v in zero ==> zero[v] == 0
    ensures Indexed(ids, edges, indegree, children)
  {
    indegree, children := zero, map[];
    for i := 0 to |edges|
      invariant Indexed(ids, edges[..i], indegree, children)
    {
      var e := edges[i];
      IndexStep(ids, edges, i, indegree, children);
      indegree := indegree[e.to := indegree[e.to] + 1];
      children := children[e.from := ChildrenOf(children, e.from) + [e.to]];
    }
    assert edges[..|edges|] == edges;
  }

  /** The keys of in-degree zero, in key order. */
  method Roots<Id(!new, ==)>(keys: seq<Id>, indegree: map<Id, nat>) returns (queue: seq<Id>)
    requires Elems(keys) == indegree.Keys && Distinct(keys)
    ensures Distinct(queue)
    ensures forall v :: v in queue <==> v in keys && indegree[v] == 0
  {
    queue := [];
    for i := 0 to |keys|
      invariant Distinct(queue)
      invariant forall v :: v in queue <==> v in keys[..i] && indegree[v] == 0
    {
      assert keys[..i + 1] == keys[..i] + [keys[i]];
      if indegree[keys[i]] == 0 {
        assert keys[i] !in keys[..i];
        queue := queue + [keys[i]];
      }
    }
    assert keys[..|keys|] == keys;
  }

  /** Resolves the children of the node just ordered, queueing those that become free. */
  method ResolveChildren<Id(!new, ==)>(ghost ids: seq<Id>, ghost edges: seq<Edge<Id>>, kids: seq<Id>,
                                      indegree0: map<Id, nat>, ghost order: seq<Id>, queue0: seq<Id>)
    returns (indegree: map<Id, nat>, queue: seq<Id>)
    requires Inner(ids, edges, indegree0, order, queue0, kids)
    ensures Inv(ids, edges, indegree, order, queue)
  {
    indegree, queue := indegree0, queue0;
    for k := 0 to |kids|
      invariant Inner(ids, edges, indegree, order, queue, kids[k..])
    {
      var child := kids[k];
      assert kids[k..][0] == child && kids[k..][1..] == kids[k + 1..];
      assert child in kids[k..];
      ResolveOne(ids, edges, indegree, order, queue, kids[k..]);
      var degree := if indegree[child] > 0 then indegree[child] - 1 else 0;
      indegree := indegree[child := degree];
      if degree == 0 {
        queue := queue + [child];
      }
    }
    assert kids[|kids|..] == [];
  }

  method TopologicalOrder<Id(!new, ==)>(ids: seq<Id>, edges: seq<Edge<Id>>, le: (Id, Id) -> bool)
    returns (r: Result<seq<Id>, GraphError>)
    requires Listed(ids, edges)
    ensures r.Ok? <==> Distinct(ids) && !HasCycle(edges)
    ensures r.Ok? ==> multiset(r.value) == multiset(ids) && Distinct(r.value) && Forward(r.value, edges)
  {
    var keys, zero := IndexNodes(ids, le);
    var indegree, children := IndexEdges(ids, edges, zero);
    var queue := Roots(keys, indegree);
    var order: seq<Id> := [];
    assert order + queue == queue && Elems(order) == {};
    assert forall v :: v in ids <==> v in Elems(keys);
    while queue != []
      invariant Inv(ids, edges, indegree, order, queue)
      invariant Forward(order, edges)
      decreases |Elems(ids)| - |order|
    {
      var u := queue[0];
      assert queue == [u] + queue[1..];
      DequeueBound(ids, order, u, queue[1..]);
      DequeueForward(ids, edges, indegree, order, u, queue[1..]);
      AfterDequeue(ids, edges, indegree, order, u, queue[1..]);
      order := order + [u];
      indegree, queue := ResolveChildren(ids, edges, ChildrenOf(children, u), indegree, order, queue[1..]);
    }
    Finish(ids, edges, indegree, order);
    if |order| != |ids| {
      r := Err(MustBeAcyclic);
    } else {
      r := Ok(order);
    }
  }

  /** The state while the children of the last ordered node are resolved:
      the counts still include the children in `kids`. */
  ghost predicate Inner<Id(!new)>(ids: seq<Id>, edges: seq<Edge<Id>>, indegree: map<Id, nat>,
                        order: seq<Id>, queue: seq<Id>, kids: seq<Id>)
  {
    && indegree.Keys == Elems(ids)
    && Distinct(order + queue)
    && (forall v :: v in order + queue ==> v in ids)
    && (forall v :: v in kids ==> v in ids)
    && (forall v :: v in ids ==> indegree[v] == Pending(edges, v, Elems(order)) + multiset(kids)[v])
    && (forall v :: v in ids ==> (indegree[v] == 0 <==> v in order + queue))
  }

  lemma DequeueBound<Id(!new)>(ids: seq<Id>, done: seq<Id>, u: Id, queue: seq<Id>)
    requires Distinct(done + ([u] + queue)) && forall v :: v in done + ([u] + queue) ==> v in ids
    ensures |done + [u]| <= |Elems(ids)|
    ensures u !in done && Distinct(done + [u] + queue)
  {
    assert done + [u] + queue == done + ([u] + queue);
    var s := done + ([u] + queue);
    assert Distinct(done + [u]) by {
      assert forall i :: 0 <= i < |done + [u]| ==> (done + [u])[i] == s[i];
    }
    forall x | x in done + [u] ensures x in Elems(ids) {
      assert x in s;
    }
    Pigeonhole(done + [u], Elems(ids));
    forall i | 0 <= i < |done| ensures done[i] != u {
      assert s[i] != s[|done|];
    }
  }

  /** Sources of a node already ordered, or next to be ordered, are ordered before it. */
  lemma SourceOrdered<Id(!new)>(ids: seq<Id>, edges: seq<Edge<Id>>, indegree: map<Id, nat>,
                                done: seq<Id>, u: Id, queue: seq<Id>, x: Id, y: Id)
    requires Inv(ids, edges, indegree, done, [u] + queue)
    requires IsEdge(edges, x, y) && y in done + [u]
    ensures x in done
  {
    assert y in done + ([u] + queue);
    PendingZero(edges, y, Elems(done));
    var e :| e in edges && e.from == x && e.to == y;
    assert e.from in Elems(done);
  }

  lemma DequeueForward<Id(!new)>(ids: seq<Id>, edges: seq<Edge<Id>>, indegree: map<Id, nat>,
                                 done: seq<Id>, u: Id, queue: seq<Id>)
    requires Inv(ids, edges, indegree, done, [u] + queue) && Forward(done, edges)
    ensures Forward(done + [u], edges)
  {
    var order := done + [u];
    DequeueBound(ids, done, u, queue);
    forall i, j | 0 <= i < |order| && 0 <= j < |order| && IsEdge(edges, order[i], order[j])
      ensures i < j
    {
      SourceOrdered(ids, edges, indegree, done, u, queue, order[i], order[j]);
      assert i < |done|;
      if j < |done| {
        assert IsEdge(edges, done[i], done[j]);
      }
    }
  }

  lemma AfterDequeue<Id(!new)>(ids: seq<Id>, edges: seq<Edge<Id>>, indegree: map<Id, nat>,
                     done: seq<Id>, u: Id, queue: seq<Id>)
    requires Listed(ids, edges) && Inv(ids, edges, indegree, done, [u] + queue)
    ensures Inner(ids, edges, indegree, done + [u], queue, Targets(edges, u))
  {
    DequeueBound(ids, done, u, queue);
    assert done + ([u] + queue) == done + [u] + queue;
    TargetsListed(ids, edges, u);
    assert Elems(done + [u]) == Elems(done) + {u};
    forall v | v in ids
      ensures indegree[v] == Pending(edges, v, Elems(done + [u])) + multiset(Targets(edges, u))[v]
    {
      PendingResolve(edges, v, Elems(done), u);
    }
  }

  lemma ResolveOne<Id(!new)>(ids: seq<Id>, edges: seq<Edge<Id>>, indegree: map<Id, nat>,
                   order: seq<Id>, queue: seq<Id>, kids: seq<Id>)
    requires Inner(ids, edges, indegree, order, queue, kids) && kids != []
    ensures indegree[kids[0]] > 0
    ensures var child := kids[0];
            var degree := indegree[child] - 1;
            Inner(ids, edges, indegree[child := degree], order,
                  if degree == 0 then queue + [child] else queue, kids[1..])
  {
    var child := kids[0];
    var degree := indegree[child] - 1;
    assert kids == [child] + kids[1..];
    assert multiset(kids)[child] > 0;
    var queue' := if degree == 0 then queue + [child] else queue;
    assert order + (queue + [child]) == (order + queue) + [child];
    assert child !in order + queue;
    assert Distinct(order + queue');
  }

  /** When the queue runs dry, a short order means a set of stuck nodes. */
  lemma Finish<Id(!new)>(ids: seq<Id>, edges: seq<Edge<Id>>, indegree: map<Id, nat>, order: seq<Id>)
    requires Listed(ids, edges) && Inv(ids, edges, indegree, order, []) && Forward(order, edges)
    ensures Distinct(order)
    ensures |order| == |ids| <==> Distinct(ids) && !HasCycle(edges)
    ensures |order| == |ids| ==> multiset(order) == multiset(ids)
  {
    assert order + [] == order;
    DistinctCount(order);
    DistinctCount(ids);
    var stuck := Elems(ids) - Elems(order);
    assert Elems(order) <= Elems(ids);
    assert |stuck| == |Elems(ids)| - |Elems(order)|;
    if stuck == {} {
      assert Elems(ids) == Elems(order);
      if Distinct(ids) {
        DistinctMultiset(order, ids);
        assert Listed(order, edges) by {
          forall e | e in edges ensures e.from in order && e.to in order {
            assert e.from in Elems(order) && e.to in Elems(order);
          }
        }
        ForwardMeansAcyclic(order, edges);
      }
    } else {
      forall v | v in stuck ensures HasSource(edges, stuck, v) {
        PendingZero(edges, v, Elems(order));
        var e :| e in edges && e.to == v && e.from !in Elems(order);
        assert e.from in stuck && IsEdge(edges, e.from, v);
      }
      StuckMeansCycle(edges, stuck);
    }
  }
}
