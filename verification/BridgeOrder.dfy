/**
 The scan order of the year-to-date bridge: exactly when the value found does not
 depend on it, and an amended fiscal year that does.
 */
module BridgeOrder {
  import opened Wrappers
  import opened Ordering
  import opened Facts
  import opened Selection
  import opened Windows
  import opened Ttm

  /** A triple whose prior is latest filed among those that match its pair. */
  ghost predicate LatestPrior(facts: seq<Fact>, q: Query, c: Fact, a: Fact, p: Fact) {
    && Triple(facts, q, c, a, p)
    && forall x :: x in facts && PriorMatches(q, c, a, x) ==> x.available <= p.available
  }

  /** Among those, one whose three filings are complete last. */
  ghost predicate Best(facts: seq<Fact>, q: Query, c: Fact, a: Fact, p: Fact) {
    && LatestPrior(facts, q, c, a, p)
    && forall c', a', p' :: LatestPrior(facts, q, c', a', p') ==>
         BridgePoint(q, c', a', p').available <= BridgePoint(q, c, a, p).available
  }

  ghost predicate BestPoint(facts: seq<Fact>, q: Query, x: Point) {
    exists c, a, p :: Best(facts, q, c, a, p) && x == BridgePoint(q, c, a, p)
  }

  /** All best triples give one point: the condition reads off the facts, whatever their order. */
  ghost predicate OneBest(facts: seq<Fact>, q: Query) {
    forall x, y :: BestPoint(facts, q, x) && BestPoint(facts, q, y) ==> x == y
  }

  /** The bridge is the same in every scan order of these facts. */
  ghost predicate OrderFree(facts: seq<Fact>, q: Query) {
    forall facts' :: multiset(facts') == multiset(facts) ==> Bridge(facts', q) == Bridge(facts, q)
  }

  lemma BestSame(facts: seq<Fact>, facts': seq<Fact>, q: Query, x: Point)
    requires forall f :: f in facts <==> f in facts'
    ensures BestPoint(facts, q, x) <==> BestPoint(facts', q, x)
  {
    forall c, a, p ensures LatestPrior(facts, q, c, a, p) <==> LatestPrior(facts', q, c, a, p) {
    }
  }

  /** What a scan proposes for a pair has a latest-filed prior, and no latest-filed prior is filed later. */
  lemma ProposedLatest(facts: seq<Fact>, q: Query, c: Fact, a: Fact, p: Fact)
    requires LatestPrior(facts, q, c, a, p)
    ensures var r := PriorOf(facts, q, c, a);
            r.Some? && Proposed(facts, q, c, a, r.value) && r.value.available == p.available
  {
    PriorChosen(facts, q, c, a);
  }

  /** The bridge's value is a best point. */
  lemma BridgeIsBest(facts: seq<Fact>, q: Query)
    requires Bridge(facts, q).Some?
    ensures BestPoint(facts, q, Bridge(facts, q).value)
  {
    BridgeOrigin(facts, q);
    var c, a, p :| Proposed(facts, q, c, a, p) && Bridge(facts, q).value == BridgePoint(q, c, a, p);
    PriorChosen(facts, q, c, a);
    forall c', a', p' | LatestPrior(facts, q, c', a', p')
      ensures BridgePoint(q, c', a', p').available <= BridgePoint(q, c, a, p).available
    {
      ProposedLatest(facts, q, c', a', p');
      assert BridgePoint(q, c', a', PriorOf(facts, q, c', a').value).available <= BridgePoint(q, c, a, p).available;
    }
    assert Best(facts, q, c, a, p);
  }

  lemma OneBestSuffices(facts: seq<Fact>, facts': seq<Fact>, q: Query)
    requires OneBest(facts, q) && forall f :: f in facts <==> f in facts'
    ensures Bridge(facts', q) == Bridge(facts, q)
  {
    BridgeFound(facts, q);
    BridgeFound(facts', q);
    assert forall c, a, p :: Triple(facts, q, c, a, p) <==> Triple(facts', q, c, a, p);
    if Bridge(facts, q).Some? {
      BridgeIsBest(facts, q);
      BridgeIsBest(facts', q);
      BestSame(facts, facts', q, Bridge(facts', q).value);
    }
  }

  // ----- Every best triple wins some order

  lemma FirstPrior(facts: seq<Fact>, q: Query, c: Fact, a: Fact, p: Fact)
    requires LatestPrior(facts, q, c, a, p) && |facts| >= 3 && facts[0] == c && facts[1] == a && facts[2] == p
    ensures PriorOf(facts, q, c, a) == Some(p)
  {
    NewerRanks();
    LatestIsFirstMaximum(facts, PriorOk(q, c, a), FiledLater());
    var r := PriorOf(facts, q, c, a);
    assert p in facts && PriorOk(q, c, a)(p);
    var i: nat :| FirstMaximum(facts, PriorOk(q, c, a), FiledLater(), i) && facts[i] == r.value;
    assert PriorOk(q, c, a)(facts[2]);
    assert i <= 2;
  }

  /** The first candidate of a scan that starts with a triple is that triple's point. */
  lemma {:induction false} FirstCandidate(facts: seq<Fact>, q: Query, c: Fact, a: Fact, p: Fact, n: nat)
    requires LatestPrior(facts, q, c, a, p) && |facts| >= 3 && facts[0] == c && facts[1] == a && facts[2] == p
    requires 2 <= n <= |facts|
    ensures var cs := CandidatesFor(facts, q, c, facts[..n]); cs != [] && cs[0] == BridgePoint(q, c, a, p)
  {
    assert facts[..n][..n - 1] == facts[..n - 1];
    if n == 2 {
      FirstPrior(facts, q, c, a, p);
      assert facts[..1][..0] == [] && facts[..2][1] == a && facts[..1][0] == c;
      assert CandidatesFor(facts, q, c, []) == [];
      assert CandidatesFor(facts, q, c, facts[..1]) == [];
    } else {
      FirstCandidate(facts, q, c, a, p, n - 1);
    }
  }

  lemma {:induction false} FirstOfAll(facts: seq<Fact>, q: Query, c: Fact, a: Fact, p: Fact, n: nat)
    requires LatestPrior(facts, q, c, a, p) && |facts| >= 3 && facts[0] == c && facts[1] == a && facts[2] == p
    requires 1 <= n <= |facts|
    ensures var cs := Candidates(facts, q, facts[..n]); cs != [] && cs[0] == BridgePoint(q, c, a, p)
  {
    assert facts[..n][..n - 1] == facts[..n - 1];
    if n == 1 {
      FirstCandidate(facts, q, c, a, p, |facts|);
      assert facts[..|facts|] == facts;
      assert Candidates(facts, q, []) == [];
    } else {
      FirstOfAll(facts, q, c, a, p, n - 1);
    }
  }

  lemma BestFirstWins(facts: seq<Fact>, q: Query, c: Fact, a: Fact, p: Fact)
    requires Best(facts, q, c, a, p) && |facts| >= 3 && facts[0] == c && facts[1] == a && facts[2] == p
    ensures Bridge(facts, q) == Some(BridgePoint(q, c, a, p))
  {
    var cs, x := Candidates(facts, q, facts), BridgePoint(q, c, a, p);
    FirstOfAll(facts, q, c, a, p, |facts|);
    assert facts[..|facts|] == facts;
    NewerRanks();
    LatestIsFirstMaximum(cs, AnyPoint(), LaterPoint());
    LatestMember(cs, AnyPoint(), LaterPoint());
    assert x in cs && AnyPoint()(cs[0]);
    var i: nat :| FirstMaximum(cs, AnyPoint(), LaterPoint(), i) && cs[i] == Bridge(facts, q).value;
    BridgeIsBest(facts, q);
    assert Bridge(facts, q).value.available <= x.available;
    assert i == 0;
  }

  lemma BestWins(facts: seq<Fact>, q: Query, c: Fact, a: Fact, p: Fact) returns (facts': seq<Fact>)
    requires Best(facts, q, c, a, p)
    ensures multiset(facts') == multiset(facts) && Bridge(facts', q) == Some(BridgePoint(q, c, a, p))
  {
    var r1 := MoveToFront(facts, c);
    MultisetMember([c] + r1, facts);
    assert a in [c] + r1 && a != c;
    var r2 := MoveToFront(r1, a);
    MultisetMember([a] + r2, r1);
    assert p in [c] + r1 && p != c && p in [a] + r2 && p != a;
    var r3 := MoveToFront(r2, p);
    facts' := [c, a, p] + r3;
    assert facts' == [c] + ([a] + ([p] + r3));
    assert multiset(facts') == multiset(facts);
    MultisetMember(facts', facts);
    SameBest(facts, facts', q, c, a, p);
    BestFirstWins(facts', q, c, a, p);
  }

  lemma SameBest(facts: seq<Fact>, facts': seq<Fact>, q: Query, c: Fact, a: Fact, p: Fact)
    requires Best(facts, q, c, a, p) && forall f :: f in facts <==> f in facts'
    ensures Best(facts', q, c, a, p)
  {
    forall c, a, p ensures LatestPrior(facts, q, c, a, p) <==> LatestPrior(facts', q, c, a, p) {
    }
  }

  /** The bridge is the same in every scan order exactly when all best triples give one point. */
  lemma OrderFreeExactly(facts: seq<Fact>, q: Query)
    ensures OrderFree(facts, q) <==> OneBest(facts, q)
  {
    if OneBest(facts, q) {
      forall facts' | multiset(facts') == multiset(facts) ensures Bridge(facts', q) == Bridge(facts, q) {
        MultisetMember(facts', facts);
        OneBestSuffices(facts, facts', q);
      }
    }
    if OrderFree(facts, q) {
      forall x, y | BestPoint(facts, q, x) && BestPoint(facts, q, y) ensures x == y {
        var c, a, p :| Best(facts, q, c, a, p) && x == BridgePoint(q, c, a, p);
        var xs := BestWins(facts, q, c, a, p);
        var d, b, r :| Best(facts, q, d, b, r) && y == BridgePoint(q, d, b, r);
        var ys := BestWins(facts, q, d, b, r);
      }
    }
  }

  // ----- An amended fiscal year that loses

  function BridgeFact(start: int, end: int, available: int, value: real, semantics: Semantics): Fact
    requires start <= end
  {
    Fact(1, REVENUE, value, start, end, available, {}, Flow, semantics, 104, Selected, end - start + 1, 0)
  }

  /** Among facts none of which was filed after the current period, every triple with its only prior is best. */
  lemma BestWhenLast(facts: seq<Fact>, q: Query, c: Fact, a: Fact, p: Fact)
    requires Triple(facts, q, c, a, p) && forall f :: f in facts ==> f.available <= c.available
    requires forall f :: f in facts && f != p ==> !PriorMatches(q, c, a, f)
    ensures Best(facts, q, c, a, p)
  {
  }

  /**
   Candidates tie whenever the current period was filed last, so an amended fiscal year, filed later, gives way to
   the original when the original is scanned first: the value found depends on the scan order.
   */
  lemma AmendedYearMayLose()
    ensures exists c: Fact, a: Fact, b: Fact, p: Fact, q: Query ::
              && a.available < b.available && a.start == b.start && a.end == b.end
              && Bridge([c, a, p, b], q) == Some(BridgePoint(q, c, a, p))
              && Bridge([c, b, p, a], q) == Some(BridgePoint(q, c, b, p))
              && BridgePoint(q, c, a, p).value != BridgePoint(q, c, b, p).value
  {
    var c := BridgeFact(1366, 1547, 400, 60.0, FiscalYtd);
    var a := BridgeFact(1001, 1365, 200, 100.0, FiscalYear);
    var b := BridgeFact(1001, 1365, 300, 110.0, FiscalYear);
    var p := BridgeFact(1001, 1182, 100, 50.0, FiscalYtd);
    var q := Query(1, REVENUE, 1547, Clock(0, 0));
    BestWhenLast([c, a, p, b], q, c, a, p);
    BestWhenLast([c, b, p, a], q, c, b, p);
    BestFirstWins([c, a, p, b], q, c, a, p);
    BestFirstWins([c, b, p, a], q, c, b, p);
  }
}
