/**
 What a bridged value means when the facts are sums of a daily flow: it is right
 up to the two week-long tolerances of its periods.
 */
module TtmAccuracy {
  import opened Facts
  import opened Ttm

  /** The flow over the days `lo` to `hi`, both included. */
  function FlowOver(daily: int -> real, lo: int, hi: int): real
    decreases hi - lo
  {
    if hi < lo then 0.0 else FlowOver(daily, lo, hi - 1) + daily(hi)
  }

  ghost predicate Bounded(daily: int -> real, m: real) {
    forall d :: -m <= daily(d) <= m
  }

  /** A fact reports the flow of its own period. */
  predicate Measures(daily: int -> real, f: Fact) {
    f.start <= f.end && f.value == FlowOver(daily, f.start, f.end)
  }

  /** The recorded duration counts both end dates. */
  predicate Dated(f: Fact) {
    f.duration == f.end - f.start + 1
  }

  ghost predicate AllMeasured(facts: seq<Fact>, q: Query, daily: int -> real) {
    forall f :: f in facts && BasicUsable(f, q) ==> Measures(daily, f)
  }

  lemma {:induction false} FlowSplits(daily: int -> real, lo: int, mid: int, hi: int)
    requires lo - 1 <= mid <= hi
    ensures FlowOver(daily, lo, hi) == FlowOver(daily, lo, mid) + FlowOver(daily, mid + 1, hi)
    decreases hi - mid
  {
    if mid < hi {
      FlowSplits(daily, lo, mid, hi - 1);
    }
  }

  /** The most that `n` days of a flow bounded by `m` can add up to. */
  function Worth(m: real, n: nat): real {
    if n == 0 then 0.0 else Worth(m, n - 1) + m
  }

  lemma {:induction false} WorthAdds(m: real, i: nat, j: nat)
    ensures Worth(m, i + j) == Worth(m, i) + Worth(m, j)
  {
    if j > 0 {
      WorthAdds(m, i, j - 1);
    }
  }

  lemma {:induction false} WorthGrows(m: real, i: nat, j: nat)
    requires m >= 0.0 && i <= j
    ensures Worth(m, i) <= Worth(m, j)
  {
    if i < j {
      WorthGrows(m, i, j - 1);
    }
  }

  lemma WorthOfFortnight(m: real)
    ensures Worth(m, 14) == 14.0 * m
  {
    assert Worth(m, 1) == m;
    assert Worth(m, 2) == 2.0 * m;
    assert Worth(m, 3) == 3.0 * m;
    assert Worth(m, 4) == 4.0 * m;
    assert Worth(m, 5) == 5.0 * m;
    assert Worth(m, 6) == 6.0 * m;
    assert Worth(m, 7) == 7.0 * m;
    WorthAdds(m, 7, 7);
  }

  lemma {:induction false} FlowBound(daily: int -> real, m: real, lo: int, hi: int)
    requires Bounded(daily, m) && lo - 1 <= hi
    ensures Abs(FlowOver(daily, lo, hi)) <= Worth(m, hi - lo + 1)
    decreases hi - lo
  {
    if lo <= hi {
      FlowBound(daily, m, lo, hi - 1);
      assert -m <= daily(hi) <= m;
    }
  }

  /** Cumulative flows from a common base differ by at most `m` a day. */
  lemma CumulativeGap(daily: int -> real, m: real, base: int, x: int, y: int)
    requires Bounded(daily, m) && base - 1 <= x && base - 1 <= y
    ensures Abs(FlowOver(daily, base, y) - FlowOver(daily, base, x)) <= Worth(m, Apart(x, y))
  {
    if x <= y {
      FlowSplits(daily, base, x, y);
      FlowBound(daily, m, x + 1, y);
    } else {
      FlowSplits(daily, base, y, x);
      FlowBound(daily, m, y + 1, x);
    }
  }

  lemma AsCumulative(daily: int -> real, base: int, f: Fact)
    requires Measures(daily, f) && base <= f.start
    ensures f.value == FlowOver(daily, base, f.end) - FlowOver(daily, base, f.start - 1)
  {
    FlowSplits(daily, base, f.start - 1, f.end);
  }

  /** How far the year end and the two year starts are from meeting exactly. */
  function Gaps(c: Fact, a: Fact, p: Fact): nat { Apart(a.end + 1, c.start) + Apart(p.start, a.start) }

  lemma TwoGaps(ae: real, cs: real, ps: real, start: real, ce: real, pe: real, b: real, c: real)
    requires Abs(ae - cs) <= b && Abs(ps - start) <= c
    ensures Abs((ae - start) + (ce - cs) - (pe - ps) - (ce - pe)) <= b + c
  {
  }

  /** The bridge formula misses the flow since the prior period's end by at most `m` per day of gap. */
  lemma BridgeFormula(daily: int -> real, m: real, c: Fact, a: Fact, p: Fact)
    requires Bounded(daily, m)
    requires Measures(daily, c) && Measures(daily, a) && Measures(daily, p)
    requires p.end < a.end < c.end
    ensures Abs(a.value + c.value - p.value - FlowOver(daily, p.end + 1, c.end)) <= Worth(m, Gaps(c, a, p))
  {
    var base := Min(p.start, Min(a.start, c.start));
    AsCumulative(daily, base, c);
    AsCumulative(daily, base, a);
    AsCumulative(daily, base, p);
    FlowSplits(daily, base, p.end, c.end);
    CumulativeGap(daily, m, base, c.start - 1, a.end);
    CumulativeGap(daily, m, base, a.start - 1, p.start - 1);
    var i, j := Apart(c.start - 1, a.end), Apart(a.start - 1, p.start - 1);
    WorthAdds(m, i, j);
    TwoGaps(FlowOver(daily, base, a.end), FlowOver(daily, base, c.start - 1), FlowOver(daily, base, p.start - 1),
            FlowOver(daily, base, a.start - 1), FlowOver(daily, base, c.end), FlowOver(daily, base, p.end),
            Worth(m, i), Worth(m, j));
    assert i + j == Gaps(c, a, p);
  }

  function Min(a: int, b: int): int { if a <= b then a else b }

  lemma BridgeSpan(q: Query, c: Fact, a: Fact, p: Fact)
    requires Bridges(q, c, a, p) && Dated(c) && Dated(a) && Dated(p)
    ensures 309 <= q.anchor - p.end <= 401
    ensures Gaps(c, a, p) == 0 ==> 323 <= q.anchor - p.end <= 387
  {
  }

  /**
   The bridge over facts that sum a daily flow bounded by `m`: the value is
   within 14 days' flow of the flow since the prior period's end, and exact when
   the periods meet exactly.
   */
  ghost predicate Accurate(daily: int -> real, m: real, q: Query, x: Point, c: Fact, a: Fact, p: Fact) {
    var truth := FlowOver(daily, p.end + 1, q.anchor);
    && Abs(x.value - truth) <= 14.0 * m
    && (Gaps(c, a, p) == 0 ==> x.value == truth)
    && (Dated(c) && Dated(a) && Dated(p) ==> 309 <= q.anchor - p.end <= 401)
    && (Dated(c) && Dated(a) && Dated(p) && Gaps(c, a, p) == 0 ==> 323 <= q.anchor - p.end <= 387)
  }

  lemma AccurateTriple(q: Query, daily: int -> real, m: real, c: Fact, a: Fact, p: Fact)
    requires Bounded(daily, m) && Bridges(q, c, a, p)
    requires Measures(daily, c) && Measures(daily, a) && Measures(daily, p)
    ensures Accurate(daily, m, q, BridgePoint(q, c, a, p), c, a, p)
  {
    BridgeFormula(daily, m, c, a, p);
    assert -m <= daily(0) <= m;
    WorthGrows(m, Gaps(c, a, p), 14);
    WorthOfFortnight(m);
    if Dated(c) && Dated(a) && Dated(p) {
      BridgeSpan(q, c, a, p);
    }
  }

  lemma BridgeAccurate(facts: seq<Fact>, q: Query, daily: int -> real, m: real)
    requires Bounded(daily, m) && AllMeasured(facts, q, daily)
    requires Bridge(facts, q).Some?
    ensures exists c, a, p :: Triple(facts, q, c, a, p) && Accurate(daily, m, q, Bridge(facts, q).value, c, a, p)
  {
    BridgeOrigin(facts, q);
    var c, a, p :| Proposed(facts, q, c, a, p) && Bridge(facts, q).value == BridgePoint(q, c, a, p);
    assert BasicUsable(p, q);
    AccurateTriple(q, daily, m, c, a, p);
    assert Accurate(daily, m, q, Bridge(facts, q).value, c, a, p);
  }
}
