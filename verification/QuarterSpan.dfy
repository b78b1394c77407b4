/**
 What the sum of four quarters means when the facts are sums of a daily flow:
 exactly when they tile the span from the earliest start to the anchor.
 */
module QuarterSpan {
  import opened Facts
  import opened Windows
  import opened Ttm
  import opened TtmAccuracy

  /** Each quarter starts the day after the next older one ends. */
  predicate Contiguous(qs: seq<Fact>) {
    forall i :: 0 <= i < |qs| - 1 ==> qs[i].start == qs[i + 1].end + 1
  }

  /** Real periods, latest end first. */
  ghost predicate Periods(qs: seq<Fact>) {
    StrictDesc(Ends(qs)) && forall i :: 0 <= i < |qs| ==> 0 < qs[i].start <= qs[i].end
  }

  /** The flows of the periods, added up. */
  function PeriodFlow(daily: int -> real, qs: seq<Fact>): real {
    if qs == [] then 0.0
    else PeriodFlow(daily, qs[..|qs| - 1]) + FlowOver(daily, qs[|qs| - 1].start, qs[|qs| - 1].end)
  }

  /** The flow from the earliest start to the latest end. */
  function SpanFlow(daily: int -> real, qs: seq<Fact>): real
    requires qs != []
  {
    FlowOver(daily, EarliestStart(qs, qs[0].start), qs[0].end)
  }

  lemma FrontPeriods(qs: seq<Fact>)
    requires |qs| > 1 && Periods(qs)
    ensures Periods(qs[..|qs| - 1]) && qs[..|qs| - 1][0] == qs[0]
    ensures Contiguous(qs) ==> Contiguous(qs[..|qs| - 1])
  {
    var front := qs[..|qs| - 1];
    assert Ends(front) == Ends(qs)[..|qs| - 1];
    assert forall i :: 0 <= i < |front| ==> front[i] == qs[i];
  }

  lemma SinglePeriod(qs: seq<Fact>, daily: int -> real)
    requires |qs| == 1
    ensures PeriodFlow(daily, qs) == FlowOver(daily, qs[0].start, qs[0].end)
    ensures EarliestStart(qs, qs[0].start) == qs[0].start
  {
    assert qs[..0] == [];
    assert PeriodFlow(daily, []) == 0.0 && EarliestStart([], qs[0].start) == qs[0].start;
  }

  // ----- Contiguous periods add up

  lemma {:induction false} ContiguousCovers(qs: seq<Fact>, daily: int -> real)
    requires qs != [] && Periods(qs) && Contiguous(qs)
    ensures EarliestStart(qs, qs[0].start) == qs[|qs| - 1].start <= qs[0].end
    ensures PeriodFlow(daily, qs) == SpanFlow(daily, qs)
  {
    var n := |qs| - 1;
    if n == 0 {
      SinglePeriod(qs, daily);
    } else {
      FrontPeriods(qs);
      ContiguousCovers(qs[..n], daily);
      assert qs[..n][n - 1] == qs[n - 1] && qs[n - 1].start == qs[n].end + 1;
      FlowSplits(daily, qs[n].start, qs[n].end, qs[0].end);
    }
  }

  // ----- Periods that leave a gap or overlap do not

  /** One unit of flow, on day `d`. */
  function OneDay(d: int): int -> real { (x: int) => if x == d then 1.0 else 0.0 }

  lemma {:induction false} OneDayFlow(d: int, lo: int, hi: int)
    ensures FlowOver(OneDay(d), lo, hi) == if lo <= d <= hi then 1.0 else 0.0
    decreases hi - lo
  {
    if lo <= hi {
      OneDayFlow(d, lo, hi - 1);
    }
  }

  predicate CoversDay(f: Fact, d: int) { f.start <= d <= f.end }

  lemma {:induction false} Uncovered(qs: seq<Fact>, d: int)
    requires forall i :: 0 <= i < |qs| ==> !CoversDay(qs[i], d)
    ensures PeriodFlow(OneDay(d), qs) == 0.0
  {
    if qs != [] {
      var n := |qs| - 1;
      Uncovered(qs[..n], d);
      OneDayFlow(d, qs[n].start, qs[n].end);
      assert !CoversDay(qs[n], d);
    }
  }

  lemma {:induction false} CoveredBy(qs: seq<Fact>, d: int, i: nat, j: nat)
    requires i <= j < |qs| && CoversDay(qs[i], d) && CoversDay(qs[j], d)
    ensures PeriodFlow(OneDay(d), qs) >= if i < j then 2.0 else 1.0
  {
    var n := |qs| - 1;
    OneDayFlow(d, qs[n].start, qs[n].end);
    if j < n {
      CoveredBy(qs[..n], d, i, j);
    } else if i < n {
      CoveredBy(qs[..n], d, i, i);
    } else {
      FlowNonNegative(qs[..n], d);
    }
  }

  lemma {:induction false} FlowNonNegative(qs: seq<Fact>, d: int)
    ensures PeriodFlow(OneDay(d), qs) >= 0.0
  {
    if qs != [] {
      FlowNonNegative(qs[..|qs| - 1], d);
      OneDayFlow(d, qs[|qs| - 1].start, qs[|qs| - 1].end);
    }
  }

  lemma {:induction false} EarliestBelow(qs: seq<Fact>, s0: int, i: nat)
    requires s0 > 0 && i < |qs| && forall k :: 0 <= k < |qs| ==> qs[k].start > 0
    ensures 0 < EarliestStart(qs, s0) <= qs[i].start
  {
    var n := |qs| - 1;
    if n > 0 {
      EarliestBelow(qs[..n], s0, if i < n then i else 0);
    } else {
      assert qs[..0] == [];
    }
  }

  /** The first place where a period does not start right after the next older one ends. */
  lemma FirstBreak(qs: seq<Fact>) returns (i: nat)
    requires !Contiguous(qs)
    ensures i < |qs| - 1 && qs[i].start != qs[i + 1].end + 1
    ensures forall k :: 0 <= k < i ==> qs[k].start == qs[k + 1].end + 1
  {
    i := 0;
    while qs[i].start == qs[i + 1].end + 1
      invariant i < |qs| - 1
      invariant forall k :: 0 <= k < i ==> qs[k].start == qs[k + 1].end + 1
      decreases |qs| - i
    {
      assert i + 1 < |qs| - 1;
      i := i + 1;
    }
  }

  /** A day counted twice, or not at all, inside the span. */
  lemma BrokenSpan(qs: seq<Fact>) returns (d: int)
    requires Periods(qs) && !Contiguous(qs)
    ensures PeriodFlow(OneDay(d), qs) != SpanFlow(OneDay(d), qs)
  {
    var i := FirstBreak(qs);
    EarliestBelow(qs, qs[0].start, i + 1);
    assert forall a, b :: 0 <= a < b < |qs| ==> Ends(qs)[a] > Ends(qs)[b];
    d := if qs[i].start <= qs[i + 1].end then qs[i + 1].end else qs[i + 1].end + 1;
    OneDayFlow(d, EarliestStart(qs, qs[0].start), qs[0].end);
    if qs[i].start <= qs[i + 1].end {
      CoveredBy(qs, d, i, i + 1);
    } else {
      forall k | 0 <= k < |qs| ensures !CoversDay(qs[k], d) {
        if k < i {
          assert qs[k].start == qs[k + 1].end + 1 && qs[k + 1].end >= qs[i].end;
        }
      }
      Uncovered(qs, d);
    }
  }

  /** For periods in descending order, the flows add up to the flow of the span, whatever the flow, exactly when
      each starts the day after the next older one ends. */
  lemma PeriodsExactly(qs: seq<Fact>)
    requires qs != [] && Periods(qs)
    ensures (forall daily :: PeriodFlow(daily, qs) == SpanFlow(daily, qs)) <==> Contiguous(qs)
  {
    if Contiguous(qs) {
      forall daily ensures PeriodFlow(daily, qs) == SpanFlow(daily, qs) {
        ContiguousCovers(qs, daily);
      }
    } else {
      var d := BrokenSpan(qs);
    }
  }

  // ----- The four quarters of a trailing year

  lemma {:induction false} ReportedFlow(qs: seq<Fact>, daily: int -> real)
    requires forall f :: f in qs ==> Measures(daily, f)
    ensures SumValues(qs) == PeriodFlow(daily, qs)
  {
    if qs != [] {
      var n := |qs| - 1;
      assert qs == qs[..n] + [qs[n]];
      assert qs[n] in qs;
      ReportedFlow(qs[..n], daily);
    }
  }

  /** The value is the sum of the four period flows. Whatever the daily flow, that sum is the flow from the reported
      start to the anchor exactly when the quarters are contiguous. */
  lemma QuartersExactly(facts: seq<Fact>, q: Query)
    requires QuarterTtm(facts, q).Some?
    requires forall f :: f in Window(facts, QuarterOk(q)) ==> 0 < f.start <= f.end
    ensures var x, qs := QuarterTtm(facts, q).value, Window(facts, QuarterOk(q));
            && x.end == q.anchor
            && (forall daily :: AllMeasured(facts, q, daily) ==> x.value == PeriodFlow(daily, qs))
            && ((forall daily :: PeriodFlow(daily, qs) == FlowOver(daily, x.start, q.anchor)) <==> Contiguous(qs))
  {
    var qs := Window(facts, QuarterOk(q));
    WindowExact(facts, QuarterOk(q));
    WindowUsable(facts, QuarterOk(q));
    assert forall f :: f in qs ==> BasicUsable(f, q);
    assert forall i :: 0 <= i < |qs| ==> qs[i] in qs;
    PeriodsExactly(qs);
    forall daily | AllMeasured(facts, q, daily) ensures SumValues(qs) == PeriodFlow(daily, qs) {
      ReportedFlow(qs, daily);
    }
  }

  /** Four contiguous quarters give exactly the flow from the reported start to the anchor. */
  lemma QuartersExact(facts: seq<Fact>, q: Query, daily: int -> real)
    requires AllMeasured(facts, q, daily) && QuarterTtm(facts, q).Some?
    requires Contiguous(Window(facts, QuarterOk(q)))
    requires forall f :: f in Window(facts, QuarterOk(q)) ==> f.start > 0
    ensures var x := QuarterTtm(facts, q).value;
            x.end == q.anchor && x.value == FlowOver(daily, x.start, q.anchor)
  {
    WindowUsable(facts, QuarterOk(q));
    assert forall f :: f in Window(facts, QuarterOk(q)) ==> BasicUsable(f, q);
    QuartersExactly(facts, q);
    assert PeriodFlow(daily, Window(facts, QuarterOk(q))) == FlowOver(daily, QuarterTtm(facts, q).value.start, q.anchor);
  }

  /** Contiguous quarters with true durations span 280 to 440 days. */
  lemma QuartersDuration(facts: seq<Fact>, q: Query)
    requires QuarterTtm(facts, q).Some? && Contiguous(Window(facts, QuarterOk(q)))
    requires forall f :: f in Window(facts, QuarterOk(q)) ==> 0 < f.start && Dated(f)
    ensures 280 <= q.anchor - QuarterTtm(facts, q).value.start + 1 <= 440
  {
    var qs := Window(facts, QuarterOk(q));
    WindowExact(facts, QuarterOk(q));
    WindowUsable(facts, QuarterOk(q));
    forall i | 0 <= i < |qs| ensures 0 < qs[i].start && Dated(qs[i]) && QuarterLike(qs[i].duration) {
      assert qs[i] in qs && QuarterUsable(qs[i], q);
    }
    ContiguousCovers(qs, OneDay(0));
    FourDurations(qs);
  }

  lemma FourDurations(qs: seq<Fact>)
    requires |qs| == 4 && Contiguous(qs)
    requires forall i :: 0 <= i < 4 ==> Dated(qs[i]) && QuarterLike(qs[i].duration)
    ensures 280 <= qs[0].end - qs[3].start + 1 <= 440
  {
    assert qs[0].start == qs[1].end + 1 && qs[1].start == qs[2].end + 1 && qs[2].start == qs[3].end + 1;
  }

  // ----- Quarters that leave a gap are accepted

  lemma PlacedLast<T>(w: seq<T>, x: T, cap: nat)
    requires |w| < cap
    ensures Placed(w, |w|, x, cap) == w + [x]
  {
  }

  lemma LatestOfAll(ends: seq<int>, d: int)
    requires StrictDesc(ends + [d])
    ensures StrictDesc(ends) && d !in ends && Rank(ends, d) == |ends|
  {
    var all := ends + [d];
    assert forall i :: 0 <= i < |ends| ==> ends[i] == all[i] && all[i] > all[|ends|];
    RankUnique(ends, d, |ends|);
  }

  /** Eligible facts scanned from the latest day down are their own window. */
  lemma {:induction false} WindowOf(facts: seq<Fact>, ok: Fact -> bool)
    requires |facts| <= MAX_QUARTERS && StrictDesc(Ends(facts))
    requires forall i :: 0 <= i < |facts| ==> ok(facts[i])
    ensures Window(facts, ok) == facts
  {
    if facts != [] {
      var n := |facts| - 1;
      assert Ends(facts) == Ends(facts[..n]) + [facts[n].end];
      LatestOfAll(Ends(facts[..n]), facts[n].end);
      WindowOf(facts[..n], ok);
      PlacedLast(facts[..n], facts[n], MAX_QUARTERS);
    }
  }

  function QuarterFact(start: int, end: int): Fact
    requires start <= end
  {
    Fact(1, REVENUE, 0.0, start, end, 1, {}, Flow, FiscalQuarter, 104, Selected, end - start + 1, 0)
  }

  /** Contiguity is not checked: a missing quarter is replaced by one from the year before. */
  lemma QuartersMayGap()
    ensures exists facts: seq<Fact>, q: Query ::
              && QuarterTtm(facts, q).Some?
              && (forall f :: f in facts ==> Dated(f))
              && !Contiguous(Window(facts, QuarterOk(q)))
              && q.anchor - QuarterTtm(facts, q).value.start + 1 > 440
  {
    var a, b, c, d := QuarterFact(1001, 1090), QuarterFact(911, 1000), QuarterFact(821, 910), QuarterFact(1, 90);
    var q := Query(1, REVENUE, 1090, Clock(0, 0));
    var facts := [a, b, c, d];
    WindowOf(facts, QuarterOk(q));
    assert QuarterTtm(facts, q).Some?;
    assert !Contiguous(facts);
  }
}
