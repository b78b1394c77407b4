/**
 The growth selector: one pass over the facts keeps the latest period and the
 comparable period before it.
 */
module Growth {
  import opened Wrappers
  import opened Facts
  import opened Selection
  import opened Ttm

  datatype Subject = Subject(security: nat, metric: int, clock: Clock)

  predicate Eligible(f: Fact, s: Subject) {
    && f.security == s.security && f.metric == s.metric
    && f.end > 0 && f.available > 0
    && ModelComparable(f, s.metric)
    && !TooOld(s.clock, f.available)
  }

  function EligibleOk(s: Subject): Fact -> bool { (f: Fact) => Eligible(f, s) }

  predicate Newer(a: Fact, b: Fact) { LaterPeriod()(a, b) }

  datatype Pair = Pair(latest: Option<Fact>, previous: Option<Fact>, flags: set<Quality>)

  /** What one eligible fact does to the pair. */
  function Seen(p: Pair, f: Fact): Pair {
    if p.latest.None? || Newer(f, p.latest.value) then
      Pair(Some(f),
           if p.latest.None? || f.end == p.latest.value.end then p.previous
           else if PeriodsComparable(f, p.latest.value) then p.latest
           else None,
           p.flags + f.flags)
    else if f.end == p.latest.value.end || !PeriodsComparable(f, p.latest.value) then p
    else if p.previous.None? || f.end > p.previous.value.end then
      Pair(p.latest, Some(f), p.flags + f.flags)
    else p
  }

  function Scan(facts: seq<Fact>, s: Subject): Pair {
    if facts == [] then Pair(None, None, {})
    else
      var f, p := facts[|facts| - 1], Scan(facts[..|facts| - 1], s);
      if Eligible(f, s) then Seen(p, f) else p
  }

  class MetricPair {
    var latest: Option<Fact>
    var previous: Option<Fact>
    var flags: set<Quality>

    function Value(): Pair reads this { Pair(latest, previous, flags) }

    constructor ()
      ensures Value() == Pair(None, None, {})
    {
      latest, previous, flags := None, None, {};
    }

    method ChooseLatestTwo(facts: seq<Fact>, s: Subject)
      modifies this
      ensures Value() == Scan(facts, s)
    {
      latest, previous, flags := None, None, {};
      for i := 0 to |facts|
        invariant Value() == Scan(facts[..i], s)
      {
        assert facts[..i + 1][..i] == facts[..i];
        var fact := facts[i];
        if !Eligible(fact, s) {
          continue;
        }
        if latest.None? || Newer(fact, latest.value) {
          if latest.Some? && fact.end != latest.value.end {
            if PeriodsComparable(fact, latest.value) {
              previous := latest;
            } else {
              previous := None;
            }
          }
          latest := Some(fact);
          flags := flags + fact.flags;
        } else if fact.end != latest.value.end {
          if !PeriodsComparable(fact, latest.value) {
            continue;
          }
          if previous.None? || fact.end > previous.value.end {
            previous := Some(fact);
            flags := flags + fact.flags;
          }
        }
      }
      assert facts[..|facts|] == facts;
    }
  }

  // ----- Safe in every scan order

  lemma {:induction false} LatestIsMaximum(facts: seq<Fact>, s: Subject)
    ensures Scan(facts, s).latest == Latest(facts, EligibleOk(s), LaterPeriod())
  {
    if facts != [] {
      LatestIsMaximum(facts[..|facts| - 1], s);
    }
  }

  /** Previous is an eligible fact of a strictly earlier period, and the flags of both facts are kept. */
  ghost predicate EarlierPrevious(facts: seq<Fact>, s: Subject, p: Pair) {
    && (p.latest.Some? ==> p.latest.value in facts && Eligible(p.latest.value, s) && p.latest.value.flags <= p.flags)
    && (p.previous.Some? ==>
          && p.previous.value in facts && Eligible(p.previous.value, s) && p.previous.value.flags <= p.flags
          && p.latest.Some? && p.previous.value.end < p.latest.value.end)
  }

  lemma {:induction false} PreviousIsEarlier(facts: seq<Fact>, s: Subject)
    ensures EarlierPrevious(facts, s, Scan(facts, s))
  {
    if facts != [] {
      var n := |facts| - 1;
      PreviousIsEarlier(facts[..n], s);
      assert facts == facts[..n] + [facts[n]];
    }
  }

  predicate Matched(p: Pair) {
    p.previous.Some? ==> p.latest.Some? && PeriodsComparable(p.latest.value, p.previous.value)
  }

  predicate SameShape(a: Fact, b: Fact) {
    && a.kind == b.kind && a.semantics == b.semantics && a.basis == b.basis
    && a.dimensions == b.dimensions && a.duration == b.duration
  }

  /** Eligible facts that end on the same day differ at most in value, flags and filing. */
  ghost predicate DayDeterminesShape(facts: seq<Fact>, s: Subject) {
    forall a, b :: a in facts && b in facts && Eligible(a, s) && Eligible(b, s) && a.end == b.end ==> SameShape(a, b)
  }

  /** In any scan order the previous period is comparable to the latest one. */
  lemma {:induction false} PairComparable(facts: seq<Fact>, s: Subject)
    requires DayDeterminesShape(facts, s)
    ensures Matched(Scan(facts, s))
  {
    PreviousIsEarlier(facts, s);
    if facts != [] {
      var n := |facts| - 1;
      assert facts == facts[..n] + [facts[n]];
      PairComparable(facts[..n], s);
      PreviousIsEarlier(facts[..n], s);
      var p, f := Scan(facts[..n], s), facts[n];
      if Eligible(f, s) && p.latest.Some? && f.end == p.latest.value.end {
        assert SameShape(f, p.latest.value);
      }
    }
  }

  // ----- Exact in the loader's order

  /** The loader's order: by period end, then by filing time. */
  ghost predicate Ascending(facts: seq<Fact>) {
    forall i, j :: 0 <= i < j < |facts| ==> !Newer(facts[i], facts[j])
  }

  function EarlierOk(s: Subject, day: int): Fact -> bool { (f: Fact) => Eligible(f, s) && f.end < day }

  /** The newest filing of the last eligible period before `day`. */
  function Preceding(facts: seq<Fact>, s: Subject, day: int): Option<Fact> {
    Latest(facts, EarlierOk(s, day), LaterPeriod())
  }

  /** The eligible fact of `day` scanned first. */
  function FirstOf(facts: seq<Fact>, s: Subject, day: int): Option<Fact> {
    if facts == [] then None
    else if Eligible(facts[0], s) && facts[0].end == day then Some(facts[0])
    else FirstOf(facts[1..], s, day)
  }

  lemma {:induction false} FirstOfSnoc(front: seq<Fact>, f: Fact, s: Subject, day: int)
    ensures FirstOf(front + [f], s, day) ==
            if FirstOf(front, s, day).Some? then FirstOf(front, s, day)
            else if Eligible(f, s) && f.end == day then Some(f) else None
  {
    if front == [] {
      assert front + [f] == [f];
    } else {
      assert (front + [f])[1..] == front[1..] + [f];
      FirstOfSnoc(front[1..], f, s, day);
    }
  }

  lemma {:induction false} FirstOfMember(facts: seq<Fact>, s: Subject, day: int)
    ensures var r := FirstOf(facts, s, day);
            && (r.Some? ==> r.value in facts && Eligible(r.value, s) && r.value.end == day)
            && (r.None? ==> forall f :: f in facts && Eligible(f, s) ==> f.end != day)
  {
    if facts != [] {
      assert facts == [facts[0]] + facts[1..];
      FirstOfMember(facts[1..], s, day);
    }
  }

  function ComparableTo(f: Option<Fact>, p: Option<Fact>): Option<Fact> {
    if f.Some? && p.Some? && PeriodsComparable(f.value, p.value) then p else None
  }

  /** What the pair holds after a scan in the loader's order, whatever the shapes. */
  ghost predicate OrderedPair(facts: seq<Fact>, s: Subject, p: Pair) {
    match p.latest
    case None => p.previous.None?
    case Some(latest) =>
      p.previous == ComparableTo(FirstOf(facts, s, latest.end), Preceding(facts, s, latest.end))
  }

  lemma EarlierThanAll(facts: seq<Fact>, s: Subject, day: int)
    requires forall f :: f in facts && Eligible(f, s) ==> f.end < day
    ensures Preceding(facts, s, day) == Latest(facts, EligibleOk(s), LaterPeriod())
  {
    LatestCongruent(facts, EarlierOk(s, day), EligibleOk(s), LaterPeriod());
  }

  lemma PrecedingSkips(front: seq<Fact>, f: Fact, s: Subject, day: int)
    requires !Eligible(f, s) || f.end >= day
    ensures Preceding(front + [f], s, day) == Preceding(front, s, day)
  {
    assert (front + [f])[..|front|] == front;
  }

  /**
   In the loader's order previous is the newest filing of the preceding period,
   kept exactly when it is comparable to the first fact of the latest day.
   */
  lemma {:induction false} OrderedScan(facts: seq<Fact>, s: Subject)
    requires Ascending(facts)
    ensures OrderedPair(facts, s, Scan(facts, s))
  {
    if facts != [] {
      var n := |facts| - 1;
      var front, f := facts[..n], facts[n];
      assert facts == front + [f];
      OrderedScan(front, s);
      var p := Scan(front, s);
      PreviousIsEarlier(front, s);
      LatestDominates(front, s);
      if !Eligible(f, s) {
        if p.latest.Some? {
          FirstOfSnoc(front, f, s, p.latest.value.end);
          PrecedingSkips(front, f, s, p.latest.value.end);
        }
      } else {
        OrderedStep(front, f, s);
      }
    }
  }

  lemma LatestDominates(facts: seq<Fact>, s: Subject)
    ensures var p := Scan(facts, s);
            forall f :: f in facts && Eligible(f, s) ==> p.latest.Some? && f.end <= p.latest.value.end
  {
    LatestIsMaximum(facts, s);
    NewerRanks();
    LatestMember(facts, EligibleOk(s), LaterPeriod());
    assert forall f :: Eligible(f, s) ==> EligibleOk(s)(f);
  }

  lemma OrderedStep(front: seq<Fact>, f: Fact, s: Subject)
    requires Ascending(front + [f]) && Eligible(f, s) && OrderedPair(front, s, Scan(front, s))
    ensures OrderedPair(front + [f], s, Seen(Scan(front, s), f))
  {
    var p := Scan(front, s);
    PreviousIsEarlier(front, s);
    LatestDominates(front, s);
    FirstOfSnoc(front, f, s, f.end);
    FirstOfMember(front, s, f.end);
    PrecedingSkips(front, f, s, f.end);
    if p.latest.Some? {
      NotOlder(front, f, p.latest.value);
    }
    if p.latest.None? || p.latest.value.end < f.end {
      EarlierThanAll(front, s, f.end);
      LatestIsMaximum(front, s);
    }
  }

  lemma NotOlder(front: seq<Fact>, f: Fact, g: Fact)
    requires Ascending(front + [f]) && g in front
    ensures g.end <= f.end
  {
    var i :| 0 <= i < |front| && front[i] == g;
    assert (front + [f])[i] == g && (front + [f])[|front|] == f;
  }

  /** When the day determines the shape, the pair is exact: latest, and the preceding period when comparable. */
  lemma PairExact(facts: seq<Fact>, s: Subject)
    requires Ascending(facts) && DayDeterminesShape(facts, s)
    ensures var p := Scan(facts, s);
            && p.latest == Latest(facts, EligibleOk(s), LaterPeriod())
            && (p.latest.Some? ==> p.previous == ComparableTo(p.latest, Preceding(facts, s, p.latest.value.end)))
  {
    LatestIsMaximum(facts, s);
    OrderedScan(facts, s);
    PreviousIsEarlier(facts, s);
    var p := Scan(facts, s);
    if p.latest.Some? {
      FirstOfMember(facts, s, p.latest.value.end);
      var first := FirstOf(facts, s, p.latest.value.end);
      assert first.Some?;
      assert SameShape(first.value, p.latest.value);
    }
  }

  /**
   Without that hypothesis, in the loader's order, the pair is comparable exactly
   when the latest filing and the first filing of its day agree on whether the
   preceding period is, or the first filing already rejected it.
   */
  lemma ComparableExactly(facts: seq<Fact>, s: Subject)
    requires Ascending(facts) && Latest(facts, EligibleOk(s), LaterPeriod()).Some?
    ensures var latest := Latest(facts, EligibleOk(s), LaterPeriod()).value;
            var kept := ComparableTo(FirstOf(facts, s, latest.end), Preceding(facts, s, latest.end));
            Matched(Scan(facts, s)) <==> (kept.Some? ==> PeriodsComparable(latest, kept.value))
  {
    OrderedScan(facts, s);
    LatestIsMaximum(facts, s);
  }

  function RevenueFact(start: int, end: int, available: int, basis: int): Fact
    requires start <= end
  {
    Fact(1, REVENUE, 100.0, start, end, available, {}, Flow, FiscalQuarter, basis, Selected, end - start + 1, 0)
  }

  /** An amendment of the latest day on another basis leaves a previous period it is not comparable to. */
  lemma AmendmentKeepsPrevious()
    ensures exists facts: seq<Fact>, s: Subject ::
              && Ascending(facts)
              && !Matched(Scan(facts, s))
  {
    var a, b, c := RevenueFact(1, 90, 100, 103), RevenueFact(91, 180, 200, 103), RevenueFact(91, 180, 300, 101);
    var s := Subject(1, REVENUE, Clock(0, 0));
    var one, two, three := [a], [a, b], [a, b, c];
    assert one[..0] == [] && two[..1] == one && three[..2] == two;
    assert Scan(one, s) == Pair(Some(a), None, {});
    assert Scan(two, s) == Pair(Some(b), Some(a), {});
    assert Scan(three, s) == Pair(Some(c), Some(a), {});
    assert Ascending(three);
  }

  /** Out of the loader's order the previous period may depend on the order: an incomparable quarter hides an older one. */
  lemma PreviousDependsOnOrder()
    ensures exists a: Fact, b: Fact, c: Fact, s: Subject ::
              DayDeterminesShape([a, b, c], s) && Scan([a, b, c], s).previous != Scan([a, c, b], s).previous
  {
    var a, b, c := RevenueFact(1, 90, 100, 103), RevenueFact(91, 180, 200, 101), RevenueFact(181, 270, 300, 103);
    var s := Subject(1, REVENUE, Clock(0, 0));
    assert [a][..0] == [] && [a, b][..1] == [a] && [a, b, c][..2] == [a, b];
    assert [a, c][..1] == [a] && [a, c, b][..2] == [a, c];
    assert Scan([a], s) == Pair(Some(a), None, {});
    assert Scan([a, b], s) == Pair(Some(b), None, {});
    assert Scan([a, b, c], s) == Pair(Some(c), None, {});
    assert Scan([a, c], s) == Pair(Some(c), Some(a), {});
    assert Scan([a, c, b], s) == Pair(Some(c), Some(a), {});
  }
}
