/**
 Exactly when the growth selector's previous period does not depend on the order
 of the facts.
 */
module GrowthOrder {
  import opened Wrappers
  import opened Ordering
  import opened Facts
  import opened Selection
  import opened Ttm
  import opened Growth

  /** `l` ends on the latest eligible day. */
  ghost predicate OnLatestDay(facts: seq<Fact>, s: Subject, l: Fact) {
    l in facts && Eligible(l, s) && forall f :: f in facts && Eligible(f, s) ==> f.end <= l.end
  }

  ghost predicate Earlier(facts: seq<Fact>, s: Subject, l: Fact, f: Fact) {
    f in facts && Eligible(f, s) && f.end < l.end
  }

  ghost predicate NoneComparable(facts: seq<Fact>, s: Subject, l: Fact) {
    forall f :: Earlier(facts, s, l, f) ==> !PeriodsComparable(l, f)
  }

  /** `p` is comparable, and every eligible filing of its day, which immediately precedes that of `l`, reports its
      value. */
  ghost predicate SoleNeighbour(facts: seq<Fact>, s: Subject, l: Fact, p: Fact) {
    && Earlier(facts, s, l, p) && PeriodsComparable(l, p)
    && forall f :: Earlier(facts, s, l, f) ==> f.end < p.end || (f.end == p.end && f.value == p.value)
  }

  /** What the selector keeps of a previous period: its value and its end. */
  function PreviousOf(p: Pair): Option<(real, int)> {
    if p.previous.Some? then Some((p.previous.value.value, p.previous.value.end)) else None
  }

  /** The condition reads off the facts, whatever their order. */
  ghost predicate PreviousFixed(facts: seq<Fact>, s: Subject) {
    forall l :: OnLatestDay(facts, s, l) ==>
      NoneComparable(facts, s, l) || exists p :: SoleNeighbour(facts, s, l, p)
  }

  ghost predicate PreviousOrderFree(facts: seq<Fact>, s: Subject) {
    forall facts' :: multiset(facts') == multiset(facts) ==> PreviousOf(Scan(facts', s)) == PreviousOf(Scan(facts, s))
  }

  lemma ScanSnoc(front: seq<Fact>, f: Fact, s: Subject)
    ensures Scan(front + [f], s) == if Eligible(f, s) then Seen(Scan(front, s), f) else Scan(front, s)
  {
    assert (front + [f])[..|front|] == front;
  }

  lemma SameMembers(facts: seq<Fact>, facts': seq<Fact>, s: Subject)
    requires multiset(facts') == multiset(facts)
    ensures forall f :: f in facts' <==> f in facts
    ensures DayDeterminesShape(facts, s) ==> DayDeterminesShape(facts', s)
    ensures forall l, f :: Earlier(facts', s, l, f) <==> Earlier(facts, s, l, f)
    ensures forall l :: OnLatestDay(facts', s, l) <==> OnLatestDay(facts, s, l)
  {
    MultisetMember(facts', facts);
  }

  lemma ShapesCompare(a: Fact, b: Fact, f: Fact)
    requires SameShape(a, b)
    ensures PeriodsComparable(a, f) == PeriodsComparable(b, f)
    ensures PeriodsComparable(f, a) == PeriodsComparable(a, f)
  {
  }

  // ----- The condition fixes previous

  lemma NothingKept(facts: seq<Fact>, s: Subject, l: Fact)
    requires DayDeterminesShape(facts, s) && OnLatestDay(facts, s, l) && NoneComparable(facts, s, l)
    ensures Scan(facts, s).previous.None?
  {
    var p := Scan(facts, s);
    PairComparable(facts, s);
    PreviousIsEarlier(facts, s);
    LatestDominates(facts, s);
    if p.previous.Some? {
      assert SameShape(p.latest.value, l);
      ShapesCompare(p.latest.value, l, p.previous.value);
      assert Earlier(facts, s, l, p.previous.value);
    }
  }

  ghost predicate DaySeen(front: seq<Fact>, s: Subject, day: int) {
    exists f :: f in front && Eligible(f, s) && f.end == day
  }

  /** Part of the facts scanned: the neighbouring day, once seen, is latest until the latest day is, and previous then. */
  ghost predicate NeighbourKept(front: seq<Fact>, s: Subject, l: Fact, p: Fact) {
    DaySeen(front, s, p.end) ==>
      var pair := Scan(front, s);
      && pair.latest.Some?
      && if pair.latest.value.end == l.end then PreviousOf(pair) == Some((p.value, p.end))
         else pair.latest.value.end == p.end
  }

  lemma OfTheseDays(facts: seq<Fact>, s: Subject, l: Fact, p: Fact, x: Fact, y: Fact)
    requires DayDeterminesShape(facts, s) && OnLatestDay(facts, s, l) && Earlier(facts, s, l, p) && PeriodsComparable(l, p)
    requires x in facts && Eligible(x, s) && x.end == l.end && y in facts && Eligible(y, s) && y.end == p.end
    ensures PeriodsComparable(x, y) && PeriodsComparable(y, x)
  {
    assert SameShape(l, x) && SameShape(p, y);
    ShapesCompare(l, x, p);
    ShapesCompare(p, y, x);
    ShapesCompare(x, x, p);
  }

  lemma NeighbourStep(facts: seq<Fact>, s: Subject, l: Fact, p: Fact, front: seq<Fact>, f: Fact)
    requires DayDeterminesShape(facts, s) && OnLatestDay(facts, s, l) && SoleNeighbour(facts, s, l, p)
    requires (forall x :: x in front ==> x in facts) && f in facts && Eligible(f, s)
    requires NeighbourKept(front, s, l, p)
    ensures NeighbourKept(front + [f], s, l, p)
  {
    var pair := Scan(front, s);
    ScanSnoc(front, f, s);
    PreviousIsEarlier(front, s);
    assert f.end == l.end || Earlier(facts, s, l, f);
    assert DaySeen(front + [f], s, p.end) <==> DaySeen(front, s, p.end) || f.end == p.end;
    if pair.latest.Some? {
      var latest := pair.latest.value;
      assert latest.end == l.end || Earlier(facts, s, l, latest);
      assert pair.previous.Some? && latest.end == l.end ==> Earlier(facts, s, l, pair.previous.value);
      if latest.end == l.end && f.end == p.end {
        OfTheseDays(facts, s, l, p, latest, f);
      } else if latest.end == p.end && f.end == l.end {
        OfTheseDays(facts, s, l, p, f, latest);
      }
    }
  }

  lemma {:induction false} NeighbourWins(facts: seq<Fact>, s: Subject, l: Fact, p: Fact, n: nat)
    requires DayDeterminesShape(facts, s) && OnLatestDay(facts, s, l) && SoleNeighbour(facts, s, l, p)
    requires n <= |facts|
    ensures NeighbourKept(facts[..n], s, l, p)
  {
    if n > 0 {
      var f := facts[n - 1];
      NeighbourWins(facts, s, l, p, n - 1);
      assert facts[..n] == facts[..n - 1] + [f];
      ScanSnoc(facts[..n - 1], f, s);
      if Eligible(f, s) {
        NeighbourStep(facts, s, l, p, facts[..n - 1], f);
      }
    }
  }

  lemma NeighbourIsPrevious(facts: seq<Fact>, s: Subject, l: Fact, p: Fact)
    requires DayDeterminesShape(facts, s) && OnLatestDay(facts, s, l) && SoleNeighbour(facts, s, l, p)
    ensures PreviousOf(Scan(facts, s)) == Some((p.value, p.end))
  {
    NeighbourWins(facts, s, l, p, |facts|);
    assert facts[..|facts|] == facts;
    assert DaySeen(facts, s, p.end);
    LatestDominates(facts, s);
    PreviousIsEarlier(facts, s);
  }

  lemma NothingEligible(facts: seq<Fact>, s: Subject)
    requires forall l :: !OnLatestDay(facts, s, l)
    ensures Scan(facts, s).previous.None?
  {
    PreviousIsEarlier(facts, s);
    LatestDominates(facts, s);
    var p := Scan(facts, s);
    assert p.latest.Some? ==> OnLatestDay(facts, s, p.latest.value);
  }

  lemma FixedPrevious(facts: seq<Fact>, facts': seq<Fact>, s: Subject)
    requires DayDeterminesShape(facts, s) && PreviousFixed(facts, s) && multiset(facts') == multiset(facts)
    ensures PreviousOf(Scan(facts', s)) == PreviousOf(Scan(facts, s))
  {
    SameMembers(facts, facts', s);
    if l :| OnLatestDay(facts, s, l) {
      if NoneComparable(facts, s, l) {
        NothingKept(facts, s, l);
        NothingKept(facts', s, l);
      } else {
        var p :| SoleNeighbour(facts, s, l, p);
        NeighbourIsPrevious(facts, s, l, p);
        assert SoleNeighbour(facts', s, l, p);
        NeighbourIsPrevious(facts', s, l, p);
      }
    } else {
      NothingEligible(facts, s);
      NothingEligible(facts', s);
    }
  }

  // ----- Otherwise two orders differ

  /** A scan that starts on the latest day keeps some previous period once it has one, and never an older one. */
  lemma {:induction false} StartsLatest(facts: seq<Fact>, s: Subject, l: Fact, p: Fact, n: nat)
    requires OnLatestDay(facts, s, l) && Earlier(facts, s, l, p) && PeriodsComparable(l, p)
    requires 2 <= n <= |facts| && facts[0] == l && facts[1] == p
    ensures var pair := Scan(facts[..n], s);
            && pair.latest.Some? && pair.latest.value.end == l.end && pair.previous.Some?
            && ((forall f :: Earlier(facts, s, l, f) ==> f.end <= p.end) ==> pair.previous == Some(p))
  {
    var f := facts[n - 1];
    assert facts[..n] == facts[..n - 1] + [f];
    ScanSnoc(facts[..n - 1], f, s);
    if n == 2 {
      assert facts[..1] == [] + [l];
      ScanSnoc([], l, s);
    } else {
      StartsLatest(facts, s, l, p, n - 1);
      assert f in facts;
      assert Eligible(f, s) ==> f.end == l.end || Earlier(facts, s, l, f);
    }
  }

  /** The order that scans `l` and `p` first. */
  lemma FirstTwo(facts: seq<Fact>, s: Subject, l: Fact, p: Fact) returns (facts': seq<Fact>)
    requires OnLatestDay(facts, s, l) && Earlier(facts, s, l, p) && PeriodsComparable(l, p)
    ensures multiset(facts') == multiset(facts) && Scan(facts', s).previous.Some?
    ensures (forall f :: Earlier(facts, s, l, f) ==> f.end <= p.end) ==> Scan(facts', s).previous == Some(p)
  {
    var r1 := MoveToFront(facts, l);
    MultisetMember([l] + r1, facts);
    assert p in [l] + r1 && p != l;
    var r2 := MoveToFront(r1, p);
    facts' := [l, p] + r2;
    assert facts' == [l] + ([p] + r2);
    assert multiset(facts') == multiset(facts);
    SameMembers(facts, facts', s);
    StartsLatest(facts', s, l, p, |facts'|);
    assert facts'[..|facts'|] == facts';
  }

  function Kept(facts: seq<Fact>, ok: Fact -> bool): seq<Fact> {
    if facts == [] then [] else (if ok(facts[0]) then [facts[0]] else []) + Kept(facts[1..], ok)
  }

  function Not(ok: Fact -> bool): Fact -> bool { (f: Fact) => !ok(f) }

  lemma {:induction false} KeptMembers(facts: seq<Fact>, ok: Fact -> bool)
    ensures forall f :: f in Kept(facts, ok) <==> f in facts && ok(f)
    ensures multiset(Kept(facts, Not(ok)) + Kept(facts, ok)) == multiset(facts)
  {
    if facts != [] {
      KeptMembers(facts[1..], ok);
      assert facts == [facts[0]] + facts[1..];
    }
  }

  function OnDay(s: Subject, day: int): Fact -> bool { (f: Fact) => Eligible(f, s) && f.end == day }

  /** After the earlier days, the facts of the latest day leave no previous period if theirs does not compare. */
  lemma {:induction false} LatestDayLast(lower: seq<Fact>, upper: seq<Fact>, s: Subject, day: int, n: nat)
    requires 1 <= n <= |upper| && forall f :: f in upper ==> Eligible(f, s) && f.end == day
    requires var r := Scan(lower, s).latest;
             r.Some? && r.value.end < day && forall f :: f in upper ==> !PeriodsComparable(f, r.value)
    ensures var pair := Scan(lower + upper[..n], s);
            pair.latest.Some? && pair.latest.value.end == day && pair.previous.None?
  {
    var f := upper[n - 1];
    assert f in upper;
    assert lower + upper[..n] == lower + upper[..n - 1] + [f];
    ScanSnoc(lower + upper[..n - 1], f, s);
    if n == 1 {
      assert lower + upper[..0] == lower;
    } else {
      LatestDayLast(lower, upper, s, day, n - 1);
    }
  }

  /** An incomparable neighbouring day, scanned last before the latest day, leaves no previous period. */
  lemma EarlierFirst(facts: seq<Fact>, s: Subject, l: Fact, p: Fact) returns (facts': seq<Fact>)
    requires DayDeterminesShape(facts, s) && OnLatestDay(facts, s, l)
    requires Earlier(facts, s, l, p) && !PeriodsComparable(l, p)
    requires forall f :: Earlier(facts, s, l, f) ==> f.end <= p.end
    ensures multiset(facts') == multiset(facts) && Scan(facts', s).previous.None?
  {
    var ok := OnDay(s, l.end);
    var lower, upper := Kept(facts, Not(ok)), Kept(facts, ok);
    KeptMembers(facts, ok);
    KeptMembers(facts, Not(ok));
    assert p in lower && l in upper;
    LatestDominates(lower, s);
    PreviousIsEarlier(lower, s);
    var r := Scan(lower, s).latest.value;
    assert Earlier(facts, s, l, r) && SameShape(r, p);
    forall f | f in upper ensures Eligible(f, s) && f.end == l.end && !PeriodsComparable(f, r) {
      assert SameShape(f, l);
      ShapesCompare(f, l, r);
      ShapesCompare(r, p, l);
      ShapesCompare(l, l, r);
      ShapesCompare(p, p, l);
    }
    LatestDayLast(lower, upper, s, l.end, |upper|);
    assert upper[..|upper|] == upper;
    facts' := lower + upper;
  }

  /** The latest filing of the day before that of `l`. */
  lemma Neighbour(facts: seq<Fact>, s: Subject, l: Fact, g: Fact) returns (p: Fact)
    requires Earlier(facts, s, l, g)
    ensures Earlier(facts, s, l, p) && forall f :: Earlier(facts, s, l, f) ==> f.end <= p.end
  {
    NewerRanks();
    LatestMember(facts, EarlierOk(s, l.end), LaterPeriod());
    assert forall f :: Earlier(facts, s, l, f) ==> EarlierOk(s, l.end)(f);
    p := Preceding(facts, s, l.end).value;
  }

  lemma NotFixed(facts: seq<Fact>, s: Subject, l: Fact) returns (a: seq<Fact>, b: seq<Fact>)
    requires DayDeterminesShape(facts, s) && OnLatestDay(facts, s, l) && !NoneComparable(facts, s, l)
    requires forall p :: !SoleNeighbour(facts, s, l, p)
    ensures multiset(a) == multiset(facts) && multiset(b) == multiset(facts)
    ensures PreviousOf(Scan(a, s)) != PreviousOf(Scan(b, s))
  {
    var g :| Earlier(facts, s, l, g) && PeriodsComparable(l, g);
    var p := Neighbour(facts, s, l, g);
    if PeriodsComparable(l, p) {
      assert !SoleNeighbour(facts, s, l, p);
      var f :| Earlier(facts, s, l, f) && f.end == p.end && f.value != p.value;
      assert SameShape(p, f);
      ShapesCompare(p, f, l);
      ShapesCompare(l, l, p);
      ShapesCompare(l, l, f);
      a := FirstTwo(facts, s, l, p);
      b := FirstTwo(facts, s, l, f);
    } else {
      a := FirstTwo(facts, s, l, g);
      b := EarlierFirst(facts, s, l, p);
    }
  }

  /**
   When a day determines the shape, previous is the same in every scan order exactly when no earlier eligible fact
   is comparable to the latest day, or the immediately preceding eligible day is and all its eligible filings report
   one value.
   */
  lemma PreviousOrderFreeExactly(facts: seq<Fact>, s: Subject)
    requires DayDeterminesShape(facts, s)
    ensures PreviousOrderFree(facts, s) <==> PreviousFixed(facts, s)
  {
    if PreviousFixed(facts, s) {
      forall facts' | multiset(facts') == multiset(facts)
        ensures PreviousOf(Scan(facts', s)) == PreviousOf(Scan(facts, s))
      {
        FixedPrevious(facts, facts', s);
      }
    } else {
      var l :| OnLatestDay(facts, s, l) && !NoneComparable(facts, s, l) && forall p :: !SoleNeighbour(facts, s, l, p);
      var a, b := NotFixed(facts, s, l);
    }
  }
}
