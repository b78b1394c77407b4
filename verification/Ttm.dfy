/**
 Trailing-twelve-month selection: an exact fiscal year, four quarters, or the
 year-to-date bridge `annual + current - prior`, in that order of preference.
 */
module Ttm {
  import opened Wrappers
  import opened Facts
  import opened Selection
  import opened Windows

  /** One selection: which security and metric, as of which anchor day. */
  datatype Query = Query(security: nat, metric: int, anchor: int, clock: Clock)

  /** A selected or derived value (the source's MetricPoint with `ok` set). */
  datatype Point = Point(value: real, start: int, end: int, available: int, flags: set<Quality>)

  // ----- Which facts may be used

  predicate BasicUsable(f: Fact, q: Query) {
    && f.security == q.security && f.metric == q.metric
    && 0 < f.end <= q.anchor && f.available > 0
    && StatusUsable(f.status)
    && AmbiguousCandidates !in f.flags
    && !TooOld(q.clock, f.available)
  }

  predicate QuarterUsable(f: Fact, q: Query) {
    BasicUsable(f, q) && FlowKind(f.kind) && f.semantics.FiscalQuarter? && QuarterLike(f.duration)
  }

  predicate AnnualUsable(f: Fact, q: Query) {
    BasicUsable(f, q) && FlowKind(f.kind) && f.semantics.FiscalYear? && 330 <= f.duration <= 380
  }

  predicate YtdUsable(f: Fact, q: Query) {
    BasicUsable(f, q) && FlowKind(f.kind) && f.semantics.FiscalYtd? && 130 <= f.duration <= 300
  }

  /** A quarterly or annual revenue fact, whatever day it ends on. */
  predicate AnchorUsable(f: Fact, security: nat, clock: Clock) {
    var q := Query(security, REVENUE, f.end, clock);
    QuarterUsable(f, q) || AnnualUsable(f, q)
  }

  predicate PointUsable(f: Fact, q: Query) {
    && BasicUsable(f, q)
    && if q.metric == CASH || q.metric == DEBT then f.kind.Instant? && f.semantics.InstantPeriod?
       else
         && q.metric == DILUTED_SHARES
         && FlowKind(f.kind)
         && (f.semantics.FiscalQuarter? || f.semantics.FiscalYtd? || f.semantics.FiscalYear?)
  }

  function QuarterOk(q: Query): Fact -> bool { (f: Fact) => QuarterUsable(f, q) }
  function ExactAnnualOk(q: Query): Fact -> bool { (f: Fact) => f.end == q.anchor && AnnualUsable(f, q) }
  function PointOk(q: Query): Fact -> bool { (f: Fact) => PointUsable(f, q) }
  function AnchorOk(security: nat, clock: Clock): Fact -> bool { (f: Fact) => AnchorUsable(f, security, clock) }

  function LaterPeriod(): (Fact, Fact) -> bool {
    (a: Fact, b: Fact) => a.end > b.end || (a.end == b.end && a.available > b.available)
  }

  lemma NewerRanks()
    ensures Ranks(FiledLater()) && Ranks(LaterPeriod()) && Ranks(LaterPoint())
  {
  }

  function PointOf(f: Fact): Point {
    Point(f.value, if f.start > 0 then f.start else f.end, f.end, f.available, f.flags)
  }

  function OptionalPoint(f: Option<Fact>): Option<Point> {
    if f.Some? then Some(PointOf(f.value)) else None
  }

  // ----- Exact fiscal year and latest balance

  /** The annual fact that ends on the anchor, filed last. */
  function ExactAnnual(facts: seq<Fact>, q: Query): Option<Point> {
    OptionalPoint(Latest(facts, ExactAnnualOk(q), FiledLater()))
  }

  method ChooseExactAnnualFlow(facts: seq<Fact>, q: Query) returns (r: Option<Point>)
    ensures r == ExactAnnual(facts, q)
  {
    var selected: Option<Fact> := None;
    for i := 0 to |facts|
      invariant selected == Latest(facts[..i], ExactAnnualOk(q), FiledLater())
    {
      LatestStep(facts, i, ExactAnnualOk(q), FiledLater());
      var fact := facts[i];
      if fact.end != q.anchor {
        continue;
      }
      if !AnnualUsable(fact, q) {
        continue;
      }
      if selected.None? || fact.available > selected.value.available {
        selected := Some(fact);
      }
    }
    assert facts[..|facts|] == facts;
    r := OptionalPoint(selected);
  }

  /** The balance or share count of the latest period, filed last. */
  function BalanceAt(facts: seq<Fact>, q: Query): Option<Point> {
    OptionalPoint(Latest(facts, PointOk(q), LaterPeriod()))
  }

  method LatestPoint(facts: seq<Fact>, q: Query) returns (r: Option<Point>)
    ensures r == BalanceAt(facts, q)
  {
    var selected: Option<Fact> := None;
    for i := 0 to |facts|
      invariant selected == Latest(facts[..i], PointOk(q), LaterPeriod())
    {
      LatestStep(facts, i, PointOk(q), LaterPeriod());
      var fact := facts[i];
      if !PointUsable(fact, q) {
        continue;
      }
      if selected.None? || fact.end > selected.value.end
         || (fact.end == selected.value.end && fact.available > selected.value.available) {
        selected := Some(fact);
      }
    }
    assert facts[..|facts|] == facts;
    r := OptionalPoint(selected);
  }

  // ----- Four quarters

  function SumValues(qs: seq<Fact>): real {
    if qs == [] then 0.0 else SumValues(qs[..|qs| - 1]) + qs[|qs| - 1].value
  }

  function EarliestStart(qs: seq<Fact>, s0: int): int {
    if qs == [] then s0
    else
      var s, f := EarliestStart(qs[..|qs| - 1], s0), qs[|qs| - 1];
      if f.start > 0 && (s <= 0 || f.start < s) then f.start else s
  }

  function LastFiling(qs: seq<Fact>): int {
    if qs == [] then 0
    else
      var a, f := LastFiling(qs[..|qs| - 1]), qs[|qs| - 1];
      if f.available > a then f.available else a
  }

  function AllFlags(qs: seq<Fact>): set<Quality> {
    if qs == [] then {} else AllFlags(qs[..|qs| - 1]) + qs[|qs| - 1].flags
  }

  predicate FourQuarters(qs: seq<Fact>, anchor: int) {
    && |qs| == 4 && qs[0].end == anchor
    && forall i :: 1 <= i < 4 ==> PeriodsComparable(qs[0], qs[i])
  }

  function QuarterPoint(qs: seq<Fact>, anchor: int): Option<Point> {
    if FourQuarters(qs, anchor) then
      Some(Point(SumValues(qs), EarliestStart(qs, qs[0].start), anchor, LastFiling(qs), AllFlags(qs)))
    else None
  }

  function QuarterTtm(facts: seq<Fact>, q: Query): Option<Point> {
    QuarterPoint(Window(facts, QuarterOk(q)), q.anchor)
  }

  method ChooseQuarterTtmFlow(facts: seq<Fact>, q: Query) returns (r: Option<Point>)
    ensures r == QuarterTtm(facts, q)
  {
    var quarters, count := ScanQuarters(facts, QuarterOk(q));
    ghost var qs := Window(facts, QuarterOk(q));
    if count < 4 || quarters[0].end != q.anchor {
      return None;
    }
    assert qs == quarters[..];
    for i := 1 to 4
      invariant forall k :: 1 <= k < i ==> PeriodsComparable(qs[0], qs[k])
    {
      if !PeriodsComparable(quarters[0], quarters[i]) {
        assert !PeriodsComparable(qs[0], qs[i]);
        return None;
      }
    }
    var value, start, available, flags := 0.0, quarters[0].start, 0, {};
    for i := 0 to 4
      invariant value == SumValues(qs[..i]) && start == EarliestStart(qs[..i], qs[0].start)
      invariant available == LastFiling(qs[..i]) && flags == AllFlags(qs[..i])
    {
      assert qs[..i + 1][..i] == qs[..i];
      value := value + quarters[i].value;
      if quarters[i].start > 0 && (start <= 0 || quarters[i].start < start) {
        start := quarters[i].start;
      }
      if quarters[i].available > available {
        available := quarters[i].available;
      }
      flags := flags + quarters[i].flags;
    }
    assert qs[..4] == qs;
    r := Some(Point(value, start, q.anchor, available, flags));
  }

  // ----- The year-to-date bridge

  predicate CurrentOk(q: Query, c: Fact) {
    c.end == q.anchor && (YtdUsable(c, q) || QuarterUsable(c, q))
  }

  /** `a` is the fiscal year that ended within a week of the start of `c`. */
  predicate YearBefore(q: Query, c: Fact, a: Fact) {
    AnnualUsable(a, q) && FlowIdentity(c, a) && a.end < c.end && Close(a.end + 1, c.start, 7)
  }

  /** `p` covers the same stretch of that fiscal year as `c` does of its own. */
  predicate PriorMatches(q: Query, c: Fact, a: Fact, p: Fact) {
    && BasicUsable(p, q.(anchor := a.end))
    && FlowKind(p.kind) && p.semantics == c.semantics && FlowIdentity(p, c)
    && Close(p.start, a.start, 7) && Close(p.duration, c.duration, 7)
    && p.end < a.end
  }

  function PriorOk(q: Query, c: Fact, a: Fact): Fact -> bool { (p: Fact) => PriorMatches(q, c, a, p) }

  /** An admissible triple. */
  predicate Bridges(q: Query, c: Fact, a: Fact, p: Fact) {
    CurrentOk(q, c) && YearBefore(q, c, a) && PriorMatches(q, c, a, p)
  }

  function Max(a: int, b: int): int { if b > a then b else a }

  function BridgePoint(q: Query, c: Fact, a: Fact, p: Fact): Point {
    Point(a.value + c.value - p.value, if a.start > 0 then a.start else a.end, q.anchor,
          Max(Max(a.available, c.available), p.available), a.flags + c.flags + p.flags + {Derived})
  }

  function PriorOf(facts: seq<Fact>, q: Query, c: Fact, a: Fact): Option<Fact> {
    Latest(facts, PriorOk(q, c, a), FiledLater())
  }

  function CandidateOf(facts: seq<Fact>, q: Query, c: Fact, a: Fact): Option<Point> {
    if !YearBefore(q, c, a) then None
    else
      var p := PriorOf(facts, q, c, a);
      if p.None? then None else Some(BridgePoint(q, c, a, p.value))
  }

  /** The candidates of one current fact, in scan order. */
  function CandidatesFor(facts: seq<Fact>, q: Query, c: Fact, years: seq<Fact>): seq<Point> {
    if years == [] then []
    else
      var r := CandidateOf(facts, q, c, years[|years| - 1]);
      CandidatesFor(facts, q, c, years[..|years| - 1]) + if r.Some? then [r.value] else []
  }

  /** Every candidate, in scan order: currents outside, fiscal years inside. */
  function Candidates(facts: seq<Fact>, q: Query, currents: seq<Fact>): seq<Point> {
    if currents == [] then []
    else
      var c := currents[|currents| - 1];
      Candidates(facts, q, currents[..|currents| - 1])
      + if CurrentOk(q, c) then CandidatesFor(facts, q, c, facts) else []
  }

  function AnyPoint(): Point -> bool { (p: Point) => true }
  function LaterPoint(): (Point, Point) -> bool { (a: Point, b: Point) => a.available > b.available }

  function Bridge(facts: seq<Fact>, q: Query): Option<Point> {
    Latest(Candidates(facts, q, facts), AnyPoint(), LaterPoint())
  }

  method FindPrior(facts: seq<Fact>, q: Query, c: Fact, a: Fact) returns (prior: Option<Fact>)
    ensures prior == PriorOf(facts, q, c, a)
  {
    prior := None;
    for k := 0 to |facts|
      invariant prior == Latest(facts[..k], PriorOk(q, c, a), FiledLater())
    {
      LatestStep(facts, k, PriorOk(q, c, a), FiledLater());
      var candidate := facts[k];
      if !PriorMatches(q, c, a, candidate) {
        continue;
      }
      if prior.None? || candidate.available > prior.value.available {
        prior := Some(candidate);
      }
    }
    assert facts[..|facts|] == facts;
  }

  /** One more candidate at the end of the scan. */
  lemma LatestSnoc(before: seq<Point>, x: Option<Point>)
    ensures var r := Latest(before, AnyPoint(), LaterPoint());
            Latest(before + (if x.Some? then [x.value] else []), AnyPoint(), LaterPoint())
              == if x.Some? && (r.None? || x.value.available > r.value.available) then x else r
  {
    assert before + [] == before;
    if x.Some? {
      assert (before + [x.value])[..|before|] == before;
    }
  }

  lemma CandidatesForStep(facts: seq<Fact>, q: Query, c: Fact, j: nat, before: seq<Point>)
    requires j < |facts|
    ensures before + CandidatesFor(facts, q, c, facts[..j + 1])
            == before + CandidatesFor(facts, q, c, facts[..j])
               + (var r := CandidateOf(facts, q, c, facts[j]); if r.Some? then [r.value] else [])
  {
    assert facts[..j + 1][..j] == facts[..j];
  }

  method ScanYears(facts: seq<Fact>, q: Query, c: Fact, found: Option<Point>, ghost before: seq<Point>)
    returns (selected: Option<Point>)
    requires found == Latest(before, AnyPoint(), LaterPoint())
    ensures selected == Latest(before + CandidatesFor(facts, q, c, facts), AnyPoint(), LaterPoint())
  {
    selected := found;
    assert before + CandidatesFor(facts, q, c, facts[..0]) == before;
    for j := 0 to |facts|
      invariant selected == Latest(before + CandidatesFor(facts, q, c, facts[..j]), AnyPoint(), LaterPoint())
    {
      CandidatesForStep(facts, q, c, j, before);
      LatestSnoc(before + CandidatesFor(facts, q, c, facts[..j]), CandidateOf(facts, q, c, facts[j]));
      var annual := facts[j];
      if !YearBefore(q, c, annual) {
        continue;
      }
      var prior := FindPrior(facts, q, c, annual);
      if prior.None? {
        continue;
      }
      var candidate := BridgePoint(q, c, annual, prior.value);
      if selected.None? || candidate.available > selected.value.available {
        selected := Some(candidate);
      }
    }
    assert facts[..|facts|] == facts;
  }

  method ChooseYtdBridgeTtmFlow(facts: seq<Fact>, q: Query) returns (r: Option<Point>)
    ensures r == Bridge(facts, q)
  {
    r := None;
    for i := 0 to |facts|
      invariant r == Latest(Candidates(facts, q, facts[..i]), AnyPoint(), LaterPoint())
    {
      assert facts[..i + 1][..i] == facts[..i];
      var current := facts[i];
      if current.end != q.anchor {
        assert Candidates(facts, q, facts[..i]) + [] == Candidates(facts, q, facts[..i]);
        continue;
      }
      if !YtdUsable(current, q) && !QuarterUsable(current, q) {
        assert Candidates(facts, q, facts[..i]) + [] == Candidates(facts, q, facts[..i]);
        continue;
      }
      r := ScanYears(facts, q, current, r, Candidates(facts, q, facts[..i]));
    }
    assert facts[..|facts|] == facts;
  }

  // ----- The order of preference

  function FlowTtm(facts: seq<Fact>, q: Query): Option<Point> {
    if ExactAnnual(facts, q).Some? then ExactAnnual(facts, q)
    else if QuarterTtm(facts, q).Some? then QuarterTtm(facts, q)
    else Bridge(facts, q)
  }

  method LatestFlowTtm(facts: seq<Fact>, q: Query) returns (r: Option<Point>)
    ensures r == FlowTtm(facts, q)
  {
    r := ChooseExactAnnualFlow(facts, q);
    if r.Some? {
      return;
    }
    r := ChooseQuarterTtmFlow(facts, q);
    if r.Some? {
      return;
    }
    r := ChooseYtdBridgeTtmFlow(facts, q);
  }

  // ----- What the bridge finds

  predicate Triple(facts: seq<Fact>, q: Query, c: Fact, a: Fact, p: Fact) {
    c in facts && a in facts && p in facts && Bridges(q, c, a, p)
  }

  /** The triple behind a candidate: its prior is the first of the latest filed. */
  ghost predicate Proposed(facts: seq<Fact>, q: Query, c: Fact, a: Fact, p: Fact) {
    Triple(facts, q, c, a, p) && PriorOf(facts, q, c, a) == Some(p)
  }

  lemma {:induction false} CandidatesForMember(facts: seq<Fact>, q: Query, c: Fact, years: seq<Fact>, x: Point)
    ensures x in CandidatesFor(facts, q, c, years) <==>
            exists a :: a in years && CandidateOf(facts, q, c, a) == Some(x)
  {
    if years != [] {
      var n := |years| - 1;
      CandidatesForMember(facts, q, c, years[..n], x);
      assert years == years[..n] + [years[n]];
    }
  }

  ghost predicate FromCurrent(facts: seq<Fact>, q: Query, c: Fact, x: Point) {
    CurrentOk(q, c) && exists a :: a in facts && CandidateOf(facts, q, c, a) == Some(x)
  }

  lemma {:induction false} CandidatesMember(facts: seq<Fact>, q: Query, currents: seq<Fact>, x: Point)
    ensures x in Candidates(facts, q, currents) <==> exists c :: c in currents && FromCurrent(facts, q, c, x)
  {
    if currents != [] {
      var n := |currents| - 1;
      CandidatesMember(facts, q, currents[..n], x);
      CandidatesForMember(facts, q, currents[n], facts, x);
      assert currents == currents[..n] + [currents[n]];
      assert FromCurrent(facts, q, currents[n], x) <==>
             CurrentOk(q, currents[n]) && x in CandidatesFor(facts, q, currents[n], facts);
      assert forall c :: c in currents <==> c in currents[..n] || c == currents[n];
    }
  }

  lemma PriorChosen(facts: seq<Fact>, q: Query, c: Fact, a: Fact)
    ensures var r := PriorOf(facts, q, c, a);
            && (r.Some? ==> r.value in facts && PriorMatches(q, c, a, r.value))
            && (forall p :: p in facts && PriorMatches(q, c, a, p) ==> r.Some? && p.available <= r.value.available)
  {
    NewerRanks();
    LatestMember(facts, PriorOk(q, c, a), FiledLater());
    assert forall p :: PriorMatches(q, c, a, p) ==> PriorOk(q, c, a)(p);
  }

  /** A value is found exactly when an admissible triple exists. */
  lemma BridgeFound(facts: seq<Fact>, q: Query)
    ensures Bridge(facts, q).Some? <==> exists c, a, p :: Triple(facts, q, c, a, p)
  {
    var cs := Candidates(facts, q, facts);
    NewerRanks();
    LatestMember(cs, AnyPoint(), LaterPoint());
    if c, a, p :| Triple(facts, q, c, a, p) {
      PriorChosen(facts, q, c, a);
      var x := BridgePoint(q, c, a, PriorOf(facts, q, c, a).value);
      assert CandidateOf(facts, q, c, a) == Some(x);
      assert FromCurrent(facts, q, c, x);
      CandidatesMember(facts, q, facts, x);
      assert AnyPoint()(x);
    }
    if Bridge(facts, q).Some? {
      BridgeOrigin(facts, q);
    }
  }

  /** The value found is annual + current - prior of an admissible triple, none of which was filed later overall. */
  lemma BridgeOrigin(facts: seq<Fact>, q: Query)
    requires Bridge(facts, q).Some?
    ensures exists c, a, p :: Proposed(facts, q, c, a, p) && Bridge(facts, q).value == BridgePoint(q, c, a, p)
    ensures forall c, a, p :: Proposed(facts, q, c, a, p) ==>
              BridgePoint(q, c, a, p).available <= Bridge(facts, q).value.available
  {
    var cs, x := Candidates(facts, q, facts), Bridge(facts, q).value;
    NewerRanks();
    LatestMember(cs, AnyPoint(), LaterPoint());
    CandidatesMember(facts, q, facts, x);
    var c :| c in facts && FromCurrent(facts, q, c, x);
    var a :| a in facts && CandidateOf(facts, q, c, a) == Some(x);
    PriorChosen(facts, q, c, a);
    assert Proposed(facts, q, c, a, PriorOf(facts, q, c, a).value);
    forall c, a, p | Proposed(facts, q, c, a, p) ensures BridgePoint(q, c, a, p).available <= x.available {
      var y := BridgePoint(q, c, a, p);
      assert CandidateOf(facts, q, c, a) == Some(y);
      assert FromCurrent(facts, q, c, y);
      CandidatesMember(facts, q, facts, y);
      assert AnyPoint()(y);
    }
  }

  // ----- What a trailing flow is

  ghost predicate AnnualOnAnchor(facts: seq<Fact>, q: Query, f: Fact) {
    f in facts && f.end == q.anchor && AnnualUsable(f, q)
  }

  /** A trailing flow exists exactly when a fiscal year ends on the anchor, four comparable quarters do, or a bridge
      triple does; with a fiscal year it is the one filed last. */
  lemma FlowExactly(facts: seq<Fact>, q: Query)
    ensures FlowTtm(facts, q).Some? <==>
            || (exists f :: AnnualOnAnchor(facts, q, f))
            || FourQuarters(Window(facts, QuarterOk(q)), q.anchor)
            || (exists c, a, p :: Triple(facts, q, c, a, p))
    ensures (exists f :: AnnualOnAnchor(facts, q, f)) ==>
              exists f :: AnnualOnAnchor(facts, q, f) && FlowTtm(facts, q) == Some(PointOf(f))
                          && forall g :: AnnualOnAnchor(facts, q, g) ==> g.available <= f.available
  {
    NewerRanks();
    LatestMember(facts, ExactAnnualOk(q), FiledLater());
    BridgeFound(facts, q);
    var r := Latest(facts, ExactAnnualOk(q), FiledLater());
    assert forall g :: AnnualOnAnchor(facts, q, g) ==> ExactAnnualOk(q)(g);
    assert r.Some? ==> AnnualOnAnchor(facts, q, r.value);
  }
}
