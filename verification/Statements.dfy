/**
 Statement snapshots: eight selections per anchor day folded into one statement
 whose quality flags say what is missing or doubtful.
 */
module Statements {
  import opened Wrappers
  import opened Facts
  import opened Selection
  import opened Windows
  import opened Ttm

  datatype StatementFlag =
    | MissingRevenue | MissingShares | MissingCash | MissingDebt | NegativeFcf | NonComparablePeriod
    | AmendedOrRestated | LowConfidenceStatement | MissingOperatingCashFlow | MissingCapex | DerivedTtm

  datatype Statement = Statement(
    security: nat,
    start: int,
    end: int,
    available: int,
    ttm: bool,
    revenue: real,
    netIncome: real,
    eps: real,
    shares: real,
    operatingCashFlow: real,
    capex: real,
    freeCashFlow: real,
    cash: real,
    debt: real,
    netDebt: real,
    flags: set<StatementFlag>)

  /** The eight selections a statement is built from. */
  datatype Observed = Observed(
    revenue: Option<Point>,
    netIncome: Option<Point>,
    eps: Option<Point>,
    operatingCashFlow: Option<Point>,
    capex: Option<Point>,
    shares: Option<Point>,
    cash: Option<Point>,
    debt: Option<Point>)

  const LOW_CONFIDENCE_FLAGS: set<Quality> :=
    {LowConfidence, MissingComparable, DurationMismatch, BasisTransition, PeriodStub, PeriodIrregular}

  const NON_COMPARABLE_FLAGS: set<Quality> := {DurationMismatch, BasisTransition, PeriodStub, PeriodIrregular}

  predicate Meets(flags: set<Quality>, mask: set<Quality>) { flags * mask != {} }

  function ValueOf(p: Option<Point>): real { if p.Some? then p.value.value else 0.0 }

  predicate Positive(p: Option<Point>) { p.Some? && p.value.value > 0.0 }

  function Raise(flags: set<StatementFlag>, c: bool, more: set<StatementFlag>): set<StatementFlag> {
    if c then flags + more else flags
  }

  function Points(o: Observed): seq<Option<Point>> {
    [o.revenue, o.netIncome, o.eps, o.operatingCashFlow, o.capex, o.shares, o.cash, o.debt]
  }

  function LastAvailable(ps: seq<Option<Point>>): int {
    if ps == [] then 0
    else
      var rest, p := LastAvailable(ps[..|ps| - 1]), ps[|ps| - 1];
      if p.Some? && p.value.available > rest then p.value.available else rest
  }

  function CombinedFlags(ps: seq<Option<Point>>): set<Quality> {
    if ps == [] then {}
    else
      var rest, p := CombinedFlags(ps[..|ps| - 1]), ps[|ps| - 1];
      if p.Some? then rest + p.value.flags else rest
  }

  lemma {:induction false} LastAvailableCovers(ps: seq<Option<Point>>)
    ensures LastAvailable(ps) >= 0
    ensures forall p :: p in ps && p.Some? ==> p.value.available <= LastAvailable(ps)
    ensures LastAvailable(ps) > 0 ==> exists p :: p in ps && p.Some? && p.value.available == LastAvailable(ps)
  {
    if ps != [] {
      var n := |ps| - 1;
      assert ps == ps[..n] + [ps[n]];
      LastAvailableCovers(ps[..n]);
    }
  }

  lemma {:induction false} CombinedFlagsExactly(ps: seq<Option<Point>>)
    ensures forall x :: x in CombinedFlags(ps) <==> exists p :: p in ps && p.Some? && x in p.value.flags
  {
    if ps != [] {
      var n := |ps| - 1;
      assert ps == ps[..n] + [ps[n]];
      CombinedFlagsExactly(ps[..n]);
    }
  }

  function ObservationFlags(flags: set<Quality>): set<StatementFlag> {
    var q1 := Raise({}, Meets(flags, {AmendedFiling, Restatement}), {AmendedOrRestated});
    var q2 := Raise(q1, Derived in flags, {DerivedTtm});
    var q3 := Raise(q2, Meets(flags, LOW_CONFIDENCE_FLAGS), {LowConfidenceStatement});
    Raise(q3, Meets(flags, NON_COMPARABLE_FLAGS), {NonComparablePeriod})
  }

  function FreeCashFlow(o: Observed): real {
    if o.operatingCashFlow.Some? && o.capex.Some? then o.operatingCashFlow.value.value - o.capex.value.value else 0.0
  }

  function QualityOf(o: Observed): set<StatementFlag> {
    var q0 := ObservationFlags(CombinedFlags(Points(o)));
    var q1 := Raise(q0, !Positive(o.revenue), {MissingRevenue, LowConfidenceStatement});
    var q2 := Raise(q1, !Positive(o.shares), {MissingShares, LowConfidenceStatement});
    var q3 := Raise(q2, o.operatingCashFlow.None?, {MissingOperatingCashFlow, LowConfidenceStatement});
    var q4 := Raise(q3, o.capex.None?, {MissingCapex, LowConfidenceStatement});
    var q5 := Raise(q4, o.cash.None?, {MissingCash});
    var q6 := Raise(q5, o.debt.None?, {MissingDebt});
    Raise(q6, FreeCashFlow(o) < 0.0, {NegativeFcf})
  }

  function Assembled(o: Observed, security: nat, anchor: int): Option<Statement> {
    if o.revenue.None? && o.netIncome.None? && o.operatingCashFlow.None? then None
    else if LastAvailable(Points(o)) <= 0 then None
    else Some(Statement(
      security,
      if o.revenue.Some? && o.revenue.value.start > 0 then o.revenue.value.start else anchor,
      anchor, LastAvailable(Points(o)), true,
      ValueOf(o.revenue), ValueOf(o.netIncome), ValueOf(o.eps), ValueOf(o.shares),
      ValueOf(o.operatingCashFlow), ValueOf(o.capex), FreeCashFlow(o),
      ValueOf(o.cash), ValueOf(o.debt), ValueOf(o.debt) - ValueOf(o.cash), QualityOf(o)))
  }

  function ObservedAt(facts: seq<Fact>, security: nat, anchor: int, clock: Clock): Observed {
    Observed(
      FlowTtm(facts, Query(security, REVENUE, anchor, clock)),
      FlowTtm(facts, Query(security, NET_INCOME, anchor, clock)),
      FlowTtm(facts, Query(security, EPS_DILUTED, anchor, clock)),
      FlowTtm(facts, Query(security, OPERATING_CASH_FLOW, anchor, clock)),
      FlowTtm(facts, Query(security, CAPEX, anchor, clock)),
      BalanceAt(facts, Query(security, DILUTED_SHARES, anchor, clock)),
      BalanceAt(facts, Query(security, CASH, anchor, clock)),
      BalanceAt(facts, Query(security, DEBT, anchor, clock)))
  }

  function StatementAt(facts: seq<Fact>, security: nat, anchor: int, clock: Clock): Option<Statement> {
    Assembled(ObservedAt(facts, security, anchor, clock), security, anchor)
  }

  method MaxAvailableAt(ps: seq<Option<Point>>) returns (out: int)
    ensures out == LastAvailable(ps)
  {
    out := 0;
    for i := 0 to |ps|
      invariant out == LastAvailable(ps[..i])
    {
      assert ps[..i + 1][..i] == ps[..i];
      if ps[i].Some? && ps[i].value.available > out {
        out := ps[i].value.available;
      }
    }
    assert ps[..|ps|] == ps;
  }

  method AggregateObservationQuality(ps: seq<Option<Point>>) returns (out: set<Quality>)
    ensures out == CombinedFlags(ps)
  {
    out := {};
    for i := 0 to |ps|
      invariant out == CombinedFlags(ps[..i])
    {
      assert ps[..i + 1][..i] == ps[..i];
      if ps[i].Some? {
        out := out + ps[i].value.flags;
      }
    }
    assert ps[..|ps|] == ps;
  }

  method Assess(o: Observed) returns (quality: set<StatementFlag>)
    ensures quality == QualityOf(o)
  {
    var observed := AggregateObservationQuality(Points(o));
    quality := ObservationFlags(observed);
    if o.revenue.None? || o.revenue.value.value <= 0.0 {
      quality := quality + {MissingRevenue, LowConfidenceStatement};
    }
    if o.shares.None? || o.shares.value.value <= 0.0 {
      quality := quality + {MissingShares, LowConfidenceStatement};
    }
    if o.operatingCashFlow.None? {
      quality := quality + {MissingOperatingCashFlow, LowConfidenceStatement};
    }
    if o.capex.None? {
      quality := quality + {MissingCapex, LowConfidenceStatement};
    }
    if o.cash.None? {
      quality := quality + {MissingCash};
    }
    if o.debt.None? {
      quality := quality + {MissingDebt};
    }
    if o.operatingCashFlow.Some? && o.capex.Some? && FreeCashFlow(o) < 0.0 {
      quality := quality + {NegativeFcf};
    }
  }

  method Observe(facts: seq<Fact>, security: nat, anchor: int, clock: Clock) returns (o: Observed)
    ensures o == ObservedAt(facts, security, anchor, clock)
  {
    var revenue := LatestFlowTtm(facts, Query(security, REVENUE, anchor, clock));
    var netIncome := LatestFlowTtm(facts, Query(security, NET_INCOME, anchor, clock));
    var eps := LatestFlowTtm(facts, Query(security, EPS_DILUTED, anchor, clock));
    var ocf := LatestFlowTtm(facts, Query(security, OPERATING_CASH_FLOW, anchor, clock));
    var capex := LatestFlowTtm(facts, Query(security, CAPEX, anchor, clock));
    var shares := LatestPoint(facts, Query(security, DILUTED_SHARES, anchor, clock));
    var cash := LatestPoint(facts, Query(security, CASH, anchor, clock));
    var debt := LatestPoint(facts, Query(security, DEBT, anchor, clock));
    o := Observed(revenue, netIncome, eps, ocf, capex, shares, cash, debt);
  }

  method Assemble(o: Observed, security: nat, anchor: int) returns (r: Option<Statement>)
    ensures r == Assembled(o, security, anchor)
  {
    if o.revenue.None? && o.netIncome.None? && o.operatingCashFlow.None? {
      return None;
    }
    var quality := Assess(o);
    var available := MaxAvailableAt(Points(o));
    if available <= 0 {
      return None;
    }
    var start := if o.revenue.Some? && o.revenue.value.start > 0 then o.revenue.value.start else anchor;
    r := Some(Statement(security, start, anchor, available, true,
                        ValueOf(o.revenue), ValueOf(o.netIncome), ValueOf(o.eps), ValueOf(o.shares),
                        ValueOf(o.operatingCashFlow), ValueOf(o.capex), FreeCashFlow(o),
                        ValueOf(o.cash), ValueOf(o.debt), ValueOf(o.debt) - ValueOf(o.cash), quality));
  }

  method BuildStatementForAnchor(facts: seq<Fact>, security: nat, anchor: int, clock: Clock)
    returns (r: Option<Statement>)
    ensures r == StatementAt(facts, security, anchor, clock)
  {
    var o := Observe(facts, security, anchor, clock);
    r := Assemble(o, security, anchor);
  }

  // ----- All statements

  function Collected(days: seq<int>, build: int -> Option<Statement>): seq<Statement> {
    if days == [] then []
    else
      var r := build(days[|days| - 1]);
      Collected(days[..|days| - 1], build) + if r.Some? then [r.value] else []
  }

  function Builder(facts: seq<Fact>, security: nat, clock: Clock): int -> Option<Statement> {
    (anchor: int) => StatementAt(facts, security, anchor, clock)
  }

  function SecurityStatements(facts: seq<Fact>, s: Security, clock: Clock): seq<Statement> {
    if s.investable then Collected(AnchorDays(facts, AnchorOk(s.id, clock)), Builder(facts, s.id, clock)) else []
  }

  function Snapshots(facts: seq<Fact>, securities: seq<Security>, clock: Clock): seq<Statement> {
    if securities == [] then []
    else
      Snapshots(facts, securities[..|securities| - 1], clock)
      + SecurityStatements(facts, securities[|securities| - 1], clock)
  }

  lemma CollectedStep(days: seq<int>, j: nat, build: int -> Option<Statement>)
    requires j < |days|
    ensures var r := build(days[j]);
            Collected(days[..j + 1], build) == if r.Some? then Collected(days[..j], build) + [r.value]
                                               else Collected(days[..j], build)
  {
    assert days[..j + 1][..j] == days[..j];
  }

  method BuildAtAnchors(facts: seq<Fact>, security: nat, days: seq<int>, clock: Clock) returns (out: seq<Statement>)
    ensures out == Collected(days, Builder(facts, security, clock))
  {
    ghost var build := Builder(facts, security, clock);
    out := [];
    for j := 0 to |days|
      invariant out == Collected(days[..j], build)
    {
      CollectedStep(days, j, build);
      var statement := BuildStatementForAnchor(facts, security, days[j], clock);
      assert statement == build(days[j]);
      if statement.Some? {
        out := out + [statement.value];
      }
    }
    assert days[..|days|] == days;
  }

  method BuildForSecurity(facts: seq<Fact>, s: Security, clock: Clock) returns (out: seq<Statement>)
    requires s.investable
    ensures out == SecurityStatements(facts, s, clock)
  {
    var anchors, count := ScanAnchors(facts, AnchorOk(s.id, clock));
    out := BuildAtAnchors(facts, s.id, anchors[..count], clock);
  }

  const MAX_STATEMENTS: nat := 240000

  /** The builder's input limits. */
  ghost predicate BuilderAccepts(facts: seq<Fact>, securities: seq<Security>) {
    && |facts| <= MAX_FACTS && ValidSecurities(securities)
    && |securities| <= MAX_STATEMENTS / MAX_ANCHORS
  }

  /** A statement list comes back exactly for inputs within the limits. */
  method BuildStatementSnapshots(facts: seq<Fact>, securities: seq<Security>, clock: Clock)
    returns (r: Option<seq<Statement>>)
    ensures r.Some? <==> BuilderAccepts(facts, securities)
    ensures r.Some? ==> r.value == Snapshots(facts, securities, clock)
  {
    if |facts| > MAX_FACTS || |securities| > MAX_STATEMENTS / MAX_ANCHORS {
      return None;
    }
    var ok := CheckSecurities(securities);
    if !ok {
      return None;
    }
    var out: seq<Statement> := [];
    for i := 0 to |securities|
      invariant out == Snapshots(facts, securities[..i], clock)
    {
      assert securities[..i + 1][..i] == securities[..i];
      if !securities[i].investable {
        continue;
      }
      var built := BuildForSecurity(facts, securities[i], clock);
      out := out + built;
    }
    assert securities[..|securities|] == securities;
    r := Some(out);
  }

  // ----- What a statement's quality says

  /** Some contributing value carries an observation flag of `mask`. */
  ghost predicate Carries(ps: seq<Option<Point>>, mask: set<Quality>) {
    exists p :: p in ps && p.Some? && Meets(p.value.flags, mask)
  }

  lemma CombinedMeets(ps: seq<Option<Point>>, mask: set<Quality>)
    ensures Meets(CombinedFlags(ps), mask) <==> Carries(ps, mask)
  {
    var all := CombinedFlags(ps);
    CombinedFlagsExactly(ps);
    if Meets(all, mask) {
      var x :| x in all * mask;
      var p :| p in ps && p.Some? && x in p.value.flags;
      assert x in p.value.flags * mask;
    }
    if Carries(ps, mask) {
      var p :| p in ps && p.Some? && Meets(p.value.flags, mask);
      var x :| x in p.value.flags * mask;
      assert x in all * mask;
    }
  }

  /** When each statement flag is due. */
  ghost predicate Due(o: Observed, flag: StatementFlag) {
    match flag
    case MissingRevenue => !Positive(o.revenue)
    case MissingShares => !Positive(o.shares)
    case MissingCash => o.cash.None?
    case MissingDebt => o.debt.None?
    case MissingOperatingCashFlow => o.operatingCashFlow.None?
    case MissingCapex => o.capex.None?
    case NegativeFcf => FreeCashFlow(o) < 0.0
    case NonComparablePeriod => Carries(Points(o), NON_COMPARABLE_FLAGS)
    case AmendedOrRestated => Carries(Points(o), {AmendedFiling, Restatement})
    case DerivedTtm => Carries(Points(o), {Derived})
    case LowConfidenceStatement =>
      || !Positive(o.revenue) || !Positive(o.shares) || o.operatingCashFlow.None? || o.capex.None?
      || Carries(Points(o), LOW_CONFIDENCE_FLAGS)
  }

  lemma ObservationDue(o: Observed, flag: StatementFlag)
    ensures flag in ObservationFlags(CombinedFlags(Points(o))) <==>
            || (flag.AmendedOrRestated? && Carries(Points(o), {AmendedFiling, Restatement}))
            || (flag.DerivedTtm? && Carries(Points(o), {Derived}))
            || (flag.LowConfidenceStatement? && Carries(Points(o), LOW_CONFIDENCE_FLAGS))
            || (flag.NonComparablePeriod? && Carries(Points(o), NON_COMPARABLE_FLAGS))
  {
    var seen := CombinedFlags(Points(o));
    CombinedMeets(Points(o), {AmendedFiling, Restatement});
    CombinedMeets(Points(o), {Derived});
    CombinedMeets(Points(o), LOW_CONFIDENCE_FLAGS);
    CombinedMeets(Points(o), NON_COMPARABLE_FLAGS);
    assert Derived in seen ==> Derived in seen * {Derived};
    assert Meets(seen, {Derived}) ==> Derived in seen;
  }

  /** A statement carries a flag exactly when it is due. */
  lemma FlagExactly(o: Observed, flag: StatementFlag)
    ensures flag in QualityOf(o) <==> Due(o, flag)
  {
    ObservationDue(o, flag);
  }

  /** Low confidence is flagged exactly when something needed is missing or a contributing value is doubtful. */
  lemma LowConfidenceExactly(o: Observed)
    ensures LowConfidenceStatement !in QualityOf(o) <==>
            && Positive(o.revenue) && Positive(o.shares) && o.operatingCashFlow.Some? && o.capex.Some?
            && forall p :: p in Points(o) && p.Some? ==> p.value.flags !! LOW_CONFIDENCE_FLAGS
  {
    FlagExactly(o, LowConfidenceStatement);
    forall p | p in Points(o) && p.Some?
      ensures Meets(p.value.flags, LOW_CONFIDENCE_FLAGS) <==> !(p.value.flags !! LOW_CONFIDENCE_FLAGS)
    {
      DisjointExactly(p.value.flags, LOW_CONFIDENCE_FLAGS);
    }
  }

  lemma DisjointExactly(a: set<Quality>, b: set<Quality>)
    ensures Meets(a, b) <==> !(a !! b)
  {
    if Meets(a, b) {
      var x :| x in a * b;
      assert x in a && x in b;
    } else {
      forall x | x in a ensures x !in b {
        assert x in b ==> x in a * b;
      }
    }
  }

  /** The observations a trailing flow was computed from. */
  ghost predicate FlowFrom(q: Query, x: Point, fs: seq<Fact>) {
    || (|fs| == 1 && x == PointOf(fs[0]))
    || Some(x) == QuarterPoint(fs, q.anchor)
    || (|fs| == 3 && Bridges(q, fs[0], fs[1], fs[2]) && x == BridgePoint(q, fs[0], fs[1], fs[2]))
  }

  ghost predicate Contributing(facts: seq<Fact>, q: Query, x: Point, fs: seq<Fact>) {
    FlowFrom(q, x, fs) && forall f :: f in fs ==> f in facts && BasicUsable(f, q)
  }

  ghost predicate Sourced(facts: seq<Fact>, q: Query, r: Option<Point>) {
    r.Some? ==> exists fs :: Contributing(facts, q, r.value, fs)
  }

  lemma ExactSourced(facts: seq<Fact>, q: Query)
    ensures Sourced(facts, q, ExactAnnual(facts, q)) && Sourced(facts, q, BalanceAt(facts, q))
  {
    NewerRanks();
    LatestMember(facts, ExactAnnualOk(q), FiledLater());
    LatestMember(facts, PointOk(q), LaterPeriod());
    var a, b := Latest(facts, ExactAnnualOk(q), FiledLater()), Latest(facts, PointOk(q), LaterPeriod());
    if a.Some? {
      assert Contributing(facts, q, PointOf(a.value), [a.value]);
    }
    if b.Some? {
      assert Contributing(facts, q, PointOf(b.value), [b.value]);
    }
  }

  lemma BridgeSourced(facts: seq<Fact>, q: Query)
    ensures Sourced(facts, q, Bridge(facts, q))
  {
    if Bridge(facts, q).Some? {
      BridgeOrigin(facts, q);
      var c, a, p :| Proposed(facts, q, c, a, p) && Bridge(facts, q).value == BridgePoint(q, c, a, p);
      assert Contributing(facts, q, Bridge(facts, q).value, [c, a, p]);
    }
  }

  lemma QuartersSourced(facts: seq<Fact>, q: Query)
    ensures Sourced(facts, q, QuarterTtm(facts, q))
  {
    if QuarterTtm(facts, q).Some? {
      WindowUsable(facts, QuarterOk(q));
      assert Contributing(facts, q, QuarterTtm(facts, q).value, Window(facts, QuarterOk(q)));
    }
  }

  /** Every trailing flow comes from usable facts of that security and metric. */
  lemma FlowSourced(facts: seq<Fact>, q: Query)
    ensures Sourced(facts, q, FlowTtm(facts, q)) && Sourced(facts, q, BalanceAt(facts, q))
  {
    ExactSourced(facts, q);
    QuartersSourced(facts, q);
    BridgeSourced(facts, q);
  }

  lemma {:induction false} AllFlagsCover(qs: seq<Fact>, f: Fact)
    requires f in qs
    ensures f.flags <= AllFlags(qs)
  {
    var n := |qs| - 1;
    assert qs == qs[..n] + [qs[n]];
    if f != qs[n] {
      AllFlagsCover(qs[..n], f);
    }
  }

  /** A derived value carries every flag of the observations behind it. */
  lemma FlagsInherited(facts: seq<Fact>, q: Query, x: Point, fs: seq<Fact>, f: Fact)
    requires Contributing(facts, q, x, fs) && f in fs
    ensures f.flags <= x.flags
  {
    if Some(x) == QuarterPoint(fs, q.anchor) {
      AllFlagsCover(fs, f);
    }
  }

  lemma SourceAvailable(facts: seq<Fact>, q: Query, x: Point, fs: seq<Fact>)
    requires Contributing(facts, q, x, fs)
    ensures x.available > 0
  {
    if Some(x) == QuarterPoint(fs, q.anchor) {
      assert fs[3] in fs;
      assert fs[3].available > 0 && LastFiling(fs) >= fs[3].available;
    } else {
      assert fs[0] in fs;
    }
  }

  /** A statement exists exactly when revenue, net income or operating cash flow does. */
  lemma BuiltExactly(facts: seq<Fact>, security: nat, anchor: int, clock: Clock)
    ensures var o := ObservedAt(facts, security, anchor, clock);
            StatementAt(facts, security, anchor, clock).Some? <==>
              o.revenue.Some? || o.netIncome.Some? || o.operatingCashFlow.Some?
  {
    var o := ObservedAt(facts, security, anchor, clock);
    FlowPositive(facts, Query(security, REVENUE, anchor, clock));
    FlowPositive(facts, Query(security, NET_INCOME, anchor, clock));
    FlowPositive(facts, Query(security, OPERATING_CASH_FLOW, anchor, clock));
    LastAvailableCovers(Points(o));
    assert o.revenue in Points(o) && o.netIncome in Points(o) && o.operatingCashFlow in Points(o);
  }

  lemma FlowPositive(facts: seq<Fact>, q: Query)
    ensures FlowTtm(facts, q).Some? ==> FlowTtm(facts, q).value.available > 0
  {
    FlowSourced(facts, q);
    if FlowTtm(facts, q).Some? {
      var fs :| Contributing(facts, q, FlowTtm(facts, q).value, fs);
      SourceAvailable(facts, q, FlowTtm(facts, q).value, fs);
    }
  }

  // ----- Which statements a security gets

  function StatementEnds(ss: seq<Statement>): (r: seq<int>)
    ensures |r| == |ss| && forall i :: 0 <= i < |ss| ==> r[i] == ss[i].end
  {
    seq(|ss|, i requires 0 <= i < |ss| => ss[i].end)
  }

  lemma {:induction false} CollectedMembers(days: seq<int>, build: int -> Option<Statement>)
    ensures forall s :: s in Collected(days, build) <==> exists d :: d in days && build(d) == Some(s)
  {
    if days != [] {
      var n := |days| - 1;
      assert days == days[..n] + [days[n]];
      CollectedMembers(days[..n], build);
      assert forall d :: d in days <==> d in days[..n] || d == days[n];
      assert days[n] in days;
      forall s ensures s in Collected(days, build) <==> s in Collected(days[..n], build) || build(days[n]) == Some(s) {
      }
    }
  }

  ghost predicate BuildsFor(build: int -> Option<Statement>) {
    forall d :: build(d).Some? ==> build(d).value.end == d
  }

  lemma Appended(xs: seq<int>, d: int)
    requires StrictDesc(xs) && forall x :: x in xs ==> x > d
    ensures StrictDesc(xs + [d])
  {
    assert forall i :: 0 <= i < |xs| ==> xs[i] in xs;
  }

  lemma {:induction false} CollectedDescend(days: seq<int>, build: int -> Option<Statement>)
    requires StrictDesc(days) && BuildsFor(build)
    ensures var ends := StatementEnds(Collected(days, build));
            StrictDesc(ends) && |ends| <= |days| && forall d :: d in ends ==> d in days
  {
    if days != [] {
      var n := |days| - 1;
      CollectedDescend(days[..n], build);
      EndsExtend(Collected(days[..n], build), days, build(days[n]));
    }
  }

  lemma EndsExtend(front: seq<Statement>, anchors: seq<int>, r: Option<Statement>)
    requires anchors != [] && StrictDesc(anchors) && (r.Some? ==> r.value.end == anchors[|anchors| - 1])
    requires var ends := StatementEnds(front);
             StrictDesc(ends) && |ends| < |anchors| && forall d :: d in ends ==> d in anchors[..|anchors| - 1]
    ensures var ends := StatementEnds(front + if r.Some? then [r.value] else []);
            StrictDesc(ends) && |ends| <= |anchors| && forall d :: d in ends ==> d in anchors
  {
    var n := |anchors| - 1;
    var ends := StatementEnds(front);
    assert front + [] == front;
    if r.Some? {
      assert forall d :: d in anchors[..n] ==> d > anchors[n];
      Appended(ends, anchors[n]);
      assert StatementEnds(front + [r.value]) == ends + [anchors[n]];
    }
  }

  /** A security's statements: the buildable ones among its twelve latest revenue days, newest first. */
  lemma SecurityStatementsExact(facts: seq<Fact>, s: Security, clock: Clock)
    requires s.investable
    ensures var ss := SecurityStatements(facts, s, clock);
            && StrictDesc(StatementEnds(ss)) && |ss| <= MAX_ANCHORS
            && exists days ::
                 && Largest(EndDays(facts, AnchorOk(s.id, clock)), MAX_ANCHORS, days)
                 && forall x :: x in ss <==> exists d :: d in days && Builder(facts, s.id, clock)(d) == Some(x)
  {
    var days := AnchorDays(facts, AnchorOk(s.id, clock));
    AnchorDaysExact(facts, AnchorOk(s.id, clock));
    CollectedDescend(days, Builder(facts, s.id, clock));
    CollectedMembers(days, Builder(facts, s.id, clock));
  }
}
