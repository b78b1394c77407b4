/**
 The valuation plan: value every security on its latest statement, allocate by
 score, and abstain from anything whose statement is incomplete or doubtful.
 */
module ValuationPlan {
  import opened Wrappers
  import opened Facts
  import opened Selection
  import opened Ttm
  import opened Statements
  import opened Valuation
  import opened Allocation

  datatype Plan = Plan(valuations: seq<Valued>, targets: seq<Target>, intents: seq<Intent>)

  ghost predicate ValidInputs(statements: seq<Statement>, securities: seq<Security>, positions: seq<Position>,
                              scenarios: seq<Scenario>, st: Settings) {
    && |statements| <= MAX_STATEMENTS && 0 < |scenarios| <= MAX_SCENARIOS
    && ValidSecurities(securities) && ValidPositions(positions) && AllValid(scenarios) && ValidBudget(st.budget)
  }

  method ValidateInputs(statements: seq<Statement>, securities: seq<Security>, positions: seq<Position>,
                        scenarios: seq<Scenario>, st: Settings) returns (ok: bool)
    ensures ok <==> ValidInputs(statements, securities, positions, scenarios, st)
  {
    if |statements| > MAX_STATEMENTS || |scenarios| > MAX_SCENARIOS || |scenarios| == 0 || !ValidBudget(st.budget) {
      return false;
    }
    ok := CheckSecurities(securities);
    if !ok {
      return;
    }
    ok := CheckPositions(positions);
    if !ok {
      return;
    }
    for i := 0 to |scenarios|
      invariant forall k :: 0 <= k < i ==> ValidScenario(scenarios[k])
    {
      if !ValidScenario(scenarios[i]) {
        assert scenarios[i] in scenarios;
        return false;
      }
    }
  }

  function ValueOne(statements: seq<Statement>, s: Security, scenarios: seq<Scenario>, st: Settings): Valued
    requires AllValid(scenarios)
  {
    ValuationOf(s, LatestTwo(statements, s.id, st.clock), scenarios)
  }

  function Values(statements: seq<Statement>, securities: seq<Security>, scenarios: seq<Scenario>, st: Settings)
    : seq<Valued>
    requires AllValid(scenarios)
  {
    seq(|securities|, i requires 0 <= i < |securities| => ValueOne(statements, securities[i], scenarios, st))
  }

  function ScoredRow(v: Valued, s: Security, st: Settings): Candidate {
    var score := LiquidityScore(v, s, st.minAdv);
    Candidate(v.security, s.investable && score > 0.0, score)
  }

  function ScoredRows(vs: seq<Valued>, securities: seq<Security>, st: Settings): seq<Candidate>
    requires |vs| == |securities|
  {
    seq(|vs|, i requires 0 <= i < |vs| => ScoredRow(vs[i], securities[i], st))
  }

  function PlanOf(statements: seq<Statement>, securities: seq<Security>, positions: seq<Position>,
                  scenarios: seq<Scenario>, st: Settings): Plan
    requires AllValid(scenarios)
  {
    var vs := Values(statements, securities, scenarios, st);
    var ts := Targets(ScoredRows(vs, securities, st), st.budget, positions);
    Plan(vs, ts, Intents(ts, st.budget))
  }

  method ValueAll(statements: seq<Statement>, securities: seq<Security>, scenarios: seq<Scenario>, st: Settings)
    returns (vs: seq<Valued>)
    requires AllValid(scenarios)
    ensures vs == Values(statements, securities, scenarios, st)
  {
    vs := [];
    for i := 0 to |securities|
      invariant |vs| == i
      invariant forall k :: 0 <= k < i ==> vs[k] == ValueOne(statements, securities[k], scenarios, st)
    {
      var pair := ChooseLatestTwoTtmStatements(statements, securities[i].id, st.clock);
      var valued := ValueSecurity(securities[i], pair, scenarios);
      vs := vs + [valued.value];
    }
  }

  method BuildTargetsFromValuations(vs: seq<Valued>, securities: seq<Security>, positions: seq<Position>, st: Settings)
    returns (targets: array<Target>, intents: array<Intent>, count: nat)
    requires |vs| == |securities|
    ensures fresh(targets) && fresh(intents) && count <= intents.Length
    ensures var ts := Targets(ScoredRows(vs, securities, st), st.budget, positions);
            targets[..] == ts && intents[..count] == Intents(ts, st.budget)
  {
    ghost var all := ScoredRows(vs, securities, st);
    var sum, rows := 0.0, [];
    for i := 0 to |vs|
      invariant rows == all[..i] && sum == ScoreSum(all[..i])
    {
      var row := ScoredRow(vs[i], securities[i], st);
      assert all[..i + 1] == all[..i] + [row];
      rows := rows + [row];
      sum := sum + row.score;
    }
    assert all[..|vs|] == all;
    targets, intents, count := Allocate(rows, sum, st.budget, positions);
  }

  method BuildValuationPlan(statements: seq<Statement>, securities: seq<Security>, positions: seq<Position>,
                            scenarios: seq<Scenario>, st: Settings) returns (r: Option<Plan>)
    ensures r.Some? <==> ValidInputs(statements, securities, positions, scenarios, st)
    ensures r.Some? ==> r.value == PlanOf(statements, securities, positions, scenarios, st)
  {
    var ok := ValidateInputs(statements, securities, positions, scenarios, st);
    if !ok {
      return None;
    }
    var vs := ValueAll(statements, securities, scenarios, st);
    var targets, intents, count := BuildTargetsFromValuations(vs, securities, positions, st);
    r := Some(Plan(vs, targets[..], intents[..count]));
  }

  // ----- Exposure

  lemma ScoredRowSound(statements: seq<Statement>, s: Security, scenarios: seq<Scenario>, st: Settings)
    requires AllValid(scenarios)
    ensures var r := ScoredRow(ValueOne(statements, s, scenarios, st), s, st);
            r.security == s.id && r.score >= 0.0 && (!r.chosen ==> r.score == 0.0)
  {
    ScoreExactly(ValueOne(statements, s, scenarios, st), s, st.minAdv);
  }

  /** A valid call's targets respect the name cap and the gross exposure, exactly when scores pass and no cap binds. */
  lemma ValuationExposure(statements: seq<Statement>, securities: seq<Security>, positions: seq<Position>,
                          scenarios: seq<Scenario>, st: Settings)
    requires ValidInputs(statements, securities, positions, scenarios, st)
    ensures var p := PlanOf(statements, securities, positions, scenarios, st);
            var rows := ScoredRows(p.valuations, securities, st);
            && (forall t :: t in p.targets ==> 0.0 <= t.target <= st.budget.cap)
            && TargetTotal(p.targets) <= st.budget.gross
            && (ScoreSum(rows) > TINY ==>
                  (TargetTotal(p.targets) == st.budget.gross <==> NoCapBinds(rows, ScoreSum(rows), st.budget)))
  {
    var vs := Values(statements, securities, scenarios, st);
    var rows := ScoredRows(vs, securities, st);
    forall r | r in rows ensures r.score >= 0.0 && (!r.chosen ==> r.score == 0.0) {
      var i :| 0 <= i < |rows| && rows[i] == r;
      ScoredRowSound(statements, securities[i], scenarios, st);
    }
    TargetsWithinExposure(rows, st.budget, positions);
  }

  // ----- Abstention

  /** Every observation behind this value is free of low-confidence flags, and there is one. */
  ghost predicate CleanlySourced(facts: seq<Fact>, q: Query, r: Option<Point>) {
    r.Some? ==>
      && (exists fs :: Contributing(facts, q, r.value, fs))
      && (forall fs, f: Fact :: Contributing(facts, q, r.value, fs) && f in fs ==> f.flags !! LOW_CONFIDENCE_FLAGS)
  }

  lemma CleanPoint(facts: seq<Fact>, q: Query, r: Option<Point>)
    requires Sourced(facts, q, r) && (r.Some? ==> r.value.flags !! LOW_CONFIDENCE_FLAGS)
    ensures CleanlySourced(facts, q, r)
  {
    if r.Some? {
      forall fs, f: Fact | Contributing(facts, q, r.value, fs) && f in fs ensures f.flags !! LOW_CONFIDENCE_FLAGS {
        FlagsInherited(facts, q, r.value, fs, f);
      }
    }
  }

  /** Positive revenue and shares, both cash flows, and only clean observations behind the trailing flows. */
  ghost predicate CleanFlows(facts: seq<Fact>, security: nat, anchor: int, clock: Clock) {
    var o := ObservedAt(facts, security, anchor, clock);
    && Positive(o.revenue) && o.operatingCashFlow.Some? && o.capex.Some?
    && CleanlySourced(facts, Query(security, REVENUE, anchor, clock), o.revenue)
    && CleanlySourced(facts, Query(security, NET_INCOME, anchor, clock), o.netIncome)
    && CleanlySourced(facts, Query(security, EPS_DILUTED, anchor, clock), o.eps)
    && CleanlySourced(facts, Query(security, OPERATING_CASH_FLOW, anchor, clock), o.operatingCashFlow)
    && CleanlySourced(facts, Query(security, CAPEX, anchor, clock), o.capex)
  }

  ghost predicate CleanBalances(facts: seq<Fact>, security: nat, anchor: int, clock: Clock) {
    var o := ObservedAt(facts, security, anchor, clock);
    && Positive(o.shares)
    && CleanlySourced(facts, Query(security, DILUTED_SHARES, anchor, clock), o.shares)
    && CleanlySourced(facts, Query(security, CASH, anchor, clock), o.cash)
    && CleanlySourced(facts, Query(security, DEBT, anchor, clock), o.debt)
  }

  ghost predicate CleanPoints(o: Observed) {
    forall p :: p in Points(o) && p.Some? ==> p.value.flags !! LOW_CONFIDENCE_FLAGS
  }

  lemma FlowsClean(facts: seq<Fact>, security: nat, anchor: int, clock: Clock)
    requires var o := ObservedAt(facts, security, anchor, clock);
             CleanPoints(o) && Positive(o.revenue) && o.operatingCashFlow.Some? && o.capex.Some?
    ensures CleanFlows(facts, security, anchor, clock)
  {
    var o := ObservedAt(facts, security, anchor, clock);
    assert o.revenue in Points(o) && o.netIncome in Points(o) && o.eps in Points(o)
        && o.operatingCashFlow in Points(o) && o.capex in Points(o);
    CleanMetric(facts, Query(security, REVENUE, anchor, clock));
    CleanMetric(facts, Query(security, NET_INCOME, anchor, clock));
    CleanMetric(facts, Query(security, EPS_DILUTED, anchor, clock));
    CleanMetric(facts, Query(security, OPERATING_CASH_FLOW, anchor, clock));
    CleanMetric(facts, Query(security, CAPEX, anchor, clock));
  }

  lemma CleanMetric(facts: seq<Fact>, q: Query)
    ensures var r := FlowTtm(facts, q);
            (r.Some? ==> r.value.flags !! LOW_CONFIDENCE_FLAGS) ==> CleanlySourced(facts, q, r)
    ensures var r := BalanceAt(facts, q);
            (r.Some? ==> r.value.flags !! LOW_CONFIDENCE_FLAGS) ==> CleanlySourced(facts, q, r)
  {
    FlowSourced(facts, q);
    if FlowTtm(facts, q).Some? ==> FlowTtm(facts, q).value.flags !! LOW_CONFIDENCE_FLAGS {
      CleanPoint(facts, q, FlowTtm(facts, q));
    }
    if BalanceAt(facts, q).Some? ==> BalanceAt(facts, q).value.flags !! LOW_CONFIDENCE_FLAGS {
      CleanPoint(facts, q, BalanceAt(facts, q));
    }
  }

  lemma BalancesClean(facts: seq<Fact>, security: nat, anchor: int, clock: Clock)
    requires var o := ObservedAt(facts, security, anchor, clock); CleanPoints(o) && Positive(o.shares)
    ensures CleanBalances(facts, security, anchor, clock)
  {
    var o := ObservedAt(facts, security, anchor, clock);
    assert o.shares in Points(o) && o.cash in Points(o) && o.debt in Points(o);
    CleanMetric(facts, Query(security, DILUTED_SHARES, anchor, clock));
    CleanMetric(facts, Query(security, CASH, anchor, clock));
    CleanMetric(facts, Query(security, DEBT, anchor, clock));
  }

  lemma {:induction false} SnapshotOrigin(facts: seq<Fact>, securities: seq<Security>, clock: Clock, x: Statement)
    requires x in Snapshots(facts, securities, clock)
    ensures StatementAt(facts, x.security, x.end, clock) == Some(x)
  {
    var n := |securities| - 1;
    var s := securities[n];
    if x in Snapshots(facts, securities[..n], clock) {
      SnapshotOrigin(facts, securities[..n], clock, x);
    } else {
      var days := Windows.AnchorDays(facts, AnchorOk(s.id, clock));
      CollectedMembers(days, Builder(facts, s.id, clock));
      var d :| d in days && Builder(facts, s.id, clock)(d) == Some(x);
      assert StatementAt(facts, s.id, d, clock) == Some(x);
    }
  }

  /** A snapshot without the low-confidence flag was built from clean observations. */
  lemma SnapshotClean(facts: seq<Fact>, securities: seq<Security>, clock: Clock, x: Statement)
    requires x in Snapshots(facts, securities, clock) && LowConfidenceStatement !in x.flags
    ensures CleanFlows(facts, x.security, x.end, clock) && CleanBalances(facts, x.security, x.end, clock)
  {
    SnapshotOrigin(facts, securities, clock, x);
    var o := ObservedAt(facts, x.security, x.end, clock);
    LowConfidenceExactly(o);
    FlowsClean(facts, x.security, x.end, clock);
    BalancesClean(facts, x.security, x.end, clock);
  }

  /** The statement a security is valued on. */
  ghost predicate ValuedOn(statements: seq<Statement>, s: Security, st: Settings, x: Statement) {
    && x in statements && x.security == s.id
    && LatestTwo(statements, s.id, st.clock).latest == Some(x)
  }

  lemma PositiveTargetUsable(statements: seq<Statement>, securities: seq<Security>, positions: seq<Position>,
                             scenarios: seq<Scenario>, st: Settings, i: nat)
    requires AllValid(scenarios) && ValidBudget(st.budget) && i < |securities|
    requires PlanOf(statements, securities, positions, scenarios, st).targets[i].target > 0.0
    ensures var s, pair := securities[i], LatestTwo(statements, securities[i].id, st.clock);
            && CanValue(s, pair) && Tolerable(pair.latest.value.flags, pair.previous.Some?) && s.adv >= st.minAdv
            && ValuedOn(statements, s, st, pair.latest.value)
  {
    var s, pair := securities[i], LatestTwo(statements, securities[i].id, st.clock);
    var vs := Values(statements, securities, scenarios, st);
    assert ScoredRows(vs, securities, st)[i].chosen;
    PositiveScoreMeans(s, pair, scenarios, st.minAdv);
    LaterRanks();
    LatestMember(statements, EligibleStatement(s.id, st.clock), Later());
  }

  /**
   End to end: over all observations, a security with a positive target was valued on a built statement with
   positive revenue and shares, both cash flows, and no low-confidence observation behind any value it uses.
   */
  lemma Abstains(facts: seq<Fact>, built: seq<Security>, builderClock: Clock, securities: seq<Security>,
                 positions: seq<Position>, scenarios: seq<Scenario>, st: Settings, i: nat)
    requires var statements := Snapshots(facts, built, builderClock);
             && ValidInputs(statements, securities, positions, scenarios, st) && i < |securities|
             && PlanOf(statements, securities, positions, scenarios, st).targets[i].target > 0.0
    ensures exists x ::
              && ValuedOn(Snapshots(facts, built, builderClock), securities[i], st, x)
              && CleanFlows(facts, securities[i].id, x.end, builderClock)
              && CleanBalances(facts, securities[i].id, x.end, builderClock)
    ensures securities[i].investable && securities[i].price > 0.0 && securities[i].adv >= st.minAdv
  {
    var statements := Snapshots(facts, built, builderClock);
    PositiveTargetUsable(statements, securities, positions, scenarios, st, i);
    var x := LatestTwo(statements, securities[i].id, st.clock).latest.value;
    SnapshotClean(facts, built, builderClock, x);
    assert ValuedOn(statements, securities[i], st, x);
  }
}
