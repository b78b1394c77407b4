/**
 Valuing one security: the latest two usable statements, scenario-weighted
 discounted cash flow, a confidence from the statement's flags, and a score.
 */
module Valuation {
  import opened Wrappers
  import opened Facts
  import opened Selection
  import opened Statements

  // ----- The latest two statements

  predicate Usable(s: Statement) {
    s.security != 0 && s.end > 0 && s.available > 0 && s.revenue > 0.0 && s.shares > 0.0
  }

  predicate StatementEligible(s: Statement, security: nat, clock: Clock) {
    s.security == security && s.ttm && Usable(s) && !TooOld(clock, s.available)
  }

  function EligibleStatement(security: nat, clock: Clock): Statement -> bool {
    (s: Statement) => StatementEligible(s, security, clock)
  }

  function EarlierStatement(security: nat, clock: Clock, day: int): Statement -> bool {
    (s: Statement) => StatementEligible(s, security, clock) && s.end < day
  }

  predicate LaterStatement(a: Statement, b: Statement) {
    a.end > b.end || (a.end == b.end && a.available > b.available)
  }

  function Later(): (Statement, Statement) -> bool { (a: Statement, b: Statement) => LaterStatement(a, b) }

  datatype StatementPair = StatementPair(latest: Option<Statement>, previous: Option<Statement>)

  /** The first maximum by period end and filing, and the same maximum over strictly earlier ends. */
  function LatestTwo(ss: seq<Statement>, security: nat, clock: Clock): StatementPair {
    var latest := Latest(ss, EligibleStatement(security, clock), Later());
    StatementPair(latest,
                  if latest.None? then None
                  else Latest(ss, EarlierStatement(security, clock, latest.value.end), Later()))
  }

  lemma LaterRanks()
    ensures Ranks(Later())
  {
  }

  lemma NoneEarlier(ss: seq<Statement>, security: nat, clock: Clock, day: int)
    requires var r := Latest(ss, EligibleStatement(security, clock), Later()); r.Some? ==> r.value.end < day
    ensures Latest(ss, EarlierStatement(security, clock, day), Later())
            == Latest(ss, EligibleStatement(security, clock), Later())
  {
    LaterRanks();
    LatestMember(ss, EligibleStatement(security, clock), Later());
    assert forall s :: StatementEligible(s, security, clock) ==> EligibleStatement(security, clock)(s);
    LatestCongruent(ss, EarlierStatement(security, clock, day), EligibleStatement(security, clock), Later());
  }

  /** One more statement moves the pair as the scan does. */
  lemma LatestTwoStep(ss: seq<Statement>, i: nat, security: nat, clock: Clock)
    requires i < |ss|
    ensures var p, s := LatestTwo(ss[..i], security, clock), ss[i];
            LatestTwo(ss[..i + 1], security, clock) ==
              if !StatementEligible(s, security, clock) then p
              else if p.latest.None? then StatementPair(Some(s), None)
              else if LaterStatement(s, p.latest.value) then
                StatementPair(Some(s), if s.end != p.latest.value.end then p.latest else p.previous)
              else if s.end != p.latest.value.end && (p.previous.None? || LaterStatement(s, p.previous.value)) then
                StatementPair(p.latest, Some(s))
              else p
  {
    var p, s := LatestTwo(ss[..i], security, clock), ss[i];
    var q := LatestTwo(ss[..i + 1], security, clock);
    LatestStep(ss, i, EligibleStatement(security, clock), Later());
    if q.latest.Some? {
      var day := q.latest.value.end;
      LatestStep(ss, i, EarlierStatement(security, clock, day), Later());
      if p.latest.None? || p.latest.value.end < day {
        NoneEarlier(ss[..i], security, clock, day);
      }
    }
  }

  method ChooseLatestTwoTtmStatements(ss: seq<Statement>, security: nat, clock: Clock) returns (pair: StatementPair)
    ensures pair == LatestTwo(ss, security, clock)
  {
    var latest: Option<Statement>, previous: Option<Statement> := None, None;
    for i := 0 to |ss|
      invariant StatementPair(latest, previous) == LatestTwo(ss[..i], security, clock)
    {
      LatestTwoStep(ss, i, security, clock);
      var statement := ss[i];
      if statement.security != security || !statement.ttm {
        continue;
      }
      if !Usable(statement) {
        continue;
      }
      if TooOld(clock, statement.available) {
        continue;
      }
      if latest.None? || LaterStatement(statement, latest.value) {
        if latest.Some? && latest.value.end != statement.end {
          previous := latest;
        }
        latest := Some(statement);
        continue;
      }
      if statement.end != latest.value.end {
        if previous.None? || LaterStatement(statement, previous.value) {
          previous := Some(statement);
        }
      }
    }
    assert ss[..|ss|] == ss;
    pair := StatementPair(latest, previous);
  }

  /** The pair, declaratively: for every scan order both members are first maxima. */
  lemma PairIsFirstMaxima(ss: seq<Statement>, security: nat, clock: Clock)
    ensures var p := LatestTwo(ss, security, clock);
            && IsLatest(ss, EligibleStatement(security, clock), Later(), p.latest)
            && (p.latest.Some? ==>
                  IsLatest(ss, EarlierStatement(security, clock, p.latest.value.end), Later(), p.previous))
  {
    LaterRanks();
    var p := LatestTwo(ss, security, clock);
    LatestIsFirstMaximum(ss, EligibleStatement(security, clock), Later());
    if p.latest.Some? {
      LatestIsFirstMaximum(ss, EarlierStatement(security, clock, p.latest.value.end), Later());
    }
  }

  ghost predicate TwoEnds(ss: seq<Statement>, security: nat, clock: Clock) {
    exists a, b :: a in ss && b in ss && StatementEligible(a, security, clock) && StatementEligible(b, security, clock)
                   && a.end < b.end
  }

  /** A previous statement exists exactly when two eligible statements end on different days. */
  lemma PreviousExactly(ss: seq<Statement>, security: nat, clock: Clock)
    ensures LatestTwo(ss, security, clock).previous.Some? <==> TwoEnds(ss, security, clock)
    ensures LatestTwo(ss, security, clock).latest.Some? <==> exists s :: s in ss && StatementEligible(s, security, clock)
  {
    LaterRanks();
    var p := LatestTwo(ss, security, clock);
    var ok := EligibleStatement(security, clock);
    LatestMember(ss, ok, Later());
    assert forall s :: StatementEligible(s, security, clock) ==> ok(s);
    if p.latest.Some? {
      var day := p.latest.value.end;
      var before := EarlierStatement(security, clock, day);
      LatestMember(ss, before, Later());
      assert forall s :: StatementEligible(s, security, clock) && s.end < day ==> before(s);
    }
  }

  // ----- Discounted cash flow

  datatype Scenario = Scenario(
    growth: real, terminalGrowth: real, margin: real, discount: real, multiple: real, weight: real)

  predicate ValidScenario(s: Scenario) {
    && -0.8 <= s.growth <= 1.0
    && -0.2 <= s.terminalGrowth <= 0.08
    && -0.5 <= s.margin <= 0.6
    && 0.03 <= s.discount <= 0.4
    && 0.0 <= s.multiple <= 60.0
    && 0.0 <= s.weight <= 1.0
  }

  function Pow(base: real, n: nat): (r: real)
    ensures base > 0.0 ==> r > 0.0
  {
    if n == 0 then 1.0 else Pow(base, n - 1) * base
  }

  method PowInt(base: real, exponent: nat) returns (result: real)
    ensures result == Pow(base, exponent)
  {
    result := 1.0;
    for i := 0 to exponent
      invariant result == Pow(base, i)
    {
      result := result * base;
    }
  }

  /** Revenue a year on. */
  function Grown(revenue: real, s: Scenario): real { revenue * (1.0 + s.growth) }

  function RevenueIn(revenue: real, s: Scenario, year: nat): real {
    if year == 0 then revenue else Grown(RevenueIn(revenue, s, year - 1), s)
  }

  /** A value of `year` years on, discounted to now. */
  function Discounted(x: real, s: Scenario, year: nat): real
    requires s.discount > -1.0
  {
    x / Pow(1.0 + s.discount, year)
  }

  function FreeCash(revenue: real, s: Scenario): real { revenue * s.margin }

  /** Free cash flows of the first `years` years, each discounted from its own year. */
  function PresentValue(revenue: real, s: Scenario, years: nat): real
    requires s.discount > -1.0
  {
    if years == 0 then 0.0
    else PresentValue(revenue, s, years - 1) + Discounted(FreeCash(RevenueIn(revenue, s, years), s), s, years)
  }

  /** What the business is worth at the horizon, given its revenue then. */
  function Terminal(revenue: real, s: Scenario): real {
    FreeCash(revenue, s) * (1.0 + s.terminalGrowth) * s.multiple
  }

  /** The value after `years` years, discounted to now. */
  function HorizonValue(revenue: real, s: Scenario, years: nat): real
    requires s.discount > -1.0
  {
    Discounted(Terminal(RevenueIn(revenue, s, years), s), s, years)
  }

  function EquityValue(latest: Statement, s: Scenario): real
    requires s.discount > -1.0
  {
    PresentValue(latest.revenue, s, 5) + HorizonValue(latest.revenue, s, 5) - latest.netDebt
  }

  method Discount(x: real, s: Scenario, year: nat) returns (r: real)
    requires ValidScenario(s)
    ensures r == Discounted(x, s, year)
  {
    var divisor := PowInt(1.0 + s.discount, year);
    r := x / divisor;
  }

  method DiscountFlows(start: real, s: Scenario) returns (presentValue: real, revenue: real)
    requires ValidScenario(s)
    ensures presentValue == PresentValue(start, s, 5) && revenue == RevenueIn(start, s, 5)
  {
    presentValue, revenue := 0.0, start;
    for year := 1 to 6
      invariant presentValue == PresentValue(start, s, year - 1)
      invariant revenue == RevenueIn(start, s, year - 1)
    {
      revenue := Grown(revenue, s);
      var discounted := Discount(FreeCash(revenue, s), s, year);
      presentValue := presentValue + discounted;
    }
  }

  method DcfEquityValueUsd(latest: Statement, s: Scenario) returns (equity: real)
    requires ValidScenario(s)
    ensures equity == EquityValue(latest, s)
  {
    var presentValue, revenue := DiscountFlows(latest.revenue, s);
    var terminalFcf := FreeCash(revenue, s) * (1.0 + s.terminalGrowth);
    var terminalValue := Discount(terminalFcf * s.multiple, s, 5);
    var enterprise := presentValue + terminalValue;
    equity := enterprise - latest.netDebt;
  }

  // ----- The same value, rolled back one year at a time from the horizon

  function OneYear(x: real, s: Scenario): real
    requires s.discount > -1.0
  {
    x / (1.0 + s.discount)
  }

  function RolledBack(revenue: real, s: Scenario, years: nat): real
    requires s.discount > -1.0
    decreases years
  {
    if years == 0 then Terminal(revenue, s)
    else OneYear(FreeCash(Grown(revenue, s), s) + RolledBack(Grown(revenue, s), s, years - 1), s)
  }

  lemma DivideTwice(x: real, p: real, q: real)
    requires p > 0.0 && q > 0.0
    ensures p * q > 0.0 && x / (p * q) == x / p / q
  {
    assert p * q > 0.0;
    assert x / p / q * (p * q) == x;
  }

  lemma DiscountedStep(x: real, s: Scenario, year: nat)
    requires s.discount > -1.0
    ensures Discounted(x, s, year + 1) == OneYear(Discounted(x, s, year), s)
    ensures Discounted(x, s, 0) == x
  {
    DivideTwice(x, Pow(1.0 + s.discount, year), 1.0 + s.discount);
  }

  lemma OneYearAdds(x: real, y: real, s: Scenario)
    requires s.discount > -1.0
    ensures OneYear(x + y, s) == OneYear(x, s) + OneYear(y, s)
  {
    DivideSum(x, y, 1.0 + s.discount);
  }

  lemma DivideSum(x: real, y: real, q: real)
    requires q > 0.0
    ensures (x + y) / q == x / q + y / q
  {
  }

  lemma {:induction false} RevenueShifts(revenue: real, s: Scenario, years: nat)
    ensures RevenueIn(revenue, s, years + 1) == RevenueIn(Grown(revenue, s), s, years)
  {
    if years > 0 {
      RevenueShifts(revenue, s, years - 1);
    } else {
      assert RevenueIn(revenue, s, 0) == revenue;
    }
  }

  lemma {:induction false} PresentValueShifts(revenue: real, s: Scenario, years: nat)
    requires s.discount > -1.0
    ensures PresentValue(revenue, s, years + 1)
            == OneYear(FreeCash(Grown(revenue, s), s) + PresentValue(Grown(revenue, s), s, years), s)
  {
    var next := Grown(revenue, s);
    RevenueShifts(revenue, s, years);
    var flow := FreeCash(RevenueIn(next, s, years), s);
    DiscountedStep(flow, s, years);
    if years == 0 {
      assert PresentValue(revenue, s, 0) == 0.0 && PresentValue(next, s, 0) == 0.0;
    } else {
      PresentValueShifts(revenue, s, years - 1);
      OneYearAdds(FreeCash(next, s) + PresentValue(next, s, years - 1), Discounted(flow, s, years), s);
      SumsRegroup(FreeCash(next, s), PresentValue(next, s, years - 1), Discounted(flow, s, years));
    }
  }

  lemma SumsRegroup(x: real, y: real, z: real)
    ensures x + y + z == x + (y + z)
  {
  }

  /** Discounting every flow from its own year equals rolling the value back one year at a time. */
  lemma {:induction false} RollsBack(revenue: real, s: Scenario, years: nat)
    requires s.discount > -1.0
    ensures PresentValue(revenue, s, years) + HorizonValue(revenue, s, years) == RolledBack(revenue, s, years)
    decreases years
  {
    var next := Grown(revenue, s);
    if years == 0 {
      DiscountedStep(Terminal(revenue, s), s, 0);
    } else {
      RollsBack(next, s, years - 1);
      PresentValueShifts(revenue, s, years - 1);
      RevenueShifts(revenue, s, years - 1);
      DiscountedStep(Terminal(RevenueIn(next, s, years - 1), s), s, years - 1);
      OneYearAdds(FreeCash(next, s) + PresentValue(next, s, years - 1), HorizonValue(next, s, years - 1), s);
      SumsRegroup(FreeCash(next, s), PresentValue(next, s, years - 1), HorizonValue(next, s, years - 1));
    }
  }

  /** The equity value is the five-year rolled-back enterprise value less net debt. */
  lemma EquityRollsBack(latest: Statement, s: Scenario)
    requires ValidScenario(s)
    ensures EquityValue(latest, s) == RolledBack(latest.revenue, s, 5) - latest.netDebt
  {
    RollsBack(latest.revenue, s, 5);
  }

  // ----- Weighting the scenarios

  function WeightSum(ss: seq<Scenario>): real {
    if ss == [] then 0.0 else WeightSum(ss[..|ss| - 1]) + ss[|ss| - 1].weight
  }

  ghost predicate AllValid(ss: seq<Scenario>) { forall s :: s in ss ==> ValidScenario(s) }

  function WeightedEquity(latest: Statement, ss: seq<Scenario>): real
    requires AllValid(ss)
  {
    if ss == [] then 0.0
    else
      var s := ss[|ss| - 1];
      assert s in ss;
      WeightedEquity(latest, ss[..|ss| - 1]) + EquityValue(latest, s) * s.weight
  }

  /** `x` is between `low` and `high` times the weight `w`. */
  predicate Between(low: real, x: real, high: real, w: real) { low * w <= x <= high * w }

  lemma WeighOne(x: real, w: real, v: real, w': real, low: real, high: real)
    requires Between(low, x, high, w) && w' >= 0.0 && low <= v <= high
    ensures Between(low, x + v * w', high, w + w')
  {
    assert low * w' <= v * w' <= high * w';
    assert low * (w + w') == low * w + low * w' && high * (w + w') == high * w + high * w';
  }

  /** The weighted sum lies between the extreme scenario values times the total weight. */
  lemma {:induction false} WeightedBetween(latest: Statement, ss: seq<Scenario>, low: real, high: real)
    requires AllValid(ss)
    requires forall s :: s in ss ==> low <= EquityValue(latest, s) <= high
    ensures Between(low, WeightedEquity(latest, ss), high, WeightSum(ss))
  {
    if ss != [] {
      var n := |ss| - 1;
      assert ss[n] in ss;
      WeightedBetween(latest, ss[..n], low, high);
      WeighOne(WeightedEquity(latest, ss[..n]), WeightSum(ss[..n]), EquityValue(latest, ss[n]), ss[n].weight, low, high);
    }
  }

  lemma Quotient(low: real, x: real, high: real, w: real)
    requires w > 0.0 && Between(low, x, high, w)
    ensures low <= x / w <= high
  {
    assert x / w * w == x;
  }

  /** The normalised equity value is an average: no lower than the worst scenario, no higher than the best. */
  lemma EquityIsAverage(latest: Statement, ss: seq<Scenario>, low: real, high: real)
    requires AllValid(ss) && WeightSum(ss) > TINY
    requires forall s :: s in ss ==> low <= EquityValue(latest, s) <= high
    ensures low <= WeightedEquity(latest, ss) / WeightSum(ss) <= high
  {
    WeightedBetween(latest, ss, low, high);
    Quotient(low, WeightedEquity(latest, ss), high, WeightSum(ss));
  }

  // ----- Confidence

  function Scaled(x: real, c: bool, factor: real): real { if c then x * factor else x }

  function Confidence(flags: set<StatementFlag>, hasPrevious: bool): real {
    var c1 := Scaled(0.9, !hasPrevious, 0.7);
    var c2 := Scaled(c1, MissingCash in flags, 0.85);
    var c3 := Scaled(c2, MissingDebt in flags, 0.85);
    var c4 := Scaled(c3, MissingOperatingCashFlow in flags, 0.55);
    var c5 := Scaled(c4, MissingCapex in flags, 0.7);
    var c6 := Scaled(c5, NegativeFcf in flags, 0.75);
    var c7 := Scaled(c6, NonComparablePeriod in flags, 0.6);
    var c8 := Scaled(c7, AmendedOrRestated in flags, 0.65);
    var c9 := Scaled(c8, LowConfidenceStatement in flags, 0.5);
    Clamp(c9, 0.0, 1.0)
  }

  function Count(c: bool): nat { if c then 1 else 0 }

  /** Doubts that cost a quarter of the confidence or more. */
  function MajorDoubts(flags: set<StatementFlag>, hasPrevious: bool): nat {
    Count(!hasPrevious) + Count(MissingCapex in flags) + Count(NegativeFcf in flags)
    + Count(NonComparablePeriod in flags) + Count(AmendedOrRestated in flags)
  }

  function MinorDoubts(flags: set<StatementFlag>): nat {
    Count(MissingCash in flags) + Count(MissingDebt in flags)
  }

  predicate Disqualified(flags: set<StatementFlag>) {
    LowConfidenceStatement in flags || MissingOperatingCashFlow in flags
  }

  /** What the threshold 0.5 tolerates. */
  predicate Tolerable(flags: set<StatementFlag>, hasPrevious: bool) {
    && !Disqualified(flags)
    && match MajorDoubts(flags, hasPrevious)
       case 0 => true
       case 1 => MinorDoubts(flags) == 0 ||
                 (MinorDoubts(flags) == 1 && NonComparablePeriod !in flags && AmendedOrRestated !in flags)
       case _ => false
  }

  lemma DisqualifiedConfidence(flags: set<StatementFlag>, hasPrevious: bool)
    requires Disqualified(flags)
    ensures Confidence(flags, hasPrevious) < 0.5
  {
  }

  /** The confidence reaches the threshold exactly for the tolerable combinations of flags. */
  lemma SufficientExactly(flags: set<StatementFlag>, hasPrevious: bool)
    ensures Confidence(flags, hasPrevious) >= 0.5 <==> Tolerable(flags, hasPrevious)
  {
    if Disqualified(flags) {
      DisqualifiedConfidence(flags, hasPrevious);
    }
  }

  // ----- One valuation and its score

  datatype Valued = Valued(
    security: nat, price: real, intrinsic: real, expectedReturn: real, marketCap: real, enterprise: real,
    fcfYield: real, netDebt: real, confidence: real, flags: set<StatementFlag>)

  function NotValued(s: Security): Valued {
    Valued(s.id, s.price, 0.0, 0.0, 0.0, 0.0, 0.0, 0.0, 0.0, {LowConfidenceStatement})
  }

  function ValuedAt(s: Security, pair: StatementPair, equity: real): Valued
    requires s.price > 0.0 && pair.latest.Some? && pair.latest.value.shares > 0.0
  {
    var latest := pair.latest.value;
    var perShare, cap := equity / latest.shares, s.price * latest.shares;
    Valued(s.id, s.price, perShare, (perShare - s.price) / s.price, cap, cap + latest.netDebt,
           if cap > TINY then latest.freeCashFlow / cap else 0.0, latest.netDebt,
           Confidence(latest.flags, pair.previous.Some?), latest.flags)
  }

  predicate CanValue(s: Security, pair: StatementPair) {
    s.investable && pair.latest.Some? && Usable(pair.latest.value) && s.price > 0.0
  }

  function ValuationOf(s: Security, pair: StatementPair, scenarios: seq<Scenario>): Valued
    requires AllValid(scenarios)
  {
    if !CanValue(s, pair) || WeightSum(scenarios) <= TINY then NotValued(s)
    else ValuedAt(s, pair, WeightedEquity(pair.latest.value, scenarios) / WeightSum(scenarios))
  }

  method ValueSecurity(s: Security, pair: StatementPair, scenarios: seq<Scenario>) returns (r: Option<Valued>)
    ensures CanValue(s, pair) ==> (r.Some? <==> AllValid(scenarios))
    ensures !CanValue(s, pair) ==> r == Some(NotValued(s))
    ensures AllValid(scenarios) ==> r == Some(ValuationOf(s, pair, scenarios))
  {
    if !s.investable {
      return Some(NotValued(s));
    }
    if pair.latest.None? || !Usable(pair.latest.value) {
      return Some(NotValued(s));
    }
    if s.price <= 0.0 {
      return Some(NotValued(s));
    }
    var latest := pair.latest.value;
    var weightSum, weighted := 0.0, 0.0;
    for i := 0 to |scenarios|
      invariant AllValid(scenarios[..i])
      invariant weightSum == WeightSum(scenarios[..i])
      invariant weighted == WeightedEquity(latest, scenarios[..i])
    {
      if !ValidScenario(scenarios[i]) {
        assert scenarios[i] in scenarios;
        return None;
      }
      assert scenarios[..i + 1] == scenarios[..i] + [scenarios[i]];
      var equity := DcfEquityValueUsd(latest, scenarios[i]);
      weighted := weighted + equity * scenarios[i].weight;
      weightSum := weightSum + scenarios[i].weight;
    }
    assert scenarios[..|scenarios|] == scenarios;
    if weightSum <= TINY {
      return Some(NotValued(s));
    }
    r := Some(ValuedAt(s, pair, weighted / weightSum));
  }

  function DebtPenalty(v: Valued): real {
    if v.netDebt > 0.0 && v.marketCap > TINY then 1.0 / (1.0 + Clamp(v.netDebt / v.marketCap, 0.0, 3.0)) else 1.0
  }

  function Penalty(v: Valued): real {
    var p1 := Scaled(1.0, NegativeFcf in v.flags, 0.5);
    var p2 := Scaled(p1, AmendedOrRestated in v.flags, 0.5);
    var p3 := Scaled(p2, LowConfidenceStatement in v.flags, 0.25);
    p3 * DebtPenalty(v)
  }

  function Score(v: Valued): real {
    if v.expectedReturn <= 0.0 || v.confidence < 0.5 then 0.0
    else Clamp(v.expectedReturn * v.confidence * Penalty(v), 0.0, 2.0)
  }

  function LiquidityScore(v: Valued, s: Security, minAdv: real): real {
    if s.adv < minAdv then 0.0 else Score(v)
  }

  lemma DebtPenaltyRange(v: Valued)
    ensures 0.0 < DebtPenalty(v) <= 1.0
  {
  }

  lemma ProductPositive(a: real, b: real)
    requires a > 0.0 && b > 0.0
    ensures a * b > 0.0
  {
  }

  /** A score is positive exactly when the return is positive, the confidence sufficient and the security liquid. */
  lemma ScoreExactly(v: Valued, s: Security, minAdv: real)
    ensures 0.0 <= LiquidityScore(v, s, minAdv) <= 2.0
    ensures LiquidityScore(v, s, minAdv) > 0.0 <==> v.expectedReturn > 0.0 && v.confidence >= 0.5 && s.adv >= minAdv
  {
    DebtPenaltyRange(v);
    var p3 := Scaled(Scaled(Scaled(1.0, NegativeFcf in v.flags, 0.5), AmendedOrRestated in v.flags, 0.5),
                     LowConfidenceStatement in v.flags, 0.25);
    ProductPositive(p3, DebtPenalty(v));
    if v.expectedReturn > 0.0 && v.confidence >= 0.5 {
      ProductPositive(v.expectedReturn, v.confidence);
      ProductPositive(v.expectedReturn * v.confidence, Penalty(v));
    }
  }

  /** A positive score was earned on a usable statement without a low-confidence flag. */
  lemma PositiveScoreMeans(s: Security, pair: StatementPair, scenarios: seq<Scenario>, minAdv: real)
    requires AllValid(scenarios)
    requires LiquidityScore(ValuationOf(s, pair, scenarios), s, minAdv) > 0.0
    ensures CanValue(s, pair) && Tolerable(pair.latest.value.flags, pair.previous.Some?)
    ensures s.adv >= minAdv
  {
    var v := ValuationOf(s, pair, scenarios);
    ScoreExactly(v, s, minAdv);
    if CanValue(s, pair) {
      SufficientExactly(pair.latest.value.flags, pair.previous.Some?);
    }
  }
}
