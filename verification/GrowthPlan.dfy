/**
 The growth plan: forecast each security from its revenue and earnings pairs,
 then allocate by expected return times confidence.
 */
module GrowthPlan {
  import opened Wrappers
  import opened Facts
  import opened Growth
  import opened Allocation

  datatype Forecast = Forecast(
    security: nat, revenueGrowth: real, earningsGrowth: real, expected: real, confidence: real, flags: set<Quality>)

  /** The clamped relative change, when both values exist and the base is not tiny. */
  function GrowthRate(p: Pair, maxAbs: real): Option<real> {
    if p.latest.None? || p.previous.None? || Abs(p.previous.value.value) <= TINY then None
    else
      var before, after := p.previous.value.value, p.latest.value.value;
      Some(Clamp((after - before) / Abs(before), -maxAbs, maxAbs))
  }

  function RateOrZero(r: Option<real>): real { if r.Some? then r.value else 0.0 }

  /** The blended rate and the confidence in it. */
  function Blend(revenue: Option<real>, earnings: Option<real>): (real, real) {
    if revenue.Some? && earnings.Some? then (0.7 * revenue.value + 0.3 * earnings.value, 0.8)
    else if revenue.Some? then (0.5 * revenue.value, 0.45)
    else (0.25 * RateOrZero(earnings), 0.3)
  }

  function ForecastFrom(s: Security, revenue: Pair, earnings: Pair, maxAbs: real): Forecast {
    var rg, eg := GrowthRate(revenue, maxAbs), GrowthRate(earnings, maxAbs);
    var seen := revenue.flags + earnings.flags;
    if rg.None? && eg.None? then
      Forecast(s.id, 0.0, 0.0, 0.0, 0.0, seen + {MissingComparable, LowConfidence})
    else
      var (expected, confidence) := Blend(rg, eg);
      var flags := if rg.Some? && eg.Some? then seen else seen + {MissingComparable};
      Forecast(s.id, RateOrZero(rg), RateOrZero(eg), Clamp(expected, -maxAbs, maxAbs),
               Clamp(if flags != {} then confidence * 0.7 else confidence, 0.0, 1.0), flags)
  }

  function ForecastOf(facts: seq<Fact>, s: Security, st: Settings): Forecast {
    if !s.investable then Forecast(s.id, 0.0, 0.0, 0.0, 0.0, {})
    else ForecastFrom(s, Scan(facts, Subject(s.id, REVENUE, st.clock)),
                      Scan(facts, Subject(s.id, NET_INCOME, st.clock)), st.maxGrowth)
  }

  predicate Chosen(f: Forecast, s: Security, st: Settings) {
    s.investable && f.expected > st.minReturn && f.confidence >= 0.2
  }

  function ForecastRow(f: Forecast, s: Security, st: Settings): Candidate {
    Candidate(s.id, Chosen(f, s, st), if Chosen(f, s, st) then f.expected * f.confidence else 0.0)
  }

  function Forecasts(facts: seq<Fact>, securities: seq<Security>, st: Settings): seq<Forecast> {
    seq(|securities|, i requires 0 <= i < |securities| => ForecastOf(facts, securities[i], st))
  }

  function ForecastRows(facts: seq<Fact>, securities: seq<Security>, st: Settings): seq<Candidate> {
    seq(|securities|, i requires 0 <= i < |securities| =>
        ForecastRow(ForecastOf(facts, securities[i], st), securities[i], st))
  }

  datatype GrowthResult = GrowthResult(forecasts: seq<Forecast>, targets: seq<Target>, intents: seq<Intent>)

  function GrowthPlanOf(facts: seq<Fact>, securities: seq<Security>, positions: seq<Position>, st: Settings)
    : GrowthResult
  {
    var ts := Targets(ForecastRows(facts, securities, st), st.budget, positions);
    GrowthResult(Forecasts(facts, securities, st), ts, Intents(ts, st.budget))
  }

  ghost predicate ValidInputs(facts: seq<Fact>, securities: seq<Security>, positions: seq<Position>, st: Settings) {
    && |facts| <= MAX_FACTS && ValidBudget(st.budget) && 0.0 < st.maxGrowth <= 10.0
    && ValidSecurities(securities) && ValidPositions(positions)
  }

  method ForecastSecurity(facts: seq<Fact>, s: Security, st: Settings) returns (f: Forecast)
    ensures f == ForecastOf(facts, s, st)
  {
    if !s.investable {
      return Forecast(s.id, 0.0, 0.0, 0.0, 0.0, {});
    }
    var revenue := new MetricPair();
    var earnings := new MetricPair();
    revenue.ChooseLatestTwo(facts, Subject(s.id, REVENUE, st.clock));
    earnings.ChooseLatestTwo(facts, Subject(s.id, NET_INCOME, st.clock));
    f := ForecastFrom(s, revenue.Value(), earnings.Value(), st.maxGrowth);
  }

  method BuildPortfolioPlan(facts: seq<Fact>, securities: seq<Security>, positions: seq<Position>, st: Settings)
    returns (r: Option<GrowthResult>)
    ensures r.Some? <==> ValidInputs(facts, securities, positions, st)
    ensures r.Some? ==> r.value == GrowthPlanOf(facts, securities, positions, st)
  {
    if |facts| > MAX_FACTS || !ValidBudget(st.budget) || st.maxGrowth <= 0.0 || st.maxGrowth > 10.0 {
      return None;
    }
    var ok := CheckSecurities(securities);
    if !ok {
      return None;
    }
    ok := CheckPositions(positions);
    if !ok {
      return None;
    }
    var forecasts, rows, sum := ScoreForecasts(facts, securities, st);
    var targets, intents, count := Allocate(rows, sum, st.budget, positions);
    r := Some(GrowthResult(forecasts, targets[..], intents[..count]));
  }

  method ScoreForecasts(facts: seq<Fact>, securities: seq<Security>, st: Settings)
    returns (forecasts: seq<Forecast>, rows: seq<Candidate>, sum: real)
    ensures forecasts == Forecasts(facts, securities, st)
    ensures rows == ForecastRows(facts, securities, st) && sum == ScoreSum(rows)
  {
    forecasts, rows, sum := [], [], 0.0;
    for i := 0 to |securities|
      invariant forecasts == Forecasts(facts, securities, st)[..i]
      invariant rows == ForecastRows(facts, securities, st)[..i] && sum == ScoreSum(rows)
    {
      var f := ForecastSecurity(facts, securities[i], st);
      var row := ForecastRow(f, securities[i], st);
      assert (rows + [row])[..i] == rows;
      forecasts, rows := forecasts + [f], rows + [row];
      sum := sum + row.score;
    }
  }

  // ----- Forecasts

  /** A forecast stays within the growth limit, with a confidence of at most 0.8. */
  lemma ForecastBounded(facts: seq<Fact>, s: Security, st: Settings)
    requires st.maxGrowth > 0.0
    ensures var f := ForecastOf(facts, s, st);
            -st.maxGrowth <= f.expected <= st.maxGrowth && 0.0 <= f.confidence <= 0.8
  {
  }

  /** The selector found two periods of this metric, and they compare. */
  ghost predicate HasTwoPeriods(facts: seq<Fact>, u: Subject) {
    var p := Scan(facts, u);
    p.latest.Some? && p.previous.Some? && p.previous.value.end < p.latest.value.end
    && PeriodsComparable(p.latest.value, p.previous.value)
  }

  lemma RateNeedsPeriods(facts: seq<Fact>, u: Subject, maxAbs: real)
    requires DayDeterminesShape(facts, u) && GrowthRate(Scan(facts, u), maxAbs).Some?
    ensures HasTwoPeriods(facts, u)
  {
    PairComparable(facts, u);
    PreviousIsEarlier(facts, u);
  }

  /** Only a security with two comparable periods of revenue or of earnings is chosen, when the facts of a day share
      their shape. */
  lemma ForecastSound(facts: seq<Fact>, s: Security, st: Settings)
    requires DayDeterminesShape(facts, Subject(s.id, REVENUE, st.clock))
    requires DayDeterminesShape(facts, Subject(s.id, NET_INCOME, st.clock))
    requires Chosen(ForecastOf(facts, s, st), s, st)
    ensures HasTwoPeriods(facts, Subject(s.id, REVENUE, st.clock))
            || HasTwoPeriods(facts, Subject(s.id, NET_INCOME, st.clock))
  {
    var u, v := Subject(s.id, REVENUE, st.clock), Subject(s.id, NET_INCOME, st.clock);
    if GrowthRate(Scan(facts, u), st.maxGrowth).Some? {
      RateNeedsPeriods(facts, u, st.maxGrowth);
    }
    if GrowthRate(Scan(facts, v), st.maxGrowth).Some? {
      RateNeedsPeriods(facts, v, st.maxGrowth);
    }
  }

  // ----- Exposure

  lemma RowSound(facts: seq<Fact>, s: Security, st: Settings)
    requires st.minReturn >= 0.0
    ensures var r := ForecastRow(ForecastOf(facts, s, st), s, st);
            r.score >= 0.0 && (!r.chosen ==> r.score == 0.0)
  {
    var f := ForecastOf(facts, s, st);
    if Chosen(f, s, st) {
      assert f.expected * f.confidence >= 0.0;
    }
  }

  /** With a nonnegative return threshold the targets respect the name cap and the gross exposure. */
  lemma GrowthExposure(facts: seq<Fact>, securities: seq<Security>, positions: seq<Position>, st: Settings)
    requires ValidInputs(facts, securities, positions, st) && st.minReturn >= 0.0
    ensures var p := GrowthPlanOf(facts, securities, positions, st);
            var rows := ForecastRows(facts, securities, st);
            && (forall t :: t in p.targets ==> 0.0 <= t.target <= st.budget.cap)
            && TargetTotal(p.targets) <= st.budget.gross
            && (ScoreSum(rows) > TINY ==>
                  (TargetTotal(p.targets) == st.budget.gross <==> NoCapBinds(rows, ScoreSum(rows), st.budget)))
  {
    var rows := ForecastRows(facts, securities, st);
    forall r | r in rows ensures r.score >= 0.0 && (!r.chosen ==> r.score == 0.0) {
      var i :| 0 <= i < |rows| && rows[i] == r;
      RowSound(facts, securities[i], st);
    }
    TargetsWithinExposure(rows, st.budget, positions);
  }

  // ----- Without that threshold the bound fails

  function RevenueOf(security: nat, start: int, value: real): Fact {
    Fact(security, REVENUE, value, start, start + 89, 1000, {}, Flow, FiscalQuarter, 104, Selected, 90, 0)
  }

  /** Two quarters of each of two securities: revenue doubles for the first and shrinks by `d` for the second. */
  function TwoSecurities(d: real): seq<Fact> {
    [RevenueOf(1, 1, 1.0), RevenueOf(1, 91, 2.0), RevenueOf(2, 1, 1.0), RevenueOf(2, 91, 1.0 - d)]
  }

  lemma ScanStep(facts: seq<Fact>, i: nat, s: Subject)
    requires i < |facts|
    ensures Scan(facts[..i + 1], s) == if Eligible(facts[i], s) then Seen(Scan(facts[..i], s), facts[i]) else Scan(facts[..i], s)
  {
    assert facts[..i + 1][..i] == facts[..i];
  }

  lemma ScanFour(facts: seq<Fact>, s: Subject)
    requires |facts| == 4
    ensures var p1 := if Eligible(facts[0], s) then Seen(Pair(None, None, {}), facts[0]) else Pair(None, None, {});
            var p2 := if Eligible(facts[1], s) then Seen(p1, facts[1]) else p1;
            var p3 := if Eligible(facts[2], s) then Seen(p2, facts[2]) else p2;
            Scan(facts, s) == if Eligible(facts[3], s) then Seen(p3, facts[3]) else p3
  {
    assert facts[..0] == [] && facts[..4] == facts;
    ScanStep(facts, 0, s);
    ScanStep(facts, 1, s);
    ScanStep(facts, 2, s);
    ScanStep(facts, 3, s);
  }

  lemma TwoSecuritiesPairs(d: real, clock: Clock)
    requires clock.maxAge == 0
    ensures var fs := TwoSecurities(d);
            && Scan(fs, Subject(1, REVENUE, clock)) == Pair(Some(fs[1]), Some(fs[0]), {})
            && Scan(fs, Subject(2, REVENUE, clock)) == Pair(Some(fs[3]), Some(fs[2]), {})
            && Scan(fs, Subject(1, NET_INCOME, clock)) == Pair(None, None, {})
            && Scan(fs, Subject(2, NET_INCOME, clock)) == Pair(None, None, {})
  {
    var fs := TwoSecurities(d);
    ScanFour(fs, Subject(1, REVENUE, clock));
    ScanFour(fs, Subject(2, REVENUE, clock));
    ScanFour(fs, Subject(1, NET_INCOME, clock));
    ScanFour(fs, Subject(2, NET_INCOME, clock));
  }

  function OpenSettings(minReturn: real): Settings {
    Settings(Budget(0.5, 1.0, 1.0, 1.0), Clock(0, 0), 0.0, minReturn, 1.0)
  }

  function Listed(id: nat): Security { Security(id, true, 1.0, 1.0) }

  lemma TwoRows(d: real, minReturn: real)
    requires 0.0 < d <= 0.5 && d / 2.0 < -minReturn
    ensures ForecastRows(TwoSecurities(d), [Listed(1), Listed(2)], OpenSettings(minReturn))
            == [Candidate(1, true, 0.1575), Candidate(2, true, -(d / 2.0) * 0.315)]
  {
    var fs, st := TwoSecurities(d), OpenSettings(minReturn);
    TwoSecuritiesPairs(d, st.clock);
    ForecastPair(Listed(1), Scan(fs, Subject(1, REVENUE, st.clock)), Pair(None, None, {}), 1.0);
    ForecastPair(Listed(2), Scan(fs, Subject(2, REVENUE, st.clock)), Pair(None, None, {}), -d);
  }

  lemma ForecastPair(s: Security, revenue: Pair, earnings: Pair, rate: real)
    requires earnings == Pair(None, None, {}) && revenue.flags == {} && -1.0 <= rate <= 1.0
    requires revenue.latest.Some? && revenue.previous.Some?
    requires revenue.previous.value.value == 1.0 && revenue.latest.value.value == 1.0 + rate
    ensures var f := ForecastFrom(s, revenue, earnings, 1.0);
            f.expected == 0.5 * rate && f.confidence == 0.315
  {
  }

  lemma OfTwo(a: Candidate, b: Candidate, sum: real, budget: Budget)
    ensures ScoreSum([a, b]) == a.score + b.score
    ensures TotalWeight([a, b], sum, budget) == Weight(a, sum, budget) + Weight(b, sum, budget)
  {
    var rows := [a, b];
    assert rows[..1] == [a] && [a][..0] == [];
    assert ScoreSum([]) == 0.0 && TotalWeight([], sum, budget) == 0.0;
    assert ScoreSum([a]) == a.score && TotalWeight([a], sum, budget) == Weight(a, sum, budget);
  }

  lemma ShareExceeds(x: real, sum: real)
    requires 0.0 < sum < x
    ensures Share(0.5, x, sum) > 0.5
  {
    assert x / sum > 1.0;
    assert 0.5 * x / sum == 0.5 * (x / sum);
  }

  lemma ShareNegative(gross: real, x: real, sum: real)
    requires sum > 0.0 && gross >= 0.0 && x <= 0.0
    ensures Share(gross, x, sum) <= 0.0
  {
    assert gross * x <= 0.0;
  }

  lemma OverCommitted(a: Candidate, b: Candidate)
    requires a.chosen && b.chosen && b.score < 0.0 && a.score + b.score > TINY
    ensures TotalWeight([a, b], ScoreSum([a, b]), Budget(0.5, 1.0, 1.0, 1.0)) > 0.5
  {
    var sum, budget := a.score + b.score, Budget(0.5, 1.0, 1.0, 1.0);
    OfTwo(a, b, sum, budget);
    ShareExceeds(a.score, sum);
    ShareNegative(0.5, b.score, sum);
  }

  ghost predicate Respected(facts: seq<Fact>, securities: seq<Security>, positions: seq<Position>, st: Settings) {
    ValidInputs(facts, securities, positions, st) ==>
      TargetTotal(GrowthPlanOf(facts, securities, positions, st).targets) <= st.budget.gross
  }

  /** The gross bound holds for all inputs exactly when the return threshold is not negative. */
  lemma GrossBoundExactly(minReturn: real)
    ensures (forall facts, securities, positions, st: Settings ::
               st.minReturn == minReturn ==> Respected(facts, securities, positions, st))
            <==> minReturn >= 0.0
  {
    if minReturn >= 0.0 {
      forall facts, securities, positions, st: Settings | st.minReturn == minReturn
        ensures Respected(facts, securities, positions, st)
      {
        if ValidInputs(facts, securities, positions, st) {
          GrowthExposure(facts, securities, positions, st);
        }
      }
    } else {
      NegativeThreshold(minReturn);
    }
  }

  lemma NegativeThreshold(minReturn: real)
    requires minReturn < 0.0
    ensures exists facts, securities, st: Settings ::
              st.minReturn == minReturn && !Respected(facts, securities, [], st)
  {
    var d := if -minReturn < 0.5 then -minReturn else 0.5;
    var facts, securities, st := TwoSecurities(d), [Listed(1), Listed(2)], OpenSettings(minReturn);
    var a, b := Candidate(1, true, 0.1575), Candidate(2, true, -(d / 2.0) * 0.315);
    TwoRows(d, minReturn);
    OverCommitted(a, b);
    TargetTotalUpTo([a, b], st.budget, [], 2);
    assert Targets([a, b], st.budget, [])[..2] == Targets([a, b], st.budget, []) && [a, b][..2] == [a, b];
    assert ValidInputs(facts, securities, [], st);
    assert !Respected(facts, securities, [], st);
  }
}
