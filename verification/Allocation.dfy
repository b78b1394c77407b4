/**
 Score-weighted allocation shared by the valuation plan and the growth plan:
 long-only targets under a name cap, and the order intents that reach them.
 */
module Allocation {
  import opened Wrappers
  import opened Facts

  datatype Position = Position(security: nat, weight: real)
  datatype Side = NoSide | Buy | Sell
  datatype Target = Target(security: nat, current: real, target: real, delta: real)
  datatype Intent = Intent(security: nat, side: Side, notional: real, current: real, target: real)

  /** The numbers of one plan the allocation depends on. */
  datatype Budget = Budget(gross: real, cap: real, portfolio: real, minOrder: real)

  /** What input validation guarantees. */
  predicate ValidBudget(b: Budget) {
    0.0 <= b.gross <= 1.0 && 0.0 < b.cap <= 1.0 && b.portfolio > 0.0
  }

  /** The settings of one plan: its budget, clock and model thresholds. */
  datatype Settings = Settings(budget: Budget, clock: Clock, minAdv: real, minReturn: real, maxGrowth: real)

  const MAX_SCENARIOS: nat := 3

  ghost predicate ValidPositions(positions: seq<Position>) {
    |positions| <= MAX_SECURITIES && forall p :: p in positions ==> Abs(p.weight) <= 10.0
  }

  method CheckPositions(positions: seq<Position>) returns (ok: bool)
    ensures ok <==> ValidPositions(positions)
  {
    if |positions| > MAX_SECURITIES {
      return false;
    }
    for i := 0 to |positions|
      invariant forall k :: 0 <= k < i ==> Abs(positions[k].weight) <= 10.0
    {
      if Abs(positions[i].weight) > 10.0 {
        assert positions[i] in positions;
        return false;
      }
    }
    ok := true;
  }

  /** One security: whether the model chose it, and the score it adds to the sum. */
  datatype Candidate = Candidate(security: nat, chosen: bool, score: real)

  function ScoreSum(rows: seq<Candidate>): real {
    if rows == [] then 0.0 else ScoreSum(rows[..|rows| - 1]) + rows[|rows| - 1].score
  }

  function Share(gross: real, score: real, sum: real): real
    requires sum > 0.0
  {
    gross * score / sum
  }

  function Weight(r: Candidate, sum: real, b: Budget): real {
    if r.chosen && sum > TINY then Clamp(Share(b.gross, r.score, sum), 0.0, b.cap) else 0.0
  }

  function TotalWeight(rows: seq<Candidate>, sum: real, b: Budget): real {
    if rows == [] then 0.0 else TotalWeight(rows[..|rows| - 1], sum, b) + Weight(rows[|rows| - 1], sum, b)
  }

  // ----- Positions

  function CurrentWeight(positions: seq<Position>, security: nat): real {
    if positions == [] then 0.0
    else if positions[0].security == security then positions[0].weight
    else CurrentWeight(positions[1..], security)
  }

  method CurrentWeightForSecurity(positions: seq<Position>, security: nat) returns (w: real)
    ensures w == CurrentWeight(positions, security)
  {
    for i := 0 to |positions|
      invariant CurrentWeight(positions, security) == CurrentWeight(positions[i..], security)
    {
      if positions[i].security == security {
        return positions[i].weight;
      }
      assert positions[i..][1..] == positions[i + 1..];
    }
    w := 0.0;
  }

  // ----- Targets and intents

  function TargetOf(r: Candidate, sum: real, b: Budget, positions: seq<Position>): Target {
    var current := CurrentWeight(positions, r.security);
    Target(r.security, current, Weight(r, sum, b), Weight(r, sum, b) - current)
  }

  function Targets(rows: seq<Candidate>, b: Budget, positions: seq<Position>): seq<Target> {
    seq(|rows|, i requires 0 <= i < |rows| => TargetOf(rows[i], ScoreSum(rows), b, positions))
  }

  function Notional(t: Target, b: Budget): real { Abs(t.delta * b.portfolio) }

  function IntentOf(t: Target, b: Budget): Option<Intent> {
    if Notional(t, b) >= b.minOrder then
      Some(Intent(t.security, if t.delta > 0.0 then Buy else Sell, Notional(t, b), t.current, t.target))
    else None
  }

  /** The intents of the targets that are worth an order, in order. */
  function Intents(ts: seq<Target>, b: Budget): seq<Intent> {
    if ts == [] then []
    else
      var r := IntentOf(ts[|ts| - 1], b);
      Intents(ts[..|ts| - 1], b) + if r.Some? then [r.value] else []
  }

  method AllocateOne(r: Candidate, sum: real, b: Budget, positions: seq<Position>) returns (t: Target)
    ensures t == TargetOf(r, sum, b, positions)
  {
    var current := CurrentWeightForSecurity(positions, r.security);
    t := Target(r.security, current, 0.0, -current);
    if r.chosen && sum > TINY {
      var raw := Share(b.gross, r.score, sum);
      var weight := Clamp(raw, 0.0, b.cap);
      t := t.(target := weight, delta := weight - current);
    }
  }

  lemma IntentsStep(ts: seq<Target>, i: nat, b: Budget)
    requires i < |ts|
    ensures var r := IntentOf(ts[i], b);
            Intents(ts[..i + 1], b) == if r.Some? then Intents(ts[..i], b) + [r.value] else Intents(ts[..i], b)
  {
    assert ts[..i + 1][..i] == ts[..i];
  }

  /** Append the target's order to the intents when it is worth one. */
  method EmitIntent(t: Target, b: Budget, intents: array<Intent>, count: nat) returns (n: nat)
    requires count < intents.Length
    modifies intents
    ensures n <= count + 1
    ensures intents[..n] == if IntentOf(t, b).Some? then old(intents[..count]) + [IntentOf(t, b).value]
                            else old(intents[..count])
  {
    n := count;
    var notional := Abs(t.delta * b.portfolio);
    if notional >= b.minOrder {
      var side := if t.delta > 0.0 then Buy else Sell;
      intents[count] := Intent(t.security, side, notional, t.current, t.target);
      n := count + 1;
    }
  }

  method PlaceOne(rows: seq<Candidate>, i: nat, sum: real, b: Budget, positions: seq<Position>,
                  targets: array<Target>, intents: array<Intent>, count: nat) returns (n: nat)
    requires i < |rows| && sum == ScoreSum(rows)
    requires targets.Length == intents.Length == |rows| && count <= i
    requires intents[..count] == Intents(Targets(rows, b, positions)[..i], b)
    modifies targets, intents
    ensures n <= i + 1
    ensures targets[..i] == old(targets[..i]) && targets[i] == Targets(rows, b, positions)[i]
    ensures intents[..n] == Intents(Targets(rows, b, positions)[..i + 1], b)
  {
    ghost var ts := Targets(rows, b, positions);
    IntentsStep(ts, i, b);
    var target := AllocateOne(rows[i], sum, b, positions);
    targets[i] := target;
    n := EmitIntent(target, b, intents, count);
  }

  /** Fill the target array and the intents worth an order, in place. */
  method Allocate(rows: seq<Candidate>, sum: real, b: Budget, positions: seq<Position>)
    returns (targets: array<Target>, intents: array<Intent>, count: nat)
    requires sum == ScoreSum(rows)
    ensures fresh(targets) && fresh(intents) && count <= intents.Length
    ensures targets[..] == Targets(rows, b, positions)
    ensures intents[..count] == Intents(Targets(rows, b, positions), b)
  {
    ghost var ts := Targets(rows, b, positions);
    targets, intents, count := new Target[|rows|], new Intent[|rows|], 0;
    for i := 0 to |rows|
      invariant count <= i
      invariant targets[..i] == ts[..i]
      invariant intents[..count] == Intents(ts[..i], b)
    {
      count := PlaceOne(rows, i, sum, b, positions, targets, intents, count);
      assert targets[..i + 1] == targets[..i] + [targets[i]];
      assert ts[..i + 1] == ts[..i] + [ts[i]];
    }
    assert ts[..|rows|] == ts && targets[..] == targets[..|rows|];
  }

  // ----- Exposure

  lemma ShareAdds(gross: real, x: real, y: real, sum: real)
    requires sum > 0.0
    ensures Share(gross, x + y, sum) == Share(gross, x, sum) + Share(gross, y, sum)
  {
    assert gross * (x + y) == gross * x + gross * y;
  }

  lemma ShareNonNegative(gross: real, x: real, sum: real)
    requires sum > 0.0 && gross >= 0.0 && x >= 0.0
    ensures Share(gross, x, sum) >= 0.0
  {
    assert gross * x >= 0.0;
  }

  lemma WholeShare(gross: real, sum: real)
    requires sum > 0.0
    ensures Share(gross, sum, sum) == gross && Share(gross, 0.0, sum) == 0.0
  {
    assert gross * sum / sum == gross;
  }

  /** Every target is between zero and the name cap. */
  lemma WeightInRange(r: Candidate, sum: real, b: Budget)
    requires ValidBudget(b)
    ensures 0.0 <= Weight(r, sum, b) <= b.cap
  {
  }

  ghost predicate ScoresNonNegative(rows: seq<Candidate>) {
    forall r :: r in rows ==> r.score >= 0.0 && (!r.chosen ==> r.score == 0.0)
  }

  predicate Binds(r: Candidate, sum: real, b: Budget)
    requires sum > 0.0
  {
    r.chosen && Share(b.gross, r.score, sum) > b.cap
  }

  ghost predicate NoCapBinds(rows: seq<Candidate>, sum: real, b: Budget)
    requires sum > 0.0
  {
    forall r :: r in rows ==> !Binds(r, sum, b)
  }

  lemma WeightBelowShare(r: Candidate, sum: real, b: Budget)
    requires ValidBudget(b) && sum > TINY && r.score >= 0.0 && (!r.chosen ==> r.score == 0.0)
    ensures Weight(r, sum, b) <= Share(b.gross, r.score, sum)
    ensures Weight(r, sum, b) == Share(b.gross, r.score, sum) <==> !Binds(r, sum, b)
  {
    ShareNonNegative(b.gross, r.score, sum);
    WholeShare(b.gross, sum);
  }

  lemma {:induction false} TotalBelowShare(rows: seq<Candidate>, sum: real, b: Budget)
    requires ValidBudget(b) && sum > TINY && ScoresNonNegative(rows)
    ensures TotalWeight(rows, sum, b) <= Share(b.gross, ScoreSum(rows), sum)
    ensures TotalWeight(rows, sum, b) == Share(b.gross, ScoreSum(rows), sum) <==> NoCapBinds(rows, sum, b)
  {
    if rows == [] {
      WholeShare(b.gross, sum);
    } else {
      var n := |rows| - 1;
      assert rows == rows[..n] + [rows[n]];
      assert rows[n] in rows && forall r :: r in rows[..n] ==> r in rows;
      TotalBelowShare(rows[..n], sum, b);
      WeightBelowShare(rows[n], sum, b);
      ShareAdds(b.gross, ScoreSum(rows[..n]), rows[n].score, sum);
      assert NoCapBinds(rows, sum, b) <==> NoCapBinds(rows[..n], sum, b) && !Binds(rows[n], sum, b);
    }
  }

  lemma {:induction false} TotalZero(rows: seq<Candidate>, sum: real, b: Budget)
    requires sum <= TINY
    ensures TotalWeight(rows, sum, b) == 0.0
  {
    if rows != [] {
      TotalZero(rows[..|rows| - 1], sum, b);
    }
  }

  /** The targets never add up to more than the gross exposure, and to exactly it when no cap binds. */
  lemma GrossBound(rows: seq<Candidate>, b: Budget)
    requires ValidBudget(b) && ScoresNonNegative(rows)
    ensures TotalWeight(rows, ScoreSum(rows), b) <= b.gross
    ensures ScoreSum(rows) > TINY ==>
              (TotalWeight(rows, ScoreSum(rows), b) == b.gross <==> NoCapBinds(rows, ScoreSum(rows), b))
  {
    var sum := ScoreSum(rows);
    if sum > TINY {
      TotalBelowShare(rows, sum, b);
      WholeShare(b.gross, sum);
    } else {
      TotalZero(rows, sum, b);
    }
  }

  function TargetTotal(ts: seq<Target>): real {
    if ts == [] then 0.0 else TargetTotal(ts[..|ts| - 1]) + ts[|ts| - 1].target
  }

  lemma {:induction false} TargetTotalUpTo(rows: seq<Candidate>, b: Budget, positions: seq<Position>, k: nat)
    requires k <= |rows|
    ensures TargetTotal(Targets(rows, b, positions)[..k]) == TotalWeight(rows[..k], ScoreSum(rows), b)
  {
    if k > 0 {
      TargetTotalUpTo(rows, b, positions, k - 1);
      assert Targets(rows, b, positions)[..k][..k - 1] == Targets(rows, b, positions)[..k - 1];
      assert rows[..k][..k - 1] == rows[..k - 1];
    }
  }

  /** The plan's targets respect the name cap and the gross exposure. */
  lemma TargetsWithinExposure(rows: seq<Candidate>, b: Budget, positions: seq<Position>)
    requires ValidBudget(b) && ScoresNonNegative(rows)
    ensures var ts := Targets(rows, b, positions);
            && (forall t :: t in ts ==> 0.0 <= t.target <= b.cap)
            && TargetTotal(ts) <= b.gross
            && (ScoreSum(rows) > TINY ==> (TargetTotal(ts) == b.gross <==> NoCapBinds(rows, ScoreSum(rows), b)))
  {
    var ts := Targets(rows, b, positions);
    GrossBound(rows, b);
    TargetTotalUpTo(rows, b, positions, |rows|);
    assert ts[..|rows|] == ts && rows[..|rows|] == rows;
    forall t | t in ts ensures 0.0 <= t.target <= b.cap {
      var i :| 0 <= i < |ts| && ts[i] == t;
      WeightInRange(rows[i], ScoreSum(rows), b);
    }
  }

  // ----- Executing the intents

  /** The weight after an order of that side and notional fills. */
  function Filled(weight: real, i: Intent, portfolio: real): real
    requires portfolio > 0.0
  {
    if i.side.Buy? then weight + i.notional / portfolio else weight - i.notional / portfolio
  }

  lemma NotionalQuotient(delta: real, portfolio: real)
    requires portfolio > 0.0
    ensures Abs(delta * portfolio) / portfolio == Abs(delta)
  {
    assert delta * portfolio / portfolio == delta;
    if delta >= 0.0 {
      assert delta * portfolio >= 0.0;
    } else {
      assert delta * portfolio <= 0.0;
      assert (-(delta * portfolio)) / portfolio == -delta;
    }
  }

  /** A filled intent lands exactly on the target; a target without one is off by less than the minimum order. */
  lemma IntentLands(r: Candidate, sum: real, b: Budget, positions: seq<Position>)
    requires ValidBudget(b)
    ensures var t := TargetOf(r, sum, b, positions);
            match IntentOf(t, b)
            case Some(i) => i.security == t.security && Filled(t.current, i, b.portfolio) == t.target && i.notional >= b.minOrder
            case None => Abs((t.target - t.current) * b.portfolio) < b.minOrder
  {
    var t := TargetOf(r, sum, b, positions);
    NotionalQuotient(t.delta, b.portfolio);
  }

  /** Every intent belongs to a target worth an order, and every such target has one. */
  lemma {:induction false} IntentsExactly(ts: seq<Target>, b: Budget)
    ensures forall i :: i in Intents(ts, b) <==> exists t :: t in ts && IntentOf(t, b) == Some(i)
  {
    if ts != [] {
      var n := |ts| - 1;
      assert ts == ts[..n] + [ts[n]];
      IntentsExactly(ts[..n], b);
      assert ts[n] in ts;
    }
  }
}
