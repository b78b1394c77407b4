/**
 The deterministic risk gate: one pass adds up the buy orders, a second writes
 a decision for every order intent.
 */
module Gate {
  import opened Wrappers
  import opened Facts
  import opened Allocation

  datatype RiskLimits = RiskLimits(
    cash: real, maxNameWeight: real, maxOrder: real, minAdv: real, maxParticipation: real, minOrder: real,
    reconciled: bool, checkedAt: int, now: int, maxAge: int)

  datatype Reason =
    | ReconciliationStale | SecurityNotFound | NotInvestable | InvalidSide | NotionalTooSmall | NotionalTooLarge
    | WeightTooLarge | Illiquid | TooMuchOfVolume | CashExceeded | Approved

  datatype Decision = Decision(security: nat, side: Side, approved: bool, notional: real, reason: Reason)

  predicate Fresh(l: RiskLimits) {
    l.reconciled && l.now > 0 && l.checkedAt > 0 && l.maxAge > 0 && l.now - l.checkedAt <= l.maxAge
  }

  /** The first listed security with that id. */
  function SecurityById(securities: seq<Security>, id: nat): Option<Security> {
    if securities == [] then None
    else if securities[0].id == id then Some(securities[0])
    else SecurityById(securities[1..], id)
  }

  method FindSecurity(securities: seq<Security>, id: nat) returns (r: Option<Security>)
    ensures r == SecurityById(securities, id)
  {
    for i := 0 to |securities|
      invariant SecurityById(securities, id) == SecurityById(securities[i..], id)
    {
      if securities[i].id == id {
        return Some(securities[i]);
      }
      assert securities[i..][1..] == securities[i + 1..];
    }
    r := None;
  }

  function BuyAmount(i: Intent): real {
    if i.side.Buy? && i.notional > 0.0 then i.notional else 0.0
  }

  /** What all positive buys of the batch add up to, approved or not. */
  function AggregateBuys(intents: seq<Intent>): real {
    if intents == [] then 0.0 else AggregateBuys(intents[..|intents| - 1]) + BuyAmount(intents[|intents| - 1])
  }

  function ReasonFor(i: Intent, securities: seq<Security>, l: RiskLimits, aggregate: real): Reason {
    var s := SecurityById(securities, i.security);
    if !Fresh(l) then ReconciliationStale
    else if s.None? then SecurityNotFound
    else if !s.value.investable then NotInvestable
    else if i.side.NoSide? then InvalidSide
    else if i.notional < l.minOrder then NotionalTooSmall
    else if l.maxOrder > 0.0 && i.notional > l.maxOrder then NotionalTooLarge
    else if Abs(i.target) > l.maxNameWeight then WeightTooLarge
    else if s.value.adv < l.minAdv then Illiquid
    else if l.maxParticipation > 0.0 && i.notional > s.value.adv * l.maxParticipation then TooMuchOfVolume
    else if i.side.Buy? && aggregate > l.cash then CashExceeded
    else Approved
  }

  function DecisionFor(i: Intent, securities: seq<Security>, l: RiskLimits, aggregate: real): Decision {
    var reason := ReasonFor(i, securities, l, aggregate);
    Decision(i.security, i.side, reason.Approved?, i.notional, reason)
  }

  function Decisions(intents: seq<Intent>, securities: seq<Security>, l: RiskLimits): seq<Decision> {
    seq(|intents|, k requires 0 <= k < |intents| => DecisionFor(intents[k], securities, l, AggregateBuys(intents)))
  }

  method SumBuys(intents: seq<Intent>) returns (aggregate: real)
    ensures aggregate == AggregateBuys(intents)
  {
    aggregate := 0.0;
    for i := 0 to |intents|
      invariant aggregate == AggregateBuys(intents[..i])
    {
      assert intents[..i + 1][..i] == intents[..i];
      if intents[i].side.Buy? && intents[i].notional > 0.0 {
        aggregate := aggregate + intents[i].notional;
      }
    }
    assert intents[..|intents|] == intents;
  }

  /** Write one decision in place; every early return leaves it rejected with its reason. */
  method Decide(decisions: array<Decision>, k: nat, intent: Intent, securities: seq<Security>, l: RiskLimits,
                isFresh: bool, aggregate: real)
    requires k < decisions.Length && (isFresh <==> Fresh(l))
    modifies decisions
    ensures decisions[k] == DecisionFor(intent, securities, l, aggregate)
    ensures forall j :: 0 <= j < decisions.Length && j != k ==> decisions[j] == old(decisions[j])
  {
    var rejected := Decision(intent.security, intent.side, false, intent.notional, ReconciliationStale);
    decisions[k] := rejected;
    var security := FindSecurity(securities, intent.security);
    if !isFresh {
      return;
    }
    if security.None? {
      decisions[k] := rejected.(reason := SecurityNotFound);
      return;
    }
    if !security.value.investable {
      decisions[k] := rejected.(reason := NotInvestable);
      return;
    }
    if intent.side.NoSide? {
      decisions[k] := rejected.(reason := InvalidSide);
      return;
    }
    if intent.notional < l.minOrder {
      decisions[k] := rejected.(reason := NotionalTooSmall);
      return;
    }
    if l.maxOrder > 0.0 && intent.notional > l.maxOrder {
      decisions[k] := rejected.(reason := NotionalTooLarge);
      return;
    }
    if Abs(intent.target) > l.maxNameWeight {
      decisions[k] := rejected.(reason := WeightTooLarge);
      return;
    }
    if security.value.adv < l.minAdv {
      decisions[k] := rejected.(reason := Illiquid);
      return;
    }
    if l.maxParticipation > 0.0 && intent.notional > security.value.adv * l.maxParticipation {
      decisions[k] := rejected.(reason := TooMuchOfVolume);
      return;
    }
    if intent.side.Buy? && aggregate > l.cash {
      decisions[k] := rejected.(reason := CashExceeded);
      return;
    }
    decisions[k] := rejected.(approved := true, reason := Approved);
  }

  const MAX_INTENTS: nat := 20000

  /** The gate's resource limits. */
  predicate GateAccepts(intents: seq<Intent>, securities: seq<Security>) {
    |intents| <= MAX_INTENTS && |securities| <= MAX_SECURITIES
  }

  method CheckRiskLimits(intents: seq<Intent>, securities: seq<Security>, l: RiskLimits)
    returns (ok: bool, decisions: array<Decision>)
    ensures ok <==> GateAccepts(intents, securities)
    ensures ok ==> fresh(decisions) && decisions[..] == Decisions(intents, securities, l)
  {
    decisions := new Decision[0];
    if |intents| > MAX_INTENTS || |securities| > MAX_SECURITIES {
      return false, decisions;
    }
    ok := true;
    var aggregate := SumBuys(intents);
    var reconciliationFresh := Fresh(l);
    decisions := new Decision[|intents|];
    ghost var all := Decisions(intents, securities, l);
    for i := 0 to |intents|
      invariant forall k :: 0 <= k < i ==> decisions[k] == all[k]
    {
      Decide(decisions, i, intents[i], securities, l, reconciliationFresh, aggregate);
    }
  }

  // ----- What approval means

  /** Every limit an approved order meets. */
  predicate WithinLimits(i: Intent, s: Security, l: RiskLimits) {
    && s.investable && !i.side.NoSide?
    && l.minOrder <= i.notional && (l.maxOrder > 0.0 ==> i.notional <= l.maxOrder)
    && Abs(i.target) <= l.maxNameWeight
    && l.minAdv <= s.adv && (l.maxParticipation > 0.0 ==> i.notional <= s.adv * l.maxParticipation)
  }

  /** An order is approved exactly when it meets every limit and, if a buy, the whole batch of buys fits the cash. */
  lemma ApprovedExactly(intents: seq<Intent>, securities: seq<Security>, l: RiskLimits, k: nat)
    requires k < |intents|
    ensures var s := SecurityById(securities, intents[k].security);
            Decisions(intents, securities, l)[k].approved <==>
              && Fresh(l) && s.Some? && WithinLimits(intents[k], s.value, l)
              && (intents[k].side.Buy? ==> AggregateBuys(intents) <= l.cash)
  {
  }

  function ApprovedBuys(intents: seq<Intent>, ds: seq<Decision>): real
    requires |intents| == |ds|
  {
    if intents == [] then 0.0
    else
      var n := |intents| - 1;
      ApprovedBuys(intents[..n], ds[..n]) + if ds[n].approved then BuyAmount(intents[n]) else 0.0
  }

  function NonNegative(cash: real): real { if cash > 0.0 then cash else 0.0 }

  lemma {:induction false} ApprovedBelowAggregate(intents: seq<Intent>, ds: seq<Decision>)
    requires |intents| == |ds|
    ensures 0.0 <= ApprovedBuys(intents, ds) <= AggregateBuys(intents)
  {
    if intents != [] {
      var n := |intents| - 1;
      ApprovedBelowAggregate(intents[..n], ds[..n]);
    }
  }

  lemma {:induction false} NoneApproved(intents: seq<Intent>, ds: seq<Decision>)
    requires |intents| == |ds|
    requires forall k :: 0 <= k < |ds| && ds[k].approved ==> !intents[k].side.Buy?
    ensures ApprovedBuys(intents, ds) == 0.0
  {
    if intents != [] {
      var n := |intents| - 1;
      NoneApproved(intents[..n], ds[..n]);
    }
  }

  /** The approved buys of one call never add up to more than its cash, and to nothing when the cash is negative. */
  lemma ApprovedBuysFitCash(intents: seq<Intent>, securities: seq<Security>, l: RiskLimits)
    ensures ApprovedBuys(intents, Decisions(intents, securities, l)) <= NonNegative(l.cash)
  {
    var ds := Decisions(intents, securities, l);
    if AggregateBuys(intents) <= l.cash {
      ApprovedBelowAggregate(intents, ds);
    } else {
      forall k | 0 <= k < |ds| && ds[k].approved ensures !intents[k].side.Buy? {
        ApprovedExactly(intents, securities, l, k);
      }
      NoneApproved(intents, ds);
    }
  }
}
