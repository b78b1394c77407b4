/** Tables of rows under a primary key, and the queries and transactions over them. */
module Tables {
  import opened Wrappers
  import opened Ordering

  datatype Row<T> = Row(id: string, at: int, data: T)

  ghost predicate UniqueIds<T>(t: seq<Row<T>>) {
    forall i, j :: 0 <= i < j < |t| ==> t[i].id != t[j].id
  }

  predicate HasId<T>(t: seq<Row<T>>, id: string) {
    exists i :: 0 <= i < |t| && t[i].id == id
  }

  /** The rows that satisfy `p`, in table order. */
  function Where<T>(t: seq<Row<T>>, p: Row<T> -> bool): seq<Row<T>> {
    if t == [] then []
    else Where(t[..|t| - 1], p) + if p(t[|t| - 1]) then [t[|t| - 1]] else []
  }

  function ByTime<T(!new)>(): (Row<T>, Row<T>) -> bool { (a: Row<T>, b: Row<T>) => a.at <= b.at }

  /** SQL's LIMIT: a negative limit is none. */
  function Limited<T>(xs: seq<T>, limit: int): seq<T> {
    if limit < 0 || limit >= |xs| then xs else xs[..limit]
  }

  /** SELECT ... WHERE p ORDER BY at LIMIT limit. */
  function Select<T(!new)>(t: seq<Row<T>>, p: Row<T> -> bool, limit: int): seq<Row<T>> {
    Limited(Sort(Where(t, p), ByTime()), limit)
  }

  method RunSelect<T(==, !new)>(t: seq<Row<T>>, p: Row<T> -> bool, limit: int) returns (r: seq<Row<T>>)
    ensures r == Select(t, p, limit)
  {
    var hits: seq<Row<T>> := [];
    for i := 0 to |t|
      invariant hits == Where(t[..i], p)
    {
      assert t[..i + 1][..i] == t[..i];
      if p(t[i]) {
        hits := hits + [t[i]];
      }
    }
    assert t[..|t|] == t;
    var sorted := Sort(hits, ByTime());
    r := Limited(sorted, limit);
  }

  /** Insert the rows one by one; a key that is taken fails the whole transaction. */
  method InsertAll<T(==, !new)>(t: seq<Row<T>>, rows: seq<Row<T>>) returns (r: Option<seq<Row<T>>>)
    requires UniqueIds(t)
    ensures r.Some? <==> UniqueIds(t + rows)
    ensures r.Some? ==> r.value == t + rows
  {
    var out := t;
    for i := 0 to |rows|
      invariant out == t + rows[..i] && UniqueIds(out)
    {
      assert t + rows[..i + 1] == out + [rows[i]];
      assert t + rows == out + [rows[i]] + rows[i + 1..];
      if HasId(out, rows[i].id) {
        Taken(out, rows[i], rows[i + 1..]);
        return None;
      }
      FreshKey(out, rows[i]);
      out := out + [rows[i]];
    }
    assert rows[..|rows|] == rows;
    r := Some(out);
  }

  lemma Taken<T(!new)>(t: seq<Row<T>>, row: Row<T>, rest: seq<Row<T>>)
    requires HasId(t, row.id)
    ensures !UniqueIds(t + [row] + rest)
  {
    var i :| 0 <= i < |t| && t[i].id == row.id;
    var all := t + [row] + rest;
    assert all[i].id == all[|t|].id;
  }

  lemma FreshKey<T(!new)>(t: seq<Row<T>>, row: Row<T>)
    requires UniqueIds(t) && !HasId(t, row.id)
    ensures UniqueIds(t + [row])
  {
    assert forall i :: 0 <= i < |t| ==> t[i] in t;
  }

  // ----- What a query returns

  lemma {:induction false} WhereMembers<T(!new)>(t: seq<Row<T>>, p: Row<T> -> bool)
    ensures forall r :: r in Where(t, p) <==> r in t && p(r)
  {
    if t != [] {
      var n := |t| - 1;
      assert t == t[..n] + [t[n]];
      WhereMembers(t[..n], p);
    }
  }

  lemma UniqueFront<T(!new)>(t: seq<Row<T>>)
    requires t != [] && UniqueIds(t)
    ensures UniqueIds(t[..|t| - 1]) && forall r :: r in t[..|t| - 1] ==> r.id != t[|t| - 1].id
  {
  }

  lemma {:induction false} WhereUnique<T(!new)>(t: seq<Row<T>>, p: Row<T> -> bool)
    requires UniqueIds(t)
    ensures UniqueIds(Where(t, p))
  {
    if t != [] {
      var n := |t| - 1;
      UniqueFront(t);
      WhereUnique(t[..n], p);
      WhereMembers(t[..n], p);
      var front := Where(t[..n], p);
      forall i | 0 <= i < |front| ensures front[i].id != t[n].id {
        var x := front[i];
        assert x in Where(t[..n], p);
        assert x in t[..|t| - 1];
      }
    }
  }

  lemma {:induction false} InInsert<T(!new)>(x: Row<T>, xs: seq<Row<T>>, y: Row<T>)
    requires y in Insert(x, xs, ByTime())
    ensures y == x || y in xs
  {
    assert y in multiset(Insert(x, xs, ByTime()));
  }

  lemma UniqueCons<T(!new)>(x: Row<T>, xs: seq<Row<T>>)
    ensures UniqueIds([x] + xs) <==> UniqueIds(xs) && forall r :: r in xs ==> r.id != x.id
  {
    var all := [x] + xs;
    assert forall k :: 0 <= k < |xs| ==> all[k + 1] == xs[k] && xs[k] in xs;
    if UniqueIds(all) {
      forall i, j | 0 <= i < j < |xs| ensures xs[i].id != xs[j].id {
        assert all[i + 1].id != all[j + 1].id;
      }
      forall r | r in xs ensures r.id != x.id {
        var k :| 0 <= k < |xs| && xs[k] == r;
        assert all[0].id != all[k + 1].id;
      }
    }
  }

  lemma {:induction false} InsertUnique<T(!new)>(x: Row<T>, xs: seq<Row<T>>)
    requires UniqueIds([x] + xs)
    ensures UniqueIds(Insert(x, xs, ByTime()))
  {
    if xs != [] && !(x.at <= xs[0].at) {
      var rest := Insert(x, xs[1..], ByTime());
      UniqueCons(x, xs);
      assert xs == [xs[0]] + xs[1..];
      UniqueCons(xs[0], xs[1..]);
      UniqueCons(x, xs[1..]);
      InsertUnique(x, xs[1..]);
      forall r | r in rest ensures r.id != xs[0].id {
        InInsert(x, xs[1..], r);
      }
      UniqueCons(xs[0], rest);
    }
  }

  /** Sorting keeps keys unique. */
  lemma {:induction false} SortedUniqueIds<T(!new)>(xs: seq<Row<T>>)
    requires UniqueIds(xs)
    ensures UniqueIds(Sort(xs, ByTime()))
  {
    if xs != [] {
      assert xs == [xs[0]] + xs[1..];
      UniqueCons(xs[0], xs[1..]);
      var rest := Sort(xs[1..], ByTime());
      SortedUniqueIds(xs[1..]);
      forall r | r in rest ensures r.id != xs[0].id {
        InSorted(xs[1..], r);
      }
      UniqueCons(xs[0], rest);
      InsertUnique(xs[0], rest);
    }
  }

  lemma SortedMembers<T(!new)>(t: seq<Row<T>>, p: Row<T> -> bool)
    ensures forall x :: x in Sort(Where(t, p), ByTime()) <==> x in t && p(x)
  {
    WhereMembers(t, p);
    forall x ensures x in Sort(Where(t, p), ByTime()) <==> x in Where(t, p) {
      InSorted(Where(t, p), x);
    }
  }

  lemma InSorted<T(!new)>(xs: seq<Row<T>>, x: Row<T>)
    ensures x in Sort(xs, ByTime()) <==> x in xs
  {
    assert x in xs <==> x in multiset(xs);
    assert x in Sort(xs, ByTime()) <==> x in multiset(Sort(xs, ByTime()));
  }

  lemma LimitedSound<T(!new)>(all: seq<Row<T>>, limit: int)
    requires UniqueIds(all) && Sorted(all, ByTime())
    ensures var r := Limited(all, limit);
            && UniqueIds(r) && (forall x :: x in r ==> x in all)
            && (forall i, j :: 0 <= i < j < |r| ==> r[i].at <= r[j].at)
  {
    var r := Limited(all, limit);
    assert forall i :: 0 <= i < |r| ==> r[i] == all[i];
    assert forall i, j :: 0 <= i < j < |r| ==> ByTime()(all[i], all[j]);
  }

  /** A limit leaves rows out only when it is reached, and never leaves out an older row than one it keeps. */
  lemma SelectOldest<T(!new)>(t: seq<Row<T>>, p: Row<T> -> bool, limit: int, y: Row<T>)
    requires y in t && p(y) && y !in Select(t, p, limit)
    ensures limit >= 0 && |Select(t, p, limit)| == limit
    ensures forall x :: x in Select(t, p, limit) ==> x.at <= y.at
  {
    var all, r := Sort(Where(t, p), ByTime()), Select(t, p, limit);
    SortedMembers(t, p);
    SortSorted(Where(t, p), ByTime());
    var j :| 0 <= j < |all| && all[j] == y;
    assert forall i :: 0 <= i < |r| ==> r[i] == all[i] && all[i] in r;
    assert j >= |r|;
    forall x | x in r ensures x.at <= y.at {
      var i :| 0 <= i < |r| && r[i] == x;
      assert ByTime()(all[i], all[j]);
    }
  }

  /** A query returns distinct rows of the table that satisfy its condition, oldest first. */
  lemma SelectSound<T(!new)>(t: seq<Row<T>>, p: Row<T> -> bool, limit: int)
    requires UniqueIds(t)
    ensures var r := Select(t, p, limit);
            && UniqueIds(r) && (forall x :: x in r ==> x in t && p(x))
            && (forall i, j :: 0 <= i < j < |r| ==> r[i].at <= r[j].at)
            && (limit < 0 ==> forall x :: x in t && p(x) ==> x in r)
  {
    WhereUnique(t, p);
    SortedUniqueIds(Where(t, p));
    SortedMembers(t, p);
    SortSorted(Where(t, p), ByTime());
    LimitedSound(Sort(Where(t, p), ByTime()), limit);
  }
}

/**
 The order ledger: intents are judged, approved decisions staged, staged orders
 submitted, each step one transaction over the tables.
 */
module Ledger {
  import opened Wrappers
  import opened Facts
  import opened Allocation
  import opened Gate
  import opened Modes
  import opened Tables

  datatype Proposal = Proposal(run: string, order: Intent)
  datatype Judgement = Judgement(intent: string, security: nat, approved: bool, reason: Reason, notional: real)
  datatype Staged = Staged(decision: string, intent: string, security: nat, side: Side, notional: real)
  datatype Submission = Submission(staged: string, security: nat, side: Side, notional: real, mode: Mode)

  datatype Books = Books(
    intents: seq<Row<Proposal>>,
    decisions: seq<Row<Judgement>>,
    staged: seq<Row<Staged>>,
    events: seq<Row<Submission>>)

  /** The broker reconciliation row as a send reads it. */
  datatype Reconciliation = Reconciliation(reconciled: bool, checkedAt: int)

  predicate ReconciliationFresh(r: Option<Reconciliation>, now: int, maxAge: int) {
    maxAge > 0 && r.Some? && r.value.reconciled && r.value.checkedAt > 0 && now - r.value.checkedAt <= maxAge
  }

  datatype Step =
    | Plan(run: string, orders: seq<Intent>)
    | GateStep(run: string, securities: seq<Security>, limits: RiskLimits)
    | StageStep(run: string, limit: int, mode: Mode)
    | SendStep(adapter: string, limit: int, mode: Mode, reconciliation: Option<Reconciliation>, maxAge: int)

  /** The identifiers and the time one transaction draws. */
  datatype Draw = Draw(ids: nat -> string, now: int)

  // ----- What each step selects and inserts

  predicate ForRun(run: string, p: Proposal) { run == "" || p.run == run }

  predicate Judged(decisions: seq<Row<Judgement>>, intent: string) {
    exists d :: d in decisions && d.data.intent == intent
  }

  function Pending(b: Books, run: string): Row<Proposal> -> bool {
    (r: Row<Proposal>) => ForRun(run, r.data) && !Judged(b.decisions, r.id)
  }

  function IntentById(intents: seq<Row<Proposal>>, id: string): Option<Proposal> {
    if intents == [] then None
    else if intents[0].id == id then Some(intents[0].data)
    else IntentById(intents[1..], id)
  }

  predicate StagedAlready(staged: seq<Row<Staged>>, decision: string) {
    exists s :: s in staged && s.data.decision == decision
  }

  /** An approved decision not yet staged whose intent is in the ledger and, if asked, of that run. */
  function Stageable(b: Books, run: string): Row<Judgement> -> bool {
    (d: Row<Judgement>) =>
      && d.data.approved && !StagedAlready(b.staged, d.id)
      && var oi := IntentById(b.intents, d.data.intent); oi.Some? && ForRun(run, oi.value)
  }

  predicate Submitted(events: seq<Row<Submission>>, staged: string) {
    exists e :: e in events && e.data.staged == staged
  }

  function Unsent(b: Books): Row<Staged> -> bool {
    (s: Row<Staged>) => !Submitted(b.events, s.id)
  }

  function OrderOf(r: Row<Proposal>): Intent { r.data.order }

  function Orders(rows: seq<Row<Proposal>>): (r: seq<Intent>)
    ensures |r| == |rows| && forall k :: 0 <= k < |r| ==> r[k] == rows[k].data.order
  {
    seq(|rows|, i requires 0 <= i < |rows| => OrderOf(rows[i]))
  }

  function PlanRows(run: string, orders: seq<Intent>, d: Draw): seq<Row<Proposal>> {
    seq(|orders|, i requires 0 <= i < |orders| => Row(d.ids(i), d.now, Proposal(run, orders[i])))
  }

  function JudgementOf(r: Row<Proposal>, dec: Decision): Judgement {
    Judgement(r.id, dec.security, dec.approved, dec.reason, dec.notional)
  }

  function GateRows(picks: seq<Row<Proposal>>, ds: seq<Decision>, d: Draw): (r: seq<Row<Judgement>>)
    requires |picks| == |ds|
    ensures |r| == |picks| && forall k :: 0 <= k < |r| ==> r[k].data == JudgementOf(picks[k], ds[k])
  {
    seq(|picks|, i requires 0 <= i < |picks| => Row(d.ids(i), d.now, JudgementOf(picks[i], ds[i])))
  }

  function StageOne(b: Books, d: Row<Judgement>): Staged {
    var oi := IntentById(b.intents, d.data.intent);
    Staged(d.id, d.data.intent, d.data.security, if oi.Some? then oi.value.order.side else NoSide, d.data.notional)
  }

  function StageRows(b: Books, picks: seq<Row<Judgement>>, d: Draw): (r: seq<Row<Staged>>)
    ensures |r| == |picks| && forall k :: 0 <= k < |r| ==> r[k].data == StageOne(b, picks[k])
  {
    seq(|picks|, i requires 0 <= i < |picks| => Row(d.ids(i), d.now, StageOne(b, picks[i])))
  }

  function SendOne(s: Row<Staged>, mode: Mode): Submission {
    Submission(s.id, s.data.security, s.data.side, s.data.notional, mode)
  }

  function SendRows(picks: seq<Row<Staged>>, mode: Mode, d: Draw): (r: seq<Row<Submission>>)
    ensures |r| == |picks| && forall k :: 0 <= k < |r| ==> r[k].data == SendOne(picks[k], mode)
  {
    seq(|picks|, i requires 0 <= i < |picks| => Row(d.ids(i), d.now, SendOne(picks[i], mode)))
  }

  // ----- The step function: None when the step fails and nothing is written

  ghost function Committed<T>(table: seq<Row<T>>, rows: seq<Row<T>>): Option<seq<Row<T>>> {
    if UniqueIds(table + rows) then Some(table + rows) else None
  }

  ghost function Planned(b: Books, run: string, orders: seq<Intent>, d: Draw): Option<Books> {
    var r := Committed(b.intents, PlanRows(run, orders, d));
    if r.Some? then Some(b.(intents := r.value)) else None
  }

  function GatePicks(b: Books, run: string): seq<Row<Proposal>> { Select(b.intents, Pending(b, run), -1) }

  function GateDecisions(b: Books, run: string, securities: seq<Security>, l: RiskLimits): seq<Decision> {
    Decisions(Orders(GatePicks(b, run)), securities, l)
  }

  function GateBatch(b: Books, run: string, securities: seq<Security>, l: RiskLimits, d: Draw): seq<Row<Judgement>> {
    GateRows(GatePicks(b, run), GateDecisions(b, run, securities, l), d)
  }

  ghost function Gated(b: Books, run: string, securities: seq<Security>, l: RiskLimits, d: Draw): Option<Books> {
    if !GateAccepts(Orders(GatePicks(b, run)), securities) then None
    else
      var r := Committed(b.decisions, GateBatch(b, run, securities, l, d));
      if r.Some? then Some(b.(decisions := r.value)) else None
  }

  function StagePicks(b: Books, run: string, limit: int): seq<Row<Judgement>> {
    Select(b.decisions, Stageable(b, run), limit)
  }

  ghost function StagedBooks(b: Books, run: string, limit: int, mode: Mode, d: Draw): Option<Books> {
    if !CanStage(mode) then None
    else
      var r := Committed(b.staged, StageRows(b, StagePicks(b, run, limit), d));
      if r.Some? then Some(b.(staged := r.value)) else None
  }

  function SendPicks(b: Books, limit: int): seq<Row<Staged>> { Select(b.staged, Unsent(b), limit) }

  ghost function Sent(b: Books, s: Step, d: Draw): Option<Books>
    requires s.SendStep?
  {
    if s.adapter != "mock" || !CanSubmit(s.mode) || !ReconciliationFresh(s.reconciliation, d.now, s.maxAge) then None
    else
      var r := Committed(b.events, SendRows(SendPicks(b, s.limit), s.mode, d));
      if r.Some? then Some(b.(events := r.value)) else None
  }

  ghost function Outcome(b: Books, s: Step, d: Draw): Option<Books> {
    match s
    case Plan(run, orders) => Planned(b, run, orders, d)
    case GateStep(run, securities, limits) => Gated(b, run, securities, limits, d)
    case StageStep(run, limit, mode) => StagedBooks(b, run, limit, mode, d)
    case SendStep(_, _, _, _, _) => Sent(b, s, d)
  }

  ghost predicate KeysUnique(b: Books) {
    UniqueIds(b.intents) && UniqueIds(b.decisions) && UniqueIds(b.staged) && UniqueIds(b.events)
  }

  /** The books after an attempted step. */
  ghost function After(b: Books, s: Step, d: Draw): Books {
    var r := Outcome(b, s, d);
    if r.Some? then r.value else b
  }

  // ----- The ledger itself

  class OrderLedger {
    var intents: seq<Row<Proposal>>
    var decisions: seq<Row<Judgement>>
    var staged: seq<Row<Staged>>
    var events: seq<Row<Submission>>

    function Value(): Books reads this { Books(intents, decisions, staged, events) }

    ghost predicate Valid() reads this { KeysUnique(Value()) }

    constructor ()
      ensures Valid() && Value() == Books([], [], [], [])
    {
      intents, decisions, staged, events := [], [], [], [];
    }

    method PersistIntents(run: string, orders: seq<Intent>, d: Draw) returns (ok: bool)
      requires Valid()
      modifies this
      ensures Valid() && Value() == After(old(Value()), Plan(run, orders), d)
      ensures ok <==> Outcome(old(Value()), Plan(run, orders), d).Some?
    {
      var r := InsertAll(intents, PlanRows(run, orders, d));
      ok := r.Some?;
      if ok {
        intents := r.value;
      }
    }

    method OpGate(run: string, securities: seq<Security>, limits: RiskLimits, d: Draw) returns (ok: bool)
      requires Valid()
      modifies this
      ensures Valid() && Value() == After(old(Value()), GateStep(run, securities, limits), d)
      ensures ok <==> Outcome(old(Value()), GateStep(run, securities, limits), d).Some?
    {
      var picks := RunSelect(intents, Pending(Value(), run), -1);
      var accepted, out := CheckRiskLimits(Orders(picks), securities, limits);
      if !accepted {
        return false;
      }
      assert out[..] == GateDecisions(Value(), run, securities, limits);
      var r := InsertAll(decisions, GateRows(picks, out[..], d));
      ok := r.Some?;
      if ok {
        decisions := r.value;
      }
    }

    method OpStage(run: string, limit: int, mode: Mode, d: Draw) returns (ok: bool)
      requires Valid()
      modifies this
      ensures Valid() && Value() == After(old(Value()), StageStep(run, limit, mode), d)
      ensures ok <==> Outcome(old(Value()), StageStep(run, limit, mode), d).Some?
    {
      if !CanStage(mode) {
        return false;
      }
      var picks := RunSelect(decisions, Stageable(Value(), run), limit);
      var r := InsertAll(staged, StageRows(Value(), picks, d));
      ok := r.Some?;
      if ok {
        staged := r.value;
      }
    }

    method OpSend(adapter: string, limit: int, mode: Mode, reconciliation: Option<Reconciliation>, maxAge: int, d: Draw)
      returns (ok: bool)
      requires Valid()
      modifies this
      ensures Valid()
      ensures Value() == After(old(Value()), SendStep(adapter, limit, mode, reconciliation, maxAge), d)
      ensures ok <==> Outcome(old(Value()), SendStep(adapter, limit, mode, reconciliation, maxAge), d).Some?
    {
      if adapter != "mock" {
        return false;
      }
      if !CanSubmit(mode) {
        return false;
      }
      if !ReconciliationFresh(reconciliation, d.now, maxAge) {
        return false;
      }
      var picks := RunSelect(staged, Unsent(Value()), limit);
      var r := InsertAll(events, SendRows(picks, mode, d));
      ok := r.Some?;
      if ok {
        events := r.value;
      }
    }
  }
}
