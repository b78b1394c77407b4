/**
 Runs of the order ledger: what every sequence of plan, gate, stage and send
 steps keeps, and how much can ever be submitted from one gate batch.
 */
module LedgerRuns {
  import opened Wrappers
  import opened Facts
  import opened Allocation
  import opened Gate
  import opened Tables
  import opened Ledger
  import opened Modes

  // ----- Invariants

  /** No two rows have the same key. */
  ghost predicate Once<T(!new)>(rows: seq<Row<T>>, key: T -> string) {
    forall i, j :: 0 <= i < j < |rows| ==> key(rows[i].data) != key(rows[j].data)
  }

  function JudgedIntent(): Judgement -> string { (d: Judgement) => d.intent }
  function StagedDecision(): Staged -> string { (s: Staged) => s.decision }
  function SentOrder(): Submission -> string { (e: Submission) => e.staged }

  /** A decision names an intent of the ledger and repeats its security and notional. */
  predicate DecisionFits(intents: seq<Row<Proposal>>, d: Judgement) {
    var p := IntentById(intents, d.intent);
    p.Some? && p.value.order.security == d.security && p.value.order.notional == d.notional
  }

  /** A staged order comes from one approved decision and repeats its intent's side. */
  predicate StagedFrom(intents: seq<Row<Proposal>>, d: Row<Judgement>, s: Staged) {
    var p := IntentById(intents, d.data.intent);
    && d.id == s.decision && d.data.approved && s.intent == d.data.intent
    && s.security == d.data.security && s.notional == d.data.notional
    && p.Some? && s.side == p.value.order.side
  }

  ghost predicate StagedFits(b: Books, s: Staged) {
    exists d :: d in b.decisions && StagedFrom(b.intents, d, s)
  }

  predicate SentFrom(s: Row<Staged>, e: Submission) {
    && s.id == e.staged && e.security == s.data.security && e.side == s.data.side && e.notional == s.data.notional
    && CanSubmit(e.mode)
  }

  ghost predicate SentFits(staged: seq<Row<Staged>>, e: Submission) {
    exists s :: s in staged && SentFrom(s, e)
  }

  ghost predicate Sound(b: Books) {
    && KeysUnique(b)
    && Once(b.decisions, JudgedIntent()) && (forall d :: d in b.decisions ==> DecisionFits(b.intents, d.data))
    && Once(b.staged, StagedDecision()) && (forall s :: s in b.staged ==> StagedFits(b, s.data))
    && Once(b.events, SentOrder()) && (forall e :: e in b.events ==> SentFits(b.staged, e.data))
  }

  /** Nothing is ever changed or removed. */
  predicate Extends(a: Books, b: Books) {
    a.intents <= b.intents && a.decisions <= b.decisions && a.staged <= b.staged && a.events <= b.events
  }

  // ----- Lookups

  lemma {:induction false} IntentKept(t: seq<Row<Proposal>>, more: seq<Row<Proposal>>, id: string)
    requires IntentById(t, id).Some?
    ensures IntentById(t + more, id) == IntentById(t, id)
  {
    assert (t + more)[1..] == t[1..] + more;
    if t[0].id != id {
      IntentKept(t[1..], more, id);
    }
  }

  lemma {:induction false} IntentFound(t: seq<Row<Proposal>>, r: Row<Proposal>)
    requires UniqueIds(t) && r in t
    ensures IntentById(t, r.id) == Some(r.data)
  {
    assert t == [t[0]] + t[1..];
    UniqueCons(t[0], t[1..]);
    if t[0] != r {
      IntentFound(t[1..], r);
    }
  }

  lemma IntentStays(a: Books, b: Books, id: string)
    requires Extends(a, b) && IntentById(a.intents, id).Some?
    ensures IntentById(b.intents, id) == IntentById(a.intents, id)
  {
    assert b.intents == a.intents + b.intents[|a.intents|..];
    IntentKept(a.intents, b.intents[|a.intents|..], id);
  }

  lemma SameRow<T(!new)>(t: seq<Row<T>>, x: Row<T>, y: Row<T>)
    requires UniqueIds(t) && x in t && y in t && x.id == y.id
    ensures x == y
  {
    var i :| 0 <= i < |t| && t[i] == x;
    var j :| 0 <= j < |t| && t[j] == y;
    assert i == j;
  }

  // ----- Each step keeps the books sound

  lemma KeepsFits(a: Books, b: Books)
    requires Sound(a) && Extends(a, b)
    ensures forall d :: d in a.decisions ==> DecisionFits(b.intents, d.data)
    ensures forall s :: s in a.staged ==> StagedFits(b, s.data)
    ensures forall e :: e in a.events ==> SentFits(b.staged, e.data)
  {
    forall d | d in a.decisions ensures DecisionFits(b.intents, d.data) {
      IntentStays(a, b, d.data.intent);
    }
    forall s | s in a.staged ensures StagedFits(b, s.data) {
      assert StagedFits(a, s.data);
      var d :| d in a.decisions && StagedFrom(a.intents, d, s.data);
      IntentStays(a, b, d.data.intent);
      assert d in b.decisions && StagedFrom(b.intents, d, s.data);
    }
    forall e | e in a.events ensures SentFits(b.staged, e.data) {
      assert SentFits(a.staged, e.data);
      var s :| s in a.staged && SentFrom(s, e.data);
      assert s in b.staged;
    }
  }

  lemma PlanSound(b: Books, run: string, orders: seq<Intent>, d: Draw)
    requires Sound(b)
    ensures Sound(After(b, Plan(run, orders), d)) && Extends(b, After(b, Plan(run, orders), d))
  {
    KeepsFits(b, After(b, Plan(run, orders), d));
  }

  /** Rows keyed by distinct picks, none of which the table already has, keep the key unique. */
  lemma AppendOnce<S(!new), T(!new)>(before: seq<Row<T>>, rows: seq<Row<T>>, picks: seq<Row<S>>, key: T -> string)
    requires Once(before, key) && UniqueIds(picks) && |rows| == |picks|
    requires forall k :: 0 <= k < |rows| ==> key(rows[k].data) == picks[k].id
    requires forall k, r :: 0 <= k < |picks| && r in before ==> key(r.data) != picks[k].id
    ensures Once(before + rows, key)
  {
    var all := before + rows;
    forall i, j | 0 <= i < j < |all| ensures key(all[i].data) != key(all[j].data) {
      if i < |before| <= j {
        assert before[i] in before;
        assert all[j] == rows[j - |before|];
      }
    }
  }

  lemma PicksPending(b: Books, run: string)
    requires Sound(b)
    ensures UniqueIds(GatePicks(b, run))
    ensures forall r :: r in GatePicks(b, run) ==> r in b.intents && !Judged(b.decisions, r.id)
  {
    SelectSound(b.intents, Pending(b, run), -1);
  }

  lemma BatchShape(b: Books, run: string, securities: seq<Security>, l: RiskLimits, d: Draw, k: nat)
    requires k < |GateBatch(b, run, securities, l, d)|
    ensures k < |GatePicks(b, run)| == |GateBatch(b, run, securities, l, d)|
    ensures var row, pick := GateBatch(b, run, securities, l, d)[k], GatePicks(b, run)[k];
            && row.data.intent == pick.id
            && row.data.security == pick.data.order.security && row.data.notional == pick.data.order.notional
  {
  }

  lemma BatchRow(b: Books, run: string, securities: seq<Security>, l: RiskLimits, d: Draw, k: nat)
    requires Sound(b) && k < |GateBatch(b, run, securities, l, d)|
    ensures k < |GatePicks(b, run)|
    ensures var row, pick := GateBatch(b, run, securities, l, d)[k], GatePicks(b, run)[k];
            && row.data.intent == pick.id && IntentById(b.intents, pick.id) == Some(pick.data)
            && DecisionFits(b.intents, row.data)
  {
    BatchShape(b, run, securities, l, d, k);
    PicksPending(b, run);
    var pick := GatePicks(b, run)[k];
    assert pick in GatePicks(b, run);
    IntentFound(b.intents, pick);
  }

  lemma GateDecidesOnce(b: Books, run: string, securities: seq<Security>, l: RiskLimits, d: Draw)
    requires Sound(b)
    ensures Once(b.decisions + GateBatch(b, run, securities, l, d), JudgedIntent())
  {
    var picks, batch := GatePicks(b, run), GateBatch(b, run, securities, l, d);
    PicksPending(b, run);
    forall k, r | 0 <= k < |picks| && r in b.decisions ensures JudgedIntent()(r.data) != picks[k].id {
      assert picks[k] in picks;
    }
    AppendOnce(b.decisions, batch, picks, JudgedIntent());
  }

  lemma BatchFits(b: Books, run: string, securities: seq<Security>, l: RiskLimits, d: Draw, row: Row<Judgement>)
    requires Sound(b) && row in GateBatch(b, run, securities, l, d)
    ensures DecisionFits(b.intents, row.data)
  {
    var batch := GateBatch(b, run, securities, l, d);
    var k :| 0 <= k < |batch| && batch[k] == row;
    BatchRow(b, run, securities, l, d, k);
  }

  lemma GateSound(b: Books, run: string, securities: seq<Security>, l: RiskLimits, d: Draw)
    requires Sound(b)
    ensures var s := GateStep(run, securities, l); Sound(After(b, s, d)) && Extends(b, After(b, s, d))
  {
    var b' := After(b, GateStep(run, securities, l), d);
    KeepsFits(b, b');
    GateDecidesOnce(b, run, securities, l, d);
    forall row | row in b'.decisions ensures DecisionFits(b'.intents, row.data) {
      if row !in b.decisions {
        BatchFits(b, run, securities, l, d, row);
      }
    }
  }

  lemma StagePicked(b: Books, run: string, limit: int, d: Draw, k: nat)
    requires Sound(b) && k < |StagePicks(b, run, limit)|
    ensures var pick := StagePicks(b, run, limit)[k];
            && pick in b.decisions && !StagedAlready(b.staged, pick.id)
            && StagedFrom(b.intents, pick, StageOne(b, pick))
  {
    SelectSound(b.decisions, Stageable(b, run), limit);
    assert StagePicks(b, run, limit)[k] in StagePicks(b, run, limit);
  }

  lemma StagesOnce(b: Books, run: string, limit: int, d: Draw)
    requires Sound(b)
    ensures Once(b.staged + StageRows(b, StagePicks(b, run, limit), d), StagedDecision())
  {
    var picks := StagePicks(b, run, limit);
    SelectSound(b.decisions, Stageable(b, run), limit);
    forall k, r | 0 <= k < |picks| && r in b.staged ensures StagedDecision()(r.data) != picks[k].id {
      StagePicked(b, run, limit, d, k);
    }
    AppendOnce(b.staged, StageRows(b, picks, d), picks, StagedDecision());
  }

  lemma StageSound(b: Books, run: string, limit: int, mode: Mode, d: Draw)
    requires Sound(b)
    ensures var s := StageStep(run, limit, mode); Sound(After(b, s, d)) && Extends(b, After(b, s, d))
  {
    var b' := After(b, StageStep(run, limit, mode), d);
    KeepsFits(b, b');
    StagesOnce(b, run, limit, d);
    var rows := StageRows(b, StagePicks(b, run, limit), d);
    forall row | row in b'.staged ensures StagedFits(b', row.data) {
      if row !in b.staged {
        var k :| 0 <= k < |rows| && rows[k] == row;
        StagePicked(b, run, limit, d, k);
      }
    }
  }

  lemma SendPicked(b: Books, limit: int, k: nat)
    requires Sound(b) && k < |SendPicks(b, limit)|
    ensures SendPicks(b, limit)[k] in b.staged && !Submitted(b.events, SendPicks(b, limit)[k].id)
  {
    SelectSound(b.staged, Unsent(b), limit);
    assert SendPicks(b, limit)[k] in SendPicks(b, limit);
  }

  lemma SendsOnce(b: Books, limit: int, mode: Mode, d: Draw)
    requires Sound(b)
    ensures Once(b.events + SendRows(SendPicks(b, limit), mode, d), SentOrder())
  {
    var picks := SendPicks(b, limit);
    SelectSound(b.staged, Unsent(b), limit);
    forall k, r | 0 <= k < |picks| && r in b.events ensures SentOrder()(r.data) != picks[k].id {
      SendPicked(b, limit, k);
    }
    AppendOnce(b.events, SendRows(picks, mode, d), picks, SentOrder());
  }

  lemma SentRowFits(b: Books, limit: int, mode: Mode, d: Draw, row: Row<Submission>)
    requires Sound(b) && CanSubmit(mode) && row in SendRows(SendPicks(b, limit), mode, d)
    ensures SentFits(b.staged, row.data)
  {
    var picks := SendPicks(b, limit);
    var k :| 0 <= k < |picks| && SendRows(picks, mode, d)[k] == row;
    SendPicked(b, limit, k);
    assert SentFrom(picks[k], row.data);
  }

  lemma SendSound(b: Books, s: Step, d: Draw)
    requires Sound(b) && s.SendStep?
    ensures Sound(After(b, s, d)) && Extends(b, After(b, s, d))
  {
    var b' := After(b, s, d);
    KeepsFits(b, b');
    SendsOnce(b, s.limit, s.mode, d);
    forall row | row in b'.events ensures SentFits(b'.staged, row.data) {
      if row !in b.events {
        SentRowFits(b, s.limit, s.mode, d, row);
      }
    }
  }

  /** Every step, failed or not, keeps the books sound and only adds rows. */
  lemma StepSound(b: Books, s: Step, d: Draw)
    requires Sound(b)
    ensures Sound(After(b, s, d)) && Extends(b, After(b, s, d))
  {
    match s
    case Plan(run, orders) => PlanSound(b, run, orders, d);
    case GateStep(run, securities, limits) => GateSound(b, run, securities, limits, d);
    case StageStep(run, limit, mode) => StageSound(b, run, limit, mode, d);
    case SendStep(_, _, _, _, _) => SendSound(b, s, d);
  }

  // ----- Runs

  ghost predicate IsRun(books: seq<Books>, steps: seq<Step>, draws: seq<Draw>) {
    && |books| == |steps| + 1 && |draws| == |steps|
    && books[0] == Books([], [], [], [])
    && forall i :: 0 <= i < |steps| ==> Moves(books, steps, draws, i)
  }

  ghost predicate Moves(books: seq<Books>, steps: seq<Step>, draws: seq<Draw>, i: nat)
    requires |books| == |steps| + 1 && |draws| == |steps| && i < |steps|
  {
    books[i + 1] == After(books[i], steps[i], draws[i])
  }

  /** In every run each intent is decided, each decision staged and each staged order submitted at most once. */
  lemma {:induction false} RunSound(books: seq<Books>, steps: seq<Step>, draws: seq<Draw>, i: nat)
    requires IsRun(books, steps, draws) && i < |books|
    ensures Sound(books[i])
  {
    if i > 0 {
      RunSound(books, steps, draws, i - 1);
      assert Moves(books, steps, draws, i - 1);
      StepSound(books[i - 1], steps[i - 1], draws[i - 1]);
    }
  }

  lemma RunStep(books: seq<Books>, steps: seq<Step>, draws: seq<Draw>, i: nat)
    requires IsRun(books, steps, draws) && i < |steps|
    ensures Extends(books[i], books[i + 1])
  {
    RunSound(books, steps, draws, i);
    assert Moves(books, steps, draws, i);
    StepSound(books[i], steps[i], draws[i]);
  }

  lemma ExtendsFurther(a: Books, b: Books, c: Books)
    requires Extends(a, b) && Extends(b, c)
    ensures Extends(a, c)
  {
  }

  /** Along a run no row is ever changed or removed. */
  lemma {:induction false} RunExtends(books: seq<Books>, steps: seq<Step>, draws: seq<Draw>, i: nat, j: nat)
    requires IsRun(books, steps, draws) && i <= j < |books|
    ensures Extends(books[i], books[j])
    decreases j
  {
    if i < j {
      RunExtends(books, steps, draws, i, j - 1);
      RunStep(books, steps, draws, j - 1);
      ExtendsFurther(books[i], books[j - 1], books[j]);
    }
  }

  ghost predicate Traced(b: Books, e: Submission, p: Row<Proposal>, d: Row<Judgement>, s: Row<Staged>) {
    && p in b.intents && d in b.decisions && s in b.staged
    && e.staged == s.id && s.data.decision == d.id && s.data.intent == d.data.intent == p.id && d.data.approved
    && e.security == s.data.security == d.data.security == p.data.order.security
    && e.notional == s.data.notional == d.data.notional == p.data.order.notional
    && e.side == s.data.side == p.data.order.side
  }

  lemma {:induction false} IntentRow(t: seq<Row<Proposal>>, id: string)
    requires IntentById(t, id).Some?
    ensures Row(id, IntentTime(t, id), IntentById(t, id).value) in t
  {
    assert t == [t[0]] + t[1..];
    if t[0].id == id {
      assert t[0] in t;
    } else {
      IntentRow(t[1..], id);
    }
  }

  function IntentTime(t: seq<Row<Proposal>>, id: string): int {
    if t == [] then 0 else if t[0].id == id then t[0].at else IntentTime(t[1..], id)
  }

  /** Every submitted order traces back to an approved intent with the same security, side and notional. */
  lemma SubmissionTraced(b: Books, e: Row<Submission>)
    requires Sound(b) && e in b.events
    ensures exists p, d, s :: Traced(b, e.data, p, d, s)
  {
    assert SentFits(b.staged, e.data);
    var s :| s in b.staged && SentFrom(s, e.data);
    assert StagedFits(b, s.data);
    var d :| d in b.decisions && StagedFrom(b.intents, d, s.data);
    assert DecisionFits(b.intents, d.data);
    var id := d.data.intent;
    IntentRow(b.intents, id);
    assert Traced(b, e.data, Row(id, IntentTime(b.intents, id), IntentById(b.intents, id).value), d, s);
  }

  // ----- Cash

  datatype Entry = Entry(key: string, amount: real)

  function Total(es: seq<Entry>): real {
    if es == [] then 0.0 else Total(es[..|es| - 1]) + es[|es| - 1].amount
  }

  predicate DistinctKeys(es: seq<Entry>) {
    forall i, j :: 0 <= i < j < |es| ==> es[i].key != es[j].key
  }

  /** Some entry of `ys` has the key of `x` and at least its amount. */
  predicate Covered(x: Entry, ys: seq<Entry>) {
    exists j :: 0 <= j < |ys| && ys[j].key == x.key && x.amount <= ys[j].amount
  }

  lemma {:induction false} TotalWithout(ys: seq<Entry>, j: nat)
    requires j < |ys|
    ensures Total(ys) == Total(ys[..j] + ys[j + 1..]) + ys[j].amount
  {
    var n := |ys| - 1;
    if j == n {
      assert ys[..j] + ys[j + 1..] == ys[..n];
    } else {
      TotalWithout(ys[..n], j);
      var rest := ys[..j] + ys[j + 1..];
      assert rest[..|rest| - 1] == ys[..n][..j] + ys[..n][j + 1..];
    }
  }

  lemma CoveredWithout(x: Entry, ys: seq<Entry>, j: nat)
    requires Covered(x, ys) && j < |ys| && ys[j].key != x.key
    ensures Covered(x, ys[..j] + ys[j + 1..])
  {
    var rest := ys[..j] + ys[j + 1..];
    var k :| 0 <= k < |ys| && ys[k].key == x.key && x.amount <= ys[k].amount;
    assert rest[if k < j then k else k - 1] == ys[k];
  }

  lemma {:induction false} TotalNonNegative(ys: seq<Entry>)
    requires forall y :: y in ys ==> y.amount >= 0.0
    ensures Total(ys) >= 0.0
  {
    if ys != [] {
      assert ys[|ys| - 1] in ys;
      TotalNonNegative(ys[..|ys| - 1]);
    }
  }

  lemma FrontCovered(xs: seq<Entry>, ys: seq<Entry>, j: nat)
    requires xs != [] && DistinctKeys(xs) && (forall i :: 0 <= i < |xs| ==> Covered(xs[i], ys))
    requires j < |ys| && ys[j].key == xs[|xs| - 1].key
    ensures var front := xs[..|xs| - 1]; forall i :: 0 <= i < |front| ==> Covered(front[i], ys[..j] + ys[j + 1..])
  {
    var front := xs[..|xs| - 1];
    forall i | 0 <= i < |front| ensures Covered(front[i], ys[..j] + ys[j + 1..]) {
      CoveredWithout(xs[i], ys, j);
    }
  }

  /** Amounts under distinct keys, each covered by `ys`, add up to no more than `ys`. */
  lemma {:induction false} CoveredTotal(xs: seq<Entry>, ys: seq<Entry>)
    requires DistinctKeys(xs) && (forall y :: y in ys ==> y.amount >= 0.0)
    requires forall i :: 0 <= i < |xs| ==> Covered(xs[i], ys)
    ensures Total(xs) <= Total(ys)
  {
    if xs == [] {
      TotalNonNegative(ys);
    } else {
      var n := |xs| - 1;
      var j :| 0 <= j < |ys| && ys[j].key == xs[n].key && xs[n].amount <= ys[j].amount;
      var rest := ys[..j] + ys[j + 1..];
      FrontCovered(xs, ys, j);
      CoveredTotal(xs[..n], rest);
      TotalWithout(ys, j);
    }
  }

  /** The decision behind a staged order. */
  function DecisionOf(staged: seq<Row<Staged>>, id: string): string {
    if staged == [] then ""
    else if staged[0].id == id then staged[0].data.decision
    else DecisionOf(staged[1..], id)
  }

  lemma {:induction false} DecisionFound(staged: seq<Row<Staged>>, s: Row<Staged>)
    requires UniqueIds(staged) && s in staged
    ensures DecisionOf(staged, s.id) == s.data.decision
  {
    assert staged == [staged[0]] + staged[1..];
    UniqueCons(staged[0], staged[1..]);
    if staged[0] != s {
      DecisionFound(staged[1..], s);
    }
  }

  /** The submitted buys whose decision belongs to `batch`, each under its decision. */
  function SubmittedBuys(events: seq<Row<Submission>>, staged: seq<Row<Staged>>, batch: seq<Row<Judgement>>): seq<Entry> {
    if events == [] then []
    else
      var e := events[|events| - 1].data;
      var key := DecisionOf(staged, e.staged);
      SubmittedBuys(events[..|events| - 1], staged, batch)
      + if e.side.Buy? && HasId(batch, key) then [Entry(key, e.notional)] else []
  }

  ghost predicate FromEvent(x: Entry, e: Submission, staged: seq<Row<Staged>>, batch: seq<Row<Judgement>>) {
    x == Entry(DecisionOf(staged, e.staged), e.notional) && e.side.Buy? && HasId(batch, x.key)
  }

  lemma {:induction false} BuysFromEvents(events: seq<Row<Submission>>, staged: seq<Row<Staged>>,
                                          batch: seq<Row<Judgement>>)
    ensures forall x :: x in SubmittedBuys(events, staged, batch) ==>
              exists e :: e in events && FromEvent(x, e.data, staged, batch)
  {
    if events != [] {
      var n := |events| - 1;
      BuysFromEvents(events[..n], staged, batch);
      assert events[n] in events && forall e :: e in events[..n] ==> e in events;
      var front := SubmittedBuys(events[..n], staged, batch);
      forall x | x in SubmittedBuys(events, staged, batch)
        ensures exists e :: e in events && FromEvent(x, e.data, staged, batch)
      {
        if x in front {
          var e :| e in events[..n] && FromEvent(x, e.data, staged, batch);
          assert e in events;
        } else {
          assert FromEvent(x, events[n].data, staged, batch);
        }
      }
    }
  }

  lemma DifferentDecisions(staged: seq<Row<Staged>>, e: Submission, f: Submission)
    requires UniqueIds(staged) && Once(staged, StagedDecision()) && SentFits(staged, e) && SentFits(staged, f)
    requires e.staged != f.staged
    ensures DecisionOf(staged, e.staged) != DecisionOf(staged, f.staged)
  {
    var s :| s in staged && SentFrom(s, e);
    var t :| t in staged && SentFrom(t, f);
    DecisionFound(staged, s);
    DecisionFound(staged, t);
    var i :| 0 <= i < |staged| && staged[i] == s;
    var j :| 0 <= j < |staged| && staged[j] == t;
    assert i < j || j < i;
  }

  lemma {:induction false} BuysDistinct(events: seq<Row<Submission>>, staged: seq<Row<Staged>>, batch: seq<Row<Judgement>>)
    requires UniqueIds(staged) && Once(staged, StagedDecision()) && Once(events, SentOrder())
    requires forall e :: e in events ==> SentFits(staged, e.data)
    ensures DistinctKeys(SubmittedBuys(events, staged, batch))
  {
    if events != [] {
      var n := |events| - 1;
      BuysDistinct(events[..n], staged, batch);
      BuysFromEvents(events[..n], staged, batch);
      var front := SubmittedBuys(events[..n], staged, batch);
      assert events[n] in events;
      forall i | 0 <= i < |front| ensures front[i].key != DecisionOf(staged, events[n].data.staged) {
        assert front[i] in front;
        var e :| e in events[..n] && FromEvent(front[i], e.data, staged, batch);
        assert e in events;
        DifferentDecisions(staged, e.data, events[n].data);
      }
    }
  }

  /** What the gate approved for each row of its batch, as amounts. */
  function Approvals(batch: seq<Row<Judgement>>, orders: seq<Intent>): seq<Entry>
    requires |batch| == |orders|
  {
    seq(|batch|, k requires 0 <= k < |batch| =>
        Entry(batch[k].id, if batch[k].data.approved then BuyAmount(orders[k]) else 0.0))
  }

  ghost predicate Amounts(es: seq<Entry>, orders: seq<Intent>, ds: seq<Decision>) {
    && |es| == |orders| == |ds|
    && forall k :: 0 <= k < |es| ==> es[k].amount == if ds[k].approved then BuyAmount(orders[k]) else 0.0
  }

  lemma {:induction false} ApprovalsTotal(es: seq<Entry>, orders: seq<Intent>, ds: seq<Decision>)
    requires Amounts(es, orders, ds)
    ensures Total(es) == ApprovedBuys(orders, ds)
  {
    if es != [] {
      var n := |es| - 1;
      ApprovalsTotal(es[..n], orders[..n], ds[..n]);
    }
  }

  /** The state right after a gate step that committed, and a later one. */
  ghost predicate GatedThen(a: Books, run: string, securities: seq<Security>, l: RiskLimits, d: Draw, b: Books) {
    && Sound(a) && Sound(b) && Gated(a, run, securities, l, d).Some?
    && Extends(Gated(a, run, securities, l, d).value, b)
  }

  /** The decision and batch position behind a submitted buy of the batch. */
  lemma BuyOrigin(b: Books, batch: seq<Row<Judgement>>, e: Row<Submission>) returns (k: nat, s: Row<Staged>)
    requires Sound(b) && e in b.events && HasId(batch, DecisionOf(b.staged, e.data.staged))
    requires forall r :: r in batch ==> r in b.decisions
    ensures k < |batch| && batch[k].id == DecisionOf(b.staged, e.data.staged)
    ensures SentFrom(s, e.data) && StagedFrom(b.intents, batch[k], s.data)
  {
    assert SentFits(b.staged, e.data);
    s :| s in b.staged && SentFrom(s, e.data);
    DecisionFound(b.staged, s);
    assert StagedFits(b, s.data);
    var dec :| dec in b.decisions && StagedFrom(b.intents, dec, s.data);
    k :| 0 <= k < |batch| && batch[k].id == s.data.decision;
    assert batch[k] in batch;
    SameRow(b.decisions, dec, batch[k]);
  }

  lemma BuyCovered(a: Books, run: string, securities: seq<Security>, l: RiskLimits, d: Draw, b: Books, e: Row<Submission>)
    requires GatedThen(a, run, securities, l, d, b) && e in b.events && e.data.side.Buy?
    requires HasId(GateBatch(a, run, securities, l, d), DecisionOf(b.staged, e.data.staged))
    ensures Covered(Entry(DecisionOf(b.staged, e.data.staged), e.data.notional),
                    Approvals(GateBatch(a, run, securities, l, d), Orders(GatePicks(a, run))))
  {
    var batch, picks := GateBatch(a, run, securities, l, d), GatePicks(a, run);
    forall r | r in batch ensures r in b.decisions {
      var k :| 0 <= k < |batch| && batch[k] == r;
      BatchKept(a, run, securities, l, d, b, k);
    }
    var k, s := BuyOrigin(b, batch, e);
    BatchKept(a, run, securities, l, d, b, k);
    BatchShape(a, run, securities, l, d, k);
    BatchRow(a, run, securities, l, d, k);
    IntentStays(a, b, picks[k].id);
    ApprovalAt(batch, Orders(picks), k);
    assert Orders(picks)[k] == picks[k].data.order;
  }

  lemma ApprovalAt(batch: seq<Row<Judgement>>, orders: seq<Intent>, k: nat)
    requires k < |batch| == |orders| && batch[k].data.approved && orders[k].side.Buy?
    ensures Covered(Entry(batch[k].id, orders[k].notional), Approvals(batch, orders))
  {
    assert Approvals(batch, orders)[k] == Entry(batch[k].id, BuyAmount(orders[k]));
  }

  lemma BatchKept(a: Books, run: string, securities: seq<Security>, l: RiskLimits, d: Draw, b: Books, k: nat)
    requires GatedThen(a, run, securities, l, d, b) && k < |GateBatch(a, run, securities, l, d)|
    ensures GateBatch(a, run, securities, l, d)[k] in b.decisions && Extends(a, b)
  {
    var after := Gated(a, run, securities, l, d).value;
    assert after.decisions[|a.decisions| + k] == GateBatch(a, run, securities, l, d)[k];
    assert after.decisions[|a.decisions| + k] == b.decisions[|a.decisions| + k];
  }

  lemma ApprovalsFitCash(a: Books, run: string, securities: seq<Security>, l: RiskLimits, d: Draw)
    ensures Total(Approvals(GateBatch(a, run, securities, l, d), Orders(GatePicks(a, run)))) <= NonNegative(l.cash)
  {
    var orders := Orders(GatePicks(a, run));
    BatchAmounts(GatePicks(a, run), Decisions(orders, securities, l), d);
    ApprovalsTotal(Approvals(GateBatch(a, run, securities, l, d), orders), orders, Decisions(orders, securities, l));
    ApprovedBuysFitCash(orders, securities, l);
  }

  lemma BatchAmounts(picks: seq<Row<Proposal>>, ds: seq<Decision>, d: Draw)
    requires |picks| == |ds|
    ensures Amounts(Approvals(GateRows(picks, ds, d), Orders(picks)), Orders(picks), ds)
  {
  }

  lemma AllBuysCovered(a: Books, run: string, securities: seq<Security>, l: RiskLimits, d: Draw, b: Books, x: Entry)
    requires GatedThen(a, run, securities, l, d, b)
    requires x in SubmittedBuys(b.events, b.staged, GateBatch(a, run, securities, l, d))
    ensures Covered(x, Approvals(GateBatch(a, run, securities, l, d), Orders(GatePicks(a, run))))
  {
    var batch := GateBatch(a, run, securities, l, d);
    BuysFromEvents(b.events, b.staged, batch);
    var e :| e in b.events && FromEvent(x, e.data, b.staged, batch);
    BuyCovered(a, run, securities, l, d, b, e);
  }

  /** Whatever follows, the buys ever submitted from one gate call fit in that call's nonnegative cash. */
  lemma BatchWithinCash(a: Books, run: string, securities: seq<Security>, l: RiskLimits, d: Draw, b: Books)
    requires GatedThen(a, run, securities, l, d, b)
    ensures Total(SubmittedBuys(b.events, b.staged, GateBatch(a, run, securities, l, d))) <= NonNegative(l.cash)
  {
    var batch := GateBatch(a, run, securities, l, d);
    var xs, ys := SubmittedBuys(b.events, b.staged, batch), Approvals(batch, Orders(GatePicks(a, run)));
    BuysDistinct(b.events, b.staged, batch);
    forall x | x in xs ensures Covered(x, ys) {
      AllBuysCovered(a, run, securities, l, d, b, x);
    }
    ApprovalsNonNegative(batch, Orders(GatePicks(a, run)));
    CoveredTotal(xs, ys);
    ApprovalsFitCash(a, run, securities, l, d);
  }

  lemma ApprovalsNonNegative(batch: seq<Row<Judgement>>, orders: seq<Intent>)
    requires |batch| == |orders|
    ensures forall y :: y in Approvals(batch, orders) ==> y.amount >= 0.0
  {
  }

  /** Over every run and every gate step of it. */
  lemma RunWithinCash(books: seq<Books>, steps: seq<Step>, draws: seq<Draw>, i: nat, j: nat)
    requires IsRun(books, steps, draws) && i < j < |books| && steps[i].GateStep?
    requires Outcome(books[i], steps[i], draws[i]).Some?
    ensures var s := steps[i];
            var batch := GateBatch(books[i], s.run, s.securities, s.limits, draws[i]);
            Total(SubmittedBuys(books[j].events, books[j].staged, batch)) <= NonNegative(s.limits.cash)
  {
    var s := steps[i];
    RunSound(books, steps, draws, i);
    RunSound(books, steps, draws, j);
    assert Moves(books, steps, draws, i);
    RunExtends(books, steps, draws, i + 1, j);
    BatchWithinCash(books[i], s.run, s.securities, s.limits, draws[i], books[j]);
  }
}
