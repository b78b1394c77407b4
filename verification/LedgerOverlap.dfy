/**
 Overlapping ledger calls. Gate, stage and send read their rows before they open
 the transaction that inserts: each step here commits what it selected from an
 earlier view of the books. It keeps the books sound exactly when nothing it
 selected was handled in between.
 */
module LedgerOverlap {
  import opened Wrappers
  import opened Facts
  import opened Allocation
  import opened Gate
  import opened Tables
  import opened Ledger
  import opened LedgerRuns
  import opened Modes

  ghost function GatedLate(view: Books, b: Books, run: string, securities: seq<Security>, l: RiskLimits, d: Draw)
    : Option<Books>
  {
    if !GateAccepts(Orders(GatePicks(view, run)), securities) then None
    else
      var r := Committed(b.decisions, GateBatch(view, run, securities, l, d));
      if r.Some? then Some(b.(decisions := r.value)) else None
  }

  ghost function StagedLate(view: Books, b: Books, run: string, limit: int, mode: Mode, d: Draw): Option<Books> {
    if !CanStage(mode) then None
    else
      var r := Committed(b.staged, StageRows(view, StagePicks(view, run, limit), d));
      if r.Some? then Some(b.(staged := r.value)) else None
  }

  ghost function SentLate(view: Books, b: Books, s: Step, d: Draw): Option<Books>
    requires s.SendStep?
  {
    if s.adapter != "mock" || !CanSubmit(s.mode)
       || !ReconciliationFresh(s.reconciliation, d.now, s.maxAge) then None
    else
      var r := Committed(b.events, SendRows(SendPicks(view, s.limit), s.mode, d));
      if r.Some? then Some(b.(events := r.value)) else None
  }

  /** A gate call whose selection is still the current one is the atomic step. */
  lemma CurrentGate(view: Books, b: Books, run: string, securities: seq<Security>, l: RiskLimits, d: Draw)
    requires GatePicks(view, run) == GatePicks(b, run)
    ensures GatedLate(view, b, run, securities, l, d) == Gated(b, run, securities, l, d)
  {
  }

  /** So is a stage call, as the intents it looks up never change. */
  lemma CurrentStage(view: Books, b: Books, run: string, limit: int, mode: Mode, d: Draw)
    requires Sound(view) && Extends(view, b) && StagePicks(view, run, limit) == StagePicks(b, run, limit)
    ensures StagedLate(view, b, run, limit, mode, d) == StagedBooks(b, run, limit, mode, d)
  {
    var picks := StagePicks(view, run, limit);
    forall k | 0 <= k < |picks| ensures StageOne(view, picks[k]) == StageOne(b, picks[k]) {
      StagePicked(view, run, limit, d, k);
      IntentStays(view, b, picks[k].data.intent);
    }
    assert StageRows(view, picks, d) == StageRows(b, picks, d);
  }

  /** And a send. */
  lemma CurrentSend(view: Books, b: Books, s: Step, d: Draw)
    requires s.SendStep? && SendPicks(view, s.limit) == SendPicks(b, s.limit)
    ensures SentLate(view, b, s, d) == Sent(b, s, d)
  {
  }

  /** Committing a row for a pick whose key the table already has breaks the key's uniqueness. */
  lemma KeyTwice<S(!new), T(!new)>(before: seq<Row<T>>, rows: seq<Row<T>>, picks: seq<Row<S>>, key: T -> string, x: Row<T>)
    requires |rows| == |picks| && forall k :: 0 <= k < |rows| ==> key(rows[k].data) == picks[k].id
    requires x in before && HasId(picks, key(x.data))
    ensures !Once(before + rows, key)
  {
    var i :| 0 <= i < |before| && before[i] == x;
    var k :| 0 <= k < |picks| && picks[k].id == key(x.data);
    var all := before + rows;
    assert all[i] == x && all[|before| + k] == rows[k];
  }

  // ----- Gate

  ghost predicate StillUndecided(view: Books, b: Books, run: string) {
    forall r :: r in GatePicks(view, run) ==> !Judged(b.decisions, r.id)
  }

  lemma StaleBatchFits(view: Books, b: Books, run: string, securities: seq<Security>, l: RiskLimits, d: Draw,
                       row: Row<Judgement>)
    requires Sound(view) && Extends(view, b) && row in GateBatch(view, run, securities, l, d)
    ensures DecisionFits(b.intents, row.data)
  {
    BatchFits(view, run, securities, l, d, row);
    IntentStays(view, b, row.data.intent);
  }

  lemma StaleGateKeeps(view: Books, b: Books, run: string, securities: seq<Security>, l: RiskLimits, d: Draw)
    requires Sound(view) && Sound(b) && Extends(view, b) && GatedLate(view, b, run, securities, l, d).Some?
    requires StillUndecided(view, b, run)
    ensures Sound(GatedLate(view, b, run, securities, l, d).value)
  {
    var b', picks := GatedLate(view, b, run, securities, l, d).value, GatePicks(view, run);
    var batch := GateBatch(view, run, securities, l, d);
    KeepsFits(b, b');
    PicksPending(view, run);
    forall k, r | 0 <= k < |picks| && r in b.decisions ensures JudgedIntent()(r.data) != picks[k].id {
      assert picks[k] in picks;
    }
    AppendOnce(b.decisions, batch, picks, JudgedIntent());
    forall row | row in b'.decisions ensures DecisionFits(b'.intents, row.data) {
      if row !in b.decisions {
        StaleBatchFits(view, b, run, securities, l, d, row);
      }
    }
  }

  lemma DecidesTwice(b: Books, picks: seq<Row<Proposal>>, ds: seq<Decision>, d: Draw, r: Row<Proposal>)
    requires |picks| == |ds| && r in picks && Judged(b.decisions, r.id)
    ensures !Once(b.decisions + GateRows(picks, ds, d), JudgedIntent())
  {
    var x :| x in b.decisions && x.data.intent == r.id;
    KeyTwice(b.decisions, GateRows(picks, ds, d), picks, JudgedIntent(), x);
  }

  /** A gate call commits sound books exactly when no intent it selected was decided since. */
  lemma StaleGateExactly(view: Books, b: Books, run: string, securities: seq<Security>, l: RiskLimits, d: Draw)
    requires Sound(view) && Sound(b) && Extends(view, b) && GatedLate(view, b, run, securities, l, d).Some?
    ensures Sound(GatedLate(view, b, run, securities, l, d).value) <==> StillUndecided(view, b, run)
  {
    if StillUndecided(view, b, run) {
      StaleGateKeeps(view, b, run, securities, l, d);
    } else {
      var r :| r in GatePicks(view, run) && Judged(b.decisions, r.id);
      DecidesTwice(b, GatePicks(view, run), GateDecisions(view, run, securities, l), d, r);
    }
  }

  // ----- Stage

  ghost predicate StillUnstaged(view: Books, b: Books, run: string, limit: int) {
    forall r :: r in StagePicks(view, run, limit) ==> !StagedAlready(b.staged, r.id)
  }

  lemma StaleStageFits(view: Books, b: Books, run: string, limit: int, d: Draw, k: nat)
    requires Sound(view) && Extends(view, b) && k < |StagePicks(view, run, limit)|
    ensures StagedFits(b, StageOne(view, StagePicks(view, run, limit)[k]))
  {
    StagePicked(view, run, limit, d, k);
    var pick := StagePicks(view, run, limit)[k];
    IntentStays(view, b, pick.data.intent);
    assert pick in b.decisions && StagedFrom(b.intents, pick, StageOne(view, pick));
  }

  lemma StaleStageKeeps(view: Books, b: Books, run: string, limit: int, mode: Mode, d: Draw)
    requires Sound(view) && Sound(b) && Extends(view, b) && StagedLate(view, b, run, limit, mode, d).Some?
    requires StillUnstaged(view, b, run, limit)
    ensures Sound(StagedLate(view, b, run, limit, mode, d).value)
  {
    var b', picks := StagedLate(view, b, run, limit, mode, d).value, StagePicks(view, run, limit);
    var rows := StageRows(view, picks, d);
    KeepsFits(b, b');
    SelectSound(view.decisions, Stageable(view, run), limit);
    forall k, r | 0 <= k < |picks| && r in b.staged ensures StagedDecision()(r.data) != picks[k].id {
      assert picks[k] in picks;
    }
    AppendOnce(b.staged, rows, picks, StagedDecision());
    forall row | row in b'.staged ensures StagedFits(b', row.data) {
      if row !in b.staged {
        var k :| 0 <= k < |rows| && rows[k] == row;
        StaleStageFits(view, b', run, limit, d, k);
      }
    }
  }

  lemma StagesTwice(view: Books, b: Books, picks: seq<Row<Judgement>>, d: Draw, r: Row<Judgement>)
    requires r in picks && StagedAlready(b.staged, r.id)
    ensures !Once(b.staged + StageRows(view, picks, d), StagedDecision())
  {
    var x :| x in b.staged && x.data.decision == r.id;
    KeyTwice(b.staged, StageRows(view, picks, d), picks, StagedDecision(), x);
  }

  /** A stage call commits sound books exactly when no decision it selected was staged since. */
  lemma StaleStageExactly(view: Books, b: Books, run: string, limit: int, mode: Mode, d: Draw)
    requires Sound(view) && Sound(b) && Extends(view, b) && StagedLate(view, b, run, limit, mode, d).Some?
    ensures Sound(StagedLate(view, b, run, limit, mode, d).value) <==> StillUnstaged(view, b, run, limit)
  {
    if StillUnstaged(view, b, run, limit) {
      StaleStageKeeps(view, b, run, limit, mode, d);
    } else {
      var r :| r in StagePicks(view, run, limit) && StagedAlready(b.staged, r.id);
      StagesTwice(view, b, StagePicks(view, run, limit), d, r);
    }
  }

  // ----- Send

  ghost predicate StillUnsent(view: Books, b: Books, limit: int) {
    forall r :: r in SendPicks(view, limit) ==> !Submitted(b.events, r.id)
  }

  lemma StaleSendKeeps(view: Books, b: Books, s: Step, d: Draw)
    requires s.SendStep? && Sound(view) && Sound(b) && Extends(view, b) && SentLate(view, b, s, d).Some?
    requires StillUnsent(view, b, s.limit)
    ensures Sound(SentLate(view, b, s, d).value)
  {
    var b', picks := SentLate(view, b, s, d).value, SendPicks(view, s.limit);
    KeepsFits(b, b');
    SelectSound(view.staged, Unsent(view), s.limit);
    forall k, r | 0 <= k < |picks| && r in b.events ensures SentOrder()(r.data) != picks[k].id {
      assert picks[k] in picks;
    }
    AppendOnce(b.events, SendRows(picks, s.mode, d), picks, SentOrder());
    forall row | row in b'.events ensures SentFits(b'.staged, row.data) {
      if row !in b.events {
        SentRowFits(view, s.limit, s.mode, d, row);
        SentFitsLater(view.staged, b.staged, row.data);
      }
    }
  }

  lemma SentFitsLater(before: seq<Row<Staged>>, after: seq<Row<Staged>>, e: Submission)
    requires SentFits(before, e) && before <= after
    ensures SentFits(after, e)
  {
    var s :| s in before && SentFrom(s, e);
    assert s in after;
  }

  lemma SendsTwice(b: Books, picks: seq<Row<Staged>>, mode: Mode, d: Draw, r: Row<Staged>)
    requires r in picks && Submitted(b.events, r.id)
    ensures !Once(b.events + SendRows(picks, mode, d), SentOrder())
  {
    var x :| x in b.events && x.data.staged == r.id;
    KeyTwice(b.events, SendRows(picks, mode, d), picks, SentOrder(), x);
  }

  /** A send commits sound books exactly when no order it selected was submitted since. */
  lemma StaleSendExactly(view: Books, b: Books, s: Step, d: Draw)
    requires s.SendStep? && Sound(view) && Sound(b) && Extends(view, b) && SentLate(view, b, s, d).Some?
    ensures Sound(SentLate(view, b, s, d).value) <==> StillUnsent(view, b, s.limit)
  {
    if StillUnsent(view, b, s.limit) {
      StaleSendKeeps(view, b, s, d);
    } else {
      var r :| r in SendPicks(view, s.limit) && Submitted(b.events, r.id);
      SendsTwice(b, SendPicks(view, s.limit), s.mode, d, r);
    }
  }

  // ----- An overlap that decides an intent twice

  function OneIntent(): Books {
    Books([Row("i", 0, Proposal("", Intent(1, Buy, 100.0, 0.0, 0.0)))], [], [], [])
  }

  function SameId(id: string): Draw { Draw((n: nat) => id, 1) }

  lemma SelectOne<T(!new)>(r: Row<T>, p: Row<T> -> bool)
    requires p(r)
    ensures Select([r], p, -1) == [r]
  {
    assert Where([r][..0], p) == [];
    assert Where([r], p) == [] + [r] == [r];
    assert [r][1..] == [];
  }

  lemma OnePick()
    ensures Sound(OneIntent()) && GatePicks(OneIntent(), "") == OneIntent().intents
  {
    SelectOne(OneIntent().intents[0], Pending(OneIntent(), ""));
  }

  /** Two gate calls that both read before either commits leave one intent with two decisions. */
  lemma OverlappingGatesDecideTwice(l: RiskLimits)
    ensures var view := OneIntent();
            var first := Gated(view, "", [], l, SameId("a"));
            && first.Some? && Sound(first.value)
            && var second := GatedLate(view, first.value, "", [], l, SameId("b"));
               second.Some? && !Sound(second.value)
  {
    var view := OneIntent();
    OnePick();
    var first := Gated(view, "", [], l, SameId("a"));
    assert |GateBatch(view, "", [], l, SameId("a"))| == 1;
    GateSound(view, "", [], l, SameId("a"));
    var b := first.value;
    var second := GatedLate(view, b, "", [], l, SameId("b"));
    assert second.Some?;
    assert b.decisions[0] in b.decisions && b.decisions[0].data.intent == "i";
    assert view.intents[0] in GatePicks(view, "");
    StaleGateExactly(view, b, "", [], l, SameId("b"));
  }
}
