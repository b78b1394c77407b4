/**
 When the unfenced queue keeps a success, a failure and a sole claimant, exactly, for rows
 of every type: by step, and over every continuation of a state.
 */
module QueueExact {
  import opened Wrappers
  import opened Modes
  import opened WorkQueue
  import opened QueueRuns

  predicate HasSucceeded(w: World, k: Key) {
    k in w.table && w.table[k].status.Succeeded?
  }

  /** `s` completes a claim on `k` with any verdict but success. */
  ghost predicate Undoes(w: World, s: Step, k: Key)
    requires Enabled(w, s)
  {
    s.Complete? && w.claims[s.id].item.key == k && !VerdictOf(w, s.id, s.outcome).Succeed?
  }

  lemma SettledSuccess(t: Table, item: Item, v: Verdict, maxAttempts: int, now: int, k: Key)
    requires item.key in t && k in t && t[k].status.Succeeded?
    ensures var t' := SettledTable(t, item, v, maxAttempts, now);
            k in t' && (t'[k].status.Succeeded? <==> item.key != k || v.Succeed?)
  {
    var mid := SetStatus(t, item.key, Succeeded);
    EnqueueAllRows(mid, NextOf(v), item.priority, now);
  }

  /** A success is lost in a step exactly when that step completes a claim on the row without success. */
  lemma SuccessLostExactly(w: World, s: Step, k: Key)
    requires Sound(w) && Enabled(w, s) && HasSucceeded(w, k)
    ensures !HasSucceeded(Apply(w, s), k) <==> Undoes(w, s, k)
  {
    match s
    case Watch(accessions) => EnqueueAllRows(w.table, PullKeys(accessions), 0, w.clock);
    case Complete(id, o) =>
      SettledSuccess(w.table, w.claims[id].item, VerdictOf(w, id, o), w.maxAttempts, w.clock, k);
    case _ =>
  }

  // ----- Over every continuation

  /** The states and steps that follow `w`. */
  ghost predicate Continues(w: World, worlds: seq<World>, steps: seq<Step>) {
    && |worlds| == |steps| + 1 && worlds[0] == w
    && forall i :: 0 <= i < |steps| ==> Moves(worlds, steps, i)
  }

  /** Whatever follows, `k` stays succeeded. */
  ghost predicate Secure(w: World, k: Key) {
    forall worlds, steps :: Continues(w, worlds, steps) ==> HasSucceeded(worlds[|steps|], k)
  }

  /** A succeeded row without a claimant gets none. */
  lemma StaysUnclaimed(w: World, s: Step, k: Key)
    requires Sound(w) && Enabled(w, s) && HasSucceeded(w, k) && ClaimantsOf(w, k) == {}
    ensures HasSucceeded(Apply(w, s), k) && ClaimantsOf(Apply(w, s), k) == {}
  {
    SuccessLostExactly(w, s, k);
    var w' := Apply(w, s);
    forall id | id in w'.claims ensures w'.claims[id].item.key != k {
      if id in w.claims {
        assert id !in ClaimantsOf(w, k);
      }
    }
    assert s.Complete? ==> s.id !in ClaimantsOf(w, k);
  }

  lemma {:induction false} UnclaimedSecure(w: World, worlds: seq<World>, steps: seq<Step>, k: Key, i: nat)
    requires Sound(w) && HasSucceeded(w, k) && ClaimantsOf(w, k) == {}
    requires Continues(w, worlds, steps) && i <= |steps|
    ensures Sound(worlds[i]) && HasSucceeded(worlds[i], k) && ClaimantsOf(worlds[i], k) == {}
  {
    if i > 0 {
      UnclaimedSecure(w, worlds, steps, k, i - 1);
      assert Moves(worlds, steps, i - 1);
      SoundStep(worlds[i - 1], steps[i - 1]);
      StaysUnclaimed(worlds[i - 1], steps[i - 1], k);
    }
  }

  /** A claimant can always undo the success: by reading the mode, if it has to, and failing. */
  lemma ClaimantUndoes(w: World, k: Key, id: nat) returns (worlds: seq<World>, steps: seq<Step>)
    requires Sound(w) && HasSucceeded(w, k) && id in ClaimantsOf(w, k)
    ensures Continues(w, worlds, steps) && !HasSucceeded(worlds[|steps|], k)
  {
    var fail := Complete(id, CommandFailed);
    if Enabled(w, fail) {
      SuccessLostExactly(w, fail, k);
      worlds, steps := [w, Apply(w, fail)], [fail];
      assert Moves(worlds, steps, 0);
    } else {
      var read := ReadMode(id);
      var w1 := Apply(w, read);
      SoundStep(w, read);
      SuccessLostExactly(w1, fail, k);
      worlds, steps := [w, w1, Apply(w1, fail)], [read, fail];
      assert Moves(worlds, steps, 0) && Moves(worlds, steps, 1);
    }
  }

  /** A success is final, whatever the workers do, exactly when no claim on the row is in flight. */
  lemma SuccessFinalExactly(w: World, k: Key)
    requires Sound(w) && HasSucceeded(w, k)
    ensures Secure(w, k) <==> ClaimantsOf(w, k) == {}
  {
    if ClaimantsOf(w, k) == {} {
      forall worlds, steps | Continues(w, worlds, steps) ensures HasSucceeded(worlds[|steps|], k) {
        UnclaimedSecure(w, worlds, steps, k, |steps|);
      }
    } else {
      var id :| id in ClaimantsOf(w, k);
      var worlds, steps := ClaimantUndoes(w, k, id);
    }
  }

  // ----- Failures

  predicate HasFailed(w: World, k: Key) {
    k in w.table && w.table[k].status.Failed?
  }

  /** Enqueueing a row that is not done requeues it. */
  lemma {:induction false} Requeued(t: Table, next: seq<Key>, priority: int, now: int, k: Key)
    requires k in t && !t[k].status.Succeeded? && !t[k].status.Dead? && k in next
    ensures var t' := EnqueueAll(t, next, priority, now); k in t' && t'[k].status.Queued?
  {
    var front, last := next[..|next| - 1], next[|next| - 1];
    assert next == front + [last];
    EnqueueAllRows(t, front, priority, now);
    EnqueueAllKeys(t, front, priority, now);
    if k in front {
      Requeued(t, front, priority, now, k);
    }
  }

  /** The verdict leaves its own row failed. */
  predicate FailsAgain(item: Item, v: Verdict, maxAttempts: int) {
    v.Fail? && FailureStatus(item.attempts, maxAttempts).Failed?
  }

  /** The three ways out of failure: watching names the row, a completion enqueues it, or a claim on it, left from
      before, completes with anything but another failure. */
  ghost predicate Revives(w: World, s: Step, k: Key)
    requires Enabled(w, s)
  {
    match s
    case Watch(accessions) => k in PullKeys(accessions)
    case Complete(id, o) =>
      var item, v := w.claims[id].item, VerdictOf(w, id, o);
      k in NextOf(v) || (item.key == k && !FailsAgain(item, v, w.maxAttempts))
    case _ => false
  }

  lemma SettledFailure(t: Table, item: Item, v: Verdict, maxAttempts: int, now: int, k: Key)
    requires item.key in t && k in t && t[k].status.Failed?
    ensures var t' := SettledTable(t, item, v, maxAttempts, now);
            && k in t' && !t'[k].status.Leased?
            && (t'[k].status.Failed? <==> k !in NextOf(v) && (item.key != k || FailsAgain(item, v, maxAttempts)))
  {
    var mid := SetStatus(t, item.key, Succeeded);
    EnqueueAllRows(mid, NextOf(v), item.priority, now);
    EnqueueAllKeys(mid, NextOf(v), item.priority, now);
    if k in NextOf(v) && item.key != k {
      Requeued(mid, NextOf(v), item.priority, now, k);
    }
  }

  lemma WatchedFailure(w: World, s: Step, k: Key)
    requires s.Watch? && HasFailed(w, k)
    ensures !HasFailed(Apply(w, s), k) <==> k in PullKeys(s.accessions)
    ensures k in Apply(w, s).table && !Apply(w, s).table[k].status.Leased?
  {
    var next := PullKeys(s.accessions);
    EnqueueAllRows(w.table, next, 0, w.clock);
    EnqueueAllKeys(w.table, next, 0, w.clock);
    if k in next {
      Requeued(w.table, next, 0, w.clock, k);
    }
  }

  /** A failed row of any type stops being failed in a step exactly in those three ways, and no step leases it. */
  lemma FailureLeftExactly(w: World, s: Step, k: Key)
    requires Sound(w) && Enabled(w, s) && HasFailed(w, k)
    ensures !HasFailed(Apply(w, s), k) <==> Revives(w, s, k)
    ensures k in Apply(w, s).table && !Apply(w, s).table[k].status.Leased?
    ensures s.Claim? ==> s.key != k
  {
    match s
    case Watch(_) => WatchedFailure(w, s, k);
    case Complete(id, o) =>
      SettledFailure(w.table, w.claims[id].item, VerdictOf(w, id, o), w.maxAttempts, w.clock, k);
    case _ =>
  }

  /** Wherever a failed row is leased later, something revived it in between. */
  lemma {:induction false} LeasedOnlyRevived(w: World, worlds: seq<World>, steps: seq<Step>, k: Key, j: nat)
    requires Sound(w) && HasFailed(w, k) && Continues(w, worlds, steps) && j <= |steps|
    requires k in worlds[j].table && worlds[j].table[k].status.Leased?
    ensures exists m :: 0 <= m < j && Revived(worlds, steps, m, k)
  {
    if forall m :: 0 <= m < j ==> !Revived(worlds, steps, m, k) {
      StaysFailed(w, worlds, steps, k, j);
    }
  }

  ghost predicate Revived(worlds: seq<World>, steps: seq<Step>, m: int, k: Key)
    requires 0 <= m < |steps| && |worlds| == |steps| + 1
  {
    Enabled(worlds[m], steps[m]) && Revives(worlds[m], steps[m], k)
  }

  lemma {:induction false} StaysFailed(w: World, worlds: seq<World>, steps: seq<Step>, k: Key, j: nat)
    requires Sound(w) && HasFailed(w, k) && Continues(w, worlds, steps) && j <= |steps|
    requires forall m :: 0 <= m < j ==> !Revived(worlds, steps, m, k)
    ensures Sound(worlds[j]) && HasFailed(worlds[j], k)
  {
    if j > 0 {
      StaysFailed(w, worlds, steps, k, j - 1);
      assert Moves(worlds, steps, j - 1) && !Revived(worlds, steps, j - 1, k);
      SoundStep(worlds[j - 1], steps[j - 1]);
      FailureLeftExactly(worlds[j - 1], steps[j - 1], k);
    }
  }

  // ----- Sole claimants

  /** At most one claim on `k` is in flight, and it holds its unexpired lease. */
  ghost predicate SoleHolder(w: World, k: Key) {
    && (forall a :: a in ClaimantsOf(w, k) ==> Holds(w.table, w.clock, w.claims[a]))
    && (forall a, b :: a in ClaimantsOf(w, k) && b in ClaimantsOf(w, k) ==> a == b)
  }

  /** The three ways to lose a sole holder: its lease runs out, watching requeues its row, or another claim's
      success does. */
  ghost predicate Dispossesses(w: World, s: Step, k: Key)
    requires Enabled(w, s)
  {
    match s
    case Tick(to) => exists a :: a in ClaimantsOf(w, k) && w.claims[a].until < to
    case Watch(accessions) => ClaimantsOf(w, k) != {} && k in PullKeys(accessions)
    case Complete(id, o) => ClaimantsOf(w, k) - {id} != {} && k in NextOf(VerdictOf(w, id, o))
    case _ => false
  }

  lemma WatchHolder(w: World, s: Step, k: Key)
    requires s.Watch? && SoleHolder(w, k)
    ensures !SoleHolder(Apply(w, s), k) <==> Dispossesses(w, s, k)
  {
    var next := PullKeys(s.accessions);
    EnqueueAllRows(w.table, next, 0, w.clock);
    var w' := Apply(w, s);
    assert ClaimantsOf(w', k) == ClaimantsOf(w, k);
    forall a | a in ClaimantsOf(w, k) ensures Holds(w'.table, w'.clock, w'.claims[a]) <==> k !in next {
      if k in next {
        Requeued(w.table, next, 0, w.clock, k);
      }
    }
  }

  lemma SettledOther(t: Table, item: Item, v: Verdict, maxAttempts: int, now: int, k: Key)
    requires item.key in t && k in t && item.key != k && t[k].status.Leased?
    ensures var t' := SettledTable(t, item, v, maxAttempts, now);
            && k in t' && (k !in NextOf(v) ==> t'[k] == t[k])
            && (k in NextOf(v) ==> t'[k].status.Queued?)
  {
    var mid := SetStatus(t, item.key, Succeeded);
    EnqueueAllRows(mid, NextOf(v), item.priority, now);
    if k in NextOf(v) {
      Requeued(mid, NextOf(v), item.priority, now, k);
    }
  }

  lemma CompleteHolder(w: World, s: Step, k: Key)
    requires Sound(w) && s.Complete? && Enabled(w, s) && SoleHolder(w, k)
    ensures !SoleHolder(Apply(w, s), k) <==> Dispossesses(w, s, k)
  {
    var w', v := Apply(w, s), VerdictOf(w, s.id, s.outcome);
    assert ClaimantsOf(w', k) == ClaimantsOf(w, k) - {s.id};
    forall a | a in ClaimantsOf(w', k) ensures Holds(w'.table, w'.clock, w'.claims[a]) <==> k !in NextOf(v) {
      assert a in ClaimantsOf(w, k);
      assert s.id !in ClaimantsOf(w, k);
      SettledOther(w.table, w.claims[s.id].item, v, w.maxAttempts, w.clock, k);
    }
  }

  lemma ClaimHolder(w: World, s: Step, k: Key)
    requires s.Claim? && Enabled(w, s) && SoleHolder(w, k)
    ensures SoleHolder(Apply(w, s), k)
  {
    var w' := Apply(w, s);
    if s.key == k {
      assert Claimable(w.table[k], w.clock);
      assert forall a :: a in ClaimantsOf(w, k) ==> Holds(w.table, w.clock, w.claims[a]);
      assert ClaimantsOf(w, k) == {};
      assert ClaimantsOf(w', k) == {s.id};
    } else {
      assert ClaimantsOf(w', k) == ClaimantsOf(w, k);
    }
  }

  /** A sole holder is lost in a step exactly in those three ways. */
  lemma HolderLostExactly(w: World, s: Step, k: Key)
    requires Sound(w) && Enabled(w, s) && SoleHolder(w, k)
    ensures !SoleHolder(Apply(w, s), k) <==> Dispossesses(w, s, k)
  {
    match s
    case Watch(_) => WatchHolder(w, s, k);
    case Complete(_, _) => CompleteHolder(w, s, k);
    case Claim(_, _, _, _) => ClaimHolder(w, s, k);
    case Tick(to) => assert ClaimantsOf(Apply(w, s), k) == ClaimantsOf(w, k);
    case SetMode(_) => assert ClaimantsOf(Apply(w, s), k) == ClaimantsOf(w, k);
    case ReadMode(id) => assert ClaimantsOf(Apply(w, s), k) == ClaimantsOf(w, k);
    case Crash(id) => assert ClaimantsOf(Apply(w, s), k) == ClaimantsOf(w, k) - {id};
  }

  // ----- A disciplined run whose risk check fails for good

  /** Some disciplined run ends in `w`. */
  ghost predicate Reached(w: World) {
    exists worlds, steps :: IsDisciplinedRun(worlds, steps) && worlds[|steps|] == w
  }

  lemma ReachedStep(w: World, s: Step)
    requires Reached(w) && Enabled(w, s) && Disciplined(w, s)
    ensures Reached(Apply(w, s))
  {
    var worlds, steps :| IsDisciplinedRun(worlds, steps) && worlds[|steps|] == w;
    ExtendDisciplined(worlds, steps, s);
    assert (worlds + [Apply(w, s)])[|steps + [s]|] == Apply(w, s);
  }

  /** An idle state at time 0 in shadow mode whose only row of its type, `k`, is queued and ready. */
  ghost predicate Ready(w: World, k: Key) {
    && w.clock == 0 && w.mode.Shadow? && w.claims == map[] && w.maxAttempts == 5
    && k in w.table && w.table[k] == Row(Queued, 0, 0, None, 0, 0)
    && forall j :: j in w.table && j.typ == k.typ ==> j == k
  }

  /** The table after one worker claimed `k` and completed it. */
  ghost function Worked(w: World, k: Key, o: Outcome): Table
    requires k in w.table
  {
    SettledTable(LeaseRow(w.table, k, Lease("w", 10)), Item(k, 0, 0), Decide(k, Shadow, o), 5, 0)
  }

  lemma WorkOne(w: World, k: Key, o: Outcome) returns (w': World)
    requires Reached(w) && Ready(w, k)
    requires k.typ.RunModel? ==> forall n :: n in NextOf(Decide(k, Shadow, o)) ==> n !in w.table
    ensures Reached(w') && w'.clock == 0 && w'.mode.Shadow? && w'.claims == map[] && w'.maxAttempts == 5
    ensures w'.table == Worked(w, k, o)
  {
    var claim, complete := Claim(0, "w", k, 10), Complete(0, o);
    assert Candidate(w.table, k.typ, 0, k);
    var w1 := Apply(w, claim);
    ReachedStep(w, claim);
    var w2 := w1;
    if ReadsMode(k.typ) {
      w2 := Apply(w1, ReadMode(0));
      ReachedStep(w1, ReadMode(0));
    }
    ReachedStep(w2, complete);
    w' := Apply(w2, complete);
    assert w'.claims == map[];
  }

  lemma EnqueueOne(t: Table, k: Key, priority: int, now: int)
    ensures EnqueueAll(t, [k], priority, now) == EnqueueRow(t, k, priority, now)
  {
    assert [k][..0] == [];
  }

  /** A successful stage leaves the next stage's one row ready. */
  lemma NextReady(w: World, k: Key, o: Outcome, n: Key, w': World)
    requires Ready(w, k) && Decide(k, Shadow, o) == Succeed([n]) && n.typ != k.typ
    requires forall j :: j in w.table ==> j.typ != n.typ
    requires w'.clock == 0 && w'.mode.Shadow? && w'.claims == map[] && w'.maxAttempts == 5
    requires w'.table == Worked(w, k, o)
    ensures Ready(w', n) && w'.table.Keys == w.table.Keys + {n}
  {
    EnqueueOne(SetStatus(LeaseRow(w.table, k, Lease("w", 10)), k, Succeeded), n, 0, 0);
  }

  lemma PullReady() returns (w: World)
    ensures Reached(w) && Ready(w, Key(PullAccession, "a")) && w.table.Keys == {Key(PullAccession, "a")}
  {
    var k := Key(PullAccession, "a");
    var w0 := World(map[], 0, Observe, map[], [], 5);
    var none: seq<Step> := [];
    assert IsDisciplinedRun([w0], none) && [w0][|none|] == w0;
    var w1 := Apply(w0, SetMode(Shadow));
    ReachedStep(w0, SetMode(Shadow));
    ReachedStep(w1, Watch(["a"]));
    assert PullKeys(["a"]) == [k];
    EnqueueOne(map[], k, 0, 0);
    w := Apply(w1, Watch(["a"]));
  }

  /** A disciplined run in which the risk check fails: its row is failed, and so stays failed for good. */
  lemma FailedAuthority() returns (w: World)
    ensures Reached(w) && w.claims == map[]
    ensures Key(RiskCheck, "r") in w.table && w.table[Key(RiskCheck, "r")].status.Failed?
  {
    var pull, parse := Key(PullAccession, "a"), Key(ParseAccession, "a");
    var model, risk := Key(RunModel, "a"), Key(RiskCheck, "r");
    var w1 := PullReady();
    var w2 := WorkOne(w1, pull, CommandOk(""));
    NextReady(w1, pull, CommandOk(""), parse, w2);
    var w3 := WorkOne(w2, parse, CommandOk(""));
    NextReady(w2, parse, CommandOk(""), model, w3);
    var w4 := WorkOne(w3, model, CommandOk("r"));
    NextReady(w3, model, CommandOk("r"), risk, w4);
    w := WorkOne(w4, risk, CommandFailed);
  }
}
