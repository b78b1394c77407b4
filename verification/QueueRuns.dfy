/**
 Runs of the daemon workers over one queue: claims in flight, a moving clock, a
 trading mode that changes at any time, crashes, and unfenced completions.
 */
module QueueRuns {
  import opened Wrappers
  import opened Modes
  import opened WorkQueue

  /** A worker between its claim and its completing transaction. */
  datatype InFlight = InFlight(item: Item, until: int, mode: Option<Mode>)

  datatype World = World(
    table: Table,
    clock: int,
    mode: Mode,
    claims: map<nat, InFlight>,
    log: seq<Event>,
    maxAttempts: int)

  datatype Step =
    | Tick(to: int)
    | SetMode(m: Mode)
    | Watch(accessions: seq<string>)
    | Claim(id: nat, worker: string, key: Key, until: int)
    | ReadMode(id: nat)
    | Complete(id: nat, outcome: Outcome)
    | Crash(id: nat)

  ghost predicate Enabled(w: World, s: Step) {
    match s
    case Tick(to) => w.clock <= to
    case SetMode(_) => true
    case Watch(_) => true
    case Claim(id, _, key, until) =>
      id !in w.claims && w.clock <= until && Best(w.table, key.typ, w.clock, key)
    case ReadMode(id) => id in w.claims && w.claims[id].mode.None? && ReadsMode(w.claims[id].item.key.typ)
    case Complete(id, _) => id in w.claims && (ReadsMode(w.claims[id].item.key.typ) ==> w.claims[id].mode.Some?)
    case Crash(id) => id in w.claims
  }

  function PullKeys(accessions: seq<string>): seq<Key> {
    seq(|accessions|, i requires 0 <= i < |accessions| => Key(PullAccession, accessions[i]))
  }

  ghost function VerdictOf(w: World, id: nat, o: Outcome): Verdict
    requires id in w.claims
  {
    var c := w.claims[id];
    Decide(c.item.key, if c.mode.Some? then c.mode.value else Observe, o)
  }

  ghost function Apply(w: World, s: Step): World
    requires Enabled(w, s)
  {
    match s
    case Tick(to) => w.(clock := to)
    case SetMode(m) => w.(mode := m)
    case Watch(accessions) => w.(table := EnqueueAll(w.table, PullKeys(accessions), 0, w.clock))
    case Claim(id, worker, key, until) =>
      var row := w.table[key];
      w.(table := LeaseRow(w.table, key, Lease(worker, until)),
         claims := w.claims[id := InFlight(Item(key, row.priority, row.attempts), until, None)],
         log := w.log + [WorkLeased(key, row.attempts + 1)])
    case ReadMode(id) => w.(claims := w.claims[id := w.claims[id].(mode := Some(w.mode))])
    case Complete(id, o) =>
      var c, v := w.claims[id], VerdictOf(w, id, o);
      w.(table := SettledTable(w.table, c.item, v, w.maxAttempts, w.clock),
         claims := w.claims - {id},
         log := w.log + [SettledEvent(c.item, v, c.mode, w.maxAttempts, w.clock)])
    case Crash(id) => w.(claims := w.claims - {id})
  }

  /** The states and steps of one run from an empty queue. */
  ghost predicate IsRun(worlds: seq<World>, steps: seq<Step>) {
    && |worlds| == |steps| + 1
    && worlds[0].table == map[] && worlds[0].claims == map[] && worlds[0].log == []
    && forall i :: 0 <= i < |steps| ==> Moves(worlds, steps, i)
  }

  ghost predicate Moves(worlds: seq<World>, steps: seq<Step>, i: int)
    requires 0 <= i < |steps| && |worlds| == |steps| + 1
  {
    Enabled(worlds[i], steps[i]) && worlds[i + 1] == Apply(worlds[i], steps[i])
  }

  // ----- The history

  function SuccessCount(log: seq<Event>, k: Key): nat {
    if log == [] then 0
    else SuccessCount(log[..|log| - 1], k)
         + (var e := log[|log| - 1]; if e.WorkSucceeded? && e.key == k then 1 else 0)
  }

  function LeaseCount(log: seq<Event>, k: Key): nat {
    if log == [] then 0
    else LeaseCount(log[..|log| - 1], k)
         + (var e := log[|log| - 1]; if e.WorkLeased? && e.key == k then 1 else 0)
  }

  lemma CountSnoc(log: seq<Event>, e: Event, k: Key)
    ensures SuccessCount(log + [e], k) == SuccessCount(log, k) + if e.WorkSucceeded? && e.key == k then 1 else 0
    ensures LeaseCount(log + [e], k) == LeaseCount(log, k) + if e.WorkLeased? && e.key == k then 1 else 0
  {
    assert (log + [e])[..|log|] == log;
  }

  // ----- What every run keeps, however workers behave

  /** Each stage's row comes from the stage before it. */
  ghost predicate Provenance(t: Table) {
    && (forall x :: Key(ParseAccession, x) in t ==> Key(PullAccession, x) in t)
    && (forall x :: Key(SubmitOrders, x) in t ==> Key(StageOrders, x) in t)
    && (forall x :: Key(StageOrders, x) in t ==> Key(RiskCheck, x) in t)
  }

  /** A row that ever succeeded has its successor row. */
  ghost predicate Conserved(t: Table, log: seq<Event>) {
    forall e :: e in log && e.WorkSucceeded? ==>
      match e.key.typ
      case PullAccession => Key(ParseAccession, e.key.subject) in t
      case ParseAccession => Key(RunModel, e.key.subject) in t
      case RiskCheck => Key(StageOrders, e.key.subject) in t
      case StageOrders => e.mode.Some? && CanStage(e.mode.value)
                          && (CanSubmit(e.mode.value) ==> Key(SubmitOrders, e.key.subject) in t)
      case _ => true
  }

  /** The staging success that put a submit row in the queue read a submit-allowed mode. */
  ghost predicate StagedForSubmit(log: seq<Event>, run: string) {
    exists e :: e in log && e.WorkSucceeded? && e.key == Key(StageOrders, run)
                && e.mode.Some? && CanSubmit(e.mode.value)
  }

  ghost predicate SubmitsStaged(t: Table, log: seq<Event>) {
    forall x :: Key(SubmitOrders, x) in t ==> StagedForSubmit(log, x)
  }

  /** Settled rows hold no lease, and attempts count the leases granted. */
  ghost predicate RowsSound(t: Table, log: seq<Event>) {
    && (forall k :: k in t && (t[k].status.Succeeded? || t[k].status.Failed? || t[k].status.Dead?)
                    ==> t[k].lease.None?)
    && (forall k :: k in t ==> t[k].attempts == LeaseCount(log, k))
    && (forall k :: k !in t ==> LeaseCount(log, k) == 0)
  }

  ghost predicate ClaimsListed(w: World) {
    forall id :: id in w.claims ==> w.claims[id].item.key in w.table
  }

  ghost predicate Sound(w: World) {
    && ClaimsListed(w) && Provenance(w.table) && Conserved(w.table, w.log)
    && SubmitsStaged(w.table, w.log) && RowsSound(w.table, w.log)
  }

  /** Rows are never removed, and only the keys in `next` can be new. */
  lemma {:induction false} EnqueueAllKeys(t: Table, next: seq<Key>, priority: int, now: int)
    ensures forall k :: k in EnqueueAll(t, next, priority, now) <==> k in t || k in next
  {
    if next != [] {
      EnqueueAllKeys(t, next[..|next| - 1], priority, now);
      assert next == next[..|next| - 1] + [next[|next| - 1]];
    }
  }

  /** Enqueueing leaves attempts and leases alone, and settled rows without a lease. */
  lemma {:induction false} EnqueueAllRows(t: Table, next: seq<Key>, priority: int, now: int)
    ensures var t' := EnqueueAll(t, next, priority, now);
            forall k :: k in t' ==> t'[k].attempts == (if k in t then t[k].attempts else 0)
    ensures var t' := EnqueueAll(t, next, priority, now);
            forall k :: k in t' ==> t'[k].lease == (if k in t then t[k].lease else None)
    ensures var t' := EnqueueAll(t, next, priority, now);
            forall k :: k in t' && !t'[k].status.Queued? ==> k in t && t'[k].status == t[k].status
    ensures var t' := EnqueueAll(t, next, priority, now);
            forall k :: k in t && k !in next ==> k in t' && t'[k] == t[k]
    ensures var t' := EnqueueAll(t, next, priority, now);
            forall k :: k in t && (t[k].status.Succeeded? || t[k].status.Dead?) ==> k in t' && t'[k].status == t[k].status
  {
    if next != [] {
      EnqueueAllRows(t, next[..|next| - 1], priority, now);
      EnqueueAllKeys(t, next[..|next| - 1], priority, now);
      assert next == next[..|next| - 1] + [next[|next| - 1]];
    }
  }

  function NextOf(v: Verdict): seq<Key> {
    if v.Succeed? then v.next else []
  }

  lemma SettledKeys(t: Table, item: Item, v: Verdict, maxAttempts: int, now: int)
    requires item.key in t
    ensures forall k :: k in SettledTable(t, item, v, maxAttempts, now) <==> k in t || k in NextOf(v)
  {
    EnqueueAllKeys(SetStatus(t, item.key, Succeeded), NextOf(v), item.priority, now);
  }

  lemma SettledProvenance(t: Table, k: Key, mode: Mode, o: Outcome, t': Table)
    requires Provenance(t) && k in t
    requires forall j :: j in t' <==> j in t || j in NextOf(Decide(k, mode, o))
    ensures Provenance(t')
  {
    forall x | Key(SubmitOrders, x) in t' ensures Key(StageOrders, x) in t' {
      assert Key(SubmitOrders, x) in t || (k == Key(StageOrders, x));
    }
    forall x | Key(StageOrders, x) in t' ensures Key(RiskCheck, x) in t' {
      assert Key(StageOrders, x) in t || k == Key(RiskCheck, x);
    }
    forall x | Key(ParseAccession, x) in t' ensures Key(PullAccession, x) in t' {
      assert Key(ParseAccession, x) in t || k == Key(PullAccession, x);
    }
  }

  lemma LogGrows(t: Table, log: seq<Event>, t': Table, e: Event)
    requires Conserved(t, log) && forall k :: k in t ==> k in t'
    requires e.WorkSucceeded? ==> Conserved(t', [e])
    ensures Conserved(t', log + [e])
  {
    forall f | f in log + [e] && f.WorkSucceeded? ensures Conserved(t', [f]) {
      if f in log {
        assert Conserved(t', [f]);
      }
    }
    forall f | f in log + [e] && f.WorkSucceeded?
      ensures match f.key.typ
        case PullAccession => Key(ParseAccession, f.key.subject) in t'
        case ParseAccession => Key(RunModel, f.key.subject) in t'
        case RiskCheck => Key(StageOrders, f.key.subject) in t'
        case StageOrders => f.mode.Some? && CanStage(f.mode.value)
                            && (CanSubmit(f.mode.value) ==> Key(SubmitOrders, f.key.subject) in t')
        case _ => true
    {
      assert f in [f];
    }
  }

  lemma StagedGrows(log: seq<Event>, e: Event, x: string)
    requires StagedForSubmit(log, x)
    ensures StagedForSubmit(log + [e], x)
  {
    var f :| f in log && f.WorkSucceeded? && f.key == Key(StageOrders, x)
             && f.mode.Some? && CanSubmit(f.mode.value);
    assert f in log + [e];
  }

  lemma SoundClaim(w: World, s: Step)
    requires Sound(w) && s.Claim? && Enabled(w, s)
    ensures Sound(Apply(w, s))
  {
    var w' := Apply(w, s);
    var e := WorkLeased(s.key, w.table[s.key].attempts + 1);
    LogGrows(w.table, w.log, w'.table, e);
    forall x | Key(SubmitOrders, x) in w'.table ensures StagedForSubmit(w'.log, x) {
      StagedGrows(w.log, e, x);
    }
    forall k ensures LeaseCount(w'.log, k) == LeaseCount(w.log, k) + if k == s.key then 1 else 0 {
      CountSnoc(w.log, e, k);
    }
  }

  lemma SoundWatch(w: World, s: Step)
    requires Sound(w) && s.Watch?
    ensures Sound(Apply(w, s))
  {
    EnqueueAllKeys(w.table, PullKeys(s.accessions), 0, w.clock);
    EnqueueAllRows(w.table, PullKeys(s.accessions), 0, w.clock);
    var w' := Apply(w, s);
    assert forall k :: k in w'.table && !k.typ.PullAccession? ==> k in w.table;
  }

  lemma SettledRows(t: Table, log: seq<Event>, item: Item, v: Verdict, mode: Option<Mode>, maxAttempts: int, now: int)
    requires RowsSound(t, log) && item.key in t
    ensures RowsSound(SettledTable(t, item, v, maxAttempts, now),
                      log + [SettledEvent(item, v, mode, maxAttempts, now)])
  {
    var t', e := SettledTable(t, item, v, maxAttempts, now), SettledEvent(item, v, mode, maxAttempts, now);
    forall k ensures LeaseCount(log + [e], k) == LeaseCount(log, k) {
      CountSnoc(log, e, k);
    }
    if v.Succeed? {
      var mid := SetStatus(t, item.key, Succeeded);
      EnqueueAllKeys(mid, v.next, item.priority, now);
      EnqueueAllRows(mid, v.next, item.priority, now);
      forall k | k in t' && !t'[k].status.Queued? ensures t'[k].lease == mid[k].lease && t'[k].status == mid[k].status {
        assert k in mid;
      }
    }
  }

  /** The successor of a succeeding row is enqueued in the same transaction. */
  lemma SettledConserved(t: Table, k: Key, mode: Option<Mode>, o: Outcome)
    requires ReadsMode(k.typ) ==> mode.Some?
    requires var v := Decide(k, if mode.Some? then mode.value else Observe, o);
             v.Succeed? && forall n :: n in v.next ==> n in t
    ensures Conserved(t, [WorkSucceeded(k, mode)])
  {
    var v := Decide(k, if mode.Some? then mode.value else Observe, o);
    assert v.next != [] ==> v.next[0] in v.next;
  }

  /** A new submit row was enqueued by a staging success in a submit-allowed mode. */
  lemma SettledSubmits(t: Table, log: seq<Event>, k: Key, mode: Option<Mode>, o: Outcome, t': Table, e: Event)
    requires SubmitsStaged(t, log) && (ReadsMode(k.typ) ==> mode.Some?)
    requires var v := Decide(k, if mode.Some? then mode.value else Observe, o);
             && (forall j :: j in t' <==> j in t || j in NextOf(v))
             && (v.Succeed? ==> e == WorkSucceeded(k, mode))
    ensures SubmitsStaged(t', log + [e])
  {
    forall x | Key(SubmitOrders, x) in t' ensures StagedForSubmit(log + [e], x) {
      if Key(SubmitOrders, x) in t {
        StagedGrows(log, e, x);
      } else {
        assert e in log + [e] && e.key == Key(StageOrders, x);
      }
    }
  }

  lemma SettledSound(t: Table, log: seq<Event>, item: Item, mode: Option<Mode>, o: Outcome, maxAttempts: int, now: int)
    requires item.key in t && (ReadsMode(item.key.typ) ==> mode.Some?)
    requires Provenance(t) && Conserved(t, log) && SubmitsStaged(t, log) && RowsSound(t, log)
    ensures var v := Decide(item.key, if mode.Some? then mode.value else Observe, o);
            var t' := SettledTable(t, item, v, maxAttempts, now);
            var log' := log + [SettledEvent(item, v, mode, maxAttempts, now)];
            && Provenance(t') && Conserved(t', log') && SubmitsStaged(t', log') && RowsSound(t', log')
            && forall k :: k in t ==> k in t'
  {
    var m := if mode.Some? then mode.value else Observe;
    var v := Decide(item.key, m, o);
    var t', e := SettledTable(t, item, v, maxAttempts, now), SettledEvent(item, v, mode, maxAttempts, now);
    SettledKeys(t, item, v, maxAttempts, now);
    SettledProvenance(t, item.key, m, o, t');
    SettledRows(t, log, item, v, mode, maxAttempts, now);
    SettledSubmits(t, log, item.key, mode, o, t', e);
    if v.Succeed? {
      SettledConserved(t', item.key, mode, o);
    }
    LogGrows(t, log, t', e);
  }

  lemma SoundComplete(w: World, s: Step)
    requires Sound(w) && s.Complete? && Enabled(w, s)
    ensures Sound(Apply(w, s))
  {
    var c := w.claims[s.id];
    SettledSound(w.table, w.log, c.item, c.mode, s.outcome, w.maxAttempts, w.clock);
  }

  /** Every step keeps provenance, conservation, lease hygiene and attempt counts. */
  lemma SoundStep(w: World, s: Step)
    requires Sound(w) && Enabled(w, s)
    ensures Sound(Apply(w, s))
  {
    match s
    case Claim(_, _, _, _) => SoundClaim(w, s);
    case Watch(_) => SoundWatch(w, s);
    case Complete(_, _) => SoundComplete(w, s);
    case _ =>
  }

  /** In every state of every run: provenance, conservation and lease hygiene. */
  lemma {:induction false} SoundRun(worlds: seq<World>, steps: seq<Step>, i: nat)
    requires IsRun(worlds, steps) && i < |worlds|
    ensures Sound(worlds[i])
  {
    if i > 0 {
      SoundRun(worlds, steps, i - 1);
      assert Moves(worlds, steps, i - 1);
      SoundStep(worlds[i - 1], steps[i - 1]);
    }
  }

  // ----- What disciplined runs keep for the authority stages

  predicate Authority(k: Key) {
    k.typ.RiskCheck? || k.typ.StageOrders? || k.typ.SubmitOrders?
  }

  /** Workers finish or crash before their leases expire, and model runs get fresh ids. */
  ghost predicate Disciplined(w: World, s: Step)
    requires Enabled(w, s)
  {
    match s
    case Tick(to) => forall id :: id in w.claims ==> to <= w.claims[id].until
    case Complete(id, o) =>
      w.claims[id].item.key.typ.RunModel? ==> forall n :: n in NextOf(VerdictOf(w, id, o)) ==> n !in w.table
    case _ => true
  }

  ghost predicate IsDisciplinedRun(worlds: seq<World>, steps: seq<Step>) {
    && IsRun(worlds, steps)
    && forall i :: 0 <= i < |steps| ==> MovesDisciplined(worlds, steps, i)
  }

  ghost predicate MovesDisciplined(worlds: seq<World>, steps: seq<Step>, i: int)
    requires 0 <= i < |steps| && |worlds| == |steps| + 1
  {
    Moves(worlds, steps, i) && Disciplined(worlds[i], steps[i])
  }

  /** The claim `c` still owns its row. */
  ghost predicate Holds(t: Table, clock: int, c: InFlight) {
    && c.item.key in t
    && var row := t[c.item.key];
       row.status.Leased? && row.lease.Some? && row.lease.value.until == c.until && clock <= c.until
  }

  ghost predicate SameAuthority(a: InFlight, b: InFlight) {
    Authority(a.item.key) && a.item.key == b.item.key
  }

  ghost predicate SoleClaims(w: World) {
    && (forall id :: id in w.claims && Authority(w.claims[id].item.key) ==> Holds(w.table, w.clock, w.claims[id]))
    && (forall i, j :: i in w.claims && j in w.claims && SameAuthority(w.claims[i], w.claims[j]) ==> i == j)
  }

  /** Successes in the history match the rows' statuses. */
  ghost predicate CountedOnce(t: Table, log: seq<Event>) {
    forall k :: Authority(k) ==> SuccessCount(log, k) == if k in t && t[k].status.Succeeded? then 1 else 0
  }

  /** A stage's row exists only once the stage before it has succeeded. */
  ghost predicate Staged(t: Table) {
    && (forall x :: Key(StageOrders, x) in t ==>
         Key(RiskCheck, x) in t && t[Key(RiskCheck, x)].status.Succeeded?)
    && (forall x :: Key(SubmitOrders, x) in t ==>
         Key(StageOrders, x) in t && t[Key(StageOrders, x)].status.Succeeded?)
  }

  ghost predicate Exclusive(w: World) {
    SoleClaims(w) && CountedOnce(w.table, w.log) && Staged(w.table)
  }

  lemma ExclusiveClaim(w: World, s: Step)
    requires Exclusive(w) && s.Claim? && Enabled(w, s)
    ensures Exclusive(Apply(w, s))
  {
    var w' := Apply(w, s);
    forall k ensures SuccessCount(w'.log, k) == SuccessCount(w.log, k) {
      CountSnoc(w.log, WorkLeased(s.key, w.table[s.key].attempts + 1), k);
    }
    forall id | id in w.claims && w.claims[id].item.key == s.key ensures !Authority(s.key) {
      assert Claimable(w.table[s.key], w.clock);
    }
  }

  lemma ExclusiveWatch(w: World, s: Step)
    requires Exclusive(w) && s.Watch?
    ensures Exclusive(Apply(w, s))
  {
    var next := PullKeys(s.accessions);
    EnqueueAllKeys(w.table, next, 0, w.clock);
    EnqueueAllRows(w.table, next, 0, w.clock);
    var w' := Apply(w, s);
    assert forall k: Key :: !k.typ.PullAccession? ==> (k in w'.table <==> k in w.table);
    assert forall k: Key :: !k.typ.PullAccession? && k in w.table ==> w'.table[k] == w.table[k];
  }

  /** The rows of a settled table: the claimed one, the fresh ones, and the rest as before. */
  lemma SettledAuthority(t: Table, item: Item, v: Verdict, maxAttempts: int, now: int)
    requires item.key in t && forall n :: n in NextOf(v) && Authority(n) ==> n !in t
    requires item.key !in NextOf(v)
    ensures var t' := SettledTable(t, item, v, maxAttempts, now);
            && (forall k :: k in t' <==> k in t || k in NextOf(v))
            && (forall k :: Authority(k) && k in t && k != item.key ==> t'[k] == t[k])
            && (forall k :: Authority(k) && k in NextOf(v) ==> t'[k].status.Queued?)
            && (t'[item.key].status.Succeeded? <==> v.Succeed?)
  {
    var mid := SetStatus(t, item.key, Succeeded);
    SettledKeys(t, item, v, maxAttempts, now);
    EnqueueAllKeys(mid, NextOf(v), item.priority, now);
    EnqueueAllRows(mid, NextOf(v), item.priority, now);
  }

  /** In a disciplined run, completing a claim never enqueues an existing authority row. */
  lemma NextIsFresh(w: World, s: Step)
    requires Sound(w) && Exclusive(w) && s.Complete? && Enabled(w, s) && Disciplined(w, s)
    ensures var v := VerdictOf(w, s.id, s.outcome);
            && (forall n :: n in NextOf(v) && Authority(n) ==> n !in w.table)
            && w.claims[s.id].item.key !in NextOf(v)
  {
    var k := w.claims[s.id].item.key;
    if Authority(k) {
      assert Holds(w.table, w.clock, w.claims[s.id]);
    }
  }

  lemma ExclusiveComplete(w: World, s: Step)
    requires Sound(w) && Exclusive(w) && s.Complete? && Enabled(w, s) && Disciplined(w, s)
    ensures Exclusive(Apply(w, s))
  {
    var w' := Apply(w, s);
    var c, v := w.claims[s.id], VerdictOf(w, s.id, s.outcome);
    var k := c.item.key;
    NextIsFresh(w, s);
    SettledAuthority(w.table, c.item, v, w.maxAttempts, w.clock);
    assert Authority(k) ==> Holds(w.table, w.clock, c);
    forall j ensures SuccessCount(w'.log, j) == SuccessCount(w.log, j) + if v.Succeed? && j == k then 1 else 0 {
      CountSnoc(w.log, SettledEvent(c.item, v, c.mode, w.maxAttempts, w.clock), j);
    }
    SettledStaged(w.table, c.item, c.mode, s.outcome, w.maxAttempts, w.clock);
  }

  lemma SettledStaged(t: Table, item: Item, mode: Option<Mode>, o: Outcome, maxAttempts: int, now: int)
    requires Provenance(t) && Staged(t) && item.key in t
    requires Authority(item.key) ==> t[item.key].status.Leased?
    requires var v := Decide(item.key, if mode.Some? then mode.value else Observe, o);
             item.key !in NextOf(v) && forall n :: n in NextOf(v) && Authority(n) ==> n !in t
    ensures Staged(SettledTable(t, item, Decide(item.key, if mode.Some? then mode.value else Observe, o), maxAttempts, now))
  {
    var v := Decide(item.key, if mode.Some? then mode.value else Observe, o);
    var t' := SettledTable(t, item, v, maxAttempts, now);
    SettledAuthority(t, item, v, maxAttempts, now);
    forall x | Key(StageOrders, x) in t'
      ensures Key(RiskCheck, x) in t' && t'[Key(RiskCheck, x)].status.Succeeded?
    {
      assert Key(StageOrders, x) in t || item.key == Key(RiskCheck, x);
    }
    forall x | Key(SubmitOrders, x) in t'
      ensures Key(StageOrders, x) in t' && t'[Key(StageOrders, x)].status.Succeeded?
    {
      assert Key(SubmitOrders, x) in t || item.key == Key(StageOrders, x);
    }
  }

  /** Every disciplined step keeps authority claims sole and successes counted once. */
  lemma ExclusiveStep(w: World, s: Step)
    requires Sound(w) && Exclusive(w) && Enabled(w, s) && Disciplined(w, s)
    ensures Exclusive(Apply(w, s))
  {
    match s
    case Claim(_, _, _, _) => ExclusiveClaim(w, s);
    case Watch(_) => ExclusiveWatch(w, s);
    case Complete(_, _) => ExclusiveComplete(w, s);
    case _ =>
  }

  lemma {:induction false} ExclusiveRun(worlds: seq<World>, steps: seq<Step>, i: nat)
    requires IsDisciplinedRun(worlds, steps) && i < |worlds|
    ensures Sound(worlds[i]) && Exclusive(worlds[i])
  {
    SoundRun(worlds, steps, i);
    if i > 0 {
      ExclusiveRun(worlds, steps, i - 1);
      assert MovesDisciplined(worlds, steps, i - 1) && Moves(worlds, steps, i - 1);
      ExclusiveStep(worlds[i - 1], steps[i - 1]);
    }
  }

  function ClaimantsOf(w: World, k: Key): set<nat> {
    set id | id in w.claims && w.claims[id].item.key == k
  }

  /** In a disciplined run an authority row has at most one live claimant, who holds
      its unexpired lease, and succeeds at most once. */
  lemma AuthorityAtMostOnce(worlds: seq<World>, steps: seq<Step>, i: nat, k: Key)
    requires IsDisciplinedRun(worlds, steps) && i < |worlds| && Authority(k)
    ensures SuccessCount(worlds[i].log, k) <= 1
    ensures forall a, b :: a in ClaimantsOf(worlds[i], k) && b in ClaimantsOf(worlds[i], k) ==> a == b
    ensures forall a :: a in ClaimantsOf(worlds[i], k) ==>
      Holds(worlds[i].table, worlds[i].clock, worlds[i].claims[a])
  {
    ExclusiveRun(worlds, steps, i);
  }

  /** An authority row changes only when it is claimed or when its claimant completes: it is
      never re-enqueued, and a settled row is never touched again. */
  lemma AuthorityRowStep(w: World, s: Step, k: Key)
    requires Sound(w) && Exclusive(w) && Enabled(w, s) && Disciplined(w, s)
    requires Authority(k) && k in w.table
    ensures k in Apply(w, s).table
    ensures Apply(w, s).table[k] != w.table[k] ==>
      || (s.Claim? && s.key == k && Claimable(w.table[k], w.clock))
      || (s.Complete? && w.claims[s.id].item.key == k && w.table[k].status.Leased?)
  {
    match s
    case Watch(accessions) =>
      EnqueueAllKeys(w.table, PullKeys(accessions), 0, w.clock);
      EnqueueAllRows(w.table, PullKeys(accessions), 0, w.clock);
    case Complete(id, o) =>
      NextIsFresh(w, s);
      SettledAuthority(w.table, w.claims[id].item, VerdictOf(w, id, o), w.maxAttempts, w.clock);
      if w.claims[id].item.key == k {
        assert Holds(w.table, w.clock, w.claims[id]);
      }
    case _ =>
  }

  predicate Settled(row: Row) {
    row.status.Succeeded? || row.status.Failed? || row.status.Dead?
  }

  /** Once settled, an authority row stays as it is for the rest of a disciplined run;
      in particular a failed one is never retried. */
  lemma {:induction false} AuthorityFinal(worlds: seq<World>, steps: seq<Step>, i: nat, j: nat, k: Key)
    requires IsDisciplinedRun(worlds, steps) && i <= j < |worlds| && Authority(k)
    requires k in worlds[i].table && Settled(worlds[i].table[k])
    ensures k in worlds[j].table && worlds[j].table[k] == worlds[i].table[k]
  {
    if i < j {
      AuthorityFinal(worlds, steps, i, j - 1, k);
      ExclusiveRun(worlds, steps, j - 1);
      assert MovesDisciplined(worlds, steps, j - 1) && Moves(worlds, steps, j - 1);
      AuthorityRowStep(worlds[j - 1], steps[j - 1], k);
    }
  }

  // ----- Why the hypotheses are there

  lemma ExtendRun(worlds: seq<World>, steps: seq<Step>, s: Step)
    requires IsRun(worlds, steps) && Enabled(worlds[|steps|], s)
    ensures IsRun(worlds + [Apply(worlds[|steps|], s)], steps + [s])
  {
    var worlds', steps' := worlds + [Apply(worlds[|steps|], s)], steps + [s];
    forall i | 0 <= i < |steps'| ensures Moves(worlds', steps', i) {
      if i < |steps| {
        assert Moves(worlds, steps, i);
      }
    }
  }

  lemma ExtendDisciplined(worlds: seq<World>, steps: seq<Step>, s: Step)
    requires IsDisciplinedRun(worlds, steps) && Enabled(worlds[|steps|], s) && Disciplined(worlds[|steps|], s)
    ensures IsDisciplinedRun(worlds + [Apply(worlds[|steps|], s)], steps + [s])
  {
    var worlds', steps' := worlds + [Apply(worlds[|steps|], s)], steps + [s];
    ExtendRun(worlds, steps, s);
    forall i | 0 <= i < |steps'| ensures MovesDisciplined(worlds', steps', i) {
      assert Moves(worlds', steps', i);
      if i < |steps| {
        assert MovesDisciplined(worlds, steps, i);
      }
    }
  }

  /** One pull row, enqueued at time 0 and leased until 10. */
  ghost function OneClaim(): World {
    var k := Key(PullAccession, "a");
    World(map[k := Row(Leased, 0, 1, Some(Lease("w", 10)), 0, 0)], 0, Observe,
          map[0 := InFlight(Item(k, 0, 0), 10, None)], [WorkLeased(k, 1)], 5)
  }

  lemma FirstClaim() returns (worlds: seq<World>, steps: seq<Step>)
    ensures IsDisciplinedRun(worlds, steps) && |steps| == 2 && worlds[2] == OneClaim()
  {
    var k := Key(PullAccession, "a");
    var w0 := World(map[], 0, Observe, map[], [], 5);
    var s0 := Watch(["a"]);
    var w1 := Apply(w0, s0);
    assert PullKeys(["a"]) == [k] && [k][..0] == [];
    assert w1.table == map[k := Row(Queued, 0, 0, None, 0, 0)];
    var s1 := Claim(0, "w", k, 10);
    assert Enabled(w1, s1);
    assert IsRun([w0], []);
    ExtendDisciplined([w0], [], s0);
    ExtendDisciplined([w0] + [w1], [] + [s0], s1);
    worlds, steps := [w0] + [w1] + [Apply(w1, s1)], [] + [s0] + [s1];
  }

  /** A run whose one pull row is leased twice: the second lease follows the expiry of the
      first, or a second watch cycle while the first still runs. */
  lemma TwoClaims(expired: bool) returns (worlds: seq<World>, steps: seq<Step>)
    ensures IsRun(worlds, steps) && |steps| == 4
    ensures worlds[4].claims.Keys == {0, 1} && worlds[4].maxAttempts == 5
    ensures forall id :: id in worlds[4].claims ==>
      worlds[4].claims[id] == InFlight(Item(Key(PullAccession, "a"), 0, id), 10 + 10 * id, None)
    ensures Key(PullAccession, "a") in worlds[4].table
    ensures !expired ==> IsDisciplinedRun(worlds, steps)
  {
    worlds, steps := FirstClaim();
    var k := Key(PullAccession, "a");
    var w2 := worlds[2];
    var s2 := if expired then Tick(11) else Watch(["a"]);
    var w3 := Apply(w2, s2);
    assert PullKeys(["a"]) == [k] && [k][..0] == [];
    assert w3.table.Keys == {k} && w3.table[k].attempts == 1 && Candidate(w3.table, PullAccession, w3.clock, k);
    var s3 := Claim(1, "v", k, 20);
    if expired {
      ExtendRun(worlds, steps, s2);
      ExtendRun(worlds + [w3], steps + [s2], s3);
    } else {
      ExtendDisciplined(worlds, steps, s2);
      ExtendDisciplined(worlds + [w3], steps + [s2], s3);
    }
    worlds, steps := worlds + [w3] + [Apply(w3, s3)], steps + [s2] + [s3];
  }

  /** Discipline does not protect pull rows: watching again requeues a leased row, and a
      second worker claims it while the first lease is still running. */
  lemma PullRowsAreShared() returns (worlds: seq<World>, steps: seq<Step>)
    ensures IsDisciplinedRun(worlds, steps)
    ensures var w := worlds[|steps|];
            exists k, a, b :: a != b && a in ClaimantsOf(w, k) && b in ClaimantsOf(w, k)
                              && w.clock <= w.claims[a].until && w.clock <= w.claims[b].until
  {
    worlds, steps := TwoClaims(false);
    var w := worlds[4];
    var k := Key(PullAccession, "a");
    ClockBound(worlds, steps, 4);
    assert 0 in ClaimantsOf(w, k) && 1 in ClaimantsOf(w, k);
  }

  /** In a disciplined run no claim in flight is past its lease. */
  lemma {:induction false} ClockBound(worlds: seq<World>, steps: seq<Step>, i: nat)
    requires IsDisciplinedRun(worlds, steps) && i < |worlds|
    ensures forall id :: id in worlds[i].claims ==> worlds[i].clock <= worlds[i].claims[id].until
  {
    if i > 0 {
      ClockBound(worlds, steps, i - 1);
      assert MovesDisciplined(worlds, steps, i - 1) && Moves(worlds, steps, i - 1);
    }
  }

  /** Without lease discipline completions are unfenced: a stale worker's failure
      overwrites a success. */
  lemma StaleFailureOverwritesSuccess() returns (worlds: seq<World>, steps: seq<Step>, k: Key)
    ensures IsRun(worlds, steps) && |steps| == 6
    ensures k in worlds[5].table && worlds[5].table[k].status.Succeeded?
    ensures k in worlds[6].table && worlds[6].table[k].status.Failed?
  {
    worlds, steps := TwoClaims(true);
    k := Key(PullAccession, "a");
    var w4 := worlds[4];
    var s4 := Complete(1, CommandOk(""));
    var w5 := Apply(w4, s4);
    var next := Key(ParseAccession, "a");
    assert VerdictOf(w4, 1, CommandOk("")) == Succeed([next]);
    EnqueueAllRows(SetStatus(w4.table, k, Succeeded), [next], 0, w4.clock);
    assert w5.table[k].status.Succeeded?;
    var s5 := Complete(0, CommandFailed);
    ExtendRun(worlds, steps, s4);
    ExtendRun(worlds + [w5], steps + [s4], s5);
    var w6 := Apply(w5, s5);
    assert w6.table[k].status.Failed?;
    worlds, steps := worlds + [w5] + [w6], steps + [s4] + [s5];
  }
}
