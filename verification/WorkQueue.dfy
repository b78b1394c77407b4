/**
 The durable work queue: the table transitions of claim, succeed, fail, defer
 and enqueue, and the role handlers that choose between them.
 */
module WorkQueue {
  import opened Wrappers
  import opened Modes

  datatype WorkType = PullAccession | ParseAccession | RunModel | RiskCheck | StageOrders | SubmitOrders
  datatype Status = Queued | Leased | Succeeded | Failed | Dead

  /** The unique key of a row; every row is enqueued with the subject hash "-". */
  datatype Key = Key(typ: WorkType, subject: string)
  datatype Lease = Lease(owner: string, until: int)
  datatype Row = Row(status: Status, priority: int, attempts: nat, lease: Option<Lease>,
                     availableAt: int, createdAt: int)
  type Table = map<Key, Row>

  /** What a worker keeps of the row it claimed; `attempts` is the count before the claim. */
  datatype Item = Item(key: Key, priority: int, attempts: nat)

  datatype Event =
    | WorkLeased(key: Key, attempts: nat)
    | WorkSucceeded(key: Key, mode: Option<Mode>)
    | WorkFailed(key: Key, status: Status)
    | WorkDeferred(key: Key, availableAt: int)

  // ----- Mode gates

  predicate AtLeastShadow(m: Mode) {
    m.Shadow? || m.Stage? || m.Paper? || m.LiveLimited? || m.Live?
  }

  // ----- Table transitions

  predicate Claimable(row: Row, now: int) {
    && row.availableAt <= now
    && (row.status.Queued? || (row.status.Leased? && (row.lease.None? || row.lease.value.until < now)))
  }

  predicate Candidate(t: Table, typ: WorkType, now: int, k: Key) {
    k in t && k.typ == typ && Claimable(t[k], now)
  }

  /** `a` precedes or ties `b` in the claim order: priority descending, then oldest. */
  predicate ClaimedFirst(a: Row, b: Row) {
    a.priority > b.priority || (a.priority == b.priority && a.createdAt <= b.createdAt)
  }

  /** `k` is a row the claim query may return. */
  ghost predicate Best(t: Table, typ: WorkType, now: int, k: Key) {
    Candidate(t, typ, now, k) && forall j :: Candidate(t, typ, now, j) ==> ClaimedFirst(t[k], t[j])
  }

  function LeaseRow(t: Table, k: Key, lease: Lease): Table
    requires k in t
  {
    t[k := t[k].(status := Leased, attempts := t[k].attempts + 1, lease := Some(lease))]
  }

  /** UPDATE by key: nothing happens to an absent row. */
  function SetStatus(t: Table, k: Key, status: Status): Table {
    if k in t then t[k := t[k].(status := status, lease := None)] else t
  }

  function DeferRow(t: Table, k: Key, availableAt: int): Table {
    if k in t then t[k := t[k].(status := Queued, lease := None, availableAt := availableAt)] else t
  }

  /** Upsert: a conflict requeues unless the row is done, and never touches the lease or the attempts. */
  function EnqueueRow(t: Table, k: Key, priority: int, now: int): Table {
    if k !in t then t[k := Row(Queued, priority, 0, None, now, now)]
    else
      var row := t[k];
      t[k := row.(status := if row.status.Succeeded? || row.status.Dead? then row.status else Queued,
                  priority := if row.priority >= priority then row.priority else priority)]
  }

  function EnqueueAll(t: Table, next: seq<Key>, priority: int, now: int): Table {
    if next == [] then t
    else EnqueueRow(EnqueueAll(t, next[..|next| - 1], priority, now), next[|next| - 1], priority, now)
  }

  function FailureStatus(attempts: nat, maxAttempts: int): Status {
    if attempts + 1 >= maxAttempts then Dead else Failed
  }

  // ----- Role handlers

  /** The result of the command a handler runs; a model run also reports its run id. */
  datatype Outcome = CommandOk(runId: string) | CommandFailed

  datatype Verdict = Succeed(next: seq<Key>) | Fail | Defer

  predicate ReadsMode(typ: WorkType) {
    typ.RunModel? || typ.RiskCheck? || typ.StageOrders? || typ.SubmitOrders?
  }

  /** What a handler does with a claimed row, given the mode it read and its command's outcome. */
  function Decide(k: Key, mode: Mode, o: Outcome): Verdict {
    match k.typ
    case PullAccession =>
      if o.CommandFailed? then Fail else Succeed([Key(ParseAccession, k.subject)])
    case ParseAccession =>
      if o.CommandFailed? then Fail else Succeed([Key(RunModel, k.subject)])
    case RunModel =>
      if !AtLeastShadow(mode) then Defer
      else if o.CommandFailed? || o.runId == "" then Fail else Succeed([Key(RiskCheck, o.runId)])
    case RiskCheck =>
      if !AtLeastShadow(mode) then Defer
      else if o.CommandFailed? then Fail else Succeed([Key(StageOrders, k.subject)])
    case StageOrders =>
      if !CanStage(mode) then Defer
      else if o.CommandFailed? then Fail
      else Succeed(if CanSubmit(mode) then [Key(SubmitOrders, k.subject)] else [])
    case SubmitOrders =>
      if !CanSubmit(mode) then Defer
      else if o.CommandFailed? then Fail else Succeed([])
  }

  const DEFER_DELAY := 300_000

  /** The table after a handler settles its claim. */
  function SettledTable(t: Table, item: Item, v: Verdict, maxAttempts: int, now: int): Table {
    match v
    case Succeed(next) => EnqueueAll(SetStatus(t, item.key, Succeeded), next, item.priority, now)
    case Fail => SetStatus(t, item.key, FailureStatus(item.attempts, maxAttempts))
    case Defer => DeferRow(t, item.key, now + DEFER_DELAY)
  }

  function SettledEvent(item: Item, v: Verdict, mode: Option<Mode>, maxAttempts: int, now: int): Event {
    match v
    case Succeed(_) => WorkSucceeded(item.key, mode)
    case Fail => WorkFailed(item.key, FailureStatus(item.attempts, maxAttempts))
    case Defer => WorkDeferred(item.key, now + DEFER_DELAY)
  }

  /** The queue tables, updated by one short transaction per method. */
  class Queue {
    var rows: Table
    var log: seq<Event>

    /** Leases a best claimable row of one type, or reports that there is none. */
    method Claim(worker: string, typ: WorkType, now: int, until: int) returns (r: Option<Item>)
      modifies this
      ensures r.None? ==> rows == old(rows) && log == old(log)
      ensures r.None? ==> forall k :: !Candidate(rows, typ, now, k)
      ensures r.Some? ==> Best(old(rows), typ, now, r.value.key)
      ensures r.Some? ==> var row := old(rows)[r.value.key];
                          && r.value.priority == row.priority && r.value.attempts == row.attempts
                          && rows == LeaseRow(old(rows), r.value.key, Lease(worker, until))
                          && log == old(log) + [WorkLeased(r.value.key, row.attempts + 1)]
    {
      var best: Option<Key> := None;
      var rest := rows.Keys;
      while rest != {}
        invariant rest <= rows.Keys
        invariant best.None? ==> forall k :: k !in rest ==> !Candidate(rows, typ, now, k)
        invariant best.Some? ==> Candidate(rows, typ, now, best.value)
        invariant best.Some? ==> forall k :: k !in rest && Candidate(rows, typ, now, k)
                                        ==> ClaimedFirst(rows[best.value], rows[k])
        decreases rest
      {
        var k :| k in rest;
        rest := rest - {k};
        if Candidate(rows, typ, now, k) && (best.None? || !ClaimedFirst(rows[best.value], rows[k])) {
          best := Some(k);
        }
      }
      if best.None? {
        return None;
      }
      var row := rows[best.value];
      rows := LeaseRow(rows, best.value, Lease(worker, until));
      log := log + [WorkLeased(best.value, row.attempts + 1)];
      r := Some(Item(best.value, row.priority, row.attempts));
    }

    /** The upsert of one work item. */
    method Enqueue(k: Key, priority: int, now: int)
      modifies this`rows
      ensures rows == EnqueueRow(old(rows), k, priority, now)
    {
      if k !in rows {
        rows := rows[k := Row(Queued, priority, 0, None, now, now)];
      } else {
        var row := rows[k];
        if !row.status.Succeeded? && !row.status.Dead? {
          row := row.(status := Queued);
        }
        if row.priority < priority {
          row := row.(priority := priority);
        }
        rows := rows[k := row];
      }
    }

    method SucceedItem(item: Item, next: seq<Key>, mode: Option<Mode>, now: int)
      modifies this
      ensures rows == EnqueueAll(SetStatus(old(rows), item.key, Succeeded), next, item.priority, now)
      ensures log == old(log) + [WorkSucceeded(item.key, mode)]
    {
      rows := SetStatus(rows, item.key, Succeeded);
      ghost var base := rows;
      for i := 0 to |next|
        invariant rows == EnqueueAll(base, next[..i], item.priority, now) && log == old(log)
      {
        assert next[..i + 1][..i] == next[..i];
        Enqueue(next[i], item.priority, now);
      }
      assert next[..|next|] == next;
      log := log + [WorkSucceeded(item.key, mode)];
    }

    /** A handler's completion of its claim, whoever holds the row by now. */
    method Settle(item: Item, mode: Option<Mode>, o: Outcome, maxAttempts: int, now: int)
      requires ReadsMode(item.key.typ) ==> mode.Some?
      modifies this
      ensures var v := Decide(item.key, if mode.Some? then mode.value else Observe, o);
              && rows == SettledTable(old(rows), item, v, maxAttempts, now)
              && log == old(log) + [SettledEvent(item, v, mode, maxAttempts, now)]
    {
      match Decide(item.key, if mode.Some? then mode.value else Observe, o)
      case Succeed(next) =>
        SucceedItem(item, next, mode, now);
      case Fail =>
        var status := FailureStatus(item.attempts, maxAttempts);
        rows := SetStatus(rows, item.key, status);
        log := log + [WorkFailed(item.key, status)];
      case Defer =>
        rows := DeferRow(rows, item.key, now + DEFER_DELAY);
        log := log + [WorkDeferred(item.key, now + DEFER_DELAY)];
    }
  }
}
