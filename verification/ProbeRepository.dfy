/** The probe tables: scheduling due tasks and the conditional updates that carry the protocol. */
module ProbeRepository {
  import opened Wrappers
  import opened Schema
  import opened Ranking

  datatype Error = NotFound | Conflict | Unavailable

  datatype Message = Message(execution: string, task: nat, scheduledAt: int)

  datatype Work = Work(execution: Execution, task: Task)

  predicate Due(db: Tables, id: nat, now: int) {
    && id in db.tasks
    && db.tasks[id].status == Active
    && db.tasks[id].serviceId in db.services
    && db.services[db.tasks[id].serviceId].status == Active
    && db.tasks[id].nextRunAt <= now
  }

  function DueTasks(db: Tables, now: int): set<nat> {
    set id <- db.tasks | Due(db, id, now)
  }

  /** ORDER BY next_run_at, id. */
  function RunOrder(db: Tables): nat -> Key {
    (id: nat) => Key(RunTime(db, id), id)
  }

  /** The execution row for one due task: a snapshot of its service, scheduled for the task's old next_run_at. */
  function NewExecution(db: Tables, id: nat, now: int): Execution
    requires Due(db, id, now)
  {
    var t := db.tasks[id];
    var s := db.services[t.serviceId];
    Execution(id, t.serviceId, s.kind, s.target, t.nextRunAt, Queued, now, None, None, None, None, 0, 0)
  }

  function Advanced(t: Task, now: int): Task {
    t.(lastScheduledAt := Some(t.nextRunAt), nextRunAt := now + 1000 * t.policy.interval)
  }

  function Moved(db: Tables, sel: seq<nat>, now: int): map<nat, Task> {
    map id <- db.tasks :: if id in sel then Advanced(db.tasks[id], now) else db.tasks[id]
  }

  predicate Distinct<T(==)>(s: seq<T>) {
    forall i, j | 0 <= i < j < |s| :: s[i] != s[j]
  }

  /** Rows `sel` can be scheduled under the names `ids`: due, once each, and no name is in use. */
  predicate Schedulable(db: Tables, sel: seq<nat>, ids: seq<string>, now: int) {
    && |ids| == |sel| && Distinct(sel) && Distinct(ids)
    && (forall i | 0 <= i < |sel| :: Due(db, sel[i], now) && ids[i] !in db.executions)
  }

  /** What one committed scheduling transaction leaves. */
  function Scheduled(db: Tables, sel: seq<nat>, ids: seq<string>, now: int): Tables
    requires Schedulable(db, sel, ids, now)
  {
    db.(tasks := Moved(db, sel, now),
        executions := db.executions + Added(db, sel, ids, now))
  }

  function RunTime(db: Tables, id: nat): int { if id in db.tasks then db.tasks[id].nextRunAt else 0 }

  /** The messages for the rows of one transaction, in their order. */
  function Announcements(db: Tables, sel: seq<nat>, ids: seq<string>): seq<Message>
    requires |ids| == |sel|
  {
    if sel == [] then []
    else
      var n := |sel| - 1;
      Announcements(db, sel[..n], ids[..n]) + [Message(ids[n], sel[n], RunTime(db, sel[n]))]
  }

  function QueuedIds(db: Tables, before: int): set<string> {
    set id <- db.executions | db.executions[id].status == Queued && db.executions[id].scheduledAt < before
  }

  /** ORDER BY scheduled_at. */
  function QueueOrder(db: Tables): string -> Key {
    (id: string) => Key(if id in db.executions then db.executions[id].scheduledAt else 0, 0)
  }

  /** The message that announces a committed execution. */
  function MessageOf(db: Tables, id: string): Message
    requires id in db.executions
  {
    Message(id, db.executions[id].taskId, db.executions[id].scheduledAt)
  }

  /** The WHERE clause of Acquire. */
  predicate Acquirable(db: Tables, id: string, staleBefore: int) {
    id in db.executions &&
    (db.executions[id].status == Queued
     || (db.executions[id].status == Running && db.executions[id].updatedAt < staleBefore))
  }

  function Acquired(db: Tables, id: string, consumer: string, started: int, stamp: int): Tables
    requires id in db.executions
  {
    db.(executions := db.executions[id := db.executions[id].(
      status := Running, startedAt := Some(started), worker := Some(consumer), updatedAt := stamp)])
  }

  /** The WHERE clause of MarkFinal. */
  predicate Finalisable(db: Tables, id: string, consumer: string) {
    id in db.executions && db.executions[id].status == Running && db.executions[id].worker == Some(consumer)
  }

  function Truncate(s: string, max: nat): string { if |s| > max then s[..max] else s }

  function Finalised(db: Tables, id: string, finished: int, result: ProbeResult, attempts: int,
                     duration: int, stamp: int): Tables
    requires id in db.executions
  {
    db.(executions := db.executions[id := db.executions[id].(
      status := if result.success then Succeeded else Failed,
      finishedAt := Some(finished), attempts := attempts, duration := duration, updatedAt := stamp,
      result := Some(result.(errorMessage := Truncate(result.errorMessage, 1024))))])
  }

  type Byte = n: nat | n < 256

  /** What the random source gives for one id. */
  type RandomBytes = b: seq<Byte> | |b| == 16 witness seq(16, _ => 0)

  function HexDigit(n: nat): (c: char)
    requires n < 16
    ensures '0' <= c <= '9' || 'a' <= c <= 'f'
  {
    if n < 10 then '0' + n as char else 'a' + (n - 10) as char
  }

  function Hex(bytes: seq<Byte>): (s: string)
    ensures |s| == 2 * |bytes| && forall i | 0 <= i < |s| :: '0' <= s[i] <= '9' || 'a' <= s[i] <= 'f'
  {
    if bytes == [] then "" else [HexDigit(bytes[0] / 16), HexDigit(bytes[0] % 16)] + Hex(bytes[1..])
  }

  /** executionID(): 32 hexadecimal digits, or nothing if the random source fails. */
  function ExecutionId(drawn: Option<RandomBytes>): (id: Option<string>)
    ensures id.Some? <==> drawn.Some?
    ensures id.Some? ==> |id.value| == 32
  {
    if drawn == None then None else Some(Hex(drawn.value))
  }

  /** Different bytes give different ids. */
  lemma {:induction false} HexIsInjective(a: seq<Byte>, b: seq<Byte>)
    requires |a| == |b|
    ensures Hex(a) == Hex(b) <==> a == b
    decreases |a|
  {
    if a != [] {
      assert Hex(a)[2..] == Hex(a[1..]) && Hex(b)[2..] == Hex(b[1..]);
      HexIsInjective(a[1..], b[1..]);
      if Hex(a) == Hex(b) {
        assert Hex(a)[0] == Hex(b)[0] && Hex(a)[1] == Hex(b)[1];
        assert a[0] / 16 == b[0] / 16 && a[0] % 16 == b[0] % 16;
        assert a == [a[0]] + a[1..] && b == [b[0]] + b[1..];
      }
    }
  }

  /** So two drawn ids clash exactly when the same 16 bytes were drawn. */
  lemma IdsClashIff(one: Option<RandomBytes>, other: Option<RandomBytes>)
    requires one.Some? && other.Some?
    ensures ExecutionId(one) == ExecutionId(other) <==> one == other
  {
    HexIsInjective(one.value, other.value);
  }

  /** A drawn id that makes the insert fail: no id at all, or one that the unique index already holds. */
  predicate Unusable(db: Tables, drawn: seq<string>, id: Option<string>) {
    id == None || id.value in db.executions || id.value in drawn
  }

  /** The ids drawn so far, each for a row whose statements succeeded. */
  ghost predicate Drawn(ids: seq<string>, supply: nat -> Option<RandomBytes>, healthy: nat -> bool) {
    forall i: nat | i < |ids| :: ExecutionId(supply(i)) == Some(ids[i]) && healthy(i)
  }

  lemma DrawnNext(ids: seq<string>, id: string, supply: nat -> Option<RandomBytes>, healthy: nat -> bool)
    requires Drawn(ids, supply, healthy) && ExecutionId(supply(|ids|)) == Some(id) && healthy(|ids|)
    ensures Drawn(ids + [id], supply, healthy)
  {}

  /** Why a transaction is rolled back: a statement failed, or the id for the next row cannot be used. */
  ghost predicate RolledBack(
    db: Tables, rows: seq<nat>, ids: seq<string>, supply: nat -> Option<RandomBytes>, healthy: nat -> bool)
  {
    && |ids| <= |rows|
    && (!healthy(|ids|) || (|ids| < |rows| && Unusable(db, ids, ExecutionId(supply(|ids|)))))
  }

  // ---------- what the queries and the transaction mean, row by row ----------

  /** The task may be picked: it and its service are active, it is due, and nobody holds its row. */
  ghost predicate MayRun(db: Tables, now: int, locked: set<nat>, t: nat) {
    && t in db.tasks && t !in locked && db.tasks[t].status == Active && db.tasks[t].nextRunAt <= now
    && db.tasks[t].serviceId in db.services && db.services[db.tasks[t].serviceId].status == Active
  }

  ghost predicate Earlier(db: Tables, t: nat, u: nat)
    requires t in db.tasks && u in db.tasks
  {
    db.tasks[t].nextRunAt < db.tasks[u].nextRunAt || (db.tasks[t].nextRunAt == db.tasks[u].nextRunAt && t < u)
  }

  /** The earliest ready tasks, by id where the times agree; none is passed over unless the batch is full. */
  ghost predicate Picked(db: Tables, now: int, locked: set<nat>, batch: nat, sel: seq<nat>) {
    && |sel| <= batch
    && (forall i | 0 <= i < |sel| :: MayRun(db, now, locked, sel[i]))
    && (forall i, j | 0 <= i < j < |sel| :: Earlier(db, sel[i], sel[j]))
    && (forall t | MayRun(db, now, locked, t) && t !in sel ::
          |sel| == batch && forall i | 0 <= i < |sel| :: Earlier(db, sel[i], t))
  }

  /** `e` is a fresh execution of task `t`: a snapshot of the task's service, for the time the task was due, queued
      and not touched by any worker. */
  ghost predicate Enqueued(db: Tables, t: nat, e: Execution, now: int) {
    && t in db.tasks && db.tasks[t].serviceId in db.services
    && e.taskId == t && e.serviceId == db.tasks[t].serviceId
    && e.probeType == db.services[db.tasks[t].serviceId].kind && e.target == db.services[db.tasks[t].serviceId].target
    && e.scheduledAt == db.tasks[t].nextRunAt && e.status == Queued
    && e.startedAt == None && e.finishedAt == None && e.worker == None && e.result == None
    && e.attempts == 0 && e.duration == 0 && e.updatedAt == now
  }

  /** The task was due and is due again an interval after `now`; its configuration stays. */
  ghost predicate MovedOn(t: Task, t': Task, now: int) {
    && t'.nextRunAt == now + 1000 * t.policy.interval && t'.lastScheduledAt == Some(t.nextRunAt)
    && t'.serviceId == t.serviceId && t'.name == t.name && t'.policy == t.policy && t'.status == t.status
  }

  /** Nothing but tasks and executions has changed. */
  ghost predicate SameAssets(before: Tables, after: Tables) {
    && after.hosts == before.hosts && after.services == before.services
    && after.nextHost == before.nextHost && after.nextService == before.nextService && after.nextTask == before.nextTask
  }

  /** The transaction has given each picked task one execution of its own, announced it, and moved the task on; all
      other rows are as before. */
  ghost predicate Committed(
    before: Tables, sel: seq<nat>, ids: seq<string>, now: int, after: Tables, messages: seq<Message>)
  {
    && |ids| == |sel| == |messages| && SameAssets(before, after)
    && (forall i, j | 0 <= i < j < |ids| :: ids[i] != ids[j])
    && (forall i | 0 <= i < |ids| ::
          && ids[i] !in before.executions && ids[i] in after.executions
          && Enqueued(before, sel[i], after.executions[ids[i]], now)
          && messages[i] == Message(ids[i], sel[i], before.tasks[sel[i]].nextRunAt))
    && (forall id <- before.executions :: id in after.executions && after.executions[id] == before.executions[id])
    && (forall id <- after.executions :: id in before.executions || id in ids)
    && after.tasks.Keys == before.tasks.Keys
    && (forall t <- before.tasks ::
          if t in sel then MovedOn(before.tasks[t], after.tasks[t], now) else after.tasks[t] == before.tasks[t])
  }

  /** Row `id` still waits, and was due before the bound. */
  ghost predicate Overdue(db: Tables, before: int, id: string) {
    id in db.executions && db.executions[id].status == Queued && db.executions[id].scheduledAt < before
  }

  /** One message for each of the oldest queued executions; none is passed over unless the limit is reached. */
  ghost predicate OldestQueued(db: Tables, before: int, limit: nat, messages: seq<Message>) {
    && |messages| <= limit
    && (forall i | 0 <= i < |messages| ::
          && Overdue(db, before, messages[i].execution)
          && messages[i].task == db.executions[messages[i].execution].taskId
          && messages[i].scheduledAt == db.executions[messages[i].execution].scheduledAt)
    && (forall i, j | 0 <= i < j < |messages| ::
          messages[i].execution != messages[j].execution && messages[i].scheduledAt <= messages[j].scheduledAt)
    && (forall id | Overdue(db, before, id) && (forall i | 0 <= i < |messages| :: messages[i].execution != id) ::
          |messages| == limit
          && forall i | 0 <= i < |messages| :: messages[i].scheduledAt <= db.executions[id].scheduledAt)
  }

  lemma TopIsOldest(db: Tables, before: int, limit: nat, sel: seq<string>, messages: seq<Message>)
    requires IsTop(QueueOrder(db), QueuedIds(db, before), limit, sel) && |messages| == |sel|
    requires forall i | 0 <= i < |sel| :: messages[i] == MessageOf(db, sel[i])
    ensures OldestQueued(db, before, limit, messages)
  {
    forall i, j | 0 <= i < j < |messages| ensures messages[i].scheduledAt <= messages[j].scheduledAt {
      assert Le(QueueOrder(db)(sel[i]), QueueOrder(db)(sel[j]));
    }
    forall id | Overdue(db, before, id) && (forall i | 0 <= i < |messages| :: messages[i].execution != id)
      ensures |messages| == limit
      ensures forall i | 0 <= i < |messages| :: messages[i].scheduledAt <= db.executions[id].scheduledAt {
      assert forall i | 0 <= i < |sel| :: messages[i].execution == sel[i];
      assert id in QueuedIds(db, before) && id !in sel;
      assert AllBefore(QueueOrder(db), sel, id);
      forall i | 0 <= i < |messages| ensures messages[i].scheduledAt <= db.executions[id].scheduledAt {
        assert Le(QueueOrder(db)(sel[i]), QueueOrder(db)(id));
      }
    }
  }

  /** Nothing has changed but the execution row `id`. */
  ghost predicate OnlyRowOf(before: Tables, after: Tables, id: string) {
    && SameAssets(before, after) && after.tasks == before.tasks && after.executions.Keys == before.executions.Keys
    && forall other <- before.executions | other != id :: after.executions[other] == before.executions[other]
  }

  /** The same task, service, target and due time. */
  ghost predicate SameJob(row: Execution, row': Execution) {
    && row'.taskId == row.taskId && row'.serviceId == row.serviceId && row'.probeType == row.probeType
    && row'.target == row.target && row'.scheduledAt == row.scheduledAt
  }

  /** The row is final with this result: succeeded for a success, failed for anything else, and a message of at most
      1024 bytes. */
  ghost predicate Reports(row: Execution, result: ProbeResult, attempts: int) {
    && row.status == (if result.success then Succeeded else Failed) && row.attempts == attempts
    && row.result.Some? && row.result.value.success == result.success
    && row.result.value.httpStatus == result.httpStatus && row.result.value.errorCode == result.errorCode
    && row.result.value.errorMessage
       == if |result.errorMessage| <= 1024 then result.errorMessage else result.errorMessage[..1024]
  }

  lemma TopIsPicked(db: Tables, now: int, locked: set<nat>, batch: nat, sel: seq<nat>)
    requires IsTop(RunOrder(db), DueTasks(db, now) - locked, batch, sel)
    ensures Picked(db, now, locked, batch, sel)
  {
    forall t | MayRun(db, now, locked, t) && t !in sel
      ensures |sel| == batch && forall i | 0 <= i < |sel| :: Earlier(db, sel[i], t) {
      assert Due(db, t, now);
      assert AllBefore(RunOrder(db), sel, t);
    }
    forall i, j | 0 <= i < j < |sel| ensures Earlier(db, sel[i], sel[j]) {
      assert Le(RunOrder(db)(sel[i]), RunOrder(db)(sel[j]));
    }
  }

  lemma {:induction false} AnnouncementsAre(db: Tables, sel: seq<nat>, ids: seq<string>)
    requires |ids| == |sel|
    ensures |Announcements(db, sel, ids)| == |sel|
    ensures forall i | 0 <= i < |sel| :: Announcements(db, sel, ids)[i] == Message(ids[i], sel[i], RunTime(db, sel[i]))
    decreases |sel|
  {
    if sel != [] { AnnouncementsAre(db, sel[..|sel| - 1], ids[..|sel| - 1]); }
  }

  lemma NewRowIs(db: Tables, sel: seq<nat>, ids: seq<string>, now: int, i: nat)
    requires Schedulable(db, sel, ids, now) && i < |ids|
    ensures var tx := Scheduled(db, sel, ids, now);
      ids[i] !in db.executions && ids[i] in tx.executions && Enqueued(db, sel[i], tx.executions[ids[i]], now)
  {
    AddedAt(db, sel, ids, now, i);
  }

  lemma OldRowsStay(db: Tables, sel: seq<nat>, ids: seq<string>, now: int)
    requires Schedulable(db, sel, ids, now)
    ensures var tx := Scheduled(db, sel, ids, now);
      && (forall id <- db.executions :: id in tx.executions && tx.executions[id] == db.executions[id])
      && (forall id <- tx.executions :: id in db.executions || id in ids)
  {
    AddedKeys(db, sel, ids, now);
    forall id <- db.executions ensures id !in ids {}
  }

  lemma TaskMoved(db: Tables, sel: seq<nat>, now: int, t: nat)
    requires t in db.tasks
    ensures var t' := Moved(db, sel, now)[t];
      if t in sel then MovedOn(db.tasks[t], t', now) else t' == db.tasks[t]
  {}

  lemma TasksMoved(db: Tables, sel: seq<nat>, ids: seq<string>, now: int)
    requires Schedulable(db, sel, ids, now)
    ensures var tx := Scheduled(db, sel, ids, now);
      && tx.tasks.Keys == db.tasks.Keys
      && (forall t <- db.tasks ::
            if t in sel then MovedOn(db.tasks[t], tx.tasks[t], now) else tx.tasks[t] == db.tasks[t])
  {
    forall t <- db.tasks
      ensures var t' := Moved(db, sel, now)[t];
        if t in sel then MovedOn(db.tasks[t], t', now) else t' == db.tasks[t] {
      TaskMoved(db, sel, now, t);
    }
  }

  lemma TransactionIsCommitted(
    db: Tables, sel: seq<nat>, ids: seq<string>, now: int, tx: Tables, messages: seq<Message>)
    requires InTransaction(db, sel, ids, now, tx, messages)
    ensures Committed(db, sel, ids, now, tx, messages)
  {
    AnnouncementsAre(db, sel, ids);
    OldRowsStay(db, sel, ids, now);
    TasksMoved(db, sel, ids, now);
    forall i | 0 <= i < |ids|
      ensures ids[i] !in db.executions && ids[i] in tx.executions && Enqueued(db, sel[i], tx.executions[ids[i]], now)
      ensures messages[i] == Message(ids[i], sel[i], db.tasks[sel[i]].nextRunAt) {
      NewRowIs(db, sel, ids, now, i);
    }
  }

  lemma CommittedRow(
    db: Tables, sel: seq<nat>, ids: seq<string>, now: int, tx: Tables, messages: seq<Message>, id: string)
    requires Committed(db, sel, ids, now, tx, messages) && Schedulable(db, sel, ids, now)
    ensures id in tx.executions <==> id in Scheduled(db, sel, ids, now).executions
    ensures id in tx.executions ==> tx.executions[id] == Scheduled(db, sel, ids, now).executions[id]
  {
    OldRowsStay(db, sel, ids, now);
    if id in ids {
      var i :| 0 <= i < |ids| && ids[i] == id;
      AddedAt(db, sel, ids, now, i);
    }
  }

  lemma CommittedTasks(
    db: Tables, sel: seq<nat>, ids: seq<string>, now: int, tx: Tables, messages: seq<Message>)
    requires Committed(db, sel, ids, now, tx, messages) && Schedulable(db, sel, ids, now)
    ensures tx.tasks == Scheduled(db, sel, ids, now).tasks
  {
    TasksMoved(db, sel, ids, now);
    forall t <- db.tasks ensures tx.tasks[t] == Scheduled(db, sel, ids, now).tasks[t] {
      if t in sel { assert MovedOn(db.tasks[t], tx.tasks[t], now); }
    }
  }

  lemma CommittedIsTransaction(
    db: Tables, sel: seq<nat>, ids: seq<string>, now: int, tx: Tables, messages: seq<Message>)
    requires Committed(db, sel, ids, now, tx, messages) && Schedulable(db, sel, ids, now)
    ensures InTransaction(db, sel, ids, now, tx, messages)
  {
    CommittedMessages(db, sel, ids, now, tx, messages);
    CommittedExecutions(db, sel, ids, now, tx, messages);
    CommittedTasks(db, sel, ids, now, tx, messages);
  }

  lemma CommittedMessages(
    db: Tables, sel: seq<nat>, ids: seq<string>, now: int, tx: Tables, messages: seq<Message>)
    requires Committed(db, sel, ids, now, tx, messages) && Schedulable(db, sel, ids, now)
    ensures messages == Announcements(db, sel, ids)
  {
    AnnouncementsAre(db, sel, ids);
  }

  lemma CommittedExecutions(
    db: Tables, sel: seq<nat>, ids: seq<string>, now: int, tx: Tables, messages: seq<Message>)
    requires Committed(db, sel, ids, now, tx, messages) && Schedulable(db, sel, ids, now)
    ensures tx.executions == Scheduled(db, sel, ids, now).executions
  {
    var rows := Scheduled(db, sel, ids, now).executions;
    forall id: string ensures (id in tx.executions <==> id in rows) && (id in rows ==> tx.executions[id] == rows[id]) {
      CommittedRow(db, sel, ids, now, tx, messages, id);
    }
  }

  lemma CommittedIsSchedulable(
    db: Tables, sel: seq<nat>, ids: seq<string>, now: int, tx: Tables, messages: seq<Message>)
    requires Committed(db, sel, ids, now, tx, messages)
    requires Distinct(sel) && forall i | 0 <= i < |sel| :: Due(db, sel[i], now)
    ensures Schedulable(db, sel, ids, now)
  {}

  /** The row-by-row account leaves no choice: it holds of exactly what the transaction computes. */
  lemma CommittedIff(db: Tables, sel: seq<nat>, ids: seq<string>, now: int, tx: Tables, messages: seq<Message>)
    requires Distinct(sel) && forall i | 0 <= i < |sel| :: Due(db, sel[i], now)
    ensures Committed(db, sel, ids, now, tx, messages) <==> InTransaction(db, sel, ids, now, tx, messages)
  {
    if Committed(db, sel, ids, now, tx, messages) {
      CommittedIsSchedulable(db, sel, ids, now, tx, messages);
      CommittedIsTransaction(db, sel, ids, now, tx, messages);
    }
    if InTransaction(db, sel, ids, now, tx, messages) { TransactionIsCommitted(db, sel, ids, now, tx, messages); }
  }

  class Repository {
    const db: Database

    constructor (db: Database)
      ensures this.db == db
    {
      this.db := db;
    }

    /** The statements of the transaction for one due row. */
    static method ScheduleRow(tx: Tables, row: nat, id: string, now: int) returns (tx': Tables, message: Message)
      requires Due(tx, row, now)
      ensures tx' == tx.(executions := tx.executions[id := NewExecution(tx, row, now)],
                         tasks := tx.tasks[row := Advanced(tx.tasks[row], now)])
      ensures message == Message(id, row, tx.tasks[row].nextRunAt)
      ensures Enqueued(tx, row, tx'.executions[id], now) && MovedOn(tx.tasks[row], tx'.tasks[row], now)
    {
      var task := tx.tasks[row];
      var service := tx.services[task.serviceId];
      var execution := Execution(row, task.serviceId, service.kind, service.target, task.nextRunAt,
                                 Queued, now, None, None, None, None, 0, 0);
      var next := now + task.policy.interval * 1000;
      tx' := tx.(executions := tx.executions[id := execution],
                 tasks := tx.tasks[row := task.(lastScheduledAt := Some(task.nextRunAt), nextRunAt := next)]);
      message := Message(id, row, task.nextRunAt);
    }

    /** The loop of the transaction; None is a rollback. `healthy(k)` says whether the insert and the update for
        row `k` succeed, and after the last row whether the commit does. */
    static method ScheduleRows(
      before: Tables, rows: seq<nat>, now: int, supply: nat -> Option<RandomBytes>, healthy: nat -> bool)
      returns (tx: Option<Tables>, messages: seq<Message>, ghost ids: seq<string>)
      requires Distinct(rows) && forall i | 0 <= i < |rows| :: Due(before, rows[i], now)
      ensures |ids| <= |rows| && Drawn(ids, supply, healthy)
      ensures tx.Some? ==> InTransaction(before, rows, ids, now, tx.value, messages) && healthy(|rows|)
      ensures tx.None? ==> RolledBack(before, rows, ids, supply, healthy)
    {
      messages, ids := [], [];
      var done := before;
      NothingScheduled(before, now);
      for k := 0 to |rows|
        invariant |ids| == k && Drawn(ids, supply, healthy)
        invariant InTransaction(before, rows[..k], ids, now, done, messages)
      {
        var id := ExecutionId(supply(k));
        if id.Some? { RowJoins(before, rows, k, ids, now, done, messages, id.value); }
        if id == None || id.value in done.executions || !healthy(k) { return None, messages, ids; }
        var message;
        done, message := ScheduleRow(done, rows[k], id.value, now);
        messages := messages + [message];
        DrawnNext(ids, id.value, supply, healthy);
        ids := ids + [id.value];
      }
      assert rows[..|rows|] == rows;
      tx := if healthy(|rows|) then Some(done) else None;
    }

    /** `locked` are the due rows that another transaction holds; `supply` is the source of execution ids,
        None when the random source fails. */
    method ScheduleDue(
      batch: nat, now: int, locked: set<nat>, supply: nat -> Option<RandomBytes>, healthy: nat -> bool)
      returns (messages: seq<Message>, err: Option<Error>, ghost sel: seq<nat>, ghost ids: seq<string>)
      modifies db
      ensures Picked(old(db.tables), now, locked, batch, sel)
      ensures |ids| <= |sel| && Drawn(ids, supply, healthy)
      ensures err == None ==> Committed(old(db.tables), sel, ids, now, db.tables, messages) && healthy(|sel|)
      ensures err != None ==> db.tables == old(db.tables) && RolledBack(db.tables, sel, ids, supply, healthy)
    {
      var rows := SelectTop(RunOrder(db.tables), DueTasks(db.tables, now) - locked, batch);
      sel := rows;
      TopIsPicked(db.tables, now, locked, batch, sel);
      var tx;
      tx, messages, ids := ScheduleRows(db.tables, rows, now, supply, healthy);
      if tx.None? { return messages, Some(Unavailable), sel, ids; }
      TransactionIsCommitted(db.tables, rows, ids, now, tx.value, messages);
      db.tables := tx.value;
      err := None;
    }

    method QueuedBefore(before: int, limit: nat) returns (messages: seq<Message>, ghost sel: seq<string>)
      ensures IsTop(QueueOrder(db.tables), QueuedIds(db.tables, before), limit, sel)
      ensures |messages| == |sel|
      ensures forall i | 0 <= i < |sel| :: messages[i] == MessageOf(db.tables, sel[i])
      ensures OldestQueued(db.tables, before, limit, messages)
    {
      var rows := SelectTop(QueueOrder(db.tables), QueuedIds(db.tables, before), limit);
      sel, messages := rows, [];
      for k := 0 to |rows|
        invariant |messages| == k
        invariant forall i | 0 <= i < k :: messages[i] == MessageOf(db.tables, rows[i])
      {
        var row := db.tables.executions[rows[k]];
        messages := messages + [Message(rows[k], row.taskId, row.scheduledAt)];
      }
      TopIsOldest(db.tables, before, limit, sel, messages);
    }

    method GetWork(id: string) returns (r: Result<Work, Error>)
      ensures r.Success? <==> id in db.tables.executions && db.tables.executions[id].taskId in db.tables.tasks
      ensures r.Success? ==> r.value.execution == db.tables.executions[id]
                             && r.value.task == db.tables.tasks[r.value.execution.taskId]
      ensures r.Failure? ==> r.error == NotFound
    {
      if id !in db.tables.executions { return Failure(NotFound); }
      var execution := db.tables.executions[id];
      if execution.taskId !in db.tables.tasks { return Failure(NotFound); }
      return Success(Work(execution, db.tables.tasks[execution.taskId]));
    }

    /** `stamp` is the updated_at value that every update carries along. */
    method Acquire(id: string, consumer: string, started: int, staleBefore: int, stamp: int) returns (acquired: bool)
      modifies db
      ensures acquired <==> Acquirable(old(db.tables), id, staleBefore)
      ensures db.tables == if acquired then Acquired(old(db.tables), id, consumer, started, stamp) else old(db.tables)
      ensures acquired <==>
        && id in old(db.tables).executions
        && var row := old(db.tables).executions[id];
           row.status == Queued || (row.status == Running && row.updatedAt < staleBefore)
      ensures OnlyRowOf(old(db.tables), db.tables, id)
      ensures acquired ==>
        var row, row' := old(db.tables).executions[id], db.tables.executions[id];
        && row'.status == Running && row'.worker == Some(consumer) && row'.startedAt == Some(started)
        && row'.updatedAt == stamp && SameJob(row, row') && row'.finishedAt == row.finishedAt
        && row'.result == row.result && row'.attempts == row.attempts && row'.duration == row.duration
      ensures !acquired ==> db.tables == old(db.tables)
    {
      if id in db.tables.executions {
        var row := db.tables.executions[id];
        if row.status == Queued || (row.status == Running && row.updatedAt < staleBefore) {
          row := row.(status := Running, startedAt := Some(started), worker := Some(consumer), updatedAt := stamp);
          db.tables := db.tables.(executions := db.tables.executions[id := row]);
          return true;
        }
      }
      return false;
    }

    method MarkFinal(id: string, consumer: string, finished: int, result: ProbeResult, attempts: int,
                     duration: int, stamp: int)
      returns (err: Option<Error>)
      modifies db
      ensures err == if Finalisable(old(db.tables), id, consumer) then None else Some(Conflict)
      ensures db.tables == if err == None then
              Finalised(old(db.tables), id, finished, result, attempts, duration, stamp)
                                          else old(db.tables)
      ensures err == None <==>
        && id in old(db.tables).executions && old(db.tables).executions[id].status == Running
        && old(db.tables).executions[id].worker == Some(consumer)
      ensures err != None ==> err == Some(Conflict) && db.tables == old(db.tables)
      ensures OnlyRowOf(old(db.tables), db.tables, id)
      ensures err == None ==>
        var row, row' := old(db.tables).executions[id], db.tables.executions[id];
        && SameJob(row, row') && row'.worker == Some(consumer) && row'.startedAt == row.startedAt
        && Reports(row', result, attempts) && row'.finishedAt == Some(finished) && row'.duration == duration
        && row'.updatedAt == stamp
    {
      var status := Failed;
      if result.success { status := Succeeded; }
      if id in db.tables.executions {
        var row := db.tables.executions[id];
        if row.status == Running && row.worker == Some(consumer) {
          row := row.(status := status, finishedAt := Some(finished), attempts := attempts, duration := duration,
                     updatedAt := stamp,
                     result := Some(result.(errorMessage := Truncate(result.errorMessage, 1024))));
          db.tables := db.tables.(executions := db.tables.executions[id := row]);
          return None;
        }
      }
      return Some(Conflict);
    }
  }

  /** The loop of ScheduleDue part of the way through: its transaction holds exactly the rows in `sel`. */
  ghost predicate InTransaction(
    db: Tables, sel: seq<nat>, ids: seq<string>, now: int, tx: Tables, messages: seq<Message>)
  {
    && Schedulable(db, sel, ids, now)
    && tx == Scheduled(db, sel, ids, now)
    && messages == Announcements(db, sel, ids)
  }

  lemma NothingScheduled(db: Tables, now: int)
    ensures InTransaction(db, [], [], now, db, [])
  {
    var tx := Scheduled(db, [], [], now);
    assert tx.tasks == db.tasks && tx.executions == db.executions;
  }

  lemma NameClash(db: Tables, sel: seq<nat>, ids: seq<string>, now: int, tx: Tables, messages: seq<Message>, id: string)
    requires InTransaction(db, sel, ids, now, tx, messages)
    ensures id in tx.executions <==> id in db.executions || id in ids
  {
    if id in ids {
      var i :| 0 <= i < |ids| && ids[i] == id;
      assert ids[i] in tx.executions;
    }
  }

  lemma RowUntouched(
    db: Tables, sel: seq<nat>, ids: seq<string>, now: int, tx: Tables, messages: seq<Message>, next: nat)
    requires InTransaction(db, sel, ids, now, tx, messages)
    requires Due(db, next, now) && next !in sel
    ensures Due(tx, next, now) && tx.tasks[next] == db.tasks[next]
    ensures NewExecution(tx, next, now) == NewExecution(db, next, now)
  {}

  function Added(db: Tables, sel: seq<nat>, ids: seq<string>, now: int): map<string, Execution>
    requires Schedulable(db, sel, ids, now)
  {
    map i | 0 <= i < |sel| :: ids[i] := NewExecution(db, sel[i], now)
  }

  lemma AddedKeys(db: Tables, sel: seq<nat>, ids: seq<string>, now: int)
    requires Schedulable(db, sel, ids, now)
    ensures forall e :: e in Added(db, sel, ids, now) <==> e in ids
  {
    forall e <- ids ensures e in Added(db, sel, ids, now) { var i :| 0 <= i < |ids| && ids[i] == e; }
  }

  lemma AddedAt(db: Tables, sel: seq<nat>, ids: seq<string>, now: int, i: nat)
    requires Schedulable(db, sel, ids, now) && i < |sel|
    ensures ids[i] in Added(db, sel, ids, now) && Added(db, sel, ids, now)[ids[i]] == NewExecution(db, sel[i], now)
  {}

  lemma AddedGrows(db: Tables, sel: seq<nat>, ids: seq<string>, now: int, next: nat, id: string)
    requires Schedulable(db, sel, ids, now) && Schedulable(db, sel + [next], ids + [id], now) && Due(db, next, now)
    ensures Added(db, sel + [next], ids + [id], now) == Added(db, sel, ids, now)[id := NewExecution(db, next, now)]
  {
    var sel', ids' := sel + [next], ids + [id];
    var one := Added(db, sel, ids, now)[id := NewExecution(db, next, now)];
    var two := Added(db, sel', ids', now);
    AddedKeys(db, sel, ids, now);
    AddedKeys(db, sel', ids', now);
    forall e ensures e in one <==> e in two { assert e in ids' <==> e in ids || e == id; }
    forall e | e in two ensures one[e] == two[e] { AddedSame(db, sel, ids, now, next, id, e); }
  }

  lemma AddedSame(db: Tables, sel: seq<nat>, ids: seq<string>, now: int, next: nat, id: string, e: string)
    requires Schedulable(db, sel, ids, now) && Schedulable(db, sel + [next], ids + [id], now) && Due(db, next, now)
    requires e in ids + [id]
    ensures e in Added(db, sel + [next], ids + [id], now) && (e != id ==> e in Added(db, sel, ids, now))
    ensures Added(db, sel + [next], ids + [id], now)[e]
         == if e == id then NewExecution(db, next, now) else Added(db, sel, ids, now)[e]
  {
    var i :| 0 <= i < |ids| + 1 && (ids + [id])[i] == e;
    AddedAt(db, sel + [next], ids + [id], now, i);
    if i < |ids| {
      AddedAt(db, sel, ids, now, i);
      assert ids[i] != (ids + [id])[|ids|];
    }
  }

  lemma MovedGrows(db: Tables, sel: seq<nat>, now: int, next: nat)
    requires next in db.tasks && next !in sel
    ensures Moved(db, sel + [next], now) == Moved(db, sel, now)[next := Advanced(db.tasks[next], now)]
  {
    assert forall id :: id in sel + [next] <==> id in sel || id == next;
  }

  lemma StillSchedulable(db: Tables, sel: seq<nat>, ids: seq<string>, now: int, next: nat, id: string)
    requires Schedulable(db, sel, ids, now) && Due(db, next, now) && next !in sel
    requires id !in db.executions && id !in ids
    ensures Schedulable(db, sel + [next], ids + [id], now)
  {}

  lemma AnnouncementsGrow(db: Tables, sel: seq<nat>, ids: seq<string>, next: nat, id: string)
    requires |ids| == |sel|
    ensures Announcements(db, sel + [next], ids + [id])
            == Announcements(db, sel, ids) + [Message(id, next, RunTime(db, next))]
  {
    assert (sel + [next])[..|sel|] == sel && (ids + [id])[..|sel|] == ids;
  }

  lemma TakeOneMore<T>(s: seq<T>, k: nat)
    requires k < |s|
    ensures s[..k + 1] == s[..k] + [s[k]]
  {}

  lemma UpdateOfUnion<K, V>(a: map<K, V>, b: map<K, V>, k: K, v: V)
    ensures a + b[k := v] == (a + b)[k := v]
  {}

  lemma ScheduledGrows(db: Tables, sel: seq<nat>, ids: seq<string>, now: int, next: nat, id: string)
    requires Schedulable(db, sel, ids, now) && Schedulable(db, sel + [next], ids + [id], now)
    requires Due(db, next, now) && next !in sel
    ensures var tx := Scheduled(db, sel, ids, now);
      Scheduled(db, sel + [next], ids + [id], now)
      == tx.(executions := tx.executions[id := NewExecution(db, next, now)],
             tasks := tx.tasks[next := Advanced(db.tasks[next], now)])
  {
    AddedGrows(db, sel, ids, now, next, id);
    MovedGrows(db, sel, now, next);
    UpdateOfUnion(db.executions, Added(db, sel, ids, now), id, NewExecution(db, next, now));
  }

  /** Scheduling one more row extends the transaction by exactly that row. */
  lemma RowScheduled(
    db: Tables, sel: seq<nat>, ids: seq<string>, now: int, tx: Tables, messages: seq<Message>, next: nat, id: string)
    requires InTransaction(db, sel, ids, now, tx, messages)
    requires Due(db, next, now) && next !in sel && id !in tx.executions
    ensures InTransaction(db, sel + [next], ids + [id], now,
                          tx.(executions := tx.executions[id := NewExecution(db, next, now)],
                              tasks := tx.tasks[next := Advanced(db.tasks[next], now)]),
                          messages + [Message(id, next, RunTime(db, next))])
  {
    NameClash(db, sel, ids, now, tx, messages, id);
    StillSchedulable(db, sel, ids, now, next, id);
    ScheduledGrows(db, sel, ids, now, next, id);
    AnnouncementsGrow(db, sel, ids, next, id);
  }

  /** One round of the loop of ScheduleRows. */
  lemma RowJoins(
    db: Tables, rows: seq<nat>, k: nat, ids: seq<string>, now: int, tx: Tables, messages: seq<Message>, id: string)
    requires k < |rows| && Distinct(rows) && Due(db, rows[k], now)
    requires InTransaction(db, rows[..k], ids, now, tx, messages)
    ensures id in tx.executions <==> id in db.executions || id in ids
    ensures Due(tx, rows[k], now)
    ensures id !in tx.executions ==>
      InTransaction(db, rows[..k + 1], ids + [id], now,
                    tx.(executions := tx.executions[id := NewExecution(tx, rows[k], now)],
                        tasks := tx.tasks[rows[k] := Advanced(tx.tasks[rows[k]], now)]),
                    messages + [Message(id, rows[k], tx.tasks[rows[k]].nextRunAt)])
  {
    NameClash(db, rows[..k], ids, now, tx, messages, id);
    RowUntouched(db, rows[..k], ids, now, tx, messages, rows[k]);
    if id !in tx.executions {
      TakeOneMore(rows, k);
      RowScheduled(db, rows[..k], ids, now, tx, messages, rows[k], id);
    }
  }
}
