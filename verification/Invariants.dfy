/** What every run of the execution protocol keeps: nothing is stranded, an acknowledged message is a
    finished execution, and an execution is finished at most once. */
module Invariants {
  import opened Wrappers
  import opened Schema
  import opened ProbeRepository
  import opened Ranking
  import opened Protocol
  import Lifecycle

  predicate IsFinal(db: Tables, id: string) { id in db.executions && db.executions[id].Final() }

  ghost predicate RowOk(db: Tables, e: Execution) {
    && e.taskId in db.tasks && e.serviceId in db.services
    && Supported(e.probeType)
    && StatusTells(e)
  }

  /** The columns agree with the status: who works on the row and since when, and what came out of it. */
  predicate StatusTells(e: Execution) {
    && (e.worker.Some? <==> e.status != Queued) && (e.startedAt.Some? <==> e.status != Queued)
    && (e.finishedAt.Some? <==> e.Final()) && (e.result.Some? <==> e.Final())
    && (e.result.Some? ==> (e.result.value.success <==> e.status == Succeeded))
  }

  ghost predicate RowsOk(db: Tables) {
    Lifecycle.Chain(db) && forall id <- db.executions :: RowOk(db, db.executions[id])
  }

  ghost predicate Known(db: Tables, m: Message) {
    m.execution in db.executions && m == MessageOf(db, m.execution)
  }

  /** Every message names a committed row. */
  ghost predicate MessagesKnown(s: State) {
    (forall i | 0 <= i < |s.stream| :: Known(s.db, s.stream[i])) && (forall m <- s.outbox :: Known(s.db, m))
  }

  /** A delivered entry is either pending or acknowledged, and nothing else is. */
  ghost predicate GroupOk(s: State) {
    && s.cursor <= |s.stream|
    && (forall i: nat :: i in s.pending || i in s.acked <==> i < s.cursor)
    && s.pending.Keys !! s.acked
  }

  /** Processes hold delivered entries only. */
  ghost predicate HeldDelivered(s: State) {
    && (forall c: string, k: nat :: !At(s, c, k).Idle? ==> At(s, c, k).entry < s.cursor)
    && (forall c <- s.processes, i <- s.processes[c].inbox :: i < s.cursor)
  }

  ghost predicate AckedFinal(s: State) {
    && (forall i <- s.acked :: IsFinal(s.db, Named(s, i)))
    && (forall c: string, k: nat :: At(s, c, k).Done? ==> IsFinal(s.db, Named(s, At(s, c, k).entry)))
  }

  ghost predicate DeliveredOnce(s: State, id: string) { exists i: nat :: i < s.cursor && Named(s, i) == id }

  ghost predicate StartedDelivered(s: State) {
    forall id <- s.db.executions | s.db.executions[id].status != Queued :: DeliveredOnce(s, id)
  }

  predicate HasWork(l: Local) { l.Read? || l.Clocked? || l.Probing? || l.Finished? }

  /** The snapshot a worker holds agrees with the row on what never changes. */
  ghost predicate SnapshotsOk(s: State) {
    forall c: string, k: nat :: SnapshotOk(s, c, k)
  }

  /** The execution row as the worker read it. */
  function SnapshotOf(l: Local): Option<Execution> {
    if l.Found? then Some(l.execution) else if HasWork(l) then Some(l.work.execution) else None
  }

  ghost predicate SnapshotOk(s: State, c: string, k: nat) {
    && (SnapshotOf(At(s, c, k)).Some? ==>
           SnapshotMoved(s.db, Named(s, At(s, c, k).entry), SnapshotOf(At(s, c, k)).value))
    && (HasWork(At(s, c, k)) ==> Lifecycle.ValidPolicy(At(s, c, k).work.task.policy))
  }

  ghost predicate SnapshotMoved(db: Tables, id: string, e: Execution) {
    id in db.executions && RowMoves(e, db.executions[id])
  }

  ghost predicate Inv(s: State) {
    RowsOk(s.db) && MessagesKnown(s) && GroupOk(s) && HeldDelivered(s) && AckedFinal(s) && StartedDelivered(s)
    && SnapshotsOk(s)
  }

  // ---------- how one row may change ----------

  function Rank(status: ExecutionStatus): nat {
    match status case Queued => 0 case Running => 1 case Succeeded => 2 case Failed => 2
  }

  /** A row keeps its identity, its status never goes back, and once final it never changes. */
  ghost predicate RowMoves(e: Execution, e': Execution) {
    && e'.taskId == e.taskId && e'.serviceId == e.serviceId && e'.probeType == e.probeType
    && e'.target == e.target && e'.scheduledAt == e.scheduledAt
    && Rank(e.status) <= Rank(e'.status)
    && (e.Final() ==> e' == e)
  }

  ghost predicate DbMoves(db: Tables, db': Tables) {
    && (forall id <- db.executions :: id in db'.executions && RowMoves(db.executions[id], db'.executions[id]))
    && (forall t <- db.tasks :: t in db'.tasks)
  }

  lemma DbMovesTwice(a: Tables, b: Tables, c: Tables)
    requires DbMoves(a, b) && DbMoves(b, c)
    ensures DbMoves(a, c)
  {}

  lemma ScheduledFacts(db: Tables, sel: seq<nat>, ids: seq<string>, now: int)
    requires Schedulable(db, sel, ids, now)
    ensures var db' := Scheduled(db, sel, ids, now);
      && (forall id <- db.executions :: id in db'.executions && db'.executions[id] == db.executions[id])
      && (forall i | 0 <= i < |ids| :: ids[i] in db'.executions &&
            db'.executions[ids[i]] == NewExecution(db, sel[i], now))
      && (forall id <- db'.executions :: id in db.executions || id in ids)
      && db'.tasks.Keys == db.tasks.Keys
  {
    var added := Added(db, sel, ids, now);
    forall i | 0 <= i < |ids| ensures ids[i] in added && added[ids[i]] == NewExecution(db, sel[i], now) {}
  }

  /** The steps that write to the database. */
  predicate Writes(step: Step) { step.Edit? || step.Schedule? || step.Acquire? || step.MarkFinal? }

  lemma OthersLeaveDb(cfg: Config, s: State, step: Step)
    requires Enabled(cfg, s, step) && !Writes(step)
    ensures Apply(cfg, s, step).db == s.db
  {}

  lemma AcquireMovesRows(cfg: Config, s: State, c: string, k: nat, stamp: int)
    requires At(s, c, k).Clocked?
    ensures DbMoves(s.db, AfterAcquire(cfg, s, c, k, stamp).db)
  {}

  lemma MarkFinalMovesRows(s: State, c: string, k: nat, stamp: int)
    requires At(s, c, k).Finished?
    ensures DbMoves(s.db, AfterMarkFinal(s, c, k, stamp).db)
  {}

  lemma StepMovesRows(cfg: Config, s: State, step: Step)
    requires RowsOk(s.db) && Enabled(cfg, s, step)
    ensures DbMoves(s.db, Apply(cfg, s, step).db)
  {
    if step.Edit? {
      Lifecycle.ApplySucceeds(cfg.rules, s.db, step.op);
    } else if step.Schedule? {
      ScheduledFacts(s.db, step.sel, step.ids, step.at);
    } else if step.Acquire? {
      AcquireMovesRows(cfg, s, step.c, step.k, step.stamp);
    } else if step.MarkFinal? {
      MarkFinalMovesRows(s, step.c, step.k, step.stamp);
    } else {
      OthersLeaveDb(cfg, s, step);
    }
  }

  // ---------- each part of the invariant is kept by every step ----------

  lemma RowsKept(cfg: Config, s: State, step: Step)
    requires RowsOk(s.db) && Enabled(cfg, s, step)
    ensures RowsOk(Apply(cfg, s, step).db)
  {
    if step.Edit? {
      Lifecycle.ApplySucceeds(cfg.rules, s.db, step.op);
      Lifecycle.ApplyKeepsChain(cfg.rules, s.db, step.op);
    } else if step.Schedule? {
      ScheduledRowsOk(s.db, step.sel, step.ids, step.at);
    } else if step.Acquire? {
      AcquireKeepsRows(cfg, s, step.c, step.k, step.stamp);
    } else if step.MarkFinal? {
      MarkFinalKeepsRows(s, step.c, step.k, step.stamp);
    } else {
      OthersLeaveDb(cfg, s, step);
    }
  }

  lemma AcquireKeepsRows(cfg: Config, s: State, c: string, k: nat, stamp: int)
    requires RowsOk(s.db) && At(s, c, k).Clocked?
    ensures RowsOk(AfterAcquire(cfg, s, c, k, stamp).db)
  {}

  lemma MarkFinalKeepsRows(s: State, c: string, k: nat, stamp: int)
    requires RowsOk(s.db) && At(s, c, k).Finished?
    ensures RowsOk(AfterMarkFinal(s, c, k, stamp).db)
  {}

  lemma NewRowOk(db: Tables, db': Tables, row: nat, now: int)
    requires Lifecycle.Chain(db) && Due(db, row, now) && db'.tasks.Keys == db.tasks.Keys
    requires db'.services.Keys == db.services.Keys
    ensures RowOk(db', NewExecution(db, row, now))
  {
    assert Lifecycle.ServiceLinked(db, db.services[db.tasks[row].serviceId]);
  }

  lemma ScheduledChainOk(db: Tables, sel: seq<nat>, ids: seq<string>, now: int)
    requires Lifecycle.Chain(db) && Schedulable(db, sel, ids, now)
    ensures Lifecycle.Chain(Scheduled(db, sel, ids, now))
  {
    var db' := Scheduled(db, sel, ids, now);
    forall t <- db'.tasks ensures t < db'.nextTask && Lifecycle.TaskLinked(db', db'.tasks[t]) {
      assert Lifecycle.TaskLinked(db, db.tasks[t]);
    }
    forall v <- db'.services ensures v < db'.nextService && Lifecycle.ServiceLinked(db', db'.services[v]) {
      assert Lifecycle.ServiceLinked(db, db.services[v]);
    }
  }

  lemma ScheduledRowsOk(db: Tables, sel: seq<nat>, ids: seq<string>, now: int)
    requires RowsOk(db) && Schedulable(db, sel, ids, now)
    ensures RowsOk(Scheduled(db, sel, ids, now))
  {
    ScheduledFacts(db, sel, ids, now);
    ScheduledChainOk(db, sel, ids, now);
    var db' := Scheduled(db, sel, ids, now);
    forall id <- db'.executions ensures RowOk(db', db'.executions[id]) {
      if id in db.executions {
        assert RowOk(db, db.executions[id]);
      } else {
        var i :| 0 <= i < |ids| && ids[i] == id;
        NewRowOk(db, db', sel[i], now);
      }
    }
  }

  lemma {:induction false} AnnouncedIndex(db: Tables, sel: seq<nat>, ids: seq<string>, m: Message) returns (i: nat)
    requires |ids| == |sel| && m in Announcements(db, sel, ids)
    ensures i < |sel| && m == Message(ids[i], sel[i], RunTime(db, sel[i]))
  {
    var n := |sel| - 1;
    if m in Announcements(db, sel[..n], ids[..n]) {
      i := AnnouncedIndex(db, sel[..n], ids[..n], m);
    } else {
      i := n;
    }
  }

  lemma {:induction false} ReminderKnown(db: Tables, queued: seq<string>, m: Message)
    requires forall i | 0 <= i < |queued| :: queued[i] in db.executions
    requires m in Reminders(db, queued)
    ensures Known(db, m)
  {
    if m != MessageOf(db, queued[0]) {
      ReminderKnown(db, queued[1..], m);
    }
  }

  lemma KnownMoves(db: Tables, db': Tables, m: Message)
    requires DbMoves(db, db') && Known(db, m)
    ensures Known(db', m)
  {}

  lemma MessagesKept(cfg: Config, s: State, step: Step)
    requires RowsOk(s.db) && MessagesKnown(s) && Enabled(cfg, s, step)
    ensures MessagesKnown(Apply(cfg, s, step))
  {
    StepMovesRows(cfg, s, step);
    var s' := Apply(cfg, s, step);
    StreamSteps(cfg, s, step);
    forall i | 0 <= i < |s'.stream| ensures Known(s'.db, s'.stream[i]) {
      KnownMoves(s.db, s'.db, s'.stream[i]);
    }
    forall m <- s'.outbox ensures Known(s'.db, m) {
      if m in s.outbox {
        KnownMoves(s.db, s'.db, m);
      } else {
        NewMessageKnown(cfg, s, step, m);
      }
    }
  }

  lemma NewMessageKnown(cfg: Config, s: State, step: Step, m: Message)
    requires Enabled(cfg, s, step) && m in Apply(cfg, s, step).outbox && m !in s.outbox
    ensures Known(Apply(cfg, s, step).db, m)
  {
    OutboxSteps(cfg, s, step, m);
    if step.Schedule? {
      AnnouncedKnown(s.db, step.sel, step.ids, step.at, m);
    } else {
      ReminderKnown(s.db, step.queued, m);
    }
  }

  lemma AnnouncedKnown(db: Tables, sel: seq<nat>, ids: seq<string>, now: int, m: Message)
    requires Schedulable(db, sel, ids, now) && m in Announcements(db, sel, ids)
    ensures Known(Scheduled(db, sel, ids, now), m)
  {
    var i := AnnouncedIndex(db, sel, ids, m);
    ScheduledFacts(db, sel, ids, now);
  }

  /** The stream only grows, at its end, by messages from the outbox. */
  lemma StreamSteps(cfg: Config, s: State, step: Step)
    requires Enabled(cfg, s, step)
    ensures var s' := Apply(cfg, s, step);
      if step.Publish? then s'.stream == s.stream + [step.message] && step.message in s.outbox
      else s'.stream == s.stream
    ensures s.cursor <= Apply(cfg, s, step).cursor
  {}

  lemma OutboxSteps(cfg: Config, s: State, step: Step, m: Message)
    requires Enabled(cfg, s, step) && m in Apply(cfg, s, step).outbox && m !in s.outbox
    ensures (step.Schedule? && m in Announcements(s.db, step.sel, step.ids))
         || (step.Recover? && m in Reminders(s.db, step.queued))
  {}

  lemma GroupKept(cfg: Config, s: State, step: Step)
    requires GroupOk(s) && HeldDelivered(s) && Enabled(cfg, s, step)
    ensures GroupOk(Apply(cfg, s, step))
  {
    if !ByWorker(step) { GroupKeptOutside(cfg, s, step); }
  }

  lemma GroupKeptOutside(cfg: Config, s: State, step: Step)
    requires GroupOk(s) && !ByWorker(step) && Enabled(cfg, s, step)
    ensures GroupOk(Apply(cfg, s, step))
  {}

  /** The step is one of worker (c, k)'s own. */
  predicate Acts(step: Step, c: string, k: nat) { ByWorker(step) && step.c == c && step.k == k }

  predicate ByWorker(step: Step) {
    step.Take? || step.GetWork? || step.GetTask? || step.ReadClock? || step.Acquire? || step.Probe? || step.MarkFinal?
    || step.Ack? || step.Abandon?
  }

  /** Where worker (c, k) stands after a step of its own. */
  function NextLocal(cfg: Config, s: State, step: Step, c: string, k: nat): Local
    requires Acts(step, c, k)
  {
    var l := At(s, c, k);
    match step
    case Take(_, _, i) => Holding(i)
    case GetWork(_, _) => if l.Idle? then Idle else AfterGetWork(s, l.entry)
    case GetTask(_, _) => if l.Found? then AfterGetTask(s, l.entry, l.execution) else Idle
    case ReadClock(_, _) => if l.Read? then Clocked(l.entry, l.work, s.now) else Idle
    case Acquire(_, _, stamp) =>
      if l.Clocked? && Acquirable(s.db, Named(s, l.entry), l.at - cfg.idle) && Supported(l.work.execution.probeType)
      then Probing(l.entry, l.work, stamp) else Idle
    case Probe(_, _, result, attempts, duration) =>
      if l.Probing? then Finished(l.entry, l.work, l.stamp, s.now, result, attempts, duration) else Idle
    case MarkFinal(_, _, _) =>
      if l.Finished? && Finalisable(s.db, Named(s, l.entry), c) then Done(l.entry) else Idle
    case _ => Idle
  }

  lemma OwnSlot(cfg: Config, s: State, step: Step, c: string, k: nat)
    requires Enabled(cfg, s, step) && Acts(step, c, k)
    ensures At(Apply(cfg, s, step), c, k) == NextLocal(cfg, s, step, c, k)
  {
    if step.Acquire? || step.MarkFinal? { OwnSlotDuringUpdate(cfg, s, step, c, k); }
  }

  lemma OwnSlotDuringUpdate(cfg: Config, s: State, step: Step, c: string, k: nat)
    requires Enabled(cfg, s, step) && Acts(step, c, k) && (step.Acquire? || step.MarkFinal?)
    ensures At(Apply(cfg, s, step), c, k) == NextLocal(cfg, s, step, c, k)
  {}

  lemma OtherWorkersSlot(cfg: Config, s: State, step: Step, c: string, k: nat)
    requires ByWorker(step) && Enabled(cfg, s, step) && !Acts(step, c, k)
    ensures At(Apply(cfg, s, step), c, k) == At(s, c, k)
  {
    if step.Acquire? || step.MarkFinal? { OthersDuringUpdate(cfg, s, step, c, k); }
  }

  lemma OthersDuringUpdate(cfg: Config, s: State, step: Step, c: string, k: nat)
    requires (step.Acquire? || step.MarkFinal?) && Enabled(cfg, s, step) && !Acts(step, c, k)
    ensures At(Apply(cfg, s, step), c, k) == At(s, c, k)
  {}

  lemma SlotOutside(cfg: Config, s: State, step: Step, c: string, k: nat)
    requires !ByWorker(step) && Enabled(cfg, s, step)
    ensures At(Apply(cfg, s, step), c, k) == if step == Crash(c) then Idle else At(s, c, k)
  {}

  lemma OtherSlot(cfg: Config, s: State, step: Step, c: string, k: nat)
    requires Enabled(cfg, s, step) && !Acts(step, c, k)
    ensures At(Apply(cfg, s, step), c, k) == if step == Crash(c) then Idle else At(s, c, k)
  {
    if ByWorker(step) { OtherWorkersSlot(cfg, s, step, c, k); } else { SlotOutside(cfg, s, step, c, k); }
  }

  /** Between its own steps a worker stands still, unless its process stops. */
  lemma SlotSteps(cfg: Config, s: State, step: Step, c: string, k: nat)
    requires Enabled(cfg, s, step)
    ensures At(Apply(cfg, s, step), c, k)
            == if Acts(step, c, k) then NextLocal(cfg, s, step, c, k)
               else if step == Crash(c) then Idle
               else At(s, c, k)
  {
    if Acts(step, c, k) { OwnSlot(cfg, s, step, c, k); } else { OtherSlot(cfg, s, step, c, k); }
  }

  lemma HeldKept(cfg: Config, s: State, step: Step)
    requires GroupOk(s) && HeldDelivered(s) && Enabled(cfg, s, step)
    ensures HeldDelivered(Apply(cfg, s, step))
  {
    var s' := Apply(cfg, s, step);
    StreamSteps(cfg, s, step);
    forall c: string, k: nat | !At(s', c, k).Idle? ensures At(s', c, k).entry < s'.cursor {
      SlotSteps(cfg, s, step, c, k);
      if step.Take? { assert step.entry in s.processes[step.c].inbox; }
    }
    forall c <- s'.processes, i <- s'.processes[c].inbox ensures i < s'.cursor {
      InboxSteps(cfg, s, step, c, i);
    }
  }

  lemma InboxSteps(cfg: Config, s: State, step: Step, c: string, i: nat)
    requires Enabled(cfg, s, step) && c in Apply(cfg, s, step).processes && i in Apply(cfg, s, step).processes[c].inbox
    ensures (c in s.processes && i in s.processes[c].inbox)
         || (step == Deliver(c) && i == s.cursor) || (step == Claim(c, i) && i in s.pending)
  {}

  lemma FinalStays(cfg: Config, s: State, step: Step, i: nat)
    requires RowsOk(s.db) && MessagesKnown(s) && Enabled(cfg, s, step) && i < |s.stream| && IsFinal(s.db, Named(s, i))
    ensures IsFinal(Apply(cfg, s, step).db, Named(Apply(cfg, s, step), i))
  {
    StepMovesRows(cfg, s, step);
    StreamSteps(cfg, s, step);
  }

  lemma AckedSteps(cfg: Config, s: State, step: Step, i: nat)
    requires Enabled(cfg, s, step) && i in Apply(cfg, s, step).acked
    ensures i in s.acked || (step.Ack? && At(s, step.c, step.k) == Done(i))
  {}

  /** A worker is done with an execution that was final when it read it, or that it finalised itself. */
  lemma DoneSteps(cfg: Config, s: State, step: Step, c: string, k: nat)
    requires Enabled(cfg, s, step) && At(Apply(cfg, s, step), c, k).Done?
    ensures var l := At(s, c, k);
      && !l.Idle? && At(Apply(cfg, s, step), c, k).entry == l.entry
      && (l.Done? || (l.Found? && l.execution.Final())
          || (step.MarkFinal? && Acts(step, c, k) && Finalisable(s.db, Named(s, l.entry), c)))
  {
    SlotSteps(cfg, s, step, c, k);
  }

  lemma MarkedIsFinal(cfg: Config, s: State, step: Step)
    requires Enabled(cfg, s, step) && step.MarkFinal?
    requires Finalisable(s.db, Named(s, At(s, step.c, step.k).entry), step.c)
    ensures IsFinal(Apply(cfg, s, step).db, Named(Apply(cfg, s, step), At(s, step.c, step.k).entry))
  {
    StreamSteps(cfg, s, step);
  }

  lemma DoneKept(cfg: Config, s: State, step: Step, c: string, k: nat)
    requires RowsOk(s.db) && MessagesKnown(s) && GroupOk(s) && HeldDelivered(s) && AckedFinal(s)
    requires Enabled(cfg, s, step)
    requires SnapshotOk(s, c, k) && At(Apply(cfg, s, step), c, k).Done?
    ensures IsFinal(Apply(cfg, s, step).db, Named(Apply(cfg, s, step), At(Apply(cfg, s, step), c, k).entry))
  {
    DoneSteps(cfg, s, step, c, k);
    var l := At(s, c, k);
    assert l.entry < s.cursor;
    if l.Done? || (l.Found? && l.execution.Final()) {
      FinalStays(cfg, s, step, l.entry);
    } else {
      MarkedIsFinal(cfg, s, step);
    }
  }

  lemma AckedKept(cfg: Config, s: State, step: Step)
    requires RowsOk(s.db) && MessagesKnown(s) && GroupOk(s) && HeldDelivered(s) && AckedFinal(s)
    requires Enabled(cfg, s, step)
    requires SnapshotsOk(s)
    ensures AckedFinal(Apply(cfg, s, step))
  {
    var s' := Apply(cfg, s, step);
    forall i <- s'.acked ensures IsFinal(s'.db, Named(s', i)) {
      AckedSteps(cfg, s, step, i);
      FinalStays(cfg, s, step, i);
    }
    forall c: string, k: nat | At(s', c, k).Done? ensures IsFinal(s'.db, Named(s', At(s', c, k).entry)) {
      assert SnapshotOk(s, c, k);
      DoneKept(cfg, s, step, c, k);
    }
  }

  lemma NewlyStartedByUpdate(cfg: Config, s: State, step: Step, id: string)
    requires Enabled(cfg, s, step) && (step.Acquire? || step.MarkFinal?)
    requires id in Apply(cfg, s, step).db.executions && Apply(cfg, s, step).db.executions[id].status != Queued
    ensures (id in s.db.executions && s.db.executions[id].status != Queued)
         || (step.Acquire? && At(s, step.c, step.k).Clocked? && Named(s, At(s, step.c, step.k).entry) == id)
  {}

  lemma NewlyStarted(cfg: Config, s: State, step: Step, id: string)
    requires RowsOk(s.db) && Enabled(cfg, s, step)
    requires id in Apply(cfg, s, step).db.executions && Apply(cfg, s, step).db.executions[id].status != Queued
    ensures (id in s.db.executions && s.db.executions[id].status != Queued)
         || (step.Acquire? && At(s, step.c, step.k).Clocked? && Named(s, At(s, step.c, step.k).entry) == id)
  {
    if step.Edit? {
      Lifecycle.ApplySucceeds(cfg.rules, s.db, step.op);
    } else if step.Schedule? {
      ScheduledFacts(s.db, step.sel, step.ids, step.at);
    } else if step.Acquire? || step.MarkFinal? {
      NewlyStartedByUpdate(cfg, s, step, id);
    } else {
      OthersLeaveDb(cfg, s, step);
    }
  }

  lemma NamesStay(cfg: Config, s: State, step: Step, i: nat)
    requires Enabled(cfg, s, step) && i < |s.stream|
    ensures Named(Apply(cfg, s, step), i) == Named(s, i)
  {
    StreamSteps(cfg, s, step);
  }

  lemma DeliveredStays(cfg: Config, s: State, step: Step, i: nat)
    requires Enabled(cfg, s, step) && i < s.cursor <= |s.stream|
    ensures DeliveredOnce(Apply(cfg, s, step), Named(s, i))
  {
    NamesStay(cfg, s, step, i);
    StreamSteps(cfg, s, step);
  }

  lemma StartedKept(cfg: Config, s: State, step: Step)
    requires RowsOk(s.db) && GroupOk(s) && HeldDelivered(s) && StartedDelivered(s) && Enabled(cfg, s, step)
    ensures StartedDelivered(Apply(cfg, s, step))
  {
    var s' := Apply(cfg, s, step);
    forall id <- s'.db.executions | s'.db.executions[id].status != Queued ensures DeliveredOnce(s', id) {
      NewlyStarted(cfg, s, step, id);
      if id in s.db.executions && s.db.executions[id].status != Queued {
        var i: nat :| i < s.cursor && Named(s, i) == id;
        DeliveredStays(cfg, s, step, i);
      } else {
        DeliveredStays(cfg, s, step, At(s, step.c, step.k).entry);
      }
    }
  }

  /** What GetWork returns when nothing changes between its two reads. */
  predicate JustRead(db: Tables, id: string, work: Work) {
    && id in db.executions && work.execution == db.executions[id]
    && work.execution.taskId in db.tasks && work.task == db.tasks[work.execution.taskId]
  }

  /** A snapshot is read by GetWork, and is then carried along. */
  lemma SnapshotSteps(cfg: Config, s: State, step: Step, c: string, k: nat)
    requires Enabled(cfg, s, step) && SnapshotOf(At(Apply(cfg, s, step), c, k)).Some?
    ensures var l, l' := At(s, c, k), At(Apply(cfg, s, step), c, k);
      && !l.Idle? && l'.entry == l.entry
      && (SnapshotOf(l) == SnapshotOf(l')
          || (Named(s, l.entry) in s.db.executions && SnapshotOf(l') == Some(s.db.executions[Named(s, l.entry)])))
  {
    SlotSteps(cfg, s, step, c, k);
  }

  /** So is the task. */
  lemma TaskSteps(cfg: Config, s: State, step: Step, c: string, k: nat)
    requires Enabled(cfg, s, step) && HasWork(At(Apply(cfg, s, step), c, k))
    ensures var l, task := At(s, c, k), At(Apply(cfg, s, step), c, k).work.task;
      (HasWork(l) && l.work.task == task) || exists t <- s.db.tasks :: s.db.tasks[t] == task
  {
    SlotSteps(cfg, s, step, c, k);
  }

  lemma RowMovesTwice(a: Execution, b: Execution, c: Execution)
    requires RowMoves(a, b) && RowMoves(b, c)
    ensures RowMoves(a, c)
  {}

  lemma SnapshotStaysMoved(cfg: Config, s: State, step: Step, i: nat, e: Execution)
    requires RowsOk(s.db) && Enabled(cfg, s, step) && i < |s.stream| && SnapshotMoved(s.db, Named(s, i), e)
    ensures SnapshotMoved(Apply(cfg, s, step).db, Named(Apply(cfg, s, step), i), e)
  {
    StepMovesRows(cfg, s, step);
    NamesStay(cfg, s, step, i);
    RowMovesTwice(e, s.db.executions[Named(s, i)], Apply(cfg, s, step).db.executions[Named(s, i)]);
  }

  lemma PolicyStaysValid(cfg: Config, s: State, step: Step, c: string, k: nat)
    requires RowsOk(s.db) && Enabled(cfg, s, step) && SnapshotOk(s, c, k) && HasWork(At(Apply(cfg, s, step), c, k))
    ensures Lifecycle.ValidPolicy(At(Apply(cfg, s, step), c, k).work.task.policy)
  {
    var task := At(Apply(cfg, s, step), c, k).work.task;
    TaskSteps(cfg, s, step, c, k);
    if t :| t in s.db.tasks && s.db.tasks[t] == task { assert Lifecycle.TaskLinked(s.db, s.db.tasks[t]); }
  }

  lemma SnapshotKept(cfg: Config, s: State, step: Step, c: string, k: nat)
    requires RowsOk(s.db) && Enabled(cfg, s, step) && SnapshotOk(s, c, k)
    requires !At(s, c, k).Idle? ==> At(s, c, k).entry < |s.stream|
    ensures SnapshotOk(Apply(cfg, s, step), c, k)
  {
    var l' := At(Apply(cfg, s, step), c, k);
    if SnapshotOf(l').Some? {
      SnapshotSteps(cfg, s, step, c, k);
      SnapshotStaysMoved(cfg, s, step, l'.entry, SnapshotOf(l').value);
    }
    if HasWork(l') { PolicyStaysValid(cfg, s, step, c, k); }
  }

  lemma SnapshotsKept(cfg: Config, s: State, step: Step)
    requires RowsOk(s.db) && GroupOk(s) && HeldDelivered(s) && SnapshotsOk(s) && Enabled(cfg, s, step)
    ensures SnapshotsOk(Apply(cfg, s, step))
  {
    forall c: string, k: nat ensures SnapshotOk(Apply(cfg, s, step), c, k) {
      SnapshotKept(cfg, s, step, c, k);
    }
  }

  lemma InvKept(cfg: Config, s: State, step: Step)
    requires Inv(s) && Enabled(cfg, s, step)
    ensures Inv(Apply(cfg, s, step))
  {
    RowsKept(cfg, s, step);
    MessagesKept(cfg, s, step);
    GroupKept(cfg, s, step);
    HeldKept(cfg, s, step);
    AckedKept(cfg, s, step);
    StartedKept(cfg, s, step);
    SnapshotsKept(cfg, s, step);
  }

  lemma InitInv(s: State)
    requires Init(s)
    ensures Inv(s)
  {}

  lemma {:induction false} InvAlways(cfg: Config, s: State, steps: seq<Step>)
    requires Inv(s) && Allowed(cfg, s, steps)
    ensures Inv(After(cfg, s, steps))
    decreases |steps|
  {
    if steps != [] {
      InvKept(cfg, s, steps[0]);
      InvAlways(cfg, Apply(cfg, s, steps[0]), steps[1..]);
    }
  }
}
