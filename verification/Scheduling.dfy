/** Any number of schedulers against one database: how far apart the executions of a task are, and how long a
    due task can wait. */
module Scheduling {
  import opened Wrappers
  import opened Schema
  import opened ProbeRepository
  import opened Ranking
  import opened Counting
  import opened Invariants
  import opened Progress
  import Lifecycle

  /** One committed transaction: a lifecycle call, one scheduling cycle with the clock reading it was given, or an
      update of execution rows by workers. `locked` are the rows that FOR UPDATE SKIP LOCKED passed over. */
  datatype Event =
    | Change(op: Lifecycle.Operation)
    | Cycle(batch: nat, locked: set<nat>, sel: seq<nat>, ids: seq<string>, now: int)
    | Update(executions: map<string, Execution>)

  ghost predicate Enabled(rules: Lifecycle.Rules, db: Tables, e: Event) {
    match e
    case Change(op) => Lifecycle.Refusal(rules, db, op) == None
    case Cycle(batch, locked, sel, ids, now) =>
      IsTop(RunOrder(db), DueTasks(db, now) - locked, batch, sel) && Schedulable(db, sel, ids, now)
    case Update(executions) =>
      executions.Keys == db.executions.Keys && forall id <- executions :: Worked(db, id, executions[id])
  }

  /** Workers move rows forward and keep them well-formed. */
  ghost predicate Worked(db: Tables, id: string, e: Execution)
    requires id in db.executions
  {
    RowMoves(db.executions[id], e) && RowOk(db, e)
  }

  function Apply(rules: Lifecycle.Rules, db: Tables, e: Event): Tables
    requires e.Change? ==> Lifecycle.Refusal(rules, db, e.op) == None
    requires e.Cycle? ==> Schedulable(db, e.sel, e.ids, e.now)
  {
    match e
    case Change(op) => Lifecycle.Apply(rules, db, op)
    case Cycle(_, _, sel, ids, now) => Scheduled(db, sel, ids, now)
    case Update(executions) => db.(executions := executions)
  }

  ghost predicate Allowed(rules: Lifecycle.Rules, db: Tables, events: seq<Event>)
    decreases |events|
  {
    events == [] || (Enabled(rules, db, events[0]) && Allowed(rules, Apply(rules, db, events[0]), events[1..]))
  }

  ghost function After(rules: Lifecycle.Rules, db: Tables, events: seq<Event>): Tables
    requires Allowed(rules, db, events)
    decreases |events|
  {
    if events == [] then db else After(rules, Apply(rules, db, events[0]), events[1..])
  }

  lemma UpdateKeepsRows(db: Tables, executions: map<string, Execution>)
    requires RowsOk(db) && executions.Keys == db.executions.Keys
    requires forall id <- executions :: Worked(db, id, executions[id])
    ensures RowsOk(db.(executions := executions)) && DbMoves(db, db.(executions := executions))
  {
    var db' := db.(executions := executions);
    forall id <- executions ensures RowOk(db', executions[id]) && RowMoves(db.executions[id], executions[id]) {
      assert Worked(db, id, executions[id]);
    }
    forall v <- db.services ensures Lifecycle.ServiceLinked(db', db'.services[v]) {
      assert Lifecycle.ServiceLinked(db, db.services[v]);
    }
    forall t <- db.tasks ensures Lifecycle.TaskLinked(db', db'.tasks[t]) {
      assert Lifecycle.TaskLinked(db, db.tasks[t]);
    }
  }

  lemma ChainKept(rules: Lifecycle.Rules, db: Tables, e: Event)
    requires RowsOk(db) && Enabled(rules, db, e)
    ensures RowsOk(Apply(rules, db, e)) && DbMoves(db, Apply(rules, db, e))
  {
    if e.Change? {
      Lifecycle.ApplySucceeds(rules, db, e.op);
      Lifecycle.ApplyKeepsChain(rules, db, e.op);
    } else if e.Update? {
      UpdateKeepsRows(db, e.executions);
    } else {
      ScheduledRowsOk(db, e.sel, e.ids, e.now);
      ScheduledFacts(db, e.sel, e.ids, e.now);
    }
  }

  // ---------- spacing, whatever the schedulers' clocks say ----------

  /** One scheduling of a task: the execution, the time it is scheduled for and the interval then in force. */
  datatype Firing = Firing(execution: string, at: int, interval: int)

  function Position(sel: seq<nat>, task: nat): nat
    requires task in sel
    ensures Position(sel, task) < |sel| && sel[Position(sel, task)] == task
  {
    if sel[0] == task then 0 else 1 + Position(sel[1..], task)
  }

  /** What one transaction schedules for the task: nothing or one execution. */
  function Fires(db: Tables, e: Event, task: nat): seq<Firing>
    requires task in db.tasks
    requires e.Cycle? ==> |e.ids| == |e.sel|
  {
    if e.Cycle? && task in e.sel
    then [Firing(e.ids[Position(e.sel, task)], db.tasks[task].nextRunAt, db.tasks[task].policy.interval)]
    else []
  }

  /** The schedulings of one task in a run, in order. */
  ghost function Firings(rules: Lifecycle.Rules, db: Tables, events: seq<Event>, task: nat): seq<Firing>
    requires RowsOk(db) && Allowed(rules, db, events) && task in db.tasks
    decreases |events|
  {
    if events == [] then []
    else
      ChainKept(rules, db, events[0]);
      Fires(db, events[0], task) + Firings(rules, Apply(rules, db, events[0]), events[1..], task)
  }

  /** Consecutive schedulings are at least the earlier one's interval apart. */
  ghost predicate Spaced(fs: seq<Firing>) {
    forall i | 0 <= i < |fs| - 1 :: fs[i + 1].at >= fs[i].at + 1000 * fs[i].interval
  }

  lemma FiringStep(rules: Lifecycle.Rules, db: Tables, e: Event, task: nat)
    requires RowsOk(db) && Enabled(rules, db, e) && task in db.tasks
    ensures var db' := Apply(rules, db, e);
      && task in db'.tasks
      && if e.Cycle? && task in e.sel
         then db'.tasks[task].nextRunAt >= db.tasks[task].nextRunAt + 1000 * db.tasks[task].policy.interval
         else db'.tasks[task].nextRunAt == db.tasks[task].nextRunAt
  {
    if e.Change? {
      Lifecycle.ApplySucceeds(rules, db, e.op);
    } else if e.Cycle? && task in e.sel {
      assert Due(db, e.sel[Position(e.sel, task)], e.now);
    }
  }

  /** Schedulings from time `at` on. */
  ghost predicate SpacedFrom(fs: seq<Firing>, at: int) {
    && Spaced(fs)
    && (forall i | 0 <= i < |fs| :: fs[i].interval >= 10)
    && (fs != [] ==> fs[0].at >= at)
  }

  lemma SpacedPrepended(f: Firing, rest: seq<Firing>, at: int)
    requires SpacedFrom(rest, at) && at >= f.at + 1000 * f.interval && f.interval >= 10
    ensures SpacedFrom([f] + rest, f.at)
  {
    var fs := [f] + rest;
    forall i | 0 <= i < |fs| - 1 ensures fs[i + 1].at >= fs[i].at + 1000 * fs[i].interval {
      assert fs[i + 1] == rest[i];
      if i > 0 { assert rest[i - 1 + 1].at >= rest[i - 1].at + 1000 * rest[i - 1].interval; }
    }
  }

  lemma FiresThenRest(rules: Lifecycle.Rules, db: Tables, e: Event, task: nat, rest: seq<Firing>)
    requires RowsOk(db) && Enabled(rules, db, e) && task in db.tasks && task in Apply(rules, db, e).tasks
    requires SpacedFrom(rest, Apply(rules, db, e).tasks[task].nextRunAt)
    ensures SpacedFrom(Fires(db, e, task) + rest, db.tasks[task].nextRunAt)
  {
    FiringStep(rules, db, e, task);
    if Fires(db, e, task) == [] {
      assert [] + rest == rest;
    } else {
      assert Lifecycle.TaskLinked(db, db.tasks[task]);
      SpacedPrepended(Fires(db, e, task)[0], rest, Apply(rules, db, e).tasks[task].nextRunAt);
    }
  }

  lemma {:induction false} FiringsFrom(rules: Lifecycle.Rules, db: Tables, events: seq<Event>, task: nat)
    requires RowsOk(db) && Allowed(rules, db, events) && task in db.tasks
    ensures SpacedFrom(Firings(rules, db, events, task), db.tasks[task].nextRunAt)
    decreases |events|
  {
    if events != [] {
      var e, db' := events[0], Apply(rules, db, events[0]);
      ChainKept(rules, db, e);
      FiringsFrom(rules, db', events[1..], task);
      FiresThenRest(rules, db, e, task, Firings(rules, db', events[1..], task));
    }
  }

  lemma {:induction false} FarApart(fs: seq<Firing>, i: nat, j: nat)
    requires Spaced(fs) && (forall i | 0 <= i < |fs| :: fs[i].interval >= 10) && i <= j < |fs|
    ensures fs[j].at - fs[i].at >= 10000 * (j - i)
    decreases j
  {
    if i < j {
      FarApart(fs, i, j - 1);
      assert fs[j - 1 + 1].at >= fs[j - 1].at + 1000 * fs[j - 1].interval;
    }
  }

  /** However many schedulers run, and whatever their clocks say, the executions of one task are scheduled for
      strictly increasing times, each at least one interval after the last, and so any window of `width`
      milliseconds holds at most width/10000 + 1 of them. */
  lemma SchedulesAreSpaced(
    rules: Lifecycle.Rules, db: Tables, events: seq<Event>, task: nat, i: nat, j: nat, width: nat)
    requires RowsOk(db) && Allowed(rules, db, events) && task in db.tasks
    requires var fs := Firings(rules, db, events, task); i <= j < |fs| && fs[j].at - fs[i].at <= width
    ensures var fs := Firings(rules, db, events, task);
      Spaced(fs) && (i < j ==> fs[i].at < fs[j].at) && j - i + 1 <= width / 10000 + 1
  {
    FiringsFrom(rules, db, events, task);
    FarApart(Firings(rules, db, events, task), i, j);
  }

  lemma {:induction false} RunMoves(rules: Lifecycle.Rules, db: Tables, events: seq<Event>)
    requires RowsOk(db) && Allowed(rules, db, events)
    ensures DbMoves(db, After(rules, db, events)) && RowsOk(After(rules, db, events))
    decreases |events|
  {
    if events != [] {
      var next := Apply(rules, db, events[0]);
      ChainKept(rules, db, events[0]);
      RunMoves(rules, next, events[1..]);
      DbMovesTwice(db, next, After(rules, next, events[1..]));
    }
  }

  ghost predicate Fired(fs: seq<Firing>, id: string, at: int) {
    exists i :: 0 <= i < |fs| && fs[i].execution == id && fs[i].at == at
  }

  ghost predicate HasRow(db: Tables, task: nat, id: string, at: int) {
    id in db.executions && db.executions[id].taskId == task && db.executions[id].scheduledAt == at
  }

  /** The executions that one transaction creates. */
  lemma CycleRows(db: Tables, sel: seq<nat>, ids: seq<string>, now: int, task: nat, id: string, at: int)
    requires Schedulable(db, sel, ids, now) && task in db.tasks && id !in db.executions
    ensures HasRow(Scheduled(db, sel, ids, now), task, id, at)
       <==> task in sel && ids[Position(sel, task)] == id && db.tasks[task].nextRunAt == at
  {
    ScheduledFacts(db, sel, ids, now);
    if id in ids {
      var q :| 0 <= q < |ids| && ids[q] == id;
      RowAt(db, sel, ids, now, q, task);
    }
  }

  lemma RowAt(db: Tables, sel: seq<nat>, ids: seq<string>, now: int, q: nat, task: nat)
    requires Schedulable(db, sel, ids, now) && q < |ids| && task in db.tasks
    ensures ids[q] in Scheduled(db, sel, ids, now).executions
    ensures Scheduled(db, sel, ids, now).executions[ids[q]] == NewExecution(db, sel[q], now)
    ensures sel[q] == task <==> task in sel && ids[Position(sel, task)] == ids[q]
  {
    ScheduledFacts(db, sel, ids, now);
    if task in sel { assert Position(sel, task) == q || ids[Position(sel, task)] != ids[q]; }
  }

  lemma FiredAtMostOne(f: Firing, id: string, at: int)
    ensures Fired([f], id, at) <==> f.execution == id && f.at == at
    ensures !Fired([], id, at)
  {
    assert [f][0] == f;
  }

  lemma NewRow(rules: Lifecycle.Rules, db: Tables, e: Event, task: nat, id: string, at: int)
    requires RowsOk(db) && Enabled(rules, db, e) && task in db.tasks && id !in db.executions
    ensures HasRow(Apply(rules, db, e), task, id, at) <==> Fired(Fires(db, e, task), id, at)
  {
    if e.Change? {
      Lifecycle.ApplySucceeds(rules, db, e.op);
    } else if e.Cycle? {
      CycleFires(db, e, task, id, at);
      CycleRows(db, e.sel, e.ids, e.now, task, id, at);
    }
  }

  lemma CycleFires(db: Tables, e: Event, task: nat, id: string, at: int)
    requires task in db.tasks && e.Cycle? && |e.ids| == |e.sel|
    ensures Fired(Fires(db, e, task), id, at)
       <==> task in e.sel && e.ids[Position(e.sel, task)] == id && db.tasks[task].nextRunAt == at
  {
    if task in e.sel {
      FiredAtMostOne(Fires(db, e, task)[0], id, at);
    }
  }

  lemma FiredSplit(a: seq<Firing>, b: seq<Firing>, id: string, at: int)
    ensures Fired(a + b, id, at) <==> Fired(a, id, at) || Fired(b, id, at)
  {
    assert forall i | 0 <= i < |a| :: (a + b)[i] == a[i];
    assert forall i | 0 <= i < |b| :: (a + b)[|a| + i] == b[i];
    if Fired(a + b, id, at) {
      var i :| 0 <= i < |a + b| && (a + b)[i].execution == id && (a + b)[i].at == at;
      if i >= |a| { assert b[i - |a|] == (a + b)[i]; }
    }
  }

  /** What exists already is not scheduled again. */
  lemma FiresNothingOld(rules: Lifecycle.Rules, db: Tables, e: Event, task: nat, id: string, at: int)
    requires RowsOk(db) && Enabled(rules, db, e) && task in db.tasks && id in db.executions
    ensures !Fired(Fires(db, e, task), id, at) && id in Apply(rules, db, e).executions
  {
    ChainKept(rules, db, e);
    if e.Cycle? { CycleFires(db, e, task, id, at); }
  }

  lemma {:induction false} FiringsAreNew(
    rules: Lifecycle.Rules, db: Tables, events: seq<Event>, task: nat, id: string, at: int)
    requires RowsOk(db) && Allowed(rules, db, events) && task in db.tasks && id in db.executions
    ensures !Fired(Firings(rules, db, events, task), id, at)
    decreases |events|
  {
    if events != [] {
      var e, db' := events[0], Apply(rules, db, events[0]);
      ChainKept(rules, db, e);
      FiresNothingOld(rules, db, e, task, id, at);
      FiringsAreNew(rules, db', events[1..], task, id, at);
      FiredSplit(Fires(db, e, task), Firings(rules, db', events[1..], task), id, at);
    }
  }

  /** The new execution rows of a task are exactly its schedulings, one row each, for the time it was due. */
  lemma {:induction false} FiringsAreRows(
    rules: Lifecycle.Rules, db: Tables, events: seq<Event>, task: nat, id: string, at: int)
    requires RowsOk(db) && Allowed(rules, db, events) && task in db.tasks && id !in db.executions
    ensures HasRow(After(rules, db, events), task, id, at) <==> Fired(Firings(rules, db, events, task), id, at)
    decreases |events|
  {
    if events != [] {
      var e, db' := events[0], Apply(rules, db, events[0]);
      ChainKept(rules, db, e);
      NewRow(rules, db, e, task, id, at);
      FiredSplit(Fires(db, e, task), Firings(rules, db', events[1..], task), id, at);
      if id in db'.executions {
        FiringsAreNew(rules, db', events[1..], task, id, at);
        RunMoves(rules, db', events[1..]);
        assert RowMoves(db'.executions[id], After(rules, db', events[1..]).executions[id]);
      } else {
        FiringsAreRows(rules, db', events[1..], task, id, at);
      }
    }
  }

  ghost predicate TimesInOrder(db: Tables) {
    forall t <- db.tasks | db.tasks[t].lastScheduledAt.Some? ::
      db.tasks[t].lastScheduledAt.value < db.tasks[t].nextRunAt
  }

  /** last_scheduled_at always lies before next_run_at. */
  lemma {:induction false} LastBeforeNext(rules: Lifecycle.Rules, db: Tables, events: seq<Event>)
    requires RowsOk(db) && TimesInOrder(db) && Allowed(rules, db, events)
    ensures TimesInOrder(After(rules, db, events))
    decreases |events|
  {
    if events != [] {
      ChainKept(rules, db, events[0]);
      StepKeepsOrder(rules, db, events[0]);
      LastBeforeNext(rules, Apply(rules, db, events[0]), events[1..]);
    }
  }

  lemma StepKeepsOrder(rules: Lifecycle.Rules, db: Tables, e: Event)
    requires RowsOk(db) && TimesInOrder(db) && Enabled(rules, db, e)
    ensures TimesInOrder(Apply(rules, db, e))
  {
    if e.Change? {
      Lifecycle.ApplySucceeds(rules, db, e.op);
    } else if e.Cycle? {
      forall t <- db.tasks | t in e.sel ensures Due(db, t, e.now) && db.tasks[t].policy.interval >= 10 {
        assert Due(db, e.sel[Position(e.sel, t)], e.now) && Lifecycle.TaskLinked(db, db.tasks[t]);
      }
    }
  }

  // ---------- waiting ----------

  /** The tasks that come before `task` in the order of the query. */
  ghost function Ahead(db: Tables, task: nat): set<nat>
    requires task in db.tasks
  {
    set u <- db.tasks | u != task && db.tasks[u].status == Active && Le(RunOrder(db)(u), RunOrder(db)(task))
  }

  /** Clock readings are at least `since`, no due row is locked, and every cycle takes `batch` rows. */
  ghost predicate Steady(e: Event, since: int, batch: nat) {
    match e
    case Change(op) => op.CreateTask? ==> op.now >= since
    case Cycle(b, locked, _, _, now) => b == batch && locked == {} && now >= since
    case Update(_) => true
  }

  function Cycles(events: seq<Event>): nat {
    if events == [] then 0 else (if events[0].Cycle? then 1 else 0) + Cycles(events[1..])
  }

  /** The task waits: active and due by `since`. */
  predicate Waiting(db: Tables, task: nat, since: int) {
    task in db.tasks && db.tasks[task].status == Active && db.tasks[task].nextRunAt <= since
  }

  lemma ChangeKeepsAhead(rules: Lifecycle.Rules, db: Tables, op: Lifecycle.Operation, task: nat, since: int)
    requires RowsOk(db) && Lifecycle.Refusal(rules, db, op) == None && (op.CreateTask? ==> op.now >= since)
    requires Waiting(db, task, since)
    ensures task in Lifecycle.Apply(rules, db, op).tasks
    ensures Ahead(Lifecycle.Apply(rules, db, op), task) <= Ahead(db, task)
  {
    Lifecycle.ApplySucceeds(rules, db, op);
    var db' := Lifecycle.Apply(rules, db, op);
    forall u <- Ahead(db', task) ensures u in Ahead(db, task) { NotAheadAnew(rules, db, op, u, task, since); }
  }

  /** A call puts no task ahead of one that waits. */
  lemma NotAheadAnew(
    rules: Lifecycle.Rules, db: Tables, op: Lifecycle.Operation, u: nat, task: nat, since: int)
    requires RowsOk(db) && Lifecycle.Refusal(rules, db, op) == None && (op.CreateTask? ==> op.now >= since)
    requires Waiting(db, task, since) && task in Lifecycle.Apply(rules, db, op).tasks
    requires u in Ahead(Lifecycle.Apply(rules, db, op), task)
    ensures u in Ahead(db, task)
  {
    Lifecycle.ApplySucceeds(rules, db, op);
    if u !in db.tasks { NewTaskIsBehind(rules, db, op, u, task, since); }
  }

  lemma NewTaskIsBehind(
    rules: Lifecycle.Rules, db: Tables, op: Lifecycle.Operation, u: nat, task: nat, since: int)
    requires RowsOk(db) && Lifecycle.Refusal(rules, db, op) == None && (op.CreateTask? ==> op.now >= since)
    requires Waiting(db, task, since)
    requires u in Lifecycle.Apply(rules, db, op).tasks && u !in db.tasks
    ensures var db' := Lifecycle.Apply(rules, db, op);
      task in db'.tasks && !Le(RunOrder(db')(u), RunOrder(db')(task))
  {}

  /** A cycle that does not take the task takes a full batch from the tasks ahead of it. */
  lemma CycleServesAhead(db: Tables, e: Event, task: nat, since: int, batch: nat)
    requires RowsOk(db) && e.Cycle? && Steady(e, since, batch) && Waiting(db, task, since) && task !in e.sel
    requires IsTop(RunOrder(db), DueTasks(db, e.now) - e.locked, e.batch, e.sel) && Schedulable(db, e.sel, e.ids, e.now)
    ensures var db' := Scheduled(db, e.sel, e.ids, e.now);
      task in db'.tasks && |Ahead(db', task)| + batch <= |Ahead(db, task)|
  {
    var db' := Scheduled(db, e.sel, e.ids, e.now);
    var served := set u <- e.sel;
    assert Lifecycle.TaskLinked(db, db.tasks[task]);
    assert task in DueTasks(db, e.now);
    assert AllBefore(RunOrder(db), e.sel, task);
    DistinctLength(e.sel);
    assert served <= Ahead(db, task);
    AheadAfterCycle(db, e.sel, e.ids, e.now, task);
    Smaller(Ahead(db', task), Ahead(db, task) - served);
  }

  lemma AheadAfterCycle(db: Tables, sel: seq<nat>, ids: seq<string>, now: int, task: nat)
    requires RowsOk(db) && Schedulable(db, sel, ids, now) && task in db.tasks && task !in sel
    requires db.tasks[task].nextRunAt <= now
    ensures task in Scheduled(db, sel, ids, now).tasks
    ensures Ahead(Scheduled(db, sel, ids, now), task) <= Ahead(db, task) - set u <- sel
  {
    var db' := Scheduled(db, sel, ids, now);
    forall u <- Ahead(db', task) ensures u in Ahead(db, task) && u !in sel {
      assert Lifecycle.TaskLinked(db, db.tasks[u]);
    }
  }

  lemma StillWaiting(rules: Lifecycle.Rules, db: Tables, e: Event, task: nat, since: int, batch: nat)
    requires RowsOk(db) && Enabled(rules, db, e) && Steady(e, since, batch) && Waiting(db, task, since)
    requires !(e.Cycle? && task in e.sel)
    ensures var db' := Apply(rules, db, e);
      && task in db'.tasks && db'.tasks[task].nextRunAt == db.tasks[task].nextRunAt
      && |Ahead(db', task)| + (if e.Cycle? then 1 else 0) * batch <= |Ahead(db, task)|
  {
    if e.Change? {
      Lifecycle.ApplySucceeds(rules, db, e.op);
      ChangeKeepsAhead(rules, db, e.op, task, since);
      Smaller(Ahead(Apply(rules, db, e), task), Ahead(db, task));
    } else if e.Cycle? {
      CycleServesAhead(db, e, task, since, batch);
    } else {
      assert Ahead(Apply(rules, db, e), task) == Ahead(db, task);
    }
  }

  /** Disabled is for good: the task keeps its row and never gains another execution. */
  lemma {:induction false} DisabledStays(rules: Lifecycle.Rules, db: Tables, events: seq<Event>, task: nat)
    requires RowsOk(db) && Allowed(rules, db, events) && task in db.tasks && db.tasks[task].status == Disabled
    ensures var db' := After(rules, db, events);
      && task in db'.tasks && db'.tasks[task] == db.tasks[task]
      && forall id <- db'.executions | db'.executions[id].taskId == task :: id in db.executions
    decreases |events|
  {
    if events != [] {
      var e, db' := events[0], Apply(rules, db, events[0]);
      ChainKept(rules, db, e);
      DisabledStep(rules, db, e, task);
      DisabledStays(rules, db', events[1..], task);
      RunMoves(rules, db', events[1..]);
      forall id | id in db'.executions && id in After(rules, db', events[1..]).executions
        ensures After(rules, db', events[1..]).executions[id].taskId == db'.executions[id].taskId
      {
        assert RowMoves(db'.executions[id], After(rules, db', events[1..]).executions[id]);
      }
    }
  }

  lemma DisabledStep(rules: Lifecycle.Rules, db: Tables, e: Event, task: nat)
    requires RowsOk(db) && Enabled(rules, db, e) && task in db.tasks && db.tasks[task].status == Disabled
    ensures var db' := Apply(rules, db, e);
      && task in db'.tasks && db'.tasks[task] == db.tasks[task]
      && forall id <- db'.executions | db'.executions[id].taskId == task :: id in db.executions
  {
    if e.Change? {
      Lifecycle.ApplySucceeds(rules, db, e.op);
    } else if e.Update? {
      forall id <- e.executions | e.executions[id].taskId == task ensures id in db.executions {}
    } else {
      ScheduledFacts(db, e.sel, e.ids, e.now);
      assert forall i | 0 <= i < |e.sel| :: Due(db, e.sel[i], e.now) && e.sel[i] != task;
    }
  }

  lemma {:induction false} ServedInTime(
    rules: Lifecycle.Rules, db: Tables, events: seq<Event>, task: nat, since: int, batch: nat)
    requires RowsOk(db) && Allowed(rules, db, events) && Waiting(db, task, since)
    requires forall i | 0 <= i < |events| :: Steady(events[i], since, batch)
    requires Cycles(events) * batch > |Ahead(db, task)|
    ensures Served(db, After(rules, db, events), task)
    decreases |events|
  {
    var e, db' := events[0], Apply(rules, db, events[0]);
    assert Steady(e, since, batch);
    if e.Cycle? && task in e.sel {
      ServedNow(rules, db, events, task);
    } else {
      ChainKept(rules, db, e);
      StillWaiting(rules, db, e, task, since, batch);
      if db'.tasks[task].status == Disabled {
        DisabledStays(rules, db', events[1..], task);
      } else {
        OneCycleLess(Cycles(events), Cycles(events[1..]), if e.Cycle? then 1 else 0,
                     |Ahead(db, task)|, |Ahead(db', task)|, batch);
        ServedInTime(rules, db', events[1..], task, since, batch);
        ServedLater(db, db', After(rules, db', events[1..]), task);
      }
    }
  }

  /** Disabled, or scheduled for the time it was due. */
  ghost predicate Served(db: Tables, db': Tables, task: nat)
    requires task in db.tasks
  {
    || (task in db'.tasks && db'.tasks[task].status == Disabled)
    || (exists id :: id !in db.executions && HasRow(db', task, id, db.tasks[task].nextRunAt))
  }

  lemma ServedLater(db: Tables, db1: Tables, db2: Tables, task: nat)
    requires task in db.tasks && task in db1.tasks && db1.tasks[task].nextRunAt == db.tasks[task].nextRunAt
    requires DbMoves(db, db1) && Served(db1, db2, task)
    ensures Served(db, db2, task)
  {}

  lemma ServedNow(rules: Lifecycle.Rules, db: Tables, events: seq<Event>, task: nat)
    requires RowsOk(db) && Allowed(rules, db, events) && task in db.tasks
    requires events != [] && events[0].Cycle? && task in events[0].sel
    ensures Served(db, After(rules, db, events), task)
  {
    var e, db' := events[0], Apply(rules, db, events[0]);
    var id := e.ids[Position(e.sel, task)];
    ChainKept(rules, db, e);
    CycleRows(db, e.sel, e.ids, e.now, task, id, db.tasks[task].nextRunAt);
    RunMoves(rules, db', events[1..]);
    assert RowMoves(db'.executions[id], After(rules, db', events[1..]).executions[id]);
    assert HasRow(After(rules, db, events), task, id, db.tasks[task].nextRunAt);
  }

  /** A due task with k tasks ahead of it is scheduled within k/batch + 1 cycles, unless it is disabled first:
      rescheduled, newly due and newly created tasks all queue up behind it. */
  lemma NoStarvation(rules: Lifecycle.Rules, db: Tables, events: seq<Event>, task: nat, since: int, batch: nat)
    requires RowsOk(db) && Allowed(rules, db, events) && batch >= 1 && Waiting(db, task, since)
    requires forall i | 0 <= i < |events| :: Steady(events[i], since, batch)
    requires Cycles(events) >= |Ahead(db, task)| / batch + 1
    ensures Served(db, After(rules, db, events), task)
  {
    EnoughCycles(Cycles(events), |Ahead(db, task)|, batch);
    ServedInTime(rules, db, events, task, since, batch);
  }

  lemma EnoughCycles(cycles: nat, k: nat, batch: nat)
    requires batch >= 1 && cycles >= k / batch + 1
    ensures cycles * batch > k
  {
    assert k / batch * batch + k % batch == k && k % batch < batch;
    assert cycles * batch >= (k / batch + 1) * batch;
  }

  lemma OneCycleLess(cycles: nat, cycles': nat, c: nat, k: nat, k': nat, batch: nat)
    requires cycles == cycles' + c && c <= 1 && cycles * batch > k && k' + c * batch <= k
    ensures cycles' * batch > k'
  {
    assert (cycles' + c) * batch == cycles' * batch + c * batch;
  }
}
