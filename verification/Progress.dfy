/** What the recovery scan can be kept busy with: the backlog below a fixed time, and exactly which steps add to it. */
module Progress {
  import opened Wrappers
  import opened Schema
  import opened ProbeRepository
  import opened Counting
  import opened Protocol
  import opened Invariants
  import opened Outcomes
  import Lifecycle

  function OldQueued(db: Tables, t: int): set<string> {
    set id <- db.executions | db.executions[id].status == Queued && db.executions[id].scheduledAt <= t
  }

  function OldTasks(db: Tables, t: int): set<nat> {
    set id <- db.tasks | db.tasks[id].status == Active && db.tasks[id].nextRunAt <= t
  }

  /** Everything scheduled for time `t` or before that nobody has started yet. */
  function Backlog(db: Tables, t: int): nat { |OldQueued(db, t)| + |OldTasks(db, t)| }

  // ---------- one step ----------

  /** Added to the backlog: a task created with a reading that is not past `t`, and every scheduled row whose next
      run, counted from the reading, is not past `t` either. */
  function Added(s: State, step: Step, t: int): nat {
    match step
    case Edit(CreateTask(_, now)) => if now <= t then 1 else 0
    case Schedule(at, _, _, sel, _) => Lagging(s.db, sel, at, t)
    case _ => 0
  }

  function Lagging(db: Tables, sel: seq<nat>, at: int, t: int): nat {
    if sel == [] then 0
    else
      var n := |sel| - 1;
      Lagging(db, sel[..n], at, t) + if Lags(db, sel[n], at, t) then 1 else 0
  }

  predicate Lags(db: Tables, row: nat, at: int, t: int) {
    row in db.tasks && at + 1000 * db.tasks[row].policy.interval <= t
  }

  /** The step is an Acquire that starts an execution of the backlog. */
  predicate StartsOld(cfg: Config, s: State, step: Step, t: int) {
    && step.Acquire? && At(s, step.c, step.k).Clocked?
    && Named(s, At(s, step.c, step.k).entry) in OldQueued(s.db, t)
  }

  /** Taken from the backlog: an execution that is started, and a due task that is disabled. */
  function Removed(cfg: Config, s: State, step: Step, t: int): nat {
    if StartsOld(cfg, s, step, t) then 1
    else if step.Edit? && step.op.DisableTask? && step.op.id in OldTasks(s.db, t) then 1
    else 0
  }

  lemma CreateBalances(rules: Lifecycle.Rules, db: Tables, op: Lifecycle.Operation, t: int)
    requires Lifecycle.Chain(db) && Lifecycle.Refusal(rules, db, op) == None && op.CreateTask?
    ensures OldTasks(Lifecycle.Apply(rules, db, op), t) == OldTasks(db, t) + if op.now <= t then {db.nextTask} else {}
    ensures db.nextTask !in OldTasks(db, t)
  {}

  lemma DisableBalances(rules: Lifecycle.Rules, db: Tables, op: Lifecycle.Operation, t: int)
    requires Lifecycle.Refusal(rules, db, op) == None && op.DisableTask?
    ensures OldTasks(Lifecycle.Apply(rules, db, op), t) == OldTasks(db, t) - {op.id}
  {}

  lemma OtherEditsBalance(rules: Lifecycle.Rules, db: Tables, op: Lifecycle.Operation, t: int)
    requires Lifecycle.Refusal(rules, db, op) == None && !op.CreateTask? && !op.DisableTask?
    ensures OldTasks(Lifecycle.Apply(rules, db, op), t) == OldTasks(db, t)
  {}

  lemma EditsLeaveQueue(rules: Lifecycle.Rules, db: Tables, op: Lifecycle.Operation, t: int)
    requires Lifecycle.Refusal(rules, db, op) == None
    ensures OldQueued(Lifecycle.Apply(rules, db, op), t) == OldQueued(db, t)
  {
    assert Lifecycle.Apply(rules, db, op).executions == db.executions;
  }

  lemma EditBalances(rules: Lifecycle.Rules, db: Tables, op: Lifecycle.Operation, t: int)
    requires Lifecycle.Chain(db) && Lifecycle.Refusal(rules, db, op) == None
    ensures Backlog(Lifecycle.Apply(rules, db, op), t) + (if op.DisableTask? && op.id in OldTasks(db, t) then 1 else 0)
         == Backlog(db, t) + if op.CreateTask? && op.now <= t then 1 else 0
  {
    EditsLeaveQueue(rules, db, op, t);
    if op.CreateTask? {
      CreateBalances(rules, db, op, t);
    } else if op.DisableTask? {
      DisableBalances(rules, db, op, t);
    } else {
      OtherEditsBalance(rules, db, op, t);
    }
  }

  lemma RowJoinsQueue(db: Tables, row: nat, id: string, now: int, t: int)
    requires Due(db, row, now) && id !in db.executions
    ensures var executions := db.executions[id := NewExecution(db, row, now)];
      |OldQueued(db.(executions := executions), t)|
      == |OldQueued(db, t)| + if db.tasks[row].nextRunAt <= t then 1 else 0
  {
    var e := NewExecution(db, row, now);
    QueueWith(db, id, e, t);
  }

  lemma QueueWith(db: Tables, id: string, e: Execution, t: int)
    requires id !in db.executions && e.status == Queued
    ensures |OldQueued(db.(executions := db.executions[id := e]), t)|
         == |OldQueued(db, t)| + if e.scheduledAt <= t then 1 else 0
  {
    var db' := db.(executions := db.executions[id := e]);
    if e.scheduledAt <= t {
      assert OldQueued(db', t) == OldQueued(db, t) + {id};
    } else {
      assert OldQueued(db', t) == OldQueued(db, t);
    }
  }

  lemma RowMovesOn(db: Tables, row: nat, now: int, t: int)
    requires Due(db, row, now) && db.tasks[row].policy.interval >= 0
    ensures |OldTasks(db.(tasks := db.tasks[row := Advanced(db.tasks[row], now)]), t)|
         == |OldTasks(db, t)| - (if db.tasks[row].nextRunAt <= t then 1 else 0) + if Lags(db, row, now, t) then 1 else 0
  {
    var db' := db.(tasks := db.tasks[row := Advanced(db.tasks[row], now)]);
    if Lags(db, row, now, t) || db.tasks[row].nextRunAt > t {
      assert OldTasks(db', t) == OldTasks(db, t);
    } else {
      assert OldTasks(db', t) == OldTasks(db, t) - {row};
    }
  }

  /** A due task turns into a queued execution for the same time, and counts once more if its next run is not past
      `t`. */
  lemma RowBalances(db: Tables, row: nat, id: string, now: int, t: int)
    requires Due(db, row, now) && id !in db.executions && db.tasks[row].policy.interval >= 0
    ensures Backlog(db.(executions := db.executions[id := NewExecution(db, row, now)],
                        tasks := db.tasks[row := Advanced(db.tasks[row], now)]), t)
         == Backlog(db, t) + if Lags(db, row, now, t) then 1 else 0
  {
    var executions := db.executions[id := NewExecution(db, row, now)];
    var tasks := db.tasks[row := Advanced(db.tasks[row], now)];
    var db' := db.(executions := executions, tasks := tasks);
    RowJoinsQueue(db, row, id, now, t);
    RowMovesOn(db, row, now, t);
    assert OldQueued(db', t) == OldQueued(db.(executions := executions), t);
    assert OldTasks(db', t) == OldTasks(db.(tasks := tasks), t);
  }

  lemma PrefixSchedulable(db: Tables, sel: seq<nat>, ids: seq<string>, now: int)
    requires Schedulable(db, sel, ids, now) && sel != []
    ensures var n := |sel| - 1;
      && Schedulable(db, sel[..n], ids[..n], now) && Due(db, sel[n], now)
      && sel[n] !in sel[..n] && ids[n] !in ids[..n] && ids[n] !in db.executions
      && sel[..n] + [sel[n]] == sel && ids[..n] + [ids[n]] == ids
  {}

  /** The last row of a transaction, seen from the transaction without it. */
  lemma LastRow(db: Tables, sel: seq<nat>, ids: seq<string>, now: int) returns (tx: Tables)
    requires Schedulable(db, sel, ids, now) && sel != []
    ensures var n := |sel| - 1;
      && Schedulable(db, sel[..n], ids[..n], now) && tx == Scheduled(db, sel[..n], ids[..n], now)
      && Due(tx, sel[n], now) && ids[n] !in tx.executions && tx.tasks[sel[n]] == db.tasks[sel[n]]
      && Scheduled(db, sel, ids, now)
         == tx.(executions := tx.executions[ids[n] := NewExecution(tx, sel[n], now)],
                tasks := tx.tasks[sel[n] := Advanced(tx.tasks[sel[n]], now)])
  {
    var n := |sel| - 1;
    PrefixSchedulable(db, sel, ids, now);
    var ms := Announcements(db, sel[..n], ids[..n]);
    tx := Scheduled(db, sel[..n], ids[..n], now);
    RowUntouched(db, sel[..n], ids[..n], now, tx, ms, sel[n]);
    NameClash(db, sel[..n], ids[..n], now, tx, ms, ids[n]);
    ScheduledGrows(db, sel[..n], ids[..n], now, sel[n], ids[n]);
  }

  lemma {:induction false} ScheduleBalances(db: Tables, sel: seq<nat>, ids: seq<string>, now: int, t: int)
    requires Schedulable(db, sel, ids, now)
    requires forall i <- db.tasks :: db.tasks[i].policy.interval >= 0
    ensures Backlog(Scheduled(db, sel, ids, now), t) == Backlog(db, t) + Lagging(db, sel, now, t)
    decreases |sel|
  {
    if sel == [] {
      NothingScheduled(db, now);
    } else {
      var n := |sel| - 1;
      var tx := LastRow(db, sel, ids, now);
      ScheduleBalances(db, sel[..n], ids[..n], now, t);
      RowBalances(tx, sel[n], ids[n], now, t);
    }
  }

  lemma AcquireBalances(cfg: Config, s: State, c: string, k: nat, stamp: int, t: int)
    requires At(s, c, k).Clocked?
    ensures var id := Named(s, At(s, c, k).entry);
      Backlog(AfterAcquire(cfg, s, c, k, stamp).db, t) + (if id in OldQueued(s.db, t) then 1 else 0) == Backlog(s.db, t)
  {
    var id, db' := Named(s, At(s, c, k).entry), AfterAcquire(cfg, s, c, k, stamp).db;
    assert db'.tasks == s.db.tasks && OldTasks(db', t) == OldTasks(s.db, t);
    assert OldQueued(db', t) == OldQueued(s.db, t) - {id};
  }

  lemma MarkFinalBalances(s: State, c: string, k: nat, stamp: int, t: int)
    requires At(s, c, k).Finished?
    ensures Backlog(AfterMarkFinal(s, c, k, stamp).db, t) == Backlog(s.db, t)
  {
    var db' := AfterMarkFinal(s, c, k, stamp).db;
    assert db'.tasks == s.db.tasks && OldTasks(db', t) == OldTasks(s.db, t);
    assert OldQueued(db', t) == OldQueued(s.db, t);
  }

  ghost predicate Balances(cfg: Config, s: State, step: Step, t: int)
    requires Enabled(cfg, s, step)
  {
    Backlog(Apply(cfg, s, step).db, t) + Removed(cfg, s, step, t) == Backlog(s.db, t) + Added(s, step, t)
  }

  lemma EditStepBalances(cfg: Config, s: State, step: Step, t: int)
    requires RowsOk(s.db) && Enabled(cfg, s, step) && step.Edit?
    ensures Balances(cfg, s, step, t)
  {
    EditBalances(cfg.rules, s.db, step.op, t);
  }

  lemma ScheduleStepBalances(cfg: Config, s: State, step: Step, t: int)
    requires RowsOk(s.db) && Enabled(cfg, s, step) && step.Schedule?
    ensures Balances(cfg, s, step, t)
  {
    IntervalsAreNatural(s.db);
    ScheduleBalances(s.db, step.sel, step.ids, step.at, t);
    ScheduleParts(cfg, s, step, t);
  }

  lemma IntervalsAreNatural(db: Tables)
    requires RowsOk(db)
    ensures forall i <- db.tasks :: db.tasks[i].policy.interval >= 0
  {
    assert forall i <- db.tasks :: Lifecycle.TaskLinked(db, db.tasks[i]);
  }

  lemma ScheduleParts(cfg: Config, s: State, step: Step, t: int)
    requires Enabled(cfg, s, step) && step.Schedule?
    ensures Apply(cfg, s, step).db == Scheduled(s.db, step.sel, step.ids, step.at)
    ensures Removed(cfg, s, step, t) == 0 && Added(s, step, t) == Lagging(s.db, step.sel, step.at, t)
  {}

  lemma WorkStepBalances(cfg: Config, s: State, step: Step, t: int)
    requires Enabled(cfg, s, step) && (step.Acquire? || step.MarkFinal?)
    ensures Balances(cfg, s, step, t)
  {
    if step.Acquire? {
      AcquireBalances(cfg, s, step.c, step.k, step.stamp, t);
    } else {
      MarkFinalBalances(s, step.c, step.k, step.stamp, t);
    }
  }

  /** Every step balances: the backlog afterwards is the backlog before, plus what the step adds, minus what it
      takes. */
  lemma StepBalances(cfg: Config, s: State, step: Step, t: int)
    requires RowsOk(s.db) && Enabled(cfg, s, step)
    ensures Balances(cfg, s, step, t)
    ensures Backlog(Apply(cfg, s, step).db, t) + Removed(cfg, s, step, t) == Backlog(s.db, t) + Added(s, step, t)
  {
    if step.Edit? {
      EditStepBalances(cfg, s, step, t);
    } else if step.Schedule? {
      ScheduleStepBalances(cfg, s, step, t);
    } else if step.Acquire? || step.MarkFinal? {
      WorkStepBalances(cfg, s, step, t);
    } else {
      OtherStepsBalance(cfg, s, step, t);
    }
  }

  lemma OtherStepsBalance(cfg: Config, s: State, step: Step, t: int)
    requires Enabled(cfg, s, step) && !Writes(step)
    ensures Balances(cfg, s, step, t)
  {
    OthersLeaveDb(cfg, s, step);
  }

  /** Exactly which steps make the backlog grow: a creation whose reading is not past `t`, and a scheduling that
      moves some row on to a next run not past `t`. */
  lemma GrowsIff(cfg: Config, s: State, step: Step, t: int)
    requires RowsOk(s.db) && Enabled(cfg, s, step)
    ensures Backlog(Apply(cfg, s, step).db, t) > Backlog(s.db, t)
       <==> (step.Edit? && step.op.CreateTask? && step.op.now <= t)
            || (step.Schedule? && exists i :: 0 <= i < |step.sel| && Lags(s.db, step.sel[i], step.at, t))
  {
    StepBalances(cfg, s, step, t);
    if step.Schedule? { LaggingIff(s.db, step.sel, step.at, t); }
  }

  lemma {:induction false} LaggingIff(db: Tables, sel: seq<nat>, at: int, t: int)
    ensures Lagging(db, sel, at, t) > 0 <==> exists i :: 0 <= i < |sel| && Lags(db, sel[i], at, t)
    decreases |sel|
  {
    if sel != [] {
      var n := |sel| - 1;
      LaggingIff(db, sel[..n], at, t);
      if i :| 0 <= i < n && Lags(db, sel[i], at, t) { assert sel[..n][i] == sel[i]; }
    }
  }

  // ---------- whole runs ----------

  ghost function AllAdded(cfg: Config, s: State, steps: seq<Step>, t: int): nat
    requires Allowed(cfg, s, steps)
    decreases |steps|
  {
    if steps == [] then 0 else Added(s, steps[0], t) + AllAdded(cfg, Apply(cfg, s, steps[0]), steps[1..], t)
  }

  ghost function AllRemoved(cfg: Config, s: State, steps: seq<Step>, t: int): nat
    requires Allowed(cfg, s, steps)
    decreases |steps|
  {
    if steps == [] then 0 else Removed(cfg, s, steps[0], t) + AllRemoved(cfg, Apply(cfg, s, steps[0]), steps[1..], t)
  }

  /** Over any run, stale readings and all, the backlog changes by exactly what is added and taken. */
  lemma {:induction false} RunBalances(cfg: Config, s: State, steps: seq<Step>, t: int)
    requires Inv(s) && Allowed(cfg, s, steps)
    ensures Backlog(After(cfg, s, steps).db, t) + AllRemoved(cfg, s, steps, t)
         == Backlog(s.db, t) + AllAdded(cfg, s, steps, t)
    decreases |steps|
  {
    if steps != [] {
      StepBalances(cfg, s, steps[0], t);
      InvKept(cfg, s, steps[0]);
      RunBalances(cfg, Apply(cfg, s, steps[0]), steps[1..], t);
    }
  }

  /** The readings that creations and schedulings use are past `t`. */
  predicate ReadsPast(step: Step, t: int) {
    match step
    case Edit(CreateTask(_, now)) => now > t
    case Schedule(at, _, _, _, _) => at > t
    case _ => true
  }

  lemma {:induction false} NothingLags(db: Tables, sel: seq<nat>, at: int, t: int)
    requires at > t && forall i <- db.tasks :: db.tasks[i].policy.interval >= 0
    ensures Lagging(db, sel, at, t) == 0
    decreases |sel|
  {
    if sel != [] { NothingLags(db, sel[..|sel| - 1], at, t); }
  }

  lemma StepShrinksBacklog(cfg: Config, s: State, step: Step, t: int)
    requires RowsOk(s.db) && Enabled(cfg, s, step) && ReadsPast(step, t)
    ensures Backlog(Apply(cfg, s, step).db, t) + (if StartsOld(cfg, s, step, t) then 1 else 0) <= Backlog(s.db, t)
  {
    StepBalances(cfg, s, step, t);
    if step.Schedule? {
      assert forall i <- s.db.tasks :: Lifecycle.TaskLinked(s.db, s.db.tasks[i]);
      NothingLags(s.db, step.sel, step.at, t);
    }
  }

  /** How many executions of the backlog a run starts. */
  ghost function Started(cfg: Config, s: State, steps: seq<Step>, t: int): nat
    requires Allowed(cfg, s, steps)
    decreases |steps|
  {
    if steps == [] then 0
    else (if StartsOld(cfg, s, steps[0], t) then 1 else 0) + Started(cfg, Apply(cfg, s, steps[0]), steps[1..], t)
  }

  /** From any reachable state on, once every reading that is still to be used is past `t`, the backlog never grows
      and every start is paid for out of it: only finitely many executions can ever come before one that is
      scheduled after `t`. */
  lemma {:induction false} BacklogPaysForStarts(cfg: Config, s: State, steps: seq<Step>, t: int)
    requires Inv(s) && Allowed(cfg, s, steps) && forall i | 0 <= i < |steps| :: ReadsPast(steps[i], t)
    ensures Started(cfg, s, steps, t) + Backlog(After(cfg, s, steps).db, t) <= Backlog(s.db, t)
    decreases |steps|
  {
    if steps != [] {
      StepShrinksBacklog(cfg, s, steps[0], t);
      InvKept(cfg, s, steps[0]);
      BacklogPaysForStarts(cfg, Apply(cfg, s, steps[0]), steps[1..], t);
    }
  }
}
