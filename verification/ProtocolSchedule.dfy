/** The schedulings of a run of the execution protocol: what is proved of schedulers and life-cycle calls holds in it
    as well. */
module ProtocolSchedule {
  import opened Wrappers
  import opened Schema
  import opened ProbeRepository
  import opened Invariants
  import opened Scheduling
  import P = Protocol
  import Lifecycle

  /** The transaction that a protocol step commits, if any. */
  ghost function EventOf(cfg: P.Config, s: P.State, step: P.Step): seq<Event>
    requires P.Enabled(cfg, s, step)
  {
    match step
    case Edit(op) => [Change(op)]
    case Schedule(at, batch, locked, sel, ids) => [Cycle(batch, locked, sel, ids, at)]
    case Acquire(_, _, _) => [Update(P.Apply(cfg, s, step).db.executions)]
    case MarkFinal(_, _, _) => [Update(P.Apply(cfg, s, step).db.executions)]
    case _ => []
  }

  /** The transactions of a run, in their order. */
  ghost function EventsOf(cfg: P.Config, s: P.State, steps: seq<P.Step>): seq<Event>
    requires P.Allowed(cfg, s, steps)
    decreases |steps|
  {
    if steps == [] then []
    else EventOf(cfg, s, steps[0]) + EventsOf(cfg, P.Apply(cfg, s, steps[0]), steps[1..])
  }

  lemma OnlyExecutions(cfg: P.Config, s: P.State, step: P.Step)
    requires P.Enabled(cfg, s, step) && (step.Acquire? || step.MarkFinal?)
    ensures var db' := P.Apply(cfg, s, step).db;
      db' == s.db.(executions := db'.executions) && db'.executions.Keys == s.db.executions.Keys
  {}

  lemma UpdateIsEnabled(cfg: P.Config, s: P.State, step: P.Step)
    requires RowsOk(s.db) && P.Enabled(cfg, s, step) && (step.Acquire? || step.MarkFinal?)
    ensures var db' := P.Apply(cfg, s, step).db;
      Enabled(cfg.rules, s.db, Update(db'.executions)) && db' == s.db.(executions := db'.executions)
  {
    OnlyExecutions(cfg, s, step);
    RowsKept(cfg, s, step);
    StepMovesRows(cfg, s, step);
    UpdateOfMoves(cfg.rules, s.db, P.Apply(cfg, s, step).db);
  }

  lemma UpdateOfMoves(rules: Lifecycle.Rules, db: Tables, db': Tables)
    requires RowsOk(db) && RowsOk(db') && DbMoves(db, db') && db'.executions.Keys == db.executions.Keys
    requires db' == db.(executions := db'.executions)
    ensures Enabled(rules, db, Update(db'.executions))
  {
    forall id <- db'.executions ensures Worked(db, id, db'.executions[id]) {
      assert RowMoves(db.executions[id], db'.executions[id]) && RowOk(db', db'.executions[id]);
    }
  }

  lemma StepIsEvent(cfg: P.Config, s: P.State, step: P.Step)
    requires RowsOk(s.db) && P.Enabled(cfg, s, step)
    ensures var events, db' := EventOf(cfg, s, step), P.Apply(cfg, s, step).db;
      if events == [] then db' == s.db
      else |events| == 1 && Enabled(cfg.rules, s.db, events[0]) && Apply(cfg.rules, s.db, events[0]) == db'
  {
    if step.Acquire? || step.MarkFinal? {
      UpdateIsEnabled(cfg, s, step);
    } else if !Writes(step) {
      OthersLeaveDb(cfg, s, step);
    }
  }

  lemma OneMore(rules: Lifecycle.Rules, db: Tables, e: Event, rest: seq<Event>)
    requires Enabled(rules, db, e) && Allowed(rules, Apply(rules, db, e), rest)
    ensures Allowed(rules, db, [e] + rest)
    ensures After(rules, db, [e] + rest) == After(rules, Apply(rules, db, e), rest)
  {
    assert ([e] + rest)[1..] == rest;
  }

  /** The transactions of a protocol run are a run of the schedulers and the life-cycle calls, with the same tables
      at the end. */
  lemma {:induction false} ProtocolRunIsSchedulingRun(cfg: P.Config, s: P.State, steps: seq<P.Step>)
    requires Inv(s) && P.Allowed(cfg, s, steps)
    ensures Allowed(cfg.rules, s.db, EventsOf(cfg, s, steps))
    ensures After(cfg.rules, s.db, EventsOf(cfg, s, steps)) == P.After(cfg, s, steps).db
    decreases |steps|
  {
    if steps != [] {
      var next := P.Apply(cfg, s, steps[0]);
      StepIsEvent(cfg, s, steps[0]);
      InvKept(cfg, s, steps[0]);
      ProtocolRunIsSchedulingRun(cfg, next, steps[1..]);
      var first, rest := EventOf(cfg, s, steps[0]), EventsOf(cfg, next, steps[1..]);
      if first == [] {
        assert first + rest == rest;
      } else {
        assert first == [first[0]];
        OneMore(cfg.rules, s.db, first[0], rest);
      }
    }
  }

  /** Consecutive executions an interval apart, and any two at least ten seconds for each step between them. */
  ghost predicate WellSpaced(fs: seq<Firing>) {
    Spaced(fs) && forall i, j | 0 <= i <= j < |fs| :: fs[j].at - fs[i].at >= 10000 * (j - i)
  }

  lemma FiringsAreWellSpaced(rules: Lifecycle.Rules, db: Tables, events: seq<Event>, task: nat)
    requires RowsOk(db) && Allowed(rules, db, events) && task in db.tasks
    ensures WellSpaced(Firings(rules, db, events, task))
  {
    FiringsFrom(rules, db, events, task);
    var fs := Firings(rules, db, events, task);
    forall i, j | 0 <= i <= j < |fs| ensures fs[j].at - fs[i].at >= 10000 * (j - i) { FarApart(fs, i, j); }
  }

  /** In every protocol run, crashes, redelivery and stale scheduler clocks included, the executions of a task are
      scheduled at least an interval apart. */
  lemma ProtocolSchedulesAreSpaced(cfg: P.Config, s: P.State, steps: seq<P.Step>, task: nat)
    requires Inv(s) && P.Allowed(cfg, s, steps) && task in s.db.tasks
    ensures Allowed(cfg.rules, s.db, EventsOf(cfg, s, steps))
    ensures WellSpaced(Firings(cfg.rules, s.db, EventsOf(cfg, s, steps), task))
  {
    ProtocolRunIsSchedulingRun(cfg, s, steps);
    FiringsAreWellSpaced(cfg.rules, s.db, EventsOf(cfg, s, steps), task);
  }

  /** No step is held up by locks, and all readings are at least `since`. */
  predicate Unhindered(step: P.Step, since: int, batch: nat) {
    match step
    case Edit(CreateTask(_, now)) => now >= since
    case Schedule(at, b, locked, _, _) => b == batch && locked == {} && at >= since
    case _ => true
  }

  function Schedulings(steps: seq<P.Step>): nat {
    if steps == [] then 0 else (if steps[0].Schedule? then 1 else 0) + Schedulings(steps[1..])
  }

  lemma EventIsSteady(cfg: P.Config, s: P.State, step: P.Step, since: int, batch: nat)
    requires P.Enabled(cfg, s, step) && Unhindered(step, since, batch)
    ensures var events := EventOf(cfg, s, step);
      && |events| <= 1 && (forall i | 0 <= i < |events| :: Steady(events[i], since, batch))
      && (if step.Schedule? then |events| == 1 && events[0].Cycle?
          else forall i | 0 <= i < |events| :: !events[i].Cycle?)
  {}

  lemma JoinSteady(first: seq<Event>, rest: seq<Event>, since: int, batch: nat)
    requires |first| <= 1 && forall i | 0 <= i < |first| :: Steady(first[i], since, batch)
    requires forall i | 0 <= i < |rest| :: Steady(rest[i], since, batch)
    ensures forall i | 0 <= i < |first + rest| :: Steady((first + rest)[i], since, batch)
    ensures Cycles(first + rest) == Cycles(rest) + if first != [] && first[0].Cycle? then 1 else 0
  {
    if first == [] {
      assert first + rest == rest;
    } else {
      assert (first + rest)[1..] == rest;
    }
  }

  lemma {:induction false} EventsAreSteady(cfg: P.Config, s: P.State, steps: seq<P.Step>, since: int, batch: nat)
    requires P.Allowed(cfg, s, steps) && forall i | 0 <= i < |steps| :: Unhindered(steps[i], since, batch)
    ensures var events := EventsOf(cfg, s, steps);
      Cycles(events) == Schedulings(steps) && forall i | 0 <= i < |events| :: Steady(events[i], since, batch)
    decreases |steps|
  {
    if steps != [] {
      var next := P.Apply(cfg, s, steps[0]);
      EventsAreSteady(cfg, next, steps[1..], since, batch);
      EventIsSteady(cfg, s, steps[0], since, batch);
      JoinSteady(EventOf(cfg, s, steps[0]), EventsOf(cfg, next, steps[1..]), since, batch);
    }
  }

  /** A due task with k tasks ahead of it is scheduled within k/batch + 1 scheduling steps of the protocol, whatever
      else goes on, unless it is disabled. */
  lemma ProtocolNoStarvation(cfg: P.Config, s: P.State, steps: seq<P.Step>, task: nat, since: int, batch: nat)
    requires Inv(s) && P.Allowed(cfg, s, steps) && batch >= 1 && Waiting(s.db, task, since)
    requires forall i | 0 <= i < |steps| :: Unhindered(steps[i], since, batch)
    requires Schedulings(steps) >= |Ahead(s.db, task)| / batch + 1
    ensures Served(s.db, P.After(cfg, s, steps).db, task)
  {
    ProtocolRunIsSchedulingRun(cfg, s, steps);
    EventsAreSteady(cfg, s, steps, since, batch);
    NoStarvation(cfg.rules, s.db, EventsOf(cfg, s, steps), task, since, batch);
  }

  /** A disabled task never gains another execution in the protocol. */
  lemma ProtocolDisabledStays(cfg: P.Config, s: P.State, steps: seq<P.Step>, task: nat)
    requires Inv(s) && P.Allowed(cfg, s, steps) && task in s.db.tasks && s.db.tasks[task].status == Disabled
    ensures var db' := P.After(cfg, s, steps).db;
      && task in db'.tasks && db'.tasks[task] == s.db.tasks[task]
      && forall id <- db'.executions | db'.executions[id].taskId == task :: id in s.db.executions
  {
    ProtocolRunIsSchedulingRun(cfg, s, steps);
    DisabledStays(cfg.rules, s.db, EventsOf(cfg, s, steps), task);
  }
}
