/** The delivery guarantees, stated over whole runs of the execution protocol. */
module Outcomes {
  import opened Wrappers
  import opened Schema
  import opened ProbeRepository
  import opened Protocol
  import opened Invariants
  import Lifecycle

  // ---------- composing runs ----------

  lemma {:induction false} AfterConcat(cfg: Config, s: State, first: seq<Step>, more: seq<Step>)
    requires Allowed(cfg, s, first) && Allowed(cfg, After(cfg, s, first), more)
    ensures Allowed(cfg, s, first + more) && After(cfg, s, first + more) == After(cfg, After(cfg, s, first), more)
    decreases |first|
  {
    if first == [] {
      assert first + more == more;
    } else {
      AfterConcat(cfg, Apply(cfg, s, first[0]), first[1..], more);
      assert (first + more)[1..] == first[1..] + more;
    }
  }

  lemma {:induction false} RunMovesRows(cfg: Config, s: State, steps: seq<Step>)
    requires Inv(s) && Allowed(cfg, s, steps)
    ensures DbMoves(s.db, After(cfg, s, steps).db)
    decreases |steps|
  {
    if steps != [] {
      var next := Apply(cfg, s, steps[0]);
      StepMovesRows(cfg, s, steps[0]);
      InvKept(cfg, s, steps[0]);
      RunMovesRows(cfg, next, steps[1..]);
      DbMovesTwice(s.db, next.db, After(cfg, next, steps[1..]).db);
    }
  }

  // ---------- at least once ----------

  /** The execution is final, or queued, where the recovery scan finds it once it is old enough, or running with
      an unacknowledged message in the pending list, where auto-claim finds it. */
  ghost predicate Traceable(cfg: Config, s: State, id: string) {
    id in s.db.executions &&
    var e := s.db.executions[id];
    || e.Final()
    || (e.status == Queued &&
         (e.scheduledAt < s.now - 2 * cfg.interval ==> id in QueuedIds(s.db, s.now - 2 * cfg.interval)))
    || (e.status == Running && exists i: nat :: i in s.pending && i < |s.stream| && s.stream[i] == MessageOf(s.db, id))
  }

  lemma RunningIsPending(cfg: Config, s: State, id: string)
    requires MessagesKnown(s) && GroupOk(s) && AckedFinal(s) && StartedDelivered(s)
    requires id in s.db.executions && s.db.executions[id].status == Running
    ensures Traceable(cfg, s, id)
  {
    assert DeliveredOnce(s, id);
    var i: nat :| i < s.cursor && Named(s, i) == id;
    assert i in s.pending;
    assert Known(s.db, s.stream[i]);
  }

  /** No execution is ever stranded: until it is final it is queued or has an unacknowledged message. */
  lemma NothingStranded(cfg: Config, init: State, steps: seq<Step>, id: string)
    requires Init(init) && Allowed(cfg, init, steps)
    requires id in After(cfg, init, steps).db.executions
    ensures Traceable(cfg, After(cfg, init, steps), id)
  {
    InitInv(init);
    InvAlways(cfg, init, steps);
    var s := After(cfg, init, steps);
    if s.db.executions[id].status == Running { RunningIsPending(cfg, s, id); }
  }

  /** An acknowledged message is a finished execution. */
  lemma AckImpliesFinal(cfg: Config, init: State, steps: seq<Step>, i: nat)
    requires Init(init) && Allowed(cfg, init, steps) && i in After(cfg, init, steps).acked
    ensures var s := After(cfg, init, steps);
      i < |s.stream| && s.stream[i].execution in s.db.executions && s.db.executions[s.stream[i].execution].Final()
  {
    InitInv(init);
    InvAlways(cfg, init, steps);
  }

  /** Whatever happens later, a row keeps its identity, its status does not go back, and a final row is frozen. */
  lemma StatusOnlyMovesForward(cfg: Config, init: State, steps: seq<Step>, more: seq<Step>, id: string)
    requires Init(init) && Allowed(cfg, init, steps) && Allowed(cfg, After(cfg, init, steps), more)
    requires id in After(cfg, init, steps).db.executions
    ensures Allowed(cfg, init, steps + more) && id in After(cfg, init, steps + more).db.executions
    ensures RowMoves(After(cfg, init, steps).db.executions[id], After(cfg, init, steps + more).db.executions[id])
  {
    InitInv(init);
    InvAlways(cfg, init, steps);
    AfterConcat(cfg, init, steps, more);
    RunMovesRows(cfg, After(cfg, init, steps), more);
  }

  /** In every reachable state a row tells what has happened to it: who took it and when, and a success or a failure
      exactly as the probe reported it. */
  lemma RowsTellTheirOutcome(cfg: Config, init: State, steps: seq<Step>, id: string)
    requires Init(init) && Allowed(cfg, init, steps) && id in After(cfg, init, steps).db.executions
    ensures var db := After(cfg, init, steps).db; var e := db.executions[id];
      && e.taskId in db.tasks && e.serviceId in db.services
      && (e.status == Queued <==> e.startedAt == None) && (e.status == Queued <==> e.worker == None)
      && (e.status in {Succeeded, Failed} <==> e.finishedAt.Some?)
      && (e.status == Succeeded <==> e.result.Some? && e.result.value.success)
      && (e.status == Failed <==> e.result.Some? && !e.result.value.success)
  {
    InitInv(init);
    InvAlways(cfg, init, steps);
    assert RowOk(After(cfg, init, steps).db, After(cfg, init, steps).db.executions[id]);
  }

  /** Process never meets a probe type it has no implementation for. */
  lemma UnsupportedTypeUnreachable(cfg: Config, init: State, steps: seq<Step>, c: string, k: nat)
    requires Init(init) && Allowed(cfg, init, steps) && At(After(cfg, init, steps), c, k).Clocked?
    ensures Supported(At(After(cfg, init, steps), c, k).work.execution.probeType)
  {
    InitInv(init);
    InvAlways(cfg, init, steps);
    var s := After(cfg, init, steps);
    assert SnapshotOk(s, c, k);
    assert RowOk(s.db, s.db.executions[Named(s, At(s, c, k).entry)]);
  }

  // ---------- at most once ----------

  /** The consumer of the latest successful Acquire of an execution. */
  function LastOwner(h: seq<Event>, id: string): Option<string>
    decreases |h|
  {
    if h == [] then None
    else
      var last := h[|h| - 1];
      if last.AcquiredBy? && last.execution == id then Some(last.consumer) else LastOwner(h[..|h| - 1], id)
  }

  /** How often an execution was finalised. */
  function Finishes(h: seq<Event>, id: string): nat
    decreases |h|
  {
    if h == [] then 0
    else
      var last := h[|h| - 1];
      Finishes(h[..|h| - 1], id) + if last.FinalisedBy? && last.execution == id then 1 else 0
  }

  /** Nothing happens to an execution after it is finalised, and only its latest owner finalises it. */
  ghost predicate Orderly(h: seq<Event>) {
    forall n | 0 <= n < |h| ::
      && Finishes(h[..n], h[n].execution) == 0
      && (h[n].FinalisedBy? ==> LastOwner(h[..n], h[n].execution) == Some(h[n].consumer))
  }

  /** The history tells the same story as the row. */
  ghost predicate RowTells(s: State, id: string) {
    if id !in s.db.executions then LastOwner(s.history, id) == None && Finishes(s.history, id) == 0
    else
      var e := s.db.executions[id];
      && Finishes(s.history, id) == (if e.Final() then 1 else 0)
      && LastOwner(s.history, id) == (if e.status == Queued then None else e.worker)
  }

  ghost predicate HistoryOk(s: State) {
    Orderly(s.history) && forall id: string :: RowTells(s, id)
  }

  lemma Appended(h: seq<Event>, e: Event, id: string)
    ensures LastOwner(h + [e], id) == if e.AcquiredBy? && e.execution == id then Some(e.consumer) else LastOwner(h, id)
    ensures Finishes(h + [e], id) == Finishes(h, id) + if e.FinalisedBy? && e.execution == id then 1 else 0
  {
    assert (h + [e])[..|h|] == h;
  }

  lemma OrderlyAppended(h: seq<Event>, e: Event)
    requires Orderly(h) && Finishes(h, e.execution) == 0
    requires e.FinalisedBy? ==> LastOwner(h, e.execution) == Some(e.consumer)
    ensures Orderly(h + [e])
  {
    var h' := h + [e];
    forall n | 0 <= n < |h'| ensures
      && Finishes(h'[..n], h'[n].execution) == 0
      && (h'[n].FinalisedBy? ==> LastOwner(h'[..n], h'[n].execution) == Some(h'[n].consumer))
    {
      assert h'[..n] == h[..n];
      if n == |h| { assert h[..n] == h; }
    }
  }

  lemma QuietRows(cfg: Config, s: State, step: Step, id: string)
    requires RowsOk(s.db) && Enabled(cfg, s, step) && !step.Acquire? && !step.MarkFinal?
    ensures var db' := Apply(cfg, s, step).db;
      if id in s.db.executions then id in db'.executions && db'.executions[id] == s.db.executions[id]
      else id in db'.executions ==> db'.executions[id].status == Queued
  {
    if step.Edit? {
      Lifecycle.ApplySucceeds(cfg.rules, s.db, step.op);
    } else if step.Schedule? {
      ScheduledFacts(s.db, step.sel, step.ids, step.at);
    } else {
      OthersLeaveDb(cfg, s, step);
    }
  }

  lemma QuietHistory(cfg: Config, s: State, step: Step)
    requires Enabled(cfg, s, step) && !step.Acquire? && !step.MarkFinal?
    ensures Apply(cfg, s, step).history == s.history
  {}

  lemma QuietRowTells(s: State, s': State, id: string)
    requires RowTells(s, id) && s'.history == s.history
    requires if id in s.db.executions then id in s'.db.executions && s'.db.executions[id] == s.db.executions[id]
             else id in s'.db.executions ==> s'.db.executions[id].status == Queued
    ensures RowTells(s', id)
  {}

  lemma QuietStepsTell(cfg: Config, s: State, step: Step)
    requires RowsOk(s.db) && HistoryOk(s) && Enabled(cfg, s, step) && !step.Acquire? && !step.MarkFinal?
    ensures HistoryOk(Apply(cfg, s, step))
  {
    var s' := Apply(cfg, s, step);
    QuietHistory(cfg, s, step);
    forall id: string ensures RowTells(s', id) {
      QuietRows(cfg, s, step, id);
      QuietRowTells(s, s', id);
    }
  }

  lemma AcquiredRowTells(cfg: Config, s: State, c: string, k: nat, stamp: int, id: string)
    requires At(s, c, k).Clocked? && Acquirable(s.db, Named(s, At(s, c, k).entry), At(s, c, k).at - cfg.idle)
    requires RowTells(s, id)
    ensures RowTells(AfterAcquire(cfg, s, c, k, stamp), id)
  {
    Appended(s.history, AcquiredBy(Named(s, At(s, c, k).entry), c), id);
  }

  lemma AcquireTells(cfg: Config, s: State, c: string, k: nat, stamp: int)
    requires RowsOk(s.db) && HistoryOk(s) && At(s, c, k).Clocked?
    ensures HistoryOk(AfterAcquire(cfg, s, c, k, stamp))
  {
    var s' := AfterAcquire(cfg, s, c, k, stamp);
    var key := Named(s, At(s, c, k).entry);
    assert RowTells(s, key);
    if Acquirable(s.db, key, At(s, c, k).at - cfg.idle) {
      OrderlyAppended(s.history, AcquiredBy(key, c));
      forall id: string ensures RowTells(s', id) { AcquiredRowTells(cfg, s, c, k, stamp, id); }
    } else {
      assert s'.db == s.db && s'.history == s.history;
      forall id: string ensures RowTells(s', id) { assert RowTells(s, id); }
    }
  }

  lemma MarkFinalTells(s: State, c: string, k: nat, stamp: int)
    requires RowsOk(s.db) && HistoryOk(s) && At(s, c, k).Finished?
    ensures HistoryOk(AfterMarkFinal(s, c, k, stamp))
  {
    var s' := AfterMarkFinal(s, c, k, stamp);
    var key := Named(s, At(s, c, k).entry);
    assert RowTells(s, key);
    if Finalisable(s.db, key, c) {
      OrderlyAppended(s.history, FinalisedBy(key, c));
      forall id: string ensures RowTells(s', id) {
        assert RowTells(s, id);
        Appended(s.history, FinalisedBy(key, c), id);
      }
    } else {
      assert s'.db == s.db && s'.history == s.history;
      forall id: string ensures RowTells(s', id) { assert RowTells(s, id); }
    }
  }

  lemma {:induction false} HistoryAlways(cfg: Config, s: State, steps: seq<Step>)
    requires Inv(s) && HistoryOk(s) && Allowed(cfg, s, steps)
    ensures HistoryOk(After(cfg, s, steps))
    decreases |steps|
  {
    if steps != [] {
      var step := steps[0];
      InvKept(cfg, s, step);
      if step.Acquire? {
        AcquireTells(cfg, s, step.c, step.k, step.stamp);
      } else if step.MarkFinal? {
        MarkFinalTells(s, step.c, step.k, step.stamp);
      } else {
        QuietStepsTell(cfg, s, step);
      }
      HistoryAlways(cfg, Apply(cfg, s, step), steps[1..]);
    }
  }

  /** In every run an execution is finalised at most once, exactly when its row is final, by the consumer of
      its latest successful Acquire, and nothing acquires it afterwards. */
  lemma FinalisedAtMostOnce(cfg: Config, init: State, steps: seq<Step>, id: string)
    requires Init(init) && Allowed(cfg, init, steps)
    ensures var s := After(cfg, init, steps);
      && Orderly(s.history)
      && Finishes(s.history, id) == (if IsFinal(s.db, id) then 1 else 0)
      && (id in s.db.executions && s.db.executions[id].status != Queued ==>
            s.db.executions[id].worker == LastOwner(s.history, id))
  {
    InitInv(init);
    assert HistoryOk(init);
    HistoryAlways(cfg, init, steps);
    assert RowTells(After(cfg, init, steps), id);
  }
}
