/** The protocol's messages as stream entries: whatever the protocol publishes can be read back. */
module Publishing {
  import opened Wrappers
  import opened Schema
  import opened ProbeRepository
  import opened Ranking
  import opened Protocol
  import opened Invariants
  import opened Outcomes
  import opened Retry
  import Lifecycle
  import Decimal
  import Calendar
  import Rfc3339
  import StreamCodec

  /** The beginning of 1970, from which the rows count their milliseconds. */
  const EPOCH := Rfc3339.DAY * 719_528

  /** The beginning of year 0, in milliseconds from the epoch. */
  const EARLIEST := -719_528 * 86_400_000

  function Instant(milliseconds: int): int { EPOCH + NANOSECONDS_PER_MILLISECOND * milliseconds }

  /** The message as Publish writes it. */
  function OnTheWire(m: Message): StreamCodec.Message {
    StreamCodec.Message(m.execution, m.task, Instant(m.scheduledAt))
  }

  predicate TaskDated(t: Task) { EARLIEST <= t.nextRunAt }

  predicate RowDated(id: string, e: Execution, now: int) { id != "" && EARLIEST <= e.scheduledAt <= now }

  /** Every task is due in year 0 or later, and every execution has an id and was due by now. */
  ghost predicate Dated(db: Tables, now: int) {
    && (forall t <- db.tasks :: TaskDated(db.tasks[t]))
    && (forall id <- db.executions :: RowDated(id, db.executions[id], now))
  }

  lemma EditKeepsDates(rules: Lifecycle.Rules, db: Tables, op: Lifecycle.Operation, now: int)
    requires Lifecycle.Chain(db) && Lifecycle.Refusal(rules, db, op) == None && (op.CreateTask? ==> 0 <= op.now)
    requires Dated(db, now)
    ensures Dated(Lifecycle.Apply(rules, db, op), now)
  {
    Lifecycle.ApplySucceeds(rules, db, op);
    var db' := Lifecycle.Apply(rules, db, op);
    forall t <- db'.tasks ensures TaskDated(db'.tasks[t]) {
      if t in db.tasks { assert TaskDated(db.tasks[t]); }
    }
  }

  lemma AdvancedIsDated(db: Tables, row: nat, at: int)
    requires Lifecycle.Chain(db) && Due(db, row, at) && TaskDated(db.tasks[row])
    ensures TaskDated(Advanced(db.tasks[row], at))
  {
    assert Lifecycle.TaskLinked(db, db.tasks[row]);
  }

  lemma ScheduleKeepsDates(db: Tables, sel: seq<nat>, ids: seq<string>, at: int, now: int)
    requires RowsOk(db) && Schedulable(db, sel, ids, at) && at <= now && forall i | 0 <= i < |ids| :: ids[i] != ""
    requires Dated(db, now)
    ensures Dated(Scheduled(db, sel, ids, at), now)
  {
    var db' := Scheduled(db, sel, ids, at);
    ScheduledFacts(db, sel, ids, at);
    forall t <- db'.tasks ensures TaskDated(db'.tasks[t]) {
      assert TaskDated(db.tasks[t]);
      if t in sel { AdvancedIsDated(db, t, at); }
    }
    forall id <- db'.executions ensures RowDated(id, db'.executions[id], now) {
      if id in db.executions {
        assert RowDated(id, db.executions[id], now);
      } else {
        var i :| 0 <= i < |ids| && ids[i] == id;
        assert TaskDated(db.tasks[sel[i]]);
      }
    }
  }

  lemma MovesKeepDates(db: Tables, db': Tables, now: int)
    requires Dated(db, now) && DbMoves(db, db') && db'.executions.Keys == db.executions.Keys && db'.tasks == db.tasks
    ensures Dated(db', now)
  {
    forall id <- db'.executions ensures RowDated(id, db'.executions[id], now) {
      assert RowMoves(db.executions[id], db'.executions[id]) && RowDated(id, db.executions[id], now);
    }
  }

  lemma WorkKeepsDates(cfg: Config, s: State, step: Step, now: int)
    requires Enabled(cfg, s, step) && (step.Acquire? || step.MarkFinal?) && Dated(s.db, now)
    ensures Dated(Apply(cfg, s, step).db, now)
  {
    if step.Acquire? {
      AcquireMovesRows(cfg, s, step.c, step.k, step.stamp);
    } else {
      MarkFinalMovesRows(s, step.c, step.k, step.stamp);
    }
    MovesKeepDates(s.db, Apply(cfg, s, step).db, now);
  }

  lemma LaterIsDated(db: Tables, now: int, later: int)
    requires Dated(db, now) && now <= later
    ensures Dated(db, later)
  {
    forall id <- db.executions ensures RowDated(id, db.executions[id], later) {
      assert RowDated(id, db.executions[id], now);
    }
  }

  lemma DatesKept(cfg: Config, s: State, step: Step)
    requires RowsOk(s.db) && Enabled(cfg, s, step) && Dated(s.db, s.now)
    ensures Dated(Apply(cfg, s, step).db, Apply(cfg, s, step).now)
  {
    if step.Edit? {
      EditKeepsDates(cfg.rules, s.db, step.op, s.now);
    } else if step.Schedule? {
      ScheduleKeepsDates(s.db, step.sel, step.ids, step.at, s.now);
    } else if step.Acquire? || step.MarkFinal? {
      WorkKeepsDates(cfg, s, step, s.now);
    } else {
      OthersLeaveDb(cfg, s, step);
      LaterIsDated(s.db, s.now, Apply(cfg, s, step).now);
    }
  }

  lemma {:induction false} DatesAlways(cfg: Config, s: State, steps: seq<Step>)
    requires Inv(s) && Dated(s.db, s.now) && Allowed(cfg, s, steps)
    ensures Dated(After(cfg, s, steps).db, After(cfg, s, steps).now)
    decreases |steps|
  {
    if steps != [] {
      DatesKept(cfg, s, steps[0]);
      InvKept(cfg, s, steps[0]);
      DatesAlways(cfg, Apply(cfg, s, steps[0]), steps[1..]);
    }
  }

  // ---------- years ----------

  lemma YearZero()
    ensures Calendar.YearStart(0) == 0 && Calendar.YearStart(1970) == 719_528
  {}

  lemma DayOf(t: int, days: int)
    ensures t < Rfc3339.DAY * days ==> t / Rfc3339.DAY < days
    ensures t >= Rfc3339.DAY * days ==> t / Rfc3339.DAY >= days
  {}

  lemma YearBetween(y: int, d: int)
    requires Calendar.YearStart(y) <= d < Calendar.YearStart(y + 1) && 0 <= d < Calendar.YearStart(10000)
    ensures 0 <= y < 10000
  {
    YearZero();
    if y < 0 { Calendar.YearsGrow(y + 1, 0); }
    if y >= 10000 { Calendar.YearsGrow(10000, y); }
  }

  /** Instants between the beginnings of years 0 and 10000 have a year of four digits. */
  lemma FourDigitYear(t: int)
    requires 0 <= t < Rfc3339.DAY * Calendar.YearStart(10000)
    ensures 0 <= Rfc3339.DateAt(t).year < 10000
  {
    var date := Rfc3339.DateAt(t);
    DayOf(t, 0);
    DayOf(t, Calendar.YearStart(10000));
    Calendar.DayInYear(date.year, date.month, date.day);
    YearBetween(date.year, t / Rfc3339.DAY);
  }

  lemma KnownIsPublishable(s: State, m: Message)
    requires RowsOk(s.db) && Known(s.db, m) && Dated(s.db, s.now)
    requires Instant(s.now) < Rfc3339.DAY * Calendar.YearStart(10000) && s.db.nextTask <= Decimal.UINT64
    ensures StreamCodec.Publishable(OnTheWire(m))
  {
    assert RowDated(m.execution, s.db.executions[m.execution], s.now);
    assert RowOk(s.db, s.db.executions[m.execution]);
    FourDigitYear(Instant(m.scheduledAt));
  }

  /** No message that the protocol publishes is ever dropped as undecodable or read as another. The bounds are those
      of the columns: 64-bit task ids and years up to 9999. */
  lemma PublishedAreDecodable(cfg: Config, init: State, steps: seq<Step>, i: nat)
    requires Init(init) && Allowed(cfg, init, steps) && forall t <- init.db.tasks :: TaskDated(init.db.tasks[t])
    requires var s := After(cfg, init, steps);
      && i < |s.stream| && s.db.nextTask <= Decimal.UINT64
      && Instant(s.now) < Rfc3339.DAY * Calendar.YearStart(10000)
    ensures var m := OnTheWire(After(cfg, init, steps).stream[i]);
      StreamCodec.Decode(StreamCodec.Encode(m)) == Success(m)
  {
    InitInv(init);
    InvAlways(cfg, init, steps);
    DatesAlways(cfg, init, steps);
    var s := After(cfg, init, steps);
    KnownIsPublishable(s, s.stream[i]);
    StreamCodec.DecodeEncode(OnTheWire(s.stream[i]));
  }
}
