/** Recoverability: from every reachable state some continuation finishes any chosen execution. */
module Recovery {
  import opened Wrappers
  import opened Schema
  import opened ProbeRepository
  import opened Ranking
  import opened Counting
  import opened Protocol
  import opened Invariants
  import opened Outcomes
  import opened Lease
  import opened Retry
  import Lifecycle

  /** Work is lost: a crash, an error, a failed publish or a job that is let go. */
  predicate Mishap(step: Step) { step.Crash? || step.Abandon? || step.Drop? || step.Forget? }

  ghost predicate Undisturbed(steps: seq<Step>) { forall i | 0 <= i < |steps| :: !Mishap(steps[i]) }

  /** Some timed run without any mishap leads from one state to the other. */
  ghost predicate Reaches(cfg: Config, s: State, s': State) {
    exists steps: seq<Step> :: RunsTo(cfg, s, steps, s')
  }

  ghost predicate RunsTo(cfg: Config, s: State, steps: seq<Step>, s': State) {
    TimedRun(cfg, s, steps) && Allowed(cfg, s, steps) && After(cfg, s, steps) == s' && Undisturbed(steps)
  }

  lemma {:induction false} TimedConcat(cfg: Config, s: State, first: seq<Step>, more: seq<Step>)
    requires TimedRun(cfg, s, first) && Allowed(cfg, s, first) && TimedRun(cfg, After(cfg, s, first), more)
    ensures TimedRun(cfg, s, first + more)
    decreases |first|
  {
    if first == [] {
      assert first + more == more;
    } else {
      TimedConcat(cfg, Apply(cfg, s, first[0]), first[1..], more);
      assert (first + more)[1..] == first[1..] + more;
    }
  }

  lemma ReachesTransitive(cfg: Config, a: State, b: State, c: State)
    requires Reaches(cfg, a, b) && Reaches(cfg, b, c)
    ensures Reaches(cfg, a, c)
  {
    var first :| RunsTo(cfg, a, first, b);
    var more :| RunsTo(cfg, b, more, c);
    TimedConcat(cfg, a, first, more);
    AfterConcat(cfg, a, first, more);
    assert RunsTo(cfg, a, first + more, c);
  }

  lemma ReachesItself(cfg: Config, s: State)
    requires Timely(cfg, s)
    ensures Reaches(cfg, s, s)
  {
    assert RunsTo(cfg, s, [], s);
  }

  lemma OneStep(cfg: Config, s: State, step: Step)
    requires Timely(cfg, s) && Enabled(cfg, s, step) && Timely(cfg, Apply(cfg, s, step)) && !Mishap(step)
    ensures Reaches(cfg, s, Apply(cfg, s, step))
  {
    var run := [step];
    assert run[1..] == [];
    assert Allowed(cfg, Apply(cfg, s, step), []) && TimedRun(cfg, Apply(cfg, s, step), []);
    assert RunsTo(cfg, s, run, Apply(cfg, s, step));
  }

  /** Nothing in the state lies in the future. */
  ghost predicate TimesOk(s: State) {
    && (forall id <- s.db.executions :: s.db.executions[id].updatedAt <= s.now)
    && (forall i <- s.pending :: s.pending[i].at <= s.now)
    && (forall c: string, k: nat :: LocalTimeOk(s, c, k))
  }

  ghost predicate LocalTimeOk(s: State, c: string, k: nat) {
    && (At(s, c, k).Clocked? ==> At(s, c, k).at <= s.now)
    && (At(s, c, k).Finished? ==> At(s, c, k).finished <= s.now)
  }

  ghost predicate Good(cfg: Config, s: State) { Inv(s) && TimesOk(s) && Timely(cfg, s) }

  lemma TimesKept(cfg: Config, s: State, step: Step)
    requires RowsOk(s.db) && TimesOk(s) && Enabled(cfg, s, step)
    ensures TimesOk(Apply(cfg, s, step))
  {
    var s' := Apply(cfg, s, step);
    NowSteps(cfg, s, step);
    forall id <- s'.db.executions ensures s'.db.executions[id].updatedAt <= s'.now { RowTimes(cfg, s, step, id); }
    forall i <- s'.pending ensures s'.pending[i].at <= s'.now { PendingTimes(cfg, s, step, i); }
    forall c: string, k: nat ensures LocalTimeOk(s', c, k) {
      assert LocalTimeOk(s, c, k);
      SlotSteps(cfg, s, step, c, k);
    }
  }

  lemma UpdateTimes(cfg: Config, s: State, step: Step, id: string)
    requires TimesOk(s) && Enabled(cfg, s, step) && (step.Acquire? || step.MarkFinal?)
    requires id in Apply(cfg, s, step).db.executions
    ensures Apply(cfg, s, step).db.executions[id].updatedAt <= s.now
  {}

  lemma RowTimes(cfg: Config, s: State, step: Step, id: string)
    requires RowsOk(s.db) && TimesOk(s) && Enabled(cfg, s, step) && id in Apply(cfg, s, step).db.executions
    ensures Apply(cfg, s, step).db.executions[id].updatedAt <= s.now
  {
    if step.Acquire? || step.MarkFinal? {
      UpdateTimes(cfg, s, step, id);
    } else if step.Schedule? {
      ScheduledFacts(s.db, step.sel, step.ids, step.at);
    } else {
      QuietRows(cfg, s, step, id);
      if step.Edit? { Lifecycle.ApplySucceeds(cfg.rules, s.db, step.op); } else { OthersLeaveDb(cfg, s, step); }
    }
  }

  lemma PendingTimes(cfg: Config, s: State, step: Step, i: nat)
    requires Enabled(cfg, s, step) && i in Apply(cfg, s, step).pending
    ensures (i in s.pending && Apply(cfg, s, step).pending[i] == s.pending[i])
         || ((step.Deliver? || (step.Claim? && step.entry == i)) && Apply(cfg, s, step).pending[i].at == s.now)
  {}

  /** While the clock stands still a timely state stays timely. */
  lemma TimelyKept(cfg: Config, s: State, step: Step)
    requires Timely(cfg, s) && SnapshotsOk(s)
    requires Enabled(cfg, s, step) && !step.Tick? && (step.Acquire? ==> step.stamp == s.now)
    ensures Timely(cfg, Apply(cfg, s, step))
  {
    NowSteps(cfg, s, step);
    forall c: string, k: nat ensures WithinBudget(cfg, Apply(cfg, s, step).now, At(Apply(cfg, s, step), c, k)) {
      assert WithinBudget(cfg, s.now, At(s, c, k)) && SnapshotOk(s, c, k);
      SlotSteps(cfg, s, step, c, k);
      if step.Acquire? && Acts(step, c, k) && At(s, c, k).Clocked? { BudgetAtMost(At(s, c, k).work.task.policy); }
    }
  }

  lemma {:induction false} GoodAlways(cfg: Config, s: State, steps: seq<Step>)
    requires Inv(s) && TimesOk(s) && TimedRun(cfg, s, steps)
    ensures Allowed(cfg, s, steps) && Good(cfg, After(cfg, s, steps))
    decreases |steps|
  {
    if steps != [] {
      InvKept(cfg, s, steps[0]);
      TimesKept(cfg, s, steps[0]);
      GoodAlways(cfg, Apply(cfg, s, steps[0]), steps[1..]);
    }
  }

  /** A timed run without mishaps leads from the good state `origin` to `s`. */
  ghost predicate Path(cfg: Config, origin: State, s: State) { Good(cfg, origin) && Reaches(cfg, origin, s) }

  lemma PathIsGood(cfg: Config, origin: State, s: State)
    requires Path(cfg, origin, s)
    ensures Good(cfg, s)
  {
    var steps :| RunsTo(cfg, origin, steps, s);
    GoodAlways(cfg, origin, steps);
  }

  lemma PathTo(cfg: Config, origin: State, s: State)
    requires Good(cfg, origin) && s == origin
    ensures Path(cfg, origin, s)
  {
    ReachesItself(cfg, origin);
  }

  /** One more step on a path. */
  lemma Go(cfg: Config, origin: State, s: State, step: Step) returns (s': State)
    requires Path(cfg, origin, s)
    requires Enabled(cfg, s, step) && !step.Tick? && (step.Acquire? ==> step.stamp == s.now) && !Mishap(step)
    ensures s' == Apply(cfg, s, step) && Path(cfg, origin, s') && s'.now == s.now
  {
    PathIsGood(cfg, origin, s);
    s' := Apply(cfg, s, step);
    TimelyKept(cfg, s, step);
    NowSteps(cfg, s, step);
    OneStep(cfg, s, step);
    ReachesTransitive(cfg, origin, s, s');
  }

  // ---------- one worker carries one job to its end ----------

  /** The row of entry `i` is there to be acquired by a worker that reads the clock now. */
  ghost predicate Ready(cfg: Config, s: State, i: nat) {
    i < |s.stream| && Acquirable(s.db, Named(s, i), s.now - cfg.idle)
  }

  /** Only the row of `id` differs. */
  ghost predicate OnlyRow(db: Tables, db': Tables, id: string) {
    id in db.executions && id in db'.executions && db' == db.(executions := db.executions[id := db'.executions[id]])
  }

  /** One more step of worker (c, 0). */
  lemma Act(cfg: Config, origin: State, s: State, step: Step, c: string) returns (s': State)
    requires Path(cfg, origin, s)
    requires Enabled(cfg, s, step) && Acts(step, c, 0) && (step.Acquire? ==> step.stamp == s.now) && !Mishap(step)
    ensures s' == Apply(cfg, s, step) && Path(cfg, origin, s')
    ensures s'.now == s.now && s'.stream == s.stream && (!Writes(step) ==> s'.db == s.db)
    ensures At(s', c, 0) == NextLocal(cfg, s, step, c, 0)
  {
    s' := Go(cfg, origin, s, step);
    OwnSlot(cfg, s, step, c, 0);
    StreamSteps(cfg, s, step);
    if !Writes(step) { OthersLeaveDb(cfg, s, step); }
  }

  lemma Readable(cfg: Config, origin: State, s: State, i: nat)
    requires Path(cfg, origin, s) && Ready(cfg, s, i)
    ensures AfterGetWork(s, i).Found? && AfterGetWork(s, i).entry == i
    ensures var l := AfterGetTask(s, i, AfterGetWork(s, i).execution);
      l.Read? && l.entry == i && JustRead(s.db, Named(s, i), l.work)
  {
    PathIsGood(cfg, origin, s);
    assert RowOk(s.db, s.db.executions[Named(s, i)]);
  }

  lemma OnlyRowTwice(a: Tables, b: Tables, c: Tables, id: string)
    requires OnlyRow(a, b, id) && OnlyRow(b, c, id)
    ensures OnlyRow(a, c, id)
  {
    assert b.executions[id := c.executions[id]] == a.executions[id := c.executions[id]];
  }

  lemma TakeAndRead(cfg: Config, origin: State, s: State, c: string, i: nat) returns (s': State)
    requires Path(cfg, origin, s) && At(s, c, 0).Idle? && HasSlot(s, c, 0)
    requires i in s.processes[c].inbox && Ready(cfg, s, i)
    ensures Path(cfg, origin, s') && s'.db == s.db && s'.now == s.now && s'.stream == s.stream
    ensures At(s', c, 0).Read? && At(s', c, 0).entry == i
  {
    var s1 := Act(cfg, origin, s, Take(c, 0, i), c);
    Readable(cfg, origin, s1, i);
    s' := ReadBoth(cfg, origin, s1, c, i);
  }

  /** The two reads of GetWork, one right after the other. */
  lemma ReadBoth(cfg: Config, origin: State, s: State, c: string, i: nat) returns (s': State)
    requires Path(cfg, origin, s) && At(s, c, 0) == Holding(i) && AfterGetWork(s, i).Found?
    ensures Path(cfg, origin, s') && s'.db == s.db && s'.now == s.now && s'.stream == s.stream
    ensures At(s', c, 0) == AfterGetTask(s, i, AfterGetWork(s, i).execution)
  {
    var s1 := Act(cfg, origin, s, GetWork(c, 0), c);
    s' := Act(cfg, origin, s1, GetTask(c, 0), c);
  }

  lemma TakeJob(cfg: Config, origin: State, s: State, c: string, i: nat) returns (s': State)
    requires Path(cfg, origin, s) && At(s, c, 0).Idle? && HasSlot(s, c, 0)
    requires i in s.processes[c].inbox && Ready(cfg, s, i)
    ensures Path(cfg, origin, s') && s'.db == s.db && s'.now == s.now && s'.stream == s.stream
    ensures At(s', c, 0).Clocked? && At(s', c, 0).entry == i && At(s', c, 0).at == s.now
  {
    var s1 := TakeAndRead(cfg, origin, s, c, i);
    s' := Act(cfg, origin, s1, ReadClock(c, 0), c);
  }

  lemma Probable(cfg: Config, origin: State, s: State, c: string)
    requires Path(cfg, origin, s) && At(s, c, 0).Clocked?
    ensures Supported(At(s, c, 0).work.execution.probeType)
  {
    PathIsGood(cfg, origin, s);
    assert SnapshotOk(s, c, 0);
    assert RowOk(s.db, s.db.executions[Named(s, At(s, c, 0).entry)]);
  }

  lemma AcquireAndProbe(
    cfg: Config, origin: State, s: State, c: string, i: nat, result: ProbeResult, attempts: int, duration: int)
    returns (s': State)
    requires Path(cfg, origin, s) && At(s, c, 0).Clocked?
    requires At(s, c, 0).entry == i && At(s, c, 0).at == s.now && Ready(cfg, s, i)
    ensures Path(cfg, origin, s') && s'.now == s.now && s'.stream == s.stream
    ensures OnlyRow(s.db, s'.db, Named(s, i)) && Finalisable(s'.db, Named(s, i), c)
    ensures At(s', c, 0).Finished? && At(s', c, 0).entry == i
  {
    Probable(cfg, origin, s, c);
    var s1 := Act(cfg, origin, s, Acquire(c, 0, s.now), c);
    assert s1.db == Acquired(s.db, Named(s, i), c, s.now, s.now);
    s' := Act(cfg, origin, s1, Probe(c, 0, result, attempts, duration), c);
  }

  lemma FinishedBefore(cfg: Config, origin: State, s: State, c: string, k: nat)
    requires Path(cfg, origin, s) && At(s, c, k).Finished?
    ensures At(s, c, k).finished <= s.now
  {
    PathIsGood(cfg, origin, s);
    assert LocalTimeOk(s, c, k);
  }

  lemma FinishAndAck(cfg: Config, origin: State, s: State, c: string, i: nat) returns (s': State)
    requires Path(cfg, origin, s) && At(s, c, 0).Finished? && At(s, c, 0).entry == i
    requires Finalisable(s.db, Named(s, i), c) && i < |s.stream|
    ensures Path(cfg, origin, s') && s'.now == s.now && s'.stream == s.stream
    ensures OnlyRow(s.db, s'.db, Named(s, i)) && IsFinal(s'.db, Named(s, i)) && i in s'.acked
  {
    FinishedBefore(cfg, origin, s, c, 0);
    var l := At(s, c, 0);
    var s1 := Act(cfg, origin, s, MarkFinal(c, 0, s.now), c);
    assert s1.db == ProbeRepository.Finalised(s.db, Named(s, i), l.finished, l.result, l.attempts, l.duration, s.now);
    s' := Act(cfg, origin, s1, Ack(c, 0), c);
  }

  /** A job whose row is ready ends with a final row and an acknowledged message. */
  lemma CarryOut(cfg: Config, origin: State, s: State, c: string, i: nat) returns (s': State)
    requires Path(cfg, origin, s) && HasSlot(s, c, 0) && At(s, c, 0).Idle?
    requires i in s.processes[c].inbox && Ready(cfg, s, i)
    ensures Path(cfg, origin, s') && s'.now == s.now && s'.stream == s.stream
    ensures OnlyRow(s.db, s'.db, Named(s, i)) && IsFinal(s'.db, Named(s, i)) && i in s'.acked
  {
    var s1 := TakeJob(cfg, origin, s, c, i);
    assert Ready(cfg, s1, i);
    var s2 := AcquireAndProbe(cfg, origin, s1, c, i, ProbeResult(true, 0, "", ""), 1, 0);
    s' := FinishAndAck(cfg, origin, s2, c, i);
    OnlyRowTwice(s.db, s2.db, s'.db, Named(s, i));
  }

  // ---------- bringing the job to the worker ----------

  /** Process `c` runs with an idle worker. */
  ghost predicate Staffed(s: State, c: string) { HasSlot(s, c, 0) && At(s, c, 0).Idle? }

  predicate Reception(step: Step, c: string) { step == Deliver(c) || (step.Claim? && step.c == c) }

  lemma ReceptionFacts(cfg: Config, s: State, step: Step, c: string)
    requires Staffed(s, c) && Enabled(cfg, s, step) && Reception(step, c)
    ensures var s' := Apply(cfg, s, step);
      Staffed(s', c) && s'.db == s.db && s'.now == s.now && s'.stream == s.stream
  {}

  /** A reception step by `c`: the database, the clock, the stream and the worker stay as they were. */
  lemma Receives(cfg: Config, origin: State, s: State, step: Step, c: string) returns (s': State)
    requires Path(cfg, origin, s) && Staffed(s, c) && Enabled(cfg, s, step) && Reception(step, c)
    ensures s' == Apply(cfg, s, step) && Path(cfg, origin, s') && Staffed(s', c)
    ensures s'.db == s.db && s'.now == s.now && s'.stream == s.stream
  {
    s' := Go(cfg, origin, s, step);
    ReceptionFacts(cfg, s, step, c);
  }

  /** Reading on to the end of what is published delivers entry `n`. */
  lemma {:induction false} DeliverUpTo(cfg: Config, origin: State, s: State, c: string, n: nat) returns (s': State)
    requires Path(cfg, origin, s) && Staffed(s, c) && s.cursor <= n < |s.stream|
    ensures Path(cfg, origin, s') && Staffed(s', c) && n in s'.processes[c].inbox
    ensures s'.db == s.db && s'.now == s.now && s'.stream == s.stream
    decreases n - s.cursor
  {
    var last := s.cursor == n;
    s' := Receives(cfg, origin, s, Deliver(c), c);
    if !last { s' := DeliverUpTo(cfg, origin, s', c, n); }
  }

  /** Scanning on through the pending list claims entry `i`. */
  lemma {:induction false} ClaimUpTo(cfg: Config, origin: State, s: State, c: string, i: nat) returns (s': State)
    requires Path(cfg, origin, s) && Staffed(s, c) && IdleEntry(cfg, s, i) && s.processes[c].scan <= i
    ensures Path(cfg, origin, s') && Staffed(s', c) && i in s'.processes[c].inbox
    ensures s'.db == s.db && s'.now == s.now && s'.stream == s.stream
    decreases i - s.processes[c].scan
  {
    var j := FirstIdle(cfg, s, s.processes[c].scan, i);
    s' := Receives(cfg, origin, s, Claim(c, j), c);
    if j < i { s' := ClaimUpTo(cfg, origin, s', c, i); }
  }

  lemma {:induction false} FirstIdle(cfg: Config, s: State, from: nat, i: nat) returns (j: nat)
    requires from <= i && IdleEntry(cfg, s, i)
    ensures from <= j <= i && IdleEntry(cfg, s, j) && forall x | from <= x < j :: !IdleEntry(cfg, s, x)
    decreases i - from
  {
    if IdleEntry(cfg, s, from) { j := from; } else { j := FirstIdle(cfg, s, from + 1, i); }
  }

  lemma {:induction false} LongerThanAll(names: set<string>) returns (n: nat)
    ensures forall x <- names :: |x| < n
    decreases |names|
  {
    if names == {} {
      n := 0;
    } else {
      var x :| x in names;
      var m := LongerThanAll(names - {x});
      n := if m <= |x| then |x| + 1 else m;
      forall y <- names ensures |y| < n { assert y == x || y in names - {x}; }
    }
  }

  /** A new worker process comes up. */
  lemma StartProcess(cfg: Config, origin: State, s: State) returns (s': State, c: string)
    requires Path(cfg, origin, s)
    ensures Path(cfg, origin, s') && Staffed(s', c) && s'.processes[c].scan == 0
    ensures s'.db == s.db && s'.now == s.now && s'.stream == s.stream
    ensures s'.pending == s.pending && s'.cursor == s.cursor
    ensures c !in s.processes && forall d: string, k: nat | d != c || k != 0 :: At(s', d, k) == At(s, d, k)
  {
    var n := LongerThanAll(s.processes.Keys);
    c := seq(n, _ => 'w');
    s' := Go(cfg, origin, s, Start(c, 1));
  }

  // ---------- letting time pass ----------

  ghost function Probers(s: State): set<(string, nat)> {
    set c <- s.processes, k | 0 <= k < |s.processes[c].slots| && At(s, c, k).InWindow() :: (c, k)
  }

  /** Nothing but rows, clocks and workers moved: the stream and the group stand still. */
  ghost predicate SameGroup(s: State, s': State) {
    s'.stream == s.stream && s'.cursor == s.cursor && s'.pending == s.pending && s'.acked == s.acked
  }

  lemma ProberSteps(cfg: Config, origin: State, s: State, step: Step)
    requires Path(cfg, origin, s) && Enabled(cfg, s, step) && (step.Probe? || step.MarkFinal?)
    ensures Probers(Apply(cfg, s, step)) <= Probers(s)
    ensures SameGroup(s, Apply(cfg, s, step)) && DbMoves(s.db, Apply(cfg, s, step).db)
  {
    forall w <- Probers(Apply(cfg, s, step)) ensures w in Probers(s) { SlotSteps(cfg, s, step, w.0, w.1); }
    PathIsGood(cfg, origin, s);
    StepMovesRows(cfg, s, step);
  }

  lemma FinishProber(cfg: Config, origin: State, s: State, c: string, k: nat) returns (s': State)
    requires Path(cfg, origin, s) && At(s, c, k).Finished?
    ensures Path(cfg, origin, s') && s'.now == s.now
    ensures SameGroup(s, s') && DbMoves(s.db, s'.db)
    ensures Probers(s') <= Probers(s) && (c, k) !in Probers(s')
  {
    FinishedBefore(cfg, origin, s, c, k);
    var mark := MarkFinal(c, k, s.now);
    s' := Go(cfg, origin, s, mark);
    ProberSteps(cfg, origin, s, mark);
    OwnSlot(cfg, s, mark, c, k);
  }

  /** Workers that are probing can always finish first, at the same instant. */
  lemma {:induction false} FinishProbers(cfg: Config, origin: State, s: State) returns (s': State)
    requires Path(cfg, origin, s)
    ensures Path(cfg, origin, s') && Probers(s') == {} && s'.now == s.now
    ensures SameGroup(s, s') && DbMoves(s.db, s'.db)
    decreases |Probers(s)|
  {
    if Probers(s) == {} { return s; }
    var w :| w in Probers(s);
    var s1 := s;
    if At(s, w.0, w.1).Probing? {
      var probe := Probe(w.0, w.1, ProbeResult(true, 0, "", ""), 1, 0);
      s1 := Go(cfg, origin, s, probe);
      ProberSteps(cfg, origin, s, probe);
      OwnSlot(cfg, s, probe, w.0, w.1);
    }
    var s2 := FinishProber(cfg, origin, s1, w.0, w.1);
    Fewer(Probers(s2), Probers(s), w);
    DbMovesTwice(s.db, s1.db, s2.db);
    s' := FinishProbers(cfg, origin, s2);
    DbMovesTwice(s.db, s2.db, s'.db);
  }

  lemma TickWhileQuiet(cfg: Config, s: State, d: nat)
    requires Probers(s) == {}
    ensures Timely(cfg, Apply(cfg, s, Tick(d)))
  {
    forall c: string, k: nat ensures !At(Apply(cfg, s, Tick(d)), c, k).InWindow() {
      SlotSteps(cfg, s, Tick(d), c, k);
      assert (c, k) !in Probers(s);
    }
  }

  /** Time can pass by any amount, and afterwards everything in the state is at least that old. */
  lemma WaitFor(cfg: Config, origin: State, s: State, d: nat) returns (s': State)
    requires Path(cfg, origin, s)
    ensures Path(cfg, origin, s') && s'.now == s.now + d
    ensures SameGroup(s, s') && DbMoves(s.db, s'.db)
    ensures forall id <- s'.db.executions :: s'.db.executions[id].updatedAt <= s.now
    ensures forall i <- s'.pending :: s'.pending[i].at <= s.now
  {
    var s1 := FinishProbers(cfg, origin, s);
    Aged(cfg, origin, s1);
    s' := TickOn(cfg, origin, s1, d);
  }

  lemma Aged(cfg: Config, origin: State, s: State)
    requires Path(cfg, origin, s)
    ensures forall id <- s.db.executions :: s.db.executions[id].updatedAt <= s.now
    ensures forall i <- s.pending :: s.pending[i].at <= s.now
  {
    PathIsGood(cfg, origin, s);
  }

  lemma TickOn(cfg: Config, origin: State, s: State, d: nat) returns (s': State)
    requires Path(cfg, origin, s) && Probers(s) == {}
    ensures s' == s.(now := s.now + d) && Path(cfg, origin, s')
  {
    PathIsGood(cfg, origin, s);
    s' := s.(now := s.now + d);
    assert s' == Apply(cfg, s, Tick(d));
    TickWhileQuiet(cfg, s, d);
    OneStep(cfg, s, Tick(d));
    ReachesTransitive(cfg, origin, s, s');
  }

  // ---------- the two ways back ----------

  /** The execution is final and a message that announces it is acknowledged. */
  ghost predicate Settled(s: State, id: string) {
    IsFinal(s.db, id) && exists i: nat :: i in s.acked && Named(s, i) == id
  }

  lemma FinalIsDone(cfg: Config, origin: State, s: State, i: nat)
    requires Path(cfg, origin, s) && IsFinal(s.db, Named(s, i))
    ensures AfterGetWork(s, i).Found? && AfterGetTask(s, i, AfterGetWork(s, i).execution) == Done(i)
  {
    PathIsGood(cfg, origin, s);
    assert RowOk(s.db, s.db.executions[Named(s, i)]);
  }

  lemma TakeFinal(cfg: Config, origin: State, s: State, c: string, i: nat) returns (s': State)
    requires Path(cfg, origin, s) && Staffed(s, c) && i in s.processes[c].inbox
    requires i < |s.stream| && IsFinal(s.db, Named(s, i))
    ensures Path(cfg, origin, s') && At(s', c, 0) == Done(i) && s'.stream == s.stream && s'.db == s.db
  {
    var s1 := Act(cfg, origin, s, Take(c, 0, i), c);
    FinalIsDone(cfg, origin, s1, i);
    s' := ReadBoth(cfg, origin, s1, c, i);
  }

  /** A redelivered message whose execution turned out to be final is just acknowledged. */
  lemma AckFinal(cfg: Config, origin: State, s: State, c: string, i: nat) returns (s': State)
    requires Path(cfg, origin, s) && Staffed(s, c) && i in s.processes[c].inbox
    requires i < |s.stream| && IsFinal(s.db, Named(s, i))
    ensures Path(cfg, origin, s') && Settled(s', Named(s, i))
  {
    var s1 := TakeFinal(cfg, origin, s, c, i);
    s' := Act(cfg, origin, s1, Ack(c, 0), c);
    assert i in s'.acked && Named(s', i) == Named(s, i);
  }

  /** By way of the pending list: wait out the idle timeout and claim. */
  lemma ByClaim(cfg: Config, s: State, id: string) returns (s': State)
    requires Good(cfg, s) && id in s.db.executions && DeliveredOnce(s, id)
    ensures Reaches(cfg, s, s') && Settled(s', id)
  {
    var i: nat :| i < s.cursor && Named(s, i) == id;
    PathTo(cfg, s, s);
    if i in s.acked { return s; }
    var s1, c := Reclaim(cfg, s, i);
    if IsFinal(s1.db, id) {
      s' := AckFinal(cfg, s, s1, c, i);
    } else {
      s' := CarryOut(cfg, s, s1, c, i);
    }
  }

  lemma OldRow(cfg: Config, s: State, since: int, i: nat)
    requires Named(s, i) in s.db.executions && s.db.executions[Named(s, i)].updatedAt <= since
    requires i < |s.stream| && s.now == since + cfg.idle + 1
    ensures IsFinal(s.db, Named(s, i)) || Ready(cfg, s, i)
  {}

  lemma InStream(cfg: Config, s: State, i: nat)
    requires Good(cfg, s) && i in s.pending
    ensures i < |s.stream|
  {}

  lemma Reclaim(cfg: Config, s: State, i: nat) returns (s': State, c: string)
    requires Path(cfg, s, s) && i in s.pending && Named(s, i) in s.db.executions
    ensures Path(cfg, s, s') && Staffed(s', c) && i in s'.processes[c].inbox
    ensures s'.stream == s.stream && (IsFinal(s'.db, Named(s, i)) || Ready(cfg, s', i))
  {
    InStream(cfg, s, i);
    var s1 := WaitFor(cfg, s, s, cfg.idle + 1);
    OldRow(cfg, s1, s.now, i);
    var s2;
    s2, c := StartProcess(cfg, s, s1);
    s' := ClaimUpTo(cfg, s, s2, c, i);
  }

  lemma ScanAgain(cfg: Config, origin: State, s: State, x: string) returns (s': State)
    requires Path(cfg, origin, s) && cfg.batch > 0
    requires IsLeast(QueueOrder(s.db), QueuedIds(s.db, s.now - 2 * cfg.interval), x)
    ensures Path(cfg, origin, s') && s'.db == s.db && s'.now == s.now && MessageOf(s.db, x) in s'.outbox
  {
    var sel := TopStartingWith(QueueOrder(s.db), QueuedIds(s.db, s.now - 2 * cfg.interval), cfg.batch, x);
    s' := Go(cfg, origin, s, Step.Recover(s.now, sel));
    assert MessageOf(s.db, x) in Reminders(s.db, sel);
  }

  lemma PublishOne(cfg: Config, origin: State, s: State, m: Message) returns (s': State)
    requires Path(cfg, origin, s) && m in s.outbox
    ensures Path(cfg, origin, s') && s'.db == s.db && s'.now == s.now && s'.processes == s.processes
    ensures s'.cursor == s.cursor < |s'.stream| && s'.stream == s.stream + [m]
  {
    PathIsGood(cfg, origin, s);
    s' := Go(cfg, origin, s, Publish(m));
  }

  lemma RecoverSteps(cfg: Config, origin: State, s: State, x: string) returns (s': State, n: nat)
    requires Path(cfg, origin, s) && cfg.batch > 0
    requires IsLeast(QueueOrder(s.db), QueuedIds(s.db, s.now - 2 * cfg.interval), x)
    ensures Path(cfg, origin, s') && s'.db == s.db && s'.now == s.now
    ensures s'.cursor <= n < |s'.stream| && Named(s', n) == x
  {
    var s1 := ScanAgain(cfg, origin, s, x);
    s' := PublishOne(cfg, origin, s1, MessageOf(s.db, x));
    n := |s'.stream| - 1;
  }

  lemma StartAndDeliver(cfg: Config, origin: State, s: State, n: nat) returns (s': State, c: string)
    requires Path(cfg, origin, s) && s.cursor <= n < |s.stream|
    ensures Path(cfg, origin, s') && Staffed(s', c) && n in s'.processes[c].inbox
    ensures s'.db == s.db && s'.now == s.now && s'.stream == s.stream && Named(s', n) == Named(s, n)
  {
    var s1;
    s1, c := StartProcess(cfg, origin, s);
    s' := DeliverUpTo(cfg, origin, s1, c, n);
  }

  lemma BringOldest(cfg: Config, origin: State, s: State, x: string) returns (s': State, c: string, n: nat)
    requires Path(cfg, origin, s) && cfg.batch > 0
    requires IsLeast(QueueOrder(s.db), QueuedIds(s.db, s.now - 2 * cfg.interval), x)
    ensures Path(cfg, origin, s') && Staffed(s', c) && n in s'.processes[c].inbox
    ensures s'.db == s.db && s'.now == s.now && n < |s'.stream| && Named(s', n) == x
  {
    var s1;
    s1, n := RecoverSteps(cfg, origin, s, x);
    s', c := StartAndDeliver(cfg, origin, s1, n);
  }

  /** Recover, publish, deliver and carry out the oldest queued execution. */
  lemma OldestFirst(cfg: Config, origin: State, s: State, x: string) returns (s': State)
    requires Path(cfg, origin, s) && cfg.batch > 0
    requires IsLeast(QueueOrder(s.db), QueuedIds(s.db, s.now - 2 * cfg.interval), x)
    ensures Path(cfg, origin, s') && s'.now == s.now
    ensures OnlyRow(s.db, s'.db, x) && Settled(s', x)
  {
    var s1, c, n := BringOldest(cfg, origin, s, x);
    s' := CarryOut(cfg, origin, s1, c, n);
    assert n in s'.acked && Named(s', n) == x;
  }

  /** Finishing the row of `x` takes it, and nothing else, out of the scan. */
  lemma ScanShrinks(db: Tables, db': Tables, x: string, before: int)
    requires OnlyRow(db, db', x) && x in QueuedIds(db, before) && IsFinal(db', x)
    ensures QueuedIds(db', before) == QueuedIds(db, before) - {x}
    ensures |QueuedIds(db', before)| < |QueuedIds(db, before)|
  {}

  lemma ScanHead(s: State, before: int) returns (x: string)
    requires QueuedIds(s.db, before) != {}
    ensures IsLeast(QueueOrder(s.db), QueuedIds(s.db, before), x)
  {
    HasLeast(QueueOrder(s.db), QueuedIds(s.db, before));
    x :| IsLeast(QueueOrder(s.db), QueuedIds(s.db, before), x);
  }

  /** By way of the recovery scan: everything that is queued ahead goes first. */
  lemma {:induction false} ByScan(cfg: Config, origin: State, s: State, id: string, before: int) returns (s': State)
    requires Path(cfg, origin, s) && cfg.batch > 0 && before == s.now - 2 * cfg.interval
    requires id in QueuedIds(s.db, before)
    ensures Reaches(cfg, origin, s') && Settled(s', id)
    decreases |QueuedIds(s.db, before)|
  {
    var x := ScanHead(s, before);
    s' := OldestFirst(cfg, origin, s, x);
    if x != id {
      ScanShrinks(s.db, s'.db, x, before);
      s' := ByScan(cfg, origin, s', id, before);
    }
  }

  /** By way of the recovery scan, after waiting until it looks at the execution. */
  lemma ByWaiting(cfg: Config, s: State, id: string) returns (s': State)
    requires Good(cfg, s) && cfg.batch > 0 && id in s.db.executions && !DeliveredOnce(s, id)
    ensures Reaches(cfg, s, s') && Settled(s', id)
  {
    PathTo(cfg, s, s);
    var late := s.db.executions[id].scheduledAt + 2 * cfg.interval + 1 - s.now;
    var s1 := WaitFor(cfg, s, s, if late > 0 then late else 0);
    PathIsGood(cfg, s, s1);
    StillQueued(s, s1, id);
    s' := ByScan(cfg, s, s1, id, s1.now - 2 * cfg.interval);
  }

  lemma StillQueued(s: State, s': State, id: string)
    requires id in s.db.executions && !DeliveredOnce(s, id) && SameGroup(s, s') && DbMoves(s.db, s'.db)
    requires StartedDelivered(s')
    ensures id in s'.db.executions && s'.db.executions[id].status == Queued
    ensures s'.db.executions[id].scheduledAt == s.db.executions[id].scheduledAt
  {
    assert forall i: nat :: Named(s', i) == Named(s, i);
    assert !DeliveredOnce(s', id);
    assert RowMoves(s.db.executions[id], s'.db.executions[id]);
  }

  /** From every state a timed run can reach, a timed continuation without any mishap makes any chosen
      execution final and acknowledges a message of it. */
  lemma Recoverable(cfg: Config, init: State, steps: seq<Step>, id: string) returns (s': State)
    requires Init(init) && TimedRun(cfg, init, steps) && cfg.batch > 0
    requires Allowed(cfg, init, steps) && id in After(cfg, init, steps).db.executions
    ensures Reaches(cfg, After(cfg, init, steps), s') && Settled(s', id)
  {
    InitInv(init);
    GoodAlways(cfg, init, steps);
    var s := After(cfg, init, steps);
    if DeliveredOnce(s, id) {
      s' := ByClaim(cfg, s, id);
    } else {
      s' := ByWaiting(cfg, s, id);
    }
  }

  // ---------- from any reachable state, timed or not ----------

  /** Nobody inside a window acquired before `since`. */
  ghost predicate StampedSince(s: State, since: int) {
    forall c: string, k: nat {:trigger At(s, c, k)} ::
      && (At(s, c, k).Clocked? ==> since <= At(s, c, k).at)
      && (At(s, c, k).InWindow() ==> since <= At(s, c, k).stamp)
  }

  lemma StampedKept(cfg: Config, s: State, step: Step, since: int)
    requires Enabled(cfg, s, step) && StampedSince(s, since) && since <= s.now
    ensures StampedSince(Apply(cfg, s, step), since)
  {
    forall c: string, k: nat ensures
      && (At(Apply(cfg, s, step), c, k).Clocked? ==> since <= At(Apply(cfg, s, step), c, k).at)
      && (At(Apply(cfg, s, step), c, k).InWindow() ==> since <= At(Apply(cfg, s, step), c, k).stamp)
    {
      SlotSteps(cfg, s, step, c, k);
    }
  }

  /** The overhead plays no part in what a step does. */
  lemma SameSteps(cfg: Config, s: State, step: Step, overhead: nat)
    ensures Enabled(cfg, s, step) <==> Enabled(cfg.(overhead := overhead), s, step)
    ensures Enabled(cfg, s, step) ==> Apply(cfg, s, step) == Apply(cfg.(overhead := overhead), s, step)
  {
    assert forall j: nat :: IdleEntry(cfg, s, j) == IdleEntry(cfg.(overhead := overhead), s, j);
  }

  lemma {:induction false} SameRuns(cfg: Config, s: State, steps: seq<Step>, overhead: nat)
    requires Allowed(cfg, s, steps)
    ensures Allowed(cfg.(overhead := overhead), s, steps)
    ensures After(cfg, s, steps) == After(cfg.(overhead := overhead), s, steps)
    decreases |steps|
  {
    if steps != [] {
      SameSteps(cfg, s, steps[0], overhead);
      SameRuns(cfg, Apply(cfg, s, steps[0]), steps[1..], overhead);
    }
  }

  lemma {:induction false} ClockAdvances(cfg: Config, s: State, steps: seq<Step>)
    requires Allowed(cfg, s, steps)
    ensures s.now <= After(cfg, s, steps).now
    decreases |steps|
  {
    if steps != [] {
      NowSteps(cfg, s, steps[0]);
      ClockAdvances(cfg, Apply(cfg, s, steps[0]), steps[1..]);
    }
  }

  lemma TimelyIfRecent(cfg: Config, s: State, since: int)
    requires StampedSince(s, since) && SnapshotsOk(s) && s.now <= since + cfg.overhead
    ensures Timely(cfg, s)
  {
    forall c: string, k: nat ensures WithinBudget(cfg, s.now, At(s, c, k)) {
      assert SnapshotOk(s, c, k);
      if At(s, c, k).InWindow() { BudgetAtMost(At(s, c, k).work.task.policy); }
    }
  }

  /** Every run is timed for an overhead as long as the run itself. */
  lemma {:induction false} TimedForLongOverhead(cfg: Config, s: State, steps: seq<Step>, since: int)
    requires Inv(s) && StampedSince(s, since) && since <= s.now && Allowed(cfg, s, steps)
    requires After(cfg, s, steps).now <= since + cfg.overhead
    ensures TimedRun(cfg, s, steps)
    decreases |steps|
  {
    ClockAdvances(cfg, s, steps);
    TimelyIfRecent(cfg, s, since);
    if steps != [] {
      InvKept(cfg, s, steps[0]);
      StampedKept(cfg, s, steps[0], since);
      NowSteps(cfg, s, steps[0]);
      TimedForLongOverhead(cfg, Apply(cfg, s, steps[0]), steps[1..], since);
    }
  }

  /** From every reachable state, whether or not its run kept to any budget, a continuation without any mishap makes
      any chosen execution final and acknowledges a message of it. */
  lemma RecoverableFromAnywhere(cfg: Config, init: State, steps: seq<Step>, id: string) returns (more: seq<Step>)
    requires Init(init) && Allowed(cfg, init, steps) && cfg.batch > 0 && id in After(cfg, init, steps).db.executions
    ensures Undisturbed(more) && Allowed(cfg, After(cfg, init, steps), more)
    ensures Settled(After(cfg, After(cfg, init, steps), more), id)
  {
    var s := After(cfg, init, steps);
    ClockAdvances(cfg, init, steps);
    var overhead: nat := s.now - init.now;
    var wide := cfg.(overhead := overhead);
    SameRuns(cfg, init, steps, overhead);
    InitInv(init);
    TimedForLongOverhead(wide, init, steps, init.now);
    var s' := Recoverable(wide, init, steps, id);
    more :| RunsTo(wide, s, more, s');
    SameRuns(wide, s, more, cfg.overhead);
    assert wide.(overhead := cfg.overhead) == cfg;
  }
}
