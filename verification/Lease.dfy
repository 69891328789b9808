/** The lease that `updated_at` gives a worker on an execution: when it excludes a second worker. */
module Lease {
  import opened Wrappers
  import opened Schema
  import opened ProbeRepository
  import opened Protocol
  import opened Invariants
  import opened Outcomes
  import opened Ranking
  import opened Retry
  import Lifecycle

  /** The worker has been inside its probing window for no longer than the retry budget of the policy it read,
      and the overhead, allow. The time counts from the updated_at value that its Acquire wrote. */
  predicate WithinBudget(cfg: Config, now: int, l: Local) {
    l.InWindow() ==> now <= l.stamp + Budget(l.work.task.policy) + cfg.overhead
  }

  /** So has every worker. The window ends with MarkFinal. */
  ghost predicate Timely(cfg: Config, s: State) {
    forall c: string, k: nat {:trigger WithinBudget(cfg, s.now, At(s, c, k))} :: WithinBudget(cfg, s.now, At(s, c, k))
  }

  /** The worst accepted budget and the overhead fit into the idle timeout. */
  predicate Roomy(cfg: Config) { WORST_CASE_MILLISECONDS + cfg.overhead <= cfg.idle }

  /** A run in which every probe keeps to its budget and every worker to the overhead. */
  ghost predicate TimedRun(cfg: Config, s: State, steps: seq<Step>)
    decreases |steps|
  {
    Timely(cfg, s) && (steps == [] || (Enabled(cfg, s, steps[0]) && TimedRun(cfg, Apply(cfg, s, steps[0]), steps[1..])))
  }

  /** No two workers are inside the probing window of the same execution. */
  ghost predicate Exclusive(s: State) {
    forall c: string, k: nat, c': string, k': nat ::
      At(s, c, k).InWindow() && At(s, c', k').InWindow() && Named(s, At(s, c, k).entry) == Named(s, At(s, c', k').entry)
      ==> c == c' && k == k'
  }

  /** A worker inside the window still owns the row, exactly as its own Acquire left it. */
  ghost predicate Owns(s: State, c: string, k: nat) {
    At(s, c, k).InWindow() ==>
      var id := Named(s, At(s, c, k).entry);
      && id in s.db.executions && s.db.executions[id].status == Running
      && s.db.executions[id].updatedAt == At(s, c, k).stamp && s.db.executions[id].worker == Some(c)
  }

  ghost predicate LeaseOk(s: State) {
    && (forall c: string, k: nat :: Owns(s, c, k))
    && (forall c: string, k: nat :: At(s, c, k).Clocked? ==> At(s, c, k).at <= s.now)
    && Exclusive(s)
  }

  /** Within the lease nobody else's Acquire takes effect. */
  lemma LeaseBlocks(cfg: Config, s: State, c: string, k: nat, at: int)
    requires Roomy(cfg) && Timely(cfg, s) && Owns(s, c, k) && At(s, c, k).InWindow() && at <= s.now
    requires SnapshotOk(s, c, k)
    ensures !Acquirable(s.db, Named(s, At(s, c, k).entry), at - cfg.idle)
  {
    assert WithinBudget(cfg, s.now, At(s, c, k));
    BudgetAtMost(At(s, c, k).work.task.policy);
  }

  ghost predicate InWindowOf(s: State, c: string, k: nat, id: string) {
    At(s, c, k).InWindow() && Named(s, At(s, c, k).entry) == id
  }

  /** An Acquire that takes effect finds nobody in the window. */
  lemma NobodyInside(cfg: Config, s: State, c: string, k: nat, id: string)
    requires SnapshotsOk(s) && LeaseOk(s) && Timely(cfg, s) && Roomy(cfg) && At(s, c, k).Clocked?
    requires Acquirable(s.db, id, At(s, c, k).at - cfg.idle)
    ensures forall c': string, k': nat :: !InWindowOf(s, c', k', id)
  {
    forall c': string, k': nat ensures !InWindowOf(s, c', k', id) {
      if InWindowOf(s, c', k', id) { LeaseBlocks(cfg, s, c', k', At(s, c, k).at); }
    }
  }

  /** Who is inside a window after a step was there before, or has just acquired a free execution. */
  lemma WindowSteps(cfg: Config, s: State, step: Step, c: string, k: nat, id: string)
    requires GroupOk(s) && HeldDelivered(s) && SnapshotsOk(s) && LeaseOk(s) && Timely(cfg, s) && Roomy(cfg)
    requires Enabled(cfg, s, step) && InWindowOf(Apply(cfg, s, step), c, k, id)
    ensures InWindowOf(s, c, k, id)
         || (step.Acquire? && Acts(step, c, k) && forall c': string, k': nat :: !InWindowOf(s, c', k', id))
  {
    SlotSteps(cfg, s, step, c, k);
    assert At(s, c, k).entry < s.cursor;
    NamesStay(cfg, s, step, At(s, c, k).entry);
    if step.Acquire? && Acts(step, c, k) { NobodyInside(cfg, s, c, k, id); }
  }

  lemma ExclusiveKept(cfg: Config, s: State, step: Step)
    requires Inv(s) && LeaseOk(s) && Timely(cfg, s) && Roomy(cfg) && Enabled(cfg, s, step)
    ensures Exclusive(Apply(cfg, s, step))
  {
    var s' := Apply(cfg, s, step);
    forall c: string, k: nat, c': string, k': nat |
      At(s', c, k).InWindow() && At(s', c', k').InWindow()
      && Named(s', At(s', c, k).entry) == Named(s', At(s', c', k').entry)
      ensures c == c' && k == k'
    {
      var id := Named(s', At(s', c, k).entry);
      WindowSteps(cfg, s, step, c, k, id);
      WindowSteps(cfg, s, step, c', k', id);
    }
  }

  lemma QuietWindow(cfg: Config, s: State, step: Step, c: string, k: nat)
    requires Enabled(cfg, s, step) && !step.Acquire? && !step.MarkFinal? && At(s, c, k).InWindow()
    ensures var l, l' := At(s, c, k), At(Apply(cfg, s, step), c, k);
      l'.InWindow() ==> l'.entry == l.entry && l'.stamp == l.stamp
  {
    SlotSteps(cfg, s, step, c, k);
  }

  lemma QuietOwnsKept(cfg: Config, s: State, step: Step, c: string, k: nat)
    requires RowsOk(s.db) && Enabled(cfg, s, step) && !step.Acquire? && !step.MarkFinal?
    requires Owns(s, c, k) && At(s, c, k).InWindow() && At(s, c, k).entry < |s.stream|
    ensures Owns(Apply(cfg, s, step), c, k)
  {
    QuietWindow(cfg, s, step, c, k);
    NamesStay(cfg, s, step, At(s, c, k).entry);
    QuietRows(cfg, s, step, Named(s, At(s, c, k).entry));
  }

  lemma OwnsKept(cfg: Config, s: State, step: Step, c: string, k: nat)
    requires Inv(s) && LeaseOk(s) && Timely(cfg, s) && Roomy(cfg) && Enabled(cfg, s, step)
    ensures Owns(Apply(cfg, s, step), c, k)
  {
    if step.Acquire? {
      AcquireKeepsOwner(cfg, s, step.c, step.k, step.stamp, c, k);
    } else if step.MarkFinal? {
      MarkFinalKeepsOwner(s, step.c, step.k, step.stamp, c, k);
    } else if At(Apply(cfg, s, step), c, k).InWindow() {
      InsideBefore(cfg, s, step, c, k);
      QuietOwnsKept(cfg, s, step, c, k);
    }
  }

  /** Only an Acquire brings a worker into its window. */
  lemma InsideBefore(cfg: Config, s: State, step: Step, c: string, k: nat)
    requires GroupOk(s) && HeldDelivered(s) && Enabled(cfg, s, step) && !step.Acquire?
    requires At(Apply(cfg, s, step), c, k).InWindow()
    ensures At(s, c, k).InWindow() && At(s, c, k).entry < |s.stream|
  {
    SlotSteps(cfg, s, step, c, k);
    assert At(s, c, k).entry < s.cursor;
  }

  lemma AcquireKeepsOwner(cfg: Config, s: State, c: string, k: nat, stamp: int, c': string, k': nat)
    requires At(s, c, k).Clocked? && At(s, c, k).at <= s.now && Owns(s, c', k')
    requires Timely(cfg, s) && Roomy(cfg) && SnapshotOk(s, c', k')
    ensures Owns(AfterAcquire(cfg, s, c, k, stamp), c', k')
  {
    if At(s, c', k').InWindow() { LeaseBlocks(cfg, s, c', k', At(s, c, k).at); }
  }

  lemma MarkFinalKeepsOwner(s: State, c: string, k: nat, stamp: int, c': string, k': nat)
    requires At(s, c, k).Finished? && Owns(s, c', k') && Exclusive(s)
    ensures Owns(AfterMarkFinal(s, c, k, stamp), c', k')
  {}

  lemma ClocksKept(cfg: Config, s: State, step: Step, c: string, k: nat)
    requires Enabled(cfg, s, step) && (At(s, c, k).Clocked? ==> At(s, c, k).at <= s.now)
    ensures At(Apply(cfg, s, step), c, k).Clocked? ==> At(Apply(cfg, s, step), c, k).at <= Apply(cfg, s, step).now
  {
    SlotSteps(cfg, s, step, c, k);
    NowSteps(cfg, s, step);
  }

  lemma NowSteps(cfg: Config, s: State, step: Step)
    requires Enabled(cfg, s, step)
    ensures Apply(cfg, s, step).now == s.now + if step.Tick? then step.d else 0
  {}

  lemma {:induction false} LeaseAlways(cfg: Config, s: State, steps: seq<Step>)
    requires Inv(s) && LeaseOk(s) && Roomy(cfg) && TimedRun(cfg, s, steps)
    ensures Allowed(cfg, s, steps) && LeaseOk(After(cfg, s, steps))
    decreases |steps|
  {
    if steps != [] {
      InvKept(cfg, s, steps[0]);
      ExclusiveKept(cfg, s, steps[0]);
      forall c: string, k: nat ensures Owns(Apply(cfg, s, steps[0]), c, k) { OwnsKept(cfg, s, steps[0], c, k); }
      forall c: string, k: nat ensures At(Apply(cfg, s, steps[0]), c, k).Clocked? ==>
          At(Apply(cfg, s, steps[0]), c, k).at <= Apply(cfg, s, steps[0]).now
      { ClocksKept(cfg, s, steps[0], c, k); }
      LeaseAlways(cfg, Apply(cfg, s, steps[0]), steps[1..]);
    }
  }

  /** If the worst retry budget and the overhead fit into the idle timeout, at most one worker is ever probing an
      execution. */
  lemma LeaseExcludes(cfg: Config, init: State, steps: seq<Step>)
    requires Init(init) && Roomy(cfg) && TimedRun(cfg, init, steps)
    ensures Allowed(cfg, init, steps) && Exclusive(After(cfg, init, steps))
  {
    InitInv(init);
    LeaseAlways(cfg, init, steps);
  }

  /** ... and no probe is wasted: every MarkFinal that is attempted takes effect. */
  lemma NoResultLost(cfg: Config, init: State, steps: seq<Step>, c: string, k: nat)
    requires Init(init) && Roomy(cfg) && TimedRun(cfg, init, steps)
    ensures Allowed(cfg, init, steps)
    ensures var s := After(cfg, init, steps);
         At(s, c, k).Finished? ==> Finalisable(s.db, Named(s, At(s, c, k).entry), c)
  {
    InitInv(init);
    LeaseAlways(cfg, init, steps);
    assert Owns(After(cfg, init, steps), c, k);
  }
}
