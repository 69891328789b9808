/** The lease bound is tight: with any shorter idle timeout two workers can probe one execution, each of them
    keeping to its budget. */
module LeaseBound {
  import opened Wrappers
  import opened Schema
  import opened ProbeRepository
  import opened Ranking
  import opened Protocol
  import opened Invariants
  import opened Lease
  import opened Retry
  import Lifecycle
  import opened Recovery

  const JOB := Task(1, "t", WORST_POLICY, Active, 0, None)
  const SITE := Tables(
    map[1 := Host("h", "h", Active)], map[1 := Service(1, "s", "http", "u", Active)], map[1 := JOB], map[], 2, 2, 2)
  const ROW := Execution(1, 1, "http", "u", 0, Queued, 0, None, None, None, None, 0, 0)
  const NOTE := Message("e", 1, 0)
  const GENESIS := State(SITE, 0, multiset{}, [], 0, map[], {}, map[], [])
  const PLAN := Schedule(0, 1, {}, [1], ["e"])

  lemma PlanIsDue()
    ensures IsTop(RunOrder(SITE), DueTasks(SITE, 0) - {}, 1, [1]) && Schedulable(SITE, [1], ["e"], 0)
    ensures Scheduled(SITE, [1], ["e"], 0).executions == map["e" := ROW]
    ensures Announcements(SITE, [1], ["e"]) == [NOTE]
  {
    assert DueTasks(SITE, 0) == {1};
    var sel, ids := [1], ["e"];
    assert Added(SITE, sel, ids, 0) == map["e" := ROW] by { assert ids[0] == "e"; }
    assert sel[..0] == [] && ids[..0] == [];
    assert Announcements(SITE, [], []) == [];
  }

  lemma GenesisIsInitial(cfg: Config)
    ensures Init(GENESIS) && Path(cfg, GENESIS, GENESIS)
  {
    InitInv(GENESIS);
    PathTo(cfg, GENESIS, GENESIS);
  }

  lemma PlanScheduled(cfg: Config) returns (s: State)
    ensures Path(cfg, GENESIS, s) && s.now == 0 && s.cursor == 0 && s.processes == map[] && s.stream == []
    ensures NOTE in s.outbox && s.db.executions == map["e" := ROW] && s.db.tasks.Keys == {1}
    ensures s.db.tasks[1].policy == WORST_POLICY
  {
    PlanIsDue();
    GenesisIsInitial(cfg);
    s := Go(cfg, GENESIS, GENESIS, PLAN);
  }

  /** One task, due at once, is scheduled and announced. */
  lemma Begin(cfg: Config) returns (s: State)
    ensures Init(GENESIS) && Path(cfg, GENESIS, s)
    ensures Announced(s) && s.cursor == 0 && s.processes == map[]
  {
    GenesisIsInitial(cfg);
    var s1 := PlanScheduled(cfg);
    s := PublishOne(cfg, GENESIS, s1, NOTE);
  }

  /** Every worker but (c, 0) stands where it stood. */
  ghost predicate OthersStill(s: State, s': State, c: string) {
    forall d: string, k: nat | d != c || k != 0 :: At(s', d, k) == At(s, d, k)
  }

  lemma OthersStand(cfg: Config, s: State, step: Step, c: string)
    requires Enabled(cfg, s, step) && step != Crash(c)
    requires forall d: string, k: nat | d != c || k != 0 :: !Acts(step, d, k) && step != Crash(d)
    ensures OthersStill(s, Apply(cfg, s, step), c)
  {
    forall d: string, k: nat | d != c || k != 0 ensures At(Apply(cfg, s, step), d, k) == At(s, d, k) {
      OtherSlot(cfg, s, step, d, k);
    }
  }

  /** One more step of worker (c, 0) while the others stand still. */
  lemma ActAlone(cfg: Config, s: State, step: Step, c: string) returns (s': State)
    requires Path(cfg, GENESIS, s)
    requires Enabled(cfg, s, step) && Acts(step, c, 0) && !step.Ack? && !Mishap(step)
    requires step.Acquire? ==> step.stamp == s.now
    ensures s' == Apply(cfg, s, step) && Path(cfg, GENESIS, s')
    ensures s'.now == s.now && s'.stream == s.stream && (!Writes(step) ==> s'.db == s.db) && s'.pending == s.pending
    ensures At(s', c, 0) == NextLocal(cfg, s, step, c, 0) && OthersStill(s, s', c)
  {
    s' := Act(cfg, GENESIS, s, step, c);
    OthersStand(cfg, s, step, c);
    PendingStays(cfg, s, step, c);
  }

  lemma PendingStays(cfg: Config, s: State, step: Step, c: string)
    requires Enabled(cfg, s, step) && Acts(step, c, 0) && !step.Ack?
    ensures Apply(cfg, s, step).pending == s.pending
  {}

  lemma ReadsWork(cfg: Config, s: State, c: string) returns (s': State)
    requires Path(cfg, GENESIS, s) && Staffed(s, c) && 0 in s.processes[c].inbox
    requires Ready(cfg, s, 0)
    ensures Path(cfg, GENESIS, s') && s'.now == s.now && s'.stream == s.stream && s'.db == s.db
    ensures s'.pending == s.pending && OthersStill(s, s', c)
    ensures At(s', c, 0).Read? && At(s', c, 0).entry == 0 && JustRead(s.db, Named(s, 0), At(s', c, 0).work)
  {
    var s1 := ActAlone(cfg, s, Take(c, 0, 0), c);
    Readable(cfg, GENESIS, s1, 0);
    s' := ReadsBoth(cfg, s1, c);
  }

  lemma ReadsBoth(cfg: Config, s: State, c: string) returns (s': State)
    requires Path(cfg, GENESIS, s) && At(s, c, 0) == Holding(0) && AfterGetWork(s, 0).Found?
    ensures Path(cfg, GENESIS, s') && s'.now == s.now && s'.stream == s.stream && s'.db == s.db
    ensures s'.pending == s.pending && OthersStill(s, s', c)
    ensures At(s', c, 0) == AfterGetTask(s, 0, AfterGetWork(s, 0).execution)
  {
    var s1 := ActAlone(cfg, s, GetWork(c, 0), c);
    s' := ActAlone(cfg, s1, GetTask(c, 0), c);
  }

  lemma ReadsClock(cfg: Config, s: State, c: string) returns (s': State)
    requires Path(cfg, GENESIS, s) && Staffed(s, c) && 0 in s.processes[c].inbox
    requires Ready(cfg, s, 0)
    ensures Path(cfg, GENESIS, s') && s'.now == s.now && s'.stream == s.stream && s'.db == s.db
    ensures s'.pending == s.pending && OthersStill(s, s', c)
    ensures At(s', c, 0).Clocked? && At(s', c, 0).entry == 0 && At(s', c, 0).at == s.now
    ensures JustRead(s.db, Named(s, 0), At(s', c, 0).work)
  {
    var s1 := ReadsWork(cfg, s, c);
    s' := ActAlone(cfg, s1, ReadClock(c, 0), c);
  }

  /** A worker that holds a delivered, ready job acquires it. */
  lemma Acquires(cfg: Config, s: State, c: string) returns (s': State)
    requires Path(cfg, GENESIS, s) && Staffed(s, c) && 0 in s.processes[c].inbox
    requires Ready(cfg, s, 0)
    ensures Path(cfg, GENESIS, s') && s'.now == s.now && s'.stream == s.stream
    ensures At(s', c, 0).Probing? && At(s', c, 0).entry == 0 && At(s', c, 0).stamp == s.now && OthersStill(s, s', c)
    ensures JustRead(s.db, Named(s, 0), At(s', c, 0).work)
    ensures s'.db == Acquired(s.db, Named(s, 0), c, s.now, s.now)
    ensures s'.pending == s.pending
  {
    var s1 := ReadsClock(cfg, s, c);
    Probable(cfg, GENESIS, s1, c);
    s' := ActAlone(cfg, s1, Acquire(c, 0, s1.now), c);
  }

  /** The only execution is being probed, by worker (c, 0) alone, since time 0. */
  ghost predicate OneProbe(s: State, c: string) {
    && s.stream == [NOTE] && 0 in s.pending && s.pending[0].at == 0
    && At(s, c, 0).Probing? && At(s, c, 0).entry == 0 && At(s, c, 0).stamp == 0
    && At(s, c, 0).work.task.policy == WORST_POLICY
    && (forall d: string, k: nat | At(s, d, k).InWindow() :: d == c && k == 0)
    && "e" in s.db.executions && s.db.executions["e"].status == Running && s.db.executions["e"].updatedAt == 0
  }

  /** The execution is queued and announced, and nobody has taken it. */
  ghost predicate Announced(s: State) {
    && s.db.executions == map["e" := ROW] && s.db.tasks.Keys == {1} && s.db.tasks[1].policy == WORST_POLICY
    && s.stream == [NOTE] && s.now == 0
  }

  lemma FirstProbe(cfg: Config) returns (s: State, c: string)
    ensures Init(GENESIS) && Path(cfg, GENESIS, s) && s.now == 0 && OneProbe(s, c)
  {
    var s1 := Begin(cfg);
    var s2;
    s2, c := StartProcess(cfg, GENESIS, s1);
    var s3 := DeliverAlone(cfg, s2, c);
    s := ProbeAlone(cfg, s3, c);
  }

  lemma DeliverAlone(cfg: Config, s: State, c: string) returns (s': State)
    requires Path(cfg, GENESIS, s) && Staffed(s, c) && Announced(s) && s.cursor == 0
    requires forall d: string, k: nat :: At(s, d, k).Idle?
    ensures Path(cfg, GENESIS, s') && Staffed(s', c) && Announced(s')
    ensures 0 in s'.processes[c].inbox && 0 in s'.pending && s'.pending[0].at == 0
    ensures forall d: string, k: nat | d != c || k != 0 :: At(s', d, k).Idle?
  {
    s' := Receives(cfg, GENESIS, s, Deliver(c), c);
    OthersStand(cfg, s, Deliver(c), c);
  }

  lemma ProbeAlone(cfg: Config, s: State, c: string) returns (s': State)
    requires Path(cfg, GENESIS, s) && Staffed(s, c) && Announced(s)
    requires 0 in s.processes[c].inbox && 0 in s.pending && s.pending[0].at == 0
    requires forall d: string, k: nat | d != c || k != 0 :: At(s, d, k).Idle?
    ensures Path(cfg, GENESIS, s') && s'.now == 0 && OneProbe(s', c)
  {
    assert Named(s, 0) == "e";
    s' := Acquires(cfg, s, c);
  }

  lemma IdlePasses(cfg: Config, s: State, c: string) returns (s': State)
    requires !Roomy(cfg) && Path(cfg, GENESIS, s) && s.now == 0 && OneProbe(s, c)
    ensures Path(cfg, GENESIS, s') && s'.now == cfg.idle + 1 && OneProbe(s', c)
  {
    PathIsGood(cfg, GENESIS, s);
    var tick := Tick(cfg.idle + 1);
    s' := s.(now := cfg.idle + 1);
    assert s' == Apply(cfg, s, tick);
    StillTimely(cfg, s, s', c);
    OneStep(cfg, s, tick);
    ReachesTransitive(cfg, GENESIS, s, s');
  }

  lemma StillTimely(cfg: Config, s: State, s': State, c: string)
    requires !Roomy(cfg) && OneProbe(s, c) && s' == s.(now := cfg.idle + 1)
    ensures Timely(cfg, s') && OneProbe(s', c)
  {
    assert forall d: string, k: nat :: At(s', d, k) == At(s, d, k);
    assert Lifecycle.ValidPolicy(WORST_POLICY);
    BudgetAtMost(WORST_POLICY);
    forall d: string, k: nat ensures WithinBudget(cfg, s'.now, At(s', d, k)) {
      assert At(s', d, k).InWindow() ==> d == c && k == 0;
    }
  }

  lemma ClaimAgain(cfg: Config, s: State, c: string) returns (s': State, d: string)
    requires Path(cfg, GENESIS, s) && s.now == cfg.idle + 1 && OneProbe(s, c)
    ensures Path(cfg, GENESIS, s') && Staffed(s', d) && 0 in s'.processes[d].inbox
    ensures Ready(cfg, s', 0) && c != d && Named(s', 0) == Named(s, 0) && At(s', c, 0) == At(s, c, 0)
  {
    var s1;
    s1, d := StartProcess(cfg, GENESIS, s);
    s' := Receives(cfg, GENESIS, s1, Claim(d, 0), d);
    OthersStand(cfg, s1, Claim(d, 0), d);
  }

  lemma SecondProbe(cfg: Config, s: State, c: string) returns (s': State)
    requires Path(cfg, GENESIS, s) && s.now == cfg.idle + 1 && OneProbe(s, c)
    ensures Reaches(cfg, GENESIS, s') && !Exclusive(s')
  {
    var s1, d := ClaimAgain(cfg, s, c);
    s' := Acquires(cfg, s1, d);
    assert At(s', c, 0) == At(s1, c, 0);
  }

  ghost predicate ExclusiveRun(cfg: Config, init: State, steps: seq<Step>) {
    Init(init) && Allowed(cfg, init, steps) && TimedRun(cfg, init, steps) ==> Exclusive(After(cfg, init, steps))
  }

  /** Exact: in all timed runs at most one worker probes an execution if and only if 1,290,000 ms and the overhead
      fit into the idle timeout. */
  lemma LeaseExcludesIff(cfg: Config)
    ensures WORST_CASE_MILLISECONDS + cfg.overhead <= cfg.idle
        <==> forall init: State, steps: seq<Step> :: ExclusiveRun(cfg, init, steps)
  {
    if Roomy(cfg) {
      forall init: State, steps: seq<Step> ensures ExclusiveRun(cfg, init, steps) {
        if Init(init) && TimedRun(cfg, init, steps) { LeaseExcludes(cfg, init, steps); }
      }
    } else {
      var s1, c := FirstProbe(cfg);
      var s2 := IdlePasses(cfg, s1, c);
      var s3 := SecondProbe(cfg, s2, c);
      var steps :| RunsTo(cfg, GENESIS, steps, s3);
      assert !ExclusiveRun(cfg, GENESIS, steps);
    }
  }

  /** With the default idle timeout that leaves 8 min 30 s for overhead. */
  lemma DefaultsAreSafe(cfg: Config, init: State, steps: seq<Step>)
    requires cfg.idle == DEFAULT_IDLE_MILLISECONDS && cfg.overhead <= 510_000
    requires Init(init) && TimedRun(cfg, init, steps)
    ensures Allowed(cfg, init, steps) && Exclusive(After(cfg, init, steps))
  {
    LeaseExcludes(cfg, init, steps);
  }
}
