/** The execution protocol as one machine: the database, the Redis stream with its consumer group, and every
    worker process. One SQL statement or transaction, one Redis command or one local action is one step; a
    run is a sequence of steps, in any order the guards allow. A clock reading and the statement that uses it
    are separate: `at` is a reading taken some time before the step.

    A crash, a panic, a failed statement and a cancelled context all come down to the same thing here: some
    in-memory work is dropped (Crash, Abandon, Forget, Drop). A statement that commits but reports an error is
    the statement followed by Abandon. */
module Protocol {
  import opened Wrappers
  import opened Schema
  import opened ProbeRepository
  import opened Ranking
  import Lifecycle

  /** `idle` is the message idle timeout, `interval` the scheduler interval and `batch` the recovery batch.
      `overhead` is no setting of the program: it is the time that acquiring and finalising an execution may take
      beyond its probe and retries, and only timed runs speak of it. */
  datatype Config = Config(rules: Lifecycle.Rules, idle: nat, interval: nat, batch: nat, overhead: nat)

  /** Where one worker goroutine stands. `entry` is the index of the stream entry it is processing. */
  datatype Local =
    | Idle
    | Holding(entry: nat)
    | Found(entry: nat, execution: Execution)
    | Read(entry: nat, work: Work)
    | Clocked(entry: nat, work: Work, at: int)
    | Probing(entry: nat, work: Work, stamp: int)
    | Finished(entry: nat, work: Work, stamp: int, finished: int, result: ProbeResult, attempts: int, duration: int)
    | Done(entry: nat)
  {
    predicate InWindow() { Probing? || Finished? }
  }

  /** One worker process: its goroutines, the jobs it has received and not started, and its claim cursor. */
  datatype Process = Process(slots: seq<Local>, inbox: multiset<nat>, scan: nat)

  /** One entry of the group's pending list: its current owner and when it was last delivered. */
  datatype Delivery = Delivery(consumer: string, at: int)

  datatype Event = AcquiredBy(execution: string, consumer: string) | FinalisedBy(execution: string, consumer: string)

  datatype State = State(
    db: Tables, now: int,
    outbox: multiset<Message>,      // committed or read by a publisher, not yet published
    stream: seq<Message>, cursor: nat, pending: map<nat, Delivery>, acked: set<nat>,
    processes: map<string, Process>,
    history: seq<Event>)            // every conditional update that took effect

  datatype Step =
    | Tick(d: nat)
    | Edit(op: Lifecycle.Operation)
    | Schedule(at: int, batch: nat, locked: set<nat>, sel: seq<nat>, ids: seq<string>)
    | Recover(at: int, queued: seq<string>)
    | Publish(message: Message)
    | Drop(message: Message)
    | Start(c: string, workers: nat)
    | Crash(c: string)
    | Deliver(c: string)
    | Claim(c: string, entry: nat)
    | Seek(c: string, to: nat)
    | Forget(c: string, entry: nat)
    | Take(c: string, k: nat, entry: nat)
    | GetWork(c: string, k: nat)
    | GetTask(c: string, k: nat)
    | ReadClock(c: string, k: nat)
    | Acquire(c: string, k: nat, stamp: int)
    | Probe(c: string, k: nat, result: ProbeResult, attempts: int, duration: int)
    | MarkFinal(c: string, k: nat, stamp: int)
    | Ack(c: string, k: nat)
    | Abandon(c: string, k: nat)

  predicate HasSlot(s: State, c: string, k: nat) {
    c in s.processes && k < |s.processes[c].slots|
  }

  function At(s: State, c: string, k: nat): Local {
    if HasSlot(s, c, k) then s.processes[c].slots[k] else Idle
  }

  function Put(s: State, c: string, k: nat, l: Local): State
    requires HasSlot(s, c, k)
  {
    var p := s.processes[c];
    s.(processes := s.processes[c := p.(slots := p.slots[k := l])])
  }

  /** The execution that stream entry `i` announces. */
  function Named(s: State, i: nat): string { if i < |s.stream| then s.stream[i].execution else "" }

  predicate IdleEntry(cfg: Config, s: State, i: nat) {
    i in s.pending && s.now - s.pending[i].at >= cfg.idle
  }

  function Reminders(db: Tables, queued: seq<string>): multiset<Message>
    requires forall i | 0 <= i < |queued| :: queued[i] in db.executions
  {
    if queued == [] then multiset{}
    else multiset{MessageOf(db, queued[0])} + Reminders(db, queued[1..])
  }

  /** The probe types Process has an implementation for. */
  predicate Supported(kind: string) { kind in {"http", "tcp"} }

  ghost predicate Enabled(cfg: Config, s: State, step: Step) {
    match step
    case Tick(_) => true
    case Edit(op) => Lifecycle.Refusal(cfg.rules, s.db, op) == None && (op.CreateTask? ==> 0 <= op.now <= s.now)
    case Schedule(at, batch, locked, sel, ids) =>
      && at <= s.now
      && IsTop(RunOrder(s.db), DueTasks(s.db, at) - locked, batch, sel)
      && Schedulable(s.db, sel, ids, at) && forall i | 0 <= i < |ids| :: ids[i] != ""
    case Recover(at, queued) =>
      && at <= s.now
      && IsTop(QueueOrder(s.db), QueuedIds(s.db, at - 2 * cfg.interval), cfg.batch, queued)
    case Publish(m) => m in s.outbox
    case Drop(m) => m in s.outbox
    case Start(c, _) => c !in s.processes
    case Crash(c) => c in s.processes
    case Deliver(c) => c in s.processes && s.cursor < |s.stream|
    case Claim(c, i) =>
      && c in s.processes && IdleEntry(cfg, s, i) && s.processes[c].scan <= i
      && forall j | s.processes[c].scan <= j < i :: !IdleEntry(cfg, s, j)
    // The claim cursor passes over entries that are not idle, starts again at the end of the list, and stays
    // where it was when a reply is lost.
    case Seek(c, to) =>
      c in s.processes && forall j <- s.pending | s.processes[c].scan <= j < to :: !IdleEntry(cfg, s, j)
    case Forget(c, i) => c in s.processes && i in s.processes[c].inbox
    case Take(c, k, i) => HasSlot(s, c, k) && At(s, c, k).Idle? && i in s.processes[c].inbox
    case GetWork(c, k) => At(s, c, k).Holding?
    case GetTask(c, k) => At(s, c, k).Found?
    case ReadClock(c, k) => At(s, c, k).Read?
    case Acquire(c, k, stamp) => At(s, c, k).Clocked? && At(s, c, k).at <= stamp <= s.now
    case Probe(c, k, _, _, _) => At(s, c, k).Probing?
    case MarkFinal(c, k, stamp) => At(s, c, k).Finished? && At(s, c, k).finished <= stamp <= s.now
    case Ack(c, k) => At(s, c, k).Done?
    case Abandon(c, k) => !At(s, c, k).Idle?
  }

  /** The first SELECT of GetWork reads the execution ... */
  function AfterGetWork(s: State, i: nat): Local {
    var id := Named(s, i);
    if id !in s.db.executions then Idle else Found(i, s.db.executions[id])
  }

  /** ... and the second its task; an execution that was final when it was read ends the call early. */
  function AfterGetTask(s: State, i: nat, execution: Execution): Local {
    if execution.taskId !in s.db.tasks then Idle
    else if execution.Final() then Done(i)
    else Read(i, Work(execution, s.db.tasks[execution.taskId]))
  }

  function AfterAcquire(cfg: Config, s: State, c: string, k: nat, stamp: int): State
    requires At(s, c, k).Clocked?
  {
    var l := At(s, c, k);
    var id := Named(s, l.entry);
    if !Acquirable(s.db, id, l.at - cfg.idle) then Put(s, c, k, Idle)
    else
      Put(s, c, k, if Supported(l.work.execution.probeType) then Probing(l.entry, l.work, stamp) else Idle)
      .(db := Acquired(s.db, id, c, l.at, stamp), history := s.history + [AcquiredBy(id, c)])
  }

  function AfterMarkFinal(s: State, c: string, k: nat, stamp: int): State
    requires At(s, c, k).Finished?
  {
    var l := At(s, c, k);
    var id := Named(s, l.entry);
    if !Finalisable(s.db, id, c) then Put(s, c, k, Idle)
    else
      Put(s, c, k, Done(l.entry))
      .(db := ProbeRepository.Finalised(s.db, id, l.finished, l.result, l.attempts, l.duration, stamp),
        history := s.history + [FinalisedBy(id, c)])
  }

  /** A process takes entry `i` into memory; the pending list records the delivery. */
  function Receive(s: State, c: string, i: nat): State
    requires c in s.processes
  {
    s.(pending := s.pending[i := Delivery(c, s.now)],
       processes := s.processes[c := s.processes[c].(inbox := s.processes[c].inbox + multiset{i})])
  }

  ghost function Apply(cfg: Config, s: State, step: Step): State
    requires Enabled(cfg, s, step)
  {
    match step
    case Tick(d) => s.(now := s.now + d)
    case Edit(op) => s.(db := Lifecycle.Apply(cfg.rules, s.db, op))
    case Schedule(at, _, _, sel, ids) =>
      s.(db := Scheduled(s.db, sel, ids, at), outbox := s.outbox + multiset(Announcements(s.db, sel, ids)))
    case Recover(_, queued) => s.(outbox := s.outbox + Reminders(s.db, queued))
    case Publish(m) => s.(outbox := s.outbox - multiset{m}, stream := s.stream + [m])
    case Drop(m) => s.(outbox := s.outbox - multiset{m})
    case Start(c, n) => s.(processes := s.processes[c := Process(seq(n, _ => Idle), multiset{}, 0)])
    case Crash(c) => s.(processes := s.processes - {c})
    case Deliver(c) => Receive(s, c, s.cursor).(cursor := s.cursor + 1)
    case Claim(c, i) =>
      var r := Receive(s, c, i);
      r.(processes := r.processes[c := r.processes[c].(scan := i + 1)])
    case Seek(c, to) => s.(processes := s.processes[c := s.processes[c].(scan := to)])
    case Forget(c, i) =>
      s.(processes := s.processes[c := s.processes[c].(inbox := s.processes[c].inbox - multiset{i})])
    case Take(c, k, i) =>
      var r := Put(s, c, k, Holding(i));
      r.(processes := r.processes[c := r.processes[c].(inbox := r.processes[c].inbox - multiset{i})])
    case GetWork(c, k) => Put(s, c, k, AfterGetWork(s, At(s, c, k).entry))
    case GetTask(c, k) => Put(s, c, k, AfterGetTask(s, At(s, c, k).entry, At(s, c, k).execution))
    case ReadClock(c, k) => Put(s, c, k, Clocked(At(s, c, k).entry, At(s, c, k).work, s.now))
    case Acquire(c, k, stamp) => AfterAcquire(cfg, s, c, k, stamp)
    case Probe(c, k, result, attempts, duration) =>
      Put(s, c, k, Finished(At(s, c, k).entry, At(s, c, k).work, At(s, c, k).stamp, s.now, result, attempts,
                      duration))
    case MarkFinal(c, k, stamp) => AfterMarkFinal(s, c, k, stamp)
    case Ack(c, k) =>
      var i := At(s, c, k).entry;
      Put(s, c, k, Idle).(pending := s.pending - {i}, acked := s.acked + {i})
    case Abandon(c, k) => Put(s, c, k, Idle)
  }

  /** A run is given by its steps. */
  ghost predicate Allowed(cfg: Config, s: State, steps: seq<Step>)
    decreases |steps|
  {
    steps == [] || (Enabled(cfg, s, steps[0]) && Allowed(cfg, Apply(cfg, s, steps[0]), steps[1..]))
  }

  ghost function After(cfg: Config, s: State, steps: seq<Step>): State
    requires Allowed(cfg, s, steps)
    decreases |steps|
  {
    if steps == [] then s else After(cfg, Apply(cfg, s, steps[0]), steps[1..])
  }

  /** Before anything has been scheduled: any hosts, services and tasks, an empty stream and no process. */
  ghost predicate Init(s: State) {
    && Lifecycle.Chain(s.db) && s.db.executions == map[]
    && (forall t <- s.db.tasks :: s.db.tasks[t].lastScheduledAt == None)
    && s.outbox == multiset{} && s.stream == [] && s.cursor == 0 && s.pending == map[] && s.acked == {}
    && s.processes == map[] && s.history == []
  }
}
