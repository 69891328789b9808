/** One call of Process, one job of a worker, and one cycle of each publisher, as the source runs them; and
    that, undisturbed, each is a run of the execution protocol. */
module Processor {
  import opened Wrappers
  import opened Schema
  import opened ProbeRepository
  import opened Ranking
  import opened Retry
  import P = Protocol
  import I = Invariants
  import O = Outcomes

  datatype ProcessError = Repo(error: ProbeRepository.Error) | Busy | UnsupportedType

  /** The readings and answers one call of Process takes from outside. */
  datatype Circumstances = Circumstances(
    now: int, acquireStamp: int, finished: int, duration: int, finalStamp: int,
    probe: nat -> Attempt, wait: nat -> Backoff)

  datatype Processing = Processing(db: Tables, err: Option<ProcessError>)

  /** What a call of Process does to the tables, given the outcome of the probe. */
  function Processed(
    db: Tables, id: string, consumer: string, idle: int, now: int, acquireStamp: int,
    finished: int, finalStamp: int, result: ProbeResult, attempts: int, duration: int): Processing
  {
    if id !in db.executions || db.executions[id].taskId !in db.tasks then Processing(db, Some(Repo(NotFound)))
    else if db.executions[id].Final() then Processing(db, None)
    else if !Acquirable(db, id, now - idle) then Processing(db, Some(Busy))
    else
      var acquired := Acquired(db, id, consumer, now, acquireStamp);
      if !P.Supported(db.executions[id].probeType) then Processing(acquired, Some(UnsupportedType))
      else Processing(Finalised(acquired, id, finished, result, attempts, duration, finalStamp), None)
  }

  /** What a call of Process leaves behind, row by row. An execution that is final or held by another worker is left
      alone; one that is queued, or that its worker has not touched for the idle timeout, is taken over and ends with
      what the probe reported. */
  ghost predicate Outcome(
    db: Tables, id: string, consumer: string, idle: int, c: Circumstances, result: ProbeResult, attempts: int,
    db': Tables, err: Option<ProcessError>)
  {
    if id !in db.executions || db.executions[id].taskId !in db.tasks then err == Some(Repo(NotFound)) && db' == db
    else
      var row := db.executions[id];
      match row.status
      case Succeeded => err == None && db' == db
      case Failed => err == None && db' == db
      case Running =>
        if row.updatedAt < c.now - idle then TakenOver(db, id, consumer, c, result, attempts, db', err)
        else err == Some(Busy) && db' == db
      case Queued => TakenOver(db, id, consumer, c, result, attempts, db', err)
  }

  ghost predicate TakenOver(
    db: Tables, id: string, consumer: string, c: Circumstances, result: ProbeResult, attempts: int, db': Tables,
    err: Option<ProcessError>)
    requires id in db.executions
  {
    && OnlyRowOf(db, db', id)
    && var row, row' := db.executions[id], db'.executions[id];
       && SameJob(row, row') && row'.worker == Some(consumer) && row'.startedAt == Some(c.now)
       && if row.probeType == "http" || row.probeType == "tcp" then
            && err == None && Reports(row', result, attempts) && row'.finishedAt == Some(c.finished)
            && row'.duration == c.duration && row'.updatedAt == c.finalStamp
          else
            && err == Some(UnsupportedType) && row'.status == Running && row'.result == row.result
            && row'.finishedAt == row.finishedAt && row'.updatedAt == c.acquireStamp
  }

  lemma ProcessedIs(
    db: Tables, id: string, consumer: string, idle: int, c: Circumstances, result: ProbeResult, attempts: int)
    ensures var p := Processed(db, id, consumer, idle, c.now, c.acquireStamp, c.finished, c.finalStamp,
                               result, attempts, c.duration);
      Outcome(db, id, consumer, idle, c, result, attempts, p.db, p.err)
  {
    if id in db.executions && !db.executions[id].Final() && Acquirable(db, id, c.now - idle) {
      TakenOverIs(db, id, consumer, c, result, attempts);
    }
  }

  lemma TakenOverIs(
    db: Tables, id: string, consumer: string, c: Circumstances, result: ProbeResult, attempts: int)
    requires id in db.executions && !db.executions[id].Final()
    ensures var acquired := Acquired(db, id, consumer, c.now, c.acquireStamp);
      if P.Supported(db.executions[id].probeType) then
        TakenOver(db, id, consumer, c, result, attempts,
                  Finalised(acquired, id, c.finished, result, attempts, c.duration, c.finalStamp), None)
      else TakenOver(db, id, consumer, c, result, attempts, acquired, Some(UnsupportedType))
  {}

  function FromRepo(err: Option<ProbeRepository.Error>): Option<ProcessError> {
    match err case None => None case Some(e) => Some(Repo(e))
  }

  class Processor {
    const repo: Repository
    const idleTimeout: int

    constructor (repo: Repository, idleTimeout: int)
      ensures this.repo == repo && this.idleTimeout == idleTimeout
    {
      this.repo, this.idleTimeout := repo, idleTimeout;
    }

    /** `result` and `attempts` are what the retried probe reported, if it ran. */
    method Process(id: string, consumer: string, c: Circumstances)
      returns (err: Option<ProcessError>, ghost result: ProbeResult, ghost attempts: int)
      modifies repo.db
      ensures Processing(repo.db.tables, err)
              == Processed(old(repo.db.tables), id, consumer, idleTimeout, c.now, c.acquireStamp,
                           c.finished, c.finalStamp, result, attempts, c.duration)
      ensures err == None && id in old(repo.db.tables).executions && !old(repo.db.tables).executions[id].Final() ==>
        var retries := old(repo.db.tables).tasks[old(repo.db.tables).executions[id].taskId].policy.maxRetries;
        retries >= 0 ==>
          attempts >= 1 && ReturnsFrom(c.probe, c.wait, retries, attempts - 1)
          && Returned(c.probe, c.wait, retries, result, attempts)
      ensures Outcome(old(repo.db.tables), id, consumer, idleTimeout, c, result, attempts, repo.db.tables, err)
    {
      result, attempts := NO_RESULT, 0;
      ghost var before := repo.db.tables;
      var found := repo.GetWork(id);
      if found.Failure? { return Some(Repo(found.error)), result, attempts; }
      var work := found.value;
      if work.execution.status == Succeeded || work.execution.status == Failed { return None, result, attempts; }
      var acquired := repo.Acquire(id, consumer, c.now, c.now - idleTimeout, c.acquireStamp);
      if !acquired { return Some(Busy), result, attempts; }
      if work.execution.probeType !in {"http", "tcp"} { return Some(UnsupportedType), result, attempts; }
      var reported, made;
      ghost var calls, elapsed;
      reported, made, calls, elapsed := ExecuteWithRetry(
        c.probe, c.wait, work.task.policy.maxRetries, work.task.policy.baseDelay * NANOSECONDS_PER_MILLISECOND);
      result, attempts := reported, made;
      var failed := repo.MarkFinal(id, consumer, c.finished, reported, made, c.duration, c.finalStamp);
      err := FromRepo(failed);
      ProcessedIs(before, id, consumer, idleTimeout, c, result, attempts);
    }
  }

  // ---------- the stream side ----------

  class Redis {
    var stream: seq<Message>
    var pending: map<nat, P.Delivery>
    var acked: set<nat>
  }

  /** The messages of `ms` whose XADD succeeds, in order. */
  function Sent(ms: seq<Message>, ok: nat -> bool): seq<Message> {
    if ms == [] then []
    else
      var n := |ms| - 1;
      Sent(ms[..n], ok) + if ok(n) then [ms[n]] else []
  }

  /** `sent` are exactly the messages whose XADD succeeds, and `at` their places, in order. */
  ghost predicate SentAt(ms: seq<Message>, ok: nat -> bool, sent: seq<Message>, at: seq<nat>) {
    && |sent| == |at| && (forall j | 0 <= j < |at| :: at[j] < |ms| && sent[j] == ms[at[j]] && ok(at[j]))
    && (forall i, j | 0 <= i < j < |at| :: at[i] < at[j])
    && (forall k | 0 <= k < |ms| && ok(k) :: k in at)
  }

  lemma {:induction false} SentIs(ms: seq<Message>, ok: nat -> bool) returns (at: seq<nat>)
    ensures SentAt(ms, ok, Sent(ms, ok), at)
    decreases |ms|
  {
    at := [];
    if ms != [] {
      var n := |ms| - 1;
      var before := SentIs(ms[..n], ok);
      assert ms == ms[..n] + [ms[n]];
      if ok(n) {
        at := before + [n];
        SentOneMore(ms[..n], ms[n], ok, Sent(ms[..n], ok), before);
      } else {
        at := before;
        SentNoMore(ms[..n], ms[n], ok, Sent(ms[..n], ok), before);
        assert Sent(ms[..n], ok) + [] == Sent(ms[..n], ok);
      }
    }
  }

  lemma SentOneMore(ms: seq<Message>, m: Message, ok: nat -> bool, sent: seq<Message>, at: seq<nat>)
    requires SentAt(ms, ok, sent, at) && ok(|ms|)
    ensures SentAt(ms + [m], ok, sent + [m], at + [|ms|])
  {
    var at' := at + [|ms|];
    forall k | 0 <= k < |ms + [m]| && ok(k) ensures k in at' {
      if k < |ms| { assert k in at; } else { assert at'[|at|] == k; }
    }
  }

  lemma SentNoMore(ms: seq<Message>, m: Message, ok: nat -> bool, sent: seq<Message>, at: seq<nat>)
    requires SentAt(ms, ok, sent, at) && !ok(|ms|)
    ensures SentAt(ms + [m], ok, sent, at)
  {}

  /** Publish each message; a failure is logged and the loop goes on. */
  method PublishAll(redis: Redis, messages: seq<Message>, ok: nat -> bool) returns (ghost at: seq<nat>)
    modifies redis`stream
    ensures redis.stream == old(redis.stream) + Sent(messages, ok)
    ensures SentAt(messages, ok, redis.stream[|old(redis.stream)|..], at) && old(redis.stream) <= redis.stream
  {
    for k := 0 to |messages|
      invariant redis.stream == old(redis.stream) + Sent(messages[..k], ok)
    {
      if ok(k) { redis.stream := redis.stream + [messages[k]]; }
      assert messages[..k + 1][..k] == messages[..k];
    }
    assert messages[..|messages|] == messages;
    at := SentIs(messages, ok);
  }

  /** Scheduler.cycle: the rows are committed before anything is published, and a failed transaction publishes
      nothing. */
  method SchedulerCycle(
    repo: Repository, redis: Redis, batch: nat, now: int, locked: set<nat>, supply: nat -> Option<RandomBytes>,
    healthy: nat -> bool, ok: nat -> bool)
    returns (ghost committed: bool, ghost sel: seq<nat>, ghost ids: seq<string>, ghost messages: seq<Message>,
             ghost at: seq<nat>)
    modifies repo.db, redis`stream
    ensures Picked(old(repo.db.tables), now, locked, batch, sel)
    ensures committed ==>
      && redis.stream == old(redis.stream) + Sent(messages, ok) && forall i | 0 <= i < |ids| :: |ids[i]| == 32
    ensures !committed ==> repo.db.tables == old(repo.db.tables) && redis.stream == old(redis.stream)
    ensures committed ==>
      && Committed(old(repo.db.tables), sel, ids, now, repo.db.tables, messages)
      && old(redis.stream) <= redis.stream && SentAt(messages, ok, redis.stream[|old(redis.stream)|..], at)
  {
    var prepared, err;
    prepared, err, sel, ids := repo.ScheduleDue(batch, now, locked, supply, healthy);
    messages, committed, at := prepared, err == None, [];
    if err != None { return committed, sel, ids, messages, at; }
    DrawnIdsAreLong(ids, supply, healthy);
    at := PublishAll(redis, prepared, ok);
  }

  lemma DrawnIdsAreLong(ids: seq<string>, supply: nat -> Option<RandomBytes>, healthy: nat -> bool)
    requires Drawn(ids, supply, healthy)
    ensures forall i | 0 <= i < |ids| :: |ids[i]| == 32
  {}

  /** One tick of RecoveryDispatcher.Run: the oldest queued rows are published again. */
  method RecoveryTick(repo: Repository, redis: Redis, batch: nat, now: int, interval: int, ok: nat -> bool)
    returns (ghost sel: seq<string>, ghost messages: seq<Message>, ghost at: seq<nat>)
    modifies redis`stream
    ensures IsTop(QueueOrder(repo.db.tables), QueuedIds(repo.db.tables, now - 2 * interval), batch, sel)
    ensures exists ms: seq<Message> ::
      && |ms| == |sel| && (forall i | 0 <= i < |sel| :: ms[i] == MessageOf(repo.db.tables, sel[i]))
      && redis.stream == old(redis.stream) + Sent(ms, ok)
    ensures OldestQueued(repo.db.tables, now - 2 * interval, batch, messages)
    ensures old(redis.stream) <= redis.stream && SentAt(messages, ok, redis.stream[|old(redis.stream)|..], at)
  {
    var rows;
    rows, sel := repo.QueuedBefore(now - 2 * interval, batch);
    messages := rows;
    at := PublishAll(redis, rows, ok);
  }

  /** What a worker does with one job: acknowledge it if and only if Process returned no error. `reachable` says
      whether the XACK succeeds; its failure is logged and the entry stays pending. */
  method HandleJob(
    processor: Processor, redis: Redis, entry: nat, message: Message, consumer: string, c: Circumstances,
    reachable: bool)
    returns (ghost result: ProbeResult, ghost attempts: int)
    modifies processor.repo.db, redis
    ensures var p := Processed(old(processor.repo.db.tables), message.execution, consumer, processor.idleTimeout,
                               c.now, c.acquireStamp, c.finished, c.finalStamp, result, attempts, c.duration);
      && processor.repo.db.tables == p.db
      && redis.acked == old(redis.acked) + (if p.err == None && reachable then {entry} else {})
      && redis.pending == old(redis.pending) - (if p.err == None && reachable then {entry} else {})
      && redis.stream == old(redis.stream)
      && (entry in redis.acked && entry !in old(redis.acked) ==>
            I.IsFinal(processor.repo.db.tables, message.execution))
      && Outcome(old(processor.repo.db.tables), message.execution, consumer, processor.idleTimeout, c, result, attempts,
                 processor.repo.db.tables, p.err)
  {
    var err;
    err, result, attempts := processor.Process(message.execution, consumer, c);
    if err != None || !reachable { return; }
    redis.acked := redis.acked + {entry};
    redis.pending := redis.pending - {entry};
  }

  // ---------- undisturbed calls are runs of the protocol ----------

  /** A path of worker (c, k)'s own steps and of time, by which nothing but the database, the clock and that worker
      moved. */
  ghost predicate OwnPath(cfg: P.Config, s: P.State, steps: seq<P.Step>, s': P.State, c: string, k: nat) {
    && P.Allowed(cfg, s, steps) && P.After(cfg, s, steps) == s'
    && (forall i | 0 <= i < |steps| :: I.Acts(steps[i], c, k) || steps[i].Tick?)
  }

  lemma PathGrows(cfg: P.Config, s: P.State, steps: seq<P.Step>, s1: P.State, step: P.Step)
    returns (steps': seq<P.Step>)
    requires P.Allowed(cfg, s, steps) && P.After(cfg, s, steps) == s1 && P.Enabled(cfg, s1, step)
    ensures steps' == steps + [step] && P.Allowed(cfg, s, steps') && P.After(cfg, s, steps') == P.Apply(cfg, s1, step)
  {
    var last := [step];
    assert last[1..] == [];
    assert P.Allowed(cfg, P.Apply(cfg, s1, step), []);
    O.AfterConcat(cfg, s, steps, last);
    steps' := steps + last;
  }

  lemma OwnStep(cfg: P.Config, s: P.State, steps: seq<P.Step>, s1: P.State, step: P.Step, c: string, k: nat)
    returns (steps': seq<P.Step>, s': P.State)
    requires OwnPath(cfg, s, steps, s1, c, k) && P.Enabled(cfg, s1, step) && I.Acts(step, c, k)
    ensures OwnPath(cfg, s, steps', s', c, k) && s' == P.Apply(cfg, s1, step)
    ensures P.At(s', c, k) == I.NextLocal(cfg, s1, step, c, k) && s'.stream == s1.stream && s'.now == s1.now
    ensures (!I.Writes(step) ==> s'.db == s1.db) && (!step.Ack? ==> GroupStays(s1, s'))
  {
    steps' := PathGrows(cfg, s, steps, s1, step);
    s' := P.Apply(cfg, s1, step);
    I.OwnSlot(cfg, s1, step, c, k);
    I.StreamSteps(cfg, s1, step);
    OwnStepFacts(cfg, s1, step, c, k);
  }

  lemma OwnStepFacts(cfg: P.Config, s: P.State, step: P.Step, c: string, k: nat)
    requires P.Enabled(cfg, s, step) && I.Acts(step, c, k)
    ensures P.Apply(cfg, s, step).now == s.now && (!I.Writes(step) ==> P.Apply(cfg, s, step).db == s.db)
    ensures !step.Ack? ==> GroupStays(s, P.Apply(cfg, s, step))
  {}

  /** Nothing is delivered or acknowledged. */
  predicate GroupStays(s: P.State, s': P.State) { s'.pending == s.pending && s'.acked == s.acked }

  /** The clock moves on while the call runs. */
  lemma TimePasses(cfg: P.Config, s: P.State, steps: seq<P.Step>, s1: P.State, t: int, c: string, k: nat)
    returns (steps': seq<P.Step>, s': P.State)
    requires OwnPath(cfg, s, steps, s1, c, k) && s1.now <= t
    ensures OwnPath(cfg, s, steps', s', c, k) && s' == s1.(now := t) && P.At(s', c, k) == P.At(s1, c, k)
  {
    steps' := PathGrows(cfg, s, steps, s1, P.Tick(t - s1.now));
    s' := s1.(now := t);
    assert s' == P.Apply(cfg, s1, P.Tick(t - s1.now));
  }

  /** The readings and stamps of one call come in the order in which the source takes them. */
  predicate Ordered(start: int, now: int, acquireStamp: int, finished: int, finalStamp: int) {
    start <= now <= acquireStamp <= finished <= finalStamp
  }

  /** A call of Process that nothing interrupts, however long it takes, is a run of its worker in the protocol: the
      tables end as the call leaves them, and the worker goes on to XACK exactly when the call returns no error. */
  lemma ProcessIsARun(
    cfg: P.Config, s: P.State, c: string, k: nat, now: int, acquireStamp: int, finished: int, finalStamp: int,
    result: ProbeResult, attempts: int, duration: int)
    returns (steps: seq<P.Step>, s': P.State)
    requires P.At(s, c, k).Holding? && Ordered(s.now, now, acquireStamp, finished, finalStamp)
    ensures OwnPath(cfg, s, steps, s', c, k) && s'.now <= finalStamp && GroupStays(s, s')
    ensures var i := P.At(s, c, k).entry;
      var p := Processed(s.db, P.Named(s, i), c, cfg.idle, now, acquireStamp,
                        finished, finalStamp, result, attempts, duration);
      s'.db == p.db && P.At(s', c, k) == if p.err == None then P.Done(i) else P.Idle
  {
    steps, s' := ReadsWork(cfg, s, c, k);
    if P.At(s', c, k).Read? {
      steps, s' := TimePasses(cfg, s, steps, s', now, c, k);
      steps, s' := OwnStep(cfg, s, steps, s', P.ReadClock(c, k), c, k);
      steps, s' := TimePasses(cfg, s, steps, s', acquireStamp, c, k);
      steps, s' := AcquireAndFinish(cfg, s, steps, s', c, k, finished, finalStamp, result, attempts, duration);
    }
  }

  /** Where the two reads of GetWork lead. */
  function AfterReads(db: Tables, i: nat, id: string): P.Local {
    if id !in db.executions || db.executions[id].taskId !in db.tasks then P.Idle
    else if db.executions[id].Final() then P.Done(i)
    else P.Read(i, Work(db.executions[id], db.tasks[db.executions[id].taskId]))
  }

  lemma ReadsWork(cfg: P.Config, s: P.State, c: string, k: nat) returns (steps: seq<P.Step>, s': P.State)
    requires P.At(s, c, k).Holding?
    ensures OwnPath(cfg, s, steps, s', c, k) && s'.now == s.now && s'.db == s.db && s'.stream == s.stream
    ensures GroupStays(s, s')
    ensures var i := P.At(s, c, k).entry; P.At(s', c, k) == AfterReads(s.db, i, P.Named(s, i))
  {
    assert OwnPath(cfg, s, [], s, c, k);
    steps, s' := OwnStep(cfg, s, [], s, P.GetWork(c, k), c, k);
    if P.At(s', c, k).Found? { steps, s' := OwnStep(cfg, s, steps, s', P.GetTask(c, k), c, k); }
  }

  lemma AcquireAndFinish(
    cfg: P.Config, s: P.State, steps: seq<P.Step>, s1: P.State, c: string, k: nat, finished: int, finalStamp: int,
    result: ProbeResult, attempts: int, duration: int)
    returns (steps': seq<P.Step>, s': P.State)
    requires OwnPath(cfg, s, steps, s1, c, k) && P.At(s1, c, k).Clocked?
    requires P.At(s1, c, k).at <= s1.now <= finished <= finalStamp
    requires var id := P.Named(s1, P.At(s1, c, k).entry);
      id in s1.db.executions && P.At(s1, c, k).work.execution == s1.db.executions[id]
      && s1.db.executions[id].taskId in s1.db.tasks && !s1.db.executions[id].Final()
    ensures OwnPath(cfg, s, steps', s', c, k) && s'.now <= finalStamp && GroupStays(s1, s')
    ensures var l := P.At(s1, c, k);
      var p := Processed(s1.db, P.Named(s1, l.entry), c, cfg.idle, l.at, s1.now,
                        finished, finalStamp, result, attempts, duration);
      s'.db == p.db && P.At(s', c, k) == if p.err == None then P.Done(l.entry) else P.Idle
  {
    var l := P.At(s1, c, k);
    var id := P.Named(s1, l.entry);
    steps', s' := OwnStep(cfg, s, steps, s1, P.Acquire(c, k, s1.now), c, k);
    if P.At(s', c, k).Probing? {
      assert s'.db == Acquired(s1.db, id, c, l.at, s1.now);
      steps', s' := ProbeAndFinish(cfg, s, steps', s', c, k, finished, finalStamp, result, attempts, duration);
    }
  }

  lemma ProbeAndFinish(
    cfg: P.Config, s: P.State, steps: seq<P.Step>, s1: P.State, c: string, k: nat, finished: int, finalStamp: int,
    result: ProbeResult, attempts: int, duration: int)
    returns (steps': seq<P.Step>, s': P.State)
    requires OwnPath(cfg, s, steps, s1, c, k) && P.At(s1, c, k).Probing? && s1.now <= finished <= finalStamp
    requires Finalisable(s1.db, P.Named(s1, P.At(s1, c, k).entry), c)
    ensures OwnPath(cfg, s, steps', s', c, k) && P.At(s', c, k) == P.Done(P.At(s1, c, k).entry)
    ensures s'.now == finalStamp && GroupStays(s1, s')
    ensures s'.db == Finalised(s1.db, P.Named(s1, P.At(s1, c, k).entry),
                           finished, result, attempts, duration, finalStamp)
  {
    steps', s' := TimePasses(cfg, s, steps, s1, finished, c, k);
    steps', s' := OwnStep(cfg, s, steps', s', P.Probe(c, k, result, attempts, duration), c, k);
    steps', s' := TimePasses(cfg, s, steps', s', finalStamp, c, k);
    steps', s' := OwnStep(cfg, s, steps', s', P.MarkFinal(c, k, finalStamp), c, k);
  }

  /** The same of a whole job: with the XACK at its end, or with the entry left pending. */
  lemma JobIsARun(
    cfg: P.Config, s: P.State, c: string, k: nat, now: int, acquireStamp: int, finished: int, finalStamp: int,
    result: ProbeResult, attempts: int, duration: int, reachable: bool)
    returns (steps: seq<P.Step>, s': P.State)
    requires P.At(s, c, k).Holding? && Ordered(s.now, now, acquireStamp, finished, finalStamp)
    ensures OwnPath(cfg, s, steps, s', c, k) && P.At(s', c, k) == P.Idle
    ensures var i := P.At(s, c, k).entry;
      var p := Processed(s.db, P.Named(s, i), c, cfg.idle, now, acquireStamp,
                        finished, finalStamp, result, attempts, duration);
      var acked := if p.err == None && reachable then {i} else {};
      s'.db == p.db && s'.acked == s.acked + acked && s'.pending == s.pending - acked
  {
    var s1;
    steps, s1 := ProcessIsARun(cfg, s, c, k, now, acquireStamp, finished, finalStamp, result, attempts, duration);
    s' := s1;
    if P.At(s1, c, k).Done? {
      steps, s' := OwnStep(cfg, s, steps, s1, if reachable then P.Ack(c, k) else P.Abandon(c, k), c, k);
    }
  }

  // ---------- so are the cycles of the two publishers ----------

  /** What the publishing loop takes from the outbox and adds to the stream. */
  predicate Published(s: P.State, s': P.State, ms: seq<Message>, ok: nat -> bool) {
    s' == s.(stream := s.stream + Sent(ms, ok), outbox := s'.outbox) && s.outbox == s'.outbox + multiset(ms)
  }

  /** Publishing each message, or failing to and logging it, is a run of Publish and Drop. */
  lemma {:induction false} PublishAllIsARun(cfg: P.Config, s: P.State, ms: seq<Message>, ok: nat -> bool)
    returns (steps: seq<P.Step>, s': P.State)
    requires multiset(ms) <= s.outbox
    ensures P.Allowed(cfg, s, steps) && P.After(cfg, s, steps) == s' && Published(s, s', ms, ok)
    ensures forall i | 0 <= i < |steps| :: steps[i].Publish? || steps[i].Drop?
    decreases |ms|
  {
    if ms == [] {
      steps, s' := [], s;
    } else {
      var n := |ms| - 1;
      LastMessage(ms);
      var s1;
      steps, s1 := PublishAllIsARun(cfg, s, ms[..n], ok);
      TakeOne(s.outbox, s1.outbox, multiset(ms[..n]), ms[n]);
      steps, s' := PublishOneMore(cfg, s, steps, s1, ms[n], ok(n));
      PublishedNext(s, s1, s', ms, ok);
    }
  }

  lemma LastMessage(ms: seq<Message>)
    requires ms != []
    ensures multiset(ms) == multiset(ms[..|ms| - 1]) + multiset{ms[|ms| - 1]}
  {
    assert ms == ms[..|ms| - 1] + [ms[|ms| - 1]];
  }

  lemma Cancel(a: multiset<Message>, b: multiset<Message>, m: multiset<Message>)
    requires a + m == b + m
    ensures a == b
  {
    forall x ensures a[x] == b[x] { assert (a + m)[x] == (b + m)[x]; }
  }

  lemma TakeOne(all: multiset<Message>, left: multiset<Message>, taken: multiset<Message>, x: Message)
    requires all == left + taken && taken + multiset{x} <= all
    ensures x in left && all == left - multiset{x} + (taken + multiset{x})
  {
    assert (taken + multiset{x})[x] <= (left + taken)[x];
  }

  lemma PublishedNext(s: P.State, s1: P.State, s': P.State, ms: seq<Message>, ok: nat -> bool)
    requires ms != [] && multiset(ms) <= s.outbox
    requires var n := |ms| - 1;
      && Published(s, s1, ms[..n], ok)
      && s' == s1.(stream := s1.stream + if ok(n) then [ms[n]] else [], outbox := s1.outbox - multiset{ms[n]})
    ensures Published(s, s', ms, ok)
  {
    LastMessage(ms);
    var n := |ms| - 1;
    assert s.stream + Sent(ms[..n], ok) + (if ok(n) then [ms[n]] else []) == s.stream + Sent(ms, ok);
    TakeOne(s.outbox, s1.outbox, multiset(ms[..n]), ms[n]);
  }

  /** Messages put into the outbox and published again leave the outbox as it was. */
  lemma CycleLeaves(s: P.State, s1: P.State, s': P.State, db: Tables, ms: seq<Message>, ok: nat -> bool)
    requires s1 == s.(db := db, outbox := s.outbox + multiset(ms)) && Published(s1, s', ms, ok)
    ensures s' == s.(db := db, stream := s.stream + Sent(ms, ok))
  {
    Cancel(s'.outbox, s.outbox, multiset(ms));
  }

  lemma PublishOneMore(cfg: P.Config, s: P.State, steps: seq<P.Step>, s1: P.State, m: Message, ok: bool)
    returns (steps': seq<P.Step>, s': P.State)
    requires P.Allowed(cfg, s, steps) && P.After(cfg, s, steps) == s1 && m in s1.outbox
    requires forall i | 0 <= i < |steps| :: steps[i].Publish? || steps[i].Drop?
    ensures P.Allowed(cfg, s, steps') && P.After(cfg, s, steps') == s'
    ensures s' == s1.(stream := s1.stream + if ok then [m] else [], outbox := s1.outbox - multiset{m})
    ensures forall i | 0 <= i < |steps'| :: steps'[i].Publish? || steps'[i].Drop?
  {
    var step := if ok then P.Publish(m) else P.Drop(m);
    steps' := PathGrows(cfg, s, steps, s1, step);
    s' := P.Apply(cfg, s1, step);
  }

  lemma Prefixed(cfg: P.Config, s: P.State, step: P.Step, steps: seq<P.Step>)
    requires P.Enabled(cfg, s, step) && P.Allowed(cfg, P.Apply(cfg, s, step), steps)
    ensures P.Allowed(cfg, s, [step] + steps)
    ensures P.After(cfg, s, [step] + steps) == P.After(cfg, P.Apply(cfg, s, step), steps)
  {
    assert ([step] + steps)[1..] == steps;
  }

  lemma ThenPublish(cfg: P.Config, s: P.State, step: P.Step, s1: P.State, ms: seq<Message>, ok: nat -> bool)
    returns (steps: seq<P.Step>, s': P.State)
    requires P.Enabled(cfg, s, step) && P.Apply(cfg, s, step) == s1 && multiset(ms) <= s1.outbox
    ensures P.Allowed(cfg, s, steps) && P.After(cfg, s, steps) == s' && Published(s1, s', ms, ok)
  {
    var more;
    more, s' := PublishAllIsARun(cfg, s1, ms, ok);
    Prefixed(cfg, s, step, more);
    steps := [step] + more;
  }

  /** A scheduling cycle that commits, with a clock reading of any age, is a run of the protocol that leaves what
      SchedulerCycle leaves: the rows, and on the stream the messages whose XADD succeeded. */
  lemma SchedulerCycleIsARun(
    cfg: P.Config, s: P.State, at: int, batch: nat, locked: set<nat>, sel: seq<nat>, ids: seq<string>, ok: nat -> bool)
    returns (steps: seq<P.Step>, s': P.State)
    requires P.Enabled(cfg, s, P.Schedule(at, batch, locked, sel, ids))
    ensures P.Allowed(cfg, s, steps) && P.After(cfg, s, steps) == s'
    ensures s' == s.(db := Scheduled(s.db, sel, ids, at), stream := s.stream + Sent(Announcements(s.db, sel, ids), ok))
  {
    var step := P.Schedule(at, batch, locked, sel, ids);
    var ms := Announcements(s.db, sel, ids);
    var db := Scheduled(s.db, sel, ids, at);
    var s1 := s.(db := db, outbox := s.outbox + multiset(ms));
    steps, s' := ThenPublish(cfg, s, step, s1, ms, ok);
    CycleLeaves(s, s1, s', db, ms, ok);
  }

  function MessagesOf(db: Tables, sel: seq<string>): (ms: seq<Message>)
    requires forall i | 0 <= i < |sel| :: sel[i] in db.executions
    ensures |ms| == |sel| && forall i | 0 <= i < |sel| :: ms[i] == MessageOf(db, sel[i])
  {
    seq(|sel|, i requires 0 <= i < |sel| => MessageOf(db, sel[i]))
  }

  lemma {:induction false} RemindersAre(db: Tables, sel: seq<string>)
    requires forall i | 0 <= i < |sel| :: sel[i] in db.executions
    ensures multiset(MessagesOf(db, sel)) == P.Reminders(db, sel)
    decreases |sel|
  {
    if sel != [] {
      RemindersAre(db, sel[1..]);
      assert MessagesOf(db, sel) == [MessageOf(db, sel[0])] + MessagesOf(db, sel[1..]);
    }
  }

  /** A tick of the recovery dispatcher is a run that leaves what RecoveryTick leaves. */
  lemma RecoveryTickIsARun(cfg: P.Config, s: P.State, at: int, sel: seq<string>, ok: nat -> bool)
    returns (steps: seq<P.Step>, s': P.State)
    requires P.Enabled(cfg, s, P.Recover(at, sel))
    ensures forall i | 0 <= i < |sel| :: sel[i] in s.db.executions
    ensures P.Allowed(cfg, s, steps) && P.After(cfg, s, steps) == s'
    ensures s' == s.(stream := s.stream + Sent(MessagesOf(s.db, sel), ok))
  {
    var step := P.Recover(at, sel);
    var ms := MessagesOf(s.db, sel);
    RemindersAre(s.db, sel);
    var s1 := s.(outbox := s.outbox + multiset(ms));
    steps, s' := ThenPublish(cfg, s, step, s1, ms, ok);
    CycleLeaves(s, s1, s', s.db, ms, ok);
  }
}
