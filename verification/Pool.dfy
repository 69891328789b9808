/** The goroutines of one worker process: a reader, a claimer and a number of workers around one bounded channel
    of jobs. Every channel operation, Redis reply and cancellation is one step, in any order the guards allow. */
module Pool {

  /** `idle` is the message idle timeout; `undecodable` are the stream entries that carry no execution message. */
  datatype Config = Config(workers: nat, capacity: nat, idle: nat, undecodable: set<nat>)

  /** What the process shares with all others: the clock, the stream's length, and the consumer group with its
      pending list, which keeps the time of the last delivery. */
  datatype Group = Group(now: int, length: nat, cursor: nat, pending: map<nat, int>, acked: set<nat>)

  /** What other processes do to the group. */
  datatype Outside = Tick(d: nat) | Published | Delivered | Claimed(entry: nat) | Acked(entry: nat)

  datatype Side = Reader | Claimer

  /** Where readLoop or claimLoop stands: before its test of the context, inside a Redis command, sending the
      messages that came back, waiting out an error, or returned. */
  datatype Loop = Top | Calling | Sending(batch: seq<nat>) | Pausing | Stopped

  datatype Worker = Free | Processing(entry: nat) | Acking(entry: nat) | Gone

  /** Run itself: first inside readLoop, then waiting for the claimer, then, with the channel closed, for the
      workers. */
  datatype Phase = Reading | AwaitClaimer | AwaitWorkers | Returned

  datatype State = State(
    reader: Loop, claimer: Loop, workers: seq<Worker>, phase: Phase,
    buffer: seq<nat>, closed: bool, panicked: bool, cancelled: bool,
    group: Group, scan: nat,                                               // `scan` is the claim cursor
    sent: seq<nat>, taken: seq<nat>,                                        // through the channel, in order
    received: multiset<nat>, handled: multiset<nat>, dropped: multiset<nat>, skipped: multiset<nat>)

  datatype Step =
    | Cancel
    | Call(side: Side)
    | Reply(side: Side, batch: seq<nat>, next: nat)
    | Fail(side: Side, pause: bool, lost: seq<nat>)
    | Resume(side: Side)
    | Skip(side: Side)
    | Send(side: Side)
    | HandOff(side: Side, k: nat)
    | Finish(side: Side)
    | Quit(side: Side)
    | Take(k: nat)
    | Processed(k: nat, ok: bool)
    | Ack(k: nat, done: bool)
    | Exit(k: nat)
    | ReaderDone
    | Close
    | Return
    | Elsewhere(event: Outside)

  function At(s: State, side: Side): Loop { if side.Reader? then s.reader else s.claimer }

  function Move(s: State, side: Side, l: Loop): State {
    if side.Reader? then s.(reader := l) else s.(claimer := l)
  }

  function Batch(l: Loop): seq<nat> { if l.Sending? then l.batch else [] }

  predicate Is(s: State, k: nat, w: Worker) { k < |s.workers| && s.workers[k] == w }

  predicate Decodable(cfg: Config, s: State, side: Side) {
    Batch(At(s, side)) != [] && Batch(At(s, side))[0] !in cfg.undecodable
  }

  predicate IdleEntry(cfg: Config, g: Group, e: nat) { e in g.pending && g.now - g.pending[e] >= cfg.idle }

  /** XREADGROUP hands out the entries that come next. */
  predicate NextEntries(g: Group, batch: seq<nat>) {
    (batch == [] || g.cursor + |batch| <= g.length) && forall i | 0 <= i < |batch| :: batch[i] == g.cursor + i
  }

  /** XAUTOCLAIM hands out the idle entries from the cursor on, in order and without leaving one out. */
  predicate IdleEntries(cfg: Config, g: Group, from: nat, batch: seq<nat>)
    decreases |batch|
  {
    batch == [] ||
    (from <= batch[0] && IdleEntry(cfg, g, batch[0]) && NoneIdle(cfg, g, from, batch[0])
     && IdleEntries(cfg, g, batch[0] + 1, batch[1..]))
  }

  predicate NoneIdle(cfg: Config, g: Group, from: nat, to: nat) {
    forall e <- g.pending | from <= e < to :: !IdleEntry(cfg, g, e)
  }

  /** Where the scan for idle entries got to. */
  function ScannedTo(from: nat, batch: seq<nat>): nat { if batch == [] then from else batch[|batch| - 1] + 1 }

  predicate Deliverable(cfg: Config, s: State, side: Side, batch: seq<nat>) {
    if side.Reader? then NextEntries(s.group, batch) else IdleEntries(cfg, s.group, s.scan, batch)
  }

  /** The pending list after the entries were delivered now. */
  function Stamped(pending: map<nat, int>, batch: seq<nat>, now: int): (r: map<nat, int>)
    ensures r.Keys == pending.Keys + set e <- batch
    decreases |batch|
  {
    if batch == [] then pending
    else
      var r := Stamped(pending[batch[0] := now], batch[1..], now);
      assert batch == [batch[0]] + batch[1..];
      r
  }

  function Deliver(g: Group, side: Side, batch: seq<nat>): Group {
    g.(pending := Stamped(g.pending, batch, g.now), cursor := if side.Reader? then g.cursor + |batch| else g.cursor)
  }

  predicate CanHappen(cfg: Config, g: Group, event: Outside) {
    match event
    case Tick(_) => true
    case Published => true
    case Delivered => g.cursor < g.length
    case Claimed(e) => IdleEntry(cfg, g, e)
    case Acked(e) => e in g.pending || e in g.acked
  }

  function Happened(g: Group, event: Outside): Group {
    match event
    case Tick(d) => g.(now := g.now + d)
    case Published => g.(length := g.length + 1)
    case Delivered => g.(pending := g.pending[g.cursor := g.now], cursor := g.cursor + 1)
    case Claimed(e) => g.(pending := g.pending[e := g.now])
    case Acked(e) => g.(pending := g.pending - {e}, acked := g.acked + {e})
  }

  predicate Enabled(cfg: Config, s: State, step: Step) {
    match step
    case Cancel => !s.cancelled
    // The claimer's select may take a tick even when the context is done; the reader tests the context first.
    case Call(side) => At(s, side).Top? && (side.Reader? ==> !s.cancelled)
    case Reply(side, batch, next) =>
      && At(s, side).Calling? && Deliverable(cfg, s, side, batch)
      && (side.Claimer? ==> NoneIdle(cfg, s.group, ScannedTo(s.scan, batch), next))
    // The command may have been carried out although its reply is lost.
    case Fail(side, pause, lost) => At(s, side).Calling? && Deliverable(cfg, s, side, lost) && (pause ==> side.Reader?)
    case Resume(side) => At(s, side).Pausing?
    case Skip(side) => Batch(At(s, side)) != [] && Batch(At(s, side))[0] in cfg.undecodable
    case Send(side) => Decodable(cfg, s, side) && (s.closed || |s.buffer| < cfg.capacity)
    case HandOff(side, k) => Decodable(cfg, s, side) && !s.closed && s.buffer == [] && Is(s, k, Free)
    case Finish(side) => At(s, side) == Sending([])
    case Quit(side) => s.cancelled && (At(s, side).Top? || At(s, side).Pausing? || Decodable(cfg, s, side))
    case Take(k) => Is(s, k, Free) && s.buffer != []
    case Processed(k, _) => k < |s.workers| && s.workers[k].Processing?
    case Ack(k, _) => k < |s.workers| && s.workers[k].Acking?
    case Exit(k) => Is(s, k, Free) && s.closed && s.buffer == []
    case ReaderDone => s.phase.Reading? && s.reader.Stopped?
    case Close => s.phase.AwaitClaimer? && s.claimer.Stopped?
    case Return => s.phase.AwaitWorkers? && AllGone(s)
    case Elsewhere(event) => CanHappen(cfg, s.group, event)
  }

  function Apply(cfg: Config, s: State, step: Step): State
    requires Enabled(cfg, s, step)
  {
    match step
    case Cancel => s.(cancelled := true)
    case Call(side) => Move(s, side, Calling)
    case Reply(side, batch, next) =>
      Move(s, side, Sending(batch))
      .(group := Deliver(s.group, side, batch), scan := if side.Claimer? then next else s.scan,
        received := s.received + multiset(batch))
    case Fail(side, pause, lost) =>
      Move(s, side, if pause then Pausing else Top).(group := Deliver(s.group, side, lost))
    case Resume(side) => Move(s, side, Top)
    case Skip(side) =>
      var b := Batch(At(s, side));
      Move(s, side, Sending(b[1..])).(skipped := s.skipped + multiset{b[0]})
    case Send(side) =>
      var b := Batch(At(s, side));
      if s.closed then s.(panicked := true)
      else Move(s, side, Sending(b[1..])).(buffer := s.buffer + [b[0]], sent := s.sent + [b[0]])
    case HandOff(side, k) =>
      var b := Batch(At(s, side));
      Move(s, side, Sending(b[1..]))
      .(workers := s.workers[k := Worker.Processing(b[0])], sent := s.sent + [b[0]], taken := s.taken + [b[0]])
    case Finish(side) => Move(s, side, Top)
    case Quit(side) => Move(s, side, Stopped).(dropped := s.dropped + multiset(Batch(At(s, side))))
    case Take(k) =>
      var e := s.buffer[0];
      s.(workers := s.workers[k := Worker.Processing(e)], buffer := s.buffer[1..], taken := s.taken + [e])
    case Processed(k, ok) =>
      var e := s.workers[k].entry;
      if ok then s.(workers := s.workers[k := Acking(e)])
      else s.(workers := s.workers[k := Free], handled := s.handled + multiset{e})
    case Ack(k, done) =>
      var e := s.workers[k].entry;
      var s' := s.(workers := s.workers[k := Free], handled := s.handled + multiset{e});
      if done then s'.(group := Happened(s.group, Acked(e))) else s'
    case Exit(k) => s.(workers := s.workers[k := Gone])
    case ReaderDone => s.(phase := AwaitClaimer)
    case Close => s.(phase := AwaitWorkers, closed := true)
    case Return => s.(phase := Returned)
    case Elsewhere(event) => s.(group := Happened(s.group, event))
  }

  predicate Allowed(cfg: Config, s: State, steps: seq<Step>)
    decreases |steps|
  {
    steps == [] || (Enabled(cfg, s, steps[0]) && Allowed(cfg, Apply(cfg, s, steps[0]), steps[1..]))
  }

  function After(cfg: Config, s: State, steps: seq<Step>): State
    requires Allowed(cfg, s, steps)
    decreases |steps|
  {
    if steps == [] then s else After(cfg, Apply(cfg, s, steps[0]), steps[1..])
  }

  /** Run has just started its goroutines, whatever state the group is in. */
  function Start(cfg: Config, group: Group): State {
    State(Top, Top, seq(cfg.workers, _ => Free), Reading, [], false, false, false, group, 0,
          [], [], multiset{}, multiset{}, multiset{}, multiset{})
  }

  // ---------- the invariant ----------

  /** The order of the shutdown: who has stopped by when. */
  predicate Ordered(s: State) {
    && (!s.phase.Reading? ==> s.reader.Stopped?)
    && (s.closed <==> s.phase.AwaitWorkers? || s.phase.Returned?)
    && (s.closed ==> s.claimer.Stopped?)
    && (s.reader.Stopped? || s.claimer.Stopped? ==> s.cancelled)
    && !s.panicked
  }

  predicate Bounded(cfg: Config, s: State) { |s.buffer| <= cfg.capacity && |s.workers| == cfg.workers }

  predicate AllGone(s: State) { forall k | 0 <= k < |s.workers| :: s.workers[k].Gone? }

  predicate Leaving(s: State) { GoneLast(s) && (s.phase.Returned? ==> AllGone(s)) }

  predicate GoneLast(s: State) { forall k | 0 <= k < |s.workers| && s.workers[k].Gone? :: s.closed && s.buffer == [] }

  predicate InOrder(s: State) { s.sent == s.taken + s.buffer }

  /** Whatever was received is pending or acknowledged. */
  predicate Remembered(s: State) { forall e <- s.received :: Known(s.group, e) }

  predicate Known(g: Group, e: nat) { e in g.pending || e in g.acked }

  /** How many workers have entry `e`. */
  function Held(workers: seq<Worker>, e: nat): nat {
    if workers == [] then 0
    else
      var n := |workers| - 1;
      Held(workers[..n], e) + Own(workers[n], e)
  }

  function Own(w: Worker, e: nat): nat {
    if (w.Processing? || w.Acking?) && w.entry == e then 1 else 0
  }

  /** How often the process has entry `e` in memory. */
  function InMemory(s: State, e: nat): nat {
    multiset(Batch(s.reader))[e] + multiset(Batch(s.claimer))[e] + multiset(s.buffer)[e] + Held(s.workers, e)
  }

  ghost predicate Inv(cfg: Config, s: State) {
    Ordered(s) && Bounded(cfg, s) && Leaving(s) && InOrder(s) && Remembered(s) && Accounted(cfg, s)
    && forall e: nat :: Balanced(s, e)
  }

  lemma LoopsOrderedKept(cfg: Config, s: State, step: Step)
    requires Enabled(cfg, s, step) && Ordered(s)
    requires step.Call? || step.Reply? || step.Fail? || step.Resume? || step.Skip? || step.Send? || step.HandOff?
          || step.Finish? || step.Quit?
    ensures Ordered(Apply(cfg, s, step))
  {}

  lemma OthersOrderedKept(cfg: Config, s: State, step: Step)
    requires Enabled(cfg, s, step) && Ordered(s)
    requires !(step.Call? || step.Reply? || step.Fail? || step.Resume? || step.Skip? || step.Send? || step.HandOff?
          || step.Finish? || step.Quit?)
    ensures Ordered(Apply(cfg, s, step))
  {}

  lemma OrderedKept(cfg: Config, s: State, step: Step)
    requires Enabled(cfg, s, step) && Ordered(s)
    ensures Ordered(Apply(cfg, s, step))
  {
    if step.Call? || step.Reply? || step.Fail? || step.Resume? || step.Skip? || step.Send? || step.HandOff?
       || step.Finish? || step.Quit? {
      LoopsOrderedKept(cfg, s, step);
    } else {
      OthersOrderedKept(cfg, s, step);
    }
  }

  lemma BoundedKept(cfg: Config, s: State, step: Step)
    requires Enabled(cfg, s, step) && Bounded(cfg, s)
    requires Ordered(s)
    ensures Bounded(cfg, Apply(cfg, s, step))
  {}

  lemma GoneStays(cfg: Config, s: State, step: Step)
    requires Enabled(cfg, s, step) && Ordered(s)
    ensures s.closed && s.buffer == [] ==> Apply(cfg, s, step).closed && Apply(cfg, s, step).buffer == []
  {}

  /** Only one worker moves at a time, and only Exit makes it go. */
  lemma WorkersStep(cfg: Config, s: State, step: Step)
    requires Enabled(cfg, s, step)
    ensures Apply(cfg, s, step).workers
         == if step.HandOff? || step.Take? || step.Processed? || step.Ack? || step.Exit?
            then s.workers[step.k := Moved(cfg, s, step)] else s.workers
  {}

  function Moved(cfg: Config, s: State, step: Step): Worker
    requires Enabled(cfg, s, step) && (step.HandOff? || step.Take? || step.Processed? || step.Ack? || step.Exit?)
  {
    match step
    case HandOff(side, _) => Worker.Processing(Batch(At(s, side))[0])
    case Take(_) => Worker.Processing(s.buffer[0])
    case Processed(k, ok) => if ok then Acking(s.workers[k].entry) else Free
    case Ack(_, _) => Free
    case Exit(_) => Gone
  }

  lemma NewlyGone(cfg: Config, s: State, step: Step, k: nat)
    requires Enabled(cfg, s, step)
    requires k < |Apply(cfg, s, step).workers| && Apply(cfg, s, step).workers[k].Gone?
    ensures k < |s.workers| && (s.workers[k].Gone? || (s.closed && s.buffer == []))
  {
    WorkersStep(cfg, s, step);
  }

  lemma GoneLastKept(cfg: Config, s: State, step: Step)
    requires Enabled(cfg, s, step) && Ordered(s) && GoneLast(s)
    ensures GoneLast(Apply(cfg, s, step))
  {
    var s' := Apply(cfg, s, step);
    GoneStays(cfg, s, step);
    forall k | 0 <= k < |s'.workers| && s'.workers[k].Gone? ensures s'.closed && s'.buffer == [] {
      NewlyGone(cfg, s, step, k);
    }
  }

  lemma LeavingKept(cfg: Config, s: State, step: Step)
    requires Enabled(cfg, s, step) && Ordered(s) && Leaving(s)
    ensures s.phase.Returned? ==> AllGone(Apply(cfg, s, step))
    ensures Leaving(Apply(cfg, s, step))
  {
    GoneLastKept(cfg, s, step);
  }

  lemma InOrderKept(cfg: Config, s: State, step: Step)
    requires Enabled(cfg, s, step) && Ordered(s) && InOrder(s)
    ensures InOrder(Apply(cfg, s, step))
  {}

  lemma NothingForgotten(cfg: Config, s: State, step: Step, e: nat)
    requires Enabled(cfg, s, step) && Known(s.group, e)
    ensures Known(Apply(cfg, s, step).group, e)
  {
    GroupSteps(cfg, s, step);
    if step.Reply? {
      DeliverForgetsNothing(s.group, step.side, step.batch, e);
    } else if step.Fail? {
      DeliverForgetsNothing(s.group, step.side, step.lost, e);
    }
  }

  lemma DeliverForgetsNothing(g: Group, side: Side, batch: seq<nat>, e: nat)
    requires Known(g, e)
    ensures Known(Deliver(g, side, batch), e)
  {}

  lemma GroupSteps(cfg: Config, s: State, step: Step)
    requires Enabled(cfg, s, step)
    ensures Apply(cfg, s, step).group ==
      match step
      case Reply(side, batch, _) => Deliver(s.group, side, batch)
      case Fail(side, _, lost) => Deliver(s.group, side, lost)
      case Ack(k, true) => Happened(s.group, Acked(s.workers[k].entry))
      case Elsewhere(event) => Happened(s.group, event)
      case _ => s.group
  {}

  lemma ReceivedSteps(cfg: Config, s: State, step: Step, e: nat)
    requires Enabled(cfg, s, step) && e in Apply(cfg, s, step).received
    ensures e in s.received || (step.Reply? && Known(Apply(cfg, s, step).group, e))
  {}

  lemma RememberedKept(cfg: Config, s: State, step: Step)
    requires Enabled(cfg, s, step) && Remembered(s)
    ensures Remembered(Apply(cfg, s, step))
  {
    var s' := Apply(cfg, s, step);
    forall e <- s'.received ensures Known(s'.group, e) {
      ReceivedSteps(cfg, s, step, e);
      if e in s.received { NothingForgotten(cfg, s, step, e); }
    }
  }

  lemma {:induction false} HeldPut(workers: seq<Worker>, k: nat, w: Worker, e: nat)
    requires k < |workers|
    ensures Held(workers[k := w], e) + Own(workers[k], e) == Held(workers, e) + Own(w, e)
    decreases |workers|
  {
    var n := |workers| - 1;
    if k < n {
      HeldPut(workers[..n], k, w, e);
      assert workers[k := w][..n] == workers[..n][k := w];
    } else {
      assert workers[k := w][..n] == workers[..n];
    }
  }

  lemma Headed(b: seq<nat>, e: nat)
    requires b != []
    ensures multiset(b)[e] == (if b[0] == e then 1 else 0) + multiset(b[1..])[e]
  {
    assert b == [b[0]] + b[1..];
  }

  lemma Tailed(b: seq<nat>, x: nat, e: nat)
    ensures multiset(b + [x])[e] == multiset(b)[e] + if x == e then 1 else 0
  {}

  /** Every message received is in memory once, or was handled, dropped at shutdown or skipped. */
  predicate Balanced(s: State, e: nat) { s.received[e] == InMemory(s, e) + s.handled[e] + s.dropped[e] + s.skipped[e] }

  lemma SkipBalanced(cfg: Config, s: State, step: Step, e: nat)
    requires step.Skip? && Enabled(cfg, s, step) && Balanced(s, e)
    ensures Balanced(Apply(cfg, s, step), e)
  {
    Headed(Batch(At(s, step.side)), e);
  }

  lemma SendBalanced(cfg: Config, s: State, step: Step, e: nat)
    requires step.Send? && Enabled(cfg, s, step) && Balanced(s, e) && !s.closed
    ensures Balanced(Apply(cfg, s, step), e)
  {
    var b := Batch(At(s, step.side));
    Headed(b, e);
    Tailed(s.buffer, b[0], e);
  }

  lemma ReplyBalanced(cfg: Config, s: State, step: Step, e: nat)
    requires (step.Reply? || step.Quit?) && Enabled(cfg, s, step) && Balanced(s, e)
    ensures Balanced(Apply(cfg, s, step), e)
  {}

  lemma HandOffBalanced(cfg: Config, s: State, step: Step, e: nat)
    requires Enabled(cfg, s, step) && Balanced(s, e) && step.HandOff?
    ensures Balanced(Apply(cfg, s, step), e)
  {
    var b := Batch(At(s, step.side));
    Headed(b, e);
    HeldPut(s.workers, step.k, Worker.Processing(b[0]), e);
  }

  lemma TakeBalanced(cfg: Config, s: State, step: Step, e: nat)
    requires step.Take? && Enabled(cfg, s, step) && Balanced(s, e)
    ensures Balanced(Apply(cfg, s, step), e)
  {
    HeldPut(s.workers, step.k, Worker.Processing(s.buffer[0]), e);
    Headed(s.buffer, e);
  }

  lemma AckBalanced(cfg: Config, s: State, step: Step, e: nat)
    requires step.Ack? && Enabled(cfg, s, step) && Balanced(s, e)
    ensures Balanced(Apply(cfg, s, step), e)
  {
    HeldPut(s.workers, step.k, Free, e);
    AckParts(cfg, s, step);
  }

  lemma AckParts(cfg: Config, s: State, step: Step)
    requires step.Ack? && Enabled(cfg, s, step)
    ensures var s' := Apply(cfg, s, step);
      s' == s.(workers := s.workers[step.k := Free], handled := s.handled + multiset{s.workers[step.k].entry},
               group := s'.group)
  {}

  lemma ProcessedBalanced(cfg: Config, s: State, step: Step, e: nat)
    requires step.Processed? && Enabled(cfg, s, step) && Balanced(s, e)
    ensures Balanced(Apply(cfg, s, step), e)
  {
    HeldPut(s.workers, step.k, if step.ok then Acking(s.workers[step.k].entry) else Free, e);
  }

  lemma ExitBalanced(cfg: Config, s: State, step: Step, e: nat)
    requires step.Exit? && Enabled(cfg, s, step) && Balanced(s, e)
    ensures Balanced(Apply(cfg, s, step), e)
  {
    HeldPut(s.workers, step.k, Gone, e);
  }

  lemma OtherBalanced(cfg: Config, s: State, step: Step, e: nat)
    requires Enabled(cfg, s, step) && Balanced(s, e)
    requires step.Cancel? || step.Call? || step.Fail? || step.Resume? || step.Finish? || step.ReaderDone?
          || step.Close? || step.Return? || step.Elsewhere?
    ensures Balanced(Apply(cfg, s, step), e)
  {}

  lemma NothingAtClosed(cfg: Config, s: State, step: Step)
    requires Enabled(cfg, s, step) && Ordered(s)
    requires step.Send?
    ensures !s.closed
  {}

  lemma BalancedKept(cfg: Config, s: State, step: Step, e: nat)
    requires Enabled(cfg, s, step) && Ordered(s) && Balanced(s, e)
    ensures Balanced(Apply(cfg, s, step), e)
  {
    match step
    case Skip(_) => SkipBalanced(cfg, s, step, e);
    case Send(_) =>
      NothingAtClosed(cfg, s, step);
      SendBalanced(cfg, s, step, e);
    case Reply(_, _, _) => ReplyBalanced(cfg, s, step, e);
    case Quit(_) => ReplyBalanced(cfg, s, step, e);
    case HandOff(_, _) => HandOffBalanced(cfg, s, step, e);
    case Take(_) => TakeBalanced(cfg, s, step, e);
    case Processed(_, _) => ProcessedBalanced(cfg, s, step, e);
    case Ack(_, _) => AckBalanced(cfg, s, step, e);
    case Exit(_) => ExitBalanced(cfg, s, step, e);
    case _ => OtherBalanced(cfg, s, step, e);
  }

  /** Nothing is dropped before cancellation, and only what cannot be decoded is skipped. */
  predicate Accounted(cfg: Config, s: State) {
    (!s.cancelled ==> s.dropped == multiset{}) && forall e <- s.skipped :: e in cfg.undecodable
  }

  lemma DroppedSteps(cfg: Config, s: State, step: Step)
    requires Enabled(cfg, s, step)
    ensures Apply(cfg, s, step).dropped == s.dropped || step.Quit?
    ensures s.cancelled ==> Apply(cfg, s, step).cancelled
  {}

  lemma SkippedSteps(cfg: Config, s: State, step: Step, e: nat)
    requires Enabled(cfg, s, step) && e in Apply(cfg, s, step).skipped
    ensures e in s.skipped || e in cfg.undecodable
  {}

  lemma AccountedKept(cfg: Config, s: State, step: Step)
    requires Enabled(cfg, s, step) && Accounted(cfg, s)
    ensures Accounted(cfg, Apply(cfg, s, step))
  {
    DroppedSteps(cfg, s, step);
    forall e <- Apply(cfg, s, step).skipped ensures e in cfg.undecodable { SkippedSteps(cfg, s, step, e); }
  }

  lemma InvKept(cfg: Config, s: State, step: Step)
    requires Enabled(cfg, s, step) && Inv(cfg, s)
    ensures Inv(cfg, Apply(cfg, s, step))
  {
    OrderedKept(cfg, s, step);
    BoundedKept(cfg, s, step);
    LeavingKept(cfg, s, step);
    InOrderKept(cfg, s, step);
    RememberedKept(cfg, s, step);
    AccountedKept(cfg, s, step);
    forall e: nat ensures Balanced(Apply(cfg, s, step), e) { BalancedKept(cfg, s, step, e); }
  }

  lemma {:induction false} HeldNone(workers: seq<Worker>, e: nat)
    requires forall k | 0 <= k < |workers| :: workers[k].Free? || workers[k].Gone?
    ensures Held(workers, e) == 0
    decreases |workers|
  {
    if workers != [] { HeldNone(workers[..|workers| - 1], e); }
  }

  lemma {:induction false} InvAlways(cfg: Config, s: State, steps: seq<Step>)
    requires Inv(cfg, s) && Allowed(cfg, s, steps)
    ensures Inv(cfg, After(cfg, s, steps))
    decreases |steps|
  {
    if steps != [] {
      InvKept(cfg, s, steps[0]);
      InvAlways(cfg, Apply(cfg, s, steps[0]), steps[1..]);
    }
  }

  lemma StartIsSound(cfg: Config, group: Group)
    ensures Inv(cfg, Start(cfg, group))
  {
    var s := Start(cfg, group);
    forall e: nat ensures Balanced(s, e) { HeldNone(s.workers, e); }
  }

  // ---------- shutdown ----------

  /** What the process has kept of its promises at any moment. */
  ghost predicate Safe(cfg: Config, s: State) {
    && !s.panicked && |s.buffer| <= cfg.capacity && s.sent == s.taken + s.buffer
    && (!s.cancelled ==> forall e: nat :: s.received[e] == InMemory(s, e) + s.handled[e] + s.skipped[e])
    && (forall e <- s.received :: Known(s.group, e))
  }

  predicate SafeAtEnd(cfg: Config, s: State) {
    && s.received == multiset(s.buffer) + s.handled + s.dropped + s.skipped
    && (cfg.workers > 0 ==> s.buffer == [])
  }

  lemma AtEnd(cfg: Config, s: State)
    requires Inv(cfg, s) && s.phase.Returned?
    ensures SafeAtEnd(cfg, s)
  {
    forall e: nat ensures s.received[e] == multiset(s.buffer)[e] + s.handled[e] + s.dropped[e] + s.skipped[e] {
      HeldNone(s.workers, e);
      assert Balanced(s, e);
    }
    if cfg.workers > 0 { assert s.workers[0].Gone?; }
  }

  /** In every interleaving: nothing is sent on the closed channel, the buffer never exceeds its capacity, jobs
      leave the channel in the order in which they entered it, and nothing is dropped before the context is
      cancelled; every message received that is not acknowledged is still pending. When Run has returned, every
      message received was handled, dropped or skipped, or, without workers, is left in the buffer. */
  lemma ShutdownIsSafe(cfg: Config, group: Group, steps: seq<Step>)
    requires Allowed(cfg, Start(cfg, group), steps)
    ensures var s := After(cfg, Start(cfg, group), steps);
      Safe(cfg, s) && (s.phase.Returned? ==> SafeAtEnd(cfg, s))
  {
    StartIsSound(cfg, group);
    InvAlways(cfg, Start(cfg, group), steps);
    var s := After(cfg, Start(cfg, group), steps);
    InvIsSafe(cfg, s);
    if s.phase.Returned? { AtEnd(cfg, s); }
  }

  lemma InvIsSafe(cfg: Config, s: State)
    requires Inv(cfg, s)
    ensures Safe(cfg, s)
  {
    if !s.cancelled {
      forall e: nat ensures s.received[e] == InMemory(s, e) + s.handled[e] + s.skipped[e] { assert Balanced(s, e); }
    }
  }

  predicate Drains(cfg: Config, group: Group, steps: seq<Step>) {
    var s := Start(cfg, group);
    Allowed(cfg, s, steps) && After(cfg, s, steps).phase.Returned? ==> After(cfg, s, steps).buffer == []
  }

  /** The buffer is always empty when Run returns if and only if there is a worker or no buffer. The source does
      not refuse a worker count of zero. */
  lemma BufferIsDrainedIff(cfg: Config)
    ensures (forall group, steps :: Drains(cfg, group, steps)) <==> cfg.workers > 0 || cfg.capacity == 0
  {
    if cfg.workers > 0 || cfg.capacity == 0 {
      forall group, steps ensures Drains(cfg, group, steps) {
        if Allowed(cfg, Start(cfg, group), steps) { ShutdownIsSafe(cfg, group, steps); }
      }
    } else {
      var e := NewEntry(cfg.undecodable);
      var group := Group(0, e + 1, e, map[], {});
      var steps, s' := BufferOne(cfg, group, e);
      steps, s' := ShutDown(cfg, Start(cfg, group), steps, s', e);
      assert !Drains(cfg, group, steps);
    }
  }

  lemma {:induction false} Above(known: set<nat>) returns (e: nat)
    ensures forall x <- known :: x < e
  {
    if known == {} { return 0; }
    var x: nat :| x in known;
    var below := Above(known - {x});
    e := if below <= x then x + 1 else below;
    forall y <- known ensures y < e { assert y == x || y in known - {x}; }
  }

  lemma NewEntry(known: set<nat>) returns (e: nat)
    ensures e !in known
  {
    e := Above(known);
  }

  /** One message has been read and put into the buffer. */
  predicate Buffered(s: State, e: nat) {
    && s.reader.Top? && s.claimer.Top? && s.workers == [] && s.phase.Reading? && s.buffer == [e]
    && !s.closed && !s.cancelled
  }

  lemma BufferOne(cfg: Config, group: Group, e: nat) returns (steps: seq<Step>, s': State)
    requires cfg.workers == 0 && cfg.capacity > 0 && e !in cfg.undecodable
    requires group.cursor == e && group.length == e + 1
    ensures Path(cfg, Start(cfg, group), steps, s') && Buffered(s', e)
  {
    var s := Start(cfg, group);
    assert Path(cfg, s, [], s);
    steps, s' := More(cfg, s, [], s, Call(Reader));
    steps, s' := More(cfg, s, steps, s', Reply(Reader, [e], 0));
    steps, s' := More(cfg, s, steps, s', Send(Reader));
    steps, s' := More(cfg, s, steps, s', Finish(Reader));
  }

  lemma ShutDown(cfg: Config, s: State, steps: seq<Step>, s1: State, e: nat) returns (steps': seq<Step>, s': State)
    requires Path(cfg, s, steps, s1) && Buffered(s1, e)
    ensures Path(cfg, s, steps', s') && s'.phase.Returned? && s'.buffer == [e]
  {
    steps', s' := More(cfg, s, steps, s1, Cancel);
    steps', s' := More(cfg, s, steps', s', Quit(Reader));
    steps', s' := More(cfg, s, steps', s', Quit(Claimer));
    steps', s' := More(cfg, s, steps', s', ReaderDone);
    steps', s' := More(cfg, s, steps', s', Close);
    steps', s' := More(cfg, s, steps', s', Return);
  }

  predicate Path(cfg: Config, s: State, steps: seq<Step>, s': State) {
    Allowed(cfg, s, steps) && After(cfg, s, steps) == s'
  }

  lemma More(cfg: Config, s: State, steps: seq<Step>, s1: State, step: Step) returns (steps': seq<Step>, s': State)
    requires Path(cfg, s, steps, s1) && Enabled(cfg, s1, step)
    ensures Path(cfg, s, steps', s') && s' == Apply(cfg, s1, step)
  {
    Snoc(cfg, s, steps, step);
    steps', s' := steps + [step], Apply(cfg, s1, step);
  }

  lemma {:induction false} Snoc(cfg: Config, s: State, steps: seq<Step>, step: Step)
    requires Allowed(cfg, s, steps) && Enabled(cfg, After(cfg, s, steps), step)
    ensures Path(cfg, s, steps + [step], Apply(cfg, After(cfg, s, steps), step))
    decreases |steps|
  {
    if steps == [] {
      assert [step][1..] == [];
      assert Path(cfg, Apply(cfg, s, step), [], Apply(cfg, s, step));
      assert steps + [step] == [step];
    } else {
      assert (steps + [step])[1..] == steps[1..] + [step];
      Snoc(cfg, Apply(cfg, s, steps[0]), steps[1..], step);
    }
  }

  // ---------- shutdown ends ----------

  /** What is still to be done once the context is cancelled. */
  function Pending(l: Loop): nat {
    match l
    case Stopped => 0
    case Top => 1
    case Pausing => 2
    case Calling => 3
    case Sending(b) => 2 + 4 * |b|
  }

  function Busy(workers: seq<Worker>): nat {
    if workers == [] then 0
    else
      var n := |workers| - 1;
      Busy(workers[..n]) + Weight(workers[n])
  }

  function Weight(w: Worker): nat {
    match w case Gone => 0 case Free => 1 case Acking(_) => 2 case Processing(_) => 3
  }

  function Left(p: Phase): nat {
    match p case Returned => 0 case AwaitWorkers => 1 case AwaitClaimer => 2 case Reading => 3
  }

  function Remaining(s: State): nat {
    Pending(s.reader) + Pending(s.claimer) + 3 * |s.buffer| + Busy(s.workers) + Left(s.phase)
  }

  /** What a step may add: a tick of the claimer, and the messages a reply brings. */
  function Brings(step: Step): nat {
    match step
    case Call(_) => 3
    case Reply(_, batch, _) => 4 * |batch|
    case _ => 0
  }

  /** Steps of the process itself. */
  predicate Inside(step: Step) { !step.Cancel? && !step.Elsewhere? }

  lemma {:induction false} BusyPut(workers: seq<Worker>, k: nat, w: Worker)
    requires k < |workers|
    ensures Busy(workers[k := w]) + Weight(workers[k]) == Busy(workers) + Weight(w)
    decreases |workers|
  {
    var n := |workers| - 1;
    if k < n {
      BusyPut(workers[..n], k, w);
      assert workers[k := w][..n] == workers[..n][k := w];
    } else {
      assert workers[k := w][..n] == workers[..n];
    }
  }

  ghost predicate Paid(cfg: Config, s: State, step: Step)
    requires Enabled(cfg, s, step)
  {
    if Inside(step) then Remaining(Apply(cfg, s, step)) < Remaining(s) + Brings(step)
    else Remaining(Apply(cfg, s, step)) == Remaining(s)
  }

  lemma WorkerAdvances(cfg: Config, s: State, step: Step)
    requires Enabled(cfg, s, step) && (step.Processed? || step.Exit?)
    ensures Paid(cfg, s, step)
  {
    BusyPut(s.workers, step.k, Apply(cfg, s, step).workers[step.k]);
  }

  lemma AckAdvances(cfg: Config, s: State, step: Step)
    requires Enabled(cfg, s, step) && step.Ack?
    ensures Paid(cfg, s, step)
  {
    BusyPut(s.workers, step.k, Free);
  }

  lemma TakeAdvances(cfg: Config, s: State, step: Step)
    requires Enabled(cfg, s, step) && step.Take?
    ensures Paid(cfg, s, step)
  {
    BusyPut(s.workers, step.k, Worker.Processing(s.buffer[0]));
  }

  lemma LoopAdvances(cfg: Config, s: State, step: Step)
    requires Enabled(cfg, s, step) && s.cancelled && !s.closed
    requires step.Skip? || step.Send? || step.Finish? || step.Quit? || step.Reply?
    ensures Paid(cfg, s, step)
  {}

  lemma HandOffAdvances(cfg: Config, s: State, step: Step)
    requires Enabled(cfg, s, step) && step.HandOff?
    ensures Paid(cfg, s, step)
  {
    BusyPut(s.workers, step.k, Worker.Processing(Batch(At(s, step.side))[0]));
  }

  /** Every step the process takes after cancellation is paid for. */
  lemma ShutdownAdvances(cfg: Config, s: State, step: Step)
    requires Enabled(cfg, s, step) && s.cancelled && Ordered(s)
    ensures Paid(cfg, s, step)
  {
    if step.Take? {
      TakeAdvances(cfg, s, step);
    } else if step.Ack? {
      AckAdvances(cfg, s, step);
    } else if step.Processed? || step.Exit? {
      WorkerAdvances(cfg, s, step);
    } else if step.HandOff? {
      HandOffAdvances(cfg, s, step);
    } else if step.Skip? || step.Send? || step.Finish? || step.Quit? || step.Reply? {
      LoopAdvances(cfg, s, step);
    }
  }

  function Taken(steps: seq<Step>): nat {
    if steps == [] then 0 else (if Inside(steps[0]) then 1 else 0) + Taken(steps[1..])
  }

  function Brought(steps: seq<Step>): nat {
    if steps == [] then 0 else Brings(steps[0]) + Brought(steps[1..])
  }

  /** Shutdown is bounded: after cancellation the process takes no more steps than the work that is left, three
      for each further tick of the claimer and four for each message that a reply still brings. */
  lemma {:induction false} ShutdownIsBounded(cfg: Config, s: State, steps: seq<Step>)
    requires Ordered(s) && s.cancelled && Allowed(cfg, s, steps)
    ensures Taken(steps) + Remaining(After(cfg, s, steps)) <= Remaining(s) + Brought(steps)
    decreases |steps|
  {
    if steps != [] {
      ShutdownAdvances(cfg, s, steps[0]);
      OrderedKept(cfg, s, steps[0]);
      ShutdownIsBounded(cfg, Apply(cfg, s, steps[0]), steps[1..]);
    }
  }

  /** And it never blocks: until Run has returned, some step other than a tick is possible. */
  lemma ShutdownNeverBlocks(cfg: Config, s: State) returns (step: Step)
    requires Inv(cfg, s) && s.cancelled && !s.phase.Returned?
    ensures Enabled(cfg, s, step) && Inside(step) && Brings(step) == 0
  {
    if !s.reader.Stopped? {
      step := Onward(cfg, s, Reader);
    } else if !s.claimer.Stopped? {
      step := Onward(cfg, s, Claimer);
    } else if s.phase.Reading? {
      step := ReaderDone;
    } else if s.phase.AwaitClaimer? {
      step := Close;
    } else if AllGone(s) {
      step := Return;
    } else {
      var k: nat :| k < |s.workers| && !s.workers[k].Gone?;
      step := match s.workers[k]
        case Processing(_) => Processed(k, false)
        case Acking(_) => Ack(k, false)
        case _ => if s.buffer == [] then Exit(k) else Take(k);
    }
  }

  lemma Onward(cfg: Config, s: State, side: Side) returns (step: Step)
    requires s.cancelled && !At(s, side).Stopped?
    ensures Enabled(cfg, s, step) && Inside(step) && Brings(step) == 0
  {
    match At(s, side)
    case Top => step := Quit(side);
    case Pausing => step := Quit(side);
    case Calling => step := Fail(side, false, []);
    case Sending(b) =>
      step := if b == [] then Finish(side) else if b[0] in cfg.undecodable then Skip(side) else Quit(side);
  }
}
