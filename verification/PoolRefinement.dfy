/** The goroutines of one process refine the process of the execution protocol: each of their steps is matched by a
    list of protocol steps, and each protocol step of others by what the goroutines observe. */
module PoolRefinement {
  import opened Wrappers
  import P = Protocol
  import I = Invariants
  import O = Outcomes
  import opened Pool

  // ---------- when a process and its goroutines are in the same state ----------

  /** The group, the claim cursor and the jobs that were received and not started. */
  datatype View = View(group: Group, scan: nat, inbox: multiset<nat>)

  function GroupOf(p: P.State): Group {
    Group(p.now, |p.stream|, p.cursor, map i <- p.pending :: p.pending[i].at, p.acked)
  }

  function Seen(p: P.State, c: string): View
    requires c in p.processes
  {
    View(GroupOf(p), p.processes[c].scan, p.processes[c].inbox)
  }

  function Shown(s: State): View {
    View(s.group, s.scan, Waiting(Batch(s.reader), Batch(s.claimer), s.buffer))
  }

  /** The jobs in the two batches and the buffer. */
  function Waiting(x: seq<nat>, y: seq<nat>, z: seq<nat>): multiset<nat> { multiset(x) + multiset(y) + multiset(z) }

  /** A goroutine inside Process may be anywhere in it; one about to acknowledge has been through it. */
  predicate SlotFits(l: P.Local, w: Worker) {
    match w
    case Free => l.Idle?
    case Gone => l.Idle?
    case Processing(e) => l.Idle? || l.entry == e
    case Acking(e) => l == P.Done(e)
  }

  ghost predicate SlotsFit(slots: seq<P.Local>, workers: seq<Worker>) {
    |slots| == |workers| && forall k | 0 <= k < |slots| :: SlotFits(slots[k], workers[k])
  }

  ghost predicate Fits(p: P.State, c: string, s: State) {
    c in p.processes && Seen(p, c) == Shown(s) && SlotsFit(p.processes[c].slots, s.workers)
  }

  /** A new process fits its goroutines. */
  lemma StartFits(cfg: P.Config, w: Config, p: P.State, c: string)
    requires c !in p.processes
    ensures P.Enabled(cfg, p, P.Start(c, w.workers))
    ensures Fits(P.Apply(cfg, p, P.Start(c, w.workers)), c, Start(w, GroupOf(p)))
  {}

  // ---------- paths of process c ----------

  ghost predicate Leads(cfg: P.Config, p: P.State, steps: seq<P.Step>, p': P.State) {
    P.Allowed(cfg, p, steps) && P.After(cfg, p, steps) == p'
  }

  lemma OneStep(cfg: P.Config, p: P.State, step: P.Step)
    requires P.Enabled(cfg, p, step)
    ensures Leads(cfg, p, [step], P.Apply(cfg, p, step))
  {
    assert [step][1..] == [];
    assert P.Allowed(cfg, P.Apply(cfg, p, step), []);
  }

  lemma ThenMore(cfg: P.Config, p: P.State, first: seq<P.Step>, p1: P.State, more: seq<P.Step>, p2: P.State)
    requires Leads(cfg, p, first, p1) && Leads(cfg, p1, more, p2)
    ensures Leads(cfg, p, first + more, p2)
  {
    O.AfterConcat(cfg, p, first, more);
  }

  // ---------- receiving ----------

  predicate CanReceive(w: Config, v: View, side: Side, batch: seq<nat>) {
    if side.Reader? then NextEntries(v.group, batch) else IdleEntries(w, v.group, v.scan, batch)
  }

  function Received(v: View, side: Side, batch: seq<nat>): View {
    View(Deliver(v.group, side, batch), if side.Claimer? then ScannedTo(v.scan, batch) else v.scan,
         v.inbox + multiset(batch))
  }

  /** One Deliver or Claim for each entry. */
  function Receipts(c: string, side: Side, batch: seq<nat>): seq<P.Step> {
    if batch == [] then []
    else [if side.Reader? then P.Deliver(c) else P.Claim(c, batch[0])] + Receipts(c, side, batch[1..])
  }

  lemma SameIdle(cfg: P.Config, w: Config, p: P.State)
    requires w.idle == cfg.idle
    ensures forall e: nat :: IdleEntry(w, GroupOf(p), e) <==> P.IdleEntry(cfg, p, e)
  {}

  lemma StampedOne(pending: map<nat, int>, e: nat, now: int)
    ensures Stamped(pending, [e], now) == pending[e := now]
  {
    assert [e][1..] == [];
  }

  lemma DeliverOne(cfg: P.Config, p: P.State, c: string, e: nat)
    requires c in p.processes && e == p.cursor < |p.stream|
    ensures P.Enabled(cfg, p, P.Deliver(c))
    ensures var p' := P.Apply(cfg, p, P.Deliver(c));
      c in p'.processes && Seen(p', c) == Received(Seen(p, c), Reader, [e])
      && p'.processes[c].slots == p.processes[c].slots
  {
    var g := GroupOf(p);
    StampedOne(g.pending, e, g.now);
    assert GroupOf(P.Apply(cfg, p, P.Deliver(c))).pending == g.pending[e := g.now];
  }

  lemma ClaimOne(cfg: P.Config, w: Config, p: P.State, c: string, e: nat)
    requires c in p.processes && w.idle == cfg.idle && p.processes[c].scan <= e
    requires IdleEntry(w, GroupOf(p), e) && NoneIdle(w, GroupOf(p), p.processes[c].scan, e)
    ensures P.Enabled(cfg, p, P.Claim(c, e))
    ensures var p' := P.Apply(cfg, p, P.Claim(c, e));
      c in p'.processes && Seen(p', c) == Received(Seen(p, c), Claimer, [e])
      && p'.processes[c].slots == p.processes[c].slots
  {
    var g := GroupOf(p);
    SameIdle(cfg, w, p);
    StampedOne(g.pending, e, g.now);
    assert GroupOf(P.Apply(cfg, p, P.Claim(c, e))).pending == g.pending[e := g.now];
  }

  /** Claiming an entry leaves the later ones idle. */
  lemma {:induction false} LaterStayIdle(w: Config, g: Group, e: nat, from: nat, batch: seq<nat>)
    requires e < from && IdleEntries(w, g, from, batch)
    ensures IdleEntries(w, g.(pending := g.pending[e := g.now]), from, batch)
    decreases |batch|
  {
    if batch != [] { LaterStayIdle(w, g, e, batch[0] + 1, batch[1..]); }
  }

  lemma ReceivedAll(v: View, side: Side, batch: seq<nat>)
    requires batch != []
    ensures Received(Received(v, side, batch[..1]), side, batch[1..]) == Received(v, side, batch)
  {
    assert batch == batch[..1] + batch[1..] && batch[..1] == [batch[0]];
    StampedOne(v.group.pending, batch[0], v.group.now);
  }

  lemma CanReceiveRest(w: Config, v: View, side: Side, batch: seq<nat>)
    requires batch != [] && CanReceive(w, v, side, batch)
    ensures CanReceive(w, Received(v, side, batch[..1]), side, batch[1..])
  {
    assert batch[..1] == [batch[0]];
    StampedOne(v.group.pending, batch[0], v.group.now);
    if side.Claimer? { LaterStayIdle(w, v.group, batch[0], batch[0] + 1, batch[1..]); }
  }

  lemma ReceiveOne(cfg: P.Config, w: Config, p: P.State, c: string, side: Side, batch: seq<nat>)
    requires c in p.processes && w.idle == cfg.idle && batch != [] && CanReceive(w, Seen(p, c), side, batch)
    ensures var step := if side.Reader? then P.Deliver(c) else P.Claim(c, batch[0]);
      && P.Enabled(cfg, p, step)
      && var p' := P.Apply(cfg, p, step);
         && c in p'.processes && Seen(p', c) == Received(Seen(p, c), side, batch[..1])
         && p'.processes[c].slots == p.processes[c].slots
  {
    assert batch[..1] == [batch[0]];
    if side.Reader? { DeliverOne(cfg, p, c, batch[0]); } else { ClaimOne(cfg, w, p, c, batch[0]); }
  }

  /** A whole reply is a list of Deliver or Claim steps. */
  lemma {:induction false} ReceiveAll(cfg: P.Config, w: Config, p: P.State, c: string, side: Side, batch: seq<nat>)
    returns (p': P.State)
    requires c in p.processes && w.idle == cfg.idle && CanReceive(w, Seen(p, c), side, batch)
    ensures Leads(cfg, p, Receipts(c, side, batch), p') && c in p'.processes
    ensures Seen(p', c) == Received(Seen(p, c), side, batch) && p'.processes[c].slots == p.processes[c].slots
    decreases |batch|
  {
    if batch == [] {
      p' := p;
      assert Leads(cfg, p, [], p);
    } else {
      var step := if side.Reader? then P.Deliver(c) else P.Claim(c, batch[0]);
      ReceiveOne(cfg, w, p, c, side, batch);
      CanReceiveRest(w, Seen(p, c), side, batch);
      ReceivedAll(Seen(p, c), side, batch);
      OneStep(cfg, p, step);
      p' := ReceiveAll(cfg, w, P.Apply(cfg, p, step), c, side, batch[1..]);
      ThenMore(cfg, p, [step], P.Apply(cfg, p, step), Receipts(c, side, batch[1..]), p');
    }
  }

  // ---------- forgetting, and moving the cursor ----------

  function Forgets(c: string, batch: seq<nat>): seq<P.Step> {
    if batch == [] then [] else [P.Forget(c, batch[0])] + Forgets(c, batch[1..])
  }

  lemma {:induction false} ForgetAll(cfg: P.Config, p: P.State, c: string, batch: seq<nat>) returns (p': P.State)
    requires c in p.processes && multiset(batch) <= p.processes[c].inbox
    ensures Leads(cfg, p, Forgets(c, batch), p') && c in p'.processes
    ensures Seen(p', c) == Seen(p, c).(inbox := p.processes[c].inbox - multiset(batch))
    ensures p'.processes[c].slots == p.processes[c].slots
    decreases |batch|
  {
    if batch == [] {
      p' := p;
      assert Leads(cfg, p, [], p);
    } else {
      var step := P.Forget(c, batch[0]);
      assert batch == [batch[0]] + batch[1..];
      OneStep(cfg, p, step);
      var p1 := P.Apply(cfg, p, step);
      assert GroupOf(p1) == GroupOf(p);
      p' := ForgetAll(cfg, p1, c, batch[1..]);
      ThenMore(cfg, p, [step], p1, Forgets(c, batch[1..]), p');
    }
  }

  lemma SeekTo(cfg: P.Config, w: Config, p: P.State, c: string, to: nat)
    requires c in p.processes && w.idle == cfg.idle && NoneIdle(w, GroupOf(p), p.processes[c].scan, to)
    ensures P.Enabled(cfg, p, P.Seek(c, to))
    ensures var p' := P.Apply(cfg, p, P.Seek(c, to));
      && c in p'.processes && Seen(p', c) == Seen(p, c).(scan := to)
      && p'.processes[c].slots == p.processes[c].slots
  {
    SameIdle(cfg, w, p);
    assert GroupOf(P.Apply(cfg, p, P.Seek(c, to))) == GroupOf(p);
  }

  // ---------- the goroutines' own steps ----------

  /** The protocol steps that match one step of the goroutines. */
  function Matched(w: Config, p: P.State, c: string, s: State, step: Step): seq<P.Step>
    requires Enabled(w, s, step)
  {
    match step
    case Reply(side, batch, next) =>
      Receipts(c, side, batch) + if side.Claimer? then [P.Seek(c, next)] else []
    case Fail(side, _, lost) =>
      Receipts(c, side, lost) + Forgets(c, lost) + if side.Claimer? then [P.Seek(c, s.scan)] else []
    case Skip(side) => [P.Forget(c, Batch(At(s, side))[0])]
    case Quit(side) => Forgets(c, Batch(At(s, side)))
    case HandOff(side, k) => [P.Take(c, k, Batch(At(s, side))[0])]
    case Take(k) => [P.Take(c, k, s.buffer[0])]
    case Processed(k, ok) => if ok || P.At(p, c, k).Idle? then [] else [P.Abandon(c, k)]
    case Ack(k, done) => [if done then P.Ack(c, k) else P.Abandon(c, k)]
    case _ => []
  }

  ghost predicate IsMatched(cfg: P.Config, w: Config, p: P.State, c: string, s: State, step: Step)
    requires Enabled(w, s, step)
  {
    var steps := Matched(w, p, c, s, step);
    P.Allowed(cfg, p, steps) && Fits(P.After(cfg, p, steps), c, Apply(w, s, step))
  }

  lemma MatchedBy(cfg: P.Config, w: Config, p: P.State, c: string, s: State, step: Step, p': P.State)
    requires Enabled(w, s, step) && Leads(cfg, p, Matched(w, p, c, s, step), p') && Fits(p', c, Apply(w, s, step))
    ensures IsMatched(cfg, w, p, c, s, step)
  {}

  lemma ReaderReplyIsMatched(cfg: P.Config, w: Config, p: P.State, c: string, s: State, step: Step)
    requires Fits(p, c, s) && Enabled(w, s, step) && step.Reply? && step.side.Reader? && w.idle == cfg.idle
    ensures IsMatched(cfg, w, p, c, s, step)
  {
    var p' := ReceiveAll(cfg, w, p, c, Reader, step.batch);
    assert Receipts(c, Reader, step.batch) + [] == Receipts(c, Reader, step.batch);
    ReplyFits(w, p, p', c, s, step);
    MatchedBy(cfg, w, p, c, s, step, p');
  }

  lemma ClaimerReplyIsMatched(cfg: P.Config, w: Config, p: P.State, c: string, s: State, step: Step)
    requires Fits(p, c, s) && Enabled(w, s, step) && step.Reply? && step.side.Claimer? && w.idle == cfg.idle
    ensures IsMatched(cfg, w, p, c, s, step)
  {
    var p1 := ReceiveAll(cfg, w, p, c, Claimer, step.batch);
    BelowScan(w, s.group, s.scan, step.batch);
    StampsStayQuiet(w, s.group, step.batch, ScannedTo(s.scan, step.batch), step.next);
    var p' := Sought(cfg, w, p, Receipts(c, Claimer, step.batch), p1, c, step.next);
    ReplyFits(w, p, p', c, s, step);
    MatchedBy(cfg, w, p, c, s, step, p');
  }

  /** One more Seek at the end of a path. */
  lemma Sought(cfg: P.Config, w: Config, p: P.State, steps: seq<P.Step>, p1: P.State, c: string, to: nat)
    returns (p': P.State)
    requires Leads(cfg, p, steps, p1) && c in p1.processes && w.idle == cfg.idle
    requires NoneIdle(w, GroupOf(p1), p1.processes[c].scan, to)
    ensures Leads(cfg, p, steps + [P.Seek(c, to)], p') && c in p'.processes
    ensures Seen(p', c) == Seen(p1, c).(scan := to) && p'.processes[c].slots == p1.processes[c].slots
  {
    SeekTo(cfg, w, p1, c, to);
    p' := P.Apply(cfg, p1, P.Seek(c, to));
    OneStep(cfg, p1, P.Seek(c, to));
    ThenMore(cfg, p, steps, p1, [P.Seek(c, to)], p');
  }

  lemma ReplyFits(w: Config, p: P.State, p': P.State, c: string, s: State, step: Step)
    requires Fits(p, c, s) && Enabled(w, s, step) && step.Reply? && c in p'.processes
    requires p'.processes[c].slots == p.processes[c].slots
    requires Seen(p', c) == Received(Seen(p, c), step.side, step.batch)
                            .(scan := if step.side.Claimer? then step.next else s.scan)
    ensures Fits(p', c, Apply(w, s, step))
  {
    assert Batch(At(s, step.side)) == [];
    assert Shown(Apply(w, s, step)).inbox == Shown(s).inbox + multiset(step.batch);
  }

  lemma {:induction false} BelowScan(w: Config, g: Group, from: nat, batch: seq<nat>)
    requires IdleEntries(w, g, from, batch)
    ensures from <= ScannedTo(from, batch) && forall i | 0 <= i < |batch| :: batch[i] < ScannedTo(from, batch)
    decreases |batch|
  {
    if batch != [] {
      BelowScan(w, g, batch[0] + 1, batch[1..]);
      assert ScannedTo(batch[0] + 1, batch[1..]) == ScannedTo(from, batch);
      assert forall i | 0 < i < |batch| :: batch[i] == batch[1..][i - 1];
    }
  }

  /** An entry that was not idle is not idle after others were delivered either. */
  lemma {:induction false} StampsStayQuiet(w: Config, g: Group, batch: seq<nat>, from: nat, to: nat)
    requires NoneIdle(w, g, from, to) && forall i | 0 <= i < |batch| :: batch[i] < from
    ensures NoneIdle(w, g.(pending := Stamped(g.pending, batch, g.now)), from, to)
    decreases |batch|
  {
    if batch != [] {
      var g1 := g.(pending := g.pending[batch[0] := g.now]);
      forall e <- g1.pending | from <= e < to ensures !IdleEntry(w, g1, e) { assert !IdleEntry(w, g, e); }
      StampsStayQuiet(w, g1, batch[1..], from, to);
    }
  }

  lemma TakenBack(a: multiset<nat>, m: multiset<nat>)
    ensures a + m - m == a
  {}

  lemma FailFits(w: Config, p: P.State, p': P.State, c: string, s: State, step: Step)
    requires Fits(p, c, s) && Enabled(w, s, step) && step.Fail? && c in p'.processes
    requires p'.processes[c].slots == p.processes[c].slots
    requires Seen(p', c) == View(Deliver(s.group, step.side, step.lost), s.scan, p.processes[c].inbox)
    ensures Fits(p', c, Apply(w, s, step))
  {
    assert Batch(At(s, step.side)) == [];
  }

  lemma ReceiveAndForget(cfg: P.Config, w: Config, p: P.State, c: string, side: Side, lost: seq<nat>)
    returns (p': P.State)
    requires c in p.processes && w.idle == cfg.idle && CanReceive(w, Seen(p, c), side, lost)
    ensures Leads(cfg, p, Receipts(c, side, lost) + Forgets(c, lost), p') && c in p'.processes
    ensures Seen(p', c) == Received(Seen(p, c), side, lost).(inbox := p.processes[c].inbox)
    ensures p'.processes[c].slots == p.processes[c].slots
  {
    var p1 := ReceiveAll(cfg, w, p, c, side, lost);
    TakenBack(p.processes[c].inbox, multiset(lost));
    p' := ForgetAll(cfg, p1, c, lost);
    ThenMore(cfg, p, Receipts(c, side, lost), p1, Forgets(c, lost), p');
  }

  lemma FailIsMatched(cfg: P.Config, w: Config, p: P.State, c: string, s: State, step: Step)
    requires Fits(p, c, s) && Enabled(w, s, step) && step.Fail? && w.idle == cfg.idle
    ensures IsMatched(cfg, w, p, c, s, step)
  {
    var lost := step.lost;
    var p' := ReceiveAndForget(cfg, w, p, c, step.side, lost);
    var steps := Receipts(c, step.side, lost) + Forgets(c, lost);
    if step.side.Claimer? {
      BelowScan(w, s.group, s.scan, lost);
      p' := Sought(cfg, w, p, steps, p', c, s.scan);
    } else {
      assert steps + [] == steps;
    }
    FailFits(w, p, p', c, s, step);
    MatchedBy(cfg, w, p, c, s, step, p');
  }

  lemma Headed(b: seq<nat>)
    requires b != []
    ensures multiset(b) == multiset{b[0]} + multiset(b[1..])
  {
    assert b == [b[0]] + b[1..];
  }

  lemma HeadOut(b: seq<nat>, y: seq<nat>, z: seq<nat>)
    requires b != []
    ensures Waiting(b, y, z) == Waiting(b[1..], y, z) + multiset{b[0]}
    ensures Waiting(y, b, z) == Waiting(y, b[1..], z) + multiset{b[0]}
    ensures Waiting(y, z, b) == Waiting(y, z, b[1..]) + multiset{b[0]}
  {
    Headed(b);
  }

  lemma AllOut(b: seq<nat>, y: seq<nat>, z: seq<nat>)
    ensures Waiting(b, y, z) == Waiting([], y, z) + multiset(b)
    ensures Waiting(y, b, z) == Waiting(y, [], z) + multiset(b)
  {}

  lemma HeadToTail(b: seq<nat>, y: seq<nat>, z: seq<nat>)
    requires b != []
    ensures Waiting(b[1..], y, z + [b[0]]) == Waiting(b, y, z)
    ensures Waiting(y, b[1..], z + [b[0]]) == Waiting(y, b, z)
  {
    Headed(b);
    assert multiset(z + [b[0]]) == multiset(z) + multiset{b[0]};
  }

  lemma Less(a: multiset<nat>, rest: multiset<nat>, m: multiset<nat>)
    requires a == rest + m
    ensures m <= a && rest == a - m
  {}

  lemma ForgetOne(cfg: P.Config, p: P.State, c: string, e: nat)
    requires c in p.processes && e in p.processes[c].inbox
    ensures P.Enabled(cfg, p, P.Forget(c, e))
    ensures var p' := P.Apply(cfg, p, P.Forget(c, e));
      && c in p'.processes && Seen(p', c) == Seen(p, c).(inbox := p.processes[c].inbox - multiset{e})
      && p'.processes[c].slots == p.processes[c].slots
  {
    assert GroupOf(P.Apply(cfg, p, P.Forget(c, e))) == GroupOf(p);
  }

  /** The head of a batch leaves the jobs that are waiting. */
  lemma SkipShows(w: Config, s: State, step: Step)
    requires Enabled(w, s, step) && step.Skip?
    ensures var e := Batch(At(s, step.side))[0];
      e in Shown(s).inbox && Shown(Apply(w, s, step)) == Shown(s).(inbox := Shown(s).inbox - multiset{e})
  {
    var b := Batch(At(s, step.side));
    HeadOut(b, if step.side.Reader? then Batch(s.claimer) else Batch(s.reader), s.buffer);
    Less(Shown(s).inbox, Shown(Apply(w, s, step)).inbox, multiset{b[0]});
    assert multiset{b[0]}[b[0]] <= Shown(s).inbox[b[0]];
  }

  lemma SkipIsMatched(cfg: P.Config, w: Config, p: P.State, c: string, s: State, step: Step)
    requires Fits(p, c, s) && Enabled(w, s, step) && step.Skip?
    ensures IsMatched(cfg, w, p, c, s, step)
  {
    var e := Batch(At(s, step.side))[0];
    SkipShows(w, s, step);
    ForgetOne(cfg, p, c, e);
    OneStep(cfg, p, P.Forget(c, e));
    MatchedBy(cfg, w, p, c, s, step, P.Apply(cfg, p, P.Forget(c, e)));
  }

  lemma QuitShows(w: Config, s: State, step: Step)
    requires Enabled(w, s, step) && step.Quit?
    ensures var m := multiset(Batch(At(s, step.side)));
      m <= Shown(s).inbox && Shown(Apply(w, s, step)) == Shown(s).(inbox := Shown(s).inbox - m)
  {
    var b, y := Batch(At(s, step.side)), if step.side.Reader? then Batch(s.claimer) else Batch(s.reader);
    AllOut(b, y, s.buffer);
    assert Shown(Apply(w, s, step)).inbox
        == if step.side.Reader? then Waiting([], y, s.buffer) else Waiting(y, [], s.buffer);
    Less(Shown(s).inbox, Shown(Apply(w, s, step)).inbox, multiset(b));
  }

  lemma QuitIsMatched(cfg: P.Config, w: Config, p: P.State, c: string, s: State, step: Step)
    requires Fits(p, c, s) && Enabled(w, s, step) && step.Quit?
    ensures IsMatched(cfg, w, p, c, s, step)
  {
    QuitShows(w, s, step);
    var p' := ForgetAll(cfg, p, c, Batch(At(s, step.side)));
    MatchedBy(cfg, w, p, c, s, step, p');
  }

  lemma TakeOne(cfg: P.Config, p: P.State, c: string, k: nat, e: nat)
    requires P.HasSlot(p, c, k) && P.At(p, c, k).Idle? && e in p.processes[c].inbox
    ensures P.Enabled(cfg, p, P.Take(c, k, e))
    ensures var p' := P.Apply(cfg, p, P.Take(c, k, e));
      && c in p'.processes && Seen(p', c) == Seen(p, c).(inbox := p.processes[c].inbox - multiset{e})
      && p'.processes[c].slots == p.processes[c].slots[k := P.Holding(e)]
  {
    assert GroupOf(P.Apply(cfg, p, P.Take(c, k, e))) == GroupOf(p);
  }

  lemma SlotsFitPut(slots: seq<P.Local>, workers: seq<Worker>, k: nat, l: P.Local, worker: Worker)
    requires SlotsFit(slots, workers) && k < |slots| && SlotFits(l, worker)
    ensures SlotsFit(slots[k := l], workers[k := worker])
  {}

  lemma TakeShows(w: Config, s: State, step: Step)
    requires Enabled(w, s, step) && step.Take?
    ensures var e := s.buffer[0];
      && e in Shown(s).inbox && Shown(Apply(w, s, step)) == Shown(s).(inbox := Shown(s).inbox - multiset{e})
      && Apply(w, s, step).workers == s.workers[step.k := Worker.Processing(e)]
  {
    var e := s.buffer[0];
    HeadOut(s.buffer, Batch(s.reader), Batch(s.claimer));
    Less(Shown(s).inbox, Shown(Apply(w, s, step)).inbox, multiset{e});
    assert multiset{e}[e] <= Shown(s).inbox[e];
  }

  lemma HandOffShows(w: Config, s: State, step: Step)
    requires Enabled(w, s, step) && step.HandOff?
    ensures var e := Batch(At(s, step.side))[0];
      && e in Shown(s).inbox && Shown(Apply(w, s, step)) == Shown(s).(inbox := Shown(s).inbox - multiset{e})
      && Apply(w, s, step).workers == s.workers[step.k := Worker.Processing(e)]
  {
    var b := Batch(At(s, step.side));
    HeadOut(b, if step.side.Reader? then Batch(s.claimer) else Batch(s.reader), s.buffer);
    Less(Shown(s).inbox, Shown(Apply(w, s, step)).inbox, multiset{b[0]});
    assert multiset{b[0]}[b[0]] <= Shown(s).inbox[b[0]];
  }

  /** A waiting job goes to an idle worker. */
  lemma TakeFits(cfg: P.Config, p: P.State, c: string, s: State, s': State, k: nat, e: nat)
    requires Fits(p, c, s) && Is(s, k, Free) && e in Shown(s).inbox
    requires Shown(s') == Shown(s).(inbox := Shown(s).inbox - multiset{e})
    requires s'.workers == s.workers[k := Worker.Processing(e)]
    ensures P.Enabled(cfg, p, P.Take(c, k, e)) && Fits(P.Apply(cfg, p, P.Take(c, k, e)), c, s')
  {
    assert SlotFits(p.processes[c].slots[k], s.workers[k]);
    TakeOne(cfg, p, c, k, e);
    SlotsFitPut(p.processes[c].slots, s.workers, k, P.Holding(e), Worker.Processing(e));
  }

  lemma TakeIsMatched(cfg: P.Config, w: Config, p: P.State, c: string, s: State, step: Step)
    requires Fits(p, c, s) && Enabled(w, s, step) && step.Take?
    ensures IsMatched(cfg, w, p, c, s, step)
  {
    var e := s.buffer[0];
    TakeShows(w, s, step);
    TakeFits(cfg, p, c, s, Apply(w, s, step), step.k, e);
    OneStep(cfg, p, P.Take(c, step.k, e));
    MatchedBy(cfg, w, p, c, s, step, P.Apply(cfg, p, P.Take(c, step.k, e)));
  }

  lemma HandOffIsMatched(cfg: P.Config, w: Config, p: P.State, c: string, s: State, step: Step)
    requires Fits(p, c, s) && Enabled(w, s, step) && step.HandOff?
    ensures IsMatched(cfg, w, p, c, s, step)
  {
    var e := Batch(At(s, step.side))[0];
    HandOffShows(w, s, step);
    TakeFits(cfg, p, c, s, Apply(w, s, step), step.k, e);
    OneStep(cfg, p, P.Take(c, step.k, e));
    MatchedBy(cfg, w, p, c, s, step, P.Apply(cfg, p, P.Take(c, step.k, e)));
  }

  lemma AbandonOne(cfg: P.Config, p: P.State, c: string, k: nat)
    requires P.HasSlot(p, c, k) && !P.At(p, c, k).Idle?
    ensures P.Enabled(cfg, p, P.Abandon(c, k))
    ensures var p' := P.Apply(cfg, p, P.Abandon(c, k));
      c in p'.processes && Seen(p', c) == Seen(p, c) && p'.processes[c].slots == p.processes[c].slots[k := P.Idle]
  {
    assert GroupOf(P.Apply(cfg, p, P.Abandon(c, k))) == GroupOf(p);
  }

  lemma AckOne(cfg: P.Config, p: P.State, c: string, k: nat)
    requires P.HasSlot(p, c, k) && P.At(p, c, k).Done?
    ensures P.Enabled(cfg, p, P.Ack(c, k))
    ensures var p' := P.Apply(cfg, p, P.Ack(c, k));
      && c in p'.processes && p'.processes[c].slots == p.processes[c].slots[k := P.Idle]
      && Seen(p', c) == Seen(p, c).(group := Happened(GroupOf(p), Acked(P.At(p, c, k).entry)))
  {
    var p', e := P.Apply(cfg, p, P.Ack(c, k)), P.At(p, c, k).entry;
    assert GroupOf(p').pending == GroupOf(p).pending - {e};
  }

  lemma AckIsMatched(cfg: P.Config, w: Config, p: P.State, c: string, s: State, step: Step)
    requires Fits(p, c, s) && Enabled(w, s, step) && step.Ack?
    ensures IsMatched(cfg, w, p, c, s, step)
  {
    assert SlotFits(p.processes[c].slots[step.k], s.workers[step.k]);
    var last := if step.done then P.Ack(c, step.k) else P.Abandon(c, step.k);
    if step.done { AckOne(cfg, p, c, step.k); } else { AbandonOne(cfg, p, c, step.k); }
    OneStep(cfg, p, last);
    SlotsFitPut(p.processes[c].slots, s.workers, step.k, P.Idle, Free);
    MatchedBy(cfg, w, p, c, s, step, P.Apply(cfg, p, last));
  }

  lemma ProcessedIsMatched(cfg: P.Config, w: Config, p: P.State, c: string, s: State, step: Step)
    requires Fits(p, c, s) && Enabled(w, s, step) && step.Processed?
    requires step.ok ==> P.At(p, c, step.k).Done?
    ensures IsMatched(cfg, w, p, c, s, step)
  {
    var slots, e := p.processes[c].slots, s.workers[step.k].entry;
    assert SlotFits(slots[step.k], s.workers[step.k]);
    if step.ok || slots[step.k].Idle? {
      assert slots[step.k := slots[step.k]] == slots;
      SlotsFitPut(slots, s.workers, step.k, slots[step.k], if step.ok then Acking(e) else Free);
      assert Leads(cfg, p, [], p);
      MatchedBy(cfg, w, p, c, s, step, p);
    } else {
      AbandonOne(cfg, p, c, step.k);
      OneStep(cfg, p, P.Abandon(c, step.k));
      SlotsFitPut(slots, s.workers, step.k, P.Idle, Free);
      MatchedBy(cfg, w, p, c, s, step, P.Apply(cfg, p, P.Abandon(c, step.k)));
    }
  }

  /** Steps that move nothing the protocol knows of. */
  predicate Silent(step: Step) {
    step.Cancel? || step.Call? || step.Resume? || step.Finish? || step.ReaderDone? || step.Close? || step.Return?
  }

  lemma SilentShows(w: Config, s: State, step: Step)
    requires Enabled(w, s, step) && Silent(step)
    ensures Shown(Apply(w, s, step)) == Shown(s) && Apply(w, s, step).workers == s.workers
  {}

  lemma StandingStill(cfg: P.Config, w: Config, p: P.State, c: string, s: State, step: Step)
    requires Fits(p, c, s) && Enabled(w, s, step) && Matched(w, p, c, s, step) == []
    requires Shown(Apply(w, s, step)) == Shown(s) && Apply(w, s, step).workers == s.workers
    ensures IsMatched(cfg, w, p, c, s, step)
  {
    assert Leads(cfg, p, [], p);
    MatchedBy(cfg, w, p, c, s, step, p);
  }

  lemma SilentIsMatched(cfg: P.Config, w: Config, p: P.State, c: string, s: State, step: Step)
    requires Fits(p, c, s) && Enabled(w, s, step) && Silent(step)
    ensures IsMatched(cfg, w, p, c, s, step)
  {
    SilentShows(w, s, step);
    StandingStill(cfg, w, p, c, s, step);
  }

  lemma ExitIsMatched(cfg: P.Config, w: Config, p: P.State, c: string, s: State, step: Step)
    requires Fits(p, c, s) && Enabled(w, s, step) && step.Exit?
    ensures IsMatched(cfg, w, p, c, s, step)
  {
    var slots := p.processes[c].slots;
    assert SlotFits(slots[step.k], s.workers[step.k]);
    assert slots[step.k := slots[step.k]] == slots;
    SlotsFitPut(slots, s.workers, step.k, slots[step.k], Gone);
    assert Leads(cfg, p, [], p);
    MatchedBy(cfg, w, p, c, s, step, p);
  }

  lemma SendShows(w: Config, s: State, step: Step)
    requires Enabled(w, s, step) && step.Send? && !s.closed
    ensures Shown(Apply(w, s, step)) == Shown(s) && Apply(w, s, step).workers == s.workers
  {
    HeadToTail(Batch(At(s, step.side)), if step.side.Reader? then Batch(s.claimer) else Batch(s.reader), s.buffer);
  }

  lemma SendIsMatched(cfg: P.Config, w: Config, p: P.State, c: string, s: State, step: Step)
    requires Fits(p, c, s) && Enabled(w, s, step) && step.Send? && !s.closed
    ensures IsMatched(cfg, w, p, c, s, step)
  {
    SendShows(w, s, step);
    StandingStill(cfg, w, p, c, s, step);
  }

  /** Every step of the goroutines is matched: the listed protocol steps are allowed, one after the other, and lead
      to a state that fits again. That Process returned without error means that its worker has been through it. */
  lemma PoolRefinesProtocol(cfg: P.Config, w: Config, p: P.State, c: string, s: State, step: Step)
    requires Fits(p, c, s) && Ordered(s) && Enabled(w, s, step) && !step.Elsewhere? && w.idle == cfg.idle
    requires step.Processed? && step.ok ==> P.At(p, c, step.k).Done?
    ensures P.Allowed(cfg, p, Matched(w, p, c, s, step))
    ensures Fits(P.After(cfg, p, Matched(w, p, c, s, step)), c, Apply(w, s, step))
  {
    match step
    case Reply(side, _, _) =>
      if side.Reader? {
        ReaderReplyIsMatched(cfg, w, p, c, s, step);
      } else {
        ClaimerReplyIsMatched(cfg, w, p, c, s, step);
      }
    case Fail(_, _, _) => FailIsMatched(cfg, w, p, c, s, step);
    case Skip(_) => SkipIsMatched(cfg, w, p, c, s, step);
    case Quit(_) => QuitIsMatched(cfg, w, p, c, s, step);
    case Send(_) =>
      NothingAtClosed(w, s, step);
      SendIsMatched(cfg, w, p, c, s, step);
    case HandOff(_, _) => HandOffIsMatched(cfg, w, p, c, s, step);
    case Take(_) => TakeIsMatched(cfg, w, p, c, s, step);
    case Processed(_, _) => ProcessedIsMatched(cfg, w, p, c, s, step);
    case Ack(_, _) => AckIsMatched(cfg, w, p, c, s, step);
    case Exit(_) => ExitIsMatched(cfg, w, p, c, s, step);
    case _ => SilentIsMatched(cfg, w, p, c, s, step);
  }

  // ---------- what goes on inside Process, and elsewhere ----------

  /** A step of worker (c, k) between taking a job and acknowledging it. */
  predicate InsideProcess(step: P.Step, c: string, k: nat) {
    I.Acts(step, c, k) && !step.Take? && !step.Ack?
  }

  lemma InnerRest(cfg: P.Config, p: P.State, c: string, k: nat, step: P.Step)
    requires P.Enabled(cfg, p, step) && InsideProcess(step, c, k)
    ensures var p' := P.Apply(cfg, p, step);
      p'.pending == p.pending && p'.acked == p.acked && p'.cursor == p.cursor && p'.now == p.now
      && p'.stream == p.stream
  {}

  lemma InnerGroupStays(cfg: P.Config, p: P.State, c: string, k: nat, step: P.Step)
    requires c in p.processes && P.Enabled(cfg, p, step) && InsideProcess(step, c, k)
    ensures c in P.Apply(cfg, p, step).processes && Seen(P.Apply(cfg, p, step), c) == Seen(p, c)
    ensures |P.Apply(cfg, p, step).processes[c].slots| == |p.processes[c].slots|
  {
    InnerRest(cfg, p, c, k, step);
    assert GroupOf(P.Apply(cfg, p, step)) == GroupOf(p);
  }

  /** The goroutines do not notice how far Process has come. */
  lemma ProcessFits(cfg: P.Config, p: P.State, c: string, k: nat, s: State, step: P.Step)
    requires Fits(p, c, s) && P.Enabled(cfg, p, step) && InsideProcess(step, c, k)
    requires step.Abandon? ==> k < |s.workers| && s.workers[k].Processing?
    ensures Fits(P.Apply(cfg, p, step), c, s)
  {
    var p' := P.Apply(cfg, p, step);
    InnerGroupStays(cfg, p, c, k, step);
    forall j | 0 <= j < |s.workers| ensures SlotFits(p'.processes[c].slots[j], s.workers[j]) {
      assert SlotFits(p.processes[c].slots[j], s.workers[j]);
      I.SlotSteps(cfg, p, step, c, j);
      assert P.At(p', c, j) == p'.processes[c].slots[j] && P.At(p, c, j) == p.processes[c].slots[j];
    }
  }

  /** The step is no step of process `c`. */
  predicate Foreign(step: P.Step, c: string) {
    match step
    case Start(d, _) => d != c
    case Crash(d) => d != c
    case Deliver(d) => d != c
    case Claim(d, _) => d != c
    case Seek(d, _) => d != c
    case Forget(d, _) => d != c
    case Take(d, _, _) => d != c
    case GetWork(d, _) => d != c
    case GetTask(d, _) => d != c
    case ReadClock(d, _) => d != c
    case Acquire(d, _, _) => d != c
    case Probe(d, _, _, _, _) => d != c
    case MarkFinal(d, _, _) => d != c
    case Ack(d, _) => d != c
    case Abandon(d, _) => d != c
    case _ => true
  }

  /** What process `c` can see of it. */
  function Observed(p: P.State, step: P.Step): seq<Step> {
    match step
    case Tick(d) => [Elsewhere(Tick(d))]
    case Publish(_) => [Elsewhere(Published)]
    case Deliver(_) => [Elsewhere(Delivered)]
    case Claim(_, e) => [Elsewhere(Claimed(e))]
    case Ack(d, k) => if P.At(p, d, k).Done? then [Elsewhere(Acked(P.At(p, d, k).entry))] else []
    case _ => []
  }

  lemma ForeignLeavesProcess(cfg: P.Config, p: P.State, c: string, step: P.Step)
    requires c in p.processes && P.Enabled(cfg, p, step) && Foreign(step, c)
    ensures c in P.Apply(cfg, p, step).processes && P.Apply(cfg, p, step).processes[c] == p.processes[c]
  {}

  ghost predicate GroupMoves(cfg: P.Config, w: Config, p: P.State, step: P.Step)
    requires P.Enabled(cfg, p, step)
  {
    && |Observed(p, step)| == 1 && Observed(p, step)[0].Elsewhere?
    && var event := Observed(p, step)[0].event;
       CanHappen(w, GroupOf(p), event) && GroupOf(P.Apply(cfg, p, step)) == Happened(GroupOf(p), event)
  }

  lemma DeliverMoves(cfg: P.Config, w: Config, p: P.State, step: P.Step)
    requires P.Enabled(cfg, p, step) && step.Deliver?
    ensures GroupMoves(cfg, w, p, step)
  {
    assert GroupOf(P.Apply(cfg, p, step)).pending == GroupOf(p).pending[p.cursor := p.now];
  }

  lemma ClaimMoves(cfg: P.Config, w: Config, p: P.State, step: P.Step)
    requires P.Enabled(cfg, p, step) && step.Claim? && w.idle == cfg.idle
    ensures GroupMoves(cfg, w, p, step)
  {
    SameIdle(cfg, w, p);
    assert GroupOf(P.Apply(cfg, p, step)).pending == GroupOf(p).pending[step.entry := p.now];
  }

  lemma AckMoves(cfg: P.Config, w: Config, p: P.State, step: P.Step)
    requires P.Enabled(cfg, p, step) && step.Ack? && I.GroupOk(p) && I.HeldDelivered(p)
    ensures GroupMoves(cfg, w, p, step)
  {
    var e := P.At(p, step.c, step.k).entry;
    assert GroupOf(P.Apply(cfg, p, step)).pending == GroupOf(p).pending - {e};
    assert e in p.pending || e in p.acked;
  }

  lemma PlainMoves(cfg: P.Config, w: Config, p: P.State, step: P.Step)
    requires P.Enabled(cfg, p, step) && (step.Tick? || step.Publish?)
    ensures GroupMoves(cfg, w, p, step)
  {
    assert GroupOf(P.Apply(cfg, p, step)).pending == GroupOf(p).pending;
  }

  lemma GroupRests(cfg: P.Config, p: P.State, step: P.Step)
    requires P.Enabled(cfg, p, step)
    requires !(step.Tick? || step.Publish? || step.Deliver? || step.Claim? || step.Ack?)
    ensures GroupOf(P.Apply(cfg, p, step)) == GroupOf(p) && Observed(p, step) == []
  {
    assert GroupOf(P.Apply(cfg, p, step)).pending == GroupOf(p).pending;
  }

  lemma ObserveOne(w: Config, s: State, event: Outside)
    requires CanHappen(w, s.group, event)
    ensures Allowed(w, s, [Elsewhere(event)])
    ensures After(w, s, [Elsewhere(event)]) == s.(group := Happened(s.group, event))
  {
    var seen := [Elsewhere(event)];
    assert seen[1..] == [];
    assert Allowed(w, Apply(w, s, seen[0]), []);
  }

  lemma ObservedFits(cfg: P.Config, w: Config, p: P.State, c: string, s: State, step: P.Step)
    requires Fits(p, c, s) && P.Enabled(cfg, p, step) && GroupMoves(cfg, w, p, step)
    requires c in P.Apply(cfg, p, step).processes && P.Apply(cfg, p, step).processes[c] == p.processes[c]
    ensures Allowed(w, s, Observed(p, step))
    ensures Fits(P.Apply(cfg, p, step), c, After(w, s, Observed(p, step)))
  {
    var seen := Observed(p, step);
    assert seen == [Elsewhere(seen[0].event)];
    ObserveOne(w, s, seen[0].event);
  }

  /** Every step elsewhere in the protocol is one the goroutines allow for: what they observe of it leads to a state
      that fits again. */
  lemma OthersAreObserved(cfg: P.Config, w: Config, p: P.State, c: string, s: State, step: P.Step)
    requires Fits(p, c, s) && I.Inv(p) && P.Enabled(cfg, p, step) && Foreign(step, c) && w.idle == cfg.idle
    ensures Allowed(w, s, Observed(p, step))
    ensures Fits(P.Apply(cfg, p, step), c, After(w, s, Observed(p, step)))
  {
    ForeignLeavesProcess(cfg, p, c, step);
    if step.Tick? || step.Publish? || step.Deliver? || step.Claim? || step.Ack? {
      if step.Deliver? {
        DeliverMoves(cfg, w, p, step);
      } else if step.Claim? {
        ClaimMoves(cfg, w, p, step);
      } else if step.Ack? {
        AckMoves(cfg, w, p, step);
      } else {
        PlainMoves(cfg, w, p, step);
      }
      ObservedFits(cfg, w, p, c, s, step);
    } else {
      GroupRests(cfg, p, step);
    }
  }

  // ---------- whole runs ----------

  /** One move of the whole system: a step of the goroutines, a step inside Process, or a step elsewhere. */
  datatype Move = Own(step: Step) | Inner(k: nat, inner: P.Step) | Other(other: P.Step)

  /** The move can be made where the protocol stands at `p` and the goroutines of process `c` at `s`. */
  ghost predicate CanMove(cfg: P.Config, w: Config, p: P.State, c: string, s: State, m: Move) {
    match m
    case Own(step) =>
      Enabled(w, s, step) && !step.Elsewhere? && (step.Processed? && step.ok ==> P.At(p, c, step.k).Done?)
    case Inner(k, step) =>
      && P.Enabled(cfg, p, step) && InsideProcess(step, c, k)
      && (step.Abandon? ==> k < |s.workers| && s.workers[k].Processing?)
    case Other(step) => P.Enabled(cfg, p, step) && Foreign(step, c)
  }

  function ProtocolSteps(w: Config, p: P.State, c: string, s: State, m: Move): seq<P.Step>
    requires m.Own? ==> Enabled(w, s, m.step)
  {
    match m case Own(step) => Matched(w, p, c, s, step) case Inner(_, step) => [step] case Other(step) => [step]
  }

  function PoolSteps(p: P.State, m: Move): seq<Step> {
    match m case Own(step) => [step] case Inner(_, _) => [] case Other(step) => Observed(p, step)
  }

  /** Where a move leads. Both fallbacks are never taken: that is what MoveFits proves. */
  ghost function NextProtocol(cfg: P.Config, w: Config, p: P.State, c: string, s: State, m: Move): P.State
    requires CanMove(cfg, w, p, c, s, m)
  {
    var steps := ProtocolSteps(w, p, c, s, m);
    if P.Allowed(cfg, p, steps) then P.After(cfg, p, steps) else p
  }

  ghost function NextPool(w: Config, p: P.State, s: State, m: Move): State {
    if Allowed(w, s, PoolSteps(p, m)) then After(w, s, PoolSteps(p, m)) else s
  }

  /** Any interleaving of such moves. */
  ghost predicate CanRun(cfg: P.Config, w: Config, p: P.State, c: string, s: State, moves: seq<Move>)
    decreases |moves|
  {
    moves == [] ||
    (CanMove(cfg, w, p, c, s, moves[0])
     && CanRun(cfg, w, NextProtocol(cfg, w, p, c, s, moves[0]), c, NextPool(w, p, s, moves[0]), moves[1..]))
  }

  ghost function AllProtocolSteps(
    cfg: P.Config, w: Config, p: P.State, c: string, s: State, moves: seq<Move>): seq<P.Step>
    requires CanRun(cfg, w, p, c, s, moves)
    decreases |moves|
  {
    if moves == [] then []
    else
      ProtocolSteps(w, p, c, s, moves[0])
      + AllProtocolSteps(cfg, w, NextProtocol(cfg, w, p, c, s, moves[0]), c, NextPool(w, p, s, moves[0]), moves[1..])
  }

  ghost function AllPoolSteps(cfg: P.Config, w: Config, p: P.State, c: string, s: State, moves: seq<Move>): seq<Step>
    requires CanRun(cfg, w, p, c, s, moves)
    decreases |moves|
  {
    if moves == [] then []
    else
      PoolSteps(p, moves[0])
      + AllPoolSteps(cfg, w, NextProtocol(cfg, w, p, c, s, moves[0]), c, NextPool(w, p, s, moves[0]), moves[1..])
  }

  /** Protocol and goroutines are in step, and both are sound. */
  ghost predicate InStep(w: Config, p: P.State, c: string, s: State) { Fits(p, c, s) && I.Inv(p) && Inv(w, s) }

  lemma OnePoolStep(w: Config, s: State, step: Step)
    requires Enabled(w, s, step)
    ensures Allowed(w, s, [step]) && After(w, s, [step]) == Apply(w, s, step)
  {
    assert [step][1..] == [];
    assert Allowed(w, Apply(w, s, step), []);
  }

  lemma MoveFits(cfg: P.Config, w: Config, p: P.State, c: string, s: State, m: Move)
    requires InStep(w, p, c, s) && w.idle == cfg.idle && CanMove(cfg, w, p, c, s, m)
    ensures P.Allowed(cfg, p, ProtocolSteps(w, p, c, s, m)) && Allowed(w, s, PoolSteps(p, m))
    ensures Fits(NextProtocol(cfg, w, p, c, s, m), c, NextPool(w, p, s, m))
  {
    match m
    case Own(step) =>
      PoolRefinesProtocol(cfg, w, p, c, s, step);
      OnePoolStep(w, s, step);
    case Inner(k, step) =>
      ProcessFits(cfg, p, c, k, s, step);
      OneStep(cfg, p, step);
    case Other(step) =>
      OthersAreObserved(cfg, w, p, c, s, step);
      OneStep(cfg, p, step);
  }

  lemma MoveKeepsStep(cfg: P.Config, w: Config, p: P.State, c: string, s: State, m: Move)
    requires InStep(w, p, c, s) && w.idle == cfg.idle && CanMove(cfg, w, p, c, s, m)
    ensures InStep(w, NextProtocol(cfg, w, p, c, s, m), c, NextPool(w, p, s, m))
  {
    MoveFits(cfg, w, p, c, s, m);
    I.InvAlways(cfg, p, ProtocolSteps(w, p, c, s, m));
    InvAlways(w, s, PoolSteps(p, m));
  }

  lemma {:induction false} PoolConcat(w: Config, s: State, first: seq<Step>, more: seq<Step>)
    requires Allowed(w, s, first) && Allowed(w, After(w, s, first), more)
    ensures Allowed(w, s, first + more) && After(w, s, first + more) == After(w, After(w, s, first), more)
    decreases |first|
  {
    if first == [] {
      assert first + more == more;
    } else {
      PoolConcat(w, Apply(w, s, first[0]), first[1..], more);
      assert (first + more)[1..] == first[1..] + more;
    }
  }

  /** Every interleaving of goroutine steps, steps inside Process and steps elsewhere is a run of the goroutines and,
      matched step by step, a run of the protocol, and the two are in step at its end. */
  lemma {:induction false} RunsMatch(cfg: P.Config, w: Config, p: P.State, c: string, s: State, moves: seq<Move>)
    requires InStep(w, p, c, s) && w.idle == cfg.idle && CanRun(cfg, w, p, c, s, moves)
    ensures P.Allowed(cfg, p, AllProtocolSteps(cfg, w, p, c, s, moves))
    ensures Allowed(w, s, AllPoolSteps(cfg, w, p, c, s, moves))
    ensures InStep(w, P.After(cfg, p, AllProtocolSteps(cfg, w, p, c, s, moves)), c,
                   After(w, s, AllPoolSteps(cfg, w, p, c, s, moves)))
    decreases |moves|
  {
    if moves != [] {
      var m := moves[0];
      var p1, s1 := NextProtocol(cfg, w, p, c, s, m), NextPool(w, p, s, m);
      MoveFits(cfg, w, p, c, s, m);
      MoveKeepsStep(cfg, w, p, c, s, m);
      RunsMatch(cfg, w, p1, c, s1, moves[1..]);
      O.AfterConcat(cfg, p, ProtocolSteps(w, p, c, s, m), AllProtocolSteps(cfg, w, p1, c, s1, moves[1..]));
      PoolConcat(w, s, PoolSteps(p, m), AllPoolSteps(cfg, w, p1, c, s1, moves[1..]));
    }
  }

  lemma AcknowledgedIsFinal(w: Config, p: P.State, c: string, s: State)
    requires InStep(w, p, c, s)
    ensures forall e <- s.group.acked :: I.IsFinal(p.db, P.Named(p, e))
  {
    assert Seen(p, c).group.acked == p.acked;
  }

  /** A process started in any reachable state of the protocol, run in any interleaving with the rest of the system:
      its goroutines are matched by a protocol run, and every entry acknowledged by then is a finished execution. */
  lemma PoolRunsAreProtocolRuns(
    cfg: P.Config, w: Config, init: P.State, steps: seq<P.Step>, c: string, moves: seq<Move>)
    requires P.Init(init) && P.Allowed(cfg, init, steps) && c !in P.After(cfg, init, steps).processes
    requires w.idle == cfg.idle
    ensures P.Enabled(cfg, P.After(cfg, init, steps), P.Start(c, w.workers))
    ensures var before := P.After(cfg, init, steps);
      var p, s := P.Apply(cfg, before, P.Start(c, w.workers)), Start(w, GroupOf(before));
      CanRun(cfg, w, p, c, s, moves) ==>
        && P.Allowed(cfg, p, AllProtocolSteps(cfg, w, p, c, s, moves))
        && Allowed(w, s, AllPoolSteps(cfg, w, p, c, s, moves))
        && var p', s' := P.After(cfg, p, AllProtocolSteps(cfg, w, p, c, s, moves)),
                         After(w, s, AllPoolSteps(cfg, w, p, c, s, moves));
           Fits(p', c, s') && forall e <- s'.group.acked :: I.IsFinal(p'.db, P.Named(p', e))
  {
    var before := P.After(cfg, init, steps);
    I.InitInv(init);
    I.InvAlways(cfg, init, steps);
    StartFits(cfg, w, before, c);
    I.InvKept(cfg, before, P.Start(c, w.workers));
    StartIsSound(w, GroupOf(before));
    var p, s := P.Apply(cfg, before, P.Start(c, w.workers)), Start(w, GroupOf(before));
    if CanRun(cfg, w, p, c, s, moves) {
      RunsMatch(cfg, w, p, c, s, moves);
      AcknowledgedIsFinal(w, P.After(cfg, p, AllProtocolSteps(cfg, w, p, c, s, moves)), c,
                          After(w, s, AllPoolSteps(cfg, w, p, c, s, moves)));
    }
  }
}
