/** Incidents over whole runs, in which deliveries and user actions mix in any order. */
module IncidentRuns {
  import opened Wrappers
  import opened Identity
  import opened Incidents

  // ---------- what every run keeps ----------

  function Rank(s: Status): nat {
    match s case Firing => 0 case Acknowledged => 1 case Processing => 2 case Resolved => 3 case Closed => 4
  }

  predicate Settled(s: Status) { s == Resolved || s == Closed }

  /** The timestamps say exactly what has happened to the incident. */
  predicate RowOk(row: Incident) {
    && (row.resolvedAt.Some? <==> Settled(row.status))
    && (row.closedAt.Some? <==> row.status == Closed)
    && (row.status == Acknowledged ==> row.acknowledgedAt.Some?)
    && (row.status == Status.Processing ==> row.processingAt.Some?)
    && (row.status == Firing ==> row.acknowledgedAt == None && row.processingAt == None)
    && (row.status == Acknowledged ==> row.processingAt == None)
    && (row.acknowledgedBy.Some? <==> row.acknowledgedAt.Some?)
    && (row.processingBy.Some? <==> row.processingAt.Some?)
    && (row.closedBy.Some? <==> row.closedAt.Some?)
    && row.occurrences >= 1
  }

  function Stamp(row: Incident, action: Action): Option<int> {
    match action
    case Acknowledge => row.acknowledgedAt
    case Process => row.processingAt
    case Close => row.closedAt
  }

  /** The audit entries of one action on one incident. */
  function Entries(audit: seq<Entry>, id: nat, action: Action): nat {
    if audit == [] then 0
    else
      var n := |audit| - 1;
      Entries(audit[..n], id, action) + if audit[n].id == id && audit[n].action == Name(action) then 1 else 0
  }

  /** The action has taken effect on the incident. */
  predicate Stamped(t: Tables, id: nat, action: Action) {
    Names(t, id) && Stamp(t.rows[t.ids[id]], action).Some?
  }

  predicate AuditOk(t: Tables, id: nat, action: Action) {
    Entries(t.audit, id, action) == if Stamped(t, id, action) then 1 else 0
  }

  /** Ids and event keys name the same incidents, one for one. */
  ghost predicate IdsOk(t: Tables) {
    && (forall id <- t.ids :: id < t.nextId && t.ids[id] in t.rows)
    && (forall i, j | i in t.ids && j in t.ids && t.ids[i] == t.ids[j] :: i == j)
    && (forall k <- t.rows :: HasId(t, k))
  }

  ghost predicate HasId(t: Tables, key: string) { exists id <- t.ids :: t.ids[id] == key }

  ghost predicate Inv(t: Tables) {
    && (forall k <- t.rows :: RowOk(t.rows[k]))
    && IdsOk(t)
    && forall id, a :: AuditOk(t, id, a)
  }

  /** How a row may change: nothing that says what happened is ever taken back or written twice. */
  predicate Later(row: Incident, row': Incident) {
    && Rank(row.status) <= Rank(row'.status)
    && (row.resolvedAt.Some? ==> row'.resolvedAt == row.resolvedAt)
    && (row.acknowledgedAt.Some? ==> row'.acknowledgedAt == row.acknowledgedAt)
    && (row.processingAt.Some? ==> row'.processingAt == row.processingAt)
    && (row.closedAt.Some? ==> row'.closedAt == row.closedAt)
    && (row.acknowledgedBy.Some? ==> row'.acknowledgedBy == row.acknowledgedBy)
    && (row.processingBy.Some? ==> row'.processingBy == row.processingBy)
    && (row.closedBy.Some? ==> row'.closedBy == row.closedBy)
    && row.occurrences <= row'.occurrences
    && row'.(status := row.status, lastSeenAt := row.lastSeenAt, resolvedAt := row.resolvedAt, closedAt := row.closedAt,
             acknowledgedAt := row.acknowledgedAt, processingAt := row.processingAt,
             acknowledgedBy := row.acknowledgedBy,
             processingBy := row.processingBy, closedBy := row.closedBy, occurrences := row.occurrences) == row
  }

  lemma NamesDiffer()
    ensures Name(Acknowledge) != Name(Process) && Name(Process) != Name(Close) && Name(Acknowledge) != Name(Close)
  {
    assert Name(Acknowledge)[9] == 'a' && Name(Process)[9] == 'p' && Name(Close)[9] == 'c';
  }

  lemma EntryAdded(audit: seq<Entry>, e: Entry, id: nat, action: Action)
    ensures Entries(audit + [e], id, action)
         == Entries(audit, id, action) + if e.id == id && e.action == Name(action) then 1 else 0
  {
    assert (audit + [e])[..|audit|] == audit;
  }

  lemma FiringKeepsRow(t: Tables, v: Keyed, k: string)
    requires Plain(v.incident) && (k in t.rows ==> RowOk(t.rows[k])) && k in Fired(t.rows, v)
    ensures RowOk(Fired(t.rows, v)[k]) && (k in t.rows ==> Later(t.rows[k], Fired(t.rows, v)[k]))
  {}

  lemma ResolvingKeepsRow(row: Incident, at: int)
    requires RowOk(row)
    ensures RowOk(ResolvedRow(row, at)) && Later(row, ResolvedRow(row, at))
  {}

  lemma DeliveryKeepsRow(t: Tables, e: Event, k: string)
    requires !e.Act? && Normal(e) && (k in t.rows ==> RowOk(t.rows[k])) && k in Apply(t, e).rows
    ensures RowOk(Apply(t, e).rows[k]) && (k in t.rows ==> Later(t.rows[k], Apply(t, e).rows[k]))
  {
    if e.Fire? {
      FiringKeepsRow(t, e.value, k);
    } else if k == e.value.key && k in t.rows {
      ResolvingKeepsRow(t.rows[k], e.value.incident.lastSeenAt);
    }
  }

  lemma ActionKeepsRow(row: Incident, action: Action, actor: nat, now: int)
    requires RowOk(row) && row.status in From(action)
    ensures RowOk(Acted(row, action, actor, now)) && Later(row, Acted(row, action, actor, now))
  {}

  lemma RowKept(t: Tables, e: Event, k: string)
    requires Normal(e) && (k in t.rows ==> RowOk(t.rows[k])) && k in Apply(t, e).rows
    ensures RowOk(Apply(t, e).rows[k]) && (k in t.rows ==> Later(t.rows[k], Apply(t, e).rows[k]))
  {
    if !e.Act? {
      DeliveryKeepsRow(t, e, k);
    } else if Permitted(t, e.action, e.id) && t.ids[e.id] == k {
      ActionKeepsRow(t.rows[k], e.action, e.actor, e.now);
    }
  }

  /** An action that takes effect sets the stamp it had not set before, and no other. */
  lemma ActionStamps(row: Incident, action: Action, actor: nat, now: int, a: Action)
    requires RowOk(row) && row.status in From(action)
    ensures Stamp(Acted(row, action, actor, now), a) == if a == action then Some(now) else Stamp(row, a)
    ensures Stamp(row, action) == None
  {}

  lemma DeliveryStampsNothing(t: Tables, e: Event, id: nat, a: Action)
    requires !e.Act? && Normal(e) && IdsOk(t)
    ensures Apply(t, e).audit == t.audit && (Stamped(Apply(t, e), id, a) <==> Stamped(t, id, a))
  {}

  lemma SameName(a: Action, b: Action)
    requires Name(a) == Name(b)
    ensures a == b
  {
    NamesDiffer();
  }

  lemma ActionIsStamped(t: Tables, e: Event, id: nat, a: Action)
    requires e.Act? && Permitted(t, e.action, e.id) && IdsOk(t) && RowOk(t.rows[t.ids[e.id]])
    ensures Stamped(Apply(t, e), id, a) <==> Stamped(t, id, a) || (id == e.id && a == e.action)
    ensures !Stamped(t, e.id, e.action)
  {
    ActionStamps(t.rows[t.ids[e.id]], e.action, e.actor, e.now, a);
  }

  lemma AuditKept(t: Tables, e: Event, id: nat, a: Action)
    requires Normal(e) && AuditOk(t, id, a) && IdsOk(t) && forall k <- t.rows :: RowOk(t.rows[k])
    ensures AuditOk(Apply(t, e), id, a)
  {
    if !e.Act? {
      DeliveryStampsNothing(t, e, id, a);
    } else if Permitted(t, e.action, e.id) {
      EntryAdded(t.audit, Entry(e.actor, e.username, Name(e.action), e.id), id, a);
      if Name(e.action) == Name(a) { SameName(e.action, a); }
      ActionIsStamped(t, e, id, a);
    }
  }

  lemma InsertKeepsIds(t: Tables, rows: map<string, Incident>, key: string)
    requires IdsOk(t) && rows.Keys == t.rows.Keys + {key}
    ensures IdsOk(WithRows(t, rows, key)) && forall id <- t.ids :: Kept(t, WithRows(t, rows, key), id)
  {
    var t' := WithRows(t, rows, key);
    forall k <- t'.rows ensures HasId(t', k) { InsertedHasId(t, rows, key, k); }
  }

  lemma InsertedHasId(t: Tables, rows: map<string, Incident>, key: string, k: string)
    requires IdsOk(t) && rows.Keys == t.rows.Keys + {key} && k in rows
    ensures HasId(WithRows(t, rows, key), k)
  {
    var t' := WithRows(t, rows, key);
    if k in t.rows {
      assert HasId(t, k);
      var id :| id in t.ids && t.ids[id] == k;
      assert id in t'.ids && t'.ids[id] == k;
    } else {
      assert t'.ids[t.nextId] == k;
    }
  }

  /** The id goes on naming the same incident. */
  predicate Kept(t: Tables, t': Tables, id: nat) { id in t.ids && id in t'.ids && t'.ids[id] == t.ids[id] }

  lemma IdsKept(t: Tables, e: Event)
    requires IdsOk(t)
    ensures IdsOk(Apply(t, e)) && forall id <- t.ids :: Kept(t, Apply(t, e), id)
  {
    match e
    case Fire(v) => InsertKeepsIds(t, Fired(t.rows, v), v.key);
    case Resolve(v) => InsertKeepsIds(t, ResolvedIn(t.rows, v), v.key);
    case Act(_, _, _, _, _) =>
      forall k <- Apply(t, e).rows ensures HasId(Apply(t, e), k) { assert HasId(t, k); }
  }

  lemma InvKept(t: Tables, e: Event)
    requires Inv(t) && Normal(e)
    ensures Inv(Apply(t, e)) && forall k <- t.rows :: k in Apply(t, e).rows
  {
    forall k <- Apply(t, e).rows ensures RowOk(Apply(t, e).rows[k]) { RowKept(t, e, k); }
    IdsKept(t, e);
    forall id, a ensures AuditOk(Apply(t, e), id, a) {
      assert AuditOk(t, id, a);
      AuditKept(t, e, id, a);
    }
  }

  lemma LaterTwice(a: Incident, b: Incident, c: Incident)
    requires Later(a, b) && Later(b, c)
    ensures Later(a, c)
  {}

  ghost predicate AllNormal(events: seq<Event>) { forall i | 0 <= i < |events| :: Normal(events[i]) }

  /** Over every run: the timestamps and the audit log always agree with the status, the rank of a status never
      decreases, no timestamp once set is changed, no incident disappears, and every id goes on naming the same
      incident. */
  lemma {:induction false} IncidentsOnlyMoveForward(t: Tables, events: seq<Event>)
    requires Inv(t) && AllNormal(events)
    ensures Inv(After(t, events))
    ensures forall k <- t.rows :: k in After(t, events).rows && Later(t.rows[k], After(t, events).rows[k])
    ensures forall id <- t.ids :: Kept(t, After(t, events), id)
    decreases |events|
  {
    if events != [] {
      var next := Apply(t, events[0]);
      InvKept(t, events[0]);
      IdsKept(t, events[0]);
      IncidentsOnlyMoveForward(next, events[1..]);
      forall k <- t.rows ensures k in After(t, events).rows && Later(t.rows[k], After(t, events).rows[k]) {
        RowKept(t, events[0], k);
        LaterTwice(t.rows[k], next.rows[k], After(t, events).rows[k]);
      }
      forall id <- t.ids ensures Kept(t, After(t, events), id) {
        assert Kept(t, next, id) && Kept(next, After(next, events[1..]), id);
      }
    }
  }

  /** The audit log has one entry for each user action that took effect on an incident, so at most three. */
  lemma AuditIsExact(events: seq<Event>, id: nat)
    requires AllNormal(events)
    ensures var t := After(EMPTY, events);
      && (forall a :: Entries(t.audit, id, a) == if Stamped(t, id, a) then 1 else 0)
      && Entries(t.audit, id, Acknowledge) + Entries(t.audit, id, Process) + Entries(t.audit, id, Close) <= 3
  {
    var t := After(EMPTY, events);
    EmptyIsSound();
    IncidentsOnlyMoveForward(EMPTY, events);
    assert AuditOk(t, id, Acknowledge) && AuditOk(t, id, Process) && AuditOk(t, id, Close);
    forall a ensures Entries(t.audit, id, a) == if Stamped(t, id, a) then 1 else 0 {
      assert AuditOk(t, id, a);
    }
  }

  lemma EmptyIsSound()
    ensures Inv(EMPTY)
  {}

  // ---------- the gauge ----------

  predicate Live(s: Status) { s in {Firing, Acknowledged, Status.Processing} }

  function LiveKeys(rows: map<string, Incident>): set<string> { set k <- rows | Live(rows[k].status) }

  /** The collector's count of active incidents. */
  function Gauge(t: Tables): nat { |LiveKeys(t.rows)| }

  function FiringInserts(t: Tables, events: seq<Event>): nat
    decreases |events|
  {
    if events == [] then 0
    else
      var e := events[0];
      (if e.Fire? && e.value.key !in t.rows then 1 else 0) + FiringInserts(Apply(t, e), events[1..])
  }

  function Resolutions(t: Tables, events: seq<Event>): nat
    decreases |events|
  {
    if events == [] then 0
    else
      var e := events[0];
      (if e.Resolve? && e.value.key in t.rows && Live(t.rows[e.value.key].status) then 1 else 0)
      + Resolutions(Apply(t, e), events[1..])
  }

  /** An update of one row changes the gauge by that row alone. */
  lemma OneRow(rows: map<string, Incident>, key: string, row: Incident)
    ensures |LiveKeys(rows[key := row])| + (if key in rows && Live(rows[key].status) then 1 else 0)
         == |LiveKeys(rows)| + if Live(row.status) then 1 else 0
  {
    var others := LiveKeys(rows) - {key};
    if Live(row.status) {
      assert LiveKeys(rows[key := row]) == others + {key};
    } else {
      assert LiveKeys(rows[key := row]) == others;
    }
    if key in LiveKeys(rows) {
      assert LiveKeys(rows) == others + {key};
    } else {
      assert LiveKeys(rows) == others;
    }
  }

  /** Over every run the gauge is what it was, plus the incidents inserted as firing, minus those resolved while
      active. */
  lemma {:induction false} GaugeBalances(t: Tables, events: seq<Event>)
    requires AllNormal(events)
    ensures Gauge(After(t, events)) + Resolutions(t, events) == Gauge(t) + FiringInserts(t, events)
    decreases |events|
  {
    if events != [] {
      GaugeStep(t, events[0]);
      GaugeBalances(Apply(t, events[0]), events[1..]);
    }
  }

  lemma GaugeStep(t: Tables, e: Event)
    requires Normal(e)
    ensures Gauge(Apply(t, e))
         + (if e.Resolve? && e.value.key in t.rows && Live(t.rows[e.value.key].status) then 1 else 0)
         == Gauge(t) + if e.Fire? && e.value.key !in t.rows then 1 else 0
  {
    match e
    case Fire(v) => OneRow(t.rows, v.key, Apply(t, e).rows[v.key]);
    case Resolve(v) => OneRow(t.rows, v.key, Apply(t, e).rows[v.key]);
    case Act(action, id, actor, _, now) =>
      if Permitted(t, action, id) { OneRow(t.rows, t.ids[id], Acted(t.rows[t.ids[id]], action, actor, now)); }
  }

  // ---------- confluence ----------

  /** The deliveries of a run, without their order and number: which keys were reported firing and which resolved. */
  datatype Report = Report(key: string, resolved: bool)

  function ReportOf(e: Event): Report
    requires !e.Act?
  {
    Report(e.value.key, e.Resolve?)
  }

  function Reports(events: seq<Event>): set<Report> {
    set i | 0 <= i < |events| && !events[i].Act? :: ReportOf(events[i])
  }

  lemma ReportsUnfold(events: seq<Event>, r: Report)
    requires events != []
    ensures r in Reports(events) <==> (!events[0].Act? && ReportOf(events[0]) == r) || r in Reports(events[1..])
  {
    if r in Reports(events) {
      var i :| 0 <= i < |events| && !events[i].Act? && ReportOf(events[i]) == r;
      if i > 0 { assert events[1..][i - 1] == events[i]; }
    }
    if r in Reports(events[1..]) {
      var i :| 0 <= i < |events[1..]| && !events[1..][i].Act? && ReportOf(events[1..][i]) == r;
      assert events[i + 1] == events[1..][i];
    }
  }

  /** With user actions mixed in at will, an incident exists exactly when it was reported, and is resolved or
      closed exactly when it was ever reported resolved. A late firing reopens nothing. */
  lemma {:induction false} SettledIffReported(t: Tables, events: seq<Event>, key: string)
    requires AllNormal(events)
    ensures key in After(t, events).rows
            <==> key in t.rows || Report(key, false) in Reports(events) || Report(key, true) in Reports(events)
    ensures key in After(t, events).rows && Settled(After(t, events).rows[key].status)
            <==> (key in t.rows && Settled(t.rows[key].status)) || Report(key, true) in Reports(events)
    decreases |events|
  {
    if events != [] {
      SettledIffReported(Apply(t, events[0]), events[1..], key);
      ReportsUnfold(events, Report(key, false));
      ReportsUnfold(events, Report(key, true));
    }
  }

  ghost predicate Deliveries(events: seq<Event>) {
    forall i | 0 <= i < |events| :: !events[i].Act? && Normal(events[i])
  }

  /** The status that deliveries alone lead to. */
  function StatusAfter(t: Tables, reports: set<Report>, key: string): Option<Status> {
    if Report(key, true) in reports then
      Some(if key in t.rows && t.rows[key].status == Closed then Closed else Resolved)
    else if key in t.rows then Some(t.rows[key].status)
    else if Report(key, false) in reports then Some(Firing)
    else None
  }

  function StatusOf(t: Tables, key: string): Option<Status> {
    if key in t.rows then Some(t.rows[key].status) else None
  }

  lemma {:induction false} StatusIs(t: Tables, events: seq<Event>, key: string)
    requires Deliveries(events)
    ensures StatusOf(After(t, events), key) == StatusAfter(t, Reports(events), key)
    decreases |events|
  {
    if events != [] {
      StatusIs(Apply(t, events[0]), events[1..], key);
      ReportsUnfold(events, Report(key, false));
      ReportsUnfold(events, Report(key, true));
    }
  }

  /** Two sequences of deliveries that report the same, in any order and any number, lead from the same tables to
      the same incidents with the same statuses. */
  lemma WebhooksConverge(t: Tables, one: seq<Event>, other: seq<Event>)
    requires Deliveries(one) && Deliveries(other) && Reports(one) == Reports(other)
    ensures After(t, one).rows.Keys == After(t, other).rows.Keys
    ensures forall k <- After(t, one).rows :: After(t, one).rows[k].status == After(t, other).rows[k].status
  {
    forall k ensures StatusOf(After(t, one), k) == StatusOf(After(t, other), k) {
      StatusIs(t, one, k);
      StatusIs(t, other, k);
    }
    forall k ensures k in After(t, one).rows <==> k in After(t, other).rows {
      assert StatusOf(After(t, one), k) == StatusOf(After(t, other), k);
    }
    forall k <- After(t, one).rows ensures After(t, one).rows[k].status == After(t, other).rows[k].status {
      assert StatusOf(After(t, one), k) == StatusOf(After(t, other), k);
    }
  }

  // ---------- a webhook that is sent again ----------

  lemma AnswersAgree(lib: Library, w: Webhook, clock: nat -> int, later: nat -> int, healthy: nat -> bool, i: nat)
    requires i < |w.alerts|
    ensures var a, b := Answers(lib, w, clock, healthy)[i], Answers(lib, w, later, _ => true)[i];
      a.Stored? ==> b.Stored? && ReportOf(a.event) == ReportOf(b.event)
  {}

  lemma {:induction false} StoredReports(answers: seq<Answer>, again: seq<Answer>)
    requires |answers| == |again| && Handled(again).err == None
    requires forall i | 0 <= i < |answers| && answers[i].Stored? ::
      !answers[i].event.Act? && again[i].Stored? && !again[i].event.Act?
      && ReportOf(answers[i].event) == ReportOf(again[i].event)
    ensures Reports(Handled(answers).stored) <= Reports(Handled(again).stored)
    decreases |answers|
  {
    if answers != [] {
      var n := |answers| - 1;
      StoredReports(answers[..n], again[..n]);
      var before, before' := Handled(answers[..n]), Handled(again[..n]);
      if before.err == None && answers[n].Stored? {
        ReportsAdded(before.stored, answers[n].event);
        ReportsAdded(before'.stored, again[n].event);
      } else if again[n].Stored? && !again[n].event.Act? {
        ReportsAdded(before'.stored, again[n].event);
      } else if again[n].Stored? {
        ReportsGrow(before'.stored, again[n].event);
      }
    }
  }

  lemma ReportsGrow(events: seq<Event>, e: Event)
    ensures Reports(events) <= Reports(events + [e])
  {
    forall r <- Reports(events) ensures r in Reports(events + [e]) {
      var i :| 0 <= i < |events| && !events[i].Act? && ReportOf(events[i]) == r;
      assert (events + [e])[i] == events[i];
    }
  }

  lemma ReportsAdded(events: seq<Event>, e: Event)
    requires !e.Act?
    ensures Reports(events + [e]) == Reports(events) + {ReportOf(e)}
  {
    ReportsGrow(events, e);
    assert (events + [e])[|events|] == e;
    forall r <- Reports(events + [e]) ensures r in Reports(events) || r == ReportOf(e) {
      var i :| 0 <= i < |events + [e]| && !(events + [e])[i].Act? && ReportOf((events + [e])[i]) == r;
      if i < |events| { assert events[i] == (events + [e])[i]; }
    }
  }

  lemma ReportsJoin(one: seq<Event>, other: seq<Event>)
    ensures Reports(one + other) == Reports(one) + Reports(other)
  {
    var all := one + other;
    forall r <- Reports(one) ensures r in Reports(all) {
      var i :| 0 <= i < |one| && !one[i].Act? && ReportOf(one[i]) == r;
      assert all[i] == one[i];
    }
    forall r <- Reports(other) ensures r in Reports(all) {
      var i :| 0 <= i < |other| && !other[i].Act? && ReportOf(other[i]) == r;
      assert all[|one| + i] == other[i];
    }
  }

  lemma {:induction false} AfterBoth(t: Tables, one: seq<Event>, other: seq<Event>)
    ensures After(t, one + other) == After(After(t, one), other)
    decreases |one|
  {
    if one == [] {
      assert one + other == other;
    } else {
      assert (one + other)[1..] == one[1..] + other;
      AfterBoth(Apply(t, one[0]), one[1..], other);
    }
  }

  lemma {:induction false} StoredAreDeliveries(answers: seq<Answer>)
    requires forall i | 0 <= i < |answers| && answers[i].Stored? :: !answers[i].event.Act? && Normal(answers[i].event)
    ensures Deliveries(Handled(answers).stored)
    decreases |answers|
  {
    if answers != [] { StoredAreDeliveries(answers[..|answers| - 1]); }
  }

  /** A webhook that failed part of the way and is sent again until it succeeds leaves the same incidents and
      statuses as one that succeeded at once. */
  lemma ReplayAfterFailure(t: Tables, lib: Library, w: Webhook, clock: nat -> int, later: nat -> int,
    healthy: nat -> bool)
    requires Handled(Answers(lib, w, later, _ => true)).err == None
    ensures var failed := Handled(Answers(lib, w, clock, healthy)).stored;
      var whole := Handled(Answers(lib, w, later, _ => true)).stored;
      var twice, once := After(After(t, failed), whole), After(t, whole);
      && twice.rows.Keys == once.rows.Keys && forall k <- once.rows :: twice.rows[k].status == once.rows[k].status
  {
    var answers, again := Answers(lib, w, clock, healthy), Answers(lib, w, later, _ => true);
    var failed, whole := Handled(answers).stored, Handled(again).stored;
    forall i | 0 <= i < |answers| && answers[i].Stored?
      ensures !answers[i].event.Act? && again[i].Stored? && !again[i].event.Act?
           && ReportOf(answers[i].event) == ReportOf(again[i].event) {
      AnswersAgree(lib, w, clock, later, healthy, i);
    }
    StoredReports(answers, again);
    StoredAreDeliveries(answers);
    StoredAreDeliveries(again);
    ReportsJoin(failed, whole);
    AfterBoth(t, failed, whole);
    WebhooksConverge(t, failed + whole, whole);
  }

  // ---------- the count of occurrences ----------

  function Fires(events: seq<Event>, key: string): nat {
    if events == [] then 0
    else (if events[0].Fire? && events[0].value.key == key then 1 else 0) + Fires(events[1..], key)
  }

  /** The first report about the key is that it is resolved. */
  predicate ResolvedFirst(events: seq<Event>, key: string) {
    if events == [] then false
    else if !events[0].Act? && events[0].value.key == key then events[0].Resolve?
    else ResolvedFirst(events[1..], key)
  }

  function Count(t: Tables, key: string): nat { if key in t.rows then t.rows[key].occurrences else 0 }

  /** Occurrences count the firing deliveries, and one more if the incident was first heard of as resolved. */
  lemma {:induction false} OccurrencesAre(t: Tables, events: seq<Event>, key: string)
    requires AllNormal(events)
    ensures Count(After(t, events), key)
         == Count(t, key) + Fires(events, key) + if key !in t.rows && ResolvedFirst(events, key) then 1 else 0
    decreases |events|
  {
    if events != [] { OccurrencesAre(Apply(t, events[0]), events[1..], key); }
  }

  /** So, unlike the status, the count depends on the order: two runs with equally many firing deliveries agree
      if and only if the incident was known before or both, or neither, heard of its resolution first. */
  lemma OccurrencesAgreeIff(t: Tables, one: seq<Event>, other: seq<Event>, key: string)
    requires AllNormal(one) && AllNormal(other) && Fires(one, key) == Fires(other, key)
    ensures Count(After(t, one), key) == Count(After(t, other), key)
            <==> key in t.rows || (ResolvedFirst(one, key) <==> ResolvedFirst(other, key))
  {
    OccurrencesAre(t, one, key);
    OccurrencesAre(t, other, key);
  }

  /** The same two deliveries in the two orders: the statuses agree and the counts do not. */
  lemma OrderChangesCount(v: Keyed)
    requires Plain(v.incident)
    ensures var t := EMPTY;
      var firedFirst, resolvedFirst := After(t, [Fire(v), Resolve(v)]), After(t, [Resolve(v), Fire(v)]);
      && firedFirst.rows.Keys == resolvedFirst.rows.Keys == {v.key}
      && firedFirst.rows[v.key].status == resolvedFirst.rows[v.key].status == Resolved
      && Count(firedFirst, v.key) == 1 && Count(resolvedFirst, v.key) == 2
  {
    var t := EMPTY;
    TwoEvents(t, Fire(v), Resolve(v));
    TwoEvents(t, Resolve(v), Fire(v));
  }

  lemma TwoEvents(t: Tables, a: Event, b: Event)
    ensures After(t, [a, b]) == Apply(Apply(t, a), b)
  {
    assert [a, b] == [a] + [b] && [a] == [] + [a];
    AfterOneMore(t, [a], b);
    AfterOneMore(t, [], a);
  }
}
