/** Stored incidents: the webhook, the three user actions and the tables they change. */
module Incidents {
  import opened Wrappers
  import opened Identity

  /** An audit log entry of a user action on the incident with this id. */
  datatype Entry = Entry(actor: nat, username: string, action: string, id: nat)

  /** Incidents by event key, the event keys by primary key with its AUTO_INCREMENT counter, and the audit log. */
  datatype Tables = Tables(rows: map<string, Incident>, ids: map<nat, string>, nextId: nat, audit: seq<Entry>)

  const EMPTY := Tables(map[], map[], 1, [])

  datatype Action = Acknowledge | Process | Close

  /** What can reach the tables: two kinds of delivery and a user's action. */
  datatype Event =
    | Fire(value: Keyed)
    | Resolve(value: Keyed)
    | Act(action: Action, id: nat, actor: nat, username: string, now: int)

  datatype ActionError = NotFound | Conflict

  function From(action: Action): set<Status> {
    match action
    case Acknowledge => {Firing}
    case Process => {Firing, Acknowledged}
    case Close => {Resolved}
  }

  function Name(action: Action): string {
    match action
    case Acknowledge => "incident.acknowledge"
    case Process => "incident.process"
    case Close => "incident.close"
  }

  /** A row that Normalize produced: nobody has acted on it. */
  predicate Plain(row: Incident) {
    && row.status == Firing && row.resolvedAt == None && row.closedAt == None && row.acknowledgedAt == None
    && row.processingAt == None && row.acknowledgedBy == None && row.processingBy == None && row.closedBy == None
    && row.occurrences == 1
  }

  /** INSERT ... ON DUPLICATE KEY UPDATE: a known incident is seen once more, and nothing else about it changes. */
  function Fired(rows: map<string, Incident>, v: Keyed): map<string, Incident> {
    if v.key in rows then
      rows[v.key := rows[v.key].(occurrences := rows[v.key].occurrences + 1, lastSeenAt := v.incident.lastSeenAt)]
    else rows[v.key := v.incident]
  }

  /** UPDATE, then INSERT if no row has the key. */
  function ResolvedRow(row: Incident, at: int): Incident {
    row.(status := if row.status == Closed then Closed else Resolved,
         resolvedAt := if row.resolvedAt.Some? then row.resolvedAt else Some(at), lastSeenAt := at)
  }

  function ResolvedIn(rows: map<string, Incident>, v: Keyed): map<string, Incident> {
    var at := v.incident.lastSeenAt;
    if v.key in rows then rows[v.key := ResolvedRow(rows[v.key], at)]
    else rows[v.key := v.incident.(status := Resolved, resolvedAt := Some(at))]
  }

  /** The row after a user's action. */
  function Acted(row: Incident, action: Action, actor: nat, now: int): Incident {
    match action
    case Acknowledge => row.(status := Acknowledged, acknowledgedAt := Some(now), acknowledgedBy := Some(actor))
    case Process => row.(status := Status.Processing, processingAt := Some(now), processingBy := Some(actor))
    case Close => row.(status := Closed, closedAt := Some(now), closedBy := Some(actor))
  }

  /** The id belongs to a stored incident. */
  predicate Names(t: Tables, id: nat) { id in t.ids && t.ids[id] in t.rows }

  predicate Permitted(t: Tables, action: Action, id: nat) {
    Names(t, id) && t.rows[t.ids[id]].status in From(action)
  }

  /** The tables with new rows, in which only the row of `key` may be one that has just been inserted. */
  function WithRows(t: Tables, rows: map<string, Incident>, key: string): Tables {
    if key in t.rows then t.(rows := rows)
    else t.(rows := rows, ids := t.ids[t.nextId := key], nextId := t.nextId + 1)
  }

  /** A refused action changes nothing. */
  function Apply(t: Tables, e: Event): Tables {
    match e
    case Fire(v) => WithRows(t, Fired(t.rows, v), v.key)
    case Resolve(v) => WithRows(t, ResolvedIn(t.rows, v), v.key)
    case Act(action, id, actor, username, now) =>
      if !Permitted(t, action, id) then t
      else
        var row := Acted(t.rows[t.ids[id]], action, actor, now);
        t.(rows := t.rows[t.ids[id] := row], audit := t.audit + [Entry(actor, username, Name(action), id)])
  }

  function After(t: Tables, events: seq<Event>): Tables
    decreases |events|
  {
    if events == [] then t else After(Apply(t, events[0]), events[1..])
  }

  /** Deliveries carry what Normalize made of an alert. */
  predicate Normal(e: Event) { e.Act? || Plain(e.value.incident) }

  // ---------- the webhook ----------

  datatype Webhook = Webhook(status: string, alerts: seq<Alert>)

  predicate Wanted(alert: Alert) { Label(alert.labels, "cloudsentinel_incident") == "true" }

  /** What becomes of one alert: it is not meant for this system, it is refused, or it is stored. */
  datatype Answer = Ignored | Refused(error: Error) | Stored(event: Event)

  /** An alert without a status of its own has that of the webhook. `healthy` says whether its statement succeeds. */
  function AnswerTo(lib: Library, status: string, alert: Alert, now: int, healthy: bool): (a: Answer)
    ensures a.Stored? ==> !a.event.Act? && Normal(a.event)
  {
    var value := Normalize(lib, alert, now);
    var kind := if alert.status == "" then status else alert.status;
    if !Wanted(alert) then Ignored
    else if value.Failure? then Refused(value.error)
    else if kind !in {"firing", "resolved"} then Refused(UnsupportedStatus)
    else if !healthy then Refused(Database)
    else Stored(if kind == "firing" then Fire(value.value) else Resolve(value.value))
  }

  /** `clock(i)` is the time at which alert `i` is looked at. */
  function Answers(lib: Library, w: Webhook, clock: nat -> int, healthy: nat -> bool): (answers: seq<Answer>)
    ensures |answers| == |w.alerts|
    ensures forall i | 0 <= i < |answers| :: answers[i] == AnswerTo(lib, w.status, w.alerts[i], clock(i), healthy(i))
    ensures forall i | 0 <= i < |answers| && answers[i].Stored? :: !answers[i].event.Act? && Normal(answers[i].event)
  {
    seq(|w.alerts|, i requires 0 <= i < |w.alerts| => AnswerTo(lib, w.status, w.alerts[i], clock(i), healthy(i)))
  }

  /** How far a webhook gets: the deliveries that were stored and the error that ended it, if any. */
  datatype Progress = Progress(stored: seq<Event>, err: Option<Error>)

  function Handled(answers: seq<Answer>): Progress {
    if answers == [] then Progress([], None)
    else
      var n := |answers| - 1;
      var before, last := Handled(answers[..n]), answers[n];
      if before.err.Some? || last.Ignored? then before
      else if last.Refused? then before.(err := Some(last.error))
      else before.(stored := before.stored + [last.event])
  }

  lemma HandledNext(answers: seq<Answer>, n: nat)
    requires n < |answers| && Handled(answers[..n]).err == None
    ensures var before := Handled(answers[..n]);
      Handled(answers[..n + 1]) == match answers[n]
        case Ignored => before
        case Refused(error) => before.(err := Some(error))
        case Stored(event) => before.(stored := before.stored + [event])
  {
    assert answers[..n + 1][..n] == answers[..n];
  }

  lemma {:induction false} ErrorStays(answers: seq<Answer>, n: nat)
    requires n <= |answers| && Handled(answers[..n]).err.Some?
    ensures Handled(answers) == Handled(answers[..n])
    decreases |answers|
  {
    var m := |answers| - 1;
    if n <= m {
      assert answers[..m][..n] == answers[..n];
      ErrorStays(answers[..m], n);
    } else {
      assert answers[..n] == answers;
    }
  }

  lemma {:induction false} AfterOneMore(t: Tables, events: seq<Event>, e: Event)
    ensures After(t, events + [e]) == Apply(After(t, events), e)
    decreases |events|
  {
    if events == [] {
      assert [e][1..] == [];
    } else {
      assert (events + [e])[1..] == events[1..] + [e];
      AfterOneMore(Apply(t, events[0]), events[1..], e);
    }
  }

  // ---------- what deliveries and actions mean, column by column ----------

  /** What the alert said when the incident was first stored. */
  ghost predicate SameAlert(row: Incident, row': Incident) {
    && row'.fingerprint == row.fingerprint && row'.external == row.external && row'.alertName == row.alertName
    && row'.serviceId == row.serviceId && row'.taskId == row.taskId && row'.probeType == row.probeType
    && row'.severity == row.severity && row'.summary == row.summary && row'.description == row.description
    && row'.firedAt == row.firedAt
  }

  /** What users have done to the incident. */
  ghost predicate SameActions(row: Incident, row': Incident) {
    && row'.acknowledgedAt == row.acknowledgedAt && row'.acknowledgedBy == row.acknowledgedBy
    && row'.processingAt == row.processingAt && row'.processingBy == row.processingBy
    && row'.closedAt == row.closedAt && row'.closedBy == row.closedBy
  }

  /** Nothing has changed but the incident of this key, which gets the next number if it is new. */
  ghost predicate OnlyIncident(t: Tables, t': Tables, key: string) {
    && t'.rows.Keys == t.rows.Keys + {key} && t'.audit == t.audit
    && (forall other <- t.rows | other != key :: t'.rows[other] == t.rows[other])
    && if key in t.rows then t'.ids == t.ids && t'.nextId == t.nextId
       else t'.ids == t.ids[t.nextId := key] && t'.nextId == t.nextId + 1
  }

  /** A firing alert opens the incident, or counts it once more and changes nothing else but when it was last seen. */
  ghost predicate FiringRecorded(t: Tables, t': Tables, v: Keyed) {
    && OnlyIncident(t, t', v.key)
    && var row' := t'.rows[v.key];
       if v.key !in t.rows then row' == v.incident
       else
         var row := t.rows[v.key];
         && row'.occurrences == row.occurrences + 1 && row'.lastSeenAt == v.incident.lastSeenAt
         && row'.status == row.status && row'.resolvedAt == row.resolvedAt
         && SameAlert(row, row') && SameActions(row, row')
  }

  /** A resolved alert settles the incident: it is resolved when the alert was last seen, unless it was settled
      before. */
  ghost predicate ResolutionRecorded(t: Tables, t': Tables, v: Keyed) {
    && OnlyIncident(t, t', v.key)
    && var row' := t'.rows[v.key];
       && row'.lastSeenAt == v.incident.lastSeenAt
       && if v.key !in t.rows then
            && row'.status == Resolved && row'.resolvedAt == Some(v.incident.lastSeenAt)
            && row'.occurrences == v.incident.occurrences
            && SameAlert(v.incident, row') && SameActions(v.incident, row')
          else
            var row := t.rows[v.key];
            && row'.status == (if row.status == Closed then Closed else Resolved)
            && row'.resolvedAt == (if row.resolvedAt == None then Some(v.incident.lastSeenAt) else row.resolvedAt)
            && row'.occurrences == row.occurrences && SameAlert(row, row') && SameActions(row, row')
  }

  /** The user's action is possible: acknowledging a firing incident, processing one that is not settled and not yet
      in processing, closing one that is resolved. */
  ghost predicate Open(action: Action, status: Status) {
    match action
    case Acknowledge => status == Firing
    case Process => status == Firing || status == Acknowledged
    case Close => status == Resolved
  }

  /** The incident of number `id` has moved on by the action, which is stamped with its time and its user; one audit
      entry tells of it. */
  ghost predicate Transitioned(
    t: Tables, t': Tables, action: Action, id: nat, actor: nat, username: string, now: int)
    requires id in t.ids && t.ids[id] in t.rows
  {
    && t'.ids == t.ids && t'.nextId == t.nextId && t'.rows.Keys == t.rows.Keys
    && (forall other <- t.rows | other != t.ids[id] :: t'.rows[other] == t.rows[other])
    && var row, row' := t.rows[t.ids[id]], t'.rows[t.ids[id]];
       && SameAlert(row, row') && row'.occurrences == row.occurrences && row'.lastSeenAt == row.lastSeenAt
       && row'.resolvedAt == row.resolvedAt
       && match action
          case Acknowledge =>
            && row'.status == Acknowledged && row'.acknowledgedAt == Some(now) && row'.acknowledgedBy == Some(actor)
            && row'.processingAt == row.processingAt && row'.processingBy == row.processingBy
            && row'.closedAt == row.closedAt && row'.closedBy == row.closedBy
            && t'.audit == t.audit + [Entry(actor, username, "incident.acknowledge", id)]
          case Process =>
            && row'.status == Status.Processing && row'.processingAt == Some(now) && row'.processingBy == Some(actor)
            && row'.acknowledgedAt == row.acknowledgedAt && row'.acknowledgedBy == row.acknowledgedBy
            && row'.closedAt == row.closedAt && row'.closedBy == row.closedBy
            && t'.audit == t.audit + [Entry(actor, username, "incident.process", id)]
          case Close =>
            && row'.status == Closed && row'.closedAt == Some(now) && row'.closedBy == Some(actor)
            && row'.acknowledgedAt == row.acknowledgedAt && row'.acknowledgedBy == row.acknowledgedBy
            && row'.processingAt == row.processingAt && row'.processingBy == row.processingBy
            && t'.audit == t.audit + [Entry(actor, username, "incident.close", id)]
  }

  /** The alert is marked for this system. */
  ghost predicate Marked(alert: Alert) {
    "cloudsentinel_incident" in alert.labels && alert.labels["cloudsentinel_incident"] == "true"
  }

  /** The alert is marked and well-formed, and reports this of the incident of this key. */
  ghost predicate Says(lib: Library, status: string, alert: Alert, now: int, kind: string, key: string) {
    && Marked(alert) && kind == (if alert.status == "" then status else alert.status)
    && Normalize(lib, alert, now).Success? && Normalize(lib, alert, now).value.key == key
  }

  /** One of the first `n` alerts of the webhook reports it. */
  ghost predicate Told(lib: Library, w: Webhook, n: nat, clock: nat -> int, kind: string, key: string)
    requires n <= |w.alerts|
  {
    exists i: nat | i < n :: Says(lib, w.status, w.alerts[i], clock(i), kind, key)
  }

  ghost predicate IsSettled(t: Tables, key: string) {
    key in t.rows && (t.rows[key].status == Resolved || t.rows[key].status == Closed)
  }

  /** What the first `n` alerts of a webhook leave behind: exactly what they reported has been stored, and exactly
      what they reported resolved has been settled. */
  ghost predicate Taken(lib: Library, w: Webhook, n: nat, clock: nat -> int, t: Tables, t': Tables)
    requires n <= |w.alerts|
  {
    t'.audit == t.audit && forall key :: TakenAt(lib, w, n, clock, t, t', key)
  }

  ghost predicate TakenAt(lib: Library, w: Webhook, n: nat, clock: nat -> int, t: Tables, t': Tables, key: string)
    requires n <= |w.alerts|
  {
    && (key in t'.rows <==>
          key in t.rows || Told(lib, w, n, clock, "firing", key) || Told(lib, w, n, clock, "resolved", key))
    && (IsSettled(t', key) <==> IsSettled(t, key) || Told(lib, w, n, clock, "resolved", key))
  }

  /** One alert has been stored as it says, or passed over. */
  ghost predicate Stands(lib: Library, status: string, alert: Alert, now: int, t: Tables, t': Tables) {
    if !Marked(alert) then t' == t
    else
      var v := Normalize(lib, alert, now);
      var kind := if alert.status == "" then status else alert.status;
      && v.Success? && (kind == "firing" || kind == "resolved")
      && if kind == "firing" then FiringRecorded(t, t', v.value) && Plain(v.value.incident)
         else ResolutionRecorded(t, t', v.value)
  }

  lemma ToldNext(lib: Library, w: Webhook, n: nat, clock: nat -> int, kind: string, key: string)
    requires n < |w.alerts|
    ensures Told(lib, w, n + 1, clock, kind, key) <==>
      Told(lib, w, n, clock, kind, key) || Says(lib, w.status, w.alerts[n], clock(n), kind, key)
  {}

  lemma FiringStores(t: Tables, t': Tables, v: Keyed, key: string)
    requires FiringRecorded(t, t', v) && Plain(v.incident)
    ensures (key in t'.rows <==> key in t.rows || key == v.key) && (IsSettled(t', key) <==> IsSettled(t, key))
  {}

  lemma ResolutionStores(t: Tables, t': Tables, v: Keyed, key: string)
    requires ResolutionRecorded(t, t', v)
    ensures key in t'.rows <==> key in t.rows || key == v.key
    ensures IsSettled(t', key) <==> IsSettled(t, key) || key == v.key
  {}

  lemma StoredOne(lib: Library, status: string, alert: Alert, now: int, t: Tables, t': Tables, key: string)
    requires Stands(lib, status, alert, now, t, t')
    ensures key in t'.rows <==>
      key in t.rows || Says(lib, status, alert, now, "firing", key) || Says(lib, status, alert, now, "resolved", key)
    ensures IsSettled(t', key) <==> IsSettled(t, key) || Says(lib, status, alert, now, "resolved", key)
  {
    if Marked(alert) {
      var v := Normalize(lib, alert, now).value;
      if (if alert.status == "" then status else alert.status) == "firing" {
        FiringStores(t, t', v, key);
      } else {
        ResolutionStores(t, t', v, key);
      }
    }
  }

  lemma TakesOneMoreAt(
    lib: Library, w: Webhook, n: nat, clock: nat -> int, t: Tables, before: Tables, after: Tables, key: string)
    requires n < |w.alerts| && TakenAt(lib, w, n, clock, t, before, key)
    requires Stands(lib, w.status, w.alerts[n], clock(n), before, after)
    ensures TakenAt(lib, w, n + 1, clock, t, after, key)
  {
    ToldNext(lib, w, n, clock, "firing", key);
    ToldNext(lib, w, n, clock, "resolved", key);
    StoredOne(lib, w.status, w.alerts[n], clock(n), before, after, key);
  }

  lemma TakesOneMore(lib: Library, w: Webhook, n: nat, clock: nat -> int, t: Tables, before: Tables, after: Tables)
    requires n < |w.alerts| && Taken(lib, w, n, clock, t, before)
    requires Stands(lib, w.status, w.alerts[n], clock(n), before, after)
    ensures Taken(lib, w, n + 1, clock, t, after)
  {
    var next := n + 1;
    forall key ensures TakenAt(lib, w, next, clock, t, after, key) {
      TakesOneMoreAt(lib, w, n, clock, t, before, after, key);
    }
  }

  class Repository {
    var tables: Tables

    /** INSERT of a row that is not there yet. */
    method Insert(key: string, row: Incident)
      requires key !in tables.rows
      modifies this
      ensures tables == WithRows(old(tables), old(tables).rows[key := row], key)
    {
      var id := tables.nextId;
      tables := tables.(rows := tables.rows[key := row], ids := tables.ids[id := key], nextId := id + 1);
    }

    method UpsertFiring(v: Keyed)
      modifies this
      ensures tables == Apply(old(tables), Fire(v))
      ensures FiringRecorded(old(tables), tables, v)
    {
      if v.key in tables.rows {
        var row := tables.rows[v.key];
        row := row.(occurrences := row.occurrences + 1, lastSeenAt := v.incident.lastSeenAt);
        tables := tables.(rows := tables.rows[v.key := row]);
      } else {
        Insert(v.key, v.incident);
      }
    }

    /** `v` is the alert's incident with status resolved, resolved when it was last seen. */
    method Resolve(v: Keyed)
      modifies this
      ensures tables == Apply(old(tables), Event.Resolve(v))
      ensures ResolutionRecorded(old(tables), tables, v)
    {
      var at := v.incident.lastSeenAt;
      if v.key in tables.rows {
        tables := tables.(rows := tables.rows[v.key := ResolvedRow(tables.rows[v.key], at)]);
      } else {
        Insert(v.key, v.incident.(status := Resolved, resolvedAt := Some(at)));
      }
    }

    method Get(id: nat) returns (r: Result<Incident, ActionError>)
      ensures r == if Names(tables, id) then Success(tables.rows[tables.ids[id]]) else Failure(NotFound)
    {
      if id !in tables.ids || tables.ids[id] !in tables.rows { return Failure(NotFound); }
      return Success(tables.rows[tables.ids[id]]);
    }

    /** One transaction: the conditional update, the audit entry and the row as it is then. */
    method Transition(id: nat, action: Action, actor: nat, now: int, entry: Entry)
      returns (r: Result<Incident, ActionError>)
      requires entry == Entry(actor, entry.username, Name(action), id)
      modifies this
      ensures tables == Apply(old(tables), Act(action, id, actor, entry.username, now))
      ensures Permitted(old(tables), action, id) ==> Names(tables, id) && r == Success(tables.rows[tables.ids[id]])
      ensures !Permitted(old(tables), action, id) ==> r == Failure(Conflict)
      ensures r.Success? <==> id in old(tables).ids && old(tables).ids[id] in old(tables).rows
                              && Open(action, old(tables).rows[old(tables).ids[id]].status)
      ensures r.Success? ==> Transitioned(old(tables), tables, action, id, actor, entry.username, now)
      ensures r.Failure? ==> tables == old(tables)
    {
      if id !in tables.ids || tables.ids[id] !in tables.rows { return Failure(Conflict); }
      var key := tables.ids[id];
      if tables.rows[key].status !in From(action) { return Failure(Conflict); }
      var row := Acted(tables.rows[key], action, actor, now);
      tables := tables.(rows := tables.rows[key := row], audit := tables.audit + [entry]);
      return Success(row);
    }
  }

  class Service {
    const repo: Repository
    const lib: Library

    constructor (repo: Repository, lib: Library)
      ensures this.repo == repo && this.lib == lib
    {
      this.repo, this.lib := repo, lib;
    }

    /** One round of the loop over the alerts. */
    method IngestOne(status: string, alert: Alert, now: int, healthy: bool) returns (err: Option<Error>)
      modifies repo
      ensures var a := AnswerTo(lib, status, alert, now, healthy);
        && err == (if a.Refused? then Some(a.error) else None)
        && repo.tables == (if a.Stored? then Apply(old(repo.tables), a.event) else old(repo.tables))
      ensures err == None ==> Stands(lib, status, alert, now, old(repo.tables), repo.tables)
      ensures err != None ==>
        var v, kind := Normalize(lib, alert, now), if alert.status == "" then status else alert.status;
        && Marked(alert) && repo.tables == old(repo.tables)
        && err.value == if v.Failure? then v.error
                        else if kind != "firing" && kind != "resolved" then UnsupportedStatus else Database
      ensures err == Some(Database) ==> !healthy
    {
      if Label(alert.labels, "cloudsentinel_incident") != "true" { return None; }
      var kind := alert.status;
      if kind == "" { kind := status; }
      var value := Normalize(lib, alert, now);
      if value.Failure? { return Some(value.error); }
      err := Store(kind, value.value, healthy);
    }

    /** The switch over the status. */
    method Store(kind: string, v: Keyed, healthy: bool) returns (err: Option<Error>)
      modifies repo
      ensures err == if kind != "firing" && kind != "resolved" then Some(UnsupportedStatus)
                     else if !healthy then Some(Database) else None
      ensures repo.tables == if err != None then old(repo.tables)
                             else Apply(old(repo.tables), if kind == "firing" then Fire(v) else Event.Resolve(v))
      ensures err == None ==> if kind == "firing" then FiringRecorded(old(repo.tables), repo.tables, v)
                              else ResolutionRecorded(old(repo.tables), repo.tables, v)
    {
      if kind == "firing" {
        if !healthy { return Some(Database); }
        repo.UpsertFiring(v);
      } else if kind == "resolved" {
        if !healthy { return Some(Database); }
        repo.Resolve(v);
      } else {
        return Some(UnsupportedStatus);
      }
      return None;
    }

    /** Alerts are stored one by one; the first error ends the webhook and what was stored before it remains. */
    method Ingest(w: Webhook, clock: nat -> int, healthy: nat -> bool) returns (err: Option<Error>, ghost done: nat)
      modifies repo
      ensures var p := Handled(Answers(lib, w, clock, healthy));
        err == p.err && repo.tables == After(old(repo.tables), p.stored)
      ensures done <= |w.alerts| && (err == None <==> done == |w.alerts|)
      ensures Taken(lib, w, done, clock, old(repo.tables), repo.tables)
      ensures err != None ==> Marked(w.alerts[done])
    {
      ghost var answers := Answers(lib, w, clock, healthy);
      done := 0;
      for n := 0 to |w.alerts|
        invariant done == n && Taken(lib, w, n, clock, old(repo.tables), repo.tables)
        invariant Handled(answers[..n]).err == None
        invariant repo.tables == After(old(repo.tables), Handled(answers[..n]).stored)
      {
        HandledNext(answers, n);
        if answers[n].Stored? { AfterOneMore(old(repo.tables), Handled(answers[..n]).stored, answers[n].event); }
        ghost var before := repo.tables;
        err := IngestOne(w.status, w.alerts[n], clock(n), healthy(n));
        if err.Some? {
          ErrorStays(answers, n + 1);
          return;
        }
        TakesOneMore(lib, w, n, clock, old(repo.tables), before, repo.tables);
        done := n + 1;
      }
      assert answers[..|answers|] == answers;
      return None, done;
    }

    /** Acknowledge, Process and Close: an unknown incident is told apart from one in the wrong status. */
    method TransitionTo(action: Action, id: nat, actor: nat, username: string, now: int)
      returns (r: Result<Incident, ActionError>)
      modifies repo
      ensures repo.tables == Apply(old(repo.tables), Act(action, id, actor, username, now))
      ensures match r
        case Success(row) =>
          Permitted(old(repo.tables), action, id) && Names(repo.tables, id)
          && row == repo.tables.rows[repo.tables.ids[id]]
        case Failure(NotFound) => !Names(old(repo.tables), id)
        case Failure(Conflict) => Names(old(repo.tables), id) && !Permitted(old(repo.tables), action, id)
      ensures r == Failure(NotFound) <==>
        id !in old(repo.tables).ids || old(repo.tables).ids[id] !in old(repo.tables).rows
      ensures r != Failure(NotFound) ==>
        (r.Success? <==> Open(action, old(repo.tables).rows[old(repo.tables).ids[id]].status))
      ensures r.Success? ==> Transitioned(old(repo.tables), repo.tables, action, id, actor, username, now)
      ensures r.Failure? ==> repo.tables == old(repo.tables)
    {
      var found := repo.Get(id);
      if found.Failure? { return Failure(found.error); }
      r := repo.Transition(id, action, actor, now, Entry(actor, username, Name(action), id));
    }
  }
}
