/** Hosts, services and tasks: creating, changing and disabling them. */
module Lifecycle {
  import opened Wrappers
  import opened Schema
  import Text

  datatype Error = NotFound | Conflict | HostDisabled | InvalidInput

  /** The parsers and the column collation that this model does not look into. */
  datatype Rules = Rules(
    validAddress: string -> bool, validUrl: string -> bool, validHostPort: string -> bool,
    fold: string -> string)

  datatype HostInput = HostInput(name: string, address: string)
  datatype ServiceInput = ServiceInput(hostId: nat, name: string, kind: string, target: string)
  datatype TaskInput = TaskInput(serviceId: nat, name: string, policy: Policy)

  function Clean(s: string): string { Text.Trim(s, Text.GoSpace) }

  predicate ValidName(name: string) { name != "" && Text.ByteLength(name) <= 100 }

  predicate ValidTarget(rules: Rules, kind: string, target: string) {
    (kind == "http" && rules.validUrl(target)) || (kind == "tcp" && rules.validHostPort(target))
  }

  predicate ValidPolicy(p: Policy) {
    && 10 <= p.interval <= 86400
    && 100 <= p.timeout <= 60000
    && 0 <= p.maxRetries <= 5
    && 100 <= p.baseDelay <= 30000
  }

  predicate ValidTask(input: TaskInput) {
    ValidName(Clean(input.name)) && input.serviceId != 0 && ValidPolicy(input.policy)
  }

  // The unique keys of the three tables, compared under the column collation. `self` is the row being updated.
  predicate HostNameTaken(rules: Rules, db: Tables, name: string, self: Option<nat>) {
    exists id <- db.hosts :: self != Some(id) && rules.fold(db.hosts[id].name) == rules.fold(name)
  }

  predicate ServiceNameTaken(rules: Rules, db: Tables, hostId: nat, name: string, self: Option<nat>) {
    exists id <- db.services :: self != Some(id) && db.services[id].hostId == hostId
                                && rules.fold(db.services[id].name) == rules.fold(name)
  }

  predicate TaskNameTaken(rules: Rules, db: Tables, serviceId: nat, name: string, self: Option<nat>) {
    exists id <- db.tasks :: self != Some(id) && db.tasks[id].serviceId == serviceId
                             && rules.fold(db.tasks[id].name) == rules.fold(name)
  }

  function ActiveServices(db: Tables, hostId: nat): set<nat> {
    set id <- db.services | db.services[id].hostId == hostId && db.services[id].status == Active
  }

  function ActiveTasks(db: Tables, serviceId: nat): set<nat> {
    set id <- db.tasks | db.tasks[id].serviceId == serviceId && db.tasks[id].status == Active
  }

  /** One call of a service method, with the clock reading where the method takes one. */
  datatype Operation =
    | CreateHost(host: HostInput)
    | UpdateHost(id: nat, host: HostInput)
    | DisableHost(id: nat)
    | CreateService(service: ServiceInput)
    | UpdateService(id: nat, service: ServiceInput)
    | DisableService(id: nat)
    | CreateTask(task: TaskInput, now: int)
    | UpdateTask(id: nat, task: TaskInput)
    | DisableTask(id: nat)

  /** The error a call answers with, if any; the checks are in the order the source makes them. */
  function Refusal(rules: Rules, db: Tables, op: Operation): Option<Error> {
    match op
    case CreateHost(input) =>
      if !ValidName(Clean(input.name)) || !rules.validAddress(Clean(input.address)) then Some(InvalidInput)
      else if HostNameTaken(rules, db, Clean(input.name), None) then Some(Conflict)
      else None
    case UpdateHost(id, input) =>
      if id !in db.hosts then Some(NotFound)
      else if !ValidName(Clean(input.name)) || !rules.validAddress(Clean(input.address)) then Some(InvalidInput)
      else if HostNameTaken(rules, db, Clean(input.name), Some(id)) then Some(Conflict)
      else None
    case DisableHost(id) =>
      if id !in db.hosts then Some(NotFound)
      else if ActiveServices(db, id) != {} then Some(Conflict)
      else None
    case CreateService(input) =>
      if input.hostId !in db.hosts then Some(NotFound)
      else if db.hosts[input.hostId].status != Active then Some(HostDisabled)
      else if !ValidName(Clean(input.name)) || !ValidTarget(rules, input.kind, Clean(input.target))
      then Some(InvalidInput)
      else if ServiceNameTaken(rules, db, input.hostId, Clean(input.name), None) then Some(Conflict)
      else None
    case UpdateService(id, input) =>
      if id !in db.services || input.hostId !in db.hosts then Some(NotFound)
      else if db.hosts[input.hostId].status != Active then Some(HostDisabled)
      else if !ValidName(Clean(input.name)) || !ValidTarget(rules, input.kind, Clean(input.target))
      then Some(InvalidInput)
      else if ServiceNameTaken(rules, db, input.hostId, Clean(input.name), Some(id)) then Some(Conflict)
      else None
    case DisableService(id) =>
      if id !in db.services then Some(NotFound)
      else if ActiveTasks(db, id) != {} then Some(Conflict)
      else None
    case CreateTask(input, _) =>
      if input.serviceId !in db.services then Some(NotFound)
      else if db.services[input.serviceId].status != Active then Some(Conflict)
      else if !ValidTask(input) then Some(InvalidInput)
      else if TaskNameTaken(rules, db, input.serviceId, Clean(input.name), None) then Some(Conflict)
      else None
    case UpdateTask(id, input) =>
      if id !in db.tasks || input.serviceId !in db.services then Some(NotFound)
      else if db.services[input.serviceId].status != Active || db.tasks[id].status != Active then Some(Conflict)
      else if !ValidTask(input) then Some(InvalidInput)
      else if TaskNameTaken(rules, db, input.serviceId, Clean(input.name), Some(id)) then Some(Conflict)
      else None
    case DisableTask(id) =>
      if id !in db.tasks then Some(NotFound) else None
  }

  function NewHost(input: HostInput): Host { Host(Clean(input.name), Clean(input.address), Active) }

  function NewService(input: ServiceInput): Service {
    Service(input.hostId, Clean(input.name), input.kind, Clean(input.target), Active)
  }

  function NewTask(input: TaskInput, now: int): Task {
    Task(input.serviceId, Clean(input.name), input.policy, Active, now, None)
  }

  /** The tables after a call that is not refused. */
  function Apply(rules: Rules, db: Tables, op: Operation): Tables
    requires Refusal(rules, db, op) == None
  {
    match op
    case CreateHost(input) => db.(hosts := db.hosts[db.nextHost := NewHost(input)], nextHost := db.nextHost + 1)
    case UpdateHost(id, input) => db.(hosts := db.hosts[id := NewHost(input).(status := db.hosts[id].status)])
    case DisableHost(id) => db.(hosts := db.hosts[id := db.hosts[id].(status := Disabled)])
    case CreateService(input) =>
      db.(services := db.services[db.nextService := NewService(input)], nextService := db.nextService + 1)
    case UpdateService(id, input) =>
      db.(services := db.services[id := NewService(input).(status := db.services[id].status)])
    case DisableService(id) => db.(services := db.services[id := db.services[id].(status := Disabled)])
    case CreateTask(input, now) =>
      db.(tasks := db.tasks[db.nextTask := NewTask(input, now)], nextTask := db.nextTask + 1)
    case UpdateTask(id, input) =>
      db.(tasks := db.tasks[id := db.tasks[id].(
        serviceId := input.serviceId, name := Clean(input.name), policy := input.policy)])
    case DisableTask(id) => db.(tasks := db.tasks[id := db.tasks[id].(status := Disabled)])
  }

  /** The chain at one service: it sits on an existing host, which is active if the service is. */
  ghost predicate ServiceLinked(db: Tables, s: Service) {
    && s.hostId in db.hosts
    && s.kind in {"http", "tcp"}
    && (s.status == Active ==> db.hosts[s.hostId].status == Active)
  }

  /** The chain at one task: it sits on an existing service, which is active if the task is. */
  ghost predicate TaskLinked(db: Tables, t: Task) {
    && t.serviceId in db.services
    && ValidPolicy(t.policy)
    && (t.status == Active ==> db.services[t.serviceId].status == Active)
  }

  /** The referential chain. That the parents exist is also what the foreign keys say; that nothing active
      hangs below something disabled is kept by the service methods alone. */
  ghost predicate Chain(db: Tables) {
    && (forall id <- db.hosts :: id < db.nextHost)
    && (forall id <- db.services :: id < db.nextService && ServiceLinked(db, db.services[id]))
    && (forall id <- db.tasks :: id < db.nextTask && TaskLinked(db, db.tasks[id]))
  }

  lemma ServicesStayLinked(rules: Rules, db: Tables, op: Operation)
    requires Chain(db) && Refusal(rules, db, op) == None
    ensures var db' := Apply(rules, db, op);
      forall id <- db'.services :: id < db'.nextService && ServiceLinked(db', db'.services[id])
  {
    var db' := Apply(rules, db, op);
    forall id <- db'.services ensures id < db'.nextService && ServiceLinked(db', db'.services[id]) {
      if id in db.services { assert ServiceLinked(db, db.services[id]); }
      assert op.DisableHost? ==> id !in ActiveServices(db, op.id);
    }
  }

  lemma TasksStayLinked(rules: Rules, db: Tables, op: Operation)
    requires Chain(db) && Refusal(rules, db, op) == None
    ensures var db' := Apply(rules, db, op);
      forall id <- db'.tasks :: id < db'.nextTask && TaskLinked(db', db'.tasks[id])
  {
    var db' := Apply(rules, db, op);
    forall id <- db'.tasks ensures id < db'.nextTask && TaskLinked(db', db'.tasks[id]) {
      if id in db.tasks { assert TaskLinked(db, db.tasks[id]); }
      assert op.DisableService? ==> id !in ActiveTasks(db, op.id);
    }
  }

  lemma ApplyKeepsChain(rules: Rules, db: Tables, op: Operation)
    requires Chain(db) && Refusal(rules, db, op) == None
    ensures Chain(Apply(rules, db, op))
  {
    ServicesStayLinked(rules, db, op);
    TasksStayLinked(rules, db, op);
  }

  /** No call revives, re-times or removes a row, and none touches an execution. */
  ghost predicate Succeeds(db: Tables, db': Tables) {
    && db'.executions == db.executions
    && db.nextTask <= db'.nextTask
    && (forall id <- db.hosts :: id in db'.hosts &&
           (db.hosts[id].status == Disabled ==> db'.hosts[id].status == Disabled))
    && (forall id <- db.services :: id in db'.services
                                    && (db.services[id].status == Disabled ==> db'.services[id].status == Disabled))
    && (forall id <- db.tasks :: id in db'.tasks && (db.tasks[id].status == Disabled ==> db'.tasks[id] == db.tasks[id]))
    && (forall id <- db.tasks :: db'.tasks[id].nextRunAt == db.tasks[id].nextRunAt
                                 && db'.tasks[id].lastScheduledAt == db.tasks[id].lastScheduledAt)
  }

  lemma HostCallSucceeds(rules: Rules, db: Tables, op: Operation)
    requires Chain(db) && Refusal(rules, db, op) == None && (op.CreateHost? || op.UpdateHost? || op.DisableHost?)
    ensures Succeeds(db, Apply(rules, db, op))
  {}

  lemma ServiceCallSucceeds(rules: Rules, db: Tables, op: Operation)
    requires Chain(db) && Refusal(rules, db, op) == None
    requires op.CreateService? || op.UpdateService? || op.DisableService?
    ensures Succeeds(db, Apply(rules, db, op))
  {}

  lemma TaskCallSucceeds(rules: Rules, db: Tables, op: Operation)
    requires Chain(db) && Refusal(rules, db, op) == None && (op.CreateTask? || op.UpdateTask? || op.DisableTask?)
    ensures Succeeds(db, Apply(rules, db, op))
  {}

  lemma ApplySucceeds(rules: Rules, db: Tables, op: Operation)
    requires Chain(db) && Refusal(rules, db, op) == None
    ensures Succeeds(db, Apply(rules, db, op))
  {
    if op.CreateHost? || op.UpdateHost? || op.DisableHost? {
      HostCallSucceeds(rules, db, op);
    } else if op.CreateService? || op.UpdateService? || op.DisableService? {
      ServiceCallSucceeds(rules, db, op);
    } else {
      TaskCallSucceeds(rules, db, op);
    }
  }

  /** A call keeps the chain, disabled rows, next run times and executions, whether it is refused or not. */
  ghost predicate Kept(before: Tables, after: Tables) { Chain(before) ==> Chain(after) && Succeeds(before, after) }

  lemma ApplyKeeps(rules: Rules, db: Tables, op: Operation)
    ensures if Refusal(rules, db, op) == None then Kept(db, Apply(rules, db, op)) else Kept(db, db)
  {
    if Chain(db) && Refusal(rules, db, op) == None {
      ApplyKeepsChain(rules, db, op);
      ApplySucceeds(rules, db, op);
    }
  }

  /** The guard of DisableHost refuses exactly when disabling the host would break the chain. */
  lemma DisableHostGuard(db: Tables, id: nat)
    requires Chain(db) && id in db.hosts
    ensures ActiveServices(db, id) == {} <==> Chain(db.(hosts := db.hosts[id := db.hosts[id].(status := Disabled)]))
  {
    var db' := db.(hosts := db.hosts[id := db.hosts[id].(status := Disabled)]);
    if ActiveServices(db, id) == {} {
      forall v <- db'.services ensures v < db'.nextService && ServiceLinked(db', db'.services[v]) {
        assert ServiceLinked(db, db.services[v]) && v !in ActiveServices(db, id);
      }
      forall t <- db'.tasks ensures t < db'.nextTask && TaskLinked(db', db'.tasks[t]) {
        assert TaskLinked(db, db.tasks[t]);
      }
    } else {
      var v :| v in ActiveServices(db, id);
      assert !ServiceLinked(db', db'.services[v]);
    }
  }

  /** The guard of DisableMonitoredService refuses exactly when disabling the service would break the chain. */
  lemma DisableServiceGuard(db: Tables, id: nat)
    requires Chain(db) && id in db.services
    ensures ActiveTasks(db, id) == {} <==>
         Chain(db.(services := db.services[id := db.services[id].(status := Disabled)]))
  {
    var db' := db.(services := db.services[id := db.services[id].(status := Disabled)]);
    if ActiveTasks(db, id) == {} {
      forall v <- db'.services ensures v < db'.nextService && ServiceLinked(db', db'.services[v]) {
        assert ServiceLinked(db, db.services[v]);
      }
      forall t <- db'.tasks ensures t < db'.nextTask && TaskLinked(db', db'.tasks[t]) {
        assert TaskLinked(db, db.tasks[t]) && t !in ActiveTasks(db, id);
      }
    } else {
      var t :| t in ActiveTasks(db, id);
      assert !TaskLinked(db', db'.tasks[t]);
    }
  }

  /** What a call leaves behind: the error and unchanged tables, or no error and the tables of Apply. */
  ghost predicate Answered(rules: Rules, before: Tables, op: Operation, after: Tables, err: Option<Error>) {
    && err == Refusal(rules, before, op)
    && after == if err == None then Apply(rules, before, op) else before
  }

  // ---------- what the calls mean, column by column ----------

  /** Nothing has changed but this host, this service or this task, which may be new. */
  ghost predicate OnlyHost(before: Tables, after: Tables, id: nat) {
    && after.services == before.services && after.tasks == before.tasks && after.executions == before.executions
    && after.nextService == before.nextService && after.nextTask == before.nextTask
    && after.hosts.Keys == before.hosts.Keys + {id}
    && forall other <- before.hosts | other != id :: after.hosts[other] == before.hosts[other]
  }

  ghost predicate OnlyService(before: Tables, after: Tables, id: nat) {
    && after.hosts == before.hosts && after.tasks == before.tasks && after.executions == before.executions
    && after.nextHost == before.nextHost && after.nextTask == before.nextTask
    && after.services.Keys == before.services.Keys + {id}
    && forall other <- before.services | other != id :: after.services[other] == before.services[other]
  }

  ghost predicate OnlyTask(before: Tables, after: Tables, id: nat) {
    && after.hosts == before.hosts && after.services == before.services && after.executions == before.executions
    && after.nextHost == before.nextHost && after.nextService == before.nextService
    && after.tasks.Keys == before.tasks.Keys + {id}
    && forall other <- before.tasks | other != id :: after.tasks[other] == before.tasks[other]
  }

  /** A name of 1 to 100 bytes. */
  ghost predicate NameFits(name: string) { name != "" && Text.ByteLength(name) <= 100 }

  /** What the service accepts: trimmed texts that fit, and numbers within their bounds. */
  ghost predicate HostFits(rules: Rules, input: HostInput) {
    NameFits(Clean(input.name)) && rules.validAddress(Clean(input.address))
  }

  ghost predicate ServiceFits(rules: Rules, input: ServiceInput) {
    && NameFits(Clean(input.name))
    && ((input.kind == "http" && rules.validUrl(Clean(input.target)))
        || (input.kind == "tcp" && rules.validHostPort(Clean(input.target))))
  }

  ghost predicate TaskFits(input: TaskInput) {
    && NameFits(Clean(input.name)) && input.serviceId > 0
    && 10 <= input.policy.interval <= 86400 && 100 <= input.policy.timeout <= 60000
    && 0 <= input.policy.maxRetries <= 5 && 100 <= input.policy.baseDelay <= 30000
  }

  ghost predicate OnActiveHost(db: Tables, input: ServiceInput) {
    input.hostId in db.hosts && db.hosts[input.hostId].status == Active
  }

  ghost predicate OnActiveService(db: Tables, input: TaskInput) {
    input.serviceId in db.services && db.services[input.serviceId].status == Active
  }

  /** The row holds the input. */
  ghost predicate HostAs(input: HostInput, row: Host) {
    row.name == Clean(input.name) && row.address == Clean(input.address)
  }

  ghost predicate ServiceAs(input: ServiceInput, row: Service) {
    && row.hostId == input.hostId && row.name == Clean(input.name) && row.kind == input.kind
    && row.target == Clean(input.target)
  }

  ghost predicate TaskAs(input: TaskInput, row: Task) {
    row.serviceId == input.serviceId && row.name == Clean(input.name) && row.policy == input.policy
  }

  /** Another row than `self` has the name. */
  ghost predicate HostClash(rules: Rules, db: Tables, input: HostInput, self: Option<nat>) {
    exists other <- db.hosts :: Some(other) != self && rules.fold(db.hosts[other].name) == rules.fold(Clean(input.name))
  }

  ghost predicate ServiceClash(rules: Rules, db: Tables, input: ServiceInput, self: Option<nat>) {
    exists other <- db.services ::
      Some(other) != self && db.services[other].hostId == input.hostId
      && rules.fold(db.services[other].name) == rules.fold(Clean(input.name))
  }

  ghost predicate TaskClash(rules: Rules, db: Tables, input: TaskInput, self: Option<nat>) {
    exists other <- db.tasks ::
      Some(other) != self && db.tasks[other].serviceId == input.serviceId
      && rules.fold(db.tasks[other].name) == rules.fold(Clean(input.name))
  }

  /** Different rows have different names, up to the column collation: hosts everywhere, services on their host and
      tasks on their service. */
  ghost predicate HostNamesDiffer(rules: Rules, db: Tables) {
    forall i, j | i in db.hosts && j in db.hosts && i != j ::
      rules.fold(db.hosts[i].name) != rules.fold(db.hosts[j].name)
  }

  ghost predicate ServiceNamesDiffer(rules: Rules, db: Tables) {
    forall i, j | i in db.services && j in db.services && i != j && db.services[i].hostId == db.services[j].hostId ::
      rules.fold(db.services[i].name) != rules.fold(db.services[j].name)
  }

  ghost predicate TaskNamesDiffer(rules: Rules, db: Tables) {
    forall i, j | i in db.tasks && j in db.tasks && i != j && db.tasks[i].serviceId == db.tasks[j].serviceId ::
      rules.fold(db.tasks[i].name) != rules.fold(db.tasks[j].name)
  }

  ghost predicate NamesDiffer(rules: Rules, db: Tables) {
    HostNamesDiffer(rules, db) && ServiceNamesDiffer(rules, db) && TaskNamesDiffer(rules, db)
  }

  lemma HostCallKeepsNames(rules: Rules, db: Tables, op: Operation)
    requires Refusal(rules, db, op) == None && (op.CreateHost? || op.UpdateHost? || op.DisableHost?)
    requires HostNamesDiffer(rules, db)
    ensures var db' := Apply(rules, db, op);
      HostNamesDiffer(rules, db') && db'.services == db.services && db'.tasks == db.tasks
  {}

  lemma ServiceCallKeepsNames(rules: Rules, db: Tables, op: Operation)
    requires Refusal(rules, db, op) == None && (op.CreateService? || op.UpdateService? || op.DisableService?)
    requires ServiceNamesDiffer(rules, db)
    ensures var db' := Apply(rules, db, op);
      ServiceNamesDiffer(rules, db') && db'.hosts == db.hosts && db'.tasks == db.tasks
  {}

  lemma TaskCallKeepsNames(rules: Rules, db: Tables, op: Operation)
    requires Refusal(rules, db, op) == None && (op.CreateTask? || op.UpdateTask? || op.DisableTask?)
    requires TaskNamesDiffer(rules, db)
    ensures var db' := Apply(rules, db, op);
      TaskNamesDiffer(rules, db') && db'.hosts == db.hosts && db'.services == db.services
  {}

  /** Every call that is not refused keeps names apart. */
  lemma ApplyKeepsNames(rules: Rules, db: Tables, op: Operation)
    requires Refusal(rules, db, op) == None && NamesDiffer(rules, db)
    ensures NamesDiffer(rules, Apply(rules, db, op))
  {
    if op.CreateHost? || op.UpdateHost? || op.DisableHost? {
      HostCallKeepsNames(rules, db, op);
    } else if op.CreateService? || op.UpdateService? || op.DisableService? {
      ServiceCallKeepsNames(rules, db, op);
    } else {
      TaskCallKeepsNames(rules, db, op);
    }
  }

  class AssetService {
    const rules: Rules
    const db: Database

    constructor (rules: Rules, db: Database)
      ensures this.rules == rules && this.db == db
    {
      this.rules, this.db := rules, db;
    }

    method CreateHost(input: HostInput) returns (err: Option<Error>)
      modifies db
      ensures Answered(rules, old(db.tables), Operation.CreateHost(input), db.tables, err)
      ensures err != None ==> db.tables == old(db.tables)
      ensures err == Some(InvalidInput) <==> !HostFits(rules, input)
      ensures err == Some(Conflict) <==>
        HostFits(rules, input) && HostClash(rules, old(db.tables), input, None)
      ensures err == None ==>
        var id := old(db.tables).nextHost;
        && OnlyHost(old(db.tables), db.tables, id) && db.tables.nextHost == id + 1
        && HostAs(input, db.tables.hosts[id]) && db.tables.hosts[id].status == Active
      ensures Kept(old(db.tables), db.tables)
    {
      ApplyKeeps(rules, db.tables, Operation.CreateHost(input));
      var name, address := Clean(input.name), Clean(input.address);
      if !ValidName(name) || !rules.validAddress(address) { return Some(InvalidInput); }
      if HostNameTaken(rules, db.tables, name, None) { return Some(Conflict); }
      var id := db.tables.nextHost;
      db.tables := db.tables.(hosts := db.tables.hosts[id := Host(name, address, Active)], nextHost := id + 1);
      return None;
    }

    method UpdateHost(id: nat, input: HostInput) returns (err: Option<Error>)
      modifies db
      ensures Answered(rules, old(db.tables), Operation.UpdateHost(id, input), db.tables, err)
      ensures err == None ==> db.tables.hosts[id].status == old(db.tables).hosts[id].status
      ensures err != None ==> db.tables == old(db.tables)
      ensures err == Some(NotFound) <==> id !in old(db.tables).hosts
      ensures err == Some(InvalidInput) <==> id in old(db.tables).hosts && !HostFits(rules, input)
      ensures err == Some(Conflict) <==>
        id in old(db.tables).hosts && HostFits(rules, input) && HostClash(rules, old(db.tables), input, Some(id))
      ensures err == None ==>
        && OnlyHost(old(db.tables), db.tables, id) && db.tables.nextHost == old(db.tables).nextHost
        && HostAs(input, db.tables.hosts[id])
      ensures Kept(old(db.tables), db.tables)
    {
      ApplyKeeps(rules, db.tables, Operation.UpdateHost(id, input));
      if id !in db.tables.hosts { return Some(NotFound); }
      var name, address := Clean(input.name), Clean(input.address);
      if !ValidName(name) || !rules.validAddress(address) { return Some(InvalidInput); }
      if HostNameTaken(rules, db.tables, name, Some(id)) { return Some(Conflict); }
      var row := db.tables.hosts[id];
      db.tables := db.tables.(hosts := db.tables.hosts[id := row.(name := name, address := address)]);
      return None;
    }

    method DisableHost(id: nat) returns (err: Option<Error>)
      modifies db
      ensures Answered(rules, old(db.tables), Operation.DisableHost(id), db.tables, err)
      ensures err == None ==> ActiveServices(db.tables, id) == {} && db.tables.hosts[id].status == Disabled
      ensures err != None ==> db.tables == old(db.tables)
      ensures err == Some(NotFound) <==> id !in old(db.tables).hosts
      ensures err == Some(Conflict) <==>
        && id in old(db.tables).hosts
        && exists v <- old(db.tables).services ::
             old(db.tables).services[v].hostId == id && old(db.tables).services[v].status == Active
      ensures err == None ==>
        && OnlyHost(old(db.tables), db.tables, id) && db.tables.nextHost == old(db.tables).nextHost
        && db.tables.hosts[id].name == old(db.tables).hosts[id].name
        && db.tables.hosts[id].address == old(db.tables).hosts[id].address
      ensures Kept(old(db.tables), db.tables)
    {
      ApplyKeeps(rules, db.tables, Operation.DisableHost(id));
      if id !in db.tables.hosts { return Some(NotFound); }
      assert forall v <- db.tables.services ::
        v in ActiveServices(db.tables, id)
        <==> db.tables.services[v].hostId == id && db.tables.services[v].status == Active;
      var count := |ActiveServices(db.tables, id)|;
      if count > 0 { return Some(Conflict); }
      var row := db.tables.hosts[id];
      db.tables := db.tables.(hosts := db.tables.hosts[id := row.(status := Disabled)]);
      return None;
    }

    method CreateMonitoredService(input: ServiceInput) returns (err: Option<Error>)
      modifies db
      ensures Answered(rules, old(db.tables), Operation.CreateService(input), db.tables, err)
      ensures err == None ==> db.tables.hosts[input.hostId].status == Active && input.kind in {"http", "tcp"}
      ensures err != None ==> db.tables == old(db.tables)
      ensures err == Some(NotFound) <==> input.hostId !in old(db.tables).hosts
      ensures err == Some(HostDisabled) <==>
        input.hostId in old(db.tables).hosts && old(db.tables).hosts[input.hostId].status == Disabled
      ensures err == Some(InvalidInput) <==> OnActiveHost(old(db.tables), input) && !ServiceFits(rules, input)
      ensures err == Some(Conflict) <==>
        && OnActiveHost(old(db.tables), input) && ServiceFits(rules, input)
        && ServiceClash(rules, old(db.tables), input, None)
      ensures err == None ==>
        var id := old(db.tables).nextService;
        && OnlyService(old(db.tables), db.tables, id) && db.tables.nextService == id + 1
        && ServiceAs(input, db.tables.services[id]) && db.tables.services[id].status == Active
      ensures Kept(old(db.tables), db.tables)
    {
      ApplyKeeps(rules, db.tables, Operation.CreateService(input));
      if input.hostId !in db.tables.hosts { return Some(NotFound); }
      if db.tables.hosts[input.hostId].status != Active { return Some(HostDisabled); }
      var name, target := Clean(input.name), Clean(input.target);
      if !ValidName(name) || !ValidTarget(rules, input.kind, target) { return Some(InvalidInput); }
      if ServiceNameTaken(rules, db.tables, input.hostId, name, None) { return Some(Conflict); }
      var id := db.tables.nextService;
      var row := Service(input.hostId, name, input.kind, target, Active);
      db.tables := db.tables.(services := db.tables.services[id := row], nextService := id + 1);
      return None;
    }

    method UpdateMonitoredService(id: nat, input: ServiceInput) returns (err: Option<Error>)
      modifies db
      ensures Answered(rules, old(db.tables), Operation.UpdateService(id, input), db.tables, err)
      ensures err == None ==>
        db.tables.services[id].hostId == input.hostId && db.tables.hosts[input.hostId].status == Active
        && db.tables.services[id].status == old(db.tables).services[id].status
      ensures err != None ==> db.tables == old(db.tables)
      ensures err == Some(NotFound) <==> id !in old(db.tables).services || input.hostId !in old(db.tables).hosts
      ensures err == Some(HostDisabled) <==>
        && id in old(db.tables).services && input.hostId in old(db.tables).hosts
        && old(db.tables).hosts[input.hostId].status == Disabled
      ensures err == Some(InvalidInput) <==>
        id in old(db.tables).services && OnActiveHost(old(db.tables), input) && !ServiceFits(rules, input)
      ensures err == Some(Conflict) <==>
        && id in old(db.tables).services && OnActiveHost(old(db.tables), input) && ServiceFits(rules, input)
        && ServiceClash(rules, old(db.tables), input, Some(id))
      ensures err == None ==>
        && OnlyService(old(db.tables), db.tables, id) && db.tables.nextService == old(db.tables).nextService
        && ServiceAs(input, db.tables.services[id])
      ensures Kept(old(db.tables), db.tables)
    {
      ApplyKeeps(rules, db.tables, Operation.UpdateService(id, input));
      if id !in db.tables.services || input.hostId !in db.tables.hosts { return Some(NotFound); }
      if db.tables.hosts[input.hostId].status != Active { return Some(HostDisabled); }
      var name, target := Clean(input.name), Clean(input.target);
      if !ValidName(name) || !ValidTarget(rules, input.kind, target) { return Some(InvalidInput); }
      if ServiceNameTaken(rules, db.tables, input.hostId, name, Some(id)) { return Some(Conflict); }
      var row := db.tables.services[id].(hostId := input.hostId, name := name, kind := input.kind, target := target);
      db.tables := db.tables.(services := db.tables.services[id := row]);
      return None;
    }

    method DisableMonitoredService(id: nat) returns (err: Option<Error>)
      modifies db
      ensures Answered(rules, old(db.tables), Operation.DisableService(id), db.tables, err)
      ensures err == None ==> ActiveTasks(db.tables, id) == {} && db.tables.services[id].status == Disabled
      ensures err != None ==> db.tables == old(db.tables)
      ensures err == Some(NotFound) <==> id !in old(db.tables).services
      ensures err == Some(Conflict) <==>
        && id in old(db.tables).services
        && exists t <- old(db.tables).tasks ::
             old(db.tables).tasks[t].serviceId == id && old(db.tables).tasks[t].status == Active
      ensures err == None ==>
        && OnlyService(old(db.tables), db.tables, id) && db.tables.nextService == old(db.tables).nextService
        && db.tables.services[id].(status := Active) == old(db.tables).services[id].(status := Active)
      ensures Kept(old(db.tables), db.tables)
    {
      ApplyKeeps(rules, db.tables, Operation.DisableService(id));
      if id !in db.tables.services { return Some(NotFound); }
      assert forall t <- db.tables.tasks ::
        t in ActiveTasks(db.tables, id)
        <==> db.tables.tasks[t].serviceId == id && db.tables.tasks[t].status == Active;
      var count := |ActiveTasks(db.tables, id)|;
      if count > 0 { return Some(Conflict); }
      var row := db.tables.services[id];
      db.tables := db.tables.(services := db.tables.services[id := row.(status := Disabled)]);
      return None;
    }
  }

  class TaskService {
    const rules: Rules
    const db: Database

    constructor (rules: Rules, db: Database)
      ensures this.rules == rules && this.db == db
    {
      this.rules, this.db := rules, db;
    }

    method Create(input: TaskInput, now: int) returns (err: Option<Error>)
      modifies db
      ensures Answered(rules, old(db.tables), CreateTask(input, now), db.tables, err)
      ensures err == None ==> db.tables.services[input.serviceId].status == Active && ValidPolicy(input.policy)
      ensures err != None ==> db.tables == old(db.tables)
      ensures err == Some(NotFound) <==> input.serviceId !in old(db.tables).services
      ensures err == Some(InvalidInput) <==> OnActiveService(old(db.tables), input) && !TaskFits(input)
      ensures err == Some(Conflict) <==>
        && input.serviceId in old(db.tables).services
        && (OnActiveService(old(db.tables), input) ==>
              TaskFits(input) && TaskClash(rules, old(db.tables), input, None))
      ensures err == None ==>
        var id := old(db.tables).nextTask;
        && OnlyTask(old(db.tables), db.tables, id) && db.tables.nextTask == id + 1
        && TaskAs(input, db.tables.tasks[id]) && db.tables.tasks[id].status == Active
        && db.tables.tasks[id].nextRunAt == now && db.tables.tasks[id].lastScheduledAt == None
      ensures Kept(old(db.tables), db.tables)
    {
      ApplyKeeps(rules, db.tables, CreateTask(input, now));
      if input.serviceId !in db.tables.services { return Some(NotFound); }
      if db.tables.services[input.serviceId].status != Active { return Some(Conflict); }
      if !ValidTask(input) { return Some(InvalidInput); }
      var name := Clean(input.name);
      if TaskNameTaken(rules, db.tables, input.serviceId, name, None) { return Some(Conflict); }
      var id := db.tables.nextTask;
      var row := Task(input.serviceId, name, input.policy, Active, now, None);
      db.tables := db.tables.(tasks := db.tables.tasks[id := row], nextTask := id + 1);
      return None;
    }

    method Update(id: nat, input: TaskInput) returns (err: Option<Error>)
      modifies db
      ensures Answered(rules, old(db.tables), UpdateTask(id, input), db.tables, err)
      ensures err == None ==>
        db.tables.services[input.serviceId].status == Active
        && db.tables.tasks[id].nextRunAt == old(db.tables).tasks[id].nextRunAt
      ensures err != None ==> db.tables == old(db.tables)
      ensures err == Some(NotFound) <==> id !in old(db.tables).tasks || input.serviceId !in old(db.tables).services
      ensures err == Some(InvalidInput) <==>
        && id in old(db.tables).tasks && old(db.tables).tasks[id].status == Active
        && OnActiveService(old(db.tables), input) && !TaskFits(input)
      ensures err == Some(Conflict) <==>
        && id in old(db.tables).tasks && input.serviceId in old(db.tables).services
        && (OnActiveService(old(db.tables), input) && old(db.tables).tasks[id].status == Active ==>
              TaskFits(input) && TaskClash(rules, old(db.tables), input, Some(id)))
      ensures err == None ==>
        && OnlyTask(old(db.tables), db.tables, id) && db.tables.nextTask == old(db.tables).nextTask
        && TaskAs(input, db.tables.tasks[id]) && db.tables.tasks[id].status == Active
        && db.tables.tasks[id].lastScheduledAt == old(db.tables).tasks[id].lastScheduledAt
      ensures Kept(old(db.tables), db.tables)
    {
      ApplyKeeps(rules, db.tables, UpdateTask(id, input));
      if id !in db.tables.tasks { return Some(NotFound); }
      if input.serviceId !in db.tables.services { return Some(NotFound); }
      var current, service := db.tables.tasks[id], db.tables.services[input.serviceId];
      if service.status != Active || current.status != Active { return Some(Conflict); }
      if !ValidTask(input) { return Some(InvalidInput); }
      var name := Clean(input.name);
      if TaskNameTaken(rules, db.tables, input.serviceId, name, Some(id)) { return Some(Conflict); }
      var row := current.(serviceId := input.serviceId, name := name, policy := input.policy);
      db.tables := db.tables.(tasks := db.tables.tasks[id := row]);
      return None;
    }

    method Disable(id: nat) returns (err: Option<Error>)
      modifies db
      ensures Answered(rules, old(db.tables), DisableTask(id), db.tables, err)
      ensures err == None ==> db.tables.tasks[id].status == Disabled
      ensures err != None ==> db.tables == old(db.tables)
      ensures err == None <==> id in old(db.tables).tasks
      ensures err != None ==> err == Some(NotFound)
      ensures err == None ==>
        && OnlyTask(old(db.tables), db.tables, id) && db.tables.nextTask == old(db.tables).nextTask
        && db.tables.tasks[id].(status := Active) == old(db.tables).tasks[id].(status := Active)
      ensures Kept(old(db.tables), db.tables)
    {
      ApplyKeeps(rules, db.tables, DisableTask(id));
      if id !in db.tables.tasks { return Some(NotFound); }
      var row := db.tables.tasks[id];
      db.tables := db.tables.(tasks := db.tables.tasks[id := row.(status := Disabled)]);
      return None;
    }
  }
}
