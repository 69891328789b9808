/** Useful outcomes, in the shape of Dafny's conventional wrappers. */
module Wrappers {
  datatype Option<+T> = None | Some(value: T)
  datatype Result<+T, +E> = Success(value: T) | Failure(error: E)
}

/** The rows that the two processes share through MySQL. Times are integer milliseconds. */
module Schema {
  import opened Wrappers

  datatype Status = Active | Disabled

  datatype Host = Host(name: string, address: string, status: Status)

  datatype Service = Service(hostId: nat, name: string, kind: string, target: string, status: Status)

  /** The four numbers a task is configured with; only the interval is in seconds. */
  datatype Policy = Policy(interval: int, timeout: int, maxRetries: int, baseDelay: int)

  datatype Task = Task(
    serviceId: nat, name: string, policy: Policy, status: Status,
    nextRunAt: int, lastScheduledAt: Option<int>)

  datatype ExecutionStatus = Queued | Running | Succeeded | Failed

  /** What one probe reports; an empty string or a zero stands for an absent value. The message is a Go string, one
      character to the byte. */
  datatype ProbeResult = ProbeResult(success: bool, httpStatus: int, errorCode: string, errorMessage: string)

  datatype Execution = Execution(
    taskId: nat, serviceId: nat, probeType: string, target: string, scheduledAt: int,
    status: ExecutionStatus, updatedAt: int, startedAt: Option<int>, finishedAt: Option<int>,
    worker: Option<string>, result: Option<ProbeResult>, attempts: int, duration: int)
  {
    predicate Final() { status == Succeeded || status == Failed }
  }

  /** One state of the database. The next* fields are the AUTO_INCREMENT counters. */
  datatype Tables = Tables(
    hosts: map<nat, Host>, services: map<nat, Service>, tasks: map<nat, Task>,
    executions: map<string, Execution>,
    nextHost: nat, nextService: nat, nextTask: nat)

  const EMPTY_TABLES := Tables(map[], map[], map[], map[], 1, 1, 1)

  /** The connection that every repository object holds. */
  class Database {
    var tables: Tables

    constructor ()
      ensures tables == EMPTY_TABLES
    {
      tables := EMPTY_TABLES;
    }
  }
}
