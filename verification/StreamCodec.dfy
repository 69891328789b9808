/** How an execution message is written to the stream and read back. */
module StreamCodec {
  import opened Wrappers
  import opened Decimal
  import opened Calendar
  import opened Rfc3339

  datatype Message = Message(execution: string, task: nat, scheduledAt: int)

  datatype Error = InvalidMessage | InvalidTime

  /** The fields of one stream entry. */
  function Encode(m: Message): map<string, string> {
    map["execution_id" := m.execution, "task_id" := Digits(m.task), "scheduled_at" := Format(m.scheduledAt)]
  }

  /** What fmt.Sprint makes of a field; a missing one prints as nil. */
  function Printed(values: map<string, string>, key: string): string {
    if key in values then values[key] else "<nil>"
  }

  function Decode(values: map<string, string>): Result<Message, Error> {
    var execution, task := Printed(values, "execution_id"), ParseUint(Printed(values, "task_id"));
    if task.None? || execution == "" then Failure(InvalidMessage)
    else
      var scheduled := Parse(Printed(values, "scheduled_at"));
      if scheduled.None? then Failure(InvalidTime) else Success(Message(execution, task.value, scheduled.value))
  }

  /** The message has what every published message has: an id, a 64-bit task and a time in a four-digit year. */
  predicate Publishable(m: Message) {
    m.execution != "" && m.task < UINT64 && 0 <= DateAt(m.scheduledAt).year < 10000
  }

  lemma TaskReads(task: nat)
    ensures ParseUint(Digits(task)) == if task < UINT64 then Some(task) else None
  {
    ValueOfDigits(task);
  }

  /** A message is read back as it was published if and only if it is publishable, and is otherwise refused:
      none is ever read back as another. */
  lemma DecodeEncode(m: Message)
    ensures Publishable(m) ==> Decode(Encode(m)) == Success(m)
    ensures !Publishable(m) ==> Decode(Encode(m)).Failure?
  {
    TaskReads(m.task);
    ParsesBackIff(m.scheduledAt);
  }

  /** Different messages never look the same on the stream. */
  lemma EncodeIsInjective(m: Message, n: Message)
    requires Encode(m) == Encode(n)
    ensures m == n
  {
    assert Encode(m)["execution_id"] == Encode(n)["execution_id"];
    assert Encode(m)["task_id"] == Encode(n)["task_id"];
    assert Encode(m)["scheduled_at"] == Encode(n)["scheduled_at"];
    ValueOfDigits(m.task);
    ValueOfDigits(n.task);
    FormatIsInjective(m.scheduledAt, n.scheduledAt);
  }

  /** An entry without an execution id is refused exactly when its task or its time cannot be read; otherwise it
      passes the check for an empty id, because a missing field does not print as an empty one. */
  lemma MissingIdIff(values: map<string, string>)
    requires "execution_id" !in values
    ensures Decode(values).Failure?
       <==> ParseUint(Printed(values, "task_id")) == None || Parse(Printed(values, "scheduled_at")) == None
    ensures Decode(values).Success? ==> Decode(values).value.execution == "<nil>"
  {}

  /** An entry without a task or a time is always refused. */
  lemma MissingTaskOrTime(values: map<string, string>)
    requires "task_id" !in values || "scheduled_at" !in values
    ensures Decode(values).Failure?
  {
    NilIsNeither();
  }

  lemma NilIsNeither()
    ensures ParseUint("<nil>") == None && Parse("<nil>") == None
  {
    assert !IsDigit("<nil>"[0]);
    assert !CharAt("<nil>", 4, '-');
    NotPunctuated("<nil>");
  }

  lemma WithoutId(m: Message)
    requires Publishable(m)
    ensures Decode(Encode(m) - {"execution_id"}) == Success(m.(execution := "<nil>"))
  {
    TaskReads(m.task);
    ParsesBackIff(m.scheduledAt);
  }

  lemma WithoutTask(m: Message)
    ensures Decode(Encode(m) - {"task_id"}) == Failure(InvalidMessage)
  {
    NilIsNeither();
  }

  lemma WithoutTime(m: Message)
    requires Publishable(m)
    ensures Decode(Encode(m) - {"scheduled_at"}) == Failure(InvalidTime)
  {
    TaskReads(m.task);
    NilIsNeither();
  }

  /** What becomes of a publishable message that loses one of its fields. */
  lemma MissingFields(m: Message)
    requires Publishable(m)
    ensures Decode(Encode(m) - {"execution_id"}) == Success(m.(execution := "<nil>"))
    ensures Decode(Encode(m) - {"task_id"}) == Failure(InvalidMessage)
    ensures Decode(Encode(m) - {"scheduled_at"}) == Failure(InvalidTime)
  {
    WithoutId(m);
    WithoutTask(m);
    WithoutTime(m);
  }

  class RedisPublisher {
    var stream: seq<map<string, string>>

    /** Publish: XADD, which may fail without adding anything. */
    method Publish(m: Message, reachable: bool) returns (ok: bool)
      modifies this
      ensures ok == reachable
      ensures stream == old(stream) + if ok then [Encode(m)] else []
      ensures ok ==>
        var entry := stream[|stream| - 1];
        && entry.Keys == {"execution_id", "task_id", "scheduled_at"} && entry["execution_id"] == m.execution
        && entry["task_id"] == Digits(m.task) && entry["scheduled_at"] == Format(m.scheduledAt)
      ensures ok && Publishable(m) ==> stream != [] && Decode(stream[|stream| - 1]) == Success(m)
    {
      DecodeEncode(m);
      if reachable { stream := stream + [Encode(m)]; }
      ok := reachable;
    }
  }
}
