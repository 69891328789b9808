/** Alerts as Alertmanager posts them, incidents as they are stored, and what makes two alerts the same incident. */
module Identity {
  import opened Wrappers
  import opened Text
  import opened Decimal
  import opened Calendar
  import opened Rfc3339

  datatype Status = Firing | Acknowledged | Processing | Resolved | Closed

  /** Instants are nanoseconds since the beginning of year 0. */
  datatype Alert = Alert(
    status: string, labels: map<string, string>, annotations: map<string, string>,
    startsAt: int, endsAt: int, fingerprint: string)

  datatype Incident = Incident(
    fingerprint: string, external: Option<string>, alertName: string, serviceId: nat, taskId: nat, probeType: string,
    severity: string, summary: string, description: string, status: Status,
    firedAt: int, lastSeenAt: int, resolvedAt: Option<int>, closedAt: Option<int>,
    acknowledgedAt: Option<int>, processingAt: Option<int>,
    acknowledgedBy: Option<nat>, processingBy: Option<nat>, closedBy: Option<nat>, occurrences: nat)

  /** An incident and the key it is stored under. */
  datatype Keyed = Keyed(key: string, incident: Incident)

  datatype Error = InvalidService | InvalidTask | MissingFields | UnsupportedStatus | Database

  /** Go's zero time: the beginning of year 1. */
  const ZERO_TIME := 366 * DAY

  /** The two functions of the libraries: SHA-256 in hexadecimal, and the lower case of a character that is not
      ASCII. */
  datatype Library = Library(sum: string -> string, lower: char -> char)

  function Label(labels: map<string, string>, key: string): string { if key in labels then labels[key] else "" }

  function LowerChar(lib: Library, c: char): char {
    if 'A' <= c <= 'Z' then c - 'A' + 'a' else if c < '\U{0080}' then c else lib.lower(c)
  }

  /** strings.ToLower. */
  function ToLower(lib: Library, s: string): (r: string)
    ensures |r| == |s|
  {
    seq(|s|, i requires 0 <= i < |s| => LowerChar(lib, s[i]))
  }

  /** What an alert is identified by, apart from when it started. */
  datatype Source = Source(name: string, service: nat, task: nat, probe: string)

  function SourceOf(lib: Library, alert: Alert): Option<Source> {
    var service, task := ParseUint(Label(alert.labels, "service_id")), ParseUint(Label(alert.labels, "task_id"));
    if service.None? || task.None? then None
    else Some(Source(ToLower(lib, Trim(Label(alert.labels, "alertname"), GoSpace)), service.value, task.value,
                     ToLower(lib, Trim(Label(alert.labels, "probe_type"), GoSpace))))
  }

  function Canonical(s: Source): string {
    "alertname=" + s.name + "\nservice_id=" + Digits(s.service) + "\ntask_id=" + Digits(s.task) +
    "\nprobe_type=" + s.probe
  }

  function EventKey(lib: Library, fingerprint: string, startsAt: int): string {
    lib.sum(fingerprint + "\n" + Format(startsAt))
  }

  function NonEmpty(s: string): Option<string> { if s == "" then None else Some(s) }

  function Normalize(lib: Library, alert: Alert, now: int): Result<Keyed, Error> {
    var labels := alert.labels;
    var name, probe := Trim(Label(labels, "alertname"), GoSpace), Trim(Label(labels, "probe_type"), GoSpace);
    var service, task := ParseUint(Label(labels, "service_id")), ParseUint(Label(labels, "task_id"));
    if service.None? || service.value == 0 then Failure(InvalidService)
    else if task.None? || task.value == 0 then Failure(InvalidTask)
    else if name == "" || probe == "" || alert.startsAt == ZERO_TIME then Failure(MissingFields)
    else
      var fingerprint := lib.sum(Canonical(Source(ToLower(lib, name), service.value, task.value, ToLower(lib, probe))));
      Success(Keyed(EventKey(lib, fingerprint, alert.startsAt),
        Incident(fingerprint, NonEmpty(Trim(alert.fingerprint, GoSpace)), name, service.value, task.value, probe,
                 Label(labels, "severity"),
                 Label(alert.annotations, "summary"), Label(alert.annotations, "description"),
                 Firing, alert.startsAt, if alert.endsAt == ZERO_TIME then now else alert.endsAt,
                 None, None, None, None, None, None, None, 1)))
  }

  /** The label is a positive decimal number of 64 bits. */
  ghost predicate Numbered(labels: map<string, string>, key: string, n: nat) {
    key in labels && ParseUint(labels[key]) == Some(n) && n > 0
  }

  /** The label is there, and more than white space. */
  ghost predicate Visible(labels: map<string, string>, key: string) {
    key in labels && Trim(labels[key], GoSpace) != ""
  }

  /** An alert is refused for its service, then for its task, then for a missing name, probe type or start. */
  lemma RefusedIff(lib: Library, alert: Alert, now: int)
    ensures var r, labels := Normalize(lib, alert, now), alert.labels;
      && (r == Failure(InvalidService) <==> !exists n: nat :: Numbered(labels, "service_id", n))
      && (r == Failure(InvalidTask) <==>
            (exists n: nat :: Numbered(labels, "service_id", n)) && !exists n: nat :: Numbered(labels, "task_id", n))
      && (r.Success? <==>
            && (exists n: nat :: Numbered(labels, "service_id", n)) && (exists n: nat :: Numbered(labels, "task_id", n))
            && Visible(labels, "alertname") && Visible(labels, "probe_type") && alert.startsAt != ZERO_TIME)
      && (r.Failure? ==> r.error in {InvalidService, InvalidTask, MissingFields})
  {
    BlankIsNothing();
    var service, task := Label(alert.labels, "service_id"), Label(alert.labels, "task_id");
    if ParseUint(service).Some? && ParseUint(service).value > 0 {
      assert Numbered(alert.labels, "service_id", ParseUint(service).value);
    }
    if ParseUint(task).Some? && ParseUint(task).value > 0 {
      assert Numbered(alert.labels, "task_id", ParseUint(task).value);
    }
  }

  lemma BlankIsNothing()
    ensures ParseUint("") == None && Trim("", GoSpace) == ""
  {}

  /** Where each column of an accepted alert comes from. Two texts identify it: the fingerprint is the digest of the
      name, the service, the task and the probe type, and the key that of the fingerprint and the start. */
  lemma ColumnsOf(lib: Library, alert: Alert, now: int)
    requires Normalize(lib, alert, now).Success?
    ensures var row, labels := Normalize(lib, alert, now).value.incident, alert.labels;
      && Numbered(labels, "service_id", row.serviceId) && Numbered(labels, "task_id", row.taskId)
      && Visible(labels, "alertname") && row.alertName == Trim(labels["alertname"], GoSpace)
      && Visible(labels, "probe_type") && row.probeType == Trim(labels["probe_type"], GoSpace)
      && row.severity == (if "severity" in labels then labels["severity"] else "")
      && row.summary == (if "summary" in alert.annotations then alert.annotations["summary"] else "")
      && row.description == (if "description" in alert.annotations then alert.annotations["description"] else "")
      && row.external == (var x := Trim(alert.fingerprint, GoSpace); if x == "" then None else Some(x))
      && row.firedAt == alert.startsAt && row.lastSeenAt == (if alert.endsAt == 366 * DAY then now else alert.endsAt)
    ensures var v := Normalize(lib, alert, now).value; var row := v.incident;
      && row.fingerprint
         == lib.sum("alertname=" + ToLower(lib, row.alertName) + "\nservice_id=" + Digits(row.serviceId)
                    + "\ntask_id=" + Digits(row.taskId) + "\nprobe_type=" + ToLower(lib, row.probeType))
      && v.key == lib.sum(row.fingerprint + "\n" + Format(alert.startsAt))
    ensures var row := Normalize(lib, alert, now).value.incident;
      && row.status == Firing && row.occurrences == 1 && row.resolvedAt == None && row.closedAt == None
      && row.acknowledgedAt == None && row.processingAt == None
      && row.acknowledgedBy == None && row.processingBy == None && row.closedBy == None
  {
    BlankIsNothing();
  }

  // ---------- the canonical text ----------

  predicate OneLine(s: string) { '\n' !in s }

  /** Lines in front of the same break are the same. */
  lemma FirstBreak(a: string, x: string, b: string, y: string)
    requires a + "\n" + x == b + "\n" + y && OneLine(a) && OneLine(b)
    ensures a == b && x == y
  {
    var s := a + "\n" + x;
    assert s[|a|] == '\n' && s[|b|] == '\n';
    assert forall i | 0 <= i < |a| :: s[i] == a[i];
    assert forall i | 0 <= i < |b| :: s[i] == b[i];
    assert |a| == |b|;
    assert s[..|a|] == a && s[..|b|] == b;
    assert s[|a| + 1..] == x && s[|b| + 1..] == y;
  }

  lemma LastBreak(a: string, x: string, b: string, y: string)
    requires a + "\n" + x == b + "\n" + y && OneLine(x) && OneLine(y)
    ensures a == b && x == y
  {
    var s := a + "\n" + x;
    assert s[|a|] == '\n' && s[|b|] == '\n';
    assert forall i | |a| < i < |s| :: s[i] == x[i - |a| - 1];
    assert forall i | |b| < i < |s| :: s[i] == y[i - |b| - 1];
    assert |a| == |b|;
    assert s[..|a|] == a && s[..|b|] == b;
    assert s[|a| + 1..] == x && s[|b| + 1..] == y;
  }

  lemma AfterPrefix(prefix: string, a: string, b: string)
    requires prefix + a == prefix + b
    ensures a == b
  {
    assert (prefix + a)[|prefix|..] == a && (prefix + b)[|prefix|..] == b;
  }

  function NameLine(s: Source): string { "alertname=" + s.name }

  function NumberLine(tag: string, n: nat): string { tag + Digits(n) }

  function ProbeLine(s: Source): string { "probe_type=" + s.probe }

  lemma NextLine(x: string, tag: string, y: string, breakAndTag: string)
    requires breakAndTag == "\n" + tag
    ensures x + breakAndTag + y == x + "\n" + (tag + y)
  {}

  lemma CanonicalByLine(s: Source)
    ensures Canonical(s) == NameLine(s) + "\n" + NumberLine("service_id=", s.service) + "\n"
      + NumberLine("task_id=", s.task) + "\n" + ProbeLine(s)
  {
    var x := NameLine(s) + "\n" + NumberLine("service_id=", s.service);
    NextLine(NameLine(s), "service_id=", Digits(s.service), "\nservice_id=");
    NextLine(x, "task_id=", Digits(s.task), "\ntask_id=");
    NextLine(x + "\n" + NumberLine("task_id=", s.task), "probe_type=", s.probe, "\nprobe_type=");
  }

  lemma FourLines(a: string, b: string, c: string, d: string)
    ensures a + "\n" + b + "\n" + c + "\n" + d == a + "\n" + (b + "\n" + (c + "\n" + d))
  {
    assert a + "\n" + b + "\n" + c + "\n" + d == a + "\n" + b + "\n" + (c + "\n" + d);
  }

  lemma CanonicalLines(s: Source)
    ensures Canonical(s) == NameLine(s) + "\n"
      + (NumberLine("service_id=", s.service) + "\n" + (NumberLine("task_id=", s.task) + "\n" + ProbeLine(s)))
    ensures Canonical(s) == NameLine(s) + "\n" + NumberLine("service_id=", s.service) + "\n"
      + NumberLine("task_id=", s.task) + "\n" + ProbeLine(s)
  {
    CanonicalByLine(s);
    FourLines(NameLine(s), NumberLine("service_id=", s.service), NumberLine("task_id=", s.task), ProbeLine(s));
  }

  lemma NumberLineReads(tag: string, n: nat, m: nat)
    requires OneLine(tag)
    ensures OneLine(NumberLine(tag, n)) && (NumberLine(tag, n) == NumberLine(tag, m) ==> n == m)
  {
    ValueOfDigits(n);
    ValueOfDigits(m);
    if NumberLine(tag, n) == NumberLine(tag, m) { AfterPrefix(tag, Digits(n), Digits(m)); }
  }

  /** The canonical text determines its four parts when both names, or both probe types, are single lines. */
  lemma CanonicalIsInjective(s: Source, t: Source)
    requires Canonical(s) == Canonical(t)
    requires (OneLine(s.name) && OneLine(t.name)) || (OneLine(s.probe) && OneLine(t.probe))
    ensures s == t
  {
    CanonicalLines(s);
    CanonicalLines(t);
    NumberLineReads("service_id=", s.service, t.service);
    NumberLineReads("service_id=", t.service, s.service);
    NumberLineReads("task_id=", s.task, t.task);
    NumberLineReads("task_id=", t.task, s.task);
    var b, c := NumberLine("service_id=", s.service), NumberLine("task_id=", s.task);
    var b', c' := NumberLine("service_id=", t.service), NumberLine("task_id=", t.task);
    if OneLine(s.name) && OneLine(t.name) {
      FromTheFront(NameLine(s), b, c, ProbeLine(s), NameLine(t), b', c', ProbeLine(t));
    } else {
      FromTheBack(NameLine(s), b, c, ProbeLine(s), NameLine(t), b', c', ProbeLine(t));
    }
    AfterPrefix("alertname=", s.name, t.name);
    AfterPrefix("probe_type=", s.probe, t.probe);
  }

  lemma FromTheFront(
    a: string, b: string, c: string, d: string, a': string, b': string, c': string, d': string)
    requires a + "\n" + (b + "\n" + (c + "\n" + d)) == a' + "\n" + (b' + "\n" + (c' + "\n" + d'))
    requires OneLine(a) && OneLine(b) && OneLine(c) && OneLine(a') && OneLine(b') && OneLine(c')
    ensures a == a' && b == b' && c == c' && d == d'
  {
    FirstBreak(a, b + "\n" + (c + "\n" + d), a', b' + "\n" + (c' + "\n" + d'));
    FirstBreak(b, c + "\n" + d, b', c' + "\n" + d');
    FirstBreak(c, d, c', d');
  }

  lemma FromTheBack(
    a: string, b: string, c: string, d: string, a': string, b': string, c': string, d': string)
    requires a + "\n" + b + "\n" + c + "\n" + d == a' + "\n" + b' + "\n" + c' + "\n" + d'
    requires OneLine(b) && OneLine(c) && OneLine(d) && OneLine(b') && OneLine(c') && OneLine(d')
    ensures a == a' && b == b' && c == c' && d == d'
  {
    LastBreak(a + "\n" + b + "\n" + c, d, a' + "\n" + b' + "\n" + c', d');
    LastBreak(a + "\n" + b, c, a' + "\n" + b', c');
    LastBreak(a, b, a', b');
  }

  /** What stands between the name and the probe type. */
  function Middle(service: nat, task: nat): string {
    "\nservice_id=" + Digits(service) + "\ntask_id=" + Digits(task) + "\nprobe_type="
  }

  lemma AroundMiddle(s: Source)
    ensures Canonical(s) == "alertname=" + s.name + Middle(s.service, s.task) + s.probe
  {
    var f := "alertname=" + s.name;
    var numbers := "\nservice_id=" + Digits(s.service) + "\ntask_id=" + Digits(s.task);
    assert f + "\nservice_id=" + Digits(s.service) + "\ntask_id=" + Digits(s.task) == f + numbers;
    assert f + numbers + "\nprobe_type=" == f + Middle(s.service, s.task);
  }

  lemma FiveParts(p: string, a: string, x: string, b: string, y: string, c: string)
    ensures p + (a + x + b) + y + c == p + a + x + (b + y + c)
  {}

  /** With line breaks in one name and in the other probe type, different sources share their text, whatever the
      numbers. */
  lemma LineBreaksCollide(a: string, b: string, c: string, service: nat, task: nat, service': nat, task': nat)
    ensures Canonical(Source(a + Middle(service, task) + b, service', task', c))
         == Canonical(Source(a, service, task, b + Middle(service', task') + c))
  {
    AroundMiddle(Source(a + Middle(service, task) + b, service', task', c));
    AroundMiddle(Source(a, service, task, b + Middle(service', task') + c));
    FiveParts("alertname=", a, Middle(service, task), b, Middle(service', task'), c);
  }

  // ---------- exactly which sources share their text ----------

  /** The name of `s` goes on into the other lines of `t`, and the probe type of `t` takes over where it ends. */
  ghost predicate Overlaps(s: Source, t: Source) {
    exists b: string :: OverlapsBy(s, t, b)
  }

  predicate OverlapsBy(s: Source, t: Source, b: string) {
    s.name == t.name + Middle(t.service, t.task) + b && t.probe == b + Middle(s.service, s.task) + s.probe
  }

  /** No line of the text starts with an s, and the text does not end with a line break. */
  predicate NoServiceLine(x: string) { forall i | 0 <= i < |x| && x[i] == '\n' :: i + 1 < |x| && x[i + 1] != 's' }

  lemma NoServiceLines(x: string, y: string)
    requires NoServiceLine(x) && NoServiceLine(y)
    ensures NoServiceLine(x + y)
  {
    forall i | 0 <= i < |x + y| && (x + y)[i] == '\n' ensures i + 1 < |x + y| && (x + y)[i + 1] != 's' {
      if i < |x| { assert x[i] == '\n'; } else { assert y[i - |x|] == '\n'; }
    }
  }

  function AfterFirstBreak(service: nat, task: nat): string {
    "service_id=" + Digits(service) + ("\ntask_id=" + Digits(task)) + "\nprobe_type="
  }

  lemma MiddleIs(service: nat, task: nat)
    ensures Middle(service, task) == "\n" + AfterFirstBreak(service, task)
  {
    assert "\nservice_id=" == "\n" + "service_id=";
    var x, y := Digits(service), "\ntask_id=" + Digits(task);
    assert "\nservice_id=" + x + "\ntask_id=" + Digits(task) == "\nservice_id=" + x + y;
    assert "\n" + ("service_id=" + x + y + "\nprobe_type=") == "\nservice_id=" + x + y + "\nprobe_type=";
  }

  lemma OnlyOneServiceLine(service: nat, task: nat)
    ensures NoServiceLine(AfterFirstBreak(service, task))
  {
    assert NoServiceLine(Digits(service)) && NoServiceLine(Digits(task));
    NoServiceLines("service_id=", Digits(service));
    NoServiceLines("\ntask_id=", Digits(task));
    NoServiceLines("service_id=" + Digits(service), "\ntask_id=" + Digits(task));
    NoServiceLines("service_id=" + Digits(service) + ("\ntask_id=" + Digits(task)), "\nprobe_type=");
  }

  lemma MiddleStarts(service: nat, task: nat)
    ensures var m := Middle(service, task); |m| > 1 && m[0] == '\n' && m[1] == 's'
  {
    MiddleIs(service, task);
  }

  /** Inside it, a line break is never followed by an s. */
  lemma InnerBreaks(service: nat, task: nat, o: nat)
    requires 0 < o < |Middle(service, task)| && Middle(service, task)[o] == '\n'
    ensures o + 1 < |Middle(service, task)| && Middle(service, task)[o + 1] != 's'
  {
    MiddleIs(service, task);
    OnlyOneServiceLine(service, task);
    var rest := AfterFirstBreak(service, task);
    assert rest[o - 1] == '\n';
  }

  lemma BreakInside(x: string, b: string, n: string, q: string, i: nat)
    requires x == b + n + q && i < |x|
    requires forall o | 0 < o < |n| && n[o] == '\n' :: o + 1 < |n| && n[o + 1] != 's'
    ensures |b| < i < |b| + |n| && x[i] == '\n' ==> i + 1 < |x| && x[i + 1] != 's'
  {
    if |b| < i < |b| + |n| { assert x[i] == n[i - |b|]; }
  }

  /** Two texts in which the middle of `m` starts later than that of `n` starts it after the end of `n`. */
  lemma MiddlesDoNotOverlap(a: string, m: string, p: string, b: string, n: string, q: string)
    requires a + m + p == b + n + q && |a| > |b|
    requires |m| > 1 && m[0] == '\n' && m[1] == 's'
    requires forall o | 0 < o < |n| && n[o] == '\n' :: o + 1 < |n| && n[o + 1] != 's'
    ensures |a| >= |b| + |n|
  {
    var x := a + m + p;
    assert x[|a|] == '\n' && x[|a| + 1] == 's';
    BreakInside(x, b, n, q, |a|);
  }

  lemma SplitBehind(a: string, m: string, p: string, b: string, n: string, q: string)
    requires a + m + p == b + n + q && |a| >= |b| + |n|
    ensures var rest := a[|b| + |n|..]; a == b + n + rest && q == rest + m + p
  {
    var k := |b| + |n|;
    assert a == (a + m + p)[..|a|];
    assert a[..k] == (b + n + q)[..k] && (b + n + q)[..k] == b + n;
    assert q == (b + n + q)[k..] && (a + m + p)[k..] == a[k..] + m + p;
  }

  lemma LaterMiddle(s: Source, t: Source)
    requires Canonical(s) == Canonical(t) && |s.name| > |t.name|
    ensures Overlaps(s, t)
  {
    var m, n := Middle(s.service, s.task), Middle(t.service, t.task);
    WithoutPrefix(s, t);
    MiddleStarts(s.service, s.task);
    forall o | 0 < o < |n| && n[o] == '\n' ensures o + 1 < |n| && n[o + 1] != 's' { InnerBreaks(t.service, t.task, o); }
    MiddlesDoNotOverlap(s.name, m, s.probe, t.name, n, t.probe);
    SplitBehind(s.name, m, s.probe, t.name, n, t.probe);
    assert OverlapsBy(s, t, s.name[|t.name| + |n|..]);
  }

  function AfterName(s: Source): string { s.name + Middle(s.service, s.task) + s.probe }

  lemma CanonicalIs(s: Source)
    ensures Canonical(s) == "alertname=" + AfterName(s)
  {
    AroundMiddle(s);
    FourParts("alertname=", s.name, Middle(s.service, s.task), s.probe);
  }

  lemma FourParts(a: string, b: string, c: string, d: string)
    ensures a + (b + c + d) == a + b + c + d
  {}

  lemma WithoutPrefix(s: Source, t: Source)
    ensures Canonical(s) == Canonical(t) <==> AfterName(s) == AfterName(t)
    ensures Canonical(s) == Canonical(t)
       <==> s.name + Middle(s.service, s.task) + s.probe == t.name + Middle(t.service, t.task) + t.probe
  {
    CanonicalIs(s);
    CanonicalIs(t);
    if Canonical(s) == Canonical(t) { AfterPrefix("alertname=", AfterName(s), AfterName(t)); }
  }

  lemma SameFront(a: string, x: string, b: string, y: string)
    requires a + x == b + y && |a| == |b|
    ensures a == b && x == y
  {
    assert (a + x)[..|a|] == a && (b + y)[..|b|] == b && (a + x)[|a|..] == x && (b + y)[|b|..] == y;
  }

  lemma SameLengthNames(s: Source, t: Source)
    requires Canonical(s) == Canonical(t) && |s.name| == |t.name|
    ensures s == t
  {
    WithoutPrefix(s, t);
    var x, y := Middle(s.service, s.task) + s.probe, Middle(t.service, t.task) + t.probe;
    assert s.name + Middle(s.service, s.task) + s.probe == s.name + x;
    assert t.name + Middle(t.service, t.task) + t.probe == t.name + y;
    SameFront(s.name, x, t.name, y);
    NamelessSame(s, t);
  }

  lemma NamelessSame(s: Source, t: Source)
    requires s.name == t.name && Middle(s.service, s.task) + s.probe == Middle(t.service, t.task) + t.probe
    ensures s == t
  {
    var s', t' := s.(name := ""), t.(name := "");
    assert "" + Middle(s.service, s.task) + s.probe == Middle(s.service, s.task) + s.probe;
    assert "" + Middle(t.service, t.task) + t.probe == Middle(t.service, t.task) + t.probe;
    WithoutPrefix(s', t');
    CanonicalIsInjective(s', t');
  }

  lemma OverlapShares(s: Source, t: Source)
    requires Overlaps(s, t)
    ensures Canonical(s) == Canonical(t) && |s.name| > |t.name|
  {
    var b: string :| OverlapsBy(s, t, b);
    MiddleStarts(t.service, t.task);
    LineBreaksCollide(t.name, b, s.probe, t.service, t.task, s.service, s.task);
  }

  ghost predicate SameText(s: Source, t: Source) { s == t || Overlaps(s, t) || Overlaps(t, s) }

  /** Exactly when two sources share their canonical text. */
  lemma CanonicalIff(s: Source, t: Source)
    ensures Canonical(s) == Canonical(t) <==> SameText(s, t)
  {
    if Overlaps(s, t) { OverlapShares(s, t); }
    if Overlaps(t, s) { OverlapShares(t, s); }
    if Canonical(s) == Canonical(t) {
      if |s.name| > |t.name| {
        LaterMiddle(s, t);
      } else if |t.name| > |s.name| {
        LaterMiddle(t, s);
      } else {
        SameLengthNames(s, t);
      }
    }
  }

  /** The text holds what stands between a name and a probe type. */
  ghost predicate HoldsMiddle(x: string) {
    exists a: string, service: nat, task: nat, b: string :: SplitsAt(x, a, service, task, b)
  }

  predicate SplitsAt(x: string, a: string, service: nat, task: nat, b: string) { x == a + Middle(service, task) + b }

  /** Among all sources, whether or not an alert can have them, one shares its text with another if and only if its
      name or its probe type holds such a middle part. */
  lemma SharesTextIff(s: Source)
    ensures (exists t :: t != s && Canonical(t) == Canonical(s)) <==> HoldsMiddle(s.name) || HoldsMiddle(s.probe)
  {
    if t :| t != s && Canonical(t) == Canonical(s) {
      CanonicalIff(s, t);
      if Overlaps(s, t) { OverlapHolds(s, t); } else { OverlapHolds(t, s); }
    }
    if HoldsMiddle(s.name) {
      var a: string, service: nat, task: nat, b: string :| SplitsAt(s.name, a, service, task, b);
      OverlapWith(s, Source(a, service, task, b + Middle(s.service, s.task) + s.probe), b);
    }
    if HoldsMiddle(s.probe) {
      var b: string, service: nat, task: nat, c: string :| SplitsAt(s.probe, b, service, task, c);
      OverlapWith(Source(s.name + Middle(s.service, s.task) + b, service, task, c), s, b);
    }
  }

  lemma OverlapHolds(s: Source, t: Source)
    requires Overlaps(s, t)
    ensures HoldsMiddle(s.name) && HoldsMiddle(t.probe)
  {
    var b: string :| OverlapsBy(s, t, b);
    assert SplitsAt(s.name, t.name, t.service, t.task, b);
    assert SplitsAt(t.probe, b, s.service, s.task, s.probe);
  }

  lemma OverlapWith(s: Source, t: Source, b: string)
    requires OverlapsBy(s, t, b)
    ensures t != s && Canonical(t) == Canonical(s)
  {
    assert Overlaps(s, t);
    OverlapShares(s, t);
  }

  // ---------- which accepted sources share their text ----------

  /** Lower-casing neither makes nor removes white space. */
  ghost predicate KeepsSpace(lib: Library) { forall c: char :: GoSpace(LowerChar(lib, c)) <==> GoSpace(c) }

  /** An alert with this source is accepted. */
  ghost predicate Accepted(lib: Library, s: Source) {
    exists alert, now :: AcceptedFrom(lib, s, alert, now)
  }

  predicate AcceptedFrom(lib: Library, s: Source, alert: Alert, now: int) {
    Normalize(lib, alert, now).Success? && SourceOf(lib, alert) == Some(s)
  }

  /** A character that lower-casing can give. */
  ghost predicate IsLower(lib: Library, c: char) { exists d: char :: LowerChar(lib, d) == c }

  ghost predicate AllLower(lib: Library, x: string) { forall i | 0 <= i < |x| :: IsLower(lib, x[i]) }

  /** Neither empty nor with white space at an end. */
  predicate Tight(x: string) { x != "" && !GoSpace(x[0]) && !GoSpace(x[|x| - 1]) }

  /** What trimming and lower-casing can leave of a label. */
  ghost predicate Word(lib: Library, x: string) { Tight(x) && AllLower(lib, x) }

  ghost predicate WordSource(lib: Library, s: Source) {
    0 < s.service < UINT64 && 0 < s.task < UINT64 && Word(lib, s.name) && Word(lib, s.probe)
  }

  lemma {:induction false} GoTrimEnds(x: string)
    ensures var t := TrimRight(x, GoSpace); t != "" ==> !GoSpace(t[|t| - 1]) && t <= x
    decreases |x|
  {
    if x != "" && GoSpace(x[|x| - 1]) { GoTrimEnds(x[..|x| - 1]); }
  }

  lemma {:induction false} GoTrimStarts(x: string)
    ensures var t := TrimLeft(x, GoSpace); t != "" ==> !GoSpace(t[0])
    decreases |x|
  {
    if x != "" && GoSpace(x[0]) { GoTrimStarts(x[1..]); }
  }

  lemma TrimIsTight(x: string)
    requires Trim(x, GoSpace) != ""
    ensures Tight(Trim(x, GoSpace))
  {
    GoTrimStarts(x);
    GoTrimEnds(TrimLeft(x, GoSpace));
  }

  lemma LoweredIsWord(lib: Library, x: string)
    requires KeepsSpace(lib) && Trim(x, GoSpace) != ""
    ensures Word(lib, ToLower(lib, Trim(x, GoSpace)))
  {
    TrimIsTight(x);
    var t := Trim(x, GoSpace);
    forall i | 0 <= i < |t| ensures IsLower(lib, ToLower(lib, t)[i]) {
      assert LowerChar(lib, t[i]) == ToLower(lib, t)[i];
    }
  }

  /** A text that is lower-cased to `x`. */
  lemma {:induction false} Raised(lib: Library, x: string) returns (y: string)
    requires AllLower(lib, x)
    ensures ToLower(lib, y) == x
    decreases |x|
  {
    if x == "" {
      y := "";
    } else {
      var n := |x| - 1;
      assert forall i | 0 <= i < n :: x[..n][i] == x[i];
      var front := Raised(lib, x[..n]);
      assert IsLower(lib, x[n]);
      var d: char :| LowerChar(lib, d) == x[n];
      y := front + [d];
      assert ToLower(lib, y) == ToLower(lib, front) + [x[n]];
    }
  }

  lemma TightStays(x: string)
    requires Tight(x)
    ensures Trim(x, GoSpace) == x
  {}

  lemma RaisedWord(lib: Library, x: string) returns (y: string)
    requires KeepsSpace(lib) && Word(lib, x)
    ensures y != "" && ToLower(lib, Trim(y, GoSpace)) == x
  {
    y := Raised(lib, x);
    assert LowerChar(lib, y[0]) == x[0] && LowerChar(lib, y[|y| - 1]) == x[|x| - 1];
    TightStays(y);
  }

  /** Exactly which sources accepted alerts have. */
  lemma AcceptedIff(lib: Library, s: Source)
    requires KeepsSpace(lib)
    ensures Accepted(lib, s) <==> WordSource(lib, s)
  {
    if Accepted(lib, s) {
      var alert, now :| AcceptedFrom(lib, s, alert, now);
      AcceptedIsWord(lib, s, alert, now);
    }
    if WordSource(lib, s) {
      var name := RaisedWord(lib, s.name);
      var probe := RaisedWord(lib, s.probe);
      WordIsAccepted(lib, s, name, probe);
    }
  }

  lemma AcceptedIsWord(lib: Library, s: Source, alert: Alert, now: int)
    requires KeepsSpace(lib) && AcceptedFrom(lib, s, alert, now)
    ensures WordSource(lib, s)
  {
    LoweredIsWord(lib, Label(alert.labels, "alertname"));
    LoweredIsWord(lib, Label(alert.labels, "probe_type"));
  }

  lemma WordIsAccepted(lib: Library, s: Source, name: string, probe: string)
    requires WordSource(lib, s)
    requires ToLower(lib, Trim(name, GoSpace)) == s.name && ToLower(lib, Trim(probe, GoSpace)) == s.probe
    ensures Accepted(lib, s)
  {
    var alert := AlertOf(Source(name, s.service, s.task, probe));
    AlertLabels(Source(name, s.service, s.task, probe));
    NumberIsRead(s.service);
    NumberIsRead(s.task);
    assert SourceOf(lib, alert) == Some(s);
    NormalizeIs(lib, alert, s, 0);
    assert AcceptedFrom(lib, s, alert, 0);
  }

  /** The text splits at a middle part with numbers that the service accepts and without white space at the cuts. */
  ghost predicate Divisible(x: string) {
    exists a: string, service: nat, task: nat, b: string :: Divides(x, a, service, task, b)
  }

  predicate Divides(x: string, a: string, service: nat, task: nat, b: string) {
    && SplitsAt(x, a, service, task, b) && 0 < service < UINT64 && 0 < task < UINT64
    && a != "" && !GoSpace(a[|a| - 1]) && b != "" && !GoSpace(b[0])
  }

  lemma MiddleIsLowered(lib: Library, service: nat, task: nat)
    ensures AllLower(lib, Middle(service, task))
  {
    MiddleIsLower(service, task);
    var m := Middle(service, task);
    forall i | 0 <= i < |m| ensures IsLower(lib, m[i]) { assert LowerChar(lib, m[i]) == m[i]; }
  }

  lemma PartsLower(lib: Library, x: string, y: string)
    ensures AllLower(lib, x + y) <==> AllLower(lib, x) && AllLower(lib, y)
  {
    if AllLower(lib, x + y) {
      assert forall i | 0 <= i < |x| :: x[i] == (x + y)[i];
      assert forall i | 0 <= i < |y| :: y[i] == (x + y)[|x| + i];
    }
  }

  /** The two sides of a word that is cut at a middle part. */
  lemma WordParts(lib: Library, x: string, a: string, service: nat, task: nat, b: string)
    requires SplitsAt(x, a, service, task, b)
    ensures AllLower(lib, x) <==> AllLower(lib, a) && AllLower(lib, b)
  {
    MiddleIsLowered(lib, service, task);
    PartsLower(lib, a + Middle(service, task), b);
    PartsLower(lib, a, Middle(service, task));
  }

  lemma EndsOfParts(x: string, a: string, service: nat, task: nat, b: string)
    requires SplitsAt(x, a, service, task, b) && a != "" && b != ""
    ensures x != "" && x[0] == a[0] && x[|x| - 1] == b[|b| - 1]
  {}

  /** A word starts with no middle part. */
  lemma WordStarts(x: string, a: string, service: nat, task: nat, b: string)
    requires SplitsAt(x, a, service, task, b) && Tight(x)
    ensures a != ""
  {
    MiddleStarts(service, task);
    assert x[|a|] == '\n';
  }

  /** If the name of an accepted source can be divided, another accepted source has its text. */
  lemma DividedName(lib: Library, s: Source) returns (t: Source)
    requires WordSource(lib, s) && Divisible(s.name)
    ensures WordSource(lib, t) && t != s && Canonical(t) == Canonical(s)
  {
    var a: string, service: nat, task: nat, b: string :| Divides(s.name, a, service, task, b);
    t := Source(a, service, task, b + Middle(s.service, s.task) + s.probe);
    assert OverlapsBy(s, t, b);
    OverlapShares(s, t);
    WordParts(lib, s.name, a, service, task, b);
    WordParts(lib, t.probe, b, s.service, s.task, s.probe);
    EndsOfParts(s.name, a, service, task, b);
    EndsOfParts(t.probe, b, s.service, s.task, s.probe);
  }

  lemma DividedProbe(lib: Library, s: Source) returns (t: Source)
    requires WordSource(lib, s) && Divisible(s.probe)
    ensures WordSource(lib, t) && t != s && Canonical(t) == Canonical(s)
  {
    var b: string, service: nat, task: nat, c: string :| Divides(s.probe, b, service, task, c);
    t := Source(s.name + Middle(s.service, s.task) + b, service, task, c);
    assert OverlapsBy(t, s, b);
    OverlapShares(t, s);
    WordParts(lib, s.probe, b, service, task, c);
    WordParts(lib, t.name, s.name, s.service, s.task, b);
    EndsOfParts(s.probe, b, service, task, c);
    EndsOfParts(t.name, s.name, s.service, s.task, b);
  }

  /** Two accepted sources can only overlap where the cuts are free of white space. */
  lemma OverlapDivides(lib: Library, s: Source, t: Source)
    requires WordSource(lib, s) && WordSource(lib, t) && Overlaps(s, t)
    ensures Divisible(s.name) && Divisible(t.probe)
  {
    var b: string :| OverlapsBy(s, t, b);
    WordStarts(t.probe, b, s.service, s.task, s.probe);
    EndsOfParts(t.probe, b, s.service, s.task, s.probe);
    assert !GoSpace(b[0]);
    EndsOfParts(s.name, t.name, t.service, t.task, b);
    assert !GoSpace(b[|b| - 1]);
    assert Divides(s.name, t.name, t.service, t.task, b);
    assert Divides(t.probe, b, s.service, s.task, s.probe);
  }

  /** Among accepted sources, one shares its text with another if and only if its name or its probe type can be
      divided: a guard that an alert can be checked against by itself. */
  lemma AcceptedSharesTextIff(lib: Library, s: Source)
    requires KeepsSpace(lib) && Accepted(lib, s)
    ensures (exists t :: Accepted(lib, t) && t != s && Canonical(t) == Canonical(s))
            <==> Divisible(s.name) || Divisible(s.probe)
  {
    AcceptedIff(lib, s);
    if t :| Accepted(lib, t) && t != s && Canonical(t) == Canonical(s) {
      AcceptedIff(lib, t);
      CanonicalIff(s, t);
      if Overlaps(s, t) { OverlapDivides(lib, s, t); } else { OverlapDivides(lib, t, s); }
    }
    if Divisible(s.name) {
      var t := DividedName(lib, s);
      AcceptedIff(lib, t);
    } else if Divisible(s.probe) {
      var t := DividedProbe(lib, s);
      AcceptedIff(lib, t);
    }
  }

  // ---------- the event key ----------

  /** The hash tells these two texts apart, by its value but not by its length. */
  predicate Apart(lib: Library, s: string, t: string) {
    (lib.sum(s) == lib.sum(t) ==> s == t) && |lib.sum(s)| == |lib.sum(t)|
  }

  lemma TwoParts(a: string, x: string, b: string, y: string)
    requires |a| == |b| && a + "\n" + x == b + "\n" + y
    ensures a == b && x == y
  {
    var s, t := a + "\n" + x, b + "\n" + y;
    assert s[..|a|] == a && t[..|b|] == b && s[|a| + 1..] == x && t[|b| + 1..] == y;
  }

  /** Exactly when two alerts have the same event key, whatever else they say: their sources share their text and
      they started at the same instant. The premise is that the hash does not collide on the texts involved. */
  lemma SameKeyIff(lib: Library, a: Alert, b: Alert, s: Source, t: Source, now: int, later: int)
    requires Normalize(lib, a, now).Success? && Normalize(lib, b, later).Success?
    requires SourceOf(lib, a) == Some(s) && SourceOf(lib, b) == Some(t)
    requires Apart(lib, Canonical(s), Canonical(t))
    requires Apart(lib, lib.sum(Canonical(s)) + "\n" + Format(a.startsAt),
                   lib.sum(Canonical(t)) + "\n" + Format(b.startsAt))
    ensures Normalize(lib, a, now).value.key == Normalize(lib, b, later).value.key
            <==> SameText(s, t) && a.startsAt == b.startsAt
  {
    var f, g := lib.sum(Canonical(s)), lib.sum(Canonical(t));
    CanonicalIff(s, t);
    if Normalize(lib, a, now).value.key == Normalize(lib, b, later).value.key {
      TwoParts(f, Format(a.startsAt), g, Format(b.startsAt));
      FormatIsInjective(a.startsAt, b.startsAt);
    }
  }

  /** For names, or probe types, of a single line that means: the same source and the same instant. */
  lemma SameKeyForSingleLines(lib: Library, a: Alert, b: Alert, s: Source, t: Source, now: int, later: int)
    requires Normalize(lib, a, now).Success? && Normalize(lib, b, later).Success?
    requires SourceOf(lib, a) == Some(s) && SourceOf(lib, b) == Some(t)
    requires (OneLine(s.name) && OneLine(t.name)) || (OneLine(s.probe) && OneLine(t.probe))
    requires Apart(lib, Canonical(s), Canonical(t))
    requires Apart(lib, lib.sum(Canonical(s)) + "\n" + Format(a.startsAt),
                   lib.sum(Canonical(t)) + "\n" + Format(b.startsAt))
    ensures Normalize(lib, a, now).value.key == Normalize(lib, b, later).value.key
            <==> s == t && a.startsAt == b.startsAt
  {
    SameKeyIff(lib, a, b, s, t, now, later);
    CanonicalIff(s, t);
    if SameText(s, t) { CanonicalIsInjective(s, t); }
  }

  // ---------- two accepted alerts that share a fingerprint ----------

  /** Text that trimming and lower-casing leave alone. */
  predicate Lower(x: string) { forall i | 0 <= i < |x| :: x[i] < '\U{0080}' && !('A' <= x[i] <= 'Z') }

  lemma LowerStays(lib: Library, x: string)
    requires Lower(x) && x != "" && !GoSpace(x[0]) && !GoSpace(x[|x| - 1])
    ensures ToLower(lib, Trim(x, GoSpace)) == x
  {
    assert Trim(x, GoSpace) == x;
  }

  lemma MiddleIsLower(service: nat, task: nat)
    ensures Lower(Middle(service, task))
  {
    assert Lower(Digits(service)) && Lower(Digits(task));
  }

  lemma AroundIsLower(a: char, service: nat, task: nat, b: char)
    requires 'a' <= a <= 'z' && 'a' <= b <= 'z'
    ensures var x := [a] + Middle(service, task) + [b]; Lower(x) && x[0] == a && x[|x| - 1] == b
  {
    MiddleIsLower(service, task);
  }

  function AlertOf(s: Source): Alert {
    Alert("firing",
          map["alertname" := s.name, "service_id" := Digits(s.service), "task_id" := Digits(s.task),
              "probe_type" := s.probe],
          map[], 0, 0, "")
  }

  lemma AlertLabels(s: Source)
    ensures var labels := AlertOf(s).labels;
      && Label(labels, "alertname") == s.name && Label(labels, "probe_type") == s.probe
      && Label(labels, "service_id") == Digits(s.service) && Label(labels, "task_id") == Digits(s.task)
  {}

  lemma NumberIsRead(n: nat)
    requires n < UINT64
    ensures ParseUint(Digits(n)) == Some(n)
  {
    ValueOfDigits(n);
  }

  /** The source survives trimming and lower-casing. */
  predicate Steady(lib: Library, s: Source) {
    && 0 < s.service < UINT64 && 0 < s.task < UINT64 && s.name != "" && s.probe != ""
    && ToLower(lib, Trim(s.name, GoSpace)) == s.name && ToLower(lib, Trim(s.probe, GoSpace)) == s.probe
  }

  /** Normalize in terms of the source. */
  lemma NormalizeIs(lib: Library, alert: Alert, s: Source, now: int)
    requires SourceOf(lib, alert) == Some(s) && s.service > 0 && s.task > 0 && s.name != "" && s.probe != ""
    requires alert.startsAt != ZERO_TIME
    ensures var r := Normalize(lib, alert, now);
      && r.Success? && r.value.incident.fingerprint == lib.sum(Canonical(s)) && r.value.incident.serviceId == s.service
      && r.value.key == EventKey(lib, lib.sum(Canonical(s)), alert.startsAt)
  {}

  lemma AlertIsAccepted(lib: Library, s: Source, now: int)
    requires Steady(lib, s)
    ensures SourceOf(lib, AlertOf(s)) == Some(s)
    ensures var r := Normalize(lib, AlertOf(s), now);
      && r.Success? && r.value.incident.fingerprint == lib.sum(Canonical(s)) && r.value.incident.serviceId == s.service
      && r.value.key == EventKey(lib, lib.sum(Canonical(s)), 0)
  {
    SourceOfAlert(lib, s);
    NormalizeIs(lib, AlertOf(s), s, now);
  }

  lemma SourceOfAlert(lib: Library, s: Source)
    requires Steady(lib, s)
    ensures SourceOf(lib, AlertOf(s)) == Some(s)
  {
    AlertLabels(s);
    NumberIsRead(s.service);
    NumberIsRead(s.task);
  }

  lemma CollidingSources(lib: Library) returns (s: Source, t: Source)
    ensures Steady(lib, s) && Steady(lib, t) && s.service != t.service && Canonical(s) == Canonical(t)
  {
    s := Source("a" + Middle(1, 1) + "b", 2, 2, "c");
    t := Source("a", 1, 1, "b" + Middle(2, 2) + "c");
    AroundIsLower('a', 1, 1, 'b');
    AroundIsLower('b', 2, 2, 'c');
    LowerStays(lib, s.name);
    LowerStays(lib, s.probe);
    LowerStays(lib, t.name);
    LowerStays(lib, t.probe);
    LineBreaksCollide("a", "b", "c", 1, 1, 2, 2);
  }

  /** The service accepts two alerts from different sources and gives them one fingerprint and one event key. */
  lemma AcceptedAlertsCollide(lib: Library, now: int) returns (a: Alert, b: Alert)
    ensures Normalize(lib, a, now).Success? && Normalize(lib, b, now).Success?
    ensures SourceOf(lib, a) != SourceOf(lib, b)
    ensures Normalize(lib, a, now).value.incident.serviceId != Normalize(lib, b, now).value.incident.serviceId
    ensures Normalize(lib, a, now).value.incident.fingerprint == Normalize(lib, b, now).value.incident.fingerprint
    ensures Normalize(lib, a, now).value.key == Normalize(lib, b, now).value.key
  {
    var s, t := CollidingSources(lib);
    AlertIsAccepted(lib, s, now);
    AlertIsAccepted(lib, t, now);
    a, b := AlertOf(s), AlertOf(t);
  }

  /** Annotations, severity, external fingerprint, end time, status and the time of receipt change nothing about
      the identity, nor about whether the alert is accepted. */
  lemma OnlyTheSourceCounts(lib: Library, a: Alert, b: Alert, now: int, later: int)
    requires forall key | key in {"alertname", "service_id", "task_id", "probe_type"} ::
      Label(a.labels, key) == Label(b.labels, key)
    requires a.startsAt == b.startsAt
    ensures Normalize(lib, a, now).Success? <==> Normalize(lib, b, later).Success?
    ensures Normalize(lib, a, now).Success? ==>
      && Normalize(lib, a, now).value.key == Normalize(lib, b, later).value.key
      && Normalize(lib, a, now).value.incident.fingerprint == Normalize(lib, b, later).value.incident.fingerprint
  {}
}
