/** What each sample and task request does to the tables, as a function
    from the tables before to the tables after and the reply. The ownership
    guard decides what a request can reach; the audit recorder appends a
    log on sample creation and on a change of sample status. A request that
    fails leaves the tables exactly as they were. */
module Requests {
  import opened Models
  import opened Tables
  import opened Fields
  import AuditActions

  datatype ValidationError =
    | SampleIdRequired
    | BlankSampleId
    | SampleIdTooLong
    | DuplicateSampleId
    | NameRequired
    | BlankName
    | NameTooLong
    | NullCharacter
    | InvalidStatus
    | InvalidPriority
    | ResultTextTooLong
    | ResultNumericTooLarge
    | UnknownAnalyst
    | SampleNotFoundOrNotPermitted

  /** NotFound: the target is missing or not the requester's; Invalid: the input was refused. */
  datatype Outcome<T> = Ok(value: T) | NotFound | Invalid(error: ValidationError)

  datatype Reply<T> = Reply(db: Db, outcome: Outcome<T>)

  /** The first of several possible errors, or None when there is none. */
  function FirstError(a: Option<ValidationError>, b: Option<ValidationError>): (e: Option<ValidationError>)
    ensures e.None? <==> a.None? && b.None?
  {
    if a.Some? then a else b
  }

  // ---------------------------------------------------------------------
  // Choice fields: a submitted value must be one of the stored values

  predicate SampleStatusChoice(o: Option<string>) {
    o.Some? ==> ParseSampleStatus(o.value).Some?
  }

  predicate TaskStatusChoice(o: Option<string>) {
    o.Some? ==> ParseTaskStatus(o.value).Some?
  }

  predicate TaskPriorityChoice(o: Option<string>) {
    o.Some? ==> ParseTaskPriority(o.value).Some?
  }

  /** The status an accepted submission selects: the one whose stored value
      was submitted, or the current one when the field was left out. */
  function ChosenSampleStatus(o: Option<string>, current: SampleStatus): (r: SampleStatus)
    requires SampleStatusChoice(o)
    ensures SampleStatusValue(r) == GetOr(o, SampleStatusValue(current))
    ensures o.None? ==> r == current
  {
    if o.Some? then ParseSampleStatus(o.value).value else current
  }

  function ChosenTaskStatus(o: Option<string>, current: TaskStatus): (r: TaskStatus)
    requires TaskStatusChoice(o)
    ensures TaskStatusValue(r) == GetOr(o, TaskStatusValue(current))
    ensures o.None? ==> r == current
  {
    if o.Some? then ParseTaskStatus(o.value).value else current
  }

  function ChosenTaskPriority(o: Option<string>, current: TaskPriority): (r: TaskPriority)
    requires TaskPriorityChoice(o)
    ensures TaskPriorityValue(r) == GetOr(o, TaskPriorityValue(current))
    ensures o.None? ==> r == current
  {
    if o.Some? then ParseTaskPriority(o.value).value else current
  }

  // ---------------------------------------------------------------------
  // Sample input and its validation

  /** The writable sample fields as submitted; None means the field was left
      out. The owner and the audit logs are read-only. */
  datatype SampleData = SampleData(sampleId: Option<string>, name: Option<string>, status: Option<string>)

  /** Whether a sample other than `except` already has this identifier. */
  predicate SampleIdTaken(db: Db, id: string, except: Option<SamplePk>) {
    exists p :: p in db.samples && Some(p) != except && db.samples[p].sampleId == id
  }

  /** The blank, length and unique checks, all on the trimmed identifier. */
  function SampleIdError(db: Db, raw: string, except: Option<SamplePk>): (e: Option<ValidationError>)
    ensures e.None? <==> ValidSampleId(Trim(raw)) && !SampleIdTaken(db, Trim(raw), except)
  {
    var id := Trim(raw);
    if |id| == 0 then Some(BlankSampleId)
    else if |id| > SAMPLE_ID_MAX_LENGTH then Some(SampleIdTooLong)
    else if !NullFree(id) then Some(NullCharacter)
    else if SampleIdTaken(db, id, except) then Some(DuplicateSampleId)
    else None
  }

  function NameError(raw: string): (e: Option<ValidationError>)
    ensures e.None? <==> ValidName(Trim(raw))
  {
    var name := Trim(raw);
    if |name| == 0 then Some(BlankName)
    else if |name| > NAME_MAX_LENGTH then Some(NameTooLong)
    else if !NullFree(name) then Some(NullCharacter)
    else None
  }

  function SampleStatusError(o: Option<string>): (e: Option<ValidationError>)
    ensures e.None? <==> SampleStatusChoice(o)
  {
    if SampleStatusChoice(o) then None else Some(InvalidStatus)
  }

  /** A create, and an update that is not partial, must carry sample_id and
      name; every field present is checked, and the identifier must not
      clash with a sample other than `except`. */
  function SampleDataError(db: Db, except: Option<SamplePk>, d: SampleData, partial: bool): (e: Option<ValidationError>)
    ensures e.None? <==>
              && (if d.sampleId.Some?
                  then ValidSampleId(Trim(d.sampleId.value)) && !SampleIdTaken(db, Trim(d.sampleId.value), except)
                  else partial)
              && (if d.name.Some? then ValidName(Trim(d.name.value)) else partial)
              && SampleStatusChoice(d.status)
  {
    FirstError(
      if d.sampleId.Some? then SampleIdError(db, d.sampleId.value, except)
      else if partial then None else Some(SampleIdRequired),
      FirstError(
        if d.name.Some? then NameError(d.name.value)
        else if partial then None else Some(NameRequired),
        SampleStatusError(d.status)))
  }

  /** The save of an accepted submission: the fields present take their
      cleaned values, the others keep theirs, and the owner stays. */
  function ApplySampleData(s: Sample, d: SampleData, now: Timestamp): (r: Sample)
    requires SampleStatusChoice(d.status)
    ensures r.owner == s.owner && r.createdAt == s.createdAt && r.updatedAt == now
    ensures r.sampleId == (if d.sampleId.Some? then Trim(d.sampleId.value) else s.sampleId)
    ensures r.name == (if d.name.Some? then Trim(d.name.value) else s.name)
    ensures SampleStatusValue(r.status) == GetOr(d.status, SampleStatusValue(s.status))
    ensures d.status.None? ==> r.status == s.status
  {
    s.(sampleId := if d.sampleId.Some? then Trim(d.sampleId.value) else s.sampleId,
       name := if d.name.Some? then Trim(d.name.value) else s.name,
       status := ChosenSampleStatus(d.status, s.status),
       updatedAt := now)
  }

  /** A new sample row: the submission applied to a row with the default status. */
  function NewSample(d: SampleData, owner: UserId, now: Timestamp): (r: Sample)
    requires d.sampleId.Some? && d.name.Some? && SampleStatusChoice(d.status)
    ensures r.sampleId == Trim(d.sampleId.value) && r.name == Trim(d.name.value)
    ensures r.owner == Some(owner) && r.createdAt == now && r.updatedAt == now
    ensures SampleStatusValue(r.status) == GetOr(d.status, SampleStatusValue(DEFAULT_SAMPLE_STATUS))
  {
    ApplySampleData(Sample([], [], Some(owner), DEFAULT_SAMPLE_STATUS, now, now), d, now)
  }

  // ---------------------------------------------------------------------
  // Sample requests

  /** Registers a sample owned by the requester and records "Sample registered.". */
  function CreateSample(db: Db, requester: UserId, d: SampleData): (r: Reply<SamplePk>)
    ensures !r.outcome.NotFound?
    ensures r.outcome.Ok? <==> SampleDataError(db, None, d, false).None?
    ensures !r.outcome.Ok? ==> r.db == db
    ensures r.outcome.Ok? ==>
              var pk := r.outcome.value;
              && d.sampleId.Some? && d.name.Some?
              && pk == db.nextSamplePk
              && r.db.samples.Keys == db.samples.Keys + {pk}
              && (forall q :: q in db.samples && q != pk ==> r.db.samples[q] == db.samples[q])
              && r.db.samples[pk].owner == Some(requester)
              && r.db.samples[pk].sampleId == Trim(d.sampleId.value)
              && r.db.samples[pk].name == Trim(d.name.value)
              && SampleStatusValue(r.db.samples[pk].status) == GetOr(d.status, SampleStatusValue(DEFAULT_SAMPLE_STATUS))
              && r.db.auditLogs == db.auditLogs + [AuditLog(pk, Some(requester), AuditActions.REGISTERED, db.clock)]
              && r.db.tasks == db.tasks && r.db.users == db.users
  {
    match SampleDataError(db, None, d, false)
    case Some(e) => Reply(db, Invalid(e))
    case None =>
      Reply(Registration(db, requester, d), Ok(db.nextSamplePk))
  }

  /** Updates a sample the requester owns (a partial update may leave out
      required fields); reads the old status before the save and records a
      transition only when the saved status differs. */
  function UpdateSample(db: Db, requester: UserId, pk: SamplePk, d: SampleData, partial: bool): (r: Reply<Sample>)
    ensures r.outcome.NotFound? <==> !OwnedBy(db, pk, requester)
    ensures r.outcome.Invalid? <==> OwnedBy(db, pk, requester) && SampleDataError(db, Some(pk), d, partial).Some?
    ensures !r.outcome.Ok? ==> r.db == db
    ensures r.outcome.Ok? ==>
              var before, after := db.samples[pk], r.outcome.value;
              && r.db.samples == db.samples[pk := after]
              && after.owner == before.owner && after.createdAt == before.createdAt
              && after.sampleId == (if d.sampleId.Some? then Trim(d.sampleId.value) else before.sampleId)
              && after.name == (if d.name.Some? then Trim(d.name.value) else before.name)
              && SampleStatusValue(after.status) == GetOr(d.status, SampleStatusValue(before.status))
              && r.db.auditLogs == db.auditLogs +
                   (if before.status != after.status
                    then [AuditLog(pk, Some(requester), AuditActions.StatusChanged(before.status, after.status), db.clock)]
                    else [])
              && r.db.tasks == db.tasks && r.db.users == db.users
  {
    if !OwnedBy(db, pk, requester) then Reply(db, NotFound)
    else
      match SampleDataError(db, Some(pk), d, partial)
      case Some(e) => Reply(db, Invalid(e))
      case None =>
        var now := db.clock;
        var oldStatus := db.samples[pk].status;
        var saved := ApplySampleData(db.samples[pk], d, now);
        var logs := if oldStatus != saved.status
                    then db.auditLogs + [AuditLog(pk, Some(requester), AuditActions.StatusChanged(oldStatus, saved.status), now)]
                    else db.auditLogs;
        Reply(db.(samples := db.samples[pk := saved], auditLogs := logs, clock := now + 1), Ok(saved))
  }

  /** Deletes a sample the requester owns, with its tasks and logs. */
  function DestroySample(db: Db, requester: UserId, pk: SamplePk): (r: Reply<()>)
    ensures r.outcome.Ok? || r.outcome.NotFound?
    ensures r.outcome.NotFound? <==> !OwnedBy(db, pk, requester)
    ensures !r.outcome.Ok? ==> r.db == db
    ensures r.outcome.Ok? ==> r.db == DeleteSampleCascade(db, pk)
  {
    if !OwnedBy(db, pk, requester) then Reply(db, NotFound) else Reply(DeleteSampleCascade(db, pk), Ok(()))
  }

  // ---------------------------------------------------------------------
  // Task input and its validation

  /** The writable task fields as submitted; None means the field was left
      out, and for a nullable field Some(None) is an explicit null. */
  datatype TaskData = TaskData(
    name: Option<string>,
    status: Option<string>,
    priority: Option<string>,
    dueDate: Option<Option<Day>>,
    analyst: Option<Option<UserId>>,
    resultText: Option<Option<string>>,
    resultNumeric: Option<Option<Thousandths>>)

  /** The stored value of the nullable result text: trimmed unless null. */
  function TrimResult(text: Option<string>): (r: Option<string>)
    ensures r.Some? <==> text.Some?
    ensures r.Some? ==> r.value == Trim(text.value) && Trimmed(r.value)
  {
    if text.Some? then Some(Trim(text.value)) else None
  }

  function AnalystError(db: Db, analyst: Option<UserId>): (e: Option<ValidationError>)
    ensures e.None? <==> RefersToUser(db, analyst)
  {
    if analyst.Some? && analyst.value !in db.users then Some(UnknownAnalyst) else None
  }

  function ResultTextError(text: Option<string>): (e: Option<ValidationError>)
    ensures e.None? <==> ValidResultText(TrimResult(text))
  {
    if text.Some? && |Trim(text.value)| > RESULT_TEXT_MAX_LENGTH then Some(ResultTextTooLong)
    else if text.Some? && !NullFree(Trim(text.value)) then Some(NullCharacter)
    else None
  }

  function ResultNumericError(x: Option<Thousandths>): (e: Option<ValidationError>)
    ensures e.None? <==> ValidResultNumeric(x)
  {
    if !ValidResultNumeric(x) then Some(ResultNumericTooLarge) else None
  }

  /** A create, and an update that is not partial, must carry the name; every
      field present is checked. */
  function TaskDataError(db: Db, d: TaskData, partial: bool): (e: Option<ValidationError>)
    ensures e.None? <==>
              && (if d.name.Some? then ValidName(Trim(d.name.value)) else partial)
              && TaskStatusChoice(d.status) && TaskPriorityChoice(d.priority)
              && (d.analyst.Some? ==> RefersToUser(db, d.analyst.value))
              && (d.resultText.Some? ==> ValidResultText(TrimResult(d.resultText.value)))
              && (d.resultNumeric.Some? ==> ValidResultNumeric(d.resultNumeric.value))
  {
    FirstError(
      if d.name.Some? then NameError(d.name.value)
      else if partial then None else Some(NameRequired),
      FirstError(if TaskStatusChoice(d.status) then None else Some(InvalidStatus),
        FirstError(if TaskPriorityChoice(d.priority) then None else Some(InvalidPriority),
          FirstError(if d.analyst.Some? then AnalystError(db, d.analyst.value) else None,
            FirstError(if d.resultText.Some? then ResultTextError(d.resultText.value) else None,
              if d.resultNumeric.Some? then ResultNumericError(d.resultNumeric.value) else None)))))
  }

  /** The save of an accepted task submission: the fields present take their
      cleaned values, the others keep theirs, and the sample stays. */
  function ApplyTaskData(t: Task, d: TaskData, now: Timestamp): (r: Task)
    requires TaskStatusChoice(d.status) && TaskPriorityChoice(d.priority)
    ensures r.sample == t.sample && r.createdAt == t.createdAt && r.updatedAt == now
    ensures r.name == (if d.name.Some? then Trim(d.name.value) else t.name)
    ensures TaskStatusValue(r.status) == GetOr(d.status, TaskStatusValue(t.status))
    ensures TaskPriorityValue(r.priority) == GetOr(d.priority, TaskPriorityValue(t.priority))
    ensures r.dueDate == GetOr(d.dueDate, t.dueDate) && r.analyst == GetOr(d.analyst, t.analyst)
    ensures r.resultText == (if d.resultText.Some? then TrimResult(d.resultText.value) else t.resultText)
    ensures r.resultNumeric == GetOr(d.resultNumeric, t.resultNumeric)
  {
    t.(name := if d.name.Some? then Trim(d.name.value) else t.name,
       status := ChosenTaskStatus(d.status, t.status),
       priority := ChosenTaskPriority(d.priority, t.priority),
       dueDate := GetOr(d.dueDate, t.dueDate),
       analyst := GetOr(d.analyst, t.analyst),
       resultText := if d.resultText.Some? then TrimResult(d.resultText.value) else t.resultText,
       resultNumeric := GetOr(d.resultNumeric, t.resultNumeric),
       updatedAt := now)
  }

  /** A new task row: status Pending, priority Medium and every nullable
      field null unless submitted. */
  function NewTask(samplePk: SamplePk, d: TaskData, now: Timestamp): (r: Task)
    requires d.name.Some? && TaskStatusChoice(d.status) && TaskPriorityChoice(d.priority)
    ensures r.sample == samplePk && r.name == Trim(d.name.value)
    ensures TaskStatusValue(r.status) == GetOr(d.status, TaskStatusValue(DEFAULT_TASK_STATUS))
    ensures TaskPriorityValue(r.priority) == GetOr(d.priority, TaskPriorityValue(DEFAULT_TASK_PRIORITY))
    ensures r.dueDate == GetOr(d.dueDate, None) && r.analyst == GetOr(d.analyst, None)
    ensures r.resultText == TrimResult(GetOr(d.resultText, None))
    ensures r.resultNumeric == GetOr(d.resultNumeric, None)
    ensures r.createdAt == now && r.updatedAt == now
  {
    ApplyTaskData(Task(samplePk, [], DEFAULT_TASK_STATUS, DEFAULT_TASK_PRIORITY, None, None, None, None, now, now), d, now)
  }

  // ---------------------------------------------------------------------
  // Task requests, all scoped through the parent sample's owner

  /** Adds a task under a sample the requester owns; writes no audit log. */
  function CreateTask(db: Db, requester: UserId, samplePk: SamplePk, d: TaskData): (r: Reply<TaskPk>)
    ensures !r.outcome.NotFound?
    ensures r.outcome.Ok? <==> TaskDataError(db, d, false).None? && OwnedBy(db, samplePk, requester)
    ensures TaskDataError(db, d, false).None? && !OwnedBy(db, samplePk, requester) ==>
              r.outcome == Invalid(SampleNotFoundOrNotPermitted)
    ensures !r.outcome.Ok? ==> r.db == db
    ensures r.outcome.Ok? ==>
              var t := r.outcome.value;
              && d.name.Some?
              && t == db.nextTaskPk
              && r.db.tasks.Keys == db.tasks.Keys + {t}
              && (forall q :: q in db.tasks && q != t ==> r.db.tasks[q] == db.tasks[q])
              && var task := r.db.tasks[t];
              && task.sample == samplePk
              && task.name == Trim(d.name.value)
              && TaskStatusValue(task.status) == GetOr(d.status, TaskStatusValue(DEFAULT_TASK_STATUS))
              && TaskPriorityValue(task.priority) == GetOr(d.priority, TaskPriorityValue(DEFAULT_TASK_PRIORITY))
              && task.dueDate == GetOr(d.dueDate, None) && task.analyst == GetOr(d.analyst, None)
              && task.resultText == TrimResult(GetOr(d.resultText, None))
              && task.resultNumeric == GetOr(d.resultNumeric, None)
              && r.db.samples == db.samples && r.db.auditLogs == db.auditLogs && r.db.users == db.users
  {
    match TaskDataError(db, d, false)
    case Some(e) => Reply(db, Invalid(e))
    case None =>
      if !OwnedBy(db, samplePk, requester) then Reply(db, Invalid(SampleNotFoundOrNotPermitted))
      else
        var t := db.nextTaskPk;
        var now := db.clock;
        Reply(db.(tasks := db.tasks[t := NewTask(samplePk, d, now)], clock := now + 1, nextTaskPk := t + 1), Ok(t))
  }

  /** Updates a task reachable through its sample (a partial update may
      leave out the name); the sample reference is not writable. */
  function UpdateTask(db: Db, requester: UserId, samplePk: SamplePk, t: TaskPk, d: TaskData, partial: bool): (r: Reply<Task>)
    ensures r.outcome.NotFound? <==> t !in VisibleTasks(db, requester, samplePk)
    ensures r.outcome.Invalid? <==> t in VisibleTasks(db, requester, samplePk) && TaskDataError(db, d, partial).Some?
    ensures !r.outcome.Ok? ==> r.db == db
    ensures r.outcome.Ok? ==>
              var before, after := db.tasks[t], r.outcome.value;
              && r.db.tasks == db.tasks[t := after]
              && after.sample == before.sample && after.createdAt == before.createdAt
              && after.name == (if d.name.Some? then Trim(d.name.value) else before.name)
              && TaskStatusValue(after.status) == GetOr(d.status, TaskStatusValue(before.status))
              && TaskPriorityValue(after.priority) == GetOr(d.priority, TaskPriorityValue(before.priority))
              && after.dueDate == GetOr(d.dueDate, before.dueDate)
              && after.analyst == GetOr(d.analyst, before.analyst)
              && after.resultText == (if d.resultText.Some? then TrimResult(d.resultText.value) else before.resultText)
              && after.resultNumeric == GetOr(d.resultNumeric, before.resultNumeric)
              && r.db.samples == db.samples && r.db.auditLogs == db.auditLogs && r.db.users == db.users
  {
    if t !in VisibleTasks(db, requester, samplePk) then Reply(db, NotFound)
    else
      match TaskDataError(db, d, partial)
      case Some(e) => Reply(db, Invalid(e))
      case None =>
        var saved := ApplyTaskData(db.tasks[t], d, db.clock);
        Reply(db.(tasks := db.tasks[t := saved], clock := db.clock + 1), Ok(saved))
  }

  /** Deletes a task reachable through its sample; writes no audit log. */
  function DestroyTask(db: Db, requester: UserId, samplePk: SamplePk, t: TaskPk): (r: Reply<()>)
    ensures r.outcome.NotFound? <==> t !in VisibleTasks(db, requester, samplePk)
    ensures r.outcome.Ok? || r.outcome.NotFound?
    ensures !r.outcome.Ok? ==> r.db == db
    ensures r.outcome.Ok? ==> r.db == db.(tasks := db.tasks - {t})
  {
    if t !in VisibleTasks(db, requester, samplePk) then Reply(db, NotFound)
    else Reply(db.(tasks := db.tasks - {t}), Ok(()))
  }

  // ---------------------------------------------------------------------
  // Each request keeps the tables consistent

  lemma CreateSamplePreservesValid(db: Db, requester: UserId, d: SampleData)
    requires Valid(db) && requester in db.users
    ensures Valid(CreateSample(db, requester, d).db)
  {
    if SampleDataError(db, None, d, false).None? {
      CreateSampleStores(db, requester, d);
      RegistrationKeepsSamplesValid(db, requester, d);
      RegistrationKeepsTasksValid(db, requester, d);
      RegistrationKeepsLogsValid(db, requester, d);
    }
  }

  /** The state an accepted create stores: the new row under the next key,
      its registration log, and the clock and key counter advanced. */
  function Registration(db: Db, requester: UserId, d: SampleData): Db
    requires SampleDataError(db, None, d, false).None?
  {
    var pk := db.nextSamplePk;
    db.(samples := db.samples[pk := NewSample(d, requester, db.clock)],
        auditLogs := db.auditLogs + [AuditLog(pk, Some(requester), AuditActions.REGISTERED, db.clock)],
        clock := db.clock + 1, nextSamplePk := pk + 1)
  }

  lemma CreateSampleStores(db: Db, requester: UserId, d: SampleData)
    requires SampleDataError(db, None, d, false).None?
    ensures CreateSample(db, requester, d) == Reply(Registration(db, requester, d), Ok(db.nextSamplePk))
  {
  }

  lemma RegistrationKeepsSamplesValid(db: Db, requester: UserId, d: SampleData)
    requires SampleIdsUnique(db.samples) && SamplesValid(db) && requester in db.users
    requires SampleDataError(db, None, d, false).None?
    ensures SampleIdsUnique(Registration(db, requester, d).samples) && SamplesValid(Registration(db, requester, d))
  {
    var after := Registration(db, requester, d);
    var pk, s := db.nextSamplePk, NewSample(d, requester, db.clock);
    assert !SampleIdTaken(db, Trim(d.sampleId.value), None);
    SampleIdUniqueAfterSave(db.samples, pk, s);
    forall p | p in after.samples
      ensures p < after.nextSamplePk && WellFormedSample(after.samples[p])
      ensures RefersToUser(after, after.samples[p].owner) && after.samples[p].updatedAt < after.clock
    {
      if p != pk {
        assert after.samples[p] == db.samples[p];
      }
    }
  }

  lemma RegistrationKeepsTasksValid(db: Db, requester: UserId, d: SampleData)
    requires TasksValid(db) && SampleDataError(db, None, d, false).None?
    ensures TasksValid(Registration(db, requester, d))
  {
    var after := Registration(db, requester, d);
    forall t | t in after.tasks
      ensures after.tasks[t].sample in after.samples && after.tasks[t].updatedAt < after.clock
      ensures RefersToUser(after, after.tasks[t].analyst)
    {
    }
  }

  lemma RegistrationKeepsLogsValid(db: Db, requester: UserId, d: SampleData)
    requires AuditLogsValid(db) && requester in db.users && SampleDataError(db, None, d, false).None?
    ensures AuditLogsValid(Registration(db, requester, d))
  {
    var after := Registration(db, requester, d);
    AppendLogKeepsValid(db, after, AuditLog(db.nextSamplePk, Some(requester), AuditActions.REGISTERED, db.clock));
  }

  /** What an accepted update stores: the saved row, the clock advanced, and
      a log appended exactly when the status changed. */
  lemma UpdateSampleStores(db: Db, requester: UserId, pk: SamplePk, d: SampleData, partial: bool)
    requires OwnedBy(db, pk, requester) && SampleDataError(db, Some(pk), d, partial).None?
    ensures var before := db.samples[pk];
            var saved := ApplySampleData(before, d, db.clock);
            UpdateSample(db, requester, pk, d, partial) ==
              Reply(db.(samples := db.samples[pk := saved], clock := db.clock + 1,
                        auditLogs := db.auditLogs +
                          (if before.status != saved.status
                           then [AuditLog(pk, Some(requester), AuditActions.StatusChanged(before.status, saved.status), db.clock)]
                           else [])),
                    Ok(saved))
  {
  }

  /** Appending a log stamped with the current clock keeps the log table
      valid, given the same samples and users and a later clock. */
  lemma AppendLogKeepsValid(db: Db, after: Db, log: AuditLog)
    requires AuditLogsValid(db)
    requires after.auditLogs == db.auditLogs + [log]
    requires db.samples.Keys <= after.samples.Keys && db.users <= after.users && db.clock < after.clock
    requires log.sample in after.samples && RefersToUser(after, log.actor) && log.timestamp == db.clock
    ensures AuditLogsValid(after)
  {
    var logs := after.auditLogs;
    forall i, j | 0 <= i < j < |logs| ensures logs[i].timestamp < logs[j].timestamp {
      if j < |db.auditLogs| {
        assert logs[i] == db.auditLogs[i] && logs[j] == db.auditLogs[j];
      } else {
        assert logs[i] == db.auditLogs[i];
      }
    }
    forall i | 0 <= i < |logs|
      ensures logs[i].sample in after.samples && RefersToUser(after, logs[i].actor) && logs[i].timestamp < after.clock
    {
      if i < |db.auditLogs| {
        assert logs[i] == db.auditLogs[i];
      }
    }
  }

  /** Saving row `s` under key `pk` keeps sample_id unique when no other row has its identifier. */
  lemma SampleIdUniqueAfterSave(samples: map<SamplePk, Sample>, pk: SamplePk, s: Sample)
    requires SampleIdsUnique(samples)
    requires forall p :: p in samples && p != pk ==> samples[p].sampleId != s.sampleId
    ensures SampleIdsUnique(samples[pk := s])
  {
  }

  lemma UpdateSamplePreservesValid(db: Db, requester: UserId, pk: SamplePk, d: SampleData, partial: bool)
    requires Valid(db)
    ensures Valid(UpdateSample(db, requester, pk, d, partial).db)
  {
    if OwnedBy(db, pk, requester) && SampleDataError(db, Some(pk), d, partial).None? {
      var r := UpdateSample(db, requester, pk, d, partial);
      UpdateSampleStores(db, requester, pk, d, partial);
      UpdateSampleKeepsSamplesValid(db, requester, pk, d, partial);
      UpdateSampleKeepsLogsValid(db, requester, pk, d, partial);
      assert TasksValid(r.db) by {
        forall t | t in r.db.tasks
          ensures r.db.tasks[t].sample in r.db.samples && r.db.tasks[t].updatedAt < r.db.clock
          ensures RefersToUser(r.db, r.db.tasks[t].analyst)
        {
          assert r.db.tasks[t] == db.tasks[t];
        }
      }
    }
  }

  lemma UpdateSampleKeepsLogsValid(db: Db, requester: UserId, pk: SamplePk, d: SampleData, partial: bool)
    requires Valid(db)
    ensures AuditLogsValid(UpdateSample(db, requester, pk, d, partial).db)
  {
    var r := UpdateSample(db, requester, pk, d, partial);
    if r.outcome.Ok? {
      var before := db.samples[pk];
      assert requester in db.users by {
        assert RefersToUser(db, before.owner);
      }
      if before.status != r.outcome.value.status {
        var log := AuditLog(pk, Some(requester), AuditActions.StatusChanged(before.status, r.outcome.value.status), db.clock);
        assert r.db.auditLogs == db.auditLogs + [log];
        AppendLogKeepsValid(db, r.db, log);
      }
    }
  }

  lemma UpdateSampleKeepsSamplesValid(db: Db, requester: UserId, pk: SamplePk, d: SampleData, partial: bool)
    requires Valid(db)
    ensures var r := UpdateSample(db, requester, pk, d, partial);
            SampleIdsUnique(r.db.samples) && SamplesValid(r.db)
  {
    var r := UpdateSample(db, requester, pk, d, partial);
    if r.outcome.Ok? {
      var saved := r.outcome.value;
      if d.sampleId.Some? {
        assert !SampleIdTaken(db, Trim(d.sampleId.value), Some(pk));
      }
      assert forall p :: p in db.samples && p != pk ==> db.samples[p].sampleId != saved.sampleId;
      SampleIdUniqueAfterSave(db.samples, pk, saved);
      forall p | p in r.db.samples
        ensures p < r.db.nextSamplePk && WellFormedSample(r.db.samples[p])
        ensures RefersToUser(r.db, r.db.samples[p].owner) && r.db.samples[p].updatedAt < r.db.clock
      {
        if p != pk {
          assert r.db.samples[p] == db.samples[p];
        }
      }
    }
  }

  lemma DestroySamplePreservesValid(db: Db, requester: UserId, pk: SamplePk)
    requires Valid(db)
    ensures Valid(DestroySample(db, requester, pk).db)
  {
    DeleteSampleCascadePreservesValid(db, pk);
  }

  lemma CreateTaskPreservesValid(db: Db, requester: UserId, samplePk: SamplePk, d: TaskData)
    requires Valid(db)
    ensures Valid(CreateTask(db, requester, samplePk, d).db)
  {
    if TaskDataError(db, d, false).None? && OwnedBy(db, samplePk, requester) {
      var blank := Task(samplePk, [], DEFAULT_TASK_STATUS, DEFAULT_TASK_PRIORITY, None, None, None, None, db.clock, db.clock);
      AcceptedTaskWellFormed(db, blank, d, false, db.clock);
      SaveTaskKeepsValid(db, db.nextTaskPk, NewTask(samplePk, d, db.clock), db.nextTaskPk + 1);
      CreateTaskStores(db, requester, samplePk, d);
    }
  }

  lemma UpdateTaskPreservesValid(db: Db, requester: UserId, samplePk: SamplePk, t: TaskPk, d: TaskData, partial: bool)
    requires Valid(db)
    ensures Valid(UpdateTask(db, requester, samplePk, t, d, partial).db)
  {
    if t in VisibleTasks(db, requester, samplePk) && TaskDataError(db, d, partial).None? {
      var before := db.tasks[t];
      assert WellFormedTask(before) && RefersToUser(db, before.analyst) && before.updatedAt < db.clock;
      AcceptedTaskWellFormed(db, before, d, partial, db.clock);
      SaveTaskKeepsValid(db, t, ApplyTaskData(before, d, db.clock), db.nextTaskPk);
      UpdateTaskStores(db, requester, samplePk, t, d, partial);
    }
  }

  /** What an accepted task create stores: the new row under the next key,
      with the clock and key counter advanced. */
  lemma CreateTaskStores(db: Db, requester: UserId, samplePk: SamplePk, d: TaskData)
    requires TaskDataError(db, d, false).None? && OwnedBy(db, samplePk, requester)
    ensures CreateTask(db, requester, samplePk, d)
              == Reply(db.(tasks := db.tasks[db.nextTaskPk := NewTask(samplePk, d, db.clock)],
                           clock := db.clock + 1, nextTaskPk := db.nextTaskPk + 1),
                       Ok(db.nextTaskPk))
  {
  }

  /** What an accepted task update stores: the saved row, with the clock advanced. */
  lemma UpdateTaskStores(db: Db, requester: UserId, samplePk: SamplePk, t: TaskPk, d: TaskData, partial: bool)
    requires t in VisibleTasks(db, requester, samplePk) && TaskDataError(db, d, partial).None?
    ensures UpdateTask(db, requester, samplePk, t, d, partial).db
              == db.(tasks := db.tasks[t := ApplyTaskData(db.tasks[t], d, db.clock)], clock := db.clock + 1)
  {
  }

  /** The save of accepted task data is a well-formed row whose analyst exists. */
  lemma AcceptedTaskWellFormed(db: Db, t: Task, d: TaskData, partial: bool, now: Timestamp)
    requires TaskDataError(db, d, partial).None?
    requires d.name.None? ==> ValidName(t.name) && Trimmed(t.name)
    requires ValidResultText(t.resultText) && (t.resultText.Some? ==> Trimmed(t.resultText.value))
    requires ValidResultNumeric(t.resultNumeric) && RefersToUser(db, t.analyst) && t.createdAt <= now
    ensures WellFormedTask(ApplyTaskData(t, d, now)) && RefersToUser(db, ApplyTaskData(t, d, now).analyst)
  {
  }

  /** Storing a well-formed task under an existing sample, with the clock
      advanced, keeps every constraint. */
  lemma SaveTaskKeepsValid(db: Db, t: TaskPk, task: Task, next: TaskPk)
    requires Valid(db)
    requires t < next && db.nextTaskPk <= next
    requires task.sample in db.samples && WellFormedTask(task) && RefersToUser(db, task.analyst)
    requires task.updatedAt <= db.clock
    ensures Valid(db.(tasks := db.tasks[t := task], clock := db.clock + 1, nextTaskPk := next))
  {
    var after := db.(tasks := db.tasks[t := task], clock := db.clock + 1, nextTaskPk := next);
    assert SamplesValid(after) by {
      forall p | p in after.samples
        ensures after.samples[p].updatedAt < after.clock && RefersToUser(after, after.samples[p].owner)
      {
        assert db.samples[p].updatedAt < db.clock && RefersToUser(db, db.samples[p].owner);
      }
    }
    assert TasksValid(after) by {
      forall q | q in after.tasks
        ensures q < next && after.tasks[q].sample in after.samples && WellFormedTask(after.tasks[q])
        ensures RefersToUser(after, after.tasks[q].analyst) && after.tasks[q].updatedAt < after.clock
      {
        if q != t {
          assert after.tasks[q] == db.tasks[q];
        }
      }
    }
    assert AuditLogsValid(after) by {
      forall i | 0 <= i < |after.auditLogs|
        ensures after.auditLogs[i].timestamp < after.clock && RefersToUser(after, after.auditLogs[i].actor)
      {
        assert db.auditLogs[i].timestamp < db.clock && RefersToUser(db, db.auditLogs[i].actor);
      }
    }
  }

  lemma DestroyTaskPreservesValid(db: Db, requester: UserId, samplePk: SamplePk, t: TaskPk)
    requires Valid(db)
    ensures Valid(DestroyTask(db, requester, samplePk, t).db)
  {
    if t in VisibleTasks(db, requester, samplePk) {
      RemoveTaskKeepsTasksValid(db, t);
    }
  }

  lemma RemoveTaskKeepsTasksValid(db: Db, t: TaskPk)
    requires TasksValid(db)
    ensures TasksValid(db.(tasks := db.tasks - {t}))
  {
    var after := db.(tasks := db.tasks - {t});
    forall q | q in after.tasks ensures after.tasks[q] == db.tasks[q] { }
  }

  // ---------------------------------------------------------------------
  // Refused input changes nothing

  /** A create whose trimmed sample_id is already in use is refused. */
  lemma CreateDuplicateSampleIdRejected(db: Db, requester: UserId, d: SampleData, p: SamplePk)
    requires Valid(db)
    requires d.sampleId.Some? && p in db.samples && Trim(d.sampleId.value) == db.samples[p].sampleId
    ensures CreateSample(db, requester, d) == Reply(db, Invalid(DuplicateSampleId))
  {
  }

  /** An update giving a sample another sample's sample_id, after trimming, is refused. */
  lemma UpdateDuplicateSampleIdRejected(db: Db, requester: UserId, pk: SamplePk, d: SampleData, partial: bool, p: SamplePk)
    requires Valid(db) && OwnedBy(db, pk, requester)
    requires d.sampleId.Some? && p in db.samples && p != pk && Trim(d.sampleId.value) == db.samples[p].sampleId
    ensures UpdateSample(db, requester, pk, d, partial) == Reply(db, Invalid(DuplicateSampleId))
  {
  }

  /** Padding an existing identifier with spaces does not get round the unique check. */
  lemma PaddedDuplicateRejected()
    ensures var db := CreateSample(EmptyDb({1}), 1, SampleData(Some("S-1"), Some("A"), None)).db;
            CreateSample(db, 1, SampleData(Some(" S-1 "), Some("B"), None)) == Reply(db, Invalid(DuplicateSampleId))
  {
    var d := SampleData(Some("S-1"), Some("A"), None);
    TrimKeepsTrimmed("S-1");
    TrimKeepsTrimmed("A");
    assert SampleDataError(EmptyDb({1}), None, d, false) == None;
    var db := CreateSample(EmptyDb({1}), 1, d).db;
    assert db.samples[0].sampleId == "S-1";
    TrimPadding(" ", "S-1", " ");
    assert " " + "S-1" + " " == " S-1 ";
    CreatePreservesValidFromEmpty(d);
    CreateDuplicateSampleIdRejected(db, 1, SampleData(Some(" S-1 "), Some("B"), None), 0);
  }

  /** A sample_id or name holding a null character is refused on create and
      update, wherever the character sits. */
  lemma NullCharacterRejected(db: Db, requester: UserId, pk: SamplePk, d: SampleData, partial: bool)
    requires (d.sampleId.Some? && '\0' in d.sampleId.value) || (d.name.Some? && '\0' in d.name.value)
    ensures CreateSample(db, requester, d).outcome.Invalid? && CreateSample(db, requester, d).db == db
    ensures OwnedBy(db, pk, requester) ==> UpdateSample(db, requester, pk, d, partial).outcome.Invalid?
    ensures UpdateSample(db, requester, pk, d, partial).db == db
  {
    if d.sampleId.Some? && '\0' in d.sampleId.value {
      TrimKeepsNonWhitespace(d.sampleId.value, '\0');
    } else {
      TrimKeepsNonWhitespace(d.name.value, '\0');
    }
  }

  /** A task name or result text holding a null character is refused on
      create and update. */
  lemma NullCharacterInTaskRejected(db: Db, requester: UserId, samplePk: SamplePk, t: TaskPk, d: TaskData, partial: bool)
    requires (d.name.Some? && '\0' in d.name.value)
          || (d.resultText.Some? && d.resultText.value.Some? && '\0' in d.resultText.value.value)
    ensures CreateTask(db, requester, samplePk, d).outcome.Invalid? && CreateTask(db, requester, samplePk, d).db == db
    ensures t in VisibleTasks(db, requester, samplePk) ==> UpdateTask(db, requester, samplePk, t, d, partial).outcome.Invalid?
    ensures UpdateTask(db, requester, samplePk, t, d, partial).db == db
  {
    if d.name.Some? && '\0' in d.name.value {
      TrimKeepsNonWhitespace(d.name.value, '\0');
    } else {
      TrimKeepsNonWhitespace(d.resultText.value.value, '\0');
    }
  }

  lemma CreatePreservesValidFromEmpty(d: SampleData)
    ensures Valid(CreateSample(EmptyDb({1}), 1, d).db)
  {
    CreateSamplePreservesValid(EmptyDb({1}), 1, d);
  }

  /** A create, or an update that is not partial, without sample_id or name is refused. */
  lemma RequiredSampleFieldsMissing(db: Db, requester: UserId, pk: SamplePk, d: SampleData)
    requires d.sampleId.None? || d.name.None?
    ensures CreateSample(db, requester, d).outcome.Invalid?
    ensures CreateSample(db, requester, d).db == db
    ensures d.sampleId.None? ==> CreateSample(db, requester, d).outcome == Invalid(SampleIdRequired)
    ensures OwnedBy(db, pk, requester) ==> UpdateSample(db, requester, pk, d, false).outcome.Invalid?
    ensures UpdateSample(db, requester, pk, d, false).db == db
  {
  }

  /** A status outside the four choices is refused by create and update alike. */
  lemma InvalidSampleStatusRejected(db: Db, requester: UserId, pk: SamplePk, d: SampleData, partial: bool)
    requires d.status.Some? && ParseSampleStatus(d.status.value).None?
    ensures CreateSample(db, requester, d).outcome.Invalid? && CreateSample(db, requester, d).db == db
    ensures OwnedBy(db, pk, requester) ==> UpdateSample(db, requester, pk, d, partial).outcome.Invalid?
    ensures UpdateSample(db, requester, pk, d, partial).db == db
  {
  }

  /** A task status or priority outside its choices is refused by create and update alike. */
  lemma InvalidTaskChoiceRejected(db: Db, requester: UserId, samplePk: SamplePk, t: TaskPk, d: TaskData, partial: bool)
    requires (d.status.Some? && ParseTaskStatus(d.status.value).None?)
          || (d.priority.Some? && ParseTaskPriority(d.priority.value).None?)
    ensures CreateTask(db, requester, samplePk, d).outcome.Invalid? && CreateTask(db, requester, samplePk, d).db == db
    ensures t in VisibleTasks(db, requester, samplePk) ==> UpdateTask(db, requester, samplePk, t, d, partial).outcome.Invalid?
    ensures UpdateTask(db, requester, samplePk, t, d, partial).db == db
  {
  }

  // ---------------------------------------------------------------------
  // Reading a record and submitting it back

  /** The sample's fields as the serializer presents them. */
  function SampleDataOf(s: Sample): (d: SampleData)
    ensures d.sampleId == Some(s.sampleId) && d.name == Some(s.name) && d.status.Some?
    ensures ParseSampleStatus(d.status.value) == Some(s.status)
  {
    SampleStatusRoundTrip(s.status);
    SampleData(Some(s.sampleId), Some(s.name), Some(SampleStatusValue(s.status)))
  }

  /** Submitting a sample's own fields back, as a full update, is accepted
      and changes nothing but its update time; no log is written. */
  lemma ResubmitSampleUnchanged(db: Db, requester: UserId, pk: SamplePk)
    requires Valid(db) && OwnedBy(db, pk, requester)
    ensures var r := UpdateSample(db, requester, pk, SampleDataOf(db.samples[pk]), false);
            && r.outcome == Ok(db.samples[pk].(updatedAt := db.clock))
            && r.db.samples == db.samples[pk := db.samples[pk].(updatedAt := db.clock)]
            && r.db.auditLogs == db.auditLogs
  {
    var s := db.samples[pk];
    assert !SampleIdTaken(db, s.sampleId, Some(pk));
    ResubmitSampleAccepted(db, pk, s);
    ResubmitSampleSaved(s, db.clock);
  }

  lemma ResubmitSampleAccepted(db: Db, pk: SamplePk, s: Sample)
    requires WellFormedSample(s) && !SampleIdTaken(db, s.sampleId, Some(pk))
    ensures SampleDataError(db, Some(pk), SampleDataOf(s), false) == None
  {
    TrimKeepsTrimmed(s.sampleId);
    TrimKeepsTrimmed(s.name);
  }

  lemma ResubmitSampleSaved(s: Sample, now: Timestamp)
    requires WellFormedSample(s)
    ensures ApplySampleData(s, SampleDataOf(s), now) == s.(updatedAt := now)
  {
    TrimKeepsTrimmed(s.sampleId);
    TrimKeepsTrimmed(s.name);
  }

  /** The task's fields as a submission would carry them. */
  function TaskDataOf(t: Task): (d: TaskData)
    ensures d.name == Some(t.name) && d.status.Some? && d.priority.Some?
    ensures ParseTaskStatus(d.status.value) == Some(t.status)
    ensures ParseTaskPriority(d.priority.value) == Some(t.priority)
    ensures d.dueDate == Some(t.dueDate) && d.analyst == Some(t.analyst)
    ensures d.resultText == Some(t.resultText) && d.resultNumeric == Some(t.resultNumeric)
  {
    TaskStatusRoundTrip(t.status);
    TaskPriorityRoundTrip(t.priority);
    TaskData(Some(t.name), Some(TaskStatusValue(t.status)), Some(TaskPriorityValue(t.priority)),
             Some(t.dueDate), Some(t.analyst), Some(t.resultText), Some(t.resultNumeric))
  }

  /** Submitting a task's own fields back, as a full update, is accepted and
      changes nothing but its update time. */
  lemma ResubmitTaskUnchanged(db: Db, requester: UserId, samplePk: SamplePk, t: TaskPk)
    requires Valid(db) && t in VisibleTasks(db, requester, samplePk)
    ensures var r := UpdateTask(db, requester, samplePk, t, TaskDataOf(db.tasks[t]), false);
            && r.outcome == Ok(db.tasks[t].(updatedAt := db.clock))
            && r.db.tasks == db.tasks[t := db.tasks[t].(updatedAt := db.clock)]
  {
    ResubmitTaskAccepted(db, db.tasks[t]);
    ResubmitTaskSaved(db.tasks[t], db.clock);
  }

  lemma ResubmitTaskAccepted(db: Db, task: Task)
    requires WellFormedTask(task) && RefersToUser(db, task.analyst)
    ensures TaskDataError(db, TaskDataOf(task), false) == None
  {
    TrimKeepsTrimmed(task.name);
    if task.resultText.Some? {
      TrimKeepsTrimmed(task.resultText.value);
    }
  }

  lemma ResubmitTaskSaved(task: Task, now: Timestamp)
    requires WellFormedTask(task)
    ensures ApplyTaskData(task, TaskDataOf(task), now) == task.(updatedAt := now)
  {
    var d := TaskDataOf(task);
    var r := ApplyTaskData(task, d, now);
    TrimKeepsTrimmed(task.name);
    if task.resultText.Some? {
      TrimKeepsTrimmed(task.resultText.value);
    }
    assert r.name == task.name && r.resultText == task.resultText;
    assert r.status == ParseTaskStatus(d.status.value).value == task.status;
    assert r.priority == ParseTaskPriority(d.priority.value).value == task.priority;
  }

  // ---------------------------------------------------------------------
  // The ownership guard

  /** Update and delete of a sample the requester does not own are
      not-found and change nothing. */
  lemma ForeignSampleUntouchable(db: Db, requester: UserId, pk: SamplePk, d: SampleData, partial: bool)
    requires !OwnedBy(db, pk, requester)
    ensures UpdateSample(db, requester, pk, d, partial) == Reply(db, NotFound)
    ensures DestroySample(db, requester, pk) == Reply(db, NotFound)
  {
  }

  /** The new sample joins the requester's list and nobody else's. */
  lemma CreateSampleVisibility(db: Db, requester: UserId, d: SampleData, v: UserId)
    requires Valid(db)
    ensures var r := CreateSample(db, requester, d);
            r.outcome.Ok? ==>
              && r.outcome.value !in db.samples
              && VisibleSamples(r.db, requester) == VisibleSamples(db, requester) + {r.outcome.value}
              && (v != requester ==> VisibleSamples(r.db, v) == VisibleSamples(db, v))
  {
  }

  /** A task can be added only under a sample the requester owns, and then
      it shows up in that sample's task list. */
  lemma CreateTaskVisibility(db: Db, requester: UserId, samplePk: SamplePk, d: TaskData)
    requires Valid(db)
    ensures var r := CreateTask(db, requester, samplePk, d);
            && (r.outcome.Ok? ==> samplePk in VisibleSamples(db, requester))
            && (r.outcome.Ok? ==>
                  VisibleTasks(r.db, requester, samplePk) == VisibleTasks(db, requester, samplePk) + {r.outcome.value})
  {
  }

  // ---------------------------------------------------------------------
  // The audit recorder

  /** A sample starts with exactly one log: its registration by the requester. */
  lemma CreateSampleAuditTrail(db: Db, requester: UserId, d: SampleData)
    requires Valid(db)
    ensures var r := CreateSample(db, requester, d);
            r.outcome.Ok? ==>
              AuditTrail(r.db, r.outcome.value) == [AuditLog(r.outcome.value, Some(requester), AuditActions.REGISTERED, db.clock)]
  {
    var r := CreateSample(db, requester, d);
    if r.outcome.Ok? {
      var pk := r.outcome.value;
      var isPk := (e: AuditLog) => e.sample == pk;
      var log := AuditLog(pk, Some(requester), AuditActions.REGISTERED, db.clock);
      FilterAppend(db.auditLogs, [log], isPk);
      FilterKeepsNone(db.auditLogs, isPk);
      assert Filter([log], isPk) == [log];
    }
  }

  /** An update extends the sample's own trail by one entry exactly when
      the status changed, quoting the old status before the new one, and
      leaves every other sample's trail as it was. */
  lemma UpdateSampleAuditTrail(db: Db, requester: UserId, pk: SamplePk, d: SampleData, partial: bool, p: SamplePk)
    ensures var r := UpdateSample(db, requester, pk, d, partial);
            AuditTrail(r.db, p) ==
              if r.outcome.Ok? && p == pk && db.samples[pk].status != r.outcome.value.status
              then AuditTrail(db, p) + [AuditLog(pk, Some(requester),
                                          AuditActions.StatusChanged(db.samples[pk].status, r.outcome.value.status),
                                          db.clock)]
              else AuditTrail(db, p)
  {
    var r := UpdateSample(db, requester, pk, d, partial);
    var isP := (e: AuditLog) => e.sample == p;
    if r.outcome.Ok? && db.samples[pk].status != r.outcome.value.status {
      var log := AuditLog(pk, Some(requester), AuditActions.StatusChanged(db.samples[pk].status, r.outcome.value.status), db.clock);
      FilterAppend(db.auditLogs, [log], isP);
      assert Filter([log], isP) == if p == pk then [log] else [];
    }
  }

  /** The number of new logs after an update is 1 if the status changed and 0 otherwise. */
  lemma UpdateSampleAuditCount(db: Db, requester: UserId, pk: SamplePk, d: SampleData, partial: bool)
    ensures var r := UpdateSample(db, requester, pk, d, partial);
            && db.auditLogs <= r.db.auditLogs
            && (|r.db.auditLogs| == |db.auditLogs| + 1 <==>
                  r.outcome.Ok? && db.samples[pk].status != r.outcome.value.status)
            && (|r.db.auditLogs| == |db.auditLogs| <==>
                  !(r.outcome.Ok? && db.samples[pk].status != r.outcome.value.status))
  {
  }

  /** An update that leaves the status alone, such as a rename, logs nothing. */
  lemma UpdateWithoutStatusChangeIsSilent(db: Db, requester: UserId, pk: SamplePk, d: SampleData, partial: bool)
    requires OwnedBy(db, pk, requester)
    requires d.status == None || d.status == Some(SampleStatusValue(db.samples[pk].status))
    ensures UpdateSample(db, requester, pk, d, partial).db.auditLogs == db.auditLogs
  {
  }

  /** The recorded transition can be read back from its text. */
  lemma UpdateSampleLogNamesTransition(db: Db, requester: UserId, pk: SamplePk, d: SampleData, partial: bool)
    ensures var r := UpdateSample(db, requester, pk, d, partial);
            |r.db.auditLogs| > |db.auditLogs| ==>
              && r.outcome.Ok?
              && AuditActions.ParseStatusChange(r.db.auditLogs[|db.auditLogs|].action)
                   == Some((db.samples[pk].status, r.outcome.value.status))
  {
    var r := UpdateSample(db, requester, pk, d, partial);
    if |r.db.auditLogs| > |db.auditLogs| {
      AuditActions.StatusChangedRoundTrip(db.samples[pk].status, r.outcome.value.status);
    }
  }

  /** Task requests never write the audit log. */
  lemma TaskRequestsDoNotAudit(db: Db, requester: UserId, samplePk: SamplePk, t: TaskPk,
                               input: TaskData, changes: TaskData, partial: bool)
    ensures CreateTask(db, requester, samplePk, input).db.auditLogs == db.auditLogs
    ensures UpdateTask(db, requester, samplePk, t, changes, partial).db.auditLogs == db.auditLogs
    ensures DestroyTask(db, requester, samplePk, t).db.auditLogs == db.auditLogs
  {
  }

  // ---------------------------------------------------------------------
  // Delete cascade as seen from the requests

  /** After a sample is deleted nothing refers to it: no task, no log, no task list. */
  lemma DestroySampleLeavesNoOrphans(db: Db, requester: UserId, pk: SamplePk, v: UserId)
    requires Valid(db)
    ensures var r := DestroySample(db, requester, pk);
            r.outcome.Ok? ==>
              && pk !in r.db.samples
              && (forall t :: t in r.db.tasks ==> r.db.tasks[t].sample != pk)
              && AuditTrail(r.db, pk) == []
              && VisibleTasks(r.db, v, pk) == {}
  {
    var r := DestroySample(db, requester, pk);
    if r.outcome.Ok? {
      FilterKeepsNone(r.db.auditLogs, (e: AuditLog) => e.sample == pk);
    }
  }
}
