/** The records of the sample tracker (samples, tasks, audit logs), the
    enumerations their status and priority fields draw from, the limits and
    defaults the fields declare, and the string forms shown for each record.
    Users appear only as primary keys: their own fields are not modelled. */
module Models {
  import opened Fields

  datatype Option<T> = None | Some(value: T)

  /** The value carried, or the default when the field was left out. */
  function GetOr<T>(o: Option<T>, default: T): (r: T)
    ensures o.Some? ==> r == o.value
    ensures o.None? ==> r == default
  {
    if o.Some? then o.value else default
  }

  type UserId = nat
  type SamplePk = nat
  type TaskPk = nat

  /** A logical clock reading; stands for the creation and update times. */
  type Timestamp = nat

  /** A calendar day, kept opaque (days since some epoch). */
  type Day = nat

  /** A decimal with three decimal places, kept as its value times 1000. */
  type Thousandths = int

  // ---------------------------------------------------------------------
  // Enumerations and their stored values

  datatype SampleStatus = Received | Processing | Analyzed | Complete

  datatype TaskStatus = Pending | InProgress | InReview | Completed

  datatype TaskPriority = High | Medium | Low

  const SAMPLE_STATUS_MAX_LENGTH := 20
  const TASK_STATUS_MAX_LENGTH := 20
  const TASK_PRIORITY_MAX_LENGTH := 10

  const DEFAULT_SAMPLE_STATUS := Received
  const DEFAULT_TASK_STATUS := Pending
  const DEFAULT_TASK_PRIORITY := Medium

  /** The value stored in the status column; it fits the column and holds
      no single quote (so it can be quoted inside an audit message). */
  function SampleStatusValue(s: SampleStatus): (v: string)
    ensures 0 < |v| <= SAMPLE_STATUS_MAX_LENGTH
    ensures '\'' !in v
  {
    match s
    case Received => "Received"
    case Processing => "Processing"
    case Analyzed => "Analyzed"
    case Complete => "Complete"
  }

  /** The choice check on the status column: only the four values are accepted. */
  function ParseSampleStatus(v: string): (r: Option<SampleStatus>)
    ensures r.Some? ==> SampleStatusValue(r.value) == v
  {
    if v == "Received" then Some(Received)
    else if v == "Processing" then Some(Processing)
    else if v == "Analyzed" then Some(Analyzed)
    else if v == "Complete" then Some(Complete)
    else None
  }

  lemma SampleStatusRoundTrip(s: SampleStatus)
    ensures ParseSampleStatus(SampleStatusValue(s)) == Some(s)
  {
  }

  function TaskStatusValue(s: TaskStatus): (v: string)
    ensures 0 < |v| <= TASK_STATUS_MAX_LENGTH
  {
    match s
    case Pending => "Pending"
    case InProgress => "In Progress"
    case InReview => "In Review"
    case Completed => "Completed"
  }

  function ParseTaskStatus(v: string): (r: Option<TaskStatus>)
    ensures r.Some? ==> TaskStatusValue(r.value) == v
  {
    if v == "Pending" then Some(Pending)
    else if v == "In Progress" then Some(InProgress)
    else if v == "In Review" then Some(InReview)
    else if v == "Completed" then Some(Completed)
    else None
  }

  lemma TaskStatusRoundTrip(s: TaskStatus)
    ensures ParseTaskStatus(TaskStatusValue(s)) == Some(s)
  {
  }

  function TaskPriorityValue(p: TaskPriority): (v: string)
    ensures 0 < |v| <= TASK_PRIORITY_MAX_LENGTH
  {
    match p
    case High => "High"
    case Medium => "Medium"
    case Low => "Low"
  }

  function ParseTaskPriority(v: string): (r: Option<TaskPriority>)
    ensures r.Some? ==> TaskPriorityValue(r.value) == v
  {
    if v == "High" then Some(High)
    else if v == "Medium" then Some(Medium)
    else if v == "Low" then Some(Low)
    else None
  }

  lemma TaskPriorityRoundTrip(p: TaskPriority)
    ensures ParseTaskPriority(TaskPriorityValue(p)) == Some(p)
  {
  }

  // ---------------------------------------------------------------------
  // Records

  datatype Sample = Sample(
    sampleId: string,
    name: string,
    owner: Option<UserId>,
    status: SampleStatus,
    createdAt: Timestamp,
    updatedAt: Timestamp)

  datatype Task = Task(
    sample: SamplePk,
    name: string,
    status: TaskStatus,
    priority: TaskPriority,
    dueDate: Option<Day>,
    analyst: Option<UserId>,
    resultText: Option<string>,
    resultNumeric: Option<Thousandths>,
    createdAt: Timestamp,
    updatedAt: Timestamp)

  datatype AuditLog = AuditLog(
    sample: SamplePk,
    actor: Option<UserId>,
    action: string,
    timestamp: Timestamp)

  // ---------------------------------------------------------------------
  // Field limits

  const SAMPLE_ID_MAX_LENGTH := 100
  const NAME_MAX_LENGTH := 255
  const RESULT_TEXT_MAX_LENGTH := 255

  /** max_digits 10 with 3 decimal places: at most 10 digits in the value times 1000. */
  const RESULT_NUMERIC_LIMIT := 10_000_000_000

  /** A sample_id is required (not blank), bounded and free of null characters. */
  predicate ValidSampleId(id: string) {
    0 < |id| <= SAMPLE_ID_MAX_LENGTH && NullFree(id)
  }

  /** Names are required (not blank), bounded and free of null characters,
      for samples and for tasks. */
  predicate ValidName(name: string) {
    0 < |name| <= NAME_MAX_LENGTH && NullFree(name)
  }

  /** A result text is null, or bounded and free of null characters. */
  predicate ValidResultText(text: Option<string>) {
    text.Some? ==> |text.value| <= RESULT_TEXT_MAX_LENGTH && NullFree(text.value)
  }

  predicate ValidResultNumeric(x: Option<Thousandths>) {
    x.Some? ==> -RESULT_NUMERIC_LIMIT < x.value < RESULT_NUMERIC_LIMIT
  }

  /** Stored text values went through the field cleaning, so none has surrounding whitespace. */
  predicate WellFormedSample(s: Sample) {
    && ValidSampleId(s.sampleId) && Trimmed(s.sampleId)
    && ValidName(s.name) && Trimmed(s.name)
    && s.createdAt <= s.updatedAt
  }

  predicate WellFormedTask(t: Task) {
    && ValidName(t.name) && Trimmed(t.name)
    && ValidResultText(t.resultText) && (t.resultText.Some? ==> Trimmed(t.resultText.value))
    && ValidResultNumeric(t.resultNumeric)
    && t.createdAt <= t.updatedAt
  }

  // ---------------------------------------------------------------------
  // String forms

  /** `<sample_id> (<name>)`: the identifier first, the name in parentheses. */
  function SampleString(s: Sample): (r: string)
    ensures |r| == |s.sampleId| + |s.name| + 3
    ensures r[..|s.sampleId|] == s.sampleId
    ensures r[|s.sampleId|..|s.sampleId| + 2] == " ("
    ensures r[|s.sampleId| + 2..|r| - 1] == s.name && r[|r| - 1] == ')'
  {
    s.sampleId + " (" + s.name + ")"
  }

  /** `<name> for <sample_id>`, where the id is that of the task's sample. */
  function TaskString(t: Task, sampleId: string): (r: string)
    ensures |r| == |t.name| + 5 + |sampleId|
    ensures r[..|t.name|] == t.name && r[|t.name|..|t.name| + 5] == " for "
    ensures r[|r| - |sampleId|..] == sampleId
  {
    t.name + " for " + sampleId
  }

  /** `Log for <sample_id> at <timestamp>`. How a datetime prints is not
      modelled, so the printed timestamp is given as `stamp`. */
  function AuditLogString(sampleId: string, stamp: string): (r: string)
    ensures |r| == 12 + |sampleId| + |stamp|
    ensures r[..8] == "Log for " && r[8..8 + |sampleId|] == sampleId
    ensures r[8 + |sampleId|..12 + |sampleId|] == " at " && r[12 + |sampleId|..] == stamp
  {
    "Log for " + sampleId + " at " + stamp
  }
}
