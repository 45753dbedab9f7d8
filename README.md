# Laboratory sample tracker: ownership-scoped store with audit-on-write

This project models the core of a laboratory sample-tracking web API: one
store holding four tables (users, samples, tasks, audit logs), the
ownership guard that makes a sample and everything under it visible only to
its owner, and the audit recorder that writes an entry when a sample is
registered and when a sample's status changes value. It also models the
delete rules the records declare. Deleting a sample removes its tasks and
audit logs. Deleting a user sets the owner, analyst and actor references
to that user to null.

Files and modules:

- `Fields.dfy` (module `Fields`): how the serializer cleans a submitted
  text field. Surrounding whitespace is removed, the blank, length and
  uniqueness checks run on the cleaned text, and the cleaned text is the
  one stored. Whitespace is what Python's `str.isspace` accepts. Every text
  field also refuses a null character (U+0000).
- `Models.dfy` (module `Models`): the models file. It holds the status and
  priority enumerations with their stored values, the `Sample`, `Task` and
  `AuditLog` records, the field limits and defaults, and the string forms.
- `Tables.dfy` (module `Tables`): the four tables as one value `Db`. It
  holds the integrity constraints (`Valid`), the ownership guard
  (`OwnedBy`), the ownership-scoped queries (`VisibleSamples`,
  `VisibleTasks`, `AuditTrail`) and the two on-delete rules
  (`DeleteSampleCascade`, `DeleteUserSetNull`).
- `AuditActions.dfy` (module `AuditActions`): the two action texts. A
  parser reads the status-change text back, which proves that the text
  names the old status first and the new one second.
- `Requests.dfy` (module `Requests`): every sample and task request as a
  function from the tables before to the tables after plus an `Outcome`.
  An `Outcome` is `Ok`, `NotFound` or `Invalid(error)`; it stands in for
  the HTTP status. A submission lists the writable fields, each present or
  left out, and a flag says whether the update is partial (PATCH) or full
  (PUT). The module also holds the lemmas about these requests.
- `Traces.dfy` (module `Traces`): sequences of requests, each one an atomic
  step, with lemmas by induction over them and a worked two-user scenario.
- `Views.dfy` (module `Views`): class `LabStore`. Its fields are the four
  tables, and its methods follow the handlers step by step: look the
  sample up through the guard, validate, save, compare, audit. Each
  mutating request method is proved to produce exactly the tables and
  reply of the matching function in `Requests`, and to keep `Valid()`.
  `DeleteUser` returns no reply; it is proved to produce exactly the tables
  of `Tables.DeleteUserSetNull`, and to keep `Valid()`.

Primary keys are natural numbers taken from a counter and never reused.
Timestamps are readings of a logical clock. Every create or update that
succeeds, of a sample or of a task, reads the clock once and then advances
it; deletes leave the clock alone. Audit logs are written only by sample
creates and updates, so they have strictly increasing timestamps and stay
in creation order.

A task's priority is declared non-null with default Medium
(samples/models.py:57-61), so every modelled task has a priority.

## Model

| member | source | states |
|---|---|---|
| Fields.Trim | samples/serializers.py:35-50 | the stored form of a text field is no longer than the submitted text and starts and ends with a non-whitespace character, or is empty |
| Fields.TrimBlank | samples/models.py:16-17 | a text trims to the empty string exactly when every character of it is whitespace, so a whitespace-only sample_id or name is blank |
| Fields.TrimPadding | samples/serializers.py:35-50 | whitespace added before and after a cleaned text is exactly what trimming removes |
| Fields.TrimKeepsNonWhitespace | samples/serializers.py:35-50 | trimming removes only whitespace, so every other character of the submitted text, a null character included, is still in the cleaned text |
| Fields.TrimKeepsTrimmed | samples/serializers.py:35-50 | a text that already has no surrounding whitespace is stored exactly as submitted |
| Fields.TrimIdempotent | samples/serializers.py:35-50 | cleaning a cleaned text changes nothing |
| Models.SampleStatusValue | samples/models.py:6-10 | each sample status is stored as a non-empty value of at most 20 characters (the column's max_length) containing no single quote |
| Models.ParseSampleStatus | samples/models.py:19-23 | the stored status column accepts only the four choice values; whatever it accepts is the stored value of that status |
| Models.SampleStatusRoundTrip | samples/models.py:6-10 | reading back the stored value of a sample status gives that same status |
| Models.TaskStatusValue | samples/models.py:31-35 | each task status is stored as a non-empty value of at most 20 characters |
| Models.ParseTaskStatus | samples/models.py:51-55 | the task status column accepts only Pending, In Progress, In Review and Completed |
| Models.TaskStatusRoundTrip | samples/models.py:31-35 | reading back the stored value of a task status gives that same status |
| Models.TaskPriorityValue | samples/models.py:37-40 | each priority is stored as a non-empty value of at most 10 characters |
| Models.ParseTaskPriority | samples/models.py:57-61 | the priority column accepts only High, Medium and Low |
| Models.TaskPriorityRoundTrip | samples/models.py:37-40 | reading back the stored value of a priority gives that same priority |
| Models.SampleString | samples/models.py:28-29 | a sample's string form is its sample_id, then " (", then its name, then ")" |
| Models.TaskString | samples/models.py:80-81 | a task's string form is the task name, then " for ", then its sample's sample_id, each part at its position |
| Models.AuditLogString | samples/models.py:92-93 | a log's string form is "Log for ", then the sample's sample_id, then " at ", then the printed timestamp, each part at its position |
| Tables.EmptyDb | samples/models.py:12-93 | an empty store with any set of users satisfies every integrity constraint |
| Tables.VisibleSamples | samples/views.py:28-32 | the sample list holds only stored samples, and each one's owner is the requester |
| Tables.VisibleTasks | samples/views.py:67-76 | the task list for (sample_pk, user) holds only stored tasks of sample_pk, and is empty unless sample_pk is in the user's sample list |
| Tables.VisibleSamplesAreOwned | samples/views.py:28-32 | a sample is in a user's list exactly when it exists and its owner equals that user |
| Tables.UnownedSampleInvisible | samples/views.py:28-32 | a sample whose owner is null is in nobody's list |
| Tables.VisibleSamplesDisjoint | samples/views.py:28-32 | two different users never see the same sample |
| Tables.VisibleTasksThroughSample | samples/views.py:67-76 | a task is listed for (sample_pk, user) exactly when it belongs to that sample and the sample is in the user's sample list |
| Tables.TaskLabel | samples/models.py:80-81 | the string form of a stored task ends with the sample_id of the sample its reference resolves to |
| Tables.AuditLogLabel | samples/models.py:92-93 | the string form of a stored log carries, after "Log for ", the sample_id of the sample its reference resolves to |
| Tables.DeleteSampleCascade | samples/models.py:48 | deleting a sample removes it, removes exactly its tasks and exactly its logs, and keeps every other sample, task and log unchanged |
| Tables.DeleteSampleCascadePreservesValid | samples/models.py:87 | after the cascade no task and no log refers to a missing sample, and all other constraints still hold |
| Tables.DeleteSampleCascadeKeepsOtherTrails | samples/models.py:87 | the cascade leaves the audit trail of every other sample exactly as it was, in the same order |
| Tables.ClearRef | samples/models.py:65-71 | the set-null rule: a reference to the deleted user becomes null and any other reference is kept |
| Tables.DeleteUserSetNull | samples/models.py:65-71 | deleting a user keeps every sample, task and log; only owner, analyst and actor references to that user become null |
| Tables.DeleteUserSetNullPreservesValid | samples/models.py:88 | after a user is deleted no owner, analyst or actor refers to a missing user, and all other constraints still hold |
| Tables.DeletedUsersSamplesInvisible | samples/models.py:18 | a deleted user's samples survive but are then in nobody's list |
| AuditActions.StatusChanged | samples/views.py:57 | the status-change text starts with "Status changed from '" and ends with "'.", with the statuses between |
| AuditActions.StatusChangedRoundTrip | samples/views.py:57 | the status-change text can be read back into (old, new), old first |
| AuditActions.StatusChangedInjective | samples/views.py:57 | two different transitions are never recorded with the same text |
| AuditActions.RegisteredIsNotStatusChange | samples/views.py:42 | the registration text differs from every status-change text |
| Requests.FirstError | samples/serializers.py:35-50 | a submission is free of errors exactly when each of its parts is |
| Requests.ChosenSampleStatus | samples/models.py:19-23 | the status an accepted submission selects is the one whose stored value was submitted, or the current one when the field is left out |
| Requests.ChosenTaskStatus | samples/models.py:51-55 | the task status selected is the one whose stored value was submitted, or the current one when left out |
| Requests.ChosenTaskPriority | samples/models.py:57-61 | the priority selected is the one whose stored value was submitted, or the current one when left out |
| Requests.SampleIdError | samples/models.py:16 | a sample_id is accepted exactly when, after trimming, it is non-empty, at most 100 characters, free of null characters, and not used by another sample |
| Requests.NameError | samples/models.py:17 | a name is accepted exactly when, after trimming, it is non-empty, at most 255 characters and free of null characters |
| Requests.SampleStatusError | samples/models.py:19-23 | a submitted status is accepted exactly when it is left out or is one of the four choice values |
| Requests.SampleDataError | samples/serializers.py:35-50 | a submission is accepted exactly when every field present is valid after trimming (bounded and free of null characters), the sample_id clashes with no other sample, and, unless the update is partial, sample_id and name are both present |
| Requests.ApplySampleData | samples/views.py:51 | the save keeps owner and creation time, stamps the update time, gives each field present its cleaned value and keeps every field left out |
| Requests.NewSample | samples/views.py:38 | a new sample row has the cleaned sample_id and name, the requester as owner, creation and update time now, and status Received unless one is given |
| Requests.CreateSample | samples/views.py:34-43 | succeeds exactly when the submission is a valid full one; on success the new key is fresh, the row is the cleaned submission owned by the requester, status Received unless given, and exactly one log (this sample, the requester, "Sample registered.") is appended; on a validation error nothing changes |
| Requests.UpdateSample | samples/views.py:45-58 | not-found exactly when the requester does not own the sample; invalid exactly when the owner's submission has an error; on success only that sample changes, owner and creation time are kept, each field present takes its cleaned value, and a log with text Status changed from '<old>' to '<new>'. is appended exactly when the saved status differs from the status read before; failures change nothing |
| Requests.DestroySample | samples/views.py:28-32 | not-found and no change exactly when the requester does not own the sample; otherwise the store after is the delete cascade |
| Requests.TrimResult | samples/models.py:74 | a submitted result text is stored trimmed, and null stays null |
| Requests.AnalystError | samples/models.py:65-71 | an analyst is accepted exactly when it is null or an existing user |
| Requests.ResultTextError | samples/models.py:74 | a result text is accepted exactly when it is null or, after trimming, at most 255 characters and free of null characters |
| Requests.ResultNumericError | samples/models.py:75 | a numeric result is accepted exactly when it is null or has at most 10 digits with 3 decimal places |
| Requests.TaskDataError | samples/models.py:49-75 | a task submission is accepted exactly when every field present is valid (name and result text bounded and free of null characters after trimming, status and priority among their choices, analyst an existing user or null, numeric result within bounds) and, unless the update is partial, the name is present |
| Requests.ApplyTaskData | samples/models.py:48-78 | the save keeps the task's sample and creation time, stamps the update time, gives each field present its cleaned value and keeps every field left out |
| Requests.NewTask | samples/models.py:48-78 | a new task row refers to the given sample, has the cleaned name, status Pending and priority Medium unless given, and a null due date, analyst and results unless given |
| Requests.CreateTask | samples/views.py:78-89 | succeeds exactly when the submission is a valid full one and the requester owns sample_pk; a valid submission under a missing or foreign sample is the error "Sample not found or you do not have permission."; on success the new key is fresh, the row is the cleaned submission under that sample with the defaults for fields left out, and no log is written; failures change nothing |
| Requests.UpdateTask | samples/views.py:67-76 | not-found exactly when the task is not in the requester's list for sample_pk; invalid exactly when it is and the submission has an error; on success only that task changes, its sample and creation time stay, each field present takes its cleaned value, and no log is written |
| Requests.DestroyTask | samples/views.py:67-76 | not-found exactly when the task is not in the requester's list for sample_pk; otherwise only that task is removed |
| Requests.CreateSamplePreservesValid | samples/views.py:34-43 | creating a sample keeps every integrity constraint, including sample_id uniqueness |
| Requests.CreateSampleStores | samples/views.py:38-43 | an accepted create stores the new row under the next key, appends the registration log stamped now, and advances the clock and the key counter |
| Requests.UpdateSampleStores | samples/views.py:49-58 | an accepted update stores the saved row in place, advances the clock, and appends the transition log only when the status changed |
| Requests.AppendLogKeepsValid | samples/views.py:54-58 | appending a log of an existing sample and user stamped with the current clock keeps the log table consistent and in order |
| Requests.UpdateSamplePreservesValid | samples/views.py:45-58 | updating a sample keeps every integrity constraint, including sample_id uniqueness and log order |
| Requests.DestroySamplePreservesValid | samples/models.py:48 | deleting a sample leaves a consistent store |
| Requests.CreateTaskPreservesValid | samples/views.py:78-89 | creating a task leaves a consistent store |
| Requests.UpdateTaskPreservesValid | samples/views.py:67-76 | updating a task leaves a consistent store |
| Requests.CreateTaskStores | samples/views.py:89 | an accepted task create stores the new row under the next key and advances the clock and the key counter |
| Requests.UpdateTaskStores | samples/views.py:67-76 | an accepted task update stores the saved row in place and advances the clock |
| Requests.AcceptedTaskWellFormed | samples/models.py:49-75 | a task saved from an accepted submission meets every field constraint of the task table |
| Requests.SaveTaskKeepsValid | samples/models.py:48 | storing a well-formed task under an existing sample keeps the store consistent |
| Requests.DestroyTaskPreservesValid | samples/views.py:67-76 | deleting a task leaves a consistent store |
| Requests.CreateDuplicateSampleIdRejected | samples/models.py:16 | creating a sample whose trimmed sample_id already exists is a duplicate error and changes nothing |
| Requests.UpdateDuplicateSampleIdRejected | samples/models.py:16 | giving a sample another sample's sample_id is a duplicate error and changes nothing |
| Requests.PaddedDuplicateRejected | samples/models.py:16 | after "S-1" is registered, registering " S-1 " is a duplicate error, because the check runs on the trimmed text |
| Requests.NullCharacterRejected | samples/serializers.py:35-50 | a sample_id or name holding a null character anywhere is refused on create and on update, and changes nothing |
| Requests.NullCharacterInTaskRejected | samples/models.py:49-74 | a task name or result text holding a null character anywhere is refused on create and on update, and changes nothing |
| Requests.RequiredSampleFieldsMissing | samples/models.py:16-17 | a create, or a full update, without sample_id or without name is refused and changes nothing |
| Requests.InvalidSampleStatusRejected | samples/models.py:19-23 | a status that is not one of the four choices is refused on create and update and changes nothing |
| Requests.InvalidTaskChoiceRejected | samples/models.py:51-61 | a task status or priority outside its choices is refused on create and update and changes nothing |
| Requests.SampleDataOf | samples/serializers.py:35-50 | the submission that carries a sample's own fields names its status by the stored value |
| Requests.ResubmitSampleUnchanged | samples/views.py:45-58 | submitting a sample's own fields back as a full update succeeds, changes only its update time, and writes no log |
| Requests.TaskDataOf | samples/models.py:48-78 | the submission that carries a task's own fields names its status and priority by their stored values |
| Requests.ResubmitTaskUnchanged | samples/views.py:67-76 | submitting a task's own fields back as a full update succeeds and changes only its update time |
| Requests.ForeignSampleUntouchable | samples/views.py:28-32 | update or delete of a sample the requester does not own is not-found and leaves the store unchanged |
| Requests.CreateSampleVisibility | samples/views.py:38 | a new sample has a fresh key and joins the requester's list and no other user's |
| Requests.CreateTaskVisibility | samples/views.py:84-89 | a task is created only under a sample in the requester's list, and then joins that sample's task list |
| Requests.CreateSampleAuditTrail | samples/views.py:39-43 | a new sample's audit trail is exactly one entry: its registration by the requester |
| Requests.UpdateSampleAuditTrail | samples/views.py:53-58 | an update appends one entry to the sample's own trail exactly when the status changed, and leaves every other sample's trail unchanged |
| Requests.UpdateSampleAuditCount | samples/views.py:49-58 | an update keeps the existing logs as a prefix and adds 1 log if the status changed, 0 otherwise |
| Requests.UpdateWithoutStatusChangeIsSilent | samples/views.py:53 | an update that does not set a different status, such as a rename, writes no log |
| Requests.UpdateSampleLogNamesTransition | samples/views.py:57 | the log an update writes reads back as (status before the save, status after it) |
| Requests.TaskRequestsDoNotAudit | samples/views.py:78-89 | creating, updating or deleting a task never changes the audit logs |
| Requests.DestroySampleLeavesNoOrphans | samples/models.py:48 | after a sample is deleted no task and no log refers to it, and its task list is empty for everyone |
| Traces.Step | samples/views.py:25 | a request from an unregistered user changes nothing |
| Traces.StepPreservesValid | samples/views.py:20-89 | every single request keeps the store consistent |
| Traces.RunPreservesValid | samples/views.py:20-89 | every sequence of requests keeps the store consistent: unique sample ids, no orphans, no dangling user references, logs in creation order |
| Traces.StepExtendsTrail | samples/views.py:39-58 | a request that deletes neither the sample nor a user keeps the sample and only appends to its audit trail |
| Traces.CreateSampleExtendsTrail | samples/views.py:39-43 | a sample create keeps every existing audit trail as a prefix of the new one |
| Traces.RunExtendsTrail | samples/views.py:39-58 | over any sequence of requests that deletes neither sample p nor a user, p survives and its audit trail is only extended |
| Traces.RunOnlyAppendsLogs | samples/views.py:39-58 | without sample or user deletions, the log table before is a prefix of the log table after |
| Traces.ScenarioRegister | samples/views.py:34-43 | alice registering S-100 in an empty store gives key 0, one sample owned by alice with status Received, and the log "Sample registered." |
| Traces.ScenarioAdvance | samples/views.py:45-58 | alice's partial update of S-100 to Processing saves the new status and appends the log "Status changed from 'Received' to 'Processing'." |
| Traces.ExampleScenario | samples/views.py:34-58 | alice registers S-100, giving 1 sample and 1 log "Sample registered."; moving it to Processing adds the log "Status changed from 'Received' to 'Processing'."; bob sees no sample and his update is not-found |
| Views.LabStore.ListSamples | samples/views.py:28-32 | returns exactly the samples whose owner is the requester |
| Views.LabStore.RetrieveSample | samples/views.py:28-32 | returns the sample exactly when the requester owns it, else not-found |
| Views.LabStore.CreateSample | samples/views.py:34-43 | saves the sample with the requester as owner, then appends the registration log; the new tables and reply are those of Requests.CreateSample, and the invariant holds |
| Views.LabStore.UpdateSample | samples/views.py:45-58 | looks the sample up through the guard, validates the partial or full submission, then saves through PerformUpdate; the new tables and reply are those of Requests.UpdateSample, and the invariant holds |
| Views.LabStore.PerformUpdate | samples/views.py:45-58 | reads the old status, saves the submission into the row, advances the clock, and appends a transition log naming old and new status only if the saved status differs; nothing else changes |
| Views.LabStore.DestroySample | samples/views.py:28-32 | deletes a sample the requester owns together with its tasks and logs; otherwise not-found and no change |
| Views.LabStore.ListTasks | samples/views.py:67-76 | returns exactly the tasks of sample_pk when the requester owns that sample, and nothing otherwise |
| Views.LabStore.RetrieveTask | samples/views.py:67-76 | returns the task exactly when it is in the requester's list for sample_pk |
| Views.LabStore.CreateTask | samples/views.py:78-89 | validates, looks up the requester's sample, then saves the task under it; the new tables and reply are those of Requests.CreateTask |
| Views.LabStore.UpdateTask | samples/views.py:67-76 | updates, partially or fully, a task reachable through the requester's sample, as Requests.UpdateTask |
| Views.LabStore.DestroyTask | samples/views.py:67-76 | deletes a task reachable through the requester's sample, as Requests.DestroyTask |
| Views.LabStore.DeleteUser | samples/models.py:18 | deleting a user applies the set-null rule to owner, analyst and actor and keeps the invariant |

## Left out

- Registration, login, tokens, the current-user endpoint and the signup email (samples/signals.py) are external I/O or framework calls. Users appear only as keys: the model has no user fields and no way to add a user.
- Authentication is a precondition: every request method requires a registered requester. The trace model refuses a request from an unregistered user before it reads anything.
- HTTP status codes and the routing in samples/urls.py are not modelled. The routing registers only the sample endpoints; the task operations are modelled from samples/views.py anyway.
- `TaskSerializer` is imported in samples/views.py, but serializers.py does not define it. It is not part of this model. Task input is checked against the field declarations in samples/models.py, the way a model serializer would derive its fields, and the task's sample reference is not writable.
- Request parsing is not modelled. A submission is already split into fields, each present or left out. An explicit JSON null for a field that is not nullable cannot be written down, so the "may not be null" error is not modelled.
- Only the first validation error is reported; the serializer reports all errors at once. Which error comes first does not affect whether the request is accepted.
- Real dates and times (`auto_now`, `auto_now_add`, `due_date`) are replaced by a logical clock and by opaque day numbers. `result_numeric` is kept as an integer count of thousandths; its arithmetic is not modelled.
- Models.AuditLogString: the format Python uses to print a datetime is not modelled. The function receives the printed timestamp as text.
- The double-submit race between two concurrent updates of one sample is not modelled. Each request is one atomic step.
- The nested pre-fetch of tasks and audit logs in the sample listing is a query optimisation. The model lists sample keys; a sample's logs are available through `Tables.AuditTrail`.
