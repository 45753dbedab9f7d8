/** The sample and task endpoints as methods on one store object whose
    fields are the four tables. Each method follows the handler's steps
    (look up through the ownership guard, validate, save, then audit) and
    is proved to leave the store as the matching request of module
    Requests says. Every caller is an authenticated, registered user. */
module Views {
  import opened Models
  import opened Tables
  import opened Requests
  import AuditActions

  class LabStore {
    var users: set<UserId>
    var samples: map<SamplePk, Sample>
    var tasks: map<TaskPk, Task>
    var auditLogs: seq<AuditLog>
    var clock: Timestamp
    var nextSamplePk: SamplePk
    var nextTaskPk: TaskPk

    /** The tables as one value. */
    function State(): Db
      reads this
    {
      Db(users, samples, tasks, auditLogs, clock, nextSamplePk, nextTaskPk)
    }

    ghost predicate Valid()
      reads this
    {
      Tables.Valid(State())
    }

    constructor (registered: set<UserId>)
      ensures Valid()
      ensures State() == EmptyDb(registered)
    {
      users := registered;
      samples, tasks, auditLogs := map[], map[], [];
      clock, nextSamplePk, nextTaskPk := 0, 0, 0;
    }

    // -------------------------------------------------------------------
    // Samples

    /** The sample list: exactly the requester's samples. */
    method ListSamples(requester: UserId) returns (r: set<SamplePk>)
      requires requester in users
      ensures r == VisibleSamples(State(), requester)
      ensures forall p :: p in r <==> OwnedBy(State(), p, requester)
    {
      r := set p | p in samples && OwnedBy(State(), p, requester);
    }

    /** Lookup goes through the list, so a sample of someone else is not found. */
    method RetrieveSample(requester: UserId, pk: SamplePk) returns (r: Outcome<Sample>)
      requires requester in users
      ensures r.Ok? <==> pk in VisibleSamples(State(), requester)
      ensures r.Ok? ==> r.value == samples[pk]
      ensures !r.Ok? ==> r == NotFound
    {
      if OwnedBy(State(), pk, requester) {
        r := Ok(samples[pk]);
      } else {
        r := NotFound;
      }
    }

    /** Saves the sample with the requester as owner, then records its registration. */
    method CreateSample(requester: UserId, d: SampleData) returns (r: Outcome<SamplePk>)
      requires Valid() && requester in users
      modifies this
      ensures Valid()
      ensures State() == Requests.CreateSample(old(State()), requester, d).db
      ensures r == Requests.CreateSample(old(State()), requester, d).outcome
    {
      var error := SampleDataError(State(), None, d, false);
      if error.Some? {
        return Invalid(error.value);
      }
      ghost var before := State();
      var pk, now := nextSamplePk, clock;
      samples := samples[pk := NewSample(d, requester, now)];
      nextSamplePk := pk + 1;
      auditLogs := auditLogs + [AuditLog(pk, Some(requester), AuditActions.REGISTERED, now)];
      clock := now + 1;
      r := Ok(pk);
      CreateSampleSaves(before, State(), requester, d);
    }

    /** Looks the sample up through the ownership guard, validates the
        data, then hands it to PerformUpdate. */
    method UpdateSample(requester: UserId, pk: SamplePk, d: SampleData, partial: bool) returns (r: Outcome<Sample>)
      requires Valid() && requester in users
      modifies this
      ensures Valid()
      ensures State() == Requests.UpdateSample(old(State()), requester, pk, d, partial).db
      ensures r == Requests.UpdateSample(old(State()), requester, pk, d, partial).outcome
    {
      if !OwnedBy(State(), pk, requester) {
        return NotFound;
      }
      var error := SampleDataError(State(), Some(pk), d, partial);
      if error.Some? {
        return Invalid(error.value);
      }
      ghost var before := State();
      var saved := PerformUpdate(requester, pk, d);
      r := Ok(saved);
      UpdateSampleSaves(before, State(), requester, pk, d, partial);
    }

    /** Reads the old status, saves, and records a transition only if the
        saved status differs from the one read before. */
    method PerformUpdate(requester: UserId, pk: SamplePk, d: SampleData) returns (saved: Sample)
      requires pk in samples && SampleStatusChoice(d.status)
      modifies this
      ensures saved == ApplySampleData(old(samples[pk]), d, old(clock))
      ensures samples == old(samples)[pk := saved] && clock == old(clock) + 1
      ensures auditLogs == old(auditLogs) +
                (if old(samples[pk].status) != saved.status
                 then [AuditLog(pk, Some(requester), AuditActions.StatusChanged(old(samples[pk].status), saved.status), old(clock))]
                 else [])
      ensures users == old(users) && tasks == old(tasks)
      ensures nextSamplePk == old(nextSamplePk) && nextTaskPk == old(nextTaskPk)
    {
      var oldStatus := samples[pk].status;
      var now := clock;
      saved := ApplySampleData(samples[pk], d, now);
      samples := samples[pk := saved];
      clock := now + 1;
      if oldStatus != saved.status {
        auditLogs := auditLogs + [AuditLog(pk, Some(requester), AuditActions.StatusChanged(oldStatus, saved.status), now)];
      }
    }

    /** Deletes one of the requester's samples; its tasks and logs go with it. */
    method DestroySample(requester: UserId, pk: SamplePk) returns (r: Outcome<()>)
      requires Valid() && requester in users
      modifies this
      ensures Valid()
      ensures State() == Requests.DestroySample(old(State()), requester, pk).db
      ensures r == Requests.DestroySample(old(State()), requester, pk).outcome
    {
      if !OwnedBy(State(), pk, requester) {
        return NotFound;
      }
      DeleteSampleCascadePreservesValid(State(), pk);
      var after := DeleteSampleCascade(State(), pk);
      samples, tasks, auditLogs := after.samples, after.tasks, after.auditLogs;
      r := Ok(());
    }

    // -------------------------------------------------------------------
    // Tasks, reached through the parent sample

    /** The task list under a sample: its tasks if the requester owns it, else nothing. */
    method ListTasks(requester: UserId, samplePk: SamplePk) returns (r: set<TaskPk>)
      requires requester in users
      ensures r == VisibleTasks(State(), requester, samplePk)
      ensures forall t :: t in r <==>
                t in tasks && tasks[t].sample == samplePk && OwnedBy(State(), samplePk, requester)
    {
      if OwnedBy(State(), samplePk, requester) {
        r := set t | t in tasks && tasks[t].sample == samplePk;
      } else {
        r := {};
      }
    }

    method RetrieveTask(requester: UserId, samplePk: SamplePk, t: TaskPk) returns (r: Outcome<Task>)
      requires requester in users
      ensures r.Ok? <==> t in VisibleTasks(State(), requester, samplePk)
      ensures r.Ok? ==> r.value == tasks[t] && r.value.sample == samplePk
      ensures !r.Ok? ==> r == NotFound
    {
      if t in VisibleTasks(State(), requester, samplePk) {
        r := Ok(tasks[t]);
      } else {
        r := NotFound;
      }
    }

    /** Validates the task, looks up the requester's sample, then saves the
        task under it. A missing or foreign sample is a validation error. */
    method CreateTask(requester: UserId, samplePk: SamplePk, d: TaskData) returns (r: Outcome<TaskPk>)
      requires Valid() && requester in users
      modifies this
      ensures Valid()
      ensures State() == Requests.CreateTask(old(State()), requester, samplePk, d).db
      ensures r == Requests.CreateTask(old(State()), requester, samplePk, d).outcome
    {
      var error := TaskDataError(State(), d, false);
      if error.Some? {
        return Invalid(error.value);
      }
      if !OwnedBy(State(), samplePk, requester) {
        return Invalid(SampleNotFoundOrNotPermitted);
      }
      ghost var before := State();
      var t, now := nextTaskPk, clock;
      tasks := tasks[t := NewTask(samplePk, d, now)];
      nextTaskPk := t + 1;
      clock := now + 1;
      r := Ok(t);
      CreateTaskSaves(before, State(), requester, samplePk, d);
    }

    method UpdateTask(requester: UserId, samplePk: SamplePk, t: TaskPk, d: TaskData, partial: bool) returns (r: Outcome<Task>)
      requires Valid() && requester in users
      modifies this
      ensures Valid()
      ensures State() == Requests.UpdateTask(old(State()), requester, samplePk, t, d, partial).db
      ensures r == Requests.UpdateTask(old(State()), requester, samplePk, t, d, partial).outcome
    {
      if t !in VisibleTasks(State(), requester, samplePk) {
        return NotFound;
      }
      var error := TaskDataError(State(), d, partial);
      if error.Some? {
        return Invalid(error.value);
      }
      ghost var before := State();
      var saved := ApplyTaskData(tasks[t], d, clock);
      tasks := tasks[t := saved];
      clock := clock + 1;
      r := Ok(saved);
      UpdateTaskSaves(before, State(), requester, samplePk, t, d, partial);
    }

    method DestroyTask(requester: UserId, samplePk: SamplePk, t: TaskPk) returns (r: Outcome<()>)
      requires Valid() && requester in users
      modifies this
      ensures Valid()
      ensures State() == Requests.DestroyTask(old(State()), requester, samplePk, t).db
      ensures r == Requests.DestroyTask(old(State()), requester, samplePk, t).outcome
    {
      if t !in VisibleTasks(State(), requester, samplePk) {
        return NotFound;
      }
      ghost var before := State();
      tasks := tasks - {t};
      r := Ok(());
      DestroyTaskSaves(before, State(), requester, samplePk, t);
    }

    // -------------------------------------------------------------------
    // Users

    /** Removes a user; samples, tasks and logs stay with the references nulled. */
    method DeleteUser(u: UserId)
      requires Valid()
      modifies this
      ensures Valid()
      ensures State() == DeleteUserSetNull(old(State()), u)
    {
      DeleteUserSetNullPreservesValid(State(), u);
      var after := DeleteUserSetNull(State(), u);
      users, samples, tasks, auditLogs := after.users, after.samples, after.tasks, after.auditLogs;
    }
  }

  // The lemmas below each take the state a method leaves and show it is the
  // one the matching request describes, and that it keeps the store consistent.

  lemma CreateSampleSaves(db: Db, after: Db, requester: UserId, d: SampleData)
    requires Valid(db) && requester in db.users && SampleDataError(db, None, d, false).None?
    requires var pk := db.nextSamplePk;
             after == db.(samples := db.samples[pk := NewSample(d, requester, db.clock)],
                          auditLogs := db.auditLogs + [AuditLog(pk, Some(requester), AuditActions.REGISTERED, db.clock)],
                          clock := db.clock + 1, nextSamplePk := pk + 1)
    ensures Requests.CreateSample(db, requester, d) == Reply(after, Ok(db.nextSamplePk))
    ensures Valid(after)
  {
    CreateSampleStores(db, requester, d);
    CreateSamplePreservesValid(db, requester, d);
  }

  /** An accepted sample update is the one the request describes, and it
      keeps the store consistent. */
  lemma UpdateSampleSaves(db: Db, after: Db, requester: UserId, pk: SamplePk, d: SampleData, partial: bool)
    requires Valid(db) && requester in db.users
    requires OwnedBy(db, pk, requester) && SampleDataError(db, Some(pk), d, partial).None?
    requires var before := db.samples[pk];
             var saved := ApplySampleData(before, d, db.clock);
             after == db.(samples := db.samples[pk := saved], clock := db.clock + 1,
                          auditLogs := db.auditLogs +
                            (if before.status != saved.status
                             then [AuditLog(pk, Some(requester), AuditActions.StatusChanged(before.status, saved.status), db.clock)]
                             else []))
    ensures Requests.UpdateSample(db, requester, pk, d, partial)
              == Reply(after, Ok(ApplySampleData(db.samples[pk], d, db.clock)))
    ensures Valid(after)
  {
    UpdateSampleStores(db, requester, pk, d, partial);
    UpdateSamplePreservesValid(db, requester, pk, d, partial);
  }

  lemma CreateTaskSaves(db: Db, after: Db, requester: UserId, samplePk: SamplePk, d: TaskData)
    requires Valid(db) && requester in db.users
    requires TaskDataError(db, d, false).None? && OwnedBy(db, samplePk, requester)
    requires after == db.(tasks := db.tasks[db.nextTaskPk := NewTask(samplePk, d, db.clock)],
                          clock := db.clock + 1, nextTaskPk := db.nextTaskPk + 1)
    ensures Requests.CreateTask(db, requester, samplePk, d) == Reply(after, Ok(db.nextTaskPk))
    ensures Valid(after)
  {
    CreateTaskStores(db, requester, samplePk, d);
    CreateTaskPreservesValid(db, requester, samplePk, d);
  }

  lemma UpdateTaskSaves(db: Db, after: Db, requester: UserId, samplePk: SamplePk, t: TaskPk, d: TaskData, partial: bool)
    requires Valid(db) && requester in db.users
    requires t in VisibleTasks(db, requester, samplePk) && TaskDataError(db, d, partial).None?
    requires after == db.(tasks := db.tasks[t := ApplyTaskData(db.tasks[t], d, db.clock)], clock := db.clock + 1)
    ensures Requests.UpdateTask(db, requester, samplePk, t, d, partial)
              == Reply(after, Ok(ApplyTaskData(db.tasks[t], d, db.clock)))
    ensures Valid(after)
  {
    UpdateTaskStores(db, requester, samplePk, t, d, partial);
    UpdateTaskPreservesValid(db, requester, samplePk, t, d, partial);
  }

  lemma DestroyTaskSaves(db: Db, after: Db, requester: UserId, samplePk: SamplePk, t: TaskPk)
    requires Valid(db) && requester in db.users
    requires t in VisibleTasks(db, requester, samplePk)
    requires after == db.(tasks := db.tasks - {t})
    ensures Requests.DestroyTask(db, requester, samplePk, t) == Reply(after, Ok(()))
    ensures Valid(after)
  {
    DestroyTaskPreservesValid(db, requester, samplePk, t);
  }
}
