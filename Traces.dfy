/** Sequences of requests, each applied as one atomic step, and what holds
    across them: the tables stay consistent, and a sample's audit trail is
    only ever extended while the sample and the users stay. */
module Traces {
  import opened Models
  import opened Tables
  import opened Requests
  import opened Fields
  import AuditActions

  datatype Request =
    | CreateSampleRequest(user: UserId, sampleData: SampleData)
    | UpdateSampleRequest(user: UserId, pk: SamplePk, sampleData: SampleData, partial: bool)
    | DestroySampleRequest(user: UserId, pk: SamplePk)
    | CreateTaskRequest(user: UserId, samplePk: SamplePk, taskData: TaskData)
    | UpdateTaskRequest(user: UserId, samplePk: SamplePk, task: TaskPk, taskData: TaskData, partial: bool)
    | DestroyTaskRequest(user: UserId, samplePk: SamplePk, task: TaskPk)
    | DeleteUserRequest(user: UserId)

  /** One request. A request whose user is not registered is refused
      before anything is read; deleting a user applies the set-null rule. */
  function Step(db: Db, req: Request): (r: Db)
    ensures req.user !in db.users ==> r == db
  {
    if req.user !in db.users then db
    else
      match req
      case CreateSampleRequest(u, input) => CreateSample(db, u, input).db
      case UpdateSampleRequest(u, pk, d, partial) => UpdateSample(db, u, pk, d, partial).db
      case DestroySampleRequest(u, pk) => DestroySample(db, u, pk).db
      case CreateTaskRequest(u, samplePk, input) => CreateTask(db, u, samplePk, input).db
      case UpdateTaskRequest(u, samplePk, t, d, partial) => UpdateTask(db, u, samplePk, t, d, partial).db
      case DestroyTaskRequest(u, samplePk, t) => DestroyTask(db, u, samplePk, t).db
      case DeleteUserRequest(u) => DeleteUserSetNull(db, u)
  }

  function Run(db: Db, reqs: seq<Request>): Db
    decreases |reqs|
  {
    if reqs == [] then db else Run(Step(db, reqs[0]), reqs[1..])
  }

  lemma StepPreservesValid(db: Db, req: Request)
    requires Valid(db)
    ensures Valid(Step(db, req))
  {
    if req.user in db.users {
      match req
      case CreateSampleRequest(u, input) => CreateSamplePreservesValid(db, u, input);
      case UpdateSampleRequest(u, pk, d, partial) => UpdateSamplePreservesValid(db, u, pk, d, partial);
      case DestroySampleRequest(u, pk) => DestroySamplePreservesValid(db, u, pk);
      case CreateTaskRequest(u, samplePk, input) => CreateTaskPreservesValid(db, u, samplePk, input);
      case UpdateTaskRequest(u, samplePk, t, d, partial) => UpdateTaskPreservesValid(db, u, samplePk, t, d, partial);
      case DestroyTaskRequest(u, samplePk, t) => DestroyTaskPreservesValid(db, u, samplePk, t);
      case DeleteUserRequest(u) => DeleteUserSetNullPreservesValid(db, u);
    }
  }

  /** Any sequence of requests keeps every integrity constraint: unique
      sample ids, no task or log without its sample, no dangling user
      reference, logs in creation order. */
  lemma {:induction false} RunPreservesValid(db: Db, reqs: seq<Request>)
    requires Valid(db)
    ensures Valid(Run(db, reqs))
    decreases |reqs|
  {
    if reqs != [] {
      StepPreservesValid(db, reqs[0]);
      RunPreservesValid(Step(db, reqs[0]), reqs[1..]);
    }
  }

  /** The request neither deletes sample p nor deletes a user. */
  predicate KeepsSample(req: Request, p: SamplePk) {
    !(req.DestroySampleRequest? && req.pk == p) && !req.DeleteUserRequest?
  }

  lemma StepExtendsTrail(db: Db, req: Request, p: SamplePk)
    requires p in db.samples && KeepsSample(req, p)
    ensures p in Step(db, req).samples
    ensures AuditTrail(db, p) <= AuditTrail(Step(db, req), p)
  {
    if req.user in db.users {
      match req
      case CreateSampleRequest(u, input) =>
        CreateSampleExtendsTrail(db, u, input, p);
      case UpdateSampleRequest(u, pk, d, partial) =>
        UpdateSampleAuditTrail(db, u, pk, d, partial, p);
      case DestroySampleRequest(u, pk) =>
        DeleteSampleCascadeKeepsOtherTrails(db, pk, p);
      case CreateTaskRequest(u, samplePk, input) =>
        TaskRequestsDoNotAudit(db, u, samplePk, 0, input, input, false);
      case UpdateTaskRequest(u, samplePk, t, d, partial) =>
        TaskRequestsDoNotAudit(db, u, samplePk, t, d, d, partial);
      case DestroyTaskRequest(u, samplePk, t) =>
        TaskRequestsDoNotAudit(db, u, samplePk, t, TaskData(None, None, None, None, None, None, None), TaskData(None, None, None, None, None, None, None), true);
    }
  }

  /** A create only appends, so every existing trail is a prefix of the new one. */
  lemma CreateSampleExtendsTrail(db: Db, requester: UserId, d: SampleData, p: SamplePk)
    ensures AuditTrail(db, p) <= AuditTrail(CreateSample(db, requester, d).db, p)
  {
    if SampleDataError(db, None, d, false).None? {
      CreateSampleStores(db, requester, d);
      var log := AuditLog(db.nextSamplePk, Some(requester), AuditActions.REGISTERED, db.clock);
      FilterAppend(db.auditLogs, [log], (e: AuditLog) => e.sample == p);
    }
  }

  /** While sample p is not deleted and no user is deleted, every request
      sequence keeps p and only appends to its audit trail. */
  lemma {:induction false} RunExtendsTrail(db: Db, reqs: seq<Request>, p: SamplePk)
    requires p in db.samples
    requires forall i :: 0 <= i < |reqs| ==> KeepsSample(reqs[i], p)
    ensures p in Run(db, reqs).samples
    ensures AuditTrail(db, p) <= AuditTrail(Run(db, reqs), p)
    decreases |reqs|
  {
    if reqs != [] {
      var next := Step(db, reqs[0]);
      StepExtendsTrail(db, reqs[0], p);
      RunExtendsTrail(next, reqs[1..], p);
    }
  }

  /** Without sample or user deletions the whole log table is only appended to. */
  lemma {:induction false} RunOnlyAppendsLogs(db: Db, reqs: seq<Request>)
    requires forall i :: 0 <= i < |reqs| ==> !reqs[i].DestroySampleRequest? && !reqs[i].DeleteUserRequest?
    ensures db.auditLogs <= Run(db, reqs).auditLogs
    decreases |reqs|
  {
    if reqs != [] {
      var next := Step(db, reqs[0]);
      assert db.auditLogs <= next.auditLogs;
      RunOnlyAppendsLogs(next, reqs[1..]);
    }
  }

  // ---------------------------------------------------------------------
  // A worked scenario: Alice (user 1) and Bob (user 2)

  const ALICE: UserId := 1
  const BOB: UserId := 2

  function Registered(): Db {
    Db({ALICE, BOB}, map[0 := Sample("S-100", "Plasma A", Some(ALICE), Received, 0, 0)], map[],
       [AuditLog(0, Some(ALICE), "Sample registered.", 0)], 1, 1, 0)
  }

  function Advanced(): Db {
    Registered().(samples := map[0 := Sample("S-100", "Plasma A", Some(ALICE), Processing, 0, 1)],
                  auditLogs := Registered().auditLogs +
                    [AuditLog(0, Some(ALICE), "Status changed from 'Received' to 'Processing'.", 1)],
                  clock := 2)
  }

  lemma ScenarioRegister()
    ensures CreateSample(EmptyDb({ALICE, BOB}), ALICE, SampleData(Some("S-100"), Some("Plasma A"), Some("Received")))
            == Reply(Registered(), Ok(0))
  {
    var input := SampleData(Some("S-100"), Some("Plasma A"), Some("Received"));
    TrimKeepsTrimmed("S-100");
    TrimKeepsTrimmed("Plasma A");
    assert SampleDataError(EmptyDb({ALICE, BOB}), None, input, false) == None;
    CreateSampleStores(EmptyDb({ALICE, BOB}), ALICE, input);
    assert NewSample(input, ALICE, 0) == Sample("S-100", "Plasma A", Some(ALICE), Received, 0, 0);
  }

  lemma ScenarioAdvance()
    ensures UpdateSample(Registered(), ALICE, 0, SampleData(None, None, Some("Processing")), true)
            == Reply(Advanced(), Ok(Sample("S-100", "Plasma A", Some(ALICE), Processing, 0, 1)))
  {
    var changes := SampleData(None, None, Some("Processing"));
    ScenarioAdvanceAccepted();
    UpdateSampleStores(Registered(), ALICE, 0, changes, true);
    ScenarioTransitionText();
  }

  lemma ScenarioAdvanceAccepted()
    ensures SampleDataError(Registered(), Some(0), SampleData(None, None, Some("Processing")), true) == None
    ensures ApplySampleData(Registered().samples[0], SampleData(None, None, Some("Processing")), 1)
            == Sample("S-100", "Plasma A", Some(ALICE), Processing, 0, 1)
  {
    assert ParseSampleStatus("Processing") == Some(Processing);
  }

  lemma ScenarioTransitionText()
    ensures AuditActions.StatusChanged(Received, Processing) == "Status changed from 'Received' to 'Processing'."
  {
  }

  /** Alice registers S-100 and moves it to Processing with a partial
      update; Bob can neither see nor update it. */
  lemma ExampleScenario()
    ensures var created := CreateSample(EmptyDb({ALICE, BOB}), ALICE, SampleData(Some("S-100"), Some("Plasma A"), Some("Received")));
            var updated := UpdateSample(created.db, ALICE, 0, SampleData(None, None, Some("Processing")), true);
            && created.outcome == Ok(0)
            && |created.db.samples| == 1
            && created.db.auditLogs == [AuditLog(0, Some(ALICE), "Sample registered.", 0)]
            && updated.outcome.Ok?
            && |updated.db.auditLogs| == 2
            && updated.db.auditLogs[1].action == "Status changed from 'Received' to 'Processing'."
            && VisibleSamples(updated.db, BOB) == {}
            && UpdateSample(updated.db, BOB, 0, SampleData(None, None, Some("Complete")), true) == Reply(updated.db, NotFound)
  {
    ScenarioRegister();
    ScenarioAdvance();
    assert Advanced().samples.Keys == {0};
  }
}
