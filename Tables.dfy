/** The four tables the sample tracker keeps (users, samples, tasks, audit
    logs) as one value, the integrity constraints the database enforces on
    them, the ownership-scoped queries, and the on-delete rules the records
    declare (a sample's tasks and logs go with it; a deleted user's
    references become null). */
module Tables {
  import opened Models

  /** The audit log table is kept in creation order; `clock` is the next
      logical time and `nextSamplePk`, `nextTaskPk` the next primary keys
      (keys are never reused). */
  datatype Db = Db(
    users: set<UserId>,
    samples: map<SamplePk, Sample>,
    tasks: map<TaskPk, Task>,
    auditLogs: seq<AuditLog>,
    clock: Timestamp,
    nextSamplePk: SamplePk,
    nextTaskPk: TaskPk)

  function EmptyDb(users: set<UserId>): (db: Db)
    ensures Valid(db)
    ensures db.users == users && db.samples == map[] && db.tasks == map[] && db.auditLogs == []
  {
    Db(users, map[], map[], [], 0, 0, 0)
  }

  // ---------------------------------------------------------------------
  // Integrity

  /** A nullable user reference is null or names an existing user. */
  predicate RefersToUser(db: Db, r: Option<UserId>) {
    r.Some? ==> r.value in db.users
  }

  /** The unique constraint on `sample_id`. */
  ghost predicate SampleIdsUnique(samples: map<SamplePk, Sample>) {
    forall p, q :: p in samples && q in samples && p != q ==> samples[p].sampleId != samples[q].sampleId
  }

  ghost predicate SamplesValid(db: Db) {
    forall p :: p in db.samples ==>
      && p < db.nextSamplePk
      && WellFormedSample(db.samples[p])
      && RefersToUser(db, db.samples[p].owner)
      && db.samples[p].updatedAt < db.clock
  }

  /** Every task belongs to an existing sample. */
  ghost predicate TasksValid(db: Db) {
    forall t :: t in db.tasks ==>
      && t < db.nextTaskPk
      && db.tasks[t].sample in db.samples
      && WellFormedTask(db.tasks[t])
      && RefersToUser(db, db.tasks[t].analyst)
      && db.tasks[t].updatedAt < db.clock
  }

  /** Strictly increasing timestamps: the table order is the order of creation. */
  predicate Chronological(logs: seq<AuditLog>) {
    forall i, j :: 0 <= i < j < |logs| ==> logs[i].timestamp < logs[j].timestamp
  }

  /** Every audit log belongs to an existing sample. */
  ghost predicate AuditLogsValid(db: Db) {
    && (forall i :: 0 <= i < |db.auditLogs| ==>
          && db.auditLogs[i].sample in db.samples
          && RefersToUser(db, db.auditLogs[i].actor)
          && db.auditLogs[i].timestamp < db.clock)
    && Chronological(db.auditLogs)
  }

  ghost predicate Valid(db: Db) {
    SampleIdsUnique(db.samples) && SamplesValid(db) && TasksValid(db) && AuditLogsValid(db)
  }

  // ---------------------------------------------------------------------
  // Ownership-scoped queries

  /** The ownership guard: the sample exists and its owner is the requester. */
  predicate OwnedBy(db: Db, pk: SamplePk, u: UserId) {
    pk in db.samples && db.samples[pk].owner == Some(u)
  }

  /** The sample list a user sees: stored samples, each owned by that user. */
  function VisibleSamples(db: Db, u: UserId): (r: set<SamplePk>)
    ensures r <= db.samples.Keys
    ensures forall p :: p in r ==> db.samples[p].owner == Some(u)
  {
    set p | p in db.samples && OwnedBy(db, p, u)
  }

  /** The task list a user sees under one sample: stored tasks of that
      sample, and none at all unless the user owns the sample. */
  function VisibleTasks(db: Db, u: UserId, samplePk: SamplePk): (r: set<TaskPk>)
    ensures r <= db.tasks.Keys
    ensures forall t :: t in r ==> db.tasks[t].sample == samplePk
    ensures r != {} ==> samplePk in VisibleSamples(db, u)
  {
    set t | t in db.tasks && db.tasks[t].sample == samplePk && OwnedBy(db, samplePk, u)
  }

  /** The audit logs of one sample, in creation order. */
  function AuditTrail(db: Db, pk: SamplePk): seq<AuditLog> {
    Filter(db.auditLogs, (e: AuditLog) => e.sample == pk)
  }

  lemma VisibleSamplesAreOwned(db: Db, u: UserId, p: SamplePk)
    ensures p in VisibleSamples(db, u) <==> OwnedBy(db, p, u)
  {
  }

  /** A sample without an owner is visible to nobody. */
  lemma UnownedSampleInvisible(db: Db, u: UserId, p: SamplePk)
    requires p in db.samples && db.samples[p].owner == None
    ensures p !in VisibleSamples(db, u)
  {
  }

  /** Two users never see a common sample. */
  lemma VisibleSamplesDisjoint(db: Db, u: UserId, v: UserId)
    requires u != v
    ensures VisibleSamples(db, u) !! VisibleSamples(db, v)
  {
  }

  /** Tasks are visible exactly through their sample. */
  lemma VisibleTasksThroughSample(db: Db, u: UserId, samplePk: SamplePk, t: TaskPk)
    ensures t in VisibleTasks(db, u, samplePk) <==>
              t in db.tasks && db.tasks[t].sample == samplePk && samplePk in VisibleSamples(db, u)
  {
  }

  // ---------------------------------------------------------------------
  // String forms resolved through the sample reference

  /** The string form of a task, naming its sample through the sample reference. */
  function TaskLabel(db: Db, t: TaskPk): (r: string)
    requires t in db.tasks && db.tasks[t].sample in db.samples
    ensures var id := db.samples[db.tasks[t].sample].sampleId;
            |r| >= |id| && r[|r| - |id|..] == id
  {
    TaskString(db.tasks[t], db.samples[db.tasks[t].sample].sampleId)
  }

  /** The string form of a log, naming its sample through the sample reference. */
  function AuditLogLabel(db: Db, i: nat, stamp: string): (r: string)
    requires i < |db.auditLogs| && db.auditLogs[i].sample in db.samples
    ensures var id := db.samples[db.auditLogs[i].sample].sampleId;
            |r| == 12 + |id| + |stamp| && r[8..8 + |id|] == id
  {
    AuditLogString(db.samples[db.auditLogs[i].sample].sampleId, stamp)
  }

  // ---------------------------------------------------------------------
  // Order-preserving filter on the log table

  function Filter(s: seq<AuditLog>, keep: AuditLog -> bool): (r: seq<AuditLog>)
    ensures |r| <= |s|
    ensures forall x :: x in r <==> x in s && keep(x)
  {
    if s == [] then [] else (if keep(s[0]) then [s[0]] else []) + Filter(s[1..], keep)
  }

  lemma {:induction false} FilterAppend(a: seq<AuditLog>, b: seq<AuditLog>, keep: AuditLog -> bool)
    ensures Filter(a + b, keep) == Filter(a, keep) + Filter(b, keep)
  {
    if a == [] {
      assert a + b == b;
    } else {
      assert (a + b)[1..] == a[1..] + b;
      FilterAppend(a[1..], b, keep);
    }
  }

  lemma {:induction false} FilterKeepsAll(s: seq<AuditLog>, keep: AuditLog -> bool)
    requires forall i :: 0 <= i < |s| ==> keep(s[i])
    ensures Filter(s, keep) == s
  {
    if s != [] {
      FilterKeepsAll(s[1..], keep);
    }
  }

  lemma {:induction false} FilterKeepsNone(s: seq<AuditLog>, keep: AuditLog -> bool)
    requires forall i :: 0 <= i < |s| ==> !keep(s[i])
    ensures Filter(s, keep) == []
  {
    if s != [] {
      FilterKeepsNone(s[1..], keep);
    }
  }

  lemma {:induction false} FilterChronological(s: seq<AuditLog>, keep: AuditLog -> bool)
    requires Chronological(s)
    ensures Chronological(Filter(s, keep))
  {
    if s != [] {
      FilterChronological(s[1..], keep);
      var rest := Filter(s[1..], keep);
      if keep(s[0]) {
        forall j | 0 <= j < |rest| ensures s[0].timestamp < rest[j].timestamp {
          assert rest[j] in s[1..];
        }
      }
    }
  }

  /** Filtering by one sample after dropping another gives that sample's logs unchanged. */
  lemma {:induction false} FilterOtherSample(s: seq<AuditLog>, gone: SamplePk, p: SamplePk)
    requires gone != p
    ensures Filter(Filter(s, (e: AuditLog) => e.sample != gone), (e: AuditLog) => e.sample == p)
         == Filter(s, (e: AuditLog) => e.sample == p)
  {
    var notGone := (e: AuditLog) => e.sample != gone;
    var isP := (e: AuditLog) => e.sample == p;
    if s != [] {
      FilterOtherSample(s[1..], gone, p);
      var head := if notGone(s[0]) then [s[0]] else [];
      assert Filter(s, notGone) == head + Filter(s[1..], notGone);
      FilterAppend(head, Filter(s[1..], notGone), isP);
      assert Filter(head, isP) == (if isP(s[0]) then [s[0]] else []);
    }
  }

  // ---------------------------------------------------------------------
  // On-delete rules

  /** Deleting a sample cascades to its tasks and its audit logs. */
  function DeleteSampleCascade(db: Db, pk: SamplePk): (r: Db)
    ensures r.samples.Keys == db.samples.Keys - {pk}
    ensures forall q :: q in r.samples ==> r.samples[q] == db.samples[q]
    ensures forall t :: t in r.tasks <==> t in db.tasks && db.tasks[t].sample != pk
    ensures forall t :: t in r.tasks ==> r.tasks[t] == db.tasks[t]
    ensures forall e :: e in r.auditLogs <==> e in db.auditLogs && e.sample != pk
    ensures r.users == db.users && r.clock == db.clock
    ensures r.nextSamplePk == db.nextSamplePk && r.nextTaskPk == db.nextTaskPk
  {
    db.(samples := map q | q in db.samples && q != pk :: db.samples[q],
        tasks := map t | t in db.tasks && db.tasks[t].sample != pk :: db.tasks[t],
        auditLogs := Filter(db.auditLogs, (e: AuditLog) => e.sample != pk))
  }

  /** The cascade leaves no task and no log referring to a missing sample. */
  lemma DeleteSampleCascadePreservesValid(db: Db, pk: SamplePk)
    requires Valid(db)
    ensures Valid(DeleteSampleCascade(db, pk))
  {
    DeleteSampleCascadeKeepsRowsValid(db, pk);
    DeleteSampleCascadeKeepsLogsValid(db, pk);
  }

  lemma DeleteSampleCascadeKeepsRowsValid(db: Db, pk: SamplePk)
    requires Valid(db)
    ensures var r := DeleteSampleCascade(db, pk);
            SampleIdsUnique(r.samples) && SamplesValid(r) && TasksValid(r)
  {
    DeleteSampleCascadeKeepsSamplesValid(db, pk);
    DeleteSampleCascadeKeepsTasksValid(db, pk);
  }

  lemma DeleteSampleCascadeKeepsSamplesValid(db: Db, pk: SamplePk)
    requires SampleIdsUnique(db.samples) && SamplesValid(db)
    ensures var r := DeleteSampleCascade(db, pk);
            SampleIdsUnique(r.samples) && SamplesValid(r)
  {
  }

  lemma DeleteSampleCascadeKeepsTasksValid(db: Db, pk: SamplePk)
    requires TasksValid(db)
    ensures TasksValid(DeleteSampleCascade(db, pk))
  {
    var r := DeleteSampleCascade(db, pk);
    forall t | t in r.tasks ensures r.tasks[t].sample in r.samples {
      assert r.tasks[t] == db.tasks[t];
    }
  }

  lemma {:induction false} DeleteSampleCascadeKeepsLogsValid(db: Db, pk: SamplePk)
    requires AuditLogsValid(db)
    ensures AuditLogsValid(DeleteSampleCascade(db, pk))
  {
    var r := DeleteSampleCascade(db, pk);
    FilterChronological(db.auditLogs, (e: AuditLog) => e.sample != pk);
    forall i | 0 <= i < |r.auditLogs|
      ensures r.auditLogs[i].sample in r.samples
      ensures RefersToUser(r, r.auditLogs[i].actor) && r.auditLogs[i].timestamp < r.clock
    {
      assert r.auditLogs[i] in r.auditLogs;
      var k :| 0 <= k < |db.auditLogs| && db.auditLogs[k] == r.auditLogs[i];
    }
  }

  /** The logs of every other sample are untouched by the cascade. */
  lemma DeleteSampleCascadeKeepsOtherTrails(db: Db, pk: SamplePk, p: SamplePk)
    requires p != pk
    ensures AuditTrail(DeleteSampleCascade(db, pk), p) == AuditTrail(db, p)
  {
    FilterOtherSample(db.auditLogs, pk, p);
  }

  /** The set-null rule applied to one reference. */
  function ClearRef(r: Option<UserId>, u: UserId): (r': Option<UserId>)
    ensures r' != Some(u)
    ensures r' == None || r' == r
    ensures r != Some(u) ==> r' == r
  {
    if r == Some(u) then None else r
  }

  /** Deleting a user keeps every sample, task and log, with the owner,
      analyst and actor references to that user set to null. */
  function DeleteUserSetNull(db: Db, u: UserId): (r: Db)
    ensures r.users == db.users - {u}
    ensures r.samples.Keys == db.samples.Keys && r.tasks.Keys == db.tasks.Keys
    ensures |r.auditLogs| == |db.auditLogs|
    ensures forall p :: p in r.samples ==>
              r.samples[p] == db.samples[p].(owner := ClearRef(db.samples[p].owner, u))
    ensures forall t :: t in r.tasks ==>
              r.tasks[t] == db.tasks[t].(analyst := ClearRef(db.tasks[t].analyst, u))
    ensures forall i :: 0 <= i < |r.auditLogs| ==>
              r.auditLogs[i] == db.auditLogs[i].(actor := ClearRef(db.auditLogs[i].actor, u))
    ensures r.clock == db.clock && r.nextSamplePk == db.nextSamplePk && r.nextTaskPk == db.nextTaskPk
  {
    db.(users := db.users - {u},
        samples := map p | p in db.samples :: db.samples[p].(owner := ClearRef(db.samples[p].owner, u)),
        tasks := map t | t in db.tasks :: db.tasks[t].(analyst := ClearRef(db.tasks[t].analyst, u)),
        auditLogs := seq(|db.auditLogs|, i requires 0 <= i < |db.auditLogs| =>
                           db.auditLogs[i].(actor := ClearRef(db.auditLogs[i].actor, u))))
  }

  lemma DeleteUserSetNullPreservesValid(db: Db, u: UserId)
    requires Valid(db)
    ensures Valid(DeleteUserSetNull(db, u))
  {
    DeleteUserKeepsSamplesValid(db, u);
    DeleteUserKeepsTasksValid(db, u);
    DeleteUserKeepsLogsValid(db, u);
  }

  lemma DeleteUserKeepsSamplesValid(db: Db, u: UserId)
    requires SamplesValid(db)
    ensures SamplesValid(DeleteUserSetNull(db, u))
  {
    var r := DeleteUserSetNull(db, u);
    forall p | p in r.samples ensures WellFormedSample(r.samples[p]) && RefersToUser(r, r.samples[p].owner) {
      assert WellFormedSample(db.samples[p]);
    }
  }

  lemma DeleteUserKeepsTasksValid(db: Db, u: UserId)
    requires TasksValid(db)
    ensures TasksValid(DeleteUserSetNull(db, u))
  {
    var r := DeleteUserSetNull(db, u);
    forall t | t in r.tasks ensures WellFormedTask(r.tasks[t]) && RefersToUser(r, r.tasks[t].analyst) {
      assert WellFormedTask(db.tasks[t]);
    }
  }

  lemma DeleteUserKeepsLogsValid(db: Db, u: UserId)
    requires AuditLogsValid(db)
    ensures AuditLogsValid(DeleteUserSetNull(db, u))
  {
  }

  /** After a user is deleted nobody sees the samples that user owned. */
  lemma DeletedUsersSamplesInvisible(db: Db, u: UserId, v: UserId, p: SamplePk)
    requires OwnedBy(db, p, u)
    ensures p in DeleteUserSetNull(db, u).samples
    ensures p !in VisibleSamples(DeleteUserSetNull(db, u), v)
  {
  }
}
