/** The in-memory job repository: a map from job id to record with
    create-if-absent, lookup and unconditional overwrite. Calls are taken one
    at a time; the atomicity of `putIfAbsent` under concurrent callers is not
    modelled. */
module InMemoryJobRepository {
  import opened Wrappers
  import opened Jobs

  /** The record a fresh job starts with: pending, no result yet. */
  function InitialJob(jobId: string): Job {
    Job(jobId, Pending, None)
  }

  /** `createJobIfAbsent`: `putIfAbsent(jobId, (jobId, PENDING, null)) == null`.
      The boolean says whether this call inserted the record. */
  function CreateJobIfAbsent(store: Store, jobId: string): (r: (bool, Store))
    ensures r.0 <==> jobId !in store
    ensures jobId in r.1
    ensures r.0 ==> r.1[jobId] == InitialJob(jobId)
    ensures !r.0 ==> r.1 == store
    ensures r.1.Keys == store.Keys + {jobId}
    ensures forall id :: id in store ==> r.1[id] == store[id]
    ensures WellKeyed(store) ==> WellKeyed(r.1)
  {
    if jobId in store then (false, store) else (true, store[jobId := InitialJob(jobId)])
  }

  /** `getJobStatus`: the stored record, or empty. */
  function GetJobStatus(store: Store, jobId: string): (r: Option<Job>)
    ensures r.Some? <==> jobId in store
    ensures r.Some? ==> r.value == store[jobId]
  {
    if jobId in store then Some(store[jobId]) else None
  }

  /** `updateJob`: stores `(jobId, status, result)` whatever was there before,
      inserting when absent. No transition check is made. */
  function UpdateJob(store: Store, jobId: string, status: JobStatus, result: Option<string>): (r: Store)
    ensures r.Keys == store.Keys + {jobId}
    ensures r[jobId] == Job(jobId, status, result)
    ensures forall id :: id in store && id != jobId ==> r[id] == store[id]
    ensures WellKeyed(store) ==> WellKeyed(r)
  {
    store[jobId := Job(jobId, status, result)]
  }

  /** Among any two successive creates for the same id, at most one reports an
      insert, and the second leaves the store as the first left it. */
  lemma CreateAtMostOnce(store: Store, jobId: string)
    ensures var first := CreateJobIfAbsent(store, jobId);
            var second := CreateJobIfAbsent(first.1, jobId);
            !second.0 && second.1 == first.1 && !(first.0 && second.0)
  {
  }

  /** A read after a write returns exactly what was written, and writing to
      one id is invisible to reads of any other id. */
  lemma GetAfterUpdate(store: Store, jobId: string, other: string, status: JobStatus, result: Option<string>)
    ensures GetJobStatus(UpdateJob(store, jobId, status, result), jobId) == Some(Job(jobId, status, result))
    ensures other != jobId ==>
      GetJobStatus(UpdateJob(store, jobId, status, result), other) == GetJobStatus(store, other)
  {
  }
}

/** The relational job repository over an abstract table of `JobEntity` rows
    keyed by job id. Unlike the in-memory store, a fresh row carries a
    non-null waiting message. */
module MySqlJobRepository {
  import opened Wrappers
  import opened Jobs
  import InMemoryJobRepository

  /** A `jobs` table row. */
  datatype JobEntity = JobEntity(jobId: string, status: JobStatus, result: Option<string>)

  type Table = map<string, JobEntity>

  /** The result text a freshly created row carries. */
  const WaitingMessage: string := "작업 처리 대기 중..."

  /** `toDto`: fields copied one to one. */
  function ToDto(e: JobEntity): (j: Job)
    ensures j.jobId == e.jobId && j.status == e.status && j.result == e.result
  {
    Job(e.jobId, e.status, e.result)
  }

  /** `createJobIfAbsent`. An existing id returns false with no write. For an
      absent id the insert either succeeds (true) or meets a unique-key
      conflict from a concurrent writer (`insertConflicts`), which is caught
      and reported as false; that other writer's row is outside this
      sequential model, so the table is left as it was. */
  function CreateJobIfAbsent(table: Table, jobId: string, insertConflicts: bool): (r: (bool, Table))
    ensures r.0 <==> jobId !in table && !insertConflicts
    ensures r.0 ==> r.1 == table[jobId := JobEntity(jobId, Pending, Some(WaitingMessage))]
    ensures !r.0 ==> r.1 == table
  {
    if jobId in table then (false, table)
    else if insertConflicts then (false, table)
    else (true, table[jobId := JobEntity(jobId, Pending, Some(WaitingMessage))])
  }

  /** `getJobStatus`: `findById(jobId).map(toDto)`. */
  function GetJobStatus(table: Table, jobId: string): (r: Option<Job>)
    ensures r.Some? <==> jobId in table
    ensures r.Some? ==> r.value == ToDto(table[jobId])
  {
    if jobId in table then Some(ToDto(table[jobId])) else None
  }

  /** `updateJob`: `save` of a fresh entity, which inserts or overwrites. */
  function UpdateJob(table: Table, jobId: string, status: JobStatus, message: Option<string>): (r: Table)
    ensures r.Keys == table.Keys + {jobId}
    ensures r[jobId] == JobEntity(jobId, status, message)
    ensures forall id :: id in table && id != jobId ==> r[id] == table[id]
  {
    table[jobId := JobEntity(jobId, status, message)]
  }

  /** The table as the job records it holds. */
  function AsStore(table: Table): (s: Store)
    ensures s.Keys == table.Keys
  {
    map id | id in table :: ToDto(table[id])
  }

  /** An update through either repository leaves the same job records. */
  lemma {:induction false} UpdateAgreesWithInMemory(table: Table, jobId: string, status: JobStatus, message: Option<string>)
    ensures AsStore(UpdateJob(table, jobId, status, message))
         == InMemoryJobRepository.UpdateJob(AsStore(table), jobId, status, message)
  {
    var mine := AsStore(UpdateJob(table, jobId, status, message));
    var theirs := InMemoryJobRepository.UpdateJob(AsStore(table), jobId, status, message);
    assert mine.Keys == theirs.Keys;
    forall id | id in mine
      ensures mine[id] == theirs[id]
    {
    }
  }

  /** Lookups through either repository agree. */
  lemma GetAgreesWithInMemory(table: Table, jobId: string)
    ensures GetJobStatus(table, jobId) == InMemoryJobRepository.GetJobStatus(AsStore(table), jobId)
  {
  }

  /** A conflict-free create agrees with the in-memory one on the answer, and
      on the records it leaves except for the new record's result, which is
      the waiting message here and `null` there. */
  lemma {:induction false} CreateAgreesWithInMemory(table: Table, jobId: string)
    ensures var mine := CreateJobIfAbsent(table, jobId, false);
            var theirs := InMemoryJobRepository.CreateJobIfAbsent(AsStore(table), jobId);
            && mine.0 == theirs.0
            && (mine.0 ==> AsStore(mine.1) == theirs.1[jobId := Job(jobId, Pending, Some(WaitingMessage))])
            && (!mine.0 ==> AsStore(mine.1) == theirs.1)
  {
    var mine := CreateJobIfAbsent(table, jobId, false);
    var theirs := InMemoryJobRepository.CreateJobIfAbsent(AsStore(table), jobId);
    if mine.0 {
      var a := AsStore(mine.1);
      var b := theirs.1[jobId := Job(jobId, Pending, Some(WaitingMessage))];
      assert a.Keys == b.Keys;
      forall id | id in a
        ensures a[id] == b[id]
      {
      }
    }
  }
}
