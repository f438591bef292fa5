/** The job manager and the world it acts on: the job store, the SSE hub and
    the ordered trace of outside effects (store writes, status publications,
    subprocess runs, AI requests, file deletions). Every job transition
    writes the store first and then publishes the same snapshot; the publish
    call is an abstract effect because its implementation is not part of
    this model. */
module JobManager {
  import opened Wrappers
  import opened Jobs
  import opened SseNotification
  import InMemoryJobRepository

  /** A request to the chat model, by prompt template. */
  datatype AiRequest =
    | PartialSummary(chunk: string)
    | FinalFromTranscript(text: string)
    | FinalFromSummaries(summaries: string)

  datatype Effect =
    | Stored(job: Job)
    | Published(job: Job)
    | CommandRun(command: seq<string>)
    | AiRequested(request: AiRequest)
    | FileDeleted(path: string)

  datatype World = World(store: Store, hub: Hub, trace: seq<Effect>)

  /** The statuses written to the store, in order. */
  function StatusesStored(trace: seq<Effect>): seq<JobStatus> {
    if |trace| == 0 then []
    else StoredStatus(trace[0]) + StatusesStored(trace[1..])
  }

  function StoredStatus(e: Effect): seq<JobStatus> {
    if e.Stored? then [e.job.status] else []
  }

  lemma {:induction false} StatusesStoredAppend(a: seq<Effect>, b: seq<Effect>)
    ensures StatusesStored(a + b) == StatusesStored(a) + StatusesStored(b)
    decreases |a|
  {
    if |a| == 0 {
      assert a + b == b;
    } else {
      var ab := a + b;
      assert ab[0] == a[0];
      assert ab[1..] == a[1..] + b;
      StatusesStoredAppend(a[1..], b);
      assert StatusesStored(ab) == StoredStatus(a[0]) + StatusesStored(ab[1..]);
      assert StatusesStored(a) == StoredStatus(a[0]) + StatusesStored(a[1..]);
    }
  }

  /** Write then publish one snapshot; the hub is not touched. */
  function Record(w: World, job: Job): (r: World)
    ensures r.store == InMemoryJobRepository.UpdateJob(w.store, job.jobId, job.status, job.result)
    ensures r.hub == w.hub
    ensures r.trace == w.trace + [Stored(job), Published(job)]
    ensures StatusesStored(r.trace) == StatusesStored(w.trace) + [job.status]
  {
    StatusesStoredAppend(w.trace, [Stored(job), Published(job)]);
    var pair := [Stored(job), Published(job)];
    assert pair[1..][1..] == [];
    assert StatusesStored(pair[1..]) == [];
    assert StatusesStored(pair) == [job.status];
    World(InMemoryJobRepository.UpdateJob(w.store, job.jobId, job.status, job.result),
          w.hub, w.trace + [Stored(job), Published(job)])
  }

  /** `updateJobProgress`: store `(status, message)` and publish it; the
      job's stream stays as it was. */
  function UpdateJobProgress(w: World, jobId: string, status: JobStatus, message: string): (r: World)
    ensures jobId in r.store && r.store[jobId] == Job(jobId, status, Some(message))
    ensures forall id :: id in w.store && id != jobId ==> id in r.store && r.store[id] == w.store[id]
    ensures r.store.Keys == w.store.Keys + {jobId}
    ensures r.trace == w.trace + [Stored(Job(jobId, status, Some(message))), Published(Job(jobId, status, Some(message)))]
    ensures StatusesStored(r.trace) == StatusesStored(w.trace) + [status]
    ensures r.hub == w.hub
  {
    Record(w, Job(jobId, status, Some(message)))
  }

  /** `completeJob`: store `(COMPLETED, result)`, publish it, then complete
      the job's stream. */
  function CompleteJob(w: World, jobId: string, result: string): (r: World)
    ensures jobId in r.store && r.store[jobId] == Job(jobId, Completed, Some(result))
    ensures forall id :: id in w.store && id != jobId ==> id in r.store && r.store[id] == w.store[id]
    ensures r.trace == w.trace + [Stored(Job(jobId, Completed, Some(result))), Published(Job(jobId, Completed, Some(result)))]
    ensures StatusesStored(r.trace) == StatusesStored(w.trace) + [Completed]
    ensures jobId in r.hub.channels ==> r.hub.channels[jobId].state != Open
    ensures forall id :: id != jobId ==> (id in r.hub.channels <==> id in w.hub.channels)
    ensures r.hub.log == w.hub.log ||
      (jobId in w.hub.channels && r.hub.log == w.hub.log + [CompletedSignal(w.hub.channels[jobId].serial, jobId)])
    ensures r.hub == CompleteStream(w.hub, jobId)
  {
    var recorded := Record(w, Job(jobId, Completed, Some(result)));
    recorded.(hub := CompleteStream(recorded.hub, jobId))
  }

  /** `failJob`: store `(FAILED, errorMessage)` (the caller's text, not the
      exception's), publish it, then close the job's stream with `cause`. */
  function FailJob(w: World, jobId: string, errorMessage: string, cause: Exception): (r: World)
    ensures jobId in r.store && r.store[jobId] == Job(jobId, Failed, Some(errorMessage))
    ensures forall id :: id in w.store && id != jobId ==> id in r.store && r.store[id] == w.store[id]
    ensures r.trace == w.trace + [Stored(Job(jobId, Failed, Some(errorMessage))), Published(Job(jobId, Failed, Some(errorMessage)))]
    ensures StatusesStored(r.trace) == StatusesStored(w.trace) + [Failed]
    ensures jobId in r.hub.channels ==> r.hub.channels[jobId].state != Open
    ensures forall id :: id != jobId ==> (id in r.hub.channels <==> id in w.hub.channels)
    ensures r.hub.log == w.hub.log ||
      (jobId in w.hub.channels && r.hub.log == w.hub.log + [ErroredSignal(w.hub.channels[jobId].serial, jobId, cause)])
    ensures r.hub == ErrorStream(w.hub, jobId, cause)
  {
    var recorded := Record(w, Job(jobId, Failed, Some(errorMessage)));
    recorded.(hub := ErrorStream(recorded.hub, jobId, cause))
  }
}
