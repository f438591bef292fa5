/** The job endpoints: submit a video, open its event stream, read its
    status. The repository behind them is the in-memory job store; each
    request is handled as one uninterrupted step. */
module JobController {
  import opened Wrappers
  import opened Jobs
  import opened SseNotification
  import opened JobManager
  import opened SubtitleFetch
  import opened AiService
  import opened Orchestration
  import InMemoryJobRepository
  import YoutubeVideo

  const InvalidJobIdPrefix: string := "Invalid Job ID: "

  /** The HTTP answers: 200 with a job snapshot, 202 with the job id, 404. */
  datatype Response = Ok(job: Job) | Accepted(jobId: string) | NotFound

  /** What a submission decides: the answer, whether the pipeline is
      started for the job, and the store after the create-if-absent. */
  datatype Submission = Submission(response: Response, startsPipeline: bool, store: Store)

  /** The decision part of `requestSubtitleProcessing`: the job id is the
      video id; a fresh job is created and started; an existing completed
      job is answered with its record; an existing failed job is started
      again with its record left as it is; any other job is left alone. */
  function RequestSubtitleProcessing(store: Store, video: YoutubeVideo.YoutubeVideo): (r: Submission)
    ensures var jobId := video.videoId;
      && (r.startsPipeline <==> jobId !in store || store[jobId].status == Failed)
      && (r.response.Ok? <==> jobId in store && store[jobId].status == Completed)
      && (r.response.Ok? ==> r.response.job == store[jobId])
      && (!r.response.Ok? ==> r.response == Accepted(jobId))
      && (jobId in store ==> r.store == store)
      && (jobId !in store ==> r.store == store[jobId := InMemoryJobRepository.InitialJob(jobId)])
  {
    var jobId := video.videoId;
    var (created, store') := InMemoryJobRepository.CreateJobIfAbsent(store, jobId);
    if created then Submission(Accepted(jobId), true, store')
    else
      match InMemoryJobRepository.GetJobStatus(store', jobId)
      case Some(job) =>
        if job.status == Completed then Submission(Ok(job), false, store')
        else Submission(Accepted(jobId), job.status == Failed, store')
      case None => Submission(Accepted(jobId), false, store')
  }

  /** A submission followed, when it decides so, by the pipeline run. */
  function Submit(w: World, o: Orchestrator, env: Env, model: AiModel, cfg: Config,
                  video: YoutubeVideo.YoutubeVideo): (r: (Response, World))
    requires ValidConfig(cfg)
    ensures r.0 == RequestSubtitleProcessing(w.store, video).response
    ensures !RequestSubtitleProcessing(w.store, video).startsPipeline ==>
      r.1 == w.(store := RequestSubtitleProcessing(w.store, video).store)
  {
    var decided := RequestSubtitleProcessing(w.store, video);
    var created := w.(store := decided.store);
    if decided.startsPipeline then
      (decided.response, ProcessYoutubeVideo(created, o, env, model, cfg, video.videoId, video))
    else (decided.response, created)
  }

  /** Submitting a video whose job already completed answers with the
      stored result and changes nothing. */
  lemma ResubmitCompletedIsNoOp(w: World, o: Orchestrator, env: Env, model: AiModel, cfg: Config,
                                video: YoutubeVideo.YoutubeVideo)
    requires ValidConfig(cfg)
    requires video.videoId in w.store && w.store[video.videoId].status == Completed
    ensures Submit(w, o, env, model, cfg, video) == (Ok(w.store[video.videoId]), w)
  {
  }

  /** A submission that starts the pipeline, fresh or as a retry, leaves
      the job COMPLETED or FAILED; a job that is still running is answered
      with 202 and not touched. */
  lemma SubmitOutcome(w: World, o: Orchestrator, env: Env, model: AiModel, cfg: Config,
                      video: YoutubeVideo.YoutubeVideo)
    requires ValidConfig(cfg)
    ensures var jobId := video.videoId;
      var r := Submit(w, o, env, model, cfg, video);
      && (jobId !in w.store || w.store[jobId].status == Failed ==>
            r.0 == Accepted(jobId) && jobId in r.1.store && IsTerminal(r.1.store[jobId].status))
      && (jobId in w.store && !IsTerminal(w.store[jobId].status) ==>
            r == (Accepted(jobId), w))
  {
    var decided := RequestSubtitleProcessing(w.store, video);
    if decided.startsPipeline {
      PipelineEndsTerminal(w.(store := decided.store), o, env, model, cfg, video.videoId, video);
    }
  }

  /** A retry does not reset the failed record to PENDING: the first
      status the pipeline writes over it is SUBTITLE_EXTRACTING. */
  lemma RetryKeepsFailedRecordUntilPipelineWrites(w: World, o: Orchestrator, env: Env, model: AiModel, cfg: Config,
                                                  video: YoutubeVideo.YoutubeVideo)
    requires ValidConfig(cfg)
    requires video.videoId in w.store && w.store[video.videoId].status == Failed
    ensures RequestSubtitleProcessing(w.store, video).store == w.store
    ensures var r := Submit(w, o, env, model, cfg, video).1;
      w.trace < r.trace && r.trace[|w.trace|] == Stored(Job(video.videoId, SubtitleExtracting, Some(ExtractingMessage)))
  {
    var fetched := FetchSubs(w, o.subtitleService, env, video.videoId, video.videoId);
    FetchSubsFrame(w, o.subtitleService, env, video.videoId, video.videoId);
    if fetched.result.Success? {
      var text := fetched.result.value;
      SummarizeAsksModel(fetched.world, model, cfg, video.videoId, text);
    }
  }

  /** What the stream endpoint hands back. */
  datatype Stream = DeadStream(error: Exception) | LiveStream(emitter: nat)

  /** `streamJobUpdates`: an unknown job gets a stream already closed with
      an `IllegalArgumentException` and nothing is registered; a known job
      is subscribed, and the stream is the new emitter. */
  function StreamJobUpdates(h: Hub, store: Store, jobId: string, failure: Option<Exception>): (r: (Stream, Hub))
    ensures jobId !in store ==> r == (DeadStream(IllegalArgument(InvalidJobIdPrefix + jobId)), h)
    ensures jobId in store ==> r == (LiveStream(h.created), Subscribe(h, store, jobId, failure))
  {
    if InMemoryJobRepository.GetJobStatus(store, jobId).None? then
      (DeadStream(IllegalArgument(InvalidJobIdPrefix + jobId)), h)
    else (LiveStream(h.created), Subscribe(h, store, jobId, failure))
  }

  /** `getJobStatus`: 200 with the record when there is one, 404 otherwise. */
  function GetJobStatus(store: Store, jobId: string): (r: Response)
    ensures r.Ok? <==> jobId in store
    ensures r.Ok? ==> r.job == store[jobId]
    ensures !r.Ok? ==> r == NotFound
  {
    match InMemoryJobRepository.GetJobStatus(store, jobId)
    case Some(job) => Ok(job)
    case None => NotFound
  }
}
