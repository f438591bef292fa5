/** The orchestrator: chosen once, at construction, from the subtitle
    services registered by name; per job it fetches the subtitles and, only
    when that succeeds, summarises the extracted text. The two asynchronous
    stages run one after the other here. */
module Orchestration {
  import opened Wrappers
  import opened Jobs
  import opened JavaText
  import opened JobManager
  import opened SubtitleFetch
  import opened AiService
  import YoutubeVideo

  const UnsupportedProviderPrefix: string := "지원하지 않는 자막 제공자(provider)입니다: "

  datatype Orchestrator = Orchestrator(subtitleService: Service)

  /** The constructor: the service registered under `app.subtitle.provider`,
      or an `IllegalArgumentException` naming the unknown key. */
  function NewOrchestrator(implementations: map<string, Service>, provider: string): (r: Result<Orchestrator, Exception>)
    ensures r.Success? <==> provider in implementations
    ensures r.Success? ==> r.value.subtitleService == implementations[provider]
    ensures r.Failure? ==> r.error == IllegalArgument(UnsupportedProviderPrefix + provider)
  {
    if provider in implementations then Success(Orchestrator(implementations[provider]))
    else Failure(IllegalArgument(UnsupportedProviderPrefix + provider))
  }

  /** `processYoutubeVideo`: the subtitle future's value is handed to
      `summarize`; a failed future is only logged. */
  function ProcessYoutubeVideo(w: World, o: Orchestrator, env: Env, model: AiModel, cfg: Config,
                               jobId: string, video: YoutubeVideo.YoutubeVideo): (r: World)
    requires ValidConfig(cfg)
    ensures var fetched := FetchSubs(w, o.subtitleService, env, jobId, video.videoId);
      && (fetched.result.Success? ==> r == Summarize(fetched.world, model, cfg, jobId, fetched.result.value))
      && (fetched.result.Failure? ==> r == fetched.world)
  {
    var fetched := FetchSubs(w, o.subtitleService, env, jobId, video.videoId);
    match fetched.result
    case Success(text) => Summarize(fetched.world, model, cfg, jobId, text)
    case Failure(_) => fetched.world
  }

  /** However the run goes, the job ends COMPLETED or FAILED and no other
      job's record changes. A failed extraction leaves the job failed with
      the subtitle error message and makes no AI request; a completed job
      holds a non-blank summary. */
  lemma PipelineEndsTerminal(w: World, o: Orchestrator, env: Env, model: AiModel, cfg: Config,
                             jobId: string, video: YoutubeVideo.YoutubeVideo)
    requires ValidConfig(cfg)
    ensures var r := ProcessYoutubeVideo(w, o, env, model, cfg, jobId, video);
      var fetched := FetchSubs(w, o.subtitleService, env, jobId, video.videoId);
      && jobId in r.store && IsTerminal(r.store[jobId].status)
      && (forall id :: id in w.store && id != jobId ==> id in r.store && r.store[id] == w.store[id])
      && (fetched.result.Failure? ==>
            && r.store[jobId].status == Failed
            && r.store[jobId].result == Some(FailurePrefix + ShowNullable(fetched.result.error.cause.Message()))
            && NoAiRequestsFrom(r.trace, |w.trace|))
      && (r.store[jobId].status == Completed ==>
            fetched.result.Success? && r.store[jobId].result.Some? && !IsBlank(r.store[jobId].result.value))
  {
    var fetched := FetchSubs(w, o.subtitleService, env, jobId, video.videoId);
    FetchSubsFrame(w, o.subtitleService, env, jobId, video.videoId);
    if fetched.result.Failure? {
      FailureOutcome(w, o.subtitleService, env, jobId, video.videoId);
    }
  }

  /** A video without automatic captions ends FAILED with the "no captions"
      message, after SUBTITLE_EXTRACTING and without any AI request. */
  lemma NoCaptionsEndsFailed(w: World, o: Orchestrator, env: Env, model: AiModel, cfg: Config,
                             jobId: string, video: YoutubeVideo.YoutubeVideo, info: CaptionLanguage.VideoInfo)
    requires ValidConfig(cfg)
    requires env.metadataRun.Exited? && env.metadataRun.exitCode == 0
    requires env.parse(YtDlpProcess.JsonLine(env.metadataRun.output)) == Success(info)
    requires CaptionLanguage.NoCaptions(info.captions)
    ensures var r := ProcessYoutubeVideo(w, o, env, model, cfg, jobId, video);
      && r.store[jobId] == Job(jobId, Failed, Some(FailurePrefix + CaptionLanguage.NoCaptionsMessage))
      && StatusesStored(r.trace) == StatusesStored(w.trace) + [SubtitleExtracting, Failed]
      && NoAiRequestsFrom(r.trace, |w.trace|)
  {
    NoCaptionsFailsEarly(w, o.subtitleService, env, jobId, video.videoId, info);
    FailureOutcome(w, o.subtitleService, env, jobId, video.videoId);
    FetchSubsFrame(w, o.subtitleService, env, jobId, video.videoId);
  }
}
