/** `fetchSubs` of the two yt-dlp subtitle services. Both run the same
    sequence: record SUBTITLE_EXTRACTING, fetch the video's metadata, choose
    a caption language, make sure the temp directory exists, download the
    captions, read the file, turn it into text and record
    SUBTITLE_EXTRACTION_COMPLETED. Any exception fails the job and the
    returned future; the `finally` block deletes the expected subtitle file
    once its path is known. They differ in the executor, the file extension,
    the text step (`cleanSubtitleText` or `SubtitleProcessor.process`) and in
    how much of the text they store.

    The subprocesses, the JSON parser, the directory check and the file
    read are outside collaborators; their outcomes for one call are given by
    an `Env`. */
module SubtitleFetch {
  import opened Wrappers
  import opened Jobs
  import opened JavaText
  import opened JobManager
  import opened YtDlpProcess
  import opened CaptionLanguage
  import LegacyYtDlpExecutor
  import YtDlpExecutor
  import LegacySubtitleCleaner
  import SubtitleProcessor

  /** `FileManager`'s temp directory and the download template inside it;
      paths are joined with `/`. */
  const TempDirName: string := "temp_subtitles"
  const OutputTemplate: string := TempDirName + "/%(id)s.%(ext)s"

  const ExtractingMessage: string := "자막 추출을 시작합니다..."
  const FailurePrefix: string := "자막 처리 중 오류 발생: "
  const ApiFailureMessage: string := "yt-dlp 자막 처리 실패"
  const EmptyFileMessage: string := "자막 파일이 생성되지 않았거나 내용이 비어있습니다. (영상 데이터 문제)"

  /** The two implementations registered as `ytDlp`. */
  datatype Service =
    | LegacyService(ytDlpPath: string)
    | CurrentService(executor: YtDlpExecutor.ExecutorConfig)

  /** What the expected subtitle file holds when it is read. */
  datatype FileRead = Missing | Unreadable(error: Exception) | Contents(text: string)

  /** The outcomes of everything outside the service, for one call. */
  datatype Env = Env(
    metadataRun: ProcessRun,
    parse: string -> Result<VideoInfo, Exception>,
    tempDirExists: bool,
    createDirectories: Option<Exception>,
    downloadRun: ProcessRun,
    subtitleFile: FileRead)

  /** What a call leaves behind: the world after the `finally` block, and
      how the returned future completes. */
  datatype Fetched = Fetched(world: World, result: Result<string, Exception>)

  /** `FileManager.readFileContent`: a missing or empty file is reported as
      "no subtitles"; otherwise the text, or the reader's exception. */
  function ReadFileContent(f: FileRead): (r: Result<string, Exception>)
    ensures r.Success? <==> f.Contents? && f.text != ""
    ensures r.Success? ==> r.value == f.text
    ensures f.Missing? || f == Contents("") ==> r == Failure(NoSubtitlesFound(EmptyFileMessage))
  {
    match f
    case Missing => Failure(NoSubtitlesFound(EmptyFileMessage))
    case Unreadable(e) => Failure(e)
    case Contents(t) => if t == "" then Failure(NoSubtitlesFound(EmptyFileMessage)) else Success(t)
  }

  function Extension(s: Service): string {
    if s.LegacyService? then "vtt" else "srt"
  }

  /** `tempDir.resolve(videoId + "." + langCode + ext)`. */
  function SubtitlePath(s: Service, videoId: string, langCode: string): string {
    TempDirName + "/" + videoId + "." + langCode + "." + Extension(s)
  }

  function MetadataCommand(s: Service, videoId: string): seq<string> {
    match s
    case LegacyService(path) => LegacyYtDlpExecutor.MetadataCommand(path, videoId)
    case CurrentService(cfg) => YtDlpExecutor.MetadataCommand(cfg, videoId)
  }

  function DownloadCommand(s: Service, videoId: string, langCode: string): seq<string> {
    match s
    case LegacyService(path) => LegacyYtDlpExecutor.SaveCommand(path, videoId, langCode, OutputTemplate)
    case CurrentService(cfg) => YtDlpExecutor.SaveCommand(cfg, videoId, langCode, OutputTemplate)
  }

  function Execute(s: Service, command: seq<string>, run: ProcessRun, returnJson: bool): Result<string, Exception> {
    match s
    case LegacyService(_) => LegacyYtDlpExecutor.Execute(command, run, returnJson)
    case CurrentService(_) => YtDlpExecutor.Execute(command, run, returnJson)
  }

  /** The text step: the older service cleans the WebVTT text, the current
      one runs the subtitle processor, which may throw. */
  function TextOf(s: Service, raw: string): Result<string, Exception> {
    if s.LegacyService? then Success(LegacySubtitleCleaner.CleanSubtitleText(raw))
    else SubtitleProcessor.Process(raw)
  }

  /** The older service's text step never throws and yields text of the
      distinct cleaned lines; the current one fails exactly when the
      processor's block loop does. */
  lemma TextOfByService(s: Service, raw: string)
    ensures s.LegacyService? ==>
      && TextOf(s, raw).Success?
      && TextOf(s, raw).value == Join(LegacySubtitleCleaner.CleanedLines(raw), " ")
    ensures s.CurrentService? ==>
      (TextOf(s, raw).Success? <==> SubtitleProcessor.ProcessSentences(raw).Success?)
  {
  }

  /** What SUBTITLE_EXTRACTION_COMPLETED is stored with: the whole text by
      the older service, its first `min(length, 200)` chars by the current
      one. */
  function StoredText(s: Service, text: string): (r: string)
    ensures |r| == if s.LegacyService? then |text| else Min(|text|, 200)
    ensures r == text[..|r|]
  {
    if s.LegacyService? then text else text[..Min(|text|, 200)]
  }

  /** The language `findBestSubtitleLanguage` settles on, or the exception
      raised on the way to it: a failed metadata run, a parse error, or no
      usable captions. */
  function ChosenLanguage(s: Service, env: Env, videoId: string): Result<string, Exception> {
    var json :- Execute(s, MetadataCommand(s, videoId), env.metadataRun, true);
    var info :- env.parse(json);
    FindBestSubtitleLanguage(info)
  }

  /** A failed metadata run or parse is the exception the choice raises;
      a chosen language is one of the caption keys the metadata lists. */
  lemma ChosenLanguageOutcome(s: Service, env: Env, videoId: string)
    ensures var run := Execute(s, MetadataCommand(s, videoId), env.metadataRun, true);
      var r := ChosenLanguage(s, env, videoId);
      && (run.Failure? ==> r == Failure(run.error))
      && (run.Success? && env.parse(run.value).Failure? ==> r == Failure(env.parse(run.value).error))
      && (r.Success? ==>
            run.Success? && env.parse(run.value).Success? && r.value in CaptionKeys(env.parse(run.value).value.captions))
  {
  }

  /** Whether the steps after the language choice get through. */
  function Download(s: Service, env: Env, videoId: string, langCode: string): Result<string, Exception> {
    if !env.tempDirExists && env.createDirectories.Some? then Failure(env.createDirectories.value)
    else
      var _ :- Execute(s, DownloadCommand(s, videoId, langCode), env.downloadRun, false);
      var raw :- ReadFileContent(env.subtitleFile);
      TextOf(s, raw)
  }

  /** A directory that cannot be created ends the step with that exception;
      a missing or empty subtitle file fails it; a success is the text step
      applied to the file's contents. */
  lemma DownloadOutcome(s: Service, env: Env, videoId: string, langCode: string)
    ensures var r := Download(s, env, videoId, langCode);
      && (!env.tempDirExists && env.createDirectories.Some? ==> r == Failure(env.createDirectories.value))
      && (env.subtitleFile.Missing? || env.subtitleFile == Contents("") ==> r.Failure?)
      && (r.Success? ==>
            ReadFileContent(env.subtitleFile).Success? && r == TextOf(s, ReadFileContent(env.subtitleFile).value))
  {
  }

  /** Note a subprocess run in the trace. */
  function Ran(w: World, command: seq<string>): (r: World)
    ensures r == w.(trace := w.trace + [CommandRun(command)])
    ensures StatusesStored(r.trace) == StatusesStored(w.trace)
  {
    StatusesStoredAppend(w.trace, [CommandRun(command)]);
    w.(trace := w.trace + [CommandRun(command)])
  }

  /** The `finally` block: `deleteFile(expectedSubtitlePath)`, which skips
      a path that was never set. */
  function Cleanup(w: World, path: Option<string>): (r: World)
    ensures path.None? ==> r == w
    ensures path.Some? ==> r == w.(trace := w.trace + [FileDeleted(path.value)])
    ensures StatusesStored(r.trace) == StatusesStored(w.trace)
  {
    if path.None? then w
    else
      StatusesStoredAppend(w.trace, [FileDeleted(path.value)]);
      w.(trace := w.trace + [FileDeleted(path.value)])
  }

  /** The `catch` block followed by the `finally` block. */
  function HandleFailure(w: World, jobId: string, e: Exception, path: Option<string>): (r: Fetched)
    ensures r.world == Cleanup(FailJob(w, jobId, FailurePrefix + ShowNullable(e.Message()), e), path)
    ensures r.result == Failure(YoutubeApi(ApiFailureMessage, e))
  {
    Fetched(Cleanup(FailJob(w, jobId, FailurePrefix + ShowNullable(e.Message()), e), path),
            Failure(YoutubeApi(ApiFailureMessage, e)))
  }

  /** `fetchSubs(jobId, video)`. */
  function FetchSubs(w: World, s: Service, env: Env, jobId: string, videoId: string): Fetched {
    var started := Started(w, s, jobId, videoId);
    match ChosenLanguage(s, env, videoId)
    case Failure(e) => HandleFailure(started, jobId, e, None)
    case Success(lang) => AfterLanguage(started, s, env, jobId, videoId, lang)
  }

  /** The returned future: the text when the language was chosen and the
      download step got through, otherwise a `YoutubeApiException`. */
  lemma FetchSubsResult(w: World, s: Service, env: Env, jobId: string, videoId: string)
    ensures var r := FetchSubs(w, s, env, jobId, videoId).result;
      var lang := ChosenLanguage(s, env, videoId);
      && (r.Failure? ==> r.error.YoutubeApi? && r.error.text == ApiFailureMessage)
      && (r.Success? <==> lang.Success? && Download(s, env, videoId, lang.value).Success?)
      && (r.Success? ==> r == Download(s, env, videoId, lang.value))
  {
    var lang := ChosenLanguage(s, env, videoId);
    if lang.Success? {
      AfterLanguageResult(Started(w, s, jobId, videoId), s, env, jobId, videoId, lang.value);
    }
  }

  /** SUBTITLE_EXTRACTING is recorded, then the metadata command runs. */
  function Started(w: World, s: Service, jobId: string, videoId: string): (r: World)
    ensures w.trace < r.trace
    ensures r.trace[|w.trace|] == Stored(Job(jobId, SubtitleExtracting, Some(ExtractingMessage)))
    ensures r.trace[|r.trace| - 1] == CommandRun(MetadataCommand(s, videoId))
    ensures forall id :: id in w.store && id != jobId ==> id in r.store && r.store[id] == w.store[id]
    ensures StatusesStored(r.trace) == StatusesStored(w.trace) + [SubtitleExtracting]
    ensures NoAiRequestsFrom(r.trace, |w.trace|) && NoDeletionsFrom(r.trace, |w.trace|)
  {
    Ran(UpdateJobProgress(w, jobId, SubtitleExtracting, ExtractingMessage), MetadataCommand(s, videoId))
  }

  /** The download command runs unless creating the temp directory threw. */
  function Downloading(started: World, s: Service, env: Env, videoId: string, langCode: string): (r: World)
    ensures r.store == started.store && r.hub == started.hub && started.trace <= r.trace
    ensures StatusesStored(r.trace) == StatusesStored(started.trace)
    ensures NoAiRequestsFrom(r.trace, |started.trace|) && NoDeletionsFrom(r.trace, |started.trace|)
  {
    if !env.tempDirExists && env.createDirectories.Some? then started
    else Ran(started, DownloadCommand(s, videoId, langCode))
  }

  /** Everything after the language choice, once the subtitle path is set. */
  function AfterLanguage(started: World, s: Service, env: Env, jobId: string, videoId: string, langCode: string): (r: Fetched)
    ensures started.trace < r.world.trace
    ensures forall id :: id in started.store && id != jobId ==> id in r.world.store && r.world.store[id] == started.store[id]
    ensures NoAiRequestsFrom(r.world.trace, |started.trace|)
  {
    var path := SubtitlePath(s, videoId, langCode);
    var downloading := Downloading(started, s, env, videoId, langCode);
    match Download(s, env, videoId, langCode)
    case Failure(e) =>
      var r := HandleFailure(downloading, jobId, e, Some(path));
      HandleFailureOutcome(downloading, jobId, e, Some(path));
      NoAiRequestsCompose(started.trace, downloading.trace, r.world.trace);
      r
    case Success(text) =>
      var done := Completed(downloading, jobId, StoredText(s, text), path);
      NoAiRequestsCompose(started.trace, downloading.trace, done.trace);
      Fetched(done, Success(text))
  }

  /** The success path's last steps: SUBTITLE_EXTRACTION_COMPLETED is
      recorded with the stored text, then the `finally` block deletes the
      file. */
  function Completed(downloading: World, jobId: string, storedText: string, path: string): (r: World)
    ensures downloading.trace < r.trace
    ensures jobId in r.store && r.store[jobId] == Job(jobId, SubtitleExtractionCompleted, Some(storedText))
    ensures forall id :: id in downloading.store && id != jobId ==> id in r.store && r.store[id] == downloading.store[id]
    ensures StatusesStored(r.trace) == StatusesStored(downloading.trace) + [SubtitleExtractionCompleted]
    ensures NoAiRequestsFrom(r.trace, |downloading.trace|)
    ensures r.trace[|r.trace| - 1] == FileDeleted(path)
  {
    var stored := UpdateJobProgress(downloading, jobId, SubtitleExtractionCompleted, storedText);
    var done := Cleanup(stored, Some(path));
    assert done.trace == downloading.trace + (stored.trace[|downloading.trace|..] + [FileDeleted(path)]);
    done
  }

  /** `fetchSubs` is the failure handler when choosing the language threw,
      and the rest of the steps otherwise. */
  lemma FetchSubsUnfold(w: World, s: Service, env: Env, jobId: string, videoId: string)
    ensures var lang := ChosenLanguage(s, env, videoId);
      && (lang.Failure? ==>
            FetchSubs(w, s, env, jobId, videoId) == HandleFailure(Started(w, s, jobId, videoId), jobId, lang.error, None))
      && (lang.Success? ==>
            FetchSubs(w, s, env, jobId, videoId) == AfterLanguage(Started(w, s, jobId, videoId), s, env, jobId, videoId, lang.value))
  {
  }

  /** The future after the language choice: the download's text, or a
      `YoutubeApiException` when a step failed. */
  lemma AfterLanguageResult(started: World, s: Service, env: Env, jobId: string, videoId: string, langCode: string)
    ensures var r := AfterLanguage(started, s, env, jobId, videoId, langCode).result;
      && (r.Failure? ==> r.error.YoutubeApi? && r.error.text == ApiFailureMessage)
      && (r.Success? <==> Download(s, env, videoId, langCode).Success?)
      && (r.Success? ==> r == Download(s, env, videoId, langCode))
  {
  }

  /** No effect in `t` from position `n` on asks the AI model for anything. */
  predicate NoAiRequestsFrom(t: seq<Effect>, n: nat) {
    forall k :: n <= k < |t| ==> !t[k].AiRequested?
  }

  /** No effect in `t` from position `n` on deletes a file. */
  predicate NoDeletionsFrom(t: seq<Effect>, n: nat) {
    forall k :: n <= k < |t| ==> !t[k].FileDeleted?
  }

  /** The failure path: the job is failed with the prefixed message of the
      cause, the future fails with a `YoutubeApiException` around that cause,
      and the file is deleted last when its path is known. */
  lemma HandleFailureOutcome(w: World, jobId: string, e: Exception, path: Option<string>)
    ensures var r := HandleFailure(w, jobId, e, path);
      && w.trace <= r.world.trace
      && jobId in r.world.store
      && r.world.store[jobId] == Job(jobId, Failed, Some(FailurePrefix + ShowNullable(e.Message())))
      && (forall id :: id in w.store && id != jobId ==> id in r.world.store && r.world.store[id] == w.store[id])
      && StatusesStored(r.world.trace) == StatusesStored(w.trace) + [Failed]
      && NoAiRequestsFrom(r.world.trace, |w.trace|)
      && (path.Some? ==> r.world.trace[|r.world.trace| - 1] == FileDeleted(path.value))
      && (path.None? ==> NoDeletionsFrom(r.world.trace, |w.trace|))
  {
  }

  /** The success path records the two extraction statuses, stores the
      (possibly shortened) text, and returns the text the text step made
      from the downloaded file; the file is deleted last. */
  lemma SuccessOutcome(w: World, s: Service, env: Env, jobId: string, videoId: string)
    requires FetchSubs(w, s, env, jobId, videoId).result.Success?
    ensures var r := FetchSubs(w, s, env, jobId, videoId);
      var text := r.result.value;
      && ChosenLanguage(s, env, videoId).Success?
      && env.subtitleFile.Contents? && env.subtitleFile.text != ""
      && TextOf(s, env.subtitleFile.text) == Success(text)
      && jobId in r.world.store
      && r.world.store[jobId] == Job(jobId, SubtitleExtractionCompleted, Some(StoredText(s, text)))
      && StatusesStored(r.world.trace) == StatusesStored(w.trace) + [SubtitleExtracting, SubtitleExtractionCompleted]
      && r.world.trace[|r.world.trace| - 1]
           == FileDeleted(SubtitlePath(s, videoId, ChosenLanguage(s, env, videoId).value))
  {
    var started := Started(w, s, jobId, videoId);
    FetchSubsUnfold(w, s, env, jobId, videoId);
    var lang := ChosenLanguage(s, env, videoId).value;
    assert FetchSubs(w, s, env, jobId, videoId) == AfterLanguage(started, s, env, jobId, videoId, lang);
    AfterLanguageSuccess(started, s, env, jobId, videoId, lang);
    assert StatusesStored(started.trace) + [SubtitleExtractionCompleted]
        == StatusesStored(w.trace) + [SubtitleExtracting, SubtitleExtractionCompleted];
  }

  /** A success after the language choice read a non-empty file, whose
      text step gave the returned text; SUBTITLE_EXTRACTION_COMPLETED is
      stored with that text, and the file is deleted last. */
  lemma AfterLanguageSuccess(started: World, s: Service, env: Env, jobId: string, videoId: string, langCode: string)
    requires AfterLanguage(started, s, env, jobId, videoId, langCode).result.Success?
    ensures var r := AfterLanguage(started, s, env, jobId, videoId, langCode);
      var text := r.result.value;
      && env.subtitleFile.Contents? && env.subtitleFile.text != ""
      && TextOf(s, env.subtitleFile.text) == Success(text)
      && jobId in r.world.store
      && r.world.store[jobId] == Job(jobId, SubtitleExtractionCompleted, Some(StoredText(s, text)))
      && StatusesStored(r.world.trace) == StatusesStored(started.trace) + [SubtitleExtractionCompleted]
      && r.world.trace[|r.world.trace| - 1] == FileDeleted(SubtitlePath(s, videoId, langCode))
  {
    assert Download(s, env, videoId, langCode).Success?;
    var text := Download(s, env, videoId, langCode).value;
    assert ReadFileContent(env.subtitleFile).Success?;
    var downloading := Downloading(started, s, env, videoId, langCode);
    assert AfterLanguage(started, s, env, jobId, videoId, langCode).world
        == Completed(downloading, jobId, StoredText(s, text), SubtitlePath(s, videoId, langCode));
  }

  /** Every failure, wherever it happens, fails the job with the prefixed
      message of the cause and fails the future with a
      `YoutubeApiException` wrapping that cause. The expected file is
      deleted, as the last effect, exactly when the language was chosen and
      so its path was known. */
  lemma FailureOutcome(w: World, s: Service, env: Env, jobId: string, videoId: string)
    requires FetchSubs(w, s, env, jobId, videoId).result.Failure?
    ensures var r := FetchSubs(w, s, env, jobId, videoId);
      var e := r.result.error;
      && e.YoutubeApi? && e.text == ApiFailureMessage
      && jobId in r.world.store
      && r.world.store[jobId] == Job(jobId, Failed, Some(FailurePrefix + ShowNullable(e.cause.Message())))
      && StatusesStored(r.world.trace) == StatusesStored(w.trace) + [SubtitleExtracting, Failed]
      && (ChosenLanguage(s, env, videoId).Failure? ==>
            e.cause == ChosenLanguage(s, env, videoId).error && NoDeletionsFrom(r.world.trace, |w.trace|))
      && (ChosenLanguage(s, env, videoId).Success? ==>
            r.world.trace[|r.world.trace| - 1]
              == FileDeleted(SubtitlePath(s, videoId, ChosenLanguage(s, env, videoId).value)))
  {
    var started := Started(w, s, jobId, videoId);
    var lr := ChosenLanguage(s, env, videoId);
    var r := FetchSubs(w, s, env, jobId, videoId);
    FetchSubsUnfold(w, s, env, jobId, videoId);
    if lr.Failure? {
      HandleFailureOutcome(started, jobId, lr.error, None);
      NoDeletionsCompose(w.trace, started.trace, r.world.trace);
    } else {
      AfterLanguageFailure(started, s, env, jobId, videoId, lr.value);
    }
    assert StatusesStored(w.trace) + [SubtitleExtracting] + [Failed]
        == StatusesStored(w.trace) + [SubtitleExtracting, Failed];
  }

  /** A failure after the language choice fails the job with the prefixed
      cause message and still deletes the expected file, as the last
      effect. */
  lemma AfterLanguageFailure(started: World, s: Service, env: Env, jobId: string, videoId: string, langCode: string)
    requires AfterLanguage(started, s, env, jobId, videoId, langCode).result.Failure?
    ensures var r := AfterLanguage(started, s, env, jobId, videoId, langCode);
      var e := r.result.error;
      && e.YoutubeApi? && e.text == ApiFailureMessage
      && jobId in r.world.store
      && r.world.store[jobId] == Job(jobId, Failed, Some(FailurePrefix + ShowNullable(e.cause.Message())))
      && StatusesStored(r.world.trace) == StatusesStored(started.trace) + [Failed]
      && r.world.trace[|r.world.trace| - 1] == FileDeleted(SubtitlePath(s, videoId, langCode))
  {
    var downloading := Downloading(started, s, env, videoId, langCode);
    HandleFailureOutcome(downloading, jobId, Download(s, env, videoId, langCode).error, Some(SubtitlePath(s, videoId, langCode)));
  }

  lemma NoDeletionsCompose(a: seq<Effect>, b: seq<Effect>, c: seq<Effect>)
    requires a <= b <= c
    requires NoDeletionsFrom(b, |a|) && NoDeletionsFrom(c, |b|)
    ensures NoDeletionsFrom(c, |a|)
  {
    forall k | |a| <= k < |c|
      ensures !c[k].FileDeleted?
    {
      if k < |b| {
        assert c[k] == b[k];
      }
    }
  }

  /** Whatever happens, only the job's own record changes, SUBTITLE_EXTRACTING
      is the first thing written (before any subprocess runs), and no AI
      request is made. */
  lemma FetchSubsFrame(w: World, s: Service, env: Env, jobId: string, videoId: string)
    ensures var r := FetchSubs(w, s, env, jobId, videoId);
      && w.trace < r.world.trace
      && r.world.trace[|w.trace|] == Stored(Job(jobId, SubtitleExtracting, Some(ExtractingMessage)))
      && (forall id :: id in w.store && id != jobId ==> id in r.world.store && r.world.store[id] == w.store[id])
      && NoAiRequestsFrom(r.world.trace, |w.trace|)
  {
    var started := Started(w, s, jobId, videoId);
    var r := FetchSubs(w, s, env, jobId, videoId);
    var lr := ChosenLanguage(s, env, videoId);
    if lr.Failure? {
      HandleFailureOutcome(started, jobId, lr.error, None);
    }
    NoAiRequestsCompose(w.trace, started.trace, r.world.trace);
  }

  lemma NoAiRequestsCompose(a: seq<Effect>, b: seq<Effect>, c: seq<Effect>)
    requires a <= b <= c
    requires NoAiRequestsFrom(b, |a|) && NoAiRequestsFrom(c, |b|)
    ensures NoAiRequestsFrom(c, |a|)
  {
    forall k | |a| <= k < |c|
      ensures !c[k].AiRequested?
    {
      if k < |b| {
        assert c[k] == b[k];
      }
    }
  }

  /** A video without automatic captions: after the metadata run nothing
      else is attempted, no file is deleted (its path was never set), and
      the job fails with the "no captions" message. */
  lemma NoCaptionsFailsEarly(w: World, s: Service, env: Env, jobId: string, videoId: string, info: VideoInfo)
    requires env.metadataRun.Exited? && env.metadataRun.exitCode == 0
    requires env.parse(JsonLine(env.metadataRun.output)) == Success(info)
    requires NoCaptions(info.captions)
    ensures var r := FetchSubs(w, s, env, jobId, videoId);
      var extracting := Job(jobId, SubtitleExtracting, Some(ExtractingMessage));
      var failed := Job(jobId, Failed, Some(FailurePrefix + NoCaptionsMessage));
      && r.result == Failure(YoutubeApi(ApiFailureMessage, NoSubtitlesFound(NoCaptionsMessage)))
      && r.world.store[jobId] == failed
      && r.world.trace == w.trace + [Stored(extracting), Published(extracting),
                                     CommandRun(MetadataCommand(s, videoId)), Stored(failed), Published(failed)]
  {
    assert ChosenLanguage(s, env, videoId) == Failure(NoSubtitlesFound(NoCaptionsMessage));
  }
}
