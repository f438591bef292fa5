/** The job record shared by every component: its identity, its status in
    the pipeline and the text payload that goes with that status, plus the
    exceptions the pipeline raises and catches. */
module Jobs {
  import opened Wrappers

  /** Every status the code writes. The enum declaration in the DTO lists
      only the first two and the last two; the subtitle and AI services also
      write the four stage statuses. */
  datatype JobStatus =
    | Pending
    | Processing
    | SubtitleExtracting
    | SubtitleExtractionCompleted
    | AiSummarizingPartial
    | AiSummarizingFinal
    | Completed
    | Failed

  predicate IsTerminal(s: JobStatus) {
    s == Completed || s == Failed
  }

  /** `JobStatusDto(jobId, status, result)`; a Java `null` result is `None`. */
  datatype Job = Job(jobId: string, status: JobStatus, result: Option<string>)

  /** The abstract job store: job id to the latest record written for it. */
  type Store = map<string, Job>

  /** Every record is filed under its own id. */
  predicate WellKeyed(store: Store) {
    forall id :: id in store ==> store[id].jobId == id
  }

  /** The exceptions that cross the pipeline's components. `Other` stands for
      whatever an uninterpreted collaborator (the AI client, the JSON parser,
      the file reader) may throw; its message may be `null`. */
  datatype Exception =
    | NoSubtitlesFound(text: string)
    | IOError(text: string)
    | IllegalArgument(text: string)
    | InvalidYoutubeUrl(text: string)
    | IndexOutOfBounds(text: string)
    | YoutubeApi(text: string, cause: Exception)
    | Runtime(text: string)
    | Completion(cause: Exception)
    | Other(className: string, detail: Option<string>)
  {
    /** The Java class the variant stands for. JDK classes carry their
        fully qualified name, as `Throwable.toString()` prints it; the
        project's own exceptions carry only their simple name, because the
        older service throws them from `org.example.youtubeaisummary.exception`
        and the current one from `org.example.youtubeaisummary.exception.subtitle`.
        So `Describe` matches Java exactly only for the JDK classes. */
    function ClassName(): string {
      match this
      case Other(c, _) => c
      case NoSubtitlesFound(_) => "NoSubtitlesFoundException"
      case IOError(_) => "java.io.IOException"
      case IllegalArgument(_) => "java.lang.IllegalArgumentException"
      case InvalidYoutubeUrl(_) => "InvalidYoutubeUrlException"
      case IndexOutOfBounds(_) => "java.lang.ArrayIndexOutOfBoundsException"
      case YoutubeApi(_, _) => "YoutubeApiException"
      case Runtime(_) => "java.lang.RuntimeException"
      case Completion(_) => "java.util.concurrent.CompletionException"
    }

    /** `Throwable.toString()`: the class name, then `": "` and the message
        when there is one. */
    function Describe(): string
      decreases this, 1
    {
      match Message()
      case None => ClassName()
      case Some(m) => ClassName() + ": " + m
    }

    /** `Throwable.getMessage()`. */
    function Message(): Option<string>
      decreases this, 0
    {
      match this
      case Other(_, d) => d
      case NoSubtitlesFound(t) => Some(t)
      case IOError(t) => Some(t)
      case IllegalArgument(t) => Some(t)
      case InvalidYoutubeUrl(t) => Some(t)
      case IndexOutOfBounds(t) => Some(t)
      case YoutubeApi(t, _) => Some(t)
      case Runtime(t) => Some(t)
      case Completion(c) => Some(c.Describe())
    }
  }

  /** How Java renders a possibly-null string in a concatenation. */
  function ShowNullable(s: Option<string>): string {
    s.GetOr("null")
  }
}
