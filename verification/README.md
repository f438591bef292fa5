# youtube_ai_summary, modelled in Dafny

This project models the job pipeline of the `youtube_ai_summary` service (Java, package
`org.example.youtubeaisummary`). A client submits a YouTube URL. The controller turns it into
a job keyed by the video id and starts the pipeline. The pipeline has two stages:

- yt-dlp fetches the automatic captions and the text is cleaned.
- A chat model summarises the text, either in one call or by map-reduce over overlapping chunks.

Every status change is written to the job store and published. Subscribers follow a job over
server-sent events. The model proves what the code promises at each step: bounds, round trips,
orderings, error paths, and the invariants each step preserves.

## How the model is built

Every component is a module of pure functions over immutable values:

| file | module(s) | what it models |
|---|---|---|
| `wrappers.dfy` | `Wrappers` | `Option` and `Result` |
| `java_text.dfy` | `JavaText` | `String.trim`, `isBlank`, `split`, `Scanner` tokens, `lastIndexOf`, `String.join` |
| `jobs.dfy` | `Jobs` | the job record, its eight statuses, the exceptions that cross components |
| `job_store.dfy` | `InMemoryJobRepository`, `MySqlJobRepository` | the two repositories |
| `sse_notification.dfy` | `SseNotification` | the SSE hub: the emitter registered per job, the emitters the callbacks still hold, the delivered-signal log |
| `job_manager.dfy` | `JobManager` | job transitions over a `World` (store, hub, effect trace) |
| `executor.dfy` | `YtDlpProcess`, `LegacyYtDlpExecutor`, `YtDlpExecutor` | the yt-dlp command lines and how a run's outcome is read |
| `caption_language.dfy` | `CaptionLanguage` | `findBestSubtitleLanguage` |
| `legacy_cleaner.dfy` | `LegacySubtitleCleaner` | the older service's `cleanSubtitleText` |
| `subtitle_processor.dfy` | `SubtitleProcessor` | `SubtitleProcessor.process` |
| `subtitle_fetch.dfy` | `SubtitleFetch` | `fetchSubs` of both subtitle services |
| `ai_strategy.dfy` | `AiStrategy` | `decideStrategy` and `splitTextByChars` |
| `ai_service.dfy` | `AiService` | `summarize` and the map-reduce path |
| `youtube_video.dfy` | `YoutubeVideo` | the video-id extraction and the URL converter |
| `orchestration.dfy` | `Orchestration` | the provider lookup and `processYoutubeVideo` |
| `controller.dfy` | `JobController` | the three job endpoints |

The outside world appears in three forms:

- **Effect trace.** `World.trace` records, in order:
  - store writes (`Stored`)
  - status publications (`Published`)
  - yt-dlp runs (`CommandRun`)
  - chat-model requests (`AiRequested`)
  - file deletions (`FileDeleted`)

  Properties such as "SUBTITLE_EXTRACTING is written before any subprocess runs" or "a failed
  extraction makes no AI request" are statements about this trace.
- **Uninterpreted inputs.** Each of these is a parameter:
  - the chat model (`AiModel`: three total functions that answer, possibly with `null`, or fail)
  - a yt-dlp run (`ProcessRun`: output lines and exit code, or an exception)
  - the JSON parser
  - the subtitle file
  - a transport failure of an SSE send
- **Concurrency.** Everything is sequentialised. `@Async` stages run one after the other. The
  partial summaries are requested in chunk order, and the first failure in chunk order is the
  one reported, as `CompletableFuture.allOf` reports it.

### Points about the code worth knowing

- **Fan-out can exceed `maxChunks`.** The fixed strategy computes its chunk size so that the
  text would fit `maxChunks` chunks, and its log line (`service/AIService.java:85`) says it
  splits to fit `maxChunks`. But the chunker steps by `chunkSize - chunkSize/10`, not by
  `chunkSize`, so a 100 000-char text with `maxChunks = 4` gives 5 chunks.
  `AiStrategy.FixedStrategyOvershootsMaxChunks` proves 5 for that input.
  `AiStrategy.MapReduceFanOutBound` proves the fan-out is never more than `maxChunks + 1` for
  `maxChunks` up to nine.
- **Only `PROCESSING` is sent as `progress`.** The hub names the event `progress` only for
  `PROCESSING`. The four stage statuses go out as `statusUpdate` (`SseNotification.EventName`).
- **Eight statuses.** The enum inside `dto/JobStatusDto.java` lists four statuses (`PENDING`,
  `PROCESSING`, `COMPLETED`, `FAILED`), but the services store eight. `Jobs.JobStatus` has
  all eight.

### Other points settled from the code

- **One store for everyone.** The hub reads the in-memory repository directly. The job manager
  (`JobManager.java:15`) and the controller (`JobController.java:25`) take a plain
  `JobRepository`. Under the `test` profile the in-memory repository is the only bean of that
  type. Outside it, the MySQL repository (`@Profile("!test")`) is a second candidate. Neither
  injection point has `@Primary` or `@Qualifier`, and the parameter name matches neither bean,
  so nothing in the code chooses between the two. The model gives every component one store
  with the in-memory semantics, as under `test`. `MySqlJobRepository.*AgreesWithInMemory` prove
  the two repositories agree, except for the result a fresh record carries.
- **Package names.** The orchestrator imports `service.ai.AIService` and
  `service.subtitle.SubtitleService`. The summariser shown is `service/AIService.java`, and the
  model uses it.
- **Two providers, one model.** Both subtitle services are registered as `ytDlp`. They share one
  `SubtitleFetch.FetchSubs`, parameterised by `Service`. Their differences are kept:
  - file extension
  - text step (WebVTT cleaning or the SRT processor)
  - the stored preview (full text or the first 200 chars)
  - the executor
- **The older service's `FileManager`.** `service/FileManager.java` is not part of this model.
  The older service is assumed to use a file manager that behaves like
  `service/subtitle/FileManager.java`.
- **The converter's message.** The empty-URL message in the converter lacks its first letter
  ("ouTube URL…"). The model keeps the text as written.

## Model

| member | source | states |
|---|---|---|
| `InMemoryJobRepository.CreateJobIfAbsent` | src/main/java/org/example/youtubeaisummary/repository/InMemoryJobRepository.java:17-20 | reports an insert exactly when the id was absent; then the id holds `(id, PENDING, null)`; otherwise the store is unchanged; no other id changes |
| `InMemoryJobRepository.GetJobStatus` | src/main/java/org/example/youtubeaisummary/repository/InMemoryJobRepository.java:23-25 | a record is returned exactly when one is stored, and it is the stored one |
| `InMemoryJobRepository.UpdateJob` | src/main/java/org/example/youtubeaisummary/repository/InMemoryJobRepository.java:28-30 | stores `(id, status, result)` whatever was there, inserting if absent; every other record is kept |
| `InMemoryJobRepository.CreateAtMostOnce` | src/main/java/org/example/youtubeaisummary/repository/InMemoryJobRepository.java:17-20 | of two creates for one id at most one inserts; the second changes nothing |
| `InMemoryJobRepository.GetAfterUpdate` | src/main/java/org/example/youtubeaisummary/repository/InMemoryJobRepository.java:23-30 | a read after an update returns exactly what was written; reads of other ids are unaffected |
| `MySqlJobRepository.ToDto` | src/main/java/org/example/youtubeaisummary/repository/MySqlJobRepositoryImpl.java:52-54 | entity fields are copied one to one |
| `MySqlJobRepository.CreateJobIfAbsent` | src/main/java/org/example/youtubeaisummary/repository/MySqlJobRepositoryImpl.java:25-38 | true exactly for an absent id without insert conflict; then the row is `(id, PENDING, "작업 처리 대기 중...")`; otherwise no write |
| `MySqlJobRepository.GetJobStatus` | src/main/java/org/example/youtubeaisummary/repository/MySqlJobRepositoryImpl.java:41-43 | present exactly when a row exists, mapped field by field |
| `MySqlJobRepository.UpdateJob` | src/main/java/org/example/youtubeaisummary/repository/MySqlJobRepositoryImpl.java:46-49 | unconditional insert-or-overwrite; other rows kept |
| `MySqlJobRepository.UpdateAgreesWithInMemory` | src/main/java/org/example/youtubeaisummary/repository/MySqlJobRepositoryImpl.java:46-49 | an update leaves the same job records as the in-memory update |
| `MySqlJobRepository.GetAgreesWithInMemory` | src/main/java/org/example/youtubeaisummary/repository/MySqlJobRepositoryImpl.java:41-43 | lookups agree with the in-memory repository |
| `MySqlJobRepository.CreateAgreesWithInMemory` | src/main/java/org/example/youtubeaisummary/repository/MySqlJobRepositoryImpl.java:25-38 | a conflict-free create gives the same answer as the in-memory one and the same records, except that the new record's result is the waiting message rather than `null` |
| `SseNotification.EventName` | src/main/java/org/example/youtubeaisummary/service/SseNotificationService.java:66-73 | `pending`/`progress`/`complete`/`error` exactly for PENDING/PROCESSING/COMPLETED/FAILED, `statusUpdate` exactly for the other four |
| `SseNotification.SendEvent` | src/main/java/org/example/youtubeaisummary/service/SseNotificationService.java:76-94 | no registered emitter: no-op; an open one gets the event under its own number, or on transport failure its key is removed and it is closed with that error; other keys untouched |
| `SseNotification.CompleteStream` | src/main/java/org/example/youtubeaisummary/service/SseNotificationService.java:96-99 | the registered emitter, when open, is completed with one completion signal to it; otherwise nothing; it is never left open |
| `SseNotification.ErrorStream` | src/main/java/org/example/youtubeaisummary/service/SseNotificationService.java:101-104 | the registered emitter, when open, is closed with the given cause and told so; otherwise nothing |
| `SseNotification.OnCompletion` | src/main/java/org/example/youtubeaisummary/service/SseNotificationService.java:31-34 | the completion and error callbacks remove the job's key, whichever emitter it holds, and send nothing |
| `SseNotification.OnTimeout` | src/main/java/org/example/youtubeaisummary/service/SseNotificationService.java:35-39 | the timeout callback removes the job's key, whichever emitter it holds, and completes the emitter it captured when that one is still open; an emitter it unmaps without capturing keeps its state |
| `SseNotification.CapturedState` | src/main/java/org/example/youtubeaisummary/service/SseNotificationService.java:35-39 | the emitter a callback captured is the registered one while the key still holds it, and otherwise the one dropped under its number |
| `SseNotification.CurrentTimeoutCompletes` | src/main/java/org/example/youtubeaisummary/service/SseNotificationService.java:35-39 | the registered emitter's own timeout frees the key and completes that emitter once |
| `SseNotification.StaleTimeoutOrphansCurrent` | src/main/java/org/example/youtubeaisummary/service/SseNotificationService.java:27-39 | after a reconnect, the replaced emitter's timeout removes the key that now holds the new emitter and completes the old one; the new emitter stays open but no later event reaches it |
| `SseNotification.Subscribe` | src/main/java/org/example/youtubeaisummary/service/SseNotificationService.java:27-64 | a fresh emitter, numbered after all earlier ones, takes the job's key; other jobs' keys are untouched and the delivered log only grows |
| `SseNotification.Register` | src/main/java/org/example/youtubeaisummary/service/SseNotificationService.java:28-29 | the new emitter, open and numbered `created`, takes the key; one it replaces is kept with its state |
| `SseNotification.SubscribeKeepsValid` | src/main/java/org/example/youtubeaisummary/service/SseNotificationService.java:27-64 | subscribing keeps every emitter number unique and below the count of emitters made |
| `SseNotification.CallbacksKeepValid` | src/main/java/org/example/youtubeaisummary/service/SseNotificationService.java:31-43 | the removal callbacks keep emitter numbers unique |
| `SseNotification.SubscribeReplay` | src/main/java/org/example/youtubeaisummary/service/SseNotificationService.java:45-62 | the new emitter gets the current snapshot under its mapped name; a completed job's emitter is then completed, a failed one's closed with the stored result or the fallback message, and an unknown job gets a synthetic pending event; a replaced emitter keeps its state and is told nothing |
| `SseNotification.SubscribeTransportFailure` | src/main/java/org/example/youtubeaisummary/service/SseNotificationService.java:86-90 | when the replayed send fails, the key is gone and the new emitter sees only that error, as its final state |
| `JobManager.UpdateJobProgress` | src/main/java/org/example/youtubeaisummary/service/JobManager.java:43-47 | stores `(status, message)`, then publishes that snapshot; other jobs and the hub untouched |
| `JobManager.CompleteJob` | src/main/java/org/example/youtubeaisummary/service/JobManager.java:23-28 | stores `(COMPLETED, result)`, publishes it, then completes the job's stream |
| `JobManager.FailJob` | src/main/java/org/example/youtubeaisummary/service/JobManager.java:33-38 | stores `(FAILED, errorMessage)` with the caller's text, publishes it, then closes the stream with the exception |
| `YtDlpProcess.FirstJsonIndex` | src/main/java/org/example/youtubeaisummary/service/subtitle/YtDlpExecutor.java:77-85 | the first output line whose trimmed form starts with `{` and ends with `}`, none before it |
| `YtDlpProcess.JsonLine` | src/main/java/org/example/youtubeaisummary/service/subtitle/YtDlpExecutor.java:74-93 | `""` exactly when no line is a JSON line; otherwise the first such line, trimmed |
| `YtDlpProcess.JsonLineIgnoresLaterOutput` | src/main/java/org/example/youtubeaisummary/service/subtitle/YtDlpExecutor.java:80-83 | reading stops at the first JSON line: later output cannot change the answer |
| `YtDlpProcess.Outcome` | src/main/java/org/example/youtubeaisummary/service/subtitle/YtDlpExecutor.java:88-93 | success exactly on exit code 0; a non-zero exit is an `IOException` whatever was printed; a run that could not start fails with its exception |
| `LegacyYtDlpExecutor.MetadataCommand` | src/main/java/org/example/youtubeaisummary/service/YtDlpExecutor.java:21-24 | four arguments, the path first and the video id last |
| `LegacyYtDlpExecutor.SaveCommand` | src/main/java/org/example/youtubeaisummary/service/YtDlpExecutor.java:29-41 | twelve arguments: path first, language after `--sub-lang`, template after `-o`, video id last |
| `LegacyYtDlpExecutor.Execute` | src/main/java/org/example/youtubeaisummary/service/YtDlpExecutor.java:43-69 | JSON line or `""` on exit 0; otherwise an `IOException` whose message names the code and the space-joined command |
| `YtDlpExecutor.ProxyArgs` | src/main/java/org/example/youtubeaisummary/service/subtitle/YtDlpExecutor.java:61-67 | `--proxy <url>` exactly when the proxy is enabled and the url is non-null and non-empty |
| `YtDlpExecutor.MetadataCommand` | src/main/java/org/example/youtubeaisummary/service/subtitle/YtDlpExecutor.java:34-40 | path first, video id last, proxy pair just before the id when used |
| `YtDlpExecutor.SaveCommand` | src/main/java/org/example/youtubeaisummary/service/subtitle/YtDlpExecutor.java:45-58 | the fixed list through `-o template`, then the proxy pair when used, then the video id |
| `YtDlpExecutor.CommandsExtendLegacy` | src/main/java/org/example/youtubeaisummary/service/subtitle/YtDlpExecutor.java:34-58 | each command is the older executor's with the proxy pair inserted before the id, and identical to it without a proxy |
| `YtDlpExecutor.Execute` | src/main/java/org/example/youtubeaisummary/service/subtitle/YtDlpExecutor.java:69-94 | JSON line or `""` on exit 0; otherwise an `IOException` naming only the exit code |
| `YtDlpExecutor.ExecutorsAgreeOnOutcome` | src/main/java/org/example/youtubeaisummary/service/subtitle/YtDlpExecutor.java:88-93 | the two executors agree on every run except that the older one's exit message adds the command |
| `CaptionLanguage.FindBestSubtitleLanguage` | src/main/java/org/example/youtubeaisummary/service/YtDlpSubtitleService.java:76-100 | succeeds exactly for a non-empty captions object, with one of its keys; missing or empty captions give the "no automatic captions" error; a non-empty array gives the "no usable language" error |
| `CaptionLanguage.ChoiceIsMostPreferred` | src/main/java/org/example/youtubeaisummary/service/subtitle/YtDlpSubtitleService.java:84-94 | the chosen key is most preferred (ko for a Korean video, then en, then any), and the first key when none is preferred |
| `CaptionLanguage.KoreanOnlyForKoreanVideos` | src/main/java/org/example/youtubeaisummary/service/YtDlpSubtitleService.java:86-93 | with both `ko` and `en` offered, `ko` is taken exactly for a Korean video |
| `LegacySubtitleCleaner.StripTags` | src/main/java/org/example/youtubeaisummary/service/YtDlpSubtitleService.java:113 | the result holds only chars of the line and no `<` followed later by a `>` |
| `LegacySubtitleCleaner.StripTagsKeepsPlainText` | src/main/java/org/example/youtubeaisummary/service/YtDlpSubtitleService.java:113 | a line without tags is left unchanged |
| `LegacySubtitleCleaner.StripTagsIdempotent` | src/main/java/org/example/youtubeaisummary/service/YtDlpSubtitleService.java:113 | stripping twice removes nothing more |
| `LegacySubtitleCleaner.StripTagsPlainPrefix` | src/main/java/org/example/youtubeaisummary/service/YtDlpSubtitleService.java:113 | text before the first `<` comes through unchanged and stripping goes on with the rest |
| `LegacySubtitleCleaner.StripTagsRemovesSpan` | src/main/java/org/example/youtubeaisummary/service/YtDlpSubtitleService.java:113 | a `<` up to the next `>` is removed with both brackets; the text before it is kept and the rest is stripped in turn |
| `LegacySubtitleCleaner.TextOnly` | src/main/java/org/example/youtubeaisummary/service/YtDlpSubtitleService.java:113 | a line's text, tags removed and trimmed, holds no tag |
| `LegacySubtitleCleaner.TextOnlyOfPlainLine` | src/main/java/org/example/youtubeaisummary/service/YtDlpSubtitleService.java:113 | a line without tags yields itself, trimmed |
| `LegacySubtitleCleaner.TextOnlyIgnoresTag` | src/main/java/org/example/youtubeaisummary/service/YtDlpSubtitleService.java:113 | a tag inside a line leaves the line's text as if the tag were not there |
| `LegacySubtitleCleaner.KeptTexts` | src/main/java/org/example/youtubeaisummary/service/YtDlpSubtitleService.java:104-117 | no more texts than lines, each non-empty and tag-free |
| `LegacySubtitleCleaner.KeptTextsSnoc` | src/main/java/org/example/youtubeaisummary/service/YtDlpSubtitleService.java:105-116 | lines are read in order: one more line appends its text exactly when it is not blank, a header, a timing line or metadata and its text is non-empty, and otherwise adds nothing |
| `LegacySubtitleCleaner.KeptTextsMembers` | src/main/java/org/example/youtubeaisummary/service/YtDlpSubtitleService.java:105-116 | a text is kept exactly when a line that is not blank, a header, a timing line or metadata yields it non-empty |
| `LegacySubtitleCleaner.Distinct` | src/main/java/org/example/youtubeaisummary/service/YtDlpSubtitleService.java:103-115 | `LinkedHashSet` insertion: no duplicates, the same elements |
| `LegacySubtitleCleaner.DistinctKeepsFirstOccurrenceOrder` | src/main/java/org/example/youtubeaisummary/service/YtDlpSubtitleService.java:103-118 | values come out in the order of their first occurrence |
| `LegacySubtitleCleaner.CleanedLines` | src/main/java/org/example/youtubeaisummary/service/YtDlpSubtitleService.java:102-117 | the lines `cleanSubtitleText` joins: distinct, non-empty, tag-free, exactly the kept texts |
| `LegacySubtitleCleaner.CleanedLinesInFirstAppearanceOrder` | src/main/java/org/example/youtubeaisummary/service/YtDlpSubtitleService.java:103-118 | the joined lines keep the order in which each first appears among the kept texts |
| `SubtitleProcessor.CloseIndex` | src/main/java/org/example/youtubeaisummary/service/subtitle/SubtitleProcessor.java:34 | the lazy `.*?\]` reaches the first `]` with no `]` or line terminator before it |
| `SubtitleProcessor.StripBrackets` | src/main/java/org/example/youtubeaisummary/service/subtitle/SubtitleProcessor.java:34 | removing annotations never lengthens the text |
| `SubtitleProcessor.StripBracketsRemovesAll` | src/main/java/org/example/youtubeaisummary/service/subtitle/SubtitleProcessor.java:34 | afterwards no `[` is followed by a `]` on the same line |
| `SubtitleProcessor.StripBracketsNoOpen` | src/main/java/org/example/youtubeaisummary/service/subtitle/SubtitleProcessor.java:34 | text without `[` is unchanged |
| `SubtitleProcessor.StripBracketsPlainPrefix` | src/main/java/org/example/youtubeaisummary/service/subtitle/SubtitleProcessor.java:34 | text before the first `[` comes through unchanged and removal goes on with the rest |
| `SubtitleProcessor.StripBracketsRemovesSpan` | src/main/java/org/example/youtubeaisummary/service/subtitle/SubtitleProcessor.java:34 | a `[` up to the first `]` on the same line is removed with both brackets; the text before it is kept and the rest is processed in turn |
| `SubtitleProcessor.StartTimeField` | src/main/java/org/example/youtubeaisummary/service/subtitle/SubtitleProcessor.java:33 | index-out-of-bounds exactly when `split(" --> ")` leaves no field, which happens only for a line made of arrows; otherwise the first field, trimmed |
| `SubtitleProcessor.StartTimeWithoutArrow` | src/main/java/org/example/youtubeaisummary/service/subtitle/SubtitleProcessor.java:33 | a timing line without an arrow is its own start time, trimmed |
| `SubtitleProcessor.StartTimeOfBareArrow` | src/main/java/org/example/youtubeaisummary/service/subtitle/SubtitleProcessor.java:33 | the timing line ` --> ` alone makes `process` throw |
| `SubtitleProcessor.StartTimeBeforeArrow` | src/main/java/org/example/youtubeaisummary/service/subtitle/SubtitleProcessor.java:33 | a timing line with non-empty text before its first ` --> ` has that text, trimmed, as its start time |
| `SubtitleProcessor.TextFromBlock` | src/main/java/org/example/youtubeaisummary/service/subtitle/SubtitleProcessor.java:104-112 | empty for two lines or fewer; otherwise the lines from the third on joined by single spaces and trimmed, so it neither starts nor ends with whitespace |
| `SubtitleProcessor.OverlapLength` | src/main/java/org/example/youtubeaisummary/service/subtitle/SubtitleProcessor.java:95-100 | the longest prefix of the new text, within the bound, that ends the context |
| `SubtitleProcessor.FindNewPhrase` | src/main/java/org/example/youtubeaisummary/service/subtitle/SubtitleProcessor.java:93-102 | the phrase is a suffix of the new text; context plus phrase ends with the new text; no longer overlap exists; an empty context gives the whole text |
| `SubtitleProcessor.FindNewPhraseLoop` | src/main/java/org/example/youtubeaisummary/service/subtitle/SubtitleProcessor.java:93-102 | the source's ascending loop that keeps the last match returns the same phrase |
| `SubtitleProcessor.SplitIndex` | src/main/java/org/example/youtubeaisummary/service/subtitle/SubtitleProcessor.java:55-66 | the cut point lies inside the buffer and within the first 220 chars |
| `SubtitleProcessor.SplitIndexChoice` | src/main/java/org/example/youtubeaisummary/service/subtitle/SubtitleProcessor.java:53-66 | the last `.` in the window if any, else the last space, else 200 |
| `SubtitleProcessor.Cut` | src/main/java/org/example/youtubeaisummary/service/subtitle/SubtitleProcessor.java:49-73 | the pieces cut off plus the rest give back the buffer; each piece is 1 to 220 chars; the rest is at most 200 |
| `SubtitleProcessor.Drain` | src/main/java/org/example/youtubeaisummary/service/subtitle/SubtitleProcessor.java:49-79 | the split loop leaves the rest of the cut in the buffer and only appends sentences |
| `SubtitleProcessor.CutOnce` | src/main/java/org/example/youtubeaisummary/service/subtitle/SubtitleProcessor.java:68-78 | one round of the loop appends the trimmed piece up to the cut point, stamped with the buffer's start time, and keeps what follows; a non-empty rest is stamped with the current block's start time |
| `SubtitleProcessor.DrainSentences` | src/main/java/org/example/youtubeaisummary/service/subtitle/SubtitleProcessor.java:68-73 | the loop emits exactly one sentence per cut piece: the piece, trimmed |
| `SubtitleProcessor.DrainStartTimes` | src/main/java/org/example/youtubeaisummary/service/subtitle/SubtitleProcessor.java:70-78 | once the buffer has a start time every emitted sentence has one, and so does the buffer afterwards |
| `SubtitleProcessor.DrainKeepsInv` | src/main/java/org/example/youtubeaisummary/service/subtitle/SubtitleProcessor.java:49-79 | after the loop the buffer holds at most 200 chars and every sentence is stamped and at most 220 long |
| `SubtitleProcessor.Append` | src/main/java/org/example/youtubeaisummary/service/subtitle/SubtitleProcessor.java:43-46 | a space goes in only between a non-empty buffer and a non-empty phrase |
| `SubtitleProcessor.Grow` | src/main/java/org/example/youtubeaisummary/service/subtitle/SubtitleProcessor.java:37-46 | the last block text becomes the whole block text; the buffer gains only the new phrase, after a space when both are non-empty; an empty buffer that gains a phrase takes the block's start time, a non-empty one keeps its own |
| `SubtitleProcessor.BlockText` | src/main/java/org/example/youtubeaisummary/service/subtitle/SubtitleProcessor.java:34 | a block's text holds no annotation and is trimmed |
| `SubtitleProcessor.BlockTextWithoutBrackets` | src/main/java/org/example/youtubeaisummary/service/subtitle/SubtitleProcessor.java:34 | when no text line holds a `[`, a block's text is its lines from the third on joined by single spaces and trimmed |
| `SubtitleProcessor.ProcessBlock` | src/main/java/org/example/youtubeaisummary/service/subtitle/SubtitleProcessor.java:29-79 | blocks of fewer than two lines or empty text change nothing; a bad timing line throws; otherwise the last block text becomes the block's text |
| `SubtitleProcessor.ProcessBlockKeepsInv` | src/main/java/org/example/youtubeaisummary/service/subtitle/SubtitleProcessor.java:31-79 | one block keeps the buffer and sentence invariant |
| `SubtitleProcessor.ProcessBlocks` | src/main/java/org/example/youtubeaisummary/service/subtitle/SubtitleProcessor.java:28-80 | the block loop only appends sentences; the first exception ends it |
| `SubtitleProcessor.ProcessBlocksKeepsInv` | src/main/java/org/example/youtubeaisummary/service/subtitle/SubtitleProcessor.java:28-80 | the whole loop keeps the invariant |
| `SubtitleProcessor.ProcessSentences` | src/main/java/org/example/youtubeaisummary/service/subtitle/SubtitleProcessor.java:19-85 | fails exactly when a block throws; every sentence has a start time and at most 220 chars |
| `SubtitleProcessor.ProcessSentencesFlush` | src/main/java/org/example/youtubeaisummary/service/subtitle/SubtitleProcessor.java:83-85 | after the block loop a non-empty buffer becomes one last sentence, stamped with the buffer's start time and trimmed; an empty buffer adds nothing |
| `SubtitleProcessor.StampedLines` | src/main/java/org/example/youtubeaisummary/service/subtitle/SubtitleProcessor.java:86-89 | line `k` is sentence `k`'s start time, a colon, and its text |
| `SubtitleProcessor.Process` | src/main/java/org/example/youtubeaisummary/service/subtitle/SubtitleProcessor.java:19-90 | the output is one `startTime:sentence` line per sentence, joined by newlines, with no `null` start time |
| `AiStrategy.CeilDiv` | src/main/java/org/example/youtubeaisummary/service/AIService.java:60 | the least count of `b`-sized steps covering `a` |
| `AiStrategy.DecideStrategy` | src/main/java/org/example/youtubeaisummary/service/AIService.java:55-67 | single shot exactly when the text fits one optimal chunk; optimal map-reduce exactly when `ceil(n/C) <= M`; otherwise fixed chunks of `ceil(n/M)`, larger than `C` |
| `AiStrategy.FixedSizeExceedsOptimal` | src/main/java/org/example/youtubeaisummary/service/AIService.java:63-65 | when more than `M` optimal chunks are needed, `ceil(n/M)` exceeds `C` |
| `AiStrategy.SplitFrom` | src/main/java/org/example/youtubeaisummary/service/AIService.java:116-121 | chunks from an offset are non-empty and at most `chunkSize` long; none once the offset reaches the end |
| `AiStrategy.SplitTextByChars` | src/main/java/org/example/youtubeaisummary/service/AIService.java:113-123 | chunks are non-empty and at most `chunkSize` long; none exactly for empty text |
| `AiStrategy.Overlap` | src/main/java/org/example/youtubeaisummary/service/AIService.java:92 | a tenth of the chunk size always leaves a positive step |
| `AiStrategy.SplitFromCount` | src/main/java/org/example/youtubeaisummary/service/AIService.java:116-121 | from offset `i` the loop cuts `ceil((n - i)/step)` chunks |
| `AiStrategy.SplitFromAt` | src/main/java/org/example/youtubeaisummary/service/AIService.java:116-121 | chunk `k` from offset `i` is `text[i+k*step .. min(i+k*step+chunkSize, n)]` |
| `AiStrategy.SplitClosedForm` | src/main/java/org/example/youtubeaisummary/service/AIService.java:113-123 | there are `ceil(n/step)` chunks and chunk `k` is `text[k*step .. min(k*step+chunkSize, n)]` |
| `AiStrategy.SplitEnds` | src/main/java/org/example/youtubeaisummary/service/AIService.java:116-121 | the first chunk starts at 0 and the last runs to the end |
| `AiStrategy.SplitCovers` | src/main/java/org/example/youtubeaisummary/service/AIService.java:116-121 | every position lies inside chunk `j / step` |
| `AiStrategy.SplitReassembles` | src/main/java/org/example/youtubeaisummary/service/AIService.java:113-123 | the first chunk plus every later chunk minus its overlap gives back the text exactly |
| `AiStrategy.FixedStrategyOvershootsMaxChunks` | src/main/java/org/example/youtubeaisummary/service/AIService.java:63-65 | 100 000 chars with the defaults take fixed 25 000-char chunks and are cut into 5 chunks, one more than `maxChunks` |
| `AiStrategy.OptimalStrategyThreeChunks` | src/main/java/org/example/youtubeaisummary/service/AIService.java:60-62 | 30 000 chars with the defaults take 12 000-char chunks, 3 of them |
| `AiStrategy.MapReduceFanOutBound` | src/main/java/org/example/youtubeaisummary/service/AIService.java:91-93 | for `maxChunks` up to nine the map-reduce path sends at most `maxChunks + 1` chunks |
| `AiService.GetFinalSummary` | src/main/java/org/example/youtubeaisummary/service/AIService.java:107-111 | stores and publishes AI_SUMMARIZING_FINAL, then asks once with the template `isFromTranscript` picks; the answer is that call's |
| `AiService.PartialRequests` | src/main/java/org/example/youtubeaisummary/service/AIService.java:98 | one partial request per chunk, in chunk order, writing no status |
| `AiService.FirstFailure` | src/main/java/org/example/youtubeaisummary/service/AIService.java:100 | no failure is reported exactly when every partial call answered |
| `AiService.FirstFailureIsEarliest` | src/main/java/org/example/youtubeaisummary/service/AIService.java:100 | the failure reported is that of the earliest failed call |
| `AiService.PartialTexts` | src/main/java/org/example/youtubeaisummary/service/AIService.java:102 | one text per answer, `null` rendered as `"null"` |
| `AiService.WrapCompletion` | src/main/java/org/example/youtubeaisummary/service/AIService.java:100 | `join` rethrows as a `CompletionException` around the cause, not re-wrapping one |
| `AiService.PartialAnswers` | src/main/java/org/example/youtubeaisummary/service/AIService.java:98 | chunk `k`'s answer is the model's partial summary of chunk `k` |
| `AiService.MapPhase` | src/main/java/org/example/youtubeaisummary/service/AIService.java:96-98 | AI_SUMMARIZING_PARTIAL is stored and published before every chunk is requested |
| `AiService.ExecuteMapReduce` | src/main/java/org/example/youtubeaisummary/service/AIService.java:91-105 | a failed partial call ends the step with the first failure wrapped; otherwise the partial texts joined by a blank line go to the final request from summaries |
| `AiService.ExecuteStrategy` | src/main/java/org/example/youtubeaisummary/service/AIService.java:72-89 | single shot goes straight to the final request from the transcript; both map-reduce kinds run map-reduce with the strategy's chunk size |
| `AiService.Summarize` | src/main/java/org/example/youtubeaisummary/service/AIService.java:36-50 | the job ends COMPLETED with a non-blank summary or FAILED with the fixed message; no other job changes |
| `AiService.SummarizeEnds` | src/main/java/org/example/youtubeaisummary/service/AIService.java:39-49 | after the strategy step one more snapshot is written; the job completes exactly when the last answer is present and non-blank, and a failed call closes the stream with its exception |
| `AiService.SingleShotSkipsPartialStage` | src/main/java/org/example/youtubeaisummary/service/AIService.java:75-79 | a short text writes only the final stage then the end status, asks once with the transcript, and completes exactly for a valid answer |
| `AiService.PartialFailureFailsJob` | src/main/java/org/example/youtubeaisummary/service/AIService.java:96-100 | a failed partial call fails the job after all chunks were requested, with no final request, closing the stream with the first failure |
| `AiService.MapReduceJoinsPartialsInOrder` | src/main/java/org/example/youtubeaisummary/service/AIService.java:96-109 | the final request carries the partial texts in chunk order joined by a blank line; the statuses are partial, final, then the end status |
| `AiService.SummarizeAsksModel` | src/main/java/org/example/youtubeaisummary/service/AIService.java:36-50 | summarising only appends to the trace and always asks the model at least once |
| `AiService.MapReduceReachesFinal` | src/main/java/org/example/youtubeaisummary/service/AIService.java:96-104 | when every partial call answers, no failure is reported and the step ends with the final request over the joined partial texts |
| `AiService.StrategyAsksModel` | src/main/java/org/example/youtubeaisummary/service/AIService.java:72-111 | every strategy extends the trace with at least one model request |
| `SubtitleFetch.ReadFileContent` | src/main/java/org/example/youtubeaisummary/service/subtitle/FileManager.java:28-33 | the text exactly when the file exists and is non-empty; missing or empty is "no subtitles" |
| `SubtitleFetch.StoredText` | src/main/java/org/example/youtubeaisummary/service/subtitle/YtDlpSubtitleService.java:63 | a prefix of the text: all of it for the older service, the first `min(len, 200)` chars for the current one |
| `SubtitleFetch.TextOfByService` | src/main/java/org/example/youtubeaisummary/service/YtDlpSubtitleService.java:60-61 | the older service's text step never throws and yields the distinct cleaned lines joined by single spaces; the current one fails exactly when the processor's block loop throws |
| `SubtitleFetch.ChosenLanguageOutcome` | src/main/java/org/example/youtubeaisummary/service/subtitle/YtDlpSubtitleService.java:43-48 | a failed metadata run or JSON parse is the exception raised; a chosen language is one of the caption keys the metadata lists |
| `SubtitleFetch.DownloadOutcome` | src/main/java/org/example/youtubeaisummary/service/subtitle/YtDlpSubtitleService.java:51-60 | a directory that cannot be created ends the step with that exception; a missing or empty subtitle file fails it; a success is the text step applied to the file's contents |
| `SubtitleFetch.Cleanup` | src/main/java/org/example/youtubeaisummary/service/subtitle/FileManager.java:38-46 | a null path is skipped; otherwise the file is deleted |
| `SubtitleFetch.HandleFailure` | src/main/java/org/example/youtubeaisummary/service/YtDlpSubtitleService.java:68-73 | fails the job with the prefixed cause message, then cleans up; the future fails with a `YoutubeApiException` around the cause |
| `SubtitleFetch.FetchSubsResult` | src/main/java/org/example/youtubeaisummary/service/subtitle/YtDlpSubtitleService.java:39-68 | the future holds the downloaded text exactly when the language was chosen and the download step got through; otherwise a `YoutubeApiException` with the fixed message |
| `SubtitleFetch.FetchSubsUnfold` | src/main/java/org/example/youtubeaisummary/service/subtitle/YtDlpSubtitleService.java:43-52 | a failed language choice goes straight to the failure handler with no file path; otherwise the remaining steps run with the chosen language |
| `SubtitleFetch.Started` | src/main/java/org/example/youtubeaisummary/service/YtDlpSubtitleService.java:44-45 | SUBTITLE_EXTRACTING is written first and the metadata command runs after it |
| `SubtitleFetch.Downloading` | src/main/java/org/example/youtubeaisummary/service/YtDlpSubtitleService.java:54-57 | the directory check and download touch neither the store nor the hub |
| `SubtitleFetch.AfterLanguage` | src/main/java/org/example/youtubeaisummary/service/YtDlpSubtitleService.java:52-73 | the steps after the language choice change only this job and make no AI request |
| `SubtitleFetch.AfterLanguageResult` | src/main/java/org/example/youtubeaisummary/service/subtitle/YtDlpSubtitleService.java:51-68 | after the language choice the future is the download step's text, or a `YoutubeApiException` with the fixed message |
| `SubtitleFetch.Completed` | src/main/java/org/example/youtubeaisummary/service/subtitle/YtDlpSubtitleService.java:63-70 | SUBTITLE_EXTRACTION_COMPLETED is stored with the stored text, no other job changes, no AI request is made, and the file is deleted last |
| `SubtitleFetch.AfterLanguageSuccess` | src/main/java/org/example/youtubeaisummary/service/subtitle/YtDlpSubtitleService.java:51-70 | a success read a non-empty file whose text step gave the returned text; the job holds SUBTITLE_EXTRACTION_COMPLETED with the stored text and the file is deleted last |
| `SubtitleFetch.HandleFailureOutcome` | src/main/java/org/example/youtubeaisummary/service/YtDlpSubtitleService.java:68-73 | the failure path writes FAILED with the prefixed message and deletes the file last when its path is known |
| `SubtitleFetch.SuccessOutcome` | src/main/java/org/example/youtubeaisummary/service/YtDlpSubtitleService.java:44-66 | on success the statuses are SUBTITLE_EXTRACTING then SUBTITLE_EXTRACTION_COMPLETED with the stored text; the future yields the text step's output; the file is deleted last |
| `SubtitleFetch.FailureOutcome` | src/main/java/org/example/youtubeaisummary/service/YtDlpSubtitleService.java:68-73 | any failure writes SUBTITLE_EXTRACTING then FAILED with the prefixed cause message; the file is deleted exactly when its path was known |
| `SubtitleFetch.AfterLanguageFailure` | src/main/java/org/example/youtubeaisummary/service/YtDlpSubtitleService.java:53-73 | a failure after the language choice still deletes the expected file, as the last effect |
| `SubtitleFetch.FetchSubsFrame` | src/main/java/org/example/youtubeaisummary/service/subtitle/YtDlpSubtitleService.java:39-72 | SUBTITLE_EXTRACTING is the first effect, only this job's record changes, and no AI request is made |
| `SubtitleFetch.NoCaptionsFailsEarly` | src/main/java/org/example/youtubeaisummary/service/subtitle/YtDlpSubtitleService.java:77-79 | no captions: after the metadata run the job fails with the no-captions message, nothing is downloaded or deleted, and the future's cause is `NoSubtitlesFoundException` inside `YoutubeApiException` |
| `YoutubeVideo.IdStartAt` | src/main/java/org/example/youtubeaisummary/vo/YoutubeVideo.java:7-8 | a match at a position is followed by eleven id chars |
| `YoutubeVideo.FindFrom` | src/main/java/org/example/youtubeaisummary/vo/YoutubeVideo.java:12-13 | `find` returns the leftmost matching position, and none exactly when nothing matches |
| `YoutubeVideo.NewYoutubeVideo` | src/main/java/org/example/youtubeaisummary/vo/YoutubeVideo.java:11-17 | succeeds exactly when some position matches; the id is eleven `[A-Za-z0-9_-]` chars from the leftmost match; otherwise `IllegalArgumentException` with the URL |
| `YoutubeVideo.MarkerAtStart` | src/main/java/org/example/youtubeaisummary/vo/YoutubeVideo.java:8 | the match is unanchored: whatever follows the eleven chars, a twelfth id char included, is ignored |
| `YoutubeVideo.WatchUrl` | src/main/java/org/example/youtubeaisummary/vo/YoutubeVideo.java:7-16 | a standard watch URL yields the id after `v=` |
| `YoutubeVideo.ShortIdRejected` | src/main/java/org/example/youtubeaisummary/vo/YoutubeVideo.java:13-15 | a short link with fewer than eleven id chars is rejected |
| `YoutubeVideo.Convert` | src/main/java/org/example/youtubeaisummary/converter/StringToYoutubeVideoConverter.java:12-17 | null or empty is an `InvalidYoutubeUrlException`; anything else is the constructor's result |
| `YoutubeVideo.ConvertErrors` | src/main/java/org/example/youtubeaisummary/converter/StringToYoutubeVideoConverter.java:13-16 | the invalid-URL error comes exactly from a null or empty source; a non-empty URL without an id surfaces `IllegalArgumentException` |
| `Orchestration.NewOrchestrator` | src/main/java/org/example/youtubeaisummary/service/OrchestrationService.java:25-37 | construction succeeds exactly for a registered provider and uses its service; otherwise `IllegalArgumentException` naming the key |
| `Orchestration.ProcessYoutubeVideo` | src/main/java/org/example/youtubeaisummary/service/OrchestrationService.java:39-53 | summarisation runs exactly when extraction succeeds, on the extracted text; a failed extraction is swallowed with no further write |
| `Orchestration.PipelineEndsTerminal` | src/main/java/org/example/youtubeaisummary/service/OrchestrationService.java:42-52 | the job ends COMPLETED or FAILED and no other job changes; a failed extraction leaves the subtitle error and no AI request; COMPLETED implies a non-blank summary |
| `Orchestration.NoCaptionsEndsFailed` | src/main/java/org/example/youtubeaisummary/service/OrchestrationService.java:44-52 | a video without captions ends FAILED after SUBTITLE_EXTRACTING, with no AI request |
| `JobController.RequestSubtitleProcessing` | src/main/java/org/example/youtubeaisummary/controller/JobController.java:31-60 | the pipeline starts exactly for a new or FAILED job; 200 with the record exactly for a COMPLETED one, 202 with the id otherwise; only a new id changes the store |
| `JobController.Submit` | src/main/java/org/example/youtubeaisummary/controller/JobController.java:36-58 | the answer is the one the request decides; when no pipeline starts, nothing but that decision's store write changes |
| `JobController.ResubmitCompletedIsNoOp` | src/main/java/org/example/youtubeaisummary/controller/JobController.java:45-48 | resubmitting a completed job answers its record and changes nothing |
| `JobController.SubmitOutcome` | src/main/java/org/example/youtubeaisummary/controller/JobController.java:36-58 | a started run ends the job COMPLETED or FAILED with 202; a job still running is answered 202 and untouched |
| `JobController.RetryKeepsFailedRecordUntilPipelineWrites` | src/main/java/org/example/youtubeaisummary/controller/JobController.java:49-52 | a retry leaves the failed record in place; the first write is SUBTITLE_EXTRACTING |
| `JobController.StreamJobUpdates` | src/main/java/org/example/youtubeaisummary/controller/JobController.java:62-70 | an unknown id gets a dead stream with "Invalid Job ID: " and no subscription; a known id is subscribed and handed the new emitter |
| `JobController.GetJobStatus` | src/main/java/org/example/youtubeaisummary/controller/JobController.java:72-77 | 200 with the record exactly when there is one, otherwise 404 |

## Left out

- Subprocess execution: `ProcessBuilder`, reading the output stream and `waitFor` are replaced by a given `ProcessRun`, the output lines and exit code or the exception that stopped the run.
- JSON parsing: `ObjectMapper.readTree` is an input function returning the two fields `findBestSubtitleLanguage` reads, or an exception.
- File-system I/O: `Files.notExists`, `createDirectories`, `readString` and `deleteIfExists` are inputs or trace effects. A failed delete is only logged in the code, so it is not modelled. Paths are joined with `/`.
- Chat model and retry: `OpenAiClient` and its `@Retryable` backoff, both `AIChunkProcessor`s and the `PromptManager` templates are left out. The model is three uninterpreted total functions, one per prompt template.
- Concurrency: the executor pools, `@Async`, `CompletableFuture` scheduling, `putIfAbsent` atomicity and the concurrent MySQL insert are left out. The insert conflict is a boolean input to `MySqlJobRepository.CreateJobIfAbsent`.
- SSE transport: event ids, reconnect time, real timeout timing and the HTTP response are left out. The callbacks are separate operations: when the container runs them (the timeout after five idle minutes, the completion callback after `complete()`) is up to the caller. A send to an emitter that is completed but not yet removed delivers nothing; Spring would throw `IllegalStateException` there, and the code does not catch it.
- `notifyJobStatus`: it is called by `JobManager` but missing from the hub class, so it is the abstract `Published` effect.
- Floating point: `(int)(chunkSize * 0.1)` is `chunkSize / 10`, and `Math.ceil((double) a / b)` is integer ceiling division. These agree for the sizes in question. `optimalChunkCharSize >= 1` and `maxChunks >= 1` are required, as the defaults satisfy.
- 32-bit `int`: lengths and offsets are unbounded integers. Overflow of `i + chunkSize` near `Integer.MAX_VALUE` is not modelled.
- Strings: strings are sequences of chars. Surrogate pairs, encodings and Unicode normalisation are left out.
- Logging, `SubtitleController`, both `AbstractSubtitleService` delegations (folded into the `JobManager` calls), `AppConfig`, `AsyncConfig` and `WebConfig` are left out. So are the exception classes beyond their class name and message, and the Spring conversion layer that turns a converter exception into an HTTP error.
- `LegacySubtitleCleaner.CleanSubtitleText` has no contract of its own. Its meaning is stated by `LegacySubtitleCleaner.CleanedLines`, the lines it joins with single spaces.
- `LegacySubtitleCleaner.StripTags`: its own contract states only that the result is made of the line's chars and holds no tag. Which text survives is stated by `LegacySubtitleCleaner.StripTagsPlainPrefix`, `LegacySubtitleCleaner.StripTagsRemovesSpan` and `LegacySubtitleCleaner.StripTagsKeepsPlainText`.
- `LegacySubtitleCleaner.TextOnly`: its own contract states only that the text is tag-free. Its value is stated by `LegacySubtitleCleaner.TextOnlyOfPlainLine` and `LegacySubtitleCleaner.TextOnlyIgnoresTag`; as an ensures of the function the first of these makes the proofs over `KeptTexts` too costly for the solver.
- `LegacySubtitleCleaner.KeptTexts`: its own contract states only the bound and that each text is non-empty and tag-free. Its contents and order are stated by `LegacySubtitleCleaner.KeptTextsSnoc` and `LegacySubtitleCleaner.KeptTextsMembers`.
- `LegacySubtitleCleaner.CleanedLines`: its own contract states membership and no duplicates. The first-appearance order is stated by `LegacySubtitleCleaner.CleanedLinesInFirstAppearanceOrder`.
- `SubtitleProcessor.StripBrackets`: its own contract bounds only the length. Which text survives is stated by `SubtitleProcessor.StripBracketsPlainPrefix`, `SubtitleProcessor.StripBracketsRemovesSpan`, `SubtitleProcessor.StripBracketsNoOpen` and `SubtitleProcessor.StripBracketsRemovesAll`.
- `SubtitleProcessor.BlockText`: its own contract states only that the text has no annotation left and is trimmed. For text lines without `[` its value is stated by `SubtitleProcessor.BlockTextWithoutBrackets`; with annotations, by the `StripBrackets` lemmas above.
- `SubtitleFetch.TextOf`, `SubtitleFetch.ChosenLanguage`, `SubtitleFetch.Download` and `SubtitleFetch.FetchSubs` carry no ensures of their own: stated on the functions, these facts enter every proof that unfolds them and push the outcome proofs past the solver's budget. They are stated by `SubtitleFetch.TextOfByService`, `SubtitleFetch.ChosenLanguageOutcome`, `SubtitleFetch.DownloadOutcome` and `SubtitleFetch.FetchSubsResult`.
- `SseNotification.Subscribe`: its own contract states only the frame. Its per-state behaviour is in `SseNotification.SubscribeReplay` and `SseNotification.SubscribeTransportFailure`.
