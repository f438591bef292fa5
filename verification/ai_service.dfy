/** The summarisation pipeline of `AIService`: choose a strategy, request
    partial summaries for every chunk when the text is long, request one
    final summary, and finish the job. The chat model is a parameter: for
    each prompt template it maps the template's argument to what the model
    call yields — its content (possibly `null`) or the exception it threw.
    Partial requests run concurrently in the source; here they are issued in
    chunk order, which is the order their answers are joined in. */
module AiService {
  import opened Wrappers
  import opened Jobs
  import opened JavaText
  import opened AiStrategy
  import opened SseNotification
  import opened JobManager

  /** What one chat-model call yields. */
  datatype AiAnswer = Answer(content: Option<string>) | CallFailed(error: Exception)

  /** The chat model behind the three prompt templates. */
  datatype AiModel = AiModel(
    partial: string -> AiAnswer,
    fromTranscript: string -> AiAnswer,
    fromSummaries: string -> AiAnswer)

  /** `app.ai.strategy.optimal-chars` and `app.ai.strategy.max-chunks`. */
  datatype Config = Config(optimalChunkCharSize: nat, maxChunks: nat)

  const DefaultConfig: Config := Config(DefaultOptimalChunkChars, DefaultMaxChunks)

  predicate ValidConfig(c: Config) {
    c.optimalChunkCharSize >= 1 && c.maxChunks >= 1
  }

  const PartialMessage: string := "부분 요약들을 생성 중입니다..."
  const FinalMessage: string := "최종 요약본을 생성 중입니다..."
  /** The result text every AI failure is stored with. */
  const FailureMessage: string := "AI 요약 처리 중 오류가 발생했습니다."
  /** The message of the exception raised for a null or blank final summary. */
  const EmptySummaryMessage: string := "AI로부터 유효한 최종 요약 응답을 받지 못했습니다."

  /** The world after a step, and the answer the step's last model call gave. */
  datatype Step = Step(world: World, answer: AiAnswer)

  /** The final-summary request for `content`, by where it came from. */
  function FinalRequest(content: string, isFromTranscript: bool): AiRequest {
    if isFromTranscript then FinalFromTranscript(content) else FinalFromSummaries(content)
  }

  /** `getFinalSummary`: mark the job as summarising its final version, then
      make one model call with the template chosen by `isFromTranscript`. */
  function GetFinalSummary(w: World, model: AiModel, jobId: string, content: string, isFromTranscript: bool): (s: Step)
    ensures jobId in s.world.store && s.world.store[jobId] == Job(jobId, AiSummarizingFinal, Some(FinalMessage))
    ensures forall id :: id in w.store && id != jobId ==> id in s.world.store && s.world.store[id] == w.store[id]
    ensures s.world.trace == w.trace + [
      Stored(Job(jobId, AiSummarizingFinal, Some(FinalMessage))),
      Published(Job(jobId, AiSummarizingFinal, Some(FinalMessage))),
      AiRequested(FinalRequest(content, isFromTranscript))]
    ensures StatusesStored(s.world.trace) == StatusesStored(w.trace) + [AiSummarizingFinal]
    ensures s.world.hub == w.hub
    ensures s.answer == (if isFromTranscript then model.fromTranscript(content) else model.fromSummaries(content))
  {
    var marked := UpdateJobProgress(w, jobId, AiSummarizingFinal, FinalMessage);
    var request := FinalRequest(content, isFromTranscript);
    StatusesStoredAppend(marked.trace, [AiRequested(request)]);
    assert StatusesStored([AiRequested(request)]) == [] by {
      assert [AiRequested(request)][1..] == [];
    }
    var answer := if isFromTranscript then model.fromTranscript(content) else model.fromSummaries(content);
    Step(marked.(trace := marked.trace + [AiRequested(request)]), answer)
  }

  /** One partial-summary request per chunk, in chunk order. */
  function PartialRequests(chunks: seq<string>): (effects: seq<Effect>)
    ensures |effects| == |chunks|
    ensures forall k :: 0 <= k < |chunks| ==> effects[k] == AiRequested(PartialSummary(chunks[k]))
    ensures StatusesStored(effects) == []
  {
    if |chunks| == 0 then []
    else [AiRequested(PartialSummary(chunks[0]))] + PartialRequests(chunks[1..])
  }

  /** The exception the first failed call in `answers` threw, if any call
      failed. This is the failure `CompletableFuture.allOf` reports: it
      relays the leftmost exceptional future of its argument array. */
  function FirstFailure(answers: seq<AiAnswer>): (r: Option<Exception>)
    ensures r.None? <==> forall k :: 0 <= k < |answers| ==> answers[k].Answer?
  {
    if |answers| == 0 then None
    else if answers[0].CallFailed? then Some(answers[0].error)
    else FirstFailure(answers[1..])
  }

  /** The reported failure is the one of the earliest failed call. */
  lemma {:induction false} FirstFailureIsEarliest(answers: seq<AiAnswer>)
    requires FirstFailure(answers).Some?
    ensures exists k :: 0 <= k < |answers| && answers[k] == CallFailed(FirstFailure(answers).value)
                        && forall j :: 0 <= j < k ==> answers[j].Answer?
  {
    if answers[0].Answer? {
      var rest := answers[1..];
      FirstFailureIsEarliest(rest);
      var k :| 0 <= k < |rest| && rest[k] == CallFailed(FirstFailure(rest).value)
               && forall j :: 0 <= j < k ==> rest[j].Answer?;
      assert answers[k + 1] == CallFailed(FirstFailure(answers).value);
      assert forall j :: 0 <= j < k + 1 ==> answers[j].Answer? by {
        forall j | 0 < j < k + 1
          ensures answers[j].Answer?
        {
          assert answers[j] == rest[j - 1];
        }
      }
    } else {
      assert answers[0] == CallFailed(FirstFailure(answers).value);
    }
  }

  /** The partial texts as `Collectors.joining` renders them: a `null`
      content becomes `"null"`. */
  function PartialTexts(answers: seq<AiAnswer>): (texts: seq<string>)
    requires forall k :: 0 <= k < |answers| ==> answers[k].Answer?
    ensures |texts| == |answers|
    ensures forall k :: 0 <= k < |answers| ==> texts[k] == ShowNullable(answers[k].content)
  {
    seq(|answers|, k requires 0 <= k < |answers| => ShowNullable(answers[k].content))
  }

  /** `CompletableFuture.join` wraps the failure in a `CompletionException`
      unless it already is one. */
  function WrapCompletion(e: Exception): (r: Exception)
    ensures r.Completion?
    ensures e.Completion? ==> r == e
    ensures !e.Completion? ==> r.cause == e
  {
    if e.Completion? then e else Completion(e)
  }

  /** The answers the model gives for `chunks`, in chunk order. */
  function PartialAnswers(model: AiModel, chunks: seq<string>): (answers: seq<AiAnswer>)
    ensures |answers| == |chunks|
    ensures forall k :: 0 <= k < |chunks| ==> answers[k] == model.partial(chunks[k])
  {
    seq(|chunks|, k requires 0 <= k < |chunks| => model.partial(chunks[k]))
  }

  /** The map phase's effects: mark the job as summarising partials, then
      request a partial summary of every chunk. */
  function MapPhase(w: World, jobId: string, chunks: seq<string>): (r: World)
    ensures var partial := Job(jobId, AiSummarizingPartial, Some(PartialMessage));
      && r.trace == w.trace + [Stored(partial), Published(partial)] + PartialRequests(chunks)
      && r.store == w.store[jobId := partial]
    ensures StatusesStored(r.trace) == StatusesStored(w.trace) + [AiSummarizingPartial]
    ensures r.hub == w.hub
  {
    var marked := UpdateJobProgress(w, jobId, AiSummarizingPartial, PartialMessage);
    StatusesStoredAppend(marked.trace, PartialRequests(chunks));
    marked.(trace := marked.trace + PartialRequests(chunks))
  }

  /** `executeMapReduce`: split with a tenth of the chunk size as overlap,
      run the map phase and wait for every partial call. If any failed, the
      first failure in chunk order ends the step; otherwise the partial
      texts, joined by a blank line, go to the final-summary request. */
  function ExecuteMapReduce(w: World, model: AiModel, jobId: string, text: string, chunkSize: nat): (s: Step)
    requires chunkSize >= 1
    ensures var chunks := SplitTextByChars(text, chunkSize, Overlap(chunkSize));
      var failure := FirstFailure(PartialAnswers(model, chunks));
      failure.Some? ==> s == Step(MapPhase(w, jobId, chunks), CallFailed(WrapCompletion(failure.value)))
    ensures var chunks := SplitTextByChars(text, chunkSize, Overlap(chunkSize));
      var answers := PartialAnswers(model, chunks);
      FirstFailure(answers).None? ==>
        s == GetFinalSummary(MapPhase(w, jobId, chunks), model, jobId, Join(PartialTexts(answers), "\n\n"), false)
  {
    var chunks := SplitTextByChars(text, chunkSize, Overlap(chunkSize));
    var mapped := MapPhase(w, jobId, chunks);
    var answers := PartialAnswers(model, chunks);
    match FirstFailure(answers)
    case Some(e) => Step(mapped, CallFailed(WrapCompletion(e)))
    case None => GetFinalSummary(mapped, model, jobId, Join(PartialTexts(answers), "\n\n"), false)
  }

  /** `executeStrategy`: a single-shot text goes straight to the final
      summary; both map-reduce strategies run the map-reduce path with the
      strategy's chunk size. */
  function ExecuteStrategy(w: World, model: AiModel, jobId: string, text: string, strategy: Strategy): (s: Step)
    requires strategy.kind != SingleShot ==> strategy.chunkSize >= 1
    ensures strategy.kind == SingleShot ==> s == GetFinalSummary(w, model, jobId, text, true)
    ensures strategy.kind != SingleShot ==> s == ExecuteMapReduce(w, model, jobId, text, strategy.chunkSize)
  {
    match strategy.kind
    case SingleShot => GetFinalSummary(w, model, jobId, text, true)
    case OptimalMapReduce => ExecuteMapReduce(w, model, jobId, text, strategy.chunkSize)
    case FixedMapReduce => ExecuteMapReduce(w, model, jobId, text, strategy.chunkSize)
  }

  /** Whether a final answer counts as a summary: present and not blank. */
  predicate IsValidSummary(a: AiAnswer) {
    a.Answer? && a.content.Some? && !IsBlank(a.content.value)
  }

  /** `summarize`: run the chosen strategy; a valid final summary completes
      the job with it; a failed call, a `null` answer or a blank answer fails
      the job with the fixed failure message, the stream closing with the
      exception caught. */
  function Summarize(w: World, model: AiModel, cfg: Config, jobId: string, text: string): (r: World)
    requires ValidConfig(cfg)
    ensures var s := ExecuteStrategy(w, model, jobId, text, DecideStrategy(|text|, cfg.optimalChunkCharSize, cfg.maxChunks));
      && (IsValidSummary(s.answer) ==> r == CompleteJob(s.world, jobId, s.answer.content.value))
      && (s.answer.CallFailed? ==> r == FailJob(s.world, jobId, FailureMessage, s.answer.error))
      && (s.answer.Answer? && !IsValidSummary(s.answer) ==>
            r == FailJob(s.world, jobId, FailureMessage, Runtime(EmptySummaryMessage)))
    ensures jobId in r.store && IsTerminal(r.store[jobId].status)
    ensures r.store[jobId].status == Completed ==>
      r.store[jobId].result.Some? && !IsBlank(r.store[jobId].result.value)
    ensures r.store[jobId].status == Failed ==> r.store[jobId].result == Some(FailureMessage)
    ensures forall id :: id in w.store && id != jobId ==> id in r.store && r.store[id] == w.store[id]
  {
    var strategy := DecideStrategy(|text|, cfg.optimalChunkCharSize, cfg.maxChunks);
    var s := ExecuteStrategy(w, model, jobId, text, strategy);
    match s.answer
    case CallFailed(e) => FailJob(s.world, jobId, FailureMessage, e)
    case Answer(None) => FailJob(s.world, jobId, FailureMessage, Runtime(EmptySummaryMessage))
    case Answer(Some(summary)) =>
      if IsBlank(summary) then FailJob(s.world, jobId, FailureMessage, Runtime(EmptySummaryMessage))
      else CompleteJob(s.world, jobId, summary)
  }

  /** How `summarize` finishes after the strategy step: one more snapshot,
      COMPLETED exactly when the last answer is a valid summary; a failed
      call closes the stream with that call's exception. */
  lemma SummarizeEnds(w: World, model: AiModel, cfg: Config, jobId: string, text: string)
    requires ValidConfig(cfg)
    ensures var s := ExecuteStrategy(w, model, jobId, text, DecideStrategy(|text|, cfg.optimalChunkCharSize, cfg.maxChunks));
      var r := Summarize(w, model, cfg, jobId, text);
      && jobId in r.store
      && r.trace == s.world.trace + [Stored(r.store[jobId]), Published(r.store[jobId])]
      && StatusesStored(r.trace) == StatusesStored(s.world.trace) + [r.store[jobId].status]
      && (r.store[jobId].status == Completed <==> IsValidSummary(s.answer))
      && (s.answer.CallFailed? ==>
            r.store[jobId] == Job(jobId, Failed, Some(FailureMessage))
            && r.hub == ErrorStream(s.world.hub, jobId, s.answer.error))
  {
  }

  /** A text that fits in one optimal chunk never enters the partial stage:
      the job goes to the final stage, the model is asked once with the whole
      transcript, and the job ends; it completes exactly when that answer is
      a valid summary. */
  lemma SingleShotSkipsPartialStage(w: World, model: AiModel, cfg: Config, jobId: string, text: string)
    requires ValidConfig(cfg) && |text| <= cfg.optimalChunkCharSize
    ensures var r := Summarize(w, model, cfg, jobId, text);
      var final := Job(jobId, AiSummarizingFinal, Some(FinalMessage));
      && jobId in r.store
      && r.trace == w.trace + [Stored(final), Published(final), AiRequested(FinalFromTranscript(text)),
                               Stored(r.store[jobId]), Published(r.store[jobId])]
      && StatusesStored(r.trace) == StatusesStored(w.trace) + [AiSummarizingFinal, r.store[jobId].status]
      && (r.store[jobId].status == Completed <==> IsValidSummary(model.fromTranscript(text)))
  {
  }

  /** A failed partial call fails the job without a final request: the
      statuses written are the partial stage then `FAILED`, every chunk was
      still requested, and the stream closes with the first failure in chunk
      order, wrapped in a `CompletionException`. */
  lemma {:induction false} PartialFailureFailsJob(w: World, model: AiModel, cfg: Config, jobId: string, text: string)
    requires ValidConfig(cfg) && |text| > cfg.optimalChunkCharSize
    requires var strategy := DecideStrategy(|text|, cfg.optimalChunkCharSize, cfg.maxChunks);
      var chunks := SplitTextByChars(text, strategy.chunkSize, Overlap(strategy.chunkSize));
      exists k :: 0 <= k < |chunks| && model.partial(chunks[k]).CallFailed?
    ensures var strategy := DecideStrategy(|text|, cfg.optimalChunkCharSize, cfg.maxChunks);
      var chunks := SplitTextByChars(text, strategy.chunkSize, Overlap(strategy.chunkSize));
      var r := Summarize(w, model, cfg, jobId, text);
      var partial := Job(jobId, AiSummarizingPartial, Some(PartialMessage));
      var failed := Job(jobId, Failed, Some(FailureMessage));
      && jobId in r.store && r.store[jobId] == failed
      && r.trace == w.trace + [Stored(partial), Published(partial)] + PartialRequests(chunks)
                    + [Stored(failed), Published(failed)]
      && StatusesStored(r.trace) == StatusesStored(w.trace) + [AiSummarizingPartial, Failed]
      && FirstFailure(PartialAnswers(model, chunks)).Some?
      && r.hub == ErrorStream(w.hub, jobId, WrapCompletion(FirstFailure(PartialAnswers(model, chunks)).value))
  {
    var strategy := DecideStrategy(|text|, cfg.optimalChunkCharSize, cfg.maxChunks);
    var chunks := SplitTextByChars(text, strategy.chunkSize, Overlap(strategy.chunkSize));
    var answers := PartialAnswers(model, chunks);
    var k :| 0 <= k < |chunks| && model.partial(chunks[k]).CallFailed?;
    assert !answers[k].Answer?;
    var mapped := MapPhase(w, jobId, chunks);
    assert ExecuteStrategy(w, model, jobId, text, strategy)
      == Step(mapped, CallFailed(WrapCompletion(FirstFailure(answers).value)));
    SummarizeEnds(w, model, cfg, jobId, text);
  }

  /** On the map-reduce path with every partial call answering, the final
      request carries the partial texts in chunk order, `null` ones as
      `"null"`, joined by a blank line; the job passes through the partial
      and final stages and completes exactly when the final answer is a
      valid summary. */
  lemma MapReduceJoinsPartialsInOrder(w: World, model: AiModel, cfg: Config, jobId: string, text: string)
    requires ValidConfig(cfg) && |text| > cfg.optimalChunkCharSize
    requires var strategy := DecideStrategy(|text|, cfg.optimalChunkCharSize, cfg.maxChunks);
      var chunks := SplitTextByChars(text, strategy.chunkSize, Overlap(strategy.chunkSize));
      forall k :: 0 <= k < |chunks| ==> model.partial(chunks[k]).Answer?
    ensures var strategy := DecideStrategy(|text|, cfg.optimalChunkCharSize, cfg.maxChunks);
      var chunks := SplitTextByChars(text, strategy.chunkSize, Overlap(strategy.chunkSize));
      var texts := PartialTexts(PartialAnswers(model, chunks));
      var combined := Join(texts, "\n\n");
      var r := Summarize(w, model, cfg, jobId, text);
      var final := Job(jobId, AiSummarizingFinal, Some(FinalMessage));
      && jobId in r.store
      && r.trace == MapPhase(w, jobId, chunks).trace
                    + [Stored(final), Published(final), AiRequested(FinalFromSummaries(combined)),
                       Stored(r.store[jobId]), Published(r.store[jobId])]
      && StatusesStored(r.trace) == StatusesStored(w.trace) + [AiSummarizingPartial, AiSummarizingFinal, r.store[jobId].status]
      && (r.store[jobId].status == Completed <==> IsValidSummary(model.fromSummaries(combined)))
  {
    var strategy := DecideStrategy(|text|, cfg.optimalChunkCharSize, cfg.maxChunks);
    var chunks := SplitTextByChars(text, strategy.chunkSize, Overlap(strategy.chunkSize));
    var answers := PartialAnswers(model, chunks);
    MapReduceReachesFinal(w, model, cfg, jobId, text);
    var combined := Join(PartialTexts(answers), "\n\n");
    var mapped := MapPhase(w, jobId, chunks);
    SummarizeEnds(w, model, cfg, jobId, text);
    var r := Summarize(w, model, cfg, jobId, text);
    var final := Job(jobId, AiSummarizingFinal, Some(FinalMessage));
    var asked := [Stored(final), Published(final), AiRequested(FinalFromSummaries(combined))];
    var ended := [Stored(r.store[jobId]), Published(r.store[jobId])];
    assert r.trace == (mapped.trace + asked) + ended;
    assert (mapped.trace + asked) + ended == mapped.trace + (asked + ended);
    assert StatusesStored(r.trace)
      == (StatusesStored(w.trace) + [AiSummarizingPartial]) + [AiSummarizingFinal] + [r.store[jobId].status];
  }

  /** With every partial call answering, the strategy step ends with the
      final request over the joined partial texts. */
  lemma MapReduceReachesFinal(w: World, model: AiModel, cfg: Config, jobId: string, text: string)
    requires ValidConfig(cfg) && |text| > cfg.optimalChunkCharSize
    requires var strategy := DecideStrategy(|text|, cfg.optimalChunkCharSize, cfg.maxChunks);
      var chunks := SplitTextByChars(text, strategy.chunkSize, Overlap(strategy.chunkSize));
      forall k :: 0 <= k < |chunks| ==> model.partial(chunks[k]).Answer?
    ensures var strategy := DecideStrategy(|text|, cfg.optimalChunkCharSize, cfg.maxChunks);
      var chunks := SplitTextByChars(text, strategy.chunkSize, Overlap(strategy.chunkSize));
      var answers := PartialAnswers(model, chunks);
      && FirstFailure(answers).None?
      && ExecuteStrategy(w, model, jobId, text, strategy)
           == GetFinalSummary(MapPhase(w, jobId, chunks), model, jobId, Join(PartialTexts(answers), "\n\n"), false)
  {
    var strategy := DecideStrategy(|text|, cfg.optimalChunkCharSize, cfg.maxChunks);
    var chunks := SplitTextByChars(text, strategy.chunkSize, Overlap(strategy.chunkSize));
    assert FirstFailure(PartialAnswers(model, chunks)).None?;
  }

  /** `summarize` only appends to the trace, and asks the model at least
      once: a partial request for the first chunk, or the final request. */
  lemma SummarizeAsksModel(w: World, model: AiModel, cfg: Config, jobId: string, text: string)
    requires ValidConfig(cfg)
    ensures var r := Summarize(w, model, cfg, jobId, text);
      && w.trace < r.trace
      && exists k :: |w.trace| <= k < |r.trace| && r.trace[k].AiRequested?
  {
    var strategy := DecideStrategy(|text|, cfg.optimalChunkCharSize, cfg.maxChunks);
    var s := ExecuteStrategy(w, model, jobId, text, strategy);
    var r := Summarize(w, model, cfg, jobId, text);
    SummarizeEnds(w, model, cfg, jobId, text);
    StrategyAsksModel(w, model, jobId, text, strategy);
    var k :| |w.trace| <= k < |s.world.trace| && s.world.trace[k].AiRequested?;
    assert r.trace[k] == s.world.trace[k];
  }

  /** The strategy step extends the trace with at least one model request. */
  lemma StrategyAsksModel(w: World, model: AiModel, jobId: string, text: string, strategy: Strategy)
    requires strategy.kind != SingleShot ==> strategy.chunkSize >= 1
    ensures var s := ExecuteStrategy(w, model, jobId, text, strategy);
      && w.trace < s.world.trace
      && exists k :: |w.trace| <= k < |s.world.trace| && s.world.trace[k].AiRequested?
  {
    var s := ExecuteStrategy(w, model, jobId, text, strategy);
    if strategy.kind == SingleShot {
      assert s.world.trace[|w.trace| + 2].AiRequested?;
    } else {
      var chunks := SplitTextByChars(text, strategy.chunkSize, Overlap(strategy.chunkSize));
      var mapped := MapPhase(w, jobId, chunks);
      var answers := PartialAnswers(model, chunks);
      if FirstFailure(answers).Some? {
        assert |chunks| > 0;
        assert s.world == mapped;
        assert mapped.trace[|w.trace| + 2] == AiRequested(PartialSummary(chunks[0]));
      } else {
        assert s == GetFinalSummary(mapped, model, jobId, Join(PartialTexts(answers), "\n\n"), false);
        assert s.world.trace[|mapped.trace| + 2].AiRequested?;
      }
      assert w.trace <= mapped.trace <= s.world.trace;
    }
  }
}
