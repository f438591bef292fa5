/** What the yt-dlp executors see of a finished subprocess, and the rule both
    of them use to pick the video's JSON record out of its output. The
    subprocess itself is not modelled: a run is given as the lines it wrote
    (stderr merged into stdout) and its exit code, or as the exception that
    kept it from running to completion. */
module YtDlpProcess {
  import opened Wrappers
  import opened Jobs
  import opened JavaText

  datatype ProcessRun =
    | Exited(output: seq<string>, exitCode: int)
    /** `ProcessBuilder.start` failed, or the wait was interrupted. */
    | NotRun(error: Exception)

  /** A trimmed line that looks like a one-line JSON object. */
  predicate IsJsonLine(t: string) {
    StartsWith(t, "{") && EndsWith(t, "}")
  }

  /** The index of the first output line whose trimmed form is a JSON line;
      reading stops there. */
  function FirstJsonIndex(lines: seq<string>): (r: Option<nat>)
    ensures r.Some? ==> r.value < |lines| && IsJsonLine(Trim(lines[r.value]))
    ensures r.Some? ==> forall k :: 0 <= k < r.value ==> !IsJsonLine(Trim(lines[k]))
    ensures r.None? ==> forall k :: 0 <= k < |lines| ==> !IsJsonLine(Trim(lines[k]))
  {
    if |lines| == 0 then None
    else if IsJsonLine(Trim(lines[0])) then Some(0)
    else match FirstJsonIndex(lines[1..])
      case None => None
      case Some(k) => Some(k + 1)
  }

  /** What JSON mode returns: the first JSON line, trimmed, or `""`. */
  function JsonLine(lines: seq<string>): (r: string)
    ensures r == "" <==> forall k :: 0 <= k < |lines| ==> !IsJsonLine(Trim(lines[k]))
    ensures r != "" ==> IsJsonLine(r)
    ensures r != "" ==>
      exists k :: 0 <= k < |lines| && r == Trim(lines[k]) &&
        forall j :: 0 <= j < k ==> !IsJsonLine(Trim(lines[j]))
  {
    match FirstJsonIndex(lines)
    case None => ""
    case Some(k) => Trim(lines[k])
  }

  /** The loop breaks at the first JSON line, so nothing written after it
      can change the answer. */
  lemma {:induction false} JsonLineIgnoresLaterOutput(a: seq<string>, b: seq<string>)
    requires JsonLine(a) != ""
    ensures JsonLine(a + b) == JsonLine(a)
    decreases |a|
  {
    FirstJsonIndexPrefix(a, b);
  }

  lemma {:induction false} FirstJsonIndexPrefix(a: seq<string>, b: seq<string>)
    requires FirstJsonIndex(a).Some?
    ensures FirstJsonIndex(a + b) == FirstJsonIndex(a)
    decreases |a|
  {
    assert (a + b)[0] == a[0];
    if !IsJsonLine(Trim(a[0])) {
      assert (a + b)[1..] == a[1..] + b;
      FirstJsonIndexPrefix(a[1..], b);
    }
  }

  /** The common tail of `execute`: an exit code other than zero fails with
      an `IOException` carrying `failureMessage`, whatever was printed; a
      clean exit yields the JSON line in JSON mode and `""` otherwise. */
  function Outcome(run: ProcessRun, returnJson: bool, failureMessage: int -> string): (r: Result<string, Exception>)
    ensures r.Success? <==> run.Exited? && run.exitCode == 0
    ensures r.Success? && returnJson ==> r.value == JsonLine(run.output)
    ensures r.Success? && !returnJson ==> r.value == ""
    ensures run.NotRun? ==> r == Failure(run.error)
    ensures run.Exited? && run.exitCode != 0 ==> r == Failure(IOError(failureMessage(run.exitCode)))
  {
    match run
    case NotRun(e) => Failure(e)
    case Exited(lines, code) =>
      if code != 0 then Failure(IOError(failureMessage(code)))
      else Success(if returnJson then JsonLine(lines) else "")
  }

  const ExitMessagePrefix: string := "yt-dlp process exited with code "
}

/** The executor used by the older subtitle service: fixed argument lists,
    and an exit-code message that names the whole command. */
module LegacyYtDlpExecutor {
  import opened Wrappers
  import opened Jobs
  import opened JavaText
  import opened YtDlpProcess

  /** `executeAndGetJson`'s command. */
  function MetadataCommand(ytDlpPath: string, videoId: string): (cmd: seq<string>)
    ensures |cmd| == 4 && cmd[0] == ytDlpPath && cmd[|cmd| - 1] == videoId
  {
    [ytDlpPath, "--dump-json", "--no-warnings", videoId]
  }

  /** `executeAndSaveToFile`'s command. */
  function SaveCommand(ytDlpPath: string, videoId: string, langCode: string, outputTemplate: string): (cmd: seq<string>)
    ensures |cmd| == 12 && cmd[0] == ytDlpPath && cmd[|cmd| - 1] == videoId
    ensures cmd[3] == langCode && cmd[10] == outputTemplate
  {
    [ytDlpPath, "--write-auto-sub", "--sub-lang", langCode, "--sub-format", "vtt",
     "--convert-subs", "vtt", "--skip-download", "-o", outputTemplate, videoId]
  }

  function ExitMessage(command: seq<string>): int -> string {
    code => ExitMessagePrefix + IntToString(code) + " for command: " + Join(command, " ")
  }

  /** `execute(command, returnJson)` applied to how the run went. */
  function Execute(command: seq<string>, run: ProcessRun, returnJson: bool): (r: Result<string, Exception>)
    ensures r.Success? <==> run.Exited? && run.exitCode == 0
    ensures r.Success? ==> r.value == (if returnJson then JsonLine(run.output) else "")
    ensures run.Exited? && run.exitCode != 0 ==>
      r == Failure(IOError(ExitMessagePrefix + IntToString(run.exitCode) + " for command: " + Join(command, " ")))
    ensures run.NotRun? ==> r == Failure(run.error)
  {
    Outcome(run, returnJson, ExitMessage(command))
  }
}

/** The executor used by the current subtitle service: the same argument
    lists with optional proxy arguments placed just before the video id, and
    an exit-code message without the command. */
module YtDlpExecutor {
  import opened Wrappers
  import opened Jobs
  import opened JavaText
  import opened YtDlpProcess
  import LegacyYtDlpExecutor

  /** `app.ytdlp.path`, `proxy.enabled` (default false) and `proxy.url`
      (default empty; `None` is a Java `null`). */
  datatype ExecutorConfig = ExecutorConfig(ytDlpPath: string, proxyEnabled: bool, proxyUrl: Option<string>)

  predicate UsesProxy(cfg: ExecutorConfig) {
    cfg.proxyEnabled && cfg.proxyUrl.Some? && cfg.proxyUrl.value != ""
  }

  /** `addProxyToCommandIfEnabled`: `--proxy <url>` when the proxy is on
      and has a non-empty url, nothing otherwise. */
  function ProxyArgs(cfg: ExecutorConfig): (args: seq<string>)
    ensures UsesProxy(cfg) ==> args == ["--proxy", cfg.proxyUrl.value]
    ensures !UsesProxy(cfg) ==> args == []
  {
    if cfg.proxyEnabled && cfg.proxyUrl.Some? && |cfg.proxyUrl.value| > 0 then
      ["--proxy", cfg.proxyUrl.value]
    else []
  }

  function MetadataCommand(cfg: ExecutorConfig, videoId: string): (cmd: seq<string>)
    ensures |cmd| == (if UsesProxy(cfg) then 6 else 4)
    ensures cmd[0] == cfg.ytDlpPath && cmd[|cmd| - 1] == videoId
    ensures UsesProxy(cfg) ==> cmd[3] == "--proxy" && cmd[4] == cfg.proxyUrl.value
  {
    [cfg.ytDlpPath, "--dump-json", "--no-warnings"] + ProxyArgs(cfg) + [videoId]
  }

  function SaveCommand(cfg: ExecutorConfig, videoId: string, langCode: string, outputTemplate: string): (cmd: seq<string>)
    ensures |cmd| == (if UsesProxy(cfg) then 14 else 12)
    ensures cmd[0] == cfg.ytDlpPath && cmd[|cmd| - 1] == videoId
    ensures cmd[3] == langCode && cmd[10] == outputTemplate
    ensures UsesProxy(cfg) ==> cmd[11] == "--proxy" && cmd[12] == cfg.proxyUrl.value
  {
    [cfg.ytDlpPath, "--write-auto-sub", "--sub-lang", langCode, "--sub-format", "vtt",
     "--convert-subs", "vtt", "--skip-download", "-o", outputTemplate] + ProxyArgs(cfg) + [videoId]
  }

  /** Without a proxy the two executors build identical commands; with one,
      the command is the legacy one with the proxy pair inserted just before
      the video id. */
  lemma CommandsExtendLegacy(cfg: ExecutorConfig, videoId: string, langCode: string, outputTemplate: string)
    ensures var legacy := LegacyYtDlpExecutor.MetadataCommand(cfg.ytDlpPath, videoId);
      MetadataCommand(cfg, videoId) == legacy[..3] + ProxyArgs(cfg) + [videoId]
    ensures var legacy := LegacyYtDlpExecutor.SaveCommand(cfg.ytDlpPath, videoId, langCode, outputTemplate);
      SaveCommand(cfg, videoId, langCode, outputTemplate) == legacy[..11] + ProxyArgs(cfg) + [videoId]
    ensures !UsesProxy(cfg) ==>
      && MetadataCommand(cfg, videoId) == LegacyYtDlpExecutor.MetadataCommand(cfg.ytDlpPath, videoId)
      && SaveCommand(cfg, videoId, langCode, outputTemplate)
           == LegacyYtDlpExecutor.SaveCommand(cfg.ytDlpPath, videoId, langCode, outputTemplate)
  {
  }

  function ExitMessage(code: int): string {
    ExitMessagePrefix + IntToString(code)
  }

  function Execute(command: seq<string>, run: ProcessRun, returnJson: bool): (r: Result<string, Exception>)
    ensures r.Success? <==> run.Exited? && run.exitCode == 0
    ensures r.Success? ==> r.value == (if returnJson then JsonLine(run.output) else "")
    ensures run.Exited? && run.exitCode != 0 ==>
      r == Failure(IOError(ExitMessagePrefix + IntToString(run.exitCode)))
    ensures run.NotRun? ==> r == Failure(run.error)
  {
    Outcome(run, returnJson, ExitMessage)
  }

  /** The two executors agree on every run except in the message of a
      non-zero exit, which only the legacy one extends with the command. */
  lemma ExecutorsAgreeOnOutcome(command: seq<string>, run: ProcessRun, returnJson: bool)
    ensures var current := Execute(command, run, returnJson);
      var legacy := LegacyYtDlpExecutor.Execute(command, run, returnJson);
      && (current.Success? <==> legacy.Success?)
      && (current.Success? ==> current.value == legacy.value)
      && (run.Exited? && run.exitCode != 0 ==>
            legacy.error.text == current.error.text + " for command: " + Join(command, " "))
  {
  }
}
