/**
 * The download worker's behaviour as functions of its state
 * (`DownloadWorker.stop`, `_hook`, the temporary log handler and `run` in
 * downloader.py). The external engine is an oracle: an attempt is a sequence
 * of progress-hook calls, engine log records and stop requests from the
 * window, then a normal return or a raised error. Signals are an event log.
 */
module WorkerModel {
  import opened Wrappers
  import opened Text
  import opened DownloadOptions

  /** Python's `logging.INFO` and `logging.ERROR`; the worker's logger runs at INFO. */
  const InfoLevel: int := 20
  const ErrorLevel: int := 40

  const CancelledMessage := "Cancelled by user"
  const NoMediaMessage := "No media downloaded. " + "Possibly unavailable " + "formats or all " + "entries skipped."

  /** The worker's signals: progress, file_done, skipped and finished. */
  datatype Event =
    | Progress(percent: int, speed: string, eta: string, title: string)
    | FileDone(filename: string)
    | Skipped(message: string)
    | Finished(success: bool, message: string)

  datatype LogRecord = LogRecord(level: int, message: string)

  /** A handler on the worker's logger: a log file, or this worker's skip forwarder. */
  datatype Handler = FileHandler(path: string) | SkipHandler

  /**
   * One progress-hook dictionary: its status, the title in its info dict,
   * its filename, the percentage (already parsed) and the speed and ETA labels.
   */
  datatype HookInfo = HookInfo(
    status: Option<string>,
    infoTitle: Option<string>,
    filename: Option<string>,
    percent: int,
    speed: Option<string>,
    eta: Option<string>)

  /** What happens while the engine runs: a hook call, a log record, or a stop request. */
  datatype EngineStep = HookCall(info: HookInfo) | EngineLog(level: int, message: string) | StopPressed

  datatype EngineEnd = Returned | Raised(message: string)

  /** The engine's behaviour during one `ydl.download([url])` call. */
  datatype EngineRun = EngineRun(steps: seq<EngineStep>, end: EngineEnd)

  /**
   * The worker's mutable state: `_stop`, `_saw_download`, whether
   * `_temp_handler` is set, the logger's handlers, the signals emitted,
   * the records logged, and the options of every engine attempt.
   */
  datatype WorkerState = WorkerState(
    stop: bool,
    sawDownload: bool,
    tempHandler: bool,
    handlers: seq<Handler>,
    events: seq<Event>,
    log: seq<LogRecord>,
    attempts: seq<YdlOpts>)

  /** The skip forwarder is on the logger exactly once while `_temp_handler` is set, else not at all. */
  predicate HandlersConsistent(s: WorkerState) {
    multiset(s.handlers)[SkipHandler] == if s.tempHandler then 1 else 0
  }

  predicate NoFinished(evs: seq<Event>) {
    forall i :: 0 <= i < |evs| ==> !evs[i].Finished?
  }

  /** `b` is `a` followed by signals none of which is `finished`. */
  predicate Grows(a: seq<Event>, b: seq<Event>) {
    |a| <= |b| && b[..|a|] == a && NoFinished(b[|a|..])
  }

  lemma GrowsTrans(a: seq<Event>, b: seq<Event>, c: seq<Event>)
    requires Grows(a, b) && Grows(b, c)
    ensures Grows(a, c)
  {
    assert c[|a|..] == b[|a|..] + c[|b|..];
  }

  /** The log is append-only: `b` starts with `a`. */
  predicate Appended(a: seq<LogRecord>, b: seq<LogRecord>) {
    |a| <= |b| && b[..|a|] == a
  }

  lemma AppendedTrans(a: seq<LogRecord>, b: seq<LogRecord>, c: seq<LogRecord>)
    requires Appended(a, b) && Appended(b, c)
    ensures Appended(a, c)
  {
    assert c[..|a|] == c[..|b|][..|a|];
  }

  /** The phrases the temporary handler looks for in an error record. */
  predicate SkipPhrase(msg: string) {
    || Contains(msg, "[youtube]") || Contains(msg, "This video") || Contains(msg, "Private")
    || Contains(msg, "No video formats") || Contains(msg, "Members only")
    || Contains(msg, "HTTP Error 403") || Contains(msg, "Sign in")
  }

  /** One file handler per log file, in order; none of them is the forwarder. */
  function FileHandlers(files: seq<string>): (r: seq<Handler>)
    ensures |r| == |files| && forall i :: 0 <= i < |files| ==> r[i] == FileHandler(files[i])
    ensures SkipHandler !in r
  {
    seq(|files|, i requires 0 <= i < |files| => FileHandler(files[i]))
  }

  /**
   * `_ensure_logging`: the logger gets a file handler for the log path
   * unless one is already there.
   */
  function EnsureLogging(hs: seq<Handler>, logPath: string): (r: seq<Handler>)
    ensures FileHandler(logPath) in r
    ensures FileHandler(logPath) in hs ==> r == hs
    ensures FileHandler(logPath) !in hs ==> r == hs + [FileHandler(logPath)]
  {
    if FileHandler(logPath) in hs then hs else hs + [FileHandler(logPath)]
  }

  /** The temporary handler forwards a record as a skip reason. */
  predicate ForwardsAsSkipped(level: int, msg: string) {
    level >= ErrorLevel && SkipPhrase(msg)
  }

  /** The phrases that make `run` retry with the fallback client. */
  predicate AccessRestricted(msg: string) {
    Contains(msg, "403") || Contains(msg, "Forbidden") || Contains(msg, "Sign in") || Contains(msg, "confirm your age")
  }

  /** The fixed "no media" message matches none of the retry phrases. */
  lemma NoMediaIsNotRestricted()
    ensures !AccessRestricted(NoMediaMessage)
  {
    NoMediaLacks("403", '3');
    NoMediaLacks("Forbidden", 'F');
    NoMediaLacks("Sign in", 'S');
    NoMediaLacks("confirm your age", 'g');
  }

  /** The "no media" text lacks `c`, so it contains no phrase with `c` in it. */
  lemma NoMediaLacks(sub: string, c: char)
    requires c in sub && (c == '3' || c == 'F' || c == 'S' || c == 'g')
    ensures !Contains(NoMediaMessage, sub)
  {
    assert c !in "No media downloaded. " && c !in "Possibly unavailable ";
    assert c !in "formats or all " && c !in "entries skipped.";
    MissingCharNotContained(NoMediaMessage, sub, c);
  }

  /**
   * A record sent to the worker's logger. Below INFO it is dropped; otherwise
   * it is logged and, when the skip forwarder is attached and the record is an
   * error naming one of the skip phrases, also emitted as `skipped`.
   */
  function Log(s: WorkerState, level: int, msg: string): (r: WorkerState)
    ensures r.(events := s.events, log := s.log) == s
    ensures r.stop == s.stop && r.sawDownload == s.sawDownload && r.attempts == s.attempts
    ensures r.handlers == s.handlers && r.tempHandler == s.tempHandler
    ensures r.log == if level < InfoLevel then s.log else s.log + [LogRecord(level, msg)]
    ensures Appended(s.log, r.log)
    ensures r.events == s.events || r.events == s.events + [Skipped(msg)]
    ensures Grows(s.events, r.events)
    ensures r.events == s.events + [Skipped(msg)] <==> SkipHandler in s.handlers && ForwardsAsSkipped(level, msg)
  {
    if level < InfoLevel then s
    else
      var forwarded := SkipHandler in s.handlers && ForwardsAsSkipped(level, msg);
      s.(log := s.log + [LogRecord(level, msg)],
         events := if forwarded then s.events + [Skipped(msg)] else s.events)
  }

  /** `stop()`: sets the flag and logs the request. */
  function Stop(s: WorkerState): (r: WorkerState)
    ensures r.stop && r.sawDownload == s.sawDownload && r.events == s.events && r.attempts == s.attempts
    ensures r.handlers == s.handlers && r.tempHandler == s.tempHandler
    ensures Appended(s.log, r.log)
  {
    Log(s.(stop := true), InfoLevel, "stop requested by user")
  }

  /** The title `_hook` reports: the info dict's title, else the filename, else "". */
  function HookTitle(d: HookInfo): string {
    if Truthy(d.infoTitle) then d.infoTitle.value else if Truthy(d.filename) then d.filename.value else ""
  }

  /** The line logged for a "downloading" hook; a whole percentage prints with one `.0` decimal. */
  function DownloadingLine(title: string, percent: int, speed: string, eta: string): string {
    "downloading: " + title + " " + IntToString(percent) + ".0% " + speed + " ETA " + eta
  }

  /**
   * `_hook(d)`. The boolean is true when the hook raises the cancellation
   * interrupt, which it does, changing nothing, exactly when a stop was
   * requested before the call.
   */
  function Hook(s: WorkerState, d: HookInfo): (r: (WorkerState, bool))
    ensures r.1 <==> s.stop
    ensures s.stop ==> r.0 == s
    ensures r.0.(sawDownload := s.sawDownload, events := s.events, log := s.log) == s
    ensures Appended(s.log, r.0.log)
    ensures r.0.sawDownload <==> s.sawDownload || (!s.stop && d.status in {Some("downloading"), Some("finished")})
    ensures !s.stop && d.status == Some("downloading") ==>
      r.0.events == s.events + [Progress(d.percent, d.speed.GetOr(""), d.eta.GetOr(""), HookTitle(d))]
    ensures !s.stop && d.status == Some("finished") ==>
      r.0.events == s.events + [Progress(100, "", "", HookTitle(d))]
                    + (if Truthy(d.filename) then [FileDone(d.filename.value)] else [])
    ensures d.status !in {Some("downloading"), Some("finished")} ==> r.0 == s
  {
    if s.stop then (s, true)
    else
      var title := HookTitle(d);
      if d.status == Some("downloading") then
        var speed := d.speed.GetOr("");
        var eta := d.eta.GetOr("");
        var s1 := s.(sawDownload := true, events := s.events + [Progress(d.percent, speed, eta, title)]);
        (Log(s1, InfoLevel, DownloadingLine(title, d.percent, speed, eta)), false)
      else if d.status == Some("finished") then
        var s1 := s.(sawDownload := true, events := s.events + [Progress(100, "", "", title)]);
        var s2 := Log(s1, InfoLevel, "finished download stage: " + title);
        (if Truthy(d.filename) then s2.(events := s2.events + [FileDone(d.filename.value)]) else s2, false)
      else (s, false)
  }

  /** How one engine call ends, as `run` sees it. */
  datatype AttemptEnd = Completed | Errored(message: string) | Interrupted

  /**
   * One engine step: a hook call (true when it raises the cancellation
   * interrupt), a record logged by the engine, or a stop request from the
   * window. A step emits at most one progress, file or skip signal and never
   * `finished`, leaves the handlers and attempts alone and never clears the
   * stop flag.
   */
  function Step(s: WorkerState, step: EngineStep): (r: (WorkerState, bool))
    ensures r.0.attempts == s.attempts && r.0.handlers == s.handlers && r.0.tempHandler == s.tempHandler
    ensures Grows(s.events, r.0.events)
    ensures s.stop ==> r.0.stop
    ensures s.sawDownload ==> r.0.sawDownload
    ensures Appended(s.log, r.0.log)
    ensures r.1 ==> r.0.stop && step.HookCall?
  {
    match step
    case HookCall(d) => Hook(s, d)
    case EngineLog(level, msg) => (Log(s, level, msg), false)
    case StopPressed => (Stop(s), false)
  }

  /**
   * One engine call: the steps in order until a hook raises the cancellation
   * interrupt, then the engine's own ending. An attempt never emits `finished`,
   * never touches the handlers or the attempt list, never clears the stop flag,
   * and ends interrupted only with the stop flag set.
   */
  function Attempt(s: WorkerState, steps: seq<EngineStep>, end: EngineEnd): (r: (WorkerState, AttemptEnd))
    ensures r.0.attempts == s.attempts && r.0.handlers == s.handlers && r.0.tempHandler == s.tempHandler
    ensures Grows(s.events, r.0.events)
    ensures s.stop ==> r.0.stop
    ensures s.sawDownload ==> r.0.sawDownload
    ensures r.1.Interrupted? ==> r.0.stop
    ensures Appended(s.log, r.0.log)
    decreases |steps|
  {
    if steps == [] then (s, if end.Returned? then Completed else Errored(end.message))
    else
      var (s1, cancel) := Step(s, steps[0]);
      if cancel then (s1, Interrupted)
      else
        var r := Attempt(s1, steps[1..], end);
        GrowsTrans(s.events, s1.events, r.0.events);
        AppendedTrans(s.log, s1.log, r.0.log);
        r
  }

  predicate HasHookCall(steps: seq<EngineStep>) {
    exists i :: 0 <= i < |steps| && steps[i].HookCall?
  }

  predicate SkipsOnlyFrom(a: seq<Event>, b: seq<Event>) {
    |a| <= |b| && forall i :: |a| <= i < |b| ==> b[i].Skipped?
  }

  /** While stopped, a log record or another stop request emits at most a skip reason. */
  lemma StepAfterStop(s: WorkerState, step: EngineStep)
    requires s.stop && !step.HookCall?
    ensures var r := Step(s, step);
      !r.1 && r.0.stop && r.0.sawDownload == s.sawDownload && SkipsOnlyFrom(s.events, r.0.events)
  {
  }

  /**
   * After a stop request the next hook call raises before emitting anything:
   * until then only skip reasons from log records can be emitted, and the
   * "saw a download" flag does not change.
   */
  lemma {:induction false} AttemptAfterStop(s: WorkerState, steps: seq<EngineStep>, end: EngineEnd)
    requires s.stop
    ensures var r := Attempt(s, steps, end);
      && r.0.sawDownload == s.sawDownload
      && SkipsOnlyFrom(s.events, r.0.events)
      && (HasHookCall(steps) ==> r.1 == Interrupted)
      && (!HasHookCall(steps) ==> r.1 == if end.Returned? then Completed else Errored(end.message))
    decreases |steps|
  {
    if steps != [] && !steps[0].HookCall? {
      var rest := steps[1..];
      var s1 := Step(s, steps[0]).0;
      StepAfterStop(s, steps[0]);
      AttemptAfterStop(s1, rest, end);
      var t := Attempt(s1, rest, end).0;
      assert SkipsOnlyFrom(s.events, t.events) by {
        assert t.events[..|s1.events|] == s1.events;
        forall i | |s.events| <= i < |t.events|
          ensures t.events[i].Skipped?
        {
          if i < |s1.events| {
            assert t.events[i] == s1.events[i];
          }
        }
      }
      if HasHookCall(steps) {
        var i :| 0 <= i < |steps| && steps[i].HookCall?;
        assert rest[i - 1].HookCall?;
      }
      if HasHookCall(rest) {
        var i :| 0 <= i < |rest| && rest[i].HookCall?;
        assert steps[i + 1].HookCall?;
      }
    }
  }

  /** `_attach_temp_log_handler`: adds the skip forwarder unless it is already attached. */
  function AttachTempHandler(s: WorkerState): (r: WorkerState)
    requires HandlersConsistent(s)
    ensures r.tempHandler && HandlersConsistent(r) && SkipHandler in r.handlers
    ensures multiset(r.handlers) == multiset(s.handlers) + (if s.tempHandler then multiset{} else multiset{SkipHandler})
    ensures r.(tempHandler := s.tempHandler, handlers := s.handlers) == s
  {
    if s.tempHandler then s
    else
      var r := s.(tempHandler := true, handlers := s.handlers + [SkipHandler]);
      assert multiset(r.handlers) == multiset(s.handlers) + multiset{SkipHandler};
      r
  }

  /** `list.remove(h)`: drops the first occurrence. */
  function RemoveFirst(hs: seq<Handler>, h: Handler): (r: seq<Handler>)
    ensures multiset(r) == if h in hs then multiset(hs) - multiset{h} else multiset(hs)
  {
    if hs == [] then []
    else if hs[0] == h then
      assert hs == [hs[0]] + hs[1..];
      hs[1..]
    else
      assert hs == [hs[0]] + hs[1..];
      [hs[0]] + RemoveFirst(hs[1..], h)
  }

  /** `_detach_temp_log_handler`: removes the forwarder and clears `_temp_handler`. */
  function DetachTempHandler(s: WorkerState): (r: WorkerState)
    requires HandlersConsistent(s)
    ensures !r.tempHandler && HandlersConsistent(r) && SkipHandler !in r.handlers
    ensures multiset(r.handlers) == multiset(s.handlers) - multiset{SkipHandler}
    ensures r.(tempHandler := s.tempHandler, handlers := s.handlers) == s
  {
    if s.tempHandler then
      var r := s.(handlers := RemoveFirst(s.handlers, SkipHandler), tempHandler := false);
      assert SkipHandler !in r.handlers by {
        assert multiset(r.handlers)[SkipHandler] == 0;
      }
      r
    else
      assert SkipHandler !in s.handlers by {
        assert multiset(s.handlers)[SkipHandler] == 0;
      }
      s
  }

  /** What the main `try` block ends with: a direct emit, the interrupt, or an exception text. */
  datatype MainEnd = Emit(success: bool, message: string) | Cancel | Fail(message: string)

  /** The state when the main attempt begins: the start logged, the forwarder attached. */
  function Started(cfg: Config, s: WorkerState): (r: WorkerState)
    requires HandlersConsistent(s)
    ensures r.stop == s.stop && r.sawDownload == s.sawDownload && r.attempts == s.attempts && r.events == s.events
    ensures r.tempHandler && HandlersConsistent(r) && SkipHandler in r.handlers
    ensures r.log == s.log + [LogRecord(InfoLevel, "Starting download: " + cfg.url)]
  {
    AttachTempHandler(Log(s, InfoLevel, "Starting download: " + cfg.url))
  }

  /** `b` is `a` with `k` more attempts recorded after it. */
  predicate Recorded(a: seq<YdlOpts>, b: seq<YdlOpts>, k: nat) {
    |b| == |a| + k && b[..|a|] == a
  }

  lemma RecordedTrans(a: seq<YdlOpts>, b: seq<YdlOpts>, c: seq<YdlOpts>, k1: nat, k2: nat)
    requires Recorded(a, b, k1) && Recorded(b, c, k2)
    ensures Recorded(a, c, k1 + k2)
  {
    assert c[..|a|] == c[..|b|][..|a|];
  }

  lemma RecordOne(a: seq<YdlOpts>, o: YdlOpts)
    ensures Recorded(a, a + [o], 1)
  {
    assert (a + [o])[..|a|] == a;
  }

  /**
   * How the main `try` block ends once the engine returned normally: a run
   * that saw no download and had no stop request is explained by the archive
   * or raises the "no media" error.
   */
  function Conclude(cfg: Config, env: Env, s: WorkerState): (r: (WorkerState, MainEnd))
    ensures r.0.(events := s.events, log := s.log) == s
    ensures Grows(s.events, r.0.events)
    ensures r.1.Emit? ==> (r.1.success <==> !s.stop)
    ensures r.1.Emit? && r.1.success ==>
      r.1.message == cfg.rootDir && (s.sawDownload || (env.archiveExists && !cfg.ignoreArchive))
    ensures r.1.Emit? && !r.1.success ==> r.1.message == CancelledMessage
    ensures !r.1.Cancel?
    ensures r.1.Fail? <==> !s.sawDownload && !s.stop && !(env.archiveExists && !cfg.ignoreArchive)
    ensures r.1.Fail? ==> r.1.message == NoMediaMessage
  {
    if !s.sawDownload && !s.stop then
      if env.archiveExists && !cfg.ignoreArchive then
        (Log(s, InfoLevel, "No new downloads, " + "but archive exists. " + "Likely already " + "downloaded."), Emit(true, cfg.rootDir))
      else (s, Fail(NoMediaMessage))
    else if s.stop then (s, Emit(false, CancelledMessage))
    else (s, Emit(true, cfg.rootDir))
  }

  /**
   * The main `try` block of `run`, given what `_build_opts` returned. It records at most one attempt; it
   * reports success only without a stop request and only with the root
   * directory as message, after a download was seen or when the archive
   * explains the empty run; a direct failure report is the cancellation.
   */
  function MainAttempt(cfg: Config, env: Env, built: Result<YdlOpts>, s: WorkerState, main: EngineRun): (r: (WorkerState, MainEnd))
    ensures r.0.handlers == s.handlers && r.0.tempHandler == s.tempHandler
    ensures Grows(s.events, r.0.events)
    ensures Recorded(s.attempts, r.0.attempts, if built.Ok? then 1 else 0)
    ensures s.stop ==> r.0.stop
    ensures s.sawDownload ==> r.0.sawDownload
    ensures r.1.Emit? ==> (r.1.success <==> !r.0.stop)
    ensures r.1.Emit? && r.1.success ==>
      r.1.message == cfg.rootDir && (r.0.sawDownload || (env.archiveExists && !cfg.ignoreArchive))
    ensures r.1.Emit? && !r.1.success ==> r.1.message == CancelledMessage
    ensures r.1.Cancel? ==> r.0.stop
    ensures built.Err? ==> r == (s, Fail(built.error))
    ensures built.Ok? ==> r.0.attempts == s.attempts + [built.value]
  {
    match built
    case Err(e) => (s, Fail(e))
    case Ok(opts) =>
      var s1 := s.(attempts := s.attempts + [opts]);
      RecordOne(s.attempts, opts);
      var (s2, end) := Attempt(s1, main.steps, main.end);
      match end
      case Interrupted => (s2, Cancel)
      case Errored(m) => (s2, Fail(m))
      case Completed =>
        var r := Conclude(cfg, env, s2);
        GrowsTrans(s.events, s2.events, r.0.events);
        r
  }

  datatype FallbackEnd = Recovered | NotRecovered | FallbackCancelled

  /**
   * The fallback `try` block, given what `_build_opts` returned: one more
   * attempt with the iOS client and no chunking. It recovers only when a
   * download has been seen.
   */
  function FallbackAttempt(built: Result<YdlOpts>, s: WorkerState, fallback: EngineRun): (r: (WorkerState, FallbackEnd))
    ensures r.0.handlers == s.handlers && r.0.tempHandler == s.tempHandler
    ensures Grows(s.events, r.0.events)
    ensures Recorded(s.attempts, r.0.attempts, if built.Ok? then 1 else 0)
    ensures built.Ok? ==> r.0.attempts == s.attempts + [FallbackOpts(built.value)]
    ensures s.stop ==> r.0.stop
    ensures r.1.Recovered? ==> r.0.sawDownload
    ensures r.1.FallbackCancelled? ==> r.0.stop && built.Ok?
    ensures built.Err? ==> r.1.NotRecovered?
    ensures built.Ok? ==>
      var s1 := Log(s, InfoLevel, "Attempting fallback with iOS client...");
      var a := Attempt(s1.(attempts := s1.attempts + [FallbackOpts(built.value)]), fallback.steps, fallback.end);
      && (r.1.FallbackCancelled? <==> a.1.Interrupted?)
      && (a.1.Errored? ==> r.1.NotRecovered?)
      && (a.1.Completed? ==> (r.1.Recovered? <==> r.0.sawDownload))
  {
    var s1 := Log(s, InfoLevel, "Attempting fallback with iOS client...");
    match built
    case Err(e) =>
      var s2 := Log(s1, ErrorLevel, "Fallback error: " + e);
      GrowsTrans(s.events, s1.events, s2.events);
      (s2, NotRecovered)
    case Ok(opts) =>
      var s2 := s1.(attempts := s1.attempts + [FallbackOpts(opts)]);
      RecordOne(s.attempts, FallbackOpts(opts));
      var (s3, end) := Attempt(s2, fallback.steps, fallback.end);
      GrowsTrans(s.events, s1.events, s3.events);
      match end
      case Interrupted => (s3, FallbackCancelled)
      case Errored(m) =>
        var s4 := Log(s3, ErrorLevel, "Fallback error: " + m);
        GrowsTrans(s.events, s3.events, s4.events);
        (s4, NotRecovered)
      case Completed => (s3, if s3.sawDownload then Recovered else NotRecovered)
  }

  function Last(evs: seq<Event>): Event
    requires evs != []
  {
    evs[|evs| - 1]
  }

  function EmitEvent(s: WorkerState, e: Event): (r: WorkerState)
    ensures r.events == s.events + [e] && r.events != [] && Last(r.events) == e
    ensures r.stop == s.stop && r.sawDownload == s.sawDownload && r.attempts == s.attempts
    ensures r.handlers == s.handlers && r.tempHandler == s.tempHandler
  {
    s.(events := s.events + [e])
  }

  /** `b` is `a` followed by signals that end with one `finished` and hold no other. */
  predicate FinishesOnce(a: seq<Event>, b: seq<Event>) {
    |a| < |b| && Grows(a, b[..|b| - 1]) && b[|b| - 1].Finished?
  }

  lemma EmitFinishes(a: seq<Event>, b: seq<Event>, success: bool, message: string)
    requires Grows(a, b)
    ensures FinishesOnce(a, b + [Finished(success, message)])
  {
    assert (b + [Finished(success, message)])[..|b|] == b;
  }

  /**
   * The `except Exception` branch of `run`, given the exception text. The
   * fallback attempt is made exactly when no stop was requested and the text
   * names an access restriction; success then needs a download seen; a
   * failure reports the cancellation or the original text; the interrupt
   * escapes only after a stop request.
   */
  function Recover(cfg: Config, built: Result<YdlOpts>, s: WorkerState, fallback: EngineRun, msg: string): (r: (WorkerState, bool))
    ensures r.0.handlers == s.handlers && r.0.tempHandler == s.tempHandler
    ensures if r.1 then Grows(s.events, r.0.events) else FinishesOnce(s.events, r.0.events)
    ensures Recorded(s.attempts, r.0.attempts, if !s.stop && AccessRestricted(msg) && built.Ok? then 1 else 0)
    ensures !s.stop && AccessRestricted(msg) && built.Ok? ==> r.0.attempts == s.attempts + [FallbackOpts(built.value)]
    ensures r.1 ==> r.0.stop && !s.stop && AccessRestricted(msg) && built.Ok?
    ensures !r.1 && Last(r.0.events).success ==> Last(r.0.events).message == cfg.rootDir && r.0.sawDownload
    ensures !r.1 && !Last(r.0.events).success ==> Last(r.0.events).message in {CancelledMessage, msg}
    ensures s.stop ==> !r.1 && Last(r.0.events) == Finished(false, CancelledMessage)
    ensures !AccessRestricted(msg) ==> !r.1 && Last(r.0.events).message in {CancelledMessage, msg} && !Last(r.0.events).success
    ensures !s.stop && !AccessRestricted(msg) ==> !r.1 && Last(r.0.events) == Finished(false, msg)
    ensures !s.stop && AccessRestricted(msg) ==>
      var f := FallbackAttempt(built, Log(s, ErrorLevel, "Main attempt error: " + msg), fallback).1;
      && (r.1 <==> f.FallbackCancelled?)
      && (f.Recovered? ==> Last(r.0.events) == Finished(true, cfg.rootDir))
      && (f.NotRecovered? ==> Last(r.0.events) == Finished(false, msg))
  {
    var s1 := Log(s, ErrorLevel, "Main attempt error: " + msg);
    if s1.stop then
      EmitFinishes(s.events, s1.events, false, CancelledMessage);
      (EmitEvent(s1, Finished(false, CancelledMessage)), false)
    else if AccessRestricted(msg) then
      var (s2, f) := FallbackAttempt(built, s1, fallback);
      GrowsTrans(s.events, s1.events, s2.events);
      match f
      case Recovered =>
        EmitFinishes(s.events, s2.events, true, cfg.rootDir);
        (EmitEvent(s2, Finished(true, cfg.rootDir)), false)
      case NotRecovered =>
        EmitFinishes(s.events, s2.events, false, msg);
        (EmitEvent(s2, Finished(false, msg)), false)
      case FallbackCancelled => (s2, true)
    else
      EmitFinishes(s.events, s1.events, false, msg);
      (EmitEvent(s1, Finished(false, msg)), false)
  }

  /**
   * The body of the `try` in `run` after the forwarder is attached: the main
   * attempt and, on an exception, the retry ladder.
   */
  function Ladder(cfg: Config, env: Env, built: Result<YdlOpts>, s: WorkerState, main: EngineRun, fallback: EngineRun): (r: (WorkerState, bool))
    ensures r.0.handlers == s.handlers && r.0.tempHandler == s.tempHandler
    ensures if r.1 then Grows(s.events, r.0.events) else FinishesOnce(s.events, r.0.events)
    ensures |s.attempts| <= |r.0.attempts| <= |s.attempts| + 2
    ensures r.1 ==> r.0.stop && |r.0.attempts| == |s.attempts| + 2
    ensures !r.1 && Last(r.0.events).success ==>
      Last(r.0.events).message == cfg.rootDir && (r.0.sawDownload || (env.archiveExists && !cfg.ignoreArchive))
    ensures !r.1 && !Last(r.0.events).success ==>
      Last(r.0.events).message == CancelledMessage || MainAttempt(cfg, env, built, s, main).1 == Fail(Last(r.0.events).message)
    ensures s.stop ==> !r.1 && Last(r.0.events) == Finished(false, CancelledMessage)
  {
    var (s1, m) := MainAttempt(cfg, env, built, s, main);
    match m
    case Emit(ok, text) =>
      EmitFinishes(s.events, s1.events, ok, text);
      (EmitEvent(s1, Finished(ok, text)), false)
    case Cancel =>
      EmitFinishes(s.events, s1.events, false, CancelledMessage);
      (EmitEvent(s1, Finished(false, CancelledMessage)), false)
    case Fail(msg) =>
      var r := Recover(cfg, built, s1, fallback, msg);
      LadderEvents(s.events, s1.events, r.0.events, r.1);
      RecordedTrans(s.attempts, s1.attempts, r.0.attempts,
        if built.Ok? then 1 else 0,
        if !s1.stop && AccessRestricted(msg) && built.Ok? then 1 else 0);
      r
  }

  /**
   * The `finished` signal the ladder ends with, by how the main attempt
   * ended: its own report; the cancellation after an interrupt or after an
   * error once a stop was requested; the error text word for word when it
   * names no access restriction; and on the restricted path, the root
   * directory when the fallback recovered and the main error when it did not.
   */
  lemma LadderOutcome(cfg: Config, env: Env, built: Result<YdlOpts>, s: WorkerState, main: EngineRun, fallback: EngineRun)
    ensures var (t, escaped) := Ladder(cfg, env, built, s, main, fallback);
      var (s1, m) := MainAttempt(cfg, env, built, s, main);
      && (m.Emit? ==> !escaped && Last(t.events) == Finished(m.success, m.message))
      && (m.Cancel? ==> !escaped && Last(t.events) == Finished(false, CancelledMessage))
      && (m.Fail? && s1.stop ==> !escaped && Last(t.events) == Finished(false, CancelledMessage))
      && (m.Fail? && !s1.stop && !AccessRestricted(m.message) ==> !escaped && Last(t.events) == Finished(false, m.message))
      && (m.Fail? && !s1.stop && AccessRestricted(m.message) ==>
            var f := FallbackAttempt(built, Log(s1, ErrorLevel, "Main attempt error: " + m.message), fallback).1;
            && (escaped <==> f.FallbackCancelled?)
            && (f.Recovered? ==> Last(t.events) == Finished(true, cfg.rootDir))
            && (f.NotRecovered? ==> Last(t.events) == Finished(false, m.message)))
  {
  }

  lemma LadderEvents(a: seq<Event>, b: seq<Event>, c: seq<Event>, escaped: bool)
    requires Grows(a, b)
    requires if escaped then Grows(b, c) else FinishesOnce(b, c)
    ensures if escaped then Grows(a, c) else FinishesOnce(a, c)
  {
    if escaped {
      GrowsTrans(a, b, c);
    } else {
      GrowsTrans(a, b, c[..|c| - 1]);
    }
  }

  /**
   * `run()`: the start line, the forwarder attached, the ladder, and the
   * `finally` that detaches the forwarder. `built` is what `_build_opts()`
   * returns in the environment `env` (`BuildOpts(cfg, env)`); both attempts
   * use it. The boolean is true when the cancellation interrupt escapes `run`.
   *
   * Whatever happens, the forwarder is gone afterwards and no other handler
   * changed. Unless the interrupt escapes, exactly one `finished` is
   * emitted, as the last signal; success carries the root directory and
   * needs a download seen or an archive that explains an empty run; a
   * failure carries the cancellation text or the main attempt's error.
   * At most two attempts are made, and the interrupt escapes only after a
   * stop request during the second.
   */
  function Run(cfg: Config, env: Env, built: Result<YdlOpts>, s: WorkerState, main: EngineRun, fallback: EngineRun): (r: (WorkerState, bool))
    requires HandlersConsistent(s)
    ensures HandlersConsistent(r.0) && !r.0.tempHandler && SkipHandler !in r.0.handlers
    ensures multiset(r.0.handlers) == multiset(s.handlers) - multiset{SkipHandler}
    ensures if r.1 then Grows(s.events, r.0.events) else FinishesOnce(s.events, r.0.events)
    ensures |s.attempts| <= |r.0.attempts| <= |s.attempts| + 2
    ensures r.1 ==> r.0.stop && |r.0.attempts| == |s.attempts| + 2
    ensures !r.1 && Last(r.0.events).success ==>
      Last(r.0.events).message == cfg.rootDir && (r.0.sawDownload || (env.archiveExists && !cfg.ignoreArchive))
    ensures !r.1 && !Last(r.0.events).success ==>
      Last(r.0.events).message == CancelledMessage
      || MainAttempt(cfg, env, built, Started(cfg, s), main).1 == Fail(Last(r.0.events).message)
    ensures s.stop ==> !r.1 && Last(r.0.events) == Finished(false, CancelledMessage)
  {
    var s0 := Started(cfg, s);
    var (s1, escaped) := Ladder(cfg, env, built, s0, main, fallback);
    (DetachTempHandler(s1), escaped)
  }

  /** The outcome of the ladder, for the whole run: detaching the forwarder emits nothing. */
  lemma RunOutcome(cfg: Config, env: Env, built: Result<YdlOpts>, s: WorkerState, main: EngineRun, fallback: EngineRun)
    requires HandlersConsistent(s)
    ensures var (t, escaped) := Run(cfg, env, built, s, main, fallback);
      var (s1, m) := MainAttempt(cfg, env, built, Started(cfg, s), main);
      && (m.Emit? ==> !escaped && Last(t.events) == Finished(m.success, m.message))
      && (m.Cancel? ==> !escaped && Last(t.events) == Finished(false, CancelledMessage))
      && (m.Fail? && s1.stop ==> !escaped && Last(t.events) == Finished(false, CancelledMessage))
      && (m.Fail? && !s1.stop && !AccessRestricted(m.message) ==> !escaped && Last(t.events) == Finished(false, m.message))
      && (m.Fail? && !s1.stop && AccessRestricted(m.message) ==>
            var f := FallbackAttempt(built, Log(s1, ErrorLevel, "Main attempt error: " + m.message), fallback).1;
            && (escaped <==> f.FallbackCancelled?)
            && (f.Recovered? ==> Last(t.events) == Finished(true, cfg.rootDir))
            && (f.NotRecovered? ==> Last(t.events) == Finished(false, m.message)))
  {
    LadderOutcome(cfg, env, built, Started(cfg, s), main, fallback);
  }

  /** The retry rule, for the ladder alone. */
  lemma LadderAttempts(cfg: Config, env: Env, built: Result<YdlOpts>, s: WorkerState, main: EngineRun, fallback: EngineRun)
    ensures var t := Ladder(cfg, env, built, s, main, fallback).0;
      var (s1, m) := MainAttempt(cfg, env, built, s, main);
      && (built.Err? ==> t.attempts == s.attempts)
      && (built.Ok? ==> |t.attempts| > |s.attempts| && t.attempts[|s.attempts|] == built.value)
      && (|t.attempts| == |s.attempts| + 2 <==> built.Ok? && m.Fail? && !s1.stop && AccessRestricted(m.message))
      && (|t.attempts| == |s.attempts| + 2 ==> t.attempts[|s.attempts| + 1] == FallbackOpts(t.attempts[|s.attempts|]))
  {
    var (s1, m) := MainAttempt(cfg, env, built, s, main);
    if built.Ok? && m.Fail? && !s1.stop && AccessRestricted(m.message) {
      var t := Ladder(cfg, env, built, s, main, fallback).0;
      assert t.attempts == s1.attempts + [FallbackOpts(built.value)];
      assert t.attempts[|s.attempts|] == s1.attempts[|s.attempts|];
    }
  }

  /**
   * The retry rule of `run`, for the options `built` that `_build_opts`
   * returned (an error exactly when the root directory could not be
   * created): a second attempt is made exactly when the options could be
   * built, the main attempt raised, no stop was requested and the error
   * names an access restriction; it uses the same options with the iOS
   * client and no chunking.
   */
  lemma RunAttempts(cfg: Config, env: Env, built: Result<YdlOpts>, s: WorkerState, main: EngineRun, fallback: EngineRun)
    requires HandlersConsistent(s)
    ensures var t := Run(cfg, env, built, s, main, fallback).0;
      var (s1, m) := MainAttempt(cfg, env, built, Started(cfg, s), main);
      && (built.Err? ==> t.attempts == s.attempts)
      && (built.Ok? ==> |t.attempts| > |s.attempts| && t.attempts[|s.attempts|] == built.value)
      && (|t.attempts| == |s.attempts| + 2 <==> built.Ok? && m.Fail? && !s1.stop && AccessRestricted(m.message))
      && (|t.attempts| == |s.attempts| + 2 ==> t.attempts[|s.attempts| + 1] == FallbackOpts(t.attempts[|s.attempts|]))
  {
    LadderAttempts(cfg, env, built, Started(cfg, s), main, fallback);
  }

  /**
   * An engine run that returns without any download and without a stop
   * request ends in success with the root directory when the archive exists
   * and is in use, and otherwise in the "no media" failure, which is not
   * retried.
   */
  lemma RunNoMedia(cfg: Config, env: Env, built: Result<YdlOpts>, s: WorkerState, main: EngineRun, fallback: EngineRun)
    requires HandlersConsistent(s) && built.Ok?
    requires var s0 := Started(cfg, s);
      var a := Attempt(s0.(attempts := s0.attempts + [built.value]), main.steps, main.end);
      a.1 == Completed && !a.0.sawDownload && !a.0.stop
    ensures var (t, escaped) := Run(cfg, env, built, s, main, fallback);
      && !escaped
      && |t.attempts| == |s.attempts| + 1
      && Last(t.events) == if env.archiveExists && !cfg.ignoreArchive then Finished(true, cfg.rootDir) else Finished(false, NoMediaMessage)
  {
    NoMediaIsNotRestricted();
    RunAttempts(cfg, env, built, s, main, fallback);
  }

  predicate OnlySkipsAfter(a: seq<Event>, b: seq<Event>, upTo: int) {
    forall i :: |a| <= i < upTo && i < |b| ==> b[i].Skipped?
  }

  lemma OnlySkipsThenFinish(a: seq<Event>, b: seq<Event>, e: Event)
    requires OnlySkipsAfter(a, b, |b|)
    ensures OnlySkipsAfter(a, b + [e], |b + [e]| - 1)
  {
    assert forall i :: 0 <= i < |b| ==> (b + [e])[i] == b[i];
  }

  lemma OnlySkipsThenLog(a: seq<Event>, s: WorkerState, level: int, msg: string)
    requires OnlySkipsAfter(a, s.events, |s.events|)
    ensures OnlySkipsAfter(a, Log(s, level, msg).events, |Log(s, level, msg).events|)
  {
    var b := Log(s, level, msg).events;
    if b != s.events {
      assert forall i :: 0 <= i < |s.events| ==> b[i] == s.events[i];
    }
  }

  lemma MainAttemptAfterStop(cfg: Config, env: Env, built: Result<YdlOpts>, s: WorkerState, main: EngineRun)
    requires s.stop
    ensures var (s1, m) := MainAttempt(cfg, env, built, s, main);
      && s1.sawDownload == s.sawDownload
      && OnlySkipsAfter(s.events, s1.events, |s1.events|)
      && (m.Emit? ==> m == Emit(false, CancelledMessage))
  {
    if built.Ok? {
      AttemptAfterStop(s.(attempts := s.attempts + [built.value]), main.steps, main.end);
    }
  }

  lemma RecoverAfterStop(cfg: Config, built: Result<YdlOpts>, s: WorkerState, fallback: EngineRun, msg: string)
    requires s.stop
    ensures var l := Log(s, ErrorLevel, "Main attempt error: " + msg);
      Recover(cfg, built, s, fallback, msg) == (EmitEvent(l, Finished(false, CancelledMessage)), false)
  {
  }

  lemma LadderAfterStop(cfg: Config, env: Env, built: Result<YdlOpts>, s: WorkerState, main: EngineRun, fallback: EngineRun)
    requires s.stop
    ensures var (t, escaped) := Ladder(cfg, env, built, s, main, fallback);
      !escaped && t.sawDownload == s.sawDownload && OnlySkipsAfter(s.events, t.events, |t.events| - 1)
  {
    var (s1, m) := MainAttempt(cfg, env, built, s, main);
    MainAttemptAfterStop(cfg, env, built, s, main);
    match m
    case Emit(ok, text) =>
      OnlySkipsThenFinish(s.events, s1.events, Finished(ok, text));
    case Cancel =>
      OnlySkipsThenFinish(s.events, s1.events, Finished(false, CancelledMessage));
    case Fail(msg) =>
      var l := Log(s1, ErrorLevel, "Main attempt error: " + msg);
      RecoverAfterStop(cfg, built, s1, fallback, msg);
      OnlySkipsThenLog(s.events, s1, ErrorLevel, "Main attempt error: " + msg);
      OnlySkipsThenFinish(s.events, l.events, Finished(false, CancelledMessage));
  }

  /**
   * A worker stopped before `run` starts reports only skip reasons and the
   * cancellation: no progress and no file is reported, and no second
   * attempt is made.
   */
  lemma RunAfterStop(cfg: Config, env: Env, built: Result<YdlOpts>, s: WorkerState, main: EngineRun, fallback: EngineRun)
    requires HandlersConsistent(s) && s.stop
    ensures var (t, escaped) := Run(cfg, env, built, s, main, fallback);
      && !escaped
      && Last(t.events) == Finished(false, CancelledMessage)
      && OnlySkipsAfter(s.events, t.events, |t.events| - 1)
      && t.sawDownload == s.sawDownload
      && |t.attempts| <= |s.attempts| + 1
  {
    RunAttempts(cfg, env, built, s, main, fallback);
    LadderAfterStop(cfg, env, built, Started(cfg, s), main, fallback);
  }
}
