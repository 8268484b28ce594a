/**
 * The download worker as an object whose fields its methods update
 * (`DownloadWorker` in downloader.py). Every method is proved to change the
 * state exactly as the function of the same name in `WorkerModel` says.
 */
module Downloader {
  import opened Wrappers
  import opened Text
  import opened DownloadOptions
  import opened WorkerModel

  class DownloadWorker {
    /** The request: URL (stripped), mode, root directory, height, cookies, archive switch. */
    const cfg: Config
    /** `_stop` */
    var stopRequested: bool
    /** `_saw_download` */
    var sawDownload: bool
    /** Whether `_temp_handler` is set. */
    var tempHandler: bool
    /** The handlers of the worker's logger. */
    var handlers: seq<Handler>
    /** Signals emitted so far, in order. */
    var events: seq<Event>
    /** Records the logger accepted. */
    var log: seq<LogRecord>
    /** The options handed to the engine, one entry per attempt. */
    var attempts: seq<YdlOpts>

    function State(): WorkerState
      reads this
    {
      WorkerState(stopRequested, sawDownload, tempHandler, handlers, events, log, attempts)
    }

    predicate Valid()
      reads this
    {
      HandlersConsistent(State())
    }

    /**
     * `__init__` with `_ensure_logging`: the settings stored, no stop, no
     * download seen, no forwarder, and a file handler for `logPath` on a
     * logger that had the file handlers `loggerFiles`.
     */
    constructor (url: string, mode: string, rootDir: string, maxHeight: Option<int>,
                 cookiesPath: Option<string>, cookiesFromBrowser: Option<string>, ignoreArchive: bool,
                 loggerFiles: seq<string>, logPath: string)
      ensures cfg == WorkerConfig(url, mode, rootDir, maxHeight, cookiesPath, cookiesFromBrowser, ignoreArchive)
      ensures State() == WorkerState(false, false, false,
        EnsureLogging(FileHandlers(loggerFiles), logPath),
        [], [], [])
      ensures Valid()
    {
      cfg := WorkerConfig(url, mode, rootDir, maxHeight, cookiesPath, cookiesFromBrowser, ignoreArchive);
      var hs := EnsureLogging(FileHandlers(loggerFiles), logPath);
      assert SkipHandler !in hs;
      stopRequested := false;
      sawDownload := false;
      tempHandler := false;
      handlers := hs;
      events := [];
      log := [];
      attempts := [];
    }

    /** A record sent to the worker's logger, with the forwarder's reaction. */
    method WriteLog(level: int, msg: string)
      modifies this
      ensures State() == Log(old(State()), level, msg)
    {
      if level >= InfoLevel {
        log := log + [LogRecord(level, msg)];
        if SkipHandler in handlers && ForwardsAsSkipped(level, msg) {
          events := events + [Skipped(msg)];
        }
      }
    }

    /** `stop()` */
    method Stop()
      modifies this
      ensures State() == WorkerModel.Stop(old(State()))
    {
      stopRequested := true;
      WriteLog(InfoLevel, "stop requested by user");
    }

    /** `_hook(d)`; `cancelled` is the cancellation interrupt. */
    method Hook(d: HookInfo) returns (cancelled: bool)
      modifies this
      ensures (State(), cancelled) == WorkerModel.Hook(old(State()), d)
    {
      if stopRequested {
        return true;
      }
      var title := HookTitle(d);
      if d.status == Some("downloading") {
        sawDownload := true;
        var speed := d.speed.GetOr("");
        var eta := d.eta.GetOr("");
        events := events + [Progress(d.percent, speed, eta, title)];
        WriteLog(InfoLevel, DownloadingLine(title, d.percent, speed, eta));
      } else if d.status == Some("finished") {
        sawDownload := true;
        events := events + [Progress(100, "", "", title)];
        WriteLog(InfoLevel, "finished download stage: " + title);
        if Truthy(d.filename) {
          events := events + [FileDone(d.filename.value)];
        }
      }
      return false;
    }

    /**
     * One `ydl.download([url])` call: the engine's steps in order, each hook
     * call answered by `Hook`, until a hook raises or the engine ends.
     */
    method Download(run: EngineRun) returns (end: AttemptEnd)
      modifies this
      ensures (State(), end) == Attempt(old(State()), run.steps, run.end)
    {
      var i := 0;
      while i < |run.steps|
        invariant 0 <= i <= |run.steps|
        invariant Attempt(old(State()), run.steps, run.end) == Attempt(State(), run.steps[i..], run.end)
      {
        var rest := run.steps[i..];
        assert rest[0] == run.steps[i] && rest[1..] == run.steps[i + 1..];
        match run.steps[i] {
          case HookCall(d) =>
            var cancelled := Hook(d);
            if cancelled {
              return Interrupted;
            }
          case EngineLog(level, msg) =>
            WriteLog(level, msg);
          case StopPressed =>
            Stop();
        }
        i := i + 1;
      }
      end := if run.end.Returned? then Completed else Errored(run.end.message);
    }

    /** `_attach_temp_log_handler()` */
    method AttachTempLogHandler()
      requires Valid()
      modifies this
      ensures State() == AttachTempHandler(old(State())) && Valid()
    {
      if tempHandler {
        return;
      }
      tempHandler := true;
      handlers := handlers + [SkipHandler];
    }

    /** `_detach_temp_log_handler()` */
    method DetachTempLogHandler()
      requires Valid()
      modifies this
      ensures State() == DetachTempHandler(old(State())) && Valid()
    {
      if tempHandler {
        handlers := RemoveFirst(handlers, SkipHandler);
        tempHandler := false;
      }
    }

    /**
     * The main `try` block of `run()`, up to the point where it emits or
     * raises; `built` is what `_build_opts()` returned.
     */
    method MainTry(env: Env, built: Result<YdlOpts>, main: EngineRun) returns (m: MainEnd)
      modifies this
      ensures (State(), m) == MainAttempt(cfg, env, built, old(State()), main)
    {
      if built.Err? {
        return Fail(built.error);
      }
      attempts := attempts + [built.value];
      var end := Download(main);
      match end
      case Interrupted =>
        m := Cancel;
      case Errored(e) =>
        m := Fail(e);
      case Completed =>
        if !sawDownload && !stopRequested {
          if env.archiveExists && !cfg.ignoreArchive {
            WriteLog(InfoLevel, "No new downloads, " + "but archive exists. " + "Likely already " + "downloaded.");
            m := Emit(true, cfg.rootDir);
          } else {
            m := Fail(NoMediaMessage);
          }
        } else if stopRequested {
          m := Emit(false, CancelledMessage);
        } else {
          m := Emit(true, cfg.rootDir);
        }
    }

    /** The fallback `try` block inside the `except Exception` branch. */
    method FallbackTry(built: Result<YdlOpts>, fallback: EngineRun) returns (f: FallbackEnd)
      modifies this
      ensures (State(), f) == FallbackAttempt(built, old(State()), fallback)
    {
      WriteLog(InfoLevel, "Attempting fallback with iOS client...");
      if built.Err? {
        WriteLog(ErrorLevel, "Fallback error: " + built.error);
        return NotRecovered;
      }
      attempts := attempts + [FallbackOpts(built.value)];
      var end := Download(fallback);
      match end
      case Interrupted =>
        f := FallbackCancelled;
      case Errored(e) =>
        WriteLog(ErrorLevel, "Fallback error: " + e);
        f := NotRecovered;
      case Completed =>
        f := if sawDownload then Recovered else NotRecovered;
    }

    /** The `except Exception` branch of `run()`, for the error text `msg`. */
    method HandleFailure(built: Result<YdlOpts>, fallback: EngineRun, msg: string) returns (escaped: bool)
      modifies this
      ensures (State(), escaped) == Recover(cfg, built, old(State()), fallback, msg)
    {
      WriteLog(ErrorLevel, "Main attempt error: " + msg);
      escaped := false;
      if stopRequested {
        events := events + [Finished(false, CancelledMessage)];
        return;
      }
      if AccessRestricted(msg) {
        var f := FallbackTry(built, fallback);
        match f
        case Recovered =>
          events := events + [Finished(true, cfg.rootDir)];
          return;
        case FallbackCancelled =>
          escaped := true;
          return;
        case NotRecovered =>
      }
      events := events + [Finished(false, msg)];
    }

    /**
     * `run()`, with `built` what `_build_opts()` returns in the environment
     * `env`. `escaped` is true when the cancellation interrupt leaves `run`;
     * the forwarder is detached on every path.
     */
    method Run(env: Env, built: Result<YdlOpts>, main: EngineRun, fallback: EngineRun) returns (escaped: bool)
      requires Valid()
      modifies this
      ensures (State(), escaped) == WorkerModel.Run(cfg, env, built, old(State()), main, fallback)
      ensures Valid()
    {
      WriteLog(InfoLevel, "Starting download: " + cfg.url);
      AttachTempLogHandler();
      ghost var s0 := State();
      var m := MainTry(env, built, main);
      escaped := false;
      match m {
        case Emit(ok, text) =>
          events := events + [Finished(ok, text)];
        case Cancel =>
          events := events + [Finished(false, CancelledMessage)];
        case Fail(msg) =>
          escaped := HandleFailure(built, fallback, msg);
      }
      assert (State(), escaped) == Ladder(cfg, env, built, s0, main, fallback);
      DetachTempLogHandler();
    }
  }
}
