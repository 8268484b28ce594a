/**
 * The main window as an object whose fields its handlers update
 * (`MainWindow` in ui.py). Each field stands for a widget or an attribute the
 * handlers read or write, and every handler is proved to change the state
 * exactly as the function of the same name in `WindowModel` says.
 */
module Ui {
  import opened Wrappers
  import opened Text
  import opened DownloadOptions
  import opened WindowText
  import opened WindowModel

  /**
   * The trimming loop of `_on_skipped`: the bottom item is removed while the
   * list holds more than `cap` items, which leaves its first `cap` items.
   */
  method DropOverflow(items: seq<string>, cap: nat) returns (kept: seq<string>)
    ensures |kept| == if |items| <= cap then |items| else cap
    ensures kept == items[..|kept|]
  {
    kept := items;
    while |kept| > cap
      invariant |kept| <= |items| && kept == items[..|kept|]
      invariant |kept| >= cap || kept == items
      decreases |kept|
    {
      kept := kept[..|kept| - 1];
    }
  }

  class MainWindow {
    /** The inputs: `url_edit`, `mode_group`, `maxres_combo`, `root_edit`, `chk_ignore_archive` and the cookie choices. */
    var form: Form
    /** The texts of `recent_list` and `skipped_list`, top first. */
    var recent: seq<string>
    var skipped: seq<string>
    /** The value of the progress bar. */
    var progress: int
    /** Whether `btn_download`, `btn_stop` and `btn_resume` are enabled. */
    var buttons: Buttons
    /** `worker`, by the configuration it was built with. */
    var worker: Option<Config>
    /** `_last_params` */
    var lastParams: Option<Params>
    /** `_run_stats` */
    var runStats: RunStats
    /** The last status-bar message, the clipboard and the dialogs opened so far. */
    var feedback: Feedback

    function State(): Window
      reads this
    {
      Window(form, recent, skipped, progress, buttons, worker, lastParams, runStats, feedback)
    }

    /**
     * `__init__`: an empty URL, video mode, 1080 selected, the default root,
     * the archive in use, no cookies, empty lists, only Download enabled, no
     * worker, nothing to resume and empty run statistics.
     */
    constructor ()
      ensures State() == Window(Form("", VideoModeId, Some(DefaultMaxHeight), DefaultRoot, false, None, None),
                                [], [], 0, Buttons(true, false, false), None, None, RunStats(0, []),
                                Feedback(None, "", []))
    {
      form := Form("", VideoModeId, Some(DefaultMaxHeight), DefaultRoot, false, None, None);
      recent := [];
      skipped := [];
      progress := 0;
      buttons := Buttons(true, false, false);
      worker := None;
      lastParams := None;
      runStats := RunStats(0, []);
      feedback := Feedback(None, "", []);
    }

    /** `_append_recent` */
    method AppendRecent(text: string, itemStatus: ItemStatus)
      modifies this
      ensures State() == WindowModel.AppendRecent(old(State()), text, itemStatus)
    {
      recent := [RecentText(text, itemStatus)] + recent;
    }

    /** `_begin_download` */
    method BeginDownload(url: string, mode: string, root: string)
      modifies this
      ensures State() == Begin(old(State()), url, mode, root)
    {
      var selectedMax := SelectedMax(form.maxResData);
      lastParams := Some(Params(url, mode, root, selectedMax, form.cookiesPath, form.cookiesBrowser, form.ignoreArchive));
      AppendRecent(url, Active);
      progress := 0;
      runStats := RunStats(0, []);
      var p := lastParams.value;
      worker := Some(WorkerConfig(url, mode, root, Some(p.maxHeight), p.cookiesPath, p.cookiesBrowser, p.ignoreArchive));
      buttons := Buttons(false, true, false);
    }

    /** `_start_download`, with `workerRunning` standing for `worker.isRunning()`. */
    method StartDownload(workerRunning: bool)
      modifies this
      ensures State() == Start(old(State()), workerRunning)
    {
      if worker.Some? && workerRunning {
        return;
      }
      match CheckUrl(form.url)
      case Rejected(message) =>
        feedback := feedback.(status := Some(message));
      case Accepted(url) =>
        BeginDownload(url, ModeName(form.modeId), RootChoice(form.root));
    }

    /** `_resume_download`: the archive checkbox is cleared around `BeginDownload` and then restored. */
    method ResumeDownload(workerRunning: bool)
      modifies this
      ensures State() == Resume(old(State()), workerRunning)
    {
      if worker.Some? && workerRunning {
        feedback := feedback.(status := Some(StopFirstMessage));
        return;
      }
      if lastParams.None? {
        feedback := feedback.(status := Some(NothingToResumeMessage));
        return;
      }
      ghost var w := old(State());
      buttons := buttons.(resume := false, download := false);
      feedback := feedback.(status := Some(ResumingMessage));
      var oldIgnore := form.ignoreArchive;
      if oldIgnore {
        form := form.(ignoreArchive := false);
      }
      ghost var w1 := ShowStatus(w.(buttons := w.buttons.(resume := false, download := false)), ResumingMessage);
      assert State() == w1.(form := w1.form.(ignoreArchive := false));
      var p := lastParams.value;
      BeginDownload(p.url, p.mode, p.root);
      if oldIgnore {
        form := form.(ignoreArchive := true);
      }
    }

    /** `_on_file_done` */
    method OnFileDone(filename: string)
      modifies this
      ensures State() == FileDone(old(State()), filename)
    {
      var at := if |recent| > 0 then 1 else 0;
      recent := InsertItem(recent, at, FileDoneText(filename));
      runStats := runStats.(completed := runStats.completed + 1);
    }

    /** `_on_skipped`: the new text goes on top, then the bottom item goes while there are more than ten. */
    method OnSkipped(msg: string)
      modifies this
      ensures State() == Skipped(old(State()), msg)
    {
      var text := Strip(msg);
      if text == "" {
        return;
      }
      var all := [text] + skipped;
      var items := DropOverflow(all, SkippedListCap);
      assert items == Take(all, SkippedListCap);
      skipped := items;
      runStats := runStats.(skipped := runStats.skipped + [ParseSkipMessage(text)]);
      assert State() == PushSkipped(old(State()), text);
    }

    /** `_show_summary_dialog`, with `logDir` the directory of the log file. */
    method ShowSummaryDialog(logDir: string)
      modifies this
      ensures State() == ShowSummary(old(State()), logDir)
    {
      if runStats.completed == 0 && |runStats.skipped| == 0 {
        return;
      }
      var path := if lastParams.Some? then SummaryArchivePath(lastParams.value.root) else SummaryArchivePathAsWritten(logDir);
      feedback := feedback.(dialogs := feedback.dialogs + [SummaryDialog(runStats.completed, runStats.skipped, path)]);
    }

    /** The part of `_on_finished` that marks the top item and reports the outcome. */
    method ReportOutcome(success: bool, message: string, logFile: Option<seq<string>>)
      requires |recent| > 0
      modifies this
      ensures State() == WindowModel.ReportOutcome(old(State()), success, message, logFile)
    {
      var base := ItemBase(recent[0]);
      recent := recent[1..];
      if success {
        AppendRecent(base, Success);
        feedback := feedback.(status := Some(DoneMessage));
      } else if IsCancellation(message) {
        AppendRecent(base, Failure);
        feedback := feedback.(status := Some(StoppedMessage));
      } else {
        AppendRecent(base, Failure);
        feedback := Feedback(Some(ErrorPrefix + message), message, feedback.dialogs + [ErrorDialog(message, logFile)]);
      }
    }

    /**
     * `_on_finished`, with `logFile` the lines of the log file when it exists
     * (what `_read_log_tail` reads) and `logDir` its directory.
     */
    method OnFinished(success: bool, message: string, logFile: Option<seq<string>>, logDir: string)
      modifies this
      ensures State() == Finished(old(State()), success, message, logFile, logDir)
    {
      if |recent| > 0 {
        ReportOutcome(success, message, logFile);
      }
      assert State() == Outcome(old(State()), success, message, logFile);
      progress := 0;
      worker := None;
      buttons := Buttons(true, false, lastParams.Some?);
      ShowSummaryDialog(logDir);
    }
  }
}
