/**
 * The main window's state and how each of its handlers changes it: starting
 * and resuming a download, the signals of a running worker (a saved file, a
 * skipped entry, the end of the run) and the summary shown afterwards.
 * Widgets are reduced to what the handlers read and write: the input form,
 * the two lists, the progress value, the enabled state of the three buttons,
 * the status line, the clipboard and the dialogs shown.
 */
module WindowModel {
  import opened Wrappers
  import opened Text
  import opened DownloadOptions
  import opened WindowText

  /** The id of the video radio button; any other choice means audio. */
  const VideoModeId: int := 1
  const SkippedListCap: nat := 10
  const LogTailLines: int := 60

  const StopFirstMessage := "Devam etmek için önce indirmeyi durdurun"
  const NothingToResumeMessage := "Devam edecek bir işlem bulunamadı"
  const ResumingMessage := "Devam başlatılıyor... (bitmişler atlanacak)"
  const DoneMessage := "Tamamlandı"
  const StoppedMessage := "Durduruldu"
  const ErrorPrefix := "Hata: "

  /**
   * What the user entered: the URL box, the checked mode button, the
   * resolution combo's data, the root box, the archive checkbox and the
   * cookie choices.
   */
  datatype Form = Form(
    url: string,
    modeId: int,
    maxResData: Option<int>,
    root: string,
    ignoreArchive: bool,
    cookiesPath: Option<string>,
    cookiesBrowser: Option<string>)

  /** Whether Download, Stop and Resume are enabled. */
  datatype Buttons = Buttons(download: bool, stop: bool, resume: bool)

  /** `_run_stats`: files saved and parsed skip messages of the current run. */
  datatype RunStats = RunStats(completed: nat, skipped: seq<SkipInfo>)

  /**
   * A dialog the window opened, by what it was built from: the error
   * message with the log file read for its tail, or the run's counts, skip
   * records and archive path.
   */
  datatype Dialog =
    | ErrorDialog(message: string, logFile: Option<seq<string>>)
    | SummaryDialog(completed: nat, skipped: seq<SkipInfo>, archivePath: string)

  /** The detailed text a dialog shows. */
  function DialogText(d: Dialog): (r: string)
    ensures d.ErrorDialog? ==> StartsWith(r, d.message)
    ensures d.ErrorDialog? && d.logFile.None? ==> r == d.message
    ensures d.SummaryDialog? && (d.completed > 0 || |d.skipped| > 0) ==> EndsWith(r, d.archivePath)
  {
    match d
    case ErrorDialog(message, logFile) => ErrorDetails(message, LogTail(logFile, LogTailLines))
    case SummaryDialog(completed, skipped, path) =>
      match SummaryText(completed, skipped, path)
      case Some(t) => t
      case None => ""
  }

  /** The last status-bar message, the clipboard and every dialog shown so far. */
  datatype Feedback = Feedback(status: Option<string>, clipboard: string, dialogs: seq<Dialog>)

  /** The snapshot `_begin_download` keeps so that a run can be resumed. */
  datatype Params = Params(
    url: string,
    mode: string,
    root: string,
    maxHeight: int,
    cookiesPath: Option<string>,
    cookiesBrowser: Option<string>,
    ignoreArchive: bool)

  /**
   * `recent` and `skipped` are the texts of the two list widgets, top first;
   * `worker` is the configuration of the worker the window holds, if any.
   */
  datatype Window = Window(
    form: Form,
    recent: seq<string>,
    skipped: seq<string>,
    progress: int,
    buttons: Buttons,
    worker: Option<Config>,
    lastParams: Option<Params>,
    stats: RunStats,
    feedback: Feedback)

  /** The combo box's value, or 1080 when it has none. */
  function SelectedMax(data: Option<int>): int {
    if data.Some? then data.value else DefaultMaxHeight
  }

  function ModeName(modeId: int): string {
    if modeId == VideoModeId then "mp4" else "mp3"
  }

  function ShowStatus(w: Window, message: string): Window {
    w.(feedback := w.feedback.(status := Some(message)))
  }

  /** `_append_recent`: the marked text goes on top; the list is never capped. */
  function AppendRecent(w: Window, text: string, status: ItemStatus): (r: Window)
    ensures |r.recent| == |w.recent| + 1
    ensures r.recent[0] == RecentText(text, status) && r.recent[1..] == w.recent
    ensures r.(recent := w.recent) == w
  {
    w.(recent := [RecentText(text, status)] + w.recent)
  }

  /**
   * `_begin_download`: snapshot the parameters, mark the URL as active, reset
   * progress and the run statistics, hand a new worker the snapshot, and
   * leave only the stop button enabled.
   */
  function Begin(w: Window, url: string, mode: string, root: string): (r: Window)
    ensures r.lastParams == Some(Params(url, mode, root, SelectedMax(w.form.maxResData),
                                        w.form.cookiesPath, w.form.cookiesBrowser, w.form.ignoreArchive))
    ensures r.worker.Some?
    ensures var p := r.lastParams.value;
      r.worker.value == WorkerConfig(p.url, p.mode, p.root, Some(p.maxHeight), p.cookiesPath, p.cookiesBrowser, p.ignoreArchive)
    ensures |r.recent| == |w.recent| + 1 && r.recent[0] == RecentText(url, Active) && r.recent[1..] == w.recent
    ensures r.progress == 0 && r.stats == RunStats(0, [])
    ensures r.buttons == Buttons(false, true, false)
    ensures r.form == w.form && r.skipped == w.skipped && r.feedback == w.feedback
  {
    var p := Params(url, mode, root, SelectedMax(w.form.maxResData), w.form.cookiesPath, w.form.cookiesBrowser, w.form.ignoreArchive);
    var w1 := AppendRecent(w.(lastParams := Some(p)), url, Active);
    w1.(progress := 0, stats := RunStats(0, []),
        worker := Some(WorkerConfig(url, mode, root, Some(p.maxHeight), p.cookiesPath, p.cookiesBrowser, p.ignoreArchive)),
        buttons := Buttons(false, true, false))
  }

  /** A worker is held and its thread is still running. */
  predicate Busy(w: Window, workerRunning: bool) {
    w.worker.Some? && workerRunning
  }

  /**
   * `_start_download`. A click while the worker runs changes nothing; a
   * rejected URL only shows its message; an accepted one begins a run with
   * the chosen mode and root. Anything beyond the status line changes only
   * for a URL with an http scheme that names YouTube, and the worker then
   * receives that URL stripped.
   */
  function Start(w: Window, workerRunning: bool): (r: Window)
    ensures Busy(w, workerRunning) ==> r == w
    ensures !Busy(w, workerRunning) && CheckUrl(w.form.url).Rejected? ==>
      r == ShowStatus(w, CheckUrl(w.form.url).message)
    ensures !Busy(w, workerRunning) && CheckUrl(w.form.url).Accepted? ==>
      r == Begin(w, Strip(w.form.url), ModeName(w.form.modeId), RootChoice(w.form.root))
    ensures r.(feedback := w.feedback) != w <==>
      !Busy(w, workerRunning) && IsHttp(Strip(w.form.url)) && NamesYouTube(Strip(w.form.url))
    ensures r.(feedback := w.feedback) != w ==>
      && r.worker.Some? && r.worker.value.url == Strip(w.form.url) && r.worker.value.rootDir != ""
      && r.recent[0] == RecentText(Strip(w.form.url), Active)
  {
    if Busy(w, workerRunning) then w
    else
      match CheckUrl(w.form.url)
      case Rejected(message) => ShowStatus(w, message)
      case Accepted(url) =>
        StripIdempotent(w.form.url);
        var r := Begin(w, url, ModeName(w.form.modeId), RootChoice(w.form.root));
        assert |r.recent| != |w.recent|;
        r
  }

  /**
   * `_resume_download`. It refuses while the worker runs or when no run
   * began before. Otherwise it disables both buttons, shows that it resumes,
   * unchecks the archive box for the duration of `Begin` (so the new worker
   * and the new snapshot use the archive and skip what is already done) and
   * then gives the box back its value.
   */
  function Resume(w: Window, workerRunning: bool): (r: Window)
    ensures Busy(w, workerRunning) ==> r == ShowStatus(w, StopFirstMessage)
    ensures !Busy(w, workerRunning) && w.lastParams.None? ==> r == ShowStatus(w, NothingToResumeMessage)
    ensures r.form == w.form
    ensures !Busy(w, workerRunning) && w.lastParams.Some? ==>
      var p := w.lastParams.value;
      && r.worker.Some? && !r.worker.value.ignoreArchive
      && r.lastParams.Some? && !r.lastParams.value.ignoreArchive
      && r.lastParams.value.url == p.url && r.lastParams.value.mode == p.mode && r.lastParams.value.root == p.root
      && r.worker.value == WorkerConfig(p.url, p.mode, p.root, Some(SelectedMax(w.form.maxResData)),
                                        w.form.cookiesPath, w.form.cookiesBrowser, false)
      && r.feedback.status == Some(ResumingMessage)
      && r.buttons == Buttons(false, true, false)
  {
    if Busy(w, workerRunning) then ShowStatus(w, StopFirstMessage)
    else if w.lastParams.None? then ShowStatus(w, NothingToResumeMessage)
    else
      var p := w.lastParams.value;
      var w1 := ShowStatus(w.(buttons := w.buttons.(resume := false, download := false)), ResumingMessage);
      var r := Begin(w1.(form := w1.form.(ignoreArchive := false)), p.url, p.mode, p.root);
      r.(form := r.form.(ignoreArchive := w.form.ignoreArchive))
  }

  /** `QListWidget.insertItem(index, text)`: the new item lands at `index`, and the ones from there on move down. */
  function InsertItem(items: seq<string>, index: nat, text: string): (r: seq<string>)
    requires index <= |items|
    ensures |r| == |items| + 1 && r[index] == text
    ensures r[..index] == items[..index] && r[index + 1..] == items[index..]
  {
    items[..index] + [text] + items[index..]
  }

  /**
   * `_on_file_done`: the saved file's name goes just under the active item
   * (on top when the list is empty) and one more file counts as completed.
   */
  function FileDone(w: Window, filename: string): (r: Window)
    ensures r.stats == w.stats.(completed := w.stats.completed + 1)
    ensures |r.recent| == |w.recent| + 1
    ensures |w.recent| > 0 ==>
      r.recent[0] == w.recent[0] && r.recent[1] == FileDoneText(filename) && r.recent[2..] == w.recent[1..]
    ensures |w.recent| == 0 ==> r.recent == [FileDoneText(filename)]
    ensures r.(recent := w.recent, stats := w.stats) == w
  {
    var recent := InsertItem(w.recent, if |w.recent| > 0 then 1 else 0, FileDoneText(filename));
    assert |w.recent| > 0 ==> recent[2..] == recent[1 + 1..];
    w.(recent := recent, stats := w.stats.(completed := w.stats.completed + 1))
  }

  /** The first `n` items, or all of them when there are fewer. */
  function Take<T>(xs: seq<T>, n: nat): (r: seq<T>)
    ensures |r| == if |xs| <= n then |xs| else n
    ensures r == xs[..|r|]
  {
    if |xs| <= n then xs else xs[..n]
  }

  /**
   * `_on_skipped`: a blank message changes nothing; otherwise its stripped
   * text goes on top of the skipped list, the list keeps its first ten items,
   * and the parsed message joins the statistics, which are never capped.
   */
  function Skipped(w: Window, msg: string): (r: Window)
    ensures AllSpace(msg) ==> r == w
    ensures !AllSpace(msg) ==>
      && |r.skipped| == (if |w.skipped| < SkippedListCap then |w.skipped| + 1 else SkippedListCap)
      && r.skipped[0] == Strip(msg)
      && r.skipped[1..] == w.skipped[..|r.skipped| - 1]
      && r.stats == w.stats.(skipped := w.stats.skipped + [ParseSkipMessage(Strip(msg))])
    ensures r.(skipped := w.skipped, stats := w.stats) == w
  {
    StripEmptyIffAllSpace(msg);
    if Strip(msg) == "" then w else PushSkipped(w, Strip(msg))
  }

  /** A non-blank skip text on top of the capped list, and its parsed form in the statistics. */
  function PushSkipped(w: Window, text: string): (r: Window)
    ensures |r.skipped| == (if |w.skipped| < SkippedListCap then |w.skipped| + 1 else SkippedListCap)
    ensures r.skipped[0] == text && r.skipped[1..] == w.skipped[..|r.skipped| - 1]
    ensures r.stats == w.stats.(skipped := w.stats.skipped + [ParseSkipMessage(text)])
    ensures r.(skipped := w.skipped, stats := w.stats) == w
  {
    var items := Take([text] + w.skipped, SkippedListCap);
    assert items[1..] == w.skipped[..|items| - 1];
    w.(skipped := items, stats := w.stats.(skipped := w.stats.skipped + [ParseSkipMessage(text)]))
  }

  /** The archive path the summary names: the run's own archive file. */
  function ArchiveShown(w: Window, logDir: string): string {
    if w.lastParams.Some? then SummaryArchivePath(w.lastParams.value.root) else SummaryArchivePathAsWritten(logDir)
  }

  /** The top item re-added with the mark of the outcome, and the status line and error dialog. */
  function ReportOutcome(w: Window, success: bool, message: string, logFile: Option<seq<string>>): (r: Window)
    requires |w.recent| > 0
    ensures |r.recent| == |w.recent|
    ensures r.recent[0] == RecentText(ItemBase(w.recent[0]), if success then Success else Failure)
    ensures r.recent[1..] == w.recent[1..]
    ensures success ==> r.feedback == w.feedback.(status := Some(DoneMessage))
    ensures !success && IsCancellation(message) ==> r.feedback == w.feedback.(status := Some(StoppedMessage))
    ensures !success && !IsCancellation(message) ==>
      r.feedback == Feedback(Some(ErrorPrefix + message), message,
                             w.feedback.dialogs + [ErrorDialog(message, logFile)])
    ensures r.(recent := w.recent, feedback := w.feedback) == w
  {
    var w1 := AppendRecent(w.(recent := w.recent[1..]), ItemBase(w.recent[0]), if success then Success else Failure);
    var feedback :=
      if success then w.feedback.(status := Some(DoneMessage))
      else if IsCancellation(message) then w.feedback.(status := Some(StoppedMessage))
      else Feedback(Some(ErrorPrefix + message), message, w.feedback.dialogs + [ErrorDialog(message, logFile)]);
    w1.(feedback := feedback)
  }

  /** The outcome reported on the top item, when the recent list has one. */
  function Outcome(w: Window, success: bool, message: string, logFile: Option<seq<string>>): (r: Window)
    ensures r.form == w.form && r.lastParams == w.lastParams && r.stats == w.stats && r.skipped == w.skipped
    ensures r.worker == w.worker && r.progress == w.progress && r.buttons == w.buttons
    ensures |r.recent| == |w.recent|
    ensures |w.recent| > 0 ==>
      r.recent[0] == RecentText(ItemBase(w.recent[0]), if success then Success else Failure) && r.recent[1..] == w.recent[1..]
    ensures |w.recent| == 0 || success || IsCancellation(message) ==> r.feedback.dialogs == w.feedback.dialogs
    ensures |w.recent| > 0 && !success && !IsCancellation(message) ==>
      r.feedback.dialogs == w.feedback.dialogs + [ErrorDialog(message, logFile)]
  {
    if |w.recent| > 0 then ReportOutcome(w, success, message, logFile) else w
  }

  /** `_show_summary_dialog`: a summary dialog when the run completed or skipped something. */
  function ShowSummary(w: Window, logDir: string): (r: Window)
    ensures r.(feedback := w.feedback) == w && r.feedback.(dialogs := w.feedback.dialogs) == w.feedback
    ensures (w.stats.completed == 0 && |w.stats.skipped| == 0) ==> r.feedback.dialogs == w.feedback.dialogs
    ensures (w.stats.completed > 0 || |w.stats.skipped| > 0) ==>
      r.feedback.dialogs == w.feedback.dialogs +
        [SummaryDialog(w.stats.completed, w.stats.skipped, ArchiveShown(w, logDir))]
  {
    if w.stats.completed == 0 && |w.stats.skipped| == 0 then w
    else
      var d := SummaryDialog(w.stats.completed, w.stats.skipped, ArchiveShown(w, logDir));
      w.(feedback := w.feedback.(dialogs := w.feedback.dialogs + [d]))
  }

  /** The end of a run: no worker, no progress, Download on, Stop off, Resume when there is something to resume. */
  function Settle(w: Window): (r: Window)
    ensures r.worker.None? && r.progress == 0
    ensures r.buttons == Buttons(true, false, w.lastParams.Some?)
    ensures r.(worker := w.worker, progress := w.progress, buttons := w.buttons) == w
  {
    w.(progress := 0, worker := None, buttons := Buttons(true, false, w.lastParams.Some?))
  }

  /**
   * `_on_finished`: report the outcome on the top item (when the list has
   * one), drop the worker, enable Download, disable Stop, enable Resume
   * exactly when a run can be resumed, and show the summary. Only a failure
   * that is not a cancellation opens an error dialog, and the summary comes
   * last exactly when the run saved or skipped something.
   */
  function Finished(w: Window, success: bool, message: string, logFile: Option<seq<string>>, logDir: string): (r: Window)
    ensures r.worker.None? && r.progress == 0
    ensures r.buttons == Buttons(true, false, w.lastParams.Some?)
    ensures r.form == w.form && r.lastParams == w.lastParams && r.stats == w.stats && r.skipped == w.skipped
    ensures |r.recent| == |w.recent|
    ensures |w.recent| > 0 ==>
      r.recent[0] == RecentText(ItemBase(w.recent[0]), if success then Success else Failure) && r.recent[1..] == w.recent[1..]
  {
    ShowSummary(Settle(Outcome(w, success, message, logFile)), logDir)
  }

  /** A finished run keeps the dialogs shown before and adds at most two. */
  lemma FinishedKeepsDialogs(w: Window, success: bool, message: string, logFile: Option<seq<string>>, logDir: string)
    ensures var r := Finished(w, success, message, logFile, logDir);
      |w.feedback.dialogs| <= |r.feedback.dialogs| <= |w.feedback.dialogs| + 2
      && r.feedback.dialogs[..|w.feedback.dialogs|] == w.feedback.dialogs
  {
    var w1 := Outcome(w, success, message, logFile);
    var before := w.feedback.dialogs;
    var mid := w1.feedback.dialogs;
    var r := ShowSummary(Settle(w1), logDir);
    assert r.feedback.dialogs[..|mid|] == mid;
    assert mid[..|before|] == before;
  }

  /** The run saved or skipped something, so the summary has content. */
  predicate HasSummary(stats: RunStats) {
    stats.completed > 0 || |stats.skipped| > 0
  }

  /** `ShowSummary` adds the summary last exactly when there is one, on a window whose new dialogs end with an error dialog. */
  lemma ShowSummaryLast(w: Window, logDir: string, n: nat)
    requires n <= |w.feedback.dialogs|
    requires |w.feedback.dialogs| > n ==> w.feedback.dialogs[|w.feedback.dialogs| - 1].ErrorDialog?
    ensures var ds := ShowSummary(w, logDir).feedback.dialogs;
      && (HasSummary(w.stats) <==> |ds| > n && ds[|ds| - 1].SummaryDialog?)
      && (HasSummary(w.stats) ==> ds[|ds| - 1] == SummaryDialog(w.stats.completed, w.stats.skipped, ArchiveShown(w, logDir)))
  {
  }

  /** The summary is the last dialog of a finished run exactly when the run saved or skipped something. */
  lemma FinishedSummary(w: Window, success: bool, message: string, logFile: Option<seq<string>>, logDir: string)
    ensures var r := Finished(w, success, message, logFile, logDir);
      var ds := r.feedback.dialogs;
      && (HasSummary(w.stats) <==> |ds| > |w.feedback.dialogs| && ds[|ds| - 1].SummaryDialog?)
      && (HasSummary(w.stats) ==> ds[|ds| - 1] == SummaryDialog(w.stats.completed, w.stats.skipped, ArchiveShown(w, logDir)))
  {
    var w2 := Settle(Outcome(w, success, message, logFile));
    assert w2.stats == w.stats && ArchiveShown(w2, logDir) == ArchiveShown(w, logDir);
    ShowSummaryLast(w2, logDir, |w.feedback.dialogs|);
    assert Finished(w, success, message, logFile, logDir) == ShowSummary(w2, logDir);
  }

  /** The run failed for a reason other than a cancellation, with an item on the recent list. */
  predicate ReportsError(w: Window, success: bool, message: string) {
    |w.recent| > 0 && !success && !IsCancellation(message)
  }

  /**
   * A finished run opens the error dialog, with the message and the log
   * tail, right after the earlier dialogs exactly when it reports an error.
   */
  lemma FinishedErrorDialog(w: Window, success: bool, message: string, logFile: Option<seq<string>>, logDir: string)
    ensures var r := Finished(w, success, message, logFile, logDir);
      var ds := r.feedback.dialogs;
      var n := |w.feedback.dialogs|;
      && (ReportsError(w, success, message) <==> |ds| > n && ds[n].ErrorDialog?)
      && (ReportsError(w, success, message) ==> ds[n] == ErrorDialog(message, logFile))
  {
    var w1 := Outcome(w, success, message, logFile);
    var w2 := Settle(w1);
    var n := |w.feedback.dialogs|;
    var r := ShowSummary(w2, logDir);
    assert r.feedback.dialogs[..|w2.feedback.dialogs|] == w2.feedback.dialogs;
    if ReportsError(w, success, message) {
      assert r.feedback.dialogs[n] == w2.feedback.dialogs[n];
    }
  }

  /**
   * The item a run puts on top comes back, at the end of that run, as the
   * accepted URL with the outcome's mark instead of the active one.
   */
  lemma StartThenFinishedMarksUrl(w: Window, success: bool, message: string, logFile: Option<seq<string>>, logDir: string)
    requires !Busy(w, true) && CheckUrl(w.form.url).Accepted?
    ensures var r := Finished(Start(w, true), success, message, logFile, logDir);
      r.recent[0] == RecentText(Strip(w.form.url), if success then Success else Failure)
      && r.recent[1..] == w.recent
  {
    AcceptedUrlRoundTrip(w.form.url, Active);
  }

  /**
   * After any run has finished, Resume starts a worker on the last run's URL,
   * mode and root with the archive in use, whatever the checkbox says.
   */
  lemma ResumeAfterFinished(w: Window, success: bool, message: string, logFile: Option<seq<string>>, logDir: string,
                            workerRunning: bool)
    requires w.lastParams.Some?
    ensures var f := Finished(w, success, message, logFile, logDir);
      var r := Resume(f, workerRunning);
      var p := w.lastParams.value;
      && f.buttons.resume
      && r.worker == Some(WorkerConfig(p.url, p.mode, p.root, Some(SelectedMax(w.form.maxResData)),
                                       w.form.cookiesPath, w.form.cookiesBrowser, false))
      && r.form.ignoreArchive == w.form.ignoreArchive
  {
    var f := Finished(w, success, message, logFile, logDir);
    assert !Busy(f, workerRunning);
  }
}
