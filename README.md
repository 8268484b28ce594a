# MyVideoDownload: a verified model of the download worker and the main window

MyVideoDownload is a desktop front end for an external video-download engine
(yt-dlp). This project models its two layers of decision logic in Dafny and
proves what they promise.

- **The download worker** (`DownloadWorker` in `downloader.py`):
  - how it builds the engine's options: the clamped height bound, the ordered
    list of format alternatives, and the archive, cookie and mode keys;
  - its progress hook, with the stop flag and the "saw a download" flag;
  - the temporary log handler that forwards skip reasons;
  - the `run` ladder: main attempt, archive check, the single fallback
    attempt for access-restricted errors, cancellation, and the `finally`
    that detaches the handler;
  - the ffmpeg search order.
- **The main window** (`MainWindow` in `ui.py`):
  - URL validation;
  - the recent list with glyph prefixes;
  - the capped skipped list;
  - the skip-message parser and its reason normaliser;
  - the run statistics;
  - resume, which forces archive use and then restores the checkbox;
  - the state reset after a run, the error dialog with the log tail, and the
    summary dialog.

The model has three layers.

1. **Pure specifications.** Modules `DownloadOptions`, `WorkerModel`,
   `WindowText` and `WindowModel` state each operation as a function of the
   state.
2. **Classes.** The code that mutates fields becomes two classes, each
   method proved equal to its specification function:
   - `Downloader.DownloadWorker`;
   - `Ui.MainWindow`.
3. **Scenarios.** `WorkerScenarios` holds concrete runs of the worker.

How the outside world is modelled:

- **The engine is an oracle.** One `ydl.download` call is an `EngineRun`:
  - a sequence of steps: hook calls, records the engine logs, and stop
    requests from the window;
  - then a normal return or a raised error text.
- **Signals** are an appended event log.
- **File system and environment** answers are inputs:
  - `Env` holds the result of `os.makedirs`, whether the cookie file
    exists, whether the archive exists, and the detected ffmpeg directory;
  - the log file is given as its lines, or `None` when missing;
  - `isRunning()` of the worker is a boolean input.

## Model

| member | source | states |
|---|---|---|
| DownloadOptions.HeightBound | MyVideoDownload/myvideodownload/downloader.py:127 | The bound lies in [144, 2160]. A missing or zero height becomes 1080. Other heights are clamped to that range. |
| DownloadOptions.BuildFormatList | MyVideoDownload/myvideodownload/downloader.py:131-147 | The appending loop over the rungs 720, 480, 360 produces exactly the rendered `FormatAlternatives(mh)`. |
| DownloadOptions.RungsOfFallbacks | MyVideoDownload/myvideodownload/downloader.py:137-140 | The rung section is the pair for 720, then 480, then 360, each only when strictly below the bound. |
| DownloadOptions.FormatListShape | MyVideoDownload/myvideodownload/downloader.py:131-147 | The list has 5 + 2·\|{f ∈ {720,480,360} : f < mh}\| entries. It starts with the two exact-height entries for the bound and ends with the two `height<=` entries and the best-effort default. |
| DownloadOptions.FormatHeightsBounded | MyVideoDownload/myvideodownload/downloader.py:131-147 | No alternative names a height above the bound. |
| DownloadOptions.FallbackRungsOrdered | MyVideoDownload/myvideodownload/downloader.py:136-140 | The middle section holds H.264/any-codec pairs. Every pair is for a standard rung strictly below the bound, every such rung is present, and heights strictly descend. |
| DownloadOptions.VideoFormatEndsWithBestEffort | MyVideoDownload/myvideodownload/downloader.py:133-149 | The joined expression starts with `bestvideo[height=<mh>]` and ends with `bestvideo+bestaudio/best`. |
| DownloadOptions.AudioIsNotVideo | MyVideoDownload/myvideodownload/downloader.py:201-204 | The audio request `bestaudio/best` differs from every video expression. |
| DownloadOptions.ArchiveOption | MyVideoDownload/myvideodownload/downloader.py:190-191 | `download_archive` is present exactly when the archive is not ignored. It then names `.download-archive.txt` under the root. |
| DownloadOptions.CookieOptions | MyVideoDownload/myvideodownload/downloader.py:194-197 | The two cookie keys are never both set. The cookie file is used exactly when its path is non-empty and exists. The browser name is used only otherwise. |
| DownloadOptions.FormatOptions | MyVideoDownload/myvideodownload/downloader.py:201-211 | Mode "mp4" uses the joined video expression and no post-processing. Any other mode uses `bestaudio/best` and a single MP3 extraction step at 320. |
| DownloadOptions.BuildOpts | MyVideoDownload/myvideodownload/downloader.py:113-212 | Building fails exactly when the root cannot be created, with that error's text. Otherwise archive, cookie and format keys follow the rules above. `ffmpeg_location` is the detected directory when there is one and absent otherwise, and `autonumber_start` is 1. |
| DownloadOptions.FallbackOpts | MyVideoDownload/myvideodownload/downloader.py:307-309 | The fallback options equal the originals except the player client is `["ios"]` and the HTTP chunk size is 0. |
| DownloadOptions.DetectFfmpeg | MyVideoDownload/myvideodownload/downloader.py:105-111 | A hit on the search path wins. Otherwise the result is the absolute form of the first candidate holding a binary. `None` means no candidate holds one. |
| WorkerModel.EnsureLogging | MyVideoDownload/myvideodownload/downloader.py:66-71 | The logger ends with a file handler for the log path. One is added only when none was there. |
| Downloader.DownloadWorker.constructor | MyVideoDownload/myvideodownload/downloader.py:21-44 | The URL is stored stripped and the rest as given. No stop, no download seen, no forwarder, no signals, and the log file handler ensured. |
| WorkerModel.Log | MyVideoDownload/myvideodownload/downloader.py:218-227 | A record below INFO is dropped. Otherwise it is appended to the log, and a `skipped` signal is emitted exactly when the forwarder is attached and the record is an ERROR naming a skip phrase. Nothing else changes. |
| Downloader.DownloadWorker.WriteLog | MyVideoDownload/myvideodownload/downloader.py:218-227 | Changes the worker exactly as `WorkerModel.Log`. |
| WorkerModel.Stop | MyVideoDownload/myvideodownload/downloader.py:46-51 | Sets the stop flag and only logs. Signals, handlers, attempts and the download flag are unchanged. |
| Downloader.DownloadWorker.Stop | MyVideoDownload/myvideodownload/downloader.py:46-51 | Changes the worker exactly as `WorkerModel.Stop`. |
| WorkerModel.Hook | MyVideoDownload/myvideodownload/downloader.py:240-265 | The hook raises exactly when a stop was requested, and then changes nothing. "downloading" and "finished" set the download flag. "finished" emits progress 100, plus `file_done` only with a filename. Any other status changes nothing. Only the flag, signals and log can change. |
| Downloader.DownloadWorker.Hook | MyVideoDownload/myvideodownload/downloader.py:240-265 | Changes the worker, and raises, exactly as `WorkerModel.Hook`. |
| WorkerModel.Attempt | MyVideoDownload/myvideodownload/downloader.py:274-275 | One engine call never emits `finished` and never touches the handlers or the attempt list. It never clears the stop or download flag, only appends to the log, and ends interrupted only with the stop flag set. |
| WorkerModel.Step | MyVideoDownload/myvideodownload/downloader.py:274-275 | One engine step emits at most progress, file or skip signals and never `finished`. It leaves handlers and attempts alone, never clears a flag, and raises only from a hook call with the stop flag set. |
| Downloader.DownloadWorker.Download | MyVideoDownload/myvideodownload/downloader.py:274-275 | The loop over the engine's steps ends in the state and outcome `WorkerModel.Attempt` gives. |
| WorkerModel.AttemptAfterStop | MyVideoDownload/myvideodownload/downloader.py:241-242 | After a stop, only skip reasons can be emitted and the download flag is frozen. The attempt is interrupted exactly when a hook call is still to come. |
| WorkerModel.AttachTempHandler | MyVideoDownload/myvideodownload/downloader.py:214-230 | Attaching is idempotent: the forwarder ends on the logger exactly once, and nothing else changes. |
| Downloader.DownloadWorker.AttachTempLogHandler | MyVideoDownload/myvideodownload/downloader.py:214-230 | Changes the worker exactly as `WorkerModel.AttachTempHandler` and keeps the handler invariant. |
| WorkerModel.DetachTempHandler | MyVideoDownload/myvideodownload/downloader.py:232-238 | The forwarder is removed and `_temp_handler` cleared. The other handlers keep their multiset. |
| Downloader.DownloadWorker.DetachTempLogHandler | MyVideoDownload/myvideodownload/downloader.py:232-238 | Changes the worker exactly as `WorkerModel.DetachTempHandler` and keeps the handler invariant. |
| WorkerModel.RemoveFirst | MyVideoDownload/myvideodownload/downloader.py:235 | `removeHandler` drops one occurrence of the handler, if present. |
| WorkerModel.Started | MyVideoDownload/myvideodownload/downloader.py:268-269 | The start line is logged and the forwarder attached. Flags, signals and attempts are unchanged. |
| WorkerModel.Conclude | MyVideoDownload/myvideodownload/downloader.py:277-290 | After a normal return, the run fails with the no-media text exactly when no download was seen, no stop was requested and no archive in use exists. A success carries the root. A direct failure carries the cancellation text. |
| WorkerModel.MainAttempt | MyVideoDownload/myvideodownload/downloader.py:272-290 | A build error fails with its text and records nothing. Otherwise the attempt with the built options is recorded once. Success needs no stop and carries the root. |
| Downloader.DownloadWorker.MainTry | MyVideoDownload/myvideodownload/downloader.py:272-290 | Ends in the state and outcome `WorkerModel.MainAttempt` gives. |
| WorkerModel.FallbackAttempt | MyVideoDownload/myvideodownload/downloader.py:305-318 | One more attempt with `FallbackOpts` of the built options. A build error never recovers. An engine run that is interrupted cancels the fallback, one that raises does not recover, and one that returns recovers exactly when a download has been seen. |
| Downloader.DownloadWorker.FallbackTry | MyVideoDownload/myvideodownload/downloader.py:305-318 | Ends in the state and outcome `WorkerModel.FallbackAttempt` gives. |
| WorkerModel.Recover | MyVideoDownload/myvideodownload/downloader.py:295-320 | The fallback is tried exactly when no stop was requested and the error names an access restriction. A stop reports the cancellation. With no stop, an unrestricted error finishes with `(false, msg)` word for word. On the restricted path a recovered fallback finishes with `(true, root)`, one that did not recover with `(false, msg)`, and the interrupt escapes exactly when the fallback was cancelled. |
| Downloader.DownloadWorker.HandleFailure | MyVideoDownload/myvideodownload/downloader.py:295-320 | Ends in the state and outcome `WorkerModel.Recover` gives. |
| WorkerModel.Ladder | MyVideoDownload/myvideodownload/downloader.py:271-320 | Unless the interrupt escapes, exactly one `finished` is emitted, as the last signal. At most two attempts are made. Success carries the root with a download seen or an archive in use. Failure carries the cancellation or the main attempt's error; `WorkerModel.LadderOutcome` says which. |
| WorkerModel.Run | MyVideoDownload/myvideodownload/downloader.py:267-322 | As `Ladder`. In addition, the forwarder is always detached, with only it removed. A worker stopped beforehand reports the cancellation last. |
| WorkerModel.LadderOutcome | MyVideoDownload/myvideodownload/downloader.py:271-320 | The ladder's last signal, by how the main attempt ended: its own report; the cancellation after an interrupt, or after an error once a stop was requested; `(false, msg)` for an unrestricted error; and on the restricted path `(true, root)` or `(false, msg)` as the fallback recovered or not. |
| WorkerModel.RunOutcome | MyVideoDownload/myvideodownload/downloader.py:267-322 | The same outcome for the whole `run`. |
| Downloader.DownloadWorker.Run | MyVideoDownload/myvideodownload/downloader.py:267-322 | Ends in the state `WorkerModel.Run` gives, and keeps the handler invariant. |
| WorkerModel.LadderAttempts | MyVideoDownload/myvideodownload/downloader.py:303-312 | A second attempt happens exactly when the main attempt raised, the options were built, no stop was requested and the error names an access restriction. It then uses the first attempt's options with the iOS client and no chunking. |
| WorkerModel.RunAttempts | MyVideoDownload/myvideodownload/downloader.py:303-312 | The same retry rule for the whole `run`. |
| WorkerModel.NoMediaIsNotRestricted | MyVideoDownload/myvideodownload/downloader.py:304 | The no-media text contains none of the retry phrases. |
| WorkerModel.RunNoMedia | MyVideoDownload/myvideodownload/downloader.py:277-284 | A run returning with no download and no stop makes exactly one attempt. It finishes with success and the root when the archive exists and is in use, and with the no-media failure otherwise. |
| WorkerModel.RunAfterStop | MyVideoDownload/myvideodownload/downloader.py:292-301 | A worker stopped before `run` emits only skip reasons, then the cancellation. It makes no second attempt and leaves the download flag unchanged. |
| WorkerScenarios.RequestBuilds | MyVideoDownload/myvideodownload/downloader.py:113-114 | The scenario request builds its options. |
| WorkerScenarios.ForbiddenIsRestricted | MyVideoDownload/myvideodownload/downloader.py:304 | "HTTP Error 403: Forbidden" is an access restriction. Once logged as the main attempt's error, it is also a skip phrase. |
| WorkerScenarios.SingleVideoScenario | MyVideoDownload/myvideodownload/downloader.py:267-290 | One item downloaded from youtu.be/abc123 at 720p gives, in order: progress 50, progress 100, one `file_done`, then `finished(true, root)`. One attempt is made and the forwarder is gone. |
| WorkerScenarios.ForbiddenThenFallbackScenario | MyVideoDownload/myvideodownload/downloader.py:295-316 | A main attempt refused with HTTP 403 emits one skip reason. The fallback is logged, the item's signals follow, and the run ends in `finished(true, root)`. The attempts are the built options, then the same with the iOS client and no chunking. |
| Text.StripIsTrimmedSlice | MyVideoDownload/myvideodownload/downloader.py:33 | `strip()` keeps one contiguous piece of its input that neither starts nor ends with whitespace, and drops only whitespace. |
| Text.StripIdempotent | MyVideoDownload/myvideodownload/ui.py:267 | Stripping twice is stripping once. |
| Text.StripEmptyIffAllSpace | MyVideoDownload/myvideodownload/ui.py:421-423 | A message strips to nothing exactly when it is all whitespace. |
| Text.Basename | MyVideoDownload/myvideodownload/ui.py:363 | `ntpath.basename`: a drive letter is split off first, and the result is the separator-free suffix after the last separator (or after the drive). |
| Text.PathJoin | MyVideoDownload/myvideodownload/downloader.py:117-121 | `os.path.join(dir, name)` starts with `dir` and ends with `name`. Exactly one backslash goes between them, unless `dir` is empty, ends with a separator, or is a bare drive such as `C:`, when nothing does. |
| Text.BasenameOfJoin | MyVideoDownload/myvideodownload/ui.py:493 | Joining a directory and a plain file name and then taking the base name gives the file name back. |
| Text.LStripChars | MyVideoDownload/myvideodownload/ui.py:378 | `lstrip(chars)` drops exactly the leading characters in the set: the rest is a suffix that does not start with one. |
| Text.Lower | MyVideoDownload/myvideodownload/ui.py:272 | Lower-casing maps each character on its own and keeps the length. |
| Text.NatToString | MyVideoDownload/myvideodownload/downloader.py:133 | The decimal rendering is a non-empty string of digits; `Text.NatToStringValue` states the number they denote. |
| Text.NatToStringValue | MyVideoDownload/myvideodownload/downloader.py:133 | The digits denote `n`, read most significant first, and only the rendering of 0 starts with a zero. |
| Text.NatToStringInjective | MyVideoDownload/myvideodownload/ui.py:482-483 | Different numbers render differently. |
| WindowText.CheckUrl | MyVideoDownload/myvideodownload/ui.py:264-282 | A URL is accepted exactly when its stripped form has an http(s) scheme and its lower-cased form names `youtube.com/` or `youtu.be/`. The accepted URL is the stripped text. Each rejection carries the scheme message or the YouTube message. |
| WindowText.HttpUrlStartsWithH | MyVideoDownload/myvideodownload/ui.py:272-282 | An http(s) URL is non-empty and does not start with `error:`. So those two checks never fire. |
| WindowText.RootChoice | MyVideoDownload/myvideodownload/ui.py:284 | The root is the stripped box text when that is non-empty, and `DEFAULT_ROOT` when it is empty. It is never empty. |
| WindowText.RecentText | MyVideoDownload/myvideodownload/ui.py:240-253 | A pending item is the text alone. Any other item is its status's mark, a space, then the text. |
| WindowText.StatusMark | MyVideoDownload/myvideodownload/ui.py:240-253 | Success, error and active items get "✓", "✗" and "▶". Each is a glyph `lstrip` removes, and none is a space. |
| WindowText.ItemBase | MyVideoDownload/myvideodownload/ui.py:378 | The base is a suffix of the item text. Everything dropped before it is a glyph or a space, and the base does not start with one. |
| WindowText.ItemBaseRoundTrip | MyVideoDownload/myvideodownload/ui.py:376-380 | A text that does not begin with a glyph or a space comes back unchanged from its marked item. |
| WindowText.ItemBaseIgnoresMark | MyVideoDownload/myvideodownload/ui.py:378 | Stripping the glyphs gives the same base whatever mark the item was given. |
| WindowText.AcceptedUrlRoundTrip | MyVideoDownload/myvideodownload/ui.py:378 | An accepted URL comes back unchanged from its marked item. |
| WindowText.FileDoneText | MyVideoDownload/myvideodownload/ui.py:363-364 | A saved file's line is "✓ " followed by the file's base name and nothing else: its length is two more than the base name's. |
| WindowText.FileDoneTextBase | MyVideoDownload/myvideodownload/ui.py:364 | Stripping the glyphs from that line gives back the base name, less any leading glyphs. |
| WindowText.MatchAt | MyVideoDownload/myvideodownload/ui.py:453 | A match at `i` has the tag, a non-empty whitespace run, an id of six or more id characters, and a colon or space. The tail starts after the longest following whitespace run and ends at the next line break or at the end. |
| WindowText.MatchAtComplete | MyVideoDownload/myvideodownload/ui.py:453 | Whenever the head of the pattern matches at `i`, however its runs are split, `MatchAt` finds a match there with that same id. |
| WindowText.SearchIsLeftmost | MyVideoDownload/myvideodownload/ui.py:453 | The search returns the match at the leftmost position that has one, or nothing when no position has a match. |
| WindowText.SearchNoneIffNoHead | MyVideoDownload/myvideodownload/ui.py:453-455 | The search finds nothing exactly when the head of the pattern matches nowhere in the text. |
| WindowText.NormalizeReason | MyVideoDownload/myvideodownload/ui.py:458-469 | The first phrase found in the lower-cased reason decides the label, in this order: "private", "members only", "no video formats" or "no formats", "http error 403", "unavailable". A reason with none of them is kept as it is. |
| WindowText.NormalizeIdempotent | MyVideoDownload/myvideodownload/ui.py:458-469 | Normalising twice gives the same label as normalising once. |
| WindowText.ParseSkipMessage | MyVideoDownload/myvideodownload/ui.py:448-472 | `raw` is the input. `id` is "?" exactly when the pattern does not match; otherwise it is the matched id. The reason is the normalised tail, or the normalised whole text when the tail is empty or there is no match. |
| WindowText.ParseTaggedMessage | MyVideoDownload/myvideodownload/ui.py:448-470 | A message of the form `<prefix>[youtube] <id>: <reason>` yields that id and the normalised reason. |
| WindowText.CancellationRecognised | MyVideoDownload/myvideodownload/ui.py:383 | The worker's cancel message counts as a stop, and its no-media message does not. |
| WindowText.ErrorDetails | MyVideoDownload/myvideodownload/ui.py:402-404 | The details start with the message. The log section and tail follow only when there is a tail. |
| WindowText.LastItems | MyVideoDownload/myvideodownload/ui.py:442 | Python's `xs[-n:]`: the last n items, all of them for n = 0, and a shortened list for negative n. |
| WindowText.LogTail | MyVideoDownload/myvideodownload/ui.py:433-445 | A missing file gives "". Otherwise the result is the last 60 (at most) lines joined and stripped, and it is already stripped. |
| WindowText.SummaryLines | MyVideoDownload/myvideodownload/ui.py:476-495 | There is no summary when nothing was completed or skipped. Otherwise: the two counts; a heading and at most the first ten skips, when there are any; then the archive line. |
| WindowText.SummaryText | MyVideoDownload/myvideodownload/ui.py:502 | The detail text starts with the completed count and ends with the archive path. |
| WindowText.SummaryArchivePathAsWritten | MyVideoDownload/myvideodownload/ui.py:493 | The path printed as written starts with the log directory and ends with `download_archive.txt`, with at most one separator between them. |
| WindowText.SummaryArchiveInLogDir | MyVideoDownload/myvideodownload/ui.py:493 | That path names a file directly inside the log directory. |
| WindowText.SummaryArchiveIsNotTheArchive | MyVideoDownload/myvideodownload/ui.py:493 | That path differs from the worker's archive for every log directory and every root. |
| WindowText.SummaryArchivePath | MyVideoDownload/myvideodownload/ui.py:493 | The corrected path is exactly the `download_archive` option of any run on that root that uses the archive. |
| WindowModel.DialogText | MyVideoDownload/myvideodownload/ui.py:395-406 | An error dialog's details start with the message and are the message alone without a log file. A summary's details end with the archive path. |
| WindowModel.AppendRecent | MyVideoDownload/myvideodownload/ui.py:240-255 | The marked text goes on top. The rest of the list follows unchanged and uncapped. |
| Ui.MainWindow.AppendRecent | MyVideoDownload/myvideodownload/ui.py:240-255 | Changes the window exactly as `WindowModel.AppendRecent`. |
| WindowModel.Begin | MyVideoDownload/myvideodownload/ui.py:288-319 | Snapshots the parameters, with the combo defaulting to 1080. The active URL goes on top, and progress and the statistics are reset. The new worker gets the snapshot, and only Stop is enabled. Form, skipped list and feedback are unchanged. |
| Ui.MainWindow.BeginDownload | MyVideoDownload/myvideodownload/ui.py:288-319 | Changes the window exactly as `WindowModel.Begin`. |
| WindowModel.Start | MyVideoDownload/myvideodownload/ui.py:264-286 | A click while a worker runs changes nothing. Anything besides the status line changes exactly when the stripped URL passes the scheme and YouTube checks, and the worker then gets that URL and a non-empty root. |
| Ui.MainWindow.StartDownload | MyVideoDownload/myvideodownload/ui.py:264-286 | Changes the window exactly as `WindowModel.Start`. |
| WindowModel.Resume | MyVideoDownload/myvideodownload/ui.py:331-354 | Refuses while a worker runs or when there is nothing to resume. Otherwise it starts a worker on the last URL, mode and root with the archive in use, records that in the new snapshot, and leaves the checkbox as it was. |
| Ui.MainWindow.ResumeDownload | MyVideoDownload/myvideodownload/ui.py:331-354 | Changes the window exactly as `WindowModel.Resume`. |
| WindowModel.InsertItem | MyVideoDownload/myvideodownload/ui.py:367 | The new item lands at the index, and the items from there on move down by one. |
| WindowModel.FileDone | MyVideoDownload/myvideodownload/ui.py:361-373 | Exactly one more completed file. Its line goes just under the active item, or on top of an empty list. Nothing else changes. |
| Ui.MainWindow.OnFileDone | MyVideoDownload/myvideodownload/ui.py:361-373 | Changes the window exactly as `WindowModel.FileDone`. |
| Ui.DropOverflow | MyVideoDownload/myvideodownload/ui.py:427-428 | The trimming loop leaves the first ten items, or all of them when fewer. |
| WindowModel.Skipped | MyVideoDownload/myvideodownload/ui.py:419-431 | A blank message changes nothing. Otherwise the stripped text goes on top of a list capped at ten, and the parsed message is appended to the uncapped statistics. |
| WindowModel.PushSkipped | MyVideoDownload/myvideodownload/ui.py:424-431 | The text goes on top, the list keeps at most ten items, and the statistics grow by exactly the parsed text. |
| Ui.MainWindow.OnSkipped | MyVideoDownload/myvideodownload/ui.py:419-431 | Changes the window exactly as `WindowModel.Skipped`. |
| WindowModel.ReportOutcome | MyVideoDownload/myvideodownload/ui.py:376-408 | The top item is re-added as its base with the outcome's mark. The status shows done, stopped or the error. Only an error that is not a cancellation sets the clipboard and opens an error dialog. |
| Ui.MainWindow.ReportOutcome | MyVideoDownload/myvideodownload/ui.py:376-408 | Changes the window exactly as `WindowModel.ReportOutcome`. |
| WindowModel.Outcome | MyVideoDownload/myvideodownload/ui.py:376-408 | Reports on the top item when the list has one. No other window part changes. The dialogs grow only for a non-cancellation error. |
| WindowModel.Settle | MyVideoDownload/myvideodownload/ui.py:410-415 | No worker and progress 0. Download is on, Stop off, and Resume on exactly when there is something to resume. |
| WindowModel.ShowSummary | MyVideoDownload/myvideodownload/ui.py:474-506 | A summary dialog is added exactly when the run completed or skipped something, and nothing else changes. Its archive line uses the corrected path `<root>\.download-archive.txt`, not the one line 493 prints (see Findings). |
| Ui.MainWindow.ShowSummaryDialog | MyVideoDownload/myvideodownload/ui.py:474-506 | Changes the window exactly as `WindowModel.ShowSummary`, so it too shows the corrected archive path. |
| WindowModel.Finished | MyVideoDownload/myvideodownload/ui.py:375-417 | The worker is dropped and progress reset. Download on, Stop off, Resume on exactly when there is something to resume. The top item is re-marked, and form, snapshot, statistics and skipped list are kept. |
| Ui.MainWindow.OnFinished | MyVideoDownload/myvideodownload/ui.py:375-417 | Changes the window exactly as `WindowModel.Finished`. |
| WindowModel.FinishedKeepsDialogs | MyVideoDownload/myvideodownload/ui.py:375-417 | A finished run keeps the earlier dialogs and adds at most two. |
| WindowModel.FinishedErrorDialog | MyVideoDownload/myvideodownload/ui.py:383-408 | The error dialog, with the message and the log file, follows the earlier dialogs exactly when the run failed without a cancellation. |
| WindowModel.FinishedSummary | MyVideoDownload/myvideodownload/ui.py:416-417 | The summary is the last dialog exactly when the run saved or skipped something. |
| WindowModel.StartThenFinishedMarksUrl | MyVideoDownload/myvideodownload/ui.py:376-387 | When no progress signal came in between, the item a started run puts on top comes back at the end of the run as the URL with the outcome's mark. |
| WindowModel.ResumeAfterFinished | MyVideoDownload/myvideodownload/ui.py:413-415 | After any finished run Resume is enabled. It starts a worker on the last URL, mode and root with the archive in use, and keeps the checkbox. |
| Ui.MainWindow.constructor | MyVideoDownload/myvideodownload/ui.py:164-169 | A new window has nothing to resume and empty statistics. Only Download is enabled and it holds no worker. |

## Left out

- **Qt itself.** Widgets, colours, fonts, the message boxes' buttons and
  titles, status-bar timeouts and icons are not modelled. The two lists are
  kept by their texts, the buttons by their enabled flags, and the status bar
  by its last message. The clipboard is a string, and dialogs are recorded by
  what they were built from (`DialogText` gives their text).
- **Threads and signal delivery.** The worker runs synchronously, and its
  signals are an event log. A stop from the window is a step inside the
  engine's run.
- **The engine.** What yt-dlp does with the options is not modelled:
  fetching, format negotiation and archive writes. An attempt is an
  `EngineRun` oracle. The `progress_hooks` and `logger` entries of the
  options dictionary are not fields, and `extractor_args` is flattened into
  `playerClient` and `skipManifests`.
- **File system and environment.** These are inputs:
  - `os.makedirs`, `os.path.exists` and `shutil.which`;
  - `get_log_path` and its fallback directory;
  - `_ensure_logging`'s fallback to the temporary directory (the resulting
    path is the `logPath` parameter);
  - the reading and decoding of the log file.
- `_build_opts` is called a second time for the fallback attempt. The model
  uses one built value for both attempts, so an environment that changes
  between the two calls is not captured: a root removed in between, or
  ffmpeg appearing. `WorkerModel.Run`, `WorkerModel.RunAttempts` and the
  scenarios are stated for any built value, and `DownloadOptions.BuildOpts`
  ties that value to the configuration.
- `DownloadOptions.BuildOpts` takes the ffmpeg directory from `Env`.
  `DownloadOptions.DetectFfmpeg` is proved separately and is not composed
  with it.
- `DownloadOptions.DetectFfmpeg`: weaker than the source. An exception from
  `sys.executable` or `sys._MEIPASS` is not modelled. The existence test and
  `abspath` are function parameters.
- `WorkerModel.Hook`: weaker than the source. The percentage is an integer
  already parsed (float parsing of `_percent_str` and its fallback to 0 are
  left out). `%.1f` is rendered as the integer followed by `.0`.
- **`cookiesfrombrowser`.** The source stores it as a one-element tuple. The
  model stores the browser name.
- **Case and whitespace.**
  - Lower-casing is ASCII only. That gives the same answers as Python's full
    Unicode lower-casing for every needle the program looks for.
  - Whitespace is Python's `str.isspace()`, also used for `\s`.
- **Exceptions the source swallows.** These paths are not modelled:
  - the `try`/`except` around `file_done.emit`;
  - the `_TempHandler.emit` and `_run_stats` updates;
  - `_parse_skip_message`'s fallback;
  - `_read_log_tail` and `_show_summary_dialog`.
  
  `_read_log_tail`'s error path returns "", as a missing file does.
- **Handlers outside the core.** `_stop_download`, `_on_progress`,
  `_update_active_item`, `_clear`, root and cookie choosers,
  browser-cookie import, `_open_log`, styles, the window icon, `run_app`,
  `create_installer.py` and `__main__.py` are not part of this model.
- **Resume.** `_begin_download` re-reads the resolution combo and the
  cookie fields, so a resumed run replays only the last URL, mode and root
  from `_last_params`.
- **"Saw a download".** A run counts as having seen a download once any
  hook reports "downloading" or "finished" (downloader.py:246-257).
- `WindowModel.ShowSummary`: the summary dialog's archive line uses the
  corrected path `<root>\.download-archive.txt`, not the
  `<log dir>\download_archive.txt` that ui.py:493 prints. The same holds for
  `Ui.MainWindow.ShowSummaryDialog`, `WindowModel.Finished` and
  `Ui.MainWindow.OnFinished`. The as-written path is modelled separately
  (see Findings).
- `Text.Basename`: for a UNC path with no file part, such as
  `\\server\share`, `ntpath.basename` gives "" and the model gives `share`.
  The engine only reports file paths, so this case does not arise.
- `WindowModel.ArchiveShown` falls back to the as-written path when no run
  was ever begun. No summary can appear in that state.

## Findings

| source | as written | input that shows it | evidently intended | confidence | as-written member | corrected member |
|---|---|---|---|---|---|---|
| MyVideoDownload/myvideodownload/ui.py:493 | The summary names `download_archive.txt` in the log directory. | Any run that completes a file, with any root: the worker archives to `<root>\.download-archive.txt` (downloader.py:152), and the summary prints `<log dir>\download_archive.txt`. | The summary names the archive file the run's worker used, `<root>\.download-archive.txt`. | not executed | WindowText.SummaryArchivePathAsWritten (with WindowText.SummaryArchiveIsNotTheArchive) | WindowText.SummaryArchivePath (used by WindowModel.ArchiveShown) |
