/**
 * Concrete runs of the worker model: a single successful video, and a
 * primary attempt refused with HTTP 403 that the fallback client recovers.
 * The runs hold for whatever options `_build_opts` built, so they are stated
 * for any successfully built `built`; `RequestBuilds` shows that the build
 * succeeds for the request used here.
 */
module WorkerScenarios {
  import opened Wrappers
  import opened Text
  import opened DownloadOptions
  import opened WorkerModel

  const Url := "https://youtu.be/abc123"
  const Root := "C:\\Video Download"
  const SavedFile := "C:\\Video Download\\" + "Video\\001 - Video - " + "Clip.mp4"

  function RequestMp4(): Config {
    Config(Url, "mp4", Root, Some(720), None, None, false)
  }

  function PlainEnv(): Env {
    Env(None, false, false, None)
  }

  function HalfwayHook(): HookInfo {
    HookInfo(Some("downloading"), Some("Clip"), None, 50, Some("1MiB/s"), Some("00:05"))
  }

  function FinishedHook(): HookInfo {
    HookInfo(Some("finished"), Some("Clip"), Some(SavedFile), 0, None, None)
  }

  /** The engine downloads one item: one progress report, then the finished one. */
  function OneItem(): seq<EngineStep> {
    [HookCall(HalfwayHook()), HookCall(FinishedHook())]
  }

  const ForbiddenError := "HTTP Error 403: " + "Forbidden"

  /** The request builds its options: no error creating the root directory. */
  lemma RequestBuilds()
    ensures BuildOpts(RequestMp4(), PlainEnv()).Ok?
  {
  }

  /** The 403 text is both a skip reason and an access restriction. */
  lemma ForbiddenIsRestricted()
    ensures AccessRestricted(ForbiddenError)
    ensures SkipPhrase("Main attempt error: " + ForbiddenError)
  {
    var e := ForbiddenError;
    assert e[11..14] == "403";
    ContainsAt(e, "403", 11);
    var m := "Main attempt error: " + e;
    assert m[20..34] == "HTTP Error 403";
    ContainsAt(m, "HTTP Error 403", 20);
  }

  /** The events of the one-item engine run, after whatever came before. */
  function OneItemEvents(): seq<Event> {
    [Progress(50, "1MiB/s", "00:05", "Clip"), Progress(100, "", "", "Clip"), FileDone(SavedFile)]
  }

  lemma SplitTwo<T>(a: seq<T>, x: T, y: T)
    ensures a + [x] + [y] == a + [x, y]
  {
  }

  lemma SplitThree<T>(a: seq<T>, x: T, y: T, z: T)
    ensures a + [x] + [y, z] == a + [x, y, z]
  {
  }

  lemma HalfwayStep(s: WorkerState)
    requires !s.stop
    ensures var (t, cancelled) := Step(s, HookCall(HalfwayHook()));
      !cancelled && !t.stop && t.events == s.events + [Progress(50, "1MiB/s", "00:05", "Clip")]
  {
  }

  lemma FinishedStep(s: WorkerState)
    requires !s.stop
    ensures var (t, cancelled) := Step(s, HookCall(FinishedHook()));
      !cancelled && t.sawDownload && t.events == s.events + [Progress(100, "", "", "Clip"), FileDone(SavedFile)]
  {
  }

  /** From any state without a stop request, the one-item engine run completes with its three signals. */
  lemma OneItemAttempt(s: WorkerState)
    requires !s.stop
    ensures Attempt(s, OneItem(), Returned).1 == Completed
    ensures Attempt(s, OneItem(), Returned).0.events == s.events + OneItemEvents()
    ensures Attempt(s, OneItem(), Returned).0.sawDownload
    ensures Attempt(s, OneItem(), Returned).0.(events := s.events, log := s.log, sawDownload := s.sawDownload) == s
    ensures Appended(s.log, Attempt(s, OneItem(), Returned).0.log)
  {
    var steps := OneItem();
    var (s1, c1) := Step(s, steps[0]);
    HalfwayStep(s);
    var (s2, c2) := Step(s1, steps[1]);
    FinishedStep(s1);
    assert steps[1..][1..] == [];
    assert Attempt(s2, steps[1..][1..], Returned) == (s2, Completed);
    var e := OneItemEvents();
    SplitThree(s.events, e[0], e[1], e[2]);
  }

  /** The one-item engine run as the main attempt: its signals, then success with the root. */
  lemma OneItemMain(built: Result<YdlOpts>, s: WorkerState)
    requires !s.stop && built.Ok?
    ensures var (t, m) := MainAttempt(RequestMp4(), PlainEnv(), built, s, EngineRun(OneItem(), Returned));
      && m == Emit(true, Root)
      && t.events == s.events + OneItemEvents()
      && t.attempts == s.attempts + [built.value]
      && t.handlers == s.handlers && t.tempHandler == s.tempHandler
  {
    var s1 := s.(attempts := s.attempts + [built.value]);
    OneItemAttempt(s1);
  }

  /**
   * One successful item: progress reaching 100%, one file, and success with
   * the destination root as the last signal, after one attempt, with the
   * forwarder gone again.
   */
  lemma SingleVideoScenario(built: Result<YdlOpts>, s: WorkerState)
    requires HandlersConsistent(s) && !s.stop && built.Ok?
    ensures var (t, escaped) := Run(RequestMp4(), PlainEnv(), built, s, EngineRun(OneItem(), Returned), EngineRun([], Returned));
      && !escaped
      && t.events == s.events + OneItemEvents() + [Finished(true, Root)]
      && t.attempts == s.attempts + [built.value]
      && multiset(t.handlers) == multiset(s.handlers) - multiset{SkipHandler}
  {
    var cfg := RequestMp4();
    var main := EngineRun(OneItem(), Returned);
    var s0 := Started(cfg, s);
    OneItemMain(built, s0);
    var a := MainAttempt(cfg, PlainEnv(), built, s0, main).0;
    assert Ladder(cfg, PlainEnv(), built, s0, main, EngineRun([], Returned)) == (EmitEvent(a, Finished(true, Root)), false);
  }

  /** The fallback attempt over the one-item run recovers and appends its signals. */
  lemma OneItemFallback(built: Result<YdlOpts>, s: WorkerState)
    requires !s.stop && built.Ok?
    ensures var (t, end) := FallbackAttempt(built, s, EngineRun(OneItem(), Returned));
      end == Recovered && t.events == s.events + OneItemEvents()
      && LogRecord(InfoLevel, "Attempting fallback with iOS client...") in t.log
  {
    var f0 := Log(s, InfoLevel, "Attempting fallback with iOS client...");
    var f1 := f0.(attempts := f0.attempts + [FallbackOpts(built.value)]);
    OneItemAttempt(f1);
    assert f1.log[|f1.log| - 1] == LogRecord(InfoLevel, "Attempting fallback with iOS client...");
    var t := Attempt(f1, OneItem(), Returned).0;
    assert t.log[|f1.log| - 1] == f1.log[..|f1.log|][|f1.log| - 1];
  }

  /** The refused primary attempt records its options and fails with the error text. */
  lemma ForbiddenMain(built: Result<YdlOpts>, s: WorkerState)
    requires !s.stop && built.Ok?
    ensures var (t, m) := MainAttempt(RequestMp4(), PlainEnv(), built, s, EngineRun([], Raised(ForbiddenError)));
      m == Fail(ForbiddenError) && t == s.(attempts := s.attempts + [built.value])
  {
  }

  /** The error is forwarded as a skip reason, then the fallback recovers. */
  lemma ForbiddenRecover(built: Result<YdlOpts>, s: WorkerState)
    requires !s.stop && SkipHandler in s.handlers && built.Ok?
    ensures var (t, escaped) := Recover(RequestMp4(), built, s, EngineRun(OneItem(), Returned), ForbiddenError);
      && !escaped
      && t.events == s.events + [Skipped("Main attempt error: " + ForbiddenError)] + OneItemEvents() + [Finished(true, Root)]
      && LogRecord(InfoLevel, "Attempting fallback with iOS client...") in t.log
      && t.attempts == s.attempts + [FallbackOpts(built.value)]
  {
    ForbiddenIsRestricted();
    var l := Log(s, ErrorLevel, "Main attempt error: " + ForbiddenError);
    assert l.events == s.events + [Skipped("Main attempt error: " + ForbiddenError)];
    OneItemFallback(built, l);
  }

  /**
   * The primary attempt is refused with HTTP 403 and the fallback client
   * downloads the item: the error is reported once as a skip reason, the
   * retry is logged, the second attempt uses the first one's options with
   * the iOS client and no chunking, and the run succeeds with the
   * destination root.
   */
  lemma ForbiddenThenFallbackScenario(built: Result<YdlOpts>, s: WorkerState)
    requires HandlersConsistent(s) && !s.stop && built.Ok?
    ensures var (t, escaped) := Run(RequestMp4(), PlainEnv(), built, s, EngineRun([], Raised(ForbiddenError)), EngineRun(OneItem(), Returned));
      && !escaped
      && t.events == s.events + [Skipped("Main attempt error: " + ForbiddenError)] + OneItemEvents() + [Finished(true, Root)]
      && LogRecord(InfoLevel, "Attempting fallback with iOS client...") in t.log
      && t.attempts == s.attempts + [built.value, FallbackOpts(built.value)]
  {
    var cfg := RequestMp4();
    var env := PlainEnv();
    var main := EngineRun([], Raised(ForbiddenError));
    var fallback := EngineRun(OneItem(), Returned);
    var s0 := Started(cfg, s);
    ForbiddenMain(built, s0);
    var s1 := MainAttempt(cfg, env, built, s0, main).0;
    ForbiddenRecover(built, s1);
    var t := Recover(cfg, built, s1, fallback, ForbiddenError).0;
    assert Ladder(cfg, env, built, s0, main, fallback) == (t, false);
    SplitTwo(s.attempts, built.value, FallbackOpts(built.value));
  }
}
