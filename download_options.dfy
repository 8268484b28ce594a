/**
 * How the download worker configures the external engine for one attempt
 * (`DownloadWorker._build_opts` and `_detect_ffmpeg` in downloader.py).
 * The engine's options dictionary is a record; a key the source inserts only
 * under a condition is an `Option`.
 */
module DownloadOptions {
  import opened Wrappers
  import opened Text

  const DefaultMaxHeight: nat := 1080
  const MinHeight: nat := 144
  const MaxHeightCap: nat := 2160
  /** The standard rungs tried, in this order, below the requested height. */
  const FallbackHeights: seq<nat> := [720, 480, 360]
  const ArchiveFileName := ".download-archive.txt"
  const H264Filter := "[vcodec~='^(avc1|avc|h264)']"
  const BestEffortFormat := "bestvideo+bestaudio/best"
  const AudioFormat := "bestaudio/best"
  const AudioPostProcessor := PostProcessor("FFmpegExtractAudio", "mp3", "320")

  /** The worker's constructor arguments (one download request). */
  datatype Config = Config(
    url: string,
    mode: string,
    rootDir: string,
    maxHeight: Option<int>,
    cookiesPath: Option<string>,
    cookiesFromBrowser: Option<string>,
    ignoreArchive: bool)

  /** The fields `DownloadWorker.__init__` stores: the URL stripped, the rest as given. */
  function WorkerConfig(url: string, mode: string, rootDir: string, maxHeight: Option<int>,
                        cookiesPath: Option<string>, cookiesFromBrowser: Option<string>,
                        ignoreArchive: bool): Config
  {
    Config(Strip(url), mode, rootDir, maxHeight, cookiesPath, cookiesFromBrowser, ignoreArchive)
  }

  /**
   * What the file system and the process environment answer during a run:
   * the exception `os.makedirs(root_dir)` raises (if any), whether the cookie
   * file and the archive file exist, and the result of `_detect_ffmpeg`.
   */
  datatype Env = Env(
    rootDirError: Option<string>,
    cookieFileExists: bool,
    archiveExists: bool,
    ffmpegLocation: Option<string>)

  /** Python truthiness of an optional string: present and non-empty. */
  predicate Truthy(s: Option<string>) {
    s.Some? && s.value != ""
  }

  /** `max(144, min(int(max_height or 1080), 2160))`. */
  function HeightBound(maxHeight: Option<int>): (mh: nat)
    ensures MinHeight <= mh <= MaxHeightCap
    ensures (maxHeight.None? || maxHeight == Some(0)) ==> mh == DefaultMaxHeight
    ensures maxHeight.Some? && maxHeight.value != 0 ==>
      (maxHeight.value < MinHeight ==> mh == MinHeight) &&
      (maxHeight.value > MaxHeightCap ==> mh == MaxHeightCap) &&
      (MinHeight <= maxHeight.value <= MaxHeightCap ==> mh == maxHeight.value)
  {
    var h := if maxHeight.None? || maxHeight.value == 0 then DefaultMaxHeight as int else maxHeight.value;
    if h < MinHeight then MinHeight else if h > MaxHeightCap then MaxHeightCap else h
  }

  /** One alternative of the engine's format-selection expression. */
  datatype FormatChoice =
    | Exact(height: nat, h264: bool)    // a video stream of exactly this height
    | AtMost(height: nat, h264: bool)   // any video stream up to this height
    | AnyBest                           // the unconstrained pair, then the engine's default

  /** The text the source appends for each alternative. */
  function Render(f: FormatChoice): string {
    match f
    case Exact(h, true) => "bestvideo[height=" + NatToString(h) + "]" + H264Filter + "+bestaudio[ext=m4a]"
    case Exact(h, false) => "bestvideo[height=" + NatToString(h) + "]+bestaudio"
    case AtMost(h, true) => "bestvideo[height<=" + NatToString(h) + "]" + H264Filter + "+bestaudio[ext=m4a]"
    case AtMost(h, false) => "bestvideo[height<=" + NatToString(h) + "]+bestaudio"
    case AnyBest => BestEffortFormat
  }

  function RenderAll(fs: seq<FormatChoice>): (r: seq<string>)
    ensures |r| == |fs| && forall i :: 0 <= i < |fs| ==> r[i] == Render(fs[i])
  {
    seq(|fs|, i requires 0 <= i < |fs| => Render(fs[i]))
  }

  lemma RenderAllAppend(a: seq<FormatChoice>, b: seq<FormatChoice>)
    ensures RenderAll(a + b) == RenderAll(a) + RenderAll(b)
  {
    var l := RenderAll(a + b);
    var r := RenderAll(a) + RenderAll(b);
    forall i | 0 <= i < |l|
      ensures l[i] == r[i]
    {
      if i < |a| {
        assert (a + b)[i] == a[i];
      } else {
        assert (a + b)[i] == b[i - |a|];
      }
    }
  }

  /** The two alternatives tried for one height: H.264 with AAC first, then any codec. */
  function HeightPair(h: nat): seq<FormatChoice> {
    [Exact(h, true), Exact(h, false)]
  }

  /** The pairs the fallback loop appends for the first rungs of `fallbacks`. */
  function Rungs(fallbacks: seq<nat>, mh: nat): seq<FormatChoice>
  {
    if fallbacks == [] then []
    else
      var f := fallbacks[|fallbacks| - 1];
      Rungs(fallbacks[..|fallbacks| - 1], mh) + (if f < mh then HeightPair(f) else [])
  }

  /** The ordered alternatives of the video format expression for bound `mh`. */
  function FormatAlternatives(mh: nat): seq<FormatChoice> {
    HeightPair(mh) + Rungs(FallbackHeights, mh) + [AtMost(mh, true), AtMost(mh, false), AnyBest]
  }

  /** The list-building loop of `_build_opts`. */
  method BuildFormatList(mh: nat) returns (formats: seq<string>)
    ensures formats == RenderAll(FormatAlternatives(mh))
  {
    formats := [];
    formats := formats + [Render(Exact(mh, true))];
    formats := formats + [Render(Exact(mh, false))];
    for k := 0 to |FallbackHeights|
      invariant formats == RenderAll(HeightPair(mh) + Rungs(FallbackHeights[..k], mh))
    {
      var fallback := FallbackHeights[k];
      assert FallbackHeights[..k + 1][..k] == FallbackHeights[..k];
      RenderAllAppend(HeightPair(mh) + Rungs(FallbackHeights[..k], mh), if fallback < mh then HeightPair(fallback) else []);
      if fallback < mh {
        formats := formats + [Render(Exact(fallback, true))];
        formats := formats + [Render(Exact(fallback, false))];
      }
    }
    assert FallbackHeights[..|FallbackHeights|] == FallbackHeights;
    RenderAllAppend(HeightPair(mh) + Rungs(FallbackHeights, mh), [AtMost(mh, true), AtMost(mh, false), AnyBest]);
    formats := formats + [Render(AtMost(mh, true))];
    formats := formats + [Render(AtMost(mh, false))];
    formats := formats + [Render(AnyBest)];
  }

  /** The format expression for video mode: the alternatives joined with `/`. */
  function VideoFormatPref(mh: nat): string {
    Join("/", RenderAll(FormatAlternatives(mh)))
  }

  lemma RungsOfFallbacks(mh: nat)
    ensures Rungs(FallbackHeights, mh) ==
      (if 720 < mh then HeightPair(720) else []) +
      (if 480 < mh then HeightPair(480) else []) +
      (if 360 < mh then HeightPair(360) else [])
  {
    assert FallbackHeights[..2] == [720, 480];
    assert [720, 480][..1] == [720];
    assert [720][..0] == [];
    assert Rungs([720], mh) == (if 720 < mh then HeightPair(720) else []);
    assert Rungs([720, 480], mh) == Rungs([720], mh) + (if 480 < mh then HeightPair(480) else []);
    assert Rungs(FallbackHeights, mh) == Rungs([720, 480], mh) + (if 360 < mh then HeightPair(360) else []);
  }

  /**
   * The shape of the alternatives list: the requested height twice at the
   * front, the unconstrained pair at the end, two entries per standard rung
   * strictly below the bound, and nothing else.
   */
  lemma {:induction false} FormatListShape(mh: nat)
    ensures var r := FormatAlternatives(mh);
      && |r| == 5 + 2 * |set f | f in FallbackHeights && f < mh|
      && r[0] == Exact(mh, true) && r[1] == Exact(mh, false)
      && r[|r| - 3] == AtMost(mh, true) && r[|r| - 2] == AtMost(mh, false) && r[|r| - 1] == AnyBest
  {
    RungsOfFallbacks(mh);
    var below := set f | f in FallbackHeights && f < mh;
    if 720 < mh {
      assert below == {720, 480, 360};
    } else if 480 < mh {
      assert below == {480, 360};
    } else if 360 < mh {
      assert below == {360};
    } else {
      assert below == {};
    }
  }

  /** No alternative asks for a height above the bound. */
  lemma {:induction false} FormatHeightsBounded(mh: nat)
    ensures forall i :: 0 <= i < |FormatAlternatives(mh)| ==>
      FormatAlternatives(mh)[i].AnyBest? || FormatAlternatives(mh)[i].height <= mh
  {
    RungsOfFallbacks(mh);
  }

  /**
   * What the middle section of the list looks like: H.264 and any-codec
   * entries in pairs, only for standard rungs strictly below the bound, every
   * such rung present, and the rungs in strictly descending order.
   */
  predicate RungSection(mid: seq<FormatChoice>, mh: nat) {
    && |mid| % 2 == 0
    && (forall i :: 0 <= i < |mid| ==>
          mid[i].Exact? && mid[i].h264 == (i % 2 == 0) && mid[i].height in FallbackHeights && mid[i].height < mh)
    && (forall i :: 0 <= i < |mid| - 1 && i % 2 == 0 ==> mid[i + 1].height == mid[i].height)
    && (forall i :: 0 <= i < |mid| - 2 ==> mid[i].height > mid[i + 2].height)
    && (forall f :: f in FallbackHeights && f < mh ==> Exact(f, true) in mid && Exact(f, false) in mid)
  }

  /** Between the two entries for the bound and the three closing entries come exactly the rungs. */
  lemma {:induction false} FallbackRungsOrdered(mh: nat)
    ensures var r := FormatAlternatives(mh);
      |r| >= 5 && r[2..|r| - 3] == Rungs(FallbackHeights, mh) && RungSection(r[2..|r| - 3], mh)
  {
    RungsOfFallbacks(mh);
    var r := FormatAlternatives(mh);
    assert r[2..|r| - 3] == Rungs(FallbackHeights, mh);
    if 720 < mh {
      assert Rungs(FallbackHeights, mh) == [Exact(720, true), Exact(720, false), Exact(480, true), Exact(480, false), Exact(360, true), Exact(360, false)];
    } else if 480 < mh {
      assert Rungs(FallbackHeights, mh) == [Exact(480, true), Exact(480, false), Exact(360, true), Exact(360, false)];
    } else if 360 < mh {
      assert Rungs(FallbackHeights, mh) == [Exact(360, true), Exact(360, false)];
    } else {
      assert Rungs(FallbackHeights, mh) == [];
    }
  }

  /** The video expression ends with the engine's best-effort default. */
  lemma VideoFormatEndsWithBestEffort(mh: nat)
    ensures EndsWith(VideoFormatPref(mh), BestEffortFormat)
    ensures StartsWith(VideoFormatPref(mh), "bestvideo[height=" + NatToString(mh) + "]")
  {
    var xs := RenderAll(FormatAlternatives(mh));
    JoinEnds("/", xs);
    assert xs[0] == Render(Exact(mh, true));
    assert xs[|xs| - 1] == BestEffortFormat;
    var p := "bestvideo[height=" + NatToString(mh) + "]";
    assert xs[0][..|p|] == p;
  }

  /** The audio request differs from every video expression (they differ at the fifth character). */
  lemma AudioIsNotVideo(mh: nat)
    ensures AudioFormat != VideoFormatPref(mh)
  {
    VideoFormatEndsWithBestEffort(mh);
    var v := VideoFormatPref(mh);
    var p := "bestvideo[height=" + NatToString(mh) + "]";
    assert p[4] == 'v';
    assert v[..|p|] == p;
    assert v[4] == 'v';
    assert AudioFormat[4] == 'a';
  }

  /** An engine post-processing step. */
  datatype PostProcessor = PostProcessor(key: string, preferredCodec: string, preferredQuality: string)

  /**
   * The options dictionary handed to the engine. The hook and the logger it
   * also carries are the worker's own and are not fields here.
   */
  datatype YdlOpts = YdlOpts(
    outtmpl: string,
    noPlaylist: bool,
    ignoreErrors: bool,
    continueDl: bool,
    overwrites: bool,
    mergeOutputFormat: string,
    concurrentFragmentDownloads: nat,
    retries: nat,
    fragmentRetries: nat,
    quiet: bool,
    noWarnings: bool,
    playerClient: seq<string>,
    skipManifests: seq<string>,
    geoBypass: bool,
    httpChunkSize: nat,
    formatSort: seq<string>,
    httpHeaders: seq<(string, string)>,
    downloadArchive: Option<string>,
    ffmpegLocation: Option<string>,
    cookieFile: Option<string>,
    cookiesFromBrowser: Option<string>,
    autonumberStart: nat,
    format: string,
    postprocessors: Option<seq<PostProcessor>>)

  /** The archive file under the destination root. */
  function ArchivePath(rootDir: string): string {
    PathJoin(rootDir, ArchiveFileName)
  }

  /** Files are grouped by playlist title ("Video" for single videos) and numbered. */
  function OutputTemplate(rootDir: string): string {
    PathJoin(PathJoin(rootDir, "%(playlist_title|Video)s"),
             "%(playlist_index|autonumber)03d - %(playlist_title|Video)s - %(title)s.%(ext)s")
  }

  const BrowserHeaders: seq<(string, string)> := [
    ("User-Agent", "Mozilla/5.0 (Windows NT 10.0; Win64; x64) AppleWebKit/537.36 (KHTML, like Gecko) Chrome/124.0 Safari/537.36"),
    ("Referer", "https://www.google.com/"),
    ("Origin", "https://www.youtube.com"),
    ("Accept-Language", "tr-TR,tr;q=0.9,en-US;q=0.8,en;q=0.7"),
    ("Connection", "keep-alive")]

  /** `download_archive` is set exactly when archive use is not suppressed. */
  function ArchiveOption(cfg: Config): (a: Option<string>)
    ensures a.Some? <==> !cfg.ignoreArchive
    ensures a.Some? ==> a.value == ArchivePath(cfg.rootDir)
  {
    if cfg.ignoreArchive then None else Some(ArchivePath(cfg.rootDir))
  }

  /**
   * The cookie keys: `cookiefile` when a cookie path is given and the file
   * exists, otherwise `cookiesfrombrowser` when a browser is named; never both.
   */
  function CookieOptions(cfg: Config, env: Env): (r: (Option<string>, Option<string>))
    ensures !(r.0.Some? && r.1.Some?)
    ensures r.0.Some? <==> Truthy(cfg.cookiesPath) && env.cookieFileExists
    ensures r.0.Some? ==> r.0 == cfg.cookiesPath
    ensures r.1.Some? <==> !r.0.Some? && Truthy(cfg.cookiesFromBrowser)
    ensures r.1.Some? ==> r.1 == cfg.cookiesFromBrowser
  {
    if Truthy(cfg.cookiesPath) && env.cookieFileExists then (cfg.cookiesPath, None)
    else if Truthy(cfg.cookiesFromBrowser) then (None, cfg.cookiesFromBrowser)
    else (None, None)
  }

  /**
   * `format` and `postprocessors`: mode "mp4" uses the video ladder and no
   * post-processing; any other mode asks for the best audio and one MP3
   * extraction step at 320 kbit/s, and never the video expression.
   */
  function FormatOptions(mode: string, mh: nat): (r: (string, Option<seq<PostProcessor>>))
    ensures mode == "mp4" ==> r.0 == VideoFormatPref(mh) && r.1.None?
    ensures mode != "mp4" ==> r.0 == AudioFormat && r.1 == Some([AudioPostProcessor])
    ensures mode != "mp4" ==> r.0 != VideoFormatPref(mh)
  {
    if mode == "mp4" then (VideoFormatPref(mh), None)
    else
      AudioIsNotVideo(mh);
      (AudioFormat, Some([AudioPostProcessor]))
  }

  /**
   * `_build_opts`: fails with the exception text when the destination root
   * cannot be created; otherwise the options for one attempt.
   */
  function BuildOpts(cfg: Config, env: Env): (r: Result<YdlOpts>)
    ensures r.Err? <==> env.rootDirError.Some?
    ensures r.Err? ==> r.error == env.rootDirError.value
    ensures r.Ok? ==>
      && r.value.downloadArchive == ArchiveOption(cfg)
      && (r.value.cookieFile, r.value.cookiesFromBrowser) == CookieOptions(cfg, env)
      && (r.value.format, r.value.postprocessors) == FormatOptions(cfg.mode, HeightBound(cfg.maxHeight))
      && (r.value.ffmpegLocation.Some? <==> Truthy(env.ffmpegLocation))
      && (Truthy(env.ffmpegLocation) ==> r.value.ffmpegLocation == env.ffmpegLocation)
      && r.value.autonumberStart == 1
  {
    if env.rootDirError.Some? then Err(env.rootDirError.value)
    else
      var mh := HeightBound(cfg.maxHeight);
      var cookies := CookieOptions(cfg, env);
      var format := FormatOptions(cfg.mode, mh);
      Ok(YdlOpts(
        outtmpl := OutputTemplate(cfg.rootDir),
        noPlaylist := false,
        ignoreErrors := true,
        continueDl := true,
        overwrites := false,
        mergeOutputFormat := "mp4",
        concurrentFragmentDownloads := 5,
        retries := 30,
        fragmentRetries := 20,
        quiet := true,
        noWarnings := true,
        playerClient := ["web", "ios", "android", "tvhtml5"],
        skipManifests := ["dash", "hls"],
        geoBypass := true,
        httpChunkSize := 10 * 1024 * 1024,
        formatSort := ["res:" + NatToString(mh), "vcodec:h264", "acodec:m4a"],
        httpHeaders := BrowserHeaders,
        downloadArchive := ArchiveOption(cfg),
        ffmpegLocation := if Truthy(env.ffmpegLocation) then env.ffmpegLocation else None,
        cookieFile := cookies.0,
        cookiesFromBrowser := cookies.1,
        autonumberStart := 1,
        format := format.0,
        postprocessors := format.1))
  }

  /** The fallback attempt's options: the iOS client only, and no HTTP chunking. */
  function FallbackOpts(o: YdlOpts): (f: YdlOpts)
    ensures f.playerClient == ["ios"] && f.httpChunkSize == 0
    ensures f.(playerClient := o.playerClient, httpChunkSize := o.httpChunkSize) == o
  {
    o.(playerClient := ["ios"], httpChunkSize := 0)
  }

  /**
   * The directories `_detect_ffmpeg` probes, in order: next to the
   * executable, the bundle's unpack directory when there is one, then two
   * package-relative directories.
   */
  function FfmpegCandidates(exeDir: Option<string>, bundleDir: Option<string>, packageDir: string): seq<string> {
    (if exeDir.Some? then [PathJoin(PathJoin(exeDir.value, "ffmpeg"), "bin")] else [])
    + (if Truthy(bundleDir) then [PathJoin(PathJoin(bundleDir.value, "ffmpeg"), "bin")] else [])
    + [PathJoin(PathJoin(PathJoin(packageDir, ".."), "ffmpeg"), "bin"),
       PathJoin(PathJoin(PathJoin(PathJoin(packageDir, ".."), ".."), "ffmpeg"), "bin")]
  }

  predicate HasFfmpeg(fileExists: string -> bool, dir: string) {
    fileExists(PathJoin(dir, "ffmpeg.exe")) || fileExists(PathJoin(dir, "ffmpeg"))
  }

  /** Candidate `k` is the first one that holds an ffmpeg binary. */
  predicate FirstWithFfmpeg(fileExists: string -> bool, candidates: seq<string>, k: nat) {
    k < |candidates| && HasFfmpeg(fileExists, candidates[k])
    && forall j :: 0 <= j < k ==> !HasFfmpeg(fileExists, candidates[j])
  }

  /**
   * `_detect_ffmpeg`: a hit on the search path wins; otherwise the absolute
   * form of the first candidate that holds a binary; otherwise nothing.
   * `pathHit` is the directory of the binary found on PATH.
   */
  method DetectFfmpeg(pathHit: Option<string>, candidates: seq<string>,
                      fileExists: string -> bool, absPath: string -> string)
    returns (loc: Option<string>)
    ensures pathHit.Some? ==> loc == pathHit
    ensures pathHit.None? && loc.Some? ==>
      exists k: nat :: FirstWithFfmpeg(fileExists, candidates, k) && loc.value == absPath(candidates[k])
    ensures pathHit.None? && loc.None? ==>
      forall k :: 0 <= k < |candidates| ==> !HasFfmpeg(fileExists, candidates[k])
  {
    if pathHit.Some? {
      return pathHit;
    }
    var i := 0;
    while i < |candidates|
      invariant 0 <= i <= |candidates|
      invariant forall j :: 0 <= j < i ==> !HasFfmpeg(fileExists, candidates[j])
    {
      var c := candidates[i];
      if fileExists(PathJoin(c, "ffmpeg.exe")) || fileExists(PathJoin(c, "ffmpeg")) {
        assert FirstWithFfmpeg(fileExists, candidates, i);
        return Some(absPath(c));
      }
      i := i + 1;
    }
    return None;
  }
}
