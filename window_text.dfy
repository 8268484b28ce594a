/**
 * The text logic of the main window: URL validation, the glyph prefixes of the
 * "recent" list, parsing of skip messages into an id and a reason, the error
 * dialog's details, the log tail, and the summary shown after every run.
 */
module WindowText {
  import opened Wrappers
  import opened Text
  import opened DownloadOptions
  import WorkerModel

  /** `DEFAULT_ROOT` is a raw string literal, so it holds two backslashes. */
  const DefaultRoot := "C:\\\\Video Download"

  // ---------------------------------------------------------------- URL check

  const NeedHttpMessage := "Geçerli bir bağlantı girin (http/https)"
  const ErrorTextMessage := "Hata metni URL değildir, lütfen gerçek bağlantıyı girin"
  const NeedYouTubeMessage := "YouTube bağlantısı bekleniyor"
  const EmptyUrlMessage := "Lütfen bir bağlantı girin"

  datatype UrlCheck = Accepted(url: string) | Rejected(message: string)

  predicate IsHttp(url: string) {
    StartsWith(url, "http://") || StartsWith(url, "https://")
  }

  predicate NamesYouTube(url: string) {
    Contains(Lower(url), "youtube.com/") || Contains(Lower(url), "youtu.be/")
  }

  /**
   * The checks of the Download button, in their order: scheme, pasted error
   * text, YouTube domain, emptiness. A URL that passes the scheme check starts
   * with `h`, so the error-text and empty checks can never fire: every
   * rejection carries one of the first and third messages.
   */
  function CheckUrl(text: string): (r: UrlCheck)
    ensures r.Accepted? <==> IsHttp(Strip(text)) && NamesYouTube(Strip(text))
    ensures r.Accepted? ==> r.url == Strip(text) && r.url != ""
    ensures r.Rejected? && !IsHttp(Strip(text)) ==> r.message == NeedHttpMessage
    ensures r.Rejected? && IsHttp(Strip(text)) ==> r.message == NeedYouTubeMessage
  {
    var url := Strip(text);
    if !IsHttp(url) then Rejected(NeedHttpMessage)
    else
      HttpUrlStartsWithH(url);
      if StartsWith(Lower(url), "error:") then Rejected(ErrorTextMessage)
      else if !NamesYouTube(url) then Rejected(NeedYouTubeMessage)
      else if url == "" then Rejected(EmptyUrlMessage)
      else Accepted(url)
  }

  /** A URL with an http scheme starts with `h`, so it is neither empty nor pasted error text. */
  lemma HttpUrlStartsWithH(url: string)
    requires IsHttp(url)
    ensures url != [] && url[0] == 'h'
    ensures !StartsWith(Lower(url), "error:")
  {
    if StartsWith(url, "http://") {
      assert url[..7][0] == url[0];
    } else {
      assert url[..8][0] == url[0];
    }
    assert Lower(url)[0] == 'h';
    assert "error:"[0] == 'e';
  }

  /** The root folder box: its stripped text, or the default when that is empty. */
  function RootChoice(text: string): (r: string)
    ensures r != ""
    ensures Strip(text) != "" ==> r == Strip(text)
    ensures Strip(text) == "" ==> r == DefaultRoot
  {
    if Strip(text) == "" then DefaultRoot else Strip(text)
  }

  // ------------------------------------------------------------- recent list

  datatype ItemStatus = Pending | Success | Failure | Active

  const SuccessMark := '✓'
  const FailureMark := '✗'
  const ActiveMark := '▶'

  /** The characters `lstrip("▶ ✓ ✗ ")` removes. */
  const ListGlyphs: set<char> := {ActiveMark, ' ', SuccessMark, FailureMark}

  /** The mark `_append_recent` puts before an item of a given status. */
  function StatusMark(status: ItemStatus): (c: char)
    requires !status.Pending?
    ensures c in ListGlyphs - {' '}
  {
    match status
    case Success => SuccessMark
    case Failure => FailureMark
    case Active => ActiveMark
  }

  /** The text `_append_recent` gives an item: its status's mark and a space, or nothing when pending. */
  function RecentText(text: string, status: ItemStatus): (r: string)
    ensures status.Pending? ==> r == text
    ensures !status.Pending? ==> r == [StatusMark(status), ' '] + text
  {
    if status.Pending? then text else [StatusMark(status), ' '] + text
  }

  /** The base text `_on_finished` recovers from the top item. */
  function ItemBase(text: string): (r: string)
    ensures EndsWith(text, r)
    ensures forall k :: 0 <= k < |text| - |r| ==> text[k] in ListGlyphs
    ensures r == [] || r[0] !in ListGlyphs
  {
    LStripChars(text, ListGlyphs)
  }

  /** Recovering the base ignores the mark an item was given. */
  lemma ItemBaseIgnoresMark(text: string, status: ItemStatus)
    ensures ItemBase(RecentText(text, status)) == ItemBase(text)
  {
    var r := RecentText(text, status);
    if !status.Pending? {
      assert r[1..][1..] == text;
    }
  }

  /**
   * A text that does not itself begin with a glyph or a space (any URL that
   * passed `CheckUrl`) comes back unchanged, whatever mark it carried.
   */
  lemma ItemBaseRoundTrip(text: string, status: ItemStatus)
    requires text == [] || text[0] !in ListGlyphs
    ensures ItemBase(RecentText(text, status)) == text
  {
    ItemBaseIgnoresMark(text, status);
  }

  /** An accepted URL starts with `h`, so it survives the mark round trip. */
  lemma AcceptedUrlRoundTrip(text: string, status: ItemStatus)
    requires CheckUrl(text).Accepted?
    ensures ItemBase(RecentText(CheckUrl(text).url, status)) == CheckUrl(text).url
  {
    var url := CheckUrl(text).url;
    assert IsHttp(url);
    HttpUrlStartsWithH(url);
    ItemBaseRoundTrip(url, status);
  }

  /** `_on_file_done`'s line for a saved file. */
  function FileDoneText(filename: string): (r: string)
    ensures StartsWith(r, [SuccessMark, ' ']) && EndsWith(r, Basename(filename))
    ensures |r| == 2 + |Basename(filename)|
  {
    RecentText(Basename(filename), Success)
  }

  /** The saved file's line gives back the file's base name, less any leading glyphs. */
  lemma FileDoneTextBase(filename: string)
    ensures ItemBase(FileDoneText(filename)) == ItemBase(Basename(filename))
  {
    ItemBaseIgnoresMark(Basename(filename), Success);
  }

  // ------------------------------------------------------ skip-message parser

  /** `[A-Za-z0-9_-]`. */
  predicate IsIdChar(c: char) {
    ('A' <= c <= 'Z') || ('a' <= c <= 'z') || ('0' <= c <= '9') || c == '_' || c == '-'
  }

  /** The character classes the pattern uses. */
  datatype CharClass = Space | Id | Line

  predicate InClass(c: char, cls: CharClass) {
    match cls
    case Space => IsSpace(c)
    case Id => IsIdChar(c)
    case Line => c != '\n'    // `.` without `DOTALL`
  }

  /** Length of the longest run of characters of class `cls` that starts at `i`. */
  function Span(s: string, i: nat, cls: CharClass): (n: nat)
    requires i <= |s|
    ensures i + n <= |s|
    decreases |s| - i
  {
    if i < |s| && InClass(s[i], cls) then 1 + Span(s, i + 1, cls) else 0
  }

  /** The run is made of `cls` characters and is followed by the end or by another class. */
  lemma {:induction false} SpanFacts(s: string, i: nat, cls: CharClass)
    requires i <= |s|
    ensures forall k :: i <= k < i + Span(s, i, cls) ==> InClass(s[k], cls)
    ensures i + Span(s, i, cls) == |s| || !InClass(s[i + Span(s, i, cls)], cls)
    decreases |s| - i
  {
    if i < |s| && InClass(s[i], cls) {
      SpanFacts(s, i + 1, cls);
    }
  }

  const YoutubeTag := "[youtube]"

  /** The spans of the two groups of a match: the video id and the rest of its line. */
  datatype SkipMatch = SkipMatch(idStart: nat, idEnd: nat, tailStart: nat, tailEnd: nat)

  /**
   * The groups of a match lie inside `s` in order, the id has six or more id
   * characters and the tail stays on one line.
   */
  predicate GroupsOk(s: string, m: SkipMatch) {
    && m.idStart + 6 <= m.idEnd <= m.tailStart <= m.tailEnd <= |s|
    && (forall k :: m.idStart <= k < m.idEnd ==> IsIdChar(s[k]))
    && (forall k :: m.tailStart <= k < m.tailEnd ==> s[k] != '\n')
  }

  /**
   * `\[youtube\]\s+([A-Za-z0-9_-]{6,})[: ]` matches at `i` with the id group
   * at `j..k`: the tag, one or more whitespace characters, six or more id
   * characters, then a colon or a space.
   */
  predicate HeadMatches(s: string, i: nat, j: nat, k: nat) {
    && OccursAt(s, YoutubeTag, i) && i + 9 < j && j + 6 <= k < |s|
    && (forall t :: i + 9 <= t < j ==> IsSpace(s[t]))
    && (forall t :: j <= t < k ==> IsIdChar(s[t]))
    && (s[k] == ':' || s[k] == ' ')
  }

  /**
   * How the greedy `\s*(.*)` continues after the separator at `m.idEnd`: the
   * tail starts after the longest whitespace run and ends at the next line
   * break or at the end of the text.
   */
  predicate TailFollows(s: string, m: SkipMatch) {
    && m.idEnd < m.tailStart <= m.tailEnd <= |s|
    && (forall t :: m.idEnd + 1 <= t < m.tailStart ==> IsSpace(s[t]))
    && (m.tailStart == |s| || !IsSpace(s[m.tailStart]))
    && (forall t :: m.tailStart <= t < m.tailEnd ==> s[t] != '\n')
    && (m.tailEnd == |s| || s[m.tailEnd] == '\n')
  }

  /** The runs `MatchAt` measures make a match of the whole pattern. */
  lemma MatchParts(s: string, i: nat, j: nat, k: nat, g: nat)
    requires OccursAt(s, YoutubeTag, i) && i + 9 < j <= |s| && j == i + 9 + Span(s, i + 9, Space)
    requires k == j + Span(s, j, Id) && j + 6 <= k < |s| && (s[k] == ':' || s[k] == ' ')
    requires g == k + 1 + Span(s, k + 1, Space)
    ensures HeadMatches(s, i, j, k) && TailFollows(s, SkipMatch(j, k, g, g + Span(s, g, Line)))
    ensures GroupsOk(s, SkipMatch(j, k, g, g + Span(s, g, Line)))
  {
    SpanFacts(s, i + 9, Space);
    SpanFacts(s, k + 1, Space);
    SpanFacts(s, j, Id);
    SpanFacts(s, g, Line);
  }

  /**
   * A match of `\[youtube\]\s+([A-Za-z0-9_-]{6,})[: ]\s*(.*)` starting at `i`.
   * Every quantifier is greedy and none can give back a character that would
   * let the next part match, so each run is the longest one.
   */
  function MatchAt(s: string, i: nat): (r: Option<SkipMatch>)
    requires i <= |s|
    ensures r.Some? ==> HeadMatches(s, i, r.value.idStart, r.value.idEnd) && TailFollows(s, r.value)
    ensures r.Some? ==> GroupsOk(s, r.value)
  {
    if !OccursAt(s, YoutubeTag, i) then None
    else
      var j := i + 9 + Span(s, i + 9, Space);
      if j == i + 9 then None
      else
        var k := j + Span(s, j, Id);
        if k - j < 6 || k == |s| || !(s[k] == ':' || s[k] == ' ') then None
        else
          var g := k + 1 + Span(s, k + 1, Space);
          MatchParts(s, i, j, k, g);
          Some(SkipMatch(j, k, g, g + Span(s, g, Line)))
  }

  /**
   * Whenever the pattern's head matches at `i`, however its runs are split,
   * `MatchAt` finds a match there with that id: the whitespace run cannot
   * end before an id character and the id run cannot end before a colon or a
   * space, so both splits are the longest ones.
   */
  lemma MatchAtComplete(s: string, i: nat, j: nat, k: nat)
    requires i <= |s| && HeadMatches(s, i, j, k)
    ensures MatchAt(s, i).Some?
    ensures MatchAt(s, i).value.idStart == j && MatchAt(s, i).value.idEnd == k
  {
    IdCharIsNotSpace(s[j]);
    SpanIs(s, i + 9, j, Space);
    SpanIs(s, j, k, Id);
  }

  /** `re.search`: the match at the leftmost position from `i` on that has one. */
  function Search(s: string, i: nat): (r: Option<SkipMatch>)
    requires i <= |s|
    ensures r.Some? ==> GroupsOk(s, r.value)
    decreases |s| - i
  {
    if MatchAt(s, i).Some? then MatchAt(s, i)
    else if i == |s| then None
    else Search(s, i + 1)
  }

  /**
   * What the search from `i` finds is the match at some position, and no
   * position before that one has a match; when it finds nothing, no
   * position has one.
   */
  predicate FindsLeftmost(s: string, i: nat)
    requires i <= |s|
  {
    && (Search(s, i).Some? ==>
         exists k :: i <= k <= |s| && MatchAt(s, k) == Search(s, i) && forall k' :: i <= k' < k ==> MatchAt(s, k').None?)
    && (Search(s, i).None? ==> forall k :: i <= k <= |s| ==> MatchAt(s, k).None?)
  }

  /** A search that fails at `i` finds what the search from the next position finds. */
  lemma FindsLeftmostStep(s: string, i: nat)
    requires i < |s| && MatchAt(s, i).None? && FindsLeftmost(s, i + 1)
    ensures FindsLeftmost(s, i)
  {
    assert Search(s, i) == Search(s, i + 1);
    if Search(s, i).Some? {
      var k :| i + 1 <= k <= |s| && MatchAt(s, k) == Search(s, i + 1)
        && forall k' :: i + 1 <= k' < k ==> MatchAt(s, k').None?;
      assert forall k' :: i <= k' < k ==> MatchAt(s, k').None?;
    }
  }

  /** The search finds the leftmost match (or reports correctly that there is none). */
  lemma {:induction false} SearchIsLeftmost(s: string, i: nat)
    requires i <= |s|
    ensures FindsLeftmost(s, i)
    decreases |s| - i
  {
    if MatchAt(s, i).Some? {
      assert MatchAt(s, i) == Search(s, i);
    } else if i < |s| {
      SearchIsLeftmost(s, i + 1);
      FindsLeftmostStep(s, i);
    }
  }

  /**
   * The search finds nothing exactly when the head of the pattern matches
   * nowhere in the text, so an id of `?` means the pattern does not match.
   */
  lemma SearchNoneIffNoHead(s: string)
    ensures Search(s, 0).None? <==> forall i: nat, j: nat, k: nat :: i <= |s| ==> !HeadMatches(s, i, j, k)
  {
    SearchIsLeftmost(s, 0);
    forall i: nat, j: nat, k: nat | i <= |s| && HeadMatches(s, i, j, k)
      ensures MatchAt(s, i).Some?
    {
      MatchAtComplete(s, i, j, k);
    }
    if Search(s, 0).Some? {
      var k :| 0 <= k <= |s| && MatchAt(s, k) == Search(s, 0) && forall k' :: 0 <= k' < k ==> MatchAt(s, k').None?;
      var m := MatchAt(s, k).value;
      assert HeadMatches(s, k, m.idStart, m.idEnd);
    }
  }

  /** The parsed form of a skip message kept for the summary. */
  datatype SkipInfo = SkipInfo(id: string, reason: string, raw: string)

  const PrivateLabel := "Private video"
  const MembersLabel := "Members only"
  const NoFormatsLabel := "No downloadable formats"
  const Http403Label := "HTTP 403"
  const UnavailableLabel := "Unavailable"

  /** Some phrase the normalisation looks for occurs in the lower-cased `l`. */
  predicate KnownPhrase(l: string) {
    Contains(l, "private") || Contains(l, "members only") || Contains(l, "no video formats")
    || Contains(l, "no formats") || Contains(l, "http error 403") || Contains(l, "unavailable")
  }

  /** One of the first three rungs of the normalisation applies to `l`. */
  predicate AccountOrFormatPhrase(l: string) {
    Contains(l, "private") || Contains(l, "members only") || Contains(l, "no video formats") || Contains(l, "no formats")
  }

  /**
   * The common reasons, tested in this order on the lower-cased reason; the
   * first phrase found decides the label, and a reason with none of them is
   * kept as it is.
   */
  function NormalizeReason(reason: string): (r: string)
    ensures r in {PrivateLabel, MembersLabel, NoFormatsLabel, Http403Label, UnavailableLabel, reason}
    ensures !KnownPhrase(Lower(reason)) ==> r == reason
    ensures var l := Lower(reason);
      && (Contains(l, "private") ==> r == PrivateLabel)
      && (!Contains(l, "private") && Contains(l, "members only") ==> r == MembersLabel)
      && (!Contains(l, "private") && !Contains(l, "members only") && Contains(l, "no video formats") ==> r == NoFormatsLabel)
      && (!Contains(l, "private") && !Contains(l, "members only") && Contains(l, "no formats") ==> r == NoFormatsLabel)
      && (!AccountOrFormatPhrase(l) && Contains(l, "http error 403") ==> r == Http403Label)
      && (!AccountOrFormatPhrase(l) && !Contains(l, "http error 403") && Contains(l, "unavailable") ==> r == UnavailableLabel)
  {
    var l := Lower(reason);
    if Contains(l, "private") then PrivateLabel
    else if Contains(l, "members only") then MembersLabel
    else if Contains(l, "no video formats") || Contains(l, "no formats") then NoFormatsLabel
    else if Contains(l, "http error 403") then Http403Label
    else if Contains(l, "unavailable") then UnavailableLabel
    else reason
  }

  /** `_parse_skip_message`. */
  function ParseSkipMessage(text: string): (r: SkipInfo)
    ensures r.raw == text
    ensures r.id == "?" <==> Search(text, 0).None?
    ensures r.id != "?" ==> |r.id| >= 6 && forall k :: 0 <= k < |r.id| ==> IsIdChar(r.id[k])
    ensures r.id != "?" ==> Contains(text, YoutubeTag)
    ensures Search(text, 0).None? ==> r.reason == NormalizeReason(text)
    ensures Search(text, 0).Some? ==> var m := Search(text, 0).value;
      r.id == text[m.idStart..m.idEnd]
      && r.reason == NormalizeReason(if m.tailStart == m.tailEnd then text else text[m.tailStart..m.tailEnd])
  {
    match Search(text, 0)
    case None => SkipInfo("?", NormalizeReason(text), text)
    case Some(m) =>
      var id := text[m.idStart..m.idEnd];
      assert |id| >= 6 && id != "?";
      assert Contains(text, YoutubeTag) by {
        SearchIsLeftmost(text, 0);
      }
      var reason := if m.tailStart == m.tailEnd then text else text[m.tailStart..m.tailEnd];
      SkipInfo(id, NormalizeReason(reason), text)
  }

  // ------------------------------------------ the message form yt-dlp writes

  lemma {:induction false} SpanIs(s: string, i: nat, j: nat, p: CharClass)
    requires i <= j <= |s|
    requires forall k :: i <= k < j ==> InClass(s[k], p)
    requires j == |s| || !InClass(s[j], p)
    ensures Span(s, i, p) == j - i
    decreases j - i
  {
    if i < j {
      SpanIs(s, i + 1, j, p);
    }
  }

  /** Positions without a match do not change what the search finds. */
  lemma {:induction false} SearchPast(s: string, i: nat, j: nat)
    requires i <= j <= |s|
    requires forall k :: i <= k < j ==> MatchAt(s, k).None?
    ensures Search(s, i) == Search(s, j)
    decreases j - i
  {
    if i < j {
      assert MatchAt(s, i).None?;
      assert Search(s, i) == Search(s, i + 1);
      SearchPast(s, i + 1, j);
    }
  }

  lemma IdCharIsNotSpace(c: char)
    requires IsIdChar(c)
    ensures !IsSpace(c)
  {
  }

  /** An extractor error as the engine logs it: a prefix, the tag, the id, a colon and the reason. */
  function TaggedMessage(prefix: string, id: string, reason: string): string {
    prefix + "[youtube] " + id + ": " + reason
  }

  /** No match can start inside a prefix that has no `[`. */
  lemma NoMatchBefore(prefix: string, rest: string)
    requires '[' !in prefix
    ensures forall i :: 0 <= i < |prefix| ==> MatchAt(prefix + rest, i).None?
  {
    var text := prefix + rest;
    forall i | 0 <= i < |prefix|
      ensures MatchAt(text, i).None?
    {
      assert text[i] == prefix[i];
      if i + 9 <= |text| {
        assert text[i..i + 9][0] == text[i];
      }
    }
  }

  lemma TaggedLayout(prefix: string, id: string, reason: string)
    ensures var text := TaggedMessage(prefix, id, reason); var p := |prefix|; var k := p + 10 + |id|;
      && |text| == k + 2 + |reason|
      && text[p..p + 9] == YoutubeTag && text[p + 9] == ' '
      && (forall m :: p + 10 <= m < k ==> text[m] == id[m - p - 10])
      && text[k] == ':' && text[k + 1] == ' '
      && (forall m :: k + 2 <= m < |text| ==> text[m] == reason[m - k - 2])
      && text[p + 10..k] == id && text[k + 2..] == reason
  {
    var text := TaggedMessage(prefix, id, reason);
    var p := |prefix|;
    assert text == (prefix + "[youtube] ") + (id + (": " + reason));
    assert text[p..p + 9] == "[youtube] "[..9];
  }

  /** `MatchAt` once the lengths of its four runs are known. */
  lemma MatchFromSpans(s: string, i: nat, k: nat, e: nat)
    requires OccursAt(s, YoutubeTag, i)
    requires Span(s, i + 9, Space) == 1
    requires i + 16 <= k < |s| && Span(s, i + 10, Id) == k - i - 10
    requires s[k] == ':' && Span(s, k + 1, Space) == 1
    requires k + 2 <= e && Span(s, k + 2, Line) == e - k - 2
    ensures MatchAt(s, i) == Some(SkipMatch(i + 10, k, k + 2, e))
  {
  }

  lemma MatchTagged(prefix: string, id: string, reason: string)
    requires |id| >= 6 && forall k :: 0 <= k < |id| ==> IsIdChar(id[k])
    requires '\n' !in reason && (reason == [] || !IsSpace(reason[0]))
    ensures MatchAt(TaggedMessage(prefix, id, reason), |prefix|)
      == Some(SkipMatch(|prefix| + 10, |prefix| + 10 + |id|, |prefix| + 12 + |id|, |TaggedMessage(prefix, id, reason)|))
  {
    var text := TaggedMessage(prefix, id, reason);
    var p := |prefix|;
    var k := p + 10 + |id|;
    TaggedLayout(prefix, id, reason);
    IdCharIsNotSpace(id[0]);
    SpanIs(text, p + 9, p + 10, Space);
    SpanIs(text, p + 10, k, Id);
    SpanIs(text, k + 1, k + 2, Space);
    SpanIs(text, k + 2, |text|, Line);
    assert OccursAt(text, YoutubeTag, p);
    MatchFromSpans(text, p, k, |text|);
  }

  /**
   * A message of the usual form, such as
   * `ERROR: [youtube] dQw4w9WgXcQ: Private video`, yields its id and its
   * normalised reason (the whole message when the reason is empty).
   */
  lemma ParseTaggedMessage(prefix: string, id: string, reason: string)
    requires '[' !in prefix
    requires |id| >= 6 && forall k :: 0 <= k < |id| ==> IsIdChar(id[k])
    requires '\n' !in reason && (reason == [] || !IsSpace(reason[0]))
    ensures var text := TaggedMessage(prefix, id, reason);
      ParseSkipMessage(text) == SkipInfo(id, NormalizeReason(if reason == [] then text else reason), text)
  {
    var text := TaggedMessage(prefix, id, reason);
    SearchTagged(prefix, id, reason);
    TaggedLayout(prefix, id, reason);
    var k := |prefix| + 10 + |id|;
    var m := SkipMatch(|prefix| + 10, k, k + 2, |text|);
    assert text[m.idStart..m.idEnd] == id;
    assert text[m.tailStart..m.tailEnd] == reason;
    var tail := if reason == [] then text else reason;
    assert tail == if m.tailStart == m.tailEnd then text else text[m.tailStart..m.tailEnd];
    ParseFound(text, m);
  }

  /** The search finds the tagged part of such a message. */
  lemma SearchTagged(prefix: string, id: string, reason: string)
    requires '[' !in prefix
    requires |id| >= 6 && forall k :: 0 <= k < |id| ==> IsIdChar(id[k])
    requires '\n' !in reason && (reason == [] || !IsSpace(reason[0]))
    ensures var text := TaggedMessage(prefix, id, reason);
      Search(text, 0) == Some(SkipMatch(|prefix| + 10, |prefix| + 10 + |id|, |prefix| + 12 + |id|, |text|))
  {
    var text := TaggedMessage(prefix, id, reason);
    assert text == prefix + ("[youtube] " + id + ": " + reason);
    NoMatchBefore(prefix, "[youtube] " + id + ": " + reason);
    SearchPast(text, 0, |prefix|);
    MatchTagged(prefix, id, reason);
  }

  /** What `ParseSkipMessage` returns once the search result is known. */
  lemma ParseFound(text: string, m: SkipMatch)
    requires Search(text, 0) == Some(m)
    ensures ParseSkipMessage(text)
      == SkipInfo(text[m.idStart..m.idEnd], NormalizeReason(if m.tailStart == m.tailEnd then text else text[m.tailStart..m.tailEnd]), text)
  {
  }

  // --------------------------------------------- normalisation is idempotent

  /** The one `f` of "no downloadable formats" is not preceded by "no ". */
  lemma NoFormatsNotInNoDownloadable()
    ensures !Contains("no downloadable formats", "no formats")
  {
    var s := "no downloadable formats";
    assert s[..16] == "no downloadable ";
    forall i: nat
      ensures !OccursAt(s, "no formats", i)
    {
      if i + 10 <= |s| {
        if i < 13 {
          assert s[i..i + 10][3] == s[..16][i + 3];
        } else {
          assert s[i..i + 10][0] == s[13] == 'l';
        }
      }
    }
  }

  lemma NotInNoFormats(sub: string, c: char)
    requires c in sub && c !in "no downloadable formats"
    ensures !Contains("no downloadable formats", sub)
  {
    MissingCharNotContained("no downloadable formats", sub, c);
  }

  lemma NoFormatsLacksPrivate()
    ensures !Contains("no downloadable formats", "private")
  {
    NotInNoFormats("private", 'p');
  }

  lemma NoFormatsLacksMembers()
    ensures !Contains("no downloadable formats", "members only")
  {
    NotInNoFormats("members only", 'y');
  }

  lemma NoFormatsLacksVideoFormats()
    ensures !Contains("no downloadable formats", "no video formats")
  {
    NotInNoFormats("no video formats", 'v');
  }

  lemma NoFormatsPhrases(l: string)
    requires l == "no downloadable formats"
    ensures !KnownPhrase(l)
  {
    NoFormatsLacksPrivate();
    NoFormatsLacksMembers();
    NoFormatsLacksVideoFormats();
    NoFormatsNotInNoDownloadable();
    NotInNoFormats("http error 403", 'h');
    NotInNoFormats("unavailable", 'u');
  }

  lemma Http403Phrases(l: string)
    requires l == "http 403"
    ensures !KnownPhrase(l)
  {
    MissingCharNotContained(l, "private", 'v');
    MissingCharNotContained(l, "members only", 'm');
    MissingCharNotContained(l, "no video formats", 'f');
    MissingCharNotContained(l, "no formats", 'f');
    MissingCharNotContained(l, "http error 403", 'e');
    MissingCharNotContained(l, "unavailable", 'u');
  }

  lemma UnavailablePhrases(l: string)
    requires l == "unavailable"
    ensures !Contains(l, "private") && !Contains(l, "members only") && !Contains(l, "no video formats")
    ensures !Contains(l, "no formats") && !Contains(l, "http error 403") && Contains(l, "unavailable")
  {
    MissingCharNotContained(l, "private", 'p');
    MissingCharNotContained(l, "members only", 'm');
    MissingCharNotContained(l, "no video formats", 'f');
    MissingCharNotContained(l, "no formats", 'f');
    MissingCharNotContained(l, "http error 403", 'h');
    assert OccursAt(l, "unavailable", 0);
  }

  lemma PrivateLabelFixed()
    ensures NormalizeReason(PrivateLabel) == PrivateLabel
  {
    var l := Lower(PrivateLabel);
    assert l == "private video";
    assert OccursAt(l, "private", 0);
  }

  lemma MembersLabelFixed()
    ensures NormalizeReason(MembersLabel) == MembersLabel
  {
    var l := Lower(MembersLabel);
    assert l == "members only";
    MissingCharNotContained(l, "private", 'p');
    assert OccursAt(l, "members only", 0);
  }

  lemma NoFormatsLabelFixed()
    ensures NormalizeReason(NoFormatsLabel) == NoFormatsLabel
  {
    assert Lower(NoFormatsLabel) == "no downloadable formats";
    NoFormatsPhrases(Lower(NoFormatsLabel));
  }

  lemma Http403LabelFixed()
    ensures NormalizeReason(Http403Label) == Http403Label
  {
    assert Lower(Http403Label) == "http 403";
    Http403Phrases(Lower(Http403Label));
  }

  lemma UnavailableLabelFixed()
    ensures NormalizeReason(UnavailableLabel) == UnavailableLabel
  {
    assert Lower(UnavailableLabel) == "unavailable";
    UnavailablePhrases(Lower(UnavailableLabel));
  }

  /** Normalising a reason twice gives the same label as normalising it once. */
  lemma NormalizeIdempotent(reason: string)
    ensures NormalizeReason(NormalizeReason(reason)) == NormalizeReason(reason)
  {
    PrivateLabelFixed();
    MembersLabelFixed();
    NoFormatsLabelFixed();
    Http403LabelFixed();
    UnavailableLabelFixed();
  }

  // ------------------------------------------------------ finished messages

  /** `_on_finished`'s test for a stop: the lower-cased message starts with the cancel text. */
  predicate IsCancellation(message: string) {
    StartsWith(Lower(message), "cancelled by user")
  }

  /**
   * The window recognises the worker's own cancel message as a stop, and the
   * no-media failure as an error.
   */
  lemma CancellationRecognised()
    ensures IsCancellation(WorkerModel.CancelledMessage)
    ensures !IsCancellation(WorkerModel.NoMediaMessage)
  {
    assert Lower(WorkerModel.CancelledMessage) == "cancelled by user";
    assert Lower(WorkerModel.NoMediaMessage)[0] == 'n';
  }

  const LogTailHeader := "\n\n--- Log (son 60 satır) ---\n"

  /** The error dialog's details: the message, then the log tail when there is one. */
  function ErrorDetails(message: string, tail: string): (r: string)
    ensures StartsWith(r, message)
    ensures tail == "" ==> r == message
    ensures tail != "" ==> EndsWith(r, tail) && |r| == |message| + |LogTailHeader| + |tail|
  {
    var r := if tail == "" then message else message + LogTailHeader + tail;
    assert r[..|message|] == message;
    assert tail != "" ==> r[|r| - |tail|..] == tail;
    r
  }

  /** `"".join(lines)`. */
  function Concat(lines: seq<string>): string {
    if |lines| == 0 then "" else Concat(lines[..|lines| - 1]) + lines[|lines| - 1]
  }

  /** Python's `xs[-n:]`, including `xs[-0:]`, which is the whole list. */
  function LastItems<T>(xs: seq<T>, n: int): (r: seq<T>)
    ensures |r| <= |xs| && r == xs[|xs| - |r|..]
    ensures n > 0 ==> |r| == if n < |xs| then n else |xs|
    ensures n == 0 ==> r == xs
    ensures n < 0 ==> |r| == if -n < |xs| then |xs| + n else 0
  {
    if n > 0 then (if n < |xs| then xs[|xs| - n..] else xs)
    else if n == 0 then xs
    else if -n < |xs| then xs[-n..]
    else []
  }

  /**
   * `_read_log_tail(max_lines)` over the log file's lines (each with its line
   * end), or `None` when the file does not exist: at most the last `max_lines`
   * lines, joined and stripped, and nothing for a missing file.
   */
  function LogTail(file: Option<seq<string>>, maxLines: int): (r: string)
    ensures file.None? ==> r == ""
    ensures Strip(r) == r
    ensures file.Some? && maxLines > 0 ==>
      var n := if maxLines < |file.value| then maxLines else |file.value|;
      r == Strip(Concat(file.value[|file.value| - n..]))
  {
    match file
    case None => ""
    case Some(lines) =>
      var r := Strip(Concat(LastItems(lines, maxLines)));
      StripIdempotent(Concat(LastItems(lines, maxLines)));
      r
  }

  // ----------------------------------------------------------------- summary

  const SummaryExamples: nat := 10

  function SkipLine(s: SkipInfo): string {
    "- " + s.id + " : " + s.reason
  }

  function Min(a: nat, b: nat): nat {
    if a < b then a else b
  }

  /**
   * The lines of `_show_summary_dialog`, or `None` when nothing was completed
   * or skipped: the two counts, then (when something was skipped) a blank
   * line, a heading and one line per skip for the first ten, then a blank line
   * and the archive path.
   */
  function SummaryLines(completed: nat, skipped: seq<SkipInfo>, archivePath: string): (r: Option<seq<string>>)
    ensures r.None? <==> completed == 0 && |skipped| == 0
    ensures r.Some? ==>
      var lines := r.value;
      var n := Min(SummaryExamples, |skipped|);
      && |lines| == 4 + (if |skipped| > 0 then 2 + n else 0)
      && lines[0] == "Tamamlanan: " + NatToString(completed)
      && lines[1] == "Atlanan: " + NatToString(|skipped|)
      && lines[|lines| - 2] == ""
      && lines[|lines| - 1] == "Arşiv: " + archivePath
      && (|skipped| > 0 ==>
            && lines[2] == ""
            && lines[3] == "Atlanan örnekleri (ilk 10):"
            && forall i :: 0 <= i < n ==> lines[4 + i] == SkipLine(skipped[i]))
  {
    if completed == 0 && |skipped| == 0 then None
    else
      var n := Min(SummaryExamples, |skipped|);
      var examples := seq(n, i requires 0 <= i < n => SkipLine(skipped[i]));
      var middle := if |skipped| > 0 then ["", "Atlanan örnekleri (ilk 10):"] + examples else [];
      Some(["Tamamlanan: " + NatToString(completed), "Atlanan: " + NatToString(|skipped|)]
           + middle + ["", "Arşiv: " + archivePath])
  }

  /** The dialog's detail text: the summary lines joined by line ends. */
  function SummaryText(completed: nat, skipped: seq<SkipInfo>, archivePath: string): (r: Option<string>)
    ensures r.Some? <==> completed > 0 || |skipped| > 0
    ensures r.Some? ==> StartsWith(r.value, "Tamamlanan: " + NatToString(completed))
    ensures r.Some? ==> EndsWith(r.value, archivePath)
  {
    match SummaryLines(completed, skipped, archivePath)
    case None => None
    case Some(lines) =>
      JoinEnds("\n", lines);
      var last := lines[|lines| - 1];
      var t := Join("\n", lines);
      assert t[|t| - |archivePath|..] == last[|last| - |archivePath|..];
      Some(t)
  }

  const SummaryArchiveName := "download_archive.txt"

  /**
   * The archive path the summary prints, as written: a file next to the log,
   * whose name is not the one the worker archives to.
   */
  function SummaryArchivePathAsWritten(logDir: string): (r: string)
    ensures StartsWith(r, logDir) && EndsWith(r, SummaryArchiveName)
    ensures |r| == |logDir| + |SummaryArchiveName| || |r| == |logDir| + 1 + |SummaryArchiveName|
  {
    PathJoin(logDir, SummaryArchiveName)
  }

  /** The printed path names a file directly inside the log folder. */
  lemma SummaryArchiveInLogDir(logDir: string)
    ensures Basename(SummaryArchivePathAsWritten(logDir)) == SummaryArchiveName
  {
    BasenameOfJoin(logDir, SummaryArchiveName);
  }

  /** Whatever the log folder and the download root, the printed path is never the worker's archive. */
  lemma SummaryArchiveIsNotTheArchive(logDir: string, rootDir: string)
    ensures SummaryArchivePathAsWritten(logDir) != ArchivePath(rootDir)
  {
    var a := SummaryArchivePathAsWritten(logDir);
    var b := ArchivePath(rootDir);
    assert EndsWith(b, ArchiveFileName);
    assert a[|a| - 12] == a[|a| - 20..][8] == '_';
    assert b[|b| - 12] == b[|b| - 21..][9] == '-';
  }

  /**
   * The archive path the summary is meant to print: the file the run's worker
   * records finished ids in. For a run with the archive on, it is exactly the
   * path handed to the engine.
   */
  function SummaryArchivePath(rootDir: string): (r: string)
    ensures forall cfg: Config :: cfg.rootDir == rootDir && !cfg.ignoreArchive ==> ArchiveOption(cfg) == Some(r)
    ensures EndsWith(r, ArchiveFileName)
  {
    ArchivePath(rootDir)
  }
}
