/**
 * String helpers with Python's meaning: `str.strip()`, `str.lstrip(chars)`,
 * `in` on strings, `startswith`, ASCII lower-casing, decimal rendering of
 * integers, `sep.join(...)`, and the Windows path helpers `os.path.join` and
 * `os.path.basename` for the simple cases the program uses.
 */
module Text {

  /** Python's `str.isspace()` for one character (also what `\s` matches in `re`). */
  predicate IsSpace(c: char) {
    var n := c as int;
    (0x09 <= n <= 0x0D) || (0x1C <= n <= 0x20) || n == 0x85 || n == 0xA0 || n == 0x1680
    || (0x2000 <= n <= 0x200A) || n == 0x2028 || n == 0x2029 || n == 0x202F || n == 0x205F || n == 0x3000
  }

  predicate AllSpace(s: string) {
    forall i :: 0 <= i < |s| ==> IsSpace(s[i])
  }

  /** `s.lstrip()`: drops leading whitespace. */
  function LStrip(s: string): (r: string)
    ensures |r| <= |s| && r == s[|s| - |r|..]
    ensures AllSpace(s[..|s| - |r|])
    ensures r == [] || !IsSpace(r[0])
  {
    if |s| > 0 && IsSpace(s[0]) then
      var t := s[1..];
      var r := LStrip(t);
      assert s[..|s| - |r|] == [s[0]] + t[..|t| - |r|];
      r
    else s
  }

  /** `s.rstrip()`: drops trailing whitespace. */
  function RStrip(s: string): (r: string)
    ensures |r| <= |s| && r == s[..|r|]
    ensures AllSpace(s[|r|..])
    ensures r == [] || !IsSpace(r[|r| - 1])
  {
    if |s| > 0 && IsSpace(s[|s| - 1]) then
      var t := s[..|s| - 1];
      var r := RStrip(t);
      assert s[|r|..] == t[|r|..] + [s[|s| - 1]];
      r
    else s
  }

  /** `s.strip()`. */
  function Strip(s: string): string {
    RStrip(LStrip(s))
  }

  /** `r` is the piece of `s` at offset `i` once the whitespace on both sides is dropped. */
  predicate TrimmedAt(s: string, r: string, i: nat) {
    i + |r| <= |s| && r == s[i..i + |r|]
    && (forall k :: 0 <= k < i ==> IsSpace(s[k]))
    && (forall k :: i + |r| <= k < |s| ==> IsSpace(s[k]))
    && (r == [] || (!IsSpace(r[0]) && !IsSpace(r[|r| - 1])))
  }

  /** What `LStrip` drops is the whitespace before the offset it returns. */
  lemma LStripDropsSpace(s: string)
    ensures forall k :: 0 <= k < |s| - |LStrip(s)| ==> IsSpace(s[k])
  {
    var d := s[..|s| - |LStrip(s)|];
    forall k | 0 <= k < |d|
      ensures IsSpace(s[k])
    {
      assert d[k] == s[k];
    }
  }

  /** What `RStrip` drops is the whitespace after the prefix it returns. */
  lemma RStripDropsSpace(s: string)
    ensures forall k :: |RStrip(s)| <= k < |s| ==> IsSpace(s[k])
  {
    var n := |RStrip(s)|;
    var d := s[n..];
    forall k | n <= k < |s|
      ensures IsSpace(s[k])
    {
      assert d[k - n] == s[k];
    }
  }

  /** A prefix `r` of the suffix `l` of `s` at offset `i`, with whitespace around it. */
  lemma TrimmedPieces(s: string, l: string, r: string, i: nat)
    requires i + |l| == |s| && l == s[i..] && |r| <= |l| && r == l[..|r|]
    requires forall k :: 0 <= k < i ==> IsSpace(s[k])
    requires forall k :: |r| <= k < |l| ==> IsSpace(l[k])
    requires r == [] || (!IsSpace(l[0]) && !IsSpace(r[|r| - 1]))
    ensures TrimmedAt(s, r, i)
  {
    forall k | i + |r| <= k < |s|
      ensures IsSpace(s[k])
    {
      assert l[k - i] == s[k];
    }
    if r != [] {
      assert r[0] == l[0];
    }
  }

  /**
   * `Strip` keeps one contiguous piece of its input that neither starts nor
   * ends with whitespace, and everything it drops is whitespace.
   */
  lemma StripIsTrimmedSlice(s: string)
    ensures TrimmedAt(s, Strip(s), |s| - |LStrip(s)|)
  {
    var l := LStrip(s);
    LStripDropsSpace(s);
    RStripDropsSpace(l);
    TrimmedPieces(s, l, RStrip(l), |s| - |l|);
  }

  /** Stripping twice is stripping once. */
  lemma StripIdempotent(s: string)
    ensures Strip(Strip(s)) == Strip(s)
  {
    StripIsTrimmedSlice(s);
  }

  /** A string is all whitespace exactly when it strips to nothing. */
  lemma StripEmptyIffAllSpace(s: string)
    ensures Strip(s) == [] <==> AllSpace(s)
  {
    var l := LStrip(s);
    assert s == s[..|s| - |l|] + l;
  }

  /** `s.lstrip(chars)`: drops leading characters that belong to `chars`. */
  function LStripChars(s: string, chars: set<char>): (r: string)
    ensures |r| <= |s| && r == s[|s| - |r|..]
    ensures forall i :: 0 <= i < |s| - |r| ==> s[i] in chars
    ensures r == [] || r[0] !in chars
  {
    if |s| > 0 && s[0] in chars then LStripChars(s[1..], chars) else s
  }

  predicate StartsWith(s: string, prefix: string) {
    |prefix| <= |s| && s[..|prefix|] == prefix
  }

  predicate EndsWith(s: string, suffix: string) {
    |suffix| <= |s| && s[|s| - |suffix|..] == suffix
  }

  /** `sub` occurs in `s` starting at index `i`. */
  predicate OccursAt(s: string, sub: string, i: nat) {
    i + |sub| <= |s| && s[i..i + |sub|] == sub
  }

  /** Python's `sub in s`: `sub` occurs at some position of `s`. */
  predicate Contains(s: string, sub: string) {
    exists i: nat :: i <= |s| && OccursAt(s, sub, i)
  }

  /** An occurrence at a known position proves containment. */
  lemma ContainsAt(s: string, sub: string, i: nat)
    requires OccursAt(s, sub, i)
    ensures Contains(s, sub)
  {
  }

  /** A string cannot contain a needle one of whose characters it lacks. */
  lemma MissingCharNotContained(s: string, sub: string, c: char)
    requires c in sub && c !in s
    ensures !Contains(s, sub)
  {
    var j :| 0 <= j < |sub| && sub[j] == c;
    forall i: nat
      ensures !OccursAt(s, sub, i)
    {
      if i + |sub| <= |s| {
        assert s[i..i + |sub|][j] == s[i + j];
      }
    }
  }

  /** A string contains everything its pieces contain. */
  lemma ContainsInPart(a: string, b: string, sub: string)
    requires Contains(b, sub)
    ensures Contains(a + b, sub) && Contains(b + a, sub)
  {
    var i: nat :| i <= |b| && OccursAt(b, sub, i);
    assert i + |sub| <= |b|;
    assert (a + b)[|a| + i..|a| + i + |sub|] == b[i..i + |sub|];
    assert (b + a)[i..i + |sub|] == b[i..i + |sub|];
    ContainsAt(a + b, sub, |a| + i);
    ContainsAt(b + a, sub, i);
  }

  /** ASCII lower-casing of one character. */
  function LowerChar(c: char): char {
    if 'A' <= c <= 'Z' then (c as int + 32) as char else c
  }

  /**
   * `s.lower()` restricted to ASCII letters. For the needles this program looks
   * for, that gives the same answers as Python's full Unicode lower-casing.
   */
  function Lower(s: string): (r: string)
    ensures |r| == |s| && forall i :: 0 <= i < |s| ==> r[i] == LowerChar(s[i])
  {
    seq(|s|, i requires 0 <= i < |s| => LowerChar(s[i]))
  }

  function Digit(d: nat): char
    requires d < 10
  {
    ('0' as int + d) as char
  }

  /** Decimal rendering of a natural number, as `str(n)` or `f"{n}"` gives it. */
  function NatToString(n: nat): (r: string)
    ensures |r| >= 1 && forall i :: 0 <= i < |r| ==> '0' <= r[i] <= '9'
  {
    if n < 10 then [Digit(n)] else NatToString(n / 10) + [Digit(n % 10)]
  }

  /** The number a string of decimal digits denotes, read most significant digit first. */
  function DecimalValue(s: string): int {
    if s == [] then 0 else DecimalValue(s[..|s| - 1]) * 10 + (s[|s| - 1] as int - '0' as int)
  }

  /** The rendering denotes `n`, and only the rendering of 0 begins with a zero. */
  lemma {:induction false} NatToStringValue(n: nat)
    ensures DecimalValue(NatToString(n)) == n
    ensures NatToString(n)[0] == '0' <==> n == 0
  {
    var r := NatToString(n);
    if n < 10 {
      assert r[..|r| - 1] == [];
    } else {
      NatToStringValue(n / 10);
      assert r[..|r| - 1] == NatToString(n / 10);
      assert r[0] == NatToString(n / 10)[0];
    }
  }

  /** Different numbers render differently. */
  lemma NatToStringInjective(a: nat, b: nat)
    requires NatToString(a) == NatToString(b)
    ensures a == b
  {
    NatToStringValue(a);
    NatToStringValue(b);
  }

  /** Decimal rendering of an integer, with a leading `-` when negative. */
  function IntToString(n: int): string {
    if n < 0 then "-" + NatToString(-n) else NatToString(n)
  }

  /** `sep.join(xs)`. */
  function Join(sep: string, xs: seq<string>): string
  {
    if |xs| == 0 then "" else if |xs| == 1 then xs[0] else Join(sep, xs[..|xs| - 1]) + sep + xs[|xs| - 1]
  }

  /** A joined list starts with its first item and ends with its last. */
  lemma {:induction false} JoinEnds(sep: string, xs: seq<string>)
    requires |xs| > 0
    ensures StartsWith(Join(sep, xs), xs[0])
    ensures EndsWith(Join(sep, xs), xs[|xs| - 1])
  {
    if |xs| > 1 {
      JoinEnds(sep, xs[..|xs| - 1]);
      var j := Join(sep, xs[..|xs| - 1]);
      assert (j + sep + xs[|xs| - 1])[..|xs[0]|] == j[..|xs[0]|];
    }
  }

  predicate IsPathSep(c: char) {
    c == '\\' || c == '/'
  }

  /** `ntpath.splitdrive` finds a drive letter: a second character `:` after a non-separator. */
  predicate HasDrive(path: string) {
    |path| >= 2 && path[1] == ':' && !IsPathSep(path[0])
  }

  /**
   * Whether `ntpath.join` puts a backslash after `dir`: unless `dir` is empty,
   * ends with a separator, or is a bare drive such as `C:`.
   */
  predicate NeedsSeparator(dir: string) {
    !(dir == [] || IsPathSep(dir[|dir| - 1]) || (|dir| == 2 && HasDrive(dir)))
  }

  /** `ntpath.join(dir, name)` for a relative `name` without a drive letter. */
  function PathJoin(dir: string, name: string): (r: string)
    ensures StartsWith(r, dir) && EndsWith(r, name)
    ensures NeedsSeparator(dir) ==> r == dir + "\\" + name
    ensures !NeedsSeparator(dir) ==> r == dir + name
  {
    var r := if NeedsSeparator(dir) then dir + "\\" + name else dir + name;
    assert r[|r| - |name|..] == name;
    assert r[..|dir|] == dir;
    r
  }

  /** The last component of a path without a drive: what follows its last separator. */
  function TailName(path: string): (r: string)
    ensures EndsWith(path, r)
    ensures forall i :: 0 <= i < |r| ==> !IsPathSep(r[i])
    ensures |r| < |path| ==> IsPathSep(path[|path| - |r| - 1])
  {
    if |path| == 0 || IsPathSep(path[|path| - 1]) then ""
    else
      var r := TailName(path[..|path| - 1]) + [path[|path| - 1]];
      assert path[|path| - |r|..] == path[..|path| - 1][|path| - |r|..] + [path[|path| - 1]];
      r
  }

  /**
   * `ntpath.basename(path)`: the drive letter is split off first, then what
   * follows the last separator is kept.
   */
  function Basename(path: string): (r: string)
    ensures EndsWith(path, r)
    ensures forall i :: 0 <= i < |r| ==> !IsPathSep(r[i])
    ensures |r| < |path| ==> IsPathSep(path[|path| - |r| - 1]) || (HasDrive(path) && |r| == |path| - 2)
    ensures HasDrive(path) ==> |r| <= |path| - 2
  {
    if HasDrive(path) then
      var r := TailName(path[2..]);
      assert path[|path| - |r|..] == path[2..][|path| - 2 - |r|..];
      r
    else TailName(path)
  }

  /** A separator-free name after a separator (or alone) is its own last component. */
  lemma {:induction false} TailNameAfterSeparator(p: string, name: string)
    requires p == [] || IsPathSep(p[|p| - 1])
    requires forall i :: 0 <= i < |name| ==> !IsPathSep(name[i])
    ensures TailName(p + name) == name
  {
    if name != [] {
      var q := name[..|name| - 1];
      TailNameAfterSeparator(p, q);
      assert (p + name)[..|p + name| - 1] == p + q;
    } else {
      assert p + name == p;
    }
  }

  /** Joining a directory and a plain file name, then taking the base name, gives the file name back. */
  lemma BasenameOfJoin(dir: string, name: string)
    requires forall i :: 0 <= i < |name| ==> !IsPathSep(name[i])
    requires !HasDrive(name)
    ensures Basename(PathJoin(dir, name)) == name
  {
    var r := PathJoin(dir, name);
    if NeedsSeparator(dir) {
      var p := dir + "\\";
      assert r == p + name;
      if HasDrive(r) {
        assert r[2..] == p[2..] + name;
        TailNameAfterSeparator(p[2..], name);
      } else {
        TailNameAfterSeparator(p, name);
      }
    } else if HasDrive(r) {
      if |dir| >= 2 {
        assert r[2..] == dir[2..] + name;
        TailNameAfterSeparator(dir[2..], name);
      }
    } else {
      TailNameAfterSeparator(dir, name);
    }
  }
}
