/**
 * The Python string and path operations the scripts rely on, over `seq<char>`:
 * `startswith`, `endswith`, `in`, `replace` of one character, `split` on one
 * character, `isdigit`, `int`, decimal `format`, ASCII `upper`, and the
 * Windows flavour of `os.path.join` and `os.path.dirname` (the scripts write
 * to `G:\...` folders).
 */
module Strings {

  predicate StartsWith(s: string, prefix: string) {
    |prefix| <= |s| && s[..|prefix|] == prefix
  }

  predicate EndsWith(s: string, suffix: string) {
    |suffix| <= |s| && s[|s| - |suffix|..] == suffix
  }

  /** Python's `sub in s` for strings: `sub` occurs somewhere in `s`. */
  predicate Contains(s: string, sub: string) {
    exists i | 0 <= i <= |s| - |sub| :: OccursAt(s, sub, i)
  }

  predicate OccursAt(s: string, sub: string, i: nat) {
    i + |sub| <= |s| && s[i..i + |sub|] == sub
  }

  lemma ConcatEnds(a: string, b: string)
    ensures StartsWith(a + b, a) && EndsWith(a + b, b)
  {
    assert (a + b)[..|a|] == a;
    assert (a + b)[|a + b| - |b|..] == b;
  }

  /** A string that ends with a suffix keeps ending with it when a prefix is put in front. */
  lemma EndsWithPrepend(pre: string, s: string, suffix: string)
    requires EndsWith(s, suffix)
    ensures EndsWith(pre + s, suffix)
  {
    assert (pre + s)[|pre + s| - |suffix|..] == s[|s| - |suffix|..];
  }

  /** A string that starts with a prefix keeps starting with it when something is appended. */
  lemma StartsWithAppend(s: string, prefix: string, post: string)
    requires StartsWith(s, prefix)
    ensures StartsWith(s + post, prefix)
  {
    assert (s + post)[..|prefix|] == s[..|prefix|];
  }

  // ---------------------------------------------------------------------------
  // str.replace with a one-character pattern

  /** `s.replace(target, replacement)` where both are single characters. */
  function ReplaceChar(s: string, target: char, replacement: char): (r: string)
    ensures |r| == |s|
    ensures forall i :: 0 <= i < |s| ==> r[i] == (if s[i] == target then replacement else s[i])
  {
    if s == [] then []
    else [if s[0] == target then replacement else s[0]] + ReplaceChar(s[1..], target, replacement)
  }

  // ---------------------------------------------------------------------------
  // str.split with a one-character separator

  /** Index of the first occurrence of `c` in `s`. */
  function IndexOf(s: string, c: char): (i: nat)
    requires c in s
    ensures i < |s| && s[i] == c && c !in s[..i]
  {
    if s[0] == c then 0
    else
      var j := IndexOf(s[1..], c);
      assert s[..j + 1] == [s[0]] + s[1..][..j];
      1 + j
  }

  /** `s.split(sep)`: the pieces between occurrences of `sep`, at least one. */
  function Split(s: string, sep: char): (parts: seq<string>)
    ensures |parts| >= 1
    ensures forall k :: 0 <= k < |parts| ==> sep !in parts[k]
    decreases |s|
  {
    if sep !in s then [s]
    else
      var i := IndexOf(s, sep);
      [s[..i]] + Split(s[i + 1..], sep)
  }

  /** `sep.join(parts)`. */
  function JoinWith(parts: seq<string>, sep: char): string
    decreases |parts|
  {
    if parts == [] then []
    else if |parts| == 1 then parts[0]
    else parts[0] + [sep] + JoinWith(parts[1..], sep)
  }

  /** Joining the pieces of a split with its separator gives back the string. */
  lemma {:induction false} JoinSplit(s: string, sep: char)
    ensures JoinWith(Split(s, sep), sep) == s
    decreases |s|
  {
    if sep in s {
      var i := IndexOf(s, sep);
      var tail := Split(s[i + 1..], sep);
      JoinSplit(s[i + 1..], sep);
      JoinPieces(s[..i], sep, tail);
      assert s == s[..i] + [sep] + s[i + 1..];
    }
  }

  /** Joining a piece in front of at least one more puts the separator between them. */
  lemma JoinPieces(p: string, sep: char, tail: seq<string>)
    requires |tail| >= 1
    ensures JoinWith([p] + tail, sep) == p + [sep] + JoinWith(tail, sep)
  {
    assert ([p] + tail)[1..] == tail;
  }

  /** The first separator of `p + [sep] + rest` is the one after `p` when `p` has none. */
  lemma {:induction false} IndexOfAfterPiece(p: string, sep: char, rest: string)
    requires sep !in p
    ensures IndexOf(p + [sep] + rest, sep) == |p|
  {
    if p != [] {
      assert (p + [sep] + rest)[1..] == p[1..] + [sep] + rest;
      IndexOfAfterPiece(p[1..], sep, rest);
    }
  }

  /** Splitting a join of separator-free pieces gives back the pieces. */
  lemma {:induction false} SplitJoin(parts: seq<string>, sep: char)
    requires |parts| >= 1
    requires forall k :: 0 <= k < |parts| ==> sep !in parts[k]
    ensures Split(JoinWith(parts, sep), sep) == parts
    decreases |parts|
  {
    if |parts| > 1 {
      var s := JoinWith(parts, sep);
      var p := parts[0];
      var rest := JoinWith(parts[1..], sep);
      assert s == p + [sep] + rest;
      assert s[|p|] == sep;
      IndexOfAfterPiece(p, sep, rest);
      assert s[..|p|] == p;
      assert s[|p| + 1..] == rest;
      SplitJoin(parts[1..], sep);
    }
  }

  /** `s.split(sep)[0]`: the text before the first `sep`, or all of `s`. */
  function FirstField(s: string, sep: char): (r: string)
    ensures StartsWith(s, r) && sep !in r
    ensures sep !in s ==> r == s
    ensures sep in s ==> r == s[..IndexOf(s, sep)]
  {
    Split(s, sep)[0]
  }

  // ---------------------------------------------------------------------------
  // Digits: str.isdigit, int, and "{}".format of a natural number

  predicate IsAsciiDigit(c: char) {
    '0' <= c <= '9'
  }

  /** `s.isdigit()` for ASCII text: non-empty and every character a digit. */
  predicate IsDigitString(s: string) {
    |s| > 0 && forall i :: 0 <= i < |s| ==> IsAsciiDigit(s[i])
  }

  function Pow10(k: nat): (p: nat)
    ensures p >= 1
  {
    if k == 0 then 1 else 10 * Pow10(k - 1)
  }

  /** `int(s)` for a string of ASCII digits (leading zeros allowed). */
  function DecimalValue(s: string): (n: nat)
    requires forall i :: 0 <= i < |s| ==> IsAsciiDigit(s[i])
    ensures n < Pow10(|s|)
  {
    if s == [] then 0
    else
      var c := s[|s| - 1];
      assert IsAsciiDigit(c);
      var d := c as int - '0' as int;
      10 * DecimalValue(s[..|s| - 1]) + d
  }

  function DigitChar(d: nat): (c: char)
    requires d < 10
    ensures IsAsciiDigit(c)
  {
    ('0' as int + d) as char
  }

  /** `"{}".format(n)` for a natural number: decimal, no leading zeros. */
  function DecimalString(n: nat): (s: string)
    ensures IsDigitString(s)
    ensures |s| > 1 ==> s[0] != '0'
  {
    if n < 10 then [DigitChar(n)]
    else DecimalString(n / 10) + [DigitChar(n % 10)]
  }

  /** `int("{}".format(n)) == n`. */
  lemma {:induction false} DecimalRoundTrip(n: nat)
    ensures DecimalValue(DecimalString(n)) == n
  {
    if n >= 10 {
      DecimalRoundTrip(n / 10);
      var s := DecimalString(n);
      assert s[..|s| - 1] == DecimalString(n / 10);
    }
  }

  // ---------------------------------------------------------------------------
  // str.upper, restricted to ASCII letters

  function UpperChar(c: char): char {
    if 'a' <= c <= 'z' then (c as int - 32) as char else c
  }

  function Upper(s: string): string {
    seq(|s|, i requires 0 <= i < |s| => UpperChar(s[i]))
  }

  /** Upper-casing works character by character, so it distributes over concatenation. */
  lemma UpperConcat(a: string, b: string)
    ensures Upper(a + b) == Upper(a) + Upper(b)
  {
  }

  // ---------------------------------------------------------------------------
  // Windows paths (ntpath): os.path.join and os.path.dirname

  predicate IsPathSep(c: char) {
    c == '\\' || c == '/'
  }

  const PathSep: char := '\\'

  /** Length of the drive prefix `X:` that ntpath.splitdrive recognises (0 or 2). */
  function DriveLength(p: string): (n: nat)
    ensures n <= |p|
  {
    if |p| >= 2 && p[1] == ':' then 2 else 0
  }

  /**
   * `os.path.join(dir, name)` for a relative, drive-less `name`: a separator
   * is put between the two unless `dir` is empty, already ends with a
   * separator, or is a bare drive `X:`.
   */
  function PathJoin(dir: string, name: string): (p: string)
    ensures StartsWith(p, dir) && EndsWith(p, name)
    ensures p == dir + name || p == dir + [PathSep] + name
    ensures (dir != [] && !IsPathSep(dir[|dir| - 1]) && DriveLength(dir) != |dir|) ==> p == dir + [PathSep] + name
  {
    ConcatEnds(dir, name);
    ConcatEnds(dir + [PathSep], name);
    StartsWithAppend(dir + [PathSep], dir, name);
    ConcatEnds(dir, [PathSep]);
    if dir == [] || IsPathSep(dir[|dir| - 1]) || DriveLength(dir) == |dir| then dir + name
    else dir + [PathSep] + name
  }

  /** Index just after the last separator of `p` (0 when there is none). */
  function AfterLastSep(p: string): (i: nat)
    ensures i <= |p|
    ensures i > 0 ==> IsPathSep(p[i - 1])
    ensures forall k :: i <= k < |p| ==> !IsPathSep(p[k])
  {
    if p == [] then 0
    else if IsPathSep(p[|p| - 1]) then |p|
    else AfterLastSep(p[..|p| - 1])
  }

  /** `p.rstrip("\\/")`. */
  function StripTrailingSeps(p: string): (r: string)
    ensures StartsWith(p, r)
    ensures r != [] ==> !IsPathSep(r[|r| - 1])
    ensures forall k :: |r| <= k < |p| ==> IsPathSep(p[k])
  {
    if p != [] && IsPathSep(p[|p| - 1]) then
      var r := StripTrailingSeps(p[..|p| - 1]);
      assert p[..|r|] == p[..|p| - 1][..|r|];
      r
    else p
  }

  /**
   * `os.path.dirname(p)` (ntpath): the drive, then everything before the last
   * separator with trailing separators removed, unless that leaves nothing,
   * in which case the separators are kept (the root).
   */
  function DirName(p: string): (d: string)
    ensures StartsWith(p, d)
    ensures (forall k :: DriveLength(p) <= k < |p| ==> !IsPathSep(p[k])) ==> d == p[..DriveLength(p)]
  {
    var n := DriveLength(p);
    var rest := p[n..];
    var head := rest[..AfterLastSep(rest)];
    var stripped := StripTrailingSeps(head);
    var d := p[..n] + (if stripped == [] then head else stripped);
    assert p == p[..n] + rest;
    assert StartsWith(rest, head);
    assert StartsWith(rest, stripped) by {
      assert rest[..|stripped|] == head[..|stripped|];
    }
    assert d == p[..|d|];
    d
  }
}
