/**
 * The version cut inline in `generateExecutionVersions` (src/metrics.ts:417-423):
 * the capture group of the first match of the global regex `.*:(.*)_.*` in a worker's image.
 *
 * JavaScript's `.` matches any code unit except a line terminator, so a match never
 * crosses one; within a line both `.*` are greedy. The first match therefore lies in
 * the first line holding a `:` before a `_`, and captures the text between that
 * line's last `_` and the last `:` in front of it. `None` is the case where
 * `matchAll` finds nothing, `m[0]` is `undefined`, and `m[0][1]` throws.
 */
module ImageVersion {
  import opened Wrappers

  predicate IsLineTerminator(ch: char) {
    ch == '\n' || ch == '\r' || ch == '\U{2028}' || ch == '\U{2029}'
  }

  predicate SingleLine(s: string) {
    forall i :: 0 <= i < |s| ==> !IsLineTerminator(s[i])
  }

  /** One way `.*:(.*)_.*` can match a whole line: the `:` at `c` and the `_` at `u`. */
  predicate IsSplit(line: string, c: int, u: int) {
    0 <= c < u < |line| && line[c] == ':' && line[u] == '_'
  }

  /** The position of the last occurrence of `ch` in `s`. */
  function LastIndex(s: string, ch: char): (r: Option<nat>)
    ensures r.Some? ==> r.value < |s| && s[r.value] == ch && forall i :: r.value < i < |s| ==> s[i] != ch
    ensures r.None? ==> forall i :: 0 <= i < |s| ==> s[i] != ch
    decreases |s|
  {
    if s == [] then None
    else if s[|s| - 1] == ch then Some(|s| - 1)
    else LastIndex(s[..|s| - 1], ch)
  }

  /** The greedy match on one line: the last `_`, then the last `:` before it. */
  function MatchLine(line: string): Option<string> {
    match LastIndex(line, '_')
    case None => None
    case Some(u) =>
      match LastIndex(line[..u], ':')
      case None => None
      case Some(c) => Some(line[c + 1..u])
  }

  /** The length of the first line of `s`. */
  function LineEnd(s: string): (k: nat)
    ensures k <= |s| && SingleLine(s[..k])
    ensures k < |s| ==> IsLineTerminator(s[k])
    decreases |s|
  {
    if s == [] || IsLineTerminator(s[0]) then 0
    else
      var k := 1 + LineEnd(s[1..]);
      assert s[..k] == [s[0]] + s[1..][..k - 1];
      k
  }

  /** The version label cut out of an image, or `None` when the regex finds no match. */
  function Version(image: string): Option<string>
    decreases |image|
  {
    var k := LineEnd(image);
    match MatchLine(image[..k])
    case Some(v) => Some(v)
    case None => if k == |image| then None else Version(image[k + 1..])
  }

  /**
   * Against the regex's own semantics: on a single line the match exists exactly
   * when some `:` precedes some `_`, and the captured text sits between the split
   * that the greedy backtracking prefers, the rightmost `:` and the rightmost `_`.
   */
  lemma MatchLineIsGreedy(line: string)
    ensures MatchLine(line).None? <==> !exists c, u :: IsSplit(line, c, u)
    ensures MatchLine(line).Some? ==>
              exists c, u :: && IsSplit(line, c, u)
                             && MatchLine(line).value == line[c + 1..u]
                             && forall c', u' :: IsSplit(line, c', u') ==> c' <= c && u' <= u
  {
    match LastIndex(line, '_')
    case None =>
      NoUnderscoreNoSplit(line);
    case Some(u) =>
      match LastIndex(line[..u], ':')
      case None =>
        NoColonNoSplit(line, u);
      case Some(c) =>
        RightmostSplit(line, c, u);
        assert MatchLine(line).value == line[c + 1..u];
  }

  lemma NoUnderscoreNoSplit(line: string)
    requires LastIndex(line, '_').None?
    ensures !exists c, u :: IsSplit(line, c, u)
  {
    forall c, u | 0 <= c < u < |line| ensures !IsSplit(line, c, u) {
      assert line[u] != '_';
    }
  }

  lemma NoColonNoSplit(line: string, u: nat)
    requires LastIndex(line, '_') == Some(u) && LastIndex(line[..u], ':').None?
    ensures !exists c, u :: IsSplit(line, c, u)
  {
    var prefix := line[..u];
    forall c', u' | 0 <= c' < u' < |line| && line[u'] == '_' ensures line[c'] != ':' {
      assert c' < u && prefix[c'] == line[c'];
    }
  }

  lemma RightmostSplit(line: string, c: nat, u: nat)
    requires LastIndex(line, '_') == Some(u) && LastIndex(line[..u], ':') == Some(c)
    ensures IsSplit(line, c, u)
    ensures forall c', u' :: IsSplit(line, c', u') ==> c' <= c && u' <= u
  {
    var prefix := line[..u];
    forall c', u' | IsSplit(line, c', u') ensures c' <= c && u' <= u {
      assert c' < u && prefix[c'] == ':';
    }
  }

  /** On a single-line image the first match is the match of that line. */
  lemma VersionOfSingleLine(image: string)
    requires SingleLine(image)
    ensures Version(image) == MatchLine(image)
  {
    var k := LineEnd(image);
    assert image[..k] == image;
  }

  /**
   * An image `<repository>:<tag>_<build>` on one line, where the tag holds no `:` and
   * the build no `_`, yields the tag: `…/teraslice:v0.70.0_12345` gives `v0.70.0`.
   */
  lemma {:induction false} VersionOfTaggedImage(repository: string, tag: string, build: string)
    requires SingleLine(repository + ":" + tag + "_" + build)
    requires forall i :: 0 <= i < |tag| ==> tag[i] != ':'
    requires forall i :: 0 <= i < |build| ==> build[i] != '_'
    ensures Version(repository + ":" + tag + "_" + build) == Some(tag)
  {
    var prefix := repository + ":" + tag;
    var image := prefix + "_" + build;
    var c, u := |repository|, |prefix|;
    assert forall i :: u < i < |image| ==> image[i] == build[i - u - 1];
    LastIndexIs(image, '_', u);
    assert image[..u] == prefix;
    assert forall i :: c < i < u ==> prefix[i] == tag[i - c - 1];
    LastIndexIs(prefix, ':', c);
    assert prefix[c + 1..u] == tag;
    VersionOfSingleLine(image);
  }

  /** `LastIndex` finds the occurrence that no later one follows. */
  lemma LastIndexIs(s: string, ch: char, k: nat)
    requires k < |s| && s[k] == ch
    requires forall i :: k < i < |s| ==> s[i] != ch
    ensures LastIndex(s, ch) == Some(k)
  {
  }

  /**
   * An image on one line without a `:` before its last `_` (in particular one without
   * any `_`, such as `…/teraslice:v0.70.0`) has no match: the projection throws on it.
   */
  lemma NoVersionWithoutSplit(image: string)
    requires SingleLine(image)
    requires !exists c, u :: IsSplit(image, c, u)
    ensures Version(image).None?
  {
    VersionOfSingleLine(image);
    MatchLineIsGreedy(image);
  }

  /**
   * A match never extends over a line terminator: when the first line has no match,
   * the search resumes after the terminator, and when it has one the rest is ignored.
   */
  lemma VersionOfFirstLine(line: string, t: char, rest: string)
    requires SingleLine(line) && IsLineTerminator(t)
    ensures MatchLine(line).Some? ==> Version(line + [t] + rest) == MatchLine(line)
    ensures MatchLine(line).None? ==> Version(line + [t] + rest) == Version(rest)
  {
    var image := line + [t] + rest;
    var k := LineEnd(image);
    assert image[|line|] == t;
    assert forall i :: 0 <= i < |line| ==> image[i] == line[i];
    assert k == |line|;
    assert image[..k] == line;
    assert image[k + 1..] == rest;
  }
}
