/**
 * Character-level text operations the reply parser relies on: Python's
 * argument-less `str.strip()` and `str.split("\n", 1)`.
 */
module Text {
  import opened Wrappers

  /**
   * The characters for which Python's `str.isspace()` holds, which are the
   * ones `str.strip()` with no argument removes: TAB through CR, the four
   * information separators, SPACE, NEL, NO-BREAK SPACE and the Unicode
   * space separators, line and paragraph separators.
   */
  predicate IsSpace(c: char) {
    ('\t' <= c <= '\r') || ('\U{1C}' <= c <= ' ') || c == '\U{85}' || c == '\U{A0}'
    || c == '\U{1680}' || ('\U{2000}' <= c <= '\U{200A}') || c == '\U{2028}' || c == '\U{2029}'
    || c == '\U{202F}' || c == '\U{205F}' || c == '\U{3000}'
  }

  predicate AllSpace(s: string) {
    forall k :: 0 <= k < |s| ==> IsSpace(s[k])
  }

  /** Every character of `s` at an index in `[lo, hi)` is whitespace. */
  predicate SpaceBetween(s: string, lo: nat, hi: nat)
    requires lo <= hi <= |s|
  {
    forall k :: lo <= k < hi ==> IsSpace(s[k])
  }

  /** Scanning forward from `i`: the index of the first non-whitespace character, or `|s|`. */
  function SkipSpace(s: string, i: nat): (j: nat)
    requires i <= |s|
    ensures i <= j <= |s| && SpaceBetween(s, i, j)
    ensures j < |s| ==> !IsSpace(s[j])
    decreases |s| - i
  {
    if i < |s| && IsSpace(s[i]) then SkipSpace(s, i + 1) else i
  }

  /**
   * Scanning backward from `hi`, never below `lo`: one past the last
   * non-whitespace character in `[lo, hi)`, or `lo`.
   */
  function SkipSpaceBack(s: string, lo: nat, hi: nat): (j: nat)
    requires lo <= hi <= |s|
    ensures lo <= j <= hi && SpaceBetween(s, j, hi)
    ensures j > lo ==> !IsSpace(s[j - 1])
    decreases hi - lo
  {
    if lo < hi && IsSpace(s[hi - 1]) then SkipSpaceBack(s, lo, hi - 1) else hi
  }

  /**
   * `s.strip()`: the slice of `s` left once whitespace is removed from both
   * ends. It neither starts nor ends with whitespace and is empty exactly
   * when `s` is all whitespace; StripUnique shows that these facts and the
   * all-whitespace margins determine it.
   */
  function Strip(s: string): (r: string)
    ensures |r| <= |s|
    ensures r == [] || (!IsSpace(r[0]) && !IsSpace(r[|r| - 1]))
    ensures r == [] <==> AllSpace(s)
  {
    var i := SkipSpace(s, 0);
    s[i..SkipSpaceBack(s, i, |s|)]
  }

  /** `s.rstrip()`: `s` without its longest all-whitespace suffix. */
  function TrimEnd(s: string): (r: string)
    ensures |r| <= |s| && r == s[..|r|]
    ensures SpaceBetween(s, |r|, |s|)
    ensures r == [] || !IsSpace(r[|r| - 1])
  {
    s[..SkipSpaceBack(s, 0, |s|)]
  }

  /**
   * Stripping is determined by its result's shape: any string written as
   * whitespace + core + whitespace, where the core neither starts nor ends
   * with whitespace, strips to that core.
   */
  lemma StripUnique(p: string, r: string, q: string)
    requires AllSpace(p) && AllSpace(q)
    requires r == [] || (!IsSpace(r[0]) && !IsSpace(r[|r| - 1]))
    ensures Strip(p + r + q) == r
  {
    var s := p + r + q;
    var i := SkipSpace(s, 0);
    if r == [] {
      assert AllSpace(s);
    } else {
      assert s[|p|] == r[0];
      assert i == |p|;
      var j := SkipSpaceBack(s, i, |s|);
      assert s[|p| + |r| - 1] == r[|r| - 1];
      assert j == |p| + |r|;
      assert s[i..j] == r;
    }
  }

  /** Stripping twice is stripping once. */
  lemma StripIdempotent(s: string)
    ensures Strip(Strip(s)) == Strip(s)
  {
    var r := Strip(s);
    assert [] + r + [] == r;
    StripUnique([], r, []);
  }

  /** Extra whitespace on either side of a string does not change its strip. */
  lemma StripIgnoresPadding(ws1: string, s: string, ws2: string)
    requires AllSpace(ws1) && AllSpace(ws2)
    ensures Strip(ws1 + s + ws2) == Strip(s)
  {
    var i := SkipSpace(s, 0);
    var j := SkipSpaceBack(s, i, |s|);
    var p, r, q := ws1 + s[..i], s[i..j], s[j..] + ws2;
    assert ws1 + s + ws2 == p + r + q;
    StripUnique(p, r, q);
  }

  /**
   * When only whitespace follows a line that starts with a visible
   * character, stripping keeps that line minus its trailing whitespace.
   */
  lemma StripOfBlankTail(line: string, tail: string)
    requires line != [] && !IsSpace(line[0])
    requires AllSpace(tail)
    ensures TrimEnd(line) != [] && Strip(line + tail) == TrimEnd(line)
  {
    var w := TrimEnd(line);
    assert w != [] && w[0] == line[0];
    var q := line[|w|..] + tail;
    assert line + tail == [] + w + q;
    StripUnique([], w, q);
  }

  /**
   * When a line that starts with a visible character is followed by a
   * newline and text that is not blank, stripping only trims that text's end.
   */
  lemma StripOfVisibleTail(line: string, post: string)
    requires line != [] && !IsSpace(line[0])
    requires !AllSpace(post)
    ensures TrimEnd(post) != []
    ensures Strip(line + "\n" + post) == line + "\n" + TrimEnd(post)
  {
    var v := TrimEnd(post);
    assert v != [];
    var core := line + "\n" + v;
    var q := post[|v|..];
    assert post == v + q;
    assert line + "\n" + post == [] + core + q;
    StripUnique([], core, q);
  }

  /** Every character of `Strip(s)` is a character of `s`. */
  lemma StripIsSubstring(s: string, c: char)
    requires c in Strip(s)
    ensures c in s
  {
    var i := SkipSpace(s, 0);
    var r := Strip(s);
    var k :| 0 <= k < |r| && r[k] == c;
    assert s[i + k] == c;
  }

  /** Scanning forward from `i`: the index of the first newline, or `|s|`. */
  function FindNewline(s: string, i: nat): (k: nat)
    requires i <= |s|
    ensures i <= k <= |s|
    ensures k < |s| ==> s[k] == '\n'
    ensures forall m :: i <= m < k ==> s[m] != '\n'
    decreases |s| - i
  {
    if i == |s| || s[i] == '\n' then i else FindNewline(s, i + 1)
  }

  /**
   * `s.split("\n", 1)` when `"\n" in s`: the text before the first newline
   * and the text after it; `None` when `s` has no newline.
   */
  function SplitFirstNewline(s: string): (r: Option<(string, string)>)
    ensures r.None? <==> '\n' !in s
    ensures r.Some? ==> s == r.value.0 + "\n" + r.value.1 && '\n' !in r.value.0
  {
    var k := FindNewline(s, 0);
    if k == |s| then None
    else
      assert s == s[..k] + "\n" + s[k + 1..];
      Some((s[..k], s[k + 1..]))
  }

  /** The split is at the FIRST newline: any newline-free head is the one found. */
  lemma SplitFirstNewlineUnique(head: string, tail: string)
    requires '\n' !in head
    ensures SplitFirstNewline(head + "\n" + tail) == Some((head, tail))
  {
    var s := head + "\n" + tail;
    assert s[|head|] == '\n';
    var k := FindNewline(s, 0);
    assert k == |head|;
    assert s[..k] == head && s[k + 1..] == tail;
  }
}
