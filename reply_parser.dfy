/**
 * The reply parser of the resume-rating tool: it turns the language model's
 * free-text answer into a score on the 0..10 gauge and a suggestions text,
 * or fails when the answer does not start with a number.
 */
module ReplyParser {
  import opened Wrappers
  import opened Text
  import opened Digits

  /** The placeholder shown when the reply has no second line. */
  const NoSuggestions: string := "No suggestions found."

  /** A successfully parsed reply: the gauge value and the suggestions text. */
  datatype ParsedResult = ParsedResult(score: int, suggestions: string)

  /** `min(max(n, 0), 10)`: `n` forced into the gauge range 0..10. */
  function Clamp(n: int): (r: int)
    ensures 0 <= r <= 10
    ensures 0 <= n <= 10 ==> r == n
    ensures n > 10 ==> r == 10
    ensures n < 0 ==> r == 0
  {
    var atLeastZero := if n > 0 then n else 0;
    if atLeastZero < 10 then atLeastZero else 10
  }

  /**
   * The suggestions taken from the stripped reply `t`: everything after its
   * first newline, or the placeholder when it has none.
   */
  function Suggestions(t: string): (r: string)
    ensures '\n' !in t ==> r == NoSuggestions
    ensures '\n' in t ==> |r| < |t| && r == t[|t| - |r|..]
                          && t[|t| - |r| - 1] == '\n' && '\n' !in t[..|t| - |r| - 1]
  {
    match SplitFirstNewline(t)
    case Some((_, after)) => after
    case None => NoSuggestions
  }

  /**
   * The whole parse of a model reply: strip it, match the leading digit
   * run, read it as a number and clamp it, and take the suggestions from
   * the stripped text. `None` is the error branch, where neither a score
   * nor suggestions are produced.
   */
  function ParseReply(reply: string): (r: Option<ParsedResult>)
    ensures r.Some? <==> Strip(reply) != [] && IsDigit(Strip(reply)[0])
    ensures r.Some? ==> 0 <= r.value.score <= 10
  {
    var text := Strip(reply);
    var run := LeadingDigits(text);
    if run == [] then None
    else Some(ParsedResult(Clamp(DigitsToNat(run)), Suggestions(text)))
  }

  /**
   * Parsing succeeds exactly when the first character of the raw reply that
   * is not whitespace exists and is a decimal digit.
   */
  lemma ParseSucceedsIffFirstVisibleIsDigit(reply: string)
    ensures ParseReply(reply).Some?
            <==> exists j :: 0 <= j < |reply| && IsDigit(reply[j]) && SpaceBetween(reply, 0, j)
  {
    var i := SkipSpace(reply, 0);
    if ParseReply(reply).Some? {
      assert Strip(reply)[0] == reply[i];
      assert IsDigit(reply[i]) && SpaceBetween(reply, 0, i);
    }
    if j :| 0 <= j < |reply| && IsDigit(reply[j]) && SpaceBetween(reply, 0, j) {
      assert !IsSpace(reply[j]);
      assert i == j;
      assert Strip(reply) != [];
      assert Strip(reply)[0] == reply[j];
    }
  }

  /**
   * When the stripped reply is a maximal digit run followed by anything
   * else, the score is the number the whole run denotes, capped at 10.
   */
  lemma ScoreOfLeadingRun(reply: string, run: string, rest: string)
    requires run != [] && AllDigits(run)
    requires rest == [] || !IsDigit(rest[0])
    requires Strip(reply) == run + rest
    ensures ParseReply(reply).Some?
    ensures ParseReply(reply).value.score
            == if DigitsToNat(run) <= 10 then DigitsToNat(run) else 10
  {
    LeadingDigitsOfRun(run, rest);
  }

  /** Leading zeros in the digit run do not change the score ("007" scores 7). */
  lemma ScoreIgnoresLeadingZeros(reply: string, zeros: string, run: string, rest: string)
    requires AllZeros(zeros) && AllDigits(run) && zeros + run != []
    requires rest == [] || !IsDigit(rest[0])
    requires Strip(reply) == zeros + run + rest
    ensures ParseReply(reply).Some?
    ensures ParseReply(reply).value.score
            == if DigitsToNat(run) <= 10 then DigitsToNat(run) else 10
  {
    DigitsToNatIgnoresLeadingZeros(zeros, run);
    assert zeros + run + rest == (zeros + run) + rest;
    ScoreOfLeadingRun(reply, zeros + run, rest);
  }

  /**
   * When the stripped reply has a newline, the suggestions are exactly the
   * text after its first newline, so the text before it, the newline and
   * the suggestions rebuild the stripped reply.
   */
  lemma SuggestionsFollowFirstNewline(reply: string, head: string, tail: string)
    requires '\n' !in head
    requires Strip(reply) == head + "\n" + tail
    ensures ParseReply(reply).Some? ==> ParseReply(reply).value.suggestions == tail
    ensures ParseReply(reply).Some? ==>
              head + "\n" + ParseReply(reply).value.suggestions == Strip(reply)
  {
    SplitFirstNewlineUnique(head, tail);
  }

  /** Whitespace around the reply is irrelevant to the parse. */
  lemma ParseIgnoresPadding(ws1: string, s: string, ws2: string)
    requires AllSpace(ws1) && AllSpace(ws2)
    ensures ParseReply(ws1 + s + ws2) == ParseReply(s)
  {
    StripIgnoresPadding(ws1, s, ws2);
  }

  /**
   * A single-line reply followed only by whitespace (such as "3\n") parses
   * like the bare line, and its suggestions are the placeholder: the
   * trailing newline is stripped before the split.
   */
  lemma TrailingNewlineGivesNoSuggestions(line: string, ws: string)
    requires '\n' !in line && AllSpace(ws)
    ensures ParseReply(line + ws) == ParseReply(line)
    ensures ParseReply(line + ws).Some? ==> ParseReply(line + ws).value.suggestions == NoSuggestions
  {
    assert [] + line + ws == line + ws;
    ParseIgnoresPadding([], line, ws);
    if '\n' in Strip(line) {
      StripIsSubstring(line, '\n');
    }
  }

  /**
   * The parse of a reply whose first line is a digit run followed by text
   * `x` that neither starts with a digit nor contains a newline: the score
   * is the clamped run, and the suggestions are the remaining lines without
   * their trailing whitespace, or the placeholder when those are blank.
   */
  lemma ParseOfFirstLine(run: string, x: string, tail: string)
    requires run != [] && AllDigits(run)
    requires '\n' !in x && (x == [] || !IsDigit(x[0]))
    requires tail == [] || tail[0] == '\n'
    ensures ParseReply(run + x + tail)
            == Some(ParsedResult(Clamp(DigitsToNat(run)),
                                 if tail == [] || AllSpace(tail[1..]) then NoSuggestions
                                 else TrimEnd(tail[1..])))
  {
    if tail == [] || AllSpace(tail[1..]) {
      assert AllSpace(tail) by {
        if tail != [] {
          assert forall k :: 1 <= k < |tail| ==> tail[k] == tail[1..][k - 1];
        }
      }
      ParseOfBlankTail(run, x, tail);
    } else {
      ParseOfVisibleTail(run, x, tail[1..]);
      assert tail == "\n" + tail[1..];
    }
  }

  /** ParseOfFirstLine when only whitespace follows the first line. */
  lemma ParseOfBlankTail(run: string, x: string, tail: string)
    requires run != [] && AllDigits(run)
    requires '\n' !in x && (x == [] || !IsDigit(x[0]))
    requires AllSpace(tail)
    ensures ParseReply(run + x + tail) == Some(ParsedResult(Clamp(DigitsToNat(run)), NoSuggestions))
  {
    var line := run + x;
    assert line[0] == run[0];
    StripOfBlankTail(line, tail);
    var w := TrimEnd(line);
    assert line[|run| - 1] == run[|run| - 1];
    assert |w| >= |run|;
    var x' := w[|run|..];
    assert w == run + x';
    assert x' == x[..|w| - |run|];
    assert x' == [] || x'[0] == x[0];
    LeadingDigitsOfRun(run, x');
    NoNewlineAfterRun(run, x);
    if '\n' in w {
      assert false;
    }
  }

  /** ParseOfFirstLine when the lines after the first are not all blank. */
  lemma ParseOfVisibleTail(run: string, x: string, post: string)
    requires run != [] && AllDigits(run)
    requires '\n' !in x && (x == [] || !IsDigit(x[0]))
    requires !AllSpace(post)
    ensures ParseReply(run + x + ("\n" + post))
            == Some(ParsedResult(Clamp(DigitsToNat(run)), TrimEnd(post)))
  {
    var line := run + x;
    assert line[0] == run[0];
    assert run + x + ("\n" + post) == line + "\n" + post;
    StripOfVisibleTail(line, post);
    var v := TrimEnd(post);
    assert line + "\n" + v == run + (x + "\n" + v);
    LeadingDigitsOfRun(run, x + "\n" + v);
    NoNewlineAfterRun(run, x);
    SplitFirstNewlineUnique(line, v);
  }

  /**
   * Rewriting the rest of the first line after the digit run, keeping it
   * free of leading digits, changes neither the score nor the suggestions.
   */
  lemma ParseIgnoresRestOfFirstLine(run: string, x: string, y: string, tail: string)
    requires run != [] && AllDigits(run)
    requires '\n' !in x && (x == [] || !IsDigit(x[0]))
    requires '\n' !in y && (y == [] || !IsDigit(y[0]))
    requires tail == [] || tail[0] == '\n'
    ensures ParseReply(run + x + tail) == ParseReply(run + y + tail)
  {
    ParseOfFirstLine(run, x, tail);
    ParseOfFirstLine(run, y, tail);
  }

  /**
   * A reply in the form the prompt asks for, the decimal numeral of `n`
   * then a newline then the advice, parses back to `n` capped at 10 and the
   * advice without its trailing whitespace (the placeholder if it is blank).
   */
  lemma ParseOfRequestedFormat(n: nat, advice: string)
    ensures ParseReply(NatToDigits(n) + "\n" + advice)
            == Some(ParsedResult(if n <= 10 then n else 10,
                                 if AllSpace(advice) then NoSuggestions else TrimEnd(advice)))
  {
    var run := NatToDigits(n);
    assert run + "\n" + advice == run + [] + ("\n" + advice);
    assert ("\n" + advice)[1..] == advice;
    ParseOfFirstLine(run, [], "\n" + advice);
    DigitsToNatOfNatToDigits(n);
  }
}
