/**
 * The parser on concrete replies of the kind the tool receives, each
 * derived from the general lemmas about ParseReply.
 */
module ReplyExamples {
  import opened Wrappers
  import opened Text
  import opened Digits
  import opened ReplyParser

  /** A score line followed by one line of advice with visible ends. */
  lemma ScoreThenAdvice(run: string, advice: string)
    requires run != [] && AllDigits(run)
    requires advice != [] && !IsSpace(advice[0]) && !IsSpace(advice[|advice| - 1])
    ensures ParseReply(run + "\n" + advice) == Some(ParsedResult(Clamp(DigitsToNat(run)), advice))
  {
    assert run + "\n" + advice == run + [] + ("\n" + advice);
    ParseOfVisibleTail(run, [], advice);
    assert advice == advice[..|advice|];
  }

  lemma SevenWithAdvice(reply: string, advice: string)
    requires reply == "7\nAdd more metrics." && advice == "Add more metrics."
    ensures ParseReply(reply) == Some(ParsedResult(7, advice))
  {
    assert !IsSpace(advice[0]) && !IsSpace(advice[|advice| - 1]) by {
      assert advice[0] == 'A' && advice[|advice| - 1] == '.';
    }
    assert "7" + "\n" + advice == reply;
    assert DigitsToNat("7") == 7;
    ScoreThenAdvice("7", advice);
  }

  lemma BareThree()
    ensures ParseReply("3") == Some(ParsedResult(3, NoSuggestions))
  {
    assert "3" == "3" + [] + [];
    ParseOfBlankTail("3", [], []);
  }

  lemma ThreeWithTrailingNewline()
    ensures ParseReply("3\n") == Some(ParsedResult(3, NoSuggestions))
  {
    assert "3\n" == "3" + [] + "\n";
    ParseOfBlankTail("3", [], "\n");
  }

  lemma TenWithAdvice(reply: string, advice: string)
    requires reply == "10\nExcellent." && advice == "Excellent."
    ensures ParseReply(reply) == Some(ParsedResult(10, advice))
  {
    assert !IsSpace(advice[0]) && !IsSpace(advice[|advice| - 1]) by {
      assert advice[0] == 'E' && advice[|advice| - 1] == '.';
    }
    assert "10" + "\n" + advice == reply;
    assert DigitsToNat("10") == 10 by {
      assert "10"[..1] == "1";
    }
    ScoreThenAdvice("10", advice);
  }

  /** The whole run "12" is read, then capped; the score is not 1. */
  lemma TwelveIsCapped(reply: string)
    requires reply == "12\nx"
    ensures ParseReply(reply) == Some(ParsedResult(10, "x"))
  {
    assert !IsSpace("x"[0]) by {
      assert "x"[0] == 'x';
    }
    assert "12" + "\n" + "x" == reply;
    assert DigitsToNat("12") == 12 by {
      assert "12"[..1] == "1";
    }
    ScoreThenAdvice("12", "x");
  }

  /**
   * Leading zeros, text after the number on the first line, surrounding
   * padding and leading whitespace in the advice: the score is 7 and the
   * advice keeps its leading tab.
   */
  lemma LeadingZerosAndPadding(reply: string, advice: string)
    requires reply == "  007/10 ok\n\tBe concise.  "
    requires advice == "\tBe concise."
    ensures ParseReply(reply) == Some(ParsedResult(7, advice))
  {
    var core := "007" + "/10 ok" + ("\n" + advice);
    assert reply == "  " + core + "  ";
    assert AllSpace("  ") by {
      assert "  "[0] == ' ' && "  "[1] == ' ';
    }
    ParseIgnoresPadding("  ", core, "  ");
    ZeroPaddedScore(core, advice);
  }

  lemma ZeroPaddedScore(core: string, advice: string)
    requires advice == "\tBe concise."
    requires core == "007" + "/10 ok" + ("\n" + advice)
    ensures ParseReply(core) == Some(ParsedResult(7, advice))
  {
    PaddedAdvice(advice);
    assert "/10 ok"[0] == '/';
    assert '\n' !in "/10 ok";
    assert DigitsToNat("007") == 7 by {
      assert "007"[..2] == "00" && "00"[..1] == "0";
    }
    ParseOfVisibleTail("007", "/10 ok", advice);
  }

  lemma PaddedAdvice(advice: string)
    requires advice == "\tBe concise."
    ensures !AllSpace(advice) && TrimEnd(advice) == advice
  {
    assert advice[1] == 'B';
    assert advice[|advice| - 1] == '.';
  }

  lemma NoLeadingNumber()
    ensures ParseReply("Great resume!") == None
  {
    assert Strip("Great resume!")[0] == 'G';
  }

  /** A minus sign is not a digit, so a negative rating is an error, not a 0. */
  lemma NegativeIsRejected()
    ensures ParseReply("-3\nx") == None
  {
    assert Strip("-3\nx")[0] == '-';
  }
}
