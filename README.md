# Resume rating: reply parser

The resume-rating tool sends a rendered resume page to a hosted multimodal
model with the prompt "Rate this resume from 1 to 10. Start with the number
only. Then give suggestions to improve this resume." It then turns the
model's free-text answer into a score for a 0..10 gauge and a suggestions
text. This project models that reply parser and proves what it does:

1. strip whitespace from both ends of the reply (Python `str.strip()`);
2. match the greedy run of decimal digits at its very start (`re.match(r"(\d+)", …)`);
3. with no such run, take the error branch: no score and no suggestions;
4. otherwise read the run as a number (`int`) and clamp it to `[0, 10]`;
5. take as suggestions everything after the first `'\n'` of the stripped
   reply, or `"No suggestions found."` when it has no newline.

Files and modules:

- `wrappers.dfy` (`Wrappers`): the `Option` datatype; `None` is the error branch.
- `text.dfy` (`Text`): Python's whitespace set, `strip()`, `rstrip()` and
  `split("\n", 1)`, with lemmas that characterise them.
- `digits.dfy` (`Digits`): the leading `\d+` match, `int()` on a digit run,
  and `str()` of a natural number as its inverse.
- `reply_parser.dfy` (`ReplyParser`): `Clamp`, `Suggestions`, `ParseReply`
  and the properties of the whole parse.
- `reply_examples.dfy` (`ReplyExamples`): the parse of concrete replies,
  each derived from the general lemmas.

The whitespace set is the one CPython's `str.isspace()` uses, so `Strip`
is Python's argument-less `strip()` on every character, not an ASCII
approximation. Digits are ASCII `'0'..'9'` (see "Left out").

The parse is total. It depends only on its input string. The model is a set
of pure functions, with the properties stated as lemmas.

## Model

| member | source | states |
|---|---|---|
| `Text.SkipSpace` | app.py:36 | the forward scan of `strip()`: the index it stops at is the first non-whitespace character (or the end), and everything skipped is whitespace |
| `Text.SkipSpaceBack` | app.py:36 | the backward scan of `strip()`: it stops one past the last non-whitespace character above the lower bound, and everything skipped is whitespace |
| `Text.Strip` | app.py:36 | the stripped reply neither starts nor ends with whitespace, is no longer than the reply, and is empty exactly when the reply is all whitespace |
| `Text.TrimEnd` | app.py:36 | the trailing half of `strip()`: a prefix of the input, not ending in whitespace, with only whitespace removed |
| `Text.StripUnique` | app.py:36 | any whitespace + core + whitespace, where the core neither starts nor ends with whitespace, strips to exactly that core |
| `Text.StripIdempotent` | app.py:36 | stripping an already stripped reply changes nothing |
| `Text.StripIgnoresPadding` | app.py:36 | adding whitespace on either side of a string does not change its strip |
| `Text.StripOfBlankTail` | app.py:36 | a visible-first line followed only by whitespace strips to the line without its trailing whitespace |
| `Text.StripOfVisibleTail` | app.py:36 | a visible-first line, a newline and non-blank text strip to the line, the newline and that text without its trailing whitespace |
| `Text.StripIsSubstring` | app.py:36 | every character of the stripped reply occurs in the reply |
| `Text.FindNewline` | app.py:58 | the index found holds the first newline at or after the start index, or is the end when there is none |
| `Text.SplitFirstNewline` | app.py:58 | `split("\n", 1)` fails exactly when there is no newline; otherwise head + newline + tail rebuilds the string and the head has no newline |
| `Text.SplitFirstNewlineUnique` | app.py:58 | the split is at the first newline: for any newline-free head, head + "\n" + tail splits into exactly (head, tail) |
| `Digits.DigitChar` | app.py:40 | the character for a digit value is a digit whose value is that digit value |
| `Digits.LeadingDigits` | app.py:37 | the greedy `\d+` capture is a prefix of the text, is all digits, and is followed by a non-digit or the end |
| `Digits.LeadingDigitsOfRun` | app.py:37 | a digit run followed by text that does not start with a digit is matched exactly, so every digit of the run counts |
| `Digits.DigitsToNat` | app.py:40 | `int()` of a digit run is a natural number below 10 to the power of the run's length |
| `Digits.NatToDigits` | app.py:28 | the numeral the prompt asks for: at least one digit and no leading zero unless the number is 0 |
| `Digits.DigitsToNatOfNatToDigits` | app.py:40 | `int(str(n)) == n` for every natural number n |
| `Digits.ZerosDenoteZero` | app.py:40 | a run of zeros reads as 0 |
| `Digits.DigitsToNatIgnoresLeadingZeros` | app.py:40 | leading zeros do not change the number a digit run denotes |
| `Digits.NoNewlineAfterRun` | app.py:58 | a digit run followed by newline-free text contains no newline |
| `ReplyParser.Clamp` | app.py:41 | `min(max(n, 0), 10)` lies in 0..10, is n when n is in range, 10 above it and 0 below it |
| `ReplyParser.Suggestions` | app.py:58 | with no newline the placeholder "No suggestions found."; otherwise exactly the suffix after the first newline |
| `ReplyParser.ParseReply` | app.py:36-41 | the parse succeeds exactly when the stripped reply is non-empty and starts with a digit; on success the score is in 0..10 |
| `ReplyParser.ParseSucceedsIffFirstVisibleIsDigit` | app.py:37-39 | success (the branch at app.py:39 rather than the error at app.py:60-61) exactly when the raw reply's first non-whitespace character is a digit |
| `ReplyParser.ScoreOfLeadingRun` | app.py:37-41 | when the stripped reply is a maximal digit run plus other text, the parse succeeds and the score is the run's number if at most 10, else 10 |
| `ReplyParser.ScoreIgnoresLeadingZeros` | app.py:40-41 | zeros in front of the digit run do not change the score |
| `ReplyParser.SuggestionsFollowFirstNewline` | app.py:58 | on success with a newline in the stripped reply, the suggestions are the text after the first newline and head + "\n" + suggestions rebuilds the stripped reply |
| `ReplyParser.ParseIgnoresPadding` | app.py:36-37 | whitespace added on either side of the reply does not change the parse |
| `ReplyParser.TrailingNewlineGivesNoSuggestions` | app.py:36-58 | a single line followed only by whitespace (such as "3\n") parses like the bare line, with the placeholder as suggestions |
| `ReplyParser.ParseOfFirstLine` | app.py:36-58 | for a reply that is a digit run, a newline-free rest of line and further lines: the exact result, namely the clamped run and the further lines without trailing whitespace, or the placeholder when they are blank |
| `ReplyParser.ParseOfBlankTail` | app.py:36-58 | a digit run, newline-free text and only whitespace after it: clamped score and the placeholder |
| `ReplyParser.ParseOfVisibleTail` | app.py:36-58 | a digit run, newline-free text, a newline and non-blank text: clamped score and that text without trailing whitespace |
| `ReplyParser.ParseIgnoresRestOfFirstLine` | app.py:37-41 | rewriting what follows the digit run on the first line (keeping it free of leading digits) changes neither score nor suggestions |
| `ReplyParser.ParseOfRequestedFormat` | app.py:28 | a reply in the prompt's format (numeral, newline, advice) parses back to the number capped at 10 and the advice without trailing whitespace |
| `ReplyExamples.ScoreThenAdvice` | app.py:36-58 | a digit run, a newline and advice with visible ends parse to the clamped run and exactly that advice |
| `ReplyExamples.SevenWithAdvice` | app.py:36-58 | "7\nAdd more metrics." gives score 7 and suggestions "Add more metrics." |
| `ReplyExamples.BareThree` | app.py:36-58 | "3" gives score 3 and the placeholder |
| `ReplyExamples.ThreeWithTrailingNewline` | app.py:36-58 | "3\n" gives score 3 and the placeholder, because the newline is stripped |
| `ReplyExamples.TenWithAdvice` | app.py:36-58 | "10\nExcellent." gives score 10 and suggestions "Excellent." |
| `ReplyExamples.TwelveIsCapped` | app.py:37-41 | "12\nx" reads the whole run 12 and caps it to 10, not 1 |
| `ReplyExamples.LeadingZerosAndPadding` | app.py:36-58 | a padded reply "  007/10 ok\n\tBe concise.  " gives score 7 and keeps the advice's leading tab |
| `ReplyExamples.ZeroPaddedScore` | app.py:37-58 | "007/10 ok\n\tBe concise." gives score 7 and "\tBe concise." |
| `ReplyExamples.PaddedAdvice` | app.py:36 | "\tBe concise." is not blank and has no trailing whitespace to strip |
| `ReplyExamples.NoLeadingNumber` | app.py:60-61 | "Great resume!" takes the error branch |
| `ReplyExamples.NegativeIsRejected` | app.py:37-41 | "-3\nx" takes the error branch; a negative rating never reaches the clamp |

The lower bound of the clamp at app.py:41 is never active: the match at
app.py:37 admits digits only, so the number read is never negative
(`ScoreOfLeadingRun` gives the score as the run's number capped at 10 alone).

## Left out

- The Streamlit page, file uploader, spinners and the `st.write`, `st.subheader` and `st.error` calls (app.py:9-17, 55-61): user-interface output. The error branch is modelled as `None`; its message text is not.
- PDF opening and rasterising page 0 at 300 DPI with PyMuPDF (app.py:18-20): a foreign library with no source here.
- Writing and re-reading `resume_page.png` (app.py:21-25): file I/O.
- The Gemini configuration and `generate_content` call (app.py:7, 27-34): a network client. The reply text it returns is the parser's input parameter; a failing call, or a reply without text, raises before the parser runs and is not modelled.
- The Plotly gauge (app.py:43-55): charting output; its axis range 0..10 matches the score bound proved for `ParseReply`.
- `Digits.LeadingDigits` and `Digits.DigitsToNat`: ASCII digits only. Python's `\d` and `int()` on `str` also accept every other Unicode decimal digit (Arabic-Indic, full-width and so on), which the model does not.
- `Digits.DigitsToNat`: unbounded. CPython 3.11 and later refuse to convert a run of more than 4300 digits (`ValueError`, uncaught here). That limit belongs to the interpreter version, not to app.py.
