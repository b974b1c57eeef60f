# Random-text generator, modelled in Dafny

The `logging-example` scripts of devbasics write a file of random text.
The user answers three prompts: how many lines, how many words per line,
and how many letters per word. The script builds a document of that shape
from random ASCII letters and writes it to `random.txt` in a directory
the user names. There are two versions:

- `random_text_v2.py` reads the three counts once. A non-integer answer
  ends the script with `exit(1)`.
- `random_text_v4.py` reads them in a retry loop. A non-integer answer
  starts the three prompts over.

Both scripts share the same three generator functions. `gen_random_string`
builds a word with `''.join(choices(ascii_letters, k=length))`. `gen_line`
joins words with `' '`. `gen_lines` joins lines with `'\n'`. In v2 these
are lines 18-55; they are the same code as v4 lines 24-67 without the
logging. The model below cites the v4 lines for them.

The project has these modules:

- `Text` (`text.dfy`) models Python's `sep.join(parts)` and `s.split(sep)`
  for a one-character separator. It proves that the two undo each other
  and gives the length of a join. `Times` is multiplication written as
  repeated addition, so that lengths stay linear facts for the verifier.
- `Generator` (`generator.dfy`) models the three generator functions.
  - The random choices are an explicit stream of draws (`Rng`). Each draw
    is an index into the 52-letter alphabet, and draws are consumed in
    program order.
  - The shapes the generator promises (`IsWord`, `IsLine`, `IsDocument`)
    are stated without reference to the generator, through `Split`.
  - It proves that every stream of draws yields a document of the
    promised shape.
  - It proves that every document of that shape is yielded by some
    stream.
- `PyInt` (`pyint.dfy`) models Python's `int(text)` on a string, which
  returns `None` where Python raises `ValueError`. Its partner is `str(n)`
  (`FormatInt`), and it proves the round trip `int(str(n)) == n`.
- `Session` (`session.dfy`) holds what both scripts share around the
  generator: the three counts, how reading them ends, how a run ends, and
  the step after the counts are known (`Finish`). The user's answers are a
  finite sequence of input lines. When that sequence runs out at a prompt,
  Python raises `EOFError`, which neither script catches; the model gives
  this its own outcome.
- `RandomTextV4` (`random_text_v4.dfy`) models the retry loop, both as a
  recursive function and as the `while True` method. It characterises
  which round the loop accepts.
- `RandomTextV2` (`random_text_v2.dfy`) models the one-shot reading with
  `exit(1)`. It proves that this reading agrees with the retry loop up to
  the first non-integer answer.

The prompt logic takes the parser as a parameter (`Session.Parser`), so it
holds for any parser. `Run` in each script supplies `PyInt.ParseInt`.

Neither script checks that the counts are positive: `int()` accepts any
integer, and the model follows the code:

- For a count of 0, or a negative count, `range(n)` and `choices(k=n)`
  produce nothing (`Generator.Clamp`). For `choices` this holds down to
  `k = -2^63`. Below that, `choices` raises `OverflowError` whenever it is
  called, that is, when there is at least one line and at least one word
  per line (see "## Left out").
- So zero or negative lines give the empty document.
- Zero or negative words give empty lines.
- Zero or negative letters give empty words.

## Model

| member | source | states |
|---|---|---|
| Text.SplitJoin | logging-example/random_text_v4.py:48 | splitting `sep.join(parts)` on `sep` gives back `parts`, when there is at least one part and no part contains `sep` |
| Text.JoinSplit | logging-example/random_text_v4.py:65 | joining the pieces of `s.split(sep)` with `sep` gives back `s`, for every string |
| Text.SplitCount | logging-example/random_text_v4.py:65 | `s.split(sep)` has one more piece than `s` has separators |
| Text.SplitPiecesAvoidSeparator | logging-example/random_text_v4.py:65 | no piece of a split contains the separator |
| Text.JoinLength | logging-example/random_text_v4.py:48 | a join has the parts' characters plus one separator between each pair of neighbours |
| Text.JoinAvoids | logging-example/random_text_v4.py:48 | a character that is not the separator and occurs in no part does not occur in the join |
| Text.JoinLast | logging-example/random_text_v4.py:65 | a join ends with the last character of its last part |
| Text.UniformTotalLength | logging-example/random_text_v4.py:48 | parts that all have length `w` have `|parts| * w` characters together |
| Text.TimesIsProduct | logging-example/random_text_v4.py:48 | the repeated-addition product used for lengths and draw offsets equals `n * size` |
| Generator.AlphabetIsAsciiLetters | logging-example/random_text_v4.py:33 | the population `choices` draws from has 52 characters, and they are exactly the ASCII letters `a`-`z` and `A`-`Z` |
| Generator.GenRandomString | logging-example/random_text_v4.py:24-35 | the word has `length` characters (none for a negative length), each an ASCII letter |
| Generator.GeneratedWordsAreExactlyWords | logging-example/random_text_v4.py:33 | a string is a possible word for some stream of draws if and only if it has `length` ASCII letters |
| Generator.WordsAvoidSeparators | logging-example/random_text_v4.py:33 | generated words contain neither a space nor a newline |
| Generator.LineWords | logging-example/random_text_v4.py:48 | the list comprehension yields `count` words, each of `word_length` letters |
| Generator.GenLine | logging-example/random_text_v4.py:37-50 | a line of `L >= 1` words of `W` letters has `L*W + L - 1` characters (0 for `L <= 0`), and it has no newline |
| Generator.GenLineIsLine | logging-example/random_text_v4.py:48 | splitting a generated line on `' '` gives exactly `L` words of `W` ASCII letters; for `L <= 0` the line is empty |
| Generator.GeneratedLinesAreExactlyShaped | logging-example/random_text_v4.py:48 | a string is a possible line if and only if it splits on `' '` into `L` words of `W` ASCII letters (empty for `L <= 0`) |
| Generator.LineEndsWithLetter | logging-example/random_text_v4.py:48 | with `L, W >= 1` a line ends with a letter, so there is no trailing space |
| Generator.DocLines | logging-example/random_text_v4.py:65 | the list comprehension yields `count` lines |
| Generator.DocLinesAreLines | logging-example/random_text_v4.py:65 | every generated line has the promised shape, has `LineChars` characters and contains no newline |
| Generator.GenLines | logging-example/random_text_v4.py:52-67 | for `N <= 0` the document is `""`; for `N >= 1` it has `N*lineLen + N - 1` characters and exactly `N - 1` newlines |
| Generator.GenLinesIsDocument | logging-example/random_text_v4.py:65 | splitting a generated document on `'\n'` gives exactly `N` lines, each `L` words of `W` letters |
| Generator.SplitGenLines | logging-example/random_text_v4.py:65 | splitting a generated document on `'\n'` gives back exactly the generated lines, in order |
| Generator.EndsWithLetter | logging-example/random_text_v4.py:65 | for `N, L, W >= 1` the document ends with a letter, so there is no trailing newline |
| Generator.GeneratedDocumentsAreExactlyShaped | logging-example/random_text_v4.py:52-67 | a string is a possible document if and only if it splits into `N` lines of `L` words of `W` ASCII letters (empty for `N <= 0`) |
| Generator.LineWordDraws | logging-example/random_text_v4.py:48 | word `k` of a line is built from the draws that start `k * W` after the line's first draw |
| Generator.DocLineDraws | logging-example/random_text_v4.py:65 | line `j` of a document is built from the draws that start `j * L * W` after the document's first draw |
| Generator.LineOfDocument | logging-example/random_text_v4.py:65 | line `j` of the split document is the line generated from draw `j * L * W` on |
| Generator.WordOfLine | logging-example/random_text_v4.py:48 | word `k` of the split line is the word generated from draw `k * W` on |
| Generator.DrawOrder | logging-example/random_text_v4.py:48-65 | word `k` of line `j` of the document is the word built from the `W` draws that start at draw `(j*L + k)*W`; the draws are used in program order |
| PyInt.TrimStartRemovesLeadingSpace | logging-example/random_text_v4.py:75 | the leading cut drops only the whitespace `int` skips (tab to carriage return, and space), and what it keeps does not start with such whitespace |
| PyInt.TrimEndRemovesTrailingSpace | logging-example/random_text_v4.py:75 | the trailing cut drops only the whitespace `int` skips, and what it keeps does not end with such whitespace |
| PyInt.ParseFormat | logging-example/random_text_v4.py:75-77 | `int(str(n)) == n` for every integer `n`, negative ones included |
| PyInt.ParseIgnoresSurroundingSpace | logging-example/random_text_v4.py:75-77 | tabs, line breaks, vertical tabs, form feeds, carriage returns and spaces around an answer do not change what `int` reads from it |
| PyInt.SeparatorIsRefused | logging-example/random_text_v4.py:75-77 | an answer that starts or ends with one of the separators 0x1C-0x1F is refused by `int`, whatever else it holds: unlike `str.strip`, `int` does not skip them |
| Session.Finish | logging-example/random_text_v4.py:88-93 | once the counts are read, a directory answer leads to writing `gen_lines` of exactly those counts, and a missing answer is `EOFError`; it never exits with a code |
| RandomTextV4.ReadCounts | logging-example/random_text_v4.py:73-83 | the loop ends only by accepting or by running out of input; an accepted round is three consecutive answers that parse to the counts, and the rest of the input follows them |
| RandomTextV4.PromptCounts | logging-example/random_text_v4.py:73-83 | the `while True` loop with its `break` computes the same result as the round-by-round definition, and never ends with a rejection |
| RandomTextV4.RestartAfterFailedRounds | logging-example/random_text_v4.py:79-82 | after discarded rounds the loop behaves as if they had never been typed: a failure restarts at the first prompt and keeps nothing |
| RandomTextV4.AcceptedIndex | logging-example/random_text_v4.py:73-83 | when the loop accepts, there is a position where three answers parse to the accepted counts and everything before it splits into discarded rounds |
| RandomTextV4.AcceptedFrom | logging-example/random_text_v4.py:73-83 | three integer answers after discarded rounds are the round the loop accepts |
| RandomTextV4.AcceptsFirstRound | logging-example/random_text_v4.py:75-78 | three integer answers in a row are accepted at once |
| RandomTextV4.AcceptedIff | logging-example/random_text_v4.py:73-83 | the loop accepts `c` if and only if some round reads `c` and every earlier answer belongs to a discarded round |
| RandomTextV4.Run | logging-example/random_text_v4.py:69-93 | the later script never ends with `exit(code)` on its input path |
| RandomTextV4.RunWritesAcceptedCounts | logging-example/random_text_v4.py:73-93 | a run writes `text` to `dir` if and only if some round reads counts `c` after discarded rounds, the next answer is `dir`, and `text` is `gen_lines` of exactly `c` |
| RandomTextV4.RunIgnoresFailedRounds | logging-example/random_text_v4.py:79-82 | typing discarded rounds before any input changes nothing about the run |
| RandomTextV4.WritesTypedCounts | logging-example/random_text_v4.py:73-93 | after any discarded rounds, answering `str(a)`, `str(b)`, `str(c)` and a directory writes the document for exactly `(a, b, c)` there |
| RandomTextV2.ReadCounts | logging-example/random_text_v2.py:60-66 | the counts are accepted if and only if the first three answers all parse, and then they are those three values in prompt order; a rejection names the first prompt whose answer does not parse |
| RandomTextV2.Run | logging-example/random_text_v2.py:57-73 | the script exits, always with code 1, if and only if an answer fails to parse, before any generation; it writes if and only if three integers and a directory are given, and then the text is `gen_lines` of those three integers |
| RandomTextV2.ExitsAtFirstNonInteger | logging-example/random_text_v2.py:64-66 | a non-integer answer at any prompt, after integers at the earlier prompts, gives `exit(1)` |
| RandomTextV2.RunWithCounts | logging-example/random_text_v2.py:60-73 | three integer answers and a directory write the document for exactly those integers to that directory |
| RandomTextV2.WritesTypedCounts | logging-example/random_text_v2.py:60-73 | answering `str(a)`, `str(b)`, `str(c)` and a directory writes the document for exactly `(a, b, c)` there |
| RandomTextV2.AgreesWithRetryLoop | logging-example/random_text_v2.py:60-66 | the one-shot reading agrees with the later retry loop: both accept the same counts, both run out of input together, and where this version exits the loop starts again after the bad answer |

## Left out

- Logging (`logging.debug` and the other levels) and the colours from `colorama`: they affect only console and log output.
- Console messages (`print`): they do not change what is written or how the script exits.
- The file write (`os.path.join`, `open`, `write`), and the `OSError` handler with its `exit(1)` (v4 lines 96-106, v2 lines 76-82). A `Written(dir, text)` outcome stands for "`text` is written to `random.txt` in `dir`". A failing write is not modelled, because it depends on the file system.
- The pseudo-random generator behind `choices`. The model takes the draws as an input stream, so it says nothing about their distribution. Uniformity and independence of the letters are not modelled.
- The default parameter values of the three generator functions (10, 10 and 200): `main` always passes all three counts.
- PyInt.ParseInt: does not model Unicode digits and Unicode whitespace, which Python's `int` also accepts, because the model works on ASCII only. It also does not model the limit on the number of digits that newer Python versions place on `int` of a string (a `ValueError` for very long numerals).
- `MemoryError` for counts so large that the document does not fit in memory, and `KeyboardInterrupt` at a prompt: they depend on the machine and the user, not on the program text.
- RandomTextV4.Run: states only that the script never exits with a code on its input path. What it writes is stated by `RandomTextV4.RunWritesAcceptedCounts`, because the `exists` over the accepted round reads better as a lemma.
- Generator.GenRandomString: does not model the `OverflowError` that `choices` raises when `k` lies outside the signed 64-bit range (`k < -2^63` or `k >= 2^63`), because `choices` hands `k` to `itertools.repeat`, which stores it as a C `Py_ssize_t`. The model returns an empty word for every negative length and a word of `length` letters for every non-negative one. When at least one word is generated (at least one line and at least one word per line), such a letter count makes the script stop with the uncaught exception after the directory prompt and write nothing, where the model writes a document. With zero or fewer lines or words per line, `choices` is never called, and the script and the model both write the document `gen_lines` gives.
- The `metrics-example` directory: it is a separate program and not part of this model.
