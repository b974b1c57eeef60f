/**
  What the two scripts have in common around the generator: the three
  counts read from the user, the ways reading them can end, the ways a run
  can end, and the steps after the counts are known (read the output
  directory, generate the document from exactly those counts, write it).

  The user's answers are a finite sequence of input lines, one per call
  of `input()`. When the sequence runs out at a prompt, Python raises
  `EOFError`, which neither script catches.
 */
module Session {
  import opened PyInt
  import opened Generator

  /**
    How an answer is read as a number: `Some(n)` when `int(answer)` returns
    `n`, `None` when it raises `ValueError`. The scripts use Python's `int`,
    which `PyInt.ParseInt` models; the prompt logic holds for any parser.
   */
  type Parser = string -> Option<int>

  /** The counts in prompt order: lines, words per line, letters per word. */
  datatype Counts = Counts(lines: int, words: int, letters: int)

  /** How the count prompts end. */
  datatype Reading =
    | Accepted(counts: Counts, rest: seq<string>)  // the counts, and the input not read yet
    | Rejected(prompt: nat)                         // a non-integer answer at prompt 0, 1 or 2
    | Exhausted                                     // the input ran out at a prompt

  /** How a run ends. */
  datatype Outcome =
    | Written(dir: string, text: string)  // `text` is written to `random.txt` inside `dir`
    | Exited(code: int)                   // the script calls `exit(code)`
    | EofError                            // the input ran out at a prompt

  /** The three answers starting at `inputs[i]` parse, in order, to the three counts `c`. */
  predicate CountsAt(parse: Parser, inputs: seq<string>, i: nat, c: Counts) {
    && i + 3 <= |inputs|
    && parse(inputs[i]) == Some(c.lines)
    && parse(inputs[i + 1]) == Some(c.words)
    && parse(inputs[i + 2]) == Some(c.letters)
  }

  /**
    After the counts: the directory prompt, then `gen_lines` on exactly the
    accepted counts, then the file write. The generator runs only here,
    after the counts are final, and is given nothing but the counts.
   */
  function Finish(counts: Counts, rest: seq<string>, rng: Rng): (o: Outcome)
    ensures o.Written? <==> |rest| >= 1
    ensures !o.Exited?
    ensures o.Written? ==> o.dir == rest[0]
    ensures o.Written? ==> IsDocument(o.text, counts.lines, counts.words, counts.letters)
    ensures o.Written? ==> o.text == GenLines(counts.lines, counts.words, counts.letters, rng)
  {
    GenLinesIsDocument(counts.lines, counts.words, counts.letters, rng);
    if |rest| == 0 then EofError
    else Written(rest[0], GenLines(counts.lines, counts.words, counts.letters, rng))
  }
}
