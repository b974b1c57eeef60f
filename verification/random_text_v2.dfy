/**
  `random_text_v2.py`: the counts are read once. The three prompts share
  one `try`; a non-integer answer at any of them ends the script with
  `exit(1)` before the directory is asked for and before anything is
  generated. As in the later version, the counts are not checked for
  being positive.
 */
module RandomTextV2 {
  import opened PyInt
  import opened Generator
  import opened Session
  import RandomTextV4

  /** The three prompts in one `try`: the first non-integer answer stops the reading. */
  function ReadCounts(parse: Parser, inputs: seq<string>): (r: Reading)
    ensures r.Accepted? <==> |inputs| >= 3 && forall k :: 0 <= k < 3 ==> parse(inputs[k]).Some?
    ensures r.Accepted? ==> CountsAt(parse, inputs, 0, r.counts) && r.rest == inputs[3..]
    ensures r.Rejected? ==>
              && r.prompt < 3 && r.prompt < |inputs|
              && parse(inputs[r.prompt]).None?
              && forall k :: 0 <= k < r.prompt ==> parse(inputs[k]).Some?
    ensures r.Exhausted? <==> |inputs| < 3 && forall k :: 0 <= k < |inputs| ==> parse(inputs[k]).Some?
  {
    if |inputs| == 0 then Exhausted
    else match parse(inputs[0])
      case None => Rejected(0)
      case Some(lines) =>
        if |inputs| == 1 then Exhausted
        else match parse(inputs[1])
          case None => Rejected(1)
          case Some(words) =>
            if |inputs| == 2 then Exhausted
            else match parse(inputs[2])
              case None => Rejected(2)
              case Some(letters) => Accepted(Counts(lines, words, letters), inputs[3..])
  }

  /**
    `main`: the counts with Python's `int`, `exit(1)` on a non-integer,
    then the directory prompt, generation and the write.
   */
  function Run(inputs: seq<string>, rng: Rng): (o: Outcome)
    ensures o.Exited? <==> ReadCounts(ParseInt, inputs).Rejected?
    ensures o.Exited? ==> o.code == 1
    ensures o.Written? <==> |inputs| >= 4 && forall k :: 0 <= k < 3 ==> ParseInt(inputs[k]).Some?
    ensures o.Written? ==>
              && o.dir == inputs[3]
              && o.text == GenLines(ParseInt(inputs[0]).value, ParseInt(inputs[1]).value, ParseInt(inputs[2]).value, rng)
  {
    match ReadCounts(ParseInt, inputs)
    case Accepted(c, rest) => Finish(c, rest, rng)
    case Rejected(_) => Exited(1)
    case Exhausted => EofError
  }

  /** A non-integer answer at a prompt, after integers at the prompts before it, ends the run with `exit(1)`. */
  lemma ExitsAtFirstNonInteger(inputs: seq<string>, k: nat, rng: Rng)
    requires k < 3 && k < |inputs|
    requires ParseInt(inputs[k]).None?
    requires forall j :: 0 <= j < k ==> ParseInt(inputs[j]).Some?
    ensures Run(inputs, rng) == Exited(1)
    ensures ReadCounts(ParseInt, inputs) == Rejected(k)
  {
  }

  /** Three integers and a directory: the document for exactly those integers is written there. */
  lemma RunWithCounts(inputs: seq<string>, c: Counts, rng: Rng)
    requires CountsAt(ParseInt, inputs, 0, c) && |inputs| >= 4
    ensures Run(inputs, rng) == Written(inputs[3], GenLines(c.lines, c.words, c.letters, rng))
  {
    assert ReadCounts(ParseInt, inputs) == Accepted(c, inputs[3..]);
  }

  /** Answering with the decimal forms of three numbers, then a directory, writes the document for exactly those numbers. */
  lemma WritesTypedCounts(lines: int, words: int, letters: int, dir: string, rest: seq<string>, rng: Rng)
    ensures Run([FormatInt(lines), FormatInt(words), FormatInt(letters), dir] + rest, rng)
         == Written(dir, GenLines(lines, words, letters, rng))
  {
    var inputs := [FormatInt(lines), FormatInt(words), FormatInt(letters), dir] + rest;
    assert inputs[0] == FormatInt(lines) && inputs[1] == FormatInt(words) && inputs[2] == FormatInt(letters);
    ParseFormat(lines);
    ParseFormat(words);
    ParseFormat(letters);
    RunWithCounts(inputs, Counts(lines, words, letters), rng);
  }

  /**
    The one-shot reading and the retry loop of the later version agree
    until the first non-integer answer: where this version accepts, the
    loop accepts the same counts; where it runs out of input, so does the
    loop; where it exits at prompt `k`, the loop starts over with the
    answer after it.
   */
  lemma AgreesWithRetryLoop(parse: Parser, inputs: seq<string>)
    ensures ReadCounts(parse, inputs).Accepted? ==> RandomTextV4.ReadCounts(parse, inputs) == ReadCounts(parse, inputs)
    ensures ReadCounts(parse, inputs).Exhausted? ==> RandomTextV4.ReadCounts(parse, inputs).Exhausted?
    ensures ReadCounts(parse, inputs).Rejected? ==>
              (RandomTextV4.ReadCounts(parse, inputs)
               == RandomTextV4.ReadCounts(parse, inputs[ReadCounts(parse, inputs).prompt + 1..]))
  {
  }
}
