/**
  `random_text_v4.py`: the counts are read in a retry loop. Each round
  asks for the three counts in turn; a non-integer answer at any prompt
  discards whatever that round had read and starts the next round at the
  first prompt. The loop ends only when a round reads three integers (or
  the input runs out). No check is made that the counts are positive.
 */
module RandomTextV4 {
  import opened PyInt
  import opened Generator
  import opened Session

  /** The retry loop, one round per recursive step. */
  function ReadCounts(parse: Parser, inputs: seq<string>): (r: Reading)
    ensures !r.Rejected?
    ensures r.Accepted? ==> |r.rest| + 3 <= |inputs| && r.rest == inputs[|inputs| - |r.rest|..]
    ensures r.Accepted? ==> CountsAt(parse, inputs, |inputs| - |r.rest| - 3, r.counts)
    decreases |inputs|
  {
    if |inputs| == 0 then Exhausted
    else match parse(inputs[0])
      case None => ReadCounts(parse, inputs[1..])
      case Some(lines) =>
        if |inputs| == 1 then Exhausted
        else match parse(inputs[1])
          case None => ReadCounts(parse, inputs[2..])
          case Some(words) =>
            if |inputs| == 2 then Exhausted
            else match parse(inputs[2])
              case None => ReadCounts(parse, inputs[3..])
              case Some(letters) => Accepted(Counts(lines, words, letters), inputs[3..])
  }

  /** The loop as the script writes it: `while True`, a `break` after the third integer. */
  method PromptCounts(parse: Parser, inputs: seq<string>) returns (r: Reading)
    ensures r == ReadCounts(parse, inputs)
    ensures r.Accepted? || r.Exhausted?
  {
    var pos := 0;
    while true
      invariant pos <= |inputs|
      invariant ReadCounts(parse, inputs[pos..]) == ReadCounts(parse, inputs)
      decreases |inputs| - pos
    {
      if pos == |inputs| {
        return Exhausted;
      }
      var lines := parse(inputs[pos]);
      if lines.None? {
        assert inputs[pos..][1..] == inputs[pos + 1..];
        pos := pos + 1;
        continue;
      }
      if pos + 1 == |inputs| {
        return Exhausted;
      }
      var words := parse(inputs[pos + 1]);
      if words.None? {
        assert inputs[pos..][2..] == inputs[pos + 2..];
        pos := pos + 2;
        continue;
      }
      if pos + 2 == |inputs| {
        return Exhausted;
      }
      var letters := parse(inputs[pos + 2]);
      if letters.None? {
        assert inputs[pos..][3..] == inputs[pos + 3..];
        pos := pos + 3;
        continue;
      }
      assert inputs[pos..][3..] == inputs[pos + 3..];
      return Accepted(Counts(lines.value, words.value, letters.value), inputs[pos + 3..]);
    }
  }

  // ---------------------------------------------------------------------------
  // The loop, described by the rounds it throws away.
  // ---------------------------------------------------------------------------

  /** A discarded round: up to two integers, then a non-integer that ends the round. */
  predicate FailedRound(parse: Parser, round: seq<string>) {
    && 1 <= |round| <= 3
    && parse(round[|round| - 1]).None?
    && forall k :: 0 <= k < |round| - 1 ==> parse(round[k]).Some?
  }

  /** A sequence of answers that splits into discarded rounds. */
  predicate FailedRounds(parse: Parser, p: seq<string>)
    decreases |p|
  {
    || |p| == 0
    || (FailedRound(parse, p[..1]) && FailedRounds(parse, p[1..]))
    || (|p| >= 2 && FailedRound(parse, p[..2]) && FailedRounds(parse, p[2..]))
    || (|p| >= 3 && FailedRound(parse, p[..3]) && FailedRounds(parse, p[3..]))
  }

  /** The round that starts at `inputs[i]` reads the counts `c`, and every answer before it was discarded. */
  predicate AcceptedAt(parse: Parser, inputs: seq<string>, i: nat, c: Counts) {
    && CountsAt(parse, inputs, i, c)
    && FailedRounds(parse, inputs[..i])
  }

  /** The length of the round that starts `p`, when `p` starts with a discarded round. */
  function RoundLength(parse: Parser, p: seq<string>): (n: nat)
    requires |p| > 0 && FailedRounds(parse, p)
    ensures 1 <= n <= 3 && n <= |p|
    ensures FailedRound(parse, p[..n]) && FailedRounds(parse, p[n..])
  {
    if parse(p[0]).None? then 1 else if parse(p[1]).None? then 2 else 3
  }

  /** Discarded rounds leave no trace: the loop then behaves as if they had never been typed. */
  lemma {:induction false} RestartAfterFailedRounds(parse: Parser, p: seq<string>, t: seq<string>)
    requires FailedRounds(parse, p)
    ensures ReadCounts(parse, p + t) == ReadCounts(parse, t)
    decreases |p|
  {
    if |p| > 0 {
      var n := RoundLength(parse, p);
      var q := p + t;
      assert q[..n] == p[..n];
      assert q[n..] == p[n..] + t;
      RestartAfterFailedRounds(parse, p[n..], t);
    } else {
      assert p + t == t;
    }
  }

  /** The length of the first round when it is discarded, 0 when it reads three integers. */
  function FirstRoundFailure(parse: Parser, inputs: seq<string>): (n: nat)
    requires ReadCounts(parse, inputs).Accepted?
    ensures n <= 3 && n <= |inputs|
    ensures n == 0 ==> CountsAt(parse, inputs, 0, ReadCounts(parse, inputs).counts) && ReadCounts(parse, inputs).rest == inputs[3..]
    ensures n > 0 ==> FailedRound(parse, inputs[..n]) && ReadCounts(parse, inputs) == ReadCounts(parse, inputs[n..])
  {
    if parse(inputs[0]).None? then 1
    else if parse(inputs[1]).None? then 2
    else if parse(inputs[2]).None? then 3
    else 0
  }

  /** A round accepted after a discarded first round is accepted after all the earlier rounds. */
  lemma AcceptedAfterFailedRound(parse: Parser, inputs: seq<string>, n: nat, j: nat, c: Counts)
    requires n <= |inputs| && FailedRound(parse, inputs[..n])
    requires AcceptedAt(parse, inputs[n..], j, c)
    ensures AcceptedAt(parse, inputs, n + j, c)
    ensures inputs[n..][j + 3..] == inputs[n + j + 3..]
  {
    var before := inputs[..n + j];
    assert before[..n] == inputs[..n];
    assert before[n..] == inputs[n..][..j];
    assert inputs[n..][j] == inputs[n + j];
    assert inputs[n..][j + 1] == inputs[n + j + 1];
    assert inputs[n..][j + 2] == inputs[n + j + 2];
  }

  /** Where the accepted round starts. */
  lemma {:induction false} AcceptedIndex(parse: Parser, inputs: seq<string>) returns (i: nat)
    requires ReadCounts(parse, inputs).Accepted?
    ensures AcceptedAt(parse, inputs, i, ReadCounts(parse, inputs).counts)
    ensures ReadCounts(parse, inputs).rest == inputs[i + 3..]
    decreases |inputs|
  {
    var n := FirstRoundFailure(parse, inputs);
    if n == 0 {
      i := 0;
      assert inputs[..0] == [];
    } else {
      var j := AcceptedIndex(parse, inputs[n..]);
      AcceptedAfterFailedRound(parse, inputs, n, j, ReadCounts(parse, inputs).counts);
      i := n + j;
    }
  }

  /** A first round of three integers is accepted at once. */
  lemma AcceptsFirstRound(parse: Parser, inputs: seq<string>, c: Counts)
    requires CountsAt(parse, inputs, 0, c)
    ensures ReadCounts(parse, inputs) == Accepted(c, inputs[3..])
  {
  }

  /** A round that reads `c` after discarded rounds is the round the loop accepts. */
  lemma AcceptedFrom(parse: Parser, inputs: seq<string>, i: nat, c: Counts)
    requires AcceptedAt(parse, inputs, i, c)
    ensures ReadCounts(parse, inputs) == Accepted(c, inputs[i + 3..])
  {
    var t := inputs[i..];
    assert inputs == inputs[..i] + t;
    RestartAfterFailedRounds(parse, inputs[..i], t);
    assert t[0] == inputs[i] && t[1] == inputs[i + 1] && t[2] == inputs[i + 2];
    AcceptsFirstRound(parse, t, c);
    assert t[3..] == inputs[i + 3..];
  }

  /** The loop accepts `c` leaving `rest` exactly when some round reads `c` after rounds that were all discarded. */
  lemma AcceptedIff(parse: Parser, inputs: seq<string>, c: Counts, rest: seq<string>)
    ensures ReadCounts(parse, inputs) == Accepted(c, rest)
        <==> exists i: nat :: AcceptedAt(parse, inputs, i, c) && rest == inputs[i + 3..]
  {
    if ReadCounts(parse, inputs) == Accepted(c, rest) {
      var i := AcceptedIndex(parse, inputs);
    }
    if i: nat :| AcceptedAt(parse, inputs, i, c) && rest == inputs[i + 3..] {
      AcceptedFrom(parse, inputs, i, c);
    }
  }

  // ---------------------------------------------------------------------------
  // The whole run.
  // ---------------------------------------------------------------------------

  /** `main`: the retry loop with Python's `int`, then the directory prompt, generation and the write. */
  function Run(inputs: seq<string>, rng: Rng): (o: Outcome)
    ensures !o.Exited?
  {
    match ReadCounts(ParseInt, inputs)
    case Accepted(c, rest) => Finish(c, rest, rng)
    case _ => EofError
  }

  /**
    A run writes a document exactly when some round reads three integers
    after discarded rounds and a directory answer follows; the document is
    then generated from those three integers and nothing else.
   */
  lemma RunWritesAcceptedCounts(inputs: seq<string>, rng: Rng, dir: string, text: string)
    ensures Run(inputs, rng) == Written(dir, text)
        <==> exists i: nat, c: Counts ::
               && AcceptedAt(ParseInt, inputs, i, c)
               && i + 4 <= |inputs| && dir == inputs[i + 3]
               && text == GenLines(c.lines, c.words, c.letters, rng)
  {
    var r := ReadCounts(ParseInt, inputs);
    if Run(inputs, rng) == Written(dir, text) {
      var i := AcceptedIndex(ParseInt, inputs);
      assert inputs[i + 3..][0] == inputs[i + 3];
    }
    if i: nat, c: Counts :| && AcceptedAt(ParseInt, inputs, i, c)
                           && i + 4 <= |inputs| && dir == inputs[i + 3]
                           && text == GenLines(c.lines, c.words, c.letters, rng) {
      AcceptedFrom(ParseInt, inputs, i, c);
    }
  }

  /** Typing discarded rounds first changes nothing about the run. */
  lemma RunIgnoresFailedRounds(p: seq<string>, t: seq<string>, rng: Rng)
    requires FailedRounds(ParseInt, p)
    ensures Run(p + t, rng) == Run(t, rng)
  {
    RestartAfterFailedRounds(ParseInt, p, t);
  }

  /**
    Any number of discarded rounds, then the decimal forms of three
    numbers and a directory: the document for exactly those numbers is
    written to that directory.
   */
  lemma WritesTypedCounts(p: seq<string>, lines: int, words: int, letters: int, dir: string, rest: seq<string>, rng: Rng)
    requires FailedRounds(ParseInt, p)
    ensures Run(p + ([FormatInt(lines), FormatInt(words), FormatInt(letters), dir] + rest), rng)
         == Written(dir, GenLines(lines, words, letters, rng))
  {
    var t := [FormatInt(lines), FormatInt(words), FormatInt(letters), dir] + rest;
    assert t[0] == FormatInt(lines) && t[1] == FormatInt(words) && t[2] == FormatInt(letters);
    ParseFormat(lines);
    ParseFormat(words);
    ParseFormat(letters);
    var c := Counts(lines, words, letters);
    assert CountsAt(ParseInt, t, 0, c);
    AcceptsFirstRound(ParseInt, t, c);
    assert t[3..][0] == dir;
    assert Run(t, rng) == Written(dir, GenLines(lines, words, letters, rng));
    RunIgnoresFailedRounds(p, t, rng);
  }
}
