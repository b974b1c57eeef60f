/**
  The document generator that both random-text scripts share:
  `gen_random_string` builds a word of letters, `gen_line` joins words with
  single spaces, `gen_lines` joins lines with newlines.

  The pseudo-random letter choices are an explicit input. An `Rng` is the
  stream of draws the generator makes from now on, each draw an index into
  the 52-letter alphabet; the generator consumes the draws in the order the
  program makes them (word after word, line after line), so word `k` of
  line `j` uses the `W` draws that start at draw `(j * L + k) * W`.
  Every property below holds for every stream.
 */
module Generator {
  import opened Text

  /** The `n` consecutive code points starting at `first`. */
  function CodePoints(first: char, n: nat): (r: string)
    requires first as int + n < 0xD800
    ensures |r| == n
    ensures forall i :: 0 <= i < n ==> r[i] as int == first as int + i
  {
    seq(n, i requires 0 <= i < n => (first as int + i) as char)
  }

  /** Python's `string.ascii_lowercase`: the 26 code points from 'a' to 'z'. */
  const AsciiLowercase: string := CodePoints('a', 26)

  /** Python's `string.ascii_uppercase`: the 26 code points from 'A' to 'Z'. */
  const AsciiUppercase: string := CodePoints('A', 26)

  /** Python's `string.ascii_letters`, the population `choices` draws from. */
  const Alphabet: string := AsciiLowercase + AsciiUppercase

  /** One draw of `choices`: an index into the alphabet. */
  type LetterIndex = i: int | 0 <= i < 52

  /** The draws the generator makes, in order, from now on. */
  type Rng = nat -> LetterIndex

  predicate IsLetter(c: char) {
    'a' <= c <= 'z' || 'A' <= c <= 'Z'
  }

  /**
    `range(n)` and `choices(..., k=n)` produce nothing for a negative `n`.
    (`choices` raises `OverflowError` for a `k` outside the signed 64-bit
    range, but only when it is called, that is, for at least one line of at
    least one word; that exception is not part of this model.)
   */
  function Clamp(n: int): nat {
    if n < 0 then 0 else n
  }

  /** The alphabet holds exactly the ASCII letters: in particular no space and no newline. */
  lemma AlphabetIsAsciiLetters()
    ensures |Alphabet| == 52
    ensures forall c :: c in Alphabet <==> IsLetter(c)
  {
    forall c | IsLetter(c)
      ensures c in Alphabet
    {
      if c <= 'Z' {
        assert Alphabet[26 + (c as int - 'A' as int)] == c;
      } else {
        assert Alphabet[c as int - 'a' as int] == c;
      }
    }
  }

  // ---------------------------------------------------------------------------
  // The shapes the generator promises, stated independently of how it works.
  // ---------------------------------------------------------------------------

  /** A word of `length` letters (no letters at all for a negative `length`). */
  predicate IsWord(w: string, length: int) {
    && |w| == Clamp(length)
    && forall i :: 0 <= i < |w| ==> w[i] in Alphabet
  }

  /** A line that splits on ' ' into `lineLength` words of `wordLength` letters; empty for `lineLength <= 0`. */
  predicate IsLine(line: string, lineLength: int, wordLength: int) {
    if lineLength <= 0 then line == ""
    else
      && |Split(line, ' ')| == lineLength
      && forall k :: 0 <= k < lineLength ==> IsWord(Split(line, ' ')[k], wordLength)
  }

  /** A document that splits on '\n' into `num` such lines; empty for `num <= 0`. */
  predicate IsDocument(doc: string, num: int, lineLength: int, wordLength: int) {
    if num <= 0 then doc == ""
    else
      && |Split(doc, '\n')| == num
      && forall j :: 0 <= j < num ==> IsLine(Split(doc, '\n')[j], lineLength, wordLength)
  }

  /** Characters in one line: `L*W + L - 1` for `L >= 1` words of `W` letters, else none. */
  function LineChars(lineLength: int, wordLength: int): nat {
    if lineLength <= 0 then 0 else Times(lineLength, Clamp(wordLength)) + lineLength - 1
  }

  /** Draws one line consumes. */
  function LineDraws(lineLength: int, wordLength: int): nat {
    Times(Clamp(lineLength), Clamp(wordLength))
  }

  /** The first draw of word `k` of line `j`. */
  function WordStart(j: nat, k: nat, lineLength: int, wordLength: int): nat {
    Times(Times(j, Clamp(lineLength)) + k, Clamp(wordLength))
  }

  // ---------------------------------------------------------------------------
  // The generator.
  // ---------------------------------------------------------------------------

  /** `gen_random_string(length)`: `length` letters, the i-th chosen by draw `start + i`. */
  function GenRandomString(length: int, rng: Rng, start: nat): (word: string)
    ensures IsWord(word, length)
  {
    AlphabetIsAsciiLetters();
    seq(Clamp(length), i requires 0 <= i < Clamp(length) => Alphabet[rng(start + i)])
  }

  /** `[gen_random_string(word_length) for i in range(count)]`, consuming the draws word after word. */
  function LineWords(count: nat, wordLength: int, rng: Rng, start: nat): (words: seq<string>)
    ensures |words| == count
    ensures forall k :: 0 <= k < count ==> IsWord(words[k], wordLength)
    decreases count
  {
    if count == 0 then []
    else [GenRandomString(wordLength, rng, start)] + LineWords(count - 1, wordLength, rng, start + Clamp(wordLength))
  }

  /** Letters never include the separators the generator uses. */
  lemma WordsAvoidSeparators(words: seq<string>, wordLength: int)
    requires forall k :: 0 <= k < |words| ==> IsWord(words[k], wordLength)
    ensures forall k :: 0 <= k < |words| ==> ' ' !in words[k] && '\n' !in words[k]
  {
    AlphabetIsAsciiLetters();
    forall k | 0 <= k < |words|
      ensures ' ' !in words[k] && '\n' !in words[k]
    {
      assert forall i :: 0 <= i < |words[k]| ==> IsLetter(words[k][i]);
    }
  }

  /** `gen_line(line_length, word_length)`: the words joined by single spaces. */
  function GenLine(lineLength: int, wordLength: int, rng: Rng, start: nat): (line: string)
    ensures |line| == LineChars(lineLength, wordLength)
    ensures '\n' !in line
  {
    var words := LineWords(Clamp(lineLength), wordLength, rng, start);
    WordsAvoidSeparators(words, wordLength);
    JoinAvoids(words, ' ', '\n');
    if lineLength >= 1 then
      JoinLength(words, ' ');
      UniformTotalLength(words, Clamp(wordLength));
      Join(words, ' ')
    else
      Join(words, ' ')
  }

  /** A generated line splits on ' ' into `lineLength` words of `wordLength` letters. */
  lemma GenLineIsLine(lineLength: int, wordLength: int, rng: Rng, start: nat)
    ensures IsLine(GenLine(lineLength, wordLength, rng, start), lineLength, wordLength)
  {
    var words := LineWords(Clamp(lineLength), wordLength, rng, start);
    assert GenLine(lineLength, wordLength, rng, start) == Join(words, ' ');
    if lineLength >= 1 {
      WordsAvoidSeparators(words, wordLength);
      SplitJoin(words, ' ');
    }
  }

  /** `[gen_line(line_len, word_length) for i in range(count)]`, consuming the draws line after line. */
  function DocLines(count: nat, lineLength: int, wordLength: int, rng: Rng, start: nat): (lines: seq<string>)
    ensures |lines| == count
    decreases count
  {
    if count == 0 then []
    else
      [GenLine(lineLength, wordLength, rng, start)]
        + DocLines(count - 1, lineLength, wordLength, rng, start + LineDraws(lineLength, wordLength))
  }

  /** Every generated line has the promised shape and length, and no newline. */
  lemma {:induction false} DocLinesAreLines(count: nat, lineLength: int, wordLength: int, rng: Rng, start: nat)
    ensures forall j :: 0 <= j < count ==>
      && IsLine(DocLines(count, lineLength, wordLength, rng, start)[j], lineLength, wordLength)
      && |DocLines(count, lineLength, wordLength, rng, start)[j]| == LineChars(lineLength, wordLength)
      && '\n' !in DocLines(count, lineLength, wordLength, rng, start)[j]
    decreases count
  {
    if count > 0 {
      var next := start + LineDraws(lineLength, wordLength);
      DocLinesAreLines(count - 1, lineLength, wordLength, rng, next);
      GenLineIsLine(lineLength, wordLength, rng, start);
      var lines := DocLines(count, lineLength, wordLength, rng, start);
      assert lines[0] == GenLine(lineLength, wordLength, rng, start);
      assert lines[1..] == DocLines(count - 1, lineLength, wordLength, rng, next);
    }
  }

  /** `gen_lines(num, line_len, word_length)`: the lines joined by newlines, with no trailing newline. */
  function GenLines(num: int, lineLength: int, wordLength: int, rng: Rng): (doc: string)
    ensures num <= 0 ==> doc == ""
    ensures num >= 1 ==> |doc| == Times(num, LineChars(lineLength, wordLength)) + num - 1
    ensures num >= 1 ==> Count(doc, '\n') == num - 1
  {
    var lines := DocLines(Clamp(num), lineLength, wordLength, rng, 0);
    DocLinesAreLines(Clamp(num), lineLength, wordLength, rng, 0);
    if num >= 1 then
      SplitJoin(lines, '\n');
      SplitCount(Join(lines, '\n'), '\n');
      JoinLength(lines, '\n');
      UniformTotalLength(lines, LineChars(lineLength, wordLength));
      Join(lines, '\n')
    else
      Join(lines, '\n')
  }

  /** A generated document splits on '\n' into `num` lines, each of the promised shape. */
  lemma GenLinesIsDocument(num: int, lineLength: int, wordLength: int, rng: Rng)
    ensures IsDocument(GenLines(num, lineLength, wordLength, rng), num, lineLength, wordLength)
  {
    if num >= 1 {
      var lines := DocLines(num, lineLength, wordLength, rng, 0);
      SplitGenLines(num, lineLength, wordLength, rng);
      DocLinesAreLines(num, lineLength, wordLength, rng, 0);
    }
  }

  // ---------------------------------------------------------------------------
  // Where the draws go, and which documents can come out.
  // ---------------------------------------------------------------------------

  /** Word `k` of a generated line uses the draws starting `k * W` after the line's first. */
  lemma {:induction false} LineWordDraws(count: nat, wordLength: int, rng: Rng, start: nat, k: nat)
    requires k < count
    ensures LineWords(count, wordLength, rng, start)[k] == GenRandomString(wordLength, rng, start + Times(k, Clamp(wordLength)))
    decreases count
  {
    if k > 0 {
      LineWordDraws(count - 1, wordLength, rng, start + Clamp(wordLength), k - 1);
      assert Clamp(wordLength) + Times(k - 1, Clamp(wordLength)) == Times(k, Clamp(wordLength));
    }
  }

  /** Line `j` of a generated document uses the draws starting `j * L * W` after the document's first. */
  lemma {:induction false} DocLineDraws(count: nat, lineLength: int, wordLength: int, rng: Rng, start: nat, j: nat)
    requires j < count
    ensures DocLines(count, lineLength, wordLength, rng, start)[j]
         == GenLine(lineLength, wordLength, rng, start + Times(j, LineDraws(lineLength, wordLength)))
    decreases count
  {
    if j > 0 {
      var d := LineDraws(lineLength, wordLength);
      DocLineDraws(count - 1, lineLength, wordLength, rng, start + d, j - 1);
      assert d + Times(j - 1, d) == Times(j, d);
    }
  }

  /** Line `j` of a generated document, recovered by splitting on newlines. */
  lemma LineOfDocument(num: int, lineLength: int, wordLength: int, rng: Rng, j: nat)
    requires j < num
    ensures j < |Split(GenLines(num, lineLength, wordLength, rng), '\n')|
         && Split(GenLines(num, lineLength, wordLength, rng), '\n')[j]
         == GenLine(lineLength, wordLength, rng, Times(j, LineDraws(lineLength, wordLength)))
  {
    SplitGenLines(num, lineLength, wordLength, rng);
    DocLineDraws(num, lineLength, wordLength, rng, 0, j);
  }

  /** Splitting a generated document on '\n' gives back exactly the generated lines. */
  lemma SplitGenLines(num: int, lineLength: int, wordLength: int, rng: Rng)
    requires num >= 1
    ensures Split(GenLines(num, lineLength, wordLength, rng), '\n') == DocLines(num, lineLength, wordLength, rng, 0)
  {
    var lines := DocLines(num, lineLength, wordLength, rng, 0);
    assert GenLines(num, lineLength, wordLength, rng) == Join(lines, '\n');
    DocLinesAreLines(num, lineLength, wordLength, rng, 0);
    SplitJoin(lines, '\n');
  }

  /** Word `k` of a generated line, recovered by splitting on spaces. */
  lemma WordOfLine(lineLength: int, wordLength: int, rng: Rng, start: nat, k: nat)
    requires k < lineLength
    ensures k < |Split(GenLine(lineLength, wordLength, rng, start), ' ')|
         && Split(GenLine(lineLength, wordLength, rng, start), ' ')[k]
         == GenRandomString(wordLength, rng, start + Times(k, Clamp(wordLength)))
  {
    var words := LineWords(lineLength, wordLength, rng, start);
    assert GenLine(lineLength, wordLength, rng, start) == Join(words, ' ');
    WordsAvoidSeparators(words, wordLength);
    SplitJoin(words, ' ');
    LineWordDraws(lineLength, wordLength, rng, start, k);
  }

  /**
    The generator consumes its draws in program order: word `k` of line `j`
    of a generated document is the word built from the `W` draws that start
    at draw `(j * L + k) * W`.
   */
  lemma DrawOrder(num: int, lineLength: int, wordLength: int, rng: Rng, j: nat, k: nat)
    requires j < num && k < lineLength
    ensures j < |Split(GenLines(num, lineLength, wordLength, rng), '\n')|
         && k < |Split(Split(GenLines(num, lineLength, wordLength, rng), '\n')[j], ' ')|
         && Split(Split(GenLines(num, lineLength, wordLength, rng), '\n')[j], ' ')[k]
         == GenRandomString(wordLength, rng, WordStart(j, k, lineLength, wordLength))
  {
    var start := Times(j, LineDraws(lineLength, wordLength));
    var line := GenLine(lineLength, wordLength, rng, start);
    LineOfDocument(num, lineLength, wordLength, rng, j);
    assert Split(GenLines(num, lineLength, wordLength, rng), '\n')[j] == line;
    WordOfLine(lineLength, wordLength, rng, start, k);
    WordStartOffset(j, k, lineLength, wordLength);
    var first := start + Times(k, Clamp(wordLength));
    assert first == WordStart(j, k, lineLength, wordLength);
    assert Split(line, ' ')[k] == GenRandomString(wordLength, rng, first);
  }

  /** Word `k` of line `j` starts `j` whole lines and `k` whole words after the first draw. */
  lemma WordStartOffset(j: nat, k: nat, lineLength: int, wordLength: int)
    ensures Times(j, LineDraws(lineLength, wordLength)) + Times(k, Clamp(wordLength)) == WordStart(j, k, lineLength, wordLength)
  {
    DrawOffset(j, Clamp(lineLength), k, Clamp(wordLength));
  }

  /** Word `k` of line `j` starts `j` lines of `l * w` draws and `k` words of `w` draws in. */
  lemma DrawOffset(j: nat, l: nat, k: nat, w: nat)
    ensures Times(j, Times(l, w)) + Times(k, w) == Times(Times(j, l) + k, w)
  {
    TimesAssoc(j, l, w);
    TimesAdd(Times(j, l), k, w);
  }

  /** With at least one word of at least one letter per line, the document ends with a letter, not a newline. */
  lemma EndsWithLetter(num: int, lineLength: int, wordLength: int, rng: Rng)
    requires num >= 1 && lineLength >= 1 && wordLength >= 1
    ensures var doc := GenLines(num, lineLength, wordLength, rng);
      |doc| >= 1 && doc[|doc| - 1] in Alphabet
  {
    var lines := DocLines(num, lineLength, wordLength, rng, 0);
    assert GenLines(num, lineLength, wordLength, rng) == Join(lines, '\n');
    LastLineEndsWithLetter(num, lineLength, wordLength, rng, 0);
    JoinLast(lines, '\n');
  }

  /** The last of `count >= 1` generated lines ends with a letter. */
  lemma {:induction false} LastLineEndsWithLetter(count: nat, lineLength: int, wordLength: int, rng: Rng, start: nat)
    requires count >= 1 && lineLength >= 1 && wordLength >= 1
    ensures var last := DocLines(count, lineLength, wordLength, rng, start)[count - 1];
      |last| >= 1 && last[|last| - 1] in Alphabet
    decreases count
  {
    var lines := DocLines(count, lineLength, wordLength, rng, start);
    if count == 1 {
      assert lines[0] == GenLine(lineLength, wordLength, rng, start);
      LineEndsWithLetter(lineLength, wordLength, rng, start);
    } else {
      var next := start + LineDraws(lineLength, wordLength);
      LastLineEndsWithLetter(count - 1, lineLength, wordLength, rng, next);
      assert lines[count - 1] == DocLines(count - 1, lineLength, wordLength, rng, next)[count - 2];
    }
  }

  /** With at least one word of at least one letter, a line ends with a letter, not a space. */
  lemma LineEndsWithLetter(lineLength: int, wordLength: int, rng: Rng, start: nat)
    requires lineLength >= 1 && wordLength >= 1
    ensures var line := GenLine(lineLength, wordLength, rng, start);
      |line| >= 1 && line[|line| - 1] in Alphabet
  {
    var words := LineWords(lineLength, wordLength, rng, start);
    assert GenLine(lineLength, wordLength, rng, start) == Join(words, ' ');
    JoinLast(words, ' ');
  }

  /** The alphabet position of a letter (0 for anything else). */
  function IndexOfLetter(c: char): (i: LetterIndex)
    ensures c in Alphabet ==> Alphabet[i] == c
  {
    AlphabetIsAsciiLetters();
    if 'a' <= c <= 'z' then
      assert Alphabet[c as int - 'a' as int] == c;
      c as int - 'a' as int
    else if 'A' <= c <= 'Z' then
      assert Alphabet[26 + (c as int - 'A' as int)] == c;
      26 + (c as int - 'A' as int)
    else 0
  }

  /** `rng` picks the letters of `letters`, one draw per letter, starting at draw 0. */
  predicate Picks(rng: Rng, letters: string) {
    forall i: nat :: i < |letters| ==> rng(i) == IndexOfLetter(letters[i])
  }

  /** The stream of draws that picks the letters of `letters` one after another. */
  function DrawsFor(letters: string): (rng: Rng)
    ensures Picks(rng, letters)
  {
    (i: nat) => if i < |letters| then IndexOfLetter(letters[i]) else 0
  }

  /** The letters of a line, in order, without its spaces. */
  function LineLetters(line: string): string {
    Concat(Split(line, ' '))
  }

  /** The letters of a list of lines, in order, without spaces and newlines. */
  function DocLetters(lines: seq<string>): string
    decreases |lines|
  {
    if |lines| == 0 then "" else LineLetters(lines[0]) + DocLetters(lines[1..])
  }

  /** Draws that pick a word's own letters generate that word. */
  lemma WordFromDraws(rng: Rng, letters: string, start: nat, w: string, wordLength: int)
    requires Picks(rng, letters)
    requires IsWord(w, wordLength)
    requires start <= |letters| && w <= letters[start..]
    ensures GenRandomString(wordLength, rng, start) == w
  {
    var g := GenRandomString(wordLength, rng, start);
    forall i | 0 <= i < |w|
      ensures g[i] == w[i]
    {
      assert letters[start + i] == w[i];
    }
  }

  /** Draws that pick the letters of a list of words generate those words. */
  lemma {:induction false} LineWordsFromDraws(rng: Rng, letters: string, start: nat, words: seq<string>, wordLength: int)
    requires Picks(rng, letters)
    requires forall k :: 0 <= k < |words| ==> IsWord(words[k], wordLength)
    requires start <= |letters| && Concat(words) <= letters[start..]
    ensures LineWords(|words|, wordLength, rng, start) == words
    decreases |words|
  {
    if |words| > 0 {
      PrefixOfSum(words[0], Concat(words[1..]), letters[start..]);
      WordFromDraws(rng, letters, start, words[0], wordLength);
      DropDrop(letters, start, |words[0]|);
      LineWordsFromDraws(rng, letters, start + Clamp(wordLength), words[1..], wordLength);
      assert [words[0]] + words[1..] == words;
    }
  }

  /** Draws that pick a well-shaped line's letters generate that line, and there are `L * W` of them. */
  lemma LineFromDraws(rng: Rng, letters: string, start: nat, line: string, lineLength: int, wordLength: int)
    requires Picks(rng, letters)
    requires IsLine(line, lineLength, wordLength)
    requires start <= |letters| && LineLetters(line) <= letters[start..]
    ensures GenLine(lineLength, wordLength, rng, start) == line
    ensures |LineLetters(line)| == LineDraws(lineLength, wordLength)
  {
    var words := Split(line, ' ');
    if lineLength >= 1 {
      LineWordsFromDraws(rng, letters, start, words, wordLength);
      JoinSplit(line, ' ');
      UniformTotalLength(words, Clamp(wordLength));
    }
  }

  /** Draws that pick the letters of well-shaped lines generate those lines. */
  lemma {:induction false} DocLinesFromDraws(rng: Rng, letters: string, start: nat, lines: seq<string>, lineLength: int, wordLength: int)
    requires Picks(rng, letters)
    requires forall j :: 0 <= j < |lines| ==> IsLine(lines[j], lineLength, wordLength)
    requires start <= |letters| && DocLetters(lines) <= letters[start..]
    ensures DocLines(|lines|, lineLength, wordLength, rng, start) == lines
    decreases |lines|
  {
    if |lines| > 0 {
      FirstLineFromDraws(rng, letters, start, lines, lineLength, wordLength);
      DocLinesFromDraws(rng, letters, start + LineDraws(lineLength, wordLength), lines[1..], lineLength, wordLength);
      DocLinesCons(lines, rng, start, lineLength, wordLength);
    }
  }

  /** Draws that pick the letters of well-shaped lines generate the first line, and the rest of the letters follow it. */
  lemma FirstLineFromDraws(rng: Rng, letters: string, start: nat, lines: seq<string>, lineLength: int, wordLength: int)
    requires Picks(rng, letters)
    requires |lines| > 0 && IsLine(lines[0], lineLength, wordLength)
    requires start <= |letters| && DocLetters(lines) <= letters[start..]
    ensures GenLine(lineLength, wordLength, rng, start) == lines[0]
    ensures start + LineDraws(lineLength, wordLength) <= |letters|
    ensures DocLetters(lines[1..]) <= letters[start + LineDraws(lineLength, wordLength)..]
  {
    var d := LineDraws(lineLength, wordLength);
    PrefixOfSum(LineLetters(lines[0]), DocLetters(lines[1..]), letters[start..]);
    LineFromDraws(rng, letters, start, lines[0], lineLength, wordLength);
    DropDrop(letters, start, d);
  }

  /** A list of lines is generated when its first line is and the rest are from the following draws. */
  lemma DocLinesCons(lines: seq<string>, rng: Rng, start: nat, lineLength: int, wordLength: int)
    requires |lines| > 0
    requires GenLine(lineLength, wordLength, rng, start) == lines[0]
    requires DocLines(|lines| - 1, lineLength, wordLength, rng, start + LineDraws(lineLength, wordLength)) == lines[1..]
    ensures DocLines(|lines|, lineLength, wordLength, rng, start) == lines
  {
    assert [lines[0]] + lines[1..] == lines;
  }

  /** The words `gen_random_string` can produce are exactly the words of `length` letters. */
  lemma GeneratedWordsAreExactlyWords(w: string, length: int)
    ensures (exists rng: Rng :: GenRandomString(length, rng, 0) == w) <==> IsWord(w, length)
  {
    if IsWord(w, length) {
      WordFromDraws(DrawsFor(w), w, 0, w, length);
    }
  }

  /** The lines `gen_line` can produce are exactly the lines of the promised shape. */
  lemma GeneratedLinesAreExactlyShaped(line: string, lineLength: int, wordLength: int)
    ensures (exists rng: Rng :: GenLine(lineLength, wordLength, rng, 0) == line)
        <==> IsLine(line, lineLength, wordLength)
  {
    if rng: Rng :| GenLine(lineLength, wordLength, rng, 0) == line {
      GenLineIsLine(lineLength, wordLength, rng, 0);
    }
    if IsLine(line, lineLength, wordLength) {
      var letters := LineLetters(line);
      LineFromDraws(DrawsFor(letters), letters, 0, line, lineLength, wordLength);
    }
  }

  /**
    The documents the generator can produce are exactly the documents of
    the promised shape: every stream of draws yields one, and every one is
    yielded by some stream (the alphabet is the whole of `ascii_letters`).
   */
  lemma GeneratedDocumentsAreExactlyShaped(doc: string, num: int, lineLength: int, wordLength: int)
    ensures (exists rng: Rng :: GenLines(num, lineLength, wordLength, rng) == doc)
        <==> IsDocument(doc, num, lineLength, wordLength)
  {
    if rng: Rng :| GenLines(num, lineLength, wordLength, rng) == doc {
      GenLinesIsDocument(num, lineLength, wordLength, rng);
    }
    if IsDocument(doc, num, lineLength, wordLength) {
      var lines := if num >= 1 then Split(doc, '\n') else [];
      var letters := DocLetters(lines);
      var rng := DrawsFor(letters);
      DocLinesFromDraws(rng, letters, 0, lines, lineLength, wordLength);
      if num >= 1 {
        JoinSplit(doc, '\n');
      }
      assert GenLines(num, lineLength, wordLength, rng) == doc;
    }
  }
}
