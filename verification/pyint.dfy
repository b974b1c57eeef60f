/**
  Python's `int(text)` on a string, as both scripts use it to read a count:
  surrounding whitespace is ignored, an optional '+' or '-' sign may
  precede the digits, and single underscores may separate digits. A string
  of any other form is refused (Python raises `ValueError`), modelled here
  as `None`. Only ASCII text is modelled. On ASCII text `int` skips a
  narrower set of whitespace than `str.strip` does: the separators 0x1C to
  0x1F are not skipped, so an answer that starts or ends with one of them
  is refused.
 */
module PyInt {

  datatype Option<T> = None | Some(value: T)

  /** The ASCII whitespace `int` skips around a numeral: tab to carriage return, and the space. */
  predicate IsSpace(c: char) {
    var k := c as int;
    9 <= k <= 13 || k == 32
  }

  predicate IsDigit(c: char) {
    '0' <= c <= '9'
  }

  predicate AllSpace(s: string) {
    forall i :: 0 <= i < |s| ==> IsSpace(s[i])
  }

  /** Drops the leading whitespace that `int` skips. */
  function TrimStart(s: string): (r: string)
    decreases |s|
  {
    if |s| > 0 && IsSpace(s[0]) then TrimStart(s[1..]) else s
  }

  /** Drops the trailing whitespace that `int` skips. */
  function TrimEnd(s: string): (r: string)
    decreases |s|
  {
    if |s| > 0 && IsSpace(s[|s| - 1]) then TrimEnd(s[..|s| - 1]) else s
  }

  /** `TrimStart` removes exactly the leading whitespace: what it drops is whitespace, and what it keeps does not start with any. */
  lemma {:induction false} TrimStartRemovesLeadingSpace(s: string)
    ensures |TrimStart(s)| <= |s| && TrimStart(s) == s[|s| - |TrimStart(s)|..]
    ensures AllSpace(s[..|s| - |TrimStart(s)|])
    ensures TrimStart(s) == "" || !IsSpace(TrimStart(s)[0])
    decreases |s|
  {
    if |s| > 0 && IsSpace(s[0]) {
      TrimStartRemovesLeadingSpace(s[1..]);
      var r := TrimStart(s);
      assert s[|s| - |r|..] == s[1..][|s| - 1 - |r|..];
      assert s[..|s| - |r|] == [s[0]] + s[1..][..|s| - 1 - |r|];
    }
  }

  /** `TrimEnd` removes exactly the trailing whitespace: what it drops is whitespace, and what it keeps does not end with any. */
  lemma {:induction false} TrimEndRemovesTrailingSpace(s: string)
    ensures |TrimEnd(s)| <= |s| && TrimEnd(s) == s[..|TrimEnd(s)|]
    ensures AllSpace(s[|TrimEnd(s)|..])
    ensures TrimEnd(s) == "" || !IsSpace(TrimEnd(s)[|TrimEnd(s)| - 1])
    decreases |s|
  {
    if |s| > 0 && IsSpace(s[|s| - 1]) {
      var t := s[..|s| - 1];
      TrimEndRemovesTrailingSpace(t);
      var r := TrimEnd(s);
      assert s[..|r|] == t[..|r|];
      assert s[|r|..] == t[|r|..] + [s[|s| - 1]];
    }
  }

  /** Both ends: what `int` looks at once the surrounding whitespace is gone. */
  function Strip(s: string): string {
    TrimEnd(TrimStart(s))
  }

  /** Decimal digits, where a single underscore may stand between two digits. */
  predicate IsDecimal(b: string) {
    && |b| >= 1
    && forall i {:trigger b[i]} :: 0 <= i < |b| ==>
         IsDigit(b[i]) || (b[i] == '_' && 0 < i < |b| - 1 && IsDigit(b[i - 1]) && IsDigit(b[i + 1]))
  }

  /** The value of a string of decimal digits, underscores ignored. */
  function DecimalValue(b: string): nat
    decreases |b|
  {
    if |b| == 0 then 0
    else
      var c := b[|b| - 1];
      if IsDigit(c) then 10 * DecimalValue(b[..|b| - 1]) + (c as int - '0' as int)
      else DecimalValue(b[..|b| - 1])
  }

  /** What `int` makes of the text once the surrounding whitespace is gone: an optional sign, then digits. */
  function ParseStripped(t: string): Option<int> {
    if |t| > 0 && (t[0] == '+' || t[0] == '-') then
      if IsDecimal(t[1..]) then
        var magnitude: int := DecimalValue(t[1..]);
        Some(if t[0] == '-' then -magnitude else magnitude)
      else None
    else if IsDecimal(t) then Some(DecimalValue(t))
    else None
  }

  /** `int(s)`: `Some(n)` when Python returns `n`, `None` when it raises `ValueError`. */
  function ParseInt(s: string): Option<int> {
    ParseStripped(Strip(s))
  }

  // ---------------------------------------------------------------------------
  // Partner: Python's `str(n)`, and the round trip `int(str(n)) == n`.
  // ---------------------------------------------------------------------------

  function DigitChar(d: nat): (c: char)
    requires d < 10
    ensures IsDigit(c)
  {
    ('0' as int + d) as char
  }

  /** The decimal digits of `n`, most significant first, without leading zeros. */
  function Digits(n: nat): (s: string)
    ensures |s| >= 1
    ensures forall i :: 0 <= i < |s| ==> IsDigit(s[i])
    decreases n
  {
    if n < 10 then [DigitChar(n)] else Digits(n / 10) + [DigitChar(n % 10)]
  }

  /** `str(n)`: a minus sign for a negative number, then its digits. */
  function FormatInt(n: int): string {
    if n < 0 then "-" + Digits(-n) else Digits(n)
  }

  lemma {:induction false} DecimalValueOfDigits(n: nat)
    ensures DecimalValue(Digits(n)) == n
    decreases n
  {
    var s := Digits(n);
    if n >= 10 {
      DecimalValueOfDigits(n / 10);
      assert s[..|s| - 1] == Digits(n / 10);
    }
  }

  /** A string that neither starts nor ends with whitespace is left as it is by `Strip`. */
  lemma StripUnpadded(s: string)
    requires |s| >= 1 && !IsSpace(s[0]) && !IsSpace(s[|s| - 1])
    ensures Strip(s) == s
  {
  }

  /** What `str` writes has no surrounding whitespace. */
  lemma StripFormat(n: int)
    ensures Strip(FormatInt(n)) == FormatInt(n)
  {
    var s := FormatInt(n);
    assert !IsSpace(s[0]) && !IsSpace(s[|s| - 1]);
    StripUnpadded(s);
  }

  /** The digits `str` writes form a decimal numeral of the number, with no sign in front. */
  lemma DigitsAreDecimal(m: nat)
    ensures IsDecimal(Digits(m)) && DecimalValue(Digits(m)) == m
    ensures Digits(m)[0] != '+' && Digits(m)[0] != '-'
  {
    DecimalValueOfDigits(m);
    assert IsDigit(Digits(m)[0]);
  }

  /** Sign and digits as `str` writes them read back as the number. */
  lemma ParseStrippedFormat(n: int)
    ensures ParseStripped(FormatInt(n)) == Some(n)
  {
    var s := FormatInt(n);
    if n < 0 {
      DigitsAreDecimal(-n);
      assert s[0] == '-' && s[1..] == Digits(-n);
    } else {
      DigitsAreDecimal(n);
      assert s == Digits(n);
    }
  }

  /** Reading back what `str` writes gives the number: `int(str(n)) == n`. */
  lemma ParseFormat(n: int)
    ensures ParseInt(FormatInt(n)) == Some(n)
  {
    StripFormat(n);
    ParseStrippedFormat(n);
  }

  // ---------------------------------------------------------------------------
  // Surrounding whitespace does not change what `int` reads.
  // ---------------------------------------------------------------------------

  lemma {:induction false} TrimStartSkipsSpace(pre: string, s: string)
    requires AllSpace(pre)
    ensures TrimStart(pre + s) == TrimStart(s)
    decreases |pre|
  {
    if |pre| > 0 {
      assert (pre + s)[1..] == pre[1..] + s;
      TrimStartSkipsSpace(pre[1..], s);
    } else {
      assert pre + s == s;
    }
  }

  lemma {:induction false} TrimEndSkipsSpace(s: string, post: string)
    requires AllSpace(post)
    ensures TrimEnd(s + post) == TrimEnd(s)
    decreases |post|
  {
    if |post| > 0 {
      assert (s + post)[..|s + post| - 1] == s + post[..|post| - 1];
      TrimEndSkipsSpace(s, post[..|post| - 1]);
    } else {
      assert s + post == s;
    }
  }

  /** Leading whitespace of `s` is all that `TrimStart` removes from `s + post`, when `s` is not all whitespace. */
  lemma {:induction false} TrimStartKeepsTail(s: string, post: string)
    requires !AllSpace(s)
    ensures TrimStart(s + post) == TrimStart(s) + post
    decreases |s|
  {
    if IsSpace(s[0]) {
      assert (s + post)[1..] == s[1..] + post;
      TrimStartKeepsTail(s[1..], post);
    }
  }

  lemma AllSpaceStripsToEmpty(s: string)
    requires AllSpace(s)
    ensures TrimStart(s) == ""
  {
  }

  /** `int(pre + s + post) == int(s)` when `pre` and `post` are whitespace. */
  lemma ParseIgnoresSurroundingSpace(pre: string, s: string, post: string)
    requires AllSpace(pre) && AllSpace(post)
    ensures ParseInt(pre + s + post) == ParseInt(s)
  {
    assert pre + s + post == pre + (s + post);
    TrimStartSkipsSpace(pre, s + post);
    if AllSpace(s) {
      assert AllSpace(s + post);
      AllSpaceStripsToEmpty(s + post);
      AllSpaceStripsToEmpty(s);
    } else {
      TrimStartKeepsTail(s, post);
      TrimEndSkipsSpace(TrimStart(s), post);
    }
    assert Strip(pre + s + post) == Strip(s);
  }

  /** A string with a character that is neither a digit nor an underscore is not a decimal numeral. */
  lemma NotDecimalAt(b: string, i: nat)
    requires i < |b| && !IsDigit(b[i]) && b[i] != '_'
    ensures !IsDecimal(b)
  {
  }

  /** `TrimEnd` keeps a first character that is not whitespace. */
  lemma TrimEndKeepsFirst(t: string)
    requires |t| > 0 && !IsSpace(t[0])
    ensures |TrimEnd(t)| > 0 && TrimEnd(t)[0] == t[0]
  {
    TrimEndRemovesTrailingSpace(t);
  }

  /** `TrimStart` keeps a last character that is not whitespace, and then `TrimEnd` has nothing to drop. */
  lemma TrimStartKeepsLast(t: string)
    requires |t| > 0 && !IsSpace(t[|t| - 1])
    ensures |TrimStart(t)| > 0 && TrimStart(t)[|TrimStart(t)| - 1] == t[|t| - 1]
    ensures Strip(t) == TrimStart(t)
  {
    TrimStartRemovesLeadingSpace(t);
  }

  /**
    `int` skips only tab to carriage return and the space: an answer that
    starts or ends with one of the separators 0x1C to 0x1F is refused,
    whatever else it holds.
   */
  lemma SeparatorIsRefused(c: char, s: string)
    requires 28 <= c as int <= 31
    ensures ParseInt([c] + s) == None
    ensures ParseInt(s + [c]) == None
  {
    var front := [c] + s;
    assert TrimStart(front) == front;
    TrimEndKeepsFirst(front);
    var f := Strip(front);
    if |f| > 0 && (f[0] == '+' || f[0] == '-') {
      assert false;
    }
    NotDecimalAt(f, 0);

    var back := s + [c];
    TrimStartKeepsLast(back);
    var r := Strip(back);
    if |r| > 0 && (r[0] == '+' || r[0] == '-') {
      if |r| > 1 {
        assert r[1..][|r| - 2] == c;
        NotDecimalAt(r[1..], |r| - 2);
      }
    } else {
      NotDecimalAt(r, |r| - 1);
    }
  }

  /** A space around a numeral is skipped, but the file separator 0x1C is not: `int("\x1c5")` is refused. */
  lemma SkipsSpaceNotSeparator()
    ensures ParseInt(" 5 ") == Some(5)
    ensures ParseInt("\U{1c}5") == None
  {
    assert TrimStart(" 5 ") == "5 ";
    assert TrimEnd("5 ") == "5";
    assert DecimalValue("5") == 5;
    assert !IsSpace('\U{1c}');
    assert Strip("\U{1c}5") == "\U{1c}5";
    var t := "\U{1c}5";
    assert |t| == 2 && t[0] == '\U{1c}';
    assert !IsDigit(t[0]);
    assert !IsDecimal(t);
  }
}
