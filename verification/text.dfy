/**
  Joining and splitting strings on a one-character separator, with the
  semantics of Python's `sep.join(parts)` and `s.split(sep)` (explicit
  separator: empty pieces are kept, and the empty string splits into one
  empty piece).
 */
module Text {

  /** `sep.join(parts)`: the parts in order, with one separator between neighbours. */
  function Join(parts: seq<string>, sep: char): string
    decreases |parts|
  {
    if |parts| == 0 then ""
    else if |parts| == 1 then parts[0]
    else parts[0] + [sep] + Join(parts[1..], sep)
  }

  /** `s.split(sep)`: the maximal separator-free pieces of `s`, in order. */
  function Split(s: string, sep: char): (pieces: seq<string>)
    ensures |pieces| >= 1
    decreases |s|
  {
    if |s| == 0 then [""]
    else
      var rest := Split(s[1..], sep);
      if s[0] == sep then [""] + rest
      else [[s[0]] + rest[0]] + rest[1..]
  }

  /** No piece of a split contains the separator. */
  lemma {:induction false} SplitPiecesAvoidSeparator(s: string, sep: char)
    ensures forall k :: 0 <= k < |Split(s, sep)| ==> sep !in Split(s, sep)[k]
    decreases |s|
  {
    if |s| > 0 {
      SplitPiecesAvoidSeparator(s[1..], sep);
    }
  }

  /** Number of occurrences of `c` in `s` (Python's `s.count(c)`). */
  function Count(s: string, c: char): nat
    decreases |s|
  {
    if |s| == 0 then 0
    else (if s[0] == c then 1 else 0) + Count(s[1..], c)
  }

  /** Total number of characters in `parts`. */
  function TotalLength(parts: seq<string>): nat
    decreases |parts|
  {
    if |parts| == 0 then 0 else |parts[0]| + TotalLength(parts[1..])
  }

  /** `len(s.split(sep)) == s.count(sep) + 1`. */
  lemma {:induction false} SplitCount(s: string, sep: char)
    ensures |Split(s, sep)| == Count(s, sep) + 1
    decreases |s|
  {
    if |s| > 0 {
      SplitCount(s[1..], sep);
    }
  }

  /** A string without the separator is a single piece. */
  lemma {:induction false} SplitWithoutSeparator(p: string, sep: char)
    requires sep !in p
    ensures Split(p, sep) == [p]
    decreases |p|
  {
    if |p| > 0 {
      assert p[0] in p;
      SplitWithoutSeparator(p[1..], sep);
      assert [p[0]] + p[1..] == p;
    }
  }

  /** A separator-free prefix followed by a separator splits off as the first piece. */
  lemma {:induction false} SplitAfterPiece(p: string, sep: char, t: string)
    requires sep !in p
    ensures Split(p + [sep] + t, sep) == [p] + Split(t, sep)
    decreases |p|
  {
    if |p| == 0 {
      assert p + [sep] + t == [sep] + t;
      assert ([sep] + t)[1..] == t;
    } else {
      var s := p + [sep] + t;
      assert s[1..] == p[1..] + [sep] + t;
      SplitAfterPiece(p[1..], sep, t);
      assert [p[0]] + p[1..] == p;
    }
  }

  /** Splitting undoes joining, provided no part contains the separator and there is at least one part. */
  lemma {:induction false} SplitJoin(parts: seq<string>, sep: char)
    requires |parts| >= 1
    requires forall k :: 0 <= k < |parts| ==> sep !in parts[k]
    ensures Split(Join(parts, sep), sep) == parts
    decreases |parts|
  {
    if |parts| == 1 {
      SplitWithoutSeparator(parts[0], sep);
    } else {
      SplitJoin(parts[1..], sep);
      SplitAfterPiece(parts[0], sep, Join(parts[1..], sep));
      assert [parts[0]] + parts[1..] == parts;
    }
  }

  /** Joining the first piece onto the rest re-inserts the separator that split them. */
  lemma {:induction false} JoinConsPiece(c: char, rest: seq<string>, sep: char)
    requires |rest| >= 1
    requires c != sep
    ensures Join([[c] + rest[0]] + rest[1..], sep) == [c] + Join(rest, sep)
    decreases |rest|
  {
    var parts := [[c] + rest[0]] + rest[1..];
    if |rest| > 1 {
      assert parts[1..] == rest[1..];
    }
  }

  /** Joining undoes splitting, for every string. */
  lemma {:induction false} JoinSplit(s: string, sep: char)
    ensures Join(Split(s, sep), sep) == s
    decreases |s|
  {
    if |s| > 0 {
      var rest := Split(s[1..], sep);
      JoinSplit(s[1..], sep);
      if s[0] == sep {
        assert ([""] + rest)[1..] == rest;
        assert s == [sep] + s[1..];
      } else {
        JoinConsPiece(s[0], rest, sep);
        assert s == [s[0]] + s[1..];
      }
    }
  }

  /** The length of a join: every part's characters plus one separator between neighbours. */
  lemma {:induction false} JoinLength(parts: seq<string>, sep: char)
    requires |parts| >= 1
    ensures |Join(parts, sep)| == TotalLength(parts) + |parts| - 1
    decreases |parts|
  {
    if |parts| > 1 {
      JoinLength(parts[1..], sep);
    }
  }

  /**
    `n * size`: the total of `n` blocks of `size` each, written as repeated
    addition so that lengths and counts stay linear facts for the verifier.
   */
  function Times(n: nat, size: nat): nat
    decreases n
  {
    if n == 0 then 0 else size + Times(n - 1, size)
  }

  /** `Times` is multiplication. */
  lemma {:induction false} TimesIsProduct(n: nat, size: nat)
    ensures Times(n, size) == n * size
    decreases n
  {
    if n > 0 {
      TimesIsProduct(n - 1, size);
    }
  }

  /** Blocks laid end to end: `(a + b) * size == a * size + b * size`. */
  lemma {:induction false} TimesAdd(a: nat, b: nat, size: nat)
    ensures Times(a + b, size) == Times(a, size) + Times(b, size)
    decreases a
  {
    if a > 0 {
      TimesAdd(a - 1, b, size);
      assert a + b - 1 == (a - 1) + b;
    }
  }

  /** Blocks of blocks: `n * (m * size) == (n * m) * size`. */
  lemma {:induction false} TimesAssoc(n: nat, m: nat, size: nat)
    ensures Times(n, Times(m, size)) == Times(Times(n, m), size)
    decreases n
  {
    if n > 0 {
      TimesAssoc(n - 1, m, size);
      TimesAdd(m, Times(n - 1, m), size);
    }
  }

  /** Parts of one common length `w` have `|parts| * w` characters between them. */
  lemma {:induction false} UniformTotalLength(parts: seq<string>, w: nat)
    requires forall k :: 0 <= k < |parts| ==> |parts[k]| == w
    ensures TotalLength(parts) == Times(|parts|, w)
    decreases |parts|
  {
    if |parts| > 0 {
      UniformTotalLength(parts[1..], w);
    }
  }

  /** A character that is not the separator and occurs in no part does not occur in the join. */
  lemma {:induction false} JoinAvoids(parts: seq<string>, sep: char, c: char)
    requires c != sep
    requires forall k :: 0 <= k < |parts| ==> c !in parts[k]
    ensures c !in Join(parts, sep)
    decreases |parts|
  {
    if |parts| > 1 {
      JoinAvoids(parts[1..], sep, c);
    }
  }

  /** All parts one after another, with nothing between them (`''.join(parts)`). */
  function Concat(parts: seq<string>): (r: string)
    ensures |r| == TotalLength(parts)
    decreases |parts|
  {
    if |parts| == 0 then "" else parts[0] + Concat(parts[1..])
  }

  /** If `a + b` is a prefix of `s`, then `a` is and `b` is a prefix of what follows `a`. */
  lemma PrefixOfSum(a: string, b: string, s: string)
    requires a + b <= s
    ensures a <= s && |a| <= |s| && b <= s[|a|..]
  {
    assert s[..|a| + |b|] == a + b;
    assert s[|a|..][..|b|] == b;
  }

  /** Dropping `a` characters and then `b` more drops `a + b`. */
  lemma DropDrop(s: string, a: nat, b: nat)
    requires a + b <= |s|
    ensures s[a..][b..] == s[a + b..]
  {
  }

  /** The last character of a join is the last character of the last part, when that part is not empty. */
  lemma {:induction false} JoinLast(parts: seq<string>, sep: char)
    requires |parts| >= 1 && |parts[|parts| - 1]| >= 1
    ensures |Join(parts, sep)| >= 1
    ensures Join(parts, sep)[|Join(parts, sep)| - 1] == parts[|parts| - 1][|parts[|parts| - 1]| - 1]
    decreases |parts|
  {
    if |parts| > 1 {
      JoinLast(parts[1..], sep);
    }
  }
}
