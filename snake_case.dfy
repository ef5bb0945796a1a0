/**
  `camelToSnake` (util/main.js:183-185): the regular-expression replace
  `/([a-z0-9])([A-Z])/g` -> `'$1_$2'` followed by `toLowerCase()`, on ASCII text.
*/
module SnakeCase {

  predicate IsUpper(c: char) {
    'A' <= c <= 'Z'
  }

  /** The character class `[a-z0-9]` of the pattern's first group. */
  predicate IsLowerOrDigit(c: char) {
    'a' <= c <= 'z' || '0' <= c <= '9'
  }

  predicate NoUpper(s: string) {
    forall i :: 0 <= i < |s| ==> !IsUpper(s[i])
  }

  /** Index i of s starts a word: s[i-1] is in `[a-z0-9]` and s[i] is in `[A-Z]`. */
  predicate IsBoundary(s: string, i: int) {
    0 < i < |s| && IsLowerOrDigit(s[i - 1]) && IsUpper(s[i])
  }

  /**
    The global replace as the regex engine runs it: scanning left to right, a
    match consumes its two characters and the scan resumes after them.
  */
  function ReplaceMatches(s: string): string
    decreases |s|
  {
    if |s| < 2 then s
    else if IsLowerOrDigit(s[0]) && IsUpper(s[1]) then [s[0], '_', s[1]] + ReplaceMatches(s[2..])
    else [s[0]] + ReplaceMatches(s[1..])
  }

  function LowerChar(c: char): char {
    if IsUpper(c) then (c as int - 'A' as int + 'a' as int) as char else c
  }

  /** `String.prototype.toLowerCase` on ASCII letters. */
  function ToLowerCase(s: string): (r: string)
    ensures |r| == |s| && NoUpper(r)
  {
    seq(|s|, i requires 0 <= i < |s| => LowerChar(s[i]))
  }

  function CamelToSnake(s: string): (r: string)
    ensures NoUpper(r)
  {
    ToLowerCase(ReplaceMatches(s))
  }

  /**
    Reference rule, independent of how the regex scans: the text for s + [c] is
    the text for s, then `_` exactly when c starts a word, then c.
  */
  function InsertUnderscores(s: string): string
    decreases |s|
  {
    if s == [] then []
    else InsertUnderscores(s[..|s| - 1]) + (if IsBoundary(s, |s| - 1) then "_" else "") + [s[|s| - 1]]
  }

  /** The number of word starts in s. */
  function BoundaryCount(s: string): nat
    decreases |s|
  {
    if s == [] then 0
    else BoundaryCount(s[..|s| - 1]) + (if IsBoundary(s, |s| - 1) then 1 else 0)
  }

  /** `_` inserted at the join of a and b exactly when a word starts there. */
  function JoinSeparator(a: string, b: string): string {
    if a != [] && b != [] && IsLowerOrDigit(a[|a| - 1]) && IsUpper(b[0]) then "_" else ""
  }

  lemma {:induction false} ReplaceMatchesNotLowerHead(s: string)
    requires s != [] && !IsLowerOrDigit(s[0])
    ensures ReplaceMatches(s) == [s[0]] + ReplaceMatches(s[1..])
  {
  }

  lemma {:induction false} ReplaceMatchesSplitOne(c: char, b: string)
    ensures ReplaceMatches([c] + b) == [c] + JoinSeparator([c], b) + ReplaceMatches(b)
  {
    if b != [] && IsLowerOrDigit(c) && IsUpper(b[0]) {
      assert ([c] + b)[2..] == b[1..];
      ReplaceMatchesNotLowerHead(b);
    } else if b != [] {
      assert ([c] + b)[1..] == b;
    }
  }

  lemma {:induction false} ReplaceMatchesConsMatch(a: string, b: string)
    requires |a| >= 2 && IsLowerOrDigit(a[0]) && IsUpper(a[1])
    ensures ReplaceMatches(a) == [a[0], '_', a[1]] + ReplaceMatches(a[2..])
    ensures ReplaceMatches(a + b) == [a[0], '_', a[1]] + ReplaceMatches(a[2..] + b)
  {
    assert (a + b)[2..] == a[2..] + b;
  }

  lemma {:induction false} ReplaceMatchesConsOther(a: string, b: string)
    requires |a| >= 2 && !(IsLowerOrDigit(a[0]) && IsUpper(a[1]))
    ensures ReplaceMatches(a) == [a[0]] + ReplaceMatches(a[1..])
    ensures ReplaceMatches(a + b) == [a[0]] + ReplaceMatches(a[1..] + b)
  {
    assert (a + b)[1..] == a[1..] + b;
  }

  /** The regex scan splits at any join: what it does on a + b is what it does on each part, plus the join's separator. */
  lemma {:induction false} ReplaceMatchesSplit(a: string, b: string)
    ensures ReplaceMatches(a + b) == ReplaceMatches(a) + JoinSeparator(a, b) + ReplaceMatches(b)
    decreases |a|
  {
    if a == [] {
      assert a + b == b;
    } else if |a| == 1 {
      assert a == [a[0]];
      ReplaceMatchesSplitOne(a[0], b);
    } else if IsLowerOrDigit(a[0]) && IsUpper(a[1]) {
      ReplaceMatchesConsMatch(a, b);
      ReplaceMatchesSplit(a[2..], b);
      JoinSeparatorAfterDrop(a, b, 2);
      Reassociate([a[0], '_', a[1]], ReplaceMatches(a[2..]), JoinSeparator(a, b), ReplaceMatches(b));
    } else {
      ReplaceMatchesConsOther(a, b);
      ReplaceMatchesSplit(a[1..], b);
      JoinSeparatorAfterDrop(a, b, 1);
      Reassociate([a[0]], ReplaceMatches(a[1..]), JoinSeparator(a, b), ReplaceMatches(b));
    }
  }

  lemma Reassociate(head: string, x: string, sep: string, y: string)
    ensures head + (x + sep + y) == (head + x) + sep + y
  {
  }

  lemma JoinSeparatorAfterDrop(a: string, b: string, k: int)
    requires |a| >= 2 && (k == 1 || (k == 2 && IsUpper(a[1])))
    ensures JoinSeparator(a[k..], b) == JoinSeparator(a, b)
  {
    if k == 2 && |a| == 2 {
      assert !IsLowerOrDigit(a[|a| - 1]);
    }
  }

  /** The regex scan inserts `_` exactly where the reference rule does. */
  lemma {:induction false} ReplaceMatchesIsReference(s: string)
    ensures ReplaceMatches(s) == InsertUnderscores(s)
    decreases |s|
  {
    if s != [] {
      var p, c := s[..|s| - 1], s[|s| - 1];
      assert s == p + [c];
      ReplaceMatchesSplit(p, [c]);
      ReplaceMatchesIsReference(p);
      assert JoinSeparator(p, [c]) == if IsBoundary(s, |s| - 1) then "_" else "";
    }
  }

  lemma {:induction false} InsertUnderscoresLength(s: string)
    ensures |InsertUnderscores(s)| == |s| + BoundaryCount(s)
    decreases |s|
  {
    if s != [] {
      InsertUnderscoresLength(s[..|s| - 1]);
    }
  }

  lemma {:induction false} ToLowerCaseConcat(a: string, b: string)
    ensures ToLowerCase(a + b) == ToLowerCase(a) + ToLowerCase(b)
  {
    assert |ToLowerCase(a + b)| == |ToLowerCase(a) + ToLowerCase(b)|;
    forall i | 0 <= i < |a + b|
      ensures ToLowerCase(a + b)[i] == (ToLowerCase(a) + ToLowerCase(b))[i]
    {
      if i >= |a| {
        assert (a + b)[i] == b[i - |a|];
      }
    }
  }

  /** camelToSnake splits at any join of its input, inserting `_` there only when a word starts at the join. */
  lemma CamelToSnakeSplit(a: string, b: string)
    ensures CamelToSnake(a + b) == CamelToSnake(a) + JoinSeparator(a, b) + CamelToSnake(b)
  {
    ReplaceMatchesSplit(a, b);
    var sep := JoinSeparator(a, b);
    ToLowerCaseConcat(ReplaceMatches(a) + sep, ReplaceMatches(b));
    ToLowerCaseConcat(ReplaceMatches(a), sep);
    assert ToLowerCase(sep) == sep;
  }

  /** camelToSnake is the reference rule followed by lower-casing. */
  lemma CamelToSnakeIsReference(s: string)
    ensures CamelToSnake(s) == ToLowerCase(InsertUnderscores(s))
  {
    ReplaceMatchesIsReference(s);
  }

  /** The output is one character longer than the input per word start. */
  lemma CamelToSnakeLength(s: string)
    ensures |CamelToSnake(s)| == |s| + BoundaryCount(s)
  {
    ReplaceMatchesIsReference(s);
    InsertUnderscoresLength(s);
  }

  /** A run of uppercase letters is never split: no `_` goes between two of them. */
  lemma UpperRunNotSplit(a: string, b: string)
    requires a != [] && b != [] && IsUpper(a[|a| - 1]) && IsUpper(b[0])
    ensures CamelToSnake(a + b) == CamelToSnake(a) + CamelToSnake(b)
  {
    CamelToSnakeSplit(a, b);
  }

  lemma {:induction false} ReplaceMatchesNoUpper(s: string)
    requires NoUpper(s)
    ensures ReplaceMatches(s) == s
    decreases |s|
  {
    if |s| >= 2 {
      assert NoUpper(s[1..]) by {
        forall i | 0 <= i < |s[1..]| ensures !IsUpper(s[1..][i]) {
          assert s[1..][i] == s[i + 1];
        }
      }
      ReplaceMatchesNoUpper(s[1..]);
    }
  }

  /** A key with no uppercase letter, such as "outline", is left as it is. */
  lemma CamelToSnakeNoUpper(s: string)
    requires NoUpper(s)
    ensures CamelToSnake(s) == s
  {
    ReplaceMatchesNoUpper(s);
  }

  /** Renaming an already renamed key changes nothing. */
  lemma CamelToSnakeIdempotent(s: string)
    ensures CamelToSnake(CamelToSnake(s)) == CamelToSnake(s)
  {
    CamelToSnakeNoUpper(CamelToSnake(s));
  }

  lemma {:induction false} InsertUnderscoresNoBoundary(s: string)
    requires forall i :: 0 <= i < |s| ==> !IsBoundary(s, i)
    ensures InsertUnderscores(s) == s
    decreases |s|
  {
    if s != [] {
      var p := s[..|s| - 1];
      forall i | 0 <= i < |p| ensures !IsBoundary(p, i) {
        assert !IsBoundary(s, i);
      }
      InsertUnderscoresNoBoundary(p);
    }
  }

  /** Where no word starts, camelToSnake only lower-cases. */
  lemma CamelToSnakeNoBoundary(s: string)
    requires forall i :: 0 <= i < |s| ==> !IsBoundary(s, i)
    ensures CamelToSnake(s) == ToLowerCase(s)
  {
    ReplaceMatchesIsReference(s);
    InsertUnderscoresNoBoundary(s);
  }
}
