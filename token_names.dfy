/**
  The names of the theme tokens. Every key of the object that `generateThemeTokens`
  builds (util/main.js:78-142) is a camelCase identifier made of a few English
  words; this module spells such identifiers from their words and shows what
  camelToSnake makes of them.
*/
module TokenNames {
  import opened SnakeCase

  /** The words the theme's token names are made of. */
  datatype Word = Primary | Secondary | Tertiary | Error | Warning | Container | Background
    | Surface | Variant | Dim | Bright | Lowest | Low | High | Highest | Outline | Inverse
    | On | Scrim | Shadow | Inactive

  function Spelling(w: Word): string {
    match w
    case Primary => "primary"
    case Secondary => "secondary"
    case Tertiary => "tertiary"
    case Error => "error"
    case Warning => "warning"
    case Container => "container"
    case Background => "background"
    case Surface => "surface"
    case Variant => "variant"
    case Dim => "dim"
    case Bright => "bright"
    case Lowest => "lowest"
    case Low => "low"
    case High => "high"
    case Highest => "highest"
    case Outline => "outline"
    case Inverse => "inverse"
    case On => "on"
    case Scrim => "scrim"
    case Shadow => "shadow"
    case Inactive => "inactive"
  }

  predicate IsLowerLetter(c: char) {
    'a' <= c <= 'z'
  }

  /** At least two characters, all of them in `[a-z]`. */
  predicate IsLowerWord(s: string) {
    |s| > 1 && forall i :: 0 <= i < |s| ==> IsLowerLetter(s[i])
  }

  lemma SpellingIsLowerWord(w: Word)
    ensures IsLowerWord(Spelling(w))
  {
  }

  lemma SpellingInjective(a: Word, b: Word)
    requires Spelling(a) == Spelling(b)
    ensures a == b
  {
  }

  function UpperChar(c: char): char {
    if IsLowerLetter(c) then (c as int - 'a' as int + 'A' as int) as char else c
  }

  function Capitalize(s: string): string
    requires s != []
  {
    [UpperChar(s[0])] + s[1..]
  }

  /** The later words of a camelCase name, each capitalised. */
  function CapitalizedWords(ws: seq<Word>): string
    decreases |ws|
  {
    if ws == [] then "" else Capitalize(Spelling(ws[0])) + CapitalizedWords(ws[1..])
  }

  /** The camelCase name of the words, as the source writes its keys: "onPrimaryContainer". */
  function CamelName(ws: seq<Word>): string
    requires ws != []
  {
    Spelling(ws[0]) + CapitalizedWords(ws[1..])
  }

  /** The snake_case name of the words: "on_primary_container". */
  function SnakeName(ws: seq<Word>): string
    requires ws != []
    decreases |ws|
  {
    if |ws| == 1 then Spelling(ws[0]) else Spelling(ws[0]) + "_" + SnakeName(ws[1..])
  }

  function Head(w: Word, capitalized: bool): string {
    var s := Spelling(w);
    SpellingIsLowerWord(w);
    if capitalized then Capitalize(s) else s
  }

  /** A lower-case word, capitalised or not, is only lower-cased by camelToSnake. */
  lemma CamelToSnakeLowerWord(s: string, h: string)
    requires IsLowerWord(s)
    requires h == s || h == Capitalize(s)
    ensures CamelToSnake(h) == s
    ensures |h| > 1 && IsLowerLetter(h[|h| - 1])
  {
    assert |h| == |s| && forall i :: 0 < i < |h| ==> h[i] == s[i];
    forall i | 0 <= i < |h| ensures !IsBoundary(h, i) {
      if 0 < i {
        assert !IsUpper(s[i]);
      }
    }
    CamelToSnakeNoBoundary(h);
    forall i | 0 <= i < |h| ensures ToLowerCase(h)[i] == s[i] {
      assert IsLowerLetter(s[i]);
    }
  }

  lemma CamelToSnakeHead(w: Word, capitalized: bool)
    ensures CamelToSnake(Head(w, capitalized)) == Spelling(w)
    ensures |Head(w, capitalized)| > 1 && IsLowerLetter(Head(w, capitalized)[|Head(w, capitalized)| - 1])
  {
    SpellingIsLowerWord(w);
    CamelToSnakeLowerWord(Spelling(w), Head(w, capitalized));
  }

  lemma {:induction false} CamelToSnakeWords(ws: seq<Word>, capitalized: bool)
    requires ws != []
    ensures CamelToSnake(Head(ws[0], capitalized) + CapitalizedWords(ws[1..])) == SnakeName(ws)
    decreases |ws|
  {
    var h, rest := Head(ws[0], capitalized), ws[1..];
    CamelToSnakeHead(ws[0], capitalized);
    CamelToSnakeSplit(h, CapitalizedWords(rest));
    if rest == [] {
      assert h + CapitalizedWords(rest) == h;
    } else {
      CamelToSnakeWords(rest, true);
      assert CapitalizedWords(rest) == Head(rest[0], true) + CapitalizedWords(rest[1..]);
      SpellingIsLowerWord(rest[0]);
      assert IsUpper(CapitalizedWords(rest)[0]);
      assert JoinSeparator(h, CapitalizedWords(rest)) == "_";
    }
  }

  /** camelToSnake turns the camelCase name of any words into their snake_case name. */
  lemma CamelToSnakeName(ws: seq<Word>)
    requires ws != []
    ensures CamelToSnake(CamelName(ws)) == SnakeName(ws)
  {
    CamelToSnakeWords(ws, false);
  }

  /** No spelling contains `_`. */
  lemma SpellingNoUnderscore(w: Word, i: int)
    requires 0 <= i < |Spelling(w)|
    ensures Spelling(w)[i] != '_'
  {
    SpellingIsLowerWord(w);
  }

  /** A word's spelling followed by an empty or `_`-led rest can be split back into the two. */
  lemma SplitAtUnderscore(a: Word, p: string, b: Word, q: string)
    requires p == [] || p[0] == '_'
    requires q == [] || q[0] == '_'
    requires Spelling(a) + p == Spelling(b) + q
    ensures a == b && p == q
  {
    var x, y := Spelling(a), Spelling(b);
    if |x| < |y| {
      assert y[|x|] == (x + p)[|x|] == '_';
      SpellingNoUnderscore(b, |x|);
      assert false;
    } else if |y| < |x| {
      assert x[|y|] == (y + q)[|y|] == '_';
      SpellingNoUnderscore(a, |y|);
      assert false;
    } else {
      assert x == (x + p)[..|x|] == (y + q)[..|y|] == y;
      SpellingInjective(a, b);
      assert p == (x + p)[|x|..] == (y + q)[|y|..] == q;
    }
  }

  /** What follows the first word in a snake_case name. */
  function SnakeRest(ws: seq<Word>): (r: string)
    requires ws != []
    ensures SnakeName(ws) == Spelling(ws[0]) + r
    ensures r == [] <==> |ws| == 1
    ensures r != [] ==> r[0] == '_' && r[1..] == SnakeName(ws[1..])
  {
    if |ws| == 1 then "" else "_" + SnakeName(ws[1..])
  }

  /** Different words give different snake_case names, so renaming never merges two keys. */
  lemma {:induction false} SnakeNameInjective(ws: seq<Word>, vs: seq<Word>)
    requires ws != [] && vs != []
    requires SnakeName(ws) == SnakeName(vs)
    ensures ws == vs
    decreases |ws|
  {
    var p, q := SnakeRest(ws), SnakeRest(vs);
    SplitAtUnderscore(ws[0], p, vs[0], q);
    if |ws| > 1 && |vs| > 1 {
      assert SnakeName(ws[1..]) == p[1..];
      assert SnakeName(vs[1..]) == q[1..];
      SnakeNameInjective(ws[1..], vs[1..]);
      assert ws == [ws[0]] + ws[1..];
      assert vs == [vs[0]] + vs[1..];
    }
  }

  /** Different words give different camelCase names. */
  lemma CamelNameInjective(ws: seq<Word>, vs: seq<Word>)
    requires ws != [] && vs != []
    requires CamelName(ws) == CamelName(vs)
    ensures ws == vs
  {
    CamelToSnakeName(ws);
    CamelToSnakeName(vs);
    SnakeNameInjective(ws, vs);
  }
}
