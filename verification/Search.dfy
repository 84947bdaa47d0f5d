/** Searching products by text (app/infrastructure/db/repositories.py, `_filtered`): the search
    string becomes a LIKE pattern in which none of its own characters is special. */
module Search {
  import opened Text

  const ESCAPE := '\\'

  predicate Special(c: char) {
    c == ESCAPE || c == '%' || c == '_'
  }

  /** `str.replace` of one character. */
  function Replace(s: string, c: char, replacement: string): string {
    if s == [] then [] else (if s[0] == c then replacement else [s[0]]) + Replace(s[1..], c, replacement)
  }

  /** The three chained replacements, backslash first. */
  function Escaped(s: string): string {
    Replace(Replace(Replace(s, ESCAPE, [ESCAPE, ESCAPE]), '%', [ESCAPE, '%']), '_', [ESCAPE, '_'])
  }

  function Pattern(search: string): string {
    "%" + Escaped(search) + "%"
  }

  /** LIKE with backslash as the escape character. A pattern that ends in an escape matches
      nothing. */
  predicate Like(text: string, pattern: string)
    decreases |text| + |pattern|
  {
    if pattern == [] then text == []
    else if pattern[0] == '%' then Like(text, pattern[1..]) || (text != [] && Like(text[1..], pattern))
    else if pattern[0] == '_' then text != [] && Like(text[1..], pattern[1..])
    else if pattern[0] == ESCAPE then
      |pattern| > 1 && text != [] && text[0] == pattern[1] && Like(text[1..], pattern[2..])
    else text != [] && text[0] == pattern[0] && Like(text[1..], pattern[1..])
  }

  /** ILIKE compares folded text with the folded pattern. */
  predicate ILike(text: string, pattern: string) {
    Like(Lower(text), Lower(pattern))
  }

  predicate Contains(text: string, part: string) {
    exists i | 0 <= i <= |text| :: part <= text[i..]
  }

  // --- the replacements -------------------------------------------------------------

  /** One backslash before each special character, in one pass. */
  function EscapedOnce(s: string): string {
    if s == [] then [] else (if Special(s[0]) then [ESCAPE, s[0]] else [s[0]]) + EscapedOnce(s[1..])
  }

  lemma {:induction false} ReplaceConcat(a: string, b: string, c: char, replacement: string)
    ensures Replace(a + b, c, replacement) == Replace(a, c, replacement) + Replace(b, c, replacement)
  {
    if a == [] {
      assert a + b == b;
    } else {
      assert (a + b)[1..] == a[1..] + b;
      ReplaceConcat(a[1..], b, c, replacement);
    }
  }

  /** No replacement touches what an earlier one wrote: three passes do what one does. */
  lemma {:induction false} ThreePassesAreOne(s: string)
    ensures Escaped(s) == EscapedOnce(s)
  {
    if s != [] {
      ThreePassesAreOne(s[1..]);
      var first := Replace([s[0]], ESCAPE, [ESCAPE, ESCAPE]);
      var second := Replace(first, '%', [ESCAPE, '%']);
      assert s == [s[0]] + s[1..];
      ReplaceConcat([s[0]], s[1..], ESCAPE, [ESCAPE, ESCAPE]);
      ReplaceConcat(first, Replace(s[1..], ESCAPE, [ESCAPE, ESCAPE]), '%', [ESCAPE, '%']);
      ReplaceConcat(second, Replace(Replace(s[1..], ESCAPE, [ESCAPE, ESCAPE]), '%', [ESCAPE, '%']), '_', [ESCAPE, '_']);
      OneCharacter(s[0]);
    }
  }

  lemma {:induction false} NothingToReplace(s: string, c: char, replacement: string)
    requires c !in s
    ensures Replace(s, c, replacement) == s
  {
    if s != [] {
      NothingToReplace(s[1..], c, replacement);
    }
  }

  lemma ReplaceOne(c: char, d: char, replacement: string)
    ensures Replace([c], d, replacement) == if c == d then replacement else [c]
  {
    assert [c][1..] == [] && replacement + [] == replacement;
  }

  lemma OneCharacter(c: char)
    ensures Escaped([c]) == EscapedOnce([c])
  {
    assert [c][1..] == [];
    ReplaceOne(c, ESCAPE, [ESCAPE, ESCAPE]);
    ReplaceOne(c, '%', [ESCAPE, '%']);
    ReplaceOne(c, '_', [ESCAPE, '_']);
    NothingToReplace([ESCAPE, ESCAPE], '%', [ESCAPE, '%']);
    NothingToReplace([ESCAPE, ESCAPE], '_', [ESCAPE, '_']);
    NothingToReplace([ESCAPE, '%'], '_', [ESCAPE, '_']);
  }

  lemma {:induction false} FoldingCommutes(s: string)
    ensures Lower(EscapedOnce(s)) == EscapedOnce(Lower(s))
  {
    if s != [] {
      FoldingCommutes(s[1..]);
      assert Lower(s)[1..] == Lower(s[1..]);
    }
  }

  // --- matching ---------------------------------------------------------------------

  lemma {:induction false} AnythingMatchesPercent(text: string)
    ensures Like(text, "%")
  {
    if text != [] {
      AnythingMatchesPercent(text[1..]);
    }
  }

  /** An escaped string followed by `%` matches exactly the texts that start with it. */
  lemma {:induction false} EscapedMatchesItself(text: string, s: string)
    ensures Like(text, EscapedOnce(s) + "%") <==> s <= text
  {
    var pattern := EscapedOnce(s) + "%";
    if s == [] {
      assert pattern == "%";
      AnythingMatchesPercent(text);
    } else if text != [] {
      EscapedMatchesItself(text[1..], s[1..]);
      assert pattern[if Special(s[0]) then 2 else 1..] == EscapedOnce(s[1..]) + "%";
      assert s <= text <==> s[0] == text[0] && s[1..] <= text[1..];
    }
  }

  /** A leading `%` lets the rest of the pattern match anywhere further on. */
  lemma {:induction false} PercentSkips(text: string, pattern: string)
    ensures Like(text, "%" + pattern) <==> exists i | 0 <= i <= |text| :: Like(text[i..], pattern)
    decreases text
  {
    assert ("%" + pattern)[1..] == pattern && text[0..] == text;
    if text != [] {
      PercentSkips(text[1..], pattern);
      assert forall i | 1 <= i <= |text| :: text[i..] == text[1..][i - 1..];
      if i :| 0 <= i <= |text| && Like(text[i..], pattern) {
        assert i > 0 ==> Like(text[1..][i - 1..], pattern);
      }
      if j :| 0 <= j <= |text[1..]| && Like(text[1..][j..], pattern) {
        assert Like(text[j + 1..], pattern);
      }
    }
  }

  /** Searching is containment of the literal text, whatever wildcards it holds, ignoring case. */
  lemma SearchIsContainment(text: string, search: string)
    ensures ILike(text, Pattern(search)) <==> Contains(Lower(text), Lower(search))
  {
    var folded := Lower(search);
    ThreePassesAreOne(search);
    FoldingCommutes(search);
    assert Lower(Pattern(search)) == "%" + (EscapedOnce(folded) + "%");
    PercentSkips(Lower(text), EscapedOnce(folded) + "%");
    forall i | 0 <= i <= |text| ensures Like(Lower(text)[i..], EscapedOnce(folded) + "%") <==> folded <= Lower(text)[i..] {
      EscapedMatchesItself(Lower(text)[i..], folded);
    }
  }
}
