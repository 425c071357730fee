/** Splitting a string into its words and joining words with a separator. */
module Words {

  /** The maximal runs of characters that are not separators, in order (strings.Fields, for white
      space). */
  function Fields(s: string, sep: char -> bool): (words: seq<string>)
    ensures s != [] && !sep(s[|s| - 1]) ==> words != []
  {
    if s == [] then [] else WithChar(Fields(s[..|s| - 1], sep), s[..|s| - 1], s[|s| - 1], sep)
  }

  /** The words of a string and one more character, from the words of the string. */
  function WithChar(words: seq<string>, s: string, c: char, sep: char -> bool): seq<string> {
    if sep(c) then words
    else if s == [] || sep(s[|s| - 1]) || words == [] then words + [[c]]
    else ExtendLast(words, c)
  }

  function ExtendLast(words: seq<string>, c: char): seq<string>
    requires words != []
  {
    words[..|words| - 1] + [words[|words| - 1] + [c]]
  }

  lemma FieldsAppend(s: string, c: char, sep: char -> bool)
    ensures Fields(s + [c], sep) == WithChar(Fields(s, sep), s, c, sep)
  {
    assert (s + [c])[..|s|] == s;
  }

  /** strings.Join with a one-character separator. */
  function Join(words: seq<string>, c: char): string {
    if words == [] then ""
    else if |words| == 1 then words[0]
    else Join(words[..|words| - 1], c) + [c] + words[|words| - 1]
  }

  predicate IsWord(w: string, sep: char -> bool) {
    w != "" && forall i | 0 <= i < |w| :: !sep(w[i])
  }

  predicate AreWords(words: seq<string>, sep: char -> bool) {
    forall i | 0 <= i < |words| :: IsWord(words[i], sep)
  }

  lemma {:induction false} FieldsAreWords(s: string, sep: char -> bool)
    ensures AreWords(Fields(s, sep), sep)
  {
    if s != [] {
      FieldsAreWords(s[..|s| - 1], sep);
    }
  }

  lemma JoinNewWord(words: seq<string>, w: string, c: char)
    ensures Join(words + [w], c) == (if words == [] then w else Join(words, c) + [c] + w)
  {
    assert (words + [w])[..|words|] == words;
  }

  lemma JoinLongerWord(words: seq<string>, x: char, c: char)
    requires words != []
    ensures Join(words[..|words| - 1] + [words[|words| - 1] + [x]], c) == Join(words, c) + [x]
  {
    var init, w := words[..|words| - 1], words[|words| - 1];
    assert init + [w] == words;
    JoinNewWord(init, w, c);
    JoinNewWord(init, w + [x], c);
  }

  lemma LongerLastWord(words: seq<string>, w: string, c: char)
    ensures ExtendLast(words + [w], c) == words + [w + [c]]
  {
  }

  lemma WordGrows(s: string, w: string, c: char, sep: char -> bool)
    requires Fields(s + w, sep) == Fields(s, sep) + [w]
    requires w != "" && !sep(w[|w| - 1]) && !sep(c)
    ensures Fields(s + w + [c], sep) == Fields(s, sep) + [w + [c]]
  {
    FieldsAppend(s + w, c, sep);
    assert (s + w)[|s + w| - 1] == w[|w| - 1];
    LongerLastWord(Fields(s, sep), w, c);
  }

  /** Splitting a word off the end. */
  lemma {:induction false} FieldsAppendWord(s: string, w: string, sep: char -> bool)
    requires IsWord(w, sep)
    requires s == [] || sep(s[|s| - 1])
    ensures Fields(s + w, sep) == Fields(s, sep) + [w]
  {
    if |w| == 1 {
      FieldsAppend(s, w[0], sep);
      assert w == [w[0]];
    } else {
      var init, c := w[..|w| - 1], w[|w| - 1];
      assert s + w == s + init + [c] && w == init + [c];
      FieldsAppendWord(s, init, sep);
      WordGrows(s, init, c, sep);
    }
  }

  lemma FieldsAppendSeparator(s: string, c: char, sep: char -> bool)
    requires sep(c)
    ensures Fields(s + [c], sep) == Fields(s, sep)
  {
    FieldsAppend(s, c, sep);
  }

  /** Splitting what was joined gives the words back. */
  lemma {:induction false} FieldsOfJoin(words: seq<string>, c: char, sep: char -> bool)
    requires AreWords(words, sep) && sep(c)
    ensures Fields(Join(words, c), sep) == words
  {
    if words != [] {
      var init, w := words[..|words| - 1], words[|words| - 1];
      assert init + [w] == words;
      if init == [] {
        FieldsAppendWord("", w, sep);
        assert "" + w == w;
      } else {
        FieldsOfJoin(init, c, sep);
        FieldsAppendSeparator(Join(init, c), c, sep);
        FieldsAppendWord(Join(init, c) + [c], w, sep);
      }
    }
  }

  lemma ExtendLastOfConcat(a: seq<string>, b: seq<string>, c: char)
    requires b != []
    ensures ExtendLast(a + b, c) == a + ExtendLast(b, c)
  {
  }

  lemma FieldsOfConcatStep(a: string, init: string, c: char, sep: char -> bool)
    requires a == "" || sep(a[|a| - 1])
    requires Fields(a + init, sep) == Fields(a, sep) + Fields(init, sep)
    ensures Fields(a + init + [c], sep) == Fields(a, sep) + Fields(init + [c], sep)
  {
    var x, y := Fields(a, sep), Fields(init, sep);
    FieldsAppend(a + init, c, sep);
    FieldsAppend(init, c, sep);
    if init == "" {
      assert a + init == a;
    } else {
      assert (a + init)[|a + init| - 1] == init[|init| - 1];
      if !sep(init[|init| - 1]) {
        ExtendLastOfConcat(x, y, c);
      }
    }
  }

  /** Text after a separator is split on its own. */
  lemma {:induction false} FieldsOfConcat(a: string, b: string, sep: char -> bool)
    requires a == "" || sep(a[|a| - 1])
    ensures Fields(a + b, sep) == Fields(a, sep) + Fields(b, sep)
  {
    if b == "" {
      assert a + b == a;
    } else {
      var init, c := b[..|b| - 1], b[|b| - 1];
      FieldsOfConcat(a, init, sep);
      FieldsOfConcatStep(a, init, c, sep);
      assert a + b == a + init + [c] && b == init + [c];
    }
  }
}
