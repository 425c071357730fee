/** The name of an incident's Slack channel: a chain of string rewritings
    (cmd/slackbot/channel.go). */
module ChannelName {
  import opened Words

  const DEFAULT_CONVENTION := "inc-{id}-{title}"
  const MAX_LENGTH := 80

  /** A character of a word: a lowercase letter, a digit or an underscore. */
  predicate WordChar(c: char) {
    'a' <= c <= 'z' || '0' <= c <= '9' || c == '_'
  }

  /** What Slack allows in a channel name: [a-z0-9_-]. */
  predicate Allowed(c: char) {
    WordChar(c) || c == '-'
  }

  predicate Separator(c: char) {
    !WordChar(c)
  }

  // ---------- the placeholders ----------

  /** strconv.Itoa. */
  function Itoa(n: int): string {
    if n < 0 then "-" + Digits(-n) else Digits(n)
  }

  function Digits(n: nat): string {
    var d := ['0' + (n % 10) as char];
    if n < 10 then d else Digits(n / 10) + d
  }

  predicate StartsWith(s: string, prefix: string) {
    prefix <= s
  }

  /** strings.Replacer: one pass from the left; what was substituted is not looked at again. */
  function Rendered(convention: string, level: int, id: string, title: string): string {
    if convention == "" then ""
    else if StartsWith(convention, "{level}") then Itoa(level) + Rendered(convention[7..], level, id, title)
    else if StartsWith(convention, "{id}") then id + Rendered(convention[4..], level, id, title)
    else if StartsWith(convention, "{title}") then title + Rendered(convention[7..], level, id, title)
    else [convention[0]] + Rendered(convention[1..], level, id, title)
  }

  // ---------- the rewritings ----------

  function Lowered(s: string, lower: char -> char): (t: string)
    ensures |t| == |s| && forall i | 0 <= i < |s| :: t[i] == lower(s[i])
  {
    seq(|s|, i requires 0 <= i < |s| => lower(s[i]))
  }

  /** Every run of disallowed characters becomes one hyphen. */
  function Dashed(s: string): string {
    if s == [] then [] else DashedWith(Dashed(s[..|s| - 1]), s[..|s| - 1], s[|s| - 1])
  }

  function DashedWith(dashed: string, s: string, c: char): string {
    if Allowed(c) then dashed + [c]
    else if s != [] && !Allowed(s[|s| - 1]) then dashed
    else dashed + ['-']
  }

  /** Every run of two or more hyphens becomes one. */
  function Collapsed(s: string): string {
    if s == [] then []
    else
      var init, c := s[..|s| - 1], s[|s| - 1];
      if c == '-' && init != [] && init[|init| - 1] == '-' then Collapsed(init) else Collapsed(init) + [c]
  }

  function TrimLeft(s: string): string {
    if s != [] && s[0] == '-' then TrimLeft(s[1..]) else s
  }

  function TrimRight(s: string): string {
    if s != [] && s[|s| - 1] == '-' then TrimRight(s[..|s| - 1]) else s
  }

  /** strings.Trim(name, "-"). */
  function Trimmed(s: string): string {
    TrimRight(TrimLeft(s))
  }

  function Truncated(s: string): string {
    if |s| > MAX_LENGTH then s[..MAX_LENGTH] else s
  }

  /** The rewritings after the placeholders are filled in, before the cut. */
  function Slug(s: string, lower: char -> char): string {
    Trimmed(Collapsed(Dashed(Lowered(s, lower))))
  }

  function Normalised(s: string, lower: char -> char): string {
    Truncated(Slug(s, lower))
  }

  /** incidentChannelName. */
  function IncidentChannelName(convention: string, level: int, id: string, title: string, lower: char -> char): string {
    var c := if convention == "" then DEFAULT_CONVENTION else convention;
    Normalised(Rendered(c, level, id, title), lower)
  }

  /** Lower-casing leaves the characters a name is made of alone. */
  ghost predicate Lowering(lower: char -> char) {
    forall c | Allowed(c) :: lower(c) == c
  }

  // ---------- the chain joins the words ----------

  predicate EndsWithSeparator(s: string) {
    s != [] && Separator(s[|s| - 1])
  }

  lemma {:induction false} DashedEnd(s: string)
    ensures Dashed(s) != [] <==> s != []
    ensures s != [] ==> (Dashed(s)[|Dashed(s)| - 1] == '-' <==> EndsWithSeparator(s))
  {
    if s != [] {
      DashedEnd(s[..|s| - 1]);
    }
  }

  lemma DashedStep(s: string, c: char)
    ensures Dashed(s + [c]) == DashedWith(Dashed(s), s, c)
  {
    assert (s + [c])[..|s|] == s;
  }

  lemma CollapsedStep(s: string, c: char)
    ensures Collapsed(s + [c])
         == (if c == '-' && s != [] && s[|s| - 1] == '-' then Collapsed(s) else Collapsed(s) + [c])
  {
    assert (s + [c])[..|s|] == s;
  }

  lemma CollapsedDashedStep(s: string, c: char)
    ensures Collapsed(Dashed(s + [c]))
         == (if WordChar(c) then Collapsed(Dashed(s)) + [c]
             else if EndsWithSeparator(s) then Collapsed(Dashed(s))
             else Collapsed(Dashed(s)) + ['-'])
  {
    DashedStep(s, c);
    DashedEnd(s);
    CollapsedStep(Dashed(s), c);
    CollapsedStep(Dashed(s), '-');
  }

  lemma {:induction false} TrimLeftStep(s: string, c: char)
    ensures TrimLeft(s + [c]) == (if TrimLeft(s) == [] && c == '-' then [] else TrimLeft(s) + [c])
  {
    if s == [] {
      assert s + [c] == [c] && [c][1..] == [];
    } else if s[0] == '-' {
      assert (s + [c])[1..] == s[1..] + [c];
      TrimLeftStep(s[1..], c);
    }
  }

  /** The words of a string joined with hyphens, and one hyphen more if something other than a word
      follows the last of them. */
  function JoinedSoFar(s: string): string {
    var words := Fields(s, Separator);
    if EndsWithSeparator(s) && words != [] then Join(words, '-') + ['-'] else Join(words, '-')
  }

  lemma JoinedSoFarStep(s: string, c: char)
    ensures JoinedSoFar(s + [c])
         == (if WordChar(c) then JoinedSoFar(s) + [c]
             else if EndsWithSeparator(s) || JoinedSoFar(s) == [] then JoinedSoFar(s)
             else JoinedSoFar(s) + ['-'])
  {
    var words := Fields(s, Separator);
    FieldsAreWords(s, Separator);
    JoinNotEmpty(words);
    FieldsAppend(s, c, Separator);
    if WordChar(c) {
      if s != [] && WordChar(s[|s| - 1]) {
        JoinLongerWord(words, c, '-');
      } else {
        JoinNewWord(words, [c], '-');
      }
    }
  }

  /** Up to the right-hand trim, the chain of rewritings joins the words. */
  lemma {:induction false} ChainJoinsWords(s: string)
    ensures TrimLeft(Collapsed(Dashed(s))) == JoinedSoFar(s)
  {
    if s != [] {
      var init, c := s[..|s| - 1], s[|s| - 1];
      assert init + [c] == s;
      ChainJoinsWords(init);
      CollapsedDashedStep(init, c);
      TrimLeftStep(Collapsed(Dashed(init)), c);
      TrimLeftStep(Collapsed(Dashed(init)), '-');
      JoinedSoFarStep(init, c);
    }
  }

  lemma JoinNotEmpty(words: seq<string>)
    ensures AreWords(words, Separator) ==> (Join(words, '-') == "" <==> words == [])
  {
    if |words| == 1 {
      assert words[0] == words[..1][0];
    }
  }

  lemma {:induction false} JoinEndsInAWord(words: seq<string>)
    requires AreWords(words, Separator) && words != []
    ensures var j := Join(words, '-'); j != "" && WordChar(j[|j| - 1]) && WordChar(j[0])
  {
    var w := words[|words| - 1];
    assert IsWord(w, Separator);
    if |words| > 1 {
      JoinEndsInAWord(words[..|words| - 1]);
    }
  }

  /** The main statement: whatever the title, the untruncated name is its lower-cased words joined with
      single hyphens. */
  lemma SlugIsJoinedWords(s: string, lower: char -> char)
    ensures Slug(s, lower) == Join(Fields(Lowered(s, lower), Separator), '-')
  {
    var t := Lowered(s, lower);
    var words := Fields(t, Separator);
    ChainJoinsWords(t);
    FieldsAreWords(t, Separator);
    var j := Join(words, '-');
    if words != [] {
      JoinEndsInAWord(words);
      assert TrimRight(j) == j;
      assert (j + ['-'])[..|j|] == j;
      assert TrimRight(j + ['-']) == j;
    }
  }

  // ---------- what Slack needs of a name ----------

  ghost predicate WellFormed(name: string) {
    && (forall i | 0 <= i < |name| :: Allowed(name[i]))
    && (forall i | 0 <= i < |name| - 1 :: !(name[i] == '-' && name[i + 1] == '-'))
    && (name != "" ==> name[0] != '-')
  }

  predicate EndsWithHyphen(name: string) {
    name != "" && name[|name| - 1] == '-'
  }

  lemma {:induction false} JoinWellFormed(words: seq<string>)
    requires AreWords(words, Separator)
    ensures WellFormed(Join(words, '-'))
  {
    if words != [] {
      var init, w := words[..|words| - 1], words[|words| - 1];
      assert IsWord(w, Separator);
      JoinWellFormed(init);
      if init != [] {
        JoinEndsInAWord(init);
      }
    }
  }

  /** The untruncated name needs no more trimming. */
  lemma SlugIsWellFormed(s: string, lower: char -> char)
    ensures WellFormed(Slug(s, lower)) && !EndsWithHyphen(Slug(s, lower))
  {
    SlugIsJoinedWords(s, lower);
    var words := Fields(Lowered(s, lower), Separator);
    FieldsAreWords(Lowered(s, lower), Separator);
    JoinWellFormed(words);
    if words != [] {
      JoinEndsInAWord(words);
    }
  }

  /** Every name is at most 80 characters of [a-z0-9_-] without a double or a leading hyphen. It ends
      with a hyphen exactly when it was cut right after one. */
  lemma NameIsWellFormed(convention: string, level: int, id: string, title: string, lower: char -> char)
    ensures var name := IncidentChannelName(convention, level, id, title, lower);
      var slug := Slug(Rendered(if convention == "" then DEFAULT_CONVENTION else convention, level, id, title), lower);
      && WellFormed(name) && |name| <= 80
      && name <= slug && (name == slug <==> |slug| <= 80) && (|slug| > 80 ==> |name| == 80)
      && (EndsWithHyphen(name) <==> |slug| > 80 && slug[79] == '-')
  {
    SlugIsWellFormed(Rendered(if convention == "" then DEFAULT_CONVENTION else convention, level, id, title), lower);
  }

  /** A well-formed string is its words joined with hyphens, up to a final hyphen. */
  lemma {:induction false} WellFormedIsJoinedWords(s: string)
    requires WellFormed(s)
    ensures s == JoinedSoFar(s)
  {
    if s != [] {
      var init, c := s[..|s| - 1], s[|s| - 1];
      assert init + [c] == s;
      WellFormedIsJoinedWords(init);
      JoinedSoFarStep(init, c);
      assert init != [] ==> Allowed(init[|init| - 1]);
    }
  }

  /** Normalising a name again changes nothing exactly when the name does not end with a hyphen; in
      particular whenever it was not truncated. */
  lemma NormalisingAgain(convention: string, level: int, id: string, title: string, lower: char -> char)
    requires Lowering(lower)
    ensures var name := IncidentChannelName(convention, level, id, title, lower);
      Normalised(name, lower) == name <==> !EndsWithHyphen(name)
  {
    NameIsWellFormed(convention, level, id, title, lower);
    var name := IncidentChannelName(convention, level, id, title, lower);
    assert Lowered(name, lower) == name;
    SlugIsJoinedWords(name, lower);
    WellFormedIsJoinedWords(name);
  }

  lemma NoPlaceholder(s: string)
    requires s != "" && s[0] != '{'
    ensures !StartsWith(s, "{level}") && !StartsWith(s, "{id}") && !StartsWith(s, "{title}")
  {
    assert "{level}"[0] == '{' && "{id}"[0] == '{' && "{title}"[0] == '{';
  }

  lemma RenderedChar(s: string, level: int, id: string, title: string)
    requires s != "" && !StartsWith(s, "{level}") && !StartsWith(s, "{id}") && !StartsWith(s, "{title}")
    ensures Rendered(s, level, id, title) == [s[0]] + Rendered(s[1..], level, id, title)
  {
  }

  /** The number a decimal numeral stands for. */
  function NumberOf(s: string): int {
    if s != "" && s[0] == '-' then -DecimalOf(s[1..]) else DecimalOf(s)
  }

  function DecimalOf(s: string): int {
    if s == "" then 0 else 10 * DecimalOf(s[..|s| - 1]) + (s[|s| - 1] as int - '0' as int)
  }

  lemma {:induction false} DigitsOfNumber(n: nat)
    ensures var s := Digits(n);
      && s != "" && DecimalOf(s) == n
      && (forall i | 0 <= i < |s| :: '0' <= s[i] <= '9')
      && (|s| > 1 ==> s[0] != '0')
  {
    var s, d := Digits(n), '0' + (n % 10) as char;
    if n >= 10 {
      DigitsOfNumber(n / 10);
      assert s == Digits(n / 10) + [d] && s[..|s| - 1] == Digits(n / 10);
    } else {
      assert s == [d] && s[..0] == "";
    }
  }

  /** A numeral reads back as its number and has no leading zeros. */
  lemma ItoaReadsBack(n: int)
    ensures NumberOf(Itoa(n)) == n
    ensures |Digits(if n < 0 then -n else n)| > 1 ==> Digits(if n < 0 then -n else n)[0] != '0'
  {
    DigitsOfNumber(if n < 0 then -n else n);
    if n < 0 {
      assert Itoa(n)[1..] == Digits(-n);
    } else {
      assert Itoa(n) == Digits(n);
    }
  }

  /** The three placeholders become the level, the ID and the title; text without a brace stays as it is. */
  lemma PlaceholdersAreFilled(plain: string, rest: string, level: int, id: string, title: string)
    requires '{' !in plain
    ensures Rendered("", level, id, title) == ""
    ensures Rendered(plain + rest, level, id, title) == plain + Rendered(rest, level, id, title)
    ensures Rendered("{level}" + rest, level, id, title) == Itoa(level) + Rendered(rest, level, id, title)
    ensures Rendered("{id}" + rest, level, id, title) == id + Rendered(rest, level, id, title)
    ensures Rendered("{title}" + rest, level, id, title) == title + Rendered(rest, level, id, title)
  {
    RenderedPlain(plain, rest, level, id, title);
    RenderedLevel(rest, level, id, title);
    RenderedId(rest, level, id, title);
    RenderedAnyTitle(rest, level, id, title);
  }

  lemma RenderedLevel(rest: string, level: int, id: string, title: string)
    ensures Rendered("{level}" + rest, level, id, title) == Itoa(level) + Rendered(rest, level, id, title)
  {
    var s := "{level}" + rest;
    assert s[..7] == "{level}" && s[7..] == rest;
  }

  lemma RenderedAnyTitle(rest: string, level: int, id: string, title: string)
    ensures Rendered("{title}" + rest, level, id, title) == title + Rendered(rest, level, id, title)
  {
    var s := "{title}" + rest;
    assert s[1] == 't' && "{level}"[1] == 'l' && "{id}"[1] == 'i';
    assert s[..7] == "{title}" && s[7..] == rest;
  }

  /** A convention without placeholders is taken as it is. */
  lemma {:induction false} RenderedPlain(plain: string, rest: string, level: int, id: string, title: string)
    requires '{' !in plain
    ensures Rendered(plain + rest, level, id, title) == plain + Rendered(rest, level, id, title)
  {
    if plain == "" {
      assert plain + rest == rest;
    } else {
      assert (plain + rest)[1..] == plain[1..] + rest;
      RenderedPlain(plain[1..], rest, level, id, title);
      NoPlaceholder(plain + rest);
      RenderedChar(plain + rest, level, id, title);
      assert plain == [plain[0]] + plain[1..];
    }
  }

  lemma DefaultBegins()
    ensures DEFAULT_CONVENTION == "inc-" + "{id}-{title}"
  {
  }

  lemma RenderedId(rest: string, level: int, id: string, title: string)
    ensures Rendered("{id}" + rest, level, id, title) == id + Rendered(rest, level, id, title)
  {
    var s := "{id}" + rest;
    assert s[1] == 'i' && "{level}"[1] == 'l';
    assert s[..4] == "{id}" && s[4..] == rest;
  }

  lemma RenderedTitle(level: int, id: string, title: string)
    ensures Rendered("{title}", level, id, title) == title
  {
    RenderedAnyTitle("", level, id, title);
    assert "{title}" + "" == "{title}" && title + "" == title;
  }

  lemma RenderedRest(level: int, id: string, title: string)
    ensures Rendered("-{title}", level, id, title) == "-" + title
  {
    RenderedTitle(level, id, title);
    RenderedPlain("-", "{title}", level, id, title);
    assert "-{title}" == "-" + "{title}";
  }

  lemma RenderedDefault(level: int, id: string, title: string)
    ensures Rendered(DEFAULT_CONVENTION, level, id, title) == "inc-" + (id + ("-" + title))
  {
    DefaultBegins();
    RenderedPlain("inc-", "{id}-{title}", level, id, title);
    RenderedRest(level, id, title);
    RenderedId("-{title}", level, id, title);
    assert "{id}-{title}" == "{id}" + "-{title}";
  }

  /** The default name is made from the ID and the title as they are: braces in a title are not taken
      for placeholders. */
  lemma DefaultConvention(level: int, id: string, title: string, lower: char -> char)
    ensures IncidentChannelName("", level, id, title, lower) == Normalised("inc-" + id + "-" + title, lower)
  {
    RenderedDefault(level, id, title);
    assert "inc-" + (id + ("-" + title)) == "inc-" + id + "-" + title;
  }

  /** Truncation comes after trimming, so a name can end with a hyphen. */
  lemma TruncationCanLeaveAHyphen(lower: char -> char)
    requires Lowering(lower)
    ensures var convention := seq(79, _ => 'a') + "-b";
      EndsWithHyphen(IncidentChannelName(convention, 1, "SEV-1", "t", lower))
  {
    var convention := seq(79, _ => 'a') + "-b";
    assert WellFormed(convention) && !EndsWithHyphen(convention);
    RenderedPlain(convention, "", 1, "SEV-1", "t");
    assert convention + "" == convention;
    assert Rendered(convention, 1, "SEV-1", "t") == convention;
    assert Lowered(convention, lower) == convention;
    WellFormedIsJoinedWords(convention);
    SlugIsJoinedWords(convention, lower);
    NameIsWellFormed(convention, 1, "SEV-1", "t", lower);
  }
}
