/** Identifiers derived from display names. */
module Slug {
  import Encoding

  predicate IsSpace(c: char) {
    || '\t' <= c <= '\r' || c == ' ' || c == '\U{85}' || c == '\U{A0}' || c == '\U{1680}'
    || '\U{2000}' <= c <= '\U{200A}' || c == '\U{2028}' || c == '\U{2029}' || c == '\U{202F}' || c == '\U{205F}' || c == '\U{3000}'
  }

  function TrimSpace(s: string): string {
    if s != "" && IsSpace(s[0]) then TrimSpace(s[1..])
    else if s != "" && IsSpace(s[|s| - 1]) then TrimSpace(s[..|s| - 1])
    else s
  }

  /** Lower case, as far as a slug can tell: the ASCII capitals and the two other characters whose
      lower case is an ASCII letter. Any other character is kept, being no letter before or after. */
  function LowerRune(c: char): char {
    if 'A' <= c <= 'Z' then c - 'A' + 'a'
    else if c == '\U{212A}' then 'k'
    else if c == '\U{130}' then 'i'
    else c
  }

  function Lower(s: string): string {
    seq(|s|, i requires 0 <= i < |s| => LowerRune(s[i]))
  }

  predicate IsLetter(c: char) {
    'a' <= c <= 'z' || '0' <= c <= '9'
  }

  /** The maximal runs of letters of a string. */
  function Words(s: string): seq<string> {
    if s == "" then []
    else
      var n := |s| - 1;
      var front := Words(s[..n]);
      if !IsLetter(s[n]) then front
      else if n > 0 && IsLetter(s[n - 1]) && front != [] then front[..|front| - 1] + [front[|front| - 1] + [s[n]]]
      else front + [[s[n]]]
  }

  function Join(words: seq<string>): string {
    if words == [] then ""
    else if |words| == 1 then words[0]
    else Join(words[..|words| - 1]) + "-" + words[|words| - 1]
  }

  /** A slug: the runs of letters of the lower-case name, joined by single dashes. */
  function SlugOf(value: string): string {
    Join(Words(Lower(TrimSpace(value))))
  }

  predicate InWord(s: string) {
    s != "" && IsLetter(s[|s| - 1])
  }

  method Slug(value: string) returns (result: string)
    ensures result == SlugOf(value)
  {
    var lowered := Lower(TrimSpace(value));
    var builder := "";
    var dash := false;
    hide *;
    ScanStarts(lowered);
    for i := 0 to |lowered|
      invariant Scanned(lowered[..i], builder, dash)
    {
      ScanStep(lowered, i, builder, dash);
      if IsLetter(lowered[i]) {
        builder := builder + [lowered[i]];
        dash := false;
      } else if !dash && |builder| > 0 {
        builder := builder + "-";
        dash := true;
      }
    }
    ScanEnds(lowered, builder, dash);
    result := TrimDashes(builder);
    SlugIsJoined(value);
  }

  lemma SlugIsJoined(value: string)
    ensures SlugOf(value) == Join(Words(Lower(TrimSpace(value))))
  {
  }

  /** What the builder and the flag hold after scanning `s`: its words joined, and a dash if the last
      word has ended. */
  predicate Scanned(s: string, builder: string, dash: bool) {
    && builder == Join(Words(s)) + (if dash then "-" else "")
    && (dash <==> Words(s) != [] && !InWord(s))
  }

  lemma ScanStarts(s: string)
    ensures Scanned(s[..0], "", false)
  {
    assert s[..0] == "";
  }

  lemma ScanCharacter(s: string, c: char, builder: string, dash: bool)
    requires Scanned(s, builder, dash)
    ensures IsLetter(c) ==> Scanned(s + [c], builder + [c], false)
    ensures !IsLetter(c) && !dash && builder != "" ==> Scanned(s + [c], builder + "-", true)
    ensures !IsLetter(c) && (dash || builder == "") ==> Scanned(s + [c], builder, dash)
  {
    hide Words, Join, IsLetter;
    JoinStep(s, c);
    InWordLast(s, c);
    NoWordsJoined();
    var joined := Join(Words(s));
    assert joined + "" == joined;
    assert Join(Words(s + [c])) + "" == Join(Words(s + [c]));
    assert [] + [c] == [c];
  }

  lemma NoWordsJoined()
    ensures Join([]) == ""
  {
  }

  lemma ScanStep(s: string, i: nat, builder: string, dash: bool)
    requires i < |s| && Scanned(s[..i], builder, dash)
    ensures IsLetter(s[i]) ==> Scanned(s[..i + 1], builder + [s[i]], false)
    ensures !IsLetter(s[i]) && !dash && |builder| > 0 ==> Scanned(s[..i + 1], builder + "-", true)
    ensures !IsLetter(s[i]) && (dash || |builder| == 0) ==> Scanned(s[..i + 1], builder, dash)
  {
    hide *;
    assert s[..i + 1] == s[..i] + [s[i]];
    ScanCharacter(s[..i], s[i], builder, dash);
  }

  lemma ScanEnds(s: string, builder: string, dash: bool)
    requires Scanned(s[..|s|], builder, dash)
    ensures TrimDashes(builder) == Join(Words(s))
  {
    hide Words, Join, TrimDashes, Runs, Normal;
    assert s[..|s|] == s;
    WordsAreRuns(s);
    JoinIsNormal(Words(s));
    NormalEnds(Join(Words(s)));
    TrimOne(Join(Words(s)));
    assert Join(Words(s)) + "" == Join(Words(s));
  }

  /** strings.TrimRight with a dash. */
  function TrimDashes(s: string): string {
    if s != "" && s[|s| - 1] == '-' then TrimDashes(s[..|s| - 1]) else s
  }

  lemma TrimOne(s: string)
    requires s != "" ==> s[|s| - 1] != '-'
    ensures TrimDashes(s) == s && TrimDashes(s + "-") == s
  {
  }

  lemma NormalEnds(s: string)
    requires Normal(s)
    ensures s != "" ==> s[|s| - 1] != '-'
  {
  }

  predicate IsRun(w: string) {
    w != "" && forall c :: c in w ==> IsLetter(c)
  }

  ghost predicate Runs(words: seq<string>) {
    forall i :: 0 <= i < |words| ==> IsRun(words[i])
  }

  lemma {:induction false} WordsAreRuns(s: string)
    ensures Runs(Words(s))
    ensures InWord(s) ==> Words(s) != []
  {
    if s != "" {
      var n := |s| - 1;
      WordsAreRuns(s[..n]);
      var front := Words(s[..n]);
      assert IsLetter(s[n]) ==> IsRun([s[n]]);
      if IsLetter(s[n]) && front != [] {
        assert IsRun(front[|front| - 1] + [s[n]]);
      }
    }
  }

  /** The word list grows by one character. */
  lemma WordsStep(s: string, c: char)
    ensures !IsLetter(c) ==> Words(s + [c]) == Words(s)
    ensures IsLetter(c) && !InWord(s) ==> Words(s + [c]) == Words(s) + [[c]]
    ensures IsLetter(c) && InWord(s) ==>
              Words(s) != [] && Words(s + [c]) == Words(s)[..|Words(s)| - 1] + [Words(s)[|Words(s)| - 1] + [c]]
  {
  }

  lemma JoinNewWord(words: seq<string>, w: string)
    ensures Join(words + [w]) == if words == [] then w else Join(words) + "-" + w
  {
  }

  lemma JoinLongerWord(front: seq<string>, last: string, c: char)
    ensures Join(front + [last + [c]]) == Join(front + [last]) + [c]
  {
  }

  /** A letter extends the last word or, after a dash, starts the next one. */
  lemma JoinStep(s: string, c: char)
    ensures !IsLetter(c) ==> Words(s + [c]) == Words(s)
    ensures IsLetter(c) ==> Words(s + [c]) != []
    ensures IsLetter(c) && Words(s) == [] ==> Join(Words(s + [c])) == [c]
    ensures IsLetter(c) && Words(s) != [] ==>
              Join(Words(s + [c])) == Join(Words(s)) + (if InWord(s) then "" else "-") + [c]
    ensures Words(s) != [] ==> Join(Words(s)) != ""
  {
    WordsStep(s, c);
    WordsAreRuns(s);
    JoinIsNormal(Words(s));
    JoinNewWord(Words(s), [c]);
    hide Words, Join, Normal, Runs;
    if InWord(s) {
      var front, last := Words(s)[..|Words(s)| - 1], Words(s)[|Words(s)| - 1];
      JoinLongerWord(front, last, c);
      assert Words(s) == front + [last];
      assert Join(Words(s)) + "" + [c] == Join(Words(s)) + [c];
    }
  }

  /** Slug normal form: letters, digits and single inner dashes. */
  predicate Normal(s: string) {
    && (forall i :: 0 <= i < |s| ==> IsLetter(s[i]) || s[i] == '-')
    && (s != "" ==> IsLetter(s[0]) && IsLetter(s[|s| - 1]))
    && (forall i :: 0 < i < |s| ==> IsLetter(s[i]) || IsLetter(s[i - 1]))
  }

  lemma {:induction false} JoinIsNormal(words: seq<string>)
    requires Runs(words)
    ensures Normal(Join(words))
    ensures words != [] ==> Join(words) != ""
  {
    if words != [] {
      var front, last := words[..|words| - 1], words[|words| - 1];
      JoinIsNormal(front);
      assert IsRun(last) && forall i :: 0 <= i < |last| ==> last[i] in last;
      if front != [] {
        NormalJoins(Join(front), last);
      }
    }
  }

  lemma NormalJoins(s: string, w: string)
    requires Normal(s) && s != "" && Normal(w) && w != ""
    ensures Normal(s + "-" + w)
  {
  }

  lemma InWordLast(s: string, c: char)
    ensures InWord(s + [c]) == IsLetter(c)
    ensures !InWord("")
  {
  }

  /** Scanning a prefix of a string in normal form builds the prefix itself. */
  lemma {:induction false} PrefixIsJoined(s: string, whole: string)
    requires Normal(whole) && s <= whole
    ensures Scanned(s, s, s != "" && !InWord(s))
  {
    if s == "" {
      ScanStarts(s);
    } else {
      var n := |s| - 1;
      var front := s[..n];
      PrefixIsJoined(front, whole);
      assert s == front + [s[n]];
      assert s[n] == whole[n] && (n > 0 ==> front[n - 1] == whole[n - 1]);
      ScanCharacter(front, s[n], front, front != "" && !InWord(front));
      InWordLast(front, s[n]);
    }
  }

  lemma {:induction false} NormalIsUnchanged(s: string)
    requires Normal(s)
    ensures SlugOf(s) == s
  {
    assert forall c :: IsLetter(c) || c == '-' ==> !IsSpace(c) && LowerRune(c) == c;
    assert TrimSpace(s) == s;
    assert forall i :: 0 <= i < |s| ==> Lower(s)[i] == s[i];
    assert Lower(s) == s;
    PrefixIsJoined(s, s);
    assert Join(Words(s)) + "" == Join(Words(s));
  }

  /** Every slug is in normal form, slugging it again changes nothing, and it holds none of the
      separators used in tuples. */
  lemma SlugNormalForm(value: string)
    ensures Normal(SlugOf(value))
    ensures SlugOf(SlugOf(value)) == SlugOf(value)
    ensures Encoding.Clean(SlugOf(value))
  {
    var s := Lower(TrimSpace(value));
    WordsAreRuns(s);
    JoinIsNormal(Words(s));
    NormalIsUnchanged(SlugOf(value));
  }

  // ---------------------------------------------------------------- slugs, piece by piece

  /** Two slugs side by side, with one dash between them if both say something. */
  function Glued(a: string, b: string): string {
    if a == "" then b else if b == "" then a else a + "-" + b
  }

  lemma {:induction false} SeparatorSplits(a: string, c: char, b: string)
    requires !IsLetter(c)
    ensures Join(Words(a + [c] + b)) == Glued(Join(Words(a)), Join(Words(b)))
  {
    hide Words, Join, IsLetter;
    NoWordsJoined();
    NoWords();
    if b == "" {
      assert a + [c] + b == a + [c];
      JoinStep(a, c);
    } else {
      var front, last := b[..|b| - 1], b[|b| - 1];
      var whole := a + [c] + front;
      SeparatorSplits(a, c, front);
      assert b == front + [last] && a + [c] + b == whole + [last];
      JoinStep(whole, last);
      JoinStep(front, last);
      JoinStep(a, c);
      WordsAreRuns(front);
      assert InWord(whole) == InWord(front) by { InWordAfter(a, c, front); }
      SeparatorStep(Join(Words(a)), Join(Words(front)), if InWord(front) then "" else "-", last);
    }
  }

  lemma NoWords()
    ensures Words("") == []
  {
  }

  lemma InWordAfter(a: string, c: char, b: string)
    requires !IsLetter(c)
    ensures InWord(a + [c] + b) == InWord(b)
  {
  }

  lemma SeparatorStep(a: string, b: string, dash: string, c: char)
    ensures b != "" ==> Glued(a, b) + dash + [c] == Glued(a, b + dash + [c])
    ensures b == "" && a != "" ==> Glued(a, b) + "-" + [c] == Glued(a, [c])
  {
    if b != "" {
      assert a + "-" + b + dash + [c] == a + "-" + (b + dash + [c]);
    }
  }

  /** Trimming before slugging makes no difference: spaces separate like any other character. */
  lemma {:induction false} TrimIsImmaterial(s: string)
    ensures SlugOf(s) == Join(Words(Lower(s)))
    decreases |s|
  {
    hide Words, Join, Glued, IsLetter;
    if s != "" && IsSpace(s[0]) {
      SpaceSeparates(s[0]);
      assert Lower(s) == "" + [LowerRune(s[0])] + Lower(s[1..]);
      SeparatorSplits("", LowerRune(s[0]), Lower(s[1..]));
      TrimIsImmaterial(s[1..]);
      GluedEnds(Join(Words(Lower(s[1..]))));
    } else if s != "" && IsSpace(s[|s| - 1]) {
      var n := |s| - 1;
      SpaceSeparates(s[n]);
      assert Lower(s) == Lower(s[..n]) + [LowerRune(s[n])] + "";
      SeparatorSplits(Lower(s[..n]), LowerRune(s[n]), "");
      TrimIsImmaterial(s[..n]);
      GluedEnds(Join(Words(Lower(s[..n]))));
    }
  }

  lemma SpaceSeparates(c: char)
    requires IsSpace(c)
    ensures !IsLetter(LowerRune(c))
  {
  }

  lemma GluedEnds(a: string)
    ensures Join(Words("")) == "" && Glued("", a) == a == Glued(a, "")
  {
  }

  /** At a character that is no letter or digit, a name falls into two pieces that are slugged apart. */
  lemma SlugSplits(a: string, c: char, b: string)
    requires !IsLetter(LowerRune(c))
    ensures SlugOf(a + [c] + b) == Glued(SlugOf(a), SlugOf(b))
  {
    hide Words, Join, Glued, SlugOf, IsLetter, LowerRune;
    TrimIsImmaterial(a);
    TrimIsImmaterial(b);
    TrimIsImmaterial(a + [c] + b);
    assert Lower(a + [c] + b) == Lower(a) + [LowerRune(c)] + Lower(b);
    SeparatorSplits(Lower(a), LowerRune(c), Lower(b));
  }

  /** A name of letters and digits alone is lowered and kept whole. */
  lemma SlugOfWord(w: string)
    requires forall i :: 0 <= i < |w| ==> IsLetter(LowerRune(w[i]))
    ensures SlugOf(w) == Lower(w)
  {
    TrimIsImmaterial(w);
    PrefixIsJoined(Lower(w), Lower(w));
    assert Join(Words(Lower(w))) + "" == Join(Words(Lower(w)));
  }

  ghost predicate Spaces(s: string) {
    forall c :: c in s ==> IsSpace(c)
  }

  /** `t` is what is left of `s` without some spaces in front and at the back. */
  ghost predicate Stripped(s: string, t: string) {
    exists front, back :: Spaces(front) && Spaces(back) && s == front + t + back
  }

  lemma StrippedFurther(before: string, s: string, after: string, t: string)
    requires Spaces(before) && Spaces(after) && Stripped(s, t)
    ensures Stripped(before + s + after, t)
  {
    hide IsSpace;
    var front, back :| Spaces(front) && Spaces(back) && s == front + t + back;
    assert before + s + after == (before + front) + t + (back + after) by { assert before + (front + t + back) + after == (before + front) + t + (back + after); }
    assert Spaces(before + front) && Spaces(back + after);
  }

  /** Trimming drops leading and trailing spaces, all of them and nothing else. */
  lemma {:induction false} TrimSpaceTrims(s: string)
    ensures Stripped(s, TrimSpace(s))
    ensures TrimSpace(s) != "" ==> !IsSpace(TrimSpace(s)[0]) && !IsSpace(TrimSpace(s)[|TrimSpace(s)| - 1])
    decreases |s|
  {
    hide IsSpace, Stripped;
    if s != "" && IsSpace(s[0]) {
      TrimSpaceTrims(s[1..]);
      StrippedFurther([s[0]], s[1..], "", TrimSpace(s));
      assert [s[0]] + s[1..] + "" == s;
    } else if s != "" && IsSpace(s[|s| - 1]) {
      var n := |s| - 1;
      TrimSpaceTrims(s[..n]);
      StrippedFurther("", s[..n], [s[n]], TrimSpace(s));
      assert "" + s[..n] + [s[n]] == s;
    } else {
      NothingStripped(s);
    }
  }

  lemma NothingStripped(s: string)
    ensures Stripped(s, s)
  {
    assert s == "" + s + "" && Spaces("");
  }
}
