/**
 * Tokens and stems of the help engine (help/help_engine.cpp, tokenize and tokenizeWithStemming).
 *
 * Tokens are the matches of \b[a-zA-Z0-9_\-]{2,}\b in the lower-cased text: from a word boundary as
 * far as the characters allow, back to the last word boundary.
 */
module HelpTokens {
  import opened Common

  // ---------------------------------------------------------------------------
  // Matches of the pattern
  // ---------------------------------------------------------------------------

  predicate IsWordChar(c: char) {
    'a' <= c <= 'z' || 'A' <= c <= 'Z' || '0' <= c <= '9' || c == '_'
  }

  /** The class of the pattern: word characters and the hyphen. */
  predicate InPattern(c: char) {
    IsWordChar(c) || c == '-'
  }

  predicate Boundary(text: string, i: nat)
    requires i <= |text|
  {
    (i > 0 && IsWordChar(text[i - 1])) != (i < |text| && IsWordChar(text[i]))
  }

  function RunEnd(text: string, i: nat): (e: nat)
    requires i <= |text|
    ensures i <= e <= |text| && forall k :: i <= k < e ==> InPattern(text[k])
    decreases |text| - i
  {
    if i < |text| && InPattern(text[i]) then RunEnd(text, i + 1) else i
  }

  /** The last boundary that leaves at least two characters, or -1. */
  function LastBoundary(text: string, i: nat, e: nat): (b: int)
    requires e <= |text|
    ensures b == -1 || (i + 2 <= b <= e && Boundary(text, b))
  {
    if e < i + 2 then -1 else if Boundary(text, e) then e else LastBoundary(text, i, e - 1)
  }

  function MatchEnd(text: string, i: nat): (b: int)
    requires i < |text|
    ensures b == -1 || (i + 2 <= b <= |text| && forall k :: i <= k < b ==> InPattern(text[k]))
  {
    if Boundary(text, i) then LastBoundary(text, i, RunEnd(text, i)) else -1
  }

  function TokensFrom(text: string, i: nat): seq<string>
    decreases |text| - i
  {
    if i >= |text| then []
    else
      var b := MatchEnd(text, i);
      if b < 0 then TokensFrom(text, i + 1) else [text[i..b]] + TokensFrom(text, b)
  }

  function Tokens(text: string): seq<string> {
    TokensFrom(Lower(text), 0)
  }

  // ---------------------------------------------------------------------------
  // Stems
  // ---------------------------------------------------------------------------

  /** The rules in the order of the source. */
  function Stem(token: string): string {
    var n := |token|;
    if EndsWith(token, "ing") && n > 5 then token[..n - 3]
    else if EndsWith(token, "ed") && n > 4 then token[..n - 2]
    else if EndsWith(token, "s") && n > 3 then token[..n - 1]
    else if EndsWith(token, "es") && n > 4 then token[..n - 2]
    else if EndsWith(token, "ies") && n > 5 then token[..n - 3] + "y"
    else if EndsWith(token, "ly") && n > 4 then token[..n - 2]
    else if EndsWith(token, "ment") && n > 6 then token[..n - 4]
    else if EndsWith(token, "tion") && n > 6 then token[..n - 4]
    else token
  }

  function StemsOf(tokens: seq<string>): (r: seq<string>)
    ensures |r| == |tokens| && forall i :: 0 <= i < |tokens| ==> r[i] == Stem(tokens[i])
  {
    seq(|tokens|, i requires 0 <= i < |tokens| => Stem(tokens[i]))
  }

  function Stems(text: string): seq<string> {
    StemsOf(Tokens(text))
  }

  method TokenizeWithStemming(text: string) returns (stemmed: seq<string>)
    ensures stemmed == Stems(text)
  {
    hide Stem;
    var tokens := Tokens(text);
    stemmed := [];
    for i := 0 to |tokens|
      invariant stemmed == StemsOf(tokens[..i])
    {
      var token := RemoveSuffix(tokens[i]);
      stemmed := stemmed + [token];
    }
    assert tokens[..|tokens|] == tokens;
  }

  /** The body of the loop of tokenizeWithStemming. */
  method RemoveSuffix(t: string) returns (token: string)
    ensures token == Stem(t)
  {
    hide EndsWith;
    token := t;
    var n := |token|;
    if EndsWith(token, "ing") && n > 5 { token := token[..n - 3]; }
    else if EndsWith(token, "ed") && n > 4 { token := token[..n - 2]; }
    else if EndsWith(token, "s") && n > 3 { token := token[..n - 1]; }
    else if EndsWith(token, "es") && n > 4 { token := token[..n - 2]; }
    else if EndsWith(token, "ies") && n > 5 { token := token[..n - 3]; token := token + "y"; }
    else if EndsWith(token, "ly") && n > 4 { token := token[..n - 2]; }
    else if EndsWith(token, "ment") && n > 6 { token := token[..n - 4]; }
    else if EndsWith(token, "tion") && n > 6 { token := token[..n - 4]; }
  }

  lemma LastIsS(token: string, suffix: string)
    requires EndsWith(token, suffix) && suffix != "" && suffix[|suffix| - 1] == 's'
    ensures EndsWith(token, "s")
  {
    assert token[|token| - 1] == token[|token| - |suffix|..][|suffix| - 1];
  }

  /** Every stem is a prefix of at least two characters; a token in "s" just loses that letter. */
  lemma StemIsPrefix(token: string)
    requires |token| >= 2
    ensures Stem(token) <= token && |Stem(token)| >= 2
    ensures EndsWith(token, "s") && |token| > 3 ==> Stem(token) == token[..|token| - 1]
  {
    if EndsWith(token, "es") { LastIsS(token, "es"); }
    if EndsWith(token, "ies") { LastIsS(token, "ies"); }
    if EndsWith(token, "s") { EndsInS(token); }
  }

  lemma EndsInS(token: string)
    requires EndsWith(token, "s")
    ensures !EndsWith(token, "ing") && !EndsWith(token, "ed")
  {
    var n := |token|;
    assert token[n - 1] == token[n - 1..][0] == 's';
    assert n >= 3 ==> token[n - 1] == token[n - 3..][2];
    assert n >= 2 ==> token[n - 1] == token[n - 2..][1];
  }

  /** The rules without those for "es" and "ies". */
  function ShorterStem(token: string): string {
    var n := |token|;
    if EndsWith(token, "ing") && n > 5 then token[..n - 3]
    else if EndsWith(token, "ed") && n > 4 then token[..n - 2]
    else if EndsWith(token, "s") && n > 3 then token[..n - 1]
    else if EndsWith(token, "ly") && n > 4 then token[..n - 2]
    else if EndsWith(token, "ment") && n > 6 then token[..n - 4]
    else if EndsWith(token, "tion") && n > 6 then token[..n - 4]
    else token
  }

  /** The rules for "es" and "ies" never apply: without them every token has the same stem. */
  lemma DeadRules(token: string)
    ensures Stem(token) == ShorterStem(token)
  {
    if EndsWith(token, "es") { LastIsS(token, "es"); }
    if EndsWith(token, "ies") { LastIsS(token, "ies"); }
  }

  function Suffixes(): seq<string> {
    ["ing", "ed", "s", "ly", "ment", "tion"]
  }

  /** A suffix is cut where at least three characters remain before it, whatever they are. */
  lemma StemCuts(word: string, suffix: string)
    requires suffix in Suffixes()
    ensures Stem(word + suffix) == if |word| >= 3 then word else word + suffix
  {
    hide EndsWith, Stem;
    var token := word + suffix;
    DeadRules(token);
    CutIs(word, suffix);
    forall other | other in Suffixes() && other != suffix ensures !EndsWith(token, other) {
      OneSuffix(word, suffix, other);
    }
    AllSuffixes();
  }

  lemma CutIs(word: string, suffix: string)
    ensures EndsWith(word + suffix, suffix) && (word + suffix)[..|word + suffix| - |suffix|] == word
  {
  }

  lemma AllSuffixes()
    ensures "ing" in Suffixes() && "ed" in Suffixes() && "s" in Suffixes()
    ensures "ly" in Suffixes() && "ment" in Suffixes() && "tion" in Suffixes()
  {
    assert Suffixes()[0] == "ing" && Suffixes()[1] == "ed" && Suffixes()[2] == "s";
    assert Suffixes()[3] == "ly" && Suffixes()[4] == "ment" && Suffixes()[5] == "tion";
  }

  /** The last letters, in the order of the suffixes. */
  function LastLetter(i: nat): char
    requires i < 6
  {
    if i == 0 then 'g' else if i == 1 then 'd' else if i == 2 then 's'
    else if i == 3 then 'y' else if i == 4 then 't' else 'n'
  }

  lemma EndsInLetter(i: nat)
    requires i < 6
    ensures |Suffixes()| == 6 && Suffixes()[i] != "" && Suffixes()[i][|Suffixes()[i]| - 1] == LastLetter(i)
  {
    if i == 0 { assert Suffixes()[i] == "ing"; }
    if i == 1 { assert Suffixes()[i] == "ed"; }
    if i == 2 { assert Suffixes()[i] == "s"; }
    if i == 3 { assert Suffixes()[i] == "ly"; }
    if i == 4 { assert Suffixes()[i] == "ment"; }
    if i == 5 { assert Suffixes()[i] == "tion"; }
  }

  /** The suffixes end in different letters. */
  lemma LettersDiffer(suffix: string, other: string)
    requires suffix in Suffixes() && other in Suffixes() && other != suffix
    ensures suffix != "" && other != "" && suffix[|suffix| - 1] != other[|other| - 1]
  {
    hide Suffixes;
    var i: nat :| i < |Suffixes()| && Suffixes()[i] == suffix;
    var j: nat :| j < |Suffixes()| && Suffixes()[j] == other;
    EndsInLetter(0);
    EndsInLetter(i);
    EndsInLetter(j);
  }

  lemma OneSuffix(word: string, suffix: string, other: string)
    requires suffix in Suffixes() && other in Suffixes() && other != suffix
    ensures !EndsWith(word + suffix, other)
  {
    hide EndsWith, Suffixes;
    CutIs(word, suffix);
    LettersDiffer(suffix, other);
    LastOf(word + suffix, suffix);
    if EndsWith(word + suffix, other) { LastOf(word + suffix, other); }
  }

  lemma LastOf(token: string, suffix: string)
    requires EndsWith(token, suffix) && suffix != ""
    ensures token != "" && token[|token| - 1] == suffix[|suffix| - 1]
  {
    assert token[|token| - 1] == token[|token| - |suffix|..][|suffix| - 1];
  }

  /** Other tokens stay as they are. */
  lemma StemKeeps(token: string)
    requires forall suffix :: suffix in Suffixes() ==> !EndsWith(token, suffix)
    ensures Stem(token) == token
  {
    hide EndsWith, Stem;
    DeadRules(token);
    AllSuffixes();
  }

  // ---------------------------------------------------------------------------
  // Which tokens there are
  // ---------------------------------------------------------------------------

  /** No word reaches across this place from the left. */
  predicate StartsAfresh(text: string, p: nat) {
    p <= |text| && (p == 0 || !IsWordChar(text[p - 1]))
  }

  lemma {:induction false} RunEndShifted(text: string, p: nat, i: nat)
    requires p <= |text| && i <= |text| - p
    ensures RunEnd(text, p + i) == p + RunEnd(text[p..], i)
    decreases |text| - p - i
  {
    if i < |text| - p && InPattern(text[p + i]) { RunEndShifted(text, p, i + 1); }
  }

  lemma BoundaryShifted(text: string, p: nat, i: nat)
    requires StartsAfresh(text, p) && i <= |text| - p
    ensures Boundary(text, p + i) == Boundary(text[p..], i)
  {
  }

  lemma {:induction false} LastBoundaryShifted(text: string, p: nat, i: nat, e: nat)
    requires StartsAfresh(text, p) && e <= |text| - p
    ensures var b := LastBoundary(text[p..], i, e);
            LastBoundary(text, p + i, p + e) == if b < 0 then -1 else p + b
    decreases e
  {
    if e >= i + 2 {
      BoundaryShifted(text, p, e);
      LastBoundaryShifted(text, p, i, e - 1);
    }
  }

  lemma MatchEndShifted(text: string, p: nat, i: nat)
    requires StartsAfresh(text, p) && i < |text| - p
    ensures var b := MatchEnd(text[p..], i); MatchEnd(text, p + i) == if b < 0 then -1 else p + b
  {
    hide Boundary, RunEnd, LastBoundary;
    BoundaryShifted(text, p, i);
    RunEndShifted(text, p, i);
    LastBoundaryShifted(text, p, i, RunEnd(text[p..], i));
  }

  /** What is left of such a place does not matter. */
  lemma {:induction false} TokensShifted(text: string, p: nat, i: nat)
    requires StartsAfresh(text, p) && i <= |text| - p
    ensures TokensFrom(text, p + i) == TokensFrom(text[p..], i)
    decreases |text| - p - i
  {
    hide MatchEnd, StartsAfresh;
    if i < |text| - p {
      MatchEndShifted(text, p, i);
      var b := MatchEnd(text[p..], i);
      TokensShifted(text, p, if b < 0 then i + 1 else b);
      assert b >= 0 ==> text[p + i..p + b] == text[p..][i..b];
    }
  }

  /** The text goes on with a character that ends every word. */
  predicate Continues(text: string, a: string, b: string) {
    text == a + b && b != "" && !IsWordChar(b[0]) && (InPattern(b[0]) ==> |b| == 1)
  }

  lemma {:induction false} RunEndBefore(text: string, a: string, b: string, i: nat)
    requires Continues(text, a, b) && i <= |a|
    ensures RunEnd(text, i) == RunEnd(a, i) || (RunEnd(a, i) == |a| && RunEnd(text, i) == |text| == |a| + 1)
    decreases |a| - i
  {
    if i < |a| {
      if InPattern(a[i]) { RunEndBefore(text, a, b, i + 1); }
    } else if InPattern(b[0]) {
      assert RunEnd(text, |text|) == |text|;
    }
  }

  lemma {:induction false} LastBoundaryBefore(text: string, a: string, b: string, i: nat, e: nat)
    requires Continues(text, a, b) && e <= |a|
    ensures LastBoundary(text, i, e) == LastBoundary(a, i, e)
    decreases e
  {
    if e >= i + 2 {
      assert Boundary(text, e) == Boundary(a, e);
      LastBoundaryBefore(text, a, b, i, e - 1);
    }
  }

  lemma MatchEndBefore(text: string, a: string, b: string, i: nat)
    requires Continues(text, a, b) && i < |a|
    ensures MatchEnd(text, i) == MatchEnd(a, i)
  {
    hide RunEnd;
    assert Boundary(text, i) == Boundary(a, i);
    RunEndBefore(text, a, b, i);
    LastBoundaryBefore(text, a, b, i, RunEnd(a, i));
    if |text| == |a| + 1 { assert !Boundary(text, |text|); }
  }

  lemma NothingAtSeparator(text: string, a: string, b: string)
    requires Continues(text, a, b)
    ensures TokensFrom(text, |a|) == TokensFrom(text, |a| + 1)
  {
    assert text[|a|] == b[0];
    assert RunEnd(text, |a|) <= |a| + 1 by {
      if InPattern(b[0]) { assert RunEnd(text, |text|) == |text|; }
    }
  }

  /** Nor does what follows such a character. */
  lemma {:induction false} TokensBefore(text: string, a: string, b: string, i: nat)
    requires Continues(text, a, b) && i <= |a|
    ensures TokensFrom(text, i) == TokensFrom(a, i) + TokensFrom(text, |a| + 1)
    decreases |a| - i
  {
    hide MatchEnd, Continues;
    if i == |a| {
      NothingAtSeparator(text, a, b);
    } else {
      ContinuesMeans(text, a, b);
      MatchEndBefore(text, a, b, i);
      var m := MatchEnd(a, i);
      TokensBefore(text, a, b, if m < 0 then i + 1 else m);
      if m >= 0 { SliceBefore(text, |a|, i, m); }
    }
  }

  lemma SliceBefore(text: string, n: nat, i: nat, m: nat)
    requires i <= m <= n <= |text|
    ensures text[..n][i..m] == text[i..m]
  {
  }

  lemma ContinuesMeans(text: string, a: string, b: string)
    requires Continues(text, a, b)
    ensures |text| == |a| + |b| && |a| < |text| && text[..|a|] == a && text[|a|..] == b
  {
  }

  /** Any character outside the pattern, such as a blank, parts the tokens before it from those after it. */
  lemma SeparatorParts(a: string, c: char, b: string)
    requires !InPattern(c)
    ensures Tokens(a + [c] + b) == Tokens(a) + Tokens(b)
  {
    hide TokensFrom, Lower;
    var text := Lower(a + [c] + b);
    LowerConcat(a + [c], b);
    LowerConcat(a, [c]);
    assert Lower([c]) == [c] by { LowerKeepsClass(c); }
    assert text == Lower(a) + ([c] + Lower(b));
    TokensBefore(text, Lower(a), [c] + Lower(b), 0);
    assert text[|a| + 1..] == Lower(b);
    TokensShifted(text, |a| + 1, 0);
  }

  lemma LowerKeepsClass(c: char)
    ensures InPattern(LowerChar(c)) == InPattern(c) && IsWordChar(LowerChar(c)) == IsWordChar(c)
    ensures !InPattern(c) ==> Lower([c]) == [c]
  {
  }

  /** Hyphens at either end of a text belong to no token. */
  lemma OuterHyphens(a: string)
    ensures Tokens("-" + a) == Tokens(a) == Tokens(a + "-")
  {
    hide Lower, MatchEnd;
    LowerConcat("-", a);
    LowerConcat(a, "-");
    LowerHyphen();
    var before, after := Lower("-" + a), Lower(a + "-");
    assert MatchEnd(before, 0) == -1 by { HyphenStartsNothing(before); }
    TokensShifted(before, 1, 0);
    TokensBefore(after, Lower(a), "-", 0);
  }

  lemma HyphenStartsNothing(text: string)
    requires text != "" && text[0] == '-'
    ensures MatchEnd(text, 0) == -1
  {
  }

  lemma LowerHyphen()
    ensures Lower("-") == "-"
  {
  }

  /** n characters from c on. */
  function From(c: char, n: nat): string
    requires c as int + n <= 128
  {
    seq(n, i requires 0 <= i < n => (c as int + i) as char)
  }

  /** Words are made of the 52 letters, the ten digits, underscores and, inside, of hyphens. */
  lemma PatternIs(c: char)
    ensures IsWordChar(c) <==> c in From('a', 26) || c in From('A', 26) || c in From('0', 10) || c == '_'
    ensures InPattern(c) <==> IsWordChar(c) || c == '-'
  {
    InFrom(c, 'a', 26);
    InFrom(c, 'A', 26);
    InFrom(c, '0', 10);
  }

  lemma InFrom(c: char, first: char, n: nat)
    requires first as int + n <= 128
    ensures c in From(first, n) <==> first as int <= c as int < first as int + n
  {
    if first as int <= c as int < first as int + n {
      assert From(first, n)[c as int - first as int] == c;
    }
  }

  /** Characters of the pattern that begin and end with a word character. */
  predicate IsWord(w: string) {
    |w| >= 2 && IsWordChar(w[0]) && IsWordChar(w[|w| - 1]) && forall i :: 0 <= i < |w| ==> InPattern(w[i])
  }

  lemma {:induction false} WholeRun(w: string, i: nat)
    requires i <= |w| && forall k :: i <= k < |w| ==> InPattern(w[k])
    ensures RunEnd(w, i) == |w|
    decreases |w| - i
  {
    if i < |w| { WholeRun(w, i + 1); }
  }

  /** A word is a single token: itself in lower case. */
  lemma WordIsToken(w: string)
    requires IsWord(w)
    ensures Tokens(w) == [Lower(w)]
  {
    var text := Lower(w);
    forall i | 0 <= i < |w| ensures InPattern(text[i]) && IsWordChar(text[i]) == IsWordChar(w[i]) {
      LowerKeepsClass(w[i]);
    }
    WholeRun(text, 0);
    assert MatchEnd(text, 0) == |w|;
    assert TokensFrom(text, |w|) == [];
    assert text[0..|w|] == text;
  }

  /** A single character is none. */
  lemma SingleIsNoToken(c: char)
    ensures Tokens([c]) == []
  {
    var text := Lower([c]);
    assert RunEnd(text, 0) <= 1;
    assert MatchEnd(text, 0) == -1 && TokensFrom(text, 1) == [];
  }

  /** Adding the stems up over a separator. */
  lemma StemsPart(a: string, c: char, b: string)
    requires !InPattern(c)
    ensures Stems(a + [c] + b) == Stems(a) + Stems(b)
  {
    hide Stem, Tokens;
    SeparatorParts(a, c, b);
  }

  /** The text holds the word between separators. */
  predicate HasWord(text: string, w: string) {
    exists i :: 0 <= i <= |text| && StandsAt(text, w, i)
  }

  predicate StandsAt(text: string, w: string, i: nat) {
    && Occurs(text, i, w)
    && (i > 0 ==> !InPattern(text[i - 1]))
    && (i + |w| < |text| ==> !InPattern(text[i + |w|]))
  }

  /** No word of a text is missed. */
  lemma WordIsFound(text: string, w: string)
    requires IsWord(w) && HasWord(text, w)
    ensures Lower(w) in Tokens(text) && Stem(Lower(w)) in Stems(text)
  {
    hide Stem, IsWord, InPattern, Tokens, Lower;
    var i :| 0 <= i <= |text| && StandsAt(text, w, i);
    var j := i + |w|;
    WordIsToken(w);
    var upTo := text[..j];
    if i > 0 {
      assert upTo == text[..i - 1] + [text[i - 1]] + w;
      SeparatorParts(text[..i - 1], text[i - 1], w);
    } else {
      assert upTo == w;
    }
    assert Lower(w) in Tokens(upTo);
    if j < |text| {
      assert text == upTo + [text[j]] + text[j + 1..];
      SeparatorParts(upTo, text[j], text[j + 1..]);
    } else {
      assert text == upTo;
    }
    assert Lower(w) in Tokens(text);
    var k :| 0 <= k < |Tokens(text)| && Tokens(text)[k] == Lower(w);
    assert Stems(text)[k] == Stem(Lower(w));
  }

  // ---------------------------------------------------------------------------
  // Where stems stand
  // ---------------------------------------------------------------------------

  predicate Contains(text: string, s: string) {
    exists i :: 0 <= i <= |text| && Occurs(text, i, s)
  }

  predicate NoBlank(s: string) {
    forall i :: 0 <= i < |s| ==> s[i] != ' '
  }

  lemma {:induction false} TokensAreInText(text: string, i: nat, token: string)
    requires token in TokensFrom(text, i)
    ensures |token| >= 2 && NoBlank(token) && Contains(text, token)
    decreases |text| - i
  {
    var b := MatchEnd(text, i);
    if b >= 0 && token == text[i..b] {
      assert Occurs(text, i, token);
      assert forall k :: 0 <= k < |token| ==> token[k] == text[i + k];
    } else {
      TokensAreInText(text, if b < 0 then i + 1 else b, token);
    }
  }

  /** Every stem of a text is a piece of the lower-cased text without blanks. */
  lemma StemIsInText(text: string, stem: string)
    requires stem in Stems(text)
    ensures |stem| >= 2 && NoBlank(stem) && Contains(Lower(text), stem)
  {
    hide Stem, TokensFrom, Occurs;
    var k :| 0 <= k < |Stems(text)| && Stems(text)[k] == stem;
    var token := Tokens(text)[k];
    TokensAreInText(Lower(text), 0, token);
    StemIsPrefix(token);
    var i :| 0 <= i <= |Lower(text)| && Occurs(Lower(text), i, token);
    assert token == stem + token[|stem|..];
    OccursConcat(Lower(text), i, stem, token[|stem|..]);
  }

  lemma LowerConcat(a: string, b: string)
    ensures Lower(a + b) == Lower(a) + Lower(b)
  {
  }

  lemma LowerBlank()
    ensures Lower(" ") == " "
  {
  }

  /** A piece without blanks lies on one side of a blank. */
  lemma OneSideOfBlank(a: string, b: string, s: string)
    requires s != "" && NoBlank(s) && Contains(Lower(a + " " + b), s)
    ensures Contains(Lower(a), s) || Contains(Lower(b), s)
  {
    hide Occurs, Lower;
    LowerConcat(a + " ", b);
    LowerConcat(a, " ");
    LowerBlank();
    var i :| 0 <= i <= |Lower(a + " " + b)| && Occurs(Lower(a + " " + b), i, s);
    BlankSplits(Lower(a), Lower(b), i, s);
  }

  lemma BlankSplits(a: string, b: string, i: nat, s: string)
    requires s != "" && NoBlank(s) && Occurs(a + " " + b, i, s)
    ensures Contains(a, s) || Contains(b, s)
  {
    var text := a + " " + b;
    if i <= |a| < i + |s| {
      OccursAt(text, i, s, |a| - i);
    } else if i < |a| {
      assert text[i..i + |s|] == a[i..i + |s|];
      assert Occurs(a, i, s);
    } else {
      var j := i - |a| - 1;
      assert text[i..i + |s|] == b[j..j + |s|];
      assert Occurs(b, j, s);
    }
  }
}
