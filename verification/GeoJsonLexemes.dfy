/**
 * Texts made of lexemes, and what the searches and the block scanner of GeoJsonParser find in them.
 *
 * A lexeme is plain text (blanks, separators, numbers), a quoted string or a bracket. The scanner
 * looks at single characters; the lemmas say that on such a text it works lexeme by lexeme.
 */
module GeoJsonLexemes {
  import opened Common
  import opened GeoJsonParser

  datatype Lexeme = Raw(text: string) | Str(text: string) | Mark(bracket: char)

  function Show(l: Lexeme): string {
    match l
    case Raw(s) => s
    case Str(s) => InQuotes(s)
    case Mark(c) => [c]
  }

  ghost function Render(ls: seq<Lexeme>): string {
    if ls == [] then [] else Show(ls[0]) + Render(ls[1..])
  }

  /** Where a lexeme starts in the rendered text. */
  ghost function Offset(ls: seq<Lexeme>, k: nat): (n: nat)
    requires k <= |ls|
  {
    |Render(ls[..k])|
  }

  lemma Associative(x: string, y: string, z: string)
    ensures (x + y) + z == x + (y + z)
  {
  }

  lemma {:induction false} RenderConcat(a: seq<Lexeme>, b: seq<Lexeme>)
    ensures Render(a + b) == Render(a) + Render(b)
  {
    hide Show;
    if a == [] {
      assert a + b == b;
    } else {
      RenderConcat(a[1..], b);
      assert (a + b)[1..] == a[1..] + b;
      Associative(Show(a[0]), Render(a[1..]), Render(b));
    }
  }

  lemma RenderOne(l: Lexeme)
    ensures Render([l]) == Show(l)
  {
  }

  lemma RenderAt(ls: seq<Lexeme>, k: nat)
    requires k < |ls|
    ensures Occurs(Render(ls), Offset(ls, k), Show(ls[k]) + Render(ls[k + 1..]))
    ensures Occurs(Render(ls), Offset(ls, k), Show(ls[k]))
    ensures Offset(ls, k + 1) == Offset(ls, k) + |Show(ls[k])| <= |Render(ls)|
    ensures Offset(ls, k) + |Render(ls[k..])| == |Render(ls)|
  {
    assert ls[..k] + ls[k..] == ls;
    RenderConcat(ls[..k], ls[k..]);
    RenderConcat(ls[..k], [ls[k]]);
    RenderOne(ls[k]);
    assert ls[..k + 1] == ls[..k] + [ls[k]];
    assert ls[k..][1..] == ls[k + 1..];
    OccursWhole(Render(ls[..k]), Show(ls[k]) + Render(ls[k + 1..]), []);
    assert Render(ls) == Render(ls[..k]) + (Show(ls[k]) + Render(ls[k + 1..])) + [];
    OccursConcat(Render(ls), Offset(ls, k), Show(ls[k]), Render(ls[k + 1..]));
  }

  // ---------------------------------------------------------------------------
  // Lexemes that can be told apart again
  // ---------------------------------------------------------------------------

  predicate IsMark(c: char) {
    c == '[' || c == ']' || c == '{' || c == '}'
  }

  predicate Plain(s: string) {
    forall i :: 0 <= i < |s| ==> s[i] != QUOTE && s[i] != BACKSLASH && !IsMark(s[i]) && !IsLetter(s[i])
  }

  predicate NoQuote(s: string) {
    forall i :: 0 <= i < |s| ==> s[i] != QUOTE
  }

  /** Put in quotes, the closing quote is the first one and is not taken for an escaped one. */
  predicate Quotable(s: string) {
    NoQuote(s) && Closable(s)
  }

  /** A closing quote is not taken for an escaped one. */
  predicate Closable(s: string) {
    s != [] ==> s[|s| - 1] != BACKSLASH
  }

  /** Put in quotes, all quotes but the closing one are taken for escaped ones. */
  predicate Sealed(s: string) {
    Closable(s) && forall i :: 0 <= i < |s| && s[i] == QUOTE ==> i > 0 && s[i - 1] == BACKSLASH
  }

  predicate Findable(l: Lexeme) {
    match l
    case Raw(s) => Plain(s)
    case Str(s) => NoQuote(s)
    case Mark(c) => IsMark(c)
  }

  predicate Sound(l: Lexeme) {
    Findable(l) && (l.Str? ==> Quotable(l.text))
  }

  predicate AllSound(ls: seq<Lexeme>) {
    forall i :: 0 <= i < |ls| ==> Sound(ls[i])
  }

  /** The block scanner leaves a string where it ends. */
  predicate Passable(l: Lexeme) {
    match l
    case Raw(s) => Plain(s)
    case Str(s) => Sealed(s)
    case Mark(c) => IsMark(c)
  }

  predicate AllPassable(ls: seq<Lexeme>) {
    forall i :: 0 <= i < |ls| ==> Passable(ls[i])
  }

  lemma SoundIsPassable(ls: seq<Lexeme>)
    requires AllSound(ls)
    ensures AllPassable(ls)
  {
  }

  // ---------------------------------------------------------------------------
  // Searching
  // ---------------------------------------------------------------------------

  lemma {:induction false} FindCharAt(text: string, c: char, from: nat, at: nat)
    requires from <= at < |text| && text[at] == c
    requires forall i :: from <= i < at ==> text[i] != c
    ensures FindChar(text, c, from) == at
    decreases at - from
  {
    if from < at { FindCharAt(text, c, from + 1, at); }
  }

  lemma {:induction false} FindCharAbsent(text: string, c: char, from: nat)
    requires forall i :: from <= i < |text| ==> text[i] != c
    ensures FindChar(text, c, from) == -1
    decreases |text| - from
  {
    if from < |text| { FindCharAbsent(text, c, from + 1); }
  }

  /** A search for a character stops at the first one. */
  lemma {:induction false} FindCharFirst(text: string, c: char, from: nat)
    ensures var i := FindChar(text, c, from);
            forall j :: from <= j < (if i >= 0 then i else |text|) ==> text[j] != c
    decreases |text| - from
  {
    if from < |text| && text[from] != c { FindCharFirst(text, c, from + 1); }
  }

  lemma {:induction false} FindTextSkip(text: string, pattern: string, a: nat, b: nat)
    requires a <= b <= |text| && pattern != []
    requires forall p :: a <= p < b ==> !Occurs(text, p, pattern)
    ensures FindText(text, pattern, a) == FindText(text, pattern, b)
    decreases b - a
  {
    if a < b {
      assert !Occurs(text, a, pattern);
      FindTextSkip(text, pattern, a + 1, b);
    }
  }

  /** A key: it starts with a letter and has no quote. */
  predicate IsWord(w: string) {
    w != [] && IsLetter(w[0]) && NoQuote(w)
  }

  lemma SameUpToQuote(text: string, at: nat, s: string, t: string)
    requires NoQuote(s) && NoQuote(t)
    requires Occurs(text, at, s + [QUOTE]) && Occurs(text, at, t + [QUOTE])
    ensures s == t
  {
    NotLonger(text, at, s, t);
    NotLonger(text, at, t, s);
    OccursConcat(text, at, s, [QUOTE]);
    OccursConcat(text, at, t, [QUOTE]);
  }

  lemma NotLonger(text: string, at: nat, s: string, t: string)
    requires NoQuote(t) && Occurs(text, at, s + [QUOTE]) && Occurs(text, at, t + [QUOTE])
    ensures |t| <= |s|
  {
    OccursConcat(text, at, t, [QUOTE]);
    if |s| < |t| {
      OccursAt(text, at, s + [QUOTE], |s|);
      OccursAt(text, at, t, |s|);
    }
  }

  lemma NoKeyInLexeme(text: string, pos: nat, l: Lexeme, w: string, p: nat)
    requires IsWord(w) && Findable(l) && l != Str(w)
    requires Occurs(text, pos, Show(l)) && pos <= p < pos + |Show(l)| < |text|
    requires !IsLetter(text[pos + |Show(l)|])
    ensures !Occurs(text, p, Show(Str(w)))
  {
    if Occurs(text, p, Show(Str(w))) {
      hide Occurs, Findable, Show, IsLetter;
      KeyStarts(text, p, w);
      OccursAt(text, pos, Show(l), p - pos);
      QuotesShown(l, p - pos);
      if p == pos {
        SameString(text, pos, w, l.text);
      }
    }
  }

  lemma KeyStarts(text: string, p: nat, w: string)
    requires IsWord(w) && Occurs(text, p, Show(Str(w)))
    ensures p + 1 < |text| && text[p] == QUOTE && IsLetter(text[p + 1])
  {
    hide Occurs;
    OccursAt(text, p, Show(Str(w)), 0);
    OccursAt(text, p, Show(Str(w)), 1);
  }

  /** A quote is the first or the last character of a string. */
  lemma QuotesShown(l: Lexeme, i: nat)
    requires Findable(l) && i < |Show(l)| && Show(l)[i] == QUOTE
    ensures l.Str? && NoQuote(l.text) && (i == 0 || i == |Show(l)| - 1)
  {
  }

  lemma SameString(text: string, pos: nat, s: string, t: string)
    requires NoQuote(s) && NoQuote(t) && Occurs(text, pos, Show(Str(s))) && Occurs(text, pos, Show(Str(t)))
    ensures s == t
  {
    hide Occurs;
    assert Show(Str(s)) == [QUOTE] + (s + [QUOTE]) && Show(Str(t)) == [QUOTE] + (t + [QUOTE]);
    OccursConcat(text, pos, [QUOTE], s + [QUOTE]);
    OccursConcat(text, pos, [QUOTE], t + [QUOTE]);
    SameUpToQuote(text, pos + 1, s, t);
  }

  /** The search for a quoted key skips the lexemes that differ from it. */
  lemma {:induction false} SkipToLexeme(ls: seq<Lexeme>, from: nat, k: nat, w: string)
    requires IsWord(w) && from <= k < |ls| && ls[k].Str?
    requires forall i :: from <= i < k ==> Findable(ls[i]) && ls[i] != Str(w)
    ensures FindText(Render(ls), Show(Str(w)), Offset(ls, from)) == FindText(Render(ls), Show(Str(w)), Offset(ls, k))
    decreases k - from
  {
    hide Render, Show, Occurs, FindText;
    if from < k {
      var text, key := Render(ls), Show(Str(w));
      RenderAt(ls, from);
      var pos, next := Offset(ls, from), Offset(ls, from + 1);
      NextIsNoLetter(ls, from + 1, k);
      forall p | pos <= p < next
        ensures !Occurs(text, p, key)
      {
        NoKeyInLexeme(text, pos, ls[from], w, p);
      }
      KeyIsNotEmpty(w);
      FindTextSkip(text, key, pos, next);
      SkipToLexeme(ls, from + 1, k, w);
    }
  }

  /** The search for a quoted key finds the first string that is equal to it. */
  lemma FindKey(ls: seq<Lexeme>, from: nat, k: nat, w: string)
    requires IsWord(w) && from <= k < |ls| && ls[k] == Str(w)
    requires forall i :: from <= i < k ==> Findable(ls[i]) && ls[i] != Str(w)
    ensures FindText(Render(ls), Show(Str(w)), Offset(ls, from)) == Offset(ls, k)
  {
    hide Render, Show, Occurs, FindText, Offset, Findable;
    RenderAt(ls, k);
    SkipToLexeme(ls, from, k, w);
    FoundHere(Render(ls), Show(Str(w)), Offset(ls, k));
  }

  lemma KeyIsNotEmpty(w: string)
    ensures Show(Str(w)) != []
  {
  }

  lemma FoundHere(text: string, pattern: string, at: nat)
    requires Occurs(text, at, pattern)
    ensures FindText(text, pattern, at) == at
  {
  }

  lemma {:induction false} NextIsNoLetter(ls: seq<Lexeme>, from: nat, k: nat)
    requires from <= k < |ls| && ls[k].Str?
    requires forall i :: from <= i < k ==> Findable(ls[i])
    ensures Offset(ls, from) < |Render(ls)| && !IsLetter(Render(ls)[Offset(ls, from)])
    decreases k - from
  {
    hide Occurs, Render, Offset;
    var l := ls[from];
    RenderAt(ls, from);
    if Show(l) != [] {
      OccursAt(Render(ls), Offset(ls, from), Show(l), 0);
    } else {
      NextIsNoLetter(ls, from + 1, k);
    }
  }

  predicate Lacks(s: string, c: char) {
    forall i :: 0 <= i < |s| ==> s[i] != c
  }

  /** The search for a character skips the lexemes without it. */
  lemma {:induction false} FindMark(ls: seq<Lexeme>, from: nat, k: nat, c: char)
    requires from <= k < |ls| && Show(ls[k]) != [] && Show(ls[k])[0] == c
    requires forall i :: from <= i < k ==> Lacks(Show(ls[i]), c)
    ensures FindChar(Render(ls), c, Offset(ls, from)) == Offset(ls, k)
    decreases k - from
  {
    hide Render, Show, Occurs;
    var text, pos := Render(ls), Offset(ls, from);
    RenderAt(ls, from);
    if from == k {
      OccursAt(text, pos, Show(ls[k]), 0);
    } else {
      SkipChars(text, c, pos, Show(ls[from]));
      FindMark(ls, from + 1, k, c);
    }
  }

  lemma {:induction false} SkipChars(text: string, c: char, pos: nat, s: string)
    requires Occurs(text, pos, s) && Lacks(s, c)
    ensures FindChar(text, c, pos) == FindChar(text, c, pos + |s|)
    decreases |s|
  {
    if s != [] {
      OccursAt(text, pos, s, 0);
      assert s == [s[0]] + s[1..];
      OccursConcat(text, pos, [s[0]], s[1..]);
      SkipChars(text, c, pos + 1, s[1..]);
    }
  }

  /** After a key, a colon and a blank, the value of a string is read. */
  lemma ReadValue(ls: seq<Lexeme>, k: nat, w: string, s: string, absent: string)
    requires k + 2 < |ls| && ls[k] == Str(w) && ls[k + 1] == Raw(": ") && ls[k + 2] == Str(s)
    requires Lacks(w, ':') && NoQuote(s)
    ensures ValueAfter(Render(ls), Offset(ls, k), absent) == s
  {
    hide Occurs, Render, FindChar, Offset, Show, ValueAfter;
    var open := ValueStart(ls, k, w, s);
    ClosingQuote(Render(ls), open, s);
    SliceOf(Render(ls), open + 1, s);
    BetweenQuotes(Render(ls), Offset(ls, k), open, s, absent);
  }

  lemma BetweenQuotes(text: string, keyPos: nat, open: nat, s: string, absent: string)
    requires FindChar(text, ':', keyPos) >= 0 && FindChar(text, QUOTE, FindChar(text, ':', keyPos) + 1) == open
    requires FindChar(text, QUOTE, open + 1) == open + 1 + |s|
    requires open + 1 + |s| <= |text| && text[open + 1..open + 1 + |s|] == s
    ensures ValueAfter(text, keyPos, absent) == s
  {
    hide FindChar;
  }

  lemma ClosingQuote(text: string, open: nat, s: string)
    requires Occurs(text, open, Show(Str(s))) && NoQuote(s)
    ensures FindChar(text, QUOTE, open + 1) == open + 1 + |s| && Occurs(text, open + 1, s)
  {
    hide Occurs;
    assert Show(Str(s)) == [QUOTE] + (s + [QUOTE]);
    OccursConcat(text, open, [QUOTE], s + [QUOTE]);
    OccursConcat(text, open + 1, s, [QUOTE]);
    SkipChars(text, QUOTE, open + 1, s);
    OccursAt(text, open + 1 + |s|, [QUOTE], 0);
    FindCharAt(text, QUOTE, open + 1 + |s|, open + 1 + |s|);
  }

  lemma SliceOf(text: string, pos: nat, s: string)
    requires Occurs(text, pos, s)
    ensures pos + |s| <= |text| && text[pos..pos + |s|] == s
  {
  }

  /** The colon and the opening quote that ValueAfter finds. */
  lemma ValueStart(ls: seq<Lexeme>, k: nat, w: string, s: string) returns (open: nat)
    requires k + 2 < |ls| && ls[k] == Str(w) && ls[k + 1] == Raw(": ") && ls[k + 2] == Str(s)
    requires Lacks(w, ':')
    ensures open == Offset(ls, k + 2) && Occurs(Render(ls), open, Show(Str(s)))
    ensures FindChar(Render(ls), ':', Offset(ls, k)) >= 0
    ensures FindChar(Render(ls), QUOTE, FindChar(Render(ls), ':', Offset(ls, k)) + 1) == open
  {
    hide Occurs, Render, Offset, FindChar;
    var text := Render(ls);
    FindMark(ls, k, k + 1, ':');
    RenderAt(ls, k + 1);
    RenderAt(ls, k + 2);
    open := Offset(ls, k + 2);
    OccursAt(text, Offset(ls, k + 1), ": ", 1);
    OccursAt(text, open, Show(Str(s)), 0);
    FindCharAt(text, QUOTE, Offset(ls, k + 1) + 1, open);
  }

  // ---------------------------------------------------------------------------
  // Blocks
  // ---------------------------------------------------------------------------

  function Net(l: Lexeme, open: char): int {
    if l == Mark(open) then 1 else if l == Mark(Closing(open)) then -1 else 0
  }

  /** The depth after the lexemes; a depth that reached zero stays. */
  ghost function Walk(ls: seq<Lexeme>, open: char, depth: int): int {
    if ls == [] || depth <= 0 then depth else Walk(ls[1..], open, depth + Net(ls[0], open))
  }

  lemma {:induction false} WalkConcat(a: seq<Lexeme>, b: seq<Lexeme>, open: char, depth: int)
    ensures Walk(a + b, open, depth) == Walk(b, open, Walk(a, open, depth))
  {
    if a == [] {
      assert a + b == b;
    } else if depth > 0 {
      WalkConcat(a[1..], b, open, depth + Net(a[0], open));
      assert (a + b)[1..] == a[1..] + b;
    }
  }

  /** No bracket of this kind. */
  predicate Flat(ls: seq<Lexeme>, open: char) {
    forall i :: 0 <= i < |ls| ==> Net(ls[i], open) == 0
  }

  lemma {:induction false} WalkFlat(ls: seq<Lexeme>, open: char, depth: int)
    requires Flat(ls, open)
    ensures Walk(ls, open, depth) == depth
  {
    if ls != [] && depth > 0 {
      assert Net(ls[0], open) == 0;
      WalkFlat(ls[1..], open, depth);
    }
  }

  function Nest(open: char, ls: seq<Lexeme>): seq<Lexeme> {
    [Mark(open)] + ls + [Mark(Closing(open))]
  }

  /** Brackets that are closed again within the lexemes. */
  ghost predicate Balanced(ls: seq<Lexeme>, open: char) {
    forall d :: d >= 1 ==> Walk(ls, open, d) == d
  }

  lemma FlatIsBalanced(ls: seq<Lexeme>, open: char)
    requires Flat(ls, open)
    ensures Balanced(ls, open)
  {
    forall d | d >= 1 ensures Walk(ls, open, d) == d { WalkFlat(ls, open, d); }
  }

  lemma ConcatBalanced(a: seq<Lexeme>, b: seq<Lexeme>, open: char)
    requires Balanced(a, open) && Balanced(b, open)
    ensures Balanced(a + b, open)
  {
    forall d | d >= 1 ensures Walk(a + b, open, d) == d { WalkConcat(a, b, open, d); }
  }

  lemma NestBalanced(ls: seq<Lexeme>, open: char)
    requires Balanced(ls, open) && (open == '[' || open == '{')
    ensures Balanced(Nest(open, ls), open)
  {
    forall d | d >= 1 ensures Walk(Nest(open, ls), open, d) == d {
      WalkConcat([Mark(open)] + ls, [Mark(Closing(open))], open, d);
      WalkConcat([Mark(open)], ls, open, d);
      assert Walk([Mark(open)], open, d) == d + 1;
      assert Walk([Mark(Closing(open))], open, d + 1) == d;
    }
  }

  predicate NotEscaped(text: string, i: nat)
    requires i <= |text|
  {
    i == 0 || text[i - 1] != BACKSLASH
  }

  /** The block scanner passes text without quotes and brackets. */
  lemma {:induction false} PassPlain(text: string, pos: nat, s: string, open: char, depth: int)
    requires Occurs(text, pos, s) && Plain(s) && NotEscaped(text, pos) && (open == '[' || open == '{')
    ensures pos + |s| <= |text| && NotEscaped(text, pos + |s|)
    ensures BlockEnd(text, pos, open, Closing(open), depth, false)
         == BlockEnd(text, pos + |s|, open, Closing(open), depth, false)
    decreases |s|
  {
    hide Occurs;
    OccursBounds(text, pos, s);
    if s != [] {
      OccursAt(text, pos, s, 0);
      assert s == [s[0]] + s[1..];
      OccursConcat(text, pos, [s[0]], s[1..]);
      PassPlain(text, pos + 1, s[1..], open, depth);
    }
  }

  /** Within a string, escaped quotes and brackets are passed. */
  lemma {:induction false} PassQuotedText(text: string, pos: nat, s: string, i: nat, open: char, depth: int)
    requires Occurs(text, pos, s) && Sealed(s) && i <= |s|
    ensures pos + |s| <= |text|
    ensures BlockEnd(text, pos + i, open, Closing(open), depth, true)
         == BlockEnd(text, pos + |s|, open, Closing(open), depth, true)
    decreases |s| - i
  {
    OccursBounds(text, pos, s);
    if i < |s| {
      OccursAt(text, pos, s, i);
      if i > 0 { OccursAt(text, pos, s, i - 1); }
      PassQuotedText(text, pos, s, i + 1, open, depth);
    }
  }

  lemma PassString(text: string, pos: nat, s: string, open: char, depth: int)
    requires Occurs(text, pos, Show(Str(s))) && Sealed(s) && NotEscaped(text, pos)
    ensures pos + |s| + 2 <= |text| && NotEscaped(text, pos + |s| + 2)
    ensures BlockEnd(text, pos, open, Closing(open), depth, false)
         == BlockEnd(text, pos + |s| + 2, open, Closing(open), depth, false)
  {
    hide Occurs, BlockEnd, Sealed;
    assert Show(Str(s)) == [QUOTE] + (s + [QUOTE]);
    OccursConcat(text, pos, [QUOTE], s + [QUOTE]);
    OccursConcat(text, pos + 1, s, [QUOTE]);
    OccursBounds(text, pos, Show(Str(s)));
    OccursAt(text, pos, [QUOTE], 0);
    OccursAt(text, pos + 1 + |s|, [QUOTE], 0);
    PassQuotedText(text, pos + 1, s, 0, open, depth);
    EndNotEscaped(text, pos, s);
    PassQuote(text, pos, open, depth, false);
    PassQuote(text, pos + 1 + |s|, open, depth, true);
  }

  lemma EndNotEscaped(text: string, pos: nat, s: string)
    requires Occurs(text, pos + 1, s) && Sealed(s) && pos + 1 + |s| < |text| && text[pos] == QUOTE
    ensures NotEscaped(text, pos + 1 + |s|)
  {
    if s != [] {
      OccursAt(text, pos + 1, s, |s| - 1);
    }
  }

  lemma PassQuote(text: string, pos: nat, open: char, depth: int, inString: bool)
    requires pos < |text| && text[pos] == QUOTE && NotEscaped(text, pos)
    ensures BlockEnd(text, pos, open, Closing(open), depth, inString)
         == BlockEnd(text, pos + 1, open, Closing(open), depth, !inString)
  {
  }

  /** The scanner keeps the depth of the brackets. */
  lemma {:induction false} PassLexemes(text: string, pos: nat, ls: seq<Lexeme>, open: char, depth: int)
    requires Occurs(text, pos, Render(ls)) && AllPassable(ls) && NotEscaped(text, pos)
    requires (open == '[' || open == '{') && depth >= 1 && Walk(ls, open, depth) >= 1
    ensures pos + |Render(ls)| <= |text| && NotEscaped(text, pos + |Render(ls)|)
    ensures BlockEnd(text, pos, open, Closing(open), depth, false)
         == BlockEnd(text, pos + |Render(ls)|, open, Closing(open), Walk(ls, open, depth), false)
    decreases |ls|
  {
    hide Occurs, BlockEnd, Show, Net;
    OccursBounds(text, pos, Render(ls));
    if ls != [] {
      var l, rest := ls[0], ls[1..];
      OccursConcat(text, pos, Show(l), Render(rest));
      PassLexeme(text, pos, l, open, depth);
      assert depth + Net(l, open) >= 1;
      PassLexemes(text, pos + |Show(l)|, rest, open, depth + Net(l, open));
    }
  }

  lemma PassLexeme(text: string, pos: nat, l: Lexeme, open: char, depth: int)
    requires Occurs(text, pos, Show(l)) && Passable(l) && NotEscaped(text, pos)
    requires (open == '[' || open == '{') && depth + Net(l, open) >= 1
    ensures pos + |Show(l)| <= |text| && NotEscaped(text, pos + |Show(l)|)
    ensures BlockEnd(text, pos, open, Closing(open), depth, false)
         == BlockEnd(text, pos + |Show(l)|, open, Closing(open), depth + Net(l, open), false)
  {
    hide Occurs;
    match l {
      case Raw(s) => PassPlain(text, pos, s, open, depth);
      case Str(s) => PassString(text, pos, s, open, depth);
      case Mark(c) => OccursAt(text, pos, [c], 0);
    }
  }

  /** A balanced block is extracted whole. */
  lemma BlockIsRead(text: string, pos: nat, open: char, inner: seq<Lexeme>)
    requires (open == '[' || open == '{') && AllPassable(inner) && Walk(inner, open, 1) == 1
    requires Occurs(text, pos, Render(Nest(open, inner)))
    ensures Block(text, pos) == Render(Nest(open, inner))
  {
    hide Occurs, Render, AllPassable, Walk, Nest, Block;
    var close := Closing(open);
    NestRendered(open, inner);
    OccursConcat(text, pos, [open], Render(inner) + [close]);
    OccursConcat(text, pos + 1, Render(inner), [close]);
    OccursAt(text, pos, [open], 0);
    OccursAt(text, pos + 1 + |Render(inner)|, [close], 0);
    PassLexemes(text, pos + 1, inner, open, 1);
    var end := pos + 1 + |Render(inner)|;
    assert BlockEnd(text, end, open, close, 1, false) == end;
    BlockUpTo(text, pos, open, end);
    SliceOf(text, pos, Render(Nest(open, inner)));
  }

  lemma BlockUpTo(text: string, pos: nat, open: char, end: nat)
    requires (open == '[' || open == '{') && pos < |text| && text[pos] == open
    requires BlockEnd(text, pos + 1, open, Closing(open), 1, false) == end
    ensures Block(text, pos) == text[pos..end + 1]
  {
    assert SkipSpaces(text, pos) == pos;
  }

  /** The same within a list of lexemes. */
  lemma BlockInText(pre: seq<Lexeme>, open: char, inner: seq<Lexeme>, post: seq<Lexeme>)
    requires (open == '[' || open == '{') && AllPassable(inner) && Walk(inner, open, 1) == 1
    ensures Block(Render(pre + Nest(open, inner) + post), |Render(pre)|) == Render(Nest(open, inner))
  {
    hide Occurs, Render, Block, Nest;
    RenderConcat(pre + Nest(open, inner), post);
    RenderConcat(pre, Nest(open, inner));
    OccursWhole(Render(pre), Render(Nest(open, inner)), Render(post));
    BlockIsRead(Render(pre + Nest(open, inner) + post), |Render(pre)|, open, inner);
  }

  lemma NestRendered(open: char, inner: seq<Lexeme>)
    ensures Render(Nest(open, inner)) == [open] + (Render(inner) + [Closing(open)])
  {
    RenderConcat([Mark(open)] + inner, [Mark(Closing(open))]);
    RenderConcat([Mark(open)], inner);
    RenderOne(Mark(open));
    RenderOne(Mark(Closing(open)));
  }

  // ---------------------------------------------------------------------------
  // Trimming
  // ---------------------------------------------------------------------------

  lemma TrimNothing(s: string)
    requires s != [] && !IsSpace(s[0]) && !IsSpace(s[|s| - 1])
    ensures Trim(s) == s
  {
    assert SkipSpaces(s, 0) == 0;
    assert s[0..] == s;
  }

  /** The inside of a rendered block. */
  lemma TrimNest(open: char, inner: seq<Lexeme>)
    requires open == '[' || open == '{'
    ensures var t := Trim(Render(Nest(open, inner))); Bracketed(t, open) && Inner(t) == Render(inner)
  {
    hide Trim, Nest, Render;
    NestRendered(open, inner);
    var s := Render(Nest(open, inner));
    TrimNothing(s);
    assert s[1..|s| - 1] == Render(inner);
  }
}
