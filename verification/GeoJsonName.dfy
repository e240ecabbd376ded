/**
 * The name of an exported collection, whatever characters it has.
 *
 * The exporter escapes the name; the parser takes no notice of escapes and stops at the first
 * quote. So a name with a quote is cut there, and one that ends like a key can hide that key.
 */
module GeoJsonName {
  import opened Common
  import opened GeoJsonParser
  import opened GeoJsonLexemes
  import opened GeoJsonExporter
  import opened GeoJsonProperties
  import JsonString

  // ---------------------------------------------------------------------------
  // Escaped strings
  // ---------------------------------------------------------------------------

  lemma LacksFront(s: string, c: char)
    requires s != [] && Lacks(s, c)
    ensures Lacks(s[..|s| - 1], c)
  {
  }

  /** A suffix without backslashes, cut off behind a whole escape, comes from the end of the string. */
  lemma {:induction false} SuffixIsOriginal(s: string, y: string, w: string) returns (front: string)
    requires Escape(s) == y + w && Lacks(w, BACKSLASH) && (y != [] ==> y[|y| - 1] != BACKSLASH)
    ensures s == front + w && Escape(front) == y
    decreases |w|
  {
    hide Escape, Lacks;
    if w == [] {
      assert y + w == y;
      front := s;
      assert s == front + w;
    } else {
      EscapeNotEmpty(s);
      var last := |s| - 1;
      EscapeLast(s);
      var e, before := JsonString.EscapeChar(s[last]), Escape(s[..last]);
      EndOfConcat(y, w, before, e);
      LacksFront(w, BACKSLASH);
      front := SuffixIsOriginal(s[..last], y, w[..|w| - 1]);
      assert s == s[..last] + [s[last]];
      assert w == w[..|w| - 1] + [w[|w| - 1]];
    }
  }

  lemma NoBackslashBeforeLast(y: string, w: string)
    requires w != [] && Lacks(w, BACKSLASH) && (y != [] ==> y[|y| - 1] != BACKSLASH)
    ensures |y + w| >= 2 ==> (y + w)[|y + w| - 2] != BACKSLASH
  {
  }

  lemma EndOfConcat(y: string, w: string, before: string, e: string)
    requires y + w == before + e && w != [] && Lacks(w, BACKSLASH) && (y != [] ==> y[|y| - 1] != BACKSLASH)
    requires |e| == 1 || (|e| == 2 && e[0] == BACKSLASH)
    ensures |e| == 1 && e[0] == w[|w| - 1] && before == y + w[..|w| - 1]
  {
    var all := y + w;
    NoBackslashBeforeLast(y, w);
    assert all[|all| - 1] == w[|w| - 1] == e[|e| - 1];
    assert |all| == |before| + |e| && all[|before|] == e[0];
    assert before == all[..|all| - 1] == y + w[..|w| - 1];
  }

  // ---------------------------------------------------------------------------
  // Keys at the end of a name
  // ---------------------------------------------------------------------------

  /** Names that end like the quoted key. */
  predicate ShowsKey(name: string, w: string) {
    name == w || EndsWith(name, [QUOTE] + w)
  }

  lemma ConcatEndsWith(a: string, b: string)
    ensures EndsWith(a + b, b)
  {
    assert (a + b)[|a|..] == b;
  }

  lemma SplitAtSuffix(s: string, suffix: string) returns (front: string)
    requires EndsWith(s, suffix)
    ensures s == front + suffix
  {
    front := s[..|s| - |suffix|];
  }

  lemma SameEscape(s: string, t: string)
    requires Escape(s) == Escape(t)
    ensures s == t
  {
    JsonString.EscapeInjective(s, t);
  }

  /** The escaped name ends like the key exactly if the name does. */
  lemma EscapedShowsKeyIff(name: string, w: string)
    requires Clean(w) && w != ""
    ensures ShowsKey(Escape(name), w) <==> ShowsKey(name, w)
  {
    hide Escape, EndsWith, Clean;
    EscapeLength(w);
    if Escape(name) == w { SameEscape(name, w); }
    if EndsWith(name, [QUOTE] + w) { KeyStaysAtEnd(name, w); }
    if EndsWith(Escape(name), [QUOTE] + w) { KeyWasAtEnd(name, w); }
  }

  lemma KeyStaysAtEnd(name: string, w: string)
    requires Clean(w) && EndsWith(name, [QUOTE] + w)
    ensures EndsWith(Escape(name), [QUOTE] + w)
  {
    hide Escape, EndsWith, Clean;
    var front := SplitAtSuffix(name, [QUOTE] + w);
    EscapeLength(w);
    EscapeOne(QUOTE);
    EscapeConcat(front, [QUOTE] + w);
    EscapeConcat([QUOTE], w);
    assert Escape(name) == (Escape(front) + [BACKSLASH]) + ([QUOTE] + w);
    ConcatEndsWith(Escape(front) + [BACKSLASH], [QUOTE] + w);
  }

  lemma CleanLacksBackslash(w: string)
    requires Clean(w)
    ensures Lacks(w, BACKSLASH)
  {
    forall i | 0 <= i < |w| ensures w[i] != BACKSLASH {
      assert JsonString.EscapeChar(w[i]) == [w[i]];
    }
  }

  lemma KeyWasAtEnd(name: string, w: string)
    requires Clean(w) && EndsWith(Escape(name), [QUOTE] + w)
    ensures EndsWith(name, [QUOTE] + w)
  {
    hide Escape, EndsWith, Clean;
    var y := SplitAtSuffix(Escape(name), [QUOTE] + w);
    assert Escape(name) == (y + [QUOTE]) + w;
    CleanLacksBackslash(w);
    var front := SuffixIsOriginal(name, y + [QUOTE], w);
    EndsInQuote(front, y);
    assert name == front[..|front| - 1] + ([QUOTE] + w);
    ConcatEndsWith(front[..|front| - 1], [QUOTE] + w);
  }

  lemma EndsInQuote(s: string, y: string)
    requires Escape(s) == y + [QUOTE]
    ensures s != [] && s[|s| - 1] == QUOTE
  {
    if s != [] {
      EscapeLast(s);
      var e, before := JsonString.EscapeChar(s[|s| - 1]), Escape(s[..|s| - 1]);
      assert (before + e)[|before + e| - 1] == e[|e| - 1] == (y + [QUOTE])[|y|];
    }
  }

  /** A quoted key found within the quoted name ends with it. */
  lemma KeyEndsName(text: string, open: nat, name: string, w: string, p: nat)
    requires IsWord(w) && Clean(w) && Occurs(text, open, Show(Str(Escape(name))))
    requires var end := open + |Escape(name)| + 2; end < |text| && !IsLetter(text[end]) && open <= p < end
    requires Occurs(text, p, Show(Str(w)))
    ensures p + |w| == open + |Escape(name)| && ShowsKey(Escape(name), w)
  {
    hide Occurs, Escape, Clean, EndsWith;
    var s := Escape(name);
    var last := open + |s| + 1;
    assert Show(Str(s)) == [QUOTE] + (s + [QUOTE]);
    OccursAt(text, open, Show(Str(s)), |s| + 1);
    KeyStarts(text, p, w);
    KeyReachesEnd(text, open, name, w, p);
    KeyNotPastEnd(text, last, w, p);
    KeyIsSuffix(text, open, s, w, p);
  }

  lemma KeyReachesEnd(text: string, open: nat, name: string, w: string, p: nat)
    requires w != "" && Clean(w) && Occurs(text, open, Show(Str(Escape(name))))
    requires open <= p && Occurs(text, p, Show(Str(w)))
    ensures p + |w| >= open + |Escape(name)|
  {
    hide Occurs, Escape, Clean;
    var s, end := Escape(name), p + |w| + 1;
    if end < open + |s| + 1 {
      OccursAt(text, p, Show(Str(w)), |w| + 1);
      OccursAt(text, p, Show(Str(w)), |w|);
      OccursAt(text, open, Show(Str(s)), end - open);
      QuotesAreEscaped(name, end - open - 1);
      OccursAt(text, open, Show(Str(s)), end - open - 1);
      CleanLacksBackslash(w);
    }
  }

  lemma KeyNotPastEnd(text: string, last: nat, w: string, p: nat)
    requires NoQuote(w) && last < |text| && text[last] == QUOTE && p < last && Occurs(text, p, Show(Str(w)))
    ensures p + |w| < last
  {
    hide Occurs;
    if last <= p + |w| {
      OccursAt(text, p, Show(Str(w)), last - p);
    }
  }

  lemma KeyIsSuffix(text: string, open: nat, s: string, w: string, p: nat)
    requires Occurs(text, open, Show(Str(s))) && Occurs(text, p, Show(Str(w)))
    requires open <= p && p + |w| == open + |s|
    ensures ShowsKey(s, w)
  {
    hide Occurs;
    forall i | 0 <= i <= |w| + 1 ensures Show(Str(s))[p - open + i] == Show(Str(w))[i] {
      OccursAt(text, open, Show(Str(s)), p - open + i);
      OccursAt(text, p, Show(Str(w)), i);
    }
    assert Show(Str(s))[p - open..] == Show(Str(w));
    KeyAtEnd(s, w, p - open);
  }

  lemma KeyAtEnd(s: string, w: string, from: nat)
    requires from + |w| == |s| && Show(Str(s))[from..] == Show(Str(w))
    ensures ShowsKey(s, w)
  {
    var shown := Show(Str(s));
    if from == 0 {
      assert s == shown[from..][1..|s| + 1] == w;
    } else {
      assert s[from - 1..] == shown[from..][..|w| + 1] == [QUOTE] + w;
    }
  }

  /** The search for a key at a name: it is found within it, at its end, or behind it. */
  lemma SearchAtName(text: string, open: nat, name: string, w: string)
    requires IsWord(w) && Clean(w) && Occurs(text, open, Show(Str(Escape(name))))
    requires var end := open + |Escape(name)| + 2; end < |text| && !IsLetter(text[end])
    ensures var end := open + |Escape(name)| + 2;
            if ShowsKey(name, w) then
              end >= |w| + 2 && FindText(text, Show(Str(w)), open) == end - (|w| + 2)
              && Occurs(text, end - (|w| + 2), Show(Str(w)))
            else FindText(text, Show(Str(w)), open) == FindText(text, Show(Str(w)), end)
  {
    hide Occurs, Escape, Clean, EndsWith, Show, FindText, ShowsKey;
    var s, key := Escape(name), Show(Str(w));
    var end := open + |s| + 2;
    EscapedShowsKeyIff(name, w);
    KeyIsNotEmpty(w);
    forall p | open <= p < end && Occurs(text, p, key)
      ensures p + |w| == open + |s| && ShowsKey(s, w)
    {
      KeyEndsName(text, open, name, w, p);
    }
    if ShowsKey(name, w) {
      var at := KeyOccurs(text, open, s, w);
      FindTextSkip(text, key, open, at);
      FoundHere(text, key, at);
    } else {
      FindTextSkip(text, key, open, end);
    }
  }

  lemma KeyOccurs(text: string, open: nat, s: string, w: string) returns (at: nat)
    requires Occurs(text, open, Show(Str(s))) && ShowsKey(s, w)
    ensures |w| <= |s| && at == open + |s| - |w| && Occurs(text, at, Show(Str(w)))
  {
    hide Occurs;
    at := open + |s| - |w|;
    if s != w {
      var before := SplitAtSuffix(s, [QUOTE] + w);
      ShownAtEnd(before, w);
      OccursConcat(text, open, [QUOTE] + before, Show(Str(w)));
    }
  }

  lemma ShownAtEnd(before: string, w: string)
    ensures Show(Str(before + ([QUOTE] + w))) == ([QUOTE] + before) + Show(Str(w))
  {
  }

  // ---------------------------------------------------------------------------
  // The name that is read
  // ---------------------------------------------------------------------------

  /** The string up to its first quote. */
  function BeforeQuote(s: string): string {
    var quote := FindChar(s, QUOTE, 0);
    if quote < 0 then s else s[..quote]
  }

  lemma BeforeFirstQuote(s: string, n: nat)
    requires n <= |s| && NoQuote(s[..n]) && (n < |s| ==> s[n] == QUOTE)
    ensures BeforeQuote(s) == s[..n]
  {
    assert forall i :: 0 <= i < n ==> s[i] == s[..n][i];
    if n < |s| {
      FindCharAt(s, QUOTE, 0, n);
    } else {
      FindCharAbsent(s, QUOTE, 0);
      assert s[..n] == s;
    }
  }

  lemma UpToQuote(text: string, open: nat, s: string)
    requires Occurs(text, open, Show(Str(s)))
    ensures var end := FindChar(text, QUOTE, open + 1);
            open < end <= open + |s| + 1 && text[open + 1..end] == BeforeQuote(s)
  {
    hide Occurs, FindChar, BeforeQuote;
    OccursBounds(text, open, Show(Str(s)));
    OccursAt(text, open, Show(Str(s)), |s| + 1);
    FindCharFirst(text, QUOTE, open + 1);
    var end := FindChar(text, QUOTE, open + 1);
    forall i | 0 <= i < |s| ensures text[open + 1 + i] == s[i] {
      OccursAt(text, open, Show(Str(s)), i + 1);
    }
    assert text[open + 1..end] == s[..end - open - 1];
    BeforeFirstQuote(s, end - open - 1);
  }
}
