/**
 * A type that ends in a backslash.
 *
 * The exporter prints it as it is, so the block scanner takes its closing quote for an escaped one
 * and finds no end of the feature list.
 */
module GeoJsonBackslash {
  import opened Common
  import opened GeoJsonParser
  import opened GeoJsonLexemes
  import opened GeoJsonExporter
  import opened GeoJsonCoordinates
  import opened GeoJsonProperties
  import opened GeoJsonName
  import opened GeoJsonFeatures
  import opened GeoJsonRoundTrip

  // ---------------------------------------------------------------------------
  // What the scanner makes of the text
  // ---------------------------------------------------------------------------

  lemma {:induction false} PassLetters(text: string, pos: nat, w: string, open: char, depth: int)
    requires Occurs(text, pos, w) && Letters(w) && NotEscaped(text, pos) && (open == '[' || open == '{')
    ensures pos + |w| <= |text| && NotEscaped(text, pos + |w|)
    ensures BlockEnd(text, pos, open, Closing(open), depth, false)
         == BlockEnd(text, pos + |w|, open, Closing(open), depth, false)
    decreases |w|
  {
    hide Occurs;
    OccursBounds(text, pos, w);
    if w != [] {
      OccursAt(text, pos, w, 0);
      assert w == [w[0]] + w[1..];
      OccursConcat(text, pos, [w[0]], w[1..]);
      PassLetters(text, pos + 1, w[1..], open, depth);
    }
  }

  /** A string without an end. */
  lemma {:induction false} NeverEnds(text: string, pos: nat, open: char, depth: int)
    requires pos <= |text| && forall j :: pos <= j < |text| ==> text[j] != QUOTE
    ensures BlockEnd(text, pos, open, Closing(open), depth, true) == -1
    decreases |text| - pos
  {
    if pos < |text| { NeverEnds(text, pos + 1, open, depth); }
  }

  /** A string, the word behind it, and the quote that opens the next string. */
  lemma PassTurned(text: string, pos: nat, s: string, w: string, open: char, depth: int)
    requires Occurs(text, pos, s + ([QUOTE] + (w + [QUOTE]))) && Sealed(s) && Letters(w) && (open == '[' || open == '{')
    requires pos > 0 && text[pos - 1] == QUOTE
    ensures var next := pos + |s| + |w| + 2;
            && next <= |text| && text[next - 1] == QUOTE
            && BlockEnd(text, pos, open, Closing(open), depth, true) == BlockEnd(text, next, open, Closing(open), depth, true)
  {
    hide Occurs, BlockEnd, Letters;
    var at := pos + |s|;
    OccursConcat(text, pos, s, [QUOTE] + (w + [QUOTE]));
    OccursConcat(text, at, [QUOTE], w + [QUOTE]);
    OccursConcat(text, at + 1, w, [QUOTE]);
    OccursAt(text, at, [QUOTE], 0);
    OccursAt(text, at + 1 + |w|, [QUOTE], 0);
    PassQuotedText(text, pos, s, 0, open, depth);
    EndNotEscaped(text, pos - 1, s);
    PassQuote(text, at, open, depth, true);
    PassLetters(text, at + 1, w, open, depth);
    PassQuote(text, at + 1 + |w|, open, depth, false);
  }

  /** The text from a quote on, with two words outside the strings and no further quote. */
  ghost function Turned(a: string, v: string, b: string, w: string, c: string): string {
    [QUOTE] + ((a + ([QUOTE] + (v + [QUOTE]))) + ((b + ([QUOTE] + (w + [QUOTE]))) + c))
  }

  lemma TurnedHasNoEnd(text: string, pos: nat, a: string, v: string, b: string, w: string, c: string, open: char, depth: int)
    requires IsSuffix(text, pos, Turned(a, v, b, w, c)) && NotEscaped(text, pos) && (open == '[' || open == '{')
    requires Sealed(a) && Letters(v) && Sealed(b) && Letters(w) && NoQuote(c)
    ensures BlockEnd(text, pos, open, Closing(open), depth, false) == -1
  {
    hide Occurs, BlockEnd, Letters, Sealed;
    var first, second := a + ([QUOTE] + (v + [QUOTE])), b + ([QUOTE] + (w + [QUOTE]));
    SuffixConcat(text, pos, [QUOTE], first + (second + c));
    SuffixConcat(text, pos + 1, first, second + c);
    SuffixConcat(text, pos + 1 + |first|, second, c);
    OccursAt(text, pos, [QUOTE], 0);
    PassQuote(text, pos, open, depth, false);
    PassTurned(text, pos + 1, a, v, open, depth);
    PassTurned(text, pos + 1 + |first|, b, w, open, depth);
    RestHasNoQuote(text, pos + 1 + |first| + |second|, c);
    NeverEnds(text, pos + 1 + |first| + |second|, open, depth);
  }

  lemma RestHasNoQuote(text: string, pos: nat, c: string)
    requires IsSuffix(text, pos, c) && NoQuote(c)
    ensures pos <= |text| && forall j :: pos <= j < |text| ==> text[j] != QUOTE
  {
    hide Occurs;
    OccursBounds(text, pos, c);
    forall j | pos <= j < |text| ensures text[j] != QUOTE {
      OccursAt(text, pos, c, j - pos);
    }
  }

  // ---------------------------------------------------------------------------
  // The printed feature
  // ---------------------------------------------------------------------------

  /** Up to the type. */
  ghost function BeforeType(style: Style): seq<Lexeme> {
    FeatureLead(style, true) + [Mark('{')] + FeatureHead(style) +
    [Mark('{'), Raw(NewLine(style.pretty, 4)), Str("type"), Raw(": ")]
  }

  ghost function TypeAndKey(style: Style, kind: string): seq<Lexeme> {
    [Str(kind), Raw(Separator(style.pretty, 4)), Str("coordinates")]
  }

  /** Between the two keys that follow. */
  ghost function BetweenKeys(style: Style, rows: seq<seq<real>>): seq<Lexeme> {
    [Raw(": ")] + CoordinatesBlock(style, rows) + [Raw(NewLine(style.pretty, 3)), Mark('}'), Raw(Separator(style.pretty, 3))]
  }

  /** Behind the last key, if there are no properties. */
  ghost function BehindKeys(style: Style): seq<Lexeme> {
    [Raw(": "), Mark('{'), Raw(NewLine(style.pretty, 3)), Mark('}')] + FeatureEnd(style) +
    [Raw(NewLine(style.pretty, 1)), Mark(']')] + CollectionEnd(style)
  }

  lemma StartParts(style: Style, kind: string)
    ensures FeatureLead(style, true) + FeatureStart(style, kind) == BeforeType(style) + TypeAndKey(style, kind) + [Raw(": ")]
  {
    hide NewLine, Separator, FeatureHead, FeatureLead;
  }

  lemma BridgeParts(style: Style)
    ensures FeatureBridge(style) + PropertiesBlock(style, map[]) + FeatureEnd(style)
         == [Raw(NewLine(style.pretty, 3)), Mark('}'), Raw(Separator(style.pretty, 3))] + [Str("properties")] +
            [Raw(": "), Mark('{'), Raw(NewLine(style.pretty, 3)), Mark('}')] + FeatureEnd(style)
  {
    hide NewLine, Separator, FeatureEnd;
    NoEntries(style);
  }

  lemma NoEntries(style: Style)
    ensures AllEntries(style, map[]) == []
  {
    assert SortedKeys({}) == [];
  }

  lemma OneFeatureBlock(style: Style, f: Feature)
    ensures FeaturesBlock(style, [f])
         == [Mark('[')] + (FeatureLead(style, true) + FeatureBlock(style, f)) + [Raw(NewLine(style.pretty, 1)), Mark(']')]
  {
    hide NewLine, FeatureLead, FeatureBlock;
    assert [f][1..] == [] && Features(style, [], false) == [];
  }

  lemma FeatureListParts(style: Style, f: Feature)
    requires f.properties == map[]
    ensures FeaturesBlock(style, [f]) + CollectionEnd(style)
         == [Mark('[')] + BeforeType(style) +
            (TypeAndKey(style, f.kind) + (BetweenKeys(style, f.coordinates) + ([Str("properties")] + BehindKeys(style))))
  {
    hide NewLine, Separator, CoordinatesBlock, FeatureLead, FeatureStart, FeatureBridge, FeatureEnd, CollectionEnd,
        FeaturesBlock, FeatureBlock, PropertiesBlock, BeforeType, TypeAndKey, FeatureAround, Rows, Nest;
    OneFeatureBlock(style, f);
    FeatureParts(style, f);
    StartParts(style, f.kind);
    BridgeParts(style);
    var start, coords := FeatureStart(style, f.kind), CoordinatesBlock(style, f.coordinates);
    var rest := FeatureBridge(style) + PropertiesBlock(style, map[]) + FeatureEnd(style);
    assert FeatureLead(style, true) + FeatureBlock(style, f) == (FeatureLead(style, true) + start) + coords + rest;
  }

  // ---------------------------------------------------------------------------
  // The lost feature
  // ---------------------------------------------------------------------------

  lemma RenderThree(a: Lexeme, b: Lexeme, c: Lexeme, rest: seq<Lexeme>)
    ensures Render([a, b, c] + rest) == Show(a) + (Show(b) + (Show(c) + Render(rest)))
  {
    hide Show;
    RenderConcat([a], [b] + ([c] + rest));
    RenderConcat([b], [c] + rest);
    RenderConcat([c], rest);
    RenderOne(a);
    RenderOne(b);
    RenderOne(c);
    assert [a, b, c] + rest == [a] + ([b] + ([c] + rest));
  }

  /** Everything from the type on. */
  lemma TurnedText(kind: string, separator: string, between: seq<Lexeme>, behind: seq<Lexeme>)
    ensures Render([Str(kind), Raw(separator), Str("coordinates")] + (between + ([Str("properties")] + behind)))
         == Turned(kind + ([QUOTE] + separator), "coordinates", Render(between), "properties", Render(behind))
  {
    TurnedWords(kind, separator, "coordinates", between, "properties", behind);
  }

  lemma TurnedWords(kind: string, separator: string, v: string, between: seq<Lexeme>, w: string, behind: seq<Lexeme>)
    ensures Render([Str(kind), Raw(separator), Str(v)] + (between + ([Str(w)] + behind)))
         == Turned(kind + ([QUOTE] + separator), v, Render(between), w, Render(behind))
  {
    hide Render, Show, Turned;
    RenderThree(Str(kind), Raw(separator), Str(v), between + ([Str(w)] + behind));
    RenderConcat(between, [Str(w)] + behind);
    RenderConcat([Str(w)], behind);
    RenderOne(Str(w));
    Regrouped(kind, separator, v, Render(between), w, Render(behind));
  }

  lemma Regrouped(kind: string, separator: string, v: string, b: string, w: string, c: string)
    ensures Show(Str(kind)) + (Show(Raw(separator)) + (Show(Str(v)) + (b + (Show(Str(w)) + c))))
         == Turned(kind + ([QUOTE] + separator), v, b, w, c)
  {
    hide Show;
    var shownV, shownW := [QUOTE] + (v + [QUOTE]), [QUOTE] + (w + [QUOTE]);
    ShownIs(v);
    ShownIs(w);
    Associative(b, shownW, c);
    var z := b + (shownW + c);
    Associative(kind + ([QUOTE] + separator), shownV, z);
    Associative(kind, [QUOTE] + separator, shownV + z);
    Associative([QUOTE], separator, shownV + z);
    ShownThen(kind, separator + (shownV + z));
    ShowRaw(separator);
  }

  lemma ShownIs(s: string)
    ensures Show(Str(s)) == [QUOTE] + (s + [QUOTE])
  {
  }

  lemma ShownThen(s: string, rest: string)
    ensures Show(Str(s)) + rest == [QUOTE] + (s + ([QUOTE] + rest))
  {
  }

  predicate NoStrings(ls: seq<Lexeme>) {
    forall i :: 0 <= i < |ls| ==> !ls[i].Str? && Passable(ls[i])
  }

  lemma {:induction false} NoStringsNoQuotes(ls: seq<Lexeme>)
    requires NoStrings(ls)
    ensures NoQuote(Render(ls)) && Lacks(Render(ls), BACKSLASH)
  {
    hide Passable;
    if ls != [] {
      NoStringsNoQuotes(ls[1..]);
      OneHasNoQuote(ls[0]);
    }
  }

  lemma OneHasNoQuote(l: Lexeme)
    requires !l.Str? && Passable(l)
    ensures NoQuote(Show(l)) && Lacks(Show(l), BACKSLASH)
  {
  }

  lemma KeysNoStrings(style: Style, round: real -> real, rows: seq<seq<real>>)
    requires Faithful(style.format, round)
    ensures NoStrings(BetweenKeys(style, rows)) && NoStrings(BehindKeys(style))
  {
    hide NewLine, Separator, CoordinatesBlock, Faithful, Plain, Sealed;
    CoordinatesShape(style, round, rows);
    Layout(style.pretty, 0);
    Layout(style.pretty, 1);
    Layout(style.pretty, 2);
    Layout(style.pretty, 3);
    ColonIsPlain();
  }

  lemma BeforeTypeShape(style: Style)
    ensures AllPassable(BeforeType(style)) && Flat(BeforeType(style), '[')
  {
    hide NewLine, FeatureLead, FeatureHead, Plain, Sealed;
    LeadIsSound(style, true);
    HeadIsSound(style);
    TypeIsPassable();
    Layout(style.pretty, 4);
  }

  lemma HeadIsSound(style: Style)
    ensures NoBrackets(FeatureHead(style))
  {
    StartIsSound(style, "");
  }

  lemma TypeIsPassable()
    ensures Passable(Str("type")) && Passable(Raw(": "))
  {
    hide Sound;
    WordsAreSound();
    SoundIsPassable([Str("type"), Raw(": ")]);
    assert [Str("type"), Raw(": ")][0] == Str("type") && [Str("type"), Raw(": ")][1] == Raw(": ");
  }

  lemma EscapedIsSealed(kind: string, separator: string)
    requires NoQuote(kind) && kind != "" && kind[|kind| - 1] == BACKSLASH && Plain(separator)
    ensures Sealed(kind + ([QUOTE] + separator))
  {
  }

  lemma LacksIsSealed(s: string)
    requires NoQuote(s) && Lacks(s, BACKSLASH)
    ensures Sealed(s)
  {
  }

  /** The scanner finds no end of the feature list. */
  lemma ListHasNoEnd(style: Style, round: real -> real, f: Feature, text: string, pos: nat)
    requires Faithful(style.format, round) && f.properties == map[]
    requires NoQuote(f.kind) && f.kind != "" && f.kind[|f.kind| - 1] == BACKSLASH
    requires IsSuffix(text, pos, Render(FeaturesBlock(style, [f]) + CollectionEnd(style)))
    ensures Block(text, pos) == ""
  {
    hide Occurs, Render, NewLine, Separator, BeforeType, BetweenKeys, BehindKeys, FeaturesBlock, CollectionEnd, Faithful,
        BlockEnd, Turned, Sealed, NoQuote, AllPassable, Walk, Letters, Flat, Lacks, Plain;
    var separator := Separator(style.pretty, 4);
    var before, between, behind := BeforeType(style), BetweenKeys(style, f.coordinates), BehindKeys(style);
    var rest := TypeAndKey(style, f.kind) + (between + ([Str("properties")] + behind));
    FeatureListParts(style, f);
    RenderConcat([Mark('[')] + before, rest);
    RenderConcat([Mark('[')], before);
    RenderOne(Mark('['));
    ShowMark('[');
    TurnedText(f.kind, separator, between, behind);
    SuffixConcat(text, pos, ['['] + Render(before), Render(rest));
    OccursConcat(text, pos, ['['], Render(before));
    OccursAt(text, pos, ['['], 0);
    BeforeTypeShape(style);
    WalkFlat(before, '[', 1);
    PassLexemes(text, pos + 1, before, '[', 1);
    KeysNoStrings(style, round, f.coordinates);
    NoStringsNoQuotes(between);
    NoStringsNoQuotes(behind);
    LacksIsSealed(Render(between));
    Layout(style.pretty, 4);
    EscapedIsSealed(f.kind, separator);
    KeysAreLetters();
    TurnedHasNoEnd(text, pos + 1 + |Render(before)|, f.kind + ([QUOTE] + separator), "coordinates", Render(between),
                   "properties", Render(behind), '[', 1);
    NoBlock(text, pos);
  }

  lemma KeysAreLetters()
    ensures Letters("coordinates") && Letters("properties")
  {
  }

  lemma NoBlock(text: string, pos: nat)
    requires pos < |text| && text[pos] == '[' && BlockEnd(text, pos + 1, '[', ']', 1, false) == -1
    ensures Block(text, pos) == ""
  {
    assert SkipSpaces(text, pos) == pos;
  }

  lemma SuffixAt(ls: seq<Lexeme>, k: nat)
    requires k <= |ls|
    ensures IsSuffix(Render(ls), Offset(ls, k), Render(ls[k..]))
  {
    hide Render;
    assert ls[..k] + ls[k..] == ls;
    RenderConcat(ls[..k], ls[k..]);
    OccursWhole(Render(ls[..k]), Render(ls[k..]), "");
    assert Render(ls[..k]) + Render(ls[k..]) + "" == Render(ls);
  }

  /**
   * A single feature without properties is lost if its type ends in a backslash, whatever the type,
   * the coordinates and the name of the collection.
   */
  lemma BackslashTypeIsLost(style: Style, round: real -> real, name: string, f: Feature)
    requires Faithful(style.format, round) && !ShowsKey(name, "features") && f.properties == map[]
    requires NoQuote(f.kind) && f.kind != "" && f.kind[|f.kind| - 1] == BACKSLASH
    ensures Parsed(style.format, Export(style, Collection(name, [f]))).features == []
  {
    hide Render, Offset, InQuotes, FindText, FindChar, Block, Faithful, Lacks, Show, NoQuote, Occurs, Clean, ShowsKey,
         CollectionStart, CollectionEnd, FeaturesBlock, FeatureTexts, FeaturesOf, Escape, Findable, NewLine, CollectionName;
    var c := Collection(name, [f]);
    var ls, text := CollectionLexemes(style, c), Export(style, c);
    CollectionParts(style, c);
    CollectionKeys(style, c);
    CollectionStartIsFindable(style, round, c);
    CollectionLacks(style, c);
    FeaturesIsClean();
    SearchStartsAtName(style, round, c);
    SearchAtName(text, Offset(ls, 8), name, "features");
    assert forall i :: 0 <= i < 18 ==> ls[i] == CollectionStart(style, c)[i];
    assert ls[18..] == FeaturesBlock(style, [f]) + CollectionEnd(style);
    OpensWithBracket(style, [f]);
    assert ls[18] == Mark('[');
    FindKey(ls, 9, 16, "features");
    ShowMark('[');
    FindMark(ls, 16, 18, '[');
    SuffixAt(ls, 18);
    ListHasNoEnd(style, round, f, text, Offset(ls, 18));
    ShowKey("features");
    NothingInEmpty(style.format);
  }

  lemma OpensWithBracket(style: Style, fs: seq<Feature>)
    ensures FeaturesBlock(style, fs) != [] && FeaturesBlock(style, fs)[0] == Mark('[')
  {
    hide Features, NewLine;
  }

  lemma NothingInEmpty(format: NumberFormat)
    ensures FeaturesOf(format, FeatureTexts("")) == []
  {
    assert Trim("") == "";
  }
}
