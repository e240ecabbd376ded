/**
 * Printed features: one by one, and in a list.
 *
 * The coordinates may be any list of numbers and lists, so that what is said here holds for the
 * features that GeoJsonExporter prints and for those of other programs.
 */
module GeoJsonFeatures {
  import opened Common
  import opened GeoJsonParser
  import opened GeoJsonLexemes
  import opened GeoJsonExporter
  import opened GeoJsonCoordinates
  import opened GeoJsonProperties

  // ---------------------------------------------------------------------------
  // One feature
  // ---------------------------------------------------------------------------

  /** The lexemes of a feature up to its coordinates. */
  ghost function FeatureStart(style: Style, kind: string): (ls: seq<Lexeme>)
    ensures |ls| == 16
  {
    [Mark('{')] + FeatureHead(style) + [Mark('{')] + GeometryHead(style, kind)
  }

  /** Between the coordinates and the properties. */
  ghost function FeatureBridge(style: Style): (ls: seq<Lexeme>)
    ensures |ls| == 5
  {
    [Raw(NewLine(style.pretty, 3)), Mark('}')] + FeatureMiddle(style)
  }

  ghost function FeatureEnd(style: Style): seq<Lexeme> {
    [Raw(NewLine(style.pretty, 2)), Mark('}')]
  }

  /** A printed feature with any coordinates. */
  ghost function FeatureAround(style: Style, kind: string, inner: seq<Lexeme>, props: map<string, string>): seq<Lexeme> {
    FeatureStart(style, kind) + Nest('[', inner) + FeatureBridge(style) + PropertiesBlock(style, props) + FeatureEnd(style)
  }

  /** Numbers, separators and brackets that match. */
  ghost predicate IsList(inner: seq<Lexeme>) {
    OnlyBrackets(inner) && Balanced(inner, '[')
  }

  lemma FeatureParts(style: Style, f: Feature)
    ensures FeatureBlock(style, f) == FeatureAround(style, f.kind, Rows(style, f.coordinates, true), f.properties)
    ensures FeatureBlock(style, f) == FeatureStart(style, f.kind) + CoordinatesBlock(style, f.coordinates) +
                                      FeatureBridge(style) + PropertiesBlock(style, f.properties) + FeatureEnd(style)
  {
    hide NewLine, Separator, FeatureHead, GeometryHead, FeatureMiddle, Rows, PropertiesBlock;
  }

  /** The keys and brackets of the start. */
  lemma StartKeys(style: Style, kind: string)
    ensures var ls := FeatureStart(style, kind);
            && ls[6] == Str("geometry") && ls[10] == Str("type") && ls[11] == Raw(": ") && ls[12] == Str(kind)
            && ls[14] == Str("coordinates") && ls[15] == Raw(": ")
  {
    hide NewLine, Separator;
  }

  lemma StartKeysDiffer(style: Style, kind: string)
    ensures var ls := FeatureStart(style, kind);
            && (forall i :: 0 <= i < 6 ==> ls[i] != Str("geometry"))
            && (forall i :: 6 <= i < 10 ==> ls[i] != Str("type"))
            && (forall i :: 6 <= i < 14 ==> i != 12 ==> ls[i] != Str("coordinates"))
            && (forall i :: 0 <= i < 16 ==> i != 12 ==> ls[i] != Str("properties"))
  {
    hide NewLine, Separator;
  }

  /** The words that the printer writes. */
  lemma WordsAreSound()
    ensures Sound(Raw(": ")) && Sound(Str("type")) && Sound(Str("Feature")) && Sound(Str("geometry"))
    ensures Sound(Str("coordinates")) && Sound(Str("properties")) && Sound(Str("FeatureCollection"))
    ensures Sound(Str("name")) && Sound(Str("bbox")) && Sound(Str("features"))
    ensures Lacks("type", ':') && Lacks("name", ':')
  {
    hide Sound;
    LettersAreSound("type");
    LettersAreSound("Feature");
    LettersAreSound("geometry");
    LettersAreSound("coordinates");
    LettersAreSound("properties");
    LettersAreSound("FeatureCollection");
    LettersAreSound("name");
    LettersAreSound("bbox");
    LettersAreSound("features");
    SoundColon();
  }

  predicate Letters(w: string) {
    forall i :: 0 <= i < |w| ==> IsLetter(w[i])
  }

  lemma LettersAreSound(w: string)
    requires Letters(w)
    ensures Sound(Str(w)) && Lacks(w, ':')
  {
  }

  lemma SoundColon()
    ensures Sound(Raw(": "))
  {
  }

  lemma SoundString(s: string)
    requires Quotable(s)
    ensures Sound(Str(s))
  {
  }

  lemma StartIsSound(style: Style, kind: string)
    requires Quotable(kind)
    ensures AllSound(FeatureStart(style, kind))
    ensures AllSound(FeatureHead(style)) && AllSound(GeometryHead(style, kind))
    ensures NoBrackets(FeatureHead(style)) && NoBrackets(GeometryHead(style, kind))
  {
    hide NewLine, Separator, Quotable, Sealed, Plain;
    WordsAreSound();
    SoundString(kind);
    Layout(style.pretty, 3);
    Layout(style.pretty, 4);
    SoundIsPassable(FeatureHead(style));
    SoundIsPassable(GeometryHead(style, kind));
  }

  lemma BridgeIsSound(style: Style)
    ensures AllSound(FeatureBridge(style)) && NoBrackets(FeatureMiddle(style))
    ensures FeatureBridge(style)[3] == Str("properties") && FeatureBridge(style)[4] == Raw(": ")
    ensures forall i :: 0 <= i < 3 ==> FeatureBridge(style)[i] != Str("properties")
  {
    hide NewLine, Separator, Quotable, Sealed, Plain;
    WordsAreSound();
    Layout(style.pretty, 3);
    SoundIsPassable(FeatureBridge(style));
    SoundIsPassable(FeatureMiddle(style));
  }

  // ---------------------------------------------------------------------------
  // The brackets of a feature
  // ---------------------------------------------------------------------------

  ghost function GeometryLexemes(style: Style, kind: string, inner: seq<Lexeme>): seq<Lexeme> {
    Nest('{', GeometryHead(style, kind) + Nest('[', inner) + [Raw(NewLine(style.pretty, 3))])
  }

  lemma GeometryShape(style: Style, kind: string, inner: seq<Lexeme>)
    requires Quotable(kind) && IsList(inner)
    ensures AllPassable(GeometryLexemes(style, kind, inner))
    ensures Balanced(GeometryLexemes(style, kind, inner), '{') && Balanced(GeometryLexemes(style, kind, inner), '[')
  {
    hide NewLine, Balanced, GeometryHead, Quotable, Sealed, OnlyBrackets;
    var head, coords, end := GeometryHead(style, kind), Nest('[', inner), [Raw(NewLine(style.pretty, 3))];
    StartIsSound(style, kind);
    ListNested(inner);
    OnlyBracketsIsFlat(coords);
    SoundIsPassable(coords);
    Layout(style.pretty, 3);
    BalancedParts(head, coords, end, '{');
    BalancedParts(head, coords, end, '[');
    NestBalanced(head + coords + end, '{');
    OtherNestBalanced(head + coords + end);
  }

  lemma ListNested(inner: seq<Lexeme>)
    requires IsList(inner)
    ensures IsList(Nest('[', inner))
  {
    hide Balanced;
    NestBalanced(inner, '[');
  }

  lemma BalancedParts(head: seq<Lexeme>, middle: seq<Lexeme>, end: seq<Lexeme>, open: char)
    requires NoBrackets(head) && Balanced(middle, open) && NoBrackets(end)
    ensures Balanced(head + middle + end, open)
  {
    hide Balanced;
    NoBracketsIsFlat(head, open);
    NoBracketsIsFlat(end, open);
    ConcatBalanced(head, middle, open);
    ConcatBalanced(head + middle, end, open);
  }

  /** Braces do not count as brackets. */
  lemma OtherNestBalanced(ls: seq<Lexeme>)
    requires Balanced(ls, '[')
    ensures Balanced(Nest('{', ls), '[')
  {
    hide Balanced;
    FlatIsBalanced([Mark('{')], '[');
    FlatIsBalanced([Mark('}')], '[');
    ConcatBalanced([Mark('{')], ls, '[');
    ConcatBalanced([Mark('{')] + ls, [Mark('}')], '[');
  }

  lemma PropertiesBlockShape(style: Style, props: map<string, string>)
    requires PrintableProperties(props)
    ensures AllPassable(PropertiesBlock(style, props))
    ensures Balanced(PropertiesBlock(style, props), '{') && Balanced(PropertiesBlock(style, props), '[')
  {
    hide Balanced, AllEntries, NewLine;
    var inner := PropertiesInner(style, props);
    PropertiesShape(style, props);
    NoBracketsIsFlat(inner, '{');
    NoBracketsIsFlat(inner, '[');
    NestBalanced(inner, '{');
    OtherNestBalanced(inner);
  }

  /** Everything between the braces of a feature. */
  ghost function AroundInner(style: Style, kind: string, inner: seq<Lexeme>, props: map<string, string>): seq<Lexeme> {
    FeatureHead(style) + GeometryLexemes(style, kind, inner) + FeatureMiddle(style) + PropertiesBlock(style, props) +
    [Raw(NewLine(style.pretty, 2))]
  }

  lemma AroundInnerBalanced(style: Style, kind: string, inner: seq<Lexeme>, props: map<string, string>, open: char)
    requires Quotable(kind) && IsList(inner) && PrintableProperties(props) && (open == '[' || open == '{')
    ensures Balanced(AroundInner(style, kind, inner, props), open)
  {
    hide NewLine, Balanced, FeatureHead, FeatureMiddle, GeometryLexemes, PropertiesBlock, Quotable, Sealed, IsList;
    StartIsSound(style, kind);
    BridgeIsSound(style);
    GeometryShape(style, kind, inner);
    PropertiesBlockShape(style, props);
    Layout(style.pretty, 2);
    var geometry := GeometryLexemes(style, kind, inner);
    BalancedParts(FeatureHead(style), geometry, FeatureMiddle(style), open);
    NoBracketsIsFlat([Raw(NewLine(style.pretty, 2))], open);
    ConcatBalanced(FeatureHead(style) + geometry + FeatureMiddle(style), PropertiesBlock(style, props), open);
    ConcatBalanced(FeatureHead(style) + geometry + FeatureMiddle(style) + PropertiesBlock(style, props),
                   [Raw(NewLine(style.pretty, 2))], open);
  }

  /** An object that the scanner of the feature list takes as a whole. */
  ghost predicate IsObject(block: seq<Lexeme>) {
    exists inner :: block == Nest('{', inner) && AllPassable(inner) && Balanced(inner, '{') && Balanced(block, '[')
  }

  lemma AroundIsNest(style: Style, kind: string, inner: seq<Lexeme>, props: map<string, string>)
    ensures FeatureAround(style, kind, inner, props) == Nest('{', AroundInner(style, kind, inner, props))
  {
    hide NewLine, Separator, FeatureHead, GeometryHead, FeatureMiddle, PropertiesBlock;
  }

  lemma AroundIsObject(style: Style, kind: string, inner: seq<Lexeme>, props: map<string, string>)
    requires Quotable(kind) && IsList(inner) && PrintableProperties(props)
    ensures IsObject(FeatureAround(style, kind, inner, props))
  {
    hide NewLine, Balanced, FeatureHead, FeatureMiddle, GeometryLexemes, PropertiesBlock, Quotable, Sealed, IsList,
         FeatureAround;
    var all := AroundInner(style, kind, inner, props);
    AroundIsNest(style, kind, inner, props);
    AroundPassable(style, kind, inner, props);
    AroundInnerBalanced(style, kind, inner, props, '{');
    AroundInnerBalanced(style, kind, inner, props, '[');
    OtherNestBalanced(all);
  }

  lemma AroundPassable(style: Style, kind: string, inner: seq<Lexeme>, props: map<string, string>)
    requires Quotable(kind) && IsList(inner) && PrintableProperties(props)
    ensures AllPassable(AroundInner(style, kind, inner, props))
  {
    hide NewLine, Balanced, FeatureHead, FeatureMiddle, GeometryLexemes, PropertiesBlock, Quotable, Sealed, IsList;
    StartIsSound(style, kind);
    BridgeIsSound(style);
    GeometryShape(style, kind, inner);
    PropertiesBlockShape(style, props);
    Layout(style.pretty, 2);
  }

  // ---------------------------------------------------------------------------
  // Reading a feature
  // ---------------------------------------------------------------------------

  lemma KindIsRead(style: Style, kind: string, inner: seq<Lexeme>, props: map<string, string>)
    requires Quotable(kind)
    ensures var ls := FeatureAround(style, kind, inner, props); var text := Render(ls);
            && GeometryKind(text) == kind
            && FindText(text, InQuotes("geometry"), 0) == Offset(ls, 6)
  {
    hide Render, NewLine, FindText, InQuotes, PropertiesBlock, FeatureBridge, FeatureEnd, Offset, FeatureStart;
    var ls := FeatureAround(style, kind, inner, props);
    StartKeys(style, kind);
    StartKeysDiffer(style, kind);
    StartIsSound(style, kind);
    WordsAreSound();
    FromStart(ls);
    assert forall i :: 0 <= i < 16 ==> ls[i] == FeatureStart(style, kind)[i];
    FindKey(ls, 0, 6, "geometry");
    FindKey(ls, 6, 10, "type");
    ShowKey("geometry");
    ShowKey("type");
    ReadValue(ls, 10, "type", kind, "");
  }

  lemma FromStart(ls: seq<Lexeme>)
    ensures Offset(ls, 0) == 0
  {
  }

  /** What stands between the keys and the brackets after them has no bracket. */
  lemma StartLacks(style: Style, kind: string, c: char)
    requires c == '[' || c == '{'
    ensures var ls := FeatureStart(style, kind);
            && (forall i :: 13 <= i < 16 ==> Lacks(Show(ls[i]), c))
            && (kind == "coordinates" || kind == "properties" ==> Lacks(Show(ls[12]), c))
  {
    hide NewLine, Separator, Lacks, Plain, Show;
    Layout(style.pretty, 4);
    ColonIsPlain();
    StartKeys(style, kind);
    PlainLacks(Separator(style.pretty, 4), c);
    PlainLacks(": ", c);
    WordLacks("coordinates", c);
    WordLacks("properties", c);
    assert FeatureStart(style, kind)[13] == Raw(Separator(style.pretty, 4));
  }

  lemma ColonIsPlain()
    ensures Plain(": ")
  {
  }

  lemma PlainLacks(s: string, c: char)
    requires Plain(s) && IsMark(c)
    ensures Lacks(Show(Raw(s)), c)
  {
  }

  lemma WordLacks(w: string, c: char)
    requires Letters(w) && IsMark(c)
    ensures Lacks(Show(Str(w)), c)
  {
  }

  /** The coordinates that the parser looks for: the first such string, the kind or the key. */
  function CoordinatesKey(kind: string): nat {
    if kind == "coordinates" then 12 else 14
  }

  /** A search for a bracket, then for the block. */
  lemma MarkThenBlock(pre: seq<Lexeme>, open: char, inner: seq<Lexeme>, post: seq<Lexeme>, k: nat)
    requires k <= |pre| && forall i :: k <= i < |pre| ==> Lacks(Show(pre[i]), open)
    requires (open == '[' || open == '{') && AllPassable(inner) && Balanced(inner, open)
    ensures var ls := pre + Nest(open, inner) + post; var text := Render(ls);
            && FindChar(text, open, Offset(ls, k)) == Offset(ls, |pre|)
            && Block(text, Offset(ls, |pre|)) == Render(Nest(open, inner))
  {
    hide Render, FindChar, Block, Lacks, Balanced, Show, Occurs, Findable, Sound, NoQuote;
    var ls := pre + Nest(open, inner) + post;
    assert forall i :: 0 <= i < |pre| ==> ls[i] == pre[i];
    assert ls[|pre|] == Mark(open);
    assert ls[..|pre|] == pre;
    ShowMark(open);
    FindMark(ls, k, |pre|, open);
    BalancedAtOne(inner, open);
    BlockInText(pre, open, inner, post);
  }

  /** A search for a key, then for the bracket after it, then for the block. */
  lemma KeyThenBlock(pre: seq<Lexeme>, open: char, inner: seq<Lexeme>, post: seq<Lexeme>, from: nat, k: nat, w: string)
    requires IsWord(w) && from <= k < |pre| && pre[k] == Str(w)
    requires forall i :: from <= i < k ==> Findable(pre[i]) && pre[i] != Str(w)
    requires forall i :: k <= i < |pre| ==> Lacks(Show(pre[i]), open)
    requires (open == '[' || open == '{') && AllPassable(inner) && Balanced(inner, open)
    ensures var ls := pre + Nest(open, inner) + post; var text := Render(ls);
            && FindText(text, Show(Str(w)), Offset(ls, from)) == Offset(ls, k)
            && FindChar(text, open, Offset(ls, k)) == Offset(ls, |pre|)
            && Block(text, Offset(ls, |pre|)) == Render(Nest(open, inner))
  {
    hide Render, FindText, FindChar, Block, Lacks, Balanced, Show, Occurs, Findable, Sound, NoQuote;
    var ls := pre + Nest(open, inner) + post;
    assert forall i :: 0 <= i < |pre| ==> ls[i] == pre[i];
    FindKey(ls, from, k, w);
    MarkThenBlock(pre, open, inner, post, k);
  }

  lemma CoordinatesAreFound(style: Style, kind: string, inner: seq<Lexeme>, props: map<string, string>)
    requires Quotable(kind) && IsList(inner)
    ensures var ls := FeatureAround(style, kind, inner, props); var text := Render(ls);
            var key := FindText(text, InQuotes("coordinates"), Offset(ls, 6));
            && key >= 0 && FindChar(text, '[', key) >= 0
            && Block(text, FindChar(text, '[', key)) == Render(Nest('[', inner))
  {
    hide Render, Offset, InQuotes, NewLine, FindText, FindChar, Block, PropertiesBlock, FeatureBridge, FeatureEnd,
         FeatureStart, Lacks, Balanced, Show, Quotable, Sealed;
    var start := FeatureStart(style, kind);
    var post := FeatureBridge(style) + PropertiesBlock(style, props) + FeatureEnd(style);
    assert FeatureAround(style, kind, inner, props) == start + Nest('[', inner) + post;
    StartKeys(style, kind);
    StartKeysDiffer(style, kind);
    StartIsSound(style, kind);
    StartLacks(style, kind, '[');
    ShowKey("coordinates");
    CoordinatesIsWord();
    OnlyBracketsIsFlat(inner);
    SoundIsPassable(inner);
    KeyThenBlock(start, '[', inner, post, 6, CoordinatesKey(kind), "coordinates");
  }

  lemma CoordinatesIsWord()
    ensures IsWord("coordinates") && IsWord("properties") && IsWord("features")
  {
  }

  lemma BalancedAtOne(ls: seq<Lexeme>, open: char)
    requires Balanced(ls, open)
    ensures Walk(ls, open, 1) == 1
  {
  }

  lemma ShowMark(c: char)
    ensures Show(Mark(c)) == [c]
  {
  }

  lemma ShowKey(w: string)
    ensures Show(Str(w)) == InQuotes(w)
  {
  }

  /** Up to and with the blank before the properties. */
  ghost function BeforeProperties(style: Style, kind: string, inner: seq<Lexeme>): seq<Lexeme> {
    FeatureStart(style, kind) + Nest('[', inner) + FeatureBridge(style)
  }

  lemma BeforePropertiesKeys(style: Style, kind: string, inner: seq<Lexeme>)
    requires Quotable(kind) && IsList(inner)
    ensures var ls := BeforeProperties(style, kind, inner); var k := |ls| - 2;
            && k > 16 && ls[k] == Str("properties") && ls[12] == Str(kind)
            && AllSound(ls) && (forall i :: 0 <= i < k ==> i != 12 ==> ls[i] != Str("properties"))
            && (kind == "properties" ==> forall i :: 12 <= i < |ls| ==> Lacks(Show(ls[i]), '{'))
            && Lacks(Show(ls[k]), '{') && Lacks(Show(ls[k + 1]), '{')
  {
    hide NewLine, FeatureBridge, FeatureStart, Lacks, Balanced, Show;
    var start, coords, bridge := FeatureStart(style, kind), Nest('[', inner), FeatureBridge(style);
    StartKeys(style, kind);
    StartKeysDiffer(style, kind);
    StartIsSound(style, kind);
    StartLacks(style, kind, '{');
    ListNested(inner);
    OnlyBracketsIsFlat(coords);
    BridgeIsSound(style);
    BridgeLacks(style);
    assert forall i :: 0 <= i < 16 ==> (start + coords + bridge)[i] == start[i];
    assert forall i :: 0 <= i < |coords| ==> (start + coords + bridge)[16 + i] == coords[i];
    assert forall i :: 0 <= i < 5 ==> (start + coords + bridge)[16 + |coords| + i] == bridge[i];
    var ls, k := BeforeProperties(style, kind, inner), |BeforeProperties(style, kind, inner)| - 2;
    forall i | 0 <= i < |ls| ensures Sound(ls[i])
    {
      WhereIs(i, |coords|);
    }
    forall i | 0 <= i < k && i != 12 ensures ls[i] != Str("properties")
    {
      WhereIs(i, |coords|);
    }
    if kind == "properties" {
      forall i | 12 <= i < |ls| ensures Lacks(Show(ls[i]), '{')
      {
        WhereIs(i, |coords|);
      }
    }
  }

  lemma WhereIs(i: nat, n: nat)
    requires i < 16 + n + 5
    ensures i < 16 || (16 <= i < 16 + n && i == 16 + (i - 16)) || (0 <= i - 16 - n < 5 && i == 16 + n + (i - 16 - n))
  {
  }

  lemma BridgeLacks(style: Style)
    ensures forall i :: 0 <= i < 5 ==> Lacks(Show(FeatureBridge(style)[i]), '{')
  {
    hide NewLine, Separator, Lacks;
    Layout(style.pretty, 3);
    PlainLacks(NewLine(style.pretty, 3), '{');
    PlainLacks(Separator(style.pretty, 3), '{');
    PlainLacks(": ", '{');
    WordLacks("properties", '{');
    assert Lacks(Show(Mark('}')), '{') by { MarkLacks('}', '{'); }
  }

  lemma MarkLacks(c: char, d: char)
    requires c != d
    ensures Lacks(Show(Mark(c)), d)
  {
  }

  /** What the parser makes of printed properties. */
  ghost function ReadBack(style: Style, props: map<string, string>): map<string, string> {
    Properties(Render(PropertiesBlock(style, props)))
  }

  lemma PropertiesAreFound(style: Style, kind: string, inner: seq<Lexeme>, props: map<string, string>)
    requires Quotable(kind) && IsList(inner) && PrintableProperties(props)
    ensures FeatureProperties(Render(FeatureAround(style, kind, inner, props))) == ReadBack(style, props)
  {
    hide Render, Offset, InQuotes, NewLine, FindText, FindChar, Block, FeatureEnd, Lacks, Balanced, Show,
         BeforeProperties, AllEntries, Properties, FeatureAround, IsList;
    var pre, entries := BeforeProperties(style, kind, inner), PropertiesInner(style, props);
    FeatureAroundProperties(style, kind, inner, props);
    BeforePropertiesKeys(style, kind, inner);
    ShowKey("properties");
    CoordinatesIsWord();
    PropertiesShape(style, props);
    NoBracketsIsFlat(entries, '{');
    KeyThenBlock(pre, '{', entries, FeatureEnd(style), 0, if kind == "properties" then 12 else |pre| - 2, "properties");
    FromStart(FeatureAround(style, kind, inner, props));
  }

  lemma FeatureAroundProperties(style: Style, kind: string, inner: seq<Lexeme>, props: map<string, string>)
    ensures FeatureAround(style, kind, inner, props)
         == BeforeProperties(style, kind, inner) + Nest('{', PropertiesInner(style, props)) + FeatureEnd(style)
  {
    hide FeatureStart, FeatureBridge, FeatureEnd;
  }

  /** The three parts of a feature are read from their own places. */
  lemma FeatureAroundIsRead(style: Style, kind: string, inner: seq<Lexeme>, props: map<string, string>)
    requires Quotable(kind) && IsList(inner) && PrintableProperties(props)
    ensures FeatureOf(style.format, Render(FeatureAround(style, kind, inner, props)))
         == Feature(kind, CoordinatesOf(style.format, kind, Render(Nest('[', inner))), ReadBack(style, props))
  {
    hide Render, FindText, FindChar, Block, FeatureAround, FeatureProperties, ReadBack, CoordinatesOf, GeometryKind,
         Offset, IsList, PrintableProperties, Quotable;
    KindIsRead(style, kind, inner, props);
    CoordinatesAreFound(style, kind, inner, props);
    PropertiesAreFound(style, kind, inner, props);
  }

  // ---------------------------------------------------------------------------
  // The list of features
  // ---------------------------------------------------------------------------

  ghost function FeatureList(style: Style, blocks: seq<seq<Lexeme>>, first: bool): seq<Lexeme> {
    if blocks == [] then [] else FeatureLead(style, first) + blocks[0] + FeatureList(style, blocks[1..], false)
  }

  ghost function RenderAll(blocks: seq<seq<Lexeme>>): (texts: seq<string>)
    ensures |texts| == |blocks| && forall i :: 0 <= i < |blocks| ==> texts[i] == Render(blocks[i])
  {
    if blocks == [] then [] else [Render(blocks[0])] + RenderAll(blocks[1..])
  }

  lemma {:induction false} SkipBlank(text: string, pos: nat, s: string)
    requires Occurs(text, pos, s) && Blank(s)
    ensures SkipSpaces(text, pos) == SkipSpaces(text, pos + |s|)
    decreases |s|
  {
    if s != [] {
      OccursAt(text, pos, s, 0);
      assert s == [s[0]] + s[1..];
      OccursConcat(text, pos, [s[0]], s[1..]);
      SkipBlank(text, pos + 1, s[1..]);
    }
  }

  /** The features from some one on, and the blanks before the closing bracket. */
  ghost function ListText(style: Style, blocks: seq<seq<Lexeme>>, first: bool, tail: string): string {
    Render(FeatureList(style, blocks, first) + [Raw(tail)])
  }

  lemma ListTextSplit(style: Style, blocks: seq<seq<Lexeme>>, first: bool, tail: string)
    ensures blocks == [] ==> ListText(style, blocks, first, tail) == tail
    ensures blocks != [] ==>
              ListText(style, blocks, first, tail)
              == (if first then "" else ",") + (NewLine(style.pretty, 2) + (Render(blocks[0])
                                                                            + ListText(style, blocks[1..], false, tail)))
  {
    hide Render, NewLine;
    if blocks == [] {
      RenderOne(Raw(tail));
      assert FeatureList(style, blocks, first) + [Raw(tail)] == [Raw(tail)];
    } else {
      var lead, block, rest := FeatureLead(style, first), blocks[0], FeatureList(style, blocks[1..], false) + [Raw(tail)];
      assert FeatureList(style, blocks, first) + [Raw(tail)] == lead + (block + rest);
      RenderConcat(lead, block + rest);
      RenderConcat(block, rest);
      RenderOne(lead[0]);
      Associative(if first then "" else ",", NewLine(style.pretty, 2), Render(block) + Render(rest));
    }
  }

  ghost predicate AllObjects(blocks: seq<seq<Lexeme>>) {
    forall i :: 0 <= i < |blocks| ==> IsObject(blocks[i])
  }

  lemma {:induction false} ReadList(style: Style, blocks: seq<seq<Lexeme>>, first: bool, tail: string, inner: string, pos: nat)
    requires AllObjects(blocks) && Blank(tail) && IsSuffix(inner, pos, ListText(style, blocks, first, tail))
    ensures FeaturesFrom(inner, pos) == RenderAll(blocks)
    decreases |blocks|
  {
    hide Occurs, NewLine, ListText, FeaturesFrom, Render, IsObject;
    ListTextSplit(style, blocks, first, tail);
    if blocks == [] {
      NoFeaturesLeft(inner, pos, tail);
    } else {
      var comma, lead := if first then "" else ",", NewLine(style.pretty, 2);
      var block, rest := Render(blocks[0]), ListText(style, blocks[1..], false, tail);
      SuffixConcat(inner, pos, comma, lead + (block + rest));
      SuffixConcat(inner, pos + |comma|, lead, block + rest);
      SuffixConcat(inner, pos + |comma| + |lead|, block, rest);
      Layout(style.pretty, 2);
      PassLead(inner, pos, comma, lead);
      OneObject(blocks[0], inner, pos + |comma| + |lead|);
      ReadList(style, blocks[1..], false, tail, inner, pos + |comma| + |lead| + |block|);
    }
  }

  lemma NoFeaturesLeft(inner: string, pos: nat, tail: string)
    requires IsSuffix(inner, pos, tail) && Blank(tail)
    ensures FeaturesFrom(inner, pos) == []
  {
    SkipBlank(inner, pos, tail);
  }

  lemma PassLead(inner: string, pos: nat, comma: string, lead: string)
    requires (comma == "" || comma == ",") && Occurs(inner, pos, comma) && Occurs(inner, pos + |comma|, lead) && Blank(lead)
    ensures FeaturesFrom(inner, pos) == FeaturesFrom(inner, pos + |comma| + |lead|)
  {
    hide FeaturesFrom, Occurs, SkipSpaces;
    SkipBlank(inner, pos + |comma|, lead);
    SameStart(inner, pos + |comma|, pos + |comma| + |lead|);
    if comma != "" {
      OccursAt(inner, pos, comma, 0);
      PassComma(inner, pos);
    }
  }

  lemma PassComma(inner: string, pos: nat)
    requires pos < |inner| && inner[pos] == ','
    ensures FeaturesFrom(inner, pos) == FeaturesFrom(inner, pos + 1)
  {
    hide Block;
    assert SkipSpaces(inner, pos) == pos;
  }

  lemma SameStart(inner: string, pos: nat, next: nat)
    requires SkipSpaces(inner, pos) == SkipSpaces(inner, next)
    ensures FeaturesFrom(inner, pos) == FeaturesFrom(inner, next)
  {
    hide Block, SkipSpaces;
  }

  lemma OneObject(block: seq<Lexeme>, inner: string, pos: nat)
    requires IsObject(block) && Occurs(inner, pos, Render(block))
    ensures FeaturesFrom(inner, pos) == [Render(block)] + FeaturesFrom(inner, pos + |Render(block)|)
  {
    hide Occurs, Balanced, Block, Render;
    var inside :| block == Nest('{', inside) && AllPassable(inside) && Balanced(inside, '{');
    BalancedAtOne(inside, '{');
    NestRendered('{', inside);
    OccursAt(inner, pos, Render(block), 0);
    BlockIsRead(inner, pos, '{', inside);
  }

  /** Everything between the brackets of the feature list. */
  ghost function ListInner(style: Style, blocks: seq<seq<Lexeme>>): seq<Lexeme> {
    FeatureList(style, blocks, true) + [Raw(if blocks == [] then "" else NewLine(style.pretty, 1))]
  }

  /** The list is split where its features were joined. */
  lemma ListIsSplit(style: Style, blocks: seq<seq<Lexeme>>)
    requires AllObjects(blocks)
    ensures FeatureTexts(Render(Nest('[', ListInner(style, blocks)))) == RenderAll(blocks)
  {
    hide Occurs, NewLine, FeaturesFrom, Render, Trim, FeatureList, AllObjects;
    var tail := if blocks == [] then "" else NewLine(style.pretty, 1);
    Layout(style.pretty, 1);
    TrimNest('[', ListInner(style, blocks));
    var inner := ListText(style, blocks, true, tail);
    WholeIsSuffix(inner);
    ReadList(style, blocks, true, tail, inner, 0);
  }

  lemma {:induction false} ListPassable(style: Style, blocks: seq<seq<Lexeme>>, first: bool)
    requires AllObjects(blocks)
    ensures AllPassable(FeatureList(style, blocks, first)) && Balanced(FeatureList(style, blocks, first), '[')
  {
    hide NewLine, Balanced, IsObject;
    if blocks == [] {
      FlatIsBalanced([], '[');
    } else {
      var lead, block, rest := FeatureLead(style, first), blocks[0], FeatureList(style, blocks[1..], false);
      LeadIsSound(style, first);
      NoBracketsIsFlat(lead, '[');
      ObjectPassable(block);
      ListPassable(style, blocks[1..], false);
      ConcatBalanced(lead, block, '[');
      ConcatBalanced(lead + block, rest, '[');
    }
  }

  lemma ObjectPassable(block: seq<Lexeme>)
    requires IsObject(block)
    ensures AllPassable(block) && Balanced(block, '[')
  {
    hide Balanced;
  }

  lemma LeadIsSound(style: Style, first: bool)
    ensures NoBrackets(FeatureLead(style, first))
  {
    hide NewLine;
    Layout(style.pretty, 2);
  }

  lemma ListInnerShape(style: Style, blocks: seq<seq<Lexeme>>)
    requires AllObjects(blocks)
    ensures AllPassable(ListInner(style, blocks)) && Balanced(ListInner(style, blocks), '[')
  {
    hide NewLine, Balanced, FeatureList, AllObjects;
    var tail := [Raw(if blocks == [] then "" else NewLine(style.pretty, 1))];
    Layout(style.pretty, 1);
    ListPassable(style, blocks, true);
    NoBracketsIsFlat(tail, '[');
    ConcatBalanced(FeatureList(style, blocks, true), tail, '[');
  }
}
