/**
 * Parsing what was exported.
 *
 * The theorems say exactly what comes back when the strings can be told apart in the text, and
 * which collections come back unchanged.
 */
module GeoJsonRoundTrip {
  import opened Common
  import opened GeoJsonParser
  import opened GeoJsonLexemes
  import opened GeoJsonExporter
  import opened GeoJsonCoordinates
  import opened GeoJsonProperties
  import opened GeoJsonFeatures
  import opened GeoJsonName
  import opened GeoJsonReadable
  import opened GeoJsonQuotes
  import JsonString

  // ---------------------------------------------------------------------------
  // One feature
  // ---------------------------------------------------------------------------

  /** The feature that comes back; a quote in its properties matters for these properties only. */
  ghost predicate Recovers(style: Style, round: real -> real, f: Feature, read: Feature) {
    && read.kind == f.kind
    && read.coordinates == RecoveredRows(round, f.kind, f.coordinates)
    && read.properties == ReadBack(style, f.properties)
    && (Unquoted(f.properties) ==> IsEscaped(f.properties, read.properties))
  }

  lemma RowsAreList(style: Style, round: real -> real, rows: seq<seq<real>>)
    requires Faithful(style.format, round)
    ensures IsList(Rows(style, rows, true))
  {
    hide Faithful, Rows;
    RowsShape(style, round, rows, true);
  }

  lemma FeatureIsRead(style: Style, round: real -> real, f: Feature)
    requires Faithful(style.format, round) && Printable(f)
    ensures Recovers(style, round, f, FeatureOf(style.format, Render(FeatureBlock(style, f))))
  {
    hide Render, Faithful, FeatureBlock, FeatureOf, FeatureAround, IsEscaped, ReadBack, Unquoted, RecoveredRows,
         Rows, CoordinatesOf, Quotable, PrintableProperties;
    FeatureParts(style, f);
    RowsAreList(style, round, f.coordinates);
    FeatureAroundIsRead(style, f.kind, Rows(style, f.coordinates, true), f.properties);
    CoordinatesAreRead(style, round, f.kind, f.coordinates);
    if Unquoted(f.properties) { ReadBackIsEscaped(style, f.properties); }
  }

  lemma ReadBackIsEscaped(style: Style, props: map<string, string>)
    requires PrintableProperties(props) && Unquoted(props)
    ensures IsEscaped(props, ReadBack(style, props))
  {
    hide Properties, Render, PropertiesBlock, IsEscaped;
    PropertiesAreRead(style, props);
  }

  // ---------------------------------------------------------------------------
  // The list of features
  // ---------------------------------------------------------------------------

  ghost function FeatureBlocks(style: Style, fs: seq<Feature>): (blocks: seq<seq<Lexeme>>)
    ensures |blocks| == |fs| && forall i :: 0 <= i < |fs| ==> blocks[i] == FeatureBlock(style, fs[i])
  {
    if fs == [] then [] else [FeatureBlock(style, fs[0])] + FeatureBlocks(style, fs[1..])
  }

  ghost function FeatureBlockTexts(style: Style, fs: seq<Feature>): (texts: seq<string>)
    ensures |texts| == |fs| && forall i :: 0 <= i < |fs| ==> texts[i] == Render(FeatureBlock(style, fs[i]))
  {
    RenderAll(FeatureBlocks(style, fs))
  }

  lemma {:induction false} BlocksArePrinted(style: Style, fs: seq<Feature>, first: bool)
    ensures Features(style, fs, first) == FeatureList(style, FeatureBlocks(style, fs), first)
  {
    hide FeatureLead, FeatureBlock;
    if fs != [] { BlocksArePrinted(style, fs[1..], false); }
  }

  lemma BlocksAreObjects(style: Style, round: real -> real, fs: seq<Feature>)
    requires Faithful(style.format, round) && forall i :: 0 <= i < |fs| ==> Printable(fs[i])
    ensures AllObjects(FeatureBlocks(style, fs))
  {
    hide Faithful, FeatureBlock, FeatureAround, IsObject, Rows, Quotable, PrintableProperties;
    forall i | 0 <= i < |fs| ensures IsObject(FeatureBlock(style, fs[i])) {
      assert Printable(fs[i]);
      FeatureParts(style, fs[i]);
      RowsAreList(style, round, fs[i].coordinates);
      AroundIsObject(style, fs[i].kind, Rows(style, fs[i].coordinates, true), fs[i].properties);
    }
  }

  lemma FeaturesAreSplit(style: Style, round: real -> real, fs: seq<Feature>)
    requires Faithful(style.format, round) && forall i :: 0 <= i < |fs| ==> Printable(fs[i])
    ensures FeatureTexts(Render(FeaturesBlock(style, fs))) == FeatureBlockTexts(style, fs)
  {
    hide NewLine, Faithful, Printable, Render, FeatureTexts, AllObjects;
    BlocksArePrinted(style, fs, true);
    BlocksAreObjects(style, round, fs);
    ListIsSplit(style, FeatureBlocks(style, fs));
  }

  /** The features that come back: those without a type are dropped. */
  ghost predicate RecoversAll(style: Style, round: real -> real, fs: seq<Feature>, read: seq<Feature>) {
    if fs == [] then read == []
    else
      var f, front := fs[|fs| - 1], fs[..|fs| - 1];
      if f.kind == "" then RecoversAll(style, round, front, read)
      else read != [] && Recovers(style, round, f, read[|read| - 1]) && RecoversAll(style, round, front, read[..|read| - 1])
  }

  lemma {:induction false} FeaturesAreRead(style: Style, round: real -> real, fs: seq<Feature>, texts: seq<string>)
    requires Faithful(style.format, round) && (forall i :: 0 <= i < |fs| ==> Printable(fs[i])) && |texts| == |fs|
    requires forall i :: 0 <= i < |fs| ==> texts[i] == Render(FeatureBlock(style, fs[i]))
    ensures RecoversAll(style, round, fs, FeaturesOf(style.format, texts))
  {
    hide Faithful, Printable, Render, FeatureBlock, FeatureOf, RecoveredRows, IsEscaped;
    if fs != [] {
      var last := |fs| - 1;
      FeaturesAreRead(style, round, fs[..last], texts[..last]);
      FeatureIsRead(style, round, fs[last]);
      var f := FeatureOf(style.format, texts[last]);
      var before := FeaturesOf(style.format, texts[..last]);
      assert (before + [f])[..|before|] == before && before + [] == before;
    }
  }

  // ---------------------------------------------------------------------------
  // The collection
  // ---------------------------------------------------------------------------

  /** The lexemes of a collection up to its features. */
  ghost function CollectionStart(style: Style, c: Collection): (ls: seq<Lexeme>)
    ensures |ls| == 18
  {
    [Mark('{')] + CollectionHead(style, Escape(c.name)) + BboxBlock(style, c.features) + CollectionMiddle(style)
  }

  ghost function CollectionEnd(style: Style): seq<Lexeme> {
    [Raw(NewLine(style.pretty, 0)), Mark('}')]
  }

  lemma CollectionParts(style: Style, c: Collection)
    ensures CollectionLexemes(style, c) == CollectionStart(style, c) + FeaturesBlock(style, c.features) + CollectionEnd(style)
  {
    hide CollectionHead, CollectionMiddle, BboxBlock, FeaturesBlock, NewLine;
  }

  lemma HeadLength(style: Style, escapedName: string)
    ensures |CollectionHead(style, escapedName)| == 11
  {
  }

  lemma CollectionKeys(style: Style, c: Collection)
    ensures var ls := CollectionStart(style, c);
            && ls[6] == Str("name") && ls[7] == Raw(": ") && ls[8] == Str(Escape(c.name)) && ls[12] == Mark('[')
            && ls[16] == Str("features")
            && (forall i :: 0 <= i < 6 ==> ls[i] != Str("name"))
            && (forall i :: 0 <= i < 16 ==> i != 8 ==> ls[i] != Str("features"))
  {
    hide NewLine, Separator, ValuesText, Escape, CollectionBounds;
  }

  lemma CollectionStartIsFindable(style: Style, round: real -> real, c: Collection)
    requires Faithful(style.format, round)
    ensures forall i :: 0 <= i < 18 ==> i != 8 ==> Findable(CollectionStart(style, c)[i])
  {
    hide NewLine, Separator, Plain, NoQuote, ValuesText, Escape, CollectionBounds, Faithful;
    WordsAreFindable();
    Layout(style.pretty, 1);
    var b := CollectionBounds(c.features);
    ValuesArePlain(style, round, [b.minLon, b.minLat, b.maxLon, b.maxLat], true);
  }

  lemma WordsAreFindable()
    ensures Findable(Raw(": ")) && Findable(Str("type")) && Findable(Str("FeatureCollection"))
    ensures Findable(Str("name")) && Findable(Str("bbox")) && Findable(Str("features")) && IsWord("name")
  {
    hide NoQuote, Plain, Quotable, Sealed;
    WordsAreSound();
  }

  /** The text between the quotes that the parser takes for the name. */
  lemma NameIsRead(style: Style, round: real -> real, c: Collection)
    requires Faithful(style.format, round)
    ensures CollectionName(Export(style, c)) == if c.name == "" then DEFAULT_NAME else BeforeQuote(Escape(c.name))
  {
    hide Render, Offset, InQuotes, FindText, FindChar, Faithful, CollectionStart, CollectionEnd, FeaturesBlock,
        Escape, ValueAfter, Findable, Show, BeforeQuote;
    var ls, text := CollectionLexemes(style, c), Export(style, c);
    CollectionParts(style, c);
    CollectionKeys(style, c);
    CollectionStartIsFindable(style, round, c);
    WordsAreFindable();
    WordsAreSound();
    assert forall i :: 0 <= i < 18 ==> ls[i] == CollectionStart(style, c)[i];
    FromStart(ls);
    FindKey(ls, 0, 6, "name");
    ShowKey("name");
    var open := ValueStart(ls, 6, "name", Escape(c.name));
    UpToQuote(text, open, Escape(c.name));
    BetweenQuotes(text, Offset(ls, 6), open, BeforeQuote(Escape(c.name)), "");
    EmptyNameIffNothingRead(c.name);
  }

  lemma EmptyNameIffNothingRead(name: string)
    ensures BeforeQuote(Escape(name)) == "" <==> name == ""
  {
    hide Escape;
    EscapeNotEmpty(name);
    if name != "" && Escape(name)[0] == QUOTE { QuotesAreEscaped(name, 0); }
  }

  /** An empty name is replaced by the default. */
  lemma EmptyNameIsReplaced(style: Style, round: real -> real, c: Collection)
    requires Faithful(style.format, round) && c.name == ""
    ensures Parsed(style.format, Export(style, c)).name == "POWSYS365 Network"
  {
    hide CollectionFeatures, Export, Faithful, CollectionName;
    NameIsRead(style, round, c);
  }

  /** The name survives exactly if it is not empty and no character of it has an escape. */
  lemma NameSurvivesIff(style: Style, round: real -> real, c: Collection)
    requires Faithful(style.format, round)
    ensures CollectionName(Export(style, c)) == c.name <==> c.name != "" && Clean(c.name)
  {
    hide CollectionName, Export, Escape, Faithful, BeforeQuote, Clean, NoQuote;
    NameIsRead(style, round, c);
    BeforeQuoteHasNone(Escape(c.name));
    EscapeLength(c.name);
    EscapeNoQuote(c.name);
    CleanHasNoQuote(c.name);
    DefaultIsNotEmpty();
  }

  lemma BeforeQuoteHasNone(s: string)
    ensures NoQuote(BeforeQuote(s)) && (NoQuote(s) ==> BeforeQuote(s) == s)
  {
    SliceHasNoQuote(s, 0);
    FindCharFirst(s, QUOTE, 0);
  }

  lemma CleanHasNoQuote(s: string)
    ensures Clean(s) ==> NoQuote(s)
  {
    forall i | Clean(s) && 0 <= i < |s| ensures s[i] != QUOTE {
      assert JsonString.EscapeChar(s[i]) == [s[i]];
    }
  }

  lemma DefaultIsNotEmpty()
    ensures DEFAULT_NAME != ""
  {
  }

  // ---------------------------------------------------------------------------
  // The features of the collection
  // ---------------------------------------------------------------------------

  /** All strings of the features stand in the text as they are meant. */
  ghost predicate PrintableFeatures(fs: seq<Feature>) {
    forall i :: 0 <= i < |fs| ==> Printable(fs[i])
  }

  lemma CollectionLacks(style: Style, c: Collection)
    ensures Lacks(Show(CollectionStart(style, c)[16]), '[') && Lacks(Show(CollectionStart(style, c)[17]), '[')
    ensures forall i :: 9 <= i < 12 ==> Lacks(Show(CollectionStart(style, c)[i]), '[')
  {
    hide NewLine, Separator, ValuesText, Escape, CollectionBounds, Lacks, Show;
    Layout(style.pretty, 1);
    SoundColon();
    PlainLacks(": ", '[');
    PlainLacks(Separator(style.pretty, 1), '[');
    WordLacks("features", '[');
    WordLacks("bbox", '[');
  }

  lemma FeaturesIsClean()
    ensures Clean("features") && IsWord("features") && Lacks(Show(Str("features")), '[')
    ensures |Show(Str("features"))| == |"features"| + 2
  {
    WordLacks("features", '[');
  }

  /** Everything between the brackets of the feature list. */
  ghost function FeaturesInner(style: Style, fs: seq<Feature>): seq<Lexeme> {
    Features(style, fs, true) + [Raw(if fs == [] then "" else NewLine(style.pretty, 1))]
  }

  lemma FeaturesInnerShape(style: Style, round: real -> real, fs: seq<Feature>)
    requires Faithful(style.format, round) && forall i :: 0 <= i < |fs| ==> Printable(fs[i])
    ensures AllPassable(FeaturesInner(style, fs)) && Balanced(FeaturesInner(style, fs), '[')
  {
    hide NewLine, Faithful, Printable, Balanced, AllObjects;
    BlocksArePrinted(style, fs, true);
    BlocksAreObjects(style, round, fs);
    ListInnerShape(style, FeatureBlocks(style, fs));
  }

  /** The search for the features starts at the name. */
  lemma SearchStartsAtName(style: Style, round: real -> real, c: Collection)
    requires Faithful(style.format, round)
    ensures |CollectionLexemes(style, c)| > 18
    ensures var ls, text, key := CollectionLexemes(style, c), Export(style, c), Show(Str("features"));
            var at, end := Offset(ls, 8), Offset(ls, 9);
            && FindText(text, key, 0) == FindText(text, key, at)
            && Occurs(text, at, Show(Str(Escape(c.name))))
            && at + |Escape(c.name)| + 2 == end < |text| && !IsLetter(text[end])
  {
    hide Render, Offset, FindText, Faithful, CollectionStart, CollectionEnd, FeaturesBlock, Escape, Findable, Occurs, Show;
    var ls := CollectionLexemes(style, c);
    CollectionParts(style, c);
    CollectionKeys(style, c);
    CollectionStartIsFindable(style, round, c);
    CoordinatesIsWord();
    assert forall i :: 0 <= i < 18 ==> ls[i] == CollectionStart(style, c)[i];
    FromStart(ls);
    SkipToLexeme(ls, 0, 8, "features");
    RenderAt(ls, 8);
    ShowLength(Escape(c.name));
    NextIsNoLetter(ls, 9, 16);
  }

  /** Unless the name is in the way, the block after the key is the list of features. */
  lemma FeaturesAreFound(style: Style, round: real -> real, c: Collection)
    requires Faithful(style.format, round) && PrintableFeatures(c.features) && !ShowsKey(c.name, "features")
    ensures CollectionFeatures(style.format, Export(style, c))
         == FeaturesOf(style.format, FeatureBlockTexts(style, c.features))
  {
    hide Render, Offset, InQuotes, NewLine, FindText, FindChar, Block, Faithful, Printable, Lacks, Balanced,
        Show, Quotable, NoQuote, Occurs, Clean, ShowsKey,
         CollectionStart, CollectionEnd, Features, FeatureTexts, FeaturesOf, Escape;
    var pre, inner := CollectionStart(style, c), FeaturesInner(style, c.features);
    CollectionParts(style, c);
    CollectionKeys(style, c);
    CollectionStartIsFindable(style, round, c);
    CollectionLacks(style, c);
    FeaturesIsClean();
    SearchStartsAtName(style, round, c);
    SearchAtName(Export(style, c), Offset(CollectionLexemes(style, c), 8), c.name, "features");
    FeaturesInnerShape(style, round, c.features);
    KeyThenBlock(pre, '[', inner, CollectionEnd(style), 9, 16, "features");
    ShowKey("features");
    FeaturesAreSplit(style, round, c.features);
  }

  /** No feature is found in the numbers of a bounding box. */
  lemma {:induction false} NoFeaturesInPlain(text: string, pos: nat)
    requires Plain(text)
    ensures FeaturesFrom(text, pos) == []
    decreases |text| - pos
  {
    var i := SkipSpaces(text, pos);
    if i < |text| {
      assert Block(text, i) == "";
      NoFeaturesInPlain(text, i + 1);
    }
  }

  /** A name that ends like the key hides it: the parser goes on with the bounding box. */
  lemma FeaturesAreHidden(style: Style, round: real -> real, c: Collection)
    requires Faithful(style.format, round) && ShowsKey(c.name, "features")
    ensures CollectionFeatures(style.format, Export(style, c)) == []
  {
    hide Render, Offset, InQuotes, FindText, FindChar, Block, Faithful, Show, FeatureTexts, Escape, ValuesText,
        Occurs, Clean, ShowsKey, Lacks;
    var ls, text := CollectionLexemes(style, c), Export(style, c);
    var b := CollectionBounds(c.features);
    var values := ValuesText(style, [b.minLon, b.minLat, b.maxLon, b.maxLat], true);
    FeaturesIsClean();
    SearchStartsAtName(style, round, c);
    SearchAtName(text, Offset(ls, 8), c.name, "features");
    SkipChars(text, '[', Offset(ls, 9) - |Show(Str("features"))|, Show(Str("features")));
    BboxIsFound(style, round, c);
    ShowKey("features");
    ValuesArePlain(style, round, [b.minLon, b.minLat, b.maxLon, b.maxLat], true);
    NoFeaturesInBbox(style, values);
    NothingToRead(style.format);
  }

  /** The first list behind the name is the bounding box. */
  lemma BboxIsFound(style: Style, round: real -> real, c: Collection)
    requires Faithful(style.format, round)
    ensures |CollectionLexemes(style, c)| > 18
    ensures var ls, text := CollectionLexemes(style, c), Export(style, c);
            FindChar(text, '[', Offset(ls, 9)) >= 0
            && Block(text, FindChar(text, '[', Offset(ls, 9))) == Render(BboxBlock(style, c.features))
  {
    hide Render, Offset, NewLine, FindText, FindChar, Block, Faithful, Lacks, Balanced, Show, NoQuote, Plain,
         CollectionHead, CollectionMiddle, CollectionEnd, FeaturesBlock, Escape, ValuesText;
    var b := CollectionBounds(c.features);
    var values := ValuesText(style, [b.minLon, b.minLat, b.maxLon, b.maxLat], true);
    var pre, inner := [Mark('{')] + CollectionHead(style, Escape(c.name)), [Raw(values)];
    var post := CollectionMiddle(style) + FeaturesBlock(style, c.features) + CollectionEnd(style);
    CollectionParts(style, c);
    HeadLength(style, Escape(c.name));
    assert CollectionLexemes(style, c) == pre + Nest('[', inner) + post;
    assert forall i :: 0 <= i < |pre| ==> pre[i] == CollectionStart(style, c)[i];
    CollectionLacks(style, c);
    ValuesArePlain(style, round, [b.minLon, b.minLat, b.maxLon, b.maxLat], true);
    NoBracketsIsFlat(inner, '[');
    MarkThenBlock(pre, '[', inner, post, 9);
  }

  lemma NoFeaturesInBbox(style: Style, values: string)
    requires Plain(values)
    ensures FeatureTexts(Render(Nest('[', [Raw(values)]))) == []
  {
    hide Render, Trim, FeaturesFrom;
    TrimNest('[', [Raw(values)]);
    RenderOne(Raw(values));
    NoFeaturesInPlain(values, 0);
  }

  lemma NothingToRead(format: NumberFormat)
    ensures FeaturesOf(format, []) == []
  {
  }

  /** What comes back from an exported collection, in pretty and in compact mode. */
  lemma ExportIsRead(style: Style, round: real -> real, c: Collection)
    requires Faithful(style.format, round) && PrintableFeatures(c.features)
    ensures var read := Parsed(style.format, Export(style, c));
            && read.name == (if c.name == "" then DEFAULT_NAME else BeforeQuote(Escape(c.name)))
            && if ShowsKey(c.name, "features") then read.features == []
               else RecoversAll(style, round, c.features, read.features)
  {
    hide CollectionName, CollectionFeatures, Export, Escape, Faithful, Printable, FeaturesOf, RecoversAll,
        ShowsKey, BeforeQuote;
    NameIsRead(style, round, c);
    if ShowsKey(c.name, "features") {
      FeaturesAreHidden(style, round, c);
    } else {
      FeaturesAreFound(style, round, c);
      FeaturesAreRead(style, round, c.features, FeatureBlockTexts(style, c.features));
    }
  }

  // ---------------------------------------------------------------------------
  // Collections that come back unchanged
  // ---------------------------------------------------------------------------

  /** Line strings keep exact, non-empty positions; other types must have none. */
  ghost predicate KeepsRows(round: real -> real, kind: string, rows: seq<seq<real>>) {
    if kind == "LineString" then forall i :: 0 <= i < |rows| ==> rows[i] != [] && Rounded(round, rows[i]) == rows[i]
    else rows == []
  }

  ghost predicate CleanProperties(props: map<string, string>) {
    forall k :: k in props ==> Clean(k) && Clean(props[k])
  }

  ghost predicate Keeps(round: real -> real, f: Feature) {
    f.kind != "" && Quotable(f.kind) && KeepsRows(round, f.kind, f.coordinates) && CleanProperties(f.properties)
  }

  /** What a caller can check before exporting. */
  ghost predicate Unchanged(round: real -> real, c: Collection) {
    && c.name != "" && Clean(c.name) && (c.name == "features" ==> c.features == [])
    && forall i :: 0 <= i < |c.features| ==> Keeps(round, c.features[i])
  }

  lemma {:induction false} KeptRowsSame(round: real -> real, rows: seq<seq<real>>)
    ensures |KeptRows(round, rows)| <= |rows|
    ensures KeptRows(round, rows) == rows <==>
            forall i :: 0 <= i < |rows| ==> rows[i] != [] && Rounded(round, rows[i]) == rows[i]
  {
    hide Rounded;
    if rows != [] {
      var last := |rows| - 1;
      var front, kept := rows[..last], KeptRows(round, rows[..last]);
      KeptRowsSame(round, front);
      assert rows == front + [rows[last]];
      if rows[last] == [] {
        assert KeptRows(round, rows) == kept;
      } else {
        SameAppended(kept, Rounded(round, rows[last]), front, rows[last]);
      }
    }
  }

  lemma SameAppended<T>(a: seq<T>, x: T, b: seq<T>, y: T)
    requires |a| <= |b|
    ensures a + [x] == b + [y] <==> a == b && x == y
  {
    if a + [x] == b + [y] {
      assert (a + [x])[..|a|] == a && (b + [y])[..|b|] == b;
      assert (a + [x])[|a|] == x && (b + [y])[|b|] == y;
    }
  }

  /** A point never comes back with its coordinates. */
  lemma PointRowsSame(round: real -> real, rows: seq<seq<real>>)
    ensures RecoveredRows(round, "Point", rows) == rows <==> rows == []
  {
    if |rows| == 1 && rows[0] != [] {
      assert rows[1..] == [];
      assert TailValues(round, rows) == Rounded(round, rows[0][1..]);
      assert |TailValues(round, rows)| != |rows[0]|;
    }
  }

  lemma RowsSame(round: real -> real, kind: string, rows: seq<seq<real>>)
    ensures RecoveredRows(round, kind, rows) == rows <==> KeepsRows(round, kind, rows)
  {
    hide KeptRows, TailValues, Rounded;
    KeptRowsSame(round, rows);
    PointRowsSame(round, rows);
  }

  /** A key with something to escape grows, so a longest one would have to come back longer. */
  lemma {:induction false} LongestUnclean(keys: set<string>) returns (k: string)
    requires exists j :: j in keys && !Clean(j)
    ensures k in keys && !Clean(k) && forall j :: j in keys && !Clean(j) ==> |j| <= |k|
    decreases keys
  {
    hide Clean;
    k :| k in keys && !Clean(k);
    var rest := keys - {k};
    if j :| j in rest && !Clean(j) {
      var m := LongestUnclean(rest);
      if |m| > |k| { k := m; }
    }
  }

  lemma EscapedAt(props: map<string, string>, read: map<string, string>, k: string)
    requires IsEscaped(props, read) && k in props
    ensures Escape(k) in read && read[Escape(k)] == Escape(props[k])
  {
  }

  lemma SameKeysAreClean(props: map<string, string>)
    requires IsEscaped(props, props)
    ensures forall k :: k in props.Keys ==> Clean(k)
  {
    hide Clean, Escape, IsEscaped;
    if exists k :: k in props.Keys && !Clean(k) {
      var k := LongestUnclean(props.Keys);
      EscapedAt(props, props, k);
      EscapeLength(k);
      EscapedIsNotClean(k);
    }
  }

  lemma SamePropertiesAreClean(props: map<string, string>)
    requires IsEscaped(props, props)
    ensures CleanProperties(props)
  {
    hide Clean, Escape, IsEscaped;
    SameKeysAreClean(props);
    forall k | k in props ensures Clean(k) && Clean(props[k]) {
      assert k in props.Keys;
      EscapedAt(props, props, k);
      EscapeLength(k);
      EscapeLength(props[k]);
    }
  }

  lemma CleanPropertiesAreSame(props: map<string, string>, read: map<string, string>)
    requires CleanProperties(props) && read == props
    ensures IsEscaped(props, read)
  {
    hide Clean, Escape;
    forall k | k in props ensures Escape(k) == k && Escape(props[k]) == props[k] {
      EscapeLength(k);
      EscapeLength(props[k]);
    }
  }

  lemma PropertiesSame(props: map<string, string>)
    ensures IsEscaped(props, props) <==> CleanProperties(props)
  {
    hide CleanProperties, IsEscaped;
    if IsEscaped(props, props) {
      SamePropertiesAreClean(props);
    }
    if CleanProperties(props) {
      CleanPropertiesAreSame(props, props);
    }
  }

  lemma EscapedIsUnique(props: map<string, string>, a: map<string, string>, b: map<string, string>)
    requires IsEscaped(props, a) && IsEscaped(props, b)
    ensures a == b
  {
    hide Escape;
    assert a.Keys == b.Keys by {
      forall e ensures e in a.Keys <==> e in b.Keys {
      }
    }
    forall e | e in a ensures a[e] == b[e] {
      var k :| k in props && e == Escape(k);
    }
  }

  lemma PropertiesComeBackIff(style: Style, props: map<string, string>)
    requires PrintableProperties(props)
    ensures ReadBack(style, props) == props <==> CleanProperties(props)
  {
    hide Properties, Render, PropertiesBlock, Clean, NoQuote, Closable, IsEscaped;
    if ReadBack(style, props) == props { QuotesNeverReturn(style, props); }
    CleanIsUnquoted(props);
    if Unquoted(props) {
      PropertiesAreRead(style, props);
      PropertiesSame(props);
      if IsEscaped(props, props) { EscapedIsUnique(props, props, ReadBack(style, props)); }
    }
  }

  lemma CleanIsUnquoted(props: map<string, string>)
    ensures CleanProperties(props) ==> Unquoted(props)
  {
    hide Clean, NoQuote;
    forall k | CleanProperties(props) && k in props ensures NoQuote(k) && NoQuote(props[k]) {
      CleanHasNoQuote(k);
      CleanHasNoQuote(props[k]);
    }
  }

  lemma FeatureSame(style: Style, round: real -> real, f: Feature, read: Feature)
    requires Recovers(style, round, f, read) && Printable(f)
    ensures f.kind != "" && read == f <==> Keeps(round, f)
  {
    hide RecoveredRows, KeepsRows, CleanProperties, IsEscaped, Quotable, ReadBack, Unquoted, PrintableProperties;
    RowsSame(round, f.kind, f.coordinates);
    PropertiesComeBackIff(style, f.properties);
  }

  lemma {:induction false} FeaturesSame(style: Style, round: real -> real, fs: seq<Feature>, read: seq<Feature>)
    requires RecoversAll(style, round, fs, read) && forall i :: 0 <= i < |fs| ==> Printable(fs[i])
    ensures |read| <= |fs|
    ensures read == fs <==> forall i :: 0 <= i < |fs| ==> Keeps(round, fs[i])
  {
    hide Recovers, Keeps, Printable;
    if fs != [] {
      var last := |fs| - 1;
      var f, front := fs[last], fs[..last];
      assert fs == front + [f];
      assert forall i :: 0 <= i < last ==> front[i] == fs[i];
      if f.kind == "" {
        FeaturesSame(style, round, front, read);
        KindIsKept(round, f);
      } else {
        FeaturesSame(style, round, front, read[..|read| - 1]);
        FeatureSame(style, round, f, read[|read| - 1]);
        assert read == read[..|read| - 1] + [read[|read| - 1]];
      }
    }
  }

  lemma KindIsKept(round: real -> real, f: Feature)
    ensures Keeps(round, f) ==> f.kind != ""
  {
  }

  /**
   * No string of the features ends in a backslash, and no type has a quote. This does not matter
   * where the name or some feature can never come back, or the name hides the features.
   */
  ghost predicate Settled(c: Collection) {
    (c.name != "" && Clean(c.name) && c.name != "features"
     && forall i :: 0 <= i < |c.features| ==> Readable(c.features[i]))
    ==> PrintableFeatures(c.features)
  }

  lemma CleanIsQuotable(s: string)
    ensures Clean(s) ==> Quotable(s)
  {
    CleanHasNoQuote(s);
    if s != [] && Clean(s) {
      assert JsonString.EscapeChar(s[|s| - 1]) == [s[|s| - 1]];
    }
  }

  lemma KeptIsReadable(round: real -> real, f: Feature)
    ensures Keeps(round, f) ==> Readable(f) && Printable(f)
  {
    hide Clean, NoQuote, Closable;
    forall k | Keeps(round, f) && k in f.properties ensures Quotable(k) && Quotable(f.properties[k]) {
      CleanIsQuotable(k);
      CleanIsQuotable(f.properties[k]);
    }
  }

  lemma KeyHasQuote(name: string, w: string)
    requires EndsWith(name, [QUOTE] + w)
    ensures !NoQuote(name)
  {
    var at := |name| - |w| - 1;
    assert name[at] == name[at..][0];
  }

  lemma CleanShowsKeyIff(name: string, w: string)
    requires Clean(name)
    ensures ShowsKey(name, w) <==> name == w
  {
    if EndsWith(name, [QUOTE] + w) { KeyHasQuote(name, w); }
    CleanHasNoQuote(name);
  }

  lemma AllPrintable(fs: seq<Feature>)
    requires PrintableFeatures(fs)
    ensures forall i :: 0 <= i < |fs| ==> Printable(fs[i])
  {
  }

  /** Parsing undoes exporting exactly for the unchanged collections, in both modes. */
  lemma RoundTripIff(style: Style, round: real -> real, c: Collection)
    requires Faithful(style.format, round) && Settled(c)
    ensures Parsed(style.format, Export(style, c)) == c <==> Unchanged(round, c)
  {
    hide CollectionName, CollectionFeatures, Export, Clean, Faithful, PrintableFeatures, RecoversAll, Keeps,
        Readable, ShowsKey;
    var read := CollectionFeatures(style.format, Export(style, c));
    NameSurvivesIff(style, round, c);
    if c.name != "" && Clean(c.name) {
      CleanShowsKeyIff(c.name, "features");
      if c.name == "features" {
        FeaturesAreHidden(style, round, c);
      } else if i :| 0 <= i < |c.features| && !Readable(c.features[i]) {
        ParsedIsReadable(style.format, Export(style, c));
        KeptIsReadable(round, c.features[i]);
      } else {
        ExportIsRead(style, round, c);
        AllPrintable(c.features);
        FeaturesSame(style, round, c.features, read);
      }
    }
  }

  /** What a caller can check before exporting is enough, whatever the strings. */
  lemma UnchangedComesBack(style: Style, round: real -> real, c: Collection)
    requires Faithful(style.format, round) && Unchanged(round, c)
    ensures Parsed(style.format, Export(style, c)) == c
  {
    hide Parsed, Export, Clean, Faithful, Keeps, Readable, Printable;
    forall i | 0 <= i < |c.features| ensures Printable(c.features[i]) {
      KeptIsReadable(round, c.features[i]);
    }
    RoundTripIff(style, round, c);
  }
}
