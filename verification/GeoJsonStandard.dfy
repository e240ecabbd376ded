/**
 * Reading GeoJSON as RFC 7946 lays it out: the position of a point is flat (section 3.1.2), a line
 * string is a list of positions (section 3.1.4), and a polygon is a list of rings (section 3.1.6), of
 * which the parser keeps the first. Property values may be strings or bare words and numbers.
 */
module GeoJsonStandard {
  import opened Common
  import opened GeoJsonParser
  import opened GeoJsonLexemes
  import opened GeoJsonExporter
  import opened GeoJsonCoordinates
  import opened GeoJsonProperties
  import opened GeoJsonFeatures

  datatype Shape =
    | Position(values: seq<real>)
    | Path(positions: seq<seq<real>>)
    | Surface(rings: seq<seq<seq<real>>>)

  function KindOf(shape: Shape): string {
    match shape
    case Position(_) => "Point"
    case Path(_) => "LineString"
    case Surface(_) => "Polygon"
  }

  ghost function Rings(style: Style, rings: seq<seq<seq<real>>>, first: bool): seq<Lexeme> {
    if rings == [] then []
    else [RowLead(first)] + CoordinatesBlock(style, rings[0]) + Rings(style, rings[1..], false)
  }

  /** The coordinates between their outer brackets. */
  ghost function ShapeInner(style: Style, shape: Shape): seq<Lexeme> {
    match shape
    case Position(values) => [Raw(ValuesText(style, values, true))]
    case Path(positions) => Rows(style, positions, true)
    case Surface(rings) => Rings(style, rings, true)
  }

  /** What is kept: positions that are not empty, rounded, and of a polygon only its first ring. */
  ghost function Kept(round: real -> real, shape: Shape): seq<seq<real>> {
    match shape
    case Position(values) => if values == [] then [] else [Rounded(round, values)]
    case Path(positions) => KeptRows(round, positions)
    case Surface(rings) => if rings == [] then [] else KeptRows(round, rings[0])
  }

  // ---------------------------------------------------------------------------
  // Coordinates
  // ---------------------------------------------------------------------------

  lemma {:induction false} RingsAreList(style: Style, round: real -> real, rings: seq<seq<seq<real>>>, first: bool)
    requires Faithful(style.format, round)
    ensures IsList(Rings(style, rings, first))
  {
    hide Faithful, CoordinatesBlock, Balanced;
    if rings == [] {
      FlatIsBalanced([], '[');
    } else {
      var lead, block, rest := [RowLead(first)], CoordinatesBlock(style, rings[0]), Rings(style, rings[1..], false);
      CoordinatesShape(style, round, rings[0]);
      RingsAreList(style, round, rings[1..], false);
      FlatIsBalanced(lead, '[');
      ConcatBalanced(lead, block, '[');
      ConcatBalanced(lead + block, rest, '[');
    }
  }

  lemma ShapeIsList(style: Style, round: real -> real, shape: Shape)
    requires Faithful(style.format, round)
    ensures IsList(ShapeInner(style, shape))
  {
    hide Faithful, Balanced, Rows, Rings;
    match shape
    case Position(values) =>
      ValuesArePlain(style, round, values, true);
      FlatIsBalanced([Raw(ValuesText(style, values, true))], '[');
    case Path(positions) => RowsShape(style, round, positions, true);
    case Surface(rings) => RingsAreList(style, round, rings, true);
  }

  /** Within a block, the splitter keeps the depth of the brackets. */
  lemma {:induction false} PairsPassList(text: string, pos: nat, ls: seq<Lexeme>, depth: int, start: nat)
    requires Occurs(text, pos, Render(ls)) && OnlyBrackets(ls) && start <= pos
    requires depth >= 1 && Walk(ls, '[', depth) >= 1
    ensures PairsFrom(text, pos, depth, false, start)
         == PairsFrom(text, pos + |Render(ls)|, Walk(ls, '[', depth), false, start)
    decreases |ls|
  {
    hide Occurs, PairsFrom, Show, Net;
    if ls != [] {
      var l, rest := ls[0], ls[1..];
      OccursConcat(text, pos, Show(l), Render(rest));
      PairsPassLexeme(text, pos, l, depth, start);
      PairsPassList(text, pos + |Show(l)|, rest, depth + Net(l, '['), start);
    }
  }

  lemma PairsPassLexeme(text: string, pos: nat, l: Lexeme, depth: int, start: nat)
    requires Occurs(text, pos, Show(l)) && OnlyBrackets([l]) && start <= pos
    requires depth >= 1 && depth + Net(l, '[') >= 1
    ensures PairsFrom(text, pos, depth, false, start) == PairsFrom(text, pos + |Show(l)|, depth + Net(l, '['), false, start)
  {
    hide Occurs;
    assert Sound([l][0]) && ![l][0].Str?;
    match l
    case Raw(s) => PairsPassPlain(text, pos, s, depth, start);
    case Mark(c) => OccursAt(text, pos, [c], 0);
  }

  /** A block at the top level is one piece. */
  lemma PairsTakeBlock(text: string, pos: nat, inner: seq<Lexeme>, start: nat)
    requires IsList(inner) && Occurs(text, pos, Render(Nest('[', inner))) && start <= pos
    ensures var block := Render(Nest('[', inner));
            PairsFrom(text, pos, 0, false, start) == [block] + PairsFrom(text, pos + |block|, 0, false, pos)
  {
    hide Occurs, PairsFrom, Render, OnlyBrackets, Walk;
    var end := pos + 1 + |Render(inner)|;
    NestRendered('[', inner);
    OccursConcat(text, pos, "[", Render(inner) + "]");
    OccursConcat(text, pos + 1, Render(inner), "]");
    OccursAt(text, pos, "[", 0);
    OccursAt(text, end, "]", 0);
    BalancedAtOne(inner, '[');
    PairOpens(text, pos, start);
    PairsPassList(text, pos + 1, inner, 1, pos);
    SliceOf(text, pos, Render(Nest('[', inner)));
    PairCloses(text, end, pos);
  }

  ghost function RingTexts(style: Style, rings: seq<seq<seq<real>>>): (texts: seq<string>)
    ensures |texts| == |rings| && forall i :: 0 <= i < |rings| ==> texts[i] == Render(CoordinatesBlock(style, rings[i]))
  {
    if rings == [] then [] else [Render(CoordinatesBlock(style, rings[0]))] + RingTexts(style, rings[1..])
  }

  lemma RingsText(style: Style, rings: seq<seq<seq<real>>>, first: bool)
    ensures rings == [] ==> Render(Rings(style, rings, first)) == ""
    ensures rings != [] ==>
              Render(Rings(style, rings, first))
              == LeadText(first) + (Render(CoordinatesBlock(style, rings[0])) + Render(Rings(style, rings[1..], false)))
  {
    hide Render, CoordinatesBlock;
    if rings == [] {
      NoRowsText(style, first);
    } else {
      var lead, block, rest := [RowLead(first)], CoordinatesBlock(style, rings[0]), Rings(style, rings[1..], false);
      RenderConcat(lead + block, rest);
      RenderConcat(lead, block);
      RenderOne(RowLead(first));
    }
  }

  /** The rings are split where they were joined. */
  lemma {:induction false} ReadRings(style: Style, round: real -> real, text: string, pos: nat,
          rings: seq<seq<seq<real>>>, first: bool, start: nat)
    requires Faithful(style.format, round) && start <= pos
    requires IsSuffix(text, pos, Render(Rings(style, rings, first)))
    ensures PairsFrom(text, pos, 0, false, start) == RingTexts(style, rings)
    decreases |rings|
  {
    hide Occurs, PairsFrom, Faithful, Render, Rings, LeadText, Rows, IsList;
    RingsText(style, rings, first);
    if rings == [] {
      NoPairsLeft(text, pos, start);
    } else {
      var lead, block, rest := LeadText(first), Render(CoordinatesBlock(style, rings[0])),
                               Render(Rings(style, rings[1..], false));
      SuffixConcat(text, pos, lead, block + rest);
      SuffixConcat(text, pos + |lead|, block, rest);
      PairsPassPlain(text, pos, lead, 0, start);
      ShapeIsList(style, round, Path(rings[0]));
      PairsTakeBlock(text, pos + |lead|, Rows(style, rings[0], true), start);
      ReadRings(style, round, text, pos + |lead| + |block|, rings[1..], false, pos + |lead|);
    }
  }

  /** A polygon comes back as its first ring, however many there are. */
  lemma PolygonIsRead(style: Style, round: real -> real, rings: seq<seq<seq<real>>>)
    requires Faithful(style.format, round)
    ensures CoordinatesOf(style.format, "Polygon", Render(Nest('[', Rings(style, rings, true))))
         == if rings == [] then [] else KeptRows(round, rings[0])
  {
    hide Occurs, PairsFrom, Faithful, Render, Trim, FirstRows, Rings, CoordinatesBlock;
    var inner := Rings(style, rings, true);
    TrimNest('[', inner);
    WholeIsSuffix(Render(inner));
    ReadRings(style, round, Render(inner), 0, rings, true, 0);
    if rings != [] { LineStringIsRead(style, round, rings[0]); }
  }

  /** A point comes back as its position. */
  lemma PointIsRead(style: Style, round: real -> real, values: seq<real>)
    requires Faithful(style.format, round)
    ensures CoordinatesOf(style.format, "Point", Render(RowBlock(style, values)))
         == if values == [] then [] else [Rounded(round, values)]
  {
    hide Faithful, Render, RowBlock, Coordinates;
    ReadRow(style, round, values);
  }

  lemma ShapeIsRead(style: Style, round: real -> real, shape: Shape)
    requires Faithful(style.format, round)
    ensures CoordinatesOf(style.format, KindOf(shape), Render(Nest('[', ShapeInner(style, shape)))) == Kept(round, shape)
  {
    hide Faithful, Render, CoordinatesOf, Rings, Rows, KeptRows;
    match shape
    case Position(values) => PointIsRead(style, round, values);
    case Path(positions) => LineStringIsRead(style, round, positions);
    case Surface(rings) => PolygonIsRead(style, round, rings);
  }

  // ---- The numbers of a position, in any text ----------------------------------

  lemma {:induction false} FindCharShifted(text: string, c: char, p: nat, i: nat)
    requires p <= |text|
    ensures var f := FindChar(text[p..], c, i); FindChar(text, c, p + i) == if f < 0 then -1 else p + f
    decreases |text| - p - i
  {
    if i < |text| - p && text[p + i] != c { FindCharShifted(text, c, p, i + 1); }
  }

  lemma {:induction false} ValuesShifted(format: NumberFormat, text: string, p: nat, i: nat)
    requires p <= |text|
    ensures ValuesFrom(format, text, p + i) == ValuesFrom(format, text[p..], i)
    decreases |text| - p - i
  {
    hide PieceValue, FindChar;
    if i < |text| - p {
      FindCharShifted(text, ',', p, i);
      var end := PieceEnd(text[p..], i);
      assert PieceEnd(text, p + i) == p + end;
      assert text[p + i..p + end] == text[p..][i..end];
      ValuesShifted(format, text, p, end + 1);
    }
  }

  lemma {:induction false} CommaBefore(a: string, b: string, i: nat)
    requires i <= |a|
    ensures var f := FindChar(a, ',', i); FindChar(a + "," + b, ',', i) == if f < 0 then |a| else f
    decreases |a| - i
  {
    var text := a + "," + b;
    if i < |a| {
      if a[i] != ',' { CommaBefore(a, b, i + 1); }
    } else {
      assert text[|a|] == ',';
    }
  }

  lemma {:induction false} ValuesBefore(format: NumberFormat, a: string, b: string, i: nat)
    requires i <= |a| + 1
    ensures ValuesFrom(format, a + "," + b, i) == ValuesFrom(format, a, i) + ValuesFrom(format, a + "," + b, |a| + 1)
    decreases |a| + 1 - i
  {
    hide PieceValue, FindChar;
    var text := a + "," + b;
    if i <= |a| {
      CommaBefore(a, b, i);
      var end := PieceEnd(text, i);
      assert text[i..end] == a[i..end];
      if i < |a| {
        assert end == PieceEnd(a, i);
        ValuesBefore(format, a, b, end + 1);
      } else {
        assert text[i..end] == "";
        NoPiece(format);
      }
    }
  }

  lemma NoPiece(format: NumberFormat)
    ensures PieceValue(format, "") == []
  {
  }

  /** A comma parts the numbers before it from those after it, whatever the text. */
  lemma NumbersPart(format: NumberFormat, a: string, b: string)
    ensures ValuesFrom(format, a + "," + b, 0) == ValuesFrom(format, a, 0) + ValuesFrom(format, b, 0)
  {
    hide ValuesFrom;
    var text := a + "," + b;
    ValuesBefore(format, a, b, 0);
    ValuesShifted(format, text, |a| + 1, 0);
    assert text[|a| + 1..] == b;
  }

  /** Between commas there is at most one number: what std::stod reads without the white space around. */
  lemma OnePieceIsRead(format: NumberFormat, piece: string)
    requires Lacks(piece, ',')
    ensures ValuesFrom(format, piece, 0)
         == if Trim(piece) == "" || format.stod(Trim(piece)) == NotANumber then [] else [format.stod(Trim(piece)).value]
  {
    hide Trim, FindChar;
    if piece == "" {
      NoPiece(format);
      assert Trim("") == "" by { NothingTrimmed(); }
    } else {
      NoComma(piece, 0);
      assert piece[0..|piece|] == piece;
      assert ValuesFrom(format, piece, |piece| + 1) == [];
    }
  }

  lemma NothingTrimmed()
    ensures Trim("") == ""
  {
  }

  lemma {:induction false} NoComma(piece: string, i: nat)
    requires Lacks(piece, ',') && i <= |piece|
    ensures FindChar(piece, ',', i) == -1
    decreases |piece| - i
  {
    if i < |piece| { NoComma(piece, i + 1); }
  }

  // ---------------------------------------------------------------------------
  // Features and collections
  // ---------------------------------------------------------------------------

  datatype Object = Object(shape: Shape, properties: map<string, string>)

  ghost function ObjectBlock(style: Style, o: Object): seq<Lexeme> {
    FeatureAround(style, KindOf(o.shape), ShapeInner(style, o.shape), o.properties)
  }

  lemma KindIsQuotable(shape: Shape)
    ensures Quotable(KindOf(shape)) && KindOf(shape) != ""
  {
  }

  /** A feature keeps its type, its coordinates and, escaped, its properties. */
  lemma ObjectIsRead(style: Style, round: real -> real, o: Object)
    requires Faithful(style.format, round) && PrintableProperties(o.properties)
    ensures FeatureOf(style.format, Render(ObjectBlock(style, o)))
         == Feature(KindOf(o.shape), Kept(round, o.shape), ReadBack(style, o.properties))
    ensures Unquoted(o.properties) ==> IsEscaped(o.properties, ReadBack(style, o.properties))
  {
    hide Faithful, Render, FeatureOf, FeatureAround, CoordinatesOf, ShapeInner, Kept, KindOf, IsList, Quotable,
         PrintableProperties, Unquoted, IsEscaped, Properties, PropertiesBlock;
    KindIsQuotable(o.shape);
    ShapeIsList(style, round, o.shape);
    FeatureAroundIsRead(style, KindOf(o.shape), ShapeInner(style, o.shape), o.properties);
    ShapeIsRead(style, round, o.shape);
    if Unquoted(o.properties) { PropertiesAreRead(style, o.properties); }
  }

  ghost function ObjectBlocks(style: Style, os: seq<Object>): (blocks: seq<seq<Lexeme>>)
    ensures |blocks| == |os| && forall i :: 0 <= i < |os| ==> blocks[i] == ObjectBlock(style, os[i])
  {
    if os == [] then [] else [ObjectBlock(style, os[0])] + ObjectBlocks(style, os[1..])
  }

  ghost function CollectionStart(style: Style): seq<Lexeme> {
    [Mark('{'), Raw(NewLine(style.pretty, 1)), Str("type"), Raw(": "), Str("FeatureCollection"),
     Raw(Separator(style.pretty, 1)), Str("features"), Raw(": ")]
  }

  /** A feature collection without a name (section 3.3 of RFC 7946). */
  ghost function CollectionText(style: Style, os: seq<Object>): string {
    Render(CollectionStart(style) + Nest('[', ListInner(style, ObjectBlocks(style, os))) + [Raw(NewLine(style.pretty, 0)), Mark('}')])
  }

  ghost predicate AllPrintable(os: seq<Object>) {
    forall i :: 0 <= i < |os| ==> PrintableProperties(os[i].properties)
  }

  lemma ObjectsAreObjects(style: Style, round: real -> real, os: seq<Object>)
    requires Faithful(style.format, round) && AllPrintable(os)
    ensures AllObjects(ObjectBlocks(style, os))
  {
    hide Faithful, FeatureAround, ShapeInner, KindOf, IsObject, IsList, Quotable, PrintableProperties;
    forall i | 0 <= i < |os| ensures IsObject(ObjectBlock(style, os[i])) {
      KindIsQuotable(os[i].shape);
      ShapeIsList(style, round, os[i].shape);
      AroundIsObject(style, KindOf(os[i].shape), ShapeInner(style, os[i].shape), os[i].properties);
    }
  }

  lemma StartIsPlain(style: Style)
    ensures var ls := CollectionStart(style);
            && ls[6] == Str("features") && IsWord("features")
            && (forall i :: 0 <= i < 6 ==> Findable(ls[i]) && ls[i] != Str("features"))
            && (forall i :: 6 <= i < 8 ==> Lacks(Show(ls[i]), '['))
  {
    hide NewLine, Separator, Sound, Lacks, Show, Plain, NoQuote;
    WordsAreSound();
    CoordinatesIsWord();
    SoundIsFindable();
    Layout(style.pretty, 1);
    ColonIsPlain();
    PlainLacks(": ", '[');
    WordLacks("features", '[');
  }

  lemma SoundIsFindable()
    ensures forall l :: Sound(l) ==> Findable(l)
  {
  }

  lemma ObjectsAreFound(style: Style, round: real -> real, os: seq<Object>)
    requires Faithful(style.format, round) && AllPrintable(os)
    ensures CollectionFeatures(style.format, CollectionText(style, os))
         == FeaturesOf(style.format, RenderAll(ObjectBlocks(style, os)))
  {
    hide Render, Offset, InQuotes, NewLine, FindText, FindChar, Block, Faithful, Lacks, Balanced, Show, ListInner,
         ObjectBlocks, FeatureTexts, FeaturesOf, CollectionStart, AllPrintable, AllObjects, Findable;
    var pre, inner := CollectionStart(style), ListInner(style, ObjectBlocks(style, os));
    var post := [Raw(NewLine(style.pretty, 0)), Mark('}')];
    ObjectsAreObjects(style, round, os);
    ListInnerShape(style, ObjectBlocks(style, os));
    ListIsSplit(style, ObjectBlocks(style, os));
    StartIsPlain(style);
    assert |pre| == 8 by { StartLength(style); }
    KeyThenBlock(pre, '[', inner, post, 0, 6, "features");
    FromStart(pre + Nest('[', inner) + post);
    ShowKey("features");
  }

  lemma StartLength(style: Style)
    ensures |CollectionStart(style)| == 8
  {
  }

  /** The features of a collection, in order. */
  ghost function ReadObjects(style: Style, round: real -> real, os: seq<Object>): (fs: seq<Feature>)
    ensures |fs| == |os|
    ensures forall i :: 0 <= i < |os| ==>
              fs[i] == Feature(KindOf(os[i].shape), Kept(round, os[i].shape), ReadBack(style, os[i].properties))
  {
    seq(|os|, i requires 0 <= i < |os| =>
      Feature(KindOf(os[i].shape), Kept(round, os[i].shape), ReadBack(style, os[i].properties)))
  }

  lemma {:induction false} ObjectsAreRead(style: Style, round: real -> real, os: seq<Object>, texts: seq<string>)
    requires Faithful(style.format, round) && AllPrintable(os) && |texts| == |os|
    requires forall i :: 0 <= i < |os| ==> texts[i] == Render(ObjectBlock(style, os[i]))
    ensures FeaturesOf(style.format, texts) == ReadObjects(style, round, os)
    decreases |os|
  {
    hide Faithful, Render, ObjectBlock, FeatureOf, Kept, KindOf, PrintableProperties, ReadBack, IsEscaped, Unquoted;
    if os != [] {
      var last := |os| - 1;
      ObjectsAreRead(style, round, os[..last], texts[..last]);
      ObjectIsRead(style, round, os[last]);
      KindIsQuotable(os[last].shape);
      assert ReadObjects(style, round, os) == ReadObjects(style, round, os[..last]) + [ReadObjects(style, round, os)[last]];
    }
  }

  /** A standard feature collection is read with all its features, each as far as `Kept` says. */
  lemma StandardIsRead(style: Style, round: real -> real, os: seq<Object>)
    requires Faithful(style.format, round) && AllPrintable(os)
    ensures Parsed(style.format, CollectionText(style, os)).features == ReadObjects(style, round, os)
  {
    hide Faithful, AllPrintable, CollectionName, CollectionFeatures, CollectionText, FeaturesOf, ReadObjects, Render, ObjectBlock;
    ObjectsAreFound(style, round, os);
    ObjectsAreRead(style, round, os, RenderAll(ObjectBlocks(style, os)));
  }
}
