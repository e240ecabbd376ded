/**
 * The hand-written GeoJSON reader (gis/geojson_parser.cpp, class GeoJsonParser).
 *
 * Each method scans the text with index loops. The functions beside them say where the scans
 * stop; GeoJsonRoundTrip proves what they find in exported text. A failed search is -1, so that
 * adding one to it gives position 0, as with the unsigned npos of the source.
 */
module GeoJsonParser {
  import opened Common

  /** Printing and reading of numbers, which the C++ library does; the parser only needs `stod`. */
  datatype NumberFormat = NumberFormat(print_: real -> string, stod: string -> ParsedNumber)

  datatype ParsedNumber = NotANumber | Number(value: real)

  datatype Feature = Feature(kind: string, coordinates: seq<seq<real>>, properties: map<string, string>)

  datatype Collection = Collection(name: string, features: seq<Feature>)

  const DEFAULT_NAME := "POWSYS365 Network"

  // ---------------------------------------------------------------------------
  // String utilities
  // ---------------------------------------------------------------------------

  function InQuotes(s: string): string {
    [QUOTE] + s + [QUOTE]
  }

  predicate IsSpace(c: char) {
    c == ' ' || 9 <= c as int <= 13
  }

  function FindChar(text: string, c: char, from: nat): (i: int)
    ensures -1 <= i < |text| && (i >= 0 ==> i >= from && text[i] == c)
    decreases |text| - from
  {
    if from >= |text| then -1 else if text[from] == c then from else FindChar(text, c, from + 1)
  }

  function FindText(text: string, pattern: string, from: nat): (i: int)
    ensures -1 <= i && (i >= 0 ==> i >= from && i + |pattern| <= |text|)
    decreases |text| - from
  {
    if from + |pattern| > |text| then -1
    else if text[from..from + |pattern|] == pattern then from
    else FindText(text, pattern, from + 1)
  }

  function SkipSpaces(text: string, from: nat): (i: nat)
    ensures from <= i && (from <= |text| ==> i <= |text|) && (i < |text| ==> !IsSpace(text[i]))
    decreases |text| - from
  {
    if from < |text| && IsSpace(text[from]) then SkipSpaces(text, from + 1) else from
  }

  function DropTrailingSpaces(s: string): string {
    if s != [] && IsSpace(s[|s| - 1]) then DropTrailingSpaces(s[..|s| - 1]) else s
  }

  function Trim(s: string): string {
    DropTrailingSpaces(s[SkipSpaces(s, 0)..])
  }

  // ---------------------------------------------------------------------------
  // Blocks
  // ---------------------------------------------------------------------------

  /** A quote that is not escaped by the character before it. */
  predicate OpensOrCloses(text: string, i: nat)
    requires i < |text|
  {
    text[i] == QUOTE && (i == 0 || text[i - 1] != BACKSLASH)
  }

  /** The position of the bracket that brings the depth back to zero, or -1. */
  function BlockEnd(text: string, i: nat, open: char, close: char, depth: int, inString: bool): (e: int)
    ensures -1 <= e < |text| && (e >= 0 ==> e >= i)
    decreases |text| - i
  {
    if i >= |text| then -1
    else if OpensOrCloses(text, i) then BlockEnd(text, i + 1, open, close, depth, !inString)
    else if inString then BlockEnd(text, i + 1, open, close, depth, inString)
    else if text[i] == open then BlockEnd(text, i + 1, open, close, depth + 1, inString)
    else if text[i] == close then
      if depth == 1 then i else BlockEnd(text, i + 1, open, close, depth - 1, inString)
    else BlockEnd(text, i + 1, open, close, depth, inString)
  }

  function Closing(open: char): char {
    if open == '{' then '}' else ']'
  }

  function Block(text: string, start: nat): (b: string)
    ensures |b| <= |text| && (b != "" ==> start + |b| <= |text|)
  {
    var i := SkipSpaces(text, start);
    if i >= |text| || (text[i] != '{' && text[i] != '[') then ""
    else
      var e := BlockEnd(text, i, text[i], Closing(text[i]), 0, false);
      if e < 0 then "" else text[start..e + 1]
  }

  /** The loops that step over blanks. */
  method SkipWhitespace(text: string, from: nat) returns (i: nat)
    requires from <= |text|
    ensures i == SkipSpaces(text, from)
  {
    i := from;
    while i < |text| && IsSpace(text[i])
      invariant from <= i <= |text| && SkipSpaces(text, i) == SkipSpaces(text, from)
    {
      i := i + 1;
    }
  }

  method ExtractBlock(text: string, startPos: nat) returns (b: string)
    ensures b == Block(text, startPos)
  {
    if startPos >= |text| { return ""; }
    var i := SkipWhitespace(text, startPos);
    if i >= |text| { return ""; }
    var openChar := text[i];
    var closeChar;
    if openChar == '{' { closeChar := '}'; }
    else if openChar == '[' { closeChar := ']'; }
    else { return ""; }

    var depth, inString := 0, false;
    ghost var e := BlockEnd(text, i, openChar, closeChar, 0, false);
    while i < |text|
      invariant startPos <= i <= |text| && BlockEnd(text, i, openChar, closeChar, depth, inString) == e
      decreases |text| - i
    {
      if text[i] == QUOTE && (i == 0 || text[i - 1] != BACKSLASH) {
        inString := !inString;
        i := i + 1;
        continue;
      }
      if !inString {
        if text[i] == openChar { depth := depth + 1; }
        else if text[i] == closeChar {
          depth := depth - 1;
          if depth == 0 { return text[startPos..i + 1]; }
        }
      }
      i := i + 1;
    }
    return "";
  }

  /** What a bracketed text holds between its outer brackets, if it has them. */
  predicate Bracketed(s: string, open: char) {
    |s| >= 2 && s[0] == open && s[|s| - 1] == Closing(open)
  }

  function Inner(s: string): string
    requires |s| >= 2
  {
    s[1..|s| - 1]
  }

  // ---------------------------------------------------------------------------
  // Splitting
  // ---------------------------------------------------------------------------

  function FeaturesFrom(inner: string, from: nat): seq<string>
    decreases |inner| - from
  {
    var i := SkipSpaces(inner, from);
    if i >= |inner| then []
    else if inner[i] == ',' then FeaturesFrom(inner, i + 1)
    else
      var b := Block(inner, i);
      if b != "" then [b] + FeaturesFrom(inner, i + |b|) else FeaturesFrom(inner, i + 1)
  }

  function FeatureTexts(block: string): seq<string> {
    var t := Trim(block);
    if Bracketed(t, '[') then FeaturesFrom(Inner(t), 0) else []
  }

  method SplitFeatures(featuresBlock: string) returns (features: seq<string>)
    ensures features == FeatureTexts(featuresBlock)
  {
    hide Block, Trim, SkipSpaces;
    features := [];
    var trimmed := Trim(featuresBlock);
    if |trimmed| < 2 || trimmed[0] != '[' || trimmed[|trimmed| - 1] != ']' { return; }
    var inner := trimmed[1..|trimmed| - 1];
    var i := 0;
    while i < |inner|
      invariant 0 <= i <= |inner| && features + FeaturesFrom(inner, i) == FeaturesFrom(inner, 0)
      decreases |inner| - i
    {
      i := SkipWhitespace(inner, i);
      if i >= |inner| { break; }
      if inner[i] == ',' { i := i + 1; continue; }
      var block := ExtractBlock(inner, i);
      if block != "" {
        features := features + [block];
        i := i + |block|;
      } else {
        i := i + 1;
      }
    }
  }

  /** The blocks at depth one, given the start of the current one. */
  function PairsFrom(inner: string, i: nat, depth: int, inString: bool, start: nat): seq<string>
    requires start <= i
    decreases |inner| - i
  {
    if i >= |inner| then []
    else if OpensOrCloses(inner, i) then PairsFrom(inner, i + 1, depth, !inString, start)
    else if inString then PairsFrom(inner, i + 1, depth, inString, start)
    else if inner[i] == '[' then PairsFrom(inner, i + 1, depth + 1, inString, if depth == 0 then i else start)
    else if inner[i] == ']' then
      (if depth == 1 then [inner[start..i + 1]] else []) + PairsFrom(inner, i + 1, depth - 1, inString, start)
    else PairsFrom(inner, i + 1, depth, inString, start)
  }

  function PairTexts(coords: string): seq<string> {
    var t := Trim(coords);
    if Bracketed(t, '[') then PairsFrom(Inner(t), 0, 0, false, 0) else []
  }

  method SplitCoordinatePairs(coords: string) returns (pairs: seq<string>)
    ensures pairs == PairTexts(coords)
  {
    pairs := [];
    var trimmed := Trim(coords);
    if |trimmed| < 2 || trimmed[0] != '[' || trimmed[|trimmed| - 1] != ']' { return; }
    var inner := trimmed[1..|trimmed| - 1];
    var i, depth, inString, start := 0, 0, false, 0;
    while i < |inner|
      invariant 0 <= start <= i <= |inner|
      invariant pairs + PairsFrom(inner, i, depth, inString, start) == PairsFrom(inner, 0, 0, false, 0)
    {
      if inner[i] == QUOTE && (i == 0 || inner[i - 1] != BACKSLASH) {
        inString := !inString;
        i := i + 1;
        continue;
      }
      if !inString {
        if inner[i] == '[' {
          if depth == 0 { start := i; }
          depth := depth + 1;
        } else if inner[i] == ']' {
          depth := depth - 1;
          if depth == 0 { pairs := pairs + [inner[start..i + 1]]; }
        }
      }
      i := i + 1;
    }
  }

  // ---------------------------------------------------------------------------
  // Numbers
  // ---------------------------------------------------------------------------

  /** The number of one comma-separated piece; pieces that are no numbers are ignored. */
  function PieceValue(format: NumberFormat, piece: string): seq<real> {
    var t := Trim(piece);
    if t == "" then []
    else match format.stod(t)
      case NotANumber => []
      case Number(x) => [x]
  }

  /** The next comma, or the end. */
  function PieceEnd(inner: string, from: nat): (end: nat)
    requires from <= |inner|
    ensures from <= end <= |inner|
  {
    var comma := FindChar(inner, ',', from);
    if comma < 0 then |inner| else comma
  }

  /** The numbers between commas, from a position on. */
  function ValuesFrom(format: NumberFormat, inner: string, from: nat): seq<real>
    decreases |inner| - from
  {
    if from >= |inner| then []
    else
      var end := PieceEnd(inner, from);
      PieceValue(format, inner[from..end]) + ValuesFrom(format, inner, end + 1)
  }

  function Coordinates(format: NumberFormat, block: string): seq<seq<real>> {
    var t := Trim(block);
    if !Bracketed(t, '[') then []
    else
      var values := ValuesFrom(format, Inner(t), 0);
      if values == [] then [] else [values]
  }

  method ParseCoordinates(format: NumberFormat, coordsBlock: string) returns (result: seq<seq<real>>)
    ensures result == Coordinates(format, coordsBlock)
  {
    result := [];
    hide Trim, PieceEnd, PieceValue;
    var trimmed := Trim(coordsBlock);
    if |trimmed| < 2 || trimmed[0] != '[' || trimmed[|trimmed| - 1] != ']' { return; }
    var inner := trimmed[1..|trimmed| - 1];
    var values := [];
    var i := 0;
    while i < |inner|
      invariant 0 <= i && values + ValuesFrom(format, inner, i) == ValuesFrom(format, inner, 0)
      decreases |inner| - i
    {
      var end := PieceEnd(inner, i);
      values := values + PieceValue(format, inner[i..end]);
      i := end + 1;
    }
    assert values + [] == values;
    if values != [] { result := [values]; }
  }

  // ---------------------------------------------------------------------------
  // Properties
  // ---------------------------------------------------------------------------

  /** Skips spaces and commas. */
  function SkipSeparators(text: string, from: nat): (i: nat)
    ensures from <= i && (from <= |text| ==> i <= |text|)
    decreases |text| - from
  {
    if from < |text| && (IsSpace(text[from]) || text[from] == ',') then SkipSeparators(text, from + 1) else from
  }

  /** One name and value, and where the scan goes on. */
  datatype Property = Property(key: string, value: string, next: nat)

  function PropertyAt(inner: string, i: nat): (r: Option<Property>)
    ensures r.Some? ==> i < r.value.next <= |inner|
  {
    var keyStart := FindChar(inner, QUOTE, i);
    if keyStart < 0 then None
    else
      var keyEnd := FindChar(inner, QUOTE, keyStart + 1);
      if keyEnd < 0 then None
      else
        var colon := FindChar(inner, ':', keyEnd);
        if colon < 0 then None
        else
          var key := inner[keyStart + 1..keyEnd];
          var valStart := SkipSpaces(inner, colon + 1);
          if valStart < |inner| && inner[valStart] == QUOTE then
            var valEnd := FindChar(inner, QUOTE, valStart + 1);
            if valEnd < 0 then None else Some(Property(key, inner[valStart + 1..valEnd], valEnd + 1))
          else
            var comma := FindChar(inner, ',', valStart);
            var valEnd := if comma < 0 then |inner| else comma;
            Some(Property(key, Trim(inner[valStart..valEnd]), valEnd))
  }

  /** Later values replace earlier ones of the same name. */
  function PropertiesFrom(inner: string, i: nat, props: map<string, string>): map<string, string>
    decreases |inner| - i
  {
    if i >= |inner| then props
    else match PropertyAt(inner, i)
      case None => props
      case Some(p) => PropertiesFrom(inner, SkipSeparators(inner, p.next), props[p.key := p.value])
  }

  function Properties(block: string): map<string, string> {
    var t := Trim(block);
    if Bracketed(t, '{') then PropertiesFrom(Inner(t), 0, map[]) else map[]
  }

  /** The part of the loop of ParseProperties that finds a name and its value. */
  method ReadProperty(inner: string, i: nat) returns (r: Option<Property>)
    ensures r == PropertyAt(inner, i)
  {
    hide FindChar, Trim, SkipSpaces;
    var keyStart := FindChar(inner, QUOTE, i);
    if keyStart < 0 { return None; }
    var keyEnd := FindChar(inner, QUOTE, keyStart + 1);
    if keyEnd < 0 { return None; }
    var key := inner[keyStart + 1..keyEnd];
    var colonPos := FindChar(inner, ':', keyEnd);
    if colonPos < 0 { return None; }
    var valStart := SkipSpaces(inner, colonPos + 1);
    if valStart < |inner| && inner[valStart] == QUOTE {
      var valEnd := FindChar(inner, QUOTE, valStart + 1);
      if valEnd < 0 { return None; }
      r := Some(Property(key, inner[valStart + 1..valEnd], valEnd + 1));
    } else {
      var comma := FindChar(inner, ',', valStart);
      var valEnd := if comma < 0 then |inner| else comma;
      r := Some(Property(key, Trim(inner[valStart..valEnd]), valEnd));
    }
  }

  method ParseProperties(propsBlock: string) returns (props: map<string, string>)
    ensures props == Properties(propsBlock)
  {
    hide PropertyAt, Trim;
    props := map[];
    var trimmed := Trim(propsBlock);
    if |trimmed| < 2 || trimmed[0] != '{' || trimmed[|trimmed| - 1] != '}' { return; }
    var inner := trimmed[1..|trimmed| - 1];
    var i := 0;
    while i < |inner|
      invariant 0 <= i <= |inner| && PropertiesFrom(inner, i, props) == PropertiesFrom(inner, 0, map[])
      decreases |inner| - i
    {
      var property := ReadProperty(inner, i);
      if property.None? { break; }
      i := property.value.next;
      props := props[property.value.key := property.value.value];
      ghost var at := i;
      while i < |inner| && (IsSpace(inner[i]) || inner[i] == ',')
        invariant at <= i <= |inner| && SkipSeparators(inner, i) == SkipSeparators(inner, at)
      {
        i := i + 1;
      }
    }
  }

  // ---------------------------------------------------------------------------
  // Features and collections
  // ---------------------------------------------------------------------------

  /** The text between the next two quotes after the next colon: the string value of a key. */
  function ValueAfter(text: string, keyPos: nat, absent: string): string {
    var colon := FindChar(text, ':', keyPos);
    var quote := FindChar(text, QUOTE, colon + 1);
    var end := FindChar(text, QUOTE, quote + 1);
    if quote >= 0 && end >= 0 then text[quote + 1..end] else absent
  }

  function FirstRows(format: NumberFormat, texts: seq<string>): seq<seq<real>> {
    if texts == [] then []
    else
      var last := |texts| - 1;
      var c := Coordinates(format, texts[last]);
      FirstRows(format, texts[..last]) + if c == [] then [] else [c[0]]
  }

  function CoordinatesOf(format: NumberFormat, kind: string, block: string): seq<seq<real>> {
    if kind == "Point" then Coordinates(format, block)
    else if kind == "LineString" then FirstRows(format, PairTexts(block))
    else if kind == "Polygon" then
      var rings := PairTexts(block);
      if rings == [] then [] else FirstRows(format, PairTexts(rings[0]))
    else []
  }

  function GeometryKind(text: string): string {
    var geometry := FindText(text, InQuotes("geometry"), 0);
    if geometry < 0 then ""
    else
      var key := FindText(text, InQuotes("type"), geometry);
      if key < 0 then "" else ValueAfter(text, key, "")
  }

  function GeometryCoordinates(format: NumberFormat, text: string): seq<seq<real>> {
    var geometry := FindText(text, InQuotes("geometry"), 0);
    if geometry < 0 then []
    else
      var key := FindText(text, InQuotes("coordinates"), geometry);
      if key < 0 then []
      else
        var bracket := FindChar(text, '[', key);
        if bracket < 0 then [] else CoordinatesOf(format, GeometryKind(text), Block(text, bracket))
  }

  function FeatureProperties(text: string): map<string, string> {
    var key := FindText(text, InQuotes("properties"), 0);
    if key < 0 then map[]
    else
      var brace := FindChar(text, '{', key);
      if brace < 0 then map[] else Properties(Block(text, brace))
  }

  function FeatureOf(format: NumberFormat, text: string): Feature {
    Feature(GeometryKind(text), GeometryCoordinates(format, text), FeatureProperties(text))
  }

  /** The features whose geometry has a type. */
  function FeaturesOf(format: NumberFormat, texts: seq<string>): seq<Feature> {
    if texts == [] then []
    else
      var last := |texts| - 1;
      var f := FeatureOf(format, texts[last]);
      FeaturesOf(format, texts[..last]) + if f.kind == "" then [] else [f]
  }

  function CollectionName(text: string): string {
    var key := FindText(text, InQuotes("name"), 0);
    var name := if key < 0 then "" else ValueAfter(text, key, "");
    if name == "" then DEFAULT_NAME else name
  }

  function CollectionFeatures(format: NumberFormat, text: string): seq<Feature> {
    var key := FindText(text, InQuotes("features"), 0);
    if key < 0 then []
    else
      var bracket := FindChar(text, '[', key);
      if bracket < 0 then [] else FeaturesOf(format, FeatureTexts(Block(text, bracket)))
  }

  function Parsed(format: NumberFormat, text: string): Collection {
    Collection(CollectionName(text), CollectionFeatures(format, text))
  }

  method CollectRows(format: NumberFormat, texts: seq<string>) returns (rows: seq<seq<real>>)
    ensures rows == FirstRows(format, texts)
  {
    hide Coordinates;
    rows := [];
    for i := 0 to |texts|
      invariant rows == FirstRows(format, texts[..i])
    {
      assert texts[..i + 1][..i] == texts[..i];
      var c := ParseCoordinates(format, texts[i]);
      if c != [] { rows := rows + [c[0]]; }
    }
    assert texts[..|texts|] == texts;
  }

  method ParseFeature(format: NumberFormat, featureBlock: string) returns (feature: Feature)
    ensures feature == FeatureOf(format, featureBlock)
  {
    var kind, coordinates, properties := "", [], map[];
    var geomPos := FindText(featureBlock, InQuotes("geometry"), 0);
    if geomPos >= 0 {
      var typePos := FindText(featureBlock, InQuotes("type"), geomPos);
      if typePos >= 0 {
        kind := ValueAfter(featureBlock, typePos, "");
      }
      var coordsPos := FindText(featureBlock, InQuotes("coordinates"), geomPos);
      if coordsPos >= 0 {
        var bracketPos := FindChar(featureBlock, '[', coordsPos);
        if bracketPos >= 0 {
          var coordsBlock := ExtractBlock(featureBlock, bracketPos);
          if kind == "Point" {
            coordinates := ParseCoordinates(format, coordsBlock);
          } else if kind == "LineString" {
            var pairs := SplitCoordinatePairs(coordsBlock);
            coordinates := CollectRows(format, pairs);
          } else if kind == "Polygon" {
            var rings := SplitCoordinatePairs(coordsBlock);
            if rings != [] {
              var pairs := SplitCoordinatePairs(rings[0]);
              coordinates := CollectRows(format, pairs);
            }
          }
        }
      }
    }
    var propsPos := FindText(featureBlock, InQuotes("properties"), 0);
    if propsPos >= 0 {
      var bracePos := FindChar(featureBlock, '{', propsPos);
      if bracePos >= 0 {
        var propsBlock := ExtractBlock(featureBlock, bracePos);
        properties := ParseProperties(propsBlock);
      }
    }
    feature := Feature(kind, coordinates, properties);
  }

  method ParseFeatures(format: NumberFormat, featuresBlock: string) returns (features: seq<Feature>)
    ensures features == FeaturesOf(format, FeatureTexts(featuresBlock))
  {
    hide FeatureOf, FeatureTexts;
    features := [];
    var texts := SplitFeatures(featuresBlock);
    for i := 0 to |texts|
      invariant features == FeaturesOf(format, texts[..i])
    {
      assert texts[..i + 1][..i] == texts[..i];
      var f := ParseFeature(format, texts[i]);
      if f.kind != "" { features := features + [f]; }
    }
    assert texts[..|texts|] == texts;
  }

  method Parse(format: NumberFormat, text: string) returns (collection: Collection)
    ensures collection == Parsed(format, text)
  {
    var name, features := "", [];
    var namePos := FindText(text, InQuotes("name"), 0);
    if namePos >= 0 {
      name := ValueAfter(text, namePos, "");
    }
    if name == "" { name := DEFAULT_NAME; }
    var featuresPos := FindText(text, InQuotes("features"), 0);
    if featuresPos >= 0 {
      var bracketPos := FindChar(text, '[', featuresPos);
      if bracketPos >= 0 {
        var featuresBlock := ExtractBlock(text, bracketPos);
        features := ParseFeatures(format, featuresBlock);
      }
    }
    collection := Collection(name, features);
  }
}
