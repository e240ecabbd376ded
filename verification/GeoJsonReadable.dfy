/**
 * What any text can be parsed to, whether or not an exporter wrote it.
 *
 * A string ends at its first quote, a value without quotes around it at the next comma, a feature
 * needs a type, and only three types have coordinates. GeoJsonRoundTrip uses this for the
 * collections that can never come back.
 */
module GeoJsonReadable {
  import opened Common
  import opened GeoJsonParser
  import opened GeoJsonLexemes

  predicate HasCoordinates(kind: string) {
    kind == "Point" || kind == "LineString" || kind == "Polygon"
  }

  /** What a value can be: text between quotes, or trimmed text up to a comma. */
  predicate ReadableValue(v: string) {
    NoQuote(v) || (Lacks(v, ',') && v[0] != QUOTE && !IsSpace(v[0]) && !IsSpace(v[|v| - 1]))
  }

  ghost predicate ReadableProperties(props: map<string, string>) {
    forall k :: k in props ==> NoQuote(k) && ReadableValue(props[k])
  }

  /** A feature that some text is parsed to. */
  ghost predicate Readable(f: Feature) {
    && f.kind != "" && NoQuote(f.kind)
    && ReadableProperties(f.properties)
    && (HasCoordinates(f.kind) || f.coordinates == [])
  }

  lemma SliceHasNoQuote(text: string, from: nat)
    ensures var i := FindChar(text, QUOTE, from); i >= 0 ==> NoQuote(text[from..i])
  {
    FindCharFirst(text, QUOTE, from);
  }

  lemma ValueHasNoQuote(text: string, keyPos: nat)
    ensures NoQuote(ValueAfter(text, keyPos, ""))
  {
    hide FindChar, NoQuote;
    var quote := FindChar(text, QUOTE, FindChar(text, ':', keyPos) + 1);
    SliceHasNoQuote(text, quote + 1);
    EmptyHasNoQuote();
  }

  lemma EmptyHasNoQuote()
    ensures NoQuote("")
  {
  }

  lemma KindHasNoQuote(text: string)
    ensures NoQuote(GeometryKind(text))
  {
    hide FindText, ValueAfter, NoQuote, InQuotes;
    EmptyHasNoQuote();
    var geometry := FindText(text, InQuotes("geometry"), 0);
    if geometry >= 0 {
      var key := FindText(text, InQuotes("type"), geometry);
      if key >= 0 { ValueHasNoQuote(text, key); }
    }
  }

  lemma KeyHasNoQuote(inner: string, i: nat)
    ensures PropertyAt(inner, i).Some? ==> NoQuote(PropertyAt(inner, i).value.key)
  {
    hide FindChar, SkipSpaces, Trim, NoQuote;
    var keyStart := FindChar(inner, QUOTE, i);
    SliceHasNoQuote(inner, keyStart + 1);
  }

  lemma {:induction false} DropTrailingMeans(s: string)
    ensures DropTrailingSpaces(s) <= s
    ensures DropTrailingSpaces(s) != [] ==> !IsSpace(DropTrailingSpaces(s)[|DropTrailingSpaces(s)| - 1])
  {
    if s != [] && IsSpace(s[|s| - 1]) { DropTrailingMeans(s[..|s| - 1]); }
  }

  /** The value without quotes around it. */
  lemma BareValueIsReadable(inner: string, from: nat, to: nat)
    requires from <= to <= |inner| && (from < |inner| ==> !IsSpace(inner[from]) && inner[from] != QUOTE)
    requires forall j :: from <= j < to ==> inner[j] != ','
    ensures ReadableValue(Trim(inner[from..to]))
  {
    var s := inner[from..to];
    assert SkipSpaces(s, 0) == 0 && s[0..] == s;
    DropTrailingMeans(s);
  }

  lemma QuotedValueIsReadable(inner: string, open: nat, close: nat)
    requires open < close <= |inner| && NoQuote(inner[open + 1..close])
    ensures ReadableValue(inner[open + 1..close])
  {
  }

  lemma ValueIsReadable(inner: string, i: nat)
    ensures PropertyAt(inner, i).Some? ==> ReadableValue(PropertyAt(inner, i).value.value)
  {
    hide FindChar, SkipSpaces, Trim, NoQuote, ReadableValue;
    if PropertyAt(inner, i).Some? {
      var keyEnd := FindChar(inner, QUOTE, FindChar(inner, QUOTE, i) + 1);
      var valStart := SkipSpaces(inner, FindChar(inner, ':', keyEnd) + 1);
      if valStart < |inner| && inner[valStart] == QUOTE {
        SliceHasNoQuote(inner, valStart + 1);
        QuotedValueIsReadable(inner, valStart, FindChar(inner, QUOTE, valStart + 1));
      } else {
        FindCharFirst(inner, ',', valStart);
        var comma := FindChar(inner, ',', valStart);
        BareValueIsReadable(inner, valStart, if comma < 0 then |inner| else comma);
      }
    }
  }

  lemma {:induction false} PropertiesFromAreReadable(inner: string, i: nat, props: map<string, string>)
    requires ReadableProperties(props)
    ensures ReadableProperties(PropertiesFrom(inner, i, props))
    decreases |inner| - i
  {
    hide PropertyAt, SkipSeparators, NoQuote, ReadableValue;
    if i < |inner| && PropertyAt(inner, i).Some? {
      var p := PropertyAt(inner, i).value;
      KeyHasNoQuote(inner, i);
      ValueIsReadable(inner, i);
      PropertiesFromAreReadable(inner, SkipSeparators(inner, p.next), props[p.key := p.value]);
    }
  }

  lemma PropertiesAreReadable(text: string)
    ensures ReadableProperties(FeatureProperties(text))
  {
    hide FindText, FindChar, Block, Trim, PropertiesFrom, NoQuote, InQuotes, ReadableValue;
    var key := FindText(text, InQuotes("properties"), 0);
    if key >= 0 && FindChar(text, '{', key) >= 0 {
      var brace := FindChar(text, '{', key);
      var t := Trim(Block(text, brace));
      if Bracketed(t, '{') { PropertiesFromAreReadable(Inner(t), 0, map[]); }
    }
  }

  lemma CoordinatesNeedKind(format: NumberFormat, text: string)
    ensures HasCoordinates(GeometryKind(text)) || GeometryCoordinates(format, text) == []
  {
    hide FindText, FindChar, Block, GeometryKind, InQuotes, Coordinates, PairTexts, FirstRows;
  }

  lemma FeatureIsReadable(format: NumberFormat, text: string)
    ensures FeatureOf(format, text).kind != "" ==> Readable(FeatureOf(format, text))
  {
    hide GeometryKind, GeometryCoordinates, FeatureProperties, NoQuote, HasCoordinates, ReadableProperties;
    KindHasNoQuote(text);
    PropertiesAreReadable(text);
    CoordinatesNeedKind(format, text);
  }

  lemma {:induction false} FeaturesAreReadable(format: NumberFormat, texts: seq<string>)
    ensures forall f :: f in FeaturesOf(format, texts) ==> Readable(f)
  {
    hide FeatureOf, Readable;
    if texts != [] {
      var last := |texts| - 1;
      FeaturesAreReadable(format, texts[..last]);
      FeatureIsReadable(format, texts[last]);
    }
  }

  /** Whatever the text, the features are readable ones. */
  lemma ParsedIsReadable(format: NumberFormat, text: string)
    ensures forall f :: f in Parsed(format, text).features ==> Readable(f)
  {
    hide FindText, FindChar, InQuotes, Block, FeatureTexts, FeaturesOf, Readable, CollectionName;
    var key := FindText(text, InQuotes("features"), 0);
    if key >= 0 && FindChar(text, '[', key) >= 0 {
      FeaturesAreReadable(format, FeatureTexts(Block(text, FindChar(text, '[', key))));
    }
  }
}
