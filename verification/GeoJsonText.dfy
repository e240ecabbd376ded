/**
 * The text of an export, written out, in both layouts.
 */
module GeoJsonText {
  import opened GeoJsonParser
  import opened GeoJsonLexemes
  import opened GeoJsonExporter

  /** A name, a colon and a blank. */
  function Key(w: string): string {
    InQuotes(w) + ": "
  }

  /** In pretty mode, a new line with two blanks for every level. */
  function Indent(pretty: bool, level: nat): string {
    if pretty then "\n" + seq(2 * level, _ => ' ') else ""
  }

  /** A comma, and a blank or a new line. */
  function Comma(pretty: bool, level: nat): string {
    if pretty then "," + Indent(true, level) else ", "
  }

  /** The entries of the properties, with commas before all but the first. */
  ghost function EntriesText(pretty: bool, props: map<string, string>, keys: seq<string>, first: bool): string
    requires forall k :: k in keys ==> k in props
  {
    if keys == [] then ""
    else (if first then "" else ",") + Indent(pretty, 4)
         + (Key(Escape(keys[0])) + InQuotes(Escape(props[keys[0]])) + EntriesText(pretty, props, keys[1..], false))
  }

  /** The positions, with commas and blanks between them and between their numbers. */
  ghost function NumbersText(format: NumberFormat, row: seq<real>): string {
    if row == [] then "" else if |row| == 1 then format.print_(row[0])
    else format.print_(row[0]) + ", " + NumbersText(format, row[1..])
  }

  ghost function PositionsText(format: NumberFormat, rows: seq<seq<real>>): string {
    if rows == [] then "" else if |rows| == 1 then "[" + NumbersText(format, rows[0]) + "]"
    else "[" + NumbersText(format, rows[0]) + "]" + ", " + PositionsText(format, rows[1..])
  }

  ghost function GeometryText(pretty: bool, format: NumberFormat, f: Feature): string {
    "{" + ((Indent(pretty, 4) + Key("type") + InQuotes(f.kind) + Comma(pretty, 4) + Key("coordinates"))
           + ("[" + (PositionsText(format, f.coordinates) + "]")))
    + Indent(pretty, 3) + "}"
  }

  ghost function PropertiesText(pretty: bool, props: map<string, string>): string {
    SortedKeysAreKeys(props.Keys);
    "{" + EntriesText(pretty, props, SortedKeys(props.Keys), true) + Indent(pretty, 3) + "}"
  }

  ghost function FeatureText(pretty: bool, format: NumberFormat, f: Feature): string {
    "{" + ((Indent(pretty, 3) + Key("type") + InQuotes("Feature") + Comma(pretty, 3) + Key("geometry"))
           + GeometryText(pretty, format, f) + (Comma(pretty, 3) + Key("properties")) + PropertiesText(pretty, f.properties))
    + Indent(pretty, 2) + "}"
  }

  ghost function FeaturesText(pretty: bool, format: NumberFormat, fs: seq<Feature>, first: bool): string {
    if fs == [] then ""
    else (if first then "" else ",") + Indent(pretty, 2)
         + (FeatureText(pretty, format, fs[0]) + FeaturesText(pretty, format, fs[1..], false))
  }

  ghost function ExportText(pretty: bool, format: NumberFormat, c: Collection): string {
    var b := CollectionBounds(c.features);
    "{" + ((Indent(pretty, 1) + Key("type") + InQuotes("FeatureCollection")
            + Comma(pretty, 1) + Key("name") + InQuotes(Escape(c.name)) + Comma(pretty, 1) + Key("bbox"))
           + ("[" + NumbersText(format, [b.minLon, b.minLat, b.maxLon, b.maxLat]) + "]")
           + (Comma(pretty, 1) + Key("features"))
           + ("[" + FeaturesText(pretty, format, c.features, true) + (if c.features == [] then "" else Indent(pretty, 1)) + "]"))
    + Indent(pretty, 0) + "}"
  }

  // ---------------------------------------------------------------------------
  // The lexemes render to it
  // ---------------------------------------------------------------------------

  lemma RenderFour(a: Lexeme, b: Lexeme, c: Lexeme, d: Lexeme)
    ensures Render([a, b, c, d]) == Show(a) + Show(b) + Show(c) + Show(d)
  {
    hide Show;
    assert [a, b, c, d] == [a] + ([b] + ([c] + [d]));
    RenderConcat([a], [b] + ([c] + [d]));
    RenderConcat([b], [c] + [d]);
    RenderConcat([c], [d]);
    RenderOne(a);
    RenderOne(b);
    RenderOne(c);
    RenderOne(d);
  }

  lemma RenderThree(a: Lexeme, b: Lexeme, c: Lexeme)
    ensures Render([a, b, c]) == Show(a) + Show(b) + Show(c)
  {
    hide Show;
    assert [a, b, c] == [a] + ([b] + [c]);
    RenderConcat([a], [b] + [c]);
    RenderConcat([b], [c]);
    RenderOne(a);
    RenderOne(b);
    RenderOne(c);
  }

  lemma {:induction false} NumbersRendered(style: Style, row: seq<real>)
    ensures ValuesText(style, row, true) == NumbersText(style.format, row)
    ensures row != [] ==> ValuesText(style, row, false) == ", " + NumbersText(style.format, row)
  {
    if row != [] {
      NumbersRendered(style, row[1..]);
      if |row| == 1 { assert row[1..] == []; }
    }
  }

  lemma {:induction false} PositionsRendered(style: Style, rows: seq<seq<real>>)
    ensures Render(Rows(style, rows, true)) == PositionsText(style.format, rows)
    ensures rows != [] ==> Render(Rows(style, rows, false)) == ", " + PositionsText(style.format, rows)
  {
    hide NumbersText, ValuesText;
    if rows != [] {
      PositionsRendered(style, rows[1..]);
      OnePosition(style, rows, true);
      OnePosition(style, rows, false);
      if |rows| == 1 {
        assert rows[1..] == [];
        NoPositions(style);
      }
    }
  }

  lemma NoPositions(style: Style)
    ensures Render(Rows(style, [], false)) == ""
  {
  }

  lemma OnePosition(style: Style, rows: seq<seq<real>>, first: bool)
    requires rows != []
    ensures Render(Rows(style, rows, first))
         == (if first then "" else ", ") + ("[" + NumbersText(style.format, rows[0]) + "]") + Render(Rows(style, rows[1..], false))
  {
    hide Render, Rows, NumbersText, RowLead;
    FirstRow(style, rows, first);
    RenderConcat([RowLead(first)] + RowBlock(style, rows[0]), Rows(style, rows[1..], false));
    LeadAndRow(style, rows[0], first);
  }

  lemma FirstRow(style: Style, rows: seq<seq<real>>, first: bool)
    requires rows != []
    ensures Rows(style, rows, first) == [RowLead(first)] + RowBlock(style, rows[0]) + Rows(style, rows[1..], false)
  {
  }

  lemma LeadAndRow(style: Style, row: seq<real>, first: bool)
    ensures Render([RowLead(first)] + RowBlock(style, row))
         == (if first then "" else ", ") + ("[" + NumbersText(style.format, row) + "]")
  {
    hide Render, ValuesText, NumbersText;
    var values := Raw(ValuesText(style, row, true));
    NumbersRendered(style, row);
    Grouped(if first then "" else ", ", "[", NumbersText(style.format, row), "]");
    assert [RowLead(first)] + RowBlock(style, row) == [RowLead(first), Mark('['), values, Mark(']')];
    RenderFour(RowLead(first), Mark('['), values, Mark(']'));
  }

  lemma LayoutIs(pretty: bool, level: nat)
    ensures NewLine(pretty, level) == Indent(pretty, level) && Separator(pretty, level) == Comma(pretty, level)
  {
    assert ",\n" + Blanks(2 * level) == "," + ("\n" + Blanks(2 * level));
  }

  lemma {:induction false} EntriesRendered(style: Style, props: map<string, string>, keys: seq<string>, first: bool)
    requires forall k :: k in keys ==> k in props
    ensures Render(Entries(style, props, keys, first)) == EntriesText(style.pretty, props, keys, first)
  {
    hide Escape, Indent, Entry, Key, InQuotes;
    if keys != [] {
      var key, value := Escape(keys[0]), Escape(props[keys[0]]);
      var lead, entry := (if first then "" else ",") + Indent(style.pretty, 4), Key(key) + InQuotes(value);
      EntriesRendered(style, props, keys[1..], false);
      Grouped(lead, Key(key), InQuotes(value), EntriesText(style.pretty, props, keys[1..], false));
      RenderConcat(Entry(style, key, value, first), Entries(style, props, keys[1..], false));
      OneEntry(style, key, value, first);
    }
  }

  lemma Grouped(a: string, b: string, c: string, d: string)
    ensures a + b + c + d == a + (b + c + d)
  {
  }

  lemma OneEntry(style: Style, key: string, value: string, first: bool)
    ensures Render(Entry(style, key, value, first)) == (if first then "" else ",") + Indent(style.pretty, 4) + Key(key) + InQuotes(value)
  {
    hide Render, NewLine, Indent;
    LayoutIs(style.pretty, 4);
    RenderFour(Raw((if first then "" else ",") + NewLine(style.pretty, 4)), Str(key), Raw(": "), Str(value));
  }

  /** Seven lexemes: a new line, a name and a value, a separator and another name. */
  lemma HeadRendered(pretty: bool, level: nat, word: string, value: string, next: string)
    ensures Render([Raw(NewLine(pretty, level)), Str(word), Raw(": "), Str(value), Raw(Separator(pretty, level)), Str(next), Raw(": ")])
         == Indent(pretty, level) + Key(word) + InQuotes(value) + Comma(pretty, level) + Key(next)
  {
    hide Render, NewLine, Separator, Indent, Comma;
    LayoutIs(pretty, level);
    var a, b := [Raw(NewLine(pretty, level)), Str(word), Raw(": "), Str(value)], [Raw(Separator(pretty, level)), Str(next), Raw(": ")];
    assert [Raw(NewLine(pretty, level)), Str(word), Raw(": "), Str(value), Raw(Separator(pretty, level)), Str(next), Raw(": ")] == a + b;
    RenderConcat(a, b);
    RenderFour(Raw(NewLine(pretty, level)), Str(word), Raw(": "), Str(value));
    RenderThree(Raw(Separator(pretty, level)), Str(next), Raw(": "));
  }

  lemma MiddleRendered(pretty: bool, level: nat, word: string)
    ensures Render([Raw(Separator(pretty, level)), Str(word), Raw(": ")]) == Comma(pretty, level) + Key(word)
  {
    hide Render, Separator, Comma;
    LayoutIs(pretty, level);
    RenderThree(Raw(Separator(pretty, level)), Str(word), Raw(": "));
  }

  lemma NestWithEnd(open: char, ls: seq<Lexeme>, end: string)
    ensures Render(Nest(open, ls + [Raw(end)])) == [open] + Render(ls) + end + [Closing(open)]
  {
    hide Render, Nest;
    NestRendered(open, ls + [Raw(end)]);
    RenderConcat(ls, [Raw(end)]);
    RenderOne(Raw(end));
    assert Show(Raw(end)) == end;
  }

  lemma GeometryRendered(style: Style, f: Feature)
    ensures Render(GeometryBlock(style, f)) == GeometryText(style.pretty, style.format, f)
  {
    hide Render, Key, InQuotes, PositionsText, Rows, Nest, NewLine, Indent, Comma, GeometryHead;
    LayoutIs(style.pretty, 3);
    NestWithEnd('{', GeometryHead(style, f.kind) + CoordinatesBlock(style, f.coordinates), NewLine(style.pretty, 3));
    RenderConcat(GeometryHead(style, f.kind), CoordinatesBlock(style, f.coordinates));
    GeometryHeadRendered(style, f.kind);
    NestRendered('[', Rows(style, f.coordinates, true));
    PositionsRendered(style, f.coordinates);
  }

  lemma GeometryHeadRendered(style: Style, kind: string)
    ensures Render(GeometryHead(style, kind))
         == Indent(style.pretty, 4) + Key("type") + InQuotes(kind) + Comma(style.pretty, 4) + Key("coordinates")
  {
    hide Render, Key, InQuotes, NewLine, Indent, Comma, Separator;
    HeadRendered(style.pretty, 4, "type", kind, "coordinates");
  }

  lemma PropertiesRendered(style: Style, props: map<string, string>)
    ensures Render(PropertiesBlock(style, props)) == PropertiesText(style.pretty, props)
  {
    hide Render, EntriesText, Entries, NewLine, Indent;
    LayoutIs(style.pretty, 3);
    SortedKeysAreKeys(props.Keys);
    NestWithEnd('{', AllEntries(style, props), NewLine(style.pretty, 3));
    EntriesRendered(style, props, SortedKeys(props.Keys), true);
  }

  lemma FeatureHeadRendered(style: Style)
    ensures Render(FeatureHead(style))
         == Indent(style.pretty, 3) + Key("type") + InQuotes("Feature") + Comma(style.pretty, 3) + Key("geometry")
  {
    hide Render, Key, InQuotes, NewLine, Indent, Comma, Separator;
    HeadRendered(style.pretty, 3, "type", "Feature", "geometry");
  }

  lemma FeatureRendered(style: Style, f: Feature)
    ensures Render(FeatureBlock(style, f)) == FeatureText(style.pretty, style.format, f)
  {
    hide Render, Key, InQuotes, GeometryText, PropertiesText, GeometryBlock, PropertiesBlock, NewLine, Indent, Comma, FeatureHead;
    LayoutIs(style.pretty, 2);
    var head, geometry, middle, properties :=
      FeatureHead(style), GeometryBlock(style, f), FeatureMiddle(style), PropertiesBlock(style, f.properties);
    NestWithEnd('{', head + geometry + middle + properties, NewLine(style.pretty, 2));
    RenderConcat(head + geometry + middle, properties);
    RenderConcat(head + geometry, middle);
    RenderConcat(head, geometry);
    FeatureHeadRendered(style);
    GeometryRendered(style, f);
    MiddleRendered(style.pretty, 3, "properties");
    PropertiesRendered(style, f.properties);
  }

  lemma {:induction false} FeaturesRendered(style: Style, fs: seq<Feature>, first: bool)
    ensures Render(Features(style, fs, first)) == FeaturesText(style.pretty, style.format, fs, first)
  {
    hide FeatureText, FeatureBlock, NewLine, Indent;
    if fs != [] {
      var lead, block, rest := FeatureLead(style, first), FeatureBlock(style, fs[0]), Features(style, fs[1..], false);
      FeaturesRendered(style, fs[1..], false);
      FeatureRendered(style, fs[0]);
      RenderConcat(lead + block, rest);
      RenderConcat(lead, block);
      LayoutIs(style.pretty, 2);
      RenderOne(lead[0]);
      assert Show(lead[0]) == (if first then "" else ",") + Indent(style.pretty, 2);
    }
  }

  lemma BboxRendered(style: Style, fs: seq<Feature>)
    ensures var b := CollectionBounds(fs);
            Render(BboxBlock(style, fs)) == "[" + NumbersText(style.format, [b.minLon, b.minLat, b.maxLon, b.maxLat]) + "]"
  {
    hide CollectionBounds, ValuesText, NumbersText;
    var b := CollectionBounds(fs);
    var row := [b.minLon, b.minLat, b.maxLon, b.maxLat];
    NestRendered('[', [Raw(ValuesText(style, row, true))]);
    RenderOne(Raw(ValuesText(style, row, true)));
    NumbersRendered(style, row);
  }

  lemma FeaturesBlockRendered(style: Style, fs: seq<Feature>)
    ensures Render(FeaturesBlock(style, fs))
         == "[" + FeaturesText(style.pretty, style.format, fs, true) + (if fs == [] then "" else Indent(style.pretty, 1)) + "]"
  {
    hide Render, Features, FeaturesText, NewLine, Indent;
    LayoutIs(style.pretty, 1);
    NestWithEnd('[', Features(style, fs, true), if fs == [] then "" else NewLine(style.pretty, 1));
    FeaturesRendered(style, fs, true);
  }

  lemma CollectionHeadRendered(style: Style, name: string)
    ensures Render(CollectionHead(style, name))
         == Indent(style.pretty, 1) + Key("type") + InQuotes("FeatureCollection") + Comma(style.pretty, 1) + Key("name")
            + InQuotes(name) + Comma(style.pretty, 1) + Key("bbox")
  {
    hide Render, Key, InQuotes, NewLine, Indent, Comma, Separator;
    LayoutIs(style.pretty, 1);
    var a := [Raw(NewLine(style.pretty, 1)), Str("type"), Raw(": "), Str("FeatureCollection"),
              Raw(Separator(style.pretty, 1)), Str("name"), Raw(": ")];
    var b := [Str(name), Raw(Separator(style.pretty, 1)), Str("bbox"), Raw(": ")];
    assert CollectionHead(style, name) == a + b;
    RenderConcat(a, b);
    HeadRendered(style.pretty, 1, "type", "FeatureCollection", "name");
    RenderFour(Str(name), Raw(Separator(style.pretty, 1)), Str("bbox"), Raw(": "));
    ShownQuoted(name);
    ShownQuoted("bbox");
    assert Show(Raw(Separator(style.pretty, 1))) == Comma(style.pretty, 1) && Show(Raw(": ")) == ": ";
    assert Key("bbox") == InQuotes("bbox") + ": " by { KeyIs("bbox"); }
  }

  lemma ShownQuoted(s: string)
    ensures Show(Str(s)) == InQuotes(s)
  {
  }

  lemma KeyIs(w: string)
    ensures Key(w) == InQuotes(w) + ": "
  {
  }

  /** The export of a collection, character by character. */
  lemma ExportIs(style: Style, c: Collection)
    ensures Export(style, c) == ExportText(style.pretty, style.format, c)
  {
    hide Render, Key, InQuotes, NumbersText, FeaturesText, Escape, BboxBlock, FeaturesBlock, CollectionHead, CollectionBounds,
         NewLine, Indent, Comma;
    LayoutIs(style.pretty, 0);
    var head, bbox, middle, features :=
      CollectionHead(style, Escape(c.name)), BboxBlock(style, c.features), CollectionMiddle(style), FeaturesBlock(style, c.features);
    NestWithEnd('{', head + bbox + middle + features, NewLine(style.pretty, 0));
    RenderConcat(head + bbox + middle, features);
    RenderConcat(head + bbox, middle);
    RenderConcat(head, bbox);
    CollectionHeadRendered(style, Escape(c.name));
    BboxRendered(style, c.features);
    MiddleRendered(style.pretty, 1, "features");
    FeaturesBlockRendered(style, c.features);
  }
}
