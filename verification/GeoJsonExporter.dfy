/**
 * The GeoJSON printer (gis/geojson_parser.cpp, class GeoJsonExporter).
 *
 * `CollectionLexemes` and the functions under it say which lexemes the exporter writes; the
 * methods build the text. Strings are escaped with the same table as in the configuration store,
 * except the geometry type, which is printed as it is.
 */
module GeoJsonExporter {
  import opened GeoJsonParser
  import opened GeoJsonLexemes
  import JsonString

  /** How the exporter prints: the settings and the number format at the chosen precision. */
  datatype Style = Style(pretty: bool, format: NumberFormat)

  ghost function Escape(s: string): string {
    JsonString.Escape(s)
  }

  function Blanks(n: nat): string {
    seq(n, _ => ' ')
  }

  /** A new line with the indent of the level, in pretty mode only. */
  function NewLine(pretty: bool, level: nat): string {
    if pretty then "\n" + Blanks(2 * level) else ""
  }

  function Separator(pretty: bool, level: nat): string {
    if pretty then ",\n" + Blanks(2 * level) else ", "
  }

  // ---------------------------------------------------------------------------
  // Property names in the order of std::map
  // ---------------------------------------------------------------------------

  predicate KeyLe(a: string, b: string) {
    a == [] || (b != [] && (a[0] < b[0] || (a[0] == b[0] && KeyLe(a[1..], b[1..]))))
  }

  lemma {:induction false} KeyLeTotal(a: string, b: string)
    ensures KeyLe(a, b) || KeyLe(b, a)
  {
    if a != [] && b != [] { KeyLeTotal(a[1..], b[1..]); }
  }

  lemma {:induction false} KeyLeTransitive(a: string, b: string, c: string)
    requires KeyLe(a, b) && KeyLe(b, c)
    ensures KeyLe(a, c)
  {
    if a != [] && b != [] && c != [] && a[0] == b[0] == c[0] { KeyLeTransitive(a[1..], b[1..], c[1..]); }
  }

  lemma {:induction false} KeyLeAntisymmetric(a: string, b: string)
    requires KeyLe(a, b) && KeyLe(b, a)
    ensures a == b
  {
    if a != [] && b != [] { KeyLeAntisymmetric(a[1..], b[1..]); }
  }

  ghost predicate IsFirst(k: string, keys: set<string>) {
    k in keys && forall j :: j in keys ==> KeyLe(k, j)
  }

  lemma FirstOfOneMore(x: string, m: string, rest: set<string>)
    requires IsFirst(m, rest)
    ensures IsFirst(if KeyLe(x, m) then x else m, rest + {x})
  {
    KeyLeTotal(x, x);
    KeyLeTotal(x, m);
    if KeyLe(x, m) {
      forall j | j in rest ensures KeyLe(x, j) { KeyLeTransitive(x, m, j); }
    }
  }

  ghost function FirstKey(keys: set<string>): (k: string)
    requires keys != {}
    ensures IsFirst(k, keys)
  {
    var x :| x in keys;
    var rest := keys - {x};
    assert keys == rest + {x};
    if rest == {} then
      KeyLeTotal(x, x);
      x
    else
      var m := FirstKey(rest);
      FirstOfOneMore(x, m, rest);
      if KeyLe(x, m) then x else m
  }

  lemma FirstIsUnique(k: string, keys: set<string>)
    requires IsFirst(k, keys)
    ensures k == FirstKey(keys)
  {
    KeyLeAntisymmetric(k, FirstKey(keys));
  }

  ghost function SortedKeys(keys: set<string>): seq<string> {
    if keys == {} then [] else [FirstKey(keys)] + SortedKeys(keys - {FirstKey(keys)})
  }

  // ---------------------------------------------------------------------------
  // What is written
  // ---------------------------------------------------------------------------

  ghost function ValuesText(style: Style, row: seq<real>, first: bool): string {
    if row == [] then ""
    else (if first then "" else ", ") + style.format.print_(row[0]) + ValuesText(style, row[1..], false)
  }

  ghost function RowBlock(style: Style, row: seq<real>): seq<Lexeme> {
    Nest('[', [Raw(ValuesText(style, row, true))])
  }

  function RowLead(first: bool): Lexeme {
    Raw(if first then "" else ", ")
  }

  ghost function Rows(style: Style, rows: seq<seq<real>>, first: bool): seq<Lexeme> {
    if rows == [] then []
    else [RowLead(first)] + RowBlock(style, rows[0]) + Rows(style, rows[1..], false)
  }

  ghost function CoordinatesBlock(style: Style, rows: seq<seq<real>>): seq<Lexeme> {
    Nest('[', Rows(style, rows, true))
  }

  function Entry(style: Style, escapedKey: string, escapedValue: string, first: bool): seq<Lexeme> {
    [Raw((if first then "" else ",") + NewLine(style.pretty, 4)), Str(escapedKey), Raw(": "), Str(escapedValue)]
  }

  ghost function Entries(style: Style, props: map<string, string>, keys: seq<string>, first: bool): seq<Lexeme>
    requires forall k :: k in keys ==> k in props
  {
    if keys == [] then []
    else Entry(style, Escape(keys[0]), Escape(props[keys[0]]), first) + Entries(style, props, keys[1..], false)
  }

  lemma {:induction false} SortedKeysAreKeys(keys: set<string>)
    ensures forall k :: k in SortedKeys(keys) <==> k in keys
  {
    if keys != {} { SortedKeysAreKeys(keys - {FirstKey(keys)}); }
  }

  ghost function AllEntries(style: Style, props: map<string, string>): seq<Lexeme> {
    SortedKeysAreKeys(props.Keys);
    Entries(style, props, SortedKeys(props.Keys), true)
  }

  ghost function PropertiesBlock(style: Style, props: map<string, string>): seq<Lexeme> {
    Nest('{', AllEntries(style, props) + [Raw(NewLine(style.pretty, 3))])
  }

  function GeometryHead(style: Style, kind: string): seq<Lexeme> {
    [Raw(NewLine(style.pretty, 4)), Str("type"), Raw(": "), Str(kind),
     Raw(Separator(style.pretty, 4)), Str("coordinates"), Raw(": ")]
  }

  ghost function GeometryBlock(style: Style, f: Feature): seq<Lexeme> {
    Nest('{', GeometryHead(style, f.kind) + CoordinatesBlock(style, f.coordinates) + [Raw(NewLine(style.pretty, 3))])
  }

  function FeatureHead(style: Style): seq<Lexeme> {
    [Raw(NewLine(style.pretty, 3)), Str("type"), Raw(": "), Str("Feature"),
     Raw(Separator(style.pretty, 3)), Str("geometry"), Raw(": ")]
  }

  function FeatureMiddle(style: Style): seq<Lexeme> {
    [Raw(Separator(style.pretty, 3)), Str("properties"), Raw(": ")]
  }

  ghost function FeatureBlock(style: Style, f: Feature): seq<Lexeme> {
    Nest('{', FeatureHead(style) + GeometryBlock(style, f) + FeatureMiddle(style) +
              PropertiesBlock(style, f.properties) + [Raw(NewLine(style.pretty, 2))])
  }

  function FeatureLead(style: Style, first: bool): seq<Lexeme> {
    [Raw((if first then "" else ",") + NewLine(style.pretty, 2))]
  }

  ghost function Features(style: Style, fs: seq<Feature>, first: bool): seq<Lexeme> {
    if fs == [] then []
    else FeatureLead(style, first) + FeatureBlock(style, fs[0]) + Features(style, fs[1..], false)
  }

  ghost function FeaturesBlock(style: Style, fs: seq<Feature>): seq<Lexeme> {
    Nest('[', Features(style, fs, true) + [Raw(if fs == [] then "" else NewLine(style.pretty, 1))])
  }

  ghost function BboxBlock(style: Style, fs: seq<Feature>): seq<Lexeme> {
    var b := CollectionBounds(fs);
    Nest('[', [Raw(ValuesText(style, [b.minLon, b.minLat, b.maxLon, b.maxLat], true))])
  }

  function CollectionHead(style: Style, escapedName: string): seq<Lexeme> {
    [Raw(NewLine(style.pretty, 1)), Str("type"), Raw(": "), Str("FeatureCollection"),
     Raw(Separator(style.pretty, 1)), Str("name"), Raw(": "), Str(escapedName),
     Raw(Separator(style.pretty, 1)), Str("bbox"), Raw(": ")]
  }

  function CollectionMiddle(style: Style): seq<Lexeme> {
    [Raw(Separator(style.pretty, 1)), Str("features"), Raw(": ")]
  }

  ghost function CollectionLexemes(style: Style, c: Collection): seq<Lexeme> {
    Nest('{', CollectionHead(style, Escape(c.name)) + BboxBlock(style, c.features) + CollectionMiddle(style) +
              FeaturesBlock(style, c.features) + [Raw(NewLine(style.pretty, 0))])
  }

  ghost function Export(style: Style, c: Collection): string {
    Render(CollectionLexemes(style, c))
  }

  // ---------------------------------------------------------------------------
  // Bounding box
  // ---------------------------------------------------------------------------

  datatype Bounds = Bounds(minLon: real, minLat: real, maxLon: real, maxLat: real)

  const START := Bounds(180.0, 90.0, -180.0, -90.0)

  function Min(a: real, b: real): real {
    if b < a then b else a
  }

  function Max(a: real, b: real): real {
    if a < b then b else a
  }

  function Widened(b: Bounds, c: seq<real>): Bounds {
    if |c| < 2 then b
    else Bounds(Min(b.minLon, c[0]), Min(b.minLat, c[1]), Max(b.maxLon, c[0]), Max(b.maxLat, c[1]))
  }

  function RowBounds(b: Bounds, rows: seq<seq<real>>): Bounds {
    if rows == [] then b else Widened(RowBounds(b, rows[..|rows| - 1]), rows[|rows| - 1])
  }

  function CollectionBounds(fs: seq<Feature>): Bounds {
    if fs == [] then START
    else RowBounds(CollectionBounds(fs[..|fs| - 1]), fs[|fs| - 1].coordinates)
  }

  predicate Within(b: Bounds, c: seq<real>)
    requires |c| >= 2
  {
    b.minLon <= c[0] <= b.maxLon && b.minLat <= c[1] <= b.maxLat
  }

  predicate Wider(a: Bounds, b: Bounds) {
    a.minLon <= b.minLon && a.minLat <= b.minLat && b.maxLon <= a.maxLon && b.maxLat <= a.maxLat
  }

  lemma {:induction false} RowsWithin(b: Bounds, rows: seq<seq<real>>)
    ensures Wider(RowBounds(b, rows), b)
    ensures forall i :: 0 <= i < |rows| && |rows[i]| >= 2 ==> Within(RowBounds(b, rows), rows[i])
  {
    if rows != [] {
      var front := rows[..|rows| - 1];
      RowsWithin(b, front);
      assert forall i :: 0 <= i < |front| ==> front[i] == rows[i];
    }
  }

  /** The printed box holds every position of every feature, and no smaller box does. */
  lemma {:induction false} BoxHoldsPositions(fs: seq<Feature>, b: Bounds)
    ensures Wider(CollectionBounds(fs), Bounds(180.0, 90.0, -180.0, -90.0))
    ensures forall i, j :: 0 <= i < |fs| && 0 <= j < |fs[i].coordinates| && |fs[i].coordinates[j]| >= 2
                           ==> Within(CollectionBounds(fs), fs[i].coordinates[j])
    ensures Wider(b, START)
            && (forall i, j :: 0 <= i < |fs| && 0 <= j < |fs[i].coordinates| && |fs[i].coordinates[j]| >= 2
                               ==> Within(b, fs[i].coordinates[j]))
            ==> Wider(b, CollectionBounds(fs))
  {
    if fs != [] {
      var front, last := fs[..|fs| - 1], fs[|fs| - 1];
      BoxHoldsPositions(front, b);
      RowsWithin(CollectionBounds(front), last.coordinates);
      LeastBounds(CollectionBounds(front), last.coordinates, b);
      assert forall i :: 0 <= i < |front| ==> front[i] == fs[i];
    }
  }

  /** Some position has the longitude x, or the latitude x. */
  predicate HasCoordinate(fs: seq<Feature>, axis: nat, x: real)
    requires axis < 2
  {
    exists i, j :: 0 <= i < |fs| && 0 <= j < |fs[i].coordinates| && |fs[i].coordinates[j]| >= 2 && fs[i].coordinates[j][axis] == x
  }

  /** Each side of the box is that of the inverted world, or goes through a position. */
  predicate Attained(fs: seq<Feature>, b: Bounds) {
    && (b.minLon == 180.0 || HasCoordinate(fs, 0, b.minLon)) && (b.maxLon == -180.0 || HasCoordinate(fs, 0, b.maxLon))
    && (b.minLat == 90.0 || HasCoordinate(fs, 1, b.minLat)) && (b.maxLat == -90.0 || HasCoordinate(fs, 1, b.maxLat))
  }

  lemma MoreFeaturesHave(fs: seq<Feature>, f: Feature, axis: nat, x: real)
    requires axis < 2
    ensures HasCoordinate(fs, axis, x) ==> HasCoordinate(fs + [f], axis, x)
  {
    if HasCoordinate(fs, axis, x) {
      var i, j :| 0 <= i < |fs| && 0 <= j < |fs[i].coordinates| && |fs[i].coordinates[j]| >= 2 && fs[i].coordinates[j][axis] == x;
      assert (fs + [f])[i] == fs[i];
    }
  }

  lemma {:induction false} RowsAttained(fs: seq<Feature>, f: Feature, b: Bounds, n: nat)
    requires n <= |f.coordinates| && Attained(fs + [f], b)
    ensures Attained(fs + [f], RowBounds(b, f.coordinates[..n]))
  {
    if n > 0 {
      RowsAttained(fs, f, b, n - 1);
      assert f.coordinates[..n][..n - 1] == f.coordinates[..n - 1];
      var row, all := f.coordinates[n - 1], fs + [f];
      assert all[|fs|] == f;
      assert |row| >= 2 ==> HasCoordinate(all, 0, row[0]) && HasCoordinate(all, 1, row[1]);
    }
  }

  /** So the box of positions in the world is tight, and without positions it is the inverted world. */
  lemma {:induction false} BoxIsAttained(fs: seq<Feature>)
    ensures Attained(fs, CollectionBounds(fs))
  {
    hide HasCoordinate, RowBounds;
    if fs != [] {
      var front, last := fs[..|fs| - 1], fs[|fs| - 1];
      var b := CollectionBounds(front);
      BoxIsAttained(front);
      MoreFeaturesHave(front, last, 0, b.minLon);
      MoreFeaturesHave(front, last, 0, b.maxLon);
      MoreFeaturesHave(front, last, 1, b.minLat);
      MoreFeaturesHave(front, last, 1, b.maxLat);
      assert fs == front + [last];
      RowsAttained(front, last, b, |last.coordinates|);
      assert last.coordinates[..|last.coordinates|] == last.coordinates;
    }
  }

  lemma {:induction false} LeastBounds(b0: Bounds, rows: seq<seq<real>>, b: Bounds)
    ensures Wider(b, b0) && (forall i :: 0 <= i < |rows| && |rows[i]| >= 2 ==> Within(b, rows[i]))
            ==> Wider(b, RowBounds(b0, rows))
  {
    if rows != [] {
      var front := rows[..|rows| - 1];
      LeastBounds(b0, front, b);
      assert forall i :: 0 <= i < |front| ==> front[i] == rows[i];
    }
  }

  // ---------------------------------------------------------------------------
  // The exporter
  // ---------------------------------------------------------------------------

  /** Writes to the output stream. */
  method Put(s: string, ghost ls: seq<Lexeme>, parts: seq<Lexeme>) returns (r: string, ghost rs: seq<Lexeme>)
    requires s == Render(ls)
    ensures rs == ls + parts && r == Render(rs)
  {
    hide Render, Show;
    r, rs := s, ls;
    for i := 0 to |parts|
      invariant rs == ls + parts[..i] && r == Render(rs)
    {
      RenderConcat(rs, [parts[i]]);
      RenderOne(parts[i]);
      r, rs := r + Show(parts[i]), rs + [parts[i]];
    }
  }

  method Begin(parts: seq<Lexeme>) returns (r: string, ghost rs: seq<Lexeme>)
    ensures rs == parts && r == Render(rs)
  {
    r, rs := Put("", [], parts);
  }

  method PutText(s: string, ghost ls: seq<Lexeme>, t: string, ghost ts: seq<Lexeme>)
    returns (r: string, ghost rs: seq<Lexeme>)
    requires s == Render(ls) && t == Render(ts)
    ensures rs == ls + ts && r == Render(rs)
  {
    r, rs := s + t, ls + ts;
    RenderConcat(ls, ts);
  }

  lemma Regroup<T>(a: seq<T>, b: seq<T>, c: seq<T>)
    ensures (a + b) + c == a + (b + c)
  {
  }

  class Exporter {
    /** Printing and reading numbers with a given number of decimals. */
    const library: int -> NumberFormat
    var prettyPrint: bool
    var precision: int

    constructor (library: int -> NumberFormat)
      ensures this.library == library && prettyPrint && precision == 6
    {
      this.library := library;
      prettyPrint := true;
      precision := 6;
    }

    function CurrentStyle(): Style
      reads this
    {
      Style(prettyPrint, library(precision))
    }

    method SetPrettyPrint(pretty: bool)
      modifies this`prettyPrint
      ensures CurrentStyle() == old(CurrentStyle()).(pretty := pretty)
    {
      prettyPrint := pretty;
    }

    method SetPrecision(decimals: int)
      modifies this`precision
      ensures CurrentStyle() == old(CurrentStyle()).(format := library(decimals))
    {
      precision := decimals;
    }

    /** The numbers of one position, separated. */
    method RowToString(row: seq<real>) returns (s: string)
      ensures s == ValuesText(CurrentStyle(), row, true)
    {
      s := "";
      for j := 0 to |row|
        invariant s + ValuesText(CurrentStyle(), row[j..], j == 0) == ValuesText(CurrentStyle(), row, true)
      {
        assert row[j..][1..] == row[j + 1..];
        if j > 0 { s := s + ", "; }
        s := s + library(precision).print_(row[j]);
      }
    }

    method CoordsToString(coords: seq<seq<real>>) returns (s: string)
      ensures s == Render(CoordinatesBlock(CurrentStyle(), coords))
    {
      hide Render, RowLead, ValuesText;
      ghost var style := CurrentStyle();
      ghost var ls;
      s, ls := Begin([Mark('[')]);
      for i := 0 to |coords|
        invariant s == Render(ls) && ls + Rows(style, coords[i..], i == 0) == [Mark('[')] + Rows(style, coords, true)
      {
        assert coords[i..][1..] == coords[i + 1..];
        ghost var before := ls;
        var row := RowToString(coords[i]);
        s, ls := Put(s, ls, [RowLead(i == 0), Mark('['), Raw(row), Mark(']')]);
        assert ls == before + ([RowLead(i == 0)] + RowBlock(style, coords[i]));
        Regroup(before, [RowLead(i == 0)] + RowBlock(style, coords[i]), Rows(style, coords[i + 1..], false));
      }
      assert ls == [Mark('[')] + Rows(style, coords, true);
      s, ls := Put(s, ls, [Mark(']')]);
      assert ls == CoordinatesBlock(style, coords);
    }

    method PropertiesToString(props: map<string, string>) returns (s: string)
      ensures s == Render(PropertiesBlock(CurrentStyle(), props))
    {
      hide Render, NewLine, Entry, KeyLe;
      ghost var style := CurrentStyle();
      ghost var ls;
      s, ls := Begin([Mark('{')]);
      var first, rest := true, props.Keys;
      SortedKeysAreKeys(rest);
      while rest != {}
        invariant rest <= props.Keys && s == Render(ls)
        invariant forall k :: k in SortedKeys(rest) <==> k in rest
        invariant ls + Entries(style, props, SortedKeys(rest), first) == [Mark('{')] + AllEntries(style, props)
        decreases rest
      {
        ghost var before, sorted := ls, SortedKeys(rest);
        assert IsFirst(FirstKey(rest), rest);
        var k :| k in rest && forall j :: j in rest ==> KeyLe(k, j);
        FirstIsUnique(k, rest);
        var key := JsonString.JsonEscape(k);
        var value := JsonString.JsonEscape(props[k]);
        var entry := Entry(CurrentStyle(), key, value, first);
        s, ls := Put(s, ls, entry);
        first, rest := false, rest - {k};
        SortedKeysAreKeys(rest);
        assert sorted[0] == k && sorted[1..] == SortedKeys(rest);
        Regroup(before, entry, Entries(style, props, SortedKeys(rest), false));
      }
      assert ls == [Mark('{')] + AllEntries(style, props);
      s, ls := Put(s, ls, [Raw(NewLine(prettyPrint, 3)), Mark('}')]);
      assert ls == PropertiesBlock(style, props);
    }

    method FeatureToString(f: Feature) returns (s: string)
      ensures s == Render(FeatureBlock(CurrentStyle(), f))
    {
      hide Render, NewLine, FeatureHead, FeatureMiddle, GeometryBlock, PropertiesBlock;
      ghost var style := CurrentStyle();
      ghost var ls;
      s, ls := Begin([Mark('{')] + FeatureHead(CurrentStyle()));
      var geometry := GeometryToString(f);
      s, ls := PutText(s, ls, geometry, GeometryBlock(style, f));
      s, ls := Put(s, ls, FeatureMiddle(CurrentStyle()));
      var props := PropertiesToString(f.properties);
      s, ls := PutText(s, ls, props, PropertiesBlock(style, f.properties));
      s, ls := Put(s, ls, [Raw(NewLine(prettyPrint, 2)), Mark('}')]);
      assert ls == FeatureBlock(style, f);
    }

    /** The geometry part of featureToString. */
    method GeometryToString(f: Feature) returns (s: string)
      ensures s == Render(GeometryBlock(CurrentStyle(), f))
    {
      hide Render, NewLine, GeometryHead, CoordinatesBlock;
      ghost var style := CurrentStyle();
      ghost var ls;
      s, ls := Begin([Mark('{')] + GeometryHead(CurrentStyle(), f.kind));
      var coords := CoordsToString(f.coordinates);
      s, ls := PutText(s, ls, coords, CoordinatesBlock(style, f.coordinates));
      s, ls := Put(s, ls, [Raw(NewLine(prettyPrint, 3)), Mark('}')]);
      assert ls == GeometryBlock(style, f);
    }

    method GenerateBbox(fs: seq<Feature>) returns (s: string)
      ensures s == Render(BboxBlock(CurrentStyle(), fs))
    {
      var b := START;
      for i := 0 to |fs|
        invariant b == CollectionBounds(fs[..i])
      {
        var rows := fs[i].coordinates;
        ghost var before := b;
        for j := 0 to |rows|
          invariant b == RowBounds(before, rows[..j])
        {
          var c := rows[j];
          if |c| >= 2 {
            b := Bounds(Min(b.minLon, c[0]), Min(b.minLat, c[1]), Max(b.maxLon, c[0]), Max(b.maxLat, c[1]));
          }
          assert rows[..j + 1][..j] == rows[..j];
        }
        assert rows[..|rows|] == rows && fs[..i + 1][..i] == fs[..i];
      }
      assert fs[..|fs|] == fs;
      ghost var ls;
      s, ls := Begin([Mark('[')]);
      var values := RowToString([b.minLon, b.minLat, b.maxLon, b.maxLat]);
      s, ls := Put(s, ls, [Raw(values), Mark(']')]);
    }

    method FeaturesToString(fs: seq<Feature>) returns (s: string)
      ensures s == Render(FeaturesBlock(CurrentStyle(), fs))
    {
      hide Render, NewLine, FeatureLead, FeatureBlock;
      ghost var style := CurrentStyle();
      ghost var ls;
      s, ls := Begin([Mark('[')]);
      for i := 0 to |fs|
        invariant s == Render(ls)
        invariant ls + Features(style, fs[i..], i == 0) == [Mark('[')] + Features(style, fs, true)
      {
        assert fs[i..][1..] == fs[i + 1..];
        ghost var before, lead, block := ls, FeatureLead(style, i == 0), FeatureBlock(style, fs[i]);
        s, ls := Put(s, ls, FeatureLead(CurrentStyle(), i == 0));
        var feature := FeatureToString(fs[i]);
        s, ls := PutText(s, ls, feature, block);
        Regroup(before, lead, block);
        Regroup(before, lead + block, Features(style, fs[i + 1..], false));
      }
      assert ls == [Mark('[')] + Features(style, fs, true);
      s, ls := Put(s, ls, [Raw(if fs == [] then "" else NewLine(prettyPrint, 1)), Mark(']')]);
      assert ls == FeaturesBlock(style, fs);
    }

    method ExportToString(c: Collection) returns (s: string)
      ensures s == Export(CurrentStyle(), c)
    {
      hide Render, NewLine, CollectionHead, CollectionMiddle, BboxBlock, FeaturesBlock;
      ghost var style := CurrentStyle();
      ghost var ls;
      var name := JsonString.JsonEscape(c.name);
      s, ls := Begin([Mark('{')] + CollectionHead(CurrentStyle(), name));
      var bbox := GenerateBbox(c.features);
      s, ls := PutText(s, ls, bbox, BboxBlock(style, c.features));
      s, ls := Put(s, ls, CollectionMiddle(CurrentStyle()));
      var features := FeaturesToString(c.features);
      s, ls := PutText(s, ls, features, FeaturesBlock(style, c.features));
      s, ls := Put(s, ls, [Raw(NewLine(prettyPrint, 0)), Mark('}')]);
      assert ls == CollectionLexemes(style, c);
    }
  }
}
