/**
 * Reading back the coordinates that GeoJsonExporter prints.
 *
 * The printer always writes a list of positions. The parser undoes this for line strings; for
 * points it takes the list for one position, and for polygons it looks one level too deep.
 */
module GeoJsonCoordinates {
  import opened Common
  import opened GeoJsonParser
  import opened GeoJsonLexemes
  import opened GeoJsonExporter

  predicate NumberText(s: string) {
    s != "" && forall i :: 0 <= i < |s| ==> '0' <= s[i] <= '9' || s[i] == '.' || s[i] == '-'
  }

  /**
   * What fixed-point printing and std::stod do: a printed number is made of digits, and reads back
   * as the rounded number, also when a bracket follows; a bracket in front is no number.
   */
  ghost predicate Faithful(format: NumberFormat, round: real -> real) {
    && (forall x :: NumberText(format.print_(x)) && format.stod(format.print_(x)) == Number(round(x)))
    && (forall x :: format.stod(format.print_(x) + "]") == Number(round(x)))
    && (forall s :: format.stod("[" + s) == NotANumber)
  }

  /** A format that is faithful: the whole part in ones after a sign or a zero. */
  function PrintOnes(x: real): (s: string)
    ensures NumberText(s)
  {
    if x.Floor < 0 then "-" + seq(-x.Floor, _ => '1') else "0" + seq(x.Floor, _ => '1')
  }

  function ReadOnes(s: string): ParsedNumber {
    if s == "" || s[0] == '[' then NotANumber
    else
      var n := |s| - (if s[|s| - 1] == ']' then 2 else 1);
      Number((if s[0] == '-' then -n else n) as real)
  }

  function WholePart(x: real): real {
    x.Floor as real
  }

  /** The assumption can be met, and by a rounding that keeps all whole numbers. */
  lemma FaithfulIsMet(whole: int)
    ensures Faithful(NumberFormat(PrintOnes, ReadOnes), WholePart) && WholePart(whole as real) == whole as real
  {
    forall x ensures ReadOnes(PrintOnes(x)) == ReadOnes(PrintOnes(x) + "]") == Number(WholePart(x)) {
      var s := PrintOnes(x);
      assert (s + "]")[|s|] == ']' && (s + "]")[0] == s[0];
    }
  }

  ghost function Rounded(round: real -> real, row: seq<real>): (r: seq<real>)
    ensures |r| == |row|
  {
    seq(|row|, i requires 0 <= i < |row| => round(row[i]))
  }

  lemma RoundedSplit(round: real -> real, row: seq<real>)
    requires row != []
    ensures Rounded(round, row) == [round(row[0])] + Rounded(round, row[1..])
  {
  }

  // ---------------------------------------------------------------------------
  // One position
  // ---------------------------------------------------------------------------

  lemma TrimLeadingBlank(blank: string, t: string)
    requires t != "" && !IsSpace(t[0]) && !IsSpace(t[|t| - 1]) && (blank == "" || blank == " ")
    ensures Trim(blank + t) == t
  {
    var s := blank + t;
    assert SkipSpaces(s, |blank|) == |blank|;
    assert SkipSpaces(s, 0) == |blank|;
    assert s[|blank|..] == t;
  }

  /** One piece up to the next comma or the end, and what is left. */
  lemma ReadPiece(format: NumberFormat, text: string, pos: nat, piece: string, rest: string)
    requires Occurs(text, pos, piece + rest) && pos + |piece| + |rest| == |text|
    requires piece != "" && Lacks(piece, ',') && (rest != "" ==> rest[0] == ',')
    ensures ValuesFrom(format, text, pos) == PieceValue(format, piece) + ValuesFrom(format, text, pos + |piece| + 1)
  {
    hide Occurs, PieceValue;
    OccursConcat(text, pos, piece, rest);
    SkipChars(text, ',', pos, piece);
    if rest != "" {
      OccursAt(text, pos + |piece|, rest, 0);
      FindCharAt(text, ',', pos + |piece|, pos + |piece|);
    }
    assert PieceEnd(text, pos) == pos + |piece|;
    SliceOf(text, pos, piece);
  }

  lemma PrintedNumber(format: NumberFormat, round: real -> real, x: real)
    requires Faithful(format, round)
    ensures NumberText(format.print_(x)) && format.stod(format.print_(x)) == Number(round(x))
    ensures format.stod(format.print_(x) + "]") == Number(round(x))
  {
  }

  /** A piece that is a printed number, possibly after a blank and before a bracket. */
  lemma NumberPiece(format: NumberFormat, round: real -> real, blank: string, x: real, bracket: string)
    requires Faithful(format, round) && (blank == "" || blank == " ") && (bracket == "" || bracket == "]")
    ensures var piece := blank + format.print_(x) + bracket;
            piece != "" && Lacks(piece, ',') && PieceValue(format, piece) == [round(x)]
  {
    hide Faithful, Trim;
    var t := format.print_(x);
    PrintedNumber(format, round, x);
    var piece := blank + t + bracket;
    TrimLeadingBlank(blank, t + bracket);
    assert piece == blank + (t + bracket);
    assert t + "" == t;
  }

  ghost predicate IsSuffix(text: string, pos: nat, s: string) {
    Occurs(text, pos, s) && pos + |s| == |text|
  }

  lemma SuffixConcat(text: string, pos: nat, a: string, b: string)
    requires IsSuffix(text, pos, a + b)
    ensures Occurs(text, pos, a) && IsSuffix(text, pos + |a|, b)
  {
    OccursConcat(text, pos, a, b);
  }

  /** The values of a position, from the first one on. */
  lemma {:induction false} ReadValues(style: Style, round: real -> real, text: string, pos: nat, blank: string,
          row: seq<real>)
    requires Faithful(style.format, round) && row != [] && (blank == "" || blank == " ")
    requires IsSuffix(text, pos, blank + style.format.print_(row[0]) + ValuesText(style, row[1..], false))
    ensures ValuesFrom(style.format, text, pos) == Rounded(round, row)
    decreases |row|
  {
    hide Occurs, Faithful, PieceValue, ValuesFrom;
    var format, piece, rest := style.format, blank + style.format.print_(row[0]), ValuesText(style, row[1..], false);
    NumberPiece(format, round, blank, row[0], "");
    assert piece + "" == piece;
    RestStartsWithComma(style, row[1..]);
    ReadPiece(format, text, pos, piece, rest);
    SuffixConcat(text, pos, piece, rest);
    var next := pos + |piece| + 1;
    RoundedSplit(round, row);
    if |row| == 1 {
      NoValuesLeft(format, text, next);
    } else {
      var r1 := format.print_(row[1]) + ValuesText(style, row[1..][1..], false);
      assert rest == "," + (" " + format.print_(row[1]) + ValuesText(style, row[1..][1..], false));
      SuffixConcat(text, pos + |piece|, ",", " " + format.print_(row[1]) + ValuesText(style, row[1..][1..], false));
      ReadValues(style, round, text, next, " ", row[1..]);
    }
  }

  lemma NoValuesLeft(format: NumberFormat, text: string, pos: nat)
    requires pos >= |text|
    ensures ValuesFrom(format, text, pos) == []
  {
  }

  lemma RestStartsWithComma(style: Style, row: seq<real>)
    ensures ValuesText(style, row, false) != "" ==> ValuesText(style, row, false)[0] == ','
    ensures row == [] ==> ValuesText(style, row, false) == ""
  {
  }

  /** A printed position reads back with its numbers rounded; an empty one is dropped. */
  lemma ReadRow(style: Style, round: real -> real, row: seq<real>)
    requires Faithful(style.format, round)
    ensures Coordinates(style.format, Render(RowBlock(style, row))) == if row == [] then [] else [Rounded(round, row)]
  {
    hide Occurs, Faithful, ValuesFrom, Trim, Rounded;
    var text := ValuesText(style, row, true);
    TrimNest('[', [Raw(text)]);
    RenderOne(Raw(text));
    if row == [] {
      NoValuesLeft(style.format, text, 0);
    } else {
      assert text == "" + style.format.print_(row[0]) + ValuesText(style, row[1..], false);
      WholeIsSuffix(text);
      ReadValues(style, round, text, 0, "", row);
    }
  }

  lemma WholeIsSuffix(text: string)
    ensures IsSuffix(text, 0, text)
  {
  }

  // ---------------------------------------------------------------------------
  // The list of positions
  // ---------------------------------------------------------------------------

  lemma {:induction false} ValuesArePlain(style: Style, round: real -> real, row: seq<real>, first: bool)
    requires Faithful(style.format, round)
    ensures Plain(ValuesText(style, row, first))
  {
    if row != [] {
      PrintedNumber(style.format, round, row[0]);
      ValuesArePlain(style, round, row[1..], false);
    }
  }

  lemma {:induction false} PairsPassPlain(text: string, pos: nat, s: string, depth: int, start: nat)
    requires Occurs(text, pos, s) && Plain(s) && start <= pos
    ensures PairsFrom(text, pos, depth, false, start) == PairsFrom(text, pos + |s|, depth, false, start)
    decreases |s|
  {
    if s != [] {
      OccursAt(text, pos, s, 0);
      assert s == [s[0]] + s[1..];
      OccursConcat(text, pos, [s[0]], s[1..]);
      PairsPassPlain(text, pos + 1, s[1..], depth, start);
    }
  }

  lemma PairsPassRow(style: Style, round: real -> real, text: string, pos: nat, row: seq<real>, start: nat)
    requires Faithful(style.format, round) && Occurs(text, pos, Render(RowBlock(style, row))) && start <= pos
    ensures var next := pos + |Render(RowBlock(style, row))|;
            PairsFrom(text, pos, 0, false, start) == [Render(RowBlock(style, row))] + PairsFrom(text, next, 0, false, pos)
  {
    hide Occurs, PairsFrom, Faithful, Plain, ValuesText;
    var values, block := ValuesText(style, row, true), Render(RowBlock(style, row));
    ValuesArePlain(style, round, row, true);
    NestRendered('[', [Raw(values)]);
    RenderOne(Raw(values));
    OccursConcat(text, pos, "[", values + "]");
    OccursConcat(text, pos + 1, values, "]");
    OccursAt(text, pos, "[", 0);
    var end := pos + 1 + |values|;
    OccursAt(text, end, "]", 0);
    PairsPassPlain(text, pos + 1, values, 1, pos);
    SliceOf(text, pos, block);
    PairOpens(text, pos, start);
    PairCloses(text, end, pos);
  }

  lemma PairOpens(text: string, pos: nat, start: nat)
    requires pos < |text| && text[pos] == '[' && start <= pos
    ensures PairsFrom(text, pos, 0, false, start) == PairsFrom(text, pos + 1, 1, false, pos)
  {
  }

  lemma PairCloses(text: string, pos: nat, start: nat)
    requires pos < |text| && text[pos] == ']' && start <= pos
    ensures PairsFrom(text, pos, 1, false, start) == [text[start..pos + 1]] + PairsFrom(text, pos + 1, 0, false, start)
  {
  }

  ghost function RowTexts(style: Style, rows: seq<seq<real>>): (texts: seq<string>)
    ensures |texts| == |rows| && forall i :: 0 <= i < |rows| ==> texts[i] == Render(RowBlock(style, rows[i]))
  {
    if rows == [] then [] else [Render(RowBlock(style, rows[0]))] + RowTexts(style, rows[1..])
  }

  /** The positions are split where the printer joined them. */
  lemma {:induction false} ReadRows(style: Style, round: real -> real, text: string, pos: nat,
          rows: seq<seq<real>>, first: bool, start: nat)
    requires Faithful(style.format, round) && start <= pos
    requires IsSuffix(text, pos, Render(Rows(style, rows, first)))
    ensures PairsFrom(text, pos, 0, false, start) == RowTexts(style, rows)
    decreases |rows|
  {
    hide Occurs, PairsFrom, Faithful, RowBlock, Render, Rows, LeadText;
    if rows == [] {
      NoRowsText(style, first);
      NoPairsLeft(text, pos, start);
    } else {
      var lead, block, rest := LeadText(first), Render(RowBlock(style, rows[0])), Render(Rows(style, rows[1..], false));
      RowsText(style, rows, first);
      SuffixConcat(text, pos, lead, block + rest);
      SuffixConcat(text, pos + |lead|, block, rest);
      PairsPassPlain(text, pos, lead, 0, start);
      var at := pos + |lead|;
      PairsPassRow(style, round, text, at, rows[0], start);
      ReadRows(style, round, text, at + |block|, rows[1..], false, at);
    }
  }

  lemma NoRowsText(style: Style, first: bool)
    ensures Render(Rows(style, [], first)) == ""
  {
  }

  function LeadText(first: bool): (s: string)
    ensures Plain(s)
  {
    if first then "" else ", "
  }

  lemma RowsText(style: Style, rows: seq<seq<real>>, first: bool)
    requires rows != []
    ensures Render(Rows(style, rows, first))
         == LeadText(first) + (Render(RowBlock(style, rows[0])) + Render(Rows(style, rows[1..], false)))
  {
    hide Render, RowBlock;
    var lead, block, rest := [RowLead(first)], RowBlock(style, rows[0]), Rows(style, rows[1..], false);
    RenderConcat(lead + block, rest);
    RenderConcat(lead, block);
    RenderOne(RowLead(first));
  }

  lemma NoPairsLeft(text: string, pos: nat, start: nat)
    requires pos >= |text| && start <= pos
    ensures PairsFrom(text, pos, 0, false, start) == []
  {
  }

  /** The positions that are not empty, rounded. */
  ghost function KeptRows(round: real -> real, rows: seq<seq<real>>): seq<seq<real>> {
    if rows == [] then []
    else
      var last := |rows| - 1;
      KeptRows(round, rows[..last]) + if rows[last] == [] then [] else [Rounded(round, rows[last])]
  }

  lemma {:induction false} FirstRowsOfTexts(style: Style, round: real -> real, rows: seq<seq<real>>, texts: seq<string>)
    requires Faithful(style.format, round) && |texts| == |rows|
    requires forall i :: 0 <= i < |rows| ==> texts[i] == Render(RowBlock(style, rows[i]))
    ensures FirstRows(style.format, texts) == KeptRows(round, rows)
  {
    hide Faithful, RowBlock, Coordinates, Render;
    if rows != [] {
      var last := |rows| - 1;
      FirstRowsOfTexts(style, round, rows[..last], texts[..last]);
      ReadRow(style, round, rows[last]);
    }
  }

  /** Line strings keep their positions. */
  lemma LineStringIsRead(style: Style, round: real -> real, rows: seq<seq<real>>)
    requires Faithful(style.format, round)
    ensures CoordinatesOf(style.format, "LineString", Render(CoordinatesBlock(style, rows))) == KeptRows(round, rows)
  {
    hide Occurs, PairsFrom, Faithful, RowBlock, Render, Trim, FirstRows;
    var inner := Rows(style, rows, true);
    TrimNest('[', inner);
    WholeIsSuffix(Render(inner));
    ReadRows(style, round, Render(inner), 0, rows, true, 0);
    FirstRowsOfTexts(style, round, rows, RowTexts(style, rows));
  }

  /** Polygons lose all their positions: the first position is taken for the ring. */
  lemma PolygonIsLost(style: Style, round: real -> real, rows: seq<seq<real>>)
    requires Faithful(style.format, round)
    ensures CoordinatesOf(style.format, "Polygon", Render(CoordinatesBlock(style, rows))) == []
  {
    hide Occurs, PairsFrom, Faithful, Render, Trim, FirstRows;
    var inner := Rows(style, rows, true);
    TrimNest('[', inner);
    WholeIsSuffix(Render(inner));
    ReadRows(style, round, Render(inner), 0, rows, true, 0);
    if rows != [] {
      var values := ValuesText(style, rows[0], true);
      TrimNest('[', [Raw(values)]);
      RenderOne(Raw(values));
      ValuesArePlain(style, round, rows[0], true);
      WholeIsSuffix(values);
      PairsPassPlain(values, 0, values, 0, 0);
      NoPairsLeft(values, |values|, 0);
    }
    NoRows(style.format);
  }

  lemma NoRows(format: NumberFormat)
    ensures FirstRows(format, []) == []
  {
  }

  // ---------------------------------------------------------------------------
  // Points
  // ---------------------------------------------------------------------------

  /** The numbers of all positions, each without its first one. */
  ghost function TailValues(round: real -> real, rows: seq<seq<real>>): seq<real> {
    if rows == [] then []
    else (if rows[0] == [] then [] else Rounded(round, rows[0][1..])) + TailValues(round, rows[1..])
  }

  lemma TailSplit(round: real -> real, rows: seq<seq<real>>)
    requires rows != []
    ensures TailValues(round, rows) == (if |rows[0]| <= 1 then [] else Rounded(round, rows[0][1..])) + TailValues(round, rows[1..])
  {
  }

  /** The rest of the list after a position. */
  ghost function AfterRow(style: Style, rows: seq<seq<real>>): string {
    Render(Rows(style, rows, false))
  }

  /** A value inside a position, from the blank before it. */
  lemma TailPiece(style: Style, round: real -> real, text: string, pos: nat, row: seq<real>,
          rows: seq<seq<real>>) returns (next: nat)
    requires Faithful(style.format, round) && row != []
    requires IsSuffix(text, pos, FromValue(style, row, AfterRow(style, rows)))
    ensures ValuesFrom(style.format, text, pos) == [round(row[0])] + ValuesFrom(style.format, text, next + 1)
    ensures |row| == 1 ==> IsSuffix(text, next, AfterRow(style, rows))
    ensures |row| > 1 ==> IsSuffix(text, next + 1, FromValue(style, row[1..], AfterRow(style, rows)))
  {
    hide Occurs, Faithful, PieceValue, ValuesFrom, AfterRow;
    var format, number, after := style.format, " " + style.format.print_(row[0]), AfterRow(style, rows);
    if |row| == 1 {
      NumberPiece(format, round, " ", row[0], "]");
      AfterRowText(style, rows);
      assert FromValue(style, row, after) == (number + "]") + after;
      ReadPiece(format, text, pos, number + "]", after);
      next := pos + |number| + 1;
      SuffixConcat(text, pos, number + "]", after);
    } else {
      NumberPiece(format, round, " ", row[0], "");
      assert number + "" == number;
      var rest := FromValue(style, row[1..], after);
      assert FromValue(style, row, after) == number + ("," + rest);
      ReadPiece(format, text, pos, number, "," + rest);
      next := pos + |number|;
      SuffixConcat(text, pos, number, "," + rest);
      SuffixConcat(text, next, ",", rest);
    }
  }

  /** A position from the blank before a number, and what follows. */
  ghost function FromValue(style: Style, row: seq<real>, after: string): string
    requires row != []
  {
    " " + style.format.print_(row[0]) + (ValuesText(style, row[1..], false) + ("]" + after))
  }

  /** Inside a position, from a value that is not the first: the numbers count. */
  lemma {:induction false} ReadTail(style: Style, round: real -> real, text: string, pos: nat, row: seq<real>,
          rows: seq<seq<real>>)
    requires Faithful(style.format, round) && row != []
    requires IsSuffix(text, pos, FromValue(style, row, AfterRow(style, rows)))
    ensures ValuesFrom(style.format, text, pos) == Rounded(round, row) + TailValues(round, rows)
    decreases |rows|, |row|
  {
    hide IsSuffix, Faithful, ValuesFrom, TailValues, AfterRow, FromValue;
    var next := TailPiece(style, round, text, pos, row, rows);
    RoundedSplit(round, row);
    if |row| == 1 {
      ReadNextRow(style, round, text, next, rows);
    } else {
      ReadTail(style, round, text, next + 1, row[1..], rows);
    }
  }

  lemma CommaAndBlank(rest: string)
    ensures ", " + rest == "," + (" " + rest)
  {
  }

  lemma AfterRowText(style: Style, rows: seq<seq<real>>)
    ensures rows == [] ==> AfterRow(style, rows) == ""
    ensures rows != [] ==> AfterRow(style, rows) == "," + (" " + (Render(RowBlock(style, rows[0])) + AfterRow(style, rows[1..])))
    ensures AfterRow(style, rows) != "" ==> AfterRow(style, rows)[0] == ','
  {
    hide Render, RowBlock;
    if rows != [] {
      RowsText(style, rows, false);
      CommaAndBlank(Render(RowBlock(style, rows[0])) + AfterRow(style, rows[1..]));
    } else {
      NoRowsText(style, false);
    }
  }

  /** After a position, at or after the comma that ended its last piece. */
  lemma {:induction false} ReadNextRow(style: Style, round: real -> real, text: string, pos: nat, rows: seq<seq<real>>)
    requires Faithful(style.format, round) && IsSuffix(text, pos, AfterRow(style, rows))
    ensures ValuesFrom(style.format, text, pos + 1) == TailValues(round, rows)
    decreases |rows|, 0
  {
    hide Occurs, Faithful, PieceValue, ValuesFrom, AfterRow;
    AfterRowText(style, rows);
    if rows == [] {
      NoValuesLeft(style.format, text, pos + 1);
    } else {
      var rest := Render(RowBlock(style, rows[0])) + AfterRow(style, rows[1..]);
      SuffixConcat(text, pos, ",", " " + rest);
      ReadWholeRow(style, round, text, pos + 1, " ", rows);
    }
  }

  /** From the bracket of a position: its first number is not recognised. */
  lemma FirstPiece(style: Style, round: real -> real, text: string, pos: nat, blank: string, row: seq<real>,
          after: string)
    returns (next: nat)
    requires Faithful(style.format, round) && (blank == "" || blank == " ") && (after != "" ==> after[0] == ',')
    requires IsSuffix(text, pos, blank + (Render(RowBlock(style, row)) + after))
    ensures ValuesFrom(style.format, text, pos) == ValuesFrom(style.format, text, next + 1)
    ensures |row| <= 1 ==> IsSuffix(text, next, after)
    ensures |row| > 1 ==> IsSuffix(text, next + 1, FromValue(style, row[1..], after))
  {
    hide Occurs, Faithful, PieceValue, ValuesFrom, Render, RowBlock, ValuesText, Trim, FromValue;
    var format := style.format;
    var inside := if row == [] then "" else format.print_(row[0]);
    if row != [] { PrintedNumber(format, round, row[0]); }
    if |row| <= 1 {
      var piece := blank + ("[" + (inside + "]"));
      ShortRowText(style, row, blank, after);
      BracketPiece(format, round, blank, inside + "]");
      ReadPiece(format, text, pos, piece, after);
      next := pos + |piece|;
      SuffixConcat(text, pos, piece, after);
    } else {
      var piece, rest := blank + ("[" + inside), FromValue(style, row[1..], after);
      LongRowText(style, row, blank, after);
      BracketPiece(format, round, blank, inside);
      ReadPiece(format, text, pos, piece, "," + rest);
      next := pos + |piece|;
      SuffixConcat(text, pos, piece, "," + rest);
      SuffixConcat(text, next, ",", rest);
    }
  }

  lemma {:induction false} ReadWholeRow(style: Style, round: real -> real, text: string, pos: nat,
          blank: string, rows: seq<seq<real>>)
    requires Faithful(style.format, round) && rows != [] && (blank == "" || blank == " ")
    requires IsSuffix(text, pos, blank + (Render(RowBlock(style, rows[0])) + AfterRow(style, rows[1..])))
    ensures ValuesFrom(style.format, text, pos) == TailValues(round, rows)
    decreases |rows| - 1, |rows[0]| + 1
  {
    hide IsSuffix, Faithful, ValuesFrom, TailValues, AfterRow, FromValue, Render, RowBlock;
    AfterRowText(style, rows[1..]);
    var next := FirstPiece(style, round, text, pos, blank, rows[0], AfterRow(style, rows[1..]));
    TailSplit(round, rows);
    if |rows[0]| <= 1 {
      ReadNextRow(style, round, text, next, rows[1..]);
    } else {
      ReadTail(style, round, text, next + 1, rows[0][1..], rows[1..]);
    }
  }

  lemma RowText(style: Style, row: seq<real>)
    ensures Render(RowBlock(style, row)) == "[" + (ValuesText(style, row, true) + "]")
  {
    NestRendered('[', [Raw(ValuesText(style, row, true))]);
    RenderOne(Raw(ValuesText(style, row, true)));
  }

  lemma ShortRowText(style: Style, row: seq<real>, blank: string, after: string)
    requires |row| <= 1
    ensures var inside := if row == [] then "" else style.format.print_(row[0]);
            blank + (Render(RowBlock(style, row)) + after) == blank + ("[" + (inside + "]")) + after
  {
    hide Render, RowBlock;
    RowText(style, row);
    var inside := if row == [] then "" else style.format.print_(row[0]);
    assert ValuesText(style, row, true) == inside;
    Associative(blank, "[" + (inside + "]"), after);
  }

  lemma LongRowText(style: Style, row: seq<real>, blank: string, after: string)
    requires |row| > 1
    ensures blank + (Render(RowBlock(style, row)) + after)
         == (blank + ("[" + style.format.print_(row[0]))) + ("," + FromValue(style, row[1..], after))
  {
    hide Render, RowBlock;
    RowText(style, row);
    var n0, n1, more := style.format.print_(row[0]), style.format.print_(row[1]),
        ValuesText(style, row[1..][1..], false);
    assert row[1..][0] == row[1];
    assert ValuesText(style, row, true) == n0 + ("," + (" " + n1) + more);
    assert ("[" + (n0 + ("," + (" " + n1) + more) + "]")) + after == ("[" + n0) + ("," + ((" " + n1) + (more + ("]" + after))));
    Associative(blank, "[" + n0, "," + ((" " + n1) + (more + ("]" + after))));
  }

  lemma BracketPiece(format: NumberFormat, round: real -> real, blank: string, s: string)
    requires Faithful(format, round) && (blank == "" || blank == " ")
    requires s != "" && !IsSpace(s[|s| - 1])
    ensures PieceValue(format, blank + ("[" + s)) == []
  {
    TrimLeadingBlank(blank, "[" + s);
  }

  /** Points come back as one position made of all numbers but the first of each position. */
  lemma PointIsMerged(style: Style, round: real -> real, rows: seq<seq<real>>)
    requires Faithful(style.format, round)
    ensures var values := TailValues(round, rows);
            CoordinatesOf(style.format, "Point", Render(CoordinatesBlock(style, rows))) == if values == [] then [] else [values]
  {
    hide Occurs, Faithful, Render, Trim, ValuesFrom, RowBlock;
    var inner := Rows(style, rows, true);
    TrimNest('[', inner);
    if rows == [] {
      NoRowsText(style, true);
      NoValuesLeft(style.format, Render(inner), 0);
    } else {
      RowsText(style, rows, true);
      var rest := Render(RowBlock(style, rows[0])) + AfterRow(style, rows[1..]);
      assert Render(inner) == "" + rest;
      WholeIsSuffix(Render(inner));
      ReadWholeRow(style, round, Render(inner), 0, "", rows);
    }
  }

  /** What is left of the coordinates of a feature. */
  ghost function RecoveredRows(round: real -> real, kind: string, rows: seq<seq<real>>): seq<seq<real>> {
    if kind == "LineString" then KeptRows(round, rows)
    else if kind == "Point" && TailValues(round, rows) != [] then [TailValues(round, rows)]
    else []
  }

  lemma CoordinatesAreRead(style: Style, round: real -> real, kind: string, rows: seq<seq<real>>)
    requires Faithful(style.format, round)
    ensures CoordinatesOf(style.format, kind, Render(CoordinatesBlock(style, rows))) == RecoveredRows(round, kind, rows)
  {
    hide Faithful, Render, CoordinatesBlock, FirstRows, PairTexts, Coordinates, KeptRows, TailValues;
    LineStringIsRead(style, round, rows);
    PolygonIsLost(style, round, rows);
    PointIsMerged(style, round, rows);
  }
}
