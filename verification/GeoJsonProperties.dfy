/**
 * Reading back the properties that GeoJsonExporter prints, and the shape of the printed lexemes:
 * they can be told apart and their brackets match.
 */
module GeoJsonProperties {
  import opened Common
  import opened GeoJsonParser
  import opened GeoJsonLexemes
  import opened GeoJsonExporter
  import opened GeoJsonCoordinates
  import JsonString

  // ---------------------------------------------------------------------------
  // Escaped strings
  // ---------------------------------------------------------------------------

  /** No character has an escape. */
  predicate Clean(s: string) {
    forall i :: 0 <= i < |s| ==> JsonString.EscapeChar(s[i]) == [s[i]]
  }

  lemma {:induction false} EscapeConcat(a: string, b: string)
    ensures Escape(a + b) == Escape(a) + Escape(b)
  {
    if a == [] {
      assert a + b == b;
    } else {
      EscapeConcat(a[1..], b);
      assert (a + b)[1..] == a[1..] + b;
      Associative(JsonString.EscapeChar(a[0]), Escape(a[1..]), Escape(b));
    }
  }

  lemma EscapeOne(c: char)
    ensures Escape([c]) == JsonString.EscapeChar(c)
  {
    var s := [c];
    assert Escape(s) == JsonString.EscapeChar(s[0]) + Escape(s[1..]);
    assert s[1..] == [];
  }

  lemma EscapeLast(s: string)
    requires s != []
    ensures Escape(s) == Escape(s[..|s| - 1]) + JsonString.EscapeChar(s[|s| - 1])
  {
    var front, last := s[..|s| - 1], s[|s| - 1];
    assert s == front + [last];
    EscapeConcat(front, [last]);
    EscapeOne(last);
  }

  /** In escaped text, a quote always follows a backslash. */
  lemma {:induction false} QuotesAreEscaped(s: string, i: nat)
    requires i < |Escape(s)| && Escape(s)[i] == QUOTE
    ensures i > 0 && Escape(s)[i - 1] == BACKSLASH
  {
    var e, rest := JsonString.EscapeChar(s[0]), Escape(s[1..]);
    assert Escape(s) == e + rest;
    if i >= |e| {
      QuotesAreEscaped(s[1..], i - |e|);
    }
  }

  /** Escaping adds no quotes, leaves none unescaped, and ends like the string. */
  lemma {:induction false} EscapeNoQuote(s: string)
    ensures NoQuote(s) ==> NoQuote(Escape(s))
  {
    if s != [] {
      EscapeNoQuote(s[1..]);
      assert forall i :: 0 < i < |s| ==> s[i] == s[1..][i - 1];
    }
  }

  lemma EscapeSealed(s: string)
    requires Closable(s)
    ensures Sealed(Escape(s))
  {
    hide Escape;
    forall i | 0 <= i < |Escape(s)| && Escape(s)[i] == QUOTE ensures i > 0 && Escape(s)[i - 1] == BACKSLASH {
      QuotesAreEscaped(s, i);
    }
    EscapeNotEmpty(s);
    if s != [] { EscapeLast(s); }
  }

  lemma EscapeNotEmpty(s: string)
    ensures s != [] <==> Escape(s) != []
  {
  }

  lemma {:induction false} EscapeLength(s: string)
    ensures |Escape(s)| >= |s|
    ensures Clean(s) <==> |Escape(s)| == |s|
    ensures Clean(s) <==> Escape(s) == s
  {
    if s != [] {
      EscapeLength(s[1..]);
      assert forall i :: 0 < i < |s| ==> s[i] == s[1..][i - 1];
      assert s == [s[0]] + s[1..];
      if JsonString.EscapeChar(s[0]) == [s[0]] && Clean(s[1..]) {
        assert Clean(s);
      }
    }
  }

  /** Escaping twice is not escaping once, unless there is nothing to escape. */
  lemma {:induction false} EscapedIsNotClean(s: string)
    requires !Clean(s)
    ensures !Clean(Escape(s))
  {
    EscapedHasBackslash(s);
    var t := Escape(s);
    var i :| 0 <= i < |t| && t[i] == BACKSLASH;
    assert JsonString.EscapeChar(t[i]) != [t[i]];
  }

  lemma {:induction false} EscapedHasBackslash(s: string)
    requires !Clean(s)
    ensures exists i :: 0 <= i < |Escape(s)| && Escape(s)[i] == BACKSLASH
  {
    var e, rest := JsonString.EscapeChar(s[0]), Escape(s[1..]);
    assert Escape(s) == e + rest;
    if e != [s[0]] {
      assert Escape(s)[0] == BACKSLASH;
    } else {
      assert forall i :: 0 < i < |s| ==> s[i] == s[1..][i - 1];
      EscapedHasBackslash(s[1..]);
      var i :| 0 <= i < |rest| && rest[i] == BACKSLASH;
      assert Escape(s)[i + 1] == BACKSLASH;
    }
  }

  // ---------------------------------------------------------------------------
  // Printed lexemes can be told apart, and their brackets match
  // ---------------------------------------------------------------------------

  predicate Blank(s: string) {
    forall i :: 0 <= i < |s| ==> IsSpace(s[i])
  }

  lemma Layout(pretty: bool, level: nat)
    ensures Blank(NewLine(pretty, level)) && Plain(NewLine(pretty, level)) && Plain(Separator(pretty, level))
  {
  }

  /** The strings of a feature end where they are meant to end. */
  ghost predicate Printable(f: Feature) {
    Quotable(f.kind) && PrintableProperties(f.properties)
  }

  ghost predicate PrintableProperties(props: map<string, string>) {
    forall k :: k in props ==> Closable(k) && Closable(props[k])
  }

  ghost predicate Unquoted(props: map<string, string>) {
    forall k :: k in props ==> NoQuote(k) && NoQuote(props[k])
  }

  /** A part of the text without strings and braces. */
  predicate OnlyBrackets(ls: seq<Lexeme>) {
    forall i :: 0 <= i < |ls| ==> !ls[i].Str? && Sound(ls[i]) && ls[i] != Mark('{') && ls[i] != Mark('}')
  }

  lemma {:induction false} RowsShape(style: Style, round: real -> real, rows: seq<seq<real>>, first: bool)
    requires Faithful(style.format, round)
    ensures OnlyBrackets(Rows(style, rows, first)) && Balanced(Rows(style, rows, first), '[')
  {
    hide Faithful, ValuesText;
    if rows == [] {
      FlatIsBalanced([], '[');
    } else {
      var lead, block, rest := [RowLead(first)], RowBlock(style, rows[0]), Rows(style, rows[1..], false);
      ValuesArePlain(style, round, rows[0], true);
      RowsShape(style, round, rows[1..], false);
      FlatIsBalanced(lead, '[');
      FlatIsBalanced([Raw(ValuesText(style, rows[0], true))], '[');
      NestBalanced([Raw(ValuesText(style, rows[0], true))], '[');
      ConcatBalanced(lead, block, '[');
      ConcatBalanced(lead + block, rest, '[');
    }
  }

  lemma CoordinatesShape(style: Style, round: real -> real, rows: seq<seq<real>>)
    requires Faithful(style.format, round)
    ensures OnlyBrackets(CoordinatesBlock(style, rows)) && Balanced(CoordinatesBlock(style, rows), '[')
  {
    hide Rows, Faithful;
    RowsShape(style, round, rows, true);
    NestBalanced(Rows(style, rows, true), '[');
  }

  /** Strings and separators only. */
  predicate NoBrackets(ls: seq<Lexeme>) {
    forall i :: 0 <= i < |ls| ==> !ls[i].Mark? && Passable(ls[i])
  }

  lemma {:induction false} EntriesShape(style: Style, props: map<string, string>, keys: seq<string>, first: bool)
    requires forall k :: k in keys ==> k in props && Closable(k) && Closable(props[k])
    ensures NoBrackets(Entries(style, props, keys, first))
  {
    hide NewLine, Closable, Sealed, Plain, Escape;
    if keys != [] {
      var k := keys[0];
      EscapeSealed(k);
      EscapeSealed(props[k]);
      EntryShape(style, Escape(k), Escape(props[k]), first);
      EntriesShape(style, props, keys[1..], false);
    }
  }

  lemma EntryShape(style: Style, key: string, value: string, first: bool)
    requires Sealed(key) && Sealed(value)
    ensures NoBrackets(Entry(style, key, value, first))
  {
    hide NewLine;
    Layout(style.pretty, 4);
  }

  /** Everything between the braces of the properties. */
  ghost function PropertiesInner(style: Style, props: map<string, string>): seq<Lexeme> {
    AllEntries(style, props) + [Raw(NewLine(style.pretty, 3))]
  }

  lemma PropertiesShape(style: Style, props: map<string, string>)
    requires PrintableProperties(props)
    ensures NoBrackets(PropertiesInner(style, props))
  {
    hide NewLine, Entries;
    Layout(style.pretty, 3);
    SortedKeysAreKeys(props.Keys);
    EntriesShape(style, props, SortedKeys(props.Keys), true);
  }

  lemma NoBracketsIsFlat(ls: seq<Lexeme>, open: char)
    requires NoBrackets(ls)
    ensures AllPassable(ls) && Flat(ls, open) && Balanced(ls, open)
  {
    FlatIsBalanced(ls, open);
  }

  lemma OnlyBracketsIsFlat(ls: seq<Lexeme>)
    requires OnlyBrackets(ls)
    ensures AllSound(ls) && Flat(ls, '{') && Balanced(ls, '{')
    ensures forall i :: 0 <= i < |ls| ==> Lacks(Show(ls[i]), '{')
  {
    FlatIsBalanced(ls, '{');
  }

  // ---------------------------------------------------------------------------
  // Properties
  // ---------------------------------------------------------------------------

  /** A printed name and value, found from anywhere before its first quote. */
  lemma EntryIsRead(inner: string, i: nat, at: nat, key: string, value: string)
    requires NoQuote(key) && NoQuote(value)
    requires Occurs(inner, at, Show(Str(key)) + (": " + Show(Str(value))))
    requires i <= at && forall j :: i <= j < at && j < |inner| ==> inner[j] != QUOTE
    ensures PropertyAt(inner, i) == Some(Property(key, value, at + |key| + |value| + 6))
  {
    hide Occurs, FindChar, PropertyAt, Show, SkipSpaces;
    var afterKey := at + |key| + 2;
    ShowLength(key);
    OccursConcat(inner, at, Show(Str(key)), ": " + Show(Str(value)));
    OccursConcat(inner, afterKey, ": ", Show(Str(value)));
    var keyAt := QuoteStarts(inner, at, key);
    FindCharAt(inner, QUOTE, i, keyAt);
    SliceOf(inner, at + 1, key);
    ColonFollows(inner, afterKey, value);
    FindCharAt(inner, ':', afterKey - 1, afterKey);
    var valueAt := QuoteStarts(inner, afterKey + 2, value);
    SliceOf(inner, afterKey + 3, value);
    QuotedProperty(inner, i, at, afterKey - 1, afterKey, afterKey + 2, afterKey + 3 + |value|);
  }

  /** The scan for a name and a quoted value, from where its searches stop. */
  lemma QuotedProperty(inner: string, i: nat, keyStart: nat, keyEnd: nat, colon: nat, open: nat, close: nat)
    requires FindChar(inner, QUOTE, i) == keyStart && FindChar(inner, QUOTE, keyStart + 1) == keyEnd
    requires FindChar(inner, ':', keyEnd) == colon && SkipSpaces(inner, colon + 1) == open
    requires open < |inner| && inner[open] == QUOTE && FindChar(inner, QUOTE, open + 1) == close
    ensures PropertyAt(inner, i) == Some(Property(inner[keyStart + 1..keyEnd], inner[open + 1..close], close + 1))
  {
    hide FindChar, SkipSpaces;
  }

  lemma ShowLength(s: string)
    ensures |Show(Str(s))| == |s| + 2
  {
  }

  lemma QuoteStarts(text: string, at: nat, s: string) returns (pos: nat)
    requires Occurs(text, at, Show(Str(s))) && NoQuote(s)
    ensures pos == at && at + |s| + 2 <= |text| && text[at] == QUOTE && text[at + |s| + 1] == QUOTE
    ensures FindChar(text, QUOTE, at + 1) == at + 1 + |s| && Occurs(text, at + 1, s)
  {
    hide Occurs, FindChar;
    pos := at;
    OccursAt(text, at, Show(Str(s)), 0);
    OccursAt(text, at, Show(Str(s)), |s| + 1);
    ClosingQuote(text, at, s);
  }

  lemma ColonFollows(text: string, at: nat, value: string)
    requires Occurs(text, at, ": ") && Occurs(text, at + 2, Show(Str(value)))
    ensures at + 2 < |text| && text[at] == ':' && SkipSpaces(text, at + 1) == at + 2
  {
    hide Occurs;
    OccursAt(text, at, ": ", 0);
    OccursAt(text, at, ": ", 1);
    OccursAt(text, at + 2, Show(Str(value)), 0);
    assert SkipSpaces(text, at + 2) == at + 2;
  }

  lemma {:induction false} SeparatorsStop(text: string, from: nat, q: nat)
    requires from <= q <= |text| && (q < |text| ==> text[q] == QUOTE)
    ensures from <= SkipSeparators(text, from) <= q
    decreases q - from
  {
    if from < q { SeparatorsStop(text, from + 1, q); }
  }

  ghost function Assigned(props: map<string, string>, keys: seq<string>, acc: map<string, string>): map<string, string>
    requires forall k :: k in keys ==> k in props
  {
    if keys == [] then acc else Assigned(props, keys[1..], acc[Escape(keys[0]) := Escape(props[keys[0]])])
  }

  function EntryLead(style: Style, first: bool): (s: string)
    ensures Plain(s)
  {
    Layout(style.pretty, 4);
    (if first then "" else ",") + NewLine(style.pretty, 4)
  }

  ghost function EntryText(key: string, value: string): string {
    Show(Str(key)) + (": " + Show(Str(value)))
  }

  lemma EntryRendered(style: Style, key: string, value: string, first: bool)
    ensures Render(Entry(style, key, value, first)) == EntryLead(style, first) + EntryText(key, value)
  {
    hide Show, NewLine;
    var lead, k, colon, v := Raw(EntryLead(style, first)), Str(key), Raw(": "), Str(value);
    assert Entry(style, key, value, first) == [lead] + ([k] + ([colon] + [v]));
    RenderConcat([lead], [k] + ([colon] + [v]));
    RenderConcat([k], [colon] + [v]);
    RenderConcat([colon], [v]);
    RenderOne(lead);
    RenderOne(k);
    RenderOne(colon);
    RenderOne(v);
    ShowRaw(EntryLead(style, first));
    ShowRaw(": ");
  }

  lemma ShowRaw(s: string)
    ensures Show(Raw(s)) == s
  {
  }

  /** The entries from some key on, to the end of the block. */
  ghost function EntriesText(style: Style, props: map<string, string>, keys: seq<string>, first: bool): string
    requires forall k :: k in keys ==> k in props
  {
    Render(Entries(style, props, keys, first) + [Raw(NewLine(style.pretty, 3))])
  }

  lemma EntriesTextSplit(style: Style, props: map<string, string>, keys: seq<string>, first: bool)
    requires forall k :: k in keys ==> k in props
    ensures keys == [] ==> EntriesText(style, props, keys, first) == NewLine(style.pretty, 3)
    ensures keys != [] ==>
              EntriesText(style, props, keys, first)
              == EntryLead(style, first) + (EntryText(Escape(keys[0]), Escape(props[keys[0]]))
                                            + EntriesText(style, props, keys[1..], false))
  {
    hide Render, NewLine, Entry, EntryText, EntryLead;
    var end := [Raw(NewLine(style.pretty, 3))];
    if keys == [] {
      RenderOne(end[0]);
      ShowRaw(NewLine(style.pretty, 3));
      assert Entries(style, props, keys, first) + end == end;
    } else {
      var key, value := Escape(keys[0]), Escape(props[keys[0]]);
      var rest := Entries(style, props, keys[1..], false) + end;
      assert Entries(style, props, keys, first) + end == Entry(style, key, value, first) + rest;
      RenderConcat(Entry(style, key, value, first), rest);
      EntryRendered(style, key, value, first);
    }
  }

  /** The scan reads entry after entry, from anywhere before the first quote. */
  lemma {:induction false} ReadEntries(style: Style, props: map<string, string>, keys: seq<string>, first: bool,
                                       inner: string, pos: nat, i: nat, acc: map<string, string>)
    requires forall k :: k in keys ==> k in props && NoQuote(k) && NoQuote(props[k])
    requires IsSuffix(inner, pos, EntriesText(style, props, keys, first)) && pos <= i
    requires i <= pos + |if keys == [] then NewLine(style.pretty, 3) else EntryLead(style, first)|
    ensures PropertiesFrom(inner, i, acc) == Assigned(props, keys, acc)
    decreases |keys|
  {
    hide Occurs, PropertyAt, NewLine, EntriesText, EntryText, EntryLead;
    EntriesTextSplit(style, props, keys, first);
    if keys == [] {
      Layout(style.pretty, 3);
      NoEntriesLeft(inner, pos, i, NewLine(style.pretty, 3), acc);
    } else {
      var key, value := Escape(keys[0]), Escape(props[keys[0]]);
      var next := OneEntry(style, props, keys, first, inner, pos, i);
      NextStart(style, props, keys[1..], inner, next);
      ReadEntries(style, props, keys[1..], false, inner, next, SkipSeparators(inner, next), acc[key := value]);
    }
  }

  lemma OneEntry(style: Style, props: map<string, string>, keys: seq<string>, first: bool, inner: string,
          pos: nat, i: nat)
    returns (next: nat)
    requires keys != [] && forall k :: k in keys ==> k in props && NoQuote(k) && NoQuote(props[k])
    requires IsSuffix(inner, pos, EntriesText(style, props, keys, first)) && pos <= i <= pos + |EntryLead(style, first)|
    ensures IsSuffix(inner, next, EntriesText(style, props, keys[1..], false)) && i < |inner|
    ensures PropertyAt(inner, i) == Some(Property(Escape(keys[0]), Escape(props[keys[0]]), next))
  {
    hide Occurs, PropertyAt, NewLine, EntriesText, EntryText, EntryLead, NoQuote;
    var key, value := keys[0], props[keys[0]];
    var lead, entry, rest := EntryLead(style, first), EntryText(Escape(key), Escape(value)),
        EntriesText(style, props, keys[1..], false);
    EntriesTextSplit(style, props, keys, first);
    SuffixConcat(inner, pos, lead, entry + rest);
    SuffixConcat(inner, pos + |lead|, entry, rest);
    EscapeNoQuote(key);
    EscapeNoQuote(value);
    NoQuoteBefore(inner, pos, lead);
    EntryTextIsRead(inner, i, pos + |lead|, Escape(key), Escape(value));
    next := pos + |lead| + |entry|;
  }

  lemma EntryTextIsRead(inner: string, i: nat, at: nat, key: string, value: string)
    requires NoQuote(key) && NoQuote(value) && Occurs(inner, at, EntryText(key, value))
    requires i <= at && forall j :: i <= j < at && j < |inner| ==> inner[j] != QUOTE
    ensures i < |inner| && PropertyAt(inner, i) == Some(Property(key, value, at + |EntryText(key, value)|))
  {
    hide Occurs, PropertyAt, Show;
    ShowLength(key);
    ShowLength(value);
    OccursBounds(inner, at, EntryText(key, value));
    EntryIsRead(inner, i, at, key, value);
  }

  lemma NoQuoteBefore(text: string, pos: nat, lead: string)
    requires Occurs(text, pos, lead) && Plain(lead)
    ensures pos + |lead| <= |text|
    ensures forall j :: pos <= j < pos + |lead| ==> text[j] != QUOTE
  {
    hide Occurs;
    OccursBounds(text, pos, lead);
    forall j | pos <= j < pos + |lead| ensures text[j] != QUOTE {
      OccursAt(text, pos, lead, j - pos);
    }
  }

  lemma NoEntriesLeft(inner: string, pos: nat, i: nat, end: string, acc: map<string, string>)
    requires IsSuffix(inner, pos, end) && Plain(end) && pos <= i
    ensures PropertiesFrom(inner, i, acc) == acc
  {
    hide Occurs;
    NoQuoteBefore(inner, pos, end);
    if i < |inner| {
      FindCharAbsent(inner, QUOTE, i);
      assert PropertyAt(inner, i) == None;
    }
  }

  lemma EntryStarts(key: string, value: string)
    ensures EntryText(key, value) != [] && EntryText(key, value)[0] == QUOTE
  {
  }

  /** After a value, separators are skipped up to the next name. */
  lemma NextStart(style: Style, props: map<string, string>, keys: seq<string>, inner: string, pos: nat)
    requires forall k :: k in keys ==> k in props
    requires IsSuffix(inner, pos, EntriesText(style, props, keys, false))
    ensures pos <= SkipSeparators(inner, pos)
         <= pos + |if keys == [] then NewLine(style.pretty, 3) else EntryLead(style, false)|
  {
    hide Occurs, NewLine, EntriesText, EntryLead, EntryText, SkipSeparators, Escape;
    EntriesTextSplit(style, props, keys, false);
    if keys == [] {
      SeparatorsStop(inner, pos, |inner|);
    } else {
      var lead, entry := EntryLead(style, false), EntryText(Escape(keys[0]), Escape(props[keys[0]]));
      SuffixConcat(inner, pos, lead, entry + EntriesText(style, props, keys[1..], false));
      SuffixConcat(inner, pos + |lead|, entry, EntriesText(style, props, keys[1..], false));
      EntryStarts(Escape(keys[0]), Escape(props[keys[0]]));
      OccursAt(inner, pos + |lead|, entry, 0);
      SeparatorsStop(inner, pos, pos + |lead|);
    }
  }

  /** The properties with escaped names and values. */
  ghost predicate IsEscaped(props: map<string, string>, read: map<string, string>) {
    && (forall k :: k in props ==> Escape(k) in read && read[Escape(k)] == Escape(props[k]))
    && (forall e :: e in read ==> exists k :: k in props && e == Escape(k))
  }

  lemma {:induction false} AssignedKeys(props: map<string, string>, keys: seq<string>, acc: map<string, string>)
    requires forall k :: k in keys ==> k in props
    ensures forall k :: k in keys ==> Escape(k) in Assigned(props, keys, acc)
    ensures forall e :: e in Assigned(props, keys, acc) ==> e in acc || exists k :: k in keys && e == Escape(k)
    ensures forall e :: e in acc ==> e in Assigned(props, keys, acc)
  {
    if keys != [] {
      var e0 := Escape(keys[0]);
      AssignedKeys(props, keys[1..], acc[e0 := Escape(props[keys[0]])]);
      assert keys == [keys[0]] + keys[1..];
    }
  }

  lemma {:induction false} AssignedValues(props: map<string, string>, keys: seq<string>, acc: map<string,
          string>, k: string)
    requires (forall j :: j in keys ==> j in props) && k in props
    requires Escape(k) in acc ==> acc[Escape(k)] == Escape(props[k])
    ensures Escape(k) in Assigned(props, keys, acc) ==> Assigned(props, keys, acc)[Escape(k)] == Escape(props[k])
  {
    if keys != [] {
      if Escape(keys[0]) == Escape(k) { JsonString.EscapeInjective(keys[0], k); }
      AssignedValues(props, keys[1..], acc[Escape(keys[0]) := Escape(props[keys[0]])], k);
    }
  }

  lemma PropertiesAreAssigned(style: Style, props: map<string, string>)
    requires Unquoted(props)
    ensures (forall k :: k in SortedKeys(props.Keys) <==> k in props)
    ensures Properties(Render(PropertiesBlock(style, props))) == Assigned(props, SortedKeys(props.Keys), map[])
  {
    hide Occurs, Render, Trim, NewLine, PropertiesFrom, Assigned, Entries;
    SortedKeysAreKeys(props.Keys);
    TrimNest('{', PropertiesInner(style, props));
    var inner := EntriesText(style, props, SortedKeys(props.Keys), true);
    WholeIsSuffix(inner);
    ReadEntries(style, props, SortedKeys(props.Keys), true, inner, 0, 0, map[]);
  }

  /** A printed property block reads back with all names and values, escaped. */
  lemma PropertiesAreRead(style: Style, props: map<string, string>)
    requires Unquoted(props)
    ensures IsEscaped(props, Properties(Render(PropertiesBlock(style, props))))
  {
    hide Properties, Render, PropertiesBlock, Assigned, SortedKeys;
    PropertiesAreAssigned(style, props);
    var keys := SortedKeys(props.Keys);
    AssignedKeys(props, keys, map[]);
    forall k | k in props
      ensures Escape(k) in Assigned(props, keys, map[]) && Assigned(props, keys, map[])[Escape(k)] == Escape(props[k])
    {
      AssignedValues(props, keys, map[], k);
    }
  }
}
