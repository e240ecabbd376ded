/**
 * JSON strings and flat objects of the configuration store (config/config_manager.cpp, jsonEscape
 * and JSONParser).
 *
 * The parser moves a position through the text. The functions `...At` say where each of its
 * methods stops and what it returns; the lemmas say that parsing undoes escaping, and that
 * `ExtractField` finds the fields of a flat object.
 */
module JsonString {
  import opened Common

  const BACKSPACE := 8 as char
  const FORM_FEED := 12 as char
  const NEWLINE := '\n'
  const RETURN := '\r'
  const TAB := '\t'

  // ---------------------------------------------------------------------------
  // Escaping
  // ---------------------------------------------------------------------------

  function EscapeChar(c: char): string {
    if c == QUOTE then [BACKSLASH, QUOTE]
    else if c == BACKSLASH then [BACKSLASH, BACKSLASH]
    else if c == BACKSPACE then [BACKSLASH, 'b']
    else if c == FORM_FEED then [BACKSLASH, 'f']
    else if c == NEWLINE then [BACKSLASH, 'n']
    else if c == RETURN then [BACKSLASH, 'r']
    else if c == TAB then [BACKSLASH, 't']
    else [c]
  }

  ghost function Escape(s: string): string {
    if s == [] then [] else EscapeChar(s[0]) + Escape(s[1..])
  }

  method JsonEscape(s: string) returns (r: string)
    ensures r == Escape(s)
  {
    r := [];
    for i := 0 to |s|
      invariant r + Escape(s[i..]) == Escape(s)
    {
      assert s[i..][1..] == s[i + 1..];
      r := r + EscapeChar(s[i]);
    }
  }

  // ---------------------------------------------------------------------------
  // What the parser reads at a position
  // ---------------------------------------------------------------------------

  predicate IsSpace(c: char) {
    c == ' ' || c == TAB || c == NEWLINE || c == RETURN
  }

  function SkipAt(data: string, pos: nat): (p: nat)
    requires pos <= |data|
    ensures pos <= p <= |data|
    decreases |data| - pos
  {
    if pos < |data| && IsSpace(data[pos]) then SkipAt(data, pos + 1) else pos
  }

  predicate MatchesAt(data: string, pos: nat, c: char)
    requires pos <= |data|
  {
    SkipAt(data, pos) < |data| && data[SkipAt(data, pos)] == c
  }

  function Unescape(c: char): char {
    if c == 'b' then BACKSPACE
    else if c == 'f' then FORM_FEED
    else if c == 'n' then NEWLINE
    else if c == 'r' then RETURN
    else if c == 't' then TAB
    else c
  }

  /** The position after the closing quote, or the end of the text. */
  function BodyEnd(data: string, pos: nat): (end: nat)
    requires pos <= |data|
    ensures pos <= end <= |data|
    decreases |data| - pos
  {
    if pos == |data| then pos
    else if data[pos] == QUOTE then pos + 1
    else if data[pos] == BACKSLASH && pos + 1 < |data| then BodyEnd(data, pos + 2)
    else BodyEnd(data, pos + 1)
  }

  /** The characters up to the closing quote or the end. */
  function BodyText(data: string, pos: nat): string
    requires pos <= |data|
    decreases |data| - pos
  {
    if pos == |data| || data[pos] == QUOTE then []
    else if data[pos] == BACKSLASH && pos + 1 < |data| then [Unescape(data[pos + 1])] + BodyText(data, pos + 2)
    else [data[pos]] + BodyText(data, pos + 1)
  }

  function StringAt(data: string, pos: nat): (r: (Option<string>, nat))
    requires pos <= |data|
    ensures pos <= r.1 <= |data| && (r.0.Some? ==> pos < r.1)
  {
    var p := SkipAt(data, pos);
    if p == |data| || data[p] != QUOTE then (None, p)
    else (Some(BodyText(data, p + 1)), BodyEnd(data, p + 1))
  }

  predicate EndsLiteral(c: char) {
    c == ',' || c == '}' || c == ']'
  }

  predicate InNumber(c: char) {
    c == '-' || c == '+' || c == '.' || '0' <= c <= '9' || c == 'e' || c == 'E'
  }

  /** The end of an unquoted value: a literal runs to a delimiter, a number while it looks like one. */
  function BareEnd(data: string, pos: nat, literal: bool): (p: nat)
    requires pos <= |data|
    ensures pos <= p <= |data|
    decreases |data| - pos
  {
    if pos < |data| && (if literal then !EndsLiteral(data[pos]) else InNumber(data[pos]))
    then BareEnd(data, pos + 1, literal) else pos
  }

  function ValueAt(data: string, pos: nat): (r: (Option<string>, nat))
    requires pos <= |data|
    ensures pos <= r.1 <= |data|
  {
    var p := SkipAt(data, pos);
    if p == |data| then (None, p)
    else if data[p] == QUOTE then StringAt(data, p)
    else
      var end := BareEnd(data, p, data[p] == 't' || data[p] == 'f' || data[p] == 'n');
      (Some(data[p..end]), end)
  }

  /** The search of the fields from a position inside the braces. */
  function FieldFrom(data: string, pos: nat, name: string): string
    requires pos <= |data|
    decreases |data| - pos
  {
    if pos == |data| then ""
    else
      var (key, afterKey) := StringAt(data, pos);
      if key.None? || !MatchesAt(data, afterKey, ':') then ""
      else
        var (value, afterValue) := ValueAt(data, SkipAt(data, afterKey) + 1);
        if key.value == name then (if value.Some? then value.value else "")
        else if !MatchesAt(data, afterValue, ',') then ""
        else FieldFrom(data, SkipAt(data, afterValue) + 1, name)
  }

  function FieldOf(data: string, name: string): string {
    if MatchesAt(data, 0, '{') then FieldFrom(data, SkipAt(data, 0) + 1, name) else ""
  }

  // ---------------------------------------------------------------------------
  // The parser
  // ---------------------------------------------------------------------------

  class JSONParser {
    const data: string
    var pos: nat

    ghost predicate Valid()
      reads this
    {
      pos <= |data|
    }

    constructor (s: string)
      ensures Valid() && data == s && pos == 0
    {
      data := s;
      pos := 0;
    }

    method SkipWhitespace()
      requires Valid()
      modifies this
      ensures Valid() && pos == SkipAt(data, old(pos))
    {
      while pos < |data| && IsSpace(data[pos])
        invariant Valid() && SkipAt(data, pos) == SkipAt(data, old(pos))
        decreases |data| - pos
      {
        pos := pos + 1;
      }
    }

    method Match(c: char) returns (found: bool)
      requires Valid()
      modifies this
      ensures Valid() && found == MatchesAt(data, old(pos), c)
      ensures pos == SkipAt(data, old(pos)) + (if found then 1 else 0)
    {
      SkipWhitespace();
      if pos < |data| && data[pos] == c {
        pos := pos + 1;
        return true;
      }
      found := false;
    }

    method ParseString() returns (r: Option<string>)
      requires Valid()
      modifies this
      ensures Valid() && (r, pos) == StringAt(data, old(pos))
    {
      SkipWhitespace();
      if pos >= |data| || data[pos] != QUOTE { return None; }
      pos := pos + 1;
      var result := ReadBody();
      r := Some(result);
    }

    /** The loop of ParseString, from just after the opening quote. */
    method ReadBody() returns (result: string)
      requires Valid()
      modifies this
      ensures Valid() && result == BodyText(data, old(pos)) && pos == BodyEnd(data, old(pos))
    {
      hide Unescape;
      result := [];
      ghost var end, text := BodyEnd(data, pos), BodyText(data, pos);
      while pos < |data| && data[pos] != QUOTE
        invariant Valid() && BodyEnd(data, pos) == end && result + BodyText(data, pos) == text
        decreases |data| - pos
      {
        if data[pos] == BACKSLASH && pos + 1 < |data| {
          pos := pos + 1;
          result := result + [Unescape(data[pos])];
        } else {
          result := result + [data[pos]];
        }
        pos := pos + 1;
      }
      if pos < |data| { pos := pos + 1; }
    }

    method ParseValue() returns (r: Option<string>)
      requires Valid()
      modifies this
      ensures Valid() && (r, pos) == ValueAt(data, old(pos))
    {
      SkipWhitespace();
      if pos >= |data| { return None; }
      if data[pos] == QUOTE {
        r := ParseString();
        return;
      }
      var start := pos;
      var literal := data[pos] == 't' || data[pos] == 'f' || data[pos] == 'n';
      while pos < |data| && (if literal then !EndsLiteral(data[pos]) else InNumber(data[pos]))
        invariant Valid() && start <= pos && BareEnd(data, pos, literal) == BareEnd(data, start, literal)
        decreases |data| - pos
      {
        pos := pos + 1;
      }
      r := Some(data[start..pos]);
    }

    method ExtractField(fieldName: string) returns (r: string)
      modifies this
      ensures r == FieldOf(data, fieldName)
    {
      hide StringAt, ValueAt, MatchesAt, SkipAt;
      pos := 0;
      var open := Match('{');
      if !open { return ""; }
      while pos < |data|
        invariant Valid() && FieldFrom(data, pos, fieldName) == FieldOf(data, fieldName)
        decreases |data| - pos
      {
        var key := ParseString();
        if key.None? { return ""; }
        var colon := Match(':');
        if !colon { return ""; }
        var val := ParseValue();
        if key.value == fieldName {
          return if val.Some? then val.value else "";
        }
        var comma := Match(',');
        if !comma { return ""; }
      }
      r := "";
    }
  }

  // ---------------------------------------------------------------------------
  // Parsing undoes escaping
  // ---------------------------------------------------------------------------

  lemma UnescapeUndoes(c: char)
    ensures |EscapeChar(c)| == 2 ==> EscapeChar(c)[0] == BACKSLASH && Unescape(EscapeChar(c)[1]) == c
    ensures |EscapeChar(c)| != 2 ==> EscapeChar(c) == [c] && c != BACKSLASH && c != QUOTE
  {
  }

  /** Where escaped text and a quote stand, the parser reads the original text and stops after the quote. */
  lemma {:induction false} BodyOfEscaped(data: string, pos: nat, s: string)
    requires Occurs(data, pos, Escape(s) + [QUOTE])
    ensures BodyText(data, pos) == s && BodyEnd(data, pos) == pos + |Escape(s)| + 1
    decreases |s|
  {
    if s == [] {
      OccursAt(data, pos, Escape(s) + [QUOTE], 0);
    } else {
      var e := EscapeChar(s[0]);
      UnescapeUndoes(s[0]);
      assert Escape(s) + [QUOTE] == e + (Escape(s[1..]) + [QUOTE]);
      OccursConcat(data, pos, e, Escape(s[1..]) + [QUOTE]);
      BodyOfEscaped(data, pos + |e|, s[1..]);
      OccursAt(data, pos, e, 0);
      if |e| == 2 {
        OccursAt(data, pos, e, 1);
      }
    }
  }

  /** The escapes of section 7 of RFC 8259, in their short forms; other characters stand for themselves. */
  lemma EscapesAre(c: char)
    ensures Escape("\"") == "\\\"" && Escape("\\") == "\\\\" && Escape("\n") == "\\n" && Escape("\r") == "\\r"
    ensures Escape("\t") == "\\t" && Escape([8 as char]) == "\\b" && Escape([12 as char]) == "\\f"
    ensures c !in {'\"', '\\', '\n', '\r', '\t', 8 as char, 12 as char} ==> Escape([c]) == [c]
  {
    EscapeOne('\"');
    EscapeOne('\\');
    EscapeOne('\n');
    EscapeOne('\r');
    EscapeOne('\t');
    EscapeOne(8 as char);
    EscapeOne(12 as char);
    EscapeOne(c);
  }

  lemma EscapeOne(c: char)
    ensures Escape([c]) == EscapeChar(c)
  {
    assert Escape([]) == [];
  }

  function Quoted(s: string): string {
    [QUOTE] + s + [QUOTE]
  }

  /** The parser reads back any string that was escaped and quoted, and stops exactly after it. */
  lemma StringRoundTrip(data: string, pos: nat, s: string)
    requires Occurs(data, pos, Quoted(Escape(s)))
    ensures StringAt(data, pos) == (Some(s), pos + |Quoted(Escape(s))|)
  {
    hide Occurs, Escape;
    assert Quoted(Escape(s)) == [QUOTE] + (Escape(s) + [QUOTE]);
    OccursConcat(data, pos, [QUOTE], Escape(s) + [QUOTE]);
    OccursAt(data, pos, [QUOTE], 0);
    BodyOfEscaped(data, pos + 1, s);
  }

  lemma EscapeInjective(s: string, t: string)
    requires Escape(s) == Escape(t)
    ensures s == t
  {
    var data := Quoted(Escape(s));
    StringRoundTrip(data, 0, s);
    StringRoundTrip(data, 0, t);
  }

  // ---------------------------------------------------------------------------
  // Flat objects
  // ---------------------------------------------------------------------------

  datatype Value = Text(s: string) | Bare(s: string)

  /** true, false, null and the like: up to the next delimiter. */
  predicate IsLiteral(s: string) {
    s != "" && s[0] in {'t', 'f', 'n'} && forall i :: 0 <= i < |s| ==> s[i] !in {',', '}', ']'}
  }

  predicate IsNumber(s: string) {
    s != "" && forall i :: 0 <= i < |s| ==> '0' <= s[i] <= '9' || s[i] in {'-', '+', '.', 'e', 'E'}
  }

  predicate Blanks(s: string) {
    forall i :: 0 <= i < |s| ==> s[i] in {' ', '\t', '\n', '\r'}
  }

  /** A field with the blanks around its parts. */
  datatype Field = Field(beforeKey: string, key: string, beforeColon: string, beforeValue: string, value: Value, afterValue: string)

  /** A blank after a literal would be taken for a part of it. */
  predicate WellSpaced(f: Field) {
    && Blanks(f.beforeKey) && Blanks(f.beforeColon) && Blanks(f.beforeValue) && Blanks(f.afterValue)
    && (f.value.Bare? ==> IsNumber(f.value.s) || (IsLiteral(f.value.s) && f.afterValue == ""))
  }

  ghost function ValueText(v: Value): string {
    if v.Text? then Quoted(Escape(v.s)) else v.s
  }

  ghost function FromValue(f: Field): string {
    f.beforeValue + (ValueText(f.value) + f.afterValue)
  }

  /** Name and value, as JSON strings or bare, with a colon between. */
  ghost function FieldText(f: Field): string {
    f.beforeKey + (Quoted(Escape(f.key)) + (f.beforeColon + (":" + FromValue(f))))
  }

  /** The fields with commas between, and the closing brace. */
  ghost function FieldsToEnd(fs: seq<Field>): string {
    if fs == [] then "}"
    else FieldText(fs[0]) + (if |fs| == 1 then "}" else "," + FieldsToEnd(fs[1..]))
  }

  /** An object after blanks and before anything. */
  ghost function Object(lead: string, fs: seq<Field>, rest: string): string {
    lead + ("{" + (FieldsToEnd(fs) + rest))
  }

  /** The value of the first field with the name, empty if there is none. */
  ghost function FirstNamed(fs: seq<Field>, name: string): string {
    if fs == [] then "" else if fs[0].key == name then fs[0].value.s else FirstNamed(fs[1..], name)
  }

  lemma SkipNothing(data: string, pos: nat)
    requires pos < |data| && !IsSpace(data[pos])
    ensures SkipAt(data, pos) == pos
  {
  }

  lemma {:induction false} SkipBlanks(data: string, pos: nat, blanks: string)
    requires Occurs(data, pos, blanks) && Blanks(blanks)
    ensures pos + |blanks| <= |data| && SkipAt(data, pos) == SkipAt(data, pos + |blanks|)
    decreases |blanks|
  {
    OccursBounds(data, pos, blanks);
    if blanks != "" {
      OccursAt(data, pos, blanks, 0);
      assert blanks == [blanks[0]] + blanks[1..];
      OccursConcat(data, pos, [blanks[0]], blanks[1..]);
      SkipBlanks(data, pos + 1, blanks[1..]);
    }
  }

  lemma {:induction false} BareIsRead(data: string, pos: nat, s: string, literal: bool)
    requires Occurs(data, pos, s) && pos + |s| < |data|
    requires if literal then forall i :: 0 <= i < |s| ==> s[i] !in {',', '}', ']'} else s == "" || IsNumber(s)
    requires var next := data[pos + |s|]; if literal then next in {',', '}'} else next in {',', '}', ' ', '\t', '\n', '\r'}
    ensures BareEnd(data, pos, literal) == pos + |s|
    decreases |s|
  {
    if s != "" {
      OccursAt(data, pos, s, 0);
      assert s == [s[0]] + s[1..];
      OccursConcat(data, pos, [s[0]], s[1..]);
      BareIsRead(data, pos + 1, s[1..], literal);
    }
  }

  /** A value is read as it is meant, and the position after it is found. */
  lemma ValueIsRead(data: string, pos: nat, f: Field)
    requires WellSpaced(f) && Occurs(data, pos, FromValue(f)) && pos + |FromValue(f)| < |data|
    requires data[pos + |FromValue(f)|] in {',', '}'}
    ensures ValueAt(data, pos) == (Some(f.value.s), pos + |f.beforeValue| + |ValueText(f.value)|)
  {
    hide Occurs, Escape, BodyText, BodyEnd, BareEnd;
    var at, text := pos + |f.beforeValue|, ValueText(f.value);
    OccursConcat(data, pos, f.beforeValue, text + f.afterValue);
    OccursConcat(data, at, text, f.afterValue);
    SkipBlanks(data, pos, f.beforeValue);
    OccursAt(data, at, text, 0);
    SkipNothing(data, at);
    if f.value.Text? {
      StringRoundTrip(data, at, f.value.s);
    } else {
      if f.afterValue != "" { OccursAt(data, at + |text|, f.afterValue, 0); }
      BareIsRead(data, at, f.value.s, data[at] in {'t', 'f', 'n'});
      OccursSlice(data, at, f.value.s);
    }
  }

  lemma OccursSlice(data: string, pos: nat, s: string)
    requires Occurs(data, pos, s)
    ensures pos + |s| <= |data| && data[pos..pos + |s|] == s
  {
  }

  lemma SkipsToSame(data: string, a: nat, b: nat, c: char)
    requires a <= |data| && b <= |data| && SkipAt(data, a) == SkipAt(data, b)
    ensures StringAt(data, a) == StringAt(data, b) && MatchesAt(data, a, c) == MatchesAt(data, b, c)
  {
    hide SkipAt;
  }

  lemma KeyIsRead(data: string, pos: nat, f: Field)
    requires WellSpaced(f) && Occurs(data, pos, FieldText(f))
    ensures pos + |FieldText(f)| <= |data|
    ensures StringAt(data, pos).0 == Some(f.key) && MatchesAt(data, StringAt(data, pos).1, ':')
    ensures SkipAt(data, StringAt(data, pos).1) + 1 == pos + |FieldText(f)| - |FromValue(f)|
    ensures Occurs(data, pos + |FieldText(f)| - |FromValue(f)|, FromValue(f))
  {
    hide Occurs, Escape, StringAt, FromValue;
    var k := Quoted(Escape(f.key));
    var at := pos + |f.beforeKey|;
    var after := at + |k|;
    OccursBounds(data, pos, FieldText(f));
    OccursConcat(data, pos, f.beforeKey, k + (f.beforeColon + (":" + FromValue(f))));
    OccursConcat(data, at, k, f.beforeColon + (":" + FromValue(f)));
    OccursConcat(data, after, f.beforeColon, ":" + FromValue(f));
    OccursConcat(data, after + |f.beforeColon|, ":", FromValue(f));
    SkipBlanks(data, pos, f.beforeKey);
    SkipsToSame(data, pos, at, ':');
    StringRoundTrip(data, at, f.key);
    SkipBlanks(data, after, f.beforeColon);
    OccursAt(data, after + |f.beforeColon|, ":", 0);
    SkipNothing(data, after + |f.beforeColon|);
  }

  /** One field, and the delimiter behind it. */
  lemma FieldIsRead(data: string, pos: nat, f: Field)
    requires WellSpaced(f) && Occurs(data, pos, FieldText(f)) && pos + |FieldText(f)| < |data|
    requires data[pos + |FieldText(f)|] in {',', '}'}
    ensures StringAt(data, pos).0 == Some(f.key) && MatchesAt(data, StringAt(data, pos).1, ':')
    ensures var (value, end) := ValueAt(data, SkipAt(data, StringAt(data, pos).1) + 1);
            && value == Some(f.value.s) && SkipAt(data, end) == pos + |FieldText(f)|
  {
    hide Occurs, Escape, StringAt, ValueAt, MatchesAt;
    KeyIsRead(data, pos, f);
    var at := pos + |FieldText(f)| - |FromValue(f)|;
    ValueIsRead(data, at, f);
    OccursConcat(data, at, f.beforeValue, ValueText(f.value) + f.afterValue);
    OccursConcat(data, at + |f.beforeValue|, ValueText(f.value), f.afterValue);
    SkipBlanks(data, at + |f.beforeValue| + |ValueText(f.value)|, f.afterValue);
    SkipNothing(data, pos + |FieldText(f)|);
  }

  lemma {:induction false} FieldsAreFound(data: string, pos: nat, fs: seq<Field>, name: string)
    requires (forall f :: f in fs ==> WellSpaced(f)) && Occurs(data, pos, FieldsToEnd(fs))
    ensures FieldFrom(data, pos, name) == FirstNamed(fs, name)
    decreases |fs|
  {
    hide StringAt, ValueAt, Occurs, FieldText, WellSpaced;
    if fs == [] {
      OccursAt(data, pos, "}", 0);
      NoString(data, pos);
    } else {
      var rest := if |fs| == 1 then "}" else "," + FieldsToEnd(fs[1..]);
      var next := pos + |FieldText(fs[0])|;
      OccursConcat(data, pos, FieldText(fs[0]), rest);
      OccursAt(data, next, rest, 0);
      FieldIsRead(data, pos, fs[0]);
      if |fs| > 1 {
        OccursConcat(data, next, ",", FieldsToEnd(fs[1..]));
        FieldsAreFound(data, next + 1, fs[1..], name);
      } else {
        assert FirstNamed(fs[1..], name) == "";
      }
    }
  }

  lemma NoString(data: string, pos: nat)
    requires pos < |data| && data[pos] == '}'
    ensures StringAt(data, pos).0 == None
  {
  }

  /**
   * ExtractField finds the first field of the name in a flat object: strings, whatever they
   * contain, numbers, and literals without a blank behind them.
   */
  lemma ObjectFieldRoundTrip(lead: string, fs: seq<Field>, rest: string, name: string)
    requires Blanks(lead) && forall f :: f in fs ==> WellSpaced(f)
    ensures FieldOf(Object(lead, fs, rest), name) == FirstNamed(fs, name)
  {
    hide FieldFrom, FieldsToEnd, WellSpaced, Blanks;
    var data := Object(lead, fs, rest);
    assert Occurs(data, 0, data);
    OccursConcat(data, 0, lead, "{" + (FieldsToEnd(fs) + rest));
    OccursConcat(data, |lead|, "{", FieldsToEnd(fs) + rest);
    OccursConcat(data, |lead| + 1, FieldsToEnd(fs), rest);
    SkipBlanks(data, 0, lead);
    OccursAt(data, |lead|, "{", 0);
    SkipNothing(data, |lead|);
    FieldsAreFound(data, |lead| + 1, fs, name);
  }

  /** The blank behind a literal comes back with it. */
  lemma LiteralKeepsBlank(key: string)
    ensures FieldOf("{" + Quoted(Escape(key)) + ":true }", key) == "true "
  {
    hide FieldFrom, Escape;
    var data := "{" + Quoted(Escape(key)) + ":true }";
    var f := Field("", key, "", "", Bare("true "), "");
    assert data == Object("", [f], "") by { LiteralObject(key); }
    ObjectFieldRoundTrip("", [f], "", key);
  }

  lemma LiteralObject(key: string)
    ensures "{" + Quoted(Escape(key)) + ":true }" == Object("", [Field("", key, "", "", Bare("true "), "")], "")
  {
    hide Escape, Quoted;
    var f := Field("", key, "", "", Bare("true "), "");
    assert FromValue(f) == "true ";
    assert FieldText(f) == Quoted(Escape(key)) + ":true ";
  }

  // ---------------------------------------------------------------------------
  // Where values end
  // ---------------------------------------------------------------------------

  /** A literal is everything up to the next delimiter, another bare value the longest run of characters of numbers. */
  lemma {:induction false} BareIsLongest(data: string, pos: nat, literal: bool)
    requires pos <= |data|
    ensures var end := BareEnd(data, pos, literal);
            && (forall i :: pos <= i < end ==>
                  if literal then data[i] !in {',', '}', ']'} else '0' <= data[i] <= '9' || data[i] in {'-', '+', '.', 'e', 'E'})
            && (end < |data| ==>
                  if literal then data[end] in {',', '}', ']'}
                  else !('0' <= data[end] <= '9') && data[end] !in {'-', '+', '.', 'e', 'E'})
    decreases |data| - pos
  {
    if BareEnd(data, pos, literal) > pos { BareIsLongest(data, pos + 1, literal); }
  }

  /** Literals are told by their first letter. */
  lemma ValueIsBare(data: string, pos: nat)
    requires pos < |data| && !IsSpace(data[pos]) && data[pos] != '\"'
    ensures var end := BareEnd(data, pos, data[pos] in {'t', 'f', 'n'}); ValueAt(data, pos) == (Some(data[pos..end]), end)
  {
    SkipNothing(data, pos);
  }

  /** A string without a closing quote, and without escapes, is everything to the end of the text. */
  lemma {:induction false} OpenStringIsRead(data: string, pos: nat)
    requires pos <= |data| && forall i :: pos <= i < |data| ==> data[i] !in {'\"', '\\'}
    ensures BodyText(data, pos) == data[pos..] && BodyEnd(data, pos) == |data|
    decreases |data| - pos
  {
    if pos < |data| {
      OpenStringIsRead(data, pos + 1);
      assert data[pos..] == [data[pos]] + data[pos + 1..];
    }
  }

  /** A backslash before any other character is dropped, also before the u of a code. */
  lemma OtherEscapes(c: char)
    requires c !in {'b', 'f', 'n', 'r', 't'}
    ensures StringAt("\"\\" + [c] + "\"", 0) == (Some([c]), 4)
  {
    var data := "\"\\" + [c] + "\"";
    SkipNothing(data, 0);
    assert data[1] == BACKSLASH && data[2] == c && data[3] == QUOTE && |data| == 4;
    assert BodyText(data, 3) == [] && BodyEnd(data, 3) == 4;
    assert BodyEnd(data, 1) == 4 && BodyText(data, 1) == [c] + [] == [c];
  }
}
