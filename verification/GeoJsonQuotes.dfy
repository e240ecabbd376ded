/**
 * A property value with a quote never comes back.
 *
 * The parser ends a value at its first quote, escaped or not, and from there on takes the texts between
 * other pairs of quotes for names. Such a run could read a name again and replace the cut value. It does
 * not: every pair it reads uses up a printed entry, so it cannot read the cut one twice and still
 * read all others. The proof counts names; those with a colon and a comma count twice, because a read
 * that starts at such a colon and ends at such a comma leaves a second one in the same entry.
 */
module GeoJsonQuotes {
  import opened Common
  import opened GeoJsonParser
  import opened GeoJsonLexemes
  import opened GeoJsonExporter
  import opened GeoJsonCoordinates
  import opened GeoJsonProperties
  import opened GeoJsonReadable
  import JsonString

  // ---------------------------------------------------------------------------
  // Where the entries stand
  // ---------------------------------------------------------------------------

  /** The quotes of a name, and the one that closes the value. */
  datatype Slot = Slot(open: nat, close: nat, end: nat)

  predicate Free(text: string, from: nat, to: nat, c: char)
    requires to <= |text|
  {
    forall j :: from <= j < to ==> text[j] != c
  }

  /** From a name to its value. */
  predicate Crossing(text: string, close: nat) {
    close + 3 < |text| && text[close] == QUOTE && text[close + 1] == ':' && text[close + 2] == ' ' && text[close + 3] == QUOTE
  }

  /** The rest of a value: its quotes are escaped, and it has no comma if it has a quote. */
  predicate InValue(text: string, from: nat, end: nat) {
    && from <= end < |text| && text[end] == QUOTE
    && (forall j :: from <= j < end && text[j] == QUOTE ==> j > from && text[j - 1] == BACKSLASH)
    && (Free(text, from, end, QUOTE) || Free(text, from, end, ','))
  }

  predicate Holds(text: string, pos: nat, s: Slot, first: bool) {
    && pos <= s.open < s.close && s.close + 4 <= s.end < |text|
    && text[s.open] == QUOTE && Free(text, pos, s.open, QUOTE) && Free(text, pos, s.open, ':')
    && (!first ==> text[pos] == ',')
    && Free(text, s.open + 1, s.close, QUOTE) && Crossing(text, s.close) && InValue(text, s.close + 4, s.end)
  }

  ghost predicate Laid(text: string, pos: nat, slots: seq<Slot>, first: bool)
    decreases slots
  {
    pos <= |text| &&
    if slots == [] then Free(text, pos, |text|, QUOTE) && Free(text, pos, |text|, ':') && Free(text, pos, |text|, ',')
    else Holds(text, pos, slots[0], first) && Laid(text, slots[0].end + 1, slots[1..], false)
  }

  function KeyText(text: string, s: Slot): string {
    if s.open < s.close <= |text| then text[s.open + 1..s.close] else ""
  }

  predicate Quoted(text: string, s: Slot) {
    s.end <= |text| && !Free(text, s.close + 4, s.end, QUOTE)
  }

  // ---------------------------------------------------------------------------
  // Counting
  // ---------------------------------------------------------------------------

  predicate Tricky(k: string) {
    ':' in k && ',' in k
  }

  function Worth(k: string): nat {
    if Tricky(k) then 2 else 1
  }

  ghost function Weight(m: map<string, string>): nat {
    |m.Keys| + |TrickyOnes(m.Keys)|
  }

  lemma WeightAssigned(m: map<string, string>, k: string, v: string)
    ensures Weight(m[k := v]) == Weight(m) + if k in m then 0 else Worth(k)
  {
    hide Tricky;
    var after := m[k := v];
    assert after.Keys == m.Keys + {k};
    TrickyAdded(m.Keys, k);
  }

  ghost function TrickyOnes(keys: set<string>): set<string> {
    set k | k in keys && Tricky(k)
  }

  lemma TrickyAdded(keys: set<string>, k: string)
    ensures |keys + {k}| == |keys| + if k in keys then 0 else 1
    ensures |TrickyOnes(keys + {k})| == |TrickyOnes(keys)| + if k in keys || !Tricky(k) then 0 else 1
  {
    hide Tricky;
    if k in keys {
      assert keys + {k} == keys;
    } else if Tricky(k) {
      assert TrickyOnes(keys + {k}) == TrickyOnes(keys) + {k} && k !in TrickyOnes(keys);
    } else {
      assert TrickyOnes(keys + {k}) == TrickyOnes(keys);
    }
  }

  /** Some value is not the one in the end. */
  predicate Stale(acc: map<string, string>, props: map<string, string>) {
    exists k :: k in acc && k in props && acc[k] != props[k]
  }

  function SlotsWorth(text: string, slots: seq<Slot>): nat {
    if slots == [] then 0 else Worth(KeyText(text, slots[0])) + SlotsWorth(text, slots[1..])
  }

  /** Some value has a quote. */
  predicate SomeQuote(text: string, slots: seq<Slot>) {
    slots != [] && (Quoted(text, slots[0]) || SomeQuote(text, slots[1..]))
  }

  // ---------------------------------------------------------------------------
  // Where the scan can be
  // ---------------------------------------------------------------------------

  /** Before an entry, in a value, or in a name. */
  datatype Place = Lead(pos: nat, first: bool) | Value(end: nat) | Key(close: nat, end: nat)

  function Rest(p: Place): nat {
    if p.Lead? then p.pos else p.end + 1
  }

  predicate First(p: Place) {
    p.Lead? && p.first
  }

  ghost predicate At(text: string, i: nat, p: Place, slots: seq<Slot>) {
    && Laid(text, Rest(p), slots, First(p))
    && match p
       case Lead(pos, _) => pos <= i <= (if slots == [] then |text| else slots[0].open)
       case Value(end) => InValue(text, i, end)
       case Key(close, end) =>
         i <= close && close + 4 <= end && Crossing(text, close) && Free(text, i, close, QUOTE)
         && InValue(text, close + 4, end)
  }

  /** What the names still to be read can be worth. */
  function Left(text: string, p: Place, slots: seq<Slot>): nat {
    SlotsWorth(text, slots) + if p.Key? then 1 else 0
  }

  // ---------------------------------------------------------------------------
  // One name and value
  // ---------------------------------------------------------------------------

  /** The value after a colon, and where it ends. */
  function AfterColon(text: string, colon: nat): Option<(string, nat)> {
    var start := SkipSpaces(text, colon + 1);
    if start < |text| && text[start] == QUOTE then
      var close := FindChar(text, QUOTE, start + 1);
      if close < 0 then None else Some((text[start + 1..close], close + 1))
    else
      var comma := FindChar(text, ',', start);
      var to := if comma < 0 then |text| else comma;
      if start <= to then Some((Trim(text[start..to]), to)) else None
  }

  lemma ReadIs(text: string, i: nat)
    ensures var open := FindChar(text, QUOTE, i);
            if open < 0 || FindChar(text, QUOTE, open + 1) < 0 then PropertyAt(text, i) == None
            else
              var close := FindChar(text, QUOTE, open + 1);
              var colon := FindChar(text, ':', close);
              if colon < 0 || AfterColon(text, colon).None? then PropertyAt(text, i) == None
              else
                var v := AfterColon(text, colon).value;
                PropertyAt(text, i) == Some(Property(text[open + 1..close], v.0, v.1))
  {
    hide FindChar, Trim, SkipSpaces;
  }

  lemma {:induction false} SpacesStop(text: string, from: nat, last: nat)
    requires from <= last < |text| && !IsSpace(text[last])
    ensures from <= SkipSpaces(text, from) <= last
    ensures forall j :: from <= j < SkipSpaces(text, from) ==> IsSpace(text[j])
    decreases last - from
  {
    if from < last { SpacesStop(text, from + 1, last); }
  }

  /** The first quote or comma or colon from a place on, if there is none before it. */
  lemma FirstIs(text: string, c: char, from: nat, at: nat)
    requires from <= at < |text| && text[at] == c && Free(text, from, at, c)
    ensures FindChar(text, c, from) == at
  {
    FindCharAt(text, c, from, at);
  }

  lemma NoneIs(text: string, c: char, from: nat)
    requires from <= |text| && Free(text, from, |text|, c)
    ensures FindChar(text, c, from) == -1
  {
    FindCharAbsent(text, c, from);
  }

  lemma InValueFrom(text: string, from: nat, end: nat, i: nat)
    requires InValue(text, from, end) && from <= i <= end && (i == end || text[i] != QUOTE)
    ensures InValue(text, i, end)
  {
  }

  /** Separators do not lead away from a place. */
  lemma StaysAt(text: string, i: nat, p: Place, slots: seq<Slot>)
    requires At(text, i, p, slots)
    ensures At(text, SkipSeparators(text, i), p, slots)
  {
    hide SkipSeparators, Laid;
    match p {
      case Lead(pos, first) =>
        LeadEnds(text, pos, slots, first);
        SeparatorsStop(text, i, if slots == [] then |text| else slots[0].open);
      case Value(end) =>
        SeparatorsStop(text, i, end);
        SeparatorsSkipped(text, i);
        var next := SkipSeparators(text, i);
        assert next > i ==> text[next - 1] != BACKSLASH;
        InValueFrom(text, i, end, next);
      case Key(close, end) => SeparatorsStop(text, i, close);
    }
  }

  lemma LeadEnds(text: string, pos: nat, slots: seq<Slot>, first: bool)
    requires Laid(text, pos, slots, first)
    ensures slots != [] ==> slots[0].open < |text| && text[slots[0].open] == QUOTE
  {
  }

  lemma {:induction false} SeparatorsSkipped(text: string, from: nat)
    ensures forall j :: from <= j < SkipSeparators(text, from) && j < |text| ==> text[j] != BACKSLASH
    decreases |text| - from
  {
    if from < |text| && (IsSpace(text[from]) || text[from] == ',') { SeparatorsSkipped(text, from + 1); }
  }

  // ---------------------------------------------------------------------------
  // From the colon to the next place
  // ---------------------------------------------------------------------------

  lemma QuotedAfter(text: string, colon: nat, start: nat, close: nat)
    requires SkipSpaces(text, colon + 1) == start < |text| && text[start] == QUOTE
    requires FindChar(text, QUOTE, start + 1) == close
    ensures AfterColon(text, colon) == Some((text[start + 1..close], close + 1))
  {
    hide FindChar, SkipSpaces, Trim;
  }

  lemma BareAfter(text: string, colon: nat, start: nat)
    requires SkipSpaces(text, colon + 1) == start < |text| && text[start] != QUOTE
    ensures AfterColon(text, colon).Some?
    ensures var comma := FindChar(text, ',', start);
            AfterColon(text, colon).value.1 == if comma < 0 then |text| else comma
  {
    hide FindChar, SkipSpaces, Trim;
  }

  lemma AtNextEntry(text: string, end: nat, rest: seq<Slot>)
    requires end < |text| && Laid(text, end + 1, rest, false)
    ensures At(text, end + 1, Lead(end + 1, false), rest)
  {
  }

  lemma AtValue(text: string, i: nat, from: nat, end: nat, rest: seq<Slot>)
    requires InValue(text, from, end) && from <= i <= end && (i == end || text[i] != QUOTE)
    requires Laid(text, end + 1, rest, false)
    ensures At(text, i, Value(end), rest)
  {
    hide Laid;
  }

  lemma AtKey(text: string, i: nat, from: nat, close: nat, end: nat, rest: seq<Slot>)
    requires from <= i <= close && close + 4 <= end && Crossing(text, close) && Free(text, from, close, QUOTE)
    requires InValue(text, close + 4, end) && Laid(text, end + 1, rest, false)
    ensures At(text, i, Key(close, end), rest)
  {
    hide Laid, InValue;
  }

  /** What is known of the characters of an entry. */
  lemma EntryFacts(text: string, pos: nat, slots: seq<Slot>, first: bool)
    requires Laid(text, pos, slots, first) && slots != []
    ensures var s := slots[0];
            && pos <= s.open < s.close && s.close + 4 <= s.end < |text| && text[s.open] == QUOTE && text[s.end] == QUOTE
            && Free(text, pos, s.open, QUOTE) && Free(text, pos, s.open, ':') && Free(text, s.open + 1, s.close, QUOTE)
            && Crossing(text, s.close) && InValue(text, s.close + 4, s.end) && Laid(text, s.end + 1, slots[1..], false)
  {
  }

  /** A value that starts with its quote is read to its first quote. */
  lemma ReadToQuote(text: string, close: nat, end: nat)
    requires close + 4 <= end && Crossing(text, close) && InValue(text, close + 4, end)
    ensures var next := FindChar(text, QUOTE, close + 4) + 1;
            && close + 4 < next <= end + 1 && AfterColon(text, close + 1) == Some((text[close + 4..next - 1], next))
            && (next <= end ==> close + 5 < next && text[next - 2] == BACKSLASH && InValue(text, next, end))
            && (Free(text, close + 4, end, QUOTE) <==> next == end + 1)
  {
    hide FindChar, Trim, SkipSpaces;
    FindCharFirst(text, QUOTE, close + 4);
    SpacesStop(text, close + 2, close + 3);
    assert IsSpace(' ');
    NotYet(text, close + 2, close + 3);
  }

  lemma NotYet(text: string, from: nat, at: nat)
    requires from + 1 == at < |text| && IsSpace(text[from]) && !IsSpace(text[at])
    ensures SkipSpaces(text, from) == at
  {
  }

  /** A value without its quote that starts in a name, and where it ends. */
  lemma ReadFromName(text: string, colon: nat, slots: seq<Slot>, first: bool, pos: nat) returns (p: Place)
    requires Laid(text, pos, slots, first) && slots != [] && slots[0].open < colon < slots[0].close && text[colon] == ':'
    ensures AfterColon(text, colon).Some? && At(text, AfterColon(text, colon).value.1, p, slots[1..])
    ensures p.Key? ==> Tricky(KeyText(text, slots[0]))
  {
    hide FindChar, AfterColon, SkipSpaces, Laid, At, InValue, Free, Tricky, KeyText;
    var s := slots[0];
    EntryFacts(text, pos, slots, first);
    SpacesStop(text, colon + 1, s.close);
    var start := SkipSpaces(text, colon + 1);
    if start == s.close {
      CrossingQuote(text, s.close);
      QuotedAfter(text, colon, start, start + 3);
      p := Value(s.end);
      AtValueStart(text, s.close + 4, s.end, slots[1..]);
    } else {
      FreeAt(text, s.open + 1, s.close, QUOTE, start);
      BareAfter(text, colon, start);
      p := AfterNameComma(text, start, s, slots[1..]);
      if p.Key? { TrickyName(text, s, colon, FindChar(text, ',', start)); }
    }
  }

  lemma CrossingQuote(text: string, close: nat)
    requires Crossing(text, close)
    ensures FindChar(text, QUOTE, close + 1) == close + 3
  {
    FirstIs(text, QUOTE, close + 1, close + 3);
  }

  lemma FreeAt(text: string, from: nat, last: nat, c: char, i: nat)
    requires last <= |text| && Free(text, from, last, c) && from <= i < last
    ensures text[i] != c
  {
  }

  lemma AtValueStart(text: string, from: nat, end: nat, rest: seq<Slot>)
    requires InValue(text, from, end) && Laid(text, end + 1, rest, false)
    ensures At(text, from, Value(end), rest)
  {
    hide Laid;
  }

  lemma TrickyName(text: string, s: Slot, colon: nat, comma: nat)
    requires s.open < colon < s.close <= |text| && s.open < comma < s.close && text[colon] == ':' && text[comma] == ','
    ensures Tricky(KeyText(text, s))
  {
    assert KeyText(text, s)[colon - s.open - 1] == ':' && KeyText(text, s)[comma - s.open - 1] == ',';
  }

  /** A comma in the name, or behind it. */
  lemma AfterNameComma(text: string, start: nat, s: Slot, rest: seq<Slot>) returns (p: Place)
    requires s.open < start < s.close && s.close + 4 <= s.end && Crossing(text, s.close)
    requires Free(text, s.open + 1, s.close, QUOTE) && InValue(text, s.close + 4, s.end) && Laid(text, s.end + 1, rest, false)
    ensures var comma := FindChar(text, ',', start);
            At(text, if comma < 0 then |text| else comma, p, rest)
            && (p.Key? ==> 0 <= comma && start <= comma < s.close)
  {
    hide FindChar, Laid, InValue, Free, At;
    var comma := FindChar(text, ',', start);
    if 0 <= comma < s.close {
      p := Key(s.close, s.end);
      AtKey(text, comma, s.open + 1, s.close, s.end, rest);
    } else {
      assert comma < 0 || comma >= s.close + 4;
      InValueBounds(text, s.close + 4, s.end);
      p := AfterComma(text, start, s.close, s.end, rest);
    }
  }

  lemma InValueBounds(text: string, from: nat, end: nat)
    requires InValue(text, from, end)
    ensures from <= end < |text| && text[end] == QUOTE
  {
  }

  /** A comma in the value or behind it. */
  lemma AfterComma(text: string, start: nat, close: nat, end: nat, rest: seq<Slot>) returns (p: Place)
    requires close + 4 <= end && InValue(text, close + 4, end) && Laid(text, end + 1, rest, false) && start <= end
    requires var comma := FindChar(text, ',', start); comma < 0 || comma >= close + 4
    ensures var comma := FindChar(text, ',', start);
            At(text, if comma < 0 then |text| else comma, p, rest) && !p.Key?
  {
    hide FindChar, Laid, At;
    var comma := FindChar(text, ',', start);
    if 0 <= comma < end {
      p := Value(end);
      AtValue(text, comma, close + 4, end, rest);
    } else {
      p := Lead(end + 1, false);
      FindCharFirst(text, ',', start);
      LaidEnds(text, end + 1, rest);
      AtNextEntry(text, end, rest);
      if rest == [] { AtEnd(text, end + 1); }
    }
  }

  lemma AtEnd(text: string, pos: nat)
    requires Laid(text, pos, [], false)
    ensures At(text, |text|, Lead(pos, false), [])
  {
  }

  lemma LaidParts(text: string, pos: nat, slots: seq<Slot>, first: bool)
    requires Laid(text, pos, slots, first) && slots != []
    ensures Holds(text, pos, slots[0], first) && Laid(text, slots[0].end + 1, slots[1..], false)
  {
  }

  lemma LaidEnds(text: string, pos: nat, slots: seq<Slot>)
    requires Laid(text, pos, slots, false)
    ensures pos <= |text| && (slots == [] ==> Free(text, pos, |text|, ',') && Free(text, pos, |text|, QUOTE))
    ensures slots == [] ==> Free(text, pos, |text|, ':')
    ensures slots != [] ==> pos < slots[0].open < |text| && text[pos] == ','
  {
  }

  /** The search for a colon from the opening quote of a name. */
  lemma Land(text: string, pos: nat, slots: seq<Slot>, first: bool) returns (p: Place)
    requires Laid(text, pos, slots, first) && slots != []
    ensures var colon := FindChar(text, ':', slots[0].open);
            && colon >= 0 && AfterColon(text, colon).Some?
            && At(text, AfterColon(text, colon).value.1, p, slots[1..])
    ensures p.Key? ==> Tricky(KeyText(text, slots[0]))
  {
    hide FindChar, AfterColon, Laid, At, InValue, Free, Tricky, KeyText;
    var s := slots[0];
    EntryFacts(text, pos, slots, first);
    FindCharFirst(text, ':', s.open);
    var colon := FindChar(text, ':', s.open);
    if colon < s.close {
      p := ReadFromName(text, colon, slots, first, pos);
    } else {
      ReadToQuote(text, s.close, s.end);
      var next := AfterColon(text, colon).value.1;
      if next == s.end + 1 {
        p := Lead(next, false);
        AtNextEntry(text, s.end, slots[1..]);
      } else {
        p := Value(s.end);
        AtValueStart(text, next, s.end, slots[1..]);
      }
    }
  }

  /** The same from the closing quote of the value before. */
  lemma LandBehind(text: string, end: nat, slots: seq<Slot>) returns (p: Place)
    requires end < |text| && text[end] == QUOTE && Laid(text, end + 1, slots, false)
    ensures slots == [] ==> FindChar(text, ':', end) == -1
    ensures slots != [] ==>
              var colon := FindChar(text, ':', end);
              && colon >= 0 && AfterColon(text, colon).Some?
              && At(text, AfterColon(text, colon).value.1, p, slots[1..])
              && (p.Key? ==> Tricky(KeyText(text, slots[0])))
  {
    hide AfterColon, Laid;
    LaidEnds(text, end + 1, slots);
    if slots == [] {
      NoneIs(text, ':', end);
      p := Value(end);
    } else {
      LaidParts(text, end + 1, slots, false);
      p := Land(text, end + 1, slots, false);
      SkipFree(text, ':', end, slots[0].open);
    }
  }

  lemma {:induction false} SkipFree(text: string, c: char, from: nat, at: nat)
    requires from <= at <= |text| && Free(text, from, at, c)
    ensures FindChar(text, c, from) == FindChar(text, c, at)
    decreases at - from
  {
    if from < at { SkipFree(text, c, from + 1, at); }
  }

  // ---------------------------------------------------------------------------
  // One read
  // ---------------------------------------------------------------------------

  predicate EndsEscaped(s: string) {
    s != "" && s[|s| - 1] == BACKSLASH
  }

  /** Before an entry, its own name is read, and its value up to the first quote. */
  lemma ReadBeforeEntry(text: string, i: nat, p: Place, slots: seq<Slot>) returns (q: Place)
    requires At(text, i, p, slots) && p.Lead? && slots != []
    ensures var r := PropertyAt(text, i);
            && r.Some? && r.value.key == KeyText(text, slots[0])
            && At(text, r.value.next, q, slots[1..]) && !q.Key?
            && if Quoted(text, slots[0]) then EndsEscaped(r.value.value) else q == Lead(slots[0].end + 1, false)
  {
    hide FindChar, PropertyAt, AfterColon, Laid, At, InValue;
    var s := slots[0];
    LeadAt(text, i, p, slots);
    EntryFacts(text, Rest(p), slots, First(p));
    FirstIs(text, QUOTE, i, s.open);
    FirstIs(text, QUOTE, s.open + 1, s.close);
    FirstIs(text, ':', s.close, s.close + 1);
    ReadIs(text, i);
    ReadToQuote(text, s.close, s.end);
    var next := PropertyAt(text, i).value.next;
    if next == s.end + 1 {
      q := Lead(next, false);
      AtNextEntry(text, s.end, slots[1..]);
    } else {
      q := Value(s.end);
      AtValueStart(text, next, s.end, slots[1..]);
    }
  }

  lemma LeadAt(text: string, i: nat, p: Place, slots: seq<Slot>)
    requires At(text, i, p, slots) && p.Lead? && slots != []
    ensures Laid(text, Rest(p), slots, First(p)) && Rest(p) <= i <= slots[0].open
  {
  }

  /** A read that leaves less to be read than it has read, or reads a name that no property has. */
  ghost predicate UsesUp(text: string, p: Place, slots: seq<Slot>, key: string, next: nat, q: Place, rest: seq<Slot>) {
    EndsEscaped(key) || (At(text, next, q, rest) && Worth(key) + Left(text, q, rest) <= Left(text, p, slots))
  }

  /** The entry in which a read lands pays for the name. */
  lemma EntryPays(text: string, p: Place, slots: seq<Slot>, key: string, next: nat, q: Place)
    requires slots != [] && At(text, next, q, slots[1..]) && !Tricky(key)
    requires q.Key? ==> p.Key? || Tricky(KeyText(text, slots[0]))
    ensures UsesUp(text, p, slots, key, next, q, slots[1..])
  {
    hide At, Tricky, KeyText;
  }

  /** In a value, the name is what stands between its last two quotes, or what separates two entries. */
  lemma ReadInValue(text: string, i: nat, end: nat, slots: seq<Slot>) returns (q: Place, rest: seq<Slot>)
    requires At(text, i, Value(end), slots)
    ensures var r := PropertyAt(text, i);
            r.Some? ==> UsesUp(text, Value(end), slots, r.value.key, r.value.next, q, rest)
  {
    hide FindChar, PropertyAt, AfterColon, Laid, Left, Tricky, At, InValue, Free;
    q, rest := Value(end), if slots == [] then [] else slots[1..];
    ValueAt(text, i, end, slots);
    ReadIs(text, i);
    if PropertyAt(text, i).Some? {
      var r := PropertyAt(text, i).value;
      var open := FindChar(text, QUOTE, i);
      var close := FindChar(text, QUOTE, open + 1);
      ValueKey(text, i, end, slots, open, close);
      if close == end {
        q := LandBehind(text, end, slots);
        EntryPays(text, Value(end), slots, r.key, r.next, q);
      } else if close > end {
        q := Land(text, end + 1, slots, false);
        EntryPays(text, Value(end), slots, r.key, r.next, q);
      }
    }
  }

  /** The quotes that are found in a value. */
  lemma ValueKey(text: string, i: nat, end: nat, slots: seq<Slot>, open: nat, close: nat)
    requires InValue(text, i, end) && Laid(text, end + 1, slots, false)
    requires FindChar(text, QUOTE, i) == open && FindChar(text, QUOTE, open + 1) == close
    ensures if close < end then EndsEscaped(text[open + 1..close]) else !Tricky(text[open + 1..close])
    ensures close > end ==> slots != [] && close == slots[0].open
  {
    hide FindChar, Laid, Tricky;
    FindCharFirst(text, QUOTE, i);
    FindCharFirst(text, QUOTE, open + 1);
    LaidEnds(text, end + 1, slots);
    if close < end {
      assert text[close - 1] == BACKSLASH;
    } else {
      if slots != [] { EntryFacts(text, end + 1, slots, false); }
      NotTricky(text, open + 1, close);
    }
  }

  lemma ValueAt(text: string, i: nat, end: nat, slots: seq<Slot>)
    requires At(text, i, Value(end), slots)
    ensures InValue(text, i, end) && Laid(text, end + 1, slots, false)
  {
  }

  lemma NotTricky(text: string, from: nat, last: nat)
    requires from <= last <= |text| && (Free(text, from, last, ',') || Free(text, from, last, ':'))
    ensures !Tricky(text[from..last])
  {
  }

  /** In a name, the colon and the blank before the value are taken for a name. */
  lemma ReadInName(text: string, i: nat, close: nat, end: nat, slots: seq<Slot>) returns (q: Place, rest: seq<Slot>)
    requires At(text, i, Key(close, end), slots)
    ensures var r := PropertyAt(text, i);
            r.Some? ==> UsesUp(text, Key(close, end), slots, r.value.key, r.value.next, q, rest)
  {
    hide FindChar, PropertyAt, AfterColon, Laid, Left, Tricky, At, InValue, Free;
    q, rest := Value(end), if slots == [] then [] else slots[1..];
    KeyAt(text, i, close, end, slots);
    ReadIs(text, i);
    if PropertyAt(text, i).Some? {
      var r := PropertyAt(text, i).value;
      var colon := FindChar(text, ':', close + 3);
      if colon < end {
        q, rest := ReadFromValue(text, colon, close, end, slots);
        KeyPays(text, close, end, slots, r.key, r.next, q, rest);
      } else {
        q := LandBehind(text, end, slots);
        FindCharFirst(text, ':', close + 3);
        FreeUpTo(text, ':', close + 3, end, colon);
        SkipFree(text, ':', close + 3, end);
        EntryPays(text, Key(close, end), slots, r.key, r.next, q);
      }
    }
  }

  lemma FreeUpTo(text: string, c: char, from: nat, last: nat, at: nat)
    requires last <= at <= |text| && forall j :: from <= j < at ==> text[j] != c
    ensures Free(text, from, last, c)
  {
  }

  /** What is read as a name in a name. */
  lemma KeyAt(text: string, i: nat, close: nat, end: nat, slots: seq<Slot>)
    requires At(text, i, Key(close, end), slots)
    ensures close + 4 <= end < |text| && text[end] == QUOTE
    ensures Crossing(text, close) && InValue(text, close + 4, end) && Laid(text, end + 1, slots, false)
    ensures FindChar(text, QUOTE, i) == close && FindChar(text, QUOTE, close + 1) == close + 3
    ensures !Tricky(text[close + 1..close + 3])
  {
    hide FindChar, Laid, Tricky;
    FirstIs(text, QUOTE, i, close);
    CrossingQuote(text, close);
    NotTricky(text, close + 1, close + 3);
  }

  /** The name read in a name is paid for by the one before it. */
  lemma KeyPays(text: string, close: nat, end: nat, slots: seq<Slot>, key: string, next: nat, q: Place, rest: seq<Slot>)
    requires At(text, next, q, rest) && !Tricky(key)
    requires if q.Key? then slots != [] && rest == slots[1..] else rest == slots
    ensures UsesUp(text, Key(close, end), slots, key, next, q, rest)
  {
    hide At, Tricky, KeyText;
  }

  /** A value that starts after a colon within a value. */
  lemma ReadFromValue(text: string, colon: nat, close: nat, end: nat, slots: seq<Slot>) returns (q: Place, rest: seq<Slot>)
    requires Crossing(text, close) && close + 4 <= colon < end && InValue(text, close + 4, end) && text[colon] == ':'
    requires Laid(text, end + 1, slots, false)
    ensures AfterColon(text, colon).Some? ==>
              && At(text, AfterColon(text, colon).value.1, q, rest)
              && if q.Key? then slots != [] && rest == slots[1..] else rest == slots
  {
    hide FindChar, AfterColon, SkipSpaces, Laid, At, InValue, Free;
    q, rest := Value(end), slots;
    InValueBounds(text, close + 4, end);
    SpacesStop(text, colon + 1, end);
    var start := SkipSpaces(text, colon + 1);
    if start == end {
      if slots == [] {
        NoQuoteBehind(text, colon, end);
      } else {
        EntryFacts(text, end + 1, slots, false);
        FirstIs(text, QUOTE, end + 1, slots[0].open);
        QuotedAfter(text, colon, end, slots[0].open);
        q, rest := Key(slots[0].close, slots[0].end), slots[1..];
        AtKey(text, slots[0].open + 1, slots[0].open + 1, slots[0].close, slots[0].end, rest);
      }
    } else {
      assert text[start - 1] != BACKSLASH;
      QuoteIsEscaped(text, close + 4, end, start);
      BareAfter(text, colon, start);
      CommaBehind(text, start, close);
      q := AfterComma(text, start, close, end, slots);
    }
  }

  lemma QuoteIsEscaped(text: string, from: nat, end: nat, i: nat)
    requires InValue(text, from, end) && from < i < end && text[i - 1] != BACKSLASH
    ensures text[i] != QUOTE
  {
  }

  lemma CommaBehind(text: string, start: nat, close: nat)
    requires close + 4 <= start
    ensures var comma := FindChar(text, ',', start); comma < 0 || comma >= close + 4
  {
  }

  lemma NoQuoteBehind(text: string, colon: nat, end: nat)
    requires Laid(text, end + 1, [], false) && SkipSpaces(text, colon + 1) == end < |text| && text[end] == QUOTE
    ensures AfterColon(text, colon).None?
  {
    hide SkipSpaces, FindChar, Trim;
    NoneIs(text, QUOTE, end + 1);
  }

  // ---------------------------------------------------------------------------
  // All reads
  // ---------------------------------------------------------------------------

  lemma {:induction false} KeysStay(text: string, i: nat, acc: map<string, string>)
    ensures acc.Keys <= PropertiesFrom(text, i, acc).Keys
    decreases |text| - i
  {
    hide PropertyAt, SkipSeparators;
    if i < |text| && PropertyAt(text, i).Some? {
      var r := PropertyAt(text, i).value;
      KeysStay(text, SkipSeparators(text, r.next), acc[r.key := r.value]);
    }
  }

  /** What a scan that ends with these properties has to make up for. */
  function Debt(text: string, p: Place, slots: seq<Slot>, acc: map<string, string>, props: map<string, string>): (d: nat)
    ensures d <= 1
  {
    if Stale(acc, props) || (p.Lead? && SomeQuote(text, slots)) then 1 else 0
  }

  /** A scan that ends with these properties has enough names left to read. */
  lemma {:induction false} EnoughLeft(text: string, i: nat, p: Place, slots: seq<Slot>, acc: map<string, string>,
          props: map<string, string>)
    requires At(text, i, p, slots) && PropertiesFrom(text, i, acc) == props && PrintableProperties(props)
    ensures Weight(props) + Debt(text, p, slots, acc, props) <= Weight(acc) + Left(text, p, slots)
    decreases |text| - i
  {
    hide PropertyAt, At, Weight, SkipSeparators, PrintableProperties, UsesUp, Left, Debt;
    var q, rest := OneRead(text, i, p, slots);
    if i >= |text| || PropertyAt(text, i).None? {
      NoDebt(text, i, p, slots, props);
    } else {
      var r := PropertyAt(text, i).value;
      var next, after := SkipSeparators(text, r.next), acc[r.key := r.value];
      KeysStay(text, next, after);
      assert r.key in props;
      KeyIsClosable(props, r.key);
      Used(text, p, slots, r.key, r.next, q, rest);
      StaysAt(text, r.next, q, rest);
      EnoughLeft(text, next, q, rest, after, props);
      WeightAssigned(acc, r.key, r.value);
      DebtGoesOn(text, p, slots, acc, props, r.key, r.value, q, rest);
    }
  }

  /** A debt stays until a name is read again. */
  lemma DebtGoesOn(text: string, p: Place, slots: seq<Slot>, acc: map<string, string>, props: map<string, string>,
          key: string, value: string, q: Place, rest: seq<Slot>)
    requires key in props && !EndsEscaped(props[key])
    requires p.Lead? ==> slots != [] && rest == slots[1..] && (q.Lead? || EndsEscaped(value))
                         && (Quoted(text, slots[0]) ==> EndsEscaped(value))
    ensures key !in acc ==> Debt(text, p, slots, acc, props) <= Debt(text, q, rest, acc[key := value], props)
  {
    hide Quoted;
    var after := acc[key := value];
    if key !in acc {
      if k :| k in acc && k in props && acc[k] != props[k] {
        assert k in after && after[k] != props[k];
      }
      if EndsEscaped(value) {
        assert key in after && after[key] != props[key];
      }
    }
  }

  lemma KeyIsClosable(props: map<string, string>, k: string)
    requires PrintableProperties(props) && k in props
    ensures !EndsEscaped(k) && !EndsEscaped(props[k])
  {
  }

  lemma Used(text: string, p: Place, slots: seq<Slot>, key: string, next: nat, q: Place, rest: seq<Slot>)
    requires UsesUp(text, p, slots, key, next, q, rest) && !EndsEscaped(key)
    ensures At(text, next, q, rest) && Worth(key) + Left(text, q, rest) <= Left(text, p, slots)
  {
  }

  /** One read from any place. */
  lemma OneRead(text: string, i: nat, p: Place, slots: seq<Slot>) returns (q: Place, rest: seq<Slot>)
    requires At(text, i, p, slots)
    ensures var r := PropertyAt(text, i);
            && (r.Some? ==> UsesUp(text, p, slots, r.value.key, r.value.next, q, rest))
            && (p.Lead? && slots != [] ==>
                  r.Some? && i < |text| && rest == slots[1..]
                  && (q.Lead? || EndsEscaped(r.value.value)) && (Quoted(text, slots[0]) ==> EndsEscaped(r.value.value)))
            && (p.Lead? && slots == [] ==> r == None)
  {
    hide PropertyAt, Laid, SlotsWorth;
    match p {
      case Lead(pos, first) =>
        q, rest := p, slots;
        if slots != [] {
          q := ReadBeforeEntry(text, i, p, slots);
          rest := slots[1..];
          LaidParts(text, pos, slots, first);
          WorthSplit(text, slots);
        } else {
          NothingToRead(text, i, pos, first);
        }
      case Value(end) => q, rest := ReadInValue(text, i, end, slots);
      case Key(close, end) => q, rest := ReadInName(text, i, close, end, slots);
    }
  }

  lemma WorthSplit(text: string, slots: seq<Slot>)
    requires slots != []
    ensures SlotsWorth(text, slots) == Worth(KeyText(text, slots[0])) + SlotsWorth(text, slots[1..])
  {
  }

  lemma NothingToRead(text: string, i: nat, pos: nat, first: bool)
    requires Laid(text, pos, [], first) && pos <= i <= |text|
    ensures PropertyAt(text, i) == None
  {
    NoneIs(text, QUOTE, i);
  }

  /** At the end every value is the one in the end, and no entry is left. */
  lemma NoDebt(text: string, i: nat, p: Place, slots: seq<Slot>, props: map<string, string>)
    requires p.Lead? ==> slots == []
    ensures Debt(text, p, slots, props, props) == 0
  {
  }

  // ---------------------------------------------------------------------------
  // Printed properties
  // ---------------------------------------------------------------------------

  /** Where a character without an escape is in a string, it is in the escaped one, and nowhere else. */
  lemma {:induction false} EscapeKeeps(s: string, c: char)
    requires c == ':' || c == ','
    ensures c in Escape(s) <==> c in s
  {
    if s != [] {
      EscapeKeeps(s[1..], c);
      assert s == [s[0]] + s[1..];
    }
  }

  lemma WorthOfEscaped(k: string)
    ensures Worth(Escape(k)) == Worth(k)
  {
    EscapeKeeps(k, ':');
    EscapeKeeps(k, ',');
  }

  ghost function KeysWorth(keys: seq<string>): nat {
    if keys == [] then 0 else Worth(keys[0]) + KeysWorth(keys[1..])
  }

  lemma {:induction false} SortedWorth(keys: set<string>)
    ensures KeysWorth(SortedKeys(keys)) == |keys| + |TrickyOnes(keys)|
  {
    hide Tricky;
    if keys != {} {
      var k := FirstKey(keys);
      SortedWorth(keys - {k});
      TrickyAdded(keys - {k}, k);
      assert keys - {k} + {k} == keys;
    }
  }

  /** The slots of printed entries. */
  lemma {:induction false} Lay(style: Style, props: map<string, string>, keys: seq<string>, first: bool,
          text: string, pos: nat) returns (slots: seq<Slot>)
    requires ReadableProperties(props) && forall k :: k in keys ==> k in props
    requires IsSuffix(text, pos, EntriesText(style, props, keys, first))
    ensures Laid(text, pos, slots, first) && SlotsWorth(text, slots) == KeysWorth(keys)
    ensures SomeQuote(text, slots) <==> exists k :: k in keys && !NoQuote(props[k])
    decreases |keys|
  {
    hide Occurs, EntriesText, EntryText, EntryLead, NewLine, Holds, ReadableProperties, Escape, NoQuote, Quoted,
        KeyText, Worth;
    EntriesTextSplit(style, props, keys, first);
    if keys == [] {
      slots := [];
      Layout(style.pretty, 3);
      TailIsFree(text, pos, NewLine(style.pretty, 3));
    } else {
      var k := keys[0];
      var lead, entry := EntryLead(style, first), EntryText(Escape(k), Escape(props[k]));
      var more := EntriesText(style, props, keys[1..], false);
      SuffixConcat(text, pos, lead, entry + more);
      SuffixConcat(text, pos + |lead|, entry, more);
      LeadIsFree(style, first, text, pos);
      var s := LayOne(props, k, text, pos, pos + |lead|, first);
      var rest := Lay(style, props, keys[1..], false, text, pos + |lead| + |entry|);
      slots := [s] + rest;
      assert keys == [k] + keys[1..];
      WorthOfEscaped(k);
    }
  }

  lemma TailIsFree(text: string, pos: nat, tail: string)
    requires IsSuffix(text, pos, tail) && Blank(tail)
    ensures Laid(text, pos, [], false) && Laid(text, pos, [], true)
  {
    hide Occurs;
    OccursBounds(text, pos, tail);
    forall j | pos <= j < |text| ensures IsSpace(text[j]) {
      OccursAt(text, pos, tail, j - pos);
    }
  }

  lemma LeadIsFree(style: Style, first: bool, text: string, pos: nat)
    requires Occurs(text, pos, EntryLead(style, first))
    ensures var open := pos + |EntryLead(style, first)|;
            && open <= |text| && Free(text, pos, open, QUOTE) && Free(text, pos, open, ':')
            && (!first ==> pos < open && text[pos] == ',')
  {
    hide Occurs, NewLine;
    var lead := EntryLead(style, first);
    OccursBounds(text, pos, lead);
    Layout(style.pretty, 4);
    forall j | pos <= j < pos + |lead| ensures text[j] == ',' || IsSpace(text[j]) {
      OccursAt(text, pos, lead, j - pos);
    }
    if !first { OccursAt(text, pos, lead, 0); }
  }

  lemma LayOne(props: map<string, string>, k: string, text: string, pos: nat, open: nat, first: bool) returns (s: Slot)
    requires ReadableProperties(props) && k in props && Occurs(text, open, EntryText(Escape(k), Escape(props[k])))
    requires pos <= open <= |text| && Free(text, pos, open, QUOTE) && Free(text, pos, open, ':')
    requires !first ==> pos < open && text[pos] == ','
    ensures Holds(text, pos, s, first) && KeyText(text, s) == Escape(k)
    ensures Quoted(text, s) <==> !NoQuote(props[k])
    ensures s.end + 1 == open + |EntryText(Escape(k), Escape(props[k]))|
  {
    hide Occurs, Escape, EntryText, InValue, ReadableValue, NoQuote;
    var key, value := Escape(k), Escape(props[k]);
    var close := open + 1 + |key|;
    s := Slot(open, close, close + 4 + |value|);
    EntryChars(text, open, key, value);
    EscapeNoQuote(k);
    SliceOf(text, open + 1, key);
    NameIsFree(text, open + 1, key);
    ValueChars(text, close + 4, props[k]);
  }

  lemma NameIsFree(text: string, from: nat, key: string)
    requires from + |key| <= |text| && text[from..from + |key|] == key && NoQuote(key)
    ensures Free(text, from, from + |key|, QUOTE)
  {
    assert forall j :: from <= j < from + |key| ==> text[j] == key[j - from];
  }

  lemma EntryChars(text: string, open: nat, key: string, value: string)
    requires Occurs(text, open, EntryText(key, value))
    ensures |EntryText(key, value)| == |key| + |value| + 6
    ensures var close := open + 1 + |key|;
            && close + 4 + |value| < |text| && text[open] == QUOTE && Occurs(text, open + 1, key)
            && Crossing(text, close) && Occurs(text, close + 4, value) && text[close + 4 + |value|] == QUOTE
  {
    hide Occurs, Show;
    var close := open + 1 + |key|;
    ShowLength(key);
    ShowLength(value);
    OccursConcat(text, open, Show(Str(key)), ": " + Show(Str(value)));
    OccursConcat(text, close + 1, ": ", Show(Str(value)));
    ShownAt(text, open, key);
    ShownAt(text, close + 3, value);
    OccursAt(text, close + 1, ": ", 0);
    OccursAt(text, close + 1, ": ", 1);
  }

  lemma ShownAt(text: string, at: nat, s: string)
    requires Occurs(text, at, Show(Str(s)))
    ensures at + |s| + 1 < |text| && text[at] == QUOTE && Occurs(text, at + 1, s) && text[at + 1 + |s|] == QUOTE
  {
    hide Occurs;
    assert Show(Str(s)) == [QUOTE] + (s + [QUOTE]);
    OccursConcat(text, at, [QUOTE], s + [QUOTE]);
    OccursConcat(text, at + 1, s, [QUOTE]);
    OccursAt(text, at, [QUOTE], 0);
    OccursAt(text, at + 1 + |s|, [QUOTE], 0);
  }

  lemma ValueChars(text: string, from: nat, v: string)
    requires ReadableValue(v) && Occurs(text, from, Escape(v))
    requires from + |Escape(v)| < |text| && text[from + |Escape(v)|] == QUOTE
    ensures InValue(text, from, from + |Escape(v)|)
    ensures Free(text, from, from + |Escape(v)|, QUOTE) <==> NoQuote(v)
  {
    hide Occurs, Escape;
    var e := Escape(v);
    forall j | 0 <= j < |e| ensures text[from + j] == e[j] {
      OccursAt(text, from, e, j);
    }
    assert forall j :: from <= j < from + |e| ==> text[j] == e[j - from];
    forall j | 0 <= j < |e| && e[j] == QUOTE ensures j > 0 && e[j - 1] == BACKSLASH {
      QuotesAreEscaped(v, j);
    }
    EscapeNoQuote(v);
    EscapeHasQuote(v);
    EscapeKeeps(v, ',');
  }

  lemma {:induction false} EscapeHasQuote(s: string)
    ensures NoQuote(Escape(s)) ==> NoQuote(s)
  {
    if s != [] {
      EscapeHasQuote(s[1..]);
      var e, rest := JsonString.EscapeChar(s[0]), Escape(s[1..]);
      assert Escape(s) == e + rest;
      assert forall i :: 0 <= i < |rest| ==> rest[i] == Escape(s)[|e| + i];
      assert s == [s[0]] + s[1..];
      if s[0] == QUOTE { assert Escape(s)[1] == QUOTE; }
    }
  }

  lemma LaidStart(text: string, slots: seq<Slot>)
    requires Laid(text, 0, slots, true)
    ensures At(text, 0, Lead(0, true), slots)
  {
  }

  lemma WeightIs(m: map<string, string>)
    ensures Weight(m) == |m.Keys| + |TrickyOnes(m.Keys)| && Weight(map[]) == 0
  {
    assert TrickyOnes({}) == {};
  }

  /** Where no string ends in a backslash, properties that come back have no quotes. */
  lemma QuotesNeverReturn(style: Style, props: map<string, string>)
    requires PrintableProperties(props) && Properties(Render(PropertiesBlock(style, props))) == props
    ensures Unquoted(props)
  {
    hide Occurs, Render, Trim, NewLine, PropertiesFrom, Entries, Weight, NoQuote, ReadableValue;
    var keys := SortedKeys(props.Keys);
    SortedKeysAreKeys(props.Keys);
    TrimNest('{', PropertiesInner(style, props));
    var text := EntriesText(style, props, keys, true);
    PropertiesFromAreReadable(text, 0, map[]);
    WholeIsSuffix(text);
    var slots := Lay(style, props, keys, true, text, 0);
    LaidStart(text, slots);
    EnoughLeft(text, 0, Lead(0, true), slots, map[], props);
    SortedWorth(props.Keys);
    WeightIs(props);
  }
}
