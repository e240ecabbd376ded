/**
 * Reading properties as other programs write them: values that are strings, or bare numbers and
 * words such as true and null, with white space around all parts.
 */
module GeoJsonMembers {
  import opened Common
  import opened GeoJsonParser
  import opened GeoJsonLexemes
  import opened GeoJsonCoordinates
  import opened GeoJsonProperties

  datatype Value = Quoted(text: string) | Bare(text: string)

  datatype Member = Member(beforeKey: string, key: string, beforeColon: string, beforeValue: string, value: Value, afterValue: string)

  /** White space in the sense of std::isspace. */
  predicate White(s: string) {
    forall i :: 0 <= i < |s| ==> s[i] in {' ', '\t', '\n', 11 as char, 12 as char, '\r'}
  }

  /** Strings without quotes; bare values without commas that begin and end visibly. */
  predicate Plausible(m: Member) {
    && White(m.beforeKey) && White(m.beforeColon) && White(m.beforeValue) && White(m.afterValue) && NoQuote(m.key)
    && match m.value
       case Quoted(text) => NoQuote(text)
       case Bare(text) => text != "" && text[0] != QUOTE && !White(text[..1]) && !White(text[|text| - 1..]) && Lacks(text, ',')
  }

  function ValueText(value: Value): string {
    match value
    case Quoted(text) => InQuotes(text)
    case Bare(text) => text
  }

  function FromValue(m: Member): string {
    ValueText(m.value) + m.afterValue
  }

  function FromKey(m: Member): string {
    InQuotes(m.key) + (m.beforeColon + (":" + (m.beforeValue + FromValue(m))))
  }

  /** The members with commas between them. */
  function MembersText(ms: seq<Member>): string {
    if ms == [] then "" else ms[0].beforeKey + (FromKey(ms[0]) + MoreText(ms[1..]))
  }

  /** What follows a member. */
  function MoreText(ms: seq<Member>): string {
    if ms == [] then "" else "," + (ms[0].beforeKey + (FromKey(ms[0]) + MoreText(ms[1..])))
  }

  /** Later values replace earlier ones of the same name. */
  function Collected(ms: seq<Member>, acc: map<string, string>): map<string, string> {
    if ms == [] then acc else Collected(ms[1..], acc[ms[0].key := ms[0].value.text])
  }

  // ---------------------------------------------------------------------------
  // White space
  // ---------------------------------------------------------------------------

  lemma WhiteIsSpace(s: string)
    ensures White(s) <==> forall i :: 0 <= i < |s| ==> IsSpace(s[i])
  {
  }

  lemma {:induction false} SkipWhite(text: string, pos: nat, s: string)
    requires Occurs(text, pos, s) && White(s)
    ensures SkipSpaces(text, pos) == SkipSpaces(text, pos + |s|)
    ensures SkipSeparators(text, pos) == SkipSeparators(text, pos + |s|)
    decreases |s|
  {
    if s != [] {
      OccursAt(text, pos, s, 0);
      assert s == [s[0]] + s[1..];
      OccursConcat(text, pos, [s[0]], s[1..]);
      SkipWhite(text, pos + 1, s[1..]);
    }
  }

  lemma WhiteLacks(s: string, c: char)
    requires White(s) && c in {QUOTE, ':', ','}
    ensures Lacks(s, c)
  {
  }

  lemma {:induction false} TrimBehind(s: string, white: string)
    requires s != "" && !IsSpace(s[|s| - 1]) && White(white)
    ensures DropTrailingSpaces(s + white) == s
    decreases |white|
  {
    if white == "" {
      assert s + white == s;
    } else {
      var front := white[..|white| - 1];
      assert (s + white)[..|s + white| - 1] == s + front;
      assert (s + white)[|s + white| - 1] == white[|white| - 1];
      TrimBehind(s, front);
    }
  }

  lemma TrimWhite(s: string, white: string)
    requires s != "" && !IsSpace(s[0]) && !IsSpace(s[|s| - 1]) && White(white)
    ensures Trim(s + white) == s
  {
    TrimBehind(s, white);
    assert SkipSpaces(s + white, 0) == 0;
    assert (s + white)[0..] == s + white;
  }

  // ---------------------------------------------------------------------------
  // One member
  // ---------------------------------------------------------------------------

  /** The quotes around the key, the colon and the start of the value. */
  lemma KeyIsRead(inner: string, i: nat, m: Member, rest: string)
    requires Plausible(m) && IsSuffix(inner, i, FromKey(m) + rest)
    ensures var keyEnd, colon := i + |m.key| + 1, i + |m.key| + 2 + |m.beforeColon|;
            var start := colon + 1 + |m.beforeValue|;
            && FindChar(inner, QUOTE, i) == i && FindChar(inner, QUOTE, i + 1) == keyEnd
            && FindChar(inner, ':', keyEnd) == colon && SkipSpaces(inner, colon + 1) == start
            && start < |inner| && inner[i + 1..keyEnd] == m.key && IsSuffix(inner, start, FromValue(m) + rest)
  {
    hide Occurs, FindChar, SkipSpaces, White, FromKey, FromValue, InQuotes, IsSuffix, Plausible;
    FromKeySplit(m, rest);
    ValueStarts(m);
    KeyAndColon(inner, i, m, m.beforeValue + (FromValue(m) + rest));
    var at := i + |m.key| + 3 + |m.beforeColon|;
    ToValue(inner, at, m, FromValue(m) + rest);
  }

  lemma KeyAndColon(inner: string, i: nat, m: Member, behind: string)
    requires Plausible(m) && IsSuffix(inner, i, InQuotes(m.key) + (m.beforeColon + (":" + behind)))
    ensures var keyEnd, colon := i + |m.key| + 1, i + |m.key| + 2 + |m.beforeColon|;
            && FindChar(inner, QUOTE, i) == i && FindChar(inner, QUOTE, i + 1) == keyEnd < |inner|
            && FindChar(inner, ':', keyEnd) == colon && inner[i + 1..keyEnd] == m.key && IsSuffix(inner, colon + 1, behind)
  {
    hide Occurs, FindChar, White, InQuotes, IsSuffix;
    var after := i + |m.key| + 2;
    QuotesLength(m.key);
    SuffixConcat(inner, i, InQuotes(m.key), m.beforeColon + (":" + behind));
    SuffixConcat(inner, after, m.beforeColon, ":" + behind);
    SuffixConcat(inner, after + |m.beforeColon|, ":", behind);
    KeyQuotes(inner, i, m.key);
    ColonIsFound(inner, after, m.beforeColon);
  }

  lemma ToValue(inner: string, at: nat, m: Member, text: string)
    requires Plausible(m) && IsSuffix(inner, at, m.beforeValue + text) && text != "" && !IsSpace(text[0])
    ensures var start := at + |m.beforeValue|;
            SkipSpaces(inner, at) == start < |inner| && IsSuffix(inner, start, text)
  {
    hide Occurs, SkipSpaces, White, IsSuffix, IsSpace;
    SuffixConcat(inner, at, m.beforeValue, text);
    SkipWhite(inner, at, m.beforeValue);
    var start := at + |m.beforeValue|;
    SuffixMeans(inner, start, text);
    OccursAt(inner, start, text, 0);
    StopsHere(inner, start);
  }

  lemma SuffixMeans(text: string, pos: nat, s: string)
    requires IsSuffix(text, pos, s)
    ensures Occurs(text, pos, s) && pos + |s| == |text|
  {
  }

  lemma QuotesLength(s: string)
    ensures |InQuotes(s)| == |s| + 2
  {
  }

  lemma FromKeySplit(m: Member, rest: string)
    ensures FromKey(m) + rest == InQuotes(m.key) + (m.beforeColon + (":" + (m.beforeValue + (FromValue(m) + rest))))
    ensures FromValue(m) + rest == ValueText(m.value) + (m.afterValue + rest)
    ensures |FromKey(m)| == |m.key| + 3 + |m.beforeColon| + |m.beforeValue| + |FromValue(m)|
  {
    hide FromValue;
    var behind := m.beforeColon + (":" + (m.beforeValue + FromValue(m)));
    assert FromKey(m) + rest == InQuotes(m.key) + (behind + rest);
    assert behind + rest == m.beforeColon + (":" + (m.beforeValue + (FromValue(m) + rest)));
    FromValueSplit(m, rest);
  }

  lemma FromValueSplit(m: Member, rest: string)
    ensures FromValue(m) + rest == ValueText(m.value) + (m.afterValue + rest)
  {
  }

  lemma KeyQuotes(inner: string, i: nat, key: string)
    requires Occurs(inner, i, InQuotes(key)) && NoQuote(key)
    ensures FindChar(inner, QUOTE, i) == i && FindChar(inner, QUOTE, i + 1) == i + |key| + 1
    ensures i + |key| + 1 < |inner| && inner[i + |key| + 1] == QUOTE && inner[i + 1..i + |key| + 1] == key
  {
    hide Occurs, FindChar;
    assert InQuotes(key) == Show(Str(key));
    var at := QuoteStarts(inner, i, key);
    FindCharAt(inner, QUOTE, i, i);
    SliceOf(inner, i + 1, key);
  }

  lemma ColonIsFound(inner: string, after: nat, white: string)
    requires after > 0 && Occurs(inner, after, white) && White(white) && Occurs(inner, after + |white|, ":")
    requires after <= |inner| && inner[after - 1] == QUOTE
    ensures FindChar(inner, ':', after - 1) == after + |white|
  {
    hide Occurs, FindChar, White;
    WhiteLacks(white, ':');
    OccursAt(inner, after + |white|, ":", 0);
    SkipChars(inner, ':', after, white);
    FindCharAt(inner, ':', after + |white|, after + |white|);
    OneMore(inner, after);
  }

  lemma OneMore(inner: string, after: nat)
    requires 0 < after <= |inner| && inner[after - 1] == QUOTE
    ensures FindChar(inner, ':', after - 1) == FindChar(inner, ':', after)
  {
  }

  lemma ValueStarts(m: Member)
    requires Plausible(m)
    ensures FromValue(m) != "" && !IsSpace(FromValue(m)[0]) && (m.value.Bare? ==> FromValue(m)[0] != QUOTE)
    ensures m.value.Quoted? ==> FromValue(m)[0] == QUOTE
  {
    if m.value.Bare? { WhiteIsSpace(m.value.text[..1]); }
  }

  lemma StopsHere(inner: string, at: nat)
    requires at < |inner| && !IsSpace(inner[at])
    ensures SkipSpaces(inner, at) == at
  {
  }

  /** Where the scan goes on: behind a closing quote, or at the comma behind a bare value. */
  function NextAfter(i: nat, m: Member): nat {
    i + |FromKey(m)| - if m.value.Quoted? then |m.afterValue| else 0
  }

  /** From a position before the key, with no quote between. */
  lemma MemberIsRead(inner: string, from: nat, i: nat, m: Member, rest: string)
    requires Plausible(m) && (rest != "" ==> rest[0] == ',')
    requires IsSuffix(inner, i, FromKey(m) + rest) && FindChar(inner, QUOTE, from) == i
    ensures from <= i < |inner| && PropertyAt(inner, from) == Some(Property(m.key, m.value.text, NextAfter(i, m)))
  {
    hide Occurs, FindChar, PropertyAt, SkipSpaces, White, FromKey, FromValue, IsSuffix;
    KeyIsRead(inner, i, m, rest);
    FromKeySplit(m, rest);
    if m.value.Quoted? {
      QuotedIsRead(inner, from, i, m, rest);
    } else {
      BareIsRead(inner, from, i, m, rest);
    }
  }

  lemma QuotedIsRead(inner: string, from: nat, i: nat, m: Member, rest: string)
    requires Plausible(m) && m.value.Quoted? && IsSuffix(inner, i, FromKey(m) + rest) && FindChar(inner, QUOTE, from) == i
    ensures PropertyAt(inner, from) == Some(Property(m.key, m.value.text, NextAfter(i, m)))
  {
    hide Occurs, FindChar, PropertyAt, SkipSpaces, White, FromKey, FromValue, IsSuffix;
    KeyIsRead(inner, i, m, rest);
    FromKeySplit(m, rest);
    var keyEnd, colon := i + |m.key| + 1, i + |m.key| + 2 + |m.beforeColon|;
    var start := colon + 1 + |m.beforeValue|;
    SuffixConcat(inner, start, InQuotes(m.value.text), m.afterValue + rest);
    KeyQuotes(inner, start, m.value.text);
    QuotedLength(m);
    QuotedProperty(inner, from, i, keyEnd, colon, start, start + |m.value.text| + 1);
  }

  lemma QuotedLength(m: Member)
    requires m.value.Quoted?
    ensures |FromValue(m)| == |m.value.text| + 2 + |m.afterValue| && InQuotes(m.value.text)[0] == QUOTE
  {
  }

  lemma BareIsRead(inner: string, from: nat, i: nat, m: Member, rest: string)
    requires Plausible(m) && m.value.Bare? && (rest != "" ==> rest[0] == ',')
    requires IsSuffix(inner, i, FromKey(m) + rest) && FindChar(inner, QUOTE, from) == i
    ensures PropertyAt(inner, from) == Some(Property(m.key, m.value.text, NextAfter(i, m)))
  {
    hide Occurs, FindChar, PropertyAt, SkipSpaces, Trim, White, FromKey, IsSuffix;
    KeyIsRead(inner, i, m, rest);
    FromKeySplit(m, rest);
    var text := m.value.text;
    var keyEnd, colon := i + |m.key| + 1, i + |m.key| + 2 + |m.beforeColon|;
    var start := colon + 1 + |m.beforeValue|;
    SuffixConcat(inner, start, FromValue(m), rest);
    ValueStarts(m);
    OccursAt(inner, start, FromValue(m), 0);
    BareEnds(inner, start, m, rest);
    SliceOf(inner, start, FromValue(m));
    WhiteIsSpace(text[..1]);
    WhiteIsSpace(text[|text| - 1..]);
    TrimWhite(text, m.afterValue);
    BareProperty(inner, from, i, keyEnd, colon, start, start + |FromValue(m)|);
  }

  lemma BareEnds(inner: string, start: nat, m: Member, rest: string)
    requires Plausible(m) && m.value.Bare? && Occurs(inner, start, FromValue(m))
    requires IsSuffix(inner, start + |FromValue(m)|, rest) && (rest != "" ==> rest[0] == ',')
    ensures var comma := FindChar(inner, ',', start);
            (if comma < 0 then |inner| else comma) == start + |FromValue(m)|
  {
    hide Occurs, White;
    WhiteLacks(m.afterValue, ',');
    SkipChars(inner, ',', start, FromValue(m));
    if rest != "" { OccursAt(inner, start + |FromValue(m)|, rest, 0); }
  }

  /** The scan for a name and a bare value, from where its searches stop. */
  lemma BareProperty(inner: string, from: nat, i: nat, keyEnd: nat, colon: nat, start: nat, end: nat)
    requires FindChar(inner, QUOTE, from) == i && FindChar(inner, QUOTE, i + 1) == keyEnd
    requires FindChar(inner, ':', keyEnd) == colon && SkipSpaces(inner, colon + 1) == start
    requires start < |inner| && inner[start] != QUOTE
    requires var comma := FindChar(inner, ',', start); (if comma < 0 then |inner| else comma) == end
    ensures i < keyEnd <= |inner| && start <= end <= |inner|
    ensures PropertyAt(inner, from) == Some(Property(inner[i + 1..keyEnd], Trim(inner[start..end]), end))
  {
    hide FindChar, SkipSpaces, Trim;
  }

  // ---------------------------------------------------------------------------
  // All members
  // ---------------------------------------------------------------------------

  lemma MoreStartsWithComma(ms: seq<Member>)
    ensures MoreText(ms) != "" ==> MoreText(ms)[0] == ','
  {
  }

  /** From behind a value to the next key, or to the end. */
  lemma NextIsReached(inner: string, at: nat, white: string, ms: seq<Member>)
    requires (forall m :: m in ms ==> Plausible(m)) && White(white) && IsSuffix(inner, at, white + MoreText(ms))
    ensures ms == [] ==> SkipSeparators(inner, at) == |inner|
    ensures ms != [] ==>
              var next := at + |white| + 1 + |ms[0].beforeKey|;
              SkipSeparators(inner, at) == next && IsSuffix(inner, next, FromKey(ms[0]) + MoreText(ms[1..]))
  {
    hide Occurs, White, FromKey, SkipSeparators, Plausible, IsSuffix;
    SuffixConcat(inner, at, white, MoreText(ms));
    SkipWhite(inner, at, white);
    SuffixMeans(inner, at + |white|, MoreText(ms));
    if ms == [] {
      NothingToSkip(inner);
    } else {
      assert ms[0] in ms;
      LeadIsWhite(ms[0]);
      CommaIsPassed(inner, at + |white|, ms[0], MoreText(ms[1..]));
    }
  }

  lemma NothingToSkip(inner: string)
    ensures SkipSeparators(inner, |inner|) == |inner|
  {
  }

  lemma CommaIsPassed(inner: string, comma: nat, m: Member, rest: string)
    requires White(m.beforeKey) && IsSuffix(inner, comma, "," + (m.beforeKey + (FromKey(m) + rest)))
    ensures var next := comma + 1 + |m.beforeKey|;
            SkipSeparators(inner, comma) == next && IsSuffix(inner, next, FromKey(m) + rest)
  {
    hide Occurs, White, FromKey, SkipSeparators, IsSuffix;
    var next := comma + 1 + |m.beforeKey|;
    SuffixConcat(inner, comma, ",", m.beforeKey + (FromKey(m) + rest));
    SuffixConcat(inner, comma + 1, m.beforeKey, FromKey(m) + rest);
    OccursAt(inner, comma, ",", 0);
    SkipWhite(inner, comma + 1, m.beforeKey);
    QuoteFirst(m);
    SuffixMeans(inner, next, FromKey(m) + rest);
    OccursAt(inner, next, FromKey(m) + rest, 0);
    SeparatorsPass(inner, comma, next);
  }

  lemma SeparatorsPass(inner: string, comma: nat, next: nat)
    requires comma < next < |inner| && inner[comma] == ',' && inner[next] == QUOTE
    requires SkipSeparators(inner, comma + 1) == SkipSeparators(inner, next)
    ensures SkipSeparators(inner, comma) == next
  {
  }

  lemma QuoteFirst(m: Member)
    ensures FromKey(m) != "" && FromKey(m)[0] == QUOTE
  {
  }

  /** From a position before the first key, with no quote between. */
  lemma {:induction false} ReadMembers(inner: string, from: nat, i: nat, ms: seq<Member>, acc: map<string, string>)
    requires ms != [] && (forall m :: m in ms ==> Plausible(m)) && IsSuffix(inner, i, FromKey(ms[0]) + MoreText(ms[1..]))
    requires FindChar(inner, QUOTE, from) == i
    ensures PropertiesFrom(inner, from, acc) == Collected(ms, acc)
    decreases |ms|
  {
    hide Occurs, PropertyAt, SkipSeparators, White, FromKey, Plausible, IsSuffix, FindChar;
    var m, more := ms[0], ms[1..];
    assert m in ms && forall n :: n in more ==> n in ms;
    MoreStartsWithComma(more);
    MemberIsRead(inner, from, i, m, MoreText(more));
    var next := NextAfter(i, m);
    var white := BehindValue(inner, i, m, MoreText(more));
    NextIsReached(inner, next, white, more);
    if more == [] {
      NothingLeft(inner, |inner|, acc[m.key := m.value.text]);
    } else {
      var at := SkipSeparators(inner, next);
      StartsWithQuote(inner, at, more[0], MoreText(more[1..]));
      ReadMembers(inner, at, at, more, acc[m.key := m.value.text]);
    }
  }

  lemma StartsWithQuote(inner: string, at: nat, m: Member, rest: string)
    requires IsSuffix(inner, at, FromKey(m) + rest)
    ensures FindChar(inner, QUOTE, at) == at
  {
    hide Occurs, FromKey;
    QuoteFirst(m);
    OccursAt(inner, at, FromKey(m) + rest, 0);
  }

  lemma BehindValue(inner: string, i: nat, m: Member, rest: string) returns (white: string)
    requires Plausible(m) && IsSuffix(inner, i, FromKey(m) + rest)
    ensures White(white) && IsSuffix(inner, NextAfter(i, m), white + rest)
  {
    hide Occurs, White;
    white := if m.value.Quoted? then m.afterValue else "";
    if m.value.Quoted? {
      var upTo := InQuotes(m.key) + (m.beforeColon + (":" + (m.beforeValue + ValueText(m.value))));
      assert FromKey(m) + rest == upTo + (m.afterValue + rest);
      SuffixConcat(inner, i, upTo, m.afterValue + rest);
    } else {
      assert White("") by { NothingIsWhite(); }
      SuffixConcat(inner, i, FromKey(m), rest);
      assert "" + rest == rest;
    }
  }

  lemma NothingIsWhite()
    ensures White("")
  {
  }

  lemma NothingLeft(inner: string, i: nat, acc: map<string, string>)
    requires i >= |inner|
    ensures PropertiesFrom(inner, i, acc) == acc
  {
  }

  /** No quote is found in the white space before the first key. */
  lemma FirstQuote(inner: string, white: string, behind: string)
    requires inner == white + behind && White(white) && behind != "" && behind[0] == QUOTE
    ensures FindChar(inner, QUOTE, 0) == |white|
  {
    hide FindChar, White;
    WhiteLacks(white, QUOTE);
    WholePrefix(inner, white, behind);
    SkipChars(inner, QUOTE, 0, white);
    FindCharAt(inner, QUOTE, |white|, |white|);
  }

  lemma WholePrefix(inner: string, white: string, behind: string)
    requires inner == white + behind
    ensures Occurs(inner, 0, white)
  {
  }

  /** An object of strings and bare values is read with all its members, each as it stands. */
  lemma MembersAreRead(ms: seq<Member>)
    requires forall m :: m in ms ==> Plausible(m)
    ensures Properties("{" + MembersText(ms) + "}") == Collected(ms, map[])
  {
    hide Trim, PropertiesFrom, Occurs, FromKey, White, Plausible, Collected;
    var s := "{" + MembersText(ms) + "}";
    TrimNothing(s);
    assert Inner(s) == MembersText(ms);
    if ms == [] {
      NothingLeft("", 0, map[]);
      assert Collected(ms, map[]) == map[] by { NoneCollected(); }
    } else {
      var m, behind := ms[0], FromKey(ms[0]) + MoreText(ms[1..]);
      assert m in ms;
      assert White(m.beforeKey) by { LeadIsWhite(m); }
      QuoteFirst(m);
      FirstQuote(MembersText(ms), m.beforeKey, behind);
      WholeIsSuffix(MembersText(ms));
      SuffixConcat(MembersText(ms), 0, m.beforeKey, behind);
      ReadMembers(MembersText(ms), 0, |m.beforeKey|, ms, map[]);
    }
  }

  lemma NoneCollected()
    ensures Collected([], map[]) == map[]
  {
  }

  lemma LeadIsWhite(m: Member)
    requires Plausible(m)
    ensures White(m.beforeKey)
  {
  }

  /** So a value is found under its name, if no later one replaces it. */
  lemma {:induction false} LastValueCounts(ms: seq<Member>, acc: map<string, string>, i: nat)
    requires i < |ms| && forall j :: i < j < |ms| ==> ms[j].key != ms[i].key
    ensures ms[i].key in Collected(ms, acc) && Collected(ms, acc)[ms[i].key] == ms[i].value.text
  {
    var more := acc[ms[0].key := ms[0].value.text];
    if i == 0 {
      OthersKeep(ms[1..], more, ms[0].key);
    } else {
      LastValueCounts(ms[1..], more, i - 1);
    }
  }

  lemma {:induction false} OthersKeep(ms: seq<Member>, acc: map<string, string>, key: string)
    requires key in acc && forall j :: 0 <= j < |ms| ==> ms[j].key != key
    ensures key in Collected(ms, acc) && Collected(ms, acc)[key] == acc[key]
  {
    if ms != [] { OthersKeep(ms[1..], acc[ms[0].key := ms[0].value.text], key); }
  }
}
