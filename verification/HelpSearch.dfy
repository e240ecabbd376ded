/**
 * Searching the in-memory index (help/help_engine.cpp, calculateRelevance and searchInMemory).
 *
 * The search looks documents up by their postings. The lemmas say that on an exact index this is a
 * scan of all documents, and that the test for a positive score drops none of them.
 */
module HelpSearch {
  import opened Common
  import opened HelpTokens
  import opened HelpIndex

  // ---------------------------------------------------------------------------
  // Relevance
  // ---------------------------------------------------------------------------

  /** The occurrences, overlapping ones included, that start before n. */
  function Count(text: string, s: string, n: nat): nat {
    if n == 0 then 0 else Count(text, s, n - 1) + if Occurs(text, n - 1, s) then 1 else 0
  }

  function TagScore(tags: seq<string>, token: string): real {
    if tags == [] then 0.0
    else TagScore(tags[..|tags| - 1], token) + if Contains(Lower(tags[|tags| - 1]), token) then 8.0 else 0.0
  }

  function TokenScore(doc: Document, token: string): real {
    var title := if Contains(Lower(doc.title), token) then (if token <= Lower(doc.title) then 15.0 else 10.0) else 0.0;
    var section := if Contains(Lower(doc.section), token) then 3.0 else 0.0;
    var category := if Contains(Lower(doc.category), token) then 3.0 else 0.0;
    title + Count(Lower(doc.content), token, |doc.content| + 1) as real + TagScore(doc.tags, token) + section + category
  }

  function BaseScore(doc: Document, tokens: seq<string>): real {
    if tokens == [] then 0.0 else BaseScore(doc, tokens[..|tokens| - 1]) + TokenScore(doc, tokens[|tokens| - 1])
  }

  /** The factor for documents that were changed lately, `today` being the current day. */
  function Recency(doc: Document, today: int): real {
    var days := today - doc.lastModified;
    (if days < 30 then 1.1 else 1.0) * (if days < 7 then 1.2 else 1.0)
  }

  function Relevance(doc: Document, tokens: seq<string>, today: int): real {
    BaseScore(doc, tokens) * Recency(doc, today)
  }

  /** Some field has the token as a piece. */
  predicate Mentions(doc: Document, token: string) {
    || Contains(Lower(doc.title), token) || Contains(Lower(doc.content), token) || Contains(Lower(doc.section), token)
    || Contains(Lower(doc.category), token) || exists i :: 0 <= i < |doc.tags| && Contains(Lower(doc.tags[i]), token)
  }

  lemma {:induction false} CountPositiveIff(text: string, s: string, n: nat)
    ensures Count(text, s, n) > 0 <==> exists i :: 0 <= i < n && Occurs(text, i, s)
  {
    if n > 0 { CountPositiveIff(text, s, n - 1); }
  }

  lemma {:induction false} TagScorePositiveIff(tags: seq<string>, token: string)
    ensures TagScore(tags, token) >= 0.0
    ensures TagScore(tags, token) > 0.0 <==> exists i :: 0 <= i < |tags| && Contains(Lower(tags[i]), token)
  {
    hide Contains;
    if tags != [] {
      var front := tags[..|tags| - 1];
      TagScorePositiveIff(front, token);
      assert forall i :: 0 <= i < |front| ==> front[i] == tags[i];
    }
  }

  lemma TokenScorePositiveIff(doc: Document, token: string)
    ensures TokenScore(doc, token) >= 0.0
    ensures TokenScore(doc, token) > 0.0 <==> Mentions(doc, token)
  {
    hide Occurs;
    CountPositiveIff(Lower(doc.content), token, |doc.content| + 1);
    TagScorePositiveIff(doc.tags, token);
  }

  lemma {:induction false} BaseScorePositiveIff(doc: Document, tokens: seq<string>)
    ensures BaseScore(doc, tokens) >= 0.0
    ensures BaseScore(doc, tokens) > 0.0 <==> exists i :: 0 <= i < |tokens| && Mentions(doc, tokens[i])
  {
    hide Mentions, TokenScore;
    if tokens != [] {
      var front := tokens[..|tokens| - 1];
      BaseScorePositiveIff(doc, front);
      TokenScorePositiveIff(doc, tokens[|tokens| - 1]);
      assert forall i :: 0 <= i < |front| ==> front[i] == tokens[i];
    }
  }

  /** A document scores if and only if some token is a piece of some field, however old it is. */
  lemma RelevancePositiveIff(doc: Document, tokens: seq<string>, today: int)
    ensures Relevance(doc, tokens, today) > 0.0 <==> exists i :: 0 <= i < |tokens| && Mentions(doc, tokens[i])
  {
    hide Mentions;
    BaseScorePositiveIff(doc, tokens);
    assert Recency(doc, today) >= 1.0;
    PositiveTimes(BaseScore(doc, tokens), Recency(doc, today));
  }

  lemma PositiveTimes(a: real, b: real)
    requires a >= 0.0 && b >= 1.0
    ensures a * b > 0.0 <==> a > 0.0
  {
    if a > 0.0 { assert a * b >= a * 1.0; }
  }

  /** The places where the text has the piece. */
  function Places(text: string, s: string): set<int> {
    set i | 0 <= i <= |text| && Occurs(text, i, s)
  }

  lemma {:induction false} CountIsPlaces(text: string, s: string, n: nat)
    ensures Count(text, s, n) == |set i | 0 <= i < n && Occurs(text, i, s)|
  {
    hide Occurs;
    var places := set i | 0 <= i < n && Occurs(text, i, s);
    if n > 0 {
      var before := set i | 0 <= i < n - 1 && Occurs(text, i, s);
      CountIsPlaces(text, s, n - 1);
      assert places == before + if Occurs(text, n - 1, s) then {n - 1} else {};
    }
  }

  /** The tags, by number, that have the piece. */
  function TagsWith(tags: seq<string>, token: string): set<int> {
    set i | 0 <= i < |tags| && Contains(Lower(tags[i]), token)
  }

  lemma {:induction false} TagScoreIsCount(tags: seq<string>, token: string)
    ensures TagScore(tags, token) == 8.0 * |TagsWith(tags, token)| as real
  {
    hide Contains, Lower, TagsWith;
    if tags == [] {
      TagsOfNothing(token);
    } else {
      TagScoreIsCount(tags[..|tags| - 1], token);
      OneMoreTag(tags, token);
    }
  }

  lemma TagsOfNothing(token: string)
    ensures TagsWith([], token) == {}
  {
  }

  lemma OneMoreTag(tags: seq<string>, token: string)
    requires tags != []
    ensures |TagsWith(tags, token)| == |TagsWith(tags[..|tags| - 1], token)| + if Contains(Lower(tags[|tags| - 1]), token) then 1 else 0
  {
    hide Contains, Lower;
    var last := |tags| - 1;
    assert forall i :: 0 <= i < last ==> tags[..last][i] == tags[i];
    assert TagsWith(tags, token) == TagsWith(tags[..last], token)
                                    + if Contains(Lower(tags[last]), token) then {last} else {};
  }

  /** 10 for the title, 5 more at its start, 1 for each place in the content, 8 for each tag, 3 for section and category. */
  lemma TokenScoreIs(doc: Document, token: string)
    ensures TokenScore(doc, token)
         == (if Contains(Lower(doc.title), token) then 10.0 else 0.0) + (if token <= Lower(doc.title) then 5.0 else 0.0)
            + |Places(Lower(doc.content), token)| as real + 8.0 * |TagsWith(doc.tags, token)| as real
            + (if Contains(Lower(doc.section), token) then 3.0 else 0.0)
            + (if Contains(Lower(doc.category), token) then 3.0 else 0.0)
  {
    hide Count;
    CountIsPlaces(Lower(doc.content), token, |doc.content| + 1);
    assert Places(Lower(doc.content), token) == set i | 0 <= i < |doc.content| + 1 && Occurs(Lower(doc.content), i, token);
    TagScoreIsCount(doc.tags, token);
    if token <= Lower(doc.title) { assert Occurs(Lower(doc.title), 0, token); }
  }

  /** The tokens of a query add up, and changes of the last 30 days and of the last week count for a tenth and a fifth more. */
  lemma {:induction false} RelevanceAddsUp(doc: Document, a: seq<string>, b: seq<string>, token: string, today: int)
    ensures Relevance(doc, a + b, today) == Relevance(doc, a, today) + Relevance(doc, b, today)
    ensures Relevance(doc, [token], today)
         == TokenScore(doc, token) * if today - doc.lastModified < 7 then 1.32
                                     else if today - doc.lastModified < 30 then 1.1 else 1.0
  {
    hide TokenScore;
    BaseScoreAddsUp(doc, a, b);
    assert BaseScore(doc, []) == 0.0;
    assert BaseScore(doc, [token]) == TokenScore(doc, token);
  }

  lemma {:induction false} BaseScoreAddsUp(doc: Document, a: seq<string>, b: seq<string>)
    ensures BaseScore(doc, a + b) == BaseScore(doc, a) + BaseScore(doc, b)
    decreases |b|
  {
    hide TokenScore;
    if b == [] {
      assert a + b == a;
    } else {
      assert (a + b)[..|a + b| - 1] == a + b[..|b| - 1];
      BaseScoreAddsUp(doc, a, b[..|b| - 1]);
    }
  }

  lemma {:induction false} InJoinedTags(tags: seq<string>, stem: string)
    requires stem != "" && NoBlank(stem) && Contains(Lower(Join(tags)), stem)
    ensures exists i :: 0 <= i < |tags| && Contains(Lower(tags[i]), stem)
  {
    hide Contains, Lower;
    if tags == [] {
      NothingInEmpty(stem);
    } else if |tags| > 1 {
      OneSideOfBlank(tags[0], Join(tags[1..]), stem);
      if !Contains(Lower(tags[0]), stem) {
        InJoinedTags(tags[1..], stem);
        var i :| 0 <= i < |tags[1..]| && Contains(Lower(tags[1..][i]), stem);
        assert tags[i + 1] == tags[1..][i];
      }
    }
  }

  lemma NothingInEmpty(s: string)
    requires s != ""
    ensures !Contains(Lower(""), s)
  {
  }

  /** Every stem of a document is a piece of one of its fields. */
  lemma StemIsMentioned(doc: Document, stem: string)
    requires stem in StemSet(doc)
    ensures Mentions(doc, stem)
  {
    hide Contains, Lower, NoBlank;
    StemIsInText(Text(doc), stem);
    var t1, t2, t3 := doc.title + " " + doc.content, doc.title + " " + doc.content + " " + doc.section,
                      doc.title + " " + doc.content + " " + doc.section + " " + doc.category;
    OneSideOfBlank(t3, Join(doc.tags), stem);
    if Contains(Lower(t3), stem) {
      OneSideOfBlank(t2, doc.category, stem);
      if Contains(Lower(t2), stem) {
        OneSideOfBlank(t1, doc.section, stem);
        if Contains(Lower(t1), stem) { OneSideOfBlank(doc.title, doc.content, stem); }
      }
    } else {
      InJoinedTags(doc.tags, stem);
    }
  }

  // ---------------------------------------------------------------------------
  // Candidates
  // ---------------------------------------------------------------------------

  /** The documents with all of the tokens that are in the index; None if no token is. */
  function Shared(postings: Postings, tokens: seq<string>): Option<set<string>> {
    if tokens == [] then None
    else
      var front, last := Shared(postings, tokens[..|tokens| - 1]), tokens[|tokens| - 1];
      if last !in postings then front
      else if front.None? then Some(postings[last])
      else Some(front.value * postings[last])
  }

  /** The documents with any of the tokens. */
  function Any(postings: Postings, tokens: seq<string>): set<string> {
    if tokens == [] then {}
    else
      var last := tokens[|tokens| - 1];
      Any(postings, tokens[..|tokens| - 1]) + if last in postings then postings[last] else {}
  }

  function Candidates(postings: Postings, tokens: seq<string>): set<string> {
    var shared := Shared(postings, tokens);
    if shared.Some? && shared.value != {} then shared.value else Any(postings, tokens)
  }

  lemma {:induction false} SharedMeans(postings: Postings, tokens: seq<string>)
    ensures Shared(postings, tokens).Some? <==> exists t :: t in tokens && t in postings
    ensures Shared(postings, tokens).Some? ==>
              forall id :: id in Shared(postings, tokens).value <==> forall t :: t in tokens && t in postings ==> id in postings[t]
  {
    if tokens != [] {
      var front, last := tokens[..|tokens| - 1], tokens[|tokens| - 1];
      SharedMeans(postings, front);
      assert tokens == front + [last];
    }
  }

  lemma {:induction false} AnyMeans(postings: Postings, tokens: seq<string>)
    ensures forall id :: id in Any(postings, tokens) <==> exists t :: t in tokens && t in postings && id in postings[t]
  {
    if tokens != [] {
      var front, last := tokens[..|tokens| - 1], tokens[|tokens| - 1];
      AnyMeans(postings, front);
      assert tokens == front + [last];
    }
  }

  /** Some document has the stem. */
  predicate Known(documents: Documents, t: string) {
    exists id :: id in documents && t in StemSet(documents[id])
  }

  /** The document has some query token, and all that any document has. */
  predicate HasAll(documents: Documents, tokens: seq<string>, doc: Document) {
    HasSome(tokens, doc) && forall t :: t in tokens && Known(documents, t) ==> t in StemSet(doc)
  }

  predicate HasSome(tokens: seq<string>, doc: Document) {
    exists t :: t in tokens && t in StemSet(doc)
  }

  /** The candidates of a search, by scanning all documents. */
  predicate IsCandidate(documents: Documents, tokens: seq<string>, id: string) {
    && id in documents
    && if exists e :: e in documents && HasAll(documents, tokens, documents[e]) then HasAll(documents, tokens, documents[id])
       else HasSome(tokens, documents[id])
  }

  /** On an exact index the postings are the documents with the stem. */
  lemma PostingsMean(st: State, t: string)
    requires Exact(st)
    ensures t in st.postings <==> Known(st.documents, t)
    ensures t in st.postings ==> forall id :: id in st.postings[t] <==> id in st.documents && t in StemSet(st.documents[id])
  {
    hide StemSet;
  }

  lemma SharedOnExact(st: State, tokens: seq<string>, id: string)
    requires Exact(st)
    ensures Shared(st.postings, tokens).Some? && id in Shared(st.postings, tokens).value
            <==> id in st.documents && HasAll(st.documents, tokens, st.documents[id])
  {
    hide StemSet, Exact, Shared, Known;
    SharedMeans(st.postings, tokens);
    forall t ensures t in st.postings <==> Known(st.documents, t) { PostingsMean(st, t); }
    forall t | t in st.postings ensures id in st.postings[t] <==> id in st.documents && t in StemSet(st.documents[id]) {
      PostingsMean(st, t);
    }
    forall t | id in st.documents && t in StemSet(st.documents[id]) ensures t in st.postings {
      StemIsKnown(st.documents, id, t);
    }
  }

  lemma StemIsKnown(documents: Documents, id: string, t: string)
    requires id in documents && t in StemSet(documents[id])
    ensures Known(documents, t)
  {
  }

  lemma AnyOnExact(st: State, tokens: seq<string>, id: string)
    requires Exact(st)
    ensures id in Any(st.postings, tokens) <==> id in st.documents && HasSome(tokens, st.documents[id])
  {
    hide StemSet, Exact, Any, Known;
    AnyMeans(st.postings, tokens);
    forall t | t in st.postings ensures id in st.postings[t] <==> id in st.documents && t in StemSet(st.documents[id]) {
      PostingsMean(st, t);
    }
    forall t | id in st.documents && t in StemSet(st.documents[id]) ensures t in st.postings {
      StemIsKnown(st.documents, id, t);
      PostingsMean(st, t);
    }
  }

  /** The lookup in an exact index finds what a scan of the documents finds. */
  lemma CandidatesAreScanned(st: State, tokens: seq<string>, id: string)
    requires Exact(st)
    ensures id in Candidates(st.postings, tokens) <==> IsCandidate(st.documents, tokens, id)
  {
    hide Exact, Shared, Any, HasAll, HasSome;
    forall e ensures Shared(st.postings, tokens).Some? && e in Shared(st.postings, tokens).value
                     <==> e in st.documents && HasAll(st.documents, tokens, st.documents[e])
    {
      SharedOnExact(st, tokens, e);
    }
    AnyOnExact(st, tokens, id);
  }

  // ---------------------------------------------------------------------------
  // Filters and results
  // ---------------------------------------------------------------------------

  /** Empty parts of a filter let everything pass. */
  datatype Filter = Filter(section: string, category: string, tags: seq<string>)

  /** The tag is in the list, whatever the case of its letters. */
  predicate HasTag(tags: seq<string>, tag: string) {
    exists i :: 0 <= i < |tags| && Lower(tags[i]) == Lower(tag)
  }

  predicate Passes(doc: Document, filter: Filter) {
    && (filter.section != "" ==> doc.section == filter.section)
    && (filter.category != "" ==> doc.category == filter.category)
    && (filter.tags != [] ==> exists i :: 0 <= i < |filter.tags| && HasTag(doc.tags, filter.tags[i]))
  }

  /** The scored documents, as the search finds them. */
  function Hits(st: State, tokens: seq<string>, filter: Filter, today: int): map<string, real> {
    map id | id in Candidates(st.postings, tokens) && id in st.documents && Passes(st.documents[id], filter)
             && Relevance(st.documents[id], tokens, today) > 0.0 :: Relevance(st.documents[id], tokens, today)
  }

  /** The documents that a scan selects, with their scores. */
  function Scanned(documents: Documents, tokens: seq<string>, filter: Filter, today: int): map<string, real> {
    map id | id in documents && IsCandidate(documents, tokens, id) && Passes(documents[id], filter)
      :: Relevance(documents[id], tokens, today)
  }

  /** No candidate is dropped by the test for a positive score. */
  lemma CandidateScores(documents: Documents, tokens: seq<string>, id: string, today: int)
    requires IsCandidate(documents, tokens, id)
    ensures Relevance(documents[id], tokens, today) > 0.0
  {
    hide StemSet, Mentions, Relevance, Known;
    var doc := documents[id];
    var t :| t in tokens && t in StemSet(doc);
    var i :| 0 <= i < |tokens| && tokens[i] == t;
    StemIsMentioned(doc, t);
    RelevancePositiveIff(doc, tokens, today);
  }

  /** Searching an exact index is scanning all documents. */
  lemma SearchIsScan(st: State, tokens: seq<string>, filter: Filter, today: int)
    requires Exact(st)
    ensures Hits(st, tokens, filter, today) == Scanned(st.documents, tokens, filter, today)
  {
    hide Exact, IsCandidate, Candidates, Relevance, Passes;
    forall id ensures id in Candidates(st.postings, tokens) <==> IsCandidate(st.documents, tokens, id) {
      CandidatesAreScanned(st, tokens, id);
    }
    forall id | IsCandidate(st.documents, tokens, id) ensures id in st.documents && Relevance(st.documents[id], tokens, today) > 0.0 {
      CandidateIsDocument(st.documents, tokens, id);
      CandidateScores(st.documents, tokens, id, today);
    }
  }

  /** So it is after every run that re-indexes documents by updates only. */
  lemma CarefulSearchIsScan(ops: seq<Operation>, tokens: seq<string>, filter: Filter, today: int)
    requires Careful(ops)
    ensures Hits(Run(ops), tokens, filter, today) == Scanned(Run(ops).documents, tokens, filter, today)
  {
    hide Exact, Hits, Scanned, Run;
    CarefulRunIsExact(ops);
    SearchIsScan(Run(ops), tokens, filter, today);
  }

  lemma CandidateIsDocument(documents: Documents, tokens: seq<string>, id: string)
    requires IsCandidate(documents, tokens, id)
    ensures id in documents
  {
  }

  /**
   * After any run, a document that has all the tokens is a hit if and only if it has the section, the
   * category and one of the tags that are asked for, the tag in any case.
   */
  lemma MatchingIsHitIff(ops: seq<Operation>, id: string, tokens: seq<string>, filter: Filter, today: int)
    requires id in Run(ops).documents
    requires tokens != [] && forall t :: t in tokens ==> t in StemSet(Run(ops).documents[id])
    ensures var doc := Run(ops).documents[id];
            id in Hits(Run(ops), tokens, filter, today) <==>
            && (filter.section == "" || filter.section == doc.section)
            && (filter.category == "" || filter.category == doc.category)
            && (filter.tags == [] || exists i, j :: 0 <= i < |filter.tags| && 0 <= j < |doc.tags|
                                                    && SameLetters(filter.tags[i], doc.tags[j]))
  {
    hide StemSet, Relevance, Run, Mentions, Any, Shared, HasTag;
    var st := Run(ops);
    var doc := st.documents[id];
    RunKeepsOrder(ops);
    SharedMeans(st.postings, tokens);
    assert forall t :: t in tokens ==> t in st.postings && id in st.postings[t];
    assert tokens[0] in tokens;
    var shared := Shared(st.postings, tokens);
    assert shared.Some? && id in shared.value;
    assert id in Candidates(st.postings, tokens);
    StemIsMentioned(doc, tokens[0]);
    RelevancePositiveIff(doc, tokens, today);
    TagsAskedFor(doc, filter.tags);
  }

  lemma TagsAskedFor(doc: Document, tags: seq<string>)
    ensures (exists i :: 0 <= i < |tags| && HasTag(doc.tags, tags[i])) <==>
            exists i, j :: 0 <= i < |tags| && 0 <= j < |doc.tags| && SameLetters(tags[i], doc.tags[j])
  {
    hide SameLetters, Lower;
    forall i, j | 0 <= i < |tags| && 0 <= j < |doc.tags|
      ensures SameLetters(tags[i], doc.tags[j]) <==> Lower(doc.tags[j]) == Lower(tags[i])
    {
      SameLettersIff(tags[i], doc.tags[j]);
    }
    if i :| 0 <= i < |tags| && HasTag(doc.tags, tags[i]) {
      var j :| 0 <= j < |doc.tags| && Lower(doc.tags[j]) == Lower(tags[i]);
      assert SameLetters(tags[i], doc.tags[j]);
    }
  }

  /** Searching for a word finds every document that holds it, in any case, in any field or tag. */
  lemma HeldWordIsHit(ops: seq<Operation>, id: string, w: string, filter: Filter, today: int)
    requires id in Run(ops).documents && Passes(Run(ops).documents[id], filter)
    requires IsWord(w) && HoldsWord(Run(ops).documents[id], w)
    ensures id in Hits(Run(ops), Stems(w), filter, today)
  {
    hide Stem, Run, IsWord, HoldsWord, StemSet, Hits, Tokens, SameLetters, HasTag;
    WordIsToken(w);
    HeldWordIsStem(Run(ops).documents[id], w);
    assert Stems(w) == [Stem(Lower(w))];
    MatchingIsHitIff(ops, id, Stems(w), filter, today);
    TagsAskedFor(Run(ops).documents[id], filter.tags);
  }

  function Passing(documents: Documents, filter: Filter): set<string> {
    set id | id in documents && Passes(documents[id], filter)
  }

  /** A query without tokens finds nothing, so it finds all documents that pass only if none does. */
  lemma NoTokensNoHits(st: State, filter: Filter, today: int)
    ensures Hits(st, [], filter, today) == map[]
    ensures Hits(st, [], filter, today).Keys == Passing(st.documents, filter) <==>
            forall id :: id in st.documents ==> !Passes(st.documents[id], filter)
  {
    hide Passes;
    assert Candidates(st.postings, []) == {};
    if id :| id in st.documents && Passes(st.documents[id], filter) {
      assert id in Passing(st.documents, filter);
    }
  }
}
