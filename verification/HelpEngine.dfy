/**
 * The in-memory part of the help engine (help/help_engine.cpp, class HelpEngine::Impl): its maps and
 * the methods that change and search them, against HelpIndex and HelpSearch.
 */
module HelpEngine {
  import opened Common
  import opened HelpTokens
  import opened HelpIndex
  import opened HelpSearch
  import opened Ranking

  class Engine {
    var documents: map<string, Document>
    var invertedIndex: map<string, set<string>>
    var totalIndexings: nat
    var initialized: bool

    constructor ()
      ensures Contents() == Run([]) && totalIndexings == 0 && !initialized
    {
      initialized := false;
      documents := map[];
      invertedIndex := map[];
      totalIndexings := 0;
    }

    ghost function Contents(): State
      reads this
    {
      State(documents, invertedIndex)
    }

    method Initialize()
      modifies this`initialized
      ensures initialized
    {
      initialized := true;
    }

    method Shutdown()
      modifies this`documents, this`invertedIndex, this`initialized
      ensures Contents() == Applied(old(Contents()), Clear) && !initialized
    {
      documents := map[];
      invertedIndex := map[];
      initialized := false;
    }

    /** `stored` is the answer of the other backends. */
    method IndexDocument(doc: Document, stored: bool) returns (ok: bool)
      modifies this`documents, this`invertedIndex, this`totalIndexings
      ensures Contents() == if initialized then Applied(old(Contents()), Index(doc)) else old(Contents())
      ensures totalIndexings == old(totalIndexings) + if initialized then 1 else 0
      ensures ok == (initialized && stored)
    {
      if !initialized { return false; }
      IndexInMemory(doc);
      ok := stored;
    }

    method IndexInMemory(doc: Document)
      modifies this`documents, this`invertedIndex, this`totalIndexings
      ensures Contents() == Indexed(old(Contents()), doc) && totalIndexings == old(totalIndexings) + 1
    {
      hide Text, Stems, Posted;
      documents := documents[doc.id := doc];
      var tokens := TokenizeWithStemming(Text(doc));
      for i := 0 to |tokens|
        invariant documents == old(documents)[doc.id := doc] && totalIndexings == old(totalIndexings)
        invariant invertedIndex == PostedAll(old(invertedIndex), tokens[..i], doc.id)
      {
        assert tokens[..i + 1][..i] == tokens[..i];
        Insert(tokens[i], doc.id);
      }
      assert tokens[..|tokens|] == tokens;
      totalIndexings := totalIndexings + 1;
    }

    /** `invertedIndex[token].insert(id)`: a missing entry starts empty. */
    method Insert(token: string, id: string)
      modifies this`invertedIndex
      ensures invertedIndex == Posted(old(invertedIndex), token, id)
    {
      var ids := if token in invertedIndex then invertedIndex[token] else {};
      invertedIndex := invertedIndex[token := ids + {id}];
    }

    method RemoveDocument(documentId: string)
      modifies this`documents, this`invertedIndex
      ensures Contents() == Removed(old(Contents()), documentId)
    {
      documents := documents - {documentId};
      var rest := invertedIndex.Keys;
      while rest != {}
        invariant documents == old(documents) - {documentId}
        invariant rest <= old(invertedIndex).Keys
        invariant forall t :: t in rest ==> t in invertedIndex && invertedIndex[t] == old(invertedIndex)[t]
        invariant forall t :: t !in rest ==> (t in invertedIndex <==> t in Purged(old(invertedIndex), documentId))
        invariant forall t :: t !in rest && t in invertedIndex ==> invertedIndex[t] == Purged(old(invertedIndex), documentId)[t]
        decreases rest
      {
        var token := AnyKey(rest);
        var ids := invertedIndex[token] - {documentId};
        if ids == {} {
          invertedIndex := invertedIndex - {token};
        } else {
          invertedIndex := invertedIndex[token := ids];
        }
        rest := rest - {token};
      }
    }

    /** Before the engine is initialized, an update only removes. */
    method UpdateDocument(doc: Document, stored: bool) returns (ok: bool)
      modifies this`documents, this`invertedIndex, this`totalIndexings
      ensures Contents() == Applied(old(Contents()), if initialized then Update(doc) else Remove(doc.id))
      ensures totalIndexings == old(totalIndexings) + if initialized then 1 else 0
      ensures ok == (initialized && stored)
    {
      RemoveDocument(doc.id);
      ok := IndexDocument(doc, stored);
    }

    method ClearIndex()
      modifies this`documents, this`invertedIndex, this`totalIndexings
      ensures Contents() == Applied(old(Contents()), Clear) && totalIndexings == 0
    {
      documents := map[];
      invertedIndex := map[];
      totalIndexings := 0;
    }

    method BuildInvertedIndex()
      requires Keyed(documents)
      modifies this`invertedIndex
      ensures Exact(Contents())
    {
      hide StemSet, Exact;
      invertedIndex := map[];
      var rest := documents.Keys;
      EmptyIsInOrder();
      assert documents - documents.Keys == map[];
      while rest != {}
        invariant rest <= documents.Keys && documents == old(documents)
        invariant Exact(State(documents - rest, invertedIndex))
        decreases rest
      {
        var id := AnyKey(rest);
        var doc := documents[id];
        ghost var before := State(documents - rest, invertedIndex);
        var tokens := TokenizeWithStemming(Text(doc));
        for i := 0 to |tokens|
          invariant invertedIndex == PostedAll(before.postings, tokens[..i], doc.id)
        {
          assert tokens[..i + 1][..i] == tokens[..i];
          Insert(tokens[i], doc.id);
        }
        assert tokens[..|tokens|] == tokens;
        IndexedIsExactIff(before, doc);
        assert documents - (rest - {id}) == before.documents[id := doc];
        rest := rest - {id};
      }
      assert documents - {} == documents;
    }

    // -------------------------------------------------------------------------
    // Search
    // -------------------------------------------------------------------------

    method FindCandidates(queryTokens: seq<string>) returns (candidateIds: set<string>)
      ensures candidateIds == Candidates(invertedIndex, queryTokens)
    {
      candidateIds := {};
      var firstToken := true;
      for i := 0 to |queryTokens|
        invariant firstToken <==> Shared(invertedIndex, queryTokens[..i]).None?
        invariant candidateIds == if firstToken then {} else Shared(invertedIndex, queryTokens[..i]).value
      {
        var token := queryTokens[i];
        assert queryTokens[..i + 1][..i] == queryTokens[..i];
        if token in invertedIndex {
          if firstToken {
            candidateIds := invertedIndex[token];
            firstToken := false;
          } else {
            candidateIds := candidateIds * invertedIndex[token];
          }
        }
      }
      assert queryTokens[..|queryTokens|] == queryTokens;
      if candidateIds == {} {
        for i := 0 to |queryTokens|
          invariant candidateIds == Any(invertedIndex, queryTokens[..i])
        {
          var token := queryTokens[i];
          assert queryTokens[..i + 1][..i] == queryTokens[..i];
          if token in invertedIndex {
            candidateIds := candidateIds + invertedIndex[token];
          }
        }
      }
    }

    method CalculateRelevance(doc: Document, queryTokens: seq<string>, today: int) returns (score: real)
      ensures score == Relevance(doc, queryTokens, today)
    {
      hide Contains, Count;
      var titleLower, contentLower := Lower(doc.title), Lower(doc.content);
      score := 0.0;
      for i := 0 to |queryTokens|
        invariant score == BaseScore(doc, queryTokens[..i])
      {
        var token := queryTokens[i];
        assert queryTokens[..i + 1][..i] == queryTokens[..i];
        ghost var before := score;
        if Contains(titleLower, token) {
          score := score + 10.0;
          if token <= titleLower { score := score + 5.0; }
        }
        var contentMatches := Count(contentLower, token, |contentLower| + 1);
        score := score + contentMatches as real;
        ghost var atTags := score;
        for j := 0 to |doc.tags|
          invariant score == atTags + TagScore(doc.tags[..j], token)
        {
          assert doc.tags[..j + 1][..j] == doc.tags[..j];
          if Contains(Lower(doc.tags[j]), token) { score := score + 8.0; }
        }
        assert doc.tags[..|doc.tags|] == doc.tags;
        if Contains(Lower(doc.section), token) { score := score + 3.0; }
        if Contains(Lower(doc.category), token) { score := score + 3.0; }
        assert score == before + TokenScore(doc, token);
      }
      assert queryTokens[..|queryTokens|] == queryTokens;
      var daysSinceModified := today - doc.lastModified;
      if daysSinceModified < 30 { score := score * 1.1; }
      if daysSinceModified < 7 { score := score * 1.2; }
    }

    method PassesFilters(doc: Document, filter: Filter) returns (passes: bool)
      ensures passes == Passes(doc, filter)
    {
      if filter.section != "" && doc.section != filter.section { return false; }
      if filter.category != "" && doc.category != filter.category { return false; }
      if filter.tags != [] {
        var hasTag := false;
        for i := 0 to |filter.tags|
          invariant !hasTag && forall j :: 0 <= j < i ==> !HasTag(doc.tags, filter.tags[j])
        {
          if HasTag(doc.tags, filter.tags[i]) {
            hasTag := true;
            break;
          }
        }
        if !hasTag { return false; }
      }
      passes := true;
    }

    /** The candidates that pass the filters with a positive score, each once. */
    method ScoreCandidates(queryTokens: seq<string>, filter: Filter, today: int) returns (scored: seq<Hit<string>>)
      ensures Lists(scored, Hits(Contents(), queryTokens, filter, today))
    {
      hide Candidates, Passes, Relevance;
      ghost var hits := Hits(Contents(), queryTokens, filter, today);
      var rest := FindCandidates(queryTokens);
      scored := [];
      while rest != {}
        invariant rest <= Candidates(invertedIndex, queryTokens) && Distinct(scored)
        invariant forall i :: 0 <= i < |scored| ==>
                    scored[i].id !in rest && scored[i].id in hits && hits[scored[i].id] == scored[i].score
        invariant forall id :: id in hits && id !in rest ==> Listed(scored, id)
        decreases rest
      {
        var docId := AnyKey(rest);
        ghost var before := scored;
        rest := rest - {docId};
        if docId in documents {
          var doc := documents[docId];
          var passes := PassesFilters(doc, filter);
          if passes {
            var score := CalculateRelevance(doc, queryTokens, today);
            if score > 0.0 {
              scored := scored + [Hit(docId, score)];
              ListedAppend(before, Hit(docId, score));
            }
          }
        }
      }
    }

    /** The search, with the current day as a parameter. */
    method SearchInMemory(query: string, filter: Filter, maxResults: int, today: int) returns (results: seq<Hit<string>>)
      ensures IsTop(results, Hits(Contents(), Stems(query), filter, today), maxResults)
    {
      hide Hits, Stems, IsTop, Lists, Falling;
      results := [];
      if documents == map[] {
        NoDocumentsNoHits(Contents(), Stems(query), filter, maxResults, today);
        return;
      }
      var queryTokens := TokenizeWithStemming(query);
      if queryTokens == [] {
        queryTokens := TokenizeWithStemming("*");
        NoStemsInStar();
      }
      var scored := ScoreCandidates(queryTokens, filter, today);
      ghost var hits := Hits(Contents(), queryTokens, filter, today);
      var sorted := SortByRelevance(scored, hits);
      var count := if maxResults < |sorted| then maxResults else |sorted|;
      var i := 0;
      while i < count
        invariant 0 <= i && (i == 0 || i <= count) && results == sorted[..i]
      {
        results := results + [sorted[i]];
        i := i + 1;
      }
      FirstAreTop(sorted, hits, maxResults);
    }
  }

  lemma NoDocumentsNoHits(st: State, tokens: seq<string>, filter: Filter, k: int, today: int)
    requires st.documents == map[]
    ensures IsTop([], Hits(st, tokens, filter, today), k)
  {
  }

  /** The pattern has no match in a star: the search for all documents finds none. */
  lemma NoStemsInStar()
    ensures Stems("*") == []
  {
    var text := Lower("*");
    assert !IsWordChar(text[0]);
    assert TokensFrom(text, 1) == [];
    assert MatchEnd(text, 0) == -1;
  }
}
