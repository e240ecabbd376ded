/**
 * The fuzzy search of the glossary over its terms and their abbreviations
 * (help/glossary_manager.cpp, fuzzySearch).
 */
module GlossarySearch {
  import opened Common
  import opened EditDistance
  import opened Ranking

  datatype Entry = Entry(term: string, definition: string, abbreviation: string)

  type Terms = map<string, Entry>

  /** Entries are stored under their terms in lower case. */
  predicate Keyed(terms: Terms) {
    forall key :: key in terms ==> key == Lower(terms[key].term)
  }

  /** Whether the term or the abbreviation of an entry is near the query. */
  datatype MatchType = Fuzzy | FuzzyAbbreviation

  type Match = (string, MatchType)

  function Matched(entry: Entry, how: MatchType): string {
    if how.Fuzzy? then entry.term else entry.abbreviation
  }

  /** The distance that decides, in lower case. */
  function Distance(query: string, entry: Entry, how: MatchType): nat {
    Lev(Lower(query), Lower(Matched(entry, how)))
  }

  function Relevance(dist: nat, how: MatchType): real {
    (if how.Fuzzy? then 100.0 else 90.0) - 20.0 * dist as real
  }

  predicate IsNear(terms: Terms, query: string, maxDistance: int, m: Match) {
    m.0 in terms && (m.1.FuzzyAbbreviation? ==> terms[m.0].abbreviation != "")
    && Distance(query, terms[m.0], m.1) <= maxDistance
  }

  /** The term and the abbreviation of every key. */
  function Matches(keys: set<string>): set<Match> {
    set key, how | key in keys && how in {Fuzzy, FuzzyAbbreviation} :: (key, how)
  }

  /** The matches within the distance, with their relevance. */
  function Close(terms: Terms, query: string, maxDistance: int): (r: map<Match, real>)
    ensures forall m: Match :: m in r <==> IsNear(terms, query, maxDistance, m)
  {
    map m | m in Matches(terms.Keys) && IsNear(terms, query, maxDistance, m)
      :: Relevance(Distance(query, terms[m.0], m.1), m.1)
  }

  /** Results are equal if entry, relevance and match type are. */
  predicate ContainsEqual(terms: Terms, results: seq<Hit<Match>>, h: Hit<Match>)
    requires h.id.0 in terms && forall i :: 0 <= i < |results| ==> results[i].id.0 in terms
  {
    exists i :: 0 <= i < |results| && terms[results[i].id.0] == terms[h.id.0] && results[i].score == h.score
                && results[i].id.1 == h.id.1
  }

  // ---------------------------------------------------------------------------
  // The search
  // ---------------------------------------------------------------------------

  /** The results are the hits except those that are left to be looked at. */
  ghost predicate Found(results: seq<Hit<Match>>, hits: map<Match, real>, left: set<Match>) {
    && Distinct(results)
    && (forall i :: 0 <= i < |results| ==>
          results[i].id !in left && results[i].id in hits && hits[results[i].id] == results[i].score)
    && (forall m :: m in hits && m !in left ==> Listed(results, m))
  }

  lemma AddHit(results: seq<Hit<Match>>, hits: map<Match, real>, left: set<Match>, m: Match)
    requires Found(results, hits, left) && m in left && m in hits
    ensures Found(results + [Hit(m, hits[m])], hits, left - {m})
  {
    ListedAppend(results, Hit(m, hits[m]));
  }

  lemma SkipMatch(results: seq<Hit<Match>>, hits: map<Match, real>, left: set<Match>, m: Match)
    requires Found(results, hits, left) && m !in hits
    ensures Found(results, hits, left - {m})
  {
  }

  lemma NothingFound(terms: Terms, query: string, maxDistance: int)
    ensures Found([], Close(terms, query, maxDistance), Matches(terms.Keys))
  {
    hide Distance;
  }

  lemma AllFound(results: seq<Hit<Match>>, hits: map<Match, real>)
    requires Found(results, hits, Matches({}))
    ensures Lists(results, hits)
  {
  }

  /** Entries with the same term are the same, so no result is there twice. */
  lemma NoneIsEqual(terms: Terms, results: seq<Hit<Match>>, hits: map<Match, real>, left: set<Match>, h: Hit<Match>)
    requires Keyed(terms) && Found(results, hits, left) && h.id in left && h.id.0 in terms
    requires forall i :: 0 <= i < |results| ==> results[i].id.0 in terms
    ensures !ContainsEqual(terms, results, h)
  {
    hide Keyed;
    forall i | 0 <= i < |results|
      ensures terms[results[i].id.0] == terms[h.id.0] && results[i].id.1 == h.id.1 ==> results[i].id == h.id
    {
      SameEntrySameMatch(terms, results[i].id, h.id);
    }
  }

  lemma SameEntrySameMatch(terms: Terms, a: Match, b: Match)
    requires Keyed(terms) && a.0 in terms && b.0 in terms
    ensures terms[a.0] == terms[b.0] && a.1 == b.1 ==> a == b
  {
  }

  lemma FoundKeys(terms: Terms, query: string, maxDistance: int, results: seq<Hit<Match>>, left: set<Match>)
    requires Found(results, Close(terms, query, maxDistance), left)
    ensures forall i :: 0 <= i < |results| ==> results[i].id.0 in terms
  {
  }

  lemma CloseAt(terms: Terms, query: string, maxDistance: int, m: Match)
    ensures m in Close(terms, query, maxDistance) <==> IsNear(terms, query, maxDistance, m)
    ensures m in Close(terms, query, maxDistance) ==>
              Close(terms, query, maxDistance)[m] == Relevance(Distance(query, terms[m.0], m.1), m.1)
  {
  }

  method FuzzySearch(terms: Terms, query: string, maxDistance: int) returns (results: seq<Hit<Match>>)
    requires Keyed(terms)
    ensures query == "" ==> results == []
    ensures query != "" ==> Lists(results, Close(terms, query, maxDistance)) && Falling(results)
  {
    hide Lev, Falling, Close, Found, Matches;
    results := [];
    if query == "" { return; }
    var lowerQuery := Lower(query);
    var rest := terms.Keys;
    NothingFound(terms, query, maxDistance);
    while rest != {}
      invariant rest <= terms.Keys && Found(results, Close(terms, query, maxDistance), Matches(rest))
      decreases rest
    {
      var key := AnyKey(rest);
      MatchesWithout(rest, key);
      results := CheckTerm(terms, lowerQuery, maxDistance, key, results, query, Matches(rest));
      results := CheckAbbreviation(terms, lowerQuery, maxDistance, key, results, query, Matches(rest) - {(key, Fuzzy)});
      rest := rest - {key};
    }
    AllFound(results, Close(terms, query, maxDistance));
    results := SortByRelevance(results, Close(terms, query, maxDistance));
  }

  lemma MatchesWithout(keys: set<string>, key: string)
    ensures Matches(keys) - {(key, Fuzzy)} - {(key, FuzzyAbbreviation)} == Matches(keys - {key})
    ensures key in keys ==> (key, Fuzzy) in Matches(keys) && (key, FuzzyAbbreviation) in Matches(keys)
  {
  }

  /** The first half of the loop body. */
  method CheckTerm(terms: Terms, lowerQuery: string, maxDistance: int, key: string, before: seq<Hit<Match>>,
                   ghost query: string, ghost left: set<Match>) returns (results: seq<Hit<Match>>)
    requires key in terms && lowerQuery == Lower(query) && (key, Fuzzy) in left
    requires Found(before, Close(terms, query, maxDistance), left)
    ensures Found(results, Close(terms, query, maxDistance), left - {(key, Fuzzy)})
  {
    hide Lev, Close, Found;
    results := before;
    ghost var hits := Close(terms, query, maxDistance);
    CloseAt(terms, query, maxDistance, (key, Fuzzy));
    var dist := LevenshteinDistance(lowerQuery, Lower(terms[key].term));
    if dist <= maxDistance {
      AddHit(results, hits, left, (key, Fuzzy));
      results := results + [Hit((key, Fuzzy), Relevance(dist, Fuzzy))];
    } else {
      SkipMatch(results, hits, left, (key, Fuzzy));
    }
  }

  /** The second half; the search for an equal result never finds one. */
  method CheckAbbreviation(terms: Terms, lowerQuery: string, maxDistance: int, key: string, before: seq<Hit<Match>>,
                           ghost query: string, ghost left: set<Match>) returns (results: seq<Hit<Match>>)
    requires Keyed(terms) && key in terms && lowerQuery == Lower(query) && (key, FuzzyAbbreviation) in left
    requires Found(before, Close(terms, query, maxDistance), left)
    ensures Found(results, Close(terms, query, maxDistance), left - {(key, FuzzyAbbreviation)})
  {
    hide Lev, Close, Found, Keyed, ContainsEqual;
    results := before;
    ghost var hits := Close(terms, query, maxDistance);
    CloseAt(terms, query, maxDistance, (key, FuzzyAbbreviation));
    if terms[key].abbreviation != "" {
      var dist := LevenshteinDistance(lowerQuery, Lower(terms[key].abbreviation));
      if dist <= maxDistance {
        var h := Hit((key, FuzzyAbbreviation), Relevance(dist, FuzzyAbbreviation));
        FoundKeys(terms, query, maxDistance, results, left);
        NoneIsEqual(terms, results, hits, left, h);
        AddHit(results, hits, left, (key, FuzzyAbbreviation));
        if !ContainsEqual(terms, results, h) {
          results := results + [h];
        }
        return;
      }
    }
    SkipMatch(results, hits, left, (key, FuzzyAbbreviation));
  }

  // ---------------------------------------------------------------------------
  // What is found
  // ---------------------------------------------------------------------------

  /** A term or abbreviation is found if and only if some number of edits within the limit turns the query into it. */
  lemma FoundIff(terms: Terms, query: string, maxDistance: int, key: string, how: MatchType)
    requires key in terms
    ensures (key, how) in Close(terms, query, maxDistance) <==>
            (how.FuzzyAbbreviation? ==> terms[key].abbreviation != "")
            && exists n: nat :: n <= maxDistance && Reaches(Lower(query), Lower(Matched(terms[key], how)), n)
  {
    hide Lev, Reaches, Close;
    CloseAt(terms, query, maxDistance, (key, how));
    var s, t := Lower(query), Lower(Matched(terms[key], how));
    var d := Lev(s, t);
    LevIsLeastEditCount(s, t);
    if d <= maxDistance {
      assert d <= maxDistance && Reaches(s, t, d);
    } else {
      forall n: nat | n <= maxDistance ensures !Reaches(s, t, n) {
      }
    }
  }

  /** Every edit that is needed costs 20 of the 100 for a term and of the 90 for an abbreviation. */
  lemma RelevanceCountsEdits(terms: Terms, query: string, maxDistance: int, key: string, how: MatchType, n: nat)
    requires (key, how) in Close(terms, query, maxDistance)
    requires var s, t := Lower(query), Lower(Matched(terms[key], how)); Reaches(s, t, n) && forall k: nat :: k < n ==> !Reaches(s, t, k)
    ensures Close(terms, query, maxDistance)[(key, how)] == (if how == Fuzzy then 100.0 else 90.0) - 20.0 * n as real
  {
    hide Lev, Reaches, Close;
    CloseAt(terms, query, maxDistance, (key, how));
    LevIsLeastEditCount(Lower(query), Lower(Matched(terms[key], how)));
  }

  /** The full relevance means the term itself, whatever the case of its letters. */
  lemma FullRelevanceIff(terms: Terms, query: string, maxDistance: int, m: Match)
    requires m in Close(terms, query, maxDistance)
    ensures Close(terms, query, maxDistance)[m] == 100.0 <==> m.1.Fuzzy? && Lower(query) == Lower(terms[m.0].term)
  {
    hide Lev, Close;
    CloseAt(terms, query, maxDistance, m);
    LevIdentity(Lower(query), Lower(terms[m.0].term));
  }

  /** Nearer words come first, terms before abbreviations, and any two of them lie within twice the limit. */
  lemma ResultsAreNear(terms: Terms, query: string, maxDistance: int, results: seq<Hit<Match>>, i: nat, j: nat)
    requires Lists(results, Close(terms, query, maxDistance)) && Falling(results) && i < j < |results|
    ensures results[i].id.0 in terms && results[j].id.0 in terms
    ensures var a, b := results[i].id, results[j].id;
            var near, far := Distance(query, terms[a.0], a.1), Distance(query, terms[b.0], b.1);
            && near <= far && (near == far ==> a.1.Fuzzy? || b.1.FuzzyAbbreviation?)
            && Lev(Lower(Matched(terms[a.0], a.1)), Lower(Matched(terms[b.0], b.1))) <= 2 * maxDistance
  {
    hide Lev, Close;
    var a, b := results[i].id, results[j].id;
    CloseAt(terms, query, maxDistance, a);
    CloseAt(terms, query, maxDistance, b);
    assert results[i].score >= results[j].score;
    var s, q, t := Lower(Matched(terms[a.0], a.1)), Lower(query), Lower(Matched(terms[b.0], b.1));
    LevSymmetric(s, q);
    LevTriangle(s, q, t);
  }
}
