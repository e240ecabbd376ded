/**
 * Search results ordered by their scores, as the searches of the help engine and of the glossary
 * return them: std::sort with the greater score first.
 */
module Ranking {
  datatype Hit<K> = Hit(id: K, score: real)

  /** The k best hits, in falling order; only ties are open. */
  predicate IsTop<K(!new)>(results: seq<Hit<K>>, hits: map<K, real>, k: int) {
    && (forall i :: 0 <= i < |results| ==> results[i].id in hits && hits[results[i].id] == results[i].score)
    && (forall i, j :: 0 <= i < j < |results| ==> results[i].id != results[j].id && results[i].score >= results[j].score)
    && (|results| == 0 || |results| <= k)
    && (|results| < k ==> forall id :: id in hits ==> exists i :: 0 <= i < |results| && results[i].id == id)
    && (forall id, i :: id in hits && 0 <= i < |results| && (forall j :: 0 <= j < |results| ==> results[j].id != id)
                        ==> hits[id] <= results[i].score)
  }

  // ---------------------------------------------------------------------------
  // Sorting
  // ---------------------------------------------------------------------------

  ghost predicate Distinct<K(!new)>(scored: seq<Hit<K>>) {
    forall i, j :: 0 <= i < j < |scored| ==> scored[i].id != scored[j].id
  }

  ghost predicate Listed<K(!new)>(scored: seq<Hit<K>>, id: K) {
    exists i :: 0 <= i < |scored| && scored[i].id == id
  }

  /** Every hit once, with its score. */
  ghost predicate Lists<K(!new)>(scored: seq<Hit<K>>, hits: map<K, real>) {
    && Distinct(scored)
    && (forall i :: 0 <= i < |scored| ==> scored[i].id in hits && hits[scored[i].id] == scored[i].score)
    && (forall id :: id in hits ==> Listed(scored, id))
  }

  ghost predicate Falling<K(!new)>(scored: seq<Hit<K>>) {
    forall i, j :: 0 <= i < j < |scored| ==> scored[i].score >= scored[j].score
  }

  lemma ListedAppend<K(!new)>(scored: seq<Hit<K>>, h: Hit<K>)
    ensures Listed(scored + [h], h.id)
    ensures forall id :: Listed(scored, id) ==> Listed(scored + [h], id)
    ensures forall id :: Listed(scored + [h], id) ==> Listed(scored, id) || id == h.id
  {
    assert (scored + [h])[|scored|] == h;
    forall id | Listed(scored, id) ensures Listed(scored + [h], id) {
      var i :| 0 <= i < |scored| && scored[i].id == id;
      assert (scored + [h])[i].id == id;
    }
  }

  /** std::sort by falling score; the order of ties is one of those it may choose. */
  method SortByRelevance<K(!new)>(scored: seq<Hit<K>>, ghost hits: map<K, real>) returns (sorted: seq<Hit<K>>)
    requires Lists(scored, hits)
    ensures Lists(sorted, hits) && Falling(sorted)
  {
    hide Falling, Listed;
    sorted := [];
    NothingListed<K>();
    for i := 0 to |scored|
      invariant Distinct(sorted) && Falling(sorted)
      invariant forall k :: 0 <= k < |sorted| ==> sorted[k].id in hits && hits[sorted[k].id] == sorted[k].score
      invariant forall id :: Listed(sorted, id) <==> Listed(scored[..i], id)
    {
      NotListedBefore(scored, i);
      ListedUpTo(scored, i);
      sorted := InsertByScore(sorted, scored[i]);
    }
    assert scored[..|scored|] == scored;
  }

  lemma NothingListed<K(!new)>()
    ensures forall id: K :: !Listed([], id)
    ensures Falling<K>([])
  {
  }

  lemma NotListedBefore<K(!new)>(scored: seq<Hit<K>>, i: nat)
    requires i < |scored| && Distinct(scored)
    ensures !Listed(scored[..i], scored[i].id)
  {
  }

  lemma ListedUpTo<K(!new)>(scored: seq<Hit<K>>, i: nat)
    requires i < |scored|
    ensures forall id :: Listed(scored[..i + 1], id) <==> Listed(scored[..i], id) || id == scored[i].id
  {
    ListedAppend(scored[..i], scored[i]);
    assert scored[..i + 1] == scored[..i] + [scored[i]];
  }

  method InsertByScore<K(!new)>(sorted: seq<Hit<K>>, h: Hit<K>) returns (after: seq<Hit<K>>)
    requires Distinct(sorted) && Falling(sorted) && !Listed(sorted, h.id)
    ensures Distinct(after) && Falling(after)
    ensures forall id :: Listed(after, id) <==> Listed(sorted, id) || id == h.id
    ensures forall k :: 0 <= k < |after| ==> after[k] == h || after[k] in sorted
  {
    var p := 0;
    while p < |sorted| && sorted[p].score >= h.score
      invariant 0 <= p <= |sorted| && forall k :: 0 <= k < p ==> sorted[k].score >= h.score
    {
      p := p + 1;
    }
    after := sorted[..p] + [h] + sorted[p..];
    InsertedKeeps(sorted, p, h);
  }

  lemma InsertedKeeps<K(!new)>(sorted: seq<Hit<K>>, p: nat, h: Hit<K>)
    requires p <= |sorted|
    ensures Listed(sorted[..p] + [h] + sorted[p..], h.id)
    ensures forall id :: Listed(sorted, id) ==> Listed(sorted[..p] + [h] + sorted[p..], id)
    ensures forall id :: Listed(sorted[..p] + [h] + sorted[p..], id) ==> Listed(sorted, id) || id == h.id
  {
    var after := sorted[..p] + [h] + sorted[p..];
    assert after[p] == h;
    forall id | Listed(sorted, id) ensures Listed(after, id) {
      var i :| 0 <= i < |sorted| && sorted[i].id == id;
      assert after[if i < p then i else i + 1] == sorted[i];
    }
    forall id | Listed(after, id) ensures Listed(sorted, id) || id == h.id {
      var i :| 0 <= i < |after| && after[i].id == id;
      assert i < p ==> after[i] == sorted[i];
      assert i > p ==> after[i] == sorted[i - 1];
    }
  }

  lemma FirstAreTop<K(!new)>(sorted: seq<Hit<K>>, hits: map<K, real>, k: int)
    requires Lists(sorted, hits) && Falling(sorted)
    ensures var n := if k < |sorted| then k else |sorted|; IsTop(if n < 0 then [] else sorted[..n], hits, k)
  {
    hide Falling;
    var n := if k < |sorted| then k else |sorted|;
    var results := if n < 0 then [] else sorted[..n];
    assert forall j :: 0 <= j < |results| ==> results[j] == sorted[j];
    forall i, j | 0 <= i < j < |sorted| ensures sorted[i].score >= sorted[j].score {
      FallingAt(sorted, i, j);
    }
    forall id, i | id in hits && 0 <= i < |results| && (forall j :: 0 <= j < |results| ==> results[j].id != id)
      ensures hits[id] <= results[i].score
    {
      assert Listed(sorted, id);
    }
    forall id | |results| < k && id in hits ensures exists i :: 0 <= i < |results| && results[i].id == id {
      assert Listed(sorted, id);
    }
  }

  lemma FallingAt<K(!new)>(scored: seq<Hit<K>>, i: nat, j: nat)
    requires Falling(scored) && i < j < |scored|
    ensures scored[i].score >= scored[j].score
  {
  }

  // ---------------------------------------------------------------------------
  // Only ties are open
  // ---------------------------------------------------------------------------

  ghost function Ids<K(!new)>(results: seq<Hit<K>>): set<K> {
    set r | r in results :: r.id
  }

  lemma {:induction false} IdsCount<K(!new)>(results: seq<Hit<K>>)
    requires Distinct(results)
    ensures |Ids(results)| == |results|
  {
    if results != [] {
      var front, last := results[..|results| - 1], results[|results| - 1];
      IdsCount(front);
      assert results == front + [last];
      assert Ids(results) == Ids(front) + {last.id};
    }
  }

  lemma {:induction false} SubsetCount<T>(a: set<T>, b: set<T>)
    requires a <= b
    ensures |a| <= |b|
  {
    if a != {} {
      var x :| x in a;
      SubsetCount(a - {x}, b - {x});
    }
  }

  lemma TopLength<K(!new)>(results: seq<Hit<K>>, hits: map<K, real>, k: int)
    requires IsTop(results, hits, k)
    ensures |results| == if |hits| <= k then |hits| else if k < 0 then 0 else k
  {
    IdsCount(results);
    assert Ids(results) <= hits.Keys;
    SubsetCount(Ids(results), hits.Keys);
    if |results| < k {
      assert Ids(results) == hits.Keys;
    }
  }

  lemma UpToIsBetter<K(!new)>(results: seq<Hit<K>>, hits: map<K, real>, k: int, i: nat, id: K)
    requires IsTop(results, hits, k) && i < |results| && id in Ids(results[..i + 1])
    ensures id in hits && hits[id] >= results[i].score
  {
    var j :| 0 <= j <= i && results[j].id == id;
    assert j < i ==> results[j].score >= results[i].score;
  }

  lemma BetterIsBefore<K(!new)>(results: seq<Hit<K>>, hits: map<K, real>, k: int, i: nat, id: K)
    requires IsTop(results, hits, k) && i < |results| && id in hits && hits[id] > results[i].score
    ensures id in Ids(results[..i])
  {
    if m :| 0 <= m < |results| && results[m].id == id {
      assert m < i;
      assert results[..i][m] == results[m];
    }
  }

  lemma TopIsDistinct<K(!new)>(results: seq<Hit<K>>, hits: map<K, real>, k: int, n: nat)
    requires IsTop(results, hits, k) && n <= |results|
    ensures |Ids(results[..n])| == n
  {
    IdsCount(results[..n]);
  }

  /** No top list has a better score at any place than another one. */
  lemma NoBetter<K(!new)>(a: seq<Hit<K>>, b: seq<Hit<K>>, hits: map<K, real>, k: int, i: nat)
    requires IsTop(a, hits, k) && IsTop(b, hits, k) && i < |a| == |b|
    ensures a[i].score <= b[i].score
  {
    hide IsTop, Ids;
    if a[i].score > b[i].score {
      TopIsDistinct(a, hits, k, i + 1);
      TopIsDistinct(b, hits, k, i);
      forall id | id in Ids(a[..i + 1]) ensures id in Ids(b[..i]) {
        UpToIsBetter(a, hits, k, i, id);
        BetterIsBefore(b, hits, k, i, id);
      }
      SubsetCount(Ids(a[..i + 1]), Ids(b[..i]));
      assert false;
    }
  }

  /** Two lists of the k best hits have the same scores at the same places. */
  lemma TopScoresAgree<K(!new)>(a: seq<Hit<K>>, b: seq<Hit<K>>, hits: map<K, real>, k: int)
    requires IsTop(a, hits, k) && IsTop(b, hits, k)
    ensures |a| == |b| && forall i :: 0 <= i < |a| ==> a[i].score == b[i].score
  {
    hide IsTop;
    TopLength(a, hits, k);
    TopLength(b, hits, k);
    forall i | 0 <= i < |a| ensures a[i].score == b[i].score {
      NoBetter(a, b, hits, k, i);
      NoBetter(b, a, hits, k, i);
    }
  }
}
