/**
 * The icon cache (icon_engine/IconRenderer.cpp, class IconCache): a list with the most
 * recently used entry in front, and a map from keys to list nodes.
 *
 * `Cache` is the class; its methods are tied to functions on a plain recency sequence of
 * (key, value) pairs. The guarantees of the cache are stated about runs of those functions:
 * the inclusion property between two capacities, and the retention of recently used keys.
 */
module IconCache {

  import opened Common

  type Recency<K, V> = seq<(K, V)>

  // ---------------------------------------------------------------------------
  // The recency sequence
  // ---------------------------------------------------------------------------

  ghost predicate Distinct<K, V>(s: Recency<K, V>) {
    forall i, j :: 0 <= i < j < |s| ==> s[i].0 != s[j].0
  }

  ghost function Keys<K, V>(s: Recency<K, V>): set<K> {
    set e | e in s :: e.0
  }

  ghost function Drop<K, V>(s: Recency<K, V>, k: K): (r: Recency<K, V>)
    ensures |r| <= |s|
    ensures forall e :: e in r ==> e in s
  {
    if s == [] then []
    else if s[0].0 == k then s[1..]
    else [s[0]] + Drop(s[1..], k)
  }

  ghost function Find<K, V>(s: Recency<K, V>, k: K): Option<V> {
    if s == [] then None
    else if s[0].0 == k then Some(s[0].1)
    else Find(s[1..], k)
  }

  ghost function Truncate<K, V>(s: Recency<K, V>, cap: nat): Recency<K, V> {
    if |s| <= cap then s else s[..cap]
  }

  ghost function Inserted<K, V>(s: Recency<K, V>, cap: nat, k: K, v: V): Recency<K, V> {
    Truncate([(k, v)] + Drop(s, k), cap)
  }

  ghost function Touched<K, V>(s: Recency<K, V>, k: K): Recency<K, V> {
    match Find(s, k)
    case None => s
    case Some(v) => [(k, v)] + Drop(s, k)
  }

  lemma ConsDistinct<K, V>(e: (K, V), s: Recency<K, V>)
    requires Distinct(s) && forall x :: x in s ==> x.0 != e.0
    ensures Distinct([e] + s)
  {
  }

  lemma {:induction false} DropFacts<K, V>(s: Recency<K, V>, k: K)
    requires Distinct(s)
    ensures Distinct(Drop(s, k))
    ensures forall e :: e in Drop(s, k) <==> e in s && e.0 != k
    ensures |Drop(s, k)| == |s| - (if Find(s, k).Some? then 1 else 0)
    ensures Find(s, k).Some? <==> exists e :: e in s && e.0 == k
    ensures forall v :: Find(s, k) == Some(v) <==> (k, v) in s
  {
    if s != [] {
      assert s == [s[0]] + s[1..];
      if s[0].0 != k {
        DropFacts(s[1..], k);
        ConsDistinct(s[0], Drop(s[1..], k));
      }
    }
  }

  // ---------------------------------------------------------------------------
  // The class
  // ---------------------------------------------------------------------------

  /** A list cell. Its address plays the part of the list iterator kept in the map. */
  class Node<K, V> {
    const key: K
    const pixmap: V
    var accessCount: nat

    constructor (key: K, pixmap: V)
      ensures this.key == key && this.pixmap == pixmap && accessCount == 1
    {
      this.key := key;
      this.pixmap := pixmap;
      accessCount := 1;
    }
  }

  function Entries<K, V>(list: seq<Node<K, V>>): (r: Recency<K, V>)
    ensures |r| == |list|
    ensures forall i :: 0 <= i < |list| ==> r[i] == (list[i].key, list[i].pixmap)
  {
    if list == [] then [] else [(list[0].key, list[0].pixmap)] + Entries(list[1..])
  }

  /** Unlinks one cell, as erasing through an iterator does. */
  function Unlink<K, V>(list: seq<Node<K, V>>, n: Node<K, V>): (r: seq<Node<K, V>>)
    ensures forall m :: m in r ==> m in list
  {
    if list == [] then []
    else if list[0] == n then list[1..]
    else [list[0]] + Unlink(list[1..], n)
  }

  ghost predicate DistinctNodes<K, V>(list: seq<Node<K, V>>) {
    forall i, j :: 0 <= i < j < |list| ==> list[i].key != list[j].key
  }

  /** The map that points every listed key at its own cell, and holds nothing else. */
  ghost function IndexOf<K, V>(list: seq<Node<K, V>>): map<K, Node<K, V>> {
    if list == [] then map[] else IndexOf(list[1..])[list[0].key := list[0]]
  }

  lemma {:induction false} Lookup<K, V>(list: seq<Node<K, V>>, k: K)
    ensures k in IndexOf(list) <==> Find(Entries(list), k).Some?
    ensures k in IndexOf(list) ==>
              IndexOf(list)[k] in list && IndexOf(list)[k].key == k &&
              Find(Entries(list), k) == Some(IndexOf(list)[k].pixmap)
    ensures k !in IndexOf(list) ==> (forall n :: n in list ==> n.key != k) && Drop(Entries(list), k) == Entries(list)
  {
    if list != [] {
      assert Entries(list)[1..] == Entries(list[1..]);
      assert forall n :: n in list <==> n == list[0] || n in list[1..];
      Lookup(list[1..], k);
    }
  }

  lemma {:induction false} IndexSize<K, V>(list: seq<Node<K, V>>)
    requires DistinctNodes(list)
    ensures |IndexOf(list)| == |list|
  {
    if list != [] {
      IndexSize(list[1..]);
      Lookup(list[1..], list[0].key);
      HeadKeyFresh(list);
      assert IndexOf(list).Keys == IndexOf(list[1..]).Keys + {list[0].key};
    }
  }

  lemma HeadKeyFresh<K, V>(list: seq<Node<K, V>>)
    requires list != [] && DistinctNodes(list)
    ensures forall n :: n in list[1..] ==> n.key != list[0].key
    ensures list[0].key !in IndexOf(list[1..])
  {
    Lookup(list[1..], list[0].key);
  }

  lemma {:induction false} PopLast<K, V>(list: seq<Node<K, V>>)
    requires list != [] && DistinctNodes(list)
    ensures DistinctNodes(list[..|list| - 1])
    ensures IndexOf(list[..|list| - 1]) == IndexOf(list) - {list[|list| - 1].key}
    ensures |IndexOf(list[..|list| - 1])| == |list| - 1
    ensures Entries(list[..|list| - 1]) == Entries(list)[..|list| - 1]
  {
    IndexSize(list[..|list| - 1]);
    if |list| == 1 {
      assert list[..0] == [] && list[1..] == [];
    } else {
      PopLast(list[1..]);
      assert list[..|list| - 1][1..] == list[1..][..|list| - 2];
      assert list[0].key != list[|list| - 1].key;
    }
  }

  lemma PushFront<K, V>(n: Node<K, V>, list: seq<Node<K, V>>)
    requires DistinctNodes(list) && n.key !in IndexOf(list)
    ensures DistinctNodes([n] + list)
    ensures IndexOf([n] + list) == IndexOf(list)[n.key := n]
    ensures Entries([n] + list) == [(n.key, n.pixmap)] + Entries(list)
  {
    Lookup(list, n.key);
    assert ([n] + list)[1..] == list;
  }

  lemma {:induction false} UnlinkDistinct<K, V>(list: seq<Node<K, V>>, n: Node<K, V>)
    requires DistinctNodes(list) && n in list
    ensures DistinctNodes(Unlink(list, n)) && |Unlink(list, n)| == |list| - 1
  {
    if list[0] != n {
      assert n in list[1..];
      UnlinkDistinct(list[1..], n);
      HeadKeyFresh(list);
    }
  }

  lemma {:induction false} UnlinkIndex<K, V>(list: seq<Node<K, V>>, n: Node<K, V>)
    requires DistinctNodes(list) && n in list
    ensures IndexOf(Unlink(list, n)) == IndexOf(list) - {n.key}
  {
    hide Entries, Find, Drop;
    HeadKeyFresh(list);
    if list[0] != n {
      var rest := Unlink(list[1..], n);
      assert n in list[1..];
      UnlinkIndex(list[1..], n);
      assert ([list[0]] + rest)[1..] == rest;
    }
  }

  lemma {:induction false} UnlinkEntries<K, V>(list: seq<Node<K, V>>, n: Node<K, V>)
    requires DistinctNodes(list) && n in list
    ensures Entries(Unlink(list, n)) == Drop(Entries(list), n.key)
  {
    hide IndexOf;
    assert Entries(list)[1..] == Entries(list[1..]);
    if list[0] != n {
      var rest := Unlink(list[1..], n);
      assert n in list[1..];
      UnlinkEntries(list[1..], n);
      assert ([list[0]] + rest)[1..] == rest;
    }
  }

  lemma UnlinkCell<K, V>(list: seq<Node<K, V>>, n: Node<K, V>)
    requires DistinctNodes(list) && n in list
    ensures IndexOf(Unlink(list, n)) == IndexOf(list) - {n.key}
    ensures Entries(Unlink(list, n)) == Drop(Entries(list), n.key)
  {
    hide IndexOf, Entries, Unlink, Drop;
    UnlinkIndex(list, n);
    UnlinkEntries(list, n);
  }

  lemma SpliceCell<K, V>(list: seq<Node<K, V>>, n: Node<K, V>)
    requires DistinctNodes(list) && n in list
    ensures DistinctNodes([n] + Unlink(list, n)) && |[n] + Unlink(list, n)| == |list|
    ensures IndexOf([n] + Unlink(list, n)) == IndexOf(list)[n.key := n]
    ensures Entries([n] + Unlink(list, n)) == [(n.key, n.pixmap)] + Drop(Entries(list), n.key)
  {
    UnlinkCell(list, n);
    UnlinkDistinct(list, n);
    PushFront(n, Unlink(list, n));
  }

  class Cache<K(==), V> {
    var cacheList: seq<Node<K, V>>
    var cacheMap: map<K, Node<K, V>>
    var maxSize: nat

    ghost predicate Linked()
      reads this
    {
      DistinctNodes(cacheList) && cacheMap == IndexOf(cacheList)
    }

    ghost predicate Valid()
      reads this
    {
      Linked() && |cacheList| <= maxSize
    }

    ghost function Contents(): Recency<K, V>
      reads this
    {
      Entries(cacheList)
    }

    constructor (maxSize: nat)
      ensures Valid() && Contents() == [] && this.maxSize == maxSize
    {
      cacheList := [];
      cacheMap := map[];
      this.maxSize := maxSize;
    }

    /** Removes an entry through the iterator the map holds for it, if there is one. */
    method Erase(k: K)
      requires Linked()
      modifies this`cacheList, this`cacheMap
      ensures Linked() && k !in cacheMap
      ensures Contents() == Drop(old(Contents()), k)
    {
      Lookup(cacheList, k);
      if k in cacheMap {
        var it := cacheMap[k];
        UnlinkCell(cacheList, it);
        UnlinkDistinct(cacheList, it);
        cacheList := Unlink(cacheList, it);
        cacheMap := cacheMap - {k};
      }
    }

    method PopBack()
      requires Linked() && cacheList != []
      modifies this`cacheList, this`cacheMap
      ensures Linked() && |cacheList| == |old(cacheList)| - 1 == |cacheMap|
      ensures Contents() == old(Contents())[..|cacheList|]
    {
      var evicted := cacheList[|cacheList| - 1];
      PopLast(cacheList);
      cacheMap := cacheMap - {evicted.key};
      cacheList := cacheList[..|cacheList| - 1];
    }

    /** Drops entries from the back until the map fits. */
    method EvictOverCapacity()
      requires Linked()
      modifies this`cacheList, this`cacheMap
      ensures Valid() && Contents() == Truncate(old(Contents()), maxSize)
    {
      IndexSize(cacheList);
      while |cacheMap| > maxSize
        invariant Linked() && |cacheMap| == |cacheList| <= |old(cacheList)|
        invariant Contents() == old(Contents())[..|cacheList|]
        invariant |cacheList| >= maxSize || Contents() == old(Contents())
        decreases |cacheList|
      {
        PopBack();
      }
    }

    method Insert(key: K, pixmap: V)
      requires Valid()
      modifies this
      ensures Valid() && maxSize == old(maxSize)
      ensures Contents() == Inserted(old(Contents()), maxSize, key, pixmap)
    {
      Erase(key);
      var front := new Node(key, pixmap);
      PushFront(front, cacheList);
      cacheList := [front] + cacheList;
      cacheMap := cacheMap[key := front];
      EvictOverCapacity();
    }

    method Get(key: K) returns (r: Option<V>)
      requires Valid()
      modifies this, cacheList
      ensures Valid() && maxSize == old(maxSize)
      ensures r == Find(old(Contents()), key)
      ensures Contents() == Touched(old(Contents()), key)
    {
      Lookup(cacheList, key);
      if key !in cacheMap {
        return None;
      }
      var it := cacheMap[key];
      it.accessCount := it.accessCount + 1;
      if it != cacheList[0] {
        SpliceCell(cacheList, it);
        cacheList := [it] + Unlink(cacheList, it);
        cacheMap := cacheMap[key := it];
      } else {
        TouchFront(cacheList);
      }
      r := Some(it.pixmap);
    }

    method Invalidate(key: K)
      requires Valid()
      modifies this
      ensures Valid() && maxSize == old(maxSize)
      ensures Contents() == Drop(old(Contents()), key)
    {
      Erase(key);
    }

    method Clear()
      requires Valid()
      modifies this
      ensures Valid() && maxSize == old(maxSize) && Contents() == []
    {
      cacheList := [];
      cacheMap := map[];
    }

    method SetMaxSize(newSize: nat)
      requires Valid()
      modifies this
      ensures Valid() && maxSize == newSize
      ensures Contents() == Truncate(old(Contents()), newSize)
    {
      maxSize := newSize;
      EvictOverCapacity();
    }

    method Size() returns (n: nat)
      requires Valid()
      ensures n == |Contents()| <= maxSize
    {
      IndexSize(cacheList);
      n := |cacheMap|;
    }
  }

  lemma TouchFront<K, V>(list: seq<Node<K, V>>)
    requires list != []
    ensures Touched(Entries(list), list[0].key) == Entries(list)
  {
    var s := Entries(list);
    assert s == [s[0]] + s[1..];
  }

  // ---------------------------------------------------------------------------
  // Runs
  // ---------------------------------------------------------------------------

  datatype Op<K, V> = InsertOp(k: K, v: V) | GetOp(k: K) | InvalidateOp(k: K) | ClearOp

  ghost function Step<K, V>(cap: nat, s: Recency<K, V>, op: Op<K, V>): Recency<K, V> {
    match op
    case InsertOp(k, v) => Inserted(s, cap, k, v)
    case GetOp(k) => Touched(s, k)
    case InvalidateOp(k) => Drop(s, k)
    case ClearOp => []
  }

  /** The cache after a run that starts empty; every prefix of a run is a run. */
  ghost function Run<K, V>(cap: nat, ops: seq<Op<K, V>>): Recency<K, V> {
    if ops == [] then [] else Step(cap, Run(cap, ops[..|ops| - 1]), ops[|ops| - 1])
  }

  /** Distinct keys, never more than the capacity. */
  lemma {:induction false} RunWellFormed<K, V>(cap: nat, ops: seq<Op<K, V>>)
    ensures Distinct(Run(cap, ops)) && |Run(cap, ops)| <= cap
    decreases |ops|
  {
    if ops != [] {
      var s := Run(cap, ops[..|ops| - 1]);
      RunWellFormed(cap, ops[..|ops| - 1]);
      StepDistinct(cap, s, ops[|ops| - 1]);
    }
  }

  lemma StepDistinct<K, V>(cap: nat, s: Recency<K, V>, op: Op<K, V>)
    requires Distinct(s) && |s| <= cap
    ensures Distinct(Step(cap, s, op)) && |Step(cap, s, op)| <= cap
  {
    if !op.ClearOp? {
      DropFacts(s, op.k);
      if op.InsertOp? {
        ConsDistinct((op.k, op.v), Drop(s, op.k));
      } else if Find(s, op.k).Some? {
        ConsDistinct((op.k, Find(s, op.k).value), Drop(s, op.k));
      }
    }
  }

  // ---- Inclusion -----------------------------------------------------------

  ghost predicate Subsequence<K, V>(a: Recency<K, V>, b: Recency<K, V>) {
    a == [] ||
    (b != [] && ((a[0] == b[0] && Subsequence(a[1..], b[1..])) || Subsequence(a, b[1..])))
  }

  lemma {:induction false} SubsequenceMembers<K, V>(a: Recency<K, V>, b: Recency<K, V>)
    requires Subsequence(a, b)
    ensures |a| <= |b| && forall e :: e in a ==> e in b
    decreases |b|
  {
    if a != [] {
      assert b == [b[0]] + b[1..] && a == [a[0]] + a[1..];
      if a[0] == b[0] && Subsequence(a[1..], b[1..]) {
        SubsequenceMembers(a[1..], b[1..]);
      } else {
        SubsequenceMembers(a, b[1..]);
      }
    }
  }

  lemma {:induction false} DropMissing<K, V>(s: Recency<K, V>, k: K)
    requires forall x :: x in s ==> x.0 != k
    ensures Drop(s, k) == s
  {
    if s != [] {
      DropMissing(s[1..], k);
    }
  }

  /** Removing a key from the larger, and from the smaller too or not at all if it is absent there. */
  lemma {:induction false} SubsequenceDrop<K, V>(a: Recency<K, V>, b: Recency<K, V>, k: K)
    requires Distinct(a) && Distinct(b) && Subsequence(a, b)
    ensures Subsequence(Drop(a, k), Drop(b, k))
    decreases |b|
  {
    if a != [] {
      SubsequenceMembers(a, b);
      if a[0] == b[0] && Subsequence(a[1..], b[1..]) {
        SubsequenceDrop(a[1..], b[1..], k);
      } else {
        SubsequenceDrop(a, b[1..], k);
        if b[0].0 == k {
          SubsequenceMembers(a, b[1..]);
          HeadKeyIsGone(b);
          DropMissing(a, k);
        }
      }
    }
  }

  lemma HeadKeyIsGone<K, V>(b: Recency<K, V>)
    requires b != [] && Distinct(b)
    ensures forall x :: x in b[1..] ==> x.0 != b[0].0
  {
    forall x | x in b[1..] ensures x.0 != b[0].0 {
      var j :| 0 <= j < |b| - 1 && b[1..][j] == x;
      assert b[j + 1] == x;
    }
  }

  /** Evicting the last of both, or only the last of the smaller, keeps the inclusion. */
  lemma {:induction false} SubsequenceEvict<K, V>(a: Recency<K, V>, b: Recency<K, V>)
    requires a != [] && Subsequence(a, b)
    ensures Subsequence(a[..|a| - 1], b[..|b| - 1])
    ensures Subsequence(a[..|a| - 1], b)
    decreases |b|
  {
    if |a| > 1 {
      var af, bf := a[..|a| - 1], b[..|b| - 1];
      assert |b| > 1 by { SubsequenceMembers(a, b); }
      assert af[1..] == a[1..][..|a| - 2] && bf[1..] == b[1..][..|b| - 2];
      if a[0] == b[0] && Subsequence(a[1..], b[1..]) {
        SubsequenceEvict(a[1..], b[1..]);
      } else {
        SubsequenceEvict(a, b[1..]);
      }
    }
  }

  /** What two caches of capacities c and C keep between them. */
  ghost predicate Includes<K, V>(c: nat, C: nat, small: Recency<K, V>, large: Recency<K, V>) {
    && Distinct(small) && Distinct(large)
    && |small| <= c && |large| <= C
    && Subsequence(small, large)
    && |large| - |small| <= C - c
  }

  lemma {:induction false} SubsequenceFind<K, V>(a: Recency<K, V>, b: Recency<K, V>, k: K)
    requires Distinct(a) && Distinct(b) && Subsequence(a, b)
    ensures Find(a, k).Some? ==> Find(b, k) == Find(a, k)
  {
    SubsequenceMembers(a, b);
    DropFacts(a, k);
    DropFacts(b, k);
  }

  lemma SubsequenceExtend<K, V>(e: (K, V), a: Recency<K, V>, b: Recency<K, V>)
    requires Subsequence(a, b)
    ensures Subsequence([e] + a, [e] + b) && Subsequence(a, [e] + b)
  {
    assert ([e] + a)[1..] == a && ([e] + b)[1..] == b;
  }

  lemma IncludesTruncate<K, V>(c: nat, C: nat, a: Recency<K, V>, b: Recency<K, V>)
    requires c <= C && Distinct(a) && Distinct(b) && Subsequence(a, b)
    requires |a| <= c + 1 && |b| <= C + 1 && |b| - |a| <= C - c
    ensures Includes(c, C, Truncate(a, c), Truncate(b, C))
  {
    hide Subsequence;
    EmptySubsequence(b);
    if a != [] {
      SubsequenceEvict(a, b);
    }
    SubsequenceMembers(a, b);
  }

  lemma EmptySubsequence<K, V>(b: Recency<K, V>)
    ensures forall n :: 0 <= n <= |b| ==> Subsequence([], b[..n])
  {
  }

  lemma IncludesStep<K, V>(c: nat, C: nat, small: Recency<K, V>, large: Recency<K, V>, op: Op<K, V>)
    requires c <= C && Includes(c, C, small, large)
    ensures Includes(c, C, Step(c, small, op), Step(C, large, op))
  {
    if !op.ClearOp? {
      var k := op.k;
      SubsequenceDrop(small, large, k);
      SubsequenceFind(small, large, k);
      DropFacts(small, k);
      DropFacts(large, k);
      match op
      case InsertOp(_, v) =>
        SubsequenceExtend((k, v), Drop(small, k), Drop(large, k));
        ConsDistinct((k, v), Drop(small, k));
        ConsDistinct((k, v), Drop(large, k));
        IncludesTruncate(c, C, [(k, v)] + Drop(small, k), [(k, v)] + Drop(large, k));
      case GetOp(_) =>
        if Find(large, k).Some? {
          var e := (k, Find(large, k).value);
          SubsequenceExtend(e, Drop(small, k), Drop(large, k));
          ConsDistinct(e, Drop(small, k));
          ConsDistinct(e, Drop(large, k));
          if Find(small, k).None? {
            DropMissing(small, k);
          }
        }
      case InvalidateOp(_) =>
        if Find(small, k).Some? {
          assert Find(large, k).Some?;
        }
    }
  }

  /** After every run, the cache of capacity c is a subsequence of the cache of capacity C >= c. */
  lemma {:induction false} Inclusion<K, V>(c: nat, C: nat, ops: seq<Op<K, V>>)
    requires c <= C
    ensures Includes(c, C, Run(c, ops), Run(C, ops))
    decreases |ops|
  {
    if ops != [] {
      Inclusion(c, C, ops[..|ops| - 1]);
      IncludesStep(c, C, Run(c, ops[..|ops| - 1]), Run(C, ops[..|ops| - 1]), ops[|ops| - 1]);
    }
  }

  /** A key that hits in the smaller cache at any moment hits in the larger, with the same value. */
  lemma HitInclusion<K, V>(c: nat, C: nat, ops: seq<Op<K, V>>, k: K)
    requires c <= C
    ensures Find(Run(c, ops), k).Some? ==> Find(Run(C, ops), k) == Find(Run(c, ops), k)
  {
    Inclusion(c, C, ops);
    SubsequenceFind(Run(c, ops), Run(C, ops), k);
  }

  // ---- Retention -----------------------------------------------------------

  /** The keys other than k that a run inserts or looks up. */
  ghost function OthersUsed<K, V>(ops: seq<Op<K, V>>, k: K): set<K> {
    if ops == [] then {}
    else
      var op := ops[|ops| - 1];
      OthersUsed(ops[..|ops| - 1], k) +
      (if (op.InsertOp? || op.GetOp?) && op.k != k then {op.k} else {})
  }

  ghost predicate Removes<K, V>(op: Op<K, V>, k: K) {
    op.ClearOp? || ((op.InvalidateOp? || op.InsertOp?) && op.k == k)
  }

  /** k is stored with value v, and everything more recent is in `used`. */
  ghost predicate HeldBehind<K, V>(s: Recency<K, V>, k: K, v: V, used: set<K>) {
    exists i :: 0 <= i < |s| && s[i] == (k, v) && Keys(s[..i]) <= used
  }

  lemma {:induction false} DistinctLength<K, V>(s: Recency<K, V>, used: set<K>)
    requires Distinct(s) && Keys(s) <= used
    ensures |s| <= |used|
    decreases |s|
  {
    if s != [] {
      var last := s[|s| - 1];
      assert last in s;
      assert last.0 in Keys(s);
      var rest := s[..|s| - 1];
      forall key | key in Keys(rest)
        ensures key in used - {last.0}
      {
        var e :| e in rest && e.0 == key;
        var j :| 0 <= j < |rest| && rest[j] == e;
        assert s[j].0 != last.0 && e in s;
      }
      DistinctLength(rest, used - {last.0});
    }
  }

  lemma {:induction false} DropAt<K, V>(s: Recency<K, V>, k: K, i: nat, j: K)
    requires Distinct(s) && i < |s| && s[i].0 == k && j != k
    ensures exists m :: 0 <= m < |Drop(s, j)| && Drop(s, j)[m] == s[i] && Keys(Drop(s, j)[..m]) <= Keys(s[..i])
  {
    var d := Drop(s, j);
    if i == 0 {
      assert d[0] == s[0] && Keys(d[..0]) == {};
    } else if s[0].0 == j {
      assert d[i - 1] == s[i];
      assert Keys(d[..i - 1]) <= Keys(s[..i]) by {
        forall e | e in d[..i - 1] ensures e in s[..i] {
          var x :| 0 <= x < i - 1 && d[x] == e;
          assert s[..i][x + 1] == e;
        }
      }
    } else {
      DropAt(s[1..], k, i - 1, j);
      var m :| 0 <= m < |Drop(s[1..], j)| && Drop(s[1..], j)[m] == s[1..][i - 1]
               && Keys(Drop(s[1..], j)[..m]) <= Keys(s[1..][..i - 1]);
      assert d[m + 1] == s[i];
      assert d[..m + 1] == [s[0]] + Drop(s[1..], j)[..m];
      assert s[..i] == [s[0]] + s[1..][..i - 1];
      KeysOfCons(s[0], Drop(s[1..], j)[..m]);
      KeysOfCons(s[0], s[1..][..i - 1]);
    }
  }

  lemma KeysOfCons<K, V>(e: (K, V), s: Recency<K, V>)
    ensures Keys([e] + s) == {e.0} + Keys(s)
  {
    assert e in [e] + s;
    assert forall x :: x in [e] + s <==> x == e || x in s;
  }

  lemma HeldMovesBack<K, V>(s: Recency<K, V>, k: K, v: V, used: set<K>, e: (K, V))
    requires Distinct(s) && HeldBehind(s, k, v, used) && e.0 != k
    ensures HeldBehind([e] + Drop(s, e.0), k, v, used + {e.0})
    ensures HeldBehind(Drop(s, e.0), k, v, used)
  {
    var i :| 0 <= i < |s| && s[i] == (k, v) && Keys(s[..i]) <= used;
    var d := Drop(s, e.0);
    DropAt(s, k, i, e.0);
    var m :| 0 <= m < |d| && d[m] == s[i] && Keys(d[..m]) <= Keys(s[..i]);
    var r := [e] + d;
    assert r[m + 1] == (k, v) && r[..m + 1] == [e] + d[..m];
    KeysOfCons(e, d[..m]);
  }

  lemma HeldSurvivesTruncate<K, V>(s: Recency<K, V>, k: K, v: V, used: set<K>, cap: nat)
    requires Distinct(s) && HeldBehind(s, k, v, used) && |used| < cap
    ensures HeldBehind(Truncate(s, cap), k, v, used)
  {
    var i :| 0 <= i < |s| && s[i] == (k, v) && Keys(s[..i]) <= used;
    DistinctLength(s[..i], used);
    var t := Truncate(s, cap);
    assert t[i] == s[i] && t[..i] == s[..i];
  }

  lemma HeldStep<K, V>(cap: nat, s: Recency<K, V>, op: Op<K, V>, k: K, v: V, used: set<K>)
    requires Distinct(s) && HeldBehind(s, k, v, used) && !Removes(op, k)
    requires |used + (if (op.InsertOp? || op.GetOp?) && op.k != k then {op.k} else {})| < cap
    ensures HeldBehind(Step(cap, s, op), k, v,
                       used + (if (op.InsertOp? || op.GetOp?) && op.k != k then {op.k} else {}))
  {
    var j := op.k;
    DropFacts(s, j);
    match op
    case InsertOp(_, w) =>
      HeldMovesBack(s, k, v, used, (j, w));
      ConsDistinct((j, w), Drop(s, j));
      HeldSurvivesTruncate([(j, w)] + Drop(s, j), k, v, used + {j}, cap);
    case GetOp(_) =>
      if j == k {
        var i :| 0 <= i < |s| && s[i] == (k, v) && Keys(s[..i]) <= used;
        assert (k, v) in s;
        assert Touched(s, k)[0] == (k, v) && Keys(Touched(s, k)[..0]) == {};
      } else if Find(s, j).Some? {
        HeldMovesBack(s, k, v, used, (j, Find(s, j).value));
      } else {
        var i :| 0 <= i < |s| && s[i] == (k, v) && Keys(s[..i]) <= used;
        assert s[i] == (k, v) && Keys(s[..i]) <= used + {j};
      }
    case InvalidateOp(_) =>
      HeldMovesBack(s, k, v, used, (j, v));
  }

  /** A key in front stays held as long as fewer than `cap` other keys are used and it is not removed. */
  lemma {:induction false} StaysHeld<K, V>(cap: nat, before: seq<Op<K, V>>, k: K, v: V, after: seq<Op<K, V>>)
    requires HeldBehind(Run(cap, before), k, v, {})
    requires forall op :: op in after ==> !Removes(op, k)
    requires |OthersUsed(after, k)| < cap
    ensures HeldBehind(Run(cap, before + after), k, v, OthersUsed(after, k))
    decreases |after|
  {
    if after == [] {
      assert before + after == before;
    } else {
      var rest, op := after[..|after| - 1], after[|after| - 1];
      assert (before + after)[..|before + after| - 1] == before + rest;
      assert op in after && forall o :: o in rest ==> o in after;
      SubsetSize(OthersUsed(rest, k), OthersUsed(after, k));
      StaysHeld(cap, before, k, v, rest);
      RunWellFormed(cap, before + rest);
      HeldStep(cap, Run(cap, before + rest), op, k, v, OthersUsed(rest, k));
    }
  }

  lemma HeldIsFound<K, V>(s: Recency<K, V>, k: K, v: V, used: set<K>)
    requires Distinct(s) && HeldBehind(s, k, v, used)
    ensures Find(s, k) == Some(v)
  {
    DropFacts(s, k);
    var i :| 0 <= i < |s| && s[i] == (k, v);
    assert (k, v) in s;
  }

  lemma RunMore<K, V>(cap: nat, ops: seq<Op<K, V>>, op: Op<K, V>)
    ensures Run(cap, ops + [op]) == Step(cap, Run(cap, ops), op)
  {
    assert (ops + [op])[..|ops|] == ops;
  }

  /**
   * A key that was just inserted stays retrievable, with its value, for as long as fewer than
   * `cap` other keys are used after it and it is not removed or overwritten.
   */
  lemma Retention<K, V>(cap: nat, before: seq<Op<K, V>>, k: K, v: V, after: seq<Op<K, V>>)
    requires forall op :: op in after ==> !Removes(op, k)
    requires |OthersUsed(after, k)| < cap
    ensures Find(Run(cap, before + [InsertOp(k, v)] + after), k) == Some(v)
  {
    hide HeldBehind, Find, Inserted;
    RunMore(cap, before, InsertOp(k, v));
    HeldAtInsert(cap, Run(cap, before), k, v);
    StaysHeld(cap, before + [InsertOp(k, v)], k, v, after);
    RunWellFormed(cap, before + [InsertOp(k, v)] + after);
    HeldIsFound(Run(cap, before + [InsertOp(k, v)] + after), k, v, OthersUsed(after, k));
  }

  /** A hit counts as a use: the key is retained from then on as if it had just been inserted. */
  lemma RetentionAfterHit<K, V>(cap: nat, before: seq<Op<K, V>>, k: K, v: V, after: seq<Op<K, V>>)
    requires Find(Run(cap, before), k) == Some(v)
    requires forall op :: op in after ==> !Removes(op, k)
    requires |OthersUsed(after, k)| < cap
    ensures Find(Run(cap, before + [GetOp(k)] + after), k) == Some(v)
  {
    hide HeldBehind, Touched;
    RunMore(cap, before, GetOp(k));
    HeldAtHit(Run(cap, before), k, v);
    StaysHeld(cap, before + [GetOp(k)], k, v, after);
    RunWellFormed(cap, before + [GetOp(k)] + after);
    HeldIsFound(Run(cap, before + [GetOp(k)] + after), k, v, OthersUsed(after, k));
  }

  lemma HeldAtInsert<K, V>(cap: nat, s: Recency<K, V>, k: K, v: V)
    requires 0 < cap
    ensures HeldBehind(Inserted(s, cap, k, v), k, v, {})
  {
    var r := Inserted(s, cap, k, v);
    assert r[0] == (k, v) && Keys(r[..0]) == {};
  }

  lemma HeldAtHit<K, V>(s: Recency<K, V>, k: K, v: V)
    requires Find(s, k) == Some(v)
    ensures HeldBehind(Touched(s, k), k, v, {})
  {
    var r := Touched(s, k);
    assert r[0] == (k, v) && Keys(r[..0]) == {};
  }

  // ---- Eviction ------------------------------------------------------------

  /** The keys that a run inserts and does not remove again. */
  ghost function Added<K, V>(ops: seq<Op<K, V>>): set<K> {
    if ops == [] then {}
    else
      var rest := Added(ops[..|ops| - 1]);
      match ops[|ops| - 1]
      case InsertOp(k, _) => rest + {k}
      case GetOp(_) => rest
      case InvalidateOp(k) => rest - {k}
      case ClearOp => {}
  }

  /** k comes after all keys in `ahead`, if it is there at all. */
  ghost predicate Behind<K, V>(s: Recency<K, V>, k: K, ahead: set<K>) {
    s == [] || if s[0].0 == k then ahead == {} else Behind(s[1..], k, ahead - {s[0].0})
  }

  lemma {:induction false} BehindLess<K, V>(s: Recency<K, V>, k: K, ahead: set<K>, fewer: set<K>)
    requires Behind(s, k, ahead) && fewer <= ahead
    ensures Behind(s, k, fewer)
  {
    if s != [] && s[0].0 != k {
      BehindLess(s[1..], k, ahead - {s[0].0}, fewer - {s[0].0});
    }
  }

  lemma {:induction false} BehindDrop<K, V>(s: Recency<K, V>, k: K, ahead: set<K>, j: K)
    requires Behind(s, k, ahead) && j != k
    ensures Behind(Drop(s, j), k, ahead - {j})
  {
    if s != [] && s[0].0 != k && s[0].0 != j {
      BehindDrop(s[1..], k, ahead - {s[0].0}, j);
      assert ([s[0]] + Drop(s[1..], j))[1..] == Drop(s[1..], j);
      assert ahead - {s[0].0} - {j} == ahead - {j} - {s[0].0};
    }
  }

  lemma {:induction false} BehindTruncate<K, V>(s: Recency<K, V>, k: K, ahead: set<K>, n: nat)
    requires Behind(s, k, ahead) && n <= |s|
    ensures Behind(s[..n], k, ahead)
  {
    if n > 0 && s[0].0 != k {
      BehindTruncate(s[1..], k, ahead - {s[0].0}, n - 1);
      assert s[..n][1..] == s[1..][..n - 1];
    }
  }

  lemma {:induction false} TooFarBehind<K, V>(s: Recency<K, V>, k: K, ahead: set<K>)
    requires Behind(s, k, ahead) && |s| <= |ahead|
    ensures Find(s, k) == None
  {
    if s != [] && s[0].0 != k {
      TooFarBehind(s[1..], k, ahead - {s[0].0});
    }
  }

  lemma BehindInFront<K, V>(s: Recency<K, V>, k: K, ahead: set<K>, e: (K, V))
    requires Behind(s, k, ahead) && e.0 != k
    ensures Behind([e] + Drop(s, e.0), k, ahead + {e.0})
  {
    BehindDrop(s, k, ahead, e.0);
    assert ([e] + Drop(s, e.0))[1..] == Drop(s, e.0);
    assert ahead + {e.0} - {e.0} == ahead - {e.0};
  }

  lemma BehindStep<K, V>(cap: nat, s: Recency<K, V>, op: Op<K, V>, k: K, ahead: set<K>)
    requires Behind(s, k, ahead) && (op.ClearOp? || op.k != k)
    ensures op.InsertOp? ==> Behind(Step(cap, s, op), k, ahead + {op.k})
    ensures op.GetOp? ==> Behind(Step(cap, s, op), k, ahead)
    ensures op.InvalidateOp? ==> Behind(Step(cap, s, op), k, ahead - {op.k})
    ensures op.ClearOp? ==> Behind(Step(cap, s, op), k, {})
  {
    hide Behind, Drop;
    match op
    case InsertOp(j, w) =>
      var r := [(j, w)] + Drop(s, j);
      BehindInFront(s, k, ahead, (j, w));
      if |r| > cap { BehindTruncate(r, k, ahead + {j}, cap); }
    case GetOp(j) =>
      if Find(s, j).Some? {
        BehindInFront(s, k, ahead, (j, Find(s, j).value));
        BehindLess(Touched(s, j), k, ahead + {j}, ahead);
      }
    case InvalidateOp(j) => BehindDrop(s, k, ahead, j);
    case ClearOp => NothingBehind<K, V>(k);
  }

  lemma NothingBehind<K, V>(k: K)
    ensures Behind<K, V>([], k, {})
  {
  }

  lemma {:induction false} NeverMoved<K, V>(cap: nat, before: seq<Op<K, V>>, k: K, after: seq<Op<K, V>>)
    requires forall op :: op in after ==> op.ClearOp? || op.k != k
    ensures Behind(Run(cap, before + after), k, Added(after))
    decreases |after|
  {
    hide Step, Behind;
    if after == [] {
      assert before + after == before;
      BehindNothing(Run(cap, before), k);
    } else {
      var rest, op := after[..|after| - 1], after[|after| - 1];
      assert (before + after)[..|before + after| - 1] == before + rest;
      assert op in after && forall o :: o in rest ==> o in after;
      NeverMoved(cap, before, k, rest);
      BehindStep(cap, Run(cap, before + rest), op, k, Added(rest));
    }
  }

  lemma {:induction false} BehindNothing<K, V>(s: Recency<K, V>, k: K)
    ensures Behind(s, k, {})
  {
    if s != [] && s[0].0 != k {
      BehindNothing(s[1..], k);
      assert {} - {s[0].0} == {};
    }
  }

  /**
   * The other side of retention: a key that is not used while as many others as the capacity are
   * inserted, and not removed again, is gone.
   */
  lemma Eviction<K, V>(cap: nat, before: seq<Op<K, V>>, k: K, after: seq<Op<K, V>>)
    requires forall op :: op in after ==> op.ClearOp? || op.k != k
    requires |Added(after)| >= cap
    ensures Find(Run(cap, before + after), k) == None
  {
    hide Behind, Find;
    NeverMoved(cap, before, k, after);
    RunWellFormed(cap, before + after);
    TooFarBehind(Run(cap, before + after), k, Added(after));
  }

  // ---- What is found -------------------------------------------------------

  /** The value a key was last given, unless it was removed since. */
  ghost function LastStored<K, V>(ops: seq<Op<K, V>>, k: K): Option<V> {
    if ops == [] then None
    else
      match ops[|ops| - 1]
      case InsertOp(j, v) => if j == k then Some(v) else LastStored(ops[..|ops| - 1], k)
      case GetOp(_) => LastStored(ops[..|ops| - 1], k)
      case InvalidateOp(j) => if j == k then None else LastStored(ops[..|ops| - 1], k)
      case ClearOp => None
  }

  /** Whatever is found is the value the key was given last, and it was not removed since. */
  lemma {:induction false} FoundIsLastStored<K, V>(cap: nat, ops: seq<Op<K, V>>, k: K)
    ensures Find(Run(cap, ops), k) == None || Find(Run(cap, ops), k) == LastStored(ops, k)
    decreases |ops|
  {
    if ops != [] {
      var front, op := ops[..|ops| - 1], ops[|ops| - 1];
      FoundIsLastStored(cap, front, k);
      RunWellFormed(cap, front);
      FindAfter(cap, Run(cap, front), op, k);
    }
  }

  lemma FindAfter<K, V>(cap: nat, s: Recency<K, V>, op: Op<K, V>, k: K)
    requires Distinct(s)
    ensures op.ClearOp? || (op.InvalidateOp? && op.k == k) ==> Find(Step(cap, s, op), k) == None
    ensures op.InsertOp? && op.k == k ==> Find(Step(cap, s, op), k) in {None, Some(op.v)}
    ensures op.InsertOp? && op.k != k ==> Find(Step(cap, s, op), k) in {None, Find(s, k)}
    ensures op.GetOp? || (op.InvalidateOp? && op.k != k) ==> Find(Step(cap, s, op), k) == Find(s, k)
  {
    if !op.ClearOp? {
      var j := op.k;
      FindAfterDrop(s, j, k);
      match op
      case InsertOp(_, w) =>
        var r := [(j, w)] + Drop(s, j);
        assert r[1..] == Drop(s, j);
        if |r| > cap { FindTruncated(r, cap, k); }
      case GetOp(_) =>
        if Find(s, j).Some? { assert Touched(s, j)[1..] == Drop(s, j); }
      case InvalidateOp(_) =>
    }
  }

  lemma FindAfterDrop<K, V>(s: Recency<K, V>, j: K, k: K)
    requires Distinct(s)
    ensures Find(Drop(s, j), k) == if k == j then None else Find(s, k)
  {
    hide Find, Drop;
    DropFacts(s, j);
    DropFacts(s, k);
    DropFacts(Drop(s, j), k);
    SameFind(s, Drop(s, j), j, k);
  }

  lemma SameFind<K, V>(s: Recency<K, V>, d: Recency<K, V>, j: K, k: K)
    requires forall e :: e in d <==> e in s && e.0 != j
    requires forall v :: Find(s, k) == Some(v) <==> (k, v) in s
    requires forall v :: Find(d, k) == Some(v) <==> (k, v) in d
    ensures Find(d, k) == if k == j then None else Find(s, k)
  {
    hide Find;
    if Find(d, k).Some? { assert (k, Find(d, k).value) in d; }
    if Find(s, k).Some? { assert (k, Find(s, k).value) in s; }
  }

  lemma {:induction false} FindTruncated<K, V>(s: Recency<K, V>, n: nat, k: K)
    requires n <= |s|
    ensures Find(s[..n], k) == None || Find(s[..n], k) == Find(s, k)
  {
    if n > 0 && s[0].0 != k {
      assert s[..n][1..] == s[1..][..n - 1];
      FindTruncated(s[1..], n - 1, k);
    }
  }

  lemma {:induction false} SubsetSize<T>(a: set<T>, b: set<T>)
    requires a <= b
    ensures |a| <= |b|
  {
    if a != {} {
      var x :| x in a;
      SubsetSize(a - {x}, b - {x});
    }
  }
}
