/**
 * Connectivity of a network (io/post_import_validator.cpp, dfsConnectivity and findIslands).
 *
 * The adjacency map is searched with an explicit stack. What it computes is stated with
 * `Joined`: some path of edges leads from one bus to another.
 */
module NetworkGraph {
  import opened Common

  type Edges = set<(int, int)>

  type Adjacency = map<int, seq<int>>

  ghost function EdgesOf(adj: Adjacency): Edges {
    set u, v | u in adj && v in adj[u] :: (u, v)
  }

  lemma EdgeIff(adj: Adjacency, u: int, v: int)
    ensures (u, v) in EdgesOf(adj) <==> u in adj && v in adj[u]
  {
  }

  ghost predicate Symmetric(edges: Edges) {
    forall u, v :: (u, v) in edges ==> (v, u) in edges
  }

  // ---------------------------------------------------------------------------
  // Paths
  // ---------------------------------------------------------------------------

  /** Consecutive buses are joined by an edge, and none is in `avoid`. */
  ghost predicate Path(edges: Edges, avoid: set<int>, p: seq<int>) {
    && p != [] && p[0] !in avoid
    && (|p| > 1 ==> (p[0], p[1]) in edges && Path(edges, avoid, p[1..]))
  }

  ghost predicate Joined(edges: Edges, avoid: set<int>, u: int, v: int) {
    exists p :: Path(edges, avoid, p) && p[0] == u && p[|p| - 1] == v
  }

  ghost function Nodes(edges: Edges): set<int> {
    (set e | e in edges :: e.0) + (set e | e in edges :: e.1)
  }

  /** The connected component of a bus. */
  ghost function Component(edges: Edges, b: int): set<int> {
    set v | v in Nodes(edges) + {b} && Joined(edges, {}, b, v)
  }

  lemma JoinedSelf(edges: Edges, avoid: set<int>, u: int)
    requires u !in avoid
    ensures Joined(edges, avoid, u, u)
  {
    var p := [u];
    assert Path(edges, avoid, p) && p[0] == u && p[|p| - 1] == u;
  }

  lemma {:induction false} PathAppend(edges: Edges, avoid: set<int>, p: seq<int>, v: int)
    requires Path(edges, avoid, p) && (p[|p| - 1], v) in edges && v !in avoid
    ensures Path(edges, avoid, p + [v])
    decreases |p|
  {
    if |p| > 1 {
      PathAppend(edges, avoid, p[1..], v);
      assert (p + [v])[1..] == p[1..] + [v];
    } else {
      assert (p + [v])[1..] == [v];
    }
  }

  lemma JoinedStep(edges: Edges, avoid: set<int>, u: int, v: int, w: int)
    requires Joined(edges, avoid, u, v) && (v, w) in edges && w !in avoid
    ensures Joined(edges, avoid, u, w)
  {
    var p :| Path(edges, avoid, p) && p[0] == u && p[|p| - 1] == v;
    PathAppend(edges, avoid, p, w);
    var q := p + [w];
    assert q[0] == u && q[|q| - 1] == w;
  }

  lemma {:induction false} JoinedAlong(edges: Edges, avoid: set<int>, u: int, p: seq<int>)
    requires Path(edges, avoid, p) && Joined(edges, avoid, u, p[0])
    ensures Joined(edges, avoid, u, p[|p| - 1])
    decreases |p|
  {
    if |p| > 1 {
      JoinedStep(edges, avoid, u, p[0], p[1]);
      JoinedAlong(edges, avoid, u, p[1..]);
    }
  }

  lemma JoinedTransitive(edges: Edges, avoid: set<int>, u: int, v: int, w: int)
    requires Joined(edges, avoid, u, v) && Joined(edges, avoid, v, w)
    ensures Joined(edges, avoid, u, w)
  {
    var p :| Path(edges, avoid, p) && p[0] == v && p[|p| - 1] == w;
    JoinedAlong(edges, avoid, u, p);
  }

  lemma {:induction false} JoinedBack(edges: Edges, avoid: set<int>, p: seq<int>)
    requires Symmetric(edges) && Path(edges, avoid, p)
    ensures Joined(edges, avoid, p[|p| - 1], p[0])
    decreases |p|
  {
    if |p| > 1 {
      JoinedBack(edges, avoid, p[1..]);
      JoinedStep(edges, avoid, p[|p| - 1], p[1], p[0]);
    } else {
      JoinedSelf(edges, avoid, p[0]);
    }
  }

  lemma JoinedSymmetric(edges: Edges, avoid: set<int>, u: int, v: int)
    requires Symmetric(edges) && Joined(edges, avoid, u, v)
    ensures Joined(edges, avoid, v, u)
  {
    var p :| Path(edges, avoid, p) && p[0] == u && p[|p| - 1] == v;
    JoinedBack(edges, avoid, p);
  }

  lemma {:induction false} JoinedGrows(small: Edges, large: Edges, p: seq<int>)
    requires small <= large && Path(small, {}, p)
    ensures Path(large, {}, p)
    decreases |p|
  {
    if |p| > 1 {
      JoinedGrows(small, large, p[1..]);
    }
  }

  lemma {:induction false} PathEndsAtNode(edges: Edges, avoid: set<int>, p: seq<int>)
    requires Path(edges, avoid, p)
    ensures p[|p| - 1] == p[0] || p[|p| - 1] in Nodes(edges)
    decreases |p|
  {
    if |p| > 1 {
      assert (p[0], p[1]) in edges;
      assert (p[0], p[1]).1 in Nodes(edges);
      PathEndsAtNode(edges, avoid, p[1..]);
    }
  }

  lemma ComponentIsJoined(edges: Edges, b: int, v: int)
    ensures v in Component(edges, b) <==> Joined(edges, {}, b, v)
  {
    if Joined(edges, {}, b, v) {
      var p :| Path(edges, {}, p) && p[0] == b && p[|p| - 1] == v;
      PathEndsAtNode(edges, {}, p);
    }
  }

  // ---------------------------------------------------------------------------
  // Depth-first search with an explicit stack
  // ---------------------------------------------------------------------------

  ghost predicate Closed(edges: Edges, visited0: set<int>, visited: set<int>, pending: set<int>) {
    forall u, v :: (u, v) in edges && u in visited && u !in visited0 ==> v in visited + pending
  }

  lemma {:induction false} ClosedHoldsPath(edges: Edges, visited0: set<int>, visited: set<int>, p: seq<int>)
    requires Closed(edges, visited0, visited, {})
    requires Path(edges, visited0, p) && p[0] in visited
    ensures p[|p| - 1] in visited
    decreases |p|
  {
    if |p| > 1 {
      var u, v := p[0], p[1];
      assert (u, v) in edges && v in visited + {};
      ClosedHoldsPath(edges, visited0, visited, p[1..]);
    }
  }

  /** What the search keeps: nothing unreachable is marked or pending, and nothing is forgotten. */
  ghost predicate Searching(edges: Edges, visited0: set<int>, busId: int, visited: set<int>, pending: set<int>) {
    && visited0 <= visited && busId in visited + pending
    && (forall v :: v in visited + pending ==> v in visited0 || Joined(edges, visited0, busId, v))
    && Closed(edges, visited0, visited, pending)
  }

  ghost function Unvisited(edges: Edges, curr: int, visited: set<int>): set<int> {
    set e | e in edges && e.0 == curr && e.1 !in visited :: e.1
  }

  lemma VisitStep(edges: Edges, visited0: set<int>, busId: int, visited: set<int>, pending: set<int>, curr: int)
    requires Searching(edges, visited0, busId, visited, pending + {curr}) && curr !in visited
    ensures Searching(edges, visited0, busId, visited + {curr},
                      pending + Unvisited(edges, curr, visited + {curr}))
  {
    var found := Unvisited(edges, curr, visited + {curr});
    forall v | v in found
      ensures v in visited0 || Joined(edges, visited0, busId, v)
    {
      assert curr in visited + (pending + {curr});
      if v !in visited0 {
        JoinedStep(edges, visited0, busId, curr, v);
      }
    }
    forall u, v | (u, v) in edges && u in visited + {curr} && u !in visited0
      ensures v in visited + {curr} + (pending + found)
    {
      if u == curr {
        assert (u, v).1 == v;
      } else {
        assert v in visited + (pending + {curr});
      }
    }
    forall v | v in visited + {curr} + (pending + found)
      ensures v in visited0 || Joined(edges, visited0, busId, v)
    {
      assert v in found || v in visited + (pending + {curr});
    }
  }

  lemma SkipStep(edges: Edges, visited0: set<int>, busId: int, visited: set<int>, pending: set<int>, curr: int)
    requires Searching(edges, visited0, busId, visited, pending + {curr}) && curr in visited
    ensures Searching(edges, visited0, busId, visited, pending)
  {
    assert visited + (pending + {curr}) == visited + pending;
  }

  lemma SearchDone(edges: Edges, visited0: set<int>, busId: int, visited: set<int>)
    requires Searching(edges, visited0, busId, visited, {})
    ensures forall v :: v in visited <==> v in visited0 || Joined(edges, visited0, busId, v)
  {
    assert visited + {} == visited;
    forall v | Joined(edges, visited0, busId, v)
      ensures v in visited
    {
      var p :| Path(edges, visited0, p) && p[0] == busId && p[|p| - 1] == v;
      ClosedHoldsPath(edges, visited0, visited, p);
    }
  }

  lemma SearchStarts(edges: Edges, visited0: set<int>, busId: int)
    ensures Searching(edges, visited0, busId, visited0, {busId})
  {
    if busId !in visited0 {
      JoinedSelf(edges, visited0, busId);
    }
  }

  /** Marks what can be reached from busId without passing through a bus marked before. */
  method DfsConnectivity(busId: int, adj: Adjacency, visited0: set<int>) returns (visited: set<int>)
    ensures forall v :: v in visited <==> v in visited0 || Joined(EdgesOf(adj), visited0, busId, v)
  {
    ghost var edges := EdgesOf(adj);
    ghost var universe := Nodes(edges) + {busId};
    visited := visited0;
    var stack := [busId];
    SearchStarts(edges, visited0, busId);
    assert Elements(stack) == {busId};
    while stack != []
      invariant Searching(edges, visited0, busId, visited, Elements(stack))
      invariant Elements(stack) <= universe
      decreases universe - visited, |stack|
    {
      var curr := stack[|stack| - 1];
      PopElements(stack);
      stack := stack[..|stack| - 1];
      if curr in visited {
        SkipStep(edges, visited0, busId, visited, Elements(stack), curr);
        continue;
      }
      VisitStep(edges, visited0, busId, visited, Elements(stack), curr);
      visited := visited + {curr};
      stack := PushNeighbours(adj, curr, visited, stack);
    }
    assert Elements(stack) == {};
    SearchDone(edges, visited0, busId, visited);
  }

  lemma PopElements(s: seq<int>)
    requires s != []
    ensures Elements(s) == Elements(s[..|s| - 1]) + {s[|s| - 1]}
  {
    assert s == s[..|s| - 1] + [s[|s| - 1]];
  }

  /** The inner loop: every neighbour not yet visited goes on the stack, duplicates included. */
  method PushNeighbours(adj: Adjacency, curr: int, visited: set<int>, stack0: seq<int>) returns (stack: seq<int>)
    ensures Elements(stack) == Elements(stack0) + Unvisited(EdgesOf(adj), curr, visited)
    ensures Elements(stack) <= Elements(stack0) + Nodes(EdgesOf(adj))
  {
    stack := stack0;
    if curr in adj {
      var ns := adj[curr];
      for i := 0 to |ns|
        invariant Elements(stack) == Elements(stack0) + (Elements(ns[..i]) - visited)
      {
        PopElements(ns[..i + 1]);
        assert ns[..i + 1][..i] == ns[..i];
        if ns[i] !in visited {
          stack := stack + [ns[i]];
          PopElements(stack);
        }
      }
      assert ns[..|ns|] == ns;
      NeighbourSet(adj, curr, visited);
    }
  }

  lemma NeighbourSet(adj: Adjacency, curr: int, visited: set<int>)
    requires curr in adj
    ensures Elements(adj[curr]) - visited == Unvisited(EdgesOf(adj), curr, visited)
  {
    forall v
      ensures v in Elements(adj[curr]) - visited <==> v in Unvisited(EdgesOf(adj), curr, visited)
    {
      if v in Elements(adj[curr]) - visited {
        assert (curr, v) in EdgesOf(adj) && (curr, v).1 == v;
      }
    }
  }

  // ---------------------------------------------------------------------------
  // Islands
  // ---------------------------------------------------------------------------

  /** Every island is the component of one of the buses, and every bus lies in an island. */
  ghost predicate Islands(edges: Edges, buses: seq<int>, seeds: seq<int>, islands: seq<set<int>>) {
    && |seeds| == |islands|
    && (forall i :: 0 <= i < |islands| ==> seeds[i] in buses && islands[i] == Component(edges, seeds[i]))
    && (forall b :: b in buses ==> b in Union(islands))
  }

  ghost function Union(islands: seq<set<int>>): set<int> {
    if islands == [] then {} else Union(islands[..|islands| - 1]) + islands[|islands| - 1]
  }

  lemma {:induction false} UnionCovers(islands: seq<set<int>>, v: int)
    ensures v in Union(islands) <==> Covered(islands, v)
    decreases |islands|
  {
    if islands != [] {
      var n := |islands| - 1;
      UnionCovers(islands[..n], v);
      if v in Union(islands[..n]) {
        var i :| 0 <= i < n && v in islands[..n][i];
        assert v in islands[i];
      }
      if Covered(islands, v) {
        var i :| 0 <= i <= n && v in islands[i];
        assert i < n ==> v in islands[..n][i];
      }
    }
  }

  lemma UnionAdd(islands: seq<set<int>>, island: set<int>)
    ensures Union(islands + [island]) == Union(islands) + island
  {
    assert (islands + [island])[..|islands|] == islands;
  }

  ghost predicate Covered(islands: seq<set<int>>, b: int) {
    exists i :: 0 <= i < |islands| && b in islands[i]
  }

  ghost predicate PairwiseDisjoint(islands: seq<set<int>>) {
    forall i, j :: 0 <= i < j < |islands| ==> islands[i] !! islands[j]
  }

  method FindIslands(adj: Adjacency, buses: seq<int>) returns (islands: seq<set<int>>, ghost seeds: seq<int>)
    ensures Islands(EdgesOf(adj), buses, seeds, islands)
    ensures Symmetric(EdgesOf(adj)) ==> PairwiseDisjoint(islands)
    ensures {} !in islands
  {
    ghost var edges := EdgesOf(adj);
    islands, seeds := [], [];
    var visited: set<int> := {};
    for k := 0 to |buses|
      invariant Islands(edges, buses[..k], seeds, islands)
      invariant visited == Union(islands)
      invariant Symmetric(edges) ==> PairwiseDisjoint(islands)
      invariant {} !in islands
    {
      var b := buses[k];
      assert buses[..k + 1] == buses[..k] + [b];
      if b in visited { continue; }
      var island := DfsConnectivity(b, adj, {});
      IsComponent(edges, b, island);
      UnionAdd(islands, island);
      if Symmetric(edges) {
        NewIslandDisjoint(edges, seeds, islands, b);
      }
      if island != {} {
        islands := islands + [island];
        seeds := seeds + [b];
      }
      visited := visited + island;
    }
    assert buses[..|buses|] == buses;
  }

  lemma IsComponent(edges: Edges, b: int, island: set<int>)
    requires forall v :: v in island <==> v in {} || Joined(edges, {}, b, v)
    ensures island == Component(edges, b) && b in island
  {
    forall v
      ensures v in island <==> v in Component(edges, b)
    {
      ComponentIsJoined(edges, b, v);
    }
    JoinedSelf(edges, {}, b);
  }

  lemma NewIslandDisjoint(edges: Edges, seeds: seq<int>, islands: seq<set<int>>, b: int)
    requires Symmetric(edges) && |seeds| == |islands| && b !in Union(islands)
    requires forall i :: 0 <= i < |islands| ==> islands[i] == Component(edges, seeds[i])
    requires PairwiseDisjoint(islands)
    ensures PairwiseDisjoint(islands + [Component(edges, b)])
  {
    forall i, v | 0 <= i < |islands| && v in islands[i]
      ensures v !in Component(edges, b)
    {
      if v in Component(edges, b) {
        assert v in Component(edges, seeds[i]);
        JoinedSymmetric(edges, {}, b, v);
        JoinedTransitive(edges, {}, seeds[i], v, b);
        ComponentIsJoined(edges, seeds[i], b);
        UnionCovers(islands, b);
        assert false;
      }
    }
  }

  /** Two buses share an island exactly when a path joins them. */
  lemma SameIslandIffJoined(edges: Edges, buses: seq<int>, seeds: seq<int>, islands: seq<set<int>>, b: int, c: int)
    requires Symmetric(edges) && Islands(edges, buses, seeds, islands) && b in buses
    ensures (exists i :: 0 <= i < |islands| && b in islands[i] && c in islands[i]) <==> Joined(edges, {}, b, c)
  {
    forall i | 0 <= i < |islands| && b in islands[i]
      ensures c in islands[i] <==> Joined(edges, {}, b, c)
    {
      ComponentIsJoined(edges, seeds[i], b);
      ComponentIsJoined(edges, seeds[i], c);
      JoinedSymmetric(edges, {}, seeds[i], b);
      if Joined(edges, {}, b, c) {
        JoinedTransitive(edges, {}, seeds[i], b, c);
      }
      if Joined(edges, {}, seeds[i], c) {
        JoinedTransitive(edges, {}, b, seeds[i], c);
      }
    }
    UnionCovers(islands, b);
  }

  lemma SomeIsland(edges: Edges, buses: seq<int>, seeds: seq<int>, islands: seq<set<int>>)
    requires Islands(edges, buses, seeds, islands) && buses != []
    ensures islands != []
  {
    var b := buses[0];
    assert b in buses;
  }

  lemma SeedsAreApart(edges: Edges, b: int, c: int)
    requires Component(edges, b) !! Component(edges, c)
    ensures !Joined(edges, {}, b, c)
  {
    ComponentIsJoined(edges, b, c);
    JoinedSelf(edges, {}, c);
    ComponentIsJoined(edges, c, c);
  }

  /** More than one island is found exactly when some two buses are not joined. */
  lemma ManyIslandsIffApart(edges: Edges, buses: seq<int>, seeds: seq<int>, islands: seq<set<int>>)
    requires Symmetric(edges) && Islands(edges, buses, seeds, islands) && PairwiseDisjoint(islands)
    ensures |islands| > 1 <==> exists b, c :: b in buses && c in buses && !Joined(edges, {}, b, c)
  {
    if |islands| > 1 {
      SeedsAreApart(edges, seeds[0], seeds[1]);
      assert seeds[0] in buses && seeds[1] in buses;
    } else {
      forall b, c | b in buses && c in buses
        ensures Joined(edges, {}, b, c)
      {
        SameIslandIffJoined(edges, buses, seeds, islands, b, c);
        UnionCovers(islands, b);
        UnionCovers(islands, c);
        var i :| 0 <= i < |islands| && b in islands[i];
        var j :| 0 <= j < |islands| && c in islands[j];
        assert i == j == 0;
      }
    }
  }

  // ---- Fewer edges -----------------------------------------------------------

  /** With fewer edges every island lies inside one island of the larger graph. */
  lemma IslandsRefine(small: Edges, large: Edges, buses: seq<int>,
                      seeds: seq<int>, islands: seq<set<int>>, seedsL: seq<int>, islandsL: seq<set<int>>, i: nat)
    requires small <= large && Symmetric(large)
    requires Islands(small, buses, seeds, islands) && Islands(large, buses, seedsL, islandsL)
    requires i < |islands|
    ensures exists j :: 0 <= j < |islandsL| && islands[i] <= islandsL[j]
  {
    var b := seeds[i];
    UnionCovers(islandsL, b);
    var j :| 0 <= j < |islandsL| && b in islandsL[j];
    forall v | v in islands[i]
      ensures v in islandsL[j]
    {
      ComponentIsJoined(small, b, v);
      var p :| Path(small, {}, p) && p[0] == b && p[|p| - 1] == v;
      JoinedGrows(small, large, p);
      assert Joined(large, {}, b, v);
      ComponentIsJoined(large, seedsL[j], b);
      JoinedTransitive(large, {}, seedsL[j], b, v);
      ComponentIsJoined(large, seedsL[j], v);
    }
  }

  /** An injective choice of indices below n is at most n long. */
  lemma {:induction false} Pigeonhole(f: seq<nat>, n: nat)
    requires forall i :: 0 <= i < |f| ==> f[i] < n
    requires forall i, j :: 0 <= i < j < |f| ==> f[i] != f[j]
    ensures |f| <= n
    decreases n
  {
    if f != [] {
      assert f[0] < n;
      if k: nat :| k < |f| && f[k] == n - 1 {
        var g := f[..k] + f[k + 1..];
        Pigeonhole(g, n - 1);
      } else {
        Pigeonhole(f, n - 1);
      }
    }
  }

  /** With fewer edges there are at least as many islands. */
  lemma IslandCountGrows(small: Edges, large: Edges, buses: seq<int>,
                         seeds: seq<int>, islands: seq<set<int>>, seedsL: seq<int>, islandsL: seq<set<int>>)
    requires small <= large && Symmetric(large)
    requires Islands(small, buses, seeds, islands) && Islands(large, buses, seedsL, islandsL)
    requires PairwiseDisjoint(islandsL)
    ensures |islandsL| <= |islands|
  {
    var f := HomeIslands(small, large, buses, seeds, islands, seedsL);
    HomesDiffer(large, seeds, seedsL, f);
    Pigeonhole(f, |islands|);
  }

  /** Some island of the smaller graph has its seed in the component of b. */
  lemma HomeIsland(small: Edges, large: Edges, buses: seq<int>, seeds: seq<int>, islands: seq<set<int>>, b: int)
      returns (i: nat)
    requires small <= large && Symmetric(large) && Islands(small, buses, seeds, islands) && b in buses
    ensures i < |islands| && b in islands[i] && seeds[i] in Component(large, b)
  {
    UnionCovers(islands, b);
    i :| i < |islands| && b in islands[i];
    ComponentIsJoined(small, seeds[i], b);
    var p :| Path(small, {}, p) && p[0] == seeds[i] && p[|p| - 1] == b;
    JoinedGrows(small, large, p);
    assert Joined(large, {}, seeds[i], b);
    JoinedSymmetric(large, {}, seeds[i], b);
    ComponentIsJoined(large, b, seeds[i]);
  }

  /** For each of several buses, an island of the smaller graph with its seed in the component of the bus. */
  lemma {:induction false} HomeIslands(
      small: Edges, large: Edges, buses: seq<int>, seeds: seq<int>, islands: seq<set<int>>, bs: seq<int>)
      returns (f: seq<nat>)
    requires small <= large && Symmetric(large) && Islands(small, buses, seeds, islands)
    requires forall k :: 0 <= k < |bs| ==> bs[k] in buses
    ensures |f| == |bs|
    ensures forall k :: 0 <= k < |f| ==> f[k] < |islands| && seeds[f[k]] in Component(large, bs[k])
    decreases |bs|
  {
    hide Component, Joined, Symmetric;
    if bs == [] {
      f := [];
    } else {
      var n := |bs| - 1;
      var g := HomeIslands(small, large, buses, seeds, islands, bs[..n]);
      var i := HomeIsland(small, large, buses, seeds, islands, bs[n]);
      f := g + [i];
      forall k | 0 <= k < n ensures seeds[f[k]] in Component(large, bs[k]) {
        assert bs[..n][k] == bs[k];
      }
    }
  }

  /** Buses in separate components have different homes. */
  lemma HomesDiffer(large: Edges, seeds: seq<int>, bs: seq<int>, f: seq<nat>)
    requires |f| == |bs| && forall k :: 0 <= k < |f| ==> f[k] < |seeds| && seeds[f[k]] in Component(large, bs[k])
    requires forall k, l :: 0 <= k < l < |bs| ==> Component(large, bs[k]) !! Component(large, bs[l])
    ensures forall k, l :: 0 <= k < l < |f| ==> f[k] != f[l]
  {
    hide Component;
    forall k, l | 0 <= k < l < |f| ensures f[k] != f[l] {
      assert Component(large, bs[k]) !! Component(large, bs[l]);
    }
  }

  // ---- Equal counts ----------------------------------------------------------

  /** The seed of every island of the smaller graph lies in some island of the larger one. */
  lemma {:induction false} LargeIslands(buses: seq<int>, seeds: seq<int>, large: Edges, seedsL: seq<int>, islandsL: seq<set<int>>)
      returns (f: seq<nat>)
    requires Islands(large, buses, seedsL, islandsL) && forall k :: 0 <= k < |seeds| ==> seeds[k] in buses
    ensures |f| == |seeds| && forall k :: 0 <= k < |f| ==> f[k] < |islandsL| && seeds[k] in islandsL[f[k]]
    decreases |seeds|
  {
    hide Component, Joined;
    if seeds == [] {
      f := [];
    } else {
      var n := |seeds| - 1;
      var g := LargeIslands(buses, seeds[..n], large, seedsL, islandsL);
      UnionCovers(islandsL, seeds[n]);
      var j: nat :| j < |islandsL| && seeds[n] in islandsL[j];
      f := g + [j];
      forall k | 0 <= k < n ensures seeds[k] in islandsL[f[k]] {
        assert seeds[..n][k] in islandsL[g[k]];
      }
    }
  }

  ghost predicate SameJoins(small: Edges, large: Edges, buses: seq<int>) {
    forall b, c :: b in buses && c in buses && Joined(large, {}, b, c) ==> Joined(small, {}, b, c)
  }

  /** If the smaller graph joins the same buses, it has no more islands. */
  lemma SameJoinsSameCount(small: Edges, large: Edges, buses: seq<int>,
                           seeds: seq<int>, islands: seq<set<int>>, seedsL: seq<int>, islandsL: seq<set<int>>)
    requires Symmetric(large) && SameJoins(small, large, buses)
    requires Islands(small, buses, seeds, islands) && Islands(large, buses, seedsL, islandsL)
    requires PairwiseDisjoint(islands)
    ensures |islands| <= |islandsL|
  {
    var f := LargeIslands(buses, seeds, large, seedsL, islandsL);
    forall i, j | 0 <= i < j < |f| ensures f[i] != f[j] {
      if f[i] == f[j] {
        var b, c := seeds[i], seeds[j];
        assert b in islandsL[f[i]] && c in islandsL[f[i]];
        SameIslandIffJoined(large, buses, seedsL, islandsL, b, c);
        SeedsAreApart(small, b, c);
      }
    }
    Pigeonhole(f, |islandsL|);
  }

  /** Two buses that only the larger graph joins cost the smaller one an island. */
  lemma ApartCostsIsland(small: Edges, large: Edges, buses: seq<int>, seeds: seq<int>, islands: seq<set<int>>,
                         seedsL: seq<int>, islandsL: seq<set<int>>, b: int, c: int)
    requires small <= large && Symmetric(small) && Symmetric(large)
    requires Islands(small, buses, seeds, islands) && Islands(large, buses, seedsL, islandsL)
    requires PairwiseDisjoint(islandsL)
    requires b in buses && c in buses && Joined(large, {}, b, c) && !Joined(small, {}, b, c)
    ensures |islandsL| < |islands|
  {
    hide Joined;
    var f := HomeIslands(small, large, buses, seeds, islands, seedsL);
    HomesDiffer(large, seeds, seedsL, f);
    var i := HomeIsland(small, large, buses, seeds, islands, b);
    var j := HomeIsland(small, large, buses, seeds, islands, c);
    SameIslandIffJoined(small, buses, seeds, islands, b, c);
    UnionCovers(islandsL, b);
    var home :| 0 <= home < |islandsL| && b in islandsL[home];
    ComponentIsJoined(large, b, seeds[i]);
    ComponentIsJoined(large, c, seeds[j]);
    JoinedTransitive(large, {}, b, c, seeds[j]);
    JoinedStays(large, buses, seedsL, islandsL, home, b, seeds[i]);
    JoinedStays(large, buses, seedsL, islandsL, home, b, seeds[j]);
    var extra := if f[home] == i then j else i;
    forall k | 0 <= k < |f| ensures f[k] != extra {
      assert seeds[f[k]] in islandsL[k];
    }
    Pigeonhole(f + [extra], |islands|);
  }

  lemma JoinedStays(edges: Edges, buses: seq<int>, seeds: seq<int>, islands: seq<set<int>>, i: nat, b: int, c: int)
    requires Islands(edges, buses, seeds, islands) && i < |islands| && b in islands[i] && Joined(edges, {}, b, c)
    ensures c in islands[i]
  {
    ComponentIsJoined(edges, seeds[i], b);
    JoinedTransitive(edges, {}, seeds[i], b, c);
    ComponentIsJoined(edges, seeds[i], c);
  }

  /** The counts agree exactly when the additional edges join no buses that were apart. */
  lemma SameCountIffSameJoins(small: Edges, large: Edges, buses: seq<int>,
                              seeds: seq<int>, islands: seq<set<int>>, seedsL: seq<int>, islandsL: seq<set<int>>)
    requires small <= large && Symmetric(small) && Symmetric(large)
    requires Islands(small, buses, seeds, islands) && Islands(large, buses, seedsL, islandsL)
    requires PairwiseDisjoint(islands) && PairwiseDisjoint(islandsL)
    ensures |islands| == |islandsL| <==> SameJoins(small, large, buses)
  {
    if SameJoins(small, large, buses) {
      SameJoinsSameCount(small, large, buses, seeds, islands, seedsL, islandsL);
      IslandCountGrows(small, large, buses, seeds, islands, seedsL, islandsL);
    } else {
      var b, c :| b in buses && c in buses && Joined(large, {}, b, c) && !Joined(small, {}, b, c);
      ApartCostsIsland(small, large, buses, seeds, islands, seedsL, islandsL, b, c);
    }
  }
}
