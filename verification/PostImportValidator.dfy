/**
 * Post-import validation (io/post_import_validator.cpp).
 *
 * Each validator returns its findings in order. The functions `...Report` say which codes
 * those are; `NothingToReportIffClean` and the lemmas after it say what they mean for the
 * network: dangling references, repeated ids, buses that no path joins.
 */
module PostImportValidator {
  import opened Common
  import opened NetworkData
  import opened NetworkGraph

  // ---------------------------------------------------------------------------
  // Reports
  // ---------------------------------------------------------------------------

  function SeverityOf(c: Code): Severity {
    match c
    case MissingFromBus => Error
    case MissingToBus => Error
    case MissingXfmrBus => Error
    case MissingGenBus => Error
    case MissingLoadBus => Error
    case MissingShuntBus => Error
    case DupBusId => Error
    case NoImporter => Fatal
    case _ => Warning
  }

  /** A list of findings, each with the severity of its code. */
  function Graded(cs: seq<Code>): (errs: seq<ImportError>)
    ensures |errs| == |cs|
    ensures forall i :: 0 <= i < |cs| ==> errs[i] == ImportError(SeverityOf(cs[i]), cs[i])
  {
    seq(|cs|, i requires 0 <= i < |cs| => ImportError(SeverityOf(cs[i]), cs[i]))
  }

  lemma GradedAppend(a: seq<Code>, b: seq<Code>)
    ensures Graded(a + b) == Graded(a) + Graded(b)
  {
  }

  function When(condition: bool, c: Code): seq<Code> {
    if condition then [c] else []
  }

  function Times(n: nat, c: Code): seq<Code> {
    seq(n, _ => c)
  }

  /** What a loop over xs reports when it reports f(x) on each x. */
  ghost function Each<T>(xs: seq<T>, f: T -> seq<Code>): seq<Code> {
    if xs == [] then [] else Each(xs[..|xs| - 1], f) + f(xs[|xs| - 1])
  }

  method CheckEach<T>(xs: seq<T>, f: T -> seq<Code>) returns (cs: seq<Code>)
    ensures cs == Each(xs, f)
  {
    cs := [];
    for i := 0 to |xs|
      invariant cs == Each(xs[..i], f)
    {
      assert xs[..i + 1][..i] == xs[..i];
      cs := cs + f(xs[i]);
    }
    assert xs[..|xs|] == xs;
  }

  lemma {:induction false} EachReports<T>(xs: seq<T>, f: T -> seq<Code>, c: Code)
    ensures c in Each(xs, f) <==> exists x :: x in xs && c in f(x)
    decreases |xs|
  {
    if xs != [] {
      var n := |xs| - 1;
      EachReports(xs[..n], f, c);
      assert xs == xs[..n] + [xs[n]];
    }
  }

  lemma {:induction false} EachSame<T>(xs: seq<T>, f: T -> seq<Code>, g: T -> seq<Code>)
    requires forall x :: x in xs ==> f(x) == g(x)
    ensures Each(xs, f) == Each(xs, g)
    decreases |xs|
  {
    if xs != [] {
      var n := |xs| - 1;
      assert xs == xs[..n] + [xs[n]];
      EachSame(xs[..n], f, g);
    }
  }

  // ---------------------------------------------------------------------------
  // Connectivity
  // ---------------------------------------------------------------------------

  /** The bus ids in file order. */
  function BusIds(buses: seq<Bus>): (ids: seq<int>)
    ensures |ids| == |buses| && forall i :: 0 <= i < |ids| ==> ids[i] == buses[i].id
  {
    seq(|buses|, i requires 0 <= i < |buses| => buses[i].id)
  }

  ghost function Link(u: int, v: int): Edges {
    {(u, v), (v, u)}
  }

  ghost function BranchLinks(br: Branch): Edges {
    if br.status == 1 then Link(br.fromBus, br.toBus) else {}
  }

  ghost function TransformerLinks(t: Transformer, tertiary: bool): Edges {
    if t.status != 1 then {}
    else Link(t.fromBus, t.toBus) +
         (if tertiary && t.tertBus != 0 then Link(t.fromBus, t.tertBus) + Link(t.toBus, t.tertBus) else {})
  }

  /** The in-service connections, with or without tertiary windings. */
  ghost function Links(brs: seq<Branch>, ts: seq<Transformer>, tertiary: bool): Edges {
    (set br, e | br in brs && e in BranchLinks(br) :: e) +
    (set t, e | t in ts && e in TransformerLinks(t, tertiary) :: e)
  }

  ghost function NetworkLinks(data: PowerSystemData): Edges {
    Links(data.branches, data.transformers, true)
  }

  ghost function ReportLinks(data: PowerSystemData): Edges {
    Links(data.branches, data.transformers, false)
  }

  lemma LinksSymmetric(brs: seq<Branch>, ts: seq<Transformer>, tertiary: bool)
    ensures Symmetric(Links(brs, ts, tertiary))
  {
    forall u, v | (u, v) in Links(brs, ts, tertiary)
      ensures (v, u) in Links(brs, ts, tertiary)
    {
      if br :| br in brs && (u, v) in BranchLinks(br) {
        assert (v, u) in BranchLinks(br);
      } else {
        var t :| t in ts && (u, v) in TransformerLinks(t, tertiary);
        assert (v, u) in TransformerLinks(t, tertiary);
      }
    }
  }

  lemma LinksAddBranch(brs: seq<Branch>, br: Branch, ts: seq<Transformer>, tertiary: bool)
    ensures Links(brs + [br], ts, tertiary) == Links(brs, ts, tertiary) + BranchLinks(br)
  {
    assert forall b :: b in brs + [br] <==> b in brs || b == br;
  }

  lemma LinksAddTransformer(brs: seq<Branch>, ts: seq<Transformer>, t: Transformer, tertiary: bool)
    ensures Links(brs, ts + [t], tertiary) == Links(brs, ts, tertiary) + TransformerLinks(t, tertiary)
  {
    assert forall x :: x in ts + [t] <==> x in ts || x == t;
  }

  /** Appending to the entry of u, which is created when it is missing. */
  function Push(adj: Adjacency, u: int, v: int): Adjacency {
    adj[u := (if u in adj then adj[u] else []) + [v]]
  }

  lemma PushEdge(adj: Adjacency, u: int, v: int)
    ensures EdgesOf(Push(adj, u, v)) == EdgesOf(adj) + {(u, v)}
  {
    var more := Push(adj, u, v);
    forall a, b
      ensures (a, b) in EdgesOf(more) <==> (a, b) in EdgesOf(adj) || (a, b) == (u, v)
    {
      assert (a, b) in EdgesOf(more) <==> a in more && b in more[a];
    }
  }

  method AddLink(adj0: Adjacency, u: int, v: int) returns (adj: Adjacency)
    ensures EdgesOf(adj) == EdgesOf(adj0) + Link(u, v)
    ensures adj0.Keys <= adj.Keys
  {
    PushEdge(adj0, u, v);
    adj := Push(adj0, u, v);
    PushEdge(adj, v, u);
    adj := Push(adj, v, u);
  }

  /** The adjacency lists: of the validator with tertiary windings, of the report without. */
  method BuildAdjacency(data: PowerSystemData, tertiary: bool) returns (adj: Adjacency)
    ensures EdgesOf(adj) == Links(data.branches, data.transformers, tertiary)
    ensures forall b :: b in data.buses ==> b.id in adj
  {
    adj := map[];
    for i := 0 to |data.buses|
      invariant EdgesOf(adj) == {}
      invariant forall b :: b in data.buses[..i] ==> b.id in adj
    {
      adj := adj[data.buses[i].id := []];
    }
    assert data.buses[..|data.buses|] == data.buses;
    var brs := data.branches;
    for i := 0 to |brs|
      invariant EdgesOf(adj) == Links(brs[..i], [], tertiary)
      invariant forall b :: b in data.buses ==> b.id in adj
    {
      LinksAddBranch(brs[..i], brs[i], [], tertiary);
      assert brs[..i + 1] == brs[..i] + [brs[i]];
      if brs[i].status == 1 {
        adj := AddLink(adj, brs[i].fromBus, brs[i].toBus);
      }
    }
    assert brs[..|brs|] == brs;
    var ts := data.transformers;
    for i := 0 to |ts|
      invariant EdgesOf(adj) == Links(brs, ts[..i], tertiary)
      invariant forall b :: b in data.buses ==> b.id in adj
    {
      LinksAddTransformer(brs, ts[..i], ts[i], tertiary);
      assert ts[..i + 1] == ts[..i] + [ts[i]];
      adj := AddTransformer(adj, ts[i], tertiary);
    }
    assert ts[..|ts|] == ts;
  }

  method AddTransformer(adj0: Adjacency, t: Transformer, tertiary: bool) returns (adj: Adjacency)
    ensures EdgesOf(adj) == EdgesOf(adj0) + TransformerLinks(t, tertiary)
    ensures adj0.Keys <= adj.Keys
  {
    adj := adj0;
    if t.status == 1 {
      adj := AddLink(adj, t.fromBus, t.toBus);
      if tertiary && t.tertBus != 0 {
        adj := AddLink(adj, t.fromBus, t.tertBus);
        adj := AddLink(adj, t.toBus, t.tertBus);
      }
    }
  }

  function BranchEnds(ids: set<int>): Branch -> seq<Code> {
    (br: Branch) => When(br.fromBus !in ids, MissingFromBus) + When(br.toBus !in ids, MissingToBus)
  }

  function TransformerEnds(ids: set<int>): Transformer -> seq<Code> {
    (t: Transformer) =>
      When(t.fromBus !in ids, MissingXfmrBus) + When(t.toBus !in ids, MissingXfmrBus) +
      When(t.tertBus != 0 && t.tertBus !in ids, MissingXfmrBus)
  }

  function GeneratorBus(ids: set<int>): Generator -> seq<Code> {
    (g: Generator) => When(g.busId !in ids, MissingGenBus)
  }

  function LoadBus(ids: set<int>): Load -> seq<Code> {
    (ld: Load) => When(ld.busId !in ids, MissingLoadBus)
  }

  function ShuntBus(ids: set<int>): Shunt -> seq<Code> {
    (s: Shunt) => When(s.busId !in ids, MissingShuntBus)
  }

  ghost function ReferenceReport(data: PowerSystemData, ids: set<int>): seq<Code> {
    Each(data.branches, BranchEnds(ids)) + Each(data.transformers, TransformerEnds(ids)) +
    Each(data.generators, GeneratorBus(ids)) + Each(data.loads, LoadBus(ids)) + Each(data.shunts, ShuntBus(ids))
  }

  /** Some two buses of the network are not joined by in-service connections. */
  ghost predicate Split(edges: Edges, ids: seq<int>) {
    exists b, c :: b in ids && c in ids && !Joined(edges, {}, b, c)
  }

  /** No connection ends at the bus. */
  ghost predicate Bare(edges: Edges, b: int) {
    forall v :: (b, v) !in edges
  }

  predicate Idle(data: PowerSystemData, b: int) {
    (forall g :: g in data.generators ==> g.busId != b) && (forall ld :: ld in data.loads ==> ld.busId != b)
  }

  ghost function Isolation(data: PowerSystemData, edges: Edges): Bus -> seq<Code> {
    (b: Bus) => When(Bare(edges, b.id) && Idle(data, b.id), IsolatedBus)
  }

  function EmptyList(data: PowerSystemData, adj: Adjacency): Bus -> seq<Code> {
    (b: Bus) => When(b.id in adj && adj[b.id] == [] && Idle(data, b.id), IsolatedBus)
  }

  lemma EmptyListIsIsolation(data: PowerSystemData, adj: Adjacency, b: Bus)
    requires b.id in adj
    ensures EmptyList(data, adj)(b) == Isolation(data, EdgesOf(adj))(b)
  {
    if adj[b.id] != [] {
      EdgeIff(adj, b.id, adj[b.id][0]);
    }
  }

  ghost function ConnectivityReport(data: PowerSystemData): seq<Code> {
    var ids := BusIds(data.buses);
    if data.buses == [] then [NoBuses]
    else
      ReferenceReport(data, set id | id in ids) + IslandReport(data)
  }

  ghost function IslandReport(data: PowerSystemData): seq<Code> {
    When(Split(NetworkLinks(data), BusIds(data.buses)), MultipleIslands) +
    Each(data.buses, Isolation(data, NetworkLinks(data)))
  }

  method CheckReferences(data: PowerSystemData, ids: set<int>) returns (cs: seq<Code>)
    ensures cs == ReferenceReport(data, ids)
  {
    var branches := CheckEach(data.branches, BranchEnds(ids));
    var transformers := CheckEach(data.transformers, TransformerEnds(ids));
    var generators := CheckEach(data.generators, GeneratorBus(ids));
    var loads := CheckEach(data.loads, LoadBus(ids));
    var shunts := CheckEach(data.shunts, ShuntBus(ids));
    cs := branches + transformers + generators + loads + shunts;
  }

  method CheckIslands(adj: Adjacency, ids: seq<int>) returns (cs: seq<Code>)
    requires ids != [] && Symmetric(EdgesOf(adj))
    ensures cs == When(Split(EdgesOf(adj), ids), MultipleIslands)
  {
    var islands, seeds := FindIslands(adj, ids);
    ManyIslandsIffApart(EdgesOf(adj), ids, seeds, islands);
    SomeIsland(EdgesOf(adj), ids, seeds, islands);
    cs := if |islands| == 0 then [Disconnected] else When(|islands| > 1, MultipleIslands);
  }

  method ValidateConnectivity(data: PowerSystemData) returns (errs: seq<ImportError>)
    ensures errs == Graded(ConnectivityReport(data))
  {
    if data.buses == [] {
      return Graded([NoBuses]);
    }
    var ids := BusIds(data.buses);
    var adj := BuildAdjacency(data, true);
    LinksSymmetric(data.branches, data.transformers, true);
    var references := CheckReferences(data, set id | id in ids);
    var islands := CheckIslands(adj, ids);
    forall b | b in data.buses
      ensures EmptyList(data, adj)(b) == Isolation(data, EdgesOf(adj))(b)
    {
      EmptyListIsIsolation(data, adj, b);
    }
    EachSame(data.buses, EmptyList(data, adj), Isolation(data, EdgesOf(adj)));
    var isolated := CheckEach(data.buses, EmptyList(data, adj));
    errs := Graded(references + (islands + isolated));
  }

  // ---------------------------------------------------------------------------
  // Consistency
  // ---------------------------------------------------------------------------

  /** The elements that occur more than once. */
  ghost function Repeated<T>(s: seq<T>): set<T> {
    set x | x in s && multiset(s)[x] > 1
  }

  /** Tallies the ids and reports every id counted more than once. */
  method CheckRepeatedIds(ids: seq<int>) returns (cs: seq<Code>)
    ensures cs == Times(|Repeated(ids)|, DupBusId)
  {
    var counts: map<int, nat> := map[];
    for i := 0 to |ids|
      invariant forall id :: id in counts <==> id in ids[..i]
      invariant forall id :: id in counts ==> counts[id] == multiset(ids[..i])[id]
    {
      assert ids[..i + 1] == ids[..i] + [ids[i]];
      counts := counts[ids[i] := (if ids[i] in counts then counts[ids[i]] else 0) + 1];
    }
    assert ids[..|ids|] == ids;
    forall id
      ensures id in AboveOne(counts, counts.Keys) <==> id in Repeated(ids)
    {
      assert multiset(ids)[id] > 0 <==> id in ids;
    }
    assert AboveOne(counts, counts.Keys) == Repeated(ids);
    cs := ReportAboveOne(counts);
  }

  ghost function AboveOne(counts: map<int, nat>, ids: set<int>): set<int> {
    set id | id in ids && id in counts && counts[id] > 1
  }

  method ReportAboveOne(counts: map<int, nat>) returns (cs: seq<Code>)
    ensures cs == Times(|AboveOne(counts, counts.Keys)|, DupBusId)
  {
    cs := [];
    var left := counts.Keys;
    while left != {}
      invariant left <= counts.Keys
      invariant cs == Times(|AboveOne(counts, counts.Keys - left)|, DupBusId)
      decreases left
    {
      var id := AnyKey(left);
      AboveOneStep(counts, left, id);
      if counts[id] > 1 {
        cs := cs + [DupBusId];
      }
      left := left - {id};
    }
    assert counts.Keys - left == counts.Keys;
  }

  lemma AboveOneStep(counts: map<int, nat>, left: set<int>, id: int)
    requires left <= counts.Keys && id in left
    ensures |AboveOne(counts, counts.Keys - (left - {id}))| ==
            |AboveOne(counts, counts.Keys - left)| + (if counts[id] > 1 then 1 else 0)
  {
    var was, now := AboveOne(counts, counts.Keys - left), AboveOne(counts, counts.Keys - (left - {id}));
    assert id !in was;
    if counts[id] > 1 {
      assert now == was + {id};
    } else {
      assert now == was;
    }
  }

  function BusValues(): Bus -> seq<Code> {
    (b: Bus) => When(b.baseVoltage <= 0.0, ZeroBaseKv)
  }

  function Ratings(): Branch -> seq<Code> {
    (br: Branch) => When(br.rateA < 0.0, NegRate)
  }

  function BranchStatus(): Branch -> seq<Code> {
    (br: Branch) => When(br.status != 0 && br.status != 1, InvalidStatus)
  }

  function GeneratorStatus(): Generator -> seq<Code> {
    (g: Generator) => When(g.status != 0 && g.status != 1, InvalidStatus)
  }

  ghost function ConsistencyReport(data: PowerSystemData): seq<Code> {
    Times(|Repeated(BusIds(data.buses))|, DupBusId) + ValueReport(data)
  }

  ghost function ValueReport(data: PowerSystemData): seq<Code> {
    Each(data.buses, BusValues()) + Each(data.branches, Ratings()) +
    Each(data.branches, BranchStatus()) + Each(data.generators, GeneratorStatus())
  }

  method ValidateConsistency(data: PowerSystemData) returns (errs: seq<ImportError>)
    ensures errs == Graded(ConsistencyReport(data))
  {
    var repeated := CheckRepeatedIds(BusIds(data.buses));
    var voltages := CheckEach(data.buses, BusValues());
    var ratings := CheckEach(data.branches, Ratings());
    var branchStatus := CheckEach(data.branches, BranchStatus());
    var generatorStatus := CheckEach(data.generators, GeneratorStatus());
    errs := Graded(repeated + (voltages + ratings + branchStatus + generatorStatus));
  }

  // ---------------------------------------------------------------------------
  // Electrical parameters
  // ---------------------------------------------------------------------------

  function Abs(x: real): real {
    if x < 0.0 then -x else x
  }

  function Impedance(): Branch -> seq<Code> {
    (br: Branch) =>
      When(Abs(br.r) < 0.0000000001 && Abs(br.x) < 0.0000000001, ZeroImpedance) +
      When(br.r < 0.0, NegResistance) + When(Abs(br.x) > 10.0, LargeReactance)
  }

  function Windings(): Transformer -> seq<Code> {
    (t: Transformer) => When(t.windV1 <= 0.0 || t.windV2 <= 0.0, ZeroWindV) + When(t.rateA <= 0.0, ZeroRating)
  }

  function Limits(): Generator -> seq<Code> {
    (g: Generator) =>
      When(g.pMax < g.pMin, InvalidPLimits) + When(g.qMax < g.qMin, InvalidQLimits) + When(g.vSet <= 0.0, InvalidVSet)
  }

  ghost function ElectricalReport(data: PowerSystemData): seq<Code> {
    Each(data.branches, Impedance()) + Each(data.transformers, Windings()) + Each(data.generators, Limits())
  }

  method ValidateElectrical(data: PowerSystemData) returns (errs: seq<ImportError>)
    ensures errs == Graded(ElectricalReport(data))
  {
    var branches := CheckEach(data.branches, Impedance());
    var transformers := CheckEach(data.transformers, Windings());
    var generators := CheckEach(data.generators, Limits());
    errs := Graded(branches + transformers + generators);
  }

  // ---------------------------------------------------------------------------
  // Topology
  // ---------------------------------------------------------------------------

  type CircuitKey = ((int, int), string)

  /** The unordered pair of ends and the circuit id: what tells parallel branches apart. */
  function Circuit(br: Branch): CircuitKey {
    (if br.fromBus <= br.toBus then (br.fromBus, br.toBus) else (br.toBus, br.fromBus), br.circuitId)
  }

  function Circuits(brs: seq<Branch>): (cs: seq<CircuitKey>)
    ensures |cs| == |brs| && forall i :: 0 <= i < |cs| ==> cs[i] == Circuit(brs[i])
  {
    seq(|brs|, i requires 0 <= i < |brs| => Circuit(brs[i]))
  }

  /** Inserts the ids into a set and notices one that was there already. */
  method HasDuplicate(ckts: seq<string>) returns (dup: bool)
    ensures dup <==> HasRepeat(ckts)
  {
    var seen: set<string> := {};
    dup := false;
    for i := 0 to |ckts|
      invariant forall c :: c in seen <==> multiset(ckts[..i])[c] > 0
      invariant dup <==> HasRepeat(ckts[..i])
    {
      var c := ckts[i];
      ghost var was := multiset(ckts[..i]);
      assert ckts[..i + 1] == ckts[..i] + [c];
      ghost var now := multiset(ckts[..i + 1]);
      assert now == was + multiset{c};
      assert forall d :: d != c ==> now[d] == was[d];
      if c in seen {
        dup := true;
        assert now[c] > 1;
      } else {
        assert now[c] == 1;
      }
      seen := seen + {c};
    }
    assert ckts[..|ckts|] == ckts;
  }

  type CircuitTable = map<(int, int), seq<string>>

  function Entry(table: CircuitTable, key: (int, int)): seq<string> {
    if key in table then table[key] else []
  }

  function AddCircuit(table: CircuitTable, x: CircuitKey): CircuitTable {
    table[x.0 := Entry(table, x.0) + [x.1]]
  }

  lemma CountAppend<T>(s: seq<T>, x: T, y: T)
    ensures multiset(s + [x])[y] == multiset(s)[y] + (if x == y then 1 else 0)
  {
  }

  ghost function TableOf(cs: seq<CircuitKey>): CircuitTable {
    if cs == [] then map[] else AddCircuit(TableOf(cs[..|cs| - 1]), cs[|cs| - 1])
  }

  /** The table lists, under each pair of ends, the circuit ids with their multiplicities. */
  lemma {:induction false} TableCounts(cs: seq<CircuitKey>, key: (int, int), c: string)
    ensures multiset(Entry(TableOf(cs), key))[c] == multiset(cs)[(key, c)]
    decreases |cs|
  {
    if cs != [] {
      var n := |cs| - 1;
      var x := cs[n];
      TableCounts(cs[..n], key, c);
      CountAppend(cs[..n], x, (key, c));
      assert cs == cs[..n] + [x];
      if key == x.0 {
        CountAppend(Entry(TableOf(cs[..n]), key), x.1, c);
      }
    }
  }

  method TabulateCircuits(brs: seq<Branch>) returns (table: CircuitTable)
    ensures table == TableOf(Circuits(brs))
  {
    table := map[];
    var cs := Circuits(brs);
    for i := 0 to |cs|
      invariant table == TableOf(cs[..i])
    {
      assert cs[..i + 1][..i] == cs[..i];
      table := AddCircuit(table, cs[i]);
    }
    assert cs[..|cs|] == cs;
  }

  ghost predicate HasRepeat(s: seq<string>) {
    exists c :: multiset(s)[c] > 1
  }

  lemma CountAtMostLength<T>(s: seq<T>, c: T)
    ensures multiset(s)[c] <= |s|
  {
    assert |multiset(s)| == |s|;
  }

  /** The pairs of ends between which some circuit id repeats. */
  ghost function ClashingPairs(cs: seq<CircuitKey>): set<(int, int)> {
    set x | x in Repeated(cs) :: x.0
  }

  lemma ClashingPair(cs: seq<CircuitKey>, key: (int, int))
    ensures key in ClashingPairs(cs) <==> HasRepeat(Entry(TableOf(cs), key))
  {
    var ckts := Entry(TableOf(cs), key);
    if key in ClashingPairs(cs) {
      var x :| x in Repeated(cs) && x.0 == key;
      TableCounts(cs, key, x.1);
      assert multiset(ckts)[x.1] > 1;
    }
    if HasRepeat(ckts) {
      var c :| multiset(ckts)[c] > 1;
      TableCounts(cs, key, c);
      assert (key, c) in cs && (key, c) in Repeated(cs) && (key, c).0 == key;
    }
  }

  method CheckParallel(brs: seq<Branch>) returns (found: seq<Code>)
    ensures found == Times(|ClashingPairs(Circuits(brs))|, DupCircuitId)
  {
    var table := TabulateCircuits(brs);
    forall key
      ensures key in ClashingPairs(Circuits(brs)) <==> key in Clashing(table, table.Keys)
    {
      ClashingPair(Circuits(brs), key);
      ShortHasNoRepeat([]);
    }
    assert ClashingPairs(Circuits(brs)) == Clashing(table, table.Keys);
    found := ReportClashes(table);
  }

  ghost function Clashing(table: CircuitTable, keys: set<(int, int)>): set<(int, int)> {
    set key | key in keys && key in table && HasRepeat(table[key])
  }

  method ReportClashes(table: CircuitTable) returns (found: seq<Code>)
    ensures found == Times(|Clashing(table, table.Keys)|, DupCircuitId)
  {
    found := [];
    var left := table.Keys;
    while left != {}
      invariant left <= table.Keys
      invariant found == Times(|Clashing(table, table.Keys - left)|, DupCircuitId)
      decreases left
    {
      var key := AnyKey(left);
      ClashingStep(table, left, key);
      var dup := false;
      if |table[key]| > 1 {
        dup := HasDuplicate(table[key]);
      } else {
        ShortHasNoRepeat(table[key]);
      }
      if dup {
        found := found + [DupCircuitId];
      }
      left := left - {key};
    }
    assert table.Keys - left == table.Keys;
  }

  lemma ClashingStep(table: CircuitTable, left: set<(int, int)>, key: (int, int))
    requires left <= table.Keys && key in left
    ensures |Clashing(table, table.Keys - (left - {key}))| ==
            |Clashing(table, table.Keys - left)| + (if HasRepeat(table[key]) then 1 else 0)
  {
    var was, now := Clashing(table, table.Keys - left), Clashing(table, table.Keys - (left - {key}));
    assert key !in was;
    if HasRepeat(table[key]) {
      assert now == was + {key};
    } else {
      assert now == was;
    }
  }

  lemma ShortHasNoRepeat(s: seq<string>)
    requires |s| <= 1
    ensures !HasRepeat(s)
  {
    forall c
      ensures multiset(s)[c] <= 1
    {
      CountAtMostLength(s, c);
    }
  }

  function SelfLoops(): Branch -> seq<Code> {
    (br: Branch) => When(br.fromBus == br.toBus && br.fromBus != 0, SelfLoop)
  }

  function Tertiaries(): Transformer -> seq<Code> {
    (t: Transformer) =>
      if t.tertBus == 0 then []
      else When(t.fromBus == t.tertBus || t.toBus == t.tertBus, DupWinding) + When(t.windV3 <= 0.0, ZeroTertV)
  }

  ghost function TopologyReport(data: PowerSystemData): seq<Code> {
    Each(data.branches, SelfLoops()) +
    Times(|ClashingPairs(Circuits(data.branches))|, DupCircuitId) +
    Each(data.transformers, Tertiaries())
  }

  method ValidateTopology(data: PowerSystemData) returns (errs: seq<ImportError>)
    ensures errs == Graded(TopologyReport(data))
  {
    var loops := CheckEach(data.branches, SelfLoops());
    var parallel := CheckParallel(data.branches);
    var tertiaries := CheckEach(data.transformers, Tertiaries());
    errs := Graded(loops + parallel + tertiaries);
  }

  // ---------------------------------------------------------------------------
  // The whole validation
  // ---------------------------------------------------------------------------

  ghost function ValidationReport(data: PowerSystemData): seq<Code> {
    ConnectivityReport(data) + ConsistencyReport(data) + ElectricalReport(data) + TopologyReport(data)
  }

  method Validate(data: PowerSystemData) returns (errs: seq<ImportError>)
    ensures errs == Graded(ValidationReport(data))
  {
    var connectivity := ValidateConnectivity(data);
    var consistency := ValidateConsistency(data);
    var electrical := ValidateElectrical(data);
    var topology := ValidateTopology(data);
    GradedAppend(ConnectivityReport(data), ConsistencyReport(data));
    GradedAppend(ConnectivityReport(data) + ConsistencyReport(data), ElectricalReport(data));
    GradedAppend(ConnectivityReport(data) + ConsistencyReport(data) + ElectricalReport(data), TopologyReport(data));
    errs := connectivity + consistency + electrical + topology;
  }

  // ---------------------------------------------------------------------------
  // What the report means
  // ---------------------------------------------------------------------------

  ghost predicate IsBus(data: PowerSystemData, id: int) {
    exists b :: b in data.buses && b.id == id
  }

  /** Every element refers to buses of the network. */
  ghost predicate ReferencesHold(data: PowerSystemData) {
    && (forall br :: br in data.branches ==> IsBus(data, br.fromBus) && IsBus(data, br.toBus))
    && (forall t :: t in data.transformers ==>
          IsBus(data, t.fromBus) && IsBus(data, t.toBus) && (t.tertBus != 0 ==> IsBus(data, t.tertBus)))
    && (forall g :: g in data.generators ==> IsBus(data, g.busId))
    && (forall ld :: ld in data.loads ==> IsBus(data, ld.busId))
    && (forall s :: s in data.shunts ==> IsBus(data, s.busId))
  }

  ghost predicate DistinctBusIds(data: PowerSystemData) {
    forall i, j :: 0 <= i < j < |data.buses| ==> data.buses[i].id != data.buses[j].id
  }

  /** Any two buses are joined by a path of in-service branches and transformer windings. */
  ghost predicate Connected(data: PowerSystemData) {
    forall b, c :: b in data.buses && c in data.buses ==> Joined(NetworkLinks(data), {}, b.id, c.id)
  }

  /** Two branches between the same buses have different circuit ids. */
  ghost predicate DistinctCircuits(data: PowerSystemData) {
    forall i, j :: 0 <= i < j < |data.branches| ==> Circuit(data.branches[i]) != Circuit(data.branches[j])
  }

  /** What the four groups of checks ask for. */
  ghost predicate ConnectivityClean(data: PowerSystemData) {
    && data.buses != [] && ReferencesHold(data) && Connected(data)
    && (forall b :: b in data.buses ==> !(Bare(NetworkLinks(data), b.id) && Idle(data, b.id)))
  }

  ghost predicate ConsistencyClean(data: PowerSystemData) {
    && DistinctBusIds(data) && (forall b :: b in data.buses ==> b.baseVoltage > 0.0)
    && (forall br :: br in data.branches ==> br.rateA >= 0.0 && (br.status == 0 || br.status == 1))
    && (forall g :: g in data.generators ==> g.status == 0 || g.status == 1)
  }

  ghost predicate ElectricalClean(data: PowerSystemData) {
    && (forall br :: br in data.branches ==>
          (Abs(br.r) >= 0.0000000001 || Abs(br.x) >= 0.0000000001) && br.r >= 0.0 && Abs(br.x) <= 10.0)
    && (forall t :: t in data.transformers ==> t.windV1 > 0.0 && t.windV2 > 0.0 && t.rateA > 0.0)
    && (forall g :: g in data.generators ==> g.pMin <= g.pMax && g.qMin <= g.qMax && g.vSet > 0.0)
  }

  ghost predicate TopologyClean(data: PowerSystemData) {
    && DistinctCircuits(data)
    && (forall br :: br in data.branches ==> (br.fromBus == br.toBus ==> br.fromBus == 0))
    && (forall t :: t in data.transformers ==>
          (t.tertBus != 0 ==> t.fromBus != t.tertBus && t.toBus != t.tertBus && t.windV3 > 0.0))
  }

  ghost predicate Clean(data: PowerSystemData) {
    ConnectivityClean(data) && ConsistencyClean(data) && ElectricalClean(data) && TopologyClean(data)
  }

  lemma {:induction false} EachEmpty<T>(xs: seq<T>, f: T -> seq<Code>)
    ensures Each(xs, f) == [] <==> forall x :: x in xs ==> f(x) == []
    decreases |xs|
  {
    if xs != [] {
      var n := |xs| - 1;
      EachEmpty(xs[..n], f);
      assert xs == xs[..n] + [xs[n]];
    }
  }

  lemma {:induction false} NoRepeats<T>(s: seq<T>)
    ensures Repeated(s) == {} <==> forall i, j :: 0 <= i < j < |s| ==> s[i] != s[j]
    decreases |s|
  {
    if s != [] {
      var n := |s| - 1;
      var x, front := s[n], s[..n];
      assert s == front + [x];
      NoRepeats(front);
      assert multiset(s) == multiset(front) + multiset{x};
      if x in front {
        assert x in Repeated(s);
        var i :| 0 <= i < n && front[i] == x;
        assert s[i] == s[n];
      } else {
        assert Repeated(s) == Repeated(front);
        assert forall i :: 0 <= i < n ==> front[i] == s[i];
      }
    }
  }

  lemma BusIdsHold(data: PowerSystemData, id: int)
    ensures id in BusIds(data.buses) <==> IsBus(data, id)
  {
    if id in BusIds(data.buses) {
      var i :| 0 <= i < |data.buses| && BusIds(data.buses)[i] == id;
      assert data.buses[i] in data.buses;
    }
    if IsBus(data, id) {
      var b :| b in data.buses && b.id == id;
      var i :| 0 <= i < |data.buses| && data.buses[i] == b;
      assert BusIds(data.buses)[i] == id;
    }
  }

  ghost function IdSet(data: PowerSystemData): set<int> {
    set id | id in BusIds(data.buses)
  }

  ghost predicate NamesBuses(data: PowerSystemData, ids: set<int>) {
    forall id :: id in ids <==> IsBus(data, id)
  }

  lemma BranchEndsIff(data: PowerSystemData, ids: set<int>)
    requires NamesBuses(data, ids)
    ensures Each(data.branches, BranchEnds(ids)) == [] <==>
            forall br :: br in data.branches ==> IsBus(data, br.fromBus) && IsBus(data, br.toBus)
  {
    EachEmpty(data.branches, BranchEnds(ids));
  }

  lemma TransformerEndsIff(data: PowerSystemData, ids: set<int>)
    requires NamesBuses(data, ids)
    ensures Each(data.transformers, TransformerEnds(ids)) == [] <==>
            forall t :: t in data.transformers ==>
              IsBus(data, t.fromBus) && IsBus(data, t.toBus) && (t.tertBus != 0 ==> IsBus(data, t.tertBus))
  {
    EachEmpty(data.transformers, TransformerEnds(ids));
  }

  lemma ReferencesIff(data: PowerSystemData)
    ensures ReferenceReport(data, IdSet(data)) == [] <==> ReferencesHold(data)
  {
    var ids := IdSet(data);
    forall id
      ensures id in ids <==> IsBus(data, id)
    {
      BusIdsHold(data, id);
    }
    BranchEndsIff(data, ids);
    TransformerEndsIff(data, ids);
    EachEmpty(data.generators, GeneratorBus(ids));
    EachEmpty(data.loads, LoadBus(ids));
    EachEmpty(data.shunts, ShuntBus(ids));
  }

  lemma ConnectedIff(data: PowerSystemData)
    ensures Connected(data) <==> !Split(NetworkLinks(data), BusIds(data.buses))
  {
    var ids := BusIds(data.buses);
    forall b | b in data.buses
      ensures b.id in ids
    {
      BusIdsHold(data, b.id);
      assert IsBus(data, b.id);
    }
    forall id | id in ids
      ensures IsBus(data, id)
    {
      BusIdsHold(data, id);
    }
  }

  lemma ConnectivityIff(data: PowerSystemData)
    ensures ConnectivityReport(data) == [] <==> ConnectivityClean(data)
  {
    ReferencesIff(data);
    ConnectedIff(data);
    EachEmpty(data.buses, Isolation(data, NetworkLinks(data)));
  }

  lemma ConsistencyIff(data: PowerSystemData)
    ensures ConsistencyReport(data) == [] <==> ConsistencyClean(data)
  {
    hide ValueReport;
    NoRepeats(BusIds(data.buses));
    ValuesIff(data);
  }

  lemma ValuesIff(data: PowerSystemData)
    ensures ValueReport(data) == [] <==>
            (forall b :: b in data.buses ==> b.baseVoltage > 0.0)
            && (forall br :: br in data.branches ==> br.rateA >= 0.0 && (br.status == 0 || br.status == 1))
            && (forall g :: g in data.generators ==> g.status == 0 || g.status == 1)
  {
    EachEmpty(data.buses, BusValues());
    EachEmpty(data.branches, Ratings());
    EachEmpty(data.branches, BranchStatus());
    EachEmpty(data.generators, GeneratorStatus());
  }

  lemma ElectricalIff(data: PowerSystemData)
    ensures ElectricalReport(data) == [] <==> ElectricalClean(data)
  {
    EachEmpty(data.branches, Impedance());
    EachEmpty(data.transformers, Windings());
    EachEmpty(data.generators, Limits());
  }

  lemma NoClashes(cs: seq<CircuitKey>)
    ensures ClashingPairs(cs) == {} <==> Repeated(cs) == {}
  {
    if x :| x in Repeated(cs) {
      assert x.0 in ClashingPairs(cs);
    }
  }

  lemma TopologyIff(data: PowerSystemData)
    ensures TopologyReport(data) == [] <==> TopologyClean(data)
  {
    NoRepeats(Circuits(data.branches));
    NoClashes(Circuits(data.branches));
    EachEmpty(data.branches, SelfLoops());
    EachEmpty(data.transformers, Tertiaries());
  }

  /** The validation reports nothing exactly on clean networks. */
  lemma NothingToReportIffClean(data: PowerSystemData)
    ensures ValidationReport(data) == [] <==> Clean(data)
  {
    ConnectivityIff(data);
    ConsistencyIff(data);
    ElectricalIff(data);
    TopologyIff(data);
    EmptyIffPartsEmpty(ConnectivityReport(data), ConsistencyReport(data), ElectricalReport(data), TopologyReport(data));
  }

  lemma EmptyIffPartsEmpty<T>(a: seq<T>, b: seq<T>, c: seq<T>, d: seq<T>)
    ensures a + b + c + d == [] <==> a == [] && b == [] && c == [] && d == []
  {
  }

  // ---- Errors as opposed to warnings -----------------------------------------

  ghost predicate OnlyWarnings(cs: seq<Code>) {
    forall c :: c in cs ==> SeverityOf(c) == Warning
  }

  lemma EachWarns<T>(xs: seq<T>, f: T -> seq<Code>)
    requires forall x :: x in xs ==> OnlyWarnings(f(x))
    ensures OnlyWarnings(Each(xs, f))
  {
    forall c | c in Each(xs, f)
      ensures SeverityOf(c) == Warning
    {
      EachReports(xs, f, c);
    }
  }

  lemma {:induction false} EachErrs<T>(xs: seq<T>, f: T -> seq<Code>)
    requires forall x, c :: x in xs && c in f(x) ==> SeverityOf(c) == Error
    ensures forall c :: c in Each(xs, f) ==> SeverityOf(c) == Error
  {
    forall c | c in Each(xs, f)
      ensures SeverityOf(c) == Error
    {
      EachReports(xs, f, c);
    }
  }

  ghost predicate OnlyErrors(cs: seq<Code>) {
    forall c :: c in cs ==> SeverityOf(c) == Error
  }

  ghost predicate SomeError(cs: seq<Code>) {
    exists c :: c in cs && SeverityOf(c) == Error
  }

  lemma ReferencesErr(data: PowerSystemData, ids: set<int>)
    ensures OnlyErrors(ReferenceReport(data, ids))
  {
    EachErrs(data.branches, BranchEnds(ids));
    EachErrs(data.transformers, TransformerEnds(ids));
    EachErrs(data.generators, GeneratorBus(ids));
    EachErrs(data.loads, LoadBus(ids));
    EachErrs(data.shunts, ShuntBus(ids));
  }

  lemma SomeErrorInFront(errors: seq<Code>, warnings: seq<Code>)
    requires OnlyErrors(errors) && OnlyWarnings(warnings)
    ensures SomeError(errors + warnings) <==> errors != []
  {
    if errors != [] {
      assert errors[0] in errors && errors[0] in errors + warnings;
    }
  }

  lemma IslandsWarn(data: PowerSystemData)
    ensures OnlyWarnings(IslandReport(data))
  {
    EachWarns(data.buses, Isolation(data, NetworkLinks(data)));
  }

  lemma ConnectivityErrors(data: PowerSystemData)
    ensures SomeError(ConnectivityReport(data)) <==> data.buses != [] && !ReferencesHold(data)
  {
    ReferencesIff(data);
    ReferencesErr(data, IdSet(data));
    IslandsWarn(data);
    SomeErrorInFront(ReferenceReport(data, IdSet(data)), IslandReport(data));
  }

  lemma ValuesWarn(data: PowerSystemData)
    ensures OnlyWarnings(ValueReport(data))
  {
    EachWarns(data.buses, BusValues());
    EachWarns(data.branches, Ratings());
    EachWarns(data.branches, BranchStatus());
    EachWarns(data.generators, GeneratorStatus());
  }

  lemma ConsistencyErrors(data: PowerSystemData)
    ensures SomeError(ConsistencyReport(data)) <==> !DistinctBusIds(data)
  {
    NoRepeats(BusIds(data.buses));
    ValuesWarn(data);
    SomeErrorInFront(Times(|Repeated(BusIds(data.buses))|, DupBusId), ValueReport(data));
  }

  lemma ImpedanceWarns(brs: seq<Branch>)
    ensures OnlyWarnings(Each(brs, Impedance()))
  {
    forall br: Branch ensures OnlyWarnings(Impedance()(br)) {}
    EachWarns(brs, Impedance());
  }

  lemma LimitsWarn(gs: seq<Generator>)
    ensures OnlyWarnings(Each(gs, Limits()))
  {
    forall g: Generator ensures OnlyWarnings(Limits()(g)) {}
    EachWarns(gs, Limits());
  }

  lemma ElectricalWarns(data: PowerSystemData)
    ensures OnlyWarnings(ElectricalReport(data))
  {
    ImpedanceWarns(data.branches);
    EachWarns(data.transformers, Windings());
    LimitsWarn(data.generators);
  }

  lemma TopologyWarns(data: PowerSystemData)
    ensures OnlyWarnings(TopologyReport(data))
  {
    EachWarns(data.branches, SelfLoops());
    EachWarns(data.transformers, Tertiaries());
  }

  /**
   * Something of severity Error is reported exactly when a reference dangles or a bus id repeats;
   * the references of a network without buses are not looked at.
   */
  lemma ErrorsIff(data: PowerSystemData)
    ensures SomeError(ValidationReport(data)) <==>
            data.buses != [] && !(ReferencesHold(data) && DistinctBusIds(data))
  {
    ConnectivityErrors(data);
    ConsistencyErrors(data);
    ElectricalWarns(data);
    TopologyWarns(data);
    SomeErrorInParts(ConnectivityReport(data), ConsistencyReport(data), ElectricalReport(data), TopologyReport(data));
  }

  lemma SomeErrorInParts(a: seq<Code>, b: seq<Code>, c: seq<Code>, d: seq<Code>)
    requires OnlyWarnings(c) && OnlyWarnings(d)
    ensures SomeError(a + b + c + d) <==> SomeError(a) || SomeError(b)
  {
    if SomeError(a) {
      var x :| x in a && SeverityOf(x) == Error;
      assert x in a + b + c + d;
    }
    if SomeError(b) {
      var x :| x in b && SeverityOf(x) == Error;
      assert x in a + b + c + d;
    }
  }

  // ---------------------------------------------------------------------------
  // The summary of generateReport
  // ---------------------------------------------------------------------------

  /** The islands listed in the report: its graph leaves the tertiary windings out. */
  method ReportIslands(data: PowerSystemData) returns (islands: seq<set<int>>, ghost seeds: seq<int>)
    ensures Islands(ReportLinks(data), BusIds(data.buses), seeds, islands) && PairwiseDisjoint(islands)
  {
    var adj := BuildAdjacency(data, false);
    LinksSymmetric(data.branches, data.transformers, false);
    islands, seeds := FindIslands(adj, BusIds(data.buses));
  }

  lemma ReportLinksFewer(data: PowerSystemData)
    ensures ReportLinks(data) <= NetworkLinks(data)
    ensures NoTertiaryInService(data) ==> ReportLinks(data) == NetworkLinks(data)
  {
    forall e | e in ReportLinks(data)
      ensures e in NetworkLinks(data)
    {
      if t :| t in data.transformers && e in TransformerLinks(t, false) {
        assert e in TransformerLinks(t, true);
      }
    }
    if NoTertiaryInService(data) {
      forall e | e in NetworkLinks(data)
        ensures e in ReportLinks(data)
      {
        if t :| t in data.transformers && e in TransformerLinks(t, true) {
          assert e in TransformerLinks(t, false);
        }
      }
    }
  }

  ghost predicate NoTertiaryInService(data: PowerSystemData) {
    forall t :: t in data.transformers && t.status == 1 ==> t.tertBus == 0
  }

  /** Each island of the report lies inside one island of the validation. */
  lemma ReportRefinesValidation(data: PowerSystemData, seeds: seq<int>, islands: seq<set<int>>,
                                seedsV: seq<int>, islandsV: seq<set<int>>, i: nat)
    requires Islands(ReportLinks(data), BusIds(data.buses), seeds, islands)
    requires Islands(NetworkLinks(data), BusIds(data.buses), seedsV, islandsV)
    requires i < |islands|
    ensures exists j :: 0 <= j < |islandsV| && islands[i] <= islandsV[j]
  {
    ReportLinksFewer(data);
    LinksSymmetric(data.branches, data.transformers, true);
    IslandsRefine(ReportLinks(data), NetworkLinks(data), BusIds(data.buses), seeds, islands, seedsV, islandsV, i);
  }

  /**
   * The report never counts fewer islands. It counts as many exactly when the tertiary windings
   * join no buses that are apart without them, so certainly when none is in service.
   */
  lemma ReportCountsMore(data: PowerSystemData, seeds: seq<int>, islands: seq<set<int>>,
                         seedsV: seq<int>, islandsV: seq<set<int>>)
    requires Islands(ReportLinks(data), BusIds(data.buses), seeds, islands) && PairwiseDisjoint(islands)
    requires Islands(NetworkLinks(data), BusIds(data.buses), seedsV, islandsV) && PairwiseDisjoint(islandsV)
    ensures |islandsV| <= |islands|
    ensures |islands| == |islandsV| <==> SameJoins(ReportLinks(data), NetworkLinks(data), BusIds(data.buses))
    ensures NoTertiaryInService(data) ==> |islands| == |islandsV|
  {
    var ids := BusIds(data.buses);
    var small, large := ReportLinks(data), NetworkLinks(data);
    ReportLinksFewer(data);
    LinksSymmetric(data.branches, data.transformers, false);
    LinksSymmetric(data.branches, data.transformers, true);
    IslandCountGrows(small, large, ids, seeds, islands, seedsV, islandsV);
    SameCountIffSameJoins(small, large, ids, seeds, islands, seedsV, islandsV);
  }

  /** Without the tertiary windings, every in-service one joins buses that are joined already. */
  ghost predicate TertiariesAddNothing(data: PowerSystemData) {
    forall t :: t in data.transformers && t.status == 1 && t.tertBus != 0 ==>
                  Joined(ReportLinks(data), {}, t.fromBus, t.tertBus)
  }

  lemma {:induction false} PathJoins(small: Edges, large: Edges, p: seq<int>)
    requires (forall u, v :: (u, v) in large ==> Joined(small, {}, u, v)) && Path(large, {}, p)
    ensures Joined(small, {}, p[0], p[|p| - 1])
    decreases |p|
  {
    if |p| == 1 {
      JoinedSelf(small, {}, p[0]);
    } else {
      PathJoins(small, large, p[1..]);
      JoinedTransitive(small, {}, p[0], p[1], p[|p| - 1]);
    }
  }

  lemma EdgeJoins(edges: Edges, u: int, v: int)
    requires (u, v) in edges
    ensures Joined(edges, {}, u, v)
  {
    JoinedSelf(edges, {}, u);
    JoinedStep(edges, {}, u, u, v);
  }

  /** Then each winding joins buses that the report joins as well. */
  lemma WindingJoins(data: PowerSystemData, t: Transformer, u: int, v: int)
    requires TertiariesAddNothing(data) && t in data.transformers && (u, v) in TransformerLinks(t, true)
    ensures Joined(ReportLinks(data), {}, u, v)
  {
    hide Joined, Symmetric;
    var edges := ReportLinks(data);
    LinksSymmetric(data.branches, data.transformers, false);
    assert (t.fromBus, t.toBus) in TransformerLinks(t, false);
    EdgeJoins(edges, t.fromBus, t.toBus);
    JoinedSymmetric(edges, {}, t.fromBus, t.toBus);
    if t.tertBus != 0 {
      JoinedSymmetric(edges, {}, t.fromBus, t.tertBus);
      JoinedTransitive(edges, {}, t.toBus, t.fromBus, t.tertBus);
      JoinedSymmetric(edges, {}, t.toBus, t.tertBus);
    }
  }

  lemma NetworkEdgeJoins(data: PowerSystemData, u: int, v: int)
    requires TertiariesAddNothing(data) && (u, v) in NetworkLinks(data)
    ensures Joined(ReportLinks(data), {}, u, v)
  {
    if t :| t in data.transformers && (u, v) in TransformerLinks(t, true) {
      WindingJoins(data, t, u, v);
    } else {
      EdgeJoins(ReportLinks(data), u, v);
    }
  }

  /**
   * With all references resolved, report and validation count the same number of islands if and
   * only if the report joins the tertiary bus of every in-service transformer in another way.
   */
  lemma ReportCountsSameIff(data: PowerSystemData, seeds: seq<int>, islands: seq<set<int>>,
                            seedsV: seq<int>, islandsV: seq<set<int>>)
    requires ReferencesHold(data)
    requires Islands(ReportLinks(data), BusIds(data.buses), seeds, islands) && PairwiseDisjoint(islands)
    requires Islands(NetworkLinks(data), BusIds(data.buses), seedsV, islandsV) && PairwiseDisjoint(islandsV)
    ensures |islands| == |islandsV| <==> TertiariesAddNothing(data)
  {
    var ids, small, large := BusIds(data.buses), ReportLinks(data), NetworkLinks(data);
    ReportCountsMore(data, seeds, islands, seedsV, islandsV);
    if TertiariesAddNothing(data) {
      forall u, v | (u, v) in large ensures Joined(small, {}, u, v) { NetworkEdgeJoins(data, u, v); }
      forall b, c | b in ids && c in ids && Joined(large, {}, b, c) ensures Joined(small, {}, b, c) {
        var p :| Path(large, {}, p) && p[0] == b && p[|p| - 1] == c;
        PathJoins(small, large, p);
      }
    }
    if SameJoins(small, large, ids) {
      forall t | t in data.transformers && t.status == 1 && t.tertBus != 0 ensures Joined(small, {}, t.fromBus, t.tertBus) {
        BusIdsHold(data, t.fromBus);
        BusIdsHold(data, t.tertBus);
        assert (t.fromBus, t.tertBus) in TransformerLinks(t, true);
        EdgeJoins(large, t.fromBus, t.tertBus);
      }
    }
  }

  /** Three buses that one three-winding transformer joins. */
  ghost function ThreeWindings(): PowerSystemData {
    PowerSystemData([Bus(1, 110.0), Bus(2, 20.0), Bus(3, 10.0)], [],
                    [Transformer(1, 2, 3, 1, 40.0, 1.0, 1.0, 1.0)], [], [], [])
  }

  lemma ThreeWindingsRefer()
    ensures ReferencesHold(ThreeWindings())
  {
    var data := ThreeWindings();
    assert IsBus(data, 1) by { assert data.buses[0] in data.buses; }
    assert IsBus(data, 2) by { assert data.buses[1] in data.buses; }
    assert IsBus(data, 3) by { assert data.buses[2] in data.buses; }
  }

  lemma ThirdBusIsApart()
    ensures !Joined(ReportLinks(ThreeWindings()), {}, 1, 3)
  {
    var edges := ReportLinks(ThreeWindings());
    assert Closed(edges, {}, {1, 2}, {});
    if Joined(edges, {}, 1, 3) {
      var p :| Path(edges, {}, p) && p[0] == 1 && p[|p| - 1] == 3;
      ClosedHoldsPath(edges, {}, {1, 2}, p);
    }
  }

  /** Here the report counts more islands than the validation. */
  lemma ReportCanCountMore(seeds: seq<int>, islands: seq<set<int>>, seedsV: seq<int>, islandsV: seq<set<int>>)
    requires var data := ThreeWindings();
      && Islands(ReportLinks(data), BusIds(data.buses), seeds, islands) && PairwiseDisjoint(islands)
      && Islands(NetworkLinks(data), BusIds(data.buses), seedsV, islandsV) && PairwiseDisjoint(islandsV)
    ensures |islandsV| < |islands|
  {
    hide Islands, PairwiseDisjoint, ReportLinks, NetworkLinks, BusIds, ReferencesHold, SameJoins, Joined;
    var data := ThreeWindings();
    ThreeWindingsRefer();
    ThirdBusIsApart();
    ReportCountsMore(data, seeds, islands, seedsV, islandsV);
    ReportCountsSameIff(data, seeds, islands, seedsV, islandsV);
    assert data.transformers[0] in data.transformers;
  }
}
