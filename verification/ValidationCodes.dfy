/**
 * Which codes the validation reports, and how often: for every code the number of elements, buses or
 * pairs of buses of the network that it stands for.
 */
module ValidationCodes {
  import opened NetworkData
  import opened NetworkGraph
  import opened PostImportValidator

  ghost function HowMany<T>(xs: seq<T>, p: T -> bool): nat {
    |set i | 0 <= i < |xs| && p(xs[i])|
  }

  function Size(x: real): real {
    if x < 0.0 then -x else x
  }

  /** The bus ids that two buses share. */
  ghost function SharedIds(buses: seq<Bus>): set<int> {
    set i, j | 0 <= i < j < |buses| && buses[i].id == buses[j].id :: buses[i].id
  }

  /** Two branches between the same buses, in either direction, under one circuit id. */
  predicate Parallel(a: Branch, b: Branch) {
    && ((a.fromBus == b.fromBus && a.toBus == b.toBus) || (a.fromBus == b.toBus && a.toBus == b.fromBus))
    && a.circuitId == b.circuitId
  }

  function Ends(br: Branch): (int, int) {
    if br.fromBus <= br.toBus then (br.fromBus, br.toBus) else (br.toBus, br.fromBus)
  }

  /** The pairs of buses with such branches. */
  ghost function ParallelEnds(brs: seq<Branch>): set<(int, int)> {
    set i, j | 0 <= i < j < |brs| && Parallel(brs[i], brs[j]) :: Ends(brs[i])
  }

  // ---- The violations, element by element ------------------------------------

  ghost function NoFromBus(data: PowerSystemData): Branch -> bool {
    (br: Branch) => !IsBus(data, br.fromBus)
  }

  ghost function NoToBus(data: PowerSystemData): Branch -> bool {
    (br: Branch) => !IsBus(data, br.toBus)
  }

  ghost function NoFirstBus(data: PowerSystemData): Transformer -> bool {
    (t: Transformer) => !IsBus(data, t.fromBus)
  }

  ghost function NoSecondBus(data: PowerSystemData): Transformer -> bool {
    (t: Transformer) => !IsBus(data, t.toBus)
  }

  ghost function NoThirdBus(data: PowerSystemData): Transformer -> bool {
    (t: Transformer) => t.tertBus != 0 && !IsBus(data, t.tertBus)
  }

  ghost function NoGeneratorBus(data: PowerSystemData): Generator -> bool {
    (g: Generator) => !IsBus(data, g.busId)
  }

  ghost function NoLoadBus(data: PowerSystemData): Load -> bool {
    (l: Load) => !IsBus(data, l.busId)
  }

  ghost function NoShuntBus(data: PowerSystemData): Shunt -> bool {
    (s: Shunt) => !IsBus(data, s.busId)
  }

  ghost function Alone(data: PowerSystemData): Bus -> bool {
    (b: Bus) => (forall v :: (b.id, v) !in NetworkLinks(data))
                && (forall g :: g in data.generators ==> g.busId != b.id)
                && (forall l :: l in data.loads ==> l.busId != b.id)
  }

  function NoVoltage(): Bus -> bool {
    (b: Bus) => b.baseVoltage <= 0.0
  }

  function NegativeRating(): Branch -> bool {
    (br: Branch) => br.rateA < 0.0
  }

  function OddBranch(): Branch -> bool {
    (br: Branch) => br.status !in {0, 1}
  }

  function OddGenerator(): Generator -> bool {
    (g: Generator) => g.status !in {0, 1}
  }

  function NoImpedance(): Branch -> bool {
    (br: Branch) => Size(br.r) < 0.0000000001 && Size(br.x) < 0.0000000001
  }

  function NegativeResistance(): Branch -> bool {
    (br: Branch) => br.r < 0.0
  }

  function HighReactance(): Branch -> bool {
    (br: Branch) => Size(br.x) > 10.0
  }

  function NoWinding(): Transformer -> bool {
    (t: Transformer) => t.windV1 <= 0.0 || t.windV2 <= 0.0
  }

  function NoRating(): Transformer -> bool {
    (t: Transformer) => t.rateA <= 0.0
  }

  function CrossedActive(): Generator -> bool {
    (g: Generator) => g.pMax < g.pMin
  }

  function CrossedReactive(): Generator -> bool {
    (g: Generator) => g.qMax < g.qMin
  }

  function NoSetPoint(): Generator -> bool {
    (g: Generator) => g.vSet <= 0.0
  }

  function Loop(): Branch -> bool {
    (br: Branch) => br.fromBus == br.toBus && br.fromBus != 0
  }

  function ThirdIsOther(): Transformer -> bool {
    (t: Transformer) => t.tertBus != 0 && t.tertBus in {t.fromBus, t.toBus}
  }

  function NoThirdVoltage(): Transformer -> bool {
    (t: Transformer) => t.tertBus != 0 && t.windV3 <= 0.0
  }

  /** How often each code is called for; what refers to buses is not looked at if there are none. */
  ghost function CalledFor(data: PowerSystemData, c: Code): nat {
    var some := data.buses != [];
    match c
    case NoBuses => if some then 0 else 1
    case MissingFromBus => if some then HowMany(data.branches, NoFromBus(data)) else 0
    case MissingToBus => if some then HowMany(data.branches, NoToBus(data)) else 0
    case MissingXfmrBus =>
      if some then HowMany(data.transformers, NoFirstBus(data)) + HowMany(data.transformers, NoSecondBus(data))
                   + HowMany(data.transformers, NoThirdBus(data))
      else 0
    case MissingGenBus => if some then HowMany(data.generators, NoGeneratorBus(data)) else 0
    case MissingLoadBus => if some then HowMany(data.loads, NoLoadBus(data)) else 0
    case MissingShuntBus => if some then HowMany(data.shunts, NoShuntBus(data)) else 0
    case MultipleIslands => if Connected(data) then 0 else 1
    case IsolatedBus => HowMany(data.buses, Alone(data))
    case DupBusId => |SharedIds(data.buses)|
    case ZeroBaseKv => HowMany(data.buses, NoVoltage())
    case NegRate => HowMany(data.branches, NegativeRating())
    case InvalidStatus => HowMany(data.branches, OddBranch()) + HowMany(data.generators, OddGenerator())
    case ZeroImpedance => HowMany(data.branches, NoImpedance())
    case NegResistance => HowMany(data.branches, NegativeResistance())
    case LargeReactance => HowMany(data.branches, HighReactance())
    case ZeroWindV => HowMany(data.transformers, NoWinding())
    case ZeroRating => HowMany(data.transformers, NoRating())
    case InvalidPLimits => HowMany(data.generators, CrossedActive())
    case InvalidQLimits => HowMany(data.generators, CrossedReactive())
    case InvalidVSet => HowMany(data.generators, NoSetPoint())
    case SelfLoop => HowMany(data.branches, Loop())
    case DupCircuitId => |ParallelEnds(data.branches)|
    case DupWinding => HowMany(data.transformers, ThirdIsOther())
    case ZeroTertV => HowMany(data.transformers, NoThirdVoltage())
    case _ => 0
  }

  // ---- The connections ---------------------------------------------------------

  predicate Are(a: int, b: int, u: int, v: int) {
    (a == u && b == v) || (a == v && b == u)
  }

  predicate BranchConnects(br: Branch, u: int, v: int) {
    br.status == 1 && Are(br.fromBus, br.toBus, u, v)
  }

  predicate TransformerConnects(t: Transformer, u: int, v: int) {
    t.status == 1 && (Are(t.fromBus, t.toBus, u, v)
                      || (t.tertBus != 0 && (Are(t.fromBus, t.tertBus, u, v) || Are(t.toBus, t.tertBus, u, v))))
  }

  /** Two buses are connected directly by branches and pairs of windings with status 1 only. */
  lemma ConnectionsAre(data: PowerSystemData, u: int, v: int)
    ensures (u, v) in NetworkLinks(data) <==>
            (exists br :: br in data.branches && BranchConnects(br, u, v))
            || exists t :: t in data.transformers && TransformerConnects(t, u, v)
    ensures (u, v) in ReportLinks(data) <==>
            (exists br :: br in data.branches && BranchConnects(br, u, v))
            || exists t :: t in data.transformers && t.status == 1 && Are(t.fromBus, t.toBus, u, v)
  {
    forall br | br in data.branches ensures (u, v) in BranchLinks(br) <==> BranchConnects(br, u, v) {
    }
    forall t | t in data.transformers
      ensures (u, v) in TransformerLinks(t, true) <==> TransformerConnects(t, u, v)
      ensures (u, v) in TransformerLinks(t, false) <==> t.status == 1 && Are(t.fromBus, t.toBus, u, v)
    {
    }
  }

  // ---------------------------------------------------------------------------
  // Counting
  // ---------------------------------------------------------------------------

  lemma HowManyMore<T>(xs: seq<T>, p: T -> bool)
    requires xs != []
    ensures HowMany(xs, p) == HowMany(xs[..|xs| - 1], p) + if p(xs[|xs| - 1]) then 1 else 0
  {
    var last := |xs| - 1;
    var before := set i | 0 <= i < last && p(xs[..last][i]);
    var all := set i | 0 <= i < |xs| && p(xs[i]);
    assert all == before + if p(xs[last]) then {last} else {};
  }

  lemma {:induction false} EachCounts<T>(xs: seq<T>, f: T -> seq<Code>, c: Code, p: T -> bool)
    requires forall x :: x in xs ==> multiset(f(x))[c] == if p(x) then 1 else 0
    ensures multiset(Each(xs, f))[c] == HowMany(xs, p)
    decreases |xs|
  {
    hide HowMany;
    if xs == [] {
      NoneCounted(xs, p);
    } else {
      EachCounts(xs[..|xs| - 1], f, c, p);
      HowManyMore(xs, p);
    }
  }

  lemma NoneCounted<T>(xs: seq<T>, p: T -> bool)
    requires xs == []
    ensures HowMany(xs, p) == 0
  {
  }

  /** A finding that an element can call for three times. */
  lemma {:induction false} EachCountsThree<T>(xs: seq<T>, f: T -> seq<Code>, c: Code, p: T -> bool, q: T -> bool, r: T -> bool)
    requires forall x :: x in xs ==>
               multiset(f(x))[c] == (if p(x) then 1 else 0) + (if q(x) then 1 else 0) + (if r(x) then 1 else 0)
    ensures multiset(Each(xs, f))[c] == HowMany(xs, p) + HowMany(xs, q) + HowMany(xs, r)
    decreases |xs|
  {
    hide HowMany;
    if xs == [] {
      NoneCounted(xs, p);
      NoneCounted(xs, q);
      NoneCounted(xs, r);
    } else {
      EachCountsThree(xs[..|xs| - 1], f, c, p, q, r);
      HowManyMore(xs, p);
      HowManyMore(xs, q);
      HowManyMore(xs, r);
    }
  }

  lemma EachNever<T>(xs: seq<T>, f: T -> seq<Code>, c: Code)
    requires forall x :: x in xs ==> c !in f(x)
    ensures multiset(Each(xs, f))[c] == 0
  {
    EachReports(xs, f, c);
  }

  function One(condition: bool): nat {
    if condition then 1 else 0
  }

  lemma WhenCounts(p: bool, d: Code, c: Code)
    ensures multiset(When(p, d))[c] == One(p && c == d)
  {
  }

  lemma AppendCounts(a: seq<Code>, b: seq<Code>, c: Code)
    ensures multiset(a + b)[c] == multiset(a)[c] + multiset(b)[c]
  {
  }

  lemma TwoWhens(p: bool, a: Code, q: bool, b: Code, c: Code)
    ensures multiset(When(p, a) + When(q, b))[c] == One(p && c == a) + One(q && c == b)
  {
    hide When;
    AppendCounts(When(p, a), When(q, b), c);
    WhenCounts(p, a, c);
    WhenCounts(q, b, c);
  }

  lemma ThreeWhens(p: bool, a: Code, q: bool, b: Code, r: bool, d: Code, c: Code)
    ensures multiset(When(p, a) + When(q, b) + When(r, d))[c] == One(p && c == a) + One(q && c == b) + One(r && c == d)
  {
    hide When;
    AppendCounts(When(p, a) + When(q, b), When(r, d), c);
    TwoWhens(p, a, q, b, c);
    WhenCounts(r, d, c);
  }

  // ---------------------------------------------------------------------------
  // Group by group
  // ---------------------------------------------------------------------------

  lemma BranchEndsCounted(data: PowerSystemData, c: Code)
    requires data.buses != [] && NamesBuses(data, IdSet(data))
    ensures multiset(Each(data.branches, BranchEnds(IdSet(data))))[c]
         == if c in {MissingFromBus, MissingToBus} then CalledFor(data, c) else 0
  {
    hide Each, HowMany, IsBus, IdSet, When;
    var ids := IdSet(data);
    var f := BranchEnds(ids);
    forall br: Branch ensures multiset(f(br))[c] == One(c == MissingFromBus && NoFromBus(data)(br)) + One(c == MissingToBus && NoToBus(data)(br)) {
      TwoWhens(br.fromBus !in ids, MissingFromBus, br.toBus !in ids, MissingToBus, c);
    }
    if c == MissingFromBus { EachCounts(data.branches, f, c, NoFromBus(data)); }
    else if c == MissingToBus { EachCounts(data.branches, f, c, NoToBus(data)); }
    else { EachNever(data.branches, f, c); }
  }

  lemma TransformerEndsCounted(data: PowerSystemData, c: Code)
    requires data.buses != [] && NamesBuses(data, IdSet(data))
    ensures multiset(Each(data.transformers, TransformerEnds(IdSet(data))))[c]
         == if c == MissingXfmrBus then CalledFor(data, c) else 0
  {
    hide Each, HowMany, IdSet, TransformerEnds, NamesBuses, NoFirstBus, NoSecondBus, NoThirdBus;
    var f := TransformerEnds(IdSet(data));
    forall t: Transformer ensures multiset(f(t))[c] == if c == MissingXfmrBus then MissingEnds(data, t) else 0 {
      EndsOfTransformer(data, t, c);
    }
    if c == MissingXfmrBus {
      EachCountsThree(data.transformers, f, c, NoFirstBus(data), NoSecondBus(data), NoThirdBus(data));
    } else {
      EachNever(data.transformers, f, c);
    }
  }

  ghost function MissingEnds(data: PowerSystemData, t: Transformer): nat {
    One(NoFirstBus(data)(t)) + One(NoSecondBus(data)(t)) + One(NoThirdBus(data)(t))
  }

  lemma EndsOfTransformer(data: PowerSystemData, t: Transformer, c: Code)
    requires NamesBuses(data, IdSet(data))
    ensures multiset(TransformerEnds(IdSet(data))(t))[c] == if c == MissingXfmrBus then MissingEnds(data, t) else 0
  {
    hide IsBus, IdSet, When;
    var ids := IdSet(data);
    ThreeWhens(t.fromBus !in ids, MissingXfmrBus, t.toBus !in ids, MissingXfmrBus,
               t.tertBus != 0 && t.tertBus !in ids, MissingXfmrBus, c);
  }

  lemma ConnectedThingsCounted(data: PowerSystemData, c: Code)
    requires data.buses != [] && NamesBuses(data, IdSet(data))
    ensures multiset(Each(data.generators, GeneratorBus(IdSet(data))))[c] == if c == MissingGenBus then CalledFor(data, c) else 0
    ensures multiset(Each(data.loads, LoadBus(IdSet(data))))[c] == if c == MissingLoadBus then CalledFor(data, c) else 0
    ensures multiset(Each(data.shunts, ShuntBus(IdSet(data))))[c] == if c == MissingShuntBus then CalledFor(data, c) else 0
  {
    hide Each, HowMany, IsBus, IdSet;
    if c == MissingGenBus { EachCounts(data.generators, GeneratorBus(IdSet(data)), c, NoGeneratorBus(data)); }
    else { EachNever(data.generators, GeneratorBus(IdSet(data)), c); }
    if c == MissingLoadBus { EachCounts(data.loads, LoadBus(IdSet(data)), c, NoLoadBus(data)); }
    else { EachNever(data.loads, LoadBus(IdSet(data)), c); }
    if c == MissingShuntBus { EachCounts(data.shunts, ShuntBus(IdSet(data)), c, NoShuntBus(data)); }
    else { EachNever(data.shunts, ShuntBus(IdSet(data)), c); }
  }

  lemma IdsNameBuses(data: PowerSystemData)
    ensures NamesBuses(data, IdSet(data))
  {
    hide IsBus, BusIds;
    forall id ensures id in IdSet(data) <==> IsBus(data, id) { BusIdsHold(data, id); }
  }

  const REFERENCE_CODES :=
    {MissingFromBus, MissingToBus, MissingXfmrBus, MissingGenBus, MissingLoadBus, MissingShuntBus}

  lemma ReferencesCounted(data: PowerSystemData, c: Code)
    requires data.buses != []
    ensures multiset(ReferenceReport(data, IdSet(data)))[c] == if c in REFERENCE_CODES then CalledFor(data, c) else 0
  {
    hide Each, CalledFor, NamesBuses, IdSet;
    IdsNameBuses(data);
    BranchEndsCounted(data, c);
    TransformerEndsCounted(data, c);
    ConnectedThingsCounted(data, c);
  }

  lemma IslandsCounted(data: PowerSystemData, c: Code)
    requires data.buses != []
    ensures multiset(IslandReport(data))[c] == if c in {MultipleIslands, IsolatedBus} then CalledFor(data, c) else 0
  {
    hide Each, HowMany, Split, NetworkLinks, Connected;
    ConnectedIff(data);
    var f := Isolation(data, NetworkLinks(data));
    if c == IsolatedBus { EachCounts(data.buses, f, c, Alone(data)); } else { EachNever(data.buses, f, c); }
  }

  const CONNECTIVITY_CODES := {NoBuses, MultipleIslands, IsolatedBus} + REFERENCE_CODES

  lemma ConnectivityCounted(data: PowerSystemData, c: Code)
    ensures multiset(ConnectivityReport(data))[c] == if c in CONNECTIVITY_CODES then CalledFor(data, c) else 0
  {
    hide ReferenceReport, IslandReport, HowMany;
    if data.buses == [] {
      NothingCounted(data);
    } else {
      ReferencesCounted(data, c);
      IslandsCounted(data, c);
    }
  }

  lemma NothingCounted(data: PowerSystemData)
    requires data.buses == []
    ensures CalledFor(data, MultipleIslands) == CalledFor(data, IsolatedBus) == 0
  {
  }

  lemma DuplicatesCounted(data: PowerSystemData)
    ensures Repeated(BusIds(data.buses)) == SharedIds(data.buses)
  {
    var ids := BusIds(data.buses);
    forall id ensures id in Repeated(ids) <==> id in SharedIds(data.buses) {
      RepeatedTwice(ids, id);
    }
  }

  lemma {:induction false} RepeatedTwice<T>(s: seq<T>, x: T)
    ensures x in Repeated(s) <==> exists i, j :: 0 <= i < j < |s| && s[i] == x && s[j] == x
    decreases |s|
  {
    if s != [] {
      var front, last := s[..|s| - 1], s[|s| - 1];
      RepeatedTwice(front, x);
      assert s == front + [last];
      assert forall i :: 0 <= i < |front| ==> front[i] == s[i];
      if last == x && x in front {
        var i :| 0 <= i < |front| && front[i] == x;
        assert s[i] == x && s[|s| - 1] == x;
      }
    }
  }

  lemma ValuesCounted(data: PowerSystemData, c: Code)
    ensures multiset(Each(data.buses, BusValues()))[c] == if c == ZeroBaseKv then CalledFor(data, c) else 0
    ensures multiset(Each(data.branches, Ratings()))[c] == if c == NegRate then CalledFor(data, c) else 0
    ensures multiset(Each(data.branches, BranchStatus()))[c] + multiset(Each(data.generators, GeneratorStatus()))[c]
         == if c == InvalidStatus then CalledFor(data, c) else 0
  {
    hide Each, HowMany;
    if c == ZeroBaseKv { EachCounts(data.buses, BusValues(), c, NoVoltage()); } else { EachNever(data.buses, BusValues(), c); }
    if c == NegRate { EachCounts(data.branches, Ratings(), c, NegativeRating()); } else { EachNever(data.branches, Ratings(), c); }
    if c == InvalidStatus {
      EachCounts(data.branches, BranchStatus(), c, OddBranch());
      EachCounts(data.generators, GeneratorStatus(), c, OddGenerator());
    } else {
      EachNever(data.branches, BranchStatus(), c);
      EachNever(data.generators, GeneratorStatus(), c);
    }
  }

  const CONSISTENCY_CODES := {DupBusId, ZeroBaseKv, NegRate, InvalidStatus}

  lemma ConsistencyCounted(data: PowerSystemData, c: Code)
    ensures multiset(ConsistencyReport(data))[c] == if c in CONSISTENCY_CODES then CalledFor(data, c) else 0
  {
    hide Each, HowMany, Repeated, SharedIds;
    DuplicatesCounted(data);
    ValuesCounted(data, c);
    TimesCounted(|SharedIds(data.buses)|, DupBusId, c);
  }

  lemma {:induction false} TimesCounted(n: nat, c: Code, d: Code)
    ensures multiset(Times(n, c))[d] == if c == d then n else 0
  {
    if n > 0 {
      TimesCounted(n - 1, c, d);
      assert Times(n, c) == Times(n - 1, c) + [c];
    }
  }

  lemma BranchValuesCounted(data: PowerSystemData, c: Code)
    ensures multiset(Each(data.branches, Impedance()))[c]
         == if c in {ZeroImpedance, NegResistance, LargeReactance} then CalledFor(data, c) else 0
  {
    hide Each, HowMany, Impedance, NoImpedance, NegativeResistance, HighReactance;
    forall br: Branch
      ensures multiset(Impedance()(br))[c] == One(c == ZeroImpedance && NoImpedance()(br))
                                              + One(c == NegResistance && NegativeResistance()(br))
                                              + One(c == LargeReactance && HighReactance()(br))
    {
      ImpedanceCounts(br, c);
    }
    if c == ZeroImpedance { EachCounts(data.branches, Impedance(), c, NoImpedance()); }
    else if c == NegResistance { EachCounts(data.branches, Impedance(), c, NegativeResistance()); }
    else if c == LargeReactance { EachCounts(data.branches, Impedance(), c, HighReactance()); }
    else { EachNever(data.branches, Impedance(), c); }
  }

  lemma ImpedanceCounts(br: Branch, c: Code)
    ensures multiset(Impedance()(br))[c] == One(c == ZeroImpedance && NoImpedance()(br))
                                            + One(c == NegResistance && NegativeResistance()(br))
                                            + One(c == LargeReactance && HighReactance()(br))
  {
    hide When;
    ThreeWhens(Abs(br.r) < 0.0000000001 && Abs(br.x) < 0.0000000001, ZeroImpedance, br.r < 0.0, NegResistance,
               Abs(br.x) > 10.0, LargeReactance, c);
  }

  lemma WindingsCounted(data: PowerSystemData, c: Code)
    ensures multiset(Each(data.transformers, Windings()))[c] == if c in {ZeroWindV, ZeroRating} then CalledFor(data, c) else 0
  {
    hide Each, HowMany, When;
    forall t: Transformer
      ensures multiset(Windings()(t))[c] == One(c == ZeroWindV && NoWinding()(t)) + One(c == ZeroRating && NoRating()(t))
    {
      TwoWhens(t.windV1 <= 0.0 || t.windV2 <= 0.0, ZeroWindV, t.rateA <= 0.0, ZeroRating, c);
    }
    if c == ZeroWindV { EachCounts(data.transformers, Windings(), c, NoWinding()); }
    else if c == ZeroRating { EachCounts(data.transformers, Windings(), c, NoRating()); }
    else { EachNever(data.transformers, Windings(), c); }
  }

  lemma LimitsCounted(data: PowerSystemData, c: Code)
    ensures multiset(Each(data.generators, Limits()))[c]
         == if c in {InvalidPLimits, InvalidQLimits, InvalidVSet} then CalledFor(data, c) else 0
  {
    hide Each, HowMany, Limits, CrossedActive, CrossedReactive, NoSetPoint;
    forall g: Generator
      ensures multiset(Limits()(g))[c] == One(c == InvalidPLimits && CrossedActive()(g))
                                          + One(c == InvalidQLimits && CrossedReactive()(g))
                                          + One(c == InvalidVSet && NoSetPoint()(g))
    {
      LimitsCount(g, c);
    }
    if c == InvalidPLimits { EachCounts(data.generators, Limits(), c, CrossedActive()); }
    else if c == InvalidQLimits { EachCounts(data.generators, Limits(), c, CrossedReactive()); }
    else if c == InvalidVSet { EachCounts(data.generators, Limits(), c, NoSetPoint()); }
    else { EachNever(data.generators, Limits(), c); }
  }

  lemma LimitsCount(g: Generator, c: Code)
    ensures multiset(Limits()(g))[c] == One(c == InvalidPLimits && CrossedActive()(g))
                                        + One(c == InvalidQLimits && CrossedReactive()(g))
                                        + One(c == InvalidVSet && NoSetPoint()(g))
  {
    hide When;
    ThreeWhens(g.pMax < g.pMin, InvalidPLimits, g.qMax < g.qMin, InvalidQLimits, g.vSet <= 0.0, InvalidVSet, c);
  }

  const ELECTRICAL_CODES :=
    {ZeroImpedance, NegResistance, LargeReactance, ZeroWindV, ZeroRating, InvalidPLimits, InvalidQLimits, InvalidVSet}

  lemma ElectricalCounted(data: PowerSystemData, c: Code)
    ensures multiset(ElectricalReport(data))[c] == if c in ELECTRICAL_CODES then CalledFor(data, c) else 0
  {
    hide Each, CalledFor;
    BranchValuesCounted(data, c);
    WindingsCounted(data, c);
    LimitsCounted(data, c);
  }

  /** Branches have the same circuit key exactly if they are parallel under one circuit id. */
  lemma ParallelIff(a: Branch, b: Branch)
    ensures Circuit(a) == Circuit(b) <==> Parallel(a, b)
    ensures Circuit(a).0 == Ends(a)
  {
  }

  lemma ClashesCounted(brs: seq<Branch>)
    ensures ClashingPairs(Circuits(brs)) == ParallelEnds(brs)
  {
    hide Circuit, Parallel, Ends, Repeated;
    var cs := Circuits(brs);
    forall i, j | 0 <= i < j < |brs| ensures cs[i] == cs[j] <==> Parallel(brs[i], brs[j]) { ParallelIff(brs[i], brs[j]); }
    forall i | 0 <= i < |brs| ensures cs[i].0 == Ends(brs[i]) { ParallelIff(brs[i], brs[i]); }
    forall ends ensures ends in ClashingPairs(cs) <==> ends in ParallelEnds(brs) {
      ClashCounted(brs, ends);
    }
  }

  lemma ClashCounted(brs: seq<Branch>, ends: (int, int))
    requires var cs := Circuits(brs);
      && (forall i, j :: 0 <= i < j < |brs| ==> (cs[i] == cs[j] <==> Parallel(brs[i], brs[j])))
      && (forall i :: 0 <= i < |brs| ==> cs[i].0 == Ends(brs[i]))
    ensures ends in ClashingPairs(Circuits(brs)) <==> ends in ParallelEnds(brs)
  {
    hide Circuit, Parallel, Ends, Repeated;
    var cs := Circuits(brs);
    if ends in ClashingPairs(cs) {
      var x :| x in Repeated(cs) && x.0 == ends;
      RepeatedTwice(cs, x);
      var i, j :| 0 <= i < j < |cs| && cs[i] == x && cs[j] == x;
      assert Parallel(brs[i], brs[j]) && Ends(brs[i]) == ends;
    }
    if ends in ParallelEnds(brs) {
      var i, j :| 0 <= i < j < |brs| && Parallel(brs[i], brs[j]) && Ends(brs[i]) == ends;
      assert cs[i] == cs[j];
      RepeatedTwice(cs, cs[i]);
    }
  }

  const TOPOLOGY_CODES := {SelfLoop, DupCircuitId, DupWinding, ZeroTertV}

  lemma TopologyCounted(data: PowerSystemData, c: Code)
    ensures multiset(TopologyReport(data))[c] == if c in TOPOLOGY_CODES then CalledFor(data, c) else 0
  {
    hide Each, HowMany, ClashingPairs, ParallelEnds, Circuits, Times, SelfLoops, Tertiaries;
    var loops, clashes, thirds := Each(data.branches, SelfLoops()), Times(|ParallelEnds(data.branches)|, DupCircuitId),
                                  Each(data.transformers, Tertiaries());
    ClashesCounted(data.branches);
    TimesCounted(|ParallelEnds(data.branches)|, DupCircuitId, c);
    AppendCounts(loops + clashes, thirds, c);
    AppendCounts(loops, clashes, c);
    LoopsCounted(data, c);
    TertiariesCounted(data, c);
  }

  lemma LoopsCounted(data: PowerSystemData, c: Code)
    ensures multiset(Each(data.branches, SelfLoops()))[c] == if c == SelfLoop then CalledFor(data, c) else 0
  {
    hide Each, HowMany;
    if c == SelfLoop { EachCounts(data.branches, SelfLoops(), c, Loop()); } else { EachNever(data.branches, SelfLoops(), c); }
  }

  lemma TertiariesCounted(data: PowerSystemData, c: Code)
    ensures multiset(Each(data.transformers, Tertiaries()))[c] == if c in {DupWinding, ZeroTertV} then CalledFor(data, c) else 0
  {
    hide Each, HowMany, When;
    forall t: Transformer
      ensures multiset(Tertiaries()(t))[c] == One(c == DupWinding && ThirdIsOther()(t)) + One(c == ZeroTertV && NoThirdVoltage()(t))
    {
      TwoWhens(t.fromBus == t.tertBus || t.toBus == t.tertBus, DupWinding, t.windV3 <= 0.0, ZeroTertV, c);
    }
    if c == DupWinding { EachCounts(data.transformers, Tertiaries(), c, ThirdIsOther()); }
    else if c == ZeroTertV { EachCounts(data.transformers, Tertiaries(), c, NoThirdVoltage()); }
    else { EachNever(data.transformers, Tertiaries(), c); }
  }

  /** The validation reports every code exactly as often as the network calls for it. */
  lemma CodesAreCounted(data: PowerSystemData, c: Code)
    ensures multiset(ValidationReport(data))[c] == CalledFor(data, c)
  {
    hide ConnectivityReport, ConsistencyReport, ElectricalReport, TopologyReport, CalledFor;
    ConnectivityCounted(data, c);
    ConsistencyCounted(data, c);
    ElectricalCounted(data, c);
    TopologyCounted(data, c);
    var a, b, d, e := ConnectivityReport(data), ConsistencyReport(data), ElectricalReport(data), TopologyReport(data);
    AppendCounts(a + b + d, e, c);
    AppendCounts(a + b, d, c);
    AppendCounts(a, b, c);
    OneGroup(data, c);
  }

  lemma OneGroup(data: PowerSystemData, c: Code)
    ensures One(c in CONNECTIVITY_CODES) + One(c in CONSISTENCY_CODES) + One(c in ELECTRICAL_CODES) + One(c in TOPOLOGY_CODES) <= 1
    ensures c !in CONNECTIVITY_CODES + CONSISTENCY_CODES + ELECTRICAL_CODES + TOPOLOGY_CODES ==> CalledFor(data, c) == 0
  {
    hide HowMany, SharedIds, ParallelEnds, Connected;
  }

  /** Missing references and repeated ids are errors, a missing importer is fatal, all else is a warning. */
  lemma SeveritiesAre(c: Code)
    ensures SeverityOf(c) == Error <==> c in REFERENCE_CODES + {DupBusId}
    ensures SeverityOf(c) == Fatal <==> c == NoImporter
    ensures SeverityOf(c) != Info
  {
  }
}
