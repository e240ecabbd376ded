/**
 * The harmonic admittance matrix (harmonics/harmonic_load_flow.cpp, buildYbusHarmonic).
 *
 * The assembly loops append (row, column, value) triplets; equal positions add up. What the
 * matrix means is stated through its quadratic form: for any bus voltages, the power it draws is
 * the sum of the powers of the elements it was assembled from.
 */
module HarmonicYbus {
  import opened Numbers

  // ---------------------------------------------------------------------------
  // Complex numbers
  // ---------------------------------------------------------------------------

  datatype Complex = Complex(re: real, im: real)

  const ZERO := Complex(0.0, 0.0)

  function Add(a: Complex, b: Complex): Complex {
    Complex(a.re + b.re, a.im + b.im)
  }

  function Neg(a: Complex): Complex {
    Complex(-a.re, -a.im)
  }

  function Mul(a: Complex, b: Complex): Complex {
    Complex(a.re * b.re - a.im * b.im, a.re * b.im + a.im * b.re)
  }

  function Conj(a: Complex): Complex {
    Complex(a.re, -a.im)
  }

  function NormSquared(a: Complex): real {
    a.re * a.re + a.im * a.im
  }

  function Scale(k: real, a: Complex): Complex {
    Complex(k * a.re, k * a.im)
  }

  function Inverse(z: Complex): Complex
    requires NormSquared(z) != 0.0
  {
    Complex(z.re / NormSquared(z), -z.im / NormSquared(z))
  }

  lemma InverseIsInverse(z: Complex)
    requires NormSquared(z) != 0.0
    ensures Mul(Inverse(z), z) == Complex(1.0, 0.0)
  {
    var n := NormSquared(z);
    assert z.re / n * z.re + z.im / n * z.im == (z.re * z.re + z.im * z.im) / n == 1.0;
    assert (-z.im) / n == -(z.im / n);
    assert z.re / n * z.im == z.re * z.im / n == z.im / n * z.re;
  }

  lemma MulDistributes(a: Complex, b: Complex, c: Complex)
    ensures Mul(a, Add(b, c)) == Add(Mul(a, b), Mul(a, c))
    ensures Mul(Add(b, c), a) == Add(Mul(b, a), Mul(c, a))
  {
  }

  lemma MulAssociates(a: Complex, b: Complex, c: Complex)
    ensures Mul(a, Mul(b, c)) == Mul(Mul(a, b), c)
  {
  }

  // ---------------------------------------------------------------------------
  // The network model
  // ---------------------------------------------------------------------------

  type Order = h: int | h >= 1 witness 1

  type NonZero = x: real | x != 0.0 witness 1.0

  /** The library functions, about which only their sign is used. */
  datatype MathLib = MathLib(pow: (int, real) -> real, sqrt: real -> real)

  ghost predicate NonNegative(lib: MathLib) {
    && (forall h: int, e: real :: h >= 1 ==> lib.pow(h, e) >= 0.0)
    && (forall x: real :: x >= 0.0 ==> lib.sqrt(x) >= 0.0)
  }

  datatype Line = Line(fromBus: nat, toBus: nat, r1: real, x1: real, b1: real, skinExponent: real)

  datatype Transformer = Transformer(bus1: nat, bus2: nat, ratedPower: NonZero, uk: real, pcu: real)

  datatype Load = Load(busId: nat, p: real, q: real)

  datatype Capacitor = Capacitor(busId: nat, xC1: real)

  datatype Source = Source(busId: nat, order: int, magnitude: real, angle: real)

  function LineImpedance(lib: MathLib, h: Order, line: Line): Complex {
    Complex(line.r1 * lib.pow(h, line.skinExponent), h as real * line.x1)
  }

  /** The resistance in per unit: the copper losses in kilowatts over the rated power. */
  function CopperResistance(tx: Transformer): real {
    var r := tx.pcu / 1000.0 / tx.ratedPower;
    if r < 0.0 then 0.0 else r
  }

  /** The reactance that completes a resistance to an impedance of this size. */
  function Completing(lib: MathLib, zBase: real, r: real): real {
    var xSquared := zBase * zBase - r * r;
    if xSquared > 0.0 then lib.sqrt(xSquared) else 0.0
  }

  function TransformerImpedance(lib: MathLib, h: Order, tx: Transformer): Complex {
    var r := CopperResistance(tx);
    Complex(r * lib.sqrt(h as real), Completing(lib, tx.uk / 100.0, r) * h as real)
  }

  function LoadAdmittance(h: Order, load: Load): Complex {
    Complex(load.p, -load.q / h as real)
  }

  /** Half the charging of a line, at either end. */
  function LineCharging(h: Order, line: Line): Complex {
    Complex(0.0, line.b1 * h as real * 0.5)
  }

  function CapacitorAdmittance(h: Order, cap: Capacitor): Complex
    requires cap.xC1 != 0.0
  {
    Complex(0.0, h as real / cap.xC1)
  }

  /** |z| < 1e-12, squared on both sides. */
  predicate Negligible(z: Complex) {
    NormSquared(z) < 0.000000000001 * 0.000000000001
  }

  // ---------------------------------------------------------------------------
  // Triplets
  // ---------------------------------------------------------------------------

  datatype Triplet = Triplet(row: nat, col: nat, value: Complex)

  function Branch(a: nat, b: nat, series: Complex, shunt: Complex): seq<Triplet> {
    [Triplet(a, a, Add(series, shunt)), Triplet(b, b, Add(series, shunt)),
     Triplet(a, b, Neg(series)), Triplet(b, a, Neg(series))]
  }

  function LineTriplets(lib: MathLib, h: Order): Line -> seq<Triplet> {
    (line: Line) =>
      var z := LineImpedance(lib, h, line);
      if Negligible(z) then []
      else Branch(line.fromBus, line.toBus, Inverse(z), LineCharging(h, line))
  }

  function TransformerTriplets(lib: MathLib, h: Order): Transformer -> seq<Triplet> {
    (tx: Transformer) =>
      var z := TransformerImpedance(lib, h, tx);
      if Negligible(z) then [] else Branch(tx.bus1, tx.bus2, Inverse(z), ZERO)
  }

  function LoadTriplets(h: Order): Load -> seq<Triplet> {
    (load: Load) => [Triplet(load.busId, load.busId, LoadAdmittance(h, load))]
  }

  function CapacitorTriplets(h: Order): Capacitor -> seq<Triplet> {
    (cap: Capacitor) =>
      if cap.xC1 == 0.0 then [] else [Triplet(cap.busId, cap.busId, CapacitorAdmittance(h, cap))]
  }

  ghost function Flat<T>(xs: seq<T>, f: T -> seq<Triplet>): seq<Triplet> {
    if xs == [] then [] else Flat(xs[..|xs| - 1], f) + f(xs[|xs| - 1])
  }

  /** The value at (i, j): equal positions add up. */
  ghost function Entry(ts: seq<Triplet>, i: int, j: int): Complex {
    if ts == [] then ZERO
    else
      var t := ts[|ts| - 1];
      var rest := Entry(ts[..|ts| - 1], i, j);
      if t.row == i && t.col == j then Add(rest, t.value) else rest
  }

  datatype Matrix = Matrix(size: nat, stored: map<(int, int), Complex>)

  function Coefficient(m: Matrix, i: int, j: int): Complex {
    if (i, j) in m.stored then m.stored[(i, j)] else ZERO
  }

  /** What the sparse matrix library does with the triplets. */
  method SetFromTriplets(n: nat, ts: seq<Triplet>) returns (m: Matrix)
    ensures m.size == n && forall i, j :: Coefficient(m, i, j) == Entry(ts, i, j)
  {
    m := Matrix(n, map[]);
    for k := 0 to |ts|
      invariant m.size == n && forall i, j :: Coefficient(m, i, j) == Entry(ts[..k], i, j)
    {
      assert ts[..k + 1][..k] == ts[..k];
      var t := ts[k];
      m := m.(stored := m.stored[(t.row, t.col) := Add(Coefficient(m, t.row, t.col), t.value)]);
    }
    assert ts[..|ts|] == ts;
  }

  method Assemble<T>(xs: seq<T>, f: T -> seq<Triplet>) returns (ts: seq<Triplet>)
    ensures ts == Flat(xs, f)
  {
    ts := [];
    for k := 0 to |xs|
      invariant ts == Flat(xs[..k], f)
    {
      assert xs[..k + 1][..k] == xs[..k];
      ts := ts + f(xs[k]);
    }
    assert xs[..|xs|] == xs;
  }

  /** The elements of the network. */
  datatype Elements = Elements(lines: seq<Line>, transformers: seq<Transformer>, loads: seq<Load>, capacitors: seq<Capacitor>)

  ghost function YbusTriplets(lib: MathLib, h: Order, e: Elements): seq<Triplet> {
    Flat(e.lines, LineTriplets(lib, h)) + Flat(e.transformers, TransformerTriplets(lib, h)) +
    Flat(e.loads, LoadTriplets(h)) + Flat(e.capacitors, CapacitorTriplets(h))
  }

  predicate BusesBelow(e: Elements, n: int) {
    && (forall l :: l in e.lines ==> l.fromBus < n && l.toBus < n)
    && (forall t :: t in e.transformers ==> t.bus1 < n && t.bus2 < n)
    && (forall l :: l in e.loads ==> l.busId < n)
    && (forall c :: c in e.capacitors ==> c.busId < n)
  }

  class HarmonicLoadFlow {
    var numBuses: int
    var sources: seq<Source>
    var e: Elements

    /** Every element is connected to buses below the count. */
    ghost predicate Valid()
      reads this
    {
      BusesBelow(e, numBuses)
    }

    constructor ()
      ensures Valid() && numBuses == 0 && e == Elements([], [], [], [])
    {
      numBuses, sources, e := 0, [], Elements([], [], [], []);
    }

    method SetNumBuses(n: int)
      modifies this`numBuses
      ensures numBuses == n && (Valid() <==> BusesBelow(old(e), n))
    {
      numBuses := n;
    }

    method AddHarmonicSource(source: Source)
      modifies this
      ensures old(Valid()) ==> Valid()
      ensures e == old(e) && sources == old(sources) + [source]
      ensures numBuses == Max(old(numBuses), source.busId + 1)
    {
      sources := sources + [source];
      numBuses := Max(numBuses, source.busId + 1);
    }

    method AddLineModel(line: Line)
      modifies this
      ensures old(Valid()) ==> Valid()
      ensures numBuses == Max(old(numBuses), Max(line.fromBus, line.toBus) + 1)
      ensures e == old(e).(lines := old(e).lines + [line]) && sources == old(sources)
    {
      e := e.(lines := e.lines + [line]);
      numBuses := Max(numBuses, Max(line.fromBus, line.toBus) + 1);
    }

    method AddTransformerModel(tx: Transformer)
      modifies this
      ensures old(Valid()) ==> Valid()
      ensures numBuses == Max(old(numBuses), Max(tx.bus1, tx.bus2) + 1)
      ensures e == old(e).(transformers := old(e).transformers + [tx]) && sources == old(sources)
    {
      e := e.(transformers := e.transformers + [tx]);
      numBuses := Max(numBuses, Max(tx.bus1, tx.bus2) + 1);
    }

    method AddLoadModel(load: Load)
      modifies this
      ensures old(Valid()) ==> Valid()
      ensures numBuses == Max(old(numBuses), load.busId + 1)
      ensures e == old(e).(loads := old(e).loads + [load]) && sources == old(sources)
    {
      e := e.(loads := e.loads + [load]);
      numBuses := Max(numBuses, load.busId + 1);
    }

    method AddCapacitorModel(cap: Capacitor)
      modifies this
      ensures old(Valid()) ==> Valid()
      ensures numBuses == Max(old(numBuses), cap.busId + 1)
      ensures e == old(e).(capacitors := old(e).capacitors + [cap]) && sources == old(sources)
    {
      e := e.(capacitors := e.capacitors + [cap]);
      numBuses := Max(numBuses, cap.busId + 1);
    }

    method BuildYbusHarmonic(lib: MathLib, h: Order) returns (y: Matrix)
      requires Valid()
      ensures numBuses <= 0 ==> y == Matrix(0, map[])
      ensures numBuses > 0 ==>
                y.size == numBuses && forall i, j :: Coefficient(y, i, j) == Entry(YbusTriplets(lib, h, e), i, j)
    {
      if numBuses <= 0 {
        return Matrix(0, map[]);
      }
      var lines := Assemble(e.lines, LineTriplets(lib, h));
      var transformers := Assemble(e.transformers, TransformerTriplets(lib, h));
      var loads := Assemble(e.loads, LoadTriplets(h));
      var capacitors := Assemble(e.capacitors, CapacitorTriplets(h));
      y := SetFromTriplets(numBuses, lines + transformers + loads + capacitors);
    }
  }

  // ---------------------------------------------------------------------------
  // Sums over elements
  // ---------------------------------------------------------------------------

  ghost function Total<T>(xs: seq<T>, f: T -> Complex): Complex {
    if xs == [] then ZERO else Add(Total(xs[..|xs| - 1], f), f(xs[|xs| - 1]))
  }

  lemma {:induction false} TotalAppend<T>(xs: seq<T>, ys: seq<T>, f: T -> Complex)
    ensures Total(xs + ys, f) == Add(Total(xs, f), Total(ys, f))
    decreases |ys|
  {
    if ys == [] {
      assert xs + ys == xs;
    } else {
      var n := |ys| - 1;
      assert (xs + ys)[..|xs + ys| - 1] == xs + ys[..n];
      TotalAppend(xs, ys[..n], f);
    }
  }

  lemma Cancel<T>(a: multiset<T>, b: multiset<T>, x: T)
    requires a + multiset{x} == b + multiset{x}
    ensures a == b
  {
    assert a == a + multiset{x} - multiset{x};
    assert b == b + multiset{x} - multiset{x};
  }

  /** A sum does not depend on the order of its terms. */
  lemma {:induction false} TotalPermuted<T>(xs: seq<T>, ys: seq<T>, f: T -> Complex)
    requires multiset(xs) == multiset(ys)
    ensures Total(xs, f) == Total(ys, f)
    decreases |xs|
  {
    assert |multiset(xs)| == |xs| && |multiset(ys)| == |ys|;
    if xs != [] {
      var n := |xs| - 1;
      var x := xs[n];
      assert x in multiset(xs);
      var k :| 0 <= k < |ys| && ys[k] == x;
      assert ys == ys[..k] + [x] + ys[k + 1..];
      assert xs == xs[..n] + [x];
      Cancel(multiset(xs[..n]), multiset(ys[..k]) + multiset(ys[k + 1..]), x);
      TotalPermuted(xs[..n], ys[..k] + ys[k + 1..], f);
      TotalAppend(ys[..k], ys[k + 1..], f);
      TotalAppend(ys[..k] + [x], ys[k + 1..], f);
      assert (ys[..k] + [x])[..k] == ys[..k];
    }
  }

  lemma {:induction false} TotalZero<T>(xs: seq<T>, f: T -> Complex)
    requires forall x :: x in xs ==> f(x) == ZERO
    ensures Total(xs, f) == ZERO
    decreases |xs|
  {
    if xs != [] {
      TotalZero(xs[..|xs| - 1], f);
    }
  }

  lemma {:induction false} TotalSame<T>(xs: seq<T>, f: T -> Complex, g: T -> Complex)
    requires forall x :: x in xs ==> f(x) == g(x)
    ensures Total(xs, f) == Total(xs, g)
    decreases |xs|
  {
    if xs != [] {
      TotalSame(xs[..|xs| - 1], f, g);
    }
  }

  lemma {:induction false} TotalRealNonNegative<T>(xs: seq<T>, f: T -> Complex)
    requires forall x :: x in xs ==> f(x).re >= 0.0
    ensures Total(xs, f).re >= 0.0
    decreases |xs|
  {
    if xs != [] {
      TotalRealNonNegative(xs[..|xs| - 1], f);
    }
  }

  /** Summing over the triplets of many elements is summing over the elements. */
  lemma {:induction false} TotalFlat<T>(xs: seq<T>, f: T -> seq<Triplet>, g: Triplet -> Complex)
    ensures Total(Flat(xs, f), g) == Total(xs, (x: T) => Total(f(x), g))
    decreases |xs|
  {
    if xs != [] {
      var n := |xs| - 1;
      TotalFlat(xs[..n], f, g);
      TotalAppend(Flat(xs[..n], f), f(xs[n]), g);
    }
  }

  // ---------------------------------------------------------------------------
  // The matrix entry by entry
  // ---------------------------------------------------------------------------

  ghost function AtEntry(i: int, j: int): Triplet -> Complex {
    (t: Triplet) => if t.row == i && t.col == j then t.value else ZERO
  }

  lemma {:induction false} EntryIsTotal(ts: seq<Triplet>, i: int, j: int)
    ensures Entry(ts, i, j) == Total(ts, AtEntry(i, j))
    decreases |ts|
  {
    if ts != [] {
      EntryIsTotal(ts[..|ts| - 1], i, j);
    }
  }

  /** What one element adds to the sum of g over the triplets of the matrix. */
  ghost function Share<T>(f: T -> seq<Triplet>, g: Triplet -> Complex): T -> Complex {
    (x: T) => Total(f(x), g)
  }

  ghost function ElementTotal(lib: MathLib, h: Order, e: Elements, g: Triplet -> Complex): Complex {
    Add(Add(Add(Total(e.lines, Share(LineTriplets(lib, h), g)),
                Total(e.transformers, Share(TransformerTriplets(lib, h), g))),
            Total(e.loads, Share(LoadTriplets(h), g))),
        Total(e.capacitors, Share(CapacitorTriplets(h), g)))
  }

  lemma YbusTotal(lib: MathLib, h: Order, e: Elements, g: Triplet -> Complex)
    ensures Total(YbusTriplets(lib, h, e), g) == ElementTotal(lib, h, e, g)
  {
    var ls, ts := Flat(e.lines, LineTriplets(lib, h)), Flat(e.transformers, TransformerTriplets(lib, h));
    var ds, cs := Flat(e.loads, LoadTriplets(h)), Flat(e.capacitors, CapacitorTriplets(h));
    TotalAppend(ls, ts, g);
    TotalAppend(ls + ts, ds, g);
    TotalAppend(ls + ts + ds, cs, g);
    TotalFlat(e.lines, LineTriplets(lib, h), g);
    TotalFlat(e.transformers, TransformerTriplets(lib, h), g);
    TotalFlat(e.loads, LoadTriplets(h), g);
    TotalFlat(e.capacitors, CapacitorTriplets(h), g);
  }

  ghost predicate SameElements(e: Elements, f: Elements) {
    && multiset(e.lines) == multiset(f.lines) && multiset(e.transformers) == multiset(f.transformers)
    && multiset(e.loads) == multiset(f.loads) && multiset(e.capacitors) == multiset(f.capacitors)
  }

  /** The matrix does not depend on the order in which components were added. */
  lemma YbusOrderIndependent(lib: MathLib, h: Order, e: Elements, f: Elements, i: int, j: int)
    requires SameElements(e, f)
    ensures Entry(YbusTriplets(lib, h, e), i, j) == Entry(YbusTriplets(lib, h, f), i, j)
  {
    var g := AtEntry(i, j);
    EntryIsTotal(YbusTriplets(lib, h, e), i, j);
    EntryIsTotal(YbusTriplets(lib, h, f), i, j);
    YbusTotal(lib, h, e, g);
    YbusTotal(lib, h, f, g);
    TotalPermuted(e.lines, f.lines, Share(LineTriplets(lib, h), g));
    TotalPermuted(e.transformers, f.transformers, Share(TransformerTriplets(lib, h), g));
    TotalPermuted(e.loads, f.loads, Share(LoadTriplets(h), g));
    TotalPermuted(e.capacitors, f.capacitors, Share(CapacitorTriplets(h), g));
  }

  lemma TotalOfOne(t: Triplet, g: Triplet -> Complex)
    ensures Total([t], g) == g(t)
  {
    assert [t][..0] == [];
  }

  lemma TotalOfBranch(a: nat, b: nat, series: Complex, shunt: Complex, g: Triplet -> Complex)
    ensures Total(Branch(a, b, series, shunt), g) ==
            Add(Add(Add(g(Triplet(a, a, Add(series, shunt))), g(Triplet(b, b, Add(series, shunt)))),
                    g(Triplet(a, b, Neg(series)))), g(Triplet(b, a, Neg(series))))
  {
    var ts := Branch(a, b, series, shunt);
    assert ts[..3][..2] == ts[..2] && ts[..2][..1] == ts[..1] && ts[..1][..0] == [];
    assert Total(ts[..1], g) == g(ts[0]);
    assert Total(ts[..2], g) == Add(g(ts[0]), g(ts[1]));
    assert Total(ts[..3], g) == Add(Add(g(ts[0]), g(ts[1])), g(ts[2]));
  }

  lemma BranchSymmetric(a: nat, b: nat, series: Complex, shunt: Complex, i: int, j: int)
    ensures Total(Branch(a, b, series, shunt), AtEntry(i, j)) == Total(Branch(a, b, series, shunt), AtEntry(j, i))
  {
    TotalOfBranch(a, b, series, shunt, AtEntry(i, j));
    TotalOfBranch(a, b, series, shunt, AtEntry(j, i));
  }

  /** The matrix is symmetric. */
  lemma YbusSymmetric(lib: MathLib, h: Order, e: Elements, i: int, j: int)
    ensures Entry(YbusTriplets(lib, h, e), i, j) == Entry(YbusTriplets(lib, h, e), j, i)
  {
    var g, k := AtEntry(i, j), AtEntry(j, i);
    EntryIsTotal(YbusTriplets(lib, h, e), i, j);
    EntryIsTotal(YbusTriplets(lib, h, e), j, i);
    YbusTotal(lib, h, e, g);
    YbusTotal(lib, h, e, k);
    forall l | l in e.lines
      ensures Share(LineTriplets(lib, h), g)(l) == Share(LineTriplets(lib, h), k)(l)
    {
      LineSymmetric(lib, h, l, i, j);
    }
    TotalSame(e.lines, Share(LineTriplets(lib, h), g), Share(LineTriplets(lib, h), k));
    forall t | t in e.transformers
      ensures Share(TransformerTriplets(lib, h), g)(t) == Share(TransformerTriplets(lib, h), k)(t)
    {
      TransformerSymmetric(lib, h, t, i, j);
    }
    TotalSame(e.transformers, Share(TransformerTriplets(lib, h), g), Share(TransformerTriplets(lib, h), k));
    forall l | l in e.loads
      ensures Share(LoadTriplets(h), g)(l) == Share(LoadTriplets(h), k)(l)
    {
      TotalOfOne(LoadTriplets(h)(l)[0], g);
      TotalOfOne(LoadTriplets(h)(l)[0], k);
    }
    TotalSame(e.loads, Share(LoadTriplets(h), g), Share(LoadTriplets(h), k));
    forall c | c in e.capacitors
      ensures Share(CapacitorTriplets(h), g)(c) == Share(CapacitorTriplets(h), k)(c)
    {
      CapacitorSymmetric(h, c, i, j);
    }
    TotalSame(e.capacitors, Share(CapacitorTriplets(h), g), Share(CapacitorTriplets(h), k));
  }

  lemma LineSymmetric(lib: MathLib, h: Order, l: Line, i: int, j: int)
    ensures Total(LineTriplets(lib, h)(l), AtEntry(i, j)) == Total(LineTriplets(lib, h)(l), AtEntry(j, i))
  {
    var z := LineImpedance(lib, h, l);
    if !Negligible(z) {
      BranchSymmetric(l.fromBus, l.toBus, Inverse(z), LineCharging(h, l), i, j);
    }
  }

  lemma TransformerSymmetric(lib: MathLib, h: Order, t: Transformer, i: int, j: int)
    ensures Total(TransformerTriplets(lib, h)(t), AtEntry(i, j)) == Total(TransformerTriplets(lib, h)(t), AtEntry(j, i))
  {
    var z := TransformerImpedance(lib, h, t);
    if !Negligible(z) {
      BranchSymmetric(t.bus1, t.bus2, Inverse(z), ZERO, i, j);
    }
  }

  lemma CapacitorSymmetric(h: Order, c: Capacitor, i: int, j: int)
    ensures Total(CapacitorTriplets(h)(c), AtEntry(i, j)) == Total(CapacitorTriplets(h)(c), AtEntry(j, i))
  {
    if c.xC1 != 0.0 {
      TotalOfOne(CapacitorTriplets(h)(c)[0], AtEntry(i, j));
      TotalOfOne(CapacitorTriplets(h)(c)[0], AtEntry(j, i));
    }
  }

  // ---------------------------------------------------------------------------
  // Currents, row sums and power
  // ---------------------------------------------------------------------------

  /** The voltage of every bus. */
  type Voltages = nat -> Complex

  /** The current the matrix draws at bus i: row i times the voltages of buses 0..n. */
  ghost function RowTimes(ts: seq<Triplet>, i: nat, V: Voltages, n: nat): Complex {
    if n == 0 then ZERO else Add(RowTimes(ts, i, V, n - 1), Mul(Entry(ts, i, n - 1), V(n - 1)))
  }

  /** Conjugate voltages times currents, over buses 0..m. */
  ghost function QuadraticForm(ts: seq<Triplet>, V: Voltages, n: nat, m: nat): Complex {
    if m == 0 then ZERO else Add(QuadraticForm(ts, V, n, m - 1), Mul(Conj(V(m - 1)), RowTimes(ts, m - 1, V, n)))
  }

  ghost function InRow(i: nat, V: Voltages, n: nat): Triplet -> Complex {
    (t: Triplet) => if t.row == i && t.col < n then Mul(t.value, V(t.col)) else ZERO
  }

  ghost function InForm(V: Voltages, n: nat, m: nat): Triplet -> Complex {
    (t: Triplet) => if t.row < m && t.col < n then Mul(Conj(V(t.row)), Mul(t.value, V(t.col))) else ZERO
  }

  lemma {:induction false} TotalSum<T>(xs: seq<T>, f: T -> Complex, g: T -> Complex, s: T -> Complex)
    requires forall x :: x in xs ==> s(x) == Add(f(x), g(x))
    ensures Total(xs, s) == Add(Total(xs, f), Total(xs, g))
    decreases |xs|
  {
    if xs != [] {
      TotalSum(xs[..|xs| - 1], f, g, s);
    }
  }

  lemma {:induction false} TotalTimes<T>(xs: seq<T>, f: T -> Complex, c: Complex, s: T -> Complex)
    requires forall x :: x in xs ==> s(x) == Mul(c, f(x))
    ensures Total(xs, s) == Mul(c, Total(xs, f))
    decreases |xs|
  {
    if xs != [] {
      var n := |xs| - 1;
      TotalTimes(xs[..n], f, c, s);
      MulDistributes(c, Total(xs[..n], f), f(xs[n]));
    }
  }

  /** The term of one matrix entry in a row times the voltages. */
  ghost function InColumn(i: nat, j: nat, V: Voltages): Triplet -> Complex {
    (t: Triplet) => if t.row == i && t.col == j then Mul(t.value, V(j)) else ZERO
  }

  /** The terms of one row in the quadratic form. */
  ghost function InFormRow(V: Voltages, n: nat, i: nat): Triplet -> Complex {
    (t: Triplet) => if t.row == i && t.col < n then Mul(Conj(V(i)), Mul(t.value, V(t.col))) else ZERO
  }

  lemma MulCommutes(a: Complex, b: Complex)
    ensures Mul(a, b) == Mul(b, a)
  {
  }

  lemma MulZero(a: Complex)
    ensures Mul(a, ZERO) == ZERO
  {
  }

  lemma ColumnTerm(i: nat, V: Voltages, n: nat, t: Triplet)
    requires n > 0
    ensures InColumn(i, n - 1, V)(t) == Mul(V(n - 1), AtEntry(i, n - 1)(t))
    ensures InRow(i, V, n)(t) == Add(InRow(i, V, n - 1)(t), InColumn(i, n - 1, V)(t))
  {
    hide Mul;
    MulCommutes(V(n - 1), t.value);
    MulZero(V(n - 1));
  }

  lemma FormTerm(V: Voltages, n: nat, m: nat, t: Triplet)
    requires m > 0
    ensures InFormRow(V, n, m - 1)(t) == Mul(Conj(V(m - 1)), InRow(m - 1, V, n)(t))
    ensures InForm(V, n, m)(t) == Add(InForm(V, n, m - 1)(t), InFormRow(V, n, m - 1)(t))
  {
    hide Mul;
    MulZero(Conj(V(m - 1)));
  }

  lemma RowOfNothing(ts: seq<Triplet>, i: nat, V: Voltages)
    ensures Total(ts, InRow(i, V, 0)) == ZERO
  {
    forall t | t in ts ensures InRow(i, V, 0)(t) == ZERO {
      assert t.col >= 0;
    }
    TotalZero(ts, InRow(i, V, 0));
  }

  lemma FormOfNothing(ts: seq<Triplet>, V: Voltages, n: nat)
    ensures Total(ts, InForm(V, n, 0)) == ZERO
  {
    forall t | t in ts ensures InForm(V, n, 0)(t) == ZERO {
      assert t.row >= 0;
    }
    TotalZero(ts, InForm(V, n, 0));
  }

  lemma {:induction false} RowIsTotal(ts: seq<Triplet>, i: nat, V: Voltages, n: nat)
    ensures RowTimes(ts, i, V, n) == Total(ts, InRow(i, V, n))
    decreases n
  {
    hide Mul, Add;
    if n == 0 {
      RowOfNothing(ts, i, V);
    } else {
      RowIsTotal(ts, i, V, n - 1);
      EntryIsTotal(ts, i, n - 1);
      forall t | t in ts
        ensures InColumn(i, n - 1, V)(t) == Mul(V(n - 1), AtEntry(i, n - 1)(t))
        ensures InRow(i, V, n)(t) == Add(InRow(i, V, n - 1)(t), InColumn(i, n - 1, V)(t))
      {
        ColumnTerm(i, V, n, t);
      }
      TotalTimes(ts, AtEntry(i, n - 1), V(n - 1), InColumn(i, n - 1, V));
      MulCommutes(V(n - 1), Entry(ts, i, n - 1));
      TotalSum(ts, InRow(i, V, n - 1), InColumn(i, n - 1, V), InRow(i, V, n));
    }
  }

  lemma {:induction false} FormIsTotal(ts: seq<Triplet>, V: Voltages, n: nat, m: nat)
    ensures QuadraticForm(ts, V, n, m) == Total(ts, InForm(V, n, m))
    decreases m
  {
    hide Mul, Add;
    if m == 0 {
      FormOfNothing(ts, V, n);
    } else {
      FormIsTotal(ts, V, n, m - 1);
      RowIsTotal(ts, m - 1, V, n);
      forall t | t in ts
        ensures InFormRow(V, n, m - 1)(t) == Mul(Conj(V(m - 1)), InRow(m - 1, V, n)(t))
        ensures InForm(V, n, m)(t) == Add(InForm(V, n, m - 1)(t), InFormRow(V, n, m - 1)(t))
      {
        FormTerm(V, n, m, t);
      }
      TotalTimes(ts, InRow(m - 1, V, n), Conj(V(m - 1)), InFormRow(V, n, m - 1));
      TotalSum(ts, InForm(V, n, m - 1), InFormRow(V, n, m - 1), InForm(V, n, m));
    }
  }

  // ---- Row sums --------------------------------------------------------------

  const ONE := Complex(1.0, 0.0)

  ghost function Ones(): Voltages {
    (_: nat) => ONE
  }

  lemma RowTerm(t: Triplet, i: nat, n: nat)
    ensures InRow(i, Ones(), n)(t) == if t.row == i && t.col < n then t.value else ZERO
  {
  }

  /** The shunt of a branch as seen from bus i: once for each end there. */
  ghost function AtEnds(a: nat, b: nat, i: nat, shunt: Complex): Complex {
    Add(if a == i then shunt else ZERO, if b == i then shunt else ZERO)
  }

  ghost function LineShunt(lib: MathLib, h: Order, i: nat): Line -> Complex {
    (l: Line) =>
      if Negligible(LineImpedance(lib, h, l)) then ZERO
      else AtEnds(l.fromBus, l.toBus, i, LineCharging(h, l))
  }

  ghost function LoadShunt(h: Order, i: nat): Load -> Complex {
    (l: Load) => if l.busId == i then LoadAdmittance(h, l) else ZERO
  }

  ghost function CapacitorShunt(h: Order, i: nat): Capacitor -> Complex {
    (c: Capacitor) => if c.xC1 != 0.0 && c.busId == i then CapacitorAdmittance(h, c) else ZERO
  }

  lemma BranchRow(a: nat, b: nat, series: Complex, shunt: Complex, i: nat, n: nat)
    requires a < n && b < n
    ensures Total(Branch(a, b, series, shunt), InRow(i, Ones(), n)) == AtEnds(a, b, i, shunt)
  {
    TotalOfBranch(a, b, series, shunt, InRow(i, Ones(), n));
    RowTerm(Triplet(a, a, Add(series, shunt)), i, n);
    RowTerm(Triplet(b, b, Add(series, shunt)), i, n);
    RowTerm(Triplet(a, b, Neg(series)), i, n);
    RowTerm(Triplet(b, a, Neg(series)), i, n);
  }

  lemma LineRow(lib: MathLib, h: Order, l: Line, i: nat, n: nat)
    requires l.fromBus < n && l.toBus < n
    ensures Total(LineTriplets(lib, h)(l), InRow(i, Ones(), n)) == LineShunt(lib, h, i)(l)
  {
    var z := LineImpedance(lib, h, l);
    if !Negligible(z) {
      BranchRow(l.fromBus, l.toBus, Inverse(z), LineCharging(h, l), i, n);
    }
  }

  lemma TransformerRow(lib: MathLib, h: Order, t: Transformer, i: nat, n: nat)
    requires t.bus1 < n && t.bus2 < n
    ensures Total(TransformerTriplets(lib, h)(t), InRow(i, Ones(), n)) == ZERO
  {
    var z := TransformerImpedance(lib, h, t);
    if !Negligible(z) {
      BranchRow(t.bus1, t.bus2, Inverse(z), ZERO, i, n);
    }
  }

  lemma LoadRow(h: Order, l: Load, i: nat, n: nat)
    requires l.busId < n
    ensures Total(LoadTriplets(h)(l), InRow(i, Ones(), n)) == LoadShunt(h, i)(l)
  {
    var t := Triplet(l.busId, l.busId, LoadAdmittance(h, l));
    TotalOfOne(t, InRow(i, Ones(), n));
    RowTerm(t, i, n);
  }

  lemma CapacitorRow(h: Order, c: Capacitor, i: nat, n: nat)
    requires c.busId < n
    ensures Total(CapacitorTriplets(h)(c), InRow(i, Ones(), n)) == CapacitorShunt(h, i)(c)
  {
    if c.xC1 != 0.0 {
      var t := Triplet(c.busId, c.busId, CapacitorAdmittance(h, c));
      TotalOfOne(t, InRow(i, Ones(), n));
      RowTerm(t, i, n);
    }
  }

  /** Each row sums to the shunt elements at its bus; series elements cancel, self-loops included. */
  lemma RowSumIsShunt(lib: MathLib, h: Order, e: Elements, i: nat, n: nat)
    requires BusesBelow(e, n)
    ensures RowTimes(YbusTriplets(lib, h, e), i, Ones(), n) ==
            Add(Add(Total(e.lines, LineShunt(lib, h, i)), Total(e.loads, LoadShunt(h, i))),
                Total(e.capacitors, CapacitorShunt(h, i)))
  {
    var g := InRow(i, Ones(), n);
    RowIsTotal(YbusTriplets(lib, h, e), i, Ones(), n);
    YbusTotal(lib, h, e, g);
    forall l | l in e.lines ensures Share(LineTriplets(lib, h), g)(l) == LineShunt(lib, h, i)(l) {
      LineRow(lib, h, l, i, n);
    }
    TotalSame(e.lines, Share(LineTriplets(lib, h), g), LineShunt(lib, h, i));
    forall t | t in e.transformers ensures Share(TransformerTriplets(lib, h), g)(t) == ZERO {
      TransformerRow(lib, h, t, i, n);
    }
    TotalZero(e.transformers, Share(TransformerTriplets(lib, h), g));
    forall l | l in e.loads ensures Share(LoadTriplets(h), g)(l) == LoadShunt(h, i)(l) {
      LoadRow(h, l, i, n);
    }
    TotalSame(e.loads, Share(LoadTriplets(h), g), LoadShunt(h, i));
    forall c | c in e.capacitors ensures Share(CapacitorTriplets(h), g)(c) == CapacitorShunt(h, i)(c) {
      CapacitorRow(h, c, i, n);
    }
    TotalSame(e.capacitors, Share(CapacitorTriplets(h), g), CapacitorShunt(h, i));
  }

  // ---- Power -----------------------------------------------------------------

  /** Power drawn by an admittance between two buses with a shunt at either end. */
  ghost function BranchPower(va: Complex, vb: Complex, series: Complex, shunt: Complex): Complex {
    Add(Scale(NormSquared(Add(va, Neg(vb))), series), Scale(NormSquared(va) + NormSquared(vb), shunt))
  }

  ghost function LinePower(lib: MathLib, h: Order, V: Voltages): Line -> Complex {
    (l: Line) =>
      var z := LineImpedance(lib, h, l);
      if Negligible(z) then ZERO else BranchPower(V(l.fromBus), V(l.toBus), Inverse(z), LineCharging(h, l))
  }

  ghost function TransformerPower(lib: MathLib, h: Order, V: Voltages): Transformer -> Complex {
    (t: Transformer) =>
      var z := TransformerImpedance(lib, h, t);
      if Negligible(z) then ZERO else BranchPower(V(t.bus1), V(t.bus2), Inverse(z), ZERO)
  }

  ghost function LoadPower(h: Order, V: Voltages): Load -> Complex {
    (l: Load) => Scale(NormSquared(V(l.busId)), LoadAdmittance(h, l))
  }

  ghost function CapacitorPower(h: Order, V: Voltages): Capacitor -> Complex {
    (c: Capacitor) => if c.xC1 == 0.0 then ZERO else Scale(NormSquared(V(c.busId)), CapacitorAdmittance(h, c))
  }

  ghost function ElementsPower(lib: MathLib, h: Order, e: Elements, V: Voltages): Complex {
    Add(Add(Add(Total(e.lines, LinePower(lib, h, V)), Total(e.transformers, TransformerPower(lib, h, V))),
            Total(e.loads, LoadPower(h, V))),
        Total(e.capacitors, CapacitorPower(h, V)))
  }

  lemma SelfPower(v: Complex, y: Complex)
    ensures Mul(Conj(v), Mul(y, v)) == Scale(NormSquared(v), y)
  {
    MulAssociates(Conj(v), y, v);
    assert Mul(Conj(v), y) == Mul(y, Conj(v));
    MulAssociates(y, Conj(v), v);
    assert Mul(Conj(v), v) == Complex(NormSquared(v), 0.0);
  }

  lemma CrossPower(va: Complex, vb: Complex, y: Complex)
    ensures Add(Mul(Conj(va), Mul(Neg(y), vb)), Mul(Conj(vb), Mul(Neg(y), va))) ==
            Scale(NormSquared(Add(va, Neg(vb))) - NormSquared(va) - NormSquared(vb), y)
  {
    hide Mul, NormSquared;
    CrossTerm(va, vb);
    MulRotate(Conj(va), Neg(y), vb);
    MulRotate(Conj(vb), Neg(y), va);
    MulDistributes(Neg(y), Mul(Conj(va), vb), Mul(Conj(vb), va));
    RealTimes(Neg(y), NormSquared(va) + NormSquared(vb) - NormSquared(Add(va, Neg(vb))));
  }

  lemma CrossTerm(va: Complex, vb: Complex)
    ensures Add(Mul(Conj(va), vb), Mul(Conj(vb), va)) ==
            Complex(NormSquared(va) + NormSquared(vb) - NormSquared(Add(va, Neg(vb))), 0.0)
  {
  }

  lemma RealTimes(y: Complex, r: real)
    ensures Mul(y, Complex(r, 0.0)) == Scale(-r, Neg(y))
  {
  }

  lemma MulRotate(a: Complex, y: Complex, b: Complex)
    ensures Mul(a, Mul(y, b)) == Mul(y, Mul(a, b))
  {
    MulAssociates(a, y, b);
    MulAssociates(y, a, b);
    assert Mul(a, y) == Mul(y, a);
  }

  lemma BranchForm(a: nat, b: nat, series: Complex, shunt: Complex, V: Voltages, n: nat)
    requires a < n && b < n
    ensures Total(Branch(a, b, series, shunt), InForm(V, n, n)) == BranchPower(V(a), V(b), series, shunt)
  {
    TotalOfBranch(a, b, series, shunt, InForm(V, n, n));
    SelfPower(V(a), Add(series, shunt));
    SelfPower(V(b), Add(series, shunt));
    CrossPower(V(a), V(b), series);
    GatherPower(NormSquared(V(a)), NormSquared(V(b)), NormSquared(Add(V(a), Neg(V(b)))), series, shunt);
  }

  lemma GatherPower(na: real, nb: real, nd: real, series: Complex, shunt: Complex)
    ensures Add(Add(Scale(na, Add(series, shunt)), Scale(nb, Add(series, shunt))), Scale(nd - na - nb, series)) ==
            Add(Scale(nd, series), Scale(na + nb, shunt))
  {
  }

  lemma LineForm(lib: MathLib, h: Order, l: Line, V: Voltages, n: nat)
    requires l.fromBus < n && l.toBus < n
    ensures Total(LineTriplets(lib, h)(l), InForm(V, n, n)) == LinePower(lib, h, V)(l)
  {
    var z := LineImpedance(lib, h, l);
    if !Negligible(z) {
      BranchForm(l.fromBus, l.toBus, Inverse(z), LineCharging(h, l), V, n);
    }
  }

  lemma TransformerForm(lib: MathLib, h: Order, t: Transformer, V: Voltages, n: nat)
    requires t.bus1 < n && t.bus2 < n
    ensures Total(TransformerTriplets(lib, h)(t), InForm(V, n, n)) == TransformerPower(lib, h, V)(t)
  {
    var z := TransformerImpedance(lib, h, t);
    if !Negligible(z) {
      BranchForm(t.bus1, t.bus2, Inverse(z), ZERO, V, n);
    }
  }

  lemma ShuntForm(b: nat, y: Complex, V: Voltages, n: nat)
    requires b < n
    ensures Total([Triplet(b, b, y)], InForm(V, n, n)) == Scale(NormSquared(V(b)), y)
  {
    hide Mul, Conj, Scale, NormSquared, Total;
    var t, g := Triplet(b, b, y), InForm(V, n, n);
    TotalOfOne(t, g);
    SelfPower(V(b), y);
    assert g(t) == Mul(Conj(V(b)), Mul(y, V(b)));
  }

  lemma LoadForm(h: Order, l: Load, V: Voltages, n: nat)
    requires l.busId < n
    ensures Total(LoadTriplets(h)(l), InForm(V, n, n)) == LoadPower(h, V)(l)
  {
    ShuntForm(l.busId, LoadAdmittance(h, l), V, n);
  }

  lemma CapacitorForm(h: Order, c: Capacitor, V: Voltages, n: nat)
    requires c.busId < n
    ensures Total(CapacitorTriplets(h)(c), InForm(V, n, n)) == CapacitorPower(h, V)(c)
  {
    if c.xC1 != 0.0 {
      ShuntForm(c.busId, CapacitorAdmittance(h, c), V, n);
    }
  }

  /** For any voltages, the power the matrix draws is the sum of the powers of the elements. */
  lemma PowerIsConserved(lib: MathLib, h: Order, e: Elements, V: Voltages, n: nat)
    requires BusesBelow(e, n)
    ensures QuadraticForm(YbusTriplets(lib, h, e), V, n, n) == ElementsPower(lib, h, e, V)
  {
    var g := InForm(V, n, n);
    FormIsTotal(YbusTriplets(lib, h, e), V, n, n);
    YbusTotal(lib, h, e, g);
    forall l | l in e.lines ensures Share(LineTriplets(lib, h), g)(l) == LinePower(lib, h, V)(l) {
      LineForm(lib, h, l, V, n);
    }
    TotalSame(e.lines, Share(LineTriplets(lib, h), g), LinePower(lib, h, V));
    forall t | t in e.transformers ensures Share(TransformerTriplets(lib, h), g)(t) == TransformerPower(lib, h, V)(t) {
      TransformerForm(lib, h, t, V, n);
    }
    TotalSame(e.transformers, Share(TransformerTriplets(lib, h), g), TransformerPower(lib, h, V));
    forall l | l in e.loads ensures Share(LoadTriplets(h), g)(l) == LoadPower(h, V)(l) {
      LoadForm(h, l, V, n);
    }
    TotalSame(e.loads, Share(LoadTriplets(h), g), LoadPower(h, V));
    forall c | c in e.capacitors ensures Share(CapacitorTriplets(h), g)(c) == CapacitorPower(h, V)(c) {
      CapacitorForm(h, c, V, n);
    }
    TotalSame(e.capacitors, Share(CapacitorTriplets(h), g), CapacitorPower(h, V));
  }

  // ---- Passivity -------------------------------------------------------------

  lemma NormNonNegative(a: Complex)
    ensures NormSquared(a) >= 0.0
  {
    SquareNonNegative(a.re);
    SquareNonNegative(a.im);
  }

  lemma InverseRealPart(z: Complex)
    requires NormSquared(z) != 0.0 && z.re >= 0.0
    ensures Inverse(z).re >= 0.0
  {
    NormNonNegative(z);
  }

  lemma BranchDraws(va: Complex, vb: Complex, z: Complex, shunt: Complex)
    requires NormSquared(z) != 0.0 && z.re >= 0.0 && shunt.re == 0.0
    ensures BranchPower(va, vb, Inverse(z), shunt).re >= 0.0
  {
    InverseRealPart(z);
    NormNonNegative(Add(va, Neg(vb)));
    ProductNonNegative(NormSquared(Add(va, Neg(vb))), Inverse(z).re);
  }

  lemma TransformerResistance(lib: MathLib, h: Order, t: Transformer)
    requires NonNegative(lib)
    ensures TransformerImpedance(lib, h, t).re >= 0.0
  {
    var r := t.pcu / 1000.0 / t.ratedPower;
    ProductNonNegative(if r < 0.0 then 0.0 else r, lib.sqrt(h as real));
  }

  ghost predicate PassiveElements(e: Elements) {
    && (forall l :: l in e.lines ==> l.r1 >= 0.0)
    && (forall l :: l in e.loads ==> l.p >= 0.0)
  }

  /**
   * A network of resistive lines and consuming loads never delivers active power, at any
   * harmonic, whatever its transformers and capacitors.
   */
  lemma YbusPassive(lib: MathLib, h: Order, e: Elements, V: Voltages, n: nat)
    requires BusesBelow(e, n) && NonNegative(lib) && PassiveElements(e)
    ensures QuadraticForm(YbusTriplets(lib, h, e), V, n, n).re >= 0.0
  {
    PowerIsConserved(lib, h, e, V, n);
    ElementsDraw(lib, h, e, V);
  }

  lemma ElementsDraw(lib: MathLib, h: Order, e: Elements, V: Voltages)
    requires NonNegative(lib) && PassiveElements(e)
    ensures ElementsPower(lib, h, e, V).re >= 0.0
  {
    forall l | l in e.lines ensures LinePower(lib, h, V)(l).re >= 0.0 {
      LineDraws(lib, h, l, V);
    }
    TotalRealNonNegative(e.lines, LinePower(lib, h, V));
    forall t | t in e.transformers ensures TransformerPower(lib, h, V)(t).re >= 0.0 {
      TransformerDraws(lib, h, t, V);
    }
    TotalRealNonNegative(e.transformers, TransformerPower(lib, h, V));
    forall l | l in e.loads ensures LoadPower(h, V)(l).re >= 0.0 {
      LoadDraws(h, l, V);
    }
    TotalRealNonNegative(e.loads, LoadPower(h, V));
    forall c | c in e.capacitors ensures CapacitorPower(h, V)(c).re >= 0.0 {
      CapacitorDrawsNothing(h, c, V);
    }
    TotalRealNonNegative(e.capacitors, CapacitorPower(h, V));
  }

  lemma LoadDraws(h: Order, l: Load, V: Voltages)
    requires l.p >= 0.0
    ensures LoadPower(h, V)(l).re >= 0.0
  {
    NormNonNegative(V(l.busId));
    ProductNonNegative(NormSquared(V(l.busId)), l.p);
  }

  lemma CapacitorDrawsNothing(h: Order, c: Capacitor, V: Voltages)
    ensures CapacitorPower(h, V)(c).re == 0.0
  {
  }

  lemma LineDraws(lib: MathLib, h: Order, l: Line, V: Voltages)
    requires NonNegative(lib) && l.r1 >= 0.0
    ensures LinePower(lib, h, V)(l).re >= 0.0
  {
    var z := LineImpedance(lib, h, l);
    ProductNonNegative(l.r1, lib.pow(h, l.skinExponent));
    if !Negligible(z) {
      BranchDraws(V(l.fromBus), V(l.toBus), z, LineCharging(h, l));
    }
  }

  lemma TransformerDraws(lib: MathLib, h: Order, t: Transformer, V: Voltages)
    requires NonNegative(lib)
    ensures TransformerPower(lib, h, V)(t).re >= 0.0
  {
    var z := TransformerImpedance(lib, h, t);
    TransformerResistance(lib, h, t);
    if !Negligible(z) {
      BranchDraws(V(t.bus1), V(t.bus2), z, ZERO);
    }
  }
}
