/**
 * What the harmonic admittance matrix is in terms of the network data alone: the matrix of each
 * single element, how single matrices add up, and how each kind of element depends on the order.
 */
module HarmonicLaws {
  import opened Numbers
  import opened HarmonicYbus

  ghost function At(lib: MathLib, h: Order, e: Elements, i: int, j: int): Complex {
    Entry(YbusTriplets(lib, h, e), i, j)
  }

  lemma AtIsTotal(lib: MathLib, h: Order, e: Elements, i: int, j: int)
    ensures At(lib, h, e, i, j) == ElementTotal(lib, h, e, AtEntry(i, j))
  {
    EntryIsTotal(YbusTriplets(lib, h, e), i, j);
    YbusTotal(lib, h, e, AtEntry(i, j));
  }

  // ---------------------------------------------------------------------------
  // Adding up
  // ---------------------------------------------------------------------------

  function Joined(e: Elements, f: Elements): Elements {
    Elements(e.lines + f.lines, e.transformers + f.transformers, e.loads + f.loads, e.capacitors + f.capacitors)
  }

  /** The matrix of two networks on the same buses is the sum of their matrices. */
  lemma MatricesAddUp(lib: MathLib, h: Order, e: Elements, f: Elements, i: int, j: int)
    ensures At(lib, h, Joined(e, f), i, j) == Add(At(lib, h, e, i, j), At(lib, h, f, i, j))
  {
    hide At, AtEntry, Total, Share, Add, LineTriplets, TransformerTriplets, LoadTriplets, CapacitorTriplets;
    AtIsTotal(lib, h, e, i, j);
    AtIsTotal(lib, h, f, i, j);
    AtIsTotal(lib, h, Joined(e, f), i, j);
    var l, t := Share(LineTriplets(lib, h), AtEntry(i, j)), Share(TransformerTriplets(lib, h), AtEntry(i, j));
    var d, c := Share(LoadTriplets(h), AtEntry(i, j)), Share(CapacitorTriplets(h), AtEntry(i, j));
    TotalAppend(e.lines, f.lines, l);
    TotalAppend(e.transformers, f.transformers, t);
    TotalAppend(e.loads, f.loads, d);
    TotalAppend(e.capacitors, f.capacitors, c);
    AddGroups(Total(e.lines, l), Total(e.transformers, t), Total(e.loads, d), Total(e.capacitors, c),
              Total(f.lines, l), Total(f.transformers, t), Total(f.loads, d), Total(f.capacitors, c));
  }

  lemma AddGroups(a: Complex, b: Complex, c: Complex, d: Complex, p: Complex, q: Complex, r: Complex, s: Complex)
    ensures Add(Add(Add(Add(a, p), Add(b, q)), Add(c, r)), Add(d, s))
         == Add(Add(Add(Add(a, b), c), d), Add(Add(Add(p, q), r), s))
  {
  }

  function OfLines(lines: seq<Line>): Elements { Elements(lines, [], [], []) }

  function OfTransformers(transformers: seq<Transformer>): Elements { Elements([], transformers, [], []) }

  function OfLoads(loads: seq<Load>): Elements { Elements([], [], loads, []) }

  function OfCapacitors(capacitors: seq<Capacitor>): Elements { Elements([], [], [], capacitors) }

  lemma NoTotal<T>(f: T -> Complex)
    ensures Total([], f) == ZERO
  {
  }

  lemma AddZero(a: Complex)
    ensures Add(a, ZERO) == a && Add(ZERO, a) == a
  {
  }

  lemma AtOfLines(lib: MathLib, h: Order, lines: seq<Line>, i: int, j: int)
    ensures At(lib, h, OfLines(lines), i, j) == Total(lines, Share(LineTriplets(lib, h), AtEntry(i, j)))
  {
    hide Total, Share, Add;
    AtIsTotal(lib, h, OfLines(lines), i, j);
    NoTotal(Share(TransformerTriplets(lib, h), AtEntry(i, j)));
    NoTotal(Share(LoadTriplets(h), AtEntry(i, j)));
    NoTotal(Share(CapacitorTriplets(h), AtEntry(i, j)));
    AddZero(Total(lines, Share(LineTriplets(lib, h), AtEntry(i, j))));
  }

  lemma AtOfTransformers(lib: MathLib, h: Order, transformers: seq<Transformer>, i: int, j: int)
    ensures At(lib, h, OfTransformers(transformers), i, j)
         == Total(transformers, Share(TransformerTriplets(lib, h), AtEntry(i, j)))
  {
    hide Total, Share, Add;
    AtIsTotal(lib, h, OfTransformers(transformers), i, j);
    NoTotal(Share(LineTriplets(lib, h), AtEntry(i, j)));
    NoTotal(Share(LoadTriplets(h), AtEntry(i, j)));
    NoTotal(Share(CapacitorTriplets(h), AtEntry(i, j)));
    AddZero(Total(transformers, Share(TransformerTriplets(lib, h), AtEntry(i, j))));
  }

  lemma AtOfLoads(lib: MathLib, h: Order, loads: seq<Load>, i: int, j: int)
    ensures At(lib, h, OfLoads(loads), i, j) == Total(loads, Share(LoadTriplets(h), AtEntry(i, j)))
  {
    hide Total, Share, Add;
    AtIsTotal(lib, h, OfLoads(loads), i, j);
    NoTotal(Share(LineTriplets(lib, h), AtEntry(i, j)));
    NoTotal(Share(TransformerTriplets(lib, h), AtEntry(i, j)));
    NoTotal(Share(CapacitorTriplets(h), AtEntry(i, j)));
    AddZero(ZERO);
    AddZero(Total(loads, Share(LoadTriplets(h), AtEntry(i, j))));
  }

  lemma AtOfCapacitors(lib: MathLib, h: Order, capacitors: seq<Capacitor>, i: int, j: int)
    ensures At(lib, h, OfCapacitors(capacitors), i, j) == Total(capacitors, Share(CapacitorTriplets(h), AtEntry(i, j)))
  {
    hide Total, Share, Add;
    AtIsTotal(lib, h, OfCapacitors(capacitors), i, j);
    NoTotal(Share(LineTriplets(lib, h), AtEntry(i, j)));
    NoTotal(Share(TransformerTriplets(lib, h), AtEntry(i, j)));
    NoTotal(Share(LoadTriplets(h), AtEntry(i, j)));
    AddZero(ZERO);
    AddZero(Total(capacitors, Share(CapacitorTriplets(h), AtEntry(i, j))));
  }

  lemma TotalOfSingle<T>(x: T, f: T -> Complex)
    ensures Total([x], f) == f(x)
  {
    assert [x][..0] == [];
  }

  // ---------------------------------------------------------------------------
  // Single elements
  // ---------------------------------------------------------------------------

  const MINUS_ONE := Complex(-1.0, 0.0)

  /** The matrix of a lone element between two buses: m between them, d at either of them, nothing elsewhere. */
  ghost predicate TwoPort(lib: MathLib, h: Order, e: Elements, a: nat, b: nat, m: Complex, d: Complex) {
    && At(lib, h, e, a, b) == m && At(lib, h, e, b, a) == m
    && At(lib, h, e, a, a) == d && At(lib, h, e, b, b) == d
    && forall i, j :: !(i in {a, b} && j in {a, b}) ==> At(lib, h, e, i, j) == ZERO
  }

  lemma BranchEntries(a: nat, b: nat, series: Complex, shunt: Complex, i: int, j: int)
    requires a != b
    ensures Total(Branch(a, b, series, shunt), AtEntry(i, j))
         == if (i == a && j == b) || (i == b && j == a) then Neg(series)
            else if i == j && (i == a || i == b) then Add(series, shunt) else ZERO
  {
    hide Add, Neg, Total;
    TotalOfBranch(a, b, series, shunt, AtEntry(i, j));
    AddZero(ZERO);
    AddZero(Neg(series));
    AddZero(Add(series, shunt));
  }

  lemma LoneLineEntry(lib: MathLib, h: Order, l: Line, i: int, j: int)
    ensures At(lib, h, OfLines([l]), i, j) == Total(LineTriplets(lib, h)(l), AtEntry(i, j))
  {
    AtOfLines(lib, h, [l], i, j);
    TotalOfSingle(l, Share(LineTriplets(lib, h), AtEntry(i, j)));
  }

  lemma InverseTimes(z: Complex)
    requires NormSquared(z) != 0.0
    ensures Mul(Neg(Inverse(z)), z) == MINUS_ONE
  {
    InverseIsInverse(z);
    assert Mul(Neg(Inverse(z)), z) == Neg(Mul(Inverse(z), z));
  }

  /**
   * A line with impedance r1 h^skin + j h x1 between two buses: the entry between them times this
   * impedance is -1, and either bus has its negation and half of the charging h b1.
   */
  lemma LoneLine(lib: MathLib, h: Order, l: Line) returns (m: Complex)
    requires l.fromBus != l.toBus
    requires var r, x := l.r1 * lib.pow(h, l.skinExponent), h as real * l.x1; r * r + x * x >= 0.000000000001 * 0.000000000001
    ensures Mul(m, Complex(l.r1 * lib.pow(h, l.skinExponent), h as real * l.x1)) == MINUS_ONE
    ensures TwoPort(lib, h, OfLines([l]), l.fromBus, l.toBus, m, Complex(-m.re, -m.im + h as real * l.b1 / 2.0))
  {
    hide Mul, Total, Inverse, Entry, YbusTriplets;
    var z := LineImpedance(lib, h, l);
    assert z == Complex(l.r1 * lib.pow(h, l.skinExponent), h as real * l.x1);
    m := Neg(Inverse(z));
    InverseTimes(z);
    forall i, j ensures At(lib, h, OfLines([l]), i, j)
                     == Total(Branch(l.fromBus, l.toBus, Inverse(z), LineCharging(h, l)), AtEntry(i, j))
    {
      LoneLineEntry(lib, h, l, i, j);
    }
    forall i, j { BranchEntries(l.fromBus, l.toBus, Inverse(z), LineCharging(h, l), i, j); }
  }

  /** A line of a smaller impedance is left out. */
  lemma NegligibleLine(lib: MathLib, h: Order, l: Line, i: int, j: int)
    requires var r, x := l.r1 * lib.pow(h, l.skinExponent), h as real * l.x1; r * r + x * x < 0.000000000001 * 0.000000000001
    ensures At(lib, h, OfLines([l]), i, j) == ZERO
  {
    LoneLineEntry(lib, h, l, i, j);
    assert LineTriplets(lib, h)(l) == [];
  }

  /** The square root of the library is one. */
  ghost predicate IsRoot(sqrt: real -> real) {
    forall x: real :: x >= 0.0 ==> sqrt(x) >= 0.0 && sqrt(x) * sqrt(x) == x
  }

  lemma LoneTransformerEntry(lib: MathLib, h: Order, t: Transformer, i: int, j: int)
    ensures At(lib, h, OfTransformers([t]), i, j) == Total(TransformerTriplets(lib, h)(t), AtEntry(i, j))
  {
    AtOfTransformers(lib, h, [t], i, j);
    TotalOfSingle(t, Share(TransformerTriplets(lib, h), AtEntry(i, j)));
  }

  /** The resistance from the copper losses, and the reactance that completes the short-circuit voltage. */
  lemma TransformerParts(lib: MathLib, h: Order, t: Transformer) returns (r: real, x: real, s: real)
    requires IsRoot(lib.sqrt)
    ensures TransformerImpedance(lib, h, t) == Complex(r * s, x * h as real)
    ensures var loss, uk := t.pcu / 1000.0 / t.ratedPower, t.uk / 100.0;
            && r == (if loss < 0.0 then 0.0 else loss)
            && x >= 0.0 && x * x == (if uk * uk > r * r then uk * uk - r * r else 0.0)
            && s >= 0.0 && s * s == h as real
  {
    hide IsRoot, Completing, CopperResistance;
    r := CopperResistance(t);
    x := Completing(lib, t.uk / 100.0, r);
    s := lib.sqrt(h as real);
    RootIs(lib.sqrt, h as real);
    CompletingIs(lib, t.uk / 100.0, r);
    ResistanceIs(t);
  }

  lemma ResistanceIs(t: Transformer)
    ensures var loss := t.pcu / 1000.0 / t.ratedPower; CopperResistance(t) == if loss < 0.0 then 0.0 else loss
  {
  }

  lemma CompletingIs(lib: MathLib, uk: real, r: real)
    requires IsRoot(lib.sqrt)
    ensures var x := Completing(lib, uk, r); x >= 0.0 && x * x == if uk * uk > r * r then uk * uk - r * r else 0.0
  {
    hide IsRoot;
    var rest := uk * uk - r * r;
    if rest > 0.0 { RootIs(lib.sqrt, rest); }
  }

  lemma RootIs(sqrt: real -> real, x: real)
    requires IsRoot(sqrt) && x >= 0.0
    ensures sqrt(x) >= 0.0 && sqrt(x) * sqrt(x) == x
  {
  }

  /**
   * A transformer between two buses: the resistance r comes from the copper losses and grows with
   * the root of the order, the reactance x completes it to the short-circuit voltage and grows with
   * the order; the entry between the buses times this impedance is -1.
   */
  lemma LoneTransformer(lib: MathLib, h: Order, t: Transformer) returns (r: real, x: real, s: real, m: Complex)
    requires t.bus1 != t.bus2 && IsRoot(lib.sqrt)
    ensures var loss, uk := t.pcu / 1000.0 / t.ratedPower, t.uk / 100.0;
            && r == (if loss < 0.0 then 0.0 else loss)
            && x >= 0.0 && x * x == (if uk * uk > r * r then uk * uk - r * r else 0.0)
            && s >= 0.0 && s * s == h as real
    ensures var z := Complex(r * s, x * h as real);
            if NormSquared(z) < 0.000000000001 * 0.000000000001 then
              forall i, j :: At(lib, h, OfTransformers([t]), i, j) == ZERO
            else
              Mul(m, z) == MINUS_ONE && TwoPort(lib, h, OfTransformers([t]), t.bus1, t.bus2, m, Neg(m))
  {
    hide Mul, Total, Inverse, Entry, YbusTriplets, TransformerImpedance, NormSquared, IsRoot;
    r, x, s := TransformerParts(lib, h, t);
    var z := TransformerImpedance(lib, h, t);
    m := ZERO;
    if Negligible(z) {
      forall i, j ensures At(lib, h, OfTransformers([t]), i, j) == ZERO {
        LoneTransformerEntry(lib, h, t, i, j);
        NothingTotal(AtEntry(i, j));
      }
    } else {
      m := Neg(Inverse(z));
      InverseTimes(z);
      forall i, j ensures At(lib, h, OfTransformers([t]), i, j) == Total(Branch(t.bus1, t.bus2, Inverse(z), ZERO), AtEntry(i, j)) {
        LoneTransformerEntry(lib, h, t, i, j);
      }
      forall i, j { BranchEntries(t.bus1, t.bus2, Inverse(z), ZERO, i, j); }
    }
  }

  lemma NothingTotal(g: Triplet -> Complex)
    ensures Total([], g) == ZERO
  {
  }

  /** A lone load p + jq is the admittance p - jq/h at its bus. */
  lemma LoneLoad(lib: MathLib, h: Order, l: Load, i: int, j: int)
    ensures At(lib, h, OfLoads([l]), i, j) == if i == j == l.busId then Complex(l.p, -l.q / h as real) else ZERO
  {
    AtOfLoads(lib, h, [l], i, j);
    TotalOfSingle(l, Share(LoadTriplets(h), AtEntry(i, j)));
    TotalOfOne(Triplet(l.busId, l.busId, LoadAdmittance(h, l)), AtEntry(i, j));
  }

  /** A lone capacitor is the admittance jh/xC1 at its bus. */
  lemma LoneCapacitor(lib: MathLib, h: Order, c: Capacitor, i: int, j: int)
    ensures At(lib, h, OfCapacitors([c]), i, j)
         == if i == j == c.busId && c.xC1 != 0.0 then Complex(0.0, h as real / c.xC1) else ZERO
  {
    AtOfCapacitors(lib, h, [c], i, j);
    TotalOfSingle(c, Share(CapacitorTriplets(h), AtEntry(i, j)));
    if c.xC1 != 0.0 { TotalOfOne(Triplet(c.busId, c.busId, CapacitorAdmittance(h, c)), AtEntry(i, j)); }
  }

  // ---------------------------------------------------------------------------
  // Dependence on the order
  // ---------------------------------------------------------------------------

  lemma {:induction false} TotalScaled<T>(xs: seq<T>, f: T -> Complex, k: real, g: T -> Complex)
    requires forall x :: x in xs ==> g(x) == Scale(k, f(x))
    ensures Total(xs, g) == Scale(k, Total(xs, f))
    decreases |xs|
  {
    if xs != [] {
      TotalScaled(xs[..|xs| - 1], f, k, g);
      ScaleDistributes(k, Total(xs[..|xs| - 1], f), f(xs[|xs| - 1]));
    }
  }

  lemma ScaleDistributes(k: real, a: Complex, b: Complex)
    ensures Scale(k, Add(a, b)) == Add(Scale(k, a), Scale(k, b)) && Scale(k, Neg(a)) == Neg(Scale(k, a))
  {
  }

  lemma ScaleZero(k: real)
    ensures Scale(k, ZERO) == ZERO
  {
  }

  /** Lossless, without charging, and not negligible. */
  predicate IsReactance(l: Line) {
    l.r1 == 0.0 && l.b1 == 0.0 && (l.x1 >= 0.000000000001 || l.x1 <= -0.000000000001)
  }

  lemma ReactanceInverse(x: real)
    requires x != 0.0
    ensures NormSquared(Complex(0.0, x)) != 0.0
    ensures Inverse(Complex(0.0, x)) == Complex(0.0, -1.0 / x)
  {
    assert NormSquared(Complex(0.0, x)) == x * x;
    assert (-x) / (x * x) == -1.0 / x;
  }

  lemma ReactanceGrows(h: Order, x: real, z: Complex)
    requires x >= 0.000000000001 || x <= -0.000000000001
    requires z.im == h as real * x
    ensures !Negligible(z) && z.im != 0.0
  {
    hide Negligible;
    if x > 0.0 {
      assert z.im >= x by { ProductNonNegative((h - 1) as real, x); }
    } else {
      assert -z.im >= -x by { ProductNonNegative((h - 1) as real, -x); }
    }
    NotNegligible(z);
  }

  lemma NotNegligible(z: Complex)
    requires z.im >= 0.000000000001 || z.im <= -0.000000000001
    ensures !Negligible(z)
  {
    SquareNonNegative(z.re);
    SquaresInOrder(0.000000000001, if z.im > 0.0 then z.im else -z.im);
  }

  lemma SquaresInOrder(a: real, b: real)
    requires 0.0 <= a <= b
    ensures a * a <= b * b
  {
  }

  function AtOrder(h: Order, x: real): Complex
    requires x != 0.0
  {
    ReactanceNotZero(h, x);
    Complex(0.0, -1.0 / (h as real * x))
  }

  lemma ReactanceNotZero(h: Order, x: real)
    requires x != 0.0
    ensures h as real * x != 0.0
  {
  }

  lemma ReactanceParts(lib: MathLib, h: Order, l: Line) returns (z: Complex)
    requires IsReactance(l)
    ensures l.x1 != 0.0 && LineCharging(h, l) == ZERO && z == LineImpedance(lib, h, l)
    ensures !Negligible(z) && NormSquared(z) != 0.0 && Inverse(z) == AtOrder(h, l.x1)
  {
    hide Inverse, Negligible, NormSquared, AtOrder;
    z := LineImpedance(lib, h, l);
    ReactanceGrows(h, l.x1, z);
    InverseAtOrder(h, l.x1, z);
  }

  lemma InverseAtOrder(h: Order, x: real, z: Complex)
    requires x != 0.0 && z.re == 0.0 && z.im == h as real * x
    ensures NormSquared(z) != 0.0 && Inverse(z) == AtOrder(h, x)
  {
    hide Inverse, NormSquared;
    ReactanceNotZero(h, x);
    ReactanceInverse(z.im);
  }

  lemma ReactanceAtOrder(lib: MathLib, h: Order, l: Line)
    requires IsReactance(l)
    ensures l.x1 != 0.0 && LineTriplets(lib, h)(l) == Branch(l.fromBus, l.toBus, AtOrder(h, l.x1), ZERO)
  {
    hide LineImpedance, LineCharging, Inverse, Negligible, NormSquared, Branch, LineTriplets, AtOrder;
    var z := ReactanceParts(lib, h, l);
    LineIsBranch(lib, h, l, z, AtOrder(h, l.x1));
  }

  lemma LineIsBranch(lib: MathLib, h: Order, l: Line, z: Complex, y: Complex)
    requires LineImpedance(lib, h, l) == z && !Negligible(z) && NormSquared(z) != 0.0 && Inverse(z) == y
    requires LineCharging(h, l) == ZERO
    ensures LineTriplets(lib, h)(l) == Branch(l.fromBus, l.toBus, y, ZERO)
  {
    hide LineImpedance, LineCharging, Inverse, Branch, NormSquared;
  }

  /** A lone reactance has the entry j/(h x1) between its buses. */
  lemma LoneReactance(lib: MathLib, h: Order, l: Line)
    requires IsReactance(l) && l.fromBus != l.toBus
    ensures h as real * l.x1 != 0.0
    ensures At(lib, h, OfLines([l]), l.fromBus, l.toBus) == Complex(0.0, 1.0 / (h as real * l.x1))
  {
    LoneLineEntry(lib, h, l, l.fromBus, l.toBus);
    ReactanceAtOrder(lib, h, l);
    BranchEntries(l.fromBus, l.toBus, AtOrder(h, l.x1), ZERO, l.fromBus, l.toBus);
  }

  lemma BranchScaled(a: nat, b: nat, k: real, series: Complex, i: int, j: int)
    ensures Total(Branch(a, b, Scale(k, series), ZERO), AtEntry(i, j))
         == Scale(k, Total(Branch(a, b, series, ZERO), AtEntry(i, j)))
  {
    TotalOfBranch(a, b, Scale(k, series), ZERO, AtEntry(i, j));
    TotalOfBranch(a, b, series, ZERO, AtEntry(i, j));
  }

  lemma ReactanceShrinks(h: Order, x: real)
    requires x != 0.0
    ensures AtOrder(h, x) == Scale(1.0 / h as real, AtOrder(1, x))
  {
    assert -1.0 / (h as real * x) == 1.0 / h as real * (-1.0 / x);
  }

  lemma ReactanceShare(lib: MathLib, h: Order, l: Line, i: int, j: int)
    requires IsReactance(l)
    ensures Share(LineTriplets(lib, h), AtEntry(i, j))(l)
         == Scale(1.0 / h as real, Share(LineTriplets(lib, 1), AtEntry(i, j))(l))
  {
    hide Total, Scale, Branch, LineTriplets, AtEntry, IsReactance, AtOrder;
    ReactanceAtOrder(lib, h, l);
    ReactanceAtOrder(lib, 1, l);
    ReactanceShrinks(h, l.x1);
    BranchScaled(l.fromBus, l.toBus, 1.0 / h as real, AtOrder(1, l.x1), i, j);
  }

  /** The matrix of reactances alone falls with the order. */
  lemma ReactancesShrink(lib: MathLib, h: Order, lines: seq<Line>, i: int, j: int)
    requires forall l :: l in lines ==> IsReactance(l)
    ensures At(lib, h, OfLines(lines), i, j) == Scale(1.0 / h as real, At(lib, 1, OfLines(lines), i, j))
  {
    hide Total, Scale, Branch, LineTriplets, Share, IsReactance, AtEntry;
    AtOfLines(lib, h, lines, i, j);
    AtOfLines(lib, 1, lines, i, j);
    var f, g := Share(LineTriplets(lib, 1), AtEntry(i, j)), Share(LineTriplets(lib, h), AtEntry(i, j));
    forall l | l in lines ensures g(l) == Scale(1.0 / h as real, f(l)) {
      ReactanceShare(lib, h, l, i, j);
    }
    TotalScaled(lines, f, 1.0 / h as real, g);
  }

  /** The matrix of capacitors alone grows with the order. */
  lemma CapacitorsGrow(lib: MathLib, h: Order, capacitors: seq<Capacitor>, i: int, j: int)
    ensures At(lib, h, OfCapacitors(capacitors), i, j) == Scale(h as real, At(lib, 1, OfCapacitors(capacitors), i, j))
  {
    hide Total, Scale, CapacitorTriplets, Share, AtEntry;
    AtOfCapacitors(lib, h, capacitors, i, j);
    AtOfCapacitors(lib, 1, capacitors, i, j);
    var f, g := Share(CapacitorTriplets(1), AtEntry(i, j)), Share(CapacitorTriplets(h), AtEntry(i, j));
    forall c | c in capacitors ensures g(c) == Scale(h as real, f(c)) {
      CapacitorShare(h, c, i, j);
    }
    TotalScaled(capacitors, f, h as real, g);
  }

  lemma CapacitorShare(h: Order, c: Capacitor, i: int, j: int)
    ensures Share(CapacitorTriplets(h), AtEntry(i, j))(c) == Scale(h as real, Share(CapacitorTriplets(1), AtEntry(i, j))(c))
  {
    hide Share, CapacitorTriplets;
    LoneCapacitorShare(h, c, AtEntry(i, j));
    LoneCapacitorShare(1, c, AtEntry(i, j));
  }

  lemma LoneCapacitorShare(h: Order, c: Capacitor, g: Triplet -> Complex)
    ensures Share(CapacitorTriplets(h), g)(c)
         == if c.xC1 == 0.0 then ZERO else g(Triplet(c.busId, c.busId, Complex(0.0, h as real / c.xC1)))
  {
    if c.xC1 != 0.0 { TotalOfOne(Triplet(c.busId, c.busId, CapacitorAdmittance(h, c)), g); }
  }

  /** What loads draw in phase is the same at every order; what they draw out of phase falls with it. */
  lemma {:induction false} LoadsShrink(lib: MathLib, h: Order, loads: seq<Load>, i: int, j: int)
    ensures var first := At(lib, 1, OfLoads(loads), i, j);
            At(lib, h, OfLoads(loads), i, j) == Complex(first.re, first.im / h as real)
    decreases |loads|
  {
    hide At;
    if loads == [] {
      NoElements(lib, h, i, j);
      NoElements(lib, 1, i, j);
    } else {
      var front, last := loads[..|loads| - 1], loads[|loads| - 1];
      LoadsShrink(lib, h, front, i, j);
      assert OfLoads(loads) == Joined(OfLoads(front), OfLoads([last]));
      MatricesAddUp(lib, h, OfLoads(front), OfLoads([last]), i, j);
      MatricesAddUp(lib, 1, OfLoads(front), OfLoads([last]), i, j);
      LoneLoad(lib, h, last, i, j);
      LoneLoad(lib, 1, last, i, j);
    }
  }

  lemma NoElements(lib: MathLib, h: Order, i: int, j: int)
    ensures At(lib, h, OfLoads([]), i, j) == ZERO
  {
  }

  /** Without loads, what a row sums to, which is the charging and the capacitors at its bus, grows with the order. */
  lemma ShuntsGrow(lib: MathLib, h: Order, e: Elements, i: nat, n: nat)
    requires BusesBelow(e, n) && e.loads == []
    requires forall l :: l in e.lines ==> l.x1 >= 0.000000000001 || l.x1 <= -0.000000000001
    ensures RowTimes(YbusTriplets(lib, h, e), i, Ones(), n) == Scale(h as real, RowTimes(YbusTriplets(lib, 1, e), i, Ones(), n))
  {
    hide RowTimes, YbusTriplets, Total, Scale, Add, LineShunt, CapacitorShunt, LoadShunt;
    RowSumIsShunt(lib, h, e, i, n);
    RowSumIsShunt(lib, 1, e, i, n);
    forall l | l in e.lines ensures LineShunt(lib, h, i)(l) == Scale(h as real, LineShunt(lib, 1, i)(l)) {
      ShuntGrows(lib, h, l, i);
    }
    TotalScaled(e.lines, LineShunt(lib, 1, i), h as real, LineShunt(lib, h, i));
    forall c | c in e.capacitors ensures CapacitorShunt(h, i)(c) == Scale(h as real, CapacitorShunt(1, i)(c)) {
      CapacitorGrows(h, c, i);
    }
    TotalScaled(e.capacitors, CapacitorShunt(1, i), h as real, CapacitorShunt(h, i));
    NoLoads(h, i);
    NoLoads(1, i);
    var ls, cs := Total(e.lines, LineShunt(lib, 1, i)), Total(e.capacitors, CapacitorShunt(1, i));
    ScaleZero(h as real);
    ScaleDistributes(h as real, ls, ZERO);
    ScaleDistributes(h as real, Add(ls, ZERO), cs);
  }

  lemma CapacitorGrows(h: Order, c: Capacitor, i: nat)
    ensures CapacitorShunt(h, i)(c) == Scale(h as real, CapacitorShunt(1, i)(c))
  {
  }

  lemma NoLoads(h: Order, i: nat)
    ensures Total([], LoadShunt(h, i)) == ZERO
  {
  }

  lemma ShuntGrows(lib: MathLib, h: Order, l: Line, i: nat)
    requires l.x1 >= 0.000000000001 || l.x1 <= -0.000000000001
    ensures LineShunt(lib, h, i)(l) == Scale(h as real, LineShunt(lib, 1, i)(l))
  {
    hide Negligible, LineImpedance, LineCharging, Scale, Add;
    SeriesCounts(lib, h, l);
    SeriesCounts(lib, 1, l);
    ChargingGrows(h, l);
    var c := LineCharging(1, l);
    var u, v := if l.fromBus == i then c else ZERO, if l.toBus == i then c else ZERO;
    ScaleZero(h as real);
    ScaleDistributes(h as real, u, v);
  }

  lemma ChargingGrows(h: Order, l: Line)
    ensures LineCharging(h, l) == Scale(h as real, LineCharging(1, l))
  {
  }

  lemma SeriesCounts(lib: MathLib, h: Order, l: Line)
    requires l.x1 >= 0.000000000001 || l.x1 <= -0.000000000001
    ensures !Negligible(LineImpedance(lib, h, l))
  {
    hide Negligible;
    ReactanceGrows(h, l.x1, LineImpedance(lib, h, l));
  }

  // ---------------------------------------------------------------------------
  // Power in terms of the data
  // ---------------------------------------------------------------------------

  /** A line with series impedance z draws |va - vb|^2 over its conjugate, and its charging b at both ends. */
  function Draw(va: Complex, vb: Complex, z: Complex, b: real): Complex {
    var zz := z.re * z.re + z.im * z.im;
    var d := NormSquared(Add(va, Neg(vb)));
    if zz < 0.000000000001 * 0.000000000001 then ZERO
    else Complex(d * z.re / zz, (NormSquared(va) + NormSquared(vb)) * b / 2.0 - d * z.im / zz)
  }

  function SeriesAtOrder(h: Order, skin: real, l: Line): Complex {
    Complex(l.r1 * skin, h as real * l.x1)
  }

  function ChargingAtOrder(h: Order, l: Line): real {
    h as real * l.b1
  }

  ghost function LineDraw(lib: MathLib, h: Order, V: Voltages): Line -> Complex {
    (l: Line) =>
      Draw(V(l.fromBus), V(l.toBus), SeriesAtOrder(h, lib.pow(h, l.skinExponent), l), ChargingAtOrder(h, l))
  }

  ghost function LoadDraw(h: Order, V: Voltages): Load -> Complex {
    (l: Load) => Complex(NormSquared(V(l.busId)) * l.p, -NormSquared(V(l.busId)) * l.q / h as real)
  }

  ghost function CapacitorDraw(h: Order, V: Voltages): Capacitor -> Complex {
    (c: Capacitor) => if c.xC1 == 0.0 then ZERO else Complex(0.0, NormSquared(V(c.busId)) * h as real / c.xC1)
  }

  lemma LineDrawIs(lib: MathLib, h: Order, l: Line, V: Voltages)
    ensures LinePower(lib, h, V)(l) == LineDraw(lib, h, V)(l)
  {
    hide Negligible, NormSquared, Inverse, BranchPower, Draw, SeriesAtOrder, ChargingAtOrder, LineImpedance, LineCharging;
    var z := LineImpedance(lib, h, l);
    LineDataIs(lib, h, l);
    DrawIs(V(l.fromBus), V(l.toBus), z, ChargingAtOrder(h, l), LineCharging(h, l), NormSquared(z));
  }

  lemma LineDataIs(lib: MathLib, h: Order, l: Line)
    ensures SeriesAtOrder(h, lib.pow(h, l.skinExponent), l) == LineImpedance(lib, h, l)
    ensures LineCharging(h, l).re == 0.0 && LineCharging(h, l).im == ChargingAtOrder(h, l) * 0.5
  {
  }

  lemma DrawIs(va: Complex, vb: Complex, z: Complex, b: real, charging: Complex, zz: real)
    requires charging.re == 0.0 && charging.im == b * 0.5 && zz == NormSquared(z)
    ensures !Negligible(z) ==> NormSquared(z) != 0.0
    ensures Draw(va, vb, z, b) == if Negligible(z) then ZERO else BranchPower(va, vb, Inverse(z), charging)
  {
    hide NormSquared;
    NormIs(z);
    if !Negligible(z) {
      OverDivisor(NormSquared(Add(va, Neg(vb))), z.re, zz);
      OverDivisor(NormSquared(Add(va, Neg(vb))), -z.im, zz);
      Halved(NormSquared(va) + NormSquared(vb), b);
    }
  }

  lemma NormIs(z: Complex)
    ensures NormSquared(z) == z.re * z.re + z.im * z.im
  {
  }

  lemma OverDivisor(d: real, x: real, n: real)
    requires n != 0.0
    ensures d * (x / n) == d * x / n && d * -x / n == -(d * x / n)
  {
  }

  lemma Halved(s: real, b: real)
    ensures s * (b * 0.5) == s * b / 2.0
  {
  }

  lemma ShuntDraws(h: Order, l: Load, c: Capacitor, V: Voltages)
    ensures LoadPower(h, V)(l) == LoadDraw(h, V)(l)
    ensures CapacitorPower(h, V)(c) == CapacitorDraw(h, V)(c)
  {
    hide NormSquared;
    var nl, nc := NormSquared(V(l.busId)), NormSquared(V(c.busId));
    assert nl * (-l.q / h as real) == -nl * l.q / h as real;
    if c.xC1 != 0.0 { assert nc * (h as real / c.xC1) == nc * h as real / c.xC1; }
  }

  /** The power the matrix draws, in the resistances, reactances, susceptances and demands of the network. */
  lemma PowerInData(lib: MathLib, h: Order, e: Elements, V: Voltages, n: nat)
    requires BusesBelow(e, n)
    ensures QuadraticForm(YbusTriplets(lib, h, e), V, n, n)
         == Add(Add(Add(Total(e.lines, LineDraw(lib, h, V)), Total(e.transformers, TransformerPower(lib, h, V))),
                    Total(e.loads, LoadDraw(h, V))),
                Total(e.capacitors, CapacitorDraw(h, V)))
  {
    hide QuadraticForm, YbusTriplets, Total, TransformerPower, LinePower, LoadPower, CapacitorPower,
         LineDraw, LoadDraw, CapacitorDraw;
    PowerIsConserved(lib, h, e, V, n);
    forall l | l in e.lines ensures LinePower(lib, h, V)(l) == LineDraw(lib, h, V)(l) { LineDrawIs(lib, h, l, V); }
    TotalSame(e.lines, LinePower(lib, h, V), LineDraw(lib, h, V));
    forall l | l in e.loads ensures LoadPower(h, V)(l) == LoadDraw(h, V)(l) { ShuntDraws(h, l, Capacitor(0, 0.0), V); }
    TotalSame(e.loads, LoadPower(h, V), LoadDraw(h, V));
    forall c | c in e.capacitors ensures CapacitorPower(h, V)(c) == CapacitorDraw(h, V)(c) {
      ShuntDraws(h, Load(0, 0.0, 0.0), c, V);
    }
    TotalSame(e.capacitors, CapacitorPower(h, V), CapacitorDraw(h, V));
  }
}
