/**
 * The flicker meter (harmonics/flicker_analyzer.cpp): the reference lamp filter, percentiles and
 * the short-term severity.
 *
 * The filter runs in a state-space form; `DirectForm` is the difference equation the source
 * documents. Square roots are left out: `PstSquared` is the sum under the root.
 */
module Flicker {
  import opened Numbers

  // ---------------------------------------------------------------------------
  // The lamp filter
  // ---------------------------------------------------------------------------

  /** The constants as functions, so that proofs need not calculate with their digits. */
  function Omega1(): (w: real)
    ensures w > 0.0
  {
    2.0 * 3.14159265358979323846 * 8.8
  }

  function Lambda(): (l: real)
    ensures l > 0.0
  {
    0.25
  }

  function KGain(): real {
    1.74802
  }

  type Rate = r: real | r > 0.0 witness 1000.0

  datatype Coefficients = Coefficients(a1: real, a2: real, b0: real, b1: real, b2: real)

  /** c = 2 / T of the bilinear transformation, with T = 1 / rate. */
  function TustinConstant(rate: Rate): (c: real)
    ensures c == 2.0 * rate
  {
    2.0 / (1.0 / rate)
  }

  /** The leading coefficient of the transformed denominator. */
  function Leading(c: real): real {
    c * c + 2.0 * Lambda() * Omega1() * c + Omega1() * Omega1()
  }

  lemma LeadingPositive(c: real)
    requires c > 0.0
    ensures Leading(c) > 0.0
  {
    hide Omega1, Lambda, KGain;
  }

  function FilterCoefficients(rate: Rate): Coefficients {
    var c := TustinConstant(rate);
    LeadingPositive(c);
    var a0 := Leading(c);
    Coefficients(
      2.0 * (Omega1() * Omega1() - c * c) / a0,
      (c * c - 2.0 * Lambda() * Omega1() * c + Omega1() * Omega1()) / a0,
      KGain() * Omega1() * c / a0,
      0.0,
      -KGain() * Omega1() * c / a0)
  }

  /** The sample at n, zero outside the series. */
  function At(x: seq<real>, n: int): real {
    if 0 <= n < |x| then x[n] else 0.0
  }

  /** The documented recurrence: the newest output from three inputs and two outputs. */
  function Recur(c: Coefficients, x0: real, x1: real, x2: real, y1: real, y2: real): real {
    c.b0 * x0 + c.b1 * x1 + c.b2 * x2 - c.a1 * y1 - c.a2 * y2
  }

  /** The state-space form: the newest state, and the output from three states. */
  function NextState(c: Coefficients, w1: real, w2: real, input: real): real {
    -c.a1 * w1 - c.a2 * w2 + input
  }

  function Output(c: Coefficients, w0: real, w1: real, w2: real): real {
    c.b0 * w0 + c.b1 * w1 + c.b2 * w2
  }

  /** The documented output, from rest. */
  ghost function DirectForm(c: Coefficients, x: seq<real>, n: int): real
    decreases n
  {
    if n < 0 then 0.0
    else Recur(c, At(x, n), At(x, n - 1), At(x, n - 2), DirectForm(c, x, n - 1), DirectForm(c, x, n - 2))
  }

  /** The first state of the state-space form after sample n. */
  ghost function State(c: Coefficients, x: seq<real>, n: int): real
    decreases n
  {
    if n < 0 then 0.0 else NextState(c, State(c, x, n - 1), State(c, x, n - 2), At(x, n))
  }

  /** The input that leads to a given state. */
  function InputOf(c: Coefficients, w0: real, w1: real, w2: real): real {
    w0 + c.a1 * w1 + c.a2 * w2
  }

  lemma InputOfNextState(c: Coefficients, w1: real, w2: real, input: real)
    ensures InputOf(c, NextState(c, w1, w2, input), w1, w2) == input
  {
  }

  lemma Rest(c: Coefficients)
    ensures InputOf(c, 0.0, 0.0, 0.0) == 0.0 && Output(c, 0.0, 0.0, 0.0) == 0.0
  {
  }

  lemma InputFromStates(c: Coefficients, x: seq<real>, n: int)
    ensures At(x, n) == InputOf(c, State(c, x, n), State(c, x, n - 1), State(c, x, n - 2))
  {
    hide NextState, InputOf;
    Rest(c);
    InputOfNextState(c, State(c, x, n - 1), State(c, x, n - 2), At(x, n));
  }

  /** Feeding the recurrence with inputs and outputs written in the states gives the next output. */
  lemma FormsAgree(c: Coefficients, w0: real, w1: real, w2: real, w3: real, w4: real)
    ensures Recur(c, InputOf(c, w0, w1, w2), InputOf(c, w1, w2, w3), InputOf(c, w2, w3, w4),
                  Output(c, w1, w2, w3), Output(c, w2, w3, w4)) == Output(c, w0, w1, w2)
  {
  }

  /** The state-space form computes the documented recurrence. */
  lemma {:induction false} StateSpaceIsDirectForm(c: Coefficients, x: seq<real>, n: int)
    ensures Output(c, State(c, x, n), State(c, x, n - 1), State(c, x, n - 2)) == DirectForm(c, x, n)
    decreases n
  {
    hide Recur, NextState, Output, InputOf;
    if n < 0 {
      Rest(c);
    } else {
      StateSpaceIsDirectForm(c, x, n - 1);
      StateSpaceIsDirectForm(c, x, n - 2);
      InputFromStates(c, x, n);
      InputFromStates(c, x, n - 1);
      InputFromStates(c, x, n - 2);
      FormsAgree(c, State(c, x, n), State(c, x, n - 1), State(c, x, n - 2), State(c, x, n - 3), State(c, x, n - 4));
    }
  }

  /** Written out: the series starts at rest, and every sample counts. */
  lemma RecurrenceIs(c: Coefficients, x: seq<real>, n: nat)
    requires n < |x|
    ensures n == 0 ==> DirectForm(c, x, n) == c.b0 * x[0]
    ensures n == 1 ==> DirectForm(c, x, n) == c.b0 * x[1] + c.b1 * x[0] - c.a1 * DirectForm(c, x, 0)
    ensures n >= 2 ==>
              DirectForm(c, x, n) == c.b0 * x[n] + c.b1 * x[n - 1] + c.b2 * x[n - 2]
                                     - c.a1 * DirectForm(c, x, n - 1) - c.a2 * DirectForm(c, x, n - 2)
  {
    hide DirectForm, Recur;
    var y1, y2 := DirectForm(c, x, n - 1), DirectForm(c, x, n - 2);
    OneStep(c, x, n);
    if n < 2 { AtRest(c, x, n - 2); }
    if n < 1 { AtRest(c, x, n - 1); }
    RecurIs(c, At(x, n), At(x, n - 1), At(x, n - 2), y1, y2);
  }

  lemma OneStep(c: Coefficients, x: seq<real>, n: nat)
    ensures DirectForm(c, x, n)
         == Recur(c, At(x, n), At(x, n - 1), At(x, n - 2), DirectForm(c, x, n - 1), DirectForm(c, x, n - 2))
  {
    hide Recur, At;
  }

  lemma AtRest(c: Coefficients, x: seq<real>, n: int)
    requires n < 0
    ensures DirectForm(c, x, n) == 0.0
  {
  }

  lemma RecurIs(c: Coefficients, x0: real, x1: real, x2: real, y1: real, y2: real)
    ensures Recur(c, x0, x1, x2, y1, y2) == c.b0 * x0 + c.b1 * x1 + c.b2 * x2 - c.a1 * y1 - c.a2 * y2
    ensures x2 == y2 == 0.0 ==> Recur(c, x0, x1, x2, y1, y2) == c.b0 * x0 + c.b1 * x1 - c.a1 * y1
    ensures x1 == y1 == x2 == y2 == 0.0 ==> Recur(c, x0, x1, x2, y1, y2) == c.b0 * x0
  {
  }

  class ReferenceLampModel {
    var x1: real
    var x2: real
    var c: Coefficients

    constructor ()
      ensures c == FilterCoefficients(1000.0) && x1 == x2 == 0.0
    {
      c := FilterCoefficients(1000.0);
      x1, x2 := 0.0, 0.0;
    }

    method Reset()
      modifies this`x1, this`x2
      ensures x1 == x2 == 0.0
    {
      x1, x2 := 0.0, 0.0;
    }

    /** The two states are those of the series x after n samples. */
    ghost predicate Follows(x: seq<real>, n: nat)
      reads this
    {
      n <= |x| && x1 == State(c, x, n - 1) && x2 == State(c, x, n - 2)
    }

    method FilterSample(input: real, ghost x: seq<real>, ghost n: nat) returns (output: real)
      requires Follows(x, n) && n < |x| && x[n] == input
      modifies this`x1, this`x2
      ensures Follows(x, n + 1) && output == DirectForm(c, x, n)
    {
      hide NextState, Output, Recur;
      StateSpaceIsDirectForm(c, x, n);
      var x1New := NextState(c, x1, x2, input);
      output := Output(c, x1New, x1, x2);
      x2 := x1;
      x1 := x1New;
    }

    method Process(x: seq<real>, samplingRate: Rate) returns (output: seq<real>)
      modifies this
      ensures output == Response(x, samplingRate)
      ensures x == [] ==> unchanged(this)
      ensures x != [] ==> c == FilterCoefficients(samplingRate) && Follows(x, |x|)
    {
      output := [];
      if x == [] { return; }
      c := FilterCoefficients(samplingRate);
      Reset();
      for n := 0 to |x|
        invariant c == FilterCoefficients(samplingRate) && Follows(x, n)
        invariant |output| == n && forall k :: 0 <= k < n ==> output[k] == DirectForm(c, x, k)
      {
        var y := FilterSample(x[n], x, n);
        output := output + [y];
      }
    }
  }

  /** The response to a series, sample by sample. */
  ghost function Response(x: seq<real>, rate: Rate): (y: seq<real>)
    ensures |y| == |x| && forall k :: 0 <= k < |y| ==> y[k] == DirectForm(FilterCoefficients(rate), x, k)
  {
    seq(|x|, k requires 0 <= k < |x| => DirectForm(FilterCoefficients(rate), x, k))
  }

  function Mix(k: real, a: real, l: real, b: real): real {
    k * a + l * b
  }

  /** A linear combination of two series of equal length. */
  ghost function Combine(k: real, x: seq<real>, l: real, y: seq<real>): (s: seq<real>)
    requires |x| == |y|
    ensures |s| == |x| && forall n :: 0 <= n < |s| ==> s[n] == Mix(k, x[n], l, y[n])
  {
    seq(|x|, n requires 0 <= n < |x| => Mix(k, x[n], l, y[n]))
  }

  lemma RecurLinear(c: Coefficients, k: real, l: real, u0: real, u1: real, u2: real, u3: real, u4: real,
                    v0: real, v1: real, v2: real, v3: real, v4: real)
    ensures Recur(c, Mix(k, u0, l, v0), Mix(k, u1, l, v1), Mix(k, u2, l, v2), Mix(k, u3, l, v3), Mix(k, u4, l, v4)) ==
            Mix(k, Recur(c, u0, u1, u2, u3, u4), l, Recur(c, v0, v1, v2, v3, v4))
  {
  }

  lemma CombineAt(k: real, x: seq<real>, l: real, y: seq<real>, n: int)
    requires |x| == |y|
    ensures At(Combine(k, x, l, y), n) == Mix(k, At(x, n), l, At(y, n))
  {
  }

  /** The filter is linear. */
  lemma {:induction false} FilterLinear(c: Coefficients, k: real, x: seq<real>, l: real, y: seq<real>, n: int)
    requires |x| == |y|
    ensures DirectForm(c, Combine(k, x, l, y), n) == Mix(k, DirectForm(c, x, n), l, DirectForm(c, y, n))
    decreases n
  {
    hide Recur, At, Mix;
    if n < 0 {
      MixZero(k, l);
    } else {
      FilterLinear(c, k, x, l, y, n - 1);
      FilterLinear(c, k, x, l, y, n - 2);
      CombineAt(k, x, l, y, n);
      CombineAt(k, x, l, y, n - 1);
      CombineAt(k, x, l, y, n - 2);
      RecurLinear(c, k, l, At(x, n), At(x, n - 1), At(x, n - 2), DirectForm(c, x, n - 1), DirectForm(c, x, n - 2),
                  At(y, n), At(y, n - 1), At(y, n - 2), DirectForm(c, y, n - 1), DirectForm(c, y, n - 2));
    }
  }

  lemma MixZero(k: real, l: real)
    ensures Mix(k, 0.0, l, 0.0) == 0.0
  {
  }

  // ---- The design of the filter ----------------------------------------------

  /** Numerator and denominator of the lamp's transfer function H(s). */
  function Numerator(s: real): real {
    KGain() * Omega1() * s
  }

  function Denominator(s: real): real {
    s * s + 2.0 * Lambda() * Omega1() * s + Omega1() * Omega1()
  }

  /** Numerator and denominator of the digital filter, in powers of z. */
  function DigitalNumerator(c: Coefficients, z: real): real {
    c.b0 * (z * z) + c.b1 * z + c.b2
  }

  function DigitalDenominator(c: Coefficients, z: real): real {
    z * z + c.a1 * z + c.a2
  }

  /** The point s = c (z - 1) / (z + 1) of the bilinear transformation. */
  function Tustin(rate: Rate, z: real): real
    requires z + 1.0 != 0.0
  {
    TustinConstant(rate) * (z - 1.0) / (z + 1.0)
  }

  /**
   * The digital filter is the bilinear image of H: at s, after clearing (z + 1)^2, numerator and
   * denominator are those of the digital filter at z, up to the common factor a0.
   */
  lemma BilinearNumerator(rate: Rate, z: real)
    requires z + 1.0 != 0.0
    ensures Numerator(Tustin(rate, z)) * ((z + 1.0) * (z + 1.0))
         == Leading(TustinConstant(rate)) * DigitalNumerator(FilterCoefficients(rate), z)
  {
    hide Leading, Tustin, TustinConstant, FilterCoefficients, Numerator, Gain, Omega1, Lambda, KGain;
    var c, f, s := TustinConstant(rate), FilterCoefficients(rate), Tustin(rate, z);
    TustinTimes(rate, z);
    GainIs(rate, s);
    BilinearLinear(Gain(), c, s, z, Leading(c), f.b0, f.b1, f.b2, Numerator(s), DigitalNumerator(f, z));
  }

  function Gain(): real {
    KGain() * Omega1()
  }

  lemma GainIs(rate: Rate, s: real)
    ensures Numerator(s) == Gain() * s
    ensures var c, f := TustinConstant(rate), FilterCoefficients(rate); var a0 := Leading(c);
            a0 * f.b0 == Gain() * c && f.b1 == 0.0 && a0 * f.b2 == -(Gain() * c)
  {
    hide TustinConstant, FilterCoefficients, Leading, Omega1, Lambda, KGain;
    CoefficientsTimes(rate);
  }

  lemma BilinearLinear(k: real, c: real, s: real, z: real, a0: real, b0: real, b1: real, b2: real, num: real, digital: real)
    requires num == k * s && digital == b0 * (z * z) + b1 * z + b2
    requires s * (z + 1.0) == c * (z - 1.0)
    requires a0 * b0 == k * c && b1 == 0.0 && a0 * b2 == -(k * c)
    ensures num * ((z + 1.0) * (z + 1.0)) == a0 * digital
  {
    TimesTwice(k, s, z + 1.0);
    DifferenceOfSquares(k, c, z);
    Distributed(a0, b0, z * z, b1, z, b2);
  }

  lemma QuotientTimes(x: real, y: real)
    requires y != 0.0
    ensures y * (x / y) == x
  {
  }

  lemma TustinTimes(rate: Rate, z: real)
    requires z + 1.0 != 0.0
    ensures Tustin(rate, z) * (z + 1.0) == TustinConstant(rate) * (z - 1.0)
  {
    hide TustinConstant;
    QuotientTimes(TustinConstant(rate) * (z - 1.0), z + 1.0);
  }

  /** The coefficients of the digital filter without their common divisor. */
  lemma CoefficientsTimes(rate: Rate)
    ensures var c, f := TustinConstant(rate), FilterCoefficients(rate); var a0 := Leading(c);
            && a0 * f.a1 == 2.0 * (Stiffness() - c * c) && a0 * f.a2 == c * c - Damping() * c + Stiffness()
            && a0 * f.b0 == Gain() * c && f.b1 == 0.0 && a0 * f.b2 == -(Gain() * c)
  {
    hide Leading, TustinConstant, Omega1, Lambda, KGain;
    var c, a0 := TustinConstant(rate), Leading(TustinConstant(rate));
    LeadingPositive(c);
    QuotientTimes(2.0 * (Omega1() * Omega1() - c * c), a0);
    QuotientTimes(c * c - 2.0 * Lambda() * Omega1() * c + Omega1() * Omega1(), a0);
    QuotientTimes(KGain() * Omega1() * c, a0);
    QuotientTimes(-KGain() * Omega1() * c, a0);
  }

  lemma TimesTwice(k: real, s: real, w: real)
    ensures k * s * (w * w) == k * (s * w) * w
  {
  }

  lemma DifferenceOfSquares(k: real, c: real, z: real)
    ensures k * (c * (z - 1.0)) * (z + 1.0) == k * c * (z * z) - k * c
  {
  }

  lemma Distributed(a: real, b0: real, zz: real, b1: real, z: real, b2: real)
    ensures a * (b0 * zz + b1 * z + b2) == a * b0 * zz + a * b1 * z + a * b2
  {
  }

  lemma BilinearDenominator(rate: Rate, z: real)
    requires z + 1.0 != 0.0
    ensures Denominator(Tustin(rate, z)) * ((z + 1.0) * (z + 1.0))
         == Leading(TustinConstant(rate)) * DigitalDenominator(FilterCoefficients(rate), z)
  {
    hide Leading, Tustin, TustinConstant, FilterCoefficients, Denominator, Damping, Stiffness, Omega1, Lambda, KGain;
    var c, f, s := TustinConstant(rate), FilterCoefficients(rate), Tustin(rate, z);
    TustinTimes(rate, z);
    DesignIs(rate, s);
    BilinearQuadratic(Damping(), Stiffness(), c, s, z, Leading(c), f.a1, f.a2, Denominator(s), DigitalDenominator(f, z));
  }

  function Damping(): real {
    2.0 * Lambda() * Omega1()
  }

  function Stiffness(): real {
    Omega1() * Omega1()
  }

  lemma DesignIs(rate: Rate, s: real)
    ensures Denominator(s) == s * s + Damping() * s + Stiffness()
    ensures var c, f := TustinConstant(rate), FilterCoefficients(rate); var a0 := Leading(c);
            && a0 == c * c + Damping() * c + Stiffness()
            && a0 * f.a1 == 2.0 * (Stiffness() - c * c) && a0 * f.a2 == c * c - Damping() * c + Stiffness()
  {
    hide TustinConstant, FilterCoefficients, Leading, Denominator, Damping, Stiffness, Gain;
    DenominatorIs(s);
    CoefficientsTimes(rate);
    LeadingIs(TustinConstant(rate));
  }

  lemma DenominatorIs(s: real)
    ensures Denominator(s) == s * s + Damping() * s + Stiffness()
  {
    hide Omega1, Lambda;
  }

  lemma BilinearQuadratic(b: real, d: real, c: real, s: real, z: real, a0: real, a1: real, a2: real, den: real, digital: real)
    requires den == s * s + b * s + d && digital == z * z + a1 * z + a2
    requires s * (z + 1.0) == c * (z - 1.0) && a0 == c * c + b * c + d
    requires a0 * a1 == 2.0 * (d - c * c) && a0 * a2 == c * c - b * c + d
    ensures den * ((z + 1.0) * (z + 1.0)) == a0 * digital
  {
    QuadraticTimes(b, d, s, z + 1.0);
    Expanded(b, d, c, z);
    Distributed(a0, 1.0, z * z, a1, z, a2);
  }

  lemma LeadingIs(c: real)
    ensures Leading(c) == c * c + Damping() * c + Stiffness()
  {
    hide Omega1, Lambda;
  }

  lemma QuadraticTimes(b: real, d: real, s: real, w: real)
    ensures (s * s + b * s + d) * (w * w) == (s * w) * (s * w) + b * (s * w) * w + d * (w * w)
  {
  }

  lemma Expanded(b: real, d: real, c: real, z: real)
    ensures (c * (z - 1.0)) * (c * (z - 1.0)) + b * (c * (z - 1.0)) * (z + 1.0) + d * ((z + 1.0) * (z + 1.0))
         == (c * c + b * c + d) * (z * z) + 2.0 * (d - c * c) * z + (c * c - b * c + d)
  {
  }

  /**
   * The recurrence has this transfer function: a sequence that grows by z from sample to sample comes
   * out growing by z, with the numerator at z in place of the denominator.
   */
  lemma TransferFunction(c: Coefficients, z: real)
    ensures var num, den := DigitalNumerator(c, z), DigitalDenominator(c, z);
            Recur(c, z * z * den, z * den, den, z * num, num) == z * z * num
  {
    var num, den := DigitalNumerator(c, z), DigitalDenominator(c, z);
    Factored(c.b0, c.b1, c.b2, z, den);
    Factored(0.0, c.a1, c.a2, z, num);
    assert num * den == num * (z * z) + num * (c.a1 * z + c.a2) by { Split(num, z * z, c.a1 * z + c.a2); }
  }

  lemma Factored(a: real, b: real, c: real, z: real, d: real)
    ensures a * (z * z * d) + b * (z * d) + c * d == (a * (z * z) + b * z + c) * d
  {
  }

  lemma Split(x: real, a: real, b: real)
    ensures x * (a + b) == x * a + x * b
  {
  }

  /** The real and the imaginary part of the denominator at jw, from its values at 0, 1 and -1. */
  function RealPart(w: real): real {
    Denominator(0.0) - w * w
  }

  function ImaginaryPart(w: real): real {
    (Denominator(1.0) - Denominator(-1.0)) / 2.0 * w
  }

  function DenominatorSquared(w: real): real {
    RealPart(w) * RealPart(w) + ImaginaryPart(w) * ImaginaryPart(w)
  }

  /** The greatest gain, and 8.8 Hz as an angular frequency. */
  const PEAK := 1.74802 / (2.0 * 0.25)
  const RESONANCE := 2.0 * 3.14159265358979323846 * 8.8

  function NumeratorSquared(w: real): real {
    Numerator(w) * Numerator(w)
  }

  /** The lamp is most sensitive at 8.8 Hz: |H(jw)| reaches its peak there and nowhere else. */
  lemma LampResonance(w: real)
    ensures NumeratorSquared(w) <= PEAK * PEAK * DenominatorSquared(w)
    ensures NumeratorSquared(w) == PEAK * PEAK * DenominatorSquared(w) <==> w == RESONANCE || w == -RESONANCE
  {
    hide NumeratorSquared, DenominatorSquared, Omega1, Lambda, KGain;
    var miss := Omega1() * Omega1() - w * w;
    BelowPeakBy(w);
    SquareNonNegative(miss);
    OnlyZeroSquaresToZero(miss);
    RootsOf(w, Omega1());
    OmegaIs();
  }

  lemma OmegaIs()
    ensures Omega1() == RESONANCE
  {
  }

  /** How far the square of the gain stays below that of its peak, times the square of the denominator. */
  lemma BelowPeakBy(w: real)
    ensures PEAK * PEAK * DenominatorSquared(w) - NumeratorSquared(w)
         == PEAK * PEAK * Product(Omega1() * Omega1() - w * w, Omega1() * Omega1() - w * w)
  {
    hide Product, NumeratorSquared, DenominatorSquared, Omega1, Lambda, KGain;
    PartsSquared(w);
  }

  lemma PartsSquared(w: real)
    ensures NumeratorSquared(w) == 1.74802 * 1.74802 * Product(Omega1() * w, Omega1() * w)
    ensures DenominatorSquared(w)
         == Product(Omega1() * Omega1() - w * w, Omega1() * Omega1() - w * w) + 0.25 * Product(Omega1() * w, Omega1() * w)
  {
    hide Numerator, RealPart, ImaginaryPart, Product, Omega1, Lambda, KGain;
    PartsAre(w);
    SquareOf(Numerator(w), 1.74802, Omega1() * w);
    SquareOf(ImaginaryPart(w), 0.5, Omega1() * w);
    SquareIs(RealPart(w), Omega1() * Omega1() - w * w);
    Quarters(Omega1() * w);
  }

  lemma SquareIs(x: real, y: real)
    requires x == y
    ensures x * x == Product(y, y)
  {
  }

  lemma Quarters(u: real)
    ensures 0.5 * 0.5 * Product(u, u) == 0.25 * Product(u, u)
  {
    hide Product;
  }

  lemma SquareOf(x: real, k: real, u: real)
    requires x == k * u
    ensures x * x == k * k * Product(u, u)
  {
  }

  lemma RootsOf(w: real, r: real)
    requires r > 0.0
    ensures r * r - w * w == 0.0 <==> w == r || w == -r
  {
    DifferenceFactors(r, w);
    if w != r && w != -r { NoZeroDivisors(r - w, r + w); }
  }

  lemma DifferenceFactors(r: real, w: real)
    ensures r * r - w * w == Product(r - w, r + w)
  {
  }

  lemma NoZeroDivisors(x: real, y: real)
    requires x != 0.0 && y != 0.0
    ensures Product(x, y) != 0.0
  {
    hide Product;
    var a, b := if x > 0.0 then x else -x, if y > 0.0 then y else -y;
    ProductSign(a, b);
    SignsOut(x, y);
  }

  lemma SignsOut(x: real, y: real)
    ensures Product(-x, y) == -Product(x, y) && Product(x, -y) == -Product(x, y) && Product(-x, -y) == Product(x, y)
  {
  }

  lemma PartsAre(w: real)
    ensures RealPart(w) == Omega1() * Omega1() - w * w && ImaginaryPart(w) == 0.5 * (Omega1() * w)
    ensures Numerator(w) == 1.74802 * (Omega1() * w)
  {
    hide Omega1, Lambda;
    DenominatorAtPoints();
  }

  lemma DenominatorAtPoints()
    ensures Denominator(0.0) == Omega1() * Omega1()
    ensures (Denominator(1.0) - Denominator(-1.0)) / 2.0 == 0.5 * Omega1()
  {
    hide Omega1;
  }

  // ---- Stability -------------------------------------------------------------

  predicate JuryStable(a1: real, a2: real) {
    -1.0 < a2 < 1.0 && -(1.0 + a2) < a1 < 1.0 + a2
  }

  lemma ProductPositive(x: real, y: real)
    requires x > 0.0 && y > 0.0
    ensures x * y > 0.0
  {
  }

  /** At every sampling rate the filter meets the Jury conditions. */
  lemma FilterJuryStable(rate: Rate)
    ensures JuryStable(FilterCoefficients(rate).a1, FilterCoefficients(rate).a2)
  {
    hide Leading, FilterCoefficients, TustinConstant, Damping, Stiffness, JuryStable, Product;
    var c, f := TustinConstant(rate), FilterCoefficients(rate);
    DesignProducts(rate);
    DesignPositive();
    JuryFromDesign(c, Damping(), Stiffness(), Leading(c), f.a1, f.a2);
  }

  lemma DesignProducts(rate: Rate)
    ensures var c, f := TustinConstant(rate), FilterCoefficients(rate); var a0 := Leading(c);
            && a0 == Product(c, c) + Product(Damping(), c) + Stiffness()
            && Product(a0, f.a1) == 2.0 * (Stiffness() - Product(c, c))
            && Product(a0, f.a2) == Product(c, c) - Product(Damping(), c) + Stiffness()
  {
    hide TustinConstant, FilterCoefficients, Leading, Damping, Stiffness, Denominator;
    DesignIs(rate, 0.0);
  }

  lemma DesignPositive()
    ensures Damping() > 0.0 && Stiffness() > 0.0
  {
    hide Omega1, Lambda;
    ProductPositive(2.0 * Lambda(), Omega1());
    ProductPositive(Omega1(), Omega1());
  }

  lemma JuryFromDesign(c: real, b: real, d: real, a0: real, a1: real, a2: real)
    requires c > 0.0 && b > 0.0 && d > 0.0 && a0 == Product(c, c) + Product(b, c) + d
    requires Product(a0, a1) == 2.0 * (d - Product(c, c)) && Product(a0, a2) == Product(c, c) - Product(b, c) + d
    ensures JuryStable(a1, a2)
  {
    hide Product;
    ProductSign(c, c);
    ProductSign(b, c);
    SignsOut(a0, a1);
    SignsOut(a0, a2);
    TimesZero(a0);
    PositiveSum(a0, 0.0, -a2);
    PositiveSum(a0, 0.0, a2);
    PositiveSum(a0, -a1, a2);
    PositiveSum(a0, a1, a2);
  }

  lemma TimesZero(a: real)
    ensures Product(a, 0.0) == 0.0
  {
  }

  lemma TimesSum(a: real, x: real, y: real)
    ensures Product(a, 1.0 + y + x) == a + Product(a, y) + Product(a, x)
  {
  }

  lemma PositiveSum(a: real, x: real, y: real)
    requires a > 0.0 && a + Product(a, y) + Product(a, x) > 0.0
    ensures 1.0 + y + x > 0.0
  {
    hide Product;
    var t := 1.0 + y + x;
    TimesSum(a, x, y);
    SignsOut(a, t);
    TimesZero(a);
    if t < 0.0 { ProductSign(a, -t); }
  }

  /** Under the Jury conditions every root p + iq of z^2 + a1 z + a2 lies inside the unit circle. */
  lemma JuryRootsInside(a1: real, a2: real, p: real, q: real)
    requires JuryStable(a1, a2)
    requires p * p - q * q + a1 * p + a2 == 0.0 && 2.0 * p * q + a1 * q == 0.0
    ensures p * p + q * q < 1.0
  {
    if q == 0.0 {
      RealRootInside(a1, a2, p);
    } else {
      assert (2.0 * p + a1) * q == 0.0;
      assert a1 * p == -2.0 * (p * p);
    }
  }

  /** Outside the interval (-1, 1) the denominator is positive. */
  lemma PositiveOutside(a1: real, a2: real, p: real)
    requires JuryStable(a1, a2) && (p >= 1.0 || p <= -1.0)
    ensures p * p + a1 * p + a2 > 0.0
  {
    if p >= 1.0 {
      ProductNonNegative(p - 1.0, p + 1.0 + a1);
      assert p * p + a1 * p + a2 == (p - 1.0) * (p + 1.0 + a1) + (1.0 + a1 + a2);
    } else {
      ProductNonNegative(-p - 1.0, 1.0 - p - a1);
      assert p * p + a1 * p + a2 == (-p - 1.0) * (1.0 - p - a1) + (1.0 - a1 + a2);
    }
  }

  lemma SquareBelowOne(p: real)
    requires -1.0 < p < 1.0
    ensures p * p < 1.0
  {
  }

  lemma RealRootInside(a1: real, a2: real, p: real)
    requires JuryStable(a1, a2) && p * p + a1 * p + a2 == 0.0
    ensures p * p < 1.0
  {
    if p >= 1.0 || p <= -1.0 {
      PositiveOutside(a1, a2, p);
    } else {
      SquareBelowOne(p);
    }
  }

  /** All poles of the lamp filter lie inside the unit circle, whatever the sampling rate. */
  lemma FilterPolesInside(rate: Rate, p: real, q: real)
    requires var f := FilterCoefficients(rate);
             p * p - q * q + f.a1 * p + f.a2 == 0.0 && 2.0 * p * q + f.a1 * q == 0.0
    ensures p * p + q * q < 1.0
  {
    FilterJuryStable(rate);
    JuryRootsInside(FilterCoefficients(rate).a1, FilterCoefficients(rate).a2, p, q);
  }
}
