/**
 * Percentiles and short-term severity (harmonics/flicker_analyzer.cpp, calculatePercentile,
 * calculatePinst and calculatePst). The square root of the severity is left out: `PstSquared` is
 * the sum under it, so severities are compared through their squares.
 */
module FlickerSeverity {
  import opened Flicker
  import opened Numbers

  // ---------------------------------------------------------------------------
  // Sorting
  // ---------------------------------------------------------------------------

  predicate Ascending(s: seq<real>) {
    forall i, j :: 0 <= i < j < |s| ==> s[i] <= s[j]
  }

  function Insert(x: real, s: seq<real>): (r: seq<real>)
    ensures |r| == |s| + 1
  {
    if s == [] || x <= s[0] then [x] + s else [s[0]] + Insert(x, s[1..])
  }

  /** The sorted copy; `SortedCopy` shows that nothing else could be meant. */
  function Sorted(s: seq<real>): (r: seq<real>)
    ensures |r| == |s|
  {
    if s == [] then [] else Insert(s[0], Sorted(s[1..]))
  }

  predicate InRange(lo: real, hi: real, s: seq<real>) {
    forall i :: 0 <= i < |s| ==> lo <= s[i] <= hi
  }

  lemma {:induction false} InsertKeeps(x: real, s: seq<real>)
    ensures multiset(Insert(x, s)) == multiset(s) + multiset{x}
  {
    if s != [] && x > s[0] {
      InsertKeeps(x, s[1..]);
      assert s == [s[0]] + s[1..];
    }
  }

  lemma {:induction false} InsertInRange(lo: real, hi: real, x: real, s: seq<real>)
    requires lo <= x <= hi && InRange(lo, hi, s)
    ensures InRange(lo, hi, Insert(x, s))
  {
    if s != [] && x > s[0] {
      InsertInRange(lo, hi, x, s[1..]);
    }
  }

  lemma {:induction false} InsertAscending(x: real, s: seq<real>)
    requires Ascending(s)
    ensures Ascending(Insert(x, s))
  {
    if s != [] && x > s[0] {
      InsertAscending(x, s[1..]);
      var top := if x <= s[|s| - 1] then s[|s| - 1] else x;
      InsertInRange(s[0], top, x, s[1..]);
    }
  }

  lemma {:induction false} SortedInRange(lo: real, hi: real, s: seq<real>)
    requires InRange(lo, hi, s)
    ensures InRange(lo, hi, Sorted(s))
  {
    if s != [] {
      SortedInRange(lo, hi, s[1..]);
      InsertInRange(lo, hi, s[0], Sorted(s[1..]));
    }
  }

  lemma {:induction false} SortedAscending(s: seq<real>)
    ensures Ascending(Sorted(s)) && multiset(Sorted(s)) == multiset(s)
  {
    if s != [] {
      SortedAscending(s[1..]);
      InsertAscending(s[0], Sorted(s[1..]));
      InsertKeeps(s[0], Sorted(s[1..]));
      assert s == [s[0]] + s[1..];
    }
  }

  lemma {:induction false} AscendingUnique(a: seq<real>, b: seq<real>)
    requires Ascending(a) && Ascending(b) && multiset(a) == multiset(b)
    ensures a == b
    decreases |a|
  {
    assert |multiset(a)| == |a| && |multiset(b)| == |b|;
    if a != [] {
      FirstIsLeast(a, b);
      FirstIsLeast(b, a);
      assert a == [a[0]] + a[1..] && b == [b[0]] + b[1..];
      RestEqual(multiset(a[1..]), multiset(b[1..]), a[0]);
      AscendingUnique(a[1..], b[1..]);
    }
  }

  lemma FirstIsLeast(a: seq<real>, b: seq<real>)
    requires Ascending(a) && a != [] && b != [] && multiset(a) == multiset(b)
    ensures a[0] <= b[0]
  {
    assert b[0] in multiset(b);
    var i :| 0 <= i < |a| && a[i] == b[0];
  }

  lemma RestEqual(a: multiset<real>, b: multiset<real>, x: real)
    requires multiset{x} + a == multiset{x} + b
    ensures a == b
  {
    assert a == multiset{x} + a - multiset{x};
    assert b == multiset{x} + b - multiset{x};
  }

  /** Any ascending arrangement of the same values is the sorted copy. */
  lemma SortedCopy(s: seq<real>, r: seq<real>)
    requires Ascending(r) && multiset(r) == multiset(s)
    ensures r == Sorted(s)
  {
    SortedAscending(s);
    AscendingUnique(r, Sorted(s));
  }

  // ---- Dominance -------------------------------------------------------------

  predicate Dominated(a: seq<real>, b: seq<real>) {
    |a| == |b| && forall i :: 0 <= i < |a| ==> a[i] <= b[i]
  }

  lemma {:induction false} InsertDominated(x: real, y: real, s: seq<real>, t: seq<real>)
    requires x <= y && Ascending(s) && Ascending(t) && Dominated(s, t)
    ensures Dominated(Insert(x, s), Insert(y, t))
    decreases |s|
  {
    if s != [] {
      if x <= s[0] && y > t[0] {
        InsertDominated(s[0], y, s[1..], t[1..]);
        InsertFirst(s);
        ConsDominated(x, t[0], s, Insert(y, t[1..]));
      } else if x > s[0] && y <= t[0] {
        InsertDominated(x, t[0], s[1..], t[1..]);
        InsertFirst(t);
        ConsDominated(s[0], y, Insert(x, s[1..]), t);
      } else if x > s[0] {
        InsertDominated(x, y, s[1..], t[1..]);
        ConsDominated(s[0], t[0], Insert(x, s[1..]), Insert(y, t[1..]));
      } else {
        ConsDominated(x, y, s, t);
      }
    }
  }

  lemma ConsDominated(x: real, y: real, s: seq<real>, t: seq<real>)
    requires x <= y && Dominated(s, t)
    ensures Dominated([x] + s, [y] + t)
  {
  }

  /** Inserting the first element of an ascending sequence into the rest gives it back. */
  lemma InsertFirst(s: seq<real>)
    requires s != [] && Ascending(s)
    ensures Insert(s[0], s[1..]) == s
  {
    assert s == [s[0]] + s[1..];
    if |s| > 1 {
      assert s[0] <= s[1];
    }
  }

  /** Raising samples raises every order statistic. */
  lemma {:induction false} SortedDominated(a: seq<real>, b: seq<real>)
    requires Dominated(a, b)
    ensures Dominated(Sorted(a), Sorted(b))
    decreases |a|
  {
    if a != [] {
      SortedDominated(a[1..], b[1..]);
      SortedAscending(a[1..]);
      SortedAscending(b[1..]);
      InsertDominated(a[0], b[0], Sorted(a[1..]), Sorted(b[1..]));
    }
  }

  // ---------------------------------------------------------------------------
  // Percentiles
  // ---------------------------------------------------------------------------

  type Percent = p: real | p >= 0.0 witness 0.0

  /** Indices past the end are moved to the last one. */
  function Clamp(i: int, n: nat): (r: int)
    requires n > 0
    ensures r <= n - 1 && (i >= 0 ==> r >= 0) && (i <= n - 1 ==> r == i)
  {
    if i >= n then n - 1 else i
  }

  function Ceiling(x: real): (c: int)
    ensures c as real - 1.0 < x <= c as real
  {
    -((-x).Floor)
  }

  /** The point between two values at a given fraction. */
  function Between(a: real, b: real, f: real): real {
    a + f * (b - a)
  }

  /** Linear interpolation between the neighbours of a rank. */
  function AtRank(s: seq<real>, rank: real): real
    requires s != [] && rank >= 0.0
  {
    var lower, upper := Clamp(rank.Floor, |s|), Clamp(Ceiling(rank), |s|);
    var frac := rank - rank.Floor as real;
    Between(s[lower], s[upper], frac)
  }

  function Rank(n: nat, percentile: Percent): (r: real)
    requires n > 0
    ensures r >= 0.0
  {
    ProductNonNegative(percentile / 100.0, (n - 1) as real);
    percentile / 100.0 * (n - 1) as real
  }

  function CalculatePercentile(data: seq<real>, percentile: Percent): real {
    if data == [] then 0.0 else AtRank(Sorted(data), Rank(|data|, percentile))
  }

  /** Percentiles do not depend on the order of the samples. */
  lemma PercentilePermuted(a: seq<real>, b: seq<real>, p: Percent)
    requires multiset(a) == multiset(b)
    ensures CalculatePercentile(a, p) == CalculatePercentile(b, p)
  {
    assert |multiset(a)| == |a| && |multiset(b)| == |b|;
    SortedAscending(a);
    SortedCopy(b, Sorted(a));
  }

  /** A point between two values lies between them, and moves up with the weight and the values. */
  lemma Interpolation(a: real, b: real, f: real)
    requires a <= b && 0.0 <= f <= 1.0
    ensures a <= Between(a, b, f) <= b
  {
    ProductNonNegative(f, b - a);
    ProductNonNegative(1.0 - f, b - a);
    assert f * (b - a) + (1.0 - f) * (b - a) == b - a;
  }

  lemma InterpolationWeights(a: real, b: real, f: real, g: real)
    requires a <= b && f <= g
    ensures Between(a, b, f) <= Between(a, b, g)
  {
    ProductNonNegative(g - f, b - a);
    assert g * (b - a) == f * (b - a) + (g - f) * (b - a);
  }

  lemma InterpolationValues(a: real, b: real, c: real, d: real, f: real)
    requires a <= c && b <= d && 0.0 <= f <= 1.0
    ensures Between(a, b, f) <= Between(c, d, f)
  {
    ProductNonNegative(1.0 - f, c - a);
    ProductNonNegative(f, d - b);
    assert c + f * (d - c) - (a + f * (b - a)) == (1.0 - f) * (c - a) + f * (d - b);
  }

  lemma RankCell(rank: real)
    ensures 0.0 <= rank - rank.Floor as real < 1.0
    ensures Ceiling(rank) == rank.Floor || Ceiling(rank) == rank.Floor + 1
    ensures Ceiling(rank) == rank.Floor ==> rank == rank.Floor as real
  {
  }

  lemma AtRankBetween(s: seq<real>, rank: real)
    requires s != [] && Ascending(s) && rank >= 0.0
    ensures var lower, upper := Clamp(rank.Floor, |s|), Clamp(Ceiling(rank), |s|);
            s[lower] <= AtRank(s, rank) <= s[upper]
  {
    hide Between;
    RankCell(rank);
    var lower, upper := Clamp(rank.Floor, |s|), Clamp(Ceiling(rank), |s|);
    Interpolation(s[lower], s[upper], rank - rank.Floor as real);
  }

  /** A percentile lies between the least and the greatest sample. */
  lemma PercentileInRange(data: seq<real>, p: Percent, lo: real, hi: real)
    requires data != [] && InRange(lo, hi, data)
    ensures lo <= CalculatePercentile(data, p) <= hi
  {
    SortedAscending(data);
    SortedInRange(lo, hi, data);
    AtRankBetween(Sorted(data), Rank(|data|, p));
  }

  lemma AtRankMonotone(s: seq<real>, r: real, t: real)
    requires s != [] && Ascending(s) && 0.0 <= r <= t
    ensures AtRank(s, r) <= AtRank(s, t)
  {
    hide Between;
    RankCell(r);
    RankCell(t);
    AtRankBetween(s, r);
    AtRankBetween(s, t);
    if r.Floor == t.Floor && Ceiling(r) == Ceiling(t) {
      var lower, upper := Clamp(r.Floor, |s|), Clamp(Ceiling(r), |s|);
      InterpolationWeights(s[lower], s[upper], r - r.Floor as real, t - t.Floor as real);
    } else {
      assert r.Floor == t.Floor ==> Ceiling(r) == r.Floor;
      assert Clamp(Ceiling(r), |s|) <= Clamp(t.Floor, |s|);
    }
  }

  lemma RankMonotone(n: nat, p: Percent, q: Percent)
    requires n > 0 && p <= q
    ensures Rank(n, p) <= Rank(n, q)
  {
    ProductNonNegative(q / 100.0 - p / 100.0, (n - 1) as real);
  }

  /** A higher percentile is never lower. */
  lemma PercentileMonotone(data: seq<real>, p: Percent, q: Percent)
    requires p <= q
    ensures CalculatePercentile(data, p) <= CalculatePercentile(data, q)
  {
    if data != [] {
      SortedAscending(data);
      RankMonotone(|data|, p, q);
      AtRankMonotone(Sorted(data), Rank(|data|, p), Rank(|data|, q));
    }
  }

  /** Raising any samples never lowers a percentile. */
  lemma PercentileDominated(a: seq<real>, b: seq<real>, p: Percent)
    requires Dominated(a, b)
    ensures CalculatePercentile(a, p) <= CalculatePercentile(b, p)
  {
    hide Between;
    if a != [] {
      SortedDominated(a, b);
      var s, t, rank := Sorted(a), Sorted(b), Rank(|a|, p);
      RankCell(rank);
      var lower, upper := Clamp(rank.Floor, |s|), Clamp(Ceiling(rank), |s|);
      InterpolationValues(s[lower], s[upper], t[lower], t[upper], rank - rank.Floor as real);
    }
  }

  /** The percentile that belongs to a rank among n samples. */
  function PercentAt(n: nat, rank: real): Percent
    requires n > 1 && rank >= 0.0
  {
    NonNegativePercent(rank, (n - 1) as real);
    rank * 100.0 / (n - 1) as real
  }

  lemma NonNegativePercent(x: real, n: real)
    requires x >= 0.0 && n > 0.0
    ensures x * 100.0 / n >= 0.0
  {
  }

  /**
   * Exactly: with the values in ascending order at equal distances from 0 to 100, a percentile is
   * read off the line through neighbouring values; above 100 it stays the greatest value.
   */
  lemma PercentileInterpolates(data: seq<real>, s: seq<real>, k: nat, f: real)
    requires Ascending(s) && multiset(s) == multiset(data) && 0.0 <= f < 1.0 && |s| > 1
    ensures CalculatePercentile(data, PercentAt(|s|, k as real + f))
         == if k + 1 < |s| then s[k] + f * (s[k + 1] - s[k]) else s[|s| - 1]
  {
    hide Sorted, Ascending, AtRank, Rank, PercentAt;
    SortedCopy(data, s);
    assert |multiset(s)| == |s| && |multiset(data)| == |data|;
    RankOf(|s|, k as real + f);
    AtRankIs(s, k, f);
  }

  lemma AtRankIs(s: seq<real>, k: nat, f: real)
    requires |s| > 1 && 0.0 <= f < 1.0
    ensures AtRank(s, k as real + f) == if k + 1 < |s| then s[k] + f * (s[k + 1] - s[k]) else s[|s| - 1]
  {
    hide Between;
    var rank := k as real + f;
    assert rank.Floor == k && rank - rank.Floor as real == f;
    RankCell(rank);
    var last := s[|s| - 1];
    BetweenEnds(last, last, f);
    if k + 1 < |s| { BetweenEnds(s[k], s[k + 1], f); }
    if k < |s| { BetweenEnds(s[k], s[k], f); }
  }

  lemma BetweenEnds(a: real, b: real, f: real)
    ensures Between(a, b, f) == a + f * (b - a) && Between(a, a, f) == a
    ensures f == 0.0 ==> a + f * (b - a) == a
  {
  }

  lemma RankOf(n: nat, x: real)
    requires n > 1 && x >= 0.0
    ensures Rank(n, PercentAt(n, x)) == x
  {
    Cancelled(x, (n - 1) as real);
  }

  lemma Cancelled(x: real, n: real)
    requires n > 0.0
    ensures x * 100.0 / n / 100.0 * n == x
  {
  }

  // ---------------------------------------------------------------------------
  // Severity
  // ---------------------------------------------------------------------------

  /** The weighted percentiles under the root of the severity. */
  function PstSquared(series: seq<real>): real {
    if series == [] then 0.0
    else
      Weighted(CalculatePercentile(series, 0.1), CalculatePercentile(series, 1.0), CalculatePercentile(series, 3.0),
               CalculatePercentile(series, 10.0), CalculatePercentile(series, 50.0))
  }

  /** Raising the sensation at any instant never lowers the severity. */
  lemma SeverityDominated(a: seq<real>, b: seq<real>)
    requires Dominated(a, b)
    ensures PstSquared(a) <= PstSquared(b)
  {
    PercentileDominated(a, b, 0.1);
    PercentileDominated(a, b, 1.0);
    PercentileDominated(a, b, 3.0);
    PercentileDominated(a, b, 10.0);
    PercentileDominated(a, b, 50.0);
  }

  /** The quadratic block. */
  function Squared(r: real): real {
    2.0 * r * r
  }

  ghost function Sensation(lamp: seq<real>): (p: seq<real>)
    ensures |p| == |lamp| && forall n :: 0 <= n < |p| ==> p[n] == Squared(lamp[n])
  {
    seq(|lamp|, n requires 0 <= n < |lamp| => Squared(lamp[n]))
  }

  /** The instantaneous sensation of a voltage series. */
  ghost function Pinst(voltage: seq<real>, rate: Rate): seq<real> {
    Sensation(Response(voltage, rate))
  }

  method CalculatePinst(lampModel: ReferenceLampModel, voltage: seq<real>,
          samplingRate: Rate) returns (pinst: seq<real>)
    modifies lampModel
    ensures pinst == Pinst(voltage, samplingRate)
  {
    hide Squared;
    pinst := [];
    if voltage == [] { return; }
    var lampResponse := lampModel.Process(voltage, samplingRate);
    for n := 0 to |lampResponse|
      invariant |pinst| == n && forall k :: 0 <= k < n ==> pinst[k] == Sensation(lampResponse)[k]
    {
      var r := lampResponse[n];
      pinst := pinst + [Squared(r)];
    }
  }

  /** The sensation is twice the square of the lamp response, so it is never negative. */
  lemma PinstNonNegative(voltage: seq<real>, rate: Rate)
    ensures |Pinst(voltage, rate)| == |voltage|
    ensures forall n :: 0 <= n < |voltage| ==>
              Pinst(voltage, rate)[n] == 2.0 * (Response(voltage, rate)[n] * Response(voltage, rate)[n])
    ensures forall n :: 0 <= n < |Pinst(voltage, rate)| ==> Pinst(voltage, rate)[n] >= 0.0
  {
    var lamp := Response(voltage, rate);
    forall n | 0 <= n < |lamp|
      ensures Sensation(lamp)[n] >= 0.0
    {
      DoubleSquareNonNegative(lamp[n]);
    }
  }

  lemma DoubleSquareNonNegative(x: real)
    ensures 2.0 * x * x >= 0.0
  {
    if x >= 0.0 {
      ProductNonNegative(x, x);
    } else {
      ProductNonNegative(-x, -x);
    }
  }

  /** There is a real severity: what stands under the root is never negative for such a series. */
  lemma SeverityNonNegative(series: seq<real>)
    requires forall n :: 0 <= n < |series| ==> series[n] >= 0.0
    ensures PstSquared(series) >= 0.0
  {
    var zeros := seq(|series|, _ => 0.0);
    SeverityDominated(zeros, series);
    SeverityOfZeros(|series|);
  }

  lemma PercentileOfZeros(n: nat, p: Percent)
    ensures CalculatePercentile(seq(n, _ => 0.0), p) == 0.0
  {
    if n > 0 {
      PercentileInRange(seq(n, _ => 0.0), p, 0.0, 0.0);
    }
  }

  lemma SeverityOfZeros(n: nat)
    ensures PstSquared(seq(n, _ => 0.0)) == 0.0
  {
    PercentileOfZeros(n, 0.1);
    PercentileOfZeros(n, 1.0);
    PercentileOfZeros(n, 3.0);
    PercentileOfZeros(n, 10.0);
    PercentileOfZeros(n, 50.0);
  }

  // ---- Proportionality -------------------------------------------------------

  function Times(k: real, x: real): real {
    k * x
  }

  ghost function Scaled(k: real, s: seq<real>): (r: seq<real>)
    ensures |r| == |s| && forall i :: 0 <= i < |r| ==> r[i] == Times(k, s[i])
  {
    seq(|s|, i requires 0 <= i < |s| => Times(k, s[i]))
  }

  lemma ScaleCompares(k: real, x: real, y: real)
    requires k > 0.0
    ensures x <= y <==> Times(k, x) <= Times(k, y)
  {
    if x <= y {
      ProductNonNegative(k, y - x);
    } else {
      ProductPositive(k, x - y);
    }
  }

  lemma {:induction false} InsertScaled(k: real, x: real, s: seq<real>)
    requires k > 0.0
    ensures Insert(Times(k, x), Scaled(k, s)) == Scaled(k, Insert(x, s))
  {
    hide Times;
    if s != [] {
      ScaleCompares(k, x, s[0]);
      assert Scaled(k, s)[1..] == Scaled(k, s[1..]);
      InsertScaled(k, x, s[1..]);
    }
  }

  lemma {:induction false} SortedScaled(k: real, s: seq<real>)
    requires k > 0.0
    ensures Sorted(Scaled(k, s)) == Scaled(k, Sorted(s))
  {
    hide Times;
    if s != [] {
      assert Scaled(k, s)[1..] == Scaled(k, s[1..]);
      SortedScaled(k, s[1..]);
      InsertScaled(k, s[0], Sorted(s[1..]));
    }
  }

  lemma PercentileScaled(k: real, s: seq<real>, p: Percent)
    requires k > 0.0
    ensures CalculatePercentile(Scaled(k, s), p) == Times(k, CalculatePercentile(s, p))
  {
    hide Times, Between;
    TimesZero(k);
    if s != [] {
      SortedScaled(k, s);
      var r, rank := Sorted(s), Rank(|s|, p);
      var lower, upper := Clamp(rank.Floor, |r|), Clamp(Ceiling(rank), |r|);
      ScaledBetween(k, r[lower], r[upper], rank - rank.Floor as real);
    }
  }

  lemma TimesZero(k: real)
    ensures Times(k, 0.0) == 0.0
  {
  }

  lemma ScaledBetween(k: real, a: real, b: real, f: real)
    ensures Between(Times(k, a), Times(k, b), f) == Times(k, Between(a, b, f))
  {
  }

  function Weighted(p01: real, p1: real, p3: real, p10: real, p50: real): real {
    0.0314 * p01 + 0.0525 * p1 + 0.0657 * p3 + 0.28 * p10 + 0.08 * p50
  }

  /** The weights and the percentiles they belong to, by the ranks of a series of 1001 ascending values. */
  lemma SeverityReadsRanks(s: seq<real>)
    requires |s| == 1001 && Ascending(s)
    ensures PstSquared(s) == 0.0314 * s[1] + 0.0525 * s[10] + 0.0657 * s[30] + 0.28 * s[100] + 0.08 * s[500]
  {
    hide CalculatePercentile, Ascending;
    ThousandthIsRead(s, 1, 0.1);
    ThousandthIsRead(s, 10, 1.0);
    ThousandthIsRead(s, 30, 3.0);
    ThousandthIsRead(s, 100, 10.0);
    ThousandthIsRead(s, 500, 50.0);
  }

  lemma ThousandthIsRead(s: seq<real>, k: nat, p: Percent)
    requires |s| == 1001 && Ascending(s) && k < 1000 && p == k as real / 10.0
    ensures CalculatePercentile(s, p) == s[k]
  {
    hide CalculatePercentile, Ascending;
    PercentileInterpolates(s, s, k, 0.0);
    assert PercentAt(1001, k as real) == p;
    assert k as real + 0.0 == k as real && 0.0 * (s[k + 1] - s[k]) == 0.0;
  }

  lemma WeightedScaled(k: real, p01: real, p1: real, p3: real, p10: real, p50: real)
    ensures Weighted(Times(k, p01), Times(k, p1), Times(k, p3), Times(k, p10), Times(k, p50)) ==
            Times(k, Weighted(p01, p1, p3, p10, p50))
  {
  }

  lemma SeverityScaled(k: real, s: seq<real>)
    requires k >= 0.0
    ensures PstSquared(Scaled(k, s)) == Times(k, PstSquared(s))
  {
    hide Times;
    TimesZero(k);
    if k == 0.0 {
      ScaledByZero(s);
      SeverityOfZeros(|s|);
    } else {
      PercentileScaled(k, s, 0.1);
      PercentileScaled(k, s, 1.0);
      PercentileScaled(k, s, 3.0);
      PercentileScaled(k, s, 10.0);
      PercentileScaled(k, s, 50.0);
      WeightedScaled(k, CalculatePercentile(s, 0.1), CalculatePercentile(s, 1.0), CalculatePercentile(s, 3.0),
                     CalculatePercentile(s, 10.0), CalculatePercentile(s, 50.0));
    }
  }

  lemma ScaledByZero(s: seq<real>)
    ensures Scaled(0.0, s) == seq(|s|, _ => 0.0) && Times(0.0, PstSquared(s)) == 0.0
  {
  }

  lemma DirectFormScaled(c: Coefficients, k: real, x: seq<real>, n: int)
    ensures DirectForm(c, Scaled(k, x), n) == Times(k, DirectForm(c, x, n))
  {
    forall u: real
      ensures Mix(k, u, 0.0, u) == Times(k, u)
    {
    }
    assert Scaled(k, x) == Combine(k, x, 0.0, x);
    FilterLinear(c, k, x, 0.0, x, n);
  }

  lemma SensationScaled(k: real, lamp: seq<real>)
    ensures Sensation(Scaled(k, lamp)) == Scaled(k * k, Sensation(lamp))
  {
    forall n | 0 <= n < |lamp|
      ensures Sensation(Scaled(k, lamp))[n] == Times(k * k, Sensation(lamp)[n])
    {
      SquareScaled(k, lamp[n]);
    }
  }

  lemma SquareScaled(k: real, r: real)
    ensures Squared(Times(k, r)) == Times(k * k, Squared(r))
  {
  }

  /** Scaling the voltage scales the lamp response, and the sensation by the square. */
  lemma PinstScaled(k: real, voltage: seq<real>, rate: Rate)
    ensures Pinst(Scaled(k, voltage), rate) == Scaled(k * k, Pinst(voltage, rate))
  {
    hide Times;
    forall n | 0 <= n < |voltage|
      ensures Response(Scaled(k, voltage), rate)[n] == Times(k, Response(voltage, rate)[n])
    {
      DirectFormScaled(FilterCoefficients(rate), k, voltage, n);
    }
    assert Response(Scaled(k, voltage), rate) == Scaled(k, Response(voltage, rate));
    SensationScaled(k, Response(voltage, rate));
  }

  /**
   * The severity is proportional to the voltage fluctuation: scaling the voltage by k scales the
   * square of the severity by the square of k, at every sampling rate.
   */
  lemma SeverityProportional(k: real, voltage: seq<real>, rate: Rate)
    ensures PstSquared(Pinst(Scaled(k, voltage), rate)) == Times(k * k, PstSquared(Pinst(voltage, rate)))
  {
    hide Times, PstSquared, Pinst;
    PinstScaled(k, voltage, rate);
    SquareNonNegative(k);
    SeverityScaled(k * k, Pinst(voltage, rate));
  }
}
