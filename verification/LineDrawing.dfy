/**
 * Line drawing into an RGBA buffer (gis/map_renderer.cpp, setPixel and drawLineSegment).
 *
 * The drawing loop keeps an integer error term. `LinePoints` gives the centre points in closed
 * form, and the loop is proved to visit exactly those; the lemmas say what kind of line they are
 * and what the buffer shows afterwards.
 */
module LineDrawing {
  import opened Numbers

  type Byte = x: int | 0 <= x < 256

  datatype Point = Point(x: int, y: int)

  datatype Colour = Colour(r: Byte, g: Byte, b: Byte, a: Byte)

  function Abs(x: int): nat {
    if x < 0 then -x else x
  }

  // ---------------------------------------------------------------------------
  // The centre points
  // ---------------------------------------------------------------------------

  /** k * minor / major rounded to the nearest integer, a half rounded down. */
  function MinorSteps(k: nat, minor: nat, major: nat): nat {
    if major == 0 then 0 else (2 * k * minor + major - 1) / (2 * major)
  }

  function Sign(from: int, to: int): int {
    if from < to then 1 else -1
  }

  function LinePoint(p: Point, q: Point, k: nat): Point {
    var dx, dy := Abs(q.x - p.x), Abs(q.y - p.y);
    if dx >= dy then Point(p.x + Sign(p.x, q.x) * k, p.y + Sign(p.y, q.y) * MinorSteps(k, dy, dx))
    else Point(p.x + Sign(p.x, q.x) * MinorSteps(k, dx, dy), p.y + Sign(p.y, q.y) * k)
  }

  function Major(p: Point, q: Point): nat {
    Max(Abs(q.x - p.x), Abs(q.y - p.y))
  }

  function LinePoints(p: Point, q: Point): (pts: seq<Point>)
    ensures |pts| == Major(p, q) + 1
    ensures forall k :: 0 <= k < |pts| ==> pts[k] == LinePoint(p, q, k)
  {
    seq(Major(p, q) + 1, k requires 0 <= k => LinePoint(p, q, k))
  }

  /** Twice the distance from the ideal line, in units of 1/major of a pixel. */
  function Offset(k: int, minor: int, major: int, m: int): int {
    2 * (m * major) - 2 * (k * minor)
  }

  /** The rounding is characterised by the offset lying in [-major, major). */
  lemma MinorStepsIff(k: nat, minor: nat, major: nat, m: nat)
    requires major > 0
    ensures m == MinorSteps(k, minor, major) <==> 0 <= Offset(k, minor, major, m) + major < 2 * major
  {
    var n := 2 * k * minor + major - 1;
    var d := 2 * major;
    assert n == 2 * (k * minor) + major - 1;
    assert m * d == 2 * (m * major);
    DivIff(n, d, m);
  }

  lemma DivIff(n: nat, d: nat, m: nat)
    requires d > 0
    ensures m == n / d <==> m * d <= n < m * d + d
  {
    var q, r := n / d, n % d;
    assert n == q * d + r;
    if m < q {
      assert m * d + d == (m + 1) * d <= q * d;
    } else if m > q {
      assert q * d + d == (q + 1) * d <= m * d;
    }
  }

  lemma OffsetStep(k: nat, minor: nat, major: nat, m: nat)
    ensures Offset(k + 1, minor, major, m) == Offset(k, minor, major, m) - 2 * minor
    ensures Offset(k + 1, minor, major, m + 1) == Offset(k, minor, major, m) - 2 * minor + 2 * major
  {
    assert (k + 1) * minor == k * minor + minor && (m + 1) * major == m * major + major;
  }

  /** One step of the loop: the minor axis advances exactly when the offset is small enough. */
  lemma NextMinor(k: nat, minor: nat, major: nat)
    requires minor <= major && major > 0
    ensures var m := MinorSteps(k, minor, major);
            MinorSteps(k + 1, minor, major) ==
            if Offset(k, minor, major, m) + major < 2 * minor then m + 1 else m
  {
    var m := MinorSteps(k, minor, major);
    MinorStepsIff(k, minor, major, m);
    OffsetStep(k, minor, major, m);
    var next := if Offset(k, minor, major, m) + major < 2 * minor then m + 1 else m;
    MinorStepsIff(k + 1, minor, major, next);
  }

  lemma MinorAtEnds(minor: nat, major: nat)
    ensures MinorSteps(0, minor, major) == 0
    ensures minor <= major ==> MinorSteps(major, minor, major) == minor
  {
    if major > 0 {
      MinorStepsIff(0, minor, major, 0);
      assert major * minor == minor * major;
      MinorStepsIff(major, minor, major, minor);
    }
  }

  /** On a diagonal the offset is never half a pixel. */
  lemma DiagonalOffset(k: nat, major: nat)
    requires major > 0
    ensures Offset(k, major, major, MinorSteps(k, major, major)) == 0
  {
    MinorStepsIff(k, major, major, k);
  }

  // ---------------------------------------------------------------------------
  // The kind of line they form
  // ---------------------------------------------------------------------------

  lemma LineEnds(p: Point, q: Point)
    ensures LinePoints(p, q)[0] == p && LinePoints(p, q)[Major(p, q)] == q
  {
    MinorAtEnds(Abs(q.y - p.y), Abs(q.x - p.x));
    MinorAtEnds(Abs(q.x - p.x), Abs(q.y - p.y));
  }

  /** Each point is a neighbour of the one before, and both coordinates move only towards the end. */
  lemma LineSteps(p: Point, q: Point, k: nat)
    requires k < Major(p, q)
    ensures var a, b := LinePoint(p, q, k), LinePoint(p, q, k + 1);
      && a != b && b.x - a.x in {0, Sign(p.x, q.x)} && b.y - a.y in {0, Sign(p.y, q.y)}
  {
    var dx, dy := Abs(q.x - p.x), Abs(q.y - p.y);
    if dx >= dy {
      NextMinor(k, dy, dx);
    } else {
      NextMinor(k, dx, dy);
    }
  }

  predicate Between(a: int, x: int, b: int) {
    a <= x <= b || b <= x <= a
  }

  lemma {:induction false} MinorMonotone(k: nat, l: nat, minor: nat, major: nat)
    requires k <= l && minor <= major && major > 0
    ensures MinorSteps(k, minor, major) <= MinorSteps(l, minor, major)
    decreases l - k
  {
    if k < l {
      NextMinor(k, minor, major);
      MinorMonotone(k + 1, l, minor, major);
    }
  }

  /** No point overshoots the end on either axis. */
  lemma LineInBox(p: Point, q: Point, k: nat)
    requires k <= Major(p, q)
    ensures Between(p.x, LinePoint(p, q, k).x, q.x) && Between(p.y, LinePoint(p, q, k).y, q.y)
  {
    var dx, dy := Abs(q.x - p.x), Abs(q.y - p.y);
    if dx >= dy {
      MinorAtEnds(dy, dx);
      if dx > 0 { MinorMonotone(k, dx, dy, dx); }
    } else {
      MinorAtEnds(dx, dy);
      MinorMonotone(k, dy, dx, dy);
    }
  }

  /** Twice the signed area spanned by the line and the way to a pixel; zero on the ideal line. */
  function Cross(p: Point, q: Point, a: Point): int {
    (a.y - p.y) * (q.x - p.x) - (a.x - p.x) * (q.y - p.y)
  }

  lemma CrossIsOffset(p: Point, q: Point, k: nat)
    ensures var dx, dy := Abs(q.x - p.x), Abs(q.y - p.y);
      2 * Abs(Cross(p, q, LinePoint(p, q, k))) ==
      if dx >= dy then Abs(Offset(k, dy, dx, MinorSteps(k, dy, dx)))
      else Abs(Offset(k, dx, dy, MinorSteps(k, dx, dy)))
  {
    var dx, dy := Abs(q.x - p.x), Abs(q.y - p.y);
    var sx, sy := Sign(p.x, q.x), Sign(p.y, q.y);
    var a := LinePoint(p, q, k);
    assert q.x - p.x == sx * dx && q.y - p.y == sy * dy;
    if dx >= dy {
      var m := MinorSteps(k, dy, dx);
      CrossOfSteps(sx, sy, dx, dy, k, m);
    } else {
      var m := MinorSteps(k, dx, dy);
      CrossOfSteps(sx, sy, dx, dy, m, k);
    }
  }

  lemma CrossOfSteps(sx: int, sy: int, dx: int, dy: int, i: int, j: int)
    requires sx in {1, -1} && sy in {1, -1}
    ensures Abs((sy * j) * (sx * dx) - (sx * i) * (sy * dy)) == Abs(j * dx - i * dy)
  {
    assert sx * dx == dx || sx * dx == -dx;
    if sx == 1 && sy == 1 {
    } else if sx == 1 {
      assert (-1 * j) * dx == -(j * dx) && i * (-1 * dy) == -(i * dy);
    } else if sy == 1 {
      assert j * (-1 * dx) == -(j * dx) && (-1 * i) * dy == -(i * dy);
    } else {
      assert (-1 * j) * (-1 * dx) == j * dx && (-1 * i) * (-1 * dy) == i * dy;
    }
  }

  /** On the minor axis no point is farther than half a pixel from the ideal line. */
  lemma HalfPixel(p: Point, q: Point, k: nat)
    ensures 2 * Abs(Cross(p, q, LinePoint(p, q, k))) <= Major(p, q)
  {
    var dx, dy := Abs(q.x - p.x), Abs(q.y - p.y);
    CrossIsOffset(p, q, k);
    if dx >= dy {
      if dx > 0 { MinorStepsIff(k, dy, dx, MinorSteps(k, dy, dx)); }
    } else {
      MinorStepsIff(k, dx, dy, MinorSteps(k, dx, dy));
    }
  }

  // ---- The same line from the other end --------------------------------------

  /** The ideal line passes exactly midway between two pixels after k steps. */
  predicate Tie(p: Point, q: Point, k: nat) {
    Major(p, q) > 0 && (2 * k * Minor(p, q)) % (2 * Major(p, q)) == Major(p, q)
  }

  function Minor(p: Point, q: Point): nat {
    var dx, dy := Abs(q.x - p.x), Abs(q.y - p.y);
    if dx >= dy then dy else dx
  }

  /** A remainder of half a pixel is an offset of half a pixel. */
  lemma TieIsOffset(k: nat, minor: nat, major: nat)
    requires major > 0
    ensures (2 * k * minor) % (2 * major) == major <==>
            Offset(k, minor, major, MinorSteps(k, minor, major)) + major == 0
  {
    hide MinorSteps, Offset;
    var n, d, m := 2 * k * minor, 2 * major, MinorSteps(k, minor, major);
    var t := n / d;
    RemainderIff(n, d, major);
    OffsetForm(k, minor, major, m);
    OffsetForm(k, minor, major, t);
    if n == t * d + major {
      MinorStepsIff(k, minor, major, t);
    }
    if n == m * d + major {
      DivIff(n, d, m);
    }
  }

  lemma OffsetForm(k: int, minor: int, major: int, m: int)
    ensures Offset(k, minor, major, m) == m * (2 * major) - 2 * k * minor
  {
  }

  lemma RemainderIff(n: nat, d: nat, r: nat)
    requires r < d
    ensures n % d == r <==> n == n / d * d + r
  {
    assert n == n / d * d + n % d;
  }

  lemma ReverseOffset(k: int, minor: int, major: int, m: int)
    ensures Offset(major - k, minor, major, minor - m) == -Offset(k, minor, major, m)
  {
    assert (major - k) * minor == major * minor - k * minor;
    assert (minor - m) * major == minor * major - m * major;
  }

  lemma ReverseMinor(k: nat, minor: nat, major: nat)
    requires major > 0 && minor <= major && k <= major
    ensures var m := MinorSteps(k, minor, major);
      minor - MinorSteps(major - k, minor, major) ==
      if Offset(k, minor, major, m) + major == 0 then m + 1 else m
  {
    hide MinorSteps;
    var m := MinorSteps(k, minor, major);
    MinorStepsIff(k, minor, major, m);
    MinorAtEnds(minor, major);
    MinorMonotone(k, major, minor, major);
    var tie := Offset(k, minor, major, m) + major == 0;
    if tie {
      TieLeavesRoom(k, minor, major, m);
    }
    var up := if tie then m + 1 else m;
    ReverseOffset(k, minor, major, up);
    if tie {
      assert (m + 1) * major == m * major + major;
    }
    MinorStepsIff(major - k, minor, major, minor - up);
  }

  lemma TieLeavesRoom(k: nat, minor: nat, major: nat, m: nat)
    requires major > 0 && k <= major && m <= minor && Offset(k, minor, major, m) + major == 0
    ensures m < minor
  {
    if m == minor {
      ReverseOffset(k, minor, major, m);
    }
  }

  /** A line and its reverse cross the same pixels after k steps exactly when there is no tie there. */
  lemma ReverseAgreesIffNoTie(p: Point, q: Point, k: nat)
    requires k <= Major(p, q)
    ensures LinePoint(q, p, Major(p, q) - k) == LinePoint(p, q, k) <==> !Tie(p, q, k)
  {
    var dx, dy := Abs(q.x - p.x), Abs(q.y - p.y);
    if Major(p, q) > 0 {
      TieIsOffset(k, Minor(p, q), Major(p, q));
      ReverseMinor(k, Minor(p, q), Major(p, q));
    }
    if Tie(p, q, k) {
      TieNotFlat(p, q, k);
    }
  }

  /** Ties happen only on lines that really slant. */
  lemma TieNotFlat(p: Point, q: Point, k: nat)
    requires Tie(p, q, k)
    ensures p.x != q.x && p.y != q.y
  {
    assert Minor(p, q) == 0 ==> 2 * k * Minor(p, q) == 0;
  }

  /** On the major axis both lines take one pixel a step, so they can meet only at matching steps. */
  lemma MeetAtMatchingStep(p: Point, q: Point, k: nat, j: nat)
    requires Major(p, q) > 0 && LinePoint(q, p, j) == LinePoint(p, q, k)
    ensures j == Major(p, q) - k
  {
    hide MinorSteps;
  }

  lemma OnReverseIffNoTie(p: Point, q: Point, k: nat)
    requires k <= Major(p, q)
    ensures LinePoint(p, q, k) in LinePoints(q, p) <==> !Tie(p, q, k)
  {
    hide LinePoint;
    ReverseAgreesIffNoTie(p, q, k);
    if !Tie(p, q, k) {
      assert LinePoints(q, p)[Major(p, q) - k] == LinePoint(p, q, k);
    } else if LinePoint(p, q, k) in LinePoints(q, p) {
      var j :| 0 <= j < |LinePoints(q, p)| && LinePoints(q, p)[j] == LinePoint(p, q, k);
      MeetAtMatchingStep(p, q, k, j);
    }
  }

  /** The reverse of a line visits the same pixels exactly when the line has no tie. */
  lemma ReverseVisitsSameIff(p: Point, q: Point)
    ensures (forall a :: a in LinePoints(q, p) <==> a in LinePoints(p, q)) <==>
            (forall k :: 0 <= k <= Major(p, q) ==> !Tie(p, q, k))
  {
    hide LinePoint, Tie;
    var there, back := LinePoints(p, q), LinePoints(q, p);
    if forall a :: a in back <==> a in there {
      forall k | 0 <= k <= Major(p, q) ensures !Tie(p, q, k) {
        assert there[k] in back;
        OnReverseIffNoTie(p, q, k);
      }
    }
    if forall k :: 0 <= k <= Major(p, q) ==> !Tie(p, q, k) {
      forall k | 0 <= k <= Major(p, q) ensures back[Major(p, q) - k] == there[k] {
        ReverseAgreesIffNoTie(p, q, k);
      }
      ReversedHasSame(there, back);
    }
  }

  lemma ReversedHasSame<T>(s: seq<T>, t: seq<T>)
    requires |s| == |t| && forall k :: 0 <= k < |s| ==> t[|s| - 1 - k] == s[k]
    ensures forall a :: a in t <==> a in s
  {
    forall a | a in t ensures a in s {
      var j :| 0 <= j < |t| && t[j] == a;
      assert t[|s| - 1 - (|s| - 1 - j)] == s[|s| - 1 - j];
    }
  }

  lemma KnightMovePoint(p: Point, q: Point, k: nat)
    requires p == Point(0, 0) && q == Point(2, 1)
    ensures LinePoint(p, q, k) == Point(k, MinorSteps(k, 1, 2))
    ensures LinePoint(q, p, k) == Point(2 - k, 1 - MinorSteps(k, 1, 2))
  {
    hide MinorSteps;
  }

  lemma KnightMovePoints(p: Point, q: Point)
    requires p == Point(0, 0) && q == Point(2, 1)
    ensures LinePoint(p, q, 0) == p && LinePoint(p, q, 1) == Point(1, 0) && LinePoint(p, q, 2) == q
    ensures LinePoint(q, p, 0) == q && LinePoint(q, p, 1) == Point(1, 1) && LinePoint(q, p, 2) == p
  {
    hide LinePoint, MinorSteps;
    KnightMovePoint(p, q, 0);
    KnightMovePoint(p, q, 1);
    KnightMovePoint(p, q, 2);
    KnightMoveSteps();
  }

  lemma KnightMoveSteps()
    ensures MinorSteps(0, 1, 2) == 0 && MinorSteps(1, 1, 2) == 0 && MinorSteps(2, 1, 2) == 1
  {
  }

  /** A knight's move is drawn differently from its two ends. */
  lemma KnightMoveDiffers()
    ensures Tie(Point(0, 0), Point(2, 1), 1)
    ensures LinePoints(Point(0, 0), Point(2, 1)) == [Point(0, 0), Point(1, 0), Point(2, 1)]
    ensures LinePoints(Point(2, 1), Point(0, 0)) == [Point(2, 1), Point(1, 1), Point(0, 0)]
  {
    hide LinePoint;
    KnightMovePoints(Point(0, 0), Point(2, 1));
  }

  // ---------------------------------------------------------------------------
  // Pixels
  // ---------------------------------------------------------------------------

  predicate InBounds(w: int, h: int, p: Point) {
    0 <= p.x < w && 0 <= p.y < h
  }

  /** The position of a pixel's first byte. */
  function Index(w: int, p: Point): int {
    (p.y * w + p.x) * 4
  }

  /** The buffer has four bytes for each of the w * h pixels. */
  ghost predicate Fits(length: nat, w: int, h: int) {
    w > 0 && h > 0 ==> w * h * 4 <= length
  }

  lemma PixelFits(length: nat, w: int, h: int, p: Point)
    requires Fits(length, w, h) && InBounds(w, h, p)
    ensures 0 <= Index(w, p) && Index(w, p) + 4 <= length
  {
    assert p.y * w >= 0;
    assert p.y * w + w == (p.y + 1) * w <= h * w;
  }

  /** The alpha of a translucent colour over another, both in 0..255. */
  function OutAlpha(below: Byte, above: Byte): Byte {
    var rest := above * (255 - below);
    assert rest >= 0;
    if below + rest / 255 < 255 then below + rest / 255 else 255
  }

  /** One channel of the mixture; storing it keeps the low byte. */
  function Blend(below: Byte, belowA: Byte, above: Byte, aboveA: Byte, outA: Byte): Byte
    requires outA > 0
  {
    ((below * belowA * (255 - aboveA) / 255 + above * aboveA) / outA) % 256
  }

  ghost function PutPixel(buf: seq<Byte>, w: int, h: int, c: Colour, p: Point): (r: seq<Byte>)
    requires Fits(|buf|, w, h)
    ensures |r| == |buf|
  {
    if !InBounds(w, h, p) then buf
    else
      PixelFits(|buf|, w, h, p);
      var i := Index(w, p);
      var belowA := buf[i + 3];
      var outA := OutAlpha(belowA, c.a);
      if outA == 0 then buf
      else buf[i := Blend(buf[i], belowA, c.r, c.a, outA)]
              [i + 1 := Blend(buf[i + 1], belowA, c.g, c.a, outA)]
              [i + 2 := Blend(buf[i + 2], belowA, c.b, c.a, outA)]
              [i + 3 := outA]
  }

  ghost function Paint(buf: seq<Byte>, w: int, h: int, c: Colour, pts: seq<Point>): (r: seq<Byte>)
    requires Fits(|buf|, w, h)
    ensures |r| == |buf|
  {
    if pts == [] then buf
    else PutPixel(Paint(buf, w, h, c, pts[..|pts| - 1]), w, h, c, pts[|pts| - 1])
  }

  lemma PaintOne(buf: seq<Byte>, w: int, h: int, c: Colour, pts: seq<Point>, p: Point)
    requires Fits(|buf|, w, h)
    ensures Paint(buf, w, h, c, pts + [p]) == PutPixel(Paint(buf, w, h, c, pts), w, h, c, p)
  {
    assert (pts + [p])[..|pts|] == pts;
  }

  lemma {:induction false} PaintMore(buf: seq<Byte>, w: int, h: int, c: Colour, pts: seq<Point>, more: seq<Point>)
    requires Fits(|buf|, w, h)
    ensures Paint(buf, w, h, c, pts + more) == Paint(Paint(buf, w, h, c, pts), w, h, c, more)
    decreases |more|
  {
    if more == [] {
      assert pts + more == pts;
    } else {
      var n := |more| - 1;
      assert pts + more == pts + more[..n] + [more[n]];
      PaintMore(buf, w, h, c, pts, more[..n]);
      PaintOne(buf, w, h, c, pts + more[..n], more[n]);
    }
  }

  // ---------------------------------------------------------------------------
  // The program
  // ---------------------------------------------------------------------------

  method SetPixel(buffer: array<Byte>, w: int, h: int, x: int, y: int, c: Colour)
    requires Fits(buffer.Length, w, h)
    modifies buffer
    ensures buffer[..] == PutPixel(old(buffer[..]), w, h, c, Point(x, y))
  {
    if x < 0 || x >= w || y < 0 || y >= h { return; }
    assert InBounds(w, h, Point(x, y));
    PixelFits(buffer.Length, w, h, Point(x, y));
    var idx := Index(w, Point(x, y));
    var belowA := buffer[idx + 3];
    var outA := OutAlpha(belowA, c.a);
    if outA > 0 {
      buffer[idx] := Blend(buffer[idx], belowA, c.r, c.a, outA);
      buffer[idx + 1] := Blend(buffer[idx + 1], belowA, c.g, c.a, outA);
      buffer[idx + 2] := Blend(buffer[idx + 2], belowA, c.b, c.a, outA);
      buffer[idx + 3] := outA;
    }
  }

  /** Half the thickness, truncated toward zero. */
  function Radius(thickness: int): int {
    if thickness >= 0 then thickness / 2 else -((-thickness) / 2)
  }

  /** The first n pixels of a row of the stamp, from left to right. */
  ghost function StampRow(p: Point, r: int, ty: int, n: nat): (pts: seq<Point>)
    ensures |pts| == n && forall i :: 0 <= i < n ==> pts[i] == Point(p.x - r + i, p.y + ty)
  {
    seq(n, i => Point(p.x - r + i, p.y + ty))
  }

  /** The first n rows of the stamp, from top to bottom. */
  ghost function StampRows(p: Point, r: int, n: nat): seq<Point>
    requires r >= 0
  {
    if n == 0 then [] else StampRows(p, r, n - 1) + StampRow(p, r, n - 1 - r, 2 * r + 1)
  }

  /** The rows above ty. */
  ghost function StampAbove(p: Point, r: int, ty: int): seq<Point>
    requires ty >= -r
  {
    if r < 0 then [] else StampRows(p, r, ty + r)
  }

  ghost function Stamp(p: Point, r: int): seq<Point> {
    if r < 0 then [] else StampRows(p, r, 2 * r + 1)
  }

  ghost function Stamps(pts: seq<Point>, r: int): seq<Point> {
    if pts == [] then [] else Stamps(pts[..|pts| - 1], r) + Stamp(pts[|pts| - 1], r)
  }

  method DrawRow(buffer: array<Byte>, w: int, h: int, p: Point, ty: int, r: int, c: Colour)
    requires Fits(buffer.Length, w, h) && r >= 0
    modifies buffer
    ensures buffer[..] == Paint(old(buffer[..]), w, h, c, StampRow(p, r, ty, 2 * r + 1))
  {
    ghost var start := buffer[..];
    var tx := -r;
    while tx <= r
      invariant -r <= tx <= r + 1
      invariant buffer[..] == Paint(start, w, h, c, StampRow(p, r, ty, tx + r))
    {
      PaintOne(start, w, h, c, StampRow(p, r, ty, tx + r), Point(p.x + tx, p.y + ty));
      assert StampRow(p, r, ty, tx + r + 1) == StampRow(p, r, ty, tx + r) + [Point(p.x + tx, p.y + ty)];
      SetPixel(buffer, w, h, p.x + tx, p.y + ty, c);
      tx := tx + 1;
    }
  }

  lemma StampRowStep(buf: seq<Byte>, w: int, h: int, c: Colour, p: Point, r: int, ty: int)
    requires r >= 0 && ty >= -r
    requires Fits(|buf|, w, h)
    ensures Paint(buf, w, h, c, StampAbove(p, r, ty + 1)) ==
            Paint(Paint(buf, w, h, c, StampAbove(p, r, ty)), w, h, c, StampRow(p, r, ty, 2 * r + 1))
  {
    PaintMore(buf, w, h, c, StampAbove(p, r, ty), StampRow(p, r, ty, 2 * r + 1));
  }

  method DrawStamp(buffer: array<Byte>, w: int, h: int, p: Point, r: int, c: Colour)
    requires Fits(buffer.Length, w, h)
    modifies buffer
    ensures buffer[..] == Paint(old(buffer[..]), w, h, c, Stamp(p, r))
  {
    var ty := -r;
    while ty <= r
      invariant -r <= ty && (r >= 0 ==> ty <= r + 1)
      invariant buffer[..] == Paint(old(buffer[..]), w, h, c, StampAbove(p, r, ty))
    {
      StampRowStep(old(buffer[..]), w, h, c, p, r, ty);
      DrawRow(buffer, w, h, p, ty, r, c);
      ty := ty + 1;
    }
  }

  /** The variables of the drawing loop. */
  datatype LoopState = LoopState(x: int, y: int, err: int)

  /** The body of the loop after the stamp: at most one step on each axis. */
  function LoopBody(p: Point, q: Point, s: LoopState): LoopState {
    var dx: int, dy: int := Abs(q.x - p.x), Abs(q.y - p.y);
    var stepX, stepY := 2 * s.err > -dy, 2 * s.err < dx;
    LoopState(if stepX then s.x + Sign(p.x, q.x) else s.x,
              if stepY then s.y + Sign(p.y, q.y) else s.y,
              s.err - (if stepX then dy else 0) + (if stepY then dx else 0))
  }

  ghost function LoopAfter(p: Point, q: Point, k: nat): LoopState {
    if k == 0 then LoopState(p.x, p.y, Abs(q.x - p.x) - Abs(q.y - p.y))
    else LoopBody(p, q, LoopAfter(p, q, k - 1))
  }

  /** The error term is the offset of the current point, up to a constant. */
  ghost predicate ErrorMeasuresOffset(p: Point, q: Point, k: nat, err: int) {
    var dx, dy := Abs(q.x - p.x), Abs(q.y - p.y);
    2 * err + 2 * dy == 2 * dx + (if dx >= dy then Offset(k, dy, dx, MinorSteps(k, dy, dx))
                                  else -Offset(k, dx, dy, MinorSteps(k, dx, dy)))
  }

  lemma LoopBodyAdvances(p: Point, q: Point, k: nat, s: LoopState)
    requires k < Major(p, q) && Point(s.x, s.y) == LinePoint(p, q, k) && ErrorMeasuresOffset(p, q, k, s.err)
    ensures var t := LoopBody(p, q, s);
            Point(t.x, t.y) == LinePoint(p, q, k + 1) && ErrorMeasuresOffset(p, q, k + 1, t.err)
  {
    hide LoopBody, LinePoint, ErrorMeasuresOffset;
    if Abs(q.x - p.x) >= Abs(q.y - p.y) {
      FlatBodyAdvances(p, q, k, s);
    } else {
      SteepBodyAdvances(p, q, k, s);
    }
  }

  lemma FlatBodyAdvances(p: Point, q: Point, k: nat, s: LoopState)
    requires k < Major(p, q) && Point(s.x, s.y) == LinePoint(p, q, k) && ErrorMeasuresOffset(p, q, k, s.err)
    requires Abs(q.x - p.x) >= Abs(q.y - p.y)
    ensures var t := LoopBody(p, q, s);
            Point(t.x, t.y) == LinePoint(p, q, k + 1) && ErrorMeasuresOffset(p, q, k + 1, t.err)
  {
    hide MinorSteps, Offset;
    StepFacts(k, Abs(q.y - p.y), Abs(q.x - p.x));
  }

  lemma SteepBodyAdvances(p: Point, q: Point, k: nat, s: LoopState)
    requires k < Major(p, q) && Point(s.x, s.y) == LinePoint(p, q, k) && ErrorMeasuresOffset(p, q, k, s.err)
    requires Abs(q.x - p.x) < Abs(q.y - p.y)
    ensures var t := LoopBody(p, q, s);
            Point(t.x, t.y) == LinePoint(p, q, k + 1) && ErrorMeasuresOffset(p, q, k + 1, t.err)
  {
    hide MinorSteps, Offset;
    StepFacts(k, Abs(q.x - p.x), Abs(q.y - p.y));
  }

  /** Everything about one step that the two tests of the loop depend on. */
  lemma StepFacts(k: nat, minor: nat, major: nat)
    requires minor <= major && major > 0
    ensures var m, n := MinorSteps(k, minor, major), MinorSteps(k + 1, minor, major);
      var now, next := Offset(k, minor, major, m), Offset(k + 1, minor, major, n);
      && (if now + major < 2 * minor then n == m + 1 && next == now - 2 * minor + 2 * major
          else n == m && next == now - 2 * minor)
      && (minor == major ==> now == 0) && 0 <= now + major
  {
    MinorStepsIff(k, minor, major, MinorSteps(k, minor, major));
    NextMinor(k, minor, major);
    OffsetStep(k, minor, major, MinorSteps(k, minor, major));
    if minor == major {
      DiagonalOffset(k, major);
    }
  }

  /** The loop visits the points of the line in order. */
  lemma {:induction false} LoopVisitsLine(p: Point, q: Point, k: nat)
    requires k <= Major(p, q)
    ensures Point(LoopAfter(p, q, k).x, LoopAfter(p, q, k).y) == LinePoint(p, q, k)
    ensures ErrorMeasuresOffset(p, q, k, LoopAfter(p, q, k).err)
    decreases k
  {
    if k == 0 {
      MinorAtEnds(Abs(q.y - p.y), Abs(q.x - p.x));
      MinorAtEnds(Abs(q.x - p.x), Abs(q.y - p.y));
    } else {
      LoopVisitsLine(p, q, k - 1);
      LoopBodyAdvances(p, q, k - 1, LoopAfter(p, q, k - 1));
    }
  }

  /** The picture once the first k centre points are drawn. */
  ghost function Drawn(buf: seq<Byte>, w: int, h: int, c: Colour, p: Point, q: Point, r: int, k: nat): seq<Byte>
    requires Fits(|buf|, w, h) && k <= Major(p, q) + 1
  {
    Paint(buf, w, h, c, Stamps(LinePoints(p, q)[..k], r))
  }

  lemma DrawnStep(buf: seq<Byte>, w: int, h: int, c: Colour, p: Point, q: Point, r: int, k: nat)
    requires Fits(|buf|, w, h) && k <= Major(p, q)
    ensures var s := LoopAfter(p, q, k);
            Drawn(buf, w, h, c, p, q, r, k + 1) == Paint(Drawn(buf, w, h, c, p, q, r, k), w, h, c, Stamp(Point(s.x, s.y), r))
  {
    hide LinePoint, LoopAfter, Paint, Stamp;
    LoopVisitsLine(p, q, k);
    var pts := LinePoints(p, q);
    assert pts[..k + 1][..k] == pts[..k];
    PaintMore(buf, w, h, c, Stamps(pts[..k], r), Stamp(pts[k], r));
  }

  /** The end is reached after exactly Major steps. */
  lemma AtEndIff(p: Point, q: Point, k: nat)
    requires k <= Major(p, q)
    ensures LoopAfter(p, q, k).x == q.x && LoopAfter(p, q, k).y == q.y <==> k == Major(p, q)
  {
    LoopVisitsLine(p, q, k);
    LineEnds(p, q);
  }

  lemma DrawnAll(buf: seq<Byte>, w: int, h: int, c: Colour, p: Point, q: Point, r: int)
    requires Fits(|buf|, w, h)
    ensures Drawn(buf, w, h, c, p, q, r, Major(p, q) + 1) == Paint(buf, w, h, c, Stamps(LinePoints(p, q), r))
    ensures Drawn(buf, w, h, c, p, q, r, 0) == buf
  {
    assert LinePoints(p, q)[..Major(p, q) + 1] == LinePoints(p, q);
  }

  /** The rest of the loop body. */
  method Advance(dx: int, dy: int, sx: int, sy: int, x0: int, y0: int, err0: int, ghost p: Point, ghost q: Point)
      returns (x: int, y: int, err: int)
    requires dx == Abs(q.x - p.x) && dy == Abs(q.y - p.y) && sx == Sign(p.x, q.x) && sy == Sign(p.y, q.y)
    ensures LoopState(x, y, err) == LoopBody(p, q, LoopState(x0, y0, err0))
  {
    x, y, err := x0, y0, err0;
    var e2 := 2 * err;
    if e2 > -dy { err := err - dy; x := x + sx; }
    if e2 < dx { err := err + dx; y := y + sy; }
  }

  lemma LoopStarts(p: Point, q: Point)
    ensures LoopAfter(p, q, 0) == LoopState(p.x, p.y, Abs(q.x - p.x) - Abs(q.y - p.y))
  {
  }

  lemma LoopGoesOn(p: Point, q: Point, k: nat)
    ensures LoopAfter(p, q, k + 1) == LoopBody(p, q, LoopAfter(p, q, k))
  {
  }

  method DrawLineSegment(buffer: array<Byte>, w: int, h: int, x0: int, y0: int, x1: int, y1: int, c: Colour,
          thickness: int)
    requires Fits(buffer.Length, w, h)
    modifies buffer
    ensures buffer[..] ==
            Paint(old(buffer[..]), w, h, c, Stamps(LinePoints(Point(x0, y0), Point(x1, y1)), Radius(thickness)))
  {
    hide Drawn, LoopAfter, LoopBody, LinePoint, Paint, Stamp, MinorSteps;
    ghost var start, p, q, r, k := buffer[..], Point(x0, y0), Point(x1, y1), Radius(thickness), 0;
    ghost var last := Major(p, q);
    var dx: int, dy: int := Abs(x1 - x0), Abs(y1 - y0);
    var sx, sy := Sign(x0, x1), Sign(y0, y1);
    var err, x, y := dx - dy, x0, y0;
    DrawnAll(start, w, h, c, p, q, r);
    LoopStarts(p, q);
    while true
      invariant 0 <= k <= last && LoopState(x, y, err) == LoopAfter(p, q, k)
      invariant buffer[..] == Drawn(start, w, h, c, p, q, r, k)
      decreases last - k
    {
      DrawnStep(start, w, h, c, p, q, r, k);
      DrawStamp(buffer, w, h, Point(x, y), Radius(thickness), c);
      AtEndIff(p, q, k);
      if x == x1 && y == y1 { break; }
      LoopGoesOn(p, q, k);
      x, y, err := Advance(dx, dy, sx, sy, x, y, err, p, q);
      k := k + 1;
    }
    assert k == last;
  }

  // ---------------------------------------------------------------------------
  // What the buffer shows
  // ---------------------------------------------------------------------------

  /** The four bytes of a pixel. */
  ghost function PixelAt(buf: seq<Byte>, w: int, h: int, p: Point): seq<Byte>
    requires Fits(|buf|, w, h) && InBounds(w, h, p)
  {
    PixelFits(|buf|, w, h, p);
    buf[Index(w, p)..Index(w, p) + 4]
  }

  lemma PixelsApart(w: int, h: int, p: Point, q: Point)
    requires InBounds(w, h, p) && InBounds(w, h, q) && p != q
    ensures Index(w, p) + 4 <= Index(w, q) || Index(w, q) + 4 <= Index(w, p)
  {
    if p.y < q.y {
      assert p.y * w + w == (p.y + 1) * w <= q.y * w;
    } else if p.y > q.y {
      assert q.y * w + w == (q.y + 1) * w <= p.y * w;
    }
  }

  lemma PutPixelElsewhere(buf: seq<Byte>, w: int, h: int, c: Colour, p: Point, u: Point)
    requires Fits(|buf|, w, h) && InBounds(w, h, u) && u != p
    ensures PixelAt(PutPixel(buf, w, h, c, p), w, h, u) == PixelAt(buf, w, h, u)
  {
    PixelFits(|buf|, w, h, u);
    if InBounds(w, h, p) {
      PixelFits(|buf|, w, h, p);
      PixelsApart(w, h, p, u);
    }
  }

  lemma OpaqueBlend(below: Byte, belowA: Byte, above: Byte)
    ensures OutAlpha(belowA, 255) == 255
    ensures Blend(below, belowA, above, 255, 255) == above
  {
    assert 255 * (255 - belowA) / 255 == 255 - belowA;
    assert below * belowA * 0 == 0;
    assert above * 255 / 255 == above;
  }

  lemma PutPixelHere(buf: seq<Byte>, w: int, h: int, c: Colour, p: Point)
    requires Fits(|buf|, w, h) && InBounds(w, h, p) && c.a == 255
    ensures PixelAt(PutPixel(buf, w, h, c, p), w, h, p) == [c.r, c.g, c.b, 255]
  {
    PixelFits(|buf|, w, h, p);
    var i := Index(w, p);
    OpaqueBlend(buf[i], buf[i + 3], c.r);
    OpaqueBlend(buf[i + 1], buf[i + 3], c.g);
    OpaqueBlend(buf[i + 2], buf[i + 3], c.b);
  }

  /** Pixels that no stamp touches keep their bytes, whatever the colour. */
  lemma {:induction false} PaintElsewhere(buf: seq<Byte>, w: int, h: int, c: Colour, pts: seq<Point>, u: Point)
    requires Fits(|buf|, w, h) && InBounds(w, h, u) && u !in pts
    ensures PixelAt(Paint(buf, w, h, c, pts), w, h, u) == PixelAt(buf, w, h, u)
    decreases |pts|
  {
    if pts != [] {
      var n := |pts| - 1;
      PaintElsewhere(buf, w, h, c, pts[..n], u);
      PutPixelElsewhere(Paint(buf, w, h, c, pts[..n]), w, h, c, pts[n], u);
    }
  }

  /** Pixels touched with an opaque colour show exactly that colour. */
  lemma {:induction false} PaintHere(buf: seq<Byte>, w: int, h: int, c: Colour, pts: seq<Point>, u: Point)
    requires Fits(|buf|, w, h) && InBounds(w, h, u) && u in pts && c.a == 255
    ensures PixelAt(Paint(buf, w, h, c, pts), w, h, u) == [c.r, c.g, c.b, 255]
    decreases |pts|
  {
    var n := |pts| - 1;
    var rest := Paint(buf, w, h, c, pts[..n]);
    if u == pts[n] {
      PutPixelHere(rest, w, h, c, u);
    } else {
      PaintHere(buf, w, h, c, pts[..n], u);
      PutPixelElsewhere(rest, w, h, c, pts[n], u);
    }
  }

  lemma {:induction false} InStampRows(p: Point, r: int, n: nat, u: Point)
    requires r >= 0
    ensures u in StampRows(p, r, n) <==> Abs(u.x - p.x) <= r && -r <= u.y - p.y < n - r
    decreases n
  {
    if n > 0 {
      InStampRows(p, r, n - 1, u);
      var row := StampRow(p, r, n - 1 - r, 2 * r + 1);
      if Abs(u.x - p.x) <= r && u.y == p.y + (n - 1 - r) {
        assert row[u.x - p.x + r] == u;
      }
    }
  }

  /** The stamp is the square of pixels within r of its centre. */
  predicate Near(p: Point, r: int, u: Point) {
    Abs(u.x - p.x) <= r && Abs(u.y - p.y) <= r
  }

  lemma InStamp(p: Point, r: int, u: Point)
    ensures u in Stamp(p, r) <==> Near(p, r, u)
  {
    if r >= 0 {
      InStampRows(p, r, 2 * r + 1, u);
    }
  }

  ghost predicate NearSome(pts: seq<Point>, r: int, u: Point) {
    exists p :: p in pts && Near(p, r, u)
  }

  lemma {:induction false} InStamps(pts: seq<Point>, r: int, u: Point)
    ensures u in Stamps(pts, r) <==> NearSome(pts, r, u)
    decreases |pts|
  {
    if pts != [] {
      var n := |pts| - 1;
      assert pts == pts[..n] + [pts[n]];
      InStamps(pts[..n], r, u);
      InStamp(pts[n], r, u);
    }
  }

  /**
   * After an opaque line is drawn, a pixel of the picture shows the colour exactly when it is
   * within the radius of some centre point, and is unchanged otherwise.
   */
  lemma OpaqueLineShows(buf: seq<Byte>, w: int, h: int, c: Colour, p: Point, q: Point, r: int, u: Point)
    requires Fits(|buf|, w, h) && InBounds(w, h, u) && c.a == 255
    ensures PixelAt(Paint(buf, w, h, c, Stamps(LinePoints(p, q), r)), w, h, u) ==
            if NearSome(LinePoints(p, q), r, u)
            then [c.r, c.g, c.b, 255] else PixelAt(buf, w, h, u)
  {
    InStamps(LinePoints(p, q), r, u);
    if u in Stamps(LinePoints(p, q), r) {
      PaintHere(buf, w, h, c, Stamps(LinePoints(p, q), r), u);
    } else {
      PaintElsewhere(buf, w, h, c, Stamps(LinePoints(p, q), r), u);
    }
  }

  // ---------------------------------------------------------------------------
  // Translucent colours
  // ---------------------------------------------------------------------------

  /** A pixel is four bytes, row by row from the top left. */
  lemma PixelBytes(buf: seq<Byte>, w: int, h: int, x: nat, y: nat)
    requires Fits(|buf|, w, h) && InBounds(w, h, Point(x, y))
    ensures 0 <= 4 * (y * w + x) && 4 * (y * w + x) + 4 <= |buf|
    ensures PixelAt(buf, w, h, Point(x, y)) == buf[4 * (y * w + x)..4 * (y * w + x) + 4]
  {
    PixelFits(|buf|, w, h, Point(x, y));
  }

  /** A line has the width of its thickness, or one more if that is even. */
  lemma ThicknessIsWidth(thickness: int)
    ensures thickness > 0 ==> 2 * Radius(thickness) + 1 == thickness + (if thickness % 2 == 0 then 1 else 0)
    ensures -1 <= thickness <= 1 ==> Radius(thickness) == 0
    ensures thickness <= -2 ==> Radius(thickness) < 0
  {
  }

  lemma ClearBlend(below: Byte, belowA: Byte, above: Byte)
    ensures OutAlpha(belowA, 0) == belowA
    ensures belowA > 0 ==> Blend(below, belowA, above, 0, belowA) == below
  {
    assert 0 * (255 - belowA) == 0;
    if belowA > 0 {
      ClearNumerator(below, belowA, above);
      DivExact(below, belowA);
    }
  }

  lemma ClearNumerator(below: Byte, belowA: Byte, above: Byte)
    ensures below * belowA * (255 - 0) / 255 + above * 0 == below * belowA
  {
    DivExact(below * belowA, 255);
  }

  lemma DivExact(n: nat, d: nat)
    requires d > 0
    ensures n * d / d == n
  {
    DivIff(n * d, d, n);
  }

  lemma PutClearPixel(buf: seq<Byte>, w: int, h: int, c: Colour, p: Point)
    requires Fits(|buf|, w, h) && c.a == 0
    ensures PutPixel(buf, w, h, c, p) == buf
  {
    hide Blend, OutAlpha;
    if InBounds(w, h, p) {
      PixelFits(|buf|, w, h, p);
      var i := Index(w, p);
      ClearBlend(buf[i], buf[i + 3], c.r);
      ClearBlend(buf[i + 1], buf[i + 3], c.g);
      ClearBlend(buf[i + 2], buf[i + 3], c.b);
    }
  }

  /** A fully transparent colour changes nothing. */
  lemma {:induction false} ClearPaint(buf: seq<Byte>, w: int, h: int, c: Colour, pts: seq<Point>)
    requires Fits(|buf|, w, h) && c.a == 0
    ensures Paint(buf, w, h, c, pts) == buf
    decreases |pts|
  {
    if pts != [] {
      ClearPaint(buf, w, h, c, pts[..|pts| - 1]);
      PutClearPixel(buf, w, h, c, pts[|pts| - 1]);
    }
  }

  /** The mean of two channels, the upper one with weight a of 255, rounded down. */
  function Mixed(below: Byte, above: Byte, a: Byte): (m: Byte)
    ensures (below <= m <= above) || (above <= m <= below)
  {
    MeanIsBetween(below, above, a);
    (below * (255 - a) + above * a) / 255
  }

  lemma MeanIsBetween(below: Byte, above: Byte, a: Byte)
    ensures var m := (below * (255 - a) + above * a) / 255;
            0 <= m < 256 && ((below <= m <= above) || (above <= m <= below))
  {
    var n := below * (255 - a) + above * a;
    if below <= above {
      Part(above - below, a);
      assert n == 255 * below + (above - below) * a;
      FloorBetween(n, below, above);
    } else {
      Part(below - above, a);
      assert n == 255 * below - (below - above) * a;
      FloorBetween(n, above, below);
    }
  }

  lemma Part(d: nat, a: Byte)
    ensures 0 <= d * a <= 255 * d
  {
    assert d * (255 - a) >= 0;
  }

  lemma FloorBetween(n: int, lo: nat, hi: nat)
    requires 255 * lo <= n <= 255 * hi
    ensures lo <= n / 255 <= hi
  {
  }

  lemma BlendOnOpaque(below: Byte, above: Byte, a: Byte)
    ensures OutAlpha(255, a) == 255 && Blend(below, 255, above, a, 255) == Mixed(below, above, a)
  {
    assert a * (255 - 255) == 0;
    assert below * 255 * (255 - a) == below * (255 - a) * 255;
    DivExact(below * (255 - a), 255);
  }

  lemma BlendOnEmpty(below: Byte, above: Byte, a: Byte)
    ensures OutAlpha(0, a) == a
    ensures a > 0 ==> Blend(below, 0, above, a, a) == above
  {
    DivExact(a, 255);
    assert below * 0 * (255 - a) == 0;
    if a > 0 { DivExact(above, a); }
  }

  lemma FourBytes(buf: seq<Byte>, i: nat, r: Byte, g: Byte, b: Byte, a: Byte)
    requires i + 4 <= |buf|
    ensures buf[i := r][i + 1 := g][i + 2 := b][i + 3 := a][i..i + 4] == [r, g, b, a]
    ensures buf[i..i + 4] == [buf[i], buf[i + 1], buf[i + 2], buf[i + 3]]
  {
  }

  lemma PutPixelBytes(buf: seq<Byte>, w: int, h: int, c: Colour, p: Point, i: nat)
    requires Fits(|buf|, w, h) && InBounds(w, h, p) && i == Index(w, p) && i + 4 <= |buf|
    requires OutAlpha(buf[i + 3], c.a) > 0
    ensures var outA := OutAlpha(buf[i + 3], c.a);
            PixelAt(PutPixel(buf, w, h, c, p), w, h, p)
            == [Blend(buf[i], buf[i + 3], c.r, c.a, outA), Blend(buf[i + 1], buf[i + 3], c.g, c.a, outA),
                Blend(buf[i + 2], buf[i + 3], c.b, c.a, outA), outA]
  {
    hide Blend, OutAlpha, Index;
    var outA := OutAlpha(buf[i + 3], c.a);
    FourBytes(buf, i, Blend(buf[i], buf[i + 3], c.r, c.a, outA), Blend(buf[i + 1], buf[i + 3], c.g, c.a, outA),
              Blend(buf[i + 2], buf[i + 3], c.b, c.a, outA), outA);
  }

  /** On an opaque pixel the colour is mixed in with its alpha as the weight; on an empty one it stands alone. */
  lemma PutOverPixel(buf: seq<Byte>, w: int, h: int, c: Colour, p: Point)
    requires Fits(|buf|, w, h) && InBounds(w, h, p)
    ensures var below, after := PixelAt(buf, w, h, p), PixelAt(PutPixel(buf, w, h, c, p), w, h, p);
            && |below| == 4
            && (below[3] == 255 ==>
                  after == [Mixed(below[0], c.r, c.a), Mixed(below[1], c.g, c.a), Mixed(below[2], c.b, c.a), 255])
            && (below[3] == 0 && c.a > 0 ==> after == [c.r, c.g, c.b, c.a])
  {
    hide Blend, OutAlpha, Mixed, PutPixel, Index;
    PixelFits(|buf|, w, h, p);
    var i := Index(w, p);
    FourBytes(buf, i, 0, 0, 0, 0);
    if buf[i + 3] == 255 {
      BlendOnOpaque(buf[i], c.r, c.a);
      BlendOnOpaque(buf[i + 1], c.g, c.a);
      BlendOnOpaque(buf[i + 2], c.b, c.a);
      PutPixelBytes(buf, w, h, c, p, i);
    } else if buf[i + 3] == 0 && c.a > 0 {
      BlendOnEmpty(buf[i], c.r, c.a);
      BlendOnEmpty(buf[i + 1], c.g, c.a);
      BlendOnEmpty(buf[i + 2], c.b, c.a);
      PutPixelBytes(buf, w, h, c, p, i);
    }
  }

  /** Painting never makes a pixel more transparent than it was, or than the colour is. */
  lemma AlphaGrows(below: Byte, above: Byte)
    ensures OutAlpha(below, above) >= below && OutAlpha(below, above) >= above
  {
    var rest := above * (255 - below);
    assert rest == 255 * above - above * below;
    assert above * below <= 255 * below;
  }

  /** Nearly white over nearly black, both nearly transparent: the sum does not fit into a byte and comes out black. */
  lemma BlendWraps()
    ensures OutAlpha(1, 1) == 1 && Blend(2, 1, 255, 1, 1) == 0
  {
  }
}
