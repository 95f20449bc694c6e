/**
 Which transforms exist: what the position of the four points says about the equations of the solver
 (apps/web/src/purchase-wizard/media-utils.ts), and the plan that hands it the corners of a rectangle.
 */
module Perspective {
  import opened Results
  import opened Homography

  // ---- Where the points lie ------------------------------------------------------------

  /** Numerator and denominator give a coordinate. */
  predicate Gives(above: real, below: real, coordinate: real) {
    above == coordinate * below
  }

  /** The two equations of a pair, with the last coefficient 1. */
  predicate Pair(s: Point, d: Point, v: seq<real>)
    requires |v| == SIZE
  {
    && Gives(Affine(v[0], v[1], v[2], s), Affine(v[6], v[7], 1.0, s), d.x)
    && Gives(Affine(v[3], v[4], v[5], s), Affine(v[6], v[7], 1.0, s), d.y)
  }

  lemma PairSays(s: Point, d: Point, v: seq<real>)
    requires |v| == SIZE
    ensures Satisfies(RowX(s, d), v) && Satisfies(RowY(s, d), v) <==> Pair(s, d, v)
  {
    hide Satisfies, RowX, RowY, Affine;
    RowXSays(s, d, v);
    RowYSays(s, d, v);
  }

  predicate AllPairs(source: seq<Point>, target: seq<Point>, v: seq<real>)
    requires |source| == |target| == 4 && |v| == SIZE
  {
    forall k | 0 <= k < 4 :: Pair(source[k], target[k], v)
  }

  lemma PairsSay(source: seq<Point>, target: seq<Point>, v: seq<real>)
    requires |source| == |target| == 4 && |v| == SIZE
    ensures Solves(Equations(source, target, 4), v) <==> AllPairs(source, target, v)
  {
    hide Equations, Satisfies, RowX, RowY, Pair;
    var e := Equations(source, target, 4);
    forall k | 0 <= k < 4
      ensures Satisfies(e[2 * k], v) && Satisfies(e[2 * k + 1], v) <==> Pair(source[k], target[k], v)
    {
      PairSays(source[k], target[k], v);
    }
    if AllPairs(source, target, v) {
      forall r | 0 <= r < SIZE
        ensures Satisfies(e[r], v)
      {
        assert Pair(source[r / 2], target[r / 2], v);
        assert r == 2 * (r / 2) || r == 2 * (r / 2) + 1;
      }
    }
  }

  /** Three of the four points on the line a x + b y + c == 0. */
  predicate OnLine(source: seq<Point>, other: nat, a: real, b: real, c: real) {
    forall k | 0 <= k < |source| && k != other :: Affine(a, b, c, source[k]) == 0.0
  }

  /** The same transform, tilted along both axes towards two targets. */
  function Tilted(v: seq<real>, t: Point, u: Point, a: real, b: real): (w: seq<real>)
    requires |v| == SIZE
    ensures |w| == SIZE
  {
    [v[0] + t.x * a, v[1] + u.x * b, v[2], v[3] + t.y * a, v[4] + u.y * b, v[5], v[6] + a, v[7] + b]
  }

  lemma TiltedPair(s: Point, d: Point, v: seq<real>, t: Point, u: Point, a: real, b: real, m: real, n: real)
    requires |v| == SIZE && Pair(s, d, v) && m == a * s.x && n == b * s.y
    requires t.x * m + u.x * n == d.x * (m + n) && t.y * m + u.y * n == d.y * (m + n)
    ensures Pair(s, d, Tilted(v, t, u, a, b))
  {
    TiltedSide(v[0], v[1], v[2], t.x, u.x, a, b, s, m, n);
    TiltedSide(v[3], v[4], v[5], t.y, u.y, a, b, s, m, n);
    TiltedSide(v[6], v[7], 1.0, 1.0, 1.0, a, b, s, m, n);
    var below := Affine(v[6], v[7], 1.0, s);
    GivesMore(Affine(v[0], v[1], v[2], s), below, d.x, t.x * m + u.x * n, m + n);
    GivesMore(Affine(v[3], v[4], v[5], s), below, d.y, t.y * m + u.y * n, m + n);
  }

  lemma GivesMore(above: real, below: real, coordinate: real, more: real, tilt: real)
    requires Gives(above, below, coordinate) && more == coordinate * tilt
    ensures Gives(above + more, below + tilt, coordinate)
  {
    assert coordinate * (below + tilt) == coordinate * below + coordinate * tilt;
  }

  lemma TiltedSide(x: real, y: real, z: real, t: real, u: real, a: real, b: real, s: Point, m: real, n: real)
    requires m == a * s.x && n == b * s.y
    ensures Affine(x + t * a, y + u * b, z, s) == Affine(x, y, z, s) + (t * m + u * n)
  {
    assert (x + t * a) * s.x == x * s.x + t * m;
    assert (y + u * b) * s.y == y * s.y + u * n;
  }

  /** Tilting about a line leaves the points on it where they are, and those at the target. */
  lemma TiltedAboutLine(s: Point, d: Point, v: seq<real>, t: Point, a: real, b: real)
    requires |v| == SIZE && Pair(s, d, v) && (Affine(a, b, 0.0, s) == 0.0 || d == t)
    ensures Pair(s, d, Tilted(v, t, t, a, b))
  {
    var m, n := a * s.x, b * s.y;
    Shared(t.x, d.x, m, n);
    Shared(t.y, d.y, m, n);
    TiltedPair(s, d, v, t, t, a, b, m, n);
  }

  lemma Shared(t: real, d: real, m: real, n: real)
    requires m + n == 0.0 || d == t
    ensures t * m + t * n == d * (m + n)
  {
    assert t * m + t * n == t * (m + n);
  }

  lemma LineThroughOriginOpen(source: seq<Point>, target: seq<Point>, other: nat, a: real, b: real, v: seq<real>)
    requires |source| == |target| == 4 && other < 4
    requires (a != 0.0 || b != 0.0) && OnLine(source, other, a, b, 0.0)
    ensures !Unique(Equations(source, target, 4), v)
  {
    hide Pair, Equations, Solves, Affine;
    if |v| == SIZE && Solves(Equations(source, target, 4), v) {
      var w := Tilted(v, target[other], target[other], a, b);
      PairsSay(source, target, v);
      forall k | 0 <= k < 4
        ensures Pair(source[k], target[k], w)
      {
        TiltedAboutLine(source[k], target[k], v, target[other], a, b);
      }
      PairsSay(source, target, w);
      assert w[6] != v[6] || w[7] != v[7];
    }
  }

  lemma RefusedUnlessUnique(source: seq<Point>, target: seq<Point>)
    requires |source| == |target| == 4
    requires forall v: seq<real> :: !Unique(Equations(source, target, 4), v)
    ensures RefusedPairs(source, target)
  {
    hide Equations, Refused, After, Unique;
    EquationsShaped(source, target);
    var e := Equations(source, target, 4);
    if !Refused(e) {
      SolvedUnlessRefused(e);
    }
  }

  /** Three source points on a line through the origin are refused, wherever they are to go: no solution
      is the only one. */
  lemma LineThroughOriginRefused(source: seq<Point>, target: seq<Point>, other: nat, a: real, b: real)
    requires |source| == |target| == 4 && other < 4
    requires (a != 0.0 || b != 0.0) && OnLine(source, other, a, b, 0.0)
    ensures RefusedPairs(source, target)
  {
    hide Equations, RefusedPairs, Unique, OnLine;
    forall v: seq<real>
      ensures !Unique(Equations(source, target, 4), v)
    {
      LineThroughOriginOpen(source, target, other, a, b, v);
    }
    RefusedUnlessUnique(source, target);
  }

  /** The transform that sends everything to one target, and the line to no point at all. */
  function Collapsed(t: Point, a: real, b: real): (v: seq<real>)
    ensures |v| == SIZE
  {
    [t.x * a, t.x * b, t.x, t.y * a, t.y * b, t.y, a, b]
  }

  lemma CollapsedPair(s: Point, d: Point, t: Point, a: real, b: real)
    requires Affine(a, b, 1.0, s) == 0.0 || d == t
    ensures Pair(s, d, Collapsed(t, a, b))
  {
    var l := Affine(a, b, 1.0, s);
    CollapsedSide(t.x, a, b, s, l);
    CollapsedSide(t.y, a, b, s, l);
  }

  lemma CollapsedSide(t: real, a: real, b: real, s: Point, l: real)
    requires l == a * s.x + b * s.y + 1.0
    ensures Affine(t * a, t * b, t, s) == t * l
  {
    assert t * a * s.x == t * (a * s.x) && t * b * s.y == t * (b * s.y);
    assert t * l == t * (a * s.x) + t * (b * s.y) + t;
  }

  /** Three source points on any other line: the equations are refused, or their only solution projects
      none of the three. */
  lemma LineRefusedOrUnusable(source: seq<Point>, target: seq<Point>, other: nat, a: real, b: real)
    requires |source| == |target| == 4 && other < 4 && OnLine(source, other, a, b, 1.0)
    ensures forall v: seq<real> | Unique(Equations(source, target, 4), v) ::
      forall k | 0 <= k < 4 && k != other :: ProjectPoint(v + [1.0], source[k]) == Err(Unusable)
  {
    hide Pair, Equations, Solves;
    var w := Collapsed(target[other], a, b);
    forall k | 0 <= k < 4
      ensures Pair(source[k], target[k], w)
    {
      CollapsedPair(source[k], target[k], target[other], a, b);
    }
    PairsSay(source, target, w);
    forall v: seq<real> | Unique(Equations(source, target, 4), v)
      ensures forall k | 0 <= k < 4 && k != other :: ProjectPoint(v + [1.0], source[k]) == Err(Unusable)
    {
      assert v == w;
      assert (v + [1.0])[6] == a && (v + [1.0])[7] == b && (v + [1.0])[8] == 1.0;
    }
  }

  /** There the only solution can exist: three points with x == 1, and the origin. */
  lemma LineCanBeSolved(v: seq<real>)
    requires |v| == SIZE
    ensures var source := [Point(1.0, 0.0), Point(1.0, 1.0), Point(1.0, 2.0), Point(0.0, 0.0)];
      var target := [Point(0.0, 0.0), Point(1.0, 0.0), Point(0.0, 1.0), Point(0.0, 0.0)];
      && OnLine(source, 3, -1.0, 0.0, 1.0)
      && (Solves(Equations(source, target, 4), v) <==> v == [0.0, 0.0, 0.0, 0.0, 0.0, 0.0, -1.0, 0.0])
  {
    hide Solves, Equations;
    var source := [Point(1.0, 0.0), Point(1.0, 1.0), Point(1.0, 2.0), Point(0.0, 0.0)];
    var target := [Point(0.0, 0.0), Point(1.0, 0.0), Point(0.0, 1.0), Point(0.0, 0.0)];
    PairsSay(source, target, v);
    FourPairs(source, target, v);
  }

  // ---- The rectangle of a corrected document -------------------------------------------

  /** The corners of the output, as the plan hands them to the solver. */
  function Rectangle(width: real, height: real): (s: seq<Point>)
    ensures |s| == 4
  {
    [Point(0.0, 0.0), Point(width, 0.0), Point(width, height), Point(0.0, height)]
  }

  /** A rectangle without width or height is refused whatever corners were marked. */
  lemma FlatRectangleRefused(width: real, height: real, target: seq<Point>)
    requires |target| == 4 && (width == 0.0 || height == 0.0)
    ensures RefusedPairs(Rectangle(width, height), target)
  {
    if width == 0.0 {
      LineThroughOriginRefused(Rectangle(width, height), target, 0, 1.0, 0.0);
    } else {
      LineThroughOriginRefused(Rectangle(width, height), target, 0, 0.0, 1.0);
    }
  }

  /** One coordinate at the four corners: slopes a and b over width and height, offset c, tilts g and k. */
  predicate Side(a: real, b: real, c: real, g: real, k: real, t0: real, t1: real, t2: real, t3: real) {
    && Gives(c, 1.0, t0)
    && Gives(a + c, g + 1.0, t1)
    && Gives(a + b + c, g + k + 1.0, t2)
    && Gives(b + c, k + 1.0, t3)
  }

  /** The values at the corners of a side with slopes a and b. */
  predicate AtCorners(s: seq<Point>, x: real, y: real, c: real, a: real, b: real)
    requires |s| == 4
  {
    && Affine(x, y, c, s[0]) == c
    && Affine(x, y, c, s[1]) == a + c
    && Affine(x, y, c, s[2]) == a + b + c
    && Affine(x, y, c, s[3]) == b + c
  }

  predicate Product(p: real, x: real, w: real) {
    p == x * w
  }

  lemma RectangleCorners(x: real, y: real, c: real, w: real, h: real, a: real, b: real)
    requires Product(a, x, w) && Product(b, y, h)
    ensures AtCorners(Rectangle(w, h), x, y, c, a, b)
  {
  }

  lemma SidesSay(s: seq<Point>, t: seq<Point>, v: seq<real>, a: real, b: real, p: real, q: real, g: real, k: real)
    requires |s| == |t| == 4 && |v| == SIZE
    requires AtCorners(s, v[0], v[1], v[2], a, b) && AtCorners(s, v[3], v[4], v[5], p, q)
    requires AtCorners(s, v[6], v[7], 1.0, g, k)
    ensures AllPairs(s, t, v) <==>
      Side(a, b, v[2], g, k, t[0].x, t[1].x, t[2].x, t[3].x) && Side(p, q, v[5], g, k, t[0].y, t[1].y, t[2].y, t[3].y)
  {
    hide Affine, Gives;
    FourPairs(s, t, v);
  }

  /** A transform in terms of the rectangle: its slopes and tilts over the width and over the height. */
  predicate Over(v: seq<real>, w: real, h: real, a: real, b: real, p: real, q: real, g: real, k: real)
    requires |v| == SIZE
  {
    && Product(a, v[0], w) && Product(b, v[1], h) && Product(p, v[3], w) && Product(q, v[4], h)
    && Product(g, v[6], w) && Product(k, v[7], h)
  }

  /** The equations of a rectangle, side by side. */
  lemma RectangleSays(w: real, h: real, t: seq<Point>, v: seq<real>, a: real, b: real, p: real, q: real, g: real, k: real)
    requires |t| == 4 && |v| == SIZE && Over(v, w, h, a, b, p, q, g, k)
    ensures Solves(Equations(Rectangle(w, h), t, 4), v) <==>
      Side(a, b, v[2], g, k, t[0].x, t[1].x, t[2].x, t[3].x) && Side(p, q, v[5], g, k, t[0].y, t[1].y, t[2].y, t[3].y)
  {
    hide Solves, Equations, Affine, Side, Pair, AtCorners, AllPairs, Product;
    var s := Rectangle(w, h);
    RectangleCorners(v[0], v[1], v[2], w, h, a, b);
    RectangleCorners(v[3], v[4], v[5], w, h, p, q);
    RectangleCorners(v[6], v[7], 1.0, w, h, g, k);
    SidesSay(s, t, v, a, b, p, q, g, k);
    PairsSay(s, t, v);
  }

  lemma FourPairs(s: seq<Point>, t: seq<Point>, v: seq<real>)
    requires |s| == |t| == 4 && |v| == SIZE
    ensures AllPairs(s, t, v)
      <==> Pair(s[0], t[0], v) && Pair(s[1], t[1], v) && Pair(s[2], t[2], v) && Pair(s[3], t[3], v)
  {
  }

  /** Twice the area spanned by the last three corners; zero when they are on one line. */
  function Area(t: seq<Point>): real
    requires |t| == 4
  {
    Determinant(t[1].x - t[2].x, t[3].x - t[2].x, t[1].y - t[2].y, t[3].y - t[2].y)
  }

  function Determinant(px: real, qx: real, py: real, qy: real): real {
    px * qy - qx * py
  }

  /** The tilts g and k close a side. */
  predicate Closes(p: real, q: real, r: real, g: real, k: real) {
    p * g + q * k == r
  }

  /** What a side gains along an edge that is tilted by g. */
  function Rise(from: real, to: real, g: real): real {
    to * (g + 1.0) - from
  }

  /** A side in terms of its tilts: the tilts along both edges close the rectangle. */
  lemma SideSays(a: real, b: real, c: real, g: real, k: real, t0: real, t1: real, t2: real, t3: real)
    ensures Side(a, b, c, g, k, t0, t1, t2, t3) <==>
      && c == t0 && a == Rise(t0, t1, g) && b == Rise(t0, t3, k)
      && Closes(t1 - t2, t3 - t2, t0 + t2 - t1 - t3, g, k)
  {
    assert t1 * (g + 1.0) == t1 * g + t1 && t3 * (k + 1.0) == t3 * k + t3;
    assert t2 * (g + k + 1.0) == t2 * g + t2 * k + t2;
    assert (t1 - t2) * g == t1 * g - t2 * g && (t3 - t2) * k == t3 * k - t2 * k;
  }

  /** The one solution of two equations, by Cramer's rule. */
  function Cramer(px: real, qx: real, rx: real, py: real, qy: real, ry: real): (gk: (real, real))
    requires Determinant(px, qx, py, qy) != 0.0
  {
    var d := Determinant(px, qx, py, qy);
    (Determinant(rx, qx, ry, qy) / d, Determinant(px, rx, py, ry) / d)
  }

  lemma CramerIff(px: real, qx: real, rx: real, py: real, qy: real, ry: real, g: real, k: real)
    requires Determinant(px, qx, py, qy) != 0.0
    ensures Closes(px, qx, rx, g, k) && Closes(py, qy, ry, g, k) <==> (g, k) == Cramer(px, qx, rx, py, qy, ry)
  {
    var d := px * qy - qx * py;
    var m, n := rx * qy - qx * ry, px * ry - rx * py;
    DivideBack(m, g, d);
    DivideBack(n, k, d);
    if Closes(px, qx, rx, g, k) && Closes(py, qy, ry, g, k) {
      CramerSolves(px, qx, rx, py, qy, ry, g, k);
    }
    if m == g * d && n == k * d {
      CramerSolution(px, qx, rx, py, qy, ry, d, g, k);
    }
  }

  lemma CramerSolves(px: real, qx: real, rx: real, py: real, qy: real, ry: real, g: real, k: real)
    requires px * g + qx * k == rx && py * g + qy * k == ry
    ensures rx * qy - qx * ry == g * (px * qy - qx * py)
    ensures px * ry - rx * py == k * (px * qy - qx * py)
  {
    assert rx * qy == (px * qy) * g + (qx * qy) * k;
    assert qx * ry == (qx * py) * g + (qx * qy) * k;
    assert px * ry == (px * py) * g + (px * qy) * k;
    assert rx * py == (px * py) * g + (qx * py) * k;
  }

  lemma CramerSolution(px: real, qx: real, rx: real, py: real, qy: real, ry: real, d: real, g: real, k: real)
    requires d == px * qy - qx * py && d != 0.0
    requires rx * qy - qx * ry == g * d && px * ry - rx * py == k * d
    ensures px * g + qx * k == rx && py * g + qy * k == ry
  {
    CramerRow(px, qx, rx, px, qx, rx, py, qy, ry, d, g, k);
    CramerRow(py, qy, ry, px, qx, rx, py, qy, ry, d, g, k);
  }

  /** One equation, multiplied by the determinant; it is either of the two. */
  lemma CramerRow(p: real, q: real, r: real, px: real, qx: real, rx: real, py: real, qy: real, ry: real, d: real, g: real, k: real)
    requires d == px * qy - qx * py && d != 0.0
    requires rx * qy - qx * ry == g * d && px * ry - rx * py == k * d
    requires (p, q, r) == (px, qx, rx) || (p, q, r) == (py, qy, ry)
    ensures p * g + q * k == r
  {
    var m, n := rx * qy - qx * ry, px * ry - rx * py;
    assert p * m == (p * rx) * qy - (p * qx) * ry;
    assert q * n == (q * px) * ry - (q * py) * rx;
    assert r * d == (r * px) * qy - (r * py) * qx;
    assert p * m + q * n == r * d;
    assert (p * g + q * k) * d == p * (g * d) + q * (k * d);
    Cancel(p * g + q * k, r, d);
  }

  /** The transform in closed form. */
  function RectangleTransform(w: real, h: real, t: seq<Point>): (v: seq<real>)
    requires |t| == 4 && w != 0.0 && h != 0.0 && Area(t) != 0.0
    ensures |v| == SIZE
  {
    var (g, k) := Tilts(t);
    [Rise(t[0].x, t[1].x, g) / w, Rise(t[0].x, t[3].x, k) / h, t[0].x,
     Rise(t[0].y, t[1].y, g) / w, Rise(t[0].y, t[3].y, k) / h, t[0].y,
     g / w, k / h]
  }

  function Tilts(t: seq<Point>): (real, real)
    requires |t| == 4 && Area(t) != 0.0
  {
    Cramer(t[1].x - t[2].x, t[3].x - t[2].x, t[0].x + t[2].x - t[1].x - t[3].x,
           t[1].y - t[2].y, t[3].y - t[2].y, t[0].y + t[2].y - t[1].y - t[3].y)
  }

  lemma TiltsSettled(t: seq<Point>, g: real, k: real)
    requires |t| == 4 && Area(t) != 0.0
    ensures
      && Closes(t[1].x - t[2].x, t[3].x - t[2].x, t[0].x + t[2].x - t[1].x - t[3].x, g, k)
      && Closes(t[1].y - t[2].y, t[3].y - t[2].y, t[0].y + t[2].y - t[1].y - t[3].y, g, k)
      <==> (g, k) == Tilts(t)
  {
    hide Closes, Cramer, Determinant;
    CramerIff(t[1].x - t[2].x, t[3].x - t[2].x, t[0].x + t[2].x - t[1].x - t[3].x,
              t[1].y - t[2].y, t[3].y - t[2].y, t[0].y + t[2].y - t[1].y - t[3].y, g, k);
  }

  /** A slope over an edge, divided by the edge. */
  lemma ProductQuotient(p: real, x: real, w: real)
    requires w != 0.0
    ensures Product(p, x, w) <==> x == p / w
  {
    DivideBack(p, x, w);
  }

  /** Solving the equations of a rectangle is being that transform. */
  lemma RectangleSolution(w: real, h: real, t: seq<Point>, v: seq<real>, a: real, b: real, p: real, q: real, g: real, k: real)
    requires |t| == 4 && Area(t) != 0.0 && |v| == SIZE && Over(v, w, h, a, b, p, q, g, k)
    ensures Solves(Equations(Rectangle(w, h), t, 4), v) <==>
      && (g, k) == Tilts(t) && v[2] == t[0].x && v[5] == t[0].y
      && a == Rise(t[0].x, t[1].x, g) && b == Rise(t[0].x, t[3].x, k)
      && p == Rise(t[0].y, t[1].y, g) && q == Rise(t[0].y, t[3].y, k)
  {
    hide Solves, Equations, Rectangle, Over, Side, Closes, Tilts, Area, Rise;
    RectangleSays(w, h, t, v, a, b, p, q, g, k);
    SideSays(a, b, v[2], g, k, t[0].x, t[1].x, t[2].x, t[3].x);
    SideSays(p, q, v[5], g, k, t[0].y, t[1].y, t[2].y, t[3].y);
    TiltsSettled(t, g, k);
  }

  lemma OverQuotients(v: seq<real>, w: real, h: real, a: real, b: real, p: real, q: real, g: real, k: real)
    requires |v| == SIZE && w != 0.0 && h != 0.0
    ensures Over(v, w, h, a, b, p, q, g, k)
      <==> v[0] == a / w && v[1] == b / h && v[3] == p / w && v[4] == q / h && v[6] == g / w && v[7] == k / h
  {
    hide Product;
    ProductQuotient(a, v[0], w);
    ProductQuotient(b, v[1], h);
    ProductQuotient(p, v[3], w);
    ProductQuotient(q, v[4], h);
    ProductQuotient(g, v[6], w);
    ProductQuotient(k, v[7], h);
  }

  lemma TransformSolves(w: real, h: real, t: seq<Point>)
    requires |t| == 4 && w != 0.0 && h != 0.0 && Area(t) != 0.0
    ensures Solves(Equations(Rectangle(w, h), t, 4), RectangleTransform(w, h, t))
  {
    hide Solves, Equations, Rectangle, Over, Rise, Tilts, Area;
    var v := RectangleTransform(w, h, t);
    var (g, k) := Tilts(t);
    var a, b := Rise(t[0].x, t[1].x, g), Rise(t[0].x, t[3].x, k);
    var p, q := Rise(t[0].y, t[1].y, g), Rise(t[0].y, t[3].y, k);
    OverQuotients(v, w, h, a, b, p, q, g, k);
    RectangleSolution(w, h, t, v, a, b, p, q, g, k);
  }

  lemma SolutionIsTransform(w: real, h: real, t: seq<Point>, v: seq<real>)
    requires |t| == 4 && w != 0.0 && h != 0.0 && Area(t) != 0.0 && |v| == SIZE
    requires Solves(Equations(Rectangle(w, h), t, 4), v)
    ensures v == RectangleTransform(w, h, t)
  {
    hide Solves, Equations, Rectangle, Rise, Tilts, Area;
    var a, b, p, q, g, k := v[0] * w, v[1] * h, v[3] * w, v[4] * h, v[6] * w, v[7] * h;
    assert Over(v, w, h, a, b, p, q, g, k);
    hide Over;
    OverQuotients(v, w, h, a, b, p, q, g, k);
    RectangleSolution(w, h, t, v, a, b, p, q, g, k);
  }

  /** With the last three corners on one line, tilts that no side notices. */
  function FreeTilts(px: real, qx: real, py: real, qy: real): (gk: (real, real))
    requires Determinant(px, qx, py, qy) == 0.0
    ensures gk != (0.0, 0.0) && Closes(px, qx, 0.0, gk.0, gk.1) && Closes(py, qy, 0.0, gk.0, gk.1)
  {
    if px != 0.0 || qx != 0.0 then (qx, -px)
    else if py != 0.0 || qy != 0.0 then (qy, -py)
    else (1.0, 0.0)
  }

  /** Shifts m and n along the axes move numerator and denominator alike. */
  predicate Balanced(t1: real, t3: real, d: real, m: real, n: real) {
    t1 * m + t3 * n == d * (m + n)
  }

  lemma BalancedCorners(t0: real, t1: real, t2: real, t3: real, g: real, k: real)
    requires Closes(t1 - t2, t3 - t2, 0.0, g, k)
    ensures Balanced(t1, t3, t0, 0.0, 0.0) && Balanced(t1, t3, t1, g, 0.0)
    ensures Balanced(t1, t3, t2, g, k) && Balanced(t1, t3, t3, 0.0, k)
  {
    assert (t1 - t2) * g == t1 * g - t2 * g && (t3 - t2) * k == t3 * k - t2 * k;
    assert t2 * (g + k) == t2 * g + t2 * k;
  }

  lemma TiltedCorner(s: Point, d: Point, v: seq<real>, t1: Point, t3: Point, a: real, b: real, m: real, n: real)
    requires |v| == SIZE && Pair(s, d, v) && Product(m, a, s.x) && Product(n, b, s.y)
    requires Balanced(t1.x, t3.x, d.x, m, n) && Balanced(t1.y, t3.y, d.y, m, n)
    ensures Pair(s, d, Tilted(v, t1, t3, a, b))
  {
    hide Pair, Tilted;
    TiltedPair(s, d, v, t1, t3, a, b, m, n);
  }

  lemma NoProduct(a: real)
    ensures Product(0.0, a, 0.0)
  {
  }

  lemma TiltKeepsRectangle(w: real, h: real, t: seq<Point>, v: seq<real>, a: real, b: real, g: real, k: real)
    requires |t| == 4 && |v| == SIZE && AllPairs(Rectangle(w, h), t, v) && Product(g, a, w) && Product(k, b, h)
    requires Closes(t[1].x - t[2].x, t[3].x - t[2].x, 0.0, g, k)
    requires Closes(t[1].y - t[2].y, t[3].y - t[2].y, 0.0, g, k)
    ensures AllPairs(Rectangle(w, h), t, Tilted(v, t[1], t[3], a, b))
  {
    hide Pair, AllPairs, Closes, Balanced, Product, Tilted;
    var s := Rectangle(w, h);
    FourPairs(s, t, v);
    NoProduct(a);
    NoProduct(b);
    BalancedCorners(t[0].x, t[1].x, t[2].x, t[3].x, g, k);
    BalancedCorners(t[0].y, t[1].y, t[2].y, t[3].y, g, k);
    TiltedCorner(s[0], t[0], v, t[1], t[3], a, b, 0.0, 0.0);
    TiltedCorner(s[1], t[1], v, t[1], t[3], a, b, g, 0.0);
    TiltedCorner(s[2], t[2], v, t[1], t[3], a, b, g, k);
    TiltedCorner(s[3], t[3], v, t[1], t[3], a, b, 0.0, k);
    FourPairs(s, t, Tilted(v, t[1], t[3], a, b));
  }

  lemma CornersOnLineOpen(w: real, h: real, t: seq<Point>, v: seq<real>)
    requires |t| == 4 && w != 0.0 && h != 0.0 && Area(t) == 0.0
    ensures !Unique(Equations(Rectangle(w, h), t, 4), v)
  {
    hide Solves, Equations, Rectangle, Closes, Determinant, AllPairs, Product, Tilted;
    if |v| == SIZE && Solves(Equations(Rectangle(w, h), t, 4), v) {
      var (g, k) := FreeTilts(t[1].x - t[2].x, t[3].x - t[2].x, t[1].y - t[2].y, t[3].y - t[2].y);
      var a := Factor(g, w);
      var b := Factor(k, h);
      PairsSay(Rectangle(w, h), t, v);
      TiltKeepsRectangle(w, h, t, v, a, b, g, k);
      PairsSay(Rectangle(w, h), t, Tilted(v, t[1], t[3], a, b));
      TiltShows(v, t[1], t[3], a, b);
    }
  }

  lemma Factor(p: real, w: real) returns (x: real)
    requires w != 0.0
    ensures Product(p, x, w) && (p != 0.0 ==> x != 0.0)
  {
    x := p / w;
    QuotientTimes(p, w);
  }

  lemma TiltShows(v: seq<real>, t1: Point, t3: Point, a: real, b: real)
    requires |v| == SIZE && (a != 0.0 || b != 0.0)
    ensures Tilted(v, t1, t3, a, b) != v
  {
    var u := Tilted(v, t1, t3, a, b);
    assert u[6] == v[6] + a && u[7] == v[7] + b;
  }

  /** The equations of a rectangle have exactly one solution when it has width and height and the last
      three corners are not on one line: the closed form, which the elimination returns unless it takes a
      pivot for zero.  All other rectangles are refused. */
  lemma RectangleSettled(w: real, h: real, t: seq<Point>)
    requires |t| == 4
    ensures w != 0.0 && h != 0.0 && Area(t) != 0.0 ==> Unique(Equations(Rectangle(w, h), t, 4), RectangleTransform(w, h, t))
    ensures w == 0.0 || h == 0.0 || Area(t) == 0.0 ==> RefusedPairs(Rectangle(w, h), t)
  {
    hide Equations, Solves, Rectangle, Area, RefusedPairs, RectangleTransform;
    if w == 0.0 || h == 0.0 {
      FlatRectangleRefused(w, h, t);
    } else if Area(t) == 0.0 {
      forall v: seq<real>
        ensures !Unique(Equations(Rectangle(w, h), t, 4), v)
      {
        CornersOnLineOpen(w, h, t, v);
      }
      RefusedUnlessUnique(Rectangle(w, h), t);
    } else {
      TransformSolves(w, h, t);
      forall v: seq<real> | |v| == SIZE && Solves(Equations(Rectangle(w, h), t, 4), v)
        ensures v == RectangleTransform(w, h, t)
      {
        SolutionIsTransform(w, h, t, v);
      }
    }
  }
}
