/** Pixels of an image in reading order, their four neighbours, and what is connected to what. */
module Pixels {

  function Col(i: nat, w: nat): nat
    requires 0 < w
  {
    i % w
  }

  function Row(i: nat, w: nat): nat
    requires 0 < w
  {
    i / w
  }

  lemma Coordinates(x: nat, y: nat, w: nat)
    requires x < w
    ensures Col(y * w + x, w) == x && Row(y * w + x, w) == y
  {
    var i := y * w + x;
    assert i == w * (i / w) + i % w;
    UniqueQuotient(w, y, x, i / w, i % w);
  }

  lemma UniqueQuotient(w: nat, q: int, r: nat, p: int, s: nat)
    requires r < w && s < w && q * w + r == p * w + s
    ensures q == p && r == s
  {
    assert (q - p) * w == s - r;
    SmallMultiple(q - p, w);
  }

  lemma SmallMultiple(d: int, w: int)
    requires -w < d * w < w
    ensures d == 0
  {
    if 1 <= d {
      AtLeastOnce(d, w);
    } else if d <= -1 {
      AtLeastOnce(-d, w);
    }
  }

  lemma AtLeastOnce(d: int, w: int)
    requires 1 <= d && 0 <= w
    ensures w <= d * w && -(d * w) == (-d) * w
  {
    assert 0 <= (d - 1) * w;
    assert (d - 1) * w == d * w - w;
  }

  lemma Index(i: nat, w: nat)
    requires 0 < w
    ensures i == Row(i, w) * w + Col(i, w) && Col(i, w) < w
  {
  }

  lemma InImage(x: nat, y: nat, w: nat, h: nat)
    requires x < w && y < h
    ensures y * w + x < w * h
  {
    assert y * w <= (h - 1) * w;
    assert (h - 1) * w == w * h - w;
  }

  lemma TimesMonotone(a: nat, b: nat, w: nat)
    ensures a <= b ==> a * w <= b * w
  {
    if a <= b {
      assert 0 <= (b - a) * w;
      assert (b - a) * w == b * w - a * w;
    }
  }

  lemma RowInImage(i: nat, w: nat, h: nat)
    requires 0 < w && i < w * h
    ensures Row(i, w) < h
  {
    Index(i, w);
    TimesMonotone(h, Row(i, w), w);
  }

  /** A pixel given by its column and row. */
  lemma PixelAt(i: int, x: nat, y: nat, w: nat, h: nat)
    requires x < w && y < h && i == y * w + x
    ensures 0 <= i < w * h && Col(i, w) == x && Row(i, w) == y
  {
    Coordinates(x, y, w);
    InImage(x, y, w, h);
  }

  lemma NextRow(y: int, w: int)
    ensures (y + 1) * w == y * w + w && (y - 1) * w == y * w - w
  {
  }

  // ---- Neighbours ----------------------------------------------------------------------

  /** Left, right, above and below, as far as they exist. */
  function Neighbours(i: nat, w: nat, h: nat): seq<int>
    requires 0 < w
  {
    (if 0 < Col(i, w) then [i - 1] else [])
    + (if Col(i, w) + 1 < w then [i + 1] else [])
    + (if 0 < Row(i, w) then [i - w] else [])
    + (if Row(i, w) + 1 < h then [i + w] else [])
  }

  predicate NextTo(i: nat, j: nat, w: nat, h: nat)
    requires 0 < w
  {
    j as int in Neighbours(i, w, h)
  }

  /** One step away in one direction. */
  predicate OneStep(i: nat, j: nat, w: nat)
    requires 0 < w
  {
    var (x, y, u, v) := (Col(i, w), Row(i, w), Col(j, w), Row(j, w));
    (v == y && (u == x + 1 || u + 1 == x)) || (u == x && (v == y + 1 || v + 1 == y))
  }

  lemma NeighbourAt(i: nat, j: int, w: nat, h: nat)
    requires 0 < w && i < w * h && j in Neighbours(i, w, h)
    ensures 0 <= j < w * h && OneStep(i, j, w)
  {
    var x, y := Col(i, w), Row(i, w);
    Index(i, w);
    RowInImage(i, w, h);
    NextRow(y, w);
    hide Col, Row;
    if 0 < x && j == i - 1 {
      PixelAt(j, x - 1, y, w, h);
    } else if x + 1 < w && j == i + 1 {
      PixelAt(j, x + 1, y, w, h);
    } else if 0 < y && j == i - w {
      PixelAt(j, x, y - 1, w, h);
    } else {
      PixelAt(j, x, y + 1, w, h);
    }
  }

  /** Every pixel one step away in the image is a neighbour. */
  lemma StepIsNeighbour(i: nat, j: nat, w: nat, h: nat)
    requires 0 < w && i < w * h && j < w * h && OneStep(i, j, w)
    ensures NextTo(i, j, w, h)
  {
    Index(i, w);
    Index(j, w);
    RowInImage(j, w, h);
    hide Col, Row;
    NextRow(Row(i, w), w);
  }

  /** The neighbours of a pixel are the pixels of the image one column or one row away, and no others. */
  lemma NextToIff(i: nat, j: nat, w: nat, h: nat)
    requires 0 < w && i < w * h
    ensures NextTo(i, j, w, h) <==>
      && j < w * h
      && ((Row(j, w) == Row(i, w) && (Col(j, w) == Col(i, w) + 1 || Col(j, w) + 1 == Col(i, w)))
          || (Col(j, w) == Col(i, w) && (Row(j, w) == Row(i, w) + 1 || Row(j, w) + 1 == Row(i, w))))
  {
    hide Neighbours, Col, Row;
    if NextTo(i, j, w, h) {
      NeighbourAt(i, j, w, h);
    } else if j < w * h && OneStep(i, j, w) {
      StepIsNeighbour(i, j, w, h);
    }
  }

  lemma NextToSymmetric(i: nat, j: nat, w: nat, h: nat)
    requires 0 < w && i < w * h && NextTo(i, j, w, h)
    ensures j < w * h && NextTo(j, i, w, h)
  {
    NeighbourAt(i, j, w, h);
    hide Neighbours;
    StepIsNeighbour(j, i, w, h);
  }

  // ---- Connected pixels ----------------------------------------------------------------

  datatype Image = Image(mask: seq<bool>, w: nat, h: nat) {
    predicate Valid() {
      0 < w && |mask| == w * h
    }

    predicate Set(i: nat) {
      i < |mask| && mask[i]
    }
  }

  predicate Linked(m: Image, p: seq<nat>, k: nat)
    requires m.Valid() && 0 < k < |p|
  {
    NextTo(p[k - 1], p[k], m.w, m.h)
  }

  /** Set pixels, each next to the one before. */
  ghost predicate IsPath(m: Image, p: seq<nat>)
    requires m.Valid()
  {
    0 < |p| && (forall k | 0 <= k < |p| :: m.Set(p[k])) && (forall k | 0 < k < |p| :: Linked(m, p, k))
  }

  ghost predicate PathFrom(m: Image, p: seq<nat>, i: nat, j: nat)
    requires m.Valid()
  {
    IsPath(m, p) && p[0] == i && p[|p| - 1] == j
  }

  ghost predicate Reaches(m: Image, i: nat, j: nat)
    requires m.Valid()
  {
    exists p: seq<nat> :: PathFrom(m, p, i, j)
  }

  /** The four-connected class of a pixel. */
  ghost function ClassOf(m: Image, i: nat): set<nat>
    requires m.Valid()
  {
    set j: nat | j < |m.mask| && Reaches(m, i, j)
  }

  lemma ReachesSelf(m: Image, i: nat)
    requires m.Valid() && m.Set(i)
    ensures Reaches(m, i, i)
  {
    assert PathFrom(m, [i], i, i);
  }

  lemma ReachesNext(m: Image, i: nat, j: nat, k: nat)
    requires m.Valid() && Reaches(m, i, j) && m.Set(k) && NextTo(j, k, m.w, m.h)
    ensures Reaches(m, i, k)
  {
    var p: seq<nat> :| PathFrom(m, p, i, j);
    var q := p + [k];
    forall n | 0 < n < |q|
      ensures Linked(m, q, n)
    {
      assert n < |p| ==> Linked(m, p, n);
    }
    assert PathFrom(m, q, i, k);
  }

  lemma {:induction false} PathJoins(m: Image, p: seq<nat>, i: nat, n: nat)
    requires m.Valid() && IsPath(m, p) && n < |p| && Reaches(m, i, p[0])
    ensures Reaches(m, i, p[n])
  {
    if 0 < n {
      PathJoins(m, p, i, n - 1);
      assert Linked(m, p, n);
      ReachesNext(m, i, p[n - 1], p[n]);
    }
  }

  lemma ReachesTransitive(m: Image, i: nat, j: nat, k: nat)
    requires m.Valid() && Reaches(m, i, j) && Reaches(m, j, k)
    ensures Reaches(m, i, k)
  {
    var p: seq<nat> :| PathFrom(m, p, j, k);
    PathJoins(m, p, i, |p| - 1);
  }

  lemma {:induction false} PathReturns(m: Image, p: seq<nat>, n: nat)
    requires m.Valid() && IsPath(m, p) && n < |p|
    ensures Reaches(m, p[n], p[0])
  {
    if n == 0 {
      ReachesSelf(m, p[0]);
    } else {
      PathReturns(m, p, n - 1);
      assert Linked(m, p, n);
      NextToSymmetric(p[n - 1], p[n], m.w, m.h);
      ReachesSelf(m, p[n]);
      ReachesNext(m, p[n], p[n], p[n - 1]);
      ReachesTransitive(m, p[n], p[n - 1], p[0]);
    }
  }

  lemma ReachesSymmetric(m: Image, i: nat, j: nat)
    requires m.Valid() && Reaches(m, i, j)
    ensures Reaches(m, j, i)
  {
    var p: seq<nat> :| PathFrom(m, p, i, j);
    PathReturns(m, p, |p| - 1);
  }

  lemma SameClass(m: Image, i: nat, j: nat)
    requires m.Valid() && Reaches(m, i, j)
    ensures ClassOf(m, i) == ClassOf(m, j)
  {
    ReachesSymmetric(m, i, j);
    forall k: nat | k < |m.mask|
      ensures Reaches(m, i, k) <==> Reaches(m, j, k)
    {
      if Reaches(m, i, k) {
        ReachesTransitive(m, j, i, k);
      }
      if Reaches(m, j, k) {
        ReachesTransitive(m, i, j, k);
      }
    }
  }

  /** Nothing set next to one of these pixels lies outside them. */
  predicate ClosedAt(m: Image, s: set<nat>, i: nat)
    requires m.Valid()
  {
    forall j: nat | j < |m.mask| && m.Set(j) && NextTo(i, j, m.w, m.h) :: j in s
  }

  ghost predicate ClosedUnder(m: Image, s: set<nat>)
    requires m.Valid()
  {
    forall i | i in s :: ClosedAt(m, s, i)
  }

  lemma {:induction false} PathStays(m: Image, s: set<nat>, p: seq<nat>, n: nat)
    requires m.Valid() && ClosedUnder(m, s) && IsPath(m, p) && p[0] in s && n < |p|
    ensures p[n] in s
  {
    if 0 < n {
      PathStays(m, s, p, n - 1);
      assert Linked(m, p, n) && ClosedAt(m, s, p[n - 1]);
    }
  }

  /** Pixels reached from one of them, and closed, are its whole class. */
  lemma ClosedIsClass(m: Image, s: set<nat>, i: nat)
    requires m.Valid() && i in s && ClosedUnder(m, s)
    requires forall j | j in s :: j < |m.mask| && Reaches(m, i, j)
    ensures s == ClassOf(m, i)
  {
    forall j | j in ClassOf(m, i)
      ensures j in s
    {
      var p: seq<nat> :| PathFrom(m, p, i, j);
      PathStays(m, s, p, |p| - 1);
    }
  }
}
