/**
 Finding the object in a photo (apps/web/src/purchase-wizard/auto-detection.ts): closing the
 foreground mask, labelling its connected components breadth-first, choosing one, and the crop
 around it.  The foreground mask and the score of a component are given.
 */
module Detection {
  import opened Results
  import opened Pixels

  // ---- Closing the mask ----------------------------------------------------------------

  predicate Interior(i: nat, w: nat, h: nat)
    requires 0 < w
  {
    1 <= Col(i, w) && Col(i, w) + 1 < w && 1 <= Row(i, w) && Row(i, w) + 1 < h
  }

  /** How many of the first n of the nine pixels around i are set, row by row. */
  function NineUpTo(mask: seq<bool>, i: int, w: nat, n: nat): nat
    requires n <= 9
  {
    if n == 0 then 0
    else
      var j := i + ((n - 1) / 3 - 1) * w + ((n - 1) % 3 - 1);
      NineUpTo(mask, i, w, n - 1) + if 0 <= j < |mask| && mask[j] then 1 else 0
  }

  predicate SpreadAt(m: Image, need: nat, i: nat)
    requires m.Valid()
  {
    Interior(i, m.w, m.h) && need <= NineUpTo(m.mask, i, m.w, 9)
  }

  /** One pass: interior pixels with enough set pixels around them. */
  function Spread(m: Image, need: nat): (r: Image)
    requires m.Valid()
    ensures r.Valid() && r.w == m.w && r.h == m.h
    ensures forall i | 0 <= i < |m.mask| :: r.mask[i] == SpreadAt(m, need, i)
  {
    Image(seq(|m.mask|, i requires 0 <= i < |m.mask| => SpreadAt(m, need, i)), m.w, m.h)
  }

  /** The mask that is labelled: grown where three of nine are set, then kept where four are. */
  function Closing(m: Image): (r: Image)
    requires m.Valid()
    ensures r.Valid() && r.w == m.w && r.h == m.h
  {
    Spread(Spread(m, 3), 4)
  }

  lemma AroundInside(x: nat, y: nat, dx: nat, dy: nat, w: nat, h: nat)
    requires 1 <= x && x + 1 < w && 1 <= y && y + 1 < h && dx < 3 && dy < 3
    ensures 0 <= y * w + x + (dy - 1) * w + (dx - 1) < w * h
  {
    var i := y * w + x + (dy - 1) * w + (dx - 1);
    assert i == (y + dy - 1) * w + (x + dx - 1);
    PixelAt(i, x + dx - 1, y + dy - 1, w, h);
  }

  method CountAround(mask: array<bool>, x: nat, y: nat, w: nat, h: nat) returns (count: nat)
    requires mask.Length == w * h && 1 <= x && x + 1 < w && 1 <= y && y + 1 < h
    ensures count == NineUpTo(mask[..], y * w + x, w, 9)
  {
    var index := y * w + x;
    count := 0;
    for dy := 0 to 3
      invariant count == NineUpTo(mask[..], index, w, 3 * dy)
    {
      for dx := 0 to 3
        invariant count == NineUpTo(mask[..], index, w, 3 * dy + dx)
      {
        AroundInside(x, y, dx, dy, w, h);
        ghost var n := 3 * dy + dx + 1;
        assert (n - 1) / 3 == dy && (n - 1) % 3 == dx;
        if mask[index + (dy - 1) * w + (dx - 1)] {
          count := count + 1;
        }
      }
    }
  }

  /** Pixels that come before column x of row y, leaving out the border. */
  predicate Done(i: nat, w: nat, x: nat, y: nat)
    requires 0 < w
  {
    Row(i, w) < y || (Row(i, w) == y && Col(i, w) < x)
  }

  method SpreadMask(mask: array<bool>, w: nat, h: nat, need: nat) returns (next: array<bool>)
    requires 8 <= w && 8 <= h && mask.Length == w * h
    ensures fresh(next) && next[..] == Spread(Image(mask[..], w, h), need).mask
  {
    ghost var m := Image(mask[..], w, h);
    next := new bool[mask.Length](_ => false);
    for y := 1 to h - 1
      invariant mask[..] == m.mask
      invariant forall i | 0 <= i < next.Length :: next[i] == (SpreadAt(m, need, i) && Done(i, w, 0, y))
    {
      hide Col, Row, NineUpTo;
      for x := 1 to w - 1
        invariant mask[..] == m.mask
        invariant forall i | 0 <= i < next.Length :: next[i] == (SpreadAt(m, need, i) && Done(i, w, x, y))
      {
        var index := y * w + x;
        PixelAt(index, x, y, w, h);
        var neighboursSet := CountAround(mask, x, y, w, h);
        ghost var before := next[..];
        if neighboursSet >= need {
          next[index] := true;
        }
        forall i | 0 <= i < next.Length
          ensures next[i] == (SpreadAt(m, need, i) && Done(i, w, x + 1, y))
        {
          SamePlace(i, index, w);
        }
      }
      forall i | 0 <= i < next.Length && SpreadAt(m, need, i)
        ensures Done(i, w, w - 1, y) <==> Done(i, w, 0, y + 1)
      {
        Index(i, w);
      }
    }
    forall i | 0 <= i < next.Length && SpreadAt(m, need, i)
      ensures Done(i, w, 0, h - 1)
    {
    }
  }

  lemma SamePlace(i: nat, j: nat, w: nat)
    requires 0 < w
    ensures Col(i, w) == Col(j, w) && Row(i, w) == Row(j, w) <==> i == j
  {
    Index(i, w);
    Index(j, w);
  }

  method CloseMask(mask: array<bool>, w: nat, h: nat) returns (closed: array<bool>)
    requires 8 <= w && 8 <= h && mask.Length == w * h
    ensures fresh(closed) && closed[..] == Closing(Image(mask[..], w, h)).mask
  {
    var dilated := SpreadMask(mask, w, h, 3);
    closed := SpreadMask(dilated, w, h, 4);
  }

  // ---- Components ----------------------------------------------------------------------

  datatype Box = Box(minX: nat, minY: nat, maxX: nat, maxY: nat)

  datatype Component = Component(pixels: seq<nat>, box: Box)

  ghost function PixelSet(ps: seq<nat>): set<nat> {
    set p | p in ps
  }

  predicate Differ(ps: seq<nat>, i: nat, j: nat)
    requires i < |ps| && j < |ps|
  {
    ps[i] != ps[j]
  }

  ghost predicate Distinct(ps: seq<nat>) {
    forall i, j | 0 <= i < j < |ps| :: Differ(ps, i, j)
  }

  predicate Inside(b: Box, i: nat, w: nat)
    requires 0 < w
  {
    b.minX <= Col(i, w) <= b.maxX && b.minY <= Row(i, w) <= b.maxY
  }

  /** The box holds all pixels, and each of its sides touches one. */
  ghost predicate Tight(b: Box, ps: seq<nat>, w: nat)
    requires 0 < w
  {
    && (forall k | 0 <= k < |ps| :: Inside(b, ps[k], w))
    && (exists k | 0 <= k < |ps| :: Col(ps[k], w) == b.minX)
    && (exists k | 0 <= k < |ps| :: Col(ps[k], w) == b.maxX)
    && (exists k | 0 <= k < |ps| :: Row(ps[k], w) == b.minY)
    && (exists k | 0 <= k < |ps| :: Row(ps[k], w) == b.maxY)
  }

  function Min(a: nat, b: nat): nat { if a < b then a else b }

  function Max(a: nat, b: nat): nat { if a < b then b else a }

  function Stretched(b: Box, i: nat, w: nat): Box
    requires 0 < w
  {
    Box(Min(b.minX, Col(i, w)), Min(b.minY, Row(i, w)), Max(b.maxX, Col(i, w)), Max(b.maxY, Row(i, w)))
  }

  /** Before its first pixel a box is turned inside out. */
  ghost predicate BoxSoFar(b: Box, ps: seq<nat>, w: nat, h: nat)
    requires 0 < w
  {
    if ps == [] then b == Box(w, h, 0, 0) else Tight(b, ps, w)
  }

  lemma StretchKeepsTight(b: Box, ps: seq<nat>, i: nat, w: nat, h: nat)
    requires 0 < w && BoxSoFar(b, ps, w, h) && Col(i, w) < w && Row(i, w) < h
    ensures Tight(Stretched(b, i, w), ps + [i], w)
  {
    hide Col, Row;
    var next, qs := Stretched(b, i, w), ps + [i];
    assert qs[|ps|] == i;
    forall k | 0 <= k < |qs|
      ensures Inside(next, qs[k], w)
    {
      assert k < |ps| ==> Inside(b, ps[k], w);
    }
    if ps != [] {
      var k :| 0 <= k < |ps| && Col(ps[k], w) == b.minX;
      assert Col(qs[k], w) == b.minX;
      k :| 0 <= k < |ps| && Col(ps[k], w) == b.maxX;
      assert Col(qs[k], w) == b.maxX;
      k :| 0 <= k < |ps| && Row(ps[k], w) == b.minY;
      assert Row(qs[k], w) == b.minY;
      k :| 0 <= k < |ps| && Row(ps[k], w) == b.maxY;
      assert Row(qs[k], w) == b.maxY;
    }
  }

  lemma {:induction false} DistinctBounded(ps: seq<nat>, n: nat)
    requires Distinct(ps) && forall k | 0 <= k < |ps| :: ps[k] < n
    ensures |ps| <= n
  {
    CountDistinct(ps);
    SetBounded(PixelSet(ps), n);
  }

  lemma {:induction false} CountDistinct(ps: seq<nat>)
    requires Distinct(ps)
    ensures |PixelSet(ps)| == |ps|
  {
    if ps != [] {
      var front, last := ps[..|ps| - 1], ps[|ps| - 1];
      forall i, j | 0 <= i < j < |front|
        ensures Differ(front, i, j)
      {
        assert Differ(ps, i, j);
      }
      CountDistinct(front);
      forall i | 0 <= i < |front|
        ensures front[i] != last
      {
        assert Differ(ps, i, |ps| - 1);
      }
      assert ps == front + [last];
      assert PixelSet(ps) == PixelSet(front) + {last};
      assert last !in PixelSet(front);
    }
  }

  lemma {:induction false} SetBounded(s: set<nat>, n: nat)
    requires forall x | x in s :: x < n
    ensures |s| <= n
  {
    if n == 0 {
      assert s == {};
    } else {
      SetBounded(s - {n - 1}, n - 1);
    }
  }

  // ---- Filling one component -----------------------------------------------------------

  /** What the search knows: the queue holds distinct set pixels reached from the start, all of them
      and nothing else newly visited; the pixels before the cursor have no unvisited set neighbour. */
  ghost predicate Searching(m: Image, start: nat, was: set<nat>, visited: seq<bool>, queue: seq<nat>)
    requires m.Valid()
  {
    && |visited| == |m.mask| && 0 < |queue| && queue[0] == start && Distinct(queue)
    && (forall k | 0 <= k < |queue| :: Found(m, start, was, queue[k]))
    && (forall i | 0 <= i < |visited| :: visited[i] <==> i in was || i in queue)
  }

  ghost predicate Found(m: Image, start: nat, was: set<nat>, p: nat)
    requires m.Valid()
  {
    m.Set(p) && p !in was && Reaches(m, start, p)
  }

  predicate Explored(m: Image, visited: seq<bool>, p: nat)
    requires m.Valid() && |visited| == |m.mask|
  {
    forall j: nat | j < |m.mask| && m.Set(j) && NextTo(p, j, m.w, m.h) :: visited[j]
  }

  lemma PushKeeps(m: Image, start: nat, was: set<nat>, visited: seq<bool>, queue: seq<nat>, p: nat, j: nat)
    requires m.Valid() && Searching(m, start, was, visited, queue)
    requires p in queue && NextTo(p, j, m.w, m.h) && m.Set(j) && !visited[j]
    ensures Searching(m, start, was, visited[j := true], queue + [j])
  {
    hide NextTo, Reaches;
    var next := queue + [j];
    var k :| 0 <= k < |queue| && queue[k] == p;
    assert Found(m, start, was, queue[k]);
    ReachesNext(m, start, p, j);
    forall a, b | 0 <= a < b < |next|
      ensures Differ(next, a, b)
    {
      assert b < |queue| ==> Differ(queue, a, b);
      assert queue[a] in queue;
    }
    forall a | 0 <= a < |next|
      ensures Found(m, start, was, next[a])
    {
      assert a < |queue| ==> Found(m, start, was, queue[a]);
    }
  }

  lemma ExploredStays(m: Image, visited: seq<bool>, next: seq<bool>, p: nat)
    requires m.Valid() && |visited| == |next| == |m.mask| && Explored(m, visited, p)
    requires forall i | 0 <= i < |visited| && visited[i] :: next[i]
    ensures Explored(m, next, p)
  {
  }

  /** Visits the unvisited set neighbours of one pixel. */
  method Expand(ghost m: Image, closed: array<bool>, visited: array<bool>, queue: seq<nat>, current: nat, w: nat, h: nat,
                ghost start: nat, ghost was: set<nat>) returns (grown: seq<nat>)
    requires m == Image(closed[..], w, h) && m.Valid() && closed != visited && visited.Length == closed.Length
    requires Searching(m, start, was, visited[..], queue) && current in queue
    modifies visited
    ensures queue <= grown && Searching(m, start, was, visited[..], grown)
    ensures Explored(m, visited[..], current)
    ensures forall i | 0 <= i < visited.Length && old(visited[i]) :: visited[i]
  {
    hide Neighbours, Reaches;
    grown := queue;
    CurrentInside(m, start, was, visited[..], queue, current);
    var candidates := Neighbours(current, w, h);
    for k := 0 to |candidates|
      invariant queue <= grown && Searching(m, start, was, visited[..], grown)
      invariant forall i | 0 <= i < visited.Length && old(visited[i]) :: visited[i]
      invariant forall n | 0 <= n < k :: Visited(m, visited[..], candidates[n])
    {
      var neighbour := candidates[k];
      assert neighbour in candidates;
      NeighbourAt(current, neighbour, w, h);
      if !closed[neighbour] || visited[neighbour] {
        continue;
      }
      assert NextTo(current, neighbour, w, h);
      assert current in grown;
      PushKeeps(m, start, was, visited[..], grown, current, neighbour);
      ghost var before := visited[..];
      visited[neighbour] := true;
      assert visited[..] == before[neighbour := true];
      grown := grown + [neighbour];
    }
    forall j: nat | j < |m.mask| && m.Set(j) && NextTo(current, j, w, h)
      ensures visited[..][j]
    {
      var n :| 0 <= n < |candidates| && candidates[n] == j;
      assert Visited(m, visited[..], candidates[n]);
    }
  }

  predicate Visited(m: Image, visited: seq<bool>, j: int)
    requires |visited| == |m.mask|
  {
    0 <= j < |m.mask| && m.mask[j] ==> visited[j]
  }

  lemma CurrentInside(m: Image, start: nat, was: set<nat>, visited: seq<bool>, queue: seq<nat>, p: nat)
    requires m.Valid() && Searching(m, start, was, visited, queue) && p in queue
    ensures p < m.w * m.h && m.Set(p)
  {
    var k :| 0 <= k < |queue| && queue[k] == p;
    assert Found(m, start, was, queue[k]);
  }

  /** When every pixel of the queue is explored, the queue is the whole class. */
  lemma SearchEnds(m: Image, start: nat, was: set<nat>, visited: seq<bool>, queue: seq<nat>)
    requires m.Valid() && Searching(m, start, was, visited, queue) && ClosedUnder(m, was)
    requires forall k | 0 <= k < |queue| :: Explored(m, visited, queue[k])
    ensures PixelSet(queue) == ClassOf(m, start) && ClosedUnder(m, was + PixelSet(queue))
  {
    hide Reaches;
    forall i | i in PixelSet(queue)
      ensures ClosedAt(m, PixelSet(queue), i) && i < |m.mask| && Reaches(m, start, i)
    {
      QueueClosedAt(m, start, was, visited, queue, i);
    }
    ClosedIsClass(m, PixelSet(queue), start);
    forall i | i in was + PixelSet(queue)
      ensures ClosedAt(m, was + PixelSet(queue), i)
    {
      assert i in was ==> ClosedAt(m, was, i);
      assert i in PixelSet(queue) ==> ClosedAt(m, PixelSet(queue), i);
    }
  }

  /** A set neighbour of a queued pixel is in the queue: had it been visited before, so would the
      queued pixel. */
  lemma QueueClosedAt(m: Image, start: nat, was: set<nat>, visited: seq<bool>, queue: seq<nat>, i: nat)
    requires m.Valid() && Searching(m, start, was, visited, queue) && ClosedUnder(m, was) && i in queue
    requires forall k | 0 <= k < |queue| :: Explored(m, visited, queue[k])
    ensures ClosedAt(m, PixelSet(queue), i) && i < |m.mask| && Reaches(m, start, i)
  {
    hide Reaches, NextTo;
    var k :| 0 <= k < |queue| && queue[k] == i;
    assert Found(m, start, was, queue[k]) && Explored(m, visited, queue[k]);
    forall j: nat | j < |m.mask| && m.Set(j) && NextTo(i, j, m.w, m.h)
      ensures j in queue
    {
      NextToSymmetric(i, j, m.w, m.h);
      assert j in was ==> ClosedAt(m, was, j);
    }
  }

  ghost function Marked(visited: seq<bool>): set<nat> {
    set i: nat | i < |visited| && visited[i]
  }

  /** One whole component, from a set pixel nobody has visited. */
  method Fill(ghost m: Image, closed: array<bool>, visited: array<bool>, start: nat, w: nat, h: nat) returns (c: Component)
    requires m == Image(closed[..], w, h) && m.Valid() && closed != visited && visited.Length == closed.Length
    requires start < closed.Length && closed[start] && !visited[start] && ClosedUnder(m, Marked(visited[..]))
    modifies visited
    ensures Distinct(c.pixels) && PixelSet(c.pixels) == ClassOf(m, start) && Tight(c.box, c.pixels, w)
    ensures Marked(visited[..]) == old(Marked(visited[..])) + ClassOf(m, start)
    ensures ClosedUnder(m, Marked(visited[..])) && ClassOf(m, start) !! old(Marked(visited[..]))
  {
    hide Reaches, Neighbours, NextTo, Tight;
    ghost var was := Marked(visited[..]);
    var queue := [start];
    ReachesSelf(m, start);
    visited[start] := true;
    assert Searching(m, start, was, visited[..], queue);
    var pixels: seq<nat> := [];
    var box := Box(w, h, 0, 0);
    var cursor := 0;
    while cursor < |queue|
      invariant cursor <= |queue| && pixels == queue[..cursor]
      invariant Searching(m, start, was, visited[..], queue)
      invariant forall k | 0 <= k < cursor :: Explored(m, visited[..], queue[k])
      invariant BoxSoFar(box, pixels, w, h)
      decreases closed.Length - cursor
    {
      QueueBounded(m, start, was, visited[..], queue);
      var current := queue[cursor];
      CurrentInside(m, start, was, visited[..], queue, current);
      Index(current, w);
      RowInImage(current, w, h);
      StretchKeepsTight(box, pixels, current, w, h);
      pixels := pixels + [current];
      box := Stretched(box, current, w);
      ghost var before, length := visited[..], |queue|;
      queue := Expand(m, closed, visited, queue, current, w, h, start, was);
      forall k | 0 <= k < cursor
        ensures Explored(m, visited[..], queue[k])
      {
        ExploredStays(m, before, visited[..], queue[k]);
      }
      cursor := cursor + 1;
      assert queue[..cursor] == pixels;
    }
    assert pixels == queue;
    SearchEnds(m, start, was, visited[..], queue);
    assert Marked(visited[..]) == was + PixelSet(queue);
    forall p | p in PixelSet(queue)
      ensures p !in was
    {
      var k :| 0 <= k < |queue| && queue[k] == p;
      assert Found(m, start, was, queue[k]);
    }
    c := Component(pixels, box);
  }

  lemma QueueBounded(m: Image, start: nat, was: set<nat>, visited: seq<bool>, queue: seq<nat>)
    requires m.Valid() && Searching(m, start, was, visited, queue)
    ensures |queue| <= |m.mask|
  {
    forall k | 0 <= k < |queue|
      ensures queue[k] < |m.mask|
    {
      assert Found(m, start, was, queue[k]);
    }
    DistinctBounded(queue, |m.mask|);
  }

  // ---- All components ------------------------------------------------------------------

  /** A whole class of the mask, listed once each, large enough, in its tight box. */
  ghost predicate Labelled(m: Image, c: Component, area: nat)
    requires m.Valid()
  {
    && Distinct(c.pixels) && Tight(c.box, c.pixels, m.w) && area <= |c.pixels|
    && exists root: nat | root < |m.mask| :: m.Set(root) && PixelSet(c.pixels) == ClassOf(m, root)
  }

  ghost predicate Apart(cs: seq<Component>, i: nat, j: nat)
    requires i < |cs| && j < |cs|
  {
    PixelSet(cs[i].pixels) !! PixelSet(cs[j].pixels)
  }

  predicate Kept(cs: seq<Component>, p: nat) {
    exists k | 0 <= k < |cs| :: p in cs[k].pixels
  }

  ghost predicate TooSmall(m: Image, p: nat, area: nat)
    requires m.Valid()
  {
    |ClassOf(m, p)| < area
  }

  /** The components: whole classes, pairwise disjoint. */
  ghost predicate Components(m: Image, cs: seq<Component>, area: nat)
    requires m.Valid()
  {
    && (forall k | 0 <= k < |cs| :: Labelled(m, cs[k], area))
    && (forall i, j | 0 <= i < j < |cs| :: Apart(cs, i, j))
  }

  /** No set pixel of the seen ones lacks a component unless its class is too small. */
  ghost predicate Accounted(m: Image, cs: seq<Component>, area: nat, seen: set<nat>)
    requires m.Valid()
  {
    && (forall p | p in seen :: m.Set(p) && (Kept(cs, p) || TooSmall(m, p, area)))
    && (forall k | 0 <= k < |cs| :: PixelSet(cs[k].pixels) <= seen)
  }

  lemma ClassIsSet(m: Image, i: nat, j: nat)
    requires m.Valid() && j in ClassOf(m, i)
    ensures m.Set(j)
  {
    var p: seq<nat> :| PathFrom(m, p, i, j);
  }

  lemma KeptStays(cs: seq<Component>, c: Component, p: nat)
    requires Kept(cs, p)
    ensures Kept(cs + [c], p)
  {
    var k :| 0 <= k < |cs| && p in cs[k].pixels;
    assert (cs + [c])[k] == cs[k];
  }

  /** A large enough new class joins the components. */
  lemma ComponentJoins(m: Image, cs: seq<Component>, c: Component, area: nat, seen: set<nat>, root: nat)
    requires m.Valid() && Components(m, cs, area) && Accounted(m, cs, area, seen)
    requires m.Set(root) && Distinct(c.pixels) && Tight(c.box, c.pixels, m.w) && area <= |c.pixels|
    requires PixelSet(c.pixels) == ClassOf(m, root) && PixelSet(c.pixels) !! seen
    ensures Components(m, cs + [c], area) && Accounted(m, cs + [c], area, seen + ClassOf(m, root))
  {
    hide ClassOf, Tight, Distinct;
    var next := cs + [c];
    assert Labelled(m, c, area);
    forall k | 0 <= k < |next|
      ensures Labelled(m, next[k], area) && PixelSet(next[k].pixels) <= seen + ClassOf(m, root)
    {
      assert k < |cs| ==> Labelled(m, cs[k], area) && PixelSet(cs[k].pixels) <= seen;
    }
    forall i, j | 0 <= i < j < |next|
      ensures Apart(next, i, j)
    {
      assert j < |cs| ==> Apart(cs, i, j);
      assert PixelSet(cs[i].pixels) <= seen;
    }
    forall p | p in seen + ClassOf(m, root)
      ensures m.Set(p) && (Kept(next, p) || TooSmall(m, p, area))
    {
      if p in seen {
        assert m.Set(p) && (Kept(cs, p) || TooSmall(m, p, area));
        if Kept(cs, p) {
          KeptStays(cs, c, p);
        }
      } else {
        ClassIsSet(m, root, p);
        assert p in next[|cs|].pixels;
      }
    }
  }

  /** A class that is too small is passed over. */
  lemma ComponentSkipped(m: Image, cs: seq<Component>, c: Component, area: nat, seen: set<nat>, root: nat)
    requires m.Valid() && Accounted(m, cs, area, seen)
    requires Distinct(c.pixels) && PixelSet(c.pixels) == ClassOf(m, root) && |c.pixels| < area
    ensures Accounted(m, cs, area, seen + ClassOf(m, root))
  {
    CountDistinct(c.pixels);
    forall p | p in ClassOf(m, root)
      ensures m.Set(p) && TooSmall(m, p, area)
    {
      ClassIsSet(m, root, p);
      SameClass(m, root, p);
    }
  }

  /** Labels every class of the mask that is large enough. */
  method LabelComponents(closed: array<bool>, w: nat, h: nat, area: nat) returns (components: seq<Component>)
    requires Image(closed[..], w, h).Valid()
    ensures Components(Image(closed[..], w, h), components, area)
    ensures forall p: nat | p < closed.Length && closed[p] && area <= |ClassOf(Image(closed[..], w, h), p)| :: Kept(components, p)
  {
    hide ClassOf, ClosedUnder, Labelled, Apart;
    ghost var m := Image(closed[..], w, h);
    var visited := new bool[closed.Length](_ => false);
    components := [];
    assert Marked(visited[..]) == {};
    NothingClosed(m);
    for start := 0 to closed.Length
      invariant m.mask == closed[..] && ClosedUnder(m, Marked(visited[..]))
      invariant forall i | 0 <= i < start && closed[i] :: visited[i]
      invariant Components(m, components, area) && Accounted(m, components, area, Marked(visited[..]))
    {
      if !closed[start] || visited[start] {
        continue;
      }
      ghost var seen := Marked(visited[..]);
      ghost var before := visited[..];
      var component := Fill(m, closed, visited, start, w, h);
      forall i | 0 <= i < start && closed[i]
        ensures visited[i]
      {
        assert i in seen;
        assert i in Marked(visited[..]);
      }
      StartInClass(m, start);
      assert start in Marked(visited[..]);
      if |component.pixels| < area {
        ComponentSkipped(m, components, component, area, seen, start);
        continue;
      }
      ComponentJoins(m, components, component, area, seen, start);
      components := components + [component];
    }
    forall p: nat | p < closed.Length && closed[p] && area <= |ClassOf(m, p)|
      ensures Kept(components, p)
    {
      assert p in Marked(visited[..]);
    }
  }

  lemma NothingClosed(m: Image)
    requires m.Valid()
    ensures ClosedUnder(m, {})
  {
  }

  lemma StartInClass(m: Image, i: nat)
    requires m.Valid() && m.Set(i)
    ensures i in ClassOf(m, i)
  {
    ReachesSelf(m, i);
  }

  // ---- The chosen component ------------------------------------------------------------

  function Round(x: real): int {
    (x + 0.5).Floor
  }

  function MinimumArea(pixels: nat): nat {
    var share := Round(pixels as real * 0.006);
    if 12 < share then share else 12
  }

  /** The first of the components with the highest score. */
  ghost predicate FirstBest(cs: seq<Component>, score: Component -> real, best: Option<Component>) {
    if cs == [] then best.None?
    else
      && best.Some?
      && exists k | 0 <= k < |cs| :: cs[k] == best.value && BestAt(cs, score, k)
  }

  predicate BestAt(cs: seq<Component>, score: Component -> real, k: nat)
    requires k < |cs|
  {
    && (forall j | 0 <= j < |cs| :: score(cs[j]) <= score(cs[k]))
    && (forall j | 0 <= j < k :: score(cs[j]) < score(cs[k]))
  }

  method ChooseBest(cs: seq<Component>, score: Component -> real) returns (best: Option<Component>)
    ensures FirstBest(cs, score, best)
  {
    if |cs| == 0 {
      return None;
    }
    var k := 0;
    for i := 1 to |cs|
      invariant k < i && (forall j | 0 <= j < i :: score(cs[j]) <= score(cs[k]))
      invariant forall j | 0 <= j < k :: score(cs[j]) < score(cs[k])
    {
      if score(cs[i]) > score(cs[k]) {
        k := i;
      }
    }
    assert BestAt(cs, score, k);
    best := Some(cs[k]);
  }

  /** Of the closed mask, every class of at least the minimum area is a component, every component is
      such a class, and the one returned has the highest score. */
  method DetectForegroundComponent(mask: array<bool>, w: nat, h: nat, score: Component -> real)
    returns (components: seq<Component>, best: Option<Component>)
    requires mask.Length == w * h
    ensures w < 8 || h < 8 ==> best == None && components == []
    ensures 8 <= w && 8 <= h ==>
      var m := Closing(Image(mask[..], w, h));
      && Components(m, components, MinimumArea(w * h))
      && (forall p: nat | p < |m.mask| && m.mask[p] && MinimumArea(w * h) <= |ClassOf(m, p)| :: Kept(components, p))
    ensures FirstBest(components, score, best)
  {
    if w < 8 || h < 8 {
      return [], None;
    }
    hide Components, ClassOf, Kept, SpreadAt;
    var closed := CloseMask(mask, w, h);
    assert Image(closed[..], w, h) == Closing(Image(mask[..], w, h));
    var minimumArea := MinimumArea(closed.Length);
    components := LabelComponents(closed, w, h, minimumArea);
    best := ChooseBest(components, score);
  }

  /** No component touches the border, so no score is ever lowered for touching it. */
  lemma ComponentsAvoidBorder(m: Image, c: Component, area: nat)
    requires m.Valid() && Labelled(Closing(m), c, area)
    ensures 1 <= c.box.minX <= c.box.maxX && c.box.maxX + 1 < m.w
    ensures 1 <= c.box.minY <= c.box.maxY && c.box.maxY + 1 < m.h
  {
    var n := Closing(m);
    var root: nat :| root < |n.mask| && n.Set(root) && PixelSet(c.pixels) == ClassOf(n, root);
    forall k | 0 <= k < |c.pixels|
      ensures Interior(c.pixels[k], m.w, m.h)
    {
      assert c.pixels[k] in PixelSet(c.pixels);
      ClassIsSet(n, root, c.pixels[k]);
    }
    hide Col, Row;
    var k :| 0 <= k < |c.pixels| && Col(c.pixels[k], m.w) == c.box.minX;
    assert Inside(c.box, c.pixels[k], m.w);
    k :| 0 <= k < |c.pixels| && Col(c.pixels[k], m.w) == c.box.maxX;
    k :| 0 <= k < |c.pixels| && Row(c.pixels[k], m.w) == c.box.minY;
    assert Inside(c.box, c.pixels[k], m.w);
    k :| 0 <= k < |c.pixels| && Row(c.pixels[k], m.w) == c.box.maxY;
  }

  // ---- The crop ------------------------------------------------------------------------

  datatype Crop = Crop(x: real, y: real, width: real, height: real)

  function Padding(length: int): int {
    var p := Round(length as real * 0.055);
    if 2 < p then p else 2
  }

  /** First and last column (or row) of the crop along one side of the given length. */
  function Padded(first: nat, last: nat, length: nat): (int, int) {
    var p := Padding(last - first + 1);
    var low, high := first - p, last + p;
    (if low < 0 then 0 else low, if high < length - 1 then high else length - 1)
  }

  function CropOf(b: Box, w: nat, h: nat): Crop
    requires 0 < w && 0 < h
  {
    var (left, right) := Padded(b.minX, b.maxX, w);
    var (top, bottom) := Padded(b.minY, b.maxY, h);
    Crop(left as real / w as real, top as real / h as real,
         (right - left + 1) as real / w as real, (bottom - top + 1) as real / h as real)
  }

  predicate InUnitSquare(c: Crop) {
    0.0 <= c.x && 0.0 < c.width && c.x + c.width <= 1.0 && 0.0 <= c.y && 0.0 < c.height && c.y + c.height <= 1.0
  }

  /** The whole square of a pixel lies in the crop. */
  predicate Shows(c: Crop, p: nat, w: nat, h: nat)
    requires 0 < w && 0 < h
  {
    && c.x <= Col(p, w) as real / w as real && (Col(p, w) + 1) as real / w as real <= c.x + c.width
    && c.y <= Row(p, w) as real / h as real && (Row(p, w) + 1) as real / h as real <= c.y + c.height
  }

  lemma QuotientOrder(a: real, b: real, d: real)
    requires a <= b && 0.0 < d
    ensures a / d <= b / d
  {
    assert b / d - a / d == (b - a) / d;
  }

  lemma QuotientSum(a: real, b: real, d: real)
    requires 0.0 < d
    ensures a / d + b / d == (a + b) / d
  {
  }

  /** Along one side: the padded stretch is in the image and holds the one it was made from. */
  lemma PaddedSide(first: nat, last: nat, length: nat)
    requires first <= last < length
    ensures var (low, high) := Padded(first, last, length); 0 <= low <= first && last <= high < length
  {
  }

  lemma SideInUnit(low: int, high: int, length: nat)
    requires 0 <= low <= high < length
    ensures var d := length as real; var x, size := low as real / d, (high - low + 1) as real / d;
      0.0 <= x && 0.0 < size && x + size <= 1.0 && x + size == (high + 1) as real / d
  {
    var d := length as real;
    QuotientSum(low as real, (high - low + 1) as real, d);
    QuotientOrder((high + 1) as real, d, d);
    QuotientOrder(0.0, low as real, d);
    QuotientOrder(1.0, (high - low + 1) as real, d);
    UnitQuotients(d);
  }

  lemma UnitQuotients(d: real)
    requires 0.0 < d
    ensures d / d == 1.0 && 0.0 / d == 0.0 && 0.0 < 1.0 / d
  {
  }

  /** The crop of a component lies in the unit square and shows all its pixels whole. */
  lemma CropShowsComponent(m: Image, c: Component, area: nat, k: nat)
    requires m.Valid() && Labelled(Closing(m), c, area) && k < |c.pixels|
    ensures InUnitSquare(CropOf(c.box, m.w, m.h)) && Shows(CropOf(c.box, m.w, m.h), c.pixels[k], m.w, m.h)
  {
    ComponentsAvoidBorder(m, c, area);
    assert Inside(c.box, c.pixels[k], m.w);
    hide Col, Row, Labelled, Closing, Padded;
    var (left, right) := Padded(c.box.minX, c.box.maxX, m.w);
    var (top, bottom) := Padded(c.box.minY, c.box.maxY, m.h);
    PaddedSide(c.box.minX, c.box.maxX, m.w);
    PaddedSide(c.box.minY, c.box.maxY, m.h);
    SideInUnit(left, right, m.w);
    SideInUnit(top, bottom, m.h);
    var x, y, w, h := Col(c.pixels[k], m.w), Row(c.pixels[k], m.w), m.w as real, m.h as real;
    QuotientOrder(left as real, x as real, w);
    QuotientOrder((x + 1) as real, (right + 1) as real, w);
    QuotientOrder(top as real, y as real, h);
    QuotientOrder((y + 1) as real, (bottom + 1) as real, h);
  }

  // ---- How far the crop reaches --------------------------------------------------------

  /** The padding along a side: the whole number nearest to 0.055 of it, halves up, and at least two. */
  predicate IsPadding(p: int, length: int) {
    if 2 < p then p as real - 0.5 <= length as real * 0.055 < p as real + 0.5
    else p == 2 && length as real * 0.055 < 2.5
  }

  lemma PaddingIs(length: int)
    ensures IsPadding(Padding(length), length)
    ensures forall p | IsPadding(p, length) :: p == Padding(length)
  {
  }

  /** One side of the crop, in pixels: padded at both ends, unless the image ends first. */
  predicate PaddedTo(x: real, size: real, first: int, last: int, padding: int, length: nat) {
    && x * length as real == (if first < padding then 0 else first - padding) as real
    && (x + size) * length as real == (if length < last + padding + 1 then length else last + padding + 1) as real
  }

  /** The crop is the box with its padding on every side, as far as the image goes. */
  lemma CropIsPaddedBox(b: Box, w: nat, h: nat) returns (padX: int, padY: int)
    requires b.minX <= b.maxX < w && b.minY <= b.maxY < h
    ensures IsPadding(padX, b.maxX - b.minX + 1) && IsPadding(padY, b.maxY - b.minY + 1)
    ensures var c := CropOf(b, w, h);
      PaddedTo(c.x, c.width, b.minX, b.maxX, padX, w) && PaddedTo(c.y, c.height, b.minY, b.maxY, padY, h)
  {
    padX, padY := Padding(b.maxX - b.minX + 1), Padding(b.maxY - b.minY + 1);
    PaddingIs(b.maxX - b.minX + 1);
    PaddingIs(b.maxY - b.minY + 1);
    hide Padding;
    PaddedSideTo(b.minX, b.maxX, w, padX);
    PaddedSideTo(b.minY, b.maxY, h, padY);
  }

  lemma PaddedSideTo(first: nat, last: nat, length: nat, padding: int)
    requires first <= last < length && padding == Padding(last - first + 1)
    ensures var (low, high) := Padded(first, last, length);
      PaddedTo(low as real / length as real, (high - low + 1) as real / length as real, first, last, padding, length)
  {
    hide Padding;
    var (low, high) := Padded(first, last, length);
    var d := length as real;
    QuotientSum(low as real, (high - low + 1) as real, d);
    QuotientBack(low as real, d);
    QuotientBack((high + 1) as real, d);
  }

  lemma QuotientBack(a: real, d: real)
    requires 0.0 < d
    ensures a / d * d == a
  {
  }

  // ---- What counts ---------------------------------------------------------------------

  /** The smallest component that is kept: 0.006 of the pixels, to the nearest, and at least twelve. */
  lemma MinimumAreaIs(pixels: nat, area: nat)
    ensures MinimumArea(pixels) <= area <==> 12 <= area && pixels as real * 0.006 < area as real + 0.5
  {
  }

  predicate Close(a: nat, b: nat) {
    a <= b + 1 && b <= a + 1
  }

  /** The set pixels at most one column and one row away. */
  ghost function Around(m: Image, i: nat): set<nat>
    requires m.Valid()
  {
    set j: nat | j < |m.mask| && m.mask[j] && Close(Col(j, m.w), Col(i, m.w)) && Close(Row(j, m.w), Row(i, m.w))
  }

  function Cell(i: nat, w: nat, k: nat): int {
    i + (k / 3 - 1) * w + (k % 3 - 1)
  }

  lemma CellAt(m: Image, i: nat, k: nat)
    requires m.Valid() && i < |m.mask| && Interior(i, m.w, m.h) && k < 9
    ensures var j := Cell(i, m.w, k);
      0 <= j < |m.mask| && Col(j, m.w) + 1 == Col(i, m.w) + k % 3 && Row(j, m.w) + 1 == Row(i, m.w) + k / 3
  {
    var x, y := Col(i, m.w), Row(i, m.w);
    Index(i, m.w);
    hide Col, Row;
    var dx, dy := k % 3, k / 3;
    AroundInside(x, y, dx, dy, m.w, m.h);
    assert Cell(i, m.w, k) == (y + dy - 1) * m.w + (x + dx - 1);
    PixelAt(Cell(i, m.w, k), x + dx - 1, y + dy - 1, m.w, m.h);
  }

  ghost function AroundUpTo(m: Image, i: nat, n: nat): set<nat>
    requires m.Valid()
  {
    set j: nat | j < |m.mask| && m.mask[j] && exists k: nat :: k < n && IsCell(i, m.w, k, j)
  }

  predicate IsCell(i: nat, w: nat, k: nat, j: nat) {
    j == Cell(i, w, k)
  }

  lemma {:induction false} CountIsSet(m: Image, i: nat, n: nat)
    requires m.Valid() && i < |m.mask| && Interior(i, m.w, m.h) && n <= 9
    ensures NineUpTo(m.mask, i, m.w, n) == |AroundUpTo(m, i, n)|
  {
    hide Col, Row, Interior, Cell;
    if n == 0 {
      assert AroundUpTo(m, i, 0) == {};
    } else {
      var k := n - 1;
      CountIsSet(m, i, k);
      CellAt(m, i, k);
      var j := Cell(i, m.w, k);
      forall l: nat | l < k
        ensures Cell(i, m.w, l) != j
      {
        CellAt(m, i, l);
      }
      assert IsCell(i, m.w, k, j);
      assert j !in AroundUpTo(m, i, k);
      assert AroundUpTo(m, i, n) == AroundUpTo(m, i, k) + if m.mask[j] then {j} else {};
      NineNext(m.mask, i, m.w, k);
    }
  }

  lemma NineNext(mask: seq<bool>, i: nat, w: nat, k: nat)
    requires k < 9
    ensures var j := Cell(i, w, k);
      NineUpTo(mask, i, w, k + 1) == NineUpTo(mask, i, w, k) + if 0 <= j < |mask| && mask[j] then 1 else 0
  {
  }

  lemma AroundIsCells(m: Image, i: nat)
    requires m.Valid() && i < |m.mask| && Interior(i, m.w, m.h)
    ensures AroundUpTo(m, i, 9) == Around(m, i)
  {
    forall j | j in AroundUpTo(m, i, 9)
      ensures j in Around(m, i)
    {
      var k: nat :| k < 9 && IsCell(i, m.w, k, j);
      CellAt(m, i, k);
    }
    forall j | j in Around(m, i)
      ensures j in AroundUpTo(m, i, 9)
    {
      var k := 3 * (Row(j, m.w) + 1 - Row(i, m.w)) + (Col(j, m.w) + 1 - Col(i, m.w));
      assert k / 3 == Row(j, m.w) + 1 - Row(i, m.w) && k % 3 == Col(j, m.w) + 1 - Col(i, m.w);
      CellAt(m, i, k);
      Index(j, m.w);
      Index(Cell(i, m.w, k), m.w);
      assert IsCell(i, m.w, k, j);
    }
  }

  /** Not in the first or last column or row. */
  predicate OffBorder(i: nat, w: nat, h: nat)
    requires 0 < w
  {
    Col(i, w) != 0 && Col(i, w) != w - 1 && Row(i, w) != 0 && Row(i, w) != h - 1
  }

  lemma OffBorderIs(m: Image, i: nat)
    requires m.Valid() && i < |m.mask|
    ensures OffBorder(i, m.w, m.h) <==> Interior(i, m.w, m.h)
  {
    Index(i, m.w);
    RowInImage(i, m.w, m.h);
    hide Col, Row;
  }

  lemma SpreadIs(m: Image, need: nat, i: nat)
    requires m.Valid() && i < |m.mask|
    ensures Spread(m, need).mask[i] <==> OffBorder(i, m.w, m.h) && need <= |Around(m, i)|
  {
    OffBorderIs(m, i);
    hide Interior, OffBorder;
    if Interior(i, m.w, m.h) {
      CountIsSet(m, i, 9);
      AroundIsCells(m, i);
    }
  }

  /** A pixel of the closed mask: off the border, with four set pixels of the grown mask around it, itself
      included; and the grown mask: off the border, with three. */
  lemma ClosingIs(m: Image, i: nat) returns (grown: Image)
    requires m.Valid() && i < |m.mask|
    ensures grown.Valid() && grown.w == m.w && grown.h == m.h
    ensures forall j: nat | j < |m.mask| :: grown.Set(j) <==> OffBorder(j, m.w, m.h) && 3 <= |Around(m, j)|
    ensures Closing(m).Set(i) <==> OffBorder(i, m.w, m.h) && 4 <= |Around(grown, i)|
  {
    hide OffBorder;
    grown := Spread(m, 3);
    forall j: nat | j < |m.mask|
      ensures grown.Set(j) <==> OffBorder(j, m.w, m.h) && 3 <= |Around(m, j)|
    {
      SpreadIs(m, 3, j);
    }
    SpreadIs(grown, 4, i);
  }
}
