/** Points filed in square cells, and the two searches that walk outwards from a query ring by ring:
    NearestD over junctions (internal/route/graph.go:813-977) and the place grid's nearestXY
    (internal/route/geocode.go:849-952). Distances are compared by their squares. */
module Grid {
  import opened Roads
  import Csr

  /** Go's conversion to an integer: towards zero. */
  function Trunc(r: real): int { if r >= 0.0 then r.Floor else -((-r).Floor) }

  function Abs(i: int): nat { if i < 0 then -i else i }

  function Sq(r: real): real { r * r }

  function Dist2(p: Point, q: Point): real { Sq(p.x - q.x) + Sq(p.y - q.y) }

  /** Along an axis the square of the difference; across both, the sum of the two legs. */
  lemma Pythagoras(p: Point, q: Point)
    ensures Dist2(p, Point(q.x, p.y)) == (p.x - q.x) * (p.x - q.x)
    ensures Dist2(p, Point(p.x, q.y)) == (p.y - q.y) * (p.y - q.y)
    ensures Dist2(p, q) == Dist2(p, Point(q.x, p.y)) + Dist2(p, Point(p.x, q.y))
  {
  }

  datatype Box = Box(minX: real, minY: real, maxX: real, maxY: real)

  datatype Frame = Frame(minX: real, minY: real, cell: real, gw: nat, gh: nat)

  predicate Sound(f: Frame) { f.cell > 0.0 && f.gw >= 1 && f.gh >= 1 }

  /** The number of the cell a coordinate falls into, before it is clamped. */
  function Axis(lo: real, cell: real, v: real): int
    requires cell > 0.0
  {
    Trunc((v - lo) / cell)
  }

  function Clamp(c: int, n: nat): nat
    requires n >= 1
  {
    if c < 0 then 0 else if c >= n then n - 1 else c
  }

  /** A point is clamped into the cell of the row that is nearest to where it would lie. */
  lemma ClampedIsNearest(c: int, n: nat, k: nat)
    requires k < n
    ensures Clamp(c, n) < n && Abs(c - Clamp(c, n)) <= Abs(c - k)
  {
  }

  function Col(f: Frame, p: Point): nat
    requires Sound(f)
  {
    Clamp(Axis(f.minX, f.cell, p.x), f.gw)
  }

  function Row(f: Frame, p: Point): nat
    requires Sound(f)
  {
    Clamp(Axis(f.minY, f.cell, p.y), f.gh)
  }

  function Slot(f: Frame, gx: nat, gy: nat): nat { gy * f.gw + gx }

  /** The point lies where no clamping is needed. */
  predicate Inside(f: Frame, p: Point)
    requires Sound(f)
  {
    && f.minX <= p.x && Axis(f.minX, f.cell, p.x) < f.gw
    && f.minY <= p.y && Axis(f.minY, f.cell, p.y) < f.gh
  }

  /** The ring around the query's own cell in which a point is filed. */
  function RingOf(f: Frame, q: Point, p: Point): nat
    requires Sound(f)
  {
    var dx := Abs(Axis(f.minX, f.cell, q.x) - Col(f, p));
    var dy := Abs(Axis(f.minY, f.cell, q.y) - Row(f, p));
    if dx >= dy then dx else dy
  }

  /** The width of so many cells. */
  function Span(cell: real, cells: int): real { cells as real * cell }

  /** How near, squared, anything in this ring or farther out can be. */
  function Reach2(cell: real, ring: nat): real {
    if ring < 1 then 0.0 else Sq(Span(cell, ring - 1))
  }

  // ------------------------------------------------------------------ the geometry

  lemma SqMonotone(a: real, b: real)
    requires 0.0 <= a <= b
    ensures Sq(a) <= Sq(b)
  {}

  lemma MulMonotone(a: real, b: real, c: real)
    requires a <= b && c >= 0.0
    ensures a * c <= b * c
  {}

  lemma StrictMul(a: real, b: real, c: real)
    requires a < b && c > 0.0
    ensures a * c < b * c
  {}

  lemma StrictSq(a: real, b: real)
    requires 0.0 <= a < b
    ensures a * a < b * b
  {
    StrictMul(0.0, b - a, b + a);
    assert b * b - a * a == (b - a) * (b + a);
  }

  lemma DivMonotone(a: real, b: real, c: real)
    requires a <= b && c > 0.0
    ensures a / c <= b / c
  {}

  /** Two coordinates whose cells are k apart are at least k - 1 cells apart, wherever the query is: the
      truncation towards zero below the first cell does no harm. */
  lemma FarOnAxis(lo: real, cell: real, v: real, w: real)
    requires cell > 0.0 && lo <= w
    ensures var k := Abs(Axis(lo, cell, v) - Axis(lo, cell, w));
            k >= 1 ==> Span(cell, k - 1) <= v - w || Span(cell, k - 1) <= w - v
  {
    var t, u := (v - lo) / cell, (w - lo) / cell;
    DivMonotone(0.0, w - lo, cell);
    var k := Abs(Trunc(t) - Trunc(u));
    if k >= 1 {
      Apart(t, u);
      if (k - 1) as real <= t - u { Scaled(v - lo, w - lo, cell, k - 1); } else { Scaled(w - lo, v - lo, cell, k - 1); }
    }
  }

  lemma Apart(t: real, u: real)
    requires u >= 0.0
    ensures var k := Abs(Trunc(t) - Trunc(u)); k >= 1 ==> (k - 1) as real <= t - u || (k - 1) as real <= u - t
  {}

  lemma Scaled(a: real, b: real, cell: real, cells: int)
    requires cell > 0.0 && cells as real <= a / cell - b / cell
    ensures Span(cell, cells) <= a - b
  {
    MulMonotone(cells as real, a / cell - b / cell, cell);
    assert a / cell * cell == a && b / cell * cell == b;
    assert (a / cell - b / cell) * cell == a / cell * cell - b / cell * cell;
  }

  lemma FarSquared(gap: real, d: real, other: real)
    requires gap >= 0.0 && (gap <= d || gap <= -d)
    ensures Sq(gap) <= Sq(d) + Sq(other)
  {
    if gap <= d { SqMonotone(gap, d); } else { SqMonotone(gap, -d); assert Sq(-d) == Sq(d); }
    assert Sq(other) >= 0.0;
  }

  lemma Reach2Monotone(cell: real, r: nat, s: nat)
    requires cell > 0.0 && r <= s
    ensures 0.0 <= Reach2(cell, r) <= Reach2(cell, s)
  {
    if r >= 1 {
      MulMonotone((r - 1) as real, (s - 1) as real, cell);
      SqMonotone(Span(cell, r - 1), Span(cell, s - 1));
    }
  }

  lemma AxisIsNatural(lo: real, cell: real, v: real)
    requires cell > 0.0 && lo <= v
    ensures Axis(lo, cell, v) >= 0
  {
    DivMonotone(0.0, v - lo, cell);
  }

  lemma InsideIsUnclamped(f: Frame, p: Point)
    requires Sound(f) && Inside(f, p)
    ensures Col(f, p) == Axis(f.minX, f.cell, p.x) && Row(f, p) == Axis(f.minY, f.cell, p.y)
  {
    AxisIsNatural(f.minX, f.cell, p.x);
    AxisIsNatural(f.minY, f.cell, p.y);
  }

  lemma FarSlots(cell: real, i: int, j: int, d: real, other: real)
    requires cell > 0.0 && Abs(i - j) >= 1
    requires Span(cell, Abs(i - j) - 1) <= d || Span(cell, Abs(i - j) - 1) <= -d
    ensures Reach2(cell, Abs(i - j)) <= Sq(d) + Sq(other)
  {
    hide Sq;
    MulMonotone(0.0, (Abs(i - j) - 1) as real, cell);
    FarSquared(Span(cell, Abs(i - j) - 1), d, other);
  }

  /** A filed point is at least as far as its ring says, for any query whatever. */
  lemma RingIsFar(f: Frame, q: Point, p: Point, ring: nat)
    requires Sound(f) && Inside(f, p) && ring <= RingOf(f, q, p)
    ensures Reach2(f.cell, ring) <= Dist2(p, q)
  {
    hide Axis, Sq, Col, Row, Reach2, Span;
    var r := RingOf(f, q, p);
    Reach2Monotone(f.cell, ring, r);
    InsideIsUnclamped(f, p);
    FarOnAxis(f.minX, f.cell, q.x, p.x);
    FarOnAxis(f.minY, f.cell, q.y, p.y);
    var qx, qy, px, py := Axis(f.minX, f.cell, q.x), Axis(f.minY, f.cell, q.y), Col(f, p), Row(f, p);
    if r == 0 {
      SumOfSquares(f.cell, p.x - q.x, p.y - q.y);
    } else if r == Abs(qx - px) {
      FarSlots(f.cell, qx, px, p.x - q.x, p.y - q.y);
    } else {
      FarSlots(f.cell, qy, py, p.y - q.y, p.x - q.x);
    }
  }

  lemma SumOfSquares(cell: real, a: real, b: real)
    ensures Reach2(cell, 0) == 0.0 <= Sq(a) + Sq(b)
  {}

  /** The whole cells in a distance. */
  function Whole(d: real, cell: real): int
    requires cell > 0.0
  {
    Trunc(d / cell)
  }

  lemma WholeIsNatural(d: real, cell: real)
    requires cell > 0.0 && d >= 0.0
    ensures Whole(d, cell) >= 0
  {
    DivMonotone(0.0, d, cell);
  }

  /** Two rings beyond the whole cells in maxM leave nothing within maxM unvisited. */
  lemma EnoughRings(cell: real, maxM: real, ring: nat)
    requires cell > 0.0 && maxM >= 0.0 && ring >= Whole(maxM, cell) + 2
    ensures Sq(maxM) < Reach2(cell, ring)
  {
    var t := maxM / cell;
    DivMonotone(0.0, maxM, cell);
    StrictMul(t, (ring - 1) as real, cell);
    StrictSq(maxM, Span(cell, ring - 1));
  }

  // ------------------------------------------------------------------ filing

  datatype Grid = Grid(frame: Frame, cells: seq<seq<nat>>)

  /** Every cell lists exactly the points that fall into it. */
  ghost predicate Filed(g: Grid, pts: seq<Point>) {
    && Sound(g.frame)
    && forall gx, gy :: 0 <= gx < g.frame.gw && 0 <= gy < g.frame.gh ==>
         Slot(g.frame, gx, gy) < |g.cells| && Lists(g.frame, pts, g.cells[Slot(g.frame, gx, gy)], gx, gy)
  }

  ghost predicate Lists(f: Frame, pts: seq<Point>, cell: seq<nat>, gx: nat, gy: nat)
    requires Sound(f)
  {
    forall n: nat :: n in cell <==> n < |pts| && Col(f, pts[n]) == gx && Row(f, pts[n]) == gy
  }

  lemma SlotFits(f: Frame, gx: nat, gy: nat)
    requires gx < f.gw && gy < f.gh
    ensures Slot(f, gx, gy) < f.gw * f.gh
  {
    assert (gy + 1) * f.gw <= f.gh * f.gw;
  }

  lemma SlotIsOne(f: Frame, gx: nat, gy: nat, hx: nat, hy: nat)
    requires gx < f.gw && hx < f.gw && Slot(f, gx, gy) == Slot(f, hx, hy)
    ensures gx == hx && gy == hy
  {
    if gy < hy { RowsApart(f.gw, gy, hy); }
    if hy < gy { RowsApart(f.gw, hy, gy); }
  }

  lemma RowsApart(w: nat, a: nat, b: nat)
    requires a < b
    ensures a * w + w <= b * w
  {
    assert (a + 1) * w <= b * w;
  }

  /** The counting-sort fill of a grid. */
  method FileAll(f: Frame, pts: seq<Point>) returns (g: Grid)
    requires Sound(f)
    ensures g.frame == f && Filed(g, pts)
  {
    var keys: seq<nat>, vals: seq<nat> := [], [];
    for i := 0 to |pts|
      invariant |keys| == |vals| == i
      invariant forall k :: 0 <= k < i ==>
                  vals[k] == k && keys[k] == Slot(f, Col(f, pts[k]), Row(f, pts[k])) < f.gw * f.gh
    {
      SlotFits(f, Col(f, pts[i]), Row(f, pts[i]));
      keys, vals := keys + [Slot(f, Col(f, pts[i]), Row(f, pts[i]))], vals + [i];
    }
    var cells := Csr.Layers(f.gw * f.gh, keys, vals);
    g := Grid(f, cells);
    FiledByKey(f, pts, keys, vals, cells);
  }

  lemma FiledByKey(f: Frame, pts: seq<Point>, keys: seq<nat>, vals: seq<nat>, cells: seq<seq<nat>>)
    requires Sound(f) && |keys| == |vals| == |pts| && |cells| == f.gw * f.gh
    requires forall k :: 0 <= k < |pts| ==> vals[k] == k && keys[k] == Slot(f, Col(f, pts[k]), Row(f, pts[k]))
    requires forall k :: 0 <= k < |cells| ==> cells[k] == Csr.At(keys, vals, k)
    ensures Filed(Grid(f, cells), pts)
  {
    hide Slot, Col, Row, Lists, Csr.At;
    forall gx, gy | 0 <= gx < f.gw && 0 <= gy < f.gh
      ensures Slot(f, gx, gy) < |cells| && Lists(f, pts, cells[Slot(f, gx, gy)], gx, gy)
    {
      SlotFits(f, gx, gy);
      InSlot(f, pts, keys, vals, gx, gy);
    }
  }

  lemma InSlot(f: Frame, pts: seq<Point>, keys: seq<nat>, vals: seq<nat>, gx: nat, gy: nat)
    requires Sound(f) && |keys| == |vals| == |pts| && gx < f.gw && gy < f.gh
    requires forall k :: 0 <= k < |pts| ==> vals[k] == k && keys[k] == Slot(f, Col(f, pts[k]), Row(f, pts[k]))
    ensures Lists(f, pts, Csr.At(keys, vals, Slot(f, gx, gy)), gx, gy)
  {
    hide Slot, Axis, Csr.At;
    forall n: nat
      ensures n in Csr.At(keys, vals, Slot(f, gx, gy)) <==> n < |pts| && Col(f, pts[n]) == gx && Row(f, pts[n]) == gy
    {
      Csr.AtHolds(keys, vals, Slot(f, gx, gy), n);
      if n < |pts| {
        assert vals[n] == n;
        if keys[n] == Slot(f, gx, gy) { SlotIsOne(f, Col(f, pts[n]), Row(f, pts[n]), gx, gy); }
      }
    }
  }

  predicate InBox(b: Box, p: Point) { b.minX <= p.x <= b.maxX && b.minY <= p.y <= b.maxY }

  /** A grid over a box, with spare cells beyond the last one needed. */
  function FrameOver(b: Box, cell: real, spare: nat): (f: Frame)
    requires cell > 0.0 && b.minX <= b.maxX && b.minY <= b.maxY && spare >= 1
    ensures Sound(f)
  {
    AxisIsNatural(b.minX, cell, b.maxX);
    AxisIsNatural(b.minY, cell, b.maxY);
    Frame(b.minX, b.minY, cell, Axis(b.minX, cell, b.maxX) + spare, Axis(b.minY, cell, b.maxY) + spare)
  }

  lemma AxisMonotone(lo: real, cell: real, v: real, w: real)
    requires cell > 0.0 && lo <= v <= w
    ensures 0 <= Axis(lo, cell, v) <= Axis(lo, cell, w)
  {
    AxisIsNatural(lo, cell, v);
    DivMonotone(v - lo, w - lo, cell);
  }

  /** Whatever lies in the box is filed without clamping. */
  lemma BoxIsInside(b: Box, cell: real, spare: nat, p: Point)
    requires cell > 0.0 && b.minX <= b.maxX && b.minY <= b.maxY && spare >= 1 && InBox(b, p)
    ensures Inside(FrameOver(b, cell, spare), p)
  {
    AxisMonotone(b.minX, cell, p.x, b.maxX);
    AxisMonotone(b.minY, cell, p.y, b.maxY);
  }

  function Widened(b: Box, p: Point): Box {
    Box(Min(b.minX, p.x), Min(b.minY, p.y), Max(b.maxX, p.x), Max(b.maxY, p.y))
  }

  /** Every side of the box touches one of the points. */
  ghost predicate Touched(b: Box, pts: seq<Point>) {
    && (exists p :: p in pts && p.x == b.minX) && (exists p :: p in pts && p.x == b.maxX)
    && (exists p :: p in pts && p.y == b.minY) && exists p :: p in pts && p.y == b.maxY
  }

  lemma WidenedHolds(b: Box, p: Point, pts: seq<Point>)
    requires p in pts && Touched(b, pts)
    ensures Touched(Widened(b, p), pts) && InBox(Widened(b, p), p)
    ensures forall o :: InBox(b, o) ==> InBox(Widened(b, p), o)
  {}

  /** The smallest box around some points. */
  method BoundingBox(pts: seq<Point>) returns (b: Box)
    requires |pts| > 0
    ensures forall n :: 0 <= n < |pts| ==> InBox(b, pts[n])
    ensures Touched(b, pts)
  {
    b := Box(pts[0].x, pts[0].y, pts[0].x, pts[0].y);
    assert pts[0] in pts;
    for i := 1 to |pts|
      invariant forall k :: 0 <= k < i ==> InBox(b, pts[k])
      invariant Touched(b, pts)
    {
      hide Widened, InBox, Touched;
      WidenedHolds(b, pts[i], pts);
      b := Widened(b, pts[i]);
    }
  }

  const CELL: real := 500.0

  /** buildGrid: over the declared extent, or over the junctions themselves when the map declares none.
      Every junction is where its cell says when the extent holds them all. Without extent and junctions
      there is one empty cell; where it lies is of no account. */
  method BuildGrid(extent: Box, pts: seq<Point>) returns (g: Grid)
    ensures Filed(g, pts) && g.frame.cell == CELL
    ensures pts == [] && (extent.maxX <= extent.minX || extent.maxY <= extent.minY) ==> g.frame.gw == g.frame.gh == 1
    ensures (extent.maxX <= extent.minX || extent.maxY <= extent.minY || forall n :: 0 <= n < |pts| ==>
        InBox(extent, pts[n]))
              ==> forall n :: 0 <= n < |pts| ==> Inside(g.frame, pts[n])
  {
    var b := extent;
    if extent.maxX <= extent.minX || extent.maxY <= extent.minY {
      if |pts| == 0 {
        g := FileAll(Frame(extent.minX, extent.minY, CELL, 1, 1), pts);
        return;
      }
      b := BoundingBox(pts);
      assert InBox(b, pts[0]);
    }
    g := FileAll(FrameOver(b, CELL, 2), pts);
    forall n | 0 <= n < |pts| && InBox(b, pts[n]) ensures Inside(g.frame, pts[n]) { BoxIsInside(b, CELL, 2, pts[n]); }
  }

  // ------------------------------------------------------------------ one ring

  /** The points filed in one ring, in the order the searches come by: row by row, the inside left out. */
  method RingMembers(g: Grid, pts: seq<Point>, q: Point, ring: nat) returns (ns: seq<nat>)
    requires Filed(g, pts)
    ensures forall n: nat :: n in ns <==> n < |pts| && RingOf(g.frame, q, pts[n]) == ring
  {
    var cx, cy := Axis(g.frame.minX, g.frame.cell, q.x), Axis(g.frame.minY, g.frame.cell, q.y);
    ns := [];
    var gy := cy - ring;
    while gy <= cy + ring
      invariant cy - ring <= gy <= cy + ring + 1
      invariant forall n: nat :: n in ns <==>
                  n < |pts| && RingOf(g.frame, q, pts[n]) == ring && Row(g.frame, pts[n]) < gy
    {
      if 0 <= gy < g.frame.gh {
        var row := RowMembers(g, pts, q, ring, gy);
        ns := ns + row;
      }
      gy := gy + 1;
    }
  }

  method RowMembers(g: Grid, pts: seq<Point>, q: Point, ring: nat, gy: nat) returns (ns: seq<nat>)
    requires Filed(g, pts) && gy < g.frame.gh
    requires Abs(gy - Axis(g.frame.minY, g.frame.cell, q.y)) <= ring
    ensures forall n: nat :: n in ns <==> n < |pts| && RingOf(g.frame, q, pts[n]) == ring && Row(g.frame, pts[n]) == gy
  {
    hide Slot, Axis;
    var cx, cy := Axis(g.frame.minX, g.frame.cell, q.x), Axis(g.frame.minY, g.frame.cell, q.y);
    ns := [];
    var gx := cx - ring;
    while gx <= cx + ring
      invariant cx - ring <= gx <= cx + ring + 1
      invariant forall n: nat :: n in ns <==>
                  n < |pts| && RingOf(g.frame, q, pts[n]) == ring && Row(g.frame, pts[n]) == gy
                      && Col(g.frame, pts[n]) < gx
    {
      var inside := gx != cx - ring && gx != cx + ring && gy != cy - ring && gy != cy + ring;
      if 0 <= gx < g.frame.gw && !(ring > 0 && inside) {
        ns := ns + g.cells[Slot(g.frame, gx, gy)];
      }
      gx := gx + 1;
    }
  }

  // ------------------------------------------------------------------ the nearest of some points

  /** b is a nearest of the points in s, or s is empty. */
  ghost predicate Nearest(pts: seq<Point>, q: Point, s: set<nat>, b: Option<nat>) {
    match b
    case None => s == {}
    case Some(n) => n in s && n < |pts| && forall i :: i in s ==> i < |pts| && Dist2(pts[n], q) <= Dist2(pts[i], q)
  }

  /** The points that pass and lie in a ring before this one. */
  ghost function Seen(f: Frame, pts: seq<Point>, q: Point, pass: nat -> bool, ring: nat): set<nat>
    requires Sound(f)
  {
    set n: nat | n < |pts| && pass(n) && RingOf(f, q, pts[n]) < ring
  }

  /** Those of a list that pass. */
  ghost function Passing(ns: seq<nat>, pass: nat -> bool): set<nat> { set n | n in ns && pass(n) }

  lemma RingIsSeen(f: Frame, pts: seq<Point>, q: Point, pass: nat -> bool, ring: nat, ns: seq<nat>)
    requires Sound(f) && forall n: nat :: n in ns <==> n < |pts| && RingOf(f, q, pts[n]) == ring
    ensures Seen(f, pts, q, pass, ring + 1) == Seen(f, pts, q, pass, ring) + Passing(ns, pass)
  {
    hide RingOf;
  }

  lemma OneMore(pts: seq<Point>, q: Point, s: set<nat>, b: Option<nat>, n: nat)
    requires Nearest(pts, q, s, b) && n < |pts|
    ensures Nearest(pts, q, s + {n}, if b.None? || Dist2(pts[n], q) < Dist2(pts[b.value], q) then Some(n) else b)
  {
    hide Dist2;
  }

  /** One ring's candidates against the best so far: the first of the nearest wins. */
  method Closer(pts: seq<Point>, q: Point, ns: seq<nat>, pass: nat -> bool, b0: Option<nat>, ghost s: set<nat>)
      returns (b: Option<nat>)
    requires Nearest(pts, q, s, b0) && forall n :: n in ns ==> n < |pts|
    ensures Nearest(pts, q, s + Passing(ns, pass), b)
  {
    b := b0;
    assert s + Passing(ns[..0], pass) == s;
    for i := 0 to |ns|
      invariant Nearest(pts, q, s + Passing(ns[..i], pass), b)
    {
      var n := ns[i];
      assert n in ns && ns[..i + 1] == ns[..i] + [n];
      if pass(n) {
        OneMore(pts, q, s + Passing(ns[..i], pass), b, n);
        assert s + Passing(ns[..i + 1], pass) == s + Passing(ns[..i], pass) + {n};
        if b.None? || Dist2(pts[n], q) < Dist2(pts[b.value], q) { b := Some(n); }
      } else {
        assert s + Passing(ns[..i + 1], pass) == s + Passing(ns[..i], pass);
      }
    }
    assert ns[..|ns|] == ns;
  }

  // ------------------------------------------------------------------ the nearest junction

  /** All that pass. */
  ghost function All(pts: seq<Point>, pass: nat -> bool): set<nat> { set n: nat | n < |pts| && pass(n) }

  /** A candidate nearer than anything from this ring on can be. */
  predicate Settled(cell: real, pts: seq<Point>, q: Point, b: Option<nat>, ring: nat)
    requires b.Some? ==> b.value < |pts|
  {
    b.Some? && Dist2(pts[b.value], q) < Reach2(cell, ring)
  }

  /** What the walk over the rings leaves out is farther than its last ring allows. */
  lemma UnseenIsFar(f: Frame, pts: seq<Point>, q: Point, pass: nat -> bool, ring: nat, n: nat)
    requires Sound(f) && n < |pts| && Inside(f, pts[n]) && pass(n) && n !in Seen(f, pts, q, pass, ring)
    ensures Reach2(f.cell, ring) <= Dist2(pts[n], q)
  {
    RingIsFar(f, q, pts[n], ring);
  }

  /** What the search stops with is the nearest of all, as soon as anything lies within the limit. */
  lemma StopsWithTheNearest(f: Frame, pts: seq<Point>, q: Point, pass: nat -> bool, b: Option<nat>, ring: nat,
      limit2: real)
    requires Sound(f) && forall n :: 0 <= n < |pts| ==> Inside(f, pts[n])
    requires Nearest(pts, q, Seen(f, pts, q, pass, ring), b)
    requires limit2 < Reach2(f.cell, ring) || Settled(f.cell, pts, q, b, ring)
    ensures b.Some? && Dist2(pts[b.value], q) <= limit2 ==> Nearest(pts, q, All(pts, pass), b)
    ensures b.None? || Dist2(pts[b.value], q) > limit2 ==>
              forall n :: n in All(pts, pass) ==> Dist2(pts[n], q) > limit2
  {
    hide Dist2, Reach2, RingOf, Inside;
    forall n | n in All(pts, pass) && n !in Seen(f, pts, q, pass, ring)
      ensures Reach2(f.cell, ring) <= Dist2(pts[n], q)
    {
      UnseenIsFar(f, pts, q, pass, ring, n);
    }
  }

  function Both(fits: nat -> bool, street: nat -> bool): nat -> bool { (n: nat) => fits(n) && street(n) }

  /** What NearestD promises: nothing when no fitting junction lies within maxM, else the nearest fitting
      one, unless a fitting one on a street lies within 150 m: then the nearest of those. */
  ghost predicate Snaps(pts: seq<Point>, q: Point, fits: nat -> bool, street: nat -> bool, maxM: real,
      hit: Option<nat>) {
    var fitting := set n: nat | n < |pts| && fits(n);
    var onStreet := set n: nat | n < |pts| && fits(n) && street(n);
    if forall n :: n in fitting ==> Dist2(pts[n], q) > maxM * maxM then hit.None?
    else if exists n :: n in onStreet && Dist2(pts[n], q) < 150.0 * 150.0
      then hit.Some? && Nearest(pts, q, onStreet, hit)
    else hit.Some? && Nearest(pts, q, fitting, hit)
  }

  /** NearestD: ring after ring, until what is left must be farther than the best so far. */
  method NearestD(g: Grid, pts: seq<Point>, q: Point, fits: nat -> bool, street: nat -> bool, maxM: real)
      returns (hit: Option<nat>, d2: Option<real>)
    requires Filed(g, pts) && g.frame.cell == CELL && maxM >= 0.0
    requires forall n :: 0 <= n < |pts| ==> Inside(g.frame, pts[n])
    ensures Snaps(pts, q, fits, street, maxM, hit)
    ensures hit.Some? ==> hit.value < |pts| && d2 == Some(Dist2(pts[hit.value], q))
    ensures hit.None? && d2.Some? ==> d2.value > Sq(maxM)
  {
    ghost var f := g.frame;
    var onStreet := Both(fits, street);
    var best: Option<nat>, bestStreet: Option<nat> := None, None;
    var maxRing := Whole(maxM, CELL) + 2;
    WholeIsNatural(maxM, CELL);
    var ring := 0;
    while ring <= maxRing && !Settled(CELL, pts, q, best, ring)
      invariant 0 <= ring <= maxRing + 1
      invariant Nearest(pts, q, Seen(f, pts, q, fits, ring), best)
      invariant Nearest(pts, q, Seen(f, pts, q, onStreet, ring), bestStreet)
    {
      var ns := RingMembers(g, pts, q, ring);
      best := Closer(pts, q, ns, fits, best, Seen(f, pts, q, fits, ring));
      bestStreet := Closer(pts, q, ns, onStreet, bestStreet, Seen(f, pts, q, onStreet, ring));
      RingIsSeen(f, pts, q, fits, ring, ns);
      RingIsSeen(f, pts, q, onStreet, ring, ns);
      ring := ring + 1;
    }
    SnapIsRight(f, pts, q, fits, street, maxM, ring, best, bestStreet);
    if best.Some? && Dist2(pts[best.value], q) > Sq(maxM) { return None, Some(Dist2(pts[best.value], q)); }
    if bestStreet.Some? && Dist2(pts[bestStreet.value], q) < 150.0 * 150.0 {
      return bestStreet, Some(Dist2(pts[bestStreet.value], q));
    }
    if best.None? { return None, None; }
    return best, Some(Dist2(pts[best.value], q));
  }

  lemma SnapIsRight(f: Frame, pts: seq<Point>, q: Point, fits: nat -> bool, street: nat -> bool, maxM: real, ring: nat,
                    best: Option<nat>, bestStreet: Option<nat>)
    requires Sound(f) && f.cell == CELL && maxM >= 0.0 && forall n :: 0 <= n < |pts| ==> Inside(f, pts[n])
    requires Nearest(pts, q, Seen(f, pts, q, fits, ring), best)
    requires Nearest(pts, q, Seen(f, pts, q, Both(fits, street), ring), bestStreet)
    requires ring == Whole(maxM, CELL) + 3 || Settled(CELL, pts, q, best, ring)
    ensures Snaps(pts, q, fits, street, maxM,
                  if best.None? || Dist2(pts[best.value], q) > Sq(maxM) then None
                  else if bestStreet.Some? && Dist2(pts[bestStreet.value], q) < Sq(150.0) then bestStreet else best)
    ensures best.None? ==> bestStreet.None?
  {
    hide Dist2, RingOf, Inside, Reach2, Sq, Whole;
    if !Settled(CELL, pts, q, best, ring) { EnoughRings(CELL, maxM, ring); }
    StopsWithTheNearest(f, pts, q, fits, best, ring, Sq(maxM));
    StreetsAreSeen(pts, q, maxM, ring, best);
    StopsWithTheNearest(f, pts, q, Both(fits, street), bestStreet, ring, Sq(150.0));
    assert Seen(f, pts, q, Both(fits, street), ring) <= Seen(f, pts, q, fits, ring);
    assert All(pts, fits) == set n: nat | n < |pts| && fits(n);
    assert All(pts, Both(fits, street)) == set n: nat | n < |pts| && fits(n) && street(n);
    assert Sq(maxM) == maxM * maxM && Sq(150.0) == 150.0 * 150.0 by { Squares(maxM); Squares(150.0); }
  }

  lemma Squares(r: real)
    ensures Sq(r) == r * r
  {}

  /** No search stops before the rings that hold everything within 150 m. */
  lemma StreetsAreSeen(pts: seq<Point>, q: Point, maxM: real, ring: nat, best: Option<nat>)
    requires maxM >= 0.0 && (best.Some? ==> best.value < |pts|)
    requires ring == Whole(maxM, CELL) + 3 || Settled(CELL, pts, q, best, ring)
    ensures Sq(150.0) < Reach2(CELL, ring)
  {
    WholeIsNatural(maxM, CELL);
    if best.Some? { SumOfSquares(CELL, pts[best.value].x - q.x, pts[best.value].y - q.y); }
    assert ring >= 2 by { hide Sq; }
    Reach2Monotone(CELL, 2, ring);
    assert Span(CELL, 1) == 500.0;
    assert Reach2(CELL, 2) == 250000.0;
  }

  // ------------------------------------------------------------------ the nearest place

  /** A settlement: where it is, what it is called, and how much of one it is. */
  datatype Place = Place(at: Point, name: string, rank: int)

  function Spots(refs: seq<Place>): (pts: seq<Point>)
    ensures |pts| == |refs| && forall i :: 0 <= i < |pts| ==> pts[i] == refs[i].at
  {
    seq(|refs|, i requires 0 <= i < |refs| => refs[i].at)
  }

  /** newPlaceGrid: nothing without places; else every place is where its cell says. */
  method PlaceGrid(refs: seq<Place>, cell: real) returns (pg: Option<Grid>)
    requires cell > 0.0
    ensures pg.None? <==> refs == []
    ensures pg.Some? ==> Placed(pg.value, refs)
  {
    if refs == [] { return None; }
    var pts := Spots(refs);
    var b := BoundingBox(pts);
    assert InBox(b, pts[0]);
    var g := FileAll(FrameOver(b, cell, 1), pts);
    forall n | 0 <= n < |pts| ensures Inside(g.frame, pts[n]) { BoxIsInside(b, cell, 1, pts[n]); }
    return Some(g);
  }

  ghost predicate Placed(g: Grid, refs: seq<Place>) {
    Filed(g, Spots(refs)) && forall n :: 0 <= n < |refs| ==> Inside(g.frame, Spots(refs)[n])
  }

  /** The places of at least a rank. */
  function Ranked(refs: seq<Place>, minRank: int): nat -> bool { (n: nat) => n < |refs| && refs[n].rank >= minRank }

  /** best and bestD are what the source holds when b is the nearest seen so far, none being within maxM. */
  ghost predicate Holds(refs: seq<Place>, q: Point, maxM: real, b: Option<nat>, best: string, bestD: real)
    requires b.Some? ==> b.value < |refs|
  {
    if b.Some? && Dist2(refs[b.value].at, q) < Sq(maxM)
    then best == refs[b.value].name && bestD == Dist2(refs[b.value].at, q)
    else best == "" && bestD == Sq(maxM)
  }

  method CloserPlace(refs: seq<Place>, q: Point, ns: seq<nat>, minRank: int, maxM: real, best0: string, bestD0: real,
                     ghost b0: Option<nat>, ghost s: set<nat>)
      returns (best: string, bestD: real, ghost b: Option<nat>)
    requires Nearest(Spots(refs), q, s, b0) && Holds(refs, q, maxM, b0, best0, bestD0)
    requires forall n :: n in ns ==> n < |refs|
    ensures Nearest(Spots(refs), q, s + Passing(ns, Ranked(refs, minRank)), b)
    ensures Holds(refs, q, maxM, b, best, bestD)
  {
    ghost var pts, pass := Spots(refs), Ranked(refs, minRank);
    best, bestD, b := best0, bestD0, b0;
    assert s + Passing(ns[..0], pass) == s;
    for i := 0 to |ns|
      invariant Nearest(pts, q, s + Passing(ns[..i], pass), b)
      invariant Holds(refs, q, maxM, b, best, bestD)
    {
      var n := ns[i];
      assert n in ns && ns[..i + 1] == ns[..i] + [n];
      if refs[n].rank >= minRank {
        OneMore(pts, q, s + Passing(ns[..i], pass), b, n);
        assert s + Passing(ns[..i + 1], pass) == s + Passing(ns[..i], pass) + {n};
        if b.None? || Dist2(pts[n], q) < Dist2(pts[b.value], q) { b := Some(n); }
        if Dist2(refs[n].at, q) < bestD { best, bestD := refs[n].name, Dist2(refs[n].at, q); }
      } else {
        assert s + Passing(ns[..i + 1], pass) == s + Passing(ns[..i], pass);
      }
    }
    assert ns[..|ns|] == ns;
  }

  /** What nearestXY promises: the name of a nearest place of the rank when one is strictly within maxM,
      nothing otherwise. */
  ghost predicate NamesTheNearest(refs: seq<Place>, q: Point, minRank: int, maxM: real, name: string) {
    if exists n :: n in All(Spots(refs), Ranked(refs, minRank)) && Dist2(refs[n].at, q) < Sq(maxM)
    then exists b: nat :: b < |refs| && refs[b].name == name
                          && Nearest(Spots(refs), q, All(Spots(refs), Ranked(refs, minRank)), Some(b))
    else name == ""
  }

  /** nearestXY: the same walk over the place grid, for the best name. */
  method NearestXY(pg: Option<Grid>, refs: seq<Place>, q: Point, maxM: real, minRank: int) returns (best: string)
    requires pg.Some? ==> Placed(pg.value, refs)
    requires pg.None? ==> refs == []
    requires maxM >= 0.0
    ensures NamesTheNearest(refs, q, minRank, maxM, best)
  {
    best := "";
    if pg.None? { return; }
    var g := pg.value;
    ghost var pts, pass := Spots(refs), Ranked(refs, minRank);
    var rings := Whole(maxM, g.frame.cell) + 1;
    WholeIsNatural(maxM, g.frame.cell);
    var bestD := Sq(maxM);
    ghost var b: Option<nat> := None;
    var ring := 0;
    while ring <= rings && !(best != "" && Reach2(g.frame.cell, ring) > bestD)
      invariant 0 <= ring <= rings + 1
      invariant Nearest(pts, q, Seen(g.frame, pts, q, pass, ring), b)
      invariant Holds(refs, q, maxM, b, best, bestD)
    {
      var ns := RingMembers(g, Spots(refs), q, ring);
      best, bestD, b := CloserPlace(refs, q, ns, minRank, maxM, best, bestD, b, Seen(g.frame, pts, q, pass, ring));
      RingIsSeen(g.frame, pts, q, pass, ring, ns);
      ring := ring + 1;
    }
    PlaceIsRight(g.frame, refs, q, minRank, maxM, ring, b, best, bestD);
  }

  lemma PlaceIsRight(f: Frame, refs: seq<Place>, q: Point, minRank: int, maxM: real, ring: nat,
                     b: Option<nat>, best: string, bestD: real)
    requires Sound(f) && maxM >= 0.0 && forall n :: 0 <= n < |refs| ==> Inside(f, Spots(refs)[n])
    requires Nearest(Spots(refs), q, Seen(f, Spots(refs), q, Ranked(refs, minRank), ring), b)
    requires Holds(refs, q, maxM, b, best, bestD)
    requires ring == Whole(maxM, f.cell) + 2 || (best != "" && Reach2(f.cell, ring) > bestD)
    ensures NamesTheNearest(refs, q, minRank, maxM, best)
  {
    hide Dist2, RingOf, Inside, Reach2, Sq, Whole;
    var pts := Spots(refs);
    if !Settled(f.cell, pts, q, b, ring) { EnoughRings(f.cell, maxM, ring); }
    StopsWithTheNearest(f, pts, q, Ranked(refs, minRank), b, ring, Sq(maxM));
  }
}
