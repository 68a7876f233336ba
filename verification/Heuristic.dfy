/** The bound of the search is consistent: the straight line at the fastest speed the plan still has
    never outruns a move (internal/route/search.go:355-376, modes.go:93-106, 152-243,
    load.go:213-221). Distances are given by a hypotenuse function with its defining property. */
module Heuristic {
  import opened Roads
  import opened Moves
  import opened Network

  /** math.Hypot on exact reals. */
  ghost predicate IsHypot(hyp: (real, real) -> real) {
    forall x, y :: hyp(x, y) >= 0.0 && hyp(x, y) * hyp(x, y) == x * x + y * y
  }

  function Dist(hyp: (real, real) -> real, p: Point, q: Point): real { hyp(p.x - q.x, p.y - q.y) }

  lemma ProductPositive(a: real, b: real)
    requires a > 0.0 && b > 0.0
    ensures a * b > 0.0
  {
  }

  lemma SquaresOrder(c: real, s: real)
    requires s >= 0.0 && c * c <= s * s
    ensures c <= s
  {
    assert (c - s) * (c + s) == c * c - s * s;
    if c > s && c + s > 0.0 { ProductPositive(c - s, c + s); }
  }

  lemma DotAtMostProduct(ux: real, uy: real, vx: real, vy: real, a: real, b: real)
    requires a >= 0.0 && b >= 0.0 && a * a == ux * ux + uy * uy && b * b == vx * vx + vy * vy
    ensures ux * vx + uy * vy <= a * b
  {
    var dot, cross := ux * vx + uy * vy, ux * vy - uy * vx;
    assert (a * b) * (a * b) == (a * a) * (b * b);
    Lagrange(ux, uy, vx, vy);
    assert cross * cross >= 0.0;
    SquaresOrder(dot, a * b);
  }

  lemma Lagrange(ux: real, uy: real, vx: real, vy: real)
    ensures var dot, cross := ux * vx + uy * vy, ux * vy - uy * vx;
      (ux * ux + uy * uy) * (vx * vx + vy * vy) == dot * dot + cross * cross
  {
    var a, b, c, d := ux * vx, uy * vy, ux * vy, uy * vx;
    assert a * b == c * d;
    assert (a + b) * (a + b) == a * a + 2.0 * (a * b) + b * b;
    assert (c - d) * (c - d) == c * c - 2.0 * (c * d) + d * d;
    assert (ux * ux) * (vx * vx) == a * a && (uy * uy) * (vy * vy) == b * b;
    assert (ux * ux) * (vy * vy) == c * c && (uy * uy) * (vx * vx) == d * d;
  }

  lemma Triangle(hyp: (real, real) -> real, p: Point, q: Point, r: Point)
    requires IsHypot(hyp)
    ensures Dist(hyp, p, r) <= Dist(hyp, p, q) + Dist(hyp, q, r)
  {
    var ux, uy, vx, vy := p.x - q.x, p.y - q.y, q.x - r.x, q.y - r.y;
    var a, b, c := Dist(hyp, p, q), Dist(hyp, q, r), Dist(hyp, p, r);
    DotAtMostProduct(ux, uy, vx, vy, a, b);
    assert p.x - r.x == ux + vx && p.y - r.y == uy + vy;
    SumOfSquares(ux, uy, vx, vy, a, b, c);
    SquaresOrder(c, a + b);
  }

  lemma SumOfSquares(ux: real, uy: real, vx: real, vy: real, a: real, b: real, c: real)
    requires a * a == ux * ux + uy * uy && b * b == vx * vx + vy * vy
    requires c * c == (ux + vx) * (ux + vx) + (uy + vy) * (uy + vy)
    requires ux * vx + uy * vy <= a * b
    ensures c * c <= (a + b) * (a + b)
  {
    assert c * c == a * a + b * b + 2.0 * (ux * vx + uy * vy);
    assert (a + b) * (a + b) == a * a + b * b + 2.0 * (a * b);
  }

  lemma DistSelf(hyp: (real, real) -> real, p: Point)
    requires IsHypot(hyp)
    ensures Dist(hyp, p, p) == 0.0
  {
    SquaresOrder(Dist(hyp, p, p), 0.0);
  }

  lemma DistSymmetric(hyp: (real, real) -> real, p: Point, q: Point)
    requires IsHypot(hyp)
    ensures Dist(hyp, p, q) == Dist(hyp, q, p)
  {
    var c, d := Dist(hyp, p, q), Dist(hyp, q, p);
    assert (p.x - q.x) * (p.x - q.x) == (q.x - p.x) * (q.x - p.x);
    assert (p.y - q.y) * (p.y - q.y) == (q.y - p.y) * (q.y - p.y);
    SquaresOrder(c, d);
    SquaresOrder(d, c);
  }

  /** The length Load gives a stretch: the arc length of its polyline. */
  ghost function Length(hyp: (real, real) -> real, pts: seq<Point>): real {
    if |pts| < 2 then 0.0 else Length(hyp, pts[..|pts| - 1]) + Dist(hyp, pts[|pts| - 2], pts[|pts| - 1])
  }

  /** A line is at least as long as its chord. */
  lemma {:induction false} LengthAtLeastChord(hyp: (real, real) -> real, pts: seq<Point>)
    requires IsHypot(hyp) && |pts| >= 1
    ensures Length(hyp, pts) >= Dist(hyp, pts[0], pts[|pts| - 1])
  {
    if |pts| == 1 {
      DistSelf(hyp, pts[0]);
    } else {
      LengthAtLeastChord(hyp, pts[..|pts| - 1]);
      Triangle(hyp, pts[0], pts[|pts| - 2], pts[|pts| - 1]);
    }
  }

  // ------------------------------------------------------------------ no move outruns its mode

  lemma CarNoFaster(st: Stretch)
    requires st.len >= 0.0
    ensures st.len / Limit(st.cls) >= st.len / TopSpeed(Car)
  {
    DivideBySlower(st.len, Limit(st.cls), TopSpeed(Car));
  }

  lemma DivideBySlower(len: real, slow: real, fast: real)
    requires len >= 0.0 && 0.0 < slow <= fast
    ensures len / slow >= len / fast
  {
    var a, b := len / slow, len / fast;
    assert a * slow == len && b * fast == len;
    assert (a - b) * slow == b * (fast - slow);
    assert b * (fast - slow) >= 0.0;
    assert a < b ==> (a - b) * slow < 0.0;
  }

  lemma BikeSpeedBounded(base: real, slope: real)
    requires 8.0 <= base <= 16.0 && -0.3 <= slope <= 0.3
    ensures 0.0 < BikeSpeed(base, slope) <= 40.0
  {
    if slope > 0.0 {
      DivideBySlower(base, 1.0, 1.0 + 12.0 * slope);
    }
  }

  lemma BikeNoFaster(st: Stretch, climb: real)
    requires st.len >= 0.0
    ensures BikeFactor(st) * st.len / (BikeSpeed(BikeBase(st.cls), BikeSlope(climb, st.len)) / 3.6)
         >= st.len / TopSpeed(Bike)
  {
    var v := BikeSpeed(BikeBase(st.cls), BikeSlope(climb, st.len));
    BikeSpeedBounded(BikeBase(st.cls), BikeSlope(climb, st.len));
    var f := BikeFactor(st);
    assert f >= 1.0;
    assert f * st.len >= st.len by { assert (f - 1.0) * st.len >= 0.0; }
    DivideBySlower(st.len, v / 3.6, TopSpeed(Bike));
    NumeratorOrder(st.len, f * st.len, v / 3.6);
  }

  lemma NumeratorOrder(a: real, b: real, v: real)
    requires a <= b && v > 0.0
    ensures a / v <= b / v
  {
    var x, y := a / v, b / v;
    assert x * v == a && y * v == b;
    assert x > y ==> (x - y) * v > 0.0;
  }

  lemma HikeNoFaster(st: Stretch, up: real, down: real, marked: bool)
    requires st.len >= 0.0 && up >= 0.0 && down >= 0.0
    ensures HikeBase(st.len, up, down) * HikeFactor(st, marked) >= st.len / TopSpeed(Hike)
  {
    FlatPace(st.len, up, down);
    var t, f := HikeBase(st.len, up, down), HikeFactor(st, marked);
    assert f >= 0.9;
    hide HikeBase, HikeFactor;
    assert t * (f - 0.9) >= 0.0;
    assert t * f == t * (f - 0.9) + t * 0.9;
  }

  /** Before its factors the walking rule gives at least four kilometres an hour. */
  lemma FlatPace(len: real, up: real, down: real)
    requires len >= 0.0 && up >= 0.0 && down >= 0.0
    ensures HikeBase(len, up, down) >= 0.9 * len >= 0.0
  {
    DivideBySlower(up, 400.0 / 3600.0, 1.0);
    DivideBySlower(down, 800.0 / 3600.0, 1.0);
  }

  /** The seconds of any stretch, in any mode and either direction, are at least its length at that
      mode's top speed, as long as climb and descent are not negative. */
  lemma WeightIsHonest(m: Mode, st: Stretch, rev: bool, marked: bool)
    requires st.len >= 0.0 && st.up >= 0.0 && st.down >= 0.0
    ensures Weight(m, st, rev, marked) >= st.len / TopSpeed(m)
  {
    hide BikeFactor, BikeSpeed, BikeBase, BikeSlope, HikeBase, HikeFactor, Limit, TopSpeed;
    match m
    case Car => CarNoFaster(st);
    case Bike => BikeNoFaster(st, if rev then st.down - st.up else st.up - st.down);
    case Hike => HikeNoFaster(st, if rev then st.down else st.up, if rev then st.up else st.down, marked);
  }

  /** A ride is no faster than liftFastest exactly when its published duration, if it has one, is
      believable: the bound does not survive a quicker one. */
  lemma RideIsHonest(st: Stretch)
    requires st.len >= 0.0
    ensures LiftCost(st) >= st.len / LIFT_FASTEST
       <==> (st.liftDur > 0.0 ==> st.liftDur + LIFT_BOARD >= st.len / LIFT_FASTEST)
  {
    if st.liftDur <= 0.0 { DivideBySlower(st.len, LiftSpeed(st.liftKind), LIFT_FASTEST); }
  }

  // ------------------------------------------------------------------ the bound

  function Vmax(plan: seq<Mode>): real {
    if |plan| == 0 then 0.0 else Max(Vmax(plan[..|plan| - 1]), TopSpeed(plan[|plan| - 1]))
  }

  /** vrest: the top speed of the plan from a mode's last occurrence on; 0 for a mode not in it. */
  function Vrest(plan: seq<Mode>, m: Mode): real {
    if |plan| == 0 then 0.0
    else if m in plan[1..] then Vrest(plan[1..], m)
    else if plan[0] == m then Vmax(plan)
    else 0.0
  }

  function Speed(plan: seq<Mode>, lifts: bool, m: Mode): real {
    var v := if Vrest(plan, m) <= 0.0 then Vmax(plan) else Vrest(plan, m);
    if lifts && v < LIFT_FASTEST then LIFT_FASTEST else v
  }

  function Bound(g: Graph, hyp: (real, real) -> real, q: Query, to: nat, s: State): real
    requires to < |g.pos|
  {
    if s.node < |g.pos| && Speed(q.plan, q.lifts, s.mode) > 0.0
    then Dist(hyp, g.pos[s.node], g.pos[to]) / Speed(q.plan, q.lifts, s.mode)
    else 0.0
  }

  /** Each mode once: what ValidMode accepts. */
  predicate Distinct(plan: seq<Mode>) { forall i, j :: 0 <= i < j < |plan| ==> plan[i] != plan[j] }

  lemma {:induction false} VmaxCovers(plan: seq<Mode>)
    ensures forall m :: m in plan ==> TopSpeed(m) <= Vmax(plan)
    ensures Vmax(plan) >= 0.0 && (|plan| > 0 ==> exists m :: m in plan && Vmax(plan) == TopSpeed(m))
  {
    if |plan| > 0 {
      var front := plan[..|plan| - 1];
      VmaxCovers(front);
      if |front| > 0 {
        var m :| m in front && Vmax(front) == TopSpeed(m);
        assert m in plan;
      }
      assert plan[|plan| - 1] in plan;
    }
  }

  lemma VmaxOfMore(small: seq<Mode>, large: seq<Mode>)
    requires forall m :: m in small ==> m in large
    ensures Vmax(small) <= Vmax(large)
  {
    VmaxCovers(small);
    VmaxCovers(large);
  }

  /** What is left of the plan is at least as fast as the mode itself and as any mode to come. */
  lemma {:induction false} VrestCovers(plan: seq<Mode>, m: Mode)
    requires m in plan
    ensures TopSpeed(m) <= Vrest(plan, m) <= Vmax(plan)
  {
    VmaxCovers(plan);
    if m in plan[1..] {
      VrestCovers(plan[1..], m);
      VmaxOfMore(plan[1..], plan);
    }
  }

  lemma {:induction false} VrestFalls(plan: seq<Mode>, m: Mode, nm: Mode)
    requires Distinct(plan) && Next(plan, m) == Some(nm)
    ensures Vrest(plan, nm) <= Vrest(plan, m)
  {
    assert Distinct(plan[1..]);
    if Next(plan[1..], m).Some? {
      VrestFalls(plan[1..], m, nm);
      assert m in plan[1..] && nm in plan[1..];
    } else {
      assert plan[0] == m && plan[1] == nm;
      assert plan[1..][0] == nm;
      VrestCovers(plan[1..], nm);
      VmaxOfMore(plan[1..], plan);
    }
  }

  /** The speeds that bound each mode: 27.7 m/s in a car, 40 km/h on a bicycle, 6 km/h on foot. */
  function FullSpeed(m: Mode): real { match m case Car => 27.7 case Bike => 100.0 / 9.0 case Hike => 5.0 / 3.0 }

  lemma {:induction false} VrestIsOfTheRest(plan: seq<Mode>, i: nat)
    requires Distinct(plan) && i < |plan|
    ensures Vrest(plan, plan[i]) == Vmax(plan[i..])
  {
    assert Distinct(plan[1..]);
    if i == 0 {
      assert plan[0] !in plan[1..] && plan[0..] == plan;
    } else {
      assert plan[1..][i - 1] == plan[i] && plan[1..][i - 1..] == plan[i..];
      VrestIsOfTheRest(plan[1..], i - 1);
    }
  }

  lemma FastestOfAll(plan: seq<Mode>)
    requires |plan| > 0
    ensures forall k :: 0 <= k < |plan| ==> FullSpeed(plan[k]) <= Vmax(plan)
    ensures exists k :: 0 <= k < |plan| && Vmax(plan) == FullSpeed(plan[k])
  {
    VmaxCovers(plan);
    var m :| m in plan && Vmax(plan) == TopSpeed(m);
    var j :| 0 <= j < |plan| && plan[j] == m;
    assert forall x: Mode :: TopSpeed(x) == FullSpeed(x);
    hide Vmax, TopSpeed, FullSpeed;
    forall k | 0 <= k < |plan| ensures FullSpeed(plan[k]) <= Vmax(plan) { assert plan[k] in plan; }
    assert Vmax(plan) == FullSpeed(plan[j]);
  }

  /** The speed assumed in a mode is that of the fastest from it on, or the ten metres a second of a lift where one
      may be ridden and nothing left is faster. */
  lemma SpeedIsTheFastestLeft(plan: seq<Mode>, lifts: bool, i: nat)
    requires Distinct(plan) && i < |plan|
    ensures var v := Speed(plan, lifts, plan[i]);
      && v > 0.0 && (forall k :: i <= k < |plan| ==> FullSpeed(plan[k]) <= v) && (lifts ==> 10.0 <= v)
      && ((lifts && v == 10.0) || exists k :: i <= k < |plan| && v == FullSpeed(plan[k]))
  {
    var rest := plan[i..];
    VrestIsOfTheRest(plan, i);
    FastestOfAll(rest);
    SpeedCovers(plan, lifts, plan[i]);
    VrestCovers(plan, plan[i]);
    assert TopSpeed(plan[i]) > 0.0;
    hide Vrest, Vmax, TopSpeed, FullSpeed;
    var j :| 0 <= j < |rest| && Vmax(rest) == FullSpeed(rest[j]);
    assert rest[j] == plan[i + j];
    forall k | i <= k < |plan| ensures FullSpeed(plan[k]) <= Vmax(rest) { assert rest[k - i] == plan[k]; }
  }

  /** The bound is the straight line at that speed. */
  lemma BoundIsTheLineAtFullSpeed(g: Graph, hyp: (real, real) -> real, q: Query, to: nat, s: State)
    requires s.mode in q.plan && s.node < |g.pos| && to < |g.pos|
    ensures Bound(g, hyp, q, to, s) * Speed(q.plan, q.lifts, s.mode) == Dist(hyp, g.pos[s.node], g.pos[to])
  {
    SpeedCovers(q.plan, q.lifts, s.mode);
    hide Speed, TopSpeed, Dist;
  }

  /** What the map owes the bound: no negative climb, lengths no shorter than their chords, and no
      published ride quicker than the quickest lift. */
  ghost predicate Sane(g: Graph, hyp: (real, real) -> real) {
    InRange(|g.pos|, g.stretches) &&
    forall i :: 0 <= i < |g.stretches| ==>
      var st := g.stretches[i];
      && st.up >= 0.0 && st.down >= 0.0
      && st.len >= Dist(hyp, g.pos[st.a], g.pos[st.b])
      && (st.cls.LiftLine? && st.liftDur > 0.0 ==> st.liftDur + LIFT_BOARD >= st.len / LIFT_FASTEST)
  }

  /** A move from one junction to another takes at least the chord between them at v. */
  lemma ChordBound(hyp: (real, real) -> real, p: Point, q: Point, to: Point, len: real, w: real, v: real)
    requires IsHypot(hyp) && v > 0.0 && len >= Dist(hyp, p, q) && w >= len / v
    ensures Dist(hyp, p, to) / v <= w + Dist(hyp, q, to) / v
  {
    Triangle(hyp, p, q, to);
    var a, b := Dist(hyp, p, to), Dist(hyp, q, to);
    NumeratorOrder(a, len + b, v);
    assert (len + b) / v == len / v + b / v;
  }

  lemma AlongEnds(g: Graph, base: nat, near: nat -> Option<Landing>, m: Mode, v: nat, e: Edge)
    requires Built(g, base, near) && v < g.n && e in g.Adj(m)[v]
    ensures e.st < |g.stretches| && e.to < g.n
    ensures var st := g.stretches[e.st];
      && st.len > 0.0 && e.w == Weight(m, st, e.rev, st.marked)
      && ((st.a == v && st.b == e.to) || (st.b == v && st.a == e.to))
  {
    ArcIsOfItsStretch(m, g.stretches[..base], Arc(v, e));
  }

  lemma SameEnds(g: Graph, hyp: (real, real) -> real, v: nat, e: Edge)
    requires IsHypot(hyp) && Sane(g, hyp) && e.st < |g.stretches| && v < |g.pos| && e.to < |g.pos|
    requires var st := g.stretches[e.st]; (st.a == v && st.b == e.to) || (st.b == v && st.a == e.to)
    ensures g.stretches[e.st].len >= Dist(hyp, g.pos[v], g.pos[e.to])
  {
    DistSymmetric(hyp, g.pos[v], g.pos[e.to]);
  }

  lemma SpeedCovers(plan: seq<Mode>, lifts: bool, m: Mode)
    requires m in plan
    ensures 0.0 < TopSpeed(m) <= Speed(plan, lifts, m) && (lifts ==> LIFT_FASTEST <= Speed(plan, lifts, m))
  {
    VrestCovers(plan, m);
  }

  lemma SpeedFalls(plan: seq<Mode>, lifts: bool, m: Mode, nm: Mode)
    requires Distinct(plan) && Next(plan, m) == Some(nm)
    ensures Speed(plan, lifts, nm) <= Speed(plan, lifts, m)
  {
    VrestCovers(plan, m);
    VrestCovers(plan, nm);
    VrestFalls(plan, m, nm);
  }

  lemma AlongIsBounded(g: Graph, base: nat, near: nat -> Option<Landing>, hyp: (real, real) -> real, m: Mode, v: nat,
      e: Edge, to: nat, top: real)
    requires Built(g, base, near) && IsHypot(hyp) && Sane(g, hyp) && v < g.n && to < g.n && e in g.Adj(m)[v]
             && top >= TopSpeed(m)
    ensures e.to < g.n && Dist(hyp, g.pos[v], g.pos[to]) / top <= e.w + Dist(hyp, g.pos[e.to], g.pos[to]) / top
  {
    AlongEnds(g, base, near, m, v, e);
    var st := g.stretches[e.st];
    WeightIsHonest(m, st, e.rev, st.marked);
    DivideBySlower(st.len, TopSpeed(m), top);
    SameEnds(g, hyp, v, e);
    ChordBound(hyp, g.pos[v], g.pos[e.to], g.pos[to], st.len, e.w, top);
  }

  lemma BoardIsBounded(g: Graph, base: nat, near: nat -> Option<Landing>, hyp: (real, real) -> real, v: nat, e: Edge,
      to: nat, top: real)
    requires Built(g, base, near) && IsHypot(hyp) && Sane(g, hyp) && v < g.n && to < g.n && e in g.lift[v]
             && top >= LIFT_FASTEST
    ensures e.to < g.n && Dist(hyp, g.pos[v], g.pos[to]) / top <= e.w + Dist(hyp, g.pos[e.to], g.pos[to]) / top
  {
    assert IsLiftArc(g.stretches, base, Arc(v, e));
    var st := g.stretches[e.st];
    if e.st < base {
      RideIsHonest(st);
      DivideBySlower(st.len, LIFT_FASTEST, top);
    } else {
      WeightIsHonest(Hike, st, false, false);
      DivideBySlower(st.len, TopSpeed(Hike), top);
    }
    SameEnds(g, hyp, v, e);
    ChordBound(hyp, g.pos[v], g.pos[e.to], g.pos[to], st.len, e.w, top);
  }

  /** The bound of searchSeg is consistent on every graph Build makes of a sane map. */
  lemma BoundIsConsistent(g: Graph, base: nat, near: nat -> Option<Landing>, hyp: (real, real) -> real, q: Query,
      to: nat)
    requires g.Valid() && Built(g, base, near) && IsHypot(hyp) && Sane(g, hyp) && Distinct(q.plan) && to < g.n
    ensures Consistent(g, q, to, s => if to < |g.pos| then Bound(g, hyp, q, to, s) else 0.0)
  {
    var h := s => if to < |g.pos| then Bound(g, hyp, q, to, s) else 0.0;
    forall m: Mode ensures h(State(to, m)) == 0.0 { DistSelf(hyp, g.pos[to]); }
    forall s, mv | Legal(g, q, s, mv) ensures h(s) <= BaseTime(mv) + h(Target(s, mv)) {
      SpeedCovers(q.plan, q.lifts, s.mode);
      var top := Speed(q.plan, q.lifts, s.mode);
      match mv
      case Along(e) => AlongIsBounded(g, base, near, hyp, s.mode, s.node, e, to, top);
      case Board(e) => BoardIsBounded(g, base, near, hyp, s.node, e, to, top);
      case Park(nm) =>
        SpeedCovers(q.plan, q.lifts, nm);
        SpeedFalls(q.plan, q.lifts, s.mode, nm);
        DivideBySlower(Dist(hyp, g.pos[s.node], g.pos[to]), Speed(q.plan, q.lifts, nm), top);
    }
  }

  /** An edge of a mode's adjacency stays on the map and has a weight. */
  lemma WayIsValid(g: Graph, base: nat, near: nat -> Option<Landing>, hyp: (real, real) -> real, m: Mode, v: nat,
      e: Edge)
    requires Built(g, base, near) && Sane(g, hyp) && v < g.n && e in g.Adj(m)[v]
    ensures e.to < g.n && e.st < |g.stretches| && e.w >= 0.0
  {
    AlongEnds(g, base, near, m, v, e);
    var st := g.stretches[e.st];
    WeightIsHonest(m, st, e.rev, st.marked);
    hide Weight;
    assert st.len / TopSpeed(m) >= 0.0;
  }

  /** And so does one of the lift layer. */
  lemma LiftIsValid(g: Graph, base: nat, near: nat -> Option<Landing>, hyp: (real, real) -> real, v: nat, e: Edge)
    requires Built(g, base, near) && IsHypot(hyp) && Sane(g, hyp) && v < g.n && e in g.lift[v]
    ensures e.to < g.n && e.st < |g.stretches| && e.w >= 0.0
  {
    hide Weight, LiftCost, Links;
    assert IsLiftArc(g.stretches, base, Arc(v, e));
    var st := g.stretches[e.st];
    assert st.len >= Dist(hyp, g.pos[st.a], g.pos[st.b]) >= 0.0;
    WeightIsHonest(Hike, st, false, false);
    assert st.len / TopSpeed(Hike) >= 0.0 && st.len / LIFT_FASTEST >= 0.0;
    if st.cls.LiftLine? { RideIsHonest(st); }
  }

  /** A built graph of a sane map is one the search accepts. */
  lemma BuiltIsValid(g: Graph, base: nat, near: nat -> Option<Landing>, hyp: (real, real) -> real)
    requires Built(g, base, near) && IsHypot(hyp) && Sane(g, hyp)
    ensures g.Valid()
  {
    assert |g.car| == |g.bike| == |g.hike| == |g.lift| == g.n && InRange(g.n, g.stretches);
    forall m: Mode, v, k | 0 <= v < g.n && 0 <= k < |g.Adj(m)[v]|
      ensures var e := g.Adj(m)[v][k]; e.to < g.n && e.st < |g.stretches| && e.w >= 0.0
    {
      WayIsValid(g, base, near, hyp, m, v, g.Adj(m)[v][k]);
    }
    forall v, k | 0 <= v < g.n && 0 <= k < |g.lift[v]|
      ensures var e := g.lift[v][k]; e.to < g.n && e.st < |g.stretches| && e.w >= 0.0
    {
      LiftIsValid(g, base, near, hyp, v, g.lift[v][k]);
    }
    hide Built, Sane;
    assert forall v, k :: 0 <= v < g.n && 0 <= k < |g.car[v]| ==> g.Adj(Car)[v][k] == g.car[v][k];
    assert forall v, k :: 0 <= v < g.n && 0 <= k < |g.bike[v]| ==> g.Adj(Bike)[v][k] == g.bike[v][k];
    assert forall v, k :: 0 <= v < g.n && 0 <= k < |g.hike[v]| ==> g.Adj(Hike)[v][k] == g.hike[v][k];
  }

  /** The links the lifts add are as sane as the map they are added to, when the snap measures the
      distance it reports. */
  lemma LinksAreSane(g: Graph, base: nat, near: nat -> Option<Landing>, hyp: (real, real) -> real)
    requires Built(g, base, near) && IsHypot(hyp) && Sane(g.(stretches := g.stretches[..base]), hyp)
    requires forall v: nat :: v < g.n && near(v).Some? ==>
               near(v).value.node < g.n && near(v).value.d == Dist(hyp, g.pos[v], g.pos[near(v).value.node])
    ensures Sane(g, hyp)
  {
    forall i | 0 <= i < |g.stretches|
      ensures var st := g.stretches[i];
        && st.up >= 0.0 && st.down >= 0.0
        && st.len >= Dist(hyp, g.pos[st.a], g.pos[st.b])
        && (st.cls.LiftLine? && st.liftDur > 0.0 ==> st.liftDur + LIFT_BOARD >= st.len / LIFT_FASTEST)
    {
      if i < base {
        assert g.stretches[..base][i] == g.stretches[i];
      } else {
        LinksAreLinks(near, g.stretches[..base], g.stretches[i]);
      }
    }
  }
}
