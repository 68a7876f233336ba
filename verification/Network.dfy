/** The graph of a region: one adjacency per mode and the lift layer, packed by counting
    (internal/route/graph.go:207-340, 344-458). */
module Network {
  import opened Roads
  import Csr

  /** A directed edge and the junction it leaves. */
  datatype Arc = Arc(from: nat, e: Edge)

  /** The directed edges one stretch gives a mode: a one-way is for wheels, feet go both ways. */
  function ArcsOf(m: Mode, st: Stretch, i: nat): seq<Arc> {
    if st.len <= 0.0 || !Usable(m, st) then []
    else
      [Arc(st.a, Edge(st.b, i, Weight(m, st, false, st.marked), false))]
      + (if !st.one || m.Hike? then [Arc(st.b, Edge(st.a, i, Weight(m, st, true, st.marked), true))] else [])
  }

  function Arcs(m: Mode, sts: seq<Stretch>): seq<Arc> {
    if |sts| == 0 then []
    else Arcs(m, sts[..|sts| - 1]) + ArcsOf(m, sts[|sts| - 1], |sts| - 1)
  }

  lemma ArcsOfOne(m: Mode, st: Stretch, i: nat, a: Arc)
    ensures a in ArcsOf(m, st, i) ==> a.e.st == i
  {}

  lemma {:induction false} ArcIsOfItsStretch(m: Mode, sts: seq<Stretch>, a: Arc)
    ensures a in Arcs(m, sts) <==> a.e.st < |sts| && a in ArcsOf(m, sts[a.e.st], a.e.st)
  {
    hide ArcsOf;
    if |sts| > 0 {
      var front := sts[..|sts| - 1];
      ArcIsOfItsStretch(m, front, a);
      ArcsOfOne(m, sts[|sts| - 1], |sts| - 1, a);
      if a.e.st < |front| { assert front[a.e.st] == sts[a.e.st]; }
    }
  }

  /** The rides of one aerialway: both ways, unless it only runs uphill. */
  function RideArcs(st: Stretch, i: nat): seq<Arc> {
    (if !st.uphillOnly || st.rises then [Arc(st.a, Edge(st.b, i, LiftCost(st), false))] else [])
    + (if !st.uphillOnly || !st.rises then [Arc(st.b, Edge(st.a, i, LiftCost(st), true))] else [])
  }

  /** The short walk that joins a station to the footpaths; rise is how much higher the path stands. */
  function Link(station: nat, path: nat, d: real, rise: real): Stretch {
    Stretch(d, station, path, Path, false, Max(rise, 0.0), Max(-rise, 0.0), 0, false, false, -1, 0, 1,
            false, false, 0, 0.0, OtherLift, false, false, "")
  }

  function LinkArcs(st: Stretch, i: nat): seq<Arc> {
    var w := Weight(Hike, st, false, false);
    [Arc(st.a, Edge(st.b, i, w, false)), Arc(st.b, Edge(st.a, i, w, true))]
  }

  /** What the search for the nearest walking junction answers for a station: the junction, its
      distance, and how much higher it stands. */
  datatype Landing = Landing(node: nat, d: real, rise: real)

  /** The link of a station: to where the snap landed, if that is another junction no more than 100 m away. */
  function LinkAt(near: nat -> Option<Landing>, v: nat): seq<Stretch> {
    var hit := near(v);
    if hit.None? || hit.value.d > 100.0 || hit.value.node == v then []
    else [Link(v, hit.value.node, hit.value.d, hit.value.rise)]
  }

  predicate Rides(st: Stretch) { st.cls.LiftLine? && st.len > 0.0 }

  /** The stretches the lifts add, in their order: a link for each end of every lift that has one. */
  function Links(near: nat -> Option<Landing>, base: seq<Stretch>): seq<Stretch> {
    if |base| == 0 then []
    else
      var st := base[|base| - 1];
      Links(near, base[..|base| - 1]) + (if Rides(st) then LinkAt(near, st.a) + LinkAt(near, st.b) else [])
  }

  /** A stretch the lifts added: from a station to where the snap landed, no more than 100 m away. */
  ghost predicate IsLink(near: nat -> Option<Landing>, st: Stretch) { LinkAt(near, st.a) == [st] }

  lemma LinksOfOne(near: nat -> Option<Landing>, last: Stretch, st: Stretch)
    ensures st in LinkAt(near, last.a) + LinkAt(near, last.b) <==> IsLink(near, st) && st.a in {last.a, last.b}
  {}

  lemma {:induction false} LinksAreLinks(near: nat -> Option<Landing>, base: seq<Stretch>, st: Stretch)
    ensures st in Links(near, base) <==>
              IsLink(near, st) && exists i :: 0 <= i < |base| && Rides(base[i]) && st.a in {base[i].a, base[i].b}
  {
    hide LinkAt, Rides, IsLink;
    if |base| > 0 {
      var front, last := base[..|base| - 1], base[|base| - 1];
      LinksAreLinks(near, front, st);
      LinksOfOne(near, last, st);
      if i :| 0 <= i < |front| && Rides(front[i]) && st.a in {front[i].a, front[i].b} { assert base[i] == front[i]; }
      if i :| 0 <= i < |base| && Rides(base[i]) && st.a in {base[i].a, base[i].b} {
        if i < |front| { assert front[i] == base[i]; }
      }
    }
  }

  /** An arc of the lift layer: a ride of one of the map's lifts at its cost, or a link the lifts added,
      at a walker's pace. */
  predicate IsLiftArc(sts: seq<Stretch>, base: nat, a: Arc) {
    a.e.st < |sts| &&
    if a.e.st < base then Rides(sts[a.e.st]) && a in RideArcs(sts[a.e.st], a.e.st)
        else a in LinkArcs(sts[a.e.st], a.e.st)
  }

  ghost predicate InRange(n: nat, sts: seq<Stretch>) {
    forall i :: 0 <= i < |sts| ==> sts[i].a < n && sts[i].b < n
  }

  /** Where the loop over the lifts stands after the first k stretches. */
  ghost predicate Lifted(near: nat -> Option<Landing>, base: seq<Stretch>, k: nat, sts: seq<Stretch>, arcs: seq<Arc>)
    requires k <= |base|
  {
    && sts == base + Links(near, base[..k])
    && forall a :: a in arcs <==> IsLiftArc(sts, |base|, a) && (a.e.st < |base| ==> a.e.st < k)
  }

  /** The lift layer: every ride, and a link from each of its ends to the junction the snap found
      within a hundred metres, and nothing else. The links are appended to the stretches. */
  method BuildLifts(n: nat, base: seq<Stretch>, near: nat -> Option<Landing>)
      returns (sts: seq<Stretch>, arcs: seq<Arc>)
    requires InRange(n, base) && forall v :: near(v).Some? ==> near(v).value.node < n
    ensures sts == base + Links(near, base) && InRange(n, sts)
    ensures forall a :: a in arcs <==> IsLiftArc(sts, |base|, a)
  {
    sts, arcs := base, [];
    for k := 0 to |base|
      invariant InRange(n, sts) && Lifted(near, base, k, sts, arcs)
    {
      ghost var sts0, arcs0 := sts, arcs;
      var st := base[k];
      if Rides(st) {
        arcs := arcs + RideArcs(st, k);
        sts, arcs := AddLink(n, |base|, sts, arcs, st.a, near);
        sts, arcs := AddLink(n, |base|, sts, arcs, st.b, near);
      }
      OneLiftMore(near, base, k, sts0, arcs0, sts, arcs);
    }
    assert base[..|base|] == base;
  }

  /** An arc of what is already there, or one of the links after n. */
  ghost predicate Grown(sts0: seq<Stretch>, arcs0: seq<Arc>, sts: seq<Stretch>, arcs: seq<Arc>) {
    && sts0 <= sts
    && forall a :: a in arcs <==> a in arcs0 || (|sts0| <= a.e.st < |sts| && a in LinkArcs(sts[a.e.st], a.e.st))
  }

  lemma OneLiftMore(near: nat -> Option<Landing>, base: seq<Stretch>, k: nat, sts0: seq<Stretch>, arcs0: seq<Arc>,
                    sts: seq<Stretch>, arcs: seq<Arc>)
    requires k < |base| && Lifted(near, base, k, sts0, arcs0)
    requires if Rides(base[k]) then
               && sts == sts0 + LinkAt(near, base[k].a) + LinkAt(near, base[k].b)
               && Grown(sts0, arcs0 + RideArcs(base[k], k), sts, arcs)
             else sts == sts0 && arcs == arcs0
    ensures Lifted(near, base, k + 1, sts, arcs)
  {
    hide LinkAt, LinkArcs, Rides;
    assert base[..k + 1][..k] == base[..k];
    assert sts == base + Links(near, base[..k + 1]);
    forall a ensures a in arcs <==> IsLiftArc(sts, |base|, a) && (a.e.st < |base| ==> a.e.st < k + 1) {
      assert a.e.st < |sts0| ==> sts[a.e.st] == sts0[a.e.st];
      assert a in RideArcs(base[k], k) ==> a.e.st == k;
    }
  }

  /** The two link edges of one end, if it has a link. */
  method AddLink(n: nat, ghost base: nat, sts0: seq<Stretch>, arcs0: seq<Arc>, v: nat, near: nat -> Option<Landing>)
      returns (sts: seq<Stretch>, arcs: seq<Arc>)
    requires InRange(n, sts0) && v < n && base <= |sts0| && (near(v).Some? ==> near(v).value.node < n)
    ensures InRange(n, sts) && sts == sts0 + LinkAt(near, v) && Grown(sts0, arcs0, sts, arcs)
  {
    sts, arcs := sts0, arcs0;
    var hit := near(v);
    if hit.Some? && hit.value.d <= 100.0 && hit.value.node != v {
      sts := sts0 + [Link(v, hit.value.node, hit.value.d, hit.value.rise)];
      arcs := arcs0 + LinkArcs(sts[|sts0|], |sts0|);
    }
  }

  /** Every layer holds exactly the arcs it should, under the junction each leaves; base is how many
      of the stretches the map declared, near where the stations' links land. */
  ghost predicate Built(g: Graph, base: nat, near: nat -> Option<Landing>) {
    && base <= |g.stretches| && |g.pos| == g.n && InRange(g.n, g.stretches)
    && g.stretches == g.stretches[..base] + Links(near, g.stretches[..base])
    && |g.car| == |g.bike| == |g.hike| == |g.lift| == g.n
    && (forall m: Mode, v, e :: 0 <= v < g.n ==>
          (e in g.Adj(m)[v] <==> Arc(v, e) in Arcs(m, g.stretches[..base])))
    && (forall v, e :: 0 <= v < g.n ==> (e in g.lift[v] <==> IsLiftArc(g.stretches, base, Arc(v, e))))
  }

  // ------------------------------------------------------------------ the edges, said of the stretches themselves

  /** The edge runs along its stretch: from a to b, or turned around. */
  predicate RunsAlong(st: Stretch, v: nat, e: Edge) {
    if e.rev then v == st.b && e.to == st.a else v == st.a && e.to == st.b
  }

  /** A mode may leave v on this edge: along a stretch that has a length and that the mode may use, one-ways
      against their direction on foot only. */
  predicate IsWay(base: seq<Stretch>, m: Mode, v: nat, e: Edge) {
    && e.st < |base| && base[e.st].len > 0.0 && Usable(m, base[e.st])
    && RunsAlong(base[e.st], v, e) && e.w == Weight(m, base[e.st], e.rev, base[e.st].marked)
    && (e.rev && base[e.st].one ==> m == Hike)
  }

  /** Seconds a metre of a ride without a published duration. */
  function Pace(k: LiftKind): real {
    match k
    case CableCar => 0.1
    case Gondola => 0.2
    case ChairLift => 0.4
    case MixedLift => 0.25
    case OtherLift => 0.25
  }

  /** A lift is ridden on this edge: five minutes of boarding and the ride, and where it only runs uphill, towards
      the end that is not the lower one. */
  predicate IsRide(base: seq<Stretch>, v: nat, e: Edge) {
    && e.st < |base| && base[e.st].cls == LiftLine && base[e.st].len > 0.0 && RunsAlong(base[e.st], v, e)
    && e.w == 300.0 + (if base[e.st].liftDur > 0.0 then base[e.st].liftDur
                       else base[e.st].len * Pace(base[e.st].liftKind))
    && (base[e.st].uphillOnly ==> (e.rev <==> !base[e.st].rises))
  }

  /** The edge walks a link, as long as the snap said and as steep, from the station or back to it. */
  predicate IsLinkWalk(near: nat -> Option<Landing>, sts: seq<Stretch>, base: nat, v: nat, e: Edge) {
    && base <= e.st < |sts| && RunsAlong(sts[e.st], v, e) && Lands(near, sts[e.st])
    && e.w == Weight(Hike, sts[e.st], false, false)
  }

  /** The stretch is a path from a station to the junction the snap found for it, no more than 100 m away. */
  predicate Lands(near: nat -> Option<Landing>, st: Stretch) {
    && near(st.a) == Some(Landing(st.b, st.len, st.up - st.down)) && st.len <= 100.0 && st.b != st.a
    && (st.up == 0.0 || st.down == 0.0) && st.up >= 0.0 && st.down >= 0.0
    && st.cls == Path && !st.one && !st.ferrata && EffGrade(st) == 0 && st.footAccess > 0
  }

  /** Every edge of a built graph, layer by layer, and every stretch the lifts added. */
  ghost predicate Wired(g: Graph, base: nat, near: nat -> Option<Landing>) {
    && base <= |g.stretches| && |g.car| == |g.bike| == |g.hike| == |g.lift| == g.n
    && (forall m: Mode, v, e :: 0 <= v < g.n ==> (e in g.Adj(m)[v] <==> IsWay(g.stretches[..base], m, v, e)))
    && (forall v, e :: 0 <= v < g.n ==>
          (e in g.lift[v] <==>
             IsRide(g.stretches[..base], v, e) || IsLinkWalk(near, g.stretches, base, v, e)))
    && (forall i :: base <= i < |g.stretches| ==>
          Lands(near, g.stretches[i]) && IsStation(g.stretches[..base], g.stretches[i].a))
    && forall v :: IsStation(g.stretches[..base], v) && HasLanding(near, v) ==> IsLinked(g.stretches, base, v)
  }

  /** A lift ends here. */
  ghost predicate IsStation(base: seq<Stretch>, v: nat) {
    exists i :: 0 <= i < |base| && base[i].cls == LiftLine && base[i].len > 0.0 && (v == base[i].a || v == base[i].b)
  }

  ghost predicate HasLanding(near: nat -> Option<Landing>, v: nat) {
    near(v).Some? && near(v).value.d <= 100.0 && near(v).value.node != v
  }

  ghost predicate IsLinked(sts: seq<Stretch>, base: nat, v: nat) {
    exists i :: base <= i < |sts| && sts[i].a == v
  }

  lemma ArcIsAWay(m: Mode, base: seq<Stretch>, v: nat, e: Edge)
    ensures Arc(v, e) in Arcs(m, base) <==> IsWay(base, m, v, e)
  {
    ArcIsOfItsStretch(m, base, Arc(v, e));
    hide Usable, Weight;
  }

  lemma RideArcIsARide(base: seq<Stretch>, v: nat, e: Edge)
    ensures e.st < |base| && Rides(base[e.st]) && Arc(v, e) in RideArcs(base[e.st], e.st) <==> IsRide(base, v, e)
  {
  }

  lemma LinkOf(near: nat -> Option<Landing>, st: Stretch)
    requires IsLink(near, st)
    ensures Lands(near, st)
  {
  }

  lemma LinkArcIsAWalk(near: nat -> Option<Landing>, sts: seq<Stretch>, base: nat, v: nat, e: Edge)
    requires forall i :: base <= i < |sts| ==> Lands(near, sts[i])
    ensures base <= e.st < |sts| && Arc(v, e) in LinkArcs(sts[e.st], e.st) <==> IsLinkWalk(near, sts, base, v, e)
  {
    hide Weight, Lands;
  }

  lemma AddedIsLinked(near: nat -> Option<Landing>, base: seq<Stretch>, st: Stretch)
    requires st in Links(near, base)
    ensures Lands(near, st) && IsStation(base, st.a)
  {
    hide Lands;
    LinksAreLinks(near, base, st);
    LinkOf(near, st);
  }

  lemma StationIsLinked(near: nat -> Option<Landing>, base: seq<Stretch>, v: nat)
    requires IsStation(base, v) && HasLanding(near, v)
    ensures exists st :: st in Links(near, base) && st.a == v
  {
    var hit := near(v).value;
    var st := Link(v, hit.node, hit.d, hit.rise);
    LinksAreLinks(near, base, st);
  }

  /** The layers are what the stretches say. */
  lemma BuiltIsWired(g: Graph, base: nat, near: nat -> Option<Landing>)
    requires Built(g, base, near)
    ensures Wired(g, base, near)
  {
    hide IsWay, IsRide, IsLinkWalk, Lands, HasLanding, IsStation, Links, Rides, RideArcs, LinkArcs, Arcs;
    var front := g.stretches[..base];
    forall i | base <= i < |g.stretches| ensures Lands(near, g.stretches[i]) && IsStation(front, g.stretches[i].a) {
      assert g.stretches[i] in Links(near, front);
      AddedIsLinked(near, front, g.stretches[i]);
    }
    forall m: Mode, v, e | 0 <= v < g.n ensures e in g.Adj(m)[v] <==> IsWay(front, m, v, e) {
      ArcIsAWay(m, front, v, e);
    }
    forall v, e | 0 <= v < g.n
      ensures e in g.lift[v] <==> IsRide(front, v, e) || IsLinkWalk(near, g.stretches, base, v, e)
    {
      RideArcIsARide(front, v, e);
      LinkArcIsAWalk(near, g.stretches, base, v, e);
      assert IsRide(front, v, e) ==> e.st < base;
    }
    forall v | IsStation(front, v) && HasLanding(near, v) ensures IsLinked(g.stretches, base, v) {
      StationIsLinked(near, front, v);
      var st :| st in Links(near, front) && st.a == v;
      var k :| 0 <= k < |Links(near, front)| && Links(near, front)[k] == st;
      assert g.stretches[base + k] == st;
    }
  }

  lemma ArcsInRange(m: Mode, n: nat, sts: seq<Stretch>)
    requires InRange(n, sts)
    ensures forall a :: a in Arcs(m, sts) ==> a.from < n && a.e.to < n && a.e.st < |sts|
  {
    forall a | a in Arcs(m, sts) ensures a.from < n && a.e.to < n && a.e.st < |sts| {
      ArcIsOfItsStretch(m, sts, a);
    }
  }

  /** One layer: the arcs packed by the junction they leave. */
  method Layer(n: nat, arcs: seq<Arc>) returns (l: seq<seq<Edge>>)
    requires forall a :: a in arcs ==> a.from < n
    ensures |l| == n && forall v, e :: 0 <= v < n ==> (e in l[v] <==> Arc(v, e) in arcs)
  {
    var keys: seq<nat>, vals: seq<Edge> := [], [];
    for i := 0 to |arcs|
      invariant |keys| == |vals| == i
      invariant forall k :: 0 <= k < i ==> keys[k] == arcs[k].from && vals[k] == arcs[k].e && keys[k] < n
    {
      assert arcs[i] in arcs;
      keys, vals := keys + [arcs[i].from], vals + [arcs[i].e];
    }
    l := Csr.Layers(n, keys, vals);
    forall v, e | 0 <= v < n ensures e in l[v] <==> Arc(v, e) in arcs {
      Csr.AtHolds(keys, vals, v, e);
      if Arc(v, e) in arcs {
        var i :| 0 <= i < |arcs| && arcs[i] == Arc(v, e);
        assert keys[i] == v && vals[i] == e;
      }
      if e in Csr.At(keys, vals, v) {
        var i :| 0 <= i < |keys| && keys[i] == v && vals[i] == e;
        assert arcs[i] == Arc(v, e);
      }
    }
  }

  /** The graph of a region. */
  method Build(pos: seq<Point>, base: seq<Stretch>, near: nat -> Option<Landing>) returns (g: Graph)
    requires InRange(|pos|, base)
    requires forall v :: near(v).Some? ==> near(v).value.node < |pos|
    ensures Built(g, |base|, near) && g.pos == pos && g.stretches[..|base|] == base
    ensures Wired(g, |base|, near)
  {
    var n := |pos|;
    ArcsInRange(Car, n, base);
    ArcsInRange(Bike, n, base);
    ArcsInRange(Hike, n, base);
    var car := Layer(n, Arcs(Car, base));
    var bike := Layer(n, Arcs(Bike, base));
    var hike := Layer(n, Arcs(Hike, base));
    var sts, arcs := BuildLifts(n, base, near);
    forall a | a in arcs ensures a.from < n { assert IsLiftArc(sts, |base|, a); }
    var lift := Layer(n, arcs);
    g := Graph(n, pos, sts, car, bike, hike, lift);
    assert g.stretches[..|base|] == base;
    assert Built(g, |base|, near) by { assert forall m: Mode :: m.Car? || m.Bike? || m.Hike?; }
    BuiltIsWired(g, |base|, near);
  }
}
