/** Accepted junctions are always routable: what connected accepts, searchSeg finds a way between
    (internal/route/graph.go:287-305, 651-796; internal/route/search.go:354-483). */
module Routable {
  import opened Roads
  import opened Moves
  import opened Search
  import opened Network
  import C = Components
  import opened Strong

  /** Every edge of the mode is legal at this grade and nothing is avoided. */
  ghost predicate AllLegal(g: Graph, q: Query, m: Mode)
    requires g.Valid()
  {
    m in q.plan && forall v, e :: 0 <= v < g.n && e in g.Adj(m)[v] ==> Legal(g, q, State(v, m), Along(e))
  }

  /** A walk over the edges of a mode whose edges are all legal is a legal walk. */
  lemma {:induction false} PathIsLegalWalk(g: Graph, q: Query, m: Mode, p: seq<nat>) returns (ms: seq<Move>)
    requires g.Valid() && AllLegal(g, q, m) && |p| > 0 && p[0] < g.n
    requires forall i :: 0 <= i < |p| - 1 ==> EdgeTo(g.Adj(m), p[i], p[i + 1])
    ensures LegalWalk(g, q, State(p[0], m), ms) && End(State(p[0], m), ms) == State(p[|p| - 1], m)
  {
    ms := [];
    if |p| > 1 {
      assert EdgeTo(g.Adj(m), p[0], p[1]);
      var k :| 0 <= k < |g.Adj(m)[p[0]]| && g.Adj(m)[p[0]][k].to == p[1];
      var e := g.Adj(m)[p[0]][k];
      assert Legal(g, q, State(p[0], m), Along(e));
      LegalStaysInside(g, q, State(p[0], m), Along(e));
      var rest := PathIsLegalWalk(g, q, m, p[1..]);
      ms := [Along(e)] + rest;
      assert ms[1..] == rest;
    }
  }

  lemma ReachedIsWalked(g: Graph, q: Query, m: Mode, a: nat, b: nat)
    requires g.Valid() && AllLegal(g, q, m) && a < g.n && Reaches(g.Adj(m), a, b)
    ensures exists ms :: LegalWalk(g, q, State(a, m), ms) && End(State(a, m), ms).node == b
  {
    var p :| Strong.Path(g.Adj(m), p, a, b);
    var ms := PathIsLegalWalk(g, q, m, p);
  }

  /** On wheels, with nothing avoided, no edge is ever refused. */
  lemma WheelsAreNeverRefused(g: Graph, q: Query, m: Mode)
    requires g.Valid() && !m.Hike? && m in q.plan && q.avoid == {}
    ensures AllLegal(g, q, m)
  {
    forall v, e | 0 <= v < g.n && e in g.Adj(m)[v] ensures Legal(g, q, State(v, m), Along(e)) {
      var k :| 0 <= k < |g.Adj(m)[v]| && g.Adj(m)[v][k] == e;
    }
  }

  /** What a map's grades may be: nothing harder than sac 6. */
  predicate GradesInRange(g: Graph) { forall i :: 0 <= i < |g.stretches| ==> EffGrade(g.stretches[i]) <= 6 }

  /** At grade A, with nothing avoided, no walk is refused. */
  lemma GradeAIsNeverRefused(g: Graph, q: Query)
    requires g.Valid() && GradesInRange(g) && Hike in q.plan && q.avoid == {} && q.grade >= 5
    ensures AllLegal(g, q, Hike)
  {
    forall v, e | 0 <= v < g.n && e in g.Adj(Hike)[v] ensures Legal(g, q, State(v, Hike), Along(e)) {
      var k :| 0 <= k < |g.Adj(Hike)[v]| && g.Adj(Hike)[v][k] == e;
    }
  }

  /** Feet go both ways over any stretch. */
  lemma WayBack(st: Stretch, i: nat, a: nat, e: Edge)
    requires Arc(a, e) in ArcsOf(Hike, st, i)
    ensures Arc(e.to, Edge(a, i, Weight(Hike, st, !e.rev, st.marked), !e.rev)) in ArcsOf(Hike, st, i)
  {
    hide Weight, Usable;
  }

  /** Feet go both ways: every walking edge has its way back. */
  lemma HikingIsSymmetric(g: Graph, base: nat, near: nat -> Option<Landing>, a: nat, b: nat)
    requires Built(g, base, near) && b < g.n && EdgeTo(g.hike, a, b)
    ensures EdgeTo(g.hike, b, a)
  {
    var k :| 0 <= k < |g.hike[a]| && g.hike[a][k].to == b;
    var e := g.hike[a][k];
    assert e in g.Adj(Hike)[a];
    ArcIsOfItsStretch(Hike, g.stretches[..base], Arc(a, e));
    var st := g.stretches[e.st];
    var back := Edge(a, e.st, Weight(Hike, st, !e.rev, st.marked), !e.rev);
    WayBack(st, e.st, a, e);
    ArcIsOfItsStretch(Hike, g.stretches[..base], Arc(b, back));
    hide ArcsOf, Weight;
    assert back in g.Adj(Hike)[b];
    var j :| 0 <= j < |g.hike[b]| && g.hike[b][j] == back;
  }

  /** So on foot what is weakly connected is strongly connected. */
  lemma {:induction false} TiedOnFootReaches(g: Graph, base: nat, near: nat -> Option<Landing>, p: seq<nat>)
    requires g.Valid() && Built(g, base, near) && |p| > 0 && p[0] < g.n && C.Chain(C.Links(g.hike, g.n, 0), p)
    ensures Reaches(g.hike, p[0], p[|p| - 1])
  {
    if |p| == 1 {
      ReachesSelf(g.hike, p[0]);
    } else {
      var l := C.Links(g.hike, g.n, 0);
      assert (p[0], p[1]) in l || (p[1], p[0]) in l;
      assert C.Inside(g.hike);
      assert p[1] < g.n;
      if (p[0], p[1]) in l {
        assert EdgeTo(g.hike, p[0], p[1]);
      } else {
        assert EdgeTo(g.hike, p[1], p[0]);
        HikingIsSymmetric(g, base, near, p[1], p[0]);
      }
      ReachesSelf(g.hike, p[0]);
      ReachesEdge(g.hike, p[0], p[0], p[1]);
      TiedOnFootReaches(g, base, near, p[1..]);
      ReachesTrans(g.hike, p[0], p[1], p[|p| - 1]);
    }
  }

  /** Driving or riding between two junctions of the strong component always succeeds. */
  method RouteOnWheels(t: Task, m: Mode, scc: seq<bool>, st0: Stats) returns (edges: seq<UsedEdge>, st: Stats)
    requires Sound(t) && t.q.grade >= 1 && st0.refused.gradeSkipped >= 0
    requires !m.Hike? && t.start.mode == m && t.q.avoid == {} && t.to < t.g.n
    requires Mutual(t.g.Adj(m), scc) && scc[t.start.node] && scc[t.to]
    ensures BestWalk(t, edges)
  {
    WheelsAreNeverRefused(t.g, t.q, m);
    assert Reaches(t.g.Adj(m), t.start.node, t.to);
    ReachedIsWalked(t.g, t.q, m, t.start.node, t.to);
    assert State(t.start.node, m) == t.start;
    var found;
    found, st := SearchSeg(t, st0);
    edges := found.value;
  }

  /** Walking at grade A between two junctions of one weak component always succeeds. */
  method RouteOnFoot(t: Task, base: nat, near: nat -> Option<Landing>, comp: seq<nat>, main: Option<nat>, st0: Stats)
      returns (edges: seq<UsedEdge>, st: Stats)
    requires Sound(t) && Built(t.g, base, near) && GradesInRange(t.g) && st0.refused.gradeSkipped >= 0
    requires t.start.mode == Hike && t.q.avoid == {} && t.q.grade >= 5 && t.to < t.g.n
    requires |comp| == t.g.n
    requires forall a, b :: 0 <= a < t.g.n && 0 <= b < t.g.n ==>
               (comp[a] == comp[b] <==> C.Tied(C.Links(t.g.hike, t.g.n, 0), a, b))
    requires Connected(t.g.hike, None, comp, main, t.start.node) && Connected(t.g.hike, None, comp, main, t.to)
    ensures BestWalk(t, edges)
  {
    GradeAIsNeverRefused(t.g, t.q);
    assert C.Tied(C.Links(t.g.hike, t.g.n, 0), t.start.node, t.to);
    ghost var p :| C.ChainFrom(C.Links(t.g.hike, t.g.n, 0), p, t.start.node, t.to);
    TiedOnFootReaches(t.g, base, near, p);
    ReachedIsWalked(t.g, t.q, Hike, t.start.node, t.to);
    assert State(t.start.node, Hike) == t.start;
    var found;
    found, st := SearchSeg(t, st0);
    edges := found.value;
  }

  /** All of it together, from the adjacency of a mode to the route: the weak components, the strong one on
      wheels, the test both ends must pass, the search. With a strong component, or on foot, what passes
      the test is routed. */
  method RouteAccepted(t: Task, base: nat, near: nat -> Option<Landing>, st0: Stats)
      returns (edges: Option<seq<UsedEdge>>, st: Stats, accepted: bool, whole: bool)
    requires Sound(t) && Built(t.g, base, near) && st0.refused.gradeSkipped >= 0
    requires t.q.avoid == {} && t.q.grade >= 1 && t.to < t.g.n
    requires t.start.mode == Hike ==> GradesInRange(t.g) && t.q.grade >= 5
    ensures edges.Some? ==> BestWalk(t, edges.value)
    ensures accepted && (whole || t.start.mode == Hike) ==> edges.Some?
  {
    hide BestWalk, Sound, AllLegal;
    var m := t.start.mode;
    var adj := t.g.Adj(m);
    InsideOf(t, m);
    var comp, main, weakN := C.Components(adj);
    var scc: Option<seq<bool>> := None;
    if !m.Hike? {
      ghost var hub, flags;
      scc, hub, flags := Strong.Strong(adj, comp, main, weakN);
    }
    accepted := Connected(adj, scc, comp, main, t.start.node) && Connected(adj, scc, comp, main, t.to);
    whole := scc.Some?;
    if accepted && m.Hike? {
      var found;
      found, st := RouteOnFoot(t, base, near, comp, main, st0);
      edges := Some(found);
    } else if accepted && whole {
      var found;
      found, st := RouteOnWheels(t, m, scc.value, st0);
      edges := Some(found);
    } else {
      edges, st := SearchSeg(t, st0);
    }
  }

  lemma InsideOf(t: Task, m: Mode)
    requires Sound(t)
    ensures C.Inside(t.g.Adj(m)) && |t.g.Adj(m)| == t.g.n && t.start.node < t.g.n
  {}
}
