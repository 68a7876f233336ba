/** What the answer of a trip is, said of the map and the request: where every pair goes and what it takes, what the
    legs hold, and what the seconds add up to (internal/route/search.go:1162-1358, 1387-1430). */
module Itinerary {
  import opened Roads
  import opened Moves
  import opened Search
  import opened Answers
  import opened Network
  import opened Heuristic
  import opened Journey
  import opened Trip
  import opened Alternatives

  /** The recorded moves lead from s to a junction, each where the one before it ended, and each one that the map,
      the plan and the request allow. */
  ghost predicate OnTheWay(g: Graph, base: nat, near: nat -> Option<Landing>, q: Query, s: State, edges: seq<UsedEdge>,
      to: nat)
    requires base <= |g.stretches|
    decreases |edges|
  {
    if edges == [] then s.node == to
    else
      && MayMove(g, base, near, q, s, edges[0].mv)
      && edges[0].to == (if edges[0].mv.Park? then State(s.node, edges[0].mv.to) else State(edges[0].mv.e.to, s.mode))
      && OnTheWay(g, base, near, q, edges[0].to, edges[1..], to)
  }

  lemma {:induction false} LegalIsOnTheWay(g: Graph, base: nat, near: nat -> Option<Landing>, q: Query, a: Arrival,
      s: State, edges: seq<UsedEdge>, to: nat)
    requires g.Valid() && Built(g, base, near) && q.grade >= 0 && base <= |g.stretches|
    requires LegalWalk(g, q, s, MovesOf(edges)) && Recorded(g, a, s, edges) && End(s, MovesOf(edges)).node == to
    ensures OnTheWay(g, base, near, q, s, edges, to)
    decreases |edges|
  {
    hide Built, Legal, MayMove, StepClock;
    if edges != [] {
      assert MovesOf(edges)[1..] == MovesOf(edges[1..]);
      LegalIsWhatTheMapAllows(g, base, near, q, s, edges[0].mv);
      LegalIsOnTheWay(g, base, near, q, ArrivalOf(edges[0].mv), edges[0].to, edges[1..], to);
    }
  }

  /** What pair i asks for, in a plan. */
  function Request(tp: TripPlan, plan: seq<Mode>): Query { Query(plan, tp.grade, tp.lifts, tp.avoid, NoPenalty) }

  /** What a pair of an answer may be: nothing between equal ends; the ride that was forced; else a walk from the one
      end to the other under the request, begun in the first mode of the plan. */
  ghost predicate PairGoes(w: World, tp: TripPlan, i: nat, plan: seq<Mode>, part: seq<UsedEdge>)
    requires w.base <= |w.g.stretches| && i + 1 < |tp.nodes| && i < |tp.force|
  {
    if tp.nodes[i] == tp.nodes[i + 1] then part == []
    else if tp.force[i].Some? then
      |part| == 1 && part[0].mv.Board? && part[0].to == State(tp.nodes[i + 1], Hike)
      && IsRide(w.g.stretches[..w.base], tp.nodes[i], part[0].mv.e) && part[0].mv.e.to == tp.nodes[i + 1]
      && part[0].mv.e.st == tp.force[i].value.st && part[0].w == part[0].mv.e.w
    else
      |plan| > 0 && OnTheWay(w.g, w.base, w.near, Request(tp, plan), State(tp.nodes[i], plan[0]), part, tp.nodes[i + 1])
  }

  lemma {:induction false} PenaltiesDoNotMatter(g: Graph, base: nat, near: nat -> Option<Landing>, q: Query,
      pen: Penalties, s: State, edges: seq<UsedEdge>, to: nat)
    requires base <= |g.stretches| && OnTheWay(g, base, near, q, s, edges, to)
    ensures OnTheWay(g, base, near, q.(pen := pen), s, edges, to)
    decreases |edges|
  {
    if edges != [] { PenaltiesDoNotMatter(g, base, near, q, pen, edges[0].to, edges[1..], to); }
  }

  lemma ForcedIsARide(w: World, tp: TripPlan, i: nat)
    requires Asked(w, tp) && i + 1 < |tp.nodes| && tp.force[i].Some?
    ensures w.base <= |w.g.stretches|
    ensures IsRide(w.g.stretches[..w.base], tp.nodes[i], ForcedEdge(tp, i).mv.e)
  {
    var front, e := w.g.stretches[..w.base], ForcedEdge(tp, i).mv.e;
    assert IsForcedRide(w, tp, i);
    RideArcIsARide(front, tp.nodes[i], e);
  }

  /** Every pair of an answer goes where it was asked to. */
  lemma PairsGo(w: World, tp: TripPlan, pen: Penalties, i: nat, plan: seq<Mode>, part: seq<UsedEdge>)
    requires Asked(w, tp) && i + 1 < |tp.nodes| && PairOk(w, tp, pen, i, plan, part)
    ensures w.base <= |w.g.stretches| && PairGoes(w, tp, i, plan, part)
  {
    BuiltIsValid(w.g, w.base, w.near, w.hyp);
    assert w.base <= |w.g.stretches|;
    if tp.nodes[i] != tp.nodes[i + 1] {
      if tp.force[i].Some? {
        ForcedIsARide(w, tp, i);
        hide IsRide;
      } else {
        var t := PairTask(w, tp, i, plan, pen);
        assert Built(w.g, w.base, w.near);
        hide Built, IsHypot, Sane;
        LegalIsOnTheWay(w.g, w.base, w.near, t.q, Fresh, t.start, part, t.to);
        PenaltiesDoNotMatter(w.g, w.base, w.near, t.q, NoPenalty, t.start, part, t.to);
      }
    }
  }

  /** And so does the whole answer. */
  lemma AnswerGoes(w: World, tp: TripPlan, pen: Penalties, a: Answer)
    requires Asked(w, tp) && AnswerOk(w, tp, pen, a)
    ensures w.base <= |w.g.stretches| && |a.parts| == |tp.nodes| - 1
    ensures forall i :: 0 <= i < |a.parts| ==> PairGoes(w, tp, i, PlanFor(w.g, tp, a.parts, i), a.parts[i])
  {
    assert w.base <= |w.g.stretches|;
    hide Asked, PairOk, PairGoes, PlanFor;
    forall i | 0 <= i < |a.parts| ensures PairGoes(w, tp, i, PlanFor(w.g, tp, a.parts, i), a.parts[i]) {
      PairsGo(w, tp, pen, i, PlanFor(w.g, tp, a.parts, i), a.parts[i]);
    }
  }

  // ------------------------------------------------------------------ legs

  function MetresOf(g: Graph, edges: seq<UsedEdge>): real {
    if edges == [] then 0.0
    else
      (if edges[0].mv.Park? || edges[0].mv.e.st >= |g.stretches| then 0.0 else g.stretches[edges[0].mv.e.st].len)
      + MetresOf(g, edges[1..])
  }

  lemma {:induction false} MetresOfSnoc(g: Graph, edges: seq<UsedEdge>, e: UsedEdge)
    ensures MetresOf(g, edges + [e]) == MetresOf(g, edges) + MetresOf(g, [e])
  {
    if edges == [] {
      assert edges + [e] == [e];
    } else {
      assert (edges + [e])[1..] == edges[1..] + [e];
      MetresOfSnoc(g, edges[1..], e);
    }
  }

  lemma {:induction false} MetresAre(g: Graph, edges: seq<UsedEdge>)
    ensures Metres(g, edges) == MetresOf(g, edges)
  {
    if edges != [] {
      var front, e := edges[..|edges| - 1], edges[|edges| - 1];
      assert edges == front + [e];
      MetresAre(g, front);
      MetresOfSnoc(g, front, e);
      assert [e][1..] == [];
    }
  }

  /** A leg is ridden on one lift, under its name, or travelled in one mode off the lifts; its seconds and metres
      are those of its moves. */
  ghost predicate LegReads(g: Graph, l: Leg) {
    && l.edges != [] && l.seconds == Seconds(l.edges) && l.meters == MetresOf(g, l.edges)
    && (forall k :: 0 <= k < |l.edges| ==> !l.edges[k].mv.Park? && l.edges[k].mv.e.st < |g.stretches|)
    && match l.mode
       case Ride =>
         forall k :: 0 <= k < |l.edges| ==>
           g.stretches[l.edges[k].mv.e.st].cls == LiftLine && g.stretches[l.edges[k].mv.e.st].name == l.name
       case In(m) =>
         forall k :: 0 <= k < |l.edges| ==>
           g.stretches[l.edges[k].mv.e.st].cls != LiftLine && l.edges[k].to.mode == m
  }

  lemma LegsRead(g: Graph, l: Leg)
    requires LegOk(g, l)
    ensures LegReads(g, l)
  {
    MetresAre(g, l.edges);
    hide Metres;
  }

  // ------------------------------------------------------------------ seconds

  /** Somebody travelled off the lifts in a mode. */
  ghost predicate Went(g: Graph, edges: seq<UsedEdge>, m: Mode) {
    exists k :: 0 <= k < |edges| && !edges[k].mv.Park? && edges[k].to.mode == m
                && edges[k].mv.e.st < |g.stretches| && g.stretches[edges[k].mv.e.st].cls != LiftLine
  }

  /** The trip parks at a stop it was planned to park at: driven or cycled to it, walked from it. */
  ghost predicate ParksAtTheStop(g: Graph, tp: TripPlan, edges: seq<UsedEdge>) {
    && |tp.plan| >= 2 && 1 <= tp.parkSeg < |tp.segPlans| && tp.parkSeg + 1 < |tp.nodes|
    && tp.plan[0] != Hike && Went(g, edges, tp.plan[0]) && Went(g, edges, Hike)
  }

  /** How often the pairs join or leave the motorways, each counted by itself. */
  function Ramps(g: Graph, parts: seq<seq<UsedEdge>>): nat {
    if parts == [] then 0 else Ramps(g, parts[..|parts| - 1]) + ClassChanges(g, None, parts[|parts| - 1])
  }

  lemma {:induction false} OwnOfBoth(a: seq<UsedEdge>, b: seq<UsedEdge>)
    ensures OwnSeconds(a + b) == OwnSeconds(a) + OwnSeconds(b)
    ensures Parkings(a + b) == Parkings(a) + Parkings(b)
  {
    if a == [] {
      assert a + b == b;
    } else {
      assert (a + b)[1..] == a[1..] + b;
      OwnOfBoth(a[1..], b);
    }
  }

  /** What one pair takes. */
  lemma PairAddsUp(w: World, tp: TripPlan, pen: Penalties, i: nat, plan: seq<Mode>, part: seq<UsedEdge>)
    requires Asked(w, tp) && i + 1 < |tp.nodes| && PairOk(w, tp, pen, i, plan, part)
    ensures Seconds(part) == OwnSeconds(part) + 120.0 * Parkings(part) as real
                           + 20.0 * ClassChanges(w.g, None, part) as real
  {
    BuiltIsValid(w.g, w.base, w.near, w.hyp);
    if Searched(tp, i) {
      var t := PairTask(w, tp, i, plan, pen);
      hide Asked;
      SecondsAddUp(w.g, t.q, Fresh, t.start, part);
    } else if part != [] {
      assert part == [ForcedEdge(tp, i)] && part[1..] == [];
    }
  }

  lemma {:induction false} PairsAddUp(w: World, tp: TripPlan, pen: Penalties, parts: seq<seq<UsedEdge>>, n: nat)
    requires Asked(w, tp) && Gathered(w, tp, pen, parts) && n <= |parts|
    ensures Seconds(Flat(parts[..n])) == OwnSeconds(Flat(parts[..n])) + 120.0 * Parkings(Flat(parts[..n])) as real
                                       + 20.0 * Ramps(w.g, parts[..n]) as real
  {
    if n > 0 {
      var i := n - 1;
      PairsAddUp(w, tp, pen, parts, i);
      assert parts[..n][..i] == parts[..i];
      PairAddsUp(w, tp, pen, i, PlanFor(w.g, tp, parts, i), parts[i]);
      hide Asked, PairOk, PlanFor, Gathered;
      SecondsOfBoth(Flat(parts[..i]), parts[i]);
      OwnOfBoth(Flat(parts[..i]), parts[i]);
    }
  }

  lemma WentIsMoved(g: Graph, edges: seq<UsedEdge>, m: Mode)
    ensures Moved(g, edges, m) <==> Went(g, edges, m)
  {
  }

  /** The seconds of an answer: those of the stretches and rides themselves, two minutes for each parking on the way
      and for the stop where one parks, twenty seconds for each time a pair joins or leaves the motorways. */
  lemma AnswerAddsUp(w: World, tp: TripPlan, pen: Penalties, a: Answer)
    requires Asked(w, tp) && AnswerOk(w, tp, pen, a)
    ensures var edges := Flat(a.parts);
      a.seconds == OwnSeconds(edges) + 20.0 * Ramps(w.g, a.parts) as real
                 + 120.0 * (Parkings(edges) + (if ParksAtTheStop(w.g, tp, edges) then 1 else 0)) as real
  {
    PairsAddUp(w, tp, pen, a.parts, |a.parts|);
    assert a.parts[..|a.parts|] == a.parts;
    var edges := Flat(a.parts);
    forall m: Mode ensures HasMode(a.legs, m) <==> Went(w.g, edges, m) {
      LegsSayWhatMoved(w.g, a.legs, m);
      MovedOfTravelled(w.g, edges, m);
      WentIsMoved(w.g, edges, m);
    }
    hide HasMode, Went, Asked, Gathered, Flat;
  }
}
