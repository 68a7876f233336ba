/** Penalty rounds, the clock they may not touch, and the grade a refusal offers
    (internal/route/search.go:226-352, 723-917, 986-1000). */
module Alternatives {
  import opened Roads
  import opened Moves
  import opened Search
  import opened Answers
  import opened Network
  import opened Heuristic
  import opened Trip

  // ------------------------------------------------------------------ trips compared pair by pair

  lemma {:induction false} FlatSeconds(a: seq<seq<UsedEdge>>, b: seq<seq<UsedEdge>>)
    requires |a| == |b| && forall i :: 0 <= i < |a| ==> Seconds(a[i]) <= Seconds(b[i])
    ensures Seconds(Flat(a)) <= Seconds(Flat(b))
  {
    if |a| > 0 {
      var last := |a| - 1;
      FlatSeconds(a[..last], b[..last]);
      SecondsOfBoth(Flat(a[..last]), a[last]);
      SecondsOfBoth(Flat(b[..last]), b[last]);
    }
  }

  /** A best walk is best whatever bound the search was given. */
  lemma BoundDoesNotMatter(s: Task, t: Task, edges: seq<UsedEdge>)
    requires s.g.Valid() && s.g == t.g && s.q == t.q && s.start == t.start && s.to == t.to
    requires BestWalk(s, edges)
    ensures BestWalk(t, edges)
  {
  }

  lemma FirstPairIsFastest(w: World, tp: TripPlan, i: nat, plan: seq<Mode>, pen: Penalties, later: Penalties,
                           a: seq<UsedEdge>, b: seq<UsedEdge>)
    requires Asked(w, tp) && RampFree(w.g) && pen.Neutral() && i + 1 < |tp.nodes|
    requires PairOk(w, tp, pen, i, plan, a) && PairOk(w, tp, later, i, plan, b)
    ensures Seconds(a) <= Seconds(b)
  {
    if Searched(tp, i) {
      BuiltIsValid(w.g, w.base, w.near, w.hyp);
      var s, t := PairTask(w, tp, i, plan, pen), PairTask(w, tp, i, plan, later);
      BoundDoesNotMatter(t, s.(q := s.q.(pen := later)), b);
      NoRoundBeatsTheFirst(s, later, a, b);
    }
  }

  /** In a ramp-free graph no penalty round of a planned trip travels for fewer seconds than the round
      that charges nothing. */
  lemma NoLaterRoundMovesFaster(w: World, tp: TripPlan, pen: Penalties, later: Penalties, a: Answer, b: Answer)
    requires Asked(w, tp) && RampFree(w.g) && PlansKnown(tp) && pen.Neutral()
    requires AnswerOk(w, tp, pen, a) && AnswerOk(w, tp, later, b)
    ensures MoveSeconds(a) <= MoveSeconds(b)
  {
    forall i | 0 <= i < |a.parts| ensures Seconds(a.parts[i]) <= Seconds(b.parts[i]) {
      KnownPairs(w, tp, pen, a.parts, i);
      KnownPairs(w, tp, later, b.parts, i);
      FirstPairIsFastest(w, tp, i, KnownPlan(tp, i), pen, later, a.parts[i], b.parts[i]);
    }
    FlatSeconds(a.parts, b.parts);
  }

  // ------------------------------------------------------------------ the stop's two minutes

  /** Every pair was given one mode: as Route plans a trip that parks at a stop. */
  predicate OneModeEach(tp: TripPlan) { forall i :: 0 <= i < |tp.segPlans| ==> |tp.segPlans[i]| == 1 }

  /** Pair i is searched in mode m alone. */
  predicate SearchedIn(tp: TripPlan, i: nat, m: Mode)
    requires |tp.force| == |tp.nodes|
  {
    Searched(tp, i) && i < |tp.segPlans| && tp.segPlans[i] == [m]
  }

  /** A walk of one mode travels in it, unless it rides. */
  ghost predicate InOneMode(g: Graph, q: Query, e: UsedEdge) {
    && |q.plan| == 1 && !e.mv.Park? && e.mv.e.st < |g.stretches|
    && (LegModeOf(g, e) == In(q.plan[0]) || (LegModeOf(g, e) == Ride && e.mv.Board? && q.lifts && q.plan[0].Hike?))
  }

  lemma OneModeMove(w: World, q: Query, s: State, e: UsedEdge)
    requires w.Valid() && w.g.Valid() && Legal(w.g, q, s, e.mv) && e.to == Target(s, e.mv)
    requires |q.plan| == 1 && s.mode == q.plan[0]
    ensures InOneMode(w.g, q, e) && e.to.mode == q.plan[0]
  {
    hide IsHypot, Sane;
    LegalStaysInside(w.g, q, s, e.mv);
    if e.mv.Along? {
      ArcIsOfItsStretch(s.mode, w.g.stretches[..w.base], Arc(s.node, e.mv.e));
    }
  }

  lemma {:induction false} OneModeWalk(w: World, q: Query, s: State, ms: seq<Move>, edges: seq<UsedEdge>, a: Arrival)
    requires w.Valid() && w.g.Valid() && LegalWalk(w.g, q, s, ms) && ms == MovesOf(edges) && Recorded(w.g, a, s, edges)
    requires |q.plan| == 1 && s.mode == q.plan[0]
    ensures forall k :: 0 <= k < |edges| ==> InOneMode(w.g, q, edges[k])
    decreases |ms|
  {
    if |ms| > 0 {
      hide World.Valid, InOneMode, StepClock, Legal;
      OneModeMove(w, q, s, edges[0]);
      assert ms[1..] == MovesOf(edges[1..]);
      OneModeWalk(w, q, edges[0].to, ms[1..], edges[1..], ArrivalOf(ms[0]));
      forall k | 0 <= k < |edges| ensures InOneMode(w.g, q, edges[k]) {
        if k > 0 { assert edges[k] == edges[1..][k - 1]; }
      }
    }
  }

  /** Some travelled move of the trip is in mode m. */
  ghost predicate Moved(g: Graph, edges: seq<UsedEdge>, m: Mode) {
    exists k :: 0 <= k < |edges| && !edges[k].mv.Park? && edges[k].mv.e.st < |g.stretches|
        && LegModeOf(g, edges[k]) == In(m)
  }

  lemma NothingMoved(g: Graph, m: Mode)
    ensures !Moved(g, [], m)
  {}

  lemma {:induction false} MovedOfFlat(g: Graph, parts: seq<seq<UsedEdge>>, m: Mode)
    ensures Moved(g, Flat(parts), m) <==> exists i :: 0 <= i < |parts| && Moved(g, parts[i], m)
  {
    hide Moved;
    if |parts| == 0 {
      NothingMoved(g, m);
    } else {
      var last := |parts| - 1;
      MovedOfFlat(g, parts[..last], m);
      MovedOfBoth(g, Flat(parts[..last]), parts[last], m);
      if i :| 0 <= i < |parts| && Moved(g, parts[i], m) {
        if i < last { assert Moved(g, parts[..last][i], m); }
      }
      if Moved(g, Flat(parts[..last]), m) {
        var i :| 0 <= i < last && Moved(g, parts[..last][i], m);
        assert Moved(g, parts[i], m);
      }
    }
  }

  lemma MovedOfBoth(g: Graph, a: seq<UsedEdge>, b: seq<UsedEdge>, m: Mode)
    ensures Moved(g, a + b, m) <==> Moved(g, a, m) || Moved(g, b, m)
  {
    if Moved(g, a, m) {
      var k :| 0 <= k < |a| && !a[k].mv.Park? && a[k].mv.e.st < |g.stretches| && LegModeOf(g, a[k]) == In(m);
      assert (a + b)[k] == a[k];
    }
    if Moved(g, b, m) {
      var k :| 0 <= k < |b| && !b[k].mv.Park? && b[k].mv.e.st < |g.stretches| && LegModeOf(g, b[k]) == In(m);
      assert (a + b)[|a| + k] == b[k];
    }
  }

  lemma {:induction false} MovedOfTravelled(g: Graph, edges: seq<UsedEdge>, m: Mode)
    ensures Moved(g, Travelled(edges), m) <==> Moved(g, edges, m)
  {
    if |edges| > 0 {
      var front, last := edges[..|edges| - 1], [edges[|edges| - 1]];
      MovedOfTravelled(g, front, m);
      assert edges == front + last;
      MovedOfBoth(g, front, last, m);
      MovedOfBoth(g, Travelled(front), last, m);
      assert Travelled(front) + [] == Travelled(front);
    }
  }

  lemma LegMoved(g: Graph, l: Leg, m: Mode)
    requires LegOk(g, l)
    ensures Moved(g, l.edges, m) <==> l.mode == In(m)
  {
    if l.mode == In(m) { assert LegModeOf(g, l.edges[0]) == In(m); }
  }

  lemma {:induction false} LegsSayWhatMoved(g: Graph, legs: seq<Leg>, m: Mode)
    requires forall k :: 0 <= k < |legs| ==> LegOk(g, legs[k])
    ensures HasMode(legs, m) <==> Moved(g, LegEdges(legs), m)
  {
    hide LegOk;
    if |legs| > 0 {
      var front, last := legs[..|legs| - 1], legs[|legs| - 1];
      LegsSayWhatMoved(g, front, m);
      MovedOfBoth(g, LegEdges(front), last.edges, m);
      LegMoved(g, last, m);
      hide Moved;
      assert legs == front + [last];
      if HasMode(legs, m) && last.mode != In(m) {
        var k :| 0 <= k < |legs| && legs[k].mode == In(m);
        assert front[k].mode == In(m);
      }
    }
  }

  /** A walk of one mode moves in that mode and no other, unless every move of it is a ride. */
  lemma OneModeMoves(g: Graph, q: Query, part: seq<UsedEdge>, m: Mode)
    requires |part| > 0 && |q.plan| == 1 && forall k :: 0 <= k < |part| ==> InOneMode(g, q, part[k])
    ensures Moved(g, part, m) ==> q.plan[0] == m
    ensures q.plan[0] == m && (!m.Hike? || !q.lifts) ==> Moved(g, part, m)
    ensures q.plan[0].Hike? && !Moved(g, part, Hike) ==>
              forall k :: 0 <= k < |part| ==>
                part[k].mv.Board? && part[k].mv.e.st < |g.stretches| && g.stretches[part[k].mv.e.st].cls.LiftLine?
  {
    assert InOneMode(g, q, part[0]);
  }

  lemma PairInOneMode(w: World, tp: TripPlan, pen: Penalties, i: nat, part: seq<UsedEdge>)
    requires Asked(w, tp) && OneModeEach(tp) && i < |tp.segPlans| && i + 1 < |tp.nodes| && Searched(tp, i)
    requires PairOk(w, tp, pen, i, tp.segPlans[i], part)
    ensures w.g.Valid() && |part| > 0
    ensures forall k :: 0 <= k < |part| ==> InOneMode(w.g, PairTask(w, tp, i, tp.segPlans[i], pen).q, part[k])
  {
    hide InOneMode;
    BuiltIsValid(w.g, w.base, w.near, w.hyp);
    var t := PairTask(w, tp, i, tp.segPlans[i], pen);
    OneModeWalk(w, t.q, t.start, MovesOf(part), part, Fresh);
    WalkTravels(t.g, t.q, t.start, MovesOf(part));
  }

  /** A pair that is not searched stands still, or is a forced ride. */
  lemma UnsearchedMovesNot(w: World, tp: TripPlan, pen: Penalties, i: nat, part: seq<UsedEdge>, m: Mode)
    requires Asked(w, tp) && i < |tp.segPlans| && i + 1 < |tp.nodes| && !Searched(tp, i)
    requires PairOk(w, tp, pen, i, tp.segPlans[i], part)
    ensures !Moved(w.g, part, m)
  {
    hide World.Valid, BestWalk;
  }

  /** What a pair of one mode moves in: a driven or ridden one in its mode; a walked one on foot, unless
      every move of it is a ride. */
  lemma PartMoves(w: World, tp: TripPlan, pen: Penalties, i: nat, part: seq<UsedEdge>, m: Mode)
    requires Asked(w, tp) && OneModeEach(tp) && i < |tp.segPlans| && i + 1 < |tp.nodes|
    requires PairOk(w, tp, pen, i, tp.segPlans[i], part)
    ensures Moved(w.g, part, m) ==> SearchedIn(tp, i, m)
    ensures SearchedIn(tp, i, m) && (!m.Hike? || !tp.lifts) ==> Moved(w.g, part, m)
    ensures SearchedIn(tp, i, Hike) && !Moved(w.g, part, Hike) ==>
              forall k :: 0 <= k < |part| ==>
                part[k].mv.Board? && part[k].mv.e.st < |w.g.stretches| && w.g.stretches[part[k].mv.e.st].cls.LiftLine?
  {
    hide Moved, InOneMode, World.Valid;
    if Searched(tp, i) {
      PairInOneMode(w, tp, pen, i, part);
      OneModeMoves(w.g, PairTask(w, tp, i, tp.segPlans[i], pen).q, part, m);
      assert tp.segPlans[i] == [tp.segPlans[i][0]];
    } else {
      UnsearchedMovesNot(w, tp, pen, i, part, m);
    }
  }

  /** Which of its pairs show in the modes of a trip's legs. */
  lemma LegsSayWhichPairs(w: World, tp: TripPlan, pen: Penalties, a: Answer, m: Mode)
    requires Asked(w, tp) && AnswerOk(w, tp, pen, a)
    ensures HasMode(a.legs, m) <==> exists i :: 0 <= i < |a.parts| && Moved(w.g, a.parts[i], m)
  {
    LegsSayWhatMoved(w.g, a.legs, m);
    MovedOfTravelled(w.g, Flat(a.parts), m);
    MovedOfFlat(w.g, a.parts, m);
  }

  /** Which modes a trip's legs show is fixed by its plan when every pair has one mode; only what is walked
      may be ridden instead, where lifts are allowed. */
  lemma ModesAreFixed(w: World, tp: TripPlan, pen: Penalties, a: Answer, m: Mode)
    requires Asked(w, tp) && AnswerOk(w, tp, pen, a) && OneModeEach(tp) && tp.segPlans != []
    requires !m.Hike? || !tp.lifts
    ensures HasMode(a.legs, m) <==> exists i :: 0 <= i < |tp.segPlans| && SearchedIn(tp, i, m)
  {
    LegsSayWhichPairs(w, tp, pen, a, m);
    forall i | 0 <= i < |a.parts| ensures Moved(w.g, a.parts[i], m) <==> SearchedIn(tp, i, m) {
      PartMoves(w, tp, pen, i, a.parts[i], m);
    }
  }

  /** So a round that charges nothing also has the smallest clock, stop included, whenever no stop parks or
      nothing can be ridden. */
  lemma NoLaterRoundIsShorter(w: World, tp: TripPlan, pen: Penalties, later: Penalties, a: Answer, b: Answer)
    requires Asked(w, tp) && RampFree(w.g) && PlansKnown(tp) && pen.Neutral()
    requires AnswerOk(w, tp, pen, a) && AnswerOk(w, tp, later, b)
    requires tp.parkSeg >= 1 ==> OneModeEach(tp) && !tp.lifts
    ensures a.seconds <= b.seconds
  {
    NoLaterRoundMovesFaster(w, tp, pen, later, a, b);
    if tp.parkSeg >= 1 && tp.segPlans != [] {
      ModesAreFixed(w, tp, pen, a, tp.plan[0]);
      ModesAreFixed(w, tp, later, b, tp.plan[0]);
      ModesAreFixed(w, tp, pen, a, Hike);
      ModesAreFixed(w, tp, later, b, Hike);
    }
  }
}
