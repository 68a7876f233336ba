/** A map on which the second card reports less than the first: a road to a car park, and from it a path and
    a lift to the same place (internal/route/search.go:786-849, 1335-1358). */
module Mountain {
  import opened Roads
  import opened Moves
  import opened Search
  import opened Answers
  import opened Network
  import opened Heuristic
  import opened Trip
  import opened Alternatives
  import opened Grades

  // ------------------------------------------------------------------ the map

  function Road(): Stretch {
    Stretch(834.0, 0, 1, Residential, false, 0.0, 0.0, 0, false, false, -1, -1, -1, false, false, 0,
            0.0, OtherLift, false, false, "")
  }

  function Trail(): Stretch { Road().(len := 500.0, a := 1, b := 2, cls := Path, footAccess := 1) }

  function Cable(): Stretch { Trail().(cls := LiftLine, liftDur := 250.0) }

  /** What the search from a station answers: the stations are junctions of the path themselves. */
  function OnTheSpot(v: nat): Option<Landing> { Some(Landing(v, 0.0, 0.0)) }

  function Drive(rev: bool): Edge { Edge(if rev then 0 else 1, 0, 60.0, rev) }

  function Climb(rev: bool): Edge { Edge(if rev then 1 else 2, 1, 540.0, rev) }

  function Ride(rev: bool): Edge { Edge(if rev then 1 else 2, 2, 550.0, rev) }

  function Map(): Graph {
    Graph(3, [Point(0.0, 0.0), Point(834.0, 0.0), Point(1334.0, 0.0)], [Road(), Trail(), Cable()],
          [[Drive(false)], [Drive(true)], []], [[], [], []],
          [[], [Climb(false)], [Climb(true)]], [[], [Ride(false)], [Ride(true)]])
  }

  lemma Weights()
    ensures forall rev, marked :: Weight(Car, Road(), rev, marked) == 60.0
    ensures forall rev :: Weight(Hike, Trail(), rev, false) == 540.0
    ensures LiftCost(Cable()) == 550.0
  {
  }

  lemma NoLinks()
    ensures Links(OnTheSpot, [Road(), Trail(), Cable()]) == []
  {
    assert [Road(), Trail(), Cable()][..2] == [Road(), Trail()];
    assert [Road(), Trail()][..1] == [Road()];
    assert [Road()][..0] == [];
  }

  /** The arcs of each mode, stretch by stretch. */
  lemma ArcsOfEach(m: Mode, i: nat, a: Arc)
    requires i < 3
    ensures a in ArcsOf(m, Map().stretches[i], i) <==>
      (m.Car? && i == 0 && (a == Arc(0, Drive(false)) || a == Arc(1, Drive(true))))
      || (m.Hike? && i == 1 && (a == Arc(1, Climb(false)) || a == Arc(2, Climb(true))))
  {
    Weights();
    hide Weight;
    match m case Car => case Bike => case Hike =>
  }

  lemma InRow(m: Mode, v: nat, e: Edge)
    requires v < 3
    ensures e in Map().Adj(m)[v] <==>
      (m.Car? && ((v == 0 && e == Drive(false)) || (v == 1 && e == Drive(true))))
      || (m.Hike? && ((v == 1 && e == Climb(false)) || (v == 2 && e == Climb(true))))
  {
    match m case Car => case Bike => case Hike =>
  }

  lemma LayerHolds(m: Mode, v: nat, e: Edge)
    requires v < 3
    ensures e in Map().Adj(m)[v] <==> Arc(v, e) in Arcs(m, Map().stretches)
  {
    ArcIsOfItsStretch(m, Map().stretches, Arc(v, e));
    if e.st < 3 { ArcsOfEach(m, e.st, Arc(v, e)); }
    InRow(m, v, e);
    hide Map, Arcs, ArcsOf;
  }

  lemma LiftLayerHolds(v: nat, e: Edge)
    requires v < 3
    ensures e in Map().lift[v] <==> IsLiftArc(Map().stretches, 3, Arc(v, e))
  {
    Weights();
    hide Weight, LiftCost;
  }

  /** The map is what Build makes of its three stretches. */
  lemma MapIsBuilt()
    ensures Built(Map(), 3, OnTheSpot)
  {
    NoLinks();
    assert Map().stretches[..3] == Map().stretches == Map().stretches + [];
    forall m: Mode, v, e | 0 <= v < 3 ensures e in Map().Adj(m)[v] <==> Arc(v, e) in Arcs(m, Map().stretches) {
      LayerHolds(m, v, e);
    }
    forall v, e | 0 <= v < 3 ensures e in Map().lift[v] <==> IsLiftArc(Map().stretches, 3, Arc(v, e)) {
      LiftLayerHolds(v, e);
    }
  }

  lemma AlongTheAxis(hyp: (real, real) -> real, x: real)
    requires IsHypot(hyp)
    ensures hyp(x, 0.0) == if x >= 0.0 then x else -x
  {
    var h, a := hyp(x, 0.0), if x >= 0.0 then x else -x;
    assert h * h == x * x + 0.0 * 0.0 == a * a;
    SquaresOrder(h, a);
    SquaresOrder(a, h);
  }

  function OnMap3(hyp: (real, real) -> real): World { World(Map(), 3, OnTheSpot, hyp) }

  lemma MapIsSane(hyp: (real, real) -> real)
    requires IsHypot(hyp)
    ensures Sane(Map(), hyp)
  {
    AlongTheAxis(hyp, -834.0);
    AlongTheAxis(hyp, -500.0);
    hide IsHypot;
    var at := Map().pos;
    assert Dist(hyp, at[0], at[1]) == 834.0 && Dist(hyp, at[1], at[2]) == 500.0;
    hide Dist;
  }

  /** And sane, whatever the hypotenuse function. */
  lemma WorldIsValid(hyp: (real, real) -> real)
    requires IsHypot(hyp)
    ensures OnMap3(hyp).Valid()
  {
    MapIsBuilt();
    MapIsSane(hyp);
    hide Built, IsHypot, Sane;
  }

  lemma MapIsRampFree()
    ensures Map().Valid() && RampFree(Map())
  {
  }

  // ------------------------------------------------------------------ the trip

  /** Driven to the car park, a stop, and walked from there, where lifts may be ridden. */
  const TRIP: TripPlan :=
    TripPlan([0, 1, 2], [true, true, true], [Car, Hike], [[Car], [Hike]], [None, None, None], 1, 2, true, {})

  const DRIVEN: UsedEdge := UsedEdge(State(1, Car), Along(Drive(false)), 60.0)
  const WALKED: UsedEdge := UsedEdge(State(2, Hike), Along(Climb(false)), 540.0)
  const RIDDEN: UsedEdge := UsedEdge(State(2, Hike), Board(Ride(false)), 550.0)

  /** The first card: driven and walked, ten minutes and two for the parking. */
  const FIRST: Answer :=
    Answer([[DRIVEN], [WALKED]], [Leg(In(Car), "", [DRIVEN], 60.0, 834.0),
        Leg(In(Hike), "", [WALKED], 540.0, 500.0)], 720.0)

  /** The second: driven and ridden, and nothing for the parking. */
  const SECOND: Answer :=
    Answer([[DRIVEN], [RIDDEN]], [Leg(In(Car), "", [DRIVEN], 60.0, 834.0),
        Leg(LegMode.Ride, "", [RIDDEN], 550.0, 500.0)], 610.0)

  lemma TripIsAsked(hyp: (real, real) -> real)
    requires IsHypot(hyp)
    ensures Asked(OnMap3(hyp), TRIP) && PlansKnown(TRIP) && OneModeEach(TRIP)
  {
    WorldIsValid(hyp);
    hide World.Valid;
  }

  /** The only move from a junction towards the next, in its mode. */
  lemma OnlyWay(q: Query, s: State, mv: Move)
    requires Map().Valid() && Legal(Map(), q, s, mv)
    ensures q.plan == [Car] && s == State(0, Car) ==> mv == Along(Drive(false))
    ensures q.plan == [Hike] && s == State(1, Hike) ==> mv == Along(Climb(false)) || mv == Board(Ride(false))
  {
  }

  lemma OneMove(q: Query, s: State, e: UsedEdge)
    requires (q.plan == [Car] && s == State(0, Car) && e == DRIVEN)
          || (q.plan == [Hike] && s == State(1, Hike) && q.grade == 2 && (e == WALKED || (e == RIDDEN && q.lifts)))
    requires q.avoid == {}
    ensures Map().Valid() && Legal(Map(), q, s, e.mv) && e.to == Target(s, e.mv)
            && e.w == StepClock(Map(), Fresh, s, e.mv)
    ensures StepCost(Map(), q, Fresh, s, e.mv) == Charged(e.w, q.pen.Factor(e.mv.e.st))
  {
  }

  /** One move that is the cheapest first move of every walk is a best walk. */
  lemma BestMove(t: Task, e: UsedEdge)
    requires t.g.Valid() && t.q.pen.Valid() && Legal(t.g, t.q, t.start, e.mv) && t.start.node != t.to
    requires e.to == Target(t.start, e.mv) && e.to.node == t.to && e.w == StepClock(t.g, Fresh, t.start, e.mv)
    requires forall mv :: Legal(t.g, t.q, t.start, mv) ==>
               StepCost(t.g, t.q, Fresh, t.start, e.mv) <= StepCost(t.g, t.q, Fresh, t.start, mv)
    ensures BestWalk(t, [e])
  {
    assert MovesOf([e]) == [e.mv];
    forall other | LegalWalk(t.g, t.q, t.start, other) && End(t.start, other).node == t.to
      ensures Cost(t.g, t.q, Fresh, t.start, [e.mv])
           <= Cost(t.g, t.q, Fresh, t.start, other) + Slack(t.g, t.q, t.start, other)
    {
      SlackNonNegative(t.g, t.q, t.start, other);
      ClockIsAtMostCost(t.g, t.q, ArrivalOf(other[0]), Target(t.start, other[0]), other[1..]);
    }
  }

  /** The penalties of the second round, as the first answer leaves them. */
  const LATER: Penalties := Penalties(map[0 := 1.5, 1 := 1.5], {}, [], 0.0)

  lemma LaterIsDerived()
    ensures NextPenalties(Map(), TRIP, UNPENALISED, false, 0, FIRST, [FIRST]) == LATER
  {
    AnswersAdd(WALKED);
    var used := UsedStretches([DRIVEN, WALKED]);
    assert used == {0, 1} by {
      assert [DRIVEN, WALKED][0] == DRIVEN && [DRIVEN, WALKED][1] == WALKED;
    }
    assert Penalise(map[], used) == LATER.stretch;
  }

  /** Driving is the best way to the car park whatever the round charges. */
  lemma DrivingIsBest(hyp: (real, real) -> real, pen: Penalties)
    requires IsHypot(hyp) && pen.Valid() && Asked(OnMap3(hyp), TRIP)
    ensures PairOk(OnMap3(hyp), TRIP, pen, 0, [Car], [DRIVEN])
  {
    var t := PairTask(OnMap3(hyp), TRIP, 0, [Car], pen);
    OneMove(t.q, t.start, DRIVEN);
    forall mv | Legal(t.g, t.q, t.start, mv) ensures mv == DRIVEN.mv { OnlyWay(t.q, t.start, mv); }
    hide World.Valid, Legal, Map;
    BestMove(t, DRIVEN);
  }

  /** From there the best way is the cheaper of the two. */
  lemma ClimbingIsBest(hyp: (real, real) -> real, pen: Penalties, e: UsedEdge, other: UsedEdge)
    requires IsHypot(hyp) && pen.Valid() && Asked(OnMap3(hyp), TRIP)
    requires (e == WALKED && other == RIDDEN) || (e == RIDDEN && other == WALKED)
    requires Charged(e.w, pen.Factor(e.mv.e.st)) <= Charged(other.w, pen.Factor(other.mv.e.st))
    ensures PairOk(OnMap3(hyp), TRIP, pen, 1, [Hike], [e])
  {
    var t := PairTask(OnMap3(hyp), TRIP, 1, [Hike], pen);
    OneMove(t.q, t.start, e);
    OneMove(t.q, t.start, other);
    forall mv | Legal(t.g, t.q, t.start, mv) ensures mv == e.mv || mv == other.mv { OnlyWay(t.q, t.start, mv); }
    hide World.Valid, Legal, Map, Charged;
    BestMove(t, e);
  }

  lemma FlatOfTwo(a: seq<UsedEdge>, b: seq<UsedEdge>)
    ensures Flat([a, b]) == a + b
  {
    FlatOneMore([], a);
    FlatOneMore([a], b);
    assert [] + [a] == [a] && [a] + [b] == [a, b] && [] + a == a;
  }

  lemma OneEdge(g: Graph, e: UsedEdge)
    requires !e.mv.Park? && e.mv.e.st < |g.stretches|
    ensures Seconds([e]) == e.w && Travelled([e]) == [e] && Metres(g, [e]) == g.stretches[e.mv.e.st].len
  {
    SecondsSnoc([], e);
    MetresSnoc(g, [], e);
    assert [] + [e] == [e];
  }

  lemma AnswersAdd(e: UsedEdge)
    requires e == WALKED || e == RIDDEN
    ensures Flat([[DRIVEN], [e]]) == [DRIVEN, e] == Travelled([DRIVEN, e])
    ensures Seconds([DRIVEN, e]) == 60.0 + e.w && Metres(Map(), [DRIVEN, e]) == 1334.0
  {
    FlatOfTwo([DRIVEN], [e]);
    OneEdge(Map(), DRIVEN);
    OneEdge(Map(), e);
    assert [DRIVEN] + [e] == [DRIVEN, e];
    TravelledOfBoth([DRIVEN], [e]);
    SecondsSnoc([DRIVEN], e);
    MetresSnoc(Map(), [DRIVEN], e);
  }

  lemma LegFits(l: Leg, e: UsedEdge)
    requires (e == DRIVEN && l == Leg(In(Car), "", [e], 60.0, 834.0))
          || (e == WALKED && l == Leg(In(Hike), "", [e], 540.0, 500.0))
          || (e == RIDDEN && l == Leg(LegMode.Ride, "", [e], 550.0, 500.0))
    ensures LegOk(Map(), l)
  {
    OneEdge(Map(), e);
  }

  lemma LegsOfTwo(l0: Leg, l1: Leg)
    ensures LegEdges([l0, l1]) == l0.edges + l1.edges
  {
    assert [l0, l1][..1] == [l0] && [l0][..0] == [];
    assert LegEdges([l0]) == [] + l0.edges;
  }

  lemma LegsFit(a: Answer)
    requires a == FIRST || a == SECOND
    ensures LegEdges(a.legs) == Flat(a.parts) == Travelled(Flat(a.parts))
    ensures forall k :: 0 <= k < |a.legs| ==> LegOk(Map(), a.legs[k])
  {
    hide LegOk, Flat, Travelled, LegEdges;
    var l0, l1, e := a.legs[0], a.legs[1], a.parts[1][0];
    LegFits(l0, DRIVEN);
    LegFits(l1, e);
    AnswersAdd(e);
    LegsOfTwo(l0, l1);
    assert a.legs == [l0, l1] && a.parts == [[DRIVEN], [e]];
  }

  lemma ChargeFits(a: Answer)
    requires a == FIRST || a == SECOND
    ensures StopCharge(TRIP, a.legs) == if a == FIRST then 120.0 else 0.0
  {
    assert a.legs[0].mode == In(Car);
    assert a == FIRST ==> a.legs[1].mode == In(Hike);
  }

  lemma ClockFits(a: Answer)
    requires a == FIRST || a == SECOND
    ensures a.seconds == MoveSeconds(a) + StopCharge(TRIP, a.legs)
  {
    hide StopCharge, Flat, Seconds;
    ChargeFits(a);
    AnswersAdd(a.parts[1][0]);
  }

  lemma AnswerFits(hyp: (real, real) -> real, pen: Penalties, a: Answer)
    requires IsHypot(hyp) && Asked(OnMap3(hyp), TRIP) && (a == FIRST || a == SECOND)
    requires PairOk(OnMap3(hyp), TRIP, pen, 0, [Car], a.parts[0])
             && PairOk(OnMap3(hyp), TRIP, pen, 1, [Hike], a.parts[1])
    ensures AnswerOk(OnMap3(hyp), TRIP, pen, a)
  {
    hide World.Valid, Asked, PairOk, LegOk, MoveSeconds, StopCharge, LegEdges, Flat, Travelled, Map;
    LegsFit(a);
    ClockFits(a);
  }

  lemma SharedOneMore(g: Graph, edges: seq<UsedEdge>, e: UsedEdge, used: set<nat>)
    requires !e.mv.Park? && e.mv.e.st < |g.stretches|
    ensures SharedMetres(g, edges + [e], used)
         == SharedMetres(g, edges, used) + (if e.mv.e.st in used then g.stretches[e.mv.e.st].len else 0.0)
  {
    assert (edges + [e])[..|edges|] == edges;
  }

  /** The second card is not the first drawn again: it shares the road, five eighths of its length. */
  lemma NotTheSameLine()
    ensures !SameLine(Map(), SECOND, FIRST)
  {
    AnswersAdd(WALKED);
    AnswersAdd(RIDDEN);
    var used := UsedStretches([DRIVEN, WALKED]);
    assert 2 !in used;
    SharedOneMore(Map(), [DRIVEN], RIDDEN, used);
    SharedOneMore(Map(), [], DRIVEN, used);
    assert [] + [DRIVEN] == [DRIVEN] && [DRIVEN] + [RIDDEN] == [DRIVEN, RIDDEN];
  }

  /** The first round's answer, and the second's, are answers of the trip. */
  lemma FirstIsAnswer(hyp: (real, real) -> real)
    requires IsHypot(hyp) && Asked(OnMap3(hyp), TRIP)
    ensures AnswerOk(OnMap3(hyp), TRIP, UNPENALISED, FIRST)
  {
    hide World.Valid, Asked, PairOk, AnswerOk, Map;
    DrivingIsBest(hyp, UNPENALISED);
    assert Charged(540.0, 1.0) == 540.0 && Charged(550.0, 1.0) == 550.0;
    ClimbingIsBest(hyp, UNPENALISED, WALKED, RIDDEN);
    AnswerFits(hyp, UNPENALISED, FIRST);
  }

  lemma SecondIsAnswer(hyp: (real, real) -> real)
    requires IsHypot(hyp) && Asked(OnMap3(hyp), TRIP)
    ensures AnswerOk(OnMap3(hyp), TRIP, LATER, SECOND)
  {
    hide World.Valid, Asked, PairOk, AnswerOk, Map;
    DrivingIsBest(hyp, LATER);
    assert Charged(550.0, 1.0) == 550.0 && Charged(540.0, 1.5) == 810.0;
    ClimbingIsBest(hyp, LATER, RIDDEN, WALKED);
    AnswerFits(hyp, LATER, SECOND);
  }

  /** Two answers, the second found under the penalties the first leaves, are two rounds; and when the second is
      another line both are kept. */
  lemma TwoRounds(w: World, tp: TripPlan, engineParks: bool, a: Answer, b: Answer)
    requires Asked(w, tp) && AnswerOk(w, tp, UNPENALISED, a) && !SameLine(w.g, b, a)
    requires AnswerOk(w, tp, NextPenalties(w.g, tp, UNPENALISED, engineParks, 0, a, [a]), b)
    ensures RoundsOk(w, tp, engineParks, [a, b]) && KeptOf(w.g, [a, b]) == [a, b]
  {
    hide Asked, AnswerOk, SameLine, NextPenalties, KeptOf, RoundsOk;
    NoRoundsYet(w, tp, engineParks);
    OneRoundMore(w, tp, engineParks, [], a);
    assert [] + [a] == [a] && [a] + [b] == [a, b] && [a][..1] == [a];
    assert RoundPenalties(w.g, tp, engineParks, [a], 0) == UNPENALISED;
    assert RoundPenalties(w.g, tp, engineParks, [a], 1)
        == NextPenalties(w.g, tp, UNPENALISED, engineParks, 0, a, [a]);
    OneRoundMore(w, tp, engineParks, [a], b);
  }

  /** With lifts allowed the stop's charge can undo it: the first round answers with the path, two minutes of
      parking included; the second, under the penalties that answer leaves, rides the lift, is charged no
      parking because nothing was walked, and reports the smaller clock. And it is kept. */
  lemma LaterRoundCanReportLess(hyp: (real, real) -> real)
    requires IsHypot(hyp)
    ensures var w := OnMap3(hyp);
      && Asked(w, TRIP) && RampFree(w.g) && PlansKnown(TRIP) && OneModeEach(TRIP)
      && RoundsOk(w, TRIP, false, [FIRST, SECOND]) && KeptOf(w.g, [FIRST, SECOND]) == [FIRST, SECOND]
      && AnswerOk(w, TRIP, UNPENALISED, FIRST) && AnswerOk(w, TRIP, LATER, SECOND)
      && SECOND.seconds < FIRST.seconds
  {
    TripIsAsked(hyp);
    MapIsRampFree();
    hide World.Valid, Asked, RampFree, AnswerOk, RoundsOk, KeptOf, SameLine, NextPenalties;
    FirstIsAnswer(hyp);
    SecondIsAnswer(hyp);
    LaterIsDerived();
    NotTheSameLine();
    TwoRounds(OnMap3(hyp), TRIP, false, FIRST, SECOND);
  }
}
