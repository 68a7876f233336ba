/** A map and a request whose pair plans are not fixed in advance: a via, then two stops. How its first pair
    ends decides what its second may do (internal/route/search.go:416-428, 786-917, 1172-1201). */
module Detour {
  import opened Roads
  import opened Moves
  import opened Search
  import opened Answers
  import opened Network
  import opened Heuristic
  import opened Trip
  import opened Alternatives
  import opened Grades
  import Mountain

  // ------------------------------------------------------------------ the map

  /** The long way round for cars. */
  function Bypass(): Stretch {
    Stretch(9730.0, 0, 1, Residential, false, 0.0, 0.0, 0, false, false, -1, -1, -1, false, false, 0,
            0.0, OtherLift, false, false, "")
  }

  /** The path between the same two places, of a given sac grade. */
  function Trail(sac: int): Stretch { Bypass().(len := 500.0, cls := Path, sac := sac, footAccess := 1) }

  /** The road on from there, open to walkers or not. */
  function Lane(open: bool): Stretch { Bypass().(len := 278.0, a := 1, b := 2, footAccess := if open then 1 else -1) }

  function Drive(rev: bool): Edge { Edge(if rev then 0 else 1, 0, 700.0, rev) }

  function Climb(rev: bool): Edge { Edge(if rev then 0 else 1, 1, 540.0, rev) }

  function Cruise(rev: bool): Edge { Edge(if rev then 1 else 2, 2, 20.0, rev) }

  function Stroll(rev: bool): Edge { Edge(if rev then 1 else 2, 2, 300.24, rev) }

  function Map(sac: int, open: bool): Graph {
    Graph(3, [Point(0.0, 0.0), Point(500.0, 0.0), Point(778.0, 0.0)], [Bypass(), Trail(sac), Lane(open)],
          [[Drive(false)], [Drive(true), Cruise(false)], [Cruise(true)]], [[], [], []],
          if open then [[Climb(false)], [Climb(true), Stroll(false)], [Stroll(true)]]
          else [[Climb(false)], [Climb(true)], []],
          [[], [], []])
  }

  predicate EasySac(sac: int) { 0 <= sac <= 3 }

  lemma Weights(sac: int, open: bool)
    requires EasySac(sac)
    ensures forall rev, marked :: Weight(Car, Bypass(), rev, marked) == 700.0
    ensures forall rev, marked :: Weight(Car, Lane(open), rev, marked) == 20.0
    ensures forall rev :: Weight(Hike, Trail(sac), rev, false) == 540.0
    ensures forall rev :: Weight(Hike, Lane(open), rev, false) == 300.24
  {
  }

  /** The arcs of each mode, stretch by stretch. */
  predicate IsArc(open: bool, m: Mode, a: Arc) {
    match m
    case Car => a in {Arc(0, Drive(false)), Arc(1, Drive(true)), Arc(1, Cruise(false)), Arc(2, Cruise(true))}
    case Bike => false
    case Hike =>
      || a in {Arc(0, Climb(false)), Arc(1, Climb(true))}
      || (open && a in {Arc(1, Stroll(false)), Arc(2, Stroll(true))})
  }

  lemma ArcsOfEach(sac: int, open: bool, m: Mode, i: nat, a: Arc)
    requires EasySac(sac) && i < 3
    ensures a in ArcsOf(m, Map(sac, open).stretches[i], i) <==> a.e.st == i && IsArc(open, m, a)
  {
    Weights(sac, open);
    hide Weight;
    match m case Car => case Bike => case Hike =>
  }

  lemma InRow(sac: int, open: bool, m: Mode, v: nat, e: Edge)
    requires v < 3
    ensures e in Map(sac, open).Adj(m)[v] <==> IsArc(open, m, Arc(v, e))
  {
    match m case Car => case Bike => case Hike =>
  }

  lemma LayerHolds(sac: int, open: bool, m: Mode, v: nat, e: Edge)
    requires EasySac(sac) && v < 3
    ensures e in Map(sac, open).Adj(m)[v] <==> Arc(v, e) in Arcs(m, Map(sac, open).stretches)
  {
    var sts := Map(sac, open).stretches;
    ArcIsOfItsStretch(m, sts, Arc(v, e));
    if e.st < 3 { ArcsOfEach(sac, open, m, e.st, Arc(v, e)); }
    InRow(sac, open, m, v, e);
    assert IsArc(open, m, Arc(v, e)) ==> e.st < 3;
    hide Map, Arcs, ArcsOf, IsArc;
  }

  lemma NoLinks(sac: int, open: bool)
    ensures Links(Mountain.OnTheSpot, Map(sac, open).stretches) == []
  {
    var sts := Map(sac, open).stretches;
    assert sts[..2] == [Bypass(), Trail(sac)] && sts[..2][..1] == [Bypass()] && sts[..2][..1][..0] == [];
    assert Links(Mountain.OnTheSpot, sts[..2][..1]) == [];
    assert Links(Mountain.OnTheSpot, sts[..2]) == [];
  }

  /** The map is what Build makes of its three stretches. */
  lemma MapIsBuilt(sac: int, open: bool)
    requires EasySac(sac)
    ensures Built(Map(sac, open), 3, Mountain.OnTheSpot)
  {
    var g := Map(sac, open);
    NoLinks(sac, open);
    assert g.stretches[..3] == g.stretches == g.stretches + [];
    hide Arcs, ArcsOf, Links;
    forall m: Mode, v, e | 0 <= v < 3 ensures e in g.Adj(m)[v] <==> Arc(v, e) in Arcs(m, g.stretches) {
      LayerHolds(sac, open, m, v, e);
    }
  }

  lemma MapIsSane(sac: int, open: bool, hyp: (real, real) -> real)
    requires IsHypot(hyp)
    ensures Sane(Map(sac, open), hyp)
  {
    Mountain.AlongTheAxis(hyp, -500.0);
    Mountain.AlongTheAxis(hyp, -278.0);
    hide IsHypot;
    var at := Map(sac, open).pos;
    assert Dist(hyp, at[0], at[1]) == 500.0 && Dist(hyp, at[1], at[2]) == 278.0;
    hide Dist;
  }

  function On(sac: int, open: bool, hyp: (real, real) -> real): World {
    World(Map(sac, open), 3, Mountain.OnTheSpot, hyp)
  }

  lemma WorldIsValid(sac: int, open: bool, hyp: (real, real) -> real)
    requires EasySac(sac) && IsHypot(hyp)
    ensures On(sac, open, hyp).Valid()
  {
    MapIsBuilt(sac, open);
    MapIsSane(sac, open, hyp);
    hide Built, IsHypot, Sane;
  }

  lemma MapIsGood(sac: int, open: bool)
    ensures Map(sac, open).Valid() && RampFree(Map(sac, open)) && NoFerrata(Map(sac, open))
  {
  }

  // ------------------------------------------------------------------ the trip

  /** A via, then two stops: what Waypoints.ViaInFront makes of such a request. */
  function Via(parkSeg: nat, grade: int, lifts: bool): TripPlan {
    TripPlan([0, 1, 2], [false, true, true], [Car, Hike], [], [None, None, None], parkSeg, grade, lifts, {})
  }

  lemma TripIsAsked(sac: int, open: bool, hyp: (real, real) -> real, parkSeg: nat, grade: int, lifts: bool)
    requires EasySac(sac) && IsHypot(hyp) && grade >= 1
    ensures Asked(On(sac, open, hyp), Via(parkSeg, grade, lifts)) && !PlansKnown(Via(parkSeg, grade, lifts))
    ensures OneModeEach(Via(parkSeg, grade, lifts))
  {
    WorldIsValid(sac, open, hyp);
    hide World.Valid;
    assert Via(parkSeg, grade, lifts).stop[1];
  }

  const DRIVEN: UsedEdge := UsedEdge(State(1, Car), Along(Drive(false)), 700.0)
  const CRUISED: UsedEdge := UsedEdge(State(2, Car), Along(Cruise(false)), 20.0)
  const PARKED: UsedEdge := UsedEdge(State(0, Hike), Park(Hike), 120.0)
  const WALKED: UsedEdge := UsedEdge(State(1, Hike), Along(Climb(false)), 540.0)
  const STROLLED: UsedEdge := UsedEdge(State(2, Hike), Along(Stroll(false)), 300.24)

  /** Parked at once and walked all the way: sixteen minutes. */
  const ON_FOOT: Answer :=
    Answer([[PARKED, WALKED], [STROLLED]], [Leg(In(Hike), "", [WALKED], 540.0, 500.0),
        Leg(In(Hike), "", [STROLLED], 300.24, 278.0)], 960.24)

  /** Driven all the way: twelve. */
  const BY_CAR: Answer :=
    Answer([[DRIVEN], [CRUISED]], [Leg(In(Car), "", [DRIVEN], 700.0, 9730.0),
        Leg(In(Car), "", [CRUISED], 20.0, 278.0)], 720.0)

  // ------------------------------------------------------------------ its walks

  /** Every legal move from the two places a pair begins at. */
  lemma MovesFrom(sac: int, open: bool, q: Query, s: State, mv: Move)
    requires EasySac(sac) && Map(sac, open).Valid() && Legal(Map(sac, open), q, s, mv) && q.avoid == {}
    requires q.plan == [Car, Hike] || q.plan == [Hike]
    ensures s == State(0, Car) ==> mv == DRIVEN.mv || mv == PARKED.mv
    ensures s == State(1, Car) ==> mv == CRUISED.mv || mv == Along(Drive(true)) || mv == Park(Hike)
    ensures s == State(0, Hike) ==> mv == WALKED.mv && sac <= GradeCeiling(q.grade)
    ensures s == State(1, Hike) ==> mv == Along(Climb(true)) || (open && mv == STROLLED.mv)
  {
  }

  lemma IsLegal(sac: int, open: bool, q: Query, s: State, e: UsedEdge)
    requires EasySac(sac) && Map(sac, open).Valid() && q.avoid == {} && q.grade >= 1
    requires
      || (q.plan == [Car, Hike] && s == State(0, Car) && e in {DRIVEN, PARKED})
      || (q.plan == [Car, Hike] && s == State(1, Car) && e == CRUISED)
      || (q.plan == [Car, Hike] && s == State(0, Hike) && e == WALKED && sac <= GradeCeiling(q.grade))
      || (q.plan == [Hike] && s == State(1, Hike) && e == STROLLED && open)
    ensures Legal(Map(sac, open), q, s, e.mv) && e.to == Target(s, e.mv)
    ensures forall a: Arrival :: (a.On? ==> a.st < 3) ==> e.w == StepClock(Map(sac, open), a, s, e.mv)
  {
    if e == PARKED { assert Map(sac, open).Adj(Hike)[0][0] == Climb(false); }
  }

  /** What the two ways out of junction 0 cost under a round's penalties. */
  function OnWheels(pen: Penalties): real { Charged(700.0, pen.Factor(0)) }

  function OnFootTo(pen: Penalties): real {
    SWITCH_COST + pen.ParkCost(Point(0.0, 0.0)) + Charged(540.0, pen.Factor(1))
  }

  lemma StepsOut(sac: int, open: bool, q: Query)
    requires Map(sac, open).Valid()
    ensures StepCost(Map(sac, open), q, Fresh, State(0, Car), DRIVEN.mv) == OnWheels(q.pen)
    ensures StepCost(Map(sac, open), q, Fresh, State(0, Car), PARKED.mv)
         + StepCost(Map(sac, open), q, Fresh, State(0, Hike), WALKED.mv) == OnFootTo(q.pen)
  {
  }

  /** Every walk from junction 0 to junction 1 begins with the bypass, or parks and takes the path. */
  lemma WaysOut(sac: int, open: bool, q: Query, ms: seq<Move>)
    requires EasySac(sac) && Map(sac, open).Valid() && q.plan == [Car, Hike] && q.avoid == {} && q.pen.Valid()
    requires LegalWalk(Map(sac, open), q, State(0, Car), ms) && End(State(0, Car), ms).node == 1
    ensures |ms| > 0 && (ms[0] == DRIVEN.mv || (|ms| > 1 && ms[0] == PARKED.mv && ms[1] == WALKED.mv))
    ensures ms[0] == DRIVEN.mv ==> Cost(Map(sac, open), q, Fresh, State(0, Car), ms) >= OnWheels(q.pen)
    ensures ms[0] != DRIVEN.mv ==>
              sac <= GradeCeiling(q.grade) && Cost(Map(sac, open), q, Fresh, State(0, Car), ms) >= OnFootTo(q.pen)
  {
    var g, s := Map(sac, open), State(0, Car);
    StepsOut(sac, open, q);
    assert ms != [];
    MovesFrom(sac, open, q, s, ms[0]);
    ClockIsAtMostCost(g, q, ArrivalOf(ms[0]), Target(s, ms[0]), ms[1..]);
    hide Map, Legal, StepCost, StepClock;
    if ms[0] != DRIVEN.mv {
      assert Target(s, ms[0]) == State(0, Hike) && ms[1..] != [];
      MovesFrom(sac, open, q, State(0, Hike), ms[1]);
      ClockIsAtMostCost(g, q, ArrivalOf(ms[1]), Target(State(0, Hike), ms[1]), ms[2..]);
      assert ms[1..][1..] == ms[2..];
    }
  }

  // ------------------------------------------------------------------ its answers

  /** A move in front of a recorded walk. */
  lemma InFront(g: Graph, q: Query, a: Arrival, s: State, e: UsedEdge, rest: seq<UsedEdge>)
    requires g.Valid() && Legal(g, q, s, e.mv) && e.to == Target(s, e.mv) && e.w == StepClock(g, a, s, e.mv)
    requires LegalWalk(g, q, e.to, MovesOf(rest)) && Recorded(g, ArrivalOf(e.mv), e.to, rest)
    ensures var ms := MovesOf([e] + rest);
      && LegalWalk(g, q, s, ms) && End(s, ms) == End(e.to, MovesOf(rest)) && Recorded(g, a, s, [e] + rest)
      && Cost(g, q, a, s, ms) == StepCost(g, q, a, s, e.mv) + Cost(g, q, ArrivalOf(e.mv), e.to, MovesOf(rest))
  {
    hide Legal, StepClock, StepCost;
    assert ([e] + rest)[1..] == rest;
    assert MovesOf([e] + rest)[1..] == MovesOf(rest);
  }

  lemma NoWalk(g: Graph, q: Query, a: Arrival, s: State)
    requires g.Valid()
    ensures LegalWalk(g, q, s, MovesOf([])) && End(s, MovesOf([])) == s && Recorded(g, a, s, [])
    ensures Cost(g, q, a, s, MovesOf([])) == 0.0
  {}

  lemma WalkOfOne(g: Graph, q: Query, a: Arrival, s: State, e: UsedEdge)
    requires g.Valid() && Legal(g, q, s, e.mv) && e.to == Target(s, e.mv) && e.w == StepClock(g, a, s, e.mv)
    ensures var ms := MovesOf([e]);
      && LegalWalk(g, q, s, ms) && End(s, ms) == e.to && Recorded(g, a, s, [e])
      && Cost(g, q, a, s, ms) == StepCost(g, q, a, s, e.mv)
  {
    hide Legal, StepClock, StepCost, LegalWalk, End, Recorded, Cost;
    NoWalk(g, q, ArrivalOf(e.mv), e.to);
    InFront(g, q, a, s, e, []);
    assert [e] + [] == [e];
  }

  lemma WalkOfTwo(t: Task, e: UsedEdge, f: UsedEdge)
    requires t.g.Valid() && Legal(t.g, t.q, t.start, e.mv) && e.to == Target(t.start, e.mv)
    requires e.w == StepClock(t.g, Fresh, t.start, e.mv)
    requires Legal(t.g, t.q, e.to, f.mv) && f.to == Target(e.to, f.mv)
    requires f.w == StepClock(t.g, ArrivalOf(e.mv), e.to, f.mv)
    ensures var ms := MovesOf([e, f]);
      && LegalWalk(t.g, t.q, t.start, ms) && End(t.start, ms) == f.to && Recorded(t.g, Fresh, t.start, [e, f])
      && Cost(t.g, t.q, Fresh, t.start, ms)
      == StepCost(t.g, t.q, Fresh, t.start, e.mv) + StepCost(t.g, t.q, ArrivalOf(e.mv), e.to, f.mv)
  {
    hide Legal, StepClock, StepCost, LegalWalk, End, Recorded, Cost;
    WalkOfOne(t.g, t.q, ArrivalOf(e.mv), e.to, f);
    InFront(t.g, t.q, Fresh, t.start, e, [f]);
    assert [e] + [f] == [e, f];
  }

  /** What is no dearer than the bypass nor than the path, where it may be walked, is a best walk to junction 1. */
  lemma BestOut(t: Task, sac: int, open: bool, edges: seq<UsedEdge>)
    requires EasySac(sac) && t.g == Map(sac, open) && t.g.Valid() && t.q.plan == [Car, Hike] && t.q.avoid == {}
    requires t.q.pen.Valid() && t.start == State(0, Car) && t.to == 1
    requires LegalWalk(t.g, t.q, t.start, MovesOf(edges)) && End(t.start, MovesOf(edges)).node == 1
    requires Recorded(t.g, Fresh, t.start, edges)
    requires Cost(t.g, t.q, Fresh, t.start, MovesOf(edges)) <= OnWheels(t.q.pen)
    requires sac <= GradeCeiling(t.q.grade) ==> Cost(t.g, t.q, Fresh, t.start, MovesOf(edges)) <= OnFootTo(t.q.pen)
    ensures BestWalk(t, edges)
  {
    hide Legal, Map, OnWheels, OnFootTo, Cost, Recorded;
    forall other | LegalWalk(t.g, t.q, t.start, other) && End(t.start, other).node == t.to
      ensures Cost(t.g, t.q, Fresh, t.start, MovesOf(edges))
           <= Cost(t.g, t.q, Fresh, t.start, other) + Slack(t.g, t.q, t.start, other)
    {
      WaysOut(sac, open, t.q, other);
      SlackNonNegative(t.g, t.q, t.start, other);
    }
  }

  /** The trip on this map: what every lemma about its pairs supposes. */
  ghost predicate Setting(sac: int, open: bool, hyp: (real, real) -> real, tp: TripPlan, pen: Penalties) {
    && EasySac(sac) && IsHypot(hyp) && pen.Valid() && Asked(On(sac, open, hyp), tp)
    && tp == Via(tp.parkSeg, tp.grade, tp.lifts)
  }

  lemma WheelsAreBest(sac: int, open: bool, hyp: (real, real) -> real, tp: TripPlan, pen: Penalties)
    requires Setting(sac, open, hyp, tp, pen)
    requires OnWheels(pen) <= OnFootTo(pen) || sac > GradeCeiling(tp.grade)
    ensures PairOk(On(sac, open, hyp), tp, pen, 0, [Car, Hike], [DRIVEN])
  {
    var t := PairTask(On(sac, open, hyp), tp, 0, [Car, Hike], pen);
    MapIsGood(sac, open);
    IsLegal(sac, open, t.q, t.start, DRIVEN);
    StepsOut(sac, open, t.q);
    hide World.Valid, Map, OnWheels, OnFootTo, LegalWalk, Recorded, Cost, BestWalk, StepCost, StepClock, Legal;
    WalkOfOne(t.g, t.q, Fresh, t.start, DRIVEN);
    BestOut(t, sac, open, [DRIVEN]);
  }

  lemma FeetAreBest(sac: int, open: bool, hyp: (real, real) -> real, tp: TripPlan, pen: Penalties)
    requires Setting(sac, open, hyp, tp, pen)
    requires OnFootTo(pen) <= OnWheels(pen) && sac <= GradeCeiling(tp.grade)
    ensures PairOk(On(sac, open, hyp), tp, pen, 0, [Car, Hike], [PARKED, WALKED])
  {
    var t := PairTask(On(sac, open, hyp), tp, 0, [Car, Hike], pen);
    MapIsGood(sac, open);
    IsLegal(sac, open, t.q, t.start, PARKED);
    IsLegal(sac, open, t.q, State(0, Hike), WALKED);
    StepsOut(sac, open, t.q);
    hide World.Valid, Map, OnWheels, OnFootTo, LegalWalk, Recorded, Cost, BestWalk, StepCost, StepClock, Legal;
    WalkOfTwo(t, PARKED, WALKED);
    BestOut(t, sac, open, [PARKED, WALKED]);
  }

  /** From junction 1 the road is the best way on, for the car that got there. */
  lemma CruisingIsBest(sac: int, open: bool, hyp: (real, real) -> real, tp: TripPlan, pen: Penalties)
    requires Setting(sac, open, hyp, tp, pen)
    requires Charged(20.0, pen.Factor(2)) <= OnWheels(pen)
    requires Charged(20.0, pen.Factor(2)) <= SWITCH_COST + pen.ParkCost(Point(500.0, 0.0))
    ensures PairOk(On(sac, open, hyp), tp, pen, 1, [Car, Hike], [CRUISED])
  {
    var t := PairTask(On(sac, open, hyp), tp, 1, [Car, Hike], pen);
    MapIsGood(sac, open);
    IsLegal(sac, open, t.q, t.start, CRUISED);
    hide World.Valid;
    forall mv | Legal(t.g, t.q, t.start, mv)
      ensures StepCost(t.g, t.q, Fresh, t.start, CRUISED.mv) <= StepCost(t.g, t.q, Fresh, t.start, mv)
    {
      MovesFrom(sac, open, t.q, t.start, mv);
    }
    hide Legal, Map;
    Mountain.BestMove(t, CRUISED);
  }

  /** And for the walker who has no car there, when walkers may use it. */
  lemma StrollingIsBest(sac: int, hyp: (real, real) -> real, tp: TripPlan, pen: Penalties)
    requires Setting(sac, true, hyp, tp, pen)
    requires Charged(300.24, pen.Factor(2)) <= Charged(540.0, pen.Factor(1))
    ensures PairOk(On(sac, true, hyp), tp, pen, 1, [Hike], [STROLLED])
  {
    var t := PairTask(On(sac, true, hyp), tp, 1, [Hike], pen);
    MapIsGood(sac, true);
    IsLegal(sac, true, t.q, t.start, STROLLED);
    hide World.Valid;
    forall mv | Legal(t.g, t.q, t.start, mv)
      ensures StepCost(t.g, t.q, Fresh, t.start, STROLLED.mv) <= StepCost(t.g, t.q, Fresh, t.start, mv)
    {
      MovesFrom(sac, true, t.q, t.start, mv);
    }
    hide Legal, Map;
    Mountain.BestMove(t, STROLLED);
  }

  // ------------------------------------------------------------------ what is carried over

  /** Whoever walked up has only his feet left; whoever drove still has the car. */
  lemma Carried(g: Graph, tp: TripPlan, parts: seq<seq<UsedEdge>>, last: UsedEdge)
    requires tp == Via(tp.parkSeg, tp.grade, tp.lifts) && |parts| >= 1
    requires Travelled(parts[0]) != [] && last == Travelled(parts[0])[|Travelled(parts[0])| - 1]
    requires !last.mv.Park? && last.mv.e.st < |g.stretches| && !g.stretches[last.mv.e.st].cls.LiftLine?
    ensures PlanFor(g, tp, parts, 0) == [Car, Hike]
    ensures last.to.mode.Hike? ==> PlanFor(g, tp, parts, 1) == [Hike]
    ensures last.to.mode.Car? ==> PlanFor(g, tp, parts, 1) == [Car, Hike]
  {
    assert SpanBefore(tp, parts, 0) == [] && [] + parts[0] == parts[0];
    assert PlanFor(g, tp, parts, 0) == PlanBefore(g, tp, parts, 0) == [Car, Hike];
    assert LastKind(g, parts[0]) == Some(In(last.to.mode));
    assert PlanBefore(g, tp, parts, 1) == AfterSpan(g, tp, [Car, Hike], parts[0]);
    assert [Car, Hike][1..] == [Hike];
    assert DropTo([Car, Hike], Hike) == DropTo([Hike], Hike) == [Hike];
  }

  lemma PartsAdd()
    ensures Travelled([PARKED, WALKED]) == [WALKED] && Seconds([PARKED, WALKED]) == 660.0
  {
    SecondsSnoc([], PARKED);
    SecondsSnoc([PARKED], WALKED);
    assert [] + [PARKED] == [PARKED] && [PARKED] + [WALKED] == [PARKED, WALKED];
    assert [PARKED, WALKED][..1] == [PARKED] && [PARKED][..0] == [];
    assert Travelled([PARKED]) == [] && [] + [WALKED] == [WALKED];
  }

  /** Two pairs, two legs of one edge each. */
  lemma TwoLegs(a: Answer, e: UsedEdge, f: UsedEdge)
    requires |a.parts| == |a.legs| == 2 && a.legs[0].edges == [e] && a.legs[1].edges == [f]
    requires Travelled(a.parts[0]) == [e] && Travelled(a.parts[1]) == [f]
    ensures LegEdges(a.legs) == Travelled(Flat(a.parts))
    ensures MoveSeconds(a) == Seconds(a.parts[0]) + Seconds(a.parts[1])
  {
    hide LegEdges, Flat, Seconds, Travelled;
    Mountain.FlatOfTwo(a.parts[0], a.parts[1]);
    TravelledOfBoth(a.parts[0], a.parts[1]);
    SecondsOfBoth(a.parts[0], a.parts[1]);
    Mountain.LegsOfTwo(a.legs[0], a.legs[1]);
    assert a.legs == [a.legs[0], a.legs[1]] && a.parts == [a.parts[0], a.parts[1]];
  }

  lemma LegFits(sac: int, open: bool, a: Answer, k: nat)
    requires (a == ON_FOOT || a == BY_CAR) && k < 2
    ensures LegOk(Map(sac, open), a.legs[k])
    ensures Seconds(a.legs[k].edges) == a.legs[k].seconds && Travelled(a.legs[k].edges) == a.legs[k].edges
  {
    Mountain.OneEdge(Map(sac, open), a.legs[k].edges[0]);
  }

  /** What the two answers add up to. */
  lemma AnswersAdd(sac: int, open: bool, a: Answer)
    requires a == ON_FOOT || a == BY_CAR
    ensures LegEdges(a.legs) == Travelled(Flat(a.parts))
    ensures forall k :: 0 <= k < |a.legs| ==> LegOk(Map(sac, open), a.legs[k])
    ensures MoveSeconds(a) == a.seconds
  {
    hide LegEdges, Flat, Seconds, Travelled, LegOk, MoveSeconds, Map;
    PartsAdd();
    LegFits(sac, open, a, 0);
    LegFits(sac, open, a, 1);
    TwoLegs(a, a.legs[0].edges[0], a.legs[1].edges[0]);
  }

  /** No stop is charged: the one is all driven, the other all walked. */
  lemma NoCharge(tp: TripPlan, a: Answer)
    requires tp == Via(tp.parkSeg, tp.grade, tp.lifts)
    ensures StopCharge(tp, a.legs) == 0.0
  {
  }

  /** Parts that were found under the plans carried to them make an answer. */
  lemma AnswerFits(sac: int, open: bool, hyp: (real, real) -> real, tp: TripPlan, pen: Penalties, a: Answer)
    requires Setting(sac, open, hyp, tp, pen) && (a == ON_FOOT || a == BY_CAR)
    requires PlanFor(Map(sac, open), tp, a.parts, 0) == [Car, Hike]
    requires PairOk(On(sac, open, hyp), tp, pen, 0, [Car, Hike], a.parts[0])
    requires PairOk(On(sac, open, hyp), tp, pen, 1, PlanFor(Map(sac, open), tp, a.parts, 1), a.parts[1])
    ensures AnswerOk(On(sac, open, hyp), tp, pen, a)
  {
    hide Asked, PairOk, LegOk, MoveSeconds, StopCharge, LegEdges, Flat, Travelled, PlanFor, Map;
    AnswersAdd(sac, open, a);
    NoCharge(tp, a);
  }

  lemma FootFits(sac: int, open: bool, hyp: (real, real) -> real, tp: TripPlan, pen: Penalties)
    requires Setting(sac, open, hyp, tp, pen)
    requires PairOk(On(sac, open, hyp), tp, pen, 0, [Car, Hike], [PARKED, WALKED])
    requires PairOk(On(sac, open, hyp), tp, pen, 1, [Hike], [STROLLED])
    ensures AnswerOk(On(sac, open, hyp), tp, pen, ON_FOOT)
  {
    hide Asked, PairOk, Travelled, PlanFor, AnswerOk;
    PartsAdd();
    Carried(Map(sac, open), tp, ON_FOOT.parts, WALKED);
    AnswerFits(sac, open, hyp, tp, pen, ON_FOOT);
  }

  lemma CarFits(sac: int, open: bool, hyp: (real, real) -> real, tp: TripPlan, pen: Penalties)
    requires Setting(sac, open, hyp, tp, pen)
    requires PairOk(On(sac, open, hyp), tp, pen, 0, [Car, Hike], [DRIVEN])
    requires PairOk(On(sac, open, hyp), tp, pen, 1, [Car, Hike], [CRUISED])
    ensures AnswerOk(On(sac, open, hyp), tp, pen, BY_CAR)
  {
    hide Asked, PairOk, Travelled, PlanFor, AnswerOk;
    LegFits(sac, open, BY_CAR, 0);
    Carried(Map(sac, open), tp, BY_CAR.parts, DRIVEN);
    AnswerFits(sac, open, hyp, tp, pen, BY_CAR);
  }

  // ------------------------------------------------------------------ a later round is faster

  /** What the first answer leaves behind: its own stretches and, when no stop was named to park at, its
      approach and its car park. */
  function Later(tp: TripPlan): Penalties {
    if tp.parkSeg < 1 then Penalties(map[1 := 1.5, 2 := 1.5], {1, 2}, [Point(0.0, 0.0)], 960.24)
    else Penalties(map[1 := 1.5, 2 := 1.5], {}, [], 0.0)
  }

  lemma AllOfIt(a: Answer)
    requires a == ON_FOOT || a == BY_CAR
    ensures Flat(a.parts) == if a == ON_FOOT then [PARKED, WALKED, STROLLED] else [DRIVEN, CRUISED]
  {
    Mountain.FlatOfTwo(a.parts[0], a.parts[1]);
    assert a.parts == [a.parts[0], a.parts[1]];
  }

  lemma WhatWasWalked()
    ensures var g, all := Map(0, true), [PARKED, WALKED, STROLLED];
      && UsedStretches(all) == {1, 2} && Walked(g, all) == [1, 2] && Approach(g, [1, 2], 0.0) == {1, 2}
      && ParkNode(all) == Some(0)
  {
    var g, all := Map(0, true), [PARKED, WALKED, STROLLED];
    assert all[1] == WALKED && all[2] == STROLLED;
    assert all[..2] == [PARKED, WALKED] && all[..2][..1] == [PARKED] && [PARKED][..0] == [];
    assert Walked(g, [PARKED]) == [] && Walked(g, [PARKED, WALKED]) == [] + [1];
    assert [1, 2][..1] == [1] && [1][..0] == [];
    assert Approach(g, [1], 278.0) == {1} + {};
    assert ParkNode([PARKED]) == Some(0);
  }

  lemma LaterIsDerived(tp: TripPlan)
    requires tp == Via(tp.parkSeg, tp.grade, tp.lifts)
    ensures NextPenalties(Map(0, true), tp, UNPENALISED, tp.parkSeg < 1, 0, ON_FOOT, [ON_FOOT]) == Later(tp)
  {
    AllOfIt(ON_FOOT);
    WhatWasWalked();
    assert Penalise(map[], {1, 2}) == map[1 := 1.5, 2 := 1.5];
    assert [ON_FOOT][..0] == [];
    hide Flat, UsedStretches, Walked, Approach, ParkNode, Penalise;
    assert ParkPoints(Map(0, true), [ON_FOOT]) == [] + [Point(0.0, 0.0)];
  }

  lemma FirstIsAnswer(hyp: (real, real) -> real, tp: TripPlan)
    requires Setting(0, true, hyp, tp, UNPENALISED)
    ensures AnswerOk(On(0, true, hyp), tp, UNPENALISED, ON_FOOT)
  {
    assert Charged(540.0, 1.0) == 540.0 && Charged(700.0, 1.0) == 700.0 && Charged(300.24, 1.0) == 300.24;
    hide Asked, PairOk, AnswerOk, Charged;
    FeetAreBest(0, true, hyp, tp, UNPENALISED);
    StrollingIsBest(0, hyp, tp, UNPENALISED);
    FootFits(0, true, hyp, tp, UNPENALISED);
  }

  lemma FactorsOf(pen: Penalties)
    requires pen == Later(Via(0, 1, false)) || pen == Later(Via(1, 1, false))
    ensures OnWheels(pen) == 700.0 && OnFootTo(pen) >= 930.0 && pen.Valid()
    ensures Charged(20.0, pen.Factor(2)) <= 160.0
    ensures pen.parkPen > 0.0 ==> pen.ParkCost(Point(500.0, 0.0)) == 960.24
    ensures pen.parkPen <= 0.0 ==> Charged(20.0, pen.Factor(2)) == 30.0 && pen.ParkCost(Point(500.0, 0.0)) == 0.0
  {
    assert Charged(700.0, 1.0) == 700.0 && Charged(540.0, 1.5) == 810.0 && Charged(540.0, 8.0) == 4320.0;
    assert Charged(20.0, 1.5) == 30.0 && Charged(20.0, 8.0) == 160.0;
    if pen.parkPen > 0.0 { assert Near(Point(0.0, 0.0), pen.parkAt[0]) && Near(Point(500.0, 0.0), pen.parkAt[0]); }
  }

  lemma SecondIsAnswer(hyp: (real, real) -> real, tp: TripPlan)
    requires Setting(0, true, hyp, tp, Later(tp))
    ensures AnswerOk(On(0, true, hyp), tp, Later(tp), BY_CAR)
  {
    FactorsOf(Later(tp));
    hide Asked, PairOk, AnswerOk, Charged, OnWheels, OnFootTo;
    WheelsAreBest(0, true, hyp, tp, Later(tp));
    CruisingIsBest(0, true, hyp, tp, Later(tp));
    CarFits(0, true, hyp, tp, Later(tp));
  }

  lemma NotTheSameLine()
    ensures !SameLine(Map(0, true), BY_CAR, ON_FOOT)
  {
    AllOfIt(ON_FOOT);
    AllOfIt(BY_CAR);
    WhatWasWalked();
    var g, used := Map(0, true), UsedStretches([PARKED, WALKED, STROLLED]);
    Mountain.SharedOneMore(g, [], DRIVEN, used);
    Mountain.SharedOneMore(g, [DRIVEN], CRUISED, used);
    MetresSnoc(g, [], DRIVEN);
    MetresSnoc(g, [DRIVEN], CRUISED);
    assert [] + [DRIVEN] == [DRIVEN] && [DRIVEN] + [CRUISED] == [DRIVEN, CRUISED];
    assert 278.0 / 10008.0 <= 0.8;
  }

  /** Of a trip whose plans are not known in advance a later round can be faster, on the road as on the card: the
      first walks the path because that is the fastest way to the first stop, and has left the car behind for
      the rest; the second, under the penalties that answer leaves, drives. Both are kept. No stop parks the
      trip and nothing need be ridden; whatever is asked of either, it makes no difference. */
  lemma LaterRoundCanBeFaster(hyp: (real, real) -> real, tp: TripPlan)
    requires IsHypot(hyp) && tp == Via(tp.parkSeg, 2, tp.lifts)
    ensures var w := On(0, true, hyp);
      && Asked(w, tp) && RampFree(w.g) && !PlansKnown(tp) && OneModeEach(tp)
      && RoundsOk(w, tp, tp.parkSeg < 1, [ON_FOOT, BY_CAR]) && KeptOf(w.g, [ON_FOOT, BY_CAR]) == [ON_FOOT, BY_CAR]
      && BY_CAR.seconds < ON_FOOT.seconds && MoveSeconds(BY_CAR) < MoveSeconds(ON_FOOT)
  {
    hide World.Valid, IsHypot, RampFree, AnswerOk, RoundsOk, KeptOf, MoveSeconds, SameLine, NextPenalties, Map;
    TripIsAsked(0, true, hyp, tp.parkSeg, 2, tp.lifts);
    MapIsGood(0, true);
    hide Asked, PlansKnown, OneModeEach;
    FirstIsAnswer(hyp, tp);
    SecondIsAnswer(hyp, tp);
    LaterIsDerived(tp);
    NotTheSameLine();
    Mountain.TwoRounds(On(0, true, hyp), tp, tp.parkSeg < 1, ON_FOOT, BY_CAR);
    AnswersAdd(0, true, ON_FOOT);
    AnswersAdd(0, true, BY_CAR);
  }

  // ------------------------------------------------------------------ a harder grade is slower, or fails

  /** Where the path is beyond the grade asked for, the car goes the long way. */
  lemma EasyIsAnswer(open: bool, hyp: (real, real) -> real, tp: TripPlan)
    requires Setting(3, open, hyp, tp, NoPenalty) && tp.grade == 2
    ensures AnswerOk(On(3, open, hyp), tp, NoPenalty, BY_CAR)
  {
    assert Charged(20.0, 1.0) == 20.0 && Charged(700.0, 1.0) == 700.0;
    hide Asked, PairOk, AnswerOk, Charged;
    WheelsAreBest(3, open, hyp, tp, NoPenalty);
    CruisingIsBest(3, open, hyp, tp, NoPenalty);
    CarFits(3, open, hyp, tp, NoPenalty);
  }

  /** At the harder grade the path is the fastest way to the first stop. */
  lemma HardIsWalked(open: bool, hyp: (real, real) -> real, tp: TripPlan)
    requires Setting(3, open, hyp, tp, NoPenalty) && tp.grade == 3
    ensures PairOk(On(3, open, hyp), tp, NoPenalty, 0, [Car, Hike], [PARKED, WALKED])
  {
    assert Charged(540.0, 1.0) == 540.0 && Charged(700.0, 1.0) == 700.0;
    hide Asked, PairOk, Charged;
    FeetAreBest(3, open, hyp, tp, NoPenalty);
  }

  lemma HardIsAnswer(hyp: (real, real) -> real, tp: TripPlan)
    requires Setting(3, true, hyp, tp, NoPenalty) && tp.grade == 3
    ensures AnswerOk(On(3, true, hyp), tp, NoPenalty, ON_FOOT)
  {
    assert Charged(540.0, 1.0) == 540.0 && Charged(300.24, 1.0) == 300.24;
    hide Asked, PairOk, AnswerOk, Charged;
    HardIsWalked(true, hyp, tp);
    StrollingIsBest(3, hyp, tp, NoPenalty);
    FootFits(3, true, hyp, tp, NoPenalty);
  }

  /** And where the road on is open to walkers, the rest is walked too: the harder trip takes longer. */
  lemma HarderGradeCanBeSlower(hyp: (real, real) -> real, parkSeg: nat, lifts: bool)
    requires IsHypot(hyp)
    ensures var w, tp := On(3, true, hyp), Via(parkSeg, 2, lifts);
      && Asked(w, tp) && RampFree(w.g) && NoFerrata(w.g) && !PlansKnown(tp) && Asked(w, AtGrade(tp, 3))
      && AnswerOk(w, tp, NoPenalty, BY_CAR) && AnswerOk(w, AtGrade(tp, 3), NoPenalty, ON_FOOT)
      && MoveSeconds(BY_CAR) < MoveSeconds(ON_FOOT)
  {
    hide World.Valid, IsHypot, RampFree, NoFerrata, AnswerOk, MoveSeconds, Map;
    TripIsAsked(3, true, hyp, parkSeg, 2, lifts);
    TripIsAsked(3, true, hyp, parkSeg, 3, lifts);
    MapIsGood(3, true);
    hide Asked, PlansKnown;
    EasyIsAnswer(true, hyp, Via(parkSeg, 2, lifts));
    HardIsAnswer(hyp, Via(parkSeg, 3, lifts));
    AnswersAdd(3, true, ON_FOOT);
    AnswersAdd(3, true, BY_CAR);
  }

  /** Nobody gets back into a car: on this map every move of a walker is a walk. */
  lemma FeetStayFeet(sac: int, open: bool, q: Query, s: State, mv: Move)
    requires EasySac(sac) && Map(sac, open).Valid() && Legal(Map(sac, open), q, s, mv) && s.mode.Hike?
    requires q.plan == [Car, Hike] || q.plan == [Hike]
    ensures mv.Along? && mv.e.st < 3 && Target(s, mv).mode.Hike?
    ensures !open && s.node < 2 ==> Target(s, mv).node < 2
  {
    assert mv.Along?;
    InRow(sac, open, Hike, s.node, mv.e);
  }

  lemma {:induction false} WalkersWalk(sac: int, open: bool, q: Query, a: Arrival, s: State, edges: seq<UsedEdge>)
    requires EasySac(sac) && Map(sac, open).Valid() && s.mode.Hike? && (q.plan == [Car, Hike] || q.plan == [Hike])
    requires LegalWalk(Map(sac, open), q, s, MovesOf(edges)) && Recorded(Map(sac, open), a, s, edges)
    ensures forall k :: 0 <= k < |edges| ==> edges[k].mv.Along? && edges[k].mv.e.st < 3 && edges[k].to.mode.Hike?
    ensures !open && s.node < 2 ==> End(s, MovesOf(edges)).node < 2
    decreases |edges|
  {
    if |edges| > 0 {
      hide Legal, StepClock, Map;
      assert MovesOf(edges)[1..] == MovesOf(edges[1..]);
      FeetStayFeet(sac, open, q, s, edges[0].mv);
      WalkersWalk(sac, open, q, ArrivalOf(edges[0].mv), edges[0].to, edges[1..]);
      forall k | 0 <= k < |edges| ensures edges[k].mv.Along? && edges[k].mv.e.st < 3 && edges[k].to.mode.Hike? {
        if k > 0 { assert edges[k] == edges[1..][k - 1]; }
      }
    }
  }

  /** At the harder grade every best walk to the first stop ends on foot. */
  lemma EveryBestIsWalked(hyp: (real, real) -> real, tp: TripPlan, part: seq<UsedEdge>)
    requires Setting(3, false, hyp, tp, NoPenalty) && tp.grade == 3
    requires PairOk(On(3, false, hyp), tp, NoPenalty, 0, [Car, Hike], part)
    ensures |part| > 0 && part[|part| - 1].mv.Along? && part[|part| - 1].mv.e.st < 3 && part[|part| - 1].to.mode.Hike?
  {
    var t := PairTask(On(3, false, hyp), tp, 0, [Car, Hike], NoPenalty);
    MapIsGood(3, false);
    var ms := MovesOf(part);
    HardIsWalked(false, hyp, tp);
    var foot := MovesOf([PARKED, WALKED]);
    FootCosts(t);
    RampFreeHasNoSlack(t.g, t.q, t.start, foot);
    assert Cost(t.g, t.q, Fresh, t.start, ms) <= 660.0;
    assert OnWheels(NoPenalty) == 700.0;
    WaysOut(3, false, t.q, ms);
    assert part[0].mv == PARKED.mv;
    hide World.Valid, Legal, Map, Cost, BestWalk;
    assert ms[1..] == MovesOf(part[1..]) && part[0].to == State(0, Hike);
    WalkersWalk(3, false, t.q, Fresh, State(0, Hike), part[1..]);
    assert part[|part| - 1] == part[1..][|part| - 2];
  }

  lemma FootCosts(t: Task)
    requires t.g == Map(3, false) && t.g.Valid() && t.q.pen == NoPenalty && t.start == State(0, Car)
    ensures Cost(t.g, t.q, Fresh, t.start, MovesOf([PARKED, WALKED])) == 660.0
  {
    StepsOut(3, false, t.q);
    assert Charged(540.0, 1.0) == 540.0 && OnFootTo(NoPenalty) == 660.0;
    var ms := [PARKED.mv, WALKED.mv];
    assert MovesOf([PARKED, WALKED]) == ms && ms[1..] == [WALKED.mv] && [WALKED.mv][1..] == [];
    hide Map, StepCost, OnFootTo;
    assert Cost(t.g, t.q, Fresh, State(0, Hike), [WALKED.mv]) == StepCost(t.g, t.q, Fresh, State(0, Hike), WALKED.mv);
  }

  /** Then only feet are left for the rest, and the rest is closed to walkers. */
  lemma NoWayOn(hyp: (real, real) -> real, tp: TripPlan)
    requires Setting(3, false, hyp, tp, NoPenalty) && tp.grade == 3
    ensures forall part :: !PairOk(On(3, false, hyp), tp, NoPenalty, 1, [Hike], part)
    ensures forall st :: FailedAt(On(3, false, hyp), tp, NoPenalty, 1, [Hike], st)
  {
    var t := PairTask(On(3, false, hyp), tp, 1, [Hike], NoPenalty);
    MapIsGood(3, false);
    forall part | PairOk(On(3, false, hyp), tp, NoPenalty, 1, [Hike], part) ensures false {
      WalkersWalk(3, false, t.q, Fresh, t.start, part);
    }
    forall st ensures FailedAt(On(3, false, hyp), tp, NoPenalty, 1, [Hike], st) {
      forall ms | LegalWalk(t.g, t.q, t.start, ms)
        ensures End(t.start, ms).node != t.to && Noted(t.g, t.q, {End(t.start, ms)}, st)
      {
        WalkersStay(t.q, t.start, ms);
        NothingToNote(t.q, End(t.start, ms), st);
      }
    }
  }

  lemma {:induction false} WalkersStay(q: Query, s: State, ms: seq<Move>)
    requires Map(3, false).Valid() && s.mode.Hike? && s.node < 2 && q.plan == [Hike]
    requires LegalWalk(Map(3, false), q, s, ms)
    ensures End(s, ms).node < 2 && End(s, ms).mode.Hike?
    decreases |ms|
  {
    if |ms| > 0 {
      hide Legal, Map;
      FeetStayFeet(3, false, q, s, ms[0]);
      WalkersStay(q, Target(s, ms[0]), ms[1..]);
    }
  }

  /** The path is within the grade, and no other way leaves there on foot. */
  lemma NothingToNote(q: Query, s: State, st: Refusals)
    requires Map(3, false).Valid() && q.grade == 3
    ensures Noted(Map(3, false), q, {s}, st)
  {
    forall e | s.node < 3 && e in Map(3, false).hike[s.node] ensures NotedEdge(Map(3, false), q, e, st) {
      InRow(3, false, Hike, s.node, e);
    }
  }

  lemma NothingNoted(hyp: (real, real) -> real, tp: TripPlan, part: seq<UsedEdge>, st: Refusals)
    requires Setting(3, false, hyp, tp, NoPenalty) && tp.grade == 3
    ensures PairNoted(On(3, false, hyp), tp, NoPenalty, 0, [Car, Hike], part, st)
  {
    var t := PairTask(On(3, false, hyp), tp, 0, [Car, Hike], NoPenalty);
    MapIsGood(3, false);
    hide World.Valid, Noted, Map, Cost, Slack, Legal, LegalWalk;
    forall ms: seq<Move> | LegalWalk(t.g, t.q, t.start, ms) ensures Noted(t.g, t.q, {End(t.start, ms)}, st) {
      NothingToNote(t.q, End(t.start, ms), st);
    }
  }

  /** A trip that is answered at grade 2 is not at grade 3, whatever is drawn among equals: the path it may
      now use is faster to the first stop, and leaves no car for the rest. */
  lemma HarderGradeLosesTheTrip(hyp: (real, real) -> real, parkSeg: nat, lifts: bool)
    requires IsHypot(hyp)
    ensures var w, tp := On(3, false, hyp), Via(parkSeg, 2, lifts);
      && Asked(w, tp) && RampFree(w.g) && NoFerrata(w.g) && !PlansKnown(tp) && Asked(w, AtGrade(tp, 3))
      && AnswerOk(w, tp, NoPenalty, BY_CAR)
      && (forall a :: !AnswerOk(w, AtGrade(tp, 3), NoPenalty, a))
      && forall st :: Unanswered(w, AtGrade(tp, 3), NoPenalty, st)
  {
    var w, hp := On(3, false, hyp), Via(parkSeg, 3, lifts);
    hide World.Valid, IsHypot, RampFree, NoFerrata, Map, PlanFor, PairOk, FailedAt;
    TripIsAsked(3, false, hyp, parkSeg, 2, lifts);
    TripIsAsked(3, false, hyp, parkSeg, 3, lifts);
    MapIsGood(3, false);
    hide Asked, PlansKnown;
    EasyIsAnswer(false, hyp, Via(parkSeg, 2, lifts));
    NoWayOn(hyp, hp);
    forall a ensures !AnswerOk(w, hp, NoPenalty, a) {
      if AnswerOk(w, hp, NoPenalty, a) { HardAnswerIsNone(hyp, hp, a); }
    }
    HardIsWalked(false, hyp, hp);
    HardFails(hyp, hp);
  }

  lemma HardAnswerIsNone(hyp: (real, real) -> real, tp: TripPlan, a: Answer)
    requires Setting(3, false, hyp, tp, NoPenalty) && tp.grade == 3
    ensures !AnswerOk(On(3, false, hyp), tp, NoPenalty, a)
  {
    var w := On(3, false, hyp);
    hide PairOk, Asked, PlanFor;
    NoWayOn(hyp, tp);
    if AnswerOk(w, tp, NoPenalty, a) {
      assert PlanFor(w.g, tp, a.parts, 0) == [Car, Hike] by { FirstPlan(w.g, tp, a.parts); }
      assert PairOk(w, tp, NoPenalty, 0, [Car, Hike], a.parts[0]);
      EveryBestIsWalked(hyp, tp, a.parts[0]);
      var last := a.parts[0][|a.parts[0]| - 1];
      LastTravels(a.parts[0]);
      Carried(w.g, tp, a.parts, last);
    }
  }

  lemma FirstPlan(g: Graph, tp: TripPlan, parts: seq<seq<UsedEdge>>)
    requires tp == Via(tp.parkSeg, tp.grade, tp.lifts)
    ensures PlanFor(g, tp, parts, 0) == [Car, Hike]
  {}

  lemma LastTravels(part: seq<UsedEdge>)
    requires |part| > 0 && !part[|part| - 1].mv.Park?
    ensures Travelled(part) != [] && Travelled(part)[|Travelled(part)| - 1] == part[|part| - 1]
  {}

  lemma HardFails(hyp: (real, real) -> real, tp: TripPlan)
    requires Setting(3, false, hyp, tp, NoPenalty) && tp.grade == 3
    ensures forall st :: Unanswered(On(3, false, hyp), tp, NoPenalty, st)
  {
    var w, parts := On(3, false, hyp), [[PARKED, WALKED]];
    hide PairOk, PairNoted, Asked, PlanFor, FailedAt, Travelled;
    HardIsWalked(false, hyp, tp);
    NoWayOn(hyp, tp);
    PartsAdd();
    Carried(w.g, tp, parts, WALKED);
    assert Gathered(w, tp, NoPenalty, parts);
    forall st ensures Unanswered(w, tp, NoPenalty, st) {
      NothingNoted(hyp, tp, parts[0], st);
      assert FailsAfter(w, tp, NoPenalty, parts, st);
    }
  }
}
