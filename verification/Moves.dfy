/** What one leg of a trip may do at a junction, what each move takes, and what a penalty round
    charges for it (internal/route/search.go:256-352, 404-461). */
module Moves {
  import opened Roads

  datatype State = State(node: nat, mode: Mode)

  /** One move: along a stretch of the mode's network, over the lift layer, or parking. */
  datatype Move = Along(e: Edge) | Board(e: Edge) | Park(to: Mode)

  /** What a state was arrived at on: nothing that could owe a ramp, or a stretch. */
  datatype Arrival = Fresh | On(st: nat)

  /** What a round of alternatives pays on top of the honest time. */
  datatype Penalties = NoPenalty | Penalties(
    stretch: map<nat, real>, approach: set<nat>, parkAt: seq<Point>, parkPen: real)
  {
    function Factor(st: nat): real {
      if NoPenalty? then 1.0
      else if st in approach then 8.0
      else if st in stretch then stretch[st]
      else 1.0
    }

    function ParkCost(p: Point): real {
      if NoPenalty? || parkPen <= 0.0 then 0.0
      else if exists k :: 0 <= k < |parkAt| && Near(p, parkAt[k]) then parkPen
      else 0.0
    }

    /** No penalty is a discount. */
    ghost predicate Valid() {
      Penalties? ==> forall st :: st in stretch ==> stretch[st] >= 1.0
    }

    /** Nothing is charged on any stretch nor for any parking: the first round. */
    ghost predicate Neutral() {
      Penalties? ==> approach == {} && parkPen <= 0.0 && forall st :: st in stretch ==> stretch[st] == 1.0
    }
  }

  const PARK_SPREAD: real := 3000.0

  function SquareDist(p: Point, q: Point): real { (p.x - q.x) * (p.x - q.x) + (p.y - q.y) * (p.y - q.y) }

  predicate Near(p: Point, q: Point) { SquareDist(p, q) <= PARK_SPREAD * PARK_SPREAD }

  datatype Query = Query(plan: seq<Mode>, grade: int, lifts: bool, avoid: set<nat>, pen: Penalties)

  /** The mode a plan goes on with after m; the last occurrence of m decides. */
  function Next(plan: seq<Mode>, m: Mode): (r: Option<Mode>)
    ensures r.Some? ==> m in plan && r.value in plan
  {
    if |plan| < 2 then None
    else
      var later := Next(plan[1..], m);
      if later.Some? then later else if plan[0] == m then Some(plan[1]) else None
  }

  predicate Trailhead(g: Graph, m: Mode, nm: Mode, v: nat)
    requires g.Valid() && v < g.n
  {
    exists k :: 0 <= k < |g.Adj(nm)[v]| && !Usable(m, g.stretches[g.Adj(nm)[v][k].st])
  }

  function Target(s: State, mv: Move): State {
    match mv
    case Along(e) => State(e.to, s.mode)
    case Board(e) => State(e.to, s.mode)
    case Park(nm) => State(s.node, nm)
  }

  function ArrivalOf(mv: Move): Arrival { if mv.Park? then Fresh else On(mv.e.st) }

  /** The ferrata rule: below EEA no via ferrata is walked. */
  predicate FerrataRefused(g: Graph, q: Query, m: Mode, st: nat)
    requires st < |g.stretches|
  {
    m.Hike? && g.stretches[st].ferrata && q.grade < 4
  }

  /** The grade rule, asked of what the ferrata rule let through. */
  predicate GradeRefused(g: Graph, q: Query, m: Mode, st: nat)
    requires st < |g.stretches|
  {
    m.Hike? && !FerrataRefused(g, q, m, st) && EffGrade(g.stretches[st]) > GradeCeiling(q.grade)
  }

  predicate Legal(g: Graph, q: Query, s: State, mv: Move)
    requires g.Valid()
  {
    s.node < g.n && s.mode in q.plan &&
    match mv
    case Along(e) =>
      e in g.Adj(s.mode)[s.node] && e.st !in q.avoid
      && !FerrataRefused(g, q, s.mode, e.st) && !GradeRefused(g, q, s.mode, e.st)
    case Board(e) =>
      q.lifts && s.mode.Hike? && e in g.lift[s.node] && e.st !in q.avoid
    case Park(nm) =>
      Next(q.plan, s.mode) == Some(nm) && Trailhead(g, s.mode, nm, s.node)
  }

  /** The ramp: a car edge that joins or leaves the motorway class it arrived on. */
  function Ramp(g: Graph, m: Mode, a: Arrival, st: nat): real
    requires st < |g.stretches|
  {
    if m.Car? && a.On? && a.st < |g.stretches|
       && IsMotorway(g.stretches[a.st].cls) != IsMotorway(g.stretches[st].cls)
    then RAMP_COST else 0.0
  }

  /** The seconds a move takes, whatever it was arrived on. */
  function BaseTime(mv: Move): real { if mv.Park? then SWITCH_COST else mv.e.w }

  /** The seconds a move takes: what the answer's clock counts. */
  function StepClock(g: Graph, a: Arrival, s: State, mv: Move): real {
    match mv
    case Along(e) => if e.st < |g.stretches| then e.w + Ramp(g, s.mode, a, e.st) else e.w
    case Board(e) => e.w
    case Park(nm) => SWITCH_COST
  }

  function Charged(seconds: real, factor: real): real { seconds * factor }

  /** What a move costs the search: its clock and the round's penalty. */
  function StepCost(g: Graph, q: Query, a: Arrival, s: State, mv: Move): real {
    match mv
    case Along(e) => Charged(StepClock(g, a, s, mv), q.pen.Factor(e.st))
    case Board(e) => Charged(e.w, q.pen.Factor(e.st))
    case Park(nm) => SWITCH_COST + (if s.node < |g.pos| then q.pen.ParkCost(g.pos[s.node]) else 0.0)
  }

  ghost predicate LegalWalk(g: Graph, q: Query, s: State, ms: seq<Move>)
    requires g.Valid()
    decreases |ms|
  {
    |ms| > 0 ==> Legal(g, q, s, ms[0]) && LegalWalk(g, q, Target(s, ms[0]), ms[1..])
  }

  function End(s: State, ms: seq<Move>): State
    decreases |ms|
  {
    if |ms| == 0 then s else End(Target(s, ms[0]), ms[1..])
  }

  function Cost(g: Graph, q: Query, a: Arrival, s: State, ms: seq<Move>): real
    decreases |ms|
  {
    if |ms| == 0 then 0.0
    else StepCost(g, q, a, s, ms[0]) + Cost(g, q, ArrivalOf(ms[0]), Target(s, ms[0]), ms[1..])
  }

  function Clock(g: Graph, a: Arrival, s: State, ms: seq<Move>): real
    decreases |ms|
  {
    if |ms| == 0 then 0.0
    else StepClock(g, a, s, ms[0]) + Clock(g, ArrivalOf(ms[0]), Target(s, ms[0]), ms[1..])
  }

  /** Some legal move arrives at s on a. */
  ghost predicate Arrives(g: Graph, q: Query, s: State, a: Arrival)
    requires g.Valid()
  {
    exists u, mv :: Legal(g, q, u, mv) && Target(u, mv) == s && ArrivalOf(mv) == a
  }

  /** The arrivals at s disagree about the ramp an edge along st owes. */
  ghost predicate Ambiguous(g: Graph, q: Query, s: State, st: nat)
    requires g.Valid() && st < |g.stretches|
  {
    exists a, b :: Arrives(g, q, s, a) && Arrives(g, q, s, b) && Ramp(g, s.mode, a, st) != Ramp(g, s.mode, b, st)
  }

  /** A bound on what is left that no single move outruns, and that is zero at the destination. */
  ghost predicate Consistent(g: Graph, q: Query, to: nat, h: State -> real)
    requires g.Valid()
  {
    && (forall m :: h(State(to, m)) == 0.0)
    && forall s, mv :: Legal(g, q, s, mv) ==> h(s) <= BaseTime(mv) + h(Target(s, mv))
  }

  lemma NeverDiscount(c: real, f: real)
    requires c >= 0.0 && f >= 1.0
    ensures Charged(c, f) >= c
  {
    assert c * (f - 1.0) >= 0.0;
  }

  lemma LegalStaysInside(g: Graph, q: Query, s: State, mv: Move)
    requires g.Valid() && Legal(g, q, s, mv)
    ensures Target(s, mv).node < g.n && Target(s, mv).mode in q.plan
    ensures !mv.Park? ==> mv.e.st < |g.stretches| && mv.e.w >= 0.0
  {
    match mv
    case Along(e) =>
      var k :| 0 <= k < |g.Adj(s.mode)[s.node]| && g.Adj(s.mode)[s.node][k] == e;
    case Board(e) =>
      var k :| 0 <= k < |g.lift[s.node]| && g.lift[s.node][k] == e;
    case Park(_) =>
  }

  /** What the label of a walk's next state may exceed the walk's own cost by: one ramp, where
      the arrivals disagree. */
  ghost function SlackStep(g: Graph, q: Query, s: State, mv: Move): real
    requires g.Valid() && Legal(g, q, s, mv)
  {
    LegalStaysInside(g, q, s, mv);
    if mv.Along? && Ambiguous(g, q, s, mv.e.st) then Charged(RAMP_COST, q.pen.Factor(mv.e.st)) else 0.0
  }

  ghost function Slack(g: Graph, q: Query, s: State, ms: seq<Move>): real
    requires g.Valid() && LegalWalk(g, q, s, ms)
    decreases |ms|
  {
    if |ms| == 0 then 0.0 else SlackStep(g, q, s, ms[0]) + Slack(g, q, Target(s, ms[0]), ms[1..])
  }

  lemma StepCostAtLeastBase(g: Graph, q: Query, a: Arrival, s: State, mv: Move)
    requires g.Valid() && q.pen.Valid() && Legal(g, q, s, mv)
    ensures 0.0 <= BaseTime(mv) <= StepClock(g, a, s, mv) <= StepCost(g, q, a, s, mv)
  {
    hide Charged;
    LegalStaysInside(g, q, s, mv);
    match mv
    case Along(e) => NeverDiscount(StepClock(g, a, s, mv), q.pen.Factor(e.st));
    case Board(e) => NeverDiscount(e.w, q.pen.Factor(e.st));
    case Park(_) =>
  }

  /** A consistent bound falls by no more than a walk costs. */
  lemma {:induction false} BoundFalls(g: Graph, q: Query, to: nat, h: State -> real, a: Arrival, s: State,
      ms: seq<Move>)
    requires g.Valid() && q.pen.Valid() && Consistent(g, q, to, h) && LegalWalk(g, q, s, ms)
    ensures h(s) <= Cost(g, q, a, s, ms) + h(End(s, ms))
    decreases |ms|
  {
    if |ms| > 0 {
      StepCostAtLeastBase(g, q, a, s, ms[0]);
      BoundFalls(g, q, to, h, ArrivalOf(ms[0]), Target(s, ms[0]), ms[1..]);
    }
  }

  /** So it never exceeds the cost of any legal walk to the destination. */
  lemma Admissible(g: Graph, q: Query, to: nat, h: State -> real, a: Arrival, s: State, ms: seq<Move>)
    requires g.Valid() && q.pen.Valid() && Consistent(g, q, to, h)
    requires LegalWalk(g, q, s, ms) && End(s, ms).node == to
    ensures h(s) <= Cost(g, q, a, s, ms)
  {
    BoundFalls(g, q, to, h, a, s, ms);
    assert End(s, ms) == State(to, End(s, ms).mode);
  }
}
