/** A trip: its pairs of waypoints searched in turn, its moves cut into legs, and its clock
    (internal/route/search.go:1116-1430). Figures are unrounded. */
module Trip {
  import opened Roads
  import opened Moves
  import opened Search
  import opened Answers
  import opened Network
  import opened Heuristic

  // ------------------------------------------------------------------ legs

  datatype LegMode = Ride | In(m: Mode)

  datatype Leg = Leg(mode: LegMode, name: string, edges: seq<UsedEdge>, seconds: real, meters: real)

  predicate OnMap(g: Graph, edges: seq<UsedEdge>) {
    forall k :: 0 <= k < |edges| && !edges[k].mv.Park? ==> edges[k].mv.e.st < |g.stretches|
  }

  function LegModeOf(g: Graph, e: UsedEdge): LegMode
    requires !e.mv.Park? && e.mv.e.st < |g.stretches|
  {
    if g.stretches[e.mv.e.st].cls.LiftLine? then Ride else In(e.to.mode)
  }

  function LegNameOf(g: Graph, e: UsedEdge): string
    requires !e.mv.Park? && e.mv.e.st < |g.stretches|
  {
    if g.stretches[e.mv.e.st].cls.LiftLine? then g.stretches[e.mv.e.st].name else ""
  }

  /** The moves that travel: all but the parkings. */
  function Travelled(edges: seq<UsedEdge>): seq<UsedEdge> {
    if |edges| == 0 then []
    else Travelled(edges[..|edges| - 1]) + (if edges[|edges| - 1].mv.Park? then [] else [edges[|edges| - 1]])
  }

  function ParkSeconds(edges: seq<UsedEdge>): real {
    if |edges| == 0 then 0.0
    else ParkSeconds(edges[..|edges| - 1]) + (if edges[|edges| - 1].mv.Park? then edges[|edges| - 1].w else 0.0)
  }

  function Metres(g: Graph, edges: seq<UsedEdge>): real {
    if |edges| == 0 then 0.0
    else
      var e := edges[|edges| - 1];
      Metres(g, edges[..|edges| - 1])
      + (if !e.mv.Park? && e.mv.e.st < |g.stretches| then g.stretches[e.mv.e.st].len else 0.0)
  }

  function LegEdges(legs: seq<Leg>): seq<UsedEdge> {
    if |legs| == 0 then [] else LegEdges(legs[..|legs| - 1]) + legs[|legs| - 1].edges
  }

  function LegSeconds(legs: seq<Leg>): real {
    if |legs| == 0 then 0.0 else LegSeconds(legs[..|legs| - 1]) + legs[|legs| - 1].seconds
  }

  lemma {:induction false} SecondsSnoc(edges: seq<UsedEdge>, e: UsedEdge)
    ensures Seconds(edges + [e]) == Seconds(edges) + e.w
  {
    if |edges| == 0 {
      assert Seconds([e][1..]) == 0.0;
    } else {
      assert (edges + [e])[1..] == edges[1..] + [e];
      SecondsSnoc(edges[1..], e);
    }
  }

  lemma {:induction false} SecondsOfBoth(a: seq<UsedEdge>, b: seq<UsedEdge>)
    ensures Seconds(a + b) == Seconds(a) + Seconds(b)
  {
    if |b| == 0 {
      assert a + b == a;
    } else {
      var front, last := b[..|b| - 1], b[|b| - 1];
      SecondsOfBoth(a, front);
      assert a + b == (a + front) + [last] && b == front + [last];
      SecondsSnoc(a + front, last);
      SecondsSnoc(front, last);
    }
  }

  lemma {:induction false} TravelledOfBoth(a: seq<UsedEdge>, b: seq<UsedEdge>)
    ensures Travelled(a + b) == Travelled(a) + Travelled(b)
    ensures ParkSeconds(a + b) == ParkSeconds(a) + ParkSeconds(b)
  {
    if |b| == 0 {
      assert a + b == a;
    } else {
      TravelledOfBoth(a, b[..|b| - 1]);
      assert (a + b)[..|a + b| - 1] == a + b[..|b| - 1];
    }
  }

  /** Parking and travelling are all there is. */
  lemma {:induction false} SecondsSplit(edges: seq<UsedEdge>)
    ensures Seconds(edges) == Seconds(Travelled(edges)) + ParkSeconds(edges)
  {
    if |edges| > 0 {
      var front, last := edges[..|edges| - 1], edges[|edges| - 1];
      SecondsSplit(front);
      assert edges == front + [last];
      SecondsSnoc(front, last);
      SecondsSnoc(Travelled(front), last);
      assert Travelled(front) + [] == Travelled(front);
    }
  }

  /** One leg: some moves of one kind (rides: of one lift), their seconds and metres added up. */
  ghost predicate LegOk(g: Graph, l: Leg) {
    && |l.edges| > 0 && l.seconds == Seconds(l.edges) && l.meters == Metres(g, l.edges)
    && forall k :: 0 <= k < |l.edges| ==>
         !l.edges[k].mv.Park? && l.edges[k].mv.e.st < |g.stretches|
         && LegModeOf(g, l.edges[k]) == l.mode && LegNameOf(g, l.edges[k]) == l.name
  }

  /** legs carry exactly what was travelled, in order. */
  ghost predicate LegsSum(g: Graph, edges: seq<UsedEdge>, legs: seq<Leg>) {
    && LegEdges(legs) == Travelled(edges)
    && LegSeconds(legs) == Seconds(Travelled(edges))
    && forall k :: 0 <= k < |legs| ==> LegOk(g, legs[k])
  }

  /** Where nothing was parked, neighbouring legs differ in kind or name; open says the next move
      may join the last leg. */
  ghost predicate LegsApart(edges: seq<UsedEdge>, legs: seq<Leg>, open: bool) {
    && (open ==> |legs| > 0)
    && (NoPark(edges) ==>
          (|legs| > 0 ==> open)
          && forall k :: 0 <= k < |legs| - 1 ==> legs[k].mode != legs[k + 1].mode || legs[k].name != legs[k + 1].name)
  }

  ghost predicate LegsOk(g: Graph, edges: seq<UsedEdge>, legs: seq<Leg>, open: bool) {
    LegsSum(g, edges, legs) && LegsApart(edges, legs, open)
  }

  predicate NoPark(edges: seq<UsedEdge>) { forall k :: 0 <= k < |edges| ==> !edges[k].mv.Park? }

  lemma MetresSnoc(g: Graph, edges: seq<UsedEdge>, e: UsedEdge)
    requires !e.mv.Park? && e.mv.e.st < |g.stretches|
    ensures Metres(g, edges + [e]) == Metres(g, edges) + g.stretches[e.mv.e.st].len
  {
    assert (edges + [e])[..|edges|] == edges;
  }

  function Opened(g: Graph, e: UsedEdge): Leg
    requires !e.mv.Park? && e.mv.e.st < |g.stretches|
  {
    Leg(LegModeOf(g, e), LegNameOf(g, e), [e], e.w, g.stretches[e.mv.e.st].len)
  }

  function Joined(g: Graph, l: Leg, e: UsedEdge): Leg
    requires !e.mv.Park? && e.mv.e.st < |g.stretches|
  {
    Leg(l.mode, l.name, l.edges + [e], l.seconds + e.w, l.meters + g.stretches[e.mv.e.st].len)
  }

  lemma OpenedIsOk(g: Graph, e: UsedEdge)
    requires !e.mv.Park? && e.mv.e.st < |g.stretches|
    ensures var l := Opened(g, e);
      LegOk(g, l) && l.edges == [e] && l.seconds == e.w && l.mode == LegModeOf(g, e) && l.name == LegNameOf(g, e)
  {
    SecondsSnoc([], e);
    MetresSnoc(g, [], e);
    assert [] + [e] == [e];
  }

  lemma FrontNoPark(edges: seq<UsedEdge>, e: UsedEdge)
    requires NoPark(edges + [e])
    ensures NoPark(edges)
  {
    forall k | 0 <= k < |edges| ensures !edges[k].mv.Park? { assert (edges + [e])[k] == edges[k]; }
  }

  lemma OpenSum(g: Graph, edges: seq<UsedEdge>, legs: seq<Leg>, e: UsedEdge, l: Leg)
    requires LegsSum(g, edges, legs) && !e.mv.Park? && LegOk(g, l) && l.edges == [e] && l.seconds == e.w
    ensures LegsSum(g, edges + [e], legs + [l])
  {
    hide LegOk, Seconds;
    SecondsSnoc(Travelled(edges), e);
    assert (edges + [e])[..|edges|] == edges && (legs + [l])[..|legs|] == legs;
  }

  lemma OpenApart(edges: seq<UsedEdge>, legs: seq<Leg>, open: bool, e: UsedEdge, l: Leg)
    requires LegsApart(edges, legs, open)
    requires open ==> legs[|legs| - 1].mode != l.mode || legs[|legs| - 1].name != l.name
    ensures LegsApart(edges + [e], legs + [l], true)
  {
    hide NoPark;
    if NoPark(edges + [e]) { FrontNoPark(edges, e); }
  }

  lemma OpenLeg(g: Graph, edges: seq<UsedEdge>, legs: seq<Leg>, open: bool, e: UsedEdge)
    requires LegsOk(g, edges, legs, open) && !e.mv.Park? && e.mv.e.st < |g.stretches|
    requires open ==> legs[|legs| - 1].mode != LegModeOf(g, e) || legs[|legs| - 1].name != LegNameOf(g, e)
    ensures LegsOk(g, edges + [e], legs + [Opened(g, e)], true)
  {
    OpenedIsOk(g, e);
    hide LegsSum, LegOk, Opened, LegModeOf, LegNameOf;
    OpenSum(g, edges, legs, e, Opened(g, e));
    OpenApart(edges, legs, open, e, Opened(g, e));
  }

  lemma JoinLeg(g: Graph, edges: seq<UsedEdge>, legs: seq<Leg>, e: UsedEdge)
    requires LegsOk(g, edges, legs, true) && !e.mv.Park? && e.mv.e.st < |g.stretches|
    requires legs[|legs| - 1].mode == LegModeOf(g, e) && legs[|legs| - 1].name == LegNameOf(g, e)
    ensures LegsOk(g, edges + [e], legs[|legs| - 1 := Joined(g, legs[|legs| - 1], e)], true)
  {
    hide Seconds, Metres;
    var last := legs[|legs| - 1];
    var more := legs[|legs| - 1 := Joined(g, last, e)];
    assert (edges + [e])[..|edges|] == edges;
    assert more[..|more| - 1] == legs[..|legs| - 1];
    assert LegOk(g, last);
    SecondsSnoc(Travelled(edges), e);
    SecondsSnoc(last.edges, e);
    MetresSnoc(g, last.edges, e);
    assert LegsApart(edges + [e], more, true) by {
      hide LegOk, Seconds, LegsSum, NoPark, LegModeOf, LegNameOf;
      if NoPark(edges + [e]) { FrontNoPark(edges, e); }
    }
  }

  lemma ParkBetween(g: Graph, edges: seq<UsedEdge>, legs: seq<Leg>, open: bool, e: UsedEdge)
    requires LegsOk(g, edges, legs, open) && e.mv.Park?
    ensures LegsOk(g, edges + [e], legs, false)
  {
    assert (edges + [e])[..|edges|] == edges;
    assert (edges + [e])[|edges|].mv.Park?;
  }

  lemma NoLegs(g: Graph)
    ensures LegsOk(g, [], [], false)
  {
  }

  /** legs: a span's moves cut into legs. */
  method Legs(g: Graph, edges: seq<UsedEdge>) returns (legs: seq<Leg>, ghost open: bool)
    requires OnMap(g, edges)
    ensures LegsSum(g, edges, legs)
    ensures LegsApart(edges, legs, open)
  {
    legs := [];
    var cur := false;
    NoLegs(g);
    for i := 0 to |edges|
      invariant LegsOk(g, edges[..i], legs, cur)
    {
      hide LegsOk, LegsSum, LegsApart;
      var e := edges[i];
      assert edges[..i + 1] == edges[..i] + [e];
      LegsNonEmpty(g, edges[..i], legs, cur);
      if e.mv.Park? {
        ParkBetween(g, edges[..i], legs, cur, e);
        cur := false;
      } else if !cur || legs[|legs| - 1].mode != LegModeOf(g, e) || legs[|legs| - 1].name != LegNameOf(g, e) {
        OpenLeg(g, edges[..i], legs, cur, e);
        legs := legs + [Opened(g, e)];
        cur := true;
      } else {
        JoinLeg(g, edges[..i], legs, e);
        legs := legs[|legs| - 1 := Joined(g, legs[|legs| - 1], e)];
      }
    }
    assert edges[..|edges|] == edges;
    open := cur;
  }

  lemma LegsNonEmpty(g: Graph, edges: seq<UsedEdge>, legs: seq<Leg>, open: bool)
    requires LegsOk(g, edges, legs, open)
    ensures open ==> |legs| > 0
  {
  }

  // ------------------------------------------------------------------ the plan of a trip

  /** A ride the caller asked for, taken as it stands. */
  datatype Forced = Forced(st: nat, rev: bool, w: real)

  /** The waypoints, which of them are stops, the plan of each pair when it was fixed in advance,
      the forced rides, and the pair the walk starts with (0 when no stop parks). */
  datatype TripPlan = TripPlan(
    nodes: seq<nat>, stop: seq<bool>, plan: seq<Mode>, segPlans: seq<seq<Mode>>,
    force: seq<Option<Forced>>, parkSeg: nat, grade: int, lifts: bool, avoid: set<nat>)

  /** The map a trip is searched on. */
  datatype World = World(g: Graph, base: nat, near: nat -> Option<Landing>, hyp: (real, real) -> real) {
    ghost predicate Valid() { Built(g, base, near) && IsHypot(hyp) && Sane(g, hyp) }
  }

  predicate GoodPlan(plan: seq<Mode>) { |plan| > 0 && Distinct(plan) }

  /** A forced ride is a ride of one of the map's lifts, from one waypoint to the next, at its cost. */
  predicate IsForcedRide(w: World, tp: TripPlan, i: nat)
    requires i + 1 < |tp.nodes| && i < |tp.force| && tp.force[i].Some?
  {
    var f := tp.force[i].value;
    f.st < w.base && IsLiftArc(w.g.stretches, w.base, Arc(tp.nodes[i], Edge(tp.nodes[i + 1], f.st, f.w, f.rev)))
  }

  ghost predicate Asked(w: World, tp: TripPlan) {
    && w.Valid() && GoodPlan(tp.plan) && tp.grade >= 1
    && |tp.nodes| >= 2 && |tp.stop| == |tp.nodes| && |tp.force| == |tp.nodes|
    && (forall i :: 0 <= i < |tp.nodes| ==> tp.nodes[i] < w.g.n)
    && (tp.segPlans == [] || |tp.segPlans| == |tp.nodes| - 1)
    && (forall i :: 0 <= i < |tp.segPlans| ==> GoodPlan(tp.segPlans[i]))
    && (forall i :: 0 <= i < |tp.nodes| - 1 && tp.force[i].Some? ==> tp.lifts && IsForcedRide(w, tp, i))
  }

  /** Every pair's plan is known before anything is searched: the pairs were planned in advance, there
      is one mode, or no stop lies between the first point and the last. */
  predicate PlansKnown(tp: TripPlan) {
    tp.segPlans != [] || |tp.plan| == 1 || forall i :: 0 < i < |tp.stop| - 1 ==> !tp.stop[i]
  }

  function KnownPlan(tp: TripPlan, i: nat): seq<Mode> {
    if i < |tp.segPlans| then tp.segPlans[i] else tp.plan
  }

  /** The same trip at another grade. */
  function AtGrade(tp: TripPlan, grade: int): TripPlan { tp.(grade := grade) }

  /** What one pair of waypoints asks of the search. */
  function PairTask(w: World, tp: TripPlan, i: nat, plan: seq<Mode>, pen: Penalties): Task
    requires i + 1 < |tp.nodes| && |plan| > 0
  {
    var q := Query(plan, tp.grade, tp.lifts, tp.avoid, pen);
    var to := tp.nodes[i + 1];
    Task(w.g, q, State(tp.nodes[i], plan[0]), to, s => if to < |w.g.pos| then Bound(w.g, w.hyp, q, to, s) else 0.0)
  }

  lemma PairTaskIsSound(w: World, tp: TripPlan, i: nat, plan: seq<Mode>, pen: Penalties)
    requires Asked(w, tp) && i + 1 < |tp.nodes| && GoodPlan(plan) && pen.Valid()
    ensures Sound(PairTask(w, tp, i, plan, pen))
  {
    BuiltIsValid(w.g, w.base, w.near, w.hyp);
    BoundIsConsistent(w.g, w.base, w.near, w.hyp, PairTask(w, tp, i, plan, pen).q, tp.nodes[i + 1]);
  }

  function ForcedEdge(tp: TripPlan, i: nat): UsedEdge
    requires i + 1 < |tp.nodes| && i < |tp.force| && tp.force[i].Some?
  {
    var f := tp.force[i].value;
    UsedEdge(State(tp.nodes[i + 1], Hike), Board(Edge(tp.nodes[i + 1], f.st, f.w, f.rev)), f.w)
  }

  /** Pair i needs a search: its ends differ and no ride was forced. */
  predicate Searched(tp: TripPlan, i: nat)
    requires |tp.force| == |tp.nodes|
  {
    i + 1 < |tp.nodes| && tp.nodes[i] != tp.nodes[i + 1] && tp.force[i].None?
  }

  /** What a pair contributes: nothing, its forced ride, or a best walk. */
  ghost predicate PairOk(w: World, tp: TripPlan, pen: Penalties, i: nat, plan: seq<Mode>, part: seq<UsedEdge>)
    requires Asked(w, tp) && i + 1 < |tp.nodes|
  {
    BuiltIsValid(w.g, w.base, w.near, w.hyp);
    GoodPlan(plan) &&
    if tp.nodes[i] == tp.nodes[i + 1] then part == []
    else if tp.force[i].Some? then part == [ForcedEdge(tp, i)]
    else BestWalk(PairTask(w, tp, i, plan, pen), part)
  }

  /** How often a walk parks. */
  function Switches(ms: seq<Move>): nat {
    if ms == [] then 0 else (if ms[0].Park? then 1 else 0) + Switches(ms[1..])
  }

  lemma {:induction false} NextFollows(plan: seq<Mode>, k: nat, nm: Mode)
    requires Distinct(plan) && k < |plan| && Next(plan, plan[k]) == Some(nm)
    ensures k + 1 < |plan| && nm == plan[k + 1]
  {
    var rest := plan[1..];
    assert Distinct(rest);
    if k == 0 {
      assert plan[0] !in rest;
    } else {
      assert plan[0] != plan[k] && rest[k - 1] == plan[k];
      NextFollows(rest, k - 1, nm);
    }
  }

  /** A legal walk goes through the modes of its plan in order, one parking each, and never back. */
  lemma {:induction false} SwitchesFollowThePlan(g: Graph, q: Query, s: State, ms: seq<Move>, k: nat)
    requires g.Valid() && Distinct(q.plan) && LegalWalk(g, q, s, ms) && k < |q.plan| && s.mode == q.plan[k]
    ensures k + Switches(ms) < |q.plan| && End(s, ms).mode == q.plan[k + Switches(ms)]
    decreases |ms|
  {
    if ms != [] {
      if ms[0].Park? { NextFollows(q.plan, k, ms[0].to); }
      SwitchesFollowThePlan(g, q, Target(s, ms[0]), ms[1..], if ms[0].Park? then k + 1 else k);
    }
  }

  /** Some legal walk answers pair i under its known plan. */
  ghost predicate PairAnswerable(w: World, tp: TripPlan, i: nat)
    requires Asked(w, tp)
  {
    BuiltIsValid(w.g, w.base, w.near, w.hyp);
    Searched(tp, i) ==>
      var t := PairTask(w, tp, i, KnownPlan(tp, i), NoPenalty);
      exists ms :: LegalWalk(t.g, t.q, t.start, ms) && End(t.start, ms).node == t.to
  }

  /** A trip can be answered: every pair can, and some pair goes anywhere. */
  ghost predicate Answerable(w: World, tp: TripPlan)
    requires Asked(w, tp)
  {
    && (forall i :: 0 <= i < |tp.nodes| - 1 ==> PairAnswerable(w, tp, i))
    && exists i :: 0 <= i < |tp.nodes| - 1 && tp.nodes[i] != tp.nodes[i + 1]
  }

  /** The rest of a plan from a mode on. */
  function DropTo(plan: seq<Mode>, m: Mode): (r: seq<Mode>)
    ensures GoodPlan(plan) ==> GoodPlan(r)
    ensures |plan| == 1 ==> r == plan
  {
    if m !in plan then plan else if plan[0] == m then plan
    else
      var rest := DropTo(plan[1..], m);
      assert Distinct(plan) ==> Distinct(plan[1..]);
      rest
  }

  /** The modes from m on, and all of them where m is none. */
  lemma {:induction false} DropToIs(plan: seq<Mode>, m: Mode)
    ensures m !in plan ==> DropTo(plan, m) == plan
    ensures forall k :: 0 <= k < |plan| && plan[k] == m && m !in plan[..k] ==> DropTo(plan, m) == plan[k..]
  {
    if m in plan && plan[0] != m {
      DropToIs(plan[1..], m);
      forall k | 0 <= k < |plan| && plan[k] == m && m !in plan[..k] ensures DropTo(plan, m) == plan[k..] {
        assert plan[1..][k - 1] == m && plan[1..][..k - 1] == plan[1..k] && plan[1..][k - 1..] == plan[k..];
        assert forall x :: x in plan[1..k] ==> x in plan[..k];
      }
    }
  }

  /** The kind of a span's last leg: that of the last move that travels. */
  function LastKind(g: Graph, span: seq<UsedEdge>): Option<LegMode> {
    var t := Travelled(span);
    if |t| > 0 && !t[|t| - 1].mv.Park? && t[|t| - 1].mv.e.st < |g.stretches| then Some(LegModeOf(g, t[|t| - 1]))
        else None
  }

  /** The modes still available after a closed span: from the one it ended in; a ride leaves the plan as it
      was, and so does a trip whose pairs were planned in advance. */
  function AfterSpan(g: Graph, tp: TripPlan, cur: seq<Mode>, span: seq<UsedEdge>): (r: seq<Mode>)
    ensures GoodPlan(cur) ==> GoodPlan(r)
    ensures |cur| == 1 ==> r == cur
  {
    match LastKind(g, span)
    case Some(In(m)) => if |tp.segPlans| == 0 then DropTo(cur, m) else cur
    case _ => cur
  }

  /** What has been travelled since the last stop when pair i begins. */
  function SpanBefore(tp: TripPlan, parts: seq<seq<UsedEdge>>, i: nat): seq<UsedEdge>
    requires i <= |parts| && i < |tp.stop|
  {
    if i == 0 || tp.stop[i] then [] else SpanBefore(tp, parts, i - 1) + parts[i - 1]
  }

  /** The modes available when pair i begins: those of the pair before, and where a stop closed the span,
      from the mode it ended in. */
  function PlanBefore(g: Graph, tp: TripPlan, parts: seq<seq<UsedEdge>>, i: nat): seq<Mode>
    requires i <= |parts| && i < |tp.stop|
    decreases i, 0
  {
    if i == 0 then tp.plan
    else
      var cur := PlanFor(g, tp, parts, i - 1);
      if tp.stop[i] then AfterSpan(g, tp, cur, SpanBefore(tp, parts, i - 1) + parts[i - 1]) else cur
  }

  /** The plan pair i is searched under: the one fixed for it, or the one carried to it. */
  function PlanFor(g: Graph, tp: TripPlan, parts: seq<seq<UsedEdge>>, i: nat): seq<Mode>
    requires i <= |parts| && i < |tp.stop|
    decreases i, 1
  {
    if i < |tp.segPlans| then tp.segPlans[i] else PlanBefore(g, tp, parts, i)
  }

  /** What comes later does not change what was carried to a pair. */
  lemma {:induction false} CarriedOnce(g: Graph, tp: TripPlan, parts: seq<seq<UsedEdge>>, part: seq<UsedEdge>, i: nat)
    requires i <= |parts| && i < |tp.stop|
    ensures SpanBefore(tp, parts + [part], i) == SpanBefore(tp, parts, i)
    ensures PlanBefore(g, tp, parts + [part], i) == PlanBefore(g, tp, parts, i)
    ensures PlanFor(g, tp, parts + [part], i) == PlanFor(g, tp, parts, i)
  {
    if i > 0 { CarriedOnce(g, tp, parts, part, i - 1); }
  }

  lemma {:induction false} CarriedIsGood(g: Graph, tp: TripPlan, parts: seq<seq<UsedEdge>>, i: nat)
    requires i <= |parts| && i < |tp.stop|
    requires GoodPlan(tp.plan) && forall k :: 0 <= k < |tp.segPlans| ==> GoodPlan(tp.segPlans[k])
    ensures GoodPlan(PlanBefore(g, tp, parts, i)) && GoodPlan(PlanFor(g, tp, parts, i))
  {
    if i > 0 { CarriedIsGood(g, tp, parts, i - 1); }
  }

  /** In a planned trip what is carried is what was known before. */
  lemma {:induction false} CarriedIsKnown(g: Graph, tp: TripPlan, parts: seq<seq<UsedEdge>>, i: nat)
    requires i <= |parts| && i + 1 < |tp.stop| && PlansKnown(tp)
    requires tp.segPlans == [] || |tp.segPlans| == |tp.stop| - 1
    ensures PlanFor(g, tp, parts, i) == KnownPlan(tp, i)
  {
    if tp.segPlans == [] && i > 0 { CarriedIsKnown(g, tp, parts, i - 1); }
  }

  predicate HasMode(legs: seq<Leg>, m: Mode) { exists k :: 0 <= k < |legs| && legs[k].mode == In(m) }

  /** Leaving the car at a stop: charged once, when the plan parks at a stop the trip comes to, the
      first mode carried something and something was walked. */
  function StopCharge(tp: TripPlan, legs: seq<Leg>): real {
    if |tp.plan| >= 2 && 1 <= tp.parkSeg < |tp.segPlans| && tp.parkSeg + 1 < |tp.nodes|
       && HasMode(legs, tp.plan[0]) && !tp.plan[0].Hike? && HasMode(legs, Hike)
    then SWITCH_COST else 0.0
  }

  function Flat(parts: seq<seq<UsedEdge>>): seq<UsedEdge> {
    if |parts| == 0 then [] else Flat(parts[..|parts| - 1]) + parts[|parts| - 1]
  }

  /** The answer: what each pair contributed, the legs, the trip's seconds. */
  datatype Answer = Answer(parts: seq<seq<UsedEdge>>, legs: seq<Leg>, seconds: real)

  function MoveSeconds(a: Answer): real { Seconds(Flat(a.parts)) }

  // ------------------------------------------------------------------ the trip

  lemma {:induction false} LegSecondsOfBoth(a: seq<Leg>, b: seq<Leg>)
    ensures LegSeconds(a + b) == LegSeconds(a) + LegSeconds(b)
  {
    if |b| == 0 {
      assert a + b == a;
    } else {
      LegSecondsOfBoth(a, b[..|b| - 1]);
      assert (a + b)[..|a + b| - 1] == a + b[..|b| - 1];
    }
  }

  lemma {:induction false} LegEdgesOfBoth(a: seq<Leg>, b: seq<Leg>)
    ensures LegEdges(a + b) == LegEdges(a) + LegEdges(b)
  {
    if |b| == 0 {
      assert a + b == a;
    } else {
      LegEdgesOfBoth(a, b[..|b| - 1]);
      assert (a + b)[..|a + b| - 1] == a + b[..|b| - 1];
    }
  }

  /** A legal walk stays on the map, and one that ends elsewhere travels. */
  lemma {:induction false} WalkTravels(g: Graph, q: Query, s: State, ms: seq<Move>)
    requires g.Valid() && LegalWalk(g, q, s, ms)
    ensures forall k :: 0 <= k < |ms| && !ms[k].Park? ==> ms[k].e.st < |g.stretches|
    ensures End(s, ms).node != s.node ==> exists k :: 0 <= k < |ms| && !ms[k].Park?
    decreases |ms|
  {
    if |ms| > 0 {
      LegalStaysInside(g, q, s, ms[0]);
      WalkTravels(g, q, Target(s, ms[0]), ms[1..]);
      forall k | 0 <= k < |ms| && !ms[k].Park? ensures ms[k].e.st < |g.stretches| {
        if k > 0 { assert ms[k] == ms[1..][k - 1]; }
      }
      if End(s, ms).node != s.node && ms[0].Park? {
        var k :| 0 <= k < |ms[1..]| && !ms[1..][k].Park?;
        assert !ms[k + 1].Park?;
      }
    }
  }

  lemma {:induction false} TravelledSome(edges: seq<UsedEdge>, k: nat)
    requires k < |edges| && !edges[k].mv.Park?
    ensures Travelled(edges) != []
  {
    if k < |edges| - 1 { TravelledSome(edges[..|edges| - 1], k); }
  }

  lemma PartTravels(w: World, tp: TripPlan, pen: Penalties, i: nat, plan: seq<Mode>, part: seq<UsedEdge>)
    requires Asked(w, tp) && i + 1 < |tp.nodes| && PairOk(w, tp, pen, i, plan, part)
    ensures OnMap(w.g, part)
    ensures tp.nodes[i] != tp.nodes[i + 1] ==> Travelled(part) != []
  {
    BuiltIsValid(w.g, w.base, w.near, w.hyp);
    if tp.nodes[i] != tp.nodes[i + 1] {
      if tp.force[i].Some? {
        TravelledSome(part, 0);
      } else {
        var t := PairTask(w, tp, i, plan, pen);
        WalkTravels(t.g, t.q, t.start, MovesOf(part));
        var k :| 0 <= k < |part| && !MovesOf(part)[k].Park?;
        TravelledSome(part, k);
      }
    }
  }

  /** What has been gathered so far: every pair answered under the plan fixed for it or carried to it. */
  ghost predicate Gathered(w: World, tp: TripPlan, pen: Penalties, parts: seq<seq<UsedEdge>>)
    requires Asked(w, tp)
  {
    |parts| <= |tp.nodes| - 1
    && forall i :: 0 <= i < |parts| ==> PairOk(w, tp, pen, i, PlanFor(w.g, tp, parts, i), parts[i])
  }

  /** The closed spans are cut into legs, the open one is still gathered, the parking is added up. */
  ghost predicate Cut(g: Graph, all: seq<UsedEdge>, legs: seq<Leg>, span: seq<UsedEdge>, parkSecs: real) {
    && OnMap(g, span) && parkSecs == ParkSeconds(all)
    && (forall k :: 0 <= k < |legs| ==> LegOk(g, legs[k]))
    && LegEdges(legs) + Travelled(span) == Travelled(all)
    && LegSeconds(legs) + Seconds(Travelled(span)) == Seconds(Travelled(all))
  }

  lemma Associates<T>(a: seq<T>, b: seq<T>, c: seq<T>)
    ensures a + (b + c) == (a + b) + c
  {
  }

  lemma OnMapBoth(g: Graph, a: seq<UsedEdge>, b: seq<UsedEdge>)
    requires OnMap(g, a) && OnMap(g, b)
    ensures OnMap(g, a + b)
  {
  }

  lemma CutGrows(g: Graph, all: seq<UsedEdge>, legs: seq<Leg>, span: seq<UsedEdge>, parkSecs: real, part: seq<UsedEdge>)
    requires Cut(g, all, legs, span, parkSecs) && OnMap(g, part)
    ensures Cut(g, all + part, legs, span + part, parkSecs + ParkSeconds(part))
  {
    hide Seconds, Travelled, ParkSeconds, LegSeconds, LegEdges, LegOk, OnMap;
    OnMapBoth(g, span, part);
    TravelledOfBoth(all, part);
    TravelledOfBoth(span, part);
    SecondsOfBoth(Travelled(all), Travelled(part));
    SecondsOfBoth(Travelled(span), Travelled(part));
    Associates(LegEdges(legs), Travelled(span), Travelled(part));
  }

  lemma {:induction false} LastLegIsLastMove(g: Graph, legs: seq<Leg>)
    requires |legs| > 0 && forall k :: 0 <= k < |legs| ==> LegOk(g, legs[k])
    ensures var t := LegEdges(legs);
      |t| > 0 && !t[|t| - 1].mv.Park? && t[|t| - 1].mv.e.st < |g.stretches|
          && LegModeOf(g, t[|t| - 1]) == legs[|legs| - 1].mode
  {
    var last := legs[|legs| - 1];
    assert LegOk(g, last) && LegEdges(legs)[|LegEdges(legs)| - 1] == last.edges[|last.edges| - 1];
  }

  /** closeSpan: the span becomes legs, and says which modes the next pair may start with: from the mode of
      the last leg, unless that is a ride or the pairs were planned in advance. */
  method CloseSpan(g: Graph, tp: TripPlan, ghost all: seq<UsedEdge>, legs0: seq<Leg>, span: seq<UsedEdge>,
                   ghost parkSecs: real, cur0: seq<Mode>) returns (legs: seq<Leg>, cur: seq<Mode>)
    requires Cut(g, all, legs0, span, parkSecs)
    ensures Cut(g, all, legs, [], parkSecs) && legs0 <= legs
    ensures cur == AfterSpan(g, tp, cur0, span)
  {
    var more, open := Legs(g, span);
    legs := legs0 + more;
    LegSecondsOfBoth(legs0, more);
    LegEdgesOfBoth(legs0, more);
    assert LegEdges(legs) + [] == LegEdges(legs);
    cur := cur0;
    if |more| > 0 {
      LastLegIsLastMove(g, more);
      if |tp.segPlans| == 0 && more[|more| - 1].mode.In? { cur := DropTo(cur0, more[|more| - 1].mode.m); }
    }
  }

  ghost predicate AnswerOk(w: World, tp: TripPlan, pen: Penalties, a: Answer)
    requires Asked(w, tp)
  {
    && |a.parts| == |tp.nodes| - 1 && Gathered(w, tp, pen, a.parts)
    && LegEdges(a.legs) == Travelled(Flat(a.parts)) && (forall k :: 0 <= k < |a.legs| ==> LegOk(w.g, a.legs[k]))
    && a.legs != []
    && a.seconds == MoveSeconds(a) + StopCharge(tp, a.legs)
  }

  /** Every pair of a planned trip was answered under the plan known for it. */
  lemma KnownPairs(w: World, tp: TripPlan, pen: Penalties, parts: seq<seq<UsedEdge>>, i: nat)
    requires Asked(w, tp) && PlansKnown(tp) && Gathered(w, tp, pen, parts) && i < |parts|
    ensures PairOk(w, tp, pen, i, KnownPlan(tp, i), parts[i])
  {
    CarriedIsKnown(w.g, tp, parts, i);
  }

  /** The search of pair i found no way, and noted every grade it was refused. */
  ghost predicate FailedAt(w: World, tp: TripPlan, pen: Penalties, i: nat, plan: seq<Mode>, st: Refusals)
    requires Asked(w, tp)
  {
    BuiltIsValid(w.g, w.base, w.near, w.hyp);
    Searched(tp, i) && GoodPlan(plan) &&
    var t := PairTask(w, tp, i, plan, pen);
    forall ms :: LegalWalk(t.g, t.q, t.start, ms) ==>
      End(t.start, ms).node != t.to && Noted(t.g, t.q, {End(t.start, ms)}, st)
  }

  /** What the searches of the pairs have noted. */
  ghost predicate PairNoted(w: World, tp: TripPlan, pen: Penalties, i: nat, plan: seq<Mode>, part: seq<UsedEdge>,
      st: Refusals)
    requires Asked(w, tp) && i + 1 < |tp.nodes|
  {
    BuiltIsValid(w.g, w.base, w.near, w.hyp);
    Searched(tp, i) && GoodPlan(plan) ==> Ahead(PairTask(w, tp, i, plan, pen), part, st)
  }

  ghost predicate PairsNoted(w: World, tp: TripPlan, pen: Penalties, parts: seq<seq<UsedEdge>>, st: Refusals)
    requires Asked(w, tp)
  {
    |parts| <= |tp.nodes| - 1
    && forall i :: 0 <= i < |parts| ==> PairNoted(w, tp, pen, i, PlanFor(w.g, tp, parts, i), parts[i], st)
  }

  /** The pairs before were answered, and the one after them, under the plan carried to it, was not. */
  ghost predicate FailsAfter(w: World, tp: TripPlan, pen: Penalties, parts: seq<seq<UsedEdge>>, st: Refusals)
    requires Asked(w, tp)
  {
    |parts| + 1 < |tp.nodes| && Gathered(w, tp, pen, parts) && PairsNoted(w, tp, pen, parts, st)
    && FailedAt(w, tp, pen, |parts|, PlanFor(w.g, tp, parts, |parts|), st)
  }

  /** No pair goes anywhere, or one could not be answered. */
  ghost predicate Unanswered(w: World, tp: TripPlan, pen: Penalties, st: Refusals)
    requires Asked(w, tp)
  {
    || (forall i :: 0 <= i < |tp.nodes| - 1 ==> tp.nodes[i] == tp.nodes[i + 1])
    || exists parts :: FailsAfter(w, tp, pen, parts, st)
  }

  /** The refusals noted before a trip are still noted after it. */
  predicate Keeps(st0: Stats, st: Stats) {
    st.refused.gradeSkipped >= 0 && (st0.refused.ferrataSkip ==> st.refused.ferrataSkip)
    && (st0.refused.gradeSkipped > 0 ==> 0 < st.refused.gradeSkipped <= st0.refused.gradeSkipped)
  }

  lemma NotedIsKept(g: Graph, q: Query, settled: set<State>, st0: Stats, st: Stats)
    requires g.Valid() && Keeps(st0, st) && Noted(g, q, settled, st0.refused)
    ensures Noted(g, q, settled, st.refused)
  {
    forall u, e | u in settled && u.node < g.n && u.mode.Hike? && e in g.hike[u.node]
      ensures NotedEdge(g, q, e, st.refused)
    {
      assert NotedEdge(g, q, e, st0.refused);
    }
  }

  /** What was noted stays noted. */
  lemma PairNotedIsKept(w: World, tp: TripPlan, pen: Penalties, i: nat, plan: seq<Mode>, part: seq<UsedEdge>,
      st0: Stats, st: Stats)
    requires Asked(w, tp) && i + 1 < |tp.nodes| && Keeps(st0, st)
    requires PairNoted(w, tp, pen, i, plan, part, st0.refused)
    ensures PairNoted(w, tp, pen, i, plan, part, st.refused)
  {
    hide Noted, Legal, Keeps, LegalWalk, Cost, Slack;
    if Searched(tp, i) && GoodPlan(plan) {
      BuiltIsValid(w.g, w.base, w.near, w.hyp);
      var t := PairTask(w, tp, i, plan, pen);
      forall ms | LegalWalk(t.g, t.q, t.start, ms)
        ensures Noted(t.g, t.q, {End(t.start, ms)}, st.refused)
             || Cost(t.g, t.q, Fresh, t.start, MovesOf(part))
                <= Cost(t.g, t.q, Fresh, t.start, ms) + t.h(End(t.start, ms)) + Slack(t.g, t.q, t.start, ms)
      {
        if Noted(t.g, t.q, {End(t.start, ms)}, st0.refused) {
          NotedIsKept(t.g, t.q, {End(t.start, ms)}, st0, st);
        }
      }
    }
  }

  lemma PairsNotedIsKept(w: World, tp: TripPlan, pen: Penalties, parts: seq<seq<UsedEdge>>, st0: Stats, st: Stats)
    requires Asked(w, tp) && Keeps(st0, st) && PairsNoted(w, tp, pen, parts, st0.refused)
    ensures PairsNoted(w, tp, pen, parts, st.refused)
  {
    hide PairNoted, World.Valid, Keeps, PlanFor;
    forall i | 0 <= i < |parts| ensures PairNoted(w, tp, pen, i, PlanFor(w.g, tp, parts, i), parts[i], st.refused) {
      PairNotedIsKept(w, tp, pen, i, PlanFor(w.g, tp, parts, i), parts[i], st0, st);
    }
  }

  /** One pair more was answered. */
  lemma NoteOne(w: World, tp: TripPlan, pen: Penalties, parts: seq<seq<UsedEdge>>, part: seq<UsedEdge>, st: Refusals)
    requires Asked(w, tp) && PairsNoted(w, tp, pen, parts, st) && |parts| + 1 < |tp.nodes|
    requires PairNoted(w, tp, pen, |parts|, PlanFor(w.g, tp, parts, |parts|), part, st)
    ensures PairsNoted(w, tp, pen, parts + [part], st)
  {
    hide PairNoted, World.Valid, PlanFor;
    forall i | 0 <= i < |parts| + 1
      ensures PairNoted(w, tp, pen, i, PlanFor(w.g, tp, parts + [part], i), (parts + [part])[i], st)
    {
      CarriedOnce(w.g, tp, parts, part, i);
    }
  }

  /** One pair of waypoints. */
  method OnePair(w: World, tp: TripPlan, pen: Penalties, i: nat, cur: seq<Mode>, st0: Stats)
      returns (part: Option<seq<UsedEdge>>, st: Stats)
    requires Asked(w, tp) && pen.Valid() && i + 1 < |tp.nodes| && GoodPlan(cur) && st0.refused.gradeSkipped >= 0
    ensures part.Some? ==>
              PairOk(w, tp, pen, i, cur, part.value) && PairNoted(w, tp, pen, i, cur, part.value, st.refused)
    ensures part.None? ==> FailedAt(w, tp, pen, i, cur, st.refused)
    ensures Keeps(st0, st)
  {
    st := st0;
    if tp.nodes[i] == tp.nodes[i + 1] {
      part := Some([]);
    } else if tp.force[i].Some? {
      part := Some([ForcedEdge(tp, i)]);
    } else {
      PairTaskIsSound(w, tp, i, cur, pen);
      part, st := SearchSeg(PairTask(w, tp, i, cur, pen), st0);
    }
  }

  lemma {:induction false} FlatTravels(parts: seq<seq<UsedEdge>>, i: nat)
    requires i < |parts| && Travelled(parts[i]) != []
    ensures Travelled(Flat(parts)) != []
  {
    var last := |parts| - 1;
    TravelledOfBoth(Flat(parts[..last]), parts[last]);
    if i < last { FlatTravels(parts[..last], i); }
  }

  /** The answer of a trip whose pairs have all been answered; none when nothing was travelled. */
  method Finish(w: World, tp: TripPlan, ghost pen: Penalties, parts: seq<seq<UsedEdge>>, legs: seq<Leg>, parkSecs: real)
      returns (r: Option<Answer>)
    requires Asked(w, tp) && |parts| == |tp.nodes| - 1 && Gathered(w, tp, pen, parts)
    requires Cut(w.g, Flat(parts), legs, [], parkSecs)
    ensures r.Some? ==> AnswerOk(w, tp, pen, r.value)
    ensures r.None? ==> forall i :: 0 <= i < |tp.nodes| - 1 ==> tp.nodes[i] == tp.nodes[i + 1]
  {
    assert LegEdges(legs) + [] == LegEdges(legs);
    if |legs| == 0 {
      r := None;
      forall i | 0 <= i < |tp.nodes| - 1 ensures tp.nodes[i] == tp.nodes[i + 1] {
        PartTravels(w, tp, pen, i, PlanFor(w.g, tp, parts, i), parts[i]);
        if tp.nodes[i] != tp.nodes[i + 1] { FlatTravels(parts, i); }
      }
    } else {
      SecondsSplit(Flat(parts));
      r := Some(Answer(parts, legs, parkSecs + LegSeconds(legs) + StopCharge(tp, legs)));
    }
  }

  /** The variables of the trip's loop: the modes still available, the legs closed so far, the span
      being gathered, the parking seconds, and what every pair contributed. */
  datatype Progress = Progress(
    cur: seq<Mode>, legs: seq<Leg>, span: seq<UsedEdge>, parkSecs: real, parts: seq<seq<UsedEdge>>)

  ghost predicate Going(w: World, tp: TripPlan, pen: Penalties, p: Progress)
    requires Asked(w, tp)
  {
    && Gathered(w, tp, pen, p.parts) && Cut(w.g, Flat(p.parts), p.legs, p.span, p.parkSecs)
    && p.span == SpanBefore(tp, p.parts, |p.parts|) && p.cur == PlanBefore(w.g, tp, p.parts, |p.parts|)
  }

  lemma Starting(w: World, tp: TripPlan, pen: Penalties)
    requires Asked(w, tp)
    ensures Going(w, tp, pen, Progress(tp.plan, [], [], 0.0, []))
  {
  }

  lemma FlatOneMore(parts: seq<seq<UsedEdge>>, part: seq<UsedEdge>)
    ensures Flat(parts + [part]) == Flat(parts) + part
  {
    assert (parts + [part])[..|parts|] == parts;
  }

  lemma GatherOne(w: World, tp: TripPlan, pen: Penalties, parts: seq<seq<UsedEdge>>, part: seq<UsedEdge>)
    requires Asked(w, tp) && Gathered(w, tp, pen, parts) && |parts| + 1 < |tp.nodes|
    requires PairOk(w, tp, pen, |parts|, PlanFor(w.g, tp, parts, |parts|), part)
    ensures Gathered(w, tp, pen, parts + [part])
  {
    hide PairOk, World.Valid, PlanFor;
    forall i | 0 <= i < |parts| + 1
      ensures PairOk(w, tp, pen, i, PlanFor(w.g, tp, parts + [part], i), (parts + [part])[i])
    {
      CarriedOnce(w.g, tp, parts, part, i);
    }
  }

  /** What one more pair does to the carried span and plan. */
  lemma CarryOne(g: Graph, tp: TripPlan, parts: seq<seq<UsedEdge>>, part: seq<UsedEdge>)
    requires |parts| + 1 < |tp.stop|
    ensures var i := |parts|; var more := parts + [part];
      var cur, span := PlanFor(g, tp, parts, i), SpanBefore(tp, parts, i) + part;
      && SpanBefore(tp, more, i + 1) == (if tp.stop[i + 1] then [] else span)
      && PlanBefore(g, tp, more, i + 1) == if tp.stop[i + 1] then AfterSpan(g, tp, cur, span) else cur
  {
    hide AfterSpan;
    CarriedOnce(g, tp, parts, part, |parts|);
  }

  /** The modes pair |parts| starts with. */
  lemma CurIsCarried(w: World, tp: TripPlan, pen: Penalties, p: Progress)
    requires Asked(w, tp) && Going(w, tp, pen, p)
    ensures var i := |p.parts|; var cur := if i < |tp.segPlans| then tp.segPlans[i] else p.cur;
      GoodPlan(cur) && cur == PlanFor(w.g, tp, p.parts, i)
  {
    hide AfterSpan, Cut, PairOk, World.Valid;
    CarriedIsGood(w.g, tp, p.parts, |p.parts|);
  }

  /** The pair that was answered joins the span, and a stop closes it. */
  method AddPart(w: World, tp: TripPlan, ghost pen: Penalties, p: Progress, cur: seq<Mode>, part: seq<UsedEdge>)
      returns (n: Progress)
    requires Asked(w, tp) && Going(w, tp, pen, p) && |p.parts| + 1 < |tp.nodes|
    requires cur == PlanFor(w.g, tp, p.parts, |p.parts|) && PairOk(w, tp, pen, |p.parts|, cur, part)
    ensures Going(w, tp, pen, n) && n.parts == p.parts + [part]
  {
    hide AfterSpan, Cut, PairOk, Flat, ParkSeconds, World.Valid, PlanFor, PlanBefore, SpanBefore, Gathered;
    PartTravels(w, tp, pen, |p.parts|, cur, part);
    GatherOne(w, tp, pen, p.parts, part);
    FlatOneMore(p.parts, part);
    CarryOne(w.g, tp, p.parts, part);
    CutGrows(w.g, Flat(p.parts), p.legs, p.span, p.parkSecs, part);
    var span, parkSecs := p.span + part, p.parkSecs + ParkSeconds(part);
    var legs, next := p.legs, cur;
    if tp.stop[|p.parts| + 1] {
      legs, next := CloseSpan(w.g, tp, Flat(p.parts + [part]), legs, span, parkSecs, cur);
      span := [];
    }
    n := Progress(next, legs, span, parkSecs, p.parts + [part]);
  }

  /** One turn of the loop: the pair is answered under its plan, or the trip is not. */
  method NextPair(w: World, tp: TripPlan, pen: Penalties, p: Progress, st0: Stats)
      returns (n: Option<Progress>, st: Stats)
    requires Asked(w, tp) && pen.Valid() && Going(w, tp, pen, p) && |p.parts| + 1 < |tp.nodes|
    requires st0.refused.gradeSkipped >= 0 && PairsNoted(w, tp, pen, p.parts, st0.refused)
    ensures n.Some? ==> Going(w, tp, pen, n.value) && |n.value.parts| == |p.parts| + 1
    ensures n.Some? ==> PairsNoted(w, tp, pen, n.value.parts, st.refused)
    ensures n.None? ==> Unanswered(w, tp, pen, st.refused)
    ensures Keeps(st0, st)
  {
    hide Cut, PairOk, PairNoted, PairsNoted, FailedAt, GoodPlan, World.Valid, PlanFor, PlanBefore, SpanBefore, Gathered;
    var i := |p.parts|;
    var cur := if i < |tp.segPlans| then tp.segPlans[i] else p.cur;
    CurIsCarried(w, tp, pen, p);
    var part;
    part, st := OnePair(w, tp, pen, i, cur, st0);
    PairsNotedIsKept(w, tp, pen, p.parts, st0, st);
    if part.None? {
      assert FailsAfter(w, tp, pen, p.parts, st.refused);
      return None, st;
    }
    NoteOne(w, tp, pen, p.parts, part.value, st.refused);
    var next := AddPart(w, tp, pen, p, cur, part.value);
    n := Some(next);
  }

  /** trip: every pair searched in turn, the spans cut into legs at stops, the seconds added up. */
  method Plan(w: World, tp: TripPlan, pen: Penalties, st0: Stats) returns (r: Option<Answer>, st: Stats)
    requires Asked(w, tp) && pen.Valid() && st0.refused.gradeSkipped >= 0
    ensures r.Some? ==> AnswerOk(w, tp, pen, r.value)
    ensures r.None? ==> Unanswered(w, tp, pen, st.refused)
    ensures Keeps(st0, st)
  {
    var p := Progress(tp.plan, [], [], 0.0, []);
    st := st0;
    Starting(w, tp, pen);
    for i := 0 to |tp.nodes| - 1
      invariant Going(w, tp, pen, p) && |p.parts| == i && Keeps(st0, st)
      invariant PairsNoted(w, tp, pen, p.parts, st.refused)
    {
      hide PairsNoted, Going, Unanswered, World.Valid;
      var n;
      n, st := NextPair(w, tp, pen, p, st);
      if n.None? { return None, st; }
      p := n.value;
    }
    hide Cut, GoodPlan, Gathered, AnswerOk, World.Valid;
    var legs, cur := CloseSpan(w.g, tp, Flat(p.parts), p.legs, p.span, p.parkSecs, p.cur);
    r := Finish(w, tp, pen, p.parts, legs, p.parkSecs);
  }
}
