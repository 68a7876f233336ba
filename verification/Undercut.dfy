/** When penalties can make an answer of a planned trip report a smaller clock than the first: exactly when
    riding instead of walking everywhere costs less than the two minutes of parking it saves. Of all valid
    penalties some do; they need not be those of the trip's own rounds
    (internal/route/search.go:343-353, 786-849, 1335-1358). */
module Undercut {
  import opened Roads
  import opened Moves
  import opened Search
  import opened Answers
  import opened Network
  import opened Heuristic
  import opened Trip
  import opened Alternatives

  // ------------------------------------------------------------------ a cheapest walk exists

  /** Every move a walker can make costs at least d seconds. */
  ghost predicate StepsTake(g: Graph, d: real) {
    && d > 0.0
    && (forall v, k :: 0 <= v < |g.hike| && 0 <= k < |g.hike[v]| ==> g.hike[v][k].w >= d)
    && forall v, k :: 0 <= v < |g.lift| && 0 <= k < |g.lift[v]| ==> g.lift[v][k].w >= d
  }

  ghost predicate Takes(l: seq<seq<Edge>>, d: real) {
    forall v, k :: 0 <= v < |l| && 0 <= k < |l[v]| ==> l[v][k].w >= d
  }

  lemma {:induction false} LeastInRow(row: seq<Edge>) returns (d: real)
    requires forall k :: 0 <= k < |row| ==> row[k].w > 0.0
    ensures d > 0.0 && forall k :: 0 <= k < |row| ==> row[k].w >= d
  {
    if |row| == 0 { return 1.0; }
    d := LeastInRow(row[..|row| - 1]);
    d := Min(d, row[|row| - 1].w);
  }

  lemma {:induction false} LeastInLayer(l: seq<seq<Edge>>) returns (d: real)
    requires forall v, k :: 0 <= v < |l| && 0 <= k < |l[v]| ==> l[v][k].w > 0.0
    ensures d > 0.0 && Takes(l, d)
  {
    if |l| == 0 { return 1.0; }
    var front, last := l[..|l| - 1], l[|l| - 1];
    var a := LeastInLayer(front);
    var b := LeastInRow(last);
    d := Min(a, b);
    forall v, k | 0 <= v < |l| && 0 <= k < |l[v]| ensures l[v][k].w >= d {
      if v < |front| { assert front[v][k].w >= a; }
    }
  }

  /** The question of a walked pair. */
  predicate OnFoot(q: Query) { q.plan == [Hike] }

  /** The moves a walker has at a junction. */
  function FootMoves(g: Graph, q: Query, v: nat): seq<Move>
    requires v < |g.hike| && v < |g.lift|
  {
    seq(|g.hike[v]|, k requires 0 <= k < |g.hike[v]| => Along(g.hike[v][k]))
    + seq(|g.lift[v]|, k requires 0 <= k < |g.lift[v]| => Board(g.lift[v][k]))
  }

  lemma FootMovesAreAll(g: Graph, q: Query, s: State, mv: Move)
    requires g.Valid() && OnFoot(q) && Legal(g, q, s, mv)
    ensures s.mode.Hike? && !mv.Park? && mv in FootMoves(g, q, s.node) && Target(s, mv).node < g.n
  {
    LegalStaysInside(g, q, s, mv);
    match mv
    case Along(e) =>
      var k :| 0 <= k < |g.hike[s.node]| && g.hike[s.node][k] == e;
      assert FootMoves(g, q, s.node)[k] == mv;
    case Board(e) =>
      var k :| 0 <= k < |g.lift[s.node]| && g.lift[s.node][k] == e;
      assert FootMoves(g, q, s.node)[|g.hike[s.node]| + k] == mv;
    case Park(nm) =>
  }

  /** On foot nothing owes a ramp: what a walk costs does not depend on what it arrived on. */
  lemma FootCostForgets(g: Graph, q: Query, a: Arrival, s: State, ms: seq<Move>)
    requires s.mode.Hike?
    ensures Cost(g, q, a, s, ms) == Cost(g, q, Fresh, s, ms) && Clock(g, a, s, ms) == Clock(g, Fresh, s, ms)
  {
  }

  /** ms is a legal walk to the junction of at most n moves. */
  ghost predicate Comes(g: Graph, q: Query, s: State, to: nat, n: nat, ms: seq<Move>)
    requires g.Valid()
  {
    |ms| <= n && LegalWalk(g, q, s, ms) && End(s, ms).node == to
  }

  ghost predicate Cheapest(g: Graph, q: Query, s: State, to: nat, n: nat, best: Option<seq<Move>>)
    requires g.Valid()
  {
    match best
    case None => forall ms :: !Comes(g, q, s, to, n, ms)
    case Some(b) => Comes(g, q, s, to, n, b)
                    && forall ms :: Comes(g, q, s, to, n, ms) ==> Cost(g, q, Fresh, s, b) <= Cost(g, q, Fresh, s, ms)
  }

  /** The same, of the walks that begin with one of some moves. */
  ghost predicate CheapestFrom(g: Graph, q: Query, s: State, to: nat, n: nat, mvs: seq<Move>, best: Option<seq<Move>>)
    requires g.Valid()
  {
    match best
    case None => forall ms :: Comes(g, q, s, to, n, ms) && |ms| > 0 ==> ms[0] !in mvs
    case Some(b) => Comes(g, q, s, to, n, b)
                    && forall ms :: Comes(g, q, s, to, n, ms) && |ms| > 0 && ms[0] in mvs ==>
                         Cost(g, q, Fresh, s, b) <= Cost(g, q, Fresh, s, ms)
  }

  lemma FirstMove(g: Graph, q: Query, s: State, to: nat, n: nat, mv: Move, rest: seq<Move>)
    requires g.Valid() && OnFoot(q) && Legal(g, q, s, mv) && Comes(g, q, Target(s, mv), to, n, rest)
    ensures Comes(g, q, s, to, n + 1, [mv] + rest)
    ensures Cost(g, q, Fresh, s, [mv] + rest) == StepCost(g, q, Fresh, s, mv) + Cost(g, q, Fresh, Target(s, mv), rest)
  {
    FootMovesAreAll(g, q, s, mv);
    assert ([mv] + rest)[1..] == rest;
    FootCostForgets(g, q, ArrivalOf(mv), Target(s, mv), rest);
  }

  /** Of two cheapest, the cheaper. */
  lemma Cheaper(g: Graph, q: Query, s: State, to: nat, n: nat, mvs: seq<Move>, mv: Move, a: Option<seq<Move>>,
      b: Option<seq<Move>>)
      returns (best: Option<seq<Move>>)
    requires g.Valid() && CheapestFrom(g, q, s, to, n, mvs, a) && CheapestFrom(g, q, s, to, n, [mv], b)
    ensures CheapestFrom(g, q, s, to, n, mvs + [mv], best)
  {
    hide Comes, Cost;
    best := if a.None? then b else if b.None? then a
            else if Cost(g, q, Fresh, s, a.value) <= Cost(g, q, Fresh, s, b.value) then a else b;
  }

  lemma {:induction false} CheapestOfMoves(g: Graph, q: Query, s: State, to: nat, n: nat, mvs: seq<Move>)
      returns (best: Option<seq<Move>>)
    requires g.Valid() && OnFoot(q) && q.pen.Valid()
    ensures CheapestFrom(g, q, s, to, n + 1, mvs, best)
    decreases n, |mvs| + 1
  {
    if |mvs| == 0 { return None; }
    var front, mv := mvs[..|mvs| - 1], mvs[|mvs| - 1];
    var a := CheapestOfMoves(g, q, s, to, n, front);
    var b: Option<seq<Move>> := None;
    if Legal(g, q, s, mv) {
      var rest := CheapestWithin(g, q, Target(s, mv), to, n);
      b := ThroughMove(g, q, s, to, n, mv, rest);
    } else {
      assert CheapestFrom(g, q, s, to, n + 1, [mv], b);
    }
    best := Cheaper(g, q, s, to, n + 1, front, mv, a, b);
    assert mvs == front + [mv];
  }

  lemma ThroughMove(g: Graph, q: Query, s: State, to: nat, n: nat, mv: Move, rest: Option<seq<Move>>)
      returns (best: Option<seq<Move>>)
    requires g.Valid() && OnFoot(q) && Legal(g, q, s, mv) && Cheapest(g, q, Target(s, mv), to, n, rest)
    ensures CheapestFrom(g, q, s, to, n + 1, [mv], best)
  {
    best := if rest.Some? then Some([mv] + rest.value) else None;
    if rest.Some? { FirstMove(g, q, s, to, n, mv, rest.value); }
    forall ms | Comes(g, q, s, to, n + 1, ms) && |ms| > 0 && ms[0] in [mv]
      ensures rest.Some? && Cost(g, q, Fresh, s, best.value) <= Cost(g, q, Fresh, s, ms)
    {
      assert ms == [mv] + ms[1..];
      assert Comes(g, q, Target(s, mv), to, n, ms[1..]);
      FirstMove(g, q, s, to, n, mv, ms[1..]);
    }
  }

  /** Among the walks of at most n moves there is a cheapest one, if there is one at all. */
  lemma {:induction false} CheapestWithin(g: Graph, q: Query, s: State, to: nat, n: nat)
      returns (best: Option<seq<Move>>)
    requires g.Valid() && OnFoot(q) && q.pen.Valid()
    ensures Cheapest(g, q, s, to, n, best)
    decreases n, 0
  {
    if s.node == to {
      best := Some([]);
      forall ms | Comes(g, q, s, to, n, ms) ensures Cost(g, q, Fresh, s, []) <= Cost(g, q, Fresh, s, ms) {
        ClockIsAtMostCost(g, q, Fresh, s, ms);
      }
    } else if n == 0 || s.node >= g.n {
      best := None;
    } else {
      best := CheapestOfMoves(g, q, s, to, n - 1, FootMoves(g, q, s.node));
      forall ms | Comes(g, q, s, to, n, ms) ensures |ms| > 0 && ms[0] in FootMoves(g, q, s.node) {
        FootMovesAreAll(g, q, s, ms[0]);
      }
    }
  }

  lemma FootMoveTakes(g: Graph, q: Query, s: State, mv: Move, d: real)
    requires g.Valid() && OnFoot(q) && q.pen.Valid() && StepsTake(g, d) && Legal(g, q, s, mv)
    ensures s.mode.Hike? && !mv.Park? && mv.e.w >= d && StepCost(g, q, Fresh, s, mv) >= mv.e.w
  {
    FootMovesAreAll(g, q, s, mv);
    StepCostAtLeastBase(g, q, Fresh, s, mv);
    match mv
    case Along(e) => var k :| 0 <= k < |g.hike[s.node]| && g.hike[s.node][k] == e;
    case Board(e) => var k :| 0 <= k < |g.lift[s.node]| && g.lift[s.node][k] == e;
    case Park(_) =>
  }

  function Times(d: real, n: nat): real { d * n as real }

  lemma OneMoreTime(d: real, n: nat)
    ensures Times(d, 0) == 0.0 && Times(d, n + 1) == Times(d, n) + d
  {
  }

  /** So a walk of many moves is a dear one. */
  lemma {:induction false} LongIsDear(g: Graph, q: Query, s: State, ms: seq<Move>, d: real)
    requires g.Valid() && OnFoot(q) && q.pen.Valid() && StepsTake(g, d) && LegalWalk(g, q, s, ms)
    ensures Cost(g, q, Fresh, s, ms) >= Times(d, |ms|)
    decreases |ms|
  {
    hide Times, StepCost, StepsTake, Legal;
    OneMoreTime(d, if |ms| > 0 then |ms| - 1 else 0);
    if |ms| > 0 {
      FootMoveTakes(g, q, s, ms[0], d);
      FootMovesAreAll(g, q, s, ms[0]);
      LongIsDear(g, q, Target(s, ms[0]), ms[1..], d);
      FootCostForgets(g, q, ArrivalOf(ms[0]), Target(s, ms[0]), ms[1..]);
    }
  }

  lemma Enough(c: real, d: real) returns (n: nat)
    requires c >= 0.0 && d > 0.0
    ensures Times(d, n) > c && forall m: nat :: m >= n ==> Times(d, m) >= Times(d, n)
  {
    var x := c / d;
    assert x * d == c;
    assert x >= 0.0 by { assert x < 0.0 ==> x * d < 0.0; }
    n := x.Floor + 1;
    assert (n as real - x) * d > 0.0;
    forall m: nat | m >= n ensures Times(d, m) >= Times(d, n) { assert (m - n) as real * d >= 0.0; }
  }

  /** Where a walker gets to a junction at all, there is a cheapest way. */
  lemma CheapestOnFoot(g: Graph, q: Query, s: State, to: nat, ms: seq<Move>, d: real) returns (best: seq<Move>)
    requires g.Valid() && OnFoot(q) && q.pen.Valid() && StepsTake(g, d)
    requires LegalWalk(g, q, s, ms) && End(s, ms).node == to
    ensures LegalWalk(g, q, s, best) && End(s, best).node == to
    ensures forall other :: LegalWalk(g, q, s, other) && End(s, other).node == to ==>
              Cost(g, q, Fresh, s, best) <= Cost(g, q, Fresh, s, other)
  {
    ClockIsAtMostCost(g, q, Fresh, s, ms);
    var n := Enough(Cost(g, q, Fresh, s, ms), d);
    LongIsDear(g, q, s, ms, d);
    var found := CheapestWithin(g, q, s, to, n);
    assert Comes(g, q, s, to, n, ms);
    best := found.value;
    forall other | LegalWalk(g, q, s, other) && End(s, other).node == to
      ensures Cost(g, q, Fresh, s, best) <= Cost(g, q, Fresh, s, other)
    {
      if |other| <= n {
        assert Comes(g, q, s, to, n, other);
      } else {
        LongIsDear(g, q, s, other, d);
      }
    }
  }

  /** A walk written down move by move. */
  lemma {:induction false} WrittenDown(g: Graph, a: Arrival, s: State, ms: seq<Move>) returns (edges: seq<UsedEdge>)
    ensures MovesOf(edges) == ms && Recorded(g, a, s, edges)
    decreases |ms|
  {
    if |ms| == 0 { return []; }
    var rest := WrittenDown(g, ArrivalOf(ms[0]), Target(s, ms[0]), ms[1..]);
    edges := [UsedEdge(Target(s, ms[0]), ms[0], StepClock(g, a, s, ms[0]))] + rest;
    assert edges[1..] == rest && ms == [ms[0]] + ms[1..];
  }

  /** A walker's question always has a best walk, if it has a walk. */
  lemma BestOnFoot(t: Task, ms: seq<Move>, d: real) returns (edges: seq<UsedEdge>)
    requires t.g.Valid() && OnFoot(t.q) && t.q.pen.Valid() && StepsTake(t.g, d)
    requires LegalWalk(t.g, t.q, t.start, ms) && End(t.start, ms).node == t.to
    ensures BestWalk(t, edges)
    ensures Cost(t.g, t.q, Fresh, t.start, MovesOf(edges)) <= Cost(t.g, t.q, Fresh, t.start, ms)
  {
    var best := CheapestOnFoot(t.g, t.q, t.start, t.to, ms, d);
    edges := WrittenDown(t.g, Fresh, t.start, best);
    forall other | LegalWalk(t.g, t.q, t.start, other) && End(t.start, other).node == t.to
      ensures Cost(t.g, t.q, Fresh, t.start, best)
           <= Cost(t.g, t.q, Fresh, t.start, other) + Slack(t.g, t.q, t.start, other)
    {
      SlackNonNegative(t.g, t.q, t.start, other);
    }
  }

  // ------------------------------------------------------------------ everything but the rides made dear

  predicate IsRide(g: Graph, mv: Move) { mv.Board? && mv.e.st < |g.stretches| && g.stretches[mv.e.st].cls.LiftLine? }

  predicate RidesOnly(g: Graph, ms: seq<Move>) { forall k :: 0 <= k < |ms| ==> IsRide(g, ms[k]) }

  /** A factor of m on every stretch that is not a lift. */
  ghost function Dear(g: Graph, m: real): Penalties {
    Penalties(map st: nat | st < |g.stretches| && !g.stretches[st].cls.LiftLine? :: m, {}, [], 0.0)
  }

  lemma DearFactor(g: Graph, m: real, st: nat)
    requires st < |g.stretches|
    ensures Dear(g, m).Factor(st) == if g.stretches[st].cls.LiftLine? then 1.0 else m
  {
  }

  /** Rides cost what they take. */
  lemma {:induction false} RidesAreNotDear(g: Graph, q: Query, m: real, s: State, ms: seq<Move>)
    requires g.Valid() && q.pen == Dear(g, m) && RidesOnly(g, ms)
    ensures Cost(g, q, Fresh, s, ms) == Clock(g, Fresh, s, ms)
    decreases |ms|
  {
    RidesAreNotDearFrom(g, q, m, Fresh, s, ms);
  }

  lemma {:induction false} RidesAreNotDearFrom(g: Graph, q: Query, m: real, a: Arrival, s: State, ms: seq<Move>)
    requires g.Valid() && q.pen == Dear(g, m) && RidesOnly(g, ms)
    ensures Cost(g, q, a, s, ms) == Clock(g, a, s, ms)
    decreases |ms|
  {
    if |ms| > 0 {
      DearFactor(g, m, ms[0].e.st);
      hide Dear;
      RidesAreNotDearFrom(g, q, m, ArrivalOf(ms[0]), Target(s, ms[0]), ms[1..]);
    }
  }

  /** A walk with one move that is not a ride costs more than m times the least step. */
  lemma {:induction false} WalkingIsDear(g: Graph, q: Query, m: real, s: State, ms: seq<Move>, d: real)
    requires g.Valid() && OnFoot(q) && StepsTake(g, d) && m >= 1.0 && q.pen == Dear(g, m) && q.pen.Valid()
    requires LegalWalk(g, q, s, ms) && !RidesOnly(g, ms) && FootIsNoLift(g)
    ensures Cost(g, q, Fresh, s, ms) >= Charged(d, m)
    decreases |ms|
  {
    FootMoveTakes(g, q, s, ms[0], d);
    FootMovesAreAll(g, q, s, ms[0]);
    FootCostForgets(g, q, ArrivalOf(ms[0]), Target(s, ms[0]), ms[1..]);
    ClockIsAtMostCost(g, q, Fresh, Target(s, ms[0]), ms[1..]);
    if IsRide(g, ms[0]) {
      assert !RidesOnly(g, ms[1..]) by {
        var k :| 0 <= k < |ms| && !IsRide(g, ms[k]);
        assert ms[1..][k - 1] == ms[k];
      }
      WalkingIsDear(g, q, m, Target(s, ms[0]), ms[1..], d);
    } else {
      StepIsDear(g, q, m, s, ms[0], d);
    }
  }

  /** What is walked is no lift. */
  ghost predicate FootIsNoLift(g: Graph) {
    forall v, k :: 0 <= v < |g.hike| && 0 <= k < |g.hike[v]| && g.hike[v][k].st < |g.stretches| ==>
      !g.stretches[g.hike[v][k].st].cls.LiftLine?
  }

  lemma StepIsDear(g: Graph, q: Query, m: real, s: State, mv: Move, d: real)
    requires g.Valid() && OnFoot(q) && StepsTake(g, d) && m >= 1.0 && q.pen == Dear(g, m) && q.pen.Valid()
    requires Legal(g, q, s, mv) && !IsRide(g, mv) && FootIsNoLift(g)
    ensures StepCost(g, q, Fresh, s, mv) >= Charged(d, m)
  {
    FootMoveTakes(g, q, s, mv, d);
    LegalStaysInside(g, q, s, mv);
    assert !g.stretches[mv.e.st].cls.LiftLine? by {
      if mv.Along? { var k :| 0 <= k < |g.hike[s.node]| && g.hike[s.node][k] == mv.e; }
    }
    DearFactor(g, m, mv.e.st);
    assert (mv.e.w - d) * m >= 0.0;
  }

  // ------------------------------------------------------------------ the condition

  /** Every link of the lift layer takes time: no station stands on the very spot of another junction. */
  ghost predicate LinksTakeTime(g: Graph) {
    forall v, k :: 0 <= v < |g.lift| && 0 <= k < |g.lift[v]| ==> g.lift[v][k].w > 0.0
  }

  /** ms rides all the way from one end of pair i to the other. */
  ghost predicate RidesAllTheWay(w: World, tp: TripPlan, i: nat, ms: seq<Move>)
    requires Asked(w, tp) && i + 1 < |tp.nodes|
  {
    BuiltIsValid(w.g, w.base, w.near, w.hyp);
    var t := PairTask(w, tp, i, [Hike], NoPenalty);
    LegalWalk(t.g, t.q, t.start, ms) && End(t.start, ms).node == t.to && RidesOnly(w.g, ms)
  }

  /** The seconds of the trip when the walked pairs among the first n are ridden instead. */
  ghost function Replaced(w: World, tp: TripPlan, a: Answer, rides: seq<seq<Move>>, n: nat): real
    requires n <= |a.parts| && n <= |rides| && n < |tp.nodes| == |tp.force|
  {
    if n == 0 then 0.0
    else
      Replaced(w, tp, a, rides, n - 1)
      + (if SearchedIn(tp, n - 1, Hike) then Clock(w.g, Fresh, State(tp.nodes[n - 1], Hike), rides[n - 1])
         else Seconds(a.parts[n - 1]))
  }

  /** Riding instead of walking, everywhere, costs less than the parking it saves. */
  ghost predicate RidesPay(w: World, tp: TripPlan, a: Answer, rides: seq<seq<Move>>)
    requires Asked(w, tp) && |a.parts| == |tp.nodes| - 1
  {
    && |rides| == |a.parts|
    && (forall i :: 0 <= i < |rides| && SearchedIn(tp, i, Hike) ==> RidesAllTheWay(w, tp, i, rides[i]))
    && Replaced(w, tp, a, rides, |rides|) < MoveSeconds(a) + SWITCH_COST
  }

  /** The first answer was charged for the stop, and riding everywhere instead would pay. */
  ghost predicate CanRideInstead(w: World, tp: TripPlan, a: Answer)
    requires Asked(w, tp) && |a.parts| == |tp.nodes| - 1
  {
    StopCharge(tp, a.legs) > 0.0 && exists rides :: RidesPay(w, tp, a, rides)
  }

  // ------------------------------------------------------------------ it is needed

  lemma {:induction false} ReplacedIsAtMost(w: World, tp: TripPlan, a: Answer, b: Answer, rides: seq<seq<Move>>, n: nat)
    requires n <= |a.parts| == |b.parts| == |rides| && n < |tp.nodes| == |tp.force|
    requires forall i :: 0 <= i < n ==> Seconds(a.parts[i]) <= Seconds(b.parts[i])
    requires forall i :: 0 <= i < n && SearchedIn(tp, i, Hike) ==>
               Clock(w.g, Fresh, State(tp.nodes[i], Hike), rides[i]) == Seconds(b.parts[i])
    ensures Replaced(w, tp, a, rides, n) <= Seconds(Flat(b.parts[..n]))
  {
    if n > 0 {
      ReplacedIsAtMost(w, tp, a, b, rides, n - 1);
      assert b.parts[..n][..n - 1] == b.parts[..n - 1];
      SecondsOfBoth(Flat(b.parts[..n - 1]), b.parts[n - 1]);
    }
  }

  /** A pair that shows no walking was ridden all the way. */
  lemma NotWalkedIsRidden(w: World, tp: TripPlan, pen: Penalties, i: nat, part: seq<UsedEdge>)
    requires Asked(w, tp) && OneModeEach(tp) && SearchedIn(tp, i, Hike) && PairOk(w, tp, pen, i, [Hike], part)
    requires !Moved(w.g, part, Hike)
    ensures RidesAllTheWay(w, tp, i, MovesOf(part))
    ensures Clock(w.g, Fresh, State(tp.nodes[i], Hike), MovesOf(part)) == Seconds(part)
  {
    BuiltIsValid(w.g, w.base, w.near, w.hyp);
    var t := PairTask(w, tp, i, [Hike], pen);
    PartMoves(w, tp, pen, i, part, Hike);
    LegalWhateverThePenalty(t.g, t.q, NoPenalty, t.start, MovesOf(part));
    RecordedIsClock(t.g, Fresh, t.start, part);
  }

  /** A stop that charges the first answer and not the later one finds nothing walked in the later one. */
  lemma ChargeDropped(w: World, tp: TripPlan, pen: Penalties, later: Penalties, a: Answer, b: Answer)
    requires Asked(w, tp) && (tp.parkSeg >= 1 ==> OneModeEach(tp))
    requires AnswerOk(w, tp, pen, a) && AnswerOk(w, tp, later, b) && StopCharge(tp, b.legs) < StopCharge(tp, a.legs)
    ensures tp.segPlans != [] && OneModeEach(tp) && StopCharge(tp, a.legs) == SWITCH_COST
    ensures forall i :: 0 <= i < |b.parts| ==> !Moved(w.g, b.parts[i], Hike)
  {
    hide AnswerOk, World.Valid, Moved;
    ModesAreFixed(w, tp, pen, a, tp.plan[0]);
    ModesAreFixed(w, tp, later, b, tp.plan[0]);
    LegsSayWhichPairs(w, tp, later, b, Hike);
  }

  lemma PairCompared(w: World, tp: TripPlan, pen: Penalties, later: Penalties, a: Answer, b: Answer, i: nat)
    requires Asked(w, tp) && RampFree(w.g) && PlansKnown(tp) && pen.Neutral() && OneModeEach(tp)
    requires AnswerOk(w, tp, pen, a) && AnswerOk(w, tp, later, b) && i < |b.parts| && !Moved(w.g, b.parts[i], Hike)
    ensures Seconds(a.parts[i]) <= Seconds(b.parts[i])
    ensures SearchedIn(tp, i, Hike) ==>
              RidesAllTheWay(w, tp, i, MovesOf(b.parts[i]))
              && Clock(w.g, Fresh, State(tp.nodes[i], Hike), MovesOf(b.parts[i])) == Seconds(b.parts[i])
  {
    KnownPairs(w, tp, pen, a.parts, i);
    KnownPairs(w, tp, later, b.parts, i);
    hide PairOk, RampFree, World.Valid, Moved, Seconds, Clock, RidesAllTheWay;
    FirstPairIsFastest(w, tp, i, KnownPlan(tp, i), pen, later, a.parts[i], b.parts[i]);
    if SearchedIn(tp, i, Hike) { NotWalkedIsRidden(w, tp, later, i, b.parts[i]); }
  }

  lemma BetterRidesPay(w: World, tp: TripPlan, pen: Penalties, later: Penalties, a: Answer, b: Answer)
    requires Asked(w, tp) && RampFree(w.g) && PlansKnown(tp) && pen.Neutral() && OneModeEach(tp)
    requires AnswerOk(w, tp, pen, a) && AnswerOk(w, tp, later, b)
    requires forall i :: 0 <= i < |b.parts| ==> !Moved(w.g, b.parts[i], Hike)
    requires MoveSeconds(b) < MoveSeconds(a) + SWITCH_COST
    ensures exists rides :: RidesPay(w, tp, a, rides)
  {
    hide Gathered, RampFree, World.Valid, Seconds, Clock, RidesAllTheWay, StopCharge, LegOk, Moved, PlansKnown,
        OneModeEach;
    var rides := seq(|b.parts|, i requires 0 <= i < |b.parts| => MovesOf(b.parts[i]));
    forall i | 0 <= i < |b.parts|
      ensures Seconds(a.parts[i]) <= Seconds(b.parts[i])
      ensures SearchedIn(tp, i, Hike) ==> RidesAllTheWay(w, tp, i, rides[i])
      ensures SearchedIn(tp, i, Hike) ==> Clock(w.g, Fresh, State(tp.nodes[i], Hike), rides[i]) == Seconds(b.parts[i])
    {
      PairCompared(w, tp, pen, later, a, b, i);
    }
    ReplacedIsAtMost(w, tp, a, b, rides, |rides|);
    assert b.parts[..|rides|] == b.parts;
    assert RidesPay(w, tp, a, rides);
  }

  /** Only where riding instead pays can any penalties, a later round's among them, make an answer report less. */
  lemma RidingIsNeeded(w: World, tp: TripPlan, pen: Penalties, later: Penalties, a: Answer, b: Answer)
    requires Asked(w, tp) && RampFree(w.g) && PlansKnown(tp) && pen.Neutral() && (tp.parkSeg >= 1 ==> OneModeEach(tp))
    requires AnswerOk(w, tp, pen, a) && AnswerOk(w, tp, later, b) && b.seconds < a.seconds
    ensures CanRideInstead(w, tp, a)
  {
    NoLaterRoundMovesFaster(w, tp, pen, later, a, b);
    assert a.seconds == MoveSeconds(a) + StopCharge(tp, a.legs) && b.seconds == MoveSeconds(b) + StopCharge(tp, b.legs);
    assert |a.parts| == |tp.nodes| - 1;
    hide AnswerOk, Asked, RampFree, MoveSeconds;
    ChargeDropped(w, tp, pen, later, a, b);
    BetterRidesPay(w, tp, pen, later, a, b);
  }

  // ------------------------------------------------------------------ it is enough

  /** A walker of a valid world takes time for every move, and walks no lift. */
  lemma FootTakesTime(w: World) returns (d: real)
    requires w.Valid() && LinksTakeTime(w.g)
    ensures w.g.Valid() && StepsTake(w.g, d) && FootIsNoLift(w.g)
  {
    BuiltIsValid(w.g, w.base, w.near, w.hyp);
    forall v, k | 0 <= v < |w.g.hike| && 0 <= k < |w.g.hike[v]|
      ensures w.g.hike[v][k].w > 0.0
      ensures w.g.hike[v][k].st < |w.g.stretches| ==> !w.g.stretches[w.g.hike[v][k].st].cls.LiftLine?
    {
      var e := w.g.hike[v][k];
      assert e in w.g.Adj(Hike)[v];
      AlongEnds(w.g, w.base, w.near, Hike, v, e);
      ArcIsOfItsStretch(Hike, w.g.stretches[..w.base], Arc(v, e));
      hide Built, Weight;
      WeightIsHonest(Hike, w.g.stretches[e.st], e.rev, w.g.stretches[e.st].marked);
      Quotient(w.g.stretches[e.st].len, TopSpeed(Hike));
    }
    var a := LeastInLayer(w.g.hike);
    var b := LeastInLayer(w.g.lift);
    d := Min(a, b);
  }

  lemma Quotient(x: real, y: real)
    requires x > 0.0 && y > 0.0
    ensures x / y > 0.0
  {
    var z := x / y;
    assert z * y == x;
    assert z <= 0.0 ==> z * y <= 0.0;
  }

  lemma WheelsMoveAlone(w: World, q: Query, s: State, mv: Move)
    requires w.Valid() && w.g.Valid() && Legal(w.g, q, s, mv) && |q.plan| == 1 && !q.plan[0].Hike?
             && s.mode == q.plan[0]
    ensures mv.Along? && mv.e.st < |w.g.stretches| && !w.g.stretches[mv.e.st].cls.LiftLine?
            && Target(s, mv).mode == s.mode
  {
    var e := UsedEdge(Target(s, mv), mv, 0.0);
    OneModeMove(w, q, s, e);
    assert mv.Along?;
    ArcIsOfItsStretch(s.mode, w.g.stretches[..w.base], Arc(s.node, mv.e));
  }

  lemma WheelStep(w: World, q: Query, m: real, a: Arrival, s: State, mv: Move)
    requires w.Valid() && w.g.Valid() && Legal(w.g, q, s, mv) && |q.plan| == 1 && !q.plan[0].Hike?
             && s.mode == q.plan[0]
    requires q.pen == Dear(w.g, m)
    ensures StepCost(w.g, q, a, s, mv) == Charged(StepClock(w.g, a, s, mv), m)
  {
    WheelsMoveAlone(w, q, s, mv);
    DearFactor(w.g, m, mv.e.st);
  }

  /** Whoever cannot ride pays m times what it takes, whichever way. */
  lemma {:induction false} WheelsPayAlike(w: World, q: Query, m: real, a: Arrival, s: State, ms: seq<Move>)
    requires w.Valid() && w.g.Valid() && LegalWalk(w.g, q, s, ms) && |q.plan| == 1 && !q.plan[0].Hike?
             && s.mode == q.plan[0]
    requires q.pen == Dear(w.g, m) && m >= 1.0
    ensures Cost(w.g, q, a, s, ms) == Charged(Clock(w.g, a, s, ms), m)
    decreases |ms|
  {
    hide World.Valid, Legal, Dear, StepClock, StepCost;
    if |ms| > 0 {
      WheelStep(w, q, m, a, s, ms[0]);
      WheelsMoveAlone(w, q, s, ms[0]);
      WheelsPayAlike(w, q, m, ArrivalOf(ms[0]), Target(s, ms[0]), ms[1..]);
      ChargedMore(StepClock(w.g, a, s, ms[0]), Clock(w.g, ArrivalOf(ms[0]), Target(s, ms[0]), ms[1..]), m);
    }
  }

  lemma ChargedOrder(a: real, b: real, m: real)
    requires a <= b && m >= 1.0
    ensures Charged(a, m) <= Charged(b, m)
  {
    assert (b - a) * m >= 0.0;
  }

  /** So what was best for wheels stays best. */
  lemma WheelsStayBest(w: World, tp: TripPlan, pen: Penalties, m: real, i: nat, plan: seq<Mode>, part: seq<UsedEdge>)
    requires Asked(w, tp) && RampFree(w.g) && pen.Neutral() && i + 1 < |tp.nodes| && m >= 1.0
    requires |plan| == 1 && !plan[0].Hike? && Searched(tp, i) && PairOk(w, tp, pen, i, plan, part)
    ensures PairOk(w, tp, Dear(w.g, m), i, plan, part)
  {
    BuiltIsValid(w.g, w.base, w.near, w.hyp);
    var s, t := PairTask(w, tp, i, plan, pen), PairTask(w, tp, i, plan, Dear(w.g, m));
    LegalWhateverThePenalty(s.g, s.q, t.q.pen, s.start, MovesOf(part));
    assert LegalWalk(t.g, t.q, t.start, MovesOf(part));
    forall other | LegalWalk(t.g, t.q, t.start, other) && End(t.start, other).node == t.to
      ensures Cost(t.g, t.q, Fresh, t.start, MovesOf(part))
           <= Cost(t.g, t.q, Fresh, t.start, other) + Slack(t.g, t.q, t.start, other)
    {
      hide World.Valid, Dear, Cost, Clock;
      assert Dear(w.g, m).Valid() by { DearIsValid(w.g, m); }
      SlackNonNegative(t.g, t.q, t.start, other);
      WheelsPayAlike(w, t.q, m, Fresh, t.start, other);
      WheelsPayAlike(w, t.q, m, Fresh, t.start, MovesOf(part));
      LegalWhateverThePenalty(t.g, t.q, pen, t.start, other);
      RampFreeIsOptimal(s, part, other);
      NeutralCostIsClock(s.g, s.q, Fresh, s.start, other);
      NeutralCostIsClock(s.g, s.q, Fresh, s.start, MovesOf(part));
      ChargedOrder(Clock(t.g, Fresh, t.start, MovesOf(part)), Clock(t.g, Fresh, t.start, other), m);
    }
  }

  lemma DearIsValid(g: Graph, m: real)
    requires m >= 1.0
    ensures Dear(g, m).Valid()
  {
  }

  /** And a walker for whom all but the rides is dear enough rides all the way, in no more time than ms. */
  lemma RatherRide(w: World, tp: TripPlan, m: real, d: real, i: nat, ms: seq<Move>) returns (part: seq<UsedEdge>)
    requires Asked(w, tp) && w.g.Valid() && StepsTake(w.g, d) && FootIsNoLift(w.g) && m >= 1.0
             && SearchedIn(tp, i, Hike)
    requires RidesAllTheWay(w, tp, i, ms) && Clock(w.g, Fresh, State(tp.nodes[i], Hike), ms) < Charged(d, m)
    ensures PairOk(w, tp, Dear(w.g, m), i, [Hike], part) && !Moved(w.g, part, Hike)
    ensures Seconds(part) <= Clock(w.g, Fresh, State(tp.nodes[i], Hike), ms)
  {
    BuiltIsValid(w.g, w.base, w.near, w.hyp);
    DearIsValid(w.g, m);
    var s, t := PairTask(w, tp, i, [Hike], NoPenalty), PairTask(w, tp, i, [Hike], Dear(w.g, m));
    LegalWhateverThePenalty(s.g, s.q, t.q.pen, s.start, ms);
    hide World.Valid, Dear, Cost, Clock, Bound;
    part := BestOnFoot(t, ms, d);
    RidesAreNotDear(w.g, t.q, m, t.start, ms);
    if !RidesOnly(w.g, MovesOf(part)) { WalkingIsDear(w.g, t.q, m, t.start, MovesOf(part), d); }
    RidesAreNotDear(w.g, t.q, m, t.start, MovesOf(part));
    RecordedIsClock(t.g, Fresh, t.start, part);
    RidesDoNotShow(w.g, part);
  }

  lemma RidesDoNotShow(g: Graph, part: seq<UsedEdge>)
    requires RidesOnly(g, MovesOf(part))
    ensures forall m :: !Moved(g, part, m)
  {
    forall k | 0 <= k < |part| ensures IsRide(g, part[k].mv) { assert MovesOf(part)[k] == part[k].mv; }
  }

  lemma PartTakesTime(w: World, tp: TripPlan, pen: Penalties, i: nat, plan: seq<Mode>, part: seq<UsedEdge>)
    requires Asked(w, tp) && pen.Neutral() && i + 1 < |tp.nodes| && PairOk(w, tp, pen, i, plan, part)
    ensures Seconds(part) >= 0.0
  {
    BuiltIsValid(w.g, w.base, w.near, w.hyp);
    if Searched(tp, i) {
      var t := PairTask(w, tp, i, plan, pen);
      ClockIsAtMostCost(t.g, t.q, Fresh, t.start, MovesOf(part));
      RecordedIsClock(t.g, Fresh, t.start, part);
    } else if tp.nodes[i] != tp.nodes[i + 1] {
      var f := tp.force[i].value;
      assert IsForcedRide(w, tp, i);
      RideIsHonest(w.g.stretches[f.st]);
      Quotient(w.g.stretches[f.st].len, LIFT_FASTEST);
      assert part == [part[0]] && Seconds(part) == part[0].w + Seconds([]);
    }
  }

  /** One pair of the round in which riding is rather done. */
  lemma OnePairRidden(w: World, tp: TripPlan, pen: Penalties, m: real, d: real, i: nat, a: seq<UsedEdge>,
      ride: seq<Move>)
      returns (b: seq<UsedEdge>)
    requires Asked(w, tp) && RampFree(w.g) && pen.Neutral() && OneModeEach(tp) && i < |tp.segPlans|
             && i + 1 < |tp.nodes|
    requires w.g.Valid() && StepsTake(w.g, d) && FootIsNoLift(w.g) && m >= 1.0
    requires PairOk(w, tp, pen, i, tp.segPlans[i], a)
    requires SearchedIn(tp, i, Hike) ==>
               RidesAllTheWay(w, tp, i, ride) && Clock(w.g, Fresh, State(tp.nodes[i], Hike), ride) < Charged(d, m)
    ensures PairOk(w, tp, Dear(w.g, m), i, tp.segPlans[i], b) && !Moved(w.g, b, Hike)
    ensures Seconds(b) <= if SearchedIn(tp, i, Hike) then Clock(w.g, Fresh, State(tp.nodes[i], Hike), ride)
        else Seconds(a)
  {
    if SearchedIn(tp, i, Hike) {
      b := RatherRide(w, tp, m, d, i, ride);
    } else {
      b := a;
      PartMoves(w, tp, pen, i, a, Hike);
      if Searched(tp, i) {
        assert tp.segPlans[i] == [tp.segPlans[i][0]];
        WheelsStayBest(w, tp, pen, m, i, tp.segPlans[i], a);
      }
    }
  }

  /** No one ride takes longer than the replaced trip. */
  lemma {:induction false} RidesFit(w: World, tp: TripPlan, a: Answer, rides: seq<seq<Move>>, n: nat, i: nat)
    requires i < n <= |a.parts| && n <= |rides| && n < |tp.nodes| == |tp.force|
    requires forall k :: 0 <= k < n ==> Seconds(a.parts[k]) >= 0.0
    requires forall k :: 0 <= k < n && SearchedIn(tp, k, Hike) ==>
        Clock(w.g, Fresh, State(tp.nodes[k], Hike), rides[k]) >= 0.0
    ensures Replaced(w, tp, a, rides, n) >= 0.0
    ensures SearchedIn(tp, i, Hike) ==>
              Clock(w.g, Fresh, State(tp.nodes[i], Hike), rides[i]) <= Replaced(w, tp, a, rides, n)
  {
    if n > 1 { RidesFit(w, tp, a, rides, n - 1, if i < n - 1 then i else 0); }
  }

  /** What riding everywhere makes of the first n pairs. */
  ghost predicate Ridden(w: World, tp: TripPlan, m: real, a: Answer, rides: seq<seq<Move>>, parts: seq<seq<UsedEdge>>)
    requires Asked(w, tp) && |tp.segPlans| == |a.parts| == |rides| == |tp.nodes| - 1
  {
    && |parts| <= |a.parts|
    && (forall i :: 0 <= i < |parts| ==>
          PairOk(w, tp, Dear(w.g, m), i, tp.segPlans[i], parts[i]) && !Moved(w.g, parts[i], Hike))
    && Seconds(Flat(parts)) <= Replaced(w, tp, a, rides, |parts|)
  }

  lemma OneMoreRidden(w: World, tp: TripPlan, m: real, a: Answer, rides: seq<seq<Move>>, parts: seq<seq<UsedEdge>>,
      part: seq<UsedEdge>)
    requires Asked(w, tp) && |tp.segPlans| == |a.parts| == |rides| == |tp.nodes| - 1
    requires Ridden(w, tp, m, a, rides, parts) && |parts| < |rides|
    requires var i := |parts|;
      && PairOk(w, tp, Dear(w.g, m), i, tp.segPlans[i], part) && !Moved(w.g, part, Hike)
      && Seconds(part) <= if SearchedIn(tp, i, Hike) then Clock(w.g, Fresh, State(tp.nodes[i], Hike), rides[i])
          else Seconds(a.parts[i])
    ensures Ridden(w, tp, m, a, rides, parts + [part])
  {
    hide Asked, PairOk, Moved, Dear, Seconds, Clock, SearchedIn, Flat;
    FlatOneMore(parts, part);
    SecondsOfBoth(Flat(parts), part);
  }

  lemma {:induction false} AllPairsRidden(w: World, tp: TripPlan, pen: Penalties, m: real, d: real, a: Answer,
                                          rides: seq<seq<Move>>, n: nat) returns (parts: seq<seq<UsedEdge>>)
    requires Asked(w, tp) && RampFree(w.g) && pen.Neutral() && OneModeEach(tp)
    requires |tp.segPlans| == |a.parts| == |rides| == |tp.nodes| - 1 && n <= |rides|
    requires w.g.Valid() && StepsTake(w.g, d) && FootIsNoLift(w.g) && m >= 1.0
    requires forall i :: 0 <= i < n ==> PairOk(w, tp, pen, i, tp.segPlans[i], a.parts[i])
    requires forall i :: 0 <= i < n && SearchedIn(tp, i, Hike) ==>
               RidesAllTheWay(w, tp, i, rides[i])
               && Clock(w.g, Fresh, State(tp.nodes[i], Hike), rides[i]) < Charged(d, m)
    ensures |parts| == n && Ridden(w, tp, m, a, rides, parts)
  {
    hide Asked, RampFree, PairOk, Moved, OneModeEach, RidesAllTheWay, StepsTake, FootIsNoLift, Dear, Charged, Clock,
        SearchedIn;
    if n == 0 {
      parts := [];
    } else {
      parts := AllPairsRidden(w, tp, pen, m, d, a, rides, n - 1);
      hide Ridden;
      var last := OnePairRidden(w, tp, pen, m, d, n - 1, a.parts[n - 1], rides[n - 1]);
      OneMoreRidden(w, tp, m, a, rides, parts, last);
      parts := parts + [last];
    }
  }

  /** Legs for whatever was travelled. */
  lemma {:induction false} LegEach(g: Graph, edges: seq<UsedEdge>) returns (legs: seq<Leg>)
    requires OnMap(g, edges)
    ensures LegEdges(legs) == Travelled(edges) && forall k :: 0 <= k < |legs| ==> LegOk(g, legs[k])
    ensures Travelled(edges) != [] ==> legs != []
  {
    if |edges| == 0 { return []; }
    var front, last := edges[..|edges| - 1], edges[|edges| - 1];
    legs := LegEach(g, front);
    if !last.mv.Park? {
      OpenedIsOk(g, last);
      var more := legs + [Opened(g, last)];
      assert more[..|more| - 1] == legs;
      legs := more;
    } else {
      assert Travelled(front) + [] == Travelled(front);
    }
  }

  /** The trip of those parts is an answer of that round. */
  lemma RiddenAnswer(w: World, tp: TripPlan, m: real, a: Answer, rides: seq<seq<Move>>, parts: seq<seq<UsedEdge>>)
      returns (b: Answer)
    requires Asked(w, tp) && |tp.segPlans| == |a.parts| == |rides| == |tp.nodes| - 1
    requires Ridden(w, tp, m, a, rides, parts) && |parts| == |a.parts|
    requires exists i :: 0 <= i < |tp.nodes| - 1 && tp.nodes[i] != tp.nodes[i + 1]
    ensures AnswerOk(w, tp, Dear(w.g, m), b) && b.parts == parts && !HasMode(b.legs, Hike)
  {
    hide PairOk, Moved, Dear, World.Valid;
    forall i | 0 <= i < |parts| ensures OnMap(w.g, parts[i]) {
      PartTravels(w, tp, Dear(w.g, m), i, tp.segPlans[i], parts[i]);
    }
    FlatOnMap(w.g, parts);
    var i :| 0 <= i < |tp.nodes| - 1 && tp.nodes[i] != tp.nodes[i + 1];
    PartTravels(w, tp, Dear(w.g, m), i, tp.segPlans[i], parts[i]);
    FlatTravels(parts, i);
    var legs := LegEach(w.g, Flat(parts));
    b := Answer(parts, legs, Seconds(Flat(parts)) + StopCharge(tp, legs));
    assert Gathered(w, tp, Dear(w.g, m), parts);
    LegsSayWhichPairs(w, tp, Dear(w.g, m), b, Hike);
  }

  lemma {:induction false} FlatOnMap(g: Graph, parts: seq<seq<UsedEdge>>)
    requires forall i :: 0 <= i < |parts| ==> OnMap(g, parts[i])
    ensures OnMap(g, Flat(parts))
  {
    if |parts| > 0 {
      FlatOnMap(g, parts[..|parts| - 1]);
      OnMapBoth(g, Flat(parts[..|parts| - 1]), parts[|parts| - 1]);
    }
  }

  lemma HeavyEnough(limit: real, d: real) returns (m: real)
    requires limit >= 0.0 && d > 0.0
    ensures m >= 1.0 && Charged(d, m) >= limit
  {
    var x := limit / d;
    assert x * d == limit;
    assert x >= 0.0 by { assert x < 0.0 ==> x * d < 0.0; }
    m := x + 1.0;
    assert d * m == x * d + d;
  }

  /** Where riding instead pays, some valid penalties make an answer report less: those that make all but the
      rides dear. */
  lemma RidingIsEnough(w: World, tp: TripPlan, pen: Penalties, a: Answer) returns (later: Penalties, b: Answer)
    requires Asked(w, tp) && RampFree(w.g) && PlansKnown(tp) && pen.Neutral() && (tp.parkSeg >= 1 ==> OneModeEach(tp))
    requires AnswerOk(w, tp, pen, a) && LinksTakeTime(w.g) && CanRideInstead(w, tp, a)
    ensures later.Valid() && AnswerOk(w, tp, later, b) && b.seconds < a.seconds
  {
    hide World.Valid, RampFree, FootIsNoLift, LinksTakeTime, PairOk, LegOk, Dear;
    var rides :| RidesPay(w, tp, a, rides);
    var total := Replaced(w, tp, a, rides, |rides|);
    var d := FootTakesTime(w);
    hide StepsTake;
    PairsFit(w, tp, pen, a, rides);
    var m := HeavyEnough(total + 1.0, d);
    var parts := AllPairsRidden(w, tp, pen, m, d, a, rides, |rides|);
    SomewhereTo(w, tp, pen, a);
    b := RiddenAnswer(w, tp, m, a, rides, parts);
    later := Dear(w.g, m);
    DearIsValid(w.g, m);
  }

  lemma PairsFit(w: World, tp: TripPlan, pen: Penalties, a: Answer, rides: seq<seq<Move>>)
    requires Asked(w, tp) && PlansKnown(tp) && pen.Neutral() && tp.segPlans != []
    requires AnswerOk(w, tp, pen, a) && RidesPay(w, tp, a, rides)
    ensures forall i :: 0 <= i < |rides| ==> PairOk(w, tp, pen, i, tp.segPlans[i], a.parts[i])
    ensures Replaced(w, tp, a, rides, |rides|) >= 0.0
    ensures forall i :: 0 <= i < |rides| && SearchedIn(tp, i, Hike) ==>
              Clock(w.g, Fresh, State(tp.nodes[i], Hike), rides[i]) <= Replaced(w, tp, a, rides, |rides|)
  {
    forall i | 0 <= i < |rides|
      ensures PairOk(w, tp, pen, i, tp.segPlans[i], a.parts[i]) && Seconds(a.parts[i]) >= 0.0
      ensures SearchedIn(tp, i, Hike) ==> Clock(w.g, Fresh, State(tp.nodes[i], Hike), rides[i]) >= 0.0
    {
      KnownPairs(w, tp, pen, a.parts, i);
      PartTakesTime(w, tp, pen, i, tp.segPlans[i], a.parts[i]);
      if SearchedIn(tp, i, Hike) { RideTakesTime(w, tp, i, rides[i]); }
    }
    hide PairOk, Clock, Seconds, SearchedIn;
    forall i | 0 <= i < |rides|
      ensures Replaced(w, tp, a, rides, |rides|) >= 0.0
      ensures SearchedIn(tp, i, Hike) ==>
                Clock(w.g, Fresh, State(tp.nodes[i], Hike), rides[i]) <= Replaced(w, tp, a, rides, |rides|)
    {
      RidesFit(w, tp, a, rides, |rides|, i);
    }
    RidesFit(w, tp, a, rides, |rides|, 0);
  }

  lemma RideTakesTime(w: World, tp: TripPlan, i: nat, ms: seq<Move>)
    requires Asked(w, tp) && i + 1 < |tp.nodes| && RidesAllTheWay(w, tp, i, ms)
    ensures Clock(w.g, Fresh, State(tp.nodes[i], Hike), ms) >= 0.0
  {
    BuiltIsValid(w.g, w.base, w.near, w.hyp);
    var t := PairTask(w, tp, i, [Hike], NoPenalty);
    ClockIsAtMostCost(t.g, t.q, Fresh, t.start, ms);
  }

  lemma SomewhereTo(w: World, tp: TripPlan, pen: Penalties, a: Answer)
    requires Asked(w, tp) && AnswerOk(w, tp, pen, a)
    ensures exists i :: 0 <= i < |tp.nodes| - 1 && tp.nodes[i] != tp.nodes[i + 1]
  {
    assert LegOk(w.g, a.legs[|a.legs| - 1]);
    if forall i :: 0 <= i < |tp.nodes| - 1 ==> tp.nodes[i] == tp.nodes[i + 1] { NothingGathered(a.parts); }
  }

  lemma {:induction false} NothingGathered(parts: seq<seq<UsedEdge>>)
    requires forall i :: 0 <= i < |parts| ==> parts[i] == []
    ensures Flat(parts) == []
  {
    if |parts| > 0 { NothingGathered(parts[..|parts| - 1]); }
  }

  /** Some valid penalties make an answer report less than the first exactly where the first was charged for
      parking at the stop and riding everywhere it walks costs less than that. */
  lemma PenaltiesLowerTheClockIff(w: World, tp: TripPlan, pen: Penalties, a: Answer)
    requires Asked(w, tp) && RampFree(w.g) && PlansKnown(tp) && pen.Neutral() && (tp.parkSeg >= 1 ==> OneModeEach(tp))
    requires AnswerOk(w, tp, pen, a) && LinksTakeTime(w.g)
    ensures (exists later: Penalties, b :: later.Valid() && AnswerOk(w, tp, later, b) && b.seconds < a.seconds)
            <==> CanRideInstead(w, tp, a)
  {
    hide CanRideInstead, RampFree, PlansKnown, LinksTakeTime, World.Valid;
    assert |a.parts| == |tp.nodes| - 1;
    hide AnswerOk;
    if later: Penalties, b :| later.Valid() && AnswerOk(w, tp, later, b) && b.seconds < a.seconds {
      RidingIsNeeded(w, tp, pen, later, a, b);
    }
    if CanRideInstead(w, tp, a) {
      var later, b := RidingIsEnough(w, tp, pen, a);
    }
  }
}
