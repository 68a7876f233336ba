/** What the answers of searchSeg mean: exact where no car edge is a motorway or trunk, within a
    ramp per doubtful junction where some are, monotone in the grade, and timed without penalties
    (internal/route/search.go:226-352, 404-461, 1102-1107). */
module Answers {
  import opened Roads
  import opened Moves
  import opened Search

  /** Nothing a car can drive is a motorway or a trunk road: no move ever owes a ramp. */
  ghost predicate RampFree(g: Graph) {
    forall v, k :: 0 <= v < |g.car| && 0 <= k < |g.car[v]| && g.car[v][k].st < |g.stretches| ==>
      !IsMotorway(g.stretches[g.car[v][k].st].cls)
  }

  lemma RampFreeEdge(g: Graph, q: Query, s: State, mv: Move)
    requires g.Valid() && RampFree(g) && Legal(g, q, s, mv) && s.mode.Car? && mv.Along?
    ensures mv.e.st < |g.stretches| && !IsMotorway(g.stretches[mv.e.st].cls)
  {
    LegalStaysInside(g, q, s, mv);
    var k :| 0 <= k < |g.car[s.node]| && g.car[s.node][k] == mv.e;
  }

  lemma RampFreeArrival(g: Graph, q: Query, s: State, a: Arrival)
    requires g.Valid() && RampFree(g) && s.mode.Car? && Arrives(g, q, s, a) && a.On?
    ensures a.st < |g.stretches| && !IsMotorway(g.stretches[a.st].cls)
  {
    var u, mv :| Legal(g, q, u, mv) && Target(u, mv) == s && ArrivalOf(mv) == a;
    RampFreeEdge(g, q, u, mv);
  }

  lemma {:induction false} RampFreeHasNoSlack(g: Graph, q: Query, s: State, ms: seq<Move>)
    requires g.Valid() && RampFree(g) && LegalWalk(g, q, s, ms)
    ensures Slack(g, q, s, ms) == 0.0
    decreases |ms|
  {
    if |ms| > 0 {
      LegalStaysInside(g, q, s, ms[0]);
      if s.mode.Car? && ms[0].Along? {
        RampFreeEdge(g, q, s, ms[0]);
        forall a | Arrives(g, q, s, a) ensures Ramp(g, s.mode, a, ms[0].e.st) == 0.0 {
          if a.On? { RampFreeArrival(g, q, s, a); }
        }
      }
      RampFreeHasNoSlack(g, q, Target(s, ms[0]), ms[1..]);
    }
  }

  /** Without motorways a best walk is a cheapest one. */
  lemma RampFreeIsOptimal(t: Task, edges: seq<UsedEdge>, other: seq<Move>)
    requires t.g.Valid() && RampFree(t.g) && BestWalk(t, edges)
    requires LegalWalk(t.g, t.q, t.start, other) && End(t.start, other).node == t.to
    ensures Cost(t.g, t.q, Fresh, t.start, MovesOf(edges)) <= Cost(t.g, t.q, Fresh, t.start, other)
  {
    RampFreeHasNoSlack(t.g, t.q, t.start, other);
  }

  // ------------------------------------------------------------------ the clock

  /** The recorded seconds add up to the clock of the walk, whatever the round was charging. */
  lemma {:induction false} RecordedIsClock(g: Graph, a: Arrival, s: State, edges: seq<UsedEdge>)
    requires Recorded(g, a, s, edges)
    ensures Seconds(edges) == Clock(g, a, s, MovesOf(edges))
    decreases |edges|
  {
    if |edges| > 0 {
      assert MovesOf(edges)[1..] == MovesOf(edges[1..]);
      RecordedIsClock(g, ArrivalOf(edges[0].mv), edges[0].to, edges[1..]);
    }
  }

  lemma {:induction false} ClockIsAtMostCost(g: Graph, q: Query, a: Arrival, s: State, ms: seq<Move>)
    requires g.Valid() && q.pen.Valid() && LegalWalk(g, q, s, ms)
    ensures 0.0 <= Clock(g, a, s, ms) <= Cost(g, q, a, s, ms)
    decreases |ms|
  {
    if |ms| > 0 {
      StepCostAtLeastBase(g, q, a, s, ms[0]);
      ClockIsAtMostCost(g, q, ArrivalOf(ms[0]), Target(s, ms[0]), ms[1..]);
    }
  }

  lemma {:induction false} NeutralCostIsClock(g: Graph, q: Query, a: Arrival, s: State, ms: seq<Move>)
    requires q.pen.Neutral()
    ensures Cost(g, q, a, s, ms) == Clock(g, a, s, ms)
    decreases |ms|
  {
    if |ms| > 0 {
      NeutralCostIsClock(g, q, ArrivalOf(ms[0]), Target(s, ms[0]), ms[1..]);
    }
  }

  /** Legality never looks at the penalties. */
  lemma {:induction false} LegalWhateverThePenalty(g: Graph, q: Query, pen: Penalties, s: State, ms: seq<Move>)
    requires g.Valid() && LegalWalk(g, q, s, ms)
    ensures LegalWalk(g, q.(pen := pen), s, ms)
    decreases |ms|
  {
    if |ms| > 0 {
      assert Legal(g, q.(pen := pen), s, ms[0]);
      LegalWhateverThePenalty(g, q, pen, Target(s, ms[0]), ms[1..]);
    }
  }

  /** In a ramp-free graph no penalty round's answer to the same question takes fewer seconds
      than the answer of a round that charges nothing. */
  lemma NoRoundBeatsTheFirst(t: Task, pen: Penalties, first: seq<UsedEdge>, later: seq<UsedEdge>)
    requires t.g.Valid() && RampFree(t.g) && t.q.pen.Neutral()
    requires BestWalk(t, first) && BestWalk(t.(q := t.q.(pen := pen)), later)
    ensures Seconds(first) <= Seconds(later)
  {
    var ms := MovesOf(later);
    LegalWhateverThePenalty(t.g, t.q.(pen := pen), t.q.pen, t.start, ms);
    assert t.q.(pen := pen).(pen := t.q.pen) == t.q;
    RampFreeIsOptimal(t, first, ms);
    NeutralCostIsClock(t.g, t.q, Fresh, t.start, ms);
    NeutralCostIsClock(t.g, t.q, Fresh, t.start, MovesOf(first));
    RecordedIsClock(t.g, Fresh, t.start, first);
    RecordedIsClock(t.g, Fresh, t.start, later);
  }

  // ------------------------------------------------------------------ ramps in doubt

  /** The steps of a walk whose ramp the arrivals at their junction disagree about. */
  ghost function Doubts(g: Graph, q: Query, s: State, ms: seq<Move>): nat
    requires g.Valid() && LegalWalk(g, q, s, ms)
    decreases |ms|
  {
    if |ms| == 0 then 0
    else
      LegalStaysInside(g, q, s, ms[0]);
      (if ms[0].Along? && Ambiguous(g, q, s, ms[0].e.st) then 1 else 0) + Doubts(g, q, Target(s, ms[0]), ms[1..])
  }

  lemma {:induction false} NeutralSlack(g: Graph, q: Query, s: State, ms: seq<Move>)
    requires g.Valid() && q.pen.Neutral() && LegalWalk(g, q, s, ms)
    ensures Slack(g, q, s, ms) == RAMP_COST * Doubts(g, q, s, ms) as real
    decreases |ms|
  {
    if |ms| > 0 {
      LegalStaysInside(g, q, s, ms[0]);
      NeutralSlack(g, q, Target(s, ms[0]), ms[1..]);
    }
  }

  /** The seconds of an unpenalised answer exceed those of any legal walk by at most one ramp for
      each junction on that walk whose arrivals disagree. */
  lemma RampBound(t: Task, edges: seq<UsedEdge>, other: seq<Move>)
    requires t.g.Valid() && t.q.pen.Neutral() && BestWalk(t, edges)
    requires LegalWalk(t.g, t.q, t.start, other) && End(t.start, other).node == t.to
    ensures Seconds(edges) <= Clock(t.g, Fresh, t.start, other) + RAMP_COST * Doubts(t.g, t.q, t.start, other) as real
  {
    NeutralSlack(t.g, t.q, t.start, other);
    NeutralCostIsClock(t.g, t.q, Fresh, t.start, other);
    NeutralCostIsClock(t.g, t.q, Fresh, t.start, MovesOf(edges));
    RecordedIsClock(t.g, Fresh, t.start, edges);
  }

  ghost predicate CarArrives(g: Graph, q: Query, v: nat, fast: bool)
    requires g.Valid()
  {
    exists u: nat, e :: Legal(g, q, State(u, Car), Along(e)) && e.to == v
                 && e.st < |g.stretches| && IsMotorway(g.stretches[e.st].cls) == fast
  }

  /** No mode of the plan switches INTO the car: true of every plan the service accepts. */
  predicate CarIsFirst(plan: seq<Mode>) { forall m :: Next(plan, m) != Some(Car) }

  /** Arrivals only ever disagree where a motorway or trunk edge and another car edge both arrive. */
  lemma DoubtsNeedMixedJunctions(g: Graph, q: Query, s: State, st: nat)
    requires g.Valid() && CarIsFirst(q.plan) && st < |g.stretches| && Ambiguous(g, q, s, st)
    ensures s.mode.Car? && CarArrives(g, q, s.node, true) && CarArrives(g, q, s.node, false)
  {
    var a, b :| Arrives(g, q, s, a) && Arrives(g, q, s, b) && Ramp(g, s.mode, a, st) != Ramp(g, s.mode, b, st);
    CarArrivalIsAnEdge(g, q, s, a);
    CarArrivalIsAnEdge(g, q, s, b);
  }

  lemma CarArrivalIsAnEdge(g: Graph, q: Query, s: State, a: Arrival)
    requires g.Valid() && CarIsFirst(q.plan) && s.mode.Car? && Arrives(g, q, s, a)
    ensures a.On? && a.st < |g.stretches| && CarArrives(g, q, s.node, IsMotorway(g.stretches[a.st].cls))
  {
    var u, mv :| Legal(g, q, u, mv) && Target(u, mv) == s && ArrivalOf(mv) == a;
    LegalStaysInside(g, q, u, mv);
    assert mv.Along? && u == State(u.node, Car);
  }

  /** A junction at which a motorway or trunk edge and another car edge both arrive. */
  ghost predicate Mixed(g: Graph, q: Query, v: nat)
    requires g.Valid()
  {
    CarArrives(g, q, v, true) && CarArrives(g, q, v, false)
  }

  /** How often a walk drives on from a mixed junction. */
  ghost function MixedDrives(g: Graph, q: Query, s: State, ms: seq<Move>): nat
    requires g.Valid() && LegalWalk(g, q, s, ms)
    decreases |ms|
  {
    if |ms| == 0 then 0
    else
      LegalStaysInside(g, q, s, ms[0]);
      (if ms[0].Along? && s.mode.Car? && Mixed(g, q, s.node) then 1 else 0)
      + MixedDrives(g, q, Target(s, ms[0]), ms[1..])
  }

  lemma {:induction false} DoubtsAreMixedDrives(g: Graph, q: Query, s: State, ms: seq<Move>)
    requires g.Valid() && CarIsFirst(q.plan) && LegalWalk(g, q, s, ms)
    ensures Doubts(g, q, s, ms) <= MixedDrives(g, q, s, ms)
    decreases |ms|
  {
    hide Ambiguous, CarArrives;
    if |ms| > 0 {
      LegalStaysInside(g, q, s, ms[0]);
      if ms[0].Along? && Ambiguous(g, q, s, ms[0].e.st) { DoubtsNeedMixedJunctions(g, q, s, ms[0].e.st); }
      DoubtsAreMixedDrives(g, q, Target(s, ms[0]), ms[1..]);
    }
  }

  /** An unpenalised answer exceeds any legal walk by at most one ramp for each time that walk drives on from a
      junction where a motorway or trunk edge and another car edge both arrive. */
  lemma RampsOfMixedJunctions(t: Task, edges: seq<UsedEdge>, other: seq<Move>)
    requires t.g.Valid() && t.q.pen.Neutral() && CarIsFirst(t.q.plan) && BestWalk(t, edges)
    requires LegalWalk(t.g, t.q, t.start, other) && End(t.start, other).node == t.to
    ensures Seconds(edges)
         <= Clock(t.g, Fresh, t.start, other) + RAMP_COST * MixedDrives(t.g, t.q, t.start, other) as real
  {
    hide Doubts, MixedDrives, BestWalk, Clock;
    RampBound(t, edges, other);
    DoubtsAreMixedDrives(t.g, t.q, t.start, other);
  }

  // ------------------------------------------------------------------ grades

  lemma {:induction false} HarderGradeKeepsWalks(g: Graph, q: Query, harder: int, s: State, ms: seq<Move>)
    requires g.Valid() && q.grade <= harder && LegalWalk(g, q, s, ms)
    ensures LegalWalk(g, q.(grade := harder), s, ms)
    decreases |ms|
  {
    if |ms| > 0 {
      LegalStaysInside(g, q, s, ms[0]);
      assert Legal(g, q.(grade := harder), s, ms[0]);
      HarderGradeKeepsWalks(g, q, harder, Target(s, ms[0]), ms[1..]);
    }
  }

  /** A harder grade never makes the cheapest answer dearer (ramp-free). */
  lemma HarderGradeIsNoDearer(t: Task, harder: int, easy: seq<UsedEdge>, hard: seq<UsedEdge>)
    requires t.g.Valid() && RampFree(t.g) && t.q.grade <= harder
    requires BestWalk(t, easy) && BestWalk(t.(q := t.q.(grade := harder)), hard)
    ensures Cost(t.g, t.q, Fresh, t.start, MovesOf(hard)) <= Cost(t.g, t.q, Fresh, t.start, MovesOf(easy))
  {
    var hq := t.q.(grade := harder);
    HarderGradeKeepsWalks(t.g, t.q, harder, t.start, MovesOf(easy));
    RampFreeIsOptimal(t.(q := hq), hard, MovesOf(easy));
    SameCost(t.g, t.q, hq, Fresh, t.start, MovesOf(easy));
    SameCost(t.g, t.q, hq, Fresh, t.start, MovesOf(hard));
  }

  lemma {:induction false} SameCost(g: Graph, q: Query, r: Query, a: Arrival, s: State, ms: seq<Move>)
    requires q.pen == r.pen
    ensures Cost(g, q, a, s, ms) == Cost(g, r, a, s, ms)
    decreases |ms|
  {
    if |ms| > 0 {
      SameCost(g, q, r, ArrivalOf(ms[0]), Target(s, ms[0]), ms[1..]);
    }
  }

  /** A walk that only a harder grade allows runs, at some junction reached legally, into an edge
      that the grade or the ferrata rule refused. */
  lemma {:induction false} WhereTheGradeStops(g: Graph, q: Query, harder: int, s: State, ms: seq<Move>)
      returns (k: nat)
    requires g.Valid() && LegalWalk(g, q.(grade := harder), s, ms) && !LegalWalk(g, q, s, ms)
    ensures k < |ms| && LegalWalk(g, q, s, ms[..k])
    ensures var u := End(s, ms[..k]);
      u.node < g.n && u.mode.Hike? && ms[k].Along? && ms[k].e in g.hike[u.node]
      && ms[k].e.st !in q.avoid && ms[k].e.st < |g.stretches|
      && (FerrataRefused(g, q, Hike, ms[k].e.st) || GradeRefused(g, q, Hike, ms[k].e.st))
    decreases |ms|
  {
    LegalStaysInside(g, q.(grade := harder), s, ms[0]);
    if Legal(g, q, s, ms[0]) {
      var j := WhereTheGradeStops(g, q, harder, Target(s, ms[0]), ms[1..]);
      k := j + 1;
      assert ms[..k][1..] == ms[1..][..j];
    } else {
      k := 0;
    }
  }

  predicate NoFerrata(g: Graph) { forall i :: 0 <= i < |g.stretches| ==> !g.stretches[i].ferrata }

  /** Where no stretch is a ferrata, a failed search has noted a refused grade whenever a harder
      grade would have found a way. */
  lemma FailureNotesTheGrade(t: Task, harder: int, ms: seq<Move>, st: Refusals)
    requires t.g.Valid() && NoFerrata(t.g)
    requires forall w :: LegalWalk(t.g, t.q, t.start, w) ==>
               End(t.start, w).node != t.to && Noted(t.g, t.q, {End(t.start, w)}, st)
    requires LegalWalk(t.g, t.q.(grade := harder), t.start, ms) && End(t.start, ms).node == t.to
    ensures st.gradeSkipped > 0
  {
    var k := WhereTheGradeStops(t.g, t.q, harder, t.start, ms);
    assert Noted(t.g, t.q, {End(t.start, ms[..k])}, st);
    assert NotedEdge(t.g, t.q, ms[k].e, st);
  }
}
