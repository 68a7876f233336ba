/** What a trip's searches did not note does not matter: when a trip has failed without refusing a grade to
    anybody, the same failure stands at every harder grade, planned in advance or not
    (internal/route/search.go:394-468, 870-917, 1202-1260). */
module Silent {
  import opened Roads
  import opened Moves
  import opened Search
  import opened Answers
  import opened Heuristic
  import opened Trip

  // ------------------------------------------------------------------ walks

  /** On the way a walk never falls behind what it comes to. */
  lemma {:induction false} PrefixIsAhead(g: Graph, q: Query, to: nat, h: State -> real, a: Arrival, s: State,
      ms: seq<Move>, k: nat)
    requires g.Valid() && q.pen.Valid() && Consistent(g, q, to, h) && LegalWalk(g, q, s, ms) && k <= |ms|
    ensures LegalWalk(g, q, s, ms[..k])
    ensures Cost(g, q, a, s, ms[..k]) + h(End(s, ms[..k])) + Slack(g, q, s, ms[..k])
         <= Cost(g, q, a, s, ms) + h(End(s, ms)) + Slack(g, q, s, ms)
    decreases |ms|
  {
    hide Legal, StepCost, Consistent, SlackStep;
    if k == 0 {
      BoundFalls(g, q, to, h, a, s, ms);
      SlackNonNegative(g, q, s, ms);
    } else {
      PrefixIsAhead(g, q, to, h, ArrivalOf(ms[0]), Target(s, ms[0]), ms[1..], k - 1);
      assert ms[..k][1..] == ms[1..][..k - 1];
    }
  }

  lemma HarderArrivals(g: Graph, q: Query, harder: int, s: State, st: nat)
    requires g.Valid() && q.grade <= harder && st < |g.stretches| && Ambiguous(g, q, s, st)
    ensures Ambiguous(g, q.(grade := harder), s, st)
  {
    var a, b :| Arrives(g, q, s, a) && Arrives(g, q, s, b) && Ramp(g, s.mode, a, st) != Ramp(g, s.mode, b, st);
    HarderArrives(g, q, harder, s, a);
    HarderArrives(g, q, harder, s, b);
  }

  lemma HarderArrives(g: Graph, q: Query, harder: int, s: State, a: Arrival)
    requires g.Valid() && q.grade <= harder && Arrives(g, q, s, a)
    ensures Arrives(g, q.(grade := harder), s, a)
  {
    var u, mv :| Legal(g, q, u, mv) && Target(u, mv) == s && ArrivalOf(mv) == a;
    assert Legal(g, q.(grade := harder), u, mv);
  }

  /** A harder grade only adds to the ramps in doubt. */
  lemma {:induction false} SlackGrows(g: Graph, q: Query, harder: int, s: State, ms: seq<Move>)
    requires g.Valid() && q.pen.Valid() && q.grade <= harder && LegalWalk(g, q, s, ms)
    ensures LegalWalk(g, q.(grade := harder), s, ms)
    ensures Slack(g, q, s, ms) <= Slack(g, q.(grade := harder), s, ms)
    decreases |ms|
  {
    HarderGradeKeepsWalks(g, q, harder, s, ms);
    if |ms| > 0 {
      hide Ambiguous, Legal, Charged;
      LegalStaysInside(g, q, s, ms[0]);
      SlackGrows(g, q, harder, Target(s, ms[0]), ms[1..]);
      if ms[0].Along? {
        NeverDiscount(RAMP_COST, q.pen.Factor(ms[0].e.st));
        if Ambiguous(g, q, s, ms[0].e.st) { HarderArrivals(g, q, harder, s, ms[0].e.st); }
      }
    }
  }

  /** Where nothing was noted nothing is refused, at this grade or a harder one. */
  lemma SilentEnd(g: Graph, q: Query, harder: int, u: State, st: Refusals)
    requires g.Valid() && NoFerrata(g) && q.grade <= harder && st.gradeSkipped <= 0 && Noted(g, q, {u}, st)
    ensures Noted(g, q.(grade := harder), {u}, st)
  {
    forall v, e | v in {u} && v.node < g.n && v.mode.Hike? && e in g.hike[v.node]
      ensures NotedEdge(g, q.(grade := harder), e, st)
    {
      assert NotedEdge(g, q, e, st);
    }
  }

  /** A walk that only the harder grade allows was refused where a search would have noted it. */
  lemma NotNoted(g: Graph, q: Query, u: State, e: Edge, st: Refusals)
    requires g.Valid() && NoFerrata(g) && st.gradeSkipped <= 0
    requires u.node < g.n && u.mode.Hike? && e in g.hike[u.node] && e.st !in q.avoid && e.st < |g.stretches|
    requires FerrataRefused(g, q, Hike, e.st) || GradeRefused(g, q, Hike, e.st)
    ensures !Noted(g, q, {u}, st)
  {
    assert !NotedEdge(g, q, e, st);
  }

  // ------------------------------------------------------------------ searches

  /** The same question at a harder grade. */
  ghost predicate Regraded(s: Task, t: Task, harder: int) {
    && Sound(s) && Sound(t) && NoFerrata(s.g) && s.g == t.g && s.start == t.start && s.to == t.to
    && s.q.grade <= harder && t.q == s.q.(grade := harder) && forall x :: s.h(x) == t.h(x)
  }

  /** What fell behind the answer at one grade does so at the harder one. */
  lemma FallsBehind(s: Task, t: Task, harder: int, edges: seq<UsedEdge>, st: Refusals, ms: seq<Move>)
    requires Regraded(s, t, harder) && st.gradeSkipped <= 0 && Ahead(s, edges, st)
    requires LegalWalk(t.g, t.q, t.start, ms)
    ensures (LegalWalk(s.g, s.q, s.start, ms) && Noted(s.g, s.q, {End(s.start, ms)}, st))
         || Cost(s.g, s.q, Fresh, s.start, MovesOf(edges))
            <= Cost(t.g, t.q, Fresh, t.start, ms) + t.h(End(t.start, ms)) + Slack(t.g, t.q, t.start, ms)
  {
    hide Noted, Consistent, Cost, Slack, Legal, FerrataRefused, GradeRefused, NoFerrata;
    var k := |ms|;
    if !LegalWalk(s.g, s.q, s.start, ms) {
      k := WhereTheGradeStops(s.g, s.q, harder, s.start, ms);
      NotNoted(s.g, s.q, End(s.start, ms[..k]), ms[k].e, st);
    }
    assert LegalWalk(s.g, s.q, s.start, ms[..k]) by { assert ms[..|ms|] == ms; }
    SlackGrows(s.g, s.q, harder, s.start, ms[..k]);
    SameCost(s.g, s.q, t.q, Fresh, s.start, ms[..k]);
    PrefixIsAhead(t.g, t.q, t.to, t.h, Fresh, t.start, ms, k);
    assert k == |ms| ==> ms[..k] == ms;
  }

  /** An answer found without a refusal is an answer at the harder grade. */
  lemma SilentAnswerStays(s: Task, t: Task, harder: int, edges: seq<UsedEdge>, st: Refusals)
    requires Regraded(s, t, harder) && st.gradeSkipped <= 0 && BestWalk(s, edges) && Ahead(s, edges, st)
    ensures BestWalk(t, edges) && Ahead(t, edges, st)
  {
    var ms := MovesOf(edges);
    HarderGradeKeepsWalks(s.g, s.q, harder, s.start, ms);
    SameCost(s.g, s.q, t.q, Fresh, s.start, ms);
    hide Noted, Cost, Slack, Legal, LegalWalk, NoFerrata, Consistent;
    forall other | LegalWalk(t.g, t.q, t.start, other) && End(t.start, other).node == t.to
      ensures Cost(t.g, t.q, Fresh, t.start, ms)
           <= Cost(t.g, t.q, Fresh, t.start, other) + Slack(t.g, t.q, t.start, other)
    {
      if LegalWalk(s.g, s.q, s.start, other) {
        SlackGrows(s.g, s.q, harder, s.start, other);
        SameCost(s.g, s.q, t.q, Fresh, s.start, other);
      } else {
        FallsBehind(s, t, harder, edges, st, other);
        BoundEnds(t, End(t.start, other));
      }
    }
    forall other | LegalWalk(t.g, t.q, t.start, other)
      ensures Noted(t.g, t.q, {End(t.start, other)}, st)
           || Cost(t.g, t.q, Fresh, t.start, ms)
              <= Cost(t.g, t.q, Fresh, t.start, other) + t.h(End(t.start, other)) + Slack(t.g, t.q, t.start, other)
    {
      FallsBehind(s, t, harder, edges, st, other);
      if Noted(s.g, s.q, {End(s.start, other)}, st) { SilentEnd(s.g, s.q, harder, End(s.start, other), st); }
    }
  }

  lemma BoundEnds(t: Task, s: State)
    requires Sound(t) && s.node == t.to
    ensures t.h(s) == 0.0
  {
    assert s == State(t.to, s.mode);
  }

  /** And a failure without a refusal is a failure there. */
  lemma SilentFailureStays(s: Task, t: Task, harder: int, st: Refusals)
    requires Regraded(s, t, harder) && st.gradeSkipped <= 0
    requires forall ms :: LegalWalk(s.g, s.q, s.start, ms) ==>
               End(s.start, ms).node != s.to && Noted(s.g, s.q, {End(s.start, ms)}, st)
    ensures forall ms :: LegalWalk(t.g, t.q, t.start, ms) ==>
              End(t.start, ms).node != t.to && Noted(t.g, t.q, {End(t.start, ms)}, st)
  {
    hide Noted, Legal, LegalWalk, FerrataRefused, GradeRefused, NoFerrata, Consistent;
    forall ms: seq<Move> | LegalWalk(t.g, t.q, t.start, ms)
      ensures End(t.start, ms).node != t.to && Noted(t.g, t.q, {End(t.start, ms)}, st)
    {
      if !LegalWalk(s.g, s.q, s.start, ms) {
        var k := WhereTheGradeStops(s.g, s.q, harder, s.start, ms);
        NotNoted(s.g, s.q, End(s.start, ms[..k]), ms[k].e, st);
      }
      SilentEnd(s.g, s.q, harder, End(s.start, ms), st);
    }
  }

  // ------------------------------------------------------------------ trips

  lemma TasksRegraded(w: World, tp: TripPlan, harder: int, i: nat, plan: seq<Mode>, pen: Penalties)
    requires Asked(w, tp) && Asked(w, AtGrade(tp, harder)) && tp.grade <= harder && NoFerrata(w.g)
    requires i + 1 < |tp.nodes| && GoodPlan(plan) && pen.Valid()
    ensures Regraded(PairTask(w, tp, i, plan, pen), PairTask(w, AtGrade(tp, harder), i, plan, pen), harder)
  {
    hide World.Valid, NoFerrata, Sound, GoodPlan;
    PairTaskIsSound(w, tp, i, plan, pen);
    PairTaskIsSound(w, AtGrade(tp, harder), i, plan, pen);
  }

  lemma SilentPairStays(w: World, tp: TripPlan, harder: int, pen: Penalties, i: nat, plan: seq<Mode>,
      part: seq<UsedEdge>, st: Refusals)
    requires Asked(w, tp) && Asked(w, AtGrade(tp, harder)) && tp.grade <= harder && NoFerrata(w.g)
    requires i + 1 < |tp.nodes| && pen.Valid() && st.gradeSkipped <= 0
    requires PairOk(w, tp, pen, i, plan, part) && PairNoted(w, tp, pen, i, plan, part, st)
    ensures PairOk(w, AtGrade(tp, harder), pen, i, plan, part)
    ensures PairNoted(w, AtGrade(tp, harder), pen, i, plan, part, st)
  {
    var hp := AtGrade(tp, harder);
    hide BestWalk, Ahead, NoFerrata;
    if Searched(tp, i) {
      TasksRegraded(w, tp, harder, i, plan, pen);
      SilentAnswerStays(PairTask(w, tp, i, plan, pen), PairTask(w, hp, i, plan, pen), harder, part, st);
    }
  }

  /** Plans are carried over whatever the grade. */
  lemma {:induction false} CarriedAtAnyGrade(g: Graph, tp: TripPlan, harder: int, parts: seq<seq<UsedEdge>>, i: nat)
    requires i <= |parts| && i < |tp.stop|
    ensures SpanBefore(AtGrade(tp, harder), parts, i) == SpanBefore(tp, parts, i)
    ensures PlanBefore(g, AtGrade(tp, harder), parts, i) == PlanBefore(g, tp, parts, i)
    ensures PlanFor(g, AtGrade(tp, harder), parts, i) == PlanFor(g, tp, parts, i)
  {
    if i > 0 { CarriedAtAnyGrade(g, tp, harder, parts, i - 1); }
  }

  lemma SilentPairsStay(w: World, tp: TripPlan, harder: int, pen: Penalties, parts: seq<seq<UsedEdge>>, st: Refusals)
    requires Asked(w, tp) && Asked(w, AtGrade(tp, harder)) && tp.grade <= harder && NoFerrata(w.g)
    requires pen.Valid() && st.gradeSkipped <= 0
    requires Gathered(w, tp, pen, parts) && PairsNoted(w, tp, pen, parts, st)
    ensures Gathered(w, AtGrade(tp, harder), pen, parts) && PairsNoted(w, AtGrade(tp, harder), pen, parts, st)
  {
    hide PairOk, PairNoted, World.Valid, PlanFor, NoFerrata;
    var hp := AtGrade(tp, harder);
    forall i | 0 <= i < |parts|
      ensures PairOk(w, hp, pen, i, PlanFor(w.g, hp, parts, i), parts[i])
      ensures PairNoted(w, hp, pen, i, PlanFor(w.g, hp, parts, i), parts[i], st)
    {
      CarriedAtAnyGrade(w.g, tp, harder, parts, i);
      SilentPairStays(w, tp, harder, pen, i, PlanFor(w.g, tp, parts, i), parts[i], st);
    }
  }

  lemma SilentEndStays(w: World, tp: TripPlan, harder: int, pen: Penalties, i: nat, plan: seq<Mode>, st: Refusals)
    requires Asked(w, tp) && Asked(w, AtGrade(tp, harder)) && tp.grade <= harder && NoFerrata(w.g)
    requires pen.Valid() && st.gradeSkipped <= 0 && FailedAt(w, tp, pen, i, plan, st)
    ensures FailedAt(w, AtGrade(tp, harder), pen, i, plan, st)
  {
    var hp := AtGrade(tp, harder);
    TasksRegraded(w, tp, harder, i, plan, pen);
    SilentFailureStays(PairTask(w, tp, i, plan, pen), PairTask(w, hp, i, plan, pen), harder, st);
  }

  /** A trip that failed and refused no grade to anybody fails in the same way at every harder grade. */
  lemma SilentTripStaysFailed(w: World, tp: TripPlan, harder: int, pen: Penalties, st: Refusals)
    requires Asked(w, tp) && Asked(w, AtGrade(tp, harder)) && tp.grade <= harder && NoFerrata(w.g)
    requires pen.Valid() && st.gradeSkipped <= 0 && Unanswered(w, tp, pen, st)
    ensures Unanswered(w, AtGrade(tp, harder), pen, st)
  {
    hide World.Valid, Gathered, PairsNoted, FailedAt, PlanFor, NoFerrata;
    if parts :| FailsAfter(w, tp, pen, parts, st) {
      SilentPairsStay(w, tp, harder, pen, parts, st);
      CarriedAtAnyGrade(w.g, tp, harder, parts, |parts|);
      SilentEndStays(w, tp, harder, pen, |parts|, PlanFor(w.g, tp, parts, |parts|), st);
      assert FailsAfter(w, AtGrade(tp, harder), pen, parts, st);
    }
  }
}
