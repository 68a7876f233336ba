/** What a caller may count on, and exactly when: read off the trip, before anything is searched
    (internal/route/search.go:786-917, 1172-1201, 1335-1358). */
module Promises {
  import opened Roads
  import opened Moves
  import opened Search
  import opened Answers
  import opened Heuristic
  import opened Trip
  import opened Alternatives
  import opened Grades
  import Detour
  import Mountain

  // ------------------------------------------------------------------ the first card is the best

  /** The rounds of a trip: are its plans known in advance, does a stop park it, may it ride. The engine chooses
      the parking where no stop does. */
  ghost predicate Routed(known: bool, parks: bool, rides: bool, w: World, tp: TripPlan, all: seq<Answer>) {
    && Asked(w, tp) && RampFree(w.g) && known == PlansKnown(tp)
    && parks == (tp.parkSeg >= 1) && rides == tp.lifts && (parks ==> OneModeEach(tp))
    && RoundsOk(w, tp, tp.parkSeg < 1, all)
  }

  /** Card k reports no less than the first. */
  predicate NotLess(g: Graph, all: seq<Answer>, k: nat) {
    k < |KeptOf(g, all)| ==> KeptOf(g, all)[0].seconds <= KeptOf(g, all)[k].seconds
  }

  /** Card k travels for no less. */
  predicate NotFaster(g: Graph, all: seq<Answer>, k: nat) {
    k < |KeptOf(g, all)| ==> MoveSeconds(KeptOf(g, all)[0]) <= MoveSeconds(KeptOf(g, all)[k])
  }

  lemma KnownRoundsAreSafe(known: bool, parks: bool, rides: bool, w: World, tp: TripPlan, all: seq<Answer>, k: nat)
    requires Routed(known, parks, rides, w, tp, all) && known
    ensures NotFaster(w.g, all, k) && (!(parks && rides) ==> NotLess(w.g, all, k))
  {
    hide Asked, RampFree, PlansKnown, RoundsOk, OneModeEach, KeptOf, MoveSeconds;
    FirstIsFastest(w, tp, tp.parkSeg < 1, all);
    var routes := KeptOf(w.g, all);
    assert k < |routes| ==> MoveSeconds(routes[0]) <= MoveSeconds(routes[k]);
    assert !(parks && rides) && k < |routes| ==> routes[0].seconds <= routes[k].seconds;
  }

  /** On every map the first card has the smallest clock if and only if the plans of the trip are known in
      advance, and no stop parks it or nothing may be ridden. */
  lemma ClockIsSafeIff(hyp: (real, real) -> real, known: bool, parks: bool, rides: bool)
    requires IsHypot(hyp)
    ensures (forall w, tp, all, k :: Routed(known, parks, rides, w, tp, all) ==> NotLess(w.g, all, k))
       <==> known && !(parks && rides)
  {
    hide IsHypot, RampFree, PlansKnown, RoundsOk, OneModeEach, KeptOf, MoveSeconds, Asked, AnswerOk;
    if !known {
      var tp := Detour.Via(if parks then 1 else 0, 2, rides);
      Detour.LaterRoundCanBeFaster(hyp, tp);
      assert Routed(known, parks, rides, Detour.On(0, true, hyp), tp, [Detour.ON_FOOT, Detour.BY_CAR]);
      assert !NotLess(Detour.On(0, true, hyp).g, [Detour.ON_FOOT, Detour.BY_CAR], 1);
    } else if parks && rides {
      Mountain.LaterRoundCanReportLess(hyp);
      assert Routed(known, parks, rides, Mountain.OnMap3(hyp), Mountain.TRIP, [Mountain.FIRST, Mountain.SECOND]);
      assert !NotLess(Mountain.OnMap3(hyp).g, [Mountain.FIRST, Mountain.SECOND], 1);
    } else {
      forall w, tp, all, k | Routed(known, parks, rides, w, tp, all) ensures NotLess(w.g, all, k) {
        KnownRoundsAreSafe(known, parks, rides, w, tp, all, k);
      }
    }
  }

  /** It travels for the fewest seconds if and only if the plans of the trip are known in advance. */
  lemma TravelIsSafeIff(hyp: (real, real) -> real, known: bool, parks: bool, rides: bool)
    requires IsHypot(hyp)
    ensures (forall w, tp, all, k :: Routed(known, parks, rides, w, tp, all) ==> NotFaster(w.g, all, k)) <==> known
  {
    hide IsHypot, RampFree, PlansKnown, RoundsOk, OneModeEach, KeptOf, MoveSeconds, Asked, AnswerOk;
    if !known {
      var tp := Detour.Via(if parks then 1 else 0, 2, rides);
      Detour.LaterRoundCanBeFaster(hyp, tp);
      assert Routed(known, parks, rides, Detour.On(0, true, hyp), tp, [Detour.ON_FOOT, Detour.BY_CAR]);
      assert !NotFaster(Detour.On(0, true, hyp).g, [Detour.ON_FOOT, Detour.BY_CAR], 1);
    } else {
      forall w, tp, all, k | Routed(known, parks, rides, w, tp, all) ensures NotFaster(w.g, all, k) {
        KnownRoundsAreSafe(known, parks, rides, w, tp, all, k);
      }
    }
  }

  // ------------------------------------------------------------------ a harder grade is no worse

  /** A trip, a harder grade, and unpenalised rounds of both. */
  ghost predicate Regraded(known: bool, w: World, tp: TripPlan, harder: int, pen: Penalties, later: Penalties) {
    && Asked(w, tp) && Asked(w, AtGrade(tp, harder)) && known == PlansKnown(tp) && tp.grade <= harder
    && pen.Neutral() && later.Neutral()
  }

  /** Where a trip is answered it does not fail at the harder grade. */
  ghost predicate StaysAnswered(w: World, tp: TripPlan, harder: int, pen: Penalties, later: Penalties, a: Answer,
      st: Refusals)
    requires Asked(w, tp) && Asked(w, AtGrade(tp, harder))
  {
    AnswerOk(w, tp, pen, a) ==> !Unanswered(w, AtGrade(tp, harder), later, st)
  }

  lemma KnownStaysAnswered(w: World, tp: TripPlan, harder: int, pen: Penalties, later: Penalties, a: Answer,
      st: Refusals)
    requires Regraded(true, w, tp, harder, pen, later)
    ensures StaysAnswered(w, tp, harder, pen, later, a, st)
  {
    HarderIsAsked(w, tp, harder);
    hide Asked, PlansKnown, AnswerOk, Unanswered, Answerable;
    if AnswerOk(w, tp, pen, a) {
      AnsweredIsAnswerable(w, tp, pen, a);
      HarderIsAnswerable(w, tp, harder);
      if Unanswered(w, AtGrade(tp, harder), later, st) {
        UnansweredIsNotAnswerable(w, AtGrade(tp, harder), later, st);
      }
    }
  }

  /** On every map what can be answered at a grade does not fail at a harder one if and only if the plans of the
      trip are known in advance. */
  lemma HarderNeverFailsIff(hyp: (real, real) -> real, known: bool)
    requires IsHypot(hyp)
    ensures (forall w, tp, harder, pen, later, a, st :: Regraded(known, w, tp, harder, pen, later) ==>
              StaysAnswered(w, tp, harder, pen, later, a, st))
       <==> known
  {
    hide IsHypot, RampFree, PlansKnown, Asked, AnswerOk, Unanswered;
    if known {
      forall w, tp, harder, pen, later, a, st | Regraded(known, w, tp, harder, pen, later)
        ensures StaysAnswered(w, tp, harder, pen, later, a, st)
      {
        KnownStaysAnswered(w, tp, harder, pen, later, a, st);
      }
    } else {
      Detour.HarderGradeLosesTheTrip(hyp, 0, false);
      var w, tp, st := Detour.On(3, false, hyp), Detour.Via(0, 2, false), Refusals(false, 0);
      assert Regraded(known, w, tp, 3, NoPenalty, NoPenalty);
      assert !StaysAnswered(w, tp, 3, NoPenalty, NoPenalty, Detour.BY_CAR, st);
    }
  }

  /** In a ramp-free graph its answer there does not travel for more seconds. */
  ghost predicate NoSlower(w: World, tp: TripPlan, harder: int, a: Answer, b: Answer)
    requires Asked(w, tp) && Asked(w, AtGrade(tp, harder))
  {
    RampFree(w.g) && AnswerOk(w, tp, NoPenalty, a) && AnswerOk(w, AtGrade(tp, harder), NoPenalty, b) ==>
      MoveSeconds(b) <= MoveSeconds(a)
  }

  /** On every map a harder grade is no slower if and only if the plans of the trip are known in advance. */
  lemma HarderIsNoSlowerIff(hyp: (real, real) -> real, known: bool)
    requires IsHypot(hyp)
    ensures (forall w, tp, harder, a, b :: Regraded(known, w, tp, harder, NoPenalty, NoPenalty) ==>
              NoSlower(w, tp, harder, a, b))
       <==> known
  {
    hide IsHypot, RampFree, PlansKnown, Asked, AnswerOk, MoveSeconds;
    if known {
      forall w, tp, harder, a, b | Regraded(known, w, tp, harder, NoPenalty, NoPenalty)
        ensures NoSlower(w, tp, harder, a, b)
      {
        if RampFree(w.g) && AnswerOk(w, tp, NoPenalty, a) && AnswerOk(w, AtGrade(tp, harder), NoPenalty, b) {
          HarderMovesNoSlower(w, tp, harder, a, b);
        }
      }
    } else {
      Detour.HarderGradeCanBeSlower(hyp, 0, false);
      var w, tp := Detour.On(3, true, hyp), Detour.Via(0, 2, false);
      assert Regraded(known, w, tp, 3, NoPenalty, NoPenalty);
      assert !NoSlower(w, tp, 3, Detour.BY_CAR, Detour.ON_FOOT);
    }
  }
}
