/** The rounds of Route, and the grade a refusal offers (internal/route/search.go:723-917, 986-1000). */
module Grades {
  import opened Roads
  import opened Moves
  import opened Search
  import opened Answers
  import opened Network
  import opened Heuristic
  import opened Trip
  import opened Alternatives
  import opened Silent

  // ------------------------------------------------------------------ the rounds

  /** The stretches an answer travels. */
  function UsedStretches(edges: seq<UsedEdge>): set<nat> {
    set k | 0 <= k < |edges| && !edges[k].mv.Park? :: edges[k].mv.e.st
  }

  function SharedMetres(g: Graph, edges: seq<UsedEdge>, used: set<nat>): real {
    if |edges| == 0 then 0.0
    else
      var e := edges[|edges| - 1];
      SharedMetres(g, edges[..|edges| - 1], used)
      + (if !e.mv.Park? && e.mv.e.st < |g.stretches| && e.mv.e.st in used then g.stretches[e.mv.e.st].len else 0.0)
  }

  /** More than four fifths of what r travels was already in the earlier answer. */
  predicate SameLine(g: Graph, r: Answer, earlier: Answer) {
    var m := Metres(g, Flat(r.parts));
    m > 0.0 && SharedMetres(g, Flat(r.parts), UsedStretches(Flat(earlier.parts))) / m > 0.8
  }

  /** Half as much again on everything the answer used. */
  function Penalise(stretch: map<nat, real>, used: set<nat>): map<nat, real> {
    map st | st in stretch.Keys + used ::
      if st !in used then stretch[st] else if st in stretch then stretch[st] * 1.5 else 1.5
  }

  /** What an answer walked: on foot, and not ridden. */
  function Walked(g: Graph, edges: seq<UsedEdge>): seq<nat> {
    if |edges| == 0 then []
    else
      var e := edges[|edges| - 1];
      Walked(g, edges[..|edges| - 1])
      + (if !e.mv.Park? && e.to.mode.Hike? && e.mv.e.st < |g.stretches| && !g.stretches[e.mv.e.st].cls.LiftLine?
         then [e.mv.e.st] else [])
  }

  /** The last three kilometres of a walk, counted back from its end; m metres are already taken. */
  function Approach(g: Graph, walked: seq<nat>, m: real): set<nat> {
    if |walked| == 0 || m >= 3000.0 then {}
    else
      var st := walked[|walked| - 1];
      {st} + Approach(g, walked[..|walked| - 1], m + (if st < |g.stretches| then g.stretches[st].len else 0.0))
  }

  /** Where an answer left the car: the last of its switches. */
  function ParkNode(edges: seq<UsedEdge>): Option<nat> {
    if |edges| == 0 then None
    else if edges[|edges| - 1].mv.Park? then Some(edges[|edges| - 1].to.node)
    else ParkNode(edges[..|edges| - 1])
  }

  function ParkPoints(g: Graph, kept: seq<Answer>): seq<Point> {
    if |kept| == 0 then []
    else
      var p := ParkNode(Flat(kept[|kept| - 1].parts));
      ParkPoints(g, kept[..|kept| - 1]) + (if p.Some? && p.value < |g.pos| then [g.pos[p.value]] else [])
  }

  /** The penalties of the next round. Only the round after the first asks for another side of the
      mountain, and only when the engine chose the parking. */
  function NextPenalties(g: Graph, tp: TripPlan, pen: Penalties, engineParks: bool, round: nat, r: Answer,
      kept: seq<Answer>): Penalties
    requires pen.Penalties? && |kept| > 0
  {
    var stretch := Penalise(pen.stretch, UsedStretches(Flat(r.parts)));
    if round == 0 && |tp.plan| >= 2 && engineParks then
      var at := ParkPoints(g, kept);
      Penalties(stretch, Approach(g, Walked(g, Flat(kept[0].parts)), 0.0), at,
                if |at| > 0 then kept[0].seconds else 0.0)
    else Penalties(stretch, {}, [], 0.0)
  }

  /** The penalties of the first round. */
  const UNPENALISED: Penalties := Penalties(map[], {}, [], 0.0)

  /** What is kept of the rounds' answers: each that is not the same line as one kept before. */
  function KeptOf(g: Graph, all: seq<Answer>): seq<Answer> {
    if |all| == 0 then []
    else
      var kept, last := KeptOf(g, all[..|all| - 1]), all[|all| - 1];
      if forall j :: 0 <= j < |kept| ==> !SameLine(g, last, kept[j]) then kept + [last] else kept
  }

  /** The penalties of round k: what the answers of the rounds before it add up to. */
  function RoundPenalties(g: Graph, tp: TripPlan, engineParks: bool, all: seq<Answer>, k: nat): (pen: Penalties)
    requires k <= |all|
    ensures pen.Penalties?
  {
    if k == 0 then UNPENALISED
    else
      var kept := KeptOf(g, all[..k]);
      KeptSome(g, all[..k]);
      NextPenalties(g, tp, RoundPenalties(g, tp, engineParks, all, k - 1), engineParks, k - 1, all[k - 1], kept)
  }

  /** The first answer is always kept, in front. */
  lemma {:induction false} KeptSome(g: Graph, all: seq<Answer>)
    requires |all| > 0
    ensures |KeptOf(g, all)| > 0 && KeptOf(g, all)[0] == all[0]
  {
    if |all| > 1 { KeptSome(g, all[..|all| - 1]); }
  }

  /** The answers of the rounds: each the trip's answer under the penalties of its own round. */
  ghost predicate RoundsOk(w: World, tp: TripPlan, engineParks: bool, all: seq<Answer>)
    requires Asked(w, tp)
  {
    forall k :: 0 <= k < |all| ==> AnswerOk(w, tp, RoundPenalties(w.g, tp, engineParks, all, k), all[k])
  }

  lemma {:induction false} RoundsDoNotLookAhead(g: Graph, tp: TripPlan, engineParks: bool, all: seq<Answer>,
      r: Answer, k: nat)
    requires k <= |all|
    ensures RoundPenalties(g, tp, engineParks, all + [r], k) == RoundPenalties(g, tp, engineParks, all, k)
  {
    if k > 0 {
      assert (all + [r])[..k] == all[..k];
      hide KeptOf, NextPenalties;
      RoundsDoNotLookAhead(g, tp, engineParks, all, r, k - 1);
    }
  }

  lemma {:induction false} RoundPenaltiesAreValid(g: Graph, tp: TripPlan, engineParks: bool, all: seq<Answer>, k: nat)
    requires k <= |all|
    ensures RoundPenalties(g, tp, engineParks, all, k).Valid()
    ensures k == 0 ==> RoundPenalties(g, tp, engineParks, all, k).Neutral()
  {
    if k > 0 {
      RoundPenaltiesAreValid(g, tp, engineParks, all, k - 1);
      KeptSome(g, all[..k]);
      hide KeptOf, NextPenalties;
      PenaltiesStayValid(g, tp, RoundPenalties(g, tp, engineParks, all, k - 1), engineParks, k - 1, all[k - 1],
          KeptOf(g, all[..k]));
    }
  }

  lemma PenaltiesStayValid(g: Graph, tp: TripPlan, pen: Penalties, engineParks: bool, round: nat, r: Answer,
      kept: seq<Answer>)
    requires pen.Penalties? && pen.Valid() && |kept| > 0
    ensures var next := NextPenalties(g, tp, pen, engineParks, round, r, kept); next.Penalties? && next.Valid()
  {
  }

  lemma OneRoundMore(w: World, tp: TripPlan, engineParks: bool, all: seq<Answer>, r: Answer)
    requires Asked(w, tp) && RoundsOk(w, tp, engineParks, all)
    requires AnswerOk(w, tp, RoundPenalties(w.g, tp, engineParks, all, |all|), r)
    ensures RoundsOk(w, tp, engineParks, all + [r])
    ensures KeptOf(w.g, all + [r]) ==
              var kept := KeptOf(w.g, all);
              if forall j :: 0 <= j < |kept| ==> !SameLine(w.g, r, kept[j]) then kept + [r] else kept
  {
    hide Asked, AnswerOk, SameLine, RoundPenalties;
    assert (all + [r])[..|all|] == all;
    forall k | 0 <= k < |all| + 1
      ensures AnswerOk(w, tp, RoundPenalties(w.g, tp, engineParks, all + [r], k), (all + [r])[k])
    {
      RoundsDoNotLookAhead(w.g, tp, engineParks, all, r, k);
    }
  }

  // ------------------------------------------------------------------ what a round charges for

  /** A move that travels, and the stretch it travels. */
  predicate Travels(e: UsedEdge, st: nat) { !e.mv.Park? && e.mv.e.st == st }

  /** How many of the answers travel a stretch. */
  function TimesUsed(all: seq<Answer>, st: nat): nat {
    if |all| == 0 then 0
    else
      var edges := Flat(all[0].parts);
      (if exists i :: 0 <= i < |edges| && Travels(edges[i], st) then 1 else 0) + TimesUsed(all[1..], st)
  }

  /** Half as much again, n times over. */
  function HalfAgain(n: nat): real { if n == 0 then 1.0 else 1.5 * HalfAgain(n - 1) }

  /** The metres walked and not ridden. */
  function WalkedMetres(g: Graph, edges: seq<UsedEdge>): real {
    if |edges| == 0 then 0.0
    else (if OnFoot(g, edges[0]) then g.stretches[edges[0].mv.e.st].len else 0.0) + WalkedMetres(g, edges[1..])
  }

  predicate OnFoot(g: Graph, e: UsedEdge) {
    !e.mv.Park? && e.to.mode.Hike? && e.mv.e.st < |g.stretches| && g.stretches[e.mv.e.st].cls != LiftLine
  }

  /** A walker is on the stretch with less than a distance still to walk. */
  ghost predicate WalkedWithin(g: Graph, edges: seq<UsedEdge>, st: nat, metres: real) {
    exists i :: 0 <= i < |edges| && OnFoot(g, edges[i]) && Travels(edges[i], st)
                && WalkedMetres(g, edges[i + 1..]) < metres
  }

  /** The last of the parkings is at this junction. */
  ghost predicate LeftLastAt(edges: seq<UsedEdge>, v: nat) {
    exists i :: 0 <= i < |edges| && edges[i].mv.Park? && edges[i].to.node == v
                && forall j :: i < j < |edges| ==> !edges[j].mv.Park?
  }

  lemma {:induction false} WalkedMetresSnoc(g: Graph, edges: seq<UsedEdge>, e: UsedEdge)
    ensures WalkedMetres(g, edges + [e]) == WalkedMetres(g, edges) + WalkedMetres(g, [e])
  {
    if |edges| == 0 {
      assert edges + [e] == [e];
    } else {
      assert (edges + [e])[1..] == edges[1..] + [e];
      WalkedMetresSnoc(g, edges[1..], e);
    }
  }

  ghost predicate NoNegativeLength(g: Graph) { forall i :: 0 <= i < |g.stretches| ==> g.stretches[i].len >= 0.0 }

  lemma {:induction false} WalkedMetresNotNegative(g: Graph, edges: seq<UsedEdge>)
    requires NoNegativeLength(g)
    ensures WalkedMetres(g, edges) >= 0.0
  {
    if |edges| > 0 { WalkedMetresNotNegative(g, edges[1..]); }
  }

  lemma WithinOneMore(g: Graph, edges: seq<UsedEdge>, e: UsedEdge, st: nat, metres: real)
    ensures WalkedWithin(g, edges + [e], st, metres) <==>
              || WalkedWithin(g, edges, st, metres - WalkedMetres(g, [e]))
              || (OnFoot(g, e) && Travels(e, st) && 0.0 < metres)
  {
    var all := edges + [e];
    assert all[|edges| + 1..] == [] && WalkedMetres(g, []) == 0.0 && all[|edges|] == e;
    forall i | 0 <= i < |edges|
      ensures all[i] == edges[i]
      ensures WalkedMetres(g, all[i + 1..]) == WalkedMetres(g, edges[i + 1..]) + WalkedMetres(g, [e])
    {
      assert all[i + 1..] == edges[i + 1..] + [e];
      WalkedMetresSnoc(g, edges[i + 1..], e);
    }
  }

  /** The approach is the last three kilometres of the walk, a stretch begun within them included. */
  lemma {:induction false} ApproachIsTheEnd(g: Graph, edges: seq<UsedEdge>, m: real, st: nat)
    requires NoNegativeLength(g)
    ensures st in Approach(g, Walked(g, edges), m) <==> WalkedWithin(g, edges, st, 3000.0 - m)
  {
    hide WalkedWithin, OnFoot;
    if |edges| == 0 {
      NobodyWithin(g, st, 3000.0 - m);
    } else {
      var front, e := edges[..|edges| - 1], edges[|edges| - 1];
      assert edges == front + [e];
      WithinOneMore(g, front, e, st, 3000.0 - m);
      ApproachIsTheEnd(g, front, m + WalkedMetres(g, [e]), st);
      ApproachOneMore(g, front, e, m, st);
      if m >= 3000.0 {
        WalkedMetresNotNegative(g, [e]);
        TooLate(g, front, st, 3000.0 - m - WalkedMetres(g, [e]));
      }
    }
  }

  lemma ApproachOneMore(g: Graph, edges: seq<UsedEdge>, e: UsedEdge, m: real, st: nat)
    ensures m >= 3000.0 ==> Approach(g, Walked(g, edges + [e]), m) == {}
    ensures m < 3000.0 ==>
              (st in Approach(g, Walked(g, edges + [e]), m) <==>
                 || (OnFoot(g, e) && Travels(e, st))
                 || st in Approach(g, Walked(g, edges), m + WalkedMetres(g, [e])))
  {
    var all := edges + [e];
    assert all[..|all| - 1] == edges && [e][1..] == [];
    var w := Walked(g, all);
    if OnFoot(g, e) {
      assert w == Walked(g, edges) + [e.mv.e.st];
      assert w[..|w| - 1] == Walked(g, edges);
    } else {
      assert w == Walked(g, edges);
    }
  }

  lemma NobodyWithin(g: Graph, st: nat, metres: real)
    ensures !WalkedWithin(g, [], st, metres)
  {
  }

  lemma TooLate(g: Graph, edges: seq<UsedEdge>, st: nat, metres: real)
    requires NoNegativeLength(g) && metres <= 0.0
    ensures !WalkedWithin(g, edges, st, metres)
  {
    if WalkedWithin(g, edges, st, metres) {
      var i :| 0 <= i < |edges| && OnFoot(g, edges[i]) && Travels(edges[i], st)
               && WalkedMetres(g, edges[i + 1..]) < metres;
      WalkedMetresNotNegative(g, edges[i + 1..]);
    }
  }

  lemma {:induction false} ParkNodeIsTheLast(edges: seq<UsedEdge>, v: nat)
    ensures ParkNode(edges) == Some(v) <==> LeftLastAt(edges, v)
  {
    if |edges| > 0 {
      var front, e := edges[..|edges| - 1], edges[|edges| - 1];
      ParkNodeIsTheLast(front, v);
      if e.mv.Park? {
        assert edges[|front|].mv.Park?;
      } else {
        if LeftLastAt(front, v) {
          var i :| 0 <= i < |front| && front[i].mv.Park? && front[i].to.node == v
                   && forall j :: i < j < |front| ==> !front[j].mv.Park?;
          assert edges[i].mv.Park?;
        }
        if LeftLastAt(edges, v) {
          var i :| 0 <= i < |edges| && edges[i].mv.Park? && edges[i].to.node == v
                   && forall j :: i < j < |edges| ==> !edges[j].mv.Park?;
          assert front[i].mv.Park?;
        }
      }
    }
  }

  lemma {:induction false} TimesUsedSnoc(all: seq<Answer>, r: Answer, st: nat)
    ensures TimesUsed(all + [r], st) == TimesUsed(all, st) + (if st in UsedStretches(Flat(r.parts)) then 1 else 0)
  {
    if |all| == 0 {
      assert all + [r] == [r] && [r][1..] == [];
      var edges := Flat(r.parts);
      assert st in UsedStretches(edges) <==> exists i :: 0 <= i < |edges| && Travels(edges[i], st);
    } else {
      assert (all + [r])[1..] == all[1..] + [r];
      TimesUsedSnoc(all[1..], r, st);
    }
  }

  /** A stretch is in the table of a round if and only if an earlier answer travels it, at half as much again for
      each that does. */
  ghost predicate TableOf(all: seq<Answer>, stretch: map<nat, real>) {
    forall st :: (st in stretch <==> TimesUsed(all, st) > 0)
                 && (st in stretch ==> stretch[st] == HalfAgain(TimesUsed(all, st)))
  }

  lemma {:induction false} TablesCompound(g: Graph, tp: TripPlan, engineParks: bool, all: seq<Answer>, k: nat)
    requires k <= |all|
    ensures TableOf(all[..k], RoundPenalties(g, tp, engineParks, all, k).stretch)
  {
    if k > 0 {
      TablesCompound(g, tp, engineParks, all, k - 1);
      KeptSome(g, all[..k]);
      hide TableOf, KeptOf, NextPenalties, Penalise;
      var was, r := RoundPenalties(g, tp, engineParks, all, k - 1).stretch, all[k - 1];
      OneMorePenalised(all[..k - 1], r, was);
      assert all[..k] == all[..k - 1] + [r];
      TableAfter(g, tp, RoundPenalties(g, tp, engineParks, all, k - 1), engineParks, k - 1, r, KeptOf(g, all[..k]));
    }
  }

  lemma TableAfter(g: Graph, tp: TripPlan, pen: Penalties, engineParks: bool, round: nat, r: Answer, kept: seq<Answer>)
    requires pen.Penalties? && |kept| > 0
    ensures NextPenalties(g, tp, pen, engineParks, round, r, kept).Penalties?
    ensures NextPenalties(g, tp, pen, engineParks, round, r, kept).stretch
         == Penalise(pen.stretch, UsedStretches(Flat(r.parts)))
  {
  }

  lemma OneMorePenalised(all: seq<Answer>, r: Answer, was: map<nat, real>)
    requires TableOf(all, was)
    ensures TableOf(all + [r], Penalise(was, UsedStretches(Flat(r.parts))))
  {
    forall st: nat ensures TimesUsed(all + [r], st)
                        == TimesUsed(all, st) + (if st in UsedStretches(Flat(r.parts)) then 1 else 0) {
      TimesUsedSnoc(all, r, st);
    }
  }

  /** What the second round charges for besides: the last three kilometres of the first answer's walk, and its
      whole clock for parking near where it parked. */
  ghost predicate AnotherSide(g: Graph, first: Answer, pen: Penalties)
    requires pen.Penalties?
  {
    && (forall st :: st in pen.approach <==> WalkedWithin(g, Flat(first.parts), st, 3000.0))
    && (forall v :: 0 <= v < |g.pos| && LeftLastAt(Flat(first.parts), v) ==>
          pen.parkAt == [g.pos[v]] && pen.parkPen == first.seconds)
    && ((forall v :: 0 <= v < |g.pos| ==> !LeftLastAt(Flat(first.parts), v)) ==> pen.parkAt == [] && pen.parkPen == 0.0)
  }

  lemma SecondRoundAsks(g: Graph, tp: TripPlan, pen: Penalties, r: Answer)
    requires NoNegativeLength(g) && pen.Penalties? && |tp.plan| >= 2
    ensures NextPenalties(g, tp, pen, true, 0, r, [r]).Penalties?
    ensures AnotherSide(g, r, NextPenalties(g, tp, pen, true, 0, r, [r]))
  {
    hide Approach, Walked, ParkNode, LeftLastAt, WalkedWithin, NoNegativeLength, Penalise;
    var edges := Flat(r.parts);
    forall st: nat ensures st in Approach(g, Walked(g, edges), 0.0) <==> WalkedWithin(g, edges, st, 3000.0) {
      ApproachIsTheEnd(g, edges, 0.0, st);
    }
    forall v: nat ensures ParkNode(edges) == Some(v) <==> LeftLastAt(edges, v) { ParkNodeIsTheLast(edges, v); }
    var p := ParkNode(edges);
    assert [r][..0] == [];
    assert ParkPoints(g, [r]) == if p.Some? && p.value < |g.pos| then [g.pos[p.value]] else [];
    assert p.Some? ==> LeftLastAt(edges, p.value);
  }

  lemma OtherRoundsAskNothing(g: Graph, tp: TripPlan, pen: Penalties, engineParks: bool, round: nat, r: Answer,
      kept: seq<Answer>)
    requires pen.Penalties? && |kept| > 0 && !(round == 0 && |tp.plan| >= 2 && engineParks)
    ensures var next := NextPenalties(g, tp, pen, engineParks, round, r, kept);
      next.Penalties? && next.approach == {} && next.parkAt == [] && next.parkPen == 0.0
  {
  }

  /** What a round charges for, from the answers before it. Every round: half as much again on a stretch for each
      answer that travelled it. The second alone asks for another side of the mountain, when the engine chose the
      parking of a plan that switches. */
  lemma PenaltiesOfARound(w: World, tp: TripPlan, engineParks: bool, all: seq<Answer>, k: nat)
    requires Asked(w, tp) && k <= |all|
    ensures TableOf(all[..k], RoundPenalties(w.g, tp, engineParks, all, k).stretch)
    ensures var pen := RoundPenalties(w.g, tp, engineParks, all, k);
      if k == 1 && |tp.plan| >= 2 && engineParks then AnotherSide(w.g, all[0], pen)
      else pen.approach == {} && pen.parkAt == [] && pen.parkPen == 0.0
  {
    hide AnotherSide, NextPenalties, TableOf, KeptOf;
    TablesCompound(w.g, tp, engineParks, all, k);
    LengthsNotNegative(w, tp);
    hide Asked;
    if k > 0 {
      var kept, was := KeptOf(w.g, all[..k]), RoundPenalties(w.g, tp, engineParks, all, k - 1);
      KeptSome(w.g, all[..k]);
      if k == 1 && |tp.plan| >= 2 && engineParks {
        FirstIsKept(w.g, all);
        SecondRoundAsks(w.g, tp, was, all[0]);
      } else {
        OtherRoundsAskNothing(w.g, tp, was, engineParks, k - 1, all[k - 1], kept);
      }
    }
  }

  lemma FirstIsKept(g: Graph, all: seq<Answer>)
    requires |all| > 0
    ensures KeptOf(g, all[..1]) == [all[0]]
  {
    assert all[..1][..0] == [];
  }

  lemma LengthsNotNegative(w: World, tp: TripPlan)
    requires Asked(w, tp)
    ensures NoNegativeLength(w.g)
  {
  }

  // ------------------------------------------------------------------ what an offered answer adds

  /** The metres of an answer on stretches that an older one never travels. */
  function NewMetres(g: Graph, edges: seq<UsedEdge>, old_: seq<UsedEdge>): real {
    if |edges| == 0 then 0.0
    else
      var e := edges[0];
      (if !e.mv.Park? && e.mv.e.st < |g.stretches| && forall k :: 0 <= k < |old_| ==> !Travels(old_[k], e.mv.e.st)
       then g.stretches[e.mv.e.st].len else 0.0)
      + NewMetres(g, edges[1..], old_)
  }

  /** At least a fifth of what an answer travels is not in the earlier one. */
  predicate BringsAFifth(g: Graph, r: Answer, earlier: Answer) {
    var all := NewMetres(g, Flat(r.parts), []);
    all > 0.0 ==> 5.0 * NewMetres(g, Flat(r.parts), Flat(earlier.parts)) >= all
  }

  lemma {:induction false} NewMetresSnoc(g: Graph, edges: seq<UsedEdge>, e: UsedEdge, old_: seq<UsedEdge>)
    ensures NewMetres(g, edges + [e], old_) == NewMetres(g, edges, old_) + NewMetres(g, [e], old_)
  {
    if |edges| == 0 {
      assert edges + [e] == [e];
    } else {
      assert (edges + [e])[1..] == edges[1..] + [e];
      NewMetresSnoc(g, edges[1..], e, old_);
    }
  }

  lemma NewMetresOfOne(g: Graph, e: UsedEdge, old_: seq<UsedEdge>)
    ensures NewMetres(g, [e], old_) ==
              if !e.mv.Park? && e.mv.e.st < |g.stretches| && e.mv.e.st !in UsedStretches(old_)
              then g.stretches[e.mv.e.st].len else 0.0
  {
    assert [e][1..] == [];
    if !e.mv.Park? {
      assert e.mv.e.st in UsedStretches(old_) <==> exists k :: 0 <= k < |old_| && Travels(old_[k], e.mv.e.st);
    }
  }

  /** Shared and new metres are all there are. */
  lemma {:induction false} SharedAndNew(g: Graph, edges: seq<UsedEdge>, old_: seq<UsedEdge>)
    ensures SharedMetres(g, edges, UsedStretches(old_)) + NewMetres(g, edges, old_) == Metres(g, edges)
  {
    if |edges| > 0 {
      var front, last := edges[..|edges| - 1], edges[|edges| - 1];
      assert edges == front + [last];
      SharedAndNew(g, front, old_);
      NewMetresSnoc(g, front, last, old_);
      NewMetresOfOne(g, last, old_);
    }
  }

  lemma {:induction false} NothingSharedWithNothing(g: Graph, edges: seq<UsedEdge>)
    ensures SharedMetres(g, edges, {}) == 0.0
  {
    if |edges| > 0 { NothingSharedWithNothing(g, edges[..|edges| - 1]); }
  }

  /** What is dropped as the same line is what brings less than a fifth. */
  lemma SameLineBringsLittle(g: Graph, r: Answer, earlier: Answer)
    ensures SameLine(g, r, earlier) <==> !BringsAFifth(g, r, earlier)
  {
    var edges, old_ := Flat(r.parts), Flat(earlier.parts);
    SharedAndNew(g, edges, old_);
    SharedAndNew(g, edges, []);
    assert UsedStretches([]) == {};
    NothingSharedWithNothing(g, edges);
    var m := Metres(g, edges);
    if m > 0.0 { MoreThanFourFifths(SharedMetres(g, edges, UsedStretches(old_)), m); }
  }

  lemma MoreThanFourFifths(shared: real, m: real)
    requires m > 0.0
    ensures shared / m > 0.8 <==> 5.0 * (m - shared) < m
  {
    var q := shared / m;
    assert q * m == shared;
    if q > 0.8 { assert (q - 0.8) * m > 0.0; } else { assert (0.8 - q) * m >= 0.0; }
  }

  /** An answer that brings a fifth travels somewhere the earlier one never does. */
  lemma {:induction false} NewMetresAreSomewhere(g: Graph, edges: seq<UsedEdge>, old_: seq<UsedEdge>) returns (i: nat)
    requires NewMetres(g, edges, old_) > 0.0
    ensures i < |edges| && !edges[i].mv.Park? && forall k :: 0 <= k < |old_| ==> !Travels(old_[k], edges[i].mv.e.st)
  {
    var e := edges[0];
    if !e.mv.Park? && e.mv.e.st < |g.stretches| && forall k :: 0 <= k < |old_| ==> !Travels(old_[k], e.mv.e.st) {
      i := 0;
    } else {
      i := NewMetresAreSomewhere(g, edges[1..], old_);
      i := i + 1;
    }
  }

  /** Some stretch is travelled by the one answer and never by the other. */
  ghost predicate GoesElsewhere(r: Answer, earlier: Answer) {
    var edges, old_ := Flat(r.parts), Flat(earlier.parts);
    exists i :: 0 <= i < |edges| && !edges[i].mv.Park?
                && forall k :: 0 <= k < |old_| ==> !Travels(old_[k], edges[i].mv.e.st)
  }

  lemma AFifthIsElsewhere(g: Graph, r: Answer, earlier: Answer)
    requires BringsAFifth(g, r, earlier) && NewMetres(g, Flat(r.parts), []) > 0.0
    ensures GoesElsewhere(r, earlier)
  {
    var i := NewMetresAreSomewhere(g, Flat(r.parts), Flat(earlier.parts));
  }

  /** routes are, in their order, the answers of the rounds picks, the first round's at their head, and each brings
      a fifth against each before it. */
  ghost predicate Picked(g: Graph, all: seq<Answer>, routes: seq<Answer>, picks: seq<nat>) {
    && |picks| == |routes| && (|all| > 0 ==> |picks| > 0 && picks[0] == 0)
    && (forall i :: 0 <= i < |picks| ==> picks[i] < |all| && routes[i] == all[picks[i]])
    && forall i, j :: 0 <= i < j < |picks| ==> picks[i] < picks[j] && BringsAFifth(g, routes[j], routes[i])
  }

  /** Some answer offered before round n leaves less than a fifth of its answer new. */
  ghost predicate Repeats(g: Graph, all: seq<Answer>, picks: seq<nat>, n: nat)
    requires n < |all|
  {
    exists i :: 0 <= i < |picks| && picks[i] < n && !BringsAFifth(g, all[n], all[picks[i]])
  }

  /** Which answers of the rounds are offered: the first, and in their order those that bring a fifth against each
      offered before; picks are the rounds they are of. */
  ghost predicate Offered(g: Graph, all: seq<Answer>, routes: seq<Answer>, picks: seq<nat>) {
    && Picked(g, all, routes, picks)
    && forall n :: 0 <= n < |all| ==> n in picks || Repeats(g, all, picks, n)
  }

  lemma OneMorePicked(g: Graph, all: seq<Answer>, routes: seq<Answer>, picks: seq<nat>, r: Answer)
    requires Picked(g, all, routes, picks)
    requires forall j :: 0 <= j < |routes| ==> BringsAFifth(g, r, routes[j])
    ensures Picked(g, all + [r], routes + [r], picks + [|all|])
  {
    hide BringsAFifth;
    var routes', picks' := routes + [r], picks + [|all|];
    forall i, j | 0 <= i < j < |picks'| ensures picks'[i] < picks'[j] && BringsAFifth(g, routes'[j], routes'[i]) {
      assert picks'[i] == picks[i] && routes'[i] == routes[i];
      if j < |picks| { assert picks'[j] == picks[j] && routes'[j] == routes[j]; }
    }
  }

  lemma StillRepeats(g: Graph, all: seq<Answer>, routes: seq<Answer>, picks: seq<nat>, r: Answer, more: seq<nat>,
      n: nat)
    requires Picked(g, all, routes, picks) && n < |all| && Repeats(g, all, picks, n)
    ensures Repeats(g, all + [r], picks + more, n)
  {
    hide BringsAFifth;
    var i :| 0 <= i < |picks| && picks[i] < n && !BringsAFifth(g, all[n], all[picks[i]]);
    assert (picks + more)[i] == picks[i] && (all + [r])[picks[i]] == all[picks[i]];
  }

  lemma OneMoreOffered(g: Graph, all: seq<Answer>, routes: seq<Answer>, picks: seq<nat>, r: Answer)
    requires Offered(g, all, routes, picks)
    requires forall j :: 0 <= j < |routes| ==> BringsAFifth(g, r, routes[j])
    ensures Offered(g, all + [r], routes + [r], picks + [|all|])
  {
    hide BringsAFifth, Picked, Repeats;
    OneMorePicked(g, all, routes, picks, r);
    var picks' := picks + [|all|];
    forall n | 0 <= n < |all| + 1 ensures n in picks' || Repeats(g, all + [r], picks', n) {
      if n == |all| { assert picks'[|picks|] == n; }
      else if n !in picks { StillRepeats(g, all, routes, picks, r, [|all|], n); }
    }
  }

  lemma OneMoreDropped(g: Graph, all: seq<Answer>, routes: seq<Answer>, picks: seq<nat>, r: Answer, j: nat)
    requires Offered(g, all, routes, picks)
    requires j < |routes| && !BringsAFifth(g, r, routes[j])
    ensures Offered(g, all + [r], routes, picks)
  {
    hide BringsAFifth, Repeats;
    var all' := all + [r];
    forall n | 0 <= n < |all'| ensures n in picks || Repeats(g, all', picks, n) {
      if n == |all| {
        assert Repeats(g, all', picks, n) by { DropsAt(g, all, routes, picks, r, j); }
      } else if n !in picks {
        StillRepeats(g, all, routes, picks, r, [], n);
        assert picks + [] == picks;
      }
    }
  }

  lemma DropsAt(g: Graph, all: seq<Answer>, routes: seq<Answer>, picks: seq<nat>, r: Answer, j: nat)
    requires Picked(g, all, routes, picks) && j < |routes| && !BringsAFifth(g, r, routes[j])
    ensures Repeats(g, all + [r], picks, |all|)
  {
    hide BringsAFifth;
    assert picks[j] < |all| && (all + [r])[picks[j]] == routes[j];
  }

  lemma NothingOffered(g: Graph)
    ensures Offered(g, [], KeptOf(g, []), [])
  {
  }

  lemma {:induction false} KeptAreOffered(g: Graph, all: seq<Answer>) returns (picks: seq<nat>)
    ensures Offered(g, all, KeptOf(g, all), picks)
  {
    hide BringsAFifth, SameLine, Offered;
    if |all| == 0 {
      NothingOffered(g);
      picks := [];
    } else {
      var front, r := all[..|all| - 1], all[|all| - 1];
      var kept := KeptOf(g, front);
      picks := KeptAreOffered(g, front);
      assert all == front + [r];
      forall j | 0 <= j < |kept| ensures SameLine(g, r, kept[j]) <==> !BringsAFifth(g, r, kept[j]) {
        SameLineBringsLittle(g, r, kept[j]);
      }
      if forall j :: 0 <= j < |kept| ==> !SameLine(g, r, kept[j]) {
        OneMoreOffered(g, front, kept, picks, r);
        picks := picks + [|front|];
      } else {
        var j :| 0 <= j < |kept| && SameLine(g, r, kept[j]);
        OneMoreDropped(g, front, kept, picks, r, j);
      }
    }
  }

  /** The penalty rounds of Route: what is kept of the answers of its rounds, each found under the penalties
      its predecessors add up to; at most want, each a fifth of its own way against every one before it, and
      none left out that would be; in a ramp-free graph none travels for fewer seconds than the first. */
  method Rounds(w: World, tp: TripPlan, want: nat, engineParks: bool)
      returns (routes: seq<Answer>, st: Stats, ghost all: seq<Answer>, ghost picks: seq<nat>)
    requires Asked(w, tp) && 1 <= want
    ensures |routes| <= want && routes == KeptOf(w.g, all) && Offered(w.g, all, routes, picks)
    ensures forall j, k :: 0 <= j < k < |routes| && NewMetres(w.g, Flat(routes[k].parts), []) > 0.0 ==>
              GoesElsewhere(routes[k], routes[j])
    ensures RoundsOk(w, tp, engineParks, all) && |all| <= want + 2
    ensures |all| == want + 2 || |routes| == want
            || Unanswered(w, tp, RoundPenalties(w.g, tp, engineParks, all, |all|), st.refused)
    ensures RampFree(w.g) && PlansKnown(tp) ==>
              forall k :: 0 <= k < |routes| ==> MoveSeconds(routes[0]) <= MoveSeconds(routes[k])
    ensures RampFree(w.g) && PlansKnown(tp) && (tp.parkSeg >= 1 ==> OneModeEach(tp) && !tp.lifts) ==>
              forall k :: 0 <= k < |routes| ==> routes[0].seconds <= routes[k].seconds
  {
    hide AnswerOk, Unanswered, Asked, RampFree, PlansKnown, SameLine, NextPenalties, MoveSeconds, OneModeEach,
        KeptOf, RoundsOk, BringsAFifth, GoesElsewhere, Repeats;
    routes, st, all, picks := [], Stats(0, Refusals(false, 0)), [], [];
    assert KeptOf(w.g, []) == [] && RoundsOk(w, tp, engineParks, []) by { NoRoundsYet(w, tp, engineParks); }
    var pen := UNPENALISED;
    var round := 0;
    while round < want + 2 && |routes| < want
      invariant round == |all| <= want + 2 && |routes| <= want
      invariant routes == KeptOf(w.g, all) && RoundsOk(w, tp, engineParks, all)
      invariant |routes| < want ==> pen == RoundPenalties(w.g, tp, engineParks, all, |all|)
      invariant st.refused.gradeSkipped >= 0
      decreases want + 2 - round
    {
      RoundPenaltiesAreValid(w.g, tp, engineParks, all, |all|);
      var r;
      r, st := Plan(w, tp, pen, st);
      if r.None? { break; }
      OneRoundMore(w, tp, engineParks, all, r.value);
      ghost var before := all;
      all := all + [r.value];
      assert all[..|all|] == all;
      RoundsDoNotLookAhead(w.g, tp, engineParks, before, r.value, round);
      var keep := forall j :: 0 <= j < |routes| ==> !SameLine(w.g, r.value, routes[j]);
      if keep { routes := routes + [r.value]; }
      if |routes| < want {
        KeptSome(w.g, all);
        pen := NextPenalties(w.g, tp, pen, engineParks, round, r.value, routes);
      }
      round := round + 1;
    }
    picks := KeptAreOffered(w.g, all);
    forall j, k | 0 <= j < k < |routes| && NewMetres(w.g, Flat(routes[k].parts), []) > 0.0
      ensures GoesElsewhere(routes[k], routes[j])
    {
      AFifthIsElsewhere(w.g, routes[k], routes[j]);
    }
    FirstIsFastest(w, tp, engineParks, all);
  }

  lemma NoRoundsYet(w: World, tp: TripPlan, engineParks: bool)
    requires Asked(w, tp)
    ensures KeptOf(w.g, []) == [] && RoundsOk(w, tp, engineParks, [])
  {
  }

  lemma {:induction false} KeptAreAnswers(g: Graph, all: seq<Answer>, r: Answer) returns (k: nat)
    requires r in KeptOf(g, all)
    ensures k < |all| && all[k] == r
  {
    k := |all| - 1;
    if r != all[k] { k := KeptAreAnswers(g, all[..|all| - 1], r); }
  }

  lemma FirstIsFastest(w: World, tp: TripPlan, engineParks: bool, all: seq<Answer>)
    requires Asked(w, tp) && RoundsOk(w, tp, engineParks, all)
    ensures RampFree(w.g) && PlansKnown(tp) ==>
              forall k :: 0 <= k < |KeptOf(w.g, all)| ==>
                MoveSeconds(KeptOf(w.g, all)[0]) <= MoveSeconds(KeptOf(w.g, all)[k])
    ensures RampFree(w.g) && PlansKnown(tp) && (tp.parkSeg >= 1 ==> OneModeEach(tp) && !tp.lifts) ==>
              forall k :: 0 <= k < |KeptOf(w.g, all)| ==>
                KeptOf(w.g, all)[0].seconds <= KeptOf(w.g, all)[k].seconds
  {
    hide AnswerOk, Asked, RampFree, PlansKnown, MoveSeconds, OneModeEach, KeptOf, RoundPenalties;
    var routes := KeptOf(w.g, all);
    if RampFree(w.g) && PlansKnown(tp) {
      forall k | 0 <= k < |routes|
        ensures MoveSeconds(routes[0]) <= MoveSeconds(routes[k])
        ensures (tp.parkSeg >= 1 ==> OneModeEach(tp) && !tp.lifts) ==> routes[0].seconds <= routes[k].seconds
      {
        var j := KeptAreAnswers(w.g, all, routes[k]);
        KeptSome(w.g, all);
        RoundPenaltiesAreValid(w.g, tp, engineParks, all, 0);
        var pen, later := RoundPenalties(w.g, tp, engineParks, all, 0), RoundPenalties(w.g, tp, engineParks, all, j);
        NoLaterRoundMovesFaster(w, tp, pen, later, routes[0], routes[k]);
        if tp.parkSeg >= 1 ==> OneModeEach(tp) && !tp.lifts {
          NoLaterRoundIsShorter(w, tp, pen, later, routes[0], routes[k]);
        }
      }
    }
  }

  // ------------------------------------------------------------------ answering is a matter of walks

  lemma SameWalks(w: World, tp: TripPlan, i: nat, plan: seq<Mode>, pen: Penalties, other: Penalties, ms: seq<Move>)
    requires Asked(w, tp) && i + 1 < |tp.nodes| && |plan| > 0
    ensures w.g.Valid()
    ensures var s, t := PairTask(w, tp, i, plan, pen), PairTask(w, tp, i, plan, other);
      LegalWalk(s.g, s.q, s.start, ms) ==> LegalWalk(t.g, t.q, t.start, ms)
  {
    BuiltIsValid(w.g, w.base, w.near, w.hyp);
    var s := PairTask(w, tp, i, plan, pen);
    if LegalWalk(s.g, s.q, s.start, ms) { LegalWhateverThePenalty(s.g, s.q, other, s.start, ms); }
  }

  lemma PairOkIsAnswerable(w: World, tp: TripPlan, pen: Penalties, i: nat, part: seq<UsedEdge>)
    requires Asked(w, tp) && i + 1 < |tp.nodes| && PairOk(w, tp, pen, i, KnownPlan(tp, i), part)
    ensures PairAnswerable(w, tp, i)
  {
    if Searched(tp, i) { SameWalks(w, tp, i, KnownPlan(tp, i), pen, NoPenalty, MovesOf(part)); }
  }

  /** A planned trip that was answered can be answered. */
  lemma AnsweredIsAnswerable(w: World, tp: TripPlan, pen: Penalties, a: Answer)
    requires Asked(w, tp) && PlansKnown(tp) && AnswerOk(w, tp, pen, a)
    ensures Answerable(w, tp)
  {
    LegsTravel(w.g, a.legs);
    var i := SomePartTravels(a.parts);
    assert tp.nodes[i] != tp.nodes[i + 1] by { assert PairOk(w, tp, pen, i, PlanFor(w.g, tp, a.parts, i), a.parts[i]); }
    hide Asked, PairOk, PairAnswerable, PlansKnown, Gathered;
    forall i | 0 <= i < |tp.nodes| - 1 ensures PairAnswerable(w, tp, i) {
      KnownPairs(w, tp, pen, a.parts, i);
      PairOkIsAnswerable(w, tp, pen, i, a.parts[i]);
    }
  }

  lemma LegsTravel(g: Graph, legs: seq<Leg>)
    requires |legs| > 0 && forall k :: 0 <= k < |legs| ==> LegOk(g, legs[k])
    ensures LegEdges(legs) != []
  {
    assert LegOk(g, legs[|legs| - 1]);
  }

  lemma {:induction false} SomePartTravels(parts: seq<seq<UsedEdge>>) returns (i: nat)
    requires Travelled(Flat(parts)) != []
    ensures i < |parts| && parts[i] != []
  {
    i := |parts| - 1;
    if parts[i] == [] {
      assert Flat(parts[..i]) + [] == Flat(parts[..i]);
      i := SomePartTravels(parts[..i]);
    }
  }

  /** And one that was not, cannot. */
  lemma UnansweredIsNotAnswerable(w: World, tp: TripPlan, pen: Penalties, st: Refusals)
    requires Asked(w, tp) && PlansKnown(tp) && Unanswered(w, tp, pen, st)
    ensures !Answerable(w, tp)
  {
    if parts :| FailsAfter(w, tp, pen, parts, st) {
      CarriedIsKnown(w.g, tp, parts, |parts|);
      FailedIsNotAnswerable(w, tp, pen, |parts|, st);
      assert !PairAnswerable(w, tp, |parts|);
    }
  }

  lemma FailedIsNotAnswerable(w: World, tp: TripPlan, pen: Penalties, i: nat, st: Refusals)
    requires Asked(w, tp) && FailedAt(w, tp, pen, i, KnownPlan(tp, i), st)
    ensures !PairAnswerable(w, tp, i)
  {
    BuiltIsValid(w.g, w.base, w.near, w.hyp);
    var t := PairTask(w, tp, i, KnownPlan(tp, i), NoPenalty);
    forall ms | LegalWalk(t.g, t.q, t.start, ms) ensures End(t.start, ms).node != t.to {
      SameWalks(w, tp, i, KnownPlan(tp, i), NoPenalty, pen, ms);
    }
  }

  // ------------------------------------------------------------------ harder grades

  lemma HarderIsAsked(w: World, tp: TripPlan, harder: int)
    requires Asked(w, tp) && tp.grade <= harder
    ensures Asked(w, AtGrade(tp, harder)) && (PlansKnown(AtGrade(tp, harder)) <==> PlansKnown(tp))
  {
    hide World.Valid;
  }

  lemma HarderPairIsAnswerable(w: World, tp: TripPlan, harder: int, i: nat)
    requires Asked(w, tp) && Asked(w, AtGrade(tp, harder)) && tp.grade <= harder && i < |tp.nodes| - 1
    requires PairAnswerable(w, tp, i)
    ensures PairAnswerable(w, AtGrade(tp, harder), i)
  {
    var hp := AtGrade(tp, harder);
    if Searched(hp, i) {
      BuiltIsValid(w.g, w.base, w.near, w.hyp);
      var t := PairTask(w, tp, i, KnownPlan(tp, i), NoPenalty);
      var ms :| LegalWalk(t.g, t.q, t.start, ms) && End(t.start, ms).node == t.to;
      HarderGradeKeepsWalks(t.g, t.q, harder, t.start, ms);
      var ht := PairTask(w, hp, i, KnownPlan(hp, i), NoPenalty);
      assert ht.q == t.q.(grade := harder);
      assert LegalWalk(ht.g, ht.q, ht.start, ms) && End(ht.start, ms).node == ht.to;
    }
  }

  /** A planned trip that can be answered at a grade can be answered at every harder one. */
  lemma HarderIsAnswerable(w: World, tp: TripPlan, harder: int)
    requires Asked(w, tp) && tp.grade <= harder && Answerable(w, tp)
    ensures Asked(w, AtGrade(tp, harder)) && Answerable(w, AtGrade(tp, harder))
  {
    hide World.Valid;
    HarderIsAsked(w, tp, harder);
    hide Asked, PairAnswerable;
    forall i | 0 <= i < |tp.nodes| - 1 ensures PairAnswerable(w, AtGrade(tp, harder), i) {
      HarderPairIsAnswerable(w, tp, harder, i);
    }
  }

  /** In a ramp-free graph its travelling seconds do not grow with the grade. */
  lemma HarderMovesNoSlower(w: World, tp: TripPlan, harder: int, a: Answer, b: Answer)
    requires Asked(w, tp) && RampFree(w.g) && PlansKnown(tp) && tp.grade <= harder && Asked(w, AtGrade(tp, harder))
    requires AnswerOk(w, tp, NoPenalty, a) && AnswerOk(w, AtGrade(tp, harder), NoPenalty, b)
    ensures MoveSeconds(b) <= MoveSeconds(a)
  {
    var hp := AtGrade(tp, harder);
    assert |a.parts| == |b.parts| == |tp.nodes| - 1;
    hide Asked, PairOk, Gathered, RampFree, Seconds, Flat;
    forall i | 0 <= i < |a.parts| ensures Seconds(b.parts[i]) <= Seconds(a.parts[i]) {
      KnownPairs(w, tp, NoPenalty, a.parts, i);
      KnownPairs(w, hp, NoPenalty, b.parts, i);
      HarderPairIsNoSlower(w, tp, harder, i, a.parts[i], b.parts[i]);
    }
    FlatSeconds(b.parts, a.parts);
  }

  lemma HarderPairIsNoSlower(w: World, tp: TripPlan, harder: int, i: nat, a: seq<UsedEdge>, b: seq<UsedEdge>)
    requires Asked(w, tp) && RampFree(w.g) && tp.grade <= harder && Asked(w, AtGrade(tp, harder)) && i + 1 < |tp.nodes|
    requires PairOk(w, tp, NoPenalty, i, KnownPlan(tp, i), a)
    requires PairOk(w, AtGrade(tp, harder), NoPenalty, i, KnownPlan(tp, i), b)
    ensures Seconds(b) <= Seconds(a)
  {
    if !Searched(tp, i) { return; }
    BuiltIsValid(w.g, w.base, w.near, w.hyp);
    var plan := KnownPlan(tp, i);
    var s, t := PairTask(w, tp, i, plan, NoPenalty), PairTask(w, AtGrade(tp, harder), i, plan, NoPenalty);
    BoundDoesNotMatter(t, s.(q := s.q.(grade := harder)), b);
    HarderGradeIsNoDearer(s, harder, a, b);
    NeutralCostIsClock(s.g, s.q, Fresh, s.start, MovesOf(a));
    NeutralCostIsClock(s.g, s.q, Fresh, s.start, MovesOf(b));
    RecordedIsClock(s.g, Fresh, s.start, a);
    RecordedIsClock(s.g, Fresh, s.start, b);
  }

  /** Where nothing is a ferrata, a planned trip that failed has noted a refused grade if some harder
      grade would have done. */
  lemma FailedTripNotesTheGrade(w: World, tp: TripPlan, pen: Penalties, harder: int, st: Refusals)
    requires Asked(w, tp) && PlansKnown(tp) && NoFerrata(w.g) && Unanswered(w, tp, pen, st)
    requires Asked(w, AtGrade(tp, harder)) && Answerable(w, AtGrade(tp, harder))
    ensures st.gradeSkipped > 0
  {
    if parts :| FailsAfter(w, tp, pen, parts, st) {
      CarriedIsKnown(w.g, tp, parts, |parts|);
      FailedPairNotesTheGrade(w, tp, pen, harder, |parts|, st);
    }
  }

  lemma FailedPairNotesTheGrade(w: World, tp: TripPlan, pen: Penalties, harder: int, i: nat, st: Refusals)
    requires Asked(w, tp) && NoFerrata(w.g) && FailedAt(w, tp, pen, i, KnownPlan(tp, i), st)
    requires Asked(w, AtGrade(tp, harder)) && PairAnswerable(w, AtGrade(tp, harder), i)
    ensures st.gradeSkipped > 0
  {
    var hp, plan := AtGrade(tp, harder), KnownPlan(tp, i);
    BuiltIsValid(w.g, w.base, w.near, w.hyp);
    assert Searched(hp, i);
    var t := PairTask(w, hp, i, plan, NoPenalty);
    var ms :| LegalWalk(t.g, t.q, t.start, ms) && End(t.start, ms).node == t.to;
    SameWalks(w, hp, i, plan, NoPenalty, pen, ms);
    FailureNotesTheGrade(PairTask(w, tp, i, plan, pen), harder, ms, st);
  }

  /** No grade from tp's own up to h answers it. */
  ghost predicate NoneUpTo(w: World, tp: TripPlan, h: int)
    requires Asked(w, tp)
  {
    forall g :: tp.grade <= g <= h ==> Asked(w, AtGrade(tp, g)) && !Answerable(w, AtGrade(tp, g))
  }

  /** The trip was asked for at grade g, and some round of these penalties found nothing. */
  ghost predicate FailsAt(w: World, tp: TripPlan, pen: Penalties, g: int) {
    Asked(w, AtGrade(tp, g)) && exists st :: Unanswered(w, AtGrade(tp, g), pen, st)
  }

  /** The trip was answered there. */
  ghost predicate AnsweredAt(w: World, tp: TripPlan, g: int) {
    Asked(w, AtGrade(tp, g)) && exists a :: AnswerOk(w, AtGrade(tp, g), NoPenalty, a)
  }

  /** Of a planned trip that says which grades can be answered at all. */
  lemma KnownFailure(w: World, tp: TripPlan, pen: Penalties, g: int)
    requires Asked(w, tp) && PlansKnown(tp) && tp.grade <= g && FailsAt(w, tp, pen, g)
    ensures Asked(w, AtGrade(tp, g)) && !Answerable(w, AtGrade(tp, g))
  {
    HarderIsAsked(w, tp, g);
    hide Asked, PlansKnown, Unanswered, Answerable;
    var st :| Unanswered(w, AtGrade(tp, g), pen, st);
    UnansweredIsNotAnswerable(w, AtGrade(tp, g), pen, st);
  }

  lemma KnownAnswer(w: World, tp: TripPlan, g: int)
    requires Asked(w, tp) && PlansKnown(tp) && tp.grade <= g && AnsweredAt(w, tp, g)
    ensures Answerable(w, AtGrade(tp, g))
  {
    HarderIsAsked(w, tp, g);
    hide Asked, PlansKnown, AnswerOk, Answerable;
    var a :| AnswerOk(w, AtGrade(tp, g), NoPenalty, a);
    AnsweredIsAnswerable(w, AtGrade(tp, g), NoPenalty, a);
  }

  /** The harder grades tried one by one: the first at which the trip is answered. */
  method TryHarder(w: World, tp: TripPlan) returns (needed: Option<int>)
    requires Asked(w, tp)
    ensures needed.Some? ==> tp.grade < needed.value <= 5 && AnsweredAt(w, tp, needed.value)
    ensures forall g :: tp.grade < g <= 5 && (needed.Some? ==> g < needed.value) ==> FailsAt(w, tp, NoPenalty, g)
  {
    hide Unanswered, AnswerOk, World.Valid, Asked;
    var nothing := Stats(0, Refusals(false, 0));
    var harder := tp.grade + 1;
    while harder <= 5
      invariant tp.grade < harder && forall g :: tp.grade < g < harder ==> FailsAt(w, tp, NoPenalty, g)
      decreases 5 - harder
    {
      HarderIsAsked(w, tp, harder);
      var r, st := Plan(w, AtGrade(tp, harder), NoPenalty, nothing);
      if r.Some? { return Some(harder); }
      assert Unanswered(w, AtGrade(tp, harder), NoPenalty, st.refused);
      harder := harder + 1;
    }
    needed := None;
  }

  /** What Route offers when the trip failed: with an avoid list that names what it is missing, nothing;
      otherwise, if a grade was refused on the way, the easiest harder grade that answers. Offered or not, every
      grade passed over fails: of any trip in some round, and of a planned trip because it cannot be answered. */
  method NeededGrade(w: World, tp: TripPlan, ghost pen: Penalties, st: Stats, named: bool) returns (needed: Option<int>)
    requires Asked(w, tp) && Unanswered(w, tp, pen, st.refused)
    ensures needed.Some? ==> tp.grade < needed.value <= 5 && AnsweredAt(w, tp, needed.value)
    ensures needed.Some? ==> forall g :: tp.grade < g < needed.value ==> FailsAt(w, tp, NoPenalty, g)
    ensures needed.Some? && PlansKnown(tp) ==>
              Answerable(w, AtGrade(tp, needed.value)) && NoneUpTo(w, tp, needed.value - 1)
    ensures needed.None? && tp.avoid == {} && NoFerrata(w.g) && pen.Valid() ==>
              forall g :: tp.grade < g <= 5 ==> FailsAt(w, tp, NoPenalty, g) || FailsAt(w, tp, pen, g)
    ensures needed.None? && PlansKnown(tp) && tp.avoid == {} && NoFerrata(w.g) ==> NoneUpTo(w, tp, 5)
  {
    hide Unanswered, AnswerOk, World.Valid, NoFerrata, Answerable, PlansKnown;
    needed := None;
    if tp.avoid != {} {
      var free, _ := Plan(w, tp.(avoid := {}), NoPenalty, Stats(0, Refusals(false, 0)));
      if free.Some? && named { return; }
    }
    if st.refused.gradeSkipped > 0 {
      needed := TryHarder(w, tp);
      PassedOver(w, tp, pen, st.refused, needed);
    } else {
      NothingRefused(w, tp, pen, st.refused);
    }
  }

  /** What the grades tried and passed over say of a planned trip. */
  lemma PassedOver(w: World, tp: TripPlan, pen: Penalties, st: Refusals, needed: Option<int>)
    requires Asked(w, tp) && Unanswered(w, tp, pen, st)
    requires needed.Some? ==> tp.grade < needed.value <= 5 && AnsweredAt(w, tp, needed.value)
    requires forall g :: tp.grade < g <= 5 && (needed.Some? ==> g < needed.value) ==> FailsAt(w, tp, NoPenalty, g)
    ensures PlansKnown(tp) && needed.Some? ==>
              Answerable(w, AtGrade(tp, needed.value)) && NoneUpTo(w, tp, needed.value - 1)
    ensures PlansKnown(tp) && needed.None? ==> NoneUpTo(w, tp, 5)
  {
    hide Unanswered, Answerable, PlansKnown, Asked, AnsweredAt;
    if PlansKnown(tp) {
      assert AtGrade(tp, tp.grade) == tp;
      assert FailsAt(w, tp, pen, tp.grade);
      hide FailsAt;
      KnownFailure(w, tp, pen, tp.grade);
      forall g | tp.grade < g <= 5 && (needed.Some? ==> g < needed.value)
        ensures Asked(w, AtGrade(tp, g)) && !Answerable(w, AtGrade(tp, g))
      {
        KnownFailure(w, tp, NoPenalty, g);
      }
      if needed.Some? { KnownAnswer(w, tp, needed.value); }
    }
  }

  /** Where nothing was refused, no harder grade would have done. */
  lemma NothingRefused(w: World, tp: TripPlan, pen: Penalties, st: Refusals)
    requires Asked(w, tp) && Unanswered(w, tp, pen, st) && st.gradeSkipped <= 0
    ensures NoFerrata(w.g) && pen.Valid() ==> forall g :: tp.grade < g ==> FailsAt(w, tp, pen, g)
    ensures NoFerrata(w.g) && PlansKnown(tp) ==> NoneUpTo(w, tp, 5)
  {
    hide Unanswered, World.Valid, NoFerrata, Answerable, PlansKnown, Asked;
    if NoFerrata(w.g) && pen.Valid() {
      forall g | tp.grade < g ensures FailsAt(w, tp, pen, g) {
        HarderIsAsked(w, tp, g);
        SilentTripStaysFailed(w, tp, g, pen, st);
      }
    }
    if NoFerrata(w.g) && PlansKnown(tp) {
      forall h | tp.grade <= h <= 5 ensures Asked(w, AtGrade(tp, h)) && !Answerable(w, AtGrade(tp, h)) {
        HarderIsAsked(w, tp, h);
        if Answerable(w, AtGrade(tp, h)) { FailedTripNotesTheGrade(w, tp, pen, h, st); }
      }
    }
  }
}
