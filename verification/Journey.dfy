/** What a walk may do, said of the map itself: the stretches, their ends and classes, the request. The search asks
    its layers instead (internal/route/graph.go:224-318, 335-442; internal/route/search.go:404-461). */
module Journey {
  import opened Roads
  import opened Moves
  import opened Network

  /** The grade a walker must ask for: the stretch's own, the SAT one before the map's; the sixth comes with the
      fifth, a via ferrata not before the fourth. Beyond the sixth nothing opens a stretch. */
  predicate Opens(st: Stretch, grade: int) {
    var own := if st.satGrade > 0 then st.satGrade else st.sac;
    own <= 6 && (own <= grade || (own == 6 && grade == 5)) && (st.ferrata ==> grade >= 4)
  }

  /** At place i the plan turns from m to nm, and it does not turn from m again. */
  predicate TurnsAt(plan: seq<Mode>, m: Mode, nm: Mode, i: nat) {
    i + 1 < |plan| && plan[i] == m && plan[i + 1] == nm && m !in plan[i + 1..|plan| - 1]
  }

  /** The plan goes on from m with nm. */
  predicate GoesOnWith(plan: seq<Mode>, m: Mode, nm: Mode) {
    exists i :: 0 <= i < |plan| && TurnsAt(plan, m, nm, i)
  }

  /** Some stretch that the old mode may not use leads on from here in the new one. */
  ghost predicate IsTrailhead(base: seq<Stretch>, m: Mode, nm: Mode, v: nat) {
    exists e :: IsWay(base, nm, v, e) && !Usable(m, base[e.st])
  }

  /** What a traveller at s may do next under a request. */
  ghost predicate MayMove(g: Graph, base: nat, near: nat -> Option<Landing>, q: Query, s: State, mv: Move)
    requires base <= |g.stretches|
  {
    s.node < g.n && s.mode in q.plan &&
    match mv
    case Along(e) =>
      IsWay(g.stretches[..base], s.mode, s.node, e) && e.st !in q.avoid
      && (s.mode == Hike ==> Opens(g.stretches[e.st], q.grade))
    case Board(e) =>
      q.lifts && s.mode == Hike && e.st !in q.avoid
      && (IsRide(g.stretches[..base], s.node, e) || IsLinkWalk(near, g.stretches, base, s.node, e))
    case Park(nm) => GoesOnWith(q.plan, s.mode, nm) && IsTrailhead(g.stretches[..base], s.mode, nm, s.node)
  }

  lemma GoesOnTail(plan: seq<Mode>, m: Mode, nm: Mode)
    requires |plan| >= 2
    ensures GoesOnWith(plan[1..], m, nm) ==> GoesOnWith(plan, m, nm) && m in plan[1..|plan| - 1]
    ensures GoesOnWith(plan, m, nm) ==> GoesOnWith(plan[1..], m, nm) || TurnsAt(plan, m, nm, 0)
  {
    var rest := plan[1..];
    if GoesOnWith(rest, m, nm) {
      var i :| 0 <= i < |rest| && TurnsAt(rest, m, nm, i);
      assert rest[i + 1..|rest| - 1] == plan[i + 2..|plan| - 1] && plan[1..|plan| - 1][i] == m;
      assert TurnsAt(plan, m, nm, i + 1);
    }
    if GoesOnWith(plan, m, nm) {
      var i :| 0 <= i < |plan| && TurnsAt(plan, m, nm, i);
      if i > 0 {
        assert rest[i..|rest| - 1] == plan[i + 1..|plan| - 1];
        assert TurnsAt(rest, m, nm, i - 1);
      }
    }
  }

  lemma {:induction false} SomethingFollows(plan: seq<Mode>, m: Mode)
    ensures |plan| >= 2 && m in plan[..|plan| - 1] <==> Next(plan, m).Some?
  {
    if |plan| >= 2 {
      SomethingFollows(plan[1..], m);
      assert plan[..|plan| - 1] == [plan[0]] + plan[1..][..|plan| - 2];
    }
  }

  lemma {:induction false} NextGoesOn(plan: seq<Mode>, m: Mode, nm: Mode)
    ensures Next(plan, m) == Some(nm) <==> GoesOnWith(plan, m, nm)
  {
    hide GoesOnWith;
    if |plan| < 2 {
      NothingGoesOn(plan, m, nm);
    } else {
      GoesOnTail(plan, m, nm);
      SomethingFollows(plan[1..], m);
      assert plan[1..][..|plan| - 2] == plan[1..|plan| - 1];
      NextGoesOn(plan[1..], m, nm);
      if TurnsAt(plan, m, nm, 0) { TurnsHere(plan, m, nm); }
    }
  }

  lemma TurnsHere(plan: seq<Mode>, m: Mode, nm: Mode)
    requires |plan| >= 2 && TurnsAt(plan, m, nm, 0)
    ensures GoesOnWith(plan, m, nm)
  {
  }

  lemma NothingGoesOn(plan: seq<Mode>, m: Mode, nm: Mode)
    requires |plan| < 2
    ensures !GoesOnWith(plan, m, nm)
  {
  }

  lemma GradeOpens(g: Graph, q: Query, st: nat)
    requires st < |g.stretches| && q.grade >= 0
    ensures !FerrataRefused(g, q, Hike, st) && !GradeRefused(g, q, Hike, st) <==> Opens(g.stretches[st], q.grade)
  {
  }

  /** The search lets a traveller do exactly what the map, the plan and the request allow. */
  lemma LegalIsWhatTheMapAllows(g: Graph, base: nat, near: nat -> Option<Landing>, q: Query, s: State, mv: Move)
    requires g.Valid() && Built(g, base, near) && q.grade >= 0
    ensures Legal(g, q, s, mv) <==> MayMove(g, base, near, q, s, mv)
  {
    BuiltIsWired(g, base, near);
    hide Built, IsWay, IsRide, IsLinkWalk, Usable, Opens, GoesOnWith, EffGrade, GradeCeiling;
    if s.node < g.n {
      match mv
      case Along(e) =>
        if IsWay(g.stretches[..base], s.mode, s.node, e) {
          WaysAreDeclared(g.stretches[..base], s.mode, s.node, e);
          if s.mode.Hike? { GradeOpens(g, q, e.st); }
        }
      case Board(e) =>
      case Park(nm) =>
        NextGoesOn(q.plan, s.mode, nm);
        TrailheadIsOnTheMap(g, base, near, s.mode, nm, s.node);
    }
  }

  lemma WaysAreDeclared(base: seq<Stretch>, m: Mode, v: nat, e: Edge)
    requires IsWay(base, m, v, e)
    ensures e.st < |base|
  {
  }

  lemma WaysHere(g: Graph, base: nat, near: nat -> Option<Landing>, m: Mode, v: nat)
    requires Wired(g, base, near) && v < g.n
    ensures v < |g.Adj(m)| && forall e :: e in g.Adj(m)[v] <==> IsWay(g.stretches[..base], m, v, e)
  {
    hide IsWay, IsRide, IsLinkWalk, Lands, IsStation, HasLanding, IsLinked;
  }

  lemma TrailheadOfWays(sts: seq<Stretch>, base: nat, ways: seq<Edge>, m: Mode, nm: Mode, v: nat)
    requires base <= |sts| && forall e :: e in ways <==> IsWay(sts[..base], nm, v, e)
    ensures IsTrailhead(sts[..base], m, nm, v) <==>
              exists k :: 0 <= k < |ways| && ways[k].st < base && !Usable(m, sts[ways[k].st])
  {
    hide Usable, Weight, RunsAlong;
    if k :| 0 <= k < |ways| && ways[k].st < base && !Usable(m, sts[ways[k].st]) {
      assert IsWay(sts[..base], nm, v, ways[k]);
    }
    if IsTrailhead(sts[..base], m, nm, v) {
      var e :| IsWay(sts[..base], nm, v, e) && !Usable(m, sts[..base][e.st]);
      var k :| 0 <= k < |ways| && ways[k] == e;
    }
  }

  lemma TrailheadIsOnTheMap(g: Graph, base: nat, near: nat -> Option<Landing>, m: Mode, nm: Mode, v: nat)
    requires g.Valid() && Wired(g, base, near) && v < g.n
    ensures Trailhead(g, m, nm, v) <==> IsTrailhead(g.stretches[..base], m, nm, v)
  {
    hide Wired, Usable, IsTrailhead, IsWay;
    WaysHere(g, base, near, nm, v);
    assert base <= |g.stretches| by { WiredBase(g, base, near); }
    var ways := g.Adj(nm)[v];
    TrailheadOfWays(g.stretches, base, ways, m, nm, v);
    forall k | 0 <= k < |ways| ensures ways[k].st < base {
      assert ways[k] in ways;
      WaysAreDeclared(g.stretches[..base], nm, v, ways[k]);
    }
  }

  lemma WiredBase(g: Graph, base: nat, near: nat -> Option<Landing>)
    requires Wired(g, base, near)
    ensures base <= |g.stretches|
  {
  }

  /** So no legal walk drives or cycles against a one-way: wherever it takes one it goes from a to b. */
  lemma {:induction false} OneWaysAreObeyed(g: Graph, base: nat, near: nat -> Option<Landing>, q: Query, s: State,
      ms: seq<Move>, k: nat)
    requires g.Valid() && Built(g, base, near) && LegalWalk(g, q, s, ms) && q.grade >= 0
    requires k < |ms| && ms[k].Along? && End(s, ms[..k]).mode != Hike
    ensures ms[k].e.st < base <= |g.stretches|
    ensures g.stretches[ms[k].e.st].one ==>
              && End(s, ms[..k]).node == g.stretches[ms[k].e.st].a
              && End(s, ms[..k + 1]).node == g.stretches[ms[k].e.st].b
    decreases k
  {
    hide Built, Legal, Usable, Weight;
    if k == 0 {
      BuiltIsWired(g, base, near);
      LegalIsWhatTheMapAllows(g, base, near, q, s, ms[0]);
      assert ms[..1][1..] == [];
    } else {
      assert ms[..k][1..] == ms[1..][..k - 1] && ms[..k + 1][1..] == ms[1..][..k];
      OneWaysAreObeyed(g, base, near, q, Target(s, ms[0]), ms[1..], k - 1);
    }
  }
}
