/** searchSeg: A* over (junction, mode) with lazy deletion (internal/route/search.go:354-483).
    The heap is a multiset with extract-min; labels and predecessors are maps, as in the source. */
module Search {
  import opened Roads
  import opened Moves

  datatype Item = Item(f: real, s: State)

  datatype Pred = Root | From(prev: State, mv: Move, w: real)

  /** One move of the answer: where it arrives, the move, and the seconds it TAKES. */
  datatype UsedEdge = UsedEdge(to: State, mv: Move, w: real)

  /** What a search leaves behind for the warnings: settled states, a skipped ferrata,
      the easiest grade refused (0 when none was). */
  datatype Refusals = Refusals(ferrataSkip: bool, gradeSkipped: int)
  datatype Stats = Stats(settled: nat, refused: Refusals)

  /** The search's own variables, together with the settled states and the length of every
      predecessor chain, which exist for the proof only. */
  datatype Frontier = Frontier(
    labels: map<State, real>, pred: map<State, Pred>, heap: multiset<Item>,
    settled: set<State>, depth: map<State, nat>)

  /** The question a leg asks, with its bound. */
  datatype Task = Task(g: Graph, q: Query, start: State, to: nat, h: State -> real)

  ghost predicate Sound(t: Task) {
    t.g.Valid() && t.q.pen.Valid() && t.start.node < t.g.n && t.start.mode in t.q.plan
        && Consistent(t.g, t.q, t.to, t.h)
  }

  function ArrivalAt(pred: map<State, Pred>, s: State): Arrival {
    if s in pred && pred[s].From? then ArrivalOf(pred[s].mv) else Fresh
  }

  function LabelBelow(labels: map<State, real>, s: State, d: real): bool {
    s in labels && labels[s] <= d
  }

  /** The label of v is what its predecessor's label and the move from it add up to. */
  ghost predicate Explained(t: Task, F: Frontier, v: State)
    requires t.g.Valid()
  {
    v in F.labels && v in F.pred && v in F.depth && F.labels[v] >= 0.0 && v.node < t.g.n && v.mode in t.q.plan
    && match F.pred[v]
       case Root => v == t.start && F.labels[v] == 0.0
       case From(u, mv, w) =>
         u in F.settled && u in F.labels && u in F.depth && F.depth[u] < F.depth[v]
         && Legal(t.g, t.q, u, mv) && Target(u, mv) == v
         && F.labels[v] == F.labels[u] + StepCost(t.g, t.q, ArrivalAt(F.pred, u), u, mv)
         && w == StepClock(t.g, ArrivalAt(F.pred, u), u, mv)
  }

  ghost predicate AllExplained(t: Task, F: Frontier)
    requires t.g.Valid()
  {
    && t.start in F.labels && t.start in F.pred && F.pred[t.start].Root?
    && F.settled <= F.labels.Keys
    && forall v :: v in F.labels ==> Explained(t, F, v)
  }

  function Priority(t: Task, F: Frontier, v: State): real
    requires v in F.labels
  {
    F.labels[v] + t.h(v)
  }

  /** An item is at or above the level and its state's priority, strictly above once it is settled. */
  ghost predicate ItemOk(t: Task, F: Frontier, level: real, it: Item) {
    && it.s in F.labels && it.f >= level && it.f >= Priority(t, F, it.s)
    && (it.s in F.settled ==> it.f > Priority(t, F, it.s))
  }

  ghost predicate ItemsOk(t: Task, F: Frontier, level: real) {
    forall it :: it in F.heap ==> ItemOk(t, F, level, it)
  }

  /** An open state has exactly one item at its own priority. */
  ghost predicate OpenQueued(t: Task, F: Frontier) {
    forall v :: v in F.labels && v !in F.settled ==> F.heap[Item(Priority(t, F, v), v)] == 1
  }

  ghost predicate SettledBelow(t: Task, F: Frontier, level: real) {
    forall v :: v in F.settled && v in F.labels ==> Priority(t, F, v) <= level
  }

  /** What the heap holds, and the level the search has reached. */
  ghost predicate Queued(t: Task, F: Frontier, level: real) {
    ItemsOk(t, F, level) && OpenQueued(t, F) && SettledBelow(t, F, level)
  }

  ghost predicate RelaxedMove(t: Task, F: Frontier, u: State, mv: Move)
    requires t.g.Valid()
  {
    u in F.labels
    && LabelBelow(F.labels, Target(u, mv), F.labels[u] + StepCost(t.g, t.q, ArrivalAt(F.pred, u), u, mv))
  }

  ghost predicate RelaxedAll(t: Task, F: Frontier, u: State)
    requires t.g.Valid()
  {
    forall mv :: Legal(t.g, t.q, u, mv) ==> RelaxedMove(t, F, u, mv)
  }

  ghost predicate AllRelaxed(t: Task, F: Frontier, but: set<State>)
    requires t.g.Valid()
  {
    forall u :: u in F.settled && u !in but ==> RelaxedAll(t, F, u) && u.node != t.to
  }

  ghost predicate Inv(t: Task, F: Frontier, level: real)
    requires t.g.Valid()
  {
    AllExplained(t, F) && Queued(t, F, level) && AllRelaxed(t, F, {})
  }

  /** While u is being expanded: u is settled, its own moves are still being relaxed. */
  ghost predicate Expanding(t: Task, F: Frontier, u: State)
    requires t.g.Valid()
  {
    && AllExplained(t, F)
    && u in F.settled && u in F.labels && u.node != t.to
    && Queued(t, F, Priority(t, F, u))
    && AllRelaxed(t, F, {u})
  }

  /** The states the region has. */
  ghost function Universe(g: Graph): set<State> {
    set v: nat, m: Mode | 0 <= v < g.n && m in {Car, Bike, Hike} :: State(v, m)
  }

  lemma InUniverse(g: Graph, s: State)
    requires s.node < g.n
    ensures s in Universe(g)
  {
    assert s == State(s.node, s.mode);
    match s.mode case Car => case Bike => case Hike =>
  }

  // ------------------------------------------------------------------ one relaxation

  /** Offering v the label d2 by the move mv out of u, which takes w seconds. */
  function Offer(t: Task, F: Frontier, u: State, mv: Move, d2: real, w: real): Frontier
    requires u in F.depth
  {
    var v := Target(u, mv);
    if LabelBelow(F.labels, v, d2) then F
    else F.(labels := F.labels[v := d2],
            pred := F.pred[v := From(u, mv, w)],
            heap := F.heap + multiset{Item(d2 + t.h(v), v)},
            depth := F.depth[v := F.depth[u] + 1])
  }

  function OfferedLabel(t: Task, F: Frontier, u: State, mv: Move): real
    requires u in F.labels
  {
    F.labels[u] + StepCost(t.g, t.q, ArrivalAt(F.pred, u), u, mv)
  }

  /** Relaxing a move: offering its target what the label of u and the move add up to. */
  function Relax(t: Task, F: Frontier, u: State, mv: Move): Frontier
    requires u in F.labels && u in F.depth
  {
    Offer(t, F, u, mv, OfferedLabel(t, F, u, mv), StepClock(t.g, ArrivalAt(F.pred, u), u, mv))
  }

  /** A settled label is final: no later move improves on it, and the level never falls. */
  lemma SettledIsFinal(t: Task, F: Frontier, u: State, mv: Move)
    requires Sound(t) && Expanding(t, F, u) && Legal(t.g, t.q, u, mv)
    ensures OfferedLabel(t, F, u, mv) >= F.labels[u] >= 0.0
    ensures OfferedLabel(t, F, u, mv) + t.h(Target(u, mv)) >= Priority(t, F, u)
    ensures Target(u, mv) in F.settled ==> LabelBelow(F.labels, Target(u, mv), OfferedLabel(t, F, u, mv))
  {
    assert Explained(t, F, u);
    StepCostAtLeastBase(t.g, t.q, ArrivalAt(F.pred, u), u, mv);
  }

  /** What is written about one open state leaves the others explained: their predecessors are settled. */
  lemma StaysExplained(t: Task, F: Frontier, v: State, d: real, p: Pred, heap: multiset<Item>, n: nat, x: State)
    requires t.g.Valid() && Explained(t, F, x) && x != v && v !in F.settled
    ensures Explained(t, F.(labels := F.labels[v := d], pred := F.pred[v := p], heap := heap,
        depth := F.depth[v := n]), x)
  {
    hide StepCost, StepClock, Legal;
  }

  lemma RelaxExplains(t: Task, F: Frontier, u: State, mv: Move)
    requires Sound(t) && Expanding(t, F, u) && Legal(t.g, t.q, u, mv)
    ensures u in F.depth && AllExplained(t, Relax(t, F, u, mv))
  {
    hide StepCost, StepClock, Legal, Consistent, AllRelaxed, Queued;
    assert Explained(t, F, u);
    var R := Relax(t, F, u, mv);
    var v := Target(u, mv);
    if R != F {
      SettledIsFinal(t, F, u, mv);
      LegalStaysInside(t.g, t.q, u, mv);
      assert Explained(t, F, t.start);
      assert Explained(t, R, v);
      hide Explained;
      forall x | x in R.labels && x != v ensures Explained(t, R, x) {
        StaysExplained(t, F, v, R.labels[v], R.pred[v], R.heap, R.depth[v], x);
      }
    }
  }

  /** R is F with the open state v pushed at a better label d2. */
  ghost predicate Pushed(t: Task, F: Frontier, v: State, d2: real, R: Frontier) {
    && v !in F.settled && (v in F.labels ==> d2 < F.labels[v])
    && R.settled == F.settled && R.labels == F.labels[v := d2]
    && R.heap == F.heap + multiset{Item(d2 + t.h(v), v)}
  }

  lemma PushItems(t: Task, F: Frontier, level: real, v: State, d2: real, R: Frontier)
    requires ItemsOk(t, F, level) && Pushed(t, F, v, d2, R) && d2 + t.h(v) >= level
    ensures ItemsOk(t, R, level)
  {
    forall it | it in R.heap ensures ItemOk(t, R, level, it) {
      if it in F.heap { assert ItemOk(t, F, level, it); }
    }
  }

  lemma PushOpen(t: Task, F: Frontier, level: real, v: State, d2: real, R: Frontier)
    requires ItemsOk(t, F, level) && OpenQueued(t, F) && Pushed(t, F, v, d2, R)
    ensures OpenQueued(t, R)
  {
    var pushed := Item(d2 + t.h(v), v);
    assert !ItemOk(t, F, level, pushed);
    forall x | x in R.labels && x !in R.settled ensures R.heap[Item(Priority(t, R, x), x)] == 1 {
      if x != v { assert F.heap[Item(Priority(t, F, x), x)] == 1; }
    }
  }

  lemma OfferQueues(t: Task, F: Frontier, level: real, u: State, mv: Move, d2: real, w: real)
    requires Queued(t, F, level) && u in F.depth && d2 + t.h(Target(u, mv)) >= level
    requires Target(u, mv) in F.settled ==> LabelBelow(F.labels, Target(u, mv), d2)
    ensures Queued(t, Offer(t, F, u, mv, d2, w), level)
  {
    var R := Offer(t, F, u, mv, d2, w);
    if !LabelBelow(F.labels, Target(u, mv), d2) {
      assert Pushed(t, F, Target(u, mv), d2, R);
      PushItems(t, F, level, Target(u, mv), d2, R);
      PushOpen(t, F, level, Target(u, mv), d2, R);
    }
  }

  /** An offer touches no settled label or predecessor, and no label goes up. */
  lemma OfferOnlyLowers(t: Task, F: Frontier, u: State, mv: Move, d2: real, w: real)
    requires u in F.depth && F.settled <= F.labels.Keys
    requires Target(u, mv) in F.settled ==> LabelBelow(F.labels, Target(u, mv), d2)
    ensures var R := Offer(t, F, u, mv, d2, w);
      && R.settled == F.settled && R.labels.Keys >= F.labels.Keys
      && LabelBelow(R.labels, Target(u, mv), d2)
      && (forall x :: x in F.labels ==> R.labels[x] <= F.labels[x])
      && (forall x :: x in F.settled ==> R.labels[x] == F.labels[x] && ArrivalAt(R.pred, x) == ArrivalAt(F.pred, x))
  {
  }

  /** What was relaxed from a settled state stays relaxed when labels only go down. */
  lemma LoweringKeepsRelaxed(t: Task, F: Frontier, R: Frontier, x: State, mx: Move)
    requires t.g.Valid() && x in F.settled && RelaxedMove(t, F, x, mx)
    requires R.labels.Keys >= F.labels.Keys && forall y :: y in F.labels ==> R.labels[y] <= F.labels[y]
    requires R.labels[x] == F.labels[x] && ArrivalAt(R.pred, x) == ArrivalAt(F.pred, x)
    ensures RelaxedMove(t, R, x, mx)
  {
  }

  lemma RelaxKeepsOthers(t: Task, F: Frontier, u: State, mv: Move)
    requires Sound(t) && Expanding(t, F, u) && Legal(t.g, t.q, u, mv) && u in F.depth
    ensures AllRelaxed(t, Relax(t, F, u, mv), {u})
  {
    hide StepCost, StepClock, Legal, Consistent, Queued;
    SettledIsFinal(t, F, u, mv);
    var R := Relax(t, F, u, mv);
    OfferOnlyLowers(t, F, u, mv, OfferedLabel(t, F, u, mv), StepClock(t.g, ArrivalAt(F.pred, u), u, mv));
    forall x | x in R.settled && x !in {u} ensures RelaxedAll(t, R, x) && x.node != t.to {
      forall mx | Legal(t.g, t.q, x, mx) ensures RelaxedMove(t, R, x, mx) {
        LoweringKeepsRelaxed(t, F, R, x, mx);
      }
    }
  }

  /** One relaxation keeps everything the search relies on, and relaxes its own move. */
  lemma RelaxKeeps(t: Task, F: Frontier, u: State, mv: Move)
    requires Sound(t) && Expanding(t, F, u) && Legal(t.g, t.q, u, mv)
    ensures u in F.labels && u in F.depth
    ensures var R := Relax(t, F, u, mv);
      && Expanding(t, R, u) && R.settled == F.settled && R.labels.Keys >= F.labels.Keys
      && RelaxedMove(t, R, u, mv)
      && forall mx :: RelaxedMove(t, F, u, mx) ==> RelaxedMove(t, R, u, mx)
  {
    RelaxExplains(t, F, u, mv);
    SettledIsFinal(t, F, u, mv);
    var w := StepClock(t.g, ArrivalAt(F.pred, u), u, mv);
    OfferQueues(t, F, Priority(t, F, u), u, mv, OfferedLabel(t, F, u, mv), w);
    OfferOnlyLowers(t, F, u, mv, OfferedLabel(t, F, u, mv), w);
    RelaxKeepsOthers(t, F, u, mv);
    var R := Relax(t, F, u, mv);
    forall mx | RelaxedMove(t, F, u, mx) ensures RelaxedMove(t, R, u, mx) {
      LoweringKeepsRelaxed(t, F, R, u, mx);
    }
  }

  // ------------------------------------------------------------------ popping

  /** Dropping a stale entry loses nothing. */
  lemma DropStale(t: Task, F: Frontier, level: real, it: Item)
    requires t.g.Valid() && Inv(t, F, level)
    requires it in F.heap && it.f > Priority(t, F, it.s)
    ensures Inv(t, F.(heap := F.heap - multiset{it}), level)
  {
    var R := F.(heap := F.heap - multiset{it});
    forall i | i in R.heap ensures ItemOk(t, R, level, i) { assert ItemOk(t, F, level, i); }
    forall v | v in R.labels && v !in R.settled ensures R.heap[Item(Priority(t, R, v), v)] == 1 {
      assert F.heap[Item(Priority(t, F, v), v)] == 1;
    }
    forall v | v in R.labels ensures Explained(t, R, v) { assert Explained(t, F, v); }
    forall u | u in R.settled ensures RelaxedAll(t, R, u) && u.node != t.to {
      forall mv | Legal(t.g, t.q, u, mv) ensures RelaxedMove(t, R, u, mv) { assert RelaxedMove(t, F, u, mv); }
    }
  }

  ghost predicate IsMinimum(it: Item, heap: multiset<Item>) {
    it in heap && forall i :: i in heap ==> it.f <= i.f
  }

  function Settle(F: Frontier, it: Item): Frontier {
    F.(heap := F.heap - multiset{it}, settled := F.settled + {it.s})
  }

  lemma SettleQueues(t: Task, F: Frontier, level: real, it: Item)
    requires Queued(t, F, level) && IsMinimum(it, F.heap)
    requires it.s in F.labels && it.f <= Priority(t, F, it.s)
    ensures it.s !in F.settled && Queued(t, Settle(F, it), Priority(t, F, it.s))
  {
    var R := Settle(F, it);
    assert ItemOk(t, F, level, it);
    assert F.heap[it] == 1;
    forall i | i in R.heap ensures ItemOk(t, R, it.f, i) {
      assert i in F.heap && ItemOk(t, F, level, i) && i != it;
    }
    forall v | v in R.labels && v !in R.settled ensures R.heap[Item(Priority(t, R, v), v)] == 1 {
      assert F.heap[Item(Priority(t, F, v), v)] == 1;
    }
  }

  lemma SettleExplains(t: Task, F: Frontier, it: Item)
    requires t.g.Valid() && AllExplained(t, F) && it.s in F.labels
    ensures it.s in Universe(t.g) && AllExplained(t, Settle(F, it))
  {
    hide StepCost, StepClock, Legal;
    var R := Settle(F, it);
    assert Explained(t, F, it.s);
    InUniverse(t.g, it.s);
    forall v | v in R.labels ensures Explained(t, R, v) { assert Explained(t, F, v); }
  }

  lemma SettleRelaxed(t: Task, F: Frontier, it: Item)
    requires t.g.Valid() && AllRelaxed(t, F, {}) && F.settled <= F.labels.Keys
    ensures AllRelaxed(t, Settle(F, it), {it.s})
  {
    hide StepCost, Legal;
    var R := Settle(F, it);
    forall u | u in R.settled && u !in {it.s} ensures RelaxedAll(t, R, u) && u.node != t.to {
      assert RelaxedAll(t, F, u);
      forall mv | Legal(t.g, t.q, u, mv) ensures RelaxedMove(t, R, u, mv) { assert RelaxedMove(t, F, u, mv); }
    }
  }

  /** A fresh entry settles its state for the first and only time. */
  lemma SettleKeeps(t: Task, F: Frontier, level: real, it: Item)
    requires Sound(t) && Inv(t, F, level) && IsMinimum(it, F.heap)
    requires it.s in F.labels && it.f <= Priority(t, F, it.s) && it.s.node != t.to
    ensures it.s !in F.settled && it.s in Universe(t.g)
    ensures Settle(F, it).settled == F.settled + {it.s} && Settle(F, it).settled - {it.s} == F.settled
    ensures Expanding(t, Settle(F, it), it.s)
  {
    SettleQueues(t, F, level, it);
    SettleExplains(t, F, it);
    SettleRelaxed(t, F, it);
  }

  // ------------------------------------------------------------------ what was refused

  function Note(g: Graph, q: Query, m: Mode, e: Edge, st: Refusals): Refusals
    requires e.st < |g.stretches|
  {
    if e.st in q.avoid then st
    else if FerrataRefused(g, q, m, e.st) then st.(ferrataSkip := true)
    else if GradeRefused(g, q, m, e.st) then
      var eg := EffGrade(g.stretches[e.st]);
      if st.gradeSkipped == 0 || eg < st.gradeSkipped then st.(gradeSkipped := eg) else st
    else st
  }

  /** The edges out of settled hiking junctions that the grade refused have all been noted, the easiest of them
      kept, and so has every ferrata. */
  ghost predicate Noted(g: Graph, q: Query, settled: set<State>, st: Refusals)
    requires g.Valid()
  {
    forall u, e :: u in settled && u.node < g.n && u.mode.Hike? && e in g.hike[u.node] ==> NotedEdge(g, q, e, st)
  }

  ghost predicate NotedEdge(g: Graph, q: Query, e: Edge, st: Refusals) {
    e.st < |g.stretches| && e.st !in q.avoid ==>
      && (GradeRefused(g, q, Hike, e.st) ==> 0 < st.gradeSkipped <= EffGrade(g.stretches[e.st]))
      && (FerrataRefused(g, q, Hike, e.st) ==> st.ferrataSkip)
  }

  /** st came out of st0 by noting: nothing noted is forgotten, and nothing is invented. */
  ghost predicate Follows(g: Graph, q: Query, st0: Refusals, st: Refusals) {
    && st0.gradeSkipped >= 0 && st.gradeSkipped >= 0
    && (st0.ferrataSkip ==> st.ferrataSkip)
    && (st0.gradeSkipped > 0 ==> 0 < st.gradeSkipped <= st0.gradeSkipped)
    && (st.gradeSkipped == st0.gradeSkipped || exists st' :: RefusedAt(g, q, st', st.gradeSkipped))
    && (st.ferrataSkip == st0.ferrataSkip || exists st' :: FerrataAt(g, q, st'))
  }

  ghost predicate FerrataAt(g: Graph, q: Query, st: nat) {
    st < |g.stretches| && st !in q.avoid && FerrataRefused(g, q, Hike, st)
  }

  ghost predicate RefusedAt(g: Graph, q: Query, st: nat, grade: int) {
    st < |g.stretches| && st !in q.avoid && GradeRefused(g, q, Hike, st) && EffGrade(g.stretches[st]) == grade
  }

  lemma NoteFollows(g: Graph, q: Query, m: Mode, e: Edge, st0: Refusals, st: Refusals)
    requires e.st < |g.stretches| && q.grade >= 1 && Follows(g, q, st0, st)
    ensures Follows(g, q, st0, Note(g, q, m, e, st))
    ensures m.Hike? ==> NotedEdge(g, q, e, Note(g, q, m, e, st))
    ensures forall x :: NotedEdge(g, q, x, st) ==> NotedEdge(g, q, x, Note(g, q, m, e, st))
  {
    var r := Note(g, q, m, e, st);
    if r.gradeSkipped != st.gradeSkipped {
      assert RefusedAt(g, q, e.st, r.gradeSkipped);
    }
    if r.ferrataSkip != st.ferrataSkip { assert FerrataAt(g, q, e.st); }
  }

  // ------------------------------------------------------------------ the search

  /** container/heap's Pop: some least item. */
  method PopMin(heap: multiset<Item>) returns (it: Item)
    requires |heap| > 0
    ensures it in heap && IsMinimum(it, heap)
  {
    it :| it in heap;
    var rest := heap - multiset{it};
    while |rest| > 0
      invariant it in heap && rest <= heap
      invariant forall i :: i in heap && i !in rest ==> it.f <= i.f
      decreases |rest|
    {
      var other :| other in rest;
      if other.f < it.f { it := other; }
      rest := rest[other := 0];
    }
  }

  /** What is relaxed out of u by one frontier is relaxed by the other. */
  ghost predicate StillRelaxed(t: Task, F0: Frontier, F: Frontier, u: State)
    requires t.g.Valid()
  {
    forall mx :: RelaxedMove(t, F0, u, mx) ==> RelaxedMove(t, F, u, mx)
  }

  ghost predicate WaysRelaxed(t: Task, F: Frontier, u: State)
    requires t.g.Valid()
  {
    forall e :: Legal(t.g, t.q, u, Along(e)) ==> RelaxedMove(t, F, u, Along(e))
  }

  ghost predicate LiftsRelaxed(t: Task, F: Frontier, u: State)
    requires t.g.Valid()
  {
    forall e :: Legal(t.g, t.q, u, Board(e)) ==> RelaxedMove(t, F, u, Board(e))
  }

  ghost predicate ParkRelaxed(t: Task, F: Frontier, u: State)
    requires t.g.Valid()
  {
    forall nm :: Legal(t.g, t.q, u, Park(nm)) ==> RelaxedMove(t, F, u, Park(nm))
  }

  /** What was noted stays noted, and so are the edges out of u. */
  ghost predicate NotedOut(t: Task, u: State, st0: Refusals, st: Refusals)
    requires t.g.Valid() && u.node < t.g.n
  {
    && (forall x :: NotedEdge(t.g, t.q, x, st0) ==> NotedEdge(t.g, t.q, x, st))
    && (u.mode.Hike? ==> forall e :: e in t.g.hike[u.node] ==> NotedEdge(t.g, t.q, e, st))
  }

  lemma StayRelaxed(t: Task, F0: Frontier, F: Frontier, u: State)
    requires t.g.Valid() && StillRelaxed(t, F0, F, u)
    ensures WaysRelaxed(t, F0, u) ==> WaysRelaxed(t, F, u)
    ensures LiftsRelaxed(t, F0, u) ==> LiftsRelaxed(t, F, u)
  {
    hide RelaxedMove, Legal;
  }

  /** The stretches out of u: what the avoid list, the ferrata rule and the grade let through is relaxed. */
  method RelaxWays(t: Task, u: State, F0: Frontier, ghost seen: Refusals, st0: Refusals)
      returns (F: Frontier, st: Refusals)
    requires Sound(t) && Expanding(t, F0, u) && u.node < t.g.n && u.mode in t.q.plan && t.q.grade >= 1
    requires Follows(t.g, t.q, seen, st0)
    ensures Expanding(t, F, u) && F.settled == F0.settled && F.labels.Keys >= F0.labels.Keys
    ensures WaysRelaxed(t, F, u) && Follows(t.g, t.q, seen, st) && NotedOut(t, u, st0, st)
  {
    hide Expanding, Follows, NotedEdge, RelaxedMove, Relax;
    F, st := F0, st0;
    var adj := t.g.Adj(u.mode)[u.node];
    for i := 0 to |adj|
      invariant Expanding(t, F, u) && F.settled == F0.settled && F.labels.Keys >= F0.labels.Keys
      invariant forall k :: 0 <= k < i && Legal(t.g, t.q, u, Along(adj[k])) ==> RelaxedMove(t, F, u, Along(adj[k]))
      invariant Follows(t.g, t.q, seen, st)
      invariant forall x :: NotedEdge(t.g, t.q, x, st0) ==> NotedEdge(t.g, t.q, x, st)
      invariant u.mode.Hike? ==> forall k :: 0 <= k < i ==> NotedEdge(t.g, t.q, adj[k], st)
    {
      var e := adj[i];
      NoteFollows(t.g, t.q, u.mode, e, seen, st);
      st := Note(t.g, t.q, u.mode, e, st);
      if e.st !in t.q.avoid && !FerrataRefused(t.g, t.q, u.mode, e.st) && !GradeRefused(t.g, t.q, u.mode, e.st) {
        RelaxKeeps(t, F, u, Along(e));
        F := Relax(t, F, u, Along(e));
      }
    }
  }

  /** The lift layer, which only a walk that asked for lifts can see. */
  method RelaxLifts(t: Task, u: State, F0: Frontier) returns (F: Frontier)
    requires Sound(t) && Expanding(t, F0, u) && u.node < t.g.n && u.mode in t.q.plan
    ensures Expanding(t, F, u) && F.settled == F0.settled && F.labels.Keys >= F0.labels.Keys
    ensures LiftsRelaxed(t, F, u) && StillRelaxed(t, F0, F, u)
  {
    hide Expanding, RelaxedMove, Relax;
    F := F0;
    if t.q.lifts && u.mode.Hike? {
      var adj := t.g.lift[u.node];
      for i := 0 to |adj|
        invariant Expanding(t, F, u) && F.settled == F0.settled && F.labels.Keys >= F0.labels.Keys
        invariant forall k :: 0 <= k < i && Legal(t.g, t.q, u, Board(adj[k])) ==> RelaxedMove(t, F, u, Board(adj[k]))
        invariant forall mx :: RelaxedMove(t, F0, u, mx) ==> RelaxedMove(t, F, u, mx)
      {
        if adj[i].st !in t.q.avoid {
          RelaxKeeps(t, F, u, Board(adj[i]));
          F := Relax(t, F, u, Board(adj[i]));
        }
      }
    }
  }

  /** The one switch a plan allows at u, where the next mode can leave by a way this one cannot. */
  method RelaxPark(t: Task, u: State, F0: Frontier) returns (F: Frontier)
    requires Sound(t) && Expanding(t, F0, u) && u.node < t.g.n && u.mode in t.q.plan
    ensures Expanding(t, F, u) && F.settled == F0.settled && F.labels.Keys >= F0.labels.Keys
    ensures ParkRelaxed(t, F, u) && StillRelaxed(t, F0, F, u)
  {
    hide Expanding, RelaxedMove, Relax, Trailhead;
    F := F0;
    var nm := Next(t.q.plan, u.mode);
    if nm.Some? && Trailhead(t.g, u.mode, nm.value, u.node) {
      RelaxKeeps(t, F, u, Park(nm.value));
      F := Relax(t, F, u, Park(nm.value));
    }
  }

  /** Every move out of u has been relaxed, so u is done with. */
  lemma Expanded(t: Task, F: Frontier, u: State)
    requires t.g.Valid() && Expanding(t, F, u) && WaysRelaxed(t, F, u) && LiftsRelaxed(t, F, u) && ParkRelaxed(t, F, u)
    ensures u in F.labels && Inv(t, F, Priority(t, F, u))
  {
    hide Legal, RelaxedMove, Queued, AllExplained;
    forall mv | Legal(t.g, t.q, u, mv) ensures RelaxedMove(t, F, u, mv) {
      match mv case Along(_) => case Board(_) => case Park(_) =>
    }
  }

  function Opening(t: Task): Frontier {
    Frontier(map[t.start := 0.0], map[t.start := Root], multiset{Item(t.h(t.start), t.start)}, {}, map[t.start := 0])
  }

  lemma OpeningHolds(t: Task)
    requires Sound(t)
    ensures Inv(t, Opening(t), t.h(t.start)) && Opening(t).settled == {}
  {
    assert Explained(t, Opening(t), t.start);
  }

  /** No open state can still lead to the destination for less than the goal's label. */
  ghost predicate Reached(t: Task, F: Frontier, goal: State) {
    goal in F.labels && goal.node == t.to
    && forall v :: v in F.labels && v !in F.settled ==> F.labels[goal] <= Priority(t, F, v)
  }

  lemma PopGoal(t: Task, F: Frontier, level: real, it: Item)
    requires Sound(t) && Inv(t, F, level) && IsMinimum(it, F.heap)
    requires it.s in F.labels && it.f <= Priority(t, F, it.s) && it.s.node == t.to
    ensures Reached(t, F, it.s)
  {
    assert it.s == State(t.to, it.s.mode);
    forall v | v in F.labels && v !in F.settled ensures F.labels[it.s] <= Priority(t, F, v) {
      assert Item(Priority(t, F, v), v) in F.heap;
      assert ItemOk(t, F, level, it);
    }
  }

  lemma NotedGrows(t: Task, u: State, settled: set<State>, st0: Refusals, st: Refusals)
    requires t.g.Valid() && u.node < t.g.n && Noted(t.g, t.q, settled - {u}, st0) && NotedOut(t, u, st0, st)
    ensures Noted(t.g, t.q, settled, st)
  {
    hide NotedEdge;
  }

  /** Expanding a settled state: its ways, the lifts, the parking. */
  method Expand(t: Task, u: State, F0: Frontier, ghost seen: Refusals, st0: Refusals)
      returns (F: Frontier, st: Refusals)
    requires Sound(t) && Expanding(t, F0, u) && u.node < t.g.n && u.mode in t.q.plan && t.q.grade >= 1
    requires Follows(t.g, t.q, seen, st0) && Noted(t.g, t.q, F0.settled - {u}, st0)
    ensures F.settled == F0.settled && u in F.labels && Inv(t, F, Priority(t, F, u))
    ensures Follows(t.g, t.q, seen, st) && Noted(t.g, t.q, F.settled, st)
  {
    assert t.g.Valid();
    hide Expanding, RelaxedMove, Follows, NotedEdge, Noted, Sound, Inv, Legal;
    hide WaysRelaxed, LiftsRelaxed, ParkRelaxed, StillRelaxed, NotedOut;
    F, st := RelaxWays(t, u, F0, seen, st0);
    NotedGrows(t, u, F0.settled, st0, st);
    ghost var ways := F;
    F := RelaxLifts(t, u, F);
    StayRelaxed(t, ways, F, u);
    ghost var lifts := F;
    F := RelaxPark(t, u, F);
    StayRelaxed(t, lifts, F, u);
    Expanded(t, F, u);
  }

  lemma HeapItemLabelled(t: Task, F: Frontier, level: real, it: Item)
    requires t.g.Valid() && Inv(t, F, level) && it in F.heap
    ensures it.s in F.labels && it.s.node < t.g.n && it.s.mode in t.q.plan
  {
    hide StepCost, Legal;
    assert ItemOk(t, F, level, it);
    assert Explained(t, F, it.s);
  }

  lemma InvParts(t: Task, F: Frontier, level: real)
    requires t.g.Valid() && Inv(t, F, level)
    ensures AllExplained(t, F) && AllRelaxed(t, F, {})
  {
  }

  lemma HeapEmpty(t: Task, F: Frontier, level: real)
    requires t.g.Valid() && Inv(t, F, level) && |F.heap| == 0
    ensures F.labels.Keys <= F.settled
  {
    forall v | v in F.labels ensures v in F.settled {
      assert Item(Priority(t, F, v), v) !in F.heap;
    }
  }

  lemma OneMoreSettled(all: set<State>, settled: set<State>, s: State)
    requires settled <= all && s in all && s !in settled
    ensures |settled + {s}| == |settled| + 1 && settled + {s} <= all && |all - (settled + {s})| < |all - settled|
  {
    assert all - (settled + {s}) == (all - settled) - {s};
  }

  /** The A* loop: settled states only grow, so it ends; each is settled once. */
  method Explore(t: Task, st0: Stats) returns (goal: Option<State>, F: Frontier, st: Stats)
    requires Sound(t) && t.q.grade >= 1 && st0.refused.gradeSkipped >= 0
    ensures AllExplained(t, F) && AllRelaxed(t, F, {})
    ensures goal.Some? ==> Reached(t, F, goal.value)
    ensures goal.None? ==> F.labels.Keys <= F.settled
    ensures Follows(t.g, t.q, st0.refused, st.refused) && Noted(t.g, t.q, F.settled, st.refused)
    ensures st.settled == st0.settled + |F.settled| && F.settled <= Universe(t.g)
  {
    assert Follows(t.g, t.q, st0.refused, st0.refused) && Noted(t.g, t.q, {}, st0.refused) && t.g.Valid();
    hide Expanding, Inv, Follows, NotedEdge, Noted, Sound, Universe, Settle, IsMinimum, Opening, Reached,
        AllExplained, AllRelaxed;
    F, st, goal := Opening(t), st0, None;
    OpeningHolds(t);
    ghost var level := t.h(t.start);
    while |F.heap| > 0
      invariant Inv(t, F, level)
      invariant Follows(t.g, t.q, st0.refused, st.refused) && Noted(t.g, t.q, F.settled, st.refused)
      invariant st.settled == st0.settled + |F.settled| && F.settled <= Universe(t.g)
      decreases |Universe(t.g) - F.settled|, |F.heap|
    {
      var it := PopMin(F.heap);
      HeapItemLabelled(t, F, level, it);
      if it.f > F.labels[it.s] + t.h(it.s) {
        DropStale(t, F, level, it);
        F := F.(heap := F.heap - multiset{it});
        continue;
      }
      if it.s.node == t.to {
        PopGoal(t, F, level, it);
        InvParts(t, F, level);
        return Some(it.s), F, st;
      }
      SettleKeeps(t, F, level, it);
      OneMoreSettled(Universe(t.g), F.settled, it.s);
      F := Settle(F, it);
      var refused;
      F, refused := Expand(t, it.s, F, st0.refused, st.refused);
      st := Stats(st.settled + 1, refused);
      level := Priority(t, F, it.s);
    }
    InvParts(t, F, level);
    HeapEmpty(t, F, level);
  }

  // ------------------------------------------------------------------ the answer is the best one

  /** a is how some walk can stand at s. */
  ghost predicate Possible(t: Task, s: State, a: Arrival)
    requires t.g.Valid()
  {
    (a == Fresh && s == t.start) || Arrives(t.g, t.q, s, a)
  }

  /** Where a walk pays less ramp than the search charged, the arrivals disagree. */
  lemma RampGap(t: Task, F: Frontier, a: Arrival, s: State, mv: Move)
    requires Sound(t) && AllExplained(t, F) && s in F.labels && Possible(t, s, a)
    requires mv.Along? && Legal(t.g, t.q, s, mv) && mv.e.st < |t.g.stretches|
    ensures var st := mv.e.st; var charged := Ramp(t.g, s.mode, ArrivalAt(F.pred, s), st);
      || charged <= Ramp(t.g, s.mode, a, st)
      || (charged == RAMP_COST && Ramp(t.g, s.mode, a, st) == 0.0 && Ambiguous(t.g, t.q, s, st))
  {
    hide StepCost, StepClock, Consistent;
    var b := ArrivalAt(F.pred, s);
    assert Explained(t, F, s);
    if Ramp(t.g, s.mode, b, mv.e.st) > Ramp(t.g, s.mode, a, mv.e.st) {
      assert b.On?;
      assert Arrives(t.g, t.q, s, b);
      assert Arrives(t.g, t.q, s, a);
    }
  }

  lemma ChargedMore(w: real, r: real, f: real)
    requires f >= 1.0
    ensures Charged(w + r, f) == Charged(w, f) + Charged(r, f)
    ensures r >= 0.0 ==> Charged(r, f) >= 0.0
  {
  }

  /** What the search charges for a move exceeds what a walk pays for it by at most one ramp,
      and only where the arrivals disagree. */
  lemma StepGap(t: Task, F: Frontier, a: Arrival, s: State, mv: Move)
    requires Sound(t) && AllExplained(t, F) && s in F.labels && Legal(t.g, t.q, s, mv) && Possible(t, s, a)
    ensures StepCost(t.g, t.q, ArrivalAt(F.pred, s), s, mv)
         <= StepCost(t.g, t.q, a, s, mv) + SlackStep(t.g, t.q, s, mv)
  {
    hide Charged, Ambiguous, AllExplained, Consistent, Possible;
    LegalStaysInside(t.g, t.q, s, mv);
    if mv.Along? {
      RampGap(t, F, a, s, mv);
      var f := t.q.pen.Factor(mv.e.st);
      ChargedMore(mv.e.w, Ramp(t.g, s.mode, ArrivalAt(F.pred, s), mv.e.st), f);
      ChargedMore(mv.e.w, Ramp(t.g, s.mode, a, mv.e.st), f);
      ChargedMore(mv.e.w, RAMP_COST, f);
      ChargedMore(mv.e.w, 0.0, f);
    }
  }

  lemma {:induction false} SlackNonNegative(g: Graph, q: Query, s: State, ms: seq<Move>)
    requires g.Valid() && q.pen.Valid() && LegalWalk(g, q, s, ms)
    ensures Slack(g, q, s, ms) >= 0.0
    decreases |ms|
  {
    if |ms| > 0 {
      SlackNonNegative(g, q, Target(s, ms[0]), ms[1..]);
      LegalStaysInside(g, q, s, ms[0]);
      if ms[0].Along? { NeverDiscount(RAMP_COST, q.pen.Factor(ms[0].e.st)); }
    }
  }

  /** From any labelled state, a legal walk stays among the settled states or falls behind the goal's label: what
      it cost and what is left at its end come to no less, but for the ramps its junctions leave in doubt. */
  lemma {:induction false} NoWalkGetsAhead(t: Task, F: Frontier, goal: State, a: Arrival, s: State, ms: seq<Move>)
    requires Sound(t) && AllExplained(t, F) && AllRelaxed(t, F, {}) && Reached(t, F, goal)
    requires s in F.labels && Possible(t, s, a) && LegalWalk(t.g, t.q, s, ms)
    ensures End(s, ms) in F.settled
         || F.labels[goal] <= F.labels[s] + Cost(t.g, t.q, a, s, ms) + t.h(End(s, ms)) + Slack(t.g, t.q, s, ms)
    decreases |ms|
  {
    hide StepCost, Ambiguous, Explained, Consistent;
    if s !in F.settled {
      BoundFalls(t.g, t.q, t.to, t.h, a, s, ms);
      SlackNonNegative(t.g, t.q, s, ms);
    } else if |ms| > 0 {
      assert RelaxedAll(t, F, s);
      assert RelaxedMove(t, F, s, ms[0]);
      StepGap(t, F, a, s, ms[0]);
      assert Arrives(t.g, t.q, Target(s, ms[0]), ArrivalOf(ms[0]));
      NoWalkGetsAhead(t, F, goal, ArrivalOf(ms[0]), Target(s, ms[0]), ms[1..]);
    }
  }

  /** So no legal walk to the destination beats the goal's label by more than those ramps. */
  lemma NoWalkBeatsTheGoal(t: Task, F: Frontier, goal: State, a: Arrival, s: State, ms: seq<Move>)
    requires Sound(t) && AllExplained(t, F) && AllRelaxed(t, F, {}) && Reached(t, F, goal)
    requires s in F.labels && Possible(t, s, a)
    requires LegalWalk(t.g, t.q, s, ms) && End(s, ms).node == t.to
    ensures F.labels[goal] <= F.labels[s] + Cost(t.g, t.q, a, s, ms) + Slack(t.g, t.q, s, ms)
  {
    NoWalkGetsAhead(t, F, goal, a, s, ms);
    assert t.h(State(t.to, End(s, ms).mode)) == 0.0;
  }

  /** When everything labelled is settled, every legal walk stays among the settled states. */
  lemma {:induction false} WalksStaySettled(t: Task, F: Frontier, s: State, ms: seq<Move>)
    requires t.g.Valid() && AllRelaxed(t, F, {}) && F.labels.Keys <= F.settled
    requires s in F.settled && LegalWalk(t.g, t.q, s, ms)
    ensures End(s, ms) in F.settled && End(s, ms).node != t.to
    decreases |ms|
  {
    if |ms| > 0 {
      assert RelaxedAll(t, F, s);
      assert RelaxedMove(t, F, s, ms[0]);
      WalksStaySettled(t, F, Target(s, ms[0]), ms[1..]);
    }
  }

  function MovesOf(edges: seq<UsedEdge>): (ms: seq<Move>)
    ensures |ms| == |edges| && forall k :: 0 <= k < |ms| ==> ms[k] == edges[k].mv
  {
    seq(|edges|, k requires 0 <= k < |edges| => edges[k].mv)
  }

  /** Every recorded figure is the clock of its own move, in the place the walk makes it,
      and every recorded end is where the walk then stands. */
  ghost predicate Recorded(g: Graph, a: Arrival, s: State, edges: seq<UsedEdge>)
    decreases |edges|
  {
    |edges| > 0 ==>
      edges[0].w == StepClock(g, a, s, edges[0].mv) && edges[0].to == Target(s, edges[0].mv)
      && Recorded(g, ArrivalOf(edges[0].mv), edges[0].to, edges[1..])
  }

  /** The suffix of the answer from s on: what the backtrace has put together so far. */
  ghost predicate Suffix(t: Task, F: Frontier, goal: State, s: State, edges: seq<UsedEdge>)
    requires t.g.Valid()
  {
    var ms := MovesOf(edges);
    && s in F.labels && goal in F.labels
    && LegalWalk(t.g, t.q, s, ms) && End(s, ms) == goal
    && Recorded(t.g, ArrivalAt(F.pred, s), s, edges)
    && F.labels[goal] == F.labels[s] + Cost(t.g, t.q, ArrivalAt(F.pred, s), s, ms)
  }

  lemma SuffixGrows(t: Task, F: Frontier, goal: State, s: State, edges: seq<UsedEdge>)
    requires t.g.Valid() && AllExplained(t, F) && Suffix(t, F, goal, s, edges) && F.pred[s].From?
    ensures Suffix(t, F, goal, F.pred[s].prev, [UsedEdge(s, F.pred[s].mv, F.pred[s].w)] + edges)
  {
    hide StepCost, StepClock, Legal;
    assert Explained(t, F, s);
    var e := UsedEdge(s, F.pred[s].mv, F.pred[s].w);
    assert MovesOf([e] + edges)[1..] == MovesOf(edges);
    assert ([e] + edges)[1..] == edges;
  }

  /** Reading the predecessors back from the goal gives the walk its label was computed for. */
  method Backtrace(t: Task, F: Frontier, goal: State) returns (edges: seq<UsedEdge>)
    requires Sound(t) && AllExplained(t, F) && goal in F.labels
    ensures Suffix(t, F, goal, t.start, edges)
    ensures F.labels[t.start] == 0.0 && ArrivalAt(F.pred, t.start) == Fresh
  {
    edges := [];
    var s := goal;
    assert Explained(t, F, s) && Explained(t, F, t.start);
    while F.pred[s].From?
      invariant s in F.pred && Suffix(t, F, goal, s, edges) && Explained(t, F, s)
      decreases F.depth[s]
    {
      SuffixGrows(t, F, goal, s, edges);
      edges := [UsedEdge(s, F.pred[s].mv, F.pred[s].w)] + edges;
      s := F.pred[s].prev;
    }
  }

  // ------------------------------------------------------------------ the figures of an answer

  function Seconds(edges: seq<UsedEdge>): real {
    if |edges| == 0 then 0.0 else edges[0].w + Seconds(edges[1..])
  }

  /** The seconds of the stretches themselves. */
  function OwnSeconds(edges: seq<UsedEdge>): real {
    if |edges| == 0 then 0.0 else (if edges[0].mv.Park? then 0.0 else edges[0].mv.e.w) + OwnSeconds(edges[1..])
  }

  function Parkings(edges: seq<UsedEdge>): nat {
    if |edges| == 0 then 0 else (if edges[0].mv.Park? then 1 else 0) + Parkings(edges[1..])
  }

  /** The class of way of an edge that was driven; nothing for any other. */
  function DrivenClass(g: Graph, e: UsedEdge): Option<Class> {
    if e.mv.Along? && e.to.mode.Car? && e.mv.e.st < |g.stretches| then Some(g.stretches[e.mv.e.st].cls) else None
  }

  /** One of two edges driven one after the other is a motorway or a trunk road, and the other is not. */
  predicate Changes(c: Option<Class>, d: Option<Class>) {
    c.Some? && d.Some? && (c.value in {Motorway, Trunk}) != (d.value in {Motorway, Trunk})
  }

  /** How often a walk joins or leaves the motorways; before is the class it was begun on. */
  function ClassChanges(g: Graph, before: Option<Class>, edges: seq<UsedEdge>): nat
    decreases |edges|
  {
    if |edges| == 0 then 0
    else
      var now := DrivenClass(g, edges[0]);
      (if Changes(before, now) then 1 else 0) + ClassChanges(g, now, edges[1..])
  }

  /** What a round charges for a move beyond its seconds: seven times as many again on the approach, what the
      table adds on any other stretch, and the price of parking within three kilometres of an old parking. */
  function SurchargeOf(g: Graph, pen: Penalties, node: nat, e: UsedEdge): real {
    if pen.NoPenalty? then 0.0
    else if e.mv.Park? then
      if pen.parkPen > 0.0 && node < |g.pos|
         && exists k :: 0 <= k < |pen.parkAt| && SquareDist(g.pos[node], pen.parkAt[k]) <= 9000000.0
      then pen.parkPen else 0.0
    else if e.mv.e.st in pen.approach then 7.0 * e.w
    else if e.mv.e.st in pen.stretch then (pen.stretch[e.mv.e.st] - 1.0) * e.w
    else 0.0
  }

  function Surcharge(g: Graph, pen: Penalties, node: nat, edges: seq<UsedEdge>): real
    decreases |edges|
  {
    if |edges| == 0 then 0.0
    else SurchargeOf(g, pen, node, edges[0]) + Surcharge(g, pen, edges[0].to.node, edges[1..])
  }

  /** The class a state was arrived at on, as far as a car is concerned. */
  function ClassBefore(g: Graph, s: State, a: Arrival): Option<Class> {
    if s.mode.Car? && a.On? && a.st < |g.stretches| then Some(g.stretches[a.st].cls) else None
  }

  lemma OneEdgeAddsUp(g: Graph, q: Query, a: Arrival, s: State, e: UsedEdge)
    requires g.Valid() && Legal(g, q, s, e.mv)
    requires e.w == StepClock(g, a, s, e.mv) && e.to == Target(s, e.mv)
    ensures e.w == (if e.mv.Park? then 120.0 else e.mv.e.w)
                 + (if Changes(ClassBefore(g, s, a), DrivenClass(g, e)) then 20.0 else 0.0)
    ensures ClassBefore(g, e.to, ArrivalOf(e.mv)) == DrivenClass(g, e)
  {
    LegalStaysInside(g, q, s, e.mv);
  }

  lemma OneEdgeCharged(g: Graph, q: Query, a: Arrival, s: State, e: UsedEdge)
    requires g.Valid() && Legal(g, q, s, e.mv)
    requires e.w == StepClock(g, a, s, e.mv)
    ensures StepCost(g, q, a, s, e.mv) == e.w + SurchargeOf(g, q.pen, s.node, e)
  {
    assert PARK_SPREAD * PARK_SPREAD == 9000000.0;
    hide Legal;
    if !e.mv.Park? {
      var f := q.pen.Factor(e.mv.e.st);
      hide StepClock;
      assert Charged(e.w, f) == e.w + (f - 1.0) * e.w;
    }
  }

  /** The seconds of a recorded walk, added up by hand. */
  lemma {:induction false} SecondsAddUp(g: Graph, q: Query, a: Arrival, s: State, edges: seq<UsedEdge>)
    requires g.Valid() && LegalWalk(g, q, s, MovesOf(edges)) && Recorded(g, a, s, edges)
    ensures Seconds(edges) == OwnSeconds(edges) + 120.0 * Parkings(edges) as real
                            + 20.0 * ClassChanges(g, ClassBefore(g, s, a), edges) as real
    decreases |edges|
  {
    if |edges| > 0 {
      assert MovesOf(edges)[1..] == MovesOf(edges[1..]);
      OneEdgeAddsUp(g, q, a, s, edges[0]);
      hide StepClock, StepCost, Legal, Changes, DrivenClass, ClassBefore, Target, ArrivalOf;
      SecondsAddUp(g, q, ArrivalOf(edges[0].mv), edges[0].to, edges[1..]);
    }
  }

  /** And its cost. */
  lemma {:induction false} CostAddsUp(g: Graph, q: Query, a: Arrival, s: State, edges: seq<UsedEdge>)
    requires g.Valid() && LegalWalk(g, q, s, MovesOf(edges)) && Recorded(g, a, s, edges)
    ensures Cost(g, q, a, s, MovesOf(edges)) == Seconds(edges) + Surcharge(g, q.pen, s.node, edges)
    decreases |edges|
  {
    if |edges| > 0 {
      assert MovesOf(edges)[1..] == MovesOf(edges[1..]);
      OneEdgeCharged(g, q, a, s, edges[0]);
      hide StepClock, StepCost, Legal, SurchargeOf, Target, ArrivalOf;
      CostAddsUp(g, q, ArrivalOf(edges[0].mv), edges[0].to, edges[1..]);
    }
  }

  /** The seconds of an answer are those of its stretches, two minutes for each parking, and twenty seconds for
      each time it joins or leaves the motorways; its cost is these seconds and what the round charges on top. */
  ghost predicate AddsUp(t: Task, edges: seq<UsedEdge>) {
    && Seconds(edges) == OwnSeconds(edges) + 120.0 * Parkings(edges) as real
                       + 20.0 * ClassChanges(t.g, None, edges) as real
    && Cost(t.g, t.q, Fresh, t.start, MovesOf(edges)) == Seconds(edges) + Surcharge(t.g, t.q.pen, t.start.node, edges)
  }

  /** The walk a search returns: legal, from the start to the destination, its recorded seconds
      the honest clock, and no legal walk cheaper by more than its ramps in doubt. */
  ghost predicate BestWalk(t: Task, edges: seq<UsedEdge>)
    requires t.g.Valid()
  {
    var ms := MovesOf(edges);
    && LegalWalk(t.g, t.q, t.start, ms) && End(t.start, ms).node == t.to
    && Recorded(t.g, Fresh, t.start, edges)
    && forall other :: LegalWalk(t.g, t.q, t.start, other) && End(t.start, other).node == t.to ==>
         Cost(t.g, t.q, Fresh, t.start, ms)
         <= Cost(t.g, t.q, Fresh, t.start, other) + Slack(t.g, t.q, t.start, other)
  }

  /** What the search of an answer has seen: every legal walk has all its end's refusals noted, or has fallen
      behind the answer. */
  ghost predicate Ahead(t: Task, edges: seq<UsedEdge>, st: Refusals)
    requires t.g.Valid()
  {
    forall ms :: LegalWalk(t.g, t.q, t.start, ms) ==>
      || Noted(t.g, t.q, {End(t.start, ms)}, st)
      || Cost(t.g, t.q, Fresh, t.start, MovesOf(edges))
         <= Cost(t.g, t.q, Fresh, t.start, ms) + t.h(End(t.start, ms)) + Slack(t.g, t.q, t.start, ms)
  }

  /** searchSeg. It finds a best walk, or says rightly that there is none; then every edge the
      grade kept a reachable walker off has been noted. */
  method SearchSeg(t: Task, st0: Stats) returns (edges: Option<seq<UsedEdge>>, st: Stats)
    requires Sound(t) && t.q.grade >= 1 && st0.refused.gradeSkipped >= 0
    ensures edges.Some? ==> BestWalk(t, edges.value) && Ahead(t, edges.value, st.refused) && AddsUp(t, edges.value)
    ensures edges.None? ==> forall ms :: LegalWalk(t.g, t.q, t.start, ms) ==>
              End(t.start, ms).node != t.to
              && Noted(t.g, t.q, {End(t.start, ms)}, st.refused)
    ensures Follows(t.g, t.q, st0.refused, st.refused)
    ensures st0.settled <= st.settled <= st0.settled + |Universe(t.g)|
  {
    var goal, F;
    goal, F, st := Explore(t, st0);
    SubsetSize(F.settled, Universe(t.g));
    if goal.None? {
      forall ms | LegalWalk(t.g, t.q, t.start, ms)
        ensures End(t.start, ms).node != t.to && Noted(t.g, t.q, {End(t.start, ms)}, st.refused)
      {
        WalksStaySettled(t, F, t.start, ms);
      }
      return None, st;
    }
    var es := Backtrace(t, F, goal.value);
    forall other | LegalWalk(t.g, t.q, t.start, other) && End(t.start, other).node == t.to
      ensures Cost(t.g, t.q, Fresh, t.start, MovesOf(es))
           <= Cost(t.g, t.q, Fresh, t.start, other) + Slack(t.g, t.q, t.start, other)
    {
      NoWalkBeatsTheGoal(t, F, goal.value, Fresh, t.start, other);
    }
    forall ms | LegalWalk(t.g, t.q, t.start, ms)
      ensures Noted(t.g, t.q, {End(t.start, ms)}, st.refused)
           || Cost(t.g, t.q, Fresh, t.start, MovesOf(es))
              <= Cost(t.g, t.q, Fresh, t.start, ms) + t.h(End(t.start, ms)) + Slack(t.g, t.q, t.start, ms)
    {
      NoWalkGetsAhead(t, F, goal.value, Fresh, t.start, ms);
    }
    SecondsAddUp(t.g, t.q, Fresh, t.start, es);
    CostAddsUp(t.g, t.q, Fresh, t.start, es);
    edges := Some(es);
  }

  lemma SubsetSize<T>(a: set<T>, b: set<T>)
    requires a <= b
    ensures |a| <= |b|
  {
    if a != {} {
      var x :| x in a;
      SubsetSize(a - {x}, b - {x});
    }
  }
}
