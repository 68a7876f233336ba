/** Ring assembly: ways chained into rings and open chains by the nodes they share
    (tools/region-boundary.py:118-154). */
module Chain {
  import opened Roads

  /** A projected point and the id of the node it is. */
  datatype Pt = Pt(at: Point, nid: nat)

  type Line = s: seq<Pt> | |s| >= 2 witness [Pt(Point(0.0, 0.0), 0), Pt(Point(0.0, 0.0), 0)]

  function Ids(s: seq<Pt>): (ids: seq<nat>)
    ensures |ids| == |s| && forall k :: 0 <= k < |ids| ==> ids[k] == s[k].nid
  {
    seq(|s|, k requires 0 <= k < |s| => s[k].nid)
  }

  function First(s: Line): nat { s[0].nid }

  function Last(s: Line): nat { s[|s| - 1].nid }

  function Reversed(s: Line): (r: Line)
    ensures |r| == |s| && forall k :: 0 <= k < |r| ==> r[k] == s[|s| - 1 - k]
  {
    seq(|s|, k requires 0 <= k < |s| => s[|s| - 1 - k])
  }

  /** One way as a chain takes it up: as it is, or turned round. */
  datatype Piece = Piece(way: nat, flipped: bool)

  function Laid(ways: seq<Line>, p: Piece): Line
    requires p.way < |ways|
  {
    if p.flipped then Reversed(ways[p.way]) else ways[p.way]
  }

  /** Every list of nodes begins where the one before it ends. */
  ghost predicate Chained(ls: seq<seq<nat>>) {
    && (forall k :: 0 <= k < |ls| ==> |ls[k]| >= 2)
    && forall k :: 0 < k < |ls| ==> ls[k - 1][|ls[k - 1]| - 1] == ls[k][0]
  }

  /** The nodes visited, the shared ones once. */
  ghost function Glued(ls: seq<seq<nat>>): (ids: seq<nat>)
    requires Chained(ls) && |ls| > 0
    ensures |ids| >= 2 && ids[0] == ls[0][0] && ids[|ids| - 1] == ls[|ls| - 1][|ls[|ls| - 1]| - 1]
  {
    if |ls| == 1 then ls[0] else Glued(ls[..|ls| - 1]) + ls[|ls| - 1][1..]
  }

  lemma GluedBehind(ls: seq<seq<nat>>, l: seq<nat>)
    requires |ls| > 0 && Chained(ls) && |l| >= 2 && l[0] == ls[|ls| - 1][|ls[|ls| - 1]| - 1]
    ensures Chained(ls + [l]) && Glued(ls + [l]) == Glued(ls) + l[1..]
  {
    assert (ls + [l])[..|ls|] == ls;
  }

  lemma GluedOne(l: seq<nat>)
    requires |l| >= 2
    ensures Chained([l]) && Glued([l]) == l
  {}

  /** A node shared by two lists may be left out of either. */
  lemma Shared(a: seq<nat>, b: seq<nat>)
    requires |a| > 0 && |b| > 0 && a[|a| - 1] == b[0]
    ensures a + b[1..] == a[..|a| - 1] + b
  {}

  lemma ChainedFront(ls: seq<seq<nat>>)
    requires Chained(ls) && |ls| >= 2
    ensures var front := ls[..|ls| - 1]; var p := front[|front| - 1];
            Chained(front) && ls == front + [ls[|ls| - 1]] && |p| >= 2 && |ls[|ls| - 1]| >= 2
                && ls[|ls| - 1][0] == p[|p| - 1]
  {}

  lemma {:induction false} GluedInFront(l: seq<nat>, ls: seq<seq<nat>>)
    requires |ls| > 0 && Chained(ls) && |l| >= 2 && |ls[0]| > 0 && l[|l| - 1] == ls[0][0]
    ensures Chained([l] + ls) && Glued([l] + ls) == l[..|l| - 1] + Glued(ls)
  {
    hide Chained, Glued;
    if |ls| == 1 {
      assert ls == [ls[0]];
      GluedOne(l);
      TwoEach(ls);
      GluedOne(ls[0]);
      GluedBehind([l], ls[0]);
      Shared(l, ls[0]);
    } else {
      var front, last := ls[..|ls| - 1], ls[|ls| - 1];
      ChainedFront(ls);
      GluedInFront(l, front);
      GluedBehind(front, last);
      GluedBehind([l] + front, last);
      assert ([l] + front) + [last] == [l] + ls;
      Regroup(l[..|l| - 1], Glued(front), last[1..]);
    }
  }

  lemma TwoEach(ls: seq<seq<nat>>)
    requires Chained(ls) && |ls| > 0
    ensures |ls[0]| >= 2
  {}

  lemma Regroup(a: seq<nat>, b: seq<nat>, c: seq<nat>)
    ensures (a + b) + c == a + (b + c)
  {}

  /** What each piece visits. */
  ghost function Parts(ways: seq<Line>, ps: seq<Piece>): (ls: seq<seq<nat>>)
    requires forall k :: 0 <= k < |ps| ==> ps[k].way < |ways|
    ensures |ls| == |ps| && forall k :: 0 <= k < |ls| ==> ls[k] == Ids(Laid(ways, ps[k]))
  {
    seq(|ps|, k requires 0 <= k < |ps| => Ids(Laid(ways, ps[k])))
  }

  /** The line is the walk over these pieces: ways taken forwards or turned round, joined at nodes they
      share and nowhere else. */
  ghost predicate Walk(ways: seq<Line>, ps: seq<Piece>, ch: Line) {
    && |ps| > 0 && (forall k :: 0 <= k < |ps| ==> ps[k].way < |ways|)
    && Chained(Parts(ways, ps)) && Ids(ch) == Glued(Parts(ways, ps))
  }

  lemma WalkEnds(ways: seq<Line>, ps: seq<Piece>, ch: Line)
    requires Walk(ways, ps, ch)
    ensures First(ch) == First(Laid(ways, ps[0])) && Last(ch) == Last(Laid(ways, ps[|ps| - 1]))
  {
    hide Laid;
    assert First(ch) == Ids(ch)[0] && Last(ch) == Ids(ch)[|ch| - 1];
  }

  lemma LastPart(ways: seq<Line>, ps: seq<Piece>, ch: Line)
    requires Walk(ways, ps, ch)
    ensures var ls := Parts(ways, ps); First(ch) == ls[0][0] && Last(ch) == ls[|ls| - 1][|ls[|ls| - 1]| - 1]
  {
    hide Laid;
    assert First(ch) == Ids(ch)[0] && Last(ch) == Ids(ch)[|ch| - 1];
  }

  lemma PartsAdd(ways: seq<Line>, ps: seq<Piece>, qs: seq<Piece>)
    requires forall k :: 0 <= k < |ps| ==> ps[k].way < |ways|
    requires forall k :: 0 <= k < |qs| ==> qs[k].way < |ways|
    ensures Parts(ways, ps + qs) == Parts(ways, ps) + Parts(ways, qs)
    ensures |qs| == 1 ==> Parts(ways, qs) == [Ids(Laid(ways, qs[0]))]
  {
    hide Laid;
  }

  lemma IdsAdd(a: seq<Pt>, b: seq<Pt>)
    ensures Ids(a + b) == Ids(a) + Ids(b)
  {}

  lemma Append(ways: seq<Line>, ps: seq<Piece>, ch: Line, p: Piece)
    requires Walk(ways, ps, ch) && p.way < |ways| && First(Laid(ways, p)) == Last(ch)
    ensures Walk(ways, ps + [p], ch + Laid(ways, p)[1..])
  {
    hide Chained, Glued, Laid;
    var l := Laid(ways, p);
    PartsAdd(ways, ps, [p]);
    LastPart(ways, ps, ch);
    GluedBehind(Parts(ways, ps), Ids(l));
    IdsAdd(ch, l[1..]);
    assert Ids(l[1..]) == Ids(l)[1..];
  }

  lemma Prepend(ways: seq<Line>, ps: seq<Piece>, ch: Line, p: Piece)
    requires Walk(ways, ps, ch) && p.way < |ways| && Last(Laid(ways, p)) == First(ch)
    ensures Walk(ways, [p] + ps, Laid(ways, p)[..|Laid(ways, p)| - 1] + ch)
  {
    hide Chained, Glued, Laid;
    var l := Laid(ways, p);
    PartsAdd(ways, [p], ps);
    PartsAdd(ways, [], [p]);
    LastPart(ways, ps, ch);
    GluedInFront(Ids(l), Parts(ways, ps));
    IdsAdd(l[..|l| - 1], ch);
    assert Ids(l[..|l| - 1]) == Ids(l)[..|l| - 1];
  }

  // ------------------------------------------------------------------ the segments of a line

  function Link(a: nat, b: nat): (nat, nat) { if a <= b then (a, b) else (b, a) }

  /** A segment is its two ends, in either order. */
  lemma SegmentIsItsEnds(a: nat, b: nat, c: nat, d: nat)
    ensures Link(a, b) == Link(c, d) <==> (a == c && b == d) || (a == d && b == c)
  {
  }

  /** The segments of a line, whichever way they are walked. */
  ghost function Segments(ids: seq<nat>): multiset<(nat, nat)> {
    if |ids| < 2 then multiset{} else Segments(ids[..|ids| - 1]) + multiset{Link(ids[|ids| - 2], ids[|ids| - 1])}
  }

  lemma OneMoreSegment(s: seq<nat>, last: nat, x: nat)
    requires |s| > 0 && s[|s| - 1] == last
    ensures Segments(s + [x]) == Segments(s) + multiset{Link(last, x)}
  {
    assert (s + [x])[..|s|] == s;
  }

  lemma SegmentsStep(a: seq<nat>, front: seq<nat>, x: nat)
    requires |a| > 0 && |front| > 0 && a[|a| - 1] == front[0]
    requires Segments(a + front[1..]) == Segments(a) + Segments(front)
    ensures Segments(a + (front + [x])[1..]) == Segments(a) + Segments(front + [x])
  {
    hide Segments, Link;
    var last := front[|front| - 1];
    OneMoreSegment(front, last, x);
    OneMoreSegment(a + front[1..], last, x);
    assert a + (front + [x])[1..] == (a + front[1..]) + [x];
  }

  lemma {:induction false} SegmentsAdd(a: seq<nat>, b: seq<nat>)
    requires |a| > 0 && |b| > 0 && a[|a| - 1] == b[0]
    ensures Segments(a + b[1..]) == Segments(a) + Segments(b)
  {
    hide Segments;
    if |b| == 1 {
      assert a + b[1..] == a;
      NoSegment(b);
    } else {
      var front := b[..|b| - 1];
      assert b == front + [b[|b| - 1]];
      SegmentsAdd(a, front);
      SegmentsStep(a, front, b[|b| - 1]);
    }
  }

  lemma NoSegment(b: seq<nat>)
    requires |b| < 2
    ensures Segments(b) == multiset{}
  {}

  lemma OneSegment(a: nat, b: nat)
    ensures Segments([a, b]) == multiset{Link(a, b)}
  {
    assert [a, b][..1] == [a];
    assert Segments([a]) == multiset{};
  }

  lemma {:induction false} SegmentsReversed(a: seq<nat>, r: seq<nat>)
    requires |r| == |a| && forall k :: 0 <= k < |a| ==> r[k] == a[|a| - 1 - k]
    ensures Segments(r) == Segments(a)
    decreases |a|
  {
    if |a| >= 2 {
      hide Segments;
      SegmentsReversed(a[..|a| - 1], r[1..]);
      SegmentsFirst(r);
      SegmentsLast(a);
    } else {
      assert Segments(r) == Segments(a) == multiset{};
    }
  }

  lemma SegmentsFirst(r: seq<nat>)
    requires |r| >= 2
    ensures Segments(r) == multiset{Link(r[0], r[1])} + Segments(r[1..])
  {
    hide Link, Segments;
    OneSegment(r[0], r[1]);
    SegmentsAdd([r[0], r[1]], r[1..]);
    assert [r[0], r[1]] + r[1..][1..] == r;
  }

  lemma SegmentsLast(a: seq<nat>)
    requires |a| >= 2
    ensures Segments(a) == Segments(a[..|a| - 1]) + multiset{Link(a[|a| - 2], a[|a| - 1])}
  {}

  lemma LaidSegments(ways: seq<Line>, p: Piece)
    requires p.way < |ways|
    ensures Segments(Ids(Laid(ways, p))) == Segments(Ids(ways[p.way]))
  {
    if p.flipped { SegmentsReversed(Ids(ways[p.way]), Ids(Laid(ways, p))); }
  }

  /** The segments of the ways marked. */
  ghost function Marked(ways: seq<Line>, used: seq<bool>): multiset<(nat, nat)>
    requires |used| == |ways|
  {
    if |ways| == 0 then multiset{}
    else
      var last := |ways| - 1;
      Marked(ways[..last], used[..last]) + (if used[last] then Segments(Ids(ways[last])) else multiset{})
  }

  lemma {:induction false} MarkOne(ways: seq<Line>, used: seq<bool>, j: nat)
    requires |used| == |ways| && j < |ways| && !used[j]
    ensures Marked(ways, used[j := true]) == Marked(ways, used) + Segments(Ids(ways[j]))
  {
    var last := |ways| - 1;
    if j < last {
      MarkOne(ways[..last], used[..last], j);
      assert used[j := true][..last] == used[..last][j := true];
    } else {
      assert used[j := true][..last] == used[..last];
    }
  }

  lemma {:induction false} NothingMarked(ways: seq<Line>, used: seq<bool>)
    requires |used| == |ways| && forall j :: 0 <= j < |used| ==> !used[j]
    ensures Marked(ways, used) == multiset{}
  {
    if |ways| > 0 { NothingMarked(ways[..|ways| - 1], used[..|ways| - 1]); }
  }

  // ------------------------------------------------------------------ the ends of the ways

  predicate EndsAt(w: Line, node: nat) { First(w) == node || Last(w) == node }

  function At(ends: map<nat, seq<nat>>, node: nat): seq<nat> { if node in ends then ends[node] else [] }

  predicate Lists(ends: map<nat, seq<nat>>, node: nat, j: nat) { j in At(ends, node) }

  /** Which ways begin or end at each node. */
  ghost predicate IsEnds(ways: seq<Line>, ends: map<nat, seq<nat>>) {
    forall node: nat, j: nat :: Lists(ends, node, j) <==> j < |ways| && EndsAt(ways[j], node)
  }

  function Filed(ends: map<nat, seq<nat>>, node: nat, i: nat): map<nat, seq<nat>> { ends[node := At(ends, node) + [i]] }

  method EndsOf(ways: seq<Line>) returns (ends: map<nat, seq<nat>>)
    ensures IsEnds(ways, ends)
  {
    ends := map[];
    assert forall node: nat, j: nat :: !Lists(ends, node, j);
    for i := 0 to |ways|
      invariant IsEnds(ways[..i], ends)
    {
      FileWay(ways[..i], ends, ways[i]);
      assert ways[..i + 1] == ways[..i] + [ways[i]];
      ends := Filed(ends, First(ways[i]), i);
      ends := Filed(ends, Last(ways[i]), i);
    }
    assert ways[..|ways|] == ways;
  }

  lemma FileWay(ways: seq<Line>, ends: map<nat, seq<nat>>, w: Line)
    requires IsEnds(ways, ends)
    ensures IsEnds(ways + [w], Filed(Filed(ends, First(w), |ways|), Last(w), |ways|))
  {
    hide First, Last;
    var all, e := ways + [w], Filed(Filed(ends, First(w), |ways|), Last(w), |ways|);
    forall node: nat, j: nat ensures Lists(e, node, j) <==> j < |all| && EndsAt(all[j], node) {
      assert Lists(ends, node, j) <==> j < |ways| && EndsAt(ways[j], node);
    }
  }

  /** No unused way touches the node. */
  ghost predicate Spent(ways: seq<Line>, used: seq<bool>, node: nat)
    requires |used| == |ways|
  {
    forall j :: 0 <= j < |ways| && !used[j] ==> !EndsAt(ways[j], node)
  }

  /** The first way at a node that is not used yet. */
  method NextAt(ways: seq<Line>, ends: map<nat, seq<nat>>, used: seq<bool>, node: nat) returns (next: Option<nat>)
    requires |used| == |ways| && IsEnds(ways, ends)
    ensures match next
            case Some(j) => j < |ways| && !used[j] && EndsAt(ways[j], node)
            case None => Spent(ways, used, node)
  {
    var here := At(ends, node);
    forall c | 0 <= c < |here| ensures here[c] < |used| && EndsAt(ways[here[c]], node) {
      assert Lists(ends, node, here[c]);
    }
    for k := 0 to |here|
      invariant forall c :: 0 <= c < k ==> used[here[c]]
    {
      if !used[here[k]] { return Some(here[k]); }
    }
    forall j: nat | j < |ways| && !used[j] ensures !EndsAt(ways[j], node) {
      assert Lists(ends, node, j) <==> EndsAt(ways[j], node);
    }
    return None;
  }

  // ------------------------------------------------------------------ a chain grows

  ghost function Unused(used: seq<bool>): set<nat> { set j: nat | j < |used| && !used[j] }

  ghost function Numbers(ps: seq<Piece>): (ns: seq<nat>)
    ensures |ns| == |ps| && forall k :: 0 <= k < |ns| ==> ns[k] == ps[k].way
  {
    seq(|ps|, k requires 0 <= k < |ps| => ps[k].way)
  }

  /** The ways of some pieces, each as often as it is used. */
  ghost function WaysOf(ps: seq<Piece>): multiset<nat> { multiset(Numbers(ps)) }

  lemma WaysOfAdd(ps: seq<Piece>, qs: seq<Piece>)
    ensures WaysOf(ps + qs) == WaysOf(ps) + WaysOf(qs)
  {
    assert Numbers(ps + qs) == Numbers(ps) + Numbers(qs);
  }

  lemma OneWay(p: Piece)
    ensures WaysOf([p]) == multiset{p.way}
  {
    assert Numbers([p]) == [p.way];
  }

  /** Where a chain stands: the walk over its pieces, which are exactly the ways used since before. */
  ghost predicate Growing(ways: seq<Line>, before: seq<bool>, used: seq<bool>, ps: seq<Piece>, ch: Line) {
    && |before| == |used| == |ways| && Walk(ways, ps, ch)
    && Unused(used) <= Unused(before)
    && multiset(Unused(before)) == multiset(Unused(used)) + WaysOf(ps)
    && Marked(ways, used) == Marked(ways, before) + Segments(Ids(ch))
  }

  /** How a piece must lie to go on from a node: forwards it begins there, backwards it ends there. */
  function Facing(w: Line, j: nat, ref: nat, forward: bool): Piece { Piece(j, (First(w) == ref) != forward) }

  /** The chain with one more way at one end. */
  function Longer(ways: seq<Line>, ch: Line, p: Piece, forward: bool): Line
    requires p.way < |ways|
  {
    if forward then ch + Laid(ways, p)[1..] else Laid(ways, p)[..|Laid(ways, p)| - 1] + ch
  }

  lemma FacingMeets(ways: seq<Line>, j: nat, ref: nat, forward: bool)
    requires j < |ways| && EndsAt(ways[j], ref)
    ensures var l := Laid(ways, Facing(ways[j], j, ref, forward));
            if forward then First(l) == ref else Last(l) == ref
  {}

  lemma LongerForwards(ways: seq<Line>, ps: seq<Piece>, ch: Line, p: Piece)
    requires Walk(ways, ps, ch) && p.way < |ways| && First(Laid(ways, p)) == Last(ch)
    ensures var longer := Longer(ways, ch, p, true);
            && Walk(ways, ps + [p], longer) && First(longer) == First(ch)
            && Segments(Ids(longer)) == Segments(Ids(ch)) + Segments(Ids(ways[p.way]))
  {
    hide Walk, Laid, Segments;
    var l := Laid(ways, p);
    Append(ways, ps, ch, p);
    LaidSegments(ways, p);
    IdsAdd(ch, l[1..]);
    assert Ids(l[1..]) == Ids(l)[1..];
    SegmentsAdd(Ids(ch), Ids(l));
  }

  lemma LongerBackwards(ways: seq<Line>, ps: seq<Piece>, ch: Line, p: Piece)
    requires Walk(ways, ps, ch) && p.way < |ways| && Last(Laid(ways, p)) == First(ch)
    ensures var longer := Longer(ways, ch, p, false);
            && Walk(ways, [p] + ps, longer) && Last(longer) == Last(ch)
            && Segments(Ids(longer)) == Segments(Ids(ch)) + Segments(Ids(ways[p.way]))
  {
    hide Walk, Laid, Segments;
    var l := Laid(ways, p);
    Prepend(ways, ps, ch, p);
    LaidSegments(ways, p);
    IdsAdd(l[..|l| - 1], ch);
    assert Ids(l[..|l| - 1] + ch) == Ids(l) + Ids(ch)[1..];
    SegmentsAdd(Ids(l), Ids(ch));
  }

  /** The end a chain goes on from. */
  function EndOf(ch: Line, forward: bool): nat { if forward then Last(ch) else First(ch) }

  function WithPiece(ps: seq<Piece>, p: Piece, forward: bool): seq<Piece> { if forward then ps + [p] else [p] + ps }

  lemma LongerWalks(ways: seq<Line>, ps: seq<Piece>, ch: Line, j: nat, forward: bool)
    requires Walk(ways, ps, ch) && j < |ways| && EndsAt(ways[j], EndOf(ch, forward))
    ensures var p := Facing(ways[j], j, EndOf(ch, forward), forward);
            var longer := Longer(ways, ch, p, forward);
            && Walk(ways, WithPiece(ps, p, forward), longer)
            && Segments(Ids(longer)) == Segments(Ids(ch)) + Segments(Ids(ways[j]))
            && EndOf(longer, !forward) == EndOf(ch, !forward)
  {
    FacingMeets(ways, j, EndOf(ch, forward), forward);
    var p := Facing(ways[j], j, EndOf(ch, forward), forward);
    hide Walk, Laid, Segments, Longer, EndsAt, First, Last;
    if forward { LongerForwards(ways, ps, ch, p); } else { LongerBackwards(ways, ps, ch, p); }
  }

  lemma UseOne(used: seq<bool>, j: nat)
    requires j < |used| && !used[j]
    ensures j in Unused(used) && Unused(used[j := true]) == Unused(used) - {j}
    ensures multiset(Unused(used)) == multiset(Unused(used[j := true])) + multiset{j}
  {
    assert Unused(used[j := true]) == Unused(used) - {j};
  }

  lemma WithPieceWays(ps: seq<Piece>, p: Piece, forward: bool)
    ensures WaysOf(WithPiece(ps, p, forward)) == WaysOf(ps) + multiset{p.way}
  {
    OneWay(p);
    WaysOfAdd(ps, [p]);
    WaysOfAdd([p], ps);
  }

  lemma GrowOne(ways: seq<Line>, before: seq<bool>, used: seq<bool>, ps: seq<Piece>, ch: Line, j: nat, forward: bool)
    requires Growing(ways, before, used, ps, ch) && j < |ways| && !used[j] && EndsAt(ways[j], EndOf(ch, forward))
    ensures var p := Facing(ways[j], j, EndOf(ch, forward), forward);
            var longer := Longer(ways, ch, p, forward);
            && Growing(ways, before, used[j := true], WithPiece(ps, p, forward), longer)
            && EndOf(longer, !forward) == EndOf(ch, !forward)
            && Unused(used[j := true]) < Unused(used)
  {
    hide Walk, Segments, Marked, Longer, EndsAt, EndOf, Unused, WaysOf, WithPiece;
    LongerWalks(ways, ps, ch, j, forward);
    MarkOne(ways, used, j);
    WithPieceWays(ps, Facing(ways[j], j, EndOf(ch, forward), forward), forward);
    UseOne(used, j);
  }

  /** The inner loop: on from one end until nothing goes on from there or the ring has closed. */
  method Grow(ways: seq<Line>, ends: map<nat, seq<nat>>, used0: seq<bool>, ch0: Line, forward: bool,
              ghost before: seq<bool>, ghost ps0: seq<Piece>)
      returns (used: seq<bool>, ch: Line, ghost ps: seq<Piece>)
    requires IsEnds(ways, ends) && Growing(ways, before, used0, ps0, ch0)
    ensures Growing(ways, before, used, ps, ch) && Unused(used) <= Unused(used0)
    ensures EndOf(ch, !forward) == EndOf(ch0, !forward)
    ensures First(ch) == Last(ch) || Spent(ways, used, EndOf(ch, forward))
    ensures |ps| > |ps0| || (Spent(ways, used0, EndOf(ch0, forward)) && ch == ch0 && |ps| == |ps0|)
  {
    used, ch, ps := used0, ch0, ps0;
    while true
      invariant Growing(ways, before, used, ps, ch) && Unused(used) <= Unused(used0)
      invariant EndOf(ch, !forward) == EndOf(ch0, !forward)
      invariant |ps| > |ps0| || (used == used0 && ch == ch0 && |ps| == |ps0|)
      decreases Unused(used)
    {
      hide Walk, Segments, Marked, IsEnds, Spent, Longer, Unused, WaysOf, EndOf, WithPiece;
      var ref := EndOf(ch, forward);
      var next := NextAt(ways, ends, used, ref);
      if next.None? { return; }
      var j := next.value;
      var p := Facing(ways[j], j, ref, forward);
      GrowOne(ways, before, used, ps, ch, j, forward);
      used := used[j := true];
      ch := Longer(ways, ch, p, forward);
      ps := WithPiece(ps, p, forward);
      if First(ch) == Last(ch) { return; }
    }
  }

  lemma SpentStays(ways: seq<Line>, used: seq<bool>, later: seq<bool>, node: nat)
    requires |used| == |later| == |ways| && Spent(ways, used, node) && Unused(later) <= Unused(used)
    ensures Spent(ways, later, node)
  {
    forall j | 0 <= j < |ways| && !later[j] ensures !EndsAt(ways[j], node) { assert j in Unused(later); }
  }

  lemma OneWalk(ways: seq<Line>, i: nat)
    requires i < |ways|
    ensures Walk(ways, [Piece(i, false)], ways[i])
  {
    assert Parts(ways, [Piece(i, false)]) == [Ids(ways[i])];
  }

  lemma OneWayIsAWalk(ways: seq<Line>, before: seq<bool>, i: nat)
    requires |before| == |ways| && i < |ways| && !before[i]
    ensures Growing(ways, before, before[i := true], [Piece(i, false)], ways[i])
  {
    hide Segments, Marked, Unused, WaysOf, Walk;
    OneWalk(ways, i);
    UseOne(before, i);
    OneWay(Piece(i, false));
    MarkOne(ways, before, i);
  }

  /** One chain from way i: forwards as far as it goes, then backwards, unless it closes. Even a way that is a ring
      by itself is first walked on from: it stays alone only if no other unused way touches the node it closes at. */
  method ChainFrom(ways: seq<Line>, ends: map<nat, seq<nat>>, used0: seq<bool>, i: nat)
      returns (used: seq<bool>, ch: Line, ghost ps: seq<Piece>)
    requires IsEnds(ways, ends) && |used0| == |ways| && i < |ways| && !used0[i]
    ensures Growing(ways, used0, used, ps, ch) && used[i]
    ensures First(ch) == Last(ch) || (Spent(ways, used, First(ch)) && Spent(ways, used, Last(ch)))
    ensures |ps| > 1 || (Spent(ways, used0[i := true], Last(ways[i])) && ch == ways[i])
  {
    hide Walk, Segments, Marked, IsEnds, Spent, WaysOf;
    OneWayIsAWalk(ways, used0, i);
    used, ch, ps := used0[i := true], ways[i], [Piece(i, false)];
    ghost var start := used;
    used, ch, ps := Grow(ways, ends, used, ch, true, used0, ps);
    if First(ch) != Last(ch) {
      ghost var last, mid := Last(ch), used;
      used, ch, ps := Grow(ways, ends, used, ch, false, used0, ps);
      SpentStays(ways, mid, used, last);
    }
    assert i !in Unused(start);
  }

  /** A chain's ends are ends of ways that were unused when it began. */
  lemma NewEndsAreNew(ways: seq<Line>, before: seq<bool>, used: seq<bool>, ps: seq<Piece>, ch: Line, node: nat)
    requires Growing(ways, before, used, ps, ch) && Spent(ways, before, node)
    ensures !EndsAt(ch, node)
  {
    WalkEnds(ways, ps, ch);
    var a, b := ps[0].way, ps[|ps| - 1].way;
    assert a == Numbers(ps)[0] && b == Numbers(ps)[|ps| - 1];
    assert a in WaysOf(ps) && b in WaysOf(ps);
    assert a in multiset(Unused(before)) && b in multiset(Unused(before));
    LaidEnds(ways, ps[0]);
    LaidEnds(ways, ps[|ps| - 1]);
    hide Walk, WaysOf, Marked, Laid;
  }

  lemma LaidEnds(ways: seq<Line>, p: Piece)
    requires p.way < |ways|
    ensures EndsAt(ways[p.way], First(Laid(ways, p))) && EndsAt(ways[p.way], Last(Laid(ways, p)))
  {}

  // ------------------------------------------------------------------ all chains

  /** A finished line and the pieces it is made of. */
  datatype Output = Output(line: Line, pieces: seq<Piece>)

  predicate Closes(l: Line) { First(l) == Last(l) && |l| >= 4 }

  ghost function Taken(outs: seq<Output>): multiset<nat> {
    if outs == [] then multiset{} else Taken(outs[..|outs| - 1]) + multiset(Numbers(outs[|outs| - 1].pieces))
  }

  ghost function Length(outs: seq<Output>): multiset<(nat, nat)> {
    if outs == [] then multiset{} else Length(outs[..|outs| - 1]) + Segments(Ids(outs[|outs| - 1].line))
  }

  ghost predicate Walks(ways: seq<Line>, outs: seq<Output>) {
    forall k :: 0 <= k < |outs| ==> Walk(ways, outs[k].pieces, outs[k].line)
  }

  /** The ends of different open chains are different nodes. */
  ghost predicate EndsApart(outs: seq<Output>) {
    forall i, j :: 0 <= i < j < |outs| && First(outs[i].line) != Last(outs[i].line) ==>
      !EndsAt(outs[j].line, First(outs[i].line)) && !EndsAt(outs[j].line, Last(outs[i].line))
  }

  /** Nothing more can come to the ends of an open chain. */
  ghost predicate AllSpent(ways: seq<Line>, used: seq<bool>, outs: seq<Output>)
    requires |used| == |ways|
  {
    forall k :: 0 <= k < |outs| && First(outs[k].line) != Last(outs[k].line) ==>
      Spent(ways, used, First(outs[k].line)) && Spent(ways, used, Last(outs[k].line))
  }

  function NoneUsed(n: nat): seq<bool> { seq(n, _ => false) }

  /** What chain has done so far: every way marked is in exactly one output, once; every output is a walk;
      no segment is lost or added. */
  ghost predicate SoFar(ways: seq<Line>, used: seq<bool>, closed: seq<Output>, loose: seq<Output>) {
    && |used| == |ways| && Walks(ways, closed) && Walks(ways, loose)
    && Taken(closed) + Taken(loose) + multiset(Unused(used)) == multiset(Unused(NoneUsed(|ways|)))
    && Length(closed) + Length(loose) == Marked(ways, used)
  }

  ghost predicate Sorted(closed: seq<Output>, loose: seq<Output>) {
    && (forall k :: 0 <= k < |closed| ==> Closes(closed[k].line))
    && forall k :: 0 <= k < |loose| ==> !Closes(loose[k].line)
  }

  lemma OneOutput(ways: seq<Line>, outs: seq<Output>, o: Output)
    requires Walks(ways, outs) && Walk(ways, o.pieces, o.line)
    ensures Walks(ways, outs + [o]) && Taken(outs + [o]) == Taken(outs) + WaysOf(o.pieces)
    ensures Length(outs + [o]) == Length(outs) + Segments(Ids(o.line))
  {
    hide Walk, Segments;
    assert (outs + [o])[..|outs|] == outs;
  }

  lemma NextSoFar(ways: seq<Line>, used: seq<bool>, later: seq<bool>, closed: seq<Output>, loose: seq<Output>,
      o: Output, closes: bool)
    requires SoFar(ways, used, closed, loose) && Growing(ways, used, later, o.pieces, o.line)
    ensures SoFar(ways, later, if closes then closed + [o] else closed, if closes then loose else loose + [o])
  {
    hide Walk, Segments, Marked, Walks, Taken, Length, WaysOf, Unused;
    OneOutput(ways, closed, o);
    OneOutput(ways, loose, o);
  }

  lemma NextApart(ways: seq<Line>, used: seq<bool>, later: seq<bool>, loose: seq<Output>, o: Output)
    requires |used| == |ways| && EndsApart(loose) && AllSpent(ways, used, loose)
    requires Growing(ways, used, later, o.pieces, o.line)
    ensures EndsApart(loose + [o])
  {
    hide Walk, Growing, Spent, EndsAt;
    forall i | 0 <= i < |loose| && First(loose[i].line) != Last(loose[i].line)
      ensures !EndsAt(o.line, First(loose[i].line)) && !EndsAt(o.line, Last(loose[i].line))
    {
      NewEndsAreNew(ways, used, later, o.pieces, o.line, First(loose[i].line));
      NewEndsAreNew(ways, used, later, o.pieces, o.line, Last(loose[i].line));
    }
  }

  lemma NextSpent(ways: seq<Line>, used: seq<bool>, later: seq<bool>, loose: seq<Output>)
    requires |used| == |later| == |ways| && AllSpent(ways, used, loose) && Unused(later) <= Unused(used)
    ensures AllSpent(ways, later, loose)
  {
    hide Spent, Unused;
    forall k | 0 <= k < |loose| && First(loose[k].line) != Last(loose[k].line)
      ensures Spent(ways, later, First(loose[k].line)) && Spent(ways, later, Last(loose[k].line))
    {
      SpentStays(ways, used, later, First(loose[k].line));
      SpentStays(ways, used, later, Last(loose[k].line));
    }
  }

  ghost function Lines(outs: seq<Output>): (ls: seq<Line>)
    ensures |ls| == |outs| && forall k :: 0 <= k < |ls| ==> ls[k] == outs[k].line
  {
    seq(|outs|, k requires 0 <= k < |outs| => outs[k].line)
  }

  predicate AllUsed(used: seq<bool>, upto: nat) { upto <= |used| && forall j :: 0 <= j < upto ==> used[j] }

  lemma OneMoreUsed(used: seq<bool>, later: seq<bool>, upto: nat)
    requires |used| == |later| && upto < |used| && Unused(later) <= Unused(used) && later[upto] && AllUsed(used, upto)
    ensures AllUsed(later, upto + 1)
  {
    forall j: nat | j < upto ensures later[j] { assert j !in Unused(used); }
  }

  /** Where chain stands between two ways; the pieces are kept for the record. */
  ghost predicate Sound(ways: seq<Line>, used: seq<bool>, closed: seq<Line>, loose: seq<Line>, made: seq<Output>,
      left: seq<Output>) {
    && SoFar(ways, used, made, left) && Sorted(made, left) && EndsApart(left) && AllSpent(ways, used, left)
    && Lines(made) == closed && Lines(left) == loose
  }

  lemma Nothing(ways: seq<Line>)
    ensures Sound(ways, NoneUsed(|ways|), [], [], [], [])
  {
    NothingMarked(ways, NoneUsed(|ways|));
  }

  lemma Turn(ways: seq<Line>, used: seq<bool>, later: seq<bool>, closed: seq<Line>, loose: seq<Line>,
             made: seq<Output>, left: seq<Output>, o: Output)
    requires Sound(ways, used, closed, loose, made, left) && Growing(ways, used, later, o.pieces, o.line)
    requires First(o.line) == Last(o.line) || (Spent(ways, later, First(o.line)) && Spent(ways, later, Last(o.line)))
    ensures if Closes(o.line) then Sound(ways, later, closed + [o.line], loose, made + [o], left)
            else Sound(ways, later, closed, loose + [o.line], made, left + [o])
  {
    hide Growing, SoFar, Spent, Sorted, AllSpent, EndsApart, Closes, Lines, First, Last;
    NextSoFar(ways, used, later, made, left, o, Closes(o.line));
    LaterUnused(ways, used, later, o.pieces, o.line);
    NextSpent(ways, used, later, left);
    NextApart(ways, used, later, left, o);
    SpentAdd(ways, later, left, o);
    LinesAdd(made, o);
    LinesAdd(left, o);
    SortedAdd(made, left, o);
  }

  lemma LaterUnused(ways: seq<Line>, used: seq<bool>, later: seq<bool>, ps: seq<Piece>, ch: Line)
    requires Growing(ways, used, later, ps, ch)
    ensures |used| == |later| == |ways| && Unused(later) <= Unused(used)
  {}

  lemma LinesAdd(outs: seq<Output>, o: Output)
    ensures Lines(outs + [o]) == Lines(outs) + [o.line]
  {}

  lemma SortedAdd(made: seq<Output>, left: seq<Output>, o: Output)
    requires Sorted(made, left)
    ensures if Closes(o.line) then Sorted(made + [o], left) else Sorted(made, left + [o])
  {
    hide Closes;
  }

  lemma SpentAdd(ways: seq<Line>, used: seq<bool>, left: seq<Output>, o: Output)
    requires |used| == |ways| && AllSpent(ways, used, left)
    requires First(o.line) == Last(o.line) || (Spent(ways, used, First(o.line)) && Spent(ways, used, Last(o.line)))
    ensures AllSpent(ways, used, left + [o])
  {
    hide Spent, First, Last;
  }

  /** Every way is in exactly one output, and once. */
  ghost predicate EachOnce(n: nat, made: seq<Output>, left: seq<Output>) {
    forall j: nat :: (Taken(made) + Taken(left))[j] == if j < n then 1 else 0
  }

  lemma Everything(ways: seq<Line>, used: seq<bool>, made: seq<Output>, left: seq<Output>)
    requires SoFar(ways, used, made, left) && forall j :: 0 <= j < |used| ==> used[j]
    ensures EachOnce(|ways|, made, left)
    ensures Length(made) + Length(left) == Marked(ways, seq(|ways|, _ => true))
  {
    hide Taken, Length, Walks, Marked;
    assert used == seq(|ways|, _ => true);
    assert Unused(used) == {};
    var all := NoneUsed(|ways|);
    assert multiset(Unused(used)) == multiset{};
    assert Taken(made) + Taken(left) == multiset(Unused(all));
    forall j: nat ensures multiset(Unused(all))[j] == if j < |ways| then 1 else 0 {
      assert j in Unused(all) <==> j < |ways|;
    }
  }

  /** The segments of some lines. */
  ghost function Total(ls: seq<Line>): multiset<(nat, nat)> {
    if ls == [] then multiset{} else Total(ls[..|ls| - 1]) + Segments(Ids(ls[|ls| - 1]))
  }

  lemma {:induction false} TotalIsLength(outs: seq<Output>)
    ensures Total(Lines(outs)) == Length(outs)
  {
    if outs != [] {
      TotalIsLength(outs[..|outs| - 1]);
      assert Lines(outs)[..|outs| - 1] == Lines(outs[..|outs| - 1]);
    }
  }

  /** No end of an open chain is an end of a later one. */
  ghost predicate Apart(ls: seq<Line>) {
    forall i, j :: 0 <= i < j < |ls| && First(ls[i]) != Last(ls[i]) ==>
      !EndsAt(ls[j], First(ls[i])) && !EndsAt(ls[j], Last(ls[i]))
  }

  /** A line of four points or more that ends where it begins. */
  ghost predicate IsRing(l: Line) { |l| >= 4 && l[0].nid == l[|l| - 1].nid }

  lemma RingsClose(closed: seq<Line>, loose: seq<Line>)
    requires (forall c :: c in closed ==> Closes(c)) && forall c :: c in loose ==> !Closes(c)
    ensures (forall c :: c in closed ==> IsRing(c)) && forall c :: c in loose ==> !IsRing(c)
  {
    forall c: Line ensures IsRing(c) <==> Closes(c) {}
  }

  /** chain: closed rings and open chains. The rings are rings of four points and more, the rest is not;
      the segments are the same as before; no end of an open chain is an end of a later one: what could
      be joined is. Every output is a walk over its ways, and every way is in one output, once. */
  method Chains(ways: seq<Line>) returns (closed: seq<Line>, loose: seq<Line>, ghost made: seq<Output>,
      ghost left: seq<Output>)
    ensures (forall c :: c in closed ==> IsRing(c)) && forall c :: c in loose ==> !IsRing(c)
    ensures Total(closed) + Total(loose) == Marked(ways, seq(|ways|, _ => true))
    ensures Apart(loose)
    ensures Lines(made) == closed && Lines(left) == loose
    ensures Walks(ways, made) && Walks(ways, left) && EachOnce(|ways|, made, left)
  {
    var ends := EndsOf(ways);
    var used := NoneUsed(|ways|);
    Nothing(ways);
    closed, loose, made, left := [], [], [], [];
    for i := 0 to |ways|
      invariant |used| == |ways| && Sound(ways, used, closed, loose, made, left)
      invariant AllUsed(used, i)
    {
      hide AllUsed, Sound, Walk, Growing, Marked, Unused, Spent, WaysOf, Closes;
      if !used[i] {
        ghost var before := used;
        var ch: Line;
        ghost var ps;
        used, ch, ps := ChainFrom(ways, ends, used, i);
        ghost var o := Output(ch, ps);
        LaterUnused(ways, before, used, ps, ch);
        Turn(ways, before, used, closed, loose, made, left, o);
        if Closes(ch) {
          closed, made := closed + [ch], made + [o];
        } else {
          loose, left := loose + [ch], left + [o];
        }
        OneMoreUsed(before, used, i);
      } else {
        OneMoreUsed(used, used, i);
      }
    }
    Everything(ways, used, made, left);
    RingsClose(closed, loose);
    TotalIsLength(made);
    TotalIsLength(left);
  }
}
