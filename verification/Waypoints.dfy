/** From the points of a request to the plan of a trip: where the car is left, the waypoints, and the modes
    of every pair (internal/route/search.go:578-646, 648-766). */
module Waypoints {
  import opened Roads
  import opened Network
  import opened Heuristic
  import opened Trip
  import opened Alternatives

  /** Where a point landed: on a junction, or, for a via on a lift line, on the two ends of the ride. */
  datatype Landed = At(node: nat) | OnLift(first: nat, second: nat, ride: Forced)

  /** A point of the request; wheels says that a road of the first mode is within a kilometre. */
  datatype Spot = Spot(via: bool, wheels: bool, landed: Landed)

  ghost predicate Snapped(spots: seq<Spot>) {
    |spots| >= 2 && forall i :: 0 <= i < |spots| && spots[i].landed.OnLift? ==> spots[i].via
  }

  /** The first point after the start that wheels do not reach. */
  ghost predicate IsFirstWalk(spots: seq<Spot>, w: Option<nat>) {
    match w
    case None => forall i :: 1 <= i < |spots| ==> spots[i].wheels
    case Some(f) => 1 <= f < |spots| && !spots[f].wheels && forall i :: 1 <= i < f ==> spots[i].wheels
  }

  method FirstWalk(spots: seq<Spot>) returns (w: Option<nat>)
    requires |spots| >= 1
    ensures IsFirstWalk(spots, w) && (w.Some? ==> 1 <= w.value < |spots|)
  {
    for i := 1 to |spots|
      invariant forall k :: 1 <= k < i ==> spots[k].wheels
    {
      if !spots[i].wheels { return Some(i); }
    }
    w := None;
  }

  /** How many of the first n points are stops. */
  function Stops(spots: seq<Spot>, n: nat): nat
    requires n <= |spots|
  {
    if n == 0 then 0 else Stops(spots, n - 1) + (if spots[n - 1].via then 0 else 1)
  }

  method CountStops(spots: seq<Spot>) returns (c: nat)
    ensures c == Stops(spots, |spots|)
  {
    c := 0;
    for i := 0 to |spots|
      invariant c == Stops(spots, i)
    {
      if !spots[i].via { c := c + 1; }
    }
  }

  /** The stop the car is left at: with a point that wheels do not reach, the last stop they do reach before
      the first such point; without one, and with three stops or more, the first stop after the start. */
  ghost predicate IsPark(spots: seq<Spot>, firstWalk: Option<nat>, p: nat) {
    && 1 <= p < |spots| && !spots[p].via && spots[p].wheels
    && match firstWalk {
      case None => Stops(spots, |spots|) >= 3 && forall i :: 1 <= i < p ==> spots[i].via
      case Some(f) => p < f <= |spots| && forall i :: p < i < f ==> spots[i].via
    }
  }

  method ParkPoint(spots: seq<Spot>, firstWalk: Option<nat>) returns (p: Option<nat>)
    requires |spots| >= 1 && IsFirstWalk(spots, firstWalk)
    ensures p.Some? ==> IsPark(spots, firstWalk, p.value) && 1 <= p.value < |spots| && !spots[p.value].via
    ensures p.None? ==> forall i: nat :: !IsPark(spots, firstWalk, i)
  {
    p := None;
    if firstWalk.None? {
      var stops := CountStops(spots);
      if stops >= 3 {
        for i := 1 to |spots|
          invariant forall k :: 1 <= k < i ==> spots[k].via
        {
          if !spots[i].via { return Some(i); }
        }
      }
    } else {
      for i := firstWalk.value downto 1
        invariant forall k :: i <= k < firstWalk.value ==> spots[k].via || !spots[k].wheels
      {
        if !spots[i].via && spots[i].wheels { return Some(i); }
      }
    }
  }

  datatype Waypoint = Waypoint(node: nat, stop: bool, pt: nat, force: Option<Forced>)

  /** The waypoints of a point: one, or the two ends of the ride a via stands for. */
  function PointOf(spots: seq<Spot>, i: nat): seq<Waypoint>
    requires i < |spots|
  {
    match spots[i].landed
    case OnLift(first, second, ride) => [Waypoint(first, false, i, Some(ride)), Waypoint(second, false, i, None)]
    case At(node) => [Waypoint(node, !spots[i].via, i, None)]
  }

  /** The waypoints of the first n points. */
  function WaypointsOf(spots: seq<Spot>, n: nat): seq<Waypoint>
    requires n <= |spots|
  {
    if n == 0 then [] else WaypointsOf(spots, n - 1) + PointOf(spots, n - 1)
  }

  /** They stand in order, one for each stop. */
  ghost predicate Laid(spots: seq<Spot>, n: nat, wps: seq<Waypoint>) {
    && n <= |spots|
    && (forall k :: 0 <= k < |wps| ==> wps[k].pt < n && wps[k].stop == !spots[wps[k].pt].via)
    && (forall j, k :: 0 <= j < k < |wps| ==> wps[j].pt <= wps[k].pt)
    && (forall j, k :: 0 <= j < k < |wps| && wps[j].pt == wps[k].pt ==> spots[wps[j].pt].via)
    && (forall i :: 0 <= i < n ==> Covered(wps, i)) && |wps| >= n
  }

  ghost predicate Covered(wps: seq<Waypoint>, i: nat) { exists k :: 0 <= k < |wps| && wps[k].pt == i }

  /** One point more: one waypoint, or two of a via. */
  lemma OnePointMore(spots: seq<Spot>, i: nat, wps: seq<Waypoint>, added: seq<Waypoint>)
    requires i < |spots| && Laid(spots, i, wps) && 1 <= |added| <= 2 && (|added| == 2 ==> spots[i].via)
    requires forall k :: 0 <= k < |added| ==> added[k].pt == i && added[k].stop == !spots[i].via
    ensures Laid(spots, i + 1, wps + added)
  {
    var more := wps + added;
    forall p: nat | p < i + 1 ensures Covered(more, p) {
      if p < i {
        assert Covered(wps, p);
        var k :| 0 <= k < |wps| && wps[k].pt == p;
        assert more[k].pt == p;
      } else {
        assert more[|wps|].pt == p;
      }
    }
  }

  method Lay(spots: seq<Spot>) returns (wps: seq<Waypoint>)
    requires Snapped(spots)
    ensures wps == WaypointsOf(spots, |spots|) && Laid(spots, |spots|, wps)
  {
    hide Covered;
    wps := [];
    for i := 0 to |spots|
      invariant wps == WaypointsOf(spots, i) && Laid(spots, i, wps)
    {
      var s := spots[i];
      var added := match s.landed {
        case OnLift(first, second, ride) =>
          [Waypoint(first, false, i, Some(ride)), Waypoint(second, false, i, None)]
        case At(node) => [Waypoint(node, !s.via, i, None)]
      };
      OnePointMore(spots, i, wps, added);
      wps := wps + added;
    }
  }

  /** The first waypoint of a point, among its stops or among all. */
  method WaypointOf(wps: seq<Waypoint>, pt: Option<nat>, stops: bool) returns (w: Option<nat>)
    ensures w.None? ==> pt.None? || forall k :: 0 <= k < |wps| ==> wps[k].pt != pt.value || (stops && !wps[k].stop)
    ensures w.Some? ==> pt.Some? && w.value < |wps| && wps[w.value].pt == pt.value && (stops ==> wps[w.value].stop)
    ensures w.Some? ==> forall k :: 0 <= k < w.value ==> wps[k].pt != pt.value || (stops && !wps[k].stop)
  {
    if pt.Some? {
      for k := 0 to |wps|
        invariant forall j :: 0 <= j < k ==> wps[j].pt != pt.value || (stops && !wps[j].stop)
      {
        if wps[k].pt == pt.value && (!stops || wps[k].stop) { return Some(k); }
      }
    }
    w := None;
  }

  /** The modes of each pair: driven up to the parking and walked after it; or, where the search must choose a
      trailhead, driven up to the pair in which it does. */
  function PairPlan(plan: seq<Mode>, park: Option<nat>, firstWalk: Option<nat>, k: nat): seq<Mode>
    requires |plan| >= 2
  {
    if park.Some? then (if k < park.value then plan[..1] else plan[1..])
    else if firstWalk.Some? && k + 1 == firstWalk.value then plan
    else if firstWalk.Some? && k + 1 > firstWalk.value then plan[1..]
    else plan[..1]
  }

  /** Driven up to waypoint c and walked from there on; with a trailhead to be found, the pair that ends in
      waypoint c is given both modes. */
  ghost predicate Switches(plan: seq<Mode>, segPlans: seq<seq<Mode>>, c: nat, trailhead: bool)
    requires |plan| == 2
  {
    forall k :: 0 <= k < |segPlans| ==>
      segPlans[k] == if trailhead && k == c - 1 then plan else if k < c then [plan[0]] else [plan[1]]
  }

  /** What a request of two modes makes of its pairs. Waypoint c is the stop the car is left at, or the first
      of the point that has to be walked to. */
  ghost predicate Planned(spots: seq<Spot>, wps: seq<Waypoint>, firstWalk: Option<nat>, tp: TripPlan, c: nat)
    requires |tp.plan| == 2
  {
    && IsFirstWalk(spots, firstWalk) && 1 <= c < |wps| && |tp.segPlans| == |wps| - 1
    && (forall k :: 0 <= k < c ==> wps[k].pt < wps[c].pt)
    && Switches(tp.plan, tp.segPlans, c, tp.parkSeg == 0)
    && (if tp.parkSeg == 0 then firstWalk == Some(wps[c].pt) && forall i: nat :: !IsPark(spots, firstWalk, i)
        else tp.parkSeg == c && wps[c].stop && IsPark(spots, firstWalk, wps[c].pt))
  }

  /** The plan of the trip a request asks for: its waypoints, and the modes of every pair. A trip that begins
      and ends at a stop is planned in advance, or has nothing between its ends that could change the plan;
      and where a stop parks the car every pair has one mode. */
  method TripOf(spots: seq<Spot>, plan: seq<Mode>, grade: int, lifts: bool, avoid: set<nat>)
    returns (tp: TripPlan, ghost wps: seq<Waypoint>, ghost firstWalk: Option<nat>)
    requires Snapped(spots) && 1 <= |plan| <= 2
    ensures wps == WaypointsOf(spots, |spots|) && Laid(spots, |spots|, wps)
    ensures |tp.nodes| == |tp.stop| == |tp.force| == |wps| >= 2
    ensures forall k :: 0 <= k < |wps| ==>
              && tp.nodes[k] == wps[k].node && tp.force[k] == wps[k].force
              && (tp.stop[k] <==> wps[k].stop || k == |wps| - 1)
    ensures tp.plan == plan && tp.grade == grade && tp.lifts == lifts && tp.avoid == avoid
    ensures tp.segPlans == [] ==> tp.parkSeg == 0
    ensures tp.segPlans == [] && |plan| == 2 ==>
              IsFirstWalk(spots, None) && forall i: nat :: !IsPark(spots, None, i)
    ensures tp.segPlans != [] ==> |plan| == 2 && exists c: nat :: Planned(spots, wps, firstWalk, tp, c)
    ensures !spots[0].via && !spots[|spots| - 1].via ==> PlansKnown(tp)
    ensures tp.parkSeg >= 1 ==> OneModeEach(tp)
  {
    hide Stops, IsPark, IsFirstWalk, Laid, WaypointsOf;
    var walkPt, parkPt: Option<nat> := None, None;
    if |plan| >= 2 {
      walkPt := FirstWalk(spots);
      parkPt := ParkPoint(spots, walkPt);
    }
    var ws := Lay(spots);
    wps, firstWalk := ws, walkPt;
    var park := WaypointOf(ws, parkPt, true);
    var walk := WaypointOf(ws, walkPt, false);
    FirstIsFirst(spots, ws);
    var segPlans: seq<seq<Mode>> := [];
    if |plan| >= 2 && (park.Some? || walk.Some?) {
      segPlans := seq(|ws| - 1, k requires 0 <= k < |ws| - 1 => PairPlan(plan, park, walk, k));
    }
    tp := TripPlan(
      seq(|ws|, k requires 0 <= k < |ws| => ws[k].node),
      seq(|ws|, k requires 0 <= k < |ws| => ws[k].stop || k == |ws| - 1),
      plan, segPlans, seq(|ws|, k requires 0 <= k < |ws| => ws[k].force),
      if park.Some? then park.value else 0, grade, lifts, avoid);
    if |plan| == 2 {
      if walkPt.Some? { IsCovered(spots, ws, walkPt.value); }
      if parkPt.Some? { IsCovered(spots, ws, parkPt.value); }
      if segPlans != [] {
        Before(spots, ws, if park.Some? then park.value else walk.value, park.Some?);
        assert Planned(spots, wps, firstWalk, tp, if park.Some? then park.value else walk.value);
      } else if !spots[0].via && !spots[|spots| - 1].via {
        NothingBetween(spots, ws);
      }
    }
  }

  lemma IsCovered(spots: seq<Spot>, wps: seq<Waypoint>, i: nat)
    requires Laid(spots, |spots|, wps) && i < |spots|
    ensures exists k :: 0 <= k < |wps| && wps[k].pt == i && wps[k].stop == !spots[i].via
  {
    assert Covered(wps, i);
  }

  /** Only the waypoints of point 0 stand in front. */
  lemma FirstIsFirst(spots: seq<Spot>, wps: seq<Waypoint>)
    requires Snapped(spots) && Laid(spots, |spots|, wps)
    ensures |wps| >= 2 && wps[0].pt == 0
  {
    assert Covered(wps, 0);
  }

  /** What stands in front of the first waypoint of a point, or of a stop, belongs to points before it. */
  lemma Before(spots: seq<Spot>, wps: seq<Waypoint>, c: nat, stops: bool)
    requires Laid(spots, |spots|, wps) && c < |wps| && (stops ==> wps[c].stop)
    requires forall k :: 0 <= k < c ==> wps[k].pt != wps[c].pt || (stops && !wps[k].stop)
    ensures forall k :: 0 <= k < c ==> wps[k].pt < wps[c].pt
  {}

  /** A stop at x and another at y count as two. */
  lemma {:induction false} TwoStops(spots: seq<Spot>, x: nat, y: nat)
    requires x < y < |spots| && !spots[x].via && !spots[y].via
    ensures Stops(spots, x) + 1 == Stops(spots, x + 1) <= Stops(spots, y) == Stops(spots, y + 1) - 1
    decreases y
  {
    if x + 1 < y { StopsGrow(spots, x + 1, y); }
  }

  lemma ThreeStops(spots: seq<Spot>, x: nat)
    requires 0 < x < |spots| - 1 && !spots[0].via && !spots[x].via && !spots[|spots| - 1].via
    ensures Stops(spots, |spots|) >= 3
  {
    TwoStops(spots, 0, x);
    TwoStops(spots, x, |spots| - 1);
  }

  lemma {:induction false} StopsGrow(spots: seq<Spot>, x: nat, y: nat)
    requires x <= y <= |spots|
    ensures Stops(spots, x) <= Stops(spots, y)
    decreases y
  {
    if x < y { StopsGrow(spots, x, y - 1); }
  }

  /** A stop between the ends is a point between the ends. */
  lemma PointBetween(spots: seq<Spot>, wps: seq<Waypoint>, k: nat)
    requires Snapped(spots) && Laid(spots, |spots|, wps) && !spots[0].via && !spots[|spots| - 1].via
    requires 0 < k < |wps| - 1 && wps[k].stop
    ensures 0 < wps[k].pt < |spots| - 1
  {
    FirstIsFirst(spots, wps);
    assert Covered(wps, |spots| - 1);
    assert wps[0].pt < wps[k].pt < wps[|wps| - 1].pt;
  }

  /** A stop between the ends of a trip from stop to stop is a third one. */
  lemma StopBetween(spots: seq<Spot>, wps: seq<Waypoint>, k: nat)
    requires Snapped(spots) && Laid(spots, |spots|, wps) && !spots[0].via && !spots[|spots| - 1].via
    requires 0 < k < |wps| - 1 && wps[k].stop
    ensures Stops(spots, |spots|) >= 3
  {
    PointBetween(spots, wps, k);
    ThreeStops(spots, wps[k].pt);
  }

  /** So where nothing parks the car and nothing needs walking to, no stop stands between two stops. */
  lemma NothingBetween(spots: seq<Spot>, wps: seq<Waypoint>)
    requires Snapped(spots) && Laid(spots, |spots|, wps) && !spots[0].via && !spots[|spots| - 1].via
    requires IsFirstWalk(spots, None) && forall i: nat :: !IsPark(spots, None, i)
    ensures forall k: nat :: 0 < k < |wps| - 1 ==> !wps[k].stop
  {
    forall k: nat | 0 < k < |wps| - 1 ensures !wps[k].stop {
      if wps[k].stop {
        StopBetween(spots, wps, k);
        FirstStop(spots, |spots| - 1);
      }
    }
  }

  /** Of three stops the first after the start would park the car. */
  lemma {:induction false} FirstStop(spots: seq<Spot>, x: nat)
    requires 1 <= x < |spots| && !spots[x].via && IsFirstWalk(spots, None) && Stops(spots, |spots|) >= 3
    ensures exists i: nat :: IsPark(spots, None, i)
    decreases x
  {
    if i: nat :| 1 <= i < x && !spots[i].via {
      FirstStop(spots, i);
    } else {
      assert IsPark(spots, None, x);
    }
  }

  /** A via in front makes a trip of two modes and two stops that is not planned: the stop between its ends
      closes a span, and the mode of that span's last leg is what the next pair begins with. */
  method ViaInFront(a: nat, b: nat, c: nat, grade: int, lifts: bool, avoid: set<nat>) returns (tp: TripPlan)
    ensures tp == TripPlan([a, b, c], [false, true, true], [Car, Hike], [], [None, None, None], 0, grade, lifts, avoid)
    ensures !PlansKnown(tp)
  {
    var spots := [Spot(true, true, At(a)), Spot(false, true, At(b)), Spot(false, true, At(c))];
    ThreePoints(spots, a, b, c);
    ghost var wps, firstWalk;
    tp, wps, firstWalk := TripOf(spots, [Car, Hike], grade, lifts, avoid);
    NotPlanned(spots, wps, firstWalk, tp);
    assert tp.stop[1];
  }

  /** Where wheels reach everything and there are two stops, nothing is planned. */
  lemma NotPlanned(spots: seq<Spot>, wps: seq<Waypoint>, firstWalk: Option<nat>, tp: TripPlan)
    requires (forall i :: 1 <= i < |spots| ==> spots[i].wheels) && Stops(spots, |spots|) < 3 && |tp.plan| == 2
    ensures forall c: nat :: !Planned(spots, wps, firstWalk, tp, c)
  {}

  lemma ThreePoints(spots: seq<Spot>, a: nat, b: nat, c: nat)
    requires spots == [Spot(true, true, At(a)), Spot(false, true, At(b)), Spot(false, true, At(c))]
    ensures WaypointsOf(spots, 3)
         == [Waypoint(a, false, 0, None), Waypoint(b, true, 1, None), Waypoint(c, true, 2, None)]
    ensures Stops(spots, 3) == 2
  {
    assert WaypointsOf(spots, 0) == [] && Stops(spots, 0) == 0;
    assert WaypointsOf(spots, 1) == [Waypoint(a, false, 0, None)] && Stops(spots, 1) == 0;
    assert WaypointsOf(spots, 2) == [Waypoint(a, false, 0, None), Waypoint(b, true, 1, None)] && Stops(spots, 2) == 1;
  }
}
