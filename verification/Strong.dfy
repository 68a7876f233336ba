/** The hub of a mode's network and everything mutually reachable with it: reach, reverse, strong,
    connected (internal/route/graph.go:698-796). */
module Strong {
  import opened Roads
  import opened Components
  import Csr

  ghost predicate EdgeTo(adj: seq<seq<Edge>>, a: nat, b: nat) {
    a < |adj| && exists k :: 0 <= k < |adj[a]| && adj[a][k].to == b
  }

  ghost predicate Path(adj: seq<seq<Edge>>, p: seq<nat>, a: nat, b: nat) {
    |p| > 0 && p[0] == a && p[|p| - 1] == b && forall i :: 0 <= i < |p| - 1 ==> EdgeTo(adj, p[i], p[i + 1])
  }

  /** Some walk along the edges goes from a to b. */
  ghost predicate Reaches(adj: seq<seq<Edge>>, a: nat, b: nat) { exists p :: Path(adj, p, a, b) }

  lemma ReachesSelf(adj: seq<seq<Edge>>, a: nat)
    ensures Reaches(adj, a, a)
  {
    assert Path(adj, [a], a, a);
  }

  lemma ReachesTrans(adj: seq<seq<Edge>>, a: nat, b: nat, c: nat)
    requires Reaches(adj, a, b) && Reaches(adj, b, c)
    ensures Reaches(adj, a, c)
  {
    var p :| Path(adj, p, a, b);
    var r :| Path(adj, r, b, c);
    assert Path(adj, p + r[1..], a, c);
  }

  lemma ReachesEdge(adj: seq<seq<Edge>>, a: nat, b: nat, c: nat)
    requires Reaches(adj, a, b) && EdgeTo(adj, b, c)
    ensures Reaches(adj, a, c)
  {
    assert Path(adj, [b, c], b, c);
    ReachesTrans(adj, a, b, c);
  }

  // ------------------------------------------------------------------ reach

  /** Everything v leads to has been seen. */
  ghost predicate Closed(adj: seq<seq<Edge>>, seen: seq<bool>, v: nat) {
    v < |adj| && forall k :: 0 <= k < |adj[v]| ==> adj[v][k].to < |seen| && seen[adj[v][k].to]
  }

  /** What has been seen is reachable, and what it leads to is seen unless it waits on the stack;
      busy is the junction being expanded. */
  ghost predicate Flood(adj: seq<seq<Edge>>, start: nat, seen: seq<bool>, stack: seq<nat>, busy: set<nat>) {
    && |seen| == |adj| && start < |seen| && seen[start]
    && (forall x :: x in stack ==> x < |seen| && seen[x])
    && (forall x: nat :: x < |seen| && seen[x] ==> Reaches(adj, start, x))
    && (forall x: nat :: x < |seen| && seen[x] && x !in stack && x !in busy ==> Closed(adj, seen, x))
  }

  ghost function Unseen(seen: seq<bool>): set<nat> { set x: nat | x < |seen| && !seen[x] }

  lemma SeeOne(adj: seq<seq<Edge>>, start: nat, seen: seq<bool>, stack: seq<nat>, busy: set<nat>, v: nat, k: nat)
    requires Inside(adj) && Flood(adj, start, seen, stack, busy)
    requires v < |adj| && seen[v] && k < |adj[v]| && !seen[adj[v][k].to]
    ensures Flood(adj, start, seen[adj[v][k].to := true], stack + [adj[v][k].to], busy)
    ensures Unseen(seen[adj[v][k].to := true]) < Unseen(seen)
  {
    var to := adj[v][k].to;
    assert EdgeTo(adj, v, to);
    ReachesEdge(adj, start, v, to);
    var seen' := seen[to := true];
    assert to in Unseen(seen) && to !in Unseen(seen');
    forall x: nat | x < |seen'| && seen'[x] && x !in stack + [to] && x !in busy ensures Closed(adj, seen', x) {
      assert to in stack + [to];
      assert x != to && x !in stack;
      assert Closed(adj, seen, x);
    }
  }

  lemma {:induction false} FloodIsClosed(adj: seq<seq<Edge>>, start: nat, seen: seq<bool>, p: seq<nat>)
    requires Flood(adj, start, seen, [], {}) && |p| > 0 && p[0] < |seen| && seen[p[0]]
    requires forall i :: 0 <= i < |p| - 1 ==> EdgeTo(adj, p[i], p[i + 1])
    ensures p[|p| - 1] < |seen| && seen[p[|p| - 1]]
  {
    if |p| > 1 {
      assert EdgeTo(adj, p[0], p[1]);
      assert Closed(adj, seen, p[0]);
      FloodIsClosed(adj, start, seen, p[1..]);
    }
  }

  lemma FloodTells(adj: seq<seq<Edge>>, start: nat, seen: seq<bool>)
    requires Flood(adj, start, seen, [], {})
    ensures forall x: nat :: x < |adj| ==> (seen[x] <==> Reaches(adj, start, x))
  {
    forall x: nat | x < |adj| && Reaches(adj, start, x) ensures seen[x] {
      var p :| Path(adj, p, start, x);
      FloodIsClosed(adj, start, seen, p);
    }
  }

  lemma PopOne(adj: seq<seq<Edge>>, start: nat, seen: seq<bool>, stack: seq<nat>)
    requires Flood(adj, start, seen, stack, {}) && |stack| > 0
    ensures stack[|stack| - 1] < |adj| && seen[stack[|stack| - 1]]
    ensures Flood(adj, start, seen, stack[..|stack| - 1], {stack[|stack| - 1]})
  {
    var top, rest := stack[|stack| - 1], stack[..|stack| - 1];
    assert stack == rest + [top];
    assert top in stack;
    forall x | x in rest ensures x < |seen| && seen[x] { assert x in stack; }
    forall x: nat | x < |seen| && seen[x] && x !in rest && x !in {top} ensures Closed(adj, seen, x) {
      assert x !in stack;
    }
  }

  /** reach: exactly the junctions a walk gets to from start. */
  method Reach(adj: seq<seq<Edge>>, start: nat) returns (reached: seq<bool>)
    requires Inside(adj) && start < |adj|
    ensures |reached| == |adj|
    ensures forall x: nat :: x < |adj| ==> (reached[x] <==> Reaches(adj, start, x))
  {
    var seen := new bool[|adj|](_ => false);
    seen[start] := true;
    var stack := [start];
    ReachesSelf(adj, start);
    assert Flood(adj, start, seen[..], stack, {});
    while |stack| > 0
      invariant seen.Length == |adj| && Flood(adj, start, seen[..], stack, {})
      decreases Unseen(seen[..]), |stack|
    {
      PopOne(adj, start, seen[..], stack);
      var v := stack[|stack| - 1];
      stack := stack[..|stack| - 1];
      stack := Expand(adj, start, v, seen, stack);
    }
    FloodTells(adj, start, seen[..]);
    reached := seen[..];
  }

  /** Everything v leads to that was not seen is seen, and waits. */
  method Expand(adj: seq<seq<Edge>>, ghost start: nat, v: nat, seen: array<bool>, stack0: seq<nat>)
      returns (stack: seq<nat>)
    requires Inside(adj) && v < |adj| == seen.Length && seen[v] && Flood(adj, start, seen[..], stack0, {v})
    modifies seen
    ensures Flood(adj, start, seen[..], stack, {})
    ensures Unseen(seen[..]) < Unseen(old(seen[..])) || (seen[..] == old(seen[..]) && stack == stack0)
  {
    stack := stack0;
    hide Flood, Unseen;
    for k := 0 to |adj[v]|
      invariant seen[v] && Flood(adj, start, seen[..], stack, {v})
      invariant forall j :: 0 <= j < k ==> seen[adj[v][j].to]
      invariant Unseen(seen[..]) < Unseen(old(seen[..])) || (seen[..] == old(seen[..]) && stack == stack0)
    {
      var to := adj[v][k].to;
      if !seen[to] {
        ghost var was := seen[..];
        SeeOne(adj, start, seen[..], stack, {v}, v, k);
        seen[to] := true;
        assert seen[..] == was[to := true];
        stack := stack + [to];
      }
    }
    ExpandedOne(adj, start, v, seen[..], stack);
  }

  lemma ExpandedOne(adj: seq<seq<Edge>>, start: nat, v: nat, seen: seq<bool>, stack: seq<nat>)
    requires Inside(adj) && v < |adj| == |seen| && Flood(adj, start, seen, stack, {v})
    requires forall j :: 0 <= j < |adj[v]| ==> seen[adj[v][j].to]
    ensures Flood(adj, start, seen, stack, {})
  {
    assert Closed(adj, seen, v);
  }

  // ------------------------------------------------------------------ reverse

  /** Every edge turned around, packed by the same two passes. */
  method Reverse(adj: seq<seq<Edge>>) returns (r: seq<seq<Edge>>)
    requires Inside(adj)
    ensures |r| == |adj| && Inside(r)
    ensures forall a, b :: EdgeTo(r, b, a) <==> EdgeTo(adj, a, b)
  {
    var keys: seq<nat>, vals: seq<Edge> := [], [];
    for v := 0 to |adj|
      invariant |keys| == |vals| && Turned(adj, keys, vals, v, 0)
    {
      for k := 0 to |adj[v]|
        invariant |keys| == |vals| && Turned(adj, keys, vals, v, k)
      {
        TurnOne(adj, keys, vals, v, k);
        keys, vals := keys + [adj[v][k].to], vals + [adj[v][k].(to := v)];
      }
    }
    r := Csr.Layers(|adj|, keys, vals);
    TurnedTells(adj, keys, vals, r);
  }

  /** The pairs are exactly the turned edges of the first v rows and the first k of the next. */
  ghost predicate Turned(adj: seq<seq<Edge>>, keys: seq<nat>, vals: seq<Edge>, v: nat, k: nat)
    requires |keys| == |vals|
  {
    && (forall i :: 0 <= i < |keys| ==> keys[i] < |adj| && vals[i].to < |adj| && EdgeTo(adj, vals[i].to, keys[i]))
    && (forall a, j :: 0 <= a < |adj| && 0 <= j < |adj[a]| && (a < v || (a == v && j < k)) ==>
        Has(keys, vals, adj[a][j].to, a))
  }

  ghost predicate Has(keys: seq<nat>, vals: seq<Edge>, key: nat, to: nat)
    requires |keys| == |vals|
  {
    exists i :: 0 <= i < |keys| && keys[i] == key && vals[i].to == to
  }

  lemma TurnOne(adj: seq<seq<Edge>>, keys: seq<nat>, vals: seq<Edge>, v: nat, k: nat)
    requires |keys| == |vals| && Inside(adj) && Turned(adj, keys, vals, v, k) && v < |adj| && k < |adj[v]|
    ensures Turned(adj, keys + [adj[v][k].to], vals + [adj[v][k].(to := v)], v, k + 1)
  {
    var keys', vals' := keys + [adj[v][k].to], vals + [adj[v][k].(to := v)];
    assert EdgeTo(adj, v, adj[v][k].to);
    forall a, j | 0 <= a < |adj| && 0 <= j < |adj[a]| && (a < v || (a == v && j < k + 1))
      ensures Has(keys', vals', adj[a][j].to, a)
    {
      if a == v && j == k {
        assert keys'[|keys|] == adj[a][j].to && vals'[|keys|].to == a;
      } else {
        assert Has(keys, vals, adj[a][j].to, a);
        var i :| 0 <= i < |keys| && keys[i] == adj[a][j].to && vals[i].to == a;
        assert keys'[i] == adj[a][j].to && vals'[i].to == a;
      }
    }
  }

  lemma TurnedTells(adj: seq<seq<Edge>>, keys: seq<nat>, vals: seq<Edge>, r: seq<seq<Edge>>)
    requires |keys| == |vals| && Inside(adj) && Turned(adj, keys, vals, |adj|, 0)
    requires |r| == |adj| && forall k :: 0 <= k < |r| ==> r[k] == Csr.At(keys, vals, k)
    ensures Inside(r) && forall a, b :: EdgeTo(r, b, a) <==> EdgeTo(adj, a, b)
  {
    forall b, k | 0 <= b < |r| && 0 <= k < |r[b]|
      ensures r[b][k].to < |r| && EdgeTo(adj, r[b][k].to, b)
    {
      Csr.AtHolds(keys, vals, b, r[b][k]);
      var i :| 0 <= i < |keys| && keys[i] == b && vals[i] == r[b][k];
    }
    forall a: nat, b: nat | EdgeTo(adj, a, b) ensures EdgeTo(r, b, a) {
      var j :| 0 <= j < |adj[a]| && adj[a][j].to == b;
      assert Has(keys, vals, adj[a][j].to, a);
      var i :| 0 <= i < |keys| && keys[i] == b && vals[i].to == a;
      Csr.AtHolds(keys, vals, b, vals[i]);
      assert vals[i] in r[b];
    }
  }

  lemma ReversedReaches(adj: seq<seq<Edge>>, r: seq<seq<Edge>>, a: nat, b: nat)
    requires forall x, y :: EdgeTo(r, y, x) <==> EdgeTo(adj, x, y)
    requires Reaches(r, a, b)
    ensures Reaches(adj, b, a)
  {
    var p :| Path(r, p, a, b);
    var q := seq(|p|, i requires 0 <= i < |p| => p[|p| - 1 - i]);
    forall i | 0 <= i < |q| - 1 ensures EdgeTo(adj, q[i], q[i + 1]) {
      var j := |p| - 2 - i;
      assert EdgeTo(r, p[j], p[j + 1]);
    }
    assert Path(adj, q, b, a);
  }

  // ------------------------------------------------------------------ strong

  /** Any two junctions the flags mark reach each other. */
  ghost predicate Mutual(adj: seq<seq<Edge>>, flags: seq<bool>) {
    |flags| == |adj| &&
    forall a: nat, b: nat :: a < |flags| && b < |flags| && flags[a] && flags[b] ==> Reaches(adj, a, b)
  }

  /** hub is a busiest junction of the main component, if there is one. */
  ghost predicate IsHub(adj: seq<seq<Edge>>, comp: seq<nat>, main: Option<nat>, hub: Option<nat>, upto: nat)
    requires upto <= |adj| == |comp|
  {
    match hub
    case None => main.None? || main.value !in comp[..upto]
    case Some(h) =>
      && h < upto && main == Some(comp[h])
      && forall v :: 0 <= v < upto && comp[v] == main.value ==> |adj[v]| <= |adj[h]|
  }

  /** The flags mark exactly what is mutually reachable with the hub. */
  ghost predicate IsStrong(adj: seq<seq<Edge>>, hub: nat, flags: seq<bool>) {
    |flags| == |adj| &&
    forall v: nat :: v < |adj| ==> (flags[v] <==> Reaches(adj, hub, v) && Reaches(adj, v, hub))
  }

  /** strong: the junctions mutually reachable with the busiest one of the main component, or
      nothing when there is no hub or they are fewer than a quarter of the component. */
  method Strong(adj: seq<seq<Edge>>, comp: seq<nat>, main: Option<nat>, weakN: nat)
      returns (scc: Option<seq<bool>>, ghost hub: Option<nat>, ghost flags: seq<bool>)
    requires Inside(adj) && |comp| == |adj|
    ensures IsHub(adj, comp, main, hub, |adj|)
    ensures hub.Some? ==> IsStrong(adj, hub.value, flags) && Mutual(adj, flags)
    ensures scc.Some? ==> Mutual(adj, scc.value) && weakN <= |Flagged(scc.value)| * 4
    ensures scc == if hub.Some? && |Flagged(flags)| * 4 >= weakN then Some(flags) else None
  {
    var best: Option<nat> := None;
    for i := 0 to |adj|
      invariant IsHub(adj, comp, main, best, i)
    {
      if main == Some(comp[i]) && (best.None? || |adj[i]| > |adj[best.value]|) { best := Some(i); }
    }
    hub, scc, flags := best, None, [];
    if best.Some? {
      var rev := Reverse(adj);
      var fwd := Reach(adj, best.value);
      var bwd := Reach(rev, best.value);
      var marked, cnt := [], 0;
      for i := 0 to |adj|
        invariant |marked| == i && forall v: nat :: v < i ==> (marked[v] <==> fwd[v] && bwd[v])
        invariant cnt == |Flagged(marked)|
      {
        var both := fwd[i] && bwd[i];
        FlagOne(marked, both);
        marked := marked + [both];
        if both { cnt := cnt + 1; }
      }
      HubIsMutual(adj, rev, best.value, marked);
      flags := marked;
      if cnt * 4 >= weakN { scc := Some(marked); }
    }
  }

  ghost function Flagged(flags: seq<bool>): set<nat> { set v: nat | v < |flags| && flags[v] }

  lemma FlagOne(flags: seq<bool>, b: bool)
    ensures |Flagged(flags + [b])| == |Flagged(flags)| + (if b then 1 else 0)
  {
    assert Flagged(flags + [b]) == Flagged(flags) + (if b then {|flags|} else {});
  }

  lemma HubIsMutual(adj: seq<seq<Edge>>, rev: seq<seq<Edge>>, hub: nat, flags: seq<bool>)
    requires |rev| == |adj| == |flags| && hub < |adj|
    requires forall x, y :: EdgeTo(rev, y, x) <==> EdgeTo(adj, x, y)
    requires forall v: nat :: v < |adj| ==> (flags[v] <==> Reaches(adj, hub, v) && Reaches(rev, hub, v))
    ensures Mutual(adj, flags) && IsStrong(adj, hub, flags)
  {
    forall v: nat | v < |adj| ensures Reaches(rev, hub, v) <==> Reaches(adj, v, hub) {
      if Reaches(rev, hub, v) { ReversedReaches(adj, rev, hub, v); }
      if Reaches(adj, v, hub) { ReversedReaches(rev, adj, v, hub); }
    }
    forall a: nat, b: nat | a < |flags| && b < |flags| && flags[a] && flags[b] ensures Reaches(adj, a, b) {
      ReachesTrans(adj, a, hub, b);
    }
  }

  /** connected: the strong component where there is one, else the main weak one. */
  predicate Connected(adj: seq<seq<Edge>>, scc: Option<seq<bool>>, comp: seq<nat>, main: Option<nat>, v: nat)
    requires v < |adj| == |comp| && (scc.Some? ==> |scc.value| == |adj|)
  {
    if scc.Some? then scc.value[v] else |adj[v]| > 0 && main == Some(comp[v])
  }

  /** Who is accepted: with a strong component, who can be reached from its hub and reach it; without one, who has a
      way out and is tied to the junctions of the main component. */
  lemma WhoIsConnected(adj: seq<seq<Edge>>, scc: Option<seq<bool>>, comp: seq<nat>, main: Option<nat>, hub: nat,
      v: nat, u: nat)
    requires Inside(adj) && v < |adj| == |comp| && u < |adj| && hub < |adj|
    requires scc.Some? ==> IsStrong(adj, hub, scc.value)
    requires main == Some(comp[u])
    requires comp[v] == comp[u] <==> Tied(Links(adj, |adj|, 0), v, u)
    ensures scc.Some? ==> (Connected(adj, scc, comp, main, v) <==> Reaches(adj, hub, v) && Reaches(adj, v, hub))
    ensures scc.None? ==>
              (Connected(adj, scc, comp, main, v) <==>
                 (exists w :: EdgeTo(adj, v, w)) && Tied(Links(adj, |adj|, 0), v, u))
  {
    hide Reaches, Tied, Links;
    if |adj[v]| > 0 { assert EdgeTo(adj, v, adj[v][0].to); }
  }
}
