/** Which junctions a mode can reach: weak components by union-find with path halving, and the
    strongly connected hub by forward and backward reachability (internal/route/graph.go:651-796). */
module Components {
  import opened Roads
  import Csr

  // ------------------------------------------------------------------ being tied together

  /** p walks over the links, each in either direction. */
  ghost predicate Chain(links: set<(nat, nat)>, p: seq<nat>) {
    forall i :: 0 <= i < |p| - 1 ==> (p[i], p[i + 1]) in links || (p[i + 1], p[i]) in links
  }

  ghost predicate ChainFrom(links: set<(nat, nat)>, p: seq<nat>, a: nat, b: nat) {
    |p| > 0 && p[0] == a && p[|p| - 1] == b && Chain(links, p)
  }

  ghost predicate Tied(links: set<(nat, nat)>, a: nat, b: nat) { exists p :: ChainFrom(links, p, a, b) }

  lemma TiedSelf(links: set<(nat, nat)>, a: nat)
    ensures Tied(links, a, a)
  {
    assert ChainFrom(links, [a], a, a);
  }

  lemma TiedLink(links: set<(nat, nat)>, a: nat, b: nat)
    requires (a, b) in links
    ensures Tied(links, a, b) && Tied(links, b, a)
  {
    assert ChainFrom(links, [a, b], a, b) && ChainFrom(links, [b, a], b, a);
  }

  lemma TiedTrans(links: set<(nat, nat)>, a: nat, b: nat, c: nat)
    requires Tied(links, a, b) && Tied(links, b, c)
    ensures Tied(links, a, c)
  {
    var p :| ChainFrom(links, p, a, b);
    var r :| ChainFrom(links, r, b, c);
    assert ChainFrom(links, p + r[1..], a, c);
  }

  lemma TiedSym(links: set<(nat, nat)>, a: nat, b: nat)
    requires Tied(links, a, b)
    ensures Tied(links, b, a)
  {
    var p :| ChainFrom(links, p, a, b);
    var r := seq(|p|, i requires 0 <= i < |p| => p[|p| - 1 - i]);
    forall i | 0 <= i < |r| - 1 ensures (r[i], r[i + 1]) in links || (r[i + 1], r[i]) in links {
      var j := |p| - 2 - i;
      assert (p[j], p[j + 1]) in links || (p[j + 1], p[j]) in links;
    }
    assert ChainFrom(links, r, b, a);
  }

  lemma TiedMore(links: set<(nat, nat)>, more: set<(nat, nat)>, a: nat, b: nat)
    requires Tied(links, a, b) && links <= more
    ensures Tied(more, a, b)
  {
    var p :| ChainFrom(links, p, a, b);
    assert ChainFrom(more, p, a, b);
  }

  // ------------------------------------------------------------------ the forest

  /** A parent array whose every chain climbs to one representative: rank falls along the way. */
  ghost predicate Forest(parent: seq<nat>, rep: seq<nat>, rank: seq<nat>) {
    && |parent| == |rep| == |rank|
    && forall x {:trigger parent[x]} :: 0 <= x < |parent| ==>
         && parent[x] < |parent| && rep[x] < |parent|
         && rep[parent[x]] == rep[x] && rep[rep[x]] == rep[x]
         && (parent[x] == x <==> rep[x] == x)
         && (parent[x] != x ==> rank[parent[x]] < rank[x])
  }

  lemma HalvingKeepsForest(parent: seq<nat>, rep: seq<nat>, rank: seq<nat>, x: nat)
    requires Forest(parent, rep, rank) && x < |parent| && parent[x] != x
    ensures parent[x] < |parent| && parent[parent[x]] < |parent|
    ensures Forest(parent[x := parent[parent[x]]], rep, rank)
    ensures rep[parent[parent[x]]] == rep[x] && rank[parent[parent[x]]] < rank[x]
  {
    var up := parent[parent[x]];
    assert up < |parent| && rep[up] == rep[x] && rank[up] < rank[x];
    var halved := parent[x := up];
    forall y | 0 <= y < |halved|
      ensures halved[y] < |halved| && rep[y] < |halved|
      ensures rep[halved[y]] == rep[y] && rep[rep[y]] == rep[y]
      ensures halved[y] == y <==> rep[y] == y
      ensures halved[y] != y ==> rank[halved[y]] < rank[y]
    {
      assert parent[y] < |parent|;
    }
  }

  /** find with path halving: it ends on every forest, answers the representative, and changes
      nobody's. */
  method Find(parent: array<nat>, x: nat, ghost rep: seq<nat>, ghost rank: seq<nat>) returns (r: nat)
    requires x < parent.Length && Forest(parent[..], rep, rank)
    modifies parent
    ensures Forest(parent[..], rep, rank)
    ensures |rep| == |rank| == parent.Length && r < parent.Length && r == rep[x] && rep[r] == r
  {
    r := x;
    assert parent[..][x] == parent[x];
    while parent[r] != r
      invariant |rep| == |rank| == parent.Length && r < parent.Length
      invariant Forest(parent[..], rep, rank) && rep[r] == rep[x]
      decreases rank[r]
    {
      ghost var was := parent[..];
      HalvingKeepsForest(was, rep, rank, r);
      hide Forest;
      parent[r] := parent[parent[r]];
      assert parent[..] == was[r := was[was[r]]];
      r := parent[r];
    }
    assert parent[..][r] == r;
  }

  /** Hanging one root under another. */
  ghost function JoinRep(rep: seq<nat>, ra: nat, rb: nat): (r: seq<nat>)
    ensures |r| == |rep|
  {
    seq(|rep|, x requires 0 <= x < |rep| => if rep[x] == ra then rb else rep[x])
  }

  ghost function JoinRank(rep: seq<nat>, rank: seq<nat>, ra: nat, rb: nat): (r: seq<nat>)
    requires |rep| == |rank| && rb < |rank|
    ensures |r| == |rep|
  {
    seq(|rep|, x requires 0 <= x < |rep| => if rep[x] == ra then rank[x] + rank[rb] + 1 else rank[x])
  }

  lemma JoinKeepsForest(parent: seq<nat>, rep: seq<nat>, rank: seq<nat>, ra: nat, rb: nat)
    requires Forest(parent, rep, rank) && ra < |parent| && rb < |parent|
    requires rep[ra] == ra && rep[rb] == rb && ra != rb
    ensures Forest(parent[ra := rb], JoinRep(rep, ra, rb), JoinRank(rep, rank, ra, rb))
  {
    var p, r, k := parent[ra := rb], JoinRep(rep, ra, rb), JoinRank(rep, rank, ra, rb);
    assert parent[ra] < |parent| && parent[rb] < |parent|;
    forall y | 0 <= y < |p|
      ensures p[y] < |p| && r[y] < |p|
      ensures r[p[y]] == r[y] && r[r[y]] == r[y]
      ensures p[y] == y <==> r[y] == y
      ensures p[y] != y ==> k[p[y]] < k[y]
    {
      assert parent[y] < |parent|;
    }
  }

  /** The forest says exactly what the links so far tie together. */
  ghost predicate Labels(links: set<(nat, nat)>, rep: seq<nat>) {
    && (forall x :: 0 <= x < |rep| ==> Tied(links, x, rep[x]))
    && (forall l :: l in links ==> l.0 < |rep| && l.1 < |rep| && rep[l.0] == rep[l.1])
  }

  lemma {:induction false} ChainKeepsLabel(links: set<(nat, nat)>, rep: seq<nat>, p: seq<nat>)
    requires Labels(links, rep) && Chain(links, p) && |p| > 0 && p[0] < |rep|
    ensures p[|p| - 1] < |rep| && rep[p[0]] == rep[p[|p| - 1]]
  {
    if |p| > 1 {
      assert (p[0], p[1]) in links || (p[1], p[0]) in links;
      ChainKeepsLabel(links, rep, p[1..]);
    }
  }

  lemma LabelsDecide(links: set<(nat, nat)>, rep: seq<nat>, a: nat, b: nat)
    requires Labels(links, rep) && a < |rep| && b < |rep|
    ensures rep[a] == rep[b] <==> Tied(links, a, b)
  {
    if rep[a] == rep[b] {
      TiedSym(links, b, rep[b]);
      TiedTrans(links, a, rep[a], b);
    }
    if Tied(links, a, b) {
      var p :| ChainFrom(links, p, a, b);
      ChainKeepsLabel(links, rep, p);
    }
  }

  lemma LinkLabels(links: set<(nat, nat)>, rep: seq<nat>, a: nat, b: nat)
    requires Labels(links, rep) && a < |rep| && b < |rep| && rep[a] < |rep| && rep[b] < |rep|
    ensures rep[a] == rep[b] ==> Labels(links + {(a, b)}, rep)
    ensures Labels(links + {(a, b)}, JoinRep(rep, rep[a], rep[b]))
  {
    var more := links + {(a, b)};
    var joined := JoinRep(rep, rep[a], rep[b]);
    TiedMore(links, more, a, rep[a]);
    TiedSym(more, a, rep[a]);
    TiedLink(more, a, b);
    TiedMore(links, more, b, rep[b]);
    TiedTrans(more, rep[a], a, b);
    TiedTrans(more, rep[a], b, rep[b]);
    forall x | 0 <= x < |rep| ensures Tied(more, x, rep[x]) && Tied(more, x, joined[x]) {
      TiedMore(links, more, x, rep[x]);
      if rep[x] == rep[a] { TiedTrans(more, x, rep[a], rep[b]); }
    }
  }

  // ------------------------------------------------------------------ components

  ghost predicate Inside(adj: seq<seq<Edge>>) {
    forall v, k :: 0 <= v < |adj| && 0 <= k < |adj[v]| ==> adj[v][k].to < |adj|
  }

  /** The links of the first whole rows, and of the first k edges of the next one. */
  ghost function Links(adj: seq<seq<Edge>>, rows: nat, k: nat): set<(nat, nat)>
    requires rows <= |adj| && (k > 0 ==> rows < |adj| && k <= |adj[rows]|)
  {
    set v: nat, j: nat | v <= rows && v < |adj| && j < |adj[v]| && (v < rows || j < k) :: (v, adj[v][j].to)
  }

  /** A junction of the component: it has a way out and stands under r. */
  predicate Counts(adj: seq<seq<Edge>>, rep: seq<nat>, r: nat, v: nat)
    requires v < |adj| == |rep|
  {
    |adj[v]| > 0 && rep[v] == r
  }

  /** How many of the first i junctions have a way out and stand under r. */
  function Size(adj: seq<seq<Edge>>, rep: seq<nat>, r: nat, i: nat): nat
    requires i <= |adj| == |rep|
  {
    if i == 0 then 0 else Size(adj, rep, r, i - 1) + (if Counts(adj, rep, r, i - 1) then 1 else 0)
  }

  /** main is a label that most junctions with a way out carry, and most is how many do; there is
      none exactly when no junction has a way out. */
  ghost predicate IsMain(adj: seq<seq<Edge>>, rep: seq<nat>, main: Option<nat>, most: nat)
    requires |adj| == |rep|
  {
    && (main.None? <==> forall v :: 0 <= v < |adj| ==> |adj[v]| == 0)
    && (if main.Some? then most == Size(adj, rep, main.value, |adj|) > 0 else most == 0)
    && forall r :: Size(adj, rep, r, |adj|) <= most
  }

  lemma {:induction false} SizePositive(adj: seq<seq<Edge>>, rep: seq<nat>, r: nat, i: nat)
    requires i <= |adj| == |rep|
    ensures Size(adj, rep, r, i) > 0 <==> exists v :: 0 <= v < i && Counts(adj, rep, r, v)
  {
    if i > 0 { SizePositive(adj, rep, r, i - 1); }
  }

  lemma Singletons(adj: seq<seq<Edge>>, rep: seq<nat>, rank: seq<nat>)
    requires |rep| == |rank| == |adj| && forall x :: 0 <= x < |rep| ==> rep[x] == x
    ensures Forest(rep, rep, rank) && Labels(Links(adj, 0, 0), rep)
  {
    forall x | 0 <= x < |rep| ensures Tied(Links(adj, 0, 0), x, rep[x]) { TiedSelf(Links(adj, 0, 0), x); }
  }

  /** Labels every junction with its weak component and picks the main one. Two junctions get one
      label exactly when links joining them in either direction tie them together; main is a label
      with the most junctions that have a way out. */
  method Components(adj: seq<seq<Edge>>) returns (comp: seq<nat>, main: Option<nat>, weakN: nat)
    requires Inside(adj)
    ensures |comp| == |adj|
    ensures forall a, b :: 0 <= a < |adj| && 0 <= b < |adj| ==>
              (comp[a] == comp[b] <==> Tied(Links(adj, |adj|, 0), a, b))
    ensures IsMain(adj, comp, main, weakN)
  {
    var n := |adj|;
    var parent := new nat[n](i => i);
    ghost var rep, rank := parent[..], seq(n, _ => 0);
    Singletons(adj, rep, rank);
    hide Forest, Labels, Links, IsMain, Tied;
    for a := 0 to n
      invariant |rep| == |rank| == n && Forest(parent[..], rep, rank) && Labels(Links(adj, a, 0), rep)
    {
      rep, rank := JoinRow(adj, a, parent, rep, rank);
      LinksNextRow(adj, a);
    }
    comp, main, weakN := Largest(adj, parent, rep, rank);
    forall a, b | 0 <= a < n && 0 <= b < n ensures comp[a] == comp[b] <==> Tied(Links(adj, n, 0), a, b) {
      LabelsDecide(Links(adj, n, 0), rep, a, b);
    }
  }

  lemma LinksGrow(adj: seq<seq<Edge>>, a: nat, k: nat)
    requires a < |adj| && k < |adj[a]|
    ensures Links(adj, a, k + 1) == Links(adj, a, k) + {(a, adj[a][k].to)}
  {
  }

  lemma LinksNextRow(adj: seq<seq<Edge>>, a: nat)
    requires a < |adj|
    ensures Links(adj, a, |adj[a]|) == Links(adj, a + 1, 0)
  {
  }

  /** Uniting a junction with everything it has an edge to. */
  method JoinRow(adj: seq<seq<Edge>>, a: nat, parent: array<nat>, ghost rep0: seq<nat>, ghost rank0: seq<nat>)
      returns (ghost rep: seq<nat>, ghost rank: seq<nat>)
    requires Inside(adj) && a < |adj| == parent.Length == |rep0| == |rank0|
    requires Forest(parent[..], rep0, rank0) && Labels(Links(adj, a, 0), rep0)
    modifies parent
    ensures |rep| == |rank| == |adj| && Forest(parent[..], rep, rank) && Labels(Links(adj, a, |adj[a]|), rep)
  {
    rep, rank := rep0, rank0;
    hide Forest, Labels, Links, JoinRank;
    for k := 0 to |adj[a]|
      invariant |rep| == |rank| == |adj| && Forest(parent[..], rep, rank) && Labels(Links(adj, a, k), rep)
    {
      var b := adj[a][k].to;
      var ra := Find(parent, a, rep, rank);
      var rb := Find(parent, b, rep, rank);
      LinkLabels(Links(adj, a, k), rep, a, b);
      LinksGrow(adj, a, k);
      if ra != rb {
        JoinKeepsForest(parent[..], rep, rank, ra, rb);
        ghost var was := parent[..];
        parent[ra] := rb;
        assert parent[..] == was[ra := rb];
        rank := JoinRank(rep, rank, ra, rb);
        rep := JoinRep(rep, ra, rb);
      }
    }
  }

  lemma SizeOfNone(adj: seq<seq<Edge>>, rep: seq<nat>)
    requires |adj| == |rep|
    ensures forall r :: Size(adj, rep, r, 0) == 0
  {
  }

  function Tally(size: map<nat, nat>, r: nat): nat { if r in size then size[r] else 0 }

  /** The tallies of the first i junctions, and a label with the highest one. */
  ghost predicate Tallied(adj: seq<seq<Edge>>, rep: seq<nat>, i: nat, size: map<nat, nat>, main: Option<nat>, most: nat)
    requires i <= |adj| == |rep|
  {
    && (forall r :: Size(adj, rep, r, i) == Tally(size, r) <= most)
    && (if main.Some? then most == Tally(size, main.value) > 0 else most == 0)
  }

  lemma TallyOne(adj: seq<seq<Edge>>, rep: seq<nat>, i: nat, size: map<nat, nat>, main: Option<nat>, most: nat)
      returns (size': map<nat, nat>, main': Option<nat>, most': nat)
    requires i < |adj| == |rep| && Tallied(adj, rep, i, size, main, most)
    ensures Tallied(adj, rep, i + 1, size', main', most')
    ensures if |adj[i]| == 0 then (size', main', most') == (size, main, most)
            else
              var c := Tally(size, rep[i]) + 1;
              size' == size[rep[i] := c] && (main', most') == if c > most then (Some(rep[i]), c) else (main, most)
  {
    size', main', most' := size, main, most;
    if |adj[i]| > 0 {
      var c := Tally(size, rep[i]) + 1;
      size' := size[rep[i] := c];
      if c > most { main', most' := Some(rep[i]), c; }
    }
    if main.Some? { assert Size(adj, rep, main.value, i) == most; }
    forall r ensures Size(adj, rep, r, i + 1) == Tally(size', r) <= most' {
      assert Size(adj, rep, r, i) == Tally(size, r) <= most;
    }
  }

  /** No label counts anybody exactly when no junction has a way out. */
  lemma SizeOfNobody(adj: seq<seq<Edge>>, rep: seq<nat>, main: nat, most: nat)
    requires |adj| == |rep| && forall r :: Size(adj, rep, r, |adj|) <= most
    requires most > 0 ==> most == Size(adj, rep, main, |adj|)
    ensures most == 0 <==> forall v :: 0 <= v < |adj| ==> |adj[v]| == 0
  {
    SizePositive(adj, rep, main, |adj|);
    if v :| 0 <= v < |adj| && |adj[v]| > 0 {
      SizePositive(adj, rep, rep[v], |adj|);
      assert Counts(adj, rep, rep[v], v);
    }
  }

  lemma TallyTells(adj: seq<seq<Edge>>, rep: seq<nat>, size: map<nat, nat>, main: Option<nat>, most: nat)
    requires |adj| == |rep| && Tallied(adj, rep, |adj|, size, main, most)
    ensures IsMain(adj, rep, main, most)
  {
    SizeOfNobody(adj, rep, if main.Some? then main.value else 0, most);
  }

  /** The labels, and the one most junctions with a way out carry. */
  method Largest(adj: seq<seq<Edge>>, parent: array<nat>, ghost rep: seq<nat>, ghost rank: seq<nat>)
      returns (comp: seq<nat>, main: Option<nat>, weakN: nat)
    requires |adj| == parent.Length == |rep| == |rank| && Forest(parent[..], rep, rank)
    modifies parent
    ensures comp == rep
    ensures IsMain(adj, comp, main, weakN)
  {
    comp, main, weakN := [], None, 0;
    SizeOfNone(adj, rep);
    var size: map<nat, nat> := map[];
    assert Tallied(adj, rep, 0, size, main, weakN);
    hide Forest, Tallied, IsMain;
    for i := 0 to |adj|
      invariant Forest(parent[..], rep, rank) && comp == rep[..i]
      invariant Tallied(adj, rep, i, size, main, weakN)
    {
      var r := Find(parent, i, rep, rank);
      comp := comp + [r];
      ghost var size', main', most' := TallyOne(adj, rep, i, size, main, weakN);
      if |adj[i]| > 0 {
        size := size[r := Tally(size, r) + 1];
        if size[r] > weakN { main, weakN := Some(r), size[r]; }
      }
    }
    assert rep[..|adj|] == rep;
    TallyTells(adj, rep, size, main, weakN);
  }
}
