/** The directions: crumbs folded into a neighbour of their own mode, shortest first
    (internal/route/search.go:1569-1611). */
module Steps {
  import opened Roads

  datatype StepMode = Ride | In(m: Mode)

  datatype Step = Step(name: string, mode: StepMode, meters: real, seconds: real)

  // ------------------------------------------------------------------ what a folded list must still say

  function Meters(s: seq<Step>): real { if |s| == 0 then 0.0 else Meters(s[..|s| - 1]) + s[|s| - 1].meters }

  function Seconds(s: seq<Step>): real { if |s| == 0 then 0.0 else Seconds(s[..|s| - 1]) + s[|s| - 1].seconds }

  /** o stands for the block b of the input: one mode throughout, its metres and seconds added up,
      named after one of its steps; a ride is a block of its own and is not touched. */
  ghost predicate StandsFor(o: Step, b: seq<Step>) {
    && |b| > 0 && (forall i :: 0 <= i < |b| ==> b[i].mode == o.mode)
    && o.meters == Meters(b) && o.seconds == Seconds(b)
    && (exists i :: 0 <= i < |b| && b[i].name == o.name)
    && (o.mode.Ride? ==> b == [o])
  }

  function Concat(blocks: seq<seq<Step>>): seq<Step> {
    if |blocks| == 0 then [] else Concat(blocks[..|blocks| - 1]) + blocks[|blocks| - 1]
  }

  /** The blocks, one after the other, are the input, and each step of out stands for its own. */
  ghost predicate Folded(input: seq<Step>, out: seq<Step>, blocks: seq<seq<Step>>) {
    && Concat(blocks) == input && |blocks| == |out|
    && forall i :: 0 <= i < |out| ==> StandsFor(out[i], blocks[i])
  }

  lemma {:induction false} ConcatOfBoth(a: seq<seq<Step>>, b: seq<seq<Step>>)
    ensures Concat(a + b) == Concat(a) + Concat(b)
  {
    if |b| == 0 {
      assert a + b == a;
    } else {
      ConcatOfBoth(a, b[..|b| - 1]);
      assert (a + b)[..|a + b| - 1] == a + b[..|b| - 1];
    }
  }

  lemma {:induction false} MetersOfBoth(a: seq<Step>, b: seq<Step>)
    ensures Meters(a + b) == Meters(a) + Meters(b) && Seconds(a + b) == Seconds(a) + Seconds(b)
  {
    if |b| == 0 {
      assert a + b == a;
    } else {
      MetersOfBoth(a, b[..|b| - 1]);
      assert (a + b)[..|a + b| - 1] == a + b[..|b| - 1];
    }
  }

  /** Two neighbours folded into one, under either's name. */
  function Fold(a: Step, b: Step, name: string): Step { Step(name, a.mode, a.meters + b.meters, a.seconds + b.seconds) }

  lemma FoldStandsFor(a: Step, b: Step, name: string, p: seq<Step>, q: seq<Step>)
    requires StandsFor(a, p) && StandsFor(b, q) && a.mode == b.mode && !a.mode.Ride? && name in {a.name, b.name}
    ensures StandsFor(Fold(a, b, name), p + q)
  {
    MetersOfBoth(p, q);
    if name == a.name {
      var i :| 0 <= i < |p| && p[i].name == name;
      assert (p + q)[i].name == name;
    } else {
      var i :| 0 <= i < |q| && q[i].name == name;
      assert (p + q)[|p| + i].name == name;
    }
  }

  /** out with its steps k and k + 1 folded into one. */
  function FoldAt(out: seq<Step>, k: nat, name: string): (r: seq<Step>)
    requires k + 1 < |out|
    ensures |r| == |out| - 1
  {
    out[..k] + [Fold(out[k], out[k + 1], name)] + out[k + 2..]
  }

  function JoinAt(blocks: seq<seq<Step>>, k: nat): (r: seq<seq<Step>>)
    requires k + 1 < |blocks|
    ensures |r| == |blocks| - 1
  {
    blocks[..k] + [blocks[k] + blocks[k + 1]] + blocks[k + 2..]
  }

  lemma ConcatOfOne(b: seq<Step>)
    ensures Concat([b]) == b
  {
    assert [b][..0] == [];
  }

  lemma SplitAround(blocks: seq<seq<Step>>, k: nat)
    requires k + 1 < |blocks|
    ensures blocks == (blocks[..k] + [blocks[k]]) + ([blocks[k + 1]] + blocks[k + 2..])
    ensures JoinAt(blocks, k) == (blocks[..k] + [blocks[k] + blocks[k + 1]]) + blocks[k + 2..]
  {
  }

  lemma Associates(a: seq<Step>, p: seq<Step>, q: seq<Step>, c: seq<Step>)
    ensures (a + p) + (q + c) == (a + (p + q)) + c
  {
  }

  lemma JoinKeepsConcat(blocks: seq<seq<Step>>, k: nat)
    requires k + 1 < |blocks|
    ensures Concat(JoinAt(blocks, k)) == Concat(blocks)
  {
    hide Concat, JoinAt;
    var a, p, q, c := blocks[..k], blocks[k], blocks[k + 1], blocks[k + 2..];
    SplitAround(blocks, k);
    ConcatOfBoth(a + [p], [q] + c);
    ConcatOfBoth(a, [p]);
    ConcatOfBoth([q], c);
    ConcatOfBoth(a + [p + q], c);
    ConcatOfBoth(a, [p + q]);
    ConcatOfOne(p);
    ConcatOfOne(q);
    ConcatOfOne(p + q);
    Associates(Concat(a), p, q, Concat(c));
  }

  lemma FoldKeeps(input: seq<Step>, out: seq<Step>, blocks: seq<seq<Step>>, k: nat, name: string)
    requires Folded(input, out, blocks) && k + 1 < |out|
    requires out[k].mode == out[k + 1].mode && !out[k].mode.Ride? && name in {out[k].name, out[k + 1].name}
    ensures Folded(input, FoldAt(out, k, name), JoinAt(blocks, k))
  {
    JoinKeepsConcat(blocks, k);
    FoldStandsFor(out[k], out[k + 1], name, blocks[k], blocks[k + 1]);
    hide StandsFor, Concat, Fold;
  }

  lemma Singletons(input: seq<Step>)
    ensures Folded(input, input, seq(|input|, i requires 0 <= i < |input| => [input[i]]))
  {
    var blocks := seq(|input|, i requires 0 <= i < |input| => [input[i]]);
    forall i | 0 <= i < |input| ensures StandsFor(input[i], blocks[i]) {
      assert [input[i]][..0] == [] && [input[i]][0].name == input[i].name;
    }
    ConcatOfSingletons(input, blocks);
  }

  lemma {:induction false} ConcatOfSingletons(input: seq<Step>, blocks: seq<seq<Step>>)
    requires |blocks| == |input| && forall i :: 0 <= i < |input| ==> blocks[i] == [input[i]]
    ensures Concat(blocks) == input
  {
    if |input| > 0 {
      ConcatOfSingletons(input[..|input| - 1], blocks[..|input| - 1]);
    }
  }

  // ------------------------------------------------------------------ the runs of a list

  /** A maximal run of steps in one mode, its metres and seconds. */
  datatype Run = Run(mode: StepMode, meters: real, seconds: real)

  function Push(runs: seq<Run>, s: Step): seq<Run> {
    if |runs| > 0 && runs[|runs| - 1].mode == s.mode then
      var last := runs[|runs| - 1];
      runs[..|runs| - 1] + [Run(last.mode, last.meters + s.meters, last.seconds + s.seconds)]
    else runs + [Run(s.mode, s.meters, s.seconds)]
  }

  function PushAll(runs: seq<Run>, s: seq<Step>): seq<Run> {
    if |s| == 0 then runs else Push(PushAll(runs, s[..|s| - 1]), s[|s| - 1])
  }

  function Runs(s: seq<Step>): seq<Run> { PushAll([], s) }

  /** The rides of a list, in order. */
  function Rides(s: seq<Step>): seq<Step> {
    if |s| == 0 then []
    else Rides(s[..|s| - 1]) + (if s[|s| - 1].mode.Ride? then [s[|s| - 1]] else [])
  }

  lemma {:induction false} PushOfBoth(runs: seq<Run>, a: seq<Step>, b: seq<Step>)
    ensures PushAll(runs, a + b) == PushAll(PushAll(runs, a), b)
  {
    if |b| == 0 {
      assert a + b == a;
    } else {
      PushOfBoth(runs, a, b[..|b| - 1]);
      assert (a + b)[..|a + b| - 1] == a + b[..|b| - 1];
    }
  }

  lemma {:induction false} RidesOfBoth(a: seq<Step>, b: seq<Step>)
    ensures Rides(a + b) == Rides(a) + Rides(b)
  {
    if |b| == 0 {
      assert a + b == a;
    } else {
      RidesOfBoth(a, b[..|b| - 1]);
      assert (a + b)[..|a + b| - 1] == a + b[..|b| - 1];
    }
  }

  /** A block of one mode adds to the runs what the step that stands for it adds. */
  lemma {:induction false} PushBlock(runs: seq<Run>, o: Step, b: seq<Step>)
    requires |b| > 0 && forall i :: 0 <= i < |b| ==> b[i].mode == o.mode
    requires o.meters == Meters(b) && o.seconds == Seconds(b)
    ensures PushAll(runs, b) == Push(runs, o)
    ensures !o.mode.Ride? ==> Rides(b) == []
    decreases |b|
  {
    var front := b[..|b| - 1];
    if |front| == 0 {
      assert PushAll(runs, front) == runs && Meters(front) == 0.0 && Seconds(front) == 0.0;
    } else {
      PushBlock(runs, o.(meters := Meters(front), seconds := Seconds(front)), front);
    }
  }

  /** Folding keeps the metres and seconds of every maximal run, the modes in their order, and every
      ride exactly as it was. */
  lemma {:induction false} FoldedConserves(input: seq<Step>, out: seq<Step>, blocks: seq<seq<Step>>)
    requires Folded(input, out, blocks)
    ensures Runs(out) == Runs(input) && Rides(out) == Rides(input)
    decreases |out|
  {
    if |out| > 0 {
      var n := |out| - 1;
      FoldedConserves(Concat(blocks[..n]), out[..n], blocks[..n]);
      assert StandsFor(out[n], blocks[n]);
      PushOfBoth([], Concat(blocks[..n]), blocks[n]);
      RidesOfBoth(Concat(blocks[..n]), blocks[n]);
      PushBlock(Runs(Concat(blocks[..n])), out[n], blocks[n]);
      if out[n].mode.Ride? { assert Rides([out[n]]) == [out[n]] by { assert [out[n]][..0] == []; } }
    }
  }

  // ------------------------------------------------------------------ which step is a crumb

  predicate SameMode(out: seq<Step>, i: int, j: int) {
    0 <= i < |out| && 0 <= j < |out| && out[i].mode == out[j].mode
  }

  /** Step i must go: it is no ride, it is too short or the list too long, and a neighbour can take it. */
  predicate Crumb(out: seq<Step>, i: nat, minM: real, maxN: nat)
    requires i < |out|
  {
    !out[i].mode.Ride? && (out[i].meters < minM || |out| > maxN) && (SameMode(out, i, i - 1) || SameMode(out, i, i + 1))
  }

  /** Step i is no ride and stands beside another of its mode, which could take it. */
  ghost predicate CanGo(out: seq<Step>, i: nat)
    requires i < |out|
  {
    out[i].mode != Ride
    && ((i > 0 && out[i - 1].mode == out[i].mode) || (i + 1 < |out| && out[i + 1].mode == out[i].mode))
  }

  /** Nothing is left to fold: whatever could go is long enough, and the list is short enough if anything could. */
  ghost predicate NoCrumb(out: seq<Step>, minM: real, maxN: nat) {
    forall i :: 0 <= i < |out| && CanGo(out, i) ==> out[i].meters >= minM && |out| <= maxN
  }

  lemma CrumbsCanGo(out: seq<Step>, i: nat, minM: real, maxN: nat)
    requires i < |out|
    ensures Crumb(out, i, minM, maxN) <==> CanGo(out, i) && (out[i].meters < minM || |out| > maxN)
  {
  }

  /** w is the first shortest crumb. */
  ghost predicate IsWorst(out: seq<Step>, w: nat, minM: real, maxN: nat) {
    && w < |out| && CanGo(out, w) && (out[w].meters < minM || |out| > maxN)
    && forall i :: 0 <= i < |out| && CanGo(out, i) && (out[i].meters < minM || |out| > maxN) ==>
         out[w].meters <= out[i].meters && (i < w ==> out[w].meters < out[i].meters)
  }

  /** The first shortest crumb. */
  method Worst(out: seq<Step>, minM: real, maxN: nat) returns (worst: Option<nat>)
    ensures worst.None? ==> NoCrumb(out, minM, maxN)
    ensures worst.Some? ==> IsWorst(out, worst.value, minM, maxN)
  {
    worst := None;
    for i := 0 to |out|
      invariant worst.None? <==> forall j :: 0 <= j < i ==> !Crumb(out, j, minM, maxN)
      invariant worst.Some? ==> worst.value < i && Crumb(out, worst.value, minM, maxN)
      invariant worst.Some? ==> forall j :: 0 <= j < i && Crumb(out, j, minM, maxN) ==>
                  out[worst.value].meters <= out[j].meters
                      && (j < worst.value ==> out[worst.value].meters < out[j].meters)
    {
      if Crumb(out, i, minM, maxN) && (worst.None? || out[i].meters < out[worst.value].meters) { worst := Some(i); }
    }
    forall i | 0 <= i < |out|
      ensures Crumb(out, i, minM, maxN) <==> CanGo(out, i) && (out[i].meters < minM || |out| > maxN)
    {
      CrumbsCanGo(out, i, minM, maxN);
    }
    hide Crumb, CanGo;
  }

  /** The neighbour a crumb goes into: of its mode, the longer of the two, the earlier on a tie. */
  function Into(out: seq<Step>, i: nat): (into: nat)
    requires i < |out| && (SameMode(out, i, i - 1) || SameMode(out, i, i + 1))
    ensures into < |out| && out[into].mode == out[i].mode && (into + 1 == i || into == i + 1)
    ensures forall j :: (j == i - 1 || j == i + 1) && SameMode(out, i, j) ==> out[j].meters <= out[into].meters
  {
    if SameMode(out, i, i + 1) && (!SameMode(out, i, i - 1) || out[i + 1].meters > out[i - 1].meters) then i + 1
        else i - 1
  }

  /** The shortest crumb is never longer than the neighbour that takes it: the step that is kept keeps
      its own name. */
  lemma CrumbIsShorter(out: seq<Step>, w: nat, minM: real, maxN: nat)
    requires IsWorst(out, w, minM, maxN)
    ensures w < |out| && (SameMode(out, w, w - 1) || SameMode(out, w, w + 1)) && !out[w].mode.Ride?
    ensures out[w].meters <= out[Into(out, w)].meters
  {
    var into := Into(out, w);
    assert SameMode(out, into, w) && (w + 1 == into || w == into + 1);
  }

  /** Overwriting the neighbour and dropping the crumb is folding the two. */
  lemma FoldInPlace(out: seq<Step>, w: nat, name: string)
    requires w < |out| && (SameMode(out, w, w - 1) || SameMode(out, w, w + 1))
    ensures var into := Into(out, w);
      var keep := Step(name, out[into].mode, out[into].meters + out[w].meters, out[into].seconds + out[w].seconds);
      var over := out[into := keep];
      over[..w] + over[w + 1..] == FoldAt(out, if into < w then into else w, name)
  {
  }

  /** One turn of the loop: the crumb goes into its neighbour and leaves the list. */
  method FoldCrumb(steps: seq<Step>, w: nat) returns (out: seq<Step>, ghost k: nat, ghost name: string)
    requires w < |steps| && (SameMode(steps, w, w - 1) || SameMode(steps, w, w + 1))
    ensures k == (if Into(steps, w) < w then w - 1 else w) && name in {steps[k].name, steps[k + 1].name}
    ensures name == (if steps[w].meters > steps[Into(steps, w)].meters then steps[w].name
        else steps[Into(steps, w)].name)
    ensures out == FoldAt(steps, k, name)
  {
    var into := Into(steps, w);
    var keep := steps[into];
    if steps[w].meters > keep.meters { keep := keep.(name := steps[w].name); }
    keep := keep.(meters := keep.meters + steps[w].meters, seconds := keep.seconds + steps[w].seconds);
    k, name := if into < w then into else w, keep.name;
    FoldInPlace(steps, w, keep.name);
    out := steps[into := keep];
    out := out[..w] + out[w + 1..];
  }

  /** One crumb goes, and the output still stands for the input. */
  method Swallow(ghost input: seq<Step>, steps: seq<Step>, ghost blocks0: seq<seq<Step>>, w: nat, minM: real, maxN: nat)
    returns (out: seq<Step>, ghost blocks: seq<seq<Step>>)
    requires Folded(input, steps, blocks0) && IsWorst(steps, w, minM, maxN)
    ensures Folded(input, out, blocks) && |out| == |steps| - 1
  {
    ghost var k, name;
    CrumbIsShorter(steps, w, minM, maxN);
    hide Folded, IsWorst, StandsFor;
    out, k, name := FoldCrumb(steps, w);
    FoldKeeps(input, steps, blocks0, k, name);
    blocks := JoinAt(blocks0, k);
  }

  lemma WorstIsLeft(out: seq<Step>, w: nat, minM: real, maxN: nat)
    requires IsWorst(out, w, minM, maxN)
    ensures !NoCrumb(out, minM, maxN)
  {
  }

  /** mergeSteps. The output is the input's consecutive same-mode blocks added up; no crumb is left. */
  method MergeSteps(input: seq<Step>, minM: real, maxN: nat) returns (out: seq<Step>, ghost blocks: seq<seq<Step>>)
    ensures Folded(input, out, blocks)
    ensures |out| <= 1 || NoCrumb(out, minM, maxN)
    ensures NoCrumb(input, minM, maxN) ==> out == input
  {
    out, blocks := input, seq(|input|, i requires 0 <= i < |input| => [input[i]]);
    Singletons(input);
    hide Folded, FoldAt, JoinAt, Into, IsWorst, NoCrumb, SameMode;
    while |out| > 1
      invariant |blocks| == |out| && Folded(input, out, blocks)
      invariant NoCrumb(input, minM, maxN) ==> out == input
      decreases |out|
    {
      var worst := Worst(out, minM, maxN);
      if worst.None? { break; }
      WorstIsLeft(out, worst.value, minM, maxN);
      out, blocks := Swallow(input, out, blocks, worst.value, minM, maxN);
    }
  }
}
