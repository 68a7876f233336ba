/** Metres up and down an elevation line with a dead band: climbOf, and the per-stretch loop of Load
    (internal/route/search.go:1497-1520, internal/route/load.go:241-256). */
module Climb {
  import opened Roads

  /** Everything the line rises, and everything it falls, from point to point. */
  function Rises(z: seq<real>): real {
    if |z| < 2 then 0.0 else Rises(z[..|z| - 1]) + Max(z[|z| - 1] - z[|z| - 2], 0.0)
  }

  function Falls(z: seq<real>): real {
    if |z| < 2 then 0.0 else Falls(z[..|z| - 1]) + Max(z[|z| - 2] - z[|z| - 1], 0.0)
  }

  lemma {:induction false} NetOfVariation(z: seq<real>)
    requires |z| > 0
    ensures Rises(z) - Falls(z) == z[|z| - 1] - z[0] && Rises(z) >= 0.0 && Falls(z) >= 0.0
  {
    if |z| > 1 { NetOfVariation(z[..|z| - 1]); }
  }

  /** The figures after k points of the line: what has been counted is the net between the first
      point and the last anchor, the last point is within the band of it, and no more has been
      counted than the line varies. */
  ghost predicate Counted(z: seq<real>, k: nat, hyst: real, last: real, up: real, down: real)
    requires 0 < k <= |z|
  {
    && up >= 0.0 && down >= 0.0 && up - down == last - z[0]
    && -hyst <= z[k - 1] - last <= hyst
    && up + Max(z[k - 1] - last, 0.0) <= Rises(z[..k])
    && down + Max(last - z[k - 1], 0.0) <= Falls(z[..k])
  }

  /** No climb so far has been missed by more than the band at its two ends. */
  ghost predicate Covered(z: seq<real>, k: nat, hyst: real, last: real, up: real, down: real)
    requires 0 < k <= |z|
  {
    && up >= 0.0 && down >= 0.0
    && (forall i :: 0 <= i < k ==> last - z[i] <= up + hyst && z[i] - last <= down + hyst)
    && (forall i, j :: 0 <= i < j < k ==> z[j] - z[i] <= up + 2.0 * hyst && z[i] - z[j] <= down + 2.0 * hyst)
  }

  /** The anchor, the metres up and the metres down after one more point. */
  function Move(z: real, hyst: real, last: real, up: real, down: real): (real, real, real) {
    if z > last + hyst then (z, up + (z - last), down)
    else if z < last - hyst then (z, up, down + (last - z))
    else (last, up, down)
  }

  lemma CountPoint(z: seq<real>, k: nat, hyst: real, last: real, up: real, down: real)
    requires hyst >= 0.0 && 0 < k < |z| && Counted(z, k, hyst, last, up, down)
    ensures var m := Move(z[k], hyst, last, up, down); Counted(z, k + 1, hyst, m.0, m.1, m.2)
  {
    assert z[..k + 1][..k] == z[..k];
    assert Rises(z[..k + 1]) == Rises(z[..k]) + Max(z[k] - z[k - 1], 0.0);
    assert Falls(z[..k + 1]) == Falls(z[..k]) + Max(z[k - 1] - z[k], 0.0);
    hide Rises, Falls;
  }

  lemma CoverPoint(z: seq<real>, k: nat, hyst: real, last: real, up: real, down: real)
    requires hyst >= 0.0 && 0 < k < |z| && Covered(z, k, hyst, last, up, down)
    ensures var m := Move(z[k], hyst, last, up, down); Covered(z, k + 1, hyst, m.0, m.1, m.2)
  {
  }

  /** From one point to the next kept, or to the end, the line stays within the band of it. */
  ghost predicate Quiet(z: seq<real>, from: nat, to: nat, hyst: real)
    requires from < |z| && to <= |z|
  {
    forall p :: from < p < to ==> !Far(z[p], z[from], hyst)
  }

  /** The points a dead band keeps of the first k: the first, and each that is the first to be more than the band
      away from the one kept before it. */
  ghost predicate Kept(z: seq<real>, k: nat, hyst: real, at: seq<nat>) {
    && 0 < k <= |z| && |at| > 0 && at[0] == 0
    && (forall j :: 0 <= j < |at| ==> at[j] < k)
    && (forall j :: 0 < j < |at| ==>
          at[j - 1] < at[j] && Far(z[at[j]], z[at[j - 1]], hyst) && Quiet(z, at[j - 1], at[j], hyst))
    && Quiet(z, at[|at| - 1], k, hyst)
  }

  predicate Far(y: real, x: real, hyst: real) { y - x > hyst || x - y > hyst }

  function PointsAt(z: seq<real>, at: seq<nat>): (l: seq<real>)
    requires forall j :: 0 <= j < |at| ==> at[j] < |z|
    ensures |l| == |at| && forall j :: 0 <= j < |at| ==> l[j] == z[at[j]]
  {
    seq(|at|, j requires 0 <= j < |at| => z[at[j]])
  }

  /** The figures so far are those of the points kept, the last of which is the anchor. */
  ghost predicate Figured(z: seq<real>, k: nat, hyst: real, at: seq<nat>, last: real, up: real, down: real) {
    && Kept(z, k, hyst, at) && last == z[at[|at| - 1]]
    && up == Rises(PointsAt(z, at)) && down == Falls(PointsAt(z, at))
  }

  lemma FigureFirst(z: seq<real>, hyst: real)
    requires |z| > 0
    ensures Figured(z, 1, hyst, [0], z[0], 0.0, 0.0)
  {
    hide Far;
  }

  lemma QuietGrows(z: seq<real>, from: nat, k: nat, hyst: real)
    requires from < k < |z| && Quiet(z, from, k, hyst) && !Far(z[k], z[from], hyst)
    ensures Quiet(z, from, k + 1, hyst)
  {
  }

  lemma FigureSame(z: seq<real>, k: nat, hyst: real, at: seq<nat>, last: real, up: real, down: real)
    requires k < |z| && Figured(z, k, hyst, at, last, up, down) && !Far(z[k], last, hyst)
    ensures Figured(z, k + 1, hyst, at, last, up, down)
  {
    QuietGrows(z, at[|at| - 1], k, hyst);
    hide Far, Rises, Falls, Quiet;
  }

  lemma OneMoreVaries(l: seq<real>, y: real)
    requires |l| > 0
    ensures Rises(l + [y]) == Rises(l) + Max(y - l[|l| - 1], 0.0)
    ensures Falls(l + [y]) == Falls(l) + Max(l[|l| - 1] - y, 0.0)
  {
    assert (l + [y])[..|l|] == l;
  }

  lemma KeptOneMore(z: seq<real>, k: nat, hyst: real, at: seq<nat>)
    requires Kept(z, k, hyst, at) && k < |z| && Far(z[k], z[at[|at| - 1]], hyst)
    ensures Kept(z, k + 1, hyst, at + [k])
  {
    assert Quiet(z, k, k + 1, hyst);
    hide Far, Quiet;
    var at' := at + [k];
    forall j | 0 < j < |at'|
      ensures at'[j - 1] < at'[j] && Far(z[at'[j]], z[at'[j - 1]], hyst) && Quiet(z, at'[j - 1], at'[j], hyst)
    {
      assert at'[j - 1] == at[j - 1];
      if j < |at| { assert at'[j] == at[j]; }
    }
  }

  lemma FigureMoved(z: seq<real>, k: nat, hyst: real, at: seq<nat>, last: real, up: real, down: real)
    requires k < |z| && Figured(z, k, hyst, at, last, up, down) && Far(z[k], last, hyst)
    ensures Figured(z, k + 1, hyst, at + [k], z[k], up + Max(z[k] - last, 0.0), down + Max(last - z[k], 0.0))
  {
    KeptOneMore(z, k, hyst, at);
    OneMoreVaries(PointsAt(z, at), z[k]);
    assert PointsAt(z, at + [k]) == PointsAt(z, at) + [z[k]];
    hide Far, Rises, Falls, Quiet;
  }

  /** One more point: it is kept exactly if the anchor moves there. */
  lemma FigurePoint(z: seq<real>, k: nat, hyst: real, at: seq<nat>, last: real, up: real, down: real)
      returns (at': seq<nat>)
    requires hyst >= 0.0 && k < |z| && Figured(z, k, hyst, at, last, up, down)
    ensures var m := Move(z[k], hyst, last, up, down); Figured(z, k + 1, hyst, at', m.0, m.1, m.2)
  {
    hide Figured;
    if Far(z[k], last, hyst) {
      FigureMoved(z, k, hyst, at, last, up, down);
      at' := at + [k];
    } else {
      FigureSame(z, k, hyst, at, last, up, down);
      at' := at;
    }
  }

  /** The figures of a line: what it rises and falls from each point the dead band keeps to the next, and from the
      last of them to its end. */
  ghost predicate Banded(z: seq<real>, hyst: real, at: seq<nat>, up: real, down: real) {
    && Kept(z, |z|, hyst, at)
    && up == Rises(PointsAt(z, at) + [z[|z| - 1]]) && down == Falls(PointsAt(z, at) + [z[|z| - 1]])
  }

  lemma CloseTheFigure(z: seq<real>, hyst: real, at: seq<nat>, last: real, up: real, down: real)
    requires |z| > 0 && Figured(z, |z|, hyst, at, last, up, down)
    requires up - down == last - z[0]
    ensures var d := (z[|z| - 1] - z[0]) - (up - down);
      Banded(z, hyst, at, up + Max(d, 0.0), down + Max(-d, 0.0))
  {
    OneMoreVaries(PointsAt(z, at), z[|z| - 1]);
    hide Kept, Rises, Falls;
  }

  lemma NetOfCounted(z: seq<real>, k: nat, hyst: real, last: real, up: real, down: real)
    requires 0 < k <= |z| && Counted(z, k, hyst, last, up, down)
    ensures up - down == last - z[0]
  {
  }

  /** What a figure of up and down means for the line it was taken over. */
  ghost predicate Climbed(z: seq<real>, hyst: real, up: real, down: real) {
    && up >= 0.0 && down >= 0.0
    && (|z| > 0 ==> up - down == z[|z| - 1] - z[0])
    && up <= Rises(z) && down <= Falls(z)
    && forall i, j :: 0 <= i < j < |z| ==> z[j] - z[i] <= up + 2.0 * hyst && z[i] - z[j] <= down + 2.0 * hyst
  }

  lemma CloseTheNet(z: seq<real>, hyst: real, last: real, up: real, down: real)
    requires hyst >= 0.0 && |z| > 0 && Counted(z, |z|, hyst, last, up, down) && Covered(z, |z|, hyst, last, up, down)
    ensures var d := (z[|z| - 1] - z[0]) - (up - down);
      Climbed(z, hyst, up + Max(d, 0.0), down + Max(-d, 0.0))
  {
    assert z[..|z|] == z;
  }

  lemma FirstPoint(z: seq<real>, hyst: real)
    requires hyst >= 0.0 && |z| > 0
    ensures Counted(z, 1, hyst, z[0], 0.0, 0.0) && Covered(z, 1, hyst, z[0], 0.0, 0.0)
  {
  }

  /** One turn of the loop: the anchor moves when the point leaves the band. */
  method OnePoint(z: real, hyst: real, last0: real, up0: real, down0: real) returns (last: real, up: real, down: real)
    ensures (last, up, down) == Move(z, hyst, last0, up0, down0)
  {
    last, up, down := last0, up0, down0;
    if z > last + hyst {
      up := up + (z - last);
      last := z;
    } else if z < last - hyst {
      down := down + (last - z);
      last := z;
    }
  }

  /** Where the loop stands after the first k points. */
  ghost predicate Banding(z: seq<real>, k: nat, hyst: real, at: seq<nat>, last: real, up: real, down: real) {
    && 0 < k <= |z| && Counted(z, k, hyst, last, up, down) && Covered(z, k, hyst, last, up, down)
    && Figured(z, k, hyst, at, last, up, down)
  }

  lemma BandStarts(z: seq<real>, hyst: real)
    requires hyst >= 0.0 && |z| > 0
    ensures Banding(z, 1, hyst, [0], z[0], 0.0, 0.0)
  {
    FirstPoint(z, hyst);
    FigureFirst(z, hyst);
  }

  lemma BandPoint(z: seq<real>, k: nat, hyst: real, at: seq<nat>, last: real, up: real, down: real)
      returns (at': seq<nat>)
    requires hyst >= 0.0 && k < |z| && Banding(z, k, hyst, at, last, up, down)
    ensures var m := Move(z[k], hyst, last, up, down); Banding(z, k + 1, hyst, at', m.0, m.1, m.2)
  {
    hide Counted, Covered, Figured, Move;
    CountPoint(z, k, hyst, last, up, down);
    CoverPoint(z, k, hyst, last, up, down);
    at' := FigurePoint(z, k, hyst, at, last, up, down);
  }

  lemma BandCloses(z: seq<real>, hyst: real, at: seq<nat>, last: real, up: real, down: real)
    requires hyst >= 0.0 && |z| > 0 && Banding(z, |z|, hyst, at, last, up, down)
    ensures var d := (z[|z| - 1] - z[0]) - (up - down);
      Climbed(z, hyst, up + Max(d, 0.0), down + Max(-d, 0.0))
      && Banded(z, hyst, at, up + Max(d, 0.0), down + Max(-d, 0.0))
  {
    hide Counted, Covered, Figured, Climbed, Banded;
    CloseTheNet(z, hyst, last, up, down);
    NetOfCounted(z, |z|, hyst, last, up, down);
    CloseTheFigure(z, hyst, at, last, up, down);
  }

  /** The loop both places run; then the two ends are made to count whole. */
  method DeadBand(z: seq<real>, hyst: real) returns (up: real, down: real, ghost at: seq<nat>)
    requires hyst >= 0.0 && |z| > 0
    ensures Climbed(z, hyst, up, down) && Banded(z, hyst, at, up, down)
  {
    hide Banding, Climbed, Move, Banded;
    up, down := 0.0, 0.0;
    var last := z[0];
    at := [0];
    BandStarts(z, hyst);
    for k := 1 to |z|
      invariant Banding(z, k, hyst, at, last, up, down)
    {
      at := BandPoint(z, k, hyst, at, last, up, down);
      last, up, down := OnePoint(z[k], hyst, last, up, down);
    }
    BandCloses(z, hyst, at, last, up, down);
    var net, d := z[|z| - 1] - z[0], up - down;
    if net > d {
      up := up + (net - d);
    } else if net < d {
      down := down + (d - net);
    }
  }

  /** climbOf: a point without elevation (None) spoils the whole line. */
  method ClimbOf(zs: seq<Option<real>>, hyst: real) returns (up: real, down: real, ghost at: seq<nat>)
    requires hyst >= 0.0
    ensures |zs| < 2 || None in zs ==> up == down == 0.0
    ensures None !in zs ==> Climbed(Values(zs), hyst, up, down)
    ensures None !in zs && |zs| >= 2 ==> Banded(Values(zs), hyst, at, up, down)
  {
    if |zs| < 2 {
      return 0.0, 0.0, [];
    }
    var z := [];
    for k := 0 to |zs|
      invariant None !in zs[..k] && z == Values(zs[..k]) && |z| == k
    {
      if zs[k].None? {
        assert zs[k] in zs;
        return 0.0, 0.0, [];
      }
      assert zs[..k + 1][..k] == zs[..k];
      z := z + [zs[k].value];
    }
    assert zs[..|zs|] == zs;
    up, down, at := DeadBand(z, hyst);
  }

  function Values(zs: seq<Option<real>>): seq<real>
    requires None !in zs
  {
    if |zs| == 0 then []
    else
      assert zs[|zs| - 1] in zs;
      assert forall v :: v in zs[..|zs| - 1] ==> v in zs;
      Values(zs[..|zs| - 1]) + [zs[|zs| - 1].value]
  }

  /** Travelling a line backwards swaps what it rises and what it falls. */
  lemma {:induction false} ReverseSwaps(z: seq<real>, r: seq<real>)
    requires |r| == |z| && forall i :: 0 <= i < |z| ==> r[i] == z[|z| - 1 - i]
    ensures Rises(r) == Falls(z) && Falls(r) == Rises(z)
    decreases |z|
  {
    if |z| >= 2 {
      var front := r[..|r| - 1];
      ReverseSwaps(z[1..], front);
      FirstStep(z);
    }
  }

  /** The variation counted from the other end. */
  lemma {:induction false} FirstStep(z: seq<real>)
    requires |z| >= 2
    ensures Rises(z) == Max(z[1] - z[0], 0.0) + Rises(z[1..])
    ensures Falls(z) == Max(z[0] - z[1], 0.0) + Falls(z[1..])
    decreases |z|
  {
    if |z| == 2 {
      assert |z[1..]| == 1 && |z[..1]| == 1;
    } else {
      FirstStep(z[..|z| - 1]);
      assert z[..|z| - 1][1..] == z[1..][..|z| - 2];
    }
  }
}
