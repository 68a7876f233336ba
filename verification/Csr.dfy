/** Adjacency packed as offsets and one flat array, filled by counting: one pass counts every key,
    one prefix sum makes the offsets, one pass fills. Build, buildLifts, reverse and buildGrid
    (internal/route/graph.go:243-285, 423-440, 745-766, 854-872) are four uses of it. */
module Csr {

  /** The values filed under key k, in the order they come. */
  function At<T>(keys: seq<nat>, vals: seq<T>, k: nat): seq<T>
    requires |keys| == |vals|
  {
    if |keys| == 0 then []
    else
      var last := |keys| - 1;
      At(keys[..last], vals[..last], k) + (if keys[last] == k then [vals[last]] else [])
  }

  function Count(keys: seq<nat>, k: nat): nat {
    if |keys| == 0 then 0
    else Count(keys[..|keys| - 1], k) + (if keys[|keys| - 1] == k then 1 else 0)
  }

  /** How many keys are below k: where the values of k begin. */
  function Below(keys: seq<nat>, k: nat): nat {
    if |keys| == 0 then 0
    else Below(keys[..|keys| - 1], k) + (if keys[|keys| - 1] < k then 1 else 0)
  }

  lemma {:induction false} BelowAdds(keys: seq<nat>, k: nat)
    ensures Below(keys, k + 1) == Below(keys, k) + Count(keys, k)
  {
    if |keys| > 0 { BelowAdds(keys[..|keys| - 1], k); }
  }

  lemma {:induction false} BelowMonotone(keys: seq<nat>, j: nat, k: nat)
    requires j <= k
    ensures Below(keys, j) <= Below(keys, k) <= |keys|
  {
    if |keys| > 0 { BelowMonotone(keys[..|keys| - 1], j, k); }
  }

  lemma {:induction false} BelowAll(keys: seq<nat>, n: nat)
    requires forall i :: 0 <= i < |keys| ==> keys[i] < n
    ensures Below(keys, n) == |keys| && Below(keys, 0) == 0
  {
    if |keys| > 0 { BelowAll(keys[..|keys| - 1], n); }
  }

  lemma {:induction false} AtSize<T>(keys: seq<nat>, vals: seq<T>, k: nat)
    requires |keys| == |vals|
    ensures |At(keys, vals, k)| == Count(keys, k)
  {
    if |keys| > 0 { AtSize(keys[..|keys| - 1], vals[..|keys| - 1], k); }
  }

  lemma {:induction false} CountPrefix(keys: seq<nat>, i: nat, k: nat)
    requires i <= |keys|
    ensures Count(keys[..i], k) <= Count(keys, k)
    ensures i < |keys| && keys[i] == k ==> Count(keys[..i], k) < Count(keys, k)
    decreases |keys|
  {
    if i < |keys| {
      var front := keys[..|keys| - 1];
      if i < |front| { assert front[..i] == keys[..i]; CountPrefix(front, i, k); }
    } else {
      assert keys[..i] == keys;
    }
  }

  /** Exactly the pairs that are there, and nothing else, is found under a key. */
  lemma {:induction false} AtHolds<T>(keys: seq<nat>, vals: seq<T>, k: nat, v: T)
    requires |keys| == |vals|
    ensures v in At(keys, vals, k) <==> exists i :: 0 <= i < |keys| && keys[i] == k && vals[i] == v
  {
    if |keys| > 0 {
      var last := |keys| - 1;
      AtHolds(keys[..last], vals[..last], k, v);
      if exists i :: 0 <= i < |keys| && keys[i] == k && vals[i] == v {
        var i :| 0 <= i < |keys| && keys[i] == k && vals[i] == v;
        if i < last { assert keys[..last][i] == k && vals[..last][i] == v; }
      }
    }
  }

  method Offsets(n: nat, keys: seq<nat>) returns (off: array<nat>)
    requires forall i :: 0 <= i < |keys| ==> keys[i] < n
    ensures fresh(off) && off.Length == n + 1
    ensures forall k :: 0 <= k <= n ==> off[k] == Below(keys, k)
  {
    var deg := new nat[n + 1](_ => 0);
    for i := 0 to |keys|
      invariant forall k :: 0 <= k <= n ==> deg[k] == Count(keys[..i], k)
    {
      assert keys[..i + 1][..i] == keys[..i];
      deg[keys[i]] := deg[keys[i]] + 1;
    }
    assert keys[..|keys|] == keys;
    BelowAll(keys, n);
    off := new nat[n + 1];
    var acc := 0;
    for i := 0 to n
      invariant acc == Below(keys, i)
      invariant forall k :: 0 <= k < i ==> off[k] == Below(keys, k)
      invariant forall k :: 0 <= k <= n ==> deg[k] == Count(keys, k)
    {
      off[i] := acc;
      BelowAdds(keys, i);
      acc := acc + deg[i];
    }
    off[n] := acc;
  }

  /** Slots of different keys never meet. */
  lemma SlotsApart(keys: seq<nat>, i: nat, k: nat)
    requires i < |keys|
    ensures var slot := Below(keys, keys[i]) + Count(keys[..i], keys[i]);
      && slot < |keys|
      && (k < keys[i] ==> Below(keys, k) + Count(keys, k) <= slot)
      && (keys[i] < k ==> slot < Below(keys, k))
  {
    CountPrefix(keys, i, keys[i]);
    BelowAdds(keys, keys[i]);
    BelowMonotone(keys, keys[i] + 1, keys[i] + 1);
    if k < keys[i] { BelowAdds(keys, k); BelowMonotone(keys, k + 1, keys[i]); }
    if keys[i] < k { BelowMonotone(keys, keys[i] + 1, k); }
  }

  /** What one slot run of the half-filled array holds. */
  ghost predicate Run<T>(keys: seq<nat>, vals: seq<T>, i: nat, k: nat, e: seq<T>)
    requires |keys| == |vals| && i <= |keys|
  {
    var from, size := Below(keys, k), Count(keys[..i], k);
    from + size <= |e| && e[from..from + size] == At(keys[..i], vals[..i], k)
  }

  lemma SliceOfUpdate<T>(e: seq<T>, from: nat, size: nat, slot: nat, v: T)
    requires from + size <= |e| && slot < |e|
    ensures slot == from + size ==> e[slot := v][from..from + size + 1] == e[from..from + size] + [v]
    ensures slot < from || from + size <= slot ==> e[slot := v][from..from + size] == e[from..from + size]
  {
  }

  lemma OneMore<T>(keys: seq<nat>, vals: seq<T>, i: nat, k: nat)
    requires |keys| == |vals| && i < |keys|
    ensures Count(keys[..i + 1], k) == Count(keys[..i], k) + (if keys[i] == k then 1 else 0)
    ensures At(keys[..i + 1], vals[..i + 1], k)
         == At(keys[..i], vals[..i], k) + (if keys[i] == k then [vals[i]] else [])
  {
    var ks, vs := keys[..i + 1], vals[..i + 1];
    assert ks[..|ks| - 1] == keys[..i] && vs[..|vs| - 1] == vals[..i];
  }

  lemma RunGrows<T>(keys: seq<nat>, vals: seq<T>, i: nat, k: nat, e: seq<T>, e': seq<T>)
    requires |keys| == |vals| == |e| && i < |keys| && Run(keys, vals, i, k, e)
    requires var slot := Below(keys, keys[i]) + Count(keys[..i], keys[i]);
      slot < |e| && e' == e[slot := vals[i]]
    ensures Run(keys, vals, i + 1, k, e')
  {
    hide Below, Count, At;
    SlotsApart(keys, i, k);
    CountPrefix(keys, i, k);
    OneMore(keys, vals, i, k);
    SliceOfUpdate(e, Below(keys, k), Count(keys[..i], k), Below(keys, keys[i]) + Count(keys[..i], keys[i]), vals[i]);
  }

  lemma RunStarts<T>(keys: seq<nat>, vals: seq<T>, k: nat, e: seq<T>)
    requires |keys| == |vals| == |e|
    ensures Run(keys, vals, 0, k, e)
  {
    BelowMonotone(keys, k, k);
  }

  lemma RunsPack<T>(keys: seq<nat>, vals: seq<T>, k: nat, n: nat, off: seq<nat>, e: seq<T>)
    requires |keys| == |vals| == |e| && k < n && |off| == n + 1
    requires off[k] == Below(keys, k) && off[k + 1] == Below(keys, k + 1)
    requires Run(keys, vals, |keys|, k, e)
    ensures Packed(keys, vals, k, off, e)
  {
    assert keys[..|keys|] == keys && vals[..|keys|] == vals;
    BelowAdds(keys, k);
    BelowMonotone(keys, k + 1, n);
  }

  /** Between the offsets of k and k + 1 lie exactly the values of k, in order. */
  ghost predicate Packed<T>(keys: seq<nat>, vals: seq<T>, k: nat, off: seq<nat>, e: seq<T>)
    requires |keys| == |vals|
  {
    && k + 1 < |off| && off[k] <= off[k + 1] <= |e|
    && e[off[k]..off[k + 1]] == At(keys, vals, k)
  }

  /** The two passes: under every key, exactly its values, in order. */
  method Fill<T(0)>(n: nat, keys: seq<nat>, vals: seq<T>) returns (off: array<nat>, e: array<T>)
    requires |keys| == |vals| && forall i :: 0 <= i < |keys| ==> keys[i] < n
    ensures fresh(off) && fresh(e) && off.Length == n + 1 && e.Length == |keys|
    ensures off[0] == 0 && off[n] == e.Length
    ensures forall k :: 0 <= k < n ==> Packed(keys, vals, k, off[..], e[..])
  {
    off := Offsets(n, keys);
    e := new T[|keys|];
    var next := new nat[n](k requires 0 <= k < n reads off => off[k]);
    ghost var all := e[..];
    forall k | 0 <= k < n ensures Run(keys, vals, 0, k, all) { RunStarts(keys, vals, k, all); }
    BelowAll(keys, n);
    hide Run, Packed, At, Below;
    for i := 0 to |keys|
      invariant forall k :: 0 <= k < n ==> next[k] == Below(keys, k) + Count(keys[..i], k)
      invariant forall k :: 0 <= k <= n ==> off[k] == Below(keys, k)
      invariant all == e[..]
      invariant forall k :: 0 <= k < n ==> Run(keys, vals, i, k, all)
    {
      SlotsApart(keys, i, 0);
      ghost var was := all;
      e[next[keys[i]]] := vals[i];
      all := e[..];
      ghost var done := i + 1;
      forall k | 0 <= k < n ensures Run(keys, vals, done, k, all) { RunGrows(keys, vals, i, k, was, all); }
      assert keys[..i + 1][..i] == keys[..i];
      next[keys[i]] := next[keys[i]] + 1;
    }
    ghost var o := off[..];
    forall k | 0 <= k < n ensures Packed(keys, vals, k, o, all) { RunsPack(keys, vals, k, n, o, all); }
  }

  /** The packed form read back, key by key. */
  method Layers<T(0)>(n: nat, keys: seq<nat>, vals: seq<T>) returns (l: seq<seq<T>>)
    requires |keys| == |vals| && forall i :: 0 <= i < |keys| ==> keys[i] < n
    ensures |l| == n && forall k :: 0 <= k < n ==> l[k] == At(keys, vals, k)
  {
    var off, e := Fill(n, keys, vals);
    l := [];
    for k := 0 to n
      invariant |l| == k && forall j :: 0 <= j < k ==> l[j] == At(keys, vals, j)
    {
      assert Packed(keys, vals, k, off[..], e[..]);
      l := l + [e[..][off[k]..off[k + 1]]];
    }
  }
}
