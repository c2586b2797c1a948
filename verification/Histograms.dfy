/** What a latency histogram stands for: the samples recorded in it. */
module Histograms {
  const UINT64_MAX: nat := 0xFFFF_FFFF_FFFF_FFFF

  function MinOf(samples: seq<nat>): nat {
    if samples == [] then UINT64_MAX
    else
      var m, n := MinOf(samples[..|samples| - 1]), samples[|samples| - 1];
      if n < m then n else m
  }

  function MaxOf(samples: seq<nat>): nat {
    if samples == [] then 0
    else
      var m, n := MaxOf(samples[..|samples| - 1]), samples[|samples| - 1];
      if n > m then n else m
  }

  lemma {:induction false} MinOfBounds(samples: seq<nat>)
    ensures MinOf(samples) <= UINT64_MAX
    ensures forall i :: 0 <= i < |samples| ==> MinOf(samples) <= samples[i]
    ensures MinOf(samples) < UINT64_MAX ==> MinOf(samples) in samples
  {
    if samples != [] { MinOfBounds(samples[..|samples| - 1]); }
  }

  lemma {:induction false} MaxOfBounds(samples: seq<nat>)
    ensures forall i :: 0 <= i < |samples| ==> samples[i] <= MaxOf(samples)
    ensures MaxOf(samples) > 0 ==> MaxOf(samples) in samples
  {
    if samples != [] { MaxOfBounds(samples[..|samples| - 1]); }
  }

  /** The entries below `v`, added up. */
  function Upto(data: seq<nat>, v: nat): nat
    requires v <= |data|
  {
    if v == 0 then 0 else Upto(data, v - 1) + data[v - 1]
  }

  lemma {:induction false} UptoMonotone(data: seq<nat>, v: nat, w: nat)
    requires v <= w <= |data|
    ensures Upto(data, v) <= Upto(data, w)
    decreases w
  {
    if v < w { UptoMonotone(data, v, w - 1); }
  }

  lemma {:induction false} UptoZeros(data: seq<nat>, v: nat, w: nat)
    requires v <= w <= |data| && forall i :: v <= i < w ==> data[i] == 0
    ensures Upto(data, v) == Upto(data, w)
    decreases w
  {
    if v < w { UptoZeros(data, v, w - 1); }
  }

  lemma {:induction false} UptoUpdate(data: seq<nat>, v: nat, i: nat, x: nat)
    requires v <= |data| && i < |data|
    ensures Upto(data[i := x], v) == if i < v then Upto(data, v) - data[i] + x else Upto(data, v)
  {
    if v > 0 {
      UptoUpdate(data, v - 1, i, x);
      if i < v - 1 { UptoHolds(data, v - 1, i); }
    }
  }

  lemma {:induction false} UptoHolds(data: seq<nat>, v: nat, i: nat)
    requires i < v <= |data|
    ensures data[i] <= Upto(data, v)
  {
    if i < v - 1 { UptoHolds(data, v - 1, i); }
  }

  /** `data` counts each of the samples. */
  ghost predicate Counts(data: seq<nat>, samples: seq<nat>) {
    && (forall i :: 0 <= i < |samples| ==> samples[i] < |data|)
    && (forall v :: 0 <= v < |data| ==> data[v] == multiset(samples)[v])
  }

  lemma MultisetSnoc(samples: seq<nat>, n: nat)
    ensures multiset(samples + [n]) == multiset(samples) + multiset{n}
  {
  }

  lemma CountsSnoc(data: seq<nat>, samples: seq<nat>, n: nat)
    requires Counts(data, samples) && n < |data|
    ensures Counts(data[n := data[n] + 1], samples + [n])
  {
    MultisetSnoc(samples, n);
  }

  lemma MinMaxSnoc(samples: seq<nat>, n: nat)
    ensures MinOf(samples + [n]) == if n < MinOf(samples) then n else MinOf(samples)
    ensures MaxOf(samples + [n]) == if n > MaxOf(samples) then n else MaxOf(samples)
  {
    assert (samples + [n])[..|samples|] == samples;
  }

  // ----- order

  predicate IsSorted(q: seq<nat>) { forall i, j :: 0 <= i < j < |q| ==> q[i] <= q[j] }

  lemma MultisetLast(q: seq<nat>)
    requires q != []
    ensures multiset(q) == multiset(q[..|q| - 1]) + multiset{q[|q| - 1]}
  {
    assert q == q[..|q| - 1] + [q[|q| - 1]];
  }

  /** Bounds of the elements are bounds of any arrangement of them. */
  lemma BoundMoves(q: seq<nat>, r: seq<nat>, n: nat, top: nat)
    requires multiset(r) == multiset(q) + multiset{n} && n <= top && forall i :: 0 <= i < |q| ==> q[i] <= top
    ensures forall i :: 0 <= i < |r| ==> r[i] <= top
  {
    forall i | 0 <= i < |r|
      ensures r[i] <= top
    {
      assert r[i] in multiset(r);
      assert r[i] in multiset(q) || r[i] == n;
    }
  }

  lemma SortedSnoc(q: seq<nat>, n: nat)
    requires IsSorted(q) && forall i :: 0 <= i < |q| ==> q[i] <= n
    ensures IsSorted(q + [n])
  {
  }

  function Insert(q: seq<nat>, n: nat): (r: seq<nat>)
    requires IsSorted(q)
    ensures IsSorted(r) && multiset(r) == multiset(q) + multiset{n}
  {
    if q == [] || q[|q| - 1] <= n then
      SortedSnoc(q, n);
      MultisetSnoc(q, n);
      q + [n]
    else
      var m := |q| - 1;
      var r := Insert(q[..m], n);
      BoundMoves(q[..m], r, n, q[m]);
      SortedSnoc(r, q[m]);
      MultisetSnoc(r, q[m]);
      MultisetLast(q);
      r + [q[m]]
  }

  function Sorted(samples: seq<nat>): (r: seq<nat>)
    ensures IsSorted(r) && multiset(r) == multiset(samples) && |r| == |samples|
  {
    if samples == [] then []
    else
      var n := |samples| - 1;
      var r := Insert(Sorted(samples[..n]), samples[n]);
      assert samples == samples[..n] + [samples[n]];
      assert |multiset(r)| == |r| && |multiset(samples)| == |samples|;
      r
  }

  /** How many of the samples are below `v`. */
  function Below(q: seq<nat>, v: nat): nat {
    if q == [] then 0 else Below(q[..|q| - 1], v) + if q[|q| - 1] < v then 1 else 0
  }

  lemma {:induction false} SortedBelow(q: seq<nat>, v: nat, k: nat)
    requires IsSorted(q) && k < |q|
    ensures q[k] < v <==> k < Below(q, v)
  {
    var n := |q| - 1;
    BelowBounded(q[..n], v);
    if k < n {
      SortedBelow(q[..n], v, k);
    } else if q[n] < v {
      AllBelow(q, v);
    }
  }

  lemma {:induction false} BelowBounded(q: seq<nat>, v: nat)
    ensures Below(q, v) <= |q|
  {
    if q != [] { BelowBounded(q[..|q| - 1], v); }
  }

  lemma {:induction false} AllBelow(q: seq<nat>, v: nat)
    requires forall i :: 0 <= i < |q| ==> q[i] < v
    ensures Below(q, v) == |q|
  {
    if q != [] { AllBelow(q[..|q| - 1], v); }
  }

  lemma {:induction false} BelowNext(q: seq<nat>, v: nat)
    ensures Below(q, v + 1) == Below(q, v) + multiset(q)[v]
  {
    if q != [] {
      var n := |q| - 1;
      BelowNext(q[..n], v);
      assert q == q[..n] + [q[n]];
    }
  }

  lemma {:induction false} BelowZero(q: seq<nat>)
    ensures Below(q, 0) == 0
  {
    if q != [] { BelowZero(q[..|q| - 1]); }
  }

  /** The entries below `v` count the samples below `v`. */
  lemma {:induction false} UptoIsBelow(data: seq<nat>, samples: seq<nat>, q: seq<nat>, v: nat)
    requires Counts(data, samples) && multiset(q) == multiset(samples) && v <= |data|
    ensures Upto(data, v) == Below(q, v)
  {
    if v == 0 {
      BelowZero(q);
    } else {
      UptoIsBelow(data, samples, q, v - 1);
      BelowNext(q, v - 1);
    }
  }

  /** The first entry that makes the sum exceed `k` is element `k` of the sorted samples. */
  lemma RankIsElement(data: seq<nat>, samples: seq<nat>, v: nat, k: nat)
    requires Counts(data, samples) && v < |data| && k < |samples|
    requires Upto(data, v) <= k < Upto(data, v + 1)
    ensures v == Sorted(samples)[k]
  {
    var q := Sorted(samples);
    UptoIsBelow(data, samples, q, v);
    UptoIsBelow(data, samples, q, v + 1);
    SortedBelow(q, v, k);
    SortedBelow(q, v + 1, k);
  }

  lemma UptoAll(data: seq<nat>, samples: seq<nat>)
    requires Counts(data, samples)
    ensures Upto(data, |data|) == |samples|
  {
    UptoIsBelow(data, samples, samples, |data|);
    AllBelow(samples, |data|);
  }
}
