/** Latency histograms: src/stats.c, one caller at a time. */
module Stats {
  import opened Histograms

  /** round(), for a number that is not negative. */
  function Round(x: real): nat
    requires x >= 0.0
  {
    (x + 0.5).Floor
  }

  function Part(p: real, c: real): real { p / 100.0 * c }

  lemma PartNotNegative(p: real, c: real)
    requires p >= 0.0 && c >= 0.0
    ensures Part(p, c) >= 0.0
  {
  }

  /** `rank` of stats_percentile, in exact arithmetic. */
  function Rank(p: real, count: nat): nat
    requires p >= 0.0
  {
    PartNotNegative(p, count as real);
    if p == 100.0 then count else Round(Part(p, count as real) + 0.5)
  }

  function Share(p: real, c: real): real { p * c / 100.0 }

  /** The sorted sample that a percentile names; the last one at 100. */
  function Position(p: real, count: nat): int
    requires p >= 0.0
  {
    if p == 100.0 then count - 1 else Share(p, count as real).Floor
  }

  lemma ShareIs(p: real, c: real)
    ensures Part(p, c) == Share(p, c)
  {
  }

  lemma RoundedHalf(y: real)
    requires y >= 0.0
    ensures Round(y + 0.5) == y.Floor + 1
  {
  }

  lemma ShareNotNegative(p: real, c: real)
    requires p >= 0.0 && c >= 0.0
    ensures Share(p, c) >= 0.0
  {
  }

  lemma RankIsPosition(p: real, count: nat)
    requires p >= 0.0
    ensures Rank(p, count) == Position(p, count) + 1
  {
    hide Share, Part, Round;
    var c := count as real;
    ShareNotNegative(p, c);
    ShareIs(p, c);
    RoundedHalf(Share(p, c));
  }

  lemma FloorBounds(u: real, v: real, n: nat)
    requires 0.0 <= u <= v
    ensures 0 <= u.Floor <= v.Floor && (v < n as real ==> v.Floor < n)
  {
  }

  lemma ShareBounds(p: real, q: real, c: real)
    requires 0.0 <= p <= q && c > 0.0
    ensures 0.0 <= Share(p, c) <= Share(q, c) && (q < 100.0 ==> Share(q, c) < c)
  {
    NotNegative(p, c);
    NotNegative(q - p, c);
    assert p * c >= 0.0 && (q - p) * c == q * c - p * c;
    if q < 100.0 { assert (100.0 - q) * c > 0.0 && (100.0 - q) * c == 100.0 * c - q * c; }
    Hundredth(p * c, q * c, c);
  }

  lemma NotNegative(x: real, c: real)
    requires x >= 0.0 && c >= 0.0
    ensures x * c >= 0.0
  {
  }

  lemma Hundredth(a: real, b: real, c: real)
    requires 0.0 <= a <= b
    ensures 0.0 <= a / 100.0 <= b / 100.0 && (b < 100.0 * c ==> b / 100.0 < c)
  {
  }

  lemma PositionBounds(p: real, q: real, count: nat)
    requires 0.0 <= p <= q <= 100.0 && count > 0
    ensures 0 <= Position(p, count) <= Position(q, count) < count
  {
    hide Share;
    var c := count as real;
    ShareBounds(p, p, c);
    ShareBounds(p, q, c);
    FloorBounds(Share(p, c), Share(q, c), count);
    FloorBounds(Share(p, c), Share(p, c), count);
  }

  lemma PositionBeyond(p: real, count: nat)
    requires p > 100.0
    ensures Position(p, count) >= count
  {
    var c := count as real;
    assert p * c >= 100.0 * c;
  }

  lemma SortedIsSample(samples: seq<nat>, k: nat)
    requires k < |samples|
    ensures Sorted(samples)[k] in samples
  {
    assert Sorted(samples)[k] in multiset(Sorted(samples));
  }

  /** A greater percentile is not a lesser latency, and all lie between the least and the greatest sample. */
  lemma PercentileMonotone(samples: seq<nat>, p: real, q: real)
    requires samples != [] && 0.0 <= p <= q <= 100.0
    ensures 0 <= Position(p, |samples|) <= Position(q, |samples|) < |samples|
    ensures MinOf(samples) <= Sorted(samples)[Position(p, |samples|)] <= Sorted(samples)[Position(q, |samples|)]
         <= MaxOf(samples)
  {
    hide Position, Sorted, MinOf, MaxOf;
    PositionBounds(p, q, |samples|);
    var s := Sorted(samples);
    SortedIsSample(samples, Position(p, |samples|));
    SortedIsSample(samples, Position(q, |samples|));
    MinOfBounds(samples);
    MaxOfBounds(samples);
  }

  lemma {:induction false} BelowPermuted(q: seq<nat>, r: seq<nat>, v: nat)
    requires multiset(q) == multiset(r)
    ensures Below(q, v) == Below(r, v)
  {
    if v == 0 {
      BelowZero(q);
      BelowZero(r);
    } else {
      BelowPermuted(q, r, v - 1);
      BelowNext(q, v - 1);
      BelowNext(r, v - 1);
    }
  }

  /** What a percentile is: at most that share of the samples lies below it, and more than that share, or all of them,
      does not lie above it. */
  predicate Splits(samples: seq<nat>, p: real, r: nat) {
    var c := |samples| as real;
    && 100.0 * (Below(samples, r) as real) <= p * c
    && (p * c < 100.0 * (Below(samples, r + 1) as real) || Below(samples, r + 1) == |samples|)
  }

  lemma FloorOf(p: real, c: real)
    requires p >= 0.0 && c >= 0.0
    ensures var k := Share(p, c).Floor; 100.0 * (k as real) <= p * c < 100.0 * ((k + 1) as real)
  {
    var x := p * c;
    assert Share(p, c) == x / 100.0;
  }

  lemma SplitsAt(samples: seq<nat>, p: real, k: nat, r: nat)
    requires 0.0 <= p && k < |samples|
    requires if p == 100.0 then k == |samples| - 1 else k == Share(p, |samples| as real).Floor
    requires Below(samples, r) <= k < Below(samples, r + 1) <= |samples|
    ensures Splits(samples, p, r)
  {
    hide Below, Share;
    var c := |samples| as real;
    FloorOf(p, c);
    var a, b := Below(samples, r), Below(samples, r + 1);
    assert a as real <= k as real <= c && (k + 1) as real <= b as real;
  }

  lemma PercentileSplits(samples: seq<nat>, p: real)
    requires samples != [] && 0.0 <= p <= 100.0
    ensures 0 <= Position(p, |samples|) < |samples| && Splits(samples, p, Sorted(samples)[Position(p, |samples|)])
  {
    hide Sorted, Share, Below, Splits;
    var k := Position(p, |samples|);
    PositionBounds(p, p, |samples|);
    var q := Sorted(samples);
    var r := q[k];
    SortedBelow(q, r, k);
    SortedBelow(q, r + 1, k);
    BelowPermuted(q, samples, r);
    BelowPermuted(q, samples, r + 1);
    BelowBounded(samples, r + 1);
    SplitsAt(samples, p, k, r);
  }

  // ----- coordinated omission

  /** The entries at `m`, `m + step`, `m + 2 * step`, ... up to `hi`, added up. */
  function Strided(data: seq<nat>, m: nat, step: nat, hi: int): nat
    requires step > 0 && hi < |data|
    decreases hi - m
  {
    if m > hi then 0 else data[m] + Strided(data, m + step, step, hi)
  }

  /** Some number of steps leads from `m` to `n`. */
  predicate Hits(m: nat, step: nat, n: nat)
    requires step > 0
    decreases n - m
  {
    m == n || (m < n && Hits(m + step, step, n))
  }

  /** The entries up to `hi` to which some number of steps leads from `m`, added up. */
  function Spread(data: seq<nat>, m: nat, step: nat, hi: int): nat
    requires step > 0 && hi < |data|
    decreases hi + 1 - m
  {
    if hi < m then 0 else Spread(data, m, step, hi - 1) + if Hits(m, step, hi) then data[hi] else 0
  }

  lemma {:induction false} StridedIsSpread(data: seq<nat>, m: nat, step: nat, hi: int)
    requires step > 0 && hi < |data|
    ensures Strided(data, m, step, hi) == Spread(data, m, step, hi)
    decreases hi + 1 - m
  {
    if m <= hi {
      StridedIsSpread(data, m, step, hi - 1);
      StridedNext(data, m, step, hi);
    }
  }

  lemma {:induction false} HitsApart(j: nat, m: nat, step: nat, n: nat)
    requires step > 0 && j < m && Hits(j, step, n) && Hits(m, step, n)
    ensures j + step <= m
    decreases n - m
  {
    if m < n {
      if j + step > m { HitsApart(j + step, m + step, step, n); }
    }
  }

  lemma {:induction false} StridedNext(data: seq<nat>, m: nat, step: nat, hi: nat)
    requires step > 0 && hi < |data|
    ensures Strided(data, m, step, hi) == Strided(data, m, step, hi - 1) + if Hits(m, step, hi) then data[hi] else 0
    decreases hi + 1 - m
  {
    if m < hi {
      StridedNext(data, m + step, step, hi);
    } else if m == hi {
      assert Strided(data, m + step, step, hi) == 0;
    }
  }

  /** Entry `j` while the outer loop is at `n` and the inner one has changed the entries above `m`. */
  function Corrected(data: seq<nat>, step: nat, n: nat, m: int, j: nat): nat
    requires step > 0 && n < |data| && j < |data|
  {
    if j <= step || j >= n then data[j]
    else if j > m && Hits(j, step, n) then Strided(data, j, step, n)
    else Strided(data, j, step, n - 1)
  }

  /** Entry `j` once the outer loop is past all indices below `n`. */
  function Through(data: seq<nat>, step: nat, n: nat, j: nat): nat
    requires step > 0 && n <= |data| && j < |data|
  {
    if j <= step || j >= n then data[j] else Strided(data, j, step, n - 1)
  }

  lemma CorrectedStep(data: seq<nat>, step: nat, n: nat, m: nat, j: nat)
    requires step < m < n < |data| && 0 < step && Hits(m, step, n) && j < |data|
    ensures j != m ==> Corrected(data, step, n, m - step, j) == Corrected(data, step, n, m, j)
    ensures j == m ==> Corrected(data, step, n, m - step, j) == Corrected(data, step, n, m, j) + data[n]
  {
    if j == m {
      StridedNext(data, m, step, n);
    } else if m - step < j < m && Hits(j, step, n) {
      HitsApart(j, m, step, n);
    }
  }

  lemma CorrectedStart(data: seq<nat>, step: nat, n: nat, j: nat)
    requires 0 < step && 2 * step <= n < |data| && j < |data|
    ensures Corrected(data, step, n, n - step, j) == Through(data, step, n, j)
  {
    if n - step < j < n && Hits(j, step, n) { HitsApart(j, n, step, n); }
  }

  lemma CorrectedEnd(data: seq<nat>, step: nat, n: nat, m: int, j: nat)
    requires 0 < step && 2 * step <= n < |data| && j < |data| && (m <= step || data[n] == 0)
    ensures Corrected(data, step, n, m, j) == Through(data, step, n + 1, j)
  {
    StridedNext(data, j, step, n);
    if j == n { assert Strided(data, n, step, n) == data[n] + Strided(data, n + step, step, n); }
  }

  lemma ThroughStart(data: seq<nat>, step: nat, n: nat, j: nat)
    requires 0 < step && n <= 2 * step && n <= |data| && j < |data|
    ensures Through(data, step, n, j) == data[j]
  {
    if step < j < n { assert Strided(data, j, step, n - 1) == data[j] + Strided(data, j + step, step, n - 1); }
  }

  lemma Ahead(data: seq<nat>, step: nat, n: nat)
    requires 0 < step <= n < |data|
    ensures Through(data, step, n, n) == data[n] && Hits(n - step, step, n)
  {
    assert Hits(n, step, n);
  }

  lemma HitsBack(m: nat, step: nat, n: nat)
    requires 0 < step < m && Hits(m, step, n) && m < n
    ensures Hits(m - step, step, n)
  {
  }

  // ----- the inner loop of stats_correct, turn by turn

  /** The variables of the inner loop for an entry of `c` samples. */
  datatype Inner = Inner(data: seq<nat>, count: nat, m: int)

  predicate More(i: Inner, c: nat, expected: nat) { c != 0 && i.m > expected }

  function Turn(i: Inner, c: nat, expected: nat): Inner
    requires 0 <= i.m < |i.data|
  {
    Inner(i.data[i.m := i.data[i.m] + c], i.count + c, i.m - expected)
  }

  /** At most `k` turns, while the loop goes on. */
  function Turns(i: Inner, c: nat, expected: nat, k: nat): (r: Inner)
    requires i.m < |i.data|
    ensures r.m < |r.data| && |r.data| == |i.data|
  {
    if k == 0 then i
    else
      var r := Turns(i, c, expected, k - 1);
      if More(r, c, expected) then Turn(r, c, expected) else r
  }

  /** The inner loop ends if and only if the step is positive or it does not begin. */
  lemma {:induction false} EndsIff(i: Inner, c: nat, expected: nat)
    requires i.m < |i.data|
    ensures (exists k :: !More(Turns(i, c, expected, k), c, expected)) <==> expected > 0 || !More(i, c, expected)
  {
    if !More(i, c, expected) {
      assert !More(Turns(i, c, expected, 0), c, expected);
    } else if expected > 0 {
      Sinks(i, c, expected, i.m);
      assert !More(Turns(i, c, expected, i.m), c, expected);
    } else {
      forall k: nat
        ensures More(Turns(i, c, expected, k), c, expected)
      {
        Stands(i, c, k);
      }
    }
  }

  lemma {:induction false} Sinks(i: Inner, c: nat, expected: nat, k: nat)
    requires i.m < |i.data| && expected > 0
    ensures var r := Turns(i, c, expected, k); !More(r, c, expected) || r.m <= i.m - k
  {
    if k > 0 { Sinks(i, c, expected, k - 1); }
  }

  lemma {:induction false} Stands(i: Inner, c: nat, k: nat)
    requires i.m < |i.data| && More(i, c, 0)
    ensures Turns(i, c, 0, k).m == i.m
  {
    if k > 0 { Stands(i, c, k - 1); }
  }

  lemma NothingBelow(data: seq<nat>, samples: seq<nat>, v: nat)
    requires Histograms.Counts(data, samples) && v <= |data| && forall i :: 0 <= i < |samples| ==> v <= samples[i]
    ensures Upto(data, v) == 0
  {
    UptoZeros(data, 0, v);
  }

  lemma NothingAbove(data: seq<nat>, samples: seq<nat>, v: nat)
    requires Histograms.Counts(data, samples) && v < |data| && forall i :: 0 <= i < |samples| ==> samples[i] <= v
    ensures Upto(data, v + 1) == |samples|
  {
    UptoZeros(data, v + 1, |data|);
    UptoAll(data, samples);
  }

  class Stats {
    const limit: nat
    const data: array<nat>
    var count: nat
    var min: nat
    var max: nat

    ghost predicate Valid()
      reads this
    {
      0 < limit <= UINT64_MAX && data.Length == 2 * limit && max < limit
    }

    /** The histogram holds exactly these samples. */
    ghost predicate Holds(samples: seq<nat>)
      reads this, data
    {
      Valid() && Histograms.Counts(data[..], samples) && count == |samples| && min == MinOf(samples)
          && max == MaxOf(samples)
    }

    /** stats_alloc. */
    constructor (max: nat)
      requires max < UINT64_MAX
      ensures limit == max + 1 && fresh(data) && Holds([])
    {
      limit := max + 1;
      data := new nat[2 * (max + 1)](i => 0);
      count, min, this.max := 0, UINT64_MAX, 0;
    }

    /** stats_record: a sample beyond the limit is refused. */
    method Record(n: nat, ghost samples: seq<nat>) returns (ok: bool)
      requires Holds(samples)
      modifies this, data
      ensures ok == (n < limit) && Holds(if ok then samples + [n] else samples)
    {
      if n >= limit { return false; }
      CountsSnoc(data[..], samples, n);
      MinMaxSnoc(samples, n);
      data[n] := data[n] + 1;
      assert data[..] == old(data[..])[n := old(data[n]) + 1];
      count := count + 1;
      if n < min { min := n; }
      if n > max { max := n; }
      return true;
    }

    /** stats_percentile. */
    method Percentile(p: real, ghost samples: seq<nat>) returns (r: nat)
      requires Holds(samples) && p >= 0.0
      ensures samples != [] && p <= 100.0 ==>
                0 <= Position(p, |samples|) < |samples| && r == Sorted(samples)[Position(p, |samples|)]
      ensures samples != [] && p <= 100.0 ==> Splits(samples, p, r)
      ensures samples == [] || p > 100.0 ==> r == 0
    {
      hide Rank, Position, Sorted, Splits, MinOf, MaxOf, Below;
      if samples != [] && p <= 100.0 { PercentileSplits(samples, p); }
      ghost var k := Position(p, count);
      RankIsPosition(p, count);
      if count > 0 && p <= 100.0 { PositionBounds(p, p, count); }
      if p > 100.0 { PositionBeyond(p, count); }
      MinOfBounds(samples);
      MaxOfBounds(samples);
      if samples != [] { assert min <= samples[0] <= max; }
      var rank := Rank(p, count);
      var total := 0;
      var i := min;
      UptoAll(data[..], samples);
      if samples != [] { NothingBelow(data[..], samples, min); }
      while i <= max
        invariant samples != [] ==> min <= i <= max + 1 && total == Upto(data[..], i) && total < rank
        invariant samples == [] ==> i == UINT64_MAX
      {
        total := total + data[i];
        if total >= rank {
          UptoMonotone(data[..], i + 1, data.Length);
          if p <= 100.0 { RankIsElement(data[..], samples, i, k); }
          return i;
        }
        i := i + 1;
      }
      if samples != [] { NothingAbove(data[..], samples, max); }
      return 0;
    }

    /** stats_correct: entry `m` gains the entries `m + expected`, `m + 2 * expected`, ... as they were, and the count
        gains what the entries gain.  With an `expected` of zero and a sample above zero it does not end. */
    method Correct(expected: nat)
      requires Valid() && (expected > 0 || forall n :: 0 < n <= max ==> data[n] == 0)
      modifies `count, data
      ensures expected == 0 ==> data[..] == old(data[..])
      ensures expected > 0 ==> forall m :: 0 <= m < data.Length ==>
                data[m] == if expected < m <= max then Spread(old(data[..]), m, expected, max) else old(data[m])
      ensures count - old(count) == Upto(data[..], data.Length) - Upto(old(data[..]), data.Length)
    {
      hide Strided, Spread, Hits, Upto;
      ghost var was := data[..];
      if expected == 0 {
        // No entry has anything to add: the inner loop never begins.
        return;
      }
      var n := expected * 2;
      forall j | 0 <= j < data.Length
        ensures was[j] == Through(was, expected, if n <= max then n else max + 1, j)
      {
        ThroughStart(was, expected, if n <= max then n else max + 1, j);
      }
      while n <= max
        invariant 2 * expected <= n
        invariant forall j :: 0 <= j < data.Length ==>
                    data[j] == Through(was, expected, if n <= max then n else max + 1, j)
        invariant count - old(count) == Upto(data[..], data.Length) - Upto(was, data.Length)
      {
        CorrectFrom(expected, n, was);
        n := n + 1;
      }
      forall m | expected < m <= max
        ensures Strided(was, m, expected, max) == Spread(was, m, expected, max)
      {
        StridedIsSpread(was, m, expected, max);
      }
    }

    /** The inner loop, for the entry `n`. */
    method CorrectFrom(expected: nat, n: nat, ghost was: seq<nat>)
      requires Valid() && 0 < 2 * expected <= n <= max && |was| == data.Length
      requires forall j :: 0 <= j < data.Length ==> data[j] == Through(was, expected, n, j)
      modifies `count, data
      ensures forall j :: 0 <= j < data.Length ==> data[j] == Through(was, expected, n + 1, j)
      ensures count - old(count) == Upto(data[..], data.Length) - Upto(old(data[..]), data.Length)
    {
      hide Strided, Hits, Through, Corrected, Upto;
      var c := data[n];
      var m := n - expected;
      Ahead(was, expected, n);
      forall j | 0 <= j < data.Length
        ensures data[j] == Corrected(was, expected, n, m, j)
      {
        CorrectedStart(was, expected, n, j);
      }
      while c != 0 && m > expected
        invariant 0 <= m < n && Hits(m, expected, n) && c == was[n]
        invariant forall j :: 0 <= j < data.Length ==> data[j] == Corrected(was, expected, n, m, j)
        invariant count - old(count) == Upto(data[..], data.Length) - Upto(old(data[..]), data.Length)
        decreases m
      {
        ghost var before := data[..];
        forall j | 0 <= j < data.Length
          ensures Corrected(was, expected, n, m - expected, j)
               == Corrected(was, expected, n, m, j) + if j == m then c else 0
        {
          CorrectedStep(was, expected, n, m, j);
        }
        UptoUpdate(before, data.Length, m, before[m] + c);
        HitsBack(m, expected, n);
        data[m] := data[m] + c;
        assert data[..] == before[m := before[m] + c];
        count := count + c;
        m := m - expected;
      }
      forall j | 0 <= j < data.Length
        ensures Corrected(was, expected, n, m, j) == Through(was, expected, n + 1, j)
      {
        CorrectedEnd(was, expected, n, m, j);
      }
    }
  }
}
