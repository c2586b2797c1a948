/** The latency chart: digit_ceil and print_stats_latency_map of src/wrk.c. */
module LatencyMap {
  import opened Histograms
  import Stats

  function Pow10(k: nat): (p: nat)
    ensures p >= 1
  {
    if k == 0 then 1 else 10 * Pow10(k - 1)
  }

  lemma {:induction false} Pow10Twenty(k: nat)
    requires k >= 2
    ensures exists q :: Pow10(k) == 20 * q
  {
    if k == 2 {
      assert Pow10(2) == 10 * Pow10(1) == 100 == 20 * 5;
    } else {
      Pow10Twenty(k - 1);
      var q :| Pow10(k - 1) == 20 * q;
      assert Pow10(k) == 20 * (10 * q);
    }
  }

  /** `r` is the least multiple above `x` of the power of ten at the leading digit of `x`. */
  ghost predicate RoundedUp(x: nat, d: nat, k: nat, r: nat) {
    && 1 <= d <= 9 && k >= 1 && d * Pow10(k) <= x < r && r == (d + 1) * Pow10(k)
  }

  lemma RoundedAtMostTwice(x: nat, d: nat, k: nat, r: nat)
    requires RoundedUp(x, d, k, r)
    ensures r <= 2 * x
  {
    assert (d + 1) * Pow10(k) <= 2 * d * Pow10(k);
  }

  /** The leading digit and its place are determined by the number. */
  lemma RoundedUnique(x: nat, d: nat, k: nat, r: nat, d': nat, k': nat, r': nat)
    requires RoundedUp(x, d, k, r) && RoundedUp(x, d', k', r')
    ensures d == d' && k == k' && r == r'
  {
    PlaceBound(x, d, k, r, d', k', r');
    PlaceBound(x, d', k', r', d, k, r);
    DigitBound(x, d, Pow10(k), d');
    DigitBound(x, d', Pow10(k), d);
  }

  lemma DigitBound(x: nat, d: nat, p: nat, e: nat)
    requires x < (d + 1) * p && e * p <= x
    ensures e <= d
  {
    if e > d { Times(d + 1, e, p); }
  }

  lemma Times(a: nat, b: nat, c: nat)
    requires a <= b
    ensures a * c <= b * c
  {
  }

  lemma PlaceBound(x: nat, d: nat, k: nat, r: nat, d': nat, k': nat, r': nat)
    requires RoundedUp(x, d, k, r) && RoundedUp(x, d', k', r')
    ensures k >= k'
  {
    if k < k' {
      Pow10Grows(k + 1, k');
      Times(d + 1, 10, Pow10(k));
      Times(1, d', Pow10(k'));
    }
  }

  lemma {:induction false} Pow10Grows(k: nat, l: nat)
    requires k <= l
    ensures Pow10(k) <= Pow10(l)
    decreases l
  {
    if k < l { Pow10Grows(k, l - 1); }
  }

  lemma TakeDigit(x: nat, y: nat, k: nat)
    requires y * Pow10(k) <= x < (y + 1) * Pow10(k)
    ensures y / 10 * Pow10(k + 1) <= x < (y / 10 + 1) * Pow10(k + 1)
  {
    var p, z := Pow10(k), y / 10;
    assert 10 * z <= y <= 10 * z + 9;
    assert (10 * z) * p <= y * p;
    assert (y + 1) * p <= (10 * z + 10) * p;
    assert z * (10 * p) == (10 * z) * p && (z + 1) * (10 * p) == (10 * z + 10) * p;
  }

  function LeadingDigit(x: nat): (d: nat)
    ensures d <= 9 && (x > 0 ==> d > 0)
  {
    if x < 10 then x else LeadingDigit(x / 10)
  }

  /** What digit_ceil makes of `x`. */
  ghost predicate IsCeil(x: nat, r: nat) {
    if x == 0 then r == 1 else if x < 10 then r == 10 else exists k: nat :: RoundedUp(x, LeadingDigit(x), k, r)
  }

  /** digit_ceil. */
  method DigitCeil(x: nat) returns (r: nat)
    ensures x < r && IsCeil(x, r)
    ensures x >= 10 ==> r <= 2 * x
  {
    hide Pow10;
    assert Pow10(0) == 1 && Pow10(1) == 10 by { SmallPowers(); }
    var len, y := 0, x;
    while y != 0
      invariant y * Pow10(len) <= x < (y + 1) * Pow10(len)
      invariant (len == 0 && y == x) || (len > 0 && y >= 10)
      invariant x >= 10 ==> y >= 10 && LeadingDigit(y) == LeadingDigit(x)
      decreases y
    {
      TakeDigit(x, y, len);
      y, len := y / 10, len + 1;
      if y < 10 { break; }
    }
    r := (y + 1) * Pow10(len);
    if x >= 10 {
      assert RoundedUp(x, y, len, r);
      RoundedAtMostTwice(x, y, len, r);
    }
  }

  lemma SmallPowers()
    ensures Pow10(0) == 1 && Pow10(1) == 10 && Pow10(2) == 100
  {
    assert Pow10(1) == 10 * Pow10(0) && Pow10(2) == 10 * Pow10(1);
  }

  /** The samples from `a` on and below `b`. */
  function Between(data: seq<nat>, a: nat, b: nat): int
    requires a <= |data| && b <= |data|
  {
    Upto(data, b) - Upto(data, a)
  }

  function Total(buckets: seq<nat>, n: nat): nat
    requires n <= |buckets|
  {
    if n == 0 then 0 else Total(buckets, n - 1) + buckets[n - 1]
  }

  /** Bucket `k` of a chart whose axis stops at `top`. */
  function Bucket(data: seq<nat>, interval: nat, k: nat, top: nat): int
    requires top <= |data|
  {
    var a, b := k * interval, (k + 1) * interval;
    Between(data, if a < top then a else top, if b < top then b else top)
  }

  lemma {:induction false} Telescope(data: seq<nat>, interval: nat, top: nat, buckets: seq<nat>, n: nat)
    requires top <= |data| && n <= |buckets| && forall k :: 0 <= k < n ==> buckets[k] == Bucket(data, interval, k, top)
    ensures Total(buckets, n) == Upto(data, if n * interval < top then n * interval else top)
  {
    if n > 0 {
      Telescope(data, interval, top, buckets, n - 1);
    } else {
      assert 0 * interval == 0;
    }
  }

  lemma BucketGrows(data: seq<nat>, interval: nat, num: nat, k: nat)
    requires interval > 0 && num < |data|
    ensures Bucket(data, interval, k, num + 1)
         == Bucket(data, interval, k, num) + if num / interval == k then data[num] else 0
  {
    var q := num / interval;
    Quotient(num, interval, q);
    Times(k, k + 1, interval);
    if k < q {
      Times(k + 1, q, interval);
    } else if k > q {
      Times(q + 1, k, interval);
    }
    BucketMoves(data, k * interval, (k + 1) * interval, num);
  }

  lemma Quotient(num: nat, interval: nat, q: nat)
    requires interval > 0 && q == num / interval
    ensures q * interval <= num < (q + 1) * interval
  {
  }

  lemma BucketMoves(data: seq<nat>, a: nat, b: nat, num: nat)
    requires num < |data| && a <= b
    ensures Between(data, if a < num + 1 then a else num + 1, if b < num + 1 then b else num + 1)
         == Between(data, if a < num then a else num, if b < num then b else num)
            + if a <= num < b then data[num] else 0
  {
    assert Upto(data, num + 1) == Upto(data, num) + data[num];
  }

  /** No sample is shown twice, and all are shown if and only if the greatest is at least 100, or it is at least 10 and
      its first digit is odd. */
  ghost predicate Shown(samples: seq<nat>, max: nat, buckets: seq<nat>) {
    && Total(buckets, |buckets|) <= |samples|
    && (Total(buckets, |buckets|) == |samples| <==> max >= 100 || (max >= 10 && LeadingDigit(max) % 2 == 1))
  }

  lemma NothingBelow(data: seq<nat>)
    ensures Upto(data, 0) == 0 && Total([], 0) == 0
  {
  }

  /** The loop of print_stats_latency_map: nothing when the axis is shorter than 20, else 20 buckets and an empty
      one. */
  method Chart(stats: Stats.Stats) returns (max: nat, interval: nat, buckets: seq<nat>)
    requires stats.Valid()
    ensures IsCeil(stats.max, max) && interval == max / 20 && (interval == 0 <==> stats.max < 10)
    ensures stats.max >= 10 ==> max <= 2 * stats.max
    ensures interval > 0 ==> max <= stats.data.Length && |buckets| == 21 && buckets[20] == 0
    ensures interval > 0 ==> Total(buckets, 21) == Upto(stats.data[..], 20 * interval)
    ensures interval > 0 ==> forall k :: 0 <= k < 20 ==> buckets[k] == Bucket(stats.data[..], interval, k, max)
    ensures interval == 0 ==> buckets == []
    ensures forall samples | stats.Holds(samples) && samples != [] :: Shown(samples, stats.max, buckets)
  {
    hide RoundedUp, Upto, Total, LeadingDigit, Shown;
    ghost var data := stats.data[..];
    max := DigitCeil(stats.max);
    interval := max / 20;
    buckets := [];
    if stats.max >= 10 { AtLeastTwenty(stats.max, max); }
    if interval == 0 {
      NothingBelow(data);
      forall samples | stats.Holds(samples) && samples != []
        ensures Shown(samples, stats.max, buckets)
      {
        ShownIff(data, samples, stats.max, max, buckets);
      }
      return;
    }
    var a := new nat[21](i => 0);
    forall k | 0 <= k < 20
      ensures Bucket(data, interval, k, 0) == 0
    {
      EmptyBucket(data, interval, k);
    }
    for num := 0 to max
      invariant fresh(a) && a.Length == 21 && data == stats.data[..] && a[20] == 0
      invariant forall k :: 0 <= k < 20 ==> a[k] == Bucket(data, interval, k, num)
    {
      var pos := num / interval;
      forall k | 0 <= k < 20
        ensures Bucket(data, interval, k, num + 1) == Bucket(data, interval, k, num) + if pos == k then data[num] else 0
      {
        BucketGrows(data, interval, num, k);
      }
      if pos < 20 && pos >= 0 {
        a[pos] := a[pos] + stats.data[num];
      }
    }
    buckets := a[..];
    Telescope(data, interval, max, buckets, 20);
    LastBucket(buckets);
    forall samples | stats.Holds(samples) && samples != []
      ensures Shown(samples, stats.max, buckets)
    {
      ShownIff(data, samples, stats.max, max, buckets);
    }
  }

  lemma AtLeastTwenty(x: nat, r: nat)
    requires x >= 10 && IsCeil(x, r)
    ensures r >= 20
  {
    var d := LeadingDigit(x);
    var k: nat :| RoundedUp(x, d, k, r);
    Pow10Grows(1, k);
    SmallPowers();
    Times(2, d + 1, Pow10(k));
  }

  lemma EmptyBucket(data: seq<nat>, interval: nat, k: nat)
    ensures Bucket(data, interval, k, 0) == 0
  {
    assert k * interval >= 0 && (k + 1) * interval >= 0;
  }

  lemma LastBucket(buckets: seq<nat>)
    requires |buckets| == 21 && buckets[20] == 0
    ensures Total(buckets, 21) == Total(buckets, 20)
  {
  }

  lemma Even20(x: nat, d: nat, k: nat, r: nat)
    requires RoundedUp(x, d, k, r)
    ensures k >= 2 <==> x >= 100
    ensures r % 20 == 0 <==> x >= 100 || d % 2 == 1
  {
    SmallPowers();
    if k >= 2 {
      Pow10Grows(2, k);
      Times(1, d, Pow10(k));
      Pow10Twenty(k);
      var q :| Pow10(k) == 20 * q;
      TwentyTimes(d + 1, q);
    }
  }

  lemma TwentyTimes(a: nat, q: nat)
    ensures (a * (20 * q)) % 20 == 0
  {
    assert a * (20 * q) == 20 * (a * q);
  }

  /** A chart drawn to the end of its axis shows everything. */
  lemma ShowsAll(data: seq<nat>, samples: seq<nat>, x: nat, top: nat)
    requires Histograms.Counts(data, samples) && samples != [] && x == MaxOf(samples) && x < top <= |data|
    ensures Upto(data, top) == |samples|
  {
    hide Upto;
    MaxOfBounds(samples);
    UptoAll(data, samples);
    UptoZeros(data, top, |data|);
  }

  /** A chart that stops at the greatest sample or before it does not. */
  lemma ShowsLess(data: seq<nat>, samples: seq<nat>, x: nat, top: nat)
    requires Histograms.Counts(data, samples) && samples != [] && x == MaxOf(samples) && top <= x < |data|
    ensures Upto(data, top) < |samples|
  {
    hide Upto;
    MaxOfBounds(samples);
    assert x in multiset(samples);
    UptoAll(data, samples);
    UptoMonotone(data, top, x);
    UptoMonotone(data, x + 1, |data|);
    UptoNext(data, x);
  }

  lemma UptoNext(data: seq<nat>, x: nat)
    requires x < |data|
    ensures Upto(data, x + 1) == Upto(data, x) + data[x]
  {
  }

  lemma ShortAxis(x: nat, d: nat, k: nat, r: nat)
    requires RoundedUp(x, d, k, r) && x < 100 && d % 2 == 0
    ensures 20 * (r / 20) <= x
  {
    SmallPowers();
    Even20(x, d, k, r);
    if k >= 2 { assert false; }
  }

  /** The chart shows every sample if and only if the greatest is at least 100, or it is at least 10 and its first digit
      is odd; a chart that is not drawn shows none. */
  lemma ShowsAllIff(data: seq<nat>, samples: seq<nat>, x: nat, r: nat)
    requires Histograms.Counts(data, samples) && samples != [] && x == MaxOf(samples) && IsCeil(x, r)
    requires x < |data| && (x >= 10 ==> r <= |data|)
    ensures Upto(data, 20 * (r / 20)) == |samples| <==> x >= 100 || (x >= 10 && LeadingDigit(x) % 2 == 1)
  {
    hide Upto, LeadingDigit;
    if x < 10 {
      assert r / 20 == 0;
      ShowsLess(data, samples, x, 0);
    } else {
      var k: nat :| RoundedUp(x, LeadingDigit(x), k, r);
      Even20(x, LeadingDigit(x), k, r);
      if x >= 100 || LeadingDigit(x) % 2 == 1 {
        ShowsAll(data, samples, x, r);
      } else {
        ShortAxis(x, LeadingDigit(x), k, r);
        ShowsLess(data, samples, x, 20 * (r / 20));
      }
    }
  }

  lemma ShownIff(data: seq<nat>, samples: seq<nat>, x: nat, r: nat, buckets: seq<nat>)
    requires Histograms.Counts(data, samples) && samples != [] && x == MaxOf(samples) && IsCeil(x, r)
    requires x < |data| && (x >= 10 ==> r <= |data|)
    requires Total(buckets, |buckets|) == Upto(data, 20 * (r / 20))
    ensures Shown(samples, x, buckets)
  {
    hide Upto, LeadingDigit, RoundedUp, Total;
    ShowsAllIff(data, samples, x, r);
    UptoAll(data, samples);
    assert 20 * (r / 20) <= |data| by { if x < 10 { assert r <= 10; } }
    UptoMonotone(data, 20 * (r / 20), |data|);
  }

  /** One sample of 25: the axis is 30 wide, the buckets cover 20, and the chart stays empty. */
  lemma ShowsNothing(data: seq<nat>)
    requires Histograms.Counts(data, [25]) && |data| >= 30
    ensures RoundedUp(25, 2, 1, 30) && Upto(data, 20 * (30 / 20)) == 0
  {
    SmallPowers();
    UptoZeros(data, 0, 20);
  }
}
