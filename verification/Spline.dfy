/** helpers.splineCurveMonotone of template/js/Chart.js, in exact arithmetic. */
module Spline {
  datatype Model = Model(x: real, y: real, skip: bool)

  /** Number.EPSILON. */
  const EPSILON: real := 1.0 / 4503599627370496.0

  function Sign(x: real): int { if x == 0.0 then 0 else if x > 0.0 then 1 else -1 }

  function Abs(x: real): real { if x < 0.0 then -x else x }

  function Square(x: real): real { x * x }

  predicate Flat(d: real) { Abs(d - 0.0) < EPSILON }

  /** Points `i` and `i + 1` are both drawn. */
  predicate Pair(points: seq<Model>, i: int) { 0 <= i < |points| - 1 && !points[i].skip && !points[i + 1].skip }

  function Slope(points: seq<Model>, i: nat): real
    requires i < |points|
  {
    if !Pair(points, i) then 0.0
    else
      var dx := points[i + 1].x - points[i].x;
      if dx != 0.0 then (points[i + 1].y - points[i].y) / dx else 0.0
  }

  /** The tangent before it is adjusted. */
  function Tangent(points: seq<Model>, i: nat): real
    requires i < |points|
  {
    if points[i].skip then 0.0
    else if !Pair(points, i - 1) then Slope(points, i)
    else if !Pair(points, i) then Slope(points, i - 1)
    else if Sign(Slope(points, i - 1)) != Sign(Slope(points, i)) then 0.0
    else (Slope(points, i - 1) + Slope(points, i)) / 2.0
  }

  /** What the first tangent of a point is for: the mean of the two slopes where they have one sign, and no slope at all
      where they do not; at the ends of a drawn run the only slope. */
  predicate FirstTangent(points: seq<Model>, i: nat, m: real)
    requires i < |points|
  {
    if Pair(points, i - 1) && Pair(points, i) then
      var d, e := Slope(points, i - 1), Slope(points, i);
      if (d > 0.0 && e > 0.0) || (d < 0.0 && e < 0.0) then m + m == d + e else m == 0.0
    else if Pair(points, i) then m == Slope(points, i)
    else if Pair(points, i - 1) then m == Slope(points, i - 1)
    else m == 0.0
  }

  lemma TangentIsFirst(points: seq<Model>, i: nat, m: real)
    requires i < |points|
    ensures FirstTangent(points, i, m) <==> m == Tangent(points, i)
  {
    NoSlope(points, i);
    if i > 0 { NoSlope(points, i - 1); }
    hide Slope;
  }

  lemma NoSlope(points: seq<Model>, i: nat)
    requires i < |points|
    ensures !Pair(points, i) ==> Slope(points, i) == 0.0
  {
  }

  /** Two drawn points, and the slope between them. */
  lemma SlopeIs(points: seq<Model>, i: nat)
    requires Pair(points, i) && points[i + 1].x != points[i].x
    ensures Slope(points, i) * (points[i + 1].x - points[i].x) == points[i + 1].y - points[i].y
  {
  }

  /** The points from right to left. */
  ghost predicate Mirrored(points: seq<Model>, image: seq<Model>) {
    && |image| == |points|
    && forall i :: 0 <= i < |points| ==>
         image[i] == points[|points| - 1 - i].(x := -points[|points| - 1 - i].x)
  }

  lemma MirrorSlope(points: seq<Model>, image: seq<Model>, i: nat)
    requires Mirrored(points, image) && i + 1 < |points|
    ensures Pair(image, i) <==> Pair(points, |points| - 2 - i)
    ensures Slope(image, i) == -Slope(points, |points| - 2 - i)
  {
    var j := |points| - 2 - i;
    assert image[i] == points[j + 1].(x := -points[j + 1].x) && image[i + 1] == points[j].(x := -points[j].x);
    var dx, dy := points[j + 1].x - points[j].x, points[j + 1].y - points[j].y;
    if dx != 0.0 { Negated(dy, dx); }
  }

  lemma Negated(y: real, x: real)
    requires x != 0.0
    ensures (-y) / x == -(y / x)
  {
  }

  /** The tangents do not depend on the direction in which the points are taken. */
  lemma MirrorTangent(points: seq<Model>, image: seq<Model>, i: nat)
    requires Mirrored(points, image) && i < |points|
    ensures Tangent(image, i) == -Tangent(points, |points| - 1 - i)
  {
    hide Slope;
    var n := |points| - 1;
    if i < n { MirrorSlope(points, image, i); }
    if i > 0 { MirrorSlope(points, image, i - 1); }
    TangentIsFirst(points, n - i, Tangent(points, n - i));
    TangentIsFirst(image, i, -Tangent(points, n - i));
    assert image[i] == points[n - i].(x := -points[n - i].x);
  }

  predicate OnParabola(p: Model, a: real, b: real, c: real) { p.y == a * Square(p.x) + b * p.x + c }

  lemma ParabolaSlope(points: seq<Model>, i: nat, h: real, a: real, b: real, c: real)
    requires Pair(points, i) && h > 0.0 && points[i + 1].x - points[i].x == h
    requires OnParabola(points[i], a, b, c) && OnParabola(points[i + 1], a, b, c)
    ensures Slope(points, i) == a * (2.0 * points[i].x + h) + b
    ensures points[i + 1].y > points[i].y ==> Slope(points, i) > 0.0
    ensures points[i + 1].y < points[i].y ==> Slope(points, i) < 0.0
  {
    hide Slope, Square;
    var x := points[i].x;
    assert points[i + 1].x == x + h;
    ParabolaStep(x, h, a, b, c);
    SlopeIs(points, i);
    var d := Slope(points, i);
    Cancels(d, a * (2.0 * x + h) + b, h);
    SameSign(d, points[i + 1].y - points[i].y, h);
  }

  /** On a parabola at equal steps, where it rises or falls throughout, the first tangent is the derivative. */
  lemma ParabolaTangent(points: seq<Model>, i: nat, h: real, a: real, b: real, c: real)
    requires Pair(points, i - 1) && Pair(points, i) && h > 0.0
    requires points[i].x - points[i - 1].x == h == points[i + 1].x - points[i].x
    requires forall k :: i - 1 <= k <= i + 1 ==> OnParabola(points[k], a, b, c)
    requires (points[i].y > points[i - 1].y && points[i + 1].y > points[i].y)
             || (points[i].y < points[i - 1].y && points[i + 1].y < points[i].y)
    ensures Tangent(points, i) == 2.0 * a * points[i].x + b
  {
    hide Slope, OnParabola, Tangent;
    var x := points[i].x;
    ParabolaSlope(points, i - 1, h, a, b, c);
    ParabolaSlope(points, i, h, a, b, c);
    assert points[i - 1].x == x - h;
    Linear(a, x, h);
    TangentIsFirst(points, i, 2.0 * a * x + b);
  }

  lemma ParabolaStep(x: real, h: real, a: real, b: real, c: real)
    ensures (a * Square(x + h) + b * (x + h) + c) - (a * Square(x) + b * x + c) == (a * (2.0 * x + h) + b) * h
  {
    assert Square(x + h) == Square(x) + 2.0 * (x * h) + h * h;
    assert a * Square(x + h) == a * Square(x) + a * (2.0 * (x * h)) + a * (h * h);
    assert (a * (2.0 * x + h)) * h == a * (2.0 * (x * h)) + a * (h * h);
  }

  lemma Cancels(u: real, v: real, h: real)
    requires h > 0.0 && u * h == v * h
    ensures u == v
  {
    assert u == (u * h) / h && v == (v * h) / h;
  }

  lemma SameSign(d: real, y: real, h: real)
    requires h > 0.0 && d * h == y
    ensures (y > 0.0 ==> d > 0.0) && (y < 0.0 ==> d < 0.0)
  {
  }

  lemma Linear(a: real, x: real, h: real)
    ensures a * (2.0 * (x - h) + h) + a * (2.0 * x + h) == 2.0 * (2.0 * a * x)
  {
    assert a * (2.0 * (x - h) + h) == a * (2.0 * x) - a * h;
    assert a * (2.0 * x + h) == a * (2.0 * x) + a * h;
  }

  /** The tangents at the ends of a segment do not go against it. */
  predicate Along(d: real, m: real) { (d > 0.0 ==> m >= 0.0) && (d < 0.0 ==> m <= 0.0) }

  /** No overshoot: the condition of Fritsch and Carlson. */
  predicate Monotone(d: real, a: real, b: real)
    requires d != 0.0
  {
    a / d >= 0.0 && b / d >= 0.0 && Square(a / d) + Square(b / d) <= 9.0
  }

  predicate Settled(d: real, a: real, b: real) { if Flat(d) then a == 0.0 == b else Monotone(d, a, b) }

  /** `m` was shrunk towards zero, or not changed. */
  predicate Shrunk(m: real, from: real) { if from >= 0.0 then 0.0 <= m <= from else from <= m <= 0.0 }

  /** A segment whose own tangents call for no adjustment. */
  predicate Calm(points: seq<Model>, i: int) {
    Pair(points, i) ==>
      !Flat(Slope(points, i))
      && Square(Tangent(points, i) / Slope(points, i)) + Square(Tangent(points, i + 1) / Slope(points, i)) <= 9.0
  }

  lemma TangentAlong(points: seq<Model>, i: nat)
    requires Pair(points, i)
    ensures Along(Slope(points, i), Tangent(points, i)) && Along(Slope(points, i), Tangent(points, i + 1))
  {
    hide Slope;
  }

  lemma RatioAlong(d: real, m: real)
    requires d != 0.0 && Along(d, m)
    ensures m / d >= 0.0 && (m / d) * d == m
  {
    if d < 0.0 { assert m / d == (-m) / (-d); }
  }

  lemma ShrunkAlong(d: real, m: real, from: real)
    requires Along(d, from) && Shrunk(m, from)
    ensures Along(d, m)
  {
  }

  lemma ShrunkRatio(d: real, m: real, from: real)
    requires d != 0.0 && Along(d, from) && Shrunk(m, from)
    ensures 0.0 <= m / d <= from / d && Square(m / d) <= Square(from / d)
  {
    ShrunkAlong(d, m, from);
    RatioAlong(d, m);
    RatioAlong(d, from);
    var u, v := m / d, from / d;
    Cancel(u, v, d);
    assert u * u <= u * v && u * v <= v * v by { Times(u, v, u); Times(u, v, v); }
  }

  lemma Times(u: real, v: real, w: real)
    requires u <= v && w >= 0.0
    ensures w * u <= w * v
  {
  }

  lemma Cancel(u: real, v: real, d: real)
    requires d != 0.0 && (d > 0.0 ==> u * d <= v * d) && (d < 0.0 ==> u * d >= v * d)
    ensures u <= v
  {
    assert u == (u * d) / d && v == (v * d) / d;
  }

  /** Shrinking the tangent at either end of a settled segment leaves it settled. */
  lemma StaysSettled(d: real, a: real, b: real, a': real, b': real)
    requires Settled(d, a, b) && Along(d, a) && Along(d, b) && Shrunk(a', a) && Shrunk(b', b)
    ensures Settled(d, a', b')
  {
    hide Square;
    if !Flat(d) {
      assert d != 0.0;
      ShrunkRatio(d, a', a);
      ShrunkRatio(d, b', b);
    }
  }

  /** Math.sqrt, exactly. */
  ghost predicate IsSqrt(sqrt: real -> real) { forall x: real :: x >= 0.0 ==> sqrt(x) >= 0.0 && sqrt(x) * sqrt(x) == x }

  lemma Tau(root: real, sq: real)
    requires root >= 0.0 && root * root == sq > 9.0
    ensures root > 3.0 && 0.0 < 3.0 / root < 1.0 && Square(3.0 / root) * sq == 9.0
  {
    if root <= 3.0 { Times(root, 3.0, root); }
    var t := 3.0 / root;
    assert t * root == 3.0;
    assert (t * t) * (root * root) == (t * root) * (t * root);
  }

  lemma SquareScaled(u: real, tau: real)
    ensures Square(u * tau) == Square(u) * Square(tau)
  {
    assert (u * tau) * (u * tau) == (u * u) * (tau * tau);
  }

  lemma Distribute(u: real, v: real, w: real)
    ensures u * w + v * w == w * (u + v)
  {
  }

  /** alphaK * tauK * deltaK. */
  function Scale(ratio: real, tau: real, d: real): real { ratio * tau * d }

  lemma Scaled(m: real, d: real, tau: real)
    requires d != 0.0 && 0.0 < tau < 1.0
    ensures var r := Scale(m / d, tau, d); Shrunk(r, m) && Square(r / d) == Square(m / d) * Square(tau)
  {
    var u := m / d;
    assert u * d == m;
    SquareScaled(u, tau);
    ScaledBack(u, tau, d);
    Smaller(m, tau);
  }

  lemma ScaledBack(u: real, tau: real, d: real)
    requires d != 0.0
    ensures Scale(u, tau, d) == (u * d) * tau && Scale(u, tau, d) / d == u * tau
  {
    assert u * tau * d == (u * d) * tau;
    Quotient(u * tau, d);
  }

  lemma Quotient(x: real, d: real)
    requires d != 0.0
    ensures x * d / d == x
  {
  }

  lemma Smaller(m: real, tau: real)
    requires 0.0 < tau < 1.0
    ensures Shrunk(m * tau, m)
  {
    var w := if m >= 0.0 then m else -m;
    Times(0.0, tau, w);
    Times(tau, 1.0, w);
    assert m * tau == if m >= 0.0 then w * tau else -(w * tau);
  }

  /** The adjustment of one segment. */
  lemma Adjusts(d: real, a: real, b: real, root: real)
    requires !Flat(d) && d != 0.0 && Along(d, a) && Along(d, b)
    requires var sq := Square(a / d) + Square(b / d); sq > 9.0 && root >= 0.0 && root * root == sq
    ensures root != 0.0
    ensures var tau := 3.0 / root;
            var a', b' := Scale(a / d, tau, d), Scale(b / d, tau, d);
            Shrunk(a', a) && Shrunk(b', b) && Settled(d, a', b')
  {
    hide Square, Scale;
    var sq := Square(a / d) + Square(b / d);
    Tau(root, sq);
    var tau := 3.0 / root;
    var a', b' := Scale(a / d, tau, d), Scale(b / d, tau, d);
    Scaled(a, d, tau);
    Scaled(b, d, tau);
    ShrunkAlong(d, a', a);
    ShrunkAlong(d, b', b);
    RatioAlong(d, a');
    RatioAlong(d, b');
    Distribute(Square(a / d), Square(b / d), Square(tau));
  }

  /** What the second loop has done before segment `k`. */
  ghost predicate Adjusted(points: seq<Model>, m: seq<real>, k: nat) {
    && |m| == |points|
    && (forall i :: 0 <= i < |m| ==> Shrunk(m[i], Tangent(points, i)))
    && (forall i :: 0 <= i < k && Pair(points, i) ==> Settled(Slope(points, i), m[i], m[i + 1]))
    && (forall i :: 0 <= i < |m| && Calm(points, i - 1) && Calm(points, i) ==> m[i] == Tangent(points, i))
    && (forall i :: k < i < |m| ==> m[i] == Tangent(points, i))
  }

  ghost predicate Slopes(points: seq<Model>, d: seq<real>) {
    |d| == |points| && forall i :: 0 <= i < |d| ==> d[i] == if points[i].skip then 0.0 else Slope(points, i)
  }

  lemma TangentStart(points: seq<Model>)
    ensures forall m: seq<real> | |m| == |points| && (forall i :: 0 <= i < |m| ==> m[i] == Tangent(points, i)) ::
              Adjusted(points, m, 0)
  {
    hide Tangent;
  }

  /** The first loop: slopes and tangents. */
  method Initial(points: seq<Model>) returns (deltaK: array<real>, mK: array<real>)
    ensures fresh(deltaK) && fresh(mK) && deltaK != mK && deltaK.Length == mK.Length == |points|
    ensures Slopes(points, deltaK[..])
    ensures forall i :: 0 <= i < |points| ==> mK[i] == Tangent(points, i)
    ensures forall i :: 0 <= i < |points| ==> FirstTangent(points, i, mK[i])
  {
    deltaK, mK := new real[|points|](i => 0.0), new real[|points|](i => 0.0);
    for i := 0 to |points|
      invariant forall j :: 0 <= j < i ==> deltaK[j] == if points[j].skip then 0.0 else Slope(points, j)
      invariant forall j :: 0 <= j < i ==> mK[j] == Tangent(points, j)
      invariant forall j :: i <= j < |points| ==> deltaK[j] == 0.0 == mK[j]
    {
      if points[i].skip { continue; }
      var after := i < |points| - 1 && !points[i + 1].skip;
      if after {
        var slopeDeltaX := points[i + 1].x - points[i].x;
        deltaK[i] := if slopeDeltaX != 0.0 then (points[i + 1].y - points[i].y) / slopeDeltaX else 0.0;
      }
      if i == 0 || points[i - 1].skip {
        mK[i] := deltaK[i];
      } else if !after {
        mK[i] := deltaK[i - 1];
      } else if Sign(deltaK[i - 1]) != Sign(deltaK[i]) {
        mK[i] := 0.0;
      } else {
        mK[i] := (deltaK[i - 1] + deltaK[i]) / 2.0;
      }
    }
    forall i | 0 <= i < |points|
      ensures FirstTangent(points, i, mK[i])
    {
      TangentIsFirst(points, i, mK[i]);
    }
  }

  /** First tangents `m` that need no adjustment. */
  ghost predicate NoneAdjusted(points: seq<Model>, m: seq<real>) {
    && |m| == |points| && (forall i :: 0 <= i < |points| ==> FirstTangent(points, i, m[i]))
    && forall i :: 0 <= i < |points| - 1 && Pair(points, i) ==>
         var d := Slope(points, i); !Flat(d) && d != 0.0 && Square(m[i] / d) + Square(m[i + 1] / d) <= 9.0
  }

  lemma NoneIsCalm(points: seq<Model>, m: seq<real>, t: seq<real>)
    requires NoneAdjusted(points, m) && |t| == |points|
    requires forall i :: 0 <= i < |points| && Calm(points, i - 1) && Calm(points, i) ==> t[i] == Tangent(points, i)
    ensures t == m
  {
    hide FirstTangent, Tangent, Slope, Square, Flat;
    forall i | 0 <= i < |points|
      ensures m[i] == Tangent(points, i)
    {
      TangentIsFirst(points, i, m[i]);
    }
    forall i | -1 <= i < |points|
      ensures Calm(points, i)
    {
      if Pair(points, i) { assert m[i] == Tangent(points, i) && m[i + 1] == Tangent(points, i + 1); }
    }
    forall i | 0 <= i < |points|
      ensures t[i] == m[i]
    {
      assert Calm(points, i - 1) && Calm(points, i);
    }
  }

  /** One round of the second loop: segment `k`, with tangents `a` and `b` at its ends. */
  lemma Round(points: seq<Model>, m: seq<real>, k: nat, a: real, b: real)
    requires Adjusted(points, m, k) && k + 1 < |m| && Pair(points, k)
    requires Shrunk(a, m[k]) && Shrunk(b, m[k + 1]) && Settled(Slope(points, k), a, b)
    requires Calm(points, k) ==> a == m[k] && b == m[k + 1]
    ensures Adjusted(points, m[k := a][k + 1 := b], k + 1)
  {
    hide Slope, Tangent, Settled, Calm;
    var n := m[k := a][k + 1 := b];
    forall i | 0 <= i < k + 1 && Pair(points, i)
      ensures Settled(Slope(points, i), n[i], n[i + 1])
    {
      if i == k - 1 {
        TangentAlong(points, i);
        ShrunkAlong(Slope(points, i), m[i], Tangent(points, i));
        ShrunkAlong(Slope(points, i), m[i + 1], Tangent(points, i + 1));
        ShrunkSelf(m[i]);
        StaysSettled(Slope(points, i), m[i], m[i + 1], n[i], n[i + 1]);
      }
    }
  }

  lemma ShrunkSelf(m: real)
    ensures Shrunk(m, m)
  {
  }

  /** A calm segment needs no adjustment, whatever its neighbours did to its tangents. */
  lemma CalmFits(points: seq<Model>, m: seq<real>, k: nat)
    requires Adjusted(points, m, k) && k + 1 < |m| && Pair(points, k) && Calm(points, k)
    ensures var d := Slope(points, k); !Flat(d) && d != 0.0 && Square(m[k] / d) + Square(m[k + 1] / d) <= 9.0
  {
    hide Slope, Tangent, Square;
    var d := Slope(points, k);
    NotFlat(d);
    TangentAlong(points, k);
    ShrunkRatio(d, m[k], Tangent(points, k));
    ShrunkRatio(d, m[k + 1], Tangent(points, k + 1));
  }

  lemma NotFlat(d: real)
    ensures !Flat(d) ==> d != 0.0
  {
  }

  lemma NoPair(points: seq<Model>, m: seq<real>, k: nat)
    requires Adjusted(points, m, k) && !Pair(points, k)
    ensures Adjusted(points, m, k + 1)
  {
    hide Slope, Tangent, Settled, Calm;
  }

  /** The two loops of splineCurveMonotone: the tangents at which the curve does not overshoot, flat where the data are
      flat, shrunk only where that is needed. */
  method Tangents(points: seq<Model>, sqrt: real -> real) returns (m: seq<real>)
    requires IsSqrt(sqrt)
    ensures |m| == |points|
    ensures forall i :: 0 <= i < |points| - 1 && Pair(points, i) ==> Settled(Slope(points, i), m[i], m[i + 1])
    ensures forall i :: 0 <= i < |points| ==> Shrunk(m[i], Tangent(points, i))
    ensures forall i :: 0 <= i < |points| && Calm(points, i - 1) && Calm(points, i) ==> m[i] == Tangent(points, i)
  {
    hide Slope, Tangent, Settled, Calm, Square;
    var deltaK, mK := Initial(points);
    TangentStart(points);
    var k := 0;
    while k < |points| - 1
      invariant 0 <= k && (|points| > 0 ==> k <= |points| - 1) && Adjusted(points, mK[..], k)
      invariant Slopes(points, deltaK[..])
      decreases |points| - 1 - k
    {
      ghost var was := mK[..];
      if points[k].skip || points[k + 1].skip {
        NoPair(points, was, k);
        k := k + 1;
        continue;
      }
      assert deltaK[k] == deltaK[..][k] == Slope(points, k);
      Adjust(points, deltaK[k], mK, k, sqrt);
      k := k + 1;
    }
    m := mK[..];
  }

  /** The body of the second loop. */
  method Adjust(points: seq<Model>, deltaK: real, mK: array<real>, k: nat, sqrt: real -> real)
    requires IsSqrt(sqrt) && k + 1 < mK.Length == |points| && Pair(points, k) && deltaK == Slope(points, k)
    requires Adjusted(points, mK[..], k)
    modifies mK
    ensures Adjusted(points, mK[..], k + 1)
  {
    hide Slope, Tangent, Settled, Calm, Square, Adjusted, Scale, Flat;
    ghost var was := mK[..];
    Bounds(points, was, k);
    NotFlat(deltaK);
    if Flat(deltaK) {
      mK[k + 1] := 0.0;
      mK[k] := mK[k + 1];
      FlatSettles(deltaK);
      if Calm(points, k) { CalmNotFlat(points, k); }
      Round(points, was, k, 0.0, 0.0);
      assert mK[..] == was[k := 0.0][k + 1 := 0.0];
      return;
    }
    var alphaK := mK[k] / deltaK;
    var betaK := mK[k + 1] / deltaK;
    var squaredMagnitude := Square(alphaK) + Square(betaK);
    if squaredMagnitude <= 9.0 {
      FitsSettles(deltaK, was[k], was[k + 1]);
      Round(points, was, k, was[k], was[k + 1]);
      assert mK[..] == was[k := was[k]][k + 1 := was[k + 1]];
      return;
    }
    if Calm(points, k) { CalmFits(points, was, k); }
    Adjusts(deltaK, was[k], was[k + 1], sqrt(squaredMagnitude));
    var tauK := 3.0 / sqrt(squaredMagnitude);
    mK[k] := Scale(alphaK, tauK, deltaK);
    mK[k + 1] := Scale(betaK, tauK, deltaK);
    Round(points, was, k, mK[k], mK[k + 1]);
    assert mK[..] == was[k := mK[k]][k + 1 := mK[k + 1]];
  }

  lemma Bounds(points: seq<Model>, m: seq<real>, k: nat)
    requires Adjusted(points, m, k) && k + 1 < |m| && Pair(points, k)
    ensures Along(Slope(points, k), m[k]) && Along(Slope(points, k), m[k + 1])
    ensures Shrunk(0.0, m[k]) && Shrunk(0.0, m[k + 1]) && Shrunk(m[k], m[k]) && Shrunk(m[k + 1], m[k + 1])
  {
    hide Slope, Tangent;
    TangentAlong(points, k);
    ShrunkAlong(Slope(points, k), m[k], Tangent(points, k));
    ShrunkAlong(Slope(points, k), m[k + 1], Tangent(points, k + 1));
  }

  lemma FlatSettles(d: real)
    requires Flat(d)
    ensures Settled(d, 0.0, 0.0)
  {
  }

  lemma FitsSettles(d: real, a: real, b: real)
    requires !Flat(d) && d != 0.0 && Along(d, a) && Along(d, b) && Square(a / d) + Square(b / d) <= 9.0
    ensures Settled(d, a, b)
  {
    hide Square;
    RatioAlong(d, a);
    RatioAlong(d, b);
  }

  lemma CalmNotFlat(points: seq<Model>, k: nat)
    requires Pair(points, k) && Calm(points, k)
    ensures !Flat(Slope(points, k))
  {
    hide Slope, Flat;
  }

  // ----- the curve

  datatype MaybePoint = Unset | At(x: real, y: real)

  /** controlPointPrevious and controlPointNext of a point. */
  datatype Handles = Handles(previous: MaybePoint, next: MaybePoint)

  function Third(points: seq<Model>, i: nat): real
    requires i + 1 < |points|
  {
    (points[i + 1].x - points[i].x) / 3.0
  }

  /** How far a tangent rises over a distance. */
  function Rise(w: real, m: real): real { w * m }

  function Before(points: seq<Model>, m: seq<real>, i: nat): MaybePoint
    requires i < |points| == |m|
  {
    if !Pair(points, i - 1) then Unset
    else At(points[i].x - Third(points, i - 1), points[i].y - Rise(Third(points, i - 1), m[i]))
  }

  function Behind(points: seq<Model>, m: seq<real>, i: nat): MaybePoint
    requires i < |points| == |m|
  {
    if !Pair(points, i) then Unset
    else At(points[i].x + Third(points, i), points[i].y + Rise(Third(points, i), m[i]))
  }

  /** The control points of every drawn segment lie on its tangents, at a third of its width; no other is set. */
  ghost predicate OnTangents(points: seq<Model>, m: seq<real>, c: seq<Handles>) {
    && |m| == |c| == |points|
    && forall i :: 0 <= i < |c| ==> c[i] == Handles(Before(points, m, i), Behind(points, m, i))
  }

  /** The third loop. */
  method ControlPoints(points: seq<Model>, m: seq<real>) returns (c: seq<Handles>)
    requires |m| == |points|
    ensures OnTangents(points, m, c)
  {
    hide Rise;
    c := [];
    for i := 0 to |points|
      invariant |c| == i
      invariant forall j :: 0 <= j < i ==> c[j] == Handles(Before(points, m, j), Behind(points, m, j))
    {
      var h := Handles(Unset, Unset);
      if !points[i].skip {
        if i > 0 && !points[i - 1].skip {
          var deltaX := (points[i].x - points[i - 1].x) / 3.0;
          h := h.(previous := At(points[i].x - deltaX, points[i].y - Rise(deltaX, m[i])));
        }
        if i < |points| - 1 && !points[i + 1].skip {
          var deltaX := (points[i + 1].x - points[i].x) / 3.0;
          h := h.(next := At(points[i].x + deltaX, points[i].y + Rise(deltaX, m[i])));
        }
      }
      assert h == Handles(Before(points, m, i), Behind(points, m, i));
      c := c + [h];
    }
  }

  function Cube(x: real): real { x * x * x }

  /** One coordinate of the Bezier curve that is drawn between two points, at the parameter `t`. */
  function Bezier(p: real, c: real, d: real, q: real, t: real): real {
    Cube(1.0 - t) * p + 3.0 * (Square(1.0 - t) * t) * c + 3.0 * ((1.0 - t) * Square(t)) * d + Cube(t) * q
  }

  /** How far the curve has come from the first value to the second, when its tangents are `a` and `b` times the
      slope. */
  function Way(a: real, b: real, t: real): real {
    Smooth(t) + a * (t * Square(1.0 - t)) - b * (Square(t) * (1.0 - t))
  }

  function Smooth(t: real): real { 3.0 * Square(t) - 2.0 * Cube(t) }

  /** Along the way both coordinates are known. */
  lemma BezierIsWay(p: real, c: real, d: real, q: real, a: real, b: real, t: real)
    requires c == p + (q - p) * a / 3.0 && d == q - (q - p) * b / 3.0
    ensures Bezier(p, c, d, q, t) == p + Rise(q - p, Way(a, b, t))
  {
    var w := q - p;
    var f, g, h, k := Cube(1.0 - t), Square(1.0 - t) * t, (1.0 - t) * Square(t), Cube(t);
    Partition(t);
    assert 3.0 * g * c == 3.0 * g * p + w * (a * g) by { ThirdOf(g, p, w, a); }
    assert 3.0 * h * d == 3.0 * h * q - w * (b * h) by { ThirdOf(h, q, -w, b); }
    assert f * p + 3.0 * g * p + 3.0 * h * p + k * p == (f + 3.0 * g + 3.0 * h + k) * p;
    assert 3.0 * h * q + k * q == (3.0 * h + k) * p + (3.0 * h + k) * w;
    assert w * (3.0 * h + k + a * g - b * h) == (3.0 * h + k) * w + w * (a * g) - w * (b * h);
    hide Cube, Square;
    assert t * Square(1.0 - t) == g;
    assert Square(t) * (1.0 - t) == h;
  }

  lemma ThirdOf(g: real, p: real, w: real, a: real)
    ensures 3.0 * g * (p + w * a / 3.0) == 3.0 * g * p + w * (a * g)
  {
    assert w * (a * g) == (w * a) * g;
  }

  lemma Partition(t: real)
    ensures Cube(1.0 - t) + 3.0 * (Square(1.0 - t) * t) + 3.0 * ((1.0 - t) * Square(t)) + Cube(t) == 1.0
    ensures 3.0 * ((1.0 - t) * Square(t)) + Cube(t) == Smooth(t)
  {
  }

  lemma CubeRises(u: real, v: real)
    requires u <= v
    ensures Cube(u) <= Cube(v)
  {
    var q := u * u + u * v + v * v;
    assert v * v * v - u * u * u == (v - u) * q;
    assert q >= 0.0 by { SumOfSquares(u, v); }
    Times(0.0, q, v - u);
  }

  lemma SumOfSquares(u: real, v: real)
    ensures u * u + u * v + v * v >= 0.0
  {
    assert 4.0 * (u * u + u * v + v * v) == (2.0 * u + v) * (2.0 * u + v) + 3.0 * (v * v);
    SquareNotNegative(2.0 * u + v);
    SquareNotNegative(v);
  }

  lemma SquareNotNegative(x: real)
    ensures x * x >= 0.0
  {
  }

  /** The mean slope of `Smooth` between two parameters. */
  function Steepness(u: real, v: real): real { 3.0 * (u + v) - 2.0 * (u * u + u * v + v * v) }

  lemma SmoothRises(u: real, v: real)
    requires 0.0 <= u <= v <= 1.0
    ensures Smooth(u) <= Smooth(v)
  {
    assert Smooth(v) - Smooth(u) == (v - u) * Steepness(u, v);
    Steep(u, v);
    hide Steepness, Smooth;
    Times(0.0, Steepness(u, v), v - u);
  }

  lemma Steep(u: real, v: real)
    requires 0.0 <= u <= 1.0 && 0.0 <= v <= 1.0
    ensures Steepness(u, v) >= 0.0
  {
    UnitSquare(u);
    UnitSquare(v);
    TwiceProduct(u, v);
    Enough(u, v, u * u, u * v, v * v);
  }

  lemma UnitSquare(u: real)
    requires 0.0 <= u <= 1.0
    ensures u * u <= u
  {
    Times(u, 1.0, u);
  }

  lemma TwiceProduct(u: real, v: real)
    ensures 2.0 * (u * v) <= u * u + v * v
  {
    SquareNotNegative(u - v);
    assert (u - v) * (u - v) == u * u - 2.0 * (u * v) + v * v;
  }

  lemma Enough(u: real, v: real, uu: real, uv: real, vv: real)
    requires uu <= u && vv <= v && 2.0 * uv <= uu + vv
    ensures 3.0 * (u + v) - 2.0 * (uu + uv + vv) >= 0.0
  {
  }

  // The four ways with tangents of 0 and of three times the slope.

  function Fast(t: real): real { 1.0 - Cube(1.0 - t) }

  function Both(t: real): real { 0.5 + 4.0 * Cube(t - 0.5) }

  /** Every way is a mean of three of the four. */
  lemma WayIsMean(a: real, b: real, t: real)
    ensures var x, y := a / 3.0, b / 3.0;
            && Way(a, b, t) == (1.0 - x - y) * Smooth(t) + x * Fast(t) + y * Cube(t)
            && Way(a, b, t) == (1.0 - y) * Fast(t) + (1.0 - x) * Cube(t) + (x + y - 1.0) * Both(t)
  {
    var x, y := a / 3.0, b / 3.0;
    FourWays(t);
    var f, g, s, k := t * Square(1.0 - t), Square(t) * (1.0 - t), Smooth(t), Cube(t);
    assert x * (s + 3.0 * f) == x * s + a * f;
    assert y * (s - 3.0 * g) == y * s - b * g;
    hide Smooth, Fast, Both, Cube, Square;
    assert x * Fast(t) == x * s + a * f;
    assert y * Cube(t) == y * s - b * g;
    assert (1.0 - x - y) * s == s - x * s - y * s;
    MeanOther(x, y, Fast(t), Cube(t), s, Both(t));
  }

  lemma FourWays(t: real)
    ensures Fast(t) == Smooth(t) + 3.0 * (t * Square(1.0 - t))
    ensures Cube(t) == Smooth(t) - 3.0 * (Square(t) * (1.0 - t))
    ensures Both(t) == Fast(t) + Cube(t) - Smooth(t)
  {
  }

  lemma MeanOther(x: real, y: real, p: real, r: real, s: real, b: real)
    requires b == p + r - s
    ensures (1.0 - x - y) * s + x * p + y * r == (1.0 - y) * p + (1.0 - x) * r + (x + y - 1.0) * b
  {
    assert (x + y - 1.0) * b == (x + y - 1.0) * p + (x + y - 1.0) * r - (x + y - 1.0) * s;
  }

  lemma MeanRises(x: real, y: real, z: real, p: real, q: real, r: real, p': real, q': real, r': real)
    requires x >= 0.0 && y >= 0.0 && z >= 0.0 && p <= p' && q <= q' && r <= r'
    ensures x * p + y * q + z * r <= x * p' + y * q' + z * r'
  {
    Times(p, p', x);
    Times(q, q', y);
    Times(r, r', z);
  }

  /** With tangents between 0 and three times the slope the way never goes back. */
  lemma WayRises(a: real, b: real, u: real, v: real)
    requires 0.0 <= a <= 3.0 && 0.0 <= b <= 3.0 && 0.0 <= u <= v <= 1.0
    ensures Way(a, b, u) <= Way(a, b, v)
  {
    hide Way, Smooth, Cube;
    var x, y := a / 3.0, b / 3.0;
    WayIsMean(a, b, u);
    WayIsMean(a, b, v);
    CubeRises(u, v);
    CubeRises(1.0 - v, 1.0 - u);
    CubeRises(u - 0.5, v - 0.5);
    SmoothRises(u, v);
    if x + y <= 1.0 {
      MeanRises(1.0 - x - y, x, y, Smooth(u), Fast(u), Cube(u), Smooth(v), Fast(v), Cube(v));
    } else {
      MeanRises(1.0 - y, 1.0 - x, x + y - 1.0, Fast(u), Cube(u), Both(u), Fast(v), Cube(v), Both(v));
    }
  }

  lemma WayEnds(a: real, b: real)
    ensures Way(a, b, 0.0) == 0.0 && Way(a, b, 1.0) == 1.0
  {
    assert Square(0.0) == 0.0 && Cube(0.0) == 0.0 && Square(1.0) == 1.0 && Cube(1.0) == 1.0;
    WayAt(a, b, 0.0);
    WayAt(a, b, 1.0);
  }

  lemma WayAt(a: real, b: real, t: real)
    requires t * Square(1.0 - t) == 0.0 && Square(t) * (1.0 - t) == 0.0
    ensures Way(a, b, t) == Smooth(t)
  {
    hide Square, Smooth;
    var f, g := t * Square(1.0 - t), Square(t) * (1.0 - t);
    assert Way(a, b, t) == Smooth(t) + a * f - b * g;
  }

  lemma RatioBound(a: real, b: real)
    requires a >= 0.0 && b >= 0.0 && Square(a) + Square(b) <= 9.0
    ensures a <= 3.0 && b <= 3.0
  {
    SquareNotNegative(a);
    SquareNotNegative(b);
    if a > 3.0 { Times(3.0, a, a); }
    if b > 3.0 { Times(3.0, b, b); }
  }

  /** The tangents of a settled segment as multiples of its rise. */
  lemma SettledRatios(points: seq<Model>, m: seq<real>, i: nat) returns (a: real, b: real)
    requires |m| == |points| && Pair(points, i) && Settled(Slope(points, i), m[i], m[i + 1])
    ensures 0.0 <= a <= 3.0 && 0.0 <= b <= 3.0
    ensures var w, rise := Third(points, i), points[i + 1].y - points[i].y;
            Rise(w, m[i]) == rise * a / 3.0 && Rise(w, m[i + 1]) == rise * b / 3.0
  {
    var d := Slope(points, i);
    if Flat(d) {
      a, b := 0.0, 0.0;
    } else {
      NotFlat(d);
      hide Flat;
      a, b := m[i] / d, m[i + 1] / d;
      RatioBound(a, b);
      var dx, rise := points[i + 1].x - points[i].x, points[i + 1].y - points[i].y;
      assert dx != 0.0 && d == rise / dx;
      RatioTimes(m[i], d, dx, rise);
      RatioTimes(m[i + 1], d, dx, rise);
    }
  }

  lemma RatioTimes(m: real, d: real, dx: real, rise: real)
    requires d != 0.0 && dx != 0.0 && d == rise / dx
    ensures Rise(dx / 3.0, m) == rise * (m / d) / 3.0
  {
    var r := m / d;
    assert d * dx == rise;
    assert r * d == m;
    assert dx * m == (d * dx) * r;
  }

  /** `z` is on the way from `p` to `q`, and `z'` is no nearer to `p`. */
  predicate InOrder(p: real, z: real, z': real, q: real) {
    if p <= q then p <= z <= z' <= q else p >= z >= z' >= q
  }

  lemma OnTheWay(p: real, q: real, f: real, g: real)
    requires 0.0 <= f <= g <= 1.0
    ensures InOrder(p, p + Rise(q - p, f), p + Rise(q - p, g), q)
  {
    hide Rise;
    if p <= q { Shares(q - p, f, g); } else { SharesDown(q - p, f, g); }
  }

  lemma SharesDown(w: real, f: real, g: real)
    requires w <= 0.0 && 0.0 <= f <= g <= 1.0
    ensures 0.0 >= Rise(w, f) >= Rise(w, g) >= w
  {
    Shares(-w, f, g);
    Opposite(w, f);
    Opposite(w, g);
    hide Rise;
  }

  lemma Opposite(w: real, f: real)
    ensures Rise(w, f) == -Rise(-w, f)
  {
  }

  lemma Shares(w: real, f: real, g: real)
    requires w >= 0.0 && 0.0 <= f <= g <= 1.0
    ensures 0.0 <= Rise(w, f) <= Rise(w, g) <= w
  {
    RiseGrows(w, 0.0, f);
    RiseGrows(w, f, g);
    RiseGrows(w, g, 1.0);
    assert Rise(w, 0.0) == 0.0 && Rise(w, 1.0) == w;
    hide Rise;
  }

  lemma RiseGrows(w: real, f: real, g: real)
    requires w >= 0.0 && f <= g
    ensures Rise(w, f) <= Rise(w, g)
  {
    Times(f, g, w);
  }

  /** The curve between two points. */
  function CurveY(points: seq<Model>, c: seq<Handles>, i: nat, t: real): real
    requires i + 1 < |points| == |c| && c[i].next.At? && c[i + 1].previous.At?
  {
    Bezier(points[i].y, c[i].next.y, c[i + 1].previous.y, points[i + 1].y, t)
  }

  function CurveX(points: seq<Model>, c: seq<Handles>, i: nat, t: real): real
    requires i + 1 < |points| == |c| && c[i].next.At? && c[i + 1].previous.At?
  {
    Bezier(points[i].x, c[i].next.x, c[i + 1].previous.x, points[i + 1].x, t)
  }

  lemma Evenly(t: real)
    ensures Way(1.0, 1.0, t) == t
  {
  }

  /** The curve runs evenly from left to right, and never turns back between the two values. */
  lemma DrawnMonotone(points: seq<Model>, m: seq<real>, c: seq<Handles>, i: nat, u: real, v: real)
    requires OnTangents(points, m, c) && Pair(points, i) && Settled(Slope(points, i), m[i], m[i + 1])
    requires 0.0 <= u <= v <= 1.0
    ensures InOrder(points[i].y, CurveY(points, c, i, u), CurveY(points, c, i, v), points[i + 1].y)
    ensures CurveX(points, c, i, u) == points[i].x + Rise(points[i + 1].x - points[i].x, u)
  {
    hide Slope, Settled, Way, CurveY, CurveX;
    var a, b := CurveIsWay(points, m, c, i);
    WayRises(a, b, 0.0, u);
    WayRises(a, b, u, v);
    WayRises(a, b, v, 1.0);
    WayEnds(a, b);
    var p, q := points[i].y, points[i + 1].y;
    OnTheWay(p, q, Way(a, b, u), Way(a, b, v));
    assert CurveY(points, c, i, u) == p + Rise(q - p, Way(a, b, u));
    assert CurveY(points, c, i, v) == p + Rise(q - p, Way(a, b, v));
  }

  lemma CurveIsWay(points: seq<Model>, m: seq<real>, c: seq<Handles>, i: nat) returns (a: real, b: real)
    requires OnTangents(points, m, c) && Pair(points, i) && Settled(Slope(points, i), m[i], m[i + 1])
    ensures 0.0 <= a <= 3.0 && 0.0 <= b <= 3.0 && c[i].next.At? && c[i + 1].previous.At?
    ensures forall t :: CurveY(points, c, i, t) == points[i].y + Rise(points[i + 1].y - points[i].y, Way(a, b, t))
    ensures forall t :: CurveX(points, c, i, t) == points[i].x + Rise(points[i + 1].x - points[i].x, t)
  {
    hide Slope, Settled, Bezier, Way, Rise;
    a, b := SettledRatios(points, m, i);
    var p, q, x, z := points[i].y, points[i + 1].y, points[i].x, points[i + 1].x;
    var h, k := c[i].next, c[i + 1].previous;
    assert h.y == p + (q - p) * a / 3.0 && k.y == q - (q - p) * b / 3.0;
    assert h.x == x + (z - x) * 1.0 / 3.0 && k.x == z - (z - x) * 1.0 / 3.0;
    forall t
      ensures Bezier(p, h.y, k.y, q, t) == p + Rise(q - p, Way(a, b, t))
      ensures Bezier(x, h.x, k.x, z, t) == x + Rise(z - x, t)
    {
      BezierIsWay(p, h.y, k.y, q, a, b, t);
      BezierIsWay(x, h.x, k.x, z, 1.0, 1.0, t);
      Evenly(t);
    }
  }

  /** The whole of splineCurveMonotone: the drawn curve is monotone between any two neighbouring points. */
  method SplineCurveMonotone(points: seq<Model>, sqrt: real -> real) returns (c: seq<Handles>)
    requires IsSqrt(sqrt)
    ensures |c| == |points|
    ensures forall i :: 0 <= i < |points| - 1 && Pair(points, i) ==> c[i].next.At? && c[i + 1].previous.At?
    ensures forall i, u, v :: 0 <= i < |points| - 1 && Pair(points, i) && 0.0 <= u <= v <= 1.0 ==>
              InOrder(points[i].y, CurveY(points, c, i, u), CurveY(points, c, i, v), points[i + 1].y)
    ensures forall m | NoneAdjusted(points, m) :: OnTangents(points, m, c)
  {
    hide Slope, Settled, CurveY, InOrder, NoneAdjusted;
    var m := Tangents(points, sqrt);
    c := ControlPoints(points, m);
    forall t | NoneAdjusted(points, t)
      ensures OnTangents(points, t, c)
    {
      NoneIsCalm(points, t, m);
    }
    forall i, u, v | 0 <= i < |points| - 1 && Pair(points, i) && 0.0 <= u <= v <= 1.0
      ensures InOrder(points[i].y, CurveY(points, c, i, u), CurveY(points, c, i, v), points[i + 1].y)
    {
      DrawnMonotone(points, m, c, i, u, v);
    }
  }
}
