/** The time scale of template/js/Chart.js: the lookup table, its binary search and the interpolation. */
module Lookup {
  datatype Item = Item(time: real, pos: real)

  datatype Key = Time | Pos

  function At(item: Item, key: Key): real { if key.Time? then item.time else item.pos }

  datatype MaybeItem = None | Some(item: Item)

  ghost predicate Sorted(table: seq<Item>, key: Key) {
    forall i, j :: 0 <= i < j < |table| ==> At(table[i], key) < At(table[j], key)
  }

  /** Items `j` and `j + 1` enclose the value, or are the first two or the last two, beyond which it lies. */
  predicate Encloses(table: seq<Item>, key: Key, value: real, j: nat) {
    && j + 1 < |table|
    && (j == 0 || At(table[j], key) <= value)
    && (j == |table| - 2 || value <= At(table[j + 1], key))
  }

  /** The two items that interpolate takes for an answer of lookup. */
  predicate Chosen(table: seq<Item>, lo: MaybeItem, hi: MaybeItem, j: nat) {
    && j + 1 < |table|
    && if lo.None? then j == 0
       else if hi.None? then j == |table| - 2
       else lo.item == table[j] && hi.item == table[j + 1]
  }

  /** lookup. */
  method Find(table: seq<Item>, key: Key, value: real) returns (lo: MaybeItem, hi: MaybeItem, ghost j: nat)
    requires |table| >= 2 && Sorted(table, key)
    ensures Chosen(table, lo, hi, j) && Encloses(table, key, value, j)
    ensures lo.Some? && hi.Some? ==> At(lo.item, key) <= value <= At(hi.item, key)
    ensures hi.None? ==> lo.Some? && value > At(table[|table| - 1], key)
  {
    var l, h := 0, |table| - 1;
    var i1 := None;
    while l >= 0 && l <= h
      invariant 0 <= l && h < |table| && l <= h + 1 && (l > h ==> l == |table| && i1.Some?)
      invariant l > 0 ==> At(table[l - 1], key) < value
      invariant h < |table| - 1 ==> h >= 0 && value < At(table[h], key)
      decreases h - l
    {
      var mid := (l + h) / 2;
      var i0 := if mid > 0 then Some(table[mid - 1]) else None;
      i1 := Some(table[mid]);
      if i0.None? {
        return None, i1, 0;
      } else if At(i1.item, key) < value {
        l := mid + 1;
      } else if At(i0.item, key) > value {
        h := mid - 1;
      } else {
        return i0, i1, mid - 1;
      }
    }
    return i1, None, |table| - 2;
  }

  function Ratio(x: real, a: real, b: real): real { if b - a != 0.0 then (x - a) / (b - a) else 0.0 }

  function Between(p: real, q: real, ratio: real): real { p + (q - p) * ratio }

  /** The line through items `j` and `j + 1`. */
  function Line(table: seq<Item>, skey: Key, sval: real, tkey: Key, j: nat): real
    requires j + 1 < |table|
  {
    var prev, next := table[j], table[j + 1];
    Between(At(prev, tkey), At(next, tkey), Ratio(sval, At(prev, skey), At(next, skey)))
  }

  /** interpolate, through the items `j` and `j + 1`. */
  method Interpolate(table: seq<Item>, skey: Key, sval: real, tkey: Key) returns (r: real, ghost j: nat)
    requires |table| >= 2 && Sorted(table, skey)
    ensures Encloses(table, skey, sval, j) && r == Line(table, skey, sval, tkey, j)
  {
    hide Sorted, Encloses;
    var lo, hi;
    lo, hi, j := Find(table, skey, sval);
    var prev := if lo.None? then table[0] else if hi.None? then table[|table| - 2] else lo.item;
    var next := if lo.None? then table[1] else if hi.None? then table[|table| - 1] else hi.item;
    assert prev == table[j] && next == table[j + 1];
    var span := At(next, skey) - At(prev, skey);
    var ratio := if span != 0.0 then (sval - At(prev, skey)) / span else 0.0;
    assert ratio == Ratio(sval, At(prev, skey), At(next, skey));
    hide Ratio, At;
    var p, q := At(prev, tkey), At(next, tkey);
    var offset := (q - p) * ratio;
    r := p + offset;
    BetweenIs(p, q, ratio);
  }

  lemma BetweenIs(p: real, q: real, ratio: real)
    ensures p + (q - p) * ratio == Between(p, q, ratio)
  {
  }

  // ----- the value does not depend on the items chosen

  lemma LineAtStart(table: seq<Item>, skey: Key, tkey: Key, j: nat)
    requires j + 1 < |table|
    ensures Line(table, skey, At(table[j], skey), tkey, j) == At(table[j], tkey)
  {
  }

  lemma LineAtEnd(table: seq<Item>, skey: Key, tkey: Key, j: nat)
    requires j + 1 < |table| && At(table[j], skey) != At(table[j + 1], skey)
    ensures Line(table, skey, At(table[j + 1], skey), tkey, j) == At(table[j + 1], tkey)
  {
  }

  /** Two choices agree: where both enclose the value, it is the item between them. */
  lemma OneValue(table: seq<Item>, skey: Key, sval: real, tkey: Key, j: nat, k: nat)
    requires Sorted(table, skey) && Encloses(table, skey, sval, j) && Encloses(table, skey, sval, k)
    ensures Line(table, skey, sval, tkey, j) == Line(table, skey, sval, tkey, k)
  {
    hide Line;
    if j < k {
      Neighbours(table, skey, sval, tkey, j, k);
    } else if k < j {
      Neighbours(table, skey, sval, tkey, k, j);
    }
  }

  lemma SortedAt(table: seq<Item>, key: Key, j: nat, k: nat)
    requires Sorted(table, key) && j <= k < |table|
    ensures At(table[j], key) <= At(table[k], key) && (j < k ==> At(table[j], key) < At(table[k], key))
  {
  }

  lemma Neighbours(table: seq<Item>, skey: Key, sval: real, tkey: Key, j: nat, k: nat)
    requires Sorted(table, skey) && Encloses(table, skey, sval, j) && Encloses(table, skey, sval, k) && j < k
    ensures Line(table, skey, sval, tkey, j) == Line(table, skey, sval, tkey, k)
  {
    hide Line;
    assert At(table[j], skey) < At(table[j + 1], skey) && sval <= At(table[j + 1], skey) && At(table[k], skey) <= sval;
    SortedAt(table, skey, j + 1, k);
    LineAtEnd(table, skey, tkey, j);
    LineAtStart(table, skey, tkey, k);
  }

  // ----- there and back

  lemma RatioBounds(x: real, a: real, b: real)
    requires a < b
    ensures x >= a ==> Ratio(x, a, b) >= 0.0
    ensures x <= b ==> Ratio(x, a, b) <= 1.0
    ensures Between(a, b, Ratio(x, a, b)) == x
  {
    var d, y := b - a, x - a;
    assert (y / d) * d == y;
    if x <= b { assert y / d <= d / d; }
  }

  lemma BetweenBounds(p: real, q: real, r: real)
    requires p < q
    ensures r >= 0.0 ==> Between(p, q, r) >= p
    ensures r <= 1.0 ==> Between(p, q, r) <= q
    ensures Ratio(Between(p, q, r), p, q) == r
  {
    var d := q - p;
    if r >= 0.0 { assert d * r >= 0.0; }
    if r <= 1.0 { assert d * (1.0 - r) >= 0.0; }
    assert (d * r) / d == r;
  }

  lemma Back(x: real, a: real, b: real, p: real, q: real, y: real)
    requires a < b && p < q && y == Between(p, q, Ratio(x, a, b))
    ensures Between(a, b, Ratio(y, p, q)) == x
    ensures (x >= a ==> y >= p) && (x <= b ==> y <= q)
  {
    hide Between, Ratio;
    RatioBounds(x, a, b);
    BetweenBounds(p, q, Ratio(x, a, b));
  }

  /** The line through the same two items, the other way. */
  lemma SameItems(table: seq<Item>, skey: Key, tkey: Key, x: real, j: nat)
    requires Encloses(table, skey, x, j)
    requires At(table[j], skey) < At(table[j + 1], skey) && At(table[j], tkey) < At(table[j + 1], tkey)
    ensures var y := Line(table, skey, x, tkey, j); Encloses(table, tkey, y, j) && Line(table, tkey, y, skey, j) == x
  {
    hide Between, Ratio;
    Back(x, At(table[j], skey), At(table[j + 1], skey), At(table[j], tkey), At(table[j + 1], tkey),
         Line(table, skey, x, tkey, j));
  }

  /** Time to position and back is the identity, and so is position to time and back. */
  lemma RoundTrip(table: seq<Item>, skey: Key, tkey: Key, x: real, j: nat, k: nat)
    requires Sorted(table, skey) && Sorted(table, tkey) && Encloses(table, skey, x, j)
    requires Encloses(table, tkey, Line(table, skey, x, tkey, j), k)
    ensures Line(table, tkey, Line(table, skey, x, tkey, j), skey, k) == x
  {
    hide Line;
    SortedAt(table, skey, j, j + 1);
    SortedAt(table, tkey, j, j + 1);
    SameItems(table, skey, tkey, x, j);
    OneValue(table, tkey, Line(table, skey, x, tkey, j), skey, k, j);
  }

  // ----- the table

  /** min, the timestamps strictly between, and max. */
  function Inner(timestamps: seq<int>, min: int, max: int): seq<int> {
    if timestamps == [] then []
    else
      var t := timestamps[|timestamps| - 1];
      Inner(timestamps[..|timestamps| - 1], min, max) + if t > min && t < max then [t] else []
  }

  function Items(timestamps: seq<int>, min: int, max: int): seq<int> { [min] + Inner(timestamps, min, max) + [max] }

  /** Math.round((next + prev) / 2). */
  function RoundedMiddle(prev: int, next: int): int { (prev + next + 1) / 2 }

  /** Points that break the linearity. */
  predicate Keeps(items: seq<int>, i: nat) {
    i < |items| && (i == 0 || i == |items| - 1 || RoundedMiddle(items[i - 1], items[i + 1]) != items[i])
  }

  function Row(items: seq<int>, i: nat): Item
    requires i < |items| && |items| >= 2
  {
    Item(items[i] as real, i as real / (|items| - 1) as real)
  }

  function Kept(items: seq<int>, n: nat): (ks: seq<nat>)
    ensures forall j :: 0 <= j < |ks| ==> Keeps(items, ks[j]) && ks[j] < n
    ensures forall i, j :: 0 <= i < j < |ks| ==> ks[i] < ks[j]
  {
    if n == 0 then [] else Kept(items, n - 1) + if Keeps(items, n - 1) then [n - 1] else []
  }

  function Rows(items: seq<int>, ks: seq<nat>): (rows: seq<Item>)
    requires |items| >= 2 && forall j :: 0 <= j < |ks| ==> ks[j] < |items|
    ensures |rows| == |ks| && forall j :: 0 <= j < |ks| ==> rows[j] == Row(items, ks[j])
  {
    if ks == [] then [] else Rows(items, ks[..|ks| - 1]) + [Row(items, ks[|ks| - 1])]
  }

  /** buildLookupTable. */
  method BuildTable(timestamps: seq<int>, min: int, max: int, linear: bool) returns (table: seq<Item>)
    ensures linear || timestamps == [] ==> table == [Item(min as real, 0.0), Item(max as real, 1.0)]
    ensures !linear && timestamps != [] ==> table == TableOf(Items(timestamps, min, max))
    ensures !linear && timestamps != [] ==>
              exists ins :: Selected(timestamps, min, max, ins) && table == TableOf([min] + ins + [max])
    ensures forall a, b | !linear && timestamps != [] && Rising(timestamps) && min < max
                          && Inside(timestamps, min, max, a, b) :: EvenlyFound(table, timestamps, min, max, a, b)
  {
    hide Inner, TableOf, Selected, EvenlyFound, Rising;
    if linear || timestamps == [] {
      return [Item(min as real, 0.0), Item(max as real, 1.0)];
    }
    var items := [min];
    assert timestamps[..0] == [] && Inner([], min, max) == [] by { NoInner(min, max); }
    for i := 0 to |timestamps|
      invariant items == [min] + Inner(timestamps[..i], min, max)
    {
      InnerSnoc(timestamps, i, min, max);
      var curr := timestamps[i];
      if curr > min && curr < max {
        items := items + [curr];
      }
    }
    items := items + [max];
    assert timestamps[..|timestamps|] == timestamps;
    table := Table(items);
    InnerSelects(timestamps, min, max);
    forall a, b | Rising(timestamps) && min < max && Inside(timestamps, min, max, a, b)
      ensures EvenlyFound(table, timestamps, min, max, a, b)
    {
      FoundEvenly(timestamps, min, max, a, b);
    }
  }

  /** `ins` are the timestamps strictly between min and max, in their order and each as often as it occurs. */
  ghost predicate Selected(timestamps: seq<int>, min: int, max: int, ins: seq<int>) {
    exists ps: seq<nat> :: Picks(timestamps, min, max, ins, ps)
  }

  ghost predicate Picks(timestamps: seq<int>, min: int, max: int, ins: seq<int>, ps: seq<nat>) {
    && |ps| == |ins| && (forall j, k :: 0 <= j < k < |ps| ==> ps[j] < ps[k])
    && (forall k :: 0 <= k < |ps| ==> ps[k] < |timestamps| && ins[k] == timestamps[ps[k]] && min < ins[k] < max)
    && (forall i :: 0 <= i < |timestamps| && min < timestamps[i] < max ==> exists k :: 0 <= k < |ps| && ps[k] == i)
  }

  lemma {:induction false} InnerSelects(timestamps: seq<int>, min: int, max: int)
    ensures Selected(timestamps, min, max, Inner(timestamps, min, max))
  {
    hide Picks;
    if timestamps == [] {
      assert Picks([], min, max, [], []) by { NothingPicked(min, max); }
    } else {
      var n := |timestamps| - 1;
      InnerSelects(timestamps[..n], min, max);
      var ps: seq<nat> :| Picks(timestamps[..n], min, max, Inner(timestamps[..n], min, max), ps);
      PickOne(timestamps, min, max, Inner(timestamps[..n], min, max), ps);
      assert Inner(timestamps[..n], min, max) + [] == Inner(timestamps[..n], min, max);
    }
  }

  lemma NothingPicked(min: int, max: int)
    ensures Picks([], min, max, [], [])
  {
  }

  lemma PickOne(timestamps: seq<int>, min: int, max: int, ins: seq<int>, ps: seq<nat>)
    requires timestamps != [] && Picks(timestamps[..|timestamps| - 1], min, max, ins, ps)
    ensures var n := |timestamps| - 1;
            if min < timestamps[n] < max then Picks(timestamps, min, max, ins + [timestamps[n]], ps + [n])
            else Picks(timestamps, min, max, ins, ps)
  {
    var n := |timestamps| - 1;
    var qs := if min < timestamps[n] < max then ps + [n] else ps;
    forall i | 0 <= i < |timestamps| && min < timestamps[i] < max
      ensures exists k :: 0 <= k < |qs| && qs[k] == i
    {
      if i == n {
        assert qs[|ps|] == n;
      } else {
        assert timestamps[..n][i] == timestamps[i];
        var k :| 0 <= k < |ps| && ps[k] == i;
        assert qs[k] == i;
      }
    }
  }

  /** From `a` to `b` the timestamps lie strictly between min and max, before that not above min, and from there on not
      below max. */
  ghost predicate Inside(timestamps: seq<int>, min: int, max: int, a: nat, b: nat) {
    && a <= b <= |timestamps|
    && (forall i :: 0 <= i < a ==> timestamps[i] <= min)
    && (forall i :: a <= i < b ==> min < timestamps[i] < max)
    && (forall i :: b <= i < |timestamps| ==> timestamps[i] >= max)
  }

  /** Whatever items of the table enclose the time `t`, they give it the position `pos`. */
  ghost predicate FoundAt(table: seq<Item>, t: real, pos: real) {
    forall j: nat :: Encloses(table, Time, t, j) ==> Line(table, Time, t, Pos, j) == pos
  }

  /** The m timestamps between min and max are found at 1 / (m + 1), 2 / (m + 1), ..., if and only if none of them is
      half a step before the middle of its neighbours, min and max included. */
  ghost predicate EvenlyFound(table: seq<Item>, timestamps: seq<int>, min: int, max: int, a: nat, b: nat)
    requires a <= b <= |timestamps|
  {
    (forall k :: a <= k < b ==>
       FoundAt(table, timestamps[k] as real, (k - a + 1) as real / (b - a + 1) as real))
    <==> NoHalves([min] + timestamps[a..b] + [max])
  }

  lemma {:induction false} InnerIsSlice(timestamps: seq<int>, min: int, max: int, a: nat, b: nat)
    requires Inside(timestamps, min, max, a, b) && min < max
    ensures Inner(timestamps, min, max) == timestamps[a..b]
    decreases |timestamps|
  {
    if timestamps != [] {
      var n := |timestamps| - 1;
      var c, d := if a <= n then a else n, if b <= n then b else n;
      InsideBefore(timestamps, min, max, a, b);
      hide Inside;
      InnerIsSlice(timestamps[..n], min, max, c, d);
      assert timestamps[a..b] == timestamps[..n][c..d] + if b > n && a <= n then [timestamps[n]] else [];
    }
  }

  lemma InsideBefore(timestamps: seq<int>, min: int, max: int, a: nat, b: nat)
    requires timestamps != [] && Inside(timestamps, min, max, a, b) && min < max
    ensures var n := |timestamps| - 1;
            && a <= b <= n + 1 && Inside(timestamps[..n], min, max, if a <= n then a else n, if b <= n then b else n)
            && (min < timestamps[n] < max <==> a <= n < b)
  {
  }

  /** There are such bounds when the timestamps rise. */
  lemma {:induction false} InsideExists(timestamps: seq<int>, min: int, max: int) returns (a: nat, b: nat)
    requires Rising(timestamps) && min < max
    ensures Inside(timestamps, min, max, a, b)
  {
    if timestamps == [] {
      a, b := 0, 0;
    } else {
      var n := |timestamps| - 1;
      a, b := InsideExists(timestamps[..n], min, max);
      assert forall i :: 0 <= i < n ==> timestamps[..n][i] == timestamps[i];
      if timestamps[n] <= min {
        a, b := n + 1, n + 1;
      } else if timestamps[n] < max {
        b := n + 1;
      }
    }
  }

  lemma FoundEvenly(timestamps: seq<int>, min: int, max: int, a: nat, b: nat)
    requires Rising(timestamps) && min < max && Inside(timestamps, min, max, a, b)
    ensures EvenlyFound(TableOf(Items(timestamps, min, max)), timestamps, min, max, a, b)
  {
    hide TableOf, FoundAt, Rising, NoHalves;
    var items := Items(timestamps, min, max);
    ItemsRise(timestamps, min, max);
    InnerIsSlice(timestamps, min, max, a, b);
    assert items == [min] + timestamps[a..b] + [max];
    ExactInside(items);
    forall k | a <= k < b
      ensures ExactAt(items, k - a + 1)
              <==> FoundAt(TableOf(items), timestamps[k] as real, (k - a + 1) as real / (b - a + 1) as real)
    {
      assert items[k - a + 1] == timestamps[k];
      ExactIsFound(items, k - a + 1);
    }
    if forall k :: a <= k < b ==>
         FoundAt(TableOf(items), timestamps[k] as real, (k - a + 1) as real / (b - a + 1) as real)
    {
      forall i: nat | 0 < i < |items| - 1
        ensures ExactAt(items, i)
      {
        assert timestamps[a + i - 1] == items[i];
      }
    }
  }

  lemma ExactIsFound(items: seq<int>, i: nat)
    requires |items| >= 2 && i < |items|
    ensures ExactAt(items, i) <==> FoundAt(TableOf(items), items[i] as real, i as real / (|items| - 1) as real)
  {
    hide TableOf;
  }

  /** The items between the first and the last are all exact if and only if there are no halves. */
  lemma ExactInside(items: seq<int>)
    requires |items| >= 2 && Rising(items)
    ensures (forall i: nat :: 0 < i < |items| - 1 ==> ExactAt(items, i)) <==> NoHalves(items)
  {
    hide ExactAt, Rising;
    if NoHalves(items) {
      ExactIff(items);
    } else {
      var i :| 0 < i < |items| - 1 && items[i - 1] + items[i + 1] == 2 * items[i] - 1;
      HalfIsOff(items, i);
    }
  }

  lemma NoInner(min: int, max: int)
    ensures Inner([], min, max) == []
  {
  }

  lemma InnerSnoc(timestamps: seq<int>, i: nat, min: int, max: int)
    requires i < |timestamps|
    ensures Inner(timestamps[..i + 1], min, max)
         == Inner(timestamps[..i], min, max)
            + if timestamps[i] > min && timestamps[i] < max then [timestamps[i]] else []
  {
    assert timestamps[..i + 1][..i] == timestamps[..i];
  }

  /** The table of a series. */
  function TableOf(items: seq<int>): seq<Item>
    requires |items| >= 2
  {
    Rows(items, Kept(items, |items|))
  }

  /** The second loop of buildLookupTable. */
  method Table(items: seq<int>) returns (table: seq<Item>)
    requires |items| >= 2
    ensures table == TableOf(items)
  {
    hide Keeps, RoundedMiddle, Row, Rows;
    table := [];
    assert Rows(items, []) == [] by { NoRows(items); }
    for i := 0 to |items|
      invariant table == Rows(items, Kept(items, i))
    {
      KeepsIs(items, i);
      if i == 0 || i == |items| - 1 || RoundedMiddle(items[i - 1], items[i + 1]) != items[i] {
        RowsSnoc(items, Kept(items, i), i);
        table := table + [Row(items, i)];
      }
    }
  }

  lemma NoRows(items: seq<int>)
    requires |items| >= 2
    ensures Rows(items, []) == []
  {
  }

  lemma KeepsIs(items: seq<int>, i: nat)
    requires i < |items|
    ensures Keeps(items, i) <==> i == 0 || i == |items| - 1 || RoundedMiddle(items[i - 1], items[i + 1]) != items[i]
  {
  }

  lemma RowsSnoc(items: seq<int>, ks: seq<nat>, i: nat)
    requires |items| >= 2 && i < |items| && forall j :: 0 <= j < |ks| ==> ks[j] < |items|
    ensures Rows(items, ks + [i]) == Rows(items, ks) + [Row(items, i)]
  {
    assert (ks + [i])[..|ks|] == ks;
  }

  // ----- every item keeps its position

  ghost predicate Rising(items: seq<int>) { forall i, j :: 0 <= i < j < |items| ==> items[i] < items[j] }

  /** No item is half a step before the middle of its neighbours, where rounding would take it for the middle. */
  ghost predicate NoHalves(items: seq<int>) {
    forall i :: 0 < i < |items| - 1 ==> items[i - 1] + items[i + 1] != 2 * items[i] - 1
  }

  /** `a` and `b` are kept and nothing between them is. */
  ghost predicate Adjacent(items: seq<int>, a: nat, b: nat) {
    a < b < |items| && Keeps(items, a) && Keeps(items, b) && forall i :: a < i < b ==> !Keeps(items, i)
  }

  lemma {:induction false} KeptAdjacent(items: seq<int>, n: nat, j: nat)
    requires n <= |items| && j + 1 < |Kept(items, n)|
    ensures Adjacent(items, Kept(items, n)[j], Kept(items, n)[j + 1])
  {
    hide Keeps;
    if j + 1 < |Kept(items, n - 1)| {
      KeptAdjacent(items, n - 1, j);
    } else {
      LastKept(items, n - 1);
    }
  }

  lemma {:induction false} LastKept(items: seq<int>, n: nat)
    requires n <= |items|
    ensures var ks := Kept(items, n);
            forall i :: (if ks == [] then 0 else ks[|ks| - 1] + 1) <= i < n ==> !Keeps(items, i)
  {
    hide Keeps;
    if n > 0 { LastKept(items, n - 1); }
  }

  lemma {:induction false} KeptEnds(items: seq<int>, n: nat)
    requires |items| >= 2 && 1 <= n <= |items|
    ensures var ks := Kept(items, n); ks != [] && ks[0] == 0 && (n == |items| ==> |ks| >= 2 && ks[|ks| - 1] == n - 1)
  {
    if n > 1 { KeptEnds(items, n - 1); } else { assert Kept(items, 0) == []; }
  }

  /** Dropped items rise by steps that never grow. */
  lemma Dropped(items: seq<int>, i: nat)
    requires 0 < i < |items| - 1 && !Keeps(items, i)
    ensures var before, after := items[i] - items[i - 1], items[i + 1] - items[i];
            after == before || (after == before - 1 && items[i - 1] + items[i + 1] == 2 * items[i] - 1)
  {
  }

  lemma HalfNowhere(items: seq<int>, i: nat)
    requires NoHalves(items) && 0 < i < |items| - 1
    ensures items[i - 1] + items[i + 1] != 2 * items[i] - 1
  {
  }

  lemma OneMore(k: int, d: int)
    ensures k * d == (k - 1) * d + d && 0 * d == 0 && 1 * d == d
  {
  }

  lemma {:induction false} EvenSteps(items: seq<int>, a: nat, b: nat, i: nat)
    requires NoHalves(items) && Adjacent(items, a, b) && a <= i <= b
    ensures items[i] == items[a] + (i - a) * (items[a + 1] - items[a])
    ensures a < i ==> items[i] - items[i - 1] == items[a + 1] - items[a]
  {
    hide NoHalves;
    var d := items[a + 1] - items[a];
    OneMore(i - a, d);
    if i > a + 1 {
      EvenSteps(items, a, b, i - 1);
      Dropped(items, i - 1);
      HalfNowhere(items, i - 1);
    } else if i == a {
      assert 0 * d == 0;
    }
  }

  lemma {:induction false} RisesAtLeast(items: seq<int>, a: nat, b: nat, i: nat, k: nat)
    requires Adjacent(items, a, b) && a <= k < i < b
    ensures items[i] - items[i - 1] <= items[k + 1] - items[k]
    ensures items[i] - items[k] >= (i - k) * (items[i] - items[i - 1])
    decreases i - k
  {
    if k < i - 1 {
      RisesAtLeast(items, a, b, i, k + 1);
      Dropped(items, k + 1);
      assert (i - k) * (items[i] - items[i - 1]) == (i - k - 1) * (items[i] - items[i - 1]) + (items[i] - items[i - 1]);
    }
  }

  lemma {:induction false} RisesAtMost(items: seq<int>, a: nat, b: nat, i: nat, k: nat)
    requires Adjacent(items, a, b) && a < i < k <= b
    ensures items[k] - items[k - 1] <= items[i + 1] - items[i]
    ensures items[k] - items[i] <= (k - i) * (items[i + 1] - items[i])
    decreases k - i
  {
    if i + 1 < k {
      RisesAtMost(items, a, b, i, k - 1);
      Dropped(items, k - 1);
      assert (k - i) * (items[i + 1] - items[i]) == (k - 1 - i) * (items[i + 1] - items[i]) + (items[i + 1] - items[i]);
    }
  }

  /** Half a step makes an item lie off the line. */
  lemma OffTheLine(items: seq<int>, a: nat, b: nat, i: nat)
    requires Adjacent(items, a, b) && a < i < b && items[i - 1] + items[i + 1] == 2 * items[i] - 1
    ensures (items[i] - items[a]) * (b - i) > (i - a) * (items[b] - items[i])
  {
    var before, after := items[i] - items[i - 1], items[i + 1] - items[i];
    RisesAtLeast(items, a, b, i, a);
    RisesAtMost(items, a, b, i, b);
    Bigger(items[i] - items[a], items[b] - items[i], i - a, b - i, before, after);
  }

  lemma Bigger(x: int, y: int, m: nat, n: nat, before: int, after: int)
    requires x >= m * before && y <= n * after && m > 0 && n > 0 && before == after + 1
    ensures x * n > m * y
  {
    assert x * n >= (m * before) * n;
    assert m * y <= m * (n * after);
    assert (m * before) * n == m * (n * after) + m * n;
  }

  /** The position that the table gives to item `i`, when it lies between kept items `a` and `b`. */
  function PosBetween(items: seq<int>, a: nat, b: nat, i: nat): real
    requires a < b < |items| && i < |items| && items[a] < items[b]
  {
    var n := (|items| - 1) as real;
    Between(a as real / n, b as real / n, Ratio(items[i] as real, items[a] as real, items[b] as real))
  }

  lemma OnTheLineIff(items: seq<int>, a: nat, b: nat, i: nat)
    requires |items| >= 2 && a <= i <= b < |items| && a < b && items[a] < items[b]
    ensures PosBetween(items, a, b, i) == i as real / (|items| - 1) as real
       <==> (items[i] - items[a]) * (b - i) == (i - a) * (items[b] - items[i])
  {
    var n, x, y := (|items| - 1) as real, items[i] - items[a], items[b] - items[a];
    OnTheLine(n, a as real, b as real, i as real, x as real, y as real);
    CrossProducts(x, y, i - a, b - i);
    assert items[i] as real - items[a] as real == x as real && items[b] as real - items[a] as real == y as real;
  }

  lemma OnTheLine(n: real, a: real, b: real, i: real, x: real, y: real)
    requires n > 0.0 && y > 0.0 && a < b
    ensures a / n + (b / n - a / n) * (x / y) == i / n <==> (b - a) * x == (i - a) * y
  {
    var r := x / y;
    assert r * y == x;
    assert b / n - a / n == (b - a) / n && i / n - a / n == (i - a) / n;
    assert ((b - a) / n) * r == ((b - a) * r) / n;
    SameQuotient((b - a) * r, i - a, n);
    SameProduct((b - a) * r, i - a, y);
    assert ((b - a) * r) * y == (b - a) * x;
  }

  lemma SameQuotient(u: real, v: real, n: real)
    requires n > 0.0
    ensures u / n == v / n <==> u == v
  {
    assert (u / n) * n == u && (v / n) * n == v;
  }

  lemma SameProduct(u: real, v: real, y: real)
    requires y > 0.0
    ensures u * y == v * y <==> u == v
  {
    if u < v { assert (v - u) * y > 0.0; }
    if v < u { assert (u - v) * y > 0.0; }
  }

  lemma CrossProducts(x: int, y: int, m: int, n: int)
    ensures ((m + n) as real) * (x as real) == (m as real) * (y as real) <==> x * n == m * (y - x)
  {
    assert ((m + n) as real) * (x as real) == ((m + n) * x) as real && (m as real) * (y as real) == (m * y) as real;
    assert (m + n) * x == m * x + x * n && m * (y - x) == m * y - m * x;
  }

  lemma TimeRises(items: seq<int>, i: nat, j: nat)
    requires Rising(items) && i < j < |items|
    ensures items[i] as real < items[j] as real
  {
  }

  lemma PosRises(n: real, i: nat, j: nat)
    requires n > 0.0 && i < j
    ensures i as real / n < j as real / n
  {
    assert (i as real / n) * n == i as real && (j as real / n) * n == j as real;
  }

  /** The table suits the search in both directions. */
  lemma TableSorted(items: seq<int>)
    requires |items| >= 2 && Rising(items)
    ensures |TableOf(items)| >= 2 && Sorted(TableOf(items), Time) && Sorted(TableOf(items), Pos)
  {
    hide Kept, Rising, Rows, Sorted;
    KeptEnds(items, |items|);
    RowsSorted(items, Kept(items, |items|), Time);
    RowsSorted(items, Kept(items, |items|), Pos);
  }

  lemma RowsSorted(items: seq<int>, ks: seq<nat>, key: Key)
    requires |items| >= 2 && Rising(items) && forall j :: 0 <= j < |ks| ==> ks[j] < |items|
    requires forall i, j :: 0 <= i < j < |ks| ==> ks[i] < ks[j]
    ensures Sorted(Rows(items, ks), key)
  {
    hide Rising, Row, Rows, At;
    var t := Rows(items, ks);
    forall i, j | 0 <= i < j < |t|
      ensures At(t[i], key) < At(t[j], key)
    {
      RowsRise(items, ks[i], ks[j]);
    }
  }

  lemma RowsRise(items: seq<int>, a: nat, b: nat)
    requires Rising(items) && a < b < |items|
    ensures At(Row(items, a), Time) < At(Row(items, b), Time) && At(Row(items, a), Pos) < At(Row(items, b), Pos)
  {
    TimeRises(items, a, b);
    PosRises((|items| - 1) as real, a, b);
  }

  /** Among the kept items, those that enclose item `i` are those around it. */
  lemma EnclosesAround(items: seq<int>, i: nat, j: nat)
    requires |items| >= 2 && Rising(items) && i < |items|
    ensures var ks := Kept(items, |items|);
            Encloses(TableOf(items), Time, items[i] as real, j) <==> j + 1 < |ks| && ks[j] <= i <= ks[j + 1]
  {
    var ks, t := Kept(items, |items|), TableOf(items);
    hide Kept, Rising, Keeps;
    KeptEnds(items, |items|);
    if j + 1 < |ks| {
      Order(items, ks[j], i);
      Order(items, i, ks[j + 1]);
    }
  }

  lemma Order(items: seq<int>, i: nat, j: nat)
    requires Rising(items) && i < |items| && j < |items|
    ensures items[i] as real <= items[j] as real <==> i <= j
  {
  }

  lemma LineIsPosBetween(items: seq<int>, i: nat, j: nat)
    requires |items| >= 2 && Rising(items) && i < |items|
    requires var ks := Kept(items, |items|); j + 1 < |ks| && items[ks[j]] < items[ks[j + 1]]
    ensures var ks := Kept(items, |items|);
            Line(TableOf(items), Time, items[i] as real, Pos, j) == PosBetween(items, ks[j], ks[j + 1], i)
  {
    hide Kept, Rising, Keeps, Between, Ratio;
  }

  lemma {:induction false} Locate(ks: seq<nat>, i: nat) returns (j: nat)
    requires |ks| >= 2 && ks[0] <= i <= ks[|ks| - 1]
    ensures j + 1 < |ks| && ks[j] <= i <= ks[j + 1]
  {
    var m := |ks| - 2;
    if ks[m] <= i {
      j := m;
    } else {
      j := Locate(ks[..m + 1], i);
    }
  }

  /** An item between two neighbours of the table. */
  lemma PositionIff(items: seq<int>, i: nat, j: nat)
    requires |items| >= 2 && Rising(items) && i < |items| && Encloses(TableOf(items), Time, items[i] as real, j)
    ensures var ks := Kept(items, |items|);
            j + 1 < |ks| && Adjacent(items, ks[j], ks[j + 1]) && ks[j] <= i <= ks[j + 1]
            && (Line(TableOf(items), Time, items[i] as real, Pos, j) == i as real / (|items| - 1) as real
                <==> (items[i] - items[ks[j]]) * (ks[j + 1] - i) == (i - ks[j]) * (items[ks[j + 1]] - items[i]))
  {
    hide Kept, Keeps, Line, TableOf, PosBetween, Encloses;
    var ks := Kept(items, |items|);
    EnclosesAround(items, i, j);
    KeptAdjacent(items, |items|, j);
    LineIsPosBetween(items, i, j);
    OnTheLineIff(items, ks[j], ks[j + 1], i);
  }

  lemma OnEvenSteps(items: seq<int>, a: nat, b: nat, i: nat)
    requires NoHalves(items) && Adjacent(items, a, b) && a <= i <= b
    ensures (items[i] - items[a]) * (b - i) == (i - a) * (items[b] - items[i])
  {
    var d := items[a + 1] - items[a];
    EvenSteps(items, a, b, i);
    EvenSteps(items, a, b, b);
    EvenProducts(items[i] - items[a], items[b] - items[a], i - a, b - i, d);
  }

  lemma EvenProducts(x: int, y: int, m: int, n: int, d: int)
    requires x == m * d && y == (m + n) * d
    ensures x * n == m * (y - x)
  {
    assert y - x == n * d;
    assert (m * d) * n == m * (n * d);
  }

  lemma EnclosesBounds(table: seq<Item>, key: Key, value: real, j: nat)
    requires Encloses(table, key, value, j)
    ensures j + 1 < |table|
  {
  }

  lemma HalfIsDropped(items: seq<int>, i: nat)
    requires 0 < i < |items| - 1 && items[i - 1] + items[i + 1] == 2 * items[i] - 1
    ensures !Keeps(items, i)
  {
  }

  ghost predicate ExactAt(items: seq<int>, i: nat)
    requires |items| >= 2 && i < |items|
  {
    var table, t := TableOf(items), items[i] as real;
    forall j: nat :: Encloses(table, Time, t, j) ==> Line(table, Time, t, Pos, j) == i as real / (|items| - 1) as real
  }

  lemma HalfIsOff(items: seq<int>, i: nat)
    requires |items| >= 2 && Rising(items) && 0 < i < |items| - 1 && items[i - 1] + items[i + 1] == 2 * items[i] - 1
    ensures !ExactAt(items, i)
  {
    var ks := Kept(items, |items|);
    hide Kept, Line, TableOf, Encloses, Rising;
    KeptEnds(items, |items|);
    var j := Locate(ks, i);
    EnclosesAround(items, i, j);
    PositionIff(items, i, j);
    HalfIsDropped(items, i);
    OffTheLine(items, ks[j], ks[j + 1], i);
  }

  /** Three timestamps, the middle one half a step before the middle: it is dropped, and then found at two thirds of the
      axis instead of a half. */
  lemma HalfExample()
    ensures Rising([0, 2, 3]) && TableOf([0, 2, 3]) == [Item(0.0, 0.0), Item(3.0, 1.0)]
    ensures Encloses(TableOf([0, 2, 3]), Time, 2.0, 0) && Line(TableOf([0, 2, 3]), Time, 2.0, Pos, 0) == 2.0 / 3.0
    ensures !ExactAt([0, 2, 3], 1)
  {
    HalfKept();
    hide Kept, ExactAt, Keeps;
    var items, table := [0, 2, 3], [Item(0.0, 0.0), Item(3.0, 1.0)];
    assert Rows(items, [0, 2]) == table by { assert Row(items, 0) == table[0] && Row(items, 2) == table[1]; }
    HalfIsOff(items, 1);
  }

  lemma HalfKept()
    ensures Kept([0, 2, 3], 3) == [0, 2]
  {
    var items := [0, 2, 3];
    HalfIsDropped(items, 1);
    assert Kept(items, 0) == [] && Kept(items, 1) == [0] && Kept(items, 2) == [0];
  }

  lemma EvenIsOn(items: seq<int>, i: nat)
    requires |items| >= 2 && Rising(items) && NoHalves(items) && i < |items|
    ensures ExactAt(items, i)
  {
    hide Line, TableOf, Encloses, Rising, Adjacent, Kept, NoHalves;
    var table, t := TableOf(items), items[i] as real;
    forall j: nat | Encloses(table, Time, t, j)
      ensures j + 1 < |table| && Line(table, Time, t, Pos, j) == i as real / (|items| - 1) as real
    {
      EnclosesBounds(table, Time, t, j);
      PositionIff(items, i, j);
      var ks := Kept(items, |items|);
      OnEvenSteps(items, ks[j], ks[j + 1], i);
    }
  }

  /** Dropping the collinear points loses nothing, every item `i` still being found at exactly `i / (n - 1)`, if and
      only if no item is half a step before the middle of its neighbours. */
  lemma ExactIff(items: seq<int>)
    requires |items| >= 2 && Rising(items)
    ensures (forall i: nat :: i < |items| ==> ExactAt(items, i)) <==> NoHalves(items)
  {
    hide ExactAt, Rising;
    if NoHalves(items) {
      forall i: nat | i < |items|
        ensures ExactAt(items, i)
      {
        EvenIsOn(items, i);
      }
    } else {
      var i :| 0 < i < |items| - 1 && items[i - 1] + items[i + 1] == 2 * items[i] - 1;
      HalfIsOff(items, i);
    }
  }

  /** Even timestamps are always exact. */
  lemma EvenIsExact(items: seq<int>)
    requires |items| >= 2 && Rising(items) && forall i :: 0 <= i < |items| ==> items[i] % 2 == 0
    ensures forall i: nat :: i < |items| ==> ExactAt(items, i)
  {
    hide ExactAt, Rising;
    ExactIff(items);
    forall i | 0 < i < |items| - 1
      ensures items[i - 1] + items[i + 1] != 2 * items[i] - 1
    {
    }
  }

  /** The items of a scale rise when its timestamps do. */
  lemma {:induction false} InnerRises(timestamps: seq<int>, min: int, max: int)
    requires Rising(timestamps)
    ensures var r := Inner(timestamps, min, max);
            Rising(r) && (forall i :: 0 <= i < |r| ==> min < r[i] < max)
            && (forall i :: 0 <= i < |r| ==> r[i] <= timestamps[|timestamps| - 1])
  {
    if timestamps != [] {
      var m := |timestamps| - 1;
      InnerRises(timestamps[..m], min, max);
    }
  }

  lemma ItemsRise(timestamps: seq<int>, min: int, max: int)
    requires Rising(timestamps) && min < max
    ensures Rising(Items(timestamps, min, max)) && |Items(timestamps, min, max)| >= 2
  {
    InnerRises(timestamps, min, max);
  }
}
