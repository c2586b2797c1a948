/** stats_record run by any number of threads at once: every interleaving of its atomic steps. */
module Recording {
  import opened Histograms

  /** Where a call stands: before the test of the limit, the two fetch-and-adds, the two loads, inside the loop for the
      minimum, inside the loop for the maximum, returned. */
  datatype Pc = Enter | AddData | AddCount | LoadMin | LoadMax | SwapMin | SwapMax | Done

  /** A call with its locals. */
  datatype Call = Call(n: nat, pc: Pc, min: nat, max: nat)

  /** The shared histogram and all the calls. */
  datatype State = State(limit: nat, data: seq<nat>, count: nat, min: nat, max: nat, calls: seq<Call>)

  function Order(pc: Pc): nat {
    match pc
    case Enter => 0 case AddData => 1 case AddCount => 2 case LoadMin => 3 case LoadMax => 4 case SwapMin => 5
    case SwapMax => 6 case Done => 7
  }

  /** One atomic step of call `i`; a call that has returned takes none. */
  function Step(s: State, i: nat): State
    requires i < |s.calls| && |s.data| >= s.limit
  {
    var c := s.calls[i];
    match c.pc
    case Enter => Put(s, i, c.(pc := if c.n >= s.limit then Done else AddData))
    case AddData =>
      if c.n < s.limit then Put(s.(data := s.data[c.n := s.data[c.n] + 1]), i, c.(pc := AddCount)) else s
    case AddCount => Put(s.(count := s.count + 1), i, c.(pc := LoadMin))
    case LoadMin => Put(s, i, c.(pc := LoadMax, min := s.min))
    case LoadMax => Put(s, i, c.(pc := SwapMin, max := s.max))
    case SwapMin =>
      if c.n < c.min then Put(if s.min == c.min then s.(min := c.n) else s, i, c.(min := s.min))
      else Put(s, i, c.(pc := SwapMax))
    case SwapMax =>
      if c.n > c.max then Put(if s.max == c.max then s.(max := c.n) else s, i, c.(max := s.max))
      else Put(s, i, c.(pc := Done))
    case Done => s
  }

  function Put(s: State, i: nat, c: Call): State
    requires i < |s.calls|
  {
    s.(calls := s.calls[i := c])
  }

  // ----- the samples counted so far

  predicate Past(c: Call, limit: nat, stage: nat) { c.n < limit && Order(c.pc) >= stage }

  /** The arguments of the calls that have come as far as `stage`. */
  function Samples(calls: seq<Call>, limit: nat, stage: nat): seq<nat> {
    if calls == [] then []
    else
      var c := calls[|calls| - 1];
      Samples(calls[..|calls| - 1], limit, stage) + if Past(c, limit, stage) then [c.n] else []
  }

  /** What one call adds to the samples. */
  function Own(c: Call, limit: nat, stage: nat): seq<nat> { if Past(c, limit, stage) then [c.n] else [] }

  lemma SamplesSnoc(calls: seq<Call>, c: Call, limit: nat, stage: nat)
    ensures Samples(calls + [c], limit, stage) == Samples(calls, limit, stage) + Own(c, limit, stage)
  {
    assert (calls + [c])[..|calls|] == calls;
  }

  lemma {:induction false} SamplesChange(calls: seq<Call>, limit: nat, stage: nat, i: nat, c: Call, v: nat)
    requires i < |calls|
    ensures var was, now := Samples(calls, limit, stage), Samples(calls[i := c], limit, stage);
            multiset(now)[v] + multiset(Own(calls[i], limit, stage))[v]
                == multiset(was)[v] + multiset(Own(c, limit, stage))[v]
            && |now| + |Own(calls[i], limit, stage)| == |was| + |Own(c, limit, stage)|
  {
    hide Past, Own, Samples;
    var m := |calls| - 1;
    var init, last := calls[..m], calls[m];
    assert calls == init + [last];
    SamplesSnoc(init, last, limit, stage);
    if i == m {
      assert calls[i := c] == init + [c];
      SamplesSnoc(init, c, limit, stage);
    } else {
      SamplesChange(init, limit, stage, i, c, v);
      assert calls[i := c] == init[i := c] + [last];
      SamplesSnoc(init[i := c], last, limit, stage);
    }
  }

  /** A call that comes to `stage` adds its sample. */
  lemma SamplesUpdate(calls: seq<Call>, limit: nat, stage: nat, i: nat, c: Call)
    requires i < |calls| && c.n == calls[i].n && (Past(calls[i], limit, stage) ==> Past(c, limit, stage))
    ensures var was, now := Samples(calls, limit, stage), Samples(calls[i := c], limit, stage);
            var added := Past(c, limit, stage) && !Past(calls[i], limit, stage);
            (forall v :: multiset(now)[v] == multiset(was)[v] + if added && v == c.n then 1 else 0)
            && |now| == |was| + if added then 1 else 0
  {
    hide Past, Samples;
    SamplesChange(calls, limit, stage, i, c, c.n);
    forall v
      ensures multiset(Samples(calls[i := c], limit, stage))[v]
           == multiset(Samples(calls, limit, stage))[v]
              + if Past(c, limit, stage) && !Past(calls[i], limit, stage) && v == c.n then 1 else 0
    {
      SamplesChange(calls, limit, stage, i, c, v);
    }
  }

  lemma {:induction false} SamplesHave(calls: seq<Call>, limit: nat, stage: nat, i: nat)
    requires i < |calls| && Past(calls[i], limit, stage)
    ensures calls[i].n in multiset(Samples(calls, limit, stage))
  {
    hide Past;
    var m := |calls| - 1;
    if i < m { SamplesHave(calls[..m], limit, stage, i); }
  }

  lemma {:induction false} SamplesOf(calls: seq<Call>, limit: nat, stage: nat, v: nat) returns (i: nat)
    requires v in Samples(calls, limit, stage)
    ensures i < |calls| && calls[i].n == v && Past(calls[i], limit, stage)
  {
    hide Past;
    var m := |calls| - 1;
    if v in Samples(calls[..m], limit, stage) {
      i := SamplesOf(calls[..m], limit, stage, v);
    } else {
      i := m;
    }
  }

  // ----- the invariant

  /** What a call knows: its copy of the minimum is never below the shared one, and once past the loop its sample is
      not below the shared minimum either. */
  predicate Knows(c: Call, s: State) {
    && (c.n < s.limit || c.pc.Enter? || c.pc.Done?)
    && (c.pc.LoadMax? || c.pc.SwapMin? ==> s.min <= c.min)
    && (c.pc.SwapMin? || c.pc.SwapMax? ==> c.max <= s.max)
    && (c.pc.SwapMax? || (c.pc.Done? && c.n < s.limit) ==> s.min <= c.n)
    && (c.pc.Done? && c.n < s.limit ==> c.n <= s.max)
  }

  ghost predicate Inv(s: State) {
    && s.limit <= UINT64_MAX && |s.data| >= s.limit && s.min <= UINT64_MAX
    && (forall i :: 0 <= i < |s.calls| ==> Knows(s.calls[i], s))
    && (forall v :: 0 <= v < |s.data| ==> s.data[v] == multiset(Samples(s.calls, s.limit, 2))[v])
    && s.count == |Samples(s.calls, s.limit, 3)|
    && (s.min == UINT64_MAX || s.min in multiset(Samples(s.calls, s.limit, 3)))
    && (s.max == 0 || s.max in multiset(Samples(s.calls, s.limit, 3)))
  }

  lemma StepKnows(s: State, i: nat, j: nat)
    requires Inv(s) && i < |s.calls| && j < |s.calls|
    ensures Knows(Step(s, i).calls[j], Step(s, i))
  {
    hide Samples;
    assert Knows(s.calls[i], s) && Knows(s.calls[j], s);
  }

  /** No step raises the minimum or lowers the maximum. */
  lemma StepMonotone(s: State, i: nat)
    requires Inv(s) && i < |s.calls|
    ensures Step(s, i).min <= s.min && s.max <= Step(s, i).max
    ensures |Step(s, i).calls| == |s.calls| && forall j :: 0 <= j < |s.calls| ==> Step(s, i).calls[j].n == s.calls[j].n
  {
    hide Samples;
    assert Knows(s.calls[i], s);
  }

  lemma StepCounts(s: State, i: nat)
    requires Inv(s) && i < |s.calls|
    ensures var t := Step(s, i);
            forall v :: 0 <= v < |t.data| ==> t.data[v] == multiset(Samples(t.calls, t.limit, 2))[v]
    ensures Step(s, i).count == |Samples(Step(s, i).calls, s.limit, 3)|
  {
    hide Samples;
    assert Knows(s.calls[i], s);
    var c := Step(s, i).calls[i];
    SamplesUpdate(s.calls, s.limit, 2, i, c);
    SamplesUpdate(s.calls, s.limit, 3, i, c);
    assert s.calls[i := s.calls[i]] == s.calls;
  }

  lemma StepExtremes(s: State, i: nat)
    requires Inv(s) && i < |s.calls|
    ensures var t := Step(s, i);
            t.min <= UINT64_MAX && (t.min == UINT64_MAX || t.min in multiset(Samples(t.calls, t.limit, 3)))
    ensures var t := Step(s, i); t.max == 0 || t.max in multiset(Samples(t.calls, t.limit, 3))
  {
    hide Samples;
    assert Knows(s.calls[i], s);
    var c := Step(s, i).calls[i];
    SamplesUpdate(s.calls, s.limit, 3, i, c);
    if Past(s.calls[i], s.limit, 3) { SamplesHave(s.calls, s.limit, 3, i); }
    assert s.calls[i := s.calls[i]] == s.calls;
  }

  lemma StepInv(s: State, i: nat)
    requires Inv(s) && i < |s.calls|
    ensures Inv(Step(s, i))
  {
    hide Samples, Knows;
    StepCounts(s, i);
    StepExtremes(s, i);
    forall j | 0 <= j < |s.calls|
      ensures Knows(Step(s, i).calls[j], Step(s, i))
    {
      StepKnows(s, i, j);
    }
  }

  // ----- runs

  /** A new histogram and one call for each number. */
  function Start(limit: nat, ns: seq<nat>): State {
    State(limit, seq(2 * limit, i => 0), 0, UINT64_MAX, 0,
        seq(|ns|, i requires 0 <= i < |ns| => Call(ns[i], Enter, 0, 0)))
  }

  lemma {:induction false} NoSamples(calls: seq<Call>, limit: nat, stage: nat)
    requires stage > 0 && forall i :: 0 <= i < |calls| ==> calls[i].pc.Enter?
    ensures Samples(calls, limit, stage) == []
  {
    if calls != [] { NoSamples(calls[..|calls| - 1], limit, stage); }
  }

  lemma StartInv(limit: nat, ns: seq<nat>)
    requires limit <= UINT64_MAX
    ensures Inv(Start(limit, ns))
  {
    NoSamples(Start(limit, ns).calls, limit, 2);
    NoSamples(Start(limit, ns).calls, limit, 3);
  }

  /** The scheduler picks the call that takes the next step. */
  ghost predicate Schedule(order: seq<nat>, calls: nat) { forall k :: 0 <= k < |order| ==> order[k] < calls }

  lemma StepKeeps(s: State, t: State, i: nat)
    requires Inv(t) && i < |t.calls| && |t.calls| == |s.calls| && t.limit == s.limit && t.min <= s.min && s.max <= t.max
    requires forall j :: 0 <= j < |s.calls| ==> t.calls[j].n == s.calls[j].n
    ensures var u := Step(t, i);
            && Inv(u) && |u.calls| == |s.calls| && u.limit == s.limit && u.min <= s.min && s.max <= u.max
            && forall j :: 0 <= j < |s.calls| ==> u.calls[j].n == s.calls[j].n
  {
    StepInv(t, i);
    StepMonotone(t, i);
    StepLimit(t, i);
    hide Inv, Step;
  }

  lemma StepLimit(s: State, i: nat)
    requires Inv(s) && i < |s.calls|
    ensures Step(s, i).limit == s.limit
  {
    hide Samples, Knows;
  }

  ghost function Exec(s: State, order: seq<nat>): (t: State)
    requires Inv(s) && Schedule(order, |s.calls|)
    ensures Inv(t) && |t.calls| == |s.calls| && t.limit == s.limit
    ensures forall j :: 0 <= j < |s.calls| ==> t.calls[j].n == s.calls[j].n
    ensures t.min <= s.min && s.max <= t.max
  {
    if order == [] then s
    else
      var k := |order| - 1;
      var t := Exec(s, order[..k]);
      StepKeeps(s, t, order[k]);
      Step(t, order[k])
  }

  /** The samples that are not beyond the limit. */
  function Accepted(ns: seq<nat>, limit: nat): seq<nat> {
    if ns == [] then []
    else Accepted(ns[..|ns| - 1], limit) + if ns[|ns| - 1] < limit then [ns[|ns| - 1]] else []
  }

  lemma {:induction false} AcceptedAre(ns: seq<nat>, limit: nat, v: nat)
    ensures multiset(Accepted(ns, limit))[v] == if v < limit then multiset(ns)[v] else 0
  {
    if ns != [] {
      var m := |ns| - 1;
      assert ns == ns[..m] + [ns[m]];
      AcceptedAre(ns[..m], limit, v);
    }
  }

  /** Each number below the limit is counted as often as it was recorded, and no other. */
  predicate CountsBelow(data: seq<nat>, ns: seq<nat>, limit: nat) {
    forall v :: 0 <= v < |data| ==> data[v] == if v < limit then multiset(ns)[v] else 0
  }

  lemma AcceptedCounts(data: seq<nat>, ns: seq<nat>, limit: nat)
    requires Counts(data, Accepted(ns, limit))
    ensures CountsBelow(data, ns, limit)
  {
    hide Accepted;
    forall v | 0 <= v < |data|
      ensures data[v] == if v < limit then multiset(ns)[v] else 0
    {
      AcceptedAre(ns, limit, v);
    }
  }

  lemma {:induction false} DoneSamples(calls: seq<Call>, ns: seq<nat>, limit: nat, stage: nat)
    requires |calls| == |ns| && stage <= 7
    requires forall j :: 0 <= j < |calls| ==> calls[j].n == ns[j] && calls[j].pc.Done?
    ensures Samples(calls, limit, stage) == Accepted(ns, limit)
  {
    if calls != [] {
      var m := |calls| - 1;
      DoneSamples(calls[..m], ns[..m], limit, stage);
    }
  }

  lemma MinIs(samples: seq<nat>, min: nat)
    requires min == UINT64_MAX || min in samples
    requires min <= UINT64_MAX && forall i :: 0 <= i < |samples| ==> min <= samples[i]
    ensures min == MinOf(samples)
  {
    MinOfBounds(samples);
  }

  lemma MaxIs(samples: seq<nat>, max: nat)
    requires max == 0 || max in samples
    requires forall i :: 0 <= i < |samples| ==> samples[i] <= max
    ensures max == MaxOf(samples)
  {
    MaxOfBounds(samples);
  }

  /** However the steps interleave, once all calls have returned the histogram is the one that recording the accepted
      samples one after the other leaves. */
  lemma Quiescent(limit: nat, ns: seq<nat>, order: seq<nat>)
    requires limit <= UINT64_MAX && Schedule(order, |ns|)
    requires Inv(Start(limit, ns)) && forall j :: 0 <= j < |ns| ==> Exec(Start(limit, ns), order).calls[j].pc.Done?
    ensures var t, samples := Exec(Start(limit, ns), order), Accepted(ns, limit);
            Counts(t.data, samples) && t.count == |samples| && t.min == MinOf(samples) && t.max == MaxOf(samples)
            && CountsBelow(t.data, ns, limit)
  {
    hide Exec, Samples, MinOf, MaxOf, CountsBelow;
    var t, samples := Exec(Start(limit, ns), order), Accepted(ns, limit);
    DoneSamples(t.calls, ns, limit, 2);
    DoneSamples(t.calls, ns, limit, 3);
    forall i | 0 <= i < |samples|
      ensures t.min <= samples[i] <= t.max && samples[i] < limit
    {
      var j := SamplesOf(t.calls, limit, 3, samples[i]);
      assert Knows(t.calls[j], t);
    }
    MinIs(samples, t.min);
    MaxIs(samples, t.max);
    AcceptedCounts(t.data, ns, limit);
  }

  // ----- termination

  /** A call that may still lower the minimum. */
  predicate MayLower(c: Call, min: nat) { Order(c.pc) <= 5 && c.n < min }

  function Lowering(calls: seq<Call>, min: nat): (k: nat)
    ensures k <= |calls|
  {
    if calls == [] then 0
    else Lowering(calls[..|calls| - 1], min) + if MayLower(calls[|calls| - 1], min) then 1 else 0
  }

  predicate MayRaise(c: Call, max: nat) { Order(c.pc) <= 6 && c.n > max }

  function Raising(calls: seq<Call>, max: nat): (k: nat)
    ensures k <= |calls|
  {
    if calls == [] then 0
    else Raising(calls[..|calls| - 1], max) + if MayRaise(calls[|calls| - 1], max) then 1 else 0
  }

  lemma {:induction false} LoweringFalls(calls: seq<Call>, i: nat, c: Call, min: nat, min': nat)
    requires i < |calls| && min' <= min && (MayLower(c, min') ==> MayLower(calls[i], min))
    ensures Lowering(calls[i := c], min') + (if MayLower(calls[i], min) && !MayLower(c, min') then 1 else 0)
            <= Lowering(calls, min)
  {
    var m := |calls| - 1;
    if i == m {
      assert calls[i := c][..m] == calls[..m];
      LoweringLess(calls[..m], min, min');
    } else {
      assert calls[i := c][..m] == calls[..m][i := c];
      LoweringFalls(calls[..m], i, c, min, min');
    }
  }

  lemma {:induction false} LoweringLess(calls: seq<Call>, min: nat, min': nat)
    requires min' <= min
    ensures Lowering(calls, min') <= Lowering(calls, min)
  {
    if calls != [] { LoweringLess(calls[..|calls| - 1], min, min'); }
  }

  lemma {:induction false} RaisingFalls(calls: seq<Call>, i: nat, c: Call, max: nat, max': nat)
    requires i < |calls| && max <= max' && (MayRaise(c, max') ==> MayRaise(calls[i], max))
    ensures Raising(calls[i := c], max') + (if MayRaise(calls[i], max) && !MayRaise(c, max') then 1 else 0)
            <= Raising(calls, max)
  {
    var m := |calls| - 1;
    if i == m {
      assert calls[i := c][..m] == calls[..m];
      RaisingLess(calls[..m], max, max');
    } else {
      assert calls[i := c][..m] == calls[..m][i := c];
      RaisingFalls(calls[..m], i, c, max, max');
    }
  }

  lemma {:induction false} RaisingLess(calls: seq<Call>, max: nat, max': nat)
    requires max <= max'
    ensures Raising(calls, max') <= Raising(calls, max)
  {
    if calls != [] { RaisingLess(calls[..|calls| - 1], max, max'); }
  }

  /** How many rounds of its loops a call may still need, whatever the others do: a swap fails only after the swap of
      another call, and every call swaps each of the two words at most once. */
  function MinFuel(s: State, c: Call): nat {
    if c.n < c.min then 2 * Lowering(s.calls, s.min) + if c.min != s.min then 1 else 0 else 0
  }

  function MaxFuel(s: State, c: Call): nat {
    if c.n > c.max then 2 * Raising(s.calls, s.max) + if c.max != s.max then 1 else 0 else 0
  }

  /** A bound on the steps that call `i` has left. */
  function Fuel(s: State, i: nat): nat
    requires i < |s.calls|
  {
    var c := s.calls[i];
    match c.pc
    case Done => 0
    case SwapMax => 1 + MaxFuel(s, c)
    case SwapMin => 2 + MinFuel(s, c) + MaxFuel(s, c)
    case LoadMax => 3 + MinFuel(s, c) + 2 * Raising(s.calls, s.max)
    case _ => 7 - Order(c.pc) + 2 * Lowering(s.calls, s.min) + 2 * Raising(s.calls, s.max)
  }

  lemma StepFalls(s: State, i: nat)
    requires Inv(s) && i < |s.calls|
    ensures var t := Step(s, i);
            Lowering(t.calls, t.min) + (if t.min != s.min then 1 else 0) <= Lowering(s.calls, s.min)
            && Raising(t.calls, t.max) + (if t.max != s.max then 1 else 0) <= Raising(s.calls, s.max)
  {
    hide Lowering, Raising, Samples;
    var t := Step(s, i);
    assert Knows(s.calls[i], s);
    LoweringFalls(s.calls, i, t.calls[i], s.min, t.min);
    RaisingFalls(s.calls, i, t.calls[i], s.max, t.max);
    assert s.calls[i := s.calls[i]] == s.calls;
  }

  lemma StepFuel(s: State, i: nat, j: nat)
    requires Inv(s) && i < |s.calls| && j < |s.calls|
    ensures Fuel(Step(s, i), j) + (if i == j && !s.calls[i].pc.Done? then 1 else 0) <= Fuel(s, j)
  {
    hide Lowering, Raising, Samples;
    assert Knows(s.calls[i], s) && Knows(s.calls[j], s);
    StepFalls(s, i);
  }

  /** The steps that call `i` takes in a run. */
  ghost function Taken(s: State, order: seq<nat>, i: nat): nat
    requires Inv(s) && Schedule(order, |s.calls|) && i < |s.calls|
  {
    if order == [] then 0
    else
      var k := |order| - 1;
      Taken(s, order[..k], i) + if order[k] == i && !Exec(s, order[..k]).calls[i].pc.Done? then 1 else 0
  }

  lemma {:induction false} TakenBounded(s: State, order: seq<nat>, i: nat)
    requires Inv(s) && Schedule(order, |s.calls|) && i < |s.calls|
    ensures Taken(s, order, i) + Fuel(Exec(s, order), i) <= Fuel(s, i)
  {
    hide Inv, Step, Fuel;
    if order != [] {
      var k := |order| - 1;
      TakenBounded(s, order[..k], i);
      StepFuel(Exec(s, order[..k]), order[k], i);
    }
  }

  /** Every call returns within a number of its own steps that depends on the number of calls alone. */
  lemma Terminates(limit: nat, ns: seq<nat>, order: seq<nat>, i: nat)
    requires limit <= UINT64_MAX && Schedule(order, |ns|) && i < |ns|
    ensures Inv(Start(limit, ns)) && Taken(Start(limit, ns), order, i) <= 4 * |ns| + 7
    ensures Taken(Start(limit, ns), order, i) == 4 * |ns| + 7 ==> Exec(Start(limit, ns), order).calls[i].pc.Done?
  {
    StartInv(limit, ns);
    TakenBounded(Start(limit, ns), order, i);
  }
}
