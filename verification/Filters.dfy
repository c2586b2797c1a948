/** The filter protocol of lib/ltn12.lua, and the loop of filter.chain, one round at a time. */
module Filters {
  /** A chunk: nil, or a string, the empty one included. */
  datatype Chunk = Nil | Text(s: string)

  const EMPTY := Text("")

  /** Where a filter stands: it wants more input; it has more output; it has more output after the end of input; it has
      answered nil. */
  datatype Status = Drained | Full | Ending | Finished

  /** A filter with states `S`: `rel(s, taken, given, status)` relates a state to the input taken and the output given
      so far, `left` bounds the output that it still has, and `meaning` is the function that it computes. */
  datatype Filter<!S> = Filter(
    step: (S, Chunk) -> (S, Chunk), meaning: string -> string, rel: (S, string, string, Status) -> bool, left: S -> nat)

  /** What the protocol lets a caller say to a filter: text only when it wants some, and nil at the end. */
  predicate Legal(st: Status, c: Chunk) {
    match st
    case Drained => c.Nil? || c.s != ""
    case Full => c == EMPTY
    case Ending => c.Nil?
    case Finished => false
  }

  function After(st: Status, c: Chunk, out: Chunk): Status {
    if c.Nil? then (if out.Nil? then Finished else Ending)
    else if out == EMPTY then Drained else Full
  }

  function Taken(a: string, c: Chunk): string { if c.Nil? then a else a + c.s }

  /** A right answer: "" only when more input is wanted, nil only after the end of input, and then all of the output has
      been given. */
  predicate Answers<S>(f: Filter<S>, s: S, a: string, b: string, st: Status, c: Chunk) {
    var (s', out) := f.step(s, c);
    && f.rel(s', Taken(a, c), Taken(b, out), After(st, c, out))
    && (c.Nil? ==> out != EMPTY) && (c.Text? ==> out.Text?)
    && (out.Nil? ==> b == f.meaning(a))
    && (!st.Drained? && out.Text? && out != EMPTY ==> f.left(s') < f.left(s))
  }

  ghost predicate Obeys<S(!new)>(f: Filter<S>) {
    forall s, a, b, st, c :: f.rel(s, a, b, st) && Legal(st, c) ==> Answers(f, s, a, b, st, c)
  }

  ghost predicate AllObey<S(!new)>(fs: seq<Filter<S>>) {
    fs != [] && forall k :: 0 <= k < |fs| ==> Obeys(fs[k])
  }

  /** The filter that hands on each chunk as it is. */
  function Identity(): Filter<bool> {
    Filter((s, c) => (s, c), a => a, (s, a, b, st) => a == b, s => 0)
  }

  lemma IdentityObeys()
    ensures Obeys(Identity())
  {
    forall s: bool, a, b, st, c | Identity().rel(s, a, b, st) && Legal(st, c)
      ensures Answers(Identity(), s, a, b, st, c)
    {
      assert Identity().step(s, c) == (s, c);
    }
  }

  /** fn(...f1(a)). */
  function Composed<S>(fs: seq<Filter<S>>, n: nat, a: string): string
    requires n <= |fs|
  {
    if n == 0 then a else fs[n - 1].meaning(Composed(fs, n - 1, a))
  }

  // ----- the loop of filter.chain

  /** Its variables, indices from zero, and what every filter has taken and given. */
  datatype Loop<S> = Loop(
    top: nat, index: nat, chunk: Chunk, retry: Chunk,
    states: seq<S>, taken: seq<string>, given: seq<string>, status: seq<Status>)

  /** What a round comes to: another round, or the closure returns text, "" or nil.  After text, the next call passes
      `retry`. */
  datatype Round<S> = Again(l: Loop<S>) | Give(l: Loop<S>, s: string) | Rest(l: Loop<S>) | Done(l: Loop<S>) | Error

  predicate Shaped<S>(fs: seq<Filter<S>>, l: Loop<S>) {
    l.top <= l.index < |fs| && |l.states| == |l.taken| == |l.given| == |l.status| == |fs|
  }

  /** The chunk that the filter at `index` is given. */
  function Passed<S>(l: Loop<S>): Chunk { if l.index > l.top && l.chunk.Nil? then EMPTY else l.chunk }

  /** The call of the filter at `index`. */
  function Called<S>(fs: seq<Filter<S>>, l: Loop<S>): (r: (Loop<S>, Chunk))
    requires Shaped(fs, l)
    ensures Shaped(fs, r.0)
  {
    var k, c := l.index, Passed(l);
    var (s, out) := fs[k].step(l.states[k], c);
    (l.(states := l.states[k := s], taken := l.taken[k := Taken(l.taken[k], c)],
        given := l.given[k := Taken(l.given[k], out)],
        status := l.status[k := After(l.status[k], c, out)]), out)
  }

  // Where the loop goes on from `l` when the call of its filter has left `m`.

  /** With the filter before, which is asked for more. */
  function Down<S>(l: Loop<S>, m: Loop<S>): Loop<S>
    requires l.index > 0
  {
    m.(index := l.index - 1, chunk := l.retry)
  }

  /** With the filter after, which is given `out`. */
  function Up<S>(l: Loop<S>, m: Loop<S>, out: Chunk): Loop<S> { m.(index := l.index + 1, chunk := out) }

  /** With the next call of the closure. */
  function Rearmed<S>(l: Loop<S>, m: Loop<S>): Loop<S> { m.(chunk := l.retry) }

  /** With the filter after as the new top, which is told that there is no more. */
  function NextTop<S>(l: Loop<S>, m: Loop<S>): Loop<S> { m.(top := l.top + 1, index := l.top + 1, chunk := Nil) }

  function Turn<S>(fs: seq<Filter<S>>, l: Loop<S>): Round<S>
    requires Shaped(fs, l)
  {
    var (m, out) := Called(fs, l);
    if l.index == l.top then
      if out == EMPTY then Rest(m)
      else if l.top == |fs| - 1 then
        if out.Nil? then Done(m) else Give(Rearmed(l, m), out.s)
      else if out.Text? then Again(Up(l, m, out))
      else Again(NextTop(l, m))
    else
      if out == EMPTY then Again(Down(l, m))
      else if out.Text? then
        if l.index == |fs| - 1 then Give(Rearmed(l, m), out.s) else Again(Up(l, m, out))
      else Error
  }

  // ----- the invariant

  /** Text is on its way to the filter at `index` from the one before it. */
  predicate InFlight<S>(l: Loop<S>) { l.index > l.top && l.chunk.Text? && l.chunk != EMPTY }

  /** Who has output left, and what may be said to the filter at `index`. */
  ghost predicate Control<S>(l: Loop<S>)
    requires l.top <= l.index < |l.status|
  {
    && (l.retry == EMPTY || l.retry == Nil) && (l.retry == EMPTY ==> l.top == 0)
    && (forall k :: l.top < k < l.index ==> l.status[k].Full?)
    && (forall k :: l.index < k < |l.status| ==> l.status[k].Drained?)
    && (l.index > l.top ==> l.status[l.top] == if l.retry.Nil? then Ending else Full)
    && Legal(l.status[l.index], Passed(l))
    && (if l.index > l.top then InFlight(l) || l.chunk == l.retry else l.retry.Nil? <==> l.chunk.Nil?)
  }

  ghost predicate Related<S>(fs: seq<Filter<S>>, l: Loop<S>)
    requires Shaped(fs, l)
  {
    forall k :: 0 <= k < |fs| ==> fs[k].rel(l.states[k], l.taken[k], l.given[k], l.status[k])
  }

  /** The filters before `top` have given all of their output. */
  ghost predicate Complete<S>(fs: seq<Filter<S>>, l: Loop<S>, top: nat)
    requires Shaped(fs, l) && top <= |fs|
  {
    forall k :: 0 <= k < top ==> l.given[k] == fs[k].meaning(l.taken[k])
  }

  /** What a filter gives, the next one takes. */
  ghost predicate Flows<S>(l: Loop<S>)
    requires l.top <= l.index < |l.taken| == |l.given|
  {
    && (forall k :: 1 <= k < |l.taken| && !(k == l.index && InFlight(l)) ==> l.taken[k] == l.given[k - 1])
    && (InFlight(l) ==> l.taken[l.index] + l.chunk.s == l.given[l.index - 1])
  }

  ghost predicate Inv<S>(fs: seq<Filter<S>>, l: Loop<S>) {
    Shaped(fs, l) && Control(l) && Related(fs, l) && Complete(fs, l, l.top) && Flows(l)
  }

  /** Nothing is asked of the chain: it wants more input. */
  ghost predicate AtRest<S>(fs: seq<Filter<S>>, l: Loop<S>) {
    && Shaped(fs, l) && l.top == l.index == 0
    && (forall k :: 0 <= k < |fs| ==>
          l.status[k].Drained? && fs[k].rel(l.states[k], l.taken[k], l.given[k], l.status[k]))
    && (forall k :: 1 <= k < |fs| ==> l.taken[k] == l.given[k - 1])
  }

  /** Every filter has given all of its output. */
  ghost predicate Over<S>(fs: seq<Filter<S>>, l: Loop<S>) {
    Shaped(fs, l) && Complete(fs, l, |fs|) && forall k :: 1 <= k < |fs| ==> l.taken[k] == l.given[k - 1]
  }

  lemma {:induction false} OverIsComposed<S(!new)>(fs: seq<Filter<S>>, l: Loop<S>, n: nat)
    requires Over(fs, l) && 1 <= n <= |fs|
    ensures l.given[n - 1] == Composed(fs, n, l.taken[0])
  {
    if n > 1 {
      OverIsComposed(fs, l, n - 1);
    } else {
      assert Composed(fs, 0, l.taken[0]) == l.taken[0];
    }
  }

  /** One round keeps the filters in the protocol. */
  lemma CallKeeps<S(!new)>(fs: seq<Filter<S>>, l: Loop<S>)
    requires AllObey(fs) && Inv(fs, l)
    ensures var (m, out) := Called(fs, l);
            var k, c := l.index, Passed(l);
            && (forall j :: 0 <= j < |fs| ==> fs[j].rel(m.states[j], m.taken[j], m.given[j], m.status[j]))
            && (c.Nil? ==> out != EMPTY) && (c.Text? ==> out.Text?)
            && (out.Nil? ==> m.given[k] == fs[k].meaning(m.taken[k]))
            && (!l.status[k].Drained? && out.Text? && out != EMPTY
                ==> fs[k].left(m.states[k]) < fs[k].left(l.states[k]))
  {
    var k := l.index;
    assert Obeys(fs[k]);
    assert Answers(fs[k], l.states[k], l.taken[k], l.given[k], l.status[k], Passed(l));
  }

  /** What the call of the filter at `index` tells, besides that every filter keeps its relation. */
  ghost predicate CallFacts<S>(fs: seq<Filter<S>>, l: Loop<S>, m: Loop<S>, out: Chunk)
    requires Shaped(fs, l) && Shaped(fs, m)
  {
    var k, c := l.index, Passed(l);
    && (forall j :: 0 <= j < |fs| ==> fs[j].rel(m.states[j], m.taken[j], m.given[j], m.status[j]))
    && (c.Nil? ==> out != EMPTY) && (c.Text? ==> out.Text?) && (out.Nil? ==> m.given[k] == fs[k].meaning(m.taken[k]))
  }

  lemma NothingAdded(a: string)
    ensures a + "" == a
  {
  }

  /** Once the filter at `index` has answered, nothing is on its way to it any more. */
  lemma CalledFlows<S(!new)>(fs: seq<Filter<S>>, l: Loop<S>)
    requires Inv(fs, l)
    ensures var m := Called(fs, l).0; forall k :: 1 <= k < |fs| ==> m.taken[k] == l.given[k - 1]
  {
    hide Complete, Related;
    NothingAdded(l.taken[l.index]);
    if l.index == l.top && l.chunk.Text? { assert l.index == 0; }
  }

  lemma GoesBackControl<S(!new)>(fs: seq<Filter<S>>, l: Loop<S>, m: Loop<S>)
    requires Inv(fs, l) && l.index > l.top && (m, EMPTY) == Called(fs, l) && CallFacts(fs, l, m, EMPTY)
    ensures Shaped(fs, Down(l, m)) && Control(Down(l, m))
  {
    hide Flows, Complete, Related;
  }

  lemma GivenBack<S>(fs: seq<Filter<S>>, l: Loop<S>, m: Loop<S>)
    requires Shaped(fs, l) && (m, EMPTY) == Called(fs, l)
    ensures m.given == l.given && m.top == l.top
  {
    NothingAdded(l.given[l.index]);
  }

  lemma GoesBackFlows<S(!new)>(fs: seq<Filter<S>>, l: Loop<S>, m: Loop<S>)
    requires Inv(fs, l) && l.index > l.top && (m, EMPTY) == Called(fs, l) && CallFacts(fs, l, m, EMPTY)
    ensures Shaped(fs, Down(l, m)) && Flows(Down(l, m))
  {
    assert l.retry == EMPTY || l.retry == Nil;
    CalledFlows(fs, l);
    GivenBack(fs, l, m);
    hide Inv, Complete, Related, Called, CallFacts, Passed;
  }

  lemma GoesBackComplete<S(!new)>(fs: seq<Filter<S>>, l: Loop<S>, m: Loop<S>)
    requires Inv(fs, l) && l.index > l.top && (m, EMPTY) == Called(fs, l) && CallFacts(fs, l, m, EMPTY)
    ensures Shaped(fs, Down(l, m)) && Complete(fs, Down(l, m), Down(l, m).top) && Related(fs, Down(l, m))
  {
    hide Control, Flows;
  }

  lemma GoesBack<S(!new)>(fs: seq<Filter<S>>, l: Loop<S>, m: Loop<S>)
    requires Inv(fs, l) && l.index > l.top && (m, EMPTY) == Called(fs, l) && CallFacts(fs, l, m, EMPTY)
    ensures Inv(fs, Down(l, m))
  {
    hide Control, Flows, Complete, Related, Called, CallFacts;
    GoesBackControl(fs, l, m);
    GoesBackFlows(fs, l, m);
    GoesBackComplete(fs, l, m);
  }

  lemma GoesUpControl<S(!new)>(fs: seq<Filter<S>>, l: Loop<S>, m: Loop<S>, out: Chunk)
    requires Inv(fs, l) && l.index < |fs| - 1 && (m, out) == Called(fs, l) && CallFacts(fs, l, m, out)
    requires out.Text? && out != EMPTY
    ensures Shaped(fs, Up(l, m, out)) && Control(Up(l, m, out))
  {
    hide Flows, Complete, Related;
  }

  lemma GoesUpFlows<S(!new)>(fs: seq<Filter<S>>, l: Loop<S>, m: Loop<S>, out: Chunk)
    requires Inv(fs, l) && l.index < |fs| - 1 && (m, out) == Called(fs, l) && CallFacts(fs, l, m, out)
    requires out.Text? && out != EMPTY
    ensures Shaped(fs, Up(l, m, out)) && Flows(Up(l, m, out))
  {
    CalledFlows(fs, l);
    CalledGives(fs, l, m, out);
    hide Inv, Complete, Related, Called, CallFacts;
  }

  /** What the filter gives comes on top of all that the filter behind it has taken. */
  lemma CalledGives<S(!new)>(fs: seq<Filter<S>>, l: Loop<S>, m: Loop<S>, out: Chunk)
    requires Inv(fs, l) && l.index < |fs| - 1 && (m, out) == Called(fs, l) && out.Text?
    ensures m.taken[l.index + 1] + out.s == m.given[l.index]
    ensures forall k :: 0 <= k < |fs| && k != l.index ==> m.given[k] == l.given[k]
  {
    hide Complete, Related;
    assert l.taken[l.index + 1] == l.given[l.index];
  }

  lemma GoesUpComplete<S(!new)>(fs: seq<Filter<S>>, l: Loop<S>, m: Loop<S>, out: Chunk)
    requires Inv(fs, l) && l.index < |fs| - 1 && (m, out) == Called(fs, l) && CallFacts(fs, l, m, out)
    requires out.Text? && out != EMPTY
    ensures Shaped(fs, Up(l, m, out)) && Complete(fs, Up(l, m, out), Up(l, m, out).top) && Related(fs, Up(l, m, out))
  {
    hide Control, Flows;
  }

  lemma GoesUp<S(!new)>(fs: seq<Filter<S>>, l: Loop<S>, m: Loop<S>, out: Chunk)
    requires Inv(fs, l) && l.index < |fs| - 1 && (m, out) == Called(fs, l) && CallFacts(fs, l, m, out)
    requires out.Text? && out != EMPTY
    ensures Inv(fs, Up(l, m, out))
  {
    hide Control, Flows, Complete, Related, Called, CallFacts;
    GoesUpControl(fs, l, m, out);
    GoesUpFlows(fs, l, m, out);
    GoesUpComplete(fs, l, m, out);
  }

  lemma GivesTextControl<S(!new)>(fs: seq<Filter<S>>, l: Loop<S>, m: Loop<S>, out: Chunk)
    requires Inv(fs, l) && l.index == |fs| - 1 && (m, out) == Called(fs, l) && CallFacts(fs, l, m, out)
    requires out.Text? && out != EMPTY
    ensures Shaped(fs, Rearmed(l, m)) && Control(Rearmed(l, m))
  {
    hide Flows, Complete, Related;
  }

  lemma GivesTextFlows<S(!new)>(fs: seq<Filter<S>>, l: Loop<S>, m: Loop<S>, out: Chunk)
    requires Inv(fs, l) && l.index == |fs| - 1 && (m, out) == Called(fs, l) && CallFacts(fs, l, m, out)
    requires out.Text? && out != EMPTY
    ensures Shaped(fs, Rearmed(l, m)) && Flows(Rearmed(l, m))
  {
    CalledFlows(fs, l);
    hide Inv, Complete, Related;
  }

  lemma GivesTextComplete<S(!new)>(fs: seq<Filter<S>>, l: Loop<S>, m: Loop<S>, out: Chunk)
    requires Inv(fs, l) && l.index == |fs| - 1 && (m, out) == Called(fs, l) && CallFacts(fs, l, m, out)
    requires out.Text? && out != EMPTY
    ensures Shaped(fs, Rearmed(l, m)) && Complete(fs, Rearmed(l, m), Rearmed(l, m).top) && Related(fs, Rearmed(l, m))
  {
    hide Control, Flows;
  }

  lemma GivesText<S(!new)>(fs: seq<Filter<S>>, l: Loop<S>, m: Loop<S>, out: Chunk)
    requires Inv(fs, l) && l.index == |fs| - 1 && (m, out) == Called(fs, l) && CallFacts(fs, l, m, out)
    requires out.Text? && out != EMPTY
    ensures Inv(fs, Rearmed(l, m))
  {
    hide Control, Flows, Complete, Related, Called, CallFacts;
    GivesTextControl(fs, l, m, out);
    GivesTextFlows(fs, l, m, out);
    GivesTextComplete(fs, l, m, out);
  }

  lemma GoesOnNilControl<S(!new)>(fs: seq<Filter<S>>, l: Loop<S>, m: Loop<S>)
    requires Inv(fs, l) && l.index == l.top < |fs| - 1 && (m, Nil) == Called(fs, l) && CallFacts(fs, l, m, Nil)
    ensures Shaped(fs, NextTop(l, m)) && Control(NextTop(l, m))
  {
    hide Flows, Complete, Related;
  }

  lemma GoesOnNilFlows<S(!new)>(fs: seq<Filter<S>>, l: Loop<S>, m: Loop<S>)
    requires Inv(fs, l) && l.index == l.top < |fs| - 1 && (m, Nil) == Called(fs, l) && CallFacts(fs, l, m, Nil)
    ensures Shaped(fs, NextTop(l, m)) && Flows(NextTop(l, m))
  {
    hide Control, Complete, Related;
  }

  lemma GoesOnNilComplete<S(!new)>(fs: seq<Filter<S>>, l: Loop<S>, m: Loop<S>)
    requires Inv(fs, l) && l.index == l.top < |fs| - 1 && (m, Nil) == Called(fs, l) && CallFacts(fs, l, m, Nil)
    ensures Shaped(fs, NextTop(l, m)) && Complete(fs, NextTop(l, m), NextTop(l, m).top) && Related(fs, NextTop(l, m))
  {
    hide Control, Flows;
  }

  lemma GoesOnNil<S(!new)>(fs: seq<Filter<S>>, l: Loop<S>, m: Loop<S>)
    requires Inv(fs, l) && l.index == l.top < |fs| - 1 && (m, Nil) == Called(fs, l) && CallFacts(fs, l, m, Nil)
    ensures Inv(fs, NextTop(l, m))
  {
    hide Control, Flows, Complete, Related, Called, CallFacts;
    GoesOnNilControl(fs, l, m);
    GoesOnNilFlows(fs, l, m);
    GoesOnNilComplete(fs, l, m);
  }

  lemma Rests<S(!new)>(fs: seq<Filter<S>>, l: Loop<S>, m: Loop<S>)
    requires Inv(fs, l) && l.index == l.top && (m, EMPTY) == Called(fs, l) && CallFacts(fs, l, m, EMPTY)
    ensures AtRest(fs, m) && l.retry == EMPTY
  {
  }

  lemma GivesNil<S(!new)>(fs: seq<Filter<S>>, l: Loop<S>, m: Loop<S>)
    requires Inv(fs, l) && l.index == l.top == |fs| - 1 && (m, Nil) == Called(fs, l) && CallFacts(fs, l, m, Nil)
    ensures Over(fs, m)
  {
    CalledFlows(fs, l);
    hide Control, Related, Flows;
  }

  lemma AnswerKinds<S(!new)>(fs: seq<Filter<S>>, l: Loop<S>)
    requires AllObey(fs) && Inv(fs, l)
    ensures var (m, out) := Called(fs, l);
            && Shaped(fs, l) && CallFacts(fs, l, m, out)
            && (out.Nil? ==>
                  l.index == l.top && l.retry.Nil?
                  && m.given[l.index] == fs[l.index].meaning(m.taken[l.index]))
  {
    CallKeeps(fs, l);
    hide AllObey, Related, Flows, Complete;
  }

  lemma TurnKeeps<S(!new)>(fs: seq<Filter<S>>, l: Loop<S>)
    requires AllObey(fs) && Inv(fs, l)
    ensures var r := Turn(fs, l);
            match r
            case Again(m) => Inv(fs, m)
            case Give(m, s) => Inv(fs, m) && s != ""
            case Rest(m) => AtRest(fs, m) && l.retry == EMPTY
            case Done(m) => Over(fs, m) && l.retry == Nil
            case Error => false
  {
    hide Called, CallFacts, Control, Related, Flows, Complete, AtRest, Passed, AllObey;
    AnswerKinds(fs, l);
    var (m, out) := Called(fs, l);
    if out == EMPTY {
      if l.index == l.top { Rests(fs, l, m); } else { GoesBack(fs, l, m); }
    } else if out.Nil? {
      if l.top < |fs| - 1 { GoesOnNil(fs, l, m); } else { GivesNil(fs, l, m); }
    } else if l.index == |fs| - 1 {
      GivesText(fs, l, m, out);
    } else {
      GoesUp(fs, l, m, out);
    }
  }

  // ----- what goes in and what comes out

  /** The input that the chain has taken, the input it has been handed, and the output it has returned. */
  function Fed<S>(l: Loop<S>): string { if l.taken == [] then "" else l.taken[0] }

  function Input<S>(l: Loop<S>): string { if l.index == 0 && l.chunk.Text? then Fed(l) + l.chunk.s else Fed(l) }

  function Output<S>(l: Loop<S>): string { if l.given == [] then "" else l.given[|l.given| - 1] }

  lemma TurnFlow<S(!new)>(fs: seq<Filter<S>>, l: Loop<S>)
    requires Inv(fs, l)
    ensures match Turn(fs, l)
            case Again(m) => Input(m) == Input(l) && Output(m) == Output(l)
            case Give(m, s) => Input(m) == Input(l) && Output(m) == Output(l) + s
            case Rest(m) => Fed(m) == Input(l) && Output(m) == Output(l)
            case Done(m) => Fed(m) == Input(l) && Output(m) == Output(l)
            case Error => true
  {
    hide Related, Complete, Flows;
    NothingAdded(Fed(l));
    NothingAdded(l.given[l.index]);
    NothingAdded(l.given[|l.given| - 1]);
    if l.index == 0 && l.chunk.Text? { NothingAdded(Fed(l) + l.chunk.s); }
  }

  // ----- termination

  function Next<S>(r: Round<S>): Loop<S>
    requires r.Again? || r.Give?
  {
    r.l
  }

  /** Within `n` more rounds, those after the texts it returns included, the chain answers "" or nil. */
  ghost predicate Ends<S>(fs: seq<Filter<S>>, l: Loop<S>, n: nat)
    decreases n
  {
    Shaped(fs, l) && n > 0
    && var r := Turn(fs, l); r.Rest? || r.Done? || ((r.Again? || r.Give?) && Ends(fs, r.l, n - 1))
  }

  ghost predicate Leads<S>(fs: seq<Filter<S>>, l: Loop<S>, n: nat, m: Loop<S>)
    decreases n
  {
    if n == 0 then l == m
    else Shaped(fs, l) && var r := Turn(fs, l); (r.Again? || r.Give?) && Leads(fs, r.l, n - 1, m)
  }

  lemma {:induction false} LeadsOn<S(!new)>(fs: seq<Filter<S>>, l: Loop<S>, a: nat, m: Loop<S>, b: nat, o: Loop<S>)
    requires Leads(fs, l, a, m) && Leads(fs, m, b, o)
    ensures Leads(fs, l, a + b, o)
    decreases a
  {
    hide Turn;
    if a > 0 { LeadsOn(fs, Turn(fs, l).l, a - 1, m, b, o); }
  }

  lemma {:induction false} LeadsEnds<S(!new)>(fs: seq<Filter<S>>, l: Loop<S>, a: nat, m: Loop<S>, b: nat)
    requires Leads(fs, l, a, m) && Ends(fs, m, b)
    ensures Ends(fs, l, a + b)
    decreases a
  {
    hide Turn;
    if a > 0 { LeadsEnds(fs, Turn(fs, l).l, a - 1, m, b); }
  }

  /** One more text for the filter at `index`, or one more pull. */
  function Fresh(c: Chunk): nat { if c.Text? && c != EMPTY then 1 else 0 }

  /** Back at the filter before: the ones behind it have said all they had to say. */
  ghost predicate Back<S>(fs: seq<Filter<S>>, l: Loop<S>, m: Loop<S>) {
    && Inv(fs, l) && Inv(fs, m) && m.index == l.index - 1 && m.top == l.top && m.chunk == m.retry == l.retry
    && m.states[..l.index] == l.states[..l.index] && m.status[..l.index] == l.status[..l.index]
  }

  lemma TurnPulls<S(!new)>(fs: seq<Filter<S>>, l: Loop<S>)
    requires AllObey(fs) && Inv(fs, l) && l.index > l.top
    ensures var k, r := l.index, Turn(fs, l);
            && (r.Again? || r.Give?) && Inv(fs, r.l) && r.l.top == l.top && r.l.retry == l.retry
            && (r.Again? && r.l.index < k ==> Back(fs, l, r.l))
            && (r.Again? && r.l.index >= k ==> r.l.index == k + 1 < |fs| && Fresh(r.l.chunk) == 1)
            && (r.Give? ==> r.l.index == k == |fs| - 1 && r.l.chunk == l.retry)
            && r.l.states[..k] == l.states[..k] && r.l.status[..k] == l.status[..k]
            && (!(r.Again? && r.l.index < k) && Fresh(l.chunk) == 0
                ==> fs[k].left(r.l.states[k]) < fs[k].left(l.states[k]))
  {
    TurnKeeps(fs, l);
    CallKeeps(fs, l);
    hide AllObey, Related, Complete, Flows;
  }

  /** From a filter behind `top`, the loop comes back to the one before it, whatever the filters answer. */
  lemma {:induction false} ComesBack<S(!new)>(fs: seq<Filter<S>>, l: Loop<S>) returns (n: nat, m: Loop<S>)
    requires AllObey(fs) && Inv(fs, l) && l.index > l.top
    ensures Leads(fs, l, n, m) && Back(fs, l, m)
    decreases |fs| - l.index, Fresh(l.chunk), fs[l.index].left(l.states[l.index])
  {
    hide AllObey, Inv, Turn;
    TurnPulls(fs, l);
    InvShaped(fs, l);
    var r := Turn(fs, l);
    var k := l.index;
    if r.Again? && r.l.index < k {
      n, m := 1, r.l;
      assert Leads(fs, r.l, 0, m);
    } else if r.Give? {
      var a;
      a, m := ComesBack(fs, r.l);
      n := a + 1;
    } else {
      var a, o := ComesBack(fs, r.l);
      BackPulls(fs, r.l, o);
      var b;
      b, m := ComesBack(fs, o);
      LeadsOn(fs, r.l, a, o, b, m);
      n := a + b + 1;
    }
  }

  lemma InvShaped<S(!new)>(fs: seq<Filter<S>>, l: Loop<S>)
    requires Inv(fs, l)
    ensures Shaped(fs, l) && (l.retry == EMPTY || l.retry == Nil)
  {
  }

  lemma BackPulls<S(!new)>(fs: seq<Filter<S>>, l: Loop<S>, m: Loop<S>)
    requires Back(fs, l, m)
    ensures Shaped(fs, l) && Shaped(fs, m) && Fresh(m.chunk) == 0 && Inv(fs, m)
    ensures forall k :: 0 <= k < l.index ==> m.states[k] == l.states[k] && m.status[k] == l.status[k]
  {
    hide Control, Related, Complete, Flows;
    assert l.retry == EMPTY || l.retry == Nil by { InvShaped(fs, l); }
    forall k | 0 <= k < l.index
      ensures m.states[k] == l.states[k] && m.status[k] == l.status[k]
    {
      assert m.states[..l.index][k] == m.states[k] && m.status[..l.index][k] == m.status[k];
    }
  }

  /** Nothing has been asked of the filter at `index` yet, or it has more to say. */
  function Started(st: Status): nat { if st.Drained? then 1 else 0 }

  lemma TurnTop<S(!new)>(fs: seq<Filter<S>>, l: Loop<S>)
    requires AllObey(fs) && Inv(fs, l) && l.index == l.top
    ensures var k, r := l.top, Turn(fs, l);
            && !r.Error? && (r.Again? || r.Give? ==> Inv(fs, r.l))
            && (r.Give? ==> r.l.index == r.l.top == k && !r.l.status[k].Drained?)
            && (r.Again? ==>
                  r.l.index == k + 1 < |fs|
                  && (r.l.top == k + 1 || (r.l.top == k && !r.l.status[k].Drained?)))
            && ((r.Again? || r.Give?) && r.l.top == k && !l.status[k].Drained? ==>
                  fs[k].left(r.l.states[k]) < fs[k].left(l.states[k]))
  {
    TurnKeeps(fs, l);
    CallKeeps(fs, l);
    hide AllObey, Related, Complete, Flows;
  }

  /** From `top`, the chain comes to rest or to the end of its output. */
  lemma {:induction false} TopEnds<S(!new)>(fs: seq<Filter<S>>, l: Loop<S>) returns (n: nat)
    requires AllObey(fs) && Inv(fs, l) && l.index == l.top
    ensures Ends(fs, l, n)
    decreases |fs| - l.top, Started(l.status[l.top]), fs[l.top].left(l.states[l.top])
  {
    hide AllObey, Inv, Turn;
    InvShaped(fs, l);
    TurnTop(fs, l);
    var r := Turn(fs, l);
    if r.Rest? || r.Done? {
      n := 1;
    } else if r.Give? || r.l.top == l.top + 1 {
      var a := TopEnds(fs, r.l);
      n := a + 1;
    } else {
      var a, o := ComesBack(fs, r.l);
      BackPulls(fs, r.l, o);
      BackIndex(fs, r.l, o);
      var b := TopEnds(fs, o);
      LeadsEnds(fs, r.l, a, o, b);
      n := a + b + 1;
    }
  }

  lemma BackIndex<S(!new)>(fs: seq<Filter<S>>, l: Loop<S>, m: Loop<S>)
    requires Back(fs, l, m)
    ensures m.index == l.index - 1 && m.top == l.top
  {
  }
}
