/** lib/ltn12.lua: filter.chain, source.string, source.chain, sink.table and pump.all. */
module Pipes {
  import opened Bytes
  import opened Filters

  /** The chain between two calls, after the answer that left it in `phase`. */
  ghost predicate Standing<S>(fs: seq<Filter<S>>, l: Loop<S>, phase: Status, fuel: nat) {
    && Shaped(fs, l)
    && match phase
       case Drained => AtRest(fs, l) && l.retry == EMPTY
       case Full => Inv(fs, l) && Ends(fs, l, fuel) && l.retry == l.chunk == EMPTY
       case Ending => Inv(fs, l) && Ends(fs, l, fuel) && l.retry == l.chunk == Nil
       case Finished => true
  }

  /** The closure that filter.chain returns. */
  class Chain<!S(!new)> {
    const fs: seq<Filter<S>>
    var top: nat
    var index: nat
    var retry: Chunk
    var states: seq<S>
    ghost var loop: Loop<S>
    ghost var phase: Status
    ghost var fuel: nat

    /** The variables at the head of the loop, with this chunk. */
    ghost predicate At(l: Loop<S>)
      reads this
    {
      l.top == top && l.index == index && l.retry == retry && l.states == states
    }

    ghost predicate Valid()
      reads this
    {
      AllObey(fs) && At(loop) && Standing(fs, loop, phase, fuel)
    }

    ghost function Consumed(): string
      requires Valid()
      reads this
    {
      loop.taken[0]
    }

    ghost function Emitted(): string
      requires Valid()
      reads this
    {
      loop.given[|fs| - 1]
    }

    constructor (fs: seq<Filter<S>>, states: seq<S>)
      requires AllObey(fs) && |states| == |fs|
      requires forall k :: 0 <= k < |fs| ==> fs[k].rel(states[k], "", "", Drained)
      ensures Valid() && phase == Drained && this.fs == fs && Consumed() == "" == Emitted()
    {
      this.fs, top, index, retry, this.states := fs, 0, 0, EMPTY, states;
      loop := Loop(0, 0, EMPTY, EMPTY, states, seq(|fs|, i => ""), seq(|fs|, i => ""), seq(|fs|, i => Drained));
      phase, fuel := Drained, 0;
    }

    /** The body of the loop of filter.chain. */
    method Step(chunk: Chunk) returns (c: Chunk, returned: bool)
      requires Inv(fs, loop) && AllObey(fs) && At(loop) && loop.chunk == chunk
      modifies `top, `index, `states, `loop
      ensures match Turn(fs, old(loop))
              case Again(l) => !returned && loop == l && c == l.chunk
              case Give(l, t) => returned && loop == l && c == Text(t)
              case Rest(l) => returned && loop == l && c == EMPTY
              case Done(l) => returned && loop == l && c.Nil?
              case Error => false
      ensures At(loop)
    {
      hide AllObey, Inv, AtRest, Ends, Turn, Over, Called;
      TurnKeeps(fs, loop);
      RoundIs(fs, loop);
      InvShaped(fs, loop);
      c := chunk;
      ghost var r := Turn(fs, loop);
      if index == top {
        var (s, out) := fs[index].step(states[index], c);
        states := states[index := s];
        c := out;
        returned := c == EMPTY || top == |fs| - 1;
        if !returned {
          if c.Text? {
            index := index + 1;
          } else {
            top := top + 1;
            index := top;
          }
        }
      } else {
        var (s, out) := fs[index].step(states[index], if c.Nil? then EMPTY else c);
        states := states[index := s];
        c := out;
        returned := false;
        if c == EMPTY {
          index := index - 1;
          c := retry;
        } else if c.Text? {
          returned := index == |fs| - 1;
          if !returned { index := index + 1; }
        } else {
          assert false;
        }
      }
      loop := r.l;
    }

    /** One call: the chain is a filter itself, and its meaning is the composition. */
    method Call(chunk: Chunk) returns (out: Chunk)
      requires Valid() && Legal(phase, chunk)
      modifies this
      ensures Valid() && phase == After(old(phase), chunk, out)
      ensures Consumed() == Taken(old(Consumed()), chunk) && Emitted() == Taken(old(Emitted()), out)
      ensures (chunk.Nil? ==> out != EMPTY) && (chunk.Text? ==> out.Text?)
      ensures out.Nil? ==> Emitted() == Composed(fs, |fs|, Consumed())
      ensures !old(phase).Drained? && out.Text? && out != EMPTY ==> fuel < old(fuel)
    {
      hide AllObey, Inv, AtRest, Ends, Turn, Over, Called, Going, Standing;
      ghost var a, b := Taken(Consumed(), chunk), Emitted();
      retry := if chunk.Nil? then Nil else retry;
      Handed(fs, loop, phase, chunk, fuel);
      loop := loop.(chunk := chunk, retry := retry);
      if phase.Drained? { fuel := TopEnds(fs, loop); }
      Goes(fs, loop, chunk, a, b, fuel);
      out := chunk;
      while true
        invariant Going(fs, loop, chunk, a, b, fuel) && At(loop) && loop.chunk == out && AllObey(fs)
        invariant phase == old(phase) && (!phase.Drained? ==> fuel <= old(fuel))
        decreases fuel
      {
        RoundGoes(fs, loop, chunk, a, b, fuel);
        ghost var l := loop;
        var returned;
        out, returned := Step(out);
        if returned {
          Settles(fs, l, fuel, phase, chunk, out, a, b);
          phase := After(phase, chunk, out);
          fuel := fuel - 1;
          return;
        }
        fuel := fuel - 1;
      }
    }
  }

  /** The loop of one call under way: `a` has been taken and `b` given. */
  ghost predicate Going<S(!new)>(fs: seq<Filter<S>>, l: Loop<S>, chunk: Chunk, a: string, b: string, n: nat) {
    && |fs| > 0 && Inv(fs, l) && Ends(fs, l, n) && Shaped(fs, l) && Input(l) == a && Output(l) == b
    && l.retry == (if chunk.Nil? then Nil else EMPTY)
  }

  lemma Goes<S(!new)>(fs: seq<Filter<S>>, l: Loop<S>, chunk: Chunk, a: string, b: string, n: nat)
    requires Inv(fs, l) && Ends(fs, l, n) && Shaped(fs, l) && Input(l) == a && Output(l) == b
    requires l.retry == (if chunk.Nil? then Nil else EMPTY)
    ensures Going(fs, l, chunk, a, b, n)
  {
    hide Ends, Control, Related, Complete, Flows;
  }

  lemma RoundGoes<S(!new)>(fs: seq<Filter<S>>, l: Loop<S>, chunk: Chunk, a: string, b: string, n: nat)
    requires AllObey(fs) && Going(fs, l, chunk, a, b, n)
    ensures n > 0 && Inv(fs, l) && !Turn(fs, l).Error?
    ensures Turn(fs, l).Again? ==> Going(fs, Turn(fs, l).l, chunk, a, b, n - 1)
  {
    hide AllObey, Inv, AtRest, Ends, Turn, Over, Called, Shaped;
    TurnKeeps(fs, l);
    TurnFlow(fs, l);
    TurnEnds(fs, l, n);
    RoundIs(fs, l);
    if Turn(fs, l).Again? { InvShaped(fs, Turn(fs, l).l); }
  }

  /** What the chain has done when it returns. */
  lemma Settles<S(!new)>(fs: seq<Filter<S>>, l: Loop<S>, n: nat, phase: Status, chunk: Chunk, out: Chunk, a: string,
                         b: string)
    requires AllObey(fs) && Going(fs, l, chunk, a, b, n)
    requires match Turn(fs, l)
             case Give(_, t) => out == Text(t)
             case Rest(_) => out == EMPTY
             case Done(_) => out.Nil?
             case _ => false
    ensures var m := Turn(fs, l).l;
            && n > 0 && |fs| > 0 && Shaped(fs, m) && Standing(fs, m, After(phase, chunk, out), n - 1)
            && m.taken[0] == a && Output(m) == Taken(b, out)
            && (chunk.Nil? ==> out != EMPTY) && (chunk.Text? ==> out.Text?)
            && (out.Nil? ==> Output(m) == Composed(fs, |fs|, m.taken[0]))
  {
    hide AllObey, Inv, AtRest, Ends, Turn, Over, Called;
    TurnKeeps(fs, l);
    TurnFlow(fs, l);
    TurnEnds(fs, l, n);
    RoundIs(fs, l);
    NothingAdded(Output(l));
    var r := Turn(fs, l);
    match r
    case Give(m, _) =>
      InvShaped(fs, m);
      NothingAdded(m.taken[0]);
    case Rest(m) =>
      RestShaped(fs, m);
    case Done(m) =>
      OverShaped(fs, m);
      OverIsComposed(fs, m, |fs|);
  }

  lemma RestShaped<S(!new)>(fs: seq<Filter<S>>, l: Loop<S>)
    requires AtRest(fs, l)
    ensures Shaped(fs, l)
  {
  }

  lemma OverShaped<S(!new)>(fs: seq<Filter<S>>, l: Loop<S>)
    requires Over(fs, l)
    ensures Shaped(fs, l)
  {
  }

  /** A call begins: the loop invariant holds. */
  lemma Handed<S(!new)>(fs: seq<Filter<S>>, l: Loop<S>, phase: Status, chunk: Chunk, fuel: nat)
    requires Legal(phase, chunk) && Standing(fs, l, phase, fuel)
    ensures var m := l.(chunk := chunk, retry := if chunk.Nil? then Nil else l.retry);
            && Shaped(fs, l) && Inv(fs, m) && Input(m) == Taken(l.taken[0], chunk) && Output(m) == l.given[|fs| - 1]
            && m.retry == (if chunk.Nil? then Nil else EMPTY)
            && if phase.Drained? then m.index == m.top else Ends(fs, m, fuel)
  {
    hide Inv, Ends, AtRest;
    if phase.Drained? {
      RestHanded(fs, l, chunk);
    } else {
      NothingAdded(l.taken[0]);
    }
  }

  lemma RestHanded<S(!new)>(fs: seq<Filter<S>>, l: Loop<S>, chunk: Chunk)
    requires AtRest(fs, l) && l.retry == EMPTY && Legal(Drained, chunk)
    ensures var m := l.(chunk := chunk, retry := if chunk.Nil? then Nil else l.retry);
            Inv(fs, m) && m.index == m.top && Input(m) == Taken(l.taken[0], chunk)
  {
  }

  lemma TurnEnds<S(!new)>(fs: seq<Filter<S>>, l: Loop<S>, n: nat)
    requires Ends(fs, l, n)
    ensures n > 0 && Shaped(fs, l) && (Turn(fs, l).Again? || Turn(fs, l).Give? ==> Ends(fs, Turn(fs, l).l, n - 1))
  {
    hide Turn;
  }

  /** What the code does in one round. */
  lemma RoundIs<S(!new)>(fs: seq<Filter<S>>, l: Loop<S>)
    requires Inv(fs, l)
    ensures var k, c := l.index, if l.index > l.top && l.chunk.Nil? then EMPTY else l.chunk;
            var (s, out) := fs[k].step(l.states[k], c);
            var states := l.states[k := s];
            match Turn(fs, l)
            case Again(m) => m.states == states && m.retry == l.retry
                             && (if out == EMPTY then k > l.top && m.index == k - 1 && m.top == l.top
                                 && m.chunk == l.retry
                                 else if out.Text? then k < |fs| - 1 && m.index == k + 1 && m.top == l.top
                                     && m.chunk == out
                                 else k == l.top < |fs| - 1 && m.index == m.top == k + 1 && m.chunk == Nil)
            case Give(m, t) => out == Text(t) && out != EMPTY && k == |fs| - 1 && m.states == states
                && m.retry == l.retry
                               && m.index == k && m.top == l.top && m.chunk == l.retry
            case Rest(m) => out == EMPTY && k == l.top && m.states == states && m.index == k && m.top == k
                && m.retry == l.retry
            case Done(m) => out.Nil? && k == l.top == |fs| - 1 && m.states == states && m.index == k && m.top == k
                            && m.retry == l.retry
            case Error => out.Nil? && k > l.top
  {
    hide Control, Related, Complete, Flows;
  }

  // ----- sources

  const BLOCKSIZE := 2048

  /** source.string; the position counts from zero. */
  class StringSource {
    const s: string
    var i: nat

    constructor (s: string)
      ensures this.s == s && i == 0
    {
      this.s, i := s, 0;
    }

    ghost function Read(): string
      reads this
    {
      s[..Cut(i)]
    }

    /** string.sub does not go past the end. */
    function Cut(i: nat): nat { if i < |s| then i else |s| }

    method Call() returns (chunk: Chunk)
      modifies this
      ensures i == old(i) + BLOCKSIZE && chunk != EMPTY && Read() == Taken(old(Read()), chunk)
      ensures chunk.Nil? <==> old(i) >= |s|
      ensures chunk.Nil? ==> Read() == s
    {
      var text := s[Cut(i)..Cut(i + BLOCKSIZE)];
      assert s[..Cut(i + BLOCKSIZE)] == s[..Cut(i)] + text;
      i := i + BLOCKSIZE;
      chunk := if text != "" then Text(text) else Nil;
    }
  }

  datatype Mode = Feeding | Eating

  /** The closure that source.chain returns, on a string source. */
  class SourceChain<!S(!new)> {
    const src: StringSource
    const f: Chain<S>
    var lastIn: Chunk
    var lastOut: Chunk
    var mode: Mode

    ghost predicate Valid()
      reads this, src, f
    {
      && f.Valid() && f.Consumed() == src.Read()
      && (f.phase.Ending? || f.phase.Finished? ==> src.Read() == src.s)
      && match f.phase
         case Drained => mode.Feeding? && lastIn.Text? && lastOut.Text?
         case Full => mode.Eating? && lastIn == EMPTY && lastOut.Text?
         case Ending => mode.Eating? && lastIn.Nil? && lastOut.Text?
         case Finished => lastOut.Nil?
    }

    constructor (src: StringSource, f: Chain<S>)
      requires f.Valid() && f.phase.Drained? && f.Consumed() == "" && src.i == 0
      ensures Valid() && this.src == src && this.f == f && lastOut.Text?
    {
      this.src, this.f, lastIn, lastOut, mode := src, f, EMPTY, EMPTY, Feeding;
    }

    /** How much of the string is still to be read, and the end of it. */
    ghost function Unread(): nat
      reads this, src, f
    {
      if f.phase.Ending? || f.phase.Finished? then 0 else 1 + |src.s| - src.Cut(src.i)
    }

    /** One chunk of the filtered text, or nil after all of it. */
    method Call() returns (out: Chunk)
      requires Valid() && lastOut.Text?
      modifies this, src, f
      ensures Valid() && out != EMPTY && f.Emitted() == Taken(old(f.Emitted()), out)
      ensures if out.Nil? then lastOut.Nil? && f.Emitted() == Composed(f.fs, |f.fs|, src.s) else lastOut.Text?
      ensures out.Text? ==> Unread() < old(Unread()) || (Unread() == old(Unread()) && f.fuel < old(f.fuel))
    {
      hide Composed, Standing, AllObey;
      ghost var b := f.Emitted();
      assert b + "" == b;
      while true
        invariant Valid() && lastOut.Text? && f.Emitted() == b
        invariant Unread() <= old(Unread())
        invariant mode.Feeding? || (Unread() == old(Unread()) && f.fuel == old(f.fuel) && f.phase == old(f.phase))
        decreases Unread(), if mode.Eating? then 1 else 0
      {
        if mode.Feeding? {
          lastIn := src.Call();
          lastOut := f.Call(lastIn);
          if lastOut.Nil? {
            if lastIn.Text? {
              assert false;
            } else {
              return Nil;
            }
          } else if lastOut != EMPTY {
            mode := Eating;
            if lastIn.Text? { lastIn := EMPTY; }
            return lastOut;
          }
        } else {
          lastOut := f.Call(lastIn);
          if lastOut == EMPTY {
            if lastIn == EMPTY {
              mode := Feeding;
            } else {
              assert false;
            }
          } else if lastOut.Nil? {
            if lastIn.Text? {
              assert false;
            } else {
              return Nil;
            }
          } else {
            return lastOut;
          }
        }
      }
    }
  }

  // ----- sinks and pumps

  /** sink.table. */
  class TableSink {
    var t: seq<string>

    constructor ()
      ensures t == []
    {
      t := [];
    }

    method Call(chunk: Chunk)
      modifies this
      ensures t == if chunk.Text? then old(t) + [chunk.s] else old(t)
    {
      if chunk.Text? { t := t + [chunk.s]; }
    }
  }

  lemma ConcatSnoc(t: seq<string>, a: string)
    ensures Concat(t + [a]) == Concat(t) + a
  {
    assert (t + [a])[..|t|] == t;
  }

  /** pump.all with pump.step: everything comes out of the pipe, filtered, and nothing else. */
  method PumpAll<S(!new)>(src: SourceChain<S>, snk: TableSink) returns (ok: bool)
    requires src.Valid() && src.lastOut.Text? && src.f.Emitted() == "" && snk.t == []
    modifies src, src.src, src.f, snk
    ensures ok && Concat(snk.t) == Composed(src.f.fs, |src.f.fs|, src.src.s)
  {
    hide Composed, Concat;
    assert Concat([]) == "" by { ConcatNone(); }
    while true
      invariant src.Valid() && src.lastOut.Text? && Concat(snk.t) == src.f.Emitted()
      decreases src.Unread(), src.f.fuel
    {
      var chunk := src.Call();
      if chunk.Text? { ConcatSnoc(snk.t, chunk.s); }
      snk.Call(chunk);
      if chunk.Nil? { return true; }
    }
  }

  lemma ConcatNone()
    ensures Concat([]) == ""
  {
  }

  /** A string through filters that each keep to the protocol: the text that is stored is their composition. */
  method Filtered<S(!new)>(s: string, fs: seq<Filter<S>>, states: seq<S>) returns (t: seq<string>)
    requires AllObey(fs) && |states| == |fs|
    requires forall k :: 0 <= k < |fs| ==> fs[k].rel(states[k], "", "", Drained)
    ensures Concat(t) == Composed(fs, |fs|, s)
  {
    hide Composed, Concat;
    var src := new StringSource(s);
    var chain := new Chain(fs, states);
    var piped := new SourceChain(src, chain);
    var snk := new TableSink();
    var ok := PumpAll(piped, snk);
    t := snk.t;
  }
}
