/** The parser one byte at a time: the reference that http_parser_execute is proved against. */
module Bytewise {
  import opened Bytes
  import opened Trace
  import opened Machine

  datatype Live = NoMark | Live(kind: DataKind)

  /** The mark that a call sets before its first byte. */
  function Resume(st: State): Live {
    if InUrl(st) then Live(Url)
    else if st.ResStatus? then Live(Status)
    else if st.HeaderField? then Live(Field)
    else if st.HeaderValue? then Live(Value)
    else NoMark
  }

  /** The callbacks of one byte given alone: its actions, then, without an error, the mark left over. */
  function Emit(t: seq<Event>, live: Live, acts: seq<Action>, ch: char, ok: bool): seq<Event>
    decreases |acts|
  {
    if acts == [] then
      if ok && live.Live? then Push(t, Data(live.kind, [ch])) else t
    else match acts[0]
      case Mark(k) => Emit(t, if live.NoMark? then Live(k) else live, acts[1..], ch, ok)
      case Deliver(k) =>
        if live == Live(k) then Emit(Push(t, Data(k, [])), NoMark, acts[1..], ch, ok)
        else Emit(t, live, acts[1..], ch, ok)
      case DeliverThrough(k) =>
        if live == Live(k) then Emit(Push(t, Data(k, [ch])), NoMark, acts[1..], ch, ok)
        else Emit(t, live, acts[1..], ch, ok)
      case Tell(n) => Emit(Push(t, Notify(n)), live, acts[1..], ch, ok)
  }

  datatype Halt = Running | Failed | Exited

  /** `n` bytes are consumed; `scan` says that the last of them was a byte of a value that no matcher follows. */
  datatype Outcome = Outcome(s: Parser, trace: seq<Event>, scan: bool, n: nat, halt: Halt)

  predicate Scanning(s: Parser) { s.state.HeaderValue? && s.hs.General? }

  /** One more byte.  With `lax`, a byte is not checked when the byte before it was scanned too. */
  function Next(lax: bool, o: Outcome, ch: char): Outcome {
    var e := Act(Counted(o.s), ch, !(lax && o.scan));
    var ok := e.s.errno.OK?;
    var t := Emit(o.trace, Resume(o.s.state), e.acts, ch, ok);
    Outcome(e.s, t, lax && Scanning(o.s), if ok then o.n + 1 else o.n,
            if !ok then Failed else if e.exits then Exited else Running)
  }

  function Run(lax: bool, s: Parser, t: seq<Event>, data: string): Outcome
    decreases |data|
  {
    if data == [] then Outcome(s, t, false, 0, Running)
    else
      var o := Run(lax, s, t, data[..|data| - 1]);
      if o.halt.Running? then Next(lax, o, data[|data| - 1]) else o
  }

  lemma RunSnoc(lax: bool, s: Parser, t: seq<Event>, data: string, p: nat)
    requires p < |data|
    ensures Run(lax, s, t, data[..p + 1])
         == (var o := Run(lax, s, t, data[..p]); if o.halt.Running? then Next(lax, o, data[p]) else o)
  {
    assert data[..p + 1][..p] == data[..p];
  }

  lemma {:induction false} RunCount(lax: bool, s: Parser, t: seq<Event>, data: string)
    ensures var o := Run(lax, s, t, data);
            o.n <= |data| && (o.halt.Running? ==> o.n == |data|) && (o.halt.Failed? ==> o.n < |data|)
  {
    if data != [] {
      RunCount(lax, s, t, data[..|data| - 1]);
    }
  }

  /** A run that has stopped is not changed by more bytes. */
  lemma {:induction false} RunStops(lax: bool, s: Parser, t: seq<Event>, data: string, p: nat)
    requires p <= |data|
    requires !Run(lax, s, t, data[..p]).halt.Running?
    ensures Run(lax, s, t, data) == Run(lax, s, t, data[..p])
    decreases |data|
  {
    if p == |data| {
      assert data[..p] == data;
    } else {
      var d := data[..|data| - 1];
      assert d[..p] == data[..p];
      RunStops(lax, s, t, d, p);
    }
  }

  /** The run `o` with the bytes `b` fed to the parser it left. */
  function Resumed(o: Outcome, b: string): Outcome {
    if o.halt.Running? then
      var q := Run(false, o.s, o.trace, b);
      q.(n := o.n + q.n)
    else o
  }

  /** Checking every byte, a run can be cut anywhere. */
  lemma {:induction false} RunAppend(s: Parser, t: seq<Event>, a: string, b: string)
    ensures Run(false, s, t, a + b) == Resumed(Run(false, s, t, a), b)
    decreases |b|
  {
    var o := Run(false, s, t, a);
    RunCount(false, s, t, a);
    if b == [] {
      assert a + b == a;
      StrictScan(s, t, a);
    } else {
      var b' := b[..|b| - 1];
      RunAppend(s, t, a, b');
      assert (a + b)[..|a + b| - 1] == a + b';
    }
  }

  lemma StrictScan(s: Parser, t: seq<Event>, a: string)
    ensures !Run(false, s, t, a).scan
  {
  }

  /** `data` leads from `s` and the merged trace `t` to `s'` and `t'` without an error or an exit. */
  ghost predicate Leads(s: Parser, t: seq<Event>, data: string, s': Parser, t': seq<Event>) {
    Run(false, s, t, data) == Outcome(s', t', false, |data|, Running)
  }

  lemma LeadsOn(s: Parser, t: seq<Event>, a: string, s1: Parser, t1: seq<Event>, b: string, s2: Parser, t2: seq<Event>)
    requires Leads(s, t, a, s1, t1) && Leads(s1, t1, b, s2, t2)
    ensures Leads(s, t, a + b, s2, t2)
  {
    RunAppend(s, t, a, b);
  }
}
