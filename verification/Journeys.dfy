/** Runs over known texts, piece by piece, with the conditions under which the parser may get them in any pieces. */
module Journeys {
  import opened Bytes
  import opened Trace
  import opened Machine
  import opened Bytewise
  import opened Marks
  import opened Scans
  import opened Feeding

  /** `data` leads from `s` and `t` to `s'` and `t'`, no value byte needs the skip to be harmless, and no header byte
      comes within `slack` of the limit. */
  ghost predicate Goes(s: Parser, t: seq<Event>, data: string, s': Parser, t': seq<Event>, slack: nat) {
    Leads(s, t, data, s', t') && Clean(s, t, data) && HeadersFit(s, t, data, slack)
  }

  predicate Room(s: Parser, bytes: nat, slack: nat) { s.nread + bytes + slack <= MAX_HEADER_SIZE }

  lemma GoesNowhere(s: Parser, t: seq<Event>, slack: nat)
    ensures Goes(s, t, [], s, t, slack)
  {
  }

  lemma GoesByte(s: Parser, t: seq<Event>, ch: char, slack: nat)
    requires var e := Act(Counted(s), ch, true); e.s.errno.OK? && !e.exits
    requires ParsingHeader(s.state) ==> Room(s, 1, slack)
    requires Scanning(s) ==> s.lenient || IsHeaderChar(ch)
    ensures var e := Act(Counted(s), ch, true);
            Goes(s, t, [ch], e.s, Emit(t, Resume(s.state), e.acts, ch, true), slack)
  {
    hide Act, Emit, Resume, IsHeaderChar;
    assert Run(false, s, t, []) == Outcome(s, t, false, 0, Running);
    assert [ch][..0] == [];
    assert Run(false, s, t, [ch]) == Next(false, Outcome(s, t, false, 0, Running), ch);
  }

  lemma GoesOn(s: Parser, t: seq<Event>, a: string, s1: Parser, t1: seq<Event>, b: string, s2: Parser, t2: seq<Event>,
               slack: nat)
    requires Goes(s, t, a, s1, t1, slack) && Goes(s1, t1, b, s2, t2, slack)
    ensures Goes(s, t, a + b, s2, t2, slack)
  {
    hide Run, IsHeaderChar;
    LeadsOn(s, t, a, s1, t1, b, s2, t2);
    forall q | 0 <= q < |a + b|
      ensures var o := Run(false, s, t, (a + b)[..q]);
              o.halt.Running? ==> (Scanning(o.s) ==> o.s.lenient || IsHeaderChar((a + b)[q]))
                                  && (ParsingHeader(o.s.state) ==> o.s.nread + 1 + slack <= MAX_HEADER_SIZE)
    {
      if q < |a| {
        assert (a + b)[..q] == a[..q];
      } else {
        assert (a + b)[..q] == a + b[..q - |a|];
        RunAppend(s, t, a, b[..q - |a|]);
      }
    }
  }

  /** The bytes of a body before its last one. */
  lemma GoesBody(s: Parser, t: seq<Event>, data: string, slack: nat)
    requires s.errno.OK? && data != [] && InBody(s, |data|)
    ensures Goes(s, t, data, BodyLess(s, |data|), Push(t, Data(Body, data)), slack)
  {
    hide Run;
    assert data[..0] == [] && data[0..|data|] == data && data[..|data|] == data;
    RunEmpty(s, t);
    BodyJump(false, s, t, data, 0, |data|);
    forall q | 0 <= q < |data|
      ensures var o := Run(false, s, t, data[..q]);
              o.halt.Running? ==> !Scanning(o.s) && !ParsingHeader(o.s.state)
    {
      if q > 0 {
        BodyJump(false, s, t, data, 0, q);
        assert |data[0..q]| == q;
      }
    }
  }

  lemma RunEmpty(s: Parser, t: seq<Event>)
    ensures Run(false, s, t, []) == Outcome(s, t, false, 0, Running)
  {
  }

  // ----- one action at a time

  lemma EmitTell(t: seq<Event>, live: Live, n: Note, rest: seq<Action>, ch: char, ok: bool)
    ensures Emit(t, live, [Tell(n)] + rest, ch, ok) == Emit(t + [Notify(n)], live, rest, ch, ok)
  {
    assert ([Tell(n)] + rest)[1..] == rest;
  }

  lemma EmitMark(t: seq<Event>, k: DataKind, rest: seq<Action>, ch: char, ok: bool)
    ensures Emit(t, NoMark, [Mark(k)] + rest, ch, ok) == Emit(t, Live(k), rest, ch, ok)
  {
    assert ([Mark(k)] + rest)[1..] == rest;
  }

  lemma EmitDeliver(t: seq<Event>, k: DataKind, rest: seq<Action>, ch: char, ok: bool)
    ensures Emit(t, Live(k), [Deliver(k)] + rest, ch, ok) == Emit(Push(t, Data(k, [])), NoMark, rest, ch, ok)
  {
    assert ([Deliver(k)] + rest)[1..] == rest;
  }

  lemma EmitThrough(t: seq<Event>, k: DataKind, rest: seq<Action>, ch: char, ok: bool)
    ensures Emit(t, Live(k), [DeliverThrough(k)] + rest, ch, ok) == Emit(Push(t, Data(k, [ch])), NoMark, rest, ch, ok)
  {
    assert ([DeliverThrough(k)] + rest)[1..] == rest;
  }

  lemma EmitNothing(t: seq<Event>, ch: char, ok: bool)
    ensures Emit(t, NoMark, [], ch, ok) == t
  {
  }
}
