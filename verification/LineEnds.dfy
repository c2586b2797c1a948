/** A bare LF ends a line as CR LF does. */
module LineEnds {
  import opened Bytes
  import opened Trace
  import opened Machine
  import opened Bytewise
  import opened Scans
  import opened Splitting
  import opened Journeys
  import opened HeaderLines

  /** The states in which a line of a head may end: all but those within a method, the beginning of a URL or a header
      name. */
  predicate EndsLine(st: State) {
    st.ResStatusCode? || st.ResStatusStart? || st.ResStatus? || st.ReqHttpEnd? || (InUrl(st) && st !in URL_PREFIX)
    || st.HeaderFieldStart? || st.HeaderValueDiscardWs? || st.HeaderValue? || st.HeaderValueLws?
    || st.HeaderValueDiscardLws?
  }

  /** Actions after which no mark is set. */
  predicate Settles(live: Live, acts: seq<Action>) {
    || (live.NoMark? && acts == [])
    || (live.Live? && acts == [Deliver(live.kind)])
    || (live.NoMark? && |acts| == 2 && acts[0].Mark? && acts[1] == Deliver(acts[0].kind))
  }

  lemma SettledFirst(t: seq<Event>, live: Live, acts: seq<Action>, rest: seq<Action>, a: char, b: char, ok: bool)
    requires Settles(live, acts)
    ensures Emit(t, live, acts + rest, b, ok) == Emit(Emit(t, live, acts, a, true), NoMark, rest, b, ok)
  {
    if acts == [] {
      assert acts + rest == rest;
    } else if live.Live? {
      assert acts == [Deliver(live.kind)] + [];
      EmitDeliver(t, live.kind, [], a, true);
      EmitDeliver(t, live.kind, rest, b, ok);
    } else {
      var k := acts[0].kind;
      assert acts == [Mark(k)] + ([Deliver(k)] + []) && acts + rest == [Mark(k)] + ([Deliver(k)] + rest);
      EmitMark(t, k, [Deliver(k)] + [], a, true);
      EmitDeliver(t, k, [], a, true);
      EmitMark(t, k, [Deliver(k)] + rest, b, ok);
      EmitDeliver(t, k, rest, b, ok);
    }
  }

  /** LF does at once what CR and LF do in turn. */
  predicate Joins(s: Parser) {
    var e1 := Act(Counted(s), CR, true);
    var e2, e := Act(Counted(e1.s), LF, true), Act(Counted(s), LF, true);
    && e1.s.errno.OK? && !e1.exits && Resume(e1.s.state).NoMark? && Settles(Resume(s.state), e1.acts)
    && e.acts == e1.acts + e2.acts && e.exits == e2.exits && e.s == e2.s.(nread := e.s.nread)
  }

  /** The state after the LF of a line whose CR is read. */
  function Next(st: State): State
    requires st in ALMOST
  {
    if st.HeaderAlmostDone? then HeaderValueLws
    else if st.HeaderValueDiscardWsAlmostDone? then HeaderValueDiscardLws
    else HeaderFieldStart
  }

  const ALMOST := {ResLineAlmostDone, ReqLineAlmostDone, HeaderAlmostDone, HeaderValueDiscardWsAlmostDone}

  lemma AlmostActs(c: Parser)
    requires c.state in ALMOST
    ensures Act(c, LF, true) == Effect(c.(state := Next(c.state)), [], false) && Resume(c.state).NoMark?
  {
  }

  /** What CR and LF do in a line, with the same actions before the state is left. */
  ghost predicate Ends(c: Parser, r: Parser, st: State, acts: seq<Action>) {
    && st in ALMOST && Act(c, CR, true) == Effect(r.(state := st), acts, false)
    && Act(c, LF, true) == Effect(r.(state := Next(st)), acts, false)
  }

  lemma EndsJoins(s: Parser, r: Parser, st: State, acts: seq<Action>)
    requires Ends(Counted(s), r, st, acts) && r.errno.OK? && Settles(Resume(s.state), acts)
    ensures Joins(s)
  {
    hide Act, Resume;
    var m := r.(state := st);
    AlmostActs(Counted(m));
    assert Resume(m.state).NoMark? by { AlmostActs(m); }
    assert acts + [] == acts;
  }

  lemma StatusActs(c: Parser)
    ensures c.state.ResStatus? ==> Ends(c, c, ResLineAlmostDone, [Deliver(Status)])
    ensures c.state.ResStatusStart? || c.state.ResStatusCode? ==>
              Ends(c, c.(index := 0), ResLineAlmostDone, [Mark(Status), Deliver(Status)])
    ensures c.state.ReqHttpEnd? ==> Ends(c, c, ReqLineAlmostDone, [])
  {
    hide Digit, IsNum;
    assert !IsNum(CR) && !IsNum(LF) by { NoDigits(); }
    assert [Mark(Status)] + [Deliver(Status)] == [Mark(Status), Deliver(Status)];
  }

  lemma NoDigits()
    ensures !IsNum(CR) && !IsNum(LF)
  {
  }

  lemma UrlActs(c: Parser)
    requires InUrl(c.state) && c.state !in URL_PREFIX
    ensures Ends(c, c.(major := 0, minor := 9), ReqLineAlmostDone, [Deliver(Url)])
  {
    ActIs(c, CR, true);
    ActIs(c, LF, true);
    hide Act, ParseUrlChar;
  }

  lemma ValueActs(c: Parser)
    ensures c.state.HeaderValue? ==> Ends(c, c, HeaderAlmostDone, [Deliver(Value)])
    ensures c.state.HeaderValueDiscardWs? ==> Ends(c, c, HeaderValueDiscardWsAlmostDone, [])
  {
    ActIs(c, CR, true);
    ActIs(c, LF, true);
    hide Act, ActValueStart, ValueChar, IsHeaderChar;
    assert [Deliver(Value)] + [] == [Deliver(Value)];
  }

  lemma LineJoins(s: Parser)
    requires s.errno.OK? && EndsLine(s.state)
    requires !s.state.HeaderFieldStart? && !s.state.HeaderValueLws? && !s.state.HeaderValueDiscardLws?
    ensures Joins(s)
  {
    var c := Counted(s);
    StatusActs(c);
    if InUrl(c.state) { UrlActs(c); }
    ValueActs(c);
    hide Ends, Joins;
    if s.state.ResStatus? { EndsJoins(s, c, ResLineAlmostDone, [Deliver(Status)]); }
    else if s.state.ResStatusStart? || s.state.ResStatusCode? {
      EndsJoins(s, c.(index := 0), ResLineAlmostDone, [Mark(Status), Deliver(Status)]);
    }
    else if s.state.ReqHttpEnd? { EndsJoins(s, c, ReqLineAlmostDone, []); }
    else if InUrl(s.state) { EndsJoins(s, c.(major := 0, minor := 9), ReqLineAlmostDone, [Deliver(Url)]); }
    else if s.state.HeaderValue? { EndsJoins(s, c, HeaderAlmostDone, [Deliver(Value)]); }
    else { EndsJoins(s, c, HeaderValueDiscardWsAlmostDone, []); }
  }

  lemma HeadCount(m: Parser)
    requires m.state.HeadersAlmostDone?
    ensures var e, e2 := ActHeadersAlmostDone(m, LF), ActHeadersAlmostDone(m.(nread := m.nread + 1), LF);
            e.acts == e2.acts && e.exits == e2.exits && e.s == e2.s.(nread := e.s.nread)
  {
    ActIs(m, LF, true);
    ActIs(m.(nread := m.nread + 1), LF, true);
    ActSame(m, LF, true, m.nread + 1);
    hide Act, ActHeadersAlmostDone;
  }

  lemma StartJoins(s: Parser)
    requires s.errno.OK? && s.state.HeaderFieldStart?
    ensures Joins(s)
  {
    var c := Counted(s);
    var m := c.(state := HeadersAlmostDone);
    ActIs(c, CR, true);
    ActIs(c, LF, true);
    hide Act, Token;
    assert Act(c, LF, true) == ActHeadersAlmostDone(m, LF);
    hide ActFieldStart, ActHeadersAlmostDone;
    HeadCount(m);
    BlankActs(m);
    BlankActs(Counted(m));
  }

  lemma LwsActs(c: Parser)
    requires c.state.HeaderValueLws? || c.state.HeaderValueDiscardLws?
    ensures var m, first := CommitValue(c).(state := HeadersAlmostDone),
                            if c.state.HeaderValueLws? then [] else [Mark(Value), Deliver(Value)];
            && Act(c, CR, true) == Effect(m, first, false)
            && Act(c, LF, true) == After(first, ActHeadersAlmostDone(m, LF))
  {
    ActIs(c, CR, true);
    ActIs(c, LF, true);
    hide Act, ActHeadersAlmostDone, Token, CommitValue;
    assert [Mark(Value), Deliver(Value)] + [] == [Mark(Value), Deliver(Value)];
  }

  lemma BlankActs(m: Parser)
    requires m.state.HeadersAlmostDone?
    ensures Act(m, LF, true) == ActHeadersAlmostDone(m, LF) && Resume(m.state).NoMark?
    ensures Counted(m) == m.(nread := m.nread + 1)
  {
    ActIs(m, LF, true);
    hide Act;
  }

  lemma LwsJoins(s: Parser)
    requires s.errno.OK? && (s.state.HeaderValueLws? || s.state.HeaderValueDiscardLws?)
    ensures Joins(s)
  {
    var c := Counted(s);
    var m := CommitValue(c).(state := HeadersAlmostDone);
    assert m.errno.OK?;
    LwsActs(c);
    hide CommitValue;
    HeadCount(m);
    BlankActs(m);
    BlankActs(Counted(m));
    hide Act, ActHeadersAlmostDone;
    assert [] + ActHeadersAlmostDone(m, LF).acts == ActHeadersAlmostDone(m, LF).acts;
  }

  /** The callbacks are the same, and the parser but for the header count; an error is the same, at the LF. */
  lemma LfIsCrlf(s: Parser, t: seq<Event>)
    requires s.errno.OK? && EndsLine(s.state)
    ensures var o, q := Run(false, s, t, CRLF), Run(false, s, t, [LF]);
            q.s == o.s.(nread := q.s.nread) && q.trace == o.trace && q.halt == o.halt && o.n == q.n + 1
  {
    assert Joins(s) by {
      if s.state.HeaderFieldStart? { StartJoins(s); }
      else if s.state.HeaderValueLws? || s.state.HeaderValueDiscardLws? { LwsJoins(s); }
      else { LineJoins(s); }
    }
    hide Act, Emit, Resume, EndsLine;
    var e1, e := Act(Counted(s), CR, true), Act(Counted(s), LF, true);
    var e2 := Act(Counted(e1.s), LF, true);
    SettledFirst(t, Resume(s.state), e1.acts, e2.acts, CR, LF, e2.s.errno.OK?);
    assert [LF][..0] == [] && CRLF[..1] == [CR] && [CR][..0] == [];
  }

  /** So it is anywhere in a stream, whatever follows. */
  lemma LfForCrlf(s: Parser, t: seq<Event>, a: string, b: string)
    requires var o := Run(false, s, t, a); o.halt.Running? && o.s.errno.OK? && EndsLine(o.s.state)
    ensures var o, q := Run(false, s, t, a + CRLF + b), Run(false, s, t, a + [LF] + b);
            q.s == o.s.(nread := q.s.nread) && q.trace == o.trace && q.halt == o.halt && o.n == q.n + 1
  {
    hide Run, EndsLine;
    var o := Run(false, s, t, a);
    LfIsCrlf(o.s, o.trace);
    var p, q := Run(false, o.s, o.trace, CRLF), Run(false, o.s, o.trace, [LF]);
    RunAppend(s, t, a, CRLF);
    RunAppend(s, t, a, [LF]);
    RunAppend(s, t, a + CRLF, b);
    RunAppend(s, t, a + [LF], b);
    if q.s.nread <= p.s.nread {
      RunAhead(false, q.s, q.trace, b, p.s.nread - q.s.nread);
    } else {
      RunAhead(false, p.s, p.trace, b, q.s.nread - p.s.nread);
    }
  }
}
