/** What else the parser takes: empty lines before a message, folded values, and a kind found out from the text. */
module Tolerance {
  import opened Bytes
  import opened Trace
  import opened Machine
  import opened Bytewise
  import opened Scans
  import opened Journeys
  import opened HeaderLines

  // ----- empty lines before a message

  predicate IsBreak(ch: char) { ch == CR || ch == LF }

  predicate Breaks(w: string) { forall i :: 0 <= i < |w| ==> IsBreak(w[i]) }

  /** What they tell: nothing before a request and after the end of a connection; before a response each of them
      begins a message. */
  function BreakEvents(st: State, n: nat): seq<Event> {
    if n == 0 || !st.StartRes? then [] else BreakEvents(st, n - 1) + [Notify(MessageBegin)]
  }

  lemma BreakActs(s: Parser, ch: char)
    requires IsBreak(ch)
    ensures s.state.StartReq? || s.state.StartReqOrRes? || s.state.Dead? ==>
              Act(Counted(s), ch, true) == Effect(Counted(s), [], false)
    ensures s.state.StartRes? ==>
              Act(Counted(s), ch, true) == Effect(FreshMessage(Counted(s)), [Tell(MessageBegin)], false)
  {
  }

  lemma GoesBreak(s: Parser, t: seq<Event>, ch: char, slack: nat) returns (s': Parser)
    requires s.errno.OK? && IsBreak(ch) && Room(s, 1, slack)
    requires s.state.StartReq? || s.state.StartRes? || s.state.StartReqOrRes? || s.state.Dead?
    ensures Goes(s, t, [ch], s', t + BreakEvents(s.state, 1), slack)
    ensures s'.errno.OK? && s'.state == s.state && s'.kind == s.kind && s'.nread <= s.nread + 1
  {
    BreakActs(s, ch);
    hide Act, IsHeaderChar;
    s' := if s.state.StartRes? then FreshMessage(Counted(s)) else Counted(s);
    assert BreakEvents(s.state, 1) == if s.state.StartRes? then [Notify(MessageBegin)] else [] by {
      assert BreakEvents(s.state, 0) == [];
    }
    assert t + [] == t && [Tell(MessageBegin)][1..] == [];
    GoesByte(s, t, ch, slack);
  }

  lemma {:induction false} GoesBreaks(s: Parser, t: seq<Event>, w: string, slack: nat) returns (s': Parser)
    requires s.errno.OK? && Breaks(w) && Room(s, |w|, slack)
    requires s.state.StartReq? || s.state.StartRes? || s.state.StartReqOrRes? || s.state.Dead?
    ensures Goes(s, t, w, s', t + BreakEvents(s.state, |w|), slack)
    ensures s'.errno.OK? && s'.state == s.state && s'.kind == s.kind && s'.nread <= s.nread + |w|
    decreases |w|
  {
    hide Goes, IsBreak;
    if w == [] {
      s' := s;
      GoesNowhere(s, t, slack);
      assert t + BreakEvents(s.state, 0) == t;
    } else {
      var n := |w| - 1;
      var s1 := GoesBreaks(s, t, w[..n], slack);
      s' := GoesBreak(s1, t + BreakEvents(s.state, n), w[n], slack);
      OneBreak(t, s.state, n);
      assert w == w[..n] + [w[n]];
      GoesOn(s, t, w[..n], s1, t + BreakEvents(s.state, n), [w[n]], s', t + BreakEvents(s.state, |w|), slack);
    }
  }

  lemma OneBreak(t: seq<Event>, st: State, n: nat)
    ensures t + BreakEvents(st, n) + BreakEvents(st, 1) == t + BreakEvents(st, n + 1)
  {
    assert BreakEvents(st, 0) == [];
    assert BreakEvents(st, 1) == if st.StartRes? then [Notify(MessageBegin)] else [];
  }

  // ----- folded values

  lemma {:induction false} GoesMore(s: Parser, t: seq<Event>, v: string, w: string, slack: nat)
    requires s.errno.OK? && s.state.HeaderValue? && s.hs.General? && IsValue(w) && Room(s, |w|, slack)
    ensures Goes(s, Push(t, Data(Value, v)), w, s.(nread := s.nread + |w|), Push(t, Data(Value, v + w)), slack)
  {
    hide Goes, IsValueChar, Push;
    if w == [] {
      assert v + w == v;
      GoesNowhere(s, Push(t, Data(Value, v)), slack);
    } else {
      var n := |w| - 1;
      var d := w[..n];
      GoesMore(s, t, v, d, slack);
      var s1, t1 := s.(nread := s.nread + n), Push(t, Data(Value, v + d));
      InValue(s1, t1, w[n], slack);
      PushTwice(t, Value, v + d, [w[n]]);
      assert v + d + [w[n]] == v + w && w == d + [w[n]];
      GoesOn(s, Push(t, Data(Value, v)), d, s1, t1, [w[n]], s1.(nread := s1.nread + 1), Push(t, Data(Value, v + w)),
          slack);
    }
  }

  lemma FoldActs(s: Parser, b: char)
    requires s.state.HeaderValueLws? && IsBlank(b)
    ensures s.hs.General? ==>
              Act(Counted(s), b, true) == Effect(Counted(s).(state := HeaderValue, index := 0), [Mark(Value)], false)
    ensures s.hs.ContentLengthName? ==> Act(Counted(s), b, true).s.errno.InvalidContentLength?
  {
    ActIs(Counted(s), b, true);
    hide Act;
  }

  /** A line that begins with a blank goes on with the value before it, blank and all. */
  lemma GoesFold(s: Parser, t: seq<Event>, v: string, b: char, w: string, slack: nat)
    requires s.errno.OK? && s.state.HeaderValueLws? && s.hs.General? && IsBlank(b) && IsValue(w)
    requires Room(s, |w| + 3, slack)
    ensures Goes(s, Push(t, Data(Value, v)), [b] + w + CRLF, s.(index := 0, nread := s.nread + |w| + 3),
                 Push(t, Data(Value, v + [b] + w)), slack)
  {
    hide Act, Goes, IsHeaderChar, IsBlank, Push;
    var u := Push(t, Data(Value, v));
    var s1 := s.(state := HeaderValue, index := 0, nread := s.nread + 1);
    var s2 := s1.(nread := s1.nread + |w|);
    FoldActs(s, b);
    assert [Mark(Value)][1..] == [];
    PushTwice(t, Value, v, [b]);
    GoesByte(s, u, b, slack);
    GoesMore(s1, t, v + [b], w, slack);
    GoesOn(s, u, [b], s1, Push(t, Data(Value, v + [b])), w, s2, Push(t, Data(Value, v + [b] + w)), slack);
    GoesValueEnd(s2, t, v + [b] + w, slack);
    GoesOn(s, u, [b] + w, s2, Push(t, Data(Value, v + [b] + w)), CRLF,
           s2.(state := HeaderValueLws, nread := s2.nread + 2), Push(t, Data(Value, v + [b] + w)), slack);
  }

  /** A Content-Length is not folded. */
  lemma FoldedLengthRefused(s: Parser, t: seq<Event>, b: char, rest: string)
    requires s.errno.OK? && s.state.HeaderValueLws? && s.hs.ContentLengthName? && IsBlank(b)
    ensures var o := Run(false, s, t, [b] + rest); o.halt.Failed? && o.n == 0 && o.s.errno.InvalidContentLength?
  {
    FoldActs(s, b);
    hide Act, Emit, IsBlank;
    assert [b][..0] == [];
    RunAppend(s, t, [b], rest);
  }

  // ----- either kind

  /** A parser of either kind goes on as one for responses after "HT", as one for requests after any other first
      character than H, or after "HE". */
  lemma EitherFinds(t: seq<Event>, lenient: bool, w: string, rest: string)
    requires w == "HT" || w == "HE" || (|w| == 1 && w[0] != 'H' && !IsBreak(w[0]))
    ensures Run(false, Init(Both, lenient), t, w + rest)
         == Run(false, Init(if w == "HT" then Response else Kind.Request, lenient), t, w + rest)
  {
    var k := if w == "HT" then Response else Kind.Request;
    if |w| == 1 { FirstAlike(t, lenient, w[0]); } else { SecondAlike(t, lenient, w[1]); }
    hide Run;
    assert |w| == 1 ==> w == [w[0]];
    assert |w| == 2 ==> w == ['H'] + [w[1]];
    RunAppend(Init(Both, lenient), t, w, rest);
    RunAppend(Init(k, lenient), t, w, rest);
  }

  lemma RunOne(s: Parser, t: seq<Event>, ch: char)
    ensures Run(false, s, t, [ch]) == Next(false, Outcome(s, t, false, 0, Running), ch)
  {
    hide Next;
    assert [ch][..0] == [];
  }

  /** The same action at the same place. */
  lemma NextAlike(o: Outcome, p: Outcome, ch: char)
    requires Act(Counted(o.s), ch, true) == Act(Counted(p.s), ch, true) && Resume(o.s.state) == Resume(p.s.state)
    requires o.trace == p.trace && o.n == p.n
    ensures Next(false, o, ch) == Next(false, p, ch)
  {
    hide Act, Emit, Resume, Counted;
  }

  lemma FirstActs(lenient: bool, ch: char)
    requires ch != 'H' && !IsBreak(ch)
    ensures var a, b := Init(Both, lenient), Init(Kind.Request, lenient);
            Act(Counted(a), ch, true) == Act(Counted(b), ch, true) && Resume(a.state) == Resume(b.state)
  {
    hide FirstMethod, IsAlpha;
  }

  lemma FirstAlike(t: seq<Event>, lenient: bool, ch: char)
    requires ch != 'H' && !IsBreak(ch)
    ensures Run(false, Init(Both, lenient), t, [ch]) == Run(false, Init(Kind.Request, lenient), t, [ch])
  {
    var a, b := Init(Both, lenient), Init(Kind.Request, lenient);
    FirstActs(lenient, ch);
    hide Act, Resume, Counted, Init, Next, Run, IsBreak;
    RunOne(a, t, ch);
    RunOne(b, t, ch);
    NextAlike(Outcome(a, t, false, 0, Running), Outcome(b, t, false, 0, Running), ch);
  }

  /** After the H. */
  function AfterH(kind: Kind, lenient: bool): Parser {
    var s := FreshMessage(Init(Both, lenient)).(nread := 1);
    match kind
    case Both => s.(state := ResOrRespH)
    case Response => s.(kind := Response, state := ResH)
    case Request => s.(kind := Kind.Request, state := ReqMethod, verb := HEAD, index := 1)
  }

  lemma HActs(lenient: bool, kind: Kind)
    ensures Act(Counted(Init(kind, lenient)), 'H', true) == Effect(AfterH(kind, lenient), [Tell(MessageBegin)], false)
            && AfterH(kind, lenient).errno.OK? && Resume(Init(kind, lenient).state).NoMark?
  {
  }

  lemma GoesH(t: seq<Event>, lenient: bool, kind: Kind)
    ensures Run(false, Init(kind, lenient), t, ['H'])
         == Outcome(AfterH(kind, lenient), Emit(t, NoMark, [Tell(MessageBegin)], 'H', true), false, 1, Running)
  {
    HActs(lenient, kind);
    hide Act, AfterH, Counted, Emit, Resume, Init, Run;
    RunOne(Init(kind, lenient), t, 'H');
  }

  lemma SecondT(s: Parser)
    ensures s.state.ResOrRespH? ==> Act(s, 'T', true) == Goto(s.(kind := Response), ResHT)
    ensures s.state.ResH? ==> Act(s, 'T', true) == Goto(s, ResHT)
  {
  }

  lemma SecondE(s: Parser)
    ensures s.state.ResOrRespH? ==>
              Act(s, 'E', true) == Goto(s.(kind := Kind.Request, verb := HEAD, index := 2), ReqMethod)
    ensures s.state.ReqMethod? && s.verb == HEAD && s.index == 1 ==> Act(s, 'E', true) == Stay(s.(index := 2))
  {
    assert At(MethodString(HEAD), 1) == 'E';
  }

  lemma AfterHs(lenient: bool)
    ensures var a := AfterH(Both, lenient);
            && a.state.ResOrRespH? && AfterH(Response, lenient) == a.(kind := Response, state := ResH)
            && AfterH(Kind.Request, lenient) == a.(kind := Kind.Request, state := ReqMethod, verb := HEAD, index := 1)
  {
    hide Init, FreshMessage;
  }

  lemma CountedAlike(s: Parser)
    requires s.state.ResOrRespH? || s.state.ResH? || s.state.ReqMethod?
    ensures Counted(s) == s.(nread := s.nread + 1) && Resume(s.state).NoMark?
  {
  }

  lemma HIsAlike(lenient: bool, ch: char)
    requires ch == 'T' || ch == 'E'
    ensures var a, b := AfterH(Both, lenient), AfterH(if ch == 'T' then Response else Kind.Request, lenient);
            Act(Counted(a), ch, true) == Act(Counted(b), ch, true) && Resume(a.state) == Resume(b.state)
  {
    var a, b := AfterH(Both, lenient), AfterH(if ch == 'T' then Response else Kind.Request, lenient);
    AfterHs(lenient);
    hide Act, AfterH, Counted, Resume;
    CountedAlike(a);
    CountedAlike(b);
    SecondT(Counted(a));
    SecondT(Counted(b));
    SecondE(Counted(a));
    SecondE(Counted(b));
  }

  lemma RunTwo(s: Parser, t: seq<Event>, ch: char)
    requires Run(false, s, t, ['H']).halt.Running?
    ensures Run(false, s, t, ['H'] + [ch]) == Next(false, Run(false, s, t, ['H']), ch)
  {
    var w := ['H'] + [ch];
    assert w[..1] == ['H'] && w[..2] == w;
    hide Next, Run;
    RunSnoc(false, s, t, w, 1);
  }

  lemma SecondAlike(t: seq<Event>, lenient: bool, ch: char)
    requires ch == 'T' || ch == 'E'
    ensures Run(false, Init(Both, lenient), t, ['H'] + [ch])
         == Run(false, Init(if ch == 'T' then Response else Kind.Request, lenient), t, ['H'] + [ch])
  {
    hide *;
    var k := if ch == 'T' then Response else Kind.Request;
    GoesH(t, lenient, Both);
    GoesH(t, lenient, k);
    HIsAlike(lenient, ch);
    RunTwo(Init(Both, lenient), t, ch);
    RunTwo(Init(k, lenient), t, ch);
    NextAlike(Run(false, Init(Both, lenient), t, ['H']), Run(false, Init(k, lenient), t, ['H']), ch);
  }
}
