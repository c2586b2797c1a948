/** The length that a program is told at the end of the headers is the one that the headers told it before. */
module Announced {
  import opened Bytes
  import opened Trace
  import opened Machine
  import opened Bytewise
  import opened Invariant
  import opened HeaderNames
  import opened Lengths
  import opened Limits
  import opened HttpParser

  // ----- what the callbacks say

  datatype MaybeLength = Unknown | Known(n: nat)

  datatype Last = Other | AName | AValue

  /** The last name, its value so far, what came last, the length said by earlier headers of the message, and whether
      every announcement so far was right. */
  datatype Heard = Heard(name: string, value: string, last: Last, before: MaybeLength, right: bool)

  /** A value without its blanks. */
  function Blankless(v: string): string {
    if v == [] then [] else Blankless(v[..|v| - 1]) + if v[|v| - 1] == ' ' then [] else [v[|v| - 1]]
  }

  predicate AllNum(ds: string) { forall i :: 0 <= i < |ds| ==> IsNum(ds[i]) }

  /** The number that the digits of a value make, blanks skipped. */
  function NumberIn(v: string): nat { if AllNum(Blankless(v)) then DecFrom(0, Blankless(v)) else 0 }

  predicate IsLengthName(name: string) { LowerName(name) == CONTENT_LENGTH }

  /** The length said by the headers of the message so far: that of a Content-Length with a value. */
  function Length(h: Heard): MaybeLength {
    if h.last.AValue? && IsLengthName(h.name) && h.value != [] then Known(NumberIn(h.value)) else h.before
  }

  /** What on_headers_complete can read when the headers say `m`. */
  function Announce(m: MaybeLength): nat { match m case Unknown => ULLONG_MAX case Known(n) => n }

  function Hear(h: Heard, e: Event): Heard {
    match e
    case Notify(MessageBegin) => Heard([], [], Other, Unknown, h.right)
    case Notify(HeadersComplete(n, _, _)) =>
      h.(before := Length(h), last := Other, right := h.right && n == Announce(Length(h)))
    case Data(Field, b) =>
      if h.last.AName? then h.(name := h.name + b) else h.(before := Length(h), name := b, last := AName)
    case Data(Value, b) =>
      if h.last.AValue? then h.(value := h.value + b) else h.(value := b, last := AValue)
    case _ => h.(before := Length(h), last := Other)
  }

  const SILENCE := Heard([], [], Other, Unknown, true)

  function HearAll(t: seq<Event>): Heard { if t == [] then SILENCE else Hear(HearAll(t[..|t| - 1]), t[|t| - 1]) }

  lemma HearTwice(h: Heard, k: DataKind, a: string, b: string)
    ensures Hear(Hear(h, Data(k, a)), Data(k, b)) == Hear(h, Data(k, a + b))
  {
    if k == Field && h.last.AName? { assert h.name + a + b == h.name + (a + b); }
    if k == Value && h.last.AValue? { assert h.value + a + b == h.value + (a + b); }
  }

  lemma HearSnoc(t: seq<Event>, e: Event)
    ensures HearAll(t + [e]) == Hear(HearAll(t), e)
  {
    assert (t + [e])[..|t|] == t;
  }

  /** How a name or a value is cut into callbacks makes no difference. */
  lemma HearPush(t: seq<Event>, e: Event)
    ensures HearAll(Push(t, e)) == Hear(HearAll(t), e)
  {
    hide Hear;
    if e.Data? && t != [] && t[|t| - 1].Data? && t[|t| - 1].kind == e.kind {
      var init, last := t[..|t| - 1], t[|t| - 1];
      HearSnoc(init, Data(e.kind, last.bytes + e.bytes));
      HearTwice(HearAll(init), e.kind, last.bytes, e.bytes);
    } else {
      HearSnoc(t, e);
    }
  }

  lemma {:induction false} HearMerge(calls: seq<Event>)
    ensures HearAll(Merge(calls)) == HearAll(calls)
  {
    hide Hear, Push;
    if calls != [] {
      var n := |calls| - 1;
      HearMerge(calls[..n]);
      HearPush(Merge(calls[..n]), calls[n]);
    }
  }

  /** Every announcement is the length that the headers said before it. */
  predicate Announces(t: seq<Event>) { forall k :: 0 <= k < |t| ==> RightAt(t, k) }

  /** Event `k` is no announcement, or a right one. */
  predicate RightAt(t: seq<Event>, k: nat)
    requires k < |t|
  {
    t[k].Notify? && t[k].note.HeadersComplete? ==> t[k].note.length == Announce(Length(HearAll(t[..k])))
  }

  lemma RightOn(t: seq<Event>, n: nat, k: nat)
    requires k < n <= |t|
    ensures RightAt(t[..n], k) <==> RightAt(t, k)
  {
    assert t[..n][..k] == t[..k];
    hide Length, Announce;
  }

  lemma RightLast(t: seq<Event>)
    requires t != []
    ensures HearAll(t).right <==> HearAll(t[..|t| - 1]).right && RightAt(t, |t| - 1)
  {
    hide Length, Announce;
  }

  lemma {:induction false} RightMeans(t: seq<Event>)
    ensures HearAll(t).right <==> Announces(t)
  {
    hide HearAll, RightAt;
    if t == [] {
      assert HearAll(t).right by { Silence(); }
    } else {
      var n := |t| - 1;
      RightMeans(t[..n]);
      RightLast(t);
      forall k | 0 <= k < n
        ensures RightAt(t[..n], k) <==> RightAt(t, k)
      {
        RightOn(t, n, k);
      }
    }
  }

  lemma Silence()
    ensures HearAll([]) == SILENCE
  {
  }

  // ----- one byte

  /** The callbacks of one byte, as `Emit` makes them. */
  function HearEmit(h: Heard, live: Live, acts: seq<Action>, ch: char, ok: bool): Heard
    decreases |acts|
  {
    if acts == [] then
      if ok && live.Live? then Hear(h, Data(live.kind, [ch])) else h
    else match acts[0]
      case Mark(k) => HearEmit(h, if live.NoMark? then Live(k) else live, acts[1..], ch, ok)
      case Deliver(k) =>
        if live == Live(k) then HearEmit(Hear(h, Data(k, [])), NoMark, acts[1..], ch, ok)
        else HearEmit(h, live, acts[1..], ch, ok)
      case DeliverThrough(k) =>
        if live == Live(k) then HearEmit(Hear(h, Data(k, [ch])), NoMark, acts[1..], ch, ok)
        else HearEmit(h, live, acts[1..], ch, ok)
      case Tell(n) => HearEmit(Hear(h, Notify(n)), live, acts[1..], ch, ok)
  }

  lemma {:induction false} HearsEmit(t: seq<Event>, live: Live, acts: seq<Action>, ch: char, ok: bool)
    ensures HearAll(Emit(t, live, acts, ch, ok)) == HearEmit(HearAll(t), live, acts, ch, ok)
    decreases |acts|
  {
    hide HearAll, Push, Hear;
    if acts == [] {
      if live.Live? { HearPush(t, Data(live.kind, [ch])); }
    } else {
      match acts[0]
      case Mark(k) => HearsEmit(t, if live.NoMark? then Live(k) else live, acts[1..], ch, ok);
      case Deliver(k) =>
        HearPush(t, Data(k, []));
        if live == Live(k) { HearsEmit(Push(t, Data(k, [])), NoMark, acts[1..], ch, ok); }
        else { HearsEmit(t, live, acts[1..], ch, ok); }
      case DeliverThrough(k) =>
        HearPush(t, Data(k, [ch]));
        if live == Live(k) { HearsEmit(Push(t, Data(k, [ch])), NoMark, acts[1..], ch, ok); }
        else { HearsEmit(t, live, acts[1..], ch, ok); }
      case Tell(n) =>
        HearPush(t, Notify(n));
        HearsEmit(Push(t, Notify(n)), live, acts[1..], ch, ok);
    }
  }

  // ----- the parser knows what it has said

  /** Between the first byte of a message and its headers. */
  predicate IsPre(st: State) {
    st in {ResOrRespH, ResH, ResHT, ResHTT, ResHTTP, ResHttpMajor, ResHttpDot, ResHttpMinor, ResHttpEnd,
           ResFirstStatusCode, ResStatusCode, ResStatusStart, ResStatus, ResLineAlmostDone, ReqMethod,
           ReqSpacesBeforeUrl, ReqHttpStart, ReqHttpH, ReqHttpHT, ReqHttpHTT, ReqHttpHTTP, ReqHttpMajor, ReqHttpDot,
           ReqHttpMinor, ReqHttpEnd, ReqLineAlmostDone}
    || InUrl(st)
  }

  /** After a name and before its value. */
  predicate AfterName(st: State) {
    st.HeaderValueDiscardWs? || st.HeaderValueDiscardWsAlmostDone? || st.HeaderValueDiscardLws?
  }

  predicate AtValue(st: State) { st.HeaderValue? || st.HeaderAlmostDone? || st.HeaderValueLws? }

  predicate BetweenLines(st: State) { st.HeaderFieldStart? || st.HeadersAlmostDone? }

  predicate Matches(s: Parser, h: Heard) {
    s.contentLength == Announce(Length(h)) && (s.flags.contentLength <==> Length(h).Known?)
  }

  predicate NameRead(s: Parser, h: Heard) { s.hs.ContentLengthName? <==> IsLengthName(h.name) }

  /** Digits and blanks, a digit first. */
  predicate IsLengthText(v: string) {
    v != [] && IsNum(v[0]) && forall i :: 0 <= i < |v| ==> IsNum(v[i]) || v[i] == ' '
  }

  /** Outside of a trailer part, the parser's length is the one that its callbacks have said. */
  ghost predicate Tells(s: Parser, h: Heard) {
    h.right && (!s.flags.trailing ==> Knows(s, h))
  }

  ghost predicate Knows(s: Parser, h: Heard) {
    && (IsPre(s.state) || BetweenLines(s.state) ==> Matches(s, h) && !h.last.AName?)
    && (s.state.HeaderField? ==>
          Matches(s, h) && h.last.AName? && IsName(h.name) && Standing(s, LowerName(h.name)))
    && (AfterName(s.state) ==> Matches(s, h) && h.last.AName? && NameRead(s, h))
    && (AtValue(s.state) ==>
          Matches(s, h) && h.last.AValue? && NameRead(s, h) && (IsLengthName(h.name) ==> IsLengthText(h.value)))
  }

  // ----- before the headers

  predicate NeutralKind(k: DataKind) { k.Url? || k.Status? || k.Body? }

  predicate NeutralAct(a: Action) {
    match a
    case Mark(k) => NeutralKind(k)
    case Deliver(k) => NeutralKind(k)
    case DeliverThrough(k) => NeutralKind(k)
    case Tell(n) => !n.MessageBegin? && !n.HeadersComplete?
  }

  /** Actions that are not about headers. */
  predicate Neutral(live: Live, acts: seq<Action>) {
    (live.NoMark? || NeutralKind(live.kind)) && forall i :: 0 <= i < |acts| ==> NeutralAct(acts[i])
  }

  lemma {:induction false} NeutralHears(h: Heard, live: Live, acts: seq<Action>, ch: char, ok: bool)
    requires Neutral(live, acts)
    ensures var h' := HearEmit(h, live, acts, ch, ok);
            h'.right == h.right && Length(h') == Length(h) && (!h.last.AName? ==> !h'.last.AName?)
    decreases |acts|
  {
    if acts != [] {
      var rest := acts[1..];
      assert NeutralAct(acts[0]) && forall i :: 0 <= i < |rest| ==> rest[i] == acts[i + 1];
      match acts[0]
      case Mark(k) => NeutralHears(h, if live.NoMark? then Live(k) else live, rest, ch, ok);
      case Deliver(k) =>
        if live == Live(k) { NeutralHears(Hear(h, Data(k, [])), NoMark, rest, ch, ok); }
        else { NeutralHears(h, live, rest, ch, ok); }
      case DeliverThrough(k) =>
        if live == Live(k) { NeutralHears(Hear(h, Data(k, [ch])), NoMark, rest, ch, ok); }
        else { NeutralHears(h, live, rest, ch, ok); }
      case Tell(n) => NeutralHears(Hear(h, Notify(n)), live, rest, ch, ok);
    }
  }

  /** A byte before the headers: nothing that the headers decide changes. */
  ghost predicate PreEffect(s: Parser, e: Effect) {
    && Neutral(NoMark, e.acts) && e.s.contentLength == s.contentLength && e.s.flags == s.flags
    && (e.s.errno.OK? ==> IsPre(e.s.state) || e.s.state.HeaderFieldStart?)
  }

  lemma ExpectPre(s: Parser, ok: bool, err: Errno, st: State)
    requires !err.OK? && (IsPre(st) || st.HeaderFieldStart?)
    ensures PreEffect(s, Expect(s, ok, err, st))
  {
    hide IsPre;
  }

  lemma LinePre(s: Parser, ch: char)
    ensures PreEffect(s, ActMajor(s, ch, ResHttpDot)) && PreEffect(s, ActMajor(s, ch, ReqHttpDot))
    ensures PreEffect(s, ActMinor(s, ch, ResHttpEnd)) && PreEffect(s, ActMinor(s, ch, ReqHttpEnd))
    ensures IsPre(s.state) ==> PreEffect(s, ActReqHttpStart(s, ch)) && PreEffect(s, ActReqHttpEnd(s, ch))
    ensures IsPre(s.state) ==> PreEffect(s, ActResOrRespH(s, ch)) && PreEffect(s, ActFirstStatusCode(s, ch))
  {
    hide IsNum, Digit;
  }

  lemma MethodPre(s: Parser, ch: char)
    requires s.state.ReqMethod?
    ensures PreEffect(s, ActReqMethod(s, ch))
  {
    hide OtherMethod, MethodString, Bytes.At;
  }

  lemma UrlStepPre(s: Parser, from: State, ch: char)
    ensures PreEffect(s, UrlStep(s, from, ch))
  {
    UrlStates(from, ch);
    hide ParseUrlChar;
  }

  lemma UrlPre(s: Parser, ch: char)
    requires IsPre(s.state)
    ensures PreEffect(s, ActUrl(s, ch)) && PreEffect(s, ActUrlPrefix(s, ch)) && PreEffect(s, ActSpacesBeforeUrl(s, ch))
  {
    UrlStepPre(s, s.state, ch);
    UrlStepPre(s, ReqServerStart, ch);
    UrlStepPre(s, ReqSpacesBeforeUrl, ch);
    hide UrlStep, InUrl;
  }

  lemma StatusPre(s: Parser, ch: char)
    requires IsPre(s.state)
    ensures PreEffect(s, ActStatus(s.(state := ResStatus), ch)) && PreEffect(s, ActStatusStart(s, ch))
    ensures PreEffect(s, ActStatusCode(s, ch))
  {
    hide IsNum, Digit;
  }

  lemma ActPre(s: Parser, ch: char, checked: bool)
    requires IsPre(s.state)
    ensures PreEffect(s, Act(s, ch, checked))
  {
    hide ActMajor, ActMinor, ActReqHttpStart, ActReqHttpEnd, ActResOrRespH, ActFirstStatusCode, ActReqMethod, ActUrl,
      ActUrlPrefix, ActSpacesBeforeUrl, ActStatus, ActStatusStart, ActStatusCode, Expect, PreEffect;
    LinePre(s, ch);
    UrlPre(s, ch);
    StatusPre(s, ch);
    if s.state.ReqMethod? { MethodPre(s, ch); }
    match s.state
    case ResH => ExpectPre(s, ch == 'T', Strict, ResHT);
    case ResHT => ExpectPre(s, ch == 'T', Strict, ResHTT);
    case ResHTT => ExpectPre(s, ch == 'P', Strict, ResHTTP);
    case ResHTTP => ExpectPre(s, ch == '/', Strict, ResHttpMajor);
    case ResHttpDot => ExpectPre(s, ch == '.', InvalidVersion, ResHttpMinor);
    case ResHttpEnd => ExpectPre(s, ch == ' ', InvalidVersion, ResFirstStatusCode);
    case ResLineAlmostDone => ExpectPre(s, ch == LF, Strict, HeaderFieldStart);
    case ReqHttpH => ExpectPre(s, ch == 'T', Strict, ReqHttpHT);
    case ReqHttpHT => ExpectPre(s, ch == 'T', Strict, ReqHttpHTT);
    case ReqHttpHTT => ExpectPre(s, ch == 'P', Strict, ReqHttpHTTP);
    case ReqHttpHTTP => ExpectPre(s, ch == '/', Strict, ReqHttpMajor);
    case ReqHttpDot => ExpectPre(s, ch == '.', InvalidVersion, ReqHttpMinor);
    case ReqLineAlmostDone => ExpectPre(s, ch == LF, LfExpected, HeaderFieldStart);
    case ResStatus => assert s.(state := ResStatus) == s;
    case _ =>
  }

  lemma PreKnows(s: Parser, h: Heard)
    requires IsPre(s.state) || BetweenLines(s.state)
    ensures Knows(s, h) <==> Matches(s, h) && !h.last.AName?
  {
    hide Matches;
  }

  /** The callbacks of `e`, and the parser that it leaves, go on as they should. */
  ghost predicate Told(h: Heard, live: Live, e: Effect, ch: char) {
    var h' := HearEmit(h, live, e.acts, ch, e.s.errno.OK?);
    h'.right && (e.s.errno.OK? ==> Tells(e.s, h'))
  }

  lemma PreTold(s: Parser, h: Heard, ch: char, checked: bool)
    requires IsPre(s.state) && Tells(s, h)
    ensures Told(h, Resume(s.state), Act(s, ch, checked), ch)
  {
    ActPre(s, ch, checked);
    var e := Act(s, ch, checked);
    NeutralLive(s.state, e.acts);
    NeutralHears(h, Resume(s.state), e.acts, ch, e.s.errno.OK?);
    PreKnows(s, h);
    if e.s.errno.OK? { PreKnows(e.s, HearEmit(h, Resume(s.state), e.acts, ch, true)); }
    hide Act, HearEmit, Resume, Knows, IsPre, Length;
  }

  lemma NeutralLive(st: State, acts: seq<Action>)
    requires IsPre(st) && Neutral(NoMark, acts)
    ensures Neutral(Resume(st), acts)
  {
    hide InUrl;
  }

  // ----- the first byte

  lemma {:induction false} RightStays(h: Heard, live: Live, acts: seq<Action>, ch: char, ok: bool)
    requires forall i :: 0 <= i < |acts| ==> acts[i].Tell? ==> !acts[i].note.HeadersComplete?
    ensures HearEmit(h, live, acts, ch, ok).right == h.right
    decreases |acts|
  {
    hide Length;
    if acts != [] {
      var rest := acts[1..];
      assert forall i :: 0 <= i < |rest| ==> rest[i] == acts[i + 1];
      match acts[0]
      case Mark(k) => RightStays(h, if live.NoMark? then Live(k) else live, rest, ch, ok);
      case Deliver(k) =>
        if live == Live(k) { RightStays(Hear(h, Data(k, [])), NoMark, rest, ch, ok); }
        else { RightStays(h, live, rest, ch, ok); }
      case DeliverThrough(k) =>
        if live == Live(k) { RightStays(Hear(h, Data(k, [ch])), NoMark, rest, ch, ok); }
        else { RightStays(h, live, rest, ch, ok); }
      case Tell(n) => RightStays(Hear(h, Notify(n)), live, rest, ch, ok);
    }
  }

  predicate IsStart(st: State) { st.StartReq? || st.StartReqOrRes? || st.StartRes? || st.Dead? }

  /** A byte before a message: nothing, or the message begins with nothing said. */
  ghost predicate StartEffect(s: Parser, e: Effect) {
    || (e.acts == [] && (e.s.errno.OK? ==> IsStart(e.s.state)))
    || (e.acts == [Tell(MessageBegin)] && e.s.errno.OK? && (IsPre(e.s.state) || IsStart(e.s.state))
        && e.s.contentLength == ULLONG_MAX && e.s.flags == NO_FLAGS)
  }

  lemma ActStart(s: Parser, ch: char, checked: bool)
    requires IsStart(s.state) && s.errno.OK?
    ensures StartEffect(s, Act(s, ch, checked))
  {
    hide IsAlpha, FirstMethod;
  }

  lemma StartTold(s: Parser, h: Heard, ch: char, checked: bool)
    requires IsStart(s.state) && s.errno.OK? && h.right
    ensures Told(h, NoMark, Act(s, ch, checked), ch)
  {
    ActStart(s, ch, checked);
    hide Act;
    var e := Act(s, ch, checked);
    if e.acts == [Tell(MessageBegin)] {
      assert e.acts[1..] == [];
      BeginKnows(e.s, Hear(h, Notify(MessageBegin)));
    } else {
      IdleKnows(e.s, h);
    }
  }

  lemma BeginKnows(s: Parser, h: Heard)
    requires IsPre(s.state) || IsStart(s.state)
    requires s.contentLength == ULLONG_MAX && s.flags == NO_FLAGS && h.last.Other? && h.before.Unknown?
    ensures Knows(s, h)
  {
    if IsPre(s.state) { PreKnows(s, h); } else { IdleKnows(s, h); }
    hide Knows, IsPre;
  }

  /** States in which the parser knows nothing. */
  predicate IsIdle(st: State) {
    !IsPre(st) && !BetweenLines(st) && !st.HeaderField? && !AfterName(st) && !AtValue(st)
  }

  lemma IdleKnows(s: Parser, h: Heard)
    requires IsIdle(s.state) || IsStart(s.state)
    ensures Knows(s, h)
  {
  }

  // ----- the header lines

  lemma DoneStates(s: Parser, ch: char)
    ensures IsStart(ActMessageDone(s).s.state) && ActMessageDone(s).acts == [Tell(MessageComplete)]
    ensures var e := ActHeadersDone(s, ch);
            (e.acts == [] || e.acts == [Tell(MessageComplete)]) && (e.s.errno.OK? ==> IsIdle(e.s.state))
  {
    hide ShouldKeepAlive, MessageNeedsEof;
  }

  /** The end of the headers, or of the trailer part. */
  lemma EndTold(s: Parser, h: Heard, ch: char)
    requires h.right && (!s.flags.trailing ==> Matches(s, h))
    ensures Told(h, NoMark, ActHeadersAlmostDone(s, ch), ch)
  {
    hide ActMessageDone, ActHeadersDone, Length;
    var e := ActHeadersAlmostDone(s, ch);
    if ch == LF && s.flags.trailing {
      DoneStates(s.(state := MessageDone), ch);
      RightStays(h, NoMark, e.acts, ch, e.s.errno.OK?);
    } else if ch == LF && !(s.flags.chunked && s.flags.contentLength) {
      var upgrade := if s.flags.upgrade && s.flags.connUpgrade then s.kind.Request? || s.status == 101
                     else s.verb == CONNECT;
      var d := ActHeadersDone(s.(state := HeadersDone, upgrade := upgrade), ch);
      DoneStates(s.(state := HeadersDone, upgrade := upgrade), ch);
      var n := HeadersComplete(s.contentLength, s.flags.chunked, upgrade);
      assert e.acts[0] == Tell(n) && e.acts[1..] == d.acts;
      RightStays(Hear(h, Notify(n)), NoMark, d.acts, ch, e.s.errno.OK?);
    }
    if e.s.errno.OK? { IdleKnows(e.s, HearEmit(h, NoMark, e.acts, ch, true)); }
  }

  lemma NameBegins(s: Parser, h: Heard, ch: char)
    requires Matches(s, h) && !h.last.AName? && IsToken(ch)
    ensures var s' := s.(index := 0, state := HeaderField, hs := FirstHeaderState(Token(ch)));
            var h' := Hear(h, Data(Field, [ch])); Knows(s', h') && h'.right == h.right
  {
    hide Token, FirstHeaderState, IsToken, Standing, Length, IsName, LowerName;
    var s' := s.(index := 0, state := HeaderField, hs := FirstHeaderState(Token(ch)));
    FirstChar(s.(state := HeaderField), ch);
    OneName(ch);
    NewName(h, ch);
    MatchesStill(s, s', h, Hear(h, Data(Field, [ch])));
  }

  lemma OneName(ch: char)
    requires IsToken(ch)
    ensures IsName([ch]) && LowerName([ch]) == [Token(ch)]
  {
    assert [ch][..0] == [];
  }

  lemma NewName(h: Heard, ch: char)
    requires !h.last.AName?
    ensures var h' := Hear(h, Data(Field, [ch]));
            Length(h') == Length(h) && h'.right == h.right && h'.name == [ch] && h'.last.AName?
  {
  }

  lemma LineTold(s: Parser, h: Heard, ch: char)
    requires h.right && Matches(s, h) && !h.last.AName? && !s.flags.trailing
    ensures Told(h, NoMark, ActFieldStart(s, ch), ch)
  {
    hide ActHeadersAlmostDone, Matches, Token, FirstHeaderState, Knows, Hear;
    if ch == LF {
      SameLength(s, s.(state := HeadersAlmostDone), h);
      EndTold(s.(state := HeadersAlmostDone), h, ch);
    } else if ch == CR {
      SameLength(s, s.(state := HeadersAlmostDone), h);
      PreKnows(s.(state := HeadersAlmostDone), h);
    } else if Token(ch) != NUL {
      NameBegins(s, h, ch);
      assert [Mark(Field)][1..] == [];
    }
  }

  lemma SameLength(s: Parser, s': Parser, h: Heard)
    requires s'.contentLength == s.contentLength && s'.flags.contentLength == s.flags.contentLength
    ensures Matches(s, h) <==> Matches(s', h)
  {
  }

  /** The value of the header of `h` begins, or goes on, with `ch`. */
  lemma ValueBegins(s: Parser, h: Heard, ch: char)
    requires h.right && Matches(s, h) && NameRead(s, h) && !h.last.Other? && !s.flags.trailing
    requires h.last.AValue? ==> !IsNum(ch) || !IsLengthName(h.name)
    ensures Told(h, NoMark, ActValueStart(s, ch), ch)
  {
    hide ActValueStart, IsNum, Digit, Hear, IsLengthName, Tells;
    var e := ActValueStart(s, ch);
    assert [Mark(Value)][1..] == [];
    assert HearEmit(h, NoMark, [Mark(Value)], ch, true) == Hear(h, Data(Value, [ch]));
    assert HearEmit(h, NoMark, [Mark(Value)], ch, false) == h;
    BeginEffect(s, ch);
    if e.s.errno.OK? {
      ValueHeard(s, e.s, h, ch);
      AtValueTells(e.s, Hear(h, Data(Value, [ch])));
    }
  }

  lemma AtValueTells(s: Parser, h: Heard)
    requires h.right && AtValue(s.state)
    requires Matches(s, h) && h.last.AValue? && NameRead(s, h) && (IsLengthName(h.name) ==> IsLengthText(h.value))
    ensures Tells(s, h)
  {
    hide Matches, NameRead, IsLengthText, IsLengthName;
  }

  lemma BeginEffect(s: Parser, ch: char)
    ensures var s' := ActValueStart(s, ch).s;
            s'.flags.trailing == s.flags.trailing && (s'.errno.OK? ==>
              && (s'.hs.ContentLengthName? <==> s.hs.ContentLengthName?)
              && if s.hs.ContentLengthName?
                 then IsNum(ch) && !s.flags.contentLength && s'.flags.contentLength && s'.contentLength == Digit(ch)
                 else s'.flags.contentLength == s.flags.contentLength && s'.contentLength == s.contentLength)
  {
    hide Lower, ConnectionWord, IsNum, Digit;
    var c := s.(state := HeaderValue, index := 0);
    assert ActValueStart(s, ch).s == ValueBegin(c, ch);
    ConnectionWordIsNoLength(Lower(ch));
  }

  lemma ConnectionWordIsNoLength(c: char)
    ensures !ConnectionWord(c).ContentLengthName?
  {
  }

  lemma ValueHeard(s: Parser, s': Parser, h: Heard, ch: char)
    requires Matches(s, h) && NameRead(s, h) && !h.last.Other?
    requires s'.hs.ContentLengthName? <==> s.hs.ContentLengthName?
    requires h.last.AValue? ==> !IsNum(ch) || !IsLengthName(h.name)
    requires if s.hs.ContentLengthName?
             then IsNum(ch) && !s.flags.contentLength && s'.flags.contentLength && s'.contentLength == Digit(ch)
             else s'.flags.contentLength == s.flags.contentLength && s'.contentLength == s.contentLength
    ensures var h' := Hear(h, Data(Value, [ch]));
            Matches(s', h') && h'.last.AValue? && NameRead(s', h') && (IsLengthName(h'.name) ==> IsLengthText(h'.value))
            && h'.right == h.right
  {
    if s.hs.ContentLengthName? { OneDigit(ch); }
    hide IsLengthName, IsNum, Digit, IsLengthText, NumberIn;
  }

  lemma OneDigit(ch: char)
    requires IsNum(ch)
    ensures NumberIn([ch]) == Digit(ch) && IsLengthText([ch])
  {
    DigitIsValueChar(ch);
    hide IsNum, Digit;
    assert [ch][..0] == [];
    assert Blankless([ch]) == [] + [ch] == [ch];
    assert DecFrom(0, [ch]) == DecFrom(0, []) * 10 + Digit(ch);
  }

  lemma {:induction false} BlanklessDigits(v: string)
    requires forall i :: 0 <= i < |v| ==> IsNum(v[i]) || v[i] == ' '
    ensures AllNum(Blankless(v))
  {
    if v != [] { BlanklessDigits(v[..|v| - 1]); }
  }

  /** One more byte of a Content-Length: a digit counts, a blank does not. */
  lemma OneMore(v: string, ch: char)
    requires IsLengthText(v) && (IsNum(ch) || ch == ' ')
    ensures IsLengthText(v + [ch])
    ensures NumberIn(v + [ch]) == if ch == ' ' then NumberIn(v) else NumberIn(v) * 10 + Digit(ch)
  {
    hide IsNum, Digit;
    var d := Blankless(v);
    assert (v + [ch])[..|v|] == v;
    BlanklessDigits(v);
    if ch == ' ' {
      assert Blankless(v + [ch]) == d;
    } else {
      assert Blankless(v + [ch]) == d + [ch];
      assert (d + [ch])[..|d|] == d;
    }
  }

  lemma NameGoesOn(s: Parser, h: Heard, ch: char)
    requires h.last.AName? && IsName(h.name) && Standing(s, LowerName(h.name)) && IsToken(ch)
    ensures var h' := Hear(h, Data(Field, [ch]));
            IsName(h'.name) && Standing(FieldChar(s, ch), LowerName(h'.name)) && h'.last.AName?
            && Length(h') == Length(h) && h'.right == h.right
  {
    hide IsToken, Token, Standing, FieldChar;
    NextChar(s, LowerName(h.name), ch);
    assert (h.name + [ch])[..|h.name|] == h.name;
  }

  lemma NameEnds(s: Parser, h: Heard)
    requires Standing(s, LowerName(h.name)) && h.last.AName?
    ensures NameRead(s, Hear(h, Data(Field, [])))
  {
    assert h.name + [] == h.name;
    Distinct(LowerName(h.name));
    hide LowerName;
  }

  lemma FieldTold(s: Parser, h: Heard, ch: char)
    requires s.state.HeaderField? && !s.flags.trailing && Tells(s, h)
    ensures Told(h, Live(Field), ActField(s, ch), ch)
  {
    hide IsToken, FieldChar, Hear, Matches, Standing, NameRead, IsName, Length;
    var e := ActField(s, ch);
    if IsToken(ch) {
      assert HearEmit(h, Live(Field), [], ch, e.s.errno.OK?) == if e.s.errno.OK? then Hear(h, Data(Field, [ch])) else h;
      NameGoesOn(s, h, ch);
      MatchesStill(s, e.s, h, Hear(h, Data(Field, [ch])));
    } else if ch == ':' {
      var h' := Hear(h, Data(Field, []));
      assert [Deliver(Field)][1..] == [];
      assert HearEmit(h, Live(Field), [Deliver(Field)], ch, e.s.errno.OK?) == h';
      NameEnds(s, h);
      HearsNothing(h, Field);
      SameName(s, e.s, h');
      MatchesStill(s, e.s, h, h');
    }
  }

  lemma MatchesStill(s: Parser, s': Parser, h: Heard, h': Heard)
    requires s'.contentLength == s.contentLength && s'.flags.contentLength == s.flags.contentLength
    requires Length(h') == Length(h)
    ensures Matches(s, h) <==> Matches(s', h')
  {
    hide Length;
  }

  lemma SameName(s: Parser, s': Parser, h: Heard)
    requires s'.hs == s.hs
    ensures NameRead(s, h) <==> NameRead(s', h)
  {
    hide IsLengthName;
  }

  /** The end of a string that has been going on says nothing. */
  lemma HearsNothing(h: Heard, k: DataKind)
    requires (k.Field? && h.last.AName?) || (k.Value? && h.last.AValue?)
    ensures Hear(h, Data(k, [])) == h
  {
    assert h.name + [] == h.name && h.value + [] == h.value;
  }

  // ----- values

  /** Nothing heard, and the parser still knows what it knew. */
  lemma NameWaits(s: Parser, s': Parser, h: Heard, ch: char)
    requires h.right && Matches(s, h) && h.last.AName? && NameRead(s, h)
    requires s'.errno.OK? ==> AfterName(s'.state) && s' == s.(state := s'.state, errno := s'.errno)
    ensures Told(h, NoMark, Effect(s', [], false), ch)
  {
    hide Matches, NameRead;
    if s'.errno.OK? {
      MatchesStill(s, s', h, h);
      SameName(s, s', h);
    }
  }

  lemma WsTold(s: Parser, h: Heard, ch: char)
    requires AfterName(s.state) && s.errno.OK? && h.right && Matches(s, h) && h.last.AName? && NameRead(s, h)
    requires !s.flags.trailing
    ensures s.state.HeaderValueDiscardWs? ==> Told(h, NoMark, ActDiscardWs(s, ch), ch)
    ensures Told(h, NoMark, Expect(s, ch == LF, Strict, HeaderValueDiscardLws), ch)
  {
    hide ActValueStart, Matches, NameRead, Told;
    ValueBegins(s, h, ch);
    NameWaits(s, s, h, ch);
    NameWaits(s, s.(state := HeaderValueDiscardWsAlmostDone), h, ch);
    NameWaits(s, s.(state := HeaderValueDiscardLws), h, ch);
    NameWaits(s, s.(errno := Strict), h, ch);
  }

  lemma CommitSame(s: Parser, st: State, h: Heard)
    ensures var s' := CommitValue(s).(state := st);
            (Matches(s, h) <==> Matches(s', h)) && s'.flags.trailing == s.flags.trailing && s'.errno == s.errno
  {
    hide Matches, CommitConnection;
    ConnectionFlags(s);
    SameLength(s, CommitValue(s).(state := st), h);
  }

  /** An empty value is delivered with the next line. */
  lemma LwsTold(s: Parser, h: Heard, ch: char)
    requires s.errno.OK? && h.right && Matches(s, h) && h.last.AName? && NameRead(s, h) && !s.flags.trailing
    ensures Told(h, NoMark, ActDiscardLws(s, ch), ch)
  {
    hide ActFieldStart, Matches, NameRead, CommitValue, Hear, Told;
    if ch == ' ' || ch == TAB {
      NameWaits(s, s.(state := HeaderValueDiscardWs), h, ch);
    } else {
      var c := CommitValue(s).(state := HeaderFieldStart);
      var h' := Hear(h, Data(Value, []));
      var e := ActFieldStart(c, ch);
      CommitSame(s, HeaderFieldStart, h);
      EmptyHeard(h);
      MatchesStill(c, c, h, h');
      LineTold(c, h', ch);
      EmptyFirst(h, e, ch);
    }
  }

  lemma EmptyHeard(h: Heard)
    requires h.last.AName?
    ensures var h' := Hear(h, Data(Value, [])); Length(h') == Length(h) && h'.last.AValue? && h'.right == h.right
  {
  }

  lemma EmptyFirst(h: Heard, e: Effect, ch: char)
    requires Told(Hear(h, Data(Value, [])), NoMark, e, ch)
    ensures Told(h, NoMark, After([Mark(Value), Deliver(Value)], e), ch)
  {
    hide Hear, Tells;
    var acts := [Mark(Value), Deliver(Value)] + e.acts;
    var rest := [Deliver(Value)] + e.acts;
    var ok := e.s.errno.OK?;
    assert acts[0] == Mark(Value) && acts[1..] == rest && rest[0] == Deliver(Value) && rest[1..] == e.acts;
    assert HearEmit(h, NoMark, acts, ch, ok) == HearEmit(h, Live(Value), rest, ch, ok);
    assert HearEmit(h, Live(Value), rest, ch, ok) == HearEmit(Hear(h, Data(Value, [])), NoMark, e.acts, ch, ok);
  }

  /** A byte of a value. */
  lemma ValueCharTold(s: Parser, h: Heard, ch: char)
    requires s.state.HeaderValue? && !s.flags.trailing && Tells(s, h)
    ensures Told(h, Live(Value), ValueChar(s, ch), ch)
  {
    hide ValueChar, Hear, Matches, IsLengthName, IsLengthText, Tells;
    var e := ValueChar(s, ch);
    var h' := Hear(h, Data(Value, [ch]));
    assert HearEmit(h, Live(Value), [], ch, e.s.errno.OK?) == if e.s.errno.OK? then h' else h;
    TellsAtValue(s, h);
    ValueCharEffect(s, ch);
    if e.s.errno.OK? {
      if s.hs.ContentLengthName? {
        LengthGoesOn(s, e.s, h, ch);
      } else {
        OtherGoesOn(s, e.s, h, ch);
      }
      AtValueTells(e.s, h');
    }
  }

  lemma TellsAtValue(s: Parser, h: Heard)
    requires AtValue(s.state) && !s.flags.trailing && Tells(s, h)
    ensures h.right && Matches(s, h) && h.last.AValue? && NameRead(s, h)
    ensures IsLengthName(h.name) ==> IsLengthText(h.value)
  {
    hide Matches, NameRead, IsLengthName, IsLengthText;
  }

  predicate SaysLength(s: Parser, s': Parser, ch: char) {
    if s.hs.ContentLengthName?
    then s'.hs.ContentLengthName? && (IsNum(ch) || ch == ' ')
         && s'.contentLength == if ch == ' ' then s.contentLength else s.contentLength * 10 + Digit(ch)
    else !s'.hs.ContentLengthName? && s'.contentLength == s.contentLength
  }

  lemma ValueCharEffect(s: Parser, ch: char)
    ensures var s' := ValueChar(s, ch).s;
            s'.state == s.state && s'.flags.trailing == s.flags.trailing
            && s'.flags.contentLength == s.flags.contentLength && (s'.errno.OK? ==> SaysLength(s, s', ch))
  {
    hide ValueChar, SaysLength;
    ValueCharFlags(s, ch);
    if s.hs.ContentLengthName? { LengthCharEffect(s, ch); } else { OtherCharEffect(s, ch); }
  }

  lemma ValueCharFlags(s: Parser, ch: char)
    ensures var s' := ValueChar(s, ch).s;
            s'.flags.trailing == s.flags.trailing && s'.flags.contentLength == s.flags.contentLength
  {
    hide Lower, MatchWord, IsToken, CommitConnection, IsNum, Digit, Bytes.At;
    ConnectionFlags(s);
  }

  lemma ConnectionFlags(s: Parser)
    ensures CommitConnection(s).flags.contentLength == s.flags.contentLength
  {
    var f := s.flags;
    assert CommitConnection(s).flags
        == match s.hs case ConnKeepAlive => f.(connKeepAlive := true) case ConnClose => f.(connClose := true)
           case ConnUpgrade => f.(connUpgrade := true) case _ => f;
  }

  lemma LengthCharEffect(s: Parser, ch: char)
    requires s.hs.ContentLengthName?
    ensures var s' := ValueChar(s, ch).s; s'.errno.OK? ==> SaysLength(s, s', ch)
  {
    hide IsNum, Digit;
    if IsNum(ch) { DigitExact(s, ch); }
  }

  lemma OtherCharEffect(s: Parser, ch: char)
    requires !s.hs.ContentLengthName?
    ensures SaysLength(s, ValueChar(s, ch).s, ch)
  {
    hide Lower, MatchWord, IsToken, IsNum, Digit;
    MatchWordIsNoLength(s, CHUNKED, Lower(ch), Chunked, General);
    MatchWordIsNoLength(s, KEEP_ALIVE, Lower(ch), ConnKeepAlive, ConnToken);
    MatchWordIsNoLength(s, CLOSE, Lower(ch), ConnClose, ConnToken);
    MatchWordIsNoLength(s, UPGRADE, Lower(ch), ConnUpgrade, ConnToken);
  }

  /** The overflow test leaves no room for a wrap-around. */
  lemma DigitExact(s: Parser, ch: char)
    requires IsNum(ch)
    ensures var s' := ContentLengthDigit(s, ch).s;
            s'.errno.OK? ==> s' == s.(contentLength := s.contentLength * 10 + Digit(ch))
  {
    DigitRange(ch);
  }

  lemma MatchWordIsNoLength(s: Parser, word: string, c: char, hit: HeaderState, miss: HeaderState)
    requires !s.hs.ContentLengthName? && !hit.ContentLengthName? && !miss.ContentLengthName?
    ensures !MatchWord(s, word, c, hit, miss).hs.ContentLengthName?
  {
  }

  lemma LengthGoesOn(s: Parser, s': Parser, h: Heard, ch: char)
    requires Matches(s, h) && h.last.AValue? && IsLengthName(h.name) && IsLengthText(h.value)
    requires s'.hs.ContentLengthName?
    requires IsNum(ch) || ch == ' '
    requires s'.flags.contentLength == s.flags.contentLength
    requires s'.contentLength == if ch == ' ' then s.contentLength else s.contentLength * 10 + Digit(ch)
    ensures var h' := Hear(h, Data(Value, [ch]));
            Matches(s', h') && h'.last.AValue? && NameRead(s', h') && IsLengthText(h'.value) && h'.right == h.right
  {
    hide IsNum, Digit, IsLengthText, IsLengthName, NumberIn;
    OneMore(h.value, ch);
    assert h.value != [] by { LengthTextSome(h.value); }
  }

  lemma LengthTextSome(v: string)
    requires IsLengthText(v)
    ensures v != []
  {
  }

  lemma OtherGoesOn(s: Parser, s': Parser, h: Heard, ch: char)
    requires Matches(s, h) && h.last.AValue? && !IsLengthName(h.name) && !s'.hs.ContentLengthName?
    requires s'.flags.contentLength == s.flags.contentLength && s'.contentLength == s.contentLength
    ensures var h' := Hear(h, Data(Value, [ch]));
            Matches(s', h') && h'.last.AValue? && NameRead(s', h') && !IsLengthName(h'.name) && h'.right == h.right
  {
    hide IsLengthName;
  }

  lemma ValueTold(s: Parser, h: Heard, ch: char, checked: bool)
    requires s.state.HeaderValue? && s.errno.OK? && !s.flags.trailing && Tells(s, h)
    ensures Told(h, Live(Value), ActValue(s, ch, checked), ch)
  {
    hide ValueChar, IsHeaderChar, Told, Tells;
    TellsAtValue(s, h);
    ValueEnds(s, h, HeaderAlmostDone, ch);
    ValueEnds(s, h, HeaderValueLws, ch);
    ValueCharTold(s, h, ch);
    assert [Deliver(Value)] + [] == [Deliver(Value)];
    FailTold(s, h, InvalidHeaderToken, ch);
  }

  lemma ValueEnds(s: Parser, h: Heard, st: State, ch: char)
    requires s.state.HeaderValue? && AtValue(st) && s.errno.OK? && !s.flags.trailing && Tells(s, h)
    ensures Told(h, Live(Value), Effect(s.(state := st), [Deliver(Value)], false), ch)
  {
    hide Hear, Matches, NameRead, Tells, IsLengthName, IsLengthText;
    TellsAtValue(s, h);
    HearsNothing(h, Value);
    assert [Deliver(Value)][1..] == [];
    SameName(s, s.(state := st), h);
    MatchesStill(s, s.(state := st), h, h);
    AtValueTells(s.(state := st), h);
  }

  lemma FailTold(s: Parser, h: Heard, err: Errno, ch: char)
    requires h.right && !err.OK?
    ensures Told(h, Live(Value), Fail(s, err), ch) && Told(h, NoMark, Fail(s, err), ch)
  {
  }

  // ----- bodies and trailer parts

  predicate IsBody(st: State) {
    st.ChunkSizeStart? || st.ChunkSize? || st.ChunkParameters? || st.ChunkSizeAlmostDone? || st.ChunkData?
    || st.ChunkDataAlmostDone? || st.ChunkDataDone? || st.BodyIdentity? || st.BodyIdentityEof?
  }

  predicate IsLine(st: State) { BetweenLines(st) || st.HeaderField? || AfterName(st) || AtValue(st) }

  /** No headers are announced, and the parser is left in a trailer part or where it knows nothing. */
  ghost predicate Quiet(e: Effect) {
    && (forall i :: 0 <= i < |e.acts| ==> e.acts[i].Tell? ==> !e.acts[i].note.HeadersComplete?)
    && (e.s.errno.OK? ==> e.s.flags.trailing || IsIdle(e.s.state))
  }

  lemma DoneQuiet(s: Parser)
    ensures Quiet(ActMessageDone(s))
  {
    hide IsIdle, NewMessage;
    DoneStates(s, LF);
    StartIdle(ActMessageDone(s).s.state);
  }

  lemma StartIdle(st: State)
    requires IsStart(st)
    ensures IsIdle(st)
  {
  }

  /** No headers are announced, and the body goes on or the trailer part begins. */
  ghost predicate Bodily(e: Effect) {
    && (forall i :: 0 <= i < |e.acts| ==> e.acts[i].Tell? ==> !e.acts[i].note.HeadersComplete?)
    && (e.s.errno.OK? ==> e.s.flags.trailing || IsBody(e.s.state))
  }

  lemma BodilyQuiet(e: Effect)
    requires Bodily(e)
    ensures Quiet(e)
  {
    if IsBody(e.s.state) { BodyIdle(e.s.state); }
    hide IsIdle, IsBody;
  }

  lemma BodyIdle(st: State)
    requires IsBody(st)
    ensures IsIdle(st)
  {
  }

  lemma SizeBodily(s: Parser, ch: char)
    ensures Bodily(ActChunkSizeStart(s, ch)) && (IsBody(s.state) ==> Bodily(ActChunkSize(s, ch)))
    ensures IsBody(s.state) ==> Bodily(ActChunkParameters(s, ch))
  {
    hide Unhex;
  }

  lemma ChunkBodily(s: Parser, ch: char)
    ensures Bodily(ActChunkSizeAlmostDone(s, ch)) && (IsBody(s.state) ==> Bodily(ActChunkData(s)))
    ensures Bodily(ActChunkDataAlmostDone(s, ch)) && Bodily(ActChunkDataDone(s, ch))
  {
  }

  lemma EofBodily(s: Parser)
    requires IsBody(s.state)
    ensures Bodily(Effect(s, [Mark(Body)], false))
  {
  }

  lemma IdentityQuiet(s: Parser)
    requires s.state.BodyIdentity?
    ensures Quiet(ActBodyIdentity(s))
  {
    hide ActMessageDone, IsIdle;
    BodyIdle(BodyIdentity);
    DoneQuiet(s.(contentLength := 0, state := MessageDone));
  }

  lemma BodyQuiet(s: Parser, ch: char, checked: bool)
    requires IsBody(s.state)
    ensures Quiet(Act(s, ch, checked))
  {
    hide Act, IsIdle, Quiet, Bodily;
    ActIs(s, ch, checked);
    if s.state.BodyIdentityEof? {
      EofBodily(s);
    } else if s.state.BodyIdentity? {
      IdentityQuiet(s);
    } else {
      SizeBodily(s, ch);
      ChunkBodily(s, ch);
    }
    if !s.state.BodyIdentity? { BodilyQuiet(Act(s, ch, checked)); }
  }

  lemma TrailerEndQuiet(s: Parser, ch: char)
    requires s.flags.trailing
    ensures Quiet(ActHeadersAlmostDone(s, ch)) && Quiet(ActFieldStart(s, ch))
  {
    hide ActMessageDone, Token, FirstHeaderState;
    DoneQuiet(s.(state := MessageDone));
  }

  lemma TrailerQuiet(s: Parser, ch: char, checked: bool)
    requires IsLine(s.state) && s.flags.trailing
    ensures Quiet(Act(s, ch, checked))
  {
    hide ActFieldStart, ActHeadersAlmostDone, FieldChar, ValueBegin, ValueChar, CommitValue, Token, IsToken,
      IsHeaderChar;
    ActIs(s, ch, checked);
    hide Act;
    TrailerEndQuiet(s, ch);
    TrailerEndQuiet(s.(state := HeadersAlmostDone), ch);
    TrailerEndQuiet(CommitValue(s).(state := HeaderFieldStart), ch);
    ValueCharFlags(s, ch);
  }

  lemma QuietTold(h: Heard, live: Live, e: Effect, ch: char)
    requires h.right && Quiet(e)
    ensures Told(h, live, e, ch)
  {
    hide Knows, IsIdle;
    RightStays(h, live, e.acts, ch, e.s.errno.OK?);
    if e.s.errno.OK? && IsIdle(e.s.state) { IdleKnows(e.s, HearEmit(h, live, e.acts, ch, true)); }
  }

  // ----- every byte, and every run

  lemma LineKnows(s: Parser, h: Heard)
    requires Tells(s, h) && !s.flags.trailing
    ensures BetweenLines(s.state) ==> Matches(s, h) && !h.last.AName?
    ensures AfterName(s.state) ==> Matches(s, h) && h.last.AName? && NameRead(s, h)
    ensures AtValue(s.state) ==> Matches(s, h) && h.last.AValue? && NameRead(s, h)
  {
    hide Matches, NameRead;
  }

  lemma AlmostTold(s: Parser, h: Heard, ch: char)
    requires s.state.HeaderAlmostDone? && s.errno.OK? && !s.flags.trailing && Tells(s, h)
    ensures Told(h, NoMark, ActAlmostDone(s, ch), ch)
  {
    hide Matches, NameRead, Tells, IsLengthName, IsLengthText;
    TellsAtValue(s, h);
    SameName(s, s.(state := HeaderValueLws), h);
    MatchesStill(s, s.(state := HeaderValueLws), h, h);
    AtValueTells(s.(state := HeaderValueLws), h);
  }

  lemma FoldTold(s: Parser, h: Heard, ch: char)
    requires s.state.HeaderValueLws? && s.errno.OK? && !s.flags.trailing && Tells(s, h)
    ensures Told(h, NoMark, ActValueLws(s, ch), ch)
  {
    hide Matches, NameRead, Tells, Told, IsLengthName, IsLengthText, ActValueStart, ActFieldStart, CommitValue;
    TellsAtValue(s, h);
    if ch == ' ' || ch == TAB {
      ValueBegins(s, h, ch);
    } else {
      CommitSame(s, HeaderFieldStart, h);
      LineTold(CommitValue(s).(state := HeaderFieldStart), h, ch);
    }
  }

  lemma LineActTold(s: Parser, h: Heard, ch: char, checked: bool)
    requires IsLine(s.state) && s.errno.OK? && !s.flags.trailing && Tells(s, h)
    ensures Told(h, Resume(s.state), Act(s, ch, checked), ch)
  {
    ActIs(s, ch, checked);
    LineKnows(s, h);
    LineResume(s.state);
    hide Act, ActFieldStart, ActField, ActDiscardWs, ActDiscardLws, ActValue, ActValueLws, ActAlmostDone, Expect,
      ActHeadersAlmostDone, Matches, NameRead, Tells, Told, Resume, IsPre;
    match s.state
    case HeaderFieldStart => LineTold(s, h, ch);
    case HeadersAlmostDone => EndTold(s, h, ch);
    case HeaderField => FieldTold(s, h, ch);
    case HeaderValueDiscardWs => WsTold(s, h, ch);
    case HeaderValueDiscardWsAlmostDone => WsTold(s, h, ch);
    case HeaderValueDiscardLws => LwsTold(s, h, ch);
    case HeaderValue => ValueTold(s, h, ch, checked);
    case HeaderAlmostDone => AlmostTold(s, h, ch);
    case HeaderValueLws => FoldTold(s, h, ch);
  }

  lemma LineResume(st: State)
    requires IsLine(st)
    ensures Resume(st) == if st.HeaderField? then Live(Field) else if st.HeaderValue? then Live(Value) else NoMark
  {
  }

  lemma Everywhere(st: State)
    ensures IsPre(st) || IsStart(st) || IsBody(st) || IsLine(st) || Transient(st)
    ensures IsStart(st) ==> Resume(st) == NoMark
  {
  }

  lemma CountedTells(s: Parser, h: Heard)
    requires Tells(s, h)
    ensures Tells(Counted(s), h)
  {
    hide Length, IsPre;
  }

  lemma InvSound(s: Parser)
    requires Inv(s)
    ensures s.errno.OK? && !Transient(s.state)
  {
  }

  /** Each byte keeps what has been said and what the parser knows in step. */
  lemma ActTold(s: Parser, h: Heard, ch: char, checked: bool)
    requires Inv(s) && Tells(s, h)
    ensures Told(h, Resume(s.state), Act(Counted(s), ch, checked), ch)
  {
    hide Act, Tells, Told, Resume, Inv, IsPre, IsStart, IsBody, IsLine, Transient;
    var c := Counted(s);
    InvSound(s);
    CountedTells(s, h);
    Everywhere(s.state);
    assert h.right by { RightSoFar(s, h); }
    if IsPre(s.state) {
      PreTold(c, h, ch, checked);
    } else if IsStart(s.state) {
      StartTold(c, h, ch, checked);
    } else if IsBody(s.state) {
      BodyQuiet(c, ch, checked);
      QuietTold(h, Resume(s.state), Act(c, ch, checked), ch);
    } else if s.flags.trailing {
      TrailerQuiet(c, ch, checked);
      QuietTold(h, Resume(s.state), Act(c, ch, checked), ch);
    } else {
      LineActTold(c, h, ch, checked);
    }
  }

  lemma RightSoFar(s: Parser, h: Heard)
    requires Tells(s, h)
    ensures h.right
  {
  }

  lemma {:induction false} RunTold(lax: bool, s: Parser, t: seq<Event>, data: string)
    requires Inv(s) && Tells(s, HearAll(t))
    ensures var o := Run(lax, s, t, data);
            HearAll(o.trace).right && (!o.halt.Failed? ==> Inv(o.s) && Tells(o.s, HearAll(o.trace)))
  {
    hide Act, Emit, HearEmit, Tells, Inv, HearAll, Resume, Counted;
    if data == [] {
      RightSoFar(s, HearAll(t));
    } else {
      var d, ch := data[..|data| - 1], data[|data| - 1];
      RunTold(lax, s, t, d);
      RunInv(lax, s, t, data);
      var o := Run(lax, s, t, d);
      if o.halt.Running? {
        var e := Act(Counted(o.s), ch, !(lax && o.scan));
        ActTold(o.s, HearAll(o.trace), ch, !(lax && o.scan));
        HearsEmit(o.trace, Resume(o.s.state), e.acts, ch, e.s.errno.OK?);
      }
    }
  }

  lemma InitTells(kind: Kind, lenient: bool)
    ensures Inv(Init(kind, lenient)) && Tells(Init(kind, lenient), HearAll([]))
  {
    InvInit(kind, lenient);
    IdleKnows(Init(kind, lenient), SILENCE);
  }

  /** In every run of a new parser, whatever the bytes and however the run ends, each length announced with the end of
      the headers is the number in the Content-Length delivered before it in the same message, and the greatest 64-bit
      number where there was none. */
  lemma LengthsAnnounced(kind: Kind, lenient: bool, lax: bool, data: string)
    ensures Announces(Run(lax, Init(kind, lenient), [], data).trace)
  {
    hide Announces, HearAll, Run, Inv, Tells;
    InitTells(kind, lenient);
    RunTold(lax, Init(kind, lenient), [], data);
    RightMeans(Run(lax, Init(kind, lenient), [], data).trace);
  }

  // ----- calls

  /** What the program has been told so far is right, and the parser knows it. */
  ghost predicate ToldRight(s: Parser, calls: seq<Event>) {
    HearAll(calls).right && (s.errno.OK? ==> Tells(s, HearAll(calls)))
  }

  /** An error can swallow the rest of a string, and nothing else. */
  lemma ShortRight(calls: seq<Event>, t: seq<Event>)
    requires Short(calls, t) && HearAll(t).right
    ensures HearAll(calls).right
  {
    hide HearAll, Merge, Push;
    HearMerge(calls);
    if Merge(calls) != t {
      var k, bytes :| Push(Merge(calls), Data(k, bytes)) == t;
      HearPush(Merge(calls), Data(k, bytes));
    }
  }

  lemma TellsCount(s: Parser, n: nat, h: Heard)
    requires Tells(s, h)
    ensures Tells(s.(nread := n), h)
  {
    hide Length, IsPre;
  }

  lemma AgreedState(v: Parser, calls: seq<Event>, n: nat, s: Parser, t: seq<Event>, data: string)
    requires Inv(s) && Agrees(v, calls, n, Run(true, s, t, data), Extra(s, t, data, |data|))
             && !Run(true, s, t, data).halt.Failed?
    ensures v == Run(true, s, t, data).s.(nread := v.nread)
  {
    hide Inv, Run, Merge;
    RunInv(true, s, t, data);
    InvCore(Run(true, s, t, data).s);
  }

  /** A call keeps in step, however it ends. */
  lemma CallKeepsStep(v: Parser, calls: seq<Event>, n: nat, s: Parser, old_calls: seq<Event>, data: string)
    requires Inv(s) && Tells(s, HearAll(old_calls)) && Executed(v, calls, n, s, Merge(old_calls), data)
    ensures ToldRight(v, calls)
  {
    hide HearAll, Merge, Tells, Inv, Run, Short, Over, LastScanned;
    var t := Merge(old_calls);
    HearMerge(old_calls);
    HearMerge(calls);
    InvSound(s);
    if Over(s, t, data) {
      var q :| 0 <= q <= |data| && StoppedAt(v, calls, n, s, t, data, q);
      RunTold(true, s, t, data[..q]);
      ShortRight(calls, Run(true, s, t, data[..q]).trace);
    } else {
      RunTold(true, s, t, data);
      var o := Run(true, s, t, data);
      if o.halt.Failed? {
        ShortRight(calls, o.trace);
      } else {
        AgreedState(v, calls, n, s, t, data);
        TellsCount(o.s, v.nread, HearAll(o.trace));
        RightSoFar(o.s, HearAll(o.trace));
      }
    }
  }
}
