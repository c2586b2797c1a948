/** The order of the callbacks: every run calls them as the message framing of RFC 7230 section 3 prescribes. */
module Grammar {
  import opened Bytes
  import opened Trace
  import opened Machine
  import opened Bytewise
  import opened Marks
  import opened Invariant

  /** Where a merged trace stands.  `Body` and the chunk phases count the bytes announced and delivered; `length`
      is the Content-Length, or ULLONG_MAX when there is none. */
  datatype Phase =
    | Idle | Begun | InUrl | InStatus | InField | InValue
    | Headers(length: nat, chunked: bool, upgrade: bool) | InBody(length: nat, got: nat)
    | ChunkStart(size: nat) | ChunkBody(size: nat, got: nat) | ChunkEnd
    | Trailer | TrailerField | TrailerValue | TrailerEnd

  datatype MaybePhase = Bad | At(phase: Phase)

  /** The grammar of the callbacks:
      begin+ (url | status) (field value)* headers (body | (chunk body complete)* lastchunk (field value)* complete)?
      complete, again and again.  A complete body has its Content-Length, every chunk its announced size, and a
      message without a body callback announced none, unless it is an upgrade. */
  function Follow(g: Phase, e: Event): MaybePhase {
    match e
    case Data(Url, _) => if g.Begun? then At(InUrl) else Bad
    case Data(Status, _) => if g.Begun? then At(InStatus) else Bad
    case Data(Field, _) =>
      if g.InUrl? || g.InStatus? || g.InValue? then At(InField)
      else if g.Trailer? || g.TrailerValue? then At(TrailerField) else Bad
    case Data(Value, _) => if g.InField? then At(InValue) else if g.TrailerField? then At(TrailerValue) else Bad
    case Data(Body, b) =>
      if g.Headers? && !g.chunked && g.length > 0 then At(InBody(g.length, |b|))
      else if g.ChunkStart? then At(ChunkBody(g.size, |b|)) else Bad
    case Notify(MessageBegin) => if g.Idle? || g.Begun? then At(Begun) else Bad
    case Notify(HeadersComplete(n, c, u)) => if g.InUrl? || g.InStatus? || g.InValue? then At(Headers(n, c, u)) else Bad
    case Notify(ChunkHeader(n)) =>
      if !((g.Headers? && g.chunked) || g.ChunkEnd?) then Bad else if n == 0 then At(Trailer) else At(ChunkStart(n))
    case Notify(ChunkComplete) =>
      if g.ChunkBody? && g.got == g.size then At(ChunkEnd)
      else if g.Trailer? || g.TrailerValue? then At(TrailerEnd) else Bad
    case Notify(MessageComplete) =>
      if g.TrailerEnd? || (g.Headers? && (g.upgrade || (!g.chunked && (g.length == 0 || g.length == ULLONG_MAX))))
         || (g.InBody? && (g.length == ULLONG_MAX || g.got == g.length))
      then At(Idle) else Bad
  }

  function Parse(t: seq<Event>): MaybePhase {
    if t == [] then At(Idle)
    else
      match Parse(t[..|t| - 1])
      case Bad => Bad
      case At(g) => Follow(g, t[|t| - 1])
  }

  /** More bytes of the data callback that a trace ends with. */
  function More(g: Phase, k: DataKind, n: nat): MaybePhase {
    if k.Body? && g.InBody? then At(InBody(g.length, g.got + n))
    else if k.Body? && g.ChunkBody? then At(ChunkBody(g.size, g.got + n))
    else At(g)
  }

  /** The kind of the last callback, when it is a data callback. */
  function Open(g: Phase): Live {
    match g
    case InUrl => Live(Url)
    case InStatus => Live(Status)
    case InField => Live(Field)
    case TrailerField => Live(Field)
    case InValue => Live(Value)
    case TrailerValue => Live(Value)
    case InBody(_, _) => Live(Body)
    case ChunkBody(_, _) => Live(Body)
    case _ => NoMark
  }

  /** One callback more, merged. */
  function FollowMerged(g: Phase, e: Event): MaybePhase {
    if e.Data? && Open(g) == Live(e.kind) then More(g, e.kind, |e.bytes|) else Follow(g, e)
  }

  lemma OpenIsLast(t: seq<Event>)
    requires Parse(t).At?
    ensures Open(Parse(t).phase) == if t != [] && t[|t| - 1].Data? then Live(t[|t| - 1].kind) else NoMark
  {
    if t != [] {
      var e := t[|t| - 1];
      assert Follow(Parse(t[..|t| - 1]).phase, e) == Parse(t);
    }
  }

  lemma FollowMore(g: Phase, k: DataKind, a: string, b: string)
    requires Follow(g, Data(k, a)).At?
    ensures Follow(g, Data(k, a + b)) == More(Follow(g, Data(k, a)).phase, k, |b|)
  {
  }

  lemma ParseSnoc(t: seq<Event>, e: Event)
    ensures Parse(t + [e]) == if Parse(t).Bad? then Bad else Follow(Parse(t).phase, e)
  {
    hide Follow;
    assert (t + [e])[..|t|] == t;
  }

  lemma ParsePush(t: seq<Event>, e: Event)
    requires Parse(t).At?
    ensures Parse(Push(t, e)) == FollowMerged(Parse(t).phase, e)
  {
    hide Follow, More, Open, Parse;
    OpenIsLast(t);
    if e.Data? && t != [] && t[|t| - 1].Data? && t[|t| - 1].kind == e.kind {
      var init, last := t[..|t| - 1], t[|t| - 1];
      assert t == init + [last];
      ParseSnoc(init, last);
      ParseSnoc(init, Data(e.kind, last.bytes + e.bytes));
      FollowMore(Parse(init).phase, e.kind, last.bytes, e.bytes);
    } else {
      ParseSnoc(t, e);
    }
  }

  /** What the parser state says of the callbacks made. */
  predicate Stands(s: Parser, g: Phase) {
    if s.state in {Dead, StartReqOrRes, StartReq} then g.Idle?
    else if s.state.StartRes? then g.Idle? || g.Begun?
    else if s.state in {ResOrRespH, ResH, ResHT, ResHTT, ResHTTP, ResHttpMajor, ResHttpDot, ResHttpMinor, ResHttpEnd,
                        ResFirstStatusCode, ResStatusCode, ResStatusStart, ReqMethod, ReqSpacesBeforeUrl} then
      g.Begun? && !s.flags.trailing
    else if s.state in {ResStatus, ResLineAlmostDone} then g.InStatus? && !s.flags.trailing
    else if Machine.InUrl(s.state)
            || s.state in {ReqHttpStart, ReqHttpH, ReqHttpHT, ReqHttpHTT, ReqHttpHTTP, ReqHttpMajor, ReqHttpDot,
                           ReqHttpMinor, ReqHttpEnd, ReqLineAlmostDone} then g.InUrl? && !s.flags.trailing
    else if s.state in {HeaderFieldStart, HeadersAlmostDone} then
      if s.flags.trailing then g.Trailer? || g.TrailerValue? else g.InUrl? || g.InStatus? || g.InValue?
    else if s.state in {HeaderField, HeaderValueDiscardWs, HeaderValueDiscardWsAlmostDone, HeaderValueDiscardLws} then
      if s.flags.trailing then g.TrailerField? else g.InField?
    else if s.state in {HeaderValueStart, HeaderValue, HeaderValueLws, HeaderAlmostDone} then
      if s.flags.trailing then g.TrailerValue? else g.InValue?
    else if s.state in {ChunkSizeStart, ChunkSize, ChunkParameters, ChunkSizeAlmostDone} then
      (g.Headers? && g.chunked) || g.ChunkEnd?
    else if s.state.ChunkData? then
      (g.ChunkStart? && s.contentLength == g.size) || (g.ChunkBody? && s.contentLength + g.got == g.size)
    else if s.state in {ChunkDataAlmostDone, ChunkDataDone} then g.ChunkBody? && g.got == g.size
    else if s.state.BodyIdentity? then
      (g.Headers? && !g.chunked && s.contentLength == g.length) || (g.InBody? && s.contentLength + g.got == g.length)
    else if s.state.BodyIdentityEof? then ((g.Headers? && !g.chunked) || g.InBody?) && g.length == ULLONG_MAX
    else false
  }

  /** The callbacks of one byte, as `Emit` makes them, seen by the grammar. */
  function EmitPhase(g: Phase, live: Live, acts: seq<Action>, ch: char, ok: bool): MaybePhase
    decreases |acts|, 0
  {
    if acts == [] then
      if ok && live.Live? then FollowMerged(g, Data(live.kind, [ch])) else At(g)
    else match acts[0]
      case Mark(k) => EmitPhase(g, if live.NoMark? then Live(k) else live, acts[1..], ch, ok)
      case Deliver(k) =>
        if live == Live(k) then OnPhase(FollowMerged(g, Data(k, [])), NoMark, acts[1..], ch, ok)
        else EmitPhase(g, live, acts[1..], ch, ok)
      case DeliverThrough(k) =>
        if live == Live(k) then OnPhase(FollowMerged(g, Data(k, [ch])), NoMark, acts[1..], ch, ok)
        else EmitPhase(g, live, acts[1..], ch, ok)
      case Tell(n) => OnPhase(Follow(g, Notify(n)), live, acts[1..], ch, ok)
  }

  function OnPhase(m: MaybePhase, live: Live, acts: seq<Action>, ch: char, ok: bool): MaybePhase
    decreases |acts|, 1
  {
    if m.Bad? then Bad else EmitPhase(m.phase, live, acts, ch, ok)
  }

  lemma {:induction false} ParseEmit(t: seq<Event>, live: Live, acts: seq<Action>, ch: char, ok: bool)
    requires Parse(t).At? && EmitPhase(Parse(t).phase, live, acts, ch, ok).At?
    ensures Parse(Emit(t, live, acts, ch, ok)) == EmitPhase(Parse(t).phase, live, acts, ch, ok)
    decreases |acts|
  {
    hide Parse, Push, Follow, FollowMerged;
    if acts == [] {
      if live.Live? { ParsePush(t, Data(live.kind, [ch])); }
    } else {
      match acts[0]
      case Mark(k) => ParseEmit(t, if live.NoMark? then Live(k) else live, acts[1..], ch, ok);
      case Deliver(k) =>
        ParsePush(t, Data(k, []));
        if live == Live(k) { ParseEmit(Push(t, Data(k, [])), NoMark, acts[1..], ch, ok); }
        else { ParseEmit(t, live, acts[1..], ch, ok); }
      case DeliverThrough(k) =>
        ParsePush(t, Data(k, [ch]));
        if live == Live(k) { ParseEmit(Push(t, Data(k, [ch])), NoMark, acts[1..], ch, ok); }
        else { ParseEmit(t, live, acts[1..], ch, ok); }
      case Tell(n) =>
        assert FollowMerged(Parse(t).phase, Notify(n)) == Follow(Parse(t).phase, Notify(n))
          by { NotMerged(Parse(t).phase, n); }
        ParsePush(t, Notify(n));
        ParseEmit(Push(t, Notify(n)), live, acts[1..], ch, ok);
    }
  }

  lemma NotMerged(g: Phase, n: Note)
    ensures FollowMerged(g, Notify(n)) == Follow(g, Notify(n))
  {
  }

  /** The effect `e` of a byte keeps the callbacks in the grammar and in step with the parser. */
  ghost predicate Grammatical(g: Phase, live: Live, e: Effect, ch: char) {
    var r := EmitPhase(g, live, e.acts, ch, e.s.errno.OK?);
    r.At? && (e.s.errno.OK? ==> Stands(e.s, r.phase))
  }

  lemma TellFirst(g: Phase, n: Note, e: Effect, ch: char)
    requires Follow(g, Notify(n)).At? && Grammatical(Follow(g, Notify(n)).phase, NoMark, e, ch)
    ensures Grammatical(g, NoMark, After([Tell(n)], e), ch)
  {
    hide Follow, FollowMerged, Stands;
    var acts := [Tell(n)] + e.acts;
    assert acts[1..] == e.acts && acts[0] == Tell(n);
    assert EmitPhase(g, NoMark, acts, ch, e.s.errno.OK?)
        == OnPhase(Follow(g, Notify(n)), NoMark, acts[1..], ch, e.s.errno.OK?);
  }

  /** What `Stands` says, for proofs that hide it. */
  lemma StandsIs(s: Parser, g: Phase)
    ensures s.state.HeaderFieldStart? || s.state.HeadersAlmostDone? ==>
              (Stands(s, g) <==>
                if s.flags.trailing then g.Trailer? || g.TrailerValue? else g.InUrl? || g.InStatus? || g.InValue?)
    ensures s.state.HeaderField? || s.state.HeaderValueDiscardWs? || s.state.HeaderValueDiscardLws?
            || s.state.HeaderValueDiscardWsAlmostDone? ==>
              (Stands(s, g) <==> if s.flags.trailing then g.TrailerField? else g.InField?)
    ensures s.state.HeaderValue? || s.state.HeaderValueLws? || s.state.HeaderAlmostDone? ==>
              (Stands(s, g) <==> if s.flags.trailing then g.TrailerValue? else g.InValue?)
  {
  }

  lemma StandsInUrl(s: Parser, g: Phase)
    ensures Machine.InUrl(s.state) || s.state.ReqHttpStart? || s.state.ReqLineAlmostDone? ==>
              (Stands(s, g) <==> g.InUrl? && !s.flags.trailing)
  {
  }

  lemma StandsInChunk(s: Parser, g: Phase)
    ensures s.state.ChunkSizeStart? ==> (Stands(s, g) <==> (g.Headers? && g.chunked) || g.ChunkEnd?)
    ensures s.state.ChunkDataAlmostDone? || s.state.ChunkDataDone?
            ==> (Stands(s, g) <==> g.ChunkBody? && g.got == g.size)
  {
  }

  lemma HeadersDoneGrammar(g: Phase, s: Parser, ch: char)
    requires Core(s)
    ensures (g.TrailerEnd? || (g.InBody? && g.got == g.length)) ==> Grammatical(g, NoMark, ActMessageDone(s), ch)
    ensures g == Headers(s.contentLength, s.flags.chunked, s.upgrade) && !s.flags.trailing ==>
              Grammatical(g, NoMark, ActHeadersDone(s, ch), ch)
  {
    hide ShouldKeepAlive;
    assert NewMessage(s) in {Dead, StartReq, StartRes};
  }

  lemma HeadersAlmostDoneGrammar(g: Phase, s: Parser, ch: char)
    requires Core(s) && Stands(s.(state := HeadersAlmostDone), g)
    ensures Grammatical(g, NoMark, ActHeadersAlmostDone(s, ch), ch)
  {
    hide ActMessageDone, ActHeadersDone;
    if ch == LF {
      if s.flags.trailing {
        HeadersDoneGrammar(TrailerEnd, s.(state := MessageDone), ch);
        TellFirst(g, ChunkComplete, ActMessageDone(s.(state := MessageDone)), ch);
      } else if !(s.flags.chunked && s.flags.contentLength) {
        var upgrade := if s.flags.upgrade && s.flags.connUpgrade then s.kind.Request? || s.status == 101
                       else s.verb == CONNECT;
        var s' := s.(state := HeadersDone, upgrade := upgrade);
        var n := HeadersComplete(s.contentLength, s.flags.chunked, upgrade);
        HeadersDoneGrammar(Headers(s.contentLength, s.flags.chunked, upgrade), s', ch);
        TellFirst(g, n, ActHeadersDone(s', ch), ch);
      }
    }
  }

  lemma FieldStartGrammar(g: Phase, s: Parser, ch: char)
    requires Core(s) && Stands(s.(state := HeaderFieldStart), g)
    ensures Grammatical(g, NoMark, ActFieldStart(s, ch), ch)
  {
    assert Core(s.(state := HeadersAlmostDone));
    hide ActHeadersAlmostDone, Token, FirstHeaderState, Core, EmitPhase;
    StandsNext(g, s);
    if ch == LF {
      HeadersAlmostDoneGrammar(g, s.(state := HeadersAlmostDone), ch);
    } else {
      hide Stands;
      FieldStartPhases(g, s, ch, if s.flags.trailing then TrailerField else InField);
    }
  }

  lemma StandsNext(g: Phase, s: Parser)
    requires Stands(s.(state := HeaderFieldStart), g)
    ensures Stands(s.(state := HeadersAlmostDone), g)
    ensures FollowMerged(g, Data(Field, ['x'])) == At(if s.flags.trailing then TrailerField else InField)
  {
  }

  lemma FieldBytes(g: Phase, a: string, b: string)
    ensures FollowMerged(g, Data(Field, a)) == FollowMerged(g, Data(Field, b))
  {
  }

  lemma FieldStands(g: Phase, s: Parser)
    requires s.state.HeaderField? && g == if s.flags.trailing then TrailerField else InField
    ensures Stands(s, g)
  {
  }

  lemma FieldStartPhases(g: Phase, s: Parser, ch: char, g': Phase)
    requires FollowMerged(g, Data(Field, ['x'])) == At(g') && g' == (if s.flags.trailing then TrailerField else InField)
    requires Stands(s.(state := HeadersAlmostDone), g) && ch != LF
    ensures Grammatical(g, NoMark, ActFieldStart(s, ch), ch)
  {
    hide Token, FirstHeaderState, Stands, FollowMerged, ActHeadersAlmostDone;
    if ch == CR {
    } else if Token(ch) != NUL {
      FieldBytes(g, ['x'], [ch]);
      var s' := s.(index := 0, state := HeaderField, hs := FirstHeaderState(Token(ch)));
      FieldStands(g', s');
      assert [Mark(Field)][1..] == [];
      assert EmitPhase(g, NoMark, [Mark(Field)], ch, s'.errno.OK?) == if s'.errno.OK? then At(g') else At(g);
    }
  }

  lemma MarkFirst(g: Phase, k: DataKind, e: Effect, ch: char)
    requires Grammatical(g, Live(k), e, ch)
    ensures Grammatical(g, NoMark, After([Mark(k)], e), ch)
  {
    hide Follow, FollowMerged, Stands;
    var acts := [Mark(k)] + e.acts;
    assert acts[1..] == e.acts && acts[0] == Mark(k);
  }

  lemma DeliverFirst(g: Phase, k: DataKind, e: Effect, ch: char)
    requires FollowMerged(g, Data(k, [])).At?
    requires Grammatical(FollowMerged(g, Data(k, [])).phase, NoMark, e, ch)
    ensures Grammatical(g, Live(k), After([Deliver(k)], e), ch)
  {
    hide Follow, FollowMerged, Stands;
    var acts := [Deliver(k)] + e.acts;
    assert acts[1..] == e.acts && acts[0] == Deliver(k);
    assert EmitPhase(g, Live(k), acts, ch, e.s.errno.OK?)
        == OnPhase(FollowMerged(g, Data(k, [])), NoMark, acts[1..], ch, e.s.errno.OK?);
  }

  lemma ValueStartGrammar(g: Phase, s: Parser, ch: char)
    requires if s.flags.trailing then g.TrailerField? || g.TrailerValue? else g.InField? || g.InValue?
    ensures Grammatical(g, NoMark, ActValueStart(s, ch), ch)
  {
    hide ValueBegin;
    assert [Mark(Value)][1..] == [];
  }

  lemma FieldGrammar(g: Phase, s: Parser, ch: char)
    requires s.state.HeaderField? && Stands(s, g) && s.errno.OK?
    ensures Grammatical(g, Live(Field), ActField(s, ch), ch)
  {
    hide FieldChar, IsToken, Stands;
    StandsIs(s, g);
    StandsIs(ActField(s, ch).s, g);
    assert [Deliver(Field)][1..] == [];
  }

  lemma ValueGrammar(g: Phase, s: Parser, ch: char, checked: bool)
    requires s.state.HeaderValue? && Stands(s, g) && s.errno.OK?
    ensures Grammatical(g, Live(Value), ActValue(s, ch, checked), ch)
  {
    hide ValueChar, IsHeaderChar, Stands;
    StandsIs(s, g);
    StandsIs(ActValue(s, ch, checked).s, g);
    assert FollowMerged(g, Data(Value, [])) == At(g) && FollowMerged(g, Data(Value, [ch])) == At(g);
    hide FollowMerged;
    if ch == LF {
      DeliverFirst(g, Value, ActAlmostDone(s.(state := HeaderAlmostDone), ch), ch);
    } else if ch == CR {
      assert [Deliver(Value)][1..] == [];
    } else {
      ValueKeepsTrailing(s, ch);
    }
  }

  lemma ValueKeepsTrailing(s: Parser, ch: char)
    ensures ValueChar(s, ch).s.flags.trailing == s.flags.trailing
  {
    hide MatchWord, Lower, Token;
  }

  lemma LwsGrammar(g: Phase, s: Parser, ch: char)
    requires Core(s) && Stands(s, g)
    ensures s.state.HeaderValueDiscardWs? ==> Grammatical(g, NoMark, ActDiscardWs(s, ch), ch)
    ensures s.state.HeaderValueLws? ==> Grammatical(g, NoMark, ActValueLws(s, ch), ch)
  {
    hide ActValueStart, ActFieldStart, CommitValue, Stands;
    StandsIs(s, g);
    StandsIs(CommitValue(s).(state := HeaderFieldStart), g);
    StandsIs(ActDiscardWs(s, ch).s, g);
    if s.state.HeaderValueDiscardWs? || s.state.HeaderValueLws? { ValueStartGrammar(g, s, ch); }
    CommitSafe(s, HeaderFieldStart);
    if s.state.HeaderValueLws? { FieldStartGrammar(g, CommitValue(s).(state := HeaderFieldStart), ch); }
  }

  lemma DiscardLwsGrammar(g: Phase, s: Parser, ch: char)
    requires Core(s) && Stands(s, g) && s.state.HeaderValueDiscardLws?
    ensures Grammatical(g, NoMark, ActDiscardLws(s, ch), ch)
  {
    hide ActFieldStart, CommitValue, Stands;
    StandsIs(s, g);
    StandsIs(s.(state := HeaderValueDiscardWs), g);
    if ch != ' ' && ch != TAB {
      var e := ActFieldStart(CommitValue(s).(state := HeaderFieldStart), ch);
      CommitSafe(s, HeaderFieldStart);
      var g' := if s.flags.trailing then TrailerValue else InValue;
      assert FollowMerged(g, Data(Value, [])) == At(g');
      hide FollowMerged;
      StandsIs(CommitValue(s).(state := HeaderFieldStart), g');
      FieldStartGrammar(g', CommitValue(s).(state := HeaderFieldStart), ch);
      DeliverFirst(g, Value, e, ch);
      MarkFirst(g, Value, After([Deliver(Value)], e), ch);
      assert [Mark(Value)] + ([Deliver(Value)] + e.acts) == [Mark(Value), Deliver(Value)] + e.acts;
    }
  }

  lemma StartGrammar(g: Phase, s: Parser, ch: char)
    requires Stands(s, g) && s.errno.OK?
    ensures s.state.StartReq? ==> Grammatical(g, NoMark, ActStartReq(s, ch), ch)
    ensures s.state.StartReqOrRes? ==> Grammatical(g, NoMark, ActStartReqOrRes(s, ch), ch)
  {
    hide IsAlpha, FirstMethod;
    assert [Tell(MessageBegin)][1..] == [];
  }

  lemma StartResGrammar(g: Phase, s: Parser, ch: char)
    requires Stands(s, g) && s.errno.OK?
    ensures s.state.StartRes? ==> Grammatical(g, NoMark, ActStartRes(s, ch), ch)
    ensures s.state.ResOrRespH? ==> Grammatical(g, NoMark, ActResOrRespH(s, ch), ch)
  {
    assert [Tell(MessageBegin)][1..] == [];
  }

  lemma MethodGrammar(g: Phase, s: Parser, ch: char)
    requires Stands(s, g) && s.errno.OK? && s.state.ReqMethod?
    ensures Grammatical(g, NoMark, ActReqMethod(s, ch), ch)
  {
    hide OtherMethod, MethodString, Bytes.At;
  }

  /** A URL byte, or the first one. */
  lemma UrlStepGrammar(g: Phase, s: Parser, from: State, ch: char)
    requires (g.InUrl? || g.Begun?) && !s.flags.trailing
    ensures Grammatical(g, Live(Url), UrlStep(s, from, ch), ch)
  {
    hide ParseUrlChar;
    UrlStates(from, ch);
  }

  lemma UrlGrammar(g: Phase, s: Parser, ch: char)
    requires Stands(s, g) && s.errno.OK?
    ensures s.state.ReqSpacesBeforeUrl? ==> Grammatical(g, NoMark, ActSpacesBeforeUrl(s, ch), ch)
    ensures Machine.InUrl(s.state) ==> Grammatical(g, Live(Url), ActUrlPrefix(s, ch), ch)
  {
    hide UrlStep;
    if s.state.ReqSpacesBeforeUrl? && ch != ' ' {
      var from := if s.verb == CONNECT then ReqServerStart else ReqSpacesBeforeUrl;
      UrlStepGrammar(g, s, from, ch);
      MarkFirst(g, Url, UrlStep(s, from, ch), ch);
    }
    if Machine.InUrl(s.state) { UrlStepGrammar(g, s, s.state, ch); }
  }

  lemma UrlEndGrammar(g: Phase, s: Parser, ch: char)
    requires Stands(s, g) && s.errno.OK? && Machine.InUrl(s.state)
    ensures Grammatical(g, Live(Url), ActUrl(s, ch), ch)
  {
    hide UrlStep, Stands;
    StandsInUrl(s, g);
    if ch == ' ' || ch == CR || ch == LF {
      StandsInUrl(ActUrl(s, ch).s, g);
      StandsIs(ActUrl(s, ch).s, g);
      assert [Deliver(Url)][1..] == [];
    } else {
      UrlStepGrammar(g, s, s.state, ch);
    }
  }

  lemma StatusGrammar(g: Phase, s: Parser, ch: char)
    requires s.errno.OK? && !s.flags.trailing
    ensures g.InStatus? || g.Begun? ==> Grammatical(g, Live(Status), ActStatus(s.(state := ResStatus), ch), ch)
  {
    assert [Deliver(Status)][1..] == [];
  }

  lemma StatusStartGrammar(g: Phase, s: Parser, ch: char)
    requires s.errno.OK? && !s.flags.trailing && g.Begun?
    ensures Grammatical(g, NoMark, ActStatusStart(s, ch), ch)
  {
    hide ActStatus;
    var r := s.(state := ResStatus, index := 0);
    StatusGrammar(g, s.(index := 0), ch);
    if ch == CR || ch == LF {
      MarkFirst(g, Status, ActStatus(r, ch), ch);
    } else {
      MarkFirst(g, Status, Stay(r), ch);
    }
  }

  lemma StatusCodeGrammar(g: Phase, s: Parser, ch: char)
    requires s.errno.OK? && !s.flags.trailing && g.Begun? && s.state.ResStatusCode?
    ensures Grammatical(g, NoMark, ActStatusCode(s, ch), ch)
  {
    hide ActStatusStart, IsNum;
    StatusStartGrammar(g, s, ch);
  }

  lemma ChunkHeaderGrammar(g: Phase, s: Parser, ch: char)
    requires s.errno.OK? && Stands(s, g) && s.state.ChunkSizeAlmostDone?
    ensures Grammatical(g, NoMark, ActChunkSizeAlmostDone(s, ch), ch)
  {
    if ch == LF {
      var e := ActChunkSizeAlmostDone(s, ch);
      ChunkHeaderStands(g, s);
      assert After([Tell(ChunkHeader(s.contentLength))], Effect(e.s, [], false)) == e;
      hide ActChunkSizeAlmostDone, Stands, Follow;
      TellFirst(g, ChunkHeader(s.contentLength), Effect(e.s, [], false), ch);
    }
  }

  lemma ChunkHeaderStands(g: Phase, s: Parser)
    requires s.errno.OK? && Stands(s, g) && s.state.ChunkSizeAlmostDone?
    ensures var e := ActChunkSizeAlmostDone(s, LF);
            var g' := if s.contentLength == 0 then Trailer else ChunkStart(s.contentLength);
            Follow(g, Notify(ChunkHeader(s.contentLength))) == At(g') && Stands(e.s, g') && e.s.errno.OK?
  {
  }

  lemma ChunkEndGrammar(g: Phase, s: Parser, ch: char)
    requires s.errno.OK? && Stands(s, g)
    ensures s.state.ChunkDataDone? ==> Grammatical(g, NoMark, ActChunkDataDone(s, ch), ch)
    ensures s.state.ChunkDataAlmostDone? ==> Grammatical(g, NoMark, ActChunkDataAlmostDone(s, ch), ch)
  {
    hide Stands;
    StandsInChunk(s, g);
    StandsInChunk(s.(nread := 0, state := ChunkSizeStart), ChunkEnd);
    StandsInChunk(s.(state := ChunkDataDone), g);
    assert [Tell(ChunkComplete)][1..] == [] && [Deliver(Body)][1..] == [];
  }

  lemma MessageDoneOk(s: Parser)
    ensures ActMessageDone(s).s.errno == s.errno
  {
  }

  lemma LastByteGrammar(g: Phase, s: Parser, ch: char)
    requires Core(s) && Stands(s, g) && s.state.BodyIdentity? && s.contentLength == 1
    ensures Grammatical(g, NoMark, ActBodyIdentity(s), ch)
  {
    var g' := FollowMerged(g, Data(Body, [ch])).phase;
    assert FollowMerged(g, Data(Body, [ch])) == At(g') && g'.InBody? && g'.got == g'.length;
    hide Stands, Follow, FollowMerged, ActMessageDone;
    var s' := s.(contentLength := 0, state := MessageDone);
    var e := ActMessageDone(s');
    MessageDoneOk(s');
    HeadersDoneGrammar(g', s', ch);
    assert ActBodyIdentity(s) == Effect(e.s, [Mark(Body), DeliverThrough(Body)] + e.acts, e.exits);
    LastBytePhases(g, g', e.acts, ch);
  }

  lemma LastBytePhases(g: Phase, g': Phase, rest: seq<Action>, ch: char)
    requires FollowMerged(g, Data(Body, [ch])) == At(g')
    ensures EmitPhase(g, NoMark, [Mark(Body), DeliverThrough(Body)] + rest, ch, true)
            == EmitPhase(g', NoMark, rest, ch, true)
  {
    hide FollowMerged;
    var later := [DeliverThrough(Body)] + rest;
    var acts := [Mark(Body), DeliverThrough(Body)] + rest;
    assert acts[0] == Mark(Body) && acts[1..] == later;
    assert EmitPhase(g, NoMark, acts, ch, true) == EmitPhase(g, Live(Body), later, ch, true);
    assert later[0] == DeliverThrough(Body) && later[1..] == rest;
    assert EmitPhase(g, Live(Body), later, ch, true) == OnPhase(At(g'), NoMark, rest, ch, true);
  }

  lemma BodyGrammar(g: Phase, s: Parser, ch: char)
    requires s.errno.OK? && Stands(s, g) && s.contentLength > 1 && s.state.BodyIdentity?
    ensures Grammatical(g, NoMark, ActBodyIdentity(s), ch)
  {
    hide ActMessageDone;
    assert [Mark(Body)][1..] == [];
  }

  lemma ChunkGrammar(g: Phase, s: Parser, ch: char)
    requires s.errno.OK? && Stands(s, g) && s.contentLength > 0 && s.state.ChunkData?
    ensures Grammatical(g, NoMark, ActChunkData(s), ch)
  {
    assert [Mark(Body)][1..] == [];
  }

  lemma SizeGrammar(g: Phase, s: Parser, ch: char)
    requires s.errno.OK? && Stands(s, g)
    ensures s.state.ChunkSizeStart? ==> Grammatical(g, NoMark, ActChunkSizeStart(s, ch), ch)
    ensures s.state.ChunkParameters? ==> Grammatical(g, NoMark, ActChunkParameters(s, ch), ch)
  {
    hide Unhex;
  }

  lemma SizeDigitGrammar(g: Phase, s: Parser, ch: char)
    requires s.errno.OK? && Stands(s, g) && s.state.ChunkSize?
    ensures Grammatical(g, NoMark, ActChunkSize(s, ch), ch)
  {
    hide Unhex;
  }

  predicate ResponseLine(st: State) {
    st in {ResH, ResHT, ResHTT, ResHTTP, ResHttpMajor, ResHttpDot, ResHttpMinor, ResHttpEnd, ResFirstStatusCode}
  }

  predicate RequestTail(st: State) {
    st in {ReqHttpH, ReqHttpHT, ReqHttpHTT, ReqHttpHTTP, ReqHttpMajor, ReqHttpDot, ReqHttpMinor, ReqLineAlmostDone}
  }

  /** Two states that stand alike. */
  predicate Alike(a: State, b: State) {
    (ResponseLine(a) && ResponseLine(b)) || (RequestTail(a) && (RequestTail(b) || b.HeaderFieldStart?))
    || (a.ResLineAlmostDone? && b.HeaderFieldStart?) || (a.HeaderValueDiscardWsAlmostDone? && b.HeaderValueDiscardLws?)
    || (a.HeaderAlmostDone? && b.HeaderValueLws?)
  }

  lemma AlikeStands(g: Phase, s: Parser, st: State)
    requires Stands(s, g) && Alike(s.state, st)
    ensures Stands(s.(state := st), g)
  {
    if ResponseLine(s.state) {
      InResponse(s, g);
      InResponse(s.(state := st), g);
    } else if RequestTail(s.state) {
      InTail(s, g);
      InTail(s.(state := st), g);
      StandsIs(s.(state := st), g);
    } else if s.state.ResLineAlmostDone? {
      StandsIs(s.(state := st), g);
    } else {
      StandsIs(s, g);
      StandsIs(s.(state := st), g);
    }
  }

  lemma InResponse(s: Parser, g: Phase)
    ensures ResponseLine(s.state) ==> (Stands(s, g) <==> g.Begun? && !s.flags.trailing)
  {
  }

  lemma InTail(s: Parser, g: Phase)
    ensures RequestTail(s.state) ==> (Stands(s, g) <==> g.InUrl? && !s.flags.trailing)
  {
  }

  lemma ExpectGrammar(g: Phase, s: Parser, ok: bool, e: Errno, st: State, ch: char)
    requires Stands(s, g) && s.errno.OK? && !e.OK? && Alike(s.state, st)
    ensures Grammatical(g, NoMark, Expect(s, ok, e, st), ch)
  {
    hide Stands;
    AlikeStands(g, s, st);
  }

  lemma VersionGrammar(g: Phase, s: Parser, ch: char)
    requires s.errno.OK? && Stands(s, g)
    ensures s.state.ResHttpMajor? ==> Grammatical(g, NoMark, ActMajor(s, ch, ResHttpDot), ch)
    ensures s.state.ResHttpMinor? ==> Grammatical(g, NoMark, ActMinor(s, ch, ResHttpEnd), ch)
    ensures s.state.ReqHttpMajor? ==> Grammatical(g, NoMark, ActMajor(s, ch, ReqHttpDot), ch)
    ensures s.state.ReqHttpMinor? ==> Grammatical(g, NoMark, ActMinor(s, ch, ReqHttpEnd), ch)
  {
    hide IsNum, Digit;
  }

  lemma LineGrammar(g: Phase, s: Parser, ch: char)
    requires s.errno.OK? && Stands(s, g)
    ensures s.state.Dead? ==> Grammatical(g, NoMark, ActDead(s, ch), ch)
    ensures s.state.ReqHttpStart? ==> Grammatical(g, NoMark, ActReqHttpStart(s, ch), ch)
    ensures s.state.ReqHttpEnd? ==> Grammatical(g, NoMark, ActReqHttpEnd(s, ch), ch)
    ensures s.state.ResFirstStatusCode? ==> Grammatical(g, NoMark, ActFirstStatusCode(s, ch), ch)
  {
    hide IsNum;
  }

  lemma PlainGrammar(g: Phase, s: Parser, ch: char, checked: bool)
    requires Core(s) && Stands(s, g) && PlainState(s.state)
    requires s.state !in {StartRes, ResOrRespH}
    ensures Grammatical(g, NoMark, Act(s, ch, checked), ch)
  {
    hide Expect, ActMajor, ActMinor, ActDead, ActReqHttpStart, ActReqHttpEnd, ActFirstStatusCode, ActChunkSizeStart,
      ActChunkSize, ActChunkParameters, ActChunkDataDone, Grammatical, Stands;
    match s.state
    case Dead => LineGrammar(g, s, ch);
    case ResH => ExpectGrammar(g, s, ch == 'T', Strict, ResHT, ch);
    case ResHT => ExpectGrammar(g, s, ch == 'T', Strict, ResHTT, ch);
    case ResHTT => ExpectGrammar(g, s, ch == 'P', Strict, ResHTTP, ch);
    case ResHTTP => ExpectGrammar(g, s, ch == '/', Strict, ResHttpMajor, ch);
    case ResHttpMajor => VersionGrammar(g, s, ch);
    case ResHttpDot => ExpectGrammar(g, s, ch == '.', InvalidVersion, ResHttpMinor, ch);
    case ResHttpMinor => VersionGrammar(g, s, ch);
    case ResHttpEnd => ExpectGrammar(g, s, ch == ' ', InvalidVersion, ResFirstStatusCode, ch);
    case ResFirstStatusCode => LineGrammar(g, s, ch);
    case ResLineAlmostDone => ExpectGrammar(g, s, ch == LF, Strict, HeaderFieldStart, ch);
    case ReqHttpStart => LineGrammar(g, s, ch);
    case ReqHttpH => ExpectGrammar(g, s, ch == 'T', Strict, ReqHttpHT, ch);
    case ReqHttpHT => ExpectGrammar(g, s, ch == 'T', Strict, ReqHttpHTT, ch);
    case ReqHttpHTT => ExpectGrammar(g, s, ch == 'P', Strict, ReqHttpHTTP, ch);
    case ReqHttpHTTP => ExpectGrammar(g, s, ch == '/', Strict, ReqHttpMajor, ch);
    case ReqHttpMajor => VersionGrammar(g, s, ch);
    case ReqHttpDot => ExpectGrammar(g, s, ch == '.', InvalidVersion, ReqHttpMinor, ch);
    case ReqHttpMinor => VersionGrammar(g, s, ch);
    case ReqHttpEnd => LineGrammar(g, s, ch);
    case ReqLineAlmostDone => ExpectGrammar(g, s, ch == LF, LfExpected, HeaderFieldStart, ch);
    case HeaderValueDiscardWsAlmostDone => ExpectGrammar(g, s, ch == LF, Strict, HeaderValueDiscardLws, ch);
    case HeaderAlmostDone => ExpectGrammar(g, s, ch == LF, LfExpected, HeaderValueLws, ch);
    case ChunkSizeStart => SizeGrammar(g, s, ch);
    case ChunkSize => SizeDigitGrammar(g, s, ch);
    case ChunkParameters => SizeGrammar(g, s, ch);
    case ChunkDataDone => ChunkEndGrammar(g, s, ch);
  }

  lemma CountedStands(g: Phase, s: Parser)
    requires Inv(s) && Stands(s, g)
    ensures var c := Counted(s); Core(c) && Stands(c, g) && c.state == s.state && c.errno.OK? && !Transient(s.state)
  {
    hide Inv;
    InvCore(s);
  }

  lemma ActGrammar(g: Phase, s: Parser, ch: char, checked: bool)
    requires Inv(s) && Stands(s, g)
    ensures Grammatical(g, Resume(s.state), Act(Counted(s), ch, checked), ch)
  {
    hide ActFieldStart, ActField, ActDiscardWs, ActDiscardLws, ActValueStart, ActValue, ActValueLws,
      ActHeadersAlmostDone, ActHeadersDone, ActMessageDone, ActSpacesBeforeUrl, ActUrl, ActUrlPrefix, ActStatus,
      ActStatusStart, ActStatusCode, ActReqMethod, ActStartReq, ActStartReqOrRes, ActStartRes, ActResOrRespH,
      ActFirstStatusCode, ActChunkSizeAlmostDone, ActChunkSize, ActChunkSizeStart, ActChunkParameters, ActChunkData,
      ActChunkDataAlmostDone, ActChunkDataDone, ActBodyIdentity, Inv, Grammatical, Stands, Core;
    var c := Counted(s);
    CountedStands(g, s);
    if Machine.InUrl(s.state) {
      UrlGrammar(g, c, ch);
      UrlEndGrammar(g, c, ch);
    } else {
      match s.state
      case ReqSpacesBeforeUrl => UrlGrammar(g, c, ch);
      case StartReq => StartGrammar(g, c, ch);
      case StartReqOrRes => StartGrammar(g, c, ch);
      case StartRes => StartResGrammar(g, c, ch);
      case ResOrRespH => StartResGrammar(g, c, ch);
      case ReqMethod => MethodGrammar(g, c, ch);
      case ResStatusCode => StandsStatus(g, c); StatusCodeGrammar(g, c, ch);
      case ResStatusStart => StandsStatus(g, c); StatusStartGrammar(g, c, ch);
      case ResStatus => StandsStatus(g, c); StatusGrammar(g, c, ch); assert c.(state := ResStatus) == c;
      case HeaderFieldStart => StandsLine(g, c); FieldStartGrammar(g, c, ch);
      case HeadersAlmostDone => StandsLine(g, c); HeadersAlmostDoneGrammar(g, c, ch);
      case HeaderField => FieldGrammar(g, c, ch);
      case HeaderValueDiscardWs => LwsGrammar(g, c, ch);
      case HeaderValueDiscardLws => DiscardLwsGrammar(g, c, ch);
      case HeaderValue => ValueGrammar(g, c, ch, checked);
      case HeaderValueLws => LwsGrammar(g, c, ch);
      case ChunkSizeAlmostDone => ChunkHeaderGrammar(g, c, ch);
      case ChunkData => InvBody(s); ChunkGrammar(g, c, ch);
      case ChunkDataAlmostDone => ChunkEndGrammar(g, c, ch);
      case BodyIdentity => InvBody(s);
      if c.contentLength == 1 { LastByteGrammar(g, c, ch); } else { BodyGrammar(g, c, ch); }
      case BodyIdentityEof => EofGrammar(g, c, ch, checked);
      case HeaderValueStart => assert false;
      case HeadersDone => assert false;
      case MessageDone => assert false;
      case _ => PlainGrammar(g, c, ch, checked);
    }
  }

  lemma StandsStatus(g: Phase, s: Parser)
    requires Stands(s, g) && s.state in {ResStatusCode, ResStatusStart, ResStatus}
    ensures !s.flags.trailing && if s.state.ResStatus? then g.InStatus? else g.Begun?
  {
  }

  lemma StandsLine(g: Phase, s: Parser)
    requires Stands(s, g) && s.state in {HeaderFieldStart, HeadersAlmostDone}
    ensures Stands(s.(state := HeaderFieldStart), g) && Stands(s.(state := HeadersAlmostDone), g)
  {
  }

  lemma InvBody(s: Parser)
    requires Inv(s) && (s.state.ChunkData? || s.state.BodyIdentity?)
    ensures s.contentLength > 0
  {
    hide FieldState, ValueState, MethodString;
  }

  lemma EofGrammar(g: Phase, s: Parser, ch: char, checked: bool)
    requires Stands(s, g) && s.state.BodyIdentityEof?
    ensures Grammatical(g, NoMark, Act(s, ch, checked), ch)
  {
    assert [Mark(Body)][1..] == [];
  }

  /** Whatever the bytes, the merged callbacks of a run are a prefix of the grammar's language. */
  lemma {:induction false} RunGrammar(lax: bool, s: Parser, t: seq<Event>, data: string)
    requires Inv(s) && Parse(t).At? && Stands(s, Parse(t).phase)
    ensures var o := Run(lax, s, t, data);
            Parse(o.trace).At? && (!o.halt.Failed? ==> Inv(o.s) && Stands(o.s, Parse(o.trace).phase))
  {
    hide Act, Emit, EmitPhase, Stands, Inv, Parse, Resume, Counted;
    if data != [] {
      var d, ch := data[..|data| - 1], data[|data| - 1];
      RunGrammar(lax, s, t, d);
      RunInv(lax, s, t, data);
      var o := Run(lax, s, t, d);
      if o.halt.Running? {
        var e := Act(Counted(o.s), ch, !(lax && o.scan));
        ActGrammar(Parse(o.trace).phase, o.s, ch, !(lax && o.scan));
        ParseEmit(o.trace, Resume(o.s.state), e.acts, ch, e.s.errno.OK?);
      }
    }
  }

  lemma InitGrammar(kind: Kind, lenient: bool)
    ensures Inv(Init(kind, lenient)) && Parse([]) == At(Idle) && Stands(Init(kind, lenient), Idle)
  {
    InvInit(kind, lenient);
  }

  /** The end of the stream, where it may come, completes the message in the grammar. */
  lemma EofKeepsGrammar(s: Parser, t: seq<Event>)
    requires Parse(t).At? && Stands(s, Parse(t).phase) && s.state.BodyIdentityEof?
    ensures Parse(Push(t, Notify(MessageComplete))) == At(Idle)
  {
    hide Parse;
    ParsePush(t, Notify(MessageComplete));
  }
}
