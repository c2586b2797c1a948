/** The marks of one call, kept over many bytes, against the callbacks of single bytes. */
module Marks {
  import opened Bytes
  import opened Trace
  import opened Machine
  import opened Bytewise

  type Marked = map<DataKind, nat>

  /** The callbacks made, and what the open mark will deliver if the call delivers at `p`. */
  function Pending(calls: seq<Event>, marks: Marked, data: string, p: nat): seq<Event>
    requires forall k :: k in marks ==> marks[k] <= p <= |data|
  {
    var m := Merge(calls);
    var m := if Url in marks then Grow(m, Url, data[marks[Url]..p]) else m;
    var m := if Status in marks then Grow(m, Status, data[marks[Status]..p]) else m;
    var m := if Field in marks then Grow(m, Field, data[marks[Field]..p]) else m;
    var m := if Value in marks then Grow(m, Value, data[marks[Value]..p]) else m;
    if Body in marks then Grow(m, Body, data[marks[Body]..p]) else m
  }

  datatype Performed = Performed(calls: seq<Event>, marks: Marked)

  /** The macros MARK, CALLBACK_DATA and CALLBACK_NOTIFY at byte `p`, in order. */
  function Perform(calls: seq<Event>, marks: Marked, acts: seq<Action>, data: string, p: nat): Performed
    requires p < |data|
    requires forall k :: k in marks ==> marks[k] <= p
    decreases |acts|
  {
    if acts == [] then Performed(calls, marks)
    else match acts[0]
      case Mark(k) => Perform(calls, if k in marks then marks else marks[k := p], acts[1..], data, p)
      case Deliver(k) =>
        if k in marks then Perform(calls + [Data(k, data[marks[k]..p])], marks - {k}, acts[1..], data, p)
        else Perform(calls, marks, acts[1..], data, p)
      case DeliverThrough(k) =>
        if k in marks then Perform(calls + [Data(k, data[marks[k]..p + 1])], marks - {k}, acts[1..], data, p)
        else Perform(calls, marks, acts[1..], data, p)
      case Tell(n) => Perform(calls + [Notify(n)], marks, acts[1..], data, p)
  }

  /** No second mark is set and no notification runs while a mark is open. */
  predicate Tame(live: Live, acts: seq<Action>)
    decreases |acts|
  {
    acts == [] ||
    match acts[0]
    case Mark(k) => (live.NoMark? || live == Live(k)) && Tame(Live(k), acts[1..])
    case Deliver(k) => Tame(if live == Live(k) then NoMark else live, acts[1..])
    case DeliverThrough(k) => Tame(if live == Live(k) then NoMark else live, acts[1..])
    case Tell(_) => live.NoMark? && Tame(live, acts[1..])
  }

  /** The mark that is open after the actions. */
  function Left(live: Live, acts: seq<Action>): Live
    decreases |acts|
  {
    if acts == [] then live
    else match acts[0]
      case Mark(k) => Left(if live.NoMark? then Live(k) else live, acts[1..])
      case Deliver(k) => Left(if live == Live(k) then NoMark else live, acts[1..])
      case DeliverThrough(k) => Left(if live == Live(k) then NoMark else live, acts[1..])
      case Tell(_) => Left(live, acts[1..])
  }

  predicate SameMark(live: Live, marks: Marked) {
    if live.NoMark? then marks == map[] else marks.Keys == {live.kind}
  }

  lemma PendingOne(calls: seq<Event>, k: DataKind, m: nat, data: string, p: nat)
    requires m <= p <= |data|
    ensures Pending(calls, map[k := m], data, p) == Grow(Merge(calls), k, data[m..p])
  {
  }

  lemma PendingNone(calls: seq<Event>, data: string, p: nat)
    requires p <= |data|
    ensures Pending(calls, map[], data, p) == Merge(calls)
  {
  }

  lemma OneMark(marks: Marked, k: DataKind)
    requires marks.Keys == {k}
    ensures marks == map[k := marks[k]] && marks - {k} == map[]
  {
  }

  /** Marks over a whole call and marks over one byte deliver the same bytes. */
  lemma {:induction false} PerformEmit(
      calls: seq<Event>, marks: Marked, live: Live, acts: seq<Action>, data: string, p: nat, ok: bool)
    requires p < |data|
    requires forall k :: k in marks ==> marks[k] <= p
    requires SameMark(live, marks) && Tame(live, acts)
    ensures var r := Perform(calls, marks, acts, data, p);
            SameMark(Left(live, acts), r.marks)
            && (forall k :: k in r.marks ==> r.marks[k] <= p)
            && Pending(r.calls, r.marks, data, if ok then p + 1 else p)
            == Emit(Pending(calls, marks, data, p), live, acts, data[p], ok)
    decreases |acts|
  {
    hide Merge, Push, Pending;
    PendingNone(calls, data, p);
    PendingNone(calls, data, p + 1);
    var t := Pending(calls, marks, data, p);
    if live.Live? {
      var k := live.kind;
      OneMark(marks, k);
      PendingOne(calls, k, marks[k], data, p);
      PendingOne(calls, k, marks[k], data, p + 1);
      if acts == [] {
        if ok {
          SliceSnoc(data, marks[k], p);
          GrowTwice(Merge(calls), k, data[marks[k]..p], [data[p]]);
        }
      } else if acts[0] == Deliver(k) {
        var d := Data(k, data[marks[k]..p]);
        MergeSnoc(calls, d);
        assert marks[k] == p ==> d.bytes == [];
        if marks[k] < p { PushEmpty(Merge(calls), k, d.bytes); }
        PendingNone(calls + [d], data, p);
        PerformEmit(calls + [d], map[], NoMark, acts[1..], data, p, ok);
      } else if acts[0] == DeliverThrough(k) {
        var d := Data(k, data[marks[k]..p + 1]);
        MergeSnoc(calls, d);
        SliceSnoc(data, marks[k], p);
        GrowTwice(Merge(calls), k, data[marks[k]..p], [data[p]]);
        PendingNone(calls + [d], data, p);
        PerformEmit(calls + [d], map[], NoMark, acts[1..], data, p, ok);
      } else {
        PerformEmit(calls, marks, live, acts[1..], data, p, ok);
      }
    } else if acts != [] {
      match acts[0]
      case Mark(k) =>
        PendingOne(calls, k, p, data, p);
        PerformEmit(calls, map[k := p], Live(k), acts[1..], data, p, ok);
      case Tell(n) =>
        MergeSnoc(calls, Notify(n));
        PendingNone(calls + [Notify(n)], data, p);
        PerformEmit(calls + [Notify(n)], marks, live, acts[1..], data, p, ok);
      case _ =>
        PerformEmit(calls, marks, live, acts[1..], data, p, ok);
    }
  }

  lemma {:induction false} TameAfter(live: Live, a: seq<Action>, b: seq<Action>)
    ensures Tame(live, a) && Tame(Left(live, a), b) ==> Tame(live, a + b)
    ensures Tame(live, a) ==> Left(live, a + b) == Left(Left(live, a), b)
    decreases |a|
  {
    if a == [] {
      assert a + b == b;
    } else {
      assert (a + b)[1..] == a[1..] + b;
      match a[0]
      case Mark(k) => TameAfter(Live(k), a[1..], b);
      case Deliver(k) => TameAfter(if live == Live(k) then NoMark else live, a[1..], b);
      case DeliverThrough(k) => TameAfter(if live == Live(k) then NoMark else live, a[1..], b);
      case Tell(_) => TameAfter(live, a[1..], b);
    }
  }

  /** The effect `e` of a byte that finds `live` open: the marks stay in step with the state. */
  ghost predicate InStep(live: Live, e: Effect) {
    Tame(live, e.acts)
    && (e.s.errno.OK? ==> Left(live, e.acts) == Resume(e.s.state))
    && (e.exits ==> e.s.state in {StartReq, StartRes, Dead})
  }

  lemma AfterInStep(live: Live, acts: seq<Action>, e: Effect)
    requires Tame(live, acts) && InStep(Left(live, acts), e)
    ensures InStep(live, After(acts, e))
  {
    TameAfter(live, acts, e.acts);
  }

  lemma HeadersDoneInStep(s: Parser, ch: char)
    ensures InStep(NoMark, ActHeadersDone(s, ch)) && InStep(NoMark, ActMessageDone(s))
  {
  }

  lemma HeadersAlmostDoneInStep(s: Parser, ch: char)
    ensures InStep(NoMark, ActHeadersAlmostDone(s, ch))
  {
    if ch == LF {
      if s.flags.trailing {
        HeadersDoneInStep(s.(state := MessageDone), ch);
        AfterInStep(NoMark, [Tell(ChunkComplete)], ActMessageDone(s.(state := MessageDone)));
      } else if !(s.flags.chunked && s.flags.contentLength) {
        var upgrade := if s.flags.upgrade && s.flags.connUpgrade then s.kind.Request? || s.status == 101
                       else s.verb == CONNECT;
        var s' := s.(state := HeadersDone, upgrade := upgrade);
        HeadersDoneInStep(s', ch);
        AfterInStep(NoMark, [Tell(HeadersComplete(s.contentLength, s.flags.chunked, upgrade))], ActHeadersDone(s', ch));
      }
    }
  }

  lemma FieldStartInStep(s: Parser, ch: char)
    ensures InStep(NoMark, ActFieldStart(s, ch))
  {
    if ch == LF {
      HeadersAlmostDoneInStep(s.(state := HeadersAlmostDone), ch);
    }
  }

  lemma ValueStartInStep(s: Parser, ch: char)
    ensures InStep(NoMark, ActValueStart(s, ch))
  {
    var e := ActValueStart(s, ch);
    assert e.acts == [Mark(Value)];
    assert e.s.state == HeaderValue;
  }

  lemma FieldInStep(s: Parser, ch: char)
    requires s.state.HeaderField?
    ensures InStep(Live(Field), ActField(s, ch))
  {
    hide FieldChar, IsToken;
  }

  lemma ValueInStep(s: Parser, ch: char, checked: bool)
    requires s.state.HeaderValue?
    ensures InStep(Live(Value), ActValue(s, ch, checked))
  {
    hide ValueChar, IsHeaderChar;
    if ch == LF {
      AfterInStep(Live(Value), [Deliver(Value)], ActAlmostDone(s.(state := HeaderAlmostDone), ch));
    }
  }

  lemma LinesInStep(s: Parser, ch: char)
    ensures InStep(NoMark, ActDiscardWs(s.(state := HeaderValueDiscardWs), ch))
    ensures InStep(NoMark, ActValueLws(s, ch))
  {
    hide ActValueStart, ActFieldStart, CommitValue;
    ValueStartInStep(s.(state := HeaderValueDiscardWs), ch);
    ValueStartInStep(s, ch);
    FieldStartInStep(CommitValue(s).(state := HeaderFieldStart), ch);
  }

  lemma DiscardLwsInStep(s: Parser, ch: char)
    requires s.state.HeaderValueDiscardLws?
    ensures InStep(NoMark, ActDiscardLws(s, ch))
  {
    if ch != ' ' && ch != TAB {
      var e := ActFieldStart(CommitValue(s).(state := HeaderFieldStart), ch);
      FieldStartInStep(CommitValue(s).(state := HeaderFieldStart), ch);
      assert Tame(Live(Value), [Deliver(Value)]) && Left(Live(Value), [Deliver(Value)]).NoMark?;
      AfterInStep(Live(Value), [Deliver(Value)], e);
      AfterInStep(NoMark, [Mark(Value)], After([Deliver(Value)], e));
      assert [Mark(Value)] + ([Deliver(Value)] + e.acts) == [Mark(Value), Deliver(Value)] + e.acts;
    }
  }

  lemma UrlStepInStep(s: Parser, from: State, ch: char)
    ensures InStep(Live(Url), UrlStep(s, from, ch))
  {
    hide IsAlpha, IsUrlChar, IsUserinfoChar;
  }

  lemma FirstUrlInStep(s: Parser, ch: char)
    requires s.state.ReqSpacesBeforeUrl?
    ensures InStep(NoMark, ActSpacesBeforeUrl(s, ch))
  {
    hide UrlStep;
    if ch != ' ' {
      var from := if s.verb == CONNECT then ReqServerStart else ReqSpacesBeforeUrl;
      UrlStepInStep(s, from, ch);
      AfterInStep(NoMark, [Mark(Url)], UrlStep(s, from, ch));
    }
  }

  lemma UrlInStep(s: Parser, ch: char)
    requires InUrl(s.state)
    ensures InStep(Live(Url), ActUrl(s, ch)) && InStep(Live(Url), ActUrlPrefix(s, ch))
  {
    hide UrlStep;
    UrlStepInStep(s, s.state, ch);
  }

  lemma StatusInStep(s: Parser, ch: char)
    ensures InStep(Live(Status), ActStatus(s.(state := ResStatus), ch))
    ensures InStep(NoMark, ActStatusStart(s, ch))
    ensures InStep(NoMark, ActStatusCode(s.(state := ResStatusCode), ch))
  {
    var r := s.(state := ResStatus, index := 0);
    assert InStep(Live(Status), ActStatus(s.(state := ResStatus), ch));
    assert InStep(Live(Status), ActStatus(r, ch));
    assert InStep(Live(Status), Stay(r));
    AfterInStep(NoMark, [Mark(Status)], ActStatus(r, ch));
    AfterInStep(NoMark, [Mark(Status)], Stay(r));
  }

  /** The bytes whose marks do not outlive the state: every state but those of a body. */
  predicate LineState(st: State) { ParsingHeader(st) || st.ChunkDataDone? || st.MessageDone? }

  lemma ActInStep(s: Parser, ch: char, checked: bool)
    requires LineState(s.state)
    ensures InStep(Resume(s.state), Act(s, ch, checked))
  {
    hide Tame, Left, InStep, ActFieldStart, ActField, ActDiscardWs, ActDiscardLws, ActValueStart, ActValue, ActValueLws,
      ActHeadersAlmostDone, ActHeadersDone, ActMessageDone, ActSpacesBeforeUrl, ActUrl, ActUrlPrefix, ActStatus,
      ActStatusStart, ActStatusCode, ActReqMethod, ActStartReq, ActStartReqOrRes, ActChunkSizeAlmostDone;
    if InUrl(s.state) {
      UrlInStep(s, ch);
    } else {
      match s.state
      case StartReqOrRes => StartInStep(s, ch);
      case StartReq => StartInStep(s, ch);
      case ReqMethod => MethodInStep(s, ch);
      case HeaderFieldStart => FieldStartInStep(s, ch);
      case HeaderField => FieldInStep(s, ch);
      case HeaderValueDiscardWs => LinesInStep(s, ch); assert s.(state := HeaderValueDiscardWs) == s;
      case HeaderValueDiscardLws => DiscardLwsInStep(s, ch);
      case HeaderValueStart => ValueStartInStep(s, ch);
      case HeaderValue => ValueInStep(s, ch, checked);
      case HeaderValueLws => LinesInStep(s, ch);
      case HeadersAlmostDone => HeadersAlmostDoneInStep(s, ch);
      case HeadersDone => HeadersDoneInStep(s, ch);
      case MessageDone => HeadersDoneInStep(s, ch);
      case ReqSpacesBeforeUrl => FirstUrlInStep(s, ch);
      case ResStatusCode => StatusInStep(s, ch); assert s.(state := ResStatusCode) == s;
      case ResStatusStart => StatusInStep(s, ch);
      case ResStatus => StatusInStep(s, ch); assert s.(state := ResStatus) == s;
      case ChunkSizeAlmostDone => ChunkHeaderInStep(s, ch);
      case _ => PlainInStep(s, ch, checked);
    }
  }

  predicate PlainState(st: State) {
    LineState(st) && !InUrl(st)
    && st !in {StartReqOrRes, StartReq, ReqMethod, HeaderFieldStart, HeaderField, HeaderValueDiscardWs,
               HeaderValueDiscardLws, HeaderValueStart, HeaderValue, HeaderValueLws, HeadersAlmostDone, HeadersDone,
               MessageDone, ReqSpacesBeforeUrl, ResStatusCode, ResStatusStart, ResStatus, ChunkSizeAlmostDone}
  }

  lemma ExpectInStep(s: Parser, ok: bool, e: Errno, st: State)
    requires Resume(st).NoMark? && Resume(s.state).NoMark?
    ensures InStep(NoMark, Expect(s, ok, e, st))
  {
  }

  lemma MajorInStep(s: Parser, ch: char, st: State)
    requires Resume(st).NoMark?
    ensures InStep(NoMark, ActMajor(s, ch, st))
  {
    hide IsNum, Resume;
  }

  lemma MinorInStep(s: Parser, ch: char, st: State)
    requires Resume(st).NoMark?
    ensures InStep(NoMark, ActMinor(s, ch, st))
  {
    hide IsNum, Resume;
  }

  lemma ResponseInStep(s: Parser, ch: char)
    ensures s.state.Dead? ==> InStep(NoMark, ActDead(s, ch))
    ensures s.state.ResOrRespH? ==> InStep(NoMark, ActResOrRespH(s, ch))
    ensures s.state.StartRes? ==> InStep(NoMark, ActStartRes(s, ch))
  {
  }

  lemma PairInStep(s: Parser, ch: char)
    requires Resume(s.state).NoMark?
    ensures InStep(NoMark, ActReqHttpStart(s, ch)) && InStep(NoMark, ActReqHttpEnd(s, ch))
    ensures InStep(NoMark, ActFirstStatusCode(s, ch)) && InStep(NoMark, ActChunkDataDone(s, ch))
  {
    hide IsNum;
  }

  lemma SizeInStep(s: Parser, ch: char)
    requires Resume(s.state).NoMark?
    ensures InStep(NoMark, ActChunkSizeStart(s, ch)) && InStep(NoMark, ActChunkSize(s, ch))
    ensures InStep(NoMark, ActChunkParameters(s, ch))
  {
    hide Unhex;
  }

  lemma PlainInStep(s: Parser, ch: char, checked: bool)
    requires PlainState(s.state)
    ensures InStep(Resume(s.state), Act(s, ch, checked))
  {
    hide Expect, ActMajor, ActMinor, ActDead, ActReqHttpStart, ActReqHttpEnd, ActResOrRespH, ActStartRes,
      ActFirstStatusCode, ActChunkSizeStart, ActChunkSize, ActChunkParameters, ActChunkDataDone, InStep;
    match s.state
    case Dead => ResponseInStep(s, ch);
    case ResOrRespH => ResponseInStep(s, ch);
    case StartRes => ResponseInStep(s, ch);
    case ResH => ExpectInStep(s, ch == 'T', Strict, ResHT);
    case ResHT => ExpectInStep(s, ch == 'T', Strict, ResHTT);
    case ResHTT => ExpectInStep(s, ch == 'P', Strict, ResHTTP);
    case ResHTTP => ExpectInStep(s, ch == '/', Strict, ResHttpMajor);
    case ResHttpMajor => MajorInStep(s, ch, ResHttpDot);
    case ResHttpDot => ExpectInStep(s, ch == '.', InvalidVersion, ResHttpMinor);
    case ResHttpMinor => MinorInStep(s, ch, ResHttpEnd);
    case ResHttpEnd => ExpectInStep(s, ch == ' ', InvalidVersion, ResFirstStatusCode);
    case ResFirstStatusCode => PairInStep(s, ch);
    case ResLineAlmostDone => ExpectInStep(s, ch == LF, Strict, HeaderFieldStart);
    case ReqHttpStart => PairInStep(s, ch);
    case ReqHttpH => ExpectInStep(s, ch == 'T', Strict, ReqHttpHT);
    case ReqHttpHT => ExpectInStep(s, ch == 'T', Strict, ReqHttpHTT);
    case ReqHttpHTT => ExpectInStep(s, ch == 'P', Strict, ReqHttpHTTP);
    case ReqHttpHTTP => ExpectInStep(s, ch == '/', Strict, ReqHttpMajor);
    case ReqHttpMajor => MajorInStep(s, ch, ReqHttpDot);
    case ReqHttpDot => ExpectInStep(s, ch == '.', InvalidVersion, ReqHttpMinor);
    case ReqHttpMinor => MinorInStep(s, ch, ReqHttpEnd);
    case ReqHttpEnd => PairInStep(s, ch);
    case ReqLineAlmostDone => ExpectInStep(s, ch == LF, LfExpected, HeaderFieldStart);
    case HeaderValueDiscardWsAlmostDone => ExpectInStep(s, ch == LF, Strict, HeaderValueDiscardLws);
    case HeaderAlmostDone => ExpectInStep(s, ch == LF, LfExpected, HeaderValueLws);
    case ChunkSizeStart => SizeInStep(s, ch);
    case ChunkSize => SizeInStep(s, ch);
    case ChunkParameters => SizeInStep(s, ch);
    case ChunkDataDone => PairInStep(s, ch);
  }

  lemma StartInStep(s: Parser, ch: char)
    requires s.state.StartReq? || s.state.StartReqOrRes?
    ensures InStep(NoMark, ActStartReq(s, ch))
    ensures s.state.StartReqOrRes? ==> InStep(NoMark, ActStartReqOrRes(s, ch))
  {
    hide IsAlpha, FirstMethod;
  }

  lemma MethodInStep(s: Parser, ch: char)
    requires s.state.ReqMethod?
    ensures InStep(NoMark, ActReqMethod(s, ch))
  {
    hide OtherMethod, MethodString, At;
  }

  lemma ChunkHeaderInStep(s: Parser, ch: char)
    requires s.state.ChunkSizeAlmostDone?
    ensures InStep(NoMark, ActChunkSizeAlmostDone(s, ch))
  {
    if ch == LF {
      var e := ActChunkSizeAlmostDone(s, ch);
      assert e.acts == [e.acts[0]] && e.acts[0].Tell? && e.acts[1..] == [];
    }
  }
}
