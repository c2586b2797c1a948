/** However the bytes are cut into calls, the parser sees the same messages. */
module Splitting {
  import opened Bytes
  import opened Trace
  import opened Machine
  import opened Bytewise
  import opened Marks
  import opened Invariant
  import opened Scans
  import opened Limits

  /** Effects that differ in the header count alone: kept, at `n` and at `x`, or reset in both. */
  ghost predicate SameBut(e: Effect, e': Effect, n: nat, x: nat) {
    && e'.acts == e.acts && e'.exits == e.exits
    && e'.s == e.s.(nread := e'.s.nread)
    && ((e.s.nread == n && e'.s.nread == x) || (e.s.nread == 0 && e'.s.nread == 0))
  }

  lemma MessageEndSame(s: Parser, ch: char, x: nat)
    ensures SameBut(ActMessageDone(s), ActMessageDone(s.(nread := x)), s.nread, x)
    ensures SameBut(ActHeadersDone(s, ch), ActHeadersDone(s.(nread := x), ch), s.nread, x)
  {
    hide ShouldKeepAlive;
    assert ShouldKeepAlive(s.(nread := x)) == ShouldKeepAlive(s) by { KeepAliveSame(s, x); }
    KeepAliveSame(s, 0);
  }

  lemma KeepAliveSame(s: Parser, x: nat)
    ensures ShouldKeepAlive(s.(nread := x)) == ShouldKeepAlive(s)
    ensures NewMessage(s.(nread := x)) == NewMessage(s)
  {
  }

  lemma HeadersEndSame(s: Parser, ch: char, x: nat)
    ensures SameBut(ActHeadersAlmostDone(s, ch), ActHeadersAlmostDone(s.(nread := x), ch), s.nread, x)
  {
    hide ActMessageDone, ActHeadersDone;
    var upgrade := if s.flags.upgrade && s.flags.connUpgrade then s.kind.Request? || s.status == 101
                   else s.verb == CONNECT;
    MessageEndSame(s.(state := MessageDone), ch, x);
    MessageEndSame(s.(state := HeadersDone, upgrade := upgrade), ch, x);
    assert s.(nread := x).(state := MessageDone) == s.(state := MessageDone).(nread := x);
    assert s.(nread := x).(state := HeadersDone, upgrade := upgrade)
        == s.(state := HeadersDone, upgrade := upgrade).(nread := x);
  }

  lemma FieldStartSame(s: Parser, ch: char, x: nat)
    ensures SameBut(ActFieldStart(s, ch), ActFieldStart(s.(nread := x), ch), s.nread, x)
  {
    hide ActHeadersAlmostDone, Token;
    HeadersEndSame(s.(state := HeadersAlmostDone), ch, x);
    assert s.(nread := x).(state := HeadersAlmostDone) == s.(state := HeadersAlmostDone).(nread := x);
  }

  lemma ValueStartSame(s: Parser, ch: char, x: nat)
    ensures SameBut(ActValueStart(s, ch), ActValueStart(s.(nread := x), ch), s.nread, x)
  {
    hide ConnectionWord, Lower, IsNum;
    match s.hs
    case UpgradeName =>
    case TransferEncodingName =>
    case ContentLengthName =>
    case ConnectionName =>
    case ConnTokenStart =>
    case _ =>
  }

  lemma CommitSame(s: Parser, x: nat, st: State)
    ensures CommitValue(s.(nread := x)).(state := st) == CommitValue(s).(state := st).(nread := x)
    ensures CommitValue(s).nread == s.nread
  {
  }

  lemma HeaderSame(s: Parser, ch: char, checked: bool, x: nat)
    ensures SameBut(ActField(s, ch), ActField(s.(nread := x), ch), s.nread, x)
    ensures SameBut(ActDiscardWs(s, ch), ActDiscardWs(s.(nread := x), ch), s.nread, x)
    ensures SameBut(ActDiscardLws(s, ch), ActDiscardLws(s.(nread := x), ch), s.nread, x)
    ensures SameBut(ActValue(s, ch, checked), ActValue(s.(nread := x), ch, checked), s.nread, x)
    ensures SameBut(ActValueLws(s, ch), ActValueLws(s.(nread := x), ch), s.nread, x)
  {
    hide FieldChar, ValueChar, IsToken, IsHeaderChar, ActValueStart, ActFieldStart, CommitValue;
    FieldCharKeepsNread(s, ch, x);
    ValueCharKeepsNread(s, ch, x);
    ValueStartSame(s, ch, x);
    CommitSame(s, x, HeaderFieldStart);
    FieldStartSame(CommitValue(s).(state := HeaderFieldStart), ch, x);
  }

  lemma StartReqSame(s: Parser, ch: char, x: nat)
    ensures SameBut(ActStartReq(s, ch), ActStartReq(s.(nread := x), ch), s.nread, x)
  {
    hide IsAlpha, FirstMethod;
  }

  lemma StartSame(s: Parser, ch: char, x: nat)
    ensures SameBut(ActStartReqOrRes(s, ch), ActStartReqOrRes(s.(nread := x), ch), s.nread, x)
    ensures SameBut(ActStartRes(s, ch), ActStartRes(s.(nread := x), ch), s.nread, x)
    ensures SameBut(ActResOrRespH(s, ch), ActResOrRespH(s.(nread := x), ch), s.nread, x)
  {
    hide ActStartReq;
    var s' := FreshMessage(s).(kind := Request, state := StartReq);
    StartReqSame(s', ch, x);
    assert FreshMessage(s.(nread := x)).(kind := Request, state := StartReq) == s'.(nread := x);
  }

  lemma MethodSame(s: Parser, ch: char, x: nat)
    ensures SameBut(ActReqMethod(s, ch), ActReqMethod(s.(nread := x), ch), s.nread, x)
  {
    hide OtherMethod, MethodString, At;
  }

  lemma UrlStepSame(s: Parser, from: State, ch: char, x: nat)
    ensures SameBut(UrlStep(s, from, ch), UrlStep(s.(nread := x), from, ch), s.nread, x)
  {
    hide ParseUrlChar;
  }

  lemma UrlSame(s: Parser, ch: char, x: nat)
    ensures SameBut(ActSpacesBeforeUrl(s, ch), ActSpacesBeforeUrl(s.(nread := x), ch), s.nread, x)
    ensures SameBut(ActUrl(s, ch), ActUrl(s.(nread := x), ch), s.nread, x)
    ensures SameBut(ActUrlPrefix(s, ch), ActUrlPrefix(s.(nread := x), ch), s.nread, x)
  {
    hide UrlStep;
    UrlStepSame(s, s.state, ch, x);
    UrlStepSame(s, if s.verb == CONNECT then ReqServerStart else ReqSpacesBeforeUrl, ch, x);
  }

  lemma StatusSame(s: Parser, ch: char, x: nat)
    ensures SameBut(ActFirstStatusCode(s, ch), ActFirstStatusCode(s.(nread := x), ch), s.nread, x)
    ensures SameBut(ActStatusStart(s, ch), ActStatusStart(s.(nread := x), ch), s.nread, x)
    ensures SameBut(ActStatus(s, ch), ActStatus(s.(nread := x), ch), s.nread, x)
  {
    hide IsNum;
  }

  lemma StatusCodeSame(s: Parser, ch: char, x: nat)
    ensures SameBut(ActStatusCode(s, ch), ActStatusCode(s.(nread := x), ch), s.nread, x)
  {
    hide IsNum, ActStatusStart;
    StatusSame(s, ch, x);
  }

  lemma ChunkSame(s: Parser, ch: char, x: nat)
    ensures SameBut(ActChunkSizeStart(s, ch), ActChunkSizeStart(s.(nread := x), ch), s.nread, x)
    ensures SameBut(ActChunkSize(s, ch), ActChunkSize(s.(nread := x), ch), s.nread, x)
    ensures SameBut(ActChunkSizeAlmostDone(s, ch), ActChunkSizeAlmostDone(s.(nread := x), ch), s.nread, x)
  {
    hide Unhex;
  }

  lemma BodySame(s: Parser, ch: char, x: nat)
    ensures SameBut(ActChunkData(s), ActChunkData(s.(nread := x)), s.nread, x)
    ensures SameBut(ActChunkDataDone(s, ch), ActChunkDataDone(s.(nread := x), ch), s.nread, x)
    ensures SameBut(ActBodyIdentity(s), ActBodyIdentity(s.(nread := x)), s.nread, x)
  {
    hide ActMessageDone;
    var s' := s.(contentLength := if s.contentLength == 0 then 0 else s.contentLength - 1, state := MessageDone);
    MessageEndSame(s', ch, x);
  }

  /** The header count decides nothing but whether the limit is reached. */
  lemma ActSame(s: Parser, ch: char, checked: bool, x: nat)
    ensures SameBut(Act(s, ch, checked), Act(s.(nread := x), ch, checked), s.nread, x)
  {
    hide ActFieldStart, ActField, ActDiscardWs, ActDiscardLws, ActValueStart, ActValue, ActValueLws,
      ActHeadersAlmostDone, ActHeadersDone, ActMessageDone, ActSpacesBeforeUrl, ActUrl, ActUrlPrefix, ActStatus,
      ActStatusStart, ActStatusCode, ActReqMethod, ActStartReq, ActStartReqOrRes, ActStartRes, ActResOrRespH,
      ActFirstStatusCode, ActChunkSizeAlmostDone, ActChunkSize, ActChunkSizeStart, ActChunkData, ActChunkDataDone,
      ActBodyIdentity, SameBut;
    if InUrl(s.state) {
      UrlSame(s, ch, x);
    } else {
      match s.state
      case StartReq => StartReqSame(s, ch, x);
      case StartReqOrRes => StartSame(s, ch, x);
      case StartRes => StartSame(s, ch, x);
      case ResOrRespH => StartSame(s, ch, x);
      case ReqMethod => MethodSame(s, ch, x);
      case ReqSpacesBeforeUrl => UrlSame(s, ch, x);
      case ResFirstStatusCode => StatusSame(s, ch, x);
      case ResStatusCode => StatusCodeSame(s, ch, x);
      case ResStatusStart => StatusSame(s, ch, x);
      case ResStatus => StatusSame(s, ch, x);
      case HeaderFieldStart => FieldStartSame(s, ch, x);
      case HeaderField => HeaderSame(s, ch, checked, x);
      case HeaderValueDiscardWs => HeaderSame(s, ch, checked, x);
      case HeaderValueDiscardLws => HeaderSame(s, ch, checked, x);
      case HeaderValueStart => ValueStartSame(s, ch, x);
      case HeaderValue => HeaderSame(s, ch, checked, x);
      case HeaderValueLws => HeaderSame(s, ch, checked, x);
      case HeadersAlmostDone => HeadersEndSame(s, ch, x);
      case HeadersDone => MessageEndSame(s, ch, x);
      case MessageDone => MessageEndSame(s, ch, x);
      case ChunkSizeStart => ChunkSame(s, ch, x);
      case ChunkSize => ChunkSame(s, ch, x);
      case ChunkSizeAlmostDone => ChunkSame(s, ch, x);
      case ChunkData => BodySame(s, ch, x);
      case ChunkDataDone => BodySame(s, ch, x);
      case BodyIdentity => BodySame(s, ch, x);
      case _ => PlainSame(s, ch, checked, x);
    }
  }

  lemma ExpectSame(s: Parser, ok: bool, e: Errno, st: State, x: nat)
    ensures SameBut(Expect(s, ok, e, st), Expect(s.(nread := x), ok, e, st), s.nread, x)
  {
  }

  lemma SimpleSame(s: Parser, ch: char, st: State, x: nat)
    ensures SameBut(ActMajor(s, ch, st), ActMajor(s.(nread := x), ch, st), s.nread, x)
    ensures SameBut(ActMinor(s, ch, st), ActMinor(s.(nread := x), ch, st), s.nread, x)
  {
    hide IsNum;
  }

  lemma PairSame(s: Parser, ch: char, x: nat)
    ensures SameBut(ActDead(s, ch), ActDead(s.(nread := x), ch), s.nread, x)
    ensures SameBut(ActReqHttpStart(s, ch), ActReqHttpStart(s.(nread := x), ch), s.nread, x)
    ensures SameBut(ActReqHttpEnd(s, ch), ActReqHttpEnd(s.(nread := x), ch), s.nread, x)
    ensures SameBut(ActChunkParameters(s, ch), ActChunkParameters(s.(nread := x), ch), s.nread, x)
    ensures SameBut(ActChunkDataAlmostDone(s, ch), ActChunkDataAlmostDone(s.(nread := x), ch), s.nread, x)
  {
  }

  lemma PlainSame(s: Parser, ch: char, checked: bool, x: nat)
    requires (PlainState(s.state)
               && s.state !in {StartRes, ResOrRespH, ResFirstStatusCode, ChunkSizeStart, ChunkSize, ChunkDataDone})
             || s.state.ChunkDataAlmostDone? || s.state.BodyIdentityEof? || s.state.ChunkParameters?
    ensures SameBut(Act(s, ch, checked), Act(s.(nread := x), ch, checked), s.nread, x)
  {
    hide Expect, ActMajor, ActMinor, ActDead, ActReqHttpStart, ActReqHttpEnd, ActChunkParameters,
      ActChunkDataAlmostDone, SameBut;
    match s.state
    case Dead => PairSame(s, ch, x);
    case ResH => ExpectSame(s, ch == 'T', Strict, ResHT, x);
    case ResHT => ExpectSame(s, ch == 'T', Strict, ResHTT, x);
    case ResHTT => ExpectSame(s, ch == 'P', Strict, ResHTTP, x);
    case ResHTTP => ExpectSame(s, ch == '/', Strict, ResHttpMajor, x);
    case ResHttpMajor => SimpleSame(s, ch, ResHttpDot, x);
    case ResHttpDot => ExpectSame(s, ch == '.', InvalidVersion, ResHttpMinor, x);
    case ResHttpMinor => SimpleSame(s, ch, ResHttpEnd, x);
    case ResHttpEnd => ExpectSame(s, ch == ' ', InvalidVersion, ResFirstStatusCode, x);
    case ResLineAlmostDone => ExpectSame(s, ch == LF, Strict, HeaderFieldStart, x);
    case ReqHttpStart => PairSame(s, ch, x);
    case ReqHttpH => ExpectSame(s, ch == 'T', Strict, ReqHttpHT, x);
    case ReqHttpHT => ExpectSame(s, ch == 'T', Strict, ReqHttpHTT, x);
    case ReqHttpHTT => ExpectSame(s, ch == 'P', Strict, ReqHttpHTTP, x);
    case ReqHttpHTTP => ExpectSame(s, ch == '/', Strict, ReqHttpMajor, x);
    case ReqHttpMajor => SimpleSame(s, ch, ReqHttpDot, x);
    case ReqHttpDot => ExpectSame(s, ch == '.', InvalidVersion, ReqHttpMinor, x);
    case ReqHttpMinor => SimpleSame(s, ch, ReqHttpEnd, x);
    case ReqHttpEnd => PairSame(s, ch, x);
    case ReqLineAlmostDone => ExpectSame(s, ch == LF, LfExpected, HeaderFieldStart, x);
    case HeaderValueDiscardWsAlmostDone => ExpectSame(s, ch == LF, Strict, HeaderValueDiscardLws, x);
    case HeaderAlmostDone => ExpectSame(s, ch == LF, LfExpected, HeaderValueLws, x);
    case ChunkParameters => PairSame(s, ch, x);
    case ChunkDataAlmostDone => PairSame(s, ch, x);
    case BodyIdentityEof => EofSame(s, ch, checked, x);
  }

  lemma EofSame(s: Parser, ch: char, checked: bool, x: nat)
    requires s.state.BodyIdentityEof?
    ensures SameBut(Act(s, ch, checked), Act(s.(nread := x), ch, checked), s.nread, x)
  {
  }

  // ----- the header count along a run

  /** A run from a parser whose count is ahead by `x - s.nread`. */
  ghost predicate Ahead(o: Outcome, o': Outcome, gap: nat) {
    && o'.s == o.s.(nread := o'.s.nread) && o.s.nread <= o'.s.nread <= o.s.nread + gap
    && o'.trace == o.trace && o'.scan == o.scan && o'.n == o.n && o'.halt == o.halt
  }

  lemma {:induction false} RunAhead(lax: bool, s: Parser, t: seq<Event>, data: string, gap: nat)
    ensures Ahead(Run(lax, s, t, data), Run(lax, s.(nread := s.nread + gap), t, data), gap)
  {
    hide Act, Emit, Resume;
    if data != [] {
      var d := data[..|data| - 1];
      RunAhead(lax, s, t, d, gap);
      var o, o' := Run(lax, s, t, d), Run(lax, s.(nread := s.nread + gap), t, d);
      if o.halt.Running? {
        var ch := data[|data| - 1];
        ActSame(Counted(o.s), ch, !(lax && o.scan), Counted(o'.s).nread);
        assert Counted(o'.s) == Counted(o.s).(nread := Counted(o'.s).nread);
      }
    }
  }

  /** A count that is ahead stays so while every byte is counted, and is exact as soon as one is not. */
  function Kept(s: Parser, o: Outcome, bytes: nat, lead: nat): nat { if o.s.nread == s.nread + bytes then lead else 0 }

  lemma {:induction false} KeepsLead(s: Parser, t: seq<Event>, data: string, lead: nat)
    requires lead > 0 ==> ParsingHeader(s.state)
    ensures var o := Run(false, s, t, data);
            o.halt.Running? ==>
              && Run(false, s.(nread := s.nread + lead), t, data).s.nread == o.s.nread + Kept(s, o, |data|, lead)
              && (Kept(s, o, |data|, lead) > 0 ==> ParsingHeader(o.s.state))
              && o.s.nread <= s.nread + |data|
  {
    hide Act, Emit, Resume, ParsingHeader;
    if data != [] {
      var n := |data| - 1;
      var d := data[..n];
      RunAhead(false, s, t, d, lead);
      KeepsLead(s, t, d, lead);
      var o, o' := Run(false, s, t, d), Run(false, s.(nread := s.nread + lead), t, d);
      if o.halt.Running? { LeadStep(o.s, o'.s, data[n]); }
    }
  }

  /** One more byte. */
  lemma LeadStep(s: Parser, s': Parser, ch: char)
    requires s' == s.(nread := s'.nread) && s.nread <= s'.nread && (s.nread < s'.nread ==> ParsingHeader(s.state))
    ensures var r, r' := Act(Counted(s), ch, true).s, Act(Counted(s'), ch, true).s;
            && r.nread <= s.nread + 1
            && r'.nread == r.nread + (if r.nread == s.nread + 1 then s'.nread - s.nread else 0)
            && (r.errno.OK? && r.nread == s.nread + 1 && s.nread < s'.nread ==> ParsingHeader(r.state))
  {
    hide Act, ParsingHeader;
    ActSame(Counted(s), ch, true, Counted(s').nread);
    ActCount(Counted(s), ch, true);
    ActEnds(Counted(s), ch, true);
    assert Counted(s') == Counted(s).(nread := Counted(s').nread);
  }

  // ----- the bytes the skip jumps over

  /** The byte at `i` of one call is a control byte that the skip passes unchecked. */
  ghost predicate Jumped(s: Parser, t: seq<Event>, data: string, i: nat) {
    && 0 < i < |data|
    && Scanning(Run(false, s, t, data[..i - 1]).s)
    && var o := Run(false, s, t, data[..i]);
    && o.halt.Running? && Scanning(o.s) && !o.s.lenient && !IsHeaderChar(data[i])
  }

  ghost predicate SameRun(o: Outcome, o': Outcome) { o' == o.(scan := o'.scan) }

  lemma ScanStays(s: Parser, ch: char, checked: bool)
    requires Scanning(s)
    ensures var e := Act(Counted(s), ch, checked); e.s.errno.OK? && e.s.state.HeaderValue? ==> Scanning(e.s)
  {
    hide IsHeaderChar;
    var c := Counted(s);
    assert Act(c, ch, checked) == ActValue(c, ch, checked);
    assert ValueChar(c, ch) == Stay(c);
  }

  lemma ActUncheckedSame(s: Parser, ch: char, checked: bool)
    requires s.state.HeaderValue? ==> s.lenient || IsHeaderChar(ch)
    ensures Act(s, ch, checked) == Act(s, ch, true)
  {
    hide ActFieldStart, ActField, ActDiscardWs, ActDiscardLws, ActValueStart, ActValueLws, ActAlmostDone,
      ActHeadersAlmostDone, ActHeadersDone, ActMessageDone, ActSpacesBeforeUrl, ActUrl, ActUrlPrefix, ActStatus,
      ActStatusStart, ActStatusCode, ActReqMethod, ActStartReq, ActStartReqOrRes, ActStartRes, ActResOrRespH,
      ActFirstStatusCode, ActChunkSizeAlmostDone, ActChunkSize, ActChunkSizeStart, ActChunkParameters, ActChunkData,
      ActChunkDataAlmostDone, ActChunkDataDone, ActBodyIdentity, Expect, ActMajor, ActMinor, ActDead, IsHeaderChar,
      ValueChar;
  }

  lemma {:induction false} RunOk(lax: bool, s: Parser, t: seq<Event>, data: string)
    requires s.errno.OK?
    ensures Run(lax, s, t, data).halt.Failed? <==> !Run(lax, s, t, data).s.errno.OK?
  {
    hide Act, Emit, Resume;
    if data != [] { RunOk(lax, s, t, data[..|data| - 1]); }
  }

  lemma {:induction false} RunGrows(lax: bool, s: Parser, t: seq<Event>, data: string, p: nat)
    requires p <= |data|
    ensures Run(lax, s, t, data[..p]).n <= Run(lax, s, t, data).n
    decreases |data|
  {
    hide Act, Emit, Resume;
    if p == |data| {
      assert data[..p] == data;
    } else {
      var d := data[..|data| - 1];
      assert d[..p] == data[..p];
      RunGrows(lax, s, t, d, p);
    }
  }

  /** Up to `p`, with no jump before, the skipping run is the checking run. */
  ghost predicate LaxLike(s: Parser, t: seq<Event>, data: string, p: nat)
    requires p <= |data|
  {
    var o, l := Run(false, s, t, data[..p]), Run(true, s, t, data[..p]);
    SameRun(o, l) && (o.halt.Running? ==> l.scan == (p > 0 && Scanning(Run(false, s, t, data[..p - 1]).s)))
  }

  lemma {:induction false} LaxFollows(s: Parser, t: seq<Event>, data: string, p: nat)
    requires s.errno.OK? && p <= |data| && forall i :: 0 <= i < p ==> !Jumped(s, t, data, i)
    ensures LaxLike(s, t, data, p)
  {
    hide Act, Emit, Resume, Run, IsHeaderChar;
    if p == 0 {
      assert data[..0] == [];
      assert Run(false, s, t, []) == Run(true, s, t, []) == Outcome(s, t, false, 0, Running) by { RunNone(s, t); }
    } else {
      var q := p - 1;
      LaxFollows(s, t, data, q);
      RunSnoc(false, s, t, data, q);
      RunSnoc(true, s, t, data, q);
      var o, l := Run(false, s, t, data[..q]), Run(true, s, t, data[..q]);
      if o.halt.Running? && l.scan {
        LaxStep(s, t, data, q);
        ActUncheckedSame(Counted(o.s), data[q], false);
      }
    }
  }

  lemma RunNone(s: Parser, t: seq<Event>)
    ensures Run(false, s, t, []) == Run(true, s, t, []) == Outcome(s, t, false, 0, Running)
  {
  }

  /** After a scanned byte the next one is scanned too, or ends the value. */
  lemma LaxStep(s: Parser, t: seq<Event>, data: string, q: nat)
    requires s.errno.OK? && 0 < q < |data| && !Jumped(s, t, data, q)
    requires Run(false, s, t, data[..q]).halt.Running? && Scanning(Run(false, s, t, data[..q - 1]).s)
    ensures var o := Run(false, s, t, data[..q]); o.s.state.HeaderValue? ==> o.s.lenient || IsHeaderChar(data[q])
  {
    hide Act, Emit, Resume, Run, IsHeaderChar;
    var o1 := Run(false, s, t, data[..q - 1]);
    RunSnoc(false, s, t, data, q - 1);
    assert o1.halt.Running?;
    ScanStays(o1.s, data[q - 1], true);
    RunOk(false, s, t, data[..q]);
  }

  /** The skip changes what a call does exactly when it jumps over a control byte. */
  lemma SkipAgreesIff(s: Parser, t: seq<Event>, data: string)
    requires s.errno.OK?
    ensures SameRun(Run(false, s, t, data), Run(true, s, t, data)) <==> !exists i :: Jumped(s, t, data, i)
  {
    hide Act, Emit, Resume, Run, IsHeaderChar, Jumped;
    assert data[..|data|] == data;
    if i :| Jumped(s, t, data, i) {
      JumpDiffers(s, t, data, i);
    } else {
      LaxFollows(s, t, data, |data|);
    }
  }

  lemma JumpDiffers(s: Parser, t: seq<Event>, data: string, i: nat)
    requires s.errno.OK? && Jumped(s, t, data, i)
    ensures Run(false, s, t, data).n == i < Run(true, s, t, data).n
    ensures Run(false, s, t, data).s.errno.InvalidHeaderToken?
  {
    hide Act, Emit, Resume, Run, IsHeaderChar, ValueChar;
    var o := Run(false, s, t, data[..i]);
    RunCount(false, s, t, data[..i]);
    RunSnoc(false, s, t, data, i);
    RunOk(false, s, t, data[..i]);
    var c := Counted(o.s);
    assert Act(c, data[i], true) == Fail(c, InvalidHeaderToken) by { ControlFails(c, data[i]); }
    RunStops(false, s, t, data, i + 1);
    forall j | 0 <= j < i
      ensures !Jumped(s, t, data, j)
    {
      if Jumped(s, t, data, j) { JumpStops(s, t, data, j, i); }
    }
    LaxFollows(s, t, data, i);
    var l := Run(true, s, t, data[..i]);
    RunSnoc(true, s, t, data, i);
    assert Act(c, data[i], false) == Stay(c) by { ControlPasses(c, data[i]); }
    assert Run(true, s, t, data[..i + 1]).n == i + 1;
    RunGrows(true, s, t, data, i + 1);
  }

  lemma ControlFails(s: Parser, ch: char)
    requires Scanning(s) && !s.lenient && !IsHeaderChar(ch)
    ensures Act(s, ch, true) == Fail(s, InvalidHeaderToken)
  {
  }

  lemma ControlPasses(s: Parser, ch: char)
    requires Scanning(s) && !IsHeaderChar(ch)
    ensures Act(s, ch, false) == Stay(s)
  {
  }

  lemma JumpStops(s: Parser, t: seq<Event>, data: string, j: nat, i: nat)
    requires s.errno.OK? && Jumped(s, t, data, j) && j < i <= |data|
    ensures !Run(false, s, t, data[..i]).halt.Running?
  {
    hide Act, Emit, Resume, Run, IsHeaderChar;
    RunSnoc(false, s, t, data, j);
    RunOk(false, s, t, data[..j]);
    var o := Run(false, s, t, data[..j]);
    assert Act(Counted(o.s), data[j], true) == Fail(Counted(o.s), InvalidHeaderToken)
      by { ControlFails(Counted(o.s), data[j]); }
    assert data[..i][..j + 1] == data[..j + 1];
    RunStops(false, s, t, data[..i], j + 1);
  }
}
