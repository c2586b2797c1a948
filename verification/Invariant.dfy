/** What holds between any two bytes: the internal assertions of http_parser_execute can never fail. */
module Invariant {
  import opened Bytes
  import opened Trace
  import opened Machine
  import opened Bytewise
  import opened Marks

  predicate ChunkState(st: State) {
    st.ChunkSizeStart? || st.ChunkSize? || st.ChunkParameters? || st.ChunkSizeAlmostDone? || st.ChunkData?
    || st.ChunkDataAlmostDone? || st.ChunkDataDone?
  }

  /** States that exist only inside one byte. */
  predicate Transient(st: State) { st.HeadersDone? || st.MessageDone? || st.HeaderValueStart? }

  predicate FieldState(hs: HeaderState, i: nat) {
    match hs
    case General => i < 18
    case C => i == 0
    case CO => i == 1
    case CON => i == 2
    case MatchingConnection => 3 <= i < 9
    case MatchingProxyConnection => i < 15
    case MatchingContentLength => 3 <= i < 13
    case MatchingTransferEncoding => i < 16
    case MatchingUpgrade => i < 6
    case ConnectionName => i < 18
    case ContentLengthName => i < 18
    case TransferEncodingName => i < 18
    case UpgradeName => i < 18
    case _ => false
  }

  predicate ValueState(hs: HeaderState, i: nat) {
    match hs
    case General => i < 10
    case ContentLengthName => i == 0
    case MatchingChunked => i < 6
    case Chunked => i < 10
    case ConnTokenStart => i == 0
    case ConnMatchingKeepAlive => i < 9
    case ConnMatchingClose => i < 4
    case ConnMatchingUpgrade => i < 6
    case ConnToken => i < 10
    case ConnKeepAlive => i < 10
    case ConnClose => i < 10
    case ConnUpgrade => i < 10
    case _ => false
  }

  /** The invariant of a parser without an error.  `index` fits its 7 bits, `status` its 16, and
      `contentLength` its 64. */
  predicate Inv(s: Parser) {
    && s.errno.OK?
    && !Transient(s.state)
    && s.index < 18 && s.status <= 999 && s.major <= 9 && s.minor <= 9 && s.contentLength <= ULLONG_MAX
    && (ChunkState(s.state) ==>
          s.flags.chunked && !s.flags.trailing && (s.state.ChunkSizeStart? || s.contentLength < ULLONG_MAX))
    && (s.state.ChunkSizeStart? ==> s.nread == 0)
    && (s.state.ChunkData? || s.state.BodyIdentity? ==> 0 < s.contentLength < ULLONG_MAX)
    && (s.state.ChunkDataAlmostDone? ==> s.contentLength == 0)
    && (s.state.ReqMethod? ==> 1 <= s.index <= |MethodString(s.verb)|)
    && (s.state.HeaderField? ==> FieldState(s.hs, s.index))
    && (s.state.HeaderValue? ==> ValueState(s.hs, s.index))
    && (s.state.BodyIdentity? || s.state.BodyIdentityEof? ==> !s.flags.trailing && !s.flags.chunked)
    && (s.flags.trailing ==> s.flags.chunked) && !s.flags.skipBody
  }

  lemma InvInit(kind: Kind, lenient: bool)
    ensures Inv(Init(kind, lenient))
  {
  }

  /** An effect without an error leaves the invariant true. */
  ghost predicate Safe(e: Effect) { e.s.errno.OK? ==> Inv(e.s) }

  // The invariant without what it says of the state, for bytes that change the state half way.
  predicate Core(s: Parser) {
    s.errno.OK? && s.index < 18 && s.status <= 999 && s.major <= 9 && s.minor <= 9 && s.contentLength <= ULLONG_MAX
    && (s.flags.trailing ==> s.flags.chunked) && !s.flags.skipBody
  }

  lemma HeadersDoneSafe(s: Parser, ch: char)
    requires Core(s)
    ensures Safe(ActMessageDone(s))
    ensures !s.flags.trailing ==> Safe(ActHeadersDone(s, ch))
  {
    hide FieldState, ValueState, MethodString, ShouldKeepAlive, MessageNeedsEof;
  }

  lemma HeadersAlmostDoneSafe(s: Parser, ch: char)
    requires Core(s)
    ensures Safe(ActHeadersAlmostDone(s, ch))
  {
    hide ActMessageDone, ActHeadersDone, Inv;
    var upgrade := if s.flags.upgrade && s.flags.connUpgrade then s.kind.Request? || s.status == 101
                   else s.verb == CONNECT;
    HeadersDoneSafe(s.(state := MessageDone), ch);
    HeadersDoneSafe(s.(state := HeadersDone, upgrade := upgrade), ch);
  }

  lemma FieldStartSafe(s: Parser, ch: char)
    requires Core(s)
    ensures Safe(ActFieldStart(s, ch))
  {
    hide ActHeadersAlmostDone;
    if ch == LF {
      HeadersAlmostDoneSafe(s.(state := HeadersAlmostDone), ch);
    }
  }

  lemma ValueStartSafe(s: Parser, ch: char)
    requires Core(s)
    ensures Safe(ActValueStart(s, ch))
  {
    hide Inv, ActValueStart, ValueState;
    var e := ActValueStart(s, ch);
    if e.s.errno.OK? {
      ValueStartStates(s, ch);
      ValueStartCore(s, ch);
      ValueInv(e.s);
    }
  }

  lemma ValueInv(s: Parser)
    requires Core(s) && s.state.HeaderValue? && ValueState(s.hs, s.index)
    ensures Inv(s)
  {
    hide ValueState, FieldState, MethodString;
  }

  lemma ValueStartStates(s: Parser, ch: char)
    ensures var e := ActValueStart(s, ch); e.s.errno.OK? ==> ValueState(e.s.hs, e.s.index)
  {
    hide Lower, ConnectionWord, Digit;
    ConnectionWords(Lower(ch));
  }

  lemma ValueStartCore(s: Parser, ch: char)
    requires Core(s)
    ensures var e := ActValueStart(s, ch); e.s.errno.OK? ==> Core(e.s)
  {
    if IsNum(ch) { assert Digit(ch) <= 9; }
    hide Lower, ConnectionWord, IsNum, Digit;
  }

  lemma ConnectionWords(c: char)
    ensures ConnectionWord(c) in {ConnMatchingKeepAlive, ConnMatchingClose, ConnMatchingUpgrade, ConnToken}
  {
  }

  lemma CommitSafe(s: Parser, st: State)
    requires Core(s)
    ensures Core(CommitValue(s).(state := st))
  {
    hide CommitValue;
  }

  lemma MatchWordSafe(s: Parser, word: string, c: char, hit: HeaderState, miss: HeaderState)
    requires s.index < |word| - 1 && c != NUL
    ensures var r := MatchWord(s, word, c, hit, miss);
            r.index == s.index + 1 < |word|
            && (r.hs == miss || (r.hs == hit && r.index == |word| - 1) || (r.hs == s.hs && r.index < |word| - 1))
  {
  }

  lemma FieldCharSafe(s: Parser, ch: char)
    requires Inv(s) && s.state.HeaderField? && IsToken(ch)
    ensures FieldState(FieldChar(s, ch).hs, FieldChar(s, ch).index)
  {
    hide MatchWord, Token;
    var c := Token(ch);
    match s.hs
    case MatchingConnection => MatchWordSafe(s, CONNECTION, c, ConnectionName, General);
    case MatchingProxyConnection => MatchWordSafe(s, PROXY_CONNECTION, c, ConnectionName, General);
    case MatchingContentLength => MatchWordSafe(s, CONTENT_LENGTH, c, ContentLengthName, General);
    case MatchingTransferEncoding => MatchWordSafe(s, TRANSFER_ENCODING, c, TransferEncodingName, General);
    case MatchingUpgrade => MatchWordSafe(s, UPGRADE, c, UpgradeName, General);
    case _ =>
  }

  lemma LowerNotNul(c: char)
    ensures Lower(c) != NUL
  {
  }

  lemma ValueCharSafe(s: Parser, ch: char)
    requires Inv(s) && s.state.HeaderValue?
    ensures Safe(ValueChar(s, ch))
  {
    hide ValueChar, ValueState, FieldState, MethodString;
    ValueCharCore(s, ch);
    ValueCharStates(s, ch);
    if ValueChar(s, ch).s.errno.OK? {
      IndexBound(ValueChar(s, ch).s);
      ValueInv(ValueChar(s, ch).s);
    }
  }

  lemma IndexBound(s: Parser)
    requires ValueState(s.hs, s.index)
    ensures s.index < 18
  {
  }

  lemma ValueCharCore(s: Parser, ch: char)
    requires Core(s)
    ensures var e := ValueChar(s, ch);
            e.s.contentLength <= ULLONG_MAX && (e.s.flags.trailing ==> e.s.flags.chunked) && !e.s.flags.skipBody
  {
    hide MatchWord, Lower, IsToken;
  }

  lemma ValueCharStates(s: Parser, ch: char)
    requires ValueState(s.hs, s.index)
    ensures var e := ValueChar(s, ch); e.s.errno.OK? ==> ValueState(e.s.hs, e.s.index)
  {
    hide MatchWord, Lower, IsToken;
    var c := Lower(ch);
    LowerNotNul(ch);
    match s.hs
    case MatchingChunked => MatchWordSafe(s, CHUNKED, c, Chunked, General);
    case ConnMatchingKeepAlive => MatchWordSafe(s, KEEP_ALIVE, c, ConnKeepAlive, ConnToken);
    case ConnMatchingClose => MatchWordSafe(s, CLOSE, c, ConnClose, ConnToken);
    case ConnMatchingUpgrade => MatchWordSafe(s, UPGRADE, c, ConnUpgrade, ConnToken);
    case _ =>
  }

  lemma MethodSafe(s: Parser, ch: char)
    requires Inv(s) && s.state.ReqMethod?
    ensures Safe(ActReqMethod(s, ch))
  {
    hide MethodString, OtherMethod, FieldState, ValueState;
    OtherMethodLonger(s.verb, s.index, ch);
    MethodLengths(s.verb);
  }

  lemma MethodLengths(m: Method)
    ensures |MethodString(m)| < 17
  {
  }

  lemma OtherMethodLonger(m: Method, i: nat, ch: char)
    ensures var r := OtherMethod(m, i, ch); r.SomeMethod? ==> i < |MethodString(r.m)|
  {
  }

  lemma StartSafe(s: Parser, ch: char)
    requires Core(s)
    ensures s.state.StartReq? ==> Safe(ActStartReq(s, ch))
    ensures s.state.StartReqOrRes? ==> Safe(ActStartReqOrRes(s, ch))
    ensures s.state.StartRes? ==> Safe(ActStartRes(s, ch))
    ensures s.state.ResOrRespH? ==> Safe(ActResOrRespH(s, ch))
  {
    hide IsAlpha, FirstMethod, FieldState, ValueState, MethodString;
    FirstMethods(ch);
  }

  lemma FirstMethods(ch: char)
    ensures FirstMethod(ch).SomeMethod? ==> |MethodString(FirstMethod(ch).m)| >= 2
    ensures |MethodString(HEAD)| >= 2
  {
  }

  lemma UrlSafe(s: Parser, ch: char)
    requires Inv(s)
    ensures InUrl(s.state) ==> Safe(ActUrl(s, ch)) && Safe(ActUrlPrefix(s, ch))
    ensures s.state.ReqSpacesBeforeUrl? ==> Safe(ActSpacesBeforeUrl(s, ch))
  {
    hide ParseUrlChar, UrlStep, FieldState, ValueState, MethodString;
    UrlStepSafe(s, s.state, ch);
    UrlStepSafe(s, ReqServerStart, ch);
    if s.state.ReqSpacesBeforeUrl? { UrlStepSafe(s, ReqSpacesBeforeUrl, ch); }
  }

  lemma UrlStepSafe(s: Parser, from: State, ch: char)
    requires Core(s)
    ensures Safe(UrlStep(s, from, ch))
  {
    hide ParseUrlChar, FieldState, ValueState, MethodString;
    UrlStates(from, ch);
  }

  lemma UrlStates(st: State, ch: char)
    ensures var r := ParseUrlChar(st, ch); r.Dead? || InUrl(r)
  {
    hide IsAlpha, IsUrlChar, IsUserinfoChar;
  }

  lemma FieldSafe(s: Parser, ch: char)
    requires Inv(s) && s.state.HeaderField?
    ensures Safe(ActField(s, ch))
  {
    hide FieldChar, IsToken, FieldState, ValueState, MethodString;
    if IsToken(ch) { FieldCharSafe(s, ch); FieldBound(FieldChar(s, ch)); }
  }

  lemma ValueSafe(s: Parser, ch: char, checked: bool)
    requires Inv(s) && s.state.HeaderValue?
    ensures Safe(ActValue(s, ch, checked))
  {
    hide ValueChar, IsHeaderChar, FieldState, ValueState, MethodString;
    ValueCharSafe(s, ch);
  }

  lemma HeaderSafe(s: Parser, ch: char)
    requires Inv(s)
    ensures s.state.HeaderValueDiscardWs? ==> Safe(ActDiscardWs(s, ch))
    ensures s.state.HeaderValueDiscardLws? ==> Safe(ActDiscardLws(s, ch))
    ensures s.state.HeaderValueLws? ==> Safe(ActValueLws(s, ch))
  {
    hide ActValueStart, ActFieldStart, CommitValue, FieldState, ValueState, MethodString;
    ValueStartSafe(s, ch);
    CommitSafe(s, HeaderFieldStart);
    FieldStartSafe(CommitValue(s).(state := HeaderFieldStart), ch);
  }

  lemma FieldBound(s: Parser)
    requires FieldState(s.hs, s.index)
    ensures s.index < 18
  {
  }

  lemma StatusEndSafe(s: Parser, ch: char)
    requires Core(s)
    ensures Safe(ActStatusStart(s, ch))
    ensures s.state.ResStatus? ==> Safe(ActStatus(s, ch))
  {
    hide Inv;
    LooseInv(s.(state := ResLineAlmostDone));
    LooseInv(s.(state := HeaderFieldStart));
    LooseInv(s.(state := ResLineAlmostDone, index := 0));
    LooseInv(s.(state := HeaderFieldStart, index := 0));
    LooseInv(s.(state := ResStatus, index := 0));
    LooseInv(s.(state := ResStatus));
  }

  lemma StatusSafe(s: Parser, ch: char)
    requires Core(s)
    ensures s.state.ResStatusCode? ==> Safe(ActStatusCode(s, ch))
    ensures s.state.ResFirstStatusCode? ==> Safe(ActFirstStatusCode(s, ch))
  {
    hide Inv, ActStatusStart;
    StatusEndSafe(s, ch);
    if Loose(s.state) { LooseInv(s); }
    LooseInv(s.(state := ResStatusStart));
    if IsNum(ch) {
      LooseInv(s.(status := Digit(ch), state := ResStatusCode));
      var n := s.status * 10 + Digit(ch);
      if Loose(s.state) && n <= 999 { LooseInv(s.(status := n)); }
    }
  }

  lemma BodySafe(s: Parser, ch: char)
    requires Inv(s)
    ensures s.state.BodyIdentity? ==> Safe(ActBodyIdentity(s))
    ensures s.state.ChunkData? ==> Safe(ActChunkData(s))
    ensures s.state.ChunkDataAlmostDone? ==> Safe(ActChunkDataAlmostDone(s, ch))
    ensures s.state.ChunkDataDone? ==> Safe(ActChunkDataDone(s, ch))
  {
    hide ActMessageDone, FieldState, ValueState, MethodString;
    var s' := s.(contentLength := if s.contentLength == 0 then 0 else s.contentLength - 1, state := MessageDone);
    HeadersDoneSafe(s', ch);
  }

  lemma ChunkSizeSafe(s: Parser, ch: char)
    requires s.state.ChunkSizeStart? ==> Inv(s.(nread := 0))
    requires !s.state.ChunkSizeStart? ==> Inv(s)
    ensures s.state.ChunkSizeStart? ==> Safe(ActChunkSizeStart(s, ch))
    ensures s.state.ChunkSize? ==> Safe(ActChunkSize(s, ch))
    ensures s.state.ChunkParameters? ==> Safe(ActChunkParameters(s, ch))
    ensures s.state.ChunkSizeAlmostDone? ==> Safe(ActChunkSizeAlmostDone(s, ch))
  {
    hide Unhex, FieldState, ValueState, MethodString;
    UnhexRange(ch);
  }

  lemma UnhexRange(ch: char)
    ensures -1 <= Unhex(ch) < 16
  {
  }

  /** States of which the invariant says nothing. */
  predicate Loose(st: State) {
    !Transient(st) && !ChunkState(st)
    && st !in {BodyIdentity, BodyIdentityEof, ReqMethod, HeaderField, HeaderValue}
  }

  lemma LooseInv(s: Parser)
    requires Core(s) && Loose(s.state)
    ensures Inv(s)
  {
    hide FieldState, ValueState, MethodString;
  }

  lemma ExpectSafe(s: Parser, ok: bool, e: Errno, st: State)
    requires Core(s) && Loose(st) && !e.OK?
    ensures Safe(Expect(s, ok, e, st))
  {
    hide Inv;
    LooseInv(s.(state := st));
  }

  lemma VersionSafe(s: Parser, ch: char, st: State)
    requires Core(s) && Loose(st)
    ensures Safe(ActMajor(s, ch, st)) && Safe(ActMinor(s, ch, st))
  {
    hide Inv, Loose;
    if IsNum(ch) {
      LooseInv(s.(major := Digit(ch), state := st));
      LooseInv(s.(minor := Digit(ch), state := st));
    }
  }

  lemma LineSafe(s: Parser, ch: char)
    requires Core(s)
    ensures s.state.Dead? ==> Safe(ActDead(s, ch))
    ensures s.state.ReqHttpStart? ==> Safe(ActReqHttpStart(s, ch))
    ensures s.state.ReqHttpEnd? ==> Safe(ActReqHttpEnd(s, ch))
  {
    hide Inv;
    if s.state.Dead? || s.state.ReqHttpStart? { LooseInv(s); }
    LooseInv(s.(state := ReqHttpH));
    LooseInv(s.(state := ReqLineAlmostDone));
    LooseInv(s.(state := HeaderFieldStart));
  }

  const RESPONSE_LINE :=
    {Dead, ResH, ResHT, ResHTT, ResHTTP, ResHttpMajor, ResHttpDot, ResHttpMinor, ResHttpEnd, ResLineAlmostDone}

  lemma PlainResponseSafe(s: Parser, ch: char, checked: bool)
    requires Inv(s)
    requires PlainState(s.state) && !ChunkState(s.state)
    requires s.state !in {StartRes, ResOrRespH, ResFirstStatusCode}
    requires s.state in RESPONSE_LINE
    ensures Safe(Act(s, ch, checked))
  {
    hide Inv, Safe, Core, Expect, ActDead, ActMajor, ActMinor, ActReqHttpStart, ActReqHttpEnd, ActFieldStart, ActField,
      ActDiscardWs, ActDiscardLws, ActValueStart, ActValue, ActValueLws, ActHeadersAlmostDone, ActHeadersDone, ActUrl,
      ActStatus, ActStatusStart, ActStatusCode, ActReqMethod, ActStartReq, ActStartReqOrRes, ActStartRes,
      ActBodyIdentity;
    InvCore(s);
    match s.state
    case Dead => LineSafe(s, ch);
    case ResH => ExpectSafe(s, ch == 'T', Strict, ResHT);
    case ResHT => ExpectSafe(s, ch == 'T', Strict, ResHTT);
    case ResHTT => ExpectSafe(s, ch == 'P', Strict, ResHTTP);
    case ResHTTP => ExpectSafe(s, ch == '/', Strict, ResHttpMajor);
    case ResHttpMajor => VersionSafe(s, ch, ResHttpDot);
    case ResHttpDot => ExpectSafe(s, ch == '.', InvalidVersion, ResHttpMinor);
    case ResHttpMinor => VersionSafe(s, ch, ResHttpEnd);
    case ResHttpEnd => ExpectSafe(s, ch == ' ', InvalidVersion, ResFirstStatusCode);
    case ResLineAlmostDone => ExpectSafe(s, ch == LF, Strict, HeaderFieldStart);
  }

  lemma PlainRequestSafe(s: Parser, ch: char, checked: bool)
    requires Inv(s)
    requires PlainState(s.state) && !ChunkState(s.state)
    requires s.state !in {StartRes, ResOrRespH, ResFirstStatusCode}
    requires s.state !in RESPONSE_LINE
    ensures Safe(Act(s, ch, checked))
  {
    hide Inv, Safe, Core, Expect, ActDead, ActMajor, ActMinor, ActReqHttpStart, ActReqHttpEnd, ActFieldStart, ActField,
      ActDiscardWs, ActDiscardLws, ActValueStart, ActValue, ActValueLws, ActHeadersAlmostDone, ActHeadersDone, ActUrl,
      ActStatus, ActStatusStart, ActStatusCode, ActReqMethod, ActStartReq, ActStartReqOrRes, ActStartRes,
      ActBodyIdentity;
    InvCore(s);
    match s.state
    case ReqHttpStart => LineSafe(s, ch);
    case ReqHttpH => ExpectSafe(s, ch == 'T', Strict, ReqHttpHT);
    case ReqHttpHT => ExpectSafe(s, ch == 'T', Strict, ReqHttpHTT);
    case ReqHttpHTT => ExpectSafe(s, ch == 'P', Strict, ReqHttpHTTP);
    case ReqHttpHTTP => ExpectSafe(s, ch == '/', Strict, ReqHttpMajor);
    case ReqHttpMajor => VersionSafe(s, ch, ReqHttpDot);
    case ReqHttpDot => ExpectSafe(s, ch == '.', InvalidVersion, ReqHttpMinor);
    case ReqHttpMinor => VersionSafe(s, ch, ReqHttpEnd);
    case ReqHttpEnd => LineSafe(s, ch);
    case ReqLineAlmostDone => ExpectSafe(s, ch == LF, LfExpected, HeaderFieldStart);
    case HeaderValueDiscardWsAlmostDone => ExpectSafe(s, ch == LF, Strict, HeaderValueDiscardLws);
    case HeaderAlmostDone => ExpectSafe(s, ch == LF, LfExpected, HeaderValueLws);
  }

  lemma InvCore(s: Parser)
    requires Inv(s)
    ensures Core(s) && !Transient(s.state)
  {
    hide FieldState, ValueState, MethodString;
  }

  lemma CountedInv(s: Parser)
    requires Inv(s)
    ensures Counted(s).state == s.state
    ensures if s.state.ChunkSizeStart? then Counted(s).(nread := 0) == s && Counted(s).nread == 1 else Inv(Counted(s))
  {
    hide FieldState, ValueState, MethodString;
  }

  lemma HeaderActSafe(s: Parser, ch: char, checked: bool)
    requires Inv(s)
    requires s.state.HeaderFieldStart? || s.state.HeaderField? || s.state.HeaderValueDiscardWs?
             || s.state.HeaderValueDiscardLws? || s.state.HeaderValue? || s.state.HeaderValueLws?
             || s.state.HeadersAlmostDone?
    ensures Safe(Act(s, ch, checked))
  {
    hide Act, ActFieldStart, ActField, ActDiscardWs, ActDiscardLws, ActValue, ActValueLws, ActHeadersAlmostDone, Safe,
        Inv;
    InvCore(s);
    ActIs(s, ch, checked);
    FieldStartSafe(s, ch);
    if s.state.HeaderField? { FieldSafe(s, ch); }
    if s.state.HeaderValue? { ValueSafe(s, ch, checked); }
    HeaderSafe(s, ch);
    HeadersAlmostDoneSafe(s, ch);
  }

  lemma UrlActSafe(s: Parser, ch: char, checked: bool)
    requires Inv(s) && (InUrl(s.state) || s.state.ReqSpacesBeforeUrl?)
    ensures Safe(Act(s, ch, checked))
  {
    hide ActFieldStart, ActField, ActDiscardWs, ActDiscardLws, ActValueStart, ActValue, ActValueLws,
      ActHeadersAlmostDone, ActHeadersDone, ActMessageDone, ActSpacesBeforeUrl, ActUrl, ActUrlPrefix, ActStatus,
      ActStatusStart, ActStatusCode, ActReqMethod, ActStartReq, ActStartReqOrRes, ActStartRes, ActResOrRespH,
      ActFirstStatusCode, ActChunkSizeAlmostDone, ActChunkSize, ActChunkSizeStart, ActChunkParameters, ActChunkData,
      ActChunkDataAlmostDone, ActChunkDataDone, ActBodyIdentity, Safe, Inv, Core;
    UrlSafe(s, ch);
  }

  lemma StartActSafe(s: Parser, ch: char, checked: bool)
    requires Inv(s)
    requires s.state.StartReq? || s.state.StartReqOrRes? || s.state.StartRes? || s.state.ResOrRespH?
             || s.state.ReqMethod?
    ensures Safe(Act(s, ch, checked))
  {
    hide ActFieldStart, ActField, ActDiscardWs, ActDiscardLws, ActValueStart, ActValue, ActValueLws,
      ActHeadersAlmostDone, ActHeadersDone, ActMessageDone, ActSpacesBeforeUrl, ActUrl, ActUrlPrefix, ActStatus,
      ActStatusStart, ActStatusCode, ActReqMethod, ActStartReq, ActStartReqOrRes, ActStartRes, ActResOrRespH,
      ActFirstStatusCode, ActChunkSizeAlmostDone, ActChunkSize, ActChunkSizeStart, ActChunkParameters, ActChunkData,
      ActChunkDataAlmostDone, ActChunkDataDone, ActBodyIdentity, Safe, Inv, Core;
    InvCore(s);
    StartSafe(s, ch);
    if s.state.ReqMethod? { MethodSafe(s, ch); }
  }

  lemma StatusActSafe(s: Parser, ch: char, checked: bool)
    requires Inv(s)
    requires s.state.ResFirstStatusCode? || s.state.ResStatusCode? || s.state.ResStatusStart? || s.state.ResStatus?
    ensures Safe(Act(s, ch, checked))
  {
    hide ActFieldStart, ActField, ActDiscardWs, ActDiscardLws, ActValueStart, ActValue, ActValueLws,
      ActHeadersAlmostDone, ActHeadersDone, ActMessageDone, ActSpacesBeforeUrl, ActUrl, ActUrlPrefix, ActStatus,
      ActStatusStart, ActStatusCode, ActReqMethod, ActStartReq, ActStartReqOrRes, ActStartRes, ActResOrRespH,
      ActFirstStatusCode, ActChunkSizeAlmostDone, ActChunkSize, ActChunkSizeStart, ActChunkParameters, ActChunkData,
      ActChunkDataAlmostDone, ActChunkDataDone, ActBodyIdentity, Safe, Inv, Core;
    InvCore(s);
    StatusSafe(s, ch);
    StatusEndSafe(s, ch);
  }

  lemma ChunkActSafe(s: Parser, ch: char, checked: bool)
    requires if s.state.ChunkSizeStart? then Inv(s.(nread := 0))
             else Inv(s) && (s.state.ChunkSize? || s.state.ChunkParameters? || s.state.ChunkSizeAlmostDone?)
    ensures Safe(Act(s, ch, checked))
  {
    hide ActFieldStart, ActField, ActDiscardWs, ActDiscardLws, ActValueStart, ActValue, ActValueLws,
      ActHeadersAlmostDone, ActHeadersDone, ActMessageDone, ActSpacesBeforeUrl, ActUrl, ActUrlPrefix, ActStatus,
      ActStatusStart, ActStatusCode, ActReqMethod, ActStartReq, ActStartReqOrRes, ActStartRes, ActResOrRespH,
      ActFirstStatusCode, ActChunkSizeAlmostDone, ActChunkSize, ActChunkSizeStart, ActChunkParameters, ActChunkData,
      ActChunkDataAlmostDone, ActChunkDataDone, ActBodyIdentity, Safe, Inv, Core;
    ChunkSizeSafe(s, ch);
  }

  lemma BodyActSafe(s: Parser, ch: char, checked: bool)
    requires Inv(s)
    requires s.state.ChunkData? || s.state.ChunkDataAlmostDone? || s.state.ChunkDataDone? || s.state.BodyIdentity?
             || s.state.BodyIdentityEof?
    ensures Safe(Act(s, ch, checked))
  {
    hide ActFieldStart, ActField, ActDiscardWs, ActDiscardLws, ActValueStart, ActValue, ActValueLws,
      ActHeadersAlmostDone, ActHeadersDone, ActMessageDone, ActSpacesBeforeUrl, ActUrl, ActUrlPrefix, ActStatus,
      ActStatusStart, ActStatusCode, ActReqMethod, ActStartReq, ActStartReqOrRes, ActStartRes, ActResOrRespH,
      ActFirstStatusCode, ActChunkSizeAlmostDone, ActChunkSize, ActChunkSizeStart, ActChunkParameters, ActChunkData,
      ActChunkDataAlmostDone, ActChunkDataDone, ActBodyIdentity, Safe, Inv, Core;
    BodySafe(s, ch);
    if s.state.BodyIdentityEof? { EofSafe(s, ch, checked); }
  }

  lemma PlainActSafe(s: Parser, ch: char, checked: bool)
    requires Inv(s) && PlainState(s.state) && !ChunkState(s.state)
    requires s.state !in {StartRes, ResOrRespH, ResFirstStatusCode}
    ensures Safe(Act(s, ch, checked))
  {
    hide Act, Safe, Inv;
    if s.state in RESPONSE_LINE { PlainResponseSafe(s, ch, checked); } else { PlainRequestSafe(s, ch, checked); }
  }

  /** No byte, checked or skipped, breaks the invariant.  A chunk size starts with `nread` equal to one. */
  lemma ActSafe(s: Parser, ch: char, checked: bool)
    requires Inv(s)
    ensures Safe(Act(Counted(s), ch, checked))
    ensures s.state.ChunkSizeStart? ==> Counted(s).nread == 1
  {
    var c := Counted(s);
    CountedInv(s);
    InvCore(s);
    hide Act, Safe, Inv, Core, Counted;
    match s.state
    case ChunkSizeStart => ChunkActSafe(c, ch, checked);
    case ChunkSize => ChunkActSafe(c, ch, checked);
    case ChunkParameters => ChunkActSafe(c, ch, checked);
    case ChunkSizeAlmostDone => ChunkActSafe(c, ch, checked);
    case ReqSpacesBeforeUrl => UrlActSafe(c, ch, checked);
    case StartReq => StartActSafe(c, ch, checked);
    case StartReqOrRes => StartActSafe(c, ch, checked);
    case StartRes => StartActSafe(c, ch, checked);
    case ResOrRespH => StartActSafe(c, ch, checked);
    case ReqMethod => StartActSafe(c, ch, checked);
    case ResFirstStatusCode => StatusActSafe(c, ch, checked);
    case ResStatusCode => StatusActSafe(c, ch, checked);
    case ResStatusStart => StatusActSafe(c, ch, checked);
    case ResStatus => StatusActSafe(c, ch, checked);
    case HeaderFieldStart => HeaderActSafe(c, ch, checked);
    case HeaderField => HeaderActSafe(c, ch, checked);
    case HeaderValueDiscardWs => HeaderActSafe(c, ch, checked);
    case HeaderValueDiscardLws => HeaderActSafe(c, ch, checked);
    case HeaderValue => HeaderActSafe(c, ch, checked);
    case HeaderValueLws => HeaderActSafe(c, ch, checked);
    case HeadersAlmostDone => HeaderActSafe(c, ch, checked);
    case ChunkData => BodyActSafe(c, ch, checked);
    case ChunkDataAlmostDone => BodyActSafe(c, ch, checked);
    case ChunkDataDone => BodyActSafe(c, ch, checked);
    case BodyIdentity => BodyActSafe(c, ch, checked);
    case BodyIdentityEof => BodyActSafe(c, ch, checked);
    case _ => if InUrl(s.state) { UrlActSafe(c, ch, checked); } else { PlainActSafe(c, ch, checked); }
  }

  lemma EofSafe(s: Parser, ch: char, checked: bool)
    requires Inv(s) && s.state.BodyIdentityEof?
    ensures Safe(Act(s, ch, checked))
  {
  }

  lemma {:induction false} RunInv(lax: bool, s: Parser, t: seq<Event>, data: string)
    requires Inv(s)
    ensures var o := Run(lax, s, t, data); (!o.halt.Failed? ==> Inv(o.s)) && (o.halt.Failed? ==> !o.s.errno.OK?)
  {
    hide Act, Emit;
    if data != [] {
      RunInv(lax, s, t, data[..|data| - 1]);
      var o := Run(lax, s, t, data[..|data| - 1]);
      if o.halt.Running? {
        ActSafe(o.s, data[|data| - 1], !(lax && o.scan));
      }
    }
  }
}
