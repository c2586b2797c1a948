/** How fast the header count grows: the bound that makes one check after a scan as good as one for each byte. */
module Limits {
  import opened Bytes
  import opened Trace
  import opened Machine
  import opened Bytewise

  /** What no byte does: it does not raise the count, and does not change the leniency. */
  predicate Mild(s: Parser, r: Parser) { r.nread <= s.nread && r.lenient == s.lenient }

  lemma ValueBeginCount(s: Parser, ch: char)
    ensures Mild(s, ValueBegin(s, ch))
  {
    hide Lower, ConnectionWord;
  }

  lemma EndCount(s: Parser, ch: char)
    ensures Mild(s, ActHeadersAlmostDone(s, ch).s) && Mild(s, ActHeadersDone(s, ch).s)
    ensures Mild(s, ActMessageDone(s).s)
  {
    hide NewMessage, MessageNeedsEof;
  }

  lemma FieldStartCount(s: Parser, ch: char)
    ensures Mild(s, ActFieldStart(s, ch).s)
  {
    hide Token, FirstHeaderState, ActHeadersAlmostDone;
    EndCount(s.(state := HeadersAlmostDone), ch);
  }

  lemma LineCount(s: Parser, ch: char)
    ensures Mild(s, ActDiscardWs(s, ch).s)
    ensures Mild(s, ActValueLws(s, ch).s) && Mild(s, ActDiscardLws(s, ch).s)
  {
    hide ActFieldStart, CommitValue, ValueBegin;
    ValueBeginCount(s.(state := HeaderValue, index := 0), ch);
    FieldStartCount(CommitValue(s).(state := HeaderFieldStart), ch);
  }

  lemma FieldCount(s: Parser, ch: char, checked: bool)
    ensures Mild(s, ActField(s, ch).s) && Mild(s, ActValue(s, ch, checked).s)
  {
    hide FieldChar, ValueChar, IsToken, IsHeaderChar;
  }

  lemma StartCount(s: Parser, ch: char)
    ensures Mild(s, ActStartReq(s, ch).s) && Mild(s, ActStartReqOrRes(s, ch).s)
    ensures Mild(s, ActReqMethod(s, ch).s) && Mild(s, ActResOrRespH(s, ch).s)
    ensures Mild(s, ActStartRes(s, ch).s)
  {
    hide FirstMethod, OtherMethod, MethodString;
  }

  lemma UrlCount(s: Parser, ch: char)
    ensures Mild(s, ActUrl(s, ch).s) && Mild(s, ActUrlPrefix(s, ch).s)
    ensures Mild(s, ActSpacesBeforeUrl(s, ch).s)
  {
    hide ParseUrlChar;
  }

  lemma StatusCount(s: Parser, ch: char)
    ensures Mild(s, ActFirstStatusCode(s, ch).s) && Mild(s, ActStatusCode(s, ch).s)
    ensures Mild(s, ActStatusStart(s, ch).s) && Mild(s, ActStatus(s, ch).s)
  {
  }

  lemma BodyCount(s: Parser, ch: char)
    ensures Mild(s, ActChunkSizeStart(s, ch).s) && Mild(s, ActChunkSize(s, ch).s)
    ensures Mild(s, ActChunkParameters(s, ch).s) && Mild(s, ActChunkSizeAlmostDone(s, ch).s)
    ensures Mild(s, ActChunkData(s).s) && Mild(s, ActChunkDataAlmostDone(s, ch).s)
    ensures Mild(s, ActChunkDataDone(s, ch).s) && Mild(s, ActBodyIdentity(s).s)
  {
    hide Unhex, ActMessageDone;
    EndCount(s.(contentLength := if s.contentLength == 0 then 0 else s.contentLength - 1, state := MessageDone), ch);
  }

  lemma PlainCount(s: Parser, ch: char)
    ensures forall ok, e, st :: Mild(s, Expect(s, ok, e, st).s)
    ensures forall st :: Mild(s, ActMajor(s, ch, st).s)
    ensures forall st :: Mild(s, ActMinor(s, ch, st).s)
    ensures Mild(s, ActDead(s, ch).s) && Mild(s, ActReqHttpStart(s, ch).s)
    ensures Mild(s, ActReqHttpEnd(s, ch).s) && Mild(s, ActAlmostDone(s, ch).s)
    ensures Mild(s, ActValueStart(s, ch).s)
  {
    hide ValueBegin;
    ValueBeginCount(s.(state := HeaderValue, index := 0), ch);
  }

  /** The switch never raises the count; the counting of the byte itself does, by one. */
  lemma ActCount(s: Parser, ch: char, checked: bool)
    ensures Mild(s, Act(s, ch, checked).s)
  {
    hide ActFieldStart, ActField, ActDiscardWs, ActDiscardLws, ActValueLws, ActValue, ActHeadersAlmostDone,
      ActHeadersDone, ActMessageDone, ActSpacesBeforeUrl, ActUrl, ActUrlPrefix, ActStatus, ActStatusStart,
      ActStatusCode, ActReqMethod, ActStartReq, ActStartReqOrRes, ActStartRes, ActResOrRespH, ActFirstStatusCode,
      ActChunkSizeAlmostDone, ActChunkSize, ActChunkSizeStart, ActChunkParameters, ActChunkData,
      ActChunkDataAlmostDone, ActChunkDataDone, ActBodyIdentity, Expect, ActMajor, ActMinor, ActDead, ActReqHttpStart,
      ActReqHttpEnd, ActAlmostDone, ActValueStart;
    EndCount(s, ch);
    FieldStartCount(s, ch);
    LineCount(s, ch);
    FieldCount(s, ch, checked);
    StartCount(s, ch);
    UrlCount(s, ch);
    StatusCount(s, ch);
    BodyCount(s, ch);
    PlainCount(s, ch);
  }

  // ----- the end of the counting

  /** The header part ends only where the count is set back, and no byte overflows it: the limit is checked outside of
      the switch. */
  predicate Ends(s: Parser, e: Effect) {
    && (ParsingHeader(s.state) && e.s.errno.OK? && !ParsingHeader(e.s.state) ==> e.s.nread == 0)
    && (e.s.errno.HeaderOverflow? ==> s.errno.HeaderOverflow?)
  }

  lemma EndEnds(s: Parser, ch: char)
    ensures Ends(s, ActHeadersAlmostDone(s, ch)) && Ends(s, ActHeadersDone(s, ch)) && Ends(s, ActMessageDone(s))
    ensures s.errno == ActMessageDone(s).s.errno && ParsingHeader(ActMessageDone(s).s.state)
  {
    hide ShouldKeepAlive, MessageNeedsEof;
  }

  lemma FieldStartEnds(s: Parser, ch: char)
    ensures Ends(s, ActFieldStart(s, ch))
  {
    hide Token, FirstHeaderState, ActHeadersAlmostDone, ActMessageDone, ActHeadersDone;
    EndEnds(s, ch);
    EndEnds(s.(state := HeadersAlmostDone), ch);
  }

  lemma ValueStartEnds(s: Parser, ch: char)
    ensures Ends(s, ActValueStart(s, ch))
  {
    hide Lower, ConnectionWord, IsNum, Digit;
  }

  lemma LineEnds(s: Parser, ch: char)
    ensures Ends(s, ActDiscardWs(s, ch)) && Ends(s, ActValueLws(s, ch)) && Ends(s, ActDiscardLws(s, ch))
  {
    hide ActFieldStart, CommitValue, ActValueStart;
    ValueStartEnds(s, ch);
    FieldStartEnds(CommitValue(s).(state := HeaderFieldStart), ch);
  }

  lemma FieldEnds(s: Parser, ch: char, checked: bool)
    requires ParsingHeader(s.state)
    ensures Ends(s, ActField(s, ch)) && Ends(s, ActValue(s, ch, checked))
  {
    hide FieldChar, IsToken, IsHeaderChar, ValueChar;
    ValueCharEnds(s, ch);
  }

  lemma ValueCharEnds(s: Parser, ch: char)
    ensures ValueChar(s, ch).s.errno.HeaderOverflow? ==> s.errno.HeaderOverflow?
  {
    hide Lower, MatchWord, IsToken, CommitConnection, IsNum, Digit;
  }

  lemma StartReqEnds(s: Parser, ch: char)
    ensures Ends(s, ActStartReq(s, ch)) && Ends(s, ActStartRes(s, ch)) && Ends(s, ActResOrRespH(s, ch))
  {
    hide FirstMethod, IsAlpha;
  }

  lemma StartEnds(s: Parser, ch: char)
    ensures Ends(s, ActStartReqOrRes(s, ch))
  {
    hide ActStartReq;
    StartReqEnds(FreshMessage(s).(kind := Request, state := StartReq), ch);
  }

  lemma MethodEnds(s: Parser, ch: char)
    ensures Ends(s, ActReqMethod(s, ch))
  {
    hide OtherMethod, MethodString, Bytes.At;
  }

  lemma UrlStepEnds(s: Parser, from: State, ch: char)
    ensures Ends(s, UrlStep(s, from, ch))
  {
    UrlIsHeader(from, ch);
    hide ParseUrlChar, ParsingHeader;
  }

  lemma UrlEnds(s: Parser, ch: char)
    ensures Ends(s, ActUrl(s, ch)) && Ends(s, ActUrlPrefix(s, ch)) && Ends(s, ActSpacesBeforeUrl(s, ch))
  {
    hide UrlStep;
    UrlStepEnds(s, s.state, ch);
    UrlStepEnds(s, if s.verb == CONNECT then ReqServerStart else ReqSpacesBeforeUrl, ch);
  }

  lemma UrlIsHeader(st: State, ch: char)
    ensures ParsingHeader(ParseUrlChar(st, ch))
  {
    hide IsAlpha, IsUrlChar, IsUserinfoChar;
  }

  lemma StatusEnds(s: Parser, ch: char)
    ensures Ends(s, ActFirstStatusCode(s, ch)) && Ends(s, ActStatusCode(s, ch))
    ensures Ends(s, ActStatusStart(s, ch)) && Ends(s, ActStatus(s, ch))
  {
    hide IsNum, Digit;
  }

  lemma ChunkEnds(s: Parser, ch: char)
    ensures Ends(s, ActChunkSizeStart(s, ch)) && Ends(s, ActChunkSize(s, ch)) && Ends(s, ActChunkParameters(s, ch))
    ensures Ends(s, ActChunkSizeAlmostDone(s, ch)) && Ends(s, ActChunkDataDone(s, ch))
  {
    hide Unhex;
  }

  lemma BodyEnds(s: Parser, ch: char)
    requires !ParsingHeader(s.state)
    ensures Ends(s, ActChunkData(s)) && Ends(s, ActChunkDataAlmostDone(s, ch)) && Ends(s, ActBodyIdentity(s))
  {
    hide ActMessageDone, ParsingHeader;
    EndEnds(s.(contentLength := if s.contentLength == 0 then 0 else s.contentLength - 1, state := MessageDone), ch);
  }

  lemma ExpectEnds(s: Parser, ch: char)
    ensures forall ok, e: Errno, st :: ParsingHeader(st) && !e.HeaderOverflow? ==> Ends(s, Expect(s, ok, e, st))
    ensures forall st :: ParsingHeader(st) ==> Ends(s, ActMajor(s, ch, st)) && Ends(s, ActMinor(s, ch, st))
  {
    hide IsNum, Digit, ParsingHeader;
  }

  lemma PlainEnds(s: Parser, ch: char)
    ensures Ends(s, ActDead(s, ch)) && Ends(s, ActReqHttpStart(s, ch)) && Ends(s, ActReqHttpEnd(s, ch))
    ensures Ends(s, ActAlmostDone(s, ch))
  {
  }

  lemma ActEnds(s: Parser, ch: char, checked: bool)
    ensures Ends(s, Act(s, ch, checked))
  {
    hide ActFieldStart, ActField, ActDiscardWs, ActDiscardLws, ActValueLws, ActValue, ActHeadersAlmostDone,
      ActHeadersDone, ActMessageDone, ActSpacesBeforeUrl, ActUrl, ActUrlPrefix, ActStatus, ActStatusStart,
      ActStatusCode, ActReqMethod, ActStartReq, ActStartReqOrRes, ActStartRes, ActResOrRespH, ActFirstStatusCode,
      ActChunkSizeAlmostDone, ActChunkSize, ActChunkSizeStart, ActChunkParameters, ActChunkData,
      ActChunkDataAlmostDone, ActChunkDataDone, ActBodyIdentity, Expect, ActMajor, ActMinor, ActDead, ActReqHttpStart,
      ActReqHttpEnd, ActAlmostDone, ActValueStart, Ends;
    EndEnds(s, ch);
    FieldStartEnds(s, ch);
    LineEnds(s, ch);
    ValueStartEnds(s, ch);
    if ParsingHeader(s.state) { FieldEnds(s, ch, checked); }
    StartReqEnds(s, ch);
    StartEnds(s, ch);
    MethodEnds(s, ch);
    UrlEnds(s, ch);
    StatusEnds(s, ch);
    ChunkEnds(s, ch);
    if !ParsingHeader(s.state) { BodyEnds(s, ch); }
    ExpectEnds(s, ch);
    PlainEnds(s, ch);
    if s.state.BodyIdentityEof? { EofEnds(s); }
  }

  lemma EofEnds(s: Parser)
    requires s.state.BodyIdentityEof?
    ensures Ends(s, Effect(s, [Mark(Body)], false))
  {
  }

  /** The switch alone never reports an overflow. */
  lemma {:induction false} NeverOver(lax: bool, s: Parser, t: seq<Event>, data: string)
    requires s.errno.OK?
    ensures !Run(lax, s, t, data).s.errno.HeaderOverflow?
  {
    hide Act, Emit;
    if data != [] {
      var n := |data| - 1;
      NeverOver(lax, s, t, data[..n]);
      var o := Run(lax, s, t, data[..n]);
      ActEnds(Counted(o.s), data[n], !(lax && o.scan));
    }
  }

  lemma {:induction false} CountGrows(lax: bool, s: Parser, t: seq<Event>, data: string, p: nat, q: nat)
    requires p <= q <= |data| && Run(lax, s, t, data[..q]).halt.Running?
    ensures Run(lax, s, t, data[..p]).halt.Running?
    ensures Run(lax, s, t, data[..q]).s.nread <= Run(lax, s, t, data[..p]).s.nread + (q - p)
    decreases q
  {
    hide Act, Emit;
    if p < q {
      RunSnoc(lax, s, t, data, q - 1);
      CountGrows(lax, s, t, data, p, q - 1);
      var o := Run(lax, s, t, data[..q - 1]);
      ActCount(Counted(o.s), data[q - 1], !(lax && o.scan));
    }
  }

  lemma {:induction false} LenientStays(lax: bool, s: Parser, t: seq<Event>, data: string)
    ensures Run(lax, s, t, data).s.lenient == s.lenient
  {
    hide Act, Emit;
    if data != [] {
      var n := |data| - 1;
      LenientStays(lax, s, t, data[..n]);
      var o := Run(lax, s, t, data[..n]);
      ActCount(Counted(o.s), data[n], !(lax && o.scan));
    }
  }

  /** The header bytes among the first `p` leave `slack` bytes of the limit. */
  ghost predicate Within(s: Parser, t: seq<Event>, data: string, p: nat, slack: nat) {
    forall q | 0 <= q < |data| && q < p ::
      var o := Run(true, s, t, data[..q]);
      o.halt.Running? && ParsingHeader(o.s.state) ==> o.s.nread + 1 + slack <= MAX_HEADER_SIZE
  }

  /** The bytes of a scan, counted together, are within the limit one by one. */
  lemma WithinScan(s: Parser, t: seq<Event>, data: string, p: nat, p': nat)
    requires p < p' <= |data| && Within(s, t, data, p, 0) && Run(true, s, t, data[..p]).halt.Running?
    requires var o := Run(true, s, t, data[..p]);
             if ParsingHeader(o.s.state) then o.s.nread + (p' - p) <= MAX_HEADER_SIZE else p' == p + 1
    ensures Within(s, t, data, p', 0)
  {
    hide Run;
    forall q | p <= q < p'
      ensures var o := Run(true, s, t, data[..q]);
              o.halt.Running? && ParsingHeader(o.s.state) ==> o.s.nread + 1 <= MAX_HEADER_SIZE
    {
      if Run(true, s, t, data[..q]).halt.Running? { CountGrows(true, s, t, data, p, q); }
    }
  }

  lemma {:induction false} RunsUntil(lax: bool, s: Parser, t: seq<Event>, data: string, q: nat)
    requires q < |data| && Run(lax, s, t, data[..q]).halt.Running? && Run(lax, s, t, data).halt.Exited?
    ensures Run(lax, s, t, data).n > q
  {
    hide Act, Emit;
    var d := data[..|data| - 1];
    RunCount(lax, s, t, d);
    if q < |d| {
      assert d[..q] == data[..q];
      if !Run(lax, s, t, d).halt.Running? { RunsUntil(lax, s, t, d, q); }
    } else {
      assert d == data[..q];
    }
  }

  // ----- the scans

  /** The states whose bytes a loop takes without a look at the limit. */
  predicate IsScan(st: State) { st.HeaderField? || st.HeaderValue? }

  /** One state throughout, from before byte `a` to before byte `b`. */
  ghost predicate Steady(s: Parser, t: seq<Event>, data: string, a: nat, b: nat, st: State) {
    a <= b <= |data|
    && forall i | a <= i <= b :: Run(true, s, t, data[..i]).halt.Running? && Run(true, s, t, data[..i]).s.state == st
  }

  /** The loop of a scan took byte `p - 1`: the byte that enters a name or a value, and the one that ends it, are taken
      by the switch. */
  ghost predicate LastScanned(s: Parser, t: seq<Event>, data: string, p: nat) {
    && 0 < p <= |data|
    && var st := Run(true, s, t, data[..p - 1]).s.state;
    IsScan(st) && Steady(s, t, data, p - 1, p, st)
  }

  /** Byte `q` is a header byte beyond the limit. */
  ghost predicate OverAt(s: Parser, t: seq<Event>, data: string, q: nat) {
    && q < |data|
    && var o := Run(true, s, t, data[..q]);
    o.halt.Running? && ParsingHeader(o.s.state) && o.s.nread + 1 > MAX_HEADER_SIZE
  }

  /** Byte `q` is scanned with a value in which an error comes before the bytes are counted. */
  ghost predicate Excused(s: Parser, t: seq<Event>, data: string, q: nat) {
    && Run(true, s, t, data).halt.Failed? && 0 < q <= Run(true, s, t, data).n
    && Steady(s, t, data, q - 1, Run(true, s, t, data).n, HeaderValue)
  }

  /** Whether the header limit stops a call: a header byte is beyond it and not excused, or a scan takes the last byte
      of the call, which counts for one more, and that is beyond it. */
  ghost predicate Over(s: Parser, t: seq<Event>, data: string) {
    || (exists q :: OverAt(s, t, data, q) && !Excused(s, t, data, q))
    || (LastScanned(s, t, data, |data|) && Run(true, s, t, data).s.nread + 1 > MAX_HEADER_SIZE)
  }

  lemma ScannedState(s: Parser, t: seq<Event>, data: string, p: nat)
    requires LastScanned(s, t, data, p)
    ensures 0 < p <= |data| && Run(true, s, t, data[..p]).halt.Running? && IsScan(Run(true, s, t, data[..p]).s.state)
    ensures Run(true, s, t, data[..p - 1]).halt.Running?
    ensures Run(true, s, t, data[..p - 1]).s.state == Run(true, s, t, data[..p]).s.state
  {
    hide Run;
  }

  lemma SteadyOne(s: Parser, t: seq<Event>, data: string, a: nat)
    requires a <= |data| && Run(true, s, t, data[..a]).halt.Running?
    ensures Steady(s, t, data, a, a, Run(true, s, t, data[..a]).s.state)
  {
    hide Run;
  }

  lemma SteadyMore(s: Parser, t: seq<Event>, data: string, a: nat, b: nat, st: State)
    requires b < |data| && Steady(s, t, data, a, b, st)
    requires Run(true, s, t, data[..b + 1]).halt.Running? && Run(true, s, t, data[..b + 1]).s.state == st
    ensures Steady(s, t, data, a, b + 1, st)
  {
    hide Run;
  }

  /** A byte that changes the state, or leaves one that is no scan, is not scanned. */
  lemma NotScanned(s: Parser, t: seq<Event>, data: string, p: nat)
    requires p < |data|
    requires var st := Run(true, s, t, data[..p]).s.state; !IsScan(st) || Run(true, s, t, data[..p + 1]).s.state != st
    ensures !LastScanned(s, t, data, p + 1)
  {
    hide Run;
  }

  lemma SteadyScanned(s: Parser, t: seq<Event>, data: string, a: nat, b: nat, st: State)
    requires Steady(s, t, data, a, b, st) && IsScan(st) && a < b
    ensures LastScanned(s, t, data, b)
  {
    hide Run;
    assert Steady(s, t, data, b - 1, b, st);
  }

  lemma ExcusedScanned(s: Parser, t: seq<Event>, data: string, q: nat)
    requires Excused(s, t, data, q)
    ensures LastScanned(s, t, data, q) && Run(true, s, t, data[..q]).s.state == HeaderValue
  {
    hide Run;
    assert Steady(s, t, data, q - 1, q, HeaderValue);
  }

  // ----- no byte over the limit

  /** A run that is still going. */
  lemma NotOverAtEnd(s: Parser, t: seq<Event>, data: string)
    requires Within(s, t, data, |data|, 0)
    requires LastScanned(s, t, data, |data|) ==> Run(true, s, t, data).s.nread + 1 <= MAX_HEADER_SIZE
    ensures !Over(s, t, data)
  {
    hide Run, Excused, LastScanned;
  }

  lemma NotScannedAtEnd(s: Parser, t: seq<Event>, data: string)
    requires !Run(true, s, t, data).halt.Running?
    ensures !LastScanned(s, t, data, |data|)
  {
    hide Run;
    assert data[..|data|] == data;
    if LastScanned(s, t, data, |data|) { ScannedState(s, t, data, |data|); }
  }

  /** A run that has stopped. */
  lemma NotOverAtHalt(s: Parser, t: seq<Event>, data: string, m: nat)
    requires var o := Run(true, s, t, data); !o.halt.Running? && m == if o.halt.Failed? then o.n + 1 else o.n
    requires Within(s, t, data, m, 0)
    ensures !Over(s, t, data)
  {
    hide Run, Excused, LastScanned;
    var o := Run(true, s, t, data);
    RunCount(true, s, t, data);
    forall q | m <= q < |data|
      ensures !Run(true, s, t, data[..q]).halt.Running?
    {
      if o.halt.Failed? {
        FailedStays(s, t, data, q);
      } else if Run(true, s, t, data[..q]).halt.Running? {
        RunsUntil(true, s, t, data, q);
      }
    }
    NotScannedAtEnd(s, t, data);
  }

  /** A value with an error at byte `p`, scanned from byte `a` on. */
  lemma NotOverAtError(s: Parser, t: seq<Event>, data: string, a: nat, p: nat)
    requires a <= p < |data| && Within(s, t, data, a + 1, 0) && Steady(s, t, data, a, p, HeaderValue)
    requires Run(true, s, t, data).halt.Failed? && Run(true, s, t, data).n == p
    ensures !Over(s, t, data)
  {
    hide Run, LastScanned, Within;
    NotScannedAtEnd(s, t, data);
    forall q | 0 <= q < |data|
      ensures !OverAt(s, t, data, q) || Excused(s, t, data, q)
    {
      if q > p {
        FailedStays(s, t, data, q);
      } else if q <= a {
        NotOverBefore(s, t, data, a + 1, q);
      }
    }
  }

  lemma NotOverBefore(s: Parser, t: seq<Event>, data: string, p: nat, q: nat)
    requires Within(s, t, data, p, 0) && q < p
    ensures !OverAt(s, t, data, q)
  {
    hide Run;
  }

  lemma {:induction false} FailedStays(s: Parser, t: seq<Event>, data: string, q: nat)
    requires Run(true, s, t, data).halt.Failed? && Run(true, s, t, data).n < q <= |data|
    ensures !Run(true, s, t, data[..q]).halt.Running?
  {
    hide Run;
    RunCount(true, s, t, data[..q]);
    if Run(true, s, t, data[..q]).halt.Running? { RunKeeps(s, t, data, q); }
  }

  /** The bytes taken are never given back. */
  lemma {:induction false} RunKeeps(s: Parser, t: seq<Event>, data: string, q: nat)
    requires q <= |data|
    ensures Run(true, s, t, data[..q]).n <= Run(true, s, t, data).n
    decreases |data|
  {
    hide Act, Emit;
    if q == |data| {
      assert data[..q] == data;
    } else {
      var d := data[..|data| - 1];
      assert d[..q] == data[..q];
      RunKeeps(s, t, d, q);
    }
  }

  // ----- a byte over the limit

  lemma OverAtTop(s: Parser, t: seq<Event>, data: string, q: nat)
    requires OverAt(s, t, data, q)
    requires !LastScanned(s, t, data, q) || !Run(true, s, t, data[..q]).s.state.HeaderValue?
    ensures Over(s, t, data)
  {
    hide Run, OverAt, LastScanned;
    if Excused(s, t, data, q) { ExcusedScanned(s, t, data, q); }
  }

  lemma OverLast(s: Parser, t: seq<Event>, data: string)
    requires LastScanned(s, t, data, |data|) && Run(true, s, t, data).s.nread + 1 > MAX_HEADER_SIZE
    ensures Over(s, t, data)
  {
  }

  /** At the end of its line a value is counted. */
  lemma OverAtLineEnd(s: Parser, t: seq<Event>, data: string, q: nat)
    requires OverAt(s, t, data, q) && Run(true, s, t, data[..q]).s.state.HeaderValue?
    requires data[q] == CR || data[q] == LF
    requires Run(true, s, t, data[..q]).s.errno.OK?
    ensures Over(s, t, data)
  {
    hide Run;
    LineEndStops(s, t, data, q);
    var o := Run(true, s, t, data);
    RunKeeps(s, t, data, q + 1);
    RunCount(true, s, t, data[..q + 1]);
    assert o.n > q && !Run(true, s, t, data[..q + 1]).s.state.HeaderValue?;
  }

  lemma LineEndStops(s: Parser, t: seq<Event>, data: string, q: nat)
    requires q < |data|
    requires var o := Run(true, s, t, data[..q]); o.halt.Running? && o.s.state.HeaderValue? && o.s.errno.OK?
    requires data[q] == CR || data[q] == LF
    ensures var o := Run(true, s, t, data[..q + 1]); o.halt.Running? && !o.s.state.HeaderValue?
  {
    hide Run, ValueChar, Emit;
    RunSnoc(true, s, t, data, q);
    var o := Run(true, s, t, data[..q]);
    LineEndActs(Counted(o.s), data[q], !o.scan);
  }

  lemma LineEndActs(s: Parser, ch: char, checked: bool)
    requires s.state.HeaderValue? && (ch == CR || ch == LF) && s.errno.OK?
    ensures var e := Act(s, ch, checked); e.s.errno.OK? && !e.exits && !e.s.state.HeaderValue?
  {
  }
}
