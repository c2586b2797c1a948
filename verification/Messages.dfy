/** Any message: where it ends, and whether the connection goes on.  RFC 7230 sections 3.3.3 and 6.3. */
module Messages {
  import opened Bytes
  import opened Trace
  import opened Machine
  import opened Bytewise
  import opened Marks
  import opened Scans
  import opened Invariant
  import opened Limits
  import opened Splitting
  import opened HttpParser
  import opened Feeding
  import opened Journeys
  import opened Spacing
  import opened HeaderNames
  import opened HeaderLines
  import opened Lengths
  import opened RequestLines
  import opened Requests
  import opened Connections
  import opened Fields
  import opened StartLines
  import Chunks

  // ----- what a head says

  /** A start line and the headers. */
  datatype Head = Head(start: Start, fields: seq<(string, string)>)

  function HeadText(h: Head): string { StartText(h.start) + HeaderText(h.fields) + CRLF }

  /** Not both a length and chunks. */
  ghost predicate GoodHead(h: Head) {
    GoodStart(h.start) && GoodFields(h.fields) && !(SaysChunked(h.fields) && HasLength(h.fields))
  }

  /** The status code; 0 for a request. */
  function Code(l: Start): nat { if l.StatusLine? && IsDigits(l.code) then DecFrom(0, l.code) else 0 }

  /** A status whose responses have no body. */
  predicate Bodiless(l: Start) {
    l.StatusLine? && (100 <= Code(l) <= 199 || Code(l) == 204 || Code(l) == 304)
  }

  /** How a body is delimited. */
  datatype Framing = Nothing | ByLength(n: nat) | InChunks | UntilClose

  /** As the parser delimits it: by chunks, by a length, or for a response not at all; behind a CONNECT there is
      none. */
  function FramingOf(h: Head): Framing {
    if IsConnect(h.start) then Nothing
    else if SaysChunked(h.fields) then InChunks
    else if HasLength(h.fields) then
      if LengthSaid(h.fields) == 0 then Nothing else ByLength(LengthSaid(h.fields))
    else if h.start.RequestLine? || Bodiless(h.start) then Nothing
    else UntilClose
  }

  // ----- section 3.3.3 of RFC 7230

  predicate HasEncoding(hs: seq<(string, string)>) { exists i :: 0 <= i < |hs| && Named(hs[i], TRANSFER_ENCODING) }

  /** The part of a list behind its last comma. */
  function LastPart(v: string): string {
    if v == [] then [] else if v[|v| - 1] == ',' then [] else LastPart(v[..|v| - 1]) + [v[|v| - 1]]
  }

  /** The word in whatever case, then only blanks. */
  predicate Means(x: string, word: string) {
    && |x| >= |word| && (forall i :: 0 <= i < |word| ==> Lower(x[i]) == word[i])
    && forall i :: |word| <= i < |x| ==> IsBlank(x[i])
  }

  lemma {:induction false} NoComma(v: string)
    requires ',' !in v
    ensures LastPart(v) == v
  {
    if v != [] { NoComma(v[..|v| - 1]); }
  }

  lemma {:induction false} CommaStays(v: string)
    requires ',' in v
    ensures ',' in Trim(v)
  {
    if IsBlank(v[0]) { CommaStays(v[1..]); }
  }

  lemma WordEnds(v: string)
    requires Is(Trim(v), CHUNKED)
    ensures Means(Trim(LastPart(v)), CHUNKED)
  {
    hide Trim, LastPart;
    if ',' in v { CommaStays(v); }
    NoComma(v);
  }

  /** The final transfer coding is chunked. */
  predicate EndsChunked(hs: seq<(string, string)>) {
    hs != [] &&
    var h := hs[|hs| - 1];
    if Named(h, TRANSFER_ENCODING) then Means(Trim(LastPart(h.1)), CHUNKED) else EndsChunked(hs[..|hs| - 1])
  }

  datatype Right = Refused | As(f: Framing)

  /** How the section delimits the body: a bodiless status ends with the empty line, an encoding counts before a length,
      and a request whose final coding is not chunked is refused. */
  function RightFraming(h: Head): Right {
    if Bodiless(h.start) then As(Nothing)
    else if HasEncoding(h.fields) then
      if EndsChunked(h.fields) then As(InChunks) else if h.start.RequestLine? then Refused else As(UntilClose)
    else if HasLength(h.fields) then As(if LengthSaid(h.fields) == 0 then Nothing else ByLength(LengthSaid(h.fields)))
    else if h.start.RequestLine? then As(Nothing)
    else As(UntilClose)
  }

  /** The parser does so if and only if a bodiless status announces neither chunks nor a length other than 0, a CONNECT
      neither an encoding nor such a length, and an encoding is chunked alone, or else ends otherwise, is that of a
      response and comes without a length. */
  lemma FramedRightIff(h: Head)
    ensures As(FramingOf(h)) == RightFraming(h)
       <==> if Bodiless(h.start) then !SaysChunked(h.fields) && (HasLength(h.fields) ==> LengthSaid(h.fields) == 0)
            else if IsConnect(h.start) then
              !HasEncoding(h.fields) && (HasLength(h.fields) ==> LengthSaid(h.fields) == 0)
            else HasEncoding(h.fields) ==>
                   if EndsChunked(h.fields) then SaysChunked(h.fields)
                   else h.start.StatusLine? && !SaysChunked(h.fields) && !HasLength(h.fields)
  {
    if SaysChunked(h.fields) { assert HasEncoding(h.fields); }
    hide SaysChunked, HasLength, LengthSaid, Bodiless, EndsChunked, HasEncoding;
  }

  /** An encoding that is chunked alone ends so. */
  lemma {:induction false} AloneEndsChunked(hs: seq<(string, string)>)
    requires SaysChunked(hs)
             && forall i, j :: 0 <= i < j < |hs| ==>
                  !(Named(hs[i], TRANSFER_ENCODING) && Named(hs[j], TRANSFER_ENCODING))
    ensures EndsChunked(hs)
    decreases |hs|
  {
    hide Named, Is, Trim, LastPart, Means;
    var n := |hs| - 1;
    var i :| 0 <= i < |hs| && Named(hs[i], TRANSFER_ENCODING) && Is(Trim(hs[i].1), CHUNKED);
    if i == n {
      WordEnds(hs[n].1);
    } else {
      assert !Named(hs[n], TRANSFER_ENCODING) by { assert Named(hs[i], TRANSFER_ENCODING) && i < n; }
      assert hs[..n][i] == hs[i];
      AloneEndsChunked(hs[..n]);
    }
  }

  lemma SmallNumbers()
    ensures IsDigits("304") && DecFrom(0, "304") == 304 && IsDigits("5") && DecFrom(0, "5") == 5
    ensures Trim("5") == "5" && IsValue("5") && IsNum('1')
  {
    assert "304"[..2] == "30" && "30"[..1] == "3" && "3"[..0] == [] && "5"[..0] == [];
  }

  /** The answer to a conditional request may say how long the body would be; the parser waits for that body. */
  lemma NotModifiedWaits()
    ensures var h := Head(StatusLine(Version('1', '1'), "304", NoReason), [(LENGTH_NAME, "5")]);
            GoodHead(h) && FramingOf(h) == ByLength(5) && RightFraming(h) == As(Nothing)
  {
    var hs := [(LENGTH_NAME, "5")];
    var h := Head(StatusLine(Version('1', '1'), "304", NoReason), hs);
    SmallNumbers();
    LengthName();
    NamesDiffer();
    hide IsNum, DecFrom, IsName, IsValue, Trim, LowerName, Is, IsPlainName;
    assert Named(hs[0], CONTENT_LENGTH);
    LengthIs(hs, 0);
  }

  // ----- section 6.3 of RFC 7230

  /** The connection goes on: unless it says close, from version 1.1 on, and before that only if it says keep-alive. */
  predicate GoesOnAfter(h: Head) {
    && FramingOf(h) != UntilClose
    && if MajorOf(h.start.version) > 0 && MinorOf(h.start.version) > 0 then !SaysWord(h.fields, CLOSE)
       else SaysWord(h.fields, KEEP_ALIVE)
  }

  /** The connection persists: not after close; else from version 1.1 on; else with keep-alive. */
  predicate Persists(h: Head) {
    var major, minor := MajorOf(h.start.version), MinorOf(h.start.version);
    && FramingOf(h) != UntilClose
    && !SaysWord(h.fields, CLOSE)
    && (major > 1 || (major == 1 && minor >= 1) || SaysWord(h.fields, KEEP_ALIVE))
  }

  /** The parser does so if and only if the body needs the end of the stream, or an early version does not say both
      words, and a version from 2 on that ends with 0 says exactly one of them. */
  lemma KeptRightIff(h: Head)
    ensures var major, minor := MajorOf(h.start.version), MinorOf(h.start.version);
            var close, keep := SaysWord(h.fields, CLOSE), SaysWord(h.fields, KEEP_ALIVE);
            (GoesOnAfter(h) <==> Persists(h))
            <==> (FramingOf(h) == UntilClose || (major > 0 && minor > 0)
                  || if major > 1 then close != keep else !(close && keep))
  {
    hide FramingOf, SaysWord, MajorOf, MinorOf;
  }

  function StartOf(l: Start): State { if l.RequestLine? then StartReq else StartRes }

  function StateAfter(h: Head): State { if GoesOnAfter(h) then StartOf(h.start) else Dead }

  /** The head asks for another protocol, as every CONNECT does; for a response that counts only with the status 101. */
  predicate Upgrades(h: Head) {
    IsConnect(h.start)
    || (SaysUpgrade(h.fields) && SaysWord(h.fields, UPGRADE) && (h.start.RequestLine? || Code(h.start) == 101))
  }

  function HeadEvents(h: Head): seq<Event> {
    StartEvents(h.start) + HeaderEvents(h.fields)
    + [Notify(HeadersComplete(LengthSaid(h.fields), SaysChunked(h.fields), Upgrades(h)))]
  }

  // ----- the last byte of the head

  /** The parser after the fields of a head, before the empty line. */
  ghost predicate Knows(s: Parser, h: Head) {
    && s.errno.OK? && s.flags == FlagsSaid(h.fields) && s.contentLength == LengthSaid(h.fields)
    && (if h.start.RequestLine? then s.kind.Request? else s.kind.Response? && s.status == Code(h.start))
    && (s.verb.CONNECT? <==> IsConnect(h.start))
    && s.major == MajorOf(h.start.version) && s.minor == MinorOf(h.start.version)
  }

  /** What completes the message: the state is the one after it. */
  lemma NewIs(s: Parser, h: Head)
    requires s.flags == FlagsSaid(h.fields) || s.flags == FlagsSaid(h.fields).(trailing := true)
    requires if h.start.RequestLine? then s.kind.Request? else s.kind.Response? && s.status == Code(h.start)
    requires s.major == MajorOf(h.start.version) && s.minor == MinorOf(h.start.version)
    requires FramingOf(h) == UntilClose <==>
               h.start.StatusLine? && !Bodiless(h.start) && !SaysChunked(h.fields) && s.contentLength == ULLONG_MAX
    ensures NewMessage(s) == StateAfter(h)
  {
    hide SaysChunked, SaysWord, SaysUpgrade, HasLength, FramingOf, Code;
    assert s.status / 100 == 1 <==> 100 <= s.status <= 199;
  }

  lemma LengthBounds(hs: seq<(string, string)>)
    requires GoodFields(hs)
    ensures if HasLength(hs) then LengthSaid(hs) <= MAX_LENGTH < ULLONG_MAX else LengthSaid(hs) == ULLONG_MAX
  {
    hide LengthSaid, GoodFields, Named;
    if HasLength(hs) {
      var i :| 0 <= i < |hs| && Named(hs[i], CONTENT_LENGTH);
      LengthIs(hs, i);
    } else {
      NoLength(hs);
    }
  }

  lemma LastByteSplits(s: Parser, h: Head)
    requires s.state.HeadersAlmostDone? && Knows(s, h) && GoodHead(h)
    ensures var u := Upgrades(h);
            Act(Counted(s), LF, true)
            == After([Tell(HeadersComplete(LengthSaid(h.fields), SaysChunked(h.fields), u))],
                     ActHeadersDone(Counted(s).(state := HeadersDone, upgrade := u), LF))
  {
    ActIs(Counted(s), LF, true);
    hide Act, ActHeadersDone, SaysChunked, SaysWord, SaysUpgrade, HasLength, LengthSaid, GoodStart, GoodFields;
  }

  /** The body that is left to read. */
  lemma BodyBegins(s: Parser, h: Head)
    requires s.state.HeadersDone? && Knows(s, h) && GoodHead(h) && s.upgrade == Upgrades(h)
    ensures var e, r := ActHeadersDone(s, LF), s.(nread := 0);
            match FramingOf(h)
            case Nothing => e == Effect(r.(state := StateAfter(h)), [Tell(MessageComplete)], Upgrades(h))
            case ByLength(n) =>
              e == Effect(r.(state := BodyIdentity), [], false) && 0 < n == s.contentLength < ULLONG_MAX
            case InChunks => e == Effect(r.(state := ChunkSizeStart), [], false)
            case UntilClose =>
              e == if Upgrades(h) then Effect(r.(state := Dead), [Tell(MessageComplete)], true)
                   else Effect(r.(state := BodyIdentityEof), [], false)
  {
    LengthBounds(h.fields);
    var r := s.(nread := 0);
    assert r.flags == FlagsSaid(h.fields);
    EndsAlike(s, h);
    NewIs(r, h);
    hide SaysChunked, SaysWord, SaysUpgrade, HasLength, LengthSaid, GoodStart, GoodFields, NewMessage, Upgrades, Code,
      ShouldKeepAlive;
    NeedsEof(r, h);
  }

  lemma NeedsEof(s: Parser, h: Head)
    requires s.flags == FlagsSaid(h.fields)
    requires if h.start.RequestLine? then s.kind.Request? else s.kind.Response? && s.status == Code(h.start)
    ensures MessageNeedsEof(s)
       <==> h.start.StatusLine? && !Bodiless(h.start) && !SaysChunked(h.fields) && s.contentLength == ULLONG_MAX
  {
    hide SaysChunked, SaysWord, SaysUpgrade, HasLength, Code;
    assert s.status / 100 == 1 <==> 100 <= s.status <= 199;
  }

  lemma EndsAlike(s: Parser, h: Head)
    requires Knows(s, h) && GoodHead(h)
    ensures FramingOf(h) == UntilClose <==>
              h.start.StatusLine? && !Bodiless(h.start) && !SaysChunked(h.fields) && s.contentLength == ULLONG_MAX
  {
    LengthBounds(h.fields);
    hide SaysChunked, SaysWord, SaysUpgrade, HasLength, LengthSaid, GoodStart, GoodFields, Code;
  }

  // ----- the head

  function FieldEvents(h: Head): seq<Event> { StartEvents(h.start) + HeaderEvents(h.fields) }

  lemma StartOpens(t: seq<Event>, l: Start)
    ensures NoOpenField(t + StartEvents(l))
  {
  }

  /** All of the head but its last byte: what it says is in the parser. */
  lemma GoesAlmostHead(s: Parser, t: seq<Event>, h: Head, slack: nat) returns (s': Parser)
    requires AtStart(s, h.start) && GoodStart(h.start) && GoodFields(h.fields) && Room(s, |HeadText(h)|, slack)
    ensures HeadText(h) != [] && Goes(s, t, HeadText(h)[..|HeadText(h)| - 1], s', t + FieldEvents(h), slack)
    ensures s'.state.HeadersAlmostDone? && Knows(s', h) && s'.nread == s.nread + |HeadText(h)| - 1
    ensures s' == s.(state := s'.state, flags := s'.flags, hs := s'.hs, index := s'.index,
                     contentLength := s'.contentLength, nread := s'.nread, major := s'.major, minor := s'.minor,
                     status := s'.status, verb := s'.verb)
  {
    hide Goes, GoodStart, GoodFields, StartText, StartEvents, HeaderText, HeaderEvents, Settled, LineStart, Between,
      Committed, HasRead, HasStarted, Knows, SaysChunked, HasLength;
    var a, b := StartText(h.start), HeaderText(h.fields);
    assert HeadText(h)[..|HeadText(h)| - 1] == a + b + [CR];
    var t1 := t + StartEvents(h.start);
    var s1 := GoesStart(s, t, h.start, slack);
    StartedSo(s, h.start, s1);
    StartOpens(t, h.start);
    var s2, t2 := GoesFields(s1, t1, h.fields, slack);
    ReadSo(s1, h.fields, s2);
    GoesOn(s, t, a, s1, t1, b, s2, t2, slack);
    var r := Committed(s2);
    BlankCr(r, t2, slack);
    var u := t1 + HeaderEvents(h.fields);
    assert u == t + FieldEvents(h);
    s' := r.(state := HeadersAlmostDone, nread := r.nread + 1);
    BlankIsCr();
    GoesCommitted(s2, t2, [CR], s', u, slack);
    GoesOn(s, t, a + b, s2, t2, [CR], s', u, slack);
    KnowsAll(s, h, s1, s2, s');
  }

  lemma BlankIsCr()
    ensures !IsBlank(CR)
  {
  }

  lemma StartedSo(s: Parser, l: Start, s': Parser)
    requires HasStarted(s, l, s')
    ensures s'.errno.OK? && s'.state.HeaderFieldStart? && s'.flags == NO_FLAGS && s'.contentLength == ULLONG_MAX
    ensures s'.nread == s.nread + |StartText(l)|
  {
    hide StartText, IsDigits, DecFrom, MajorOf, MinorOf;
  }

  lemma KnowsAll(s: Parser, h: Head, s1: Parser, s2: Parser, s': Parser)
    requires AtStart(s, h.start) && GoodStart(h.start) && HasStarted(s, h.start, s1) && HasRead(s1, h.fields, s2)
    requires s' == Committed(s2).(state := HeadersAlmostDone, nread := Committed(s2).nread + 1)
    ensures Knows(s', h)
    ensures s' == s.(state := s'.state, flags := s'.flags, hs := s'.hs, index := s'.index,
                     contentLength := s'.contentLength, nread := s'.nread, major := s'.major, minor := s'.minor,
                     status := s'.status, verb := s'.verb)
  {
    hide Committed, FlagsSaid, LengthSaid, StartText, HeaderText, IsTarget, DecFrom, IsNum, Digit, IsReason, IsDigits,
      MajorOf, MinorOf;
    CommittedOk(s2);
  }

  lemma CommittedOk(s: Parser)
    requires Between(s)
    ensures Committed(s).errno.OK?
  {
    hide CommitValue;
    if !s.state.HeaderFieldStart? { CommitFlags(s); }
  }

  /** The parser after the head. */
  function HeadLeaves(s: Parser, h: Head): Parser {
    s.(state := match FramingOf(h)
                case Nothing => StateAfter(h)
                case ByLength(_) => BodyIdentity
                case InChunks => ChunkSizeStart
                case UntilClose => if Upgrades(h) then Dead else BodyIdentityEof,
       nread := 0, upgrade := Upgrades(h))
  }

  predicate EndsAtHead(h: Head) { FramingOf(h).Nothing? || (FramingOf(h).UntilClose? && Upgrades(h)) }

  /** What its last byte does. */
  lemma LastByteActs(s: Parser, h: Head)
    requires s.state.HeadersAlmostDone? && Knows(s, h) && GoodHead(h)
    ensures Act(Counted(s), LF, true)
         == Effect(HeadLeaves(s, h),
                   [Tell(HeadersComplete(LengthSaid(h.fields), SaysChunked(h.fields), Upgrades(h)))]
                   + (if EndsAtHead(h) then [Tell(MessageComplete)] else []), EndsAtHead(h) && Upgrades(h))
  {
    LastByteSplits(s, h);
    var c := Counted(s).(state := HeadersDone, upgrade := Upgrades(h));
    assert Knows(c, h);
    BodyBegins(c, h);
    hide Act, ActHeadersDone, Knows, GoodHead, SaysChunked, LengthSaid, Upgrades, StateAfter, FramingOf;
  }

  /** The callbacks of a message that ends with its head, or else those of the head. */
  function AllHeadEvents(h: Head): seq<Event> {
    HeadEvents(h) + if EndsAtHead(h) then [Notify(MessageComplete)] else []
  }

  lemma LastByteEmits(t: seq<Event>, n: Note, done: bool)
    ensures Emit(t, NoMark, [Tell(n)] + (if done then [Tell(MessageComplete)] else []), LF, true)
         == t + [Notify(n)] + (if done then [Notify(MessageComplete)] else [])
  {
    EmitTell(t, NoMark, n, if done then [Tell(MessageComplete)] else [], LF, true);
    if done {
      EmitTell(t + [Notify(n)], NoMark, MessageComplete, [], LF, true);
      assert [Tell(MessageComplete)] + [] == [Tell(MessageComplete)];
      EmitNothing(t + [Notify(n)] + [Notify(MessageComplete)], LF, true);
    } else {
      EmitNothing(t + [Notify(n)], LF, true);
      assert t + [Notify(n)] + [] == t + [Notify(n)];
    }
  }

  lemma GoesLastByte(s: Parser, t: seq<Event>, h: Head, slack: nat)
    requires s.state.HeadersAlmostDone? && Knows(s, h) && GoodHead(h) && Room(s, 1, slack)
    requires !(EndsAtHead(h) && Upgrades(h))
    ensures var n := HeadersComplete(LengthSaid(h.fields), SaysChunked(h.fields), Upgrades(h));
            Goes(s, t, [LF], HeadLeaves(s, h),
                 t + [Notify(n)] + (if EndsAtHead(h) then [Notify(MessageComplete)] else []), slack)
  {
    LastByteActs(s, h);
    var n := HeadersComplete(LengthSaid(h.fields), SaysChunked(h.fields), Upgrades(h));
    LastByteEmits(t, n, EndsAtHead(h));
    assert s.errno.OK?;
    hide Act, Emit, Goes, IsHeaderChar, Knows, GoodHead, SaysChunked, LengthSaid, Upgrades, StateAfter, FramingOf;
    GoesByte(s, t, LF, slack);
  }

  lemma HeadSplit(t: seq<Event>, h: Head)
    ensures var n := HeadersComplete(LengthSaid(h.fields), SaysChunked(h.fields), Upgrades(h));
            t + AllHeadEvents(h)
            == t + FieldEvents(h) + [Notify(n)] + (if EndsAtHead(h) then [Notify(MessageComplete)] else [])
    ensures HeadText(h) != [] && HeadText(h) == HeadText(h)[..|HeadText(h)| - 1] + [LF]
  {
    hide StartEvents, HeaderEvents, SaysChunked, LengthSaid, Upgrades, EndsAtHead, StartText, HeaderText;
  }

  /** A head is told as itself, and the parser goes on with the body that its framing says. */
  lemma GoesHead(s: Parser, t: seq<Event>, h: Head, slack: nat) returns (s': Parser)
    requires AtStart(s, h.start) && GoodHead(h) && Room(s, |HeadText(h)|, slack) && !(EndsAtHead(h) && Upgrades(h))
    ensures Goes(s, t, HeadText(h), s', t + AllHeadEvents(h), slack)
    ensures exists r :: Knows(r, h) && s' == HeadLeaves(r, h) && s'.kind == s.kind
  {
    hide Goes, Knows, GoodStart, GoodFields, HeadText, FieldEvents, AllHeadEvents, HeadLeaves, EndsAtHead, Upgrades,
      SaysChunked, LengthSaid, HasLength;
    var r := GoesAlmostHead(s, t, h, slack);
    HeadSplit(t, h);
    GoesLastByte(r, t + FieldEvents(h), h, slack);
    s' := HeadLeaves(r, h);
    LeavesKind(r, h);
    GoesOn(s, t, HeadText(h)[..|HeadText(h)| - 1], r, t + FieldEvents(h), [LF], s', t + AllHeadEvents(h), slack);
  }

  lemma LeavesKind(s: Parser, h: Head)
    ensures HeadLeaves(s, h).kind == s.kind && HeadLeaves(s, h).verb == s.verb && HeadLeaves(s, h).nread == 0
    ensures HeadLeaves(s, h).errno == s.errno
  {
    hide FramingOf, StateAfter, Upgrades;
  }

  /** A message that asks for another protocol and has no body of known length: the parser stops behind the head,
      whatever follows. */
  lemma UpgradeExits(s: Parser, t: seq<Event>, h: Head, rest: string)
    requires AtStart(s, h.start) && GoodHead(h) && Room(s, |HeadText(h)|, 0) && EndsAtHead(h) && Upgrades(h)
    ensures var o := Run(false, s, t, HeadText(h) + rest);
            o.halt.Exited? && o.n == |HeadText(h)| && o.trace == t + AllHeadEvents(h) && o.s.errno.OK?
  {
    hide Goes, Knows, GoodStart, GoodFields, HeadText, FieldEvents, AllHeadEvents, HeadLeaves, Run, Act, Emit,
      SaysChunked, LengthSaid, HasLength;
    var r := GoesAlmostHead(s, t, h, 0);
    var u := t + FieldEvents(h);
    var n := HeadersComplete(LengthSaid(h.fields), SaysChunked(h.fields), true);
    HeadSplit(t, h);
    LastByteActs(r, h);
    LastByteEmits(u, n, true);
    var a := HeadText(h)[..|HeadText(h)| - 1];
    assert Run(false, s, t, a) == Outcome(r, u, false, |a|, Running) by { GoesIs(s, t, a, r, u); }
    assert HeadText(h)[..|a| + 1] == HeadText(h);
    RunSnoc(false, s, t, HeadText(h), |a|);
    assert r.errno.OK? && Resume(r.state).NoMark? by { KnowsOk(r, h); }
    LeavesKind(r, h);
    StopsHere(s, t, HeadText(h), rest);
  }

  lemma GoesIs(s: Parser, t: seq<Event>, data: string, s': Parser, t': seq<Event>)
    requires Goes(s, t, data, s', t', 0)
    ensures Run(false, s, t, data) == Outcome(s', t', false, |data|, Running)
  {
    hide Run, Clean, HeadersFit;
  }

  lemma KnowsOk(s: Parser, h: Head)
    requires Knows(s, h)
    ensures s.errno.OK? && (s.state.HeadersAlmostDone? ==> Resume(s.state).NoMark?)
  {
    hide SaysChunked, LengthSaid, SaysWord, SaysUpgrade, Code, MajorOf, MinorOf, HasLength;
  }

  // ----- bodies

  datatype Body = NoBytes | Bytes(b: string) | Pieces(c: Chunks.Chunked) | Rest(b: string)

  datatype Message = Message(head: Head, body: Body)

  /** The body is the one that the head announces. */
  ghost predicate GoodMessage(m: Message, room: nat) {
    && GoodHead(m.head) && !Upgrades(m.head) && |HeadText(m.head)| <= room
    && match FramingOf(m.head)
       case Nothing => m.body.NoBytes?
       case ByLength(n) => m.body.Bytes? && |m.body.b| == n
       case InChunks => m.body.Pieces? && Chunks.GoodBody(m.body.c, room)
       case UntilClose => m.body.Rest?
  }

  function BodyText(b: Body): string {
    match b case NoBytes => [] case Bytes(b) => b case Pieces(c) => Chunks.BodyText(c) case Rest(b) => b
  }

  function MessageText(m: Message): string { HeadText(m.head) + BodyText(m.body) }

  function DataEvents(b: string): seq<Event> { if b == [] then [] else [Data(Body, b)] }

  /** What the program is told of the body; a body up to the end of the stream is not complete before it. */
  function BodyEvents(b: Body): seq<Event> {
    match b
    case NoBytes => [Notify(MessageComplete)]
    case Bytes(b) => DataEvents(b) + [Notify(MessageComplete)]
    case Pieces(c) => Chunks.BodyEvents(c)
    case Rest(b) => DataEvents(b)
  }

  function MessageEvents(m: Message): seq<Event> { HeadEvents(m.head) + BodyEvents(m.body) }

  /** The header bytes that the message leaves counted. */
  function CountLeft(m: Message): nat { if m.body.Pieces? then |HeaderText(m.body.c.trailers)| + 2 else 0 }

  function StateLeft(m: Message): State { if m.body.Rest? then BodyIdentityEof else StateAfter(m.head) }

  /** What a message leaves. */
  predicate Left(s: Parser, m: Message, s': Parser) {
    s'.errno.OK? && s'.state == StateLeft(m) && s'.nread == CountLeft(m) && s'.kind == s.kind && !s'.verb.CONNECT?
  }

  lemma DataAppended(t: seq<Event>, h: Head, b: string)
    ensures Push(t + HeadEvents(h), Data(Body, b)) == t + HeadEvents(h) + [Data(Body, b)]
  {
    hide StartEvents, HeaderEvents, SaysChunked, LengthSaid, Upgrades;
    var n := HeadersComplete(LengthSaid(h.fields), SaysChunked(h.fields), Upgrades(h));
    assert t + HeadEvents(h) == t + StartEvents(h.start) + HeaderEvents(h.fields) + [Notify(n)];
    BodyAppended(t + StartEvents(h.start) + HeaderEvents(h.fields), n, b);
  }

  lemma LastOfBody(s: Parser, ch: char)
    requires s.state.BodyIdentity? && s.contentLength == 1 && !s.upgrade
    ensures Act(Counted(s), ch, true)
         == Effect(s.(state := NewMessage(s.(contentLength := 0)), contentLength := 0),
                   [Mark(Body), DeliverThrough(Body)] + [Tell(MessageComplete)], false)
  {
    hide NewMessage;
    Chunks.KeepsState(s.(contentLength := 0), MessageDone, s.nread);
  }

  lemma GoesLast(s: Parser, t: seq<Event>, ch: char, slack: nat)
    requires s.errno.OK? && s.state.BodyIdentity? && s.contentLength == 1 && !s.upgrade
    ensures Goes(s, t, [ch], s.(state := NewMessage(s.(contentLength := 0)), contentLength := 0),
                 Push(t, Data(Body, [ch])) + [Notify(MessageComplete)], slack)
  {
    hide IsHeaderChar, Act, Goes, NewMessage;
    LastOfBody(s, ch);
    EmitMark(t, Body, [DeliverThrough(Body)] + [Tell(MessageComplete)], ch, true);
    EmitThrough(t, Body, [Tell(MessageComplete)], ch, true);
    EmitTell(Push(t, Data(Body, [ch])), NoMark, MessageComplete, [], ch, true);
    assert [Tell(MessageComplete)] + [] == [Tell(MessageComplete)];
    assert [Mark(Body)] + ([DeliverThrough(Body)] + [Tell(MessageComplete)])
        == [Mark(Body), DeliverThrough(Body)] + [Tell(MessageComplete)];
    GoesByte(s, t, ch, slack);
  }

  /** A body of known length, whatever the message. */
  lemma GoesCounted(s: Parser, t: seq<Event>, b: string, slack: nat)
    requires s.errno.OK? && s.state.BodyIdentity? && b != [] && s.contentLength == |b| && !s.upgrade
    ensures Goes(s, t, b, s.(state := NewMessage(s.(contentLength := 0)), contentLength := 0),
                 Push(t, Data(Body, b)) + [Notify(MessageComplete)], slack)
  {
    hide Goes, Push, NewMessage;
    var n := |b| - 1;
    var d := b[..n];
    assert d + [b[n]] == b;
    if n == 0 {
      assert b == [b[0]];
      GoesLast(s, t, b[0], slack);
    } else {
      GoesBody(s, t, d, slack);
      var s1 := s.(contentLength := 1);
      GoesLast(s1, Push(t, Data(Body, d)), b[n], slack);
      PushTwice(t, Body, d, [b[n]]);
      GoesOn(s, t, d, s1, Push(t, Data(Body, d)), [b[n]],
             s.(state := NewMessage(s.(contentLength := 0)), contentLength := 0),
             Push(t, Data(Body, b)) + [Notify(MessageComplete)], slack);
    }
  }

  /** What the head leaves for the body. */
  lemma LeavesIs(r: Parser, h: Head)
    requires Knows(r, h) && GoodHead(h) && !Upgrades(h)
    ensures var s := HeadLeaves(r, h);
            && s.errno.OK? && !s.upgrade && s.nread == 0 && !s.verb.CONNECT?
            && (FramingOf(h).Nothing? ==> s.state == StateAfter(h))
            && (FramingOf(h).ByLength? ==>
                  s.state.BodyIdentity? && s.contentLength == FramingOf(h).n > 0
                  && NewMessage(s.(contentLength := 0)) == StateAfter(h))
            && (FramingOf(h).InChunks? ==> Chunks.AtSize(s) && s.flags.chunked && NewMessage(s) == StateAfter(h))
            && (FramingOf(h).UntilClose? ==> s.state.BodyIdentityEof?)
  {
    LengthBounds(h.fields);
    var s := HeadLeaves(r, h);
    NewIs(s, h) by { EndsAlike(r, h); }
    if FramingOf(h).ByLength? { NewIs(s.(contentLength := 0), h); }
    hide SaysChunked, SaysWord, SaysUpgrade, HasLength, LengthSaid, GoodStart, GoodFields, NewMessage, Upgrades, Code,
      StateAfter;
  }

  lemma MessageIs(t: seq<Event>, m: Message)
    ensures t + MessageEvents(m) == t + HeadEvents(m.head) + BodyEvents(m.body)
    ensures t + HeadEvents(m.head) + [] == t + HeadEvents(m.head)
  {
  }

  /** Any message is told as itself, body and all, and the parser is left where the connection goes on, or is dead, or
      waits for the end of the stream. */
  lemma GoesMessage(s: Parser, t: seq<Event>, m: Message, slack: nat) returns (s': Parser)
    requires AtStart(s, m.head.start) && slack <= MAX_HEADER_SIZE && GoodMessage(m, MAX_HEADER_SIZE - slack)
    requires Room(s, |HeadText(m.head)|, slack)
    ensures Goes(s, t, MessageText(m), s', t + MessageEvents(m), slack) && Left(s, m, s')
  {
    hide Goes, Knows, GoodHead, HeadText, HeadEvents, HeadLeaves, Upgrades, SaysChunked, LengthSaid, HasLength,
      StateAfter, NewMessage, Chunks.GoodBody, Chunks.BodyText, Chunks.BodyEvents, Push;
    var h, u := m.head, t + HeadEvents(m.head);
    var s1 := GoesHead(s, t, h, slack);
    var r :| Knows(r, h) && s1 == HeadLeaves(r, h) && s1.kind == s.kind;
    LeavesIs(r, h);
    MessageIs(t, m);
    match FramingOf(h)
    case Nothing =>
      s' := s1;
      assert t + AllHeadEvents(h) == u + [Notify(MessageComplete)];
      assert MessageText(m) == HeadText(h);
    case ByLength(n) =>
      s' := s1.(state := NewMessage(s1.(contentLength := 0)), contentLength := 0);
      NotYet(t, h);
      GoesCounted(s1, u, m.body.b, slack);
      DataAppended(t, h, m.body.b);
      assert u + [Data(Body, m.body.b)] + [Notify(MessageComplete)]
          == u + ([Data(Body, m.body.b)] + [Notify(MessageComplete)]);
      GoesOn(s, t, HeadText(h), s1, u, m.body.b, s', u + BodyEvents(m.body), slack);
    case InChunks =>
      NotYet(t, h);
      s' := Chunks.GoesChunked(s1, u, m.body.c, slack);
      GoesOn(s, t, HeadText(h), s1, u, Chunks.BodyText(m.body.c), s', u + BodyEvents(m.body), slack);
    case UntilClose =>
      NotYet(t, h);
      s' := s1;
      if m.body.b == [] {
        assert MessageText(m) == HeadText(h) && u + [] == u;
      } else {
        GoesBody(s1, u, m.body.b, slack);
        DataAppended(t, h, m.body.b);
        GoesOn(s, t, HeadText(h), s1, u, m.body.b, s1, u + [Data(Body, m.body.b)], slack);
      }
  }

  lemma NotYet(t: seq<Event>, h: Head)
    requires !EndsAtHead(h)
    ensures t + AllHeadEvents(h) == t + HeadEvents(h)
  {
    hide HeadEvents;
    assert HeadEvents(h) + [] == HeadEvents(h);
  }

  // ----- upgrades with a body

  lemma ExitsAt(s: Parser, t: seq<Event>, a: string, s1: Parser, t1: seq<Event>, ch: char, rest: string)
    requires Goes(s, t, a, s1, t1, 0)
    requires var e := Act(Counted(s1), ch, true); e.s.errno.OK? && e.exits
    ensures var e, o := Act(Counted(s1), ch, true), Run(false, s, t, a + [ch] + rest);
            o == Outcome(e.s, Emit(t1, Resume(s1.state), e.acts, ch, true), false, |a| + 1, Exited)
  {
    hide Goes, Run, Act, Emit;
    assert Run(false, s, t, a) == Outcome(s1, t1, false, |a|, Running) by { GoesIs(s, t, a, s1, t1); }
    assert (a + [ch])[..|a|] == a && (a + [ch])[..|a| + 1] == a + [ch];
    RunSnoc(false, s, t, a + [ch], |a|);
    StopsHere(s, t, a + [ch], rest);
  }

  lemma LastOfUpgrade(s: Parser, ch: char)
    requires s.errno.OK? && s.state.BodyIdentity? && s.contentLength == 1 && s.upgrade
    ensures var e := Act(Counted(s), ch, true);
            e.exits && e.s.errno.OK? && e.acts == [Mark(Body), DeliverThrough(Body)] + [Tell(MessageComplete)]
  {
    hide NewMessage;
  }

  lemma LastEmits(t: seq<Event>, ch: char)
    ensures Emit(t, NoMark, [Mark(Body), DeliverThrough(Body)] + [Tell(MessageComplete)], ch, true)
         == Push(t, Data(Body, [ch])) + [Notify(MessageComplete)]
  {
    EmitMark(t, Body, [DeliverThrough(Body)] + [Tell(MessageComplete)], ch, true);
    EmitThrough(t, Body, [Tell(MessageComplete)], ch, true);
    EmitTell(Push(t, Data(Body, [ch])), NoMark, MessageComplete, [], ch, true);
    assert [Tell(MessageComplete)] + [] == [Tell(MessageComplete)];
    assert [Mark(Body)] + ([DeliverThrough(Body)] + [Tell(MessageComplete)])
        == [Mark(Body), DeliverThrough(Body)] + [Tell(MessageComplete)];
  }

  /** A body of known length ends the run at its last byte. */
  lemma CountedExits(s: Parser, t: seq<Event>, a: string, s1: Parser, t1: seq<Event>, b: string, rest: string)
    requires Goes(s, t, a, s1, t1, 0) && s1.errno.OK? && s1.state.BodyIdentity? && s1.upgrade
    requires b != [] && s1.contentLength == |b|
    ensures var o := Run(false, s, t, a + b + rest);
            o.halt.Exited? && o.n == |a + b| && o.s.errno.OK?
            && o.trace == Push(t1, Data(Body, b)) + [Notify(MessageComplete)]
  {
    hide Goes, Push, Run, Act, Emit;
    var n := |b| - 1;
    var d := b[..n];
    assert a + b + rest == a + d + [b[n]] + rest && d + [b[n]] == b;
    var s2, t2 := s1, t1;
    if n == 0 {
      assert a + d == a && [b[0]] == b;
    } else {
      GoesBody(s1, t1, d, 0);
      s2, t2 := s1.(contentLength := 1), Push(t1, Data(Body, d));
      GoesOn(s, t, a, s1, t1, d, s2, t2, 0);
      PushTwice(t1, Body, d, [b[n]]);
    }
    LastOfUpgrade(s2, b[n]);
    LastEmits(t2, b[n]);
    ExitsAt(s, t, a + d, s2, t2, b[n], rest);
  }

  lemma TrailerExits(s: Parser)
    requires s.errno.OK? && s.state.HeadersAlmostDone? && s.flags.trailing && s.upgrade
    ensures var e := Act(Counted(s), LF, true);
            e.exits && e.s.errno.OK? && e.acts == [Tell(ChunkComplete)] + ([Tell(MessageComplete)] + [])
  {
    ActIs(Counted(s), LF, true);
    hide Act, NewMessage;
  }

  lemma ChunksExit(s: Parser, t: seq<Event>, a: string, s1: Parser, t1: seq<Event>, c: Chunks.Chunked, rest: string)
    requires Goes(s, t, a, s1, t1, 0) && Chunks.AtSize(s1) && s1.upgrade && Chunks.GoodBody(c, MAX_HEADER_SIZE)
    ensures var o := Run(false, s, t, a + Chunks.BodyText(c) + rest);
            o.halt.Exited? && o.n == |a + Chunks.BodyText(c)| && o.s.errno.OK? && o.trace == t1 + Chunks.BodyEvents(c)
  {
    hide Goes, Run, Act, Emit, Chunks.GoodBody, Chunks.AllButLast, Chunks.AlmostAll;
    var s2 := Chunks.GoesAllButLast(s1, t1, c, 0);
    var t2, d := t1 + Chunks.AlmostAll(c), Chunks.AllButLast(c);
    GoesOn(s, t, a, s1, t1, d, s2, t2, 0);
    TrailerExits(s2);
    EmitTell(t2, NoMark, ChunkComplete, [Tell(MessageComplete)] + [], LF, true);
    EmitTell(t2 + [Notify(ChunkComplete)], NoMark, MessageComplete, [], LF, true);
    EmitNothing(t2 + [Notify(ChunkComplete)] + [Notify(MessageComplete)], LF, true);
    ExitsAt(s, t, a + d, s2, t2, LF, rest);
    assert t2 + [Notify(ChunkComplete)] + [Notify(MessageComplete)] == t1 + Chunks.BodyEvents(c);
    assert a + d + [LF] + rest == a + Chunks.BodyText(c) + rest;
  }

  /** A message with a body that asks for another protocol is told as itself, and the parser stops behind its body. */
  lemma UpgradeBodyExits(s: Parser, t: seq<Event>, m: Message, rest: string)
    requires AtStart(s, m.head.start) && GoodHead(m.head) && Upgrades(m.head) && Room(s, |HeadText(m.head)|, 0)
    requires match FramingOf(m.head)
             case ByLength(n) => m.body.Bytes? && |m.body.b| == n
             case InChunks => m.body.Pieces? && Chunks.GoodBody(m.body.c, MAX_HEADER_SIZE)
             case _ => false
    ensures var o := Run(false, s, t, MessageText(m) + rest);
            o.halt.Exited? && o.n == |MessageText(m)| && o.trace == t + MessageEvents(m) && o.s.errno.OK?
  {
    hide Goes, Knows, GoodHead, HeadText, HeadEvents, HeadLeaves, Upgrades, Run, Push, Chunks.GoodBody, Chunks.BodyText,
      Chunks.BodyEvents;
    var h, u := m.head, t + HeadEvents(m.head);
    var s1 := GoesHead(s, t, h, 0);
    var r :| Knows(r, h) && s1 == HeadLeaves(r, h) && s1.kind == s.kind;
    LeavesUpgrade(r, h);
    NotYet(t, h);
    MessageIs(t, m);
    if FramingOf(h).ByLength? {
      CountedExits(s, t, HeadText(h), s1, u, m.body.b, rest);
      DataAppended(t, h, m.body.b);
      assert u + [Data(Body, m.body.b)] + [Notify(MessageComplete)]
          == u + ([Data(Body, m.body.b)] + [Notify(MessageComplete)]);
    } else {
      ChunksExit(s, t, HeadText(h), s1, u, m.body.c, rest);
    }
  }

  lemma LeavesUpgrade(r: Parser, h: Head)
    requires Knows(r, h) && GoodHead(h) && Upgrades(h)
    ensures var s := HeadLeaves(r, h);
            && s.errno.OK? && s.upgrade
            && (FramingOf(h).ByLength? ==> s.state.BodyIdentity? && s.contentLength == FramingOf(h).n > 0)
            && (FramingOf(h).InChunks? ==> Chunks.AtSize(s))
  {
    LengthBounds(h.fields);
    hide SaysChunked, SaysWord, SaysUpgrade, HasLength, LengthSaid, GoodStart, GoodFields, NewMessage, Upgrades, Code,
      StateAfter;
  }
}
