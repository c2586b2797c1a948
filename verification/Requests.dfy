/** Requests as wrk.format prints them, and the messages the parser finds in them. */
module Requests {
  import opened Bytes
  import opened Trace
  import opened Machine
  import opened Bytewise
  import opened Marks
  import opened Journeys
  import opened HeaderNames
  import opened HeaderLines
  import opened Lengths
  import opened RequestLines

  datatype MaybeBody = NoBody | SomeBody(bytes: string)

  /** A request: the pairs of its header table in the order they are printed. */
  datatype Request = Request(verb: Method, path: string, headers: seq<(string, string)>, body: MaybeBody)

  const LENGTH_NAME := "Content-Length"

  function HeaderText(headers: seq<(string, string)>): string {
    if headers == [] then []
    else HeaderText(headers[..|headers| - 1]) + Line(headers[|headers| - 1].0, headers[|headers| - 1].1)
  }

  function HeadText(r: Request): string {
    MethodString(r.verb) + " " + r.path + " " + ("HTTP/1.1" + CRLF) + HeaderText(r.headers) + CRLF
  }

  function BodyText(r: Request): string { if r.body.NoBody? then [] else r.body.bytes }

  function Text(r: Request): string { HeadText(r) + BodyText(r) }

  /** The header table of wrk.format: distinct names, Content-Length exactly when there is a body, no other name that
      the parser gives a meaning, and printable values. */
  ghost predicate GoodHeaders(headers: seq<(string, string)>, body: MaybeBody) {
    && (forall i :: 0 <= i < |headers| ==> GoodHeader(headers[i], body))
    && (forall i, j :: 0 <= i < j < |headers| ==> headers[i].0 != headers[j].0)
    && (body.SomeBody? ==> exists i :: 0 <= i < |headers| && headers[i].0 == LENGTH_NAME)
  }

  ghost predicate GoodHeader(h: (string, string), body: MaybeBody) {
    (IsPlainName(h.0) && IsValue(h.1)) || (body.SomeBody? && h == (LENGTH_NAME, Decimal(|body.bytes|)))
  }

  ghost predicate Good(r: Request, room: nat) {
    && !r.verb.CONNECT? && IsTarget(r.path) && GoodHeaders(r.headers, r.body)
    && (r.body.SomeBody? ==> |r.body.bytes| <= MAX_LENGTH)
    && |HeadText(r)| <= room
  }

  function HeaderEvents(headers: seq<(string, string)>): seq<Event> {
    if headers == [] then []
    else
      var h := headers[|headers| - 1];
      HeaderEvents(headers[..|headers| - 1]) + [Data(Field, h.0), Data(Value, Trim(h.1))]
  }

  function BodyLength(r: Request): nat { if r.body.NoBody? then ULLONG_MAX else |r.body.bytes| }

  /** What the program that reads the request is told. */
  function Message(r: Request): seq<Event> {
    [Notify(MessageBegin), Data(Url, r.path)] + HeaderEvents(r.headers)
    + [Notify(HeadersComplete(BodyLength(r), false, false))]
    + (if BodyText(r) == [] then [] else [Data(Body, BodyText(r))])
    + [Notify(MessageComplete)]
  }

  /** Between two requests. */
  predicate Ready(s: Parser) { s.errno.OK? && s.state.StartReq? && s.kind.Request? }

  // ----- the headers

  /** After some of the headers: the length is known once its line has been read. */
  predicate Reading(s: Parser, seen: bool, body: MaybeBody) {
    && LineStart(s) && s.kind.Request? && s.major == 1 && s.minor == 1 && !s.verb.CONNECT?
    && s.flags == NO_FLAGS.(contentLength := seen)
    && s.contentLength == if seen && body.SomeBody? then |body.bytes| else ULLONG_MAX
  }

  predicate Seen(headers: seq<(string, string)>) { exists i :: 0 <= i < |headers| && headers[i].0 == LENGTH_NAME }

  lemma {:induction false} LowerNameAt(name: string, i: nat)
    requires i < |name|
    ensures LowerName(name)[i] == Token(name[i])
  {
    hide Token;
    if i < |name| - 1 { LowerNameAt(name[..|name| - 1], i); }
  }

  lemma LengthTokens(i: nat)
    requires i < |LENGTH_NAME|
    ensures Token(LENGTH_NAME[i]) == CONTENT_LENGTH[i] != NUL
  {
  }

  lemma LengthName()
    ensures IsName(LENGTH_NAME) && LowerName(LENGTH_NAME) == CONTENT_LENGTH
    ensures !IsPlainName(LENGTH_NAME)
  {
    hide Token;
    assert |LENGTH_NAME| == |CONTENT_LENGTH|;
    forall i | 0 <= i < |LENGTH_NAME|
      ensures LowerName(LENGTH_NAME)[i] == CONTENT_LENGTH[i] && IsToken(LENGTH_NAME[i])
    {
      LowerNameAt(LENGTH_NAME, i);
      LengthTokens(i);
    }
  }

  lemma TrimDigits(ds: string)
    requires IsDigits(ds)
    ensures Trim(ds) == ds
  {
    DigitIsValueChar(ds[0]);
  }

  /** One header of the table. */
  lemma GoesHeader(s: Parser, t: seq<Event>, h: (string, string), seen: bool, body: MaybeBody, slack: nat)
    returns (s': Parser, t': seq<Event>)
    requires Reading(s, seen, body) && GoodHeader(h, body) && (seen ==> h.0 != LENGTH_NAME)
    requires body.SomeBody? ==> |body.bytes| <= MAX_LENGTH
    requires Room(s, |Line(h.0, h.1)|, slack)
    ensures Goes(s, t, Line(h.0, h.1), s', t', slack)
    ensures Reading(s', seen || h.0 == LENGTH_NAME, body) && s'.nread == s.nread + |Line(h.0, h.1)|
    ensures Settled(s', t') == Push(Push(Settled(s, t), Data(Field, h.0)), Data(Value, Trim(h.1)))
  {
    hide Goes, LineStart, Push, Settled, IsPlainName, IsValue, Decimal, Line, Room;
    LengthName();
    if h.0 == LENGTH_NAME {
      s', t' := GoesLengthLine(s, t, h.0, h.1, slack);
      TrimDigits(h.1);
    } else {
      s', t' := GoesLine(s, t, h.0, h.1, slack);
    }
  }

  lemma {:induction false} GoesHeaders(s: Parser, t: seq<Event>, headers: seq<(string, string)>, body: MaybeBody,
                                           slack: nat)
    returns (s': Parser, t': seq<Event>)
    requires Reading(s, false, body) && Room(s, |HeaderText(headers)|, slack)
    requires body.SomeBody? ==> |body.bytes| <= MAX_LENGTH
    requires forall i :: 0 <= i < |headers| ==> GoodHeader(headers[i], body)
    requires forall i, j :: 0 <= i < j < |headers| ==> headers[i].0 != headers[j].0
    requires NoOpenField(Settled(s, t))
    ensures Goes(s, t, HeaderText(headers), s', t', slack)
    ensures Reading(s', Seen(headers), body) && s'.nread == s.nread + |HeaderText(headers)|
    ensures Settled(s', t') == Settled(s, t) + HeaderEvents(headers)
    decreases |headers|
  {
    hide Goes, Reading, GoodHeader, Line, Trim, Settled;
    if headers == [] {
      s', t' := s, t;
      GoesNowhere(s, t, slack);
    } else {
      var n := |headers| - 1;
      var init, h := headers[..n], headers[n];
      var s1, t1 := GoesHeaders(s, t, init, body, slack);
      SeenSnoc(headers);
      s', t' := GoesHeader(s1, t1, h, Seen(init), body, slack);
      GoesOn(s, t, HeaderText(init), s1, t1, Line(h.0, h.1), s', t', slack);
      PushPair(Settled(s, t) + HeaderEvents(init), h);
      assert Settled(s', t') == Settled(s, t) + HeaderEvents(init) + [Data(Field, h.0), Data(Value, Trim(h.1))];
    }
  }

  lemma SeenSnoc(headers: seq<(string, string)>)
    requires headers != []
    requires forall i, j :: 0 <= i < j < |headers| ==> headers[i].0 != headers[j].0
    ensures var n := |headers| - 1;
            Seen(headers) == (Seen(headers[..n]) || headers[n].0 == LENGTH_NAME)
            && (Seen(headers[..n]) ==> headers[n].0 != LENGTH_NAME)
  {
    var n := |headers| - 1;
    if i :| 0 <= i < n && headers[i].0 == LENGTH_NAME {
      assert headers[..n][i].0 == LENGTH_NAME;
    }
  }

  /** A trace that a field name would not be merged into. */
  predicate NoOpenField(t: seq<Event>) { t == [] || !t[|t| - 1].Data? || !t[|t| - 1].kind.Field? }

  lemma PushPair(t: seq<Event>, h: (string, string))
    requires NoOpenField(t)
    ensures Push(Push(t, Data(Field, h.0)), Data(Value, Trim(h.1))) == t + [Data(Field, h.0), Data(Value, Trim(h.1))]
  {
    hide Trim;
    assert Push(t, Data(Field, h.0)) == t + [Data(Field, h.0)];
  }

  // ----- the request line

  function AfterLine(s: Parser, r: Request): Parser {
    AfterMethod(s, r.verb).(state := HeaderFieldStart, major := 1, minor := 1,
                            nread := s.nread + |MethodString(r.verb)| + 1 + |r.path| + 1 + 10)
  }

  lemma GoesRequestLine(s: Parser, t: seq<Event>, r: Request, slack: nat)
    requires s.errno.OK? && s.state.StartReq? && !r.verb.CONNECT? && IsTarget(r.path)
    requires Room(s, |MethodString(r.verb)| + |r.path| + 12, slack)
    ensures Goes(s, t, MethodString(r.verb) + " " + r.path + " " + ("HTTP/1.1" + CRLF), AfterLine(s, r),
                 t + [Notify(MessageBegin), Data(Url, r.path)], slack)
  {
    hide Goes, MethodString, UrlAfter, Push;
    var w := MethodString(r.verb) + " ";
    var s1 := AfterMethod(s, r.verb);
    var s2 := s1.(state := UrlAfter(r.path), nread := s1.nread + |r.path|);
    var s3 := s2.(state := ReqHttpStart, nread := s2.nread + 1);
    var t1 := t + [Notify(MessageBegin)];
    var t2 := Push(t1, Data(Url, r.path));
    TargetNotEmpty(r.path);
    GoesMethod(s, t, r.verb, slack);
    GoesUrl(s1, t1, r.path, slack);
    GoesUrlEnd(s2, t1, r.path, slack);
    GoesVersion(s3, t2, slack);
    GoesOn(s, t, w, s1, t1, r.path, s2, t2, slack);
    GoesOn(s, t, w + r.path, s2, t2, [' '], s3, t2, slack);
    GoesOn(s, t, w + r.path + " ", s3, t2, "HTTP/1.1" + CRLF, AfterLine(s, r), t2, slack);
    UrlAppended(t, r.path);
  }

  lemma TargetNotEmpty(path: string)
    requires IsTarget(path)
    ensures path != [] && InUrl(UrlAfter(path))
  {
  }

  lemma UrlAppended(t: seq<Event>, path: string)
    ensures Push(t + [Notify(MessageBegin)], Data(Url, path)) == t + [Notify(MessageBegin), Data(Url, path)]
  {
  }

  // ----- the whole request

  lemma ReadingStarts(s: Parser, r: Request)
    requires Ready(s) && !r.verb.CONNECT?
    ensures Reading(AfterLine(s, r), false, r.body) && AfterLine(s, r).state.HeaderFieldStart?
  {
    hide MethodString, CommitValue;
  }

  /** The empty line: the headers are complete, and so is a request without body bytes. */
  lemma GoesEmptyLine(s: Parser, t: seq<Event>, r: Request, slack: nat)
    requires Reading(s, r.body.SomeBody?, r.body) && Room(s, 2, slack)
    requires r.body.SomeBody? ==> |r.body.bytes| <= MAX_LENGTH
    ensures var u := Settled(s, t) + [Notify(HeadersComplete(BodyLength(r), false, false))];
            if BodyText(r) == [] then
              Goes(s, t, CRLF, s.(state := StartReq, nread := 0, upgrade := false), u + [Notify(MessageComplete)],
                  slack)
            else
              Goes(s, t, CRLF, s.(state := BodyIdentity, nread := 0, upgrade := false), u, slack)
  {
    hide Goes, Settled, LineStart;
    assert s.errno.OK? by { StartOk(s); }
    var s1 := s.(state := HeadersAlmostDone, nread := s.nread + 1);
    var u := Settled(s, t) + [Notify(HeadersComplete(BodyLength(r), false, false))];
    BlankCr(s, t, slack);
    BlankLf(s1, Settled(s, t), slack);
    assert [CR] + [LF] == CRLF;
    if BodyText(r) == [] {
      GoesOn(s, t, [CR], s1, Settled(s, t), [LF], s.(state := StartReq, nread := 0, upgrade := false),
             u + [Notify(MessageComplete)], slack);
    } else {
      GoesOn(s, t, [CR], s1, Settled(s, t), [LF], s.(state := BodyIdentity, nread := 0, upgrade := false), u, slack);
    }
  }

  lemma BodyAppended(t: seq<Event>, n: Note, body: string)
    ensures Push(t + [Notify(n)], Data(Body, body)) == t + [Notify(n)] + [Data(Body, body)]
  {
  }

  /** The printed request makes the parser tell exactly the request, and leaves it ready for the next. */
  lemma GoesRequest(s: Parser, t: seq<Event>, r: Request, slack: nat) returns (s': Parser)
    requires Ready(s) && Room(s, 0, slack) && Good(r, MAX_HEADER_SIZE - slack - s.nread)
    ensures Goes(s, t, Text(r), s', t + Message(r), slack) && Ready(s') && s'.nread == 0
  {
    hide Goes, Reading, GoodHeader, MethodString, HeaderText, Message, Seen, IsTarget, UrlAfter;
    var line := MethodString(r.verb) + " " + r.path + " " + ("HTTP/1.1" + CRLF);
    var s1 := AfterLine(s, r);
    var t1 := t + [Notify(MessageBegin), Data(Url, r.path)];
    assert |HeadText(r)| == |line| + |HeaderText(r.headers)| + 2;
    assert |line| == |MethodString(r.verb)| + |r.path| + 12;
    GoesRequestLine(s, t, r, slack);
    ReadingStarts(s, r);
    var s2, t2 := GoesHeaders(s1, t1, r.headers, r.body, slack);
    assert Seen(r.headers) == r.body.SomeBody? by { SeenIff(r); }
    GoesOn(s, t, line, s1, t1, HeaderText(r.headers), s2, t2, slack);
    GoesEmptyLine(s2, t2, r, slack);
    var u := Settled(s2, t2) + [Notify(HeadersComplete(BodyLength(r), false, false))];
    MessageParts(t, r);
    if BodyText(r) == [] {
      s' := s2.(state := StartReq, nread := 0, upgrade := false);
      assert u + [] + [Notify(MessageComplete)] == u + [Notify(MessageComplete)];
      GoesOn(s, t, line + HeaderText(r.headers), s2, t2, CRLF, s', t + Message(r), slack);
      assert Text(r) == HeadText(r);
    } else {
      var s3 := s2.(state := BodyIdentity, nread := 0, upgrade := false);
      s' := s3.(state := StartReq, contentLength := 0);
      GoesOn(s, t, line + HeaderText(r.headers), s2, t2, CRLF, s3, u, slack);
      ReadingIsPlain(s2, r.body);
      GoesWholeBody(s3, u, BodyText(r), slack);
      BodyAppended(Settled(s2, t2), HeadersComplete(BodyLength(r), false, false), BodyText(r));
      GoesOn(s, t, HeadText(r), s3, u, BodyText(r), s', t + Message(r), slack);
    }
    ReadingReady(s2, r.body);
  }

  lemma SeenIff(r: Request)
    requires GoodHeaders(r.headers, r.body)
    ensures Seen(r.headers) == r.body.SomeBody?
  {
    if Seen(r.headers) {
      var i :| 0 <= i < |r.headers| && r.headers[i].0 == LENGTH_NAME;
      assert GoodHeader(r.headers[i], r.body);
      LengthName();
    }
  }

  lemma MessageParts(t: seq<Event>, r: Request)
    ensures t + Message(r)
         == t + [Notify(MessageBegin), Data(Url, r.path)] + HeaderEvents(r.headers)
            + [Notify(HeadersComplete(BodyLength(r), false, false))]
            + (if BodyText(r) == [] then [] else [Data(Body, BodyText(r))]) + [Notify(MessageComplete)]
  {
  }

  lemma ReadingIsPlain(s: Parser, body: MaybeBody)
    requires Reading(s, body.SomeBody?, body) && body.SomeBody?
    ensures s.contentLength == |body.bytes| && s.errno.OK?
    ensures PlainRequest(s.(state := BodyIdentity, nread := 0, upgrade := false))
  {
    hide LineStart;
    StartOk(s);
  }

  lemma ReadingReady(s: Parser, body: MaybeBody)
    requires Reading(s, body.SomeBody?, body)
    ensures s.errno.OK? && s.kind.Request?
  {
    hide LineStart;
    StartOk(s);
  }
}
