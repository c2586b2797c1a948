/** A request with a chunked body, from its first byte to its last, in any pieces. */
module ChunkedMessages {
  import opened Bytes
  import opened Trace
  import opened Machine
  import opened Bytewise
  import opened Marks
  import opened Scans
  import opened Invariant
  import opened Limits
  import opened HttpParser
  import opened Feeding
  import opened Journeys
  import opened Spacing
  import opened HeaderNames
  import opened HeaderLines
  import opened Requests
  import opened RequestLines
  import Chunks

  // ----- the value "chunked", in whatever case

  predicate IsChunkedWord(w: string) {
    |w| == |CHUNKED| && forall i :: 0 <= i < |w| ==> Lower(w[i]) == CHUNKED[i]
  }

  /** The matcher after the first `n` bytes of the word. */
  function WordState(s: Parser, n: nat): Parser
    requires 1 <= n <= |CHUNKED|
  {
    s.(state := HeaderValue, index := n - 1, hs := if n == |CHUNKED| then HeaderState.Chunked else MatchingChunked,
       nread := s.nread + n)
  }

  lemma WordChar(ch: char, i: nat)
    requires i < |CHUNKED| && Lower(ch) == CHUNKED[i]
    ensures IsValueChar(ch) && !IsBlank(ch)
  {
  }

  lemma EnterWord(s: Parser, t: seq<Event>, ch: char, slack: nat)
    requires s.errno.OK? && s.state.HeaderValueDiscardWs? && s.hs.TransferEncodingName? && Lower(ch) == CHUNKED[0]
    requires Room(s, 1, slack)
    ensures Goes(s, t, [ch], WordState(s, 1), Push(t, Data(Value, [ch])), slack)
  {
    hide IsHeaderChar, Lower, IsNum, ConnectionWord, Push;
    WordChar(ch, 0);
    var c := Counted(s);
    ActIs(c, ch, true);
    hide Act;
    assert Act(c, ch, true) == ActValueStart(c, ch);
    assert ValueBegin(c.(state := HeaderValue, index := 0), ch) == WordState(s, 1);
    assert [Mark(Value)][1..] == [];
    GoesByte(s, t, ch, slack);
  }

  lemma NextOfWord(s: Parser, t: seq<Event>, ch: char, n: nat, slack: nat)
    requires s.errno.OK? && 1 <= n < |CHUNKED| && Lower(ch) == CHUNKED[n] && Room(s, n + 1, slack)
    ensures Goes(WordState(s, n), t, [ch], WordState(s, n + 1), Push(t, Data(Value, [ch])), slack)
  {
    hide IsHeaderChar, Push, Lower;
    WordChar(ch, n);
    var w := WordState(s, n);
    var c := Counted(w);
    ActIs(c, ch, true);
    hide Act;
    assert Act(c, ch, true) == ValueChar(c, ch);
    assert ValueChar(c, ch) == Stay(WordState(s, n + 1));
    GoesByte(w, t, ch, slack);
  }

  lemma {:induction false} GoesWord(s: Parser, t: seq<Event>, w: string, n: nat, slack: nat)
    requires s.errno.OK? && s.state.HeaderValueDiscardWs? && s.hs.TransferEncodingName? && IsChunkedWord(w)
    requires 1 <= n <= |w| && Room(s, n, slack)
    ensures Goes(s, t, w[..n], WordState(s, n), Push(t, Data(Value, w[..n])), slack)
  {
    hide Goes, Lower, Push;
    if n == 1 {
      assert w[..1] == [w[0]];
      EnterWord(s, t, w[0], slack);
    } else {
      var m := n - 1;
      var t1 := Push(t, Data(Value, w[..m]));
      GoesWord(s, t, w, m, slack);
      NextOfWord(s, t1, w[m], m, slack);
      PushTwice(t, Value, w[..m], [w[m]]);
      assert w[..m] + [w[m]] == w[..n];
      GoesOn(s, t, w[..m], WordState(s, m), t1, [w[m]], WordState(s, n), Push(t, Data(Value, w[..n])), slack);
    }
  }

  /** The line of the Transfer-Encoding header; its flag is set with the next byte. */
  lemma GoesEncodingLine(s: Parser, t: seq<Event>, name: string, w: string, slack: nat)
    requires LineStart(s) && IsName(name) && LowerName(name) == TRANSFER_ENCODING && IsChunkedWord(w)
    requires Room(s, |Line(name, w)|, slack)
    ensures Goes(s, t, Line(name, w), Encoded(s, name, w),
            Push(Push(Settled(s, t), Data(Field, name)), Data(Value, w)), slack)
  {
    hide Goes, NameState, Push, LineStart, IsName, Lower, CommitValue;
    var u := Push(Settled(s, t), Data(Field, name));
    var t' := Push(u, Data(Value, w));
    StartOk(s);
    NameNotEmpty(name);
    NameOk(s.(state := HeaderField), name);
    NameRecognised(s.(state := HeaderField), name);
    var s1 := NameState(s.(state := HeaderField), name).(state := HeaderValueDiscardWs, nread := s.nread + |name| + 2);
    var s2 := WordState(s1, |w|);
    GoesPrefix(s, t, name, slack);
    GoesWord(s1, u, w, |w|, slack);
    assert w[..|w|] == w;
    GoesOn(s, t, name + ": ", s1, u, w, s2, t', slack);
    GoesValueEnd(s2, u, w, slack);
    GoesOn(s, t, name + ": " + w, s2, t', CRLF, Encoded(s, name, w), t', slack);
    assert name + ": " + w + CRLF == Line(name, w);
  }

  function Encoded(s: Parser, name: string, w: string): Parser {
    s.(state := HeaderValueLws, index := 6, hs := HeaderState.Chunked, nread := s.nread + |Line(name, w)|)
  }

  // ----- the end of the headers

  lemma EncodedCr(s: Parser, t: seq<Event>, slack: nat)
    requires s.errno.OK? && s.state.HeaderValueLws? && s.hs.Chunked? && Room(s, 1, slack)
    ensures Goes(s, t, [CR], s.(state := HeadersAlmostDone, flags := s.flags.(chunked := true), nread := s.nread + 1),
            t, slack)
  {
    hide IsHeaderChar;
    GoesChar(s, t, CR, s.(state := HeadersAlmostDone, flags := s.flags.(chunked := true), nread := s.nread + 1), slack);
  }

  /** A request whose headers announce chunks. */
  predicate ChunkedRequest(s: Parser) {
    s.kind.Request? && s.major == 1 && s.minor == 1 && !s.verb.CONNECT? && s.flags == NO_FLAGS.(chunked := true)
    && s.contentLength == ULLONG_MAX
  }

  lemma EncodedLf(s: Parser, t: seq<Event>, slack: nat)
    requires s.errno.OK? && s.state.HeadersAlmostDone? && ChunkedRequest(s) && Room(s, 1, slack)
    ensures Goes(s, t, [LF], s.(state := ChunkSizeStart, nread := 0, upgrade := false),
                 t + [Notify(HeadersComplete(ULLONG_MAX, true, false))], slack)
  {
    hide IsHeaderChar;
    var n := HeadersComplete(ULLONG_MAX, true, false);
    var e := Act(Counted(s), LF, true);
    assert e == Effect(s.(state := ChunkSizeStart, nread := 0, upgrade := false), [Tell(n)] + [], false);
    EmitTell(t, NoMark, n, [], LF, true);
    EmitNothing(t + [Notify(n)], LF, true);
    GoesByte(s, t, LF, slack);
  }

  // ----- the whole request

  /** A request with plain headers, then the Transfer-Encoding header, then the chunked body. */
  datatype Upload = Upload(verb: Method, path: string, headers: seq<(string, string)>, name: string, word: string,
                           body: Chunks.Chunked)

  function Head(u: Upload): Request { Request.Request(u.verb, u.path, u.headers, NoBody) }

  function Line0(u: Upload): string { MethodString(u.verb) + " " + u.path + " " + ("HTTP/1.1" + CRLF) }

  function HeadOf(u: Upload): string { Line0(u) + HeaderText(u.headers) + Line(u.name, u.word) + CRLF }

  function UploadText(u: Upload): string { HeadOf(u) + Chunks.BodyText(u.body) }

  function HeadEvents(u: Upload): seq<Event> {
    [Notify(MessageBegin), Data(Url, u.path)] + HeaderEvents(u.headers) + [Data(Field, u.name), Data(Value, u.word)]
    + [Notify(HeadersComplete(ULLONG_MAX, true, false))]
  }

  function UploadEvents(u: Upload): seq<Event> { HeadEvents(u) + Chunks.BodyEvents(u.body) }

  ghost predicate GoodUpload(u: Upload, room: nat) {
    && !u.verb.CONNECT? && IsTarget(u.path) && GoodHeaders(u.headers, NoBody)
    && IsName(u.name) && LowerName(u.name) == TRANSFER_ENCODING && IsChunkedWord(u.word)
    && Chunks.GoodBody(u.body, room) && |HeadOf(u)| <= room
  }

  lemma WordTrim(w: string)
    requires IsChunkedWord(w)
    ensures Trim(w) == w
  {
    hide IsBlank, Lower;
    WordChar(w[0], 0);
  }

  lemma ReadingChunked(s: Parser, name: string, w: string)
    requires Reading(s, false, NoBody)
    ensures LineStart(s) && s.errno.OK?
    ensures ChunkedRequest(Encoded(s, name, w)
                             .(state := HeadersAlmostDone, flags := s.flags.(chunked := true), nread := 0))
  {
    hide LineStart;
    StartOk(s);
  }

  lemma CountOnly(s: Parser, n: nat)
    requires ChunkedRequest(s)
    ensures ChunkedRequest(s.(nread := n)) && NewMessage(s) == StartReq
    ensures NewMessage(s.(state := ChunkSizeStart, nread := 0, upgrade := false)) == StartReq
  {
  }

  lemma NotSeen(headers: seq<(string, string)>)
    requires forall i :: 0 <= i < |headers| ==> GoodHeader(headers[i], NoBody)
    ensures !Seen(headers)
  {
    if i :| 0 <= i < |headers| && headers[i].0 == LENGTH_NAME {
      assert GoodHeader(headers[i], NoBody);
      LengthName();
    }
  }

  lemma GoesHead(s: Parser, t: seq<Event>, u: Upload, slack: nat) returns (s': Parser)
    requires Ready(s) && Room(s, |HeadOf(u)|, slack) && GoodUpload(u, MAX_HEADER_SIZE - slack)
    ensures Goes(s, t, HeadOf(u), s', t + HeadEvents(u), slack)
    ensures Chunks.AtSize(s') && s'.flags.chunked && !s'.upgrade && NewMessage(s') == StartReq && s'.kind.Request?
  {
    hide Goes, Reading, GoodHeader, MethodString, HeaderText, Seen, IsTarget, UrlAfter, Line, LineStart, HeaderEvents,
         IsName, LowerName, IsChunkedWord, Chunks.GoodBody, Settled, ChunkedRequest, NewMessage, Push;
    var r := Head(u);
    var s1 := AfterLine(s, r);
    var t1 := t + [Notify(MessageBegin), Data(Url, u.path)];
    GoesRequestLine(s, t, r, slack);
    ReadingStarts(s, r);
    assert Settled(s1, t1) == t1 && NoOpenField(t1) by { Unsettled(s1, t1); }
    var s2, t2 := GoesHeaders(s1, t1, u.headers, NoBody, slack);
    NotSeen(u.headers);
    GoesOn(s, t, Line0(u), s1, t1, HeaderText(u.headers), s2, t2, slack);
    ReadingChunked(s2, u.name, u.word);
    var s3 := Encoded(s2, u.name, u.word);
    var t3 := Push(Push(Settled(s2, t2), Data(Field, u.name)), Data(Value, u.word));
    GoesEncodingLine(s2, t2, u.name, u.word, slack);
    GoesOn(s, t, Line0(u) + HeaderText(u.headers), s2, t2, Line(u.name, u.word), s3, t3, slack);
    HeadersNotOpen(t1, u.headers);
    WordTrim(u.word);
    PushPair(t1 + HeaderEvents(u.headers), (u.name, u.word));
    var s4 := s3.(state := HeadersAlmostDone, flags := s3.flags.(chunked := true), nread := s3.nread + 1);
    EncodedCr(s3, t3, slack);
    GoesOn(s, t, Line0(u) + HeaderText(u.headers) + Line(u.name, u.word), s3, t3, [CR], s4, t3, slack);
    CountOnly(s4.(nread := 0), s4.nread);
    EncodedLf(s4, t3, slack);
    s' := s4.(state := ChunkSizeStart, nread := 0, upgrade := false);
    CountOnly(s4, 0);
    assert t3 + [Notify(HeadersComplete(ULLONG_MAX, true, false))] == t + HeadEvents(u);
    GoesOn(s, t, Line0(u) + HeaderText(u.headers) + Line(u.name, u.word) + [CR], s4, t3, [LF], s', t + HeadEvents(u),
        slack);
    assert Line0(u) + HeaderText(u.headers) + Line(u.name, u.word) + [CR] + [LF] == HeadOf(u);
  }

  lemma Unsettled(s: Parser, t: seq<Event>)
    requires s.state.HeaderFieldStart? && t != [] && t[|t| - 1].Data? && t[|t| - 1].kind.Url?
    ensures Settled(s, t) == t && NoOpenField(t)
  {
  }

  lemma HeadersNotOpen(t: seq<Event>, headers: seq<(string, string)>)
    requires NoOpenField(t)
    ensures NoOpenField(t + HeaderEvents(headers))
  {
    hide Trim;
  }

  /** The bytes of the trailer part, which the next message finds counted already. */
  function TrailerCount(u: Upload): nat { |HeaderText(u.body.trailers)| + 2 }

  /** Nothing is lost or added between the printed request and the callbacks. */
  lemma GoesUpload(s: Parser, t: seq<Event>, u: Upload, slack: nat) returns (s': Parser)
    requires Ready(s) && Room(s, |HeadOf(u)|, slack) && GoodUpload(u, MAX_HEADER_SIZE - slack)
    ensures Goes(s, t, UploadText(u), s', t + UploadEvents(u), slack)
    ensures Ready(s') && s'.nread == TrailerCount(u)
  {
    hide Goes, HeadOf, HeadEvents, Chunks.GoodBody, NewMessage, Chunks.BodyText, Chunks.BodyEvents;
    var s1 := GoesHead(s, t, u, slack);
    s' := Chunks.GoesChunked(s1, t + HeadEvents(u), u.body, slack);
    assert t + UploadEvents(u) == t + HeadEvents(u) + Chunks.BodyEvents(u.body);
    GoesOn(s, t, HeadOf(u), s1, t + HeadEvents(u), Chunks.BodyText(u.body), s', t + UploadEvents(u), slack);
  }

  /** The bytes that on_body is given. */
  function BodyBytes(t: seq<Event>): string {
    if t == [] then []
    else BodyBytes(t[..|t| - 1])
         + if t[|t| - 1].Data? && t[|t| - 1].kind.Body? then t[|t| - 1].bytes else []
  }

  function ChunkBytes(cs: seq<Chunks.Chunk>): string {
    if cs == [] then [] else ChunkBytes(cs[..|cs| - 1]) + cs[|cs| - 1].data
  }

  lemma BodyBytesSnoc(t: seq<Event>, e: Event)
    ensures BodyBytes(t + [e]) == BodyBytes(t) + if e.Data? && e.kind.Body? then e.bytes else []
  {
    assert (t + [e])[..|t|] == t;
  }

  lemma {:induction false} BodyBytesAppend(a: seq<Event>, b: seq<Event>)
    ensures BodyBytes(a + b) == BodyBytes(a) + BodyBytes(b)
    decreases |b|
  {
    if b == [] {
      assert a + b == a;
    } else {
      hide BodyBytes;
      var init, last := b[..|b| - 1], b[|b| - 1];
      assert init + [last] == b;
      Associates(a, init, [last]);
      BodyBytesSnoc(init, last);
      BodyBytesSnoc(a + init, last);
      BodyBytesAppend(a, init);
      Associates(BodyBytes(a), BodyBytes(init), if last.Data? && last.kind.Body? then last.bytes else []);
    }
  }

  lemma Associates<T>(a: seq<T>, b: seq<T>, c: seq<T>)
    ensures (a + b) + c == a + (b + c)
  {
  }

  lemma BodyBytesOne(e: Event)
    ensures BodyBytes([e]) == if e.Data? && e.kind.Body? then e.bytes else []
  {
    assert [e][..0] == [];
  }

  lemma {:induction false} HeadersCarryNothing(headers: seq<(string, string)>)
    ensures BodyBytes(HeaderEvents(headers)) == []
  {
    if headers != [] {
      var n := |headers| - 1;
      var f, v := Data(Field, headers[n].0), Data(Value, Trim(headers[n].1));
      HeadersCarryNothing(headers[..n]);
      BodyBytesOne(f);
      BodyBytesOne(v);
      BodyBytesAppend([f], [v]);
      BodyBytesAppend(HeaderEvents(headers[..n]), [f] + [v]);
      assert [f] + [v] == [f, v];
    }
  }

  lemma {:induction false} ChunksCarry(cs: seq<Chunks.Chunk>)
    ensures BodyBytes(Chunks.ChunkEvents(cs)) == ChunkBytes(cs)
  {
    if cs != [] {
      var n := |cs| - 1;
      var h, b, c := Notify(ChunkHeader(|cs[n].data|)), Data(Body, cs[n].data), Notify(ChunkComplete);
      ChunksCarry(cs[..n]);
      BodyBytesOne(h);
      BodyBytesOne(b);
      BodyBytesOne(c);
      BodyBytesAppend([h], [b]);
      BodyBytesAppend([h] + [b], [c]);
      BodyBytesAppend(Chunks.ChunkEvents(cs[..n]), [h] + [b] + [c]);
      assert [h] + [b] + [c] == [h, b, c];
    }
  }

  /** The data given to on_body is the data of the chunks, in order. */
  lemma UploadCarries(u: Upload)
    ensures BodyBytes(UploadEvents(u)) == ChunkBytes(u.body.chunks)
  {
    hide BodyBytes, HeaderEvents, Chunks.ChunkEvents, ChunkBytes;
    var a, h := [Notify(MessageBegin), Data(Url, u.path)], HeaderEvents(u.headers);
    var l, e := [Data(Field, u.name), Data(Value, u.word)], [Notify(HeadersComplete(ULLONG_MAX, true, false))];
    var z, m := [Notify(ChunkHeader(0))], [Notify(ChunkComplete), Notify(MessageComplete)];
    var c, r := Chunks.ChunkEvents(u.body.chunks), HeaderEvents(u.body.trailers);
    PairCarries(a[0], a[1]);
    PairCarries(l[0], l[1]);
    PairCarries(m[0], m[1]);
    BodyBytesOne(e[0]);
    BodyBytesOne(z[0]);
    HeadersCarryNothing(u.headers);
    HeadersCarryNothing(u.body.trailers);
    ChunksCarry(u.body.chunks);
    BodyBytesAppend(a, h);
    BodyBytesAppend(a + h, l);
    BodyBytesAppend(a + h + l, e);
    BodyBytesAppend(c, z);
    BodyBytesAppend(c + z, r);
    BodyBytesAppend(c + z + r, m);
    BodyBytesAppend(HeadEvents(u), Chunks.BodyEvents(u.body));
  }

  lemma PairCarries(e: Event, f: Event)
    requires (e.Data? ==> !e.kind.Body?) && (f.Data? ==> !f.kind.Body?)
    ensures BodyBytes([e, f]) == []
  {
    BodyBytesOne(e);
    BodyBytesOne(f);
    BodyBytesAppend([e], [f]);
    assert [e] + [f] == [e, f];
  }

  // ----- in any pieces

  /** A chunked request given to a new parser in any non-empty pieces: it is delivered if and only if all calls are
      fine.  They are when no header part, trailer part or size line is longer than half of the limit, and for longer
      ones when enough bytes lie between the cuts. */
  method FeedUpload(pieces: seq<string>, ghost u: Upload) returns (parser: HttpParser)
    requires forall i :: 0 <= i < |pieces| ==> pieces[i] != []
    requires GoodUpload(u, MAX_HEADER_SIZE) && Concat(pieces) == UploadText(u)
    ensures fresh(parser) && parser.Valid()
    ensures parser.errno.OK? <==> AllFine(Init(Kind.Request, false), [], pieces)
    ensures parser.errno.OK? || parser.errno.HeaderOverflow?
    ensures parser.errno.OK? ==> parser.state.StartReq? && Merge(parser.calls) == UploadEvents(u)
    ensures parser.errno.OK? ==> BodyBytes(Merge(parser.calls)) == ChunkBytes(u.body.chunks)
    ensures forall h: nat | h <= MAX_HEADER_SIZE && GoodUpload(u, h) && Spaced(pieces, h) :: parser.errno.OK?
    ensures GoodUpload(u, MAX_HEADER_SIZE / 2) ==> parser.errno.OK?
  {
    hide Goes, Fed, AllFine, Merge, GoodUpload, UploadEvents, UploadText, Inv, Spaced;
    parser := new HttpParser(Kind.Request, false);
    ghost var s := parser.View();
    HeadRoom(u, MAX_HEADER_SIZE);
    ghost var s' := GoesUpload(s, [], u, 0);
    assert [] + UploadEvents(u) == UploadEvents(u);
    assert Merge([]) == [] by { NoCalls(); }
    var n := Feed(parser, pieces);
    GoesFed(s, [], UploadText(u), s', UploadEvents(u), 0, pieces, parser.View(), parser.calls, n);
    UploadCarries(u);
    forall h: nat | h <= MAX_HEADER_SIZE && GoodUpload(u, h) && Spaced(pieces, h)
      ensures AllFine(s, [], pieces)
    {
      HeadRoom(u, h);
      var r := GoesUpload(s, [], u, MAX_HEADER_SIZE - h);
      GoesFine(s, [], UploadText(u), r, UploadEvents(u), pieces, h);
    }
    HalfIsSpaced(pieces, MAX_HEADER_SIZE / 2);
  }

  lemma HeadRoom(u: Upload, room: nat)
    requires GoodUpload(u, room)
    ensures |HeadOf(u)| <= room
  {
    hide HeadOf, Chunks.GoodBody, IsTarget, GoodHeaders;
  }

  lemma NoCalls()
    ensures Merge([]) == []
  {
  }
}
