/** Chunked bodies: RFC 7230 section 4.1. */
module Chunks {
  import opened Bytes
  import opened Trace
  import opened Machine
  import opened Bytewise
  import opened Marks
  import opened Scans
  import opened Journeys
  import opened HeaderNames
  import opened HeaderLines
  import opened Requests
  import opened RequestLines

  /** The greatest size that passes the overflow test. */
  const MAX_CHUNK: nat := (ULLONG_MAX - 16) / 16 * 16 + 15

  /** A chunk extension: nothing, or a `;` or a blank and anything up to the end of the line. */
  predicate IsExtension(ext: string) { ext == [] || ((ext[0] == ';' || ext[0] == ' ') && CR !in ext) }

  datatype Chunk = Chunk(size: string, ext: string, data: string)

  predicate GoodSize(size: string, ext: string, n: nat, room: nat) {
    size != [] && IsHexText(size) && HexFrom(0, size) == n && n <= MAX_CHUNK && IsExtension(ext)
    && |size| + |ext| + 2 <= room
  }

  predicate GoodChunk(c: Chunk, room: nat) { c.data != [] && GoodSize(c.size, c.ext, |c.data|, room) }

  function SizeLine(size: string, ext: string): string { size + ext + CRLF }

  function ChunkText(c: Chunk): string { SizeLine(c.size, c.ext) + c.data + CRLF }

  function ChunkTexts(cs: seq<Chunk>): string {
    if cs == [] then [] else ChunkTexts(cs[..|cs| - 1]) + ChunkText(cs[|cs| - 1])
  }

  function ChunkEvents(cs: seq<Chunk>): seq<Event> {
    if cs == [] then []
    else ChunkEvents(cs[..|cs| - 1])
         + [Notify(ChunkHeader(|cs[|cs| - 1].data|)), Data(Body, cs[|cs| - 1].data), Notify(ChunkComplete)]
  }

  // ----- the size

  lemma EnterSize(s: Parser, t: seq<Event>, ch: char, slack: nat)
    requires s.errno.OK? && s.state.ChunkSizeStart? && Unhex(ch) >= 0 && Room(s, 1, slack)
    ensures Goes(s, t, [ch], s.(state := ChunkSize, contentLength := Unhex(ch), nread := s.nread + 1), t, slack)
  {
    hide IsHeaderChar, Unhex;
    GoesChar(s, t, ch, s.(state := ChunkSize, contentLength := Unhex(ch), nread := s.nread + 1), slack);
  }

  lemma NextSizeDigit(s: Parser, t: seq<Event>, ch: char, slack: nat)
    requires s.errno.OK? && s.state.ChunkSize? && Unhex(ch) >= 0 && Room(s, 1, slack)
    requires s.contentLength * 16 + Unhex(ch) <= MAX_CHUNK
    ensures Goes(s, t, [ch], s.(contentLength := s.contentLength * 16 + Unhex(ch), nread := s.nread + 1), t, slack)
  {
    HexNotCr(ch);
    hide IsHeaderChar, Unhex;
    assert (s.contentLength * 16 + Unhex(ch)) % TWO_64 == s.contentLength * 16 + Unhex(ch);
    GoesChar(s, t, ch, s.(contentLength := s.contentLength * 16 + Unhex(ch), nread := s.nread + 1), slack);
  }

  lemma HexNotCr(ch: char)
    requires Unhex(ch) >= 0
    ensures ch != CR && Unhex(ch) < 16
  {
  }

  lemma {:induction false} GoesSize(s: Parser, t: seq<Event>, ds: string, slack: nat)
    requires s.errno.OK? && s.state.ChunkSizeStart? && Room(s, |ds|, slack)
    requires ds != [] && IsHexText(ds) && HexFrom(0, ds) <= MAX_CHUNK
    ensures Goes(s, t, ds, s.(state := ChunkSize, contentLength := HexFrom(0, ds), nread := s.nread + |ds|), t, slack)
  {
    hide Goes, Unhex;
    var n := |ds| - 1;
    var d := ds[..n];
    assert d + [ds[n]] == ds;
    if n == 0 {
      EnterSize(s, t, ds[0], slack);
    } else {
      var s1 := s.(state := ChunkSize, contentLength := HexFrom(0, d), nread := s.nread + n);
      GoesSize(s, t, d, slack);
      NextSizeDigit(s1, t, ds[n], slack);
      GoesOn(s, t, d, s1, t, [ds[n]], s1.(contentLength := HexFrom(0, ds), nread := s1.nread + 1), t, slack);
    }
  }

  lemma SizeDigitFails(s: Parser, t: seq<Event>, ch: char)
    requires s.errno.OK? && s.state.ChunkSize? && Unhex(ch) >= 0
    requires s.contentLength * 16 + Unhex(ch) > MAX_CHUNK
    ensures Run(false, s, t, [ch]).halt.Failed? && Run(false, s, t, [ch]).s.errno.InvalidContentLength?
  {
    HexNotCr(ch);
    hide Unhex;
    assert [ch][..0] == [];
    RunEmpty(s, t);
  }

  /** A size beyond the limit is refused, before the 64-bit number could wrap around. */
  lemma {:induction false} SizeRefused(s: Parser, t: seq<Event>, ds: string)
    requires s.errno.OK? && s.state.ChunkSizeStart? && Room(s, |ds|, 0)
    requires ds != [] && IsHexText(ds) && HexFrom(0, ds) > MAX_CHUNK
    ensures var o := Run(false, s, t, ds); o.halt.Failed? && o.s.errno.InvalidContentLength?
  {
    hide Run, Unhex;
    var n := |ds| - 1;
    var d := ds[..n];
    assert d + [ds[n]] == ds;
    RunAppend(s, t, d, [ds[n]]);
    if n == 0 {
      HexNotCr(ds[0]);
      assert false;
    } else if HexFrom(0, d) > MAX_CHUNK {
      SizeRefused(s, t, d);
    } else {
      var s1 := s.(state := ChunkSize, contentLength := HexFrom(0, d), nread := s.nread + n);
      GoesSize(s, t, d, 0);
      SizeDigitFails(s1, t, ds[n]);
    }
  }

  lemma ExtensionStart(s: Parser, ch: char)
    requires ch == ';' || ch == ' '
    ensures ActChunkSize(s, ch) == Goto(s, ChunkParameters)
  {
  }

  lemma ExtensionEnters(s: Parser, t: seq<Event>, ch: char, slack: nat)
    requires s.errno.OK? && s.state.ChunkSize? && (ch == ';' || ch == ' ') && Room(s, 1, slack)
    ensures Goes(s, t, [ch], s.(state := ChunkParameters, nread := s.nread + 1), t, slack)
  {
    hide Goes, Act, ActChunkSize;
    ActIs(Counted(s), ch, true);
    ExtensionStart(Counted(s), ch);
    GoesQuietly(s, t, ch, ChunkParameters, slack);
  }

  lemma ExtensionMore(s: Parser, t: seq<Event>, ch: char, slack: nat)
    requires s.errno.OK? && s.state.ChunkParameters? && ch != CR && Room(s, 1, slack)
    ensures Goes(s, t, [ch], s.(nread := s.nread + 1), t, slack)
  {
    hide Goes, Act;
    ActIs(Counted(s), ch, true);
    GoesQuietly(s, t, ch, ChunkParameters, slack);
  }

  lemma {:induction false} GoesExtension(s: Parser, t: seq<Event>, ext: string, slack: nat)
    requires s.errno.OK? && s.state.ChunkSize? && ext != [] && IsExtension(ext) && Room(s, |ext|, slack)
    ensures Goes(s, t, ext, s.(state := ChunkParameters, nread := s.nread + |ext|), t, slack)
  {
    hide Goes;
    var n := |ext| - 1;
    var d := ext[..n];
    assert d + [ext[n]] == ext;
    if n == 0 {
      ExtensionEnters(s, t, ext[0], slack);
    } else {
      var s1 := s.(state := ChunkParameters, nread := s.nread + n);
      GoesExtension(s, t, d, slack);
      assert ext[n] != CR;
      ExtensionMore(s1, t, ext[n], slack);
      GoesOn(s, t, d, s1, t, [ext[n]], s1.(nread := s1.nread + 1), t, slack);
    }
  }

  /** After the size line. */
  function Sized(s: Parser, n: nat): Parser {
    if n == 0 then s.(state := HeaderFieldStart, contentLength := 0, nread := 0, flags := s.flags.(trailing := true))
    else s.(state := ChunkData, contentLength := n, nread := 0)
  }

  lemma SizeEnd(s: Parser, t: seq<Event>, slack: nat)
    requires s.errno.OK? && s.state.ChunkSizeAlmostDone? && Room(s, 1, slack)
    ensures Goes(s, t, [LF], Sized(s, s.contentLength), t + [Notify(ChunkHeader(s.contentLength))], slack)
  {
    hide IsHeaderChar;
    var n := ChunkHeader(s.contentLength);
    var e := Act(Counted(s), LF, true);
    assert e == Effect(Sized(s, s.contentLength), [Tell(n)], false);
    EmitTell(t, NoMark, n, [], LF, true);
    assert [Tell(n)] + [] == [Tell(n)];
    EmitNothing(t + [Notify(n)], LF, true);
    GoesByte(s, t, LF, slack);
  }

  lemma GoesSizeLine(s: Parser, t: seq<Event>, size: string, ext: string, n: nat, slack: nat)
    requires s.errno.OK? && s.state.ChunkSizeStart? && s.nread == 0 && slack <= MAX_HEADER_SIZE
    requires GoodSize(size, ext, n, MAX_HEADER_SIZE - slack)
    ensures Goes(s, t, SizeLine(size, ext), Sized(s, n), t + [Notify(ChunkHeader(n))], slack)
  {
    hide Goes, IsHexText, HexFrom, IsExtension;
    var s1 := s.(state := ChunkSize, contentLength := n, nread := |size|);
    var s2 := if ext == [] then s1 else s1.(state := ChunkParameters, nread := |size| + |ext|);
    var s3 := s2.(state := ChunkSizeAlmostDone, nread := s2.nread + 1);
    GoesSize(s, t, size, slack);
    if ext != [] {
      GoesExtension(s1, t, ext, slack);
      GoesOn(s, t, size, s1, t, ext, s2, t, slack);
    } else {
      assert size + ext == size;
    }
    CrActs(s2);
    hide Act;
    GoesQuietly(s2, t, CR, ChunkSizeAlmostDone, slack);
    SizeEnd(s3, t, slack);
    GoesOn(s, t, size + ext, s2, t, [CR], s3, t, slack);
    GoesOn(s, t, size + ext + [CR], s3, t, [LF], Sized(s, n), t + [Notify(ChunkHeader(n))], slack);
    assert size + ext + [CR] + [LF] == SizeLine(size, ext);
  }

  lemma CrActs(s: Parser)
    requires s.state.ChunkSize? || s.state.ChunkParameters?
    ensures Act(Counted(s), CR, true) == Effect(Counted(s).(state := ChunkSizeAlmostDone), [], false)
  {
  }

  // ----- the data of a chunk

  lemma LastDataByte(s: Parser, t: seq<Event>, ch: char, slack: nat)
    requires s.errno.OK? && s.state.ChunkData? && s.contentLength == 1
    ensures Goes(s, t, [ch], s.(state := ChunkDataAlmostDone, contentLength := 0), Push(t, Data(Body, [ch])), slack)
  {
    hide IsHeaderChar, Push;
    assert Act(Counted(s), ch, true) == Effect(s.(state := ChunkDataAlmostDone, contentLength := 0), [Mark(Body)],
        false);
    assert [Mark(Body)][1..] == [];
    GoesByte(s, t, ch, slack);
  }

  lemma GoesData(s: Parser, t: seq<Event>, data: string, slack: nat)
    requires s.errno.OK? && s.state.ChunkData? && data != [] && s.contentLength == |data|
    ensures Goes(s, t, data, s.(state := ChunkDataAlmostDone, contentLength := 0), Push(t, Data(Body, data)), slack)
  {
    hide Goes, Push;
    var n := |data| - 1;
    var d := data[..n];
    assert d + [data[n]] == data;
    if n == 0 {
      LastDataByte(s, t, data[0], slack);
    } else {
      GoesBody(s, t, d, slack);
      var s1 := s.(contentLength := 1);
      LastDataByte(s1, Push(t, Data(Body, d)), data[n], slack);
      PushTwice(t, Body, d, [data[n]]);
      GoesOn(s, t, d, s1, Push(t, Data(Body, d)), [data[n]], s.(state := ChunkDataAlmostDone, contentLength := 0),
             Push(t, Data(Body, data)), slack);
    }
  }

  lemma DataCr(s: Parser, t: seq<Event>, slack: nat)
    requires s.errno.OK? && s.state.ChunkDataAlmostDone?
    ensures Goes(s, t, [CR], s.(state := ChunkDataDone), t, slack)
  {
    hide IsHeaderChar, Push;
    assert Act(Counted(s), CR, true) == Effect(s.(state := ChunkDataDone), [Deliver(Body)], false);
    assert [Deliver(Body)][1..] == [];
    GoesByte(s, t, CR, slack);
  }

  lemma DataLf(s: Parser, t: seq<Event>, slack: nat)
    requires s.errno.OK? && s.state.ChunkDataDone?
    ensures Goes(s, t, [LF], s.(state := ChunkSizeStart, nread := 0), t + [Notify(ChunkComplete)], slack)
  {
    hide IsHeaderChar;
    var acts := [Tell(ChunkComplete)];
    assert Act(Counted(s), LF, true) == Effect(s.(state := ChunkSizeStart, nread := 0), acts, false);
    EmitTell(t, NoMark, ChunkComplete, [], LF, true);
    assert acts + [] == acts;
    EmitNothing(t + [Notify(ChunkComplete)], LF, true);
    GoesByte(s, t, LF, slack);
  }

  /** Between two chunks of a message. */
  predicate AtSize(s: Parser) { s.errno.OK? && s.state.ChunkSizeStart? && s.nread == 0 }

  lemma GoesChunk(s: Parser, t: seq<Event>, c: Chunk, slack: nat)
    requires AtSize(s) && slack <= MAX_HEADER_SIZE && GoodChunk(c, MAX_HEADER_SIZE - slack)
    ensures Goes(s, t, ChunkText(c), s.(contentLength := 0),
                 t + [Notify(ChunkHeader(|c.data|)), Data(Body, c.data), Notify(ChunkComplete)], slack)
  {
    hide Goes, GoodSize, SizeLine;
    var n := |c.data|;
    var t1 := t + [Notify(ChunkHeader(n))];
    var t2 := t1 + [Data(Body, c.data)];
    var t3 := t2 + [Notify(ChunkComplete)];
    var s1, s2 := Sized(s, n), s.(state := ChunkDataAlmostDone, contentLength := 0);
    var s3 := s.(state := ChunkDataDone, contentLength := 0);
    var line := SizeLine(c.size, c.ext);
    GoesSizeLine(s, t, c.size, c.ext, n, slack);
    GoesData(s1, t1, c.data, slack);
    GoesOn(s, t, line, s1, t1, c.data, s2, t2, slack);
    DataCr(s2, t2, slack);
    DataLf(s3, t2, slack);
    GoesOn(s, t, line + c.data, s2, t2, [CR], s3, t2, slack);
    GoesOn(s, t, line + c.data + [CR], s3, t2, [LF], s.(contentLength := 0), t3, slack);
    assert line + c.data + [CR] + [LF] == ChunkText(c);
    assert t3 == t + [Notify(ChunkHeader(n)), Data(Body, c.data), Notify(ChunkComplete)];
  }

  predicate GoodChunks(cs: seq<Chunk>, room: nat) { forall i :: 0 <= i < |cs| ==> GoodChunk(cs[i], room) }

  lemma {:induction false} GoesChunks(s: Parser, t: seq<Event>, cs: seq<Chunk>, slack: nat)
    requires AtSize(s) && slack <= MAX_HEADER_SIZE && GoodChunks(cs, MAX_HEADER_SIZE - slack)
    ensures Goes(s, t, ChunkTexts(cs), if cs == [] then s else s.(contentLength := 0), t + ChunkEvents(cs), slack)
    decreases |cs|
  {
    hide Goes, GoodChunk, ChunkText;
    if cs == [] {
      GoesNowhere(s, t, slack);
      assert t + [] == t;
    } else {
      var n := |cs| - 1;
      var s1 := if cs[..n] == [] then s else s.(contentLength := 0);
      var u := t + ChunkEvents(cs[..n]);
      GoesChunks(s, t, cs[..n], slack);
      GoesChunk(s1, u, cs[n], slack);
      assert t + ChunkEvents(cs)
          == u + [Notify(ChunkHeader(|cs[n].data|)), Data(Body, cs[n].data), Notify(ChunkComplete)];
      GoesOn(s, t, ChunkTexts(cs[..n]), s1, u, ChunkText(cs[n]), s.(contentLength := 0), t + ChunkEvents(cs), slack);
    }
  }

  // ----- the end of the body

  predicate GoodTrailers(hs: seq<(string, string)>) {
    forall i :: 0 <= i < |hs| ==> IsPlainName(hs[i].0) && IsValue(hs[i].1)
  }

  lemma {:induction false} GoesTrailers(s: Parser, t: seq<Event>, hs: seq<(string, string)>, slack: nat)
    returns (s': Parser, t': seq<Event>)
    requires LineStart(s) && NoOpenField(Settled(s, t)) && GoodTrailers(hs) && Room(s, |HeaderText(hs)|, slack)
    ensures Goes(s, t, HeaderText(hs), s', t', slack)
    ensures LineStart(s') && Settled(s', t') == Settled(s, t) + HeaderEvents(hs)
    ensures s' == s.(state := s'.state, hs := s'.hs, index := s'.index, nread := s.nread + |HeaderText(hs)|)
    decreases |hs|
  {
    hide Goes, LineStart, Settled, Line, Trim, IsPlainName, IsValue;
    if hs == [] {
      s', t' := s, t;
      GoesNowhere(s, t, slack);
    } else {
      var n := |hs| - 1;
      var s1, t1 := GoesTrailers(s, t, hs[..n], slack);
      var h := hs[n];
      s', t' := GoesLine(s1, t1, h.0, h.1, slack);
      GoesOn(s, t, HeaderText(hs[..n]), s1, t1, Line(h.0, h.1), s', t', slack);
      PushPair(Settled(s, t) + HeaderEvents(hs[..n]), h);
      assert Settled(s', t') == Settled(s, t) + HeaderEvents(hs[..n]) + [Data(Field, h.0), Data(Value, Trim(h.1))];
    }
  }

  lemma TrailerEndActs(s: Parser)
    requires s.errno.OK? && s.state.HeadersAlmostDone? && s.flags.trailing && !s.upgrade
    ensures Act(Counted(s), LF, true)
         == Effect(Counted(s).(state := NewMessage(s)), [Tell(ChunkComplete)] + [Tell(MessageComplete)], false)
  {
    hide NewMessage;
    KeepsState(s, MessageDone, s.nread + 1);
  }

  lemma KeepsState(s: Parser, st: State, n: nat)
    ensures NewMessage(s.(state := st, nread := n)) == NewMessage(s)
  {
  }

  lemma TrailerEnd(s: Parser, t: seq<Event>, slack: nat)
    requires s.errno.OK? && s.state.HeadersAlmostDone? && s.flags.trailing && !s.upgrade && Room(s, 1, slack)
    ensures Goes(s, t, [LF], s.(state := NewMessage(s), nread := s.nread + 1),
                 t + [Notify(ChunkComplete), Notify(MessageComplete)], slack)
  {
    hide IsHeaderChar, Act, NewMessage;
    TrailerEndActs(s);
    EmitTell(t, NoMark, ChunkComplete, [Tell(MessageComplete)], LF, true);
    EmitTell(t + [Notify(ChunkComplete)], NoMark, MessageComplete, [], LF, true);
    assert [Tell(MessageComplete)] + [] == [Tell(MessageComplete)];
    EmitNothing(t + [Notify(ChunkComplete)] + [Notify(MessageComplete)], LF, true);
    assert t + [Notify(ChunkComplete)] + [Notify(MessageComplete)]
        == t + [Notify(ChunkComplete), Notify(MessageComplete)];
    GoesByte(s, t, LF, slack);
  }

  // ----- the whole body

  /** A chunked body: its chunks, the last chunk of size zero and the trailer part. */
  datatype Chunked = Chunked(chunks: seq<Chunk>, zero: string, ext: string, trailers: seq<(string, string)>)

  predicate GoodBody(b: Chunked, room: nat) {
    && GoodChunks(b.chunks, room) && GoodSize(b.zero, b.ext, 0, room) && GoodTrailers(b.trailers)
    && |HeaderText(b.trailers)| + 2 <= room
  }

  /** All of it but the last byte. */
  function AllButLast(b: Chunked): string {
    ChunkTexts(b.chunks) + SizeLine(b.zero, b.ext) + HeaderText(b.trailers) + [CR]
  }

  function BodyText(b: Chunked): string { AllButLast(b) + [LF] }

  function AlmostAll(b: Chunked): seq<Event> {
    ChunkEvents(b.chunks) + [Notify(ChunkHeader(0))] + HeaderEvents(b.trailers)
  }

  function BodyEvents(b: Chunked): seq<Event> { AlmostAll(b) + [Notify(ChunkComplete), Notify(MessageComplete)] }

  lemma SizedZero(s: Parser, t: seq<Event>)
    requires AtSize(s)
    ensures var z := Sized(s, 0);
            LineStart(z) && Settled(z, t) == t && z.nread == 0
            && z == s.(state := HeaderFieldStart, contentLength := 0, nread := 0, flags := s.flags.(trailing := true))
  {
    hide CommitValue;
  }

  lemma AfterNote(t: seq<Event>, n: Note)
    ensures NoOpenField(t + [Notify(n)])
  {
  }

  /** Before the last byte, every chunk is delivered and the message is not complete. */
  lemma GoesAllButLast(s: Parser, t: seq<Event>, b: Chunked, slack: nat) returns (s': Parser)
    requires AtSize(s) && slack <= MAX_HEADER_SIZE && GoodBody(b, MAX_HEADER_SIZE - slack)
    ensures Goes(s, t, AllButLast(b), s', t + AlmostAll(b), slack)
    ensures s'.errno.OK? && s'.state.HeadersAlmostDone? && Room(s', 1, slack)
    ensures s' == s.(state := s'.state, hs := s'.hs, index := s'.index, contentLength := 0,
                     nread := |HeaderText(b.trailers)| + 1, flags := s.flags.(trailing := true))
  {
    hide Goes, GoodSize, GoodChunks, GoodTrailers, LineStart, Settled, SizeLine, HeaderText, ChunkTexts, ChunkEvents,
         HeaderEvents, NoOpenField;
    var a, z := ChunkTexts(b.chunks), SizeLine(b.zero, b.ext);
    var t1 := t + ChunkEvents(b.chunks);
    var t2 := t1 + [Notify(ChunkHeader(0))];
    var s1 := if b.chunks == [] then s else s.(contentLength := 0);
    var s2 := Sized(s1, 0);
    GoesChunks(s, t, b.chunks, slack);
    GoesSizeLine(s1, t1, b.zero, b.ext, 0, slack);
    GoesOn(s, t, a, s1, t1, z, s2, t2, slack);
    SizedZero(s1, t2);
    AfterNote(t1, ChunkHeader(0));
    var s3, t3 := GoesTrailers(s2, t2, b.trailers, slack);
    GoesOn(s, t, a + z, s2, t2, HeaderText(b.trailers), s3, t3, slack);
    BlankCr(s3, t3, slack);
    s' := s3.(state := HeadersAlmostDone, nread := s3.nread + 1);
    StartOk(s3);
    assert t + AlmostAll(b) == t2 + HeaderEvents(b.trailers);
    GoesOn(s, t, a + z + HeaderText(b.trailers), s3, t3, [CR], s', t + AlmostAll(b), slack);
  }

  lemma NewMessageStays(s: Parser, s': Parser)
    requires s.flags.chunked
    requires s' == s.(state := s'.state, hs := s'.hs, index := s'.index, contentLength := 0, nread := s'.nread,
                      flags := s.flags.(trailing := true))
    ensures NewMessage(s') == NewMessage(s)
  {
  }

  /** The last byte completes the message. */
  lemma GoesChunked(s: Parser, t: seq<Event>, b: Chunked, slack: nat) returns (s': Parser)
    requires AtSize(s) && s.flags.chunked && !s.upgrade && slack <= MAX_HEADER_SIZE
             && GoodBody(b, MAX_HEADER_SIZE - slack)
    ensures Goes(s, t, BodyText(b), s', t + BodyEvents(b), slack)
    ensures s'.errno.OK? && s'.state == NewMessage(s) && !s'.upgrade && s'.nread == |HeaderText(b.trailers)| + 2
    ensures s'.kind == s.kind && s'.verb == s.verb
  {
    hide Goes, GoodBody, AllButLast, AlmostAll, NewMessage;
    var s1 := GoesAllButLast(s, t, b, slack);
    NewMessageStays(s, s1);
    TrailerEnd(s1, t + AlmostAll(b), slack);
    s' := s1.(state := NewMessage(s), nread := s1.nread + 1);
    assert t + BodyEvents(b) == t + AlmostAll(b) + [Notify(ChunkComplete), Notify(MessageComplete)];
    GoesOn(s, t, AllButLast(b), s1, t + AlmostAll(b), [LF], s', t + BodyEvents(b), slack);
  }
}
