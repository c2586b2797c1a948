/** What counts as a chunk size: more than the hexadecimal numerals of section 4.1 of RFC 7230. */
module ChunkSizes {
  import opened Bytes
  import opened Trace
  import opened Machine
  import opened Bytewise
  import opened Feeding
  import opened Journeys
  import opened HeaderLines
  import opened HeaderNames
  import opened Requests
  import opened RequestLines
  import Chunks
  import ChunkedMessages

  /** Bytes that end a size. */
  predicate EndsSize(ch: char) { ch == CR || ch == ';' || ch == ' ' }

  /** A byte that is read as a digit: a hexadecimal digit, or any byte beyond ASCII. */
  predicate IsSizeByte(ch: char) { IsHex(ch) || ch as int >= 128 }

  /** The numeral that is understood: every byte that is no digit is a zero. */
  function Numeral(ds: string): (r: string)
    ensures |r| == |ds| && forall i :: 0 <= i < |r| ==> IsHex(r[i])
  {
    if ds == [] then []
    else Numeral(ds[..|ds| - 1]) + [if IsHex(ds[|ds| - 1]) then ds[|ds| - 1] else '0']
  }

  lemma ByteValue(ch: char)
    ensures Unhex(ch) >= 0 <==> IsSizeByte(ch)
    ensures Unhex(ch) < 16 && (Unhex(ch) >= 0 ==> ch != CR)
    ensures !IsHex(ch) && Unhex(ch) >= 0 ==> Unhex(ch) == Unhex('0')
  {
  }

  lemma DigitsAreHex(ds: string)
    requires forall i :: 0 <= i < |ds| ==> IsHex(ds[i])
    ensures IsHexText(ds)
  {
    hide Unhex, IsHex, IsSizeByte;
    forall i | 0 <= i < |ds|
      ensures Unhex(ds[i]) >= 0
    {
      ByteValue(ds[i]);
      assert IsSizeByte(ds[i]) by { HexIsSize(ds[i]); }
    }
  }

  lemma HexIsSize(ch: char)
    requires IsHex(ch)
    ensures IsSizeByte(ch)
  {
    hide IsHex;
  }

  /** The size that is understood. */
  function SizeOf(ds: string): nat {
    DigitsAreHex(Numeral(ds));
    HexFrom(0, Numeral(ds))
  }

  lemma SizeSnoc(ds: string)
    requires ds != [] && IsSizeByte(ds[|ds| - 1])
    ensures SizeOf(ds) == SizeOf(ds[..|ds| - 1]) * 16 + Unhex(ds[|ds| - 1])
  {
    hide Unhex, IsHex;
    var n := |ds| - 1;
    ByteValue(ds[n]);
    DigitsAreHex(Numeral(ds));
    DigitsAreHex(Numeral(ds[..n]));
    assert Numeral(ds)[..n] == Numeral(ds[..n]);
  }

  lemma SizeLimit(n: nat, v: nat)
    requires v < 16
    ensures (ULLONG_MAX - 16) / 16 < n <==> n * 16 + v > Chunks.MAX_CHUNK
    ensures n * 16 + v <= Chunks.MAX_CHUNK ==> (n * 16 + v) % TWO_64 == n * 16 + v
  {
  }

  function Told(o: Outcome, s: Parser): Outcome {
    Outcome(s, o.trace, false, if s.errno.OK? then o.n + 1 else o.n, if s.errno.OK? then Running else Failed)
  }

  lemma FirstByte(o: Outcome, ch: char)
    requires o.s.errno.OK? && o.s.state.ChunkSizeStart?
    ensures Next(false, o, ch)
         == Told(o, if IsSizeByte(ch) then Counted(o.s).(contentLength := Unhex(ch), state := ChunkSize)
                    else Counted(o.s).(errno := InvalidChunkSize))
  {
    ByteValue(ch);
    hide Unhex, IsSizeByte;
    assert Act(Counted(o.s), ch, true) == ActChunkSizeStart(Counted(o.s), ch);
  }

  lemma LaterByte(o: Outcome, ch: char)
    requires o.s.errno.OK? && o.s.state.ChunkSize? && !EndsSize(ch)
    ensures Next(false, o, ch)
         == Told(o, if !IsSizeByte(ch) then Counted(o.s).(errno := InvalidChunkSize)
                    else if o.s.contentLength * 16 + Unhex(ch) > Chunks.MAX_CHUNK then
                      Counted(o.s).(errno := InvalidContentLength)
                    else Counted(o.s).(contentLength := o.s.contentLength * 16 + Unhex(ch)))
  {
    ByteValue(ch);
    if IsSizeByte(ch) { SizeLimit(o.s.contentLength, Unhex(ch)); }
    ActIs(Counted(o.s), ch, true);
    hide Unhex, IsSizeByte, Chunks.MAX_CHUNK, Act;
    assert Act(Counted(o.s), ch, true) == ActChunkSize(Counted(o.s), ch);
  }

  /** Why the bytes `ds` are not the beginning of a size, at `k`, the first offset where they are not. */
  ghost predicate Refused(ds: string, k: nat, e: Errno) {
    && k < |ds| && (forall i :: 0 <= i < k ==> IsSizeByte(ds[i])) && SizeOf(ds[..k]) <= Chunks.MAX_CHUNK
    && if IsSizeByte(ds[k]) then e.InvalidContentLength? && SizeOf(ds[..k + 1]) > Chunks.MAX_CHUNK
       else e.InvalidChunkSize?
  }

  /** What the bytes `ds` of a size leave. */
  ghost predicate SizeRead(s: Parser, t: seq<Event>, ds: string, o: Outcome) {
    && (o.halt.Running? <==> (forall i :: 0 <= i < |ds| ==> IsSizeByte(ds[i])) && SizeOf(ds) <= Chunks.MAX_CHUNK)
    && o.trace == t
    && if o.halt.Running? then
         o.s == s.(state := ChunkSize, contentLength := SizeOf(ds), nread := s.nread + |ds|)
       else o.halt.Failed? && Refused(ds, o.n, o.s.errno)
  }

  lemma SizeEnters(s: Parser, t: seq<Event>, ds: string)
    requires s.errno.OK? && s.state.ChunkSizeStart? && |ds| == 1
    ensures SizeRead(s, t, ds, Run(false, s, t, ds))
  {
    hide Next, Unhex, IsSizeByte, SizeOf;
    assert ds[..0] == [];
    ByteValue(ds[0]);
    FirstByte(Outcome(s, t, false, 0, Running), ds[0]);
    NoSize();
    if IsSizeByte(ds[0]) { SizeSnoc(ds); }
  }

  lemma SizeMore(s: Parser, t: seq<Event>, ds: string, n: nat, o: Outcome)
    requires s.errno.OK? && |ds| == n + 1 && !EndsSize(ds[n]) && SizeRead(s, t, ds[..n], o) && o.halt.Running?
             && o.n == n
    requires !o.scan
    ensures SizeRead(s, t, ds, Next(false, o, ds[n]))
  {
    hide Next, Unhex, IsSizeByte, SizeOf, EndsSize, Chunks.MAX_CHUNK;
    ByteValue(ds[n]);
    LaterByte(o, ds[n]);
    assert forall i :: 0 <= i < n ==> ds[..n][i] == ds[i];
    assert ds[..n + 1] == ds;
    if IsSizeByte(ds[n]) { SizeSnoc(ds); }
  }

  /** The bytes before the end of a size are taken if and only if each is a hexadecimal digit or beyond ASCII and the
      size is not too big; the size is their value with a zero for every byte that is no digit. */
  lemma {:induction false} SizeReadIff(s: Parser, t: seq<Event>, ds: string)
    requires s.errno.OK? && s.state.ChunkSizeStart? && ds != []
    requires forall i :: 0 < i < |ds| ==> !EndsSize(ds[i])
    ensures SizeRead(s, t, ds, Run(false, s, t, ds))
    decreases |ds|
  {
    hide Next, IsSizeByte, SizeOf, EndsSize, SizeRead;
    var n := |ds| - 1;
    var d := ds[..n];
    if n == 0 {
      SizeEnters(s, t, ds);
    } else {
      SizeReadIff(s, t, d);
      RunCount(false, s, t, d);
      StrictScan(s, t, d);
      var o := Run(false, s, t, d);
      if o.halt.Running? { SizeMore(s, t, ds, n, o); } else { RefusedStill(s, t, d, ds, o); }
    }
  }

  lemma NoSize()
    ensures SizeOf([]) == 0
  {
  }

  lemma {:induction false} SizeGrows(ds: string, k: nat)
    requires k <= |ds| && forall i :: 0 <= i < |ds| ==> IsSizeByte(ds[i])
    ensures SizeOf(ds) >= SizeOf(ds[..k])
    decreases |ds|
  {
    hide Unhex, IsSizeByte, SizeOf;
    if k == |ds| {
      assert ds[..k] == ds;
    } else {
      var n := |ds| - 1;
      SizeSnoc(ds);
      ByteValue(ds[n]);
      SizeGrows(ds[..n], k);
      assert ds[..n][..k] == ds[..k];
    }
  }

  lemma RefusedStill(s: Parser, t: seq<Event>, d: string, ds: string, o: Outcome)
    requires d <= ds && SizeRead(s, t, d, o) && !o.halt.Running?
    ensures SizeRead(s, t, ds, o)
  {
    hide IsSizeByte, SizeOf, Chunks.MAX_CHUNK;
    var k := o.n;
    assert d[k] == ds[k] && d[..k] == ds[..k] && d[..k + 1] == ds[..k + 1];
    if forall i :: 0 <= i < |ds| ==> IsSizeByte(ds[i]) { SizeGrows(ds, k + 1); }
  }

  // ----- a byte that is no digit

  const ODD_BYTE: char := 0x80 as char

  /** A request whose last chunk has the size written with that byte. */
  function OddHead(): string {
    "POST" + " " + "/" + " " + ("HTTP/1.1" + CRLF) + Line(TRANSFER_ENCODING, CHUNKED) + CRLF
  }

  function OddText(): string { OddHead() + [ODD_BYTE] + CRLF + CRLF }

  function OddUpload(): ChunkedMessages.Upload {
    ChunkedMessages.Upload(POST, "/", [], TRANSFER_ENCODING, CHUNKED, Chunks.Chunked([], [ODD_BYTE], [], []))
  }

  lemma LowerTokens(i: nat)
    requires i < |TRANSFER_ENCODING|
    ensures Token(TRANSFER_ENCODING[i]) == TRANSFER_ENCODING[i] != NUL
  {
  }

  lemma EncodingName()
    ensures IsName(TRANSFER_ENCODING) && LowerName(TRANSFER_ENCODING) == TRANSFER_ENCODING
  {
    hide Token;
    forall i | 0 <= i < |TRANSFER_ENCODING|
      ensures LowerName(TRANSFER_ENCODING)[i] == TRANSFER_ENCODING[i] && IsToken(TRANSFER_ENCODING[i])
    {
      LowerNameAt(TRANSFER_ENCODING, i);
      LowerTokens(i);
    }
  }

  lemma OddSize()
    ensures IsHexText([ODD_BYTE]) && HexFrom(0, [ODD_BYTE]) == 0
  {
    assert [ODD_BYTE][..0] == [];
  }

  lemma OddHeadIs()
    ensures ChunkedMessages.HeadOf(OddUpload()) == OddHead() && |OddHead()| < 100
  {
    hide Line;
    NoHeaders("POST" + " " + "/" + " " + ("HTTP/1.1" + CRLF));
    assert |Line(TRANSFER_ENCODING, CHUNKED)| < 50 by { LineLength(TRANSFER_ENCODING, CHUNKED); }
  }

  lemma NoHeaders(a: string)
    ensures HeaderText([]) == [] && a + HeaderText([]) == a
  {
  }

  lemma LineLength(name: string, value: string)
    ensures |Line(name, value)| == |name| + |value| + 4
  {
  }

  lemma OddTextIs()
    ensures ChunkedMessages.UploadText(OddUpload()) == OddText()
  {
    hide OddHead, HeaderText, ChunkedMessages.HeadOf;
    OddHeadIs();
    assert Chunks.ChunkTexts([]) == [];
    assert HeaderText([]) == [] by { NoHeaders([]); }
    OddBody(OddHead(), [ODD_BYTE]);
  }

  lemma OddBody(a: string, b: string)
    ensures a + ([] + (b + [] + CRLF) + [] + [CR] + [LF]) == a + b + CRLF + CRLF
  {
    assert [] + (b + [] + CRLF) + [] + [CR] + [LF] == b + CRLF + CRLF;
  }

  lemma OddIsGood()
    ensures ChunkedMessages.GoodUpload(OddUpload(), MAX_HEADER_SIZE)
  {
    hide IsName, LowerName, IsTarget, HexFrom, IsHexText, OddHead, ChunkedMessages.HeadOf;
    EncodingName();
    OddSize();
    OddHeadIs();
    PathIsTarget("/");
    assert HeaderText([]) == [] by { NoHeaders([]); }
    assert ChunkedMessages.IsChunkedWord(CHUNKED) by { ChunkedWord(); }
  }

  lemma ChunkedWord()
    ensures ChunkedMessages.IsChunkedWord(CHUNKED)
  {
  }

  function OddEvents(): seq<Event> {
    [Notify(MessageBegin), Data(Url, "/"), Data(Field, TRANSFER_ENCODING), Data(Value, CHUNKED),
     Notify(HeadersComplete(ULLONG_MAX, true, false)), Notify(ChunkHeader(0)), Notify(ChunkComplete),
     Notify(MessageComplete)]
  }

  lemma OddEventsAre()
    ensures ChunkedMessages.UploadEvents(OddUpload()) == OddEvents()
  {
    assert HeaderEvents([]) == [] && Chunks.ChunkEvents([]) == [];
  }

  /** The byte 0x80 is taken for the size of the last chunk, and the message is complete. */
  lemma OddSizeIsZero()
    ensures exists s' :: Leads(Init(Kind.Request, false), [], OddText(), s', OddEvents())
  {
    hide Run, Clean, HeadersFit, OddText, OddEvents, OddUpload;
    OddIsGood();
    OddTextIs();
    OddEventsAre();
    var s' := ChunkedMessages.GoesUpload(Init(Kind.Request, false), [], OddUpload(), 0);
    assert [] + OddEvents() == OddEvents();
  }
}
