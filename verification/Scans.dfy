/** Many bytes at once: what a scan of http_parser_execute does, against the bytes one by one. */
module Scans {
  import opened Bytes
  import opened Trace
  import opened Machine
  import opened Bytewise
  import opened Marks
  import opened Invariant

  lemma MatchWordKeepsNread(s: Parser, word: string, c: char, hit: HeaderState, miss: HeaderState, n: nat)
    ensures MatchWord(s.(nread := n), word, c, hit, miss) == MatchWord(s, word, c, hit, miss).(nread := n)
  {
  }

  lemma FieldCharKeepsNread(s: Parser, ch: char, n: nat)
    ensures FieldChar(s.(nread := n), ch) == FieldChar(s, ch).(nread := n)
  {
    hide MatchWord, Token;
    var c := Token(ch);
    match s.hs
    case MatchingConnection => MatchWordKeepsNread(s, CONNECTION, c, ConnectionName, General, n);
    case MatchingProxyConnection => MatchWordKeepsNread(s, PROXY_CONNECTION, c, ConnectionName, General, n);
    case MatchingContentLength => MatchWordKeepsNread(s, CONTENT_LENGTH, c, ContentLengthName, General, n);
    case MatchingTransferEncoding => MatchWordKeepsNread(s, TRANSFER_ENCODING, c, TransferEncodingName, General, n);
    case MatchingUpgrade => MatchWordKeepsNread(s, UPGRADE, c, UpgradeName, General, n);
    case _ =>
  }

  function WithNread(e: Effect, n: nat): Effect { e.(s := e.s.(nread := n)) }

  lemma ValueCharKeepsNread(s: Parser, ch: char, n: nat)
    ensures ValueChar(s.(nread := n), ch) == WithNread(ValueChar(s, ch), n)
  {
    hide MatchWord, Token, Lower;
    var c := Lower(ch);
    match s.hs
    case MatchingChunked => MatchWordKeepsNread(s, CHUNKED, c, Chunked, General, n);
    case ConnMatchingKeepAlive => MatchWordKeepsNread(s, KEEP_ALIVE, c, ConnKeepAlive, ConnToken, n);
    case ConnMatchingClose => MatchWordKeepsNread(s, CLOSE, c, ConnClose, ConnToken, n);
    case ConnMatchingUpgrade => MatchWordKeepsNread(s, UPGRADE, c, ConnUpgrade, ConnToken, n);
    case _ =>
  }

  lemma FieldNext(o: Outcome, ch: char)
    requires o.s.errno.OK? && o.s.state.HeaderField? && IsToken(ch)
    ensures Next(true, o, ch)
         == Outcome(FieldChar(Counted(o.s), ch), Push(o.trace, Data(Field, [ch])), false, o.n + 1, Running)
  {
    hide FieldChar, IsToken;
    assert Act(Counted(o.s), ch, !o.scan) == Stay(FieldChar(Counted(o.s), ch)) by {
      assert Counted(o.s).state.HeaderField?;
    }
  }

  /** A value byte that is not the end of the line. */
  lemma ValueNext(o: Outcome, ch: char)
    requires o.s.errno.OK? && o.s.state.HeaderValue? && ch != CR && ch != LF
    requires o.scan || o.s.lenient || IsHeaderChar(ch)
    requires ValueChar(Counted(o.s), ch).s.errno.OK?
    ensures Next(true, o, ch)
         == Outcome(ValueChar(Counted(o.s), ch).s, Push(o.trace, Data(Value, [ch])), o.s.hs.General?, o.n + 1, Running)
  {
    hide ValueChar, IsHeaderChar;
    assert Act(Counted(o.s), ch, !o.scan) == ValueChar(Counted(o.s), ch) by {
      assert Counted(o.s).state.HeaderValue?;
    }
  }

  lemma ValueFails(o: Outcome, ch: char)
    requires o.s.errno.OK? && o.s.state.HeaderValue? && ch != CR && ch != LF && !o.scan
    ensures !o.s.lenient && !IsHeaderChar(ch) ==>
              Next(true, o, ch) == Outcome(Counted(o.s).(errno := InvalidHeaderToken), o.trace, o.s.hs.General?, o.n,
                  Failed)
    ensures (o.s.lenient || IsHeaderChar(ch)) && !ValueChar(Counted(o.s), ch).s.errno.OK? ==>
              Next(true, o, ch) == Outcome(ValueChar(Counted(o.s), ch).s, o.trace, o.s.hs.General?, o.n, Failed)
  {
    hide ValueChar, IsHeaderChar;
    assert Counted(o.s).state.HeaderValue?;
    assert Act(Counted(o.s), ch, true)
        == if !o.s.lenient && !IsHeaderChar(ch) then Fail(Counted(o.s), InvalidHeaderToken)
                                          else ValueChar(Counted(o.s), ch);
  }

  function Scanned(o: Outcome, bytes: string): Outcome {
    Outcome(o.s.(nread := o.s.nread + |bytes|), Grow(o.trace, Value, bytes), true, o.n + |bytes|, Running)
  }

  lemma ScannedMore(o: Outcome, a: string, ch: char)
    requires o.s.errno.OK? && Scanning(o.s) && ch != CR && ch != LF
    requires a == [] ==> o.scan || o.s.lenient || IsHeaderChar(ch)
    ensures Next(true, if a == [] then o else Scanned(o, a), ch) == Scanned(o, a + [ch])
  {
    hide Next, IsHeaderChar;
    ValueNext(if a == [] then o else Scanned(o, a), ch);
    GrowTwice(o.trace, Value, a, [ch]);
    assert a + [ch] == if a == [] then [ch] else a + [ch];
  }

  /** The memchr skip: from a byte that was checked to the next CR or LF. */
  lemma {:induction false} ScanJump(s: Parser, t: seq<Event>, data: string, p: nat, q: nat)
    requires p < q <= |data|
    requires var o := Run(true, s, t, data[..p]);
             o.halt.Running? && o.s.errno.OK? && Scanning(o.s) && (o.scan || o.s.lenient || IsHeaderChar(data[p]))
    requires forall i :: p <= i < q ==> data[i] != CR && data[i] != LF
    ensures Run(true, s, t, data[..q]) == Scanned(Run(true, s, t, data[..p]), data[p..q])
    decreases q - p
  {
    hide Next, Run, IsHeaderChar, Grow;
    var o := Run(true, s, t, data[..p]);
    RunSnoc(true, s, t, data, q - 1);
    if p < q - 1 {
      ScanJump(s, t, data, p, q - 1);
    }
    ScannedMore(o, data[p..q - 1], data[q - 1]);
    SliceSnoc(data, p, q - 1);
  }

  /** Body bytes before the last one. */
  predicate InBody(s: Parser, more: nat) {
    s.state.BodyIdentityEof? || ((s.state.ChunkData? || s.state.BodyIdentity?) && s.contentLength > more)
  }

  function BodyLess(s: Parser, n: nat): Parser
    requires InBody(s, n)
  {
    if s.state.BodyIdentityEof? then s else s.(contentLength := s.contentLength - n)
  }

  function Swallowed(o: Outcome, bytes: string): Outcome
    requires InBody(o.s, |bytes|)
  {
    Outcome(BodyLess(o.s, |bytes|), Grow(o.trace, Body, bytes), false, o.n + |bytes|, Running)
  }

  lemma BodyNext(lax: bool, o: Outcome, ch: char)
    requires o.s.errno.OK? && InBody(o.s, 1)
    ensures Next(lax, o, ch) == Outcome(BodyLess(o.s, 1), Push(o.trace, Data(Body, [ch])), false, o.n + 1, Running)
  {
    var e := Act(Counted(o.s), ch, !(lax && o.scan));
    ActIs(o.s, ch, !(lax && o.scan));
    hide Act;
    assert e.acts == [Mark(Body)] && !e.exits && e.s == BodyLess(o.s, 1) by {
      match o.s.state
      case ChunkData => assert Act(o.s, ch, !(lax && o.scan)) == ActChunkData(o.s);
      case BodyIdentity => assert Act(o.s, ch, !(lax && o.scan)) == ActBodyIdentity(o.s);
      case BodyIdentityEof =>
    }
    assert e.acts[1..] == [];
    assert Resume(o.s.state).NoMark?;
    assert Emit(o.trace, NoMark, e.acts, ch, true) == Emit(o.trace, Live(Body), e.acts[1..], ch, true);
  }

  lemma SwallowedMore(lax: bool, o: Outcome, a: string, ch: char)
    requires o.s.errno.OK? && InBody(o.s, |a| + 1)
    ensures Next(lax, if a == [] then o else Swallowed(o, a), ch) == Swallowed(o, a + [ch])
  {
    hide Next;
    BodyNext(lax, if a == [] then o else Swallowed(o, a), ch);
    GrowTwice(o.trace, Body, a, [ch]);
    assert a + [ch] == if a == [] then [ch] else a + [ch];
  }

  lemma {:induction false} BodyJump(lax: bool, s: Parser, t: seq<Event>, data: string, p: nat, q: nat)
    requires p < q <= |data|
    requires var o := Run(lax, s, t, data[..p]); o.halt.Running? && o.s.errno.OK? && InBody(o.s, q - p)
    ensures Run(lax, s, t, data[..q]) == Swallowed(Run(lax, s, t, data[..p]), data[p..q])
    decreases q - p
  {
    hide Next, Run, Grow;
    var o := Run(lax, s, t, data[..p]);
    RunSnoc(lax, s, t, data, q - 1);
    if p < q - 1 {
      BodyJump(lax, s, t, data, p, q - 1);
    }
    SwallowedMore(lax, o, data[p..q - 1], data[q - 1]);
    SliceSnoc(data, p, q - 1);
  }
}
