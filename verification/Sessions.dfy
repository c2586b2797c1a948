/** Many messages on one connection, in any pieces and up to the end of the stream. */
module Sessions {
  import opened Bytes
  import opened Trace
  import opened Machine
  import opened Bytewise
  import opened Invariant
  import opened HttpParser
  import opened Feeding
  import opened Journeys
  import opened Spacing
  import opened HeaderLines
  import opened Lengths
  import opened Fields
  import opened StartLines
  import opened Messages

  function SessionText(ms: seq<Message>): string {
    if ms == [] then [] else SessionText(ms[..|ms| - 1]) + MessageText(ms[|ms| - 1])
  }

  function SessionEvents(ms: seq<Message>): seq<Event> {
    if ms == [] then [] else SessionEvents(ms[..|ms| - 1]) + MessageEvents(ms[|ms| - 1])
  }

  predicate KindOf(kind: Kind, m: Message) {
    match kind case Request => m.head.start.RequestLine? case Response => m.head.start.StatusLine? case Both => false
  }

  /** The connection goes on after the one message, and the head of the next fits behind the trailer part. */
  predicate Follows(m: Message, next: Message, room: nat) {
    GoesOnAfter(m.head) && CountLeft(m) + |HeadText(next.head)| <= room
  }

  /** Messages of one kind that fit and follow each other. */
  ghost predicate GoodSession(kind: Kind, ms: seq<Message>, room: nat)
    decreases |ms|
  {
    !kind.Both? &&
    (ms == [] ||
     var n := |ms| - 1;
     && GoodSession(kind, ms[..n], room) && KindOf(kind, ms[n]) && GoodMessage(ms[n], room)
     && (n > 0 ==> Follows(ms[n - 1], ms[n], room)))
  }

  /** The connection is over, and a last body without an end is complete. */
  function EndEvents(ms: seq<Message>): seq<Event> {
    if ms != [] && ms[|ms| - 1].body.Rest? then [Notify(MessageComplete)] else []
  }

  function StateLeftBy(kind: Kind, ms: seq<Message>): State {
    if ms == [] then Init(kind, false).state else StateLeft(ms[|ms| - 1])
  }

  lemma RestStays(m: Message, room: nat)
    requires GoodMessage(m, room) && GoesOnAfter(m.head)
    ensures !m.body.Rest? && StateLeft(m) == StartOf(m.head.start)
  {
    hide GoodHead, Upgrades, HeadText, SaysWord, MajorOf, MinorOf, FramingOf, Chunks.GoodBody;
  }

  /** Nothing is lost, added or moved from one message into another. */
  lemma {:induction false} GoesSession(kind: Kind, t: seq<Event>, ms: seq<Message>, slack: nat) returns (s': Parser)
    requires slack <= MAX_HEADER_SIZE && GoodSession(kind, ms, MAX_HEADER_SIZE - slack)
    ensures Goes(Init(kind, false), t, SessionText(ms), s', t + SessionEvents(ms), slack)
    ensures s'.errno.OK? && s'.state == StateLeftBy(kind, ms) && s'.kind == kind && !s'.verb.CONNECT?
    ensures s'.nread == if ms == [] then 0 else CountLeft(ms[|ms| - 1])
    decreases |ms|
  {
    hide Goes, GoodMessage, MessageText, MessageEvents, CountLeft, HeadText, GoesOnAfter, StateLeft;
    var s := Init(kind, false);
    if ms == [] {
      s' := s;
      GoesNowhere(s, t, slack);
      assert t + [] == t;
    } else {
      var n := |ms| - 1;
      var s1 := GoesSession(kind, t, ms[..n], slack);
      var u := t + SessionEvents(ms[..n]);
      if n > 0 { RestStays(ms[n - 1], MAX_HEADER_SIZE - slack); }
      HeadFits(ms[n], MAX_HEADER_SIZE - slack);
      s' := GoesMessage(s1, u, ms[n], slack);
      assert t + SessionEvents(ms) == u + MessageEvents(ms[n]);
      GoesOn(s, t, SessionText(ms[..n]), s1, u, MessageText(ms[n]), s', t + SessionEvents(ms), slack);
    }
  }

  lemma HeadFits(m: Message, room: nat)
    requires GoodMessage(m, room)
    ensures |HeadText(m.head)| <= room
  {
    hide HeadText, GoodHead, Upgrades, FramingOf, Chunks.GoodBody;
  }

  lemma StateEnds(kind: Kind, ms: seq<Message>, room: nat)
    requires GoodSession(kind, ms, room)
    ensures var st := StateLeftBy(kind, ms);
            EofExpected(st) && (st.BodyIdentityEof? <==> EndEvents(ms) != [])
            && !st.HeaderField? && !st.HeaderValue?
  {
    hide GoodMessage, GoesOnAfter, HeadText, CountLeft;
  }

  lemma SessionFed(kind: Kind, pieces: seq<string>, ms: seq<Message>, v: Parser, calls: seq<Event>, n: nat)
    requires GoodSession(kind, ms, MAX_HEADER_SIZE) && Concat(pieces) == SessionText(ms)
    requires Fed(v, calls, n, Init(kind, false), [], pieces) && n <= |Concat(pieces)|
    ensures (v.errno.OK? <==> AllFine(Init(kind, false), [], pieces)) && (v.errno.OK? || v.errno.HeaderOverflow?)
    ensures v.errno.OK? ==> v.state == StateLeftBy(kind, ms) && Merge(calls) == SessionEvents(ms)
  {
    hide Goes, Fed, AllFine, Merge, GoodSession, SessionEvents, SessionText, StateLeftBy, Inv, Lead;
    var s' := GoesSession(kind, [], ms, 0);
    assert [] + SessionEvents(ms) == SessionEvents(ms);
    GoesFed(Init(kind, false), [], SessionText(ms), s', SessionEvents(ms), 0, pieces, v, calls, n);
  }

  /** Messages given to a new parser in any non-empty pieces, then the end of the stream: all is delivered and
      complete if and only if all calls are fine, and they are when no header part is longer than half of the limit,
      whatever the pieces. */
  method FeedSession(kind: Kind, pieces: seq<string>, ghost ms: seq<Message>) returns (parser: HttpParser)
    requires forall i :: 0 <= i < |pieces| ==> pieces[i] != []
    requires GoodSession(kind, ms, MAX_HEADER_SIZE) && Concat(pieces) == SessionText(ms)
    ensures fresh(parser) && parser.Valid()
    ensures parser.errno.OK? <==> AllFine(Init(kind, false), [], pieces)
    ensures parser.errno.OK? || parser.errno.HeaderOverflow?
    ensures parser.errno.OK? ==>
              parser.state == StateLeftBy(kind, ms) && Merge(parser.calls) == SessionEvents(ms) + EndEvents(ms)
    ensures forall h: nat | h <= MAX_HEADER_SIZE && GoodSession(kind, ms, h) && Spaced(pieces, h) :: parser.errno.OK?
    ensures GoodSession(kind, ms, MAX_HEADER_SIZE / 2) ==> parser.errno.OK?
  {
    assert Merge([]) == [];
    hide AllFine, Merge, GoodSession, SessionEvents, SessionText, StateLeftBy, Inv, Spaced, EofExpected, Executed, Fed;
    parser := new HttpParser(kind, false);
    var n := Feed(parser, pieces);
    SessionFed(kind, pieces, ms, parser.View(), parser.calls, n);
    forall h: nat | h <= MAX_HEADER_SIZE && GoodSession(kind, ms, h) && Spaced(pieces, h)
      ensures AllFine(Init(kind, false), [], pieces)
    {
      SessionFine(kind, pieces, ms, h);
    }
    HalfIsSpaced(pieces, MAX_HEADER_SIZE / 2);
    CallsEnd(parser.calls, ms);
    StateEnds(kind, ms, MAX_HEADER_SIZE);
    var e := parser.Execute([]);
  }

  lemma SessionFine(kind: Kind, pieces: seq<string>, ms: seq<Message>, h: nat)
    requires forall i :: 0 <= i < |pieces| ==> pieces[i] != []
    requires h <= MAX_HEADER_SIZE && GoodSession(kind, ms, h) && Spaced(pieces, h) && Concat(pieces) == SessionText(ms)
    ensures AllFine(Init(kind, false), [], pieces)
  {
    hide Goes, AllFine, GoodSession, SessionEvents, SessionText, StateLeftBy, Inv, Spaced;
    InvInit(kind, false);
    var r := GoesSession(kind, [], ms, MAX_HEADER_SIZE - h);
    StateEnds(kind, ms, h);
    GoesFine(Init(kind, false), [], SessionText(ms), r, [] + SessionEvents(ms), pieces, h);
  }

  lemma CallsEnd(calls: seq<Event>, ms: seq<Message>)
    ensures calls + [] == calls
    ensures Merge(calls) == SessionEvents(ms) ==>
              Merge(calls + (if EndEvents(ms) != [] then [Notify(MessageComplete)] else []))
              == SessionEvents(ms) + EndEvents(ms)
  {
    hide SessionEvents, Merge;
    assert calls + [] == calls && SessionEvents(ms) + [] == SessionEvents(ms);
    MergeSnoc(calls, Notify(MessageComplete));
  }
}
