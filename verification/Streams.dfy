/** Many requests on one connection, printed and chunked ones in any order and any pieces. */
module Streams {
  import opened Bytes
  import opened Trace
  import opened Machine
  import opened Bytewise
  import opened Invariant
  import opened HttpParser
  import opened Feeding
  import opened Journeys
  import opened Spacing
  import opened HeaderLines
  import opened Requests
  import opened RequestLines
  import opened ChunkedMessages

  datatype Sent = Printed(r: Requests.Request) | Uploaded(u: Upload)

  function SentText(e: Sent): string { match e case Printed(r) => Text(r) case Uploaded(u) => UploadText(u) }

  function SentEvents(e: Sent): seq<Event> { match e case Printed(r) => Message(r) case Uploaded(u) => UploadEvents(u) }

  /** The header bytes that a message leaves counted: those of a trailer part. */
  function CountAfter(e: Sent): nat { match e case Printed(_) => 0 case Uploaded(u) => TrailerCount(u) }

  function Head(e: Sent): string { match e case Printed(r) => HeadText(r) case Uploaded(u) => HeadOf(u) }

  ghost predicate GoodSent(e: Sent, room: nat) {
    match e case Printed(r) => Good(r, room) case Uploaded(u) => GoodUpload(u, room)
  }

  /** Each message fits, and each head fits behind the trailer part before it. */
  ghost predicate GoodStream(es: seq<Sent>, room: nat) {
    && (forall i :: 0 <= i < |es| ==> GoodSent(es[i], room))
    && (forall i :: 0 < i < |es| ==> CountAfter(es[i - 1]) + |Head(es[i])| <= room)
  }

  function StreamText(es: seq<Sent>): string {
    if es == [] then [] else StreamText(es[..|es| - 1]) + SentText(es[|es| - 1])
  }

  function StreamEvents(es: seq<Sent>): seq<Event> {
    if es == [] then [] else StreamEvents(es[..|es| - 1]) + SentEvents(es[|es| - 1])
  }

  lemma GoodIn(r: Requests.Request, a: nat, b: nat)
    requires Good(r, a) && |HeadText(r)| <= b
    ensures Good(r, b)
  {
    hide HeadText, IsTarget, GoodHeaders;
  }

  lemma GoesSent(s: Parser, t: seq<Event>, e: Sent, slack: nat) returns (s': Parser)
    requires Ready(s) && slack <= MAX_HEADER_SIZE && GoodSent(e, MAX_HEADER_SIZE - slack) && Room(s, |Head(e)|, slack)
    ensures Goes(s, t, SentText(e), s', t + SentEvents(e), slack) && Ready(s') && s'.nread == CountAfter(e)
  {
    hide Goes, Good, GoodUpload, HeadText, HeadOf, Text, UploadText, Message, UploadEvents;
    match e
    case Printed(r) =>
      GoodIn(r, MAX_HEADER_SIZE - slack, MAX_HEADER_SIZE - slack - s.nread);
      s' := GoesRequest(s, t, r, slack);
    case Uploaded(u) =>
      s' := GoesUpload(s, t, u, slack);
  }

  /** Nothing is lost, added or moved from one message into another. */
  lemma {:induction false} GoesStream(s: Parser, t: seq<Event>, es: seq<Sent>, slack: nat) returns (s': Parser)
    requires Ready(s) && s.nread == 0 && slack <= MAX_HEADER_SIZE && GoodStream(es, MAX_HEADER_SIZE - slack)
    ensures Goes(s, t, StreamText(es), s', t + StreamEvents(es), slack) && Ready(s')
    ensures s'.nread == if es == [] then 0 else CountAfter(es[|es| - 1])
    decreases |es|
  {
    hide Goes, GoodSent, SentText, SentEvents, CountAfter, Head;
    if es == [] {
      s' := s;
      GoesNowhere(s, t, slack);
      assert t + [] == t;
    } else {
      var n := |es| - 1;
      var s1 := GoesStream(s, t, es[..n], slack);
      var u := t + StreamEvents(es[..n]);
      HeadFits(es[n], MAX_HEADER_SIZE - slack);
      s' := GoesSent(s1, u, es[n], slack);
      assert t + StreamEvents(es) == u + SentEvents(es[n]);
      GoesOn(s, t, StreamText(es[..n]), s1, u, SentText(es[n]), s', t + StreamEvents(es), slack);
    }
  }

  lemma HeadFits(e: Sent, room: nat)
    requires GoodSent(e, room)
    ensures |Head(e)| <= room
  {
    hide HeadText, HeadOf, IsTarget, GoodHeaders;
  }

  /** A stream of requests given to a new parser in any non-empty pieces: it is delivered if and only if all calls are
      fine, and they are when no header part is longer than half of the limit, whatever the pieces. */
  method FeedStream(pieces: seq<string>, ghost es: seq<Sent>) returns (parser: HttpParser)
    requires forall i :: 0 <= i < |pieces| ==> pieces[i] != []
    requires GoodStream(es, MAX_HEADER_SIZE) && Concat(pieces) == StreamText(es)
    ensures fresh(parser) && parser.Valid()
    ensures parser.errno.OK? <==> AllFine(Init(Kind.Request, false), [], pieces)
    ensures parser.errno.OK? || parser.errno.HeaderOverflow?
    ensures parser.errno.OK? ==> parser.state.StartReq? && Merge(parser.calls) == StreamEvents(es)
    ensures forall h: nat | h <= MAX_HEADER_SIZE && GoodStream(es, h) && Spaced(pieces, h) :: parser.errno.OK?
    ensures GoodStream(es, MAX_HEADER_SIZE / 2) ==> parser.errno.OK?
  {
    hide Goes, Fed, AllFine, Merge, GoodStream, StreamEvents, StreamText, Inv, Spaced;
    parser := new HttpParser(Kind.Request, false);
    ghost var s := parser.View();
    ghost var s' := GoesStream(s, [], es, 0);
    assert [] + StreamEvents(es) == StreamEvents(es);
    assert Merge([]) == [] by { NoCalls(); }
    var n := Feed(parser, pieces);
    GoesFed(s, [], StreamText(es), s', StreamEvents(es), 0, pieces, parser.View(), parser.calls, n);
    forall h: nat | h <= MAX_HEADER_SIZE && GoodStream(es, h) && Spaced(pieces, h)
      ensures AllFine(s, [], pieces)
    {
      var r := GoesStream(s, [], es, MAX_HEADER_SIZE - h);
      GoesFine(s, [], StreamText(es), r, StreamEvents(es), pieces, h);
    }
    HalfIsSpaced(pieces, MAX_HEADER_SIZE / 2);
  }
}
