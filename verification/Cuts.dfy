/** Where a stream is cut shows when its headers come to the limit, or a value holds a control byte. */
module Cuts {
  import opened Bytes
  import opened Trace
  import opened Machine
  import opened Bytewise
  import opened Marks
  import opened Invariant
  import opened Scans
  import opened Limits
  import opened HttpParser
  import opened Splitting
  import opened Feeding
  import opened Journeys
  import opened HeaderNames
  import opened HeaderLines
  import opened RequestLines
  import opened Requests
  import opened Spacing
  import opened HeadCuts
  import Wrk

  // ----- a printed request in any pieces

  /** Within the head every byte is counted. */
  lemma HeadCount(s: Parser, r: Request, c: nat)
    requires Before(s, r) && c < |HeadText(r)|
    ensures c <= |Text(r)|
    ensures var o := Run(false, s, [], Text(r)[..c]); o.halt.Running? && o.n == c && o.s.nread == c
    ensures c == |HeadText(r)| - 1 ==> Run(false, s, [], Text(r)[..c]).s.state.HeadersAlmostDone?
  {
    hide Run, Goes, HeadText, Text, Before;
    var head := HeadText(r)[..|HeadText(r)| - 1];
    TextIs(r);
    var s', t' := GoesAlmostHead(s, r);
    GoesState(s, [], head, s', t', 0);
    assert head[..|head|] == head && head[..0] == [] && head[..c] == Text(r)[..c];
    CountGrows(false, s, [], head, c, |head|);
    CountGrows(false, s, [], head, 0, c);
    RunEmpty(s, []);
    RunCount(false, s, [], head[..c]);
    assert s.nread == 0 by { BeforeZero(s, r); }
  }

  lemma BeforeZero(s: Parser, r: Request)
    requires Before(s, r)
    ensures s.nread == 0 && s.errno.OK? && Inv(s) && Ready(s) && Good(r, MAX_HEADER_SIZE)
  {
    hide Good, Inv;
  }

  lemma GoesHead(s: Parser, r: Request) returns (s': Parser, t': seq<Event>)
    requires Before(s, r)
    ensures Goes(s, [], HeadText(r), s', t', 0) && s'.nread == 0
    ensures if BodyText(r) == [] then s'.state.StartReq?
            else s'.state.BodyIdentity? && s'.contentLength == |BodyText(r)|
  {
    hide Goes, FirstLineOf, HeaderText, LineStart, HeadText, Before, Settled, Reading, Seen, NoOpenField;
    AllHeaders(r);
    BeforeGood(s, r);
    var s1, t1 := AfterFirstLine(s, r);
    assert |HeadText(r)| <= MAX_HEADER_SIZE;
    var s2, t2 := GoesHeaders(s1, t1, r.headers, r.body, 0);
    SeenIff(r);
    GoesOn(s, [], FirstLineOf(r), s1, t1, HeaderText(r.headers), s2, t2, 0);
    GoesEmptyLine(s2, t2, r, 0);
    if BodyText(r) == [] {
      s' := s2.(state := StartReq, nread := 0, upgrade := false);
      t' := Settled(s2, t2) + [Notify(HeadersComplete(BodyLength(r), false, false))] + [Notify(MessageComplete)];
    } else {
      s' := s2.(state := BodyIdentity, nread := 0, upgrade := false);
      t' := Settled(s2, t2) + [Notify(HeadersComplete(BodyLength(r), false, false))];
      ReadingIsPlain(s2, r.body);
    }
    GoesOn(s, [], FirstLineOf(r) + HeaderText(r.headers), s2, t2, CRLF, s', t', 0);
  }

  /** Behind the head no byte is counted. */
  lemma PastHead(s: Parser, r: Request, c: nat)
    requires Before(s, r) && |HeadText(r)| <= c <= |Text(r)|
    ensures var o := Run(false, s, [], Text(r)[..c]);
            o.halt.Running? && o.n == c && o.s.nread == 0 && !IsScan(o.s.state)
            && (c < |Text(r)| ==> !ParsingHeader(o.s.state))
  {
    hide Run, Goes, HeadText, Before, Good;
    var n := c - |HeadText(r)|;
    if c == |Text(r)| {
      BeforeZero(s, r);
      var s' := GoesRequest(s, [], r, 0);
      GoesState(s, [], Text(r), s', [] + Message(r), 0);
      assert Text(r)[..c] == Text(r);
    } else {
      var s1, t1 := GoesHead(s, r);
      var b := BodyText(r)[..n];
      assert Text(r)[..c] == HeadText(r) + b;
      if n == 0 {
        assert HeadText(r) + b == HeadText(r);
        GoesState(s, [], HeadText(r), s1, t1, 0);
      } else {
        BeforeZero(s, r);
        GoesOk(s, [], HeadText(r), s1, t1);
        GoesBody(s1, t1, b, 0);
        GoesOn(s, [], HeadText(r), s1, t1, b, BodyLess(s1, n), Push(t1, Data(Body, b)), 0);
        GoesState(s, [], HeadText(r) + b, BodyLess(s1, n), Push(t1, Data(Body, b)), 0);
      }
    }
  }

  lemma GoesOk(s: Parser, t: seq<Event>, data: string, s': Parser, t': seq<Event>)
    requires Goes(s, t, data, s', t', 0) && s.errno.OK?
    ensures s'.errno.OK?
  {
    hide Run, Clean, HeadersFit;
    RunOk(false, s, t, data);
  }

  lemma RunsOn(s: Parser, r: Request, c: nat)
    requires Before(s, r) && c <= |Text(r)|
    ensures Run(false, s, [], Text(r)[..c]).halt.Running? && Run(false, s, [], Text(r)[..c]).n == c
  {
    hide Run, HeadText, Text, Before;
    if c < |HeadText(r)| { HeadCount(s, r, c); } else { PastHead(s, r, c); }
  }

  lemma ConcatIs(pieces: seq<string>, i: nat)
    requires i <= |pieces|
    ensures |Concat(pieces[..i])| <= |Concat(pieces)|
    ensures Concat(pieces[..i]) == Concat(pieces)[..|Concat(pieces[..i])|]
  {
    hide Concat;
    ConcatFrom(pieces, i, |pieces|);
    assert pieces[..|pieces|] == pieces;
  }

  /** The lead is the number of the deep cuts, as long as the head lasts. */
  lemma {:induction false} HeadLead(s: Parser, r: Request, pieces: seq<string>, i: nat)
    requires Before(s, r) && Concat(pieces) == Text(r) && i <= |pieces|
    requires forall k :: 0 <= k < |pieces| ==> pieces[k] != []
    ensures Lead(s, [], pieces[..i])
         == if |Concat(pieces[..i])| < |HeadText(r)| then DeepCuts(r, pieces[..i]) else 0
    decreases i
  {
    hide Run, HeadText, Text, Concat, Deep, Lead, Before, ScannedEnd;
    if i == 0 {
      assert pieces[..0] == [];
      NoLead(s, []);
      NoCuts(r, s);
    } else {
      var n := i - 1;
      HeadLead(s, r, pieces, n);
      NextLead(s, [], pieces, n);
      ConcatAt(pieces, n);
      ConcatIs(pieces, n);
      ConcatIs(pieces, i);
      var c, c' := |Concat(pieces[..n])|, |Concat(pieces[..i])|;
      assert pieces[..i][..n] == pieces[..n];
      if c < |HeadText(r)| { HeadCount(s, r, c); } else { PastHead(s, r, c); }
      if c' < |HeadText(r)| {
        HeadCount(s, r, c');
        HeadScans(s, r, c');
      } else {
        PastHead(s, r, c');
        EndsUnscanned(s, [], Text(r)[..c']);
      }
    }
  }

  lemma NoCuts(r: Request, s: Parser)
    requires Before(s, r)
    ensures DeepCuts(r, []) == 0 && |Concat([])| == 0 < |HeadText(r)|
  {
    hide Before;
    TextIs(r);
  }

  lemma {:induction false} CutsGrow(r: Request, pieces: seq<string>, i: nat)
    requires i <= |pieces|
    ensures DeepCuts(r, pieces[..i]) <= DeepCuts(r, pieces)
    decreases |pieces|
  {
    hide Deep, Concat;
    if i == |pieces| {
      assert pieces[..i] == pieces;
    } else {
      var init := pieces[..|pieces| - 1];
      assert init[..i] == pieces[..i];
      CutsGrow(r, init, i);
    }
  }

  /** Pieces that end behind the head are no deep cuts. */
  lemma {:induction false} CutsEnd(r: Request, pieces: seq<string>, i: nat)
    requires i <= |pieces| && forall j :: i < j <= |pieces| ==> |Concat(pieces[..j])| >= |HeadText(r)|
    ensures DeepCuts(r, pieces[..i]) == DeepCuts(r, pieces)
    decreases |pieces|
  {
    hide Deep, Concat, HeadText;
    if i == |pieces| {
      assert pieces[..i] == pieces;
    } else {
      var n := |pieces| - 1;
      var init := pieces[..n];
      assert forall j :: 0 <= j <= n ==> init[..j] == pieces[..j];
      CutsEnd(r, init, i);
      assert pieces[..n + 1] == pieces;
      if Deep(r, |Concat(pieces)|) { DeepInside(r, |Concat(pieces)|); }
    }
  }

  /** The piece that holds byte `q`. */
  lemma {:induction false} WhichPiece(pieces: seq<string>, q: nat, n: nat) returns (i: nat)
    requires n <= |pieces| && q < |Concat(pieces[..n])|
    ensures i < n && |Concat(pieces[..i])| <= q < |Concat(pieces[..i + 1])|
    decreases n
  {
    hide Concat;
    if n == 0 {
      assert pieces[..0] == [];
      assert Concat([]) == [] by { ConcatNone(); }
      assert false;
    } else if q < |Concat(pieces[..n - 1])| {
      i := WhichPiece(pieces, q, n - 1);
    } else {
      i := n - 1;
    }
  }

  lemma ConcatNone()
    ensures Concat([]) == []
  {
  }

  lemma GoesClean(s: Parser, r: Request) returns (s': Parser)
    requires Before(s, r)
    ensures Goes(s, [], Text(r), s', Message(r), 0) && Clean(s, [], Text(r)) && Ready(s')
  {
    hide Run, Before, Good, Text, Message;
    BeforeZero(s, r);
    s' := GoesRequest(s, [], r, 0);
    assert [] + Message(r) == Message(r);
  }

  /** Byte `c` of the text has room for the lead. */
  lemma HeadByteFits(s: Parser, r: Request, c: nat, o: Parser, q: nat, lead: nat)
    requires Before(s, r) && c < |Text(r)| && |HeadText(r)| + lead <= MAX_HEADER_SIZE
    ensures var x := Run(false, s, [], Text(r)[..c]);
            ParsingHeader(x.s.state) ==> x.s.nread + Kept(o, x, q, lead) < MAX_HEADER_SIZE
  {
    hide Run, HeadText, Text, Before, ParsingHeader;
    if c < |HeadText(r)| { HeadCount(s, r, c); } else { PastHead(s, r, c); }
  }

  /** The count and the lead where piece `i` ends in a scan. */
  lemma HeadEndFits(s: Parser, r: Request, pieces: seq<string>, i: nat, o: Parser)
    requires Before(s, r) && Concat(pieces) == Text(r) && i < |pieces|
    requires var c := |Concat(pieces[..i + 1])|;
             c <= |Text(r)| && ScannedEnd(s, [], Text(r)[..c])
    requires DeepCuts(r, pieces[..i]) + 1 + |HeadText(r)| <= MAX_HEADER_SIZE
    ensures var x := Run(false, s, [], Text(r)[..|Concat(pieces[..i + 1])|]);
            x.s.nread + Kept(o, x, |pieces[i]|, DeepCuts(r, pieces[..i])) < MAX_HEADER_SIZE
  {
    hide Run, HeadText, Text, Concat, DeepCuts, Before, ScannedEnd;
    var c := |Concat(pieces[..i + 1])|;
    if c < |HeadText(r)| {
      HeadCount(s, r, c);
    } else {
      PastHead(s, r, c);
      EndsUnscanned(s, [], Text(r)[..c]);
    }
  }

  lemma DeepEnd(s: Parser, r: Request, pieces: seq<string>, i: nat)
    requires Before(s, r) && Concat(pieces) == Text(r) && i < |pieces|
    requires |Concat(pieces[..i + 1])| <= |Text(r)| && ScannedEnd(s, [], Text(r)[..|Concat(pieces[..i + 1])|])
    ensures DeepCuts(r, pieces[..i + 1]) == DeepCuts(r, pieces[..i]) + 1
  {
    hide Run, HeadText, Text, Concat, Before, ScannedEnd, Deep;
    var c := |Concat(pieces[..i + 1])|;
    assert pieces[..i + 1][..i] == pieces[..i];
    if c < |HeadText(r)| {
      HeadScans(s, r, c);
    } else {
      PastHead(s, r, c);
      EndsUnscanned(s, [], Text(r)[..c]);
    }
  }

  lemma LessLead(o: Parser, x: Outcome, q: nat, a: nat, b: nat)
    requires a <= b
    ensures Kept(o, x, q, a) <= Kept(o, x, q, b)
  {
  }

  lemma HeadCallFine(s: Parser, r: Request, pieces: seq<string>, i: nat)
    requires Before(s, r) && Concat(pieces) == Text(r) && i < |pieces|
    requires forall k :: 0 <= k < |pieces| ==> pieces[k] != []
    requires |HeadText(r)| + DeepCuts(r, pieces[..i + 1]) <= MAX_HEADER_SIZE
    ensures CallFine(s, [], pieces, i)
  {
    hide Run, HeadText, Text, Concat, Deep, Lead, Before, ScannedEnd, CallFine, Clean, Goes, DeepCuts, ParsingHeader,
      Kept;
    var done, piece, lead := Concat(pieces[..i]), pieces[i], Lead(s, [], pieces[..i]);
    BeforeZero(s, r);
    var s' := GoesClean(s, r);
    ConcatAt(pieces, i);
    ConcatIs(pieces, i);
    ConcatIs(pieces, i + 1);
    HeadLead(s, r, pieces, i);
    assert pieces[..i + 1][..i] == pieces[..i];
    CutsGrow(r, pieces[..i + 1], i);
    RunsOn(s, r, |done|);
    var o := Run(false, s, [], done);
    forall q | 0 <= q < |piece| && ParsingHeader(Run(false, s, [], done + piece[..q]).s.state)
      ensures var x := Run(false, s, [], done + piece[..q]);
              x.s.nread + Kept(o.s, x, q, lead) < MAX_HEADER_SIZE
    {
      assert done + piece[..q] == Text(r)[..|done| + q];
      HeadByteFits(s, r, |done| + q, o.s, q, lead);
    }
    if ScannedEnd(s, [], done + piece) {
      DeepEnd(s, r, pieces, i);
      HeadEndFits(s, r, pieces, i, o.s);
      LessLead(o.s, Run(false, s, [], done + piece), |piece|, lead, DeepCuts(r, pieces[..i]));
    }
    CallFits(s, [], pieces, i);
  }

  /** With more deep cuts than the limit has room for, the last byte of the head is over the limit. */
  lemma HeadOver(s: Parser, r: Request, pieces: seq<string>)
    requires Before(s, r) && Concat(pieces) == Text(r)
    requires forall k :: 0 <= k < |pieces| ==> pieces[k] != []
    requires |HeadText(r)| + DeepCuts(r, pieces) > MAX_HEADER_SIZE
    ensures !AllFine(s, [], pieces)
  {
    hide Run, HeadText, Text, Concat, Deep, Lead, Before, Clean, Goes, DeepCuts, Over;
    BeforeZero(s, r);
    TextIs(r);
    assert pieces[..|pieces|] == pieces;
    var i := WhichPiece(pieces, |HeadText(r)| - 1, |pieces|);
    forall j | i < j <= |pieces|
      ensures |Concat(pieces[..j])| >= |HeadText(r)|
    {
      Longer(pieces, i + 1, j);
    }
    CutsEnd(r, pieces, i);
    HeadLead(s, r, pieces, i);
    LastByteOver(s, r, pieces, i);
  }

  lemma LastByteOver(s: Parser, r: Request, pieces: seq<string>, i: nat)
    requires Before(s, r) && Concat(pieces) == Text(r) && i < |pieces|
    requires |Concat(pieces[..i])| < |HeadText(r)| <= |Concat(pieces[..i + 1])|
    requires |HeadText(r)| + Lead(s, [], pieces[..i]) > MAX_HEADER_SIZE
    ensures !CallFine(s, [], pieces, i)
  {
    hide Run, HeadText, Text, Concat, Lead, Before, Clean, Goes, Over, Jumped, Inv, LastScanned;
    var done, piece, rest := Concat(pieces[..i]), pieces[i], Concat(pieces[i + 1..]);
    var o, lead := Run(false, s, [], done), Lead(s, [], pieces[..i]);
    var v := o.s.(nread := o.s.nread + lead);
    var q := |HeadText(r)| - 1 - |done|;
    ConcatAt(pieces, i);
    ConcatIs(pieces, i);
    BeforeZero(s, r);
    var s' := GoesClean(s, r);
    HeadCount(s, r, |done|);
    HeadCount(s, r, |HeadText(r)| - 1);
    LeadSpan(s, [], pieces[..i]);
    assert done + piece[..q] == Text(r)[..|HeadText(r)| - 1];
    forall j: nat
      ensures !Jumped(v, o.trace, piece, j)
    {
      CleanPiece(s, [], done, piece, rest, v, lead, j);
    }
    RunOk(false, s, [], done);
    LaxFollows(v, o.trace, piece, q);
    PieceRun(s, [], done, piece, q, v, lead);
    assert OverAt(v, o.trace, piece, q);
    OverAtTop(v, o.trace, piece, q);
  }

  /** A printed request in any non-empty pieces is delivered if and only if its head and the deep cuts together stay
      within the limit. */
  lemma HeadFine(s: Parser, r: Request, pieces: seq<string>)
    requires Before(s, r) && Concat(pieces) == Text(r) && forall k :: 0 <= k < |pieces| ==> pieces[k] != []
    ensures AllFine(s, [], pieces) <==> |HeadText(r)| + DeepCuts(r, pieces) <= MAX_HEADER_SIZE
  {
    hide HeadText, Text, Concat, DeepCuts, Before, CallFine;
    if |HeadText(r)| + DeepCuts(r, pieces) <= MAX_HEADER_SIZE {
      forall i | 0 <= i < |pieces|
        ensures CallFine(s, [], pieces, i)
      {
        CutsGrow(r, pieces, i + 1);
        HeadCallFine(s, r, pieces, i);
      }
    } else {
      HeadOver(s, r, pieces);
    }
  }

  lemma NewBefore(r: Request)
    requires Good(r, MAX_HEADER_SIZE)
    ensures Before(Init(Kind.Request, false), r)
  {
    hide Good;
    InvInit(Kind.Request, false);
  }

  method FeedRequest(pieces: seq<string>, ghost r: Request) returns (parser: HttpParser)
    requires forall i :: 0 <= i < |pieces| ==> pieces[i] != []
    requires Good(r, MAX_HEADER_SIZE) && Concat(pieces) == Text(r)
    ensures fresh(parser) && parser.Valid()
    ensures parser.errno.OK? <==> |HeadText(r)| + DeepCuts(r, pieces) <= MAX_HEADER_SIZE
    ensures parser.errno.OK? || parser.errno.HeaderOverflow?
    ensures parser.errno.OK? ==> parser.state.StartReq? && Merge(parser.calls) == Message(r)
  {
    hide Goes, Fed, AllFine, Merge, Good, Text, HeadText, Inv, Before, Message;
    parser := new HttpParser(Kind.Request, false);
    ghost var s := parser.View();
    NewBefore(r);
    ghost var s' := GoesClean(s, r);
    assert Merge([]) == [] by { Wrk.MergeNone(); }
    var n := Feed(parser, pieces);
    GoesFed(s, [], Text(r), s', Message(r), 0, pieces, parser.View(), parser.calls, n);
    HeadFine(s, r, pieces);
  }

  // ----- two pieces

  lemma TwoPieces(a: string, b: string)
    ensures Concat([a, b]) == a + b && Concat([a, b][..1]) == a && Concat([a, b][..0]) == []
    ensures [a, b][..1][..0] == [] && [a, b][..2] == [a, b]
  {
    ConcatOne(a);
    assert [a, b][..1] == [a];
    assert [a] + [b] == [a, b];
    ConcatAppend([a], [b]);
    ConcatOne(b);
  }

  lemma TwoCuts(r: Request, a: string, b: string)
    requires Text(r) == a + b
    ensures DeepCuts(r, [a, b]) == DeepCuts(r, [a, b][..1]) == if Deep(r, |a|) then 1 else 0
  {
    hide Deep, HeadText;
    TwoPieces(a, b);
    TextIs(r);
    assert DeepCuts(r, []) == 0;
    if Deep(r, |a + b|) { DeepInside(r, |a + b|); }
  }

  /** A request whose head has exactly as many bytes as the limit, cut into two calls anywhere in its head: the second
      call is stopped by the header limit if and only if the cut is deep. */
  lemma CutOverflows(r: Request, i: nat, v: Parser, calls: seq<Event>, n: nat, v': Parser, calls': seq<Event>, n': nat)
    requires Good(r, MAX_HEADER_SIZE) && |HeadText(r)| == MAX_HEADER_SIZE && 0 < i < MAX_HEADER_SIZE
    requires Executed(v, calls, n, Init(Kind.Request, false), [], Text(r)[..i])
    requires Executed(v', calls', n', v, Merge(calls), Text(r)[i..])
    ensures v.errno.OK? && n == i
    ensures v'.errno.HeaderOverflow? <==> Deep(r, i)
  {
    hide Run, Merge, Inv, Good, HeadText, Text, Deep, DeepCuts, Executed, Before, Lead, Fine, Goes, Reached, LeadAfter,
      Short;
    var s := Init(Kind.Request, false);
    TextIs(r);
    var a, b := Text(r)[..i], Text(r)[i..];
    assert a + b == Text(r);
    TwoPieces(a, b);
    TwoCuts(r, a, b);
    NewBefore(r);
    HeadFine(s, r, [a, b]);
    FirstFine(s, r, a, b);
    RunEmpty(s, []);
    NoLead(s, []);
    assert s.(nread := s.nread + 0) == s;
    BeforeZero(s, r);
    assert Reached(s, Run(false, s, [], []), [], 0) by { NoneReached(s); }
    PieceDone(s, [], [], a, s, 0, v, calls, n);
    assert [] + a == a;
    RunsOn(s, r, i);
    NextLead(s, [], [a, b], 0);
    SecondCall(s, r, a, b, v, calls, v', calls', n');
  }

  lemma NoneReached(s: Parser)
    ensures Reached(s, Run(false, s, [], []), [], 0)
  {
  }

  lemma FirstFine(s: Parser, r: Request, a: string, b: string)
    requires Before(s, r) && a != [] && b != [] && Text(r) == a + b && |a| < |HeadText(r)|
    ensures CallFine(s, [], [a, b], 0) && Fine(s, [], a)
  {
    hide Run, HeadText, Text, Lead, Before, ScannedEnd, Clean, Fine, Good;
    TwoPieces(a, b);
    BeforeZero(s, r);
    var s' := GoesClean(s, r);
    NoLead(s, []);
    RunEmpty(s, []);
    assert [] + a == a;
    assert a == Text(r)[..|a|];
    assert |HeadText(r)| <= MAX_HEADER_SIZE by { BeforeGood(s, r); }
    forall q | 0 <= q <= |a|
      ensures Run(false, s, [], [] + a[..q]).s.nread < MAX_HEADER_SIZE
    {
      assert [] + a[..q] == Text(r)[..q];
      HeadCount(s, r, q);
    }
    assert a[..|a|] == a;
    CallFits(s, [], [a, b], 0);
    assert s.(nread := s.nread + 0) == s;
  }

  lemma SecondCall(s: Parser, r: Request, a: string, b: string, v: Parser, calls: seq<Event>,
                   v': Parser, calls': seq<Event>, n': nat)
    requires Before(s, r) && a != [] && b != [] && Text(r) == a + b && |a| < |HeadText(r)|
    requires var o := Run(false, s, [], a);
             Reached(v, o, a, Lead(s, [], [a, b][..1])) && Merge(calls) == o.trace && v.errno.OK?
    requires Executed(v', calls', n', v, Merge(calls), b)
    requires CallFine(s, [], [a, b], 0)
    ensures v'.errno.HeaderOverflow? <==> !AllFine(s, [], [a, b])
  {
    hide Run, Merge, Inv, HeadText, Text, Executed, Before, Lead, Goes, LeadAfter, Short, Over, Jumped, Clean, Fine,
      Reached, Deep, ScannedEnd;
    TwoPieces(a, b);
    var u, lead := Run(false, s, [], a).trace, Lead(s, [], [a, b][..1]);
    var s' := GoesClean(s, r);
    BeforeZero(s, r);
    assert a + b + [] == Text(r);
    RunInv(false, s, [], a);
    assert a == Text(r)[..|a|];
    HeadCount(s, r, |a|);
    ReachedInv(v, Run(false, s, [], a), a, lead);
    ReachedIs(v, Run(false, s, [], a), a, lead);
    assert AllFine(s, [], [a, b]) <==> Fine(v, u, b) by { SecondFine(s, a, b); }
    if Fine(v, u, b) {
      PieceDone(s, [], a, b, v, lead, v', calls', n');
      NeverOver(false, s, [], a + b);
    } else {
      CleanSpoils(s, a, b, v, lead);
      Overflows(v', calls', n', v, u, b);
    }
  }

  lemma SecondFine(s: Parser, a: string, b: string)
    requires CallFine(s, [], [a, b], 0) && Run(false, s, [], a).halt.Running?
    ensures var o, lead := Run(false, s, [], a), Lead(s, [], [a, b][..1]);
            AllFine(s, [], [a, b]) <==> Fine(o.s.(nread := o.s.nread + lead), o.trace, b)
  {
    hide Run, Lead, Fine;
    TwoPieces(a, b);
    assert AllFine(s, [], [a, b]) <==> CallFine(s, [], [a, b], 1);
  }

  lemma CleanSpoils(s: Parser, a: string, b: string, v: Parser, lead: nat)
    requires Clean(s, [], a + b) && Reached(v, Run(false, s, [], a), a, lead)
    requires !Fine(v, Run(false, s, [], a).trace, b)
    ensures Over(v, Run(false, s, [], a).trace, b)
  {
    hide Run, Over, Jumped, Clean, Reached;
    assert a + b + [] == a + b;
    forall j: nat
      ensures !Jumped(v, Run(false, s, [], a).trace, b, j)
    {
      CleanPiece(s, [], a, b, [], v, lead, j);
    }
  }

  lemma ReachedInv(v: Parser, o: Outcome, done: string, lead: nat)
    requires Reached(v, o, done, lead) && Inv(o.s) && o.s.nread > 0
    ensures Inv(v)
  {
    if o.s.state.ChunkSizeStart? { SizeUncounted(o.s); }
    hide Inv;
    InvNread(o.s, v.nread);
  }

  lemma SizeUncounted(s: Parser)
    requires Inv(s) && s.state.ChunkSizeStart?
    ensures s.nread == 0
  {
    hide FieldState, ValueState, MethodString;
  }

  lemma Overflows(v': Parser, calls': seq<Event>, n': nat, v: Parser, t: seq<Event>, b: string)
    requires Executed(v', calls', n', v, t, b) && Over(v, t, b)
    ensures v'.errno.HeaderOverflow?
  {
    hide Run, Over, LastScanned, Short;
  }

  // ----- such a request, and such a cut

  function Bs(n: nat): string { seq(n, _ => 'b') }

  function LongRequest(): Request { Request.Request(GET, "/", [("A", Bs(MAX_HEADER_SIZE - 23))], NoBody) }

  function FirstLine(): string { "GET" + " " + "/" + " " + ("HTTP/1.1" + CRLF) }

  lemma LongHead()
    ensures HeadText(LongRequest()) == FirstLine() + Line("A", Bs(MAX_HEADER_SIZE - 23)) + CRLF
    ensures |HeadText(LongRequest())| == MAX_HEADER_SIZE && |FirstLine()| == 16
  {
    hide Bs;
    var h := ("A", Bs(MAX_HEADER_SIZE - 23));
    assert |h.1| == MAX_HEADER_SIZE - 23 by { ManyBs(MAX_HEADER_SIZE - 23); }
    assert HeaderText([h]) == Line(h.0, h.1) by {
      assert [h][..0] == [];
      assert HeaderText([]) == [];
      assert [] + Line(h.0, h.1) == Line(h.0, h.1);
    }
  }

  lemma ManyBs(n: nat)
    ensures |Bs(n)| == n && IsValue(Bs(n)) && !IsBlank('b')
    ensures Bs(n)[..if n < 2 then n else 2] == Bs(if n < 2 then n else 2)
    ensures n >= 1 ==> Bs(n)[..1] == Bs(1)
  {
  }

  lemma PlainA()
    ensures IsPlainName("A")
  {
    hide Token;
    assert Token('A') == 'a' by { TokenA(); }
    assert "A"[..0] == [];
    assert LowerName("A") == ['a'];
    assert |CONNECTION| > 1 && |PROXY_CONNECTION| > 1 && |CONTENT_LENGTH| > 1 && |TRANSFER_ENCODING| > 1
        && |UPGRADE| > 1;
  }

  lemma TokenA()
    ensures Token('A') == 'a'
  {
  }

  lemma LongIsGood()
    ensures Good(LongRequest(), MAX_HEADER_SIZE)
  {
    hide HeadText, IsPlainName, IsValue, IsTarget, Bs;
    LongHead();
    PlainA();
    ManyBs(MAX_HEADER_SIZE - 23);
    PathIsTarget("/");
  }

  /** After the first two bytes of the value, or one of them. */
  lemma InValue(k: nat) returns (s': Parser, t': seq<Event>)
    requires 1 <= k <= 2
    ensures Goes(Init(Kind.Request, false), [], FirstLine() + "A: " + Bs(k), s', t', 0) && Scanning(s') && !s'.lenient
  {
    hide Goes, Bs, IsPlainName, IsValue, IsTarget, NameState, LineStart, Plain, Push, Settled, IsName;
    var s, r := Init(Kind.Request, false), LongRequest();
    var s1, t1 := AfterLine(s, r), [Notify(MessageBegin), Data(Url, "/")];
    PathIsTarget("/");
    GoesRequestLine(s, [], r, 0);
    assert [] + t1 == t1;
    ReadingStarts(s, r);
    ReadingStartsLine(s1, false, r.body);
    PlainA();
    PlainIsName("A");
    GoesPrefix(s1, t1, "A", 0);
    HeaderLines.PlainState(s1.(state := HeaderField), "A");
    var s2 := NameState(s1.(state := HeaderField), "A").(state := HeaderValueDiscardWs, nread := s1.nread + |"A"| + 2);
    assert "A" + ": " == "A: ";
    var t2 := Push(Settled(s1, t1), Data(Field, "A"));
    GoesOn(s, [], FirstLine(), s1, t1, "A: ", s2, t2, 0);
    ManyBs(k);
    NameOk(s1.(state := HeaderField), "A");
    assert Bs(k)[0] == 'b' by { FirstB(k); }
    GoesValue(s2, t2, Bs(k), 0);
    s', t' := s2.(state := HeaderValue, index := 0, hs := General, nread := s2.nread + k), Push(t2, Data(Value, Bs(k)));
    GoesOn(s, [], FirstLine() + "A: ", s2, t2, Bs(k), s', t', 0);
  }

  lemma FirstB(k: nat)
    requires k > 0
    ensures Bs(k)[0] == 'b'
  {
  }

  /** One call takes this request and completes a message; two calls that are cut after 21 bytes, inside the value, do
      not. */
  lemma LongCut(v: Parser, calls: seq<Event>, n: nat, v': Parser, calls': seq<Event>, n': nat,
                w: Parser, whole: seq<Event>, m: nat)
    requires var s, data := Init(Kind.Request, false), Text(LongRequest());
             && Executed(w, whole, m, s, [], data)
             && Executed(v, calls, n, s, [], data[..21]) && Executed(v', calls', n', v, Merge(calls), data[21..])
    ensures w.errno.OK? && m == MAX_HEADER_SIZE && Merge(whole) == Message(LongRequest())
    ensures v.errno.OK? && v'.errno.HeaderOverflow?
  {
    hide Run, Executed, Merge, Good, LongRequest, Bs, Wrk.Texts, Wrk.Messages, Message, Text, HeadText, Deep;
    LongIsGood();
    LongHead();
    var r := LongRequest();
    OnlyRequest(r);
    Wrk.TextsVerified(w, whole, m, [r]);
    LongDeep();
    CutOverflows(r, 21, v, calls, n, v', calls', n');
  }

  lemma OnlyRequest(r: Request)
    ensures Wrk.Texts([r]) == Text(r) && Wrk.Messages([r]) == Message(r)
  {
    hide Text, Message;
    assert [r][..0] == [];
    assert Wrk.Texts([]) == [] && Wrk.Messages([]) == [];
  }

  lemma LongDeep()
    ensures Deep(LongRequest(), 21) && |Text(LongRequest())| == MAX_HEADER_SIZE
  {
    hide HeadText, FirstLineOf, Bs, IsBlank;
    LongHead();
    var r := LongRequest();
    var n := MAX_HEADER_SIZE - 23;
    ManyBs(n);
    assert r.headers[..0] == [];
    assert HeaderText([]) == [];
    assert FirstLineOf(r) == FirstLine() by { FirstLineIs(r); }
    assert HeaderAt(r, 0) == 16;
    assert Bs(n)[0] == 'b' by { FirstB(n); }
    TrimStep(Bs(n));
    NoBlanks(Bs(n));
    assert DeepInLine(r.headers[0], 21 - HeaderAt(r, 0));
  }

  lemma FirstLineIs(r: Request)
    requires r.verb == GET && r.path == "/"
    ensures FirstLineOf(r) == FirstLine()
  {
  }

  // ----- control bytes

  /** A byte that may stand anywhere as far as the skip is concerned: TAB, CR, LF, or no control byte. */
  predicate IsHarmless(ch: char) { ch == TAB || ch == CR || ch == LF || (ch >= ' ' && ch != 127 as char) }

  /** For a lenient parser, or for bytes without control bytes other than TAB, CR and LF, the skip makes no
      difference. */
  lemma HarmlessBytes(s: Parser, t: seq<Event>, data: string)
    requires s.errno.OK? && (s.lenient || forall i :: 0 <= i < |data| ==> IsHarmless(data[i]))
    ensures SameRun(Run(false, s, t, data), Run(true, s, t, data)) && Clean(s, t, data)
  {
    hide Run;
    forall i | 0 <= i < |data|
      ensures Run(false, s, t, data[..i]).s.lenient == s.lenient
      ensures IsHarmless(data[i]) ==> IsHeaderChar(data[i])
    {
      LenientStays(false, s, t, data[..i]);
    }
    hide IsHeaderChar, IsHarmless;
    forall i: nat
      ensures !Jumped(s, t, data, i)
    {
    }
    SkipAgreesIff(s, t, data);
  }

  const CONTROL: char := 1 as char

  /** A request that a new parser refuses at byte 21 when it gets it byte by byte, and not when it gets all at once: the
      control byte after two bytes of a value is skipped. */
  lemma SkippedControl()
    ensures var s, data := Init(Kind.Request, false), FirstLine() + "A: " + Bs(2) + [CONTROL];
            && Jumped(s, [], data, 21)
            && Run(false, s, [], data).n == 21 && Run(false, s, [], data).s.errno.InvalidHeaderToken?
            && Run(true, s, [], data).n == 22 && Run(true, s, [], data).s.errno.OK?
  {
    hide Run, Goes, FirstLine, Bs, IsHeaderChar, Jumped;
    var s, a := Init(Kind.Request, false), FirstLine() + "A: " + Bs(2);
    var data := a + [CONTROL];
    var s1, t1 := InValue(1);
    var s2, t2 := InValue(2);
    ControlAfter(a);
    assert FirstLine() + "A: " + Bs(1) == data[..20] && a == data[..21];
    GoesLeads(s, [], data[..20], s1, t1);
    GoesLeads(s, [], a, s2, t2);
    ControlJumped(s, data, s1, t1, s2, t2);
    JumpDiffers(s, [], data, 21);
    RunCount(true, s, [], data);
    RunOk(true, s, [], data);
  }

  lemma GoesLeads(s: Parser, t: seq<Event>, data: string, s': Parser, t': seq<Event>)
    requires Goes(s, t, data, s', t', 0)
    ensures Leads(s, t, data, s', t')
  {
    hide Run, Clean, HeadersFit;
  }

  lemma ControlAfter(a: string)
    requires a == FirstLine() + "A: " + Bs(2)
    ensures |a| == 21 && (a + [CONTROL])[..20] == FirstLine() + "A: " + Bs(1) && (a + [CONTROL])[..21] == a
    ensures !IsHeaderChar(CONTROL)
  {
    hide FirstLine, Bs;
    LongHead();
    ManyBs(2);
    assert |Bs(2)| == 2 && Bs(2)[..1] == Bs(1);
  }

  lemma ControlJumped(s: Parser, data: string, s1: Parser, t1: seq<Event>, s2: Parser, t2: seq<Event>)
    requires |data| == 22 && data[21] == CONTROL && !IsHeaderChar(CONTROL)
    requires Leads(s, [], data[..20], s1, t1) && Leads(s, [], data[..21], s2, t2)
    requires Scanning(s1) && Scanning(s2) && !s2.lenient
    ensures Jumped(s, [], data, 21)
  {
    hide Run, IsHeaderChar;
  }
}
