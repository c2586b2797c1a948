/** A stream in any non-empty pieces, as socket_readable feeds it: exactly when the pieces do not show. */
module Feeding {
  import opened Bytes
  import opened Trace
  import opened Machine
  import opened Bytewise
  import opened Marks
  import opened Invariant
  import opened Limits
  import opened HttpParser
  import opened Splitting

  /** No value that the skip may cross holds a control byte. */
  ghost predicate Clean(s: Parser, t: seq<Event>, data: string) {
    forall i | 0 <= i < |data| ::
      var o := Run(false, s, t, data[..i]);
      o.halt.Running? && Scanning(o.s) ==> o.s.lenient || IsHeaderChar(data[i])
  }

  /** No header part comes within `slack` bytes of the limit. */
  ghost predicate HeadersFit(s: Parser, t: seq<Event>, data: string, slack: nat) {
    forall q | 0 <= q < |data| ::
      var o := Run(false, s, t, data[..q]);
      o.halt.Running? && ParsingHeader(o.s.state) ==> o.s.nread + 1 + slack <= MAX_HEADER_SIZE
  }

  // ----- how far the header count is ahead

  /** The last byte is taken by the loop of a name or a value: it neither enters nor ends it. */
  ghost predicate ScannedEnd(s: Parser, t: seq<Event>, data: string) {
    data != []
    && var o := Run(false, s, t, data);
    o.halt.Running? && IsScan(o.s.state) && Run(false, s, t, data[..|data| - 1]).s.state == o.s.state
  }

  /** How far the count is ahead after one more piece: as far as before if every byte of the piece is counted, not at
      all if the count is set back within it, and by one more if the piece ends in a scan. */
  ghost function LeadAfter(s: Parser, t: seq<Event>, done: string, piece: string, lead: nat): nat {
    Kept(Run(false, s, t, done).s, Run(false, s, t, done + piece), |piece|, lead)
    + if ScannedEnd(s, t, done + piece) then 1 else 0
  }

  /** How far the header count is ahead of that of the bytes one by one, after a call for each piece. */
  ghost function Lead(s: Parser, t: seq<Event>, pieces: seq<string>): nat {
    if pieces == [] then 0
    else
      var init, last := pieces[..|pieces| - 1], pieces[|pieces| - 1];
      LeadAfter(s, t, Concat(init), last, Lead(s, t, init))
  }

  /** The parser `v` where the bytes `done` one by one leave `o`, with a count that is `lead` ahead. */
  ghost predicate Reached(v: Parser, o: Outcome, done: string, lead: nat) {
    && o.halt.Running? && o.n == |done| && v == o.s.(nread := o.s.nread + lead)
    && (lead > 0 ==> ParsingHeader(o.s.state))
  }

  /** Bytes `done` then `i` bytes of `piece`: the run from `v` is the run from the start. */
  lemma PieceRun(s: Parser, t: seq<Event>, done: string, piece: string, i: nat, v: Parser, lead: nat)
    requires i <= |piece| && Reached(v, Run(false, s, t, done), done, lead)
    ensures var o1 := Run(false, s, t, done);
            var o, q := Run(false, s, t, done + piece[..i]), Run(false, v, o1.trace, piece[..i]);
            && q.s == o.s.(nread := q.s.nread) && o.s.nread <= q.s.nread <= o.s.nread + lead
            && q.trace == o.trace && q.halt == o.halt && |done| + q.n == o.n
            && (o.halt.Running? ==>
                  var kept := Kept(o1.s, o, i, lead);
                  q.s.nread == o.s.nread + kept && (kept > 0 ==> ParsingHeader(o.s.state)))
  {
    hide Run, ParsingHeader;
    var o1 := Run(false, s, t, done);
    RunAppend(s, t, done, piece[..i]);
    RunAhead(false, o1.s, o1.trace, piece[..i], lead);
    KeepsLead(o1.s, o1.trace, piece[..i], lead);
  }

  /** A call that the bytes one by one account for: the limit does not stop it, and the skip jumps over no control
      byte. */
  ghost predicate Fine(v: Parser, t: seq<Event>, piece: string) {
    !Over(v, t, piece) && forall j: nat :: !Jumped(v, t, piece, j)
  }

  lemma CleanPiece(s: Parser, t: seq<Event>, done: string, piece: string, rest: string, v: Parser, lead: nat, i: nat)
    requires Reached(v, Run(false, s, t, done), done, lead) && Clean(s, t, done + piece + rest)
    ensures !Jumped(v, Run(false, s, t, done).trace, piece, i)
  {
    hide Run, IsHeaderChar;
    if Jumped(v, Run(false, s, t, done).trace, piece, i) {
      PrefixOf(done, piece, rest, i);
      PieceRun(s, t, done, piece, i, v, lead);
    }
  }

  lemma PrefixOf(done: string, piece: string, rest: string, i: nat)
    requires i <= |piece|
    ensures (done + piece + rest)[..|done| + i] == done + piece[..i]
    ensures i < |piece| ==> (done + piece + rest)[|done| + i] == piece[i]
  {
  }

  /** Whether a call ends in a scan is seen in the bytes one by one. */
  lemma PieceScanned(s: Parser, t: seq<Event>, done: string, piece: string, v: Parser, lead: nat)
    requires piece != [] && v.errno.OK? && Reached(v, Run(false, s, t, done), done, lead)
    requires forall j: nat :: !Jumped(v, Run(false, s, t, done).trace, piece, j)
    ensures LastScanned(v, Run(false, s, t, done).trace, piece, |piece|) <==> ScannedEnd(s, t, done + piece)
  {
    hide Run, Jumped, Reached, IsScan;
    var u, n := Run(false, s, t, done).trace, |piece| - 1;
    LaxFollows(v, u, piece, n);
    LaxFollows(v, u, piece, n + 1);
    PieceRun(s, t, done, piece, n, v, lead);
    PieceRun(s, t, done, piece, n + 1, v, lead);
    assert piece[..n + 1] == piece;
    assert (done + piece)[..|done + piece| - 1] == done + piece[..n];
    var o, o1 := Run(false, s, t, done + piece[..n]), Run(false, s, t, done + piece);
    assert done + piece[..n] + [piece[n]] == done + piece;
    if o1.halt.Running? { StillRunning(s, t, done + piece[..n], piece[n]); }
    SteadyLast(v, u, piece);
  }

  lemma StillRunning(s: Parser, t: seq<Event>, data: string, ch: char)
    requires Run(false, s, t, data + [ch]).halt.Running?
    ensures Run(false, s, t, data).halt.Running?
  {
    RunAppend(s, t, data, [ch]);
    hide Run;
  }

  lemma SteadyLast(s: Parser, t: seq<Event>, data: string)
    requires data != []
    ensures var o, o1 := Run(true, s, t, data[..|data| - 1]), Run(true, s, t, data);
            LastScanned(s, t, data, |data|) <==>
              IsScan(o1.s.state) && o.s.state == o1.s.state && o.halt.Running? && o1.halt.Running?
  {
    hide Run, IsScan;
    var n := |data| - 1;
    assert data[..n + 1] == data;
    var o, o1 := Run(true, s, t, data[..n]), Run(true, s, t, data);
    if IsScan(o1.s.state) && o.s.state == o1.s.state && o.halt.Running? && o1.halt.Running? {
      assert Steady(s, t, data, n, n + 1, o.s.state);
    }
  }

  // ----- one call

  /** What the bytes one by one leave, but for the header count, which is `lead` ahead, and, on an error, for the data
      of the mark that was open. */
  ghost predicate Delivered(v: Parser, calls: seq<Event>, n: nat, o: Outcome, lead: nat) {
    && n == o.n
    && v == o.s.(nread := v.nread, hs := v.hs)
    && (v.hs != o.s.hs ==> v.errno.InvalidHeaderToken?)
    && if o.halt.Failed? then !v.errno.OK? && Short(calls, o.trace)
       else Merge(calls) == o.trace && o.s.nread <= v.nread && (o.halt.Running? ==> v.nread == o.s.nread + lead)
  }

  /** More bytes are taken than one by one, or the header limit has stopped a call, or there is an error after the
      upgrade. */
  predicate Differs(v: Parser, n: nat, o: Outcome) {
    n > o.n || v.errno.HeaderOverflow? || (o.halt.Exited? && !v.errno.OK?)
  }

  /** A run that has not used all its bytes stays as it is, and one that has does not stop before its end. */
  lemma StopsHere(s: Parser, t: seq<Event>, a: string, b: string)
    ensures !Run(false, s, t, a).halt.Running? ==> Run(false, s, t, a + b) == Run(false, s, t, a)
  {
    RunAppend(s, t, a, b);
  }

  /** A fine call leaves what the bytes one by one do. */
  lemma PieceDone(s: Parser, t: seq<Event>, done: string, piece: string, v: Parser, lead: nat,
                  v': Parser, calls': seq<Event>, m: nat)
    requires piece != [] && Inv(v) && Reached(v, Run(false, s, t, done), done, lead)
    requires Fine(v, Run(false, s, t, done).trace, piece)
    requires Executed(v', calls', m, v, Run(false, s, t, done).trace, piece)
    ensures var o := Run(false, s, t, done + piece);
            && Delivered(v', calls', |done| + m, o, LeadAfter(s, t, done, piece, lead))
            && (o.halt.Failed? <==> !v'.errno.OK?)
            && (o.halt.Running? ==> Reached(v', o, done + piece, LeadAfter(s, t, done, piece, lead)))
            && (!o.halt.Failed? ==> v' == o.s.(nread := v'.nread))
  {
    hide Run, Over, LastScanned, Merge, Short, Inv, Reached, Jumped, ScannedEnd;
    var u := Run(false, s, t, done).trace;
    InvCore(v);
    SkipAgreesIff(v, u, piece);
    assert piece[..|piece|] == piece;
    PieceRun(s, t, done, piece, |piece|, v, lead);
    PieceScanned(s, t, done, piece, v, lead);
    RunOk(true, v, u, piece);
    PieceLeaves(s, t, done, piece, v, lead, v', calls', m);
  }

  lemma PieceLeaves(s: Parser, t: seq<Event>, done: string, piece: string, v: Parser, lead: nat,
                    v': Parser, calls': seq<Event>, m: nat)
    requires Reached(v, Run(false, s, t, done), done, lead) && v.errno.OK?
    requires var u := Run(false, s, t, done).trace;
             var o, q, l := Run(false, s, t, done + piece), Run(false, v, u, piece), Run(true, v, u, piece);
             && Agrees(v', calls', m, l, Extra(v, u, piece, |piece|)) && SameRun(q, l)
             && (LastScanned(v, u, piece, |piece|) <==> ScannedEnd(s, t, done + piece))
             && q.s == o.s.(nread := q.s.nread) && o.s.nread <= q.s.nread
             && q.trace == o.trace && q.halt == o.halt && |done| + q.n == o.n
             && (o.halt.Running? ==>
                   var kept := Kept(Run(false, s, t, done).s, o, |piece|, lead);
                   q.s.nread == o.s.nread + kept && (kept > 0 ==> ParsingHeader(o.s.state)))
             && (l.halt.Failed? <==> !l.s.errno.OK?)
    ensures var o := Run(false, s, t, done + piece);
            && Delivered(v', calls', |done| + m, o, LeadAfter(s, t, done, piece, lead))
            && (o.halt.Failed? <==> !v'.errno.OK?)
            && (o.halt.Running? ==> Reached(v', o, done + piece, LeadAfter(s, t, done, piece, lead)))
            && (!o.halt.Failed? ==> v' == o.s.(nread := v'.nread))
  {
    hide Run, LastScanned, Merge, Short, Kept;
    RunCount(false, s, t, done + piece);
    assert ScannedEnd(s, t, done + piece) ==> ParsingHeader(Run(false, s, t, done + piece).s.state);
    hide ScannedEnd;
  }

  /** A call that is not fine takes more bytes than one by one, or is stopped by the header limit. */
  lemma PieceSpoils(s: Parser, t: seq<Event>, done: string, piece: string, rest: string, v: Parser, lead: nat,
                    v': Parser, calls': seq<Event>, m: nat)
    requires s.errno.OK? && Inv(v) && Reached(v, Run(false, s, t, done), done, lead)
    requires !Fine(v, Run(false, s, t, done).trace, piece)
    requires Executed(v', calls', m, v, Run(false, s, t, done).trace, piece)
    ensures Differs(v', |done| + m, Run(false, s, t, done + piece + rest))
  {
    hide Run, Over, LastScanned, Merge, Short, Inv, Jumped;
    var u := Run(false, s, t, done).trace;
    InvCore(v);
    if !Over(v, u, piece) {
      var j: nat :| Jumped(v, u, piece, j);
      JumpDiffers(v, u, piece, j);
      RunOk(false, v, u, piece);
      assert piece[..|piece|] == piece;
      PieceRun(s, t, done, piece, |piece|, v, lead);
      StopsHere(s, t, done + piece, rest);
    }
  }

  /** After the upgrade a call takes a byte or reports an error. */
  lemma ExitSpoils(v: Parser, t: seq<Event>, piece: string, v': Parser, calls': seq<Event>, m: nat)
    requires piece != [] && v.errno.OK? && Executed(v', calls', m, v, t, piece)
    ensures m > 0 || !v'.errno.OK?
  {
    hide Over, LastScanned, Merge, Short, Act;
    RunCount(true, v, t, piece);
    RunOk(true, v, t, piece);
    ExitCounts(v, t, piece);
    hide Run;
  }

  lemma {:induction false} ExitCounts(s: Parser, t: seq<Event>, data: string)
    ensures Run(true, s, t, data).halt.Exited? ==> Run(true, s, t, data).n > 0
  {
    hide Act, Emit;
    if data != [] {
      RunCount(true, s, t, data[..|data| - 1]);
      ExitCounts(s, t, data[..|data| - 1]);
    }
  }

  // ----- all calls

  lemma {:induction false} ConcatAppend(a: seq<string>, b: seq<string>)
    ensures Concat(a + b) == Concat(a) + Concat(b)
    decreases |b|
  {
    if b == [] {
      assert a + b == a;
    } else {
      var n := |b| - 1;
      ConcatAppend(a, b[..n]);
      assert (a + b)[..|a + b| - 1] == a + b[..n];
    }
  }

  /** The bytes before piece `i`, the piece, and those after it. */
  lemma ConcatAt(pieces: seq<string>, i: nat)
    requires i < |pieces|
    ensures Concat(pieces) == Concat(pieces[..i]) + pieces[i] + Concat(pieces[i + 1..])
    ensures Concat(pieces[..i + 1]) == Concat(pieces[..i]) + pieces[i]
  {
    hide Concat;
    ConcatNext(pieces, i);
    assert pieces == pieces[..i + 1] + pieces[i + 1..];
    ConcatAppend(pieces[..i + 1], pieces[i + 1..]);
  }

  lemma ConcatNext(pieces: seq<string>, i: nat)
    requires i < |pieces|
    ensures Concat(pieces[..i + 1]) == Concat(pieces[..i]) + pieces[i]
  {
    var init, next := pieces[..i], pieces[..i + 1];
    assert |next| == i + 1 && next[i] == pieces[i];
    assert next[..i] == init;
    assert Concat(next) == Concat(next[..i]) + next[i];
  }

  lemma ConcatOne(piece: string)
    ensures Concat([piece]) == piece
  {
    assert [piece][..0] == [];
    assert Concat([piece]) == Concat([]) + piece;
    assert [] + piece == piece;
  }

  lemma ConcatFrom(pieces: seq<string>, i: nat, j: nat)
    requires i <= j <= |pieces|
    ensures Concat(pieces[..j]) == Concat(pieces[..i]) + Concat(pieces[i..j])
  {
    assert pieces[..j] == pieces[..i] + pieces[i..j];
    ConcatAppend(pieces[..i], pieces[i..j]);
  }

  /** Call `i`, if it is made at all, is accounted for by the bytes one by one; after an upgrade none is. */
  ghost predicate CallFine(s: Parser, t: seq<Event>, pieces: seq<string>, i: nat)
    requires i < |pieces|
  {
    var o := Run(false, s, t, Concat(pieces[..i]));
    match o.halt
    case Running => Fine(o.s.(nread := o.s.nread + Lead(s, t, pieces[..i])), o.trace, pieces[i])
    case Failed => true
    case Exited => o.n < |Concat(pieces[..i])|
  }

  ghost predicate AllFine(s: Parser, t: seq<Event>, pieces: seq<string>) {
    forall i :: 0 <= i < |pieces| ==> CallFine(s, t, pieces, i)
  }

  /** What the calls leave: what the bytes one by one do, exactly if all calls are fine. */
  ghost predicate Fed(v: Parser, calls: seq<Event>, n: nat, s: Parser, t: seq<Event>, pieces: seq<string>) {
    var o := Run(false, s, t, Concat(pieces));
    if AllFine(s, t, pieces) then Delivered(v, calls, n, o, Lead(s, t, pieces)) else Differs(v, n, o)
  }

  lemma FedIff(v: Parser, calls: seq<Event>, n: nat, s: Parser, t: seq<Event>, pieces: seq<string>)
    requires s.errno.OK? && Fed(v, calls, n, s, t, pieces)
    ensures AllFine(s, t, pieces) <==> Delivered(v, calls, n, Run(false, s, t, Concat(pieces)), Lead(s, t, pieces))
  {
    hide Run, AllFine, Merge, Short;
    NeverOver(false, s, t, Concat(pieces));
    RunOk(false, s, t, Concat(pieces));
  }

  /** After `i` fine calls that took all their bytes. */
  ghost predicate SoFar(v: Parser, calls: seq<Event>, n: nat, s: Parser, t: seq<Event>, pieces: seq<string>, i: nat)
    requires i <= |pieces|
  {
    var done := Concat(pieces[..i]);
    var o := Run(false, s, t, done);
    && n == |done| == o.n && v.errno.OK? && Merge(calls) == o.trace && v == o.s.(nread := v.nread)
    && o.s.nread <= v.nread && (o.halt.Running? ==> Reached(v, o, done, Lead(s, t, pieces[..i])))
    && !o.halt.Failed? && forall j :: 0 <= j < i ==> CallFine(s, t, pieces, j)
  }

  /** Among the first `i` calls one was not fine. */
  ghost predicate Spoiled(v: Parser, n: nat, s: Parser, t: seq<Event>, pieces: seq<string>, i: nat)
    requires i <= |pieces|
  {
    (exists j :: 0 <= j < i && !CallFine(s, t, pieces, j)) && Differs(v, n, Run(false, s, t, Concat(pieces)))
  }

  lemma SpoiledFed(v: Parser, calls: seq<Event>, n: nat, s: Parser, t: seq<Event>, pieces: seq<string>, i: nat)
    requires i <= |pieces| && Spoiled(v, n, s, t, pieces, i)
    ensures Fed(v, calls, n, s, t, pieces)
  {
    hide Run, CallFine;
  }

  lemma NothingFed(v: Parser, calls: seq<Event>, s: Parser, t: seq<Event>, pieces: seq<string>)
    requires v == s && s.errno.OK? && t == Merge(calls)
    ensures SoFar(v, calls, 0, s, t, pieces, 0)
  {
    hide Merge, CallFine;
  }

  lemma AllFed(v: Parser, calls: seq<Event>, n: nat, s: Parser, t: seq<Event>, pieces: seq<string>)
    requires SoFar(v, calls, n, s, t, pieces, |pieces|)
    ensures Fed(v, calls, n, s, t, pieces)
  {
    hide Run, CallFine, Merge, Lead;
    assert pieces[..|pieces|] == pieces;
  }

  /** Where the run has stopped before the end of call `i`, no later call is made. */
  lemma LaterFine(s: Parser, t: seq<Event>, pieces: seq<string>, i: nat)
    requires i < |pieces| && forall j :: 0 <= j <= i ==> CallFine(s, t, pieces, j)
    requires var o := Run(false, s, t, Concat(pieces[..i + 1]));
             o.halt.Failed? || (o.halt.Exited? && o.n < |Concat(pieces[..i + 1])|)
    ensures AllFine(s, t, pieces)
  {
    hide Run, Fine, Lead;
    forall j | i < j < |pieces|
      ensures CallFine(s, t, pieces, j)
    {
      ConcatFrom(pieces, i + 1, j);
      StopsHere(s, t, Concat(pieces[..i + 1]), Concat(pieces[i + 1..j]));
    }
  }

  lemma NextLead(s: Parser, t: seq<Event>, pieces: seq<string>, i: nat)
    requires i < |pieces|
    ensures Lead(s, t, pieces[..i + 1]) == LeadAfter(s, t, Concat(pieces[..i]), pieces[i], Lead(s, t, pieces[..i]))
  {
    hide LeadAfter;
    assert pieces[..i + 1][..i] == pieces[..i];
  }

  /** One more call, from where all calls were fine. */
  lemma NextCall(v: Parser, calls: seq<Event>, n: nat, s: Parser, t: seq<Event>, pieces: seq<string>, i: nat,
                 v': Parser, calls': seq<Event>, m: nat)
    requires s.errno.OK? && i < |pieces| && pieces[i] != [] && Inv(v) && SoFar(v, calls, n, s, t, pieces, i)
    requires Executed(v', calls', m, v, Merge(calls), pieces[i])
    ensures m == |pieces[i]| ==>
              SoFar(v', calls', n + m, s, t, pieces, i + 1) || Spoiled(v', n + m, s, t, pieces, i + 1)
    ensures m != |pieces[i]| ==> Fed(v', calls', n + m, s, t, pieces)
  {
    hide Run, Merge, Fine, Executed, Lead, Inv, Reached, LeadAfter, AllFine;
    var done, piece, rest := Concat(pieces[..i]), pieces[i], Concat(pieces[i + 1..]);
    var o, lead := Run(false, s, t, done), Lead(s, t, pieces[..i]);
    ConcatAt(pieces, i);
    if o.halt.Running? && CallFine(s, t, pieces, i) {
      assert v == o.s.(nread := o.s.nread + lead) by { ReachedIs(v, o, done, lead); }
      PieceDone(s, t, done, piece, v, lead, v', calls', m);
      NextLead(s, t, pieces, i);
      FineCall(v, calls, n, s, t, pieces, i, v', calls', m);
    } else {
      if o.halt.Running? {
        assert v == o.s.(nread := o.s.nread + lead) by { ReachedIs(v, o, done, lead); }
        PieceSpoils(s, t, done, piece, rest, v, lead, v', calls', m);
      } else {
        ExitSpoils(v, Merge(calls), piece, v', calls', m);
        RunOk(false, s, t, done);
        StopsHere(s, t, done, piece + rest);
        assert done + (piece + rest) == done + piece + rest;
      }
      assert !CallFine(s, t, pieces, i);
      SpoiledFed(v', calls', n + m, s, t, pieces, i + 1);
    }
  }

  lemma ReachedIs(v: Parser, o: Outcome, done: string, lead: nat)
    requires Reached(v, o, done, lead)
    ensures v == o.s.(nread := o.s.nread + lead)
  {
  }

  lemma FineCall(v: Parser, calls: seq<Event>, n: nat, s: Parser, t: seq<Event>, pieces: seq<string>, i: nat,
                 v': Parser, calls': seq<Event>, m: nat)
    requires i < |pieces| && SoFar(v, calls, n, s, t, pieces, i) && CallFine(s, t, pieces, i)
    requires var o, lead := Run(false, s, t, Concat(pieces[..i + 1])), Lead(s, t, pieces[..i + 1]);
             && Delivered(v', calls', n + m, o, lead) && (o.halt.Failed? <==> !v'.errno.OK?)
             && (o.halt.Running? ==> Reached(v', o, Concat(pieces[..i + 1]), lead))
             && (!o.halt.Failed? ==> v' == o.s.(nread := v'.nread))
    ensures m == |pieces[i]| ==> SoFar(v', calls', n + m, s, t, pieces, i + 1)
    ensures m != |pieces[i]| ==> Fed(v', calls', n + m, s, t, pieces)
  {
    hide Run, Merge, CallFine, Lead, Short, Reached;
    ConcatAt(pieces, i);
    var o := Run(false, s, t, Concat(pieces[..i + 1]));
    RunCount(false, s, t, Concat(pieces[..i + 1]));
    if m != |pieces[i]| {
      LaterFine(s, t, pieces, i);
      StopsHere(s, t, Concat(pieces[..i + 1]), Concat(pieces[i + 1..]));
    }
  }

  lemma SpoiledStays(v: Parser, n: nat, s: Parser, t: seq<Event>, pieces: seq<string>, i: nat, v': Parser, m: nat)
    requires i < |pieces| && Spoiled(v, n, s, t, pieces, i) && (!v.errno.OK? ==> v' == v)
    ensures Spoiled(v', n + m, s, t, pieces, i + 1)
  {
    hide Run, CallFine;
  }

  /** The loop of socket_readable: feed the pieces until a call does not take all of its bytes.  The result is that of
      the concatenation, byte by byte, if and only if all calls are fine. */
  method Feed(parser: HttpParser, pieces: seq<string>) returns (n: nat)
    requires parser.Valid() && parser.errno.OK?
    requires forall i :: 0 <= i < |pieces| ==> pieces[i] != []
    modifies parser
    ensures parser.Valid() && n <= |Concat(pieces)|
    ensures Fed(parser.View(), parser.calls, n, old(parser.View()), Merge(old(parser.calls)), pieces)
  {
    hide Run, Inv, Merge, Executed, SoFar, Spoiled, Fed;
    n := 0;
    ghost var s, t := parser.View(), Merge(parser.calls);
    NothingFed(parser.View(), parser.calls, s, t, pieces);
    var i := 0;
    while i < |pieces|
      invariant 0 <= i <= |pieces| && parser.Valid() && n <= |Concat(pieces[..i])|
      invariant SoFar(parser.View(), parser.calls, n, s, t, pieces, i) || Spoiled(parser.View(), n, s, t, pieces, i)
    {
      ghost var v, c := parser.View(), parser.calls;
      var m := parser.Execute(pieces[i]);
      ConcatAt(pieces, i);
      if v.errno.OK? { TakesNoMore(parser.View(), parser.calls, m, v, Merge(c), pieces[i]); }
      if SoFar(v, c, n, s, t, pieces, i) {
        SoFarOk(v, c, n, s, t, pieces, i);
        NextCall(v, c, n, s, t, pieces, i, parser.View(), parser.calls, m);
      } else {
        SpoiledStays(v, n, s, t, pieces, i, parser.View(), m);
        SpoiledFed(parser.View(), parser.calls, n + m, s, t, pieces, i + 1);
      }
      n := n + m;
      if m != |pieces[i]| { return; }
      i := i + 1;
    }
    assert pieces[..i] == pieces;
    if SoFar(parser.View(), parser.calls, n, s, t, pieces, i) {
      AllFed(parser.View(), parser.calls, n, s, t, pieces);
    } else {
      SpoiledFed(parser.View(), parser.calls, n, s, t, pieces, i);
    }
  }

  lemma TakesNoMore(v': Parser, calls': seq<Event>, m: nat, v: Parser, t: seq<Event>, piece: string)
    requires Executed(v', calls', m, v, t, piece)
    ensures m <= |piece|
  {
    hide Over, LastScanned, Merge, Short, Run;
    RunCount(true, v, t, piece);
  }

  lemma SoFarOk(v: Parser, calls: seq<Event>, n: nat, s: Parser, t: seq<Event>, pieces: seq<string>, i: nat)
    requires i <= |pieces| && SoFar(v, calls, n, s, t, pieces, i)
    ensures v.errno.OK?
  {
    hide Run, CallFine, Merge, Lead;
  }
}
