/** When the header limit does not mind how a stream is cut: the calls that count a byte too many must lie in one header
    part, and there must be many of them. */
module Spacing {
  import opened Bytes
  import opened Trace
  import opened Machine
  import opened Bytewise
  import opened Marks
  import opened Invariant
  import opened Limits
  import opened HttpParser
  import opened Splitting
  import opened Feeding
  import opened Journeys

  // ----- the lead comes from pieces within the header part

  lemma ScanActs(s: Parser, ch: char)
    requires IsScan(s.state) && Act(s, ch, true).s.state == s.state
    ensures Act(s, ch, true).s.nread == s.nread
  {
    ActIs(s, ch, true);
    hide Act, FieldChar, ValueChar, IsToken, IsHeaderChar;
  }

  /** A scanned byte is counted. */
  lemma ScanCounts(s: Parser, t: seq<Event>, data: string)
    requires ScannedEnd(s, t, data)
    ensures Run(false, s, t, data).s.nread > 0
  {
    hide Act, Emit;
    var n := |data| - 1;
    var o := Run(false, s, t, data[..n]);
    assert Counted(o.s).state == o.s.state;
    ScanActs(Counted(o.s), data[n]);
  }

  /** Each unit of the lead stands for a piece that ends within the bytes counted since the count was set back. */
  lemma {:induction false} LeadSpan(s: Parser, t: seq<Event>, pieces: seq<string>)
    requires Run(false, s, t, Concat(pieces)).halt.Running?
    ensures var o, lead := Run(false, s, t, Concat(pieces)), Lead(s, t, pieces);
            && lead <= |pieces|
            && (lead > 0 ==> ParsingHeader(o.s.state)
                             && |Concat(pieces)| < |Concat(pieces[..|pieces| - lead + 1])| + o.s.nread)
    decreases |pieces|
  {
    hide Run, Lead, ParsingHeader;
    if pieces == [] {
      assert Lead(s, t, []) == 0 by { NoLead(s, t); }
    } else {
      var n := |pieces| - 1;
      var init, piece := pieces[..n], pieces[n];
      var done := Concat(init);
      assert pieces[..n + 1] == pieces;
      RunAppend(s, t, done, piece);
      LeadSpan(s, t, init);
      NextLead(s, t, pieces, n);
      KeepsLead(Run(false, s, t, done).s, Run(false, s, t, done).trace, piece, Lead(s, t, init));
      if ScannedEnd(s, t, Concat(pieces)) {
        ScanCounts(s, t, Concat(pieces));
        assert ParsingHeader(Run(false, s, t, Concat(pieces)).s.state) by { ScanIsHeader(s, t, Concat(pieces)); }
      }
      LeadGrows(s, t, pieces);
    }
  }

  lemma NoLead(s: Parser, t: seq<Event>)
    ensures Lead(s, t, []) == 0
  {
  }

  lemma ScanIsHeader(s: Parser, t: seq<Event>, data: string)
    requires ScannedEnd(s, t, data)
    ensures ParsingHeader(Run(false, s, t, data).s.state)
  {
    hide Run;
  }

  lemma LeadGrows(s: Parser, t: seq<Event>, pieces: seq<string>)
    requires pieces != []
    requires var n := |pieces| - 1;
             var init := pieces[..n];
             var o, o1, lead := Run(false, s, t, Concat(init)), Run(false, s, t, Concat(pieces)), Lead(s, t, init);
             && lead <= n && (lead > 0 ==> |Concat(init)| < |Concat(init[..n - lead + 1])| + o.s.nread)
             && (ScannedEnd(s, t, Concat(pieces)) ==> o1.s.nread > 0)
             && Lead(s, t, pieces) == LeadAfter(s, t, Concat(init), pieces[n], lead)
    ensures var lead := Lead(s, t, pieces);
            && lead <= |pieces|
            && (lead > 0 ==>
                 |Concat(pieces)| < |Concat(pieces[..|pieces| - lead + 1])| + Run(false, s, t, Concat(pieces)).s.nread)
  {
    hide Run, Lead, ScannedEnd, Concat;
    var n := |pieces| - 1;
    var init := pieces[..n];
    var before, lead := Lead(s, t, init), Lead(s, t, pieces);
    ConcatAt(pieces, n);
    assert pieces[..n + 1] == pieces;
    if lead > 0 && before > 0 {
      assert init[..n - before + 1] == pieces[..n - before + 1];
      Longer(pieces, n - before + 1, n + 1 - lead + 1);
    }
  }

  lemma Longer(pieces: seq<string>, i: nat, j: nat)
    requires i <= j <= |pieces|
    ensures |Concat(pieces[..i])| <= |Concat(pieces[..j])|
  {
    ConcatFrom(pieces, i, j);
  }

  // ----- pieces that leave room

  /** Any `MAX_HEADER_SIZE - h` pieces in a row within the stream, the first and the last one aside, hold at least `h`
      bytes. */
  ghost predicate Spaced(pieces: seq<string>, h: nat)
    requires h <= MAX_HEADER_SIZE
  {
    forall i, j | 0 < i <= j < |pieces| && j - i == MAX_HEADER_SIZE - h ::
      |Concat(pieces[..i])| + h <= |Concat(pieces[..j])|
  }

  lemma {:induction false} BytesEach(pieces: seq<string>, i: nat, j: nat)
    requires i <= j <= |pieces| && forall k :: 0 <= k < |pieces| ==> pieces[k] != []
    ensures |Concat(pieces[..i])| + (j - i) <= |Concat(pieces[..j])|
    decreases j
  {
    hide Concat;
    if i < j {
      BytesEach(pieces, i, j - 1);
      ConcatAt(pieces, j - 1);
    }
  }

  /** Half of the limit is room enough for any pieces. */
  lemma HalfIsSpaced(pieces: seq<string>, h: nat)
    requires 2 * h <= MAX_HEADER_SIZE && forall k :: 0 <= k < |pieces| ==> pieces[k] != []
    ensures Spaced(pieces, h)
  {
    hide Concat;
    forall i, j | 0 < i <= j < |pieces| && j - i == MAX_HEADER_SIZE - h
      ensures |Concat(pieces[..i])| + h <= |Concat(pieces[..j])|
    {
      BytesEach(pieces, i, j);
    }
  }

  /** So is what many spare bytes leave. */
  lemma FewAreSpaced(pieces: seq<string>, h: nat)
    requires h <= MAX_HEADER_SIZE && |pieces| <= MAX_HEADER_SIZE - h + 1
    ensures Spaced(pieces, h)
  {
    hide Concat;
  }

  lemma SpacedLead(s: Parser, t: seq<Event>, pieces: seq<string>, i: nat, h: nat)
    requires i < |pieces| && h <= MAX_HEADER_SIZE && Spaced(pieces, h)
    requires var o := Run(false, s, t, Concat(pieces[..i])); o.halt.Running? && o.s.nread < h
    ensures Lead(s, t, pieces[..i]) <= MAX_HEADER_SIZE - h
    ensures Reached(Run(false, s, t, Concat(pieces[..i])).s
                      .(nread := Run(false, s, t, Concat(pieces[..i])).s.nread + Lead(s, t, pieces[..i])),
                    Run(false, s, t, Concat(pieces[..i])), Concat(pieces[..i]), Lead(s, t, pieces[..i]))
  {
    hide Run, Lead, ParsingHeader, Concat;
    var lead, k := Lead(s, t, pieces[..i]), MAX_HEADER_SIZE - h;
    LeadSpan(s, t, pieces[..i]);
    RunCount(false, s, t, Concat(pieces[..i]));
    if lead > k {
      assert pieces[..i][..i - lead + 1] == pieces[..i - lead + 1];
      Longer(pieces, i - lead + 1, i - k);
    }
  }

  /** A run that ends within a name or a value leaves room for `slack` bytes more. */
  ghost predicate EndFits(s: Parser, t: seq<Event>, data: string, slack: nat) {
    var o := Run(false, s, t, data);
    o.halt.Running? && IsScan(o.s.state) ==> o.s.nread + slack <= MAX_HEADER_SIZE
  }

  /** No byte of piece `i` is over the limit. */
  lemma SpacedWithin(s: Parser, t: seq<Event>, pieces: seq<string>, i: nat, h: nat, q: nat)
    requires i < |pieces| && h <= MAX_HEADER_SIZE && Spaced(pieces, h) && q <= |pieces[i]|
    requires var o, lead := Run(false, s, t, Concat(pieces[..i])), Lead(s, t, pieces[..i]);
             o.halt.Running? && (o.s.nread < h ==> lead <= MAX_HEADER_SIZE - h)
    requires var done := Concat(pieces[..i]);
             var o := Run(false, s, t, done + pieces[i][..q]);
             o.halt.Running? && o.s.nread < h
    ensures var o, r := Run(false, s, t, Concat(pieces[..i])), Run(false, s, t, Concat(pieces[..i]) + pieces[i][..q]);
            r.s.nread + Kept(o.s, r, q, Lead(s, t, pieces[..i])) < MAX_HEADER_SIZE
  {
    hide Run, Lead, Concat;
  }

  /** Header parts of at most `h` bytes, in pieces of which not too many are too short: the pieces do not show. */
  lemma SpacedFine(s: Parser, t: seq<Event>, pieces: seq<string>, h: nat)
    requires Inv(s) && (forall k :: 0 <= k < |pieces| ==> pieces[k] != [])
    requires h <= MAX_HEADER_SIZE && Spaced(pieces, h) && Clean(s, t, Concat(pieces))
    requires HeadersFit(s, t, Concat(pieces), MAX_HEADER_SIZE - h)
             && EndFits(s, t, Concat(pieces), MAX_HEADER_SIZE - h + 1)
    requires Run(false, s, t, Concat(pieces)).halt.Exited? ==>
               Run(false, s, t, Concat(pieces)).n == |Concat(pieces)|
    ensures AllFine(s, t, pieces)
  {
    hide Run, Clean, HeadersFit, EndFits, Spaced, Concat, Inv, Fine;
    forall i | 0 <= i < |pieces|
      ensures CallFine(s, t, pieces, i)
    {
      var done := Concat(pieces[..i]);
      ConcatAt(pieces, i);
      if Run(false, s, t, done).halt.Running? {
        SpacedCall(s, t, pieces, i, h);
      } else if Run(false, s, t, done).halt.Exited? {
        StopsHere(s, t, done, pieces[i] + Concat(pieces[i + 1..]));
        assert done + (pieces[i] + Concat(pieces[i + 1..])) == Concat(pieces);
        RunCount(false, s, t, done);
      }
    }
  }

  /** A call all of whose header bytes are within the limit with the lead counted in. */
  lemma CallFits(s: Parser, t: seq<Event>, pieces: seq<string>, i: nat)
    requires Inv(s) && i < |pieces| && pieces[i] != [] && Clean(s, t, Concat(pieces))
    requires Run(false, s, t, Concat(pieces[..i])).halt.Running?
    requires var done, piece, lead := Concat(pieces[..i]), pieces[i], Lead(s, t, pieces[..i]);
             var o := Run(false, s, t, done);
             && (forall q | 0 <= q < |piece| ::
                  var r := Run(false, s, t, done + piece[..q]);
                  r.halt.Running? && ParsingHeader(r.s.state) ==>
                    r.s.nread + Kept(o.s, r, q, lead) < MAX_HEADER_SIZE)
             && (ScannedEnd(s, t, done + piece) ==>
                  var r := Run(false, s, t, done + piece);
                  r.s.nread + Kept(o.s, r, |piece|, lead) < MAX_HEADER_SIZE)
    ensures CallFine(s, t, pieces, i)
  {
    hide Run, Clean, Concat, Inv, Jumped, Over, LastScanned, Lead, ParsingHeader, ScannedEnd, Kept;
    var done, piece, rest := Concat(pieces[..i]), pieces[i], Concat(pieces[i + 1..]);
    var o, lead := Run(false, s, t, done), Lead(s, t, pieces[..i]);
    var v := o.s.(nread := o.s.nread + lead);
    ConcatAt(pieces, i);
    LeadSpan(s, t, pieces[..i]);
    RunCount(false, s, t, done);
    InvCore(s);
    RunOk(false, s, t, done);
    forall j: nat
      ensures !Jumped(v, o.trace, piece, j)
    {
      CleanPiece(s, t, done, piece, rest, v, lead, j);
    }
    forall q | 0 <= q < |piece|
      ensures var l := Run(true, v, o.trace, piece[..q]);
              l.halt.Running? && ParsingHeader(l.s.state) ==> l.s.nread + 1 <= MAX_HEADER_SIZE
    {
      LaxFollows(v, o.trace, piece, q);
      PieceRun(s, t, done, piece, q, v, lead);
    }
    if LastScanned(v, o.trace, piece, |piece|) {
      LaxFollows(v, o.trace, piece, |piece|);
      assert piece[..|piece|] == piece;
      PieceRun(s, t, done, piece, |piece|, v, lead);
      PieceScanned(s, t, done, piece, v, lead);
      ScannedState(v, o.trace, piece, |piece|);
    }
    NotOverAtEnd(v, o.trace, piece);
  }

  lemma SpacedCall(s: Parser, t: seq<Event>, pieces: seq<string>, i: nat, h: nat)
    requires Inv(s) && i < |pieces| && pieces[i] != []
    requires h <= MAX_HEADER_SIZE && Spaced(pieces, h) && Clean(s, t, Concat(pieces))
    requires HeadersFit(s, t, Concat(pieces), MAX_HEADER_SIZE - h)
             && EndFits(s, t, Concat(pieces), MAX_HEADER_SIZE - h + 1)
    requires Run(false, s, t, Concat(pieces[..i])).halt.Running?
    ensures CallFine(s, t, pieces, i)
  {
    hide Run, Clean, HeadersFit, EndFits, Spaced, Concat, Inv, Lead, ParsingHeader, ScannedEnd, CallFine;
    var done, piece, rest := Concat(pieces[..i]), pieces[i], Concat(pieces[i + 1..]);
    ConcatAt(pieces, i);
    if Run(false, s, t, done).s.nread < h { SpacedLead(s, t, pieces, i, h); }
    forall q | 0 <= q < |piece| && Run(false, s, t, done + piece[..q]).halt.Running?
               && ParsingHeader(Run(false, s, t, done + piece[..q]).s.state)
      ensures var o, r := Run(false, s, t, done), Run(false, s, t, done + piece[..q]);
              r.s.nread + Kept(o.s, r, q, Lead(s, t, pieces[..i])) < MAX_HEADER_SIZE
    {
      FitsAt(s, t, done, piece, rest, q, h);
      SpacedWithin(s, t, pieces, i, h, q);
    }
    if ScannedEnd(s, t, done + piece) {
      FitsAtEnd(s, t, done, piece, rest, h);
      assert piece[..|piece|] == piece;
      SpacedWithin(s, t, pieces, i, h, |piece|);
    }
    CallFits(s, t, pieces, i);
  }

  lemma FitsAt(s: Parser, t: seq<Event>, done: string, piece: string, rest: string, q: nat, h: nat)
    requires h <= MAX_HEADER_SIZE && q < |piece| && HeadersFit(s, t, done + piece + rest, MAX_HEADER_SIZE - h)
    requires var o := Run(false, s, t, done + piece[..q]); o.halt.Running? && ParsingHeader(o.s.state)
    ensures Run(false, s, t, done + piece[..q]).s.nread < h
  {
    hide Run, ParsingHeader;
    PrefixOf(done, piece, rest, q);
  }

  /** Where a piece ends inside a name or a value, there is room for one byte more. */
  lemma FitsAtEnd(s: Parser, t: seq<Event>, done: string, piece: string, rest: string, h: nat)
    requires h <= MAX_HEADER_SIZE && ScannedEnd(s, t, done + piece)
    requires HeadersFit(s, t, done + piece + rest, MAX_HEADER_SIZE - h)
             && EndFits(s, t, done + piece + rest, MAX_HEADER_SIZE - h + 1)
    ensures Run(false, s, t, done + piece).halt.Running? && Run(false, s, t, done + piece).s.nread < h
  {
    hide Run;
    if rest == [] {
      assert done + piece + rest == done + piece;
    } else {
      assert (done + piece + rest)[..|done + piece|] == done + piece;
    }
  }

  // ----- known texts

  /** What a known text leaves in any pieces: all of it is delivered if and only if all calls are fine. */
  lemma GoesFed(s: Parser, t: seq<Event>, data: string, s': Parser, t': seq<Event>, slack: nat, pieces: seq<string>,
                v: Parser, calls: seq<Event>, n: nat)
    requires Goes(s, t, data, s', t', slack) && s.errno.OK? && Concat(pieces) == data
    requires Fed(v, calls, n, s, t, pieces) && n <= |data|
    ensures s'.errno.OK? && (AllFine(s, t, pieces) <==> v.errno.OK?) && (v.errno.OK? || v.errno.HeaderOverflow?)
    ensures v.errno.OK? ==> n == |data| && Merge(calls) == t' && v == s'.(nread := s'.nread + Lead(s, t, pieces))
  {
    hide Run, Clean, HeadersFit, Merge, AllFine, Short, Lead;
    RunOk(false, s, t, data);
  }

  lemma GoesFine(s: Parser, t: seq<Event>, data: string, s': Parser, t': seq<Event>, pieces: seq<string>, h: nat)
    requires Inv(s) && h <= MAX_HEADER_SIZE && Goes(s, t, data, s', t', MAX_HEADER_SIZE - h) && !IsScan(s'.state)
    requires Concat(pieces) == data && Spaced(pieces, h) && forall k :: 0 <= k < |pieces| ==> pieces[k] != []
    ensures AllFine(s, t, pieces)
  {
    hide Run, Clean, HeadersFit, Spaced, AllFine, Inv;
    SpacedFine(s, t, pieces, h);
  }

  /** A known text in one call. */
  lemma GoesAtOnce(s: Parser, t: seq<Event>, data: string, s': Parser, t': seq<Event>,
                   v: Parser, calls: seq<Event>, n: nat)
    requires Inv(s) && Goes(s, t, data, s', t', 0) && !IsScan(s'.state) && data != []
    requires Executed(v, calls, n, s, t, data)
    ensures !Over(s, t, data) && n == |data| && Merge(calls) == t' && v == s' && s'.errno.OK?
  {
    hide Run, Clean, HeadersFit, Merge, Over, Short, Inv, Jumped, LastScanned, ScannedEnd;
    ConcatOne(data);
    FewAreSpaced([data], MAX_HEADER_SIZE);
    GoesFine(s, t, data, s', t', [data], MAX_HEADER_SIZE);
    assert CallFine(s, t, [data], 0);
    InvCore(s);
    RunOk(false, s, t, data);
    assert [data][..0] == [] && [] + data == data;
    RunEmpty(s, t);
    NoLead(s, t);
    PieceDone(s, t, [], data, s, 0, v, calls, n);
    assert !ScannedEnd(s, t, data) by { EndsUnscanned(s, t, data); }
  }

  lemma EndsUnscanned(s: Parser, t: seq<Event>, data: string)
    requires !IsScan(Run(false, s, t, data).s.state)
    ensures !ScannedEnd(s, t, data)
  {
    hide Run;
  }
}
