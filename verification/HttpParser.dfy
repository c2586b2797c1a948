/** http_parser_execute: the loop over a buffer, with marks, scans, skips and the header limit. */
module HttpParser {
  import opened Bytes
  import opened Trace
  import opened Machine
  import opened Bytewise
  import opened Marks
  import opened Invariant
  import opened Scans
  import opened Limits

  /** The local variables of one call; `s` is what the parser will be when the call returns. */
  datatype Locals = Locals(s: Parser, calls: seq<Event>, marks: Marked, p: nat, halt: Halt)

  ghost predicate MarksFit(st: State, marks: Marked, p: nat) {
    && (if LineState(st) then SameMark(Resume(st), marks) else marks == map[] || marks.Keys == {Body})
    && (forall k :: k in marks ==> marks[k] < p || marks[k] == p == 0)
    && (Body in marks ==> marks[Body] < p)
  }

  /** The header count of a call is exact, but one too many if and only if a scan takes the last byte of the call. */
  ghost function Extra(s: Parser, t: seq<Event>, data: string, p: nat): nat {
    if p == |data| && LastScanned(s, t, data, p) then 1 else 0
  }

  /** After `c.p` bytes the call agrees with the bytes fed one by one. */
  ghost predicate Follows(c: Locals, s: Parser, t: seq<Event>, data: string) {
    && c.halt.Running?
    && c.p <= |data|
    && MarksFit(c.s.state, c.marks, c.p)
    && var o := Run(true, s, t, data[..c.p]);
    && o.halt.Running? && Inv(o.s)
    && c.s == o.s.(nread := c.s.nread) && c.s.nread == o.s.nread + Extra(s, t, data, c.p)
    && Pending(c.calls, c.marks, data, c.p) == o.trace
  }

  /** The same at the top of the loop, where no scan is under way. */
  ghost predicate Tracks(c: Locals, s: Parser, t: seq<Event>, data: string) {
    Follows(c, s, t, data) && (c.p < |data| ==> !LastScanned(s, t, data, c.p))
  }

  /** The callbacks made, short of at most the data under the open mark. */
  ghost predicate Short(calls: seq<Event>, t: seq<Event>) {
    Merge(calls) == t || exists k, bytes :: Push(Merge(calls), Data(k, bytes)) == t
  }

  /** The bytes taken so far are within the limit. */
  ghost predicate Fitting(c: Locals, s: Parser, t: seq<Event>, data: string) {
    c.p <= |data| && Within(s, t, data, c.p, 0)
    && (c.p == |data| && LastScanned(s, t, data, |data|) ==> c.s.nread <= MAX_HEADER_SIZE)
  }

  /** A call stopped by the header limit after `n` bytes, where `q` bytes leave the parser `o.s`. */
  ghost predicate StoppedAt(v: Parser, calls: seq<Event>, n: nat, s: Parser, t: seq<Event>, data: string, q: nat)
    requires n <= |data| && q <= |data|
  {
    var o := Run(true, s, t, data[..q]);
    var ended := q == n < |data| && data[n] == LF && o.s.state.HeaderValue? && LastScanned(s, t, data, n);
    && o.halt.Running? && Short(calls, o.trace)
    && v == o.s.(nread := v.nread, errno := HeaderOverflow, hs := v.hs, state := v.state)
    && v.nread == o.s.nread + 1 + n - q && v.nread > MAX_HEADER_SIZE
    && (if ended then v.state.HeaderAlmostDone? else v.hs == o.s.hs && v.state == o.s.state)
    && (q == n || (q == n + 1 && data[n] == CR) || (q < n == |data| && Scanning(o.s)))
  }

  /** A call stopped by the header limit. */
  ghost predicate OverLimit(v: Parser, calls: seq<Event>, n: nat, s: Parser, t: seq<Event>, data: string) {
    n <= |data| && exists q :: 0 <= q <= |data| && StoppedAt(v, calls, n, s, t, data, q)
  }

  ghost predicate Overran(c: Locals, s: Parser, t: seq<Event>, data: string) {
    c.halt.Failed? && Over(s, t, data) && OverLimit(c.s, c.calls, c.p, s, t, data)
  }

  /** A call that stops where the bytes one by one stop, on an error or on an upgrade. */
  ghost predicate Halted(c: Locals, s: Parser, t: seq<Event>, data: string) {
    var o := Run(true, s, t, data);
    && !c.halt.Running? && c.halt == o.halt && c.p == o.n
    && c.s == o.s.(nread := c.s.nread, hs := c.s.hs)
    && (c.s.hs != o.s.hs ==> c.s.errno.InvalidHeaderToken?)
    && (c.halt.Exited? ==> c.s.nread == o.s.nread && Merge(c.calls) == o.trace)
    && Short(c.calls, o.trace)
  }

  ghost predicate Ended(c: Locals, s: Parser, t: seq<Event>, data: string) {
    Overran(c, s, t, data) || (Halted(c, s, t, data) && !Over(s, t, data))
  }

  lemma PendingIsShort(calls: seq<Event>, marks: Marked, data: string, p: nat)
    requires forall k :: k in marks ==> marks[k] <= p <= |data|
    requires marks == map[] || exists k :: marks.Keys == {k}
    ensures Short(calls, Pending(calls, marks, data, p))
  {
    if marks != map[] {
      var k :| marks.Keys == {k};
      OneMark(marks, k);
      PendingOne(calls, k, marks[k], data, p);
      if marks[k] < p {
        assert Push(Merge(calls), Data(k, data[marks[k]..p])) == Pending(calls, marks, data, p);
      }
    }
  }

  /** Only a byte of a header value can be skipped unchecked. */
  lemma ActUnchecked(s: Parser, ch: char, checked: bool)
    requires s.state.HeaderValue? ==> ch == CR || ch == LF
    ensures Act(s, ch, checked) == Act(s, ch, true)
  {
    hide ActFieldStart, ActField, ActDiscardWs, ActDiscardLws, ActValueStart, ActValueLws, ActAlmostDone,
      ActHeadersAlmostDone, ActHeadersDone, ActMessageDone, ActSpacesBeforeUrl, ActUrl, ActUrlPrefix, ActStatus,
      ActStatusStart, ActStatusCode, ActReqMethod, ActStartReq, ActStartReqOrRes, ActStartRes, ActResOrRespH,
      ActFirstStatusCode, ActChunkSizeAlmostDone, ActChunkSize, ActChunkSizeStart, ActChunkParameters, ActChunkData,
      ActChunkDataAlmostDone, ActChunkDataDone, ActBodyIdentity, Expect, ActMajor, ActMinor, ActDead;
  }

  function Performing(c: Locals, e: Effect, r: Performed): Locals {
    Locals(e.s, r.calls, r.marks, if e.s.errno.OK? then c.p + 1 else c.p,
           if !e.s.errno.OK? then Failed else if e.exits then Exited else Running)
  }

  /** One byte outside of a body, by the switch and by the reference. */
  lemma LineFacts(c: Locals, data: string, s: Parser, t: seq<Event>, e: Effect, r: Performed)
    requires Follows(c, s, t, data) && c.p < |data| && LineState(c.s.state)
    requires c.s.state.HeaderValue? ==> data[c.p] == CR || data[c.p] == LF
    requires e == Act(Counted(c.s), data[c.p], true) && r == Perform(c.calls, c.marks, e.acts, data, c.p)
    ensures var ok := e.s.errno.OK?;
            var o' := Run(true, s, t, data[..c.p + 1]);
            && (forall k :: k in r.marks ==> r.marks[k] <= c.p)
            && SameMark(Left(Resume(c.s.state), e.acts), r.marks)
            && o'.s == e.s && o'.trace == Pending(r.calls, r.marks, data, if ok then c.p + 1 else c.p)
            && o'.n == (if ok then c.p + 1 else c.p)
            && o'.scan == Scanning(c.s)
            && o'.halt == if !ok then Failed else if e.exits then Exited else Running
  {
    hide Act, Run, Emit, Perform, Tame, Left, Pending, Merge, Push, Inv, InStep;
    var o := Run(true, s, t, data[..c.p]);
    RunSnoc(true, s, t, data, c.p);
    ActUnchecked(Counted(c.s), data[c.p], !o.scan);
    assert Tame(Resume(c.s.state), e.acts) by {
      ActInStep(Counted(c.s), data[c.p], true);
      InStepTame(Resume(c.s.state), e);
    }
    PerformEmit(c.calls, c.marks, Resume(c.s.state), e.acts, data, c.p, e.s.errno.OK?);
    RunCount(true, s, t, data[..c.p]);
  }

  lemma InStepTame(live: Live, e: Effect)
    requires InStep(live, e)
    ensures Tame(live, e.acts)
  {
  }

  lemma LineTracks(c: Locals, data: string, s: Parser, t: seq<Event>)
    requires Follows(c, s, t, data) && c.p < |data| && LineState(c.s.state)
    requires c.s.state.HeaderField? ==> !IsToken(data[c.p])
    requires c.s.state.HeaderValue? ==> data[c.p] == CR || data[c.p] == LF
    ensures var e := Act(Counted(c.s), data[c.p], true);
            var c' := Performing(c, e, Perform(c.calls, c.marks, e.acts, data, c.p));
            if c'.halt.Running? then Tracks(c', s, t, data) && !LastScanned(s, t, data, c'.p)
            else Halted(c', s, t, data)
  {
    hide Act, Run, Emit, Perform, Tame, Left, Pending, Merge, Push, Inv, IsToken, LastScanned;
    var e := Act(Counted(c.s), data[c.p], true);
    var r := Perform(c.calls, c.marks, e.acts, data, c.p);
    LineFacts(c, data, s, t, e, r);
    ActInStep(Counted(c.s), data[c.p], true);
    if e.s.errno.OK? && !e.exits {
      LineRuns(c, data, s, t, e, r);
    } else {
      hide Follows, Tracks;
      RunStops(true, s, t, data, c.p + 1);
      PendingIsShort(r.calls, r.marks, data, if e.s.errno.OK? then c.p + 1 else c.p);
      if e.exits { PendingNone(r.calls, data, c.p + 1); }
    }
  }

  lemma LineRuns(c: Locals, data: string, s: Parser, t: seq<Event>, e: Effect, r: Performed)
    requires Follows(c, s, t, data) && c.p < |data| && LineState(c.s.state)
    requires c.s.state.HeaderField? ==> !IsToken(data[c.p])
    requires c.s.state.HeaderValue? ==> data[c.p] == CR || data[c.p] == LF
    requires e == Act(Counted(c.s), data[c.p], true) && e.s.errno.OK? && !e.exits && InStep(Resume(c.s.state), e)
    requires var o' := Run(true, s, t, data[..c.p + 1]);
             && (forall k :: k in r.marks ==> r.marks[k] <= c.p)
             && SameMark(Left(Resume(c.s.state), e.acts), r.marks)
             && o'.s == e.s && o'.trace == Pending(r.calls, r.marks, data, c.p + 1) && o'.halt == Running
    ensures Tracks(Performing(c, e, r), s, t, data) && !LastScanned(s, t, data, c.p + 1)
  {
    hide Act, Run, Emit, Perform, Tame, Left, Pending, Merge, Push, Inv, IsToken, LastScanned, Halted;
    ActSafe(c.s, data[c.p], true);
    FollowsOk(c, data, s, t);
    ScanEnds(Counted(c.s), data[c.p]);
    NotScanned(s, t, data, c.p);
  }

  /** The switch takes no byte of a scan. */
  lemma ScanEnds(s: Parser, ch: char)
    requires s.state.HeaderField? ==> !IsToken(ch)
    requires s.state.HeaderValue? ==> ch == CR || ch == LF
    ensures var e := Act(s, ch, true); IsScan(s.state) && s.errno.OK? && e.s.errno.OK? ==> e.s.state != s.state
  {
    hide IsToken;
    if s.state.HeaderField? { assert Act(s, ch, true) == ActField(s, ch); }
    if s.state.HeaderValue? { assert Act(s, ch, true) == ActValue(s, ch, true); }
  }

  // ----- the loop body

  /** The switch on one byte that has been counted; `was` is the call before the count. */
  method Switch(c: Locals, data: string, ghost was: Locals, ghost s: Parser, ghost t: seq<Event>) returns (c': Locals)
    requires Follows(was, s, t, data) && c == was.(s := Counted(was.s)) && c.p < |data| && LineState(c.s.state)
    requires c.s.state.HeaderField? ==> !IsToken(data[c.p])
    requires c.s.state.HeaderValue? ==> data[c.p] == CR || data[c.p] == LF
    ensures if c'.halt.Running? then Tracks(c', s, t, data) && c'.p == c.p + 1 && !LastScanned(s, t, data, c'.p)
            else Halted(c', s, t, data)
    ensures var e := Act(c.s, data[c.p], true); c'.s == e.s && (c'.halt.Running? <==> e.s.errno.OK? && !e.exits)
    ensures c'.p == if c'.halt.Failed? then c.p else c.p + 1
  {
    hide Act, Perform, Tracks, Halted, Overran, Run, LastScanned;
    var e := Act(c.s, data[c.p], true);
    var r := Perform(c.calls, c.marks, e.acts, data, c.p);
    LineTracks(was, data, s, t);
    c' := Locals(e.s, r.calls, r.marks, if e.s.errno.OK? then c.p + 1 else c.p,
                 if !e.s.errno.OK? then Failed else if e.exits then Exited else Running);
  }

  /** Where a scan that began at `start` stands at `p`: the parser is `v` but for the header count `n`. */
  ghost predicate InScan(
      s: Parser, t: seq<Event>, data: string, start: nat, p: nat, k: DataKind, v: Parser, n: nat)
    requires start <= p <= |data|
  {
    var o := Run(true, s, t, data[..p]);
    && o.halt.Running? && Inv(o.s) && o.s == v.(nread := n) && Resume(v.state) == Live(k)
    && Steady(s, t, data, start, p, v.state)
    && o.trace == Grow(Run(true, s, t, data[..start]).trace, k, data[start..p])
  }

  lemma ScanStarts(c: Locals, data: string, s: Parser, t: seq<Event>, k: DataKind)
    requires Tracks(c, s, t, data) && c.p < |data| && Resume(c.s.state) == Live(k)
    ensures c.halt.Running? && InScan(s, t, data, c.p, c.p, k, Counted(c.s), c.s.nread)
    ensures Run(true, s, t, data[..c.p]).halt.Running? && Short(c.calls, Run(true, s, t, data[..c.p]).trace)
  {
    hide Inv, Run, Short, Pending, Steady;
    SteadyOne(s, t, data, c.p);
    assert data[c.p..c.p] == [];
    assert c.marks.Keys == {k};
    PendingIsShort(c.calls, c.marks, data, c.p);
  }

  /** A scan leaves the marks and the callbacks as they are. */
  lemma ScanFollows(c: Locals, data: string, s: Parser, t: seq<Event>, k: DataKind, p: nat, v: Parser)
    requires Tracks(c, s, t, data) && c.p <= p <= |data| && c.p < |data|
    requires Resume(c.s.state) == Live(k) && v.state == c.s.state && (k == Field || k == Value)
    requires InScan(s, t, data, c.p, p, k, v, c.s.nread + (p - c.p))
    ensures p < |data| ==> Follows(c.(s := v.(nread := c.s.nread + (p - c.p)), p := p), s, t, data)
    ensures p == |data| ==> Tracks(c.(s := v.(nread := c.s.nread + 1 + (p - c.p)), p := p), s, t, data)
    ensures p == |data| ==> LastScanned(s, t, data, |data|)
    ensures Run(true, s, t, data[..c.p]).s.nread == c.s.nread
    ensures Short(c.calls, Run(true, s, t, data[..p]).trace)
  {
    hide Inv, Run, Pending, Grow, Steady, LastScanned, Short;
    assert c.marks.Keys == {k};
    PendingGrows(c.calls, c.marks, k, data, c.p, p);
    PendingIsShort(c.calls, c.marks, data, p);
    if p == |data| { SteadyScanned(s, t, data, c.p, p, v.state); }
  }

  lemma FieldMore(s: Parser, t: seq<Event>, data: string, start: nat, p: nat, v: Parser, n: nat)
    requires start <= p < |data| && IsToken(data[p]) && v.state.HeaderField?
    requires InScan(s, t, data, start, p, Field, v, n)
    ensures InScan(s, t, data, start, p + 1, Field, FieldChar(v, data[p]), n + 1)
  {
    hide Run, Next, FieldChar, Inv, IsToken, Steady;
    var o := Run(true, s, t, data[..p]);
    RunSnoc(true, s, t, data, p);
    assert o.s.errno.OK? by { InvCore(o.s); }
    FieldNext(o, data[p]);
    FieldCharKeepsNread(v, data[p], n + 1);
    GrowTwice(Run(true, s, t, data[..start]).trace, Field, data[start..p], [data[p]]);
    SliceSnoc(data, start, p);
    InvNext(true, o, data[p]);
    SteadyMore(s, t, data, start, p, v.state);
  }

  lemma InvNext(lax: bool, o: Outcome, ch: char)
    requires Inv(o.s)
    ensures Next(lax, o, ch).halt.Failed? || Inv(Next(lax, o, ch).s)
  {
    hide Act, Emit, Inv;
    ActSafe(o.s, ch, !(lax && o.scan));
  }

  /** `Grow` under an open mark. */
  lemma PendingGrows(calls: seq<Event>, marks: Marked, k: DataKind, data: string, p: nat, q: nat)
    requires p <= q <= |data| && marks.Keys == {k} && marks[k] <= p
    ensures Pending(calls, marks, data, q) == Grow(Pending(calls, marks, data, p), k, data[p..q])
  {
    OneMark(marks, k);
    PendingOne(calls, k, marks[k], data, p);
    PendingOne(calls, k, marks[k], data, q);
    GrowTwice(Merge(calls), k, data[marks[k]..p], data[p..q]);
    SliceSplit(data, marks[k], p, q);
  }

  /** A scan that ends beyond the limit, at `p`. */
  lemma ScanOverran(c: Locals, s: Parser, t: seq<Event>, data: string, k: DataKind, p: nat, v: Parser, u: Parser)
    requires Tracks(c, s, t, data) && c.p <= p <= |data| && c.p < |data| && c.s.nread + 1 <= MAX_HEADER_SIZE
    requires Resume(c.s.state) == Live(k) && v.state == c.s.state && (k == Field || k == Value)
    requires InScan(s, t, data, c.p, p, k, v, c.s.nread + (p - c.p))
    requires c.s.nread + 1 + (p - c.p) > MAX_HEADER_SIZE
    requires k == Value && p < |data| ==> data[p] == LF
    requires u == v.(nread := c.s.nread + 1 + (p - c.p), errno := HeaderOverflow, hs := u.hs, state := u.state)
    requires if k == Value && p < |data| then u.state.HeaderAlmostDone? else u.hs == v.hs && u.state == v.state
    ensures Ended(c.(s := u, p := p, halt := Failed), s, t, data)
  {
    hide Run, Short, Inv, Grow, Halted, Steady, LastScanned, Over;
    ScanFollows(c, data, s, t, k, p, v);
    SteadyScanned(s, t, data, c.p, p, v.state);
    InvCore(Run(true, s, t, data[..p]).s);
    if p == |data| {
      assert data[..p] == data;
      OverLast(s, t, data);
    } else if k == Field {
      OverAtTop(s, t, data, p);
    } else {
      OverAtLineEnd(s, t, data, p);
    }
    assert StoppedAt(u, c.calls, p, s, t, data, p);
  }

  /** After the bytes of a scan and one that ends it, the count is that of the bytes one by one. */
  lemma ScanWithin(c: Locals, s: Parser, t: seq<Event>, data: string, q: nat)
    requires Follows(c, s, t, data) && Fitting(c, s, t, data) && c.p < q <= |data|
    requires if ParsingHeader(c.s.state) then c.s.nread + (q - c.p) <= MAX_HEADER_SIZE else q == c.p + 1
    ensures Within(s, t, data, q, 0)
  {
    hide Run, Pending, Inv, Within, LastScanned;
    WithinScan(s, t, data, c.p, q);
  }

  /** What the switch leaves is within the limit if the byte that it took is. */
  lemma SwitchFits(c: Locals, s: Parser, t: seq<Event>, data: string, p: nat)
    requires p < |data| && Within(s, t, data, p + 1, 0) && c.p == (if c.halt.Failed? then p else p + 1)
    requires if c.halt.Running? then Tracks(c, s, t, data) && !LastScanned(s, t, data, c.p) else Halted(c, s, t, data)
    ensures if c.halt.Running? then Fitting(c, s, t, data) else Ended(c, s, t, data)
  {
    hide Run, Pending, Inv, Within, LastScanned, Over, Overran, Tracks;
    if !c.halt.Running? { NotOverAtHalt(s, t, data, p + 1); }
  }

  /** case s_header_field. */
  method ScanField(c: Locals, data: string, ghost s: Parser, ghost t: seq<Event>) returns (c': Locals)
    requires Tracks(c, s, t, data) && Fitting(c, s, t, data)
    requires c.p < |data| && c.s.state.HeaderField? && c.s.nread + 1 <= MAX_HEADER_SIZE
    ensures if c'.halt.Running? then Tracks(c', s, t, data) && Fitting(c', s, t, data) && c'.p > c.p
            else Ended(c', s, t, data)
  {
    hide Act, Perform, Inv, FieldChar, IsToken, Run, Pending, Halted, Short, Grow, InScan, Follows, Tracks, MarksFit,
      Ended, Overran, Fitting, LastScanned;
    var start, p, v := c.p, c.p, Counted(c.s);
    ScanStarts(c, data, s, t, Field);
    while p < |data| && IsToken(data[p])
      invariant start <= p <= |data|
      invariant v == c.s.(nread := c.s.nread + 1, hs := v.hs, index := v.index)
      invariant InScan(s, t, data, start, p, Field, v, c.s.nread + (p - start))
    {
      FieldMore(s, t, data, start, p, v, c.s.nread + (p - start));
      v := FieldChar(v, data[p]);
      p := p + 1;
    }
    ScanFollows(c, data, s, t, Field, p, v);
    ghost var u := v;
    v := v.(nread := v.nread + (p - start));
    if v.nread > MAX_HEADER_SIZE {
      ScanOverran(c, s, t, data, Field, p, u, v.(errno := HeaderOverflow));
      c' := c.(s := v.(errno := HeaderOverflow), p := p, halt := Failed);
    } else if p == |data| {
      c' := c.(s := v, p := p);
      ScanFits(c, s, t, data, c');
    } else {
      c' := Switch(c.(s := v, p := p), data, c.(s := v.(nread := v.nread - 1), p := p), s, t);
      TracksFollows(c, data, s, t);
      ScanWithin(c, s, t, data, p + 1);
      SwitchFits(c', s, t, data, p);
    }
  }

  /** A scan to the end of the buffer. */
  lemma ScanFits(c: Locals, s: Parser, t: seq<Event>, data: string, c': Locals)
    requires Tracks(c, s, t, data) && Fitting(c, s, t, data) && c.p < |data| == c'.p && ParsingHeader(c.s.state)
    requires c'.s.nread == c.s.nread + 1 + (|data| - c.p) <= MAX_HEADER_SIZE
    ensures Fitting(c', s, t, data)
  {
    hide Run, Pending, Inv, Within, LastScanned;
    ScanWithin(c, s, t, data, |data|);
  }

  // ----- case s_header_value

  /** memchr: the first `ch` among the `limit` bytes from `from`, or -1. */
  method Memchr(data: string, ch: char, from: nat, limit: nat) returns (i: int)
    requires from + limit <= |data|
    ensures i == -1 || from <= i < from + limit
    ensures i == -1 ==> ch !in data[from..from + limit]
    ensures i != -1 ==> data[i] == ch && ch !in data[from..i]
  {
    i := from;
    while i < from + limit
      invariant from <= i <= from + limit
      invariant ch !in data[from..i]
    {
      if data[i] == ch { return; }
      i := i + 1;
    }
    i := -1;
  }

  predicate NoLineEnd(data: string, p: nat, q: nat)
    requires p <= q <= |data|
  {
    forall i :: p <= i < q ==> data[i] != CR && data[i] != LF
  }

  /** Where the skip ends: at the next CR or LF, or at the end of the buffer; past a line end only if that lies
      beyond the header limit. */
  method SkipValue(data: string, p: nat) returns (q: nat)
    requires p < |data| && data[p] != CR && data[p] != LF
    ensures p < q <= |data|
    ensures (NoLineEnd(data, p, q) && (q < |data| ==> data[q] == CR || data[q] == LF))
            || (q == |data| && p + MAX_HEADER_SIZE < |data| && NoLineEnd(data, p, p + MAX_HEADER_SIZE))
  {
    var limit := if |data| - p < MAX_HEADER_SIZE then |data| - p else MAX_HEADER_SIZE;
    var cr := Memchr(data, CR, p, limit);
    var lf := Memchr(data, LF, p, limit);
    if cr != -1 {
      q := if lf != -1 && cr >= lf then lf else cr;
      assert CR !in data[p..cr] && (lf == -1 || LF !in data[p..lf]);
      NotIn(data, CR, p, cr);
      NotIn(data, LF, p, if lf == -1 then p + limit else lf);
    } else {
      q := if lf != -1 then lf else |data|;
      NotIn(data, CR, p, p + limit);
      NotIn(data, LF, p, if lf == -1 then p + limit else lf);
    }
  }

  lemma NotIn(data: string, ch: char, a: nat, b: nat)
    requires a <= b <= |data| && ch !in data[a..b]
    ensures forall i :: a <= i < b ==> data[i] != ch
  {
    forall i | a <= i < b
      ensures data[i] != ch
    {
      assert data[a..b][i - a] == data[i];
    }
  }

  /** The byte at `p` will be checked, or ends the line, or does not exist. */
  ghost predicate Fresh(s: Parser, t: seq<Event>, data: string, p: nat)
    requires p <= |data|
  {
    p == |data| || data[p] == CR || data[p] == LF || !Run(true, s, t, data[..p]).scan
  }

  lemma ValueMore(s: Parser, t: seq<Event>, data: string, start: nat, p: nat, v: Parser, n: nat)
    requires start <= p < |data| && data[p] != CR && data[p] != LF && v.state.HeaderValue? && !v.hs.General?
    requires v.lenient || IsHeaderChar(data[p])
    requires InScan(s, t, data, start, p, Value, v, n) && Fresh(s, t, data, p)
    ensures var e := ValueChar(v, data[p]);
            if e.s.errno.OK? then
              InScan(s, t, data, start, p + 1, Value, e.s, n + 1) && Fresh(s, t, data, p + 1)
            else
              ScanFails(s, t, data, start, p, e.s)
  {
    hide Run, Next, ValueChar, Inv, IsHeaderChar, Grow, Steady;
    var o := Run(true, s, t, data[..p]);
    RunSnoc(true, s, t, data, p);
    assert o.s.errno.OK? by { InvCore(o.s); }
    ValueCharKeepsNread(v, data[p], n + 1);
    if ValueChar(v, data[p]).s.errno.OK? {
      ValueNext(o, data[p]);
      GrowTwice(Run(true, s, t, data[..start]).trace, Value, data[start..p], [data[p]]);
      SliceSnoc(data, start, p);
      assert Push(o.trace, Data(Value, [data[p]])) == Grow(o.trace, Value, [data[p]])
        by { GrowOne(o.trace, Value, data[p]); }
      InvNext(true, o, data[p]);
      SteadyMore(s, t, data, start, p, v.state);
    } else {
      ValueFails(o, data[p]);
      RunCount(true, s, t, data[..p]);
      RunStops(true, s, t, data, p + 1);
    }
  }

  lemma GrowOne(t: seq<Event>, k: DataKind, ch: char)
    ensures Push(t, Data(k, [ch])) == Grow(t, k, [ch])
  {
  }

  /** The reference stops at `p` with the parser `v`, but for the header count. */
  ghost predicate ScanFails(s: Parser, t: seq<Event>, data: string, start: nat, p: nat, v: Parser)
    requires start <= p <= |data|
  {
    var o := Run(true, s, t, data);
    && o.halt.Failed? && o.n == p && v == o.s.(nread := v.nread) && Steady(s, t, data, start, p, HeaderValue)
    && o.trace == Grow(Run(true, s, t, data[..start]).trace, Value, data[start..p])
  }

  lemma ValueBad(s: Parser, t: seq<Event>, data: string, start: nat, p: nat, v: Parser, n: nat)
    requires start <= p < |data| && data[p] != CR && data[p] != LF && v.state.HeaderValue?
    requires !v.lenient && !IsHeaderChar(data[p])
    requires InScan(s, t, data, start, p, Value, v, n) && Fresh(s, t, data, p)
    ensures ScanFails(s, t, data, start, p, v.(errno := InvalidHeaderToken))
  {
    hide Run, Next, ValueChar, Inv, IsHeaderChar, Grow, Steady;
    var o := Run(true, s, t, data[..p]);
    RunSnoc(true, s, t, data, p);
    assert o.s.errno.OK? by { InvCore(o.s); }
    ValueFails(o, data[p]);
    RunCount(true, s, t, data[..p]);
    RunStops(true, s, t, data, p + 1);
  }

  lemma ValueSkips(s: Parser, t: seq<Event>, data: string, start: nat, p: nat, q: nat, v: Parser, n: nat)
    requires start <= p < q <= |data| && Scanning(v)
    requires v.lenient || IsHeaderChar(data[p])
    requires forall i :: p <= i < q ==> data[i] != CR && data[i] != LF
    requires InScan(s, t, data, start, p, Value, v, n)
    ensures InScan(s, t, data, start, q, Value, v, n + (q - p)) && Run(true, s, t, data[..q]).scan
  {
    hide Run, Next, Inv, IsHeaderChar, Grow;
    var o := Run(true, s, t, data[..p]);
    assert o.s.errno.OK? by { InvCore(o.s); }
    ScanJump(s, t, data, p, q);
    GrowTwice(Run(true, s, t, data[..start]).trace, Value, data[start..p], data[p..q]);
    SliceSplit(data, start, p, q);
    InvNread(o.s, n + (q - p));
    forall i | p < i <= q
      ensures Run(true, s, t, data[..i]).halt.Running? && Run(true, s, t, data[..i]).s.state == v.state
    {
      ScanJump(s, t, data, p, i);
    }
  }

  lemma InvNread(s: Parser, n: nat)
    requires Inv(s) && !s.state.ChunkSizeStart?
    ensures Inv(s.(nread := n))
  {
    hide FieldState, ValueState, MethodString;
  }

  lemma ScanHalts(c: Locals, s: Parser, t: seq<Event>, data: string, p: nat, v: Parser, hs: HeaderState)
    requires Tracks(c, s, t, data) && Fitting(c, s, t, data)
    requires c.p <= p <= |data| && c.p < |data| && c.s.state.HeaderValue? && c.s.nread + 1 <= MAX_HEADER_SIZE
    requires ScanFails(s, t, data, c.p, p, v) && (hs == v.hs || v.errno.InvalidHeaderToken?)
    ensures Ended(c.(s := v.(hs := hs), p := p, halt := Failed), s, t, data)
  {
    hide Run, Inv, Pending, Grow, Short, Overran, Steady, Over, Within, LastScanned;
    PendingGrows(c.calls, c.marks, Value, data, c.p, p);
    PendingIsShort(c.calls, c.marks, data, p);
    ScanWithin(c, s, t, data, c.p + 1);
    RunCount(true, s, t, data);
    NotOverAtError(s, t, data, c.p, p);
  }

  lemma ValueStarts(c: Locals, data: string, s: Parser, t: seq<Event>)
    requires Tracks(c, s, t, data) && c.p < |data| && c.s.state.HeaderValue?
    ensures c.halt.Running? && InScan(s, t, data, c.p, c.p, Value, Counted(c.s), c.s.nread)
    ensures Fresh(s, t, data, c.p) && c.s.errno.OK?
  {
    hide Run, Inv, Short, Pending, InScan, LastScanned;
    ScanStarts(c, data, s, t, Value);
    InvCore(Run(true, s, t, data[..c.p]).s);
    NotScannedChecked(s, t, data, c.p);
  }

  /** At the top of the loop a byte of a value is checked. */
  lemma NotScannedChecked(s: Parser, t: seq<Event>, data: string, p: nat)
    requires p <= |data| && !LastScanned(s, t, data, p)
    requires Run(true, s, t, data[..p]).halt.Running? && Run(true, s, t, data[..p]).s.state.HeaderValue?
    ensures !Run(true, s, t, data[..p]).scan
  {
    hide Next;
    if p > 0 {
      RunSnoc(true, s, t, data, p - 1);
      hide Run;
      var o := Run(true, s, t, data[..p - 1]);
      NextScan(o, data[p - 1]);
      assert o.s.state.HeaderValue? && o.halt.Running? ==> Steady(s, t, data, p - 1, p, HeaderValue);
    }
  }

  lemma NextScan(o: Outcome, ch: char)
    ensures Next(true, o, ch).scan == Scanning(o.s)
  {
  }

  /** The skip over a value that no matcher follows.  `z` is a byte beyond the limit whenever the skip goes further
      than the next line end. */
  method Skip(data: string, start: nat, p: nat, v: Parser, ghost n: nat, ghost s: Parser, ghost t: seq<Event>)
    returns (q: nat, ghost far: bool, ghost z: nat)
    requires start <= p < |data| && data[p] != CR && data[p] != LF && Scanning(v)
             && (v.lenient || IsHeaderChar(data[p]))
    requires InScan(s, t, data, start, p, Value, v, n)
    ensures p < q <= |data|
    ensures if far then
              q == |data| && p < z < |data| && z - p >= MAX_HEADER_SIZE
              && InScan(s, t, data, start, z, Value, v, n + (z - p)) && Run(true, s, t, data[..z]).scan
            else InScan(s, t, data, start, q, Value, v, n + (q - p)) && Fresh(s, t, data, q)
  {
    hide Inv, Run, IsHeaderChar, InScan;
    q := SkipValue(data, p);
    far := !(NoLineEnd(data, p, q) && (q < |data| ==> data[q] == CR || data[q] == LF));
    z := if far then p + MAX_HEADER_SIZE else q;
    ValueSkips(s, t, data, start, p, z, v, n);
  }

  /** Past the limit nothing in the skip is an error. */
  lemma SkipGoesOn(s: Parser, t: seq<Event>, data: string, z: nat)
    requires 0 < z < |data| && Run(true, s, t, data).halt.Failed?
    requires var o := Run(true, s, t, data[..z]); o.halt.Running? && o.s.errno.OK? && Scanning(o.s) && o.scan
    ensures !Excused(s, t, data, z)
  {
    hide Run, IsHeaderChar, Grow;
    var e := Run(true, s, t, data).n;
    RunCount(true, s, t, data);
    if Excused(s, t, data, z) {
      forall i | z <= i < e
        ensures data[i] != CR && data[i] != LF
      {
        if (data[i] == CR || data[i] == LF) && Run(true, s, t, data[..i]).s.errno.OK? { LineEndStops(s, t, data, i); }
        assert Run(true, s, t, data[..i]).s.errno.OK? by { RunningOk(s, t, data, z, i); }
      }
      if z < e { ScanJump(s, t, data, z, e); }
      SkipNext(s, t, data, e);
      RunKeeps(s, t, data, e + 1);
      RunCount(true, s, t, data[..e + 1]);
      assert false;
    }
  }

  lemma {:induction false} RunningOk(s: Parser, t: seq<Event>, data: string, z: nat, i: nat)
    requires z <= i <= |data| && Run(true, s, t, data[..z]).s.errno.OK? && Run(true, s, t, data[..i]).halt.Running?
    ensures Run(true, s, t, data[..i]).s.errno.OK?
    decreases i
  {
    hide Act, Emit;
    if z < i {
      RunSnoc(true, s, t, data, i - 1);
      RunningOk(s, t, data, z, i - 1);
    }
  }

  lemma SkipNext(s: Parser, t: seq<Event>, data: string, e: nat)
    requires e < |data|
    requires var o := Run(true, s, t, data[..e]); o.halt.Running? && o.s.errno.OK? && Scanning(o.s) && o.scan
    ensures Run(true, s, t, data[..e + 1]).halt.Running?
  {
    hide Run, IsHeaderChar;
    var o := Run(true, s, t, data[..e]);
    if data[e] == CR || data[e] == LF {
      LineEndStops(s, t, data, e);
    } else {
      hide Next;
      RunSnoc(true, s, t, data, e);
      ValueNext(o, data[e]);
    }
  }

  /** The skip went beyond the limit. */
  lemma SkipOverran(c: Locals, s: Parser, t: seq<Event>, data: string, z: nat, v: Parser, u: Parser)
    requires Tracks(c, s, t, data) && c.p < z < |data| && c.s.state.HeaderValue? && v.state.HeaderValue? && Scanning(v)
    requires InScan(s, t, data, c.p, z, Value, v, c.s.nread + (z - c.p)) && Run(true, s, t, data[..z]).scan
    requires c.s.nread + (z - c.p) >= MAX_HEADER_SIZE
    requires u == v.(nread := c.s.nread + 1 + (|data| - c.p), errno := HeaderOverflow)
    ensures Ended(c.(s := u, p := |data|, halt := Failed), s, t, data)
  {
    hide Run, Short, Inv, Grow, Halted, Steady, LastScanned, Excused;
    ScanFollows(c, data, s, t, Value, z, v);
    InvCore(Run(true, s, t, data[..z]).s);
    assert !Excused(s, t, data, z) by {
      if Run(true, s, t, data).halt.Failed? { SkipGoesOn(s, t, data, z); } else { NotExcused(s, t, data, z); }
    }
    assert OverAt(s, t, data, z);
    assert StoppedAt(u, c.calls, |data|, s, t, data, z);
  }

  lemma NotExcused(s: Parser, t: seq<Event>, data: string, z: nat)
    requires !Run(true, s, t, data).halt.Failed?
    ensures !Excused(s, t, data, z)
  {
    hide Run;
  }

  lemma CrOverran(c: Locals, s: Parser, t: seq<Event>, data: string, p: nat, v: Parser, n: nat, start: nat)
    requires start <= p < |data| && c.p == p + 1 && Tracks(c, s, t, data) && !LastScanned(s, t, data, c.p)
    requires c.s.state.HeaderAlmostDone? && data[p] == CR && c.s.nread == n + 1 > MAX_HEADER_SIZE
    requires InScan(s, t, data, start, p, Value, v, n) && v.state.HeaderValue?
    ensures Ended(c.(s := c.s.(errno := HeaderOverflow), p := p, halt := Failed), s, t, data)
  {
    hide Run, Inv, Short, Pending, Halted, Grow, LastScanned, Steady, Over;
    PendingIsShort(c.calls, c.marks, data, p + 1);
    InvCore(Run(true, s, t, data[..p]).s);
    OverAtLineEnd(s, t, data, p);
    assert StoppedAt(c.s.(errno := HeaderOverflow), c.calls, p, s, t, data, p + 1);
  }

  lemma CrEnds(s: Parser)
    requires s.state.HeaderValue?
    ensures Act(s, CR, true) == Effect(s.(state := HeaderAlmostDone), [Deliver(Value)], false)
  {
  }

  /** After the scan: count its bytes, and let the switch take the end of the line. */
  method EndValue(c: Locals, data: string, p: nat, v: Parser, ghost s: Parser, ghost t: seq<Event>, ghost far: bool,
                  ghost z: nat)
    returns (c': Locals)
    requires Tracks(c, s, t, data) && Fitting(c, s, t, data)
    requires c.p < |data| && c.s.state.HeaderValue? && c.p <= p <= |data| && c.s.nread + 1 <= MAX_HEADER_SIZE
    requires v.nread == c.s.nread + 1 && v.state == c.s.state && v.errno.OK?
    requires if far then
               p == |data| && c.p < z < |data| && z - c.p >= MAX_HEADER_SIZE && Scanning(v)
               && InScan(s, t, data, c.p, z, Value, v, c.s.nread + (z - c.p)) && Run(true, s, t, data[..z]).scan
             else InScan(s, t, data, c.p, p, Value, v, c.s.nread + (p - c.p))
    requires p < |data| ==> data[p] == CR || data[p] == LF
    ensures if c'.halt.Running? then Tracks(c', s, t, data) && Fitting(c', s, t, data) && c'.p > c.p
            else Ended(c', s, t, data)
  {
    hide Act, Perform, Inv, Run, Pending, Halted, Short, Grow, InScan, Follows, Tracks, MarksFit, Ended, Overran,
        Fitting,
      LastScanned;
    var n := v.nread + (p - c.p);
    ValueStarts(c, data, s, t);
    if !far { ScanFollows(c, data, s, t, Value, p, v); }
    if n > MAX_HEADER_SIZE && p == |data| {
      c' := c.(s := v.(nread := n, errno := HeaderOverflow), p := p, halt := Failed);
      if far { SkipOverran(c, s, t, data, z, v, c'.s); } else { ScanOverran(c, s, t, data, Value, p, v, c'.s); }
    } else if n > MAX_HEADER_SIZE && data[p] == LF {
      c' := c.(s := v.(nread := n, errno := HeaderOverflow, hs := c.s.hs, state := HeaderAlmostDone), p := p,
               halt := Failed);
      ScanOverran(c, s, t, data, Value, p, v, c'.s);
    } else if p == |data| {
      c' := c.(s := v.(nread := n), p := p);
      ScanFits(c, s, t, data, c');
    } else {
      c' := Switch(c.(s := v.(nread := n), p := p), data, c.(s := v.(nread := n - 1), p := p), s, t);
      if n > MAX_HEADER_SIZE {
        CrEnds(v.(nread := n));
        CrOverran(c', s, t, data, p, v, n - 1, c.p);
        c' := c'.(s := c'.s.(errno := HeaderOverflow), p := p, halt := Failed);
      } else {
        TracksFollows(c, data, s, t);
        ScanWithin(c, s, t, data, p + 1);
        SwitchFits(c', s, t, data, p);
      }
    }
  }

  /** case s_header_value.  The matcher state is kept in a local until the scan ends. */
  method ScanValue(c: Locals, data: string, ghost s: Parser, ghost t: seq<Event>) returns (c': Locals)
    requires Tracks(c, s, t, data) && Fitting(c, s, t, data)
    requires c.p < |data| && c.s.state.HeaderValue? && c.s.nread + 1 <= MAX_HEADER_SIZE
    ensures if c'.halt.Running? then Tracks(c', s, t, data) && Fitting(c', s, t, data) && c'.p > c.p
            else Ended(c', s, t, data)
  {
    hide Act, Perform, Inv, ValueChar, IsHeaderChar, Run, Pending, Short, Grow, InScan, Follows, Tracks, Halted,
      MarksFit, Ended, Overran, Fresh, ScanFails, Fitting;
    var start, p, v := c.p, c.p, Counted(c.s);
    ValueStarts(c, data, s, t);
    ghost var far, z: nat := false, start;
    while p < |data| && data[p] != CR && data[p] != LF
      invariant start <= p <= |data|
      invariant v.nread == c.s.nread + 1 && v.state == c.s.state && v.errno.OK?
      invariant if far then
                  p == |data| && c.p < z < |data| && z - c.p >= MAX_HEADER_SIZE && Scanning(v)
                  && InScan(s, t, data, c.p, z, Value, v, c.s.nread + (z - c.p)) && Run(true, s, t, data[..z]).scan
                else InScan(s, t, data, start, p, Value, v, c.s.nread + (p - start)) && Fresh(s, t, data, p)
      decreases |data| - p
    {
      if !v.lenient && !IsHeaderChar(data[p]) {
        ValueBad(s, t, data, start, p, v, c.s.nread + (p - start));
        c' := c.(s := v.(errno := InvalidHeaderToken, hs := c.s.hs), p := p, halt := Failed);
        ScanHalts(c, s, t, data, p, v.(errno := InvalidHeaderToken), c.s.hs);
        return;
      }
      if v.hs.General? {
        p, far, z := Skip(data, start, p, v, c.s.nread + (p - start), s, t);
      } else {
        ValueMore(s, t, data, start, p, v, c.s.nread + (p - start));
        var e := ValueChar(v, data[p]);
        if !e.s.errno.OK? {
          c' := c.(s := e.s, p := p, halt := Failed);
          ScanHalts(c, s, t, data, p, e.s, e.s.hs);
          return;
        }
        v, p := e.s, p + 1;
      }
    }
    c' := EndValue(c, data, p, v, s, t, far, z);
  }

  // ----- bodies

  /** The mark a body byte adds to: the one this call has open, or none. */
  function BodyMark(marks: Marked): Live { if Body in marks then Live(Body) else NoMark }

  /** The last byte of a counted body, and the byte after a chunk. */
  predicate BodyEnd(s: Parser) {
    s.state.ChunkDataAlmostDone? || ((s.state.ChunkData? || s.state.BodyIdentity?) && s.contentLength == 1)
  }

  lemma BodyEndActs(s: Parser, ch: char, checked: bool)
    requires BodyEnd(s) && s.errno.OK?
    ensures var e := Act(s, ch, checked);
            e == Act(s, ch, true)
            && if s.state.ChunkDataAlmostDone? then
                 (if ch == CR then e == Effect(s.(state := ChunkDataDone), [Deliver(Body)], false)
                  else e == Effect(s.(errno := Strict), [], false))
               else if s.state.ChunkData? then
                 e == Effect(s.(contentLength := 0, state := ChunkDataAlmostDone), [Mark(Body)], false)
               else
                 e.acts == [Mark(Body), DeliverThrough(Body), Tell(MessageComplete)] && e.s.errno.OK?
                 && e.s.state in {Dead, StartReq, StartRes}
  {
    if s.state.BodyIdentity? {
      assert Act(s, ch, checked) == ActBodyIdentity(s);
    }
  }

  /** The shapes of the actions at the end of a body. */
  ghost predicate BodyActs(acts: seq<Action>) {
    acts == [] || acts == [Mark(Body)] || acts == [Deliver(Body)]
    || acts == [Mark(Body), DeliverThrough(Body), Tell(MessageComplete)]
  }

  lemma BodyTame(live: Live, acts: seq<Action>)
    requires BodyActs(acts) && (live.NoMark? || live == Live(Body))
    ensures Tame(live, acts)
    ensures acts == [] ==> Left(live, acts) == live
    ensures acts == [Mark(Body)] ==> Left(live, acts) == Live(Body)
    ensures acts == [Deliver(Body)] || |acts| == 3 ==> Left(live, acts).NoMark?
  {
    if |acts| == 3 {
      assert acts[1..] == [DeliverThrough(Body), Tell(MessageComplete)];
      assert acts[1..][1..] == [Tell(MessageComplete)];
      assert Tame(NoMark, [Tell(MessageComplete)]) && Left(NoMark, [Tell(MessageComplete)]).NoMark?;
      assert Tame(Live(Body), acts[1..]) && Left(Live(Body), acts[1..]).NoMark?;
    }
  }

  /** A body mark kept open from earlier bytes makes no difference to the merged callbacks. */
  lemma EmitBody(calls: seq<Event>, marks: Marked, data: string, p: nat, acts: seq<Action>, ok: bool)
    requires p < |data| && BodyActs(acts) && (ok || acts == [])
    requires marks == map[] || marks.Keys == {Body}
    requires Body in marks ==> marks[Body] < p
    requires acts == [] ==> !ok
    ensures Emit(Pending(calls, marks, data, p), BodyMark(marks), acts, data[p], ok)
         == Emit(Pending(calls, marks, data, p), NoMark, acts, data[p], ok)
  {
    hide Pending, Push, Merge;
    var t := Pending(calls, marks, data, p);
    if Body in marks && acts == [Deliver(Body)] {
      OneMark(marks, Body);
      PendingOne(calls, Body, marks[Body], data, p);
      PushEmpty(Merge(calls), Body, data[marks[Body]..p]);
      assert acts[1..] == [];
      assert Emit(t, Live(Body), acts, data[p], ok) == Emit(Push(t, Data(Body, [])), NoMark, [], data[p], ok);
      assert Emit(t, NoMark, acts, data[p], ok) == Emit(t, NoMark, [], data[p], ok);
    } else if Body in marks && acts != [] {
      assert Emit(t, Live(Body), acts, data[p], ok) == Emit(t, Live(Body), acts[1..], data[p], ok);
      assert Emit(t, NoMark, acts, data[p], ok) == Emit(t, Live(Body), acts[1..], data[p], ok);
    }
  }

  lemma BodyEndFacts(c: Locals, data: string, s: Parser, t: seq<Event>, e: Effect, r: Performed)
    requires Follows(c, s, t, data) && c.p < |data| && BodyEnd(c.s)
    requires e == Act(c.s, data[c.p], true) && r == Perform(c.calls, c.marks, e.acts, data, c.p)
    ensures var ok := e.s.errno.OK?;
            var o' := Run(true, s, t, data[..c.p + 1]);
            && (forall k :: k in r.marks ==> r.marks[k] <= c.p)
            && SameMark(Left(BodyMark(c.marks), e.acts), r.marks)
            && o'.s == e.s && o'.trace == Pending(r.calls, r.marks, data, if ok then c.p + 1 else c.p)
            && o'.n == (if ok then c.p + 1 else c.p)
            && o'.halt == if !ok then Failed else if e.exits then Exited else Running
  {
    hide Act, Run, Inv, Push, Merge, Pending, Perform, Emit, Tame, Left;
    var o := Run(true, s, t, data[..c.p]);
    var live := BodyMark(c.marks);
    RunSnoc(true, s, t, data, c.p);
    RunCount(true, s, t, data[..c.p]);
    assert c.s.errno.OK? by { InvCore(o.s); }
    BodyEndActs(c.s, data[c.p], !o.scan);
    BodyTame(live, e.acts);
    PerformEmit(c.calls, c.marks, live, e.acts, data, c.p, e.s.errno.OK?);
    EmitBody(c.calls, c.marks, data, c.p, e.acts, e.s.errno.OK?);
  }

  lemma BodyEndRuns(c: Locals, data: string, s: Parser, t: seq<Event>, e: Effect, r: Performed)
    requires Follows(c, s, t, data) && c.p < |data| && BodyEnd(c.s)
    requires e == Act(c.s, data[c.p], true) && e.s.errno.OK? && !e.exits
    requires BodyActs(e.acts) && SameMark(Left(BodyMark(c.marks), e.acts), r.marks)
    requires LineState(e.s.state) ==> Resume(e.s.state).NoMark? && Left(BodyMark(c.marks), e.acts).NoMark?
    requires forall k :: k in r.marks ==> r.marks[k] <= c.p
    requires var o' := Run(true, s, t, data[..c.p + 1]);
             o'.s == e.s && o'.halt.Running? && o'.trace == Pending(r.calls, r.marks, data, c.p + 1)
    ensures Tracks(Performing(c, e, r), s, t, data) && !LastScanned(s, t, data, c.p + 1)
  {
    hide Act, Run, Pending, Inv, LineState, BodyEnd, Halted, Ended, Overran, LastScanned;
    BodySafeNext(c, data, s, t);
    assert !LastScanned(s, t, data, c.p + 1) by { BodyNotScanned(c, data, s, t); }
    BodyTame(BodyMark(c.marks), e.acts);
    BodyNotValue(c.s, data[c.p]);
  }

  lemma BodyNotScanned(c: Locals, data: string, s: Parser, t: seq<Event>)
    requires Follows(c, s, t, data) && c.p < |data| && BodyEnd(c.s)
    ensures !LastScanned(s, t, data, c.p + 1)
  {
    hide Run, Pending, Inv, LastScanned;
    NotScanned(s, t, data, c.p);
  }

  lemma BodyNotValue(s: Parser, ch: char)
    requires BodyEnd(s)
    ensures !Act(s, ch, true).s.state.HeaderValue? && !Act(s, ch, true).s.state.HeaderField?
  {
    hide ActMessageDone, NewMessage;
    assert Act(s, ch, true).s.state.HeaderValue? || Act(s, ch, true).s.state.HeaderField? ==> s.state.BodyIdentity?;
    if s.state.BodyIdentity? { BodyIdentityNext(s); }
  }

  lemma BodyIdentityNext(s: Parser)
    requires s.state.BodyIdentity? && s.contentLength == 1
    ensures ActBodyIdentity(s).s.state in {Dead, StartReq, StartRes}
  {
  }

  lemma BodyEndHalts(c: Locals, data: string, s: Parser, t: seq<Event>, e: Effect, r: Performed)
    requires c.p < |data| && (!e.s.errno.OK? || e.exits)
    requires r.marks == map[] || exists k :: r.marks.Keys == {k}
    requires e.s.errno.OK? ==> r.marks == map[]
    requires forall k :: k in r.marks ==> r.marks[k] <= c.p
    requires var ok := e.s.errno.OK?;
             var o' := Run(true, s, t, data[..c.p + 1]);
             && o'.s == e.s && o'.trace == Pending(r.calls, r.marks, data, if ok then c.p + 1 else c.p)
             && o'.n == (if ok then c.p + 1 else c.p)
             && o'.halt == (if !ok then Failed else if e.exits then Exited else Running)
    ensures Halted(Performing(c, e, r), s, t, data)
  {
    hide Run, Pending, Short, Merge;
    RunStops(true, s, t, data, c.p + 1);
    PendingIsShort(r.calls, r.marks, data, if e.s.errno.OK? then c.p + 1 else c.p);
    if e.exits { PendingNone(r.calls, data, c.p + 1); }
  }

  lemma BodyEndTracks(c: Locals, data: string, s: Parser, t: seq<Event>)
    requires Follows(c, s, t, data) && c.p < |data| && BodyEnd(c.s)
    ensures var e := Act(c.s, data[c.p], true);
            var c' := Performing(c, e, Perform(c.calls, c.marks, e.acts, data, c.p));
            if c'.halt.Running? then Tracks(c', s, t, data) && !LastScanned(s, t, data, c'.p)
            else Halted(c', s, t, data)
  {
    hide Act, Run, Emit, Perform, Tame, Left, Pending, Merge, Push, Inv, Follows, Tracks, Halted, LastScanned;
    var e := Act(c.s, data[c.p], true);
    MarksBounded(c, data, s, t);
    var r := Perform(c.calls, c.marks, e.acts, data, c.p);
    BodyEndFacts(c, data, s, t, e, r);
    FollowsOk(c, data, s, t);
    BodyEndActs(c.s, data[c.p], true);
    BodyTame(BodyMark(c.marks), e.acts);
    BodyEndLine(c.s, data[c.p]);
    hide BodyEnd, BodyActs, LineState, BodyMark, Resume;
    if e.s.errno.OK? && !e.exits {
      BodyEndRuns(c, data, s, t, e, r);
    } else {
      BodyEndHalts(c, data, s, t, e, r);
    }
  }

  lemma BodyEndLine(s: Parser, ch: char)
    requires BodyEnd(s) && s.errno.OK?
    ensures var e := Act(s, ch, true);
            && BodyActs(e.acts)
            && (e.s.errno.OK? && !e.exits && LineState(e.s.state) ==>
                  Resume(e.s.state).NoMark? && e.acts != [] && e.acts != [Mark(Body)])
  {
    hide Act;
    BodyEndActs(s, ch, true);
  }

  lemma FollowsOk(c: Locals, data: string, s: Parser, t: seq<Event>)
    requires Follows(c, s, t, data)
    ensures c.s.errno.OK?
  {
    hide Inv, Run, Pending;
    InvCore(Run(true, s, t, data[..c.p]).s);
  }

  lemma BodySafeNext(c: Locals, data: string, s: Parser, t: seq<Event>)
    requires Follows(c, s, t, data) && c.p < |data| && BodyEnd(c.s)
    ensures Safe(Act(c.s, data[c.p], true))
  {
    hide Act, Run, Inv, Pending;
    ActSafe(Run(true, s, t, data[..c.p]).s, data[c.p], true);
  }

  /** MARK(body): the mark of this call, set where the body bytes begin. */
  function MarkBody(marks: Marked, p: nat): Marked { if Body in marks then marks else marks[Body := p] }

  lemma BodyFollows(c: Locals, data: string, s: Parser, t: seq<Event>, q: nat)
    requires Tracks(c, s, t, data) && c.p < q <= |data| && InBody(c.s, q - c.p)
    ensures Tracks(c.(s := BodyLess(c.s, q - c.p), marks := MarkBody(c.marks, c.p), p := q), s, t, data)
  {
    hide Run, Pending, Inv, Grow, Merge;
    var o := Run(true, s, t, data[..c.p]);
    var marks := MarkBody(c.marks, c.p);
    assert o.s.errno.OK? by { InvCore(o.s); }
    BodyJump(true, s, t, data, c.p, q);
    if Body !in c.marks {
      PendingNone(c.calls, data, c.p);
      PendingOne(c.calls, Body, c.p, data, c.p);
      assert data[c.p..c.p] == [];
      assert Grow(Merge(c.calls), Body, []) == Merge(c.calls) by { GrowNone(Merge(c.calls), Body); }
    }
    PendingGrows(c.calls, marks, Body, data, c.p, q);
    assert |data[c.p..q]| == q - c.p;
    BodyLessSafe(o.s, q - c.p);
  }

  /** Body bytes are not counted. */
  lemma BodyFits(c: Locals, s: Parser, t: seq<Event>, data: string, q: nat, c': Locals)
    requires Tracks(c, s, t, data) && c.p < q <= |data| && InBody(c.s, q - c.p) && Fitting(c, s, t, data) && c'.p == q
    ensures Fitting(c', s, t, data)
  {
    hide Run, Pending, Inv, Grow, Merge, LastScanned;
    var o := Run(true, s, t, data[..c.p]);
    assert o.s.errno.OK? by { InvCore(o.s); }
    forall i | c.p < i <= q
      ensures !ParsingHeader(Run(true, s, t, data[..i]).s.state)
    {
      BodyJump(true, s, t, data, c.p, i);
      assert |data[c.p..i]| == i - c.p;
    }
    if LastScanned(s, t, data, q) { ScannedState(s, t, data, q); }
  }

  lemma GrowNone(t: seq<Event>, k: DataKind)
    ensures Grow(t, k, []) == t
  {
  }

  lemma BodyLessSafe(s: Parser, n: nat)
    requires Inv(s) && InBody(s, n)
    ensures Inv(BodyLess(s, n))
  {
    hide FieldState, ValueState, MethodString;
  }

  /** case s_body_identity, s_body_identity_eof, s_chunk_data and s_chunk_data_almost_done.  The last byte of a
      counted body is seen by the switch, as in the source. */
  method ScanBody(c: Locals, data: string, ghost s: Parser, ghost t: seq<Event>) returns (c': Locals)
    requires Tracks(c, s, t, data) && Fitting(c, s, t, data) && c.p < |data| && !LineState(c.s.state)
    ensures if c'.halt.Running? then Tracks(c', s, t, data) && Fitting(c', s, t, data) && c'.p > c.p
            else Ended(c', s, t, data)
  {
    hide Act, Perform, Run, Pending, Halted, Overran, Fitting, LastScanned;
    var toRead := if c.s.state.BodyIdentityEof? || |data| - c.p < c.s.contentLength then |data| - c.p
                  else c.s.contentLength;
    BodyLengths(c, data, s, t);
    hide Tracks, Follows, Inv;
    c' := c;
    if !c.s.state.ChunkDataAlmostDone? {
      assert toRead > 0;
      var q := if InBody(c.s, toRead) then c.p + toRead else c.p + toRead - 1;
      if c.p < q {
        BodyFollows(c, data, s, t, q);
        c' := c.(s := BodyLess(c.s, q - c.p), marks := MarkBody(c.marks, c.p), p := q);
        BodyFits(c, s, t, data, q, c');
      }
      if q == c.p + toRead { return; }
    }
    ghost var b := c';
    assert Follows(b, s, t, data) by { TracksFollows(b, data, s, t); }
    BodyEndTracks(b, data, s, t);
    var e := Act(c'.s, data[c'.p], true);
    MarksBounded(c', data, s, t);
    var r := Perform(c'.calls, c'.marks, e.acts, data, c'.p);
    c' := Locals(e.s, r.calls, r.marks, if e.s.errno.OK? then c'.p + 1 else c'.p,
                 if !e.s.errno.OK? then Failed else if e.exits then Exited else Running);
    ScanWithin(b, s, t, data, b.p + 1);
    SwitchFits(c', s, t, data, b.p);
  }

  lemma TracksFollows(c: Locals, data: string, s: Parser, t: seq<Event>)
    requires Tracks(c, s, t, data)
    ensures Follows(c, s, t, data)
  {
  }

  lemma MarksBounded(c: Locals, data: string, s: Parser, t: seq<Event>)
    requires Follows(c, s, t, data)
    ensures forall k :: k in c.marks ==> c.marks[k] <= c.p
  {
    hide Inv;
  }

  lemma BodyLengths(c: Locals, data: string, s: Parser, t: seq<Event>)
    requires Tracks(c, s, t, data) && !LineState(c.s.state)
    ensures c.halt.Running? && c.s.errno.OK?
    ensures c.s.state.ChunkData? || c.s.state.BodyIdentity? ==> c.s.contentLength > 0
  {
    hide Pending, Run, FieldState, ValueState;
  }

  // ----- the parser

  /** At most one mark is open when the bytes run out: its data is delivered then. */
  method Flush(calls: seq<Event>, marks: Marked, data: string) returns (calls': seq<Event>)
    requires forall k :: k in marks ==> marks[k] < |data|
    requires marks == map[] || exists k :: marks.Keys == {k}
    ensures |marks| <= 1
    ensures Merge(calls') == Pending(calls, marks, data, |data|)
  {
    hide Merge, Push;
    calls' := calls;
    if marks != map[] {
      ghost var k :| marks.Keys == {k};
      OneMark(marks, k);
      PendingOne(calls, k, marks[k], data, |data|);
      MergeSnoc(calls, Data(k, data[marks[k]..]));
      assert data[marks[k]..] == data[marks[k]..|data|] != [];
    }
    if Field in marks { calls' := calls' + [Data(Field, data[marks[Field]..])]; }
    if Value in marks { calls' := calls' + [Data(Value, data[marks[Value]..])]; }
    if Url in marks { calls' := calls' + [Data(Url, data[marks[Url]..])]; }
    if Body in marks { calls' := calls' + [Data(Body, data[marks[Body]..])]; }
    if Status in marks { calls' := calls' + [Data(Status, data[marks[Status]..])]; }
  }

  class HttpParser {
    var kind: Kind
    var flags: Flags
    var state: State
    var hs: HeaderState
    var index: nat
    var lenient: bool
    var nread: nat
    var contentLength: nat
    var major: nat
    var minor: nat
    var status: nat
    var verb: Method
    var errno: Errno
    var upgrade: bool
    /** The callbacks made so far, as the program sees them. */
    var calls: seq<Event>

    function View(): Parser
      reads this
    {
      Parser(kind, flags, state, hs, index, lenient, nread, contentLength, major, minor, status, verb, errno, upgrade)
    }

    ghost predicate Valid()
      reads this
    {
      errno.OK? ==> Inv(View())
    }

    /** http_parser_init. */
    constructor (kind: Kind, lenient: bool)
      ensures Valid() && View() == Init(kind, lenient) && calls == []
    {
      hide Inv;
      var s := Init(kind, lenient);
      this.kind, flags, state, hs, index, this.lenient := s.kind, s.flags, s.state, s.hs, s.index, s.lenient;
      nread, contentLength, major, minor, status := s.nread, s.contentLength, s.major, s.minor, s.status;
      verb, errno, upgrade, calls := s.verb, s.errno, s.upgrade, [];
      InvInit(kind, lenient);
    }

    method Store(s: Parser, calls: seq<Event>)
      modifies this
      ensures View() == s && this.calls == calls
    {
      StoreState(s);
      StoreNumbers(s);
      this.calls := calls;
    }

    method StoreState(s: Parser)
      modifies `kind, `flags, `state, `hs, `index, `lenient, `errno, `upgrade
      ensures kind == s.kind && flags == s.flags && state == s.state && hs == s.hs && index == s.index
      ensures lenient == s.lenient && errno == s.errno && upgrade == s.upgrade
    {
      kind, flags, state, hs, index := s.kind, s.flags, s.state, s.hs, s.index;
      lenient, errno, upgrade := s.lenient, s.errno, s.upgrade;
    }

    method StoreNumbers(s: Parser)
      modifies `nread, `contentLength, `major, `minor, `status, `verb
      ensures nread == s.nread && contentLength == s.contentLength && major == s.major && minor == s.minor
      ensures status == s.status && verb == s.verb
    {
      nread, contentLength, major, minor := s.nread, s.contentLength, s.major, s.minor;
      status, verb := s.status, s.verb;
    }

    /** http_parser_execute.  Unless the header limit stops it, the call returns, and leaves in the parser and in the
        callbacks, what the bytes one by one do.  An empty buffer stands for the end of the stream. */
    method Execute(data: string) returns (n: nat)
      requires Valid()
      modifies this
      ensures Valid()
      ensures !old(errno).OK? ==> n == 0 && View() == old(View()) && calls == old(calls)
      ensures old(errno).OK? && data == [] ==>
                n == (if EofExpected(old(state)) then 0 else 1)
                && View() == (if EofExpected(old(state)) then old(View()) else old(View()).(errno := InvalidEofState))
                && calls == old(calls) + (if old(state).BodyIdentityEof? then [Notify(MessageComplete)] else [])
      ensures old(errno).OK? && data != [] ==> Executed(View(), calls, n, old(View()), Merge(old(calls)), data)
    {
      hide Inv, Tracks, Ended, Executed, MarksFit, Merge, Run, Fitting, Follows, LineState;
      if !errno.OK? { return 0; }
      if data == [] {
        if state.BodyIdentityEof? {
          calls := calls + [Notify(MessageComplete)];
        } else if !EofExpected(state) {
          errno := InvalidEofState;
          return 1;
        }
        return 0;
      }
      ghost var s, t := View(), Merge(calls);
      var marks: Marked := match Resume(state) case NoMark => map[] case Live(k) => map[k := 0];
      var c := Locals(View(), calls, marks, 0, Running);
      CallStarts(c, data, s, t);
      while c.halt.Running? && c.p < |data|
        invariant if c.halt.Running? then Tracks(c, s, t, data) && Fitting(c, s, t, data) else Ended(c, s, t, data)
        decreases c.halt.Running?, |data| - c.p
      {
        if ParsingHeader(c.s.state) && c.s.nread + 1 > MAX_HEADER_SIZE {
          TopOverran(c, data, s, t);
          c := c.(s := Counted(c.s).(errno := HeaderOverflow), halt := Failed);
        } else if c.s.state.HeaderField? {
          c := ScanField(c, data, s, t);
        } else if c.s.state.HeaderValue? {
          c := ScanValue(c, data, s, t);
        } else if LineState(c.s.state) {
          ghost var was := c;
          TracksFollows(c, data, s, t);
          ScanWithin(c, s, t, data, c.p + 1);
          c := Switch(c.(s := Counted(c.s)), data, c, s, t);
          SwitchFits(c, s, t, data, was.p);
        } else {
          c := ScanBody(c, data, s, t);
        }
      }
      if c.halt.Running? {
        RunsOut(c, data, s, t);
        var calls' := Flush(c.calls, c.marks, data);
        Store(c.s, calls');
        n := |data|;
        CallEnds(c, calls', data, s, t);
      } else {
        Store(c.s, c.calls);
        n := c.p;
        CallHalts(c, data, s, t);
      }
    }
  }

  /** The states in which the stream may end. */
  predicate EofExpected(st: State) {
    st.BodyIdentityEof? || st.Dead? || st.StartReqOrRes? || st.StartRes? || st.StartReq?
  }

  /** The outcome of a call from the parser `s` and the merged callbacks `t`: that of the header limit exactly when it
      stops the call, and otherwise that of the bytes one by one. */
  ghost predicate Executed(v: Parser, calls: seq<Event>, n: nat, s: Parser, t: seq<Event>, data: string) {
    if Over(s, t, data) then OverLimit(v, calls, n, s, t, data)
    else Agrees(v, calls, n, Run(true, s, t, data), Extra(s, t, data, |data|))
  }

  /** Equal but for the header count, which is `extra` more, and on an error the count, the matcher and the data of the
      mark that was open. */
  ghost predicate Agrees(v: Parser, calls: seq<Event>, n: nat, o: Outcome, extra: nat) {
    && n == o.n
    && v == o.s.(nread := v.nread, hs := v.hs)
    && (v.hs != o.s.hs ==> v.errno.InvalidHeaderToken?)
    && if o.halt.Failed? then !v.errno.OK? && Short(calls, o.trace)
       else v.nread == o.s.nread + extra && Merge(calls) == o.trace
  }

  lemma CallStarts(c: Locals, data: string, s: Parser, t: seq<Event>)
    requires Inv(s) && t == Merge(c.calls) && data != [] && c.p == 0 && c.halt.Running? && c.s == s
    requires c.marks == match Resume(s.state) case NoMark => map[] case Live(k) => map[k := 0]
    ensures Tracks(c, s, t, data) && Fitting(c, s, t, data)
  {
    hide Inv, Merge;
    assert data[..0] == [];
    if Resume(s.state).Live? {
      PendingOne(c.calls, Resume(s.state).kind, 0, data, 0);
    } else {
      PendingNone(c.calls, data, 0);
    }
  }

  lemma TopOverran(c: Locals, data: string, s: Parser, t: seq<Event>)
    requires Tracks(c, s, t, data) && c.p < |data| && ParsingHeader(c.s.state) && c.s.nread + 1 > MAX_HEADER_SIZE
    ensures Ended(c.(s := Counted(c.s).(errno := HeaderOverflow), halt := Failed), s, t, data)
  {
    hide Inv, Run, Pending, Short, Halted, LastScanned, Over;
    PendingIsShort(c.calls, c.marks, data, c.p);
    OverAtTop(s, t, data, c.p);
    assert StoppedAt(Counted(c.s).(errno := HeaderOverflow), c.calls, c.p, s, t, data, c.p);
  }

  /** When the bytes run out, at most one mark is open, and it is open on at least one byte. */
  lemma RunsOut(c: Locals, data: string, s: Parser, t: seq<Event>)
    requires Tracks(c, s, t, data) && c.p >= |data| && data != []
    ensures c.p == |data| && forall k :: k in c.marks ==> c.marks[k] < |data|
    ensures c.marks == map[] || exists k :: c.marks.Keys == {k}
  {
    hide Inv, Run, Pending;
  }

  lemma CallEnds(c: Locals, calls: seq<Event>, data: string, s: Parser, t: seq<Event>)
    requires Tracks(c, s, t, data) && Fitting(c, s, t, data) && c.p == |data| && data != []
    requires Merge(calls) == Pending(c.calls, c.marks, data, |data|)
    ensures Executed(c.s, calls, |data|, s, t, data) && Inv(c.s)
  {
    hide Inv, Run, Pending, Merge, Short, OverLimit, LastScanned, Over, Within;
    assert data[..|data|] == data;
    RunCount(true, s, t, data);
    var o := Run(true, s, t, data);
    if c.s.nread != o.s.nread {
      ScannedState(s, t, data, |data|);
      InvNread(o.s, c.s.nread);
    }
    NotOverAtEnd(s, t, data);
    assert c.s == o.s.(nread := c.s.nread);
  }

  lemma CallHalts(c: Locals, data: string, s: Parser, t: seq<Event>)
    requires Inv(s) && Ended(c, s, t, data) && !c.halt.Running?
    ensures Executed(c.s, c.calls, c.p, s, t, data) && (c.s.errno.OK? ==> Inv(c.s))
  {
    hide Inv, Run, Merge, Short, Over, LastScanned;
    RunInv(true, s, t, data);
    var o := Run(true, s, t, data);
    if !Overran(c, s, t, data) {
      assert data[..|data|] == data;
      assert !LastScanned(s, t, data, |data|) by { NotScannedAtEnd(s, t, data); }
      if c.halt.Exited? {
        InvCore(o.s);
        assert c.s == o.s;
      }
    }
  }
}
