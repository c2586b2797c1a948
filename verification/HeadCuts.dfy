/** Where in the head of a printed request a call counts a byte too many: two bytes into a name or a value. */
module HeadCuts {
  import opened Bytes
  import opened Trace
  import opened Machine
  import opened Bytewise
  import opened Marks
  import opened Invariant
  import opened Limits
  import opened Splitting
  import opened Feeding
  import opened Journeys
  import opened HeaderNames
  import opened HeaderLines
  import opened Lengths
  import opened Methods
  import opened RequestLines
  import opened Requests
  import Announced

  // ----- on the text

  function FirstLineOf(r: Request): string { MethodString(r.verb) + " " + r.path + " " + ("HTTP/1.1" + CRLF) }

  /** Where header `j` begins in the text. */
  function HeaderAt(r: Request, j: nat): nat
    requires j <= |r.headers|
  {
    |FirstLineOf(r)| + |HeaderText(r.headers[..j])|
  }

  /** The cut after `c` bytes of a header line has at least two bytes of the name before it and none of the colon, or at
      least two of the value without the blanks before it and none of the line end. */
  predicate DeepInLine(h: (string, string), c: int) {
    2 <= c <= |h.0|
    || var v := |h.0| + 2 + |Blanks(h.1)|; v + 2 <= c <= v + |Trim(h.1)|
  }

  /** The cut after `c` bytes lies so deep in a header of the request. */
  predicate Deep(r: Request, c: nat) {
    exists j | 0 <= j < |r.headers| :: DeepInLine(r.headers[j], c - HeaderAt(r, j))
  }

  /** How many of the pieces end so deep. */
  function DeepCuts(r: Request, pieces: seq<string>): nat {
    if pieces == [] then 0
    else DeepCuts(r, pieces[..|pieces| - 1]) + if Deep(r, |Concat(pieces)|) then 1 else 0
  }

  // ----- one header line

  lemma GoesState(s: Parser, t: seq<Event>, data: string, s': Parser, t': seq<Event>, slack: nat)
    requires Goes(s, t, data, s', t', slack)
    ensures var o := Run(false, s, t, data); o.halt.Running? && o.s == s' && o.trace == t' && o.n == |data|
  {
    hide Run, Clean, HeadersFit;
  }

  /** The scan that the parser is in after `j` bytes of the line of `h`. */
  predicate InName(h: (string, string), j: nat) { 1 <= j <= |h.0| }

  predicate InValue(h: (string, string), j: nat) {
    var v := |h.0| + 2 + |Blanks(h.1)|; v + 1 <= j <= v + |Trim(h.1)|
  }

  ghost predicate LineStateIs(s: Parser, t: seq<Event>, h: (string, string), j: nat)
    requires j <= |Line(h.0, h.1)|
  {
    var o := Run(false, s, t, Line(h.0, h.1)[..j]);
    && o.halt.Running? && (InName(h, j) ==> o.s.state.HeaderField?) && (InValue(h, j) ==> o.s.state.HeaderValue?)
    && (!InName(h, j) && !InValue(h, j) ==> !IsScan(o.s.state))
  }

  lemma LineParts(h: (string, string))
    ensures Line(h.0, h.1) == h.0 + ": " + Blanks(h.1) + Trim(h.1) + CRLF
    ensures |Line(h.0, h.1)| == |h.0| + 2 + |Blanks(h.1)| + |Trim(h.1)| + 2
  {
    hide Trim, Blanks;
    BlanksThenTrim(h.1);
    assert h.0 + ": " + (Blanks(h.1) + Trim(h.1)) == h.0 + ": " + Blanks(h.1) + Trim(h.1);
  }

  lemma NameStates(s: Parser, t: seq<Event>, h: (string, string), j: nat)
    requires LineStart(s) && IsName(h.0) && 0 < j <= |h.0| + 1 && Room(s, |Line(h.0, h.1)|, 0)
    ensures LineStateIs(s, t, h, j)
  {
    hide Goes, NameState, LineStart, Settled, Push, Trim, Blanks, IsToken;
    LineParts(h);
    var k := if j <= |h.0| then j else |h.0|;
    var name := h.0[..k];
    GoesName(s, t, name, 0);
    NameOk(s.(state := HeaderField), name);
    var s1 := NameState(s.(state := HeaderField), name).(nread := s.nread + k);
    var t1 := Push(Settled(s, t), Data(Field, name));
    GoesState(s, t, name, s1, t1, 0);
    assert Line(h.0, h.1)[..k] == name;
    if j > |h.0| {
      StartOk(s);
      GoesColon(s1, Settled(s, t), name, 0);
      GoesOn(s, t, name, s1, t1, [':'], s1.(state := HeaderValueDiscardWs, nread := s1.nread + 1), t1, 0);
      GoesState(s, t, name + [':'], s1.(state := HeaderValueDiscardWs, nread := s1.nread + 1), t1, 0);
      assert Line(h.0, h.1)[..j] == name + [':'];
    }
  }

  /** After the name, the colon and some of the blanks. */
  lemma AfterBlanks(s: Parser, t: seq<Event>, h: (string, string), m: nat) returns (s': Parser, t': seq<Event>)
    requires LineStart(s) && IsName(h.0) && m <= |Blanks(h.1)| && Room(s, |Line(h.0, h.1)|, 0)
    ensures Goes(s, t, Line(h.0, h.1)[..|h.0| + 2 + m], s', t', 0)
    ensures s' == NameState(s.(state := HeaderField), h.0)
                    .(state := HeaderValueDiscardWs, nread := s.nread + |h.0| + 2 + m)
    ensures s'.errno.OK? && s'.flags == s.flags && s'.nread == s.nread + |h.0| + 2 + m
  {
    hide Goes, NameState, LineStart, Settled, Push, Trim, IsName, Blanks;
    LineParts(h);
    StartOk(s);
    NameNotEmpty(h.0);
    NameOk(s.(state := HeaderField), h.0);
    var s1 := NameState(s.(state := HeaderField), h.0).(state := HeaderValueDiscardWs, nread := s.nread + |h.0| + 2);
    t' := Push(Settled(s, t), Data(Field, h.0));
    var b := Blanks(h.1)[..m];
    BlanksBlank(h.1, m);
    GoesPrefix(s, t, h.0, 0);
    GoesBlanks(s1, t', b, 0);
    s' := s1.(nread := s1.nread + m);
    GoesOn(s, t, h.0 + ": ", s1, t', b, s', t', 0);
    assert Line(h.0, h.1)[..|h.0| + 2 + m] == h.0 + ": " + b;
  }

  lemma {:induction false} AllBlank(b: string)
    requires forall i :: 0 <= i < |b| ==> IsBlank(b[i])
    ensures Trim(b) == [] && Blanks(b) == b
  {
    hide IsBlank;
    if b != [] {
      AllBlank(b[1..]);
    }
  }

  lemma {:induction false} BlanksAreBlank(v: string, i: nat)
    requires i < |Blanks(v)|
    ensures IsBlank(Blanks(v)[i])
    decreases |v|
  {
    hide IsBlank, Trim, Blanks;
    if v != [] && IsBlank(v[0]) {
      BlanksStep(v);
      if i > 0 { BlanksAreBlank(v[1..], i - 1); }
    } else {
      NoBlanks(v);
      assert false;
    }
  }

  lemma BlanksBlank(v: string, m: nat)
    requires m <= |Blanks(v)|
    ensures Blanks(Blanks(v)[..m]) == Blanks(v)[..m]
  {
    hide IsBlank, Trim, Blanks;
    forall i | 0 <= i < m
      ensures IsBlank(Blanks(v)[i])
    {
      BlanksAreBlank(v, i);
    }
    AllBlank(Blanks(v)[..m]);
  }

  lemma BlankStates(s: Parser, t: seq<Event>, h: (string, string), j: nat)
    requires LineStart(s) && IsName(h.0) && Room(s, |Line(h.0, h.1)|, 0)
    requires |h.0| + 2 <= j <= |h.0| + 2 + |Blanks(h.1)|
    ensures LineStateIs(s, t, h, j)
  {
    hide Goes, NameState, LineStart, Trim, IsName, Blanks;
    LineParts(h);
    var s', t' := AfterBlanks(s, t, h, j - |h.0| - 2);
    GoesState(s, t, Line(h.0, h.1)[..j], s', t', 0);
  }

  lemma {:induction false} PrefixLess(c: nat, ds: string, k: nat)
    requires k <= |ds| && forall i :: 0 <= i < |ds| ==> IsNum(ds[i])
    ensures DecFrom(c, ds[..k]) <= DecFrom(c, ds)
    decreases |ds|
  {
    hide IsNum, Digit;
    if k == |ds| {
      assert ds[..k] == ds;
    } else {
      var d := ds[..|ds| - 1];
      assert d[..k] == ds[..k];
      PrefixLess(c, d, k);
    }
  }

  /** A header of a printed request, where its line may stand. */
  ghost predicate Fits(s: Parser, h: (string, string), body: MaybeBody) {
    && Reading(s, s.flags.contentLength, body) && GoodHeader(h, body) && Room(s, |Line(h.0, h.1)|, 0)
    && (s.flags.contentLength ==> h.0 != LENGTH_NAME) && (body.SomeBody? ==> |body.bytes| <= MAX_LENGTH)
  }

  lemma FitsStarts(s: Parser, h: (string, string), body: MaybeBody)
    requires Fits(s, h, body)
    ensures LineStart(s) && IsName(h.0)
  {
    hide LineStart, IsName, IsValue, LowerName, Line;
    if h.0 == LENGTH_NAME { LengthName(); }
  }

  lemma ValueStates(s: Parser, t: seq<Event>, h: (string, string), body: MaybeBody, j: nat)
    requires Fits(s, h, body) && InValue(h, j)
    ensures LineStateIs(s, t, h, j)
  {
    hide Goes, NameState, LineStart, Trim, IsName, Blanks, Push, Plain, IsValue, IsPlainName, Decimal;
    LineParts(h);
    FitsStarts(s, h, body);
    var b := |Blanks(h.1)|;
    var k := j - |h.0| - 2 - b;
    var v := Trim(h.1)[..k];
    var s1, t1 := AfterBlanks(s, t, h, b);
    var s' := ValueReached(s, t, s1, t1, h, body, k);
    var t' := Push(t1, Data(Value, v));
    GoesOn(s, t, Line(h.0, h.1)[..|h.0| + 2 + b], s1, t1, v, s', t', 0);
    assert Line(h.0, h.1)[..j] == Line(h.0, h.1)[..|h.0| + 2 + b] + v;
    GoesState(s, t, Line(h.0, h.1)[..j], s', t', 0);
  }

  /** After `k` bytes of the value. */
  lemma ValueReached(s: Parser, t: seq<Event>, s1: Parser, t1: seq<Event>, h: (string, string), body: MaybeBody, k: nat)
    returns (s': Parser)
    requires Fits(s, h, body) && 0 < k <= |Trim(h.1)|
    requires var m := |h.0| + 2 + |Blanks(h.1)|;
             && s1 == NameState(s.(state := HeaderField), h.0).(state := HeaderValueDiscardWs, nread := s.nread + m)
             && s1.errno.OK? && s1.flags == s.flags && s1.nread == s.nread + m
    ensures Goes(s1, t1, Trim(h.1)[..k], s', Push(t1, Data(Value, Trim(h.1)[..k])), 0) && s'.state.HeaderValue?
  {
    hide Goes, NameState, LineStart, Trim, IsName, Blanks, Push, Plain, IsValue, IsPlainName, Decimal, IsNum, IsBlank;
    LineParts(h);
    var v := Trim(h.1)[..k];
    if h.0 == LENGTH_NAME {
      LengthName();
      TrimDigits(h.1);
      NameRecognised(s.(state := HeaderField), h.0);
      PrefixLess(0, h.1, k);
      GoesDigits(s1, t1, v, 0);
      s' := s1.(state := HeaderValue, index := 0, nread := s1.nread + |v|, contentLength := DecFrom(0, v),
                flags := s1.flags.(contentLength := true));
    } else {
      HeaderLines.PlainState(s.(state := HeaderField), h.0);
      TrimIsValue(h.1);
      PrefixIsValue(Trim(h.1), k);
      GoesValue(s1, t1, v, 0);
      s' := s1.(state := HeaderValue, index := 0, hs := General, nread := s1.nread + |v|);
    }
  }

  lemma PrefixIsValue(v: string, k: nat)
    requires IsValue(v) && k <= |v|
    ensures IsValue(v[..k])
  {
    hide IsValueChar;
  }

  /** After the CR of the line no scan is under way. */
  lemma CrEnds(s: Parser, t: seq<Event>, data: string)
    requires var o := Run(false, s, t, data);
            o.halt.Running? && (o.s.state.HeaderValue? || o.s.state.HeaderValueDiscardWs?)
    ensures var o := Run(false, s, t, data + [CR]); !IsScan(o.s.state)
  {
    hide Emit, ValueChar;
    var o := Run(false, s, t, data);
    assert (data + [CR])[..|data|] == data;
    ActIs(Counted(o.s), CR, true);
    hide Act;
  }

  lemma AfterLineState(s: Parser, t: seq<Event>, h: (string, string), body: MaybeBody)
    requires Fits(s, h, body)
    ensures LineStateIs(s, t, h, |Line(h.0, h.1)|)
  {
    hide Goes, LineStart, Trim, IsName, Blanks, Push, GoodHeader, Settled, Run, IsScan;
    LineParts(h);
    var line := Line(h.0, h.1);
    var s', t' := GoesHeader(s, t, h, s.flags.contentLength, body, 0);
    GoesState(s, t, line, s', t', 0);
    assert line[..|line|] == line;
    StartIsNoScan(s');
  }

  lemma AfterCrState(s: Parser, t: seq<Event>, h: (string, string), body: MaybeBody)
    requires Fits(s, h, body) && LineStateIs(s, t, h, |Line(h.0, h.1)|)
    ensures LineStateIs(s, t, h, |Line(h.0, h.1)| - 1)
  {
    hide Trim, Blanks, Run, Fits, IsScan;
    LineParts(h);
    var line := Line(h.0, h.1);
    var n := |line|;
    assert line[n - 2] == CR && line[n - 1] == LF;
    assert line[..n] == line && line[..n - 1] == line[..n - 2] + [CR] && line[..n - 1] + [LF] == line;
    BeforeCr(s, t, h, body);
    CrEnds(s, t, line[..n - 2]);
    StillRunning(s, t, line[..n - 1], LF);
  }

  lemma BeforeCr(s: Parser, t: seq<Event>, h: (string, string), body: MaybeBody)
    requires Fits(s, h, body)
    ensures var line := Line(h.0, h.1);
            var o := Run(false, s, t, line[..|line| - 2]);
            o.halt.Running? && (o.s.state.HeaderValue? || o.s.state.HeaderValueDiscardWs?)
  {
    hide Goes, NameState, Trim, Blanks, Run, Fits, IsName, LineStart;
    LineParts(h);
    var n := |Line(h.0, h.1)|;
    if |Trim(h.1)| > 0 {
      ValueStates(s, t, h, body, n - 2);
    } else {
      FitsStarts(s, h, body);
      FitsRoom(s, h, body);
      var s', t' := AfterBlanks(s, t, h, |Blanks(h.1)|);
      GoesState(s, t, Line(h.0, h.1)[..n - 2], s', t', 0);
    }
  }

  lemma StartIsNoScan(s: Parser)
    requires LineStart(s)
    ensures !IsScan(s.state)
  {
    hide CommitValue;
  }

  lemma LineStates(s: Parser, t: seq<Event>, h: (string, string), body: MaybeBody, j: nat)
    requires Fits(s, h, body) && j <= |Line(h.0, h.1)|
    ensures LineStateIs(s, t, h, j)
  {
    hide Fits, LineStateIs, LineStart, IsName, Trim, Blanks;
    LineParts(h);
    FitsStarts(s, h, body);
    assert Room(s, |Line(h.0, h.1)|, 0) by { FitsRoom(s, h, body); }
    if j == 0 {
      LineBegins(s, t, h);
    } else if j <= |h.0| + 1 {
      NameStates(s, t, h, j);
    } else if j <= |h.0| + 2 + |Blanks(h.1)| {
      BlankStates(s, t, h, j);
    } else if j <= |h.0| + 2 + |Blanks(h.1)| + |Trim(h.1)| {
      ValueStates(s, t, h, body, j);
    } else {
      AfterLineState(s, t, h, body);
      AfterCrState(s, t, h, body);
    }
  }

  lemma FitsRoom(s: Parser, h: (string, string), body: MaybeBody)
    requires Fits(s, h, body)
    ensures Room(s, |Line(h.0, h.1)|, 0)
  {
    hide Reading, GoodHeader, Line;
  }

  lemma LineBegins(s: Parser, t: seq<Event>, h: (string, string))
    requires LineStart(s)
    ensures LineStateIs(s, t, h, 0)
  {
    hide LineStart, Trim, Line, Blanks;
    StartIsNoScan(s);
  }

  /** A cut within a header line counts a byte too many exactly where it is deep in the name or the value. */
  lemma LineScans(s: Parser, t: seq<Event>, h: (string, string), body: MaybeBody, j: nat)
    requires Fits(s, h, body) && 0 < j <= |Line(h.0, h.1)|
    ensures ScannedEnd(s, t, Line(h.0, h.1)[..j]) <==> DeepInLine(h, j)
  {
    hide Fits, Trim, Blanks, Run;
    LineParts(h);
    LineStates(s, t, h, body, j - 1);
    LineStates(s, t, h, body, j);
    assert Line(h.0, h.1)[..j][..j - 1] == Line(h.0, h.1)[..j - 1];
    hide Line;
  }

  // ----- the request line

  /** Before the first byte of the headers. */
  predicate Early(st: State) { Announced.IsPre(st) || Announced.IsStart(st) }

  /** The headers have not begun. */
  predicate NotYet(e: Effect) { e.s.errno.OK? ==> !e.s.state.HeaderFieldStart? }

  lemma StatusNotYet(s: Parser, ch: char)
    requires ch != LF && !s.state.HeaderFieldStart?
    ensures NotYet(ActStatus(s, ch)) && NotYet(ActStatusStart(s, ch)) && NotYet(ActStatusCode(s, ch))
    ensures NotYet(ActFirstStatusCode(s, ch))
  {
    hide IsNum, Digit;
  }

  lemma LineNotYet(s: Parser, ch: char)
    requires ch != LF && !s.state.HeaderFieldStart?
    ensures NotYet(ActMajor(s, ch, ResHttpDot)) && NotYet(ActMajor(s, ch, ReqHttpDot))
    ensures NotYet(ActMinor(s, ch, ResHttpEnd)) && NotYet(ActMinor(s, ch, ReqHttpEnd))
    ensures NotYet(ActReqHttpStart(s, ch)) && NotYet(ActReqHttpEnd(s, ch)) && NotYet(ActResOrRespH(s, ch))
  {
    hide IsNum, Digit;
  }

  lemma MethodNotYet(s: Parser, ch: char)
    requires !s.state.HeaderFieldStart?
    ensures NotYet(ActReqMethod(s, ch))
  {
    hide OtherMethod, MethodString, Bytes.At;
  }

  lemma UrlStepNotYet(s: Parser, from: State, ch: char)
    requires !s.state.HeaderFieldStart?
    ensures NotYet(UrlStep(s, from, ch))
  {
    UrlNoHeader(from, ch);
    hide ParseUrlChar;
  }

  lemma UrlNotYet(s: Parser, ch: char)
    requires ch != LF && !s.state.HeaderFieldStart?
    ensures NotYet(ActUrl(s, ch)) && NotYet(ActUrlPrefix(s, ch)) && NotYet(ActSpacesBeforeUrl(s, ch))
  {
    hide UrlStep;
    UrlStepNotYet(s, s.state, ch);
    UrlStepNotYet(s, if s.verb == CONNECT then ReqServerStart else ReqSpacesBeforeUrl, ch);
  }

  lemma UrlNoHeader(st: State, ch: char)
    ensures !ParseUrlChar(st, ch).HeaderFieldStart?
  {
    hide IsAlpha, IsUrlChar, IsUserinfoChar;
  }

  lemma ExpectNotYet(s: Parser, ok: bool, err: Errno, st: State)
    requires !err.OK? && (ok ==> !st.HeaderFieldStart?)
    ensures NotYet(Expect(s, ok, err, st))
  {
  }

  /** Only a line feed ends a request line or a status line. */
  lemma LfEndsLine(s: Parser, ch: char)
    requires Announced.IsPre(s.state) && ch != LF
    ensures NotYet(Act(s, ch, true))
  {
    hide ActMajor, ActMinor, ActReqHttpStart, ActReqHttpEnd, ActResOrRespH, ActFirstStatusCode, ActReqMethod, ActUrl,
      ActUrlPrefix, ActSpacesBeforeUrl, ActStatus, ActStatusStart, ActStatusCode, Expect, NotYet;
    LineNotYet(s, ch);
    MethodNotYet(s, ch);
    UrlNotYet(s, ch);
    StatusNotYet(s, ch);
    match s.state
    case ResH => ExpectNotYet(s, ch == 'T', Strict, ResHT);
    case ResHT => ExpectNotYet(s, ch == 'T', Strict, ResHTT);
    case ResHTT => ExpectNotYet(s, ch == 'P', Strict, ResHTTP);
    case ResHTTP => ExpectNotYet(s, ch == '/', Strict, ResHttpMajor);
    case ResHttpDot => ExpectNotYet(s, ch == '.', InvalidVersion, ResHttpMinor);
    case ResHttpEnd => ExpectNotYet(s, ch == ' ', InvalidVersion, ResFirstStatusCode);
    case ResLineAlmostDone => ExpectNotYet(s, ch == LF, Strict, HeaderFieldStart);
    case ReqHttpH => ExpectNotYet(s, ch == 'T', Strict, ReqHttpHT);
    case ReqHttpHT => ExpectNotYet(s, ch == 'T', Strict, ReqHttpHTT);
    case ReqHttpHTT => ExpectNotYet(s, ch == 'P', Strict, ReqHttpHTTP);
    case ReqHttpHTTP => ExpectNotYet(s, ch == '/', Strict, ReqHttpMajor);
    case ReqHttpDot => ExpectNotYet(s, ch == '.', InvalidVersion, ReqHttpMinor);
    case ReqLineAlmostDone => ExpectNotYet(s, ch == LF, LfExpected, HeaderFieldStart);
    case _ =>
  }

  lemma EarlyByte(s: Parser, ch: char)
    requires Early(s.state) && s.errno.OK? && ch != LF
    ensures var e := Act(s, ch, true); e.s.errno.OK? ==> Early(e.s.state)
  {
    hide Act, Announced.IsPre, Announced.IsStart;
    if Announced.IsPre(s.state) {
      Announced.ActPre(s, ch, true);
      LfEndsLine(s, ch);
    } else {
      Announced.ActStart(s, ch, true);
    }
  }

  /** The request line is not left before its line feed. */
  lemma {:induction false} EarlyRun(s: Parser, t: seq<Event>, data: string)
    requires Early(s.state) && s.errno.OK? && LF !in data
    ensures var o := Run(false, s, t, data); o.halt.Running? ==> Early(o.s.state)
  {
    hide Act, Emit, Early;
    if data != [] {
      var n := |data| - 1;
      EarlyRun(s, t, data[..n]);
      RunOk(false, s, t, data[..n]);
      var o := Run(false, s, t, data[..n]);
      assert data[n] in data;
      if o.halt.Running? { EarlyByte(Counted(o.s), data[n]); }
    }
  }

  lemma EarlyIsNoScan(st: State)
    requires Early(st)
    ensures !IsScan(st)
  {
  }

  lemma {:induction false} TargetHasNoLf(path: string)
    requires !UrlAfter(path).Dead?
    ensures LF !in path
  {
    if path != [] {
      var n := |path| - 1;
      LfIsNoUrl(UrlAfter(path[..n]));
      DeadStays(path[n]);
      TargetHasNoLf(path[..n]);
      assert path == path[..n] + [path[n]];
    }
  }

  lemma LfIsNoUrl(st: State)
    ensures ParseUrlChar(st, LF).Dead?
  {
  }

  lemma DeadStays(ch: char)
    ensures ParseUrlChar(Dead, ch).Dead?
  {
  }

  lemma LineLf(r: Request, c: nat)
    requires IsTarget(r.path) && c < |FirstLineOf(r)|
    ensures LF !in FirstLineOf(r)[..c]
  {
    hide MethodString, UrlAfter;
    TargetHasNoLf(r.path);
    MethodLetters(r.verb);
    var a := MethodString(r.verb) + " " + r.path + " " + "HTTP/1.1" + [CR];
    assert FirstLineOf(r) == a + [LF];
    assert LF !in MethodString(r.verb);
    assert LF !in "HTTP/1.1";
    assert LF !in a;
    assert FirstLineOf(r)[..c] == a[..c];
  }

  // ----- where the headers stand in the text

  lemma {:induction false} HeaderTextPrefix(headers: seq<(string, string)>, j: nat)
    requires j <= |headers|
    ensures HeaderText(headers[..j]) <= HeaderText(headers)
    decreases |headers|
  {
    hide Line;
    if j == |headers| {
      assert headers[..j] == headers;
    } else {
      var init := headers[..|headers| - 1];
      assert init[..j] == headers[..j];
      HeaderTextPrefix(init, j);
    }
  }

  lemma HeaderTextNext(headers: seq<(string, string)>, j: nat)
    requires j < |headers|
    ensures HeaderText(headers[..j + 1]) == HeaderText(headers[..j]) + Line(headers[j].0, headers[j].1)
  {
    assert headers[..j + 1][..j] == headers[..j];
    hide Line;
  }

  lemma HeaderNext(r: Request, j: nat)
    requires j < |r.headers|
    ensures HeaderAt(r, j + 1) == HeaderAt(r, j) + |Line(r.headers[j].0, r.headers[j].1)|
  {
    hide FirstLineOf, HeaderText, Line;
    HeaderTextNext(r.headers, j);
  }

  lemma {:induction false} HeadersRise(r: Request, i: nat, j: nat)
    requires i <= j <= |r.headers|
    ensures HeaderAt(r, i) <= HeaderAt(r, j)
    decreases j
  {
    hide HeaderAt, Line;
    if i < j {
      HeadersRise(r, i, j - 1);
      HeaderNext(r, j - 1);
    }
  }

  lemma AllHeaders(r: Request)
    ensures HeaderAt(r, |r.headers|) + 2 == |HeadText(r)| && HeaderAt(r, 0) == |FirstLineOf(r)|
    ensures HeadText(r) == FirstLineOf(r) + HeaderText(r.headers) + CRLF
  {
    assert r.headers[..|r.headers|] == r.headers && r.headers[..0] == [];
  }

  /** The text up to a place in the line of header `j`. */
  lemma TextAt(r: Request, j: nat, k: nat)
    requires j < |r.headers| && k <= |Line(r.headers[j].0, r.headers[j].1)|
    ensures HeaderAt(r, j) + k <= |Text(r)|
    ensures Text(r)[..HeaderAt(r, j) + k]
         == FirstLineOf(r) + HeaderText(r.headers[..j]) + Line(r.headers[j].0, r.headers[j].1)[..k]
  {
    hide FirstLineOf, HeaderText, Line, BodyText, HeadText;
    AllHeaders(r);
    HeaderTextNext(r.headers, j);
    HeaderTextPrefix(r.headers, j + 1);
    var line := Line(r.headers[j].0, r.headers[j].1);
    var a, b := FirstLineOf(r), HeaderText(r.headers[..j]);
    var rest := HeaderText(r.headers)[|b + line|..] + CRLF + BodyText(r);
    assert Text(r) == a + b + line + rest;
    assert a + b + line + rest == (a + b + line[..k]) + (line[k..] + rest);
  }

  /** A deep cut after `c` bytes lies in the line that holds the byte before it. */
  lemma DeepHere(r: Request, j: nat, c: nat)
    requires j < |r.headers| && HeaderAt(r, j) < c <= HeaderAt(r, j + 1)
    ensures Deep(r, c) <==> DeepInLine(r.headers[j], c - HeaderAt(r, j))
  {
    hide HeaderAt, DeepInLine;
    if Deep(r, c) {
      var i :| 0 <= i < |r.headers| && DeepInLine(r.headers[i], c - HeaderAt(r, i));
      DeepBounds(r, i, c);
      if i < j { HeadersRise(r, i + 1, j); }
      if i > j { HeadersRise(r, j + 1, i); }
    }
  }

  lemma DeepBounds(r: Request, i: nat, c: nat)
    requires i < |r.headers| && DeepInLine(r.headers[i], c - HeaderAt(r, i))
    ensures HeaderAt(r, i) + 2 <= c <= HeaderAt(r, i + 1) - 2
  {
    hide HeaderAt, Line, Trim, Blanks;
    LineParts(r.headers[i]);
    HeaderNext(r, i);
  }

  lemma DeepInside(r: Request, c: nat)
    requires Deep(r, c)
    ensures |FirstLineOf(r)| < c && c + 2 < |HeadText(r)|
  {
    hide HeaderAt, DeepInLine, FirstLineOf, HeadText;
    var i :| 0 <= i < |r.headers| && DeepInLine(r.headers[i], c - HeaderAt(r, i));
    DeepBounds(r, i, c);
    AllHeaders(r);
    HeadersRise(r, 0, i);
    HeadersRise(r, i + 1, |r.headers|);
  }

  lemma {:induction false} WhichHeader(r: Request, c: nat, n: nat) returns (j: nat)
    requires n <= |r.headers| && HeaderAt(r, 0) < c <= HeaderAt(r, n)
    ensures j < n && HeaderAt(r, j) < c <= HeaderAt(r, j + 1)
    decreases n
  {
    hide HeaderAt;
    if c <= HeaderAt(r, n - 1) { j := WhichHeader(r, c, n - 1); } else { j := n - 1; }
  }

  // ----- the scans of the head

  /** Before a request that its head does not bring to the limit. */
  ghost predicate Before(s: Parser, r: Request) {
    Inv(s) && Ready(s) && s.nread == 0 && Good(r, MAX_HEADER_SIZE)
  }

  lemma AfterFirstLine(s: Parser, r: Request) returns (s': Parser, t': seq<Event>)
    requires Before(s, r)
    ensures Goes(s, [], FirstLineOf(r), s', t', 0) && Reading(s', false, r.body) && s'.state.HeaderFieldStart?
    ensures s'.nread == |FirstLineOf(r)| && Settled(s', t') == t' && NoOpenField(t')
  {
    hide Goes, Reading, GoodHeaders, MethodString, HeaderText, IsTarget, Inv;
    assert |HeadText(r)| == |FirstLineOf(r)| + |HeaderText(r.headers)| + 2;
    s', t' := AfterLine(s, r), [Notify(MessageBegin), Data(Url, r.path)];
    GoesRequestLine(s, [], r, 0);
    assert [] + t' == t';
    ReadingStarts(s, r);
    Opened(s', t');
  }

  lemma Opened(s: Parser, t: seq<Event>)
    requires s.state.HeaderFieldStart? && |t| == 2 && t[1].Data? && t[1].kind.Url?
    ensures Settled(s, t) == t && NoOpenField(t)
  {
  }

  /** Before header `j`. */
  lemma BeforeHeader(s: Parser, r: Request, j: nat) returns (s': Parser, t': seq<Event>)
    requires Before(s, r) && j <= |r.headers|
    ensures Goes(s, [], FirstLineOf(r) + HeaderText(r.headers[..j]), s', t', 0) && s'.nread == HeaderAt(r, j)
    ensures LineStart(s') && (j < |r.headers| ==> Fits(s', r.headers[j], r.body))
  {
    hide Goes, Reading, GoodHeader, FirstLineOf, HeaderText, Seen, IsTarget, Settled, HeadText, Inv, Line, Before;
    var s1, t1 := AfterFirstLine(s, r);
    assert GoodHeaders(r.headers, r.body) && (r.body.SomeBody? ==> |r.body.bytes| <= MAX_LENGTH)
           && |HeadText(r)| <= MAX_HEADER_SIZE by { BeforeGood(s, r); }
    AllHeaders(r);
    HeaderTextPrefix(r.headers, j);
    s', t' := GoesHeaders(s1, t1, r.headers[..j], r.body, 0);
    GoesOn(s, [], FirstLineOf(r), s1, t1, HeaderText(r.headers[..j]), s', t', 0);
    ReadingStartsLine(s', Seen(r.headers[..j]), r.body);
    if j < |r.headers| {
      HeaderTextNext(r.headers, j);
      HeaderTextPrefix(r.headers, j + 1);
      SeenNext(r.headers, j);
    }
  }

  lemma BeforeGood(s: Parser, r: Request)
    requires Before(s, r)
    ensures GoodHeaders(r.headers, r.body) && (r.body.SomeBody? ==> |r.body.bytes| <= MAX_LENGTH)
    ensures |HeadText(r)| <= MAX_HEADER_SIZE && IsTarget(r.path)
  {
    hide HeadText, GoodHeaders, IsTarget, Inv;
  }

  lemma SeenNext(headers: seq<(string, string)>, j: nat)
    requires j < |headers| && forall i, k :: 0 <= i < k < |headers| ==> headers[i].0 != headers[k].0
    ensures Seen(headers[..j]) ==> headers[j].0 != LENGTH_NAME
  {
    assert headers[..j + 1][..j] == headers[..j];
    SeenSnoc(headers[..j + 1]);
  }

  lemma ReadingStartsLine(s: Parser, seen: bool, body: MaybeBody)
    requires Reading(s, seen, body)
    ensures LineStart(s) && s.flags.contentLength == seen
  {
    hide LineStart;
  }

  /** A run over `a + b` ends in a scan as that over `b` from where `a` leads. */
  lemma ScannedAfter(s: Parser, t: seq<Event>, a: string, s1: Parser, t1: seq<Event>, b: string)
    requires Goes(s, t, a, s1, t1, 0) && b != []
    ensures ScannedEnd(s, t, a + b) <==> ScannedEnd(s1, t1, b)
  {
    hide Run, Clean, HeadersFit;
    var n := |b| - 1;
    RunAppend(s, t, a, b);
    RunAppend(s, t, a, b[..n]);
    assert (a + b)[..|a + b| - 1] == a + b[..n];
  }

  lemma NoScanAtEnd(s: Parser, t: seq<Event>, data: string, s': Parser, t': seq<Event>)
    requires Goes(s, t, data, s', t', 0) && !IsScan(s'.state)
    ensures !ScannedEnd(s, t, data)
  {
    hide Run, Clean, HeadersFit;
  }

  lemma FirstLineScans(s: Parser, r: Request, c: nat)
    requires Before(s, r) && c <= |FirstLineOf(r)|
    ensures !ScannedEnd(s, [], FirstLineOf(r)[..c])
  {
    hide Goes, FirstLineOf, Run, Reading, Settled, Before;
    assert Early(s.state) && s.errno.OK? && IsTarget(r.path) by { BeforeStarts(s, r); }
    if c == |FirstLineOf(r)| {
      var s1, t1 := AfterFirstLine(s, r);
      assert FirstLineOf(r)[..c] == FirstLineOf(r);
      NoScanAtEnd(s, [], FirstLineOf(r), s1, t1);
    } else {
      LineLf(r, c);
      EarlyRun(s, [], FirstLineOf(r)[..c]);
      if Run(false, s, [], FirstLineOf(r)[..c]).halt.Running? {
        EarlyIsNoScan(Run(false, s, [], FirstLineOf(r)[..c]).s.state);
      }
    }
  }

  lemma BeforeStarts(s: Parser, r: Request)
    requires Before(s, r)
    ensures Early(s.state) && s.errno.OK? && IsTarget(r.path)
  {
    hide HeadText, GoodHeaders, IsTarget, Inv;
  }

  /** A call that ends within the head of a printed request counts a byte too many exactly where the cut is deep. */
  lemma HeadScans(s: Parser, r: Request, c: nat)
    requires Before(s, r) && c < |HeadText(r)|
    ensures ScannedEnd(s, [], Text(r)[..c]) <==> Deep(r, c)
  {
    hide Goes, FirstLineOf, HeaderText, Deep, Text, HeadText, HeaderAt, DeepInLine, Fits, Before, LineStart, Line,
      ScannedEnd;
    AllHeaders(r);
    TextIs(r);
    if Deep(r, c) { DeepInside(r, c); }
    if c <= |FirstLineOf(r)| {
      FirstLineScans(s, r, c);
      assert Text(r)[..c] == FirstLineOf(r)[..c];
    } else if c <= HeaderAt(r, |r.headers|) {
      var j := WhichHeader(r, c, |r.headers|);
      var k, h := c - HeaderAt(r, j), r.headers[j];
      var s1, t1 := BeforeHeader(s, r, j);
      HeaderNext(r, j);
      TextAt(r, j, k);
      ScannedAfter(s, [], FirstLineOf(r) + HeaderText(r.headers[..j]), s1, t1, Line(h.0, h.1)[..k]);
      LineScans(s1, t1, h, r.body, k);
      DeepHere(r, j, c);
    } else {
      var s1, t1 := GoesAlmostHead(s, r);
      assert Text(r)[..c] == HeadText(r)[..|HeadText(r)| - 1];
      NoScanAtEnd(s, [], Text(r)[..c], s1, t1);
    }
  }

  lemma TextIs(r: Request)
    ensures HeadText(r) <= Text(r) && FirstLineOf(r) <= Text(r) && |FirstLineOf(r)| < |HeadText(r)|
  {
    hide HeaderText, MethodString;
    assert HeadText(r) == FirstLineOf(r) + (HeaderText(r.headers) + CRLF);
    assert Text(r) == FirstLineOf(r) + (HeaderText(r.headers) + CRLF) + BodyText(r);
  }

  /** The head of a request but for its last byte, every byte of which is counted. */
  lemma GoesAlmostHead(s: Parser, r: Request) returns (s': Parser, t': seq<Event>)
    requires Before(s, r)
    ensures HeadText(r) != [] && Goes(s, [], HeadText(r)[..|HeadText(r)| - 1], s', t', 0)
    ensures s'.state.HeadersAlmostDone? && s'.nread == |HeadText(r)| - 1
  {
    hide Goes, FirstLineOf, HeaderText, LineStart, HeadText, Before, Settled;
    AllHeaders(r);
    var s1, t1 := BeforeHeader(s, r, |r.headers|);
    assert r.headers[..|r.headers|] == r.headers;
    BeforeGood(s, r);
    BlankCr(s1, t1, 0);
    s', t' := s1.(state := HeadersAlmostDone, nread := s1.nread + 1), Settled(s1, t1);
    GoesOn(s, [], FirstLineOf(r) + HeaderText(r.headers), s1, t1, [CR], s', t', 0);
    assert HeadText(r)[..|HeadText(r)| - 1] == FirstLineOf(r) + HeaderText(r.headers) + [CR];
  }
}
