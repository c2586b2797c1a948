/** Request lines of any version, and status lines. */
module StartLines {
  import opened Bytes
  import opened Trace
  import opened Machine
  import opened Bytewise
  import opened Marks
  import opened Scans
  import opened Journeys
  import opened HeaderLines
  import opened Lengths
  import opened Methods
  import opened RequestLines
  import opened Requests
  import Invariant

  /** The digits of a version; a request without one is of version 0.9. */
  datatype Version = Version(major: char, minor: char) | Unsaid

  datatype MaybeReason = NoReason | Reason(text: string)

  datatype Start =
    | RequestLine(verb: Method, path: string, version: Version)
    | StatusLine(version: Version, code: string, reason: MaybeReason)

  predicate IsReason(text: string) { CR !in text && LF !in text }

  predicate GoodVersion(v: Version) { v.Version? && IsNum(v.major) && IsNum(v.minor) }

  ghost predicate GoodStart(l: Start) {
    match l
    case RequestLine(verb, path, version) =>
      (if verb.CONNECT? then IsAuthority(path) else IsTarget(path)) && (version.Unsaid? || GoodVersion(version))
    case StatusLine(version, code, reason) =>
      GoodVersion(version) && IsDigits(code) && DecFrom(0, code) <= 999 && (reason.Reason? ==> IsReason(reason.text))
  }

  predicate IsConnect(l: Start) { l.RequestLine? && l.verb.CONNECT? }

  /** The state of parse_url_char after the bytes of the target of a CONNECT. */
  function ConnectAfter(path: string): State {
    if path == [] then ReqServerStart else ParseUrlChar(ConnectAfter(path[..|path| - 1]), path[|path| - 1])
  }

  /** What the parser accepts as such a target. */
  predicate IsAuthority(path: string) {
    ConnectAfter(path) in {ReqServer, ReqServerWithAt, ReqPath, ReqQueryStringStart, ReqQueryString, ReqFragmentStart,
                           ReqFragment}
  }

  /** A host and a port are such a target. */
  lemma {:induction false} HostIsAuthority(path: string)
    requires path != [] && forall i :: 0 <= i < |path| ==> IsHostChar(path[i]) || path[i] == ':'
    ensures IsAuthority(path) && ConnectAfter(path) == ReqServer
  {
    hide IsHostChar, ParseUrlChar;
    var n := |path| - 1;
    HostInServer(path[n]);
    if n == 0 {
      assert path[..0] == [] && ConnectAfter([]) == ReqServerStart;
    } else {
      HostIsAuthority(path[..n]);
    }
  }

  lemma HostInServer(ch: char)
    requires IsHostChar(ch) || ch == ':'
    ensures ParseUrlChar(ReqServerStart, ch) == ReqServer == ParseUrlChar(ReqServer, ch)
  {
  }

  function UrlOf(l: Start): State
    requires l.RequestLine?
  {
    if l.verb.CONNECT? then ConnectAfter(l.path) else UrlAfter(l.path)
  }

  function VersionText(v: Version): string { if v.Unsaid? then [] else "HTTP/" + [v.major, '.', v.minor] }

  function ReasonText(r: MaybeReason): string { if r.NoReason? then [] else " " + r.text }

  function StartText(l: Start): string {
    match l
    case RequestLine(verb, path, version) =>
      MethodString(verb) + " " + path + (if version.Unsaid? then CRLF else " " + (VersionText(version) + CRLF))
    case StatusLine(version, code, reason) => VersionText(version) + " " + code + (ReasonText(reason) + CRLF)
  }

  /** What the program is told of it. */
  function StartEvents(l: Start): seq<Event> {
    match l
    case RequestLine(_, path, _) => [Notify(MessageBegin), Data(Url, path)]
    case StatusLine(_, _, reason) => [Notify(MessageBegin), Data(Status, if reason.NoReason? then [] else reason.text)]
  }

  /** Between two messages. */
  predicate AtStart(s: Parser, l: Start) {
    && s.errno.OK?
    && if l.RequestLine? then s.state.StartReq? && s.kind.Request?
       else s.state.StartRes? && s.kind.Response? && !s.verb.CONNECT?
  }

  /** The number of a digit of the version; 0.9 when it is not said. */
  function MajorOf(v: Version): nat { if v.Version? && IsNum(v.major) then Digit(v.major) else 0 }

  function MinorOf(v: Version): nat { if v.Version? && IsNum(v.minor) then Digit(v.minor) else 9 }

  /** The parser before the first header. */
  ghost predicate HasStarted(s: Parser, l: Start, s': Parser) {
    && s'.errno.OK? && s'.state.HeaderFieldStart? && s'.flags == NO_FLAGS && s'.contentLength == ULLONG_MAX
    && s'.nread == s.nread + |StartText(l)| && s'.major == MajorOf(l.version) && s'.minor == MinorOf(l.version)
    && s' == s.(state := s'.state, flags := s'.flags, contentLength := s'.contentLength, nread := s'.nread,
                index := s'.index, major := s'.major, minor := s'.minor, status := s'.status, verb := s'.verb)
    && (l.RequestLine? ==> s'.verb == l.verb && s'.status == s.status)
    && (l.StatusLine? && IsDigits(l.code) ==> s'.status == DecFrom(0, l.code) && s'.verb == s.verb)
  }

  // ----- request lines

  lemma SimpleActs(s: Parser)
    ensures s.state in {ReqServer, ReqServerWithAt, ReqPath, ReqQueryStringStart, ReqQueryString, ReqFragmentStart,
                        ReqFragment} ==>
              Act(Counted(s), CR, true)
              == Effect(Counted(s).(major := 0, minor := 9, state := ReqLineAlmostDone), [Deliver(Url)], false)
  {
  }

  /** A request line without a version. */
  lemma GoesSimpleEnd(s: Parser, t: seq<Event>, path: string, slack: nat)
    requires s.errno.OK? && Room(s, 2, slack)
    requires s.state in {ReqServer, ReqServerWithAt, ReqPath, ReqQueryStringStart, ReqQueryString, ReqFragmentStart,
                         ReqFragment}
    ensures Goes(s, Push(t, Data(Url, path)), CRLF,
                 s.(state := HeaderFieldStart, major := 0, minor := 9, nread := s.nread + 2), Push(t, Data(Url, path)),
                     slack)
  {
    hide IsHeaderChar, Push, Act, Goes;
    var u := Push(t, Data(Url, path));
    var s1 := s.(state := ReqLineAlmostDone, major := 0, minor := 9, nread := s.nread + 1);
    SimpleActs(s);
    assert [Deliver(Url)][1..] == [];
    PushEmpty(t, Url, path);
    GoesByte(s, u, CR, slack);
    LineEndActs(s1);
    GoesQuietly(s1, u, LF, HeaderFieldStart, slack);
    GoesOn(s, u, [CR], s1, u, [LF], s.(state := HeaderFieldStart, major := 0, minor := 9, nread := s.nread + 2), u,
        slack);
    assert [CR] + [LF] == CRLF;
  }

  lemma ConnectByte(s: Parser, t: seq<Event>, ch: char, slack: nat)
    requires s.errno.OK? && s.state.ReqSpacesBeforeUrl? && s.verb.CONNECT? && Room(s, 1, slack)
    requires !ParseUrlChar(ReqServerStart, ch).Dead?
    ensures Goes(s, t, [ch], s.(state := ParseUrlChar(ReqServerStart, ch), nread := s.nread + 1),
                 Push(t, Data(Url, [ch])), slack)
  {
    hide IsHeaderChar, ParseUrlChar, Push;
    UrlCharNotEnd(ReqServerStart, ch);
    var c := Counted(s);
    assert UrlStep(c, ReqServerStart, ch) == Effect(c.(state := ParseUrlChar(ReqServerStart, ch)), [], false);
    assert Act(c, ch, true) == After([Mark(Url)], UrlStep(c, ReqServerStart, ch));
    assert [Mark(Url)][1..] == [];
    GoesByte(s, t, ch, slack);
  }

  lemma {:induction false} GoesConnectUrl(s: Parser, t: seq<Event>, path: string, slack: nat)
    requires s.errno.OK? && s.state.ReqSpacesBeforeUrl? && s.verb.CONNECT? && Room(s, |path|, slack)
    requires path != [] && !ConnectAfter(path).Dead?
    ensures Goes(s, t, path, s.(state := ConnectAfter(path), nread := s.nread + |path|), Push(t, Data(Url, path)),
                 slack)
    ensures InUrl(ConnectAfter(path))
  {
    hide Goes, ParseUrlChar, Push;
    var n := |path| - 1;
    var d := path[..n];
    DeadStays(ConnectAfter(d), path[n]);
    Invariant.UrlStates(ConnectAfter(d), path[n]);
    assert ConnectAfter(path) == ParseUrlChar(ConnectAfter(d), path[n]);
    if n == 0 {
      assert path == [path[0]];
      ConnectByte(s, t, path[0], slack);
    } else {
      GoesConnectUrl(s, t, d, slack);
      var s1 := s.(state := ConnectAfter(d), nread := s.nread + n);
      UrlByte(s1, Push(t, Data(Url, d)), path[n], slack);
      PushTwice(t, Url, d, [path[n]]);
      assert d + [path[n]] == path;
      GoesOn(s, t, d, s1, Push(t, Data(Url, d)), [path[n]], s.(state := ConnectAfter(path), nread := s.nread + |path|),
             Push(t, Data(Url, path)), slack);
    }
  }

  /** The target, whatever the method. */
  lemma GoesTarget(s: Parser, t: seq<Event>, l: Start, slack: nat)
    requires l.RequestLine? && GoodStart(l) && s.errno.OK? && s.state.ReqSpacesBeforeUrl? && s.verb == l.verb
    requires Room(s, |l.path|, slack)
    ensures Goes(s, t, l.path, s.(state := UrlOf(l), nread := s.nread + |l.path|), Push(t, Data(Url, l.path)), slack)
    ensures UrlOf(l) in {ReqServer, ReqServerWithAt, ReqPath, ReqQueryStringStart, ReqQueryString, ReqFragmentStart,
                         ReqFragment}
  {
    hide Goes, ConnectAfter, UrlAfter, Push;
    if l.verb.CONNECT? {
      ConnectNotEmpty(l.path);
      GoesConnectUrl(s, t, l.path, slack);
    } else {
      TargetNotEmpty(l.path);
      GoesUrl(s, t, l.path, slack);
    }
  }

  lemma ConnectNotEmpty(path: string)
    requires IsAuthority(path)
    ensures path != [] && !ConnectAfter(path).Dead?
  {
  }

  lemma GoesRequestStart(s: Parser, t: seq<Event>, l: Start, slack: nat) returns (s': Parser)
    requires l.RequestLine? && AtStart(s, l) && GoodStart(l) && Room(s, |StartText(l)|, slack)
    ensures Goes(s, t, StartText(l), s', t + StartEvents(l), slack) && HasStarted(s, l, s')
  {
    hide Goes, MethodString, UrlOf, Push, IsNum, Digit, IsTarget, IsAuthority;
    var w, path := MethodString(l.verb) + " ", l.path;
    var s1 := AfterMethod(s, l.verb);
    var s2 := s1.(state := UrlOf(l), nread := s1.nread + |path|);
    var t1 := t + [Notify(MessageBegin)];
    var t2 := Push(t1, Data(Url, path));
    GoesMethod(s, t, l.verb, slack);
    GoesTarget(s1, t1, l, slack);
    GoesOn(s, t, w, s1, t1, path, s2, t2, slack);
    UrlAppended(t, path);
    if l.version.Unsaid? {
      s' := s2.(state := HeaderFieldStart, major := 0, minor := 9, nread := s2.nread + 2);
      GoesSimpleEnd(s2, t1, path, slack);
      GoesOn(s, t, w + path, s2, t2, CRLF, s', t2, slack);
    } else {
      var s3 := s2.(state := ReqHttpStart, nread := s2.nread + 1);
      var text := VersionText(l.version) + CRLF;
      s' := s3.(state := HeaderFieldStart, major := Digit(l.version.major), minor := Digit(l.version.minor),
                nread := s3.nread + 10);
      GoesUrlEnd(s2, t1, path, slack);
      GoesVersionOf(s3, t2, l.version.major, l.version.minor, slack);
      GoesOn(s, t, w + path, s2, t2, [' '], s3, t2, slack);
      GoesOn(s, t, w + path + [' '], s3, t2, text, s', t2, slack);
      assert w + path + [' '] + text == w + path + (" " + text);
    }
  }

  // ----- status lines

  lemma BeginActs(s: Parser)
    requires s.state.StartRes?
    ensures Act(Counted(s), 'H', true) == Effect(FreshMessage(Counted(s)).(state := ResH), [Tell(MessageBegin)], false)
  {
  }

  lemma ResponseActs(s: Parser)
    ensures s.state.ResH? ==> Act(Counted(s), 'T', true) == Effect(Counted(s).(state := ResHT), [], false)
    ensures s.state.ResHT? ==> Act(Counted(s), 'T', true) == Effect(Counted(s).(state := ResHTT), [], false)
    ensures s.state.ResHTT? ==> Act(Counted(s), 'P', true) == Effect(Counted(s).(state := ResHTTP), [], false)
  {
  }

  lemma ResponseActsMore(s: Parser)
    ensures s.state.ResHTTP? ==> Act(Counted(s), '/', true) == Effect(Counted(s).(state := ResHttpMajor), [], false)
    ensures s.state.ResHttpDot? ==> Act(Counted(s), '.', true) == Effect(Counted(s).(state := ResHttpMinor), [], false)
    ensures s.state.ResHttpEnd? ==>
              Act(Counted(s), ' ', true) == Effect(Counted(s).(state := ResFirstStatusCode), [], false)
    ensures s.state.ResLineAlmostDone? ==>
              Act(Counted(s), LF, true) == Effect(Counted(s).(state := HeaderFieldStart), [], false)
  {
  }

  lemma VersionActs(s: Parser, d: char)
    requires IsNum(d)
    ensures s.state.ResHttpMajor? ==>
              Act(Counted(s), d, true) == Effect(Counted(s).(state := ResHttpDot, major := Digit(d)), [], false)
    ensures s.state.ResHttpMinor? ==>
              Act(Counted(s), d, true) == Effect(Counted(s).(state := ResHttpEnd, minor := Digit(d)), [], false)
    ensures s.state.ResFirstStatusCode? ==>
              Act(Counted(s), d, true) == Effect(Counted(s).(state := ResStatusCode, status := Digit(d)), [], false)
    ensures s.state.ResStatusCode? && s.status * 10 + Digit(d) <= 999 ==>
              Act(Counted(s), d, true) == Effect(Counted(s).(status := s.status * 10 + Digit(d)), [], false)
  {
    hide IsNum, Digit;
  }

  lemma GoesBegin(s: Parser, t: seq<Event>, slack: nat)
    requires s.errno.OK? && s.state.StartRes? && Room(s, 1, slack)
    ensures Goes(s, t, ['H'], FreshMessage(s).(state := ResH, nread := s.nread + 1), t + [Notify(MessageBegin)], slack)
  {
    hide Act, IsHeaderChar;
    BeginActs(s);
    assert [Tell(MessageBegin)][1..] == [];
    GoesByte(s, t, 'H', slack);
  }

  lemma GoesHtt(s: Parser, t: seq<Event>, slack: nat)
    requires s.errno.OK? && s.state.StartRes? && Room(s, 3, slack)
    ensures Goes(s, t, "HTT", FreshMessage(s).(state := ResHTT, nread := s.nread + 3), t + [Notify(MessageBegin)],
            slack)
  {
    hide Goes, Act;
    var u, r := t + [Notify(MessageBegin)], FreshMessage(s);
    var s1, s2 := r.(state := ResH, nread := s.nread + 1), r.(state := ResHT, nread := s.nread + 2);
    var s3 := r.(state := ResHTT, nread := s.nread + 3);
    GoesBegin(s, t, slack);
    ResponseActs(s1);
    GoesQuietly(s1, u, 'T', ResHT, slack);
    ResponseActs(s2);
    GoesQuietly(s2, u, 'T', ResHTT, slack);
    GoesOn(s, t, ['H'], s1, u, ['T'], s2, u, slack);
    GoesOn(s, t, ['H'] + ['T'], s2, u, ['T'], s3, u, slack);
    Three('H', 'T', 'T');
    assert "HTT" == ['H', 'T', 'T'];
  }

  lemma GoesHttpWord(s: Parser, t: seq<Event>, slack: nat)
    requires s.errno.OK? && s.state.StartRes? && Room(s, 5, slack)
    ensures Goes(s, t, "HTTP/", FreshMessage(s).(state := ResHttpMajor, nread := s.nread + 5),
                 t + [Notify(MessageBegin)], slack)
  {
    hide Goes, Act;
    var u, r := t + [Notify(MessageBegin)], FreshMessage(s);
    var s3, s4 := r.(state := ResHTT, nread := s.nread + 3), r.(state := ResHTTP, nread := s.nread + 4);
    GoesHtt(s, t, slack);
    ResponseActs(s3);
    GoesQuietly(s3, u, 'P', ResHTTP, slack);
    ResponseActsMore(s4);
    GoesQuietly(s4, u, '/', ResHttpMajor, slack);
    GoesOn(s, t, "HTT", s3, u, ['P'], s4, u, slack);
    GoesOn(s, t, "HTT" + ['P'], s4, u, ['/'], r.(state := ResHttpMajor, nread := s.nread + 5), u, slack);
    assert "HTT" + ['P'] + ['/'] == "HTTP/";
  }

  lemma GoesDigitPair(s: Parser, t: seq<Event>, a: char, b: char, slack: nat)
    requires s.errno.OK? && s.state.ResHttpMajor? && IsNum(a) && IsNum(b) && Room(s, 3, slack)
    ensures Goes(s, t, [a, '.', b], s.(state := ResHttpEnd, major := Digit(a), minor := Digit(b),
                                           nread := s.nread + 3), t, slack)
  {
    hide Goes, Act, IsNum, Digit;
    var s1 := s.(state := ResHttpDot, major := Digit(a), nread := s.nread + 1);
    var s2 := s.(state := ResHttpMinor, major := Digit(a), nread := s.nread + 2);
    var s3 := s.(state := ResHttpEnd, major := Digit(a), minor := Digit(b), nread := s.nread + 3);
    VersionActs(s, a);
    GoesChar(s, t, a, s1, slack);
    ResponseActsMore(s1);
    GoesQuietly(s1, t, '.', ResHttpMinor, slack);
    VersionActs(s2, b);
    GoesChar(s2, t, b, s3, slack);
    GoesOn(s, t, [a], s1, t, ['.'], s2, t, slack);
    GoesOn(s, t, [a] + ['.'], s2, t, [b], s3, t, slack);
    Three(a, '.', b);
  }

  /** The digits of the version and the blank behind them. */
  lemma GoesDigitsOf(s: Parser, t: seq<Event>, a: char, b: char, slack: nat)
    requires s.errno.OK? && s.state.ResHttpMajor? && IsNum(a) && IsNum(b) && Room(s, 4, slack)
    ensures Goes(s, t, [a, '.', b] + " ",
                 s.(state := ResFirstStatusCode, major := Digit(a), minor := Digit(b), nread := s.nread + 4), t, slack)
  {
    hide Goes, Act, IsNum, Digit;
    var s3 := s.(state := ResHttpEnd, major := Digit(a), minor := Digit(b), nread := s.nread + 3);
    GoesDigitPair(s, t, a, b, slack);
    ResponseActsMore(s3);
    GoesQuietly(s3, t, ' ', ResFirstStatusCode, slack);
    assert [' '] == " ";
    GoesOn(s, t, [a, '.', b], s3, t, " ", s3.(state := ResFirstStatusCode, nread := s.nread + 4), t, slack);
  }

  lemma {:induction false} GoesCode(s: Parser, t: seq<Event>, code: string, slack: nat)
    requires s.errno.OK? && s.state.ResFirstStatusCode? && IsDigits(code) && DecFrom(0, code) <= 999
    requires Room(s, |code|, slack)
    ensures Goes(s, t, code, s.(state := ResStatusCode, status := DecFrom(0, code), nread := s.nread + |code|), t,
            slack)
  {
    hide Goes, IsNum, Digit, Act;
    var n := |code| - 1;
    var d := code[..n];
    if n == 0 {
      assert code == [code[0]] && d == [];
      VersionActs(s, code[0]);
      GoesChar(s, t, code[0], s.(state := ResStatusCode, status := Digit(code[0]), nread := s.nread + 1), slack);
      assert DecFrom(0, code) == DecFrom(0, []) * 10 + Digit(code[0]);
    } else {
      GoesCode(s, t, d, slack);
      var s1 := s.(state := ResStatusCode, status := DecFrom(0, d), nread := s.nread + n);
      var s2 := s1.(status := DecFrom(0, code), nread := s1.nread + 1);
      VersionActs(s1, code[n]);
      GoesChar(s1, t, code[n], s2, slack);
      assert d + [code[n]] == code;
      GoesOn(s, t, d, s1, t, [code[n]], s2, t, slack);
    }
  }

  // ----- the reason

  lemma ReasonActs(s: Parser, ch: char)
    requires ch != CR && ch != LF
    ensures s.state.ResStatusStart? ==>
              Act(Counted(s), ch, true) == Effect(Counted(s).(state := ResStatus, index := 0), [Mark(Status)], false)
    ensures s.state.ResStatus? ==> Act(Counted(s), ch, true) == Effect(Counted(s), [], false)
    ensures s.state.ResStatusCode? && ch == ' ' ==>
              Act(Counted(s), ch, true) == Effect(Counted(s).(state := ResStatusStart), [], false)
  {
    hide IsNum, Digit;
    assert !IsNum(' ') by { BlankIsNoDigit(); }
    assert [Mark(Status)] + [] == [Mark(Status)];
  }

  lemma BlankIsNoDigit()
    ensures !IsNum(' ') && !IsNum(CR)
  {
  }

  lemma ReasonEnds(s: Parser)
    ensures s.state.ResStatus? ==>
              Act(Counted(s), CR, true) == Effect(Counted(s).(state := ResLineAlmostDone), [Deliver(Status)], false)
    ensures s.state.ResStatusStart? || s.state.ResStatusCode? ==>
              Act(Counted(s), CR, true)
              == Effect(Counted(s).(state := ResLineAlmostDone, index := 0), [Mark(Status), Deliver(Status)], false)
  {
    hide IsNum, Digit;
    BlankIsNoDigit();
    assert [Mark(Status)] + [Deliver(Status)] == [Mark(Status), Deliver(Status)];
  }

  lemma ReasonByte(s: Parser, t: seq<Event>, ch: char, slack: nat)
    requires s.errno.OK? && (s.state.ResStatusStart? || s.state.ResStatus?) && ch != CR && ch != LF && Room(s, 1, slack)
    ensures Goes(s, t, [ch], s.(state := ResStatus, index := if s.state.ResStatus? then s.index else 0,
                                nread := s.nread + 1), Push(t, Data(Status, [ch])), slack)
  {
    hide Act, IsHeaderChar, Push, Goes;
    ReasonActs(s, ch);
    assert [Mark(Status)][1..] == [];
    GoesByte(s, t, ch, slack);
  }

  lemma {:induction false} GoesReason(s: Parser, t: seq<Event>, text: string, slack: nat)
    requires s.errno.OK? && s.state.ResStatusStart? && text != [] && IsReason(text) && Room(s, |text|, slack)
    ensures Goes(s, t, text, s.(state := ResStatus, index := 0, nread := s.nread + |text|), Push(t, Data(Status, text)),
                 slack)
  {
    hide Goes, Push;
    var n := |text| - 1;
    var d := text[..n];
    assert d + [text[n]] == text;
    if n == 0 {
      assert text == [text[0]];
      ReasonByte(s, t, text[0], slack);
    } else {
      assert IsReason(d) && text[n] in text;
      GoesReason(s, t, d, slack);
      var s1, t1 := s.(state := ResStatus, index := 0, nread := s.nread + n), Push(t, Data(Status, d));
      ReasonByte(s1, t1, text[n], slack);
      PushTwice(t, Status, d, [text[n]]);
      GoesOn(s, t, d, s1, t1, [text[n]], s.(state := ResStatus, index := 0, nread := s.nread + |text|),
             Push(t, Data(Status, text)), slack);
    }
  }

  /** The end of a status line without a reason, or with an empty one. */
  lemma GoesNoReason(s: Parser, t: seq<Event>, slack: nat)
    requires s.errno.OK? && (s.state.ResStatusStart? || s.state.ResStatusCode?) && Room(s, 2, slack)
    ensures Goes(s, t, CRLF, s.(state := HeaderFieldStart, index := 0, nread := s.nread + 2),
            Push(t, Data(Status, [])), slack)
  {
    hide Act, IsHeaderChar, Push, Goes;
    var u, s1 := Push(t, Data(Status, [])), s.(state := ResLineAlmostDone, index := 0, nread := s.nread + 1);
    ReasonEnds(s);
    assert [Mark(Status), Deliver(Status)] == [Mark(Status)] + ([Deliver(Status)] + []);
    EmitMark(t, Status, [Deliver(Status)] + [], CR, true);
    EmitDeliver(t, Status, [], CR, true);
    GoesByte(s, t, CR, slack);
    ResponseActsMore(s1);
    GoesQuietly(s1, u, LF, HeaderFieldStart, slack);
    GoesOn(s, t, [CR], s1, u, [LF], s.(state := HeaderFieldStart, index := 0, nread := s.nread + 2), u, slack);
    assert [CR] + [LF] == CRLF;
  }

  lemma GoesReasonEnd(s: Parser, t: seq<Event>, text: string, slack: nat)
    requires s.errno.OK? && s.state.ResStatus? && Room(s, 2, slack)
    ensures Goes(s, Push(t, Data(Status, text)), CRLF, s.(state := HeaderFieldStart, nread := s.nread + 2),
                 Push(t, Data(Status, text)), slack)
  {
    hide Act, IsHeaderChar, Push, Goes;
    var u, s1 := Push(t, Data(Status, text)), s.(state := ResLineAlmostDone, nread := s.nread + 1);
    ReasonEnds(s);
    assert [Deliver(Status)][1..] == [];
    PushEmpty(t, Status, text);
    GoesByte(s, u, CR, slack);
    ResponseActsMore(s1);
    GoesQuietly(s1, u, LF, HeaderFieldStart, slack);
    GoesOn(s, u, [CR], s1, u, [LF], s.(state := HeaderFieldStart, nread := s.nread + 2), u, slack);
    assert [CR] + [LF] == CRLF;
  }

  /** The rest of a status line behind the code. */
  lemma GoesLineEnd(s: Parser, t: seq<Event>, reason: MaybeReason, slack: nat) returns (s': Parser)
    requires s.errno.OK? && s.state.ResStatusCode? && (reason.Reason? ==> IsReason(reason.text))
    requires Room(s, |ReasonText(reason)| + 2, slack)
    ensures Goes(s, t, ReasonText(reason) + CRLF, s',
                 Push(t, Data(Status, if reason.NoReason? then [] else reason.text)), slack)
    ensures s' == s.(state := HeaderFieldStart, index := s'.index, nread := s.nread + |ReasonText(reason)| + 2)
  {
    hide Goes, Push, Act;
    if reason.NoReason? {
      GoesNoReason(s, t, slack);
      assert [] + CRLF == CRLF;
      s' := s.(state := HeaderFieldStart, index := 0, nread := s.nread + 2);
    } else {
      var s1 := s.(state := ResStatusStart, nread := s.nread + 1);
      ReasonActs(s, ' ');
      GoesQuietly(s, t, ' ', ResStatusStart, slack);
      assert [' '] == " ";
      if reason.text == [] {
        s' := s1.(state := HeaderFieldStart, index := 0, nread := s1.nread + 2);
        GoesNoReason(s1, t, slack);
        GoesOn(s, t, " ", s1, t, CRLF, s', Push(t, Data(Status, [])), slack);
        assert " " + reason.text + CRLF == " " + CRLF;
      } else {
        var u, s2 := Push(t, Data(Status, reason.text)),
            s1.(state := ResStatus, index := 0, nread := s1.nread + |reason.text|);
        s' := s2.(state := HeaderFieldStart, nread := s2.nread + 2);
        GoesReason(s1, t, reason.text, slack);
        GoesReasonEnd(s2, t, reason.text, slack);
        GoesOn(s, t, " ", s1, t, reason.text, s2, u, slack);
        GoesOn(s, t, " " + reason.text, s2, u, CRLF, s', u, slack);
      }
    }
  }

  lemma StatusAppended(t: seq<Event>, text: string)
    ensures Push(t + [Notify(MessageBegin)], Data(Status, text)) == t + [Notify(MessageBegin), Data(Status, text)]
  {
  }

  lemma GoesResponseStart(s: Parser, t: seq<Event>, l: Start, slack: nat) returns (s': Parser)
    requires l.StatusLine? && AtStart(s, l) && GoodStart(l) && Room(s, |StartText(l)|, slack)
    ensures Goes(s, t, StartText(l), s', t + StartEvents(l), slack) && HasStarted(s, l, s')
  {
    hide Goes, Push, IsNum, Digit, IsReason, DecFrom;
    var a, b, code, reason := l.version.major, l.version.minor, l.code, l.reason;
    var t1 := t + [Notify(MessageBegin)];
    var text := if reason.NoReason? then [] else reason.text;
    var s1 := FreshMessage(s).(state := ResHttpMajor, nread := s.nread + 5);
    var s2 := s1.(state := ResFirstStatusCode, major := Digit(a), minor := Digit(b), nread := s1.nread + 4);
    var s3 := s2.(state := ResStatusCode, status := DecFrom(0, code), nread := s2.nread + |code|);
    assert |VersionText(l.version)| == 8;
    GoesHttpWord(s, t, slack);
    GoesDigitsOf(s1, t1, a, b, slack);
    GoesCode(s2, t1, code, slack);
    s' := GoesLineEnd(s3, t1, reason, slack);
    GoesOn(s, t, "HTTP/", s1, t1, [a, '.', b] + " ", s2, t1, slack);
    GoesOn(s, t, "HTTP/" + ([a, '.', b] + " "), s2, t1, code, s3, t1, slack);
    GoesOn(s, t, "HTTP/" + ([a, '.', b] + " ") + code, s3, t1, ReasonText(reason) + CRLF, s',
        Push(t1, Data(Status, text)), slack);
    assert "HTTP/" + ([a, '.', b] + " ") + code + (ReasonText(reason) + CRLF) == StartText(l);
    StatusAppended(t, text);
  }

  /** Any start line is told as itself, and leaves what it says in the parser. */
  lemma GoesStart(s: Parser, t: seq<Event>, l: Start, slack: nat) returns (s': Parser)
    requires AtStart(s, l) && GoodStart(l) && Room(s, |StartText(l)|, slack)
    ensures Goes(s, t, StartText(l), s', t + StartEvents(l), slack) && HasStarted(s, l, s')
  {
    hide Goes, GoodStart, StartText, HasStarted;
    if l.RequestLine? { s' := GoesRequestStart(s, t, l, slack); } else { s' := GoesResponseStart(s, t, l, slack); }
  }
}
