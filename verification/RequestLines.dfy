/** Request lines, the end of the headers, and bodies of known length. */
module RequestLines {
  import opened Bytes
  import opened Trace
  import opened Machine
  import opened Bytewise
  import opened Marks
  import opened Invariant
  import opened Scans
  import opened Journeys
  import opened HeaderLines
  import opened Methods

  // ----- the method

  function MethodAt(s: Parser, w: string, n: nat): Parser
    requires 1 <= n <= |w| && Chosen(w, n).SomeMethod?
  {
    FreshMessage(s).(verb := Chosen(w, n).m, state := ReqMethod, index := n, nread := s.nread + n)
  }

  lemma EnterMethod(s: Parser, t: seq<Event>, w: string, slack: nat)
    requires s.errno.OK? && s.state.StartReq? && Room(s, 1, slack) && w != [] && Chosen(w, 1).SomeMethod?
    ensures Goes(s, t, [w[0]], MethodAt(s, w, 1), t + [Notify(MessageBegin)], slack)
  {
    hide IsHeaderChar, FirstMethod;
    UpperFirst(w[0]);
    var c := Counted(s);
    assert Act(c, w[0], true) == Effect(MethodAt(s, w, 1), [Tell(MessageBegin)], false);
    assert [Tell(MessageBegin)][1..] == [];
    GoesByte(s, t, w[0], slack);
  }

  lemma UpperFirst(ch: char)
    requires FirstMethod(ch).SomeMethod?
    ensures IsAlpha(ch) && ch != CR && ch != LF
  {
  }

  lemma NextMethodByte(s: Parser, t: seq<Event>, w: string, n: nat, slack: nat)
    requires s.errno.OK? && 1 <= n < |w| && Chosen(w, n + 1).SomeMethod? && Chosen(w, n).SomeMethod?
    requires Room(s, n + 1, slack) && ('A' <= w[n] <= 'Z' || w[n] == '-')
    ensures Goes(MethodAt(s, w, n), t, [w[n]], MethodAt(s, w, n + 1), t, slack)
  {
    hide IsHeaderChar, OtherMethod, MethodString, Bytes.At;
    var m := MethodAt(s, w, n);
    var c := Counted(m);
    assert Act(c, w[n], true) == ActReqMethod(c, w[n]);
    assert ActReqMethod(c, w[n]) == Effect(MethodAt(s, w, n + 1), [], false);
    GoesByte(m, t, w[n], slack);
  }

  lemma {:induction false} GoesMethodName(s: Parser, t: seq<Event>, w: string, n: nat, slack: nat)
    requires s.errno.OK? && s.state.StartReq? && 1 <= n <= |w| && Room(s, n, slack) && Chosen(w, n).SomeMethod?
    requires forall c :: c in w ==> 'A' <= c <= 'Z' || c == '-'
    ensures Goes(s, t, w[..n], MethodAt(s, w, n), t + [Notify(MessageBegin)], slack)
  {
    hide Goes, Chosen, MethodAt;
    if n == 1 {
      assert w[..1] == [w[0]];
      EnterMethod(s, t, w, slack);
    } else {
      ChosenEarlier(w, n - 1, n);
      GoesMethodName(s, t, w, n - 1, slack);
      assert w[n - 1] in w;
      NextMethodByte(s, t + [Notify(MessageBegin)], w, n - 1, slack);
      GoesOn(s, t, w[..n - 1], MethodAt(s, w, n - 1), t + [Notify(MessageBegin)], [w[n - 1]], MethodAt(s, w, n),
             t + [Notify(MessageBegin)], slack);
      assert w[..n - 1] + [w[n - 1]] == w[..n];
    }
  }

  lemma MethodSpace(s: Parser, t: seq<Event>, m: Method, slack: nat)
    requires s.errno.OK? && s.state.ReqMethod? && s.verb == m && s.index == |MethodString(m)| && Room(s, 1, slack)
    ensures Goes(s, t, [' '], s.(state := ReqSpacesBeforeUrl, index := s.index + 1, nread := s.nread + 1), t, slack)
  {
    hide IsHeaderChar, MethodString, OtherMethod;
    var c := Counted(s);
    assert Act(c, ' ', true) == ActReqMethod(c, ' ');
    GoesByte(s, t, ' ', slack);
  }

  function AfterMethod(s: Parser, m: Method): Parser {
    var n := |MethodString(m)| + 1;
    FreshMessage(s).(verb := m, state := ReqSpacesBeforeUrl, index := n, nread := s.nread + n)
  }

  lemma GoesMethod(s: Parser, t: seq<Event>, m: Method, slack: nat)
    requires s.errno.OK? && s.state.StartReq? && Room(s, |MethodString(m)| + 1, slack)
    ensures Goes(s, t, MethodString(m) + " ", AfterMethod(s, m), t + [Notify(MessageBegin)], slack)
  {
    hide Goes, MethodString, Chosen;
    var w := MethodString(m);
    MethodReached(m);
    MethodLetters(m);
    GoesMethodName(s, t, w, |w|, slack);
    assert w[..|w|] == w;
    MethodSpace(MethodAt(s, w, |w|), t + [Notify(MessageBegin)], m, slack);
    GoesOn(s, t, w, MethodAt(s, w, |w|), t + [Notify(MessageBegin)], [' '], AfterMethod(s, m),
           t + [Notify(MessageBegin)], slack);
  }

  // ----- the target

  /** The state of parse_url_char after the bytes of a request target. */
  function UrlAfter(path: string): State {
    if path == [] then ReqSpacesBeforeUrl else ParseUrlChar(UrlAfter(path[..|path| - 1]), path[|path| - 1])
  }

  /** A request target that the parser accepts: an absolute path, `*`, or an absolute URL. */
  predicate IsTarget(path: string) {
    UrlAfter(path) in {ReqServer, ReqServerWithAt, ReqPath, ReqQueryStringStart, ReqQueryString, ReqFragmentStart,
                       ReqFragment}
  }

  /** Any path of URL characters from `/` or `*` on is a target. */
  lemma {:induction false} PathIsTarget(path: string)
    requires path != [] && (path[0] == '/' || path[0] == '*') && forall i :: 0 <= i < |path| ==> IsUrlChar(path[i])
    ensures IsTarget(path) && UrlAfter(path) == ReqPath
  {
    var n := |path| - 1;
    if n > 0 {
      PathIsTarget(path[..n]);
    } else {
      assert path[..0] == [];
    }
  }

  /** So is such a path with a query. */
  lemma {:induction false} QueryIsTarget(path: string, query: string)
    requires path != [] && (path[0] == '/' || path[0] == '*') && forall i :: 0 <= i < |path| ==> IsUrlChar(path[i])
    requires forall i :: 0 <= i < |query| ==> IsUrlChar(query[i]) || query[i] == '?'
    ensures IsTarget(path + "?" + query)
    ensures UrlAfter(path + "?" + query) in {ReqQueryStringStart, ReqQueryString}
    decreases |query|
  {
    var all := path + "?" + query;
    if query == [] {
      PathIsTarget(path);
      assert all[..|all| - 1] == path;
    } else {
      var n := |query| - 1;
      QueryIsTarget(path, query[..n]);
      assert all[..|all| - 1] == path + "?" + query[..n];
    }
  }

  lemma DeadStays(st: State, ch: char)
    ensures ParseUrlChar(st, ch) == Dead || InUrl(ParseUrlChar(st, ch))
    ensures ParseUrlChar(Dead, ch) == Dead
  {
    UrlStates(st, ch);
  }

  lemma UrlCharNotEnd(st: State, ch: char)
    requires !ParseUrlChar(st, ch).Dead?
    ensures ch != ' ' && ch != CR && ch != LF
  {
  }

  lemma UrlByte(s: Parser, t: seq<Event>, ch: char, slack: nat)
    requires s.errno.OK? && (s.state.ReqSpacesBeforeUrl? ==> !s.verb.CONNECT?) && Room(s, 1, slack)
    requires (s.state.ReqSpacesBeforeUrl? || InUrl(s.state)) && !ParseUrlChar(s.state, ch).Dead?
    ensures Goes(s, t, [ch], s.(state := ParseUrlChar(s.state, ch), nread := s.nread + 1), Push(t, Data(Url, [ch])),
            slack)
  {
    hide IsHeaderChar, ParseUrlChar, Push;
    UrlCharNotEnd(s.state, ch);
    var c := Counted(s);
    var f := c.(state := ParseUrlChar(s.state, ch));
    assert UrlStep(c, s.state, ch) == Effect(f, [], false);
    assert [Mark(Url)][1..] == [];
    if s.state.ReqSpacesBeforeUrl? {
      assert Act(c, ch, true) == After([Mark(Url)], UrlStep(c, ReqSpacesBeforeUrl, ch));
    } else {
      assert Act(c, ch, true) == UrlStep(c, s.state, ch);
    }
    GoesByte(s, t, ch, slack);
  }

  lemma {:induction false} GoesUrl(s: Parser, t: seq<Event>, path: string, slack: nat)
    requires s.errno.OK? && s.state.ReqSpacesBeforeUrl? && !s.verb.CONNECT? && Room(s, |path|, slack)
    requires path != [] && InUrl(UrlAfter(path))
    ensures Goes(s, t, path, s.(state := UrlAfter(path), nread := s.nread + |path|), Push(t, Data(Url, path)), slack)
  {
    hide Goes, ParseUrlChar, Push;
    var n := |path| - 1;
    var d := path[..n];
    DeadStays(UrlAfter(d), path[n]);
    DeadStays(ReqSpacesBeforeUrl, path[n]);
    assert UrlAfter(path) == ParseUrlChar(UrlAfter(d), path[n]);
    if n == 0 {
      assert path == [path[0]];
      UrlByte(s, t, path[0], slack);
    } else {
      PrefixInUrl(path);
      GoesUrl(s, t, d, slack);
      var s1 := s.(state := UrlAfter(d), nread := s.nread + n);
      UrlByte(s1, Push(t, Data(Url, d)), path[n], slack);
      PushTwice(t, Url, d, [path[n]]);
      assert d + [path[n]] == path;
      GoesOn(s, t, d, s1, Push(t, Data(Url, d)), [path[n]], s.(state := UrlAfter(path), nread := s.nread + |path|),
             Push(t, Data(Url, path)), slack);
    }
  }

  lemma PrefixInUrl(path: string)
    requires |path| > 1 && InUrl(UrlAfter(path))
    ensures InUrl(UrlAfter(path[..|path| - 1]))
  {
    hide ParseUrlChar;
    var d := path[..|path| - 1];
    DeadStays(UrlAfter(d[..|d| - 1]), d[|d| - 1]);
    DeadStays(UrlAfter(d), path[|path| - 1]);
  }

  lemma GoesUrlEnd(s: Parser, t: seq<Event>, path: string, slack: nat)
    requires s.errno.OK? && Room(s, 1, slack)
    requires s.state in {ReqServer, ReqServerWithAt, ReqPath, ReqQueryStringStart, ReqQueryString, ReqFragmentStart,
                         ReqFragment}
    ensures Goes(s, Push(t, Data(Url, path)), [' '], s.(state := ReqHttpStart, nread := s.nread + 1),
                 Push(t, Data(Url, path)), slack)
  {
    hide IsHeaderChar, Push;
    var c := Counted(s);
    assert Act(c, ' ', true) == Effect(c.(state := ReqHttpStart), [Deliver(Url)], false);
    assert [Deliver(Url)][1..] == [];
    PushEmpty(t, Url, path);
    GoesByte(s, Push(t, Data(Url, path)), ' ', slack);
  }

  // ----- the version

  lemma HttpActs(s: Parser)
    ensures s.state.ReqHttpStart? ==> Act(Counted(s), 'H', true) == Effect(Counted(s).(state := ReqHttpH), [], false)
    ensures s.state.ReqHttpH? ==> Act(Counted(s), 'T', true) == Effect(Counted(s).(state := ReqHttpHT), [], false)
    ensures s.state.ReqHttpHT? ==> Act(Counted(s), 'T', true) == Effect(Counted(s).(state := ReqHttpHTT), [], false)
  {
  }

  lemma HttpActsMore(s: Parser)
    ensures s.state.ReqHttpHTT? ==> Act(Counted(s), 'P', true) == Effect(Counted(s).(state := ReqHttpHTTP), [], false)
    ensures s.state.ReqHttpHTTP? ==> Act(Counted(s), '/', true) == Effect(Counted(s).(state := ReqHttpMajor), [], false)
    ensures s.state.ReqHttpDot? ==> Act(Counted(s), '.', true) == Effect(Counted(s).(state := ReqHttpMinor), [], false)
  {
  }

  lemma NumberActs(s: Parser, d: char)
    requires IsNum(d)
    ensures s.state.ReqHttpMajor? ==>
              Act(Counted(s), d, true) == Effect(Counted(s).(state := ReqHttpDot, major := Digit(d)), [], false)
    ensures s.state.ReqHttpMinor? ==>
              Act(Counted(s), d, true) == Effect(Counted(s).(state := ReqHttpEnd, minor := Digit(d)), [], false)
  {
    hide IsNum, Digit;
  }

  lemma GoesHt(s: Parser, t: seq<Event>, slack: nat)
    requires s.errno.OK? && s.state.ReqHttpStart? && Room(s, 3, slack)
    ensures Goes(s, t, "HTT", s.(state := ReqHttpHTT, nread := s.nread + 3), t, slack)
  {
    hide Goes, Act;
    var s1 := s.(state := ReqHttpH, nread := s.nread + 1);
    var s2 := s.(state := ReqHttpHT, nread := s.nread + 2);
    var s3 := s.(state := ReqHttpHTT, nread := s.nread + 3);
    HttpActs(s);
    HttpActs(s1);
    HttpActs(s2);
    GoesQuietly(s, t, 'H', ReqHttpH, slack);
    GoesQuietly(s1, t, 'T', ReqHttpHT, slack);
    GoesQuietly(s2, t, 'T', ReqHttpHTT, slack);
    GoesOn(s, t, ['H'], s1, t, ['T'], s2, t, slack);
    GoesOn(s, t, ['H'] + ['T'], s2, t, ['T'], s3, t, slack);
    Three('H', 'T', 'T');
    assert "HTT" == ['H', 'T', 'T'];
  }

  lemma Three(a: char, b: char, c: char)
    ensures [a] + [b] + [c] == [a, b, c]
  {
  }

  lemma GoesHttp(s: Parser, t: seq<Event>, slack: nat)
    requires s.errno.OK? && s.state.ReqHttpStart? && Room(s, 5, slack)
    ensures Goes(s, t, "HTTP/", s.(state := ReqHttpMajor, nread := s.nread + 5), t, slack)
  {
    hide Goes, Act;
    var s3 := s.(state := ReqHttpHTT, nread := s.nread + 3);
    var s4 := s.(state := ReqHttpHTTP, nread := s.nread + 4);
    var s5 := s.(state := ReqHttpMajor, nread := s.nread + 5);
    HttpActsMore(s3);
    HttpActsMore(s4);
    GoesHt(s, t, slack);
    GoesQuietly(s3, t, 'P', ReqHttpHTTP, slack);
    GoesQuietly(s4, t, '/', ReqHttpMajor, slack);
    GoesOn(s, t, "HTT", s3, t, ['P'], s4, t, slack);
    GoesOn(s, t, "HTT" + ['P'], s4, t, ['/'], s5, t, slack);
    assert "HTT" + ['P'] + ['/'] == "HTTP/";
  }

  lemma GoesNumber(s: Parser, t: seq<Event>, a: char, b: char, slack: nat)
    requires s.errno.OK? && s.state.ReqHttpMajor? && IsNum(a) && IsNum(b) && Room(s, 3, slack)
    ensures Goes(s, t, [a, '.', b], s.(state := ReqHttpEnd, major := Digit(a), minor := Digit(b),
                                           nread := s.nread + 3), t, slack)
  {
    hide Goes, Act, IsNum, Digit;
    var s1 := s.(state := ReqHttpDot, major := Digit(a), nread := s.nread + 1);
    var s2 := s.(state := ReqHttpMinor, major := Digit(a), nread := s.nread + 2);
    var s3 := s.(state := ReqHttpEnd, major := Digit(a), minor := Digit(b), nread := s.nread + 3);
    NumberActs(s, a);
    GoesChar(s, t, a, s1, slack);
    HttpActsMore(s1);
    GoesQuietly(s1, t, '.', ReqHttpMinor, slack);
    NumberActs(s2, b);
    GoesChar(s2, t, b, s3, slack);
    GoesOn(s, t, [a], s1, t, ['.'], s2, t, slack);
    GoesOn(s, t, [a] + ['.'], s2, t, [b], s3, t, slack);
    Three(a, '.', b);
  }

  /** The version and the end of a request line. */
  lemma GoesVersionOf(s: Parser, t: seq<Event>, a: char, b: char, slack: nat)
    requires s.errno.OK? && s.state.ReqHttpStart? && IsNum(a) && IsNum(b) && Room(s, 10, slack)
    ensures Goes(s, t, "HTTP/" + [a, '.', b] + CRLF,
                 s.(state := HeaderFieldStart, major := Digit(a), minor := Digit(b), nread := s.nread + 10), t, slack)
  {
    hide Goes, Act, IsNum, Digit;
    var s5 := s.(state := ReqHttpMajor, nread := s.nread + 5);
    var s8 := s.(state := ReqHttpEnd, major := Digit(a), minor := Digit(b), nread := s.nread + 8);
    var s9 := s8.(state := ReqLineAlmostDone, nread := s.nread + 9);
    var s10 := s8.(state := HeaderFieldStart, nread := s.nread + 10);
    GoesHttp(s, t, slack);
    GoesNumber(s5, t, a, b, slack);
    assert Act(Counted(s8), CR, true) == Effect(Counted(s8).(state := ReqLineAlmostDone), [], false)
      by { LineEndActs(s8); }
    assert Act(Counted(s9), LF, true) == Effect(Counted(s9).(state := HeaderFieldStart), [], false)
      by { LineEndActs(s9); }
    GoesQuietly(s8, t, CR, ReqLineAlmostDone, slack);
    GoesQuietly(s9, t, LF, HeaderFieldStart, slack);
    GoesOn(s, t, "HTTP/", s5, t, [a, '.', b], s8, t, slack);
    GoesOn(s, t, "HTTP/" + [a, '.', b], s8, t, [CR], s9, t, slack);
    GoesOn(s, t, "HTTP/" + [a, '.', b] + [CR], s9, t, [LF], s10, t, slack);
    assert "HTTP/" + [a, '.', b] + [CR] + [LF] == "HTTP/" + [a, '.', b] + CRLF;
  }

  lemma GoesVersion(s: Parser, t: seq<Event>, slack: nat)
    requires s.errno.OK? && s.state.ReqHttpStart? && Room(s, 10, slack)
    ensures Goes(s, t, "HTTP/1.1" + CRLF, s.(state := HeaderFieldStart, major := 1, minor := 1, nread := s.nread + 10),
                 t, slack)
  {
    hide Goes;
    GoesVersionOf(s, t, '1', '1', slack);
    assert "HTTP/" + ['1', '.', '1'] + CRLF == "HTTP/1.1" + CRLF;
  }

  lemma LineEndActs(s: Parser)
    ensures s.state.ReqHttpEnd? ==>
              Act(Counted(s), CR, true) == Effect(Counted(s).(state := ReqLineAlmostDone), [], false)
    ensures s.state.ReqLineAlmostDone? ==>
              Act(Counted(s), LF, true) == Effect(Counted(s).(state := HeaderFieldStart), [], false)
  {
  }

  lemma GoesChar(s: Parser, t: seq<Event>, ch: char, s': Parser, slack: nat)
    requires s.errno.OK? && Resume(s.state).NoMark? && ParsingHeader(s.state) && Room(s, 1, slack)
    requires Act(Counted(s), ch, true) == Effect(s', [], false) && s'.errno.OK?
    ensures Goes(s, t, [ch], s', t, slack)
  {
    hide Act, IsHeaderChar;
    GoesByte(s, t, ch, slack);
  }

  // ----- the end of the headers of a request

  /** The flags that no plain header sets. */
  predicate PlainFlags(f: Flags) {
    !f.chunked && !f.connClose && !f.connUpgrade && !f.trailing && !f.upgrade && !f.skipBody
  }

  /** A request whose headers are read. */
  predicate PlainRequest(s: Parser) {
    s.kind.Request? && s.major == 1 && s.minor == 1 && !s.verb.CONNECT? && PlainFlags(s.flags)
  }

  lemma KeepsAlive(s: Parser)
    requires PlainRequest(s)
    ensures NewMessage(s) == StartReq
  {
  }

  lemma BlankCr(s: Parser, t: seq<Event>, slack: nat)
    requires LineStart(s) && Room(s, 1, slack)
    ensures Goes(s, t, [CR], s.(state := HeadersAlmostDone, nread := s.nread + 1), Settled(s, t), slack)
  {
    hide IsHeaderChar, CommitValue, Push;
    var c := Counted(s);
    ActIs(c, CR, true);
    hide Act;
    var e := Act(c, CR, true);
    var f := c.(state := HeadersAlmostDone);
    if !s.state.HeaderFieldStart? { CommitCounted(s); }
    assert ActFieldStart(c.(state := HeaderFieldStart), CR) == Effect(f, [], false);
    if s.state.HeaderValueDiscardLws? {
      var acts := [Mark(Value)] + ([Deliver(Value)] + []);
      assert acts == [Mark(Value), Deliver(Value)] + [];
      assert e == Effect(f, acts, false);
      EmitMark(t, Value, [Deliver(Value)] + [], CR, true);
      EmitDeliver(t, Value, [], CR, true);
    } else {
      assert e == Effect(f, [], false);
    }
    GoesByte(s, t, CR, slack);
  }

  /** The callbacks at the last byte of the headers. */
  lemma HeadersEndActs(s: Parser)
    requires s.errno.OK? && s.state.HeadersAlmostDone? && PlainRequest(s)
    ensures var e := Act(Counted(s), LF, true);
            var done := [Tell(HeadersComplete(s.contentLength, false, false))];
            if s.contentLength == 0 || s.contentLength == ULLONG_MAX then
              e == Effect(s.(state := StartReq, nread := 0, upgrade := false), done + [Tell(MessageComplete)], false)
            else
              e == Effect(s.(state := BodyIdentity, nread := 0, upgrade := false), done + [], false)
  {
    hide NewMessage;
    KeepsAlive(s.(state := HeadersDone, upgrade := false, nread := 0));
  }

  lemma BlankLf(s: Parser, t: seq<Event>, slack: nat)
    requires s.errno.OK? && s.state.HeadersAlmostDone? && PlainRequest(s) && Room(s, 1, slack)
    ensures var u := t + [Notify(HeadersComplete(s.contentLength, false, false))];
            if s.contentLength == 0 || s.contentLength == ULLONG_MAX then
              Goes(s, t, [LF], s.(state := StartReq, nread := 0, upgrade := false), u + [Notify(MessageComplete)],
                  slack)
            else
              Goes(s, t, [LF], s.(state := BodyIdentity, nread := 0, upgrade := false), u, slack)
  {
    hide IsHeaderChar, Act, Goes, PlainRequest;
    HeadersEndActs(s);
    var n := HeadersComplete(s.contentLength, false, false);
    var u := t + [Notify(n)];
    EmitTell(t, NoMark, n, [Tell(MessageComplete)], LF, true);
    EmitTell(t, NoMark, n, [], LF, true);
    EmitTell(u, NoMark, MessageComplete, [], LF, true);
    assert [Tell(MessageComplete)] + [] == [Tell(MessageComplete)];
    GoesByte(s, t, LF, slack);
  }

  // ----- a body of known length

  lemma LastByteActs(s: Parser, ch: char)
    requires s.errno.OK? && s.state.BodyIdentity? && PlainRequest(s) && s.contentLength == 1 && !s.upgrade
    ensures Act(Counted(s), ch, true)
         == Effect(s.(state := StartReq, contentLength := 0),
             [Mark(Body), DeliverThrough(Body)] + [Tell(MessageComplete)], false)
  {
    hide NewMessage;
    KeepsAlive(s.(state := MessageDone, contentLength := 0));
  }

  lemma LastByte(s: Parser, t: seq<Event>, ch: char, slack: nat)
    requires s.errno.OK? && s.state.BodyIdentity? && PlainRequest(s) && s.contentLength == 1 && !s.upgrade
    ensures Goes(s, t, [ch], s.(state := StartReq, contentLength := 0),
                 Push(t, Data(Body, [ch])) + [Notify(MessageComplete)], slack)
  {
    hide IsHeaderChar, Act, PlainRequest, Goes;
    LastByteActs(s, ch);
    EmitMark(t, Body, [DeliverThrough(Body)] + [Tell(MessageComplete)], ch, true);
    EmitThrough(t, Body, [Tell(MessageComplete)], ch, true);
    EmitTell(Push(t, Data(Body, [ch])), NoMark, MessageComplete, [], ch, true);
    assert [Tell(MessageComplete)] + [] == [Tell(MessageComplete)];
    assert [Mark(Body)] + ([DeliverThrough(Body)] + [Tell(MessageComplete)])
        == [Mark(Body), DeliverThrough(Body)] + [Tell(MessageComplete)];
    GoesByte(s, t, ch, slack);
  }

  lemma GoesWholeBody(s: Parser, t: seq<Event>, body: string, slack: nat)
    requires s.errno.OK? && s.state.BodyIdentity? && PlainRequest(s) && body != [] && s.contentLength == |body|
             && !s.upgrade
    ensures Goes(s, t, body, s.(state := StartReq, contentLength := 0),
                 Push(t, Data(Body, body)) + [Notify(MessageComplete)], slack)
  {
    hide Goes, PlainRequest, Push;
    var n := |body| - 1;
    var d := body[..n];
    assert d + [body[n]] == body;
    if n == 0 {
      assert body == [body[0]];
      LastByte(s, t, body[0], slack);
    } else {
      GoesBody(s, t, d, slack);
      var s1 := s.(contentLength := 1);
      assert PlainRequest(s1) by { LengthOnly(s, 1); }
      LastByte(s1, Push(t, Data(Body, d)), body[n], slack);
      PushTwice(t, Body, d, [body[n]]);
      GoesOn(s, t, d, s1, Push(t, Data(Body, d)), [body[n]], s.(state := StartReq, contentLength := 0),
             Push(t, Data(Body, body)) + [Notify(MessageComplete)], slack);
    }
  }

  lemma LengthOnly(s: Parser, n: nat)
    requires PlainRequest(s)
    ensures PlainRequest(s.(contentLength := n))
  {
  }
}
