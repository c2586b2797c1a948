/** Which URLs are accepted: exactly those of a grammar, read from left to right with nothing taken back. */
module UrlGrammar {
  import opened Bytes
  import opened Machine
  import opened Lengths
  import opened Urls
  import opened UrlText

  // ----- the grammar

  /** How many characters from the start on are of the class. */
  function Reach(p: char -> bool, w: string): (k: nat)
    ensures k <= |w| && (k < |w| ==> !p(w[k])) && All(p, w[..k])
  {
    if w != [] && p(w[0]) then
      var k := 1 + Reach(p, w[1..]);
      assert w[..k] == [w[0]] + w[1..][..k - 1];
      k
    else 0
  }

  /** What stands behind a part of an authority, if there is such a part. */
  datatype Behind = No | Yes(rest: string)

  function BehindBracket(w: string): Behind { if w != [] && w[0] == ']' then Yes(w[1..]) else No }

  /** One character of a zone or more, and the bracket. */
  function BehindZone(w: string): Behind {
    var k := Reach(IsZoneChar, w); if k == 0 then No else BehindBracket(w[k..])
  }

  /** One character of an IPv6 address or more, perhaps a zone, and the bracket. */
  function BehindAddr(w: string): Behind {
    var k := Reach(IsV6Char, w);
    if k == 0 then No else if k < |w| && w[k] == '%' then BehindZone(w[k + 1..]) else BehindBracket(w[k..])
  }

  /** A bracketed address, or one character of a name or more. */
  function BehindHost(w: string): Behind {
    if w != [] && w[0] == '[' then BehindAddr(w[1..])
    else
      var k := Reach(IsHostChar, w);
      if k == 0 then No else Yes(w[k..])
  }

  /** With an `@`, user information comes first; it may be empty. */
  function BehindAuthority(a: string): Behind {
    if '@' in a then
      var k := Reach(IsUserinfoChar, a);
      if k < |a| && a[k] == '@' then BehindHost(a[k + 1..]) else No
    else BehindHost(a)
  }

  predicate PortForm(p: string) { p == [] || (p[0] == ':' && IsDigits(p[1..])) }

  /** A host, and perhaps a port of 16 bits. */
  predicate GoodAuthority(a: string) {
    var b := BehindAuthority(a);
    b.Yes? && PortForm(b.rest) && (b.rest != [] ==> DecFrom(0, b.rest[1..]) <= LIMIT)
  }

  predicate GoodQuery(w: string) {
    var k := Reach(IsQueryChar, w); k == |w| || (w[k] == '#' && All(IsFragmentChar, w[k + 1..]))
  }

  predicate GoodPath(w: string) {
    var k := Reach(IsUrlChar, w);
    k == |w| || (w[k] == '?' && GoodQuery(w[k + 1..])) || (w[k] == '#' && All(IsFragmentChar, w[k + 1..]))
  }

  /** Behind an authority: nothing, a path or a query. */
  predicate GoodTail(t: string) {
    t == [] || (t[0] == '/' && GoodPath(t[1..])) || (t[0] == '?' && GoodQuery(t[1..]))
  }

  predicate GoodAbsolute(buf: string) {
    var k := Reach(IsAlpha, buf);
    && 0 < k && k + 3 <= |buf| && buf[k..k + 3] == "://"
    && var rest := buf[k + 3..];
    var e := Reach(IsServerChar, rest);
    GoodAuthority(rest[..e]) && GoodTail(rest[e..])
  }

  predicate GoodText(buf: string) {
    buf == [] || if buf[0] == '/' || buf[0] == '*' then GoodPath(buf[1..]) else GoodAbsolute(buf)
  }

  // ----- the authority

  lemma HostFoldOne(x: HostScan, ch: char)
    ensures HostFold(x, [ch]) == HostStep(x, ch)
  {
    hide HostStep;
    assert [ch][..0] == [];
    HostFoldNone(x);
  }

  lemma HostFoldCons(x: HostScan, w: string)
    requires w != []
    ensures HostFold(x, w) == HostFold(HostStep(x, w[0]), w[1..])
  {
    hide HostStep, HostFold;
    assert w == [w[0]] + w[1..];
    HostFoldOne(x, w[0]);
    HostFoldAppend(x, [w[0]], w[1..]);
  }

  lemma HostFoldDies(x: HostScan, w: string)
    requires x.s.HostDead? || (w != [] && ParseHostChar(x.s, w[0]).HostDead?)
    ensures HostFold(x, w).s.HostDead?
  {
    hide ParseHostChar, HostStep, HostFold;
    if x.s.HostDead? {
      HostFoldNone(x);
      assert w[..0] == [];
      HostStaysDead(x, w, 0);
    } else {
      HostStepCount(x, w[0]);
      HostFoldOne(x, w[0]);
      assert w[..1] == [w[0]];
      HostStaysDead(x, w, 1);
    }
  }

  /** A state that stays while the characters are of the class. */
  lemma {:induction false} Stays(x: HostScan, p: char -> bool, w: string)
    requires forall c :: p(c) ==> ParseHostChar(x.s, c) == x.s
    ensures HostFold(x, w[..Reach(p, w)]).s == x.s
    decreases |w|
  {
    hide HostFold, ParseHostChar, HostStep;
    var k := Reach(p, w);
    if k == 0 {
      HostFoldNone(x);
    } else {
      HostStepCount(x, w[0]);
      HostFoldCons(x, w[..k]);
      assert w[..k][1..] == w[1..][..k - 1];
      Stays(HostStep(x, w[0]), p, w[1..]);
    }
  }

  predicate AtHostEnd(s: HostState, rest: string) {
    s.V6End? || (s.Name? && (rest == [] || !IsHostChar(rest[0])))
  }

  /** What stands behind the host is read at its end, and without a host the authority is refused. */
  ghost predicate Splits(x: HostScan, w: string, b: Behind) {
    match b
    case No => !HostEnds(HostFold(x, w).s)
    case Yes(rest) =>
      && |rest| <= |w| && w == w[..|w| - |rest|] + rest
      && AtHostEnd(HostFold(x, w[..|w| - |rest|]).s, rest)
  }

  lemma SplitsLater(x: HostScan, w: string, k: nat, b: Behind)
    requires k <= |w| && Splits(HostFold(x, w[..k]), w[k..], b)
    ensures Splits(x, w, b)
  {
    hide HostFold, AtHostEnd;
    assert w == w[..k] + w[k..];
    if b.No? {
      HostFoldAppend(x, w[..k], w[k..]);
    } else {
      var n := |w| - |b.rest|;
      assert w[..n] == w[..k] + w[k..][..n - k];
      HostFoldAppend(x, w[..k], w[k..][..n - k]);
    }
  }

  lemma SplitsNext(x: HostScan, w: string, b: Behind)
    requires w != [] && Splits(HostStep(x, w[0]), w[1..], b)
    ensures Splits(x, w, b)
  {
    hide Splits, HostStep, HostFold;
    HostFoldOne(x, w[0]);
    assert w[..1] == [w[0]];
    SplitsLater(x, w, 1, b);
  }

  lemma SplitsDead(x: HostScan, w: string)
    requires w == [] ==> !HostEnds(x.s)
    requires w != [] ==> ParseHostChar(x.s, w[0]).HostDead?
    ensures Splits(x, w, No)
  {
    hide HostFold, ParseHostChar;
    if w == [] { HostFoldNone(x); } else { HostFoldDies(x, w); }
  }

  lemma BracketSplits(x: HostScan, w: string)
    requires (x.s.V6? && (w == [] || (!IsV6Char(w[0]) && w[0] != '%')))
             || (x.s.V6Zone? && (w == [] || !IsZoneChar(w[0])))
    ensures Splits(x, w, BehindBracket(w))
  {
    hide IsV6Char, IsZoneChar, HostFold, HostStep;
    if w != [] && w[0] == ']' {
      HostStepCount(x, w[0]);
      HostFoldNone(HostStep(x, w[0]));
      assert w[1..][..0] == [] && w[1..] == [] + w[1..];
      SplitsNext(x, w, Yes(w[1..]));
    } else {
      SplitsDead(x, w);
    }
  }

  lemma StaySteps()
    ensures forall c :: IsV6Char(c) ==> ParseHostChar(V6, c) == V6 == ParseHostChar(V6Start, c)
    ensures forall c :: IsZoneChar(c) ==> ParseHostChar(V6Zone, c) == V6Zone == ParseHostChar(V6ZoneStart, c)
    ensures forall c :: IsHostChar(c) ==> ParseHostChar(Name, c) == Name == ParseHostChar(HostStart, c)
    ensures forall c :: IsUserinfoChar(c) ==> ParseHostChar(Userinfo, c) == Userinfo == ParseHostChar(UserinfoStart, c)
  {
    hide IsV6Char, IsZoneChar, IsHostChar, IsUserinfoChar;
    BracketIsNone();
  }

  lemma BracketIsNone()
    ensures !IsV6Char(']') && !IsZoneChar(']') && !IsHostChar('[') && !IsUserinfoChar('@') && !IsV6Char('%')
  {
  }

  /** One character of the class or more, then the rest. */
  lemma RunSplits(x: HostScan, s: HostState, p: char -> bool, w: string, b: Behind)
    requires Reach(p, w) > 0
    requires forall c :: p(c) ==> ParseHostChar(x.s, c) == s == ParseHostChar(s, c)
    requires forall y: HostScan | y.s == s :: Splits(y, w[Reach(p, w)..], b)
    ensures Splits(x, w, b)
  {
    hide Splits, HostFold, HostStep, ParseHostChar;
    var k := Reach(p, w);
    HostStepCount(x, w[0]);
    var y := HostStep(x, w[0]);
    Stays(y, p, w[1..]);
    assert w[1..][k - 1..] == w[k..];
    SplitsLater(y, w[1..], k - 1, b);
    SplitsNext(x, w, b);
  }

  lemma ZoneSplits(x: HostScan, w: string)
    requires x.s.V6ZoneStart?
    ensures Splits(x, w, BehindZone(w))
  {
    hide IsZoneChar, HostFold, HostStep, Splits;
    var k := Reach(IsZoneChar, w);
    if k == 0 {
      SplitsDead(x, w);
    } else {
      StaySteps();
      forall y: HostScan | y.s == V6Zone
        ensures Splits(y, w[k..], BehindZone(w))
      {
        BracketSplits(y, w[k..]);
      }
      hide ParseHostChar;
      RunSplits(x, V6Zone, IsZoneChar, w, BehindZone(w));
    }
  }

  lemma AddrSplits(x: HostScan, w: string)
    requires x.s.V6Start?
    ensures Splits(x, w, BehindAddr(w))
  {
    hide IsV6Char, HostFold, HostStep, Splits, BehindZone;
    var k := Reach(IsV6Char, w);
    if k == 0 {
      SplitsDead(x, w);
    } else {
      StaySteps();
      forall y: HostScan | y.s == V6
        ensures Splits(y, w[k..], BehindAddr(w))
      {
        if k < |w| && w[k] == '%' {
          BracketIsNone();
          HostStepCount(y, '%');
          ZoneSplits(HostStep(y, '%'), w[k + 1..]);
          assert w[k..][1..] == w[k + 1..];
          SplitsNext(y, w[k..], BehindAddr(w));
        } else {
          BracketSplits(y, w[k..]);
        }
      }
      hide ParseHostChar;
      RunSplits(x, V6, IsV6Char, w, BehindAddr(w));
    }
  }

  lemma NameSplits(x: HostScan, w: string)
    requires x.s.Name? && (w == [] || !IsHostChar(w[0]))
    ensures Splits(x, w, Yes(w))
  {
    hide HostFold, IsHostChar;
    HostFoldNone(x);
    assert w[..0] == [] && w == [] + w;
  }

  lemma HostSplits(x: HostScan, w: string)
    requires x.s.HostStart?
    ensures Splits(x, w, BehindHost(w))
  {
    hide IsHostChar, HostFold, HostStep, Splits, BehindAddr;
    var k := Reach(IsHostChar, w);
    BracketIsNone();
    if w != [] && w[0] == '[' {
      HostStepCount(x, '[');
      AddrSplits(HostStep(x, '['), w[1..]);
      SplitsNext(x, w, BehindHost(w));
    } else if k == 0 {
      SplitsDead(x, w);
    } else {
      StaySteps();
      forall y: HostScan | y.s == Name
        ensures Splits(y, w[k..], Yes(w[k..]))
      {
        NameSplits(y, w[k..]);
      }
      hide ParseHostChar;
      RunSplits(x, Name, IsHostChar, w, Yes(w[k..]));
    }
  }

  /** Behind the user information. */
  lemma AtSplits(x: HostScan, w: string)
    requires (x.s.Userinfo? || x.s.UserinfoStart?) && (w == [] || !IsUserinfoChar(w[0]))
    ensures Splits(x, w, if w != [] && w[0] == '@' then BehindHost(w[1..]) else No)
  {
    hide IsUserinfoChar, HostFold, HostStep, Splits, BehindHost;
    if w != [] && w[0] == '@' {
      HostStepCount(x, '@');
      HostSplits(HostStep(x, '@'), w[1..]);
      SplitsNext(x, w, BehindHost(w[1..]));
    } else {
      SplitsDead(x, w);
    }
  }

  lemma AuthoritySplits(x: HostScan, a: string)
    requires x.s == if '@' in a then UserinfoStart else HostStart
    ensures Splits(x, a, BehindAuthority(a))
  {
    hide IsUserinfoChar, HostFold, HostStep, Splits, BehindHost;
    if '@' in a {
      var k := Reach(IsUserinfoChar, a);
      var b := BehindAuthority(a);
      if k == 0 {
        AtSplits(x, a);
      } else {
        StaySteps();
        forall y: HostScan | y.s == Userinfo
          ensures Splits(y, a[k..], b)
        {
          AtSplits(y, a[k..]);
          assert k < |a| ==> a[k..][1..] == a[k + 1..];
        }
        hide ParseHostChar;
        RunSplits(x, Userinfo, IsUserinfoChar, a, b);
      }
    } else {
      HostSplits(x, a);
    }
  }

  // ----- the port

  lemma {:induction false} DigitsEnd(x: HostScan, w: string)
    requires x.s.PortDigits?
    ensures HostEnds(HostFold(x, w).s) <==> All(IsNum, w)
    decreases |w|
  {
    hide IsNum, HostStep, HostFold;
    if w == [] {
      HostFoldNone(x);
    } else if IsNum(w[0]) {
      HostStepCount(x, w[0]);
      HostFoldCons(x, w);
      DigitsEnd(HostStep(x, w[0]), w[1..]);
      assert forall i :: 0 < i < |w| ==> w[i] == w[1..][i - 1];
    } else {
      HostFoldDies(x, w);
    }
  }

  lemma PortEnds(x: HostScan, p: string)
    requires AtHostEnd(x.s, p)
    ensures HostEnds(HostFold(x, p).s) <==> PortForm(p)
  {
    hide IsNum, HostStep, HostFold, IsHostChar;
    if p == [] {
      HostFoldNone(x);
    } else if p[0] != ':' {
      HostFoldDies(x, p);
    } else {
      BracketIsNone();
      HostStepCount(x, ':');
      HostFoldCons(x, p);
      var y, d := HostStep(x, ':'), p[1..];
      if d == [] {
        HostFoldNone(y);
      } else if IsNum(d[0]) {
        HostStepCount(y, d[0]);
        HostFoldCons(y, d);
        DigitsEnd(HostStep(y, d[0]), d[1..]);
        assert forall i :: 0 < i < |d| ==> d[i] == d[1..][i - 1];
      } else {
        HostFoldDies(y, d);
      }
    }
  }

  lemma {:induction false} HostFoldCount(x: HostScan, w: string)
    ensures HostFold(x, w).n == x.n + |w|
  {
    hide HostStep;
    if w != [] {
      HostFoldCount(x, w[..|w| - 1]);
      HostStepCount(HostFold(x, w[..|w| - 1]), w[|w| - 1]);
    }
  }

  lemma AuthorityEnds(x: HostScan, a: string)
    requires x.s == if '@' in a then UserinfoStart else HostStart
    ensures HostEnds(HostFold(x, a).s) <==> BehindAuthority(a).Yes? && PortForm(BehindAuthority(a).rest)
  {
    hide HostFold, AtHostEnd, BehindAuthority, PortForm, HostEnds;
    AuthoritySplits(x, a);
    var b := BehindAuthority(a);
    if b.Yes? {
      var n := |a| - |b.rest|;
      HostFoldAppend(x, a[..n], b.rest);
      PortEnds(HostFold(x, a[..n]), b.rest);
    }
  }

  lemma PortRun(x: HostScan, p: string)
    requires x.s.Name? || x.s.V6End?
    requires p != [] && PortForm(p) && x.n + |p| <= LIMIT
    ensures HostFold(x, p) == HostScan(PortDigits, x.fields[PORT := Span(x.n + 1, |p| - 1)], x.n + |p|)
  {
    hide IsNum, HostFold, ParseHostChar, U16;
    DelimiterSteps();
    var d := p[1..];
    assert p == [':'] + d;
    HostDelimiter(x, ':', PortStart);
    HostFoldAppend(x, [':'], d);
    forall i | 0 <= i < |d|
      ensures ParseHostChar(PortStart, d[i]) == PortDigits == ParseHostChar(PortDigits, d[i])
    {
      HostCharSteps(d[i]);
    }
    HostRun(HostScan(PortStart, x.fields, x.n + 1), d, PortDigits, PORT);
  }

  /** The port found in an accepted authority is what stands behind the host. */
  lemma PortBehind(x: HostScan, a: string)
    requires x.s == (if '@' in a then UserinfoStart else HostStart) && x.n + |a| <= LIMIT
    requires HostEnds(HostFold(x, a).s)
    ensures BehindAuthority(a).Yes?
    ensures var h, rest := HostFold(x, a), BehindAuthority(a).rest;
            if rest == [] then !h.s.PortDigits?
            else h.s.PortDigits? && |rest| <= |a| && rest == a[|a| - |rest|..]
                 && PORT in h.fields && h.fields[PORT] == Span(x.n + |a| - |rest| + 1, |rest| - 1)
  {
    hide HostFold, BehindAuthority, PortForm;
    AuthoritySplits(x, a);
    AuthorityEnds(x, a);
    var rest := BehindAuthority(a).rest;
    var n := |a| - |rest|;
    var y := HostFold(x, a[..n]);
    HostFoldAppend(x, a[..n], rest);
    HostFoldCount(x, a[..n]);
    if rest == [] {
      HostFoldNone(y);
    } else {
      PortRun(y, rest);
      assert a[n..] == rest;
    }
  }

  /** Two `@` side by side are refused. */
  lemma HostTwins(x: HostScan, a: string)
    requires !NoTwins(a)
    ensures HostFold(x, a).s.HostDead?
  {
    hide HostFold, HostStep;
    var i :| 0 < i < |a| && a[i] == '@' && a[i - 1] == '@';
    var y := HostFold(x, a[..i - 1]);
    HostFoldSnoc(x, a, i - 1);
    HostFoldSnoc(x, a, i);
    HostStepCount(y, '@');
    HostStepCount(HostStep(y, '@'), '@');
    TwinSteps(y.s);
    HostStaysDead(x, a, i + 1);
  }

  lemma TwinSteps(s: HostState)
    ensures ParseHostChar(ParseHostChar(s, '@'), '@').HostDead?
  {
  }

  // ----- the rest of a URL

  lemma FoldCons(x: Scan, w: string)
    requires w != []
    ensures Fold(x, w) == Fold(Step(x, w[0]), w[1..])
  {
    hide Step, Fold;
    assert w == [w[0]] + w[1..];
    assert [w[0]][..0] == [];
    FoldNone(x);
    FoldSnoc(x, [w[0]], 0);
    assert [w[0]][..1] == [w[0]];
    FoldAppend(x, [w[0]], w[1..]);
  }

  lemma FoldDies(x: Scan, w: string)
    requires x.s.Dead? || (w != [] && ParseUrlChar(x.s, w[0]).Dead?)
    ensures Fold(x, w).s.Dead?
  {
    hide Step, Fold, ParseUrlChar;
    FoldNone(x);
    assert w[..0] == [];
    if x.s.Dead? {
      StaysDead(x, w, 0);
    } else {
      StepState(x, w[0]);
      FoldSnoc(x, w, 0);
      StaysDead(x, w, 1);
    }
  }

  lemma {:induction false} FragmentLives(x: Scan, w: string)
    requires x.s.ReqFragment? || x.s.ReqFragmentStart?
    ensures !Fold(x, w).s.Dead? <==> All(IsFragmentChar, w)
    decreases |w|
  {
    hide Fold, Step, IsUrlChar;
    if w == [] {
      FoldNone(x);
    } else if IsFragmentChar(w[0]) {
      FragmentSteps(w[0]);
      StepState(x, w[0]);
      FoldCons(x, w);
      FragmentLives(Step(x, w[0]), w[1..]);
      assert forall i :: 0 < i < |w| ==> w[i] == w[1..][i - 1];
    } else {
      FoldDies(x, w);
    }
  }

  lemma FragmentSteps(ch: char)
    requires IsFragmentChar(ch)
    ensures ParseUrlChar(ReqFragment, ch) == ReqFragment
            && ParseUrlChar(ReqFragmentStart, ch) in {ReqFragment, ReqFragmentStart}
  {
  }

  lemma UrlSteps(ch: char)
    ensures IsQueryChar(ch) ==>
              ParseUrlChar(ReqQueryString, ch) == ReqQueryString == ParseUrlChar(ReqQueryStringStart, ch)
    ensures IsUrlChar(ch) ==> ParseUrlChar(ReqPath, ch) == ReqPath
    ensures !IsQueryChar('#') && !IsUrlChar('#') && !IsUrlChar('?') && ParseUrlChar(ReqPath, '#') == ReqFragmentStart
    ensures ParseUrlChar(ReqQueryString, '#') == ReqFragmentStart == ParseUrlChar(ReqQueryStringStart, '#')
    ensures ParseUrlChar(ReqPath, '?') == ReqQueryStringStart
    ensures IsServerChar(ch) ==> ch != '/' && ch != '?'
  {
  }

  lemma {:induction false} QueryLives(x: Scan, w: string)
    requires x.s.ReqQueryString? || x.s.ReqQueryStringStart?
    ensures !Fold(x, w).s.Dead? <==> GoodQuery(w)
    decreases |w|
  {
    hide Fold, Step, IsUrlChar, IsFragmentChar, All;
    if w == [] {
      FoldNone(x);
    } else {
      UrlSteps(w[0]);
      StepState(x, w[0]);
      FoldCons(x, w);
      var y := Step(x, w[0]);
      if IsQueryChar(w[0]) {
        QueryLives(y, w[1..]);
        assert forall i :: 0 < i <= |w| ==> w[i..] == w[1..][i - 1..];
      } else if w[0] == '#' {
        FragmentLives(y, w[1..]);
      } else {
        FoldDies(x, w);
      }
    }
  }

  lemma {:induction false} PathLives(x: Scan, w: string)
    requires x.s.ReqPath?
    ensures !Fold(x, w).s.Dead? <==> GoodPath(w)
    decreases |w|
  {
    hide Fold, Step, IsUrlChar, IsFragmentChar, All, GoodQuery;
    if w == [] {
      FoldNone(x);
    } else {
      UrlSteps(w[0]);
      StepState(x, w[0]);
      FoldCons(x, w);
      var y := Step(x, w[0]);
      if IsUrlChar(w[0]) {
        PathLives(y, w[1..]);
        assert forall i :: 0 < i <= |w| ==> w[i..] == w[1..][i - 1..];
      } else if w[0] == '#' {
        FragmentLives(y, w[1..]);
      } else if w[0] == '?' {
        QueryLives(y, w[1..]);
      } else {
        FoldDies(x, w);
      }
    }
  }

  /** Beyond the authority: its field and the `@` stay as they are. */
  predicate SameHost(x: Scan, y: Scan) {
    y.foundAt == x.foundAt && (SCHEMA in y.fields <==> SCHEMA in x.fields) && (HOST in y.fields <==> HOST in x.fields)
    && (HOST in x.fields ==> y.fields[HOST] == x.fields[HOST])
  }

  lemma BeyondStep(x: Scan, ch: char)
    requires Stage(x.s) >= 5 || Stage(ParseUrlChar(x.s, ch)) >= 5
    ensures SameHost(x, Step(x, ch)) && Stage(Step(x, ch).s) >= 5
  {
    if !ParseUrlChar(x.s, ch).Dead? && Stage(x.s) < 10 { StagesRise(x.s, ch); }
    if Stage(x.s) == 10 { assert ParseUrlChar(x.s, ch).Dead?; }
    hide ParseUrlChar, U16;
  }

  lemma {:induction false} BeyondKeeps(x: Scan, w: string)
    requires Stage(x.s) >= 5
    ensures SameHost(x, Fold(x, w)) && Stage(Fold(x, w).s) >= 5
  {
    hide Step;
    if w != [] {
      BeyondKeeps(x, w[..|w| - 1]);
      BeyondStep(Fold(x, w[..|w| - 1]), w[|w| - 1]);
    }
  }

  predicate InServer(s: State) { s.ReqServerStart? || s.ReqServer? || s.ReqServerWithAt? }

  lemma ServerLeft(s: State, ch: char)
    requires InServer(s) && !IsServerChar(ch)
    ensures ParseUrlChar(s, ch) == if ch == '/' then ReqPath else if ch == '?' then ReqQueryStringStart else Dead
  {
    hide IsAlphaNum;
  }

  lemma TailLives(x: Scan, t: string)
    requires InServer(x.s) && (t == [] || !IsServerChar(t[0]))
    ensures (!Fold(x, t).s.Dead? <==> GoodTail(t)) && SameHost(x, Fold(x, t))
  {
    hide Fold, Step, IsServerChar, GoodPath, GoodQuery, ParseUrlChar;
    if t == [] {
      FoldNone(x);
    } else {
      ServerLeft(x.s, t[0]);
      FoldCons(x, t);
      StepState(x, t[0]);
      BeyondStep(x, t[0]);
      var y := Step(x, t[0]);
      BeyondKeeps(y, t[1..]);
      if t[0] == '/' {
        PathLives(y, t[1..]);
      } else if t[0] == '?' {
        QueryLives(y, t[1..]);
      } else {
        FoldDies(x, t);
      }
    }
  }

  /** The authority, which is not taken for anything else. */
  lemma GoesServer(x: Scan, a: string)
    requires x.s.ReqServerStart? && x.last != SomeField(HOST) && !x.foundAt && x.n + |a| <= LIMIT
    requires a != [] && All(IsServerChar, a) && NoTwins(a)
    ensures var y := Fold(x, a);
            InServer(y.s) && y.foundAt == ('@' in a) && y.fields == x.fields[HOST := Span(x.n, |a|)] && y.n == x.n + |a|
  {
    hide StateAfter, Fold, ParseUrlChar, IsServerChar, NoTwins;
    forall i | 0 < i <= |a|
      ensures StateAfter(x.s, a[..i]) == if a[i - 1] == '@' then ReqServerWithAt else ReqServer
    {
      ServerStates(a, i);
    }
    FieldRun(x, a, HOST);
    FoundAt(x, a);
    assert a[..|a|] == a;
  }

  lemma {:induction false} TwinsDie(x: Scan, a: string)
    requires x.s.ReqServerStart? && All(IsServerChar, a)
    ensures var y := Fold(x, a).s;
            if !NoTwins(a) then y.Dead?
            else if a == [] then y.ReqServerStart?
            else y == if a[|a| - 1] == '@' then ReqServerWithAt else ReqServer
  {
    hide Step, IsServerChar;
    if a != [] {
      var m := |a| - 1;
      TwinsDie(x, a[..m]);
      var y := Fold(x, a[..m]);
      StepState(y, a[m]);
      ServerSteps(a[m]);
      WithAtDies();
      if y.s.Dead? { DeadDies(y, a[m]); }
      assert NoTwins(a) <==> NoTwins(a[..m]) && !(m > 0 && a[m] == '@' && a[m - 1] == '@') by { TwinsMore(a); }
    }
  }

  lemma WithAtDies()
    ensures ParseUrlChar(ReqServerWithAt, '@').Dead?
  {
  }

  lemma TwinsMore(a: string)
    requires a != []
    ensures var m := |a| - 1; NoTwins(a) <==> NoTwins(a[..m]) && !(m > 0 && a[m] == '@' && a[m - 1] == '@')
  {
    var m := |a| - 1;
    if NoTwins(a) {
      forall i | 0 < i < m
        ensures !(a[..m][i] == '@' && a[..m][i - 1] == '@')
      {
        assert !(a[i] == '@' && a[i - 1] == '@');
      }
    }
    if NoTwins(a[..m]) {
      forall i | 0 < i < m
        ensures !(a[i] == '@' && a[i - 1] == '@')
      {
        assert !(a[..m][i] == '@' && a[..m][i - 1] == '@');
      }
    }
  }

  // ----- the whole URL

  function StartOf(buf: string): Scan { Fold(StartScan(false), buf) }

  /** A URL with a schema and no host. */
  predicate Hostless(x: Scan) { x.s.Dead? || (SCHEMA in x.fields && HOST !in x.fields) }

  lemma SchemaStep(x: Scan, ch: char)
    requires Hostless(x) && Stage(ParseUrlChar(x.s, ch)) != 3
    ensures Hostless(Step(x, ch)) && Step(x, ch).s == ParseUrlChar(x.s, ch)
  {
    hide U16;
  }

  lemma SchemaSteps(ch: char)
    ensures ch != ':' && !IsAlpha(ch) ==> ParseUrlChar(ReqSchema, ch).Dead?
    ensures ch != '/' ==> ParseUrlChar(ReqSchemaSlash, ch).Dead? && ParseUrlChar(ReqSchemaSlashSlash, ch).Dead?
  {
  }

  /** Without "://" behind the letters there is no host. */
  lemma NoSlashes(x: Scan, r: string)
    requires x.s.ReqSchema? && Hostless(x) && (r == [] || !IsAlpha(r[0])) && !(|r| >= 3 && r[..3] == "://")
    ensures Hostless(Fold(x, r))
  {
    hide Fold, Step, IsAlpha, ParseUrlChar;
    SchemeEnds();
    if r == [] {
      FoldNone(x);
    } else {
      SchemaSteps(r[0]);
      if r[0] != ':' {
        FoldDies(x, r);
      } else {
        SchemaStep(x, ':');
        FoldCons(x, r);
        NoSlash(Step(x, ':'), r[1..]);
      }
    }
  }

  lemma NoSlash(x: Scan, r: string)
    requires x.s.ReqSchemaSlash? && Hostless(x) && !(|r| >= 2 && r[0] == r[1] == '/')
    ensures Hostless(Fold(x, r))
  {
    hide Fold, Step, IsAlpha, ParseUrlChar;
    SchemeEnds();
    if r == [] {
      FoldNone(x);
    } else {
      SchemaSteps(r[0]);
      if r[0] != '/' {
        FoldDies(x, r);
      } else {
        SchemaStep(x, '/');
        FoldCons(x, r);
        var y := Step(x, '/');
        if |r| == 1 {
          FoldNone(y);
          assert r[1..] == [];
        } else {
          SchemaSteps(r[1]);
          FoldDies(y, r[1..]);
        }
      }
    }
  }

  /** A relative URL. */
  lemma RelativeIff(buf: string)
    requires buf == [] || buf[0] == '/' || buf[0] == '*' || !IsAlpha(buf[0])
    ensures Parsed(buf, false).Accepted? <==> GoodText(buf)
  {
    hide Fold, Step, IsAlpha, GoodPath, GoodAuthority;
    var x := StartScan(false);
    if buf == [] {
      FoldNone(x);
    } else if buf[0] == '/' || buf[0] == '*' {
      FoldCons(x, buf);
      var y := Step(x, buf[0]);
      FirstPath(buf[0]);
      PathLives(y, buf[1..]);
      BeyondKeeps(y, buf[1..]);
    } else {
      FoldDies(x, buf);
    }
  }

  lemma FirstPath(ch: char)
    requires ch == '/' || ch == '*'
    ensures var y := Step(StartScan(false), ch); y.s.ReqPath? && SCHEMA !in y.fields && HOST !in y.fields
  {
  }

  /** What the authority and the rest lead to. */
  ghost predicate Served(n: nat, a: string, t: string, y: Scan) {
    if a == [] then Hostless(y)
    else if !NoTwins(a) then y.s.Dead?
    else (!y.s.Dead? <==> GoodTail(t)) && HOST in y.fields && y.fields[HOST] == Span(n, |a|)
         && y.foundAt == ('@' in a)
  }

  lemma ServerScan(x: Scan, a: string, t: string)
    requires x.s.ReqServerStart? && x.last == SomeField(SCHEMA) && !x.foundAt && Hostless(x) && x.n + |a| <= LIMIT
    requires All(IsServerChar, a) && (t == [] || !IsServerChar(t[0]))
    ensures Served(x.n, a, t, Fold(x, a + t))
  {
    hide Fold, IsServerChar, GoodTail, NoTwins, All;
    FoldAppend(x, a, t);
    TwinsDie(x, a);
    var y := Fold(x, a);
    if a == [] {
      FoldNone(x);
      TailLives(x, t);
    } else if NoTwins(a) {
      GoesServer(x, a);
      TailLives(y, t);
    } else {
      FoldDies(y, t);
    }
  }

  lemma AbsoluteScan(buf: string, k: nat, e: nat)
    requires |buf| <= LIMIT && k == Reach(IsAlpha, buf) > 0 && k + 3 <= |buf| && buf[k..k + 3] == "://"
    requires e == Reach(IsServerChar, buf[k + 3..])
    ensures Served(k + 3, buf[k + 3..][..e], buf[k + 3..][e..], StartOf(buf))
  {
    hide Fold, IsAlpha, IsServerChar, Reach, Served;
    var w, rest := buf[..k], buf[k + 3..];
    Apart(buf, k);
    Parted(rest, e);
    GoesScheme(w);
    hide All;
    FoldAppend(StartScan(false), w + "://", rest);
    ServerScan(Fold(StartScan(false), w + "://"), rest[..e], rest[e..]);
  }

  lemma Apart(buf: string, k: nat)
    requires k + 3 <= |buf| && buf[k..k + 3] == "://"
    ensures buf == (buf[..k] + "://") + buf[k + 3..]
  {
    Parted(buf, k);
    Parted(buf[k..], 3);
    assert buf[k..][..3] == buf[k..k + 3] && buf[k..][3..] == buf[k + 3..];
    assert buf[..k] + ("://" + buf[k + 3..]) == (buf[..k] + "://") + buf[k + 3..];
  }

  lemma Parted(w: string, k: nat)
    requires k <= |w|
    ensures w == w[..k] + w[k..]
  {
  }

  lemma AuthorityIff(buf: string, x: Scan, from: nat, e: nat)
    requires x == StartOf(buf) && !x.s.Dead? && |buf| <= LIMIT && from + e <= |buf|
    requires HOST in x.fields && x.fields[HOST] == Span(from, e) && x.foundAt == ('@' in buf[from..from + e])
    ensures Parsed(buf, false).Accepted? <==> GoodAuthority(buf[from..from + e])
  {
    hide Fold, HostFold, BehindAuthority, DigitsAt, PortForm, Cut, Ahead, Fenced, DecFrom, HostEnds;
    var a := buf[from..from + e];
    var s := StartHost(x.fields, x.foundAt);
    var h := HostFold(s, a);
    assert Authority(buf, x.fields) == a;
    AuthorityEnds(s, a);
    AuthorityCut(buf, false);
    if HostEnds(h.s) {
      PortBehind(s, a);
      CutPorts(h, x.fields, buf);
      var rest := BehindAuthority(a).rest;
      if rest != [] {
        AfterAuthority(false, buf);
        PortDigitsAt(h, x, buf);
        assert Text(buf, h.fields[PORT]) == rest[1..];
      }
    }
  }

  lemma CutPorts(h: HostScan, base: Fields, buf: string)
    requires Cut(h, base, buf)
    ensures PORT in h.fields <==> h.s.PortDigits?
  {
  }

  /** No authority has two `@` side by side. */
  lemma GoodHasNoTwins(a: string)
    requires GoodAuthority(a)
    ensures a != [] && NoTwins(a)
  {
    hide HostFold, NoTwins, BehindHost;
    var x := HostScan(if '@' in a then UserinfoStart else HostStart, map[], 0);
    AuthorityEnds(x, a);
    if !NoTwins(a) { HostTwins(x, a); }
    HostFoldNone(x);
  }

  lemma BrokenRejected(buf: string, k: nat)
    requires |buf| <= LIMIT && k == Reach(IsAlpha, buf) > 0 && !(k + 3 <= |buf| && buf[k..k + 3] == "://")
    ensures Parsed(buf, false).Rejected?
  {
    hide Fold, IsAlpha, Parsed, Reach;
    var r := buf[k..];
    assert |r| >= 3 ==> r[..3] == buf[k..k + 3];
    GoesScheme(buf[..k]);
    NoSlashes(StartOf(buf[..k]), r);
    Parted(buf, k);
    FoldAppend(StartScan(false), buf[..k], r);
    HostlessRejected(buf);
  }

  lemma Sliced(w: string, n: nat, e: nat)
    requires n + e <= |w|
    ensures w[n..][..e] == w[n..n + e] && |w[n..][..e]| == e
  {
  }

  lemma ServedIff(buf: string, n: nat, e: nat)
    requires |buf| <= LIMIT && n + e <= |buf| && Served(n, buf[n..][..e], buf[n..][e..], StartOf(buf))
    ensures Parsed(buf, false).Accepted? <==> GoodAuthority(buf[n..][..e]) && GoodTail(buf[n..][e..])
  {
    hide Fold, GoodAuthority, GoodTail, NoTwins, Parsed;
    Sliced(buf, n, e);
    var a, y := buf[n..][..e], StartOf(buf);
    if GoodAuthority(a) { GoodHasNoTwins(a); }
    if e == 0 || y.s.Dead? { HostlessRejected(buf); } else { AuthorityIff(buf, y, n, e); }
  }

  lemma AbsoluteIff(buf: string, k: nat)
    requires |buf| <= LIMIT && k == Reach(IsAlpha, buf) > 0 && k + 3 <= |buf| && buf[k..k + 3] == "://"
    ensures Parsed(buf, false).Accepted? <==> GoodAbsolute(buf)
  {
    hide Fold, GoodAuthority, GoodTail, IsAlpha, IsServerChar, Served, Parsed, Reach, All;
    var e := Reach(IsServerChar, buf[k + 3..]);
    AbsoluteScan(buf, k, e);
    ServedIff(buf, k + 3, e);
  }

  /** A URL is accepted if and only if it is one of the grammar. */
  lemma AcceptedIff(buf: string)
    requires |buf| <= LIMIT
    ensures Parsed(buf, false).Accepted? <==> GoodText(buf)
  {
    hide Fold, GoodAuthority, GoodTail, GoodPath, IsAlpha, Parsed;
    var k := Reach(IsAlpha, buf);
    if k == 0 || buf[0] == '/' || buf[0] == '*' {
      RelativeIff(buf);
    } else if k + 3 <= |buf| && buf[k..k + 3] == "://" {
      AbsoluteIff(buf, k);
    } else {
      BrokenRejected(buf, k);
    }
  }

  lemma HostlessRejected(buf: string)
    requires Hostless(StartOf(buf))
    ensures Parsed(buf, false).Rejected?
  {
    hide Fold;
  }
}
