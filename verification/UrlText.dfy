/** Printed URLs are parsed back into their components. */
module UrlText {
  import opened Bytes
  import opened Machine
  import opened Lengths
  import opened Urls

  /** A registered name or an IPv4 address, or an IPv6 address with the zone of RFC 6874 if it is not empty. */
  datatype Host = RegName(name: string) | V6Addr(addr: string, zone: string)

  /** The components of a URL; an empty one is absent. */
  datatype Url = Url(scheme: string, userinfo: string, host: Host, port: string, path: string, query: string,
      fragment: string)

  function HostName(h: Host): string {
    match h
    case RegName(name) => name
    case V6Addr(addr, zone) => if zone == [] then addr else addr + "%" + zone
  }

  function HostText(h: Host): string { if h.RegName? then h.name else "[" + HostName(h) + "]" }

  function Before(a: string, sep: string): string { if a == [] then [] else a + sep }

  function After(sep: string, a: string): string { if a == [] then [] else sep + a }

  function AuthorityText(u: Url): string { Before(u.userinfo, "@") + HostText(u.host) + After(":", u.port) }

  /** RFC 3986 section 5.3. */
  function UrlText(u: Url): string {
    u.scheme + "://" + AuthorityText(u) + u.path + After("?", u.query) + After("#", u.fragment)
  }

  predicate IsQueryChar(ch: char) { IsUrlChar(ch) || ch == '?' }

  predicate IsFragmentChar(ch: char) { IsUrlChar(ch) || ch == '?' || ch == '#' }

  predicate All(p: char -> bool, s: string) { forall i :: 0 <= i < |s| ==> p(s[i]) }

  predicate GoodHost(h: Host) {
    match h
    case RegName(name) => name != [] && All(IsHostChar, name)
    case V6Addr(addr, zone) => addr != [] && All(IsV6Char, addr) && All(IsZoneChar, zone)
  }

  /** What the parser can read: letters in the scheme, a fragment only after a path or a query, and all within the
      16 bits of the offsets. */
  predicate GoodUrl(u: Url) {
    && u.scheme != [] && All(IsAlpha, u.scheme) && All(IsUserinfoChar, u.userinfo) && GoodHost(u.host)
    && (u.port != [] ==> IsDigits(u.port) && DecFrom(0, u.port) <= LIMIT)
    && (u.path != [] ==> u.path[0] == '/') && All(IsUrlChar, u.path) && All(IsQueryChar, u.query)
    && All(IsFragmentChar, u.fragment)
    && (u.fragment != [] ==> u.fragment[0] != '#' && (u.path != [] || u.query != []))
    && |UrlText(u)| <= LIMIT
  }

  // ----- runs of parse_url_char

  function StateAfter(s: State, seg: string): State {
    if seg == [] then s else ParseUrlChar(StateAfter(s, seg[..|seg| - 1]), seg[|seg| - 1])
  }

  lemma StateAfterSnoc(s: State, seg: string, i: nat)
    requires i < |seg|
    ensures StateAfter(s, seg[..i + 1]) == ParseUrlChar(StateAfter(s, seg[..i]), seg[i])
  {
    assert seg[..i + 1][..i] == seg[..i];
  }

  /** A segment that is one field. */
  lemma {:induction false} FieldRun(x: Scan, seg: string, f: Field)
    requires seg != [] && x.last != SomeField(f) && x.n + |seg| <= LIMIT
    requires forall i :: 0 < i <= |seg| ==> FieldOf(StateAfter(x.s, seg[..i])) == SomeField(f)
    ensures var y := Fold(x, seg);
            y == Scan(StateAfter(x.s, seg), SomeField(f), y.foundAt, x.fields[f := Span(x.n, |seg|)], x.n + |seg|)
  {
    hide ParseUrlChar, FieldOf, StateAfter, U16;
    var m := |seg| - 1;
    var d := seg[..m];
    assert seg[..m + 1] == seg;
    StateAfterSnoc(x.s, seg, m);
    assert FieldOf(StateAfter(x.s, seg)) == SomeField(f);
    assert Fold(x, []) == x && seg[..0] == [] by { FoldNone(x); }
    assert StateAfter(x.s, []) == x.s by { StateAfterNone(x.s); }
    if m > 0 {
      forall i | 0 < i <= |d|
        ensures FieldOf(StateAfter(x.s, d[..i])) == SomeField(f)
      {
        assert d[..i] == seg[..i];
      }
      FieldRun(x, d, f);
      assert x.fields[f := Span(x.n, m)][f := Span(x.n, m + 1)] == x.fields[f := Span(x.n, m + 1)];
    }
  }

  lemma StateAfterNone(s: State)
    ensures StateAfter(s, []) == s
  {
  }

  /** No `@` in a segment leaves `foundAt` alone, and one sets it. */
  lemma {:induction false} FoundAt(x: Scan, seg: string)
    requires forall i :: 0 < i <= |seg| ==> (StateAfter(x.s, seg[..i]).ReqServerWithAt? <==> seg[i - 1] == '@')
    ensures Fold(x, seg).foundAt == (x.foundAt || '@' in seg) && Fold(x, seg).s == StateAfter(x.s, seg)
  {
    hide ParseUrlChar, FieldOf, StateAfter, U16;
    if seg == [] {
      StateAfterNone(x.s);
    } else {
      var m := |seg| - 1;
      var d := seg[..m];
      forall i | 0 < i <= |d|
        ensures StateAfter(x.s, d[..i]).ReqServerWithAt? <==> d[i - 1] == '@'
      {
        assert d[..i] == seg[..i];
      }
      FoundAt(x, d);
      StateAfterSnoc(x.s, seg, m);
      assert seg[..m + 1] == seg && seg == d + [seg[m]];
    }
  }

  // ----- the segments of a URL

  lemma {:induction false} SchemeStates(seg: string, i: nat)
    requires All(IsAlpha, seg) && 0 < i <= |seg|
    ensures StateAfter(ReqSpacesBeforeUrl, seg[..i]) == ReqSchema
  {
    hide IsAlpha;
    StateAfterSnoc(ReqSpacesBeforeUrl, seg, i - 1);
    AlphaSteps(seg[i - 1]);
    if i > 1 { SchemeStates(seg, i - 1); } else { StateAfterNone(ReqSpacesBeforeUrl); assert seg[..0] == []; }
  }

  lemma AlphaSteps(ch: char)
    requires IsAlpha(ch)
    ensures ParseUrlChar(ReqSpacesBeforeUrl, ch) == ReqSchema == ParseUrlChar(ReqSchema, ch) && ch != '@'
  {
  }

  /** Characters of an authority. */
  predicate IsServerChar(ch: char) { IsUserinfoChar(ch) || ch == '[' || ch == ']' || ch == '@' }

  predicate NoTwins(seg: string) { forall i :: 0 < i < |seg| ==> !(seg[i] == '@' && seg[i - 1] == '@') }

  lemma {:induction false} ServerStates(seg: string, i: nat)
    requires All(IsServerChar, seg) && NoTwins(seg) && 0 < i <= |seg|
    ensures StateAfter(ReqServerStart, seg[..i]) == if seg[i - 1] == '@' then ReqServerWithAt else ReqServer
  {
    hide IsServerChar;
    StateAfterSnoc(ReqServerStart, seg, i - 1);
    ServerSteps(seg[i - 1]);
    if i > 1 { ServerStates(seg, i - 1); } else { StateAfterNone(ReqServerStart); assert seg[..0] == []; }
  }

  lemma ServerSteps(ch: char)
    requires IsServerChar(ch)
    ensures var s := if ch == '@' then ReqServerWithAt else ReqServer;
            ParseUrlChar(ReqServerStart, ch) == s == ParseUrlChar(ReqServer, ch)
            && (ch != '@' ==> ParseUrlChar(ReqServerWithAt, ch) == s)
  {
  }

  lemma PathByte(ch: char)
    ensures ch == '/' ==> ParseUrlChar(ReqServer, ch) == ReqPath
    ensures IsUrlChar(ch) ==> ParseUrlChar(ReqPath, ch) == ReqPath
  {
  }

  lemma QueryByte(ch: char)
    requires IsQueryChar(ch)
    ensures ParseUrlChar(ReqQueryStringStart, ch) == ReqQueryString == ParseUrlChar(ReqQueryString, ch)
  {
  }

  lemma FragmentByte(ch: char)
    requires IsFragmentChar(ch)
    ensures ch != '#' ==> ParseUrlChar(ReqFragmentStart, ch) == ReqFragment
    ensures ParseUrlChar(ReqFragment, ch) == ReqFragment
  {
  }

  lemma {:induction false} PathStates(s: State, seg: string, i: nat)
    requires s.ReqServer? && All(IsUrlChar, seg) && 0 < i <= |seg| && seg[0] == '/'
    ensures StateAfter(s, seg[..i]) == ReqPath
  {
    StateAfterSnoc(s, seg, i - 1);
    PathByte(seg[i - 1]);
    hide ParseUrlChar, IsUrlChar;
    if i > 1 { PathStates(s, seg, i - 1); } else { StateAfterNone(s); assert seg[..0] == []; }
  }

  lemma {:induction false} QueryStates(seg: string, i: nat)
    requires All(IsQueryChar, seg) && 0 < i <= |seg|
    ensures StateAfter(ReqQueryStringStart, seg[..i]) == ReqQueryString
  {
    StateAfterSnoc(ReqQueryStringStart, seg, i - 1);
    QueryByte(seg[i - 1]);
    hide ParseUrlChar, IsQueryChar;
    if i > 1 { QueryStates(seg, i - 1); } else { StateAfterNone(ReqQueryStringStart); assert seg[..0] == []; }
  }

  lemma {:induction false} FragmentStates(seg: string, i: nat)
    requires All(IsFragmentChar, seg) && 0 < i <= |seg| && seg[0] != '#'
    ensures StateAfter(ReqFragmentStart, seg[..i]) == ReqFragment
  {
    StateAfterSnoc(ReqFragmentStart, seg, i - 1);
    FragmentByte(seg[i - 1]);
    hide ParseUrlChar, IsFragmentChar;
    if i > 1 { FragmentStates(seg, i - 1); } else { StateAfterNone(ReqFragmentStart); assert seg[..0] == []; }
  }

  lemma Delimiter(x: Scan, ch: char)
    requires FieldOf(ParseUrlChar(x.s, ch)).NoField?
    ensures Fold(x, [ch]) == x.(s := ParseUrlChar(x.s, ch), n := x.n + 1)
  {
    hide ParseUrlChar;
    assert [ch][..0] == [];
    FoldNone(x);
    assert FieldOf(ReqServerWithAt) == SomeField(HOST);
  }

  // ----- the whole URL, the host not yet cut

  function Set(fields: Fields, f: Field, off: nat, a: string): Fields {
    if a == [] then fields else fields[f := Span(off, |a|)]
  }

  function PathAt(u: Url): nat { |u.scheme| + 3 + |AuthorityText(u)| }

  function QueryAt(u: Url): nat { PathAt(u) + |u.path| + 1 }

  function FragmentAt(u: Url): nat { PathAt(u) + |u.path| + |After("?", u.query)| + 1 }

  function FieldsOf(u: Url): Fields {
    var f := map[SCHEMA := Span(0, |u.scheme|)][HOST := Span(|u.scheme| + 3, |AuthorityText(u)|)];
    Set(Set(Set(f, PATH, PathAt(u), u.path), QUERY, QueryAt(u), u.query), FRAGMENT, FragmentAt(u), u.fragment)
  }

  lemma GoesScheme(w: string)
    requires w != [] && All(IsAlpha, w) && |w| <= LIMIT
    ensures Fold(StartScan(false), w) == Scan(ReqSchema, SomeField(SCHEMA), false, map[SCHEMA := Span(0, |w|)], |w|)
    ensures Fold(StartScan(false), w + "://")
         == Scan(ReqServerStart, SomeField(SCHEMA), false, map[SCHEMA := Span(0, |w|)], |w| + 3)
  {
    hide StateAfter, Fold, ParseUrlChar, IsAlpha;
    var x := StartScan(false);
    forall i | 0 < i <= |w|
      ensures StateAfter(x.s, w[..i]) == ReqSchema && w[i - 1] != '@'
    {
      SchemeStates(w, i);
      AlphaSteps(w[i - 1]);
    }
    FieldRun(x, w, SCHEMA);
    FoundAt(x, w);
    assert w[..|w|] == w;
    forall i | 0 <= i < |w|
      ensures w[i] != '@'
    {
      AlphaSteps(w[i]);
    }
    var y := Fold(x, w);
    SchemeEnds();
    Delimiter(y, ':');
    Delimiter(y.(s := ReqSchemaSlash, n := y.n + 1), '/');
    Delimiter(y.(s := ReqSchemaSlashSlash, n := y.n + 2), '/');
    FoldAppend(x, w, [':']);
    FoldAppend(x, w + [':'], ['/']);
    FoldAppend(x, w + [':'] + ['/'], ['/']);
    assert w + [':'] + ['/'] + ['/'] == w + "://";
    assert x.fields[SCHEMA := Span(0, |w|)] == map[SCHEMA := Span(0, |w|)];
  }

  lemma SchemeEnds()
    ensures ParseUrlChar(ReqSchema, ':') == ReqSchemaSlash && ParseUrlChar(ReqSchemaSlash, '/') == ReqSchemaSlashSlash
    ensures ParseUrlChar(ReqSchemaSlashSlash, '/') == ReqServerStart
  {
  }

  lemma UserinfoIsServer(ch: char)
    ensures IsUserinfoChar(ch) ==> IsServerChar(ch) && ch != '@'
    ensures IsHostChar(ch) || IsZoneChar(ch) || IsV6Char(ch) || IsNum(ch) || ch == ':' ==> IsUserinfoChar(ch)
  {
  }

  /** The authority: an `@` after the user information only. */
  lemma AuthorityChars(u: Url)
    requires GoodUrl(u)
    ensures var a := AuthorityText(u);
            a != [] && All(IsServerChar, a) && a[|a| - 1] != '@' && NoTwins(a) && ('@' in a <==> u.userinfo != [])
  {
    hide IsServerChar, IsUserinfoChar, IsHostChar, IsV6Char, IsZoneChar, IsNum, DecFrom, UrlText, IsFragmentChar,
        IsQueryChar,
         IsUrlChar;
    var a, n := AuthorityText(u), |u.userinfo|;
    HostChars(u.host);
    assert a == Before(u.userinfo, "@") + (HostText(u.host) + After(":", u.port));
    forall i | 0 <= i < |a|
      ensures IsServerChar(a[i]) && (a[i] == '@' <==> n > 0 && i == n)
    {
      UserinfoIsServer(a[i]);
      UserinfoIsServer(':');
      AtIsServer();
      if n > 0 && i < n {
        assert a[i] == u.userinfo[i];
      } else if n > 0 && i == n {
        assert a[i] == '@';
      } else {
        var j := i - |Before(u.userinfo, "@")|;
        var k := j - |HostText(u.host)|;
        if k < 0 {
          assert a[i] == HostText(u.host)[j];
        } else if k == 0 {
          assert a[i] == ':';
        } else {
          assert a[i] == u.port[k - 1];
        }
      }
    }
    if n > 0 { assert a[n] == '@'; }
  }

  lemma AtIsServer()
    ensures IsServerChar('@') && IsServerChar('[') && IsServerChar(']') && IsUserinfoChar('%')
    ensures !IsUserinfoChar('@')
  {
  }

  lemma HostChars(h: Host)
    requires GoodHost(h)
    ensures HostText(h) != [] && HostName(h) != []
    ensures forall i :: 0 <= i < |HostText(h)| ==> IsServerChar(HostText(h)[i]) && HostText(h)[i] != '@'
  {
    hide IsServerChar, IsUserinfoChar, IsHostChar, IsV6Char, IsZoneChar;
    AtIsServer();
    forall i | 0 <= i < |HostText(h)|
      ensures IsServerChar(HostText(h)[i]) && HostText(h)[i] != '@'
    {
      UserinfoIsServer(HostText(h)[i]);
    }
  }

  lemma GoesAuthority(x: Scan, u: Url)
    requires GoodUrl(u) && x.s.ReqServerStart? && x.last == SomeField(SCHEMA) && !x.foundAt
             && x.n + |AuthorityText(u)| <= LIMIT
    ensures var a := AuthorityText(u);
            Fold(x, a) == Scan(ReqServer, SomeField(HOST), u.userinfo != [], x.fields[HOST := Span(x.n, |a|)],
                x.n + |a|)
  {
    hide StateAfter, Fold, AuthorityText, ParseUrlChar, IsServerChar, NoTwins, GoodUrl;
    var a := AuthorityText(u);
    AuthorityChars(u);
    forall i | 0 < i <= |a|
      ensures StateAfter(x.s, a[..i]) == if a[i - 1] == '@' then ReqServerWithAt else ReqServer
    {
      ServerStates(a, i);
    }
    FieldRun(x, a, HOST);
    FoundAt(x, a);
    assert a[..|a|] == a;
  }

  lemma GoesPath(x: Scan, u: Url)
    requires GoodUrl(u) && x.s.ReqServer? && x.last == SomeField(HOST) && x.n + |u.path| <= LIMIT
    ensures var y := Fold(x, u.path);
            y.foundAt == x.foundAt && y.n == x.n + |u.path| && y.fields == Set(x.fields, PATH, x.n, u.path)
            && y.last == (if u.path == [] then x.last else SomeField(PATH))
            && y.s == if u.path == [] then ReqServer else ReqPath
  {
    hide StateAfter, Fold, UrlText, ParseUrlChar, IsUrlChar, GoodHost, DecFrom;
    var a := u.path;
    if a == [] {
      FoldNone(x);
    } else {
      forall i | 0 < i <= |a|
        ensures StateAfter(x.s, a[..i]) == ReqPath
      {
        PathStates(x.s, a, i);
      }
      FieldRun(x, a, PATH);
      assert a[..|a|] == a;
      KeepsAt(x, a);
    }
  }

  /** Outside the authority nothing sets `foundAt`. */
  lemma {:induction false} KeepsAt(x: Scan, seg: string)
    requires forall i :: 0 < i <= |seg| ==> !StateAfter(x.s, seg[..i]).ReqServerWithAt?
    ensures Fold(x, seg).foundAt == x.foundAt && Fold(x, seg).s == StateAfter(x.s, seg)
  {
    hide ParseUrlChar, FieldOf, StateAfter, U16;
    if seg == [] {
      StateAfterNone(x.s);
    } else {
      var m := |seg| - 1;
      forall i | 0 < i <= m
        ensures !StateAfter(x.s, seg[..m][..i]).ReqServerWithAt?
      {
        assert seg[..m][..i] == seg[..i];
      }
      KeepsAt(x, seg[..m]);
      StateAfterSnoc(x.s, seg, m);
      assert seg[..m + 1] == seg;
    }
  }

  lemma QuerySteps()
    ensures ParseUrlChar(ReqServer, '?') == ReqQueryStringStart == ParseUrlChar(ReqPath, '?')
    ensures ParseUrlChar(ReqPath, '#') == ReqFragmentStart == ParseUrlChar(ReqQueryString, '#')
  {
  }

  lemma GoesQuery(x: Scan, u: Url)
    requires GoodUrl(u) && (x.s.ReqServer? || x.s.ReqPath?) && x.last != SomeField(QUERY)
             && x.n + |After("?", u.query)| <= LIMIT
    ensures var y := Fold(x, After("?", u.query));
            y.foundAt == x.foundAt && y.n == x.n + |After("?", u.query)|
                && y.fields == Set(x.fields, QUERY, x.n + 1, u.query)
            && y.last == (if u.query == [] then x.last else SomeField(QUERY))
            && y.s == if u.query == [] then x.s else ReqQueryString
  {
    hide StateAfter, Fold, UrlText, ParseUrlChar, IsQueryChar, GoodHost, DecFrom;
    var a := u.query;
    if a == [] {
      FoldNone(x);
    } else {
      QuerySteps();
      Delimiter(x, '?');
      var y := x.(s := ReqQueryStringStart, n := x.n + 1);
      forall i | 0 < i <= |a|
        ensures StateAfter(y.s, a[..i]) == ReqQueryString
      {
        QueryStates(a, i);
      }
      FieldRun(y, a, QUERY);
      assert a[..|a|] == a;
      KeepsAt(y, a);
      FoldAppend(x, ['?'], a);
    }
  }

  lemma GoesFragment(x: Scan, u: Url)
    requires GoodUrl(u) && (u.fragment != [] ==> x.s.ReqPath? || x.s.ReqQueryString?) && x.last != SomeField(FRAGMENT)
    requires !x.s.Dead? && x.n + |After("#", u.fragment)| <= LIMIT
    ensures var y := Fold(x, After("#", u.fragment));
            y.foundAt == x.foundAt && y.fields == Set(x.fields, FRAGMENT, x.n + 1, u.fragment) && !y.s.Dead?
  {
    hide StateAfter, Fold, UrlText, ParseUrlChar, IsFragmentChar, GoodHost, DecFrom;
    var a := u.fragment;
    if a == [] {
      FoldNone(x);
    } else {
      QuerySteps();
      Delimiter(x, '#');
      var y := x.(s := ReqFragmentStart, n := x.n + 1);
      forall i | 0 < i <= |a|
        ensures StateAfter(y.s, a[..i]) == ReqFragment
      {
        FragmentStates(a, i);
      }
      FieldRun(y, a, FRAGMENT);
      assert a[..|a|] == a;
      KeepsAt(y, a);
      FoldAppend(x, ['#'], a);
    }
  }

  lemma GoesUrl(u: Url)
    requires GoodUrl(u)
    ensures var y := Fold(StartScan(false), UrlText(u));
            !y.s.Dead? && y.fields == FieldsOf(u) && y.foundAt == (u.userinfo != [])
  {
    hide GoodUrl, Fold, AuthorityText;
    assert |UrlText(u)| <= LIMIT && (u.fragment != [] ==> u.path != [] || u.query != []) by { GoodFacts(u); }
    var x, a := StartScan(false), AuthorityText(u);
    assert u.scheme != [] && All(IsAlpha, u.scheme) by { SchemeIs(u); }
    GoesScheme(u.scheme);
    var x1 := Fold(x, u.scheme + "://");
    GoesAuthority(x1, u);
    FoldAppend(x, u.scheme + "://", a);
    var x2 := Fold(x1, a);
    GoesPath(x2, u);
    FoldAppend(x, u.scheme + "://" + a, u.path);
    var x3 := Fold(x2, u.path);
    GoesQuery(x3, u);
    FoldAppend(x, u.scheme + "://" + a + u.path, After("?", u.query));
    var x4 := Fold(x3, After("?", u.query));
    GoesFragment(x4, u);
    FoldAppend(x, u.scheme + "://" + a + u.path + After("?", u.query), After("#", u.fragment));
  }

  lemma SchemeIs(u: Url)
    requires GoodUrl(u)
    ensures u.scheme != [] && All(IsAlpha, u.scheme)
  {
  }

  lemma GoodFacts(u: Url)
    requires GoodUrl(u)
    ensures |UrlText(u)| <= LIMIT && (u.fragment != [] ==> u.path != [] || u.query != [])
  {
  }

  // ----- the host

  /** A segment that begins a field of the authority and is all of it. */
  lemma {:induction false} HostRun(x: HostScan, seg: string, s: HostState, f: Field)
    requires (s, f) in {(Userinfo, USERINFO), (Name, HOST), (V6, HOST), (PortDigits, PORT)} && x.s != s
    requires seg != [] && x.n + |seg| <= LIMIT && (f == HOST ==> HOST in x.fields && x.fields[HOST].len == 0)
    requires forall i :: 0 <= i < |seg| ==> ParseHostChar(x.s, seg[i]) == s == ParseHostChar(s, seg[i])
    ensures HostFold(x, seg) == HostScan(s, x.fields[f := Span(x.n, |seg|)], x.n + |seg|)
  {
    hide ParseHostChar, U16;
    var m := |seg| - 1;
    if m == 0 {
      HostFoldNone(x);
      assert seg[..0] == [];
    } else {
      HostRun(x, seg[..m], s, f);
      assert x.fields[f := Span(x.n, m)][f := Span(x.n, m + 1)] == x.fields[f := Span(x.n, m + 1)];
    }
  }

  lemma HostDelimiter(x: HostScan, ch: char, s: HostState)
    requires ParseHostChar(x.s, ch) == s && s in {HostStart, V6Start, V6End, PortStart}
    ensures HostFold(x, [ch]) == HostScan(s, x.fields, x.n + 1)
  {
    hide ParseHostChar;
    assert [ch][..0] == [];
    HostFoldNone(x);
  }

  lemma HostCharSteps(ch: char)
    ensures IsUserinfoChar(ch) ==>
              ch != '@' && ParseHostChar(UserinfoStart, ch) == Userinfo == ParseHostChar(Userinfo, ch)
    ensures IsHostChar(ch) ==> ParseHostChar(HostStart, ch) == Name == ParseHostChar(Name, ch)
    ensures IsV6Char(ch) ==> ParseHostChar(V6Start, ch) == V6 == ParseHostChar(V6, ch)
    ensures IsNum(ch) ==> ParseHostChar(PortStart, ch) == PortDigits == ParseHostChar(PortDigits, ch)
    ensures IsZoneChar(ch) ==> ParseHostChar(V6ZoneStart, ch) == V6Zone == ParseHostChar(V6Zone, ch)
  {
  }

  lemma DelimiterSteps()
    ensures ParseHostChar(Userinfo, '@') == HostStart && ParseHostChar(HostStart, '[') == V6Start
    ensures ParseHostChar(V6, ']') == V6End == ParseHostChar(V6Zone, ']')
    ensures ParseHostChar(Name, ':') == PortStart == ParseHostChar(V6End, ':') && ParseHostChar(V6, '%') == V6ZoneStart
  {
  }

  /** The `%` and the zone after an IPv6 address. */
  lemma {:induction false} ZoneRun(x: HostScan, zone: string)
    requires x.s.V6? && All(IsZoneChar, zone) && HOST in x.fields && x.fields[HOST].len + 1 + |zone| <= LIMIT
    ensures HostFold(x, "%" + zone)
         == HostScan(if zone == [] then V6ZoneStart else V6Zone,
                     x.fields[HOST := Span(x.fields[HOST].off, x.fields[HOST].len + 1 + |zone|)], x.n + 1 + |zone|)
    decreases |zone|
  {
    hide ParseHostChar, U16, IsZoneChar;
    DelimiterSteps();
    HostFoldNone(x);
    if zone == [] {
      assert ("%" + zone)[..0] == [];
    } else {
      var m := |zone| - 1;
      assert ("%" + zone)[..m + 1] == "%" + zone[..m];
      ZoneRun(x, zone[..m]);
      HostCharSteps(zone[m]);
      var h := x.fields[HOST];
      assert x.fields[HOST := Span(h.off, h.len + 1 + m)][HOST := Span(h.off, h.len + 2 + m)]
          == x.fields[HOST := Span(h.off, h.len + 2 + m)];
    }
  }

  function NameAt(h: Host): nat { if h.RegName? then 0 else 1 }

  lemma GoesName(x: HostScan, name: string)
    requires x.s.HostStart? && name != [] && All(IsHostChar, name) && HOST in x.fields && x.fields[HOST].len == 0
    requires x.n + |name| <= LIMIT
    ensures HostFold(x, name) == HostScan(Name, x.fields[HOST := Span(x.n, |name|)], x.n + |name|)
  {
    hide ParseHostChar, U16, IsHostChar, HostFold;
    forall i | 0 <= i < |name|
      ensures ParseHostChar(x.s, name[i]) == Name == ParseHostChar(Name, name[i])
    {
      HostCharSteps(name[i]);
    }
    HostRun(x, name, Name, HOST);
  }

  lemma GoesAddr(x: HostScan, addr: string)
    requires x.s.HostStart? && addr != [] && All(IsV6Char, addr) && HOST in x.fields && x.fields[HOST].len == 0
    requires x.n + 1 + |addr| <= LIMIT
    ensures HostFold(x, "[" + addr) == HostScan(V6, x.fields[HOST := Span(x.n + 1, |addr|)], x.n + 1 + |addr|)
  {
    hide ParseHostChar, U16, IsV6Char, HostFold;
    DelimiterSteps();
    HostDelimiter(x, '[', V6Start);
    var y := HostScan(V6Start, x.fields, x.n + 1);
    forall i | 0 <= i < |addr|
      ensures ParseHostChar(y.s, addr[i]) == V6 == ParseHostChar(V6, addr[i])
    {
      HostCharSteps(addr[i]);
    }
    HostRun(y, addr, V6, HOST);
    HostFoldAppend(x, "[", addr);
  }

  lemma GoesBracket(x: HostScan, h: Host)
    requires h.V6Addr? && x.s.HostStart? && GoodHost(h) && HOST in x.fields && x.fields[HOST].len == 0
    requires x.n + |HostText(h)| <= LIMIT
    ensures HostFold(x, "[" + HostName(h))
         == HostScan(if h.zone == [] then V6 else V6Zone, x.fields[HOST := Span(x.n + 1, |HostName(h)|)],
             x.n + 1 + |HostName(h)|)
  {
    hide ParseHostChar, U16, IsHostChar, IsV6Char, IsZoneChar, HostFold, All;
    GoesAddr(x, h.addr);
    if h.zone != [] {
      var z := HostFold(x, "[" + h.addr);
      ZoneRun(z, h.zone);
      HostFoldAppend(x, "[" + h.addr, "%" + h.zone);
      assert "[" + h.addr + ("%" + h.zone) == "[" + HostName(h);
      assert z.fields[HOST := Span(x.n + 1, |HostName(h)|)] == x.fields[HOST := Span(x.n + 1, |HostName(h)|)];
    }
  }

  lemma GoesHost(x: HostScan, h: Host)
    requires x.s.HostStart? && GoodHost(h) && HOST in x.fields && x.fields[HOST].len == 0
             && x.n + |HostText(h)| <= LIMIT
    ensures HostFold(x, HostText(h))
         == HostScan(if h.RegName? then Name else V6End, x.fields[HOST := Span(x.n + NameAt(h), |HostName(h)|)],
                     x.n + |HostText(h)|)
  {
    hide ParseHostChar, U16, IsHostChar, IsV6Char, IsZoneChar, HostFold, All;
    if h.RegName? {
      GoesName(x, h.name);
    } else {
      GoesBracket(x, h);
      DelimiterSteps();
      HostDelimiter(HostFold(x, "[" + HostName(h)), ']', V6End);
      HostFoldAppend(x, "[" + HostName(h), "]");
    }
  }

  function PortAt(u: Url): nat { |Before(u.userinfo, "@")| + |HostText(u.host)| + 1 }

  /** The fields of the authority that starts at `from`. */
  function CutFields(u: Url, fields: Fields, from: nat): Fields {
    var f := Set(fields, USERINFO, from, u.userinfo);
    var f := f[HOST := Span(from + |Before(u.userinfo, "@")| + NameAt(u.host), |HostName(u.host)|)];
    Set(f, PORT, from + PortAt(u), u.port)
  }

  lemma GoesUserinfo(x: HostScan, u: Url)
    requires GoodUrl(u) && HOST in x.fields && x.n + |Before(u.userinfo, "@")| <= LIMIT
    requires x.s == if u.userinfo != [] then UserinfoStart else HostStart
    ensures HostFold(x, Before(u.userinfo, "@"))
         == HostScan(HostStart, Set(x.fields, USERINFO, x.n, u.userinfo), x.n + |Before(u.userinfo, "@")|)
  {
    hide ParseHostChar, U16, IsUserinfoChar, HostFold, UrlText, GoodHost, DecFrom;
    if u.userinfo == [] {
      HostFoldNone(x);
    } else {
      var a := u.userinfo;
      forall i | 0 <= i < |a|
        ensures ParseHostChar(x.s, a[i]) == Userinfo == ParseHostChar(Userinfo, a[i])
      {
        HostCharSteps(a[i]);
      }
      HostRun(x, a, Userinfo, USERINFO);
      DelimiterSteps();
      HostDelimiter(HostFold(x, a), '@', HostStart);
      HostFoldAppend(x, a, "@");
    }
  }

  lemma GoesPort(x: HostScan, u: Url)
    requires GoodUrl(u) && (x.s.Name? || x.s.V6End?) && x.n + |After(":", u.port)| <= LIMIT
    ensures var y := HostFold(x, After(":", u.port));
            y.fields == Set(x.fields, PORT, x.n + 1, u.port) && HostEnds(y.s)
  {
    hide ParseHostChar, U16, IsNum, HostFold, UrlText, GoodHost, DecFrom;
    if u.port == [] {
      HostFoldNone(x);
    } else {
      var a := u.port;
      DelimiterSteps();
      HostDelimiter(x, ':', PortStart);
      var y := HostScan(PortStart, x.fields, x.n + 1);
      forall i | 0 <= i < |a|
        ensures ParseHostChar(y.s, a[i]) == PortDigits == ParseHostChar(PortDigits, a[i])
      {
        HostCharSteps(a[i]);
      }
      HostRun(y, a, PortDigits, PORT);
      HostFoldAppend(x, ":", a);
    }
  }

  lemma GoesHostPart(u: Url, x: HostScan)
    requires GoodUrl(u) && HOST in x.fields && x.fields[HOST].len == 0 && x.n + |AuthorityText(u)| <= LIMIT
    requires x.s == if u.userinfo != [] then UserinfoStart else HostStart
    ensures var h := HostFold(x, AuthorityText(u)); HostEnds(h.s) && h.fields == CutFields(u, x.fields, x.n)
  {
    hide HostFold, GoodUrl, HostText, HostName;
    assert GoodHost(u.host) by { GoodParts(u); }
    var a, b, c := Before(u.userinfo, "@"), HostText(u.host), After(":", u.port);
    GoesUserinfo(x, u);
    GoesHost(HostFold(x, a), u.host);
    HostFoldAppend(x, a, b);
    GoesPort(HostFold(x, a + b), u);
    HostFoldAppend(x, a + b, c);
  }

  lemma GoodParts(u: Url)
    requires GoodUrl(u)
    ensures GoodHost(u.host) && (u.port != [] ==> IsDigits(u.port) && DecFrom(0, u.port) <= LIMIT)
    ensures |UrlText(u)| <= LIMIT && u.scheme != []
  {
  }

  // ----- the round trip

  /** Component `a` is field `f` of the URL, or absent with it. */
  predicate Found(buf: string, fields: Fields, f: Field, a: string) {
    (f in fields <==> a != []) && (f in fields ==> Text(buf, fields[f]) == a)
  }

  /** The result holds exactly the components. */
  predicate Finds(u: Url, o: Outcome)
    requires o.Accepted?
  {
    var buf := UrlText(u);
    && Found(buf, o.fields, SCHEMA, u.scheme) && Found(buf, o.fields, USERINFO, u.userinfo)
    && Found(buf, o.fields, HOST, HostName(u.host)) && Found(buf, o.fields, PORT, u.port)
    && Found(buf, o.fields, PATH, u.path) && Found(buf, o.fields, QUERY, u.query)
    && Found(buf, o.fields, FRAGMENT, u.fragment)
    && o.port == if u.port == [] then 0 else NumberOf(u.port)
  }

  function NumberOf(ds: string): nat { if forall i :: 0 <= i < |ds| ==> IsNum(ds[i]) then DecFrom(0, ds) else 0 }

  lemma Middle(a: string, b: string, c: string, off: nat)
    requires off == |a|
    ensures Text(a + b + c, Span(off, |b|)) == b
  {
  }

  lemma TextAt(buf: string, a: string, b: string, c: string, span: Span)
    requires buf == a + b + c && span == Span(|a|, |b|)
    ensures Text(buf, span) == b && span.off + span.len <= |buf|
  {
    Middle(a, b, c, |a|);
  }

  /** The fields of the whole URL, once the authority is cut. */
  function AllFields(u: Url): Fields {
    var f := FieldsOf(u);
    CutFields(u, f[HOST := Span(|u.scheme| + 3, 0)], |u.scheme| + 3)
  }

  lemma WhichFields(u: Url)
    requires u.scheme != [] && HostName(u.host) != []
    ensures var f, n := AllFields(u), |u.scheme| + 3;
            && SCHEMA in f && f[SCHEMA] == Span(0, |u.scheme|)
            && HOST in f && f[HOST] == Span(n + |Before(u.userinfo, "@")| + NameAt(u.host), |HostName(u.host)|)
            && (USERINFO in f <==> u.userinfo != []) && (USERINFO in f ==> f[USERINFO] == Span(n, |u.userinfo|))
            && (PORT in f <==> u.port != []) && (PORT in f ==> f[PORT] == Span(n + PortAt(u), |u.port|))
  {
    hide HostName, HostText, AuthorityText;
  }

  lemma WhichOthers(u: Url)
    ensures var f := AllFields(u);
            && (PATH in f <==> u.path != []) && (PATH in f ==> f[PATH] == Span(PathAt(u), |u.path|))
            && (QUERY in f <==> u.query != []) && (QUERY in f ==> f[QUERY] == Span(QueryAt(u), |u.query|))
            && (FRAGMENT in f <==> u.fragment != [])
            && (FRAGMENT in f ==> f[FRAGMENT] == Span(FragmentAt(u), |u.fragment|))
  {
    hide HostName, HostText, AuthorityText, PathAt, QueryAt, FragmentAt, PortAt;
  }

  lemma AuthorityParts(u: Url)
    ensures UrlText(u) == (u.scheme + "://") + (Before(u.userinfo, "@") + HostText(u.host) + After(":", u.port))
                          + (u.path + After("?", u.query) + After("#", u.fragment))
    ensures u.host.RegName? ==> HostName(u.host) == HostText(u.host)
  {
  }

  lemma AroundAuthority(u: Url)
    ensures UrlText(u) == (u.scheme + "://") + AuthorityText(u)
            + (u.path + After("?", u.query) + After("#", u.fragment))
  {
    hide HostText;
  }

  lemma FindsHost(u: Url)
    requires u.scheme != [] && HostName(u.host) != []
    ensures Found(UrlText(u), AllFields(u), HOST, HostName(u.host))
  {
    hide HostName, AllFields, Text, UrlText;
    WhichFields(u);
    AuthorityParts(u);
    var buf, f, w := UrlText(u), AllFields(u), u.scheme + "://";
    var rest := u.path + After("?", u.query) + After("#", u.fragment);
    var ui, h, p := Before(u.userinfo, "@"), HostText(u.host), After(":", u.port);
    Nested(w, ui, h, p, rest);
    if u.host.RegName? {
      TextAt(buf, w + ui, h, p + rest, f[HOST]);
    } else {
      assert h == "[" + HostName(u.host) + "]" by { Bracketed(u.host); }
      Surrounded(w + ui, "[", HostName(u.host), "]", p + rest);
      TextAt(buf, w + ui + "[", HostName(u.host), "]" + (p + rest), f[HOST]);
    }
  }

  lemma Bracketed(h: Host)
    requires !h.RegName?
    ensures HostText(h) == "[" + HostName(h) + "]"
  {
  }

  lemma Nested(w: string, a: string, b: string, c: string, rest: string)
    ensures w + (a + b + c) + rest == (w + a) + b + (c + rest)
    ensures w + (a + b + c) + rest == (w + a + b) + c + rest
    ensures w + (a + b + c) + rest == w + a + (b + c + rest)
  {
  }

  lemma Surrounded(a: string, b: string, c: string, d: string, e: string)
    ensures a + (b + c + d) + e == (a + b) + c + (d + e)
  {
  }

  lemma Between(a: string, b: string, c: string, d: string)
    ensures a + (b + c) + d == (a + b) + c + d
    ensures a + (b + c) + d == a + b + (c + d)
  {
  }

  lemma FindsAuthority(u: Url)
    requires u.scheme != [] && HostName(u.host) != []
    ensures Found(UrlText(u), AllFields(u), SCHEMA, u.scheme) && Found(UrlText(u), AllFields(u), USERINFO, u.userinfo)
    ensures Found(UrlText(u), AllFields(u), PORT, u.port)
  {
    hide HostName, AllFields, Text, UrlText, HostText;
    WhichFields(u);
    AuthorityParts(u);
    var buf, f, w := UrlText(u), AllFields(u), u.scheme + "://";
    var rest := u.path + After("?", u.query) + After("#", u.fragment);
    var ui, h, p := Before(u.userinfo, "@"), HostText(u.host), After(":", u.port);
    FindsScheme(u, buf, (ui + h + p) + rest, f);
    if u.userinfo != [] {
      UserinfoText(buf, w, u.userinfo, h, p, rest);
      TextAt(buf, w, u.userinfo, "@" + (h + p + rest), f[USERINFO]);
    }
    if u.port != [] {
      PortText(buf, w, ui, h, u.port, rest);
      TextAt(buf, w + ui + h + ":", u.port, rest, f[PORT]);
    }
  }

  lemma UserinfoText(buf: string, w: string, a: string, h: string, p: string, rest: string)
    requires buf == w + ((a + "@") + h + p) + rest
    ensures buf == w + a + ("@" + (h + p + rest))
  {
    Nested(w, a + "@", h, p, rest);
    Between(w, a, "@", h + p + rest);
  }

  lemma PortText(buf: string, w: string, ui: string, h: string, port: string, rest: string)
    requires buf == w + (ui + h + (":" + port)) + rest
    ensures buf == (w + ui + h + ":") + port + rest
  {
    Nested(w, ui, h, ":" + port, rest);
    Between(w + ui + h, ":", port, rest);
  }

  lemma FindsScheme(u: Url, buf: string, tail: string, f: Fields)
    requires buf == u.scheme + "://" + tail && SCHEMA in f && f[SCHEMA] == Span(0, |u.scheme|) && u.scheme != []
    ensures Found(buf, f, SCHEMA, u.scheme)
  {
    hide Text;
    assert buf == [] + u.scheme + ("://" + tail);
    TextAt(buf, [], u.scheme, "://" + tail, f[SCHEMA]);
  }

  lemma FindsOthers(u: Url)
    ensures var buf, f := UrlText(u), AllFields(u);
            Found(buf, f, PATH, u.path) && Found(buf, f, QUERY, u.query) && Found(buf, f, FRAGMENT, u.fragment)
  {
    hide HostName, AllFields, Text, AuthorityText;
    WhichOthers(u);
    var buf, f, w := UrlText(u), AllFields(u), u.scheme + "://" + AuthorityText(u);
    var q, g := After("?", u.query), After("#", u.fragment);
    if u.path != [] {
      assert buf == w + u.path + (q + g);
      TextAt(buf, w, u.path, q + g, f[PATH]);
    }
    if u.query != [] {
      assert buf == (w + u.path + "?") + u.query + g;
      TextAt(buf, w + u.path + "?", u.query, g, f[QUERY]);
    }
    if u.fragment != [] {
      assert buf == (w + u.path + q + "#") + u.fragment + [];
      TextAt(buf, w + u.path + q + "#", u.fragment, [], f[FRAGMENT]);
    }
  }

  lemma GoesCut(u: Url)
    requires GoodUrl(u)
    ensures var buf := UrlText(u);
            var x := Fold(StartScan(false), buf);
            !x.s.Dead? && SCHEMA in x.fields && HOST in x.fields
            && (var h := HostFold(StartHost(x.fields, x.foundAt), Authority(buf, x.fields));
                HostEnds(h.s) && h.fields == AllFields(u))
  {
    hide GoodUrl, Fold, HostFold, AuthorityText, CutFields, Text;
    GoesUrl(u);
    var buf := UrlText(u);
    var x := Fold(StartScan(false), buf);
    assert HOST in FieldsOf(u) && FieldsOf(u)[HOST] == Span(|u.scheme| + 3, |AuthorityText(u)|)
        && SCHEMA in FieldsOf(u);
    var rest := u.path + After("?", u.query) + After("#", u.fragment);
    AroundAuthority(u);
    TextAt(buf, u.scheme + "://", AuthorityText(u), rest, x.fields[HOST]);
    assert Authority(buf, x.fields) == AuthorityText(u) by { Same(buf, x.fields); }
    GoodParts(u);
    GoesHostPart(u, StartHost(x.fields, x.foundAt));
  }

  lemma Same(buf: string, fields: Fields)
    requires HOST in fields
    ensures Authority(buf, fields) == Text(buf, fields[HOST])
  {
  }

  /** Parsing a printed URL succeeds and finds exactly its components and its port. */
  lemma RoundTrip(u: Url)
    requires GoodUrl(u)
    ensures Parsed(UrlText(u), false).Accepted? && Finds(u, Parsed(UrlText(u), false))
  {
    hide GoodUrl, Fold, HostFold, AllFields, UrlText, Authority, Found, DigitsAt, DecFrom, Text;
    GoesCut(u);
    GoodParts(u);
    assert HostName(u.host) != [] by { HostChars(u.host); }
    FindsHost(u);
    FindsAuthority(u);
    FindsOthers(u);
    if u.port != [] { PortRead(u); }
    NoPort(u);
  }

  lemma NoPort(u: Url)
    requires Found(UrlText(u), AllFields(u), PORT, u.port)
    ensures PORT in AllFields(u) <==> u.port != []
  {
    hide AllFields, UrlText, Text;
  }

  lemma PortRead(u: Url)
    requires GoodUrl(u) && u.port != [] && Found(UrlText(u), AllFields(u), PORT, u.port)
    ensures PORT in AllFields(u) && DigitsAt(UrlText(u), AllFields(u)[PORT].off) == u.port
  {
    hide GoodUrl, Fold, HostFold, AllFields, UrlText, Authority, DigitsAt, Text, Cut, Ahead, Fenced;
    GoesCut(u);
    GoodParts(u);
    var buf := UrlText(u);
    var x := Fold(StartScan(false), buf);
    AuthorityCut(buf, false);
    AfterAuthority(false, buf);
    PortDigitsAt(HostFold(StartHost(x.fields, x.foundAt), Authority(buf, x.fields)), x, buf);
  }
}
