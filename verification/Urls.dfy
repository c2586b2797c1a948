/** http_parser_parse_url: a URL cut into fields of a buffer.  RFC 3986 section 3. */
module Urls {
  import opened Bytes
  import opened Machine
  import opened Lengths

  datatype Field = SCHEMA | HOST | PORT | PATH | QUERY | FRAGMENT | USERINFO

  datatype MaybeField = NoField | SomeField(f: Field)

  /** An element of field_data, two 16-bit numbers. */
  datatype Span = Span(off: nat, len: nat)

  const LIMIT: nat := 0xFFFF

  function U16(n: nat): (r: nat)
    ensures r <= n && (n <= LIMIT ==> r == n)
  {
    n % 0x1_0000
  }

  /** The fields that are set. */
  type Fields = map<Field, Span>

  function Longer(fields: Fields, f: Field): Fields {
    if f in fields then fields[f := Span(fields[f].off, U16(fields[f].len + 1))] else fields
  }

  // ----- the fields of a URL

  /** The field that a state of parse_url_char belongs to; none for a delimiter. */
  function FieldOf(s: State): MaybeField {
    match s
    case ReqSchema => SomeField(SCHEMA)
    case ReqServer => SomeField(HOST)
    case ReqServerWithAt => SomeField(HOST)
    case ReqPath => SomeField(PATH)
    case ReqQueryString => SomeField(QUERY)
    case ReqFragment => SomeField(FRAGMENT)
    case _ => NoField
  }

  datatype Scan = Scan(s: State, last: MaybeField, foundAt: bool, fields: Fields, n: nat)

  function StartScan(connect: bool): Scan {
    Scan(if connect then ReqServerStart else ReqSpacesBeforeUrl, NoField, false, map[], 0)
  }

  function Step(x: Scan, ch: char): Scan {
    var s := ParseUrlChar(x.s, ch);
    var y := x.(s := s, foundAt := x.foundAt || s.ReqServerWithAt?, n := x.n + 1);
    match FieldOf(s)
    case NoField => y
    case SomeField(f) =>
      if x.last == SomeField(f) then y.(fields := Longer(x.fields, f))
      else y.(fields := x.fields[f := Span(U16(x.n), 1)], last := SomeField(f))
  }

  function Fold(x: Scan, data: string): Scan {
    if data == [] then x else Step(Fold(x, data[..|data| - 1]), data[|data| - 1])
  }

  lemma {:induction false} FoldAppend(x: Scan, a: string, b: string)
    ensures Fold(x, a + b) == Fold(Fold(x, a), b)
    decreases |b|
  {
    hide Step;
    if b == [] {
      assert a + b == a;
    } else {
      assert (a + b)[..|a + b| - 1] == a + b[..|b| - 1];
      FoldAppend(x, a, b[..|b| - 1]);
    }
  }

  // ----- the host

  datatype HostState =
    | HostDead | UserinfoStart | Userinfo | HostStart | V6Start | Name | V6 | V6End | V6ZoneStart | V6Zone | PortStart
    | PortDigits

  predicate IsZoneChar(ch: char) { IsAlphaNum(ch) || ch == '%' || ch == '.' || ch == '-' || ch == '_' || ch == '~' }

  predicate IsV6Char(ch: char) { IsHex(ch) || ch == ':' || ch == '.' }

  /** http_parse_host_char. */
  function ParseHostChar(s: HostState, ch: char): HostState {
    match s
    case Userinfo => if ch == '@' then HostStart else if IsUserinfoChar(ch) then Userinfo else HostDead
    case UserinfoStart => if ch == '@' then HostStart else if IsUserinfoChar(ch) then Userinfo else HostDead
    case HostStart => if ch == '[' then V6Start else if IsHostChar(ch) then Name else HostDead
    case Name => if IsHostChar(ch) then Name else if ch == ':' then PortStart else HostDead
    case V6End => if ch == ':' then PortStart else HostDead
    case V6 =>
      if ch == ']' then V6End else if IsV6Char(ch) then V6 else if ch == '%' then V6ZoneStart else HostDead
    case V6Start => if IsV6Char(ch) then V6 else HostDead
    case V6Zone => if ch == ']' then V6End else if IsZoneChar(ch) then V6Zone else HostDead
    case V6ZoneStart => if IsZoneChar(ch) then V6Zone else HostDead
    case PortDigits => if IsNum(ch) then PortDigits else HostDead
    case PortStart => if IsNum(ch) then PortDigits else HostDead
    case HostDead => HostDead
  }

  datatype HostScan = HostScan(s: HostState, fields: Fields, n: nat)

  /** The field begins at `n`, of length zero. */
  function Begin(fields: Fields, f: Field, n: nat): Fields { fields[f := Span(U16(n), 0)] }

  /** The host, whose length is zero already, begins at `n`. */
  function Move(fields: Fields, n: nat): Fields {
    if HOST in fields then fields[HOST := fields[HOST].(off := U16(n))] else fields
  }

  function HostStep(x: HostScan, ch: char): HostScan {
    var s := ParseHostChar(x.s, ch);
    var fields :=
      match s
      case Name => Longer(if x.s.Name? then x.fields else Move(x.fields, x.n), HOST)
      case V6 => Longer(if x.s.V6? then x.fields else Move(x.fields, x.n), HOST)
      case V6ZoneStart => Longer(x.fields, HOST)
      case V6Zone => Longer(x.fields, HOST)
      case PortDigits => Longer(if x.s.PortDigits? then x.fields else Begin(x.fields, PORT, x.n), PORT)
      case Userinfo => Longer(if x.s.Userinfo? then x.fields else Begin(x.fields, USERINFO, x.n), USERINFO)
      case _ => x.fields;
    HostScan(s, fields, x.n + 1)
  }

  function HostFold(x: HostScan, data: string): HostScan {
    if data == [] then x else HostStep(HostFold(x, data[..|data| - 1]), data[|data| - 1])
  }

  lemma {:induction false} HostFoldAppend(x: HostScan, a: string, b: string)
    ensures HostFold(x, a + b) == HostFold(HostFold(x, a), b)
    decreases |b|
  {
    hide HostStep;
    if b == [] {
      assert a + b == a;
    } else {
      assert (a + b)[..|a + b| - 1] == a + b[..|b| - 1];
      HostFoldAppend(x, a, b[..|b| - 1]);
    }
  }

  predicate HostEnds(s: HostState) { s.Name? || s.V6End? || s.PortDigits? }

  function StartHost(fields: Fields, foundAt: bool): HostScan
    requires HOST in fields
  {
    HostScan(if foundAt then UserinfoStart else HostStart, fields[HOST := Span(fields[HOST].off, 0)], fields[HOST].off)
  }

  /** The authority that is cut again. */
  function Authority(buf: string, fields: Fields): (r: string)
    requires HOST in fields
  {
    var a, b := fields[HOST].off, fields[HOST].off + fields[HOST].len;
    if b <= |buf| then buf[a..b] else []
  }

  // ----- the port

  /** strtoul(buf + off, NULL, 10), where what follows the buffer is no digit: the digits at `off`. */
  function DigitsAt(buf: string, off: nat): (ds: string)
    ensures forall i :: 0 <= i < |ds| ==> IsNum(ds[i])
    decreases |buf| - off
  {
    if off < |buf| && IsNum(buf[off]) then [buf[off]] + DigitsAt(buf, off + 1) else []
  }

  lemma {:induction false} DigitsUpTo(buf: string, off: nat, len: nat)
    requires off + len <= |buf| && forall i :: off <= i < off + len ==> IsNum(buf[i])
    requires off + len < |buf| ==> !IsNum(buf[off + len])
    ensures DigitsAt(buf, off) == buf[off..off + len]
    decreases len
  {
    if len > 0 { DigitsUpTo(buf, off + 1, len - 1); }
  }

  // ----- http_parser_parse_url

  datatype Outcome = Rejected | Accepted(fields: Fields, port: nat)

  /** What parsing leaves in struct http_parser_url, and whether it succeeds. */
  function Parsed(buf: string, connect: bool): Outcome {
    var x := Fold(StartScan(connect), buf);
    if x.s.Dead? || (SCHEMA in x.fields && HOST !in x.fields) then Rejected
    else if HOST !in x.fields then
      if connect then Rejected else Accepted(x.fields, 0)
    else
      var h := HostFold(StartHost(x.fields, x.foundAt), Authority(buf, x.fields));
      if !HostEnds(h.s) then Rejected
      else if connect && h.fields.Keys != {HOST, PORT} then Rejected
      else if PORT !in h.fields then Accepted(h.fields, 0)
      else
        var v := DecFrom(0, DigitsAt(buf, h.fields[PORT].off));
        if v > LIMIT then Rejected else Accepted(h.fields, v)
  }

  // ----- in bounds, disjoint, in order

  /** Where a field stands in a URL. */
  function Place(f: Field): nat {
    match f
    case SCHEMA => 1 case USERINFO => 2 case HOST => 3 case PORT => 4 case PATH => 5 case QUERY => 7 case FRAGMENT => 9
  }

  /** Where a state stands; a delimiter stands between two fields. */
  function Stage(s: State): nat {
    match s
    case ReqSpacesBeforeUrl => 0 case ReqSchema => 1 case ReqSchemaSlash => 2 case ReqSchemaSlashSlash => 2
    case ReqServerStart => 2 case ReqServer => 3 case ReqServerWithAt => 3 case ReqPath => 5
    case ReqQueryStringStart => 6 case ReqQueryString => 7 case ReqFragmentStart => 8 case ReqFragment => 9
    case _ => 10
  }

  ghost predicate InOrder(fields: Fields) {
    forall f, g :: f in fields && g in fields && Place(f) < Place(g) ==> fields[f].off + fields[f].len <= fields[g].off
  }

  /** The state never goes back, and stays only within a field or a delimiter. */
  lemma StagesRise(s: State, ch: char)
    requires !ParseUrlChar(s, ch).Dead? && Stage(s) < 10
    ensures var s' := ParseUrlChar(s, ch);
            Stage(s) <= Stage(s') < 10
            && (FieldOf(s').SomeField? ==> Stage(s') == Place(FieldOf(s').f))
            && (FieldOf(s').SomeField? && Stage(s) == Stage(s') ==> FieldOf(s) == FieldOf(s'))
  {
    hide IsAlpha, IsUrlChar, IsUserinfoChar;
  }

  /** Every field read so far lies before the cursor and in its place; the current one reaches the cursor. */
  ghost predicate Ahead(x: Scan) {
    && x.n <= LIMIT && Stage(x.s) < 10 && InOrder(x.fields)
    && (forall f :: f in x.fields ==> x.fields[f].len >= 1 && x.fields[f].off + x.fields[f].len <= x.n)
    && (forall f :: f in x.fields ==> Place(f) <= Stage(x.s) && f != USERINFO && f != PORT)
    && (FieldOf(x.s).SomeField? ==> x.last == FieldOf(x.s))
    && (x.last.SomeField? ==> x.last.f in x.fields)
    && (FieldOf(x.s).SomeField? ==> x.fields[x.last.f].off + x.fields[x.last.f].len == x.n)
  }

  /** A field that begins or goes on at the cursor. */
  lemma FieldAhead(x: Scan, ch: char, f: Field)
    requires Ahead(x) && x.n < LIMIT && !ParseUrlChar(x.s, ch).Dead? && FieldOf(ParseUrlChar(x.s, ch)) == SomeField(f)
    ensures var y := Step(x, ch);
            && y.last == SomeField(f) && f in y.fields && y.fields[f].len >= 1
            && y.fields[f].off + y.fields[f].len == x.n + 1
            && (forall g :: g in y.fields && g != f ==> g in x.fields && y.fields[g] == x.fields[g])
            && (forall g :: g in x.fields && g != f ==> Place(g) < Place(f))
  {
    hide ParseUrlChar, InOrder;
    StagesRise(x.s, ch);
    if x.last == SomeField(f) { SamePlace(x, ch, f); }
    forall g | g in x.fields && g != f
      ensures Place(g) < Place(f)
    {
      PlaceOnce(g, f);
    }
  }

  lemma PlaceOnce(f: Field, g: Field)
    ensures Place(f) == Place(g) ==> f == g
  {
  }

  /** The last field goes on only from within itself. */
  lemma SamePlace(x: Scan, ch: char, f: Field)
    requires Ahead(x) && !ParseUrlChar(x.s, ch).Dead? && FieldOf(ParseUrlChar(x.s, ch)) == SomeField(f)
             && x.last == SomeField(f)
    ensures FieldOf(x.s) == SomeField(f)
  {
    hide ParseUrlChar, InOrder;
    StagesRise(x.s, ch);
    if FieldOf(x.s).NoField? { NotAfterDelimiter(x.s, ch); }
  }

  /** A delimiter does not lead back to a field that came before it. */
  lemma NotAfterDelimiter(s: State, ch: char)
    requires !ParseUrlChar(s, ch).Dead? && Stage(s) < 10 && FieldOf(s).NoField?
    ensures FieldOf(ParseUrlChar(s, ch)).SomeField? ==> Stage(s) < Stage(ParseUrlChar(s, ch))
  {
    hide ParseUrlChar;
    StagesRise(s, ch);
  }

  lemma DelimiterAhead(x: Scan, ch: char)
    requires Ahead(x) && x.n < LIMIT && !ParseUrlChar(x.s, ch).Dead? && FieldOf(ParseUrlChar(x.s, ch)).NoField?
    ensures Ahead(Step(x, ch))
  {
    hide ParseUrlChar, InOrder;
    StagesRise(x.s, ch);
  }

  lemma StepAhead(x: Scan, ch: char)
    requires Ahead(x) && x.n < LIMIT && !ParseUrlChar(x.s, ch).Dead?
    ensures Ahead(Step(x, ch))
  {
    StagesRise(x.s, ch);
    hide ParseUrlChar, U16, Longer;
    match FieldOf(ParseUrlChar(x.s, ch))
    case NoField => DelimiterAhead(x, ch);
    case SomeField(f) =>
      FieldAhead(x, ch, f);
      StepPlain(x, ch);
      var y := Step(x, ch);
      forall g, h | g in y.fields && h in y.fields && Place(g) < Place(h)
        ensures y.fields[g].off + y.fields[g].len <= y.fields[h].off
      {
        FieldInOrder(x, ch, f, g, h);
      }
      hide Step;
  }

  lemma StepPlain(x: Scan, ch: char)
    ensures Step(x, ch).s == ParseUrlChar(x.s, ch) && Step(x, ch).n == x.n + 1
  {
    hide ParseUrlChar;
  }

  lemma FieldInOrder(x: Scan, ch: char, f: Field, g: Field, h: Field)
    requires Ahead(x) && x.n < LIMIT && !ParseUrlChar(x.s, ch).Dead? && FieldOf(ParseUrlChar(x.s, ch)) == SomeField(f)
    requires var y := Step(x, ch); g in y.fields && h in y.fields && Place(g) < Place(h)
    ensures var y := Step(x, ch); y.fields[g].off + y.fields[g].len <= y.fields[h].off
  {
    FieldAhead(x, ch, f);
    hide ParseUrlChar;
    if x.last == SomeField(f) { SamePlace(x, ch, f); }
  }

  lemma {:induction false} FoldAhead(x: Scan, data: string)
    requires Ahead(x) && x.n + |data| <= LIMIT
    ensures Fold(x, data).n == x.n + |data|
    ensures !Fold(x, data).s.Dead? ==> Ahead(Fold(x, data))
  {
    hide Ahead, ParseUrlChar;
    if data != [] {
      var m := |data| - 1;
      FoldAhead(x, data[..m]);
      var y := Fold(x, data[..m]);
      if y.s.Dead? {
        DeadDies(y, data[m]);
      } else if !ParseUrlChar(y.s, data[m]).Dead? {
        StepAhead(y, data[m]);
      }
    }
  }

  lemma DeadDies(x: Scan, ch: char)
    requires x.s.Dead?
    ensures Step(x, ch).s.Dead?
  {
  }

  /** Whatever the length of the buffer, every field set so far lies within the bytes read: the host is never looked
      for outside the buffer, although offsets are cut to 16 bits. */
  lemma {:induction false} FoldInside(x: Scan, data: string)
    requires forall f :: f in x.fields ==> x.fields[f].off + x.fields[f].len <= x.n
    ensures var y := Fold(x, data);
            y.n == x.n + |data| && forall f :: f in y.fields ==> y.fields[f].off + y.fields[f].len <= y.n
  {
    hide ParseUrlChar;
    if data != [] { FoldInside(x, data[..|data| - 1]); }
  }

  lemma AuthorityInside(buf: string, connect: bool)
    ensures var x := Fold(StartScan(connect), buf);
            HOST in x.fields ==> x.fields[HOST].off + x.fields[HOST].len <= |buf|
  {
    FoldInside(StartScan(connect), buf);
  }

  /** The byte after the authority is no digit. */
  ghost predicate Fenced(x: Scan, data: string) {
    HOST in x.fields && FieldOf(x.s) != SomeField(HOST) ==>
      var e := x.fields[HOST].off + x.fields[HOST].len; e < |data| && (data[e] == '/' || data[e] == '?')
  }

  lemma StepFenced(x: Scan, data: string)
    requires data != [] && Ahead(x) && x.n == |data| - 1 && x.n < LIMIT && !ParseUrlChar(x.s, data[|data| - 1]).Dead?
    requires Fenced(x, data[..|data| - 1])
    ensures Fenced(Step(x, data[|data| - 1]), data)
  {
    hide ParseUrlChar, U16;
    StagesRise(x.s, data[|data| - 1]);
    if FieldOf(x.s) == SomeField(HOST) { ServerLeaves(x.s, data[|data| - 1]); }
  }

  lemma {:induction false} AfterAuthority(connect: bool, data: string)
    requires |data| <= LIMIT && !Fold(StartScan(connect), data).s.Dead?
    ensures Fenced(Fold(StartScan(connect), data), data)
  {
    hide Step, Ahead, Fenced;
    if data == [] {
      NotFenced(connect);
    } else {
      var m := |data| - 1;
      var x := Fold(StartScan(connect), data[..m]);
      StartAhead(connect);
      FoldAhead(StartScan(connect), data[..m]);
      if x.s.Dead? {
        DeadDies(x, data[m]);
      } else {
        AfterAuthority(connect, data[..m]);
        StepState(x, data[m]);
        StepFenced(x, data);
      }
    }
  }

  lemma NotFenced(connect: bool)
    ensures Fenced(StartScan(connect), [])
  {
  }

  lemma StartAhead(connect: bool)
    ensures Ahead(StartScan(connect)) && StartScan(connect).n == 0
  {
  }

  lemma StepState(x: Scan, ch: char)
    ensures Step(x, ch).s == ParseUrlChar(x.s, ch)
  {
    hide ParseUrlChar;
  }

  lemma ServerLeaves(s: State, ch: char)
    requires FieldOf(s) == SomeField(HOST) && !ParseUrlChar(s, ch).Dead?
    ensures FieldOf(ParseUrlChar(s, ch)) == SomeField(HOST) || ch == '/' || ch == '?'
  {
    hide IsAlpha, IsUrlChar, IsUserinfoChar;
  }

  // ----- inside the authority

  /** The states after the host has begun. */
  predicate Hosted(s: HostState) {
    s.Name? || s.V6? || s.V6ZoneStart? || s.V6Zone? || s.V6End? || s.PortStart? || s.PortDigits?
  }

  /** Cutting `base[HOST]`: the other fields stay, and user information, host and port lie in this order. */
  ghost predicate Cut(x: HostScan, base: Fields, buf: string) {
    && HOST in base && HOST in x.fields && base[HOST].off <= x.n <= |buf| <= LIMIT && !x.s.HostDead?
    && USERINFO !in base && PORT !in base
    && (forall f :: f in base ==> f in x.fields)
    && (forall f :: f in x.fields ==> f in base || f == USERINFO || f == PORT)
    && (forall f :: f in base && f != HOST ==> x.fields[f] == base[f])
    && (USERINFO in x.fields ==> CutUserinfo(x, base))
    && (if Hosted(x.s) then CutHost(x, base) else x.fields[HOST].len == 0)
    && (PORT in x.fields <==> x.s.PortDigits?)
    && (PORT in x.fields ==> CutPort(x, buf))
  }

  predicate CutUserinfo(x: HostScan, base: Fields)
    requires HOST in base && USERINFO in x.fields
  {
    var u := x.fields[USERINFO];
    base[HOST].off <= u.off && u.len >= 1 && u.off + u.len <= x.n && (x.s.Userinfo? ==> u.off + u.len == x.n)
  }

  predicate CutHost(x: HostScan, base: Fields)
    requires HOST in base && HOST in x.fields
  {
    var h := x.fields[HOST];
    && base[HOST].off <= h.off && h.len >= 1 && h.off + h.len <= x.n
    && (x.s.V6End? || x.s.PortStart? || x.s.PortDigits? || h.off + h.len == x.n)
    && (USERINFO in x.fields ==> x.fields[USERINFO].off + x.fields[USERINFO].len <= h.off)
  }

  ghost predicate CutPort(x: HostScan, buf: string)
    requires PORT in x.fields && HOST in x.fields && x.n <= |buf|
  {
    var p := x.fields[PORT];
    && p.len >= 1 && p.off + p.len == x.n && x.fields[HOST].off + x.fields[HOST].len <= p.off
    && forall i :: p.off <= i < x.n ==> IsNum(buf[i])
  }

  lemma HostStepCutsBefore(x: HostScan, base: Fields, buf: string)
    requires Cut(x, base, buf) && x.n < |buf|
    requires var s := ParseHostChar(x.s, buf[x.n]); !s.HostDead? && !Hosted(s)
    ensures Cut(HostStep(x, buf[x.n]), base, buf)
  {
    hide U16, IsHostChar, IsUserinfoChar, IsZoneChar, IsV6Char, IsNum;
  }

  lemma HostStepCutsHost(x: HostScan, base: Fields, buf: string)
    requires Cut(x, base, buf) && x.n < |buf|
    requires var s := ParseHostChar(x.s, buf[x.n]); !s.HostDead? && Hosted(s) && !s.PortDigits?
    ensures Cut(HostStep(x, buf[x.n]), base, buf)
  {
    hide U16, IsHostChar, IsUserinfoChar, IsZoneChar, IsV6Char, IsNum;
  }

  lemma HostStepCutsPort(x: HostScan, base: Fields, buf: string)
    requires Cut(x, base, buf) && x.n < |buf|
    requires var s := ParseHostChar(x.s, buf[x.n]); !s.HostDead? && s.PortDigits?
    ensures Cut(HostStep(x, buf[x.n]), base, buf)
  {
    hide U16, IsHostChar, IsUserinfoChar, IsZoneChar, IsV6Char, IsNum;
  }

  lemma HostStepCuts(x: HostScan, base: Fields, buf: string)
    requires Cut(x, base, buf) && x.n < |buf| && !ParseHostChar(x.s, buf[x.n]).HostDead?
    ensures Cut(HostStep(x, buf[x.n]), base, buf)
  {
    var s := ParseHostChar(x.s, buf[x.n]);
    hide Cut, ParseHostChar, HostStep;
    if s.PortDigits? {
      HostStepCutsPort(x, base, buf);
    } else if Hosted(s) {
      HostStepCutsHost(x, base, buf);
    } else {
      HostStepCutsBefore(x, base, buf);
    }
  }

  lemma {:induction false} HostFoldCuts(x: HostScan, base: Fields, buf: string, n: nat)
    requires Cut(x, base, buf) && x.n <= n <= |buf|
    ensures var y := HostFold(x, buf[x.n..n]); y.n == n && (!y.s.HostDead? ==> Cut(y, base, buf))
    decreases n
  {
    hide Cut, HostStep;
    if x.n < n {
      assert buf[x.n..n][..n - 1 - x.n] == buf[x.n..n - 1];
      HostFoldCuts(x, base, buf, n - 1);
      var y := HostFold(x, buf[x.n..n - 1]);
      HostStepCount(y, buf[n - 1]);
      if !y.s.HostDead? && !ParseHostChar(y.s, buf[n - 1]).HostDead? { HostStepCuts(y, base, buf); }
    }
  }

  lemma HostStepCount(x: HostScan, ch: char)
    ensures HostStep(x, ch).n == x.n + 1 && HostStep(x, ch).s == ParseHostChar(x.s, ch)
    ensures x.s.HostDead? ==> HostStep(x, ch).s.HostDead?
  {
  }

  // ----- accepted URLs

  /** The set fields are not empty, lie in the buffer, do not overlap, and stand in the order of a URL; a schema comes
      with a host; and the port is the number its digits make. */
  ghost predicate WellCut(buf: string, o: Outcome)
    requires o.Accepted?
  {
    && InOrder(o.fields)
    && (forall f :: f in o.fields ==> o.fields[f].len >= 1 && o.fields[f].off + o.fields[f].len <= |buf|)
    && (SCHEMA in o.fields ==> HOST in o.fields) && (USERINFO in o.fields || PORT in o.fields ==> HOST in o.fields)
    && if PORT in o.fields then IsPort(Text(buf, o.fields[PORT]), o.port) else o.port == 0
  }

  predicate IsPort(ds: string, port: nat) { IsDigits(ds) && DecFrom(0, ds) == port <= LIMIT }

  function Text(buf: string, span: Span): string {
    if span.off + span.len <= |buf| then buf[span.off..span.off + span.len] else []
  }

  lemma CutInOrder(h: HostScan, x: Scan, buf: string)
    requires Ahead(x) && HOST in x.fields && Cut(h, x.fields, buf) && HostEnds(h.s) && x.n == |buf|
    requires h.n == x.fields[HOST].off + x.fields[HOST].len
    ensures InOrder(h.fields)
    ensures forall f :: f in h.fields ==> h.fields[f].len >= 1 && h.fields[f].off + h.fields[f].len <= |buf|
  {
    hide FieldOf, Stage, IsNum;
    forall f, g | f in h.fields && g in h.fields && Place(f) < Place(g)
      ensures h.fields[f].off + h.fields[f].len <= h.fields[g].off
    {
      CutPair(h, x, buf, f, g);
    }
  }

  lemma CutPair(h: HostScan, x: Scan, buf: string, f: Field, g: Field)
    requires Ahead(x) && HOST in x.fields && Cut(h, x.fields, buf) && HostEnds(h.s) && x.n == |buf|
    requires h.n == x.fields[HOST].off + x.fields[HOST].len
    requires f in h.fields && g in h.fields && Place(f) < Place(g)
    ensures h.fields[f].off + h.fields[f].len <= h.fields[g].off
  {
    hide FieldOf, Stage, IsNum;
    if f in x.fields && f != HOST {
      if g !in x.fields { assert Place(f) < Place(HOST); }
    } else if g in x.fields && g != HOST {
      assert Place(HOST) < Place(g);
    }
  }

  lemma PortDigitsAt(h: HostScan, x: Scan, buf: string)
    requires Ahead(x) && HOST in x.fields && Cut(h, x.fields, buf) && PORT in h.fields && x.n == |buf| && Fenced(x, buf)
    requires h.n == x.fields[HOST].off + x.fields[HOST].len
    ensures DigitsAt(buf, h.fields[PORT].off) == Text(buf, h.fields[PORT]) && IsDigits(Text(buf, h.fields[PORT]))
  {
    hide FieldOf, Stage, DigitsAt;
    var p := h.fields[PORT];
    DigitsUpTo(buf, p.off, p.len);
    var t := Text(buf, p);
    forall i | 0 <= i < |t|
      ensures IsNum(t[i])
    {
      assert t[i] == buf[p.off + i];
    }
  }

  lemma StartCut(x: Scan, buf: string)
    requires Ahead(x) && HOST in x.fields && x.n == |buf|
    ensures Cut(StartHost(x.fields, x.foundAt), x.fields, buf)
  {
    hide FieldOf, Stage;
  }

  /** The authority, cut. */
  lemma AuthorityCut(buf: string, connect: bool)
    requires |buf| <= LIMIT
    requires var x := Fold(StartScan(connect), buf); !x.s.Dead? && HOST in x.fields
    ensures var x := Fold(StartScan(connect), buf);
            var h := HostFold(StartHost(x.fields, x.foundAt), Authority(buf, x.fields));
            Ahead(x) && x.n == |buf| && h.n == x.fields[HOST].off + x.fields[HOST].len
            && (HostEnds(h.s) ==> Cut(h, x.fields, buf))
  {
    hide Ahead, Cut, Step;
    var x := Fold(StartScan(connect), buf);
    StartAhead(connect);
    FoldAhead(StartScan(connect), buf);
    AuthorityInside(buf, connect);
    StartCut(x, buf);
    HostFoldCuts(StartHost(x.fields, x.foundAt), x.fields, buf, x.fields[HOST].off + x.fields[HOST].len);
  }

  lemma AcceptedIsWellCut(buf: string, connect: bool)
    requires |buf| <= LIMIT && Parsed(buf, connect).Accepted?
    ensures WellCut(buf, Parsed(buf, connect))
  {
    hide Cut, Ahead, Fold, HostFold, DigitsAt, Fenced, StartHost, Authority;
    var x := Fold(StartScan(connect), buf);
    if HOST in x.fields {
      AuthorityCut(buf, connect);
      var h := HostFold(StartHost(x.fields, x.foundAt), Authority(buf, x.fields));
      CutInOrder(h, x, buf);
      CutKeeps(h, x.fields, buf);
      if PORT in h.fields {
        AfterAuthority(connect, buf);
        PortDigitsAt(h, x, buf);
      }
    } else {
      StartAhead(connect);
      FoldAhead(StartScan(connect), buf);
      NoAuthority(x);
    }
  }

  lemma CutKeeps(h: HostScan, base: Fields, buf: string)
    requires Cut(h, base, buf)
    ensures HOST in h.fields
  {
  }

  lemma NoAuthority(x: Scan)
    requires Ahead(x)
    ensures InOrder(x.fields) && USERINFO !in x.fields && PORT !in x.fields
    ensures forall f :: f in x.fields ==> x.fields[f].len >= 1 && x.fields[f].off + x.fields[f].len <= x.n
  {
  }

  // ----- the code

  class ParsedUrl {
    var fields: Fields
    var port: nat

    constructor ()
      ensures fields == map[] && port == 0
    {
      fields, port := map[], 0;
    }
  }

  /** http_parse_host. */
  method ParseHost(buf: string, u: ParsedUrl, foundAt: bool) returns (ok: bool)
    requires HOST in u.fields && u.fields[HOST].off + u.fields[HOST].len <= |buf|
    modifies u`fields
    ensures var h := HostFold(StartHost(old(u.fields), foundAt), Authority(buf, old(u.fields)));
            ok == HostEnds(h.s) && (ok ==> u.fields == h.fields)
  {
    hide ParseHostChar, HostFold, U16;
    var from, end := u.fields[HOST].off, u.fields[HOST].off + u.fields[HOST].len;
    ghost var start, all := StartHost(u.fields, foundAt), buf[from..end];
    u.fields := u.fields[HOST := Span(from, 0)];
    var s := if foundAt then UserinfoStart else HostStart;
    assert all[..0] == [] && HostFold(start, []) == start by { HostFoldNone(start); }
    var p := from;
    while p < end
      invariant from <= p <= end && HOST in u.fields
      invariant HostFold(start, all[..p - from]) == HostScan(s, u.fields, p) && !s.HostDead?
    {
      var s' := ParseHostChar(s, buf[p]);
      HostFoldSnoc(start, all, p - from);
      if s'.HostDead? {
        HostStaysDead(start, all, p + 1 - from);
        return false;
      }
      match s' {
        case Name =>
          if !s.Name? { u.fields := Move(u.fields, p); }
          u.fields := Longer(u.fields, HOST);
        case V6 =>
          if !s.V6? { u.fields := Move(u.fields, p); }
          u.fields := Longer(u.fields, HOST);
        case V6ZoneStart =>
          u.fields := Longer(u.fields, HOST);
        case V6Zone =>
          u.fields := Longer(u.fields, HOST);
        case PortDigits =>
          if !s.PortDigits? { u.fields := Begin(u.fields, PORT, p); }
          u.fields := Longer(u.fields, PORT);
        case Userinfo =>
          if !s.Userinfo? { u.fields := Begin(u.fields, USERINFO, p); }
          u.fields := Longer(u.fields, USERINFO);
        case _ =>
      }
      s := s';
      p := p + 1;
    }
    assert all[..p - from] == all;
    ok := HostEnds(s);
  }

  /** The loop of http_parser_parse_url: the fields of the URL, the host not yet cut. */
  method ScanUrl(buf: string, connect: bool, u: ParsedUrl) returns (ok: bool, foundAt: bool)
    requires u.fields == map[]
    modifies u`fields
    ensures var x := Fold(StartScan(connect), buf);
            ok == !x.s.Dead? && (ok ==> u.fields == x.fields && foundAt == x.foundAt)
  {
    hide ParseUrlChar, Fold, U16, FieldOf;
    var s := if connect then ReqServerStart else ReqSpacesBeforeUrl;
    var last := NoField;
    foundAt := false;
    ghost var start := StartScan(connect);
    assert buf[..0] == [] && Fold(start, []) == start by { FoldNone(start); }
    var p := 0;
    while p < |buf|
      invariant 0 <= p <= |buf| && !s.Dead? && Fold(start, buf[..p]) == Scan(s, last, foundAt, u.fields, p)
    {
      FoldSnoc(start, buf, p);
      s := ParseUrlChar(s, buf[p]);
      if s.Dead? {
        StaysDead(start, buf, p + 1);
        return false, foundAt;
      }
      if s.ReqServerWithAt? { foundAt := true; }
      match FieldOf(s) {
        case NoField =>
        case SomeField(f) =>
          if last == SomeField(f) {
            u.fields := Longer(u.fields, f);
          } else {
            u.fields := u.fields[f := Span(U16(p), 1)];
            last := SomeField(f);
          }
      }
      p := p + 1;
    }
    assert buf[..p] == buf;
    ok := true;
  }

  /** http_parser_parse_url. */
  method ParseUrl(buf: string, connect: bool, u: ParsedUrl) returns (ok: bool)
    modifies u
    ensures ok == Parsed(buf, connect).Accepted?
    ensures ok ==> Accepted(u.fields, u.port) == Parsed(buf, connect)
    ensures ok && |buf| <= LIMIT ==> WellCut(buf, Accepted(u.fields, u.port))
  {
    hide Fold, HostFold, DigitsAt, DecFrom, WellCut;
    u.fields, u.port := map[], 0;
    AuthorityInside(buf, connect);
    if |buf| <= LIMIT && Parsed(buf, connect).Accepted? { AcceptedIsWellCut(buf, connect); }
    var foundAt;
    ok, foundAt := ScanUrl(buf, connect, u);
    if !ok { return false; }
    if SCHEMA in u.fields && HOST !in u.fields { return false; }
    if HOST in u.fields {
      ok := ParseHost(buf, u, foundAt);
      if !ok { return false; }
    }
    if connect && u.fields.Keys != {HOST, PORT} { return false; }
    if PORT in u.fields {
      NoPortYet(buf, connect);
      var v := DecFrom(0, DigitsAt(buf, u.fields[PORT].off));
      if v > LIMIT { return false; }
      u.port := v;
    }
    ok := true;
  }

  /** The port is found only inside the authority. */
  lemma {:induction false} NoPortYet(buf: string, connect: bool)
    ensures PORT !in Fold(StartScan(connect), buf).fields
  {
    hide ParseUrlChar;
    if buf != [] { NoPortYet(buf[..|buf| - 1], connect); }
  }

  lemma FoldNone(x: Scan)
    ensures Fold(x, []) == x
  {
  }

  lemma HostFoldNone(x: HostScan)
    ensures HostFold(x, []) == x
  {
  }

  lemma HostFoldSnoc(x: HostScan, data: string, k: nat)
    requires k < |data|
    ensures HostFold(x, data[..k + 1]) == HostStep(HostFold(x, data[..k]), data[k])
  {
    hide HostStep;
    assert data[..k + 1][..k] == data[..k];
  }

  lemma {:induction false} HostStaysDead(x: HostScan, data: string, k: nat)
    requires k <= |data| && HostFold(x, data[..k]).s.HostDead?
    ensures HostFold(x, data).s.HostDead?
    decreases |data|
  {
    hide HostStep;
    if k == |data| {
      assert data[..k] == data;
    } else {
      var m := |data| - 1;
      assert data[..m][..k] == data[..k];
      HostStaysDead(x, data[..m], k);
      HostStepCount(HostFold(x, data[..m]), data[m]);
    }
  }

  lemma FoldSnoc(x: Scan, data: string, k: nat)
    requires k < |data|
    ensures Fold(x, data[..k + 1]) == Step(Fold(x, data[..k]), data[k])
  {
    hide Step;
    assert data[..k + 1][..k] == data[..k];
  }

  lemma {:induction false} StaysDead(x: Scan, data: string, k: nat)
    requires k <= |data| && Fold(x, data[..k]).s.Dead?
    ensures Fold(x, data).s.Dead?
    decreases |data|
  {
    hide Step;
    if k == |data| {
      assert data[..k] == data;
    } else {
      var m := |data| - 1;
      assert data[..m][..k] == data[..k];
      StaysDead(x, data[..m], k);
      DeadDies(Fold(x, data[..m]), data[m]);
    }
  }
}
