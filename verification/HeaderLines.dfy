/** Header lines that no matcher cares for, and Content-Length. */
module HeaderLines {
  import opened Bytes
  import opened Trace
  import opened Machine
  import opened Bytewise
  import opened Marks
  import opened Scans
  import opened Journeys
  import opened HeaderNames

  const CRLF := [CR, LF]

  /** Between two header lines; an empty value is delivered with the first byte of the next line. */
  predicate LineStart(s: Parser) {
    s.errno.OK?
    && (s.state.HeaderFieldStart? || (CommitValue(s) == s
        && (s.state.HeaderValueLws? || s.state.HeaderValueDiscardLws?)))
  }

  /** The callbacks once an empty value is delivered. */
  function Settled(s: Parser, t: seq<Event>): seq<Event> {
    if s.state.HeaderValueDiscardLws? then Push(t, Data(Value, [])) else t
  }

  predicate IsValueChar(c: char) { IsHeaderChar(c) && c != CR && c != LF }

  predicate IsValue(v: string) { forall i :: 0 <= i < |v| ==> IsValueChar(v[i]) }

  predicate IsBlank(c: char) { c == ' ' || c == TAB }

  /** A value without the blanks before it, as the parser delivers it. */
  function Trim(v: string): (r: string)
    ensures |r| <= |v|
  {
    if v != [] && IsBlank(v[0]) then Trim(v[1..]) else v
  }

  lemma TrimIsValue(v: string)
    requires IsValue(v)
    ensures IsValue(Trim(v)) && (Trim(v) != [] ==> !IsBlank(Trim(v)[0]))
  {
    hide IsValueChar, IsBlank;
    if v != [] && IsBlank(v[0]) { TrimIsValue(v[1..]); }
  }

  // ----- the name

  /** An empty value is delivered before the field begins. */
  function EnterActs(s: Parser): seq<Action> {
    if s.state.HeaderValueDiscardLws? then [Mark(Value), Deliver(Value), Mark(Field)] else [Mark(Field)]
  }

  function Entered(s: Parser, ch: char): Parser {
    s.(state := HeaderField, index := 0, hs := FirstHeaderState(Token(ch)), nread := s.nread + 1)
  }

  lemma EntersField(s: Parser, ch: char)
    requires LineStart(s) && IsToken(ch)
    ensures Act(Counted(s), ch, true) == Effect(Entered(s, ch), EnterActs(s), false)
  {
    TokenIsNotBlank(ch);
    var c := Counted(s);
    ActIs(c, ch, true);
    if !s.state.HeaderFieldStart? { CommitCounted(s); }
    hide Act, Token, FirstHeaderState, CommitValue, IsToken;
    assert ActFieldStart(c.(state := HeaderFieldStart), ch) == Effect(Entered(s, ch), [Mark(Field)], false);
    assert [Mark(Value), Deliver(Value)] + [Mark(Field)] == [Mark(Value), Deliver(Value), Mark(Field)];
  }

  lemma FieldEmitted(s: Parser, t: seq<Event>, ch: char)
    ensures Emit(t, NoMark, EnterActs(s), ch, true) == Push(Settled(s, t), Data(Field, [ch]))
  {
    hide Push;
    assert [Mark(Field)][1..] == [];
    if s.state.HeaderValueDiscardLws? {
      assert EnterActs(s) == [Mark(Value)] + ([Deliver(Value)] + [Mark(Field)]);
      EmitMark(t, Value, [Deliver(Value)] + [Mark(Field)], ch, true);
      EmitDeliver(t, Value, [Mark(Field)], ch, true);
    }
  }

  lemma EnterField(s: Parser, t: seq<Event>, ch: char, slack: nat)
    requires LineStart(s) && IsToken(ch) && Room(s, 1, slack)
    ensures Goes(s, t, [ch], Entered(s, ch), Push(Settled(s, t), Data(Field, [ch])), slack)
  {
    EntersField(s, ch);
    FieldEmitted(s, t, ch);
    hide Act, Emit, EnterActs, Push, Settled, IsHeaderChar, IsToken, CommitValue, Goes;
    GoesByte(s, t, ch, slack);
  }

  lemma TokenIsNotBlank(ch: char)
    requires IsToken(ch)
    ensures !IsBlank(ch) && ch != CR && ch != LF && Token(ch) != NUL
  {
  }

  lemma CommitCounted(s: Parser)
    requires CommitValue(s) == s
    ensures CommitValue(Counted(s)) == Counted(s)
  {
  }

  lemma InField(s: Parser, t: seq<Event>, ch: char, slack: nat)
    requires s.errno.OK? && s.state.HeaderField? && IsToken(ch) && Room(s, 1, slack)
    ensures Goes(s, t, [ch], FieldChar(Counted(s), ch), Push(t, Data(Field, [ch])), slack)
  {
    hide FieldChar, IsToken, IsHeaderChar;
    assert Act(Counted(s), ch, true) == Stay(FieldChar(Counted(s), ch)) by { assert Counted(s).state.HeaderField?; }
    GoesByte(s, t, ch, slack);
  }

  lemma {:induction false} GoesName(s: Parser, t: seq<Event>, name: string, slack: nat)
    requires LineStart(s) && IsName(name) && Room(s, |name|, slack)
    ensures Goes(s, t, name, NameState(s.(state := HeaderField), name).(nread := s.nread + |name|),
                 Push(Settled(s, t), Data(Field, name)), slack)
  {
    hide IsToken, FieldChar, Goes, FirstHeaderState, LineStart;
    var n := |name| - 1;
    if n == 0 {
      EnterField(s, t, name[0], slack);
      assert name == [name[0]];
    } else {
      var d := name[..n];
      GoesName(s, t, d, slack);
      var s0 := s.(state := HeaderField);
      var s1 := NameState(s0, d).(nread := s.nread + n);
      var t1 := Push(Settled(s, t), Data(Field, d));
      NameOk(s0, d);
      assert s.errno.OK? by { StartOk(s); }
      InField(s1, t1, name[n], slack);
      FieldCharKeepsNread(NameState(s0, d), name[n], s.nread + n + 1);
      PushTwice(Settled(s, t), Field, d, [name[n]]);
      assert d + [name[n]] == name;
      GoesOn(s, t, d, s1, t1, [name[n]], FieldChar(Counted(s1), name[n]), Push(t1, Data(Field, [name[n]])), slack);
    }
  }

  lemma StartOk(s: Parser)
    requires LineStart(s)
    ensures s.errno.OK?
  {
    hide CommitValue;
  }

  lemma NameOk(s: Parser, name: string)
    requires name != []
    ensures NameState(s, name) == s.(hs := NameState(s, name).hs, index := NameState(s, name).index)
  {
    hide FieldChar, FirstHeaderState;
  }

  // ----- the value

  /** A matcher that gives the value no meaning. */
  predicate Plain(hs: HeaderState) {
    hs !in {UpgradeName, TransferEncodingName, ContentLengthName, ConnectionName, ConnTokenStart, Chunked,
            ConnKeepAlive, ConnClose, ConnUpgrade}
  }

  lemma GoesColon(s: Parser, t: seq<Event>, name: string, slack: nat)
    requires s.errno.OK? && s.state.HeaderField? && Room(s, 1, slack)
    ensures Goes(s, Push(t, Data(Field, name)), [':'], s.(state := HeaderValueDiscardWs, nread := s.nread + 1),
                 Push(t, Data(Field, name)), slack)
  {
    hide IsHeaderChar, Push, FieldChar;
    var c := Counted(s);
    assert !IsToken(':');
    assert Act(c, ':', true) == Effect(c.(state := HeaderValueDiscardWs), [Deliver(Field)], false);
    assert [Deliver(Field)][1..] == [];
    PushEmpty(t, Field, name);
    GoesByte(s, Push(t, Data(Field, name)), ':', slack);
  }

  /** A byte that changes the state and makes no callback. */
  lemma GoesQuietly(s: Parser, t: seq<Event>, ch: char, st: State, slack: nat)
    requires s.errno.OK? && Resume(s.state).NoMark? && ParsingHeader(s.state) && Room(s, 1, slack)
    requires Act(Counted(s), ch, true) == Effect(Counted(s).(state := st), [], false)
    ensures Goes(s, t, [ch], s.(state := st, nread := s.nread + 1), t, slack)
  {
    hide Act, IsHeaderChar;
    GoesByte(s, t, ch, slack);
  }

  lemma GoesBlank(s: Parser, t: seq<Event>, ch: char, slack: nat)
    requires s.errno.OK? && s.state.HeaderValueDiscardWs? && IsBlank(ch) && Room(s, 1, slack)
    ensures Goes(s, t, [ch], s.(nread := s.nread + 1), t, slack)
  {
    GoesQuietly(s, t, ch, HeaderValueDiscardWs, slack);
  }

  lemma TrimStep(v: string)
    ensures v != [] && IsBlank(v[0]) ==> Trim(v) == Trim(v[1..]) && |Trim(v)| < |v|
    ensures !(v != [] && IsBlank(v[0])) ==> Trim(v) == v
  {
    hide IsBlank;
  }

  function Blanks(v: string): string { v[..|v| - |Trim(v)|] }

  lemma BlanksStep(v: string)
    requires v != [] && IsBlank(v[0])
    ensures Blanks(v) == [v[0]] + Blanks(v[1..])
  {
    hide Trim;
    TrimStep(v);
    TrimStep(v[1..]);
  }

  lemma {:induction false} BlanksThenTrim(v: string)
    ensures Blanks(v) + Trim(v) == v
    decreases |v|
  {
    hide Trim, Blanks;
    TrimStep(v);
    if v != [] && IsBlank(v[0]) {
      BlanksStep(v);
      BlanksThenTrim(v[1..]);
      assert [v[0]] + Blanks(v[1..]) + Trim(v[1..]) == [v[0]] + (Blanks(v[1..]) + Trim(v[1..]));
    } else {
      NoBlanks(v);
      assert [] + v == v;
    }
  }

  lemma NoBlanks(v: string)
    requires !(v != [] && IsBlank(v[0]))
    ensures Blanks(v) == []
  {
    TrimStep(v);
  }

  lemma {:induction false} GoesBlanks(s: Parser, t: seq<Event>, v: string, slack: nat)
    requires s.errno.OK? && s.state.HeaderValueDiscardWs? && Room(s, |Blanks(v)|, slack)
    ensures Goes(s, t, Blanks(v), s.(nread := s.nread + |Blanks(v)|), t, slack)
    decreases |v|
  {
    hide Goes, IsBlank, Trim, Blanks;
    if v != [] && IsBlank(v[0]) {
      BlanksStep(v);
      var s1, r := s.(nread := s.nread + 1), v[1..];
      GoesBlank(s, t, v[0], slack);
      GoesBlanks(s1, t, r, slack);
      GoesOn(s, t, [v[0]], s1, t, Blanks(r), s1.(nread := s1.nread + |Blanks(r)|), t, slack);
    } else {
      NoBlanks(v);
      GoesNowhere(s, t, slack);
    }
  }

  lemma EnterValue(s: Parser, t: seq<Event>, ch: char, slack: nat)
    requires s.errno.OK? && s.state.HeaderValueDiscardWs? && Plain(s.hs) && Room(s, 1, slack)
    requires IsValueChar(ch) && !IsBlank(ch)
    ensures Goes(s, t, [ch], s.(state := HeaderValue, index := 0, hs := General, nread := s.nread + 1),
                 Push(t, Data(Value, [ch])), slack)
  {
    hide IsHeaderChar, Lower, IsNum, ConnectionWord, Push;
    var c := Counted(s);
    assert Act(c, ch, true) == ActValueStart(c, ch);
    assert ValueBegin(c.(state := HeaderValue, index := 0), ch) == c.(state := HeaderValue, index := 0, hs := General);
    assert [Mark(Value)][1..] == [];
    GoesByte(s, t, ch, slack);
  }

  lemma InValue(s: Parser, t: seq<Event>, ch: char, slack: nat)
    requires s.errno.OK? && Scanning(s) && IsValueChar(ch) && Room(s, 1, slack)
    ensures Goes(s, t, [ch], s.(nread := s.nread + 1), Push(t, Data(Value, [ch])), slack)
  {
    hide IsHeaderChar, Push, Lower;
    var c := Counted(s);
    assert Act(c, ch, true) == ValueChar(c, ch);
    GoesByte(s, t, ch, slack);
  }

  lemma {:induction false} GoesValue(s: Parser, t: seq<Event>, v: string, slack: nat)
    requires s.errno.OK? && s.state.HeaderValueDiscardWs? && Plain(s.hs) && Room(s, |v|, slack)
    requires v != [] && IsValue(v) && !IsBlank(v[0])
    ensures Goes(s, t, v, s.(state := HeaderValue, index := 0, hs := General, nread := s.nread + |v|),
                 Push(t, Data(Value, v)), slack)
  {
    hide Goes, IsValueChar, IsBlank, Push;
    var n := |v| - 1;
    if n == 0 {
      EnterValue(s, t, v[0], slack);
      assert v == [v[0]];
    } else {
      var d := v[..n];
      GoesValue(s, t, d, slack);
      var s1 := s.(state := HeaderValue, index := 0, hs := General, nread := s.nread + n);
      var t1 := Push(t, Data(Value, d));
      InValue(s1, t1, v[n], slack);
      PushTwice(t, Value, d, [v[n]]);
      assert d + [v[n]] == v;
      GoesOn(s, t, d, s1, t1, [v[n]], s1.(nread := s1.nread + 1), Push(t1, Data(Value, [v[n]])), slack);
    }
  }

  /** The end of the line after a value that was not empty. */
  lemma GoesValueEnd(s: Parser, t: seq<Event>, v: string, slack: nat)
    requires s.errno.OK? && s.state.HeaderValue? && Room(s, 2, slack)
    ensures Goes(s, Push(t, Data(Value, v)), CRLF, s.(state := HeaderValueLws, nread := s.nread + 2),
                 Push(t, Data(Value, v)), slack)
  {
    hide IsHeaderChar, Push, Goes, Act;
    var u := Push(t, Data(Value, v));
    var c := Counted(s);
    var s1 := s.(state := HeaderAlmostDone, nread := s.nread + 1);
    ActIs(c, CR, true);
    ActIs(Counted(s1), LF, true);
    assert Act(c, CR, true) == Effect(c.(state := HeaderAlmostDone), [Deliver(Value)], false);
    assert [Deliver(Value)][1..] == [];
    PushEmpty(t, Value, v);
    assert IsHeaderChar(CR) by { CrIsHeaderChar(); }
    GoesByte(s, u, CR, slack);
    GoesQuietly(s1, u, LF, HeaderValueLws, slack);
    GoesOn(s, u, [CR], s1, u, [LF], s1.(state := HeaderValueLws, nread := s1.nread + 1), u, slack);
    assert [CR] + [LF] == CRLF;
  }

  lemma CrIsHeaderChar()
    ensures IsHeaderChar(CR) && IsHeaderChar(LF)
  {
  }

  /** The end of the line after an empty value. */
  lemma GoesEmptyEnd(s: Parser, t: seq<Event>, slack: nat)
    requires s.errno.OK? && s.state.HeaderValueDiscardWs? && Room(s, 2, slack)
    ensures Goes(s, t, CRLF, s.(state := HeaderValueDiscardLws, nread := s.nread + 2), t, slack)
  {
    hide Goes, Act;
    var s1 := s.(state := HeaderValueDiscardWsAlmostDone, nread := s.nread + 1);
    EmptyEndActs(Counted(s), Counted(s1));
    GoesQuietly(s, t, CR, HeaderValueDiscardWsAlmostDone, slack);
    GoesQuietly(s1, t, LF, HeaderValueDiscardLws, slack);
    GoesOn(s, t, [CR], s1, t, [LF], s1.(state := HeaderValueDiscardLws, nread := s1.nread + 1), t, slack);
    assert [CR] + [LF] == CRLF;
  }

  lemma EmptyEndActs(s: Parser, s1: Parser)
    requires s.state.HeaderValueDiscardWs? && s1.state.HeaderValueDiscardWsAlmostDone?
    ensures Act(s, CR, true) == Effect(s.(state := HeaderValueDiscardWsAlmostDone), [], false)
    ensures Act(s1, LF, true) == Effect(s1.(state := HeaderValueDiscardLws), [], false)
  {
    ActIs(s, CR, true);
    ActIs(s1, LF, true);
    hide Act;
  }

  // ----- whole lines

  function Line(name: string, value: string): string { name + ": " + value + CRLF }

  /** A name that is none of the five. */
  predicate IsPlainName(name: string) {
    IsName(name)
    && LowerName(name) !in {CONNECTION, PROXY_CONNECTION, CONTENT_LENGTH, TRANSFER_ENCODING, UPGRADE}
  }

  lemma PlainState(s: Parser, name: string)
    requires IsPlainName(name)
    ensures Plain(NameState(s, name).hs)
  {
    hide NameState, IsName, LowerName;
    NameRecognised(s, name);
    NameStands(s, name);
    ClassifyStates(LowerName(name));
  }

  lemma ClassifyStates(w: string)
    ensures Classify(w) !in {ConnTokenStart, Chunked, ConnKeepAlive, ConnClose, ConnUpgrade}
  {
  }

  lemma PlainCommits(s: Parser)
    requires Plain(s.hs)
    ensures CommitValue(s) == s
  {
  }

  /** The name, the colon and the blank. */
  lemma GoesPrefix(s: Parser, t: seq<Event>, name: string, slack: nat)
    requires LineStart(s) && IsName(name) && Room(s, |name| + 2, slack)
    ensures var s' := NameState(s.(state := HeaderField), name)
                        .(state := HeaderValueDiscardWs, nread := s.nread + |name| + 2);
            Goes(s, t, name + ": ", s', Push(Settled(s, t), Data(Field, name)), slack)
  {
    hide Goes, NameState, Push, LineStart, IsName, Settled;
    var u := Push(Settled(s, t), Data(Field, name));
    StartOk(s);
    assert name != [] by { NameNotEmpty(name); }
    NameOk(s.(state := HeaderField), name);
    var s1 := NameState(s.(state := HeaderField), name).(nread := s.nread + |name|);
    var s2 := s1.(state := HeaderValueDiscardWs, nread := s1.nread + 1);
    GoesName(s, t, name, slack);
    GoesColon(s1, Settled(s, t), name, slack);
    GoesBlank(s2, u, ' ', slack);
    GoesOn(s, t, name, s1, u, [':'], s2, u, slack);
    GoesOn(s, t, name + [':'], s2, u, [' '], s2.(nread := s2.nread + 1), u, slack);
    assert name + [':'] + [' '] == name + ": ";
  }

  lemma NameNotEmpty(name: string)
    requires IsName(name)
    ensures name != []
  {
  }

  /** A line with a plain name: the field and the trimmed value are delivered, and nothing else changes. */
  lemma GoesLine(s: Parser, t: seq<Event>, name: string, value: string, slack: nat) returns (s': Parser, t': seq<Event>)
    requires LineStart(s) && IsPlainName(name) && IsValue(value) && Room(s, |Line(name, value)|, slack)
    ensures Goes(s, t, Line(name, value), s', t', slack)
    ensures LineStart(s') && !s'.state.HeaderFieldStart?
    ensures Settled(s', t') == Push(Push(Settled(s, t), Data(Field, name)), Data(Value, Trim(value)))
    ensures s' == s.(state := s'.state, hs := s'.hs, index := s'.index, nread := s.nread + |Line(name, value)|)
  {
    hide Goes, NameState, Push, LineStart, Plain, IsName, IsPlainName, IsValue, CommitValue, Trim, Blanks;
    var v := Trim(value);
    var blanks := Blanks(value);
    BlanksThenTrim(value);
    var u := Push(Settled(s, t), Data(Field, name));
    StartOk(s);
    PlainState(s.(state := HeaderField), name);
    PlainIsName(name);
    NameNotEmpty(name);
    NameOk(s.(state := HeaderField), name);
    TrimIsValue(value);
    var s1 := NameState(s.(state := HeaderField), name).(state := HeaderValueDiscardWs, nread := s.nread + |name| + 2);
    var s2 := s1.(nread := s1.nread + |blanks|);
    GoesPrefix(s, t, name, slack);
    GoesBlanks(s1, u, value, slack);
    GoesOn(s, t, name + ": ", s1, u, blanks, s2, u, slack);
    assert value == blanks + v;
    if v == [] {
      s', t' := s2.(state := HeaderValueDiscardLws, nread := s2.nread + 2), u;
      GoesEmptyEnd(s2, u, slack);
      GoesOn(s, t, name + ": " + blanks, s2, u, CRLF, s', t', slack);
      assert name + ": " + blanks + CRLF == Line(name, value);
    } else {
      var s3 := s2.(state := HeaderValue, index := 0, hs := General, nread := s2.nread + |v|);
      t' := Push(u, Data(Value, v));
      s' := s3.(state := HeaderValueLws, nread := s3.nread + 2);
      GoesValue(s2, u, v, slack);
      GoesOn(s, t, name + ": " + blanks, s2, u, v, s3, t', slack);
      GoesValueEnd(s3, u, v, slack);
      GoesOn(s, t, name + ": " + blanks + v, s3, t', CRLF, s', t', slack);
      assert name + ": " + blanks + v + CRLF == Line(name, value);
      assert Plain(General) by { GeneralIsPlain(); }
    }
    assert LineStart(s') by { PlainStarts(s'); }
  }

  lemma GeneralIsPlain()
    ensures Plain(General)
  {
  }

  lemma PlainIsName(name: string)
    requires IsPlainName(name)
    ensures IsName(name)
  {
    hide IsName, LowerName;
  }

  lemma PlainStarts(s: Parser)
    requires s.errno.OK? && Plain(s.hs) && (s.state.HeaderValueLws? || s.state.HeaderValueDiscardLws?)
    ensures LineStart(s)
  {
    PlainCommits(s);
  }
}
