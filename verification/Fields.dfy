/** Any header list: what the parser knows after it, in terms of its text. */
module Fields {
  import opened Bytes
  import opened Trace
  import opened Machine
  import opened Bytewise
  import opened Marks
  import opened Scans
  import opened Journeys
  import opened HeaderNames
  import opened HeaderLines
  import opened Lengths
  import opened Requests
  import opened Connections

  predicate Named(h: (string, string), name: string) { LowerName(h.0) == name }

  predicate IsConnection(h: (string, string)) { Named(h, CONNECTION) || Named(h, PROXY_CONNECTION) }

  /** A header that the parser can read: a Content-Length is a number within the limit. */
  predicate GoodField(h: (string, string)) {
    IsName(h.0) && IsValue(h.1)
    && (Named(h, CONTENT_LENGTH) ==> IsDigits(Trim(h.1)) && DecFrom(0, Trim(h.1)) <= MAX_LENGTH)
  }

  /** At most one of the headers is a Content-Length. */
  ghost predicate GoodFields(hs: seq<(string, string)>) {
    && (forall i :: 0 <= i < |hs| ==> GoodField(hs[i]))
    && forall i, j :: 0 <= i < j < |hs| ==> !(Named(hs[i], CONTENT_LENGTH) && Named(hs[j], CONTENT_LENGTH))
  }

  // ----- what the headers say

  /** A Transfer-Encoding says chunked if that is all that it says. */
  predicate SaysChunked(hs: seq<(string, string)>) {
    exists i :: 0 <= i < |hs| && Named(hs[i], TRANSFER_ENCODING) && Is(Trim(hs[i].1), CHUNKED)
  }

  /** A Connection or a Proxy-Connection says the word. */
  predicate SaysWord(hs: seq<(string, string)>, word: string) {
    exists i :: 0 <= i < |hs| && IsConnection(hs[i]) && Trim(hs[i].1) != [] && Says(Trim(hs[i].1), word)
  }

  predicate SaysUpgrade(hs: seq<(string, string)>) {
    exists i :: 0 <= i < |hs| && Named(hs[i], UPGRADE) && Trim(hs[i].1) != []
  }

  predicate HasLength(hs: seq<(string, string)>) { exists i :: 0 <= i < |hs| && Named(hs[i], CONTENT_LENGTH) }

  /** The number in the Content-Length, or the greatest 64-bit number. */
  function LengthSaid(hs: seq<(string, string)>): nat {
    if hs == [] then ULLONG_MAX
    else
      var h := hs[|hs| - 1];
      if Named(h, CONTENT_LENGTH) && IsDigits(Trim(h.1)) then DecFrom(0, Trim(h.1)) else LengthSaid(hs[..|hs| - 1])
  }

  /** It is the number in the header that has it. */
  lemma {:induction false} LengthIs(hs: seq<(string, string)>, i: nat)
    requires GoodFields(hs) && i < |hs| && Named(hs[i], CONTENT_LENGTH)
    ensures IsDigits(Trim(hs[i].1)) && LengthSaid(hs) == DecFrom(0, Trim(hs[i].1)) <= MAX_LENGTH
    decreases |hs|
  {
    hide IsNum, DecFrom, IsName, IsValue, Trim, LowerName;
    if i < |hs| - 1 { LengthIs(hs[..|hs| - 1], i); }
  }

  lemma {:induction false} NoLength(hs: seq<(string, string)>)
    requires GoodFields(hs) && !HasLength(hs)
    ensures LengthSaid(hs) == ULLONG_MAX
  {
    hide IsDigits, IsNum, DecFrom, IsName, IsValue, Trim, LowerName;
    if hs != [] {
      var init := hs[..|hs| - 1];
      assert !HasLength(init) by { NoneBefore(hs); }
      NoLength(init);
    }
  }

  lemma NoneBefore(hs: seq<(string, string)>)
    requires hs != [] && !HasLength(hs)
    ensures !HasLength(hs[..|hs| - 1])
  {
    hide Named;
    var init := hs[..|hs| - 1];
    forall i | 0 <= i < |init|
      ensures !Named(init[i], CONTENT_LENGTH)
    {
      assert init[i] == hs[i];
    }
  }

  function FlagsSaid(hs: seq<(string, string)>): Flags {
    Flags(SaysChunked(hs), SaysWord(hs, KEEP_ALIVE), SaysWord(hs, CLOSE), SaysWord(hs, UPGRADE), false, SaysUpgrade(hs),
          false, HasLength(hs))
  }

  /** The flags after one more header. */
  function FlagsAfter(f: Flags, h: (string, string)): Flags {
    if IsConnection(h) then Connections.Heard(f, Trim(h.1))
    else f.(chunked := f.chunked || (Named(h, TRANSFER_ENCODING) && Is(Trim(h.1), CHUNKED)),
            upgrade := f.upgrade || (Named(h, UPGRADE) && Trim(h.1) != []),
            contentLength := f.contentLength || Named(h, CONTENT_LENGTH))
  }

  lemma NamesDiffer()
    ensures CONNECTION != PROXY_CONNECTION && CONNECTION != CONTENT_LENGTH && CONNECTION != TRANSFER_ENCODING
    ensures CONNECTION != UPGRADE && PROXY_CONNECTION != CONTENT_LENGTH && PROXY_CONNECTION != TRANSFER_ENCODING
    ensures PROXY_CONNECTION != UPGRADE && CONTENT_LENGTH != TRANSFER_ENCODING && CONTENT_LENGTH != UPGRADE
    ensures TRANSFER_ENCODING != UPGRADE
  {
  }

  lemma SaidNext(hs: seq<(string, string)>, h: (string, string), word: string)
    ensures SaysChunked(hs + [h]) <==> SaysChunked(hs) || (Named(h, TRANSFER_ENCODING) && Is(Trim(h.1), CHUNKED))
    ensures SaysUpgrade(hs + [h]) <==> SaysUpgrade(hs) || (Named(h, UPGRADE) && Trim(h.1) != [])
    ensures HasLength(hs + [h]) <==> HasLength(hs) || Named(h, CONTENT_LENGTH)
  {
    hide Named, Is, Trim;
    var all := hs + [h];
    assert forall i :: 0 <= i < |hs| ==> all[i] == hs[i];
    assert all[|hs|] == h;
    if SaysChunked(all) {
      var i :| 0 <= i < |all| && Named(all[i], TRANSFER_ENCODING) && Is(Trim(all[i].1), CHUNKED);
      if i < |hs| { assert Named(hs[i], TRANSFER_ENCODING); }
    }
    if SaysChunked(hs) {
      var i :| 0 <= i < |hs| && Named(hs[i], TRANSFER_ENCODING) && Is(Trim(hs[i].1), CHUNKED);
      assert Named(all[i], TRANSFER_ENCODING);
    }
    if SaysUpgrade(all) {
      var i :| 0 <= i < |all| && Named(all[i], UPGRADE) && Trim(all[i].1) != [];
      if i < |hs| { assert Named(hs[i], UPGRADE); }
    }
    if SaysUpgrade(hs) {
      var i :| 0 <= i < |hs| && Named(hs[i], UPGRADE) && Trim(hs[i].1) != [];
      assert Named(all[i], UPGRADE);
    }
    if HasLength(hs) {
      var i :| 0 <= i < |hs| && Named(hs[i], CONTENT_LENGTH);
      assert Named(all[i], CONTENT_LENGTH);
    }
  }

  lemma WordNext(hs: seq<(string, string)>, h: (string, string), word: string)
    ensures SaysWord(hs + [h], word)
            <==> SaysWord(hs, word) || (IsConnection(h) && Trim(h.1) != [] && Says(Trim(h.1), word))
  {
    hide IsConnection, Says, Trim;
    var all := hs + [h];
    assert forall i :: 0 <= i < |hs| ==> all[i] == hs[i];
    assert all[|hs|] == h;
    if SaysWord(all, word) {
      var i :| 0 <= i < |all| && IsConnection(all[i]) && Trim(all[i].1) != [] && Says(Trim(all[i].1), word);
      if i < |hs| { assert IsConnection(hs[i]); }
    }
    if SaysWord(hs, word) {
      var i :| 0 <= i < |hs| && IsConnection(hs[i]) && Trim(hs[i].1) != [] && Says(Trim(hs[i].1), word);
      assert IsConnection(all[i]);
    }
  }

  lemma FlagsNext(hs: seq<(string, string)>, h: (string, string))
    ensures FlagsSaid(hs + [h]) == FlagsAfter(FlagsSaid(hs), h)
  {
    hide SaysChunked, SaysUpgrade, SaysWord, HasLength, LowerName, Trim, Is, Says;
    NamesDiffer();
    SaidNext(hs, h, CLOSE);
    WordNext(hs, h, KEEP_ALIVE);
    WordNext(hs, h, CLOSE);
    WordNext(hs, h, UPGRADE);
  }

  // ----- between two lines

  /** The parser as the first byte of the next line makes it. */
  function Committed(s: Parser): Parser { if s.state.HeaderFieldStart? then s else CommitValue(s) }

  /** Between two header lines, the flags of the last one not yet set. */
  predicate Between(s: Parser) {
    s.errno.OK? && (s.state.HeaderFieldStart? || s.state.HeaderValueLws? || s.state.HeaderValueDiscardLws?)
  }

  lemma CommitFlags(s: Parser)
    ensures CommitValue(s)
         == s.(flags := s.flags.(chunked := s.flags.chunked || s.hs.Chunked?,
                                 connKeepAlive := s.flags.connKeepAlive || s.hs.ConnKeepAlive?,
                                 connClose := s.flags.connClose || s.hs.ConnClose?,
                                 connUpgrade := s.flags.connUpgrade || s.hs.ConnUpgrade?))
  {
    CommitIs(s);
    hide CommitConnection;
  }

  lemma CommitTwice(s: Parser)
    ensures CommitValue(CommitValue(s)) == CommitValue(s)
  {
    CommitFlags(s);
    CommitFlags(CommitValue(s));
    hide CommitValue;
  }

  lemma CommitCount(s: Parser)
    ensures CommitValue(s.(nread := s.nread + 1)) == CommitValue(s).(nread := s.nread + 1)
  {
    CommitFlags(s);
    CommitFlags(s.(nread := s.nread + 1));
    hide CommitValue;
  }

  lemma CommittedStarts(s: Parser)
    requires Between(s)
    ensures LineStart(Committed(s)) && Committed(s) == s.(flags := Committed(s).flags)
    ensures forall t :: Settled(Committed(s), t) == Settled(s, t)
  {
    CommitTwice(s);
    CommitFlags(s);
    hide CommitValue;
  }

  lemma SameAct(s: Parser, ch: char)
    requires Between(s) && !IsBlank(ch)
    ensures Act(Counted(s), ch, true) == Act(Counted(Committed(s)), ch, true)
  {
    var c, d := Counted(s), Counted(Committed(s));
    CommitFlags(s);
    CommitTwice(s);
    ActIs(c, ch, true);
    ActIs(d, ch, true);
    hide Act, ActFieldStart, CommitValue;
    if !s.state.HeaderFieldStart? { NextLineActs(s, ch); }
  }

  lemma NextLineActs(s: Parser, ch: char)
    requires (s.state.HeaderValueLws? || s.state.HeaderValueDiscardLws?) && !IsBlank(ch)
    ensures var c, d := Counted(s), Counted(CommitValue(s));
            ActValueLws(c, ch) == ActValueLws(d, ch) && ActDiscardLws(c, ch) == ActDiscardLws(d, ch)
  {
    SameCommit(s);
    SameLine(Counted(s), Counted(CommitValue(s)), ch);
  }

  lemma SameCommit(s: Parser)
    requires s.state.HeaderValueLws? || s.state.HeaderValueDiscardLws?
    ensures CommitValue(Counted(s)) == CommitValue(Counted(CommitValue(s)))
  {
    CommitTwice(s);
    CommitCount(s);
    CommitCount(CommitValue(s));
    CommitFlags(s);
    hide CommitValue;
    assert Counted(s) == s.(nread := s.nread + 1);
    assert Counted(CommitValue(s)) == CommitValue(s).(nread := CommitValue(s).nread + 1);
  }

  lemma SameLine(c: Parser, d: Parser, ch: char)
    requires CommitValue(c) == CommitValue(d) && !IsBlank(ch)
    ensures ActValueLws(c, ch) == ActValueLws(d, ch) && ActDiscardLws(c, ch) == ActDiscardLws(d, ch)
  {
    hide CommitValue, ActFieldStart, ActValueStart;
  }

  /** What goes from the committed parser goes from the parser itself, if a line begins. */
  lemma GoesCommitted(s: Parser, t: seq<Event>, data: string, s': Parser, t': seq<Event>, slack: nat)
    requires Between(s) && data != [] && !IsBlank(data[0]) && Goes(Committed(s), t, data, s', t', slack)
    ensures Goes(s, t, data, s', t', slack)
  {
    var r := Committed(s);
    CommittedStarts(s);
    SameAct(s, data[0]);
    hide Act, Emit, CommitValue, IsHeaderChar, Committed;
    forall q | 0 <= q < |data|
      ensures q > 0 ==> Run(false, s, t, data[..q]) == Run(false, r, t, data[..q])
    {
      if q > 0 { SameRuns(s, r, t, data[..q]); }
    }
    SameRuns(s, r, t, data);
    assert data[..0] == [];
  }

  lemma {:induction false} SameRuns(s: Parser, r: Parser, t: seq<Event>, data: string)
    requires data != [] && Act(Counted(s), data[0], true) == Act(Counted(r), data[0], true)
    requires s.state == r.state && Scanning(s) == Scanning(r)
    ensures Run(false, s, t, data) == Run(false, r, t, data)
  {
    hide Act, Emit;
    var n := |data| - 1;
    if n == 0 {
      assert data[..0] == [];
    } else {
      SameRuns(s, r, t, data[..n]);
    }
  }

  // ----- Transfer-Encoding

  function Encoding(x: string): HeaderState {
    if Begins(x, CHUNKED) && |x| < |CHUNKED| then MatchingChunked
    else if Is(x, CHUNKED) then HeaderState.Chunked else General
  }

  /** The matcher after the bytes `x` of a value of Transfer-Encoding. */
  predicate Encodes(s: Parser, x: string) {
    s.errno.OK? && s.state.HeaderValue? && s.hs == Encoding(x) && (s.hs.MatchingChunked? ==> s.index == |x| - 1)
  }

  lemma EnterActs(s: Parser, ch: char)
    requires s.state.HeaderValueDiscardWs? && IsValueChar(ch) && !IsBlank(ch)
    ensures s.hs.TransferEncodingName? ==>
              Act(s, ch, true) == Effect(s.(state := HeaderValue, index := 0, hs := Encoding([ch])), [Mark(Value)],
                  false)
    ensures s.hs.UpgradeName? ==>
              Act(s, ch, true) == Effect(s.(state := HeaderValue, index := 0, hs := General,
                                            flags := s.flags.(upgrade := true)), [Mark(Value)], false)
  {
    ActIs(s, ch, true);
    assert CHUNKED[0] == 'c' && !Is([ch], CHUNKED);
    hide Act, Lower, Is;
  }

  lemma EnterEncoding(s: Parser, t: seq<Event>, ch: char, slack: nat)
    requires s.errno.OK? && s.state.HeaderValueDiscardWs? && s.hs.TransferEncodingName? && Room(s, 1, slack)
    requires IsValueChar(ch) && !IsBlank(ch)
    ensures var s' := s.(state := HeaderValue, index := 0, hs := Encoding([ch]), nread := s.nread + 1);
            Goes(s, t, [ch], s', Push(t, Data(Value, [ch])), slack) && Encodes(s', [ch])
  {
    hide Push, Encoding, Act, Goes;
    EnterActs(Counted(s), ch);
    assert [Mark(Value)][1..] == [];
    GoesByte(s, t, ch, slack);
  }

  lemma NextEncodes(s: Parser, x: string, ch: char)
    requires x != [] && Encodes(s, x) && IsValueChar(ch)
    ensures var r := ValueChar(s, ch).s;
            Encodes(r, x + [ch]) && r == s.(hs := r.hs, index := r.index) && r.errno.OK?
  {
    BeginsMore(x, ch, CHUNKED);
    IsMore(x, ch, CHUNKED);
    if Is(x, CHUNKED) { NoneFinished(x, CHUNKED); }
    hide Begins, Is, Lower, IsValueChar;
  }

  lemma InEncoding(s: Parser, t: seq<Event>, x: string, ch: char, slack: nat) returns (s': Parser)
    requires x != [] && Encodes(s, x) && IsValueChar(ch) && Room(s, 1, slack)
    ensures Goes(s, t, [ch], s', Push(t, Data(Value, [ch])), slack) && Encodes(s', x + [ch])
    ensures s' == s.(hs := s'.hs, index := s'.index, nread := s.nread + 1)
  {
    hide Push, Act, Goes, ValueChar, Encoding;
    var c := Counted(s);
    NextEncodes(c, x, ch);
    s' := ValueChar(c, ch).s;
    assert Act(c, ch, true) == ValueChar(c, ch) by { ActIs(c, ch, true); }
    assert IsHeaderChar(ch);
    GoesByte(s, t, ch, slack);
  }

  lemma {:induction false} GoesEncoding(s: Parser, t: seq<Event>, v: string, slack: nat) returns (s': Parser)
    requires s.errno.OK? && s.state.HeaderValueDiscardWs? && s.hs.TransferEncodingName? && Room(s, |v|, slack)
    requires v != [] && IsValue(v) && !IsBlank(v[0])
    ensures Goes(s, t, v, s', Push(t, Data(Value, v)), slack) && Encodes(s', v)
    ensures s' == s.(state := HeaderValue, hs := s'.hs, index := s'.index, nread := s.nread + |v|)
  {
    hide Goes, IsValueChar, IsBlank, Push, Encoding;
    var n := |v| - 1;
    if n == 0 {
      EnterEncoding(s, t, v[0], slack);
      s' := s.(state := HeaderValue, index := 0, hs := Encoding([v[0]]), nread := s.nread + 1);
      assert v == [v[0]];
    } else {
      var d := v[..n];
      var s1 := GoesEncoding(s, t, d, slack);
      var t1 := Push(t, Data(Value, d));
      s' := InEncoding(s1, t1, d, v[n], slack);
      PushTwice(t, Value, d, [v[n]]);
      assert d + [v[n]] == v;
      GoesOn(s, t, d, s1, t1, [v[n]], s', Push(t1, Data(Value, [v[n]])), slack);
    }
  }

  lemma EncodingCommits(s: Parser, x: string)
    requires x != [] && s.hs == Encoding(x)
    ensures CommitValue(s) == s.(flags := s.flags.(chunked := s.flags.chunked || Is(x, CHUNKED)))
  {
    if Is(x, CHUNKED) { NoneFinished(x, CHUNKED); }
    CommitFlags(s);
    hide CommitValue, Is, Begins;
  }

  // ----- Upgrade

  lemma {:induction false} GoesUpgrade(s: Parser, t: seq<Event>, v: string, slack: nat)
    requires s.errno.OK? && s.state.HeaderValueDiscardWs? && s.hs.UpgradeName? && Room(s, |v|, slack)
    requires v != [] && IsValue(v) && !IsBlank(v[0])
    ensures Goes(s, t, v, s.(state := HeaderValue, index := 0, hs := General, flags := s.flags.(upgrade := true),
                             nread := s.nread + |v|), Push(t, Data(Value, v)), slack)
  {
    hide Goes, IsValueChar, IsBlank, Push, Act;
    var n := |v| - 1;
    if n == 0 {
      EnterActs(Counted(s), v[0]);
      assert [Mark(Value)][1..] == [];
      assert v == [v[0]];
      GoesByte(s, t, v[0], slack);
    } else {
      var d := v[..n];
      GoesUpgrade(s, t, d, slack);
      var s1 := s.(state := HeaderValue, index := 0, hs := General, flags := s.flags.(upgrade := true),
          nread := s.nread + n);
      var t1 := Push(t, Data(Value, d));
      HeaderLines.InValue(s1, t1, v[n], slack);
      PushTwice(t, Value, d, [v[n]]);
      assert d + [v[n]] == v;
      GoesOn(s, t, d, s1, t1, [v[n]], s1.(nread := s1.nread + 1), Push(t1, Data(Value, [v[n]])), slack);
    }
  }

  // ----- any line

  /** What a line with the header `h` leaves. */
  ghost predicate LineLeaves(s: Parser, t: seq<Event>, h: (string, string), s': Parser, t': seq<Event>) {
    && Between(s') && !s'.state.HeaderFieldStart?
    && Settled(s', t') == Push(Push(Settled(s, t), Data(Field, h.0)), Data(Value, Trim(h.1)))
    && s' == s.(state := s'.state, hs := s'.hs, index := s'.index, flags := s'.flags, contentLength := s'.contentLength,
                nread := s.nread + |Line(h.0, h.1)|)
    && CommitValue(s') == s'.(flags := FlagsAfter(s.flags, h))
    && s'.contentLength == if Named(h, CONTENT_LENGTH) && IsDigits(Trim(h.1)) then DecFrom(0, Trim(h.1))
                            else s.contentLength
  }

  lemma NoCommit(s: Parser)
    requires s.hs in {ContentLengthName, TransferEncodingName, UpgradeName, General}
    ensures CommitValue(s) == s
  {
  }

  lemma GoesLengthField(s: Parser, t: seq<Event>, h: (string, string), slack: nat) returns (s': Parser, t': seq<Event>)
    requires LineStart(s) && GoodField(h) && Named(h, CONTENT_LENGTH) && !s.flags.contentLength
    requires Room(s, |Line(h.0, h.1)|, slack)
    ensures Goes(s, t, Line(h.0, h.1), s', t', slack) && LineLeaves(s, t, h, s', t')
  {
    hide Goes, NameState, Push, LineStart, IsName, IsValue, CommitValue, Trim, Blanks, AtValue, Prefix, Line, LowerName,
      DecFrom, IsNum;
    var v, u := Trim(h.1), Push(Settled(s, t), Data(Field, h.0));
    NamesDiffer();
    NameNotEmpty(h.0);
    NameRecognised(s.(state := HeaderField), h.0);
    LineIs(h.0, h.1);
    GoesToValue(s, t, h.0, h.1, slack);
    var s2 := AtValue(s, h.0, h.1);
    GoesDigits(s2, u, v, slack);
    var s3 := s2.(state := HeaderValue, index := 0, nread := s2.nread + |v|, contentLength := DecFrom(0, v),
                  flags := s2.flags.(contentLength := true));
    t' := Push(u, Data(Value, v));
    s' := s3.(state := HeaderValueLws, nread := s3.nread + 2);
    GoesAfterValue(s, t, s2, u, s3, h.0, h.1, slack);
    NoCommit(s');
  }

  lemma GoesEncodingField(s: Parser, t: seq<Event>, h: (string, string), slack: nat)
    returns (s': Parser, t': seq<Event>)
    requires LineStart(s) && GoodField(h) && Named(h, TRANSFER_ENCODING) && Room(s, |Line(h.0, h.1)|, slack)
    ensures Goes(s, t, Line(h.0, h.1), s', t', slack) && LineLeaves(s, t, h, s', t')
  {
    hide Goes, NameState, Push, LineStart, IsName, IsValue, CommitValue, Trim, Blanks, AtValue, Prefix, Line, LowerName,
      DecFrom, IsNum, IsDigits, Is, IsBlank, Settled, FlagsAfter;
    var v, u := Trim(h.1), Push(Settled(s, t), Data(Field, h.0));
    NamesDiffer();
    NameNotEmpty(h.0);
    NameRecognised(s.(state := HeaderField), h.0);
    TrimIsValue(h.1);
    LineIs(h.0, h.1);
    GoesToValue(s, t, h.0, h.1, slack);
    var s2 := AtValue(s, h.0, h.1);
    if v == [] {
      s', t' := s2.(state := HeaderValueDiscardLws, nread := s2.nread + 2), u;
      GoesNoValue(s, t, s2, u, h.0, h.1, slack);
      NoCommit(s');
      NothingIs();
    } else {
      var s3 := GoesEncoding(s2, u, v, slack);
      t' := Push(u, Data(Value, v));
      s' := s3.(state := HeaderValueLws, nread := s3.nread + 2);
      GoesAfterValue(s, t, s2, u, s3, h.0, h.1, slack);
      EncodingCommits(s', v);
    }
    ValueSettled(s', t');
    EncodingFlags(s.flags, h);
  }

  lemma EncodingFlags(f: Flags, h: (string, string))
    requires Named(h, TRANSFER_ENCODING)
    ensures FlagsAfter(f, h) == f.(chunked := f.chunked || Is(Trim(h.1), CHUNKED)) && !Named(h, CONTENT_LENGTH)
  {
    hide LowerName, Is, Trim;
    NamesDiffer();
  }

  lemma NothingIs()
    ensures !Is([], CHUNKED)
  {
  }

  lemma GoesUpgradeField(s: Parser, t: seq<Event>, h: (string, string), slack: nat) returns (s': Parser, t': seq<Event>)
    requires LineStart(s) && GoodField(h) && Named(h, UPGRADE) && Room(s, |Line(h.0, h.1)|, slack)
    ensures Goes(s, t, Line(h.0, h.1), s', t', slack) && LineLeaves(s, t, h, s', t')
  {
    hide Goes, NameState, Push, LineStart, IsName, IsValue, CommitValue, Trim, Blanks, AtValue, Prefix, Line, LowerName,
      DecFrom, IsNum, Is, IsBlank;
    var v, u := Trim(h.1), Push(Settled(s, t), Data(Field, h.0));
    NamesDiffer();
    NameNotEmpty(h.0);
    NameRecognised(s.(state := HeaderField), h.0);
    TrimIsValue(h.1);
    LineIs(h.0, h.1);
    GoesToValue(s, t, h.0, h.1, slack);
    var s2 := AtValue(s, h.0, h.1);
    if v == [] {
      s', t' := s2.(state := HeaderValueDiscardLws, nread := s2.nread + 2), u;
      GoesNoValue(s, t, s2, u, h.0, h.1, slack);
    } else {
      GoesUpgrade(s2, u, v, slack);
      var s3 := s2.(state := HeaderValue, index := 0, hs := General, flags := s2.flags.(upgrade := true),
                    nread := s2.nread + |v|);
      t' := Push(u, Data(Value, v));
      s' := s3.(state := HeaderValueLws, nread := s3.nread + 2);
      GoesAfterValue(s, t, s2, u, s3, h.0, h.1, slack);
    }
    NoCommit(s');
  }

  lemma GoesField(s: Parser, t: seq<Event>, h: (string, string), slack: nat) returns (s': Parser, t': seq<Event>)
    requires LineStart(s) && GoodField(h) && (Named(h, CONTENT_LENGTH) ==> !s.flags.contentLength)
    requires Room(s, |Line(h.0, h.1)|, slack)
    ensures Goes(s, t, Line(h.0, h.1), s', t', slack) && LineLeaves(s, t, h, s', t')
  {
    hide Goes, LineStart, CommitValue, Line, Push, Trim, LowerName, IsName, IsValue, Is, DecFrom, IsNum, Settled;
    NamesDiffer();
    if IsConnection(h) {
      s', t' := GoesConnectionLine(s, t, h.0, h.1, slack);
    } else if Named(h, CONTENT_LENGTH) {
      s', t' := GoesLengthField(s, t, h, slack);
    } else if Named(h, TRANSFER_ENCODING) {
      s', t' := GoesEncodingField(s, t, h, slack);
    } else if Named(h, UPGRADE) {
      s', t' := GoesUpgradeField(s, t, h, slack);
    } else {
      s', t' := GoesLine(s, t, h.0, h.1, slack);
      PlainLeaves(s');
    }
  }

  lemma PlainLeaves(s: Parser)
    requires LineStart(s)
    ensures Between(s) && (!s.state.HeaderFieldStart? ==> CommitValue(s) == s)
  {
    hide CommitValue;
  }

  // ----- any header list

  /** The parser `s`, at its first header, with the headers `hs` read. */
  ghost predicate HasRead(s: Parser, hs: seq<(string, string)>, s': Parser) {
    && Between(s')
    && Committed(s') == s.(state := s'.state, hs := s'.hs, index := s'.index, flags := FlagsSaid(hs),
                           contentLength := LengthSaid(hs), nread := s.nread + |HeaderText(hs)|)
  }

  lemma NothingSaid(s: Parser)
    requires s.errno.OK? && s.state.HeaderFieldStart? && s.flags == NO_FLAGS && s.contentLength == ULLONG_MAX
    ensures HasRead(s, [], s)
  {
    assert HeaderText([]) == [];
  }

  lemma LengthNext(hs: seq<(string, string)>, h: (string, string))
    ensures LengthSaid(hs + [h])
         == if Named(h, CONTENT_LENGTH) && IsDigits(Trim(h.1)) then DecFrom(0, Trim(h.1)) else LengthSaid(hs)
  {
    hide Named, IsNum, DecFrom, Trim;
    assert (hs + [h])[..|hs|] == hs;
  }

  /** One header more. */
  lemma ReadsOn(s: Parser, hs: seq<(string, string)>, s1: Parser, t1: seq<Event>, h: (string, string), s': Parser,
                t': seq<Event>)
    requires HasRead(s, hs, s1) && LineLeaves(Committed(s1), t1, h, s', t')
    ensures HasRead(s, hs + [h], s')
  {
    FlagsNext(hs, h);
    LengthNext(hs, h);
    assert (hs + [h])[..|hs|] == hs;
    assert HeaderText(hs + [h]) == HeaderText(hs) + Line(h.0, h.1);
    hide CommitValue, FlagsSaid, FlagsAfter, LengthSaid, Settled, Named, IsNum, DecFrom, Trim, Push, HeaderText, Line;
  }

  lemma {:induction false} GoesFields(s: Parser, t: seq<Event>, hs: seq<(string, string)>, slack: nat)
    returns (s': Parser, t': seq<Event>)
    requires s.errno.OK? && s.state.HeaderFieldStart? && s.flags == NO_FLAGS && s.contentLength == ULLONG_MAX
    requires GoodFields(hs) && Room(s, |HeaderText(hs)|, slack) && NoOpenField(t)
    ensures Goes(s, t, HeaderText(hs), s', t', slack) && HasRead(s, hs, s')
    ensures Settled(s', t') == t + HeaderEvents(hs)
    decreases |hs|
  {
    hide Goes, GoodField, Line, Trim, Settled, LineStart, Named, HasRead, LineLeaves, Committed, Between;
    if hs == [] {
      s', t' := s, t;
      NothingSaid(s);
      GoesNowhere(s, t, slack);
      assert Settled(s, t) == t + HeaderEvents([]) by { AtFirst(s, t); }
    } else {
      var n := |hs| - 1;
      var init, h := hs[..n], hs[n];
      var s1, t1 := GoesFields(s, t, init, slack);
      var r := Committed(s1);
      assert LineStart(r) && Between(s1) && (forall t :: Settled(r, t) == Settled(s1, t))
             && r.flags == FlagsSaid(init) && r.nread == s.nread + |HeaderText(init)| by { ReadSo(s, init, s1); }
      NoneTwice(hs);
      s', t' := GoesField(r, t1, h, slack);
      LineBegins(h);
      GoesCommitted(s1, t1, Line(h.0, h.1), s', t', slack);
      GoesOn(s, t, HeaderText(init), s1, t1, Line(h.0, h.1), s', t', slack);
      ReadsOn(s, init, s1, t1, h, s', t');
      assert init + [h] == hs;
      LeavesSettled(r, t1, h, s', t');
      EventsMore(t, hs);
    }
  }

  lemma EventsMore(t: seq<Event>, hs: seq<(string, string)>)
    requires hs != [] && NoOpenField(t)
    ensures var n := |hs| - 1;
            Push(Push(t + HeaderEvents(hs[..n]), Data(Field, hs[n].0)), Data(Value, Trim(hs[n].1)))
            == t + HeaderEvents(hs)
  {
    hide Push, Trim;
    var n := |hs| - 1;
    var pair := [Data(Field, hs[n].0), Data(Value, Trim(hs[n].1))];
    OpenAfter(t, hs[..n]);
    PushPair(t + HeaderEvents(hs[..n]), hs[n]);
    assert HeaderEvents(hs) == HeaderEvents(hs[..n]) + pair;
    hide HeaderEvents, NoOpenField;
    assert t + (HeaderEvents(hs[..n]) + pair) == t + HeaderEvents(hs[..n]) + pair;
  }

  lemma AtFirst(s: Parser, t: seq<Event>)
    requires s.state.HeaderFieldStart?
    ensures Settled(s, t) == t + HeaderEvents([])
  {
    assert HeaderEvents([]) == [] && t + [] == t;
  }

  lemma LeavesSettled(s: Parser, t: seq<Event>, h: (string, string), s': Parser, t': seq<Event>)
    requires LineLeaves(s, t, h, s', t')
    ensures Settled(s', t') == Push(Push(Settled(s, t), Data(Field, h.0)), Data(Value, Trim(h.1)))
  {
    hide Settled, Push, Trim, Line, FlagsAfter, CommitValue, Named, IsNum, DecFrom;
  }

  lemma ReadSo(s: Parser, hs: seq<(string, string)>, s': Parser)
    requires HasRead(s, hs, s')
    ensures Between(s') && LineStart(Committed(s')) && (forall t :: Settled(Committed(s'), t) == Settled(s', t))
    ensures Committed(s').flags == FlagsSaid(hs) && Committed(s').nread == s.nread + |HeaderText(hs)|
  {
    CommittedStarts(s');
    hide Committed, LineStart, Settled, FlagsSaid, LengthSaid, HeaderText, Between;
  }

  /** The last header is no second Content-Length. */
  lemma NoneTwice(hs: seq<(string, string)>)
    requires GoodFields(hs) && hs != []
    ensures var n := |hs| - 1;
            GoodFields(hs[..n]) && (Named(hs[n], CONTENT_LENGTH) ==> !FlagsSaid(hs[..n]).contentLength)
  {
    hide Named, GoodField;
    var n := |hs| - 1;
    if HasLength(hs[..n]) {
      var i :| 0 <= i < n && Named(hs[..n][i], CONTENT_LENGTH);
      assert Named(hs[i], CONTENT_LENGTH);
    }
  }

  lemma LineBegins(h: (string, string))
    requires GoodField(h)
    ensures Line(h.0, h.1) != [] && !IsBlank(Line(h.0, h.1)[0])
  {
    hide IsValue, IsDigits, Trim, Named, DecFrom, IsNum;
    TokenIsNotBlank(h.0[0]);
    assert Line(h.0, h.1)[0] == h.0[0];
  }

  lemma OpenAfter(t: seq<Event>, hs: seq<(string, string)>)
    requires NoOpenField(t)
    ensures NoOpenField(t + HeaderEvents(hs))
  {
    hide Trim;
  }
}
