/** What a Connection value says: the words that the parser finds in its list, in terms of its text. */
module Connections {
  import opened Bytes
  import opened Trace
  import opened Machine
  import opened Bytewise
  import opened Marks
  import opened Scans
  import opened Journeys
  import opened HeaderNames
  import opened HeaderLines

  // ----- words in a list

  /** `x` begins the word, in whatever case. */
  predicate Begins(x: string, word: string) { |x| <= |word| && forall i :: 0 <= i < |x| ==> Lower(x[i]) == word[i] }

  /** `x` is the word, in whatever case, with blanks behind it. */
  predicate Is(x: string, word: string) {
    && |x| >= |word| && (forall i :: 0 <= i < |word| ==> Lower(x[i]) == word[i])
    && forall i :: |word| <= i < |x| ==> x[i] == ' '
  }

  predicate IsWord(word: string) { word == KEEP_ALIVE || word == CLOSE || word == UPGRADE }

  /** `x` has begun one of the three words and not finished it. */
  predicate Unfinished(x: string) {
    x != [] && ((Begins(x, KEEP_ALIVE) && |x| < |KEEP_ALIVE|) || (Begins(x, CLOSE) && |x| < |CLOSE|)
                || (Begins(x, UPGRADE) && |x| < |UPGRADE|))
  }

  function Unblanked(e: string): (x: string)
    ensures x != [] ==> x[0] != ' '
  {
    if e != [] && e[0] == ' ' then Unblanked(e[1..]) else e
  }

  /** The elements before the last, and the last. */
  datatype Elements = Elements(done: seq<string>, last: string)

  /** A value is divided at its commas, but not at the first byte, and not where a word is unfinished. */
  function Divided(v: string): Elements {
    if v == [] then Elements([], [])
    else
      var e, c := Divided(v[..|v| - 1]), v[|v| - 1];
      if c == ',' && |v| > 1 && !Unfinished(Unblanked(e.last)) then Elements(e.done + [e.last], [])
      else e.(last := e.last + [c])
  }

  /** The element begins with a byte that can begin a token. */
  predicate Opens(e: string) { Unblanked(e) != [] && IsToken(Lower(Unblanked(e)[0])) }

  predicate AllOpen(es: seq<string>) { forall j :: 0 < j < |es| ==> Opens(es[j]) }

  /** Element `k` is the word, and none between the first and it begins otherwise than a token. */
  predicate SaidAt(es: seq<string>, word: string, k: nat)
    requires k < |es|
  {
    Is(Unblanked(es[k]), word) && AllOpen(es[..k])
  }

  predicate Said(es: seq<string>, word: string) { exists k :: 0 <= k < |es| && SaidAt(es, word, k) }

  /** The value says the word. */
  predicate Says(v: string, word: string) { var e := Divided(v); Said(e.done + [e.last], word) }

  lemma SaidMore(es: seq<string>, e: string, word: string)
    ensures Said(es + [e], word) <==> Said(es, word) || (Is(Unblanked(e), word) && AllOpen(es))
  {
    hide Is, AllOpen;
    var all := es + [e];
    assert all[..|es|] == es;
    forall k | 0 <= k < |es|
      ensures SaidAt(all, word, k) <==> SaidAt(es, word, k)
    {
      assert all[..k] == es[..k];
    }
    if SaidAt(all, word, |es|) { assert all[|es|] == e; }
    if Said(all, word) {
      var k :| 0 <= k < |all| && SaidAt(all, word, k);
      if k < |es| { assert SaidAt(es, word, k); }
    }
    if Said(es, word) {
      var k :| 0 <= k < |es| && SaidAt(es, word, k);
      assert SaidAt(all, word, k);
    }
    if Is(Unblanked(e), word) && AllOpen(es) { assert SaidAt(all, word, |es|); }
  }

  lemma OpenMore(es: seq<string>, e: string)
    ensures AllOpen(es + [e]) <==> AllOpen(es) && (es == [] || Opens(e))
  {
    hide Opens;
    var all := es + [e];
    if AllOpen(all) {
      assert es != [] ==> Opens(all[|es|]);
      forall j | 0 < j < |es|
        ensures Opens(es[j])
      {
        assert Opens(all[j]);
      }
    }
  }

  lemma {:induction false} UnblankedSnoc(e: string, c: char)
    ensures Unblanked(e + [c]) == if Unblanked(e) == [] then if c == ' ' then [] else [c] else Unblanked(e) + [c]
    decreases |e|
  {
    if e == [] {
      assert e + [c] == [c];
    } else if e[0] == ' ' {
      UnblankedSnoc(e[1..], c);
      assert (e + [c])[1..] == e[1..] + [c];
    }
  }

  // ----- the matchers

  predicate Matching(hs: HeaderState) { hs.ConnMatchingKeepAlive? || hs.ConnMatchingClose? || hs.ConnMatchingUpgrade? }

  /** Where the matcher stands within an element whose text without leading blanks is `x`. */
  function Within(x: string, first: bool): HeaderState {
    if x == [] then ConnTokenStart
    else if Begins(x, KEEP_ALIVE) && |x| < |KEEP_ALIVE| then ConnMatchingKeepAlive
    else if Begins(x, CLOSE) && |x| < |CLOSE| then ConnMatchingClose
    else if Begins(x, UPGRADE) && |x| < |UPGRADE| then ConnMatchingUpgrade
    else if Is(x, KEEP_ALIVE) then ConnKeepAlive
    else if Is(x, CLOSE) then ConnClose
    else if Is(x, UPGRADE) then ConnUpgrade
    else if first || IsToken(Lower(x[0])) then ConnToken
    else General
  }

  function StandsAt(e: Elements): HeaderState {
    if AllOpen(e.done) then Within(Unblanked(e.last), e.done == []) else General
  }

  function WithWords(f: Flags, es: seq<string>): Flags {
    f.(connKeepAlive := f.connKeepAlive || Said(es, KEEP_ALIVE), connClose := f.connClose || Said(es, CLOSE),
       connUpgrade := f.connUpgrade || Said(es, UPGRADE))
  }

  /** The parser inside a value divided as `e`: the matcher stands where the text says, and the words of the finished
      elements are in the flags. */
  ghost predicate Reads(s: Parser, f: Flags, e: Elements) {
    && s.state.HeaderValue? && s.errno.OK? && s.hs == StandsAt(e) && s.flags == WithWords(f, e.done)
    && (Matching(s.hs) ==> s.index == |Unblanked(e.last)| - 1) && (s.hs.ConnTokenStart? ==> s.index == 0)
    && (e.done == [] ==> Unblanked(e.last) != [])
  }

  /** What distinguishes the words. */
  lemma FirstLetters(x: string)
    requires x != []
    ensures Begins(x, KEEP_ALIVE) || Is(x, KEEP_ALIVE) ==> Lower(x[0]) == 'k'
    ensures Begins(x, CLOSE) || Is(x, CLOSE) ==> Lower(x[0]) == 'c'
    ensures Begins(x, UPGRADE) || Is(x, UPGRADE) ==> Lower(x[0]) == 'u'
    ensures IsToken('k') && IsToken('c') && IsToken('u')
  {
    assert KEEP_ALIVE[0] == 'k' && CLOSE[0] == 'c' && UPGRADE[0] == 'u';
  }

  lemma BeginsMore(x: string, c: char, word: string)
    ensures Begins(x + [c], word) <==> Begins(x, word) && |x| < |word| && Lower(c) == word[|x|]
  {
    hide Lower;
    var y := x + [c];
    if Begins(y, word) {
      forall i | 0 <= i < |x|
        ensures Lower(x[i]) == word[i]
      {
        assert y[i] == x[i];
      }
      assert y[|x|] == c;
    }
  }

  lemma IsMore(x: string, c: char, word: string)
    requires word != []
    ensures Is(x + [c], word)
            <==> (Is(x, word) && c == ' ') || (Begins(x, word) && |x| + 1 == |word| && Lower(c) == word[|x|])
  {
    hide Lower;
    var y := x + [c];
    assert y[|x|] == c && forall i :: 0 <= i < |x| ==> y[i] == x[i];
  }

  lemma NoneFinished(x: string, word: string)
    requires Is(x, word)
    ensures Begins(x, word) ==> |x| == |word|
  {
  }

  lemma SpaceOnly(ch: char)
    requires IsValueChar(ch)
    ensures Lower(ch) == ' ' <==> ch == ' '
    ensures Lower(ch) != TAB
    ensures Lower(',') == ',' && !IsToken(',')
    ensures Lower(ch) == ',' ==> ch == ','
    ensures Lower(ch) != NUL
  {
  }

  /** One more byte, which is not the first of the value. */
  function Add(e: Elements, c: char): Elements {
    if c == ',' && !Unfinished(Unblanked(e.last)) then Elements(e.done + [e.last], []) else e.(last := e.last + [c])
  }

  lemma DividedSnoc(v: string, c: char)
    requires v != []
    ensures Divided(v + [c]) == Add(Divided(v), c)
  {
    hide Unfinished;
    assert (v + [c])[..|v|] == v;
  }

  /** What `Within` says, and that the words do not overlap. */
  lemma WithinIs(x: string, first: bool)
    ensures Unfinished(x) <==> Matching(Within(x, first))
    ensures Within(x, first).ConnKeepAlive? <==> x != [] && Is(x, KEEP_ALIVE)
    ensures Within(x, first).ConnClose? <==> x != [] && Is(x, CLOSE)
    ensures Within(x, first).ConnUpgrade? <==> x != [] && Is(x, UPGRADE)
    ensures Within(x, first).ConnMatchingKeepAlive? <==> x != [] && Begins(x, KEEP_ALIVE) && |x| < |KEEP_ALIVE|
    ensures Within(x, first).ConnMatchingClose? <==> x != [] && Begins(x, CLOSE) && |x| < |CLOSE|
    ensures Within(x, first).ConnMatchingUpgrade? <==> x != [] && Begins(x, UPGRADE) && |x| < |UPGRADE|
  {
    hide Lower, IsToken;
    if x != [] { FirstLetters(x); }
  }

  /** How the matcher of a longer element follows from that of a shorter. */
  lemma WithinMore(x: string, c: char, first: bool)
    requires x != []
    ensures var hs, hs' := Within(x, first), Within(x + [c], first);
            && (Matching(hs) ==>
                  var word := if hs.ConnMatchingKeepAlive? then KEEP_ALIVE else if hs.ConnMatchingClose? then CLOSE
                              else UPGRADE;
                  var hit := if hs.ConnMatchingKeepAlive? then ConnKeepAlive
                             else if hs.ConnMatchingClose? then ConnClose
                             else ConnUpgrade;
                  |x| < |word|
                  && hs' == if Lower(c) != word[|x|] then ConnToken else if |x| + 1 == |word| then hit else hs)
            && (hs.ConnKeepAlive? || hs.ConnClose? || hs.ConnUpgrade? ==> hs' == if c == ' ' then hs else ConnToken)
            && (hs.ConnToken? ==> hs'.ConnToken?) && (hs.General? ==> hs'.General?)
  {
    hide Lower, IsToken, Is, Begins;
    FirstLetters(x);
    FirstLetters(x + [c]);
    BeginsMore(x, c, KEEP_ALIVE);
    BeginsMore(x, c, CLOSE);
    BeginsMore(x, c, UPGRADE);
    IsMore(x, c, KEEP_ALIVE);
    IsMore(x, c, CLOSE);
    IsMore(x, c, UPGRADE);
    assert (x + [c])[0] == x[0];
    if Is(x, KEEP_ALIVE) { NoneFinished(x, KEEP_ALIVE); }
    if Is(x, CLOSE) { NoneFinished(x, CLOSE); }
    if Is(x, UPGRADE) { NoneFinished(x, UPGRADE); }
  }

  lemma WithinOne(c: char, first: bool)
    ensures c != ' ' ==>
              Within([c], first) == if Lower(c) == 'k' then ConnMatchingKeepAlive
                                    else if Lower(c) == 'c' then ConnMatchingClose
                                    else if Lower(c) == 'u' then ConnMatchingUpgrade
                                    else if first || IsToken(Lower(c)) then ConnToken else General
  {
    hide Lower, IsToken;
    assert KEEP_ALIVE[0] == 'k' && CLOSE[0] == 'c' && UPGRADE[0] == 'u';
    assert !Is([c], KEEP_ALIVE) && !Is([c], CLOSE) && !Is([c], UPGRADE);
  }

  lemma ReadsIs(s: Parser, f: Flags, e: Elements)
    requires Reads(s, f, e)
    ensures s.hs == (if AllOpen(e.done) then Within(Unblanked(e.last), e.done == []) else General)
    ensures s.state.HeaderValue? && s.errno.OK? && s.flags == WithWords(f, e.done)
    ensures (Matching(s.hs) ==> s.index == |Unblanked(e.last)| - 1) && (e.done == [] ==> Unblanked(e.last) != [])
  {
    hide Within, AllOpen, WithWords;
  }

  /** Whether an element that does not divide can be told from the matcher. */
  lemma OpensIs(e: string, first: bool)
    requires first ==> Unblanked(e) != []
    ensures var hs := Within(Unblanked(e), first);
            && (hs.General? || hs.ConnTokenStart? ==> !first && !Opens(e))
            && (!hs.General? && !hs.ConnTokenStart? ==> first || Opens(e))
  {
    var x := Unblanked(e);
    hide Lower, IsToken, Is, Begins;
    if x != [] { FirstLetters(x); }
  }

  // ----- the switch on one byte of such a value

  lemma QuietActs(s: Parser, ch: char)
    ensures s.hs.General? ==> ValueChar(s, ch) == Stay(s)
    ensures s.hs.ConnToken? ==>
              ValueChar(s, ch) == Stay(if ch == ',' then s.(hs := ConnTokenStart, index := 0) else s)
  {
    hide Lower, MatchWord, IsToken;
  }

  lemma StartActs(s: Parser, ch: char)
    requires s.hs.ConnTokenStart? && IsValueChar(ch)
    ensures ValueChar(s, ch)
         == Stay(s.(hs := if Lower(ch) == 'k' then ConnMatchingKeepAlive else if Lower(ch) == 'c' then ConnMatchingClose
                          else if Lower(ch) == 'u' then ConnMatchingUpgrade
                          else if IsToken(Lower(ch)) then ConnToken else if ch == ' ' then ConnTokenStart else General))
  {
    SpaceOnly(ch);
    hide Lower, MatchWord, IsToken, IsValueChar;
  }

  function Word(hs: HeaderState): string {
    if hs.ConnMatchingKeepAlive? then KEEP_ALIVE else if hs.ConnMatchingClose? then CLOSE else UPGRADE
  }

  function Hit(hs: HeaderState): HeaderState {
    if hs.ConnMatchingKeepAlive? then ConnKeepAlive else if hs.ConnMatchingClose? then ConnClose else ConnUpgrade
  }

  lemma MatchActs(s: Parser, ch: char)
    requires Matching(s.hs) && s.index + 1 < |Word(s.hs)|
    ensures ValueChar(s, ch)
         == Stay(s.(index := s.index + 1,
                    hs := if Lower(ch) != Word(s.hs)[s.index + 1] then ConnToken
                          else if s.index + 2 == |Word(s.hs)| then Hit(s.hs) else s.hs))
  {
    hide Lower, IsToken;
  }

  lemma FoundActs(s: Parser, ch: char)
    requires s.hs.ConnKeepAlive? || s.hs.ConnClose? || s.hs.ConnUpgrade?
    ensures ch == ',' ==> ValueChar(s, ch) == Stay(CommitConnection(s).(hs := ConnTokenStart, index := 0))
    ensures ch != ',' ==> ValueChar(s, ch) == Stay(if ch == ' ' then s else s.(hs := ConnToken))
  {
    hide Lower, MatchWord, IsToken, CommitConnection;
  }

  lemma CommitIs(s: Parser)
    ensures CommitConnection(s)
         == s.(flags := s.flags.(connKeepAlive := s.flags.connKeepAlive || s.hs.ConnKeepAlive?,
                                 connClose := s.flags.connClose || s.hs.ConnClose?,
                                 connUpgrade := s.flags.connUpgrade || s.hs.ConnUpgrade?))
  {
  }

  /** The words of one more finished element. */
  lemma WordsMore(f: Flags, es: seq<string>, e: string)
    ensures var g, x, live := WithWords(f, es), Unblanked(e), AllOpen(es);
            WithWords(f, es + [e])
            == g.(connKeepAlive := g.connKeepAlive || (live && Is(x, KEEP_ALIVE)),
                  connClose := g.connClose || (live && Is(x, CLOSE)),
                  connUpgrade := g.connUpgrade || (live && Is(x, UPGRADE)))
  {
    hide Is, AllOpen, Said, Unblanked;
    SaidMore(es, e, KEEP_ALIVE);
    SaidMore(es, e, CLOSE);
    SaidMore(es, e, UPGRADE);
  }

  lemma BeforeComma(s: Parser, f: Flags, e: Elements)
    requires Reads(s, f, e) && !Unfinished(Unblanked(e.last))
    ensures var x, live := Unblanked(e.last), AllOpen(e.done);
            && s.hs in {General, ConnTokenStart, ConnToken, ConnKeepAlive, ConnClose, ConnUpgrade}
            && (live ==> (s.hs.ConnKeepAlive? <==> Is(x, KEEP_ALIVE)) && (s.hs.ConnClose? <==> Is(x, CLOSE))
                         && (s.hs.ConnUpgrade? <==> Is(x, UPGRADE)))
            && (!live ==> s.hs.General?)
    ensures AllOpen(e.done + [e.last]) <==> !s.hs.General? && !s.hs.ConnTokenStart?
  {
    var x, first := Unblanked(e.last), e.done == [];
    ReadsIs(s, f, e);
    hide Reads, Is, Unfinished, AllOpen, Opens, Unblanked;
    OpenMore(e.done, e.last);
    OpensIs(e.last, first);
    WithinIs(x, first);
    NoneIs();
    if x != [] { WithinSome(x, first); } else { assert Within(x, first).ConnTokenStart?; }
    hide Within;
  }

  /** The matcher and the flags after a comma that divides. */
  lemma Divides(s: Parser, f: Flags, e: Elements)
    requires Reads(s, f, e) && !Unfinished(Unblanked(e.last))
    ensures Reads(ValueChar(s, ',').s, f, Elements(e.done + [e.last], []))
    ensures ValueChar(s, ',').s == s.(hs := ValueChar(s, ',').s.hs, index := ValueChar(s, ',').s.index,
                                      flags := ValueChar(s, ',').s.flags)
  {
    hide Within, Is, Unfinished, AllOpen, Unblanked, WithWords, ValueChar, Reads, StandsAt;
    var x, live := Unblanked(e.last), AllOpen(e.done);
    BeforeComma(s, f, e);
    ReadsIs(s, f, e);
    AfterComma(s, x, live);
    WordsMore(f, e.done, e.last);
    ReadsNext(ValueChar(s, ',').s, f, e.done + [e.last]);
  }

  lemma ReadsNext(s: Parser, f: Flags, done: seq<string>)
    requires s.state.HeaderValue? && s.errno.OK? && s.flags == WithWords(f, done) && done != []
    requires s.hs == (if AllOpen(done) then ConnTokenStart else General) && (s.hs.ConnTokenStart? ==> s.index == 0)
    ensures Reads(s, f, Elements(done, []))
  {
    NothingUnblanked();
    WithinNothing();
    hide Within, AllOpen, Unblanked, WithWords;
  }

  lemma AfterComma(s: Parser, x: string, live: bool)
    requires s.hs in {General, ConnTokenStart, ConnToken, ConnKeepAlive, ConnClose, ConnUpgrade}
    requires live ==> (s.hs.ConnKeepAlive? <==> Is(x, KEEP_ALIVE)) && (s.hs.ConnClose? <==> Is(x, CLOSE))
                      && (s.hs.ConnUpgrade? <==> Is(x, UPGRADE))
    requires !live ==> s.hs.General?
    ensures var f := s.flags;
            ValueChar(s, ',').s
            == s.(hs := if s.hs.General? || s.hs.ConnTokenStart? then General else ConnTokenStart,
                  index := if s.hs.General? || s.hs.ConnTokenStart? then s.index else 0,
                  flags := f.(connKeepAlive := f.connKeepAlive || (live && Is(x, KEEP_ALIVE)),
                              connClose := f.connClose || (live && Is(x, CLOSE)),
                              connUpgrade := f.connUpgrade || (live && Is(x, UPGRADE))))
  {
    SpaceComma();
    hide Is, Lower, IsToken, ValueChar, CommitConnection;
    if s.hs.ConnTokenStart? {
      CommaIsValue();
      StartActs(s, ',');
    } else if s.hs.General? || s.hs.ConnToken? {
      QuietActs(s, ',');
    } else {
      FoundActs(s, ',');
      CommitIs(s);
    }
  }

  lemma CommaIsValue()
    ensures IsValueChar(',')
  {
  }

  lemma WithinNothing()
    ensures Within([], false).ConnTokenStart?
  {
  }

  lemma NothingUnblanked()
    ensures Unblanked([]) == []
  {
  }

  lemma NoneIs()
    ensures !Is([], KEEP_ALIVE) && !Is([], CLOSE) && !Is([], UPGRADE)
  {
  }

  lemma SpaceComma()
    ensures Lower(',') == ',' && !IsToken(',')
  {
  }

  /** A byte that does not divide. */
  lemma Grows(s: Parser, f: Flags, e: Elements, ch: char)
    requires Reads(s, f, e) && IsValueChar(ch) && (ch == ',' ==> Unfinished(Unblanked(e.last)))
    ensures Reads(ValueChar(s, ch).s, f, e.(last := e.last + [ch]))
    ensures ValueChar(s, ch).s == s.(hs := ValueChar(s, ch).s.hs, index := ValueChar(s, ch).s.index)
  {
    var x, first, s' := Unblanked(e.last), e.done == [], ValueChar(s, ch).s;
    var y := Unblanked(e.last + [ch]);
    ReadsIs(s, f, e);
    UnblankedSnoc(e.last, ch);
    WithinIs(x, first);
    hide Unblanked, WithWords, Is, Begins, Unfinished;
    if !AllOpen(e.done) {
      QuietActs(s, ch);
    } else if x == [] {
      StartGrows(s, ch, y);
    } else {
      InsideGrows(s, x, ch, first);
    }
  }

  lemma StartGrows(s: Parser, ch: char, y: string)
    requires s.hs.ConnTokenStart? && IsValueChar(ch) && ch != ',' && y == if ch == ' ' then [] else [ch]
    ensures var s' := ValueChar(s, ch).s;
            s' == s.(hs := Within(y, false)) && (Matching(s'.hs) ==> |y| == 1)
  {
    StartActs(s, ch);
    SpaceOnly(ch);
    hide Lower, IsToken, ValueChar, Within, IsValueChar;
    if ch == ' ' { WithinNothing(); SpaceIsNoToken(); } else { WithinOne(ch, false); }
  }

  lemma SpaceIsNoToken()
    ensures Lower(' ') == ' ' && !IsToken(' ')
  {
  }

  lemma InsideGrows(s: Parser, x: string, ch: char, first: bool)
    requires x != [] && s.hs == Within(x, first) && (Matching(s.hs) ==> s.index == |x| - 1)
    requires IsValueChar(ch) && (ch == ',' ==> Unfinished(x))
    ensures var s' := ValueChar(s, ch).s;
            s' == s.(hs := Within(x + [ch], first), index := s'.index) && (Matching(s'.hs) ==> s'.index == |x|)
            && !s'.hs.ConnTokenStart?
  {
    WithinMore(x, ch, first);
    WithinIs(x, first);
    WithinSome(x + [ch], first);
    hide Within, Lower, ValueChar, Is, Begins, Unfinished, IsValueChar;
    if Matching(s.hs) {
      MatchActs(s, ch);
    } else if s.hs.General? || s.hs.ConnToken? {
      QuietActs(s, ch);
    } else {
      WithinSome(x, first);
      FoundActs(s, ch);
    }
  }

  lemma WithinSome(x: string, first: bool)
    requires x != []
    ensures Within(x, first) in {ConnMatchingKeepAlive, ConnMatchingClose, ConnMatchingUpgrade, ConnKeepAlive,
                                 ConnClose, ConnUpgrade, ConnToken, General}
  {
    hide Is, Begins, IsToken, Lower;
  }

  // ----- the line

  lemma EnterActs(s: Parser, ch: char)
    requires s.state.HeaderValueDiscardWs? && s.hs.ConnectionName? && IsValueChar(ch) && !IsBlank(ch)
    ensures Act(s, ch, true)
         == Effect(s.(state := HeaderValue, index := 0, hs := ConnectionWord(Lower(ch))), [Mark(Value)], false)
  {
    ActIs(s, ch, true);
    hide Act, Lower, ConnectionWord;
  }

  lemma FirstReads(s: Parser, ch: char)
    requires s.state.HeaderValue? && s.errno.OK? && s.hs == ConnectionWord(Lower(ch)) && s.index == 0 && ch != ' '
    ensures Reads(s, s.flags, Divided([ch]))
  {
    assert [ch][..0] == [];
    assert Divided([]) == Elements([], []);
    assert Divided([ch]) == Elements([], [] + [ch]) == Elements([], [ch]);
    WithinOne(ch, true);
    assert AllOpen([]) && !Said([], KEEP_ALIVE) && !Said([], CLOSE) && !Said([], UPGRADE);
    assert Unblanked([ch]) == [ch];
    hide Within, Lower, Said;
  }

  lemma EnterConnection(s: Parser, t: seq<Event>, ch: char, slack: nat)
    requires s.errno.OK? && s.state.HeaderValueDiscardWs? && s.hs.ConnectionName? && Room(s, 1, slack)
    requires IsValueChar(ch) && !IsBlank(ch)
    ensures var s' := s.(state := HeaderValue, index := 0, hs := ConnectionWord(Lower(ch)), nread := s.nread + 1);
            Goes(s, t, [ch], s', Push(t, Data(Value, [ch])), slack) && Reads(s', s.flags, Divided([ch]))
  {
    hide Push, Lower, ConnectionWord, Act, Reads, Goes;
    var c := Counted(s);
    EnterActs(c, ch);
    FirstReads(s.(state := HeaderValue, index := 0, hs := ConnectionWord(Lower(ch)), nread := s.nread + 1), ch);
    assert [Mark(Value)][1..] == [];
    GoesByte(s, t, ch, slack);
  }

  /** The count is no part of what the parser has read. */
  lemma ReadsCount(s: Parser, f: Flags, e: Elements, n: nat)
    requires Reads(s, f, e)
    ensures Reads(s.(nread := n), f, e)
  {
    hide StandsAt, WithWords;
  }

  lemma NextReads(s: Parser, f: Flags, v: string, ch: char)
    requires v != [] && Reads(s, f, Divided(v)) && IsValueChar(ch)
    ensures var r := ValueChar(s, ch).s;
            Reads(r, f, Divided(v + [ch])) && r == s.(hs := r.hs, index := r.index, flags := r.flags) && r.errno.OK?
  {
    hide Reads, ValueChar, Unfinished, IsValueChar;
    DividedSnoc(v, ch);
    assert s.errno.OK? by { ReadsIs(s, f, Divided(v)); }
    if ch == ',' && !Unfinished(Unblanked(Divided(v).last)) {
      Divides(s, f, Divided(v));
    } else {
      Grows(s, f, Divided(v), ch);
    }
  }

  lemma InConnection(s: Parser, t: seq<Event>, f: Flags, v: string, ch: char, slack: nat) returns (s': Parser)
    requires v != [] && Reads(s, f, Divided(v)) && IsValueChar(ch) && Room(s, 1, slack)
    ensures Goes(s, t, [ch], s', Push(t, Data(Value, [ch])), slack) && Reads(s', f, Divided(v + [ch]))
    ensures s' == s.(hs := s'.hs, index := s'.index, flags := s'.flags, nread := s.nread + 1)
  {
    hide Push, Act, Reads, Goes, ValueChar;
    ReadsIs(s, f, Divided(v));
    var c := Counted(s);
    assert c == s.(nread := s.nread + 1);
    ReadsCount(s, f, Divided(v), c.nread);
    NextReads(c, f, v, ch);
    s' := ValueChar(c, ch).s;
    assert Act(c, ch, true) == ValueChar(c, ch) by { ActIs(c, ch, true); }
    assert IsHeaderChar(ch);
    GoesByte(s, t, ch, slack);
  }

  lemma {:induction false} GoesList(s: Parser, t: seq<Event>, v: string, slack: nat) returns (s': Parser)
    requires s.errno.OK? && s.state.HeaderValueDiscardWs? && s.hs.ConnectionName? && Room(s, |v|, slack)
    requires v != [] && IsValue(v) && !IsBlank(v[0])
    ensures Goes(s, t, v, s', Push(t, Data(Value, v)), slack) && Reads(s', s.flags, Divided(v))
    ensures s' == s.(state := HeaderValue, hs := s'.hs, index := s'.index, flags := s'.flags, nread := s.nread + |v|)
  {
    hide Goes, IsValueChar, IsBlank, Push, Reads;
    var n := |v| - 1;
    if n == 0 {
      EnterConnection(s, t, v[0], slack);
      s' := s.(state := HeaderValue, index := 0, hs := ConnectionWord(Lower(v[0])), nread := s.nread + 1);
      assert v == [v[0]];
    } else {
      var d := v[..n];
      var s1 := GoesList(s, t, d, slack);
      var t1 := Push(t, Data(Value, d));
      s' := InConnection(s1, t1, s.flags, d, v[n], slack);
      PushTwice(t, Value, d, [v[n]]);
      assert d + [v[n]] == v;
      GoesOn(s, t, d, s1, t1, [v[n]], s', Push(t1, Data(Value, [v[n]])), slack);
    }
  }

  /** The flags after a Connection header with the value `v`. */
  function Heard(f: Flags, v: string): Flags {
    f.(connKeepAlive := f.connKeepAlive || (v != [] && Says(v, KEEP_ALIVE)),
       connClose := f.connClose || (v != [] && Says(v, CLOSE)),
       connUpgrade := f.connUpgrade || (v != [] && Says(v, UPGRADE)))
  }

  /** The byte after the line sets the flags of a word that ends the value. */
  lemma CommitReads(s: Parser, f: Flags, v: string)
    requires v != [] && Reads(s, f, Divided(v))
    ensures CommitValue(s) == s.(flags := Heard(f, v))
  {
    hide Within, Is, AllOpen, Unblanked, WithWords, CommitValue, Reads;
    var e := Divided(v);
    ReadsIs(s, f, e);
    EndOfList(s, f, e);
    WordsMore(f, e.done, e.last);
    CommitWords(s, Unblanked(e.last), AllOpen(e.done));
    assert Heard(f, v) == WithWords(f, e.done + [e.last]) by { HeardIs(f, v); }
  }

  lemma HeardIs(f: Flags, v: string)
    requires v != []
    ensures var e := Divided(v); Heard(f, v) == WithWords(f, e.done + [e.last])
  {
    hide Said, Divided;
  }

  lemma EndOfList(s: Parser, f: Flags, e: Elements)
    requires Reads(s, f, e)
    ensures var x, live := Unblanked(e.last), AllOpen(e.done);
            && !s.hs.Chunked?
            && (live ==> (s.hs.ConnKeepAlive? <==> Is(x, KEEP_ALIVE)) && (s.hs.ConnClose? <==> Is(x, CLOSE))
                         && (s.hs.ConnUpgrade? <==> Is(x, UPGRADE)))
            && (!live ==> s.hs.General?)
  {
    var x, first := Unblanked(e.last), e.done == [];
    ReadsIs(s, f, e);
    hide Reads, Is, AllOpen, Unblanked;
    WithinIs(x, first);
    NoneIs();
    if x != [] { WithinSome(x, first); } else { assert Within(x, first).ConnTokenStart?; }
    hide Within;
  }

  lemma CommitWords(s: Parser, x: string, live: bool)
    requires !s.hs.Chunked? && (!live ==> s.hs.General?)
    requires live ==> (s.hs.ConnKeepAlive? <==> Is(x, KEEP_ALIVE)) && (s.hs.ConnClose? <==> Is(x, CLOSE))
                      && (s.hs.ConnUpgrade? <==> Is(x, UPGRADE))
    ensures var f := s.flags;
            CommitValue(s)
            == s.(flags := f.(connKeepAlive := f.connKeepAlive || (live && Is(x, KEEP_ALIVE)),
                              connClose := f.connClose || (live && Is(x, CLOSE)),
                              connUpgrade := f.connUpgrade || (live && Is(x, UPGRADE))))
  {
    CommitIs(s);
    hide Is, CommitConnection;
  }

  /** A line up to its value without the blanks before it. */
  function Prefix(name: string, value: string): string { name + ": " + Blanks(value) }

  function AtValue(s: Parser, name: string, value: string): Parser
    requires name != []
  {
    NameState(s.(state := HeaderField), name).(state := HeaderValueDiscardWs, nread := s.nread + |Prefix(name, value)|)
  }

  lemma LineIs(name: string, value: string)
    ensures Line(name, value) == Prefix(name, value) + Trim(value) + CRLF
    ensures |Line(name, value)| == |Prefix(name, value)| + |Trim(value)| + 2
  {
    hide Trim, Blanks;
    BlanksThenTrim(value);
    assert name + ": " + (Blanks(value) + Trim(value)) == name + ": " + Blanks(value) + Trim(value);
  }

  lemma GoesToValue(s: Parser, t: seq<Event>, name: string, value: string, slack: nat)
    requires LineStart(s) && IsName(name) && name != [] && Room(s, |Line(name, value)|, slack)
    ensures Goes(s, t, Prefix(name, value), AtValue(s, name, value), Push(Settled(s, t), Data(Field, name)), slack)
    ensures var s' := AtValue(s, name, value);
            && s'.state.HeaderValueDiscardWs? && s'.errno.OK?
            && s' == s.(state := HeaderValueDiscardWs, hs := s'.hs, index := s'.index,
                nread := s.nread + |Prefix(name, value)|)
            && s'.hs == NameState(s.(state := HeaderField), name).hs
  {
    hide Goes, NameState, Push, LineStart, IsName, Trim, Blanks;
    LineIs(name, value);
    var s0, u := s.(state := HeaderField), Push(Settled(s, t), Data(Field, name));
    StartOk(s);
    NameOk(s0, name);
    var s1 := NameState(s0, name).(state := HeaderValueDiscardWs, nread := s.nread + |name| + 2);
    GoesPrefix(s, t, name, slack);
    GoesBlanks(s1, u, value, slack);
    GoesOn(s, t, name + ": ", s1, u, Blanks(value), AtValue(s, name, value), u, slack);
  }

  /** The rest of a line whose value is empty. */
  lemma GoesNoValue(s: Parser, t: seq<Event>, s2: Parser, u: seq<Event>, name: string, value: string, slack: nat)
    requires Goes(s, t, Prefix(name, value), s2, u, slack) && s2.errno.OK? && s2.state.HeaderValueDiscardWs?
    requires Trim(value) == [] && Room(s2, 2, slack)
    ensures Goes(s, t, Line(name, value), s2.(state := HeaderValueDiscardLws, nread := s2.nread + 2), u, slack)
  {
    hide Goes, Trim;
    LineIs(name, value);
    GoesEmptyEnd(s2, u, slack);
    GoesOn(s, t, Prefix(name, value), s2, u, CRLF, s2.(state := HeaderValueDiscardLws, nread := s2.nread + 2), u,
        slack);
    assert Prefix(name, value) + [] + CRLF == Prefix(name, value) + CRLF;
  }

  /** The rest of a line after its value. */
  lemma GoesAfterValue(s: Parser, t: seq<Event>, s2: Parser, u: seq<Event>, s3: Parser, name: string, value: string,
                       slack: nat)
    requires Goes(s, t, Prefix(name, value), s2, u, slack)
    requires Goes(s2, u, Trim(value), s3, Push(u, Data(Value, Trim(value))), slack)
    requires s3.errno.OK? && s3.state.HeaderValue? && Room(s3, 2, slack)
    ensures Goes(s, t, Line(name, value), s3.(state := HeaderValueLws, nread := s3.nread + 2),
                 Push(u, Data(Value, Trim(value))), slack)
  {
    hide Goes, Trim, Push;
    LineIs(name, value);
    var v, t' := Trim(value), Push(u, Data(Value, Trim(value)));
    GoesOn(s, t, Prefix(name, value), s2, u, v, s3, t', slack);
    GoesValueEnd(s3, u, v, slack);
    GoesOn(s, t, Prefix(name, value) + v, s3, t', CRLF, s3.(state := HeaderValueLws, nread := s3.nread + 2), t', slack);
  }

  /** A Connection or Proxy-Connection line, whatever its value: with the next byte the flags are what it says. */
  lemma GoesConnectionLine(s: Parser, t: seq<Event>, name: string, value: string, slack: nat)
    returns (s': Parser, t': seq<Event>)
    requires LineStart(s) && IsName(name) && LowerName(name) in {CONNECTION, PROXY_CONNECTION} && IsValue(value)
    requires Room(s, |Line(name, value)|, slack)
    ensures Goes(s, t, Line(name, value), s', t', slack) && s'.errno.OK?
    ensures s'.state.HeaderValueLws? || s'.state.HeaderValueDiscardLws?
    ensures Settled(s', t') == Push(Push(Settled(s, t), Data(Field, name)), Data(Value, Trim(value)))
    ensures s' == s.(state := s'.state, hs := s'.hs, index := s'.index, flags := s'.flags,
                     nread := s.nread + |Line(name, value)|)
    ensures CommitValue(s') == s'.(flags := Heard(s.flags, Trim(value)))
  {
    hide Goes, NameState, Push, LineStart, IsName, LowerName, IsValue, CommitValue, Trim, Blanks, Reads, Says, IsBlank,
      AtValue, Prefix, Line, Heard, Divided, Settled;
    var v, u := Trim(value), Push(Settled(s, t), Data(Field, name));
    NameNotEmpty(name);
    NameRecognised(s.(state := HeaderField), name);
    TrimIsValue(value);
    LineIs(name, value);
    GoesToValue(s, t, name, value, slack);
    var s2 := AtValue(s, name, value);
    if v == [] {
      s', t' := s2.(state := HeaderValueDiscardLws, nread := s2.nread + 2), u;
      GoesNoValue(s, t, s2, u, name, value, slack);
      NameCommits(s');
      NothingHeard(s.flags);
    } else {
      var s3 := GoesList(s2, u, v, slack);
      t' := Push(u, Data(Value, v));
      s' := s3.(state := HeaderValueLws, nread := s3.nread + 2);
      assert s3.errno.OK?;
      GoesAfterValue(s, t, s2, u, s3, name, value, slack);
      CommitReads(s3, s.flags, v);
      CommitMoved(s3, s3.nread + 2);
    }
    ValueSettled(s', t');
  }

  lemma NothingHeard(f: Flags)
    ensures Heard(f, []) == f
  {
  }

  lemma ValueSettled(s: Parser, t: seq<Event>)
    ensures Settled(s, t) == if s.state.HeaderValueDiscardLws? then Push(t, Data(Value, [])) else t
  {
  }

  lemma NameCommits(s: Parser)
    requires s.hs.ConnectionName?
    ensures CommitValue(s) == s
  {
  }

  lemma CommitMoved(s: Parser, n: nat)
    ensures CommitValue(s.(state := HeaderValueLws, nread := n)) == CommitValue(s).(state := HeaderValueLws, nread := n)
  {
  }

  // ----- lists of tokens

  function ListText(es: seq<string>): string {
    if es == [] then []
    else if |es| == 1 then es[0]
    else ListText(es[..|es| - 1]) + ", " + es[|es| - 1]
  }

  /** The elements as they stand in the list. */
  function Spaced(es: seq<string>): (r: seq<string>)
    ensures |r| == |es| && forall k :: 0 <= k < |es| ==> r[k] == if k == 0 then es[0] else " " + es[k]
  {
    if es == [] then []
    else if |es| == 1 then es
    else Spaced(es[..|es| - 1]) + [" " + es[|es| - 1]]
  }

  lemma LastOf(v: string, e: string)
    requires e != []
    ensures v + e == v + e[..|e| - 1] + [e[|e| - 1]]
  {
  }

  /** A token: no blank and no comma in it. */
  lemma {:induction false} DividedToken(v: string, e: string)
    requires v != [] && IsName(e) && !Unfinished(Unblanked(Divided(v).last))
    ensures Divided(v + ", " + e) == Elements(Divided(v).done + [Divided(v).last], " " + e)
    decreases |e|
  {
    hide Unfinished, IsToken;
    var n := |e| - 1;
    if n == 0 {
      DividedSnoc(v, ',');
      DividedSnoc(v + [','], ' ');
      assert [] + [' '] == " ";
      assert v + [','] + [' '] == v + ", ";
      NoComma(e[0]);
      DividedSnoc(v + ", ", e[0]);
      assert v + ", " + e == v + ", " + [e[0]] && " " + e == " " + [e[0]];
    } else {
      hide Divided, Unblanked;
      DividedToken(v, e[..n]);
      NoComma(e[n]);
      DividedSnoc(v + ", " + e[..n], e[n]);
      LastOf(v + ", ", e);
      LastOf(" ", e);
    }
  }

  lemma NoComma(c: char)
    requires IsToken(c)
    ensures c != ',' && c != ' ' && (c != '_' ==> IsToken(Lower(c)))
  {
  }

  lemma {:induction false} DividedFirst(e: string)
    requires IsName(e)
    ensures Divided(e) == Elements([], e)
  {
    hide Unfinished, IsToken;
    var n := |e| - 1;
    NoComma(e[n]);
    if n == 0 {
      assert e[..0] == [] && Divided([]) == Elements([], []);
      assert [] + [e[0]] == e;
    } else {
      DividedFirst(e[..n]);
      assert e[..n] + [e[n]] == e;
    }
  }

  /** Tokens none of which is an unfinished word, and none behind the first of which begins with `_`, for which the
      parser takes no token to begin. */
  predicate WholeTokens(es: seq<string>) {
    es != [] && forall k :: 0 <= k < |es| ==> IsName(es[k]) && !Unfinished(es[k]) && (k > 0 ==> es[k][0] != '_')
  }

  lemma TokenInList(e: string, first: bool)
    requires IsName(e) && (!first ==> e[0] != '_')
    ensures var x := if first then e else " " + e; Unblanked(x) == e && (!first ==> Opens(x))
  {
    NoComma(e[0]);
    assert (" " + e)[1..] == e;
    assert Unblanked(e) == e;
    hide IsToken, Lower;
  }

  lemma {:induction false} DividedList(es: seq<string>)
    requires WholeTokens(es)
    ensures ListText(es) != [] && Divided(ListText(es)) == Elements(Spaced(es[..|es| - 1]), Spaced(es)[|es| - 1])
    decreases |es|
  {
    hide Unfinished, IsName, Divided;
    var n := |es| - 1;
    NameNotEmpty(es[n]);
    if n == 0 {
      DividedFirst(es[0]);
      assert es[..0] == [] && Spaced([]) == [];
    } else {
      var init := es[..n];
      DividedList(init);
      TokenInList(es[n - 1], n == 1);
      assert Unblanked(Divided(ListText(init)).last) == es[n - 1];
      DividedToken(ListText(init), es[n]);
      assert Spaced(init[..n - 1]) + [Spaced(init)[n - 1]] == Spaced(init);
    }
  }

  /** A list of tokens, none of them an unfinished word, says a word if and only if the word is one of them. */
  lemma ListSays(es: seq<string>, word: string)
    requires WholeTokens(es)
    ensures Says(ListText(es), word) <==> exists k :: 0 <= k < |es| && Is(es[k], word)
  {
    hide Unfinished, IsName, Divided, ListText, Is, Unblanked, Opens;
    DividedList(es);
    var r := Spaced(es);
    assert Spaced(es[..|es| - 1]) + [r[|es| - 1]] == r;
    forall k | 0 <= k < |es|
      ensures Unblanked(r[k]) == es[k] && (k > 0 ==> Opens(r[k]))
    {
      TokenInList(es[k], k == 0);
    }
    if k :| 0 <= k < |es| && Is(es[k], word) {
      assert SaidAt(r, word, k);
    }
    if Said(r, word) {
      var k :| 0 <= k < |r| && SaidAt(r, word, k);
      assert Is(es[k], word);
    }
  }

  lemma {:induction false} DividedRest(v: string, w: string)
    requires v != [] && ',' !in w
    ensures Divided(v + w) == Elements(Divided(v).done, Divided(v).last + w)
    decreases |w|
  {
    hide Unfinished;
    if w == [] {
      assert v + w == v && Divided(v).last + w == Divided(v).last;
    } else {
      var n := |w| - 1;
      assert w == w[..n] + [w[n]];
      DividedRest(v, w[..n]);
      DividedSnoc(v + w[..n], w[n]);
      assert v + w[..n] + [w[n]] == v + w && Divided(v).last + w[..n] + [w[n]] == Divided(v).last + w;
    }
  }

  lemma CommaIsNoWord(x: string, w: string, word: string)
    requires IsWord(word)
    ensures !Is(x + "," + w, word)
  {
    var v := x + "," + w;
    assert v[|x|] == ',';
    WordHasNoComma(word);
    hide IsWord, Lower;
    assert Lower(',') == ',' by { SpaceComma(); }
  }

  lemma NotBlankFirst(v: string)
    requires v != [] && v[0] != ' '
    ensures Unblanked(v) == v
  {
  }

  /** An unfinished word hides what comes behind its comma: the comma is taken for a part of it. */
  lemma UnfinishedHides(x: string, w: string, word: string)
    requires IsName(x) && Unfinished(x) && ',' !in w && IsWord(word)
    ensures !Says(x + "," + w, word)
  {
    var v := x + "," + w;
    NoComma(x[0]);
    DividedFirst(x);
    NotBlankFirst(x);
    hide Unblanked, Divided, Unfinished, IsWord, IsToken;
    DividedSnoc(x, ',');
    DividedRest(x + [','], w);
    assert x + [','] + w == v && v[0] == x[0];
    NotBlankFirst(v);
    CommaIsNoWord(x, w, word);
    hide Is;
  }

  lemma WordHasNoComma(word: string)
    requires IsWord(word)
    ensures ',' !in word && word != []
  {
  }

  /** So this value does not say close. */
  lemma KeepHidesClose()
    ensures !Says("keep" + "," + " close", CLOSE)
  {
    assert IsName("keep");
    assert KEEP_ALIVE[..4] == "keep";
    assert forall i :: 0 <= i < 4 ==> Lower("keep"[i]) == "keep"[i] == KEEP_ALIVE[i];
    assert Begins("keep", KEEP_ALIVE);
    UnfinishedHides("keep", " close", CLOSE);
  }
}
