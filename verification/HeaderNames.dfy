/** The header-name matcher recognises exactly five names, in any letter case. */
module HeaderNames {
  import opened Bytes
  import opened Machine

  /** The name as the `tokens` table maps it. */
  function LowerName(name: string): (r: string)
    ensures |r| == |name|
  {
    if name == [] then [] else LowerName(name[..|name| - 1]) + [Token(name[|name| - 1])]
  }

  predicate IsName(name: string) { name != [] && forall i :: 0 <= i < |name| ==> IsToken(name[i]) }

  /** Where the matcher stands after the lower-cased bytes `w`, by what `w` begins. */
  function Classify(w: string): HeaderState {
    if w == "c" then C
    else if w == "co" then CO
    else if w == "con" then CON
    else if w <= CONNECTION then Whole(w, CONNECTION, ConnectionName, MatchingConnection)
    else if w <= CONTENT_LENGTH then Whole(w, CONTENT_LENGTH, ContentLengthName, MatchingContentLength)
    else if w <= PROXY_CONNECTION then Whole(w, PROXY_CONNECTION, ConnectionName, MatchingProxyConnection)
    else if w <= TRANSFER_ENCODING then Whole(w, TRANSFER_ENCODING, TransferEncodingName, MatchingTransferEncoding)
    else if w <= UPGRADE then Whole(w, UPGRADE, UpgradeName, MatchingUpgrade)
    else General
  }

  function Whole(w: string, word: string, hit: HeaderState, part: HeaderState): HeaderState {
    if |w| == |word| then hit else part
  }

  /** The matcher after the bytes of a name. */
  function NameState(s: Parser, name: string): Parser
    requires name != []
  {
    if |name| == 1 then s.(index := 0, hs := FirstHeaderState(Token(name[0])))
    else FieldChar(NameState(s, name[..|name| - 1]), name[|name| - 1])
  }

  predicate Partial(hs: HeaderState) {
    hs.C? || hs.CO? || hs.CON? || hs.MatchingConnection? || hs.MatchingContentLength? || hs.MatchingProxyConnection?
    || hs.MatchingTransferEncoding? || hs.MatchingUpgrade?
  }

  ghost predicate Standing(s: Parser, w: string) {
    w != [] && s.hs == Classify(w) && (Partial(s.hs) ==> s.index == |w| - 1)
  }

  lemma PrefixSnoc(w: string, c: char, word: string)
    ensures w + [c] <= word <==> w <= word && |w| < |word| && word[|w|] == c
  {
    if w + [c] <= word {
      assert (w + [c])[|w|] == c;
      assert w == (w + [c])[..|w|];
    }
    if w <= word && |w| < |word| && word[|w|] == c {
      assert word[..|w| + 1] == w + [c];
    }
  }

  lemma Distinct(w: string)
    ensures w <= CONNECTION && w <= CONTENT_LENGTH ==> |w| <= 3
    ensures (w <= CONNECTION || w <= CONTENT_LENGTH) && w <= PROXY_CONNECTION ==> w == []
    ensures (w <= CONNECTION || w <= CONTENT_LENGTH || w <= PROXY_CONNECTION) && w <= TRANSFER_ENCODING ==> w == []
    ensures w <= UPGRADE && (w <= CONNECTION || w <= CONTENT_LENGTH || w <= PROXY_CONNECTION || w <= TRANSFER_ENCODING)
            ==> w == []
  {
    if w != [] {
      assert CONNECTION[0] == 'c' && CONTENT_LENGTH[0] == 'c' && PROXY_CONNECTION[0] == 'p';
      assert TRANSFER_ENCODING[0] == 't' && UPGRADE[0] == 'u';
    }
    if |w| > 3 {
      assert CONNECTION[3] == 'n' && CONTENT_LENGTH[3] == 't';
    }
  }

  /** `w` begins none of the words. */
  predicate Foreign(w: string) {
    !(w <= CONNECTION) && !(w <= CONTENT_LENGTH) && !(w <= PROXY_CONNECTION) && !(w <= TRANSFER_ENCODING)
    && !(w <= UPGRADE)
  }

  lemma ForeignIsGeneral(w: string)
    requires w != []
    ensures Classify(w) == General <==> Foreign(w)
  {
    if Foreign(w) {
      assert "c" <= CONNECTION && "co" <= CONNECTION && "con" <= CONNECTION;
    }
  }

  lemma ForeignStays(w: string, c: char)
    requires Foreign(w)
    ensures Foreign(w + [c])
  {
    PrefixSnoc(w, c, CONNECTION);
    PrefixSnoc(w, c, CONTENT_LENGTH);
    PrefixSnoc(w, c, PROXY_CONNECTION);
    PrefixSnoc(w, c, TRANSFER_ENCODING);
    PrefixSnoc(w, c, UPGRADE);
  }

  /** One byte beyond `con` the two words that share it part. */
  lemma NextShort(s: Parser, w: string, ch: char)
    requires Standing(s, w) && IsToken(ch) && s.hs in {C, CO, CON}
    ensures Standing(FieldChar(s, ch), w + [Token(ch)])
  {
    hide Token;
    var c := Token(ch);
    assert CONNECTION[..4] == "conn" && CONTENT_LENGTH[..4] == "cont";
    PrefixSnoc(w, c, CONNECTION);
    PrefixSnoc(w, c, CONTENT_LENGTH);
    Distinct(w);
    PrefixSnoc(w, c, PROXY_CONNECTION);
    PrefixSnoc(w, c, TRANSFER_ENCODING);
    PrefixSnoc(w, c, UPGRADE);
    assert w == "c" || w == "co" || w == "con";
    assert "c" + ['o'] == "co" && "co" + ['n'] == "con";
  }

  /** The classes of a word that is being matched. */
  predicate WordClass(word: string, hit: HeaderState, part: HeaderState) {
    (word == CONNECTION && hit == ConnectionName && part == MatchingConnection)
    || (word == CONTENT_LENGTH && hit == ContentLengthName && part == MatchingContentLength)
    || (word == PROXY_CONNECTION && hit == ConnectionName && part == MatchingProxyConnection)
    || (word == TRANSFER_ENCODING && hit == TransferEncodingName && part == MatchingTransferEncoding)
    || (word == UPGRADE && hit == UpgradeName && part == MatchingUpgrade)
  }

  lemma ClassOf(w: string, word: string, hit: HeaderState, part: HeaderState)
    requires WordClass(word, hit, part) && w != [] && w <= word
    requires word == CONNECTION || word == CONTENT_LENGTH ==> |w| > 3
    ensures Classify(w) == Whole(w, word, hit, part)
  {
    Distinct(w);
  }

  lemma LeavesWord(w: string, c: char, word: string, hit: HeaderState, part: HeaderState)
    requires WordClass(word, hit, part) && w != [] && w <= word && !(w + [c] <= word)
    requires word == CONNECTION || word == CONTENT_LENGTH ==> |w| > 3
    ensures Foreign(w + [c])
  {
    Distinct(w);
    PrefixSnoc(w, c, CONNECTION);
    PrefixSnoc(w, c, CONTENT_LENGTH);
    PrefixSnoc(w, c, PROXY_CONNECTION);
    PrefixSnoc(w, c, TRANSFER_ENCODING);
    PrefixSnoc(w, c, UPGRADE);
  }

  lemma NextInWord(s: Parser, w: string, ch: char, word: string, hit: HeaderState, part: HeaderState)
    requires WordClass(word, hit, part) && w != [] && w <= word && |w| < |word| && s.hs == part && s.index == |w| - 1
    requires word == CONNECTION || word == CONTENT_LENGTH ==> |w| > 3
    requires FieldChar(s, ch) == MatchWord(s, word, Token(ch), hit, General)
    ensures Standing(FieldChar(s, ch), w + [Token(ch)])
  {
    hide FieldChar, Token, Foreign, Classify, WordClass;
    var c := Token(ch);
    PrefixSnoc(w, c, word);
    if w + [c] <= word {
      ClassOf(w + [c], word, hit, part);
    } else {
      LeavesWord(w, c, word, hit, part);
      ForeignIsGeneral(w + [c]);
    }
  }

  lemma NextPastWord(s: Parser, w: string, ch: char, word: string, hit: HeaderState, part: HeaderState)
    requires WordClass(word, hit, part) && w == word && FieldChar(s, ch) == s.(hs := General)
    ensures Standing(FieldChar(s, ch), w + [Token(ch)])
  {
    hide FieldChar, Token, Foreign, Classify;
    LeavesWord(w, Token(ch), word, hit, part);
    ForeignIsGeneral(w + [Token(ch)]);
  }

  lemma NotSpace(ch: char)
    requires IsToken(ch)
    ensures ch != ' '
  {
  }

  lemma NextChar(s: Parser, w: string, ch: char)
    requires Standing(s, w) && IsToken(ch)
    ensures Standing(FieldChar(s, ch), w + [Token(ch)])
  {
    hide Token, IsToken, Foreign, MatchWord;
    NotSpace(ch);
    if s.hs in {C, CO, CON} {
      NextShort(s, w, ch);
    } else if w <= CONNECTION {
      ShortPrefix(w);
      if w == CONNECTION { NextPastWord(s, w, ch, CONNECTION, ConnectionName, MatchingConnection); }
      else { NextInWord(s, w, ch, CONNECTION, ConnectionName, MatchingConnection); }
    } else if w <= CONTENT_LENGTH {
      ShortPrefix(w);
      if w == CONTENT_LENGTH { NextPastWord(s, w, ch, CONTENT_LENGTH, ContentLengthName, MatchingContentLength); }
      else { NextInWord(s, w, ch, CONTENT_LENGTH, ContentLengthName, MatchingContentLength); }
    } else if w <= PROXY_CONNECTION {
      if w == PROXY_CONNECTION { NextPastWord(s, w, ch, PROXY_CONNECTION, ConnectionName, MatchingProxyConnection); }
      else { NextInWord(s, w, ch, PROXY_CONNECTION, ConnectionName, MatchingProxyConnection); }
    } else if w <= TRANSFER_ENCODING {
      if w == TRANSFER_ENCODING {
        NextPastWord(s, w, ch, TRANSFER_ENCODING, TransferEncodingName, MatchingTransferEncoding);
      } else { NextInWord(s, w, ch, TRANSFER_ENCODING, TransferEncodingName, MatchingTransferEncoding); }
    } else if w <= UPGRADE {
      if w == UPGRADE { NextPastWord(s, w, ch, UPGRADE, UpgradeName, MatchingUpgrade); }
      else { NextInWord(s, w, ch, UPGRADE, UpgradeName, MatchingUpgrade); }
    } else {
      ForeignIsGeneral(w);
      assert Foreign(w);
      ForeignStays(w, Token(ch));
      ForeignIsGeneral(w + [Token(ch)]);
    }
  }

  lemma ShortPrefix(w: string)
    requires w != [] && w != "c" && w != "co" && w != "con"
    ensures w <= CONNECTION || w <= CONTENT_LENGTH ==> |w| > 3
  {
  }

  lemma FirstChar(s: Parser, ch: char)
    requires IsToken(ch)
    ensures Standing(s.(index := 0, hs := FirstHeaderState(Token(ch))), [Token(ch)])
  {
    hide Token;
    var w := [Token(ch)];
    assert CONNECTION[0] == 'c' && CONTENT_LENGTH[0] == 'c' && PROXY_CONNECTION[0] == 'p' && TRANSFER_ENCODING[0] == 't'
      && UPGRADE[0] == 'u';
  }

  /** The matcher after any name stands where the name's lower-cased text puts it. */
  lemma {:induction false} NameStands(s: Parser, name: string)
    requires IsName(name)
    ensures Standing(NameState(s, name), LowerName(name))
  {
    hide Token, FieldChar, Standing;
    var n := |name| - 1;
    if n == 0 {
      FirstChar(s, name[0]);
      assert name[..0] == [];
      assert LowerName(name) == [Token(name[0])];
    } else {
      NameStands(s, name[..n]);
      NextChar(NameState(s, name[..n]), LowerName(name[..n]), name[n]);
    }
  }

  /** A header is treated as one of the five exactly when its name, in whatever case, is one of the five. */
  lemma NameRecognised(s: Parser, name: string)
    requires IsName(name)
    ensures var hs, w := NameState(s, name).hs, LowerName(name);
            && (hs == ContentLengthName <==> w == CONTENT_LENGTH)
            && (hs == TransferEncodingName <==> w == TRANSFER_ENCODING)
            && (hs == UpgradeName <==> w == UPGRADE)
            && (hs == ConnectionName <==> w == CONNECTION || w == PROXY_CONNECTION)
  {
    hide NameState;
    NameStands(s, name);
    var w := LowerName(name);
    Distinct(w);
  }
}
