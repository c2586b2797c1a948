/** Content-Length: read exactly, or refused. */
module Lengths {
  import opened Bytes
  import opened Trace
  import opened Machine
  import opened Bytewise
  import opened Marks
  import opened Scans
  import opened Journeys
  import opened HeaderNames
  import opened HeaderLines

  predicate IsDigits(ds: string) { ds != [] && forall i :: 0 <= i < |ds| ==> IsNum(ds[i]) }

  /** The number that the digits `ds` make after the value `c`. */
  function DecFrom(c: nat, ds: string): nat
    requires forall i :: 0 <= i < |ds| ==> IsNum(ds[i])
  {
    if ds == [] then c else DecFrom(c, ds[..|ds| - 1]) * 10 + Digit(ds[|ds| - 1])
  }

  /** The greatest length that passes the overflow test. */
  const MAX_LENGTH: nat := (ULLONG_MAX - 10) / 10 * 10 + 9

  /** The decimal digits of `n`, as Lua prints an integer. */
  function Decimal(n: nat): (ds: string)
    ensures IsDigits(ds) && DecFrom(0, ds) == n
  {
    var last := (n % 10 + '0' as int) as char;
    assert IsNum(last) && Digit(last) == n % 10;
    if n < 10 then
      assert [last][..0] == [];
      assert DecFrom(0, [last]) == DecFrom(0, []) * 10 + Digit(last);
      [last]
    else
      var ds := Decimal(n / 10) + [last];
      assert ds[..|ds| - 1] == Decimal(n / 10);
      ds
  }

  lemma DigitIsValueChar(ch: char)
    requires IsNum(ch)
    ensures IsValueChar(ch) && !IsBlank(ch) && ch != ' '
  {
  }

  lemma EnterLength(s: Parser, t: seq<Event>, ch: char, slack: nat)
    requires s.errno.OK? && s.state.HeaderValueDiscardWs? && s.hs.ContentLengthName? && !s.flags.contentLength
    requires IsNum(ch) && Room(s, 1, slack)
    ensures Goes(s, t, [ch], s.(state := HeaderValue, index := 0, nread := s.nread + 1, contentLength := Digit(ch),
                                flags := s.flags.(contentLength := true)),
                 Push(t, Data(Value, [ch])), slack)
  {
    hide IsHeaderChar, IsNum, Push;
    DigitIsValueChar(ch);
    var c := Counted(s);
    assert Act(c, ch, true) == ActValueStart(c, ch);
    assert [Mark(Value)][1..] == [];
    GoesByte(s, t, ch, slack);
  }

  lemma NextDigit(s: Parser, t: seq<Event>, ch: char, slack: nat)
    requires s.errno.OK? && s.state.HeaderValue? && s.hs.ContentLengthName? && IsNum(ch) && Room(s, 1, slack)
    requires s.contentLength * 10 + Digit(ch) <= MAX_LENGTH
    ensures Goes(s, t, [ch], s.(nread := s.nread + 1, contentLength := s.contentLength * 10 + Digit(ch)),
                 Push(t, Data(Value, [ch])), slack)
  {
    hide IsHeaderChar, IsNum, Push;
    DigitIsValueChar(ch);
    var c := Counted(s);
    assert Act(c, ch, true) == ContentLengthDigit(c, ch);
    assert (s.contentLength * 10 + Digit(ch)) % TWO_64 == s.contentLength * 10 + Digit(ch);
    GoesByte(s, t, ch, slack);
  }

  lemma {:induction false} GoesDigits(s: Parser, t: seq<Event>, ds: string, slack: nat)
    requires s.errno.OK? && s.state.HeaderValueDiscardWs? && s.hs.ContentLengthName? && !s.flags.contentLength
    requires IsDigits(ds) && DecFrom(0, ds) <= MAX_LENGTH && Room(s, |ds|, slack)
    ensures Goes(s, t, ds, s.(state := HeaderValue, index := 0, nread := s.nread + |ds|,
                              contentLength := DecFrom(0, ds), flags := s.flags.(contentLength := true)),
                 Push(t, Data(Value, ds)), slack)
  {
    hide Goes, IsNum, Push, Digit;
    var n := |ds| - 1;
    var d := ds[..n];
    if n == 0 {
      assert ds == [ds[0]] && d == [];
      EnterLength(s, t, ds[0], slack);
    } else {
      GoesDigits(s, t, d, slack);
      var s1 := s.(state := HeaderValue, index := 0, nread := s.nread + n, contentLength := DecFrom(0, d),
                   flags := s.flags.(contentLength := true));
      var t1 := Push(t, Data(Value, d));
      NextDigit(s1, t1, ds[n], slack);
      PushTwice(t, Value, d, [ds[n]]);
      assert d + [ds[n]] == ds;
      GoesOn(s, t, d, s1, t1, [ds[n]], s1.(nread := s1.nread + 1, contentLength := DecFrom(0, ds)),
             Push(t1, Data(Value, [ds[n]])), slack);
    }
  }

  lemma DigitFails(s: Parser, t: seq<Event>, ch: char)
    requires s.errno.OK? && s.state.HeaderValue? && s.hs.ContentLengthName? && IsNum(ch)
    requires s.contentLength * 10 + Digit(ch) > MAX_LENGTH
    ensures Run(false, s, t, [ch]).halt.Failed? && Run(false, s, t, [ch]).s.errno.InvalidContentLength?
  {
    hide IsHeaderChar, IsNum, Push;
    DigitIsValueChar(ch);
    DigitRange(ch);
    var c := Counted(s);
    assert Act(c, ch, true) == ContentLengthDigit(c, ch);
    assert [ch][..0] == [];
    RunEmpty(s, t);
  }

  /** A length beyond the limit is refused: the number kept never wraps around. */
  lemma {:induction false} DigitsRefused(s: Parser, t: seq<Event>, ds: string)
    requires s.errno.OK? && s.state.HeaderValueDiscardWs? && s.hs.ContentLengthName? && !s.flags.contentLength
    requires IsDigits(ds) && DecFrom(0, ds) > MAX_LENGTH && Room(s, |ds|, 0)
    ensures var o := Run(false, s, t, ds); o.halt.Failed? && o.s.errno.InvalidContentLength?
  {
    hide IsNum, Push, Digit, Run;
    var n := |ds| - 1;
    var d := ds[..n];
    assert d + [ds[n]] == ds;
    if n == 0 {
      assert d == [];
      DigitRange(ds[0]);
      assert false;
    } else if DecFrom(0, d) > MAX_LENGTH {
      DigitsRefused(s, t, d);
      RunAppend(s, t, d, [ds[n]]);
    } else {
      GoesDigits(s, t, d, 0);
      var s1 := s.(state := HeaderValue, index := 0, nread := s.nread + n, contentLength := DecFrom(0, d),
                   flags := s.flags.(contentLength := true));
      RunAppend(s, t, d, [ds[n]]);
      DigitFails(s1, Push(t, Data(Value, d)), ds[n]);
    }
  }

  lemma DigitRange(ch: char)
    requires IsNum(ch)
    ensures Digit(ch) <= 9
  {
  }

  /** A Content-Length line, in whatever case: the length is exactly the number written. */
  lemma GoesLengthLine(s: Parser, t: seq<Event>, name: string, ds: string, slack: nat)
      returns (s': Parser, t': seq<Event>)
    requires LineStart(s) && IsName(name) && LowerName(name) == CONTENT_LENGTH && !s.flags.contentLength
    requires IsDigits(ds) && DecFrom(0, ds) <= MAX_LENGTH && Room(s, |Line(name, ds)|, slack)
    ensures Goes(s, t, Line(name, ds), s', t', slack)
    ensures LineStart(s') && Settled(s', t') == Push(Push(Settled(s, t), Data(Field, name)), Data(Value, ds))
    ensures s' == s.(state := s'.state, hs := s'.hs, index := s'.index, nread := s.nread + |Line(name, ds)|,
                     contentLength := DecFrom(0, ds), flags := s.flags.(contentLength := true))
  {
    hide Goes, NameState, Push, LineStart, IsName, DecFrom, IsNum, CommitValue;
    var u := Push(Settled(s, t), Data(Field, name));
    StartOk(s);
    NameNotEmpty(name);
    NameOk(s.(state := HeaderField), name);
    NameRecognised(s.(state := HeaderField), name);
    var s1 := NameState(s.(state := HeaderField), name).(state := HeaderValueDiscardWs, nread := s.nread + |name| + 2);
    var s2 := s1.(state := HeaderValue, index := 0, nread := s1.nread + |ds|, contentLength := DecFrom(0, ds),
                  flags := s1.flags.(contentLength := true));
    s' := s2.(state := HeaderValueLws, nread := s2.nread + 2);
    t' := Push(u, Data(Value, ds));
    GoesPrefix(s, t, name, slack);
    GoesDigits(s1, u, ds, slack);
    GoesOn(s, t, name + ": ", s1, u, ds, s2, t', slack);
    GoesValueEnd(s2, u, ds, slack);
    GoesOn(s, t, name + ": " + ds, s2, t', CRLF, s', t', slack);
    assert name + ": " + ds + CRLF == Line(name, ds);
    assert LineStart(s') by { LengthStarts(s'); }
  }

  lemma LengthStarts(s: Parser)
    requires s.errno.OK? && s.hs.ContentLengthName? && s.state.HeaderValueLws?
    ensures LineStart(s)
  {
  }
}
