/** Heads and bytes that are refused, where and with which error. */
module Refusals {
  import opened Bytes
  import opened Trace
  import opened Machine
  import opened Bytewise
  import opened Scans
  import opened Feeding
  import opened Journeys
  import opened HeaderNames
  import opened HeaderLines
  import opened Lengths
  import opened Fields
  import opened StartLines
  import opened Messages
  import Requests

  lemma DeadFails(s: Parser, t: seq<Event>, ch: char)
    requires s.state.Dead? && ch != CR && ch != LF
    ensures FailsWith(s, t, ch, ClosedConnection)
  {
  }

  predicate FailsWith(s: Parser, t: seq<Event>, ch: char, errno: Errno) {
    var e := Act(Counted(s), ch, true);
    !errno.OK? && e.s.errno == errno && Emit(t, Resume(s.state), e.acts, ch, false) == t
  }

  /** A byte that fails ends the run, and the callbacks are those before it. */
  lemma FailsAt(s: Parser, t: seq<Event>, a: string, s1: Parser, t1: seq<Event>, ch: char, rest: string, errno: Errno)
    requires Goes(s, t, a, s1, t1, 0) && FailsWith(s1, t1, ch, errno)
    ensures var o := Run(false, s, t, a + [ch] + rest);
            o.halt.Failed? && o.n == |a| && o.s.errno == errno && o.trace == t1
  {
    hide Goes, Run, Act, Emit;
    assert Run(false, s, t, a) == Outcome(s1, t1, false, |a|, Running) by { GoesIs(s, t, a, s1, t1); }
    assert (a + [ch])[..|a|] == a && (a + [ch])[..|a| + 1] == a + [ch];
    RunSnoc(false, s, t, a + [ch], |a|);
    StopsHere(s, t, a + [ch], rest);
  }

  /** After a message that ends the connection only empty lines may follow; any other byte is refused. */
  lemma ClosedAfter(s: Parser, t: seq<Event>, m: Message, ch: char, rest: string)
    requires AtStart(s, m.head.start) && GoodMessage(m, MAX_HEADER_SIZE) && Room(s, |HeadText(m.head)|, 0)
    requires !GoesOnAfter(m.head) && !m.body.Rest? && ch != CR && ch != LF
    ensures var o := Run(false, s, t, MessageText(m) + [ch] + rest);
            o.halt.Failed? && o.n == |MessageText(m)| && o.s.errno.ClosedConnection? && o.trace == t + MessageEvents(m)
  {
    hide Goes, GoodMessage, MessageText, MessageEvents, HeadText, GoesOnAfter, Run, FailsWith;
    var s' := GoesMessage(s, t, m, 0);
    DeadFails(s', t + MessageEvents(m), ch);
    FailsAt(s, t, MessageText(m), s', t + MessageEvents(m), ch, rest, ClosedConnection);
  }

  lemma BothFail(s: Parser, t: seq<Event>, h: Head)
    requires s.state.HeadersAlmostDone? && Knows(s, h) && SaysChunked(h.fields) && HasLength(h.fields)
    ensures FailsWith(s, t, LF, UnexpectedContentLength)
  {
    hide SaysChunked, HasLength, SaysWord, SaysUpgrade, LengthSaid, Code;
    ActIs(Counted(s), LF, true);
    hide Act;
  }

  /** A head with chunks and a length is refused at its last byte, whatever follows. */
  lemma BothRefused(s: Parser, t: seq<Event>, h: Head, rest: string)
    requires AtStart(s, h.start) && GoodStart(h.start) && GoodFields(h.fields) && Room(s, |HeadText(h)|, 0)
    requires SaysChunked(h.fields) && HasLength(h.fields)
    ensures var o := Run(false, s, t, HeadText(h) + rest);
            o.halt.Failed? && o.n == |HeadText(h)| - 1 && o.s.errno.UnexpectedContentLength?
                && o.trace == t + FieldEvents(h)
  {
    hide Goes, Knows, GoodStart, GoodFields, HeadText, FieldEvents, Run, FailsWith, SaysChunked, HasLength;
    var r := GoesAlmostHead(s, t, h, 0);
    BothFail(r, t + FieldEvents(h), h);
    var a := HeadText(h)[..|HeadText(h)| - 1];
    HeadSplit(t, h);
    FailsAt(s, t, a, r, t + FieldEvents(h), LF, rest, UnexpectedContentLength);
  }

  lemma SecondFails(s: Parser, t: seq<Event>, d: char)
    requires s.errno.OK? && s.state.HeaderValueDiscardWs? && s.hs.ContentLengthName? && s.flags.contentLength
             && IsNum(d)
    ensures FailsWith(s, t, d, UnexpectedContentLength)
  {
    hide IsNum;
    DigitIsValueChar(d);
    ActIs(Counted(s), d, true);
    hide Act;
  }

  lemma NameBegins(name: string)
    requires IsName(name)
    ensures name != [] && name + ": " != [] && !IsBlank((name + ": ")[0])
  {
    TokenIsNotBlank(name[0]);
    assert (name + ": ")[0] == name[0];
  }

  lemma FieldAppended(t: seq<Event>, hs: seq<(string, string)>, name: string)
    requires Requests.NoOpenField(t)
    ensures Push(t + Requests.HeaderEvents(hs), Data(Field, name))
            == t + Requests.HeaderEvents(hs) + [Data(Field, name)]
  {
    OpenAfter(t, hs);
    hide Requests.HeaderEvents;
  }

  lemma SecondKnows(s: Parser, hs: seq<(string, string)>, name: string)
    requires LineStart(s) && s.flags == FlagsSaid(hs) && HasLength(hs) && IsName(name)
    ensures var r := NameState(s.(state := HeaderField), name); r.errno.OK? && r.flags.contentLength
  {
    NameBegins(name);
    NameOk(s.(state := HeaderField), name);
    hide IsName, NameState, HasLength, SaysChunked, SaysWord, SaysUpgrade, CommitValue;
  }

  /** A second Content-Length is refused at its first digit, even if it says the same number. */
  lemma SecondLengthRefused(s: Parser, t: seq<Event>, l: Start, hs: seq<(string, string)>, name: string, d: char,
      rest: string)
    requires AtStart(s, l) && GoodStart(l) && GoodFields(hs) && HasLength(hs)
    requires IsName(name) && LowerName(name) == CONTENT_LENGTH && IsNum(d)
    requires Room(s, |StartText(l) + Requests.HeaderText(hs) + (name + ": ")|, 0)
    ensures var a := StartText(l) + Requests.HeaderText(hs) + (name + ": ");
            var o := Run(false, s, t, a + [d] + rest);
            o.halt.Failed? && o.n == |a| && o.s.errno.UnexpectedContentLength?
            && o.trace == t + StartEvents(l) + Requests.HeaderEvents(hs) + [Data(Field, name)]
  {
    hide Goes, GoodStart, GoodFields, StartText, StartEvents, Requests.HeaderText, Requests.HeaderEvents, Settled,
      LineStart, Between, Committed, HasRead, HasStarted, HasLength, Run, FailsWith, IsName,
      IsNum, NameState, LowerName, Push;
    var t1 := t + StartEvents(l);
    var s1 := GoesStart(s, t, l, 0);
    StartedSo(s, l, s1);
    StartOpens(t, l);
    var s2, t2 := GoesFields(s1, t1, hs, 0);
    GoesOn(s, t, StartText(l), s1, t1, Requests.HeaderText(hs), s2, t2, 0);
    ReadSo(s1, hs, s2);
    var r := Committed(s2);
    var u := Push(t1 + Requests.HeaderEvents(hs), Data(Field, name));
    GoesPrefix(r, t2, name, 0);
    NameBegins(name);
    NameRecognised(r.(state := HeaderField), name);
    var s3 := NameState(r.(state := HeaderField), name).(state := HeaderValueDiscardWs, nread := r.nread + |name| + 2);
    GoesCommitted(s2, t2, name + ": ", s3, u, 0);
    GoesOn(s, t, StartText(l) + Requests.HeaderText(hs), s2, t2, name + ": ", s3, u, 0);
    assert u == t1 + Requests.HeaderEvents(hs) + [Data(Field, name)] by { FieldAppended(t1, hs, name); }
    SecondKnows(r, hs, name);
    SecondFails(s3, u, d);
    FailsAt(s, t, StartText(l) + Requests.HeaderText(hs) + (name + ": "), s3, u, d, rest, UnexpectedContentLength);
  }
}
