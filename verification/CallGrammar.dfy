/** The callback grammar on whole connections: any bytes, any pieces, any early end. */
module CallGrammar {
  import opened Bytes
  import opened Trace
  import opened Machine
  import opened Bytewise
  import opened Marks
  import opened Invariant
  import opened Limits
  import opened HttpParser
  import opened Grammar
  import opened Announced

  lemma PushBad(t: seq<Event>, e: Event)
    requires Parse(t).Bad?
    ensures Parse(Push(t, e)).Bad?
  {
    hide Follow, Parse;
    if t == [] {
      assert Parse([]) == At(Idle) by { ParseNone(); }
    } else {
      var init, last := t[..|t| - 1], t[|t| - 1];
      assert t == init + [last];
      ParseSnoc(init, last);
      ParseSnoc(t, e);
      if e.Data? && last.Data? && last.kind == e.kind {
        ParseSnoc(init, Data(e.kind, last.bytes + e.bytes));
        if Parse(init).At? { FollowSame(Parse(init).phase, e.kind, last.bytes, last.bytes + e.bytes); }
      }
    }
  }

  lemma ParseNone()
    ensures Parse([]) == At(Idle)
  {
  }

  lemma FollowSame(g: Phase, k: DataKind, a: string, b: string)
    ensures Follow(g, Data(k, a)).Bad? <==> Follow(g, Data(k, b)).Bad?
  {
  }

  /** Callbacks cut short by an error are a prefix of the grammar too. */
  lemma ShortGrammar(calls: seq<Event>, t: seq<Event>)
    requires Short(calls, t) && Parse(t).At?
    ensures Parse(Merge(calls)).At?
  {
    hide Parse, Merge, Push;
    if Parse(Merge(calls)).Bad? {
      var k, bytes :| Push(Merge(calls), Data(k, bytes)) == t;
      PushBad(Merge(calls), Data(k, bytes));
    }
  }

  /** A parser and its callbacks in step. */
  ghost predicate InGrammar(s: Parser, calls: seq<Event>) {
    Parse(Merge(calls)).At? && (s.errno.OK? ==> Stands(s, Parse(Merge(calls)).phase))
  }

  lemma CallKeepsGrammar(v: Parser, calls: seq<Event>, n: nat, s: Parser, old_calls: seq<Event>, data: string)
    requires Inv(s) && InGrammar(s, old_calls) && Executed(v, calls, n, s, Merge(old_calls), data)
    ensures InGrammar(v, calls)
  {
    hide Parse, Merge, Stands, Inv, Run, Short, Over, LastScanned;
    var t := Merge(old_calls);
    InvCore(s);
    if Over(s, t, data) {
      var q :| 0 <= q <= |data| && StoppedAt(v, calls, n, s, t, data, q);
      RunGrammar(true, s, t, data[..q]);
      ShortGrammar(calls, Run(true, s, t, data[..q]).trace);
    } else {
      RunGrammar(true, s, t, data);
      var o := Run(true, s, t, data);
      if o.halt.Failed? {
        ShortGrammar(calls, o.trace);
      } else {
        StandsCount(o.s, v.nread, Parse(o.trace).phase);
        assert v == o.s.(nread := v.nread, hs := v.hs);
        AgreedState(v, calls, n, s, t, data);
      }
    }
  }

  lemma StandsCount(s: Parser, n: nat, g: Phase)
    requires Stands(s, g)
    ensures Stands(s.(nread := n), g)
  {
  }

  /** Feeds any pieces, empty ones included only as the end of the stream, whatever the calls return. */
  method Connection(parser: HttpParser, pieces: seq<string>, eof: bool)
    requires parser.Valid() && InGrammar(parser.View(), parser.calls)
    requires ToldRight(parser.View(), parser.calls)
    requires forall i :: 0 <= i < |pieces| ==> pieces[i] != []
    modifies parser
    ensures parser.Valid() && Parse(Merge(parser.calls)).At? && Announces(parser.calls)
  {
    hide Parse, Merge, Stands, Inv, Executed, HearAll, Tells, Announces;
    for i := 0 to |pieces|
      invariant parser.Valid() && InGrammar(parser.View(), parser.calls) && ToldRight(parser.View(), parser.calls)
    {
      ghost var s, c := parser.View(), parser.calls;
      var n := parser.Execute(pieces[i]);
      if s.errno.OK? {
        CallKeepsGrammar(parser.View(), parser.calls, n, s, c, pieces[i]);
        CallKeepsStep(parser.View(), parser.calls, n, s, c, pieces[i]);
      }
    }
    if eof {
      ghost var s, c := parser.View(), parser.calls;
      var n := parser.Execute([]);
      assert c + [] == c;
      if s.errno.OK? && s.state.BodyIdentityEof? {
        EofKeepsGrammar(s, Merge(c));
        MergeSnoc(c, Notify(MessageComplete));
        HearSnoc(c, Notify(MessageComplete));
      }
    }
    RightMeans(parser.calls);
  }
}
