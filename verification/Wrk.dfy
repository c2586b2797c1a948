/** wrk.format, and script_verify_request on what it prints. */
module Wrk {
  import opened Bytes
  import opened Trace
  import opened Machine
  import opened Bytewise
  import opened Marks
  import opened Invariant
  import opened Limits
  import opened HttpParser
  import opened Feeding
  import opened Journeys
  import opened Spacing
  import opened HeaderNames
  import opened HeaderLines
  import opened Lengths
  import opened Requests

  datatype MaybeText = Nil | Some(text: string)

  /** A Lua table of header names and values, shared by reference. */
  class Table {
    var m: map<string, string>
    constructor (m: map<string, string>)
      ensures this.m == m
    {
      this.m := m;
    }
  }

  /** The header table after the two assignments of wrk.format: Host by default, Content-Length from the body. */
  function Completed(m: map<string, string>, defaults: map<string, string>, body: MaybeBody): map<string, string> {
    var m := if "Host" !in m && "Host" in defaults then m["Host" := defaults["Host"]] else m;
    if body.SomeBody? then m[LENGTH_NAME := Decimal(|body.bytes|)] else m - {LENGTH_NAME}
  }

  /** `order` lists the pairs of `m`, each once. */
  ghost predicate Lists(order: seq<(string, string)>, m: map<string, string>) {
    && (forall i :: 0 <= i < |order| ==> order[i].0 in m && order[i].1 == m[order[i].0])
    && (forall i, j :: 0 <= i < j < |order| ==> order[i].0 != order[j].0)
    && (forall k :: k in m ==> exists i :: 0 <= i < |order| && order[i].0 == k)
  }

  /** What is printed of a table: every pair of it but for a length; a Host, its own if it has one and otherwise the one
      by default if there is one; the length of the body exactly when there is a body; and nothing else. */
  ghost predicate Prints(order: seq<(string, string)>, m: map<string, string>, defaults: map<string, string>,
                         body: MaybeBody)
  {
    && (forall k :: k in m && k != LENGTH_NAME ==> (k, m[k]) in order)
    && ("Host" !in m && "Host" in defaults ==> ("Host", defaults["Host"]) in order)
    && (forall v :: (LENGTH_NAME, v) in order <==> body.SomeBody? && v == Decimal(|body.bytes|))
    && (forall i :: 0 <= i < |order| ==>
          var (k, v) := order[i];
          || (k in m && v == m[k])
          || (k == "Host" && k !in m && k in defaults && v == defaults[k])
          || k == LENGTH_NAME)
    && (forall i, j :: 0 <= i < j < |order| ==> order[i].0 != order[j].0)
  }

  lemma InOrder(order: seq<(string, string)>, m: map<string, string>, k: string, v: string)
    requires Lists(order, m)
    ensures (k, v) in order <==> k in m && m[k] == v
  {
    if k in m && m[k] == v {
      var i :| 0 <= i < |order| && order[i].0 == k;
      assert order[i] == (k, v);
    }
  }

  lemma CompletedPrints(order: seq<(string, string)>, m: map<string, string>, defaults: map<string, string>,
                        body: MaybeBody)
    requires Lists(order, Completed(m, defaults, body))
    ensures Prints(order, m, defaults, body)
  {
    hide Decimal, Lists;
    var c := Completed(m, defaults, body);
    forall k, v
      ensures (k, v) in order <==> k in c && c[k] == v
    {
      InOrder(order, c, k, v);
    }
    forall i | 0 <= i < |order|
      ensures order[i].0 in c && order[i].1 == c[order[i].0]
    {
      assert (order[i].0, order[i].1) in order;
    }
    assert forall i, j :: 0 <= i < j < |order| ==> order[i].0 != order[j].0 by { ListsOnce(order, c); }
  }

  lemma ListsOnce(order: seq<(string, string)>, m: map<string, string>)
    requires Lists(order, m)
    ensures forall i, j :: 0 <= i < j < |order| ==> order[i].0 != order[j].0
  {
  }

  /** table.concat. */
  function Join(parts: seq<string>, sep: string): string {
    if parts == [] then []
    else if |parts| == 1 then parts[0]
    else Join(parts[..|parts| - 1], sep) + sep + parts[|parts| - 1]
  }

  function RequestText(verb: string, path: string, headers: seq<(string, string)>, body: MaybeBody): string {
    verb + " " + path + " " + ("HTTP/1.1" + CRLF) + HeaderText(headers) + CRLF
    + if body.NoBody? then [] else body.bytes
  }

  class Wrk {
    var verb: string
    var path: string
    var headers: Table
    var body: MaybeBody

    constructor (headers: Table)
      ensures verb == "GET" && path == "/" && this.headers == headers && body == NoBody
    {
      verb, path, this.headers, body := "GET", "/", headers, NoBody;
    }

    /** wrk.format.  `order` is the order in which `pairs` happened to visit the table. */
    method Format(verb: MaybeText, path: MaybeText, headers: Table?, body: MaybeBody)
      returns (text: string, ghost order: seq<(string, string)>)
      modifies if headers == null then this.headers else headers
      ensures var h := if headers == null then this.headers else headers;
              h.m == Completed(old(h.m), old(this.headers.m), if body.NoBody? then this.body else body)
              && Lists(order, h.m)
              && Prints(order, old(h.m), old(this.headers.m), if body.NoBody? then this.body else body)
      ensures text == RequestText(if verb.Nil? then this.verb else verb.text,
                                  if path.Nil? then this.path else path.text,
                                  order, if body.NoBody? then this.body else body)
    {
      hide HeaderText, Decimal, Line, Join, RequestText, Lists, Prints;
      var verb := if verb.Nil? then this.verb else verb.text;
      var path := if path.Nil? then this.path else path.text;
      var headers := if headers == null then this.headers else headers;
      var body := if body.NoBody? then this.body else body;
      if "Host" !in headers.m && "Host" in this.headers.m {
        headers.m := headers.m["Host" := this.headers.m["Host"]];
      }
      headers.m := if body.SomeBody? then headers.m[LENGTH_NAME := Decimal(|body.bytes|)]
          else headers.m - {LENGTH_NAME};
      var s;
      ghost var h := headers;
      s, order := Lines(headers.m, verb + " " + path + " HTTP/1.1");
      JoinedText(verb, path, order, body, s);
      s := s + [""];
      s := s + [if body.SomeBody? then body.bytes else ""];
      text := Join(s, CRLF);
      CompletedPrints(order, old(h.m), old(this.headers.m), body);
    }
  }

  /** The loop of wrk.format over `pairs`: the request line and one element for each header. */
  method Lines(m: map<string, string>, line: string) returns (s: seq<string>, ghost order: seq<(string, string)>)
    ensures Lists(order, m) && s != [] && Join(s, CRLF) + CRLF == line + CRLF + HeaderText(order)
  {
    hide HeaderText, Line;
    s, order := [line], [];
    assert HeaderText([]) == [] by { NoHeaderText(); }
    assert line + CRLF + [] == line + CRLF;
    var rest := m.Keys;
    while rest != {}
      invariant rest <= m.Keys && s != []
      invariant forall i :: 0 <= i < |order| ==> order[i].0 in m && order[i].0 !in rest && order[i].1 == m[order[i].0]
      invariant forall i, j :: 0 <= i < j < |order| ==> order[i].0 != order[j].0
      invariant forall k :: k in m && k !in rest ==> exists i :: 0 <= i < |order| && order[i].0 == k
      invariant Join(s, CRLF) + CRLF == line + CRLF + HeaderText(order)
      decreases rest
    {
      var name :| name in rest;
      ghost var before := order;
      JoinSnoc(s, name + ": " + m[name], CRLF);
      LineText(order, name, m[name]);
      LineIs(name, m[name]);
      s, order, rest := s + [name + ": " + m[name]], order + [(name, m[name])], rest - {name};
      forall k | k in m && k !in rest
        ensures exists i :: 0 <= i < |order| && order[i].0 == k
      {
        if k == name {
          assert order[|before|].0 == k;
        } else {
          var i :| 0 <= i < |before| && before[i].0 == k;
          assert order[i].0 == k;
        }
      }
    }
  }

  lemma JoinedText(verb: string, path: string, headers: seq<(string, string)>, body: MaybeBody, s: seq<string>)
    requires s != [] && Join(s, CRLF) + CRLF == verb + " " + path + " HTTP/1.1" + CRLF + HeaderText(headers)
    ensures Join(s + [""] + [if body.SomeBody? then body.bytes else ""], CRLF) == RequestText(verb, path, headers, body)
  {
    hide HeaderText, Join;
    JoinSnoc(s, "", CRLF);
    JoinSnoc(s + [""], if body.SomeBody? then body.bytes else "", CRLF);
    assert verb + " " + path + " HTTP/1.1" + CRLF == verb + " " + path + " " + ("HTTP/1.1" + CRLF);
    assert Join(s, CRLF) + CRLF + "" == Join(s, CRLF) + CRLF;
  }

  lemma JoinSnoc(parts: seq<string>, a: string, sep: string)
    requires parts != []
    ensures Join(parts + [a], sep) == Join(parts, sep) + sep + a
  {
    assert (parts + [a])[..|parts|] == parts;
  }

  lemma LineIs(name: string, value: string)
    ensures name + ": " + value + CRLF == Line(name, value)
  {
  }

  lemma LineText(headers: seq<(string, string)>, name: string, value: string)
    ensures HeaderText(headers + [(name, value)]) == HeaderText(headers) + Line(name, value)
  {
    hide Line;
    assert (headers + [(name, value)])[..|headers|] == headers;
  }

  lemma NoHeaderText()
    ensures HeaderText([]) == []
  {
  }

  lemma HostIsPlain()
    ensures IsPlainName("Host")
  {
    hide Token;
    var w := LowerName("Host");
    LowerNameAt("Host", 0);
    HostTokens();
    assert |w| == 4 && w[0] == 'h';
    assert CONNECTION[0] != 'h' && PROXY_CONNECTION[0] != 'h' && CONTENT_LENGTH[0] != 'h' && TRANSFER_ENCODING[0] != 'h'
      && UPGRADE[0] != 'h';
  }

  lemma HostTokens()
    ensures Token('H') == 'h' && forall i :: 0 <= i < 4 ==> IsToken("Host"[i])
  {
  }

  /** What wrk.format prints from a table of plain names and printable values, in whatever order, is a good request. */
  lemma FormattedIsGood(verb: Method, path: string, m: map<string, string>, defaults: map<string, string>,
                        body: MaybeBody, order: seq<(string, string)>)
    requires forall k :: k in m && k != LENGTH_NAME ==> IsPlainName(k) && IsValue(m[k])
    requires "Host" in defaults ==> IsValue(defaults["Host"])
    requires Lists(order, Completed(m, defaults, body))
    ensures GoodHeaders(order, body)
    ensures RequestText(MethodString(verb), path, order, body) == Text(Request.Request(verb, path, order, body))
  {
    hide IsPlainName, IsValue, Decimal, HeaderText, MethodString;
    HostIsPlain();
    var t := Completed(m, defaults, body);
    forall i | 0 <= i < |order|
      ensures GoodHeader(order[i], body)
    {
      assert order[i].0 in t && order[i].1 == t[order[i].0];
    }
    if body.SomeBody? { assert LENGTH_NAME in t; }
  }

  // ----- many requests

  function Texts(rs: seq<Request>): string {
    if rs == [] then [] else Texts(rs[..|rs| - 1]) + Text(rs[|rs| - 1])
  }

  function Messages(rs: seq<Request>): seq<Event> {
    if rs == [] then [] else Messages(rs[..|rs| - 1]) + Message(rs[|rs| - 1])
  }

  lemma {:induction false} GoesRequests(s: Parser, t: seq<Event>, rs: seq<Request>, slack: nat) returns (s': Parser)
    requires Ready(s) && s.nread == 0 && slack <= MAX_HEADER_SIZE
    requires forall i :: 0 <= i < |rs| ==> Good(rs[i], MAX_HEADER_SIZE - slack)
    ensures Goes(s, t, Texts(rs), s', t + Messages(rs), slack) && Ready(s') && s'.nread == 0
    decreases |rs|
  {
    hide Goes, Good, Text, Message;
    if rs == [] {
      s' := s;
      GoesNowhere(s, t, slack);
      assert t + [] == t;
    } else {
      var n := |rs| - 1;
      var s1 := GoesRequests(s, t, rs[..n], slack);
      var u := t + Messages(rs[..n]);
      s' := GoesRequest(s1, u, rs[n], slack);
      assert t + Messages(rs) == u + Message(rs[n]);
      GoesOn(s, t, Texts(rs[..n]), s1, u, Text(rs[n]), s', t + Messages(rs), slack);
    }
  }

  /** The number of on_message_complete callbacks. */
  function Completes(calls: seq<Event>): nat {
    if calls == [] then 0
    else Completes(calls[..|calls| - 1]) + if calls[|calls| - 1] == Notify(MessageComplete) then 1 else 0
  }

  lemma CompletesSnoc(t: seq<Event>, e: Event)
    ensures Completes(t + [e]) == Completes(t) + if e == Notify(MessageComplete) then 1 else 0
  {
    assert (t + [e])[..|t|] == t;
  }

  lemma CompletesPush(t: seq<Event>, e: Event)
    ensures Completes(Push(t, e)) == Completes(t) + if e == Notify(MessageComplete) then 1 else 0
  {
    if e.Data? && t != [] && t[|t| - 1].Data? && t[|t| - 1].kind == e.kind {
      var init := t[..|t| - 1];
      CompletesSnoc(init, Data(e.kind, t[|t| - 1].bytes + e.bytes));
    } else {
      CompletesSnoc(t, e);
    }
  }

  lemma {:induction false} CompletesMerge(calls: seq<Event>)
    ensures Completes(Merge(calls)) == Completes(calls)
  {
    hide Push;
    if calls != [] {
      var n := |calls| - 1;
      CompletesMerge(calls[..n]);
      CompletesPush(Merge(calls[..n]), calls[n]);
    }
  }

  lemma {:induction false} CompletesAppend(a: seq<Event>, b: seq<Event>)
    ensures Completes(a + b) == Completes(a) + Completes(b)
    decreases |b|
  {
    if b == [] {
      assert a + b == a;
    } else {
      var n := |b| - 1;
      assert (a + b)[..|a + b| - 1] == a + b[..n];
      CompletesAppend(a, b[..n]);
    }
  }

  lemma {:induction false} NoCompletes(headers: seq<(string, string)>)
    ensures Completes(HeaderEvents(headers)) == 0
  {
    if headers != [] {
      var n := |headers| - 1;
      NoCompletes(headers[..n]);
      var t := HeaderEvents(headers[..n]);
      var f, v := Data(Field, headers[n].0), Data(Value, Trim(headers[n].1));
      CompletesSnoc(t, f);
      CompletesSnoc(t + [f], v);
      assert t + [f] + [v] == t + [f, v];
    }
  }

  lemma OneComplete(r: Request)
    ensures Completes(Message(r)) == 1
  {
    hide HeaderEvents, Completes, BodyText, BodyLength;
    var a := [Notify(MessageBegin), Data(Url, r.path)] + HeaderEvents(r.headers);
    var h := [Notify(HeadersComplete(BodyLength(r), false, false))];
    var b := if BodyText(r) == [] then [] else [Data(Body, BodyText(r))];
    NoCompletes(r.headers);
    CompletesAppend([Notify(MessageBegin), Data(Url, r.path)], HeaderEvents(r.headers));
    CompletesAppend(a, h);
    CompletesAppend(a + h, b);
    CompletesSnoc(a + h + b, Notify(MessageComplete));
    SmallTraces(r.path, h[0].note, BodyText(r));
  }

  lemma SmallTraces(path: string, n: Note, body: string)
    ensures Completes([]) == 0 && Completes([Data(Body, body)]) == 0
    ensures Completes([Notify(MessageBegin), Data(Url, path)]) == 0
    ensures !n.MessageComplete? ==> Completes([Notify(n)]) == 0
  {
    CompletesSnoc([], Data(Body, body));
    CompletesSnoc([], Notify(MessageBegin));
    CompletesSnoc([Notify(MessageBegin)], Data(Url, path));
    assert [Notify(MessageBegin)] + [Data(Url, path)] == [Notify(MessageBegin), Data(Url, path)];
    CompletesSnoc([], Notify(n));
    assert forall e: Event :: [] + [e] == [e];
  }

  lemma {:induction false} ManyComplete(rs: seq<Request>)
    ensures Completes(Messages(rs)) == |rs|
  {
    hide Completes, Message;
    if rs == [] {
      SmallTraces([], MessageBegin, []);
    } else {
      var n := |rs| - 1;
      ManyComplete(rs[..n]);
      OneComplete(rs[n]);
      CompletesAppend(Messages(rs[..n]), Message(rs[n]));
    }
  }

  /** One call on the text of many requests. */
  lemma TextsVerified(v: Parser, calls: seq<Event>, n: nat, rs: seq<Request>)
    requires rs != [] && forall i :: 0 <= i < |rs| ==> Good(rs[i], MAX_HEADER_SIZE)
    requires Executed(v, calls, n, Init(Kind.Request, false), [], Texts(rs))
    ensures Merge(calls) == Messages(rs) && Completes(calls) == |rs| && n == |Texts(rs)| && v.errno.OK?
  {
    hide Run, Merge, Messages, Completes, Good, Clean, HeadersFit, Short, Executed, Inv;
    var s, data := Init(Kind.Request, false), Texts(rs);
    var s' := GoesRequests(s, [], rs, 0);
    assert [] + Messages(rs) == Messages(rs);
    InvInit(Kind.Request, false);
    TextsNotEmpty(rs);
    GoesAtOnce(s, [], data, s', Messages(rs), v, calls, n);
    CompletesMerge(calls);
    ManyComplete(rs);
  }

  lemma TextsNotEmpty(rs: seq<Request>)
    requires rs != []
    ensures Texts(rs) != []
  {
    hide MethodString, HeaderText;
  }

  /** script_verify_request: the bytes parsed and the messages counted. */
  method VerifyRequest(text: string) returns (parsed: nat, count: nat, ghost told: seq<Event>)
    ensures forall rs: seq<Request> | rs != [] && text == Texts(rs)
            && (forall i :: 0 <= i < |rs| ==> Good(rs[i], MAX_HEADER_SIZE)) ::
              parsed == |text| && count == |rs| && told == Messages(rs)
  {
    hide Merge, Messages, Completes, Good, Executed, Inv, Texts;
    var parser := new HttpParser(Kind.Request, false);
    parsed := parser.Execute(text);
    count := Completes(parser.calls);
    told := Merge(parser.calls);
    assert Merge([]) == [] by { MergeNone(); }
    forall rs: seq<Request> | rs != [] && text == Texts(rs)
        && (forall i :: 0 <= i < |rs| ==> Good(rs[i], MAX_HEADER_SIZE))
      ensures parsed == |text| && count == |rs| && told == Messages(rs)
    {
      TextsNotEmpty(rs);
      TextsVerified(parser.View(), parser.calls, parsed, rs);
    }
  }

  lemma MergeNone()
    ensures Merge([]) == []
  {
  }
}
