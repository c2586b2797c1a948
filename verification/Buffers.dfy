/** The header buffer of a connection: written by the parser callbacks, read back for the response script. */
module Buffers {
  import opened Bytes
  import opened Trace

  /** struct buffer; a buffer that was never grown is null. */
  class Buffer {
    var data: array?<char>
    var cursor: nat

    ghost predicate Valid()
      reads this
    {
      if data == null then cursor == 0 else cursor <= data.Length
    }

    ghost function Contents(): string
      requires Valid()
      reads this, data
    {
      if data == null then [] else data[..cursor]
    }

    constructor ()
      ensures Valid() && data == null && Contents() == []
    {
      data, cursor := null, 0;
    }

    /** buffer_append: leaves room for a terminator, and for one more byte. */
    method Append(bytes: string)
      requires Valid()
      modifies this, data
      ensures Valid() && data != null && (data == old(data) || fresh(data)) && cursor + 1 < data.Length
      ensures Contents() == old(Contents()) + bytes
    {
      var length := if data == null then 0 else data.Length;
      while cursor + |bytes| + 1 >= length
        invariant Valid() && length == (if data == null then 0 else data.Length)
        invariant (data == old(data) || fresh(data)) && Contents() == old(Contents()) && cursor == old(cursor)
        decreases cursor + |bytes| + 2 - length
      {
        length := length + 1024;
        Realloc(length);
      }
      Copy(bytes);
      cursor := cursor + |bytes|;
    }

    /** realloc: the old bytes move, what follows them is undefined. */
    method Realloc(length: nat)
      requires Valid() && length >= if data == null then 0 else data.Length
      modifies this
      ensures Valid() && data != null && fresh(data) && data.Length == length && cursor == old(cursor)
      ensures Contents() == old(Contents())
    {
      var a := new char[length];
      if data != null {
        forall i | 0 <= i < cursor {
          a[i] := data[i];
        }
      }
      data := a;
    }

    /** memcpy to the cursor. */
    method Copy(bytes: string)
      requires Valid() && data != null && cursor + |bytes| <= data.Length
      modifies data
      ensures data[..cursor + |bytes|] == old(data[..cursor]) + bytes
    {
      forall i | 0 <= i < |bytes| {
        data[cursor + i] := bytes[i];
      }
    }

    /** *cursor++ = 0, without a check: it stays within the buffer only when one byte is left. */
    method Terminate()
      requires Valid() && data != null && cursor < data.Length
      modifies this`cursor, data
      ensures Valid() && Contents() == old(Contents()) + [NUL]
    {
      data[cursor] := NUL;
      cursor := cursor + 1;
    }

    method Reset()
      requires Valid()
      modifies this`cursor
      ensures Valid() && Contents() == []
    {
      cursor := 0;
    }

    /** buffer_pushlstring: the string at `start`, up to a NUL that must lie before the cursor. */
    method PushLString(start: nat) returns (s: string, next: nat)
      requires Valid() && start < cursor && data != null && NUL in data[start..cursor]
      ensures start + |s| < cursor && next == start + |s| + 1 && data[start..next] == s + [NUL] && NUL !in s
    {
      var end := start;
      while data[end] != NUL
        invariant start <= end < cursor && NUL !in data[start..end] && NUL in data[end..cursor]
        decreases cursor - end
      {
        assert data[end..cursor] == [data[end]] + data[end + 1..cursor];
        assert data[start..end + 1] == data[start..end] + [data[end]];
        end := end + 1;
      }
      s, next := data[start..end], end + 1;
      assert data[start..next] == s + [data[end]];
    }
  }

  // ----- what the bytes mean

  predicate NoNul(s: string) { NUL !in s }

  /** Names and values, each with its terminator. */
  function Encode(hs: seq<(string, string)>): string {
    if hs == [] then [] else hs[0].0 + [NUL] + hs[0].1 + [NUL] + Encode(hs[1..])
  }

  predicate Encodable(hs: seq<(string, string)>) { forall i :: 0 <= i < |hs| ==> NoNul(hs[i].0) && NoNul(hs[i].1) }

  lemma {:induction false} EncodeSnoc(hs: seq<(string, string)>, h: (string, string))
    ensures Encode(hs + [h]) == Encode(hs) + (h.0 + [NUL] + h.1 + [NUL])
  {
    if hs == [] {
      assert hs + [h] == [h] && [h][1..] == [];
    } else {
      EncodeSnoc(hs[1..], h);
      assert (hs + [h])[1..] == hs[1..] + [h];
    }
  }

  lemma FirstNul(a: string, b: string)
    requires NoNul(a)
    ensures var x := a + [NUL] + b; x[|a|] == NUL && forall i :: 0 <= i < |a| ==> x[i] != NUL
  {
  }

  /** The bytes up to the first NUL are determined. */
  lemma FirstString(a: string, b: string, c: string, d: string)
    requires NoNul(a) && NoNul(c) && a + [NUL] + b == c + [NUL] + d
    ensures a == c && b == d
  {
    var x, y := a + [NUL] + b, c + [NUL] + d;
    FirstNul(a, b);
    FirstNul(c, d);
    assert x[..|a|] == a && y[..|c|] == c && x[|a| + 1..] == b && y[|c| + 1..] == d;
  }

  lemma EncodeEmpty(hs: seq<(string, string)>)
    ensures Encode(hs) == [] <==> hs == []
  {
  }

  /** No two lists of headers have the same bytes. */
  lemma {:induction false} EncodeInjective(hs: seq<(string, string)>, gs: seq<(string, string)>)
    requires Encodable(hs) && Encodable(gs) && Encode(hs) == Encode(gs)
    ensures hs == gs
  {
    EncodeEmpty(hs);
    EncodeEmpty(gs);
    if hs != [] && gs != [] {
      var a, b := hs[0].1 + [NUL] + Encode(hs[1..]), gs[0].1 + [NUL] + Encode(gs[1..]);
      assert Encode(hs) == hs[0].0 + [NUL] + a && Encode(gs) == gs[0].0 + [NUL] + b;
      FirstString(hs[0].0, a, gs[0].0, b);
      FirstString(hs[0].1, Encode(hs[1..]), gs[0].1, Encode(gs[1..]));
      EncodeInjective(hs[1..], gs[1..]);
      assert hs == [hs[0]] + hs[1..] && gs == [gs[0]] + gs[1..];
    }
  }

  // ----- the callbacks

  predicate IsHeaderCall(e: Event) { e.Data? && (e.kind.Field? || e.kind.Value?) }

  /** The state of the connection after some callbacks: FIELD at first. */
  function StateOf(calls: seq<Event>): DataKind {
    if calls != [] && calls[|calls| - 1].Data? then calls[|calls| - 1].kind else Field
  }

  /** What the callbacks leave in the buffer: a terminator wherever the kind changes. */
  function Stored(calls: seq<Event>): string {
    if calls == [] then []
    else
      var init, e := calls[..|calls| - 1], calls[|calls| - 1];
      if !e.Data? then Stored(init)
      else Stored(init) + (if StateOf(init) == e.kind then [] else [NUL]) + e.bytes
  }

  lemma StoredSnoc(calls: seq<Event>, k: DataKind, bytes: string)
    ensures Stored(calls + [Data(k, bytes)]) == Stored(calls) + (if StateOf(calls) == k then [] else [NUL]) + bytes
    ensures StateOf(calls + [Data(k, bytes)]) == k
  {
    assert (calls + [Data(k, bytes)])[..|calls|] == calls;
  }

  lemma StoredPush(t: seq<Event>, k: DataKind, bytes: string)
    ensures Stored(Push(t, Data(k, bytes))) == Stored(t) + (if StateOf(t) == k then [] else [NUL]) + bytes
    ensures StateOf(Push(t, Data(k, bytes))) == k
  {
    hide Stored;
    StoredSnoc(t, k, bytes);
    if t != [] && t[|t| - 1].Data? && t[|t| - 1].kind == k {
      var init, last := t[..|t| - 1], t[|t| - 1].bytes;
      assert t == init + [Data(k, last)];
      StoredSnoc(init, k, last);
      StoredSnoc(init, k, last + bytes);
      var sep := if StateOf(init) == k then [] else [NUL];
      assert Stored(init) + sep + last + [] + bytes == Stored(init) + sep + (last + bytes);
    }
  }

  /** How the names and values are cut into callbacks does not show in the buffer. */
  lemma {:induction false} StoredMerge(calls: seq<Event>)
    requires forall i :: 0 <= i < |calls| ==> IsHeaderCall(calls[i])
    ensures Stored(Merge(calls)) == Stored(calls) && StateOf(Merge(calls)) == StateOf(calls)
  {
    hide Push, Stored;
    if calls == [] {
    } else {
      var n := |calls| - 1;
      var e := calls[n];
      StoredMerge(calls[..n]);
      StoredPush(Merge(calls[..n]), e.kind, e.bytes);
      StoredSnoc(calls[..n], e.kind, e.bytes);
      assert calls == calls[..n] + [Data(e.kind, e.bytes)];
    }
  }

  function PairEvents(hs: seq<(string, string)>): seq<Event> {
    if hs == [] then []
    else PairEvents(hs[..|hs| - 1]) + [Data(Field, hs[|hs| - 1].0), Data(Value, hs[|hs| - 1].1)]
  }

  lemma {:induction false} StoredPairs(hs: seq<(string, string)>)
    requires hs != []
    ensures Stored(PairEvents(hs)) + [NUL] == Encode(hs) && StateOf(PairEvents(hs)) == Value
  {
    hide Stored, Encode, StateOf;
    var n := |hs| - 1;
    var init, h := hs[..n], hs[n];
    var t := PairEvents(init);
    StateAtStart();
    StoredSnoc(t, Field, h.0);
    StoredSnoc(t + [Data(Field, h.0)], Value, h.1);
    assert PairEvents(hs) == t + [Data(Field, h.0)] + [Data(Value, h.1)];
    EncodeSnoc(init, h);
    assert hs == init + [h];
    NothingStored();
    if n > 0 {
      StoredPairs(init);
      assert Stored(t) + [NUL] + h.0 + [NUL] + h.1 + [NUL] == Stored(t) + [NUL] + (h.0 + [NUL] + h.1 + [NUL]);
    } else {
      assert [] + [] + h.0 + [NUL] + h.1 + [NUL] == [] + (h.0 + [NUL] + h.1 + [NUL]);
    }
  }

  lemma StateAtStart()
    ensures StateOf([]) == Field
  {
  }

  lemma NothingStored()
    ensures Stored([]) == [] && Encode([]) == [] && PairEvents([]) == []
  {
  }

  // ----- the connection

  function TableOf(hs: seq<(string, string)>): map<string, string> {
    if hs == [] then map[] else TableOf(hs[..|hs| - 1])[hs[|hs| - 1].0 := hs[|hs| - 1].1]
  }

  /** Pair `i` is the last one with its name. */
  predicate IsLast(hs: seq<(string, string)>, i: nat)
    requires i < |hs|
  {
    forall j :: i < j < |hs| ==> hs[j].0 != hs[i].0
  }

  predicate HasName(hs: seq<(string, string)>, name: string) { exists i :: 0 <= i < |hs| && hs[i].0 == name }

  /** Every name is bound to the value of its last pair, and there is no other name. */
  ghost predicate Binds(table: map<string, string>, hs: seq<(string, string)>) {
    && (forall i :: 0 <= i < |hs| && IsLast(hs, i) ==> hs[i].0 in table && table[hs[i].0] == hs[i].1)
    && (forall name :: name in table <==> HasName(hs, name))
  }

  lemma HasNameNext(hs: seq<(string, string)>, name: string)
    requires hs != []
    ensures HasName(hs, name) <==> HasName(hs[..|hs| - 1], name) || hs[|hs| - 1].0 == name
  {
    var init := hs[..|hs| - 1];
    if i :| 0 <= i < |hs| && hs[i].0 == name {
      if i < |init| { assert init[i].0 == name; }
    }
    if i :| 0 <= i < |init| && init[i].0 == name { assert hs[i].0 == name; }
  }

  lemma {:induction false} TableBinds(hs: seq<(string, string)>)
    ensures Binds(TableOf(hs), hs)
  {
    hide HasName, IsLast;
    if hs == [] {
      assert Binds(map[], []) by { NothingBound(); }
    } else {
      var n := |hs| - 1;
      TableBinds(hs[..n]);
      forall i | 0 <= i < |hs| && IsLast(hs, i)
        ensures hs[i].0 in TableOf(hs) && TableOf(hs)[hs[i].0] == hs[i].1
      {
        if i < n { LastBefore(hs, i); }
      }
      forall name
        ensures name in TableOf(hs) <==> HasName(hs, name)
      {
        HasNameNext(hs, name);
      }
    }
  }

  lemma NothingBound()
    ensures Binds(map[], [])
  {
  }

  lemma LastBefore(hs: seq<(string, string)>, i: nat)
    requires i < |hs| - 1 && IsLast(hs, i)
    ensures IsLast(hs[..|hs| - 1], i) && hs[|hs| - 1].0 != hs[i].0
  {
  }

  class Connection {
    const headers: Buffer
    const body: Buffer
    var state: DataKind

    ghost predicate Valid()
      reads this, headers, body
    {
      && headers != body && headers.Valid() && body.Valid()
      && (headers.data != null && body.data != null ==> headers.data != body.data)
      && (headers.data != null ==> headers.cursor < headers.data.Length) && (state.Field? || state.Value?)
      && (headers.data == null ==> state.Field?)
    }

    constructor ()
      ensures Valid() && headers.data == null && state == Field && headers.Contents() == [] == body.Contents()
      ensures fresh(headers) && fresh(body)
    {
      headers := new Buffer();
      body := new Buffer();
      state := Field;
    }

    /** header_field. */
    method HeaderField(at: string)
      requires Valid()
      modifies this`state, headers, headers.data
      ensures Valid() && state == Field && headers.data != null
              && (headers.data == old(headers.data) || fresh(headers.data))
      ensures headers.Contents() == old(headers.Contents()) + (if old(state) == Value then [NUL] else []) + at
    {
      if state.Value? {
        headers.Terminate();
        state := Field;
      }
      headers.Append(at);
    }

    /** header_value. */
    method HeaderValue(at: string)
      requires Valid() && headers.data != null
      modifies this`state, headers, headers.data
      ensures Valid() && state == Value && headers.data != null
              && (headers.data == old(headers.data) || fresh(headers.data))
      ensures headers.Contents() == old(headers.Contents()) + (if old(state) == Field then [NUL] else []) + at
    {
      if state.Field? {
        headers.Terminate();
        state := Value;
      }
      headers.Append(at);
    }

    /** response_body. */
    method ResponseBody(at: string)
      requires Valid()
      modifies body, body.data
      ensures Valid() && (body.data == old(body.data) || fresh(body.data))
      ensures body.Contents() == old(body.Contents()) + at
    {
      body.Append(at);
    }

    /** The buffer part of response_complete, and script_response: the headers in order, and the table they make. */
    method ResponseComplete(ghost hs: seq<(string, string)>)
      returns (pairs: seq<(string, string)>, table: map<string, string>, text: string)
      requires Valid() && headers.data != null && hs != [] && Encodable(hs) && headers.Contents() + [NUL] == Encode(hs)
      modifies this`state, headers, body, headers.data
      ensures Valid() && state == Field && headers.data == old(headers.data) && body.data == old(body.data)
      ensures pairs == hs && table == TableOf(hs) && Binds(table, hs) && text == old(body.Contents())
      ensures headers.Contents() == [] == body.Contents()
    {
      hide Encode;
      headers.Terminate();
      pairs, table := Pairs(headers, hs);
      if body.data != null { text := body.data[..body.cursor]; } else { text := ""; }
      headers.Reset();
      body.Reset();
      state := Field;
    }
  }

  /** The loop of script_response. */
  method Pairs(headers: Buffer, ghost hs: seq<(string, string)>)
    returns (pairs: seq<(string, string)>, table: map<string, string>)
    requires headers.Valid() && headers.data != null && Encodable(hs) && headers.Contents() == Encode(hs)
    ensures pairs == hs && table == TableOf(hs) && Binds(table, hs)
  {
    hide Encode, TableOf, NoNul, Binds;
    ghost var all := headers.Contents();
    pairs, table := [], map[];
    assert TableOf([]) == map[] by { NoTable(); }
    var c := 0;
    while c < headers.cursor
      invariant c <= headers.cursor && |pairs| <= |hs| && pairs == hs[..|pairs|] && table == TableOf(pairs)
      invariant all[c..] == Encode(hs[|pairs|..])
      decreases headers.cursor - c
    {
      ghost var k := |pairs|;
      EncodeEmpty(hs[k..]);
      EncodeNext(hs, k);
      ghost var rest := hs[k].1 + [NUL] + Encode(hs[k + 1..]);
      var name, value;
      name, c := PushString(headers, c, hs[k].0, rest);
      value, c := PushString(headers, c, hs[k].1, Encode(hs[k + 1..]));
      pairs := pairs + [(name, value)];
      table := table[name := value];
      TableSnoc(hs, k);
    }
    EncodeEmpty(hs[|pairs|..]);
    TableBinds(hs);
  }

  lemma NoTable()
    ensures TableOf([]) == map[]
  {
  }

  /** One string of the buffer. */
  method PushString(headers: Buffer, c: nat, ghost s: string, ghost rest: string) returns (got: string, next: nat)
    requires headers.Valid() && headers.data != null && c <= headers.cursor && NoNul(s)
    requires headers.Contents()[c..] == s + [NUL] + rest
    ensures got == s && next <= headers.cursor && headers.Contents()[next..] == rest
  {
    ghost var all := headers.Contents();
    StringAhead(all, c, s, rest);
    assert all[c..] == headers.data[c..headers.cursor];
    got, next := headers.PushLString(c);
    assert all[c..next] == headers.data[c..next];
    StringThere(all, next, got, s, rest);
  }

  lemma EncodeNext(hs: seq<(string, string)>, k: nat)
    requires k < |hs|
    ensures Encode(hs[k..]) == hs[k].0 + [NUL] + (hs[k].1 + [NUL] + Encode(hs[k + 1..]))
  {
    assert hs[k..][1..] == hs[k + 1..];
  }

  lemma StringAhead(all: string, c: nat, s: string, rest: string)
    requires c <= |all| && all[c..] == s + [NUL] + rest
    ensures c < |all| && NUL in all[c..]
  {
    assert (s + [NUL] + rest)[|s|] == NUL;
  }

  lemma StringThere(all: string, next: nat, got: string, s: string, rest: string)
    requires |got| < next <= |all| && all[next - |got| - 1..] == s + [NUL] + rest && NoNul(s) && NoNul(got)
    requires all[next - |got| - 1..next] == got + [NUL]
    ensures got == s && all[next..] == rest
  {
    var c := next - |got| - 1;
    assert all[c..] == all[c..next] + all[next..];
    FirstString(got, all[next..], s, rest);
  }

  lemma TableSnoc(hs: seq<(string, string)>, k: nat)
    requires k < |hs|
    ensures hs[..k + 1] == hs[..k] + [hs[k]] && TableOf(hs[..k + 1]) == TableOf(hs[..k])[hs[k].0 := hs[k].1]
  {
    assert hs[..k + 1][..k] == hs[..k];
  }

  predicate IsBodyCall(e: Event) { e.Data? && e.kind.Body? }

  /** The header callbacks among others. */
  function HeaderCalls(calls: seq<Event>): (r: seq<Event>)
    ensures forall i :: 0 <= i < |r| ==> IsHeaderCall(r[i])
  {
    if calls == [] then []
    else HeaderCalls(calls[..|calls| - 1]) + if IsHeaderCall(calls[|calls| - 1]) then [calls[|calls| - 1]] else []
  }

  /** The bytes of the body callbacks among others. */
  function BodyText(calls: seq<Event>): string {
    if calls == [] then []
    else BodyText(calls[..|calls| - 1]) + if IsBodyCall(calls[|calls| - 1]) then calls[|calls| - 1].bytes else []
  }

  lemma CallsSnoc(calls: seq<Event>, i: nat)
    requires i < |calls|
    ensures var h := HeaderCalls(calls[..i]);
            HeaderCalls(calls[..i + 1]) == if IsHeaderCall(calls[i]) then h + [calls[i]] else h
    ensures var b := BodyText(calls[..i]);
            BodyText(calls[..i + 1]) == if IsBodyCall(calls[i]) then b + calls[i].bytes else b
  {
    assert calls[..i + 1][..i] == calls[..i];
  }

  lemma {:induction false} CallsPrefix(calls: seq<Event>, i: nat)
    requires i <= |calls|
    ensures HeaderCalls(calls[..i]) <= HeaderCalls(calls)
    decreases |calls|
  {
    if i == |calls| {
      assert calls[..i] == calls;
    } else {
      var d := calls[..|calls| - 1];
      assert d[..i] == calls[..i];
      CallsPrefix(d, i);
    }
  }

  /** The first header callback is for a name. */
  lemma FirstCall(calls: seq<Event>, i: nat, hs: seq<(string, string)>)
    requires i < |calls| && IsHeaderCall(calls[i]) && HeaderCalls(calls[..i]) == []
    requires hs != [] && Merge(HeaderCalls(calls)) == PairEvents(hs)
    ensures calls[i].kind.Field?
  {
    hide Merge, PairEvents;
    FirstIsField(HeaderCalls(calls), hs);
    CallsSnoc(calls, i);
    CallsPrefix(calls, i + 1);
    assert HeaderCalls(calls[..i + 1])[0] == calls[i];
  }

  /** The callbacks of one response, in whatever order those of the headers and of the body come, as with trailers, and
      however they are cut: the script is given exactly the headers, in order, and the body. */
  method Response(c: Connection, calls: seq<Event>, ghost hs: seq<(string, string)>)
    returns (pairs: seq<(string, string)>, table: map<string, string>, text: string)
    requires c.Valid() && c.state == Field && c.headers.Contents() == [] == c.body.Contents()
    requires hs != [] && Encodable(hs) && Merge(HeaderCalls(calls)) == PairEvents(hs)
    requires forall i :: 0 <= i < |calls| ==> IsHeaderCall(calls[i]) || IsBodyCall(calls[i])
    modifies c, c.headers, c.body, c.headers.data, c.body.data
    ensures c.Valid() && c.state == Field && c.headers.Contents() == [] == c.body.Contents()
    ensures pairs == hs && table == TableOf(hs) && Binds(table, hs) && text == BodyText(calls)
  {
    hide Stored, Merge, PairEvents, Encode, TableOf, StateOf, HeaderCalls, BodyText;
    assert calls[..0] == [];
    NothingStored();
    StateAtStart();
    NoCalls();
    for i := 0 to |calls|
      invariant c.Valid() && c.state == StateOf(HeaderCalls(calls[..i]))
      invariant c.headers.Contents() == Stored(HeaderCalls(calls[..i])) && c.body.Contents() == BodyText(calls[..i])
      invariant HeaderCalls(calls[..i]) != [] ==> c.headers.data != null
      invariant c.headers.data == old(c.headers.data) || fresh(c.headers.data)
      invariant c.body.data == old(c.body.data) || fresh(c.body.data)
    {
      var e := calls[i];
      CallsSnoc(calls, i);
      if IsBodyCall(e) {
        c.ResponseBody(e.bytes);
      } else {
        StoredSnoc(HeaderCalls(calls[..i]), e.kind, e.bytes);
        assert e == Data(e.kind, e.bytes);
        if HeaderCalls(calls[..i]) == [] { FirstCall(calls, i, hs); }
        if e.kind.Field? { c.HeaderField(e.bytes); } else { c.HeaderValue(e.bytes); }
      }
    }
    assert calls[..|calls|] == calls;
    StoredMerge(HeaderCalls(calls));
    StoredPairs(hs);
    FirstIsField(HeaderCalls(calls), hs);
    pairs, table, text := c.ResponseComplete(hs);
  }

  lemma NoCalls()
    ensures HeaderCalls([]) == [] && BodyText([]) == []
  {
  }

  lemma FirstIsField(calls: seq<Event>, hs: seq<(string, string)>)
    requires hs != [] && Merge(calls) == PairEvents(hs) && forall i :: 0 <= i < |calls| ==> IsHeaderCall(calls[i])
    ensures calls != [] && IsHeaderCall(calls[0]) && calls[0].kind.Field?
  {
    assert Merge([]) == [];
    MergeFirst(calls);
    PairsFirst(hs);
  }

  lemma {:induction false} MergeFirst(calls: seq<Event>)
    requires calls != [] && forall i :: 0 <= i < |calls| ==> IsHeaderCall(calls[i])
    ensures IsHeaderCall(calls[0])
    ensures Merge(calls) != [] && IsHeaderCall(Merge(calls)[0]) && Merge(calls)[0].kind == calls[0].kind
  {
    if |calls| > 1 {
      MergeFirst(calls[..|calls| - 1]);
    } else {
      assert calls[..0] == [];
    }
  }

  lemma {:induction false} PairsFirst(hs: seq<(string, string)>)
    requires hs != []
    ensures PairEvents(hs) != [] && PairEvents(hs)[0] == Data(Field, hs[0].0)
  {
    if |hs| > 1 { PairsFirst(hs[..|hs| - 1]); }
  }
}
