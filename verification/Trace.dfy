/** The callbacks of the parser and the merging of adjacent data callbacks. */
module Trace {
  datatype DataKind = Url | Status | Field | Value | Body

  /** A notification carries what its callback can read in the parser: `content_length`, the flag F_CHUNKED and
      `upgrade`. */
  datatype Note =
    | MessageBegin
    | HeadersComplete(length: nat, chunked: bool, upgrade: bool)
    | ChunkHeader(size: nat)
    | ChunkComplete
    | MessageComplete

  datatype Event = Data(kind: DataKind, bytes: string) | Notify(note: Note)

  /** Appends one callback to a merged trace. */
  function Push(t: seq<Event>, e: Event): seq<Event> {
    if e.Data? && t != [] && t[|t| - 1].Data? && t[|t| - 1].kind == e.kind
    then t[..|t| - 1] + [Data(e.kind, t[|t| - 1].bytes + e.bytes)]
    else t + [e]
  }

  /** The callbacks as http_data_cb promises them: how a string is cut into calls does not count. */
  function Merge(calls: seq<Event>): seq<Event> {
    if calls == [] then [] else Push(Merge(calls[..|calls| - 1]), calls[|calls| - 1])
  }

  /** `bytes` more bytes of kind `k`; no callback when there are none. */
  function Grow(t: seq<Event>, k: DataKind, bytes: string): seq<Event> {
    if bytes == [] then t else Push(t, Data(k, bytes))
  }

  lemma PushTwice(t: seq<Event>, k: DataKind, a: string, b: string)
    ensures Push(Push(t, Data(k, a)), Data(k, b)) == Push(t, Data(k, a + b))
  {
    var u := Push(t, Data(k, a));
    if t != [] && t[|t| - 1].Data? && t[|t| - 1].kind == k {
      assert t[|t| - 1].bytes + a + b == t[|t| - 1].bytes + (a + b);
    }
  }

  lemma GrowTwice(t: seq<Event>, k: DataKind, a: string, b: string)
    ensures Grow(Grow(t, k, a), k, b) == Grow(t, k, a + b)
  {
    if a == [] {
      assert a + b == b;
    } else if b == [] {
      assert a + b == a;
    } else {
      PushTwice(t, k, a, b);
    }
  }

  /** Where `t` already ends with kind `k`, an empty callback of that kind changes nothing. */
  lemma PushEmpty(t: seq<Event>, k: DataKind, a: string)
    ensures Push(Push(t, Data(k, a)), Data(k, [])) == Push(t, Data(k, a))
  {
    PushTwice(t, k, a, []);
    assert a + [] == a;
  }

  lemma MergeSnoc(calls: seq<Event>, e: Event)
    ensures Merge(calls + [e]) == Push(Merge(calls), e)
  {
    assert (calls + [e])[..|calls|] == calls;
  }

  lemma SliceSnoc(data: string, a: nat, p: nat)
    requires a <= p < |data|
    ensures data[a..p + 1] == data[a..p] + [data[p]]
  {
  }

  lemma SliceSplit(data: string, a: nat, p: nat, q: nat)
    requires a <= p <= q <= |data|
    ensures data[a..q] == data[a..p] + data[p..q]
  {
  }
}
