/** The timers of src/ae.c: a linked list with lazy deletion. */
module EventLoop {
  import opened Timers

  class TimeEvent {
    ghost const born: nat
    var id: int
    var when: Instant
    var next: TimeEvent?

    constructor (id: nat, when: Instant, next: TimeEvent?)
      ensures born == id && this.id == id && this.when == when && this.next == next
    {
      born, this.id, this.when, this.next := id, id, when, next;
    }

    ghost function View(): Timer
      reads this
    {
      Timer(born, id == DELETED, when)
    }
  }

  /** The nodes from the head on. */
  ghost predicate Linked(nodes: seq<TimeEvent>)
    reads nodes
  {
    && (forall i, j :: 0 <= i < j < |nodes| ==> nodes[i].born > nodes[j].born)
    && (forall i :: 0 <= i < |nodes| ==> nodes[i].id == nodes[i].born || nodes[i].id == DELETED)
    && (forall i :: 0 <= i < |nodes| ==> nodes[i].next == Node(nodes, i + 1))
  }

  ghost function Node(nodes: seq<TimeEvent>, i: nat): TimeEvent? { if i < |nodes| then nodes[i] else null }

  ghost function Views(nodes: seq<TimeEvent>): (r: seq<Timer>)
    reads nodes
    ensures |r| == |nodes| && forall i :: 0 <= i < |nodes| ==> r[i] == nodes[i].View()
  {
    if nodes == [] then [] else [nodes[0].View()] + Views(nodes[1..])
  }

  class EventLoop {
    const env: Env
    var head: TimeEvent?
    var nextId: nat
    var lastTime: int
    var ticks: nat
    var calls: nat
    ghost var nodes: seq<TimeEvent>
    ghost var log: seq<Entry>

    ghost predicate Valid()
      reads this, nodes
    {
      Linked(nodes) && head == Node(nodes, 0) && forall i :: 0 <= i < |nodes| ==> nodes[i].born < nextId
    }

    ghost function View(): World
      reads this, nodes
    {
      World(Views(nodes), nextId, ticks, calls, log)
    }

    constructor (env: Env, now: int)
      ensures Valid() && this.env == env && nodes == [] && View() == World([], 0, 0, 0, [])
    {
      this.env, head, nextId, lastTime, ticks, calls := env, null, 0, now, 0, 0;
      nodes, log := [], [];
    }

    method ReadClock() returns (now: Instant)
      modifies `ticks
      ensures now == env.clock(old(ticks)) && ticks == old(ticks) + 1
    {
      now := env.clock(ticks);
      ticks := ticks + 1;
    }

    /** aeCreateTimeEvent. */
    method CreateTimeEvent(delay: nat) returns (id: nat)
      requires Valid()
      modifies this
      ensures Valid() && id == old(nextId) && lastTime == old(lastTime)
      ensures View() == Do(env, old(View()), Create(delay))
      ensures nodes != [] && nodes[0].id == id && Millis(nodes[0].when) == Millis(env.clock(old(ticks))) + delay
      ensures |nodes| == |old(nodes)| + 1 && fresh(nodes[0]) && nodes[1..] == old(nodes)
    {
      hide Linked, Views, Later;
      id := nextId;
      nextId := nextId + 1;
      var now := ReadClock();
      var te := new TimeEvent(id, Later(now, delay), head);
      Prepended(te, nodes);
      nodes := [te] + nodes;
      head := te;
      assert nodes[1..] == old(nodes);
    }

    /** aeDeleteTimeEvent. */
    method DeleteTimeEvent(id: int) returns (ok: bool)
      requires Valid()
      modifies nodes
      ensures Valid() && View() == Do(env, old(View()), Delete(id))
      ensures ok == exists i :: 0 <= i < |nodes| && Id(old(View()).list[i]) == id
    {
      hide Linked, Views, Mark, Id;
      var te := head;
      ghost var i := 0;
      ghost var was := Views(nodes);
      while te != null
        invariant 0 <= i <= |nodes| && te == Node(nodes, i) && Valid() && Views(nodes) == was
        invariant forall j :: 0 <= j < i ==> Id(was[j]) != id
        invariant Mark(was, id) == was[..i] + Mark(was[i..], id)
        decreases |nodes| - i
      {
        assert Id(was[i]) == te.id by { NodeView(nodes, i); }
        if te.id == id {
          MarkDeleted(te, nodes, i);
          MarkHere(was, id, i);
          return true;
        }
        NodeNext(nodes, i);
        MarkNext(was, id, i);
        te := te.next;
        i := i + 1;
      }
      assert was[..i] == was && was[i..] == [];
      return false;
    }

    /** aeSearchNearestTimer: the earliest timer, deleted or not, and the newest of those. */
    method SearchNearestTimer() returns (nearest: TimeEvent?)
      requires Valid()
      ensures nearest == null <==> nodes == []
      ensures nearest != null ==> exists k :: 0 <= k < |nodes| && Nearest(nodes, k, |nodes|) && nodes[k] == nearest
    {
      hide Linked, Millis;
      var te := head;
      nearest := null;
      ghost var i, k := 0, 0;
      while te != null
        invariant 0 <= i <= |nodes| && te == Node(nodes, i) && (nearest == null <==> i == 0)
        invariant i > 0 ==> 0 <= k < i && Nearest(nodes, k, i) && nodes[k] == nearest
        decreases |nodes| - i
      {
        if nearest == null || !AtLeast(te.when, nearest.when) {
          nearest, k := te, i;
        }
        NodeNext(nodes, i);
        te := te.next;
        i := i + 1;
      }
    }

    /** One operation of a callback. */
    method Perform(op: Op)
      requires Valid()
      modifies this, nodes
      ensures Valid() && View() == Do(env, old(View()), op) && lastTime == old(lastTime)
      ensures Behind(nodes, old(nodes))
      ensures forall i :: 0 <= i < |nodes| ==> nodes[i] in old(nodes) || fresh(nodes[i])
    {
      hide Linked, Views, Do, Behind;
      BehindItself(nodes);
      match op
      case Create(delay) =>
        ghost var before := nodes;
        var id := CreateTimeEvent(delay);
        KeepsTail(nodes, before, before);
      case Delete(id) =>
        var ok := DeleteTimeEvent(id);
    }

    /** The operations of a callback. */
    method RunCallback(ops: seq<Op>)
      requires Valid()
      modifies this, nodes
      ensures Valid() && View() == DoAll(env, old(View()), ops) && lastTime == old(lastTime)
      ensures Behind(nodes, old(nodes))
      ensures forall i :: 0 <= i < |nodes| ==> nodes[i] in old(nodes) || fresh(nodes[i])
    {
      hide Linked, Views, Do, DoAll, Behind;
      ghost var was, w := nodes, View();
      DoNothing(env, w, ops);
      BehindItself(nodes);
      for k := 0 to |ops|
        invariant Valid() && View() == DoAll(env, w, ops[..k]) && lastTime == old(lastTime)
        invariant Behind(nodes, was)
        invariant forall i :: 0 <= i < |nodes| ==> nodes[i] in old(nodes) || fresh(nodes[i])
      {
        ghost var before := nodes;
        DoOneMore(env, w, ops, k);
        Perform(ops[k]);
        BehindOn(nodes, before, was);
      }
      assert ops[..|ops|] == ops;
    }

    /** Takes the node at `pos` out of the list; `prev` is the node before it, or null at the head. */
    method Unlink(prev: TimeEvent?, te: TimeEvent, ghost pos: nat)
      requires Valid() && pos < |nodes| && te == nodes[pos] && te.id == DELETED
      requires if prev == null then pos == 0 else pos > 0 && prev == nodes[pos - 1]
      modifies `head, `nodes, `log, if prev == null then {} else {prev}
      ensures Valid() && nodes == old(nodes[..pos] + nodes[pos + 1..])
      ensures (View(), pos) == Visit(env, old(View()), pos)
    {
      hide Views, Linked;
      ghost var was := View();
      assert was.list[pos] == te.View();
      if prev == null {
        head := te.next;
        Headless(nodes, pos);
      } else {
        Bypass(prev, te, nodes, pos);
      }
      nodes := nodes[..pos] + nodes[pos + 1..];
      log := log + [Entry(te.born, Removed)];
    }

    /** The callback of the timer at `pos`, which it leaves at `at`. */
    method CallBack(te: TimeEvent, ghost pos: nat) returns (reaction: Reaction, ghost at: nat)
      requires Valid() && pos < |nodes| && te == nodes[pos]
      modifies this, nodes
      ensures Valid() && lastTime == old(lastTime) && reaction == env.react(old(calls))
      ensures View() == DoAll(env, old(View()).(calls := old(calls) + 1), reaction.ops)
      ensures |nodes| >= |old(nodes)| && at == pos + (|nodes| - |old(nodes)|) && nodes[at] == te
      ensures SameRest(nodes, at + 1, old(nodes), pos)
      ensures forall i :: 0 <= i < |nodes| ==> nodes[i] in old(nodes) || fresh(nodes[i])
    {
      hide Views, Linked, DoAll, SameRest, Behind;
      reaction := env.react(calls);
      calls := calls + 1;
      RunCallback(reaction.ops);
      TailShift(nodes, old(nodes), pos);
      at := pos + (|nodes| - |old(nodes)|);
    }

    /** Arms the timer at `at` again, or marks it deleted, as its callback said. */
    method Rearm(te: TimeEvent, reaction: Reaction, now: Instant, ghost pos: nat, ghost w: World, ghost at: nat)
      requires Valid() && at < |nodes| && te == nodes[at]
      requires pos < |w.list| <= |nodes| && at == pos + (|nodes| - |w.list|) && w.list[pos].born == te.born
      modifies `ticks, `log, te
      ensures Valid()
      ensures (View(), at + 1) == Refired(env, w, pos, old(View()), reaction, now)
    {
      hide Views, Linked, Later;
      ghost var d := View();
      assert d.list[at] == te.View();
      ghost var next := Never;
      match reaction.again {
        case NoMore =>
          MarkDeleted(te, nodes, at);
        case After(delay) =>
          var later := ReadClock();
          SetWhen(te, Later(later, delay), nodes, at);
          next := At(Later(later, delay));
      }
      log := log + [Entry(te.born, Fired(now, reaction.ops, next))];
    }

    /** A timer that is due: its callback runs, and it is armed again or marked deleted. */
    method Fire(te: TimeEvent, now: Instant, ghost pos: nat, ghost w: World) returns (ghost next: nat)
      requires Valid() && pos < |nodes| && te == nodes[pos] && te.id != DELETED
      requires View() == w.(ticks := w.ticks + 1) && now == env.clock(w.ticks) && AtLeast(now, te.when)
      modifies this, nodes
      ensures Valid() && lastTime == old(lastTime)
      ensures (View(), next) == Visit(env, w, pos)
      ensures 0 < next <= |nodes| && nodes[next - 1] == te && SameRest(nodes, next, old(nodes), pos)
      ensures forall i :: 0 <= i < |nodes| ==> nodes[i] in old(nodes) || fresh(nodes[i])
    {
      hide Views, Linked, AtLeast, DoAll, Later, Visit, Refired, SameRest;
      assert w.list[pos] == te.View();
      var reaction, at := CallBack(te, pos);
      VisitRefires(env, w, pos, View(), reaction);
      Rearm(te, reaction, now, pos, w, at);
      next := at + 1;
    }

    /** `te` is the node at `pos` and `prev` the one before it. */
    ghost predicate Cursor(prev: TimeEvent?, te: TimeEvent?, pos: nat)
      reads this
    {
      pos <= |nodes| && te == Node(nodes, pos) && if prev == null then pos == 0 else pos > 0 && prev == nodes[pos - 1]
    }

    /** The body of the second loop of processTimeEvents. */
    method VisitTimer(prev: TimeEvent?, te: TimeEvent, maxId: int, ghost pos: nat)
      returns (prev': TimeEvent?, te': TimeEvent?, processed: nat, ghost pos': nat)
      requires Valid() && Cursor(prev, te, pos) && te.born <= maxId
      modifies this, nodes
      ensures Valid() && Cursor(prev', te', pos') && lastTime == old(lastTime)
      ensures (View(), pos') == Visit(env, old(View()), pos)
      ensures processed == calls - old(calls)
      ensures SameRest(nodes, pos', old(nodes), pos)
      ensures forall i :: 0 <= i < |nodes| ==> nodes[i] in old(nodes) || fresh(nodes[i])
    {
      hide Views, Linked, AtLeast, DoAll, Later, SameRest;
      ghost var v := View();
      assert v.list[pos] == te.View();
      NodeNext(nodes, pos);
      SameAfter(nodes, pos);
      if te.id == DELETED {
        var next := te.next;
        Unlink(prev, te, pos);
        return prev, next, 0, pos;
      }
      if te.id > maxId {
        assert false by { NodeView(nodes, pos); NodeId(nodes, pos); }
      }
      var clock := ReadClock();
      if AtLeast(clock, te.when) {
        hide Visit;
        pos' := Fire(te, clock, pos, v);
        processed := 1;
        CallsFired(env, v, pos);
      } else {
        log := log + [Entry(te.born, Waiting(clock))];
        pos', processed := pos + 1, 0;
      }
      NodeNext(nodes, pos' - 1);
      prev', te' := te, te.next;
    }

    /** The first loop of processTimeEvents. */
    method Rewind()
      requires Valid()
      modifies nodes
      ensures Valid() && View() == Skewed(old(View()), true)
    {
      hide Views, Linked;
      var te := head;
      ghost var i := 0;
      ghost var was := Views(nodes);
      while te != null
        invariant 0 <= i <= |nodes| && te == Node(nodes, i) && Valid()
        invariant forall j :: 0 <= j < |nodes| ==>
                    Views(nodes)[j] == if j < i then was[j].(when := Time(0, was[j].when.ms)) else was[j]
        decreases |nodes| - i
      {
        assert Views(nodes)[i] == te.View();
        SetWhen(te, Time(0, te.when.ms), nodes, i);
        NodeNext(nodes, i);
        te := te.next;
        i := i + 1;
      }
      assert Views(nodes) == Rewound(was);
    }

    /** The second loop of processTimeEvents. */
    method VisitTimers() returns (processed: nat)
      requires Valid()
      modifies this, nodes
      ensures Valid() && lastTime == old(lastTime)
      ensures View() == Pass(env, old(View()), 0) && processed == calls - old(calls)
    {
      hide Views, Linked, AtLeast, Visit, Pass, SameRest;
      processed := 0;
      ghost var w := View();
      ghost var pos: nat := 0;
      var prev: TimeEvent? := null;
      var te := head;
      var maxId := nextId - 1;
      while te != null
        invariant Valid() && lastTime == old(lastTime) && Cursor(prev, te, pos)
        invariant forall i :: pos <= i < |nodes| ==> nodes[i].born <= maxId
        invariant forall i :: 0 <= i < |nodes| ==> nodes[i] in old(nodes) || fresh(nodes[i])
        invariant Pass(env, View(), pos) == Pass(env, w, 0) && processed == calls - w.calls
        decreases |nodes| - pos
      {
        ghost var before, at := nodes, pos;
        var k;
        PassStep(env, View(), pos);
        prev, te, k, pos := VisitTimer(prev, te, maxId, pos);
        processed := processed + k;
        RestBorn(nodes, pos, before, at, maxId);
      }
      PassEnd(env, View());
    }

    /** processTimeEvents. */
    method ProcessTimeEvents(now: int) returns (processed: nat, ghost visits: seq<Entry>, ghost added: nat)
      requires Valid()
      modifies this, nodes
      ensures Valid() && lastTime == now
      ensures View() == Pass(env, Skewed(old(View()), now < old(lastTime)), 0)
      ensures Passed(env, Skewed(old(View()), now < old(lastTime)), 0, View(), visits, added)
      ensures processed == Calls(visits)
    {
      hide Views, Linked, AtLeast, Pass, Passed, Calls;
      if now < lastTime { Rewind(); }
      lastTime := now;
      ghost var w := View();
      assert Ordered(w.list, w.nextId) by { ListOrdered(nodes, nextId); }
      processed := VisitTimers();
      visits, added := PassIs(env, w, 0);
      PassedCalls(env, w, 0, View(), visits, added);
    }
  }

  lemma MarkNext(ts: seq<Timer>, id: int, i: nat)
    requires i < |ts| && Id(ts[i]) != id
    ensures ts[..i] + Mark(ts[i..], id) == ts[..i + 1] + Mark(ts[i + 1..], id)
  {
    assert ts[i..][1..] == ts[i + 1..];
  }

  lemma MarkHere(ts: seq<Timer>, id: int, i: nat)
    requires i < |ts| && Id(ts[i]) == id
    ensures ts[..i] + Mark(ts[i..], id) == ts[i := ts[i].(deleted := true)]
  {
    assert ts[i..][1..] == ts[i + 1..];
  }

  lemma NodeView(nodes: seq<TimeEvent>, i: nat)
    requires Linked(nodes) && i < |nodes|
    ensures Id(Views(nodes)[i]) == nodes[i].id && Views(nodes)[i].born == nodes[i].born
  {
  }

  lemma NodeNext(nodes: seq<TimeEvent>, i: nat)
    requires Linked(nodes) && i < |nodes|
    ensures nodes[i].next == Node(nodes, i + 1)
  {
  }

  lemma Prepended(te: TimeEvent, nodes: seq<TimeEvent>)
    requires Linked(nodes) && te.next == Node(nodes, 0) && te.id == te.born
    requires forall i :: 0 <= i < |nodes| ==> nodes[i].born < te.born
    ensures Linked([te] + nodes) && Views([te] + nodes) == [te.View()] + Views(nodes)
  {
    ViewsPrepended(te, nodes);
    hide Views;
    BornPrepended(te, nodes);
    NextPrepended(te, nodes);
  }

  lemma BornPrepended(te: TimeEvent, nodes: seq<TimeEvent>)
    requires forall i, j :: 0 <= i < j < |nodes| ==> nodes[i].born > nodes[j].born
    requires forall i :: 0 <= i < |nodes| ==> nodes[i].born < te.born
    ensures forall i, j :: 0 <= i < j < |[te] + nodes| ==> ([te] + nodes)[i].born > ([te] + nodes)[j].born
  {
    var all := [te] + nodes;
    forall i, j | 0 <= i < j < |all|
      ensures all[i].born > all[j].born
    {
      assert all[j] == nodes[j - 1];
      if i > 0 { assert all[i] == nodes[i - 1]; }
    }
  }

  lemma NextPrepended(te: TimeEvent, nodes: seq<TimeEvent>)
    requires te.next == Node(nodes, 0) && te.id == te.born
    requires forall i :: 0 <= i < |nodes| ==> nodes[i].id == nodes[i].born || nodes[i].id == DELETED
    requires forall i :: 0 <= i < |nodes| ==> nodes[i].next == Node(nodes, i + 1)
    ensures var all := [te] + nodes;
            forall i :: 0 <= i < |all| ==>
              (all[i].id == all[i].born || all[i].id == DELETED) && all[i].next == Node(all, i + 1)
  {
    var all := [te] + nodes;
    forall i | 0 <= i < |all|
      ensures (all[i].id == all[i].born || all[i].id == DELETED) && all[i].next == Node(all, i + 1)
    {
      NodeShift(te, nodes, i);
      if i > 0 { assert all[i] == nodes[i - 1]; }
    }
  }

  lemma NodeShift(te: TimeEvent, nodes: seq<TimeEvent>, i: nat)
    ensures Node([te] + nodes, i + 1) == Node(nodes, i)
  {
  }

  lemma ViewsPrepended(te: TimeEvent, nodes: seq<TimeEvent>)
    ensures Views([te] + nodes) == [te.View()] + Views(nodes)
  {
    assert ([te] + nodes)[1..] == nodes;
  }

  lemma ViewsUpdate(nodes: seq<TimeEvent>, was: seq<Timer>, i: nat, t: Timer)
    requires i < |nodes| == |was| && nodes[i].View() == t
    requires forall j :: 0 <= j < |nodes| && j != i ==> nodes[j].View() == was[j]
    ensures Views(nodes) == was[i := t]
  {
  }

  /** Overwrites the id of one node. */
  method MarkDeleted(te: TimeEvent, ghost nodes: seq<TimeEvent>, ghost i: nat)
    requires Linked(nodes) && i < |nodes| && te == nodes[i]
    modifies te`id
    ensures Linked(nodes) && Views(nodes) == old(Views(nodes))[i := old(Views(nodes))[i].(deleted := true)]
  {
    hide Views;
    ghost var was := Views(nodes);
    te.id := DELETED;
    ViewsUpdate(nodes, was, i, was[i].(deleted := true));
  }

  /** No timer before `n` is earlier than number `k`, and none before `k` is as early. */
  ghost predicate Nearest(nodes: seq<TimeEvent>, k: nat, n: nat)
    requires k < n <= |nodes|
    reads nodes
  {
    && (forall j :: 0 <= j < n ==> Millis(nodes[k].when) <= Millis(nodes[j].when))
    && (forall j :: 0 <= j < k ==> Millis(nodes[k].when) < Millis(nodes[j].when))
  }

  /** `was` is the end of `nodes`. */
  ghost predicate Behind(nodes: seq<TimeEvent>, was: seq<TimeEvent>) {
    |nodes| >= |was| && forall i :: 0 <= i < |was| ==> nodes[|nodes| - |was| + i] == was[i]
  }

  lemma BehindItself(nodes: seq<TimeEvent>)
    ensures Behind(nodes, nodes)
  {
  }

  lemma BehindOn(nodes: seq<TimeEvent>, before: seq<TimeEvent>, was: seq<TimeEvent>)
    requires Behind(nodes, before) && Behind(before, was)
    ensures Behind(nodes, was)
  {
    forall i | 0 <= i < |was|
      ensures nodes[|nodes| - |was| + i] == was[i]
    {
      assert nodes[|nodes| - |before| + (|before| - |was| + i)] == before[|before| - |was| + i];
    }
  }

  lemma KeepsTail(nodes: seq<TimeEvent>, before: seq<TimeEvent>, was: seq<TimeEvent>)
    requires |nodes| == |before| + 1 && nodes[1..] == before && Behind(before, was)
    ensures Behind(nodes, was)
  {
    forall i | 0 <= i < |was|
      ensures nodes[|nodes| - |was| + i] == was[i]
    {
      assert nodes[1..][|before| - |was| + i] == nodes[|nodes| - |was| + i];
    }
  }

  lemma ViewsWithout(nodes: seq<TimeEvent>, was: seq<Timer>, pos: nat)
    requires pos < |nodes| == |was|
    requires forall j :: 0 <= j < |nodes| ==> nodes[j].View() == was[j]
    ensures Views(nodes[..pos] + nodes[pos + 1..]) == was[..pos] + was[pos + 1..]
  {
  }

  lemma Headless(nodes: seq<TimeEvent>, pos: nat)
    requires Linked(nodes) && pos == 0 < |nodes|
    ensures var rest := nodes[..pos] + nodes[pos + 1..];
            Linked(rest) && Views(rest) == Views(nodes)[..pos] + Views(nodes)[pos + 1..]
                && nodes[0].next == Node(rest, 0)
  {
    hide Views;
    ViewsWithout(nodes, Views(nodes), pos);
  }

  /** prev->next = te->next. */
  method Bypass(prev: TimeEvent, te: TimeEvent, ghost nodes: seq<TimeEvent>, ghost pos: nat)
    requires Linked(nodes) && 0 < pos < |nodes| && te == nodes[pos] && prev == nodes[pos - 1]
    modifies prev`next
    ensures var rest := nodes[..pos] + nodes[pos + 1..];
            Linked(rest) && Views(rest) == old(Views(nodes)[..pos] + Views(nodes)[pos + 1..])
  {
    hide Views;
    ghost var was := Views(nodes);
    assert forall j :: 0 <= j < |nodes| && j != pos - 1 ==> nodes[j] != prev;
    prev.next := te.next;
    ViewsWithout(nodes, was, pos);
    LinkedWithout(nodes, pos);
  }

  lemma LinkedWithout(nodes: seq<TimeEvent>, pos: nat)
    requires 0 < pos < |nodes|
    requires forall i, j :: 0 <= i < j < |nodes| ==> nodes[i].born > nodes[j].born
    requires forall i :: 0 <= i < |nodes| ==> nodes[i].id == nodes[i].born || nodes[i].id == DELETED
    requires forall i :: 0 <= i < |nodes| ==>
               nodes[i].next == if i == pos - 1 then Node(nodes, pos + 1) else Node(nodes, i + 1)
    ensures Linked(nodes[..pos] + nodes[pos + 1..])
  {
    hide Node;
    var rest := nodes[..pos] + nodes[pos + 1..];
    forall i | 0 <= i < |rest|
      ensures rest[i] == nodes[if i < pos then i else i + 1] && rest[i].next == Node(rest, i + 1)
    {
      NodeWithout(nodes, pos, i);
    }
    BornWithout(nodes, pos);
  }

  lemma NodeWithout(nodes: seq<TimeEvent>, pos: nat, i: nat)
    requires pos < |nodes| && i < |nodes| - 1
    ensures var rest := nodes[..pos] + nodes[pos + 1..];
            rest[i] == nodes[if i < pos then i else i + 1]
            && Node(rest, i + 1) == Node(nodes, if i + 1 < pos then i + 1 else i + 2)
  {
  }

  lemma BornWithout(nodes: seq<TimeEvent>, pos: nat)
    requires pos < |nodes| && forall i, j :: 0 <= i < j < |nodes| ==> nodes[i].born > nodes[j].born
    ensures var rest := nodes[..pos] + nodes[pos + 1..];
            forall i, j :: 0 <= i < j < |rest| ==> rest[i].born > rest[j].born
  {
    var rest := nodes[..pos] + nodes[pos + 1..];
    forall i, j | 0 <= i < j < |rest|
      ensures rest[i].born > rest[j].born
    {
      NodeWithout(nodes, pos, i);
      NodeWithout(nodes, pos, j);
    }
  }

  /** Overwrites the time of one node. */
  method SetWhen(te: TimeEvent, when: Instant, ghost nodes: seq<TimeEvent>, ghost i: nat)
    requires Linked(nodes) && i < |nodes| && te == nodes[i]
    modifies te`when
    ensures Linked(nodes) && Views(nodes) == old(Views(nodes))[i := old(Views(nodes))[i].(when := when)]
  {
    hide Views;
    ghost var was := Views(nodes);
    te.when := when;
    ViewsUpdate(nodes, was, i, was[i].(when := when));
  }

  lemma ListOrdered(nodes: seq<TimeEvent>, nextId: nat)
    requires Linked(nodes) && forall i :: 0 <= i < |nodes| ==> nodes[i].born < nextId
    ensures Ordered(Views(nodes), nextId)
  {
  }

  lemma NodeId(nodes: seq<TimeEvent>, i: nat)
    requires Linked(nodes) && i < |nodes|
    ensures nodes[i].id == nodes[i].born || nodes[i].id == DELETED
  {
  }

  lemma CallsFired(env: Env, w: World, pos: nat)
    requires pos < |w.list| && !w.list[pos].deleted && AtLeast(env.clock(w.ticks), w.list[pos].when)
    ensures Visit(env, w, pos).0.calls == w.calls + 1
  {
    hide AtLeast, Later;
  }

  /** The nodes from `p` on are those that came after the one at `pos`. */
  ghost predicate SameRest(nodes: seq<TimeEvent>, p: nat, was: seq<TimeEvent>, pos: nat) {
    && pos < |was| && p <= |nodes| && |nodes| - p == |was| - pos - 1
    && forall i :: p <= i < |nodes| ==> nodes[i] == was[i - p + pos + 1]
  }

  lemma SameAfter(nodes: seq<TimeEvent>, pos: nat)
    requires pos < |nodes|
    ensures SameRest(nodes, pos + 1, nodes, pos) && SameRest(nodes[..pos] + nodes[pos + 1..], pos, nodes, pos)
  {
  }

  lemma TailShift(nodes: seq<TimeEvent>, was: seq<TimeEvent>, pos: nat)
    requires pos < |was| && Behind(nodes, was)
    ensures |nodes| >= |was| && SameRest(nodes, pos + 1 + (|nodes| - |was|), was, pos)
    ensures nodes[pos + (|nodes| - |was|)] == was[pos]
  {
    var k := |nodes| - |was|;
    forall i | k <= i < |nodes|
      ensures nodes[i] == was[i - k]
    {
      assert nodes[k + (i - k)] == was[i - k];
    }
  }

  lemma RestBorn(nodes: seq<TimeEvent>, p: nat, was: seq<TimeEvent>, pos: nat, maxId: int)
    requires SameRest(nodes, p, was, pos) && forall i :: pos <= i < |was| ==> was[i].born <= maxId
    ensures |nodes| - p == |was| - pos - 1 && forall i :: p <= i < |nodes| ==> nodes[i].born <= maxId
  {
  }

  lemma DoNothing(env: Env, w: World, ops: seq<Op>)
    ensures DoAll(env, w, ops[..0]) == w
  {
  }

  lemma DoOneMore(env: Env, w: World, ops: seq<Op>, k: nat)
    requires k < |ops|
    ensures DoAll(env, w, ops[..k + 1]) == Do(env, DoAll(env, w, ops[..k]), ops[k])
  {
    hide Do;
    assert ops[..k + 1][..k] == ops[..k];
  }
}
