/** What the timers of the event loop promise: one pass over a list of values. */
module Timers {
  datatype Time = Time(sec: int, ms: int)

  type Instant = t: Time | 0 <= t.ms < 1000 witness Time(0, 0)

  function Millis(t: Time): int { t.sec * 1000 + t.ms }

  /** aeAddMillisecondsToNow. */
  function Later(now: Instant, delay: nat): (t: Instant)
    ensures Millis(t) == Millis(now) + delay
  {
    var sec, ms := now.sec + delay / 1000, now.ms + delay % 1000;
    if ms >= 1000 then Time(sec + 1, ms - 1000) else Time(sec, ms)
  }

  function AtLeast(now: Instant, when: Instant): (b: bool)
    ensures b <==> Millis(now) >= Millis(when)
  {
    now.sec > when.sec || (now.sec == when.sec && now.ms >= when.ms)
  }

  const DELETED: int := -1

  /** A timer; `born` is the id it was created with. */
  datatype Timer = Timer(born: nat, deleted: bool, when: Instant)

  function Id(t: Timer): int { if t.deleted then DELETED else t.born }

  /** What a callback does to the timers, and what it returns: AE_NOMORE or a delay. */
  datatype Op = Create(delay: nat) | Delete(id: int)
  datatype Again = NoMore | After(delay: nat)
  datatype Reaction = Reaction(ops: seq<Op>, again: Again)

  /** The clock as it is read for the first, second, ... time, and the callbacks as they are run. */
  datatype Env = Env(clock: nat -> Instant, react: nat -> Reaction)

  datatype MaybeTime = Never | At(when: Instant)
  datatype Verdict = Removed | Waiting(now: Instant) | Fired(now: Instant, ops: seq<Op>, next: MaybeTime)
  datatype Entry = Entry(born: nat, verdict: Verdict)

  /** The timers, the next id, how often the clock was read, how many callbacks have run, and the timers visited. */
  datatype World = World(list: seq<Timer>, nextId: nat, ticks: nat, calls: nat, log: seq<Entry>)

  /** Newest first, and all of them older than the next id. */
  ghost predicate Ordered(list: seq<Timer>, nextId: nat) {
    && (forall i, j :: 0 <= i < j < |list| ==> list[i].born > list[j].born)
    && (forall i :: 0 <= i < |list| ==> list[i].born < nextId)
  }

  /** aeDeleteTimeEvent: marks the first timer with this id. */
  function Mark(list: seq<Timer>, id: int): (r: seq<Timer>)
    ensures |r| == |list|
  {
    if list == [] then []
    else if Id(list[0]) == id then [list[0].(deleted := true)] + list[1..]
    else [list[0]] + Mark(list[1..], id)
  }

  /** aeCreateTimeEvent: a new head. */
  function Do(env: Env, w: World, op: Op): World {
    match op
    case Create(delay) =>
      var t := Timer(w.nextId, false, Later(env.clock(w.ticks), delay));
      w.(list := [t] + w.list, nextId := w.nextId + 1, ticks := w.ticks + 1)
    case Delete(id) => w.(list := Mark(w.list, id))
  }

  function DoAll(env: Env, w: World, ops: seq<Op>): (r: World)
    ensures |r.list| >= |w.list| && r.calls == w.calls && r.log == w.log
  {
    if ops == [] then w else Do(env, DoAll(env, w, ops[..|ops| - 1]), ops[|ops| - 1])
  }

  /** The visit of the timer at `pos`; the next one is at `r.1`. */
  function Visit(env: Env, w: World, pos: nat): (r: (World, nat))
    requires pos < |w.list|
    ensures |r.0.list| - r.1 == |w.list| - pos - 1 && r.1 >= 0
  {
    var t := w.list[pos];
    if t.deleted then
      (w.(list := w.list[..pos] + w.list[pos + 1..], log := w.log + [Entry(t.born, Removed)]), pos)
    else
      var now := env.clock(w.ticks);
      if AtLeast(now, t.when) then
        var reaction := env.react(w.calls);
        var v := DoAll(env, w.(ticks := w.ticks + 1, calls := w.calls + 1), reaction.ops);
        var at := pos + (|v.list| - |w.list|);
        var u := v.list[at];
        match reaction.again
        case NoMore =>
          (v.(list := v.list[at := u.(deleted := true)],
              log := w.log + [Entry(t.born, Fired(now, reaction.ops, Never))]), at + 1)
        case After(delay) =>
          var when := Later(env.clock(v.ticks), delay);
          (v.(list := v.list[at := u.(when := when)], ticks := v.ticks + 1,
              log := w.log + [Entry(t.born, Fired(now, reaction.ops, At(when)))]), at + 1)
      else
        (w.(ticks := w.ticks + 1, log := w.log + [Entry(t.born, Waiting(now))]), pos + 1)
  }

  /** A visit that fires, in terms of the world `d` that the callback leaves. */
  function Refired(env: Env, w: World, pos: nat, d: World, reaction: Reaction, now: Instant): (r: (World, nat))
    requires pos < |w.list| <= |d.list|
  {
    var at := pos + (|d.list| - |w.list|);
    var next := match reaction.again case NoMore => Never case After(delay) => At(Later(env.clock(d.ticks), delay));
    var u := if next.Never? then d.list[at].(deleted := true) else d.list[at].(when := next.when);
    (World(d.list[at := u], d.nextId, if next.Never? then d.ticks else d.ticks + 1, d.calls,
           d.log + [Entry(w.list[pos].born, Fired(now, reaction.ops, next))]), at + 1)
  }

  lemma VisitRefires(env: Env, w: World, pos: nat, d: World, reaction: Reaction)
    requires pos < |w.list| && !w.list[pos].deleted && AtLeast(env.clock(w.ticks), w.list[pos].when)
    requires reaction == env.react(w.calls)
             && d == DoAll(env, w.(ticks := w.ticks + 1, calls := w.calls + 1), reaction.ops)
    ensures Visit(env, w, pos) == Refired(env, w, pos, d, reaction, env.clock(w.ticks))
  {
    hide AtLeast, DoAll, Later;
  }

  /** The loop of processTimeEvents. */
  function Pass(env: Env, w: World, pos: nat): World
    requires pos <= |w.list|
    decreases |w.list| - pos
  {
    if pos == |w.list| then w else var (v, p) := Visit(env, w, pos); Pass(env, v, p)
  }

  // ----- what the operations of a callback do

  predicate Deletes(ops: seq<Op>, born: nat) { Delete(born) in ops }

  function Marked(t: Timer, ops: seq<Op>): Timer { t.(deleted := t.deleted || Deletes(ops, t.born)) }

  lemma {:induction false} MarkAt(list: seq<Timer>, nextId: nat, id: int, i: nat)
    requires Ordered(list, nextId) && i < |list|
    ensures Mark(list, id)[i] == list[i].(deleted := list[i].deleted || list[i].born == id)
  {
    if Id(list[0]) != id && i > 0 {
      MarkAt(list[1..], nextId, id, i - 1);
    }
  }

  lemma MarkOrdered(list: seq<Timer>, nextId: nat, id: int)
    requires Ordered(list, nextId)
    ensures Ordered(Mark(list, id), nextId)
  {
    hide Mark;
    forall i | 0 <= i < |list|
      ensures Mark(list, id)[i].born == list[i].born
    {
      MarkAt(list, nextId, id, i);
    }
  }

  /** How many timers the operations create. */
  function Creates(ops: seq<Op>): nat {
    if ops == [] then 0 else Creates(ops[..|ops| - 1]) + if ops[|ops| - 1].Create? then 1 else 0
  }

  /** The timer that a creation with `delay` makes: its own delay after the clock as it is read for it, and deleted if
      and only if an operation after it names it. */
  predicate NewTimer(env: Env, tick: nat, id: nat, delay: nat, after: seq<Op>, t: Timer) {
    t.born == id && (t.deleted <==> Deletes(after, id)) && Millis(t.when) == Millis(env.clock(tick)) + delay
  }

  /** The timers that `ops` create, newest first, once `later` is done too. */
  ghost predicate Made(env: Env, tick: nat, id: nat, ops: seq<Op>, later: seq<Op>, ts: seq<Timer>) {
    && |ts| == Creates(ops)
    && forall j | 0 <= j < |ops| && ops[j].Create? ::
         var c := Creates(ops[..j]);
         c < |ts| && NewTimer(env, tick + c, id + c, ops[j].delay, ops[j + 1..] + later, ts[|ts| - 1 - c])
  }

  /** Old timers keep their places behind the new ones, and those the operations name are marked. */
  ghost predicate Effect(env: Env, w: World, r: World, ops: seq<Op>) {
    var k := |r.list| - |w.list|;
    && Ordered(r.list, r.nextId) && r.nextId == w.nextId + k && k >= 0 && r.ticks == w.ticks + Creates(ops)
    && Made(env, w.ticks, w.nextId, ops, [], r.list[..k])
    && (forall i :: 0 <= i < k ==> r.list[i].born >= w.nextId)
    && (forall i :: 0 <= i < |w.list| ==> r.list[k + i] == Marked(w.list[i], ops))
  }

  lemma MarkedMore(t: Timer, ops: seq<Op>, op: Op)
    ensures Marked(t, ops + [op])
         == Marked(t, ops).(deleted := Marked(t, ops).deleted || (op.Delete? && t.born == op.id))
  {
    assert Deletes(ops + [op], t.born) == (Deletes(ops, t.born) || op == Delete(t.born));
  }

  lemma OrderedNew(list: seq<Timer>, nextId: nat, t: Timer)
    requires Ordered(list, nextId) && t.born == nextId
    ensures Ordered([t] + list, nextId + 1)
  {
  }

  lemma CreatesMore(ops: seq<Op>, op: Op)
    ensures Creates(ops + [op]) == Creates(ops) + if op.Create? then 1 else 0
  {
    assert (ops + [op])[..|ops|] == ops;
  }

  lemma {:induction false} CreatesLess(ops: seq<Op>, j: nat)
    requires j < |ops| && ops[j].Create?
    ensures Creates(ops[..j]) < Creates(ops)
    decreases |ops|
  {
    var n := |ops| - 1;
    if j < n {
      assert ops[..n][..j] == ops[..j];
      CreatesLess(ops[..n], j);
    }
  }

  /** Where one more operation leaves the places of the operations before it. */
  lemma OneMore(ops: seq<Op>, op: Op, j: nat)
    requires j < |ops|
    ensures var all := ops + [op];
            all[..j] == ops[..j] && all[j] == ops[j] && all[j + 1..] + [] == ops[j + 1..] + [op]
            && ops[j + 1..] + [] == ops[j + 1..]
  {
  }

  lemma DeletesMore(ops: seq<Op>, op: Op, id: nat)
    ensures Deletes(ops + [op], id) <==> Deletes(ops, id) || op == Delete(id)
  {
  }

  lemma MadeOne(env: Env, tick: nat, id: nat, ops: seq<Op>, ts: seq<Timer>, delay: nat, t: Timer)
    requires Made(env, tick, id, ops, [], ts)
    requires !t.deleted && t.born == id + Creates(ops)
             && Millis(t.when) == Millis(env.clock(tick + Creates(ops))) + delay
    ensures Made(env, tick, id, ops + [Create(delay)], [], [t] + ts)
  {
    hide Creates, Deletes, Millis;
    var op, us := Create(delay), [t] + ts;
    var all := ops + [op];
    CreatesMore(ops, op);
    forall j | 0 <= j < |all| && all[j].Create?
      ensures var c := Creates(all[..j]);
              c < |us| && NewTimer(env, tick + c, id + c, all[j].delay, all[j + 1..] + [], us[|us| - 1 - c])
    {
      if j < |ops| {
        OneMore(ops, op, j);
        CreatesLess(ops, j);
        DeletesMore(ops[j + 1..], op, id + Creates(ops[..j]));
        assert us[|us| - 1 - Creates(ops[..j])] == ts[|ts| - 1 - Creates(ops[..j])];
      } else {
        assert all[..j] == ops && all[j + 1..] + [] == [];
        assert !Deletes([], t.born) by { NothingDeleted(t.born); }
      }
    }
  }

  lemma NothingDeleted(id: nat)
    ensures !Deletes([], id)
  {
  }

  lemma MadeMarked(env: Env, tick: nat, id: nat, ops: seq<Op>, ts: seq<Timer>, named: int, us: seq<Timer>)
    requires Made(env, tick, id, ops, [], ts) && |us| == |ts|
    requires forall i :: 0 <= i < |ts| ==> us[i] == ts[i].(deleted := ts[i].deleted || ts[i].born == named)
    ensures Made(env, tick, id, ops + [Delete(named)], [], us)
  {
    hide Creates, Deletes, Millis;
    var op := Delete(named);
    var all := ops + [op];
    CreatesMore(ops, op);
    forall j | 0 <= j < |all| && all[j].Create?
      ensures var c := Creates(all[..j]);
              c < |us| && NewTimer(env, tick + c, id + c, all[j].delay, all[j + 1..] + [], us[|us| - 1 - c])
    {
      OneMore(ops, op, j);
      CreatesLess(ops, j);
      DeletesMore(ops[j + 1..], op, id + Creates(ops[..j]));
    }
  }

  lemma CreateEffect(env: Env, w: World, v: World, ops: seq<Op>, delay: nat)
    requires Effect(env, w, v, ops)
    ensures Effect(env, w, Do(env, v, Create(delay)), ops + [Create(delay)])
  {
    hide Marked, Later, Made, Ordered;
    var r := Do(env, v, Create(delay));
    var k := |v.list| - |w.list|;
    assert Ordered(r.list, r.nextId) by { OrderedNew(v.list, v.nextId, r.list[0]); }
    CreatesMore(ops, Create(delay));
    MadeLength(env, w.ticks, w.nextId, ops, [], v.list[..k]);
    MadeOne(env, w.ticks, w.nextId, ops, v.list[..k], delay, r.list[0]);
    assert r.list[..k + 1] == [r.list[0]] + v.list[..k];
    forall i | 0 <= i < |w.list|
      ensures r.list[k + 1 + i] == Marked(w.list[i], ops + [Create(delay)])
    {
      assert r.list[k + 1 + i] == v.list[k + i];
      MarkedMore(w.list[i], ops, Create(delay));
    }
  }

  lemma DeleteEffect(env: Env, w: World, v: World, ops: seq<Op>, id: int)
    requires Effect(env, w, v, ops)
    ensures Effect(env, w, Do(env, v, Delete(id)), ops + [Delete(id)])
  {
    hide Marked, Mark, Ordered, Made;
    var r := Do(env, v, Delete(id));
    var k := |v.list| - |w.list|;
    MarkOrdered(v.list, v.nextId, id);
    CreatesMore(ops, Delete(id));
    forall i | 0 <= i < k
      ensures r.list[i].born >= w.nextId
      ensures r.list[..k][i] == v.list[..k][i].(deleted := v.list[i].deleted || v.list[i].born == id)
    {
      MarkAt(v.list, v.nextId, id, i);
    }
    MadeMarked(env, w.ticks, w.nextId, ops, v.list[..k], id, r.list[..k]);
    forall i | 0 <= i < |w.list|
      ensures r.list[k + i] == Marked(w.list[i], ops + [Delete(id)])
    {
      MarkAt(v.list, v.nextId, id, k + i);
      assert v.list[k + i] == Marked(w.list[i], ops);
      MarkedBorn(w.list[i], ops);
      MarkedMore(w.list[i], ops, Delete(id));
    }
  }

  lemma {:induction false} DoAllEffect(env: Env, w: World, ops: seq<Op>)
    requires Ordered(w.list, w.nextId)
    ensures Effect(env, w, DoAll(env, w, ops), ops)
  {
    hide Do, Effect, Ordered;
    if ops == [] {
      NoEffect(env, w);
    } else {
      var n := |ops| - 1;
      DoAllEffect(env, w, ops[..n]);
      assert ops == ops[..n] + [ops[n]];
      match ops[n]
      case Create(delay) => CreateEffect(env, w, DoAll(env, w, ops[..n]), ops[..n], delay);
      case Delete(id) => DeleteEffect(env, w, DoAll(env, w, ops[..n]), ops[..n], id);
    }
  }

  lemma NoEffect(env: Env, w: World)
    requires Ordered(w.list, w.nextId)
    ensures Effect(env, w, w, [])
  {
  }

  // ----- what a pass does

  /** The operations of one visit. */
  function OwnOps(e: Entry): seq<Op> { if e.verdict.Fired? then e.verdict.ops else [] }

  /** Everything that the callbacks in a log did. */
  function Ops(log: seq<Entry>): seq<Op> {
    if log == [] then []
    else (if log[0].verdict.Fired? then log[0].verdict.ops else []) + Ops(log[1..])
  }

  /** The timer after its own visit. */
  function Settled(t: Timer, e: Entry): Timer {
    match e.verdict
    case Fired(_, _, Never) => t.(deleted := true)
    case Fired(_, _, At(when)) => t.(when := when)
    case _ => t
  }

  /** How often a visit reads the clock: to see whether the timer is due, for each timer that the callback creates, and
      to arm the timer again. */
  function ReadsOf(e: Entry): nat {
    match e.verdict
    case Removed => 0
    case Waiting(_) => 1
    case Fired(_, ops, next) => 1 + Creates(ops) + if next.At? then 1 else 0
  }

  function Reads(log: seq<Entry>): nat { if log == [] then 0 else ReadsOf(log[0]) + Reads(log[1..]) }

  function CallsOf(e: Entry): nat { if e.verdict.Fired? then 1 else 0 }

  function Calls(log: seq<Entry>): nat { if log == [] then 0 else CallsOf(log[0]) + Calls(log[1..]) }

  /** The visits are right: every timer of `ts` is visited once and in order; it is removed exactly when it was deleted
      before its visit, and otherwise fires exactly when it is due by the clock as it is read next.  The callback that
      runs is the next one, and the timer is armed again by the clock as it is read when the callback is done. */
  ghost predicate Right(env: Env, ticks: nat, calls: nat, ts: seq<Timer>, log: seq<Entry>) {
    && |log| == |ts|
    && forall i :: 0 <= i < |ts| ==>
         RightVisit(env, ticks + Reads(log[..i]), calls + Calls(log[..i]), ts[i], log[i], Ops(log[..i]))
  }

  predicate RightVisit(env: Env, tick: nat, call: nat, t: Timer, e: Entry, before: seq<Op>) {
    && e.born == t.born
    && match e.verdict
       case Removed => t.deleted || Deletes(before, t.born)
       case Waiting(now) =>
         !t.deleted && !Deletes(before, t.born) && now == env.clock(tick) && Millis(now) < Millis(t.when)
       case Fired(now, ops, next) =>
         && !t.deleted && !Deletes(before, t.born) && now == env.clock(tick) && Millis(now) >= Millis(t.when)
         && ops == env.react(call).ops
         && match env.react(call).again
            case NoMore => next.Never?
            case After(delay) =>
              next.At? && Millis(next.when) == Millis(env.clock(tick + 1 + Creates(ops))) + delay
  }

  /** The old timers that a pass leaves: those not removed, settled by their visits and marked by any callback. */
  function Left(ts: seq<Timer>, log: seq<Entry>, ops: seq<Op>): seq<Timer>
    requires |log| == |ts|
  {
    if ts == [] then []
    else (if log[0].verdict.Removed? then [] else [Marked(Settled(ts[0], log[0]), ops)]) + Left(ts[1..], log[1..], ops)
  }

  /** The timers created on the way, newest first: each is due its own delay after the clock as it was read for it, and
      live unless an operation after it named it. */
  ghost predicate Arrived(env: Env, tick: nat, id: nat, log: seq<Entry>, ts: seq<Timer>) {
    && |ts| == Creates(Ops(log))
    && forall i | 0 <= i < |log| ::
         var c, own := Creates(Ops(log[..i])), OwnOps(log[i]);
         && c + Creates(own) <= |ts|
         && Made(env, tick + Reads(log[..i]) + 1, id + c, own, Ops(log[i + 1..]), ts[|ts| - c - Creates(own)..|ts| - c])
  }

  /** The outcome of a pass over `w.list[pos..]`: the visits are right, and the list is made of the timers created on
      the way, the timers before `pos`, and the timers left. */
  ghost predicate Passed(env: Env, w: World, pos: nat, r: World, log: seq<Entry>, added: nat)
    requires pos <= |w.list|
  {
    && r.log == w.log + log && Right(env, w.ticks, w.calls, w.list[pos..], log)
    && r.ticks == w.ticks + Reads(log) && r.calls == w.calls + Calls(log)
    && Ordered(r.list, r.nextId) && w.nextId <= r.nextId && added == r.nextId - w.nextId && added <= |r.list|
    && (forall i :: 0 <= i < added ==> r.list[i].born >= w.nextId)
    && Arrived(env, w.ticks, w.nextId, log, r.list[..added])
    && r.list[added..] == MarkedAll(w.list[..pos], Ops(log)) + Left(w.list[pos..], log, Ops(log))
  }

  function MarkedAll(ts: seq<Timer>, ops: seq<Op>): (r: seq<Timer>)
    ensures |r| == |ts| && forall i :: 0 <= i < |ts| ==> r[i] == Marked(ts[i], ops)
  {
    if ts == [] then [] else MarkedAll(ts[..|ts| - 1], ops) + [Marked(ts[|ts| - 1], ops)]
  }

  /** What stays of one visit. */
  function Stays(t: Timer, e: Entry): seq<Timer> {
    if e.verdict.Removed? then [] else [Marked(Settled(t, e), OwnOps(e))]
  }

  /** One visit: `v` has `k` new timers, then those before `pos` and the one at `pos` if it stays, then at `p` the
      rest. */
  ghost predicate Visited(env: Env, w: World, pos: nat, v: World, p: nat, e: Entry, k: nat)
    requires pos < |w.list|
  {
    && v.log == w.log + [e] && RightVisit(env, w.ticks, w.calls, w.list[pos], e, [])
    && v.ticks == w.ticks + ReadsOf(e) && v.calls == w.calls + CallsOf(e)
    && Ordered(v.list, v.nextId) && v.nextId == w.nextId + k && k <= p <= |v.list|
    && Made(env, w.ticks + 1, w.nextId, OwnOps(e), [], v.list[..k])
    && (forall i :: 0 <= i < k ==> v.list[i].born >= w.nextId)
    && v.list[k..p] == MarkedAll(w.list[..pos], OwnOps(e))
                       + Stays(w.list[pos], e)
    && v.list[p..] == MarkedAll(w.list[pos + 1..], OwnOps(e))
  }

  lemma MarkedNothing(ts: seq<Timer>)
    ensures MarkedAll(ts, []) == ts
  {
  }

  lemma NoneMade(env: Env, tick: nat, id: nat)
    ensures Made(env, tick, id, [], [], []) && Arrived(env, tick, id, [], [])
  {
  }

  lemma OrderedWithout(list: seq<Timer>, nextId: nat, pos: nat)
    requires Ordered(list, nextId) && pos < |list|
    ensures Ordered(list[..pos] + list[pos + 1..], nextId)
  {
  }

  lemma VisitQuiet(env: Env, w: World, pos: nat) returns (e: Entry)
    requires Ordered(w.list, w.nextId) && pos < |w.list|
    requires w.list[pos].deleted || !AtLeast(env.clock(w.ticks), w.list[pos].when)
    ensures Visited(env, w, pos, Visit(env, w, pos).0, Visit(env, w, pos).1, e, 0)
  {
    hide Ordered, MarkedAll;
    NoneMade(env, w.ticks + 1, w.nextId);
    var t := w.list[pos];
    MarkedNothing(w.list[..pos]);
    MarkedNothing(w.list[pos + 1..]);
    if t.deleted {
      e := Entry(t.born, Removed);
      OrderedWithout(w.list, w.nextId, pos);
      var list := w.list[..pos] + w.list[pos + 1..];
      assert list[0..pos] == w.list[..pos] && list[pos..] == w.list[pos + 1..];
    } else {
      e := Entry(t.born, Waiting(env.clock(w.ticks)));
      assert Marked(t, []) == t;
      assert w.list[0..pos + 1] == w.list[..pos] + [t];
    }
  }

  lemma OrderedUpdate(list: seq<Timer>, nextId: nat, at: nat, t: Timer)
    requires Ordered(list, nextId) && at < |list| && t.born == list[at].born
    ensures Ordered(list[at := t], nextId)
  {
  }

  /** The list after a callback, from the effect of its operations. */
  lemma FiredList(w: World, pos: nat, d: seq<Timer>, k: nat, ops: seq<Op>, t: Timer)
    requires pos < |w.list| && |d| == |w.list| + k
    requires forall i :: 0 <= i < |w.list| ==> d[k + i] == Marked(w.list[i], ops)
    ensures var list := d[pos + k := t];
            list[k..pos + k + 1] == MarkedAll(w.list[..pos], ops) + [t]
                && list[pos + k + 1..] == MarkedAll(w.list[pos + 1..], ops)
  {
    hide Marked;
    var list := d[pos + k := t];
    assert |list[k..pos + k + 1]| == pos + 1;
    forall i | 0 <= i < pos + 1
      ensures list[k..pos + k + 1][i] == (MarkedAll(w.list[..pos], ops) + [t])[i]
    {
      if i < pos { assert list[k + i] == d[k + i]; }
    }
    var tail, want := list[pos + k + 1..], MarkedAll(w.list[pos + 1..], ops);
    assert |tail| == |want|;
    forall i | 0 <= i < |tail|
      ensures tail[i] == want[i]
    {
      assert list[pos + k + 1 + i] == d[k + (pos + 1 + i)];
    }
  }

  lemma FiredVisited(env: Env, w: World, pos: nat, d: World, ops: seq<Op>, e: Entry, v: World, k: nat)
    requires pos < |w.list| && k == |d.list| - |w.list|
    requires Effect(env, w.(ticks := w.ticks + 1, calls := w.calls + 1), d, ops)
    requires e.verdict.Fired? && e.verdict.ops == ops && RightVisit(env, w.ticks, w.calls, w.list[pos], e, [])
    requires v.ticks == w.ticks + ReadsOf(e) && v.calls == w.calls + 1
    requires v.list == d.list[pos + k := Marked(Settled(w.list[pos], e), ops)] && v.nextId == d.nextId
             && v.log == w.log + [e]
    ensures Visited(env, w, pos, v, pos + k + 1, e, k)
  {
    hide Ordered, MarkedAll, RightVisit, Marked, Settled, Made;
    var u := Marked(Settled(w.list[pos], e), ops);
    assert v.list[..k] == d.list[..k];
    FiredList(w, pos, d.list, k, ops, u);
    assert d.list[k + pos] == Marked(w.list[pos], ops);
    SameBorn(w.list[pos], e, ops);
    OrderedUpdate(d.list, d.nextId, pos + k, u);
  }

  lemma SameBorn(t: Timer, e: Entry, ops: seq<Op>)
    ensures Marked(Settled(t, e), ops).born == t.born == Marked(t, ops).born
  {
  }

  /** What is recorded of a timer that fires, when its callback leaves the clock at `ticks`. */
  function FiredEntry(env: Env, t: Timer, now: Instant, reaction: Reaction, ticks: nat): Entry {
    Entry(t.born, Fired(now, reaction.ops,
                        match reaction.again
                        case NoMore => Never
                        case After(delay) => At(Later(env.clock(ticks), delay))))
  }

  lemma FiredRight(env: Env, tick: nat, call: nat, t: Timer)
    requires !t.deleted && AtLeast(env.clock(tick), t.when)
    ensures var reaction := env.react(call);
            RightVisit(env, tick, call, t, FiredEntry(env, t, env.clock(tick), reaction,
                tick + 1 + Creates(reaction.ops)), [])
  {
    hide Millis, Later, AtLeast, Creates;
  }

  /** The world after the visit of a timer that fires, `d` being what the callback leaves. */
  lemma VisitLeaves(env: Env, w: World, pos: nat, d: World)
    requires pos < |w.list| && !w.list[pos].deleted && AtLeast(env.clock(w.ticks), w.list[pos].when)
    requires d == DoAll(env, w.(ticks := w.ticks + 1, calls := w.calls + 1), env.react(w.calls).ops)
    requires |d.list| >= |w.list| && d.list[pos + (|d.list| - |w.list|)] == Marked(w.list[pos], env.react(w.calls).ops)
    ensures var reaction, v, k := env.react(w.calls), Visit(env, w, pos).0, |d.list| - |w.list|;
            var e := FiredEntry(env, w.list[pos], env.clock(w.ticks), reaction, d.ticks);
            && v.list == d.list[pos + k := Marked(Settled(w.list[pos], e), reaction.ops)]
            && v.nextId == d.nextId && v.log == d.log + [e] && v.calls == d.calls
            && v.ticks == d.ticks + (if reaction.again.After? then 1 else 0) && Visit(env, w, pos).1 == pos + k + 1
  {
    hide AtLeast, DoAll, Later, Deletes, Visit;
    VisitRefires(env, w, pos, d, env.react(w.calls));
  }

  lemma VisitFires(env: Env, w: World, pos: nat) returns (e: Entry, k: nat)
    requires Ordered(w.list, w.nextId) && pos < |w.list|
    requires !w.list[pos].deleted && AtLeast(env.clock(w.ticks), w.list[pos].when)
    ensures Visited(env, w, pos, Visit(env, w, pos).0, Visit(env, w, pos).1, e, k)
  {
    hide Ordered, MarkedAll, AtLeast, DoAll, Later, Visited, Visit, RightVisit, Marked, Settled, Creates, Made;
    var t, now, reaction := w.list[pos], env.clock(w.ticks), env.react(w.calls);
    var w0 := w.(ticks := w.ticks + 1, calls := w.calls + 1);
    DoAllEffect(env, w0, reaction.ops);
    var d := DoAll(env, w0, reaction.ops);
    k := |d.list| - |w.list|;
    assert d.list[k + pos] == Marked(t, reaction.ops);
    e := FiredEntry(env, t, now, reaction, d.ticks);
    FiredRight(env, w.ticks, w.calls, t);
    VisitLeaves(env, w, pos, d);
    FiredVisited(env, w, pos, d, reaction.ops, e, Visit(env, w, pos).0, k);
  }

  lemma DeletesBoth(a: seq<Op>, b: seq<Op>, born: nat)
    ensures Deletes(a + b, born) == (Deletes(a, born) || Deletes(b, born))
  {
  }

  lemma MarkedTwice(t: Timer, a: seq<Op>, b: seq<Op>)
    ensures Marked(Marked(t, a), b) == Marked(t, a + b)
  {
    DeletesBoth(a, b, t.born);
  }

  lemma MarkedAllTwice(ts: seq<Timer>, a: seq<Op>, b: seq<Op>)
    ensures MarkedAll(MarkedAll(ts, a), b) == MarkedAll(ts, a + b)
  {
    hide Marked;
    forall i | 0 <= i < |ts|
      ensures MarkedAll(MarkedAll(ts, a), b)[i] == MarkedAll(ts, a + b)[i]
    {
      MarkedTwice(ts[i], a, b);
    }
  }

  lemma SettledMarked(t: Timer, e: Entry, a: seq<Op>, b: seq<Op>)
    ensures Marked(Settled(Marked(t, a), e), b) == Marked(Settled(t, e), a + b)
  {
    DeletesBoth(a, b, t.born);
  }

  lemma {:induction false} LeftMarked(ts: seq<Timer>, log: seq<Entry>, a: seq<Op>, b: seq<Op>)
    requires |log| == |ts|
    ensures Left(MarkedAll(ts, a), log, b) == Left(ts, log, a + b)
  {
    hide Marked, Settled, MarkedAll;
    if ts != [] {
      assert MarkedAll(ts, a)[1..] == MarkedAll(ts[1..], a);
      SettledMarked(ts[0], log[0], a, b);
      LeftMarked(ts[1..], log[1..], a, b);
    }
  }

  lemma RightMarked(env: Env, tick: nat, call: nat, t: Timer, e: Entry, a: seq<Op>, b: seq<Op>)
    requires RightVisit(env, tick, call, Marked(t, a), e, b)
    ensures RightVisit(env, tick, call, t, e, a + b)
  {
    DeletesBoth(a, b, t.born);
  }

  lemma PrefixOfLog(e: Entry, log: seq<Entry>, i: nat)
    requires 0 < i <= |log| + 1
    ensures var all := [e] + log; all[..i] == [e] + log[..i - 1] && all[..i][1..] == log[..i - 1] && all[..i][0] == e
  {
    var all := [e] + log;
    assert all[..i] == [e] + log[..i - 1];
  }

  lemma RightOn(env: Env, tick: nat, call: nat, ts: seq<Timer>, e: Entry, log: seq<Entry>)
    requires ts != [] && RightVisit(env, tick, call, ts[0], e, [])
    requires Right(env, tick + ReadsOf(e), call + CallsOf(e), MarkedAll(ts[1..], OwnOps(e)), log)
    ensures Right(env, tick, call, ts, [e] + log)
  {
    hide RightVisit, Marked, MarkedAll, ReadsOf, CallsOf;
    var all := [e] + log;
    forall i | 0 <= i < |ts|
      ensures RightVisit(env, tick + Reads(all[..i]), call + Calls(all[..i]), ts[i], all[i], Ops(all[..i]))
    {
      if i > 0 {
        PrefixOfLog(e, log, i);
        assert MarkedAll(ts[1..], OwnOps(e))[i - 1] == Marked(ts[i], OwnOps(e));
        RightMarked(env, tick + Reads(all[..i]), call + Calls(all[..i]), ts[i], log[i - 1], OwnOps(e),
                    Ops(log[..i - 1]));
      }
    }
  }

  lemma MarkedSplit(ts: seq<Timer>, us: seq<Timer>, ops: seq<Op>)
    ensures MarkedAll(ts + us, ops) == MarkedAll(ts, ops) + MarkedAll(us, ops)
  {
    hide Marked;
    assert |MarkedAll(ts + us, ops)| == |ts| + |us|;
    forall i | 0 <= i < |ts| + |us|
      ensures MarkedAll(ts + us, ops)[i] == (MarkedAll(ts, ops) + MarkedAll(us, ops))[i]
    {
    }
  }

  lemma MarkedOne(t: Timer, ops: seq<Op>)
    ensures MarkedAll([t], ops) == [Marked(t, ops)] && MarkedAll([], ops) == []
  {
  }

  /** The old timers after one visit and the pass over the rest. */
  lemma ListOn(env: Env, w: World, pos: nat, v: World, p: nat, e: Entry, k: nat, r: World, log: seq<Entry>, added: nat)
    requires pos < |w.list| && Visited(env, w, pos, v, p, e, k) && Passed(env, v, p, r, log, added)
    ensures added + k <= |r.list|
    ensures r.list[added + k..]
         == MarkedAll(w.list[..pos], OwnOps(e) + Ops(log)) + Left(w.list[pos..], [e] + log, OwnOps(e) + Ops(log))
  {
    hide Marked, MarkedAll, Left, Ordered, Right, RightVisit, Stays, Passed, Visited, OwnOps, Ops;
    VisitedParts(env, w, pos, v, p, e, k);
    PassedParts(env, v, p, r, log, added);
    var a, b := OwnOps(e), Ops(log);
    var x, stays := MarkedAll(w.list[..pos], a), Stays(w.list[pos], e);
    MarkedSplit(v.list[..k], x + stays, b);
    MarkedSplit(x, stays, b);
    MarkedAllTwice(w.list[..pos], a, b);
    LeftMarked(w.list[pos + 1..], log, a, b);
    assert w.list[pos..][1..] == w.list[pos + 1..];
    LeftOn(w.list[pos..], e, log, b);
    var y, z := MarkedAll(v.list[..k], b), MarkedAll(w.list[..pos], a + b) + Left(w.list[pos..], [e] + log, a + b);
    DropFront(r.list, added, y, z);
  }

  lemma VisitedParts(env: Env, w: World, pos: nat, v: World, p: nat, e: Entry, k: nat)
    requires pos < |w.list| && Visited(env, w, pos, v, p, e, k)
    ensures k <= p <= |v.list| && v.list[p..] == MarkedAll(w.list[pos + 1..], OwnOps(e))
    ensures v.list[..p] == v.list[..k] + (MarkedAll(w.list[..pos], OwnOps(e)) + Stays(w.list[pos], e))
  {
    hide Marked, MarkedAll, Ordered, RightVisit, Stays;
    assert v.list[..p] == v.list[..k] + v.list[k..p];
  }

  lemma PassedParts(env: Env, v: World, p: nat, r: World, log: seq<Entry>, added: nat)
    requires p <= |v.list| && Passed(env, v, p, r, log, added)
    ensures |log| == |v.list| - p && added <= |r.list|
    ensures r.list[added..] == MarkedAll(v.list[..p], Ops(log)) + Left(v.list[p..], log, Ops(log))
  {
    hide Marked, MarkedAll, Ordered, RightVisit, Left;
  }

  lemma DropFront(list: seq<Timer>, n: nat, y: seq<Timer>, z: seq<Timer>)
    requires n <= |list| && list[n..] == y + z
    ensures n + |y| <= |list| && list[n + |y|..] == z
  {
    assert list[n..][|y|..] == list[n + |y|..];
  }

  lemma AddedOn(env: Env, w: World, pos: nat, v: World, p: nat, e: Entry, k: nat, r: World, log: seq<Entry>, added: nat)
    requires pos < |w.list| && Visited(env, w, pos, v, p, e, k) && Passed(env, v, p, r, log, added)
             && added + k <= |r.list|
    ensures r.list[..added + k] == r.list[..added] + MarkedAll(v.list[..k], Ops(log))
    ensures forall i :: 0 <= i < added + k ==> r.list[i].born >= w.nextId
  {
    hide Left, Ordered, Right, RightVisit, Settled, Made, Arrived;
    forall i | added <= i < added + k
      ensures r.list[i].born >= w.nextId && r.list[i] == MarkedAll(v.list[..k], Ops(log))[i - added]
    {
      assert r.list[i] == r.list[added..][i - added] == MarkedAll(v.list[..p], Ops(log))[i - added];
      assert v.list[..p][i - added] == v.list[i - added] == v.list[..k][i - added];
    }
  }

  lemma {:induction false} CreatesSum(a: seq<Op>, b: seq<Op>)
    ensures Creates(a + b) == Creates(a) + Creates(b)
    decreases |b|
  {
    if b == [] {
      assert a + b == a;
    } else {
      var n := |b| - 1;
      assert (a + b)[..|a + b| - 1] == a + b[..n];
      CreatesSum(a, b[..n]);
    }
  }

  /** The timers of one visit, once what comes later is done too. */
  lemma MadeThen(env: Env, tick: nat, id: nat, ops: seq<Op>, later: seq<Op>, ts: seq<Timer>)
    requires Made(env, tick, id, ops, [], ts)
    ensures Made(env, tick, id, ops, later, MarkedAll(ts, later))
  {
    hide Creates, Deletes, Millis, MarkedAll;
    var us := MarkedAll(ts, later);
    forall j | 0 <= j < |ops| && ops[j].Create?
      ensures var c := Creates(ops[..j]);
              c < |us| && NewTimer(env, tick + c, id + c, ops[j].delay, ops[j + 1..] + later, us[|us| - 1 - c])
    {
      CreatesLess(ops, j);
      assert ops[j + 1..] + [] == ops[j + 1..];
      DeletesBoth(ops[j + 1..], later, id + Creates(ops[..j]));
    }
  }

  lemma OpsMore(e: Entry, log: seq<Entry>)
    ensures Ops([e] + log) == OwnOps(e) + Ops(log) && Reads([e] + log) == ReadsOf(e) + Reads(log)
  {
    assert ([e] + log)[1..] == log;
  }

  lemma ArrivedOn(env: Env, tick: nat, id: nat, e: Entry, log: seq<Entry>, ts: seq<Timer>, us: seq<Timer>)
    requires Made(env, tick + 1, id, OwnOps(e), Ops(log), us)
    requires Arrived(env, tick + ReadsOf(e), id + |us|, log, ts)
    ensures Arrived(env, tick, id, [e] + log, ts + us)
  {
    hide Made, OwnOps, Ops, Reads, ReadsOf, Creates;
    var all, vs := [e] + log, ts + us;
    OpsMore(e, log);
    CreatesSum(OwnOps(e), Ops(log));
    assert |us| == Creates(OwnOps(e)) by { MadeLength(env, tick + 1, id, OwnOps(e), Ops(log), us); }
    forall i | 0 <= i < |all|
      ensures var c, own := Creates(Ops(all[..i])), OwnOps(all[i]);
              && c + Creates(own) <= |vs|
              && Made(env, tick + Reads(all[..i]) + 1, id + c, own, Ops(all[i + 1..]),
                      vs[|vs| - c - Creates(own)..|vs| - c])
    {
      if i == 0 {
        NothingBefore(all);
        assert all[1..] == log && vs[|vs| - |us|..|vs|] == us;
      } else {
        var k := i - 1;
        PrefixOfLog(e, log, i);
        OpsMore(e, log[..k]);
        CreatesSum(OwnOps(e), Ops(log[..k]));
        assert all[i + 1..] == log[k + 1..] && all[i] == log[k];
        var c, n := Creates(Ops(log[..k])), Creates(OwnOps(log[k]));
        assert vs[|vs| - |us| - c - n..|vs| - |us| - c] == ts[|ts| - c - n..|ts| - c];
      }
    }
  }

  lemma NothingBefore(log: seq<Entry>)
    ensures Creates(Ops(log[..0])) == 0 && Reads(log[..0]) == 0
  {
    assert log[..0] == [];
  }

  lemma MadeLength(env: Env, tick: nat, id: nat, ops: seq<Op>, later: seq<Op>, ts: seq<Timer>)
    requires Made(env, tick, id, ops, later, ts)
    ensures |ts| == Creates(ops)
  {
    hide Creates, NewTimer;
  }

  lemma MarkedBorn(t: Timer, ops: seq<Op>)
    ensures Marked(t, ops).born == t.born
  {
  }

  lemma LeftOn(ts: seq<Timer>, e: Entry, log: seq<Entry>, b: seq<Op>)
    requires ts != [] && |ts| == |log| + 1
    ensures Left(ts, [e] + log, OwnOps(e) + b) == MarkedAll(Stays(ts[0], e), b) + Left(ts[1..], log, OwnOps(e) + b)
  {
    hide Marked, Settled, MarkedAll, OwnOps;
    var u := Marked(Settled(ts[0], e), OwnOps(e));
    MarkedOne(u, b);
    MarkedTwice(Settled(ts[0], e), OwnOps(e), b);
    assert ([e] + log)[1..] == log;
  }

  lemma PassedOn(env: Env, w: World, pos: nat, v: World, p: nat, e: Entry, k: nat, r: World, log: seq<Entry>,
      added: nat)
    requires pos < |w.list| && Visited(env, w, pos, v, p, e, k) && Passed(env, v, p, r, log, added)
    ensures Passed(env, w, pos, r, [e] + log, added + k)
  {
    hide Marked, MarkedAll, Settled, Left, Ordered, Right, RightVisit, Made, Arrived;
    ListOn(env, w, pos, v, p, e, k, r, log, added);
    AddedOn(env, w, pos, v, p, e, k, r, log, added);
    MadeThen(env, w.ticks + 1, w.nextId, OwnOps(e), Ops(log), v.list[..k]);
    ArrivedOn(env, w.ticks, w.nextId, e, log, r.list[..added], MarkedAll(v.list[..k], Ops(log)));
    assert w.list[pos..][1..] == w.list[pos + 1..];
    RightOn(env, w.ticks, w.calls, w.list[pos..], e, log);
    assert ([e] + log)[1..] == log;
    assert r.log == w.log + ([e] + log);
  }

  /** One pass, for any callbacks and any clock: each timer is visited once, fires when it is live and due and not
      otherwise, and is unlinked when it was deleted before its visit and not otherwise; timers created on the way are
      not visited; and the list stays in the order of creation, newest first. */
  lemma {:induction false} PassIs(env: Env, w: World, pos: nat) returns (log: seq<Entry>, added: nat)
    requires Ordered(w.list, w.nextId) && pos <= |w.list|
    ensures Passed(env, w, pos, Pass(env, w, pos), log, added)
    decreases |w.list| - pos
  {
    hide Ordered, Visited, Passed, Visit, AtLeast;
    if pos == |w.list| {
      log, added := [], 0;
      PassedNothing(env, w);
    } else {
      var e, k := VisitIs(env, w, pos);
      var (v, p) := Visit(env, w, pos);
      assert Ordered(v.list, v.nextId) by { VisitedOrdered(env, w, pos, v, p, e, k); }
      var rest, more := PassIs(env, v, p);
      log, added := [e] + rest, more + k;
      PassedOn(env, w, pos, v, p, e, k, Pass(env, v, p), rest, more);
    }
  }

  lemma VisitIs(env: Env, w: World, pos: nat) returns (e: Entry, k: nat)
    requires Ordered(w.list, w.nextId) && pos < |w.list|
    ensures Visited(env, w, pos, Visit(env, w, pos).0, Visit(env, w, pos).1, e, k)
  {
    hide Ordered, Visited, Visit, AtLeast;
    if w.list[pos].deleted || !AtLeast(env.clock(w.ticks), w.list[pos].when) {
      e := VisitQuiet(env, w, pos);
      k := 0;
    } else {
      e, k := VisitFires(env, w, pos);
    }
  }

  lemma VisitedOrdered(env: Env, w: World, pos: nat, v: World, p: nat, e: Entry, k: nat)
    requires pos < |w.list| && Visited(env, w, pos, v, p, e, k)
    ensures Ordered(v.list, v.nextId) && p <= |v.list|
  {
  }

  lemma PassedNothing(env: Env, w: World)
    requires Ordered(w.list, w.nextId)
    ensures Passed(env, w, |w.list|, w, [], 0)
  {
    hide Ordered, MarkedAll;
    MarkedNothing(w.list);
    NoneLeft(w.list);
    NothingRight(env, w.ticks, w.calls);
    NoneMade(env, w.ticks, w.nextId);
    assert w.log + [] == w.log && w.list + [] == w.list;
  }

  lemma NoneLeft(ts: seq<Timer>)
    ensures ts[..|ts|] == ts && ts[|ts|..] == [] && ts[0..] == ts && Left([], [], []) == []
  {
  }

  lemma NothingRight(env: Env, tick: nat, call: nat)
    ensures Right(env, tick, call, [], []) && Ops([]) == [] && Reads([]) == 0 && Calls([]) == 0
  {
  }

  // ----- the whole of processTimeEvents

  /** After the clock has gone back: every timer at second 0. */
  function Rewound(list: seq<Timer>): (r: seq<Timer>)
    ensures |r| == |list| && forall i :: 0 <= i < |list| ==> r[i] == list[i].(when := Time(0, list[i].when.ms))
  {
    if list == [] then []
    else Rewound(list[..|list| - 1]) + [list[|list| - 1].(when := Time(0, list[|list| - 1].when.ms))]
  }

  /** Then every timer is due from the first second of the clock on, and before that by its milliseconds. */
  lemma RewoundDue(list: seq<Timer>, i: nat, now: Instant)
    requires i < |list|
    ensures AtLeast(now, Rewound(list)[i].when) <==> now.sec > 0 || (now.sec == 0 && now.ms >= list[i].when.ms)
  {
  }

  function Skewed(w: World, back: bool): World { if back then w.(list := Rewound(w.list)) else w }

  lemma PassedCalls(env: Env, w: World, pos: nat, r: World, log: seq<Entry>, added: nat)
    requires pos <= |w.list| && Passed(env, w, pos, r, log, added)
    ensures r.log == w.log + log && r.calls == w.calls + Calls(log)
  {
  }

  lemma PassStep(env: Env, w: World, pos: nat)
    requires pos < |w.list|
    ensures Pass(env, w, pos) == Pass(env, Visit(env, w, pos).0, Visit(env, w, pos).1)
  {
    hide Visit;
  }

  lemma PassEnd(env: Env, w: World)
    ensures Pass(env, w, |w.list|) == w
  {
  }
}
