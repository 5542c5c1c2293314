// What a list remembers of its last firing, and whom it calls for it.
module CallbackMemory {
  import opened Wrappers
  import opened CallbackQueue
  import opened CallbackFacts

  function Begun(q: Queue): seq<Data> {
    Datas(q.trace, Beginnings)
  }

  // A list with the memory option remembers the data of the firing that began last, unless a
  // callback has stopped it; any other list remembers nothing.
  ghost predicate Remembers(q: Queue, o: Options) {
    && (q.memory.Some? ==> o.memory && Begun(q) != [] && q.memory.value == Begun(q)[|Begun(q)| - 1])
    && (q.live && q.memory.None? && o.memory && !o.stopOnFalse ==> Begun(q) == [])
  }

  // Events of these kinds begin nothing.
  lemma Quiet(trace: seq<Event>, e: Event)
    ensures Datas(trace + [e], Beginnings) == Datas(trace, Beginnings) + if e.Began? then [e.data] else []
  {
    assert (trace + [e])[..|trace|] == trace;
    assert Datas(trace, Beginnings) + [] == Datas(trace, Beginnings);
  }

  lemma {:induction false} AddAllRemembers(q: Queue, fns: seq<Fn>, unique: bool)
    ensures var r := AddAll(q, fns, unique);
            Begun(r) == Begun(q) && r.memory == q.memory && r.live == q.live && r.requests == q.requests
    decreases |fns|
  {
    hide Datas, Has;
    if fns != [] {
      Quiet(q.trace, Added(Entry(q.nextId, fns[0])));
      AddAllRemembers(AddOne(q, fns[0], unique), fns[1..], unique);
    }
  }

  lemma {:induction false} RemoveAllRemembers(q: Queue, fns: seq<Fn>)
    ensures var r := RemoveAll(q, fns);
            && Begun(r) == Begun(q) && r.memory == q.memory && r.live == q.live && r.requests == q.requests
            && (q.waiting == [] ==> r.waiting == [])
    decreases |fns|
  {
    hide Datas, Removals;
    if fns != [] {
      DatasConcat(q.trace, Removals(q.waiting, fns[0]), Beginnings);
      RemovalsQuiet(q.waiting, fns[0]);
      assert Begun(q) + [] == Begun(q);
      RemoveAllRemembers(RemoveOne(q, fns[0]), fns[1..]);
    }
  }

  // Nothing has begun, and the list remembers what it did, unless it was disabled.
  ghost predicate Kept(q: Queue, r: Queue) {
    && Begun(r) == Begun(q)
    && ((r.memory == q.memory && r.live == q.live) || (r.memory.None? && !r.live))
    && (q.requests.None? ==> r.requests.None?)
  }

  lemma DoRemembers(q: Queue, op: Op, unique: bool)
    ensures Kept(q, Do(q, op, unique))
  {
    hide Datas, AddAll, RemoveAll;
    match op
    case Add(fns) => AddAllRemembers(q, fns, unique);
    case Remove(fns) => RemoveAllRemembers(q, fns);
    case Fire(d) => Quiet(q.trace, Requested(d));
    case _ =>
  }

  lemma {:induction false} DoAllRemembers(q: Queue, ops: seq<Op>, unique: bool)
    ensures Kept(q, DoAll(q, ops, unique))
    decreases |ops|
  {
    hide Do, Datas;
    if ops != [] {
      DoRemembers(q, ops[0], unique);
      DoAllRemembers(Do(q, ops[0], unique), ops[1..], unique);
    }
  }

  lemma TurnRemembers(q: Queue, data: Data, b: Behaviour, unique: bool)
    requires q.waiting != []
    ensures Kept(q, Turn(q, data, b, unique))
  {
    hide Datas, DoAll;
    var e := q.waiting[0];
    Quiet(q.trace, Ran(e, data));
    DoAllRemembers(q.(ran := q.ran + [e], waiting := q.waiting[1..], trace := q.trace + [Ran(e, data)]), b.ops, unique);
  }

  // Only a callback that may stop the batch makes a living list forget.
  lemma {:induction false} BatchRemembers(q: Queue, data: Data, script: seq<Behaviour>, o: Options)
    ensures var r := Batch(q, data, script, o).0;
            Kept(q, r) || (o.stopOnFalse && Kept(q.(memory := None), r))
    decreases |script|, |q.waiting|
  {
    hide Datas, Turn;
    if q.waiting != [] {
      var b := if script == [] then IDLE else script[0];
      TurnRemembers(q, data, b, o.unique);
      if !(b.returnsFalse && o.stopOnFalse) {
        CallbackOrder.IdleTurn(q, data, script, o.unique);
        BatchRemembers(Turn(q, data, b, o.unique), data, if script == [] then [] else script[1..], o);
      }
    }
  }

  lemma {:induction false} FiringRemembers(q: Queue, data: Data, script: seq<Behaviour>, o: Options)
    ensures var r := FireAll(q, data, script, o).0;
            && Remembers(r, o) && r.waiting == []
            && (q.requests.None? ==> r.requests.None? && (!o.memory ==> !r.live))
    decreases |script|, Pending(q), 1
  {
    hide Batch, Datas;
    var start := Remembering(q, data, o);
    Quiet(q.trace, Began(data));
    BatchRemembers(start, data, script, o);
    BatchShrinks(start, data, script, o);
    var (done, rest) := Batch(start, data, script, o);
    AfterRemembers(done, rest, o);
  }

  lemma {:induction false} AfterRemembers(q: Queue, script: seq<Behaviour>, o: Options)
    requires Remembers(q, o)
    ensures var r := AfterBatch(q, script, o).0;
            && Remembers(r, o) && r.waiting == []
            && (q.requests.None? ==> r.requests.None? && (!o.memory ==> !r.live))
    decreases |script|, Pending(q), 0
  {
    hide FireAll, Datas;
    if q.live && q.requests.Some? && q.requests.value != [] {
      FiringRemembers(NextRequest(q), q.requests.value[0], script, o);
    }
  }

  // Without the memory option a firing leaves nothing behind; a once list is then disabled.
  lemma ForgetsExactly(q: Queue, fired: bool, data: Data, script: seq<Behaviour>, o: Options)
    requires !o.memory && q.memory.None?
    ensures var r := FireWithIdle(q, fired, data, script, o).0;
            && r.memory.None?
            && (q.live && !fired && q.requests.None? ==> !r.live)
  {
    hide FireAll, Remembers;
    FiringRemembers(q.(ran := [], waiting := q.ran), data, script, o);
    NoMemory(FireWithIdle(q, fired, data, script, o).0, o);
  }

  lemma NoMemory(q: Queue, o: Options)
    ensures Remembers(q, o) && !o.memory ==> q.memory.None?
  {
  }

  // A newcomer to a list that remembers nothing is not called: no firing begins, nobody has a
  // turn.
  lemma NotCalled(q: Queue, fns: seq<Fn>, script: seq<Behaviour>, o: Options)
    requires q.memory.None?
    ensures var r := AddIdle(q, fns, script, o).0;
            && q.trace <= r.trace && r.memory.None?
            && forall e <- r.trace[|q.trace|..] :: !e.Began? && !e.Ran?
  {
    hide FireAll;
    AddAllRemembers(q, fns, o.unique);
    OnlyAdded(q, fns, o.unique);
    assert q.trace[|q.trace|..] == [];
  }

  lemma {:induction false} OnlyAdded(q: Queue, fns: seq<Fn>, unique: bool)
    ensures var r := AddAll(q, fns, unique);
            q.trace <= r.trace && forall e <- r.trace[|q.trace|..] :: e.Added?
    decreases |fns|
  {
    hide Has;
    if fns == [] {
      assert q.trace[|q.trace|..] == [];
    } else {
      var one, r := AddOne(q, fns[0], unique), AddAll(q, fns, unique);
      OnlyAdded(one, fns[1..], unique);
      forall e | e in r.trace[|q.trace|..]
        ensures e.Added?
      {
        var i :| |q.trace| <= i < |r.trace| && r.trace[i] == e;
        if i >= |one.trace| {
          assert e == r.trace[|one.trace|..][i - |one.trace|];
        }
      }
    }
  }

  // What has happened stays.
  lemma QueuedNow(q: Queue)
    requires q.live || q.requests.None?
    ensures Queued(q.requests, q.trace, q)
  {
    assert q.trace[|q.trace|..] == [];
    NoEvents();
    assert q.requests.Some? ==> q.requests.value + [] == q.requests.value;
  }

  lemma FirstTurn(q: Queue, data: Data, script: seq<Behaviour>, o: Options)
    requires q.live && q.waiting != []
    ensures q.trace + [Ran(q.waiting[0], data)] <= Batch(q, data, script, o).0.trace
    ensures var r := Batch(q, data, script, o).0; r.live || r.requests.None?
  {
    hide DoAll, Queued, Datas;
    var b := if script == [] then IDLE else script[0];
    var next := q.(ran := q.ran + [q.waiting[0]], waiting := q.waiting[1..],
                   trace := q.trace + [Ran(q.waiting[0], data)]);
    var turn := Turn(q, data, b, o.unique);
    QueuedNow(next);
    DoAllQueued(next.requests, next.trace, next, b.ops, o.unique);
    QueuedGrows(next.requests, next.trace, turn);
    QueuedNow(turn);
    var rest := if script == [] then [] else script[1..];
    BatchQueued(turn.requests, turn.trace, turn, data, rest, o);
    QueuedGrows(turn.requests, turn.trace, Batch(turn, data, rest, o).0);
  }

  lemma QueuedGrows(requests: Option<seq<Data>>, since: seq<Event>, q: Queue)
    requires Queued(requests, since, q)
    ensures since <= q.trace && (q.live || q.requests.None?)
  {
  }

  // A newcomer to a list that remembers is the first to be called in a firing of its own, with
  // the data of the firing that began last.
  lemma NewcomerCalled(q: Queue, fn: Fn, script: seq<Behaviour>, o: Options)
    requires q.live && q.waiting == [] && Remembers(q, o) && q.memory.Some? && !(o.unique && Has(q.ran, fn))
    ensures var e, d := Entry(q.nextId, fn), Begun(q)[|Begun(q)| - 1];
            q.trace + [Added(e), Began(d), Ran(e, d)] <= AddIdle(q, [fn], script, o).0.trace
  {
    hide Batch, AfterBatch, Datas;
    var e, d := Entry(q.nextId, fn), Begun(q)[|Begun(q)| - 1];
    assert q.ran + q.waiting == q.ran;
    assert AddAll(q, [fn], o.unique) == AddOne(q, fn, o.unique);
    var start := Remembering(AddOne(q, fn, o.unique), d, o);
    assert start.waiting == [e];
    assert q.trace + [Added(e), Began(d), Ran(e, d)] == start.trace + [Ran(e, d)];
    FirstTurn(start, d, script, o);
    BatchShrinks(start, d, script, o);
    var (done, rest) := Batch(start, d, script, o);
    RequestsInTurn(done, rest, o);
    assert AddIdle(q, [fn], script, o) == AfterBatch(done, rest, o);
  }

  // --- Over whole runs of an idle list.

  datatype Call = CallAdd(fns: seq<Fn>) | CallRemove(fns: seq<Fn>) | CallLock | CallDisable | CallFire(data: Data)

  datatype List = List(q: Queue, fired: bool, script: seq<Behaviour>)

  // What a call does to a list that is not being fired.
  function Perform(l: List, call: Call, o: Options): List {
    match call
    case CallAdd(fns) =>
      var (q, script) := AddIdle(l.q, fns, l.script, o);
      List(q, l.fired || (l.q.live && l.q.memory.Some?), script)
    case CallRemove(fns) => l.(q := if l.q.live then RemoveAll(l.q, fns) else l.q)
    case CallLock => l.(q := Do(l.q, Lock, o.unique))
    case CallDisable => l.(q := DisableQ(l.q))
    case CallFire(data) =>
      var (q, script) := FireWithIdle(l.q, l.fired, data, l.script, o);
      List(q, l.fired || l.q.live, script)
  }

  function NewList(o: Options, script: seq<Behaviour>): List {
    List(Queue([], [], true, if o.once then None else Some([]), None, 0, []), false, script)
  }

  function After(o: Options, script: seq<Behaviour>, calls: seq<Call>): List {
    if calls == [] then NewList(o, script)
    else Perform(After(o, script, calls[..|calls| - 1]), calls[|calls| - 1], o)
  }

  // In every run: a list with the memory option, as long as it lives, remembers the data of the
  // firing that began last, unless a callback may have stopped it; any other list remembers
  // nothing; and a once list without memory is dead as soon as it has been fired.
  lemma {:induction false} AlwaysRemembers(o: Options, script: seq<Behaviour>, calls: seq<Call>)
    ensures var l := After(o, script, calls);
            && Remembers(l.q, o)
            && (!o.memory ==> l.q.memory.None?)
            && (o.once ==> l.q.requests.None?)
            && (o.once && !o.memory && l.fired ==> !l.q.live)
            && l.q.waiting == []
    decreases |calls|
  {
    hide Datas, FireAll, DisableQ;
    if calls == [] {
      NoEvents();
    } else {
      AlwaysRemembers(o, script, calls[..|calls| - 1]);
      PerformRemembers(After(o, script, calls[..|calls| - 1]), calls[|calls| - 1], o);
    }
  }

  lemma PerformRemembers(l: List, call: Call, o: Options)
    requires Remembers(l.q, o) && l.q.waiting == []
    requires o.once ==> l.q.requests.None? && (!o.memory && l.fired ==> !l.q.live)
    ensures var r := Perform(l, call, o);
            && Remembers(r.q, o) && (!o.memory ==> r.q.memory.None?) && r.q.waiting == []
            && (o.once ==> r.q.requests.None? && (!o.memory && r.fired ==> !r.q.live))
  {
    hide Datas, FireAll, AddAll, RemoveAll;
    match call
    case CallAdd(fns) =>
      AddAllRemembers(l.q, fns, o.unique);
      var more := AddAll(l.q, fns, o.unique);
      if more.memory.Some? {
        FiringRemembers(more, more.memory.value, l.script, o);
      }
    case CallRemove(fns) => RemoveAllRemembers(l.q, fns);
    case CallFire(data) => FiringRemembers(l.q.(ran := [], waiting := l.q.ran), data, l.script, o);
    case _ =>
  }
}
