// What jQuery.Callbacks does, said without indices: a queue of those still to be called.
module CallbackQueue {
  import opened Wrappers
  import opened Sequences

  type Fn = nat
  type Data = nat

  // A callback in the list; `id` numbers the additions.
  datatype Entry = Entry(id: nat, fn: Fn)

  // What a callback may do to the list that is calling it, and whether it returns false.
  datatype Op = Add(fns: seq<Fn>) | Remove(fns: seq<Fn>) | Lock | Disable | Fire(data: Data)

  datatype Behaviour = Behaviour(ops: seq<Op>, returnsFalse: bool)

  datatype Event = Began(data: Data) | Ran(entry: Entry, data: Data) | Added(entry: Entry) | Removed(entry: Entry)
    | Requested(data: Data)

  datatype Options = Options(once: bool, memory: bool, unique: bool, stopOnFalse: bool)

  // The list while it is fired: what has had its turn (and is still there), what is waiting,
  // the requests for later firings, and all that has happened.
  datatype Queue = Queue(
    ran: seq<Entry>, waiting: seq<Entry>, live: bool, requests: Option<seq<Data>>,
    memory: Option<Data>, nextId: nat, trace: seq<Event>)

  function Without(entries: seq<Entry>, fn: Fn): seq<Entry> {
    if entries == [] then []
    else Without(entries[..|entries| - 1], fn) +
         if entries[|entries| - 1].fn == fn then [] else [entries[|entries| - 1]]
  }

  // The removals from the waiting part, as events.
  function Removals(entries: seq<Entry>, fn: Fn): seq<Event> {
    if entries == [] then []
    else Removals(entries[..|entries| - 1], fn) +
         if entries[|entries| - 1].fn == fn then [Removed(entries[|entries| - 1])] else []
  }

  predicate Has(entries: seq<Entry>, fn: Fn) {
    exists i :: 0 <= i < |entries| && entries[i].fn == fn
  }

  function AddOne(q: Queue, fn: Fn, unique: bool): Queue {
    if unique && Has(q.ran + q.waiting, fn) then q
    else
      var e := Entry(q.nextId, fn);
      q.(waiting := q.waiting + [e], nextId := q.nextId + 1, trace := q.trace + [Added(e)])
  }

  function AddAll(q: Queue, fns: seq<Fn>, unique: bool): Queue
    decreases |fns|
  {
    if fns == [] then q else AddAll(AddOne(q, fns[0], unique), fns[1..], unique)
  }

  function RemoveOne(q: Queue, fn: Fn): Queue {
    q.(ran := Without(q.ran, fn), waiting := Without(q.waiting, fn),
       trace := q.trace + Removals(q.waiting, fn))
  }

  function RemoveAll(q: Queue, fns: seq<Fn>): Queue
    decreases |fns|
  {
    if fns == [] then q else RemoveAll(RemoveOne(q, fns[0]), fns[1..])
  }

  function DisableQ(q: Queue): Queue {
    q.(ran := [], waiting := [], live := false, requests := None, memory := None)
  }

  // One operation, while the list is being fired.
  function Do(q: Queue, op: Op, unique: bool): Queue {
    match op
    case Add(fns) => if q.live then AddAll(q, fns, unique) else q
    case Remove(fns) => if q.live then RemoveAll(q, fns) else q
    case Lock => if q.memory.None? then DisableQ(q) else q.(requests := None)
    case Disable => DisableQ(q)
    case Fire(d) =>
      if q.live && q.requests.Some? then q.(requests := Some(q.requests.value + [d]), trace := q.trace + [Requested(d)])
      else q
  }

  function DoAll(q: Queue, ops: seq<Op>, unique: bool): Queue
    decreases |ops|
  {
    if ops == [] then q else DoAll(Do(q, ops[0], unique), ops[1..], unique)
  }

  const IDLE: Behaviour := Behaviour([], false)

  // The next callback has its turn; what it does is the first entry of the script.
  function Turn(q: Queue, data: Data, b: Behaviour, unique: bool): Queue
    requires q.waiting != []
  {
    var e := q.waiting[0];
    DoAll(q.(ran := q.ran + [e], waiting := q.waiting[1..], trace := q.trace + [Ran(e, data)]), b.ops, unique)
  }

  // Callbacks have their turns until nothing is waiting, the list is disabled, or one stops
  // it. The script says what each of them does; callbacks beyond its end do nothing.
  function Batch(q: Queue, data: Data, script: seq<Behaviour>, o: Options): (r: (Queue, seq<Behaviour>))
    ensures |r.1| <= |script|
    decreases |script|, |q.waiting|
  {
    if q.waiting == [] then (q, script)
    else
      var b := if script == [] then IDLE else script[0];
      var rest := if script == [] then [] else script[1..];
      var next := Turn(q, data, b, o.unique);
      if b.returnsFalse && o.stopOnFalse then (next.(memory := None), rest)
      else Batch(next, data, rest, o)
  }

  lemma BatchTurn(q: Queue, data: Data, script: seq<Behaviour>, o: Options)
    ensures Batch(q, data, script, o) ==
              if q.waiting == [] then (q, script)
              else
                var b := if script == [] then IDLE else script[0];
                var rest := if script == [] then [] else script[1..];
                var next := Turn(q, data, b, o.unique);
                if b.returnsFalse && o.stopOnFalse then (next.(memory := None), rest) else Batch(next, data, rest, o)
  {
    hide Turn;
  }

  // No callback has its turn: everything in the list is on one side.
  function Settle(q: Queue): Queue {
    q.(ran := q.ran + q.waiting, waiting := [])
  }

  function Remembering(q: Queue, data: Data, o: Options): Queue {
    q.(memory := if o.memory then Some(data) else None, trace := q.trace + [Began(data)])
  }

  function Pending(q: Queue): nat {
    if q.requests.Some? then |q.requests.value| else 0
  }

  // A whole call of fire: the batch, and after it the requests made meanwhile, in order.
  function FireAll(q: Queue, data: Data, script: seq<Behaviour>, o: Options): (Queue, seq<Behaviour>)
    decreases |script|, Pending(q), 1
  {
    BatchShrinks(Remembering(q, data, o), data, script, o);
    var (done, rest) := Batch(Remembering(q, data, o), data, script, o);
    AfterBatch(done, rest, o)
  }

  function AfterBatch(q: Queue, script: seq<Behaviour>, o: Options): (Queue, seq<Behaviour>)
    decreases |script|, Pending(q), 0
  {
    if !q.live then (Settle(q), script)
    else if q.requests.Some? then
      if q.requests.value == [] then (Settle(q), script)
      else FireAll(NextRequest(q), q.requests.value[0], script, o)
    else if q.memory.Some? then (q.(ran := [], waiting := []), script)
    else (DisableQ(q), script)
  }

  // The whole list waits again, for the oldest request.
  function NextRequest(q: Queue): Queue
    requires q.requests.Some? && q.requests.value != []
  {
    q.(ran := [], waiting := q.ran + q.waiting, requests := Some(q.requests.value[1..]))
  }

  // fireWith, when the list is not being fired.
  function FireWithIdle(q: Queue, fired: bool, data: Data, script: seq<Behaviour>, o: Options)
    : (Queue, seq<Behaviour>)
  {
    if q.live && (!fired || q.requests.Some?) then FireAll(q.(ran := [], waiting := q.ran), data, script, o)
    else (q, script)
  }

  // add, when the list is not being fired: with a memory the newcomers are called at once.
  function AddIdle(q: Queue, fns: seq<Fn>, script: seq<Behaviour>, o: Options): (Queue, seq<Behaviour>) {
    if !q.live then (q, script)
    else
      var more := AddAll(q, fns, o.unique);
      if more.memory.Some? then FireAll(more, more.memory.value, script, o) else (Settle(more), script)
  }

  // Without a script nothing more is requested.
  lemma {:induction false} BatchRequests(q: Queue, data: Data, script: seq<Behaviour>, o: Options)
    ensures script == [] ==> Batch(q, data, script, o).0.requests == q.requests
    decreases |q.waiting|
  {
    if script == [] && q.waiting != [] {
      BatchRequests(Turn(q, data, IDLE, o.unique), data, [], o);
    }
  }

  // A batch without a script leaves the requests; any other batch uses the script up or has
  // nobody to call.
  lemma BatchShrinks(q: Queue, data: Data, script: seq<Behaviour>, o: Options)
    ensures var r := Batch(q, data, script, o);
            |r.1| < |script| || (|r.1| == |script| && r.0.requests == q.requests)
  {
    BatchRequests(q, data, script, o);
  }

  lemma TurnIs(q: Queue, data: Data, b: Behaviour, unique: bool)
    requires q.waiting != []
    ensures Turn(q, data, b, unique) ==
              DoAll(q.(ran := q.ran + [q.waiting[0]], waiting := q.waiting[1..],
                       trace := q.trace + [Ran(q.waiting[0], data)]), b.ops, unique)
  {
  }

  lemma {:induction false} WithoutConcat(a: seq<Entry>, b: seq<Entry>, fn: Fn)
    ensures Without(a + b, fn) == Without(a, fn) + Without(b, fn)
    ensures Removals(a + b, fn) == Removals(a, fn) + Removals(b, fn)
    decreases |b|
  {
    assert Without([], fn) == [] && Removals([], fn) == [];
    hide *;
    if b == [] {
      assert a + b == a;
    } else {
      var front, last := b[..|b| - 1], b[|b| - 1];
      var more := if last.fn == fn then [] else [last];
      var gone := if last.fn == fn then [Removed(last)] else [];
      WithoutConcat(a, front, fn);
      assert b == front + [last] && a + b == a + front + [last];
      WithoutLast(front, last, fn);
      WithoutLast(a + front, last, fn);
      Associative(Without(a, fn), Without(front, fn), more);
      Associative(Removals(a, fn), Removals(front, fn), gone);
    }
  }

  lemma WithoutLast(entries: seq<Entry>, last: Entry, fn: Fn)
    ensures Without(entries + [last], fn) == Without(entries, fn) + if last.fn == fn then [] else [last]
    ensures Removals(entries + [last], fn) == Removals(entries, fn) + if last.fn == fn then [Removed(last)] else []
  {
    assert (entries + [last])[..|entries|] == entries;
  }

  lemma {:induction false} WithoutNone(entries: seq<Entry>, fn: Fn)
    requires !Has(entries, fn)
    ensures Without(entries, fn) == entries && Removals(entries, fn) == []
  {
    if entries != [] {
      assert forall i :: 0 <= i < |entries| - 1 ==> entries[..|entries| - 1][i] == entries[i];
      WithoutNone(entries[..|entries| - 1], fn);
      assert entries == entries[..|entries| - 1] + [entries[|entries| - 1]];
    }
  }
}
