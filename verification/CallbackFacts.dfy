// What a firing comes to, whatever the callbacks do.
module CallbackFacts {
  import opened Wrappers
  import opened CallbackQueue
  import opened CallbackOrder

  datatype Kind = Beginnings | Turns | Arrivals | Departures | Requests

  // The entry an event of one kind is about, and the data of an event of another.
  function EntryOf(e: Event, k: Kind): seq<Entry> {
    match e
    case Ran(x, _) => if k == Turns then [x] else []
    case Added(x) => if k == Arrivals then [x] else []
    case Removed(x) => if k == Departures then [x] else []
    case _ => []
  }

  function DataOf(e: Event, k: Kind): seq<Data> {
    match e
    case Began(d) => if k == Beginnings then [d] else []
    case Ran(_, d) => if k == Turns then [d] else []
    case Requested(d) => if k == Requests then [d] else []
    case _ => []
  }

  function Entries(t: seq<Event>, k: Kind): seq<Entry> {
    if t == [] then [] else Entries(t[..|t| - 1], k) + EntryOf(t[|t| - 1], k)
  }

  function Datas(t: seq<Event>, k: Kind): seq<Data> {
    if t == [] then [] else Datas(t[..|t| - 1], k) + DataOf(t[|t| - 1], k)
  }

  lemma {:induction false} EntriesConcat(a: seq<Event>, b: seq<Event>, k: Kind)
    ensures Entries(a + b, k) == Entries(a, k) + Entries(b, k)
    decreases |b|
  {
    hide EntryOf;
    if b == [] {
      assert a + b == a;
    } else {
      EntriesConcat(a, b[..|b| - 1], k);
      assert (a + b)[..|a + b| - 1] == a + b[..|b| - 1];
    }
  }

  lemma {:induction false} DatasConcat(a: seq<Event>, b: seq<Event>, k: Kind)
    ensures Datas(a + b, k) == Datas(a, k) + Datas(b, k)
    decreases |b|
  {
    hide DataOf;
    if b == [] {
      assert a + b == a;
    } else {
      DatasConcat(a, b[..|b| - 1], k);
      assert (a + b)[..|a + b| - 1] == a + b[..|b| - 1];
    }
  }

  // What has happened since the batch began with `start` waiting: those that have had their
  // turn had it in order and with the batch's data, ahead of those still waiting, and nobody
  // is lost or counted twice.
  ghost predicate Accounted(start: seq<Entry>, data: Data, since: seq<Event>, q: Queue) {
    && since <= q.trace
    && var t := q.trace[|since|..];
    && Ascending(Entries(t, Turns) + q.waiting) && AllBelow(Entries(t, Turns) + q.waiting, q.nextId)
    && Ascending(start + Entries(t, Arrivals)) && AllBelow(start + Entries(t, Arrivals), q.nextId)
    && (forall d <- Datas(t, Turns) :: d == data)
    && if q.live then
         multiset(Entries(t, Turns)) + multiset(Entries(t, Departures)) + multiset(q.waiting) ==
           multiset(start) + multiset(Entries(t, Arrivals))
       else
         q.waiting == [] &&
         multiset(Entries(t, Turns)) + multiset(Entries(t, Departures)) <=
           multiset(start) + multiset(Entries(t, Arrivals))
  }

  lemma Snoc(t: seq<Event>, e: Event)
    ensures forall k :: Entries(t + [e], k) == Entries(t, k) + EntryOf(e, k)
    ensures forall k :: Datas(t + [e], k) == Datas(t, k) + DataOf(e, k)
  {
    assert (t + [e])[..|t|] == t;
  }

  // One more event at the end of the trace.
  lemma Happens(since: seq<Event>, trace: seq<Event>, e: Event)
    requires since <= trace
    ensures since <= trace + [e]
    ensures forall k :: Entries((trace + [e])[|since|..], k) == Entries(trace[|since|..], k) + EntryOf(e, k)
    ensures forall k :: Datas((trace + [e])[|since|..], k) == Datas(trace[|since|..], k) + DataOf(e, k)
  {
    var t := trace[|since|..];
    assert (trace + [e])[|since|..] == t + [e];
    Snoc(t, e);
  }

  lemma BothSides(a: multiset<Entry>, b: multiset<Entry>, c: multiset<Entry>, d: multiset<Entry>, more: multiset<Entry>)
    requires a + b == c + d
    ensures a + (b + more) == c + (d + more)
  {
    assert a + (b + more) == (a + b) + more;
    assert c + (d + more) == (c + d) + more;
  }

  lemma AddOneAccounted(start: seq<Entry>, data: Data, since: seq<Event>, q: Queue, fn: Fn, unique: bool)
    requires q.live && Accounted(start, data, since, q)
    ensures AddOne(q, fn, unique).live && Accounted(start, data, since, AddOne(q, fn, unique))
  {
    hide Entries, Datas, Has;
    var e := Entry(q.nextId, fn);
    Happens(since, q.trace, Added(e));
    var turns, gone := Entries(q.trace[|since|..], Turns), Entries(q.trace[|since|..], Departures);
    assert turns + [] == turns && gone + [] == gone;
    assert turns + (q.waiting + [e]) == turns + q.waiting + [e];
    OneMore(turns + q.waiting, e);
    var came := Entries(q.trace[|since|..], Arrivals);
    assert start + (came + [e]) == start + came + [e];
    OneMore(start + came, e);
    var ds := Datas(q.trace[|since|..], Turns);
    assert ds + [] == ds;
    var q' := q.(waiting := q.waiting + [e], nextId := q.nextId + 1, trace := q.trace + [Added(e)]);
    var t' := q'.trace[|since|..];
    assert Entries(t', Turns) == turns && Entries(t', Departures) == gone;
    var t := q.trace[|since|..];
    assert multiset(q'.waiting) == multiset(q.waiting) + multiset{e};
    assert multiset(Entries(t', Arrivals)) == multiset(Entries(t, Arrivals)) + multiset{e};
    assert multiset(turns) + multiset(gone) + multiset(q.waiting) == multiset(start) + multiset(Entries(t, Arrivals));
    BothSides(multiset(turns) + multiset(gone), multiset(q.waiting),
              multiset(start), multiset(Entries(t, Arrivals)), multiset{e});
    assert Accounted(start, data, since, q');
  }

  lemma {:induction false} AddAllAccounted(start: seq<Entry>, data: Data, since: seq<Event>, q: Queue, fns: seq<Fn>,
                                           unique: bool)
    requires q.live && Accounted(start, data, since, q)
    ensures AddAll(q, fns, unique).live && Accounted(start, data, since, AddAll(q, fns, unique))
    decreases |fns|
  {
    if fns != [] {
      AddOneAccounted(start, data, since, q, fns[0], unique);
      AddAllAccounted(start, data, since, AddOne(q, fns[0], unique), fns[1..], unique);
    }
  }

  lemma NoEvents()
    ensures forall k :: Entries([], k) == [] && Datas([], k) == []
  {
  }

  lemma {:induction false} RemovalsSplit(entries: seq<Entry>, fn: Fn)
    ensures multiset(entries) == multiset(Without(entries, fn)) + multiset(Entries(Removals(entries, fn), Departures))
    ensures Entries(Removals(entries, fn), Turns) == [] && Entries(Removals(entries, fn), Arrivals) == []
    ensures Datas(Removals(entries, fn), Turns) == []
  {
    hide Entries, Datas, Without, Removals;
    if entries == [] {
      NoEvents();
      NothingRemoved(fn);
    } else {
      var init, last := entries[..|entries| - 1], entries[|entries| - 1];
      RemovalsSplit(init, fn);
      Snoc(Removals(init, fn), Removed(last));
      SplitLast(entries, fn);
      var kept, gone := Without(init, fn), Entries(Removals(init, fn), Departures);
      assert multiset(entries) == multiset(init) + multiset{last} by {
        assert entries == init + [last];
      }
      if last.fn == fn {
        assert multiset(gone + [last]) == multiset(gone) + multiset{last};
      } else {
        assert multiset(kept + [last]) == multiset(kept) + multiset{last};
      }
    }
  }

  lemma NothingRemoved(fn: Fn)
    ensures Without([], fn) == [] && Removals([], fn) == []
  {
  }

  lemma SplitLast(entries: seq<Entry>, fn: Fn)
    requires entries != []
    ensures var init, last := entries[..|entries| - 1], entries[|entries| - 1];
            if last.fn == fn then
              Without(entries, fn) == Without(init, fn) && Removals(entries, fn) == Removals(init, fn) + [Removed(last)]
            else
              Without(entries, fn) == Without(init, fn) + [last] && Removals(entries, fn) == Removals(init, fn)
  {
  }

  lemma RemoveOneAccounted(start: seq<Entry>, data: Data, since: seq<Event>, q: Queue, fn: Fn)
    requires q.live && Accounted(start, data, since, q)
    ensures RemoveOne(q, fn).live && Accounted(start, data, since, RemoveOne(q, fn))
  {
    hide Entries, Datas;
    var t, gone := q.trace[|since|..], Removals(q.waiting, fn);
    assert (q.trace + gone)[|since|..] == t + gone;
    EntriesConcat(t, gone, Turns);
    EntriesConcat(t, gone, Arrivals);
    EntriesConcat(t, gone, Departures);
    DatasConcat(t, gone, Turns);
    assert Datas(t, Turns) + [] == Datas(t, Turns);
    RemovalsSplit(q.waiting, fn);
    assert Entries(t, Turns) + [] == Entries(t, Turns);
    assert Entries(t, Arrivals) + [] == Entries(t, Arrivals);
    WithoutAscending(Entries(t, Turns), q.waiting, fn, q.nextId);
  }

  lemma {:induction false} RemoveAllAccounted(start: seq<Entry>, data: Data, since: seq<Event>, q: Queue, fns: seq<Fn>)
    requires q.live && Accounted(start, data, since, q)
    ensures RemoveAll(q, fns).live && Accounted(start, data, since, RemoveAll(q, fns))
    decreases |fns|
  {
    if fns != [] {
      RemoveOneAccounted(start, data, since, q, fns[0]);
      RemoveAllAccounted(start, data, since, RemoveOne(q, fns[0]), fns[1..]);
    }
  }

  lemma DoAccounted(start: seq<Entry>, data: Data, since: seq<Event>, q: Queue, op: Op, unique: bool)
    requires Accounted(start, data, since, q)
    ensures Accounted(start, data, since, Do(q, op, unique))
  {
    hide Entries, Datas, AddAll, RemoveAll;
    match op
    case Add(fns) => if q.live { AddAllAccounted(start, data, since, q, fns, unique); }
    case Remove(fns) => if q.live { RemoveAllAccounted(start, data, since, q, fns); }
    case Fire(d) =>
      Happens(since, q.trace, Requested(d));
      assert Entries(q.trace[|since|..], Turns) + [] == Entries(q.trace[|since|..], Turns);
      assert Entries(q.trace[|since|..], Arrivals) + [] == Entries(q.trace[|since|..], Arrivals);
      assert Entries(q.trace[|since|..], Departures) + [] == Entries(q.trace[|since|..], Departures);
      assert Datas(q.trace[|since|..], Turns) + [] == Datas(q.trace[|since|..], Turns);
    case _ => Dropped(start, data, since, q);
  }

  // A list that is disabled forgets those still waiting.
  lemma Dropped(start: seq<Entry>, data: Data, since: seq<Event>, q: Queue)
    requires Accounted(start, data, since, q)
    ensures Accounted(start, data, since, DisableQ(q))
  {
    hide Entries;
    var turns := Entries(q.trace[|since|..], Turns);
    assert turns + [] == turns;
    assert forall i :: 0 <= i < |turns| ==> (turns + q.waiting)[i] == turns[i];
  }

  lemma {:induction false} DoAllAccounted(start: seq<Entry>, data: Data, since: seq<Event>, q: Queue, ops: seq<Op>,
                                          unique: bool)
    requires Accounted(start, data, since, q)
    ensures Accounted(start, data, since, DoAll(q, ops, unique))
    decreases |ops|
  {
    hide Accounted, Do;
    if ops != [] {
      DoAccounted(start, data, since, q, ops[0], unique);
      DoAllAccounted(start, data, since, Do(q, ops[0], unique), ops[1..], unique);
    }
  }

  lemma TurnAccounted(start: seq<Entry>, data: Data, since: seq<Event>, q: Queue, b: Behaviour, unique: bool)
    requires q.waiting != [] && Accounted(start, data, since, q)
    ensures Accounted(start, data, since, Turn(q, data, b, unique))
  {
    hide Entries, Datas, DoAll;
    var e := q.waiting[0];
    var q' := q.(ran := q.ran + [e], waiting := q.waiting[1..], trace := q.trace + [Ran(e, data)]);
    Happens(since, q.trace, Ran(e, data));
    var t := q.trace[|since|..];
    var turns, gone, came := Entries(t, Turns), Entries(t, Departures), Entries(t, Arrivals);
    assert gone + [] == gone && came + [] == came;
    assert turns + [e] + q.waiting[1..] == turns + q.waiting;
    assert q.waiting == [e] + q.waiting[1..];
    assert multiset(q.waiting) == multiset{e} + multiset(q.waiting[1..]);
    assert multiset(turns) + multiset{e} + multiset(gone) + multiset(q.waiting[1..]) ==
           multiset(turns) + multiset(gone) + (multiset{e} + multiset(q.waiting[1..]));
    DoAllAccounted(start, data, since, q', b.ops, unique);
  }

  lemma {:induction false} BatchAccounted(start: seq<Entry>, since: seq<Event>, q: Queue, data: Data,
                                          script: seq<Behaviour>, o: Options)
    requires Accounted(start, data, since, q)
    ensures Accounted(start, data, since, Batch(q, data, script, o).0)
    decreases |script|, |q.waiting|
  {
    hide Entries, Datas, DoAll;
    if q.waiting != [] {
      var b := if script == [] then IDLE else script[0];
      var rest := if script == [] then [] else script[1..];
      TurnAccounted(start, data, since, q, b, o.unique);
      if !(b.returnsFalse && o.stopOnFalse) {
        IdleTurn(q, data, script, o.unique);
        BatchAccounted(start, since, Turn(q, data, b, o.unique), data, rest, o);
      }
    }
  }

  // A batch: its data, the list when it begins and when it ends.
  datatype Round = Round(data: Data, start: Queue, done: Queue)

  // Every callback that waits when a batch begins, or is added during it, and that is not
  // removed before, has exactly one turn, in list order and with the batch's data. A list
  // that is still alive accounts for all of them: each has had its turn, or was removed
  // before it, or (only after a callback stopped the batch) still waits.
  ghost predicate ExactlyOnce(r: Round, o: Options) {
    && r.start.trace <= r.done.trace
    && var t := r.done.trace[|r.start.trace|..];
    && var turns, gone, due := Entries(t, Turns), Entries(t, Departures), r.start.waiting + Entries(t, Arrivals);
    && Ascending(due) && Ascending(turns)
    && (forall d <- Datas(t, Turns) :: d == r.data)
    && (forall e <- turns :: multiset(turns)[e] == 1 && e in due && e !in gone)
    && (r.done.live ==> forall e <- due :: e in turns || e in gone || e in r.done.waiting)
    && (r.done.live && !o.stopOnFalse ==> r.done.waiting == [])
  }

  lemma BatchExactlyOnce(q: Queue, data: Data, script: seq<Behaviour>, o: Options)
    requires q.live && InOrder(q)
    ensures ExactlyOnce(Round(data, q, Batch(q, data, script, o).0), o)
  {
    hide Batch, Entries, Datas;
    var start, since := q.waiting, q.trace;
    assert q.trace[|since|..] == [];
    NoEvents();
    assert [] + q.waiting == q.waiting && q.waiting + [] == q.waiting;
    WaitingInOrder(q);
    BatchAccounted(start, since, q, data, script, o);
    if !o.stopOnFalse {
      BatchFinishes(q, data, script, o);
    }
    AccountedOnce(data, q, Batch(q, data, script, o).0, o);
  }

  lemma WaitingInOrder(q: Queue)
    requires InOrder(q)
    ensures Ascending(q.waiting) && AllBelow(q.waiting, q.nextId)
  {
    assert forall i :: 0 <= i < |q.waiting| ==> q.waiting[i] == (q.ran + q.waiting)[|q.ran| + i];
  }

  lemma AccountedOnce(data: Data, q: Queue, done: Queue, o: Options)
    requires Accounted(q.waiting, data, q.trace, done)
    requires !o.stopOnFalse ==> done.waiting == []
    ensures ExactlyOnce(Round(data, q, done), o)
  {
    hide Entries, Datas;
    var t := done.trace[|q.trace|..];
    var turns, gone, came := Entries(t, Turns), Entries(t, Departures), Entries(t, Arrivals);
    var due := q.waiting + came;
    assert forall i :: 0 <= i < |turns| ==> (turns + done.waiting)[i] == turns[i];
    assert forall i :: 0 <= i < |due| ==> due[i] == (q.waiting + came)[i];
    forall e
      ensures e in turns ==> multiset(turns)[e] == 1 && e in due && e !in gone
      ensures done.live && e in due ==> e in turns || e in gone || e in done.waiting
    {
      AtMostOnce(due, e);
      assert multiset(due) == multiset(q.waiting) + multiset(came);
      assert multiset(due)[e] <= 1;
      assert multiset(turns)[e] + multiset(gone)[e] <= multiset(due)[e];
      assert e in turns <==> multiset(turns)[e] > 0;
      assert e in gone <==> multiset(gone)[e] > 0;
      assert e in done.waiting <==> multiset(done.waiting)[e] > 0;
      assert e in due <==> multiset(due)[e] > 0;
    }
  }

  lemma {:induction false} AtMostOnce(entries: seq<Entry>, e: Entry)
    requires Ascending(entries)
    ensures multiset(entries)[e] <= 1
  {
    if entries != [] {
      var init, last := entries[..|entries| - 1], entries[|entries| - 1];
      assert entries == init + [last];
      Front(init, last);
      AtMostOnce(init, e);
      assert e in multiset(init) ==> e in init;
    }
  }

  lemma {:induction false} BatchFinishes(q: Queue, data: Data, script: seq<Behaviour>, o: Options)
    requires !o.stopOnFalse
    ensures Batch(q, data, script, o).0.waiting == []
    decreases |script|, |q.waiting|
  {
    hide DoAll;
    if q.waiting != [] {
      var b := if script == [] then IDLE else script[0];
      IdleTurn(q, data, script, o.unique);
      BatchFinishes(Turn(q, data, b, o.unique), data, if script == [] then [] else script[1..], o);
    }
  }

  // Since `since`, the requests have only grown, by those the trace tells of, and no firing
  // has begun.
  ghost predicate Queued(requests: Option<seq<Data>>, since: seq<Event>, q: Queue) {
    && since <= q.trace
    && (q.live || q.requests.None?)
    && var t := q.trace[|since|..];
    && Datas(t, Beginnings) == []
    && (q.requests.Some? ==> requests.Some? && q.requests.value == requests.value + Datas(t, Requests))
  }

  lemma {:induction false} AddAllQueued(requests: Option<seq<Data>>, since: seq<Event>, q: Queue, fns: seq<Fn>,
                                        unique: bool)
    requires Queued(requests, since, q)
    ensures Queued(requests, since, AddAll(q, fns, unique))
    decreases |fns|
  {
    hide Datas, Entries, Has;
    if fns != [] {
      var ds := Datas(q.trace[|since|..], Requests);
      assert ds + [] == ds;
      Happens(since, q.trace, Added(Entry(q.nextId, fns[0])));
      AddAllQueued(requests, since, AddOne(q, fns[0], unique), fns[1..], unique);
    }
  }

  lemma {:induction false} RemovalsQuiet(entries: seq<Entry>, fn: Fn)
    ensures Datas(Removals(entries, fn), Beginnings) == [] && Datas(Removals(entries, fn), Requests) == []
  {
    hide Entries, Datas;
    if entries == [] {
      NoEvents();
    } else {
      RemovalsQuiet(entries[..|entries| - 1], fn);
      Snoc(Removals(entries[..|entries| - 1], fn), Removed(entries[|entries| - 1]));
      SplitLast(entries, fn);
    }
  }

  lemma {:induction false} RemoveAllQueued(requests: Option<seq<Data>>, since: seq<Event>, q: Queue, fns: seq<Fn>)
    requires Queued(requests, since, q)
    ensures Queued(requests, since, RemoveAll(q, fns))
    decreases |fns|
  {
    hide Datas, Entries;
    if fns != [] {
      var t, gone := q.trace[|since|..], Removals(q.waiting, fns[0]);
      assert (q.trace + gone)[|since|..] == t + gone;
      DatasConcat(t, gone, Beginnings);
      DatasConcat(t, gone, Requests);
      RemovalsQuiet(q.waiting, fns[0]);
      assert Datas(t, Requests) + [] == Datas(t, Requests);
      RemoveAllQueued(requests, since, RemoveOne(q, fns[0]), fns[1..]);
    }
  }

  lemma {:induction false} DoAllQueued(requests: Option<seq<Data>>, since: seq<Event>, q: Queue, ops: seq<Op>,
                                       unique: bool)
    requires Queued(requests, since, q)
    ensures Queued(requests, since, DoAll(q, ops, unique))
    decreases |ops|
  {
    hide Datas, Entries, AddAll, RemoveAll;
    if ops != [] {
      match ops[0] {
        case Add(fns) => AddAllQueued(requests, since, q, fns, unique);
        case Remove(fns) => RemoveAllQueued(requests, since, q, fns);
        case Fire(d) =>
          Happens(since, q.trace, Requested(d));
          if q.requests.Some? {
            var ds := Datas(q.trace[|since|..], Requests);
            assert requests.value + ds + [d] == requests.value + (ds + [d]);
          }
        case _ =>
      }
      DoAllQueued(requests, since, Do(q, ops[0], unique), ops[1..], unique);
    }
  }

  lemma {:induction false} BatchQueued(requests: Option<seq<Data>>, since: seq<Event>, q: Queue, data: Data,
                                       script: seq<Behaviour>, o: Options)
    requires Queued(requests, since, q)
    ensures Queued(requests, since, Batch(q, data, script, o).0)
    decreases |script|, |q.waiting|
  {
    hide Datas, Entries, DoAll;
    if q.waiting != [] {
      var b := if script == [] then IDLE else script[0];
      var e := q.waiting[0];
      Happens(since, q.trace, Ran(e, data));
      var ds := Datas(q.trace[|since|..], Requests);
      assert ds + [] == ds;
      var after := q.(ran := q.ran + [e], waiting := q.waiting[1..], trace := q.trace + [Ran(e, data)]);
      DoAllQueued(requests, since, after, b.ops, o.unique);
      if !(b.returnsFalse && o.stopOnFalse) {
        IdleTurn(q, data, script, o.unique);
        BatchQueued(requests, since, Turn(q, data, b, o.unique), data, if script == [] then [] else script[1..], o);
      }
    }
  }

  // Between two states, the firings that began are the ones owed, in order; all of them, if
  // the list still takes requests in the end.
  ghost predicate InTurn(owed: Option<seq<Data>>, since: seq<Event>, q: Queue) {
    && since <= q.trace
    && var t := q.trace[|since|..];
    && Datas(t, Beginnings) <= (if owed.Some? then owed.value else []) + Datas(t, Requests)
    && (q.requests.Some? ==>
          owed.Some? && q.requests.value == [] && Datas(t, Beginnings) == owed.value + Datas(t, Requests))
  }

  // Firings follow one another: after the one called for come those already requested, then
  // those requested meanwhile, first come first served. None is skipped unless the list is
  // locked or disabled on the way.
  lemma {:induction false} FirstComeFirstServed(q: Queue, data: Data, script: seq<Behaviour>, o: Options)
    requires q.live || q.requests.None?
    ensures var owed := if q.requests.Some? then Some([data] + q.requests.value) else None;
            var done := FireAll(q, data, script, o).0;
            && q.trace <= done.trace
            && (q.requests.Some? ==> InTurn(owed, q.trace, done))
            && (q.requests.None? ==> Datas(done.trace[|q.trace|..], Beginnings) == [data])
    decreases |script|, Pending(q), 1
  {
    hide Batch, Datas, Entries;
    var start := Remembering(q, data, o);
    var (done, rest) := Batch(start, data, script, o);
    assert start.trace[|start.trace|..] == [];
    NoEvents();
    assert Queued(start.requests, start.trace, start) by {
      if start.requests.Some? {
        assert start.requests.value + [] == start.requests.value;
      }
    }
    BatchQueued(start.requests, start.trace, start, data, script, o);
    BatchShrinks(start, data, script, o);
    var final := AfterBatch(done, rest, o).0;
    RequestsInTurn(done, rest, o);
    TraceOfFiring(q.trace, data, done.trace, final.trace);
    var t1, t2 := done.trace[|start.trace|..], final.trace[|done.trace|..];
    if done.requests.None? {
      assert t2 == [] && [data] + [] == [data];
    } else {
      assert [data] + q.requests.value + (Datas(t1, Requests) + Datas(t2, Requests)) ==
             [data] + (q.requests.value + Datas(t1, Requests) + Datas(t2, Requests));
    }
    assert forall x: seq<Data>, y: seq<Data> :: x <= y ==> [data] + x <= [data] + y;
  }

  lemma TraceOfFiring(before: seq<Event>, data: Data, done: seq<Event>, after: seq<Event>)
    requires before + [Began(data)] <= done <= after && Datas(done[|before| + 1..], Beginnings) == []
    ensures var t1, t2 := done[|before| + 1..], after[|done|..];
            && Datas(after[|before|..], Beginnings) == [data] + Datas(t2, Beginnings)
            && Datas(after[|before|..], Requests) == Datas(t1, Requests) + Datas(t2, Requests)
  {
    hide Datas;
    var t1, t2 := done[|before| + 1..], after[|done|..];
    assert after[|before|..] == [Began(data)] + t1 + t2;
    forall k
      ensures Datas([Began(data)] + t1 + t2, k) == DataOf(Began(data), k) + Datas(t1, k) + Datas(t2, k)
    {
      DatasConcat([Began(data)] + t1, t2, k);
      DatasConcat([Began(data)], t1, k);
      Snoc([], Began(data));
      NoEvents();
      assert [] + [Began(data)] == [Began(data)] && [] + DataOf(Began(data), k) == DataOf(Began(data), k);
    }
    assert [] + Datas(t1, Requests) == Datas(t1, Requests);
    assert [data] + [] == [data];
  }

  lemma {:induction false} RequestsInTurn(q: Queue, script: seq<Behaviour>, o: Options)
    requires q.live || q.requests.None?
    ensures InTurn(q.requests, q.trace, AfterBatch(q, script, o).0)
    ensures q.requests.None? ==> AfterBatch(q, script, o).0.trace == q.trace
    decreases |script|, Pending(q), 0
  {
    hide Batch, Datas, Entries, FireAll;
    assert q.trace[|q.trace|..] == [];
    NoEvents();
    assert q.requests.Some? ==> q.requests.value + [] == q.requests.value;
    if q.requests.Some? && q.requests.value != [] {
      FirstComeFirstServed(NextRequest(q), q.requests.value[0], script, o);
      assert [q.requests.value[0]] + q.requests.value[1..] == q.requests.value;
    }
  }

  // The batches of a whole call of fire, in order.
  ghost function Rounds(q: Queue, data: Data, script: seq<Behaviour>, o: Options): (r: seq<Round>)
    ensures r != []
    decreases |script|, Pending(q)
  {
    var start := Remembering(q, data, o);
    BatchShrinks(start, data, script, o);
    var (done, rest) := Batch(start, data, script, o);
    [Round(data, start, done)] +
    if More(done) then Rounds(NextRequest(done), done.requests.value[0], rest, o) else []
  }

  // A batch is followed by another one for the oldest request.
  predicate More(q: Queue) {
    q.live && q.requests.Some? && q.requests.value != []
  }

  // Each batch finds the list as the one before left it, the whole of it waiting.
  ghost predicate Linked(rounds: seq<Round>, o: Options) {
    forall i :: 0 < i < |rounds| ==>
      var last := rounds[i - 1].done;
      && More(last) && rounds[i].data == last.requests.value[0]
      && rounds[i].start == Remembering(NextRequest(last), rounds[i].data, o)
  }

  // Every batch of a whole firing calls everybody exactly once, in list order and with its
  // own data. The batches are all there is to the firing.
  lemma {:induction false} FiringExactlyOnce(q: Queue, data: Data, script: seq<Behaviour>, o: Options)
    requires q.live && InOrder(q)
    ensures var rounds := Rounds(q, data, script, o);
            && rounds[0].data == data && rounds[0].start == Remembering(q, data, o) && Linked(rounds, o)
            && !More(rounds[|rounds| - 1].done)
            && (forall r <- rounds :: ExactlyOnce(r, o))
            && FireAll(q, data, script, o).0.trace == rounds[|rounds| - 1].done.trace
            && InOrder(FireAll(q, data, script, o).0)
    decreases |script|, Pending(q)
  {
    hide Batch, ExactlyOnce, Ascending, AllBelow;
    var start := Remembering(q, data, o);
    BatchShrinks(start, data, script, o);
    var (done, rest) := Batch(start, data, script, o);
    BatchOrder(start, data, script, o);
    BatchExactlyOnce(start, data, script, o);
    var rounds := Rounds(q, data, script, o);
    if More(done) {
      var next := NextRequest(done);
      assert next.ran + next.waiting == done.ran + done.waiting;
      var others := Rounds(next, done.requests.value[0], rest, o);
      FiringExactlyOnce(next, done.requests.value[0], rest, o);
      assert rounds == [Round(data, start, done)] + others;
      assert forall i :: 0 < i < |rounds| ==> rounds[i] == others[i - 1];
    } else {
      assert rounds == [Round(data, start, done)];
      Closed(done, rest, o);
    }
  }

  // Nothing more is called when no request is left.
  lemma Closed(q: Queue, script: seq<Behaviour>, o: Options)
    requires InOrder(q) && !More(q)
    ensures AfterBatch(q, script, o).0.trace == q.trace && InOrder(AfterBatch(q, script, o).0)
  {
    assert q.ran + q.waiting + [] == q.ran + q.waiting;
  }

  // fireWith on a list that is not being fired: everybody waits for the first batch.
  lemma FireWithOnce(q: Queue, fired: bool, data: Data, script: seq<Behaviour>, o: Options)
    requires q.live && InOrder(q) && q.waiting == [] && (!fired || q.requests.Some?)
    ensures var rounds := Rounds(q.(ran := [], waiting := q.ran), data, script, o);
            && rounds[0].data == data && rounds[0].start.waiting == q.ran && Linked(rounds, o)
            && (forall r <- rounds :: ExactlyOnce(r, o))
            && FireWithIdle(q, fired, data, script, o).0.trace == rounds[|rounds| - 1].done.trace
            && InOrder(FireWithIdle(q, fired, data, script, o).0)
  {
    hide FireAll, Rounds, Linked, ExactlyOnce;
    SameOrder(q, q.(ran := [], waiting := q.ran));
    FiringExactlyOnce(q.(ran := [], waiting := q.ran), data, script, o);
  }

  // add with a memory: the first batch is for the newcomers alone, with the data remembered.
  lemma AddOnce(q: Queue, fns: seq<Fn>, script: seq<Behaviour>, o: Options)
    requires q.live && InOrder(q) && q.waiting == [] && q.memory.Some?
    ensures var rounds := Rounds(AddAll(q, fns, o.unique), q.memory.value, script, o);
            && rounds[0].data == q.memory.value && rounds[0].start.ran == q.ran && Linked(rounds, o)
            && (forall r <- rounds :: ExactlyOnce(r, o))
            && AddIdle(q, fns, script, o).0.trace == rounds[|rounds| - 1].done.trace
            && InOrder(AddIdle(q, fns, script, o).0)
  {
    hide FireAll, AddAll, Rounds, Linked, ExactlyOnce;
    AddAllOrder(q, fns, o.unique);
    AddAllKeeps(q, fns, o.unique);
    FiringExactlyOnce(AddAll(q, fns, o.unique), q.memory.value, script, o);
  }

  lemma {:induction false} AddAllKeeps(q: Queue, fns: seq<Fn>, unique: bool)
    ensures var more := AddAll(q, fns, unique);
            more.ran == q.ran && more.live == q.live && more.memory == q.memory && more.requests == q.requests
    decreases |fns|
  {
    hide Has;
    if fns != [] {
      AddAllKeeps(AddOne(q, fns[0], unique), fns[1..], unique);
    }
  }
}
