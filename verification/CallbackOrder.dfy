// The list is always in the order in which its callbacks were added.
module CallbackOrder {
  import opened Sequences
  import opened CallbackQueue

  ghost predicate Ascending(entries: seq<Entry>) {
    forall i, j :: 0 <= i < j < |entries| ==> entries[i].id < entries[j].id
  }

  ghost predicate AllBelow(entries: seq<Entry>, id: nat) {
    forall i :: 0 <= i < |entries| ==> entries[i].id < id
  }

  ghost predicate InOrder(q: Queue) {
    Ascending(q.ran + q.waiting) && AllBelow(q.ran + q.waiting, q.nextId)
  }

  lemma Front(entries: seq<Entry>, e: Entry)
    requires Ascending(entries + [e])
    ensures Ascending(entries) && AllBelow(entries, e.id)
  {
    var all := entries + [e];
    assert forall i :: 0 <= i < |entries| ==> entries[i] == all[i];
    assert all[|entries|] == e;
  }

  lemma OneMore(entries: seq<Entry>, e: Entry)
    requires Ascending(entries) && AllBelow(entries, e.id)
    ensures Ascending(entries + [e]) && AllBelow(entries + [e], e.id + 1)
  {
  }

  lemma {:induction false} WithoutAscending(head: seq<Entry>, entries: seq<Entry>, fn: Fn, id: nat)
    requires Ascending(head + entries) && AllBelow(head + entries, id)
    ensures Ascending(head + Without(entries, fn)) && AllBelow(head + Without(entries, fn), id)
    ensures forall e :: e in Without(entries, fn) ==> e in entries
    decreases |entries|
  {
    if entries != [] {
      var init, last := entries[..|entries| - 1], entries[|entries| - 1];
      assert entries == init + [last];
      assert head + entries == head + init + [last];
      Front(head + init, last);
      WithoutAscending(head, init, fn, last.id);
      var less := Without(init, fn);
      assert (head + entries)[|head + init|] == last;
      if last.fn == fn {
        assert Without(entries, fn) == less;
      } else {
        assert head + Without(entries, fn) == head + less + [last];
        OneMore(head + less, last);
        assert (head + entries)[|head + init|] == last;
      }
    }
  }

  // Taking one entry out leaves the others in order.
  lemma Shorter(entries: seq<Entry>, i: nat, id: nat)
    requires i < |entries| && Ascending(entries) && AllBelow(entries, id)
    ensures Ascending(entries[..i] + entries[i + 1..]) && AllBelow(entries[..i] + entries[i + 1..], id)
  {
  }

  // The same entries, divided in another way.
  lemma SameOrder(q: Queue, r: Queue)
    requires InOrder(q) && q.ran + q.waiting == r.ran + r.waiting && q.nextId <= r.nextId
    ensures InOrder(r)
  {
  }

  lemma {:induction false} AddAllOrder(q: Queue, fns: seq<Fn>, unique: bool)
    requires InOrder(q)
    ensures InOrder(AddAll(q, fns, unique))
    decreases |fns|
  {
    hide Has;
    if fns != [] {
      OneMore(q.ran + q.waiting, Entry(q.nextId, fns[0]));
      Associative(q.ran, q.waiting, [Entry(q.nextId, fns[0])]);
      AddAllOrder(AddOne(q, fns[0], unique), fns[1..], unique);
    }
  }

  lemma {:induction false} RemoveAllOrder(q: Queue, fns: seq<Fn>)
    requires InOrder(q)
    ensures InOrder(RemoveAll(q, fns))
    decreases |fns|
  {
    hide Without, Ascending, AllBelow;
    if fns != [] {
      RemoveOneOrder(q, fns[0]);
      RemoveAllOrder(RemoveOne(q, fns[0]), fns[1..]);
    }
  }

  lemma RemoveOneOrder(q: Queue, fn: Fn)
    requires InOrder(q)
    ensures InOrder(RemoveOne(q, fn))
  {
    hide Without, Ascending, AllBelow;
    var all := q.ran + q.waiting;
    assert [] + all == all && [] + Without(all, fn) == Without(all, fn);
    WithoutConcat(q.ran, q.waiting, fn);
    WithoutAscending([], all, fn, q.nextId);
  }

  lemma DoOrder(q: Queue, op: Op, unique: bool)
    requires InOrder(q)
    ensures InOrder(Do(q, op, unique))
  {
    hide AddAll, RemoveAll;
    match op
    case Add(fns) => AddAllOrder(q, fns, unique);
    case Remove(fns) => RemoveAllOrder(q, fns);
    case _ =>
  }

  lemma {:induction false} DoAllOrder(q: Queue, ops: seq<Op>, unique: bool)
    requires InOrder(q)
    ensures InOrder(DoAll(q, ops, unique))
    decreases |ops|
  {
    hide Do, InOrder;
    if ops != [] {
      DoOrder(q, ops[0], unique);
      DoAllOrder(Do(q, ops[0], unique), ops[1..], unique);
    }
  }

  lemma TurnOrder(q: Queue, data: Data, b: Behaviour, unique: bool)
    requires InOrder(q) && q.waiting != []
    ensures InOrder(Turn(q, data, b, unique))
  {
    hide DoAll, Ascending, AllBelow;
    var e := q.waiting[0];
    assert q.ran + [e] + q.waiting[1..] == q.ran + q.waiting;
    DoAllOrder(q.(ran := q.ran + [e], waiting := q.waiting[1..], trace := q.trace + [Ran(e, data)]), b.ops, unique);
  }

  lemma IdleTurn(q: Queue, data: Data, script: seq<Behaviour>, unique: bool)
    requires q.waiting != []
    ensures |Turn(q, data, IDLE, unique).waiting| < |q.waiting|
  {
  }

  lemma {:induction false} BatchOrder(q: Queue, data: Data, script: seq<Behaviour>, o: Options)
    requires InOrder(q)
    ensures InOrder(Batch(q, data, script, o).0)
    decreases |script|, |q.waiting|
  {
    hide Turn, Ascending, AllBelow;
    if q.waiting != [] {
      var b := if script == [] then IDLE else script[0];
      TurnOrder(q, data, b, o.unique);
      if !(b.returnsFalse && o.stopOnFalse) {
        IdleTurn(q, data, script, o.unique);
        BatchOrder(Turn(q, data, b, o.unique), data, if script == [] then [] else script[1..], o);
      }
    }
  }
}
