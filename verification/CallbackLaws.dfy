// What the options and the operations of a callback list mean for those in it.
module CallbackLaws {
  import opened Wrappers
  import opened Sequences
  import opened CallbackQueue
  import opened CallbackOrder
  import opened CallbackFacts
  import opened CallbackMemory

  // Removing a function takes all its entries and no others.
  lemma {:induction false} WithoutExactly(entries: seq<Entry>, fn: Fn, e: Entry)
    ensures e in Without(entries, fn) <==> e in entries && e.fn != fn
  {
    if entries != [] {
      WithoutExactly(entries[..|entries| - 1], fn, e);
      assert entries == entries[..|entries| - 1] + [entries[|entries| - 1]];
    }
  }

  // Without the unique option every function given joins the end of the list, in order.
  lemma {:induction false} AddsAll(q: Queue, fns: seq<Fn>)
    ensures var r := AddAll(q, fns, false);
            && r.ran == q.ran && |r.waiting| == |q.waiting| + |fns| && q.waiting <= r.waiting
            && forall i :: 0 <= i < |fns| ==> r.waiting[|q.waiting| + i].fn == fns[i]
    decreases |fns|
  {
    if fns != [] {
      var one := AddOne(q, fns[0], false);
      AddsAll(one, fns[1..]);
      assert forall i :: 0 < i < |fns| ==> fns[i] == fns[1..][i - 1];
      assert one.waiting[|q.waiting|].fn == fns[0];
    }
  }

  // With it, those that are not in the list yet do, each once.
  ghost predicate NoneTwice(entries: seq<Entry>) {
    forall i, j :: 0 <= i < j < |entries| ==> entries[i].fn != entries[j].fn
  }

  lemma {:induction false} AddsMissing(q: Queue, fns: seq<Fn>)
    requires NoneTwice(q.ran + q.waiting)
    ensures var r := AddAll(q, fns, true);
            && r.ran == q.ran && NoneTwice(r.ran + r.waiting)
            && forall fn :: Has(r.ran + r.waiting, fn) <==> Has(q.ran + q.waiting, fn) || fn in fns
    decreases |fns|
  {
    if fns != [] {
      var one := AddOne(q, fns[0], true);
      OneMissing(q, fns[0]);
      AddsMissing(one, fns[1..]);
      assert forall fn :: fn in fns <==> fn == fns[0] || fn in fns[1..];
    }
  }

  lemma OneMissing(q: Queue, fn: Fn)
    requires NoneTwice(q.ran + q.waiting)
    ensures var one := AddOne(q, fn, true);
            && one.ran == q.ran && NoneTwice(one.ran + one.waiting)
            && forall x :: Has(one.ran + one.waiting, x) <==> Has(q.ran + q.waiting, x) || x == fn
  {
    var all := q.ran + q.waiting;
    if !Has(all, fn) {
      var e := Entry(q.nextId, fn);
      var more := all + [e];
      assert AddOne(q, fn, true).ran + AddOne(q, fn, true).waiting == more;
      assert forall i :: 0 <= i < |all| ==> more[i] == all[i];
      assert more[|all|].fn == fn;
      forall x
        ensures Has(more, x) <==> Has(all, x) || x == fn
      {
        if i :| 0 <= i < |all| && all[i].fn == x {
          assert more[i].fn == x;
        }
      }
    }
  }

  // A callback that returns false ends the batch if the option asks for it: nobody else is called,
  // and the list forgets the data; otherwise it changes nothing.
  lemma StopsAtFalse(q: Queue, data: Data, script: seq<Behaviour>, o: Options)
    requires q.waiting != [] && script != [] && script[0].returnsFalse
    ensures var turn, r := Turn(q, data, script[0], o.unique), Batch(q, data, script, o);
            if o.stopOnFalse then r == (turn.(memory := None), script[1..])
            else r == Batch(turn, data, script[1..], o)
  {
    hide Turn;
  }

  lemma {:induction false} RemovesAll(q: Queue, fns: seq<Fn>, e: Entry)
    ensures var r := RemoveAll(q, fns);
            && (e in r.ran <==> e in q.ran && e.fn !in fns)
            && (e in r.waiting <==> e in q.waiting && e.fn !in fns)
    decreases |fns|
  {
    hide Removals, Without;
    if fns != [] {
      WithoutExactly(q.ran, fns[0], e);
      WithoutExactly(q.waiting, fns[0], e);
      RemovesAll(RemoveOne(q, fns[0]), fns[1..], e);
      assert e.fn in fns <==> e.fn == fns[0] || e.fn in fns[1..];
    }
  }

  // What a callback can do to the list that is calling it: those added wait behind all others, those
  // removed are gone, a request is remembered behind earlier ones, and a list that is disabled, or
  // locked with nothing to remember, is empty at once. A disabled list takes nothing.
  lemma OperationsExactly(q: Queue, fns: seq<Fn>, d: Data, e: Entry, unique: bool)
    ensures q.live ==>
              var r := Do(q, Add(fns), false);
              && r.ran == q.ran && |r.waiting| == |q.waiting| + |fns| && q.waiting <= r.waiting
              && forall i :: 0 <= i < |fns| ==> r.waiting[|q.waiting| + i].fn == fns[i]
    ensures q.live ==>
              var r := Do(q, Remove(fns), unique);
              && (e in r.ran <==> e in q.ran && e.fn !in fns)
              && (e in r.waiting <==> e in q.waiting && e.fn !in fns)
    ensures q.live && q.requests.Some? ==> Do(q, Fire(d), unique).requests == Some(q.requests.value + [d])
    ensures !q.live || q.requests.None? ==> Do(q, Fire(d), unique) == q
    ensures !q.live ==> Do(q, Add(fns), unique) == Do(q, Remove(fns), unique) == q
    ensures Do(q, Disable, unique) == Queue([], [], false, None, None, q.nextId, q.trace)
    ensures Do(q, Lock, unique) == if q.memory.Some? then q.(requests := None) else Do(q, Disable, unique)
  {
    hide AddAll, RemoveAll;
    AddsAll(q, fns);
    RemovesAll(q, fns, e);
  }

  // The same for a list that is not calling anybody, and remembers nothing: it only changes.
  lemma IdleExactly(l: List, fns: seq<Fn>, e: Entry, o: Options)
    requires l.q.live && l.q.waiting == []
    ensures l.q.memory.None? && !o.unique ==>
              var r := Perform(l, CallAdd(fns), o).q;
              && r.waiting == [] && |r.ran| == |l.q.ran| + |fns| && l.q.ran <= r.ran
              && forall i :: 0 <= i < |fns| ==> r.ran[|l.q.ran| + i].fn == fns[i]
    ensures var r := Perform(l, CallRemove(fns), o).q;
            e in r.ran <==> e in l.q.ran && e.fn !in fns
  {
    hide AddAll, RemoveAll, FireAll;
    AddAllRemembers(l.q, fns, o.unique);
    AddsAll(l.q, fns);
    RemovesAll(l.q, fns, e);
  }

  // A disabled list stays disabled, and does nothing.
  lemma DeadForever(l: List, call: Call, o: Options)
    requires !l.q.live && l.q.requests.None? && l.q.memory.None? && l.q.ran == l.q.waiting == []
    ensures Perform(l, call, o).q == l.q && Perform(l, call, o).script == l.script
  {
  }

  // After disabling or locking no request is taken; locking a list that remembers something leaves
  // its callbacks where they are.
  lemma LockExactly(l: List, o: Options)
    ensures var r := Perform(l, CallLock, o).q;
            && r.requests.None?
            && if l.q.memory.Some? then r == l.q.(requests := None)
               else r == Queue([], [], false, None, None, l.q.nextId, l.q.trace)
    ensures Perform(l, CallDisable, o).q == Queue([], [], false, None, None, l.q.nextId, l.q.trace)
  {
  }

  // A list that has been fired and takes no more requests ignores further ones.
  lemma NoMoreFirings(l: List, data: Data, o: Options)
    requires l.fired && l.q.requests.None?
    ensures Perform(l, CallFire(data), o).q == l.q && Perform(l, CallFire(data), o).script == l.script
  {
  }

  // --- A once list calls nobody twice, over its whole life.

  ghost predicate Unlike(entries: seq<Entry>) {
    forall i, j :: 0 <= i < j < |entries| ==> entries[i] != entries[j]
  }

  function Turned(q: Queue): seq<Entry> {
    Entries(q.trace, Turns)
  }

  // Nobody has had two turns, and those who may still have one have had none.
  ghost predicate Fresh(q: Queue, left: seq<Entry>) {
    && Unlike(Turned(q)) && Unlike(left)
    && (forall e <- left :: e !in Turned(q) && e.id < q.nextId)
    && (forall e <- Turned(q) :: e.id < q.nextId)
  }

  lemma NoTurn(trace: seq<Event>, e: Event)
    ensures Entries(trace + [e], Turns) ==
              if e.Ran? then Entries(trace, Turns) + [e.entry] else Entries(trace, Turns)
  {
    assert (trace + [e])[..|trace|] == trace;
    assert Entries(trace, Turns) + [] == Entries(trace, Turns);
  }

  lemma {:induction false} AddAllFresh(q: Queue, fns: seq<Fn>, unique: bool)
    requires Fresh(q, q.waiting)
    ensures Fresh(AddAll(q, fns, unique), AddAll(q, fns, unique).waiting)
    decreases |fns|
  {
    hide Entries, Has;
    if fns != [] {
      NoTurn(q.trace, Added(Entry(q.nextId, fns[0])));
      AddAllFresh(AddOne(q, fns[0], unique), fns[1..], unique);
    }
  }

  lemma {:induction false} WithoutUnlike(entries: seq<Entry>, fn: Fn)
    requires Unlike(entries)
    ensures Unlike(Without(entries, fn)) && forall e <- Without(entries, fn) :: e in entries
  {
    if entries != [] {
      var init, last := entries[..|entries| - 1], entries[|entries| - 1];
      assert Unlike(init) && forall i :: 0 <= i < |init| ==> init[i] == entries[i];
      WithoutUnlike(init, fn);
      assert last !in init;
    }
  }

  lemma {:induction false} RemoveAllFresh(q: Queue, fns: seq<Fn>)
    requires Fresh(q, q.waiting)
    ensures Fresh(RemoveAll(q, fns), RemoveAll(q, fns).waiting)
    decreases |fns|
  {
    hide Entries, Datas, Without, Removals;
    if fns != [] {
      EntriesConcat(q.trace, Removals(q.waiting, fns[0]), Turns);
      RemovalsSplit(q.waiting, fns[0]);
      assert Turned(q) + [] == Turned(q);
      WithoutUnlike(q.waiting, fns[0]);
      RemoveAllFresh(RemoveOne(q, fns[0]), fns[1..]);
    }
  }

  lemma {:induction false} DoAllFresh(q: Queue, ops: seq<Op>, unique: bool)
    requires Fresh(q, q.waiting)
    ensures Fresh(DoAll(q, ops, unique), DoAll(q, ops, unique).waiting)
    decreases |ops|
  {
    hide Entries, AddAll, RemoveAll, Unlike;
    if ops != [] {
      assert Unlike([]) by { NoneUnlike(); }
      match ops[0] {
        case Add(fns) => AddAllFresh(q, fns, unique);
        case Remove(fns) => RemoveAllFresh(q, fns);
        case Fire(d) => NoTurn(q.trace, Requested(d));
        case _ =>
      }
      DoAllFresh(Do(q, ops[0], unique), ops[1..], unique);
    }
  }

  lemma NoneUnlike()
    ensures Unlike([])
  {
  }

  lemma TurnFresh(q: Queue, data: Data, b: Behaviour, unique: bool)
    requires q.waiting != [] && Fresh(q, q.waiting)
    ensures Fresh(Turn(q, data, b, unique), Turn(q, data, b, unique).waiting)
  {
    hide Entries, DoAll;
    var e := q.waiting[0];
    NoTurn(q.trace, Ran(e, data));
    var next := q.(ran := q.ran + [e], waiting := q.waiting[1..], trace := q.trace + [Ran(e, data)]);
    assert forall i :: 0 <= i < |q.waiting| - 1 ==> q.waiting[1..][i] == q.waiting[i + 1];
    assert e !in q.waiting[1..];
    DoAllFresh(next, b.ops, unique);
  }

  lemma {:induction false} BatchFresh(q: Queue, data: Data, script: seq<Behaviour>, o: Options)
    requires Fresh(q, q.waiting)
    ensures var r := Batch(q, data, script, o).0; Fresh(r, r.waiting)
    decreases |script|, |q.waiting|
  {
    hide Turn, Entries, Unlike;
    if q.waiting != [] {
      var b := if script == [] then IDLE else script[0];
      TurnFresh(q, data, b, o.unique);
      if !(b.returnsFalse && o.stopOnFalse) {
        IdleTurn(q, data, script, o.unique);
        BatchFresh(Turn(q, data, b, o.unique), data, if script == [] then [] else script[1..], o);
      }
    }
  }

  // A dead list has nobody in it.
  lemma {:induction false} DeadEmpty(q: Queue, data: Data, script: seq<Behaviour>, o: Options)
    requires !q.live ==> q.ran == q.waiting == []
    ensures var r := Batch(q, data, script, o).0; !r.live ==> r.ran == r.waiting == []
    decreases |script|, |q.waiting|
  {
    hide DoAll;
    if q.waiting != [] {
      var b := if script == [] then IDLE else script[0];
      var e := q.waiting[0];
      DoAllEmpty(q.(ran := q.ran + [e], waiting := q.waiting[1..], trace := q.trace + [Ran(e, data)]), b.ops, o.unique);
      if !(b.returnsFalse && o.stopOnFalse) {
        IdleTurn(q, data, script, o.unique);
        DeadEmpty(Turn(q, data, b, o.unique), data, if script == [] then [] else script[1..], o);
      }
    }
  }

  lemma {:induction false} DoAllEmpty(q: Queue, ops: seq<Op>, unique: bool)
    requires !q.live ==> q.ran == q.waiting == []
    ensures var r := DoAll(q, ops, unique); !r.live ==> r.ran == r.waiting == []
    decreases |ops|
  {
    hide Datas, AddAll, RemoveAll;
    if ops != [] {
      match ops[0] {
        case Add(fns) => AddAllRemembers(q, fns, unique);
        case Remove(fns) => RemoveAllRemembers(q, fns);
        case _ =>
      }
      DoAllEmpty(Do(q, ops[0], unique), ops[1..], unique);
    }
  }

  // A firing of a once list leaves nobody in it.
  lemma OnceFired(q: Queue, data: Data, script: seq<Behaviour>, o: Options)
    requires q.live && q.requests.None? && Fresh(q, q.waiting)
    ensures var r := FireAll(q, data, script, o).0;
            r.ran == r.waiting == [] && Fresh(r, []) && r.requests.None?
  {
    hide Batch, Entries, Datas, Unlike;
    NoTurn(q.trace, Began(data));
    var start := Remembering(q, data, o);
    assert Fresh(start, start.waiting);
    BatchFresh(start, data, script, o);
    BatchRemembers(start, data, script, o);
    DeadEmpty(start, data, script, o);
    BatchShrinks(start, data, script, o);
    assert Unlike([]) by { NoneUnlike(); }
  }

  // Adding, with the list seen from before its first callback.
  lemma {:induction false} AddAllMoved(q: Queue, fns: seq<Fn>, unique: bool)
    ensures var r := AddAll(q, fns, unique);
            && AddAll(q.(ran := [], waiting := q.ran + q.waiting), fns, unique) ==
                 r.(ran := [], waiting := r.ran + r.waiting)
            && r.live == q.live && r.requests == q.requests && r.memory == q.memory
    decreases |fns|
  {
    hide Has;
    if fns != [] {
      var moved := q.(ran := [], waiting := q.ran + q.waiting);
      assert [] + (q.ran + q.waiting) == q.ran + q.waiting;
      Associative(q.ran, q.waiting, [Entry(q.nextId, fns[0])]);
      var one := AddOne(q, fns[0], unique);
      assert AddOne(moved, fns[0], unique) == one.(ran := [], waiting := one.ran + one.waiting);
      AddAllMoved(one, fns[1..], unique);
    }
  }

  lemma AddIdleFresh(q: Queue, fns: seq<Fn>, script: seq<Behaviour>, o: Options)
    requires Fresh(q, q.ran) && q.waiting == [] && q.requests.None? && (!q.live ==> q.ran == [])
    ensures var r := AddIdle(q, fns, script, o).0;
            && Fresh(r, r.ran) && r.waiting == [] && r.requests.None? && (!r.live ==> r.ran == [])
  {
    hide Entries, Datas, FireAll, AddAll, Unlike;
    assert Unlike([]) by { NoneUnlike(); }
    assert q.ran + q.waiting == q.ran;
    AddAllMoved(q, fns, o.unique);
    AddAllFresh(q.(ran := [], waiting := q.ran), fns, o.unique);
    AddAllFresh(q, fns, o.unique);
    var more := AddAll(q, fns, o.unique);
    if q.live && more.memory.Some? {
      OnceFired(more, more.memory.value, script, o);
    }
  }

  lemma {:induction false} RemoveIdleFresh(q: Queue, fns: seq<Fn>)
    requires Fresh(q, q.ran) && q.waiting == []
    ensures var r := RemoveAll(q, fns);
            && Fresh(r, r.ran) && r.waiting == [] && r.requests == q.requests && r.live == q.live
            && (q.ran == [] ==> r.ran == [])
    decreases |fns|
  {
    hide Entries;
    if fns != [] {
      WithoutUnlike(q.ran, fns[0]);
      assert q.trace + [] == q.trace;
      RemoveIdleFresh(RemoveOne(q, fns[0]), fns[1..]);
    }
  }

  // In every run of a once list no entry has had two turns, in all its firings together.
  lemma {:induction false} OnceOnly(o: Options, script: seq<Behaviour>, calls: seq<Call>)
    requires o.once
    ensures var q := After(o, script, calls).q;
            Unlike(Turned(q)) && Fresh(q, q.ran) && q.waiting == [] && q.requests.None?
            && (!q.live ==> q.ran == [])
    decreases |calls|
  {
    hide Entries, Perform;
    if calls == [] {
      NoEvents();
    } else {
      OnceOnly(o, script, calls[..|calls| - 1]);
      OnceStep(After(o, script, calls[..|calls| - 1]), calls[|calls| - 1], o);
    }
  }

  lemma OnceStep(l: List, call: Call, o: Options)
    requires Fresh(l.q, l.q.ran) && l.q.waiting == [] && l.q.requests.None? && (!l.q.live ==> l.q.ran == [])
    ensures var q := Perform(l, call, o).q;
            && Fresh(q, q.ran) && q.waiting == [] && q.requests.None? && (!q.live ==> q.ran == [])
  {
    hide Entries, Datas, FireAll, AddAll, RemoveAll, Unlike;
    assert Unlike([]) by { NoneUnlike(); }
    var moved := l.q.(ran := [], waiting := l.q.ran);
    match call
    case CallAdd(fns) =>
      AddIdleFresh(l.q, fns, l.script, o);
    case CallRemove(fns) =>
      RemoveIdleFresh(l.q, fns);
    case CallFire(data) =>
      if l.q.live && !l.fired {
        OnceFired(moved, data, l.script, o);
      }
    case _ =>
  }
}
