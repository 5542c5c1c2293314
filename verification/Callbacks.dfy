// jQuery.Callbacks: a list that repairs its own indices while it is being fired.
module Callbacks {
  import opened Wrappers
  import opened CallbackQueue
  import opened CallbackOrder

  // Arguments of add: functions, lists of them to any depth, and anything else.
  datatype Arg = Function(fn: Fn) | List(args: seq<Arg>) | Other

  function Functions(args: seq<Arg>): seq<Fn> {
    if args == [] then []
    else
      (match args[0]
       case Function(fn) => [fn]
       case List(inner) => Functions(inner)
       case Other => [])
      + Functions(args[1..])
  }

  function FunctionList(fns: seq<Fn>): (r: seq<Arg>)
    ensures |r| == |fns| && forall i :: 0 <= i < |r| ==> r[i] == Function(fns[i])
  {
    seq(|fns|, i requires 0 <= i < |fns| => Function(fns[i]))
  }

  class Callbacks {
    const options: Options
    var list: Option<seq<Entry>>
    var stack: Option<seq<Data>>
    var memory: Option<Data>
    var fired: bool
    var firing: bool
    var firingStart: nat
    var firingLength: nat
    var firingIndex: int
    var script: seq<Behaviour>  // what the callbacks will do, call by call
    var nextId: nat
    ghost var trace: seq<Event>

    // The list is in the order of addition.
    ghost predicate Ordered()
      reads this`list, this`nextId
    {
      list.Some? ==> Ascending(list.value) && AllBelow(list.value, nextId)
    }

    // Firing or not, the indices are right: the length is that of the list, and the cursor
    // separates those that have had their turn from those that have not.
    ghost predicate Valid()
      reads this
    {
      && (list.None? ==> stack.None? && memory.None?)
      && (options.once ==> stack.None?)
      && (firing ==> fired)
      && (firing && list.Some? ==> firingLength == |list.value| && -1 <= firingIndex < firingLength)
      && firingStart == 0
      && Ordered()
    }

    // The order holds of the queue, at every moment of a firing.
    lemma QueueInOrder()
      requires Valid()
      ensures InOrder(Q())
    {
      assert list.Some? ==> Q().ran + Q().waiting == list.value;
    }

    ghost function Q(): Queue
      reads this
      requires Valid()
    {
      var entries := if list.None? then [] else list.value;
      var cursor := if firing && list.Some? then firingIndex + 1 else |entries|;
      Queue(entries[..cursor], entries[cursor..], list.Some?, stack, memory, nextId, trace)
    }

    constructor (options: Options)
      ensures Valid() && !firing && !fired
      ensures Q() == Queue([], [], true, if options.once then None else Some([]), None, 0, [])
      ensures this.options == options && script == []
    {
      this.options := options;
      list, memory, fired, firing := Some([]), None, false, false;
      stack := if options.once then None else Some([]);
      firingStart, firingLength, firingIndex := 0, 0, 0;
      script, nextId, trace := [], 0, [];
    }

    // The list as a queue, cut at the given place.
    ghost function View(cursor: nat): Queue
      reads this
      requires list.Some? && cursor <= |list.value|
    {
      Queue(list.value[..cursor], list.value[cursor..], true, stack, memory, nextId, trace)
    }

    method AddFunction(fn: Fn, ghost cursor: nat)
      requires list.Some? && cursor <= |list.value| && Ordered()
      modifies this`list, this`nextId, this`trace
      ensures list.Some? && cursor <= |list.value| && Ordered()
              && View(cursor) == AddOne(old(View(cursor)), fn, options.unique)
    {
      assert list.value[..cursor] + list.value[cursor..] == list.value;
      if !options.unique || !Has(list.value, fn) {
        ghost var e := Entry(nextId, fn);
        OneMore(list.value, e);
        list := Some(list.value + [Entry(nextId, fn)]);
        trace := trace + [Added(e)];
        nextId := nextId + 1;
      }
    }

    // Inspect nested lists recursively.
    method AddArgs(args: seq<Arg>, ghost cursor: nat)
      requires list.Some? && cursor <= |list.value| && Ordered()
      modifies this`list, this`nextId, this`trace
      ensures list.Some? && cursor <= |list.value| && Ordered()
      ensures View(cursor) == AddAll(old(View(cursor)), Functions(args), options.unique)
      decreases args
    {
      for i := 0 to |args|
        invariant list.Some? && cursor <= |list.value| && Ordered()
        invariant AddAll(View(cursor), Functions(args[i..]), options.unique) ==
                    AddAll(old(View(cursor)), Functions(args), options.unique)
      {
        ghost var q := View(cursor);
        assert args[i..][0] == args[i] && args[i..][1..] == args[i + 1..];
        match args[i] {
          case Function(fn) =>
            AddAllConcat(q, [fn], Functions(args[i + 1..]), options.unique);
            AddFunction(fn, cursor);
            assert AddAll(q, [fn], options.unique) == AddOne(q, fn, options.unique);
          case List(inner) =>
            AddAllConcat(q, Functions(inner), Functions(args[i + 1..]), options.unique);
            AddArgs(inner, cursor);
          case Other =>
            assert [] + Functions(args[i + 1..]) == Functions(args[i + 1..]);
        }
      }
    }

    method Add(args: seq<Arg>)
      requires Valid()
      modifies this
      ensures Valid() && firing == old(firing)
      ensures firing ==> Q() == Do(old(Q()), Op.Add(Functions(args)), options.unique) && script == old(script)
      ensures !firing ==> (Q(), script) == AddIdle(old(Q()), Functions(args), old(script), options)
      ensures fired == (old(fired) || (!firing && old(Q()).live && old(Q()).memory.Some?))
      decreases if firing then 0 else 1, if firing then 0 else |script|, if stack.None? then 0 else |stack.value|, 2
    {
      if list.Some? {
        var start := |list.value|;
        assert !firing ==> View(start) == Q();
        assert firing ==> View((firingIndex + 1) as nat) == Q();
        AddArgs(args, if firing then (firingIndex + 1) as nat else start);
        if firing {
          firingLength := |list.value|;
        } else if memory.Some? {
          firingStart := start;
          FireList(memory.value);
        } else {
          assert list.value[..start] + list.value[start..] == list.value;
          assert Q() == Settle(View(start));
        }
      }
    }

    method Remove(fns: seq<Fn>)
      requires Valid()
      modifies this`list, this`firingLength, this`firingIndex, this`trace
      ensures Valid() && Q() == if list.Some? then RemoveAll(old(Q()), fns) else old(Q())
      ensures firing ==> Q() == Do(old(Q()), Op.Remove(fns), options.unique)
    {
      if list.Some? {
        for i := 0 to |fns|
          invariant Valid() && list.Some?
          invariant RemoveAll(Q(), fns[i..]) == RemoveAll(old(Q()), fns)
        {
          assert fns[i..][0] == fns[i] && fns[i..][1..] == fns[i + 1..];
          RemoveFunction(fns[i]);
        }
      }
    }

    // Have the list do nothing anymore.
    method Disable()
      requires Valid()
      modifies this`list, this`stack, this`memory
      ensures Valid() && list.None? && Q() == DisableQ(old(Q()))
      ensures Q() == Do(old(Q()), Op.Disable, options.unique)
    {
      list, stack, memory := None, None, None;
    }

    // Lock the list in its current state.
    method Lock()
      requires Valid()
      modifies this`list, this`stack, this`memory
      ensures Valid() && Q() == Do(old(Q()), Op.Lock, options.unique)
    {
      stack := None;
      if memory.None? {
        Disable();
      }
    }

    // Call all the callbacks, or remember the request if they are being called.
    method FireWith(data: Data)
      requires Valid()
      modifies this
      ensures Valid() && firing == old(firing)
      ensures firing ==> Q() == Do(old(Q()), Op.Fire(data), options.unique) && script == old(script)
      ensures !firing ==> (Q(), script) == FireWithIdle(old(Q()), old(fired), data, old(script), options)
      ensures fired == (old(fired) || old(Q()).live)
      decreases if firing then 0 else 1, if firing then 0 else |script|, if stack.None? then 0 else |stack.value|, 2
    {
      if list.Some? && (!fired || stack.Some?) {
        if firing {
          stack := Some(stack.value + [data]);
          trace := trace + [Requested(data)];
        } else {
          assert View(0) == Q().(ran := [], waiting := Q().ran);
          FireList(data);
        }
      }
    }

    // One callback has its turn and does what the script says.
    method Call(data: Data) returns (returnedFalse: bool)
      requires Valid() && firing && list.Some? && -1 <= firingIndex
      requires Q().ran != []
      modifies this
      ensures Valid() && firing
      ensures var b := if old(script) == [] then IDLE else old(script)[0];
              && returnedFalse == b.returnsFalse
              && script == (if old(script) == [] then [] else old(script)[1..])
              && Q() == DoAll(old(Q()).(trace := old(trace) + [Ran(old(Q()).ran[|old(Q()).ran| - 1], data)]), b.ops,
                              options.unique)
      decreases 0, 2, 0, 0
    {
      hide Do;
      var b := if script == [] then IDLE else script[0];
      script := if script == [] then [] else script[1..];
      trace := trace + [Ran(list.value[firingIndex], data)];
      ghost var q := Q();
      for i := 0 to |b.ops|
        invariant Valid() && firing && script == if old(script) == [] then [] else old(script)[1..]
        invariant DoAll(Q(), b.ops[i..], options.unique) == DoAll(q, b.ops, options.unique)
      {
        assert b.ops[i..][0] == b.ops[i] && b.ops[i..][1..] == b.ops[i + 1..];
        DoOp(b.ops[i]);
      }
      returnedFalse := b.returnsFalse;
    }

    method DoOp(op: Op)
      requires Valid() && firing
      modifies this
      ensures Valid() && firing && script == old(script)
      ensures Q() == Do(old(Q()), op, options.unique)
      decreases 0, 1, 0, 0
    {
      hide Do, Q, AddIdle, FireWithIdle, DisableQ;
      match op {
        case Add(fns) =>
          FunctionArgs(fns);
          Add(FunctionList(fns));
        case Remove(fns) => Remove(fns);
        case Lock => Lock();
        case Disable => Disable();
        case Fire(d) => FireWith(d);
      }
    }

    // The callback at the index has its turn.
    method CallNext(data: Data) returns (returnedFalse: bool)
      requires Valid() && firing && list.Some? && 0 <= firingIndex
      modifies this
      ensures Valid() && firing
      ensures var b := if old(script) == [] then IDLE else old(script)[0];
              && returnedFalse == b.returnsFalse
              && script == (if old(script) == [] then [] else old(script)[1..])
              && Q() == Turn(old(View(firingIndex as nat)), data, b, options.unique)
      ensures old(script) == [] ==> |Q().waiting| < |old(View(firingIndex as nat)).waiting|
      decreases 0, 2, 1, 0
    {
      hide Turn, DoAll, Callbacks.Ordered;
      ghost var q := View(firingIndex as nat);
      ghost var b := if script == [] then IDLE else script[0];
      ghost var script0 := script;
      assert Q() == q.(ran := q.ran + [q.waiting[0]], waiting := q.waiting[1..]);
      returnedFalse := Call(data);
      TurnIs(q, data, b, options.unique);
      IdleTurn(q, data, script0, options.unique);
    }

    // Call the callbacks one after the other, as far as the list has them by then.
    method RunList(data: Data) returns (stopped: bool)
      requires firing && fired && firingStart == 0 && (options.once ==> stack.None?)
      requires list.Some? && 0 <= firingIndex <= firingLength == |list.value| && Ordered()
      modifies this
      ensures firing && fired && firingStart == 0 && (options.once ==> stack.None?)
              && (list.None? ==> stack.None? && memory.None?)
      ensures list.Some? ==> if stopped then -1 <= firingIndex < |list.value| else 0 <= firingIndex <= |list.value|
      ensures Ordered() && |script| <= |old(script)|
      ensures Batch(old(View(firingIndex as nat)), data, old(script), options) ==
                (if list.None? then Queue([], [], false, None, None, nextId, trace)
                 else View(if stopped then (firingIndex + 1) as nat else firingIndex as nat), script)
      decreases 0, 3, 0, 0
    {
      hide Batch, Turn, Callbacks.Ordered, DoAll, Without, Removals, Has;
      stopped := false;
      ghost var start := View(firingIndex as nat);
      while list.Some? && firingIndex < firingLength
        invariant firing && fired && firingStart == 0 && (options.once ==> stack.None?)
        invariant list.None? ==> stack.None? && memory.None?
        invariant list.Some? ==> 0 <= firingIndex <= firingLength == |list.value|
        invariant Ordered() && |script| <= |old(script)|
        invariant Batch(start, data, old(script), options) ==
                    if list.None? then (Queue([], [], false, None, None, nextId, trace), script)
                    else Batch(View(firingIndex as nat), data, script, options)
        decreases |script|, if list.Some? then firingLength - firingIndex else 0
      {
        BatchTurn(View(firingIndex as nat), data, script, options);
        var returnedFalse := CallNext(data);
        if returnedFalse && options.stopOnFalse {
          memory := None;
          stopped := true;
          break;
        }
        if list.None? {
          BatchTurn(Q(), data, script, options);
        }
        firingIndex := firingIndex + 1;
      }
      if list.Some? && !stopped {
        BatchTurn(View(firingIndex as nat), data, script, options);
      }
    }

    // The loop over the list, and the firings requested meanwhile. It never runs inside itself.
    method FireList(data: Data)
      requires list.Some? && !firing && firingStart <= |list.value|
      requires (options.once ==> stack.None?) && Ordered()
      modifies this
      ensures Valid() && !firing && fired
      ensures (Q(), script) == FireAll(old(View(firingStart)), data, old(script), options)
      decreases 1, |script|, if stack.None? then 0 else |stack.value|, 1
    {
      hide Batch, Ascending, AllBelow;
      ghost var q0 := View(firingStart);
      ghost var script0 := script;
      memory := if options.memory then Some(data) else None;
      fired := true;
      firingIndex := firingStart;
      firingStart := 0;
      firingLength := |list.value|;
      firing := true;
      trace := trace + [Began(data)];
      ghost var start := Remembering(q0, data, options);
      assert View(firingIndex as nat) == start;
      var stopped := RunList(data);
      ghost var done := if list.None? then Queue([], [], false, None, None, nextId, trace)
                        else View(if stopped then (firingIndex + 1) as nat else firingIndex as nat);
      BatchShrinks(start, data, script0, options);
      FinishFiring(done);
    }

    // After the loop: the next request, or what becomes of a list that is done.
    method FinishFiring(ghost done: Queue)
      requires fired && firingStart == 0 && (options.once ==> stack.None?)
               && (list.None? ==> stack.None? && memory.None?)
      requires Ordered() && done.live == list.Some? && done.requests == stack && done.memory == memory
      requires done.nextId == nextId && done.trace == trace
      requires done.ran + done.waiting == if list.None? then [] else list.value
      modifies this
      ensures Valid() && !firing && fired
      ensures (Q(), script) == AfterBatch(done, old(script), options)
      decreases 1, |script|, if stack.None? then 0 else |stack.value|, 0
    {
      hide FireAll;
      firing := false;
      assert Q() == Settle(done);
      if list.Some? {
        if stack.Some? {
          if |stack.value| > 0 {
            var next := stack.value[0];
            stack := Some(stack.value[1..]);
            assert View(0) == NextRequest(done);
            FireList(next);
          }
        } else if memory.Some? {
          list := Some([]);
        } else {
          Disable();
        }
      }
    }

    // Take one entry out and put both indices right.
    method SpliceOut(index: nat)
      requires list.Some? && index < |list.value| && Ordered()
      requires firing ==> -1 <= firingIndex < firingLength == |list.value|
      modifies this`list, this`firingLength, this`firingIndex
      ensures list == Some(old(list).value[..index] + old(list).value[index + 1..]) && Ordered()
      ensures firing ==> firingLength == |list.value|
      ensures firing ==> firingIndex == if index <= old(firingIndex) then old(firingIndex) - 1 else old(firingIndex)
    {
      hide Ascending, AllBelow;
      Shorter(list.value, index, nextId);
      list := Some(list.value[..index] + list.value[index + 1..]);
      if firing {
        if index <= firingLength {
          firingLength := firingLength - 1;
        }
        if index <= firingIndex {
          firingIndex := firingIndex - 1;
        }
      }
    }

    method RemoveFunction(fn: Fn)
      requires Valid() && list.Some?
      modifies this`list, this`firingLength, this`firingIndex, this`trace
      ensures Valid() && list.Some? && Q() == RemoveOne(old(Q()), fn)
    {
      hide Without, Removals, Callbacks.Ordered;
      ghost var q0 := Q();
      ghost var cursor := |q0.ran|;
      var index := NextIndex(list.value, fn, 0);
      ghost var clean := 0;
      assert list.value[..cursor] == q0.ran && list.value[cursor..] == q0.waiting;
      while index > -1
        invariant list.Some? && cursor <= |list.value| && Ordered()
        invariant if firing then cursor == firingIndex + 1 else cursor == |list.value|
        invariant firing ==> -1 <= firingIndex < firingLength == |list.value|
        invariant clean <= |list.value| && index == NextIndex(list.value, fn, clean)
        invariant forall i :: 0 <= i < clean ==> list.value[i].fn != fn
        invariant Without(list.value[..cursor], fn) == Without(q0.ran, fn)
        invariant Without(list.value[cursor..], fn) == Without(q0.waiting, fn)
        invariant trace + Removals(list.value[cursor..], fn) == q0.trace + Removals(q0.waiting, fn)
        decreases |list.value|
      {
        SpliceAt(list.value, cursor, index, fn);
        ghost var less := list.value[..index] + list.value[index + 1..];
        if index >= cursor {
          ghost var others := Removals(less[cursor..], fn);
          assert trace + ([Removed(list.value[index])] + others) == trace + [Removed(list.value[index])] + others;
          trace := trace + [Removed(list.value[index])];
        } else {
          cursor := cursor - 1;
        }
        SpliceOut(index);
        clean := index;
        index := NextIndex(list.value, fn, index);
      }
      WithoutNone(list.value[..cursor], fn);
      WithoutNone(list.value[cursor..], fn);
    }
  }

  // Splicing out the first entry with that function leaves it on its side of the cursor.
  lemma SpliceAt(entries: seq<Entry>, cursor: nat, i: nat, fn: Fn)
    requires i < |entries| && cursor <= |entries|
    requires entries[i].fn == fn && forall j :: 0 <= j < i ==> entries[j].fn != fn
    ensures var less, cut := entries[..i] + entries[i + 1..], if i < cursor then cursor - 1 else cursor;
            && Without(less[..cut], fn) == Without(entries[..cursor], fn)
            && Without(less[cut..], fn) == Without(entries[cursor..], fn)
            && (if i < cursor then Removals(less[cut..], fn) else [Removed(entries[i])] + Removals(less[cut..], fn)) ==
                 Removals(entries[cursor..], fn)
  {
    hide Without, Removals;
    var less := entries[..i] + entries[i + 1..];
    if i < cursor {
      Spliced(entries[..cursor], i, fn);
      assert less[..cursor - 1] == entries[..cursor][..i] + entries[..cursor][i + 1..];
      assert less[cursor - 1..] == entries[cursor..];
    } else {
      Spliced(entries[cursor..], i - cursor, fn);
      assert less[..cursor] == entries[..cursor];
      assert less[cursor..] == entries[cursor..][..i - cursor] + entries[cursor..][i - cursor + 1..];
    }
  }

  lemma {:induction false} FunctionArgs(fns: seq<Fn>)
    ensures Functions(FunctionList(fns)) == fns
  {
    if fns != [] {
      FunctionArgs(fns[1..]);
      assert FunctionList(fns)[1..] == FunctionList(fns[1..]);
    }
  }

  // jQuery.inArray( fn, list, from )
  function NextIndex(entries: seq<Entry>, fn: Fn, from: nat): (r: int)
    requires from <= |entries|
    ensures r == -1 ==> forall i :: from <= i < |entries| ==> entries[i].fn != fn
    ensures r != -1 ==>
              from <= r < |entries| && entries[r].fn == fn && forall i :: from <= i < r ==> entries[i].fn != fn
    decreases |entries| - from
  {
    if from == |entries| then -1
    else if entries[from].fn == fn then from
    else NextIndex(entries, fn, from + 1)
  }

  lemma {:induction false} AddAllConcat(q: Queue, a: seq<Fn>, b: seq<Fn>, unique: bool)
    ensures AddAll(q, a + b, unique) == AddAll(AddAll(q, a, unique), b, unique)
    decreases |a|
  {
    if a == [] {
      assert a + b == b;
    } else {
      assert (a + b)[1..] == a[1..] + b;
      AddAllConcat(AddOne(q, a[0], unique), a[1..], b, unique);
    }
  }

  // Taking out the first entry with that function.
  lemma Spliced(entries: seq<Entry>, i: nat, fn: Fn)
    requires i < |entries| && entries[i].fn == fn && forall j :: 0 <= j < i ==> entries[j].fn != fn
    ensures var less := entries[..i] + entries[i + 1..];
            Without(less, fn) == Without(entries, fn)
            && [Removed(entries[i])] + Removals(less, fn) == Removals(entries, fn)
  {
    hide *;
    var a, b, e := entries[..i], entries[i + 1..], entries[i];
    assert entries == a + [e] + b;
    WithoutConcat(a + [e], b, fn);
    WithoutConcat(a, b, fn);
    WithoutLast(a, e, fn);
    AbsentNone(a, fn);
  }

  lemma AbsentNone(entries: seq<Entry>, fn: Fn)
    requires forall j :: 0 <= j < |entries| ==> entries[j].fn != fn
    ensures Removals(entries, fn) == [] && Without(entries, fn) == entries
  {
    WithoutNone(entries, fn);
  }
}
