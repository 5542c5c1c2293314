// The three lists of a Deferred are lists of module CallbackQueue: whatever happens to a lane
// is one of that module's steps.
module DeferredLanes {
  import opened Wrappers
  import opened Deferred
  import C = CallbackQueue

  function SideNumber(side: Side): nat {
    match side case Done => 0 case Fail => 1 case Progress => 2
  }

  // The callbacks as functions of CallbackQueue.
  function FnOf(cb: Cb): C.Fn {
    match cb
    case SetState(side) => SideNumber(side)
    case DisableSide(side) => 3 + SideNumber(side)
    case LockProgress => 6
    case User(id) => 7 + id
  }

  // "once memory", "once memory", "memory"
  function OptionsOf(side: Side): C.Options {
    C.Options(side != Progress, true, false, false)
  }

  ghost predicate SameFns(entries: seq<C.Entry>, cbs: seq<Cb>) {
    |entries| == |cbs| && forall i :: 0 <= i < |cbs| ==> entries[i].fn == FnOf(cbs[i])
  }

  // The queue has what the lane has.
  ghost predicate Shows(q: C.Queue, l: Lane) {
    && SameFns(q.ran, l.ran) && SameFns(q.waiting, l.waiting)
    && q.live == l.live && q.requests == l.requests && q.memory == l.memory
    && (l.firing.None? ==> l.waiting == [])
  }

  // What follows a batch, up to the beginning of the next one.
  function Ended(q: C.Queue, o: C.Options): C.Queue {
    if !q.live then C.Settle(q)
    else if q.requests.Some? then
      if q.requests.value == [] then C.Settle(q)
      else C.Remembering(C.NextRequest(q), q.requests.value[0], o)
    else if q.memory.Some? then q.(ran := [], waiting := [])
    else C.DisableQ(q)
  }

  // That is how the batches of a firing follow one another.
  lemma EndedIs(q: C.Queue, script: seq<C.Behaviour>, o: C.Options)
    ensures C.AfterBatch(q, script, o) ==
              if q.live && q.requests.Some? && q.requests.value != [] then
                var (done, rest) := C.Batch(Ended(q, o), q.requests.value[0], script, o);
                C.BatchShrinks(Ended(q, o), q.requests.value[0], script, o);
                C.AfterBatch(done, rest, o)
              else (Ended(q, o), script)
  {
    hide C.Batch;
  }

  // The step of a lane, in the terms of CallbackQueue: an operation while the list is fired, the
  // beginning of a firing, a turn, or the end of a batch.
  function Follow(s: State, a: Action, x: Side, q: C.Queue): C.Queue {
    var o := OptionsOf(x);
    if s.inLoop then
      if a == Tick && s.frames != [] then FollowTick(s, x, q) else q
    else
      match a
      case Add(side, id) =>
        if side != x then q
        else if Get(s, x).firing.Some? then C.Do(q, C.Add([FnOf(User(id))]), false)
        else if !q.live then q
        else
          var more := C.AddAll(q, [FnOf(User(id))], false);
          if more.memory.Some? then C.Remembering(more, more.memory.value, o) else C.Settle(more)
      case Fire(side, data) =>
        if side != x then q
        else if Get(s, x).firing.Some? then C.Do(q, C.Fire(data), false)
        else if q.live && (!Get(s, x).fired || q.requests.Some?) then
          C.Remembering(q.(ran := [], waiting := q.ran), data, o)
        else q
      case _ => q
  }

  function FollowTick(s: State, x: Side, q: C.Queue): C.Queue
    requires s.frames != []
  {
    var side := s.frames[|s.frames| - 1];
    var l := Get(s, side);
    if l.firing.Some? && l.live && l.waiting != [] then
      var turn := if x == side && q.waiting != [] then C.Turn(q, l.firing.value, C.IDLE, false) else q;
      match l.waiting[0]
      case DisableSide(y) => if y == x then C.Do(turn, C.Disable, false) else turn
      case LockProgress => if x == Progress then C.Do(turn, C.Lock, false) else turn
      case _ => turn
    else if x == side then Ended(q, OptionsOf(x))
    else q
  }

  lemma AddShown(s: State, side: Side, id: nat, q: C.Queue)
    requires !s.inLoop && Shows(q, Get(s, side))
    ensures Shows(Follow(s, Add(side, id), side, q), Get(AddStep(s, side, id), side))
  {
    hide SameFns, C.AddAll;
    var l, e := Get(s, side), C.Entry(q.nextId, FnOf(User(id)));
    OneAdded(q, FnOf(User(id)));
    assert SameFns([e], [User(id)]) by { OneShown(e, User(id)); }
    Joined(q.ran, l.ran, [e], [User(id)]);
    Joined(q.waiting, l.waiting, [e], [User(id)]);
    assert [] + [e] == [e] && [] + [User(id)] == [User(id)];
    NothingShown();
  }

  lemma OneAdded(q: C.Queue, fn: C.Fn)
    ensures C.AddAll(q, [fn], false) ==
              var e := C.Entry(q.nextId, fn);
              q.(waiting := q.waiting + [e], nextId := q.nextId + 1, trace := q.trace + [C.Added(e)])
  {
    assert C.AddAll(q, [fn], false) == C.AddOne(q, fn, false);
  }

  lemma OneShown(e: C.Entry, cb: Cb)
    requires e.fn == FnOf(cb)
    ensures SameFns([e], [cb])
  {
  }

  lemma FireShown(s: State, side: Side, data: Data, q: C.Queue)
    requires !s.inLoop && Shows(q, Get(s, side))
    ensures Shows(Follow(s, Fire(side, data), side, q), Get(FireStep(s, side, data), side))
  {
  }

  lemma TurnShown(q: C.Queue, l: Lane, data: Data)
    requires Shows(q, l) && l.waiting != [] && l.firing.Some?
    ensures Shows(C.Turn(q, data, C.IDLE, false), l.(ran := l.ran + [l.waiting[0]], waiting := l.waiting[1..]))
  {
  }

  // A lane that a built-in callback switches off or locks.
  lemma CallShown(s: State, side: Side, cb: Cb, data: Data, x: Side, q: C.Queue)
    requires Shows(q, Get(s, x))
    ensures Shows(match cb
                  case DisableSide(y) => if y == x then C.Do(q, C.Disable, false) else q
                  case LockProgress => if x == Progress then C.Do(q, C.Lock, false) else q
                  case _ => q,
                  Get(Call(s, side, cb, data), x))
  {
    hide SameFns;
    assert SameFns([], []) by { NothingShown(); }
  }

  lemma NothingShown()
    ensures SameFns([], [])
  {
  }

  lemma EndShown(s: State, x: Side, q: C.Queue)
    requires s.frames != [] && Shows(q, Get(s, x))
    requires var l := Get(s, s.frames[|s.frames| - 1]);
             !(l.firing.Some? && l.live && l.waiting != [])
    ensures Shows(FollowTick(s, x, q), Get(TickStep(s), x))
  {
    hide Shows, Ended;
    EndedShown(q, Get(s, x), OptionsOf(x));
  }

  // What becomes of one lane when a batch of it has ended.
  lemma EndedShown(q: C.Queue, l: Lane, o: C.Options)
    requires Shows(q, l) && o.memory
    ensures var idle := l.(firing := None, ran := l.ran + l.waiting, waiting := []);
            var e := Ended(q, o);
            if !l.live || l.requests == Some([]) then Shows(e, idle)
            else if l.requests.Some? then
              var d := l.requests.value[0];
              Shows(e, idle.(ran := [], waiting := idle.ran, requests := Some(l.requests.value[1..]),
                             memory := Some(d), fired := true, firing := Some(d)))
            else if l.memory.Some? then Shows(e, idle.(ran := []))
            else Shows(e, Disabled(idle))
  {
    hide SameFns;
    NothingShown();
    Joined(q.ran, l.ran, q.waiting, l.waiting);
  }

  lemma Joined(a: seq<C.Entry>, x: seq<Cb>, b: seq<C.Entry>, y: seq<Cb>)
    requires SameFns(a, x) && SameFns(b, y)
    ensures SameFns(a + b, x + y)
  {
  }

  lemma TickShown(s: State, x: Side, q: C.Queue)
    requires s.inLoop && s.frames != [] && Shows(q, Get(s, x))
    ensures Shows(FollowTick(s, x, q), Get(TickStep(s), x))
  {
    hide Shows, Call, C.Turn, C.Do;
    var side := s.frames[|s.frames| - 1];
    var l := Get(s, side);
    if l.firing.Some? && l.live && l.waiting != [] {
      WaitsToo(q, Get(s, x));
      if x == side {
        TurnShown(q, l, l.firing.value);
      }
      var turn := if x == side && q.waiting != [] then C.Turn(q, l.firing.value, C.IDLE, false) else q;
      var s1 := Put(s, side, l.(ran := l.ran + [l.waiting[0]], waiting := l.waiting[1..]));
      CallShown(s1, side, l.waiting[0], l.firing.value, x, turn);
    } else {
      EndShown(s, x, q);
    }
  }

  lemma WaitsToo(q: C.Queue, l: Lane)
    requires Shows(q, l)
    ensures q.waiting != [] <==> l.waiting != []
  {
  }

  lemma StepShown(s: State, a: Action, x: Side, q: C.Queue)
    requires Shows(q, Get(s, x))
    ensures Shows(Follow(s, a, x, q), Get(Step(s, a), x))
  {
    hide Shows, AddStep, FireStep, TickStep;
    if s.inLoop {
      if a == Tick && s.frames != [] {
        TickShown(s, x, q);
      }
    } else {
      match a
      case Add(side, id) =>
        OtherLanes(s, side, id, 0);
        if side == x { AddShown(s, x, id, q); }
      case Fire(side, data) =>
        OtherLanes(s, side, 0, data);
        if side == x { FireShown(s, x, data, q); }
      case _ =>
    }
  }

  lemma OtherLanes(s: State, side: Side, id: nat, data: Data)
    ensures forall x :: x != side ==> Get(AddStep(s, side, id), x) == Get(s, x)
    ensures forall x :: x != side ==> Get(FireStep(s, side, data), x) == Get(s, x)
  {
  }

  // The list as the constructor of a Deferred leaves it.
  function InitialQueue(x: Side): C.Queue {
    var q := C.Queue([], [], true, if OptionsOf(x).once then None else Some([]), None, 0, []);
    if x == Progress then q
    else C.Settle(C.AddAll(q, [FnOf(SetState(x)), FnOf(DisableSide(Other(x))), FnOf(LockProgress)], false))
  }

  function QueueAfter(actions: seq<Action>, x: Side): C.Queue {
    if actions == [] then InitialQueue(x)
    else
      var before := actions[..|actions| - 1];
      Follow(Run(before), actions[|actions| - 1], x, QueueAfter(before, x))
  }

  lemma InitialShown(x: Side)
    ensures Shows(InitialQueue(x), Get(INITIAL, x))
  {
    if x != Progress {
      var q := C.Queue([], [], true, None, None, 0, []);
      var a, b, c := FnOf(SetState(x)), FnOf(DisableSide(Other(x))), FnOf(LockProgress);
      ThreeAdded(q, a, b, c);
      var q1 := C.AddAll(q, [a, b, c], false);
      assert q1.waiting == [C.Entry(0, a), C.Entry(1, b), C.Entry(2, c)];
    }
  }

  lemma ThreeAdded(q: C.Queue, a: C.Fn, b: C.Fn, c: C.Fn)
    ensures C.AddAll(q, [a, b, c], false) == C.AddOne(C.AddOne(C.AddOne(q, a, false), b, false), c, false)
  {
    hide C.AddOne;
    assert [a, b, c][1..] == [b, c] && [b, c][1..] == [c] && [c][1..] == [];
    var q1, q2 := C.AddOne(q, a, false), C.AddOne(C.AddOne(q, a, false), b, false);
    assert C.AddAll(q, [a, b, c], false) == C.AddAll(q1, [b, c], false);
    assert C.AddAll(q1, [b, c], false) == C.AddAll(q2, [c], false);
    assert C.AddAll(q2, [c], false) == C.AddOne(q2, c, false);
  }

  // In every run each lane is what CallbackQueue makes of its list.
  lemma {:induction false} RunShown(actions: seq<Action>, x: Side)
    ensures Shows(QueueAfter(actions, x), Get(Run(actions), x))
    decreases |actions|
  {
    hide Shows, Step, Follow;
    if actions == [] {
      InitialShown(x);
    } else {
      var before := actions[..|actions| - 1];
      RunShown(before, x);
      StepShown(Run(before), actions[|actions| - 1], x, QueueAfter(before, x));
    }
  }
}
