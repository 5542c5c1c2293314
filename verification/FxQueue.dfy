// jQuery's function queues: the fx queue starts its functions by itself, and a sentinel in
// front keeps it from starting a second one.
module FxQueue {
  import opened Wrappers

  type Fn = nat

  datatype Item = InProgress | Function(f: Fn)

  // The stored array and hooks of one element and type, the functions started so far, and how
  // often the empty hook has fired.
  datatype State = State(queue: Option<seq<Item>>, hooks: bool, started: seq<Fn>, emptied: nat)

  const START: State := State(None, false, [], 0)

  // The items left when a function is to be taken: a sentinel in front is dropped.
  function Unmarked(items: seq<Item>): seq<Item> {
    if items != [] && items[0].InProgress? then items[1..] else items
  }

  // jQuery.dequeue; the empty hook throws the array and the hooks away.
  function DequeueOf(s: State, fx: bool): State {
    var items := Unmarked(if s.queue.Some? then s.queue.value else []);
    if items == [] then State(None, false, s.started, s.emptied + 1)
    else if items[0].InProgress? then
      s.(queue := Some(if fx then [InProgress] + items[1..] else items[1..]), hooks := true)
    else State(Some(if fx then [InProgress] + items[1..] else items[1..]), true, s.started + [items[0].f], s.emptied)
  }

  // .queue( type, f )
  function QueueOf(s: State, fx: bool, f: Fn): State {
    var items := (if s.queue.Some? then s.queue.value else []) + [Function(f)];
    var pushed := s.(queue := Some(items), hooks := true);
    if fx && !items[0].InProgress? then DequeueOf(pushed, fx) else pushed
  }

  class Queue {
    const fx: bool
    var queue: Option<seq<Item>>
    var hooks: bool
    var started: seq<Fn>
    var emptied: nat

    function Now(): State
      reads this
    {
      State(queue, hooks, started, emptied)
    }

    constructor (fx: bool)
      ensures Now() == START && this.fx == fx
    {
      this.fx := fx;
      queue, hooks, started, emptied := None, false, [], 0;
    }

    // jQuery.dequeue; what the started function does comes later, as calls of its own.
    method Dequeue()
      requires queue.Some? && |queue.value| > 1 && queue.value[0].InProgress? ==> queue.value[1].Function?
      modifies this
      ensures Now() == DequeueOf(old(Now()), fx)
    {
      var items := if queue.Some? then queue.value else [];
      var startLength := |items|;
      var fn: Option<Item> := None;
      if items != [] {
        fn, items := Some(items[0]), items[1..];
      }
      hooks := true;
      if fn == Some(InProgress) {
        fn := None;
        if items != [] {
          fn, items := Some(items[0]), items[1..];
        }
        startLength := startLength - 1;
      }
      if queue.Some? {
        queue := Some(items);
      }
      if fn.Some? {
        if fx {
          queue := Some([InProgress] + items);
        }
        started := started + [fn.value.f];
      }
      if startLength == 0 {
        emptied := emptied + 1;
        queue, hooks := None, false;
      }
    }

    // .queue( type, f )
    method Add(f: Fn)
      modifies this
      ensures Now() == QueueOf(old(Now()), fx, f)
    {
      queue := Some((if queue.Some? then queue.value else []) + [Function(f)]);
      hooks := true;
      if fx && !queue.value[0].InProgress? {
        Dequeue();
      }
    }
  }

  // What happens to an fx queue: a function is added, or the k-th function that was started
  // says it is finished.
  datatype Event = Added(f: Fn) | Next(k: nat)

  function Step(s: State, e: Event): State {
    match e
    case Added(f) => QueueOf(s, true, f)
    case Next(_) => DequeueOf(s, true)
  }

  function Run(events: seq<Event>): State {
    if events == [] then START else Step(Run(events[..|events| - 1]), events[|events| - 1])
  }

  // The functions added, in order, and the functions that have said they are finished.
  function AddedOf(events: seq<Event>): seq<Fn> {
    if events == [] then []
    else AddedOf(events[..|events| - 1]) +
         if events[|events| - 1].Added? then [events[|events| - 1].f] else []
  }

  function DoneOf(events: seq<Event>): set<nat> {
    if events == [] then {}
    else DoneOf(events[..|events| - 1]) +
         if events[|events| - 1].Next? then {events[|events| - 1].k} else {}
  }

  // Only functions that were started call next, each at most once.
  ghost predicate Fair(events: seq<Event>) {
    events != [] ==>
      var before, e := events[..|events| - 1], events[|events| - 1];
      Fair(before) && (e.Next? ==> e.k < |Run(before).started| && e.k !in DoneOf(before))
  }

  function Functions(fs: seq<Fn>): seq<Item> {
    if fs == [] then [] else [Function(fs[0])] + Functions(fs[1..])
  }

  // The n-th function is running and the others wait behind the sentinel.
  function Busy(all: seq<Fn>, n: nat, emptied: nat): State
    requires n <= |all|
  {
    State(Some([InProgress] + Functions(all[n..])), true, all[..n], emptied)
  }

  // Nothing is left.
  function Resting(all: seq<Fn>, emptied: nat): State {
    State(None, false, all, emptied)
  }

  ghost predicate Tidy(s: State, all: seq<Fn>, done: set<nat>) {
    var n := |s.started|;
    && n <= |all|
    && (forall k :: k in done ==> k < n)
    && (forall k :: 0 <= k < n - 1 ==> k in done)
    && s == if n > 0 && n - 1 !in done then Busy(all, n, s.emptied) else Resting(all, s.emptied)
  }

  lemma {:induction false} FunctionsAppend(fs: seq<Fn>, f: Fn)
    ensures Functions(fs + [f]) == Functions(fs) + [Function(f)]
  {
    if fs == [] {
      assert fs + [f] == [f] && [f][1..] == [];
    } else {
      assert (fs + [f])[1..] == fs[1..] + [f];
      FunctionsAppend(fs[1..], f);
    }
  }

  lemma AddBusy(all: seq<Fn>, n: nat, m: nat, f: Fn)
    requires n <= |all|
    ensures QueueOf(Busy(all, n, m), true, f) == Busy(all + [f], n, m)
  {
    FunctionsAppend(all[n..], f);
    assert (all + [f])[n..] == all[n..] + [f] && (all + [f])[..n] == all[..n];
    assert [InProgress] + Functions(all[n..]) + [Function(f)] == [InProgress] + (Functions(all[n..]) + [Function(f)]);
  }

  lemma AddResting(all: seq<Fn>, m: nat, f: Fn)
    ensures QueueOf(Resting(all, m), true, f) == Busy(all + [f], |all| + 1, m)
  {
    assert [] + [Function(f)] == [Function(f)] && [InProgress] + [] == [InProgress];
    assert [Function(f)][1..] == [] && (all + [f])[|all| + 1..] == [] && (all + [f])[..|all| + 1] == all + [f];
  }

  lemma NextBusy(all: seq<Fn>, n: nat, m: nat)
    requires n <= |all|
    ensures DequeueOf(Busy(all, n, m), true) == if n < |all| then Busy(all, n + 1, m) else Resting(all, m + 1)
  {
    var waiting := Functions(all[n..]);
    assert ([InProgress] + waiting)[1..] == waiting;
    if n < |all| {
      assert all[n..][1..] == all[n + 1..] && all[..n + 1] == all[..n] + [all[n]];
      assert waiting[0] == Function(all[n]) && waiting[1..] == Functions(all[n + 1..]);
    } else {
      assert all[..n] == all;
    }
  }

  lemma RunStep(events: seq<Event>, e: Event)
    ensures Run(events + [e]) == Step(Run(events), e)
    ensures AddedOf(events + [e]) == AddedOf(events) + if e.Added? then [e.f] else []
    ensures DoneOf(events + [e]) == DoneOf(events) + if e.Next? then {e.k} else {}
    ensures Fair(events + [e]) <==>
              Fair(events) && (e.Next? ==> e.k < |Run(events).started| && e.k !in DoneOf(events))
  {
    assert (events + [e])[..|events|] == events;
  }

  lemma TidyAdded(s: State, all: seq<Fn>, done: set<nat>, f: Fn)
    requires Tidy(s, all, done)
    ensures Tidy(QueueOf(s, true, f), all + [f], done)
  {
    AddBusy(all, |s.started|, s.emptied, f);
    AddResting(all, s.emptied, f);
    hide QueueOf, Functions;
  }

  lemma TidyNext(s: State, all: seq<Fn>, done: set<nat>, k: nat)
    requires Tidy(s, all, done) && k < |s.started| && k !in done
    ensures Tidy(DequeueOf(s, true), all, done + {k})
    ensures k == |s.started| - 1
  {
    NextBusy(all, |s.started|, s.emptied);
    hide DequeueOf, Functions;
  }

  // In every fair run, functions start in the order they were added, at most one is unfinished,
  // and the sentinel stands in front exactly while one is.
  lemma {:induction false} RunTidy(events: seq<Event>)
    requires Fair(events)
    ensures Tidy(Run(events), AddedOf(events), DoneOf(events))
  {
    if events != [] {
      var before, e := events[..|events| - 1], events[|events| - 1];
      RunTidy(before);
      assert events == before + [e];
      RunStep(before, e);
      var s, all, done := Run(before), AddedOf(before), DoneOf(before);
      hide Run, AddedOf, DoneOf, QueueOf, DequeueOf, Tidy;
      match e
      case Added(f) =>
        TidyAdded(s, all, done, f);
        assert done + {} == done;
      case Next(k) =>
        TidyNext(s, all, done, k);
        assert all + [] == all;
    }
  }

  lemma {:induction false} FunctionsOnly(fs: seq<Fn>)
    ensures |Functions(fs)| == |fs| && InProgress !in Functions(fs)
  {
    if fs != [] {
      FunctionsOnly(fs[1..]);
    }
  }

  lemma SentinelInFront(events: seq<Event>, i: nat)
    requires Fair(events) && Run(events).queue.Some? && i < |Run(events).queue.value|
    ensures Run(events).queue.value[i].InProgress? <==> i == 0
  {
    RunTidy(events);
    var waiting := AddedOf(events)[|Run(events).started|..];
    hide Run, AddedOf, DoneOf;
    FunctionsOnly(waiting);
    if i > 0 {
      assert Run(events).queue.value[i] == Functions(waiting)[i - 1];
      assert Functions(waiting)[i - 1] in Functions(waiting);
    }
  }

  // The empty hook fires exactly when the last function that was added finishes, and then
  // nothing is left.
  lemma EmptiedExactly(events: seq<Event>, e: Event)
    requires Fair(events + [e])
    ensures var before, after := Run(events), Run(events + [e]);
            && after.emptied == before.emptied + (if e.Next? && before.started == AddedOf(events) then 1 else 0)
            && (after.emptied != before.emptied ==>
                  after.queue == None && after.started == AddedOf(events + [e])
                  && forall k :: 0 <= k < |after.started| ==> k in DoneOf(events + [e]))
  {
    RunStep(events, e);
    RunTidy(events);
    var s, all, done := Run(events), AddedOf(events), DoneOf(events);
    match e {
      case Added(f) =>
        AddBusy(all, |s.started|, s.emptied, f);
        AddResting(all, s.emptied, f);
      case Next(k) =>
        TidyNext(s, all, done, k);
        NextBusy(all, |s.started|, s.emptied);
        assert s.started == all[..|s.started|];
    }
    hide Run, AddedOf, DoneOf, QueueOf, DequeueOf, Functions;
  }

  lemma BeforeTwice()
    ensures START == Resting([], 0) && [] + [0] == [0] && [0] + [1] == [0, 1] && [0, 1] + [2] == [0, 1, 2]
    ensures Run([]) == START && DoneOf([]) == {}
    ensures Busy([0, 1, 2], 3, 0).started == [0, 1, 2]
  {
  }

  // A function that says twice that it is finished lets two others run at the same time.
  lemma NextTwice()
    ensures var events := [Added(0), Added(1), Added(2), Next(0), Next(0)];
            && !Fair(events) && Run(events).started == [0, 1, 2]
            && DoneOf(events) == {0}
  {
    var one := [] + [Added(0)];
    var two := one + [Added(1)];
    var three := two + [Added(2)];
    var four := three + [Next(0)];
    RunStep([], Added(0));
    RunStep(one, Added(1));
    RunStep(two, Added(2));
    RunStep(three, Next(0));
    RunStep(four, Next(0));
    AddResting([], 0, 0);
    AddBusy([0], 1, 0, 1);
    AddBusy([0, 1], 1, 0, 2);
    NextBusy([0, 1, 2], 1, 0);
    NextBusy([0, 1, 2], 2, 0);
    BeforeTwice();
    hide Run, QueueOf, DequeueOf, Functions, AddedOf, Busy, Resting;
    assert four + [Next(0)] == [Added(0), Added(1), Added(2), Next(0), Next(0)];
  }

  // --- A queue of another type: nothing starts but by a call of dequeue.

  function RunManual(events: seq<Event>): State {
    if events == [] then START
    else
      var before := RunManual(events[..|events| - 1]);
      match events[|events| - 1]
      case Added(f) => QueueOf(before, false, f)
      case Next(_) => DequeueOf(before, false)
  }

  // Those added have started or wait, in order, and there is no sentinel.
  ghost predicate Waiting(s: State, waiting: seq<Fn>) {
    if s.queue.None? then waiting == [] else s.queue.value == Functions(waiting)
  }

  lemma ManualStep(s: State, waiting: seq<Fn>, f: Fn)
    requires Waiting(s, waiting)
    ensures var added := QueueOf(s, false, f);
            Waiting(added, waiting + [f]) && added.started == s.started && added.emptied == s.emptied
    ensures var next := DequeueOf(s, false);
            if waiting == [] then next == State(None, false, s.started, s.emptied + 1)
            else
              && Waiting(next, waiting[1..]) && next.started == s.started + [waiting[0]]
              && next.emptied == s.emptied && next.queue.Some?
  {
    FunctionsAppend(waiting, f);
    FunctionsOnly(waiting);
    assert [] + [Function(f)] == [Function(f)] && Functions([]) == []
      && Functions([f]) == [Function(f)] + Functions([f][1..]);
  }

  // In every run those started and those that wait are all that were added, in order.
  lemma {:induction false} ManualOrder(events: seq<Event>) returns (waiting: seq<Fn>)
    ensures Waiting(RunManual(events), waiting) && RunManual(events).started + waiting == AddedOf(events)
  {
    hide QueueOf, DequeueOf, Waiting;
    if events == [] {
      waiting := [];
      NoneWaiting();
    } else {
      var before, last := events[..|events| - 1], events[|events| - 1];
      waiting := ManualOrder(before);
      ManualStep(RunManual(before), waiting, if last.Added? then last.f else 0);
      var s := RunManual(before);
      match last {
        case Added(f) =>
          assert s.started + (waiting + [f]) == s.started + waiting + [f];
          waiting := waiting + [f];
        case Next(_) =>
          if waiting != [] {
            assert s.started + waiting == s.started + [waiting[0]] + waiting[1..];
            waiting := waiting[1..];
          } else {
            NoneWaiting();
          }
      }
    }
  }

  lemma NoneWaiting()
    ensures forall s: State :: s.queue.None? ==> Waiting(s, [])
  {
  }

  // Each call of dequeue starts the one function that has waited longest, if any waits, and fires
  // the empty hook otherwise; adding starts nothing.
  lemma ManualNext(events: seq<Event>, e: Event)
    ensures var before, after, all := RunManual(events), RunManual(events + [e]), AddedOf(events);
            && before.started <= all
            && (if e.Next? && |before.started| < |all| then
                  after.started == before.started + [all[|before.started|]] && after.emptied == before.emptied
                else after.started == before.started)
            && (e.Added? ==> after.emptied == before.emptied)
            && (e.Next? && before.started == all ==> after.emptied == before.emptied + 1)
  {
    hide QueueOf, DequeueOf, Waiting;
    assert (events + [e])[..|events|] == events;
    var waiting := ManualOrder(events);
    ManualStep(RunManual(events), waiting, if e.Added? then e.f else 0);
  }
}
