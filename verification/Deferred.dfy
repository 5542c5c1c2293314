// jQuery.Deferred: three callback lists that switch one another off. Each list is seen as
// the queue of module CallbackQueue (module DeferredLanes proves that it is one); user code may
// do anything between the steps.
module Deferred {
  import opened Wrappers

  type Data = nat

  datatype Side = Done | Fail | Progress

  // What stands in a list: the three callbacks a Deferred puts there itself, and the users'.
  datatype Cb = SetState(side: Side) | DisableSide(side: Side) | LockProgress | User(id: nat)

  datatype Lane = Lane(
    ran: seq<Cb>, waiting: seq<Cb>, live: bool, requests: Option<seq<Data>>, memory: Option<Data>,
    fired: bool, firing: Option<Data>,
    added: seq<nat>, calls: seq<(nat, Data)>)  // the users' callbacks: all added, and all calls

  // `frames` are the lists being fired, innermost last; `inLoop` says that the innermost
  // loop is in control, and not user code.
  datatype State = State(done: Lane, fail: Lane, progress: Lane, state: Option<Side>, frames: seq<Side>, inLoop: bool)

  datatype Action = Add(side: Side, id: nat) | Fire(side: Side, data: Data) | Return | Tick

  function Get(s: State, side: Side): Lane {
    match side case Done => s.done case Fail => s.fail case Progress => s.progress
  }

  function Put(s: State, side: Side, l: Lane): State {
    match side
    case Done => s.(done := l)
    case Fail => s.(fail := l)
    case Progress => s.(progress := l)
  }

  function Other(side: Side): Side {
    match side case Done => Fail case _ => Done
  }

  function Builtins(side: Side): seq<Cb> {
    [SetState(side), DisableSide(Other(side)), LockProgress]
  }

  function Users(ids: seq<nat>): (r: seq<Cb>)
    ensures |r| == |ids| && forall i :: 0 <= i < |r| ==> r[i] == User(ids[i])
  {
    seq(|ids|, i requires 0 <= i < |ids| => User(ids[i]))
  }

  const INITIAL: State := State(
    Lane(Builtins(Done), [], true, None, None, false, None, [], []),
    Lane(Builtins(Fail), [], true, None, None, false, None, [], []),
    Lane([], [], true, Some([]), None, false, None, [], []),
    None, [], false)

  function Disabled(l: Lane): Lane {
    l.(ran := [], waiting := [], live := false, requests := None, memory := None)
  }

  // fire, up to the loop
  function Begin(s: State, side: Side, l: Lane, data: Data): State {
    Put(s, side, l.(memory := Some(data), fired := true, firing := Some(data)))
      .(frames := s.frames + [side], inLoop := true)
  }

  function AddStep(s: State, side: Side, id: nat): State {
    var l := Get(s, side).(added := Get(s, side).added + [id]);
    if !l.live then Put(s, side, l)
    else if l.firing.Some? then Put(s, side, l.(waiting := l.waiting + [User(id)]))
    else if l.memory.Some? then Begin(s, side, l.(waiting := [User(id)]), l.memory.value)
    else Put(s, side, l.(ran := l.ran + [User(id)]))
  }

  function FireStep(s: State, side: Side, data: Data): State {
    var l := Get(s, side);
    if l.live && (!l.fired || l.requests.Some?) then
      if l.firing.Some? then
        if l.requests.Some? then Put(s, side, l.(requests := Some(l.requests.value + [data]))) else s
      else Begin(s, side, l.(ran := [], waiting := l.ran), data)
    else s
  }

  function Call(s: State, side: Side, cb: Cb, data: Data): State {
    match cb
    case SetState(x) => s.(state := Some(x))
    case DisableSide(x) => Put(s, x, Disabled(Get(s, x)))
    case LockProgress =>
      s.(progress := if s.progress.memory.None? then Disabled(s.progress) else s.progress.(requests := None))
    case User(id) =>
      Put(s, side, Get(s, side).(calls := Get(s, side).calls + [(id, data)])).(inLoop := false)
  }

  // One round of the innermost loop, or what follows it.
  function TickStep(s: State): State
    requires s.frames != []
  {
    var side := s.frames[|s.frames| - 1];
    var outer := s.(frames := s.frames[..|s.frames| - 1], inLoop := false);
    var l := Get(s, side);
    if l.firing.Some? && l.live && l.waiting != [] then
      var cb := l.waiting[0];
      Call(Put(s, side, l.(ran := l.ran + [cb], waiting := l.waiting[1..])), side, cb, l.firing.value)
    else
      var idle := l.(firing := None, ran := l.ran + l.waiting, waiting := []);
      if !l.live then Put(outer, side, idle)
      else if l.requests.Some? then
        if l.requests.value == [] then Put(outer, side, idle)
        else Begin(outer, side, idle.(ran := [], waiting := idle.ran, requests := Some(l.requests.value[1..])),
                   l.requests.value[0])
      else if l.memory.Some? then Put(outer, side, idle.(ran := []))
      else Put(outer, side, Disabled(idle))
  }

  function Step(s: State, a: Action): State {
    if s.inLoop then
      if a == Tick && s.frames != [] then TickStep(s) else s
    else
      match a
      case Add(side, id) => AddStep(s, side, id)
      case Fire(side, data) => FireStep(s, side, data)
      case Return => if s.frames == [] then s else s.(inLoop := true)
      case Tick => s
  }

  function Run(actions: seq<Action>): State {
    if actions == [] then INITIAL else Step(Run(actions[..|actions| - 1]), actions[|actions| - 1])
  }

  // --- What every run keeps.

  ghost predicate FramesOk(s: State) {
    && (forall i, j :: 0 <= i < j < |s.frames| ==> s.frames[i] != s.frames[j])
    && (forall x :: Get(s, x).firing.Some? <==> x in s.frames)
    && (s.inLoop ==> s.frames != [])
  }

  // The side that was fired first, if any was.
  function Winner(s: State): Option<Side> {
    if s.done.fired then Some(Done) else if s.fail.fired then Some(Fail) else None
  }

  // A side that has not been fired.
  ghost predicate Untouched(l: Lane, side: Side) {
    && l.live && !l.fired && l.firing.None? && l.memory.None? && l.requests.None?
    && l.ran == Builtins(side) + Users(l.added) && l.waiting == [] && l.calls == []
  }

  ghost predicate OnlyUsers(cbs: seq<Cb>) {
    forall i :: 0 <= i < |cbs| ==> cbs[i].User?
  }

  ghost predicate ProgressOpen(l: Lane) {
    OnlyUsers(l.ran) && OnlyUsers(l.waiting) && l.live && l.requests.Some? && (l.fired <==> l.memory.Some?)
  }

  ghost predicate ProgressShut(l: Lane) {
    && OnlyUsers(l.ran) && OnlyUsers(l.waiting)
    && (!l.live || (l.fired && l.requests.None? && l.memory.Some?))
  }

  ghost predicate Pending(s: State) {
    && Winner(s).None? && s.state.None?
    && Untouched(s.done, Done) && Untouched(s.fail, Fail) && ProgressOpen(s.progress)
  }

  ghost predicate Won(l: Lane) {
    l.live && l.fired && l.requests.None? && l.memory.Some? && (l.firing.Some? ==> l.firing == l.memory)
  }

  // The first k of the Deferred's own callbacks have run.
  ghost predicate Settling(s: State, w: Side, k: nat) {
    && w != Progress && k < 3 && s.inLoop && s.frames != [] && s.frames[|s.frames| - 1] == w
    && Won(Get(s, w)) && Get(s, w).firing.Some?
    && Get(s, w).ran == Builtins(w)[..k] && Get(s, w).waiting == Builtins(w)[k..] + Users(Get(s, w).added)
    && Get(s, w).calls == []
    && s.state == (if k == 0 then None else Some(w))
    && (if k < 2 then Untouched(Get(s, Other(w)), Other(w)) else Lost(Get(s, Other(w))))
    && ProgressOpen(s.progress)
  }

  ghost predicate Lost(l: Lane) {
    !l.live && !l.fired && l.firing.None? && l.calls == [] && l.requests.None?
  }

  ghost predicate Settled(s: State, w: Side) {
    var l := Get(s, w);
    && w != Progress && s.state == Some(w) && Won(l)
    && Lost(Get(s, Other(w))) && ProgressShut(s.progress)
    && |l.calls| <= |l.added|
    && (forall i :: 0 <= i < |l.calls| ==> l.calls[i] == (l.added[i], l.memory.value))
    && l.waiting == Users(l.added[|l.calls|..])
    && (l.firing.None? ==> l.waiting == [])
  }

  ghost predicate Inv(s: State) {
    && FramesOk(s)
    && (Pending(s) || exists w :: Winner(s) == Some(w) && (Settled(s, w) || exists k :: Settling(s, w, k)))
  }

  lemma InitialInv()
    ensures Inv(INITIAL)
  {
    assert Builtins(Done) + Users([]) == Builtins(Done);
    assert Builtins(Fail) + Users([]) == Builtins(Fail);
    assert Pending(INITIAL);
  }

  // Beginning to fire a list that was idle.
  lemma BeginFrames(s: State, side: Side, l: Lane, data: Data)
    requires FramesOk(s) && side !in s.frames
    ensures FramesOk(Begin(s, side, l, data))
  {
    var s' := Begin(s, side, l, data);
    forall x
      ensures Get(s', x).firing.Some? <==> x in s'.frames
    {
      assert x != side ==> Get(s', x) == Get(s, x);
    }
  }

  lemma UsersSnoc(ids: seq<nat>, id: nat)
    ensures Users(ids + [id]) == Users(ids) + [User(id)]
  {
  }

  lemma AddFrames(s: State, side: Side, id: nat)
    requires FramesOk(s) && !s.inLoop
    ensures FramesOk(AddStep(s, side, id))
  {
    var l := Get(s, side);
    var s' := AddStep(s, side, id);
    if l.live && l.firing.None? && l.memory.Some? {
      BeginFrames(s, side, l.(added := l.added + [id], waiting := [User(id)]), l.memory.value);
    } else {
      assert forall x :: Get(s', x).firing == Get(s, x).firing;
    }
  }

  lemma AddPending(s: State, side: Side, id: nat)
    requires Pending(s)
    ensures Pending(AddStep(s, side, id))
  {
    var l := Get(s, side);
    UsersSnoc(l.added, id);
    assert Builtins(side) + Users(l.added) + [User(id)] == Builtins(side) + Users(l.added + [id]);
  }

  lemma AddSettled(s: State, w: Side, side: Side, id: nat)
    requires Settled(s, w)
    ensures Settled(AddStep(s, side, id), w)
  {
    hide Users, Builtins;
    var l := Get(s, side);
    if side == w {
      var n := |l.calls|;
      assert (l.added + [id])[n..] == l.added[n..] + [id];
      UsersSnoc(l.added[n..], id);
      assert forall i :: 0 <= i < n ==> (l.added + [id])[i] == l.added[i];
      if l.firing.None? {
        NoUsers(l.added[n..]);
        assert [] + [User(id)] == [User(id)];
      }
    }
  }

  lemma NoUsers(ids: seq<nat>)
    ensures Users(ids) == [] <==> ids == []
    ensures Users([]) == []
  {
  }

  lemma AddInv(s: State, side: Side, id: nat)
    requires Inv(s) && !s.inLoop
    ensures Inv(AddStep(s, side, id))
  {
    hide FramesOk, Pending, Settled, AddStep;
    AddFrames(s, side, id);
    if Pending(s) {
      AddPending(s, side, id);
    } else {
      var w :| Winner(s) == Some(w) && (Settled(s, w) || exists k :: Settling(s, w, k));
      AddSettled(s, w, side, id);
      AddWinner(s, w, side, id);
    }
  }

  lemma AddWinner(s: State, w: Side, side: Side, id: nat)
    requires Winner(s) == Some(w) && Settled(s, w)
    ensures Winner(AddStep(s, side, id)) == Some(w)
  {
  }

  lemma FireInv(s: State, side: Side, data: Data)
    requires Inv(s) && !s.inLoop
    ensures Inv(FireStep(s, side, data))
    ensures side != Progress && s.state.None? ==>
              Winner(FireStep(s, side, data)) == Some(side) && Get(FireStep(s, side, data), side).memory == Some(data)
  {
    var l := Get(s, side);
    var s' := FireStep(s, side, data);
    if l.live && (!l.fired || l.requests.Some?) && l.firing.None? {
      BeginFrames(s, side, l.(ran := [], waiting := l.ran), data);
    } else {
      assert forall x :: Get(s', x).firing == Get(s, x).firing;
    }
    if Pending(s) {
      if side == Progress {
        assert Pending(s');
      } else {
        assert Builtins(side)[..0] == [] && Builtins(side)[0..] == Builtins(side);
        assert Settling(s', side, 0);
      }
    } else {
      var w :| Winner(s) == Some(w) && Settled(s, w);
      assert Settled(s', w);
    }
  }

  lemma PopFrames(s: State, l: Lane)
    requires FramesOk(s) && s.frames != []
    requires l.firing.None?
    ensures var side := s.frames[|s.frames| - 1];
            FramesOk(Put(s.(frames := s.frames[..|s.frames| - 1], inLoop := false), side, l))
  {
    var side := s.frames[|s.frames| - 1];
    var s' := Put(s.(frames := s.frames[..|s.frames| - 1], inLoop := false), side, l);
    forall x
      ensures Get(s', x).firing.Some? <==> x in s'.frames
    {
      assert x != side ==> Get(s', x) == Get(s, x);
    }
  }

  // The Deferred's own callbacks, one by one, before any other.
  lemma SettlingTick(s: State, w: Side, k: nat)
    requires FramesOk(s) && Winner(s) == Some(w) && Settling(s, w, k)
    ensures FramesOk(TickStep(s)) && Winner(TickStep(s)) == Some(w)
    ensures if k < 2 then Settling(TickStep(s), w, k + 1) else Settled(TickStep(s), w)
  {
    if k < 2 {
      EarlyTick(s, w, k);
    } else {
      LastTick(s, w);
    }
    hide *;
  }

  lemma EarlyTick(s: State, w: Side, k: nat)
    requires FramesOk(s) && Winner(s) == Some(w) && Settling(s, w, k) && k < 2
    ensures FramesOk(TickStep(s)) && Winner(TickStep(s)) == Some(w) && Settling(TickStep(s), w, k + 1)
  {
    var s' := TickStep(s);
    var l := Get(s, w);
    assert l.waiting[0] == Builtins(w)[k];
    assert l.ran + [Builtins(w)[k]] == Builtins(w)[..k + 1];
    assert l.waiting[1..] == Builtins(w)[k + 1..] + Users(l.added);
    assert s'.frames == s.frames;
    assert forall x :: Get(s', x).firing == Get(s, x).firing;
  }

  lemma LastTick(s: State, w: Side)
    requires FramesOk(s) && Winner(s) == Some(w) && Settling(s, w, 2)
    ensures FramesOk(TickStep(s)) && Winner(TickStep(s)) == Some(w) && Settled(TickStep(s), w)
  {
    var s' := TickStep(s);
    var l := Get(s, w);
    assert l.waiting[0] == Builtins(w)[2];
    assert l.ran + [Builtins(w)[2]] == Builtins(w)[..3];
    assert l.waiting[1..] == Builtins(w)[3..] + Users(l.added) == Users(l.added);
    assert l.added[0..] == l.added;
    assert s'.frames == s.frames;
    assert forall x :: Get(s', x).firing == Get(s, x).firing;
  }

  ghost predicate Steady(s: State) {
    Pending(s) || exists w :: Winner(s) == Some(w) && Settled(s, w)
  }

  // The innermost list being fired.
  function Top(s: State): Side
    requires s.frames != []
  {
    s.frames[|s.frames| - 1]
  }

  lemma UserTickIs(s: State)
    requires s.frames != []
    requires var l := Get(s, Top(s)); l.live && l.waiting != [] && l.firing.Some? && l.waiting[0].User?
    ensures var l := Get(s, Top(s));
            TickStep(s) ==
              Put(s, Top(s), l.(ran := l.ran + [l.waiting[0]], waiting := l.waiting[1..],
                                calls := l.calls + [(l.waiting[0].id, l.firing.value)])).(inLoop := false)
  {
  }

  lemma UserTickWon(s: State, w: Side)
    requires s.frames != [] && Settled(s, w) && Winner(s) == Some(w)
    requires var l := Get(s, Top(s)); l.live && l.waiting != [] && l.firing.Some?
    requires Top(s) == w
    ensures Settled(TickStep(s), w)
  {
    hide TickStep;
    var l := Get(s, w);
    var n := |l.calls|;
    assert l.waiting[0] == User(l.added[n]);
    assert l.waiting[1..] == Users(l.added[n + 1..]);
    UserTickIs(s);
  }

  lemma UserTickProgress(s: State, w: Side)
    requires s.frames != [] && Settled(s, w) && Winner(s) == Some(w)
    requires var l := Get(s, Top(s)); l.live && l.waiting != [] && l.firing.Some?
    requires Top(s) != w
    ensures Settled(TickStep(s), w) && Get(s, Top(s)).waiting[0].User?
  {
    hide TickStep;
    assert Top(s) == Progress;
    UserTickIs(s);
  }

  lemma UserTickSettled(s: State, w: Side)
    requires s.frames != [] && Settled(s, w) && Winner(s) == Some(w)
    requires var l := Get(s, Top(s)); l.live && l.waiting != [] && l.firing.Some?
    ensures Settled(TickStep(s), w) && Winner(TickStep(s)) == Some(w)
    ensures forall x :: Get(TickStep(s), x).firing == Get(s, x).firing
    ensures TickStep(s).frames == s.frames && !TickStep(s).inLoop
  {
    hide TickStep;
    if Top(s) == w {
      UserTickWon(s, w);
      assert Get(s, w).waiting[0] == User(Get(s, w).added[|Get(s, w).calls|]);
    } else {
      UserTickProgress(s, w);
    }
    UserTickIs(s);
  }

  lemma UserTickPending(s: State)
    requires s.frames != [] && Pending(s)
    requires var l := Get(s, Top(s)); l.live && l.waiting != [] && l.firing.Some?
    ensures Pending(TickStep(s))
    ensures forall x :: Get(TickStep(s), x).firing == Get(s, x).firing
    ensures TickStep(s).frames == s.frames && !TickStep(s).inLoop
  {
    assert Top(s) == Progress;
  }

  // A user's callback has its turn.
  lemma UserTick(s: State)
    requires FramesOk(s) && s.inLoop && Steady(s)
    requires var l := Get(s, Top(s)); l.live && l.waiting != []
    ensures Inv(TickStep(s))
  {
    hide Pending, Settled, TickStep, Winner;
    assert Top(s) in s.frames;
    if Pending(s) {
      UserTickPending(s);
    } else {
      var w :| Winner(s) == Some(w) && Settled(s, w);
      UserTickSettled(s, w);
    }
  }

  lemma EndTickFrames(s: State)
    requires FramesOk(s) && s.inLoop
    requires var l := Get(s, Top(s)); !(l.live && l.waiting != [])
    ensures FramesOk(TickStep(s))
  {
    var side := Top(s);
    var l := Get(s, side);
    var idle := l.(firing := None, ran := l.ran + l.waiting, waiting := []);
    var outer := s.(frames := s.frames[..|s.frames| - 1], inLoop := false);
    if l.live && l.requests.Some? && l.requests.value != [] {
      PopFrames(s, idle);
      BeginFrames(Put(outer, side, idle), side,
                  idle.(ran := [], waiting := idle.ran, requests := Some(l.requests.value[1..])), l.requests.value[0]);
    } else {
      PopFrames(s, Get(TickStep(s), side));
    }
  }

  lemma EndTickPending(s: State)
    requires s.frames != [] && Pending(s)
    requires var l := Get(s, Top(s)); l.firing.Some? && !(l.live && l.waiting != [])
    ensures Pending(TickStep(s))
  {
    assert Top(s) == Progress;
  }

  lemma EndTickSettled(s: State, w: Side)
    requires s.frames != [] && Settled(s, w) && Winner(s) == Some(w)
    requires var l := Get(s, Top(s)); l.firing.Some? && !(l.live && l.waiting != [])
    ensures Settled(TickStep(s), w) && Winner(TickStep(s)) == Some(w)
  {
    hide Users, Builtins;
    var side := Top(s);
    assert side == w || side == Progress;
  }

  // The loop is over: the next request, or back to whoever called.
  lemma EndTick(s: State)
    requires FramesOk(s) && s.inLoop && Steady(s)
    requires var l := Get(s, Top(s)); !(l.live && l.waiting != [])
    ensures Inv(TickStep(s))
  {
    hide Pending, Settled, TickStep, Winner;
    assert Top(s) in s.frames;
    EndTickFrames(s);
    if Pending(s) {
      EndTickPending(s);
    } else {
      var w :| Winner(s) == Some(w) && Settled(s, w);
      EndTickSettled(s, w);
    }
  }

  lemma StepInv(s: State, a: Action)
    requires Inv(s)
    ensures Inv(Step(s, a))
  {
    if s.inLoop {
      if a == Tick {
        if w, k :| Winner(s) == Some(w) && Settling(s, w, k) {
          SettlingTick(s, w, k);
        } else if Get(s, Top(s)).live && Get(s, Top(s)).waiting != [] {
          UserTick(s);
        } else {
          EndTick(s);
        }
      }
    } else {
      match a
      case Add(side, id) => AddInv(s, side, id);
      case Fire(side, data) => FireInv(s, side, data);
      case Return => ReturnInv(s);
      case Tick =>
    }
  }

  lemma ReturnInv(s: State)
    requires Inv(s) && !s.inLoop
    ensures Inv(Step(s, Return))
  {
    if s.frames != [] {
      var s' := s.(inLoop := true);
      assert forall x :: Get(s', x) == Get(s, x);
      if !Pending(s) {
        var w :| Winner(s) == Some(w) && Settled(s, w);
        assert Settled(s', w);
      } else {
        assert Pending(s');
      }
    }
  }

  lemma {:induction false} RunInv(actions: seq<Action>)
    ensures Inv(Run(actions))
  {
    if actions == [] {
      InitialInv();
    } else {
      RunInv(actions[..|actions| - 1]);
      StepInv(Run(actions[..|actions| - 1]), actions[|actions| - 1]);
    }
  }

  // --- What that comes to.

  // Once settled, a Deferred keeps its state and its arguments.
  lemma StepKeeps(s: State, a: Action)
    requires Inv(s) && s.state.Some?
    ensures Step(s, a).state == s.state
    ensures Get(s, s.state.value).memory.Some? && Get(Step(s, a), s.state.value).memory == Get(s, s.state.value).memory
  {
    hide Users, Builtins, FramesOk;
    var w := s.state.value;
    if k :| Settling(s, w, k) {
      if s.inLoop && a == Tick {
        SettlingNext(s, w, k);
      }
    } else {
      assert Settled(s, w);
    }
  }

  lemma SettlingNext(s: State, w: Side, k: nat)
    requires Settling(s, w, k) && k > 0
    ensures TickStep(s).state == s.state && Get(TickStep(s), w).memory == Get(s, w).memory
  {
    assert Get(s, w).waiting[0] == Builtins(w)[k];
  }

  // In any run, pending is left at most once: whatever happens after that, the state and the
  // settling arguments stay.
  lemma {:induction false} SettledForGood(actions: seq<Action>, n: nat)
    requires n <= |actions| && Run(actions[..n]).state.Some?
    ensures var w := Run(actions[..n]).state.value;
            && Run(actions).state == Some(w)
            && Get(Run(actions), w).memory == Get(Run(actions[..n]), w).memory
            && Get(Run(actions), w).memory.Some?
    decreases |actions|
  {
    RunInv(actions[..n]);
    if n == |actions| {
      assert actions[..n] == actions;
      hide Users, Builtins;
      var s := Run(actions);
      assert Won(Get(s, s.state.value));
    } else {
      var init := actions[..|actions| - 1];
      assert init[..n] == actions[..n];
      SettledForGood(init, n);
      RunInv(init);
      StepKeeps(Run(init), actions[|actions| - 1]);
    }
  }

  // In any run, at any moment: the settled side's callbacks have been called in order of
  // addition, with the settling arguments, none twice and none left out so far; the other
  // side's never; and when nothing is being fired, all that were added have been called.
  lemma CallsInOrder(actions: seq<Action>)
    ensures var s := Run(actions);
            match s.state
            case None => s.done.calls == [] && s.fail.calls == []
            case Some(w) =>
              var l := Get(s, w);
              && w != Progress && Get(s, Other(w)).calls == []
              && |l.calls| <= |l.added| && l.memory.Some?
              && (forall i :: 0 <= i < |l.calls| ==> l.calls[i] == (l.added[i], l.memory.value))
              && (s.frames == [] ==> |l.calls| == |l.added|)
  {
    RunInv(actions);
    hide Builtins;
    var s := Run(actions);
    if w :| Winner(s) == Some(w) && Settled(s, w) {
      NoUsers(Get(s, w).added[|Get(s, w).calls|..]);
    }
  }

  // Resolving or rejecting a pending Deferred settles it, with these arguments, before any
  // user callback is called.
  lemma FirstWins(actions: seq<Action>, side: Side, data: Data)
    requires side != Progress
    requires var s := Run(actions); !s.inLoop && s.state.None?
    ensures var s := Step(Step(Step(Step(Run(actions), Fire(side, data)), Tick), Tick), Tick);
            s.state == Some(side) && Get(s, side).memory == Some(data) && Get(s, side).calls == []
  {
    var s0 := Run(actions);
    RunInv(actions);
    FireInv(s0, side, data);
    var s := Step(s0, Fire(side, data));
    assert Builtins(side)[..0] == [] && Builtins(side)[0..] == Builtins(side);
    assert Settling(s, side, 0);
    TickOnce(s, side, 0);
    TickOnce(TickStep(s), side, 1);
    TickOnce(TickStep(TickStep(s)), side, 2);
  }

  lemma TickOnce(s: State, w: Side, k: nat)
    requires FramesOk(s) && Winner(s) == Some(w) && Settling(s, w, k)
    ensures Step(s, Tick) == TickStep(s) && FramesOk(TickStep(s)) && Winner(TickStep(s)) == Some(w)
    ensures Get(TickStep(s), w).memory == Get(s, w).memory && Get(TickStep(s), w).calls == []
    ensures if k < 2 then Settling(TickStep(s), w, k + 1) else TickStep(s).state == Some(w)
  {
    SettlingTick(s, w, k);
    assert Get(s, w).waiting[0] == Builtins(w)[k];
  }

  // After settling, neither notifying nor settling again does anything.
  lemma SettledIgnores(actions: seq<Action>, side: Side, data: Data)
    requires Run(actions).state.Some? && !Run(actions).inLoop
    ensures Step(Run(actions), Fire(side, data)) == Run(actions)
  {
    RunInv(actions);
    hide Users, Builtins;
    var s := Run(actions);
    var w :| Winner(s) == Some(w) && (Settled(s, w) || exists k :: Settling(s, w, k));
    assert Settled(s, w);
  }
}
