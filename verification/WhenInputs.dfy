// The inputs of jQuery.when are Deferreds: what its callbacks hear of any interleaving of their
// runs is a history in which every input settles at most once.
module WhenInputs {
  import opened Wrappers
  import W = When
  import D = Deferred

  // One action on one of the inputs.
  datatype Turn = Turn(i: nat, action: D.Action)

  function ActionsOf(run: seq<Turn>, i: nat): seq<D.Action> {
    if run == [] then []
    else ActionsOf(run[..|run| - 1], i) + if run[|run| - 1].i == i then [run[|run| - 1].action] else []
  }

  function StateOf(run: seq<Turn>, i: nat): D.State {
    D.Run(ActionsOf(run, i))
  }

  // The data a callback is called with between two moments.
  function Heard(before: D.Lane, after: D.Lane, id: nat): Option<D.Data> {
    if |after.calls| == |before.calls| + 1 && after.calls[|before.calls|].0 == id then
      Some(after.calls[|before.calls|].1)
    else None
  }

  // The callback `id` stands on the done list and on the fail list of every input; `args` are
  // the arguments a firing brings.
  function News(before: D.State, after: D.State, i: nat, id: nat, args: D.Data -> seq<W.Value>): seq<W.Event> {
    match Heard(before.done, after.done, id)
    case Some(data) => [W.Resolve(i, W.With(args(data)))]
    case None =>
      match Heard(before.fail, after.fail, id)
      case Some(data) => [W.Reject(i, args(data))]
      case None => []
  }

  function History(run: seq<Turn>, id: nat, args: D.Data -> seq<W.Value>): seq<W.Event> {
    if run == [] then []
    else
      var before, i := run[..|run| - 1], run[|run| - 1].i;
      History(before, id, args) + News(StateOf(before, i), StateOf(run, i), i, id, args)
  }

  // The callback is added to a list at most once, as `when` does.
  ghost predicate AddedOnce(actions: seq<D.Action>, id: nat) {
    forall side, j, k :: 0 <= j < k < |actions| ==> !(actions[j] == actions[k] == D.Add(side, id))
  }

  ghost predicate NotTwice(ids: seq<nat>, id: nat) {
    forall j, k :: 0 <= j < k < |ids| ==> !(ids[j] == ids[k] == id)
  }

  // Calls are only added to, and additions come from the action.
  lemma StepGrows(s: D.State, a: D.Action, side: D.Side)
    ensures var l, r := D.Get(s, side), D.Get(D.Step(s, a), side);
            && l.calls <= r.calls
            && (r.added == l.added || (a.Add? && a.side == side && r.added == l.added + [a.id]))
  {
    hide D.Users, D.Builtins;
    if !s.inLoop {
      match a
      case Add(x, id) =>
      case Fire(x, data) =>
      case _ =>
    } else if a == D.Tick && s.frames != [] {
      TickGrows(s, side);
    }
  }

  lemma CallGrows(s: D.State, x: D.Side, cb: D.Cb, data: D.Data, side: D.Side)
    ensures var l, r := D.Get(s, side), D.Get(D.Call(s, x, cb, data), side);
            l.calls <= r.calls && r.added == l.added
  {
  }

  // What a list remembers of additions and calls.
  function Past(l: D.Lane): (seq<nat>, seq<(nat, D.Data)>) {
    (l.added, l.calls)
  }

  lemma PutSame(s: D.State, x: D.Side, l: D.Lane, data: D.Data, side: D.Side)
    requires Past(l) == Past(D.Get(s, x))
    ensures Past(D.Get(D.Put(s, x, l), side)) == Past(D.Get(s, side))
    ensures Past(D.Get(D.Begin(s, x, l, data), side)) == Past(D.Get(s, side))
  {
  }

  lemma TickGrows(s: D.State, side: D.Side)
    requires s.frames != []
    ensures D.Get(s, side).calls <= D.Get(D.TickStep(s), side).calls
    ensures D.Get(D.TickStep(s), side).added == D.Get(s, side).added
  {
    hide D.Call, D.Put, D.Begin, D.Get;
    var top := s.frames[|s.frames| - 1];
    var outer := s.(frames := s.frames[..|s.frames| - 1], inLoop := false);
    SameLanes(s, outer);
    var l := D.Get(s, top);
    if l.firing.Some? && l.live && l.waiting != [] {
      var l1 := l.(ran := l.ran + [l.waiting[0]], waiting := l.waiting[1..]);
      PutSame(s, top, l1, 0, side);
      CallGrows(D.Put(s, top, l1), top, l.waiting[0], l.firing.value, side);
    } else {
      forall l1: D.Lane | Past(l1) == Past(l)
        ensures Past(D.Get(D.Put(outer, top, l1), side)) == Past(D.Get(s, side))
      {
        PutSame(outer, top, l1, 0, side);
      }
      forall l1: D.Lane, data | Past(l1) == Past(l)
        ensures Past(D.Get(D.Begin(outer, top, l1, data), side)) == Past(D.Get(s, side))
      {
        PutSame(outer, top, l1, data, side);
      }
    }
  }

  lemma SameLanes(s: D.State, r: D.State)
    requires s.done == r.done && s.fail == r.fail && s.progress == r.progress
    ensures forall side :: D.Get(s, side) == D.Get(r, side)
  {
  }

  lemma {:induction false} AddedInOrder(actions: seq<D.Action>, id: nat, side: D.Side)
    requires AddedOnce(actions, id)
    ensures var added := D.Get(D.Run(actions), side).added;
            NotTwice(added, id) && (id in added ==> D.Add(side, id) in actions)
    decreases |actions|
  {
    hide D.Step;
    if actions != [] {
      var before, last := actions[..|actions| - 1], actions[|actions| - 1];
      AddedInOrder(before, id, side);
      StepGrows(D.Run(before), last, side);
      if last == D.Add(side, id) {
        assert D.Add(side, id) !in before;
      }
    }
  }

  // Whoever has called back has left a call on one of the two lists.
  ghost predicate Called(s: D.State, id: nat) {
    exists side, m :: side != D.Progress && 0 <= m < |D.Get(s, side).calls| && D.Get(s, side).calls[m].0 == id
  }

  lemma StaysCalled(s: D.State, a: D.Action, id: nat)
    requires Called(s, id)
    ensures Called(D.Step(s, a), id)
  {
    hide D.Step;
    var side, m :| side != D.Progress && 0 <= m < |D.Get(s, side).calls| && D.Get(s, side).calls[m].0 == id;
    StepGrows(s, a, side);
    assert D.Get(D.Step(s, a), side).calls[m].0 == id;
  }

  // A callback that was called is not called again.
  lemma NoSecondCall(actions: seq<D.Action>, a: D.Action, id: nat)
    requires AddedOnce(actions + [a], id) && Called(D.Run(actions), id)
    ensures var s, r := D.Run(actions), D.Run(actions + [a]);
            Heard(s.done, r.done, id).None? && Heard(s.fail, r.fail, id).None?
  {
    hide D.Step, AddedOnce;
    assert (actions + [a])[..|actions|] == actions;
    var s, r := D.Run(actions), D.Run(actions + [a]);
    var side, m :| side != D.Progress && 0 <= m < |D.Get(s, side).calls| && D.Get(s, side).calls[m].0 == id;
    StepGrows(s, a, D.Done);
    StepGrows(s, a, D.Fail);
    D.CallsInOrder(actions + [a]);
    AddedInOrder(actions + [a], id, side);
    assert D.Get(r, side).calls[m].0 == id && D.Get(r, side).added[m] == id;
    assert r.state == Some(side) && D.Get(r, D.Other(side)).calls == [];
  }

  lemma Fewer(run: seq<Turn>, i: nat, id: nat)
    requires run != []
    ensures var before, last := run[..|run| - 1], run[|run| - 1];
            && ActionsOf(run, i) == ActionsOf(before, i) + (if last.i == i then [last.action] else [])
            && (AddedOnce(ActionsOf(run, i), id) ==> AddedOnce(ActionsOf(before, i), id))
  {
    var before, all := ActionsOf(run[..|run| - 1], i), ActionsOf(run, i);
    assert forall j :: 0 <= j < |before| ==> before[j] == all[j];
  }

  lemma NewsCalled(before: D.State, after: D.State, i: nat, id: nat, args: D.Data -> seq<W.Value>)
    ensures var news := News(before, after, i, id, args);
            && |news| <= 1 && (news != [] ==> news[0].i == i && Called(after, id))
            && (Heard(before.done, after.done, id).None? && Heard(before.fail, after.fail, id).None? ==> news == [])
  {
    if Heard(before.done, after.done, id).Some? {
      assert D.Get(after, D.Done).calls[|before.done.calls|].0 == id;
    }
    if Heard(before.fail, after.fail, id).Some? {
      assert D.Get(after, D.Fail).calls[|before.fail.calls|].0 == id;
    }
  }

  // What is heard of the inputs is a fair history.
  lemma {:induction false} HistoryFair(run: seq<Turn>, n: nat, id: nat, args: D.Data -> seq<W.Value>)
    requires forall k :: 0 <= k < |run| ==> run[k].i < n
    requires forall i :: 0 <= i < n ==> AddedOnce(ActionsOf(run, i), id)
    ensures W.Fair(History(run, id, args), n)
    ensures forall e <- History(run, id, args) :: Called(StateOf(run, e.i), id)
    decreases |run|
  {
    hide AddedOnce, Called, News, ActionsOf, D.Run, Heard;
    if run != [] {
      var before, i, a := run[..|run| - 1], run[|run| - 1].i, run[|run| - 1].action;
      forall j
        ensures AddedOnce(ActionsOf(run, j), id) ==> AddedOnce(ActionsOf(before, j), id)
        ensures ActionsOf(run, j) == ActionsOf(before, j) + if j == i then [a] else []
      {
        Fewer(run, j, id);
      }
      HistoryFair(before, n, id, args);
      NewsCalled(StateOf(before, i), StateOf(run, i), i, id, args);
      forall e | e in History(before, id, args)
        ensures Called(StateOf(run, e.i), id)
        ensures e.i == i ==> News(StateOf(before, i), StateOf(run, i), i, id, args) == []
      {
        if e.i == i {
          StaysCalledRun(ActionsOf(before, i), a, id);
          NoSecondCall(ActionsOf(before, i), a, id);
        } else {
          assert ActionsOf(run, e.i) == ActionsOf(before, e.i);
        }
      }
    }
  }

  lemma StaysCalledRun(actions: seq<D.Action>, a: D.Action, id: nat)
    requires Called(D.Run(actions), id)
    ensures Called(D.Run(actions + [a]), id)
  {
    assert (actions + [a])[..|actions|] == actions;
    StaysCalled(D.Run(actions), a, id);
  }
}
