// jQuery.when: one master Deferred for several inputs.
module When {
  import opened Wrappers

  type Value = nat

  // What a slot of resolveValues holds: the argument of when itself, the one argument a
  // subordinate was resolved with (if any), or the list of several.
  datatype Slot = Given(v: Value) | Single(arg: Option<Value>) | Many(args: seq<Value>)

  // An argument of when: a plain value, or a Deferred and how it stands at the time.
  datatype Input = Plain(v: Value) | Deferred(self: Value, status: Status, notified: Option<seq<Value>>)

  datatype Status = Waiting | ResolvedWith(args: seq<Value>) | RejectedWith(args: seq<Value>)

  // With what an input resolves: a plain value as it is, a Deferred with its arguments.
  datatype Came = AsItIs(v: Value) | With(args: seq<Value>)

  // What happens to the inputs, one after the other.
  datatype Event = Resolve(i: nat, came: Came) | Reject(i: nat, args: seq<Value>)

  // The Deferred that when returns; that a settled one stays is Deferred.SettledIgnores.
  datatype Master = Pending | Resolved(slots: seq<Slot>) | Rejected(args: seq<Value>)

  // The value of an input as the master is to hand it on.
  ghost predicate Holds(slot: Slot, came: Came) {
    match came
    case AsItIs(v) => slot == Given(v)
    case With(args) =>
      && (args == [] ==> slot == Single(None))
      && (|args| == 1 ==> slot == Single(Some(args[0])))
      && (|args| >= 2 ==> slot == Many(args))
  }

  function SlotOf(args: seq<Value>): (s: Slot)
    ensures Holds(s, With(args))
  {
    if |args| > 1 then Many(args) else Single(if args == [] then None else Some(args[0]))
  }

  predicate ResolvedIn(h: seq<Event>, i: nat) {
    exists k :: 0 <= k < |h| && h[k].Resolve? && h[k].i == i
  }

  predicate RejectedIn(h: seq<Event>) {
    exists k :: 0 <= k < |h| && h[k].Reject?
  }

  // Every input settles at most once, as Deferreds do (WhenInputs.HistoryFair).
  ghost predicate Fair(h: seq<Event>, n: nat) {
    && (forall k :: 0 <= k < |h| ==> h[k].i < n)
    && (forall j, k :: 0 <= j < k < |h| ==> h[j].i != h[k].i)
  }

  function Resolutions(h: seq<Event>): nat {
    if h == [] then 0 else Resolutions(h[..|h| - 1]) + if h[|h| - 1].Resolve? then 1 else 0
  }

  // The master that `when` promises: it resolves once every input has, with the inputs'
  // values in their places, and is rejected with the first rejection.
  ghost predicate Promised(h: seq<Event>, n: nat, master: Master) {
    match master
    case Pending => !RejectedIn(h) && exists i :: 0 <= i < n && !ResolvedIn(h, i)
    case Resolved(slots) =>
      && |slots| == n
      && (forall i :: 0 <= i < n ==> ResolvedIn(h, i))
      && (forall k :: 0 <= k < |h| && h[k].Resolve? ==> h[k].i < n && Holds(slots[h[k].i], h[k].came))
    case Rejected(args) =>
      exists k :: 0 <= k < |h| && h[k] == Reject(h[k].i, args) && forall j :: 0 <= j < k ==> h[j].Resolve?
  }

  // There is only one such master.
  lemma PromisedUnique(h: seq<Event>, n: nat, a: Master, b: Master)
    requires Fair(h, n) && Promised(h, n, a) && Promised(h, n, b)
    ensures a == b
  {
    if a.Resolved? && b.Resolved? {
      forall i | 0 <= i < n
        ensures a.slots[i] == b.slots[i]
      {
        assert ResolvedIn(h, i);
      }
    }
    if a.Resolved? && b.Rejected? {
      NotBoth(h, n);
    }
    if b.Resolved? && a.Rejected? {
      NotBoth(h, n);
    }
  }

  lemma NotBoth(h: seq<Event>, n: nat)
    requires Fair(h, n) && RejectedIn(h)
    ensures exists i :: 0 <= i < n && !ResolvedIn(h, i)
  {
    var k :| 0 <= k < |h| && h[k].Reject?;
    assert !ResolvedIn(h, h[k].i);
  }

  lemma ResolutionsBound(h: seq<Event>, n: nat)
    requires Fair(h, n)
    ensures Resolutions(h) <= n
    ensures Resolutions(h) == n <==> forall i :: 0 <= i < n ==> ResolvedIn(h, i)
  {
    WhoCount(h, n);
    assert forall i :: i in Who(h) <==> ResolvedIn(h, i);
    Within(Who(h), UpTo(n));
  }

  ghost function UpTo(n: nat): (r: set<nat>)
    ensures |r| == n && forall i :: i in r <==> 0 <= i < n
  {
    if n == 0 then {} else UpTo(n - 1) + {n - 1}
  }

  ghost function Who(h: seq<Event>): set<nat> {
    set k | 0 <= k < |h| && h[k].Resolve? :: h[k].i
  }

  // Who has resolved with the last event, and before it.
  lemma WhoLast(h: seq<Event>)
    requires h != []
    ensures var init, last := h[..|h| - 1], h[|h| - 1];
            Who(h) == Who(init) + if last.Resolve? then {last.i} else {}
  {
    var init, last := h[..|h| - 1], h[|h| - 1];
    var more := if last.Resolve? then {last.i} else {};
    forall x
      ensures x in Who(h) <==> x in Who(init) + more
    {
      assert x in Who(init) ==> exists k :: 0 <= k < |init| && init[k].Resolve? && h[k] == init[k] && h[k].i == x;
      if x in Who(h) {
        var k :| 0 <= k < |h| && h[k].Resolve? && h[k].i == x;
        assert k < |init| ==> init[k] == h[k];
      }
    }
  }

  lemma FairInit(h: seq<Event>, n: nat)
    requires Fair(h, n) && h != []
    ensures Fair(h[..|h| - 1], n)
    ensures h[|h| - 1].Resolve? ==> h[|h| - 1].i !in Who(h[..|h| - 1])
  {
  }

  lemma {:induction false} WhoCount(h: seq<Event>, n: nat)
    requires Fair(h, n)
    ensures Resolutions(h) == |Who(h)|
  {
    hide Fair, Who;
    if h == [] {
      NobodyYet();
    } else {
      FairInit(h, n);
      WhoLast(h);
      WhoCount(h[..|h| - 1], n);
    }
  }

  lemma NobodyYet()
    ensures Who([]) == {}
  {
  }

  lemma Within(a: set<nat>, b: set<nat>)
    requires a <= b
    ensures |a| <= |b| && (|a| == |b| <==> a == b)
  {
    assert b == a + (b - a);
  }

  // The counter is the number of inputs that have not resolved, and those that have are in
  // their places.
  ghost predicate Outstanding(h: seq<Event>, slots: seq<Slot>, remaining: nat) {
    && Fair(h, |slots|)
    && remaining + Resolutions(h) == |slots|
    && (forall k :: 0 <= k < |h| && h[k].Resolve? ==> Holds(slots[h[k].i], h[k].came))
  }

  lemma OneFewer(h: seq<Event>, slots: seq<Slot>, remaining: nat, i: nat, slot: Slot, came: Came)
    requires Outstanding(h, slots, remaining) && i < |slots| && Holds(slot, came)
    requires forall k :: 0 <= k < |h| ==> h[k].i != i
    ensures remaining > 0 && Outstanding(h + [Resolve(i, came)], slots[i := slot], remaining - 1)
  {
    var h' := h + [Resolve(i, came)];
    assert h'[..|h|] == h;
    assert Fair(h', |slots|);
    assert Resolutions(h') == Resolutions(h) + 1;
    ResolutionsBound(h', |slots|);
    hide Fair, Resolutions, Holds;
    assert forall k :: 0 <= k < |h| ==> h'[k] == h[k];
  }

  lemma NoFewer(h: seq<Event>, slots: seq<Slot>, remaining: nat, i: nat, args: seq<Value>)
    requires Outstanding(h, slots, remaining) && i < |slots|
    requires forall k :: 0 <= k < |h| ==> h[k].i != i
    ensures Outstanding(h + [Reject(i, args)], slots, remaining)
  {
    assert (h + [Reject(i, args)])[..|h|] == h;
  }

  lemma ItsFair(h: seq<Event>, slots: seq<Slot>, remaining: nat)
    requires Outstanding(h, slots, remaining)
    ensures Fair(h, |slots|)
  {
  }

  // After everything has resolved no input is left to settle.
  lemma NobodyLeft(h: seq<Event>, e: Event, n: nat, master: Master)
    requires Promised(h, n, master) && master.Resolved?
    ensures !Fair(h + [e], n)
  {
    assert (h + [e])[|h|] == e;
    if e.i < n {
      assert ResolvedIn(h, e.i);
      var k :| 0 <= k < |h| && h[k].Resolve? && h[k].i == e.i;
      assert (h + [e])[k] == h[k];
    }
  }

  // One more input has resolved.
  lemma AfterDone(h: seq<Event>, i: nat, came: Came, slots: seq<Slot>, remaining: nat, master: Master)
    requires Promised(h, |slots|, master)
    requires var h' := h + [Resolve(i, came)];
             && Fair(h', |slots|) && remaining + Resolutions(h') == |slots|
             && forall k :: 0 <= k < |h'| && h'[k].Resolve? ==> Holds(slots[h'[k].i], h'[k].came)
    ensures Promised(h + [Resolve(i, came)], |slots|,
                     if remaining == 0 && master.Pending? then Resolved(slots) else master)
  {
    hide Holds;
    var h' := h + [Resolve(i, came)];
    assert forall k :: 0 <= k < |h| ==> h'[k] == h[k];
    assert h'[|h|] == Resolve(i, came);
    ResolutionsBound(h', |slots|);
    match master
    case Pending =>
      assert !RejectedIn(h');
    case Resolved(_) => NobodyLeft(h, Resolve(i, came), |slots|, master);
    case Rejected(args) =>
      var k :| 0 <= k < |h| && h[k] == Reject(h[k].i, args) && forall j :: 0 <= j < k ==> h[j].Resolve?;
      assert h'[k] == Reject(h'[k].i, args);
  }

  // One more input has been rejected.
  lemma AfterFail(h: seq<Event>, i: nat, args: seq<Value>, n: nat, master: Master)
    requires Promised(h, n, master) && Fair(h + [Reject(i, args)], n)
    ensures Promised(h + [Reject(i, args)], n, if master.Pending? then Rejected(args) else master)
  {
    var h' := h + [Reject(i, args)];
    assert forall k :: 0 <= k < |h| ==> h'[k] == h[k];
    assert h'[|h|] == Reject(i, args);
    match master
    case Pending =>
      assert forall j :: 0 <= j < |h| ==> h'[j].Resolve?;
    case Resolved(_) => NobodyLeft(h, Reject(i, args), n, master);
    case Rejected(first) =>
      var k :| 0 <= k < |h| && h[k] == Reject(h[k].i, first) && forall j :: 0 <= j < k ==> h[j].Resolve?;
      assert h'[k] == Reject(h'[k].i, first);
  }

  // During set-up the master may still be pending although everything has resolved.
  ghost predicate SettingUp(h: seq<Event>, n: nat, master: Master) {
    Promised(h, n, master) || (master.Pending? && !RejectedIn(h))
  }

  lemma SetUpKeeps(h: seq<Event>, h': seq<Event>, n: nat, slots: seq<Slot>, remaining: nat, master: Master,
                   master': Master)
    requires Outstanding(h', slots, remaining) && |slots| == n && SettingUp(h, n, master)
    requires h' == h || (exists e: Event :: h' == h + [e])
    requires master' == if !master.Pending? then master
                        else if |h'| > |h| && h'[|h|].Reject? then Rejected(h'[|h|].args)
                        else if |h'| > |h| && remaining == 0 && h'[|h|].came.With? then Resolved(slots)
                        else master
    ensures SettingUp(h', n, master')
  {
    if h' != h {
      var e := h'[|h|];
      assert h' == h + [e];
      ItsFair(h', slots, remaining);
      ResolutionsBound(h', n);
      if Promised(h, n, master) {
        hide Promised, Fair, ResolvedIn, Resolutions;
        match e
        case Resolve(i, came) =>
          AfterDone(h, i, came, slots, remaining, master);
          if master.Pending? {
            QuietWhenPending(h, e, n, master);
          }
        case Reject(i, args) => AfterFail(h, i, args, n, master);
      } else {
        assert forall k :: 0 <= k < |h| ==> h'[k] == h[k];
      }
    }
  }

  lemma QuietWhenPending(h: seq<Event>, e: Event, n: nat, master: Master)
    requires Promised(h, n, master) && master.Pending? && e.Resolve?
    ensures !RejectedIn(h + [e])
  {
  }

  // The inputs report in their order.
  ghost predicate OneByOne(h: seq<Event>, n: nat) {
    && (forall k :: 0 <= k < |h| ==> h[k].i < n)
    && (forall j, k :: 0 <= j < k < |h| ==> h[j].i < h[k].i)
  }

  lemma OneMore(h: seq<Event>, h': seq<Event>, i: nat)
    requires OneByOne(h, i)
    requires h' == h || (exists e: Event :: e.i == i && h' == h + [e])
    ensures OneByOne(h', i + 1)
    ensures forall k :: 0 <= k < |h| ==> h[k].i != i
  {
    if h' != h {
      assert h' == h + [h'[|h|]];
      assert forall k :: 0 <= k < |h| ==> h'[k] == h[k];
    }
  }

  lemma GivenHolds(v: Value)
    ensures Holds(Given(v), AsItIs(v))
  {
  }

  lemma NothingYet(slots: seq<Slot>)
    ensures Outstanding([], slots, |slots|) && SettingUp([], |slots|, Pending) && OneByOne([], 0)
  {
  }

  // When all inputs have been looked at, the master is as promised, once it has been resolved if
  // nothing remains.
  lemma SetUpDone(h: seq<Event>, slots: seq<Slot>, remaining: nat, master: Master)
    requires Outstanding(h, slots, remaining) && SettingUp(h, |slots|, master)
    ensures Promised(h, |slots|, if remaining == 0 && master.Pending? then Resolved(slots) else master)
  {
    hide Holds;
    ResolutionsBound(h, |slots|);
  }

  lemma ResolvedReports(inputs: seq<Input>, h: seq<Event>)
    requires forall e :: e in h <==> e.i < |inputs| && Reports(inputs[e.i], e)
    ensures forall i :: 0 <= i < |inputs| ==>
              (ResolvedIn(h, i) <==> inputs[i].Plain? || inputs[i].status.ResolvedWith?)
  {
    forall i | 0 <= i < |inputs|
      ensures ResolvedIn(h, i) <==> inputs[i].Plain? || inputs[i].status.ResolvedWith?
    {
      if ResolvedIn(h, i) {
        var k :| 0 <= k < |h| && h[k].Resolve? && h[k].i == i;
        assert h[k] in h;
      }
      if inputs[i].Plain? || inputs[i].status.ResolvedWith? {
        var e := Resolve(i, if inputs[i].Plain? then AsItIs(inputs[i].v) else With(inputs[i].status.args));
        assert Reports(inputs[i], e) && e in h;
      }
    }
  }

  // What an input reports when listeners are added to it.
  ghost predicate Reports(input: Input, e: Event) {
    match e
    case Resolve(_, AsItIs(v)) => input.Plain? && input.v == v
    case Resolve(_, With(args)) => input.Deferred? && input.status == ResolvedWith(args)
    case Reject(_, args) => input.Deferred? && input.status == RejectedWith(args)
  }

  class When {
    var remaining: nat
    var resolveValues: seq<Slot>
    var progressValues: seq<Option<Slot>>
    var master: Master
    var notifications: seq<seq<Option<Slot>>>  // what the master has been notified of
    ghost var history: seq<Event>

    ghost predicate Counts()
      reads this
    {
      |progressValues| == |resolveValues| && Outstanding(history, resolveValues, remaining)
    }

    ghost predicate Valid()
      reads this
    {
      Counts() && Promised(history, |resolveValues|, master)
    }

    // Add listeners to the Deferreds among the inputs, which call back at once if they have
    // settled or notified already; treat the others as resolved.
    constructor (inputs: seq<Input>)
      requires |inputs| == 1 ==> inputs[0].Plain?
      ensures Valid() && |resolveValues| == |inputs|
      ensures forall i :: 0 <= i < |inputs| ==>
                (ResolvedIn(history, i) <==> inputs[i].Plain? || inputs[i].status.ResolvedWith?)
      ensures forall e :: e in history <==> e.i < |inputs| && Reports(inputs[e.i], e)
      ensures OneByOne(history, |inputs|)
      ensures |progressValues| == |inputs| && forall i :: 0 <= i < |inputs| ==>
                if inputs[i].Deferred? && inputs[i].notified.Some?
                then progressValues[i].Some? && Holds(progressValues[i].value, With(inputs[i].notified.value))
                else progressValues[i].None?
    {
      hide Outstanding, SettingUp, Promised, ResolvedIn, Reports, OneByOne, Holds;
      var n := |inputs|;
      remaining := n;
      resolveValues := seq(n, i requires 0 <= i < |inputs| =>
        Given(if inputs[i].Plain? then inputs[i].v else inputs[i].self));
      progressValues := seq(n, _ => None);
      master, notifications, history := Pending, [], [];
      new;
      NothingYet(resolveValues);
      for i := 0 to n
        invariant Counts() && |resolveValues| == n && SettingUp(history, n, master)
        invariant OneByOne(history, i)
        invariant forall k :: 0 <= k < n ==>
                    if k < i && inputs[k].Deferred? && inputs[k].notified.Some?
                    then progressValues[k].Some? && Holds(progressValues[k].value, With(inputs[k].notified.value))
                    else progressValues[k].None?
        invariant forall e :: e in history <==> e.i < i && Reports(inputs[e.i], e)
        invariant forall k :: i <= k < n ==>
                    resolveValues[k] == Given(if inputs[k].Plain? then inputs[k].v else inputs[k].self)
      {
        SetUp(i, inputs[i]);
      }
      SetUpDone(history, resolveValues, remaining, master);
      ResolvedReports(inputs, history);
      if remaining == 0 {
        ResolveMaster();
      }
    }

    method SetUp(i: nat, input: Input)
      requires Counts() && i < |resolveValues| && SettingUp(history, |resolveValues|, master)
      requires OneByOne(history, i)
      requires resolveValues[i] == Given(if input.Plain? then input.v else input.self)
      modifies this
      ensures Counts() && SettingUp(history, |resolveValues|, master)
      ensures |resolveValues| == |old(resolveValues)| && resolveValues[i + 1..] == old(resolveValues)[i + 1..]
      ensures progressValues ==
                (if input.Deferred? && input.notified.Some?
                 then old(progressValues)[i := Some(SlotOf(input.notified.value))] else old(progressValues))
      ensures notifications ==
                if input.Deferred? && input.notified.Some? && master.Pending?
                then old(notifications) + [progressValues] else old(notifications)
      ensures OneByOne(history, i + 1)
      ensures forall e :: e in history <==> e in old(history) || (e.i == i && Reports(input, e))
    {
      hide Outstanding, SettingUp, Promised, ResolvedIn, SlotOf, Holds, OneByOne;
      ghost var h := history;
      OneMore(h, h, i);
      match input {
        case Plain(v) =>
          GivenHolds(v);
          OneFewer(h, resolveValues, remaining, i, Given(v), AsItIs(v));
          history := h + [Resolve(i, AsItIs(v))];
          assert resolveValues[i := Given(v)] == resolveValues;
          remaining := remaining - 1;
        case Deferred(_, status, notified) =>
          match status {
            case ResolvedWith(args) =>
              Update(i, args);
            case RejectedWith(args) =>
              NoFewer(h, resolveValues, remaining, i, args);
              history := h + [Reject(i, args)];
              if master.Pending? {
                master := Rejected(args);
              }
            case Waiting =>
          }
          if notified.Some? {
            Notice(i, notified.value);
          }
      }
      SetUpKeeps(h, history, |resolveValues|, resolveValues, remaining, old(master), master);
      OneMore(h, history, i);
    }

    // deferred.resolveWith, deferred.reject: a settled master stays as it is.
    method ResolveMaster()
      modifies this`master
      ensures master == if old(master).Pending? then Resolved(resolveValues) else old(master)
    {
      if master.Pending? {
        master := Resolved(resolveValues);
      }
    }

    // The done callback for input i.
    method OnDone(i: nat, args: seq<Value>)
      requires Valid() && i < |resolveValues|
      requires forall k :: 0 <= k < |history| ==> history[k].i != i
      modifies this`remaining, this`resolveValues, this`master, this`history
      ensures Valid() && history == old(history) + [Resolve(i, With(args))]
      ensures |resolveValues| == |old(resolveValues)|
      ensures old(master) != Pending ==> master == old(master)
    {
      ghost var h := history;
      Update(i, args);
      AfterDone(h, i, With(args), resolveValues, remaining, old(master));
    }

    method Update(i: nat, args: seq<Value>)
      requires Counts() && i < |resolveValues|
      requires forall k :: 0 <= k < |history| ==> history[k].i != i
      modifies this`remaining, this`resolveValues, this`master, this`history
      ensures Counts() && history == old(history) + [Resolve(i, With(args))]
      ensures resolveValues == old(resolveValues)[i := SlotOf(args)]
      ensures master == if remaining == 0 && old(master).Pending? then Resolved(resolveValues) else old(master)
    {
      hide Outstanding;
      OneFewer(history, resolveValues, remaining, i, SlotOf(args), With(args));
      history := history + [Resolve(i, With(args))];
      resolveValues := resolveValues[i := SlotOf(args)];
      remaining := remaining - 1;
      if remaining == 0 {
        ResolveMaster();
      }
    }

    // The fail callback, which is the master's own reject.
    method OnFail(i: nat, args: seq<Value>)
      requires Valid() && i < |resolveValues|
      requires forall k :: 0 <= k < |history| ==> history[k].i != i
      modifies this`master, this`history
      ensures Valid() && history == old(history) + [Reject(i, args)]
      ensures old(master) != Pending ==> master == old(master)
    {
      ghost var h := history;
      hide Outstanding, Promised;
      NoFewer(h, resolveValues, remaining, i, args);
      history := history + [Reject(i, args)];
      ItsFair(history, resolveValues, remaining);
      if master.Pending? {
        master := Rejected(args);
      }
      AfterFail(h, i, args, |resolveValues|, old(master));
    }

    method Notice(i: nat, args: seq<Value>)
      requires i < |progressValues|
      modifies this`progressValues, this`notifications
      ensures progressValues == old(progressValues)[i := Some(SlotOf(args))]
      ensures notifications == if master.Pending? then old(notifications) + [progressValues] else old(notifications)
    {
      progressValues := progressValues[i := Some(SlotOf(args))];
      if master.Pending? {
        notifications := notifications + [progressValues];
      }
    }

    // The progress callback for input i: nothing but a notification.
    method OnProgress(i: nat, args: seq<Value>)
      requires Valid() && i < |resolveValues|
      modifies this`progressValues, this`notifications
      ensures Valid() && progressValues == old(progressValues)[i := Some(SlotOf(args))]
      ensures notifications == if master.Pending? then old(notifications) + [progressValues] else old(notifications)
    {
      Notice(i, args);
    }
  }
}
