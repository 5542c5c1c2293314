// What binding, unbinding and dispatching an event come to, handler by handler.
module EventLaws {
  import opened Wrappers
  import opened EventHandlers

  predicate Bound(log: Log, key: string, h: Handler) {
    key in log && h in log[key]
  }

  // Whether the arguments of unbinding mean this handler: its type, unless the type was mapped or
  // left out; its function, if one is given; its namespaces, all that are given; and its selector,
  // where "**" stands for any.
  ghost predicate Meant(h: Handler, t: Option<string>, guid: Option<nat>, namespaces: set<string>,
                        selector: Option<string>) {
    && (t.Some? ==> h.origType == t.value)
    && (guid.Some? ==> h.guid == guid.value)
    && (forall n <- namespaces :: n in h.namespaces)
    && (selector.Some? ==> h.selector == selector || (selector.value == "**" && h.selector.Some?))
  }

  lemma MeantMatches(h: Handler, t: Option<string>, guid: Option<nat>, namespaces: set<string>,
                     selector: Option<string>)
    ensures Passes(Spared(Query(t, guid, namespaces, selector)), h) <==> !Meant(h, t, guid, namespaces, selector)
  {
  }

  lemma RemovedBound(log: Log, key: string, q: Query, u: string, h: Handler)
    ensures Bound(Removed(log, key, q), u, h) <==> Bound(log, u, h) && (u == key ==> Passes(Spared(q), h))
  {
    if key in log {
      FilterMember(log[key], Spared(q), h);
    }
  }

  lemma RemovedSetBound(log: Log, keys: set<string>, q: Query, u: string, h: Handler)
    ensures Bound(RemovedSet(log, keys, q), u, h) <==> Bound(log, u, h) && (u in keys ==> Passes(Spared(q), h))
  {
    if u in log {
      FilterMember(log[u], Spared(q), h);
    }
  }

  // Unbinding one type drops exactly the handlers it means, under the key of that type; without
  // a type, under the keys of all the types that are bound.
  lemma UnbindExactly(log: Log, name: Name, special: Special, guid: Option<nat>, selector: Option<string>,
                      mapped: bool, u: string, h: Handler)
    ensures var after := RemovedName(log, name, special, guid, selector, mapped);
            Bound(after, u, h) <==>
              && Bound(log, u, h)
              && !(match name.origType
                   case Some(t) =>
                     && u == special(t, selector.Some?)
                     && Meant(h, if mapped then None else Some(t), guid, name.namespaces, selector)
                   case None =>
                     && (exists t <- log :: u == special(t, selector.Some?))
                     && Meant(h, None, guid, name.namespaces, selector))
  {
    match name.origType
    case Some(t) =>
      var asked := if mapped then None else name.origType;
      RemovedBound(log, special(t, selector.Some?), Query(asked, guid, name.namespaces, selector), u, h);
      MeantMatches(h, asked, guid, name.namespaces, selector);
    case None =>
      var keys := set t | t in log :: special(t, selector.Some?);
      RemovedSetBound(log, keys, Query(None, guid, name.namespaces, selector), u, h);
      MeantMatches(h, None, guid, name.namespaces, selector);
      assert u in keys <==> exists t <- log :: u == special(t, selector.Some?);
  }

  // Binding puts the handler at the end of the list of its key, with all that is asked for.
  lemma BindExactly(log: Log, t: Typed, special: Special, guid: nat, selector: Option<string>, id: nat, u: string)
    ensures var after := AddedAll(log, [t], special, guid, selector, id);
            var key := special(t.origType, selector.Some?);
            var before := if u in log then log[u] else [];
            && key in after && after.Keys == log.Keys + {key}
            && (u in after ==>
                  after[u] == if u == key then before + [Handler(t.origType, guid, t.namespaces, selector, id)]
                              else before)
  {
    assert [t][..0] == [];
    assert AddedAll(log, [], special, guid, selector, id) == log;
  }

  // The node reached from the target by going up k times.
  function Above(event: Event, n: Node, k: nat): Option<Node> {
    if k == 0 then Some(n)
    else
      match Above(event, n, k - 1)
      case None => None
      case Some(m) => if m in event.parent then Some(event.parent[m]) else None
  }

  lemma {:induction false} AboveFirst(event: Event, n: Node, k: nat)
    ensures Above(event, n, k + 1) == if n in event.parent then Above(event, event.parent[n], k) else None
  {
    if k == 0 {
      assert Above(event, n, 1) == if n in event.parent then Some(event.parent[n]) else None;
    } else {
      AboveFirst(event, n, k - 1);
    }
  }

  // Up to the k-th node the handling element has not been reached.
  ghost predicate NotYet(event: Event, n: Node, this_: Node, k: nat) {
    forall j: nat :: j <= k ==> Above(event, n, j) != Some(this_)
  }

  lemma NotYetFirst(event: Event, n: Node, this_: Node, k: nat)
    requires n in event.parent
    ensures NotYet(event, n, this_, k + 1) <==> n != this_ && NotYet(event, event.parent[n], this_, k)
  {
    forall j: nat
      ensures Above(event, n, j + 1) == Above(event, event.parent[n], j)
    {
      AboveFirst(event, n, j);
    }
    assert Above(event, n, 0) == Some(n);
    if n != this_ && NotYet(event, event.parent[n], this_, k) {
      forall j: nat | j <= k + 1
        ensures Above(event, n, j) != Some(this_)
      {
        assert j > 0 ==> Above(event, n, (j - 1) + 1) == Above(event, event.parent[n], j - 1);
      }
    }
  }

  // The nodes below the handling element that an event passes, nearest to the target first.
  lemma {:induction false} PathExactly(event: Event, n: Node, this_: Node, k: nat)
    requires event.Valid()
    ensures var path := Path(event, n, this_);
            && (k < |path| <==> Above(event, n, k).Some? && NotYet(event, n, this_, k))
            && (k < |path| ==> Above(event, n, k) == Some(path[k]))
    decreases event.depth(n), k
  {
    hide NotYet;
    if n == this_ {
      AtOnce(event, n, k);
    } else if k == 0 {
      NeverYet(event, n, this_);
    } else {
      AboveFirst(event, n, k - 1);
      if n in event.parent {
        PathExactly(event, event.parent[n], this_, k - 1);
        NotYetFirst(event, n, this_, k - 1);
        assert Path(event, n, this_) == [n] + Path(event, event.parent[n], this_);
      } else {
        assert Path(event, n, this_) == [n];
      }
    }
  }

  lemma AtOnce(event: Event, n: Node, k: nat)
    ensures !NotYet(event, n, n, k)
  {
    assert Above(event, n, 0) == Some(n);
  }

  lemma NeverYet(event: Event, n: Node, this_: Node)
    requires n != this_
    ensures NotYet(event, n, this_, 0)
  {
  }

  // A handler is due on a node: its namespaces allow it, and it is a direct one of the handling
  // element, or a delegated one that selects a node the event has passed.
  ghost predicate Due(c: Call, order: seq<Handler>, event: Event, this_: Node)
    requires event.Valid()
  {
    && c.handler in order
    && (if event.namespaces == {} then !event.exclusive || c.handler.namespaces == {}
        else forall n <- event.namespaces :: n in c.handler.namespaces)
    && match c.handler.selector
       case None => c.elem == this_
       case Some(sel) =>
         && !event.noDelegates && !event.skips(c.elem) && event.selects(sel, c.elem)
         && c.elem in Path(event, event.target, this_)
  }

  lemma {:induction false} CallsMember(elem: Node, matches: seq<Handler>, t: Test, c: Call)
    ensures c in Calls(elem, matches, t) <==> c.elem == elem && c.handler in matches && Passes(t, c.handler)
  {
    hide Passes;
    if matches != [] {
      CallsMember(elem, matches[1..], t, c);
    }
  }

  lemma {:induction false} AllCallsConcat(a: seq<Matched>, b: seq<Matched>, t: Test)
    ensures AllCalls(a + b, t) == AllCalls(a, t) + AllCalls(b, t)
  {
    if a == [] {
      assert a + b == b;
    } else {
      assert (a + b)[1..] == a[1..] + b;
      AllCallsConcat(a[1..], b, t);
    }
  }

  lemma {:induction false} UpwardMember(order: seq<Handler>, event: Event, path: seq<Node>, t: Test, c: Call)
    ensures c in AllCalls(Upward(order, event, path), t) <==>
              && c.elem in path && c.handler in order && Passes(t, c.handler) && !event.skips(c.elem)
              && Passes(Selected(event.selects, c.elem), c.handler)
  {
    hide Passes;
    if path != [] {
      var here := Here(order, event, path[0]);
      AllCallsConcat(here, Upward(order, event, path[1..]), t);
      UpwardMember(order, event, path[1..], t, c);
      var matches := Filter(order, Selected(event.selects, path[0]));
      FilterMember(order, Selected(event.selects, path[0]), c.handler);
      CallsMember(path[0], matches, t, c);
      if here != [] {
        assert here[1..] == [];
        assert AllCalls(here, t) == Calls(path[0], matches, t) + AllCalls(here[1..], t);
      }
    }
  }

  // All calls of a dispatch are those due, and only they.
  lemma CallsExactly(order: seq<Handler>, event: Event, this_: Node, c: Call)
    requires event.Valid()
    ensures c in AllCalls(QueueOf(order, event, this_), Allowed(event)) <==> Due(c, order, event, this_)
  {
    hide Filter, Path, Calls, Upward;
    var t := Allowed(event);
    var path := Path(event, event.target, this_);
    var direct := Filter(order, Direct);
    var up: seq<Matched> := if event.noDelegates then [] else Upward(order, event, path);
    var last: seq<Matched> := if direct == [] then [] else [Matched(this_, direct)];
    AllCallsConcat(up, last, t);
    UpwardMember(order, event, path, t, c);
    FilterMember(order, Direct, c.handler);
    CallsMember(this_, direct, t, c);
    if direct != [] {
      assert last[1..] == [];
      assert AllCalls(last, t) == Calls(this_, direct, t) + AllCalls(last[1..], t);
    }
    assert AllCalls([], t) == [];
    NamespacesAllow(event, c.handler);
  }

  lemma NamespacesAllow(event: Event, h: Handler)
    ensures Passes(Allowed(event), h) <==>
              if event.namespaces == {} then !event.exclusive || h.namespaces == {}
              else forall n <- event.namespaces :: n in h.namespaces
  {
  }

  // Elements are served from the target upwards, the handling element last.
  lemma {:induction false} UpwardOrder(order: seq<Handler>, event: Event, path: seq<Node>, i: nat, j: nat)
    returns (a: nat, b: nat)
    requires i < j < |Upward(order, event, path)|
    ensures a < b < |path|
    ensures Upward(order, event, path)[i].elem == path[a] && Upward(order, event, path)[j].elem == path[b]
  {
    var here, rest := Here(order, event, path[0]), Upward(order, event, path[1..]);
    if here == [] {
      a, b := UpwardOrder(order, event, path[1..], i, j);
      a, b := a + 1, b + 1;
    } else if i > 0 {
      a, b := UpwardOrder(order, event, path[1..], i - 1, j - 1);
      a, b := a + 1, b + 1;
    } else {
      b := UpwardAt(order, event, path[1..], j - 1);
      a, b := 0, b + 1;
    }
  }

  lemma {:induction false} UpwardAt(order: seq<Handler>, event: Event, path: seq<Node>, i: nat) returns (a: nat)
    requires i < |Upward(order, event, path)|
    ensures a < |path| && Upward(order, event, path)[i].elem == path[a]
  {
    var here := Here(order, event, path[0]);
    if i < |here| {
      a := 0;
    } else {
      a := UpwardAt(order, event, path[1..], i - |here|);
      a := a + 1;
    }
  }

  lemma ServedUpwards(order: seq<Handler>, event: Event, this_: Node, i: nat, j: nat) returns (a: nat, b: nat)
    requires event.Valid() && i < j < |QueueOf(order, event, this_)|
    ensures var queue, path := QueueOf(order, event, this_), Path(event, event.target, this_);
            && a < |path| && queue[i].elem == path[a]
            && if j == |queue| - 1 && queue[j].elem == this_ then true
               else a < b < |path| && queue[j].elem == path[b]
  {
    var path := Path(event, event.target, this_);
    var up: seq<Matched> := if event.noDelegates then [] else Upward(order, event, path);
    b := 0;
    if j < |up| {
      a, b := UpwardOrder(order, event, path, i, j);
    } else {
      a := UpwardAt(order, event, path, i);
    }
  }

  // Nothing is called after a handler that stops the event at once, and no further element after
  // one that stops it.
  lemma {:induction false} NoneAfterStop(queue: seq<Matched>, t: Test, effects: nat -> Effect, k: nat, i: nat, j: nat)
    requires i < j < |Ran(queue, t, effects, k)|
    ensures var ran := Ran(queue, t, effects, k);
            !effects(k + i).immediately && (effects(k + i).stops ==> ran[j].elem == ran[i].elem)
  {
    hide Passes, RanHere, Calls, Stopped;
    var here := RanHere(queue[0].elem, queue[0].matches, t, effects, k);
    HereAlike(queue[0], t, effects, k);
    if i >= |here| {
      NoneAfterStop(queue[1..], t, effects, k + |here|, i - |here|, j - |here|);
    } else if j >= |here| {
      NotStopped(effects, k, k + |here|, k + i);
    }
  }

  lemma NotStopped(effects: nat -> Effect, from: nat, to: nat, i: nat)
    requires !Stopped(effects, from, to) && from <= i < to
    ensures !effects(i).stops && !effects(i).immediately
  {
    assert !Stops(effects(i));
  }

  // The calls on one element are on that element, and only the last may stop the event at once.
  lemma HereAlike(m: Matched, t: Test, effects: nat -> Effect, k: nat)
    ensures var here := RanHere(m.elem, m.matches, t, effects, k);
            && (forall i :: 0 <= i < |here| ==> here[i].elem == m.elem)
            && (forall i :: k <= i < k + |here| - 1 ==> !effects(i).immediately)
            && (here != Calls(m.elem, m.matches, t) ==> here != [] && effects(k + |here| - 1).immediately)
  {
    hide Passes, RanHere, Calls;
    RanHereExactly(m.elem, m.matches, t, effects, k);
    SameElement(m.elem, m.matches, t);
    var here, all := RanHere(m.elem, m.matches, t, effects, k), Calls(m.elem, m.matches, t);
    assert forall i :: 0 <= i < |here| ==> here[i] == all[i] && all[i] in all;
  }

  lemma {:induction false} SameElement(elem: Node, matches: seq<Handler>, t: Test)
    ensures forall c <- Calls(elem, matches, t) :: c.elem == elem
  {
    hide Passes;
    if matches != [] {
      SameElement(elem, matches[1..], t);
    }
  }

  ghost predicate NoneAtOnce(effects: nat -> Effect, from: nat, to: nat) {
    forall i :: from <= i < to ==> !effects(i).immediately
  }

  // If no handler stops the event at once, the elements up to some point are served to the end of
  // their handlers; all of them, if no handler stops the event.
  lemma {:induction false} ServedWhole(queue: seq<Matched>, t: Test, effects: nat -> Effect, k: nat) returns (m: nat)
    requires NoneAtOnce(effects, k, k + |Ran(queue, t, effects, k)|)
    ensures m <= |queue| && Ran(queue, t, effects, k) == AllCalls(queue[..m], t)
    ensures m == |queue| || exists i :: k <= i < k + |Ran(queue, t, effects, k)| && effects(i).stops
  {
    hide Passes, RanHere, Calls, Stopped;
    if queue == [] {
      m := 0;
    } else {
      var here := RanHere(queue[0].elem, queue[0].matches, t, effects, k);
      HereAlike(queue[0], t, effects, k);
      var all := Calls(queue[0].elem, queue[0].matches, t);
      var later := Ran(queue[1..], t, effects, k + |here|);
      assert here == all;
      assert queue[..1] == [queue[0]] && [queue[0]][1..] == [];
      if Stopped(effects, k, k + |here|) {
        m := 1;
        var j := StoppedAt(effects, k, k + |here|);
        assert AllCalls(queue[..1], t) == all + AllCalls([], t);
      } else {
        m := ServedWhole(queue[1..], t, effects, k + |here|);
        m := m + 1;
        assert queue[..m][1..] == queue[1..][..m - 1] && queue[..m][0] == queue[0];
        assert AllCalls(queue[..m], t) == all + AllCalls(queue[1..][..m - 1], t);
      }
    }
  }

  lemma StoppedAt(effects: nat -> Effect, from: nat, to: nat) returns (j: nat)
    requires Stopped(effects, from, to)
    ensures from <= j < to && (effects(j).stops || effects(j).immediately)
  {
    j :| from <= j < to && Stops(effects(j));
  }
}
