// jQuery's handler lists: delegated handlers in front, and the order in which dispatch runs
// them.
module EventHandlers {
  import opened Wrappers
  import opened Sequences

  type Node = nat

  // A bound handler; id tells bindings of the same function apart.
  datatype Handler = Handler(origType: string, guid: nat, namespaces: set<string>, selector: Option<string>, id: nat)

  // What to unbind.
  datatype Query = Query(origType: Option<string>, guid: Option<nat>, namespaces: set<string>, selector: Option<string>)

  predicate Matches(h: Handler, q: Query) {
    && (q.origType.None? || q.origType.value == h.origType)
    && (q.guid.None? || q.guid.value == h.guid)
    && q.namespaces <= h.namespaces
    && (q.selector.None? || q.selector == h.selector || (q.selector.value == "**" && h.selector.Some?))
  }

  datatype Test =
    | Delegated
    | Direct
    | Spared(q: Query)
    | Selected(selects: (string, Node) -> bool, at: Node)
    | InNamespace(runAll: bool, namespaces: set<string>)

  predicate Passes(t: Test, h: Handler) {
    match t
    case Delegated => h.selector.Some?
    case Direct => h.selector.None?
    case Spared(q) => !Matches(h, q)
    case Selected(selects, at) => h.selector.Some? && selects(h.selector.value, at)
    case InNamespace(runAll, namespaces) =>
      runAll || (namespaces == {} && h.namespaces == {}) || (namespaces != {} && namespaces <= h.namespaces)
  }

  function Filter(hs: seq<Handler>, t: Test): (kept: seq<Handler>)
    ensures |kept| <= |hs|
  {
    if hs == [] then []
    else Filter(hs[..|hs| - 1], t) + if Passes(t, hs[|hs| - 1]) then [hs[|hs| - 1]] else []
  }

  lemma {:induction false} FilterMember(hs: seq<Handler>, t: Test, h: Handler)
    ensures h in Filter(hs, t) <==> h in hs && Passes(t, h)
  {
    if hs != [] {
      assert hs == hs[..|hs| - 1] + [hs[|hs| - 1]];
      FilterMember(hs[..|hs| - 1], t, h);
    }
  }

  lemma {:induction false} FilterConcat(a: seq<Handler>, b: seq<Handler>, t: Test)
    ensures Filter(a + b, t) == Filter(a, t) + Filter(b, t)
  {
    if b == [] {
      assert a + b == a;
    } else {
      assert (a + b)[..|a + b| - 1] == a + b[..|b| - 1];
      FilterConcat(a, b[..|b| - 1], t);
    }
  }

  lemma {:induction false} FilterCommutes(hs: seq<Handler>, s: Test, t: Test)
    ensures Filter(Filter(hs, s), t) == Filter(Filter(hs, t), s)
  {
    if hs != [] {
      var before, last := hs[..|hs| - 1], hs[|hs| - 1];
      FilterCommutes(before, s, t);
      FilterTwice(before, last, s, t);
      FilterTwice(before, last, t, s);
    }
  }

  lemma FilterTwice(hs: seq<Handler>, last: Handler, s: Test, t: Test)
    ensures Filter(Filter(hs + [last], s), t) ==
            Filter(Filter(hs, s), t) + if Passes(s, last) && Passes(t, last) then [last] else []
  {
    hide Passes;
    assert (hs + [last])[..|hs|] == hs;
    FilterConcat(Filter(hs, s), [last], t);
    assert Filter([last], t) == if Passes(t, last) then [last] else [];
    if !Passes(s, last) {
      assert Filter(hs + [last], s) == Filter(hs, s);
    }
  }

  // Handlers of one kind only.
  ghost predicate All(hs: seq<Handler>, t: Test) {
    forall i :: 0 <= i < |hs| ==> Passes(t, hs[i])
  }

  lemma {:induction false} FilterKeeps(hs: seq<Handler>, t: Test)
    ensures All(Filter(hs, t), t)
  {
    if hs != [] {
      FilterKeeps(hs[..|hs| - 1], t);
    }
  }

  lemma {:induction false} FilterAll(hs: seq<Handler>, t: Test)
    requires All(hs, t)
    ensures Filter(hs, t) == hs
  {
    if hs != [] {
      assert All(hs[..|hs| - 1], t);
      FilterAll(hs[..|hs| - 1], t);
      hide Passes;
    }
  }

  lemma {:induction false} FilterNone(hs: seq<Handler>)
    requires All(hs, Direct)
    ensures Filter(hs, Delegated) == []
  {
    if hs != [] {
      FilterNone(hs[..|hs| - 1]);
    }
  }

  // A handler list, and the property that tells how many of it are delegated.
  datatype Bound = Bound(handlers: seq<Handler>, delegateCount: nat)

  // The list for handlers bound in this order: the delegated ones in front, each part in order.
  function Arranged(order: seq<Handler>): Bound {
    Bound(Filter(order, Delegated) + Filter(order, Direct), |Filter(order, Delegated)|)
  }

  // Each part of the list is what was bound of its kind, in order.
  lemma {:induction false} Parts(order: seq<Handler>)
    ensures var b := Arranged(order);
            && b.handlers[..b.delegateCount] == Filter(order, Delegated)
            && b.handlers[b.delegateCount..] == Filter(order, Direct)
            && |b.handlers| == |order|
            && b.delegateCount == |Filter(b.handlers, Delegated)|
  {
    if order != [] {
      Parts(order[..|order| - 1]);
    }
    PartsAgain(order);
  }

  function AddOf(b: Bound, h: Handler): Bound
    requires b.delegateCount <= |b.handlers|
  {
    if h.selector.Some? then
      Bound(b.handlers[..b.delegateCount] + [h] + b.handlers[b.delegateCount..], b.delegateCount + 1)
    else Bound(b.handlers + [h], b.delegateCount)
  }

  // Binding one more.
  lemma AddArranged(order: seq<Handler>, h: Handler)
    ensures AddOf(Arranged(order), h) == Arranged(order + [h])
  {
    Parts(order);
    assert (order + [h])[..|order|] == order;
    var d, r := Filter(order, Delegated), Filter(order, Direct);
    assert Filter(order + [h], Delegated) == d + if h.selector.Some? then [h] else [];
    assert Filter(order + [h], Direct) == r + if h.selector.None? then [h] else [];
    hide Filter;
    assert d + [h] + r == AddOf(Arranged(order), h).handlers || h.selector.None?;
  }

  // The loop that splices matching handlers out of a list.
  method RemoveMatching(b: Bound, q: Query) returns (r: Bound)
    requires b.delegateCount == |Filter(b.handlers, Delegated)|
    ensures r.handlers == Filter(b.handlers, Spared(q)) && r.delegateCount == |Filter(r.handlers, Delegated)|
  {
    hide Filter, Matches;
    var eventType, delegateCount := b.handlers, b.delegateCount;
    var j := 0;
    ghost var n := 0;
    FilterEmpty(Spared(q));
    while j < |eventType|
      invariant 0 <= j <= |eventType| && 0 <= n <= |b.handlers|
      invariant eventType[..j] == Filter(b.handlers[..n], Spared(q)) && eventType[j..] == b.handlers[n..]
      invariant delegateCount == |Filter(eventType, Delegated)|
    {
      var handleObj := eventType[j];
      FilterNext(b.handlers, n, Spared(q));
      assert eventType[..j + 1] == eventType[..j] + [handleObj] && eventType[j + 1..] == b.handlers[n + 1..];
      if Matches(handleObj, q) {
        Splice(eventType, j);
        assert (eventType[..j] + eventType[j + 1..])[..j] == eventType[..j];
        assert (eventType[..j] + eventType[j + 1..])[j..] == eventType[j + 1..];
        eventType := eventType[..j] + eventType[j + 1..];
        if handleObj.selector.Some? {
          delegateCount := delegateCount - 1;
        }
      } else {
        j := j + 1;
      }
      n := n + 1;
    }
    assert eventType[..j] == eventType && b.handlers[..n] == b.handlers;
    r := Bound(eventType, delegateCount);
  }

  lemma FilterEmpty(t: Test)
    ensures Filter([], t) == []
  {
  }

  lemma FilterNext(hs: seq<Handler>, n: nat, t: Test)
    requires n < |hs|
    ensures Filter(hs[..n + 1], t) == Filter(hs[..n], t) + if Passes(t, hs[n]) then [hs[n]] else []
  {
    assert hs[..n + 1][..n] == hs[..n];
  }

  lemma Splice(hs: seq<Handler>, j: nat)
    requires j < |hs|
    ensures |Filter(hs, Delegated)| ==
              |Filter(hs[..j] + hs[j + 1..], Delegated)| + if hs[j].selector.Some? then 1 else 0
  {
    assert hs == hs[..j] + [hs[j]] + hs[j + 1..];
    FilterConcat(hs[..j] + [hs[j]], hs[j + 1..], Delegated);
    FilterConcat(hs[..j], [hs[j]], Delegated);
    FilterConcat(hs[..j], hs[j + 1..], Delegated);
  }

  // Unbinding keeps the arrangement.
  lemma RemoveArranged(order: seq<Handler>, q: Query)
    ensures var left := Filter(Arranged(order).handlers, Spared(q));
            Bound(left, |Filter(left, Delegated)|) == Arranged(Filter(order, Spared(q)))
    ensures |Filter(Arranged(order).handlers, Delegated)| == Arranged(order).delegateCount
  {
    var d, r := Filter(order, Delegated), Filter(order, Direct);
    FilterConcat(d, r, Spared(q));
    FilterCommutes(order, Delegated, Spared(q));
    FilterCommutes(order, Direct, Spared(q));
    var after := Filter(order, Spared(q));
    PartsAgain(order);
    PartsAgain(after);
  }

  lemma PartsAgain(order: seq<Handler>)
    ensures Filter(Filter(order, Delegated) + Filter(order, Direct), Delegated) == Filter(order, Delegated)
  {
    FilterConcat(Filter(order, Delegated), Filter(order, Direct), Delegated);
    FilterKeeps(order, Delegated);
    FilterKeeps(order, Direct);
    FilterAll(Filter(order, Delegated), Delegated);
    FilterNone(Filter(order, Direct));
  }

  // What was bound, per type, in order of binding.
  type Log = map<string, seq<Handler>>

  function Added(log: Log, key: string, h: Handler): Log {
    log[key := (if key in log then log[key] else []) + [h]]
  }

  function Removed(log: Log, key: string, q: Query): Log {
    if key !in log then log
    else if Filter(log[key], Spared(q)) == [] then log - {key}
    else log[key := Filter(log[key], Spared(q))]
  }

  // The same for all types of a set.
  function RemovedSet(log: Log, keys: set<string>, q: Query): Log {
    map k | k in log && (k in keys ==> Filter(log[k], Spared(q)) != []) ::
      if k in keys then Filter(log[k], Spared(q)) else log[k]
  }

  lemma RemovedStep(log: Log, keys: set<string>, key: string, q: Query)
    ensures Removed(RemovedSet(log, keys, q), key, q) == RemovedSet(log, keys + {key}, q)
    ensures RemovedSet(log, {}, q) == log
  {
    assert RemovedSet(log, {}, q) == log;
    if key in log && key in keys {
      RemovedAgain(log, keys, key, q);
    } else {
      RemovedFirst(log, keys, key, q);
    }
  }

  lemma RemovedFirst(log: Log, keys: set<string>, key: string, q: Query)
    requires key in log ==> key !in keys
    ensures Removed(RemovedSet(log, keys, q), key, q) == RemovedSet(log, keys + {key}, q)
  {
    hide Filter;
    var before, after := RemovedSet(log, keys, q), RemovedSet(log, keys + {key}, q);
    if key !in log {
      assert after == before;
    } else if Filter(log[key], Spared(q)) == [] {
      assert after == before - {key};
    } else {
      assert after == before[key := Filter(log[key], Spared(q))];
    }
  }

  lemma RemovedAgain(log: Log, keys: set<string>, key: string, q: Query)
    requires key in log && key in keys
    ensures Removed(RemovedSet(log, keys, q), key, q) == RemovedSet(log, keys + {key}, q)
  {
    hide Filter;
    FilterKeeps(log[key], Spared(q));
    FilterAll(Filter(log[key], Spared(q)), Spared(q));
    var before := RemovedSet(log, keys, q);
    assert keys + {key} == keys;
    assert key in before ==> before[key := before[key]] == before;
  }

  // A type with its namespaces; unbinding may leave the type out.
  datatype Typed = Typed(origType: string, namespaces: set<string>)
  datatype Name = Name(origType: Option<string>, namespaces: set<string>)

  // The type under which handlers are kept (delegateType and bindType of special types).
  type Special = (string, bool) -> string

  function AddedAll(log: Log, types: seq<Typed>, special: Special, guid: nat, selector: Option<string>, id: nat): Log {
    if types == [] then log
    else
      var t := types[|types| - 1];
      Added(AddedAll(log, types[..|types| - 1], special, guid, selector, id), special(t.origType, selector.Some?),
            Handler(t.origType, guid, t.namespaces, selector, id))
  }

  ghost function RemovedName(log: Log, name: Name, special: Special, guid: Option<nat>, selector: Option<string>,
                             mapped: bool): Log
  {
    if name.origType.Some? then
      Removed(log, special(name.origType.value, selector.Some?),
              Query(if mapped then None else name.origType, guid, name.namespaces, selector))
    else
      RemovedSet(log, set u | u in log :: special(u, selector.Some?), Query(None, guid, name.namespaces, selector))
  }

  ghost function RemovedAll(log: Log, types: seq<Name>, special: Special, guid: Option<nat>, selector: Option<string>,
                            mapped: bool): Log
  {
    if types == [] then log
    else RemovedName(RemovedAll(log, types[..|types| - 1], special, guid, selector, mapped),
                     types[|types| - 1], special, guid, selector, mapped)
  }

  // The handlers of one element.
  class Events {
    const special: Special
    var events: map<string, Bound>
    ghost var log: Log

    ghost predicate Valid()
      reads this
    {
      && events.Keys == log.Keys
      && (forall t <- log :: log[t] != [] && events[t] == Arranged(log[t]))
      && (forall t, b :: special(special(t, b), b) == special(t, b))
    }

    constructor (special: Special)
      requires forall t, b :: special(special(t, b), b) == special(t, b)
      ensures Valid() && log == map[] && this.special == special
    {
      this.special := special;
      events, log := map[], map[];
    }

    // Binding to one type.
    method AddType(key: string, handleObj: Handler)
      requires Valid()
      modifies this
      ensures Valid() && log == Added(old(log), key, handleObj)
    {
      hide Arranged, AddOf;
      if key !in events {
        events := events[key := Bound([], 0)];
      }
      ghost var order := if key in log then log[key] else [];
      Empty();
      Parts(order);
      AddArranged(order, handleObj);
      events := events[key := AddOf(events[key], handleObj)];
      log := Added(log, key, handleObj);
    }

    // jQuery.event.add
    method Add(types: seq<Typed>, guid: nat, selector: Option<string>, id: nat)
      requires Valid()
      modifies this
      ensures Valid() && log == AddedAll(old(log), types, special, guid, selector, id)
    {
      hide Arranged, Added;
      for i := 0 to |types|
        invariant Valid() && log == AddedAll(old(log), types[..i], special, guid, selector, id)
      {
        assert types[..i + 1][..i] == types[..i];
        AddType(special(types[i].origType, selector.Some?),
                Handler(types[i].origType, guid, types[i].namespaces, selector, id));
      }
      assert types[..|types|] == types;
    }

    // Unbinding from one type.
    method RemoveType(origType: string, namespaces: set<string>, guid: Option<nat>, selector: Option<string>,
                      mapped: bool)
      requires Valid()
      modifies this
      ensures Valid()
      ensures log == Removed(old(log), special(origType, selector.Some?),
                             Query(if mapped then None else Some(origType), guid, namespaces, selector))
    {
      hide Arranged, Filter;
      var key := special(origType, selector.Some?);
      var q := Query(if mapped then None else Some(origType), guid, namespaces, selector);
      if key in events {
        RemoveArranged(log[key], q);
        var origCount := |events[key].handlers|;
        var left := RemoveMatching(events[key], q);
        ArrangedEmpty(log[key]);
        ArrangedEmpty(Filter(log[key], Spared(q)));
        log := Removed(log, key, q);
        events := events[key := left];
        if |left.handlers| == 0 && origCount != |left.handlers| {
          events := events - {key};
        }
      }
    }

    // jQuery.event.remove
    method Remove(types: seq<Name>, guid: Option<nat>, selector: Option<string>, mapped: bool)
      requires Valid()
      modifies this
      ensures Valid() && log == RemovedAll(old(log), types, special, guid, selector, mapped)
    {
      hide Arranged, Filter, Removed, RemovedSet;
      for t := 0 to |types|
        invariant Valid() && log == RemovedAll(old(log), types[..t], special, guid, selector, mapped)
      {
        assert types[..t + 1][..t] == types[..t];
        if types[t].origType.Some? {
          RemoveType(types[t].origType.value, types[t].namespaces, guid, selector, mapped);
        } else {
          RemoveEverywhere(types[t].namespaces, guid, selector);
        }
      }
      assert types[..|types|] == types;
    }

    // Unbinding from all types; a type that has gone meanwhile is not visited.
    method RemoveEverywhere(namespaces: set<string>, guid: Option<nat>, selector: Option<string>)
      requires Valid()
      modifies this
      ensures Valid()
      ensures log == RemovedSet(old(log), set u | u in old(log) :: special(u, selector.Some?),
                                Query(None, guid, namespaces, selector))
    {
      hide Arranged, Filter, Removed, RemovedSet;
      ghost var q := Query(None, guid, namespaces, selector);
      var keys := events.Keys;
      ghost var seen: set<string> := {};
      RemovedStep(log, {}, "", q);
      while keys != {}
        invariant keys <= old(log).Keys
        invariant Valid() && log == RemovedSet(old(log), seen, q)
        invariant seen == set u | u in old(log) && u !in keys :: special(u, selector.Some?)
        decreases keys
      {
        var type_ :| type_ in keys;
        ghost var key := special(type_, selector.Some?);
        RemovedStep(old(log), seen, key, q);
        keys := keys - {type_};
        if type_ in events {
          RemoveType(type_, namespaces, guid, selector, true);
        } else {
          Gone(old(log), seen, type_, q);
          assert key in seen && seen + {key} == seen;
        }
        assert seen + {key} == set u | u in old(log) && u !in keys :: special(u, selector.Some?);
        seen := seen + {key};
      }
      assert seen == set u | u in old(log) :: special(u, selector.Some?);
    }
  }

  lemma Empty()
    ensures Arranged([]) == Bound([], 0)
  {
  }

  // What dispatch queues for an element: a type nothing was bound for has an empty list.
  method Dispatch(bound: Events, eventType: string, event: Event, this_: Node) returns (handlerQueue: seq<Matched>)
    requires bound.Valid() && event.Valid()
    ensures handlerQueue == QueueOf(if eventType in bound.log then bound.log[eventType] else [], event, this_)
  {
    Empty();
    ghost var order := if eventType in bound.log then bound.log[eventType] else [];
    hide Arranged, QueueOf;
    var handlers := if eventType in bound.events then bound.events[eventType] else Bound([], 0);
    handlerQueue := HandlerQueue(handlers, event, this_, order);
  }

  lemma ArrangedEmpty(order: seq<Handler>)
    ensures Arranged(order).handlers == [] <==> order == []
  {
    Parts(order);
  }

  // Only a type that was visited can have lost all its handlers.
  lemma Gone(log: Log, keys: set<string>, key: string, q: Query)
    requires key in log && key !in RemovedSet(log, keys, q)
    ensures key in keys
  {
  }

  // The event being dispatched, as far as the handler lists are concerned: where it happened,
  // the links upwards, which nodes are to be skipped, and what selectors select.
  datatype Event = Event(
    target: Node,
    parent: map<Node, Node>,
    depth: Node -> nat,
    noDelegates: bool,                // a click with another button than the left one
    skips: Node -> bool,              // clicks on disabled elements
    selects: (string, Node) -> bool,
    exclusive: bool,
    namespaces: set<string>)
  {
    ghost predicate Valid() {
      forall n <- parent :: depth(parent[n]) < depth(n)
    }
  }

  // From the target up to the element that handles the event, which is not included.
  ghost function Path(event: Event, cur: Node, this_: Node): seq<Node>
    requires event.Valid()
    decreases event.depth(cur)
  {
    if cur == this_ then []
    else [cur] + if cur in event.parent then Path(event, event.parent[cur], this_) else []
  }

  datatype Matched = Matched(elem: Node, matches: seq<Handler>)

  // The delegated handlers for one node on the way up, in order of binding.
  ghost function Here(order: seq<Handler>, event: Event, cur: Node): seq<Matched> {
    var matches := Filter(order, Selected(event.selects, cur));
    if event.skips(cur) || matches == [] then [] else [Matched(cur, matches)]
  }

  ghost function Upward(order: seq<Handler>, event: Event, path: seq<Node>): seq<Matched> {
    if path == [] then [] else Here(order, event, path[0]) + Upward(order, event, path[1..])
  }

  // What runs: from the target upwards the delegated handlers that select the node, then the
  // direct handlers, each in order of binding.
  ghost function QueueOf(order: seq<Handler>, event: Event, this_: Node): seq<Matched>
    requires event.Valid()
  {
    (if event.noDelegates then [] else Upward(order, event, Path(event, event.target, this_)))
    + if Filter(order, Direct) == [] then [] else [Matched(this_, Filter(order, Direct))]
  }

  lemma {:induction false} SelectedDelegates(order: seq<Handler>, selects: (string, Node) -> bool, at: Node)
    ensures Filter(Filter(order, Delegated), Selected(selects, at)) == Filter(order, Selected(selects, at))
  {
    if order != [] {
      var before, last := order[..|order| - 1], order[|order| - 1];
      SelectedDelegates(before, selects, at);
      FilterTwice(before, last, Delegated, Selected(selects, at));
      assert order == before + [last];
    }
  }

  lemma {:induction false} NoDelegates(order: seq<Handler>, event: Event, path: seq<Node>)
    requires Filter(order, Delegated) == []
    ensures Upward(order, event, path) == []
  {
    if path != [] {
      SelectedDelegates(order, event.selects, path[0]);
      NoDelegates(order, event, path[1..]);
    }
  }

  // The delegated handlers for one node; a selector is tried once.
  method MatchesAt(handlers: seq<Handler>, delegateCount: nat, selects: (string, Node) -> bool, cur: Node)
    returns (matches: seq<Handler>)
    requires delegateCount <= |handlers| && All(handlers[..delegateCount], Delegated)
    ensures matches == Filter(handlers[..delegateCount], Selected(selects, cur))
  {
    var selMatch: map<string, bool> := map[];
    matches := [];
    for i := 0 to delegateCount
      invariant matches == Filter(handlers[..i], Selected(selects, cur))
      invariant forall sel <- selMatch :: selMatch[sel] == selects(sel, cur)
    {
      assert handlers[..i + 1][..i] == handlers[..i];
      var handleObj := handlers[i];
      assert handlers[..delegateCount][i] == handleObj;
      var sel := handleObj.selector.value;
      if sel !in selMatch {
        selMatch := selMatch[sel := selects(sel, cur)];
      }
      if selMatch[sel] {
        matches := matches + [handleObj];
      }
    }
  }

  // What one node on the way up adds to the queue.
  method QueueHere(b: Bound, event: Event, cur: Node, ghost order: seq<Handler>) returns (here: seq<Matched>)
    requires b == Arranged(order)
    ensures here == Here(order, event, cur)
  {
    here := [];
    if !event.skips(cur) {
      Parts(order);
      FilterKeeps(order, Delegated);
      SelectedDelegates(order, event.selects, cur);
      var matches := MatchesAt(b.handlers, b.delegateCount, event.selects, cur);
      if matches != [] {
        here := [Matched(cur, matches)];
      }
    }
  }

  // From the target upwards.
  method DelegateQueue(b: Bound, event: Event, this_: Node, ghost order: seq<Handler>)
    returns (handlerQueue: seq<Matched>)
    requires event.Valid() && b == Arranged(order)
    ensures handlerQueue == Upward(order, event, Path(event, event.target, this_))
  {
    hide Arranged, Filter, Here;
    ghost var path := Path(event, event.target, this_);
    handlerQueue := [];
    var cur: Node := event.target;
    ghost var left := path;
    while cur != this_
      invariant left == Path(event, cur, this_)
      invariant handlerQueue + Upward(order, event, left) == Upward(order, event, path)
      decreases |left|
    {
      var here := QueueHere(b, event, cur, order);
      Associative(handlerQueue, here, Upward(order, event, left[1..]));
      handlerQueue := handlerQueue + here;
      left := left[1..];
      cur := if cur in event.parent then event.parent[cur] else this_;
    }
  }

  // The first half of jQuery.event.dispatch: the queue of handlers.
  method HandlerQueue(b: Bound, event: Event, this_: Node, ghost order: seq<Handler>)
    returns (handlerQueue: seq<Matched>)
    requires event.Valid() && b == Arranged(order)
    ensures handlerQueue == QueueOf(order, event, this_)
  {
    Parts(order);
    hide Filter, Upward, Path;
    handlerQueue := [];
    if b.delegateCount > 0 && !event.noDelegates {
      handlerQueue := DelegateQueue(b, event, this_, order);
    } else if !event.noDelegates {
      NoDelegates(order, event, Path(event, event.target, this_));
    }
    if |b.handlers| > b.delegateCount {
      handlerQueue := handlerQueue + [Matched(this_, b.handlers[b.delegateCount..])];
    }
  }

  // What a handler may do to the event: stop it from going on to further elements, or at once.
  datatype Effect = Effect(stops: bool, immediately: bool)

  datatype Call = Call(elem: Node, handler: Handler)

  // All calls the queue asks for.
  function Calls(elem: Node, matches: seq<Handler>, t: Test): seq<Call> {
    if matches == [] then []
    else (if Passes(t, matches[0]) then [Call(elem, matches[0])] else []) + Calls(elem, matches[1..], t)
  }

  function AllCalls(queue: seq<Matched>, t: Test): seq<Call> {
    if queue == [] then [] else Calls(queue[0].elem, queue[0].matches, t) + AllCalls(queue[1..], t)
  }

  // The calls on one element, when the k-th call of all is the first of them.
  function RanHere(elem: Node, matches: seq<Handler>, t: Test, effects: nat -> Effect, k: nat): seq<Call> {
    if matches == [] then []
    else if !Passes(t, matches[0]) then RanHere(elem, matches[1..], t, effects, k)
    else [Call(elem, matches[0])] + if effects(k).immediately then []
         else RanHere(elem, matches[1..], t, effects, k + 1)
  }

  predicate Stops(effect: Effect) {
    effect.stops || effect.immediately
  }

  predicate Stopped(effects: nat -> Effect, from: nat, to: nat) {
    exists k :: from <= k < to && Stops(effects(k))
  }

  function Ran(queue: seq<Matched>, t: Test, effects: nat -> Effect, k: nat): seq<Call> {
    if queue == [] then []
    else
      var here := RanHere(queue[0].elem, queue[0].matches, t, effects, k);
      here + if Stopped(effects, k, k + |here|) then [] else Ran(queue[1..], t, effects, k + |here|)
  }

  // The calls made, of those due: the first ones, and all unless the last call made stops the event
  // at once, which no call before it does.
  ghost predicate CutRightly(ran: seq<Call>, due: seq<Call>, effects: nat -> Effect, k: nat) {
    && ran <= due
    && (ran != due ==> ran != [] && effects(k + |ran| - 1).immediately)
    && forall j :: k <= j < k + |ran| - 1 ==> !effects(j).immediately
  }

  lemma {:induction false} RanHereExactly(elem: Node, matches: seq<Handler>, t: Test, effects: nat -> Effect, k: nat)
    ensures CutRightly(RanHere(elem, matches, t, effects, k), Calls(elem, matches, t), effects, k)
  {
    hide Passes, CutRightly;
    if matches == [] {
      FirstRan([], effects, k);
    } else if Passes(t, matches[0]) {
      var first := Call(elem, matches[0]);
      if effects(k).immediately {
        assert [first] + [] == [first];
        StoppedAtOnce(first, Calls(elem, matches[1..], t), effects, k);
      } else {
        RanHereExactly(elem, matches[1..], t, effects, k + 1);
        OneMoreRan(first, RanHere(elem, matches[1..], t, effects, k + 1), Calls(elem, matches[1..], t), effects, k);
      }
    } else {
      assert [] + Calls(elem, matches[1..], t) == Calls(elem, matches[1..], t);
      RanHereExactly(elem, matches[1..], t, effects, k);
    }
  }

  lemma FirstRan(ran: seq<Call>, effects: nat -> Effect, k: nat)
    ensures |ran| <= 1 ==> CutRightly(ran, ran, effects, k)
  {
  }

  lemma StoppedAtOnce(first: Call, due: seq<Call>, effects: nat -> Effect, k: nat)
    ensures effects(k).immediately ==> CutRightly([first], [first] + due, effects, k)
  {
  }

  // A call that does not stop the event comes before the others.
  lemma OneMoreRan(first: Call, ran: seq<Call>, due: seq<Call>, effects: nat -> Effect, k: nat)
    requires !effects(k).immediately && CutRightly(ran, due, effects, k + 1)
    ensures CutRightly([first] + ran, [first] + due, effects, k)
  {
    assert |[first] + ran| == |ran| + 1;
  }

  lemma StoppedLater(effects: nat -> Effect, from: nat, later: nat, to: nat)
    requires from <= later
    ensures Stopped(effects, later, to) ==> Stopped(effects, from, to)
  {
  }

  // The calls are made in the order of the queue, none is left out before the last one made,
  // and all are made unless a handler stops the event.
  lemma {:induction false} RanExactly(queue: seq<Matched>, t: Test, effects: nat -> Effect, k: nat)
    ensures var ran := Ran(queue, t, effects, k);
            && ran <= AllCalls(queue, t)
            && (ran != AllCalls(queue, t) ==> Stopped(effects, k, k + |ran|))
  {
    hide RanHere, Calls, Passes;
    if queue != [] {
      var here := RanHere(queue[0].elem, queue[0].matches, t, effects, k);
      RanHereExactly(queue[0].elem, queue[0].matches, t, effects, k);
      RanExactly(queue[1..], t, effects, k + |here|);
      if here != Calls(queue[0].elem, queue[0].matches, t) {
        assert Stops(effects(k + |here| - 1));
      } else if !Stopped(effects, k, k + |here|) {
        var more := Ran(queue[1..], t, effects, k + |here|);
        StoppedLater(effects, k, k + |here|, k + |here + more|);
      }
    }
  }

  lemma HereStep(elem: Node, ms: seq<Handler>, j: nat, t: Test, effects: nat -> Effect, k: nat)
    requires j < |ms|
    ensures RanHere(elem, ms[j..], t, effects, k) ==
            if Passes(t, ms[j]) then
              [Call(elem, ms[j])] + if effects(k).immediately then [] else RanHere(elem, ms[j + 1..], t, effects, k + 1)
            else RanHere(elem, ms[j + 1..], t, effects, k)
  {
    hide Passes;
    assert ms[j..][1..] == ms[j + 1..];
  }

  lemma StoppedStep(effects: nat -> Effect, from: nat, to: nat)
    requires from <= to
    ensures !Stopped(effects, from, from)
    ensures Stopped(effects, from, to + 1) == (Stopped(effects, from, to) || Stops(effects(to)))
  {
    if Stops(effects(to)) {
    } else if Stopped(effects, from, to) {
      var k :| from <= k < to && Stops(effects(k));
    }
  }

  // The calls on one element; k calls have been made before.
  method RunMatches(matched: Matched, runAll: bool, namespaces: set<string>, effects: nat -> Effect, k: nat)
    returns (ran: seq<Call>, isPropagationStopped: bool)
    ensures ran == RanHere(matched.elem, matched.matches, InNamespace(runAll, namespaces), effects, k)
    ensures isPropagationStopped == Stopped(effects, k, k + |ran|)
  {
    hide RanHere, Stopped, Passes, Stops;
    StoppedStep(effects, k, k);
    ran, isPropagationStopped := [], false;
    var isImmediatePropagationStopped := false;
    ghost var t := InNamespace(runAll, namespaces);
    ghost var todo := RanHere(matched.elem, matched.matches, t, effects, k);
    ghost var all := todo;
    assert matched.matches[0..] == matched.matches;
    var j := 0;
    while j < |matched.matches| && !isImmediatePropagationStopped
      invariant 0 <= j <= |matched.matches|
      invariant isPropagationStopped == Stopped(effects, k, k + |ran|)
      invariant ran + todo == all
      invariant todo == if isImmediatePropagationStopped then []
                        else RanHere(matched.elem, matched.matches[j..], t, effects, k + |ran|)
    {
      var handleObj := matched.matches[j];
      HereStep(matched.elem, matched.matches, j, t, effects, k + |ran|);
      if Passes(InNamespace(runAll, namespaces), handleObj) {
        var effect := effects(k + |ran|);
        StoppedStep(effects, k, k + |ran|);
        ghost var later := todo[1..];
        assert todo == [Call(matched.elem, handleObj)] + later;
        Associative(ran, [Call(matched.elem, handleObj)], later);
        todo := later;
        ran := ran + [Call(matched.elem, handleObj)];
        isPropagationStopped := isPropagationStopped || Stops(effect);
        isImmediatePropagationStopped := effect.immediately;
      }
      j := j + 1;
    }
    if !isImmediatePropagationStopped {
      assert matched.matches[j..] == [];
      HereNothing(matched.elem, t, effects, k + |ran|);
    }
  }

  lemma HereNothing(elem: Node, t: Test, effects: nat -> Effect, k: nat)
    ensures RanHere(elem, [], t, effects, k) == []
  {
  }

  lemma RanStep(queue: seq<Matched>, i: nat, t: Test, effects: nat -> Effect, k: nat)
    requires i < |queue|
    ensures var here := RanHere(queue[i].elem, queue[i].matches, t, effects, k);
            Ran(queue[i..], t, effects, k) ==
              here + if Stopped(effects, k, k + |here|) then [] else Ran(queue[i + 1..], t, effects, k + |here|)
  {
    hide Ran, RanHere, Stopped;
    RanFirst(queue[i..], t, effects, k);
    assert queue[i..][1..] == queue[i + 1..];
  }

  lemma RanFirst(queue: seq<Matched>, t: Test, effects: nat -> Effect, k: nat)
    requires queue != []
    ensures var here := RanHere(queue[0].elem, queue[0].matches, t, effects, k);
            Ran(queue, t, effects, k) ==
              here + if Stopped(effects, k, k + |here|) then [] else Ran(queue[1..], t, effects, k + |here|)
  {
    hide RanHere, Stopped;
  }

  lemma RanNothing(t: Test, effects: nat -> Effect, k: nat)
    ensures Ran([], t, effects, k) == []
  {
  }

  // The handlers whose namespaces the event allows.
  function Allowed(event: Event): Test {
    InNamespace(!event.exclusive && event.namespaces == {}, event.namespaces)
  }

  // The second half of jQuery.event.dispatch: running the queue. Effects tells what each call
  // does to the event.
  method RunQueue(handlerQueue: seq<Matched>, event: Event, effects: nat -> Effect) returns (ran: seq<Call>)
    ensures ran == Ran(handlerQueue, Allowed(event), effects, 0)
  {
    hide Ran, RanHere, Stopped, Passes;
    ran := [];
    var isPropagationStopped := false;
    var runAll := !event.exclusive && event.namespaces == {};
    ghost var t := Allowed(event);
    ghost var todo := Ran(handlerQueue, t, effects, 0);
    ghost var all := todo;
    assert handlerQueue[0..] == handlerQueue;
    var i := 0;
    while i < |handlerQueue| && !isPropagationStopped
      invariant 0 <= i <= |handlerQueue|
      invariant ran + todo == all
      invariant todo == if isPropagationStopped then [] else Ran(handlerQueue[i..], t, effects, |ran|)
    {
      RanStep(handlerQueue, i, t, effects, |ran|);
      var calls;
      calls, isPropagationStopped := RunMatches(handlerQueue[i], runAll, event.namespaces, effects, |ran|);
      Associative(ran, calls, todo[|calls|..]);
      assert todo == calls + todo[|calls|..];
      todo := todo[|calls|..];
      ran := ran + calls;
      i := i + 1;
    }
    if !isPropagationStopped {
      assert handlerQueue[i..] == [];
      RanNothing(t, effects, |ran|);
    }
  }
}
