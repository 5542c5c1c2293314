// jQuery's data cache for nodes: a global table whose numbers are recycled, against a simple
// table keyed by node.
module DataCache {
  import opened Wrappers

  type Node = nat
  type Plain = nat

  // What a name can stand for: a value, or the handler lists by event type (of a handler only
  // the type it was bound for matters here).
  datatype Stored = Null | Value(v: Plain) | Events(handlers: map<string, seq<string>>)

  type Store = map<string, Stored>

  // A cache entry: jQuery's own data, and the user's.
  datatype Entry = Entry(priv: Store, data: Option<Store>)

  // The name argument of jQuery.data, and whether a value comes with it.
  datatype Op = Get(name: string) | Set(name: string, value: Stored) | Merge(more: Store) | All

  datatype Answer = Undefined | Found(value: Stored) | Whole

  // The name argument of jQuery.removeData.
  datatype Which = Everything | Name(name: string) | Names(names: set<string>)

  // camelCase, and split at spaces.
  datatype Naming = Naming(camel: string -> string, words: string -> set<string>)

  const EMPTY: Entry := Entry(map[], None)

  // isEmptyDataObject
  predicate IsEmpty(e: Entry) {
    e.priv == map[] && (e.data.None? || e.data.value == map[])
  }

  function ThisCache(e: Entry, pvt: bool): Store {
    if pvt then e.priv else if e.data.None? then map[] else e.data.value
  }

  function WithCache(e: Entry, pvt: bool, s: Store): Entry {
    if pvt then e.(priv := s) else e.(data := Some(s))
  }

  function Lookup(s: Store, name: string, names: Naming): Answer {
    if name in s && s[name] != Null then Found(s[name])
    else if names.camel(name) in s then Found(s[names.camel(name)])
    else Undefined
  }

  // The store after jQuery.data, and the answer from it.
  function Written(s: Store, op: Op, names: Naming): Store {
    match op
    case Set(name, value) => s[names.camel(name) := value]
    case Merge(more) => s + more
    case _ => s
  }

  function Answered(s: Store, op: Op, names: Naming): Answer {
    match op
    case Get(name) => Lookup(s, name, names)
    case Set(name, _) => Lookup(s, name, names)
    case _ => Whole
  }

  // jQuery.data on the entry of one node. Asking for one name creates nothing where there is
  // nothing to ask.
  function DataOf(e: Option<Entry>, op: Op, pvt: bool, names: Naming): (Option<Entry>, Answer) {
    if op.Get? && (e.None? || (!pvt && e.value.data.None?)) then (e, Undefined)
    else
      var entry := if e.None? then EMPTY else e.value;
      var s := Written(ThisCache(entry, pvt), op, names);
      (Some(WithCache(entry, pvt, s)), Answered(s, op, names))
  }

  // The names jQuery.removeData deletes.
  function Resolve(s: Store, which: Which, names: Naming): set<string>
    requires !which.Everything?
  {
    match which
    case Names(all) => all
    case Name(name) =>
      if name in s then {name}
      else if names.camel(name) in s then {names.camel(name)}
      else names.words(names.camel(name))
  }

  predicate Named(which: Which) {
    which.Names? || (which.Name? && which.name != "")
  }

  // jQuery.removeData on the entry of one node; None when the entry goes too.
  function RemoveOf(e: Option<Entry>, which: Which, pvt: bool, names: Naming): Option<Entry> {
    if e.None? then None
    else
      var s := ThisCache(e.value, pvt);
      var rest := if Named(which) then s - Resolve(s, which, names) else map[];
      if pvt then
        var cut := e.value.(priv := rest);
        if Named(which) && !IsEmpty(cut) then Some(cut) else None
      else if rest != map[] then Some(e.value.(data := Some(rest)))
      else if e.value.priv == map[] then None
      else Some(e.value.(data := None))
  }

  // What is stored under a name.
  function Holding(e: Option<Entry>, pvt: bool, name: string): Option<Stored> {
    if e.Some? && name in ThisCache(e.value, pvt) then Some(ThisCache(e.value, pvt)[name]) else None
  }

  predicate HasEvents(e: Option<Entry>) {
    e.Some? && "events" in e.value.priv && e.value.priv["events"].Events?
  }

  // The handlers that were not bound for this type: module EventHandlers' Filter, where nothing
  // but the type is asked for and handlers are known by their type alone.
  function Others(handlers: seq<string>, origType: string): seq<string> {
    if handlers == [] then []
    else Others(handlers[..|handlers| - 1], origType) +
         if handlers[|handlers| - 1] == origType then [] else [handlers[|handlers| - 1]]
  }

  function WithoutType(handlers: map<string, seq<string>>, key: string, origType: string): map<string, seq<string>> {
    if key !in handlers || handlers[key] == [] then handlers
    else
      var left := Others(handlers[key], origType);
      if left == [] then handlers - {key} else handlers[key := left]
  }

  // jQuery.event.remove( elem, origType ) on the entry of one node, for handlers kept under key.
  function EventRemoveOf(e: Option<Entry>, key: string, origType: string): Option<Entry> {
    if !HasEvents(e) then e
    else
      var left := WithoutType(e.value.priv["events"].handlers, key, origType);
      var cut := e.value.(priv := if left == map[] then e.value.priv - {"handle", "events"}
                                  else e.value.priv["events" := Events(left)]);
      if IsEmpty(cut) then None else Some(cut)
  }

  // A name answers with what was last stored under it, and no other name is touched, in either
  // of the two stores.
  lemma SetThenGet(e: Option<Entry>, name: string, other: string, value: Stored, pvt: bool, names: Naming)
    requires names.camel(names.camel(name)) == names.camel(name)
    ensures var after := DataOf(e, Set(name, value), pvt, names).0;
            && DataOf(after, Get(names.camel(name)), pvt, names) == (after, Found(value))
            && (names.camel(name) != other && names.camel(name) != names.camel(other) ==>
                  DataOf(after, Get(other), pvt, names).1 == DataOf(e, Get(other), pvt, names).1)
            && DataOf(after, Get(other), !pvt, names).1 == DataOf(e, Get(other), !pvt, names).1
  {
  }

  // Asking answers with the name as it is, unless nothing (or null) is under it, and then with
  // its camelCase; it changes nothing.
  lemma GetExactly(e: Option<Entry>, name: string, pvt: bool, names: Naming)
    ensures var (after, answer) := DataOf(e, Get(name), pvt, names);
            var exact, camel := Holding(e, pvt, name), Holding(e, pvt, names.camel(name));
            && after == e
            && (exact.Some? && exact.value != Null ==> answer == Found(exact.value))
            && (exact.None? || exact.value == Null ==>
                  answer == if camel.Some? then Found(camel.value) else Undefined)
  {
  }

  // Storing puts the value under the camelCase name and leaves all else; merging puts every
  // value brought under its own name, over what is there.
  lemma WriteExactly(e: Option<Entry>, name: string, value: Stored, more: Store, other: string, pvt: bool,
                     names: Naming)
    ensures var stored := DataOf(e, Set(name, value), pvt, names).0;
            && Holding(stored, pvt, other) ==
                 (if other == names.camel(name) then Some(value) else Holding(e, pvt, other))
            && Holding(stored, !pvt, other) == Holding(e, !pvt, other)
    ensures var merged := DataOf(e, Merge(more), pvt, names).0;
            && Holding(merged, pvt, other) == (if other in more then Some(more[other]) else Holding(e, pvt, other))
            && Holding(merged, !pvt, other) == Holding(e, !pvt, other)
  {
  }

  // The name itself is removed if it is there; if not, its camelCase; and if that is not there
  // either, each of its words. A list of names is taken as it is.
  lemma RemovalNames(e: Entry, name: string, all: set<string>, pvt: bool, names: Naming, other: string)
    requires name != ""
    ensures var after, camel := RemoveOf(Some(e), Name(name), pvt, names), names.camel(name);
            var gone := if Holding(Some(e), pvt, name).Some? then other == name
                        else if Holding(Some(e), pvt, camel).Some? then other == camel
                        else other in names.words(camel);
            Holding(after, pvt, other) == if gone then None else Holding(Some(e), pvt, other)
    ensures Holding(RemoveOf(Some(e), Names(all), pvt, names), pvt, other) ==
              if other in all then None else Holding(Some(e), pvt, other)
  {
    RemovedExactly(Some(e), Name(name), pvt, names, other);
    RemovedExactly(Some(e), Names(all), pvt, names, other);
  }

  // Removal deletes the names it resolves to and nothing else, and leaves no empty entry
  // behind; without names the user's data goes, or everything.
  lemma RemovedExactly(e: Option<Entry>, which: Which, pvt: bool, names: Naming, name: string)
    ensures var after := RemoveOf(e, which, pvt, names);
            && (after.Some? ==> !IsEmpty(after.value))
            && (e.Some? && Named(which) ==>
                  && Holding(after, !pvt, name) == Holding(e, !pvt, name)
                  && Holding(after, pvt, name) ==
                       if name in Resolve(ThisCache(e.value, pvt), which, names) then None else Holding(e, pvt, name))
            && (!Named(which) ==>
                  && Holding(after, pvt, name) == None
                  && (!pvt ==> Holding(after, true, name) == Holding(e, true, name))
                  && (pvt ==> after.None?))
  {
    if e.Some? && Named(which) && pvt {
      var s := e.value.priv;
      var rest := s - Resolve(s, which, names);
      assert IsEmpty(e.value.(priv := rest)) ==> name !in rest;
    }
  }

  lemma OthersMember(handlers: seq<string>, origType: string, h: string)
    ensures h in Others(handlers, origType) <==> h in handlers && h != origType
  {
    if handlers != [] {
      assert handlers == handlers[..|handlers| - 1] + [handlers[|handlers| - 1]];
      OthersMember(handlers[..|handlers| - 1], origType, h);
    }
  }

  // Unbinding a type drops exactly the handlers bound for it; once none is left for any type,
  // the bookkeeping goes as well, and the entry if nothing else is in it.
  lemma UnboundExactly(e: Option<Entry>, key: string, origType: string, h: string, t: string)
    requires HasEvents(e)
    ensures var before := e.value.priv["events"].handlers;
            var after := EventRemoveOf(e, key, origType);
            && (HasEvents(after) ==>
                  (t in after.value.priv["events"].handlers && h in after.value.priv["events"].handlers[t]
                   <==> t in before && h in before[t] && (t != key || h != origType)))
            && (!HasEvents(after) ==> !(t in before && h in before[t] && (t != key || h != origType)))
            && (after.Some? ==> !IsEmpty(after.value))
  {
    var before := e.value.priv["events"].handlers;
    var left := WithoutType(before, key, origType);
    if key in before {
      OthersMember(before[key], origType, h);
    }
    assert t in left && h in left[t] <==> t in before && h in before[t] && (t != key || h != origType);
    if left != map[] {
      assert "events" in e.value.priv["events" := Events(left)];
    }
  }

  // Every number handed out so far is the number of exactly one live node, or waits to be
  // used again.
  ghost predicate Numbered(uuid: nat, deletedIds: seq<nat>, expando: map<Node, nat>, owner: map<nat, Node>) {
    && (forall e <- expando :: 0 < expando[e] <= uuid && expando[e] in owner && owner[expando[e]] == e)
    && (forall id <- owner :: owner[id] in expando && expando[owner[id]] == id)
    && (forall i :: 0 <= i < |deletedIds| ==> 0 < deletedIds[i] <= uuid && deletedIds[i] !in owner)
    && (forall i, j :: 0 <= i < j < |deletedIds| ==> deletedIds[i] != deletedIds[j])
    && |expando| + |deletedIds| == uuid
  }

  // No two nodes share a number, and none has a number that waits.
  lemma Apart(uuid: nat, deletedIds: seq<nat>, expando: map<Node, nat>, owner: map<nat, Node>)
    requires Numbered(uuid, deletedIds, expando, owner)
    ensures forall e, f :: e in expando && f in expando && expando[e] == expando[f] ==> e == f
    ensures forall e <- expando :: expando[e] !in deletedIds && 0 < expando[e] <= uuid
  {
  }

  // No node but elem has the number of elem, nor a number nobody has.
  lemma Elsewhere(uuid: nat, deletedIds: seq<nat>, expando: map<Node, nat>, owner: map<nat, Node>, elem: Node, id: nat)
    requires Numbered(uuid, deletedIds, expando, owner)
    requires id !in owner || (elem in expando && expando[elem] == id)
    ensures forall e <- expando :: expando[e] in owner && (e != elem ==> expando[e] != id)
  {
  }

  // Taking the last number given back.
  lemma Recycle(uuid: nat, deletedIds: seq<nat>, expando: map<Node, nat>, owner: map<nat, Node>, elem: Node)
    requires Numbered(uuid, deletedIds, expando, owner) && elem !in expando && deletedIds != []
    ensures var n := |deletedIds| - 1;
            deletedIds[n] !in owner
            && Numbered(uuid, deletedIds[..n], expando[elem := deletedIds[n]], owner[deletedIds[n] := elem])
  {
    assert expando[elem := deletedIds[|deletedIds| - 1]].Keys == expando.Keys + {elem};
  }

  // Counting up.
  lemma NewNumber(uuid: nat, expando: map<Node, nat>, owner: map<nat, Node>, elem: Node)
    requires Numbered(uuid, [], expando, owner) && elem !in expando
    ensures uuid + 1 !in owner && Numbered(uuid + 1, [], expando[elem := uuid + 1], owner[uuid + 1 := elem])
  {
    assert expando[elem := uuid + 1].Keys == expando.Keys + {elem};
  }

  // Giving a number back.
  lemma GiveBack(uuid: nat, deletedIds: seq<nat>, expando: map<Node, nat>, owner: map<nat, Node>, elem: Node)
    requires Numbered(uuid, deletedIds, expando, owner) && elem in expando
    ensures Numbered(uuid, deletedIds + [expando[elem]], expando - {elem}, owner - {expando[elem]})
  {
    assert expando.Keys == (expando - {elem}).Keys + {elem};
  }

  class Cache {
    const names: Naming
    const accepts: Node -> bool       // acceptData
    const special: set<string>        // the event types with special handling
    const bindType: string -> string  // the type a handler is kept under
    var uuid: nat
    var deletedIds: seq<nat>
    var cache: map<nat, Entry>
    var expando: map<Node, nat>       // elem[ jQuery.expando ]

    ghost var owner: map<nat, Node>

    ghost predicate Valid()
      reads this
    {
      Numbered(uuid, deletedIds, expando, owner) && cache.Keys == owner.Keys
    }

    // The same without numbers.
    ghost function Table(): map<Node, Entry>
      reads this
      requires Valid()
    {
      map e | e in expando :: cache[expando[e]]
    }

    ghost function EntryOf(e: Node): Option<Entry>
      reads this
      requires Valid()
    {
      if e in Table() then Some(Table()[e]) else None
    }

    // The table with this entry for elem, or without one.
    ghost predicate Became(before: map<Node, Entry>, elem: Node, entry: Option<Entry>)
      reads this
      requires Valid()
    {
      Table() == if entry.Some? then before[elem := entry.value] else before - {elem}
    }

    // A node that keeps its entry keeps its number; a number given up has no entry.
    ghost predicate Keeps(before: map<Node, nat>, elem: Node)
      reads this
    {
      && (elem in expando ==> elem in before && expando[elem] == before[elem])
      && (elem in before && elem !in expando ==> before[elem] !in cache)
    }

    constructor (names: Naming, accepts: Node -> bool, special: set<string>, bindType: string -> string)
      ensures Valid() && Table() == map[] && uuid == 0
      ensures this.names == names && this.accepts == accepts && this.special == special && this.bindType == bindType
    {
      this.names, this.accepts, this.special, this.bindType := names, accepts, special, bindType;
      uuid, deletedIds, cache, expando, owner := 0, [], map[], map[], map[];
    }

    lemma InTable(elem: Node)
      requires Valid()
      ensures elem in expando <==> elem in Table()
      ensures EntryOf(elem).Some? <==> elem in expando
      ensures elem in expando ==> expando[elem] in cache && EntryOf(elem) == Some(cache[expando[elem]])
    {
    }

    // A number for a node that has none: the last one given back, or a new one.
    method Allocate(elem: Node)
      requires Valid() && elem !in expando
      modifies this
      ensures Valid() && elem in expando
      ensures Table() == old(Table())[elem := EMPTY] && EntryOf(elem) == Some(EMPTY)
    {
      hide Numbered;
      var id;
      if deletedIds != [] {
        Recycle(uuid, deletedIds, expando, owner, elem);
        id := deletedIds[|deletedIds| - 1];
        deletedIds := deletedIds[..|deletedIds| - 1];
      } else {
        NewNumber(uuid, expando, owner, elem);
        uuid := uuid + 1;
        id := uuid;
      }
      Elsewhere(old(uuid), old(deletedIds), expando, owner, elem, id);
      expando := expando[elem := id];
      owner := owner[id := elem];
      cache := cache[id := EMPTY];
    }

    // Storing an entry where the node's number points.
    method Store(elem: Node, entry: Entry)
      requires Valid() && elem in expando
      modifies this`cache
      ensures Valid() && Table() == old(Table())[elem := entry] && EntryOf(elem) == Some(entry)
      ensures cache.Keys == old(cache.Keys)
    {
      Elsewhere(uuid, deletedIds, expando, owner, elem, expando[elem]);
      hide Numbered;
      cache := cache[expando[elem] := entry];
    }

    // jQuery.data
    method Data(elem: Node, op: Op, pvt: bool) returns (r: Answer)
      requires Valid()
      modifies this
      ensures Valid()
      ensures !accepts(elem) ==> r == Undefined && Table() == old(Table())
      ensures accepts(elem) ==> r == DataOf(old(EntryOf(elem)), op, pvt, names).1
      ensures accepts(elem) ==> Became(old(Table()), elem, DataOf(old(EntryOf(elem)), op, pvt, names).0)
    {
      hide Numbered, Cache.Table, Cache.Valid;
      if !accepts(elem) {
        return Undefined;
      }
      InTable(elem);
      ghost var before := Table();
      if op.Get? && (elem !in expando || (!pvt && cache[expando[elem]].data.None?)) {
        return Undefined;
      }
      if elem !in expando {
        Allocate(elem);
        InTable(elem);
      }
      var entry := cache[expando[elem]];
      if op.Merge? {
        entry := WithCache(entry, pvt, ThisCache(entry, pvt) + op.more);
      }
      if !pvt && entry.data.None? {
        entry := entry.(data := Some(map[]));
      }
      var thisCache := ThisCache(entry, pvt);
      if op.Set? {
        thisCache := thisCache[names.camel(op.name) := op.value];
      }
      Store(elem, WithCache(entry, pvt, thisCache));
      match op {
        case Get(name) => r := Lookup(thisCache, name, names);
        case Set(name, _) => r := Lookup(thisCache, name, names);
        case _ => r := Whole;
      }
    }

    // jQuery.cleanData on one node: its entry goes, with the handlers it may still have, and
    // its number is given back, once.
    method CleanData(elem: Node, acceptData: bool)
      requires Valid()
      modifies this
      ensures Valid() && Keeps(old(expando), elem) && cache.Keys <= old(cache.Keys)
      ensures Table() == if acceptData || accepts(elem) then old(Table()) - {elem} else old(Table())
      decreases if HasEvents(EntryOf(elem)) then 3 else 0
    {
      hide Numbered, Cache.Table, Cache.Valid, EventRemoveOf;
      InTable(elem);
      if (acceptData || accepts(elem)) && elem in expando {
        ghost var rest := Table() - {elem};
        var id := expando[elem];
        var data := cache[id];
        if "events" in data.priv && data.priv["events"].Events? {
          var types := data.priv["events"].handlers.Keys;
          while types != {}
            invariant Valid() && Table() - {elem} == rest
            invariant Keeps(old(expando), elem) && cache.Keys <= old(cache.Keys)
            decreases types
          {
            var t :| t in types;
            types := types - {t};
            if t in special {
              EventRemove(elem, t);
            }
          }
        }
        InTable(elem);
        if id in cache {
          Destroy(elem);
        }
      }
    }

    method Destroy(elem: Node)
      requires Valid() && elem in expando
      modifies this
      ensures Valid() && Table() == old(Table()) - {elem}
      ensures elem !in expando && Keeps(old(expando), elem) && cache.Keys <= old(cache.Keys)
    {
      var id := expando[elem];
      Elsewhere(uuid, deletedIds, expando, owner, elem, id);
      GiveBack(uuid, deletedIds, expando, owner, elem);
      hide Numbered;
      cache := cache - {id};
      expando := expando - {elem};
      owner := owner - {id};
      deletedIds := deletedIds + [id];
    }

    // jQuery.removeData
    method RemoveData(elem: Node, which: Which, pvt: bool)
      requires Valid()
      modifies this
      ensures Valid() && Keeps(old(expando), elem) && cache.Keys <= old(cache.Keys)
      ensures !accepts(elem) ==> Table() == old(Table())
      ensures accepts(elem) ==> Became(old(Table()), elem, RemoveOf(old(EntryOf(elem)), which, pvt, names))
      decreases if Named(which) || !pvt then 1 else 4
    {
      hide Numbered, Cache.Table, Cache.Valid;
      if !accepts(elem) {
        return;
      }
      InTable(elem);
      if elem !in expando {
        return;
      }
      var entry := cache[expando[elem]];
      if Named(which) && (pvt || entry.data.Some?) {
        var thisCache := ThisCache(entry, pvt);
        thisCache := thisCache - Resolve(thisCache, which, names);
        entry := WithCache(entry, pvt, thisCache);
        Store(elem, entry);
        if !(if pvt then IsEmpty(entry) else thisCache == map[]) {
          return;
        }
      }
      if !pvt {
        entry := entry.(data := None);
        Store(elem, entry);
        if !IsEmpty(entry) {
          return;
        }
      }
      CleanData(elem, true);
    }

    // jQuery.event.remove( elem, origType )
    method EventRemove(elem: Node, origType: string)
      requires Valid()
      modifies this
      ensures Valid() && Keeps(old(expando), elem) && cache.Keys <= old(cache.Keys)
      ensures !accepts(elem) ==> Table() == old(Table())
      ensures accepts(elem) ==>
                Became(old(Table()), elem, EventRemoveOf(old(EntryOf(elem)), bindType(origType), origType))
      decreases 2
    {
      hide Numbered, Cache.Table, Cache.Valid, WithoutType, CutOf, RemoveOf;
      InTable(elem);
      if elem !in expando || IsEmpty(cache[expando[elem]]) || !accepts(elem)
         || !HasEvents(Some(cache[expando[elem]])) {
        return;
      }
      var elemData, left := Unbound(cache[expando[elem]], bindType(origType), origType);
      EventsGone(cache[expando[elem]], bindType(origType), origType, names);
      Store(elem, elemData);
      if left == map[] {
        RemoveData(elem, Name("events"), true);
      }
    }
  }

  // The entry, and the handlers left, before a look at whether any is left at all.
  function CutOf(e: Entry, left: map<string, seq<string>>): Entry {
    var kept := e.priv["events" := Events(left)];
    e.(priv := if left == map[] then kept - {"handle"} else kept)
  }

  method Unbound(e: Entry, key: string, origType: string) returns (cut: Entry, left: map<string, seq<string>>)
    requires HasEvents(Some(e))
    ensures left == WithoutType(e.priv["events"].handlers, key, origType)
    ensures cut == CutOf(e, left)
  {
    left := e.priv["events"].handlers;
    if key in left {
      var rest := Unbind(left[key], origType);
      var origCount := |left[key]|;
      left := left[key := rest];
      if |rest| == 0 && origCount != |rest| {
        left := left - {key};
      }
    }
    cut := e.(priv := e.priv["events" := Events(left)]);
    if left == map[] {
      cut := cut.(priv := cut.priv - {"handle"});
    }
  }

  lemma EventsGone(e: Entry, key: string, origType: string, names: Naming)
    requires HasEvents(Some(e))
    ensures var left := WithoutType(e.priv["events"].handlers, key, origType);
            var cut := CutOf(e, left);
            && (left == map[] ==>
                EventRemoveOf(Some(e), key, origType) == RemoveOf(Some(cut), Name("events"), true, names))
            && (left != map[] ==> EventRemoveOf(Some(e), key, origType) == Some(cut))
  {
    hide WithoutType;
    var left := WithoutType(e.priv["events"].handlers, key, origType);
    var kept := e.priv["events" := Events(left)];
    assert kept - {"handle"} - {"events"} == e.priv - {"handle", "events"};
    assert "events" in kept;
  }

  // The loop that splices out the handlers bound for a type, which EventHandlers.RemoveMatching
  // models with all its tests; here it is restricted to the type.
  method Unbind(handlers: seq<string>, origType: string) returns (left: seq<string>)
    ensures left == Others(handlers, origType)
  {
    left := handlers;
    var j := 0;
    ghost var n := 0;
    while j < |left|
      invariant 0 <= j <= |left| && 0 <= n <= |handlers|
      invariant left[..j] == Others(handlers[..n], origType) && left[j..] == handlers[n..]
    {
      assert handlers[..n + 1][..n] == handlers[..n];
      assert left[j] == handlers[n] && left[j + 1..] == handlers[n + 1..];
      if left[j] == origType {
        left := left[..j] + left[j + 1..];
      } else {
        assert left[..j + 1] == left[..j] + [left[j]];
        j := j + 1;
      }
      n := n + 1;
    }
    assert left[..j] == left && handlers[..n] == handlers;
  }
}
