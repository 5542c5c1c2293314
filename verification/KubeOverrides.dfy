// bin/kube_overrides.rb: command line overrides of nested values in every container.
module KubeOverrides {
  import opened Wrappers

  datatype Value = Nil | False | Scalar(s: string) | Table(fields: map<string, Value>) | List(items: seq<Value>)

  type Path = seq<string>

  datatype Override = Override(path: Path, value: Value)

  const ENV: string := "env"
  const NAME: string := "name"
  const VALUE: string := "value"

  // elem['name']
  function NameOf(e: Value): Option<string> {
    if e.Table? && NAME in e.fields && e.fields[NAME].Scalar? then Some(e.fields[NAME].s) else None
  }

  predicate IsNamed(e: Value, name: string) {
    NameOf(e) == Some(name)
  }

  function Entry(name: string, v: Value): Value {
    Table(map[NAME := Scalar(name), VALUE := v])
  }

  function Erase(items: seq<Value>, name: string): seq<Value> {
    if items == [] then []
    else Erase(items[..|items| - 1], name) +
         if IsNamed(items[|items| - 1], name) then [] else [items[|items| - 1]]
  }

  // child[elem] ||= {}
  function Child(c: Value, elem: string): Value
    requires c.Table?
  {
    if elem in c.fields && c.fields[elem] != Nil && c.fields[elem] != False then c.fields[elem] else Table(map[])
  }

  // What is done at the end of a path.
  function SetLast(env: bool, child: Value, last: string, v: Value): Result<Value> {
    if env then
      if child.List? then Ok(List(Erase(child.items, last) + [Entry(last, v)])) else Err("no list")
    else if child.Table? then Ok(Table(child.fields[last := v]))
    else Err("no table")
  }

  // One override of one container, or of a value inside it.
  function SetAt(env: bool, c: Value, path: Path, v: Value): Result<Value>
    requires path != []
    decreases |path|
  {
    if |path| == 1 then SetLast(env, c, path[0], v)
    else if !c.Table? then Err("no table")
    else
      match SetAt(env, Child(c, path[0]), path[1..], v)
      case Ok(child) => Ok(Table(c.fields[path[0] := child]))
      case Err(e) => Err(e)
  }

  predicate ForEnv(path: Path) {
    path != [] && path[0] == ENV
  }

  function Apply(c: Value, o: Override): Result<Value> {
    if o.path == [] then Err("no path") else SetAt(ForEnv(o.path), c, o.path, o.value)
  }

  function ApplyAll(c: Value, table: seq<Override>): Result<Value> {
    if table == [] then Ok(c)
    else
      match ApplyAll(c, table[..|table| - 1])
      case Ok(before) => Apply(before, table[|table| - 1])
      case Err(e) => Err(e)
  }

  // Reading along a path.
  function Get(c: Value, path: Path): Option<Value> {
    if path == [] then Some(c)
    else if c.Table? && path[0] in c.fields then Get(c.fields[path[0]], path[1..])
    else None
  }

  function Named(items: seq<Value>, name: string): seq<Value> {
    if items == [] then []
    else Named(items[..|items| - 1], name) +
         if IsNamed(items[|items| - 1], name) then [items[|items| - 1]] else []
  }

  predicate Unrelated(p: Path, q: Path) {
    !(p <= q) && !(q <= p)
  }

  // No path of the table is the beginning of another.
  predicate PrefixFree(table: seq<Override>) {
    && (forall i :: 0 <= i < |table| ==> table[i].path != [])
    && (forall i, j :: 0 <= i < j < |table| ==> Unrelated(table[i].path, table[j].path))
  }

  lemma UnrelatedTails(p: Path, q: Path)
    requires Unrelated(p, q)
    ensures p != [] && q != []
    ensures p[0] == q[0] ==> |p| > 1 && |q| > 1 && Unrelated(p[1..], q[1..])
  {
    if p[0] == q[0] {
      assert p == [p[0]] + p[1..] && q == [q[0]] + q[1..];
    }
  }

  // An override changes nothing at unrelated paths.
  lemma {:induction false} SetFrame(env: bool, c: Value, p: Path, v: Value, q: Path)
    requires p != [] && SetAt(env, c, p, v).Ok? && Unrelated(p, q)
    ensures Get(SetAt(env, c, p, v).value, q) == Get(c, q)
    decreases p
  {
    UnrelatedTails(p, q);
    if p[0] == q[0] {
      SetFrame(env, Child(c, p[0]), p[1..], v, q[1..]);
    }
  }

  // Nor does it make another one possible or impossible.
  lemma {:induction false} SetIndependent(envP: bool, envQ: bool, c: Value, p: Path, v: Value, q: Path, w: Value)
    requires p != [] && SetAt(envP, c, p, v).Ok? && Unrelated(p, q) && q != []
    requires envP == envQ || p[0] != q[0]
    ensures SetAt(envQ, SetAt(envP, c, p, v).value, q, w).Ok? == SetAt(envQ, c, q, w).Ok?
    decreases p
  {
    UnrelatedTails(p, q);
    if p[0] == q[0] {
      SetIndependent(envP, envQ, Child(c, p[0]), p[1..], v, q[1..], w);
    }
  }

  lemma {:induction false} SetGet(c: Value, p: Path, v: Value)
    requires p != [] && SetAt(false, c, p, v).Ok?
    ensures Get(SetAt(false, c, p, v).value, p) == Some(v)
    decreases p
  {
    if |p| > 1 {
      SetGet(Child(c, p[0]), p[1..], v);
    } else {
      assert p[1..] == [];
    }
  }

  // An override below the environment edits the list it leads to, and leaves every other list.
  function Edited(items: seq<Value>, parent: Path, o: Override): seq<Value> {
    if o.path != [] && o.path[..|o.path| - 1] == parent
    then Erase(items, o.path[|o.path| - 1]) + [Entry(o.path[|o.path| - 1], o.value)]
    else items
  }

  lemma {:induction false} SetEdits(c: Value, p: Path, v: Value, parent: Path, items: seq<Value>)
    requires p != [] && SetAt(true, c, p, v).Ok? && Get(c, parent) == Some(List(items))
    ensures Get(SetAt(true, c, p, v).value, parent) == Some(List(Edited(items, parent, Override(p, v))))
    decreases p
  {
    if |p| == 1 {
      assert p[..0] == [];
    } else {
      assert parent != [];
      assert p[..|p| - 1] == [p[0]] + p[1..][..|p| - 2] && parent == [parent[0]] + parent[1..];
      assert p[1..][|p| - 2] == p[|p| - 1];
      if p[0] == parent[0] {
        assert Child(c, p[0]) == c.fields[p[0]];
        SetEdits(Child(c, p[0]), p[1..], v, parent[1..], items);
      }
    }
  }

  function EditAll(items: seq<Value>, parent: Path, table: seq<Override>): seq<Value> {
    if table == [] then items
    else Edited(EditAll(items, parent, table[..|table| - 1]), parent, table[|table| - 1])
  }

  // Whatever the other overrides are: a list of the environment ends up edited by the overrides
  // that lead to it, in their order.
  lemma {:induction false} AllEdits(c: Value, table: seq<Override>, parent: Path, items: seq<Value>)
    requires ApplyAll(c, table).Ok? && ForEnv(parent) && Get(c, parent) == Some(List(items))
    ensures Get(ApplyAll(c, table).value, parent) == Some(List(EditAll(items, parent, table)))
  {
    if table != [] {
      var before, o := table[..|table| - 1], table[|table| - 1];
      AllEdits(c, before, parent, items);
      var b := ApplyAll(c, before).value;
      if ForEnv(o.path) {
        SetEdits(b, o.path, o.value, parent, EditAll(items, parent, before));
      } else {
        assert o.path[0] != parent[0];
        SetFrame(false, b, o.path, o.value, parent);
        assert o.path[..|o.path| - 1] != parent;
      }
    }
  }

  // The entries with a name, and those with none of a set of names.
  function Rest(items: seq<Value>, names: set<string>): seq<Value> {
    if items == [] then []
    else
      var last := items[|items| - 1];
      Rest(items[..|items| - 1], names) + if NameOf(last).Some? && NameOf(last).value in names then [] else [last]
  }

  lemma Appended(items: seq<Value>, e: Value, name: string, names: set<string>)
    ensures Named(items + [e], name) == Named(items, name) + if IsNamed(e, name) then [e] else []
    ensures Rest(items + [e], names) ==
              Rest(items, names) + if NameOf(e).Some? && NameOf(e).value in names then [] else [e]
  {
    assert (items + [e])[..|items|] == items;
  }

  lemma {:induction false} EraseNamed(items: seq<Value>, name: string, other: string)
    ensures Named(Erase(items, name), other) == if name == other then [] else Named(items, other)
  {
    if items == [] {
    } else {
      var before, last := items[..|items| - 1], items[|items| - 1];
      EraseNamed(before, name, other);
      Appended(Erase(before, name), last, other, {});
      assert IsNamed(last, name) && IsNamed(last, other) ==> name == other;
      hide NameOf, IsNamed, Rest;
      assert Erase(items, name) == if IsNamed(last, name) then Erase(before, name) else Erase(before, name) + [last];
    }
  }

  lemma {:induction false} EraseRest(items: seq<Value>, name: string, names: set<string>)
    requires name in names
    ensures Rest(Erase(items, name), names) == Rest(items, names)
  {
    if items == [] {
    } else {
      var before, last := items[..|items| - 1], items[|items| - 1];
      EraseRest(before, name, names);
      Appended(Erase(before, name), last, name, names);
      hide NameOf, Named;
      assert Erase(items, name) == if IsNamed(last, name) then Erase(before, name) else Erase(before, name) + [last];
    }
  }

  lemma EditedNamed(items: seq<Value>, name: string, v: Value, other: string, names: set<string>)
    ensures var after := Erase(items, name) + [Entry(name, v)];
            && Named(after, other) == (if name == other then [Entry(name, v)] else Named(items, other))
            && (name in names ==> Rest(after, names) == Rest(items, names))
  {
    EraseNamed(items, name, other);
    if name in names {
      EraseRest(items, name, names);
    }
    Appended(Erase(items, name), Entry(name, v), other, names);
    assert NameOf(Entry(name, v)) == Some(name);
    hide Erase, Named, Rest;
  }

  // In an edited list the entry with an overridden name is there once, with the value of its
  // override, and the entries that are not overridden are what they were, in order.
  lemma {:induction false} EditExactly(items: seq<Value>, parent: Path, table: seq<Override>, i: nat,
                                       names: set<string>)
    requires forall j, k :: 0 <= j < k < |table| ==> table[j].path != table[k].path
    requires forall o <- table :: o.path != [] && (o.path[..|o.path| - 1] == parent ==> o.path[|o.path| - 1] in names)
    ensures i < |table| && table[i].path[..|table[i].path| - 1] == parent ==>
              var name := table[i].path[|table[i].path| - 1];
              Named(EditAll(items, parent, table), name) == [Entry(name, table[i].value)]
    ensures Rest(EditAll(items, parent, table), names) == Rest(items, names)
  {
    hide Named, Rest, Erase, Entry;
    if table != [] {
      var before, o := table[..|table| - 1], table[|table| - 1];
      assert i < |before| ==> before[i] == table[i];
      EditExactly(items, parent, before, i, names);
      if o.path[..|o.path| - 1] == parent {
        var was := EditAll(items, parent, before);
        var p := if i < |table| then table[i].path else o.path;
        EditedNamed(was, o.path[|o.path| - 1], o.value, p[|p| - 1], names);
        if i < |before| && p[..|p| - 1] == parent {
          SamePath(p, o.path);
        }
      }
    }
  }

  lemma SamePath(p: Path, q: Path)
    requires p != [] && q != [] && p != q && p[..|p| - 1] == q[..|q| - 1]
    ensures p[|p| - 1] != q[|q| - 1]
  {
    assert p == p[..|p| - 1] + [p[|p| - 1]] && q == q[..|q| - 1] + [q[|q| - 1]];
  }

  // No path of the table leads to this one, or through it.
  ghost predicate Apart(table: seq<Override>, path: Path) {
    forall i :: 0 <= i < |table| ==> Unrelated(table[i].path, path)
  }

  // After the whole table: what no path of it reaches is unchanged, and an override that could
  // be made before can still be made. The paths of the table may be related to one another.
  lemma {:induction false} AllFrame(c: Value, table: seq<Override>, o: Override)
    requires Apart(table, o.path) && ApplyAll(c, table).Ok?
    ensures Get(ApplyAll(c, table).value, o.path) == Get(c, o.path)
    ensures Apply(ApplyAll(c, table).value, o).Ok? == Apply(c, o).Ok?
  {
    if table != [] {
      var before, last := table[..|table| - 1], table[|table| - 1];
      AllFrame(c, before, o);
      UnrelatedTails(last.path, o.path);
      var b := ApplyAll(c, before).value;
      SetFrame(ForEnv(last.path), b, last.path, last.value, o.path);
      SetIndependent(ForEnv(last.path), ForEnv(o.path), b, last.path, last.value, o.path, o.value);
    }
  }

  // The whole table can be applied exactly when each override of it could be applied alone.
  lemma {:induction false} AllPossible(c: Value, table: seq<Override>)
    requires PrefixFree(table)
    ensures ApplyAll(c, table).Ok? <==> forall i :: 0 <= i < |table| ==> Apply(c, table[i]).Ok?
  {
    if table != [] {
      var before, o := table[..|table| - 1], table[|table| - 1];
      AllPossible(c, before);
      if ApplyAll(c, before).Ok? {
        AllFrame(c, before, o);
      }
    }
  }

  // Then every path reads back its value.
  lemma {:induction false} ReadsBack(c: Value, table: seq<Override>, i: nat)
    requires PrefixFree(table) && ApplyAll(c, table).Ok? && i < |table| && !ForEnv(table[i].path)
    ensures Get(ApplyAll(c, table).value, table[i].path) == Some(table[i].value)
  {
    var before, o := table[..|table| - 1], table[|table| - 1];
    var b := ApplyAll(c, before).value;
    if i == |table| - 1 {
      SetGet(b, o.path, o.value);
    } else {
      ReadsBack(c, before, i);
      assert before[i] == table[i];
      SetFrame(ForEnv(o.path), b, o.path, o.value, table[i].path);
    }
  }

  // And every overridden name of the environment occurs once, with its value, while the other
  // entries keep their order.
  lemma EnvReadsBack(c: Value, table: seq<Override>, i: nat, names: set<string>)
    requires c.Table? && PrefixFree(table) && ApplyAll(c, table).Ok? && i < |table| && ForEnv(table[i].path)
    requires var parent := table[i].path[..|table[i].path| - 1];
             forall o <- table :: o.path[..|o.path| - 1] == parent ==> o.path[|o.path| - 1] in names
    ensures var p := table[i].path;
            var was, now := Get(c, p[..|p| - 1]), Get(ApplyAll(c, table).value, p[..|p| - 1]);
            && was.Some? && was.value.List? && now.Some? && now.value.List?
            && Named(now.value.items, p[|p| - 1]) == [Entry(p[|p| - 1], table[i].value)]
            && Rest(now.value.items, names) == Rest(was.value.items, names)
  {
    var p := table[i].path;
    AllPossible(c, table);
    assert Apply(c, table[i]).Ok?;
    ListThere(c, p, table[i].value);
    var items := Get(c, p[..|p| - 1]).value.items;
    AllEdits(c, table, p[..|p| - 1], items);
    EditExactly(items, p[..|p| - 1], table, i, names);
  }

  // An override of the environment needs a list where its path leads.
  lemma {:induction false} ListThere(c: Value, p: Path, v: Value)
    requires p != [] && SetAt(true, c, p, v).Ok?
    ensures Get(c, p[..|p| - 1]).Some? && Get(c, p[..|p| - 1]).value.List?
    decreases p
  {
    if |p| > 1 {
      ListThere(Child(c, p[0]), p[1..], v);
      assert p[..|p| - 1][1..] == p[1..][..|p| - 2];
    }
  }

  // Where one path is the beginning of another, each override alone is fine, but both together
  // fail in one order, and lose a value in the other.
  lemma PrefixesClash(a: string, b: string, v: Value, w: string)
    requires a != ENV
    ensures var c := Table(map[]);
            var outer, inner := Override([a], Scalar(w)), Override([a, b], v);
            && Apply(c, outer).Ok? && Apply(c, inner).Ok?
            && ApplyAll(c, [outer, inner]).Err?
            && ApplyAll(c, [inner, outer]).Ok? && Get(ApplyAll(c, [inner, outer]).value, [a, b]) == None
  {
    var c := Table(map[]);
    var outer, inner := Override([a], Scalar(w)), Override([a, b], v);
    assert [outer, inner][..1] == [outer] && [inner, outer][..1] == [inner] && [outer][..0] == [] && [inner][..0] == [];
    assert [a, b][1..] == [b];
    var one, two := Table(map[a := Scalar(w)]), Table(map[a := Table(map[b := v])]);
    assert SetAt(false, Table(map[]), [b], v) == Ok(Table(map[b := v]));
    assert c.fields[a := Scalar(w)] == one.fields && c.fields[a := Table(map[b := v])] == two.fields;
    assert Apply(c, outer) == Ok(one) && Apply(c, inner) == Ok(two);
    assert SetAt(false, Scalar(w), [b], v).Err? && Child(one, a) == Scalar(w);
    assert Apply(one, inner).Err? && Apply(two, outer) == Ok(Table(two.fields[a := Scalar(w)]));
    assert ApplyAll(c, [outer]) == Apply(c, outer) && ApplyAll(c, [inner]) == Apply(c, inner);
  }

  // Nothing is there, or something that `||=` replaces.
  predicate Empty(v: Option<Value>) {
    v == None || v == Some(Nil) || v == Some(False)
  }

  // A value other than nil and false is only gone into if it is a table.
  ghost predicate Passable(c: Value, path: Path, i: nat)
    requires i <= |path|
  {
    var v := Get(c, path[..i]);
    (i > 0 && Empty(v)) || (v.Some? && v.value.Table?)
  }

  // An override fails exactly when something on its way is neither missing nor a table; for the
  // environment its list must be there.
  lemma {:induction false} PossibleExactly(env: bool, c: Value, path: Path, v: Value)
    requires path != []
    ensures var n := |path| - 1;
            SetAt(env, c, path, v).Ok? <==>
              && (forall i :: 0 <= i < n ==> Passable(c, path, i))
              && if env then Get(c, path[..n]).Some? && Get(c, path[..n]).value.List? else Passable(c, path, n)
    decreases path
  {
    var n := |path| - 1;
    assert path[..0] == [];
    if n > 0 {
      var child := Child(if c.Table? then c else Table(map[]), path[0]);
      assert Passable(c, path, 0) <==> c.Table?;
      if c.Table? {
        PossibleExactly(env, child, path[1..], v);
        forall i | 0 <= i < n
          ensures Passable(child, path[1..], i) <==> Passable(c, path, i + 1)
          ensures Get(child, path[1..][..i]).Some? && Get(child, path[1..][..i]).value.List? <==>
                    Get(c, path[..i + 1]).Some? && Get(c, path[..i + 1]).value.List?
        {
          assert path[1..][..i] == path[..i + 1][1..];
          BelowCreated(c, path[0], path[1..][..i]);
        }
        assert forall i :: 0 < i <= n ==> Passable(c, path, i) == Passable(child, path[1..], i - 1);
      }
    }
  }

  // A created table has nothing in it.
  lemma BelowCreated(c: Value, k: string, rest: Path)
    requires c.Table?
    ensures var child := Child(c, k);
            var before, after := Get(c, [k] + rest), Get(child, rest);
            if k in c.fields && c.fields[k] != Nil && c.fields[k] != False then before == after
            else if rest == [] then Empty(before) && after == Some(Table(map[]))
            else before == None && after == None
  {
    assert ([k] + rest)[1..] == rest;
  }

  // An environment override leaves one entry for its name, at the end of the list: a table with
  // the keys "name" and "value" and no others.
  lemma EnvEntry(c: Value, parent: Path, name: string, v: Value)
    requires parent != [] && parent[0] == "env" && Apply(c, Override(parent + [name], v)).Ok?
    ensures var after := Get(Apply(c, Override(parent + [name], v)).value, parent);
            && after.Some? && after.value.List? && after.value.items != []
            && var items, n := after.value.items, |after.value.items| - 1;
            && items[n] == Table(map["name" := Scalar(name), "value" := v])
            && forall i :: 0 <= i < n && items[i].Table? && "name" in items[i].fields ==>
                 items[i].fields["name"] != Scalar(name)
  {
    var path := parent + [name];
    assert path[..|path| - 1] == parent && path[0] == parent[0];
    PossibleExactly(true, c, path, v);
    var items := Get(c, parent).value.items;
    SetEdits(c, path, v, parent, items);
    ErasedAll(items, name);
  }

  lemma {:induction false} ErasedAll(items: seq<Value>, name: string)
    ensures forall e <- Erase(items, name) :: e.Table? && "name" in e.fields ==> e.fields["name"] != Scalar(name)
  {
    if items != [] {
      ErasedAll(items[..|items| - 1], name);
    }
  }

  // Any other override is a plain assignment: it reads back as the value itself.
  lemma PlainValue(c: Value, path: Path, v: Value)
    requires path != [] && path[0] != "env" && Apply(c, Override(path, v)).Ok?
    ensures Get(Apply(c, Override(path, v)).value, path) == Some(v)
  {
    SetGet(c, path, v);
  }

  // The values above the end of a path, with a new value at its end.
  function Wrapped(above: seq<Value>, path: Path, child: Result<Value>): Result<Value>
    requires |above| <= |path| && forall a <- above :: a.Table?
  {
    if above == [] || child.Err? then child
    else
      var n := |above| - 1;
      Wrapped(above[..n], path, Ok(Table(above[n].fields[path[n] := child.value])))
  }

  // child.reject!
  method Reject(items: seq<Value>, name: string) returns (left: seq<Value>)
    ensures left == Erase(items, name)
  {
    left := [];
    for i := 0 to |items|
      invariant left == Erase(items[..i], name)
    {
      assert items[..i + 1][..i] == items[..i];
      if !IsNamed(items[i], name) {
        left := left + [items[i]];
      }
    }
    assert items[..|items|] == items;
  }

  // Down along the path, creating what is missing.
  method Descend(container: Value, k: Path, env: bool, v: Value) returns (child: Value, above: seq<Value>, failed: bool)
    requires k != []
    ensures failed ==> SetAt(env, container, k, v) == Err("no table")
    ensures !failed ==> |above| == |k| - 1 && forall a <- above :: a.Table?
    ensures !failed ==> SetAt(env, container, k, v) == Wrapped(above, k, SetLast(env, child, k[|k| - 1], v))
  {
    child, above, failed := container, [], false;
    for i := 0 to |k| - 1
      invariant |above| == i && (forall a <- above :: a.Table?)
      invariant SetAt(env, container, k, v) == Wrapped(above, k, SetAt(env, child, k[i..], v))
    {
      if !child.Table? {
        failed := true;
        return;
      }
      assert k[i..][1..] == k[i + 1..];
      above := above + [child];
      assert above[..i] + [child] == above;
      child := Child(child, k[i]);
    }
    assert k[|k| - 1..] == [k[|k| - 1]];
  }

  // One override of one container: down along the path, then the value at its end.
  method ApplyOne(container: Value, k: Path, v: Value) returns (r: Result<Value>)
    requires k != []
    ensures r == Apply(container, Override(k, v))
  {
    hide SetAt;
    var env := ForEnv(k);
    var last := k[|k| - 1];
    var child, above, failed := Descend(container, k, env, v);
    if failed {
      return Err("no table");
    }
    if env {
      if !child.List? {
        return Err("no list");
      }
      var left := Reject(child.items, last);
      child := List(left + [Entry(last, v)]);
    } else {
      if !child.Table? {
        return Err("no table");
      }
      child := Table(child.fields[last := v]);
    }
    var n := |above|;
    assert above[..n] == above;
    while n > 0
      invariant 0 <= n <= |above|
      invariant SetAt(env, container, k, v) == Wrapped(above[..n], k, Ok(child))
    {
      n := n - 1;
      assert above[..n + 1][..n] == above[..n];
      child := Table(above[n].fields[k[n] := child]);
    }
    return Ok(child);
  }

  // The whole table, for one container.
  method ApplyTable(container: Value, overrides: seq<Override>) returns (r: Result<Value>)
    requires forall o <- overrides :: o.path != []
    ensures r == ApplyAll(container, overrides)
  {
    r := Ok(container);
    for i := 0 to |overrides|
      invariant r == ApplyAll(container, overrides[..i])
    {
      assert overrides[..i + 1][..i] == overrides[..i];
      if r.Ok? {
        r := ApplyOne(r.value, overrides[i].path, overrides[i].value);
      }
    }
    assert overrides[..|overrides|] == overrides;
  }

  // A later argument for the same path replaces the value, in place.
  function Put(table: seq<Override>, o: Override): seq<Override> {
    if table == [] then [o]
    else if table[0].path == o.path then [o] + table[1..]
    else [table[0]] + Put(table[1..], o)
  }

  function TableOf(args: seq<Override>): seq<Override> {
    if args == [] then [] else Put(TableOf(args[..|args| - 1]), args[|args| - 1])
  }

  ghost predicate DistinctPaths(table: seq<Override>) {
    forall i, j :: 0 <= i < j < |table| ==> table[i].path != table[j].path
  }

  // The value given last for a path.
  function LastFor(args: seq<Override>, path: Path): Option<Value> {
    if args == [] then None
    else if args[|args| - 1].path == path then Some(args[|args| - 1].value)
    else LastFor(args[..|args| - 1], path)
  }

  lemma {:induction false} PutMember(table: seq<Override>, o: Override, x: Override)
    requires DistinctPaths(table)
    ensures x in Put(table, o) <==> x == o || (x in table && x.path != o.path)
    ensures DistinctPaths(Put(table, o))
    ensures forall y <- Put(table, o) :: y == o || y in table
  {
    if table != [] && table[0].path != o.path {
      assert DistinctPaths(table[1..]);
      PutMember(table[1..], o, x);
      assert forall y <- Put(table[1..], o) :: y.path != table[0].path;
    }
  }

  // The table holds every path once, with the value given last.
  lemma {:induction false} TableExactly(args: seq<Override>, x: Override)
    ensures DistinctPaths(TableOf(args))
    ensures x in TableOf(args) <==> LastFor(args, x.path) == Some(x.value)
  {
    if args != [] {
      TableExactly(args[..|args| - 1], x);
      PutMember(TableOf(args[..|args| - 1]), args[|args| - 1], x);
    }
  }

  // Overrides are made in the order in which their paths were first given.
  ghost predicate FirstBefore(args: seq<Override>, p: Path, q: Path) {
    exists a :: 0 <= a < |args| && args[a].path == p && forall b :: 0 <= b <= a ==> args[b].path != q
  }

  lemma {:induction false} PutOrder(table: seq<Override>, o: Override)
    ensures var after := Put(table, o);
            && |after| == (if exists i :: 0 <= i < |table| && table[i].path == o.path then |table| else |table| + 1)
            && (forall i :: 0 <= i < |table| ==> after[i].path == table[i].path)
            && (|after| > |table| ==> after[|table|].path == o.path)
  {
    if table != [] {
      if table[0].path != o.path {
        PutOrder(table[1..], o);
        assert forall i :: 0 < i < |table| ==> table[i] == table[1..][i - 1];
      } else {
        assert exists i :: 0 <= i < |table| && table[i].path == o.path;
      }
    }
  }

  predicate Given(args: seq<Override>, path: Path) {
    exists a :: 0 <= a < |args| && args[a].path == path
  }

  lemma GivenMore(args: seq<Override>, path: Path)
    requires args != []
    ensures Given(args, path) <==> Given(args[..|args| - 1], path) || args[|args| - 1].path == path
  {
    var init := args[..|args| - 1];
    if Given(init, path) {
      var a :| 0 <= a < |init| && init[a].path == path;
      assert args[a].path == path;
    }
    if a :| 0 <= a < |args| && args[a].path == path && a < |init| {
      assert init[a].path == path;
    }
  }

  lemma BeforeMore(args: seq<Override>, p: Path, q: Path)
    requires args != []
    ensures FirstBefore(args[..|args| - 1], p, q) ==> FirstBefore(args, p, q)
    ensures Given(args[..|args| - 1], p) && !Given(args[..|args| - 1], q) ==> FirstBefore(args, p, q)
  {
    var init := args[..|args| - 1];
    if FirstBefore(init, p, q) {
      var a :| 0 <= a < |init| && init[a].path == p && forall b :: 0 <= b <= a ==> init[b].path != q;
      assert args[a].path == p && forall b :: 0 <= b <= a ==> args[b] == init[b];
    }
    if Given(init, p) && !Given(init, q) {
      var a :| 0 <= a < |init| && init[a].path == p;
      assert args[a].path == p && forall b :: 0 <= b <= a ==> args[b] == init[b];
    }
  }

  // The paths of the table are the paths given.
  lemma {:induction false} TablePaths(args: seq<Override>, path: Path)
    ensures Given(TableOf(args), path) <==> Given(args, path)
  {
    hide Given;
    if args == [] {
      assert TableOf(args) == [];
    } else {
      TablePaths(args[..|args| - 1], path);
      GivenMore(args, path);
      PutGiven(TableOf(args[..|args| - 1]), args[|args| - 1], path);
    }
  }

  lemma PutGiven(table: seq<Override>, o: Override, path: Path)
    ensures Given(Put(table, o), path) <==> Given(table, path) || o.path == path
  {
    var after := Put(table, o);
    PutOrder(table, o);
    if Given(table, path) {
      var i :| 0 <= i < |table| && table[i].path == path;
      assert after[i].path == path;
    }
    if !Given(table, o.path) {
      assert after[|table|].path == o.path;
    } else {
      var i :| 0 <= i < |table| && table[i].path == o.path;
      assert after[i].path == o.path;
    }
    if i :| 0 <= i < |after| && after[i].path == path && i < |table| {
      assert table[i].path == path;
    }
  }

  lemma {:induction false} TableOrder(args: seq<Override>, i: nat, j: nat)
    requires i < j < |TableOf(args)|
    ensures FirstBefore(args, TableOf(args)[i].path, TableOf(args)[j].path)
  {
    hide FirstBefore;
    var init, last := args[..|args| - 1], args[|args| - 1];
    var table, after := TableOf(init), TableOf(args);
    PutOrder(table, last);
    var p, q := after[i].path, after[j].path;
    BeforeMore(args, p, q);
    assert table[i].path == p;
    if j < |table| {
      TableOrder(init, i, j);
    } else {
      assert Given(table, p) && !Given(table, q);
      TablePaths(init, p);
      TablePaths(init, q);
    }
  }

  // overrides[k] = v, for one argument after another
  method BuildTable(args: seq<Override>) returns (overrides: seq<Override>)
    ensures overrides == TableOf(args)
  {
    overrides := [];
    for i := 0 to |args|
      invariant overrides == TableOf(args[..i])
    {
      assert args[..i + 1][..i] == args[..i];
      overrides := Put(overrides, args[i]);
    }
    assert args[..|args|] == args;
  }
}
