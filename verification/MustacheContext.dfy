// Views, and the looking up of names in a stack of them.
module MustacheContext {
  import opened Wrappers
  import Decimal

  // Data as JavaScript sees it. A number is given by its text; only own properties count.
  datatype Value =
    | Undefined | Null | Bool(b: bool) | Num(text: string) | Str(s: string)
    | Arr(items: seq<Value>) | Obj(fields: map<string, Value>)

  predicate Falsy(v: Value) {
    match v
    case Undefined | Null => true
    case Bool(b) => !b
    case Num(t) => t == "0" || t == "NaN"
    case Str(s) => s == ""
    case _ => false
  }

  // value == null
  predicate NullLike(v: Value) {
    v.Undefined? || v.Null?
  }

  // String(value)
  function ToText(v: Value): string {
    match v
    case Undefined => "undefined"
    case Null => "null"
    case Bool(b) => if b then "true" else "false"
    case Num(t) => t
    case Str(s) => s
    case Arr(items) => JoinItems(items)
    case Obj(_) => "[object Object]"
  }

  function JoinItems(items: seq<Value>): string {
    if items == [] then ""
    else
      var first := if NullLike(items[0]) then "" else ToText(items[0]);
      if |items| == 1 then first else first + "," + JoinItems(items[1..])
  }

  // value[name], for a value that has properties at all
  function Member(v: Value, name: string): Value {
    match v
    case Obj(fields) => if name in fields then fields[name] else Undefined
    case Arr(items) =>
      if name == "length" then Num(Decimal.ToString(|items|))
      else if IsIndex(name, |items|) then items[IndexFrom(name, |items|)] else Undefined
    case Str(s) =>
      if name == "length" then Num(Decimal.ToString(|s|))
      else if IsIndex(name, |s|) then Str([s[IndexFrom(name, |s|)]]) else Undefined
    case _ => Undefined
  }

  predicate IsIndex(name: string, n: nat) {
    exists i :: 0 <= i < n && Decimal.ToString(i) == name
  }

  function IndexFrom(name: string, n: nat): (i: nat)
    requires IsIndex(name, n)
    ensures i < n && Decimal.ToString(i) == name
  {
    if Decimal.ToString(n - 1) == name then n - 1 else IndexFrom(name, n - 1)
  }

  // name.indexOf(".") > 0
  predicate Dotted(name: string) {
    name != "" && name[0] != '.' && '.' in name
  }

  function SplitDots(name: string): seq<string> {
    SplitDotsFrom(name, 0)
  }

  function SplitDotsFrom(name: string, n: nat): seq<string>
    requires n <= |name|
    decreases |name|, |name| - n
  {
    if n == |name| then [name]
    else if name[n] == '.' then [name[..n]] + SplitDotsFrom(name[n + 1..], 0)
    else SplitDotsFrom(name, n + 1)
  }

  // Going down a path as long as there is something to go into.
  function Drill(v: Value, names: seq<string>): Value
    decreases |names|
  {
    if Falsy(v) || names == [] then v else Drill(Member(v, names[0]), names[1..])
  }

  function LookIn(view: Value, name: string): Result<Value> {
    if Dotted(name) then Ok(Drill(view, SplitDots(name)))
    else if NullLike(view) then Err("TypeError: " + ToText(view) + " has no properties")
    else Ok(Member(view, name))
  }

  // The nearest enclosing view that has something by that name.
  function Find(views: seq<Value>, name: string): Result<Value>
    requires views != []
  {
    if name == "." then Ok(views[0]) else FindFrom(views, name)
  }

  function FindFrom(views: seq<Value>, name: string): Result<Value>
    requires views != []
    decreases |views|
  {
    match LookIn(views[0], name)
    case Err(e) => Err(e)
    case Ok(v) => if NullLike(v) && |views| > 1 then FindFrom(views[1..], name) else Ok(v)
  }

  // --- What looking up comes to.

  lemma FalsyExactly(v: Value)
    ensures Falsy(v) <==> v in {Undefined, Null, Bool(false), Num("0"), Num("NaN"), Str("")}
  {
  }

  // What an object has under a plain name, if it is anything but null.
  ghost predicate Has(view: Value, name: string, v: Value) {
    view.Obj? && name in view.fields && view.fields[name] == v && v != Undefined && v != Null
  }

  ghost predicate HasNone(view: Value, name: string) {
    view.Obj? && (name in view.fields ==> view.fields[name] in {Undefined, Null})
  }

  // The value of a name without dots is that of the nearest enclosing object that has one, even if
  // it counts as false; without any it is undefined or null.
  lemma {:induction false} FindNearest(views: seq<Value>, name: string, k: nat, v: Value)
    requires k < |views| && '.' !in name && Has(views[k], name, v)
    requires forall j :: 0 <= j < k ==> HasNone(views[j], name)
    ensures Find(views, name) == Ok(v)
    decreases k
  {
    assert name != ".";
    if k > 0 {
      assert HasNone(views[0], name);
      assert forall j :: 0 <= j < k - 1 ==> views[1..][j] == views[j + 1];
      FindNearest(views[1..], name, k - 1, v);
    }
  }

  lemma {:induction false} FindNothing(views: seq<Value>, name: string)
    requires views != [] && '.' !in name && forall j :: 0 <= j < |views| ==> HasNone(views[j], name)
    ensures Find(views, name).Ok? && Find(views, name).value in {Undefined, Null}
  {
    assert name != "." && HasNone(views[0], name);
    if |views| > 1 {
      assert forall j :: 0 <= j < |views| - 1 ==> views[1..][j] == views[j + 1];
      FindNothing(views[1..], name);
    }
  }

  // The name "." is the view itself.
  lemma FindSelf(view: Value, outer: seq<Value>)
    ensures Find([view] + outer, ".") == Ok(view)
  {
  }

  function JoinDots(names: seq<string>): string {
    if names == [] then "" else if |names| == 1 then names[0] else names[0] + "." + JoinDots(names[1..])
  }

  // A dotted name falls apart at its dots.
  lemma {:induction false} SplitDotsExactly(name: string, n: nat)
    requires n <= |name| && '.' !in name[..n]
    ensures var names := SplitDotsFrom(name, n);
            |names| > 0 && JoinDots(names) == name && forall x <- names :: '.' !in x
    decreases |name|, |name| - n
  {
    if n < |name| {
      if name[n] == '.' {
        SplitDotsExactly(name[n + 1..], 0);
        var rest := SplitDotsFrom(name[n + 1..], 0);
        assert ([name[..n]] + rest)[1..] == rest;
        assert name == name[..n] + "." + name[n + 1..];
      } else {
        assert name[..n + 1] == name[..n] + [name[n]];
        SplitDotsExactly(name, n + 1);
      }
    } else {
      assert name[..n] == name;
    }
  }

  lemma IndexIs(i: nat, n: nat)
    requires i < n
    ensures Decimal.ToString(i) != "length"
    ensures IsIndex(Decimal.ToString(i), n) && IndexFrom(Decimal.ToString(i), n) == i
  {
    var name := Decimal.ToString(i);
    assert Decimal.IsDigit(name[0]) && "length"[0] == 'l';
    hide Decimal.ToString;
    assert IsIndex(name, n);
    Decimal.ToStringInjective(i, IndexFrom(name, n));
  }

  // What arrays and strings have: a length, and their items by number.
  lemma MemberExactly(items: seq<Value>, s: string, i: nat)
    ensures Member(Arr(items), "length") == Num(Decimal.ToString(|items|))
    ensures Member(Str(s), "length") == Num(Decimal.ToString(|s|))
    ensures i < |items| ==> Member(Arr(items), Decimal.ToString(i)) == items[i]
    ensures i < |s| ==> Member(Str(s), Decimal.ToString(i)) == Str([s[i]])
  {
    hide Decimal.ToString, IsIndex, IndexFrom;
    if i < |items| {
      IndexIs(i, |items|);
    }
    if i < |s| {
      IndexIs(i, |s|);
    }
  }

  // Going down: one name after another, stopping at the first value that counts as false.
  lemma DrillExactly(v: Value, name: string, rest: seq<string>)
    ensures Drill(v, []) == v
    ensures Falsy(v) ==> Drill(v, [name] + rest) == v
    ensures v.Obj? ==> Drill(v, [name] + rest) == Drill(if name in v.fields then v.fields[name] else Undefined, rest)
  {
    assert ([name] + rest)[1..] == rest;
  }

  // A dotted name is looked for by going down from the view, and from the enclosing ones only if
  // that ends in nothing.
  lemma FindDotted(view: Value, outer: seq<Value>, name: string)
    requires '.' in name && name[0] != '.'
    ensures var v := Drill(view, SplitDotsFrom(name, 0));
            Find([view] + outer, name) ==
              if v in {Undefined, Null} && outer != [] then Find(outer, name) else Ok(v)
  {
    assert name != ".";
    assert ([view] + outer)[1..] == outer;
  }

  // An array as text: its items with commas between them, nothing for null.
  lemma ArrayText(v: Value, items: seq<Value>)
    ensures ToText(Arr([])) == "" && ToText(Arr([v])) == (if v in {Undefined, Null} then "" else ToText(v))
    ensures items != [] ==> ToText(Arr([v] + items)) == ToText(Arr([v])) + "," + ToText(Arr(items))
  {
    assert ([v] + items)[1..] == items;
  }

  class Context {
    const view: Value
    const parent: Context?
    ghost const views: seq<Value>  // this view and the enclosing ones
    var cache: map<string, Value>

    ghost predicate Linked()
      decreases |views|
    {
      && views != [] && views[0] == view
      && if parent == null then views == [view] else parent.views == views[1..] && parent.Linked()
    }

    // The cache holds nothing that looking the name up again would not find.
    ghost predicate Valid()
      reads this
    {
      Linked() && forall name <- cache :: Find(views, name) == Ok(cache[name])
    }

    constructor (view: Value, parent: Context?)
      requires parent != null ==> parent.Linked()
      ensures Valid() && this.view == view && this.parent == parent
      ensures views == if parent == null then [view] else [view] + parent.views
    {
      this.view, this.parent := view, parent;
      this.views := if parent == null then [view] else [view] + parent.views;
      cache := map[];
    }

    method Lookup(name: string) returns (r: Result<Value>)
      requires Valid()
      modifies this`cache
      ensures Valid() && r == Find(views, name)
    {
      var value := if name in cache then cache[name] else Undefined;
      if Falsy(value) {
        if name == "." {
          value := view;
        } else {
          var found := Search(name);
          if found.Err? {
            return found;
          }
          value := found.value;
        }
        cache := cache[name := value];
      }
      r := Ok(value);
    }

    // Up the parents until one has a value that is not null.
    method Search(name: string) returns (r: Result<Value>)
      requires Linked()
      ensures r == FindFrom(views, name)
    {
      var value := Undefined;
      var context: Context? := this;
      while context != null
        invariant context != null ==> context.Linked() && FindFrom(context.views, name) == FindFrom(views, name)
        invariant context == null ==> FindFrom(views, name) == Ok(value)
        decreases if context != null then |context.views| else 0
      {
        if Dotted(name) {
          value := DrillDown(context.view, SplitDots(name));
        } else {
          if NullLike(context.view) {
            return Err("TypeError: " + ToText(context.view) + " has no properties");
          }
          value := Member(context.view, name);
        }
        if !NullLike(value) {
          break;
        }
        context := context.parent;
      }
      r := Ok(value);
    }
  }

  method DrillDown(view: Value, names: seq<string>) returns (value: Value)
    ensures value == Drill(view, names)
  {
    value := view;
    var i := 0;
    while !Falsy(value) && i < |names|
      invariant 0 <= i <= |names|
      invariant Drill(value, names[i..]) == Drill(view, names)
    {
      assert names[i..][1..] == names[i + 1..];
      value := Member(value, names[i]);
      i := i + 1;
    }
  }
}
