// jQuery.extend: copying properties between objects, in place, shallow or deep.
module Extend {
  import opened Wrappers
  import opened ExtendTree
  import opened ExtendHeap
  import opened ExtendFacts
  import opened ExtendSharing

  // A source as the heap has it, down to the last plain object or array.
  ghost predicate Shows(s: Shape)
    reads Objs(s)
  {
    s.Node? ==>
      && s.o.props.Keys == s.fields.Keys
      && forall k <- s.fields :: Root(s.fields[k]) == s.o.props[k] && Shows(s.fields[k])
  }

  ghost predicate Shaped(v: Val, s: Shape)
    reads Objs(s)
  {
    Root(s) == v && v.Ref? == s.Node? && Full(s) && Shows(s)
  }

  ghost function Snap(area: set<Obj>): Heap
    reads area
  {
    map o | o in area :: o.props
  }

  // The objects of a shape exist as soon as the shape does.
  lemma {:induction false} Exist(s: Shape)
    ensures allocated(Objs(s))
  {
    if s.Node? {
      forall k | k in s.fields
        ensures allocated(Objs(s.fields[k]))
      {
        Exist(s.fields[k]);
      }
    }
  }

  lemma Inside(s: Shape, k: string)
    requires s.Node? && k in s.fields
    ensures Objs(s.fields[k]) <= Objs(s)
    ensures s.o in Objs(s)
  {
  }

  // The object a copy is merged into: the one in place if it is of the same kind, or a new one.
  method Clone(target: Obj, name: string, kind: Kind, ghost area: set<Obj>, ghost others: set<Obj>) returns (clone: Obj)
    requires target in area && Closed(Snap(area)) && area !! others && kind != Other
    ensures clone.kind == kind && clone !in others && (clone in area || fresh(clone))
    ensures HasKind(Snap(area), target, name, kind) ==> Ref(clone) == Snap(area)[target][name]
    ensures !HasKind(Snap(area), target, name, kind) ==> clone !in area
    ensures Snap(area + {clone}) == With(Snap(area), clone)
  {
    var src := if name in target.props then target.props[name] else Undefined;
    if src.Ref? && src.o.kind == kind {
      clone := src.o;
      assert Snap(area)[target][name] == src && clone in Snap(area);
      assert area + {clone} == area;
    } else {
      clone := new Obj(kind);
      assert Snap(area + {clone}) == Snap(area)[clone := map[]];
    }
  }

  // target[ name ] = v
  method Attach(target: Obj, name: string, v: Val, ghost area: set<Obj>)
    requires target in area
    modifies target
    ensures Snap(area) == old(Snap(area))[target := old(Snap(area))[target][name := v]]
  {
    target.props := target.props[name := v];
  }

  // target[ name ] = extend( true, clone, copy )
  method MergeCopy(target: Obj, name: string, copy: Obj, ghost area: set<Obj>, ghost c: Shape, ghost others: set<Obj>)
    returns (ghost step: Step, ghost area': set<Obj>)
    requires target in area && Closed(Snap(area)) && area !! others
    requires c.Node? && c.o == copy && copy.kind != Other && Shows(c) && Full(c) && Objs(c) <= others
    modifies area
    ensures area <= area' && (forall x <- area' :: x in area || fresh(x)) && area' !! others
    ensures step.name == name && Suits(old(Snap(area)), target, c, step, others)
    ensures Snap(area') == Do(old(Snap(area)), target, step)
    decreases c, 2
  {
    hide HasKind, Shows, Full, Fits, Play, Closed, Objs;
    Exist(c);
    ghost var h := Snap(area);
    var clone := Clone(target, name, copy.kind, area, others);
    WithClosed(h, clone);
    ghost var steps;
    steps, area' := Merge(clone, copy, area + {clone}, c, others);
    step := Into(name, clone, steps);
    Attach(target, name, Ref(clone), area');
  }

  // One turn of the loop over the names of a source. The area is the target's part of the heap.
  method MergeName(target: Obj, options: Obj, name: string, ghost area: set<Obj>, ghost s: Shape,
                   ghost others: set<Obj>)
    returns (ghost step: Step, ghost area': set<Obj>)
    requires target in area && Closed(Snap(area)) && area !! others
    requires s.Node? && s.o == options && Shows(s) && Full(s) && name in s.fields && Objs(s) <= others
    modifies area
    ensures area <= area' && (forall x <- area' :: x in area || fresh(x)) && area' !! others
    ensures step.name == name && Suits(old(Snap(area)), target, s.fields[name], step, others)
    ensures Snap(area') == Do(old(Snap(area)), target, step)
    decreases s, 0, 0
  {
    hide Fits, Play, Closed;
    Inside(s, name);
    area' := area;
    var copy := options.props[name];
    if copy == Ref(target) {
      step := Skip(name);
      assert s.fields[name].Leaf?;
    } else if Copied(copy) {
      step, area' := MergeCopy(target, name, copy.o, area, s.fields[name], others);
    } else if copy != Undefined {
      step := Write(name, copy);
      Attach(target, name, copy, area);
    } else {
      step := Skip(name);
    }
  }

  // The loop over the names of one source, in any order. Nothing outside the target's part of the
  // heap is written; the new heap is what the steps make of the old one.
  method Merge(target: Obj, options: Obj, ghost area: set<Obj>, ghost s: Shape, ghost others: set<Obj>)
    returns (ghost steps: seq<Step>, ghost area': set<Obj>)
    requires target in area && Closed(Snap(area)) && area !! others
    requires s.Node? && s.o == options && Shows(s) && Full(s) && Objs(s) <= others
    modifies area
    ensures area <= area' && (forall x <- area' :: x in area || fresh(x)) && area' !! others
    ensures Fits(old(Snap(area)), target, s.fields, steps, others)
    ensures Snap(area') == Play(old(Snap(area)), target, steps)
    decreases s, 1
  {
    hide Shows, Full, Fits, Play, Do, Suits, Closed, Objs;
    steps, area' := [], area;
    ghost var h := Snap(area);
    Begin(h, target, s, others);
    var names := options.props.Keys;
    ghost var done: map<string, Shape> := map[];
    while names != {}
      invariant names <= s.fields.Keys && done == s.fields - names
      invariant area <= area' && (forall x <- area' :: x in area || fresh(x)) && area' !! others
      invariant Shows(s)
      invariant Fits(h, target, done, steps, others) && Snap(area') == Play(h, target, steps)
      invariant Closed(Snap(area'))
      decreases names
    {
      var name :| name in names;
      names := names - {name};
      ghost var step;
      step, area' := MergeStep(target, options, name, area', s, others);
      OneMore(h, target, done, steps, s.fields[name], step, others);
      done := done[name := s.fields[name]];
      steps := steps + [step];
    }
    assert done == s.fields;
  }

  // The source is as it was, and the target's part of the heap is closed again.
  method MergeStep(target: Obj, options: Obj, name: string, ghost area: set<Obj>, ghost s: Shape,
                   ghost others: set<Obj>)
    returns (ghost step: Step, ghost area': set<Obj>)
    requires target in area && Closed(Snap(area)) && area !! others
    requires s.Node? && s.o == options && Shows(s) && Full(s) && name in s.fields && Objs(s) <= others
    modifies area
    ensures area <= area' && (forall x <- area' :: x in area || fresh(x)) && area' !! others
    ensures step.name == name && Suits(old(Snap(area)), target, s.fields[name], step, others)
    ensures Snap(area') == Do(old(Snap(area)), target, step)
    ensures Shows(s) && Closed(Snap(area'))
    decreases s, 0, 1
  {
    hide Shows, Fits, Play, Do, Suits, Closed, Objs;
    Exist(s);
    step, area' := MergeName(target, options, name, area, s, others);
    assert old(Shows(s)) && forall x <- Objs(s) :: x.props == old(x.props);
    DoFrame(old(Snap(area)), target, s.fields[name], step, others);
  }

  lemma Begin(h: Heap, target: Obj, s: Shape, others: set<Obj>)
    requires target in h && s.Node? && Shows(s)
    ensures Fits(h, target, map[], [], others) && Play(h, target, []) == h
    ensures s.o.props.Keys == s.fields.Keys && s.fields - s.fields.Keys == map[]
  {
  }

  lemma WithClosed(h: Heap, o: Obj)
    requires Closed(h)
    ensures Closed(With(h, o))
  {
  }

  ghost function AllObjs(ss: seq<Shape>): set<Obj> {
    set i, x | 0 <= i < |ss| && x in Objs(ss[i]) :: x
  }

  // The loop over the sources of a deep copy, for any target at all: no object of a source is
  // written, and none is reached from the target's part of the heap afterwards. Where no object
  // that is merged into is reached twice, the target becomes the overlay of the sources.
  method MergeAll(target: Obj, sources: seq<Val>, ghost area: set<Obj>, ghost ss: seq<Shape>, ghost t: Shape)
    returns (ghost logs: seq<seq<Step>>, ghost area': set<Obj>)
    requires target in area && Closed(Snap(area)) && area !! AllObjs(ss)
    requires |sources| == |ss| && forall i :: 0 <= i < |ss| ==> Shaped(sources[i], ss[i])
    modifies area
    ensures area <= area' && (forall x <- area' :: x in area || fresh(x)) && area' !! AllObjs(ss)
    ensures Closed(Snap(area'))
    ensures forall i :: 0 <= i < |ss| ==> Shaped(sources[i], ss[i])
    ensures FitsAll(old(Snap(area)), target, ss, logs, AllObjs(ss))
    ensures Snap(area') == PlayAll(old(Snap(area)), target, logs)
    ensures Unfolded(old(Snap(area)), target, t, ss) ==>
              Overlaid(old(Snap(area)), t, ss, Snap(area'), ReshapeAll(t, logs))
  {
    hide Shaped, AllObjs, Closed, FitsAll, PlayAll, Unfolded, Overlaid, Fits, Play, Objs;
    logs, area' := [], area;
    ghost var h := Snap(area);
    NoSources(h, target, AllObjs(ss));
    for i := 0 to |sources|
      invariant area <= area' && (forall x <- area' :: x in area || fresh(x)) && area' !! AllObjs(ss)
      invariant Closed(Snap(area'))
      invariant forall j :: 0 <= j < |ss| ==> Shaped(sources[j], ss[j])
      invariant FitsAll(h, target, ss[..i], logs, AllObjs(ss)) && Snap(area') == PlayAll(h, target, logs)
    {
      ghost var steps: seq<Step> := [];
      Kinds(sources[i], ss[i]);
      Nothing(Snap(area'), target);
      if sources[i].Ref? {
        steps, area' := MergeSource(target, sources, i, area', ss);
      }
      OneMoreSource(h, target, ss[..i], logs, ss[i], steps, AllObjs(ss));
      assert ss[..i + 1] == ss[..i] + [ss[i]];
      logs := logs + [steps];
    }
    assert ss[..|ss|] == ss;
    if Unfolded(h, target, t, ss) {
      forall i | 0 <= i < |ss|
        ensures Full(ss[i])
      {
        Kinds(sources[i], ss[i]);
      }
      Overlays(h, target, t, ss, logs, AllObjs(ss));
    }
  }

  lemma Kinds(v: Val, s: Shape)
    requires Shaped(v, s)
    ensures v.Ref? == s.Node? && Full(s)
  {
  }

  lemma Nothing(h: Heap, target: Obj)
    requires target in h
    ensures Play(h, target, []) == h
  {
  }

  lemma NoSources(h: Heap, target: Obj, others: set<Obj>)
    requires target in h
    ensures FitsAll(h, target, [], [], others) && PlayAll(h, target, []) == h
  {
  }

  // One source that is an object; all of them stay as they are.
  method MergeSource(target: Obj, sources: seq<Val>, i: nat, ghost area: set<Obj>, ghost ss: seq<Shape>)
    returns (ghost steps: seq<Step>, ghost area': set<Obj>)
    requires target in area && Closed(Snap(area)) && area !! AllObjs(ss)
    requires |sources| == |ss| && forall j :: 0 <= j < |ss| ==> Shaped(sources[j], ss[j])
    requires i < |ss| && sources[i].Ref?
    modifies area
    ensures area <= area' && (forall x <- area' :: x in area || fresh(x)) && area' !! AllObjs(ss)
    ensures Closed(Snap(area'))
    ensures forall j :: 0 <= j < |ss| ==> Shaped(sources[j], ss[j])
    ensures ss[i].Node? && Fits(old(Snap(area)), target, ss[i].fields, steps, AllObjs(ss))
    ensures Snap(area') == Play(old(Snap(area)), target, steps)
  {
    hide Shows, Fits, Play, Closed, Objs, Full;
    forall j | 0 <= j < |ss|
      ensures allocated(Objs(ss[j])) && Objs(ss[j]) <= AllObjs(ss)
    {
      Exist(ss[j]);
    }
    ghost var h := Snap(area);
    FullParts(ss[i]);
    steps, area' := Merge(target, sources[i].o, area, ss[i], AllObjs(ss));
    forall j | 0 <= j < |ss|
      ensures Shaped(sources[j], ss[j])
    {
      assert old(Shaped(sources[j], ss[j]));
    }
    PlayFrame(h, target, ss[i].fields, steps, AllObjs(ss));
  }

  lemma FullParts(s: Shape)
    requires s.Node? && Full(s)
    ensures FullFields(s.fields)
  {
  }

  // A shallow copy of one source.
  function Assigned(target: Obj, t: map<string, Val>, s: map<string, Val>): map<string, Val> {
    map k | k in t.Keys + s.Keys && (k in t || (s[k] != Undefined && s[k] != Ref(target))) ::
      if k in s && s[k] != Undefined && s[k] != Ref(target) then s[k] else t[k]
  }

  lemma AssignedStep(target: Obj, t: map<string, Val>, s: map<string, Val>, k: string, v: Val)
    requires k !in s
    ensures var before := Assigned(target, t, s);
            Assigned(target, t, s[k := v]) == if v == Undefined || v == Ref(target) then before else before[k := v]
    ensures Assigned(target, t, map[]) == t
  {
  }

  // The same loop without the recursion: objects are passed along, and target may be a source.
  method Assign(target: Obj, options: Obj)
    modifies target`props
    ensures target.props == Assigned(target, old(target.props), old(options.props))
  {
    var names := options.props.Keys;
    ghost var t, s := target.props, options.props;
    ghost var done: map<string, Val> := map[];
    AssignedStep(target, t, done, "", Undefined);
    hide Assigned;
    while names != {}
      invariant names <= s.Keys && done == s - names
      invariant target.props == Assigned(target, t, done)
      invariant forall k <- s :: k in options.props && options.props[k] == s[k]
      decreases names
    {
      var name :| name in names;
      names := names - {name};
      AssignedStep(target, t, done, name, s[name]);
      done := done[name := s[name]];
      var copy := options.props[name];
      if copy != Ref(target) && copy != Undefined {
        target.props := target.props[name := copy];
      }
    }
    assert done == s;
  }

  // All sources of a shallow copy; the target itself adds nothing.
  ghost function AssignedAll(target: Obj, t: map<string, Val>, sources: seq<Val>): map<string, Val>
    reads set v | v in sources && v.Ref? :: v.o
  {
    if sources == [] then t
    else
      var last := sources[|sources| - 1];
      var before := AssignedAll(target, t, sources[..|sources| - 1]);
      if !last.Ref? || last == Ref(target) then before else Assigned(target, before, last.o.props)
  }

  // The loop over the sources of a shallow copy.
  method AssignAll(target: Obj, sources: seq<Val>)
    modifies target`props
    ensures target.props == old(AssignedAll(target, target.props, sources))
  {
    ghost var t := target.props;
    for i := 0 to |sources|
      invariant target.props == old(AssignedAll(target, t, sources[..i]))
    {
      assert sources[..i + 1][..i] == sources[..i];
      if sources[i].Ref? {
        if sources[i] == Ref(target) {
          SelfAssigned(target, target.props);
        }
        Assign(target, sources[i].o);
      }
    }
    assert sources[..|sources|] == sources;
  }

  lemma SelfAssigned(target: Obj, t: map<string, Val>)
    ensures Assigned(target, t, t) == t
  {
  }

  // The arguments of jQuery.extend: a flag in front asks for a deep copy.
  datatype Arg = Flag(b: bool) | Of(v: Val)

  function AsVal(a: Arg): Val {
    if a.Flag? then Prim(if a.b then 1 else 0) else a.v
  }

  predicate Deep(args: seq<Arg>) {
    args != [] && args[0] == Flag(true)
  }

  function First(args: seq<Arg>): nat {
    if args != [] && args[0].Flag? then 1 else 0
  }

  // With a single object, jQuery itself is extended.
  function Sources(args: seq<Arg>): seq<Val> {
    var i := if |args| == First(args) + 1 then First(args) else First(args) + 1;
    if |args| <= i then [] else seq(|args| - i, j requires 0 <= j < |args| - i => AsVal(args[i + j]))
  }

  // The object that is extended in place, if it is not a new one.
  function InPlace(self: Obj, args: seq<Arg>): Option<Obj> {
    var i := First(args);
    if |args| == i + 1 then Some(self)
    else if i < |args| && AsVal(args[i]).Ref? then Some(AsVal(args[i]).o)
    else None
  }

  function AllVals(args: seq<Arg>): (vs: seq<Val>)
    ensures |vs| == |args| && forall i :: 0 <= i < |vs| ==> vs[i] == AsVal(args[i])
  {
    seq(|args|, i requires 0 <= i < |args| => AsVal(args[i]))
  }

  // A flag may stand in front; then come the target and the sources. Where the target would be no
  // object, a new one is.
  lemma ArgumentsMean(self: Obj, front: seq<Arg>, deep: bool, v: Val, rest: seq<Arg>)
    requires rest != [] && (front == [Flag(deep)] || (front == [] && !deep))
    ensures var args := front + [Of(v)] + rest;
            && Deep(args) == deep && Sources(args) == AllVals(rest)
            && InPlace(self, args) == if v.Ref? then Some(v.o) else None
  {
    var args := front + [Of(v)] + rest;
    assert args[|front|] == Of(v) && forall j :: 0 <= j < |rest| ==> args[|front| + 1 + j] == rest[j];
  }

  // With one object only, jQuery itself is extended by it.
  lemma AloneMeans(self: Obj, front: seq<Arg>, deep: bool, v: Val)
    requires front == [Flag(deep)] || (front == [] && !deep)
    ensures var args := front + [Of(v)];
            Deep(args) == deep && Sources(args) == [v] && InPlace(self, args) == Some(self)
    ensures InPlace(self, []) == None && Sources([]) == []
  {
    var args := front + [Of(v)];
    assert args[|front|] == Of(v) && Sources(args)[0] == AsVal(args[|front|]);
  }

  // In a shallow copy the value of the last source that has one stays; undefined values and the
  // target itself do not count.
  ghost predicate Brings(target: Obj, v: Val, k: string)
    reads if v.Ref? then {v.o} else {}
  {
    v.Ref? && v != Ref(target) && k in v.o.props && v.o.props[k] != Undefined && v.o.props[k] != Ref(target)
  }

  lemma {:induction false} LastWins(target: Obj, t: map<string, Val>, sources: seq<Val>, k: string, i: int)
    requires -1 <= i < |sources| && (i >= 0 ==> Brings(target, sources[i], k))
    requires forall j :: i < j < |sources| ==> !Brings(target, sources[j], k)
    ensures var r := AssignedAll(target, t, sources);
            if i >= 0 then k in r && r[k] == sources[i].o.props[k]
            else (k in r <==> k in t) && (k in t ==> r[k] == t[k])
  {
    if sources != [] {
      var n := |sources| - 1;
      if i < n {
        LastWins(target, t, sources[..n], k, i);
      }
    }
  }

  // The target, and the sources, that the arguments stand for.
  method Prepare(self: Obj, args: seq<Arg>) returns (deep: bool, target: Obj, sources: seq<Val>)
    ensures deep == Deep(args) && sources == Sources(args)
    ensures InPlace(self, args).Some? ==> target == InPlace(self, args).value
    ensures InPlace(self, args).None? ==> fresh(target) && target.kind == Plain && target.props == map[]
    ensures InPlace(self, args).None? ==> Ref(target) !in sources
  {
    var i := 1;
    deep := false;
    var first := if |args| > 0 then AsVal(args[0]) else Undefined;
    if |args| > 0 && args[0].Flag? {
      deep := args[0].b;
      first := if |args| > 1 then AsVal(args[1]) else Undefined;
      i := 2;
    }
    if |args| == i {
      target := self;
      i := i - 1;
    } else if first.Ref? {
      target := first.o;
    } else {
      target := new Obj(Plain);
      assert forall j :: 0 <= j < |args| ==> AsVal(args[j]) != Ref(target);
    }
    sources := if |args| <= i then [] else seq(|args| - i, j requires 0 <= j < |args| - i => AsVal(args[i + j]));
  }

  // jQuery.extend
  method Extend(self: Obj, args: seq<Arg>, ghost area: set<Obj>, ghost ss: seq<Shape>, ghost t: Shape)
    returns (target: Obj, ghost logs: seq<seq<Step>>, ghost area': set<Obj>)
    requires Deep(args) ==> |ss| == |Sources(args)| && forall i :: 0 <= i < |ss| ==> Shaped(Sources(args)[i], ss[i])
    requires Deep(args) && InPlace(self, args).Some? ==>
               InPlace(self, args).value in area && Closed(Snap(area)) && area !! AllObjs(ss)
    modifies if InPlace(self, args).None? then {} else if Deep(args) then area else {InPlace(self, args).value}
    ensures if InPlace(self, args).Some? then target == InPlace(self, args).value
            else fresh(target) && target.kind == Plain
    ensures Deep(args) ==>
              var h := if InPlace(self, args).Some? then old(Snap(area)) else map[target := map[]];
              var u := if InPlace(self, args).Some? then t else Node(target, map[]);
              && target in h && target in area'
              && FitsAll(h, target, ss, logs, AllObjs(ss)) && Snap(area') == PlayAll(h, target, logs)
              && Closed(Snap(area')) && area' !! AllObjs(ss)
              && (forall i :: 0 <= i < |ss| ==> Shaped(Sources(args)[i], ss[i]))
              && (Unfolded(h, target, u, ss) ==> Overlaid(h, u, ss, Snap(area'), ReshapeAll(u, logs)))
    ensures !Deep(args) && InPlace(self, args).Some? ==>
              target.props == old(AssignedAll(target, target.props, Sources(args)))
    ensures !Deep(args) && InPlace(self, args).None? ==> target.props == AssignedAll(target, map[], Sources(args))
  {
    hide Shows, Full, Objs, Deep, Sources, InPlace, AssignedAll, Closed, FitsAll, PlayAll, Unfolded, Overlaid;
    if Deep(args) {
      forall i | 0 <= i < |ss|
        ensures allocated(Objs(ss[i]))
      {
        Exist(ss[i]);
      }
    }
    ghost var place := InPlace(self, args);
    ghost var shallow := if place.Some? then AssignedAll(place.value, place.value.props, Sources(args)) else map[];
    var deep, sources;
    deep, target, sources := Prepare(self, args);
    assert place.Some? ==> AssignedAll(target, target.props, sources) == shallow;
    logs, area' := [], area;
    if deep {
      ghost var u := t;
      if place.None? {
        area', u := {target}, Node(target, map[]);
        Alone(target);
      } else {
        assert Snap(area) == old(Snap(area));
      }
      forall i | 0 <= i < |ss|
        ensures Shaped(sources[i], ss[i])
      {
        assert old(Shaped(sources[i], ss[i]));
      }
      logs, area' := MergeAll(target, sources, area', ss, u);
    } else {
      label before:
      AssignAll(target, sources);
      if place.None? {
        assert old@before(AssignedAll(target, map[], sources)) == AssignedAll(target, map[], sources);
      }
    }
  }

  lemma Alone(o: Obj)
    requires o.props == map[]
    ensures Snap({o}) == map[o := map[]] && Closed(Snap({o}))
  {
  }

  // The smallest failing case: one object stands under two names of the target, the source has
  // a value for one of them, and the deep copy shows it under both.
  method SharedOnce(self: Obj, target: Obj, inner: Obj, source: Obj, part: Obj, a: string, b: string, c: string)
    requires target.kind == inner.kind == source.kind == part.kind == Plain && a != b
    requires {target, inner} !! {source, part} && target != inner && source != part
    requires target.props == map[a := Ref(inner), b := Ref(inner)] && inner.props == map[]
    requires source.props == map[a := Ref(part)] && part.props == map[c := Null]
    modifies target, inner
    ensures target.props == map[a := Ref(inner), b := Ref(inner)] && inner.props == map[c := Null]
    ensures var empty, full := Tree(Plain, map[]), Tree(Plain, map[c := Atom(Null)]);
            && old(ReadsAs(Snap({target, inner}), target, Tree(Plain, map[a := empty, b := empty])))
            && old(ReadsAs(Snap({source, part}), source, Tree(Plain, map[a := full])))
            && Overlay(Undefined, Tree(Plain, map[a := empty, b := empty]), Tree(Plain, map[a := full])) ==
                 Tree(Plain, map[a := full, b := empty])
            && ReadsAs(Snap({target, inner}), target, Tree(Plain, map[a := full, b := full]))
  {
    hide Shaped, AllObjs, FitsAll, PlayAll, Unfolded, Overlaid, Fits, Play, Objs;
    hide AssignedAll, Overlay, Deep, Sources, InPlace;
    ghost var area := {target, inner};
    ghost var h := Snap(area);
    ghost var s := Node(source, map[a := Node(part, map[c := Leaf(Null)])]);
    var args := [Flag(true), Of(Ref(target)), Of(Ref(source))];
    TwoObjects(self, target, source);
    OneSource(source, part, a, c);
    SharedBefore(h, target, inner, a, b, c);
    SharedBefore(Snap({source, part}), source, part, a, a, c);
    SharedOverlay(a, b, c);
    var result, logs, area' := Extend(self, args, area, [s], s);
    OneMerged(h, target, inner, s, part, a, c, logs, AllObjs([s]));
    assert Snap(area').Keys == area';
    assert h[inner := h[inner][c := Null]].Keys == area;
    assert Snap(area')[inner] == map[c := Null] && Snap(area')[target] == h[target];
    SharedBefore(Snap(area), target, inner, a, b, c);
  }

  lemma TwoObjects(self: Obj, target: Obj, source: Obj)
    ensures var args := [Flag(true), Of(Ref(target)), Of(Ref(source))];
            Deep(args) && Sources(args) == [Ref(source)] && InPlace(self, args) == Some(target)
  {
    var args := [Flag(true), Of(Ref(target)), Of(Ref(source))];
    assert First(args) == 1 && |Sources(args)| == 1 && Sources(args)[0] == AsVal(args[2]);
  }

  lemma OneSource(source: Obj, part: Obj, a: string, c: string)
    requires source != part && part.kind == Plain
    requires source.props == map[a := Ref(part)] && part.props == map[c := Null]
    ensures var s := Node(source, map[a := Node(part, map[c := Leaf(Null)])]);
            Shaped(Ref(source), s) && AllObjs([s]) == {source, part}
  {
    var p := Node(part, map[c := Leaf(Null)]);
    var s := Node(source, map[a := p]);
    OneField(part, c, Leaf(Null));
    OneField(source, a, p);
    assert Shows(p) && Full(p);
    assert forall i :: 0 <= i < |[s]| ==> [s][i] == s;
    assert [s][0] == s;
  }

  lemma OneField(o: Obj, k: string, c: Shape)
    ensures Objs(Node(o, map[k := c])) == {o} + Objs(c)
  {
    var s := Node(o, map[k := c]);
    assert forall j <- s.fields :: s.fields[j] == c;
    assert k in s.fields && s.fields[k] == c;
  }

  // What these heaps amount to.
  lemma SharedBefore(h: Heap, target: Obj, inner: Obj, a: string, b: string, c: string)
    requires target in h && inner in h && target.kind == inner.kind == Plain
    requires h[target] == map[a := Ref(inner), b := Ref(inner)] && (h[inner] == map[] || h[inner] == map[c := Null])
    ensures h[inner] == map[] ==>
              ReadsAs(h, target, Tree(Plain, map[a := Tree(Plain, map[]), b := Tree(Plain, map[])]))
    ensures h[inner] == map[c := Null] ==>
              var full := Tree(Plain, map[c := Atom(Null)]);
              ReadsAs(h, target, Tree(Plain, map[a := full, b := full]))
  {
    assert h[inner] == map[] ==> ReadsAs(h, inner, Tree(Plain, map[]));
    assert h[inner] == map[c := Null] ==> ReadsAs(h, inner, Tree(Plain, map[c := Atom(Null)]));
  }

  lemma SharedOverlay(a: string, b: string, c: string)
    requires a != b
    ensures var empty, full := Tree(Plain, map[]), Tree(Plain, map[c := Atom(Null)]);
            Overlay(Undefined, Tree(Plain, map[a := empty, b := empty]), Tree(Plain, map[a := full])) ==
              Tree(Plain, map[a := full, b := empty])
  {
    var empty, full := Tree(Plain, map[]), Tree(Plain, map[c := Atom(Null)]);
    var t, s := Tree(Plain, map[a := empty, b := empty]), Tree(Plain, map[a := full]);
    assert Overlay(Undefined, empty, full).fields == full.fields;
    assert Over(t, a, full) == full;
    assert Overlay(Undefined, t, s).fields == map[a := full, b := empty];
  }

  lemma OneMerged(h: Heap, target: Obj, inner: Obj, s: Shape, part: Obj, a: string, c: string, logs: seq<seq<Step>>,
                  others: set<Obj>)
    requires target in h && inner in h && inner.kind == part.kind == Plain
    requires a in h[target] && h[target][a] == Ref(inner) && h[inner] == map[]
    requires s.Node? && s.fields == map[a := Node(part, map[c := Leaf(Null)])]
    requires FitsAll(h, target, [s], logs, others)
    ensures PlayAll(h, target, logs) == h[inner := h[inner][c := Null]]
  {
    hide Fits, Play;
    assert [s][..0] == [] && |logs| == 1 && logs[..0] == [];
    assert PlayAll(h, target, []) == h;
    assert Fits(h, target, s.fields, logs[0], others);
    assert PlayAll(h, target, logs) == Play(h, target, logs[0]);
    assert FindIn(h, Ref(target), [a]) == Some(Ref(inner)) by {
      assert [a][1..] == [] && FindIn(h, Ref(inner), []) == Some(Ref(inner));
    }
    assert Spine(h, target, s, [a], c, Null) by {
      assert [a][1..] == [] && Spine(h, inner, s.fields[a], [], c, Null);
    }
    SpineMerges(h, target, s, [a], c, Null, inner, logs[0], others);
  }
}
