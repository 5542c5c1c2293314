// Targets of a deep copy in which an object is reached twice: exactly these do not become the
// overlay of every source.
module ExtendSharing {
  import opened Wrappers
  import opened ExtendTree
  import opened ExtendHeap
  import opened ExtendFacts

  // What a path leads to in the heap, through plain objects and arrays.
  ghost function FindIn(h: Heap, v: Val, path: seq<string>): Option<Val>
    decreases path
  {
    if path == [] then Some(v)
    else if v.Ref? && v.o in h && path[0] in h[v.o] && (|path| > 1 ==> Copied(h[v.o][path[0]])) then
      FindIn(h, h[v.o][path[0]], path[1..])
    else None
  }

  // A source that has nothing but one value, below objects of the kinds on the way.
  ghost predicate Spine(h: Heap, target: Obj, s: Shape, path: seq<string>, x: string, v: Val)
    requires target in h
    decreases path
  {
    && s.Node?
    && if path == [] then s.fields == map[x := Leaf(v)]
       else
         && path[0] in h[target] && Copied(h[target][path[0]]) && h[target][path[0]].o in h
         && path[0] in s.fields && s.fields.Keys == {path[0]}
         && s.fields[path[0]].Node? && s.fields[path[0]].o.kind == h[target][path[0]].o.kind
         && Spine(h, h[target][path[0]].o, s.fields[path[0]], path[1..], x, v)
  }

  // Merging it changes one object in one name.
  lemma {:induction false} SpineMerges(h: Heap, target: Obj, s: Shape, path: seq<string>, x: string, v: Val,
                                       shared: Obj, steps: seq<Step>, others: set<Obj>)
    requires target in h && Spine(h, target, s, path, x, v) && Fits(h, target, s.fields, steps, others)
    requires FindIn(h, Ref(target), path) == Some(Ref(shared)) && shared in h && x !in h[shared]
    requires v != Undefined && v != Ref(shared)
    ensures Play(h, target, steps) == h[shared := h[shared][x := v]]
    decreases path
  {
    var k := if path == [] then x else path[0];
    OneStep(h, target, s.fields, k, steps, others);
    if path != [] {
      var clone := h[target][k].o;
      SpineMerges(h, clone, s.fields[k], path[1..], x, v, shared, steps[0].steps, others);
      var after := Play(h, clone, steps[0].steps);
      assert after[target][k] == Ref(clone);
      assert after[target][k := Ref(clone)] == after[target];
    }
  }

  lemma OneStep(h: Heap, target: Obj, fields: map<string, Shape>, k: string, steps: seq<Step>, others: set<Obj>)
    requires target in h && Fits(h, target, fields, steps, others) && fields.Keys == {k}
    ensures |steps| == 1 && steps[0].name == k && Suits(h, target, fields[k], steps[0], others)
    ensures Play(h, target, steps) == Do(h, target, steps[0])
  {
    var init := steps[..|steps| - 1];
    assert k in fields && steps[|steps| - 1].name == k && (fields - {k}) == map[];
    assert Fits(h, target, map[], init, others);
    assert init == [];
  }

  // Where one object is reached along two paths, merging a value in along the one also shows it
  // along the other, although neither the target had a value there nor does the source.
  lemma SharedShows(h: Heap, target: Obj, s: Shape, p: seq<string>, q: seq<string>, x: string, v: Val, shared: Obj,
                    steps: seq<Step>, others: set<Obj>)
    requires target in h && Spine(h, target, s, p, x, v) && Fits(h, target, s.fields, steps, others)
    requires p != q && FindIn(h, Ref(target), p) == FindIn(h, Ref(target), q) == Some(Ref(shared))
    requires shared in h && x !in h[shared] && v != Undefined && v != Ref(shared) && (q != [] ==> shared.kind != Other)
    ensures FindIn(h, Ref(target), q + [x]) == None
    ensures At(ValueOf(s), q + [x]) == None
    ensures FindIn(Play(h, target, steps), Ref(target), q + [x]) == Some(v)
  {
    SpineMerges(h, target, s, p, x, v, shared, steps, others);
    FindOn(h, Ref(target), q, x);
    FindStays(h, Ref(target), q, shared, x, v);
    FindOn(Play(h, target, steps), Ref(target), q, x);
    SpineOnly(h, target, s, p, q, x, v, shared);
  }

  lemma {:induction false} SpineOnly(h: Heap, target: Obj, s: Shape, p: seq<string>, q: seq<string>, x: string, v: Val,
                                     shared: Obj)
    requires target in h && Spine(h, target, s, p, x, v) && p != q
    requires FindIn(h, Ref(target), p) == FindIn(h, Ref(target), q) == Some(Ref(shared)) && shared in h
             && x !in h[shared]
    ensures At(ValueOf(s), q + [x]) == None
    decreases p
  {
    FieldsIn(s, (q + [x])[0]);
    if q == [] {
      assert p[0] in h[target];
    } else {
      assert (q + [x])[1..] == q[1..] + [x];
      if p == [] {
      } else if p[0] == q[0] {
        assert p == [p[0]] + p[1..] && q == [q[0]] + q[1..];
        SpineOnly(h, h[target][p[0]].o, s.fields[p[0]], p[1..], q[1..], x, v, shared);
      }
    }
  }

  lemma FieldsIn(s: Shape, k: string)
    requires s.Node?
    ensures k in ValueOf(s).fields <==> k in s.fields
    ensures k in s.fields ==> ValueOf(s).fields[k] == ValueOf(s.fields[k])
  {
  }

  // Looking along a path that works needs no name that is not there.
  lemma {:induction false} FindStays(h: Heap, v: Val, path: seq<string>, o: Obj, x: string, w: Val)
    requires o in h && x !in h[o] && FindIn(h, v, path).Some?
    ensures FindIn(h[o := h[o][x := w]], v, path) == FindIn(h, v, path)
    decreases path
  {
    if path != [] {
      FindStays(h, h[v.o][path[0]], path[1..], o, x, w);
    }
  }

  lemma {:induction false} FindOn(h: Heap, v: Val, path: seq<string>, x: string)
    ensures FindIn(h, v, path + [x]) ==
              match FindIn(h, v, path)
              case None => None
              case Some(w) =>
                if w.Ref? && w.o in h && x in h[w.o] && (path != [] ==> Copied(w)) then Some(h[w.o][x]) else None
    decreases path
  {
    if path == [] {
      assert [] + [x] == [x] && [x][1..] == [];
    } else {
      assert (path + [x])[1..] == path[1..] + [x];
      if v.Ref? && v.o in h && path[0] in h[v.o] && Copied(h[v.o][path[0]]) {
        FindOn(h, h[v.o][path[0]], path[1..], x);
      }
    }
  }

  // What the object amounts to in the heap is this tree.
  ghost predicate ReadsAs(h: Heap, o: Obj, t: Tree)
    decreases t, 0
  {
    && t.Tree? && o in h && o.kind == t.kind && h[o].Keys == t.fields.Keys
    && forall k <- t.fields :: AmountsTo(h, h[o][k], t.fields[k])
  }

  ghost predicate AmountsTo(h: Heap, v: Val, t: Tree)
    decreases t, 1
  {
    if t.Atom? then v == t.v && !Copied(v) else Copied(v) && ReadsAs(h, v.o, t)
  }

  // A heap that has the shape amounts to its tree.
  lemma {:induction false} ShowsReads(h: Heap, t: Shape)
    requires t.Node? && ShowsIn(h, t) && Full(t)
    ensures ReadsAs(h, t.o, ValueOf(t))
    decreases t
  {
    forall k | k in t.fields
      ensures AmountsTo(h, h[t.o][k], ValueOf(t.fields[k]))
    {
      assert BelowIn(h, t.fields[k], h[t.o][k]);
      if t.fields[k].Node? {
        ShowsReads(h, t.fields[k]);
      }
    }
  }

  // A value at the end of a path, in the heap and in the tree.
  lemma {:induction false} FindAt(h: Heap, o: Obj, t: Tree, path: seq<string>, w: Val)
    requires ReadsAs(h, o, t) && path != [] && !Copied(w)
    ensures FindIn(h, Ref(o), path) == Some(w) <==> At(t, path) == Some(Atom(w))
    decreases path
  {
    var k := path[0];
    if k in t.fields {
      assert AmountsTo(h, h[o][k], t.fields[k]);
      if t.fields[k].Tree? && |path| > 1 {
        FindAt(h, h[o][k].o, t.fields[k], path[1..], w);
      }
    }
  }

  // The result of merging a source amounts to the overlay.
  ghost predicate GivesOverlay(h: Heap, t: Shape, s: Shape, steps: seq<Step>)
    requires t.Node? && s.Node? && t.o in h
  {
    ReadsAs(Play(h, t.o, steps), t.o, Overlay(Self(t.o), ValueOf(t), ValueOf(s)))
  }

  // So whatever the result amounts to, it is not the overlay.
  lemma NotOverlay(h: Heap, t: Shape, s: Shape, p: seq<string>, q: seq<string>, x: string, v: Val, shared: Obj,
                   steps: seq<Step>, others: set<Obj>)
    requires t.Node? && ShowsIn(h, t) && Full(t)
    requires Spine(h, t.o, s, p, x, v) && Fits(h, t.o, s.fields, steps, others)
    requires p != q && FindIn(h, Ref(t.o), p) == FindIn(h, Ref(t.o), q) == Some(Ref(shared))
    requires shared in h && x !in h[shared] && v != Undefined && !Copied(v) && v != Ref(shared)
    requires q != [] ==> shared.kind != Other
    ensures !GivesOverlay(h, t, s, steps)
  {
    SharedShows(h, t.o, s, p, q, x, v, shared, steps, others);
    ShowsReads(h, t);
    FindAt(h, t.o, ValueOf(t), q + [x], v);
    RightBiased(Self(t.o), ValueOf(t), ValueOf(s), q + [x], v);
    if GivesOverlay(h, t, s, steps) {
      FindAt(Play(h, t.o, steps), t.o, Overlay(Self(t.o), ValueOf(t), ValueOf(s)), q + [x], v);
    }
  }

  // In a closed part of the heap, no path leads to a plain object or array outside.
  lemma {:induction false} FindInside(h: Heap, o: Obj, path: seq<string>)
    requires Closed(h) && o in h
    ensures FindIn(h, Ref(o), path).Some? && Copied(FindIn(h, Ref(o), path).value) ==>
              FindIn(h, Ref(o), path).value.o in h
    decreases path
  {
    if |path| > 1 && path[0] in h[o] && Copied(h[o][path[0]]) {
      FindInside(h, h[o][path[0]].o, path[1..]);
    }
  }

  // A path that begins with a field.
  lemma Through(h: Heap, t: Shape, k: string, path: seq<string>)
    requires t.Node? && ShowsIn(h, t) && k in t.fields && t.fields[k].Node?
    ensures ShowsIn(h, t.fields[k])
    ensures FindIn(h, Root(t), [k] + path) == FindIn(h, Root(t.fields[k]), path)
  {
    assert BelowIn(h, t.fields[k], h[t.o][k]);
    assert ([k] + path)[1..] == path;
  }

  // Every object of a shape is found along a path.
  lemma {:induction false} PathTo(h: Heap, t: Shape, x: Obj) returns (path: seq<string>)
    requires ShowsIn(h, t) && x in Objs(t)
    ensures FindIn(h, Root(t), path) == Some(Ref(x))
  {
    if x == t.o {
      path := [];
    } else {
      var k :| k in t.fields && x in Objs(t.fields[k]);
      Through(h, t, k, []);
      var rest := PathTo(h, t.fields[k], x);
      Through(h, t, k, rest);
      path := [k] + rest;
    }
  }

  // What lies below the root is a plain object or an array.
  lemma {:induction false} KindBelow(h: Heap, t: Shape, k: string, x: Obj)
    requires t.Node? && ShowsIn(h, t) && k in t.fields && x in Objs(t.fields[k])
    ensures x in h && x.kind != Other
    decreases t
  {
    var c := t.fields[k];
    assert BelowIn(h, c, h[t.o][k]);
    if x == c.o {
      assert Copied(Root(c)) && ShowsIn(h, c);
    } else {
      var j :| j in c.fields && x in Objs(c.fields[j]);
      KindBelow(h, c, j, x);
    }
  }

  // If a plain object or an array of the shape is reached twice, it is reached along two paths.
  lemma {:induction false} TwoPaths(h: Heap, t: Shape) returns (p: seq<string>, q: seq<string>, x: Obj)
    requires ShowsIn(h, t) && !Distinct(t)
    ensures p != q && FindIn(h, Root(t), p) == FindIn(h, Root(t), q) == Some(Ref(x))
    ensures x in Objs(t) && x in h && x.kind != Other
  {
    hide ShowsIn, FindIn;
    if k :| k in t.fields && t.o in Objs(t.fields[k]) {
      p, q := [], [k];
      x := t.o;
      KindBelow(h, t, k, x);
      Through(h, t, k, []);
      var rest := PathTo(h, t.fields[k], x);
      Through(h, t, k, rest);
      q := [k] + rest;
      FoundAtOnce(h, Root(t));
    } else if k :| k in t.fields && !Distinct(t.fields[k]) {
      Through(h, t, k, []);
      p, q, x := TwoPaths(h, t.fields[k]);
      Through(h, t, k, p);
      Through(h, t, k, q);
      assert ([k] + p)[1..] == p && ([k] + q)[1..] == q;
      p, q := [k] + p, [k] + q;
    } else {
      var j, k := Overlapping(t);
      x :| x in Objs(t.fields[j]) && x in Objs(t.fields[k]);
      KindBelow(h, t, j, x);
      Through(h, t, j, []);
      Through(h, t, k, []);
      p := PathTo(h, t.fields[j], x);
      q := PathTo(h, t.fields[k], x);
      Through(h, t, j, p);
      Through(h, t, k, q);
      assert ([j] + p)[0] != ([k] + q)[0];
      p, q := [j] + p, [k] + q;
    }
  }

  lemma FoundAtOnce(h: Heap, v: Val)
    ensures FindIn(h, v, []) == Some(v)
  {
  }

  lemma Overlapping(t: Shape) returns (j: string, k: string)
    requires !Distinct(t)
    requires forall k <- t.fields :: t.o !in Objs(t.fields[k]) && Distinct(t.fields[k])
    ensures j in t.fields && k in t.fields && j != k && !(Objs(t.fields[j]) !! Objs(t.fields[k]))
  {
    hide Objs;
    assert !(forall j, k :: j in t.fields && k in t.fields && j != k ==> Objs(t.fields[j]) !! Objs(t.fields[k]));
    j, k :| j in t.fields && k in t.fields && j != k && !(Objs(t.fields[j]) !! Objs(t.fields[k]));
  }

  // A name that is not there.
  lemma {:induction false} NewName(names: set<string>) returns (x: string)
    ensures x !in names && forall y <- names :: |y| < |x|
    decreases names
  {
    if names == {} {
      x := "";
    } else {
      var y :| y in names;
      x := NewName(names - {y});
      x := x + y + " ";
    }
  }

  // A source that brings one value in along a path, over the objects of a copy of the target.
  ghost function SpineAt(u: Shape, path: seq<string>, x: string, v: Val): (s: Shape)
    requires u.Node?
    ensures s.Node? && s.o == u.o
    decreases path
  {
    if path == [] then Node(u.o, map[x := Leaf(v)])
    else if path[0] in u.fields && u.fields[path[0]].Node? then
      Node(u.o, map[path[0] := SpineAt(u.fields[path[0]], path[1..], x, v)])
    else Node(u.o, map[])
  }

  lemma {:induction false} SpineThere(h: Heap, t: Shape, u: Shape, path: seq<string>, x: string, v: Val, shared: Obj)
    requires t.Node? && ShowsIn(h, t) && Full(t) && ValueOf(u) == ValueOf(t) && !Copied(v)
    requires FindIn(h, Root(t), path) == Some(Ref(shared)) && shared.kind != Other
    ensures Spine(h, t.o, SpineAt(u, path, x, v), path, x, v) && Full(SpineAt(u, path, x, v))
    decreases path
  {
    if path != [] {
      var k := path[0];
      assert BelowIn(h, t.fields[k], h[t.o][k]);
      FieldsIn(t, k);
      FieldsIn(u, k);
      SpineThere(h, t.fields[k], u.fields[k], path[1..], x, v, shared);
    }
  }

  lemma {:induction false} SpineDistinct(u: Shape, path: seq<string>, x: string, v: Val)
    requires u.Node?
    ensures Objs(SpineAt(u, path, x, v)) <= Objs(u)
    ensures Distinct(u) ==> Distinct(SpineAt(u, path, x, v))
    decreases path
  {
    if path != [] && path[0] in u.fields && u.fields[path[0]].Node? {
      SpineDistinct(u.fields[path[0]], path[1..], x, v);
    }
  }

  // The steps that merge it.
  lemma {:induction false} SpineSteps(h: Heap, target: Obj, s: Shape, path: seq<string>, x: string, v: Val,
                                      others: set<Obj>)
    returns (steps: seq<Step>)
    requires target in h && Spine(h, target, s, path, x, v) && v != Undefined && !v.Ref?
    ensures Fits(h, target, s.fields, steps, others)
    decreases path
  {
    if path == [] {
      steps := [Write(x, v)];
      OneMore(h, target, map[], [], Leaf(v), steps[0], others);
      assert [] + steps == steps;
    } else {
      var k, clone := path[0], h[target][path[0]].o;
      var below := SpineSteps(h, clone, s.fields[k], path[1..], x, v, others);
      steps := [Into(k, clone, below)];
      assert Suits(h, target, s.fields[k], steps[0], others);
      OneMore(h, target, map[], [], s.fields[k], steps[0], others);
      assert [] + steps == steps;
      assert s.fields == map[k := s.fields[k]];
    }
  }

  // Any sharing in the target breaks the overlay of some source: given a copy of the target over
  // other objects, the source is built of objects of the copy.
  lemma SharingBreaks(h: Heap, t: Shape, u: Shape, others: set<Obj>) returns (s: Shape, steps: seq<Step>)
    requires t.Node? && ShowsIn(h, t) && Full(t) && !Distinct(t) && ValueOf(u) == ValueOf(t)
    ensures s.Node? && Full(s) && Objs(s) <= Objs(u) && (Distinct(u) ==> Distinct(s))
    ensures Fits(h, t.o, s.fields, steps, others) && !GivesOverlay(h, t, s, steps)
  {
    var p, q, shared := TwoPaths(h, t);
    var x := NewName(h[shared].Keys);
    s := SpineAt(u, p, x, Null);
    SpineThere(h, t, u, p, x, Null, shared);
    SpineDistinct(u, p, x, Null);
    steps := SpineSteps(h, t.o, s, p, x, Null, others);
    NotOverlay(h, t, s, p, q, x, Null, shared, steps, others);
  }

  // Without sharing every source gives the overlay.
  lemma {:induction false} ReshapeFull(h: Heap, t: Shape, fields: map<string, Shape>, steps: seq<Step>,
                                       others: set<Obj>)
    requires t.Node? && t.o in h && Full(t) && FullFields(fields) && Fits(h, t.o, fields, steps, others)
    ensures Full(Reshape(t, steps))
    decreases steps
  {
    if steps != [] {
      var init, last := steps[..|steps| - 1], steps[|steps| - 1];
      ReshapeFull(h, t, fields - {last.name}, init, others);
      var h1, t1, c := Play(h, t.o, init), Reshape(t, init), fields[last.name];
      if last.Into? {
        ReshapeFull(With(h1, last.clone), Start(t1, last.name, last.clone), c.fields, last.steps, others);
      }
    }
  }

  lemma TreeGivesOverlay(h: Heap, t: Shape, s: Shape, steps: seq<Step>, others: set<Obj>)
    requires t.Node? && ShowsIn(h, t) && Full(t) && Distinct(t)
    requires s.Node? && Full(s) && Fits(h, t.o, s.fields, steps, others)
    ensures GivesOverlay(h, t, s, steps)
  {
    FullCovers(t, s);
    PlayMerges(h, t, s.fields, steps, others);
    PlayOverlay(h, t, s.fields, steps, others);
    FieldTreeOf(s, Self(t.o), ValueOf(t));
    ReshapeFull(h, t, s.fields, steps, others);
    ShowsReads(Play(h, t.o, steps), Reshape(t, steps));
  }

  // For a target unfolded down to the last plain object or array, every source gives the overlay
  // if and only if no object is reached in it on two ways. The sources are those over the given
  // objects, which are enough if the target can be copied into them.
  lemma OverlayExactly(h: Heap, t: Shape, u: Shape, others: set<Obj>)
    requires t.Node? && ShowsIn(h, t) && Full(t)
    requires ValueOf(u) == ValueOf(t) && Objs(u) <= others && others !! h.Keys
    ensures Distinct(t) <==>
              forall s: Shape, steps ::
                s.Node? && Full(s) && Objs(s) <= others && Fits(h, t.o, s.fields, steps, others) ==>
                  GivesOverlay(h, t, s, steps)
  {
    if Distinct(t) {
      forall s: Shape, steps | s.Node? && Full(s) && Objs(s) <= others && Fits(h, t.o, s.fields, steps, others)
        ensures GivesOverlay(h, t, s, steps)
      {
        TreeGivesOverlay(h, t, s, steps, others);
      }
    } else {
      var s, steps := SharingBreaks(h, t, u, others);
    }
  }
}
