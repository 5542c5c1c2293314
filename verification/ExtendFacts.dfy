// When a deep copy is the overlay of its source over its target.
module ExtendFacts {
  import opened ExtendTree
  import opened ExtendHeap

  // The heap has this shape, as far down as it is unfolded.
  ghost predicate ShowsIn(h: Heap, t: Shape)
    decreases t, 0
  {
    t.Node? ==>
      && t.o in h && h[t.o].Keys == t.fields.Keys
      && forall k <- t.fields :: BelowIn(h, t.fields[k], h[t.o][k])
  }

  ghost predicate BelowIn(h: Heap, t: Shape, v: Val)
    decreases t, 1
  {
    Root(t) == v && (t.Node? ==> Copied(v)) && ShowsIn(h, t)
  }

  // The target is unfolded wherever objects of the source are merged into objects of its own.
  ghost predicate Covers(t: Shape, s: Shape) {
    t.Node? && s.Node? ==>
      forall k <- s.fields :: k in t.fields && s.fields[k].Node? && SameKind(t.fields[k], s.fields[k].o.kind) ==>
        t.fields[k].Node? && Covers(t.fields[k], s.fields[k])
  }

  ghost predicate SameKind(t: Shape, kind: Kind) {
    Root(t).Ref? && Root(t).o.kind == kind
  }

  // What becomes of the target's shape.
  ghost function Reshape(t: Shape, steps: seq<Step>): (r: Shape)
    requires t.Node?
    ensures r.Node? && r.o == t.o
    decreases steps
  {
    if steps == [] then t else ReshapeOne(Reshape(t, steps[..|steps| - 1]), steps[|steps| - 1])
  }

  ghost function ReshapeOne(t: Shape, step: Step): (r: Shape)
    requires t.Node?
    ensures r.Node? && r.o == t.o
    decreases step
  {
    match step
    case Skip(_) => t
    case Write(k, v) => Node(t.o, t.fields[k := Leaf(v)])
    case Into(k, clone, steps) => Node(t.o, t.fields[k := Reshape(Start(t, k, clone), steps)])
  }

  // Where merging into a clone begins.
  ghost function Start(t: Shape, k: string, clone: Obj): (r: Shape)
    requires t.Node?
    ensures r.Node? && r.o == clone
  {
    if k in t.fields && t.fields[k].Node? && t.fields[k].o == clone then t.fields[k] else Node(clone, map[])
  }

  // A shape stays as long as its objects do.
  lemma {:induction false} Same(h: Heap, h': Heap, t: Shape)
    requires ShowsIn(h, t) && forall x <- Objs(t) :: x in h ==> x in h' && h'[x] == h[x]
    ensures ShowsIn(h', t)
  {
    if t.Node? {
      forall k | k in t.fields
        ensures BelowIn(h', t.fields[k], h[t.o][k])
      {
        assert Objs(t.fields[k]) <= Objs(t);
        Same(h, h', t.fields[k]);
      }
    }
  }

  lemma {:induction false} Known(h: Heap, t: Shape)
    requires ShowsIn(h, t)
    ensures Objs(t) <= h.Keys
  {
    if t.Node? {
      forall k | k in t.fields ensures Objs(t.fields[k]) <= h.Keys {
        Known(h, t.fields[k]);
      }
    }
  }

  // Steps for other names leave a field alone.
  lemma {:induction false} Elsewhere(h: Heap, t: Shape, fields: map<string, Shape>, steps: seq<Step>, others: set<Obj>,
                                     k: string)
    requires t.Node? && t.o in h && Fits(h, t.o, fields, steps, others) && k !in fields
    ensures k in Reshape(t, steps).fields <==> k in t.fields
    ensures k in t.fields ==> Reshape(t, steps).fields[k] == t.fields[k]
    decreases steps
  {
    if steps != [] {
      Elsewhere(h, t, fields - {steps[|steps| - 1].name}, steps[..|steps| - 1], others, k);
    }
  }

  // A result of merging: it has its shape, no object twice, and objects outside the unfolded
  // part of the target are as before.
  ghost predicate Merged(h: Heap, t: Shape, h': Heap, r: Shape) {
    && ShowsIn(h', r) && Distinct(r)
    && (forall x <- Objs(r) :: x in Objs(t) || x !in h)
    && (forall x <- h :: x !in Objs(t) ==> x in h' && h'[x] == h[x])
  }

  ghost predicate Ready(h: Heap, t: Shape, fields: map<string, Shape>) {
    && t.Node? && ShowsIn(h, t) && Distinct(t)
    && forall k <- fields :: fields[k].Node? ==>
         fields[k].o.kind != Other
         && (k in t.fields && SameKind(t.fields[k], fields[k].o.kind) ==>
               t.fields[k].Node? && Covers(t.fields[k], fields[k]))
  }

  lemma {:induction false} PlayMerges(h: Heap, t: Shape, fields: map<string, Shape>, steps: seq<Step>, others: set<Obj>)
    requires Ready(h, t, fields) && FullFields(fields) && Fits(h, t.o, fields, steps, others)
    ensures Merged(h, t, Play(h, t.o, steps), Reshape(t, steps))
    decreases steps
  {
    if steps != [] {
      var init, last := steps[..|steps| - 1], steps[|steps| - 1];
      PlayMerges(h, t, fields - {last.name}, init, others);
      var h1, t1 := Play(h, t.o, init), Reshape(t, init);
      Elsewhere(h, t, fields - {last.name}, init, others, last.name);
      DoMerges(h1, t1, fields[last.name], last, others);
      Onward(h, t, h1, t1, Do(h1, t.o, last), ReshapeOne(t1, last));
    }
  }

  lemma Onward(h: Heap, t: Shape, h1: Heap, t1: Shape, h2: Heap, t2: Shape)
    requires Merged(h, t, h1, t1) && Merged(h1, t1, h2, t2) && h.Keys <= h1.Keys
    ensures Merged(h, t, h2, t2)
  {
  }

  ghost function FieldObjs(t: Shape, k: string): set<Obj> {
    if t.Node? && k in t.fields then Objs(t.fields[k]) else {}
  }

  // Replacing one field.
  lemma Graft(h: Heap, t: Shape, h1: Heap, k: string, v: Val, d: Shape)
    requires t.Node? && ShowsIn(h, t) && Distinct(t)
    requires BelowIn(h1, d, v) && Distinct(d) && forall x <- Objs(d) :: x in FieldObjs(t, k) || x !in h
    requires forall x <- h :: x !in FieldObjs(t, k) ==> x in h1 && h1[x] == h[x]
    ensures t.o in h1
    ensures Merged(h, t, h1[t.o := h1[t.o][k := v]], Node(t.o, t.fields[k := d]))
  {
    hide ShowsIn, BelowIn, Distinct, Objs, FieldObjs, Root;
    Apart(h, t, k);
    var h2, r := h1[t.o := h1[t.o][k := v]], Node(t.o, t.fields[k := d]);
    Holds(h1, d, v);
    Same(h1, h2, d);
    Holds(h2, d, v);
    forall j | j in t.fields && j != k
      ensures BelowIn(h2, t.fields[j], h[t.o][j])
    {
      Holds(h, t.fields[j], h[t.o][j]);
      Same(h, h2, t.fields[j]);
      Holds(h2, t.fields[j], h[t.o][j]);
    }
    Below(h2, r, v, k);
    GraftObjs(t, k, d);
    GraftDistinct(t, k, d);
  }

  lemma Holds(h: Heap, t: Shape, v: Val)
    ensures BelowIn(h, t, v) <==> Root(t) == v && (t.Node? ==> Copied(v)) && ShowsIn(h, t)
  {
  }

  // The parts of a shape lie apart.
  lemma Apart(h: Heap, t: Shape, k: string)
    requires t.Node? && ShowsIn(h, t) && Distinct(t)
    ensures t.o in h && h[t.o].Keys == t.fields.Keys && t.o in Objs(t) && t.o !in FieldObjs(t, k)
    ensures Objs(t) <= h.Keys && FieldObjs(t, k) <= Objs(t)
    ensures forall j <- t.fields :: BelowIn(h, t.fields[j], h[t.o][j]) && Objs(t.fields[j]) <= Objs(t)
    ensures forall j <- t.fields :: j != k ==> Objs(t.fields[j]) !! FieldObjs(t, k) && t.o !in Objs(t.fields[j])
  {
    Known(h, t);
    forall j | j in t.fields
      ensures Objs(t.fields[j]) <= Objs(t)
    {
    }
  }

  lemma GraftDistinct(t: Shape, k: string, d: Shape)
    requires t.Node? && Distinct(t) && Distinct(d) && t.o !in Objs(d)
    requires forall j <- t.fields :: j != k ==> Objs(t.fields[j]) !! Objs(d)
    ensures Distinct(Node(t.o, t.fields[k := d]))
  {
    hide Objs;
    var r := Node(t.o, t.fields[k := d]);
    assert forall j <- r.fields :: r.fields[j] == if j == k then d else t.fields[j];
  }

  lemma Below(h: Heap, r: Shape, v: Val, k: string)
    requires r.Node? && r.o in h && k in h[r.o] && h[r.o][k] == v && h[r.o].Keys == r.fields.Keys
    requires forall j <- r.fields :: BelowIn(h, r.fields[j], h[r.o][j])
    ensures ShowsIn(h, r)
  {
  }

  lemma GraftObjs(t: Shape, k: string, d: Shape)
    requires t.Node?
    ensures Objs(Node(t.o, t.fields[k := d])) <= Objs(t) + Objs(d)
  {
    var r := Node(t.o, t.fields[k := d]);
    forall x | x in Objs(r)
      ensures x in Objs(t) + Objs(d)
    {
      if x != t.o {
        var j :| j in r.fields && x in Objs(r.fields[j]);
        assert r.fields[j] == if j == k then d else t.fields[j];
      }
    }
  }

  // Merging into a clone begins with a shape of which the same can be said.
  lemma Starting(h: Heap, t: Shape, c: Shape, step: Step, others: set<Obj>)
    requires t.Node? && ShowsIn(h, t) && Distinct(t)
    requires Copied(Root(c)) == c.Node? && Full(c) && Suits(h, t.o, c, step, others) && step.Into?
    requires c.Node? && step.name in t.fields && SameKind(t.fields[step.name], c.o.kind) ==>
               t.fields[step.name].Node? && Covers(t.fields[step.name], c)
    ensures var base, h0 := Start(t, step.name, step.clone), With(h, step.clone);
            && Ready(h0, base, c.fields) && FullFields(c.fields)
            && Fits(h0, base.o, c.fields, step.steps, others)
            && (forall x <- Objs(base) :: x in FieldObjs(t, step.name) || x !in h)
            && ValueOf(base) == Base(ValueOf(t), step.name, c.o.kind)
            && (if step.name in t.fields && SameKind(t.fields[step.name], c.o.kind) then base == t.fields[step.name]
                else base == Node(step.clone, map[]))
    ensures step.clone.kind == c.o.kind && c.o.kind != Other
  {
    hide Fits;
    Known(h, t);
    var k, base := step.name, Start(t, step.name, step.clone);
    if HasKind(h, t.o, k, c.o.kind) {
      assert BelowIn(h, t.fields[k], h[t.o][k]) && base == t.fields[k];
    } else {
      assert k in t.fields ==> BelowIn(h, t.fields[k], h[t.o][k]);
      assert base == Node(step.clone, map[]);
    }
  }

  lemma {:induction false} DoMerges(h: Heap, t: Shape, c: Shape, step: Step, others: set<Obj>)
    requires t.Node? && ShowsIn(h, t) && Distinct(t)
    requires Copied(Root(c)) == c.Node? && Full(c) && Suits(h, t.o, c, step, others)
    requires c.Node? && step.name in t.fields && SameKind(t.fields[step.name], c.o.kind) ==>
               t.fields[step.name].Node? && Covers(t.fields[step.name], c)
    ensures Merged(h, t, Do(h, t.o, step), ReshapeOne(t, step))
    decreases step
  {
    match step
    case Skip(_) =>
    case Write(k, v) =>
      Graft(h, t, h, k, v, Leaf(v));
    case Into(k, clone, steps) =>
      var base, h0 := Start(t, k, clone), With(h, clone);
      Starting(h, t, c, step, others);
      PlayMerges(h0, base, c.fields, steps, others);
      Graft(h, t, Play(h0, clone, steps), k, Ref(clone), Reshape(base, steps));
  }

  // The fields of a source as a tree; its own kind does not matter to an overlay.
  ghost function FieldTree(fields: map<string, Shape>): (t: Tree)
    ensures t.Tree?
  {
    Tree(Plain, map k | k in fields :: ValueOf(fields[k]))
  }

  lemma FieldTreeOf(s: Shape, self: Val, t: Tree)
    requires s.Node? && t.Tree?
    ensures Overlay(self, t, FieldTree(s.fields)) == Overlay(self, t, ValueOf(s))
  {
    assert Overlay(self, t, FieldTree(s.fields)).fields == Overlay(self, t, ValueOf(s)).fields;
  }

  lemma FieldTreeAll(fields: map<string, Shape>, k: string)
    requires k in fields
    ensures FieldTree(fields) == Tree(Plain, FieldTree(fields - {k}).fields[k := ValueOf(fields[k])])
    ensures FieldTree(fields - {k}).kind == Plain && k !in FieldTree(fields - {k}).fields
  {
    assert FieldTree(fields - {k}).fields[k := ValueOf(fields[k])] == FieldTree(fields).fields;
  }

  lemma NoFields(self: Val, t: Tree)
    requires t.Tree?
    ensures Overlay(self, t, FieldTree(map[])) == t
  {
    assert Overlay(self, t, FieldTree(map[])).fields == t.fields;
  }

  // The target becomes the overlay, whatever the order of the names.
  lemma {:induction false} PlayOverlay(h: Heap, t: Shape, fields: map<string, Shape>, steps: seq<Step>,
                                       others: set<Obj>)
    requires Ready(h, t, fields) && FullFields(fields) && Fits(h, t.o, fields, steps, others)
    ensures ValueOf(Reshape(t, steps)) == Overlay(Self(t.o), ValueOf(t), FieldTree(fields))
    decreases steps
  {
    hide ValueOf, FieldTree, Overlay, Put, Distinct, Objs;
    if steps == [] {
      NoFields(Self(t.o), ValueOf(t));
    } else {
      var init, last := steps[..|steps| - 1], steps[|steps| - 1];
      var less := fields - {last.name};
      PlayMerges(h, t, less, init, others);
      PlayOverlay(h, t, less, init, others);
      Elsewhere(h, t, less, init, others, last.name);
      DoOverlay(Play(h, t.o, init), Reshape(t, init), fields[last.name], last, others);
      FieldTreeAll(fields, last.name);
      PutOver(Self(t.o), ValueOf(t), FieldTree(less), last.name, ValueOf(fields[last.name]));
    }
  }

  lemma {:induction false} DoOverlay(h: Heap, t: Shape, c: Shape, step: Step, others: set<Obj>)
    requires t.Node? && ShowsIn(h, t) && Distinct(t)
    requires Copied(Root(c)) == c.Node? && Full(c) && Suits(h, t.o, c, step, others)
    requires c.Node? && step.name in t.fields && SameKind(t.fields[step.name], c.o.kind) ==>
               t.fields[step.name].Node? && Covers(t.fields[step.name], c)
    ensures ValueOf(ReshapeOne(t, step)) == Put(Self(t.o), ValueOf(t), step.name, ValueOf(c))
    decreases step
  {
    match step
    case Skip(_) =>
    case Write(k, v) =>
      Replaced(t, k, Leaf(v));
    case Into(k, clone, steps) =>
      var base, h0 := Start(t, k, clone), With(h, clone);
      Starting(h, t, c, step, others);
      PlayOverlay(h0, base, c.fields, steps, others);
      FieldTreeOf(c, Undefined, ValueOf(base));
      Replaced(t, k, Reshape(base, steps));
  }

  lemma Replaced(t: Shape, k: string, d: Shape)
    requires t.Node?
    ensures ValueOf(Node(t.o, t.fields[k := d])) == Tree(t.o.kind, ValueOf(t).fields[k := ValueOf(d)])
  {
    assert ValueOf(Node(t.o, t.fields[k := d])).fields == ValueOf(t).fields[k := ValueOf(d)];
  }

  // Merging one source leaves the target unfolded for another.
  lemma {:induction false} CoversStay(h: Heap, t: Shape, fields: map<string, Shape>, steps: seq<Step>,
                                      others: set<Obj>, s: Shape)
    requires Ready(h, t, fields) && FullFields(fields) && Fits(h, t.o, fields, steps, others)
    requires Covers(t, s) && Full(s)
    ensures Covers(Reshape(t, steps), s)
    decreases steps
  {
    if steps != [] {
      var init, last := steps[..|steps| - 1], steps[|steps| - 1];
      var less := fields - {last.name};
      PlayMerges(h, t, less, init, others);
      CoversStay(h, t, less, init, others, s);
      Elsewhere(h, t, less, init, others, last.name);
      var c, h1, t1 := fields[last.name], Play(h, t.o, init), Reshape(t, init);
      if last.Into? && s.Node? && last.name in s.fields {
        CloneCovers(h1, t1, c, last, others, s.fields[last.name]);
      }
    }
  }

  lemma {:induction false} CloneCovers(h: Heap, t: Shape, c: Shape, step: Step, others: set<Obj>, s: Shape)
    requires t.Node? && ShowsIn(h, t) && Distinct(t) && step.Into?
    requires Copied(Root(c)) == c.Node? && Full(c) && Suits(h, t.o, c, step, others)
    requires step.name in t.fields && SameKind(t.fields[step.name], c.o.kind) ==>
               t.fields[step.name].Node? && Covers(t.fields[step.name], c)
    requires Full(s)
    requires s.Node? && step.name in t.fields && SameKind(t.fields[step.name], s.o.kind) ==>
               Covers(t.fields[step.name], s)
    ensures s.Node? && s.o.kind == step.clone.kind ==> Covers(Reshape(Start(t, step.name, step.clone), step.steps), s)
    decreases step
  {
    Starting(h, t, c, step, others);
    if s.Node? && s.o.kind == step.clone.kind {
      CoversStay(With(h, step.clone), Start(t, step.name, step.clone), c.fields, step.steps, others, s);
    }
  }

  ghost function ReshapeAll(t: Shape, logs: seq<seq<Step>>): (r: Shape)
    requires t.Node?
    ensures r.Node? && r.o == t.o
  {
    if logs == [] then t else Reshape(ReshapeAll(t, logs[..|logs| - 1]), logs[|logs| - 1])
  }

  lemma Unmerged(h: Heap, t: Shape)
    requires ShowsIn(h, t) && Distinct(t)
    ensures Merged(h, t, h, t)
  {
  }

  lemma PlayNothing(h: Heap, t: Shape)
    requires t.Node? && t.o in h
    ensures Play(h, t.o, []) == h && Reshape(t, []) == t
  {
  }

  lemma MergedShows(h: Heap, t: Shape, h': Heap, r: Shape)
    requires Merged(h, t, h', r)
    ensures ShowsIn(h', r) && Distinct(r)
  {
  }

  // Where no object that is merged into is reached twice, the target becomes the overlay of all
  // sources, and objects of its own that are merely referred to are not touched.
  lemma {:induction false} AllOverlay(h: Heap, t: Shape, ss: seq<Shape>, logs: seq<seq<Step>>, others: set<Obj>)
    requires t.Node? && ShowsIn(h, t) && Distinct(t) && FitsAll(h, t.o, ss, logs, others)
    requires forall s <- ss :: Full(s) && Covers(t, s)
    ensures Merged(h, t, PlayAll(h, t.o, logs), ReshapeAll(t, logs))
    ensures ValueOf(ReshapeAll(t, logs)) == OverlayAll(Self(t.o), ValueOf(t), Values(ss))
    ensures forall s: Shape :: Full(s) && Covers(t, s) ==> Covers(ReshapeAll(t, logs), s)
    decreases |ss|
  {
    hide Overlay, ValueOf, Fits, Play, Reshape, Objs, Merged;
    if ss == [] {
      Unmerged(h, t);
    } else {
      var n := |ss| - 1;
      AllOverlay(h, t, ss[..n], logs[..n], others);
      assert Values(ss)[..n] == Values(ss[..n]);
      var h1, t1, s := PlayAll(h, t.o, logs[..n]), ReshapeAll(t, logs[..n]), ss[n];
      assert Full(s) && Covers(t, s);
      if s.Node? {
        MergedShows(h, t, h1, t1);
        PlayMerges(h1, t1, s.fields, logs[n], others);
        PlayOverlay(h1, t1, s.fields, logs[n], others);
        FieldTreeOf(s, Self(t.o), ValueOf(t1));
        Onward(h, t, h1, t1, Play(h1, t.o, logs[n]), Reshape(t1, logs[n]));
        forall u: Shape | Full(u) && Covers(t, u)
          ensures Covers(Reshape(t1, logs[n]), u)
        {
          CoversStay(h1, t1, s.fields, logs[n], others, u);
        }
      } else {
        PlayNothing(h1, t1);
      }
    }
  }

  // A target whose objects that are merged into are unfolded and reached once.
  ghost predicate Unfolded(h: Heap, target: Obj, t: Shape, ss: seq<Shape>) {
    t.Node? && t.o == target && ShowsIn(h, t) && Distinct(t) && forall s <- ss :: Covers(t, s)
  }

  // The result of a deep copy into it.
  ghost predicate Overlaid(h: Heap, t: Shape, ss: seq<Shape>, h': Heap, r: Shape) {
    && t.Node?
    && Merged(h, t, h', r)
    && ValueOf(r) == OverlayAll(Self(t.o), ValueOf(t), Values(ss))
  }

  lemma Overlays(h: Heap, target: Obj, t: Shape, ss: seq<Shape>, logs: seq<seq<Step>>, others: set<Obj>)
    requires target in h && Unfolded(h, target, t, ss) && FitsAll(h, target, ss, logs, others)
             && forall s <- ss :: Full(s)
    ensures Overlaid(h, t, ss, PlayAll(h, target, logs), ReshapeAll(t, logs))
  {
    AllOverlay(h, t, ss, logs, others);
  }

  // A target unfolded down to the last plain object is unfolded for every source.
  lemma {:induction false} FullCovers(t: Shape, s: Shape)
    requires Full(t) && Full(s)
    ensures Covers(t, s)
    decreases t
  {
    if t.Node? && s.Node? {
      forall k | k in s.fields && k in t.fields && s.fields[k].Node? && SameKind(t.fields[k], s.fields[k].o.kind)
        ensures t.fields[k].Node? && Covers(t.fields[k], s.fields[k])
      {
        FullCovers(t.fields[k], s.fields[k]);
      }
    }
  }
}
