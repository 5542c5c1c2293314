// What jQuery.extend works on, and the overlay of trees that a deep copy is meant to be.
module ExtendTree {
  import opened Wrappers

  // What extend asks of an object: isPlainObject, isArray, or neither.
  datatype Kind = Plain | Arr | Other

  datatype Val = Undefined | Null | Prim(p: nat) | Ref(o: Obj)

  class Obj {
    const kind: Kind
    var props: map<string, Val>

    constructor (kind: Kind)
      ensures this.kind == kind && props == map[]
    {
      this.kind, this.props := kind, map[];
    }
  }

  // Plain objects and arrays are copied; anything else is passed along as it is.
  predicate Copied(v: Val) {
    v.Ref? && v.o.kind != Other
  }

  // The plain objects and arrays below a value, with their identities.
  datatype Shape = Leaf(v: Val) | Node(o: Obj, fields: map<string, Shape>)

  ghost function Objs(s: Shape): set<Obj> {
    match s
    case Leaf(_) => {}
    case Node(o, fields) => {o} + set k, x | k in fields && x in Objs(fields[k]) :: x
  }

  ghost function Root(s: Shape): Val {
    if s.Leaf? then s.v else Ref(s.o)
  }

  // No object is reached on two ways.
  ghost predicate Distinct(s: Shape) {
    s.Node? ==>
      && (forall k <- s.fields :: s.o !in Objs(s.fields[k]) && Distinct(s.fields[k]))
      && (forall j, k :: j in s.fields && k in s.fields && j != k ==> Objs(s.fields[j]) !! Objs(s.fields[k]))
  }

  // What a value amounts to when identities of copied objects are forgotten.
  datatype Tree = Atom(v: Val) | Tree(kind: Kind, fields: map<string, Tree>)

  ghost function ValueOf(s: Shape): (t: Tree)
    ensures s.Leaf? == t.Atom?
  {
    match s
    case Leaf(v) => Atom(v)
    case Node(o, fields) => Tree(o.kind, map k | k in fields :: ValueOf(fields[k]))
  }

  // Undefined values are not brought in, nor the target itself.
  predicate Skipped(self: Val, c: Tree) {
    c.Atom? && (c.v == Undefined || c.v == self)
  }

  // What a copy is merged into: the value in place if it is of the same kind.
  function Base(t: Tree, k: string, kind: Kind): (b: Tree)
    requires t.Tree?
    ensures b.Tree? && b.kind == kind
  {
    if k in t.fields && t.fields[k].Tree? && t.fields[k].kind == kind then t.fields[k] else Tree(kind, map[])
  }

  // The overlay of one tree over another.
  function Overlay(self: Val, t: Tree, s: Tree): (r: Tree)
    requires t.Tree? && s.Tree?
    ensures r.Tree? && r.kind == t.kind
    decreases s, 0
  {
    Tree(t.kind,
         map k | k in t.fields.Keys + s.fields.Keys && (k in t.fields || !Skipped(self, s.fields[k])) ::
           if k !in s.fields || Skipped(self, s.fields[k]) then t.fields[k] else Over(t, k, s.fields[k]))
  }

  function Over(t: Tree, k: string, c: Tree): (r: Tree)
    requires t.Tree?
    decreases c, 1
  {
    if c.Atom? then c else Overlay(Undefined, Base(t, k, c.kind), c)
  }

  // One name of it.
  function Put(self: Val, t: Tree, k: string, c: Tree): (r: Tree)
    requires t.Tree?
    ensures r.Tree? && r.kind == t.kind
  {
    if Skipped(self, c) then t else Tree(t.kind, t.fields[k := Over(t, k, c)])
  }

  lemma OverlayAt(self: Val, t: Tree, s: Tree, x: string)
    requires t.Tree? && s.Tree?
    ensures var brought := x in s.fields && !Skipped(self, s.fields[x]);
            var r := Overlay(self, t, s);
            && (x in r.fields <==> x in t.fields || brought)
            && (x in r.fields ==> r.fields[x] == if brought then Over(t, x, s.fields[x]) else t.fields[x])
  {
    hide Over;
  }

  lemma PutOver(self: Val, t: Tree, p: Tree, k: string, c: Tree)
    requires t.Tree? && p.Tree? && k !in p.fields
    ensures Put(self, Overlay(self, t, p), k, c) == Overlay(self, t, Tree(p.kind, p.fields[k := c]))
  {
    var before, after := Overlay(self, t, p), Overlay(self, t, Tree(p.kind, p.fields[k := c]));
    OverlayAt(self, t, p, k);
    assert Over(before, k, c) == Over(t, k, c);
    hide Over, Overlay, Skipped;
    forall x
      ensures x in after.fields <==> x in Put(self, before, k, c).fields
      ensures x in after.fields ==> after.fields[x] == Put(self, before, k, c).fields[x]
    {
      OverlayAt(self, t, p, x);
      OverlayAt(self, t, Tree(p.kind, p.fields[k := c]), x);
    }
    assert Put(self, before, k, c).fields == after.fields;
  }

  // A target that is itself a plain object or an array is never among the values passed along.
  function Self(target: Obj): Val {
    if target.kind == Other then Ref(target) else Undefined
  }

  // All sources, from left to right; a value that is no object has no names.
  function OverlayAll(self: Val, t: Tree, ss: seq<Tree>): (r: Tree)
    requires t.Tree?
    ensures r.Tree? && r.kind == t.kind
  {
    if ss == [] then t
    else
      var before := OverlayAll(self, t, ss[..|ss| - 1]);
      if ss[|ss| - 1].Atom? then before else Overlay(self, before, ss[|ss| - 1])
  }

  ghost function Values(ss: seq<Shape>): (ts: seq<Tree>)
    ensures |ts| == |ss| && forall i :: 0 <= i < |ss| ==> ts[i] == ValueOf(ss[i])
  {
    seq(|ss|, i requires 0 <= i < |ss| => ValueOf(ss[i]))
  }

  // What is found below a tree.
  function At(t: Tree, path: seq<string>): Option<Tree> {
    if path == [] then Some(t)
    else if t.Tree? && path[0] in t.fields then At(t.fields[path[0]], path[1..])
    else None
  }

  // A source says nothing about a path: on the way a name is missing or undefined, and up to
  // there the target has the same kinds of objects.
  predicate Silent(self: Val, t: Tree, s: Tree, path: seq<string>)
    requires t.Tree? && s.Tree?
    decreases path
  {
    path != [] &&
    (path[0] !in s.fields || Skipped(self, s.fields[path[0]]) ||
     (s.fields[path[0]].Tree?
      && Silent(Undefined, Base(t, path[0], s.fields[path[0]].kind), s.fields[path[0]], path[1..])
      && path[0] in t.fields && Base(t, path[0], s.fields[path[0]].kind) == t.fields[path[0]]))
  }

  // An undefined value of the source, or the target itself, leaves what the target has; any other
  // value that is no object, null included, replaces it; an object is merged into one of its own
  // kind, and replaces all else.
  lemma NameExactly(self: Val, t: Tree, s: Tree, k: string)
    requires t.Tree? && s.Tree?
    ensures var r := Overlay(self, t, s);
            var had, brought := if k in t.fields then Some(t.fields[k]) else None,
                                if k in s.fields then Some(s.fields[k]) else None;
            var got := if k in r.fields then Some(r.fields[k]) else None;
            && (brought in {None, Some(Atom(Undefined)), Some(Atom(self))} ==> got == had)
            && (brought.Some? && brought.value.Atom? && brought.value.v !in {Undefined, self} ==> got == brought)
            && (brought.Some? && brought.value.Tree? ==>
                  && got.Some? && got.value.Tree? && got.value.kind == brought.value.kind
                  && (if had.Some? && had.value.Tree? && had.value.kind == brought.value.kind
                      then got.value == Overlay(Undefined, had.value, brought.value)
                      else got.value == Overlay(Undefined, Tree(brought.value.kind, map[]), brought.value)))
  {
    OverlayAt(self, t, s, k);
  }

  // The source wins wherever it has a value, undefined does not count as one, the target keeps
  // the rest, and nothing else appears.
  lemma {:induction false} RightBiased(self: Val, t: Tree, s: Tree, path: seq<string>, v: Val)
    requires t.Tree? && s.Tree?
    ensures At(s, path) == Some(Atom(v)) && v != Undefined && v != self ==>
              At(Overlay(self, t, s), path) == Some(Atom(v))
    ensures Silent(self, t, s, path) ==> At(Overlay(self, t, s), path) == At(t, path)
    ensures At(Overlay(self, t, s), path) == Some(Atom(v)) ==>
              At(s, path) == Some(Atom(v)) || At(t, path) == Some(Atom(v))
    decreases path
  {
    if path != [] {
      OverlayAt(self, t, s, path[0]);
      if path[0] in s.fields && s.fields[path[0]].Tree? {
        var c := s.fields[path[0]];
        RightBiased(Undefined, Base(t, path[0], c.kind), c, path[1..], v);
        assert Over(t, path[0], c) == Overlay(Undefined, Base(t, path[0], c.kind), c);
      } else if path[0] in s.fields {
        assert At(s.fields[path[0]], path[1..]).Some? ==> At(s.fields[path[0]], path[1..]) == Some(s.fields[path[0]]);
      }
    }
  }

  // Extending twice with the same source is extending once.
  lemma {:induction false} Idempotent(self: Val, t: Tree, s: Tree)
    requires t.Tree? && s.Tree?
    ensures Overlay(self, Overlay(self, t, s), s) == Overlay(self, t, s)
    decreases s
  {
    var r := Overlay(self, t, s);
    forall k
      ensures k in Overlay(self, r, s).fields <==> k in r.fields
      ensures k in r.fields ==> Overlay(self, r, s).fields[k] == r.fields[k]
    {
      OverlayAt(self, t, s, k);
      OverlayAt(self, r, s, k);
      if k in s.fields && s.fields[k].Tree? {
        Idempotent(Undefined, Base(t, k, s.fields[k].kind), s.fields[k]);
      }
    }
    assert Overlay(self, r, s).fields == r.fields;
  }
}
