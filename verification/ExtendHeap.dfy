// A deep copy, step by step on a heap: which objects it writes, what it links together, and
// when it is the overlay.
module ExtendHeap {
  import opened ExtendTree

  type Heap = map<Obj, map<string, Val>>

  // One turn of the loop over the names of a source: nothing, an assignment, or a copied
  // object that is merged into `clone`.
  datatype Step = Skip(name: string) | Write(name: string, v: Val) | Into(name: string, clone: Obj, steps: seq<Step>)

  // The heap with this object in it.
  function With(h: Heap, o: Obj): Heap {
    if o in h then h else h[o := map[]]
  }

  function Do(h: Heap, target: Obj, step: Step): (r: Heap)
    requires target in h
    ensures h.Keys <= r.Keys
    decreases step
  {
    match step
    case Skip(_) => h
    case Write(k, v) => h[target := h[target][k := v]]
    case Into(k, clone, steps) =>
      var after := Play(With(h, clone), clone, steps);
      after[target := after[target][k := Ref(clone)]]
  }

  function Play(h: Heap, target: Obj, steps: seq<Step>): (r: Heap)
    requires target in h
    ensures h.Keys <= r.Keys
    decreases steps
  {
    if steps == [] then h
    else Do(Play(h, target, steps[..|steps| - 1]), target, steps[|steps| - 1])
  }

  // What target has under the name is an object of this kind.
  predicate HasKind(h: Heap, target: Obj, name: string, kind: Kind)
    requires target in h
  {
    name in h[target] && h[target][name].Ref? && h[target][name].o.kind == kind
  }

  // The step the code takes for a name with this value: undefined values and the target itself
  // are skipped, copied objects are merged into what is there, or into a new object.
  ghost predicate Suits(h: Heap, target: Obj, c: Shape, step: Step, others: set<Obj>)
    requires target in h
    decreases step
  {
    match c
    case Leaf(v) =>
      step == if v == Undefined || v == Ref(target) then Skip(step.name) else Write(step.name, v)
    case Node(o, fields) =>
      && step.Into?
      && (if HasKind(h, target, step.name, o.kind) then Ref(step.clone) == h[target][step.name]
          else step.clone !in h && step.clone !in others && step.clone.kind == o.kind)
      && Fits(With(h, step.clone), step.clone, fields, step.steps, others)
  }

  // A step for every name of a source, in some order.
  ghost predicate Fits(h: Heap, target: Obj, fields: map<string, Shape>, steps: seq<Step>, others: set<Obj>)
    requires target in h
    decreases steps
  {
    if steps == [] then fields == map[]
    else
      var init, last := steps[..|steps| - 1], steps[|steps| - 1];
      && last.name in fields
      && Fits(h, target, fields - {last.name}, init, others)
      && Suits(Play(h, target, init), target, fields[last.name], last, others)
  }

  // One more step.
  lemma OneMore(h: Heap, target: Obj, fields: map<string, Shape>, steps: seq<Step>, c: Shape, step: Step,
                others: set<Obj>)
    requires target in h && Fits(h, target, fields, steps, others) && step.name !in fields
    requires Suits(Play(h, target, steps), target, c, step, others)
    ensures Fits(h, target, fields[step.name := c], steps + [step], others)
    ensures Play(h, target, steps + [step]) == Do(Play(h, target, steps), target, step)
  {
    hide Suits, Do;
    assert (steps + [step])[..|steps|] == steps;
    assert fields[step.name := c] - {step.name} == fields;
  }

  // Plain objects and arrays lead to nothing outside the heap.
  ghost predicate Closed(h: Heap) {
    forall o <- h, k <- h[o] :: Copied(h[o][k]) ==> h[o][k].o in h
  }

  // A shape down to the last plain object or array.
  ghost predicate Full(s: Shape) {
    s.Node? ==> forall k <- s.fields :: Copied(Root(s.fields[k])) == s.fields[k].Node? && Full(s.fields[k])
  }

  ghost predicate FullFields(fields: map<string, Shape>) {
    forall k <- fields :: Copied(Root(fields[k])) == fields[k].Node? && Full(fields[k])
  }

  // Whatever the target looks like: only objects of its own part of the heap and new ones are
  // written, and that part stays closed, so that nothing of a source is linked in.
  lemma {:induction false} PlayFrame(h: Heap, target: Obj, fields: map<string, Shape>, steps: seq<Step>,
                                     others: set<Obj>)
    requires target in h && Closed(h) && h.Keys !! others
    requires FullFields(fields) && Fits(h, target, fields, steps, others)
    ensures Closed(Play(h, target, steps)) && Play(h, target, steps).Keys !! others
    decreases steps
  {
    if steps != [] {
      var init, last := steps[..|steps| - 1], steps[|steps| - 1];
      PlayFrame(h, target, fields - {last.name}, init, others);
      DoFrame(Play(h, target, init), target, fields[last.name], last, others);
    }
  }

  lemma {:induction false} DoFrame(h: Heap, target: Obj, c: Shape, step: Step, others: set<Obj>)
    requires target in h && Closed(h) && h.Keys !! others
    requires Copied(Root(c)) == c.Node? && Full(c) && Suits(h, target, c, step, others)
    ensures Closed(Do(h, target, step)) && Do(h, target, step).Keys !! others
    decreases step
  {
    match step
    case Skip(_) =>
    case Write(_, _) =>
    case Into(k, clone, steps) =>
      assert Closed(With(h, clone));
      PlayFrame(With(h, clone), clone, c.fields, steps, others);
  }

  // All sources, one after the other; a value that is no object has no names.
  function PlayAll(h: Heap, target: Obj, logs: seq<seq<Step>>): (r: Heap)
    requires target in h
    ensures h.Keys <= r.Keys
  {
    if logs == [] then h else Play(PlayAll(h, target, logs[..|logs| - 1]), target, logs[|logs| - 1])
  }

  ghost predicate FitsAll(h: Heap, target: Obj, ss: seq<Shape>, logs: seq<seq<Step>>, others: set<Obj>)
    requires target in h
  {
    && |logs| == |ss|
    && (ss == [] ||
        var n := |ss| - 1;
        && FitsAll(h, target, ss[..n], logs[..n], others)
        && if ss[n].Leaf? then logs[n] == []
           else Fits(PlayAll(h, target, logs[..n]), target, ss[n].fields, logs[n], others))
  }

  lemma OneMoreSource(h: Heap, target: Obj, ss: seq<Shape>, logs: seq<seq<Step>>, s: Shape, steps: seq<Step>,
                      others: set<Obj>)
    requires target in h && FitsAll(h, target, ss, logs, others)
    requires if s.Leaf? then steps == [] else Fits(PlayAll(h, target, logs), target, s.fields, steps, others)
    ensures FitsAll(h, target, ss + [s], logs + [steps], others)
    ensures PlayAll(h, target, logs + [steps]) == Play(PlayAll(h, target, logs), target, steps)
  {
    hide Fits, Play;
    assert (logs + [steps])[..|logs|] == logs && (ss + [s])[..|ss|] == ss;
  }

  lemma {:induction false} PlayAllFrame(h: Heap, target: Obj, ss: seq<Shape>, logs: seq<seq<Step>>, others: set<Obj>)
    requires target in h && Closed(h) && h.Keys !! others
    requires (forall s <- ss :: Full(s)) && FitsAll(h, target, ss, logs, others)
    ensures Closed(PlayAll(h, target, logs)) && PlayAll(h, target, logs).Keys !! others
    decreases |ss|
  {
    if ss != [] {
      var n := |ss| - 1;
      PlayAllFrame(h, target, ss[..n], logs[..n], others);
      assert Full(ss[n]);
      if ss[n].Node? {
        PlayFrame(PlayAll(h, target, logs[..n]), target, ss[n].fields, logs[n], others);
      }
    }
  }
}
