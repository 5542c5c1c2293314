// Token trees that render alike: neither the positions of the tokens nor the way text is cut into
// tokens makes a difference.
module MustacheAlike {
  import opened Wrappers
  import opened MustacheLexer
  import opened MustacheStrip
  import opened MustacheNest
  import opened MustacheContext
  import opened MustacheRender

  ghost predicate Alike(a: seq<Node>, b: seq<Node>) {
    forall views: seq<Value>, partials: Partials, depth: nat ::
      views != [] ==> Interp(a, views, partials, depth) == Interp(b, views, partials, depth)
  }

  lemma {:induction false} InterpConcat(a: seq<Node>, b: seq<Node>, views: seq<Value>, partials: Partials, depth: nat)
    requires views != []
    ensures Interp(a + b, views, partials, depth) ==
              Then(Interp(a, views, partials, depth), Interp(b, views, partials, depth))
    decreases |a|
  {
    hide InterpOne;
    if a == [] {
      assert a + b == b;
      ThenAssociative(Interp(b, views, partials, depth), Ok(""), Ok(""));
    } else {
      assert (a + b)[0] == a[0] && (a + b)[1..] == a[1..] + b;
      InterpConcat(a[1..], b, views, partials, depth);
      ThenAssociative(InterpOne(a[0], views, partials, depth), Interp(a[1..], views, partials, depth),
                      Interp(b, views, partials, depth));
    }
  }

  lemma InterpAlone(n: Node, views: seq<Value>, partials: Partials, depth: nat)
    requires views != []
    ensures Interp([n], views, partials, depth) == InterpOne(n, views, partials, depth)
  {
    hide InterpOne;
    assert [n][1..] == [];
    assert Interp([], views, partials, depth) == Ok("");
    var r := InterpOne(n, views, partials, depth);
    if r.Ok? {
      assert r.value + "" == r.value;
    }
  }

  lemma AlikeConcat(a: seq<Node>, b: seq<Node>, c: seq<Node>, d: seq<Node>)
    requires Alike(a, b) && Alike(c, d)
    ensures Alike(a + c, b + d)
  {
    hide Interp;
    forall views: seq<Value>, partials: Partials, depth: nat | views != []
      ensures Interp(a + c, views, partials, depth) == Interp(b + d, views, partials, depth)
    {
      InterpConcat(a, c, views, partials, depth);
      InterpConcat(b, d, views, partials, depth);
    }
  }

  lemma {:induction false} ItemsAlike(items: seq<Value>, a: seq<Node>, b: seq<Node>, views: seq<Value>,
                                      partials: Partials, depth: nat)
    requires Alike(a, b) && views != []
    ensures InterpItems(items, a, views, partials, depth) == InterpItems(items, b, views, partials, depth)
    decreases |items|
  {
    hide Interp;
    if items != [] {
      ItemsAlike(items[1..], a, b, views, partials, depth);
    }
  }

  // Tokens that differ in their positions only.
  predicate Same(t: Token, u: Token) {
    t.kind == u.kind && t.value == u.value
  }

  lemma LeafAlike(t: Token, u: Token)
    requires Same(t, u)
    ensures Alike([Leaf(t)], [Leaf(u)])
  {
    forall views: seq<Value>, partials: Partials, depth: nat | views != []
      ensures Interp([Leaf(t)], views, partials, depth) == Interp([Leaf(u)], views, partials, depth)
    {
      InterpAlone(Leaf(t), views, partials, depth);
      InterpAlone(Leaf(u), views, partials, depth);
      OneLeaf(t, u, views, partials, depth);
    }
  }

  lemma OneLeaf(t: Token, u: Token, views: seq<Value>, partials: Partials, depth: nat)
    requires Same(t, u) && views != []
    ensures InterpOne(Leaf(t), views, partials, depth) == InterpOne(Leaf(u), views, partials, depth)
  {
    hide Interp, InterpSection, Find;
  }

  lemma BranchAlike(t: Token, u: Token, a: seq<Node>, b: seq<Node>)
    requires Same(t, u) && Alike(a, b)
    ensures Alike([Branch(t, a)], [Branch(u, b)])
  {
    hide Interp, InterpOne;
    forall views: seq<Value>, partials: Partials, depth: nat | views != []
      ensures Interp([Branch(t, a)], views, partials, depth) == Interp([Branch(u, b)], views, partials, depth)
    {
      InterpAlone(Branch(t, a), views, partials, depth);
      InterpAlone(Branch(u, b), views, partials, depth);
      OneBranch(t, u, a, b, views, partials, depth);
    }
  }

  lemma OneBranch(t: Token, u: Token, a: seq<Node>, b: seq<Node>, views: seq<Value>, partials: Partials, depth: nat)
    requires Same(t, u) && Alike(a, b) && views != []
    ensures InterpOne(Branch(t, a), views, partials, depth) == InterpOne(Branch(u, b), views, partials, depth)
  {
    hide Interp, InterpItems, Find, ToText, Falsy;
    assert Interp(a, views, partials, depth) == Interp(b, views, partials, depth);
    match Find(views, t.value)
    case Err(_) =>
    case Ok(v) =>
      assert Interp(a, [v] + views, partials, depth) == Interp(b, [v] + views, partials, depth);
      if v.Arr? {
        ItemsAlike(v.items, a, b, views, partials, depth);
      }
  }

  // Text may be cut anywhere.
  lemma TextAlike(t: Token, u: Token, both: Token)
    requires t.kind == u.kind == both.kind == Text && both.value == t.value + u.value
    ensures Alike([Leaf(t), Leaf(u)], [Leaf(both)])
  {
    forall views: seq<Value>, partials: Partials, depth: nat | views != []
      ensures Interp([Leaf(t), Leaf(u)], views, partials, depth) == Interp([Leaf(both)], views, partials, depth)
    {
      assert [Leaf(t), Leaf(u)] == [Leaf(t)] + [Leaf(u)];
      InterpConcat([Leaf(t)], [Leaf(u)], views, partials, depth);
      InterpAlone(Leaf(t), views, partials, depth);
      InterpAlone(Leaf(u), views, partials, depth);
      InterpAlone(Leaf(both), views, partials, depth);
    }
  }

  // --- Reading tokens that are alike.

  ghost predicate AlikeFrame(f: Frame, g: Frame) {
    Same(f.open, g.open) && Alike(f.collected, g.collected)
  }

  ghost predicate AlikeState(s: State, r: State) {
    && Alike(s.tree, r.tree) && |s.sections| == |r.sections|
    && forall i :: 0 <= i < |s.sections| ==> AlikeFrame(s.sections[i], r.sections[i])
  }

  ghost predicate AlikeResult(a: Result<seq<Node>>, b: Result<seq<Node>>) {
    if a.Ok? then b.Ok? && Alike(a.value, b.value) else b.Err?
  }

  lemma CollectAlike(s: State, r: State, a: seq<Node>, b: seq<Node>, x: Node, y: Node)
    requires AlikeState(s, r) && Alike([x], [y])
    ensures AlikeState(Collect(s, x), Collect(r, y))
  {
    hide Alike;
    if s.sections == [] {
      AlikeConcat(s.tree, r.tree, [x], [y]);
    } else {
      var n := |s.sections| - 1;
      assert AlikeFrame(s.sections[n], r.sections[n]);
      AlikeConcat(s.sections[n].collected, r.sections[n].collected, [x], [y]);
    }
  }

  lemma StepAlike(s: State, r: State, t: Token, u: Token)
    requires AlikeState(s, r) && Same(t, u)
    ensures Step(s, t).Ok? <==> Step(r, u).Ok?
    ensures Step(s, t).Ok? ==> AlikeState(Step(s, t).value, Step(r, u).value)
  {
    hide Alike, Collect;
    if Opens(t) {
      NothingAlike();
    } else if t.kind == Closer {
      var n := |s.sections| - 1;
      if n >= 0 {
        var f, g := s.sections[n], r.sections[n];
        assert AlikeFrame(f, g);
        if f.open.value == t.value {
          BranchAlike(f.open, g.open, f.collected, g.collected);
          CollectAlike(s.(sections := s.sections[..n]), r.(sections := r.sections[..n]), [], [],
                       Branch(f.open, f.collected), Branch(g.open, g.collected));
        }
      }
    } else {
      LeafAlike(t, u);
      CollectAlike(s, r, [], [], Leaf(t), Leaf(u));
    }
  }

  lemma NothingAlike()
    ensures Alike([], []) && AlikeState(State([], []), State([], []))
  {
  }

  lemma {:induction false} RunAlike(s: State, r: State, a: seq<Token>, b: seq<Token>)
    requires AlikeState(s, r) && |a| == |b| && forall i :: 0 <= i < |a| ==> Same(a[i], b[i])
    ensures AlikeResult(Run(s, a), Run(r, b))
    decreases |a|
  {
    hide Alike, Step;
    if a != [] {
      StepAlike(s, r, a[0], b[0]);
      if Step(s, a[0]).Ok? {
        assert forall i :: 0 <= i < |a| - 1 ==> Same(a[1..][i], b[1..][i]);
        RunAlike(Step(s, a[0]).value, Step(r, b[0]).value, a[1..], b[1..]);
      }
    }
  }

  lemma StateSelf(s: State)
    ensures AlikeState(s, s)
  {
    hide Interp;
  }

  // Joining two text tokens anywhere.
  lemma {:induction false} JoinAlike(s: State, r: State, a: seq<Token>, t: Token, u: Token, both: Token, b: seq<Token>)
    requires AlikeState(s, r)
    requires t.kind == u.kind == both.kind == Text && both.value == t.value + u.value
    ensures AlikeResult(Run(s, a + [t, u] + b), Run(r, a + [both] + b))
    decreases |a|
  {
    hide Alike, Step, AlikeState;
    if a == [] {
      TextRuns(s, r, t, u, both, b);
      assert [] + [t, u] + b == [t, u] + b && [] + [both] + b == [both] + b;
    } else {
      assert (a + [t, u] + b)[1..] == a[1..] + [t, u] + b && (a + [both] + b)[1..] == a[1..] + [both] + b;
      StepAlike(s, r, a[0], a[0]);
      if Step(s, a[0]).Ok? {
        JoinAlike(Step(s, a[0]).value, Step(r, a[0]).value, a[1..], t, u, both, b);
      }
    }
  }

  lemma TextRuns(s: State, r: State, t: Token, u: Token, both: Token, b: seq<Token>)
    requires AlikeState(s, r)
    requires t.kind == u.kind == both.kind == Text && both.value == t.value + u.value
    ensures AlikeResult(Run(s, [t, u] + b), Run(r, [both] + b))
  {
    hide Alike, Run;
    var s2, r2 := Collect(Collect(s, Leaf(t)), Leaf(u)), Collect(r, Leaf(both));
    assert [t, u] + b == [t] + ([u] + b);
    RunStep(s, t, [u] + b);
    RunStep(Collect(s, Leaf(t)), u, b);
    RunStep(r, both, b);
    TextAlike(t, u, both);
    if s.sections == [] {
      AlikeConcat(s.tree, r.tree, [Leaf(t), Leaf(u)], [Leaf(both)]);
      assert s2.tree == s.tree + [Leaf(t), Leaf(u)];
    } else {
      var n := |s.sections| - 1;
      assert AlikeFrame(s.sections[n], r.sections[n]);
      AlikeConcat(s.sections[n].collected, r.sections[n].collected, [Leaf(t), Leaf(u)], [Leaf(both)]);
      assert s2.sections[n].collected == s.sections[n].collected + [Leaf(t), Leaf(u)];
    }
    RunAlike(s2, r2, b, b);
  }

  lemma AlikeTwice(a: Result<seq<Node>>, b: Result<seq<Node>>, c: Result<seq<Node>>)
    requires AlikeResult(a, b) && AlikeResult(b, c)
    ensures AlikeResult(a, c) && AlikeResult(b, a)
  {
    hide Interp;
  }

  // Squashing makes no difference.
  lemma {:induction false} SquashAlike(s: State, squashed: seq<Token>, tokens: seq<Token>)
    ensures AlikeResult(Run(s, squashed + tokens), Run(s, SquashOnto(squashed, tokens)))
    decreases |tokens|
  {
    hide Alike, Run, AlikeState, AlikeResult;
    if tokens == [] {
      assert squashed + tokens == squashed;
      ResultSelf(Run(s, squashed));
    } else {
      var more := Extend(squashed, tokens[0]);
      SquashAlike(s, more, tokens[1..]);
      ExtendAlike(s, squashed, tokens[0], tokens[1..]);
      assert squashed + tokens == squashed + [tokens[0]] + tokens[1..];
      AlikeTwice(Run(s, squashed + tokens), Run(s, more + tokens[1..]), Run(s, SquashOnto(squashed, tokens)));
    }
  }

  lemma ResultSelf(a: Result<seq<Node>>)
    ensures AlikeResult(a, a)
  {
    hide Interp;
  }

  lemma ExtendAlike(s: State, squashed: seq<Token>, token: Token, rest: seq<Token>)
    ensures AlikeResult(Run(s, squashed + [token] + rest), Run(s, Extend(squashed, token) + rest))
  {
    hide Alike, Run, AlikeState, AlikeResult;
    var n := |squashed| - 1;
    if n >= 0 && squashed[n].kind == Text && token.kind == Text {
      var both := squashed[n].(value := squashed[n].value + token.value, end := token.end);
      StateSelf(s);
      JoinAlike(s, s, squashed[..n], squashed[n], token, both, rest);
      assert squashed + [token] + rest == squashed[..n] + [squashed[n], token] + rest;
      assert Extend(squashed, token) == squashed[..n] + [both];
    } else {
      ResultSelf(Run(s, squashed + [token] + rest));
    }
  }
}
