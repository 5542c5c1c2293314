// From the flat list of tokens to the tree of sections.
module MustacheNest {
  import opened Wrappers
  import opened Sequences
  import opened MustacheLexer
  import opened MustacheStrip

  // A token; a section also holds its contents. The closing tag is not part of the tree.
  datatype Node = Leaf(token: Token) | Branch(token: Token, children: seq<Node>)

  // A section that has been opened, and what has been collected in it so far.
  datatype Frame = Frame(open: Token, collected: seq<Node>)

  datatype State = State(tree: seq<Node>, sections: seq<Frame>)

  predicate Opens(t: Token) {
    t.kind == Section || t.kind == Inverted
  }

  // collector.push(node)
  function Collect(s: State, node: Node): State {
    var n := |s.sections|;
    if n == 0 then s.(tree := s.tree + [node])
    else
      var top := s.sections[n - 1];
      s.(sections := s.sections[..n - 1] + [top.(collected := top.collected + [node])])
  }

  function Step(s: State, token: Token): Result<State> {
    if Opens(token) then Ok(s.(sections := s.sections + [Frame(token, [])]))
    else if token.kind == Closer then
      var n := |s.sections|;
      if n == 0 then Err("Unopened section: " + token.value)
      else
        var section := s.sections[n - 1];
        if section.open.value != token.value then Err("Unclosed section: " + section.open.value)
        else Ok(Collect(s.(sections := s.sections[..n - 1]), Branch(section.open, section.collected)))
    else Ok(Collect(s, Leaf(token)))
  }

  function Run(s: State, tokens: seq<Token>): Result<seq<Node>>
    decreases |tokens|
  {
    if tokens == [] then
      if s.sections == [] then Ok(s.tree)
      else Err("Unclosed section: " + s.sections[|s.sections| - 1].open.value)
    else
      match Step(s, tokens[0])
      case Err(e) => Err(e)
      case Ok(next) => Run(next, tokens[1..])
  }

  method NestTokens(tokens: seq<Token>) returns (r: Result<seq<Node>>)
    ensures r == Run(State([], []), tokens)
  {
    var tree: seq<Node> := [];
    var sections: seq<Frame> := [];
    for i := 0 to |tokens|
      invariant Run(State(tree, sections), tokens[i..]) == Run(State([], []), tokens)
    {
      var token := tokens[i];
      assert tokens[i..][0] == token && tokens[i..][1..] == tokens[i + 1..];
      if Opens(token) {
        sections := sections + [Frame(token, [])];
      } else {
        var node := Leaf(token);
        if token.kind == Closer {
          if |sections| == 0 {
            return Err("Unopened section: " + token.value);
          }
          var section := sections[|sections| - 1];
          sections := sections[..|sections| - 1];
          if section.open.value != token.value {
            return Err("Unclosed section: " + section.open.value);
          }
          node := Branch(section.open, section.collected);
        }
        if |sections| > 0 {
          var top := sections[|sections| - 1];
          sections := sections[..|sections| - 1] + [top.(collected := top.collected + [node])];
        } else {
          tree := tree + [node];
        }
      }
    }
    if |sections| > 0 {
      return Err("Unclosed section: " + sections[|sections| - 1].open.value);
    }
    r := Ok(tree);
  }

  // Properly bracketed text: plain tokens, and blocks that their closing tag fits.
  datatype Bracketed = Plain(token: Token) | Block(open: Token, kids: seq<Bracketed>, close: Token)

  ghost predicate Matched(f: seq<Bracketed>) {
    f == [] || (
      && Matched(f[1..])
      && match f[0]
         case Plain(t) => !Opens(t) && t.kind != Closer
         case Block(open, kids, close) =>
           Opens(open) && close.kind == Closer && close.value == open.value && Matched(kids))
  }

  // The tokens, closing tags included.
  ghost function Flatten(f: seq<Bracketed>): seq<Token> {
    if f == [] then []
    else
      (match f[0]
       case Plain(t) => [t]
       case Block(open, kids, close) => [open] + Flatten(kids) + [close])
      + Flatten(f[1..])
  }

  // The tree without its closing tags.
  ghost function Tree(f: seq<Bracketed>): seq<Node> {
    if f == [] then [] else [NodeOf(f[0])] + Tree(f[1..])
  }

  ghost function NodeOf(b: Bracketed): Node {
    match b case Plain(t) => Leaf(t) case Block(open, kids, _) => Branch(open, Tree(kids))
  }

  ghost function CollectAll(s: State, nodes: seq<Node>): State
    decreases |nodes|
  {
    if nodes == [] then s else CollectAll(Collect(s, nodes[0]), nodes[1..])
  }

  lemma Collected(s: State, node: Node, nodes: seq<Node>)
    ensures CollectAll(s, [node] + nodes) == CollectAll(Collect(s, node), nodes)
  {
    assert ([node] + nodes)[1..] == nodes;
  }

  lemma RunStep(s: State, token: Token, rest: seq<Token>)
    requires Step(s, token).Ok?
    ensures Run(s, [token] + rest) == Run(Step(s, token).value, rest)
  {
    assert ([token] + rest)[1..] == rest;
  }

  lemma PlainAlone(t: Token)
    ensures Flatten([Plain(t)]) == [t] && Tree([Plain(t)]) == [Leaf(t)]
    ensures Matched([Plain(t)]) <==> !Opens(t) && t.kind != Closer
  {
  }

  lemma BlockAlone(open: Token, kids: seq<Bracketed>, close: Token)
    ensures var b := Block(open, kids, close);
            && Flatten([b]) == [open] + Flatten(kids) + [close] && Tree([b]) == [Branch(open, Tree(kids))]
            && (Matched([b]) <==> Opens(open) && close.kind == Closer && close.value == open.value && Matched(kids))
  {
  }

  // Reading properly bracketed text collects its tree, whatever is open around it.
  lemma {:induction false} RunCollects(s: State, f: seq<Bracketed>, rest: seq<Token>)
    requires Matched(f)
    ensures Run(s, Flatten(f) + rest) == Run(CollectAll(s, Tree(f)), rest)
    decreases f, 1
  {
    assert f == [] ==> Flatten(f) == [] && CollectAll(s, Tree(f)) == s;
    hide *;
    if f == [] {
      assert [] + rest == rest;
    } else {
      Uncons(f);
      var more := Flatten(f[1..]) + rest;
      assert Flatten(f) + rest == Flatten([f[0]]) + more;
      RunFirst(s, f, more);
      RunCollects(Collect(s, NodeOf(f[0])), f[1..], rest);
      Collected(s, NodeOf(f[0]), Tree(f[1..]));
    }
  }

  lemma RunFirst(s: State, f: seq<Bracketed>, more: seq<Token>)
    requires f != [] && Matched([f[0]])
    ensures Run(s, Flatten([f[0]]) + more) == Run(Collect(s, NodeOf(f[0])), more)
    decreases f, 0
  {
    match f[0]
    case Plain(t) =>
      PlainAlone(t);
      assert Step(s, t) == Ok(Collect(s, Leaf(t)));
      hide Run;
      RunStep(s, t, more);
    case Block(open, kids, close) =>
      BlockAlone(open, kids, close);
      hide Run;
      RunBlock(s, open, kids, close, more);
  }

  lemma {:induction false} RunBlock(s: State, open: Token, kids: seq<Bracketed>, close: Token, rest: seq<Token>)
    requires Opens(open) && close.kind == Closer && close.value == open.value && Matched(kids)
    ensures Run(s, [open] + Flatten(kids) + [close] + rest) == Run(Collect(s, Branch(open, Tree(kids))), rest)
    decreases kids, 2
  {
    hide Run, Collect, CollectAll, Flatten, Matched;
    var inner := s.(sections := s.sections + [Frame(open, [])]);
    var outer := s.(sections := s.sections + [Frame(open, Tree(kids))]);
    assert [open] + Flatten(kids) + [close] + rest == [open] + (Flatten(kids) + ([close] + rest));
    RunStep(s, open, Flatten(kids) + ([close] + rest));
    RunCollects(inner, kids, [close] + rest);
    CollectInside(s, open, [], Tree(kids));
    assert [] + Tree(kids) == Tree(kids);
    assert outer.sections[..|s.sections|] == s.sections;
    RunStep(outer, close, rest);
  }

  lemma {:induction false} CollectInside(s: State, open: Token, got: seq<Node>, nodes: seq<Node>)
    ensures CollectAll(s.(sections := s.sections + [Frame(open, got)]), nodes) ==
              s.(sections := s.sections + [Frame(open, got + nodes)])
    decreases |nodes|
  {
    if nodes == [] {
      assert got + nodes == got;
    } else {
      assert got + nodes == got + [nodes[0]] + nodes[1..];
      assert (s.sections + [Frame(open, got)])[..|s.sections|] == s.sections;
      CollectInside(s, open, got + [nodes[0]], nodes[1..]);
    }
  }

  lemma {:induction false} CollectTop(tree: seq<Node>, nodes: seq<Node>)
    ensures CollectAll(State(tree, []), nodes) == State(tree + nodes, [])
    decreases |nodes|
  {
    if nodes == [] {
      assert tree + nodes == tree;
    } else {
      assert tree + nodes == tree + [nodes[0]] + nodes[1..];
      CollectTop(tree + [nodes[0]], nodes[1..]);
    }
  }

  // What is wrong with a text that is not properly bracketed: a closing tag that nothing has opened.
  lemma NothingOpened(f: seq<Bracketed>, close: Token, rest: seq<Token>)
    requires Matched(f) && close.kind == Closer
    ensures Run(State([], []), Flatten(f) + [close] + rest) == Err("Unopened section: " + close.value)
  {
    hide Flatten, Matched, Tree, CollectAll;
    RunCollects(State([], []), f, [close] + rest);
    CollectTop([], Tree(f));
    assert Flatten(f) + [close] + rest == Flatten(f) + ([close] + rest);
    assert ([close] + rest)[0] == close;
  }

  // Or a section that is still open at the end, or closed by a tag that does not fit.
  lemma {:induction false} NotClosed(f: seq<Bracketed>, open: Token, g: seq<Bracketed>, rest: seq<Token>)
    requires Matched(f) && Matched(g) && Opens(open)
    requires rest != [] ==> rest[0].kind == Closer && rest[0].value != open.value
    ensures Run(State([], []), Flatten(f) + [open] + Flatten(g) + rest) == Err("Unclosed section: " + open.value)
  {
    hide Flatten, Matched, Tree, CollectAll;
    var tree := Tree(f);
    var inner, full := State(tree, [Frame(open, [])]), State(tree, [Frame(open, Tree(g))]);
    RunCollects(State([], []), f, [open] + (Flatten(g) + rest));
    CollectTop([], tree);
    assert [] + tree == tree;
    assert Flatten(f) + [open] + Flatten(g) + rest == Flatten(f) + ([open] + (Flatten(g) + rest));
    RunStep(State(tree, []), open, Flatten(g) + rest);
    assert [] + [Frame(open, [])] == [Frame(open, [])];
    RunCollects(inner, g, rest);
    CollectInside(State(tree, []), open, [], Tree(g));
    assert [] + Tree(g) == Tree(g) && [] + [Frame(open, Tree(g))] == [Frame(open, Tree(g))];
    assert Run(full, rest) == Err("Unclosed section: " + open.value);
  }

  // What has been read, with the closing tags the tree has lost.
  datatype OpenBlock = OpenBlock(open: Token, kids: seq<Bracketed>)

  ghost function Frames(blocks: seq<OpenBlock>): seq<Frame> {
    seq(|blocks|, i requires 0 <= i < |blocks| => Frame(blocks[i].open, Tree(blocks[i].kids)))
  }

  ghost function Read(blocks: seq<OpenBlock>): seq<Token> {
    if blocks == [] then []
    else
      var last := blocks[|blocks| - 1];
      Read(blocks[..|blocks| - 1]) + [last.open] + Flatten(last.kids)
  }

  ghost predicate AllMatched(blocks: seq<OpenBlock>) {
    forall i :: 0 <= i < |blocks| ==> Opens(blocks[i].open) && Matched(blocks[i].kids)
  }

  lemma {:induction false} Append(f: seq<Bracketed>, g: seq<Bracketed>)
    ensures Flatten(f + g) == Flatten(f) + Flatten(g)
    ensures Tree(f + g) == Tree(f) + Tree(g)
    ensures Matched(f + g) <==> Matched(f) && Matched(g)
    decreases |f|
  {
    assert f == [] ==> f + g == g && Flatten(f) == [] && Tree(f) == [] && Matched(f);
    hide *;
    if f != [] {
      Append(f[1..], g);
      Uncons(f);
      Uncons(f + g);
      assert (f + g)[1..] == f[1..] + g && (f + g)[0] == f[0];
      Associative(Flatten([f[0]]), Flatten(f[1..]), Flatten(g));
      Associative([NodeOf(f[0])], Tree(f[1..]), Tree(g));
    }
  }

  // The first of a text and the rest.
  lemma Uncons(f: seq<Bracketed>)
    requires f != []
    ensures Flatten(f) == Flatten([f[0]]) + Flatten(f[1..])
    ensures Tree(f) == [NodeOf(f[0])] + Tree(f[1..])
    ensures Matched(f) <==> Matched([f[0]]) && Matched(f[1..])
  {
    assert [f[0]][1..] == [];
  }

  // Nothing but properly bracketed text is accepted.
  lemma {:induction false} RunMatched(f: seq<Bracketed>, blocks: seq<OpenBlock>, tokens: seq<Token>)
    returns (g: seq<Bracketed>)
    requires Matched(f) && AllMatched(blocks)
    requires Run(State(Tree(f), Frames(blocks)), tokens).Ok?
    ensures Matched(g) && Flatten(g) == Flatten(f) + Read(blocks) + tokens
    ensures Run(State(Tree(f), Frames(blocks)), tokens) == Ok(Tree(g))
    decreases |tokens|, 0
  {
    hide Matched, Flatten, Tree, Run, Collect, Read, Frames, Step;
    if tokens == [] {
      g := f;
      RunEnds(Tree(f), blocks);
      assert Flatten(f) + [] + [] == Flatten(f);
    } else {
      var t, rest := tokens[0], tokens[1..];
      RunSome(State(Tree(f), Frames(blocks)), tokens);
      if Opens(t) {
        NothingYet();
        var more := blocks + [OpenBlock(t, [])];
        StepOpens(Tree(f), blocks, t);
        g := RunMatched(f, more, rest);
        assert Flatten(f) + (Read(blocks) + [t]) + rest == Flatten(f) + Read(blocks) + tokens;
      } else if t.kind == Closer {
        var outer, b := StepCloses(Tree(f), blocks, t);
        g := RunMatchedPlus(f, outer, b, rest);
        assert Flatten(f) + Read(outer) + Flatten([b]) + rest == Flatten(f) + (Read(outer) + Flatten([b])) + rest;
        assert Flatten(f) + (Read(blocks) + [t]) + rest == Flatten(f) + Read(blocks) + tokens;
      } else {
        PlainAlone(t);
        StepPlain(Tree(f), blocks, t);
        g := RunMatchedPlus(f, blocks, Plain(t), rest);
        assert Flatten(f) + Read(blocks) + [t] + rest == Flatten(f) + Read(blocks) + tokens;
      }
    }
  }

  lemma RunEnds(tree: seq<Node>, blocks: seq<OpenBlock>)
    requires Run(State(tree, Frames(blocks)), []).Ok?
    ensures Run(State(tree, Frames(blocks)), []) == Ok(tree) && Read(blocks) == []
  {
    assert |Frames(blocks)| == |blocks|;
  }

  lemma StepOpens(tree: seq<Node>, blocks: seq<OpenBlock>, t: Token)
    requires Opens(t)
    ensures var more := blocks + [OpenBlock(t, [])];
            && Step(State(tree, Frames(blocks)), t) == Ok(State(tree, Frames(more)))
            && Read(more) == Read(blocks) + [t]
  {
    var more := blocks + [OpenBlock(t, [])];
    assert Frames(more) == Frames(blocks) + [Frame(t, [])];
    assert more[..|blocks|] == blocks;
  }

  lemma StepCloses(tree: seq<Node>, blocks: seq<OpenBlock>, t: Token) returns (outer: seq<OpenBlock>, b: Bracketed)
    requires AllMatched(blocks) && t.kind == Closer && Step(State(tree, Frames(blocks)), t).Ok?
    ensures AllMatched(outer) && Matched([b]) && |Tree([b])| == 1
    ensures Step(State(tree, Frames(blocks)), t) == Ok(Collect(State(tree, Frames(outer)), Tree([b])[0]))
    ensures Read(outer) + Flatten([b]) == Read(blocks) + [t]
  {
    hide Matched, Flatten, Tree, Collect;
    var n := |blocks|;
    var top := blocks[n - 1];
    outer, b := blocks[..n - 1], Block(top.open, top.kids, t);
    BlockAlone(top.open, top.kids, t);
    assert Frames(blocks)[n - 1] == Frame(top.open, Tree(top.kids));
    assert Frames(blocks)[..n - 1] == Frames(outer);
  }

  lemma StepPlain(tree: seq<Node>, blocks: seq<OpenBlock>, t: Token)
    requires !Opens(t) && t.kind != Closer
    ensures |Tree([Plain(t)])| == 1
    ensures Step(State(tree, Frames(blocks)), t) == Ok(Collect(State(tree, Frames(blocks)), Tree([Plain(t)])[0]))
  {
    PlainAlone(t);
  }

  lemma RunSome(s: State, tokens: seq<Token>)
    requires tokens != [] && Run(s, tokens).Ok?
    ensures Step(s, tokens[0]).Ok? && Run(s, tokens) == Run(Step(s, tokens[0]).value, tokens[1..])
  {
  }

  lemma NothingYet()
    ensures Matched([]) && Flatten([]) == [] && Tree([]) == []
  {
  }

  // One more node for the innermost collector.
  lemma {:induction false} RunMatchedPlus(f: seq<Bracketed>, blocks: seq<OpenBlock>, b: Bracketed, tokens: seq<Token>)
    returns (g: seq<Bracketed>)
    requires Matched(f) && AllMatched(blocks) && Matched([b]) && |Tree([b])| == 1
    requires Run(Collect(State(Tree(f), Frames(blocks)), Tree([b])[0]), tokens).Ok?
    ensures Matched(g) && Flatten(g) == Flatten(f) + Read(blocks) + Flatten([b]) + tokens
    ensures Run(Collect(State(Tree(f), Frames(blocks)), Tree([b])[0]), tokens) == Ok(Tree(g))
    decreases |tokens|, 1
  {
    hide Matched, Flatten, Tree, Run;
    var n := |blocks|;
    if n == 0 {
      Append(f, [b]);
      OneNode(b);
      assert Frames(blocks) == [];
      g := RunMatched(f + [b], blocks, tokens);
    } else {
      var top := blocks[n - 1];
      Append(top.kids, [b]);
      OneNode(b);
      var more := blocks[..n - 1] + [OpenBlock(top.open, top.kids + [b])];
      assert Frames(blocks)[n - 1] == Frame(top.open, Tree(top.kids));
      assert Frames(more) == Frames(blocks)[..n - 1] + [Frame(top.open, Tree(top.kids) + Tree([b]))];
      assert more[..n - 1] == blocks[..n - 1];
      g := RunMatched(f, more, tokens);
      assert Read(more) == Read(blocks) + Flatten([b]);
    }
  }

  lemma OneNode(b: Bracketed)
    ensures |Tree([b])| == 1 && Tree([b]) == [Tree([b])[0]]
  {
  }

  // Nesting succeeds exactly on properly bracketed tokens, and then gives their tree.
  lemma NestExactly(tokens: seq<Token>, tree: seq<Node>)
    ensures Run(State([], []), tokens) == Ok(tree) <==>
              exists f :: Matched(f) && Flatten(f) == tokens && Tree(f) == tree
  {
    if Run(State([], []), tokens) == Ok(tree) {
      assert Frames([]) == [] && Tree([]) == [];
      var g := RunMatched([], [], tokens);
      assert Flatten(g) == tokens;
    }
    if f :| Matched(f) && Flatten(f) == tokens && Tree(f) == tree {
      NestOf(f);
    }
  }

  // Nesting undoes flattening.
  lemma NestOf(f: seq<Bracketed>)
    requires Matched(f)
    ensures Run(State([], []), Flatten(f)) == Ok(Tree(f))
  {
    RunCollects(State([], []), f, []);
    assert Flatten(f) + [] == Flatten(f);
    CollectTop([], Tree(f));
    assert [] + Tree(f) == Tree(f);
  }

  // Drilling down into the last child as long as there is one.
  method SectionBounds(section: Node) returns (start: nat, end: nat)
    ensures start == section.token.end && end == EndOf(section)
  {
    start := section.token.end;
    end := start;
    var token := section;
    while token.Branch? && |token.children| > 0
      invariant EndOf(token) == EndOf(section) && end == token.token.end
      decreases token
    {
      token := token.children[|token.children| - 1];
      end := token.token.end;
    }
  }

  function EndOf(n: Node): nat {
    match n
    case Leaf(t) => t.end
    case Branch(t, children) => if children == [] then t.end else EndOf(children[|children| - 1])
  }

  ghost predicate IsBlockOf(b: Bracketed, f: seq<Bracketed>) {
    f != [] && (
      || (b.Block? && b == f[0])
      || (f[0].Block? && IsBlockOf(b, f[0].kids))
      || IsBlockOf(b, f[1..]))
  }

  // The tokens of a block stand together among those of the whole text.
  lemma {:induction false} BlockWithin(b: Bracketed, f: seq<Bracketed>, from: nat, to: nat)
    requires IsBlockOf(b, f) && Ordered(Flatten(f), from, to)
    ensures Ordered(Flatten([b]), from, to)
    decreases f
  {
    hide Flatten, Ordered, Matched, Tree;
    Uncons(f);
    var first, rest := Flatten([f[0]]), Flatten(f[1..]);
    assert Flatten(f) == [] + first + rest == first + rest + [];
    OrderedParts([], first, rest, from, to);
    OrderedParts(first, rest, [], from, to);
    if b.Block? && b == f[0] {
    } else if f[0].Block? && IsBlockOf(b, f[0].kids) {
      BlockAlone(f[0].open, f[0].kids, f[0].close);
      OrderedParts([f[0].open], Flatten(f[0].kids), [f[0].close], from, to);
      BlockWithin(b, f[0].kids, from, to);
    } else {
      BlockWithin(b, f[1..], from, to);
    }
  }

  lemma OrderedParts(a: seq<Token>, b: seq<Token>, c: seq<Token>, from: nat, to: nat)
    ensures Ordered(a + b + c, from, to) ==> Ordered(b, from, to)
  {
    var all := a + b + c;
    assert forall i :: 0 <= i < |b| ==> b[i] == all[|a| + i];
  }

  // Every section's bounds lie between its opening and its closing tag. They stop short of
  // the body's last token exactly when that token is the closing tag of a nested section.
  lemma BoundsWithin(f: seq<Bracketed>, b: Bracketed, from: nat, to: nat)
    requires b.Block? && IsBlockOf(b, f) && Ordered(Flatten(f), from, to)
    ensures var n := Tree([b])[0];
            && n.token == b.open
            && b.open.end <= EndOf(n) <= b.close.start
            && (b.kids != [] ==>
                  var body := Flatten(b.kids);
                  body != [] && (EndOf(n) == body[|body| - 1].end <==> b.kids[|b.kids| - 1].Plain?))
  {
    BlockWithin(b, f, from, to);
    BlockBounds(b, from, to);
  }

  lemma {:induction false} BlockBounds(b: Bracketed, from: nat, to: nat)
    requires b.Block? && Ordered(Flatten([b]), from, to)
    ensures var n := Tree([b])[0];
            && n.token == b.open
            && b.open.end <= EndOf(n) <= b.close.start
            && (b.kids != [] ==>
                  var body := Flatten(b.kids);
                  body != [] && (EndOf(n) == body[|body| - 1].end <==> b.kids[|b.kids| - 1].Plain?))
    decreases b
  {
    hide Matched, Flatten, Tree;
    BlockAlone(b.open, b.kids, b.close);
    var n, body := Tree([b])[0], Flatten(b.kids);
    var all := [b.open] + body + [b.close];
    assert all[0] == b.open && all[|all| - 1] == b.close;
    if b.kids == [] {
      NothingYet();
    } else {
      var m := |b.kids| - 1;
      var front, last := b.kids[..m], b.kids[m];
      assert b.kids == front + [last];
      Append(front, [last]);
      OneNode(last);
      assert n.children == Tree(front) + [Tree([last])[0]];
      var before := [b.open] + Flatten(front);
      assert all == before + Flatten([last]) + [b.close];
      OrderedParts(before, Flatten([last]), [b.close], from, to);
      match last
      case Plain(t) =>
        PlainAlone(t);
        assert all[|before|] == t;
      case Block(open, kids, close) =>
        BlockBounds(last, from, to);
        BlockAlone(open, kids, close);
        assert all[|before| + 1 + |Flatten(kids)|] == close;
        assert all[|before|] == open;
    }
  }
}
