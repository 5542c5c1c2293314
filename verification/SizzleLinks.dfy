// What a selector says of an element, in terms of the document's own links.
module SizzleLinks {
  import opened Wrappers
  import opened SizzleMatch

  // The node reached by following a link k times.
  function Nth(links: map<Node, Node>, e: Node, k: nat): Option<Node> {
    if k == 0 then Some(e)
    else
      match Nth(links, e, k - 1)
      case None => None
      case Some(n) => if n in links then Some(links[n]) else None
  }

  // It is an element.
  predicate Meets(links: map<Node, Node>, elements: set<Node>, e: Node, k: nat): (m: bool)
    ensures m ==> k > 0 && Nth(links, e, k).Some?
  {
    k > 0 && Nth(links, e, k).Some? && Nth(links, e, k).value in elements
  }

  // All nodes in the order in which the link leads to them, until it ends.
  ghost predicate IsWalk(links: map<Node, Node>, e: Node, walk: seq<Node>) {
    && (forall k :: 1 <= k <= |walk| ==> Nth(links, e, k) == Some(walk[k - 1]))
    && Nth(links, e, |walk| + 1).None?
  }

  function Only(walk: seq<Node>, elements: set<Node>): seq<Node> {
    if walk == [] then []
    else (if walk[0] in elements then [walk[0]] else []) + Only(walk[1..], elements)
  }

  lemma {:induction false} NthFirst(links: map<Node, Node>, e: Node, k: nat)
    ensures Nth(links, e, k + 1) == if e in links then Nth(links, links[e], k) else None
  {
    if k == 0 {
      assert Nth(links, e, 1) == if e in links then Some(links[e]) else None;
    } else {
      NthFirst(links, e, k - 1);
    }
  }

  lemma WalkOn(links: map<Node, Node>, e: Node, walk: seq<Node>)
    requires e in links && IsWalk(links, links[e], walk)
    ensures IsWalk(links, e, [links[e]] + walk)
  {
    forall k | 1 <= k <= |walk| + 1
      ensures Nth(links, e, k) == Some(([links[e]] + walk)[k - 1])
    {
      NthFirst(links, e, k - 1);
    }
    NthFirst(links, e, |walk| + 1);
  }

  // The elements met along a parent or sibling combinator are those of the whole walk along
  // that link, in its order.
  lemma {:induction false} AlongParents(page: Page, e: Node) returns (walk: seq<Node>)
    requires page.Valid()
    ensures IsWalk(page.parent, e, walk) && page.Along(ParentNode, e) == Only(walk, page.elements)
    decreases page.order(e)
  {
    if e in page.parent {
      var rest := AlongParents(page, page.parent[e]);
      WalkOn(page.parent, e, rest);
      walk := [page.parent[e]] + rest;
      assert walk[1..] == rest;
    } else {
      walk := [];
      NthFirst(page.parent, e, 0);
    }
  }

  lemma {:induction false} AlongSiblings(page: Page, e: Node) returns (walk: seq<Node>)
    requires page.Valid()
    ensures IsWalk(page.prev, e, walk) && page.Along(PreviousSibling, e) == Only(walk, page.elements)
    decreases page.order(e)
  {
    if e in page.prev {
      var rest := AlongSiblings(page, page.prev[e]);
      WalkOn(page.prev, e, rest);
      walk := [page.prev[e]] + rest;
      assert walk[1..] == rest;
    } else {
      walk := [];
      NthFirst(page.prev, e, 0);
    }
  }

  // Some element of the walk, and its first element, by the number of links to them.
  lemma {:induction false} OnlyMember(walk: seq<Node>, elements: set<Node>, n: Node)
    ensures n in Only(walk, elements) <==> n in walk && n in elements
  {
    if walk != [] {
      OnlyMember(walk[1..], elements, n);
    }
  }

  lemma {:induction false} OnlyFirst(walk: seq<Node>, elements: set<Node>)
    ensures Only(walk, elements) == [] <==> forall i :: 0 <= i < |walk| ==> walk[i] !in elements
    ensures Only(walk, elements) != [] ==>
              exists i :: 0 <= i < |walk| && walk[i] == Only(walk, elements)[0] && walk[i] in elements
                && forall j :: 0 <= j < i ==> walk[j] !in elements
  {
    if walk != [] && walk[0] !in elements {
      OnlyFirst(walk[1..], elements);
      if Only(walk[1..], elements) != [] {
        var i :| 0 <= i < |walk| - 1 && walk[1..][i] == Only(walk[1..], elements)[0] && walk[1..][i] in elements
          && forall j :: 0 <= j < i ==> walk[1..][j] !in elements;
        assert walk[i + 1] == walk[1..][i];
        assert forall j :: 0 < j < i + 1 ==> walk[j] == walk[1..][j - 1];
      } else {
        assert forall i :: 0 < i < |walk| ==> walk[i] == walk[1..][i - 1];
      }
    }
  }

  lemma {:induction false} BeyondWalk(links: map<Node, Node>, e: Node, walk: seq<Node>, k: nat)
    requires IsWalk(links, e, walk) && k > |walk|
    ensures Nth(links, e, k).None?
  {
    if k > |walk| + 1 {
      BeyondWalk(links, e, walk, k - 1);
    }
  }

  // The node k links away, if there are that many.
  lemma MetOnWalk(links: map<Node, Node>, elements: set<Node>, e: Node, walk: seq<Node>, k: nat)
    requires IsWalk(links, e, walk)
    ensures Meets(links, elements, e, k) <==> 1 <= k <= |walk| && walk[k - 1] in elements
    ensures Meets(links, elements, e, k) ==> Nth(links, e, k).value == walk[k - 1]
  {
    if k > |walk| {
      BeyondWalk(links, e, walk, k);
    }
  }

  // Expr.relative
  function Combinator(c: char): (t: Token)
    requires c in [' ', '>', '~', '+']
    ensures t.Relative?
  {
    match c
    case '>' => Relative(ParentNode, true)
    case ' ' => Relative(ParentNode, false)
    case '+' => Relative(PreviousSibling, true)
    case _ => Relative(PreviousSibling, false)
  }

  // The rest of the selector accepts some element along the link.
  ghost predicate SelectsSome(rest: seq<Token>, context: Node, page: Page, links: map<Node, Node>, e: Node)
    requires page.Valid()
  {
    exists k: nat ::
      Meets(links, page.elements, e, k) && Selects(rest, context, page, Nth(links, e, k).value)
  }

  // The rest of the selector accepts the nearest element along the link.
  ghost predicate SelectsNearest(rest: seq<Token>, context: Node, page: Page, links: map<Node, Node>, e: Node)
    requires page.Valid()
  {
    exists k: nat ::
      && Meets(links, page.elements, e, k) && Selects(rest, context, page, Nth(links, e, k).value)
      && forall j: nat :: 0 < j < k ==> !Meets(links, page.elements, e, j)
  }

  lemma SomeOnWalk(rest: seq<Token>, context: Node, page: Page, links: map<Node, Node>, e: Node, walk: seq<Node>)
    requires page.Valid() && IsWalk(links, e, walk)
    ensures SelectsSome(rest, context, page, links, e) <==>
              var met := Only(walk, page.elements);
              exists i :: 0 <= i < |met| && Selects(rest, context, page, met[i])
  {
    hide Selects, Nth, IsWalk, Meets, Only;
    var met := Only(walk, page.elements);
    if SelectsSome(rest, context, page, links, e) {
      var k: nat :| Meets(links, page.elements, e, k) && Selects(rest, context, page, Nth(links, e, k).value);
      MetOnWalk(links, page.elements, e, walk, k);
      OnlyMember(walk, page.elements, walk[k - 1]);
      var i :| 0 <= i < |met| && met[i] == walk[k - 1];
    }
    if j :| 0 <= j < |met| && Selects(rest, context, page, met[j]) {
      OnlyMember(walk, page.elements, met[j]);
      var i :| 0 <= i < |walk| && walk[i] == met[j];
      MetOnWalk(links, page.elements, e, walk, i + 1);
    }
  }

  lemma NearestOnWalk(rest: seq<Token>, context: Node, page: Page, links: map<Node, Node>, e: Node, walk: seq<Node>)
    requires page.Valid() && IsWalk(links, e, walk)
    ensures var met := Only(walk, page.elements);
            SelectsNearest(rest, context, page, links, e) <==> |met| > 0 && Selects(rest, context, page, met[0])
  {
    hide Selects, Nth, IsWalk, Meets, Only;
    var met := Only(walk, page.elements);
    OnlyFirst(walk, page.elements);
    forall k: nat
      ensures Meets(links, page.elements, e, k) <==> 1 <= k <= |walk| && walk[k - 1] in page.elements
      ensures Meets(links, page.elements, e, k) ==> Nth(links, e, k).value == walk[k - 1]
    {
      MetOnWalk(links, page.elements, e, walk, k);
    }
    if met != [] {
      var i :| 0 <= i < |walk| && walk[i] == met[0] && walk[i] in page.elements
        && forall j :: 0 <= j < i ==> walk[j] !in page.elements;
      assert Meets(links, page.elements, e, i + 1);
      assert forall j: nat :: 0 < j < i + 1 ==> !Meets(links, page.elements, e, j);
      if SelectsNearest(rest, context, page, links, e) {
        var k: nat :| Meets(links, page.elements, e, k) && Selects(rest, context, page, Nth(links, e, k).value)
          && forall j: nat :: 0 < j < k ==> !Meets(links, page.elements, e, j);
        assert k == i + 1;
      }
    }
  }

  // `A > B` asks the nearest element above, `A B` any element above, `A + B` the nearest element
  // before among the siblings, and `A ~ B` any before.
  lemma CombinatorMeaning(rest: seq<Token>, context: Node, page: Page, e: Node)
    requires page.Valid()
    ensures Selects(rest + [Combinator('>')], context, page, e) <==>
              SelectsNearest(rest, context, page, page.parent, e)
    ensures Selects(rest + [Combinator(' ')], context, page, e) <==>
              SelectsSome(rest, context, page, page.parent, e)
    ensures Selects(rest + [Combinator('+')], context, page, e) <==>
              SelectsNearest(rest, context, page, page.prev, e)
    ensures Selects(rest + [Combinator('~')], context, page, e) <==>
              SelectsSome(rest, context, page, page.prev, e)
  {
    hide SelectsNearest, SelectsSome, Nth, IsWalk, Only;
    var up := AlongParents(page, e);
    var back := AlongSiblings(page, e);
    NearestOnWalk(rest, context, page, page.parent, e, up);
    SomeOnWalk(rest, context, page, page.parent, e, up);
    NearestOnWalk(rest, context, page, page.prev, e, back);
    SomeOnWalk(rest, context, page, page.prev, e, back);
    forall c | c in [' ', '>', '~', '+']
      ensures (rest + [Combinator(c)])[..|rest|] == rest && (rest + [Combinator(c)])[|rest|] == Combinator(c)
    {
    }
  }

  // A filter asks the element itself; with nothing in front of it that is all. A combinator at
  // the very beginning is anchored at the context.
  lemma FilterMeaning(rest: seq<Token>, f: FilterId, context: Node, page: Page, e: Node)
    requires page.Valid()
    ensures Selects(rest + [Simple(f)], context, page, e) <==>
              page.passes(f, e) && (rest == [] || Selects(rest, context, page, e))
    ensures Selects([], context, page, e) <==> e == context
  {
    assert (rest + [Simple(f)])[..|rest|] == rest;
  }
}
