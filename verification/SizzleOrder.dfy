// Sizzle's fallback document order, for browsers without compareDocumentPosition, and the
// sorting of result lists that relies on it.
module SizzleOrder {
  import opened Wrappers

  datatype Tree = Tree(kids: seq<Tree>)

  // A node is named by its position: the number of its tree, then the child to take at each
  // level. Nodes of different trees are disconnected.
  type Node = seq<nat>
  type Forest = seq<Tree>

  predicate InTree(t: Tree, path: seq<nat>) {
    path == [] || (path[0] < |t.kids| && InTree(t.kids[path[0]], path[1..]))
  }

  predicate In(f: Forest, n: Node) {
    n != [] && n[0] < |f| && InTree(f[n[0]], n[1..])
  }

  function ParentNode(n: Node): Option<Node> {
    if |n| <= 1 then None else Some(n[..|n| - 1])
  }

  // Roots have no siblings.
  function NextSibling(f: Forest, n: Node): Option<Node> {
    if |n| <= 1 then None
    else
      var next := n[..|n| - 1] + [n[|n| - 1] + 1];
      if In(f, next) then Some(next) else None
  }

  // Nodes in the order in which their start tags appear.
  function Preorder(t: Tree): seq<seq<nat>> {
    [[]] + PreorderKids(t.kids, 0)
  }

  function PreorderKids(kids: seq<Tree>, first: nat): seq<seq<nat>> {
    if kids == [] then [] else Prefixed(first, Preorder(kids[0])) + PreorderKids(kids[1..], first + 1)
  }

  function Prefixed(k: nat, paths: seq<seq<nat>>): (r: seq<seq<nat>>)
    ensures |r| == |paths| && forall i :: 0 <= i < |r| ==> r[i] == [k] + paths[i]
  {
    seq(|paths|, i requires 0 <= i < |paths| => [k] + paths[i])
  }

  // Earlier in document order: an ancestor, or on an earlier branch.
  predicate Before(a: seq<nat>, b: seq<nat>) {
    if b == [] then false
    else if a == [] then true
    else a[0] < b[0] || (a[0] == b[0] && Before(a[1..], b[1..]))
  }

  ghost predicate Ascending(ps: seq<seq<nat>>) {
    forall i, j :: 0 <= i < j < |ps| ==> Before(ps[i], ps[j])
  }

  ghost predicate InKids(kids: seq<Tree>, first: nat, p: seq<nat>) {
    p != [] && first <= p[0] < first + |kids| && InTree(kids[p[0] - first], p[1..])
  }

  // Preorder lists every node of the tree, strictly in the order of Before.
  lemma {:induction false} PreorderSorted(t: Tree)
    ensures forall p :: p in Preorder(t) <==> InTree(t, p)
    ensures Ascending(Preorder(t))
    decreases t, 1
  {
    PreorderKidsSorted(t.kids, 0);
    var kids := PreorderKids(t.kids, 0);
    var ps := Preorder(t);
    assert ps == [[]] + kids;
    forall p
      ensures p in ps <==> InTree(t, p)
    {
      assert p in kids <==> InKids(t.kids, 0, p);
    }
    forall i, j | 0 <= i < j < |ps|
      ensures Before(ps[i], ps[j])
    {
      assert ps[j] == kids[j - 1] && kids[j - 1] in kids;
    }
  }

  lemma {:induction false} PreorderKidsSorted(kids: seq<Tree>, first: nat)
    ensures forall p :: p in PreorderKids(kids, first) <==> InKids(kids, first, p)
    ensures Ascending(PreorderKids(kids, first))
    decreases kids, 0
  {
    if kids != [] {
      PreorderSorted(kids[0]);
      PreorderKidsSorted(kids[1..], first + 1);
      var here, rest := Prefixed(first, Preorder(kids[0])), PreorderKids(kids[1..], first + 1);
      PrefixedSorted(first, Preorder(kids[0]));
      forall p
        ensures p in PreorderKids(kids, first) <==> InKids(kids, first, p)
      {
        assert p in PreorderKids(kids, first) <==> p in here || p in rest;
        assert p in here <==> p != [] && p[0] == first && p[1..] in Preorder(kids[0]);
        assert p in rest <==> InKids(kids[1..], first + 1, p);
      }
      forall p, q | p in here && q in rest
        ensures Before(p, q)
      {
        assert p[0] == first && InKids(kids[1..], first + 1, q);
      }
      AscendingConcat(here, rest);
    }
  }

  lemma PrefixedSorted(k: nat, ps: seq<seq<nat>>)
    requires Ascending(ps)
    ensures Ascending(Prefixed(k, ps))
    ensures forall p :: p in Prefixed(k, ps) <==> p != [] && p[0] == k && p[1..] in ps
  {
    var r := Prefixed(k, ps);
    forall p
      ensures p in r <==> p != [] && p[0] == k && p[1..] in ps
    {
      if p in r {
        var i :| 0 <= i < |r| && r[i] == p;
        assert p[1..] == ps[i];
      }
      if p != [] && p[0] == k && p[1..] in ps {
        var i :| 0 <= i < |ps| && ps[i] == p[1..];
        assert r[i] == p;
      }
    }
    forall i, j | 0 <= i < j < |r|
      ensures Before(r[i], r[j])
    {
      assert r[i][1..] == ps[i] && r[j][1..] == ps[j];
    }
  }

  lemma AscendingConcat(ps: seq<seq<nat>>, qs: seq<seq<nat>>)
    requires Ascending(ps) && Ascending(qs)
    requires forall p, q :: p in ps && q in qs ==> Before(p, q)
    ensures Ascending(ps + qs)
  {
    var r := ps + qs;
    forall i, j | 0 <= i < j < |r|
      ensures Before(r[i], r[j])
    {
      assert i < |ps| ==> r[i] in ps;
      assert j >= |ps| ==> r[j] in qs;
    }
  }

  function Sub(t: Tree, path: seq<nat>): Tree
    requires InTree(t, path)
  {
    if path == [] then t else Sub(t.kids[path[0]], path[1..])
  }

  lemma {:induction false} ChildInTree(t: Tree, path: seq<nat>, k: nat)
    ensures InTree(t, path + [k]) <==> InTree(t, path) && k < |Sub(t, path).kids|
  {
    if path != [] {
      assert (path + [k])[1..] == path[1..] + [k];
      if path[0] < |t.kids| {
        ChildInTree(t.kids[path[0]], path[1..], k);
      }
    } else {
      assert (path + [k])[1..] == [];
    }
  }

  // The parent of a node of the forest, and how many children that parent has.
  lemma ParentIn(f: Forest, n: Node) returns (width: nat)
    requires In(f, n) && |n| > 1
    ensures In(f, n[..|n| - 1])
    ensures n[|n| - 1] < width
    ensures forall k: nat :: In(f, n[..|n| - 1] + [k]) <==> k < width
  {
    var up := n[..|n| - 1];
    var t := f[n[0]];
    assert up[1..] + [n[|n| - 1]] == n[1..];
    ChildInTree(t, up[1..], n[|n| - 1]);
    width := |Sub(t, up[1..]).kids|;
    forall k: nat
      ensures In(f, up + [k]) <==> k < width
    {
      assert (up + [k])[1..] == up[1..] + [k];
      ChildInTree(t, up[1..], k);
    }
  }

  // Children of one parent.
  predicate Siblings(a: Node, b: Node) {
    |a| == |b| > 1 && a[..|a| - 1] == b[..|b| - 1]
  }

  method SiblingCheck(f: Forest, a: Node, b: Node, ret: int) returns (r: int)
    requires In(f, a) && In(f, b)
    ensures a == b ==> r == ret
    ensures a != b ==> r == if Siblings(a, b) && a[|a| - 1] < b[|b| - 1] then -1 else 1
  {
    if a == b {
      return ret;
    }
    ghost var width := 0;
    if |a| > 1 {
      width := ParentIn(f, a);
    }
    ghost var last := |a| - 1;
    assert Siblings(a, b) ==> b == a[..last] + [b[last]];
    var cur := NextSibling(f, a);
    while cur.Some?
      invariant cur.Some? ==>
                  && |a| > 1 && |cur.value| == |a| && cur.value[..last] == a[..last]
                  && a[last] < cur.value[last] < width
      invariant Siblings(a, b) && a[last] < b[last] ==> cur.Some? && cur.value[last] <= b[last]
      decreases if cur.Some? then width - cur.value[last] else -1
    {
      if cur.value == b {
        return -1;
      }
      cur := NextSibling(f, cur.value);
      assert cur.Some? ==> cur.value == a[..last] + [cur.value[last]];
      assert Siblings(a, b) ==> b == a[..last] + [b[last]];
    }
    r := 1;
  }

  // What the comparison comes to.
  function OrderOf(a: Node, b: Node): int
    requires a != [] && b != []
  {
    if a == b then 0
    else if a[0] == b[0] then if Before(a, b) then -1 else 1
    else if |a| == 1 && |b| > 1 then -1 else 1
  }

  // Where the paths first differ decides.
  lemma {:induction false} BeforeAt(a: seq<nat>, b: seq<nat>, i: nat)
    requires i <= |a| && i <= |b| && a[..i] == b[..i]
    ensures Before(a, b) <==> Before(a[i..], b[i..])
  {
    if i > 0 {
      assert a[0] == a[..i][0] == b[..i][0] == b[0];
      assert a[1..][..i - 1] == a[..i][1..] == b[..i][1..] == b[1..][..i - 1];
      BeforeAt(a[1..], b[1..], i - 1);
      assert a[1..][i - 1..] == a[i..] && b[1..][i - 1..] == b[i..];
    }
  }

  lemma FirstDifference(a: seq<nat>, b: seq<nat>, i: nat)
    requires i < |a| && i < |b| && a[..i] == b[..i] && a[i] != b[i]
    ensures Before(a, b) <==> a[i] < b[i]
    ensures i > 0 ==> a[0] == b[0]
  {
    BeforeAt(a, b, i);
    assert i > 0 ==> a[0] == a[..i][0] == b[..i][0] == b[0];
  }

  lemma AncestorFirst(a: seq<nat>, b: seq<nat>)
    requires a != [] && |a| < |b| && b[..|a|] == a
    ensures Before(a, b) && !Before(b, a) && a[0] == b[0]
  {
    assert a[..|a|] == a;
    BeforeAt(a, b, |a|);
    BeforeAt(b, a, |a|);
    assert b[0] == b[..|a|][0];
  }

  method Ancestors(n: Node) returns (ap: seq<Node>)
    requires n != []
    ensures |ap| == |n| - 1
    ensures forall i :: 0 <= i < |ap| ==> ap[i] == n[..i + 1]
  {
    ap := [];
    var cur := ParentNode(n);
    ghost var k := |n| - 1;
    while cur.Some?
      invariant 0 <= k < |n| && |ap| == |n| - 1 - k
      invariant cur == if k == 0 then None else Some(n[..k])
      invariant forall i :: 0 <= i < |ap| ==> ap[i] == n[..k + 1 + i]
      decreases k
    {
      ap := [cur.value] + ap;
      cur := ParentNode(cur.value);
      k := k - 1;
      assert k > 0 ==> n[..k + 1][..k] == n[..k];
    }
  }

  // The comparator: hasDuplicate is set when it meets the same node twice.
  method SortOrder(f: Forest, a: Node, b: Node) returns (r: int, hasDuplicate: bool)
    requires In(f, a) && In(f, b)
    ensures r == OrderOf(a, b)
    ensures hasDuplicate <==> a == b
  {
    hide Before, InTree;
    hasDuplicate := false;
    if a == b {
      return 0, true;
    }
    var aup, bup := ParentNode(a), ParentNode(b);
    if aup == bup {
      if |a| > 1 {
        assert |a[..|a| - 1]| == |b[..|b| - 1]| && a[..|a| - 1] == b[..|b| - 1];
        assert a == a[..|a| - 1] + [a[|a| - 1]] && b == b[..|b| - 1] + [b[|b| - 1]];
        FirstDifference(a, b, |a| - 1);
      }
      r := SiblingCheck(f, a, b, 0);
      return;
    } else if aup.None? {
      if a[0] == b[0] {
        assert b[..1] == a;
        AncestorFirst(a, b);
      }
      return -1, false;
    } else if bup.None? {
      if a[0] == b[0] {
        assert a[..1] == b;
        AncestorFirst(b, a);
      }
      return 1, false;
    }
    var ap := Ancestors(a);
    var bp := Ancestors(b);
    AncestorsIn(f, a);
    AncestorsIn(f, b);
    var al, bl := |ap|, |bp|;
    var i := 0;
    while i < al && i < bl
      invariant 0 <= i <= al && i <= bl && a[..i] == b[..i]
    {
      assert a[..i + 1] == a[..i] + [a[i]] && b[..i + 1] == b[..i] + [b[i]];
      if ap[i] != bp[i] {
        FirstDifference(a, b, i);
        assert ap[i][..i] == a[..i] && bp[i][..i] == b[..i];
        r := SiblingCheck(f, ap[i], bp[i], 0);
        return;
      }
      i := i + 1;
    }
    assert i == al && i == bl ==> aup == bup;
    assert a[..i + 1] == a[..i] + [a[i]] && b[..i + 1] == b[..i] + [b[i]];
    if a[i] != b[i] {
      FirstDifference(a, b, i);
    } else if i == al {
      AncestorFirst(a, b);
    } else {
      AncestorFirst(b, a);
    }
    assert a[..i + 1][..i] == a[..i] && b[..i + 1][..i] == b[..i];
    assert a[0] == a[..i][0] == b[..i][0] == b[0];
    if i == al {
      assert a[..i + 1] == a;
      r := SiblingCheck(f, a, bp[i], -1);
    } else {
      assert b[..i + 1] == b;
      r := SiblingCheck(f, ap[i], b, 1);
    }
  }

  lemma {:induction false} AncestorsIn(f: Forest, n: Node)
    requires In(f, n)
    ensures forall k :: 0 < k <= |n| ==> In(f, n[..k])
    decreases |n|
  {
    assert n[..|n|] == n;
    if |n| > 1 {
      var _ := ParentIn(f, n);
      AncestorsIn(f, n[..|n| - 1]);
      assert forall k :: 0 < k < |n| ==> n[..|n| - 1][..k] == n[..k];
    }
  }

  ghost function IndexOf(n: Node, f: Forest): (i: nat)
    requires In(f, n)
    ensures i < |Preorder(f[n[0]])| && Preorder(f[n[0]])[i] == n[1..]
  {
    PreorderSorted(f[n[0]]);
    var i :| 0 <= i < |Preorder(f[n[0]])| && Preorder(f[n[0]])[i] == n[1..];
    i
  }

  lemma {:induction false} BeforeAsymmetric(a: seq<nat>, b: seq<nat>)
    requires Before(a, b)
    ensures !Before(b, a) && a != b
  {
    if a != [] && a[0] == b[0] {
      BeforeAsymmetric(a[1..], b[1..]);
    }
  }

  // Within one document the comparison is exactly the order of positions in preorder.
  lemma OrderIsPreorder(f: Forest, a: Node, b: Node)
    requires In(f, a) && In(f, b) && a[0] == b[0]
    ensures OrderOf(a, b) == 0 <==> IndexOf(a, f) == IndexOf(b, f)
    ensures OrderOf(a, b) < 0 <==> IndexOf(a, f) < IndexOf(b, f)
    ensures OrderOf(a, b) > 0 <==> IndexOf(a, f) > IndexOf(b, f)
  {
    PreorderSorted(f[a[0]]);
    var ps := Preorder(f[a[0]]);
    var i, j := IndexOf(a, f), IndexOf(b, f);
    assert a == [a[0]] + ps[i] && b == [b[0]] + ps[j];
    if i < j {
      assert Before(ps[i], ps[j]);
      BeforeAsymmetric(ps[i], ps[j]);
    } else if j < i {
      assert Before(ps[j], ps[i]);
      BeforeAsymmetric(ps[j], ps[i]);
    }
  }

  // Swapping the arguments swaps the sign, unless two nodes of different documents are both
  // roots or both not: then each is said to come after the other.
  lemma AntisymmetricExactly(f: Forest, a: Node, b: Node)
    requires In(f, a) && In(f, b)
    ensures OrderOf(a, b) == -OrderOf(b, a) <==> a[0] == b[0] || (|a| == 1) != (|b| == 1)
  {
    if a[0] == b[0] {
      OrderIsPreorder(f, a, b);
      OrderIsPreorder(f, b, a);
    }
  }

  ghost predicate SameDocument(f: Forest, nodes: seq<Node>) {
    && (forall i :: 0 <= i < |nodes| ==> In(f, nodes[i]))
    && (forall i, j :: 0 <= i < |nodes| && 0 <= j < |nodes| ==> nodes[i][0] == nodes[j][0])
  }

  // What Array.prototype.sort promises for a comparator.
  ghost predicate SortedBy(nodes: seq<Node>)
    requires forall i :: 0 <= i < |nodes| ==> nodes[i] != []
  {
    forall i, j :: 0 <= i < j < |nodes| ==> OrderOf(nodes[i], nodes[j]) <= 0
  }

  // In document order, and strictly so among the first i.
  ghost predicate Deduplicated(f: Forest, r: seq<Node>, i: int)
    requires SameDocument(f, r)
  {
    && (forall j, k :: 0 <= j < k < |r| ==> IndexOf(r[j], f) <= IndexOf(r[k], f))
    && (forall j, k :: 0 <= j < k < |r| && k < i ==> IndexOf(r[j], f) < IndexOf(r[k], f))
  }

  lemma SortedIndices(f: Forest, r: seq<Node>)
    requires SameDocument(f, r) && SortedBy(r)
    ensures Deduplicated(f, r, 1)
    ensures (forall i, j :: 0 <= i < j < |r| ==> r[i] != r[j]) ==> Deduplicated(f, r, |r|)
  {
    forall j, k | 0 <= j < k < |r|
      ensures IndexOf(r[j], f) <= IndexOf(r[k], f)
      ensures r[j] != r[k] ==> IndexOf(r[j], f) < IndexOf(r[k], f)
    {
      OrderIsPreorder(f, r[j], r[k]);
    }
  }

  lemma KeepStep(f: Forest, r: seq<Node>, i: nat)
    requires 0 < i < |r| && SameDocument(f, r) && Deduplicated(f, r, i) && r[i] != r[i - 1]
    ensures Deduplicated(f, r, i + 1)
  {
    OrderIsPreorder(f, r[i - 1], r[i]);
    forall j, k | 0 <= j < k < |r| && k < i + 1
      ensures IndexOf(r[j], f) < IndexOf(r[k], f)
    {
      assert k == i ==> j == i - 1 || IndexOf(r[j], f) < IndexOf(r[i - 1], f);
    }
  }

  lemma SpliceStep(f: Forest, r: seq<Node>, i: nat)
    requires 0 < i < |r| && SameDocument(f, r) && Deduplicated(f, r, i) && r[i] == r[i - 1]
    ensures var s := r[..i] + r[i + 1..];
            && SameDocument(f, s) && Deduplicated(f, s, i)
            && forall n :: n in s <==> n in r
  {
    hide In, IndexOf;
    var s := r[..i] + r[i + 1..];
    assert forall k :: 0 <= k < |s| ==> s[k] == r[if k < i then k else k + 1];
    forall n | n in r
      ensures n in s
    {
      var k :| 0 <= k < |r| && r[k] == n;
      assert n == s[if k < i then k else k - 1];
    }
  }

  // `sorted` is what the engine's sort made of the results, and `hasDuplicate` what the
  // comparator left behind: true whenever two equal nodes were there to be compared, or when
  // the engine is known not to compare them.
  method UniqueSort(f: Forest, results: seq<Node>, sorted: seq<Node>, hasDuplicate: bool) returns (r: seq<Node>)
    requires SameDocument(f, results) && multiset(sorted) == multiset(results)
    requires SameDocument(f, sorted) && SortedBy(sorted)
    requires hasDuplicate || forall i, j :: 0 <= i < j < |sorted| ==> sorted[i] != sorted[j]
    ensures forall n :: n in r <==> n in results
    ensures SameDocument(f, r)
    ensures forall i, j :: 0 <= i < j < |r| ==> IndexOf(r[i], f) < IndexOf(r[j], f)
  {
    assert forall n :: n in sorted <==> n in multiset(sorted);
    assert forall n :: n in results <==> n in multiset(results);
    SortedIndices(f, sorted);
    r := sorted;
    if hasDuplicate {
      var i := 1;
      while i < |r|
        invariant 1 <= i && SameDocument(f, r) && Deduplicated(f, r, i)
        invariant forall n :: n in r <==> n in sorted
        decreases |r| - i
      {
        if r[i] == r[i - 1] {
          SpliceStep(f, r, i);
          r := r[..i] + r[i + 1..];
        } else {
          KeepStep(f, r, i);
          i := i + 1;
        }
      }
    }
  }
}
