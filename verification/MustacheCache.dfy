// What a writer's cache of compiled templates changes: nothing, as long as no template is
// compiled with two pairs of tags.
module MustacheCache {
  import opened Wrappers
  import opened MustacheScanner
  import opened MustacheLexer
  import opened MustacheStrip
  import opened MustacheNest
  import opened MustacheContext
  import opened MustacheTemplate
  import opened MustacheRender

  // The calls a writer takes. Call is a function handed out earlier, with the tree it was
  // compiled to.
  datatype Op =
    | Compile(template: string, tags: seq<string>)
    | CompilePartial(name: string, template: string, tags: seq<string>)
    | Call(tree: seq<Node>, view: Value, partials: seq<(string, string)>, depth: nat)
    | Render(template: string, view: Value, partials: seq<(string, string)>, depth: nat)
    | ClearCache

  datatype Outcome = Made(r: Result<seq<Node>>) | Shown(s: Result<string>) | Cleared

  function Do(c: Caches, op: Op): (Caches, Outcome) {
    match op
    case Compile(template, tags) =>
      var (after, r) := Compiled(c, template, tags); (after, Made(r))
    case CompilePartial(name, template, tags) =>
      var (after, r) := PartialCompiled(c, name, template, tags); (after, Made(r))
    case Call(tree, view, partials, depth) =>
      var (after, r) := Called(c, tree, view, partials, depth); (after, Shown(r))
    case Render(template, view, partials, depth) =>
      var (after, r) := Rendered(c, template, view, partials, depth); (after, Shown(r))
    case ClearCache => (Caches(map[], map[]), Cleared)
  }

  // The outcomes of a run of calls, one after the other.
  function Outcomes(c: Caches, ops: seq<Op>): seq<Outcome>
    decreases |ops|
  {
    if ops == [] then [] else [Do(c, ops[0]).1] + Outcomes(Do(c, ops[0]).0, ops[1..])
  }

  function CachesAfter(c: Caches, ops: seq<Op>): Caches
    decreases |ops|
  {
    if ops == [] then c else CachesAfter(Do(c, ops[0]).0, ops[1..])
  }

  // The same calls without any cache: every template is parsed anew, with the tags of this call.
  function PlainPartials(trees: Partials, partials: seq<(string, string)>): (Partials, Option<string>)
    decreases |partials|
  {
    if partials == [] then (trees, None)
    else
      match Parsed(partials[0].1, TAGS)
      case Err(e) => (trees, Some(e))
      case Ok(tree) => PlainPartials(trees[partials[0].0 := tree], partials[1..])
  }

  function PlainCall(trees: Partials, tree: seq<Node>, view: Value, partials: seq<(string, string)>, depth: nat)
    : (Partials, Result<string>)
  {
    var (after, e) := PlainPartials(trees, partials);
    (after, if e.Some? then Err(e.value) else Interp(tree, [view], after, depth))
  }

  function PlainDo(trees: Partials, op: Op): (Partials, Outcome) {
    match op
    case Compile(template, tags) => (trees, Made(Parsed(template, tags)))
    case CompilePartial(name, template, tags) =>
      var r := Parsed(template, tags);
      (if r.Ok? then trees[name := r.value] else trees, Made(r))
    case Call(tree, view, partials, depth) =>
      var (after, r) := PlainCall(trees, tree, view, partials, depth); (after, Shown(r))
    case Render(template, view, partials, depth) =>
      (match Parsed(template, TAGS)
       case Err(e) => (trees, Shown(Err(e)))
       case Ok(tree) => var (after, r) := PlainCall(trees, tree, view, partials, depth); (after, Shown(r)))
    case ClearCache => (map[], Cleared)
  }

  function PlainOutcomes(trees: Partials, ops: seq<Op>): seq<Outcome>
    decreases |ops|
  {
    if ops == [] then [] else [PlainDo(trees, ops[0]).1] + PlainOutcomes(PlainDo(trees, ops[0]).0, ops[1..])
  }

  function PlainAfter(trees: Partials, ops: seq<Op>): Partials
    decreases |ops|
  {
    if ops == [] then trees else PlainAfter(PlainDo(trees, ops[0]).0, ops[1..])
  }

  // Each template has its own tags, and the call keeps to them.
  ghost predicate KeepsTo(op: Op, tagsFor: string -> seq<string>) {
    match op
    case Compile(template, tags) => tags == tagsFor(template)
    case CompilePartial(_, template, tags) => tags == tagsFor(template)
    case Call(_, _, partials, _) => PartialsKeepTo(partials, tagsFor)
    case Render(template, _, partials, _) => tagsFor(template) == TAGS && PartialsKeepTo(partials, tagsFor)
    case ClearCache => true
  }

  ghost predicate PartialsKeepTo(partials: seq<(string, string)>, tagsFor: string -> seq<string>) {
    forall i :: 0 <= i < |partials| ==> tagsFor(partials[i].1) == TAGS
  }

  ghost predicate CachedWith(origin: map<string, seq<string>>, tagsFor: string -> seq<string>) {
    forall t <- origin :: origin[t] == tagsFor(t)
  }

  lemma {:induction false} PartialsInvisible(c: Caches, partials: seq<(string, string)>, tagsFor: string -> seq<string>)
    requires CachedWith(c.origin, tagsFor) && PartialsKeepTo(partials, tagsFor)
    ensures AddPartials(c, partials).0.trees == PlainPartials(c.trees, partials).0
    ensures AddPartials(c, partials).1 == PlainPartials(c.trees, partials).1
    ensures CachedWith(AddPartials(c, partials).0.origin, tagsFor)
    decreases |partials|
  {
    hide Parsed;
    if partials != [] {
      assert tagsFor(partials[0].1) == TAGS;
      var (after, r) := PartialCompiled(c, partials[0].0, partials[0].1, TAGS);
      if r.Ok? {
        PartialsInvisible(after, partials[1..], tagsFor);
      }
    }
  }

  lemma OneInvisible(c: Caches, op: Op, tagsFor: string -> seq<string>)
    requires CachedWith(c.origin, tagsFor) && KeepsTo(op, tagsFor)
    ensures Do(c, op).1 == PlainDo(c.trees, op).1
    ensures Do(c, op).0.trees == PlainDo(c.trees, op).0
    ensures CachedWith(Do(c, op).0.origin, tagsFor)
  {
    hide Parsed, Interp, AddPartials, PlainPartials;
    match op
    case Compile(_, _) =>
    case CompilePartial(_, _, _) =>
    case Call(_, _, partials, _) =>
      PartialsInvisible(c, partials, tagsFor);
    case Render(template, _, partials, _) =>
      PartialsInvisible(Compiled(c, template, TAGS).0, partials, tagsFor);
    case ClearCache =>
  }

  // A run in which every template keeps to its own tags goes as it would without a cache.
  lemma {:induction false} CacheInvisible(c: Caches, ops: seq<Op>, tagsFor: string -> seq<string>)
    requires CachedWith(c.origin, tagsFor)
    requires forall i :: 0 <= i < |ops| ==> KeepsTo(ops[i], tagsFor)
    ensures Outcomes(c, ops) == PlainOutcomes(c.trees, ops)
    ensures CachesAfter(c, ops).trees == PlainAfter(c.trees, ops)
    ensures CachedWith(CachesAfter(c, ops).origin, tagsFor)
    decreases |ops|
  {
    hide Do, PlainDo, CachedWith, KeepsTo;
    if ops != [] {
      OneInvisible(c, ops[0], tagsFor);
      CacheInvisible(Do(c, ops[0]).0, ops[1..], tagsFor);
    }
  }

  // In particular from a new writer, when nobody asks for tags other than the default ones.
  lemma DefaultTags(ops: seq<Op>)
    requires forall i :: 0 <= i < |ops| && ops[i].Compile? ==> ops[i].tags == TAGS
    requires forall i :: 0 <= i < |ops| && ops[i].CompilePartial? ==> ops[i].tags == TAGS
    ensures Outcomes(Caches(map[], map[]), ops) == PlainOutcomes(map[], ops)
  {
    hide Outcomes, PlainOutcomes, CachesAfter, PlainAfter, Parsed;
    CacheInvisible(Caches(map[], map[]), ops, (_: string) => TAGS);
  }

  predicate Delimiters(tags: seq<string>) {
    |tags| == 2 && tags[0] != "" && tags[1] != ""
  }

  ghost predicate Within(part: string, s: string) {
    exists i :: 0 <= i <= |s| && part <= s[i..]
  }

  lemma WithinLength(part: string, s: string)
    requires Within(part, s)
    ensures |part| < |s| || part == s
  {
    var i :| 0 <= i <= |s| && part <= s[i..];
    assert s[0..] == s;
  }

  lemma NotBothWithin(a: string, b: string)
    requires a != b
    ensures !Within(a, b) || !Within(b, a)
  {
    if Within(a, b) {
      WithinLength(a, b);
    }
    if Within(b, a) {
      WithinLength(b, a);
    }
  }

  // The first round of the lexer, if the template begins with a tag.
  lemma LexTag(s: string, tags: seq<string>)
    requires Delimiters(tags) && s != ""
    requires Search(OpenTag(tags[0]), s) == Some(0) && TakeLen(OpenTag(tags[0]), s) > 0
    ensures Lex(s, 0, tags) ==
              match TagAt(s, 0, tags[0], tags[1])
              case Err(e) => Err(e)
              case Ok((token, rest)) => After([token], Lex(rest, token.end, NextTags(token, tags)))
  {
    hide Lex, TagAt, MatchLen, TakeLen, Search, NextTags;
    LexRound(s, 0, tags);
    assert SkipTo(OpenTag(tags[0]), s) == s;
    assert Skipped(OpenTag(tags[0]), s) == "";
    assert CharTokens("", 0) == [];
    assert forall token: Token :: [] + [token] == [token];
  }

  lemma OpenHere(open: string, s: string)
    requires open != "" && open <= s
    ensures Search(OpenTag(open), s) == Some(0) && TakeLen(OpenTag(open), s) >= |open|
    ensures Past(OpenTag(open), s) == s[|open|..][SpaceRun(s[|open|..])..]
  {
    hide SpaceRun;
  }

  // A template that is nothing but an opening delimiter is an unclosed tag.
  lemma LoneOpening(tags: seq<string>)
    requires Delimiters(tags)
    ensures Parsed(tags[0], tags).Err?
  {
    hide Lex, TagAt, MatchLen, TakeLen, Search, Run, Squash, Strip, SpaceRun, Past;
    OpenHere(tags[0], tags[0]);
    LexTag(tags[0], tags);
    LoneTagFails(tags[0], tags[1]);
  }

  lemma LoneTagFails(open: string, close: string)
    requires open != "" && close != "" && TakeLen(OpenTag(open), open) > 0
    ensures TagAt(open, 0, open, close).Err?
  {
    hide MatchLen, Inside, SpaceRun, Search, Taken;
    OpenHere(open, open);
    assert Past(OpenTag(open), open) == "";
    assert Opening(open, open).1 == "";
    TagIs(open, open, close);
  }

  // A letter that neither closing delimiter begins with.
  function Letter(a: char, b: char): (c: char)
    ensures c != a && c != b && !IsSpace(c) && !IsTagType(c)
  {
    if a != 'x' && b != 'x' then 'x' else if a != 'y' && b != 'y' then 'y' else 'z'
  }

  // The tag at the beginning of s, by the rest of s that its kind and its opening leave.
  lemma TagIs(s: string, open: string, close: string)
    requires TakeLen(OpenTag(open), s) > 0
    ensures
      var (kind, inside) := Opening(s, open);
      var (value, rest) := Inside(kind, inside, close);
      && |rest| <= |inside|
      && (TakeLen(CloseTag(close), rest) == 0 ==> TagAt(s, 0, open, close).Err?)
      && (TakeLen(CloseTag(close), rest) > 0 && kind == Name ==>
            TagAt(s, 0, open, close) ==
              Ok((Token(Name, value, 0, |s| - |Past(CloseTag(close), rest)|), Past(CloseTag(close), rest))))
  {
    hide TakeLen, Opening, Inside, Past;
  }

  // A single tag with a one-letter name.
  function OneTag(open: string, x: char, close: string): (s: string)
    ensures open <= s && s[|open|..] == [x] + close
  {
    open + [x] + close
  }

  lemma OneTagOpening(open: string, x: char, close: string)
    requires open != "" && !IsSpace(x) && !IsTagType(x)
    ensures Search(OpenTag(open), OneTag(open, x, close)) == Some(0)
    ensures TakeLen(OpenTag(open), OneTag(open, x, close)) > 0
    ensures Opening(OneTag(open, x, close), open) == (Name, [x] + close)
  {
    hide Search, IsSpace, IsTagType;
    var s := OneTag(open, x, close);
    var inside := [x] + close;
    OpenHere(open, s);
    assert SpaceRun(inside) == 0;
    assert Past(OpenTag(open), s) == inside;
    assert TakeLen(TagType, inside) == 0 && TakeLen(White, inside) == 0;
    assert Taken(TagType, inside) == "" && Past(TagType, inside) == inside && Past(White, inside) == inside;
  }

  lemma {:induction false} OnlyFit(lit: string, k: nat)
    requires k <= |lit|
    ensures LastFit(lit, lit, k) == Some(0)
  {
    if k > 0 {
      OnlyFit(lit, k - 1);
    } else {
      assert lit[0..] == lit;
    }
  }

  // The closing delimiter is found behind the letter, and is all that is left.
  lemma CloseThere(x: char, close: string)
    requires close != "" && !IsSpace(x) && x != close[0]
    ensures SkipTo(CloseTag(close), [x] + close) == close
    ensures TakeLen(CloseTag(close), close) > 0 && Past(CloseTag(close), close) == ""
  {
    hide IsSpace;
    var p := CloseTag(close);
    var inside := [x] + close;
    OnlyFit(close, SpaceRun(close));
    assert MatchLen(p, close) == Some(|close|);
    assert SpaceRun(inside) == 0 && inside[0..] == inside;
    assert MatchLen(p, inside).None?;
    assert inside[1..] == close && inside[0..] == inside;
    assert Search(p, inside).Some? && Search(p, inside).value == 1;
  }

  lemma ClosedRight(open: string, x: char, close: string)
    requires open != "" && close != "" && !IsSpace(x) && !IsTagType(x) && x != close[0]
    ensures Parsed(OneTag(open, x, close), [open, close]).Ok?
  {
    hide IsSpace, IsTagType, TakeLen, Search, MatchLen, Opening, TagAt, SkipTo, Past, Run, Strip, Squash;
    var s := OneTag(open, x, close);
    OneTagOpening(open, x, close);
    CloseThere(x, close);
    TagIs(s, open, close);
    LexTag(s, [open, close]);
    var token := TagAt(s, 0, open, close).value.0;
    LexEnd(token.end, [open, close]);
    LoneTag(token);
    assert [token] + [] == [token];
  }

  lemma LoneTag(token: Token)
    requires token.kind == Name
    ensures Run(State([], []), Squash(Strip([token]))).Ok?
  {
    var one := [token];
    assert [] + one == one && one[0] == token && one[1..] == [];
    assert !IsNewline(token);
    assert StripFrom([], one) == StripFrom(one, []) == one;
    assert SquashOnto([], one) == SquashOnto(one, []) == one;
  }

  lemma CloseMissing(x: char, close: string, other: string)
    requires other != "" && !IsSpace(x) && x != other[0] && !Within(other, close)
    ensures SkipTo(CloseTag(other), [x] + close) == ""
  {
    hide IsSpace;
    var p := CloseTag(other);
    var inside := [x] + close;
    forall j | 0 <= j <= |inside|
      ensures !(other <= inside[j..])
    {
      if j > 0 {
        assert inside[j..] == close[j - 1..];
      }
    }
    forall i | 0 <= i <= |inside|
      ensures MatchLen(p, inside[i..]).None?
    {
      assert forall k :: 0 <= k <= |inside| - i ==> inside[i..][k..] == inside[i + k..];
    }
    assert Search(p, inside).None?;
  }

  lemma ClosedWrong(open: string, x: char, close: string, other: string)
    requires open != "" && other != "" && !IsSpace(x) && !IsTagType(x) && x != other[0]
    requires !Within(other, close)
    ensures Parsed(OneTag(open, x, close), [open, other]).Err?
  {
    hide IsSpace, IsTagType, TakeLen, Search, MatchLen, Opening, TagAt, SkipTo, Past, Within, Run, Strip, Squash;
    var s := OneTag(open, x, close);
    OneTagOpening(open, x, close);
    CloseMissing(x, close, other);
    TagIs(s, open, other);
    LexTag(s, [open, other]);
  }

  // Two pairs of delimiters never compile all templates alike: one of the two, used first,
  // makes a function of a template that the other one refuses.
  lemma TagsMatter(a: seq<string>, b: seq<string>) returns (first: seq<string>, second: seq<string>, template: string)
    requires Delimiters(a) && Delimiters(b) && a != b
    ensures (first == a && second == b) || (first == b && second == a)
    ensures Parsed(template, first).Ok? && Parsed(template, second).Err?
  {
    hide Parsed;
    if a[0] != b[0] {
      NotBothWithin(a[0], b[0]);
      first, second := b, a;
      if Within(b[0], a[0]) {
        first, second := a, b;
      }
      template := second[0];
      LoneOpening(second);
      PlainTemplate(template, first);
    } else {
      NotBothWithin(a[1], b[1]);
      first, second := a, b;
      if Within(b[1], a[1]) {
        first, second := b, a;
      }
      var x := Letter(a[1][0], b[1][0]);
      template := OneTag(a[0], x, first[1]);
      assert [a[0], first[1]] == first && [a[0], second[1]] == second;
      ClosedRight(a[0], x, first[1]);
      ClosedWrong(a[0], x, first[1], second[1]);
    }
  }

  // Compiling a template with one pair and then with the other.
  function BothWays(template: string, a: seq<string>, b: seq<string>): seq<Op> {
    [Compile(template, a), Compile(template, b)]
  }

  // The cache shows as soon as one template may be compiled with two pairs of delimiters.
  lemma SwappableExactly(a: seq<string>, b: seq<string>)
    requires Delimiters(a) && Delimiters(b)
    ensures (forall t ::
               && Outcomes(Caches(map[], map[]), BothWays(t, a, b)) == PlainOutcomes(map[], BothWays(t, a, b))
               && Outcomes(Caches(map[], map[]), BothWays(t, b, a)) == PlainOutcomes(map[], BothWays(t, b, a)))
            <==> a == b
  {
    hide Parsed;
    if a == b {
      forall t
        ensures Outcomes(Caches(map[], map[]), BothWays(t, a, b)) == PlainOutcomes(map[], BothWays(t, a, b))
      {
        CacheInvisible(Caches(map[], map[]), BothWays(t, a, b), (_: string) => a);
      }
    } else {
      var first, second, t := TagsMatter(a, b);
      TwoCompiles(t, first, second);
    }
  }

  // The second of two pairs finds the function the first one made.
  lemma TwoCompiles(t: string, first: seq<string>, second: seq<string>)
    ensures Parsed(t, first).Ok? ==>
              Outcomes(Caches(map[], map[]), BothWays(t, first, second)) ==
                [Made(Parsed(t, first)), Made(Parsed(t, first))]
    ensures PlainOutcomes(map[], BothWays(t, first, second)) == [Made(Parsed(t, first)), Made(Parsed(t, second))]
  {
    hide Parsed;
    var ops := BothWays(t, first, second);
    assert ops[1..] == [Compile(t, second)] && ops[1..][1..] == [];
    if Parsed(t, first).Ok? {
      var c := Do(Caches(map[], map[]), ops[0]).0;
      assert c.origin == map[t := first];
      assert Outcomes(c, ops[1..]) == [Made(Parsed(t, first))];
    }
    assert PlainOutcomes(map[], ops[1..]) == [Made(Parsed(t, second))];
  }

  // Which partials parse does not depend on the cache.
  lemma {:induction false} PartialsParse(trees: Partials, partials: seq<(string, string)>)
    ensures PlainPartials(trees, partials).1.None? <==>
              forall i :: 0 <= i < |partials| ==> Parsed(partials[i].1, TAGS).Ok?
    decreases |partials|
  {
    hide Parsed;
    if partials != [] {
      match Parsed(partials[0].1, TAGS)
      case Err(_) =>
      case Ok(tree) =>
        PartialsParse(trees[partials[0].0 := tree], partials[1..]);
        assert forall i :: 0 < i < |partials| ==> partials[i] == partials[1..][i - 1];
    }
  }

  // A template without an opening delimiter renders to itself, whatever the view; only a
  // partial that does not parse can keep it from doing so.
  lemma PlainRenders(c: Caches, template: string, view: Value, partials: seq<(string, string)>, depth: nat)
    requires CachedWith(c.origin, (_: string) => TAGS)
    requires forall i :: 0 <= i <= |template| ==> !(TAGS[0] <= template[i..])
    ensures (forall i :: 0 <= i < |partials| ==> Parsed(partials[i].1, TAGS).Ok?) ==>
              Rendered(c, template, view, partials, depth).1 == Ok(template)
    ensures !(forall i :: 0 <= i < |partials| ==> Parsed(partials[i].1, TAGS).Ok?) ==>
              Rendered(c, template, view, partials, depth).1.Err?
  {
    hide Parsed, AddPartials, PlainPartials;
    PlainTree(template, c.trees, view, depth);
    OneInvisible(c, Render(template, view, partials, depth), (_: string) => TAGS);
    PartialsParse(c.trees, partials);
    PlainTree(template, PlainPartials(c.trees, partials).0, view, depth);
  }

  lemma PlainTree(template: string, trees: Partials, view: Value, depth: nat)
    requires forall i :: 0 <= i <= |template| ==> !(TAGS[0] <= template[i..])
    ensures Parsed(template, TAGS).Ok?
    ensures Interp(Parsed(template, TAGS).value, [view], trees, depth) == Ok(template)
  {
    if template == "" {
      assert Parsed("", TAGS) == Ok([]);
    } else {
      PlainTemplate(template, TAGS);
      LeafText(Token(Text, template, 0, |template|), trees, view, depth);
    }
  }

  lemma LeafText(token: Token, trees: Partials, view: Value, depth: nat)
    requires token.kind == Text
    ensures Interp([Leaf(token)], [view], trees, depth) == Ok(token.value)
  {
    assert [Leaf(token)][1..] == [];
    assert token.value + "" == token.value;
  }
}
