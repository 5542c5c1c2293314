// Rendering: compiled token trees against a direct interpreter of the same trees.
module MustacheRender {
  import opened Wrappers
  import opened MustacheNest
  import opened MustacheContext
  import opened MustacheTemplate
  import MustacheEscape

  type Partials = map<string, seq<Node>>

  const OVERFLOW: string := "RangeError: too much recursion"

  function Children(n: Node): seq<Node> {
    match n case Leaf(_) => [] case Branch(_, children) => children
  }

  function Size(nodes: seq<Node>): nat {
    if nodes == [] then 0 else NodeSize(nodes[0]) + Size(nodes[1..])
  }

  function NodeSize(n: Node): nat {
    match n case Leaf(_) => 1 case Branch(_, children) => 1 + Size(children)
  }

  lemma {:induction false} SizeAt(nodes: seq<Node>, i: nat)
    requires i < |nodes|
    ensures NodeSize(nodes[i]) <= Size(nodes) && Size(Children(nodes[i])) < NodeSize(nodes[i])
  {
    if i > 0 {
      SizeAt(nodes[1..], i - 1);
    }
  }

  // The text of a name: nothing, if there is no value.
  function NameText(v: Value): string {
    if NullLike(v) then "" else ToText(v)
  }

  function Then(a: Result<string>, b: Result<string>): Result<string> {
    match a
    case Err(e) => Err(e)
    case Ok(s) => match b case Err(e) => Err(e) case Ok(t) => Ok(s + t)
  }

  // What a token tree means in a stack of views (innermost first). `depth` partials may be
  // open inside one another.
  function Interp(tokens: seq<Node>, views: seq<Value>, partials: Partials, depth: nat): Result<string>
    requires views != []
    decreases depth, Size(tokens), 0, |tokens|
  {
    if tokens == [] then Ok("")
    else Then(InterpOne(tokens[0], views, partials, depth), Interp(tokens[1..], views, partials, depth))
  }

  function InterpOne(n: Node, views: seq<Value>, partials: Partials, depth: nat): Result<string>
    requires views != []
    decreases depth, NodeSize(n), 0, 0
  {
    var name := n.token.value;
    match n.token.kind
    case Text => Ok(name)
    case Section =>
      (match Find(views, name)
       case Err(e) => Err(e)
       case Ok(v) => InterpSection(v, Children(n), views, partials, depth))
    case Inverted =>
      (match Find(views, name)
       case Err(e) => Err(e)
       case Ok(v) => if Falsy(v) || v == Arr([]) then Interp(Children(n), views, partials, depth) else Ok(""))
    case Partial =>
      if name !in partials then Ok("")
      else if depth == 0 then Err(OVERFLOW)
      else Interp(partials[name], views, partials, depth - 1)
    case Unescaped =>
      (match Find(views, name) case Err(e) => Err(e) case Ok(v) => Ok(NameText(v)))
    case Name =>
      (match Find(views, name) case Err(e) => Err(e) case Ok(v) => Ok(MustacheEscape.EscapeHtml(NameText(v))))
    case _ => Ok("")
  }

  // Once for every item, once inside an object, or once where we are if the value is true.
  function InterpSection(v: Value, children: seq<Node>, views: seq<Value>, partials: Partials,
                         depth: nat): Result<string>
    requires views != []
    decreases depth, Size(children), 2, 0
  {
    if v.Arr? then InterpItems(v.items, children, views, partials, depth)
    else if v.Obj? then Interp(children, [v] + views, partials, depth)
    else if Falsy(v) then Ok("")
    else Interp(children, views, partials, depth)
  }

  function InterpItems(items: seq<Value>, children: seq<Node>, views: seq<Value>, partials: Partials,
                       depth: nat): Result<string>
    requires views != []
    decreases depth, Size(children), 1, |items|
  {
    if items == [] then Ok("")
    else
      Then(Interp(children, [items[0]] + views, partials, depth),
           InterpItems(items[1..], children, views, partials, depth))
  }

  // exports.tags
  const TAGS: seq<string> := ["{{", "}}"]

  // What a cache filled with the given tags makes of a template.
  function TreeOf(origin: map<string, seq<string>>, template: string, tags: seq<string>): Result<seq<Node>> {
    Parsed(template, if template in origin then origin[template] else tags)
  }

  function Remember(origin: map<string, seq<string>>, template: string, tags: seq<string>): map<string, seq<string>> {
    if template in origin then origin else origin[template := tags]
  }

  // What a writer remembers: the tags each cached template was parsed with, and the partials.
  datatype Caches = Caches(origin: map<string, seq<string>>, trees: Partials)

  function Compiled(c: Caches, template: string, tags: seq<string>): (Caches, Result<seq<Node>>) {
    match TreeOf(c.origin, template, tags)
    case Err(e) => (c, Err(e))
    case Ok(tree) => (c.(origin := Remember(c.origin, template, tags)), Ok(tree))
  }

  function PartialCompiled(c: Caches, name: string, template: string, tags: seq<string>): (Caches, Result<seq<Node>>) {
    var (after, r) := Compiled(c, template, tags);
    (if r.Ok? then after.(trees := after.trees[name := r.value]) else after, r)
  }

  // The partials that come with a call; the first one that does not parse ends it.
  function AddPartials(c: Caches, partials: seq<(string, string)>): (Caches, Option<string>)
    decreases |partials|
  {
    if partials == [] then (c, None)
    else
      var (after, r) := PartialCompiled(c, partials[0].0, partials[0].1, TAGS);
      match r
      case Err(e) => (after, Some(e))
      case Ok(_) => AddPartials(after, partials[1..])
  }

  // Calling a compiled function.
  function Called(c: Caches, tree: seq<Node>, view: Value, partials: seq<(string, string)>, depth: nat)
    : (Caches, Result<string>)
  {
    var (after, e) := AddPartials(c, partials);
    (after, if e.Some? then Err(e.value) else Interp(tree, [view], after.trees, depth))
  }

  function Rendered(c: Caches, template: string, view: Value, partials: seq<(string, string)>, depth: nat)
    : (Caches, Result<string>)
  {
    var (after, r) := Compiled(c, template, TAGS);
    match r
    case Err(e) => (after, Err(e))
    case Ok(tree) => Called(after, tree, view, partials, depth)
  }

  lemma ThenAssociative(a: Result<string>, b: Result<string>, c: Result<string>)
    ensures Then(Then(a, b), c) == Then(a, Then(b, c))
    ensures Then(Ok(""), a) == a
  {
    if a.Ok? && b.Ok? && c.Ok? {
      assert a.value + b.value + c.value == a.value + (b.value + c.value);
    }
    if a.Ok? {
      assert "" + a.value == a.value;
    }
  }

  // The function that compileTokens returns: its tokens, and the sub-renderers it has made.
  class Renderer {
    const tokens: seq<Node>
    var subs: map<nat, Renderer>

    constructor (tokens: seq<Node>)
      ensures this.tokens == tokens && subs == map[]
    {
      this.tokens := tokens;
      subs := map[];
    }
  }

  class Writer {
    var cache: map<string, Renderer>
    var partialCache: map<string, Renderer>
    ghost var origin: map<string, seq<string>>  // the tags a cached template was parsed with
    ghost var renderers: set<Renderer>
    ghost var contexts: set<Context>

    // A memoised sub-renderer is the one for the children of its token.
    ghost predicate Valid()
      reads this`partialCache, this`renderers, this`contexts, renderers, contexts
    {
      && (forall name <- partialCache :: partialCache[name] in renderers)
      && (forall r <- renderers, i <- r.subs ::
            i < |r.tokens| && r.subs[i] in renderers && r.subs[i].tokens == Children(r.tokens[i]))
      && (forall c <- contexts :: c.Valid())
    }

    ghost function PartialTrees(): Partials
      reads this`partialCache
    {
      map name | name in partialCache :: partialCache[name].tokens
    }

    ghost function Now(): Caches
      reads this`origin, this`partialCache
    {
      Caches(origin, PartialTrees())
    }

    constructor ()
      ensures Valid() && Cached() && fresh(renderers) && fresh(contexts) && Now() == Caches(map[], map[])
    {
      cache, partialCache, origin := map[], map[], map[];
      renderers, contexts := {}, {};
    }

    // A lookup through the cache of a context of this writer.
    method LookUp(c: Context, name: string) returns (res: Result<Value>)
      requires Valid() && c in contexts
      modifies contexts
      ensures Valid() && res == Find(c.views, name)
    {
      res := c.Lookup(name);
    }

    lemma HasViews(c: Context)
      requires Valid() && c in contexts
      ensures c.views != []
    {
    }

    lemma PartialThere(name: string)
      requires Valid() && name in partialCache
      ensures partialCache[name] in renderers
      ensures name in PartialTrees() && PartialTrees()[name] == partialCache[name].tokens
    {
    }

    // The memoised renderer for section i.
    method SubRender(r: Renderer, i: nat) returns (sub: Renderer)
      requires Valid() && r in renderers && i < |r.tokens|
      modifies this`renderers, r
      ensures Valid() && contexts == old(contexts)
      ensures old(renderers) <= renderers && fresh(renderers - old(renderers))
      ensures sub in renderers && sub.tokens == Children(r.tokens[i])
    {
      if i !in r.subs {
        sub := new Renderer(Children(r.tokens[i]));
        renderers := renderers + {sub};
        r.subs := r.subs[i := sub];
      }
      sub := r.subs[i];
    }

    method Push(view: Value, parent: Context?) returns (c: Context)
      requires Valid() && (parent == null || parent in contexts)
      modifies this`contexts
      ensures Valid() && c in contexts && contexts == old(contexts) + {c} && fresh(c)
      ensures c.views == if parent == null then [view] else [view] + parent.views
    {
      c := new Context(view, parent);
      contexts := contexts + {c};
    }

    method Render(r: Renderer, c: Context, depth: nat) returns (res: Result<string>)
      requires Valid() && r in renderers && c in contexts
      modifies this`renderers, this`contexts, renderers, contexts
      ensures Valid() && old(renderers) <= renderers && old(contexts) <= contexts
      ensures fresh(renderers - old(renderers)) && fresh(contexts - old(contexts))
      ensures res == Interp(r.tokens, c.views, PartialTrees(), depth)
      decreases depth, Size(r.tokens), 1
    {
      ghost var partials := PartialTrees();
      var buffer := "";
      ThenAssociative(Interp(r.tokens, c.views, partials, depth), Ok(""), Ok(""));
      for i := 0 to |r.tokens|
        invariant Valid() && old(renderers) <= renderers && old(contexts) <= contexts
        invariant fresh(renderers - old(renderers)) && fresh(contexts - old(contexts))
        invariant Then(Ok(buffer), Interp(r.tokens[i..], c.views, partials, depth)) ==
                    Interp(r.tokens, c.views, partials, depth)
      {
        SizeAt(r.tokens, i);
        assert r.tokens[i..][0] == r.tokens[i] && r.tokens[i..][1..] == r.tokens[i + 1..];
        var one := RenderToken(r, i, c, depth);
        if one.Err? {
          return one;
        }
        ThenAssociative(Ok(buffer), one, Interp(r.tokens[i + 1..], c.views, partials, depth));
        buffer := buffer + one.value;
      }
      assert buffer + "" == buffer;
      res := Ok(buffer);
    }

    method RenderToken(r: Renderer, i: nat, c: Context, depth: nat) returns (res: Result<string>)
      requires Valid() && r in renderers && c in contexts && i < |r.tokens|
      modifies this`renderers, this`contexts, renderers, contexts
      ensures Valid() && old(renderers) <= renderers && old(contexts) <= contexts
      ensures fresh(renderers - old(renderers)) && fresh(contexts - old(contexts))
      ensures res == InterpOne(r.tokens[i], c.views, PartialTrees(), depth)
      decreases depth, NodeSize(r.tokens[i]), 0
    {
      hide Writer.Valid, Interp, InterpItems, InterpSection, Find;
      SizeAt(r.tokens, i);
      var token := r.tokens[i].token;
      match token.kind {
        case Text =>
          res := Ok(token.value);
        case Section =>
          var sub := SubRender(r, i);
          res := RenderSection(token.value, c, sub, depth);
        case Inverted =>
          var sub := SubRender(r, i);
          var value := LookUp(c, token.value);
          if value.Err? {
            return Err(value.error);
          }
          if Falsy(value.value) || (value.value.Arr? && |value.value.items| == 0) {
            res := Render(sub, c, depth);
          } else {
            res := Ok("");
          }
        case Partial =>
          if token.value !in partialCache {
            return Ok("");
          }
          PartialThere(token.value);
          if depth == 0 {
            return Err(OVERFLOW);
          }
          res := Render(partialCache[token.value], c, depth - 1);
        case Unescaped =>
          var value := LookUp(c, token.value);
          res := if value.Err? then Err(value.error) else Ok(NameText(value.value));
        case Name =>
          var value := LookUp(c, token.value);
          res := if value.Err? then Err(value.error) else Ok(MustacheEscape.EscapeHtml(NameText(value.value)));
        case _ =>
          res := Ok("");
      }
    }

    method RenderSection(name: string, c: Context, sub: Renderer, depth: nat) returns (res: Result<string>)
      requires Valid() && sub in renderers && c in contexts
      modifies this`renderers, this`contexts, renderers, contexts
      ensures Valid() && old(renderers) <= renderers && old(contexts) <= contexts
      ensures fresh(renderers - old(renderers)) && fresh(contexts - old(contexts))
      ensures res == match Find(c.views, name)
                     case Err(e) => Err(e)
                     case Ok(v) => InterpSection(v, sub.tokens, c.views, PartialTrees(), depth)
      decreases depth, Size(sub.tokens), 3
    {
      hide Writer.Valid, Interp, Find;
      var value := LookUp(c, name);
      if value.Err? {
        return Err(value.error);
      }
      if value.value.Arr? {
        res := RenderItems(value.value.items, c, sub, depth);
      } else if value.value.Obj? {
        var inner := Push(value.value, c);
        res := Render(sub, inner, depth);
      } else if Falsy(value.value) {
        res := Ok("");
      } else {
        res := Render(sub, c, depth);
      }
    }

    method RenderItems(items: seq<Value>, c: Context, sub: Renderer, depth: nat) returns (res: Result<string>)
      requires Valid() && sub in renderers && c in contexts
      modifies this`renderers, this`contexts, renderers, contexts
      ensures Valid() && old(renderers) <= renderers && old(contexts) <= contexts
      ensures fresh(renderers - old(renderers)) && fresh(contexts - old(contexts))
      ensures res == InterpItems(items, sub.tokens, c.views, PartialTrees(), depth)
      decreases depth, Size(sub.tokens), 2
    {
      hide Writer.Valid, Interp;
      HasViews(c);
      ghost var partials := PartialTrees();
      var buffer := "";
      ThenAssociative(InterpItems(items, sub.tokens, c.views, partials, depth), Ok(""), Ok(""));
      for i := 0 to |items|
        invariant Valid() && old(renderers) <= renderers && old(contexts) <= contexts
        invariant fresh(renderers - old(renderers)) && fresh(contexts - old(contexts))
        invariant Then(Ok(buffer), InterpItems(items[i..], sub.tokens, c.views, partials, depth)) ==
                    InterpItems(items, sub.tokens, c.views, partials, depth)
      {
        assert items[i..][0] == items[i] && items[i..][1..] == items[i + 1..];
        var inner := Push(items[i], c);
        var one := Render(sub, inner, depth);
        if one.Err? {
          return one;
        }
        ThenAssociative(Ok(buffer), one, InterpItems(items[i + 1..], sub.tokens, c.views, partials, depth));
        buffer := buffer + one.value;
      }
      assert buffer + "" == buffer;
      res := Ok(buffer);
    }

    // Every cached function was compiled from its own template, with the tags given then.
    ghost predicate Cached()
      reads this`cache, this`origin, this`renderers
    {
      && cache.Keys == origin.Keys
      && forall t <- cache :: cache[t] in renderers && Parsed(t, origin[t]) == Ok(cache[t].tokens)
    }

    method ClearCache()
      requires Valid()
      modifies this
      ensures Valid() && Cached() && Now() == Caches(map[], map[])
      ensures renderers == old(renderers) && contexts == old(contexts)
    {
      cache, partialCache := map[], map[];
      origin := map[];
    }

    // compileTokens, up to the function it returns (see Call).
    method CompileTokens(tokens: seq<Node>) returns (fn: Renderer)
      requires Valid() && Cached()
      modifies this`renderers
      ensures Valid() && Cached() && renderers == old(renderers) + {fn} && fresh(fn) && fn.tokens == tokens
    {
      hide Parsed;
      fn := new Renderer(tokens);
      renderers := renderers + {fn};
    }

    // The template is looked up without regard to the tags.
    method Compile(template: string, tags: seq<string>) returns (r: Result<Renderer>)
      requires Valid() && Cached()
      modifies this`cache, this`origin, this`renderers
      ensures Valid() && Cached() && old(renderers) <= renderers && fresh(renderers - old(renderers))
      ensures r.Ok? ==> r.value in renderers
      ensures (Now(), TreesOf(r)) == Compiled(old(Now()), template, tags)
    {
      hide Parsed, Writer.Valid, Writer.PartialTrees;
      if template !in cache {
        var tokens := Parse(template, tags);
        if tokens.Err? {
          return Err(tokens.error);
        }
        var fn := CompileTokens(tokens.value);
        cache := cache[template := fn];
        origin := origin[template := tags];
      }
      r := Ok(cache[template]);
    }

    method CompilePartial(name: string, template: string, tags: seq<string>) returns (r: Result<Renderer>)
      requires Valid() && Cached()
      modifies this`cache, this`origin, this`renderers, this`partialCache
      ensures Valid() && Cached() && old(renderers) <= renderers && fresh(renderers - old(renderers))
      ensures r.Ok? ==> r.value in renderers
      ensures (Now(), TreesOf(r)) == PartialCompiled(old(Now()), name, template, tags)
    {
      hide Compiled, Parsed, Writer.Cached;
      r := Compile(template, tags);
      if r.Ok? {
        ghost var trees := PartialTrees();
        partialCache := partialCache[name := r.value];
        assert PartialTrees() == trees[name := r.value.tokens];
      }
    }

    // What the function made by compileTokens does: register the partials, then render.
    method Call(fn: Renderer, view: Value, partials: seq<(string, string)>, depth: nat) returns (res: Result<string>)
      requires Valid() && Cached() && fn in renderers
      modifies this, renderers, contexts
      ensures Valid() && Cached() && old(renderers) <= renderers
      ensures (Now(), res) == Called(old(Now()), fn.tokens, view, partials, depth)
    {
      hide PartialCompiled, Interp, Writer.Valid, Writer.Cached;
      for i := 0 to |partials|
        invariant Valid() && Cached() && fn in renderers
        invariant old(renderers) <= renderers && fresh(renderers - old(renderers)) && contexts == old(contexts)
        invariant AddPartials(Now(), partials[i..]) == AddPartials(old(Now()), partials)
      {
        assert partials[i..][0] == partials[i] && partials[i..][1..] == partials[i + 1..];
        var r := CompilePartial(partials[i].0, partials[i].1, TAGS);
        if r.Err? {
          return Err(r.error);
        }
      }
      res := RenderTop(fn, view, depth);
    }

    method RenderTop(fn: Renderer, view: Value, depth: nat) returns (res: Result<string>)
      requires Valid() && Cached() && fn in renderers
      modifies this`renderers, this`contexts, renderers, contexts
      ensures Valid() && Cached() && old(renderers) <= renderers
      ensures res == Interp(fn.tokens, [view], PartialTrees(), depth)
    {
      hide Interp, Parsed, Writer.Valid;
      var c := Push(view, null);
      res := Render(fn, c, depth);
    }

    // Writer.prototype.render
    method RenderTemplate(template: string, view: Value, partials: seq<(string, string)>, depth: nat)
      returns (res: Result<string>)
      requires Valid() && Cached()
      modifies this, renderers, contexts
      ensures Valid() && Cached()
      ensures (Now(), res) == Rendered(old(Now()), template, view, partials, depth)
    {
      hide Compiled, Called, Writer.Valid, Writer.Cached;
      var fn := Compile(template, TAGS);
      if fn.Err? {
        return Err(fn.error);
      }
      res := Call(fn.value, view, partials, depth);
    }
  }

  ghost function TreesOf(r: Result<Renderer>): Result<seq<Node>> {
    match r case Err(e) => Err(e) case Ok(fn) => Ok(fn.tokens)
  }
}
