// parse: from the template text to the tree of tokens.
module MustacheTemplate {
  import opened Wrappers
  import opened MustacheScanner
  import opened MustacheLexer
  import opened MustacheStrip
  import opened MustacheParse
  import opened MustacheNest

  function Parsed(template: string, tags: seq<string>): Result<seq<Node>> {
    match Lex(template, 0, tags)
    case Err(e) => Err(e)
    case Ok(raw) => Run(State([], []), Squash(Strip(raw)))
  }

  method Parse(template: string, tags: seq<string>) returns (r: Result<seq<Node>>)
    ensures r == Parsed(template, tags)
  {
    hide Lex, Strip, Squash, Run;
    var tokens := ParseTokens(template, tags);
    if tokens.Err? {
      return Err(tokens.error);
    }
    var squashed := SquashTokens(tokens.value);
    r := NestTokens(squashed);
  }

  // Every section of a parsed template is bracketed by tags of the template, and its bounds
  // lie between them.
  lemma ParsedSections(template: string, tags: seq<string>, tree: seq<Node>) returns (f: seq<Bracketed>)
    requires |tags| == 2 && tags[0] != "" && tags[1] != ""
    requires Parsed(template, tags) == Ok(tree)
    ensures Matched(f) && Tree(f) == tree
    ensures Flatten(f) == Squash(Strip(Lex(template, 0, tags).value))
    ensures forall b: Bracketed :: b.Block? && IsBlockOf(b, f) ==>
              b.open.end <= EndOf(Tree([b])[0]) <= b.close.start <= |template|
  {
    hide Lex, Run, Squash, Strip, Dropped;
    var raw := Lex(template, 0, tags).value;
    var tokens := Squash(Strip(raw));
    TemplateAccounted(template, tags, raw);
    NestExactly(tokens, tree);
    f :| Matched(f) && Flatten(f) == tokens && Tree(f) == tree;
    forall b: Bracketed | b.Block? && IsBlockOf(b, f)
      ensures b.open.end <= EndOf(Tree([b])[0]) <= b.close.start <= |template|
    {
      BoundsWithin(f, b, 0, |template|);
      BlockWithin(b, f, 0, |template|);
      BlockAlone(b.open, b.kids, b.close);
      assert Flatten([b])[|Flatten([b])| - 1] == b.close;
    }
  }

  // Without an opening delimiter the whole template is one text token.
  lemma PlainTemplate(template: string, tags: seq<string>)
    requires |tags| == 2 && tags[0] != "" && template != ""
    requires forall i :: 0 <= i <= |template| ==> !(tags[0] <= template[i..])
    ensures Parsed(template, tags) == Ok([Leaf(Token(Text, template, 0, |template|))])
  {
    var p := OpenTag(tags[0]);
    assert Search(p, template).None?;
    assert SkipTo(p, template) == "" && Skipped(p, template) == template;
    var raw := CharTokens(template, 0);
    assert Lex(template, 0, tags) == Ok(raw);
    NoTagsToStrip([], raw);
    assert [] + raw == raw;
    SquashChars(template, 1);
    assert template[..1] == [template[0]];
    assert raw[0] == Token(Text, template[..1], 0, 1);
    assert Extend([], raw[0]) == [raw[0]];
    assert Squash(raw) == SquashOnto([Token(Text, template[..1], 0, 1)], raw[1..]);
    RunText(Token(Text, template, 0, |template|));
  }

  lemma RunText(t: Token)
    requires t.kind == Text
    ensures Run(State([], []), [t]) == Ok([Leaf(t)])
  {
    assert Collect(State([], []), Leaf(t)) == State([Leaf(t)], []);
  }

  lemma {:induction false} NoTagsToStrip(line: seq<Token>, tokens: seq<Token>)
    requires forall i :: 0 <= i < |line| ==> line[i].kind == Text
    requires forall i :: 0 <= i < |tokens| ==> tokens[i].kind == Text
    ensures StripFrom(line, tokens) == line + tokens
    decreases |tokens|
  {
    hide IsNewline;
    if tokens != [] {
      var more := line + [tokens[0]];
      assert more + tokens[1..] == line + tokens;
      if IsNewline(tokens[0]) {
        assert !HasTag(more);
        NoTagsToStrip([], tokens[1..]);
        assert [] + tokens[1..] == tokens[1..];
      } else {
        NoTagsToStrip(more, tokens[1..]);
      }
    }
  }

  lemma {:induction false} SquashChars(template: string, n: nat)
    requires 0 < n <= |template|
    ensures SquashOnto([Token(Text, template[..n], 0, n)], CharTokens(template, 0)[n..]) ==
              [Token(Text, template, 0, |template|)]
    decreases |template| - n
  {
    var rest := CharTokens(template, 0)[n..];
    if n < |template| {
      assert template[..n] + [template[n]] == template[..n + 1];
      assert rest[0] == Token(Text, [template[n]], n, n + 1);
      assert Extend([Token(Text, template[..n], 0, n)], rest[0]) == [Token(Text, template[..n + 1], 0, n + 1)];
      SquashChars(template, n + 1);
    } else {
      assert template[..n] == template;
    }
  }
}
