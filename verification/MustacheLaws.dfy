// What templates render to, tag by tag and part by part.
module MustacheLaws {
  import opened Wrappers
  import opened MustacheScanner
  import opened MustacheLexer
  import opened MustacheText
  import opened MustachePrint
  import opened MustacheStrip
  import opened MustacheNest
  import opened MustacheContext
  import opened MustacheTemplate
  import opened MustacheRender
  import opened MustacheCache
  import opened MustacheAlike
  import opened MustacheParts

  // What a template gives in a stack of views, the innermost first, with partials that may be open
  // inside one another to some depth.
  function Shown(template: string, views: seq<Value>, partials: Partials, depth: nat): Result<string>
    requires views != []
  {
    match Parsed(template, TAGS)
    case Err(e) => Err(e)
    case Ok(tree) => Interp(tree, views, partials, depth)
  }

  // That is what a writer renders with one view.
  lemma RenderedShown(c: Caches, template: string, view: Value, depth: nat)
    requires CachedWith(c.origin, (_: string) => TAGS)
    ensures Rendered(c, template, view, [], depth).1 == Shown(template, [view], c.trees, depth)
  {
    hide Parsed, Interp;
    OneInvisible(c, Render(template, view, [], depth), (_: string) => TAGS);
  }

  lemma DefaultTags()
    ensures MustacheText.Delimiters(TAGS) && TAGS[0] == "{{" && TAGS[1] == "}}"
  {
  }

  // A template that parses, and the tokens behind its tree.
  lemma Behind(template: string) returns (tokens: seq<Token>, tree: seq<Node>)
    requires Parsed(template, TAGS).Ok?
    ensures Lex(template, 0, TAGS) == Ok(tokens)
    ensures Run(START, Strip(tokens)) == Ok(tree) && Alike(Parsed(template, TAGS).value, tree)
  {
    hide Lex, Strip, Run, Alike;
    tokens := Lex(template, 0, TAGS).value;
    ParsedAlike(template, TAGS);
    tree := Run(START, Strip(tokens)).value;
  }

  // A template renders as any tree that its stripped tokens, or others of the same kinds and
  // values, are read as.
  lemma ShownAs(template: string, tokens: seq<Token>, others: seq<Token>, tree: seq<Node>,
                views: seq<Value>, partials: Partials, depth: nat)
    requires views != [] && Lex(template, 0, TAGS) == Ok(tokens) && SameAll(Strip(tokens), others)
    requires Run(START, others) == Ok(tree)
    ensures Parsed(template, TAGS).Ok?
    ensures Shown(template, views, partials, depth) == Interp(tree, views, partials, depth)
  {
    hide Lex, Strip, Run, Interp, SameAll, AlikeState;
    ParsedAlike(template, TAGS);
    NothingAlike();
    SameRuns(Strip(tokens), others);
    assert Alike(Parsed(template, TAGS).value, Run(START, Strip(tokens)).value);
    assert Alike(Run(START, Strip(tokens)).value, tree);
  }

  lemma SameRuns(a: seq<Token>, b: seq<Token>)
    requires SameAll(a, b)
    ensures AlikeResult(Run(START, a), Run(START, b))
  {
    NothingAlike();
    RunAlike(START, START, a, b);
  }

  // --- Tags that stand for a text.

  // {{name}} and its like: the tag alone.
  lemma TagShown(kind: Kind, name: string, sp: Spacing, views: seq<Value>, partials: Partials, depth: nat)
    requires views != [] && kind in {Name, Unescaped, Brace, Partial, Comment}
    requires MustacheText.Delimiters(TAGS) && Writable(kind, name, sp, TAGS)
    ensures var token := Token(if kind == Brace then Unescaped else kind, name, 0, |Written(kind, name, sp, TAGS)|);
            Shown(Written(kind, name, sp, TAGS), views, partials, depth) ==
              InterpOne(Leaf(token), views, partials, depth)
  {
    hide Lex, Run, Interp, InterpOne, Writable, Written, FinalTags, Tail;
    WrittenLex(kind, name, sp, TAGS, 0);
    var s := Written(kind, name, sp, TAGS);
    var token := Token(if kind == Brace then Unescaped else kind, name, 0, |s|);
    TagStays(token);
    RunLeaf(token);
    ShownAs(s, [token], [token], [Leaf(token)], views, partials, depth);
    InterpAlone(Leaf(token), views, partials, depth);
  }

  lemma TagStays(token: Token)
    requires token.kind != Text
    ensures Strip([token]) == [token] && SameAll([token], [token])
  {
    assert !IsNewline(token);
    StripNone([], [], [token]);
    assert [] + [token] == [token];
  }

  // The value of a name is shown as text, nothing for null, and escaped for HTML; between three
  // braces or behind an ampersand it is shown as it is. White space in the tag does not matter.
  lemma NameShown(name: string, a: nat, c: nat, v: Value, views: seq<Value>, partials: Partials, depth: nat)
    requires views != [] && Clean(name, "}}", c) && (name + "}}")[0] !in "#^/>{&=!" && Find(views, name) == Ok(v)
    ensures var text := if v in {Undefined, Null} then "" else ToText(v);
            var r := Shown("{{" + Blanks(a) + name + Blanks(c) + "}}", views, partials, depth);
            && r == Ok(MustacheEscape.EscapeHtml(text)) && MustacheEscape.Unescape(r.value) == text
            && forall i :: 0 <= i < |r.value| ==>
                 r.value[i] !in "<>\"'/" && (r.value[i] == '&' ==> MustacheEscape.Decoded(r.value[i..]).Some?)
  {
    hide Clean, Interp, Find, ToText, Parsed, MustacheEscape.EscapeHtml, MustacheEscape.Unescape,
      MustacheEscape.Decoded;
    var text := if v in {Undefined, Null} then "" else ToText(v);
    DefaultTags();
    TagShown(Name, name, Spacing(a, 0, c), views, partials, depth);
    assert "{{" + Blanks(a) + "" + Blanks(0) == "{{" + Blanks(a);
    MustacheEscape.UnescapeEscape(text);
    EscapedText(text);
  }

  lemma EscapedText(text: string)
    ensures var r := MustacheEscape.EscapeHtml(text);
            forall i :: 0 <= i < |r| ==>
              r[i] !in "<>\"'/" && (r[i] == '&' ==> MustacheEscape.Decoded(r[i..]).Some?)
  {
    hide MustacheEscape.EscapeHtml, MustacheEscape.Decoded;
    var r := MustacheEscape.EscapeHtml(text);
    forall i | 0 <= i < |r|
      ensures r[i] !in "<>\"'/" && (r[i] == '&' ==> MustacheEscape.Decoded(r[i..]).Some?)
    {
      MustacheEscape.EscapedClean(text, i);
    }
  }

  lemma RawShown(name: string, a: nat, b: nat, c: nat, v: Value, views: seq<Value>, partials: Partials, depth: nat)
    requires views != [] && Find(views, name) == Ok(v)
    ensures var text := if v in {Undefined, Null} then "" else ToText(v);
            && (Clean(name, "}}", c) ==>
                  Shown("{{" + Blanks(a) + "&" + Blanks(b) + name + Blanks(c) + "}}", views, partials, depth) ==
                    Ok(text))
            && (Clean(name, "}}}", c) ==>
                  Shown("{{" + Blanks(a) + "{" + Blanks(b) + name + Blanks(c) + "}}}", views, partials, depth) ==
                    Ok(text))
  {
    hide Clean, Interp, Find, ToText, Parsed;
    DefaultTags();
    var sp := Spacing(a, b, c);
    if Clean(name, "}}", c) {
      TagShown(Unescaped, name, sp, views, partials, depth);
    }
    if Clean(name, "}}}", c) {
      assert "}" + "}}" == "}}}";
      TagShown(Brace, name, sp, views, partials, depth);
    }
  }

  // A partial shows what its template shows in the same views, one level deeper; nothing is shown
  // for one that is not there, nor for a comment.
  lemma PartialShown(name: string, a: nat, b: nat, c: nat, template: string, views: seq<Value>, partials: Partials,
                     depth: nat)
    requires views != [] && Clean(name, "}}", c)
    ensures var r := Shown("{{" + Blanks(a) + ">" + Blanks(b) + name + Blanks(c) + "}}", views, partials, depth);
            && (name !in partials ==> r == Ok(""))
            && (depth > 0 && name in partials && Parsed(template, TAGS) == Ok(partials[name]) ==>
                  r == Shown(template, views, partials, depth - 1))
    ensures Shown("{{" + Blanks(a) + "!" + Blanks(b) + name + Blanks(c) + "}}", views, partials, depth) == Ok("")
  {
    hide Clean, Interp, Find, Parsed;
    DefaultTags();
    TagShown(Partial, name, Spacing(a, b, c), views, partials, depth);
    TagShown(Comment, name, Spacing(a, b, c), views, partials, depth);
  }

  // --- Templates put together.

  // A part that can stand before another: it parses, leaves the default delimiters in force, and no
  // tag reaches across.
  ghost predicate Part(t: string, u: string) {
    Parsed(t, TAGS).Ok? && FinalTags(t, TAGS) == TAGS && Follows(t, u, TAGS)
  }

  // The line that goes on from one into the other, if any, is stripped as its pieces are.
  ghost predicate OwnLines(t: string, u: string) {
    Lex(t, 0, TAGS).Ok? && Lex(u, 0, TAGS).Ok? && LinesApart(Lex(t, 0, TAGS).value, Lex(u, 0, TAGS).value)
  }

  // For instance when the first ends with its line, or no line ends in the second.
  lemma LinesOf(t: string, u: string)
    requires Lex(t, 0, TAGS).Ok? && Lex(u, 0, TAGS).Ok?
    requires t == "" || t[|t| - 1] == '\n' || '\n' !in u
    ensures OwnLines(t, u)
  {
    hide Lex, Tail, NoNewline, LinesApart;
    DefaultTags();
    if '\n' !in u {
      NoNewlineText(u, 0, TAGS);
    } else {
      EndsLine(t);
    }
    EndedApart(Lex(t, 0, TAGS).value, Lex(u, 0, TAGS).value);
  }

  // A template that is empty or ends with a newline ends with the token of a newline, if with any.
  lemma EndsLine(t: string)
    requires Lex(t, 0, TAGS).Ok? && (t == "" || t[|t| - 1] == '\n')
    ensures var a := Lex(t, 0, TAGS).value; a == [] || IsNewline(a[|a| - 1])
  {
    hide Lex, Tail;
    DefaultTags();
    if t == "" {
      LexEnd(0, TAGS);
    } else {
      TailEnds(t, 0, TAGS);
      var front := TailLast(t, 0, TAGS);
      LastOf(Tail(t, TAGS), t);
      LastNewline(Tail(t, TAGS), |t| - |Tail(t, TAGS)|);
    }
  }

  lemma LastNewline(s: string, pos: nat)
    requires s != "" && s[|s| - 1] == '\n'
    ensures IsNewline(CharTokens(s, pos)[|s| - 1])
  {
    assert ['\n'] == "\n";
  }

  // The tokens of two parts.
  lemma TwoParts(t: string, u: string) returns (a: seq<Token>, b: seq<Token>, x: seq<Node>, y: seq<Node>)
    requires Part(t, u) && Parsed(u, TAGS).Ok? && OwnLines(t, u)
    ensures Lex(t + u, 0, TAGS).Ok? && SameAll(Strip(Lex(t + u, 0, TAGS).value), Strip(a) + Strip(b))
    ensures Run(START, Strip(a)) == Ok(x) && Run(START, Strip(b)) == Ok(y)
    ensures Alike(Parsed(t, TAGS).value, x) && Alike(Parsed(u, TAGS).value, y)
  {
    hide Lex, Strip, Run, Alike, Follows, SameAll, LinesApart;
    DefaultTags();
    a, x := Behind(t);
    b, y := Behind(u);
    LexConcat(t, u, 0, TAGS);
    LexShift(u, 0, |t|, TAGS);
    var c := Lex(u, |t|, TAGS).value;
    assert Lex(t + u, 0, TAGS) == Ok(a + c);
    StripConcat(a, b);
    StripBoth(a, b, c);
  }

  lemma StripBoth(a: seq<Token>, b: seq<Token>, c: seq<Token>)
    requires SameAll(b, c)
    ensures SameAll(Strip(a + c), Strip(a + b))
  {
    hide StripFrom;
    SameBack(b, c);
    SameBack(a, a);
    StripSame([], [], a + c, a + b);
  }

  lemma SameBack(a: seq<Token>, b: seq<Token>)
    ensures SameAll(a, b) ==> SameAll(b, a)
    ensures SameAll(a, a)
  {
  }

  // Templates one after the other show what they show, one after the other; the first that fails
  // makes it fail.
  lemma ConcatShown(t: string, u: string, views: seq<Value>, partials: Partials, depth: nat)
    requires views != [] && Part(t, u) && Parsed(u, TAGS).Ok? && OwnLines(t, u)
    ensures Parsed(t + u, TAGS).Ok?
    ensures var r, q := Shown(t, views, partials, depth), Shown(u, views, partials, depth);
            Shown(t + u, views, partials, depth) ==
              if r.Err? then r else if q.Err? then q else Ok(r.value + q.value)
  {
    hide Lex, Strip, Run, Interp, Parsed, SameAll, Part;
    var a, b, x, y := TwoParts(t, u);
    RunTwo(Strip(a), Strip(b), x, y);
    ShownAs(t + u, Lex(t + u, 0, TAGS).value, Strip(a) + Strip(b), x + y, views, partials, depth);
    InterpConcat(x, y, views, partials, depth);
    PartParses(t, u);
  }

  lemma PartParses(t: string, u: string)
    requires Part(t, u)
    ensures Parsed(t, TAGS).Ok?
  {
  }

  // It matters that they are: white space and a comment at the end of one template, and a newline at
  // the beginning of the next, show two characters apart and nothing together.
  lemma LinesMatter(views: seq<Value>, partials: Partials, depth: nat)
    requires views != []
    ensures Shown(" {{!a}}", views, partials, depth) == Ok(" ")
    ensures Shown("\n", views, partials, depth) == Ok("\n")
    ensures Shown(" {{!a}}" + "\n", views, partials, depth) == Ok("")
  {
    hide Lex, Run, Interp, Strip, Parsed;
    var blank, tag, nl := Token(Text, " ", 0, 1), Token(Comment, "a", 1, 7), Token(Text, "\n", 7, 8);
    CommentTokens("");
    CommentTokens("\n");
    NewlineToken(7);
    assert " " + ("{{!a}}" + "") == " {{!a}}" && " " + "" == " " && CharTokens("", 7) == [];
    CommentLine(blank, tag, nl);
    RunLeaf(blank);
    RunLeaf(tag);
    RunTwo([blank], [tag], [Leaf(blank)], [Leaf(tag)]);
    assert [blank] + ([tag] + []) == [blank, tag] == [blank] + [tag] && [blank] + ([tag] + [nl]) == [blank, tag, nl];
    ShownAs(" {{!a}}", [blank, tag], [blank] + [tag], [Leaf(blank)] + [Leaf(tag)], views, partials, depth);
    InterpConcat([Leaf(blank)], [Leaf(tag)], views, partials, depth);
    InterpAlone(Leaf(blank), views, partials, depth);
    InterpAlone(Leaf(tag), views, partials, depth);
    assert " " + ("{{!a}}" + "\n") == " {{!a}}" + "\n";
    ShownAs(" {{!a}}" + "\n", [blank, tag, nl], [tag], [Leaf(tag)], views, partials, depth);
    NewlineShown(views, partials, depth);
  }

  lemma NewlineToken(pos: nat)
    ensures CharTokens("\n", pos) == [Token(Text, "\n", pos, pos + 1)]
  {
    assert ['\n'] == "\n";
  }

  lemma NewlineShown(views: seq<Value>, partials: Partials, depth: nat)
    requires views != []
    ensures Shown("\n", views, partials, depth) == Ok("\n")
  {
    hide Lex, Run, Interp, Strip, Parsed;
    var nl := Token(Text, "\n", 0, 1);
    EolLex("\n", "", 0);
    NewlineToken(0);
    CommentLine(Token(Text, " ", 0, 1), Token(Comment, "a", 1, 7), nl);
    RunLeaf(nl);
    ShownAs("\n", [nl], [nl], [Leaf(nl)], views, partials, depth);
    InterpAlone(Leaf(nl), views, partials, depth);
  }

  lemma CommentTokens(tail: string)
    requires tail == "" || tail == "\n"
    ensures Lex(" " + ("{{!a}}" + tail), 0, TAGS) ==
              Ok([Token(Text, " ", 0, 1)] + ([Token(Comment, "a", 1, 7)] + CharTokens(tail, 7)))
  {
    hide Lex, Search, Writable, Written, FinalTags, Tail, Apart, Leaves, MustacheText.Delimiters;
    DefaultTags();
    var sp := Spacing(0, 0, 0);
    CommentWritten(sp);
    WrittenLex(Comment, "a", sp, TAGS, 1);
    EmptyTail("{{!a}}", tail, TAGS);
    LexConcat("{{!a}}", tail, 1, TAGS);
    EolLex(tail, "", 7);
    OneApart(" ", "{{!a}}" + tail);
    ConcatPlain(" ", "{{!a}}" + tail, 0, TAGS);
    assert CharTokens(" ", 0) == [Token(Text, " ", 0, 1)] by {
      OneChar();
    }
  }

  lemma OneChar()
    ensures CharTokens(" ", 0) == [Token(Text, " ", 0, 1)]
  {
    assert [' '] == " ";
  }

  // No tag begins in a single character that is no brace.
  lemma OneApart(text: string, u: string)
    requires |text| == 1 && text[0] != '{'
    ensures Search(OpenTag("{{"), text).None? && Apart(text, u, "{{")
  {
    hide Search, Begins, Apart;
    NotBegun(text, u);
    ChunkApart(text, u, "{{");
  }

  lemma NotBegun(text: string, u: string)
    requires |text| == 1 && text[0] != '{'
    ensures !Begins("{{", text + u, 0)
  {
    assert (text + u)[0..][0] == text[0];
  }

  lemma CommentWritten(sp: Spacing)
    requires sp == Spacing(0, 0, 0) && MustacheText.Delimiters(TAGS)
    ensures Written(Comment, "a", sp, TAGS) == "{{!a}}" && Writable(Comment, "a", sp, TAGS)
    ensures Leaves(Comment, "a", TAGS) == TAGS
  {
    assert Blanks(0) == "";
    assert ("a" + Blanks(0) + "}}")[0..][0] == 'a';
    assert Clean("a", "}}", 0);
  }

  // The line of the comment is stripped once it has ended.
  lemma CommentLine(blank: Token, tag: Token, nl: Token)
    requires blank.kind == nl.kind == Text && blank.value == " " && nl.value == "\n" && tag.kind == Comment
    ensures Strip([blank, tag]) == [blank, tag] && Strip([blank, tag, nl]) == [tag] && Strip([nl]) == [nl]
  {
    hide IsNewline, IsBlank, Standalone, WithoutBlanks, StripFrom;
    CommentAlone(blank, tag, nl);
    StripNone([], [], [blank, tag]);
    assert [] + [blank, tag] == [blank, tag];
    StripEnded([blank, tag], nl);
    StripEnded([], nl);
    assert [blank, tag] + [nl] == [blank, tag, nl] && [] + [nl] == [nl];
    OneMoreToken([blank, tag], nl);
    OneMoreToken([blank], tag);
    OneMoreToken([], blank);
    assert [blank] + [tag] == [blank, tag] && [] + [blank] == [blank] && [] + [tag] == [tag];
    NoBlanks();
  }

  lemma CommentAlone(blank: Token, tag: Token, nl: Token)
    requires blank.kind == nl.kind == Text && blank.value == " " && nl.value == "\n" && tag.kind == Comment
    ensures !IsNewline(blank) && !IsNewline(tag) && IsNewline(nl) && IsBlank(blank) && IsBlank(nl) && !IsBlank(tag)
    ensures Standalone([blank, tag, nl]) && !Standalone([nl])
  {
    assert "\n" == ['\n'] && " " == [' '];
    assert [blank, tag, nl][1].kind != Text;
  }

  lemma StripEnded(line: seq<Token>, nl: Token)
    requires NoNewline(line) && IsNewline(nl)
    ensures Strip(line + [nl]) == StripLine(line + [nl])
  {
    hide IsNewline, StripLine;
    StripEndedFrom([], line, nl);
    assert [] + line == line;
  }

  lemma {:induction false} StripEndedFrom(line: seq<Token>, more: seq<Token>, nl: Token)
    requires NoNewline(more) && IsNewline(nl)
    ensures StripFrom(line, more + [nl]) == StripLine(line + more + [nl])
    decreases |more|
  {
    hide IsNewline, StripLine;
    if more == [] {
      assert [] + [nl] == [nl] && [nl][1..] == [] && line + [] == line;
      assert StripLine(line + [nl]) + [] == StripLine(line + [nl]);
    } else {
      assert more[0] in more && forall t <- more[1..] :: t in more;
      assert (more + [nl])[0] == more[0] && (more + [nl])[1..] == more[1..] + [nl];
      StripEndedFrom(line + [more[0]], more[1..], nl);
      assert line + [more[0]] + more[1..] == line + more;
    }
  }

  // --- Sections.

  // A section as written: its tags on one line with a body without newlines, or each on a line of
  // its own, around whole lines.
  function SectionText(kind: Kind, name: string, sp: Spacing, end: Spacing, eol: string, body: string): string
  {
    Written(kind, name, sp, TAGS) + (eol + (body + (Written(Closer, name, end, TAGS) + eol)))
  }

  ghost predicate Body(name: string, sp: Spacing, end: Spacing, eol: string, body: string) {
    && MustacheText.Delimiters(TAGS) && Clean(name, "}}", sp.name) && Clean(name, "}}", end.name)
    && Part(body, Written(Closer, name, end, TAGS) + eol)
    && ((eol == "" && '\n' !in body) || (eol == "\n" && (body == "" || body[|body| - 1] == '\n')))
  }

  lemma StripTagLine(t: Token, nl: Token)
    requires t.kind in {Section, Inverted, Closer} && IsNewline(nl)
    ensures Strip([t, nl]) == [t]
  {
    hide IsNewline, StripLine;
    TagLineStripped(t, nl);
    assert !IsNewline(t);
    var line := [t, nl];
    assert line[1..] == [nl] && [nl][1..] == [] && [] + [t] == [t] && [t] + [nl] == line && [t] + [] == [t];
    assert StripFrom([], line) == StripFrom([t], [nl]) == StripLine([t] + [nl]) + StripFrom([], []);
  }

  lemma TagLineStripped(t: Token, nl: Token)
    requires t.kind in {Section, Inverted, Closer} && IsNewline(nl)
    ensures !IsNewline(t) && StripLine([t, nl]) == [t]
  {
    hide IsNewline, IsBlank, Standalone, WithoutBlanks;
    TagAlone(t, nl);
    OneMoreToken([t], nl);
    OneMoreToken([], t);
    assert [] + [t] == [t] && [t] + [nl] == [t, nl];
    NoBlanks();
  }

  lemma TagAlone(t: Token, nl: Token)
    requires t.kind in {Section, Inverted, Closer} && IsNewline(nl)
    ensures !IsNewline(t) && Standalone([t, nl]) && IsBlank(nl) && !IsBlank(t)
  {
    assert "\n" == ['\n'];
    assert [t, nl][0].kind != Text;
  }

  // The tokens of a section.
  lemma SectionTokens(kind: Kind, name: string, sp: Spacing, end: Spacing, eol: string, body: string)
    returns (open: Token, inner: seq<Token>, close: Token)
    requires kind in {Section, Inverted} && Body(name, sp, end, eol, body)
    ensures open.kind == kind && close.kind == Closer && open.value == close.value == name
    ensures SameAll(inner, Lex(body, 0, TAGS).value) && Lex(body, 0, TAGS).Ok?
    ensures var s := SectionText(kind, name, sp, end, eol, body);
            Lex(s, 0, TAGS).Ok? &&
            SameAll(Lex(s, 0, TAGS).value, [open] + CharTokens(eol, 0) + inner + [close] + CharTokens(eol, 0))
  {
    hide Lex, Written, Clean, Follows, FinalTags, Tail, CharTokens, Parsed, SpaceFree;
    var wo, wc := Written(kind, name, sp, TAGS), Written(Closer, name, end, TAGS);
    var p1 := |wo|;
    var p2 := p1 + |eol|;
    var p3 := p2 + |body|;
    var p4 := p3 + |wc|;
    WrittenLex(kind, name, sp, TAGS, 0);
    WrittenLex(Closer, name, end, TAGS, p3);
    open, close := Token(kind, name, 0, p1), Token(Closer, name, p3, p4);
    EolLex(eol, "", p4);
    EmptyTail(wc, eol, TAGS);
    LexConcat(wc, eol, p3, TAGS);
    BodyLexes(name, sp, end, eol, body);
    LexShift(body, 0, p2, TAGS);
    LexConcat(body, wc + eol, p2, TAGS);
    inner := Lex(body, p2, TAGS).value;
    SameBack(Lex(body, 0, TAGS).value, inner);
    EolLex(eol, body + (wc + eol), p1);
    EmptyTail(wo, eol + (body + (wc + eol)), TAGS);
    LexConcat(wo, eol + (body + (wc + eol)), 0, TAGS);
    var e1, e2 := CharTokens(eol, p1), CharTokens(eol, p4);
    assert Lex(SectionText(kind, name, sp, end, eol, body), 0, TAGS) == Ok([open] + (e1 + (inner + ([close] + e2))));
    SameChars(eol, p1, 0);
    SameChars(eol, p4, 0);
    SameFive(open, e1, inner, close, e2, CharTokens(eol, 0));
  }

  lemma BodyLexes(name: string, sp: Spacing, end: Spacing, eol: string, body: string)
    requires Body(name, sp, end, eol, body)
    ensures Lex(body, 0, TAGS).Ok? && Follows(body, Written(Closer, name, end, TAGS) + eol, TAGS)
    ensures FinalTags(body, TAGS) == TAGS
  {
    hide Lex, Written, Clean, Follows, FinalTags;
  }

  // The end of a line, if any, and what follows it.
  lemma EolLex(eol: string, u: string, pos: nat)
    requires eol == "" || eol == "\n"
    ensures Lex(eol, pos, TAGS) == Ok(CharTokens(eol, pos))
    ensures Lex(u, pos + |eol|, TAGS).Ok? ==>
              Lex(eol + u, pos, TAGS) == Ok(CharTokens(eol, pos) + Lex(u, pos + |eol|, TAGS).value)
  {
    hide Lex, Search, Apart;
    DefaultTags();
    if eol == "" {
      LexEnd(pos, TAGS);
      assert eol + u == u && CharTokens("", pos) == [];
      AfterTwice([], [], Lex(u, pos, TAGS));
    } else {
      OneApart(eol, u);
      ConcatPlain(eol, u, pos, TAGS);
    }
  }

  lemma SameChars(s: string, p: nat, q: nat)
    ensures SameAll(CharTokens(s, p), CharTokens(s, q))
  {
  }

  lemma SameFive(open: Token, e1: seq<Token>, inner: seq<Token>, close: Token, e2: seq<Token>, e: seq<Token>)
    requires SameAll(e1, e) && SameAll(e2, e)
    ensures SameAll([open] + (e1 + (inner + ([close] + e2))), [open] + e + inner + [close] + e)
  {
  }

  lemma NoNewlineSame(a: seq<Token>, b: seq<Token>)
    requires NoNewline(b) && SameAll(a, b)
    ensures NoNewline(a)
  {
    hide IsNewline;
    forall t | t in a
      ensures !IsNewline(t)
    {
      var i :| 0 <= i < |a| && a[i] == t;
      assert b[i] in b;
      SameKinds(a[i], b[i]);
    }
  }

  lemma NoneStripped(open: Token, inner: seq<Token>, close: Token, b: seq<Token>)
    requires open.kind in {Section, Inverted} && close.kind == Closer && NoNewline(b) && SameAll(inner, b)
    ensures SameAll(Strip([open] + inner + [close]), [open] + Strip(b) + [close])
  {
    hide StripFrom, IsNewline, NoNewline;
    StripNone([], [], b);
    assert [] + b == b;
    NoNewlineSame(inner, b);
    var all := [open] + inner + [close];
    NoneWithTags(open, inner, close);
    StripNone([], [], all);
    assert [] + all == all;
    AroundSame(open, inner, close, b);
    assert all == [open] + (inner + [close]);
  }

  lemma NoneWithTags(open: Token, inner: seq<Token>, close: Token)
    requires open.kind in {Section, Inverted} && close.kind == Closer && NoNewline(inner)
    ensures NoNewline([open] + inner + [close])
  {
    assert !IsNewline(open) && !IsNewline(close);
    hide IsNewline;
  }

  lemma LinesStripped(open: Token, inner: seq<Token>, close: Token, nl: Token, b: seq<Token>)
    requires open.kind in {Section, Inverted} && close.kind == Closer && IsNewline(nl) && SameAll(inner, b)
    requires b == [] || IsNewline(b[|b| - 1])
    ensures SameAll(Strip([open, nl] + (inner + [close, nl])), [open] + Strip(b) + [close])
  {
    hide StripFrom, IsNewline;
    StripTagLine(open, nl);
    StripTagLine(close, nl);
    LastIs([open, nl], nl);
    StripLater([], [open, nl], inner + [close, nl]);
    InnerStripped(inner, close, nl, b);
    AroundSame(open, Strip(inner), close, Strip(b));
  }

  lemma LastIs(a: seq<Token>, t: Token)
    requires |a| == 2 && a[1] == t
    ensures a != [] && a[|a| - 1] == t
  {
  }

  lemma InnerStripped(inner: seq<Token>, close: Token, nl: Token, b: seq<Token>)
    requires SameAll(inner, b) && (b == [] || IsNewline(b[|b| - 1])) && Strip([close, nl]) == [close]
    ensures Strip(inner + [close, nl]) == Strip(inner) + [close] && SameAll(Strip(inner), Strip(b))
  {
    hide StripFrom, IsNewline;
    StripAll(inner, b);
    if inner != [] {
      SameKinds(inner[|inner| - 1], b[|b| - 1]);
      StripLater([], inner, [close, nl]);
    } else {
      StripNone([], [], []);
      assert inner + [close, nl] == [close, nl] && [] + [close] == [close];
    }
  }

  lemma AroundSame(open: Token, x: seq<Token>, close: Token, y: seq<Token>)
    requires SameAll(x, y)
    ensures SameAll([open] + (x + [close]), [open] + y + [close])
  {
  }

  // After stripping they are the two tags and the stripped tokens of the body.
  lemma SectionStripped(open: Token, inner: seq<Token>, close: Token, eol: string, body: string)
    requires open.kind in {Section, Inverted} && close.kind == Closer
    requires Lex(body, 0, TAGS).Ok? && SameAll(inner, Lex(body, 0, TAGS).value)
    requires (eol == "" && '\n' !in body) || (eol == "\n" && (body == "" || body[|body| - 1] == '\n'))
    ensures var e := CharTokens(eol, 0);
            SameAll(Strip([open] + e + inner + [close] + e), [open] + Strip(Lex(body, 0, TAGS).value) + [close])
  {
    hide Lex, Strip, IsNewline, NoNewline, SameAll;
    DefaultTags();
    var e, b := CharTokens(eol, 0), Lex(body, 0, TAGS).value;
    if eol == "" {
      assert [open] + e + inner + [close] + e == [open] + inner + [close];
      NoNewlineText(body, 0, TAGS);
      NoneStripped(open, inner, close, b);
    } else {
      var nl := e[0];
      assert e == [nl];
      LastNewline("\n", 0);
      EndsLine(body);
      LinesStripped(open, inner, close, nl, b);
      assert [open] + e + inner + [close] + e == [open, nl] + (inner + [close, nl]);
    }
  }

  lemma SectionTree(kind: Kind, name: string, sp: Spacing, end: Spacing, eol: string, body: string)
    returns (open: Token, x: seq<Node>)
    requires kind in {Section, Inverted} && Body(name, sp, end, eol, body)
    ensures open.kind == kind && open.value == name && Parsed(body, TAGS).Ok? && Alike(Parsed(body, TAGS).value, x)
    ensures var s := SectionText(kind, name, sp, end, eol, body);
            && Parsed(s, TAGS).Ok?
            && forall views: seq<Value>, partials: Partials, depth: nat :: views != [] ==>
                 Shown(s, views, partials, depth) == InterpOne(Branch(open, x), views, partials, depth)
  {
    hide Lex, Strip, Run, Interp, InterpOne, Alike, SameAll, SectionText, Parsed, Clean, Written, Follows, FinalTags;
    BodyParses(name, sp, end, eol, body);
    var inner, close;
    open, inner, close := SectionTokens(kind, name, sp, end, eol, body);
    var b;
    b, x := Behind(body);
    SectionStripped(open, inner, close, eol, body);
    RunSection(open, Strip(b), close, x);
    var s, e := SectionText(kind, name, sp, end, eol, body), CharTokens(eol, 0);
    var tokens := Lex(s, 0, TAGS).value;
    StripAll(tokens, [open] + e + inner + [close] + e);
    SameThrough(Strip(tokens), Strip([open] + e + inner + [close] + e), [open] + Strip(b) + [close]);
    ShownAs(s, tokens, [open] + Strip(b) + [close], [Branch(open, x)], [Null], map[], 0);
    forall views: seq<Value>, partials: Partials, depth: nat | views != []
      ensures Shown(s, views, partials, depth) == InterpOne(Branch(open, x), views, partials, depth)
    {
      ShownAs(s, tokens, [open] + Strip(b) + [close], [Branch(open, x)], views, partials, depth);
      InterpAlone(Branch(open, x), views, partials, depth);
    }
  }

  lemma BodyParses(name: string, sp: Spacing, end: Spacing, eol: string, body: string)
    requires Body(name, sp, end, eol, body)
    ensures Parsed(body, TAGS).Ok?
    ensures (eol == "" && '\n' !in body) || (eol == "\n" && (body == "" || body[|body| - 1] == '\n'))
  {
  }

  lemma StripAll(a: seq<Token>, b: seq<Token>)
    requires SameAll(a, b)
    ensures SameAll(Strip(a), Strip(b))
  {
    hide StripFrom;
    StripSame([], [], a, b);
  }

  lemma SameThrough(a: seq<Token>, b: seq<Token>, c: seq<Token>)
    requires SameAll(a, b) && SameAll(b, c)
    ensures SameAll(a, c)
  {
  }

  // The body once for each item, in its own context, in order.
  function EachShown(body: string, items: seq<Value>, views: seq<Value>, partials: Partials, depth: nat): Result<string>
    requires views != []
    decreases |items|
  {
    if items == [] then Ok("")
    else
      var r := Shown(body, [items[0]] + views, partials, depth);
      var q := EachShown(body, items[1..], views, partials, depth);
      if r.Err? then r else if q.Err? then q else Ok(r.value + q.value)
  }

  // A section shows its body once for each item of an array, the item's own names first; once inside
  // an object; once where it is for any other value that does not count as false; and not at all for
  // a value that does, or an empty array.
  lemma SectionShown(name: string, sp: Spacing, end: Spacing, eol: string, body: string, v: Value,
                     views: seq<Value>, partials: Partials, depth: nat)
    requires Body(name, sp, end, eol, body) && views != [] && Find(views, name) == Ok(v)
    ensures Shown(SectionText(Section, name, sp, end, eol, body), views, partials, depth) ==
              if v.Arr? then EachShown(body, v.items, views, partials, depth)
              else if v.Obj? then Shown(body, [v] + views, partials, depth)
              else if v in {Undefined, Null, Bool(false), Num("0"), Num("NaN"), Str("")} then Ok("")
              else Shown(body, views, partials, depth)
  {
    hide Interp, InterpItems, Parsed, SectionText, Body, Find;
    var open, x := SectionTree(Section, name, sp, end, eol, body);
    FalsyExactly(v);
    OneSection(open, x, v, views, partials, depth);
    if v.Arr? {
      ItemsShown(body, v.items, x, views, partials, depth);
    }
  }

  lemma OneSection(open: Token, x: seq<Node>, v: Value, views: seq<Value>, partials: Partials, depth: nat)
    requires open.kind == Section && views != [] && Find(views, open.value) == Ok(v)
    ensures InterpOne(Branch(open, x), views, partials, depth) ==
              if v.Arr? then InterpItems(v.items, x, views, partials, depth)
              else if v.Obj? then Interp(x, [v] + views, partials, depth)
              else if Falsy(v) then Ok("")
              else Interp(x, views, partials, depth)
  {
    hide Interp, InterpItems, Find, Falsy;
  }

  lemma {:induction false} ItemsShown(body: string, items: seq<Value>, x: seq<Node>, views: seq<Value>,
                                      partials: Partials, depth: nat)
    requires views != [] && Parsed(body, TAGS).Ok? && Alike(Parsed(body, TAGS).value, x)
    ensures InterpItems(items, x, views, partials, depth) == EachShown(body, items, views, partials, depth)
    decreases |items|
  {
    hide Interp, Parsed;
    if items != [] {
      ItemsShown(body, items[1..], x, views, partials, depth);
    }
  }

  // Its inverted twin shows the body exactly for the values for which a section does not.
  lemma InvertedShown(name: string, sp: Spacing, end: Spacing, eol: string, body: string, v: Value,
                      views: seq<Value>, partials: Partials, depth: nat)
    requires Body(name, sp, end, eol, body) && views != [] && Find(views, name) == Ok(v)
    ensures Shown(SectionText(Inverted, name, sp, end, eol, body), views, partials, depth) ==
              if v in {Undefined, Null, Bool(false), Num("0"), Num("NaN"), Str(""), Arr([])} then
                Shown(body, views, partials, depth)
              else Ok("")
  {
    hide Interp, Parsed, SectionText, Body, Find;
    var open, x := SectionTree(Inverted, name, sp, end, eol, body);
  }

  // --- What a writer renders with one view.

  lemma Unspaced(mark: string, name: string, end: string)
    ensures "{{" + Blanks(0) + mark + Blanks(0) + name + Blanks(0) + end == "{{" + mark + name + end
    ensures "{{" + Blanks(0) + name + Blanks(0) + end == "{{" + name + end
  {
    assert Blanks(0) == "";
  }

  // A view with a text under the name: escaped between two braces, as it is between three.
  lemma TextRendered(c: Caches, name: string, fields: map<string, Value>, s: string, depth: nat)
    requires CachedWith(c.origin, (_: string) => TAGS)
    requires name in fields && fields[name] == Str(s) && '.' !in name
    requires Clean(name, "}}", 0) && (name + "}}")[0] !in "#^/>{&=!"
    ensures var escaped := Rendered(c, "{{" + name + "}}", Obj(fields), [], depth).1;
            escaped == Ok(MustacheEscape.EscapeHtml(s)) && MustacheEscape.Unescape(escaped.value) == s
  {
    hide Clean, Shown, Rendered, CachedWith, Find, MustacheEscape.EscapeHtml;
    FindNearest([Obj(fields)], name, 0, Str(s));
    NameShown(name, 0, 0, Str(s), [Obj(fields)], c.trees, depth);
    Unspaced("", name, "}}");
    RenderedShown(c, "{{" + name + "}}", Obj(fields), depth);
  }

  lemma RawRendered(c: Caches, name: string, fields: map<string, Value>, s: string, depth: nat)
    requires CachedWith(c.origin, (_: string) => TAGS)
    requires name in fields && fields[name] == Str(s) && '.' !in name
    ensures Clean(name, "}}}", 0) ==> Rendered(c, "{{" + "{" + name + "}}}", Obj(fields), [], depth).1 == Ok(s)
    ensures Clean(name, "}}", 0) ==> Rendered(c, "{{" + "&" + name + "}}", Obj(fields), [], depth).1 == Ok(s)
  {
    hide Clean, Shown, Rendered, CachedWith, Find;
    FindNearest([Obj(fields)], name, 0, Str(s));
    RawShown(name, 0, 0, 0, Str(s), [Obj(fields)], c.trees, depth);
    Unspaced("{", name, "}}}");
    Unspaced("&", name, "}}");
    RenderedShown(c, "{{" + "{" + name + "}}}", Obj(fields), depth);
    RenderedShown(c, "{{" + "&" + name + "}}", Obj(fields), depth);
  }

  // A partial that comes with the call renders as its template does, with the same view.
  lemma PartialRendered(c: Caches, name: string, template: string, view: Value, depth: nat)
    requires CachedWith(c.origin, (_: string) => TAGS) && depth > 0 && Clean(name, "}}", 0)
    requires Parsed(template, TAGS).Ok?
    ensures Rendered(c, "{{>" + name + "}}", view, [(name, template)], depth).1 ==
              Shown(template, [view], c.trees[name := Parsed(template, TAGS).value], depth - 1)
  {
    hide Parsed, Interp, Clean;
    var partials := [(name, template)];
    assert partials[1..] == [];
    OneInvisible(c, Render("{{>" + name + "}}", view, partials, depth), (_: string) => TAGS);
    var trees := c.trees[name := Parsed(template, TAGS).value];
    assert PlainPartials(trees, []) == (trees, None);
    assert PlainPartials(c.trees, partials) == (trees, None);
    PartialShown(name, 0, 0, 0, template, [view], trees, depth);
    Unspaced(">", name, "}}");
    assert "{{" + ">" + name == "{{>" + name;
  }

  // After clearing, no partial of before is known any more.
  lemma ClearedRenders(c: Caches, name: string, view: Value, depth: nat)
    requires Clean(name, "}}", 0)
    ensures Rendered(Do(c, ClearCache).0, "{{>" + name + "}}", view, [], depth).1 == Ok("")
  {
    hide Parsed, Interp, Clean, Rendered;
    var cleared := Do(c, ClearCache).0;
    assert cleared == Caches(map[], map[]);
    PartialShown(name, 0, 0, 0, "", [view], map[], depth);
    Unspaced(">", name, "}}");
    assert "{{" + ">" + name == "{{>" + name;
    RenderedShown(cleared, "{{>" + name + "}}", view, depth);
  }
}
