// Parsing templates that are put together from parts.
module MustacheParts {
  import opened Wrappers
  import opened Sequences
  import opened MustacheScanner
  import opened MustacheLexer
  import opened MustacheText
  import opened MustacheStrip
  import opened MustacheNest
  import opened MustacheTemplate
  import opened MustacheAlike

  ghost predicate SameAll(a: seq<Token>, b: seq<Token>) {
    |a| == |b| && forall i :: 0 <= i < |a| ==> Same(a[i], b[i])
  }

  // Where a template stands does not change what its tokens are.
  lemma {:induction false} LexShift(s: string, p: nat, q: nat, tags: seq<string>)
    requires Lex(s, p, tags).Ok?
    ensures Lex(s, q, tags).Ok? && SameAll(Lex(s, p, tags).value, Lex(s, q, tags).value)
    decreases |s|
  {
    hide Lex, TagAt, TakeLen, Search, MatchLen, SkipTo, Skipped;
    if |tags| != 2 {
      LexBadTags(s, p, tags);
    } else if s == "" {
      LexEnd(p, tags);
      LexEnd(q, tags);
    } else {
      LexRound(s, p, tags);
      LexRound(s, q, tags);
      var s1 := SkipTo(OpenTag(tags[0]), s);
      var n := |Skipped(OpenTag(tags[0]), s)|;
      if TakeLen(OpenTag(tags[0]), s1) > 0 {
        TagShift(s1, p + n, q + n, tags[0], tags[1]);
        var (t, rest) := TagAt(s1, p + n, tags[0], tags[1]).value;
        var u := TagAt(s1, q + n, tags[0], tags[1]).value.0;
        NextIs(t, u, tags);
        TagShortens(s1, p + n, tags[0], tags[1]);
        LexShift(rest, t.end, u.end, NextTags(t, tags));
      }
    }
  }

  lemma NextIs(a: Token, b: Token, tags: seq<string>)
    requires a.kind == b.kind && a.value == b.value
    ensures NextTags(a, tags) == NextTags(b, tags)
  {
  }

  lemma TagShortens(s: string, pos: nat, open: string, close: string)
    requires TakeLen(OpenTag(open), s) > 0 && TagAt(s, pos, open, close).Ok?
    ensures |TagAt(s, pos, open, close).value.1| < |s|
  {
  }

  lemma SameKinds(t: Token, u: Token)
    requires Same(t, u)
    ensures IsNewline(t) == IsNewline(u) && IsBlank(t) == IsBlank(u) && IsSolid(t) == IsSolid(u)
  {
    hide IsSpace;
  }

  lemma {:induction false} WithoutSame(a: seq<Token>, b: seq<Token>)
    requires SameAll(a, b)
    ensures SameAll(WithoutBlanks(a), WithoutBlanks(b))
  {
    hide IsBlank;
    if a != [] {
      var n := |a| - 1;
      SameKinds(a[n], b[n]);
      WithoutSame(a[..n], b[..n]);
    }
  }

  lemma StandaloneSame(a: seq<Token>, b: seq<Token>)
    requires SameAll(a, b)
    ensures Standalone(a) ==> Standalone(b)
  {
    hide IsSolid;
    forall i | 0 <= i < |a|
      ensures IsSolid(a[i]) == IsSolid(b[i])
    {
      SameKinds(a[i], b[i]);
    }
    if Standalone(a) {
      var i :| 0 <= i < |a| && a[i].kind != Text;
      assert b[i].kind != Text;
    }
  }

  lemma LineSame(a: seq<Token>, b: seq<Token>)
    requires SameAll(a, b)
    ensures SameAll(StripLine(a), StripLine(b))
  {
    hide Standalone, WithoutBlanks;
    StandaloneSame(a, b);
    StandaloneSame(b, a);
    WithoutSame(a, b);
  }

  lemma {:induction false} StripSame(line: seq<Token>, line': seq<Token>, a: seq<Token>, b: seq<Token>)
    requires SameAll(line, line') && SameAll(a, b)
    ensures SameAll(StripFrom(line, a), StripFrom(line', b))
    decreases |a|
  {
    hide IsNewline, StripLine;
    if a != [] {
      SameKinds(a[0], b[0]);
      if IsNewline(a[0]) {
        LineSame(line + [a[0]], line' + [b[0]]);
        StripSame([], [], a[1..], b[1..]);
      } else {
        StripSame(line + [a[0]], line' + [b[0]], a[1..], b[1..]);
      }
    }
  }

  // A line that has not ended is taken up by the next tokens.
  lemma {:induction false} StripLater(line: seq<Token>, a: seq<Token>, b: seq<Token>)
    requires a != [] && IsNewline(a[|a| - 1])
    ensures StripFrom(line, a + b) == StripFrom(line, a) + StripFrom([], b)
    decreases |a|
  {
    hide IsNewline, StripLine;
    assert (a + b)[0] == a[0] && (a + b)[1..] == a[1..] + b;
    if |a| == 1 {
      assert a[1..] + b == b && a[1..] == [];
      assert StripFrom([], []) == [];
      assert StripLine(line + [a[0]]) + [] == StripLine(line + [a[0]]);
    } else if IsNewline(a[0]) {
      StripLater([], a[1..], b);
    } else {
      StripLater(line + [a[0]], a[1..], b);
    }
  }

  ghost predicate NoNewline(tokens: seq<Token>) {
    forall t <- tokens :: !IsNewline(t)
  }

  lemma {:induction false} StripNone(line: seq<Token>, a: seq<Token>, b: seq<Token>)
    requires NoNewline(b)
    ensures StripFrom(line, b) == line + b
    ensures StripFrom(line, a + b) == StripFrom(line, a) + b
    decreases |a|, |b|
  {
    hide IsNewline, StripLine;
    if a != [] {
      assert (a + b)[0] == a[0] && (a + b)[1..] == a[1..] + b;
      StripNone(line, [], b);
      if IsNewline(a[0]) {
        StripNone([], a[1..], b);
      } else {
        StripNone(line + [a[0]], a[1..], b);
      }
    } else {
      assert a + b == b && line + [] == line;
      if b != [] {
        NoneLater(b);
        StripNone(line + [b[0]], [], b[1..]);
        FirstAndRest(line, b);
      } else {
        assert line + b == line;
      }
    }
  }

  lemma NoneLater(b: seq<Token>)
    requires NoNewline(b) && b != []
    ensures !IsNewline(b[0]) && NoNewline(b[1..])
  {
    assert b[0] in b && forall t <- b[1..] :: t in b;
  }

  lemma FirstAndRest(line: seq<Token>, b: seq<Token>)
    requires b != []
    ensures line + [b[0]] + b[1..] == line + b
  {
  }

  // The line that has not ended, and the first line up to its newline.
  function LastLine(line: seq<Token>, a: seq<Token>): seq<Token>
    decreases |a|
  {
    if a == [] then line
    else if IsNewline(a[0]) then LastLine([], a[1..])
    else LastLine(line + [a[0]], a[1..])
  }

  function FirstLine(b: seq<Token>): seq<Token> {
    if b == [] then [] else if IsNewline(b[0]) then [b[0]] else [b[0]] + FirstLine(b[1..])
  }

  predicate HasBlank(line: seq<Token>) {
    exists i :: 0 <= i < |line| && IsBlank(line[i])
  }

  // The line that goes on from the first part into the second keeps white space, or loses it, as
  // its two pieces do on their own.
  ghost predicate LinesApart(a: seq<Token>, b: seq<Token>) {
    var last, first := LastLine([], a), FirstLine(b);
    || NoNewline(b)
    || (if Standalone(last + first) then HasTag(first) && !HasBlank(last) else !Standalone(first))
  }

  // Exactly then the two are stripped apart.
  lemma StripConcat(a: seq<Token>, b: seq<Token>)
    ensures Strip(a + b) == Strip(a) + Strip(b) <==> LinesApart(a, b)
  {
    hide IsNewline, StripLine, NoNewline, Standalone, HasTag, HasBlank, StripFrom, LastLine, FirstLine;
    var front := Lined([], a, b);
    var last := LastLine([], a);
    if NoNewline(b) {
      StripNone([], a, b);
      StripNone([], [], b);
      assert [] + b == b;
    } else {
      var first := FirstLine(b);
      var rest := FirstLined(last, b);
      var rest' := FirstLined([], b);
      assert rest' == b[|first|..] == rest && [] + first == first;
      FirstEnds(b);
      BorderExactly(last, first);
      Cancel(front, last, StripLine(last + first), StripLine(first), StripFrom([], rest));
    }
  }

  lemma Cancel(front: seq<Token>, last: seq<Token>, x: seq<Token>, y: seq<Token>, rest: seq<Token>)
    ensures front + (x + rest) == (front + last) + (y + rest) <==> x == last + y
  {
    assert (front + last) + (y + rest) == front + (last + y + rest);
    if front + (x + rest) == front + (last + y + rest) {
      assert x + rest == (front + (x + rest))[|front|..] == last + y + rest;
      assert |x| == |last + y|;
      assert x == (x + rest)[..|x|] == last + y;
    }
  }

  lemma {:induction false} Lined(line: seq<Token>, a: seq<Token>, b: seq<Token>) returns (front: seq<Token>)
    ensures StripFrom(line, a) == front + LastLine(line, a)
    ensures StripFrom(line, a + b) == front + StripFrom(LastLine(line, a), b)
    decreases |a|
  {
    hide IsNewline, StripLine;
    if a == [] {
      assert a + b == b;
      front := [];
    } else {
      assert (a + b)[0] == a[0] && (a + b)[1..] == a[1..] + b;
      if IsNewline(a[0]) {
        front := Lined([], a[1..], b);
        front := StripLine(line + [a[0]]) + front;
      } else {
        front := Lined(line + [a[0]], a[1..], b);
      }
    }
  }

  lemma {:induction false} FirstLined(line: seq<Token>, b: seq<Token>) returns (rest: seq<Token>)
    requires !NoNewline(b)
    ensures b == FirstLine(b) + rest && StripFrom(line, b) == StripLine(line + FirstLine(b)) + StripFrom([], rest)
    decreases |b|
  {
    hide IsNewline, StripLine;
    if IsNewline(b[0]) {
      rest := b[1..];
    } else {
      assert !NoNewline(b[1..]) by {
        var t :| t in b && IsNewline(t);
        assert t in b[1..];
      }
      rest := FirstLined(line + [b[0]], b[1..]);
      assert line + [b[0]] + FirstLine(b[1..]) == line + FirstLine(b);
    }
  }

  lemma {:induction false} FirstEnds(b: seq<Token>)
    requires !NoNewline(b)
    ensures var first := FirstLine(b); first != [] && IsNewline(first[|first| - 1])
  {
    hide IsNewline;
    if !IsNewline(b[0]) {
      assert !NoNewline(b[1..]) by {
        var t :| t in b && IsNewline(t);
        assert t in b[1..];
      }
      FirstEnds(b[1..]);
    }
  }

  lemma BorderExactly(last: seq<Token>, first: seq<Token>)
    requires first != [] && IsNewline(first[|first| - 1])
    ensures StripLine(last + first) == last + StripLine(first) <==>
              if Standalone(last + first) then HasTag(first) && !HasBlank(last) else !Standalone(first)
  {
    hide HasBlank, WithoutBlanks, IsBlank, HasTag, MustacheStrip.HasSolid;
    Together(last, first);
    BlanksTogether(last, first);
    BlanksGo(last);
    BlanksGo(first);
    assert HasBlank(first) by {
      NewlineBlank(first);
    }
    if Standalone(last + first) {
      assert Standalone(first) <==> HasTag(first);
      SameFront(WithoutBlanks(last), last, WithoutBlanks(first));
    } else {
      SameBehind(last, first, WithoutBlanks(first));
    }
  }

  lemma SameFront(x: seq<Token>, last: seq<Token>, y: seq<Token>)
    ensures x + y == last + y <==> x == last
  {
    if x + y == last + y {
      assert |x| == |last|;
      assert x == (x + y)[..|x|] == last;
    }
  }

  lemma SameBehind(last: seq<Token>, x: seq<Token>, y: seq<Token>)
    ensures last + x == last + y <==> x == y
  {
    if last + x == last + y {
      assert x == (last + x)[|last|..] == (last + y)[|last|..] == y;
    }
  }

  lemma NewlineBlank(line: seq<Token>)
    requires line != [] && IsNewline(line[|line| - 1])
    ensures HasBlank(line)
  {
    assert IsBlank(line[|line| - 1]);
  }

  lemma Together(a: seq<Token>, b: seq<Token>)
    ensures HasTag(a + b) <==> HasTag(a) || HasTag(b)
    ensures MustacheStrip.HasSolid(a + b) <==> MustacheStrip.HasSolid(a) || MustacheStrip.HasSolid(b)
  {
    hide IsSolid;
    assert forall i :: 0 <= i < |a| ==> (a + b)[i] == a[i];
    assert forall i :: 0 <= i < |b| ==> (a + b)[|a| + i] == b[i];
  }

  lemma {:induction false} BlanksTogether(a: seq<Token>, b: seq<Token>)
    ensures WithoutBlanks(a + b) == WithoutBlanks(a) + WithoutBlanks(b)
    decreases |b|
  {
    hide IsBlank, WithoutBlanks;
    if b == [] {
      NoBlanks();
      assert a + b == a && WithoutBlanks(a) + [] == WithoutBlanks(a);
    } else {
      var init, last := b[..|b| - 1], b[|b| - 1];
      BlanksTogether(a, init);
      OneMoreToken(init, last);
      OneMoreToken(a + init, last);
      assert a + b == a + init + [last] && b == init + [last];
      Associative(WithoutBlanks(a), WithoutBlanks(init), if IsBlank(last) then [] else [last]);
    }
  }

  lemma NoBlanks()
    ensures WithoutBlanks([]) == [] && !HasBlank([])
  {
  }

  lemma OneMoreToken(a: seq<Token>, t: Token)
    ensures WithoutBlanks(a + [t]) == WithoutBlanks(a) + if IsBlank(t) then [] else [t]
    ensures HasBlank(a + [t]) <==> HasBlank(a) || IsBlank(t)
  {
    hide IsBlank;
    assert (a + [t])[..|a|] == a && (a + [t])[|a|] == t;
    assert forall i :: 0 <= i < |a| ==> (a + [t])[i] == a[i];
  }

  lemma {:induction false} BlanksGo(a: seq<Token>)
    ensures |WithoutBlanks(a)| <= |a|
    ensures WithoutBlanks(a) == a <==> !HasBlank(a)
    ensures HasBlank(a) ==> |WithoutBlanks(a)| < |a|
  {
    hide IsBlank, HasBlank, WithoutBlanks;
    if a == [] {
      NoBlanks();
    } else {
      var init, last := a[..|a| - 1], a[|a| - 1];
      assert a == init + [last];
      BlanksGo(init);
      OneMoreToken(init, last);
    }
  }

  // A part that is empty or ends with its line does not run into the next.
  lemma {:induction false} LastEnded(line: seq<Token>, a: seq<Token>)
    requires a != [] && IsNewline(a[|a| - 1])
    ensures LastLine(line, a) == []
    decreases |a|
  {
    hide IsNewline;
    if |a| > 1 {
      LastEnded(if IsNewline(a[0]) then [] else line + [a[0]], a[1..]);
    }
  }

  lemma EndedApart(a: seq<Token>, b: seq<Token>)
    requires a == [] || IsNewline(a[|a| - 1]) || NoNewline(b)
    ensures LinesApart(a, b)
  {
    hide IsNewline, FirstLine, NoNewline, MustacheStrip.HasSolid;
    if a != [] && !NoNewline(b) {
      LastEnded([], a);
    }
    assert [] + FirstLine(b) == FirstLine(b);
  }

  // --- The tree of a template, up to what renders alike.

  const START: State := State([], [])

  lemma ParsedAlike(template: string, tags: seq<string>)
    requires Lex(template, 0, tags).Ok?
    ensures AlikeResult(Parsed(template, tags), Run(START, Strip(Lex(template, 0, tags).value)))
  {
    hide Lex, Strip, Run, AlikeResult, SquashOnto;
    var tokens := Strip(Lex(template, 0, tags).value);
    SquashAlike(START, [], tokens);
    assert [] + tokens == tokens;
    AlikeBack(Run(START, tokens), Run(START, Squash(tokens)));
  }

  lemma AlikeBack(a: Result<seq<Node>>, b: Result<seq<Node>>)
    requires AlikeResult(a, b)
    ensures AlikeResult(b, a)
  {
    hide MustacheRender.Interp;
  }

  lemma RunTwo(a: seq<Token>, b: seq<Token>, x: seq<Node>, y: seq<Node>)
    requires Run(START, a) == Ok(x) && Run(START, b) == Ok(y)
    ensures Run(START, a + b) == Ok(x + y)
  {
    hide Run, Matched, Flatten, Tree;
    NestExactly(a, x);
    NestExactly(b, y);
    var f :| Matched(f) && Flatten(f) == a && Tree(f) == x;
    var g :| Matched(g) && Flatten(g) == b && Tree(g) == y;
    Append(f, g);
    NestOf(f + g);
  }

  lemma RunSection(open: Token, a: seq<Token>, close: Token, x: seq<Node>)
    requires Opens(open) && close.kind == Closer && close.value == open.value && Run(START, a) == Ok(x)
    ensures Run(START, [open] + a + [close]) == Ok([Branch(open, x)])
  {
    hide Run, Matched, Flatten, Tree;
    NestExactly(a, x);
    var f :| Matched(f) && Flatten(f) == a && Tree(f) == x;
    BlockAlone(open, f, close);
    NestOf([Block(open, f, close)]);
  }

  lemma RunLeaf(t: Token)
    requires !Opens(t) && t.kind != Closer
    ensures Run(START, [t]) == Ok([Leaf(t)])
  {
    PlainAlone(t);
    NestOf([Plain(t)]);
  }

  // --- Newlines in the text of a template.

  lemma {:induction false} NoNewlineText(s: string, pos: nat, tags: seq<string>)
    requires '\n' !in s && Lex(s, pos, tags).Ok? && (|tags| == 2 ==> tags[0] != "" && tags[1] != "")
    ensures NoNewline(Lex(s, pos, tags).value)
  {
    hide Lex, Tiles;
    LexShift(s, pos, 0, tags);
    LexTiles(s, s, 0, tags);
    var a, b := Lex(s, pos, tags).value, Lex(s, 0, tags).value;
    forall t | t in a
      ensures !IsNewline(t)
    {
      var i :| 0 <= i < |a| && a[i] == t;
      SameKinds(a[i], b[i]);
      if b[i].kind == Text {
        var c := s[b[i].start];
        assert c in s && b[i].value == [c] && b[i].value[0] != '\n';
      }
    }
  }

  // The text behind the last tag is the end of the template; it is missing only if the template ends
  // with a tag, and then not with white space.
  lemma {:induction false} TailEnds(s: string, pos: nat, tags: seq<string>)
    requires MustacheText.Delimiters(tags) && Lex(s, pos, tags).Ok?
    ensures Suffix(Tail(s, tags), s)
    ensures s != "" && IsSpace(s[|s| - 1]) ==> Tail(s, tags) != ""
    decreases |s|
  {
    hide Lex, TagAt, TakeLen, Search, MatchLen, SkipTo, Skipped, CharTokens, SpaceFree, NextTags, IsSpace, Suffix;
    if s == "" {
      SuffixSelf(s);
    } else {
      FirstOpen(tags[0], s);
      if Search(OpenTag(tags[0]), s).None? {
        SuffixSelf(s);
      } else {
        TagRound(s, "", pos, tags);
        var s1 := SkipTo(OpenTag(tags[0]), s);
        var n := |s| - |s1|;
        var (token, rest) := TagAt(s1, pos + n, tags[0], tags[1]).value;
        NextDelimiters(s1, pos + n, tags);
        LexNext(rest, token.end, NextTags(token, tags));
        TailEnds(rest, token.end, NextTags(token, tags));
        TagSuffix(s1, pos + n, tags);
        SkippedIs(OpenTag(tags[0]), s);
        SuffixTransitive(rest, s1, s);
        SuffixTransitive(Tail(s, tags), rest, s);
        LastOf(rest, s);
        LastOf(s1, s);
      }
    }
  }

  lemma SuffixSelf(s: string)
    ensures Suffix(s, s)
  {
  }

  // What could be lexed was lexed with two delimiters.
  lemma LexNext(s: string, pos: nat, tags: seq<string>)
    requires |tags| == 2 ==> MustacheText.Delimiters(tags)
    ensures Lex(s, pos, tags).Ok? ==> MustacheText.Delimiters(tags)
  {
  }

  // Its characters are the last tokens.
  lemma {:induction false} TailLast(s: string, pos: nat, tags: seq<string>) returns (front: seq<Token>)
    requires MustacheText.Delimiters(tags) && Lex(s, pos, tags).Ok?
    ensures |Tail(s, tags)| <= |s|
    ensures Lex(s, pos, tags).value == front + CharTokens(Tail(s, tags), pos + |s| - |Tail(s, tags)|)
    decreases |s|
  {
    hide Lex, TagAt, TakeLen, Search, MatchLen, SkipTo, Skipped, CharTokens, SpaceFree, NextTags, IsSpace, Suffix,
      MustacheText.Delimiters;
    assert |tags| == 2 && tags[0] != "" by {
      TwoTags(tags);
    }
    front := [];
    if s == "" {
      LexEnd(pos, tags);
      NoChars(pos);
    } else {
      if Search(OpenTag(tags[0]), s).None? {
        NoTagTail(s, pos, tags);
        assert [] + CharTokens(s, pos) == CharTokens(s, pos);
      } else {
        TagRound(s, "", pos, tags);
        var s1 := SkipTo(OpenTag(tags[0]), s);
        var n := |s| - |s1|;
        var (token, rest) := TagAt(s1, pos + n, tags[0], tags[1]).value;
        NextDelimiters(s1, pos + n, tags);
        LexNext(rest, token.end, NextTags(token, tags));
        front := TailLast(rest, token.end, NextTags(token, tags));
        front := Longer(CharTokens(Skipped(OpenTag(tags[0]), s), pos) + [token], front,
                        CharTokens(Tail(s, tags), pos + |s| - |Tail(s, tags)|));
      }
    }
  }

  lemma TwoTags(tags: seq<string>)
    requires MustacheText.Delimiters(tags)
    ensures |tags| == 2 && tags[0] != "" && tags[1] != ""
  {
  }

  lemma NoTagTail(s: string, pos: nat, tags: seq<string>)
    requires MustacheText.Delimiters(tags) && s != "" && Search(OpenTag(tags[0]), s).None?
    ensures Tail(s, tags) == s && Lex(s, pos, tags) == Ok(CharTokens(s, pos))
  {
    hide Lex, TagAt, TakeLen, Search, MatchLen, SkipTo, Skipped, CharTokens, SpaceFree, NextTags, IsSpace, Suffix;
    FirstOpen(tags[0], s);
    LexRound(s, pos, tags);
    SkipAt(OpenTag(tags[0]), s);
    assert s[..|s|] == s;
  }

  lemma Longer(head: seq<Token>, more: seq<Token>, last: seq<Token>) returns (front: seq<Token>)
    ensures front + last == head + (more + last)
  {
    front := head + more;
  }

  lemma NoChars(pos: nat)
    ensures CharTokens("", pos) == []
  {
  }

  lemma LastOf(a: string, s: string)
    ensures Suffix(a, s) && a != "" ==> s != "" && a[|a| - 1] == s[|s| - 1]
  {
  }

  lemma CloseEnds(close: string, s: string)
    requires close != "" && SpaceFree(close) && TakeLen(CloseTag(close), s) > 0 && Past(CloseTag(close), s) == ""
    ensures s != "" && !IsSpace(s[|s| - 1])
  {
    hide IsSpace;
    CloseIs(close, s);
    var r := SpaceRun(s);
    assert s[r..] == close;
    assert close[|close| - 1] in close && s[|s| - 1] == close[|close| - 1];
  }

  // A tag ends with its closing delimiter, which is no white space.
  lemma TagSuffix(s: string, pos: nat, tags: seq<string>)
    requires MustacheText.Delimiters(tags) && TakeLen(OpenTag(tags[0]), s) > 0 && TagAt(s, pos, tags[0], tags[1]).Ok?
    ensures var rest := TagAt(s, pos, tags[0], tags[1]).value.1;
            Suffix(rest, s) && (rest == "" ==> s != "" && !IsSpace(s[|s| - 1]))
  {
    hide Opening, Inside, TakeLen, Past, IsSpace, SpaceFree, Suffix;
    var (kind, s1) := Opening(s, tags[0]);
    var s2 := Inside(kind, s1, tags[1]).1;
    if Past(CloseTag(tags[1]), s2) == "" {
      CloseEnds(tags[1], s2);
      SuffixTransitive(s2, s1, s);
      LastOf(s2, s);
    }
  }
}
