// The scanning loop of mustache.js's parse, with its shared buffer of tokens.
module MustacheParse {
  import opened Wrappers
  import opened MustacheScanner
  import opened MustacheLexer
  import opened MustacheStrip

  // Where the blanks of a line stand, if the line begins at `offset`.
  function Blanks(line: seq<Token>, offset: nat): seq<nat> {
    if line == [] then []
    else
      Blanks(line[..|line| - 1], offset) +
      if IsBlank(line[|line| - 1]) then [offset + |line| - 1] else []
  }

  lemma {:induction false} WithoutBlanksConcat(a: seq<Token>, b: seq<Token>)
    ensures WithoutBlanks(a + b) == WithoutBlanks(a) + WithoutBlanks(b)
    decreases |b|
  {
    if b == [] {
      assert a + b == a;
    } else {
      WithoutBlanksConcat(a, b[..|b| - 1]);
      assert (a + b)[..|a + b| - 1] == a + b[..|b| - 1];
    }
  }

  lemma NoBlanks(offset: nat)
    ensures Blanks([], offset) == [] && WithoutBlanks([]) == []
  {
  }

  lemma OneBlank(t: Token)
    ensures WithoutBlanks([t]) == if IsBlank(t) then [] else [t]
  {
    hide IsBlank;
    assert [t][..0] == [];
    assert WithoutBlanks([]) == [];
  }

  lemma {:induction false} NoBlanksLeft(line: seq<Token>, offset: nat)
    requires Blanks(line, offset) == []
    ensures WithoutBlanks(line) == line
  {
    hide IsBlank;
    if line != [] {
      NoBlanksLeft(line[..|line| - 1], offset);
      assert line == line[..|line| - 1] + [line[|line| - 1]];
    }
  }

  lemma LineGrows(line: seq<Token>, offset: nat, token: Token)
    ensures var more := line + [token];
            && Blanks(more, offset) == Blanks(line, offset) + (if IsBlank(token) then [offset + |line|] else [])
            && HasTag(more) == (HasTag(line) || token.kind != Text)
            && HasSolid(more) == (HasSolid(line) || IsSolid(token))
  {
    hide IsBlank, IsSolid;
    var more := line + [token];
    assert more[..|line|] == line && more[|line|] == token;
    assert forall i :: 0 <= i < |line| ==> more[i] == line[i];
  }

  // The last recorded blank is the last blank of the line.
  lemma {:induction false} LastBlank(line: seq<Token>, offset: nat) returns (m: nat)
    requires Blanks(line, offset) != []
    ensures m < |line| && IsBlank(line[m])
    ensures Blanks(line, offset) == Blanks(line[..m], offset) + [offset + m]
    ensures WithoutBlanks(line[m + 1..]) == line[m + 1..]
  {
    hide *;
    NoBlanks(offset);
    var before, last := line[..|line| - 1], line[|line| - 1];
    assert line == before + [last];
    LineGrows(before, offset, last);
    if IsBlank(last) {
      m := |before|;
      AtEnd(before, last);
    } else {
      m := LastBlank(before, offset);
      OneMore(before, last, m);
    }
  }

  lemma AtEnd(before: seq<Token>, last: Token)
    ensures var line, m := before + [last], |before|;
            line[m] == last && line[..m] == before && line[m + 1..] == []
  {
  }

  lemma OneMore(before: seq<Token>, last: Token, m: nat)
    requires m < |before| && WithoutBlanks(before[m + 1..]) == before[m + 1..] && !IsBlank(last)
    ensures var line := before + [last];
            && line[m] == before[m] && line[..m] == before[..m]
            && WithoutBlanks(line[m + 1..]) == line[m + 1..]
  {
    hide *;
    var line := before + [last];
    assert line[m + 1..] == before[m + 1..] + [last];
    OneBlank(last);
    WithoutBlanksConcat(before[m + 1..], [last]);
  }

  // Splicing out the last recorded blank of line[..j], when those from j on are gone.
  lemma SpliceBlank(kept: seq<Token>, line: seq<Token>, j: nat) returns (m: nat)
    requires j <= |line| && Blanks(line[..j], |kept|) != []
    ensures m < j && Blanks(line[..j], |kept|) == Blanks(line[..m], |kept|) + [|kept| + m]
    ensures var all := kept + (line[..j] + WithoutBlanks(line[j..]));
            all[..|kept| + m] + all[|kept| + m + 1..] == kept + (line[..m] + WithoutBlanks(line[m..]))
  {
    hide WithoutBlanks, Blanks, IsBlank;
    m := LastBlank(line[..j], |kept|);
    Cut(line, m, j);
    BlankGoes(line[m], line[m + 1..j], line[j..]);
    SpliceAt(kept, line[..m], line[m], line[m + 1..j], WithoutBlanks(line[j..]));
  }

  lemma Cut(line: seq<Token>, m: nat, j: nat)
    requires m < j <= |line|
    ensures line[..j][..m] == line[..m] && line[..j][m + 1..] == line[m + 1..j]
    ensures line[..j] == line[..m] + [line[m]] + line[m + 1..j]
    ensures line[m..] == [line[m]] + line[m + 1..j] + line[j..]
  {
  }

  lemma BlankGoes(blank: Token, c: seq<Token>, d: seq<Token>)
    requires IsBlank(blank) && WithoutBlanks(c) == c
    ensures WithoutBlanks([blank] + c + d) == c + WithoutBlanks(d)
  {
    OneBlank(blank);
    hide IsBlank, WithoutBlanks;
    WithoutBlanksConcat([blank] + c, d);
    WithoutBlanksConcat([blank], c);
  }

  lemma SpliceAt(kept: seq<Token>, a: seq<Token>, blank: Token, c: seq<Token>, w: seq<Token>)
    ensures var all, at := kept + (a + [blank] + c + w), |kept| + |a|;
            all[..at] + all[at + 1..] == kept + (a + (c + w))
  {
    var all, at := kept + (a + [blank] + c + w), |kept| + |a|;
    assert all[..at] == kept + a;
    assert all[at + 1..] == c + w;
  }

  // Of the tokens pushed so far, `kept` is what is left of the finished lines, and `line` is
  // the current one.
  ghost predicate Split(raw: seq<Token>, kept: seq<Token>, line: seq<Token>) {
    forall rest :: StripFrom([], raw + rest) == kept + StripFrom(line, rest)
  }

  lemma SplitGrows(raw: seq<Token>, kept: seq<Token>, line: seq<Token>, token: Token)
    requires Split(raw, kept, line)
    ensures if IsNewline(token) then Split(raw + [token], kept + StripLine(line + [token]), [])
            else Split(raw + [token], kept, line + [token])
  {
    hide IsNewline, StripLine;
    forall rest: seq<Token>
      ensures StripFrom([], raw + [token] + rest) ==
              if IsNewline(token) then kept + StripLine(line + [token]) + StripFrom([], rest)
              else kept + StripFrom(line + [token], rest)
    {
      assert raw + [token] + rest == raw + ([token] + rest);
      assert ([token] + rest)[1..] == rest;
    }
  }

  lemma SplitNothing()
    ensures Split([], [], [])
  {
    assert forall rest: seq<Token> :: [] + rest == rest;
  }

  lemma SplitDone(raw: seq<Token>, kept: seq<Token>, line: seq<Token>)
    requires Split(raw, kept, line)
    ensures Strip(raw) == kept + line
  {
    assert raw + [] == raw;
    assert StripFrom(line, []) == line;
  }

  // tokens, spaces, hasTag and nonSpace, as the loop and stripSpace share them.
  class TokenBuffer {
    var tokens: seq<Token>
    var spaces: seq<nat>
    var hasTag: bool
    var nonSpace: bool
    ghost var raw: seq<Token>
    ghost var kept: seq<Token>
    ghost var line: seq<Token>

    ghost predicate Flags()
      reads this
    {
      && tokens == kept + line
      && spaces == Blanks(line, |kept|)
      && hasTag == HasTag(line)
      && nonSpace == HasSolid(line)
    }

    ghost predicate Valid()
      reads this
    {
      Flags() && Split(raw, kept, line)
    }

    constructor ()
      ensures Valid() && raw == []
    {
      tokens, spaces, hasTag, nonSpace := [], [], false, false;
      raw, kept, line := [], [], [];
      new;
      SplitNothing();
      NoBlanks(0);
    }

    lemma Finished()
      requires Valid()
      ensures tokens == Strip(raw)
    {
      SplitDone(raw, kept, line);
    }

    // Throw away the blanks of the current line if it holds a tag and nothing that prints.
    method StripSpace()
      requires Flags()
      modifies this`tokens, this`spaces, this`hasTag, this`nonSpace
      ensures tokens == kept + StripLine(line) && spaces == [] && !hasTag && !nonSpace
    {
      hide IsBlank, IsSolid, HasTag, HasSolid, WithoutBlanks, Blanks;
      NoBlanks(0);
      if hasTag && !nonSpace {
        ghost var j := |line|;
        assert line[..j] == line && line[j..] == [];
        while spaces != []
          invariant 0 <= j <= |line|
          invariant tokens == kept + (line[..j] + WithoutBlanks(line[j..]))
          invariant spaces == Blanks(line[..j], |kept|)
          decreases j
        {
          ghost var m := SpliceBlank(kept, line, j);
          var at := spaces[|spaces| - 1];
          spaces := spaces[..|spaces| - 1];
          tokens := tokens[..at] + tokens[at + 1..];
          j := m;
        }
        NoBlanksLeft(line[..j], |kept|);
        WithoutBlanksConcat(line[..j], line[j..]);
        assert line[..j] + line[j..] == line;
      } else {
        spaces := [];
      }
      hasTag := false;
      nonSpace := false;
    }

    method PushChar(chr: char, start: nat)
      requires Valid()
      modifies this
      ensures Valid() && raw == old(raw) + [Token(Text, [chr], start, start + 1)]
    {
      hide StripFrom, Split, HasTag, HasSolid, Blanks, IsSpace, StripLine;
      var token := Token(Text, [chr], start, start + 1);
      LineGrows(line, |kept|, token);
      SplitGrows(raw, kept, line, token);
      if IsSpace(chr) {
        spaces := spaces + [|tokens|];
      } else {
        nonSpace := true;
      }
      tokens := tokens + [token];
      raw, line := raw + [token], line + [token];
      if chr == '\n' {
        NewlineOnly(token);
        StripSpace();
        kept, line := kept + StripLine(line), [];
        EmptyLine(|kept|);
      }
    }

    method PushTag(token: Token)
      requires Valid() && token.kind != Text
      modifies this
      ensures Valid() && raw == old(raw) + [token]
    {
      hide StripFrom, Split, HasTag, HasSolid, Blanks, IsSpace, StripLine;
      LineGrows(line, |kept|, token);
      SplitGrows(raw, kept, line, token);
      hasTag := true;
      tokens := tokens + [token];
      if token.kind == Name || token.kind == Brace || token.kind == Unescaped {
        nonSpace := true;
      }
      raw, line := raw + [token], line + [token];
    }
  }

  lemma NewlineOnly(token: Token)
    requires token.kind == Text && |token.value| == 1
    ensures IsNewline(token) <==> token.value[0] == '\n'
  {
  }

  lemma EmptyLine(offset: nat)
    ensures Blanks([], offset) == [] && !HasTag([]) && !HasSolid([])
  {
  }

  // The value of a tag, as far as the place where the closing tag is due.
  method ScanInside(scanner: Scanner, kind: Kind, close: string) returns (value: string)
    requires scanner.Valid()
    modifies scanner
    ensures scanner.Valid() && (value, scanner.tail) == Inside(kind, old(scanner.tail), close)
    ensures scanner.pos == old(scanner.pos) + |old(scanner.tail)| - |scanner.tail|
  {
    hide SkipTo, Skipped, Past, Taken, TakeLen;
    if kind == SetTags {
      value := scanner.ScanUntil(CloseTag("="));
      var _ := scanner.Scan(CloseTag("="));
      var _ := scanner.ScanUntil(CloseTag(close));
    } else if kind == Brace {
      value := scanner.ScanUntil(CloseTag("}" + close));
      var _ := scanner.Scan(CloseTag("}"));
      var _ := scanner.ScanUntil(CloseTag(close));
    } else {
      value := scanner.ScanUntil(CloseTag(close));
    }
  }

  // The rest of a tag whose opening delimiter has just been scanned at `start`.
  method ScanTag(scanner: Scanner, start: nat, open: string, close: string, ghost s: string) returns (r: Result<Token>)
    requires scanner.Valid() && TakeLen(OpenTag(open), s) > 0
    requires scanner.tail == Past(OpenTag(open), s) && scanner.pos == start + |s| - |scanner.tail|
    modifies scanner
    ensures scanner.Valid()
    ensures match TagAt(s, start, open, close)
            case Err(e) => r == Err(e)
            case Ok((token, rest)) => r == Ok(token) && scanner.tail == rest && scanner.pos == token.end
  {
    hide SkipTo, Skipped, Past, Taken, TakeLen, Inside, KindOf, Suffix;
    var mark := scanner.Scan(TagType);
    var kind := if mark == "" then Name else KindOf(mark[0]);
    var _ := scanner.Scan(White);
    ghost var s3 := scanner.tail;
    assert Opening(s, open) == (kind, s3);
    var value := ScanInside(scanner, kind, close);
    assert Inside(kind, s3, close) == (value, scanner.tail);
    var closed := scanner.Scan(CloseTag(close));
    if closed == "" {
      return Err("Unclosed tag at " + Decimal.ToString(scanner.pos));
    }
    r := Ok(Token(if kind == Brace then Unescaped else kind, value, start, scanner.pos));
  }

  lemma AfterAfter(a: seq<Token>, b: seq<Token>, r: Result<seq<Token>>)
    ensures After(a, After(b, r)) == After(a + b, r)
  {
    if r.Ok? {
      assert a + (b + r.value) == a + b + r.value;
    }
  }

  lemma AfterNothing(r: Result<seq<Token>>)
    ensures After([], r) == r
  {
    if r.Ok? {
      assert [] + r.value == r.value;
    }
  }

  lemma AfterOk(a: seq<Token>, b: seq<Token>)
    ensures After(a, Ok(b)) == Ok(a + b)
  {
  }

  lemma AfterErr(a: seq<Token>, e: string)
    ensures After(a, Err(e)) == Err(e)
  {
  }

  // The text before the next tag, one token a character.
  method PushText(buffer: TokenBuffer, value: string, start: nat)
    requires buffer.Valid()
    modifies buffer
    ensures buffer.Valid() && buffer.raw == old(buffer.raw) + CharTokens(value, start)
  {
    hide TokenBuffer.Valid;
    ghost var chars := CharTokens(value, start);
    for i := 0 to |value|
      invariant buffer.Valid() && buffer.raw == old(buffer.raw) + chars[..i]
    {
      buffer.PushChar(value[i], start + i);
      assert chars[..i + 1] == chars[..i] + [chars[i]];
    }
    assert chars[..|value|] == chars;
  }

  function Map(r: Result<seq<Token>>, f: seq<Token> -> seq<Token>): Result<seq<Token>> {
    match r case Err(e) => Err(e) case Ok(tokens) => Ok(f(tokens))
  }

  method ParseTokens(template: string, initial: seq<string>) returns (r: Result<seq<Token>>)
    ensures r == Map(Lex(template, 0, initial), Strip)
  {
    hide TakeLen, TagAt, SkipTo, Skipped, Past, Taken, Strip, Lex, TokenBuffer.Valid, SplitSpaces, JoinSpaces, After,
      Suffix;
    var tags := initial;
    if |tags| != 2 {
      LexBadTags(template, 0, tags);
      return Err("Invalid tags: " + JoinSpaces(tags));
    }
    var scanner := new Scanner(template);
    var buffer := new TokenBuffer();
    AfterNothing(Lex(template, 0, tags));
    while !scanner.Eos()
      invariant scanner.Valid() && buffer.Valid() && |tags| == 2
      invariant Lex(template, 0, initial) == After(buffer.raw, Lex(scanner.tail, scanner.pos, tags))
      modifies scanner, buffer
      decreases |scanner.tail|
    {
      ghost var s, raw := scanner.tail, buffer.raw;
      LexRound(s, scanner.pos, tags);
      var start := scanner.pos;
      var value := scanner.ScanUntil(OpenTag(tags[0]));
      PushText(buffer, value, start);
      ghost var text := CharTokens(value, start);
      start := scanner.pos;
      ghost var s1 := scanner.tail;
      var found := scanner.Scan(OpenTag(tags[0]));
      if found == "" {
        buffer.Finished();
        AfterOk(raw, text);
        return Ok(buffer.tokens);
      }
      var tag := ScanTag(scanner, start, tags[0], tags[1], s1);
      if tag.Err? {
        AfterErr(raw, tag.error);
        return Err(tag.error);
      }
      buffer.PushTag(tag.value);
      assert raw + text + [tag.value] == raw + (text + [tag.value]);
      AfterAfter(raw, text + [tag.value], Lex(scanner.tail, scanner.pos, NextTags(tag.value, tags)));
      if tag.value.kind == SetTags {
        tags := SplitSpaces(tag.value.value);
        if |tags| != 2 {
          LexBadTags(scanner.tail, scanner.pos, tags);
          AfterErr(buffer.raw, "Invalid tags: " + JoinSpaces(tags));
          return Err("Invalid tags: " + JoinSpaces(tags));
        }
      }
    }
    LexEnd(scanner.pos, tags);
    AfterOk(buffer.raw, []);
    assert buffer.raw + [] == buffer.raw;
    buffer.Finished();
    r := Ok(buffer.tokens);
  }

  // One token after those already squashed.
  lemma ExtendIs(squashed: seq<Token>, token: Token)
    ensures var n := |squashed|;
            Extend(squashed, token) ==
              if n > 0 && squashed[n - 1].kind == Text && token.kind == Text then
                squashed[..n - 1] +
                  [squashed[n - 1].(value := squashed[n - 1].value + token.value, end := token.end)]
              else squashed + [token]
  {
  }

  // Joining consecutive text tokens in place.
  method SquashTokens(tokens: seq<Token>) returns (r: seq<Token>)
    ensures r == Squash(tokens)
  {
    hide Extend;
    r := tokens;
    var i := 0;
    while i < |r|
      invariant 0 <= i <= |r|
      invariant SquashOnto(r[..i], r[i..]) == Squash(tokens)
      decreases |r| - i
    {
      ghost var before := r;
      var token := r[i];
      ExtendIs(r[..i], token);
      if i > 0 && r[i - 1].kind == Text && token.kind == Text {
        var lastToken := r[i - 1];
        r := r[i - 1 := lastToken.(value := lastToken.value + token.value, end := token.end)];
        r := r[..i] + r[i + 1..];
        assert r[..i] == Extend(before[..i], token) && r[i..] == before[i + 1..];
      } else {
        assert r[..i + 1] == Extend(r[..i], token);
        i := i + 1;
      }
    }
    assert r[..i] == r && r[i..] == [];
  }

  // Position p was white space on a line of its own tags.
  ghost predicate DroppedAt(raw: seq<Token>, p: nat) {
    exists i :: Dropped(raw, i) && raw[i].start == p
  }

  lemma LiteralSlices(raw: seq<Token>, stripped: seq<Token>, template: string)
    requires Literal(raw, template)
    requires forall t :: t in stripped ==> Survives(raw, t)
    ensures Slices(stripped, template)
  {
    forall i | 0 <= i < |stripped| && stripped[i].kind == Text
      ensures stripped[i].start <= stripped[i].end <= |template|
      ensures stripped[i].value == template[stripped[i].start..stripped[i].end]
    {
      assert stripped[i] in stripped;
      var j :| 0 <= j < |raw| && raw[j] == stripped[i];
    }
  }

  lemma CoveredOnce(raw: seq<Token>, stripped: seq<Token>, template: string, p: nat)
    requires Ordered(raw, 0, |template|) && Literal(raw, template) && Covers(raw, p)
    requires forall t :: t in stripped <==> Survives(raw, t)
    ensures Covers(stripped, p) <==> !DroppedAt(raw, p)
  {
    hide StandaloneLine, IsSpace;
    var i :| 0 <= i < |raw| && raw[i].start <= p < raw[i].end;
    if Covers(stripped, p) {
      var k :| 0 <= k < |stripped| && stripped[k].start <= p < stripped[k].end;
      assert stripped[k] in stripped;
      var j :| 0 <= j < |raw| && raw[j] == stripped[k] && !Dropped(raw, j);
      assert j == i;
    }
    if !Dropped(raw, i) {
      assert Survives(raw, raw[i]);
      assert raw[i] in stripped;
      var k :| 0 <= k < |stripped| && stripped[k] == raw[i];
    }
    if DroppedAt(raw, p) {
      var d :| Dropped(raw, d) && raw[d].start == p;
      assert d == i;
    }
  }

  lemma DroppedIsSpace(raw: seq<Token>, template: string, p: nat)
    requires Literal(raw, template) && DroppedAt(raw, p)
    ensures p < |template| && IsSpace(template[p])
  {
    hide StandaloneLine, IsSpace;
    var i :| Dropped(raw, i) && raw[i].start == p;
  }

  lemma {:induction false} StripTags(line: seq<Token>, tokens: seq<Token>)
    ensures TagsOf(StripFrom(line, tokens)) == TagsOf(line + tokens)
    decreases |tokens|
  {
    if tokens == [] {
      assert line + tokens == line;
    } else {
      var more, rest := line + [tokens[0]], tokens[1..];
      assert more + rest == line + tokens;
      if IsNewline(tokens[0]) {
        StripTags([], rest);
        assert [] + rest == rest;
        WithoutBlanksKeepsTags(more);
        TagsOfConcat(StripLine(more), StripFrom([], rest));
        TagsOfConcat(more, rest);
      } else {
        StripTags(more, rest);
      }
    }
  }

  lemma {:induction false} WithoutBlanksKeepsTags(line: seq<Token>)
    ensures TagsOf(WithoutBlanks(line)) == TagsOf(line)
  {
    if line != [] {
      var init, last := line[..|line| - 1], line[|line| - 1];
      WithoutBlanksKeepsTags(init);
      TagsOfConcat(WithoutBlanks(init), if IsBlank(last) then [] else [last]);
      assert TagsOf([last]) == TagsOf([]) + if last.kind == Text then [] else [last];
    }
  }

  lemma StrippedKeeps(template: string, tags: seq<string>, raw: seq<Token>)
    requires |tags| == 2 && tags[0] != "" && tags[1] != ""
    requires Lex(template, 0, tags) == Ok(raw)
    ensures Ordered(raw, 0, |template|) && Literal(raw, template) && forall p: nat :: p < |template| ==> Covers(raw, p)
    ensures var stripped := Strip(raw);
            && Ordered(stripped, 0, |template|) && Joined(stripped) && Slices(stripped, template)
            && TagsOf(stripped) == TagsOf(raw) && forall t :: t in stripped <==> Survives(raw, t)
  {
    hide Lex, IsSpace, Dropped, Survives, StripFrom, TagsOf, Covers, Literal, Slices, Tiles, Ordered, Joined;
    LexTiles(template, template, 0, tags);
    TilesOrdered(raw, 0, |template|);
    assert [] + raw == raw;
    StripExactly([], raw, 0, |template|);
    StripTags([], raw);
    LiteralSlices(raw, Strip(raw), template);
  }

  lemma SquashedKeeps(stripped: seq<Token>, template: string)
    requires Ordered(stripped, 0, |template|) && Joined(stripped) && Slices(stripped, template)
    ensures var r := Squash(stripped);
            && Ordered(r, 0, |template|) && Slices(r, template) && NoTextPairs(r)
            && TagsOf(r) == TagsOf(stripped) && forall p :: Covers(r, p) <==> Covers(stripped, p)
  {
    hide SquashOnto, Ordered, Joined, Slices, TagsOf, Covers;
    assert [] + stripped == stripped;
    SquashKeeps([], stripped, template);
  }

  // Every template that can be scanned is accounted for: the tokens handed on are in order
  // and apart, text tokens are maximal slices of the template, every tag is still there, and
  // a position is uncovered exactly when it was dropped, which happens to white space only.
  lemma TemplateAccounted(template: string, tags: seq<string>, raw: seq<Token>)
    requires |tags| == 2 && tags[0] != "" && tags[1] != ""
    requires Lex(template, 0, tags) == Ok(raw)
    ensures var tokens := Squash(Strip(raw));
            && Ordered(tokens, 0, |template|) && Slices(tokens, template) && NoTextPairs(tokens)
            && TagsOf(tokens) == TagsOf(raw)
            && (forall p: nat :: p < |template| ==> (Covers(tokens, p) <==> !DroppedAt(raw, p)))
            && (forall p: nat :: DroppedAt(raw, p) ==> p < |template| && IsSpace(template[p]))
  {
    hide Lex, IsSpace, Strip, Squash, DroppedAt, Survives, TagsOf, Covers, Literal, Slices, Ordered, NoTextPairs;
    var stripped := Strip(raw);
    StrippedKeeps(template, tags, raw);
    SquashedKeeps(stripped, template);
    forall p: nat | p < |template|
      ensures Covers(stripped, p) <==> !DroppedAt(raw, p)
    {
      CoveredOnce(raw, stripped, template, p);
    }
    forall p: nat | DroppedAt(raw, p)
      ensures p < |template| && IsSpace(template[p])
    {
      DroppedIsSpace(raw, template, p);
    }
  }
}
