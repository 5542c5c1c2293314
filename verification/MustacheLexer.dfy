// From template text to a flat list of tokens: what the scanning loop of mustache.js's parse
// produces before any white space is stripped.
module MustacheLexer {
  import opened Wrappers
  import opened MustacheScanner
  import Decimal

  // token[0]: "text", "name", or the character that follows the opening tag
  datatype Kind = Text | Name | Section | Inverted | Closer | Partial | Brace | Unescaped | SetTags | Comment

  function KindOf(c: char): (k: Kind)
    ensures k != Text
  {
    match c
    case '#' => Section
    case '^' => Inverted
    case '/' => Closer
    case '>' => Partial
    case '{' => Brace
    case '&' => Unescaped
    case '=' => SetTags
    case '!' => Comment
    case _ => Name
  }

  datatype Token = Token(kind: Kind, value: string, start: nat, end: nat)

  // One text token per character.
  function CharTokens(s: string, pos: nat): (r: seq<Token>)
    ensures |r| == |s| && forall i :: 0 <= i < |r| ==> r[i] == Token(Text, [s[i]], pos + i, pos + i + 1)
  {
    seq(|s|, i requires 0 <= i < |s| => Token(Text, [s[i]], pos + i, pos + i + 1))
  }

  // value.split(/\s+/)
  function SplitSpaces(s: string): (r: seq<string>)
    ensures |r| > 0
  {
    SplitWord(s, 0)
  }

  // The pieces of s, of which the first n characters are known to be one word so far.
  function SplitWord(s: string, n: nat): (r: seq<string>)
    requires n <= |s|
    ensures |r| > 0
    decreases |s|, |s| - n
  {
    if n == |s| then [s]
    else if IsSpace(s[n]) then [s[..n]] + SplitWord(s[n + SpaceRun(s[n..])..], 0)
    else SplitWord(s, n + 1)
  }

  function JoinSpaces(words: seq<string>): string {
    if words == [] then "" else if |words| == 1 then words[0] else words[0] + " " + JoinSpaces(words[1..])
  }

  lemma PastWhite(s: string)
    ensures Past(White, s) != "" ==> !IsSpace(Past(White, s)[0])
  {
  }

  // Behind the type of a tag and white space.
  function PastType(s: string): (r: string)
    ensures Suffix(r, s)
    ensures r != "" ==> !IsSpace(r[0])
  {
    hide Suffix, MatchLen, IsSpace, TakeLen, Past;
    var s1 := Past(TagType, s);
    SuffixTransitive(Past(White, s1), s1, s);
    PastWhite(s1);
    Past(White, s1)
  }

  // The opening tag, its type, and the white space before the value.
  function Opening(s: string, open: string): (r: (Kind, string))
    requires TakeLen(OpenTag(open), s) > 0
    ensures Suffix(r.1, s) && |r.1| < |s| && r.0 != Text
    ensures r.1 != "" ==> !IsSpace(r.1[0])
  {
    hide Suffix, MatchLen, IsSpace, Past, TakeLen, PastType;
    var s1 := Past(OpenTag(open), s);
    var mark := Taken(TagType, s1);
    var rest := PastType(s1);
    SuffixTransitive(rest, s1, s);
    SuffixLength(rest, s1);
    (if mark == "" then Name else KindOf(mark[0]), rest)
  }

  // The value, and what is left when the closing tag is due.
  function Inside(kind: Kind, s: string, close: string): (r: (string, string))
    ensures Suffix(r.1, s)
  {
    if kind == SetTags then
      (Skipped(CloseTag("="), s), InsideEnd(CloseTag("="), CloseTag("="), s, close))
    else if kind == Brace then
      (Skipped(CloseTag("}" + close), s), InsideEnd(CloseTag("}" + close), CloseTag("}"), s, close))
    else
      (Skipped(CloseTag(close), s), SkipTo(CloseTag(close), s))
  }

  function InsideEnd(until: Pattern, past: Pattern, s: string, close: string): (r: string)
    ensures Suffix(r, s)
  {
    var s1 := SkipTo(until, s);
    var s2 := Past(past, s1);
    var s3 := SkipTo(CloseTag(close), s2);
    SuffixTransitive(s3, s2, s1);
    SuffixTransitive(s3, s1, s);
    s3
  }

  // The tag at the beginning of s, and what follows it.
  function TagAt(s: string, pos: nat, open: string, close: string): (r: Result<(Token, string)>)
    requires TakeLen(OpenTag(open), s) > 0
    ensures r.Ok? ==> Suffix(r.value.1, s) && |r.value.1| < |s|
    ensures r.Ok? ==> r.value.0.kind != Text && r.value.0.start == pos && r.value.0.end == pos + |s| - |r.value.1|
  {
    var (kind, s1) := Opening(s, open);
    var (value, s2) := Inside(kind, s1, close);
    if TakeLen(CloseTag(close), s2) == 0 then Err("Unclosed tag at " + Decimal.ToString(pos + |s| - |s2|))
    else
      var rest := Past(CloseTag(close), s2);
      SuffixTransitive(rest, s2, s1);
      SuffixTransitive(rest, s1, s);
      Ok((Token(if kind == Brace then Unescaped else kind, value, pos, pos + |s| - |rest|), rest))
  }

  function NextTags(token: Token, tags: seq<string>): seq<string> {
    if token.kind == SetTags then SplitSpaces(token.value) else tags
  }

  function Lex(s: string, pos: nat, tags: seq<string>): Result<seq<Token>>
    decreases |s|
  {
    if |tags| != 2 then Err("Invalid tags: " + JoinSpaces(tags))
    else if s == "" then Ok([])
    else
      var s1 := SkipTo(OpenTag(tags[0]), s);
      var value := Skipped(OpenTag(tags[0]), s);
      var n := |value|;
      var text := CharTokens(value, pos);
      if TakeLen(OpenTag(tags[0]), s1) == 0 then Ok(text)
      else
        match TagAt(s1, pos + n, tags[0], tags[1])
        case Err(e) => Err(e)
        case Ok((token, rest)) => After(text + [token], Lex(rest, token.end, NextTags(token, tags)))
  }

  function After(tokens: seq<Token>, r: Result<seq<Token>>): Result<seq<Token>> {
    match r case Err(e) => Err(e) case Ok(more) => Ok(tokens + more)
  }

  // The tokens lie end to end.
  ghost predicate Tiles(tokens: seq<Token>, from: nat, to: nat) {
    if tokens == [] then from == to
    else tokens[0].start == from < tokens[0].end && Tiles(tokens[1..], tokens[0].end, to)
  }

  // Every text token is one character of the template.
  ghost predicate Literal(tokens: seq<Token>, template: string) {
    forall i :: 0 <= i < |tokens| && tokens[i].kind == Text ==>
      tokens[i].end == tokens[i].start + 1 <= |template| && tokens[i].value == [template[tokens[i].start]]
  }

  lemma {:induction false} TilesConcat(a: seq<Token>, b: seq<Token>, from: nat, mid: nat, to: nat)
    requires Tiles(a, from, mid) && Tiles(b, mid, to)
    ensures Tiles(a + b, from, to)
  {
    if a == [] {
      assert a + b == b;
    } else {
      TilesConcat(a[1..], b, a[0].end, mid, to);
      assert (a + b)[1..] == a[1..] + b;
    }
  }

  lemma LiteralConcat(a: seq<Token>, b: seq<Token>, template: string)
    requires Literal(a, template) && Literal(b, template)
    ensures Literal(a + b, template)
  {
  }

  lemma NoTokens(template: string)
    ensures Tiles([], |template|, |template|) && Literal([], template)
  {
  }

  lemma {:induction false} CharTokensTile(s: string, pos: nat)
    ensures Tiles(CharTokens(s, pos), pos, pos + |s|)
  {
    if s != "" {
      CharTokensTile(s[1..], pos + 1);
      assert CharTokens(s, pos)[1..] == CharTokens(s[1..], pos + 1);
    }
  }

  // A tag that sets new delimiters sets two non-empty ones, or none at all.
  lemma SetTagsNonEmpty(s: string, pos: nat, open: string, close: string)
    requires close != "" && TakeLen(OpenTag(open), s) > 0
    ensures match TagAt(s, pos, open, close)
            case Err(_) => true
            case Ok((token, _)) =>
              var tags := SplitSpaces(token.value);
              token.kind == SetTags && |tags| == 2 ==> tags[0] != "" && tags[1] != ""
  {
    hide Opening, Inside, TakeLen, SplitWord;
    var (kind, s1) := Opening(s, open);
    EqualsValue(s1, close);
    var value := Inside(kind, s1, close).0;
    if TagAt(s, pos, open, close).Ok? && kind == SetTags && |SplitSpaces(value)| == 2 {
      if value == "" {
        SplitEmpty();
      } else {
        SplitTwo(value, 0);
      }
    }
  }

  lemma SplitEmpty()
    ensures SplitSpaces("") == [""]
  {
  }

  // The value of such a tag neither begins nor ends with white space.
  lemma EqualsValue(s: string, close: string)
    requires close != "" && (s != "" ==> !IsSpace(s[0]))
    ensures var (v, rest) := Inside(SetTags, s, close);
            TakeLen(CloseTag(close), rest) > 0 && v != "" ==> !IsSpace(v[0]) && !IsSpace(v[|v| - 1])
  {
    hide TakeLen, MatchLen, Search;
    if Search(CloseTag("="), s).Some? {
      NoSpaceBefore("=", s);
    } else {
      NothingToTake(close);
    }
  }

  lemma NothingToTake(close: string)
    requires close != ""
    ensures TakeLen(CloseTag(close), "") == 0
  {
  }

  lemma NoSpaceBefore(lit: string, s: string)
    requires Search(CloseTag(lit), s).Some?
    ensures var n := Search(CloseTag(lit), s).value; n == 0 || !IsSpace(s[n - 1])
  {
    var n := Search(CloseTag(lit), s).value;
    if n > 0 {
      assert s[n - 1..][1..] == s[n..];
      if IsSpace(s[n - 1]) {
        SpaceBefore(s[n - 1..], lit);
      }
    }
  }

  // White space before a match of \s*lit extends the match.
  lemma SpaceBefore(s: string, lit: string)
    requires s != "" && IsSpace(s[0])
    requires MatchLen(CloseTag(lit), s[1..]).Some?
    ensures MatchLen(CloseTag(lit), s).Some?
  {
    var k := LastFit(lit, s[1..], SpaceRun(s[1..]));
    assert s[1..][k.value..] == s[k.value + 1..];
  }

  lemma {:induction false} SplitTwo(s: string, n: nat)
    requires n <= |s| && (forall i :: 0 <= i < n ==> !IsSpace(s[i]))
    requires |SplitWord(s, n)| == 2 && s != "" && !IsSpace(s[0]) && !IsSpace(s[|s| - 1])
    ensures SplitWord(s, n)[0] != "" && SplitWord(s, n)[1] != ""
    decreases |s| - n
  {
    if IsSpace(s[n]) {
      var rest := s[n + SpaceRun(s[n..])..];
      SpaceRunStops(s[n..]);
      SplitOne(rest, 0);
    } else {
      SplitTwo(s, n + 1);
    }
  }

  lemma SpaceRunStops(s: string)
    requires s != "" && !IsSpace(s[|s| - 1])
    ensures SpaceRun(s) < |s|
  {
  }

  lemma {:induction false} SplitOne(s: string, n: nat)
    requires n <= |s| && |SplitWord(s, n)| == 1
    ensures SplitWord(s, n) == [s]
    decreases |s| - n
  {
    if n < |s| && !IsSpace(s[n]) {
      SplitOne(s, n + 1);
    }
  }

  lemma CharTokensLiteral(template: string, pos: nat, s: string)
    requires pos + |s| <= |template| && s == template[pos..pos + |s|]
    ensures Literal(CharTokens(s, pos), template)
  {
    forall i | 0 <= i < |s|
      ensures CharTokens(s, pos)[i].value == [template[pos + i]]
    {
      assert s[i] == template[pos + i];
    }
  }

  // One round of the loop: the text and the tag take up the template as far as the tag ends.
  lemma RoundTiles(template: string, s: string, pos: nat, s1: string, token: Token, rest: string)
    requires pos <= |template| && s == template[pos..]
    requires Suffix(s1, s) && Suffix(rest, s1) && |rest| < |s1|
    requires token.kind != Text && token.start == pos + |s| - |s1| && token.end == token.start + |s1| - |rest|
    ensures pos < token.end <= |template| && rest == template[token.end..]
    ensures var text := CharTokens(s[..|s| - |s1|], pos);
            Tiles(text + [token], pos, token.end) && Literal(text + [token], template)
  {
    var n := |s| - |s1|;
    var text := CharTokens(s[..n], pos);
    CharTokensTile(s[..n], pos);
    assert s[..n] == template[pos..pos + n];
    CharTokensLiteral(template, pos, s[..n]);
    assert Tiles([token], pos + n, token.end);
    TilesConcat(text, [token], pos, pos + n, token.end);
    SuffixTransitive(rest, s1, s);
    SuffixTransitive(rest, s, template);
  }

  // One round of Lex.
  lemma LexRound(s: string, pos: nat, tags: seq<string>)
    requires |tags| == 2 && s != ""
    ensures var s1 := SkipTo(OpenTag(tags[0]), s);
            var value := Skipped(OpenTag(tags[0]), s);
            var text := CharTokens(value, pos);
            Lex(s, pos, tags) ==
              if TakeLen(OpenTag(tags[0]), s1) == 0 then Ok(text)
              else
                match TagAt(s1, pos + |value|, tags[0], tags[1])
                case Err(e) => Err(e)
                case Ok((token, rest)) => After(text + [token], Lex(rest, token.end, NextTags(token, tags)))
  {
  }

  lemma LexBadTags(s: string, pos: nat, tags: seq<string>)
    requires |tags| != 2
    ensures Lex(s, pos, tags) == Err("Invalid tags: " + JoinSpaces(tags))
  {
  }

  lemma LexEnd(pos: nat, tags: seq<string>)
    requires |tags| == 2
    ensures Lex("", pos, tags) == Ok([])
  {
  }

  // What one round contributes, and what is left for the next ones.
  ghost predicate OneRound(s: string, pos: nat, tags: seq<string>, front: seq<Token>, rest: string, end: nat,
                           next: seq<string>)
  {
    && Lex(s, pos, tags).Ok?
    && |rest| < |s|
    && (|next| == 2 ==> next[0] != "" && next[1] != "")
    && Lex(rest, end, next).Ok?
    && Lex(s, pos, tags).value == front + Lex(rest, end, next).value
  }

  lemma SkippedIs(p: Pattern, s: string)
    ensures Suffix(SkipTo(p, s), s) && Skipped(p, s) == s[..|s| - |SkipTo(p, s)|]
  {
  }

  lemma NothingSkipped(open: string, s: string)
    requires open != "" && TakeLen(OpenTag(open), SkipTo(OpenTag(open), s)) == 0
    ensures Skipped(OpenTag(open), s) == s
  {
    hide TakeLen, SkipTo, Skipped;
    NotFound(open, s);
    SkippedIs(OpenTag(open), s);
    assert s[..|s|] == s;
  }

  lemma LastRound(template: string, s: string, pos: nat, tags: seq<string>)
    requires |tags| == 2 && tags[0] != "" && s != ""
    requires pos <= |template| && s == template[pos..]
    requires TakeLen(OpenTag(tags[0]), SkipTo(OpenTag(tags[0]), s)) == 0
    ensures Lex(s, pos, tags) == Ok(CharTokens(s, pos))
    ensures Tiles(CharTokens(s, pos), pos, |template|) && Literal(CharTokens(s, pos), template)
  {
    hide Lex, TakeLen, SkipTo, Skipped, Tiles, Literal, CharTokens, TagAt;
    NothingSkipped(tags[0], s);
    LexRound(s, pos, tags);
    RestTiles(template, pos);
  }

  lemma RestTiles(template: string, pos: nat)
    requires pos <= |template|
    ensures var s := template[pos..];
            Tiles(CharTokens(s, pos), pos, |template|) && Literal(CharTokens(s, pos), template)
  {
    hide Tiles, Literal, CharTokens;
    var s := template[pos..];
    assert template[pos..pos + |s|] == s;
    CharTokensLiteral(template, pos, s);
    CharTokensTile(s, pos);
  }

  lemma SomeRound(template: string, s: string, pos: nat, tags: seq<string>)
      returns (front: seq<Token>, rest: string, end: nat, next: seq<string>)
    requires |tags| == 2 && tags[0] != "" && tags[1] != "" && s != ""
    requires pos <= |template| && s == template[pos..]
    requires TakeLen(OpenTag(tags[0]), SkipTo(OpenTag(tags[0]), s)) > 0
    ensures Lex(s, pos, tags).Ok? ==>
              && OneRound(s, pos, tags, front, rest, end, next)
              && pos < end <= |template| && rest == template[end..]
              && Tiles(front, pos, end) && Literal(front, template)
  {
    hide Lex, TakeLen, TagAt, SkipTo, Skipped, Tiles, Literal, SplitSpaces;
    SkippedIs(OpenTag(tags[0]), s);
    LexRound(s, pos, tags);
    if Lex(s, pos, tags).Err? {
      return [], "", 0, [];
    }
    var s1 := SkipTo(OpenTag(tags[0]), s);
    var n := |s| - |s1|;
    var (token, after) := TagAt(s1, pos + n, tags[0], tags[1]).value;
    RoundTiles(template, s, pos, s1, token, after);
    if token.kind == SetTags {
      SetTagsNonEmpty(s1, pos + n, tags[0], tags[1]);
    }
    front, rest, end, next := CharTokens(s[..n], pos) + [token], after, token.end, NextTags(token, tags);
  }

  // Lexing accounts for every character of the template, from left to right.
  lemma {:induction false} LexTiles(template: string, s: string, pos: nat, tags: seq<string>)
    requires |tags| == 2 ==> tags[0] != "" && tags[1] != ""
    requires pos <= |template| && s == template[pos..]
    requires Lex(s, pos, tags).Ok?
    ensures Tiles(Lex(s, pos, tags).value, pos, |template|)
    ensures Literal(Lex(s, pos, tags).value, template)
    decreases |s|
  {
    hide Lex, TakeLen, SkipTo, Tiles, Literal, JoinSpaces;
    if |tags| != 2 {
      LexBadTags(s, pos, tags);
    } else if s == "" {
      LexEnd(pos, tags);
      NoTokens(template);
    } else if TakeLen(OpenTag(tags[0]), SkipTo(OpenTag(tags[0]), s)) == 0 {
      LastRound(template, s, pos, tags);
    } else {
      var front, rest, end, next := SomeRound(template, s, pos, tags);
      LexTiles(template, rest, end, next);
      TilesConcat(front, Lex(rest, end, next).value, pos, end, |template|);
      LiteralConcat(front, Lex(rest, end, next).value, template);
    }
  }

  // The loop leaves early only when no opening tag is left.
  lemma NotFound(open: string, s: string)
    requires open != "" && TakeLen(OpenTag(open), SkipTo(OpenTag(open), s)) == 0
    ensures SkipTo(OpenTag(open), s) == ""
  {
  }
}
