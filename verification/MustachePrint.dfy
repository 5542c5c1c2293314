// Writing tags, and reading them back.
module MustachePrint {
  import opened Wrappers
  import opened MustacheScanner
  import opened MustacheLexer
  import opened MustacheText

  function Blanks(n: nat): (s: string)
    ensures |s| == n && forall i :: 0 <= i < n ==> s[i] == ' '
  {
    seq(n, _ => ' ')
  }

  // What may be written between delimiters: it has no white space at its ends, and what ends the tag
  // does not begin inside it.
  ghost predicate Clean(name: string, end: string, blanks: nat) {
    && (if name == "" then blanks == 0 else !IsSpace(name[0]) && !IsSpace(name[|name| - 1]))
    && forall i :: 0 <= i < |name| ==> !(end <= (name + Blanks(blanks) + end)[i..])
  }

  lemma BlanksRun(n: nat, s: string)
    requires s != "" && !IsSpace(s[0])
    ensures SpaceRun(Blanks(n) + s) == n && (Blanks(n) + s)[n..] == s
  {
    SpaceRunIs(Blanks(n) + s, n);
  }

  // The end of a tag is found behind the name and the white space that follows it.
  lemma EndFound(name: string, n: nat, end: string, u: string)
    requires end != "" && SpaceFree(end) && Clean(name, end, n)
    ensures var s := name + Blanks(n) + end + u;
            && Search(CloseTag(end), s) == Some(|name|)
            && Skipped(CloseTag(end), s) == name && SkipTo(CloseTag(end), s) == Blanks(n) + end + u
            && MatchLen(CloseTag(end), Blanks(n) + end + u) == Some(n + |end|)
  {
    hide MatchLen, SpaceRun, IsSpace, Clean, SpaceFree;
    var s, tail := name + Blanks(n) + end + u, Blanks(n) + end + u;
    TailFits(n, end, u);
    assert s == name + tail;
    assert s[|name|..] == tail && s[..|name|] == name;
    forall j | 0 <= j < |name|
      ensures MatchLen(CloseTag(end), s[j..]).None?
    {
      NotInName(name, n, end, u, j);
    }
    SearchAt(CloseTag(end), s, |name|);
    SkipAt(CloseTag(end), s);
  }

  lemma TailFits(n: nat, end: string, u: string)
    requires end != "" && SpaceFree(end)
    ensures MatchLen(CloseTag(end), Blanks(n) + end + u) == Some(n + |end|)
  {
    hide MatchLen, SpaceRun, IsSpace, SpaceFree;
    FirstSolid(end, u);
    BlanksRun(n, end + u);
    assert Blanks(n) + end + u == Blanks(n) + (end + u);
    CloseIs(end, Blanks(n) + end + u);
  }

  lemma FirstSolid(end: string, u: string)
    requires end != "" && SpaceFree(end)
    ensures end + u != "" && !IsSpace((end + u)[0]) && end <= end + u
  {
    assert end[0] in end;
  }

  lemma NotInName(name: string, n: nat, end: string, u: string, j: nat)
    requires end != "" && SpaceFree(end) && Clean(name, end, n) && j < |name|
    ensures MatchLen(CloseTag(end), (name + Blanks(n) + end + u)[j..]).None?
  {
    hide MatchLen, SpaceRun;
    var t := name + Blanks(n) + end;
    var k := |name| - 1;
    CloseIsAt(end, t + u, j);
    assert t[k] == name[k];
    RunBefore(t, u, j, k);
    var r := SpaceRun(t[j..]);
    SameWithin(end, t, u, j + r);
  }

  // The opening, the type of the tag, and white space.
  lemma OpeningIs(open: string, a: nat, mark: string, b: nat, rest: string)
    requires open != "" && rest != "" && !IsSpace(rest[0])
    requires if mark == "" then b == 0 && rest[0] !in "#^/>{&=!" else |mark| == 1 && mark[0] in "#^/>{&=!"
    ensures var s := open + Blanks(a) + mark + Blanks(b) + rest;
            && TakeLen(OpenTag(open), s) > 0 && Search(OpenTag(open), s) == Some(0)
            && Opening(s, open) == (if mark == "" then Name else KindOf(mark[0]), rest)
  {
    hide Suffix, PastType, KindOf;
    var s := open + Blanks(a) + mark + Blanks(b) + rest;
    var inner := mark + Blanks(b) + rest;
    assert inner != "" && !IsSpace(inner[0]) by {
      MarkSolid(mark);
    }
    assert s == open + (Blanks(a) + inner) && s[0..] == s;
    assert s[|open|..] == Blanks(a) + inner;
    BlanksRun(a, inner);
    assert Begins(open, s, 0);
    SearchOpen(open, s, 0);
    OpenIs(open, s);
    assert Past(OpenTag(open), s) == inner by {
      OpenPast(open, s, a, inner);
    }
    TypeIs(mark, b, rest);
  }

  lemma OpenPast(open: string, s: string, a: nat, inner: string)
    requires open <= s && s[|open|..] == Blanks(a) + inner && SpaceRun(Blanks(a) + inner) == a
    ensures Past(OpenTag(open), s) == inner
  {
    assert s[|open| + a..] == s[|open|..][a..] == inner;
  }

  lemma MarkSolid(mark: string)
    ensures |mark| == 1 && mark[0] in "#^/>{&=!" ==> !IsSpace(mark[0])
  {
  }

  lemma TypeIs(mark: string, b: nat, rest: string)
    requires rest != "" && !IsSpace(rest[0])
    requires if mark == "" then b == 0 && rest[0] !in "#^/>{&=!" else |mark| == 1 && mark[0] in "#^/>{&=!"
    ensures var inner := mark + Blanks(b) + rest; Taken(TagType, inner) == mark && PastType(inner) == rest
  {
    hide IsSpace;
    var inner := mark + Blanks(b) + rest;
    TypeChars(inner[0]);
    BlanksRun(b, rest);
    if mark == "" {
      assert inner == rest && Past(TagType, inner) == inner;
    } else {
      assert Past(TagType, inner) == Blanks(b) + rest && inner[..1] == mark;
    }
    var after := Blanks(b) + rest;
    assert Past(TagType, inner) == after && Past(White, after) == after[b..] == rest;
  }

  lemma TypeChars(c: char)
    ensures IsTagType(c) <==> c in "#^/>{&=!"
  {
  }

  // How a tag is written: the character that tells its type, and how it ends.
  function MarkOf(kind: Kind): string {
    match kind
    case Section => "#"
    case Inverted => "^"
    case Closer => "/"
    case Partial => ">"
    case Brace => "{"
    case Unescaped => "&"
    case SetTags => "="
    case Comment => "!"
    case _ => ""
  }

  function Until(kind: Kind, close: string): string {
    if kind == Brace then "}" + close else if kind == SetTags then "=" else close
  }

  function Ending(kind: Kind, close: string): string {
    if kind == Brace then "}" + close else if kind == SetTags then "=" + close else close
  }

  // A tag, with white space at the places where it does not matter.
  datatype Spacing = Spacing(open: nat, mark: nat, name: nat)

  function Written(kind: Kind, name: string, sp: Spacing, tags: seq<string>): string
    requires |tags| == 2
  {
    tags[0] + Blanks(sp.open) + MarkOf(kind) + Blanks(sp.mark) + name + Blanks(sp.name) + Ending(kind, tags[1])
  }

  // What may be written as a tag of a kind. Without a character for its type a tag must not begin
  // with one.
  ghost predicate Writable(kind: Kind, name: string, sp: Spacing, tags: seq<string>)
    requires Delimiters(tags)
  {
    && kind != Text && Clean(name, Until(kind, tags[1]), sp.name)
    && (kind == Name ==> sp.mark == 0 && (name + tags[1])[0] !in "#^/>{&=!")
  }

  lemma InsideSet(name: string, n: nat, close: string, u: string)
    requires close != "" && SpaceFree(close) && Clean(name, "=", n)
    ensures Inside(SetTags, name + Blanks(n) + ("=" + close) + u, close) == (name, close + u)
  {
    hide MatchLen, Search, SkipTo, Skipped, Past, TakeLen, Clean, SpaceRun, Suffix;
    BraceFree(close);
    var s := name + Blanks(n) + ("=" + close) + u;
    assert s == name + Blanks(n) + "=" + (close + u);
    EndFound(name, n, "=", close + u);
    DuePast("=", "=", n, close + u);
    assert "="[1..] + (close + u) == close + u;
    CloseDue(close, u);
  }

  lemma InsideBrace(name: string, n: nat, close: string, u: string)
    requires close != "" && SpaceFree(close) && Clean(name, "}" + close, n)
    ensures Inside(Brace, name + Blanks(n) + ("}" + close) + u, close) == (name, close + u)
  {
    hide MatchLen, Search, SkipTo, Skipped, Past, TakeLen, Clean, SpaceRun, Suffix;
    BraceFree(close);
    EndFound(name, n, "}" + close, u);
    DuePast("}" + close, "}", n, u);
    assert ("}" + close)[1..] == close;
    CloseDue(close, u);
  }

  lemma InsidePlain(kind: Kind, name: string, n: nat, close: string, u: string)
    requires kind != SetTags && kind != Brace && close != "" && SpaceFree(close) && Clean(name, close, n)
    ensures Inside(kind, name + Blanks(n) + close + u, close) == (name, Blanks(n) + close + u)
    ensures TakeLen(CloseTag(close), Blanks(n) + close + u) > 0 && Past(CloseTag(close), Blanks(n) + close + u) == u
  {
    hide MatchLen, Search, SkipTo, Skipped, Past, TakeLen, Clean, SpaceRun, Suffix;
    EndFound(name, n, close, u);
    DuePast(close, close, n, u);
    assert close[|close|..] + u == u;
  }

  lemma InsideIs(kind: Kind, name: string, n: nat, close: string, u: string)
    requires close != "" && SpaceFree(close) && Clean(name, Until(kind, close), n)
    ensures var (value, rest) := Inside(kind, name + Blanks(n) + Ending(kind, close) + u, close);
            && value == name && TakeLen(CloseTag(close), rest) > 0 && Past(CloseTag(close), rest) == u
  {
    hide Inside, Past, TakeLen, Clean, SpaceFree;
    if kind == SetTags {
      InsideSet(name, n, close, u);
      CloseDue(close, u);
    } else if kind == Brace {
      InsideBrace(name, n, close, u);
      CloseDue(close, u);
    } else {
      InsidePlain(kind, name, n, close, u);
    }
  }

  // A closing delimiter that is due at once.
  lemma CloseDue(close: string, u: string)
    requires close != "" && SpaceFree(close)
    ensures SkipTo(CloseTag(close), close + u) == close + u
    ensures TakeLen(CloseTag(close), close + u) > 0 && Past(CloseTag(close), close + u) == u
  {
    hide MatchLen, SpaceRun;
    FirstSolid(close, u);
    var s := close + u;
    RunNone(s);
    CloseIs(close, s);
    assert s[0..] == s;
    SearchAt(CloseTag(close), s, 0);
    SkipAt(CloseTag(close), s);
  }

  lemma RunNone(s: string)
    requires s != "" && !IsSpace(s[0])
    ensures SpaceRun(s) == 0
  {
  }

  // White space, a first part of what closes, and the rest.
  lemma DuePast(lit: string, part: string, n: nat, u: string)
    requires part != "" && part <= lit && SpaceFree(lit)
    ensures var s := Blanks(n) + lit + u;
            && TakeLen(CloseTag(part), s) == n + |part| && Past(CloseTag(part), s) == lit[|part|..] + u
  {
    hide MatchLen, SpaceRun, IsSpace;
    var s, after := Blanks(n) + lit + u, lit[|part|..] + u;
    assert part == lit[..|part|] && lit == part + lit[|part|..];
    assert SpaceFree(part) by {
      assert forall c <- part :: c in lit;
    }
    TailFits(n, part, after);
    assert s == Blanks(n) + part + after;
    TakenAt(CloseTag(part), s, n + |part|);
    assert s[n + |part|..] == after;
  }

  lemma TakenAt(p: Pattern, s: string, n: nat)
    requires MatchLen(p, s) == Some(n)
    ensures n <= |s| && TakeLen(p, s) == n && Past(p, s) == s[n..]
  {
  }

  lemma WrittenParts(kind: Kind, name: string, sp: Spacing, tags: seq<string>, u: string)
    requires |tags| == 2
    ensures var rest := name + Blanks(sp.name) + Ending(kind, tags[1]) + u;
            Written(kind, name, sp, tags) + u == tags[0] + Blanks(sp.open) + MarkOf(kind) + Blanks(sp.mark) + rest
  {
    hide Ending, MarkOf;
  }

  lemma TagFrom(s: string, pos: nat, open: string, close: string, kind: Kind, inner: string, value: string, u: string)
    requires TakeLen(OpenTag(open), s) > 0 && Opening(s, open) == (kind, inner)
    requires var (v, rest) := Inside(kind, inner, close);
             v == value && TakeLen(CloseTag(close), rest) > 0 && Past(CloseTag(close), rest) == u
    ensures |u| <= |s|
    ensures TagAt(s, pos, open, close) ==
              Ok((Token(if kind == Brace then Unescaped else kind, value, pos, pos + |s| - |u|), u))
  {
    hide TakeLen, Opening, Inside, Past;
  }

  // A written tag is read as the tag it is.
  lemma WrittenTag(kind: Kind, name: string, sp: Spacing, tags: seq<string>, u: string, pos: nat)
    requires Delimiters(tags) && Writable(kind, name, sp, tags)
    ensures var s := Written(kind, name, sp, tags);
            && s != "" && Search(OpenTag(tags[0]), s + u) == Some(0) && TakeLen(OpenTag(tags[0]), s + u) > 0
            && TagAt(s + u, pos, tags[0], tags[1]) ==
                 Ok((Token(if kind == Brace then Unescaped else kind, name, pos, pos + |s|), u))
  {
    hide MatchLen, Search, TakeLen, Past, Opening, Inside, TagAt, Clean, SpaceFree, KindOf, Ending, MarkOf;
    var s := Written(kind, name, sp, tags);
    var rest := name + Blanks(sp.name) + Ending(kind, tags[1]) + u;
    RestSolid(kind, name, sp, tags, u);
    MarkKinds(kind);
    WrittenParts(kind, name, sp, tags, u);
    OpeningIs(tags[0], sp.open, MarkOf(kind), sp.mark, rest);
    InsideIs(kind, name, sp.name, tags[1], u);
    TagFrom(s + u, pos, tags[0], tags[1], kind, rest, name, u);
  }

  lemma RestSolid(kind: Kind, name: string, sp: Spacing, tags: seq<string>, u: string)
    requires Delimiters(tags) && Writable(kind, name, sp, tags)
    ensures var rest := name + Blanks(sp.name) + Ending(kind, tags[1]) + u;
            rest != "" && !IsSpace(rest[0]) && (kind == Name ==> rest[0] == (name + tags[1])[0])
  {
    assert tags[1][0] in tags[1];
    assert Ending(kind, tags[1]) != "" && !IsSpace(Ending(kind, tags[1])[0]);
    assert name == "" ==> Blanks(sp.name) == "";
  }

  lemma MarkKinds(kind: Kind)
    requires kind != Text
    ensures if kind == Name then MarkOf(kind) == ""
            else |MarkOf(kind)| == 1 && MarkOf(kind)[0] in "#^/>{&=!" && KindOf(MarkOf(kind)[0]) == kind
  {
  }

  // The delimiters a tag leaves in force: those it sets, if it sets any.
  function Leaves(kind: Kind, name: string, tags: seq<string>): seq<string> {
    if kind == SetTags then SplitSpaces(name) else tags
  }

  lemma {:induction false} WordTo(s: string, n: nat, m: nat)
    requires n <= m <= |s| && (forall i :: n <= i < m ==> !IsSpace(s[i]))
    ensures SplitWord(s, n) == SplitWord(s, m)
    decreases m - n
  {
    if n < m {
      WordTo(s, n + 1, m);
    }
  }

  lemma OneWord(y: string)
    requires SpaceFree(y)
    ensures SplitWord(y, 0) == [y]
  {
    assert forall i :: 0 <= i < |y| ==> y[i] in y;
    WordTo(y, 0, |y|);
    assert y[..|y|] == y;
  }

  lemma SplitHere(s: string, n: nat, run: nat)
    requires n < |s| && IsSpace(s[n]) && SpaceRun(s[n..]) == run
    ensures SplitWord(s, n) == [s[..n]] + SplitWord(s[n + run..], 0)
  {
    hide IsSpace;
  }

  // Two words with white space between them.
  lemma TwoWords(x: string, n: nat, y: string)
    requires x != "" && y != "" && SpaceFree(x) && SpaceFree(y) && n > 0
    ensures SplitSpaces(x + Blanks(n) + y) == [x, y]
  {
    hide SplitWord, SpaceRun;
    var s := x + Blanks(n) + y;
    assert forall i :: 0 <= i < |x| ==> s[i] == x[i] && x[i] in x;
    assert y[0] in y && s[|x|] == ' ';
    hide IsSpace;
    WordTo(s, 0, |x|);
    BlanksRun(n, y);
    assert s[|x|..] == Blanks(n) + y && s[..|x|] == x;
    SplitHere(s, |x|, n);
    assert s[|x| + n..] == y;
    OneWord(y);
  }

  lemma AllOfIt(p: Pattern, s: string)
    requires Search(p, s) == Some(0)
    ensures SkipTo(p, s) == s && Skipped(p, s) == ""
  {
    SkipAt(p, s);
    assert s[0..] == s;
  }

  lemma LexWritten(kind: Kind, name: string, sp: Spacing, tags: seq<string>, pos: nat)
    requires Delimiters(tags) && Writable(kind, name, sp, tags) && |Leaves(kind, name, tags)| == 2
    ensures var s := Written(kind, name, sp, tags);
            Lex(s, pos, tags) == Ok([Token(if kind == Brace then Unescaped else kind, name, pos, pos + |s|)])
  {
    hide Lex, MatchLen, Search, TakeLen, TagAt, Writable, SpaceFree, SplitSpaces, Written, SkipTo, Skipped;
    var s := Written(kind, name, sp, tags);
    WrittenTag(kind, name, sp, tags, "", pos);
    assert s + "" == s;
    AllOfIt(OpenTag(tags[0]), s);
    assert CharTokens("", pos) == [];
    LexRound(s, pos, tags);
    var token := Token(if kind == Brace then Unescaped else kind, name, pos, pos + |s|);
    LexEnd(pos + |s|, Leaves(kind, name, tags));
    assert [] + [token] == [token] && [token] + [] == [token];
  }

  lemma FinalWritten(kind: Kind, name: string, sp: Spacing, tags: seq<string>)
    requires Delimiters(tags) && Writable(kind, name, sp, tags)
    ensures var s := Written(kind, name, sp, tags);
            FinalTags(s, tags) == Leaves(kind, name, tags) && Tail(s, tags) == ""
  {
    hide MatchLen, Search, TakeLen, TagAt, Writable, SpaceFree, SplitSpaces, Written, SkipTo, Skipped;
    var s := Written(kind, name, sp, tags);
    WrittenTag(kind, name, sp, tags, "", 0);
    assert s + "" == s;
    AllOfIt(OpenTag(tags[0]), s);
    var next := Leaves(kind, name, tags);
    assert FinalTags("", next) == next && Tail("", next) == "";
  }

  // One written tag is lexed as one token, of its kind and with its name, and nothing else.
  lemma WrittenLex(kind: Kind, name: string, sp: Spacing, tags: seq<string>, pos: nat)
    requires Delimiters(tags) && Writable(kind, name, sp, tags) && |Leaves(kind, name, tags)| == 2
    ensures var s := Written(kind, name, sp, tags);
            && Lex(s, pos, tags) == Ok([Token(if kind == Brace then Unescaped else kind, name, pos, pos + |s|)])
            && FinalTags(s, tags) == Leaves(kind, name, tags) && Tail(s, tags) == ""
  {
    hide Lex, FinalTags, Tail, Writable, Written, Leaves;
    LexWritten(kind, name, sp, tags, pos);
    FinalWritten(kind, name, sp, tags);
  }

  // What the character behind an opening delimiter means. White space around the name is ignored.
  lemma MarkMeans(mark: string, kind: Kind, name: string, a: nat, b: nat, c: nat, open: string, close: string, pos: nat)
    requires (mark, kind) in
               {("#", Section), ("^", Inverted), ("/", Closer), (">", Partial), ("&", Unescaped), ("!", Comment)}
    requires Delimiters([open, close]) && Clean(name, close, c)
    ensures var s := open + Blanks(a) + mark + Blanks(b) + name + Blanks(c) + close;
            Lex(s, pos, [open, close]) == Ok([Token(kind, name, pos, pos + |s|)])
  {
    hide Lex, Clean, Delimiters, FinalTags, Tail;
    WrittenLex(kind, name, Spacing(a, b, c), [open, close], pos);
  }

  // Without one it is the name of a value.
  lemma NameMeans(name: string, a: nat, c: nat, open: string, close: string, pos: nat)
    requires Delimiters([open, close]) && Clean(name, close, c) && (name + close)[0] !in "#^/>{&=!"
    ensures var s := open + Blanks(a) + name + Blanks(c) + close;
            Lex(s, pos, [open, close]) == Ok([Token(Name, name, pos, pos + |s|)])
  {
    hide Lex, Clean, Delimiters, FinalTags, Tail;
    WrittenLex(Name, name, Spacing(a, 0, c), [open, close], pos);
    assert open + Blanks(a) + "" + Blanks(0) == open + Blanks(a);
  }

  // Three braces stand for a value that is not escaped.
  lemma BraceMeans(name: string, a: nat, b: nat, c: nat, open: string, close: string, pos: nat)
    requires Delimiters([open, close]) && Clean(name, "}" + close, c)
    ensures var s := open + Blanks(a) + "{" + Blanks(b) + name + Blanks(c) + "}" + close;
            Lex(s, pos, [open, close]) == Ok([Token(Unescaped, name, pos, pos + |s|)])
  {
    hide Lex, Clean, Delimiters, FinalTags, Tail;
    WrittenLex(Brace, name, Spacing(a, b, c), [open, close], pos);
    var front := open + Blanks(a) + "{" + Blanks(b) + name + Blanks(c);
    assert front + ("}" + close) == front + "}" + close;
  }

  // Setting delimiters: what follows is lexed with the new ones.
  lemma SetMeans(x: string, n: nat, y: string, a: nat, b: nat, c: nat, open: string, close: string, u: string, pos: nat)
    requires Delimiters([open, close]) && Delimiters([x, y]) && n > 0 && '=' !in x && '=' !in y
    ensures var name := x + Blanks(n) + y;
            var s := open + Blanks(a) + "=" + Blanks(b) + name + Blanks(c) + "=" + close;
            Lex(s + u, pos, [open, close]) == After([Token(SetTags, name, pos, pos + |s|)], Lex(u, pos + |s|, [x, y]))
  {
    hide Lex, Clean, FinalTags, Tail, SplitSpaces, SpaceFree, Follows;
    var name := x + Blanks(n) + y;
    var tags := [open, close];
    var s := open + Blanks(a) + "=" + Blanks(b) + name + Blanks(c) + "=" + close;
    assert SpaceFree([x, y][0]) && SpaceFree([x, y][1]);
    TwoWords(x, n, y);
    SetClean(x, n, y, c);
    WrittenLex(SetTags, name, Spacing(a, b, c), tags, pos);
    var front := open + Blanks(a) + "=" + Blanks(b) + name + Blanks(c);
    assert front + ("=" + close) == front + "=" + close;
    EmptyTail(s, u, tags);
    LexConcat(s, u, pos, tags);
  }

  lemma EmptyTail(s: string, u: string, tags: seq<string>)
    requires Tail(s, tags) == ""
    ensures Follows(s, u, tags)
  {
  }

  lemma SetClean(x: string, n: nat, y: string, c: nat)
    requires Delimiters([x, y]) && '=' !in x && '=' !in y
    ensures Clean(x + Blanks(n) + y, "=", c)
  {
    var name := x + Blanks(n) + y;
    assert name[0] == x[0] && x[0] in x && name[|name| - 1] == y[|y| - 1] && y[|y| - 1] in y;
    assert SpaceFree([x, y][0]) && SpaceFree([x, y][1]);
    forall i | 0 <= i < |name|
      ensures !("=" <= (name + Blanks(c) + "=")[i..])
    {
      assert (name + Blanks(c) + "=")[i..][0] == name[i];
      assert name[i] == if i < |x| then x[i] else if i < |x| + n then ' ' else y[i - |x| - n];
    }
  }

  // A tag that is not closed is an error that tells how far was looked, which is the end.
  lemma NotClosedMeans(name: string, a: nat, open: string, close: string, pos: nat)
    requires Delimiters([open, close]) && name != "" && !IsSpace(name[0]) && name[0] !in "#^/>{&=!"
    requires forall i: nat :: !Begins(close, name, i)
    ensures var s := open + Blanks(a) + name;
            Lex(s, pos, [open, close]) == Err("Unclosed tag at " + Decimal.ToString(pos + |s|))
  {
    hide Lex, MatchLen, TakeLen, Search, SkipTo, Skipped, Opening, Past, IsSpace, Decimal.ToString;
    var s, tags := open + Blanks(a) + name, [open, close];
    assert s == open + Blanks(a) + "" + Blanks(0) + name;
    OpeningIs(open, a, "", 0, name);
    NoEnd(close, name);
    AllOfIt(OpenTag(open), s);
    LexRound(s, pos, tags);
    assert CharTokens("", pos) == [];
  }

  lemma NoEnd(close: string, name: string)
    requires close != "" && SpaceFree(close) && forall i: nat :: !Begins(close, name, i)
    ensures SkipTo(CloseTag(close), name) == "" && TakeLen(CloseTag(close), "") == 0
  {
    hide MatchLen, TakeLen, SkipTo, SpaceRun, SpaceFree;
    NothingTaken(close);
    SkipAt(CloseTag(close), name);
    forall i | 0 <= i <= |name|
      ensures MatchLen(CloseTag(close), name[i..]).None?
    {
      CloseIsAt(close, name, i);
      assert !Begins(close, name, i + SpaceRun(name[i..]));
    }
  }

  // Anything but two delimiters is an error that names them.
  lemma BadDelimiters(s: string, pos: nat, a: string, b: string, c: string)
    ensures Lex(s, pos, [a]) == Err("Invalid tags: " + a)
    ensures Lex(s, pos, [a, b, c]) == Err("Invalid tags: " + a + " " + b + " " + c)
  {
    var tags := [a, b, c];
    assert tags[1..] == [b, c] && [b, c][1..] == [c] && |[c]| == 1;
    assert JoinSpaces([c]) == c && JoinSpaces([b, c]) == b + " " + c && JoinSpaces(tags) == a + " " + (b + " " + c);
    assert "Invalid tags: " + (a + " " + (b + " " + c)) == "Invalid tags: " + a + " " + b + " " + c;
  }

  // --- Whole templates.

  datatype Piece = Chunk(text: string) | Tag(kind: Kind, name: string, sp: Spacing)

  function PrintAll(pieces: seq<Piece>, tags: seq<string>): string
    decreases |pieces|
  {
    if pieces == [] || |tags| != 2 then ""
    else
      match pieces[0]
      case Chunk(text) => text + PrintAll(pieces[1..], tags)
      case Tag(kind, name, sp) => Written(kind, name, sp, tags) + PrintAll(pieces[1..], Leaves(kind, name, tags))
  }

  // The tokens of the pieces, one after the other: each character of a chunk, and each tag.
  function ReadAll(pieces: seq<Piece>, pos: nat, tags: seq<string>): seq<Token>
    decreases |pieces|
  {
    if pieces == [] || |tags| != 2 then []
    else
      match pieces[0]
      case Chunk(text) => CharTokens(text, pos) + ReadAll(pieces[1..], pos + |text|, tags)
      case Tag(kind, name, sp) =>
        var end := pos + |Written(kind, name, sp, tags)|;
        [Token(if kind == Brace then Unescaped else kind, name, pos, end)] +
        ReadAll(pieces[1..], end, Leaves(kind, name, tags))
  }

  // Tags that can be written, and chunks in which no tag begins.
  ghost predicate WellWritten(pieces: seq<Piece>, tags: seq<string>)
    decreases |pieces|
  {
    && Delimiters(tags)
    && (pieces == [] ||
        match pieces[0]
        case Chunk(text) =>
          && (forall i: nat :: i < |text| ==> !Begins(tags[0], text + PrintAll(pieces[1..], tags), i))
          && WellWritten(pieces[1..], tags)
        case Tag(kind, name, sp) =>
          Writable(kind, name, sp, tags) && WellWritten(pieces[1..], Leaves(kind, name, tags)))
  }

  lemma ChunkApart(text: string, u: string, open: string)
    requires open != "" && forall i: nat :: i < |text| ==> !Begins(open, text + u, i)
    ensures Search(OpenTag(open), text).None? && Apart(text, u, open)
  {
    hide Search, Begins;
    FirstOpen(open, text);
    forall i: nat
      ensures !Begins(open, text, i)
    {
      ShortBegin(open, text, u, i);
    }
  }

  lemma ShortBegin(open: string, t: string, u: string, i: nat)
    requires open != ""
    ensures Begins(open, t, i) ==> i < |t| && Begins(open, t + u, i)
  {
    if Begins(open, t, i) {
      SameBegin(open, t, u, i);
    }
  }

  // Whatever is written in this way is read as it was written.
  lemma {:induction false} PrintLex(pieces: seq<Piece>, pos: nat, tags: seq<string>)
    requires WellWritten(pieces, tags)
    ensures Lex(PrintAll(pieces, tags), pos, tags) == Ok(ReadAll(pieces, pos, tags))
    decreases |pieces|
  {
    hide Lex, Search, Writable, FinalTags, Tail, Follows, Apart, Written, SpaceFree;
    if pieces == [] {
      LexEnd(pos, tags);
    } else {
      match pieces[0]
      case Chunk(text) =>
        var u := PrintAll(pieces[1..], tags);
        PrintLex(pieces[1..], pos + |text|, tags);
        if text == "" {
          assert text + u == u && CharTokens("", pos) == [];
          AfterTwice([], [], Lex(u, pos, tags));
        } else {
          ChunkApart(text, u, tags[0]);
          ConcatPlain(text, u, pos, tags);
        }
      case Tag(kind, name, sp) =>
        var s, next := Written(kind, name, sp, tags), Leaves(kind, name, tags);
        var u := PrintAll(pieces[1..], next);
        WrittenLex(kind, name, sp, tags, pos);
        PrintLex(pieces[1..], pos + |s|, next);
        EmptyTail(s, u, tags);
        LexConcat(s, u, pos, tags);
    }
  }
}
