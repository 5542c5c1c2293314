// Lexing templates that are put together from parts: what a written tag is read as, and that the
// tokens of a template are those of its parts.
module MustacheText {
  import opened Wrappers
  import opened MustacheScanner
  import opened MustacheLexer

  predicate SpaceFree(s: string) {
    forall c <- s :: !IsSpace(c)
  }

  // Delimiters, which hold no white space.
  predicate Delimiters(tags: seq<string>) {
    |tags| == 2 && tags[0] != "" && tags[1] != "" && SpaceFree(tags[0]) && SpaceFree(tags[1])
  }

  // There is something other than white space.
  predicate HasSolid(s: string) {
    SpaceRun(s) < |s|
  }

  lemma {:induction false} SpaceRunIs(s: string, n: nat)
    requires n < |s| && !IsSpace(s[n]) && forall i :: 0 <= i < n ==> IsSpace(s[i])
    ensures SpaceRun(s) == n
  {
  }

  lemma SpaceRunMore(s: string, u: string)
    requires HasSolid(s)
    ensures SpaceRun(s + u) == SpaceRun(s) && HasSolid(s + u)
  {
    SpaceRunIs(s + u, SpaceRun(s));
  }

  lemma SolidFrom(s: string, i: nat)
    requires i < |s| && !IsSpace(s[i])
    ensures HasSolid(s)
  {
  }

  lemma SuffixSolid(a: string, s: string)
    requires Suffix(a, s) && HasSolid(a)
    ensures HasSolid(s)
  {
    SolidFrom(s, |s| - |a| + SpaceRun(a));
  }

  // A closing delimiter without white space stands right behind the white space in front of it.
  lemma {:induction false} NotInRun(lit: string, s: string, k: nat)
    requires lit != "" && SpaceFree(lit) && k < SpaceRun(s)
    ensures !(lit <= s[k..])
  {
    assert lit[0] in lit && s[k..][0] == s[k];
  }

  lemma {:induction false} LastFitIs(lit: string, s: string, k: nat)
    requires lit != "" && SpaceFree(lit) && k <= SpaceRun(s)
    ensures LastFit(lit, s, k) == if k == SpaceRun(s) && lit <= s[k..] then Some(k) else None
  {
    if k < SpaceRun(s) {
      NotInRun(lit, s, k);
    }
    if k > 0 {
      LastFitIs(lit, s, k - 1);
    }
  }

  lemma CloseIs(lit: string, s: string)
    requires lit != "" && SpaceFree(lit)
    ensures MatchLen(CloseTag(lit), s) == if lit <= s[SpaceRun(s)..] then Some(SpaceRun(s) + |lit|) else None
    ensures MatchLen(CloseTag(lit), s).Some? ==> HasSolid(s)
  {
    LastFitIs(lit, s, SpaceRun(s));
    if lit <= s[SpaceRun(s)..] {
      assert s[SpaceRun(s)] == lit[0];
    }
  }

  // Where a closing delimiter is found does not depend on what follows it.
  lemma CloseMore(lit: string, s: string, u: string)
    requires lit != "" && SpaceFree(lit) && MatchLen(CloseTag(lit), s).Some?
    ensures MatchLen(CloseTag(lit), s + u) == MatchLen(CloseTag(lit), s)
  {
    CloseIs(lit, s);
    CloseIs(lit, s + u);
    SpaceRunMore(s, u);
    assert (s + u)[SpaceRun(s)..] == s[SpaceRun(s)..] + u;
  }

  lemma CloseIsAt(lit: string, s: string, j: nat)
    requires lit != "" && SpaceFree(lit) && j <= |s|
    ensures MatchLen(CloseTag(lit), s[j..]).Some? <==> lit <= s[j + SpaceRun(s[j..])..]
    ensures MatchLen(CloseTag(lit), s[j..]).Some? ==>
              var k := j + SpaceRun(s[j..]);
              k + |lit| <= |s| && !IsSpace(s[k])
  {
    CloseIs(lit, s[j..]);
    var r := SpaceRun(s[j..]);
    assert s[j..][r..] == s[j + r..];
    if lit <= s[j + r..] {
      assert lit[0] in lit && s[j + r..][0] == s[j + r];
    }
  }

  lemma RunBefore(s: string, u: string, j: nat, k: nat)
    requires j <= k < |s| && !IsSpace(s[k])
    ensures SpaceRun((s + u)[j..]) == SpaceRun(s[j..]) <= k - j
  {
    assert s[j..][k - j] == s[k];
    SolidFrom(s[j..], k - j);
    assert (s + u)[j..] == s[j..] + u;
    SpaceRunMore(s[j..], u);
  }

  lemma SameWithin(lit: string, s: string, u: string, m: nat)
    requires m + |lit| <= |s|
    ensures lit <= (s + u)[m..] <==> lit <= s[m..]
  {
    assert (s + u)[m..] == s[m..] + u;
    assert (s[m..] + u)[..|lit|] == s[m..][..|lit|];
  }

  lemma CloseNotBefore(lit: string, s: string, u: string, j: nat, i: nat)
    requires lit != "" && SpaceFree(lit) && j < i <= |s|
    requires MatchLen(CloseTag(lit), s[j..]).None? && MatchLen(CloseTag(lit), s[i..]).Some?
    ensures MatchLen(CloseTag(lit), (s + u)[j..]).None?
  {
    hide MatchLen, IsSpace, SpaceRun, SpaceFree;
    CloseIsAt(lit, s, i);
    CloseIsAt(lit, s, j);
    CloseIsAt(lit, s + u, j);
    RunBefore(s, u, j, i + SpaceRun(s[i..]));
    SameWithin(lit, s, u, j + SpaceRun(s[j..]));
  }

  lemma {:induction false} SearchAt(p: Pattern, s: string, i: nat)
    requires i <= |s| && MatchLen(p, s[i..]).Some?
    requires forall j :: 0 <= j < i ==> MatchLen(p, s[j..]).None?
    ensures Search(p, s) == Some(i)
  {
    hide MatchLen;
  }

  lemma CloseFound(lit: string, s: string, u: string)
    requires lit != "" && SpaceFree(lit) && Search(CloseTag(lit), s).Some?
    ensures Search(CloseTag(lit), s + u) == Search(CloseTag(lit), s)
    ensures Skipped(CloseTag(lit), s + u) == Skipped(CloseTag(lit), s)
    ensures SkipTo(CloseTag(lit), s + u) == SkipTo(CloseTag(lit), s) + u
    ensures MatchLen(CloseTag(lit), SkipTo(CloseTag(lit), s)).Some? && HasSolid(SkipTo(CloseTag(lit), s))
  {
    hide MatchLen, SpaceRun, IsSpace;
    var p := CloseTag(lit);
    var i := Search(p, s).value;
    assert (s + u)[i..] == s[i..] + u;
    CloseMore(lit, s[i..], u);
    CloseIs(lit, s[i..]);
    forall j | 0 <= j < i
      ensures MatchLen(p, (s + u)[j..]).None?
    {
      CloseNotBefore(lit, s, u, j, i);
    }
    SearchAt(p, s + u, i);
    assert (s + u)[..i] == s[..i];
  }

  // If the closing delimiter is due, it was found.
  lemma TakenFound(lit: string, s: string)
    requires lit != "" && TakeLen(CloseTag(lit), SkipTo(CloseTag(lit), s)) > 0
    ensures Search(CloseTag(lit), s).Some?
  {
    assert Search(CloseTag(lit), s).None? ==> SkipTo(CloseTag(lit), s) == "";
  }

  lemma CloseTaken(lit: string, s: string, u: string)
    requires lit != "" && SpaceFree(lit) && MatchLen(CloseTag(lit), s).Some?
    ensures TakeLen(CloseTag(lit), s + u) == TakeLen(CloseTag(lit), s) > 0
    ensures Past(CloseTag(lit), s + u) == Past(CloseTag(lit), s) + u
  {
    CloseMore(lit, s, u);
    CloseIs(lit, s);
  }

  // --- One tag, with more text behind it.

  lemma OpenMore(open: string, s: string, u: string)
    requires open != "" && open <= s && HasSolid(s[|open|..])
    ensures Past(OpenTag(open), s + u) == Past(OpenTag(open), s) + u
    ensures TakeLen(OpenTag(open), s + u) == TakeLen(OpenTag(open), s) > 0
    ensures Past(OpenTag(open), s) == s[|open|..][SpaceRun(s[|open|..])..]
  {
    assert (s + u)[|open|..] == s[|open|..] + u;
    SpaceRunMore(s[|open|..], u);
  }

  lemma MarkMore(s: string, u: string)
    requires s != ""
    ensures Taken(TagType, s + u) == Taken(TagType, s) && Past(TagType, s + u) == Past(TagType, s) + u
  {
    hide IsTagType;
    assert (s + u)[0] == s[0];
    var n := TakeLen(TagType, s);
    assert (s + u)[..n] == s[..n] && (s + u)[n..] == s[n..] + u;
  }

  lemma WhiteMore(s: string, u: string)
    requires HasSolid(s)
    ensures Past(White, s + u) == Past(White, s) + u
  {
    hide IsSpace;
    SpaceRunMore(s, u);
    assert (s + u)[SpaceRun(s)..] == s[SpaceRun(s)..] + u;
  }

  lemma TypeMore(s: string, u: string)
    requires s != "" && HasSolid(Past(TagType, s))
    ensures Taken(TagType, s + u) == Taken(TagType, s)
    ensures PastType(s + u) == PastType(s) + u
  {
    hide Past, Taken, HasSolid;
    MarkMore(s, u);
    WhiteMore(Past(TagType, s), u);
  }

  lemma PastTypeSolid(s: string)
    requires HasSolid(PastType(s))
    ensures s != "" && HasSolid(Past(TagType, s)) && HasSolid(s)
  {
    SuffixSolid(PastType(s), Past(TagType, s));
    SuffixSolid(PastType(s), s);
  }

  lemma OpeningMore(s: string, open: string, u: string)
    requires open != "" && TakeLen(OpenTag(open), s) > 0 && HasSolid(Opening(s, open).1)
    ensures TakeLen(OpenTag(open), s + u) > 0
    ensures Opening(s + u, open) == (Opening(s, open).0, Opening(s, open).1 + u)
  {
    hide Suffix, IsSpace, SpaceRun, IsTagType, PastType, KindOf;
    var s1 := Past(OpenTag(open), s);
    PastTypeSolid(s1);
    Behind(s, open);
    SuffixSolid(s1, s[|open|..]);
    OpenMore(open, s, u);
    TypeMore(s1, u);
  }

  lemma Behind(s: string, open: string)
    requires open != "" && TakeLen(OpenTag(open), s) > 0
    ensures open <= s && Suffix(Past(OpenTag(open), s), s[|open|..])
  {
    var r := SpaceRun(s[|open|..]);
    assert Past(OpenTag(open), s) == s[|open| + r..] == s[|open|..][r..];
  }

  // The closing delimiter is due behind the value.
  ghost predicate Closed(kind: Kind, s: string, close: string) {
    TakeLen(CloseTag(close), Inside(kind, s, close).1) > 0
  }

  lemma BraceFree(close: string)
    requires SpaceFree(close)
    ensures SpaceFree("}" + close) && SpaceFree("}") && SpaceFree("=")
  {
  }

  lemma Shorter(lit: string, part: string, s: string)
    requires lit != "" && SpaceFree(lit) && part != "" && part <= lit && MatchLen(CloseTag(lit), s).Some?
    ensures SpaceFree(part) && MatchLen(CloseTag(part), s).Some?
  {
    assert forall c <- part :: c in lit by {
      assert part == lit[..|part|];
    }
    CloseIs(lit, s);
    CloseIs(part, s);
  }

  lemma NothingTaken(lit: string)
    requires lit != "" && SpaceFree(lit)
    ensures SkipTo(CloseTag(lit), "") == "" && TakeLen(CloseTag(lit), "") == 0 && Past(CloseTag(lit), "") == ""
  {
    CloseIs(lit, "");
  }

  lemma UntilFound(lit: string, s: string)
    requires Search(CloseTag(lit), s).None?
    ensures SkipTo(CloseTag(lit), s) == ""
  {
  }

  lemma EndMore(lit: string, part: string, s: string, close: string, u: string)
    requires close != "" && SpaceFree(close) && lit != "" && SpaceFree(lit) && part != "" && part <= lit
    requires TakeLen(CloseTag(close), InsideEnd(CloseTag(lit), CloseTag(part), s, close)) > 0
    ensures Skipped(CloseTag(lit), s + u) == Skipped(CloseTag(lit), s)
    ensures InsideEnd(CloseTag(lit), CloseTag(part), s + u, close) ==
              InsideEnd(CloseTag(lit), CloseTag(part), s, close) + u
    ensures MatchLen(CloseTag(close), InsideEnd(CloseTag(lit), CloseTag(part), s, close)).Some? && HasSolid(s)
  {
    hide MatchLen, Search, TakeLen, SpaceRun, Suffix, SpaceFree, SkipTo, Skipped, Past, HasSolid;
    var s1 := SkipTo(CloseTag(lit), s);
    var s2 := Past(CloseTag(part), s1);
    NothingTaken(close);
    if Search(CloseTag(lit), s).None? {
      UntilFound(lit, s);
      PastNothing(part);
      assert false;
    }
    CloseFound(lit, s, u);
    Shorter(lit, part, s1);
    CloseTaken(part, s1, u);
    TakenFound(close, s2);
    CloseFound(close, s2, u);
    SuffixSolid(s1, s);
  }

  lemma PastNothing(part: string)
    ensures Past(CloseTag(part), "") == ""
  {
  }

  lemma InsideMore(kind: Kind, s: string, close: string, u: string)
    requires close != "" && SpaceFree(close) && Closed(kind, s, close)
    ensures Inside(kind, s + u, close) == (Inside(kind, s, close).0, Inside(kind, s, close).1 + u)
    ensures MatchLen(CloseTag(close), Inside(kind, s, close).1).Some? && HasSolid(s)
  {
    hide MatchLen, Search, TakeLen, SpaceRun, Suffix, SpaceFree, SkipTo, Skipped, Past;
    BraceFree(close);
    var rest := Inside(kind, s, close).1;
    if kind == SetTags {
      EndMore("=", "=", s, close, u);
    } else if kind == Brace {
      EndMore("}" + close, "}", s, close, u);
    } else {
      TakenFound(close, s);
      CloseFound(close, s, u);
      SuffixSolid(SkipTo(CloseTag(close), s), s);
    }
  }

  lemma TagMore(s: string, pos: nat, open: string, close: string, u: string)
    requires open != "" && close != "" && SpaceFree(close)
    requires TakeLen(OpenTag(open), s) > 0 && TagAt(s, pos, open, close).Ok?
    ensures TakeLen(OpenTag(open), s + u) > 0
    ensures var (token, rest) := TagAt(s, pos, open, close).value;
            TagAt(s + u, pos, open, close) == Ok((token, rest + u))
  {
    hide MatchLen, Search, TakeLen, SpaceRun, Suffix, SpaceFree, Past, HasSolid, Opening, Inside;
    var (kind, s1) := Opening(s, open);
    InsideMore(kind, s1, close, u);
    OpeningMore(s, open, u);
    CloseTaken(close, Inside(kind, s1, close).1, u);
  }

  // The delimiters in force at the end of a template, and the text behind its last tag.
  function FinalTags(s: string, tags: seq<string>): seq<string>
    decreases |s|
  {
    if |tags| != 2 || s == "" || TakeLen(OpenTag(tags[0]), SkipTo(OpenTag(tags[0]), s)) == 0 then tags
    else
      match TagAt(SkipTo(OpenTag(tags[0]), s), 0, tags[0], tags[1])
      case Err(_) => tags
      case Ok((token, rest)) => FinalTags(rest, NextTags(token, tags))
  }

  function Tail(s: string, tags: seq<string>): string
    decreases |s|
  {
    if |tags| != 2 || s == "" || TakeLen(OpenTag(tags[0]), SkipTo(OpenTag(tags[0]), s)) == 0 then s
    else
      match TagAt(SkipTo(OpenTag(tags[0]), s), 0, tags[0], tags[1])
      case Err(_) => s
      case Ok((token, rest)) => Tail(rest, NextTags(token, tags))
  }

  // Where a tag stands does not change what it is.
  lemma TagShift(s: string, p: nat, q: nat, open: string, close: string)
    requires TakeLen(OpenTag(open), s) > 0
    ensures match TagAt(s, p, open, close)
            case Err(_) => TagAt(s, q, open, close).Err?
            case Ok((token, rest)) =>
              TagAt(s, q, open, close) == Ok((token.(start := q, end := token.end - p + q), rest))
  {
    hide TakeLen, Opening, Inside, Past;
  }

  predicate Begins(open: string, s: string, i: nat) {
    i <= |s| && open <= s[i..]
  }

  // No tag begins in the first text and ends in the second.
  ghost predicate Apart(t: string, u: string, open: string) {
    forall i: nat :: i < |t| && Begins(open, t + u, i) ==> Begins(open, t, i)
  }

  lemma OpenIs(open: string, s: string)
    requires open != ""
    ensures MatchLen(OpenTag(open), s).Some? <==> open <= s
    ensures open <= s ==> TakeLen(OpenTag(open), s) > 0
  {
  }

  lemma FirstOpen(open: string, s: string)
    requires open != ""
    ensures var r := Search(OpenTag(open), s);
            && (r.None? <==> TakeLen(OpenTag(open), SkipTo(OpenTag(open), s)) == 0)
            && (r.None? ==> forall i: nat :: !Begins(open, s, i))
            && (r.Some? ==> Begins(open, s, r.value) && forall i: nat :: i < r.value ==> !Begins(open, s, i))
  {
    hide MatchLen, TakeLen;
    forall i | 0 <= i <= |s|
      ensures MatchLen(OpenTag(open), s[i..]).Some? <==> open <= s[i..]
      ensures open <= s[i..] ==> TakeLen(OpenTag(open), s[i..]) > 0
    {
      OpenIs(open, s[i..]);
    }
    if Search(OpenTag(open), s).None? {
      assert s[|s|..] == "";
      OpenIs(open, "");
      TakeNothing(OpenTag(open), "");
    }
  }

  lemma TakeNothing(p: Pattern, s: string)
    ensures MatchLen(p, s).None? ==> TakeLen(p, s) == 0
  {
  }

  lemma SearchOpen(open: string, s: string, i: nat)
    requires open != "" && Begins(open, s, i) && forall j: nat :: j < i ==> !Begins(open, s, j)
    ensures Search(OpenTag(open), s) == Some(i)
  {
    hide MatchLen;
    forall j | 0 <= j <= |s|
      ensures MatchLen(OpenTag(open), s[j..]).Some? <==> Begins(open, s, j)
    {
      OpenIs(open, s[j..]);
    }
    SearchAt(OpenTag(open), s, i);
  }

  lemma SameBegin(open: string, t: string, u: string, j: nat)
    requires j + |open| <= |t|
    ensures Begins(open, t + u, j) <==> Begins(open, t, j)
  {
    SameWithin(open, t, u, j);
  }

  // The first tag, with more text behind the template.
  lemma OpenFound(open: string, t: string, u: string)
    requires open != "" && Search(OpenTag(open), t).Some?
    ensures Search(OpenTag(open), t + u) == Search(OpenTag(open), t)
    ensures SkipTo(OpenTag(open), t + u) == SkipTo(OpenTag(open), t) + u
    ensures Skipped(OpenTag(open), t + u) == Skipped(OpenTag(open), t)
  {
    hide MatchLen, Search, SkipTo, Skipped, TakeLen;
    FirstOpen(open, t);
    var i := Search(OpenTag(open), t).value;
    assert |open| <= |t| - i;
    forall j: nat | j <= i
      ensures Begins(open, t + u, j) <==> Begins(open, t, j)
    {
      SameBegin(open, t, u, j);
    }
    SearchOpen(open, t + u, i);
    SkipAt(OpenTag(open), t);
    SkipAt(OpenTag(open), t + u);
    assert (t + u)[i..] == t[i..] + u && (t + u)[..i] == t[..i];
  }

  // Where the first tag begins.
  function FirstAt(open: string, s: string): Option<nat> {
    Search(OpenTag(open), s)
  }

  lemma OpensFirst(open: string, s: string)
    requires open != ""
    ensures var r := FirstAt(open, s);
            && (r.None? ==> forall i: nat :: !Begins(open, s, i))
            && (r.Some? ==> Begins(open, s, r.value) && forall i: nat :: i < r.value ==> !Begins(open, s, i))
  {
    hide Search, TakeLen, SkipTo, Begins;
    FirstOpen(open, s);
  }

  lemma OpensAt(open: string, s: string, n: nat)
    requires open != "" && forall j: nat :: j < n ==> !Begins(open, s, j)
    ensures Begins(open, s, n) ==> FirstAt(open, s) == Some(n)
    ensures n > |s| ==> FirstAt(open, s) == None
  {
    hide FirstAt;
    OpensFirst(open, s);
  }

  // No tag begins in a text.
  lemma NoneHere(open: string, t: string, u: string, j: nat)
    requires open != "" && FirstAt(open, t).None? && Apart(t, u, open) && j < |t|
    ensures !Begins(open, t + u, j)
  {
    hide FirstAt, Begins;
    OpensFirst(open, t);
  }

  lemma Later(open: string, t: string, u: string, j: nat)
    requires |t| <= j <= |t + u|
    ensures Begins(open, t + u, j) <==> Begins(open, u, j - |t|)
  {
    assert (t + u)[j..] == u[j - |t|..];
  }

  // No tag in a text: what follows is looked at.
  lemma OpenLater(open: string, t: string, u: string)
    requires open != "" && FirstAt(open, t).None? && Apart(t, u, open)
    ensures var r := FirstAt(open, u);
            FirstAt(open, t + u) == if r.None? then None else Some(|t| + r.value)
  {
    hide FirstAt, Apart;
    OpensFirst(open, u);
    var r := FirstAt(open, u);
    var n := if r.None? then |u| + 1 else r.value;
    forall j: nat | j < |t| + n
      ensures !Begins(open, t + u, j)
    {
      if j < |t| {
        NoneHere(open, t, u, j);
      } else if j <= |t + u| {
        Later(open, t, u, j);
      }
    }
    if r.Some? {
      Later(open, t, u, |t| + n);
    }
    OpensAt(open, t + u, |t| + n);
  }

  lemma SkipAt(p: Pattern, s: string)
    ensures var n := match Search(p, s) case None => |s| case Some(i) => i;
            SkipTo(p, s) == s[n..] && Skipped(p, s) == s[..n]
  {
    hide MatchLen;
  }

  lemma LaterParts(open: string, t: string, u: string)
    requires open != "" && Search(OpenTag(open), t).None? && Apart(t, u, open)
    ensures SkipTo(OpenTag(open), t + u) == SkipTo(OpenTag(open), u)
    ensures Skipped(OpenTag(open), t + u) == t + Skipped(OpenTag(open), u)
  {
    hide Search, Apart, SkipTo, Skipped, MatchLen;
    OpenLater(open, t, u);
    SkipAt(OpenTag(open), u);
    SkipAt(OpenTag(open), t + u);
    var r := FirstAt(open, u);
    var n := if r.None? then |u| else r.value;
    assert (t + u)[|t| + n..] == u[n..];
    assert (t + u)[..|t| + n] == t + u[..n];
  }

  // --- Templates put together.

  // The second template follows the first without a tag across the boundary.
  ghost predicate Follows(t: string, u: string, tags: seq<string>) {
    |FinalTags(t, tags)| == 2 ==> Apart(Tail(t, tags), u, FinalTags(t, tags)[0])
  }

  lemma {:induction false} SplitFree(s: string, n: nat)
    requires n <= |s| && SpaceFree(s[..n])
    ensures forall w <- SplitWord(s, n) :: SpaceFree(w)
    decreases |s|, |s| - n
  {
    if n == |s| {
      assert s[..n] == s;
    } else if IsSpace(s[n]) {
      SplitFree(s[n + SpaceRun(s[n..])..], 0);
    } else {
      assert s[..n + 1] == s[..n] + [s[n]];
      SplitFree(s, n + 1);
    }
  }

  // New delimiters, if there are two, are delimiters again.
  lemma NextDelimiters(s: string, pos: nat, tags: seq<string>)
    requires Delimiters(tags) && TakeLen(OpenTag(tags[0]), s) > 0 && TagAt(s, pos, tags[0], tags[1]).Ok?
    ensures var next := NextTags(TagAt(s, pos, tags[0], tags[1]).value.0, tags);
            |next| == 2 ==> Delimiters(next)
  {
    hide TagAt, TakeLen, SplitWord, IsSpace;
    var token := TagAt(s, pos, tags[0], tags[1]).value.0;
    if token.kind == SetTags {
      SetTagsNonEmpty(s, pos, tags[0], tags[1]);
      SplitFree(token.value, 0);
    }
  }

  lemma CharsConcat(a: string, b: string, pos: nat)
    ensures CharTokens(a + b, pos) == CharTokens(a, pos) + CharTokens(b, pos + |a|)
  {
  }

  lemma AfterTwice(a: seq<Token>, b: seq<Token>, r: Result<seq<Token>>)
    ensures After(a + b, r) == After(a, After(b, r)) && After([], r) == r
  {
    if r.Ok? {
      assert a + b + r.value == a + (b + r.value);
      assert [] + r.value == r.value;
    }
  }

  lemma ConcatPlain(t: string, u: string, pos: nat, tags: seq<string>)
    requires Delimiters(tags) && t != "" && Search(OpenTag(tags[0]), t).None? && Apart(t, u, tags[0])
    ensures Lex(t, pos, tags) == Ok(CharTokens(t, pos))
    ensures Lex(t + u, pos, tags) == After(CharTokens(t, pos), Lex(u, pos + |t|, tags))
  {
    hide Lex, TagAt, TakeLen, Search, MatchLen, SkipTo, Skipped, Apart, CharTokens, SpaceFree;
    FirstOpen(tags[0], t);
    LexRound(t, pos, tags);
    SkipAt(OpenTag(tags[0]), t);
    assert t[..|t|] == t;
    if u == "" {
      assert t + u == t;
      LexEnd(pos + |t|, tags);
      assert CharTokens(t, pos) + [] == CharTokens(t, pos);
    } else {
      LaterParts(tags[0], t, u);
      LexRound(t + u, pos, tags);
      LexRound(u, pos + |t|, tags);
      var value := Skipped(OpenTag(tags[0]), u);
      CharsConcat(t, value, pos);
      var chars, more := CharTokens(t, pos), CharTokens(value, pos + |t|);
      forall token: Token, r
        ensures After(chars + more + [token], r) == After(chars, After(more + [token], r))
      {
        assert chars + more + [token] == chars + (more + [token]);
        AfterTwice(chars, more + [token], r);
      }
    }
  }

  lemma TagRound(t: string, u: string, pos: nat, tags: seq<string>)
    requires Delimiters(tags) && t != "" && Search(OpenTag(tags[0]), t).Some? && Lex(t, pos, tags).Ok?
    ensures var s1 := SkipTo(OpenTag(tags[0]), t);
            var n := |t| - |s1|;
            && TakeLen(OpenTag(tags[0]), s1) > 0 && TagAt(s1, pos + n, tags[0], tags[1]).Ok?
            && var (token, rest) := TagAt(s1, pos + n, tags[0], tags[1]).value;
            && var front := CharTokens(Skipped(OpenTag(tags[0]), t), pos) + [token];
            && |rest| < |t| && token.end + |rest| == pos + |t|
            && Lex(t, pos, tags) == After(front, Lex(rest, token.end, NextTags(token, tags)))
            && Lex(t + u, pos, tags) == After(front, Lex(rest + u, token.end, NextTags(token, tags)))
            && FinalTags(t, tags) == FinalTags(rest, NextTags(token, tags))
            && Tail(t, tags) == Tail(rest, NextTags(token, tags))
  {
    hide Lex, TagAt, TakeLen, Search, MatchLen, SkipTo, Skipped, CharTokens, SpaceFree, NextTags;
    FirstOpen(tags[0], t);
    LexRound(t, pos, tags);
    var s1 := SkipTo(OpenTag(tags[0]), t);
    var n := |t| - |s1|;
    TagMore(s1, pos + n, tags[0], tags[1], u);
    TagShift(s1, pos + n, 0, tags[0], tags[1]);
    OpenFound(tags[0], t, u);
    LexRound(t + u, pos, tags);
    NextIs(TagAt(s1, pos + n, tags[0], tags[1]).value.0, TagAt(s1, 0, tags[0], tags[1]).value.0, tags);
  }

  lemma NextIs(a: Token, b: Token, tags: seq<string>)
    requires a.kind == b.kind && a.value == b.value
    ensures NextTags(a, tags) == NextTags(b, tags)
  {
  }

  // The tokens of a template followed by another are its own and those of the other, read with the
  // delimiters in force by then.
  lemma {:induction false} LexConcat(t: string, u: string, pos: nat, tags: seq<string>)
    requires Delimiters(tags) && Lex(t, pos, tags).Ok? && Follows(t, u, tags)
    ensures Delimiters(FinalTags(t, tags))
    ensures Lex(t + u, pos, tags) == After(Lex(t, pos, tags).value, Lex(u, pos + |t|, FinalTags(t, tags)))
    decreases |t|
  {
    hide Lex, TagAt, TakeLen, Search, MatchLen, SkipTo, Skipped, CharTokens, SpaceFree, NextTags, Apart;
    if t == "" {
      assert t + u == u;
      LexEnd(pos, tags);
      AfterTwice([], [], Lex(u, pos, tags));
    } else {
      FirstOpen(tags[0], t);
      if Search(OpenTag(tags[0]), t).None? {
        ConcatPlain(t, u, pos, tags);
      } else {
        TagRound(t, u, pos, tags);
        var s1 := SkipTo(OpenTag(tags[0]), t);
        var n := |t| - |s1|;
        var (token, rest) := TagAt(s1, pos + n, tags[0], tags[1]).value;
        NextDelimiters(s1, pos + n, tags);
        var next := NextTags(token, tags);
        if |next| != 2 {
          LexBadTags(rest, token.end, next);
        }
        LexConcat(rest, u, token.end, next);
        var front := CharTokens(Skipped(OpenTag(tags[0]), t), pos) + [token];
        AfterTwice(front, Lex(rest, token.end, next).value, Lex(u, pos + |t|, FinalTags(t, tags)));
      }
    }
  }
}
