// White space on lines that hold nothing but block tags is dropped; adjacent text is joined.
module MustacheStrip {
  import opened MustacheScanner
  import opened MustacheLexer

  predicate IsNewline(t: Token) {
    t.kind == Text && t.value == "\n"
  }

  predicate IsBlank(t: Token) {
    t.kind == Text && |t.value| == 1 && IsSpace(t.value[0])
  }

  // Something that keeps the white space of its line: visible text, or a tag that prints.
  predicate IsSolid(t: Token) {
    if t.kind == Text then !IsBlank(t) else t.kind == Name || t.kind == Brace || t.kind == Unescaped
  }

  predicate HasTag(line: seq<Token>) {
    exists i :: 0 <= i < |line| && line[i].kind != Text
  }

  predicate HasSolid(line: seq<Token>) {
    exists i :: 0 <= i < |line| && IsSolid(line[i])
  }

  predicate Standalone(line: seq<Token>) {
    HasTag(line) && !HasSolid(line)
  }

  // A line stands for its tags alone if it has one, and apart from white space nothing but sections,
  // partials, comments and new delimiters.
  lemma StandaloneExactly(line: seq<Token>)
    requires forall t <- line :: t.kind != Brace
    ensures Standalone(line) <==>
              && (exists t :: t in line && t.kind != Text)
              && forall t <- line ::
                   if t.kind == Text then |t.value| == 1 && IsSpace(t.value[0])
                   else t.kind in {Section, Inverted, Closer, Partial, Comment, SetTags}
  {
    hide IsSpace;
    forall i | 0 <= i < |line|
      ensures IsSolid(line[i]) <==>
                if line[i].kind == Text then !(|line[i].value| == 1 && IsSpace(line[i].value[0]))
                else line[i].kind !in {Section, Inverted, Closer, Partial, Comment, SetTags}
    {
      assert line[i] in line;
    }
    if t :| t in line && t.kind != Text {
      var i :| 0 <= i < |line| && line[i] == t;
    }
  }

  function WithoutBlanks(line: seq<Token>): (r: seq<Token>) {
    if line == [] then []
    else WithoutBlanks(line[..|line| - 1]) + if IsBlank(line[|line| - 1]) then [] else [line[|line| - 1]]
  }

  function StripLine(line: seq<Token>): seq<Token> {
    if Standalone(line) then WithoutBlanks(line) else line
  }

  // The tokens after `line`, the beginning of the current line. A last line that does not
  // end is left as it is.
  function StripFrom(line: seq<Token>, tokens: seq<Token>): seq<Token>
    decreases |tokens|
  {
    if tokens == [] then line
    else if IsNewline(tokens[0]) then StripLine(line + [tokens[0]]) + StripFrom([], tokens[1..])
    else StripFrom(line + [tokens[0]], tokens[1..])
  }

  function Strip(tokens: seq<Token>): seq<Token> {
    StripFrom([], tokens)
  }

  // tokens[lo..hi] is a whole line, with the newline that ends it.
  ghost predicate IsLine(tokens: seq<Token>, lo: int, hi: int) {
    && 0 <= lo < hi <= |tokens| && IsNewline(tokens[hi - 1])
    && (lo == 0 || IsNewline(tokens[lo - 1]))
    && forall i :: lo <= i < hi - 1 ==> !IsNewline(tokens[i])
  }

  ghost predicate StandaloneLine(tokens: seq<Token>, lo: int, hi: int) {
    IsLine(tokens, lo, hi) && Standalone(tokens[lo..hi])
  }

  // Token i is white space on a line that holds only non-printing tags and partials.
  ghost predicate Dropped(tokens: seq<Token>, i: int) {
    && 0 <= i < |tokens| && IsBlank(tokens[i])
    && exists lo, hi :: StandaloneLine(tokens, lo, hi) && lo <= i < hi
  }

  ghost predicate Covers(tokens: seq<Token>, p: nat) {
    exists i :: 0 <= i < |tokens| && tokens[i].start <= p < tokens[i].end
  }

  // In order, apart, none empty, and within the given part of the template.
  ghost predicate Ordered(tokens: seq<Token>, from: nat, to: nat) {
    && (forall i :: 0 <= i < |tokens| ==> from <= tokens[i].start < tokens[i].end <= to)
    && (forall i, j :: 0 <= i < j < |tokens| ==> tokens[i].end <= tokens[j].start)
  }

  // Text next to text leaves no gap.
  ghost predicate Joined(tokens: seq<Token>) {
    forall i :: 0 <= i < |tokens| - 1 && tokens[i].kind == Text && tokens[i + 1].kind == Text ==>
      tokens[i].end == tokens[i + 1].start
  }

  lemma {:induction false} TilesOrdered(tokens: seq<Token>, from: nat, to: nat)
    requires Tiles(tokens, from, to)
    ensures from <= to && Ordered(tokens, from, to)
    ensures forall i :: 0 <= i < |tokens| - 1 ==> tokens[i].end == tokens[i + 1].start
    ensures forall p :: from <= p < to ==> Covers(tokens, p)
    ensures tokens != [] ==> tokens[0].start == from && tokens[|tokens| - 1].end == to
  {
    hide Covers;
    if tokens != [] {
      var rest := tokens[1..];
      TilesOrdered(rest, tokens[0].end, to);
      assert forall i :: 0 < i < |tokens| ==> tokens[i] == rest[i - 1];
      forall p | from <= p < to
        ensures Covers(tokens, p)
      {
        CoversMore(tokens, p);
      }
    }
  }

  lemma CoversMore(tokens: seq<Token>, p: nat)
    requires tokens != []
    ensures tokens[0].start <= p < tokens[0].end ==> Covers(tokens, p)
    ensures Covers(tokens[1..], p) ==> Covers(tokens, p)
  {
    var rest := tokens[1..];
    if Covers(rest, p) {
      var i :| 0 <= i < |rest| && rest[i].start <= p < rest[i].end;
      assert tokens[i + 1] == rest[i];
    }
  }

  lemma {:induction false} TilesSplit(a: seq<Token>, b: seq<Token>, from: nat, to: nat) returns (mid: nat)
    requires Tiles(a + b, from, to)
    ensures Tiles(a, from, mid) && Tiles(b, mid, to)
  {
    if a == [] {
      assert a + b == b;
      mid := from;
    } else {
      assert (a + b)[1..] == a[1..] + b;
      mid := TilesSplit(a[1..], b, a[0].end, to);
    }
  }

  // The blanks of a standalone line are all its text.
  lemma {:induction false} WithoutBlanksTags(line: seq<Token>)
    ensures forall t :: t in WithoutBlanks(line) <==> t in line && !IsBlank(t)
  {
    if line != [] {
      var last := |line| - 1;
      WithoutBlanksTags(line[..last]);
      assert line == line[..last] + [line[last]];
    }
  }

  lemma {:induction false} WithoutBlanksOrdered(line: seq<Token>, from: nat, to: nat)
    requires Tiles(line, from, to)
    ensures Ordered(WithoutBlanks(line), from, to)
    decreases |line|
  {
    if line != [] {
      var last := |line| - 1;
      assert line == line[..last] + [line[last]];
      var mid := TilesSplit(line[..last], [line[last]], from, to);
      WithoutBlanksOrdered(line[..last], from, mid);
      TilesOrdered(line[..last], from, mid);
    }
  }

  // A stretch of the template, tidied up: what is left is in order, and text touches text, or
  // the borders of the stretch, without a gap.
  ghost predicate Tidy(tokens: seq<Token>, from: nat, to: nat) {
    && from <= to && Ordered(tokens, from, to) && Joined(tokens)
    && (tokens != [] && tokens[0].kind == Text ==> tokens[0].start == from)
    && (tokens != [] && tokens[|tokens| - 1].kind == Text ==> tokens[|tokens| - 1].end == to)
  }

  lemma TidyConcat(a: seq<Token>, b: seq<Token>, from: nat, mid: nat, to: nat)
    requires Tidy(a, from, mid) && Tidy(b, mid, to)
    requires a != [] && (b == [] ==> mid == to)
    ensures Tidy(a + b, from, to)
  {
    var r := a + b;
    forall i | 0 <= i < |r| - 1 && r[i].kind == Text && r[i + 1].kind == Text
      ensures r[i].end == r[i + 1].start
    {
      if i == |a| - 1 {
        assert r[i] == a[|a| - 1] && r[i + 1] == b[0];
      }
    }
  }

  lemma StandaloneTidy(line: seq<Token>, from: nat, to: nat)
    requires Tiles(line, from, to) && Standalone(line)
    ensures var r := WithoutBlanks(line); r != [] && Tidy(r, from, to)
  {
    hide IsSpace;
    TilesOrdered(line, from, to);
    WithoutBlanksTags(line);
    WithoutBlanksOrdered(line, from, to);
    var r := WithoutBlanks(line);
    var i :| 0 <= i < |line| && line[i].kind != Text;
    assert line[i] in r;
    forall j | 0 <= j < |r|
      ensures r[j].kind != Text
    {
      assert r[j] in line && !IsBlank(r[j]);
    }
  }

  lemma StripLineTidy(line: seq<Token>, from: nat, to: nat)
    requires Tiles(line, from, to) && line != []
    ensures StripLine(line) != [] && Tidy(StripLine(line), from, to)
    ensures forall t :: t in StripLine(line) <==> t in line && !(IsBlank(t) && Standalone(line))
  {
    hide IsSpace, IsBlank, HasTag, HasSolid;
    TilesOrdered(line, from, to);
    if Standalone(line) {
      StandaloneTidy(line, from, to);
      WithoutBlanksTags(line);
    }
  }

  // What is dropped is decided line by line.
  lemma DroppedFirstLine(line: seq<Token>, rest: seq<Token>, i: nat)
    requires IsLine(line, 0, |line|) && i < |line|
    ensures Dropped(line + rest, i) <==> IsBlank(line[i]) && Standalone(line)
  {
    var all := line + rest;
    assert all[0..|line|] == line;
    if IsBlank(line[i]) && Standalone(line) {
      assert StandaloneLine(all, 0, |line|);
    }
    if Dropped(all, i) {
      var lo, hi :| StandaloneLine(all, lo, hi) && lo <= i < hi;
      assert forall k :: 0 <= k < |line| ==> all[k] == line[k];
    }
  }

  lemma LineShift(line: seq<Token>, rest: seq<Token>, lo: nat, hi: nat)
    requires IsLine(line, 0, |line|)
    ensures StandaloneLine(line + rest, |line| + lo, |line| + hi) <==> StandaloneLine(rest, lo, hi)
  {
    hide Standalone, IsNewline;
    var all, n := line + rest, |line|;
    assert forall k :: n <= k < |all| ==> all[k] == rest[k - n];
    assert all[n - 1] == line[n - 1];
    if lo <= hi <= |rest| {
      assert all[n + lo..n + hi] == rest[lo..hi];
    }
    if IsLine(rest, lo, hi) {
      assert forall k :: n + lo <= k < n + hi - 1 ==> !IsNewline(all[k]);
    }
    if IsLine(all, n + lo, n + hi) {
      assert forall k :: lo <= k < hi - 1 ==> rest[k] == all[n + k];
    }
  }

  lemma LaterLine(line: seq<Token>, rest: seq<Token>, lo: int, hi: int)
    requires IsLine(line, 0, |line|) && StandaloneLine(line + rest, lo, hi) && hi > |line|
    ensures lo >= |line|
  {
    assert (line + rest)[|line| - 1] == line[|line| - 1];
  }

  lemma DroppedLaterLine(line: seq<Token>, rest: seq<Token>, i: nat)
    requires IsLine(line, 0, |line|) && i < |rest|
    ensures Dropped(line + rest, |line| + i) <==> Dropped(rest, i)
  {
    hide StandaloneLine, IsLine, IsBlank;
    var all, n := line + rest, |line|;
    if Dropped(all, n + i) {
      var lo, hi :| StandaloneLine(all, lo, hi) && lo <= n + i < hi;
      LaterLine(line, rest, lo, hi);
      LineShift(line, rest, lo - n, hi - n);
    }
    if Dropped(rest, i) {
      var lo, hi :| StandaloneLine(rest, lo, hi) && lo <= i < hi;
      StandaloneBounds(rest, lo, hi);
      LineShift(line, rest, lo, hi);
    }
  }

  lemma StandaloneBounds(tokens: seq<Token>, lo: int, hi: int)
    requires StandaloneLine(tokens, lo, hi)
    ensures 0 <= lo < hi
  {
  }

  ghost predicate Survives(all: seq<Token>, t: Token) {
    exists i :: 0 <= i < |all| && all[i] == t && !Dropped(all, i)
  }

  lemma SurvivesConcat(line: seq<Token>, rest: seq<Token>, t: Token)
    requires IsLine(line, 0, |line|)
    ensures Survives(line + rest, t) <==> (t in line && !(IsBlank(t) && Standalone(line))) || Survives(rest, t)
  {
    var all := line + rest;
    if Survives(all, t) {
      var i :| 0 <= i < |all| && all[i] == t && !Dropped(all, i);
      if i < |line| {
        DroppedFirstLine(line, rest, i);
      } else {
        DroppedLaterLine(line, rest, i - |line|);
      }
    }
    if t in line && !(IsBlank(t) && Standalone(line)) {
      var i :| 0 <= i < |line| && line[i] == t;
      DroppedFirstLine(line, rest, i);
      assert all[i] == t;
    }
    if Survives(rest, t) {
      var i :| 0 <= i < |rest| && rest[i] == t && !Dropped(rest, i);
      DroppedLaterLine(line, rest, i);
      assert all[|line| + i] == t;
    }
  }

  // An unfinished line loses nothing.
  lemma LastLine(line: seq<Token>, from: nat, to: nat)
    requires Tiles(line, from, to)
    requires forall i :: 0 <= i < |line| ==> !IsNewline(line[i])
    ensures Tidy(line, from, to) && (line == [] ==> from == to)
    ensures forall t :: t in line <==> Survives(line, t)
  {
    TilesOrdered(line, from, to);
    forall t
      ensures t in line <==> Survives(line, t)
    {
      if t in line {
        var i :| 0 <= i < |line| && line[i] == t;
        assert !Dropped(line, i);
      }
    }
  }

  lemma NewLine(line: seq<Token>, token: Token)
    requires forall i :: 0 <= i < |line| ==> !IsNewline(line[i])
    requires IsNewline(token)
    ensures IsLine(line + [token], 0, |line| + 1)
  {
  }

  // Stripping drops exactly the white space of standalone lines, and leaves the rest tidy.
  lemma {:induction false} StripExactly(line: seq<Token>, tokens: seq<Token>, from: nat, to: nat)
    requires Tiles(line + tokens, from, to)
    requires forall i :: 0 <= i < |line| ==> !IsNewline(line[i])
    ensures Tidy(StripFrom(line, tokens), from, to)
    ensures forall t :: t in StripFrom(line, tokens) <==> Survives(line + tokens, t)
    ensures StripFrom(line, tokens) == [] ==> from == to
    decreases |tokens|
  {
    hide Tidy, Survives, Tiles, StripLine, IsNewline, IsBlank, Standalone, IsLine;
    if tokens == [] {
      assert line + tokens == line;
      LastLine(line, from, to);
    } else {
      var more, rest := line + [tokens[0]], tokens[1..];
      assert more + rest == line + tokens;
      if IsNewline(tokens[0]) {
        var mid := TilesSplit(more, rest, from, to);
        StripLineTidy(more, from, mid);
        assert [] + rest == rest;
        StripExactly([], rest, mid, to);
        NewLine(line, tokens[0]);
        TidyConcat(StripLine(more), StripFrom([], rest), from, mid, to);
        forall t
          ensures t in StripLine(more) + StripFrom([], rest) <==> Survives(line + tokens, t)
        {
          SurvivesConcat(more, rest, t);
        }
      } else {
        StripExactly(more, rest, from, to);
      }
    }
  }

  // Consecutive text tokens become one.
  function Squash(tokens: seq<Token>): seq<Token> {
    SquashOnto([], tokens)
  }

  // The tokens already squashed, and those to come.
  function SquashOnto(squashed: seq<Token>, tokens: seq<Token>): seq<Token>
    decreases |tokens|
  {
    if tokens == [] then squashed
    else SquashOnto(Extend(squashed, tokens[0]), tokens[1..])
  }

  function Extend(squashed: seq<Token>, token: Token): seq<Token> {
    var n := |squashed|;
    if n > 0 && squashed[n - 1].kind == Text && token.kind == Text then
      squashed[n - 1 := squashed[n - 1].(value := squashed[n - 1].value + token.value, end := token.end)]
    else squashed + [token]
  }

  // Text tokens are slices of the template.
  ghost predicate Slices(tokens: seq<Token>, template: string) {
    forall i :: 0 <= i < |tokens| && tokens[i].kind == Text ==>
      tokens[i].start <= tokens[i].end <= |template| && tokens[i].value == template[tokens[i].start..tokens[i].end]
  }

  ghost predicate NoTextPairs(tokens: seq<Token>) {
    forall i :: 0 <= i < |tokens| - 1 ==> !(tokens[i].kind == Text && tokens[i + 1].kind == Text)
  }

  function TagsOf(tokens: seq<Token>): seq<Token> {
    if tokens == [] then []
    else TagsOf(tokens[..|tokens| - 1]) + if tokens[|tokens| - 1].kind == Text then [] else [tokens[|tokens| - 1]]
  }

  lemma {:induction false} TagsOfConcat(a: seq<Token>, b: seq<Token>)
    ensures TagsOf(a + b) == TagsOf(a) + TagsOf(b)
    decreases |b|
  {
    if b == [] {
      assert a + b == a;
    } else {
      TagsOfConcat(a, b[..|b| - 1]);
      assert (a + b)[..|a + b| - 1] == a + b[..|b| - 1];
    }
  }

  // Tokens n-1 and n, both text, become one.
  function MergeAt(tokens: seq<Token>, n: nat): seq<Token>
    requires 0 < n < |tokens|
  {
    tokens[..n - 1] + [tokens[n - 1].(value := tokens[n - 1].value + tokens[n].value, end := tokens[n].end)] +
        tokens[n + 1..]
  }

  lemma MergeKeeps(tokens: seq<Token>, n: nat, template: string)
    requires 0 < n < |tokens| && tokens[n - 1].kind == Text && tokens[n].kind == Text
    requires Ordered(tokens, 0, |template|) && Joined(tokens) && Slices(tokens, template)
    ensures var r := MergeAt(tokens, n); Ordered(r, 0, |template|) && Joined(r) && Slices(r, template)
  {
    var r := MergeAt(tokens, n);
    assert tokens[n - 1].end == tokens[n].start;
    var one := r[n - 1];
    assert one.kind == Text && one.start == tokens[n - 1].start && one.end == tokens[n].end;
    assert one.value == template[one.start..one.end];
    Merged(tokens, n);
    hide MergeAt;
    forall i | 0 <= i < |r| && r[i].kind == Text
      ensures r[i].start <= r[i].end <= |template| && r[i].value == template[r[i].start..r[i].end]
    {
      if i != n - 1 {
        assert r[i] == tokens[if i < n then i else i + 1];
      }
    }
    hide Slices;
  }

  lemma Merged(tokens: seq<Token>, n: nat)
    requires 0 < n < |tokens|
    ensures var r := MergeAt(tokens, n);
            && |r| == |tokens| - 1
            && (forall i :: 0 <= i < n - 1 ==> r[i] == tokens[i])
            && (forall i :: n <= i < |r| ==> r[i] == tokens[i + 1])
  {
  }

  lemma MergeCovers(tokens: seq<Token>, n: nat)
    requires 0 < n < |tokens| && tokens[n - 1].end == tokens[n].start
    requires tokens[n - 1].start <= tokens[n - 1].end && tokens[n].start <= tokens[n].end
    ensures forall p :: Covers(MergeAt(tokens, n), p) <==> Covers(tokens, p)
  {
    var r := MergeAt(tokens, n);
    forall p: nat
      ensures Covers(r, p) <==> Covers(tokens, p)
    {
      if Covers(tokens, p) {
        var i :| 0 <= i < |tokens| && tokens[i].start <= p < tokens[i].end;
        var j := if i < n then i else i - 1;
        assert r[j].start <= p < r[j].end;
      }
      if Covers(r, p) {
        var i :| 0 <= i < |r| && r[i].start <= p < r[i].end;
        var j := if i < n - 1 then i else if i >= n then i + 1 else if p < tokens[n - 1].end then n - 1 else n;
        assert tokens[j].start <= p < tokens[j].end;
      }
    }
  }

  lemma {:induction false} TextHasNoTags(a: seq<Token>, text: seq<Token>, b: seq<Token>)
    requires forall i :: 0 <= i < |text| ==> text[i].kind == Text
    ensures TagsOf(a + text + b) == TagsOf(a) + TagsOf(b)
    decreases |text|
  {
    if text == [] {
      assert a + text == a;
      TagsOfConcat(a, b);
    } else {
      TagsOfConcat(a + text, b);
      TextHasNoTags(a, text[..|text| - 1], []);
      assert (a + text)[..|a + text| - 1] == a + text[..|text| - 1] + [];
    }
  }

  lemma MergeTags(tokens: seq<Token>, n: nat)
    requires 0 < n < |tokens| && tokens[n - 1].kind == Text && tokens[n].kind == Text
    ensures TagsOf(MergeAt(tokens, n)) == TagsOf(tokens)
  {
    var a, b, r := tokens[..n - 1], tokens[n + 1..], MergeAt(tokens, n);
    assert tokens == a + tokens[n - 1..n + 1] + b;
    assert r == a + [r[n - 1]] + b;
    TextHasNoTags(a, tokens[n - 1..n + 1], b);
    TextHasNoTags(a, [r[n - 1]], b);
  }

  // Squashing keeps the covered positions, the order and the tags, and makes text tokens
  // into maximal slices.
  lemma {:induction false} SquashKeeps(squashed: seq<Token>, tokens: seq<Token>, template: string)
    requires Ordered(squashed + tokens, 0, |template|) && Joined(squashed + tokens)
    requires Slices(squashed + tokens, template) && NoTextPairs(squashed)
    ensures var r := SquashOnto(squashed, tokens);
            && Ordered(r, 0, |template|) && Slices(r, template) && NoTextPairs(r)
            && TagsOf(r) == TagsOf(squashed + tokens)
            && forall p :: Covers(r, p) <==> Covers(squashed + tokens, p)
    decreases |tokens|
  {
    hide TagsOf, Slices, Joined, Covers;
    if tokens == [] {
      assert squashed + tokens == squashed;
    } else {
      var n, all := |squashed|, squashed + tokens;
      var next := Extend(squashed, tokens[0]);
      if n > 0 && squashed[n - 1].kind == Text && tokens[0].kind == Text {
        MergeKeeps(all, n, template);
        TouchAt(all, n);
        MergeCovers(all, n);
        MergeTags(all, n);
        assert next + tokens[1..] == MergeAt(all, n);
      } else {
        assert next + tokens[1..] == all;
      }
      SquashKeeps(next, tokens[1..], template);
    }
  }

  lemma TouchAt(tokens: seq<Token>, n: nat)
    requires 0 < n < |tokens| && tokens[n - 1].kind == Text && tokens[n].kind == Text && Joined(tokens)
    ensures tokens[n - 1].end == tokens[n].start
  {
    assert tokens[n - 1 + 1] == tokens[n];
  }
}
