// mustache.js's Scanner, and the handful of regular expressions it is used with.
module MustacheScanner {
  import opened Wrappers

  // \s
  predicate IsSpace(c: char) {
    || c == '\t' || c == '\n' || c == '\U{000B}' || c == '\U{000C}' || c == '\r' || c == ' '
    || c == '\U{00A0}' || c == '\U{1680}' || c == '\U{180E}' || c == '\U{2000}' || c == '\U{2001}' || c == '\U{2002}'
    || c == '\U{2003}' || c == '\U{2004}' || c == '\U{2005}' || c == '\U{2006}' || c == '\U{2007}' || c == '\U{2008}'
    || c == '\U{2009}' || c == '\U{200A}' || c == '\U{2028}' || c == '\U{2029}' || c == '\U{202F}' || c == '\U{205F}'
    || c == '\U{3000}' || c == '\U{FEFF}'
  }

  predicate IsTagType(c: char) {
    c == '#' || c == '^' || c == '/' || c == '>' || c == '{' || c == '&' || c == '=' || c == '!'
  }

  // The patterns, for tags taken as literal text.
  datatype Pattern =
    | OpenTag(lit: string)   // lit \s*
    | CloseTag(lit: string)  // \s* lit
    | TagType                // # ^ / > { & = !
    | White                  // \s*

  // How many characters of white space s begins with.
  function SpaceRun(s: string): (n: nat)
    ensures n <= |s| && (forall i :: 0 <= i < n ==> IsSpace(s[i])) && (n < |s| ==> !IsSpace(s[n]))
  {
    if s != [] && IsSpace(s[0]) then 1 + SpaceRun(s[1..]) else 0
  }

  // The last of the positions 0..k at which lit stands.
  function LastFit(lit: string, s: string, k: nat): (r: Option<nat>)
    requires k <= |s|
    ensures r.Some? ==> r.value <= k && lit <= s[r.value..]
    ensures r.None? ==> forall i :: 0 <= i <= k ==> !(lit <= s[i..])
  {
    if lit <= s[k..] then Some(k) else if k == 0 then None else LastFit(lit, s, k - 1)
  }

  // The length of the (greedy) match at the beginning of s.
  function MatchLen(p: Pattern, s: string): (r: Option<nat>)
    ensures r.Some? ==> r.value <= |s|
  {
    match p
    case OpenTag(lit) => if lit <= s then Some(|lit| + SpaceRun(s[|lit|..])) else None
    case CloseTag(lit) =>
      var k := LastFit(lit, s, SpaceRun(s));
      if k.Some? then Some(k.value + |lit|) else None
    case TagType => if s != [] && IsTagType(s[0]) then Some(1) else None
    case White => Some(SpaceRun(s))
  }

  lemma Suffixes(s: string)
    ensures s[0..] == s
    ensures forall i :: 0 < i <= |s| ==> s[1..][i - 1..] == s[i..]
  {
  }

  // The leftmost position at which the pattern matches.
  function Search(p: Pattern, s: string): (r: Option<nat>)
    ensures r.Some? ==> r.value <= |s| && MatchLen(p, s[r.value..]).Some?
    ensures r.Some? ==> forall i :: 0 <= i < r.value ==> MatchLen(p, s[i..]).None?
    ensures r.None? ==> forall i :: 0 <= i <= |s| ==> MatchLen(p, s[i..]).None?
  {
    Suffixes(s);
    if MatchLen(p, s).Some? then Some(0)
    else if s == [] then None
    else
      var r := Search(p, s[1..]);
      if r.None? then None else Some(r.value + 1)
  }

  // How much scanUntil skips: everything, if the pattern is nowhere to be found.
  function SkipLen(p: Pattern, s: string): (n: nat)
    ensures n <= |s|
  {
    match Search(p, s) case None => |s| case Some(i) => i
  }

  // How much scan takes: nothing, if there is no match right here.
  function TakeLen(p: Pattern, s: string): (n: nat)
    ensures n <= |s|
  {
    match MatchLen(p, s) case None => 0 case Some(n) => n
  }

  predicate Suffix(a: string, s: string) {
    |a| <= |s| && a == s[|s| - |a|..]
  }

  lemma SuffixLength(a: string, s: string)
    requires Suffix(a, s)
    ensures |a| <= |s|
  {
  }

  lemma SuffixTransitive(a: string, b: string, s: string)
    requires Suffix(a, b) && Suffix(b, s)
    ensures Suffix(a, s)
  {
    assert b[|b| - |a|..] == s[|s| - |a|..];
  }

  function SkipTo(p: Pattern, s: string): (r: string)
    ensures Suffix(r, s)
  {
    s[SkipLen(p, s)..]
  }

  function Skipped(p: Pattern, s: string): (r: string)
    ensures |r| == |s| - |SkipTo(p, s)|
  {
    s[..SkipLen(p, s)]
  }

  function Past(p: Pattern, s: string): (r: string)
    ensures Suffix(r, s) && |r| == |s| - TakeLen(p, s)
  {
    s[TakeLen(p, s)..]
  }

  function Taken(p: Pattern, s: string): (r: string)
    ensures |r| == TakeLen(p, s)
  {
    s[..TakeLen(p, s)]
  }

  class Scanner {
    const str: string
    var tail: string
    var pos: nat

    ghost predicate Valid()
      reads this
    {
      pos <= |str| && tail == str[pos..]
    }

    constructor (s: string)
      ensures Valid() && str == s && pos == 0
    {
      str, tail, pos := s, s, 0;
    }

    predicate Eos()
      reads this
    {
      tail == ""
    }

    method Scan(p: Pattern) returns (r: string)
      requires Valid()
      modifies this
      ensures Valid() && r == Taken(p, old(tail)) && tail == Past(p, old(tail)) && pos == old(pos) + |r|
    {
      assert tail[0..] == tail;
      if Search(p, tail) == Some(0) {
        var n := MatchLen(p, tail).value;
        r := tail[..n];
        tail := tail[n..];
        pos := pos + n;
        return;
      }
      r := "";
    }

    method ScanUntil(p: Pattern) returns (r: string)
      requires Valid()
      modifies this
      ensures Valid() && r == Skipped(p, old(tail)) && tail == SkipTo(p, old(tail)) && pos == old(pos) + |r|
    {
      hide Search, MatchLen, TakeLen;
      match Search(p, tail)
      case None =>
        r := tail;
        pos := pos + |tail|;
        tail := "";
      case Some(at) =>
        if at == 0 {
          r := "";
        } else {
          r := tail[..at];
          tail := tail[at..];
          pos := pos + at;
        }
    }
  }
}
