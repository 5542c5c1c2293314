// Escaping for HTML, and the reading of entities that undoes it.
module MustacheEscape {
  import opened Wrappers

  // entityMap, and every other character as it is
  function Entity(c: char): (e: string)
    ensures e != "" && (!Special(c) ==> e == [c])
  {
    match c
    case '&' => "&amp;"
    case '<' => "&lt;"
    case '>' => "&gt;"
    case '\"' => "&quot;"
    case '\'' => "&#39;"
    case '/' => "&#x2F;"
    case _ => [c]
  }

  predicate Special(c: char) {
    c == '&' || c == '<' || c == '>' || c == '\"' || c == '\'' || c == '/'
  }

  function EscapeHtml(s: string): string {
    if s == "" then "" else Entity(s[0]) + EscapeHtml(s[1..])
  }

  // The character whose entity s begins with.
  function Decoded(s: string): Option<char> {
    if Entity('&') <= s then Some('&')
    else if Entity('<') <= s then Some('<')
    else if Entity('>') <= s then Some('>')
    else if Entity('\"') <= s then Some('\"')
    else if Entity('\'') <= s then Some('\'')
    else if Entity('/') <= s then Some('/')
    else None
  }

  // One pass over the text, each entity replaced by its character.
  function Unescape(s: string): string
    decreases |s|
  {
    if s == "" then ""
    else
      match Decoded(s)
      case Some(c) => [c] + Unescape(s[|Entity(c)|..])
      case None => [s[0]] + Unescape(s[1..])
  }

  lemma DecodedEntity(c: char, rest: string)
    ensures Decoded(Entity(c) + rest) == if Special(c) then Some(c) else None
  {
    var s := Entity(c) + rest;
    assert Entity(c) <= s;
    assert s[0] == Entity(c)[0];
    if Special(c) {
      assert |s| >= 4 && s[1] == Entity(c)[1] && s[2] == Entity(c)[2] && s[3] == Entity(c)[3];
    }
  }

  // Reading the entities of escaped text gives the text back.
  lemma {:induction false} UnescapeEscape(s: string)
    ensures Unescape(EscapeHtml(s)) == s
  {
    hide Entity, Decoded, Special;
    if s != "" {
      var c, rest := s[0], EscapeHtml(s[1..]);
      DecodedEntity(c, rest);
      assert (Entity(c) + rest)[|Entity(c)|..] == rest;
      UnescapeEscape(s[1..]);
    }
  }

  lemma EscapeInjective(s: string, t: string)
    requires EscapeHtml(s) == EscapeHtml(t)
    ensures s == t
  {
    UnescapeEscape(s);
    UnescapeEscape(t);
  }

  // Escaped text holds none of the special characters, except for ampersands, each of which
  // begins one of the six entities.
  lemma {:induction false} EscapedClean(s: string, i: nat)
    requires i < |EscapeHtml(s)|
    ensures var c := EscapeHtml(s)[i];
            && (Special(c) ==> c == '&')
            && (c == '&' ==> Decoded(EscapeHtml(s)[i..]).Some?)
  {
    EntityTail(s[0]);
    DecodedEntity(s[0], EscapeHtml(s[1..]));
    hide Entity, Decoded, Special;
    var e, rest := Entity(s[0]), EscapeHtml(s[1..]);
    if i >= |e| {
      EscapedClean(s[1..], i - |e|);
      assert (e + rest)[i..] == rest[i - |e|..];
    } else {
      assert (e + rest)[0..] == e + rest && (e + rest)[i] == e[i];
    }
  }

  // An entity begins with an ampersand and holds no other special character.
  lemma EntityTail(c: char)
    ensures Special('&')
    ensures var e := Entity(c);
            && (forall i :: 0 < i < |e| ==> !Special(e[i]))
            && (Special(e[0]) ==> e[0] == '&' && Special(c))
  {
  }

  // The table itself, and that escaping goes character by character.
  lemma EscapeTable(a: string, b: string)
    ensures EscapeHtml("&") == "&amp;" && EscapeHtml("<") == "&lt;" && EscapeHtml(">") == "&gt;"
    ensures EscapeHtml("\"") == "&quot;" && EscapeHtml("'") == "&#39;" && EscapeHtml("/") == "&#x2F;"
    ensures EscapeHtml(a + b) == EscapeHtml(a) + EscapeHtml(b)
    ensures (forall c <- a :: c !in "&<>\"'/") ==> EscapeHtml(a) == a
  {
    forall c
      ensures EscapeHtml([c]) == Entity(c)
    {
      assert [c][1..] == "" && Entity(c) + "" == Entity(c);
    }
    assert "&" == ['&'] && "<" == ['<'] && ">" == ['>'] && "\"" == ['\"'] && "'" == ['\''] && "/" == ['/'];
    EscapeConcat(a, b);
    EscapePlain(a);
  }

  lemma {:induction false} EscapeConcat(a: string, b: string)
    ensures EscapeHtml(a + b) == EscapeHtml(a) + EscapeHtml(b)
  {
    hide Entity;
    if a == "" {
      assert a + b == b;
    } else {
      assert (a + b)[1..] == a[1..] + b;
      EscapeConcat(a[1..], b);
    }
  }

  lemma {:induction false} EscapePlain(a: string)
    ensures (forall c <- a :: c !in "&<>\"'/") ==> EscapeHtml(a) == a
  {
    if a != "" && forall c <- a :: c !in "&<>\"'/" {
      assert a[0] in a && !Special(a[0]);
      EscapePlain(a[1..]);
      assert a == [a[0]] + a[1..];
    }
  }
}
