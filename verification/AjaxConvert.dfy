// jQuery's ajaxConvert: converting a response along a list of data types, where the list grows
// by the intermediate types that are needed.
module AjaxConvert {
  import opened Wrappers

  // A converter is registered from one data type, or from any, to another; the value true
  // says that nothing needs to be done.
  datatype Type = Any | Empty | Named(name: string)
  datatype Key = Key(from: Type, to: Type)
  datatype Conv<!R> = Same | Func(f: R -> Result<R>)
  type Converters<!R> = map<Key, Conv<R>>

  datatype Outcome<R> = Success(data: R) | ParserError(error: string) | NoConversion(from: Type, to: Type)
    | Threw(error: string)

  // The converters in the order of a for-in loop; every key names two types.
  ghost predicate Listed<R>(cs: Converters<R>, keys: seq<Key>) {
    forall k :: (k in keys <==> k in cs) && (k in cs ==> k.from != Empty && k.to != Empty)
  }

  function Direct<R>(cs: Converters<R>, a: Type, b: Type): Option<Conv<R>> {
    if Key(a, b) in cs then Some(cs[Key(a, b)])
    else if Key(Any, b) in cs then Some(cs[Key(Any, b)])
    else None
  }

  // The first registered converter to c whose input can be had from p.
  function Second<R>(cs: Converters<R>, keys: seq<Key>, p: Type, c: Type): Option<Key> {
    if keys == [] then None
    else if keys[0].to == c && Direct(cs, p, keys[0].from).Some? then Some(keys[0])
    else Second(cs, keys[1..], p, c)
  }

  // How to get from one type to another: not at all, in one step, or over a third type.
  datatype Way<!R> = NoWay | One(conv: Conv<R>) | Two(via: Type, first: Conv<R>, second: Conv<R>)

  function WayOf<R>(cs: Converters<R>, keys: seq<Key>, p: Type, c: Type): Way<R>
    requires Listed(cs, keys)
  {
    if Direct(cs, p, c).Some? then One(Direct(cs, p, c).value)
    else
      SecondFound(cs, keys, p, c);
      match Second(cs, keys, p, c)
      case None => NoWay
      case Some(k) =>
        var conv := Direct(cs, p, k.from).value;
        if conv.Same? then One(cs[k])
        else if cs[k].Same? then One(conv)
        else Two(k.from, conv, cs[k])
  }

  lemma {:induction false} SecondFound<R>(cs: Converters<R>, keys: seq<Key>, p: Type, c: Type)
    ensures Second(cs, keys, p, c).Some? <==> exists k :: k in keys && k.to == c && Direct(cs, p, k.from).Some?
    ensures Second(cs, keys, p, c).Some? ==>
              var k := Second(cs, keys, p, c).value;
              k in keys && k.to == c && Direct(cs, p, k.from).Some?
  {
    if keys != [] {
      SecondFound(cs, keys[1..], p, c);
      assert forall k :: k in keys <==> k == keys[0] || k in keys[1..];
    }
  }

  function Apply<R>(conv: Conv<R>, response: R, throws: bool): Outcome<R> {
    match conv
    case Same => Success(response)
    case Func(f) =>
      match f(response)
      case Ok(r) => Success(r)
      case Err(e) => if throws then Threw(e) else ParserError(e)
  }

  // One type after another, without any list being changed.
  function Convert<R>(cs: Converters<R>, keys: seq<Key>, throws: bool, p: Type, rest: seq<Type>,
                      response: R): Outcome<R>
    requires Listed(cs, keys)
    decreases rest
  {
    if rest == [] || rest[0] == Empty then Success(response)
    else if rest[0] == Any then Convert(cs, keys, throws, p, rest[1..], response)
    else if p == Any || p == rest[0] then Convert(cs, keys, throws, rest[0], rest[1..], response)
    else
      match WayOf(cs, keys, p, rest[0])
      case NoWay => NoConversion(p, rest[0])
      case One(conv) =>
        (match Apply(conv, response, throws)
         case Success(r) => Convert(cs, keys, throws, rest[0], rest[1..], r)
         case failed => failed)
      case Two(_, first, second) =>
        (match Apply(first, response, throws)
         case Success(r) =>
           (match Apply(second, r, throws)
            case Success(r2) => Convert(cs, keys, throws, rest[0], rest[1..], r2)
            case failed => failed)
         case failed => failed)
  }

  // The list with the intermediate types in it.
  function Expanded<R>(cs: Converters<R>, keys: seq<Key>, p: Type, rest: seq<Type>): seq<Type>
    requires Listed(cs, keys)
    decreases rest
  {
    if rest == [] || rest[0] == Empty then rest
    else if rest[0] == Any then [rest[0]] + Expanded(cs, keys, p, rest[1..])
    else
      (if p != Any && p != rest[0] && WayOf(cs, keys, p, rest[0]).Two? then [WayOf(cs, keys, p, rest[0]).via] else [])
      + [rest[0]] + Expanded(cs, keys, rest[0], rest[1..])
  }

  // An intermediate type is reached in one step and left in one step.
  lemma Halves<R>(cs: Converters<R>, keys: seq<Key>, p: Type, c: Type)
    requires Listed(cs, keys) && WayOf(cs, keys, p, c).Two?
    ensures var w := WayOf(cs, keys, p, c);
            && w.via != Empty && w.via != Any && w.via != c && w.via != p
            && WayOf(cs, keys, p, w.via) == One(w.first) && WayOf(cs, keys, w.via, c) == One(w.second)
            && w.first.Func? && w.second.Func?
  {
    SecondFound(cs, keys, p, c);
  }

  // There is no way exactly when neither a converter nor a pair of them is registered, and
  // every way is made of registered converters, where true stands for doing nothing.
  lemma WayExactly<R>(cs: Converters<R>, keys: seq<Key>, p: Type, c: Type)
    requires Listed(cs, keys)
    ensures var w := WayOf(cs, keys, p, c);
            && (w.NoWay? <==> Direct(cs, p, c).None? && forall x :: Key(x, c) in cs ==> Direct(cs, p, x).None?)
            && (w.One? && Direct(cs, p, c).None? ==>
                  exists x :: Key(x, c) in cs && Direct(cs, p, x).Some?
                    && ((Direct(cs, p, x).value.Same? && w.conv == cs[Key(x, c)])
                        || (cs[Key(x, c)].Same? && w.conv == Direct(cs, p, x).value)))
            && (w.Two? ==>
                  && Key(w.via, c) in cs && w.second == cs[Key(w.via, c)]
                  && Direct(cs, p, w.via) == Some(w.first))
  {
    SecondFound(cs, keys, p, c);
    if Direct(cs, p, c).None? {
      match Second(cs, keys, p, c)
      case Some(k) => assert Key(k.from, c) == k;
      case None =>
        forall x | Key(x, c) in cs ensures Direct(cs, p, x).None? {
          assert Key(x, c) in keys;
        }
    }
  }

  // The intermediate types change nothing but the list.
  lemma {:induction false} ExpandedSame<R>(cs: Converters<R>, keys: seq<Key>, throws: bool, p: Type, rest: seq<Type>,
                                           response: R)
    requires Listed(cs, keys)
    ensures Convert(cs, keys, throws, p, Expanded(cs, keys, p, rest), response) ==
              Convert(cs, keys, throws, p, rest, response)
    decreases rest
  {
    if rest != [] && rest[0] != Empty {
      var c, more := rest[0], rest[1..];
      var next := if c == Any then p else c;
      var e := Expanded(cs, keys, next, more);
      var same := c == Any || p == Any || p == c;
      var w := if same then One(Same) else WayOf(cs, keys, p, c);
      if w.Two? {
        Halves(cs, keys, p, c);
        assert Expanded(cs, keys, p, rest) == [w.via, c] + e && ([w.via, c] + e)[1..] == [c] + e && ([c] + e)[1..] == e;
        if Apply(w.first, response, throws).Success? {
          var r := Apply(w.first, response, throws).data;
          if Apply(w.second, r, throws).Success? {
            ExpandedSame(cs, keys, throws, c, more, Apply(w.second, r, throws).data);
          }
        }
      } else {
        assert Expanded(cs, keys, p, rest) == [c] + e && ([c] + e)[1..] == e;
        if w.One? && Apply(w.conv, response, throws).Success? {
          ExpandedSame(cs, keys, throws, next, more, Apply(w.conv, response, throws).data);
        }
      }
    }
  }

  // A step from one type of a list to the next, where there is something to convert.
  datatype Hop<!R> = Hop(from: Type, to: Type, way: Way<R>)

  function Hops<R>(cs: Converters<R>, keys: seq<Key>, p: Type, rest: seq<Type>): seq<Hop<R>>
    requires Listed(cs, keys)
    decreases rest
  {
    if rest == [] || rest[0] == Empty then []
    else if rest[0] == Any then Hops(cs, keys, p, rest[1..])
    else if p == Any || p == rest[0] then Hops(cs, keys, rest[0], rest[1..])
    else [Hop(p, rest[0], WayOf(cs, keys, p, rest[0]))] + Hops(cs, keys, rest[0], rest[1..])
  }

  // One converter after another; none of them may fail.
  function Composed<R>(hops: seq<Hop<R>>, response: R): Option<R>
    decreases |hops|
  {
    if hops == [] then Some(response)
    else
      match hops[0].way
      case One(Same) => Composed(hops[1..], response)
      case One(Func(f)) => (match f(response) case Ok(r) => Composed(hops[1..], r) case Err(_) => None)
      case _ => None
  }

  // Each hop starts where the one before ended.
  ghost predicate Chained<R>(p: Type, hops: seq<Hop<R>>) {
    && (hops != [] ==> p == Any || hops[0].from == p)
    && forall i :: 0 < i < |hops| ==> hops[i].from == hops[i - 1].to
  }

  // A converter registered for this hop, or one that becomes it by a neighbour that is true.
  ghost predicate Registered<R>(cs: Converters<R>, h: Hop<R>)
    requires h.way.One?
  {
    || Direct(cs, h.from, h.to) == Some(h.way.conv)
    || exists x :: Key(x, h.to) in cs && Direct(cs, h.from, x).Some?
         && ((Direct(cs, h.from, x).value.Same? && h.way.conv == cs[Key(x, h.to)])
             || (cs[Key(x, h.to)].Same? && h.way.conv == Direct(cs, h.from, x).value))
  }

  // Every hop that is possible takes a single converter.
  ghost predicate OneByOne<R>(cs: Converters<R>, hops: seq<Hop<R>>) {
    forall i :: 0 <= i < |hops| ==> !hops[i].way.Two? && (hops[i].way.One? ==> Registered(cs, hops[i]))
  }

  // One more hop in front.
  lemma HopFirst<R>(cs: Converters<R>, keys: seq<Key>, p: Type, c: Type, rest: seq<Type>)
    requires Listed(cs, keys) && p != Any && c != Any && c != Empty && p != c && !WayOf(cs, keys, p, c).Two?
    requires Chained(c, Hops(cs, keys, c, rest)) && OneByOne(cs, Hops(cs, keys, c, rest))
    ensures Chained(p, Hops(cs, keys, p, [c] + rest)) && OneByOne(cs, Hops(cs, keys, p, [c] + rest))
  {
    hide WayOf, Registered;
    var hops := Hops(cs, keys, c, rest);
    assert ([c] + rest)[1..] == rest;
    assert Hops(cs, keys, p, [c] + rest) == [Hop(p, c, WayOf(cs, keys, p, c))] + hops;
    OneRegistered(cs, keys, p, c);
  }

  // A type that needs no hop.
  lemma HopNone<R>(cs: Converters<R>, keys: seq<Key>, p: Type, c: Type, rest: seq<Type>)
    requires Listed(cs, keys) && c != Empty && (c == Any || p == Any || p == c)
    requires var next := if c == Any then p else c;
             Chained(next, Hops(cs, keys, next, rest)) && OneByOne(cs, Hops(cs, keys, next, rest))
    ensures Chained(p, Hops(cs, keys, p, [c] + rest)) && OneByOne(cs, Hops(cs, keys, p, [c] + rest))
  {
    hide WayOf, OneByOne;
    assert ([c] + rest)[1..] == rest;
  }

  lemma ExpandedFirst<R>(cs: Converters<R>, keys: seq<Key>, p: Type, c: Type, rest: seq<Type>)
    requires Listed(cs, keys) && c != Empty
    ensures var e := [c] + Expanded(cs, keys, if c == Any then p else c, rest);
            Expanded(cs, keys, p, [c] + rest) ==
              if p != Any && p != c && c != Any && WayOf(cs, keys, p, c).Two?
              then [WayOf(cs, keys, p, c).via] + e
              else e
  {
    hide WayOf;
    assert ([c] + rest)[1..] == rest;
  }

  lemma {:induction false} HopsOneByOne<R>(cs: Converters<R>, keys: seq<Key>, p: Type, rest: seq<Type>)
    requires Listed(cs, keys)
    ensures var hops := Hops(cs, keys, p, Expanded(cs, keys, p, rest));
            Chained(p, hops) && OneByOne(cs, hops)
    decreases rest
  {
    hide WayOf, Direct, OneByOne, Chained, Hops, Expanded;
    if rest == [] || rest[0] == Empty {
      NoHops(cs, keys, p, rest);
    } else {
      var c, more := rest[0], rest[1..];
      var next := if c == Any then p else c;
      var e := Expanded(cs, keys, next, more);
      assert rest == [c] + more;
      HopsOneByOne(cs, keys, next, more);
      ExpandedFirst(cs, keys, p, c, more);
      if c == Any || p == Any || p == c {
        HopNone(cs, keys, p, c, e);
      } else if WayOf(cs, keys, p, c).Two? {
        var via := WayOf(cs, keys, p, c).via;
        Halves(cs, keys, p, c);
        HopFirst(cs, keys, via, c, e);
        HopFirst(cs, keys, p, via, [c] + e);
      } else {
        HopFirst(cs, keys, p, c, e);
      }
    }
  }

  lemma NoHops<R>(cs: Converters<R>, keys: seq<Key>, p: Type, rest: seq<Type>)
    requires Listed(cs, keys) && (rest == [] || rest[0] == Empty)
    ensures Hops(cs, keys, p, Expanded(cs, keys, p, rest)) == []
    ensures Chained(p, Hops(cs, keys, p, Expanded(cs, keys, p, rest)))
    ensures OneByOne(cs, Hops(cs, keys, p, Expanded(cs, keys, p, rest)))
  {
  }

  lemma OneRegistered<R>(cs: Converters<R>, keys: seq<Key>, p: Type, c: Type)
    requires Listed(cs, keys)
    ensures WayOf(cs, keys, p, c).One? ==> Registered(cs, Hop(p, c, WayOf(cs, keys, p, c)))
  {
    WayExactly(cs, keys, p, c);
  }

  // The conversion along a list of single steps.
  lemma {:induction false} ConvertComposed<R>(cs: Converters<R>, keys: seq<Key>, throws: bool, p: Type, rest: seq<Type>,
                                              response: R)
    requires Listed(cs, keys)
    requires forall h <- Hops(cs, keys, p, rest) :: !h.way.Two?
    ensures Composed(Hops(cs, keys, p, rest), response) ==
              match Convert(cs, keys, throws, p, rest, response) case Success(r) => Some(r) case _ => None
    decreases rest
  {
    hide WayOf;
    if rest != [] && rest[0] != Empty {
      var c, more := rest[0], rest[1..];
      if c == Any {
        ConvertComposed(cs, keys, throws, p, more, response);
      } else if p == Any || p == c {
        ConvertComposed(cs, keys, throws, c, more, response);
      } else {
        var h := Hop(p, c, WayOf(cs, keys, p, c));
        var hops := Hops(cs, keys, p, rest);
        assert hops[0] == h && hops[1..] == Hops(cs, keys, c, more);
        if h.way.One? && Apply(h.way.conv, response, throws).Success? {
          ConvertComposed(cs, keys, throws, c, more, Apply(h.way.conv, response, throws).data);
        }
      }
    }
  }

  // A conversion succeeds exactly when along the expanded list, step by step, one registered
  // converter after the other succeeds, where true stands for doing nothing; the result is
  // what they make of the response.
  lemma SuccessExactly<R>(cs: Converters<R>, keys: seq<Key>, throws: bool, p: Type, rest: seq<Type>, response: R)
    requires Listed(cs, keys)
    ensures var hops := Hops(cs, keys, p, Expanded(cs, keys, p, rest));
            && Chained(p, hops) && OneByOne(cs, hops)
            && Composed(hops, response) ==
                 match Convert(cs, keys, throws, p, rest, response) case Success(r) => Some(r) case _ => None
  {
    hide WayOf, Registered, Chained, Hops, Expanded, Convert, Composed;
    HopsOneByOne(cs, keys, p, rest);
    ConvertComposed(cs, keys, throws, p, Expanded(cs, keys, p, rest), response);
    ExpandedSame(cs, keys, throws, p, rest, response);
  }

  // --- The outcome, in terms of the registered converters alone.

  // What one converter makes of the response.
  ghost predicate Makes<R>(conv: Conv<R>, response: R, throws: bool, outcome: Outcome<R>) {
    match conv
    case Same => outcome == Success(response)
    case Func(f) =>
      && (f(response).Ok? ==> outcome == Success(f(response).value))
      && (f(response).Err? && throws ==> outcome == Threw(f(response).error))
      && (f(response).Err? && !throws ==> outcome == ParserError(f(response).error))
  }

  // The converter registered for exactly these types comes first, then the one from any type.
  lemma DirectTaken<R>(cs: Converters<R>, keys: seq<Key>, throws: bool, p: Type, c: Type, response: R)
    requires Listed(cs, keys) && p.Named? && c.Named? && p != c
    ensures var outcome := Convert(cs, keys, throws, p, [c], response);
            && (Key(p, c) in cs ==> Makes(cs[Key(p, c)], response, throws, outcome))
            && (Key(p, c) !in cs && Key(Any, c) in cs ==> Makes(cs[Key(Any, c)], response, throws, outcome))
            && (outcome == NoConversion(p, c) <==>
                  && Key(p, c) !in cs && Key(Any, c) !in cs
                  && forall x :: Key(x, c) in cs ==> Key(p, x) !in cs && Key(Any, x) !in cs)
  {
    WayExactly(cs, keys, p, c);
    assert [c][1..] == [];
    var w := WayOf(cs, keys, p, c);
    assert Direct(cs, p, c).Some? ==> w == One(Direct(cs, p, c).value);
  }

  // Without a direct one, the first converter to the type, in the order of the loop, whose input
  // can be had: both are applied, the one to its input first.
  lemma PairTaken<R>(cs: Converters<R>, keys: seq<Key>, throws: bool, p: Type, c: Type, i: nat, response: R)
    requires Listed(cs, keys) && p.Named? && c.Named? && p != c && i < |keys| && keys[i].to == c
    requires Key(p, c) !in cs && Key(Any, c) !in cs
    requires Key(p, keys[i].from) in cs || Key(Any, keys[i].from) in cs
    requires forall j :: 0 <= j < i && keys[j].to == c ==> Key(p, keys[j].from) !in cs && Key(Any, keys[j].from) !in cs
    ensures var x := keys[i].from;
            var outcome := Convert(cs, keys, throws, p, [c], response);
            var first := cs[if Key(p, x) in cs then Key(p, x) else Key(Any, x)];
            if first.Same? then Makes(cs[keys[i]], response, throws, outcome)
            else if first.f(response).Ok? then Makes(cs[keys[i]], first.f(response).value, throws, outcome)
            else Makes(first, response, throws, outcome)
  {
    FirstSecond(cs, keys, p, c, i);
    SecondFound(cs, keys, p, c);
    assert [c][1..] == [];
  }

  lemma {:induction false} FirstSecond<R>(cs: Converters<R>, keys: seq<Key>, p: Type, c: Type, i: nat)
    requires i < |keys| && keys[i].to == c && (Key(p, keys[i].from) in cs || Key(Any, keys[i].from) in cs)
    requires forall j :: 0 <= j < i && keys[j].to == c ==> Key(p, keys[j].from) !in cs && Key(Any, keys[j].from) !in cs
    ensures Second(cs, keys, p, c) == Some(keys[i])
  {
    if i > 0 {
      assert forall j :: 0 <= j < i ==> keys[1..][j] == keys[j + 1];
      FirstSecond(cs, keys[1..], p, c, i - 1);
    }
  }

  // A type that is `*`, the type at hand, or any type at all after `*`, needs no conversion.
  lemma NothingToDo<R>(cs: Converters<R>, keys: seq<Key>, throws: bool, p: Type, c: Type, rest: seq<Type>, response: R)
    requires Listed(cs, keys)
    ensures p.Named? ==>
              Convert(cs, keys, throws, p, [Any] + rest, response) == Convert(cs, keys, throws, p, rest, response)
    ensures p.Named? ==>
              Convert(cs, keys, throws, p, [p] + rest, response) == Convert(cs, keys, throws, p, rest, response)
    ensures c.Named? ==>
              Convert(cs, keys, throws, Any, [c] + rest, response) == Convert(cs, keys, throws, c, rest, response)
    ensures Convert(cs, keys, throws, p, [], response) == Success(response)
    ensures Convert(cs, keys, throws, p, [Empty] + rest, response) == Success(response)
  {
    assert ([Any] + rest)[1..] == rest && ([p] + rest)[1..] == rest && ([c] + rest)[1..] == rest;
  }

  // Otherwise the list is converted one type after another, and the first failure is the outcome.
  lemma OneAfterAnother<R>(cs: Converters<R>, keys: seq<Key>, throws: bool, p: Type, c: Type, rest: seq<Type>,
                           response: R)
    requires Listed(cs, keys) && p.Named? && c.Named? && p != c
    ensures var one := Convert(cs, keys, throws, p, [c], response);
            Convert(cs, keys, throws, p, [c] + rest, response) ==
              if one.Success? then Convert(cs, keys, throws, c, rest, one.data) else one
  {
    hide WayOf;
    assert ([c] + rest)[1..] == rest && [c][1..] == [];
  }

  // Every type is kept, in its place, with at most one more in front of it.
  lemma {:induction false} ExpandedBound<R>(cs: Converters<R>, keys: seq<Key>, p: Type, rest: seq<Type>)
    requires Listed(cs, keys)
    ensures |rest| <= |Expanded(cs, keys, p, rest)| <= 2 * |rest|
    decreases rest
  {
    if rest != [] && rest[0] != Empty {
      ExpandedBound(cs, keys, if rest[0] == Any then p else rest[0], rest[1..]);
    }
  }

  // The search for a pair of converters.
  method FindPair<R>(cs: Converters<R>, keys: seq<Key>, prev: Type, current: Type) returns (found: Option<Key>)
    ensures found == Second(cs, keys, prev, current)
  {
    for i := 0 to |keys|
      invariant Second(cs, keys, prev, current) == Second(cs, keys[i..], prev, current)
    {
      if keys[i].to == current {
        var conv := Direct(cs, prev, keys[i].from);
        if conv.Some? {
          return Some(keys[i]);
        }
      }
    }
    return None;
  }

  // Where the scan stands: before an original type, before an intermediate one that was just
  // put in, or behind it.
  datatype Phase = Original | Inserted | Behind

  // The scan: the types passed and those ahead, the type and the response at hand, and what is
  // still to do of the original list.
  datatype State<!R> = State(done: seq<Type>, todo: seq<Type>, prev: Type, response: R, rest: seq<Type>, phase: Phase)

  predicate Placed<R>(st: State<R>) {
    if st.phase == Inserted then st.todo != [] && st.todo[0] == st.prev && st.todo[1..] == st.rest
    else st.todo == st.rest
  }

  predicate OnTheWay<R>(cs: Converters<R>, st: State<R>) {
    st.phase != Original ==>
      && st.rest != [] && st.rest[0].Named? && st.prev.Named?
      && Direct(cs, st.prev, st.rest[0]).Some?
  }

  // The list as it will be in the end.
  ghost function Whole<R>(cs: Converters<R>, keys: seq<Key>, st: State<R>): seq<Type>
    requires Listed(cs, keys)
  {
    st.done + (if st.phase == Inserted then [st.prev] else []) + Expanded(cs, keys, st.prev, st.rest)
  }

  ghost predicate Scan<R>(cs: Converters<R>, keys: seq<Key>, throws: bool, st: State<R>, expected: Outcome<R>,
                          expanded: seq<Type>)
    requires Listed(cs, keys)
  {
    && Placed(st)
    && OnTheWay(cs, st)
    && Convert(cs, keys, throws, st.prev, st.rest, st.response) == expected
    && Whole(cs, keys, st) == expanded
  }

  // There is a conversion to do.
  predicate Works<R>(st: State<R>)
    requires st.todo != []
  {
    st.todo[0].Named? && !st.prev.Any? && st.todo[0] != st.prev
  }

  // Past an original type, or past an inserted one.
  function Next<R>(st: State<R>, prev: Type, response: R): State<R>
    requires st.todo != []
  {
    State(st.done + [st.todo[0]], st.todo[1..], prev, response,
          if st.phase == Inserted || st.rest == [] then st.rest else st.rest[1..],
          if st.phase == Inserted then Behind else Original)
  }

  lemma PassWhole<R>(cs: Converters<R>, keys: seq<Key>, st: State<R>)
    requires Listed(cs, keys) && Placed(st) && OnTheWay(cs, st)
    requires st.todo != [] && !st.todo[0].Empty? && !Works(st)
    ensures st.phase != Inserted ==> st.rest != []
    ensures Whole(cs, keys, Next(st, if st.todo[0].Any? then st.prev else st.todo[0], st.response)) ==
              Whole(cs, keys, st)
  {
    hide Direct, WayOf;
    var prev := if st.todo[0].Any? then st.prev else st.todo[0];
    if st.phase != Inserted {
      assert Expanded(cs, keys, st.prev, st.rest) == [st.todo[0]] + Expanded(cs, keys, prev, st.rest[1..]);
    }
    hide Expanded;
  }

  // Nothing to do for this type.
  lemma Pass<R>(cs: Converters<R>, keys: seq<Key>, throws: bool, st: State<R>, expected: Outcome<R>,
                expanded: seq<Type>)
    requires Listed(cs, keys) && Scan(cs, keys, throws, st, expected, expanded)
    requires st.todo != [] && !st.todo[0].Empty? && !Works(st)
    ensures st.phase != Inserted ==> st.rest != []
    ensures Scan(cs, keys, throws, Next(st, if st.todo[0].Any? then st.prev else st.todo[0], st.response), expected,
                 expanded)
  {
    hide Direct, WayOf, Whole, Apply;
    PassWhole(cs, keys, st);
  }

  // One converter does it.
  lemma OneStep<R>(cs: Converters<R>, keys: seq<Key>, throws: bool, st: State<R>, expected: Outcome<R>,
                   expanded: seq<Type>)
    requires Listed(cs, keys) && Scan(cs, keys, throws, st, expected, expanded)
    requires st.todo != [] && Works(st) && WayOf(cs, keys, st.prev, st.todo[0]).One?
    ensures st.phase != Inserted && st.rest != []
    ensures match Apply(WayOf(cs, keys, st.prev, st.todo[0]).conv, st.response, throws)
            case Success(r) => Scan(cs, keys, throws, Next(st, st.todo[0], r), expected, expanded)
            case failed => expected == failed
  {
    assert Expanded(cs, keys, st.prev, st.rest) == [st.todo[0]] + Expanded(cs, keys, st.todo[0], st.rest[1..]);
    hide Expanded, WayOf;
    assert Whole(cs, keys, Next(st, st.todo[0], st.response)) == Whole(cs, keys, st);
  }

  // The intermediate type goes in, in front of the current one.
  function Spliced<R>(st: State<R>, via: Type, response: R): State<R> {
    State(st.done, [via] + st.todo, via, response, st.rest, Inserted)
  }

  lemma Splice<R>(cs: Converters<R>, keys: seq<Key>, throws: bool, st: State<R>, expected: Outcome<R>,
                  expanded: seq<Type>)
    requires Listed(cs, keys) && Scan(cs, keys, throws, st, expected, expanded)
    requires st.todo != [] && Works(st) && WayOf(cs, keys, st.prev, st.todo[0]).Two?
    ensures st.phase == Original
    ensures var w := WayOf(cs, keys, st.prev, st.todo[0]);
            match Apply(w.first, st.response, throws)
            case Success(r) => Scan(cs, keys, throws, Spliced(st, w.via, r), expected, expanded)
            case failed => expected == failed
  {
    var c := st.todo[0];
    var w := WayOf(cs, keys, st.prev, c);
    Halves(cs, keys, st.prev, c);
    assert st.phase == Original;
    var e := Expanded(cs, keys, c, st.rest[1..]);
    assert Expanded(cs, keys, st.prev, st.rest) == [w.via] + [c] + e;
    assert WayOf(cs, keys, w.via, c) == One(w.second) && w.via.Named?;
    assert Expanded(cs, keys, w.via, st.rest) == [c] + e;
    assert Direct(cs, w.via, c).Some? by {
      WayExactly(cs, keys, st.prev, c);
    }
    hide Expanded, WayOf, Direct;
    assert Whole(cs, keys, Spliced(st, w.via, st.response)) == Whole(cs, keys, st);
  }

  lemma Stuck<R>(cs: Converters<R>, keys: seq<Key>, throws: bool, st: State<R>, expected: Outcome<R>,
                 expanded: seq<Type>)
    requires Listed(cs, keys) && Scan(cs, keys, throws, st, expected, expanded)
    requires st.todo != [] && Works(st) && WayOf(cs, keys, st.prev, st.todo[0]).NoWay?
    ensures expected == NoConversion(st.prev, st.todo[0])
  {
  }

  lemma Finished<R>(cs: Converters<R>, keys: seq<Key>, throws: bool, st: State<R>, expected: Outcome<R>,
                    expanded: seq<Type>)
    requires Listed(cs, keys) && Scan(cs, keys, throws, st, expected, expanded)
    requires st.todo == [] || st.todo[0].Empty?
    ensures expected == Success(st.response) && expanded == st.done + st.todo
  {
    assert st.phase == Original;
  }

  lemma Split<T>(list: seq<T>, i: nat, x: T)
    requires i < |list|
    ensures list[..i] + [list[i]] == list[..i + 1] && list[i..] == [list[i]] + list[i + 1..]
    ensures var longer := list[..i] + [x] + list[i..]; longer[..i] == list[..i] && longer[i..] == [x] + list[i..]
  {
  }

  // Where the list and the place in it stand for the scan.
  ghost predicate Holds<R>(st: State<R>, dataTypes: seq<Type>, i: nat, prev: Type, response: R) {
    && i <= |dataTypes| && st.done == dataTypes[..i] && st.todo == dataTypes[i..]
    && st.prev == prev && st.response == response
  }

  ghost function Left<R>(st: State<R>): nat {
    4 * |st.rest| + if st.phase == Inserted then 2 else if st.phase == Behind then 1 else 3
  }

  // One conversion: the converter is found, the intermediate type inserted, the response
  // converted; the place returned is in front of the type now at hand.
  method Turn<R>(cs: Converters<R>, keys: seq<Key>, throws: bool, types: seq<Type>, i: nat, prev: Type, input: R,
                 ghost st: State<R>, ghost expected: Outcome<R>, ghost expanded: seq<Type>)
    returns (failed: Option<Outcome<R>>, dataTypes: seq<Type>, j: nat, current: Type, response: R,
             ghost after: State<R>)
    requires Listed(cs, keys) && Scan(cs, keys, throws, st, expected, expanded) && Holds(st, types, i, prev, input)
    requires 1 <= i < |types| && Works(st)
    ensures failed.Some? ==> failed.value == expected && !expected.Success?
    ensures failed.None? ==>
              && 0 <= j && Holds(after, dataTypes, j + 1, current, response)
              && Scan(cs, keys, throws, after, expected, expanded) && Left(after) < Left(st)
  {
    hide Scan, Convert, Expanded, Listed, WayOf, Direct;
    failed, dataTypes, j, current, response, after := None, types, i, types[i], input, st;
    Split(types, i, current);
    var conv, via := Seek(cs, keys, prev, current);
    if conv.None? {
      Stuck(cs, keys, throws, st, expected, expanded);
      failed := Some(NoConversion(prev, current));
      return;
    }
    if via.Some? {
      Splice(cs, keys, throws, st, expected, expanded);
      Split(types, i, via.value);
      current := via.value;
      dataTypes := dataTypes[..j] + [current] + dataTypes[j..];
      j := j - 1;
    } else {
      OneStep(cs, keys, throws, st, expected, expanded);
    }
    if conv.value.Func? {
      match conv.value.f(response) {
        case Ok(r) => response := r;
        case Err(e) =>
          failed := Some(if throws then Threw(e) else ParserError(e));
          return;
      }
    }
    after := if via.Some? then Spliced(st, current, response) else Next(st, current, response);
  }

  lemma Start<R>(cs: Converters<R>, keys: seq<Key>, throws: bool, types: seq<Type>, response: R)
    requires types != [] && Listed(cs, keys)
    ensures var st := State(types[..1], types[1..], types[0], response, types[1..], Original);
            && Holds(st, types, 1, types[0], response)
            && Scan(cs, keys, throws, st, Convert(cs, keys, throws, types[0], types[1..], response),
                    types[..1] + Expanded(cs, keys, types[0], types[1..]))
  {
  }

  lemma Advance<R>(cs: Converters<R>, keys: seq<Key>, throws: bool, types: seq<Type>, i: nat, prev: Type, response: R,
                   st: State<R>, expected: Outcome<R>, expanded: seq<Type>)
    requires Listed(cs, keys) && Scan(cs, keys, throws, st, expected, expanded) && Holds(st, types, i, prev, response)
    requires i < |types| && !types[i].Empty? && (types[i].Any? || prev.Any? || prev == types[i])
    ensures var next := if types[i].Any? then prev else types[i];
            var after := Next(st, next, response);
            && Scan(cs, keys, throws, after, expected, expanded) && Holds(after, types, i + 1, next, response)
            && Left(after) < Left(st)
  {
    Pass(cs, keys, throws, st, expected, expanded);
    hide Scan, Listed;
    Split(types, i, prev);
  }

  // ajaxConvert
  method AjaxConvert<R>(types: seq<Type>, cs: Converters<R>, keys: seq<Key>, throws: bool, dataFilter: Option<R -> R>,
                        input: R) returns (outcome: Outcome<R>, dataTypes: seq<Type>)
    requires types != [] && Listed(cs, keys)
    ensures var response := if dataFilter.Some? then dataFilter.value(input) else input;
            outcome == Convert(cs, keys, throws, types[0], types[1..], response)
    ensures outcome.Success? ==> dataTypes == types[..1] + Expanded(cs, keys, types[0], types[1..])
  {
    hide Scan, Convert, Expanded, Listed, WayOf, Direct, Apply, Next, Left;
    var response := input;
    dataTypes := types;
    var prev := dataTypes[0];
    var i := 0;
    if dataFilter.Some? {
      response := dataFilter.value(response);
    }
    ghost var st := State(types[..1], types[1..], prev, response, types[1..], Original);
    ghost var expected := Convert(cs, keys, throws, prev, types[1..], response);
    ghost var expanded := types[..1] + Expanded(cs, keys, prev, types[1..]);
    Start(cs, keys, throws, types, response);
    i := i + 1;
    while i < |dataTypes| && !dataTypes[i].Empty?
      invariant 1 <= i <= |dataTypes|
      invariant Scan(cs, keys, throws, st, expected, expanded) && Holds(st, dataTypes, i, prev, response)
      decreases Left(st)
    {
      var current := dataTypes[i];
      ghost var after := Next(st, if current.Any? then prev else current, response);
      if current.Any? || prev.Any? || prev == current {
        Advance(cs, keys, throws, dataTypes, i, prev, response, st, expected, expanded);
      }
      if !current.Any? {
        if !prev.Any? && prev != current {
          var failed;
          failed, dataTypes, i, current, response, after :=
            Turn(cs, keys, throws, dataTypes, i, prev, response, st, expected, expanded);
          if failed.Some? {
            return failed.value, dataTypes;
          }
        }
        prev := current;
      }
      st := after;
      i := i + 1;
    }
    Finished(cs, keys, throws, st, expected, expanded);
    assert dataTypes[..i] + dataTypes[i..] == dataTypes;
    return Success(response), dataTypes;
  }

  // The converter to apply, and the intermediate type it leads to, if any.
  method Seek<R>(cs: Converters<R>, keys: seq<Key>, prev: Type, current: Type)
    returns (conv: Option<Conv<R>>, via: Option<Type>)
    requires Listed(cs, keys)
    ensures match WayOf(cs, keys, prev, current)
            case NoWay => conv == None
            case One(c) => conv == Some(c) && via == None
            case Two(x, c, _) => conv == Some(c) && via == Some(x)
  {
    via := None;
    conv := Direct(cs, prev, current);
    if conv.None? {
      var pair := FindPair(cs, keys, prev, current);
      if pair.Some? {
        SecondFound(cs, keys, prev, current);
        conv := Direct(cs, prev, pair.value.from);
        if conv.value.Same? {
          conv := Some(cs[pair.value]);
        } else if !cs[pair.value].Same? {
          via := Some(pair.value.from);
        }
      }
    }
  }
}
