// Sizzle's compiled matchers: the descendant and general-sibling combinators remember, on
// the elements themselves, what they found out during a `select` run.
module SizzleMatch {
  import opened Wrappers
  import opened SizzleKeys

  type Node = nat
  type FilterId = nat

  datatype Dir = ParentNode | PreviousSibling

  // What a select run sees of the document: the links, which nodes are elements, what each
  // simple filter answers, and the position of every node in document order.
  datatype Page = Page(
    parent: map<Node, Node>,
    prev: map<Node, Node>,
    elements: set<Node>,
    passes: (FilterId, Node) -> bool,
    order: Node -> nat)
  {
    // Parents and earlier siblings come earlier in document order.
    ghost predicate Valid() {
      && (forall e <- parent :: order(parent[e]) < order(e))
      && (forall e <- prev :: order(prev[e]) < order(e))
    }

    // elem[ dir ]
    function Step(dir: Dir, e: Node): (n: Option<Node>)
      ensures Valid() && n.Some? ==> order(n.value) < order(e)
    {
      var links := if dir == ParentNode then parent else prev;
      if e in links then Some(links[e]) else None
    }

    // The elements met when walking from e, nearest first.
    ghost function Along(dir: Dir, e: Node): seq<Node>
      requires Valid()
      decreases order(e)
    {
      match Step(dir, e)
      case None => []
      case Some(n) => (if n in elements then [n] else []) + Along(dir, n)
    }
  }

  datatype Token = Relative(dir: Dir, first: bool) | Simple(f: FilterId)

  // The three closures addCombinator can return.
  datatype Strategy = First | Walking | Caching

  datatype Matcher =
    | IsContext(context: Node)
    | Filter(f: FilterId)
    | Both(higher: Matcher, deeper: FilterId)
    | Combinator(inner: Matcher, dir: Dir, strategy: Strategy, doneName: nat)

  // What a list of tokens means (Selectors Level 3, section 8): the last compound must
  // accept e, and the rest must accept some element (or the nearest one) along the
  // combinator's direction; a leading combinator is anchored at the context.
  ghost predicate Selects(tokens: seq<Token>, context: Node, page: Page, e: Node)
    requires page.Valid()
  {
    if tokens == [] then e == context
    else
      var rest, last := tokens[..|tokens| - 1], tokens[|tokens| - 1];
      match last
      case Simple(f) => page.passes(f, e) && (rest == [] || Selects(rest, context, page, e))
      case Relative(dir, first) =>
        var along := page.Along(dir, e);
        if first then |along| > 0 && Selects(rest, context, page, along[0])
        else exists i :: 0 <= i < |along| && Selects(rest, context, page, along[i])
  }

  // What a matcher decides when no answer is ever remembered.
  ghost predicate Holds(m: Matcher, page: Page, e: Node)
    requires page.Valid()
  {
    match m
    case IsContext(c) => e == c
    case Filter(f) => page.passes(f, e)
    case Both(higher, deeper) => page.passes(deeper, e) && Holds(higher, page, e)
    case Combinator(inner, dir, strategy, _) =>
      var along := page.Along(dir, e);
      if strategy == First then |along| > 0 && Holds(inner, page, along[0])
      else exists i :: 0 <= i < |along| && Holds(inner, page, along[i])
  }

  ghost function Names(m: Matcher): set<nat> {
    match m
    case Both(higher, _) => Names(higher)
    case Combinator(inner, _, _, n) => {n} + Names(inner)
    case _ => {}
  }

  ghost predicate WellNamed(m: Matcher) {
    match m
    case Both(higher, _) => WellNamed(higher)
    case Combinator(inner, _, _, n) => n !in Names(inner) && WellNamed(inner)
    case _ => true
  }

  // One step of the walk, for the combinators that look at more than the nearest element.
  lemma HoldsStep(m: Matcher, page: Page, e: Node)
    requires page.Valid() && m.Combinator? && m.strategy != First
    ensures Holds(m, page, e) <==>
      match page.Step(m.dir, e)
      case None => false
      case Some(n) => (n in page.elements && Holds(m.inner, page, n)) || Holds(m, page, n)
  {
    match page.Step(m.dir, e)
    case None =>
    case Some(n) =>
      var head := if n in page.elements then [n] else [];
      var tail := page.Along(m.dir, n);
      var along := page.Along(m.dir, e);
      assert along == head + tail;
      if Holds(m, page, n) {
        var i :| 0 <= i < |tail| && Holds(m.inner, page, tail[i]);
        assert along[|head| + i] == tail[i];
      }
      if n in page.elements && Holds(m.inner, page, n) {
        assert along[0] == n;
      }
  }

  // A mark as it was written: doneName, dirruns, cachedruns.
  datatype Stamp = Stamp(run: nat, candidate: nat)
  datatype Mark = Mark(name: nat, stamp: Stamp)

  type Marks = map<Node, Mark>
  type Answers = map<Node, bool>

  // Every mark of this run tells what the combinator's inner matcher says of the element,
  // and no mark comes from a later run.
  ghost predicate SoundHere(m: Matcher, page: Page, run: nat, marks: Marks, answers: Answers)
    requires page.Valid() && m.Combinator?
  {
    forall x <- marks :: marks[x].name == m.doneName ==>
      && marks[x].stamp.run <= run
      && (marks[x].stamp.run == run ==> x in answers && answers[x] == Holds(m.inner, page, x))
  }

  ghost predicate Sound(m: Matcher, page: Page, run: nat, marks: Marks, answers: Answers)
    requires page.Valid()
  {
    match m
    case Both(higher, _) => Sound(higher, page, run, marks, answers)
    case Combinator(inner, _, _, _) =>
      SoundHere(m, page, run, marks, answers) && Sound(inner, page, run, marks, answers)
    case _ => true
  }

  // A negative mark of this very candidate also tells that the rest of the walk was in vain.
  ghost predicate ExhaustedHere(m: Matcher, page: Page, now: Stamp, marks: Marks, answers: Answers)
    requires page.Valid() && m.Combinator?
  {
    m.strategy == Caching ==>
      forall x <- marks :: marks[x] == Mark(m.doneName, now) && x in answers && !answers[x] ==>
        !Holds(m, page, x)
  }

  ghost predicate Exhausted(m: Matcher, page: Page, now: Stamp, marks: Marks, answers: Answers)
    requires page.Valid()
  {
    match m
    case Both(higher, _) => Exhausted(higher, page, now, marks, answers)
    case Combinator(inner, _, _, _) =>
      ExhaustedHere(m, page, now, marks, answers) && Exhausted(inner, page, now, marks, answers)
    case _ => true
  }

  ghost predicate Same(x: Node, marks: Marks, answers: Answers, marks': Marks, answers': Answers) {
    && (x in marks <==> x in marks')
    && (x in marks ==> marks[x] == marks'[x])
    && (x in answers <==> x in answers')
    && (x in answers ==> answers[x] == answers'[x])
  }

  // The marks differ only where a combinator of `names` has now left its own, at nodes
  // before position `bound`.
  ghost predicate Changes(page: Page, bound: nat, names: set<nat>, now: Stamp,
                          marks: Marks, answers: Answers, marks': Marks, answers': Answers) {
    forall x :: Same(x, marks, answers, marks', answers') ||
      (page.order(x) < bound && x in marks' && marks'[x].name in names && marks'[x].stamp == now)
  }

  // Matchers do not disturb what other matchers rely on.
  lemma {:induction false} ChangesKeep(m: Matcher, page: Page, bound: nat, names: set<nat>, now: Stamp,
                                       marks: Marks, answers: Answers, marks': Marks, answers': Answers)
    requires page.Valid() && names !! Names(m)
    requires Changes(page, bound, names, now, marks, answers, marks', answers')
    requires Sound(m, page, now.run, marks, answers)
    ensures Sound(m, page, now.run, marks', answers')
    ensures Exhausted(m, page, now, marks, answers) ==> Exhausted(m, page, now, marks', answers')
  {
    match m
    case Both(higher, _) => ChangesKeep(higher, page, bound, names, now, marks, answers, marks', answers');
    case Combinator(inner, _, _, _) =>
      ChangesKeep(inner, page, bound, names, now, marks, answers, marks', answers');
      forall x | x in marks' && marks'[x].name == m.doneName
        ensures Same(x, marks, answers, marks', answers')
      {
      }
    case _ =>
  }

  lemma ChangesNothing(page: Page, bound: nat, names: set<nat>, now: Stamp, marks: Marks, answers: Answers)
    ensures Changes(page, bound, names, now, marks, answers, marks, answers)
  {
  }

  lemma ChangesCompose(page: Page, bound: nat, bound': nat, names: set<nat>, names': set<nat>, now: Stamp,
                       m0: Marks, a0: Answers, m1: Marks, a1: Answers, m2: Marks, a2: Answers)
    requires Changes(page, bound, names, now, m0, a0, m1, a1)
    requires Changes(page, bound', names', now, m1, a1, m2, a2)
    requires bound' <= bound && names' <= names
    ensures Changes(page, bound, names, now, m0, a0, m2, a2)
  {
    forall x
      ensures Same(x, m0, a0, m2, a2) ||
        (page.order(x) < bound && x in m2 && m2[x].name in names && m2[x].stamp == now)
    {
      assert Same(x, m0, a0, m1, a1) || (page.order(x) < bound && x in m1 && m1[x].name in names);
      assert Same(x, m1, a1, m2, a2) || (page.order(x) < bound' && x in m2 && m2[x].name in names');
    }
  }

  lemma StartVisit(m: Matcher, page: Page, cur: Node, now: Stamp, marks: Marks, answers: Answers)
    requires page.Valid() && m.Combinator? && WellNamed(m)
    requires Sound(m.inner, page, now.run, marks, answers)
    requires Exhausted(m.inner, page, now, marks, answers)
    ensures Sound(m.inner, page, now.run, marks[cur := Mark(m.doneName, now)], answers)
    ensures Exhausted(m.inner, page, now, marks[cur := Mark(m.doneName, now)], answers)
  {
    ChangesKeep(m.inner, page, page.order(cur) + 1, {m.doneName}, now,
                marks, answers, marks[cur := Mark(m.doneName, now)], answers);
  }

  lemma FinishVisit(m: Matcher, page: Page, cur: Node, now: Stamp, r: bool,
                    marks: Marks, answers: Answers, marks': Marks, answers': Answers)
    requires page.Valid() && m.Combinator? && WellNamed(m)
    requires cur in marks && marks[cur] == Mark(m.doneName, now)
    requires Changes(page, page.order(cur), Names(m.inner), now, marks, answers, marks', answers')
    requires Sound(m.inner, page, now.run, marks', answers')
    ensures Changes(page, page.order(cur), Names(m.inner), now,
                    marks, answers[cur := r], marks', answers'[cur := r])
    ensures Sound(m.inner, page, now.run, marks', answers'[cur := r])
    ensures Exhausted(m.inner, page, now, marks', answers') ==>
              Exhausted(m.inner, page, now, marks', answers'[cur := r])
  {
    assert Same(cur, marks, answers, marks', answers');
    ChangesKeep(m.inner, page, page.order(cur) + 1, {m.doneName}, now,
                marks', answers', marks', answers'[cur := r]);
    forall x | !Same(x, marks, answers[cur := r], marks', answers'[cur := r])
      ensures page.order(x) < page.order(cur) && x in marks' && marks'[x].name in Names(m.inner)
              && marks'[x].stamp == now
    {
      assert !Same(x, marks, answers, marks', answers');
    }
  }

  // Marking an element and asking the inner matcher about it, seen from the combinator.
  lemma VisitChanges(m: Matcher, page: Page, cur: Node, bound: nat, now: Stamp, at: Mark, r: bool,
                     marks: Marks, answers: Answers, marks': Marks, answers': Answers)
    requires page.Valid() && m.Combinator? && WellNamed(m) && at == Mark(m.doneName, now)
    requires page.order(cur) < bound
    requires Changes(page, page.order(cur), Names(m.inner), now,
                     marks[cur := at], answers[cur := r], marks', answers')
    requires r == Holds(m.inner, page, cur)
    requires SoundHere(m, page, now.run, marks, answers)
    ensures cur in marks' && marks'[cur] == at && cur in answers' && answers'[cur] == r
    ensures Changes(page, bound, Names(m), now, marks, answers, marks', answers')
    ensures SoundHere(m, page, now.run, marks', answers')
    ensures forall x <- marks' :: marks'[x] == at && x != cur ==>
              x in marks && marks[x] == at && x in answers && x in answers' && answers'[x] == answers[x]
  {
    assert Same(cur, marks[cur := at], answers[cur := r], marks', answers');
    forall x | x in marks' && marks'[x].name == m.doneName
      ensures Same(x, marks[cur := at], answers[cur := r], marks', answers')
    {
    }
    forall x
      ensures Same(x, marks, answers, marks', answers') ||
        (page.order(x) < bound && x in marks' && marks'[x].name in Names(m) && marks'[x].stamp == now)
    {
      if x != cur {
        assert Same(x, marks[cur := at], answers[cur := r], marks', answers') ==>
            Same(x, marks, answers, marks', answers');
      }
    }
  }

  // What the inner matcher did, seen from a combinator that leaves no marks itself.
  lemma InnerOnly(m: Matcher, page: Page, bound: nat, now: Stamp,
                  marks: Marks, answers: Answers, marks': Marks, answers': Answers)
    requires page.Valid() && m.Combinator? && WellNamed(m)
    requires Changes(page, bound, Names(m.inner), now, marks, answers, marks', answers')
    ensures Changes(page, bound, Names(m), now, marks, answers, marks', answers')
    ensures SoundHere(m, page, now.run, marks, answers) ==> SoundHere(m, page, now.run, marks', answers')
    ensures ExhaustedHere(m, page, now, marks, answers) ==> ExhaustedHere(m, page, now, marks', answers')
  {
    forall x | x in marks' && marks'[x].name == m.doneName
      ensures Same(x, marks, answers, marks', answers')
    {
    }
  }

  function Relatives(tokens: seq<Token>): nat {
    if tokens == [] then 0
    else Relatives(tokens[..|tokens| - 1]) + if tokens[|tokens| - 1].Relative? then 1 else 0
  }

  // The matcher that token after token builds up; `done` numbers the combinators.
  function MatcherOf(tokens: seq<Token>, context: Node, xml: bool, done: nat): Option<Matcher> {
    if tokens == [] then None
    else
      var rest, last := tokens[..|tokens| - 1], tokens[|tokens| - 1];
      var matcher := MatcherOf(rest, context, xml, done);
      match last
      case Simple(f) => Some(if matcher.None? then Filter(f) else Both(matcher.value, f))
      case Relative(dir, first) =>
        Some(Combinator(if matcher.None? then IsContext(context) else matcher.value, dir,
                        if first then First else if xml then Walking else Caching,
                        done + Relatives(rest)))
  }

  // A compiled matcher decides what its tokens mean, for XML and HTML documents alike.
  lemma {:induction false} MatcherMeaning(tokens: seq<Token>, context: Node, xml: bool, done: nat, page: Page, e: Node)
    requires page.Valid() && tokens != []
    ensures Holds(MatcherOf(tokens, context, xml, done).value, page, e) <==> Selects(tokens, context, page, e)
  {
    var rest, last := tokens[..|tokens| - 1], tokens[|tokens| - 1];
    if rest != [] {
      match last
      case Simple(_) => MatcherMeaning(rest, context, xml, done, page, e);
      case Relative(_, _) =>
        forall a {
          MatcherMeaning(rest, context, xml, done, page, a);
        }
    }
  }

  lemma {:induction false} MatcherNames(tokens: seq<Token>, context: Node, xml: bool, done: nat)
    requires tokens != []
    ensures var m := MatcherOf(tokens, context, xml, done).value;
            WellNamed(m) && forall n <- Names(m) :: done <= n < done + Relatives(tokens)
  {
    var rest := tokens[..|tokens| - 1];
    if rest != [] {
      MatcherNames(rest, context, xml, done);
    }
  }

  ghost predicate Accepts(group: seq<Matcher>, page: Page, e: Node)
    requires page.Valid()
  {
    exists j :: 0 <= j < |group| && Holds(group[j], page, e)
  }

  ghost function Accepted(group: seq<Matcher>, page: Page, elements: seq<Node>): seq<Node>
    requires page.Valid()
  {
    if elements == [] then []
    else
      var rest, last := elements[..|elements| - 1], elements[|elements| - 1];
      Accepted(group, page, rest) + if Accepts(group, page, last) then [last] else []
  }

  ghost predicate Disjoint(group: seq<Matcher>) {
    forall i, j :: 0 <= i < j < |group| ==> Names(group[i]) !! Names(group[j])
  }

  ghost function GroupNames(group: seq<Matcher>): set<nat> {
    if group == [] then {} else Names(group[0]) + GroupNames(group[1..])
  }

  lemma {:induction false} GroupNamesAt(group: seq<Matcher>, j: nat)
    requires j < |group|
    ensures Names(group[j]) <= GroupNames(group)
  {
    if j > 0 {
      GroupNamesAt(group[1..], j - 1);
    }
  }

  lemma {:induction false} GroupNamesOwner(group: seq<Matcher>, n: nat) returns (j: nat)
    requires n in GroupNames(group)
    ensures j < |group| && n in Names(group[j])
  {
    if n in Names(group[0]) {
      j := 0;
    } else {
      var i := GroupNamesOwner(group[1..], n);
      j := i + 1;
    }
  }

  // Matchers none of whose marks belong to this run have nothing to be wrong about.
  lemma {:induction false} SoundAtFirst(m: Matcher, page: Page, run: nat, marks: Marks, answers: Answers)
    requires page.Valid()
    requires forall x <- marks :: marks[x].name in Names(m) ==> marks[x].stamp.run < run
    ensures Sound(m, page, run, marks, answers)
  {
    match m
    case Both(higher, _) => SoundAtFirst(higher, page, run, marks, answers);
    case Combinator(inner, _, _, _) => SoundAtFirst(inner, page, run, marks, answers);
    case _ =>
  }

  lemma {:induction false} ExhaustedAtFirst(m: Matcher, page: Page, now: Stamp, marks: Marks, answers: Answers)
    requires page.Valid()
    requires forall x <- marks :: marks[x].name in Names(m) ==> marks[x].stamp != now
    ensures Exhausted(m, page, now, marks, answers)
  {
    match m
    case Both(higher, _) => ExhaustedAtFirst(higher, page, now, marks, answers);
    case Combinator(inner, _, _, _) => ExhaustedAtFirst(inner, page, now, marks, answers);
    case _ =>
  }

  // The state of a select run before candidate `now.candidate`: the matchers from index j
  // on have not been asked about it yet.
  ghost predicate Running(group: seq<Matcher>, page: Page, now: Stamp, j: nat, marks: Marks, answers: Answers)
    requires page.Valid()
  {
    && (forall i :: 0 <= i < |group| ==> WellNamed(group[i]) && Sound(group[i], page, now.run, marks, answers))
    && Disjoint(group)
    && (forall i, x :: j <= i < |group| && x in marks && marks[x].name in Names(group[i]) ==> marks[x].stamp != now)
  }

  lemma RunningOn(group: seq<Matcher>, page: Page, bound: nat, now: Stamp, j: nat,
                  marks: Marks, answers: Answers, marks': Marks, answers': Answers)
    requires page.Valid() && j < |group|
    requires Running(group, page, now, j, marks, answers)
    requires Changes(page, bound, Names(group[j]), now, marks, answers, marks', answers')
    requires Sound(group[j], page, now.run, marks', answers')
    ensures Running(group, page, now, j + 1, marks', answers')
  {
    forall i | 0 <= i < |group|
      ensures Sound(group[i], page, now.run, marks', answers')
    {
      if i != j {
        assert Names(group[i]) !! Names(group[j]);
        ChangesKeep(group[i], page, bound, Names(group[j]), now, marks, answers, marks', answers');
      }
    }
    forall i, x | j + 1 <= i < |group| && x in marks' && marks'[x].name in Names(group[i])
      ensures marks'[x].stamp != now
    {
      assert Names(group[i]) !! Names(group[j]);
      assert Same(x, marks, answers, marks', answers');
    }
  }

  predicate AllNonEmpty(groups: seq<seq<Token>>) {
    forall i :: 0 <= i < |groups| ==> groups[i] != []
  }

  // The matchers of a comma-separated selector; `done` numbers the combinators throughout.
  function GroupOf(groups: seq<seq<Token>>, context: Node, xml: bool, done: nat): (r: (seq<Matcher>, nat))
    requires AllNonEmpty(groups)
    ensures |r.0| == |groups| && r.1 >= done
  {
    if groups == [] then ([], done)
    else
      var rest := GroupOf(groups[..|groups| - 1], context, xml, done);
      var tokens := groups[|groups| - 1];
      (rest.0 + [MatcherOf(tokens, context, xml, rest.1).value], rest.1 + Relatives(tokens))
  }

  // An element is accepted exactly when one of the alternatives selects it.
  lemma {:induction false} GroupMeaning(groups: seq<seq<Token>>, context: Node, xml: bool, done: nat, page: Page,
                                        e: Node)
    requires page.Valid() && AllNonEmpty(groups)
    ensures Accepts(GroupOf(groups, context, xml, done).0, page, e) <==>
              exists j :: 0 <= j < |groups| && Selects(groups[j], context, page, e)
  {
    if groups != [] {
      var last := |groups| - 1;
      var rest := GroupOf(groups[..last], context, xml, done);
      var all := GroupOf(groups, context, xml, done);
      GroupMeaning(groups[..last], context, xml, done, page, e);
      MatcherMeaning(groups[last], context, xml, rest.1, page, e);
      assert all.0[last] == MatcherOf(groups[last], context, xml, rest.1).value;
      assert forall j :: 0 <= j < last ==> all.0[j] == rest.0[j] && groups[..last][j] == groups[j];
    }
  }

  // The elements that one of the alternatives selects, in the order given.
  ghost function Selected(groups: seq<seq<Token>>, context: Node, page: Page, elements: seq<Node>): seq<Node>
    requires page.Valid()
  {
    if elements == [] then []
    else
      var rest, last := elements[..|elements| - 1], elements[|elements| - 1];
      Selected(groups, context, page, rest)
        + if exists j :: 0 <= j < |groups| && Selects(groups[j], context, page, last) then [last] else []
  }

  lemma {:induction false} SelectorMeaning(groups: seq<seq<Token>>, context: Node, xml: bool, done: nat, page: Page,
                                           elements: seq<Node>)
    requires page.Valid() && AllNonEmpty(groups)
    ensures Accepted(GroupOf(groups, context, xml, done).0, page, elements) == Selected(groups, context, page, elements)
  {
    hide GroupOf, Selects, Accepts;
    if elements != [] {
      SelectorMeaning(groups, context, xml, done, page, elements[..|elements| - 1]);
      GroupMeaning(groups, context, xml, done, page, elements[|elements| - 1]);
    }
  }

  ghost predicate Within(m: Matcher, lo: nat, hi: nat) {
    WellNamed(m) && forall n <- Names(m) :: lo <= n < hi
  }

  ghost predicate Numbered(group: seq<Matcher>, lo: nat, hi: nat) {
    Disjoint(group) && forall i :: 0 <= i < |group| ==> Within(group[i], lo, hi)
  }

  lemma {:induction false} GroupOfNames(groups: seq<seq<Token>>, context: Node, xml: bool, done: nat)
    requires AllNonEmpty(groups)
    ensures var r := GroupOf(groups, context, xml, done); Numbered(r.0, done, r.1)
  {
    if groups != [] {
      var last := |groups| - 1;
      var rest := GroupOf(groups[..last], context, xml, done);
      var r := GroupOf(groups, context, xml, done);
      GroupOfNames(groups[..last], context, xml, done);
      MatcherNames(groups[last], context, xml, rest.1);
      assert Within(r.0[last], rest.1, r.1);
      forall i | 0 <= i < last
        ensures r.0[i] == rest.0[i] && Within(r.0[i], done, rest.1)
      {
      }
    }
  }

  datatype Compiled = Compiled(group: seq<Matcher>, runs: nat, dirruns: nat)

  ghost predicate OwnNames(group: seq<Matcher>, k: nat, owner: map<nat, nat>) {
    && Disjoint(group)
    && (forall j :: 0 <= j < |group| ==> WellNamed(group[j]))
    && (forall n <- GroupNames(group) :: n in owner && owner[n] == k)
  }

  ghost predicate Owned(compiled: seq<Compiled>, owner: map<nat, nat>) {
    forall k :: 0 <= k < |compiled| ==> OwnNames(compiled[k].group, k, owner)
  }

  ghost function Claim(owner: map<nat, nat>, names: set<nat>, k: nat): map<nat, nat> {
    owner + map n | n in names :: k
  }

  // Every mark is from a run that its compiled selector has begun.
  ghost predicate Past(marks: Marks, owner: map<nat, nat>, compiled: seq<Compiled>) {
    forall x <- marks ::
      && marks[x].name in owner
      && owner[marks[x].name] < |compiled|
      && marks[x].stamp.run < compiled[owner[marks[x].name]].dirruns
  }

  // Fresh numbers for a freshly compiled selector.
  lemma OwnedMore(compiled: seq<Compiled>, owner: map<nat, nat>, c: Compiled, done: nat, done': nat, marks: Marks)
    requires Owned(compiled, owner) && (forall n <- owner :: n < done)
    requires done <= done' && Numbered(c.group, done, done') && Past(marks, owner, compiled)
    ensures var owner' := Claim(owner, GroupNames(c.group), |compiled|);
            && Owned(compiled + [c], owner')
            && Past(marks, owner', compiled + [c])
            && forall n <- owner' :: n < done'
  {
    var owner' := Claim(owner, GroupNames(c.group), |compiled|);
    forall n | n in GroupNames(c.group)
      ensures done <= n < done'
    {
      var j := GroupNamesOwner(c.group, n);
      assert Within(c.group[j], done, done');
    }
    forall j | 0 <= j < |c.group|
      ensures WellNamed(c.group[j])
    {
      assert Within(c.group[j], done, done');
    }
    forall k | 0 <= k < |compiled|
      ensures OwnNames(compiled[k].group, k, owner')
    {
      assert OwnNames(compiled[k].group, k, owner);
    }
    assert OwnNames(c.group, |compiled|, owner');
  }

  // Counting a run or a candidate of selector k.
  lemma Counted(k: nat, c: Compiled, marks: Marks, owner: map<nat, nat>, compiled: seq<Compiled>)
    requires k < |compiled| && Past(marks, owner, compiled) && Owned(compiled, owner)
    requires c.group == compiled[k].group && c.dirruns >= compiled[k].dirruns
    ensures Past(marks, owner, compiled[k := c]) && Owned(compiled[k := c], owner)
  {
  }

  // In this run, selector k has left marks for candidates before `bound` only.
  ghost predicate Recent(k: nat, run: nat, bound: nat, marks: Marks, owner: map<nat, nat>) {
    forall x <- marks :: marks[x].name in owner && owner[marks[x].name] == k && marks[x].stamp.run == run ==>
      marks[x].stamp.candidate < bound
  }

  lemma FirstCandidate(k: nat, page: Page, compiled: seq<Compiled>, owner: map<nat, nat>,
                       marks: Marks, answers: Answers)
    requires page.Valid() && k < |compiled|
    requires Owned(compiled, owner) && Past(marks, owner, compiled)
    ensures var c := compiled[k];
            && Running(c.group, page, Stamp(c.dirruns, c.runs), 0, marks, answers)
            && Recent(k, c.dirruns, c.runs, marks, owner)
  {
    var c := compiled[k];
    assert OwnNames(c.group, k, owner);
    forall j | 0 <= j < |c.group|
      ensures Sound(c.group[j], page, c.dirruns, marks, answers)
    {
      GroupNamesAt(c.group, j);
      SoundAtFirst(c.group[j], page, c.dirruns, marks, answers);
    }
    forall i, x | 0 <= i < |c.group| && x in marks && marks[x].name in Names(c.group[i])
      ensures marks[x].stamp != Stamp(c.dirruns, c.runs)
    {
      GroupNamesAt(c.group, i);
    }
  }

  lemma NextMarks(group: seq<Matcher>, k: nat, page: Page, bound: nat, now: Stamp,
                      compiled: seq<Compiled>, owner: map<nat, nat>,
                      marks: Marks, answers: Answers, marks': Marks, answers': Answers)
    requires page.Valid() && k < |compiled| && compiled[k].dirruns == now.run + 1
    requires Owned(compiled, owner) && group == compiled[k].group
    requires Past(marks, owner, compiled) && Recent(k, now.run, now.candidate, marks, owner)
    requires Changes(page, bound, GroupNames(group), now, marks, answers, marks', answers')
    requires Running(group, page, now, |group|, marks', answers')
    ensures Past(marks', owner, compiled) && Recent(k, now.run, now.candidate + 1, marks', owner)
  {
    hide Running, GroupNames, Disjoint;
    assert OwnNames(group, k, owner);
    forall x | x in marks'
      ensures marks'[x].name in owner
      ensures (marks'[x].stamp == now && owner[marks'[x].name] == k) || Same(x, marks, answers, marks', answers')
    {
    }
  }

  lemma NextCandidate(group: seq<Matcher>, k: nat, page: Page, bound: nat, now: Stamp,
                      compiled: seq<Compiled>, owner: map<nat, nat>,
                      marks: Marks, answers: Answers, marks': Marks, answers': Answers)
    requires page.Valid() && k < |compiled| && compiled[k].dirruns == now.run + 1
    requires Owned(compiled, owner) && group == compiled[k].group
    requires Past(marks, owner, compiled) && Recent(k, now.run, now.candidate, marks, owner)
    requires Changes(page, bound, GroupNames(group), now, marks, answers, marks', answers')
    requires Running(group, page, now, |group|, marks', answers')
    ensures Past(marks', owner, compiled) && Recent(k, now.run, now.candidate + 1, marks', owner)
    ensures Running(group, page, Stamp(now.run, now.candidate + 1), 0, marks', answers')
  {
    hide Changes, Past, GroupNames, Disjoint, Sound;
    NextMarks(group, k, page, bound, now, compiled, owner, marks, answers, marks', answers');
    assert OwnNames(group, k, owner);
    var next := Stamp(now.run, now.candidate + 1);
    forall i, x | 0 <= i < |group| && x in marks' && marks'[x].name in Names(group[i])
      ensures marks'[x].stamp != next
    {
      GroupNamesAt(group, i);
    }
  }

  class Sizzle {
    var done: nat
    var dirruns: nat
    var cachedruns: nat
    var expando: map<Node, string>
    var sizset: Answers
    var compiled: seq<Compiled>
    ghost var marks: Marks
    ghost var owner: map<nat, nat>  // which compiled selector a combinator number belongs to

    // The strings on the elements are the marks, spelled out.
    ghost predicate Tidy()
      reads this
    {
      && expando.Keys == marks.Keys
      && forall x <- marks :: expando[x] == CachedKey(marks[x].name, marks[x].stamp.run, marks[x].stamp.candidate)
    }

    method Matches(m: Matcher, page: Page, e: Node) returns (r: bool)
      requires page.Valid() && WellNamed(m) && Tidy()
      requires Sound(m, page, dirruns, marks, sizset)
      requires Exhausted(m, page, Stamp(dirruns, cachedruns), marks, sizset)
      modifies this`expando, this`sizset, this`marks
      ensures Tidy()
      ensures r <==> Holds(m, page, e)
      ensures Sound(m, page, dirruns, marks, sizset)
      ensures !r ==> Exhausted(m, page, Stamp(dirruns, cachedruns), marks, sizset)
      ensures Changes(page, page.order(e), Names(m), Stamp(dirruns, cachedruns),
                      old(marks), old(sizset), marks, sizset)
      decreases m, 0
    {
      match m
      case IsContext(c) => r := e == c;
      case Filter(f) => r := page.passes(f, e);
      case Both(higher, deeper) =>
        r := page.passes(deeper, e);
        if r {
          r := Matches(higher, page, e);
        }
      case Combinator(inner, dir, First, n) =>
        r := MatchesNearest(m, page, e);
      case Combinator(inner, dir, Walking, n) =>
        r := MatchesUncached(m, page, e);
      case Combinator(inner, dir, Caching, n) =>
        r := MatchesCached(m, page, e);
    }

    // The `first` combinators look at the nearest element only.
    method MatchesNearest(m: Matcher, page: Page, e: Node) returns (r: bool)
      requires m.Combinator? && m.strategy == First
      requires page.Valid() && WellNamed(m) && Tidy()
      requires Sound(m, page, dirruns, marks, sizset)
      requires Exhausted(m, page, Stamp(dirruns, cachedruns), marks, sizset)
      modifies this`expando, this`sizset, this`marks
      ensures Tidy()
      ensures r <==> Holds(m, page, e)
      ensures Sound(m, page, dirruns, marks, sizset)
      ensures !r ==> Exhausted(m, page, Stamp(dirruns, cachedruns), marks, sizset)
      ensures Changes(page, page.order(e), Names(m), Stamp(dirruns, cachedruns),
                      old(marks), old(sizset), marks, sizset)
      decreases m.inner, 2
    {
      var cur := e;
      var next := page.Step(m.dir, cur);
      while next.Some?
        invariant next == page.Step(m.dir, cur) && page.order(cur) <= page.order(e)
        invariant page.Along(m.dir, e) == page.Along(m.dir, cur)
        invariant unchanged(this)
        decreases page.order(cur)
      {
        cur := next.value;
        if cur in page.elements {
          r := Matches(m.inner, page, cur);
          InnerOnly(m, page, page.order(cur), Stamp(dirruns, cachedruns), old(marks), old(sizset), marks, sizset);
          return;
        }
        next := page.Step(m.dir, cur);
      }
      r := false;
    }

    // The walk without marks, as the same function builds it for XML documents.
    method MatchesUncached(m: Matcher, page: Page, e: Node) returns (r: bool)
      requires m.Combinator? && m.strategy == Walking
      requires page.Valid() && WellNamed(m) && Tidy()
      requires Sound(m, page, dirruns, marks, sizset)
      requires Exhausted(m, page, Stamp(dirruns, cachedruns), marks, sizset)
      modifies this`expando, this`sizset, this`marks
      ensures Tidy()
      ensures r <==> Holds(m, page, e)
      ensures Sound(m, page, dirruns, marks, sizset)
      ensures !r ==> Exhausted(m, page, Stamp(dirruns, cachedruns), marks, sizset)
      ensures Changes(page, page.order(e), Names(m), Stamp(dirruns, cachedruns),
                      old(marks), old(sizset), marks, sizset)
      decreases m.inner, 2
    {
      ghost var now := Stamp(dirruns, cachedruns);
      var cur := e;
      var next := page.Step(m.dir, cur);
      while next.Some?
        invariant Tidy() && next == page.Step(m.dir, cur)
        invariant page.order(cur) <= page.order(e)
        invariant Holds(m, page, e) <==> Holds(m, page, cur)
        invariant Sound(m, page, dirruns, marks, sizset)
        invariant Exhausted(m, page, now, marks, sizset)
        invariant Changes(page, page.order(e), Names(m), now, old(marks), old(sizset), marks, sizset)
        decreases page.order(cur)
      {
        HoldsStep(m, page, cur);
        cur := next.value;
        if cur in page.elements {
          ghost var marks1, answers1 := marks, sizset;
          r := Matches(m.inner, page, cur);
          InnerOnly(m, page, page.order(cur), now, marks1, answers1, marks, sizset);
          ChangesCompose(page, page.order(e), page.order(cur), Names(m), Names(m), now,
                         old(marks), old(sizset), marks1, answers1, marks, sizset);
          if r {
            return;
          }
        }
        next := page.Step(m.dir, cur);
      }
      HoldsStep(m, page, cur);
      r := false;
    }

    method MatchesCached(m: Matcher, page: Page, e: Node) returns (r: bool)
      requires m.Combinator? && m.strategy == Caching
      requires page.Valid() && WellNamed(m) && Tidy()
      requires Sound(m, page, dirruns, marks, sizset)
      requires Exhausted(m, page, Stamp(dirruns, cachedruns), marks, sizset)
      modifies this`expando, this`sizset, this`marks
      ensures Tidy()
      ensures r <==> Holds(m, page, e)
      ensures Sound(m, page, dirruns, marks, sizset)
      ensures !r ==> Exhausted(m, page, Stamp(dirruns, cachedruns), marks, sizset)
      ensures Changes(page, page.order(e), Names(m), Stamp(dirruns, cachedruns),
                      old(marks), old(sizset), marks, sizset)
      decreases m.inner, 2
    {
      hide CachedKey, DirKey, Changes;
      ChangesNothing(page, page.order(e), Names(m), Stamp(dirruns, cachedruns), marks, sizset);
      var n, inner := m.doneName, m.inner;
      var dirkey := DirKey(n, dirruns);
      var cachedkey := CachedKey(n, dirruns, cachedruns);
      ghost var now := Stamp(dirruns, cachedruns);
      ghost var at := Mark(n, now);
      var cur := e;
      var next := page.Step(m.dir, cur);
      while next.Some?
        invariant Tidy() && next == page.Step(m.dir, cur)
        invariant page.order(cur) <= page.order(e)
        invariant Holds(m, page, e) <==> Holds(m, page, cur)
        invariant SoundHere(m, page, dirruns, marks, sizset)
        invariant Sound(inner, page, dirruns, marks, sizset)
        invariant Exhausted(inner, page, now, marks, sizset)
        invariant Changes(page, page.order(e), Names(m), now, old(marks), old(sizset), marks, sizset)
        invariant forall x <- marks :: marks[x] == at && !sizset[x] && Holds(m, page, x) ==>
                    page.order(x) >= page.order(cur) && Holds(m, page, cur)
        decreases page.order(cur)
      {
        HoldsStep(m, page, cur);
        ghost var before := cur;
        cur := next.value;
        if cur in page.elements {
          if cur in expando {
            PrefixTestExact(n, dirruns, marks[cur].name, marks[cur].stamp.run, marks[cur].stamp.candidate);
          }
          if cur in expando && expando[cur] == cachedkey {
            CachedKeyInjective(n, dirruns, cachedruns, marks[cur].name, marks[cur].stamp.run,
                               marks[cur].stamp.candidate);
            return sizset[cur];
          } else if cur in expando && dirkey <= expando[cur] {
            if sizset[cur] {
              return true;
            }
          } else {
            ghost var marks1, answers1 := marks, sizset;
            r := Visit(m, page, cur);
            VisitChanges(m, page, cur, page.order(e), now, at, r, marks1, answers1, marks, sizset);
            ChangesCompose(page, page.order(e), page.order(e), Names(m), Names(m), now,
                           old(marks), old(sizset), marks1, answers1, marks, sizset);
            if r {
              return;
            }
          }
        }
        next := page.Step(m.dir, cur);
      }
      HoldsStep(m, page, cur);
      r := false;
    }

    // Any alternative of a comma-separated selector will do.
    method MatchesGroup(group: seq<Matcher>, page: Page, e: Node) returns (r: bool)
      requires page.Valid() && Tidy()
      requires Running(group, page, Stamp(dirruns, cachedruns), 0, marks, sizset)
      modifies this`expando, this`sizset, this`marks
      ensures Tidy()
      ensures r <==> Accepts(group, page, e)
      ensures Running(group, page, Stamp(dirruns, cachedruns), |group|, marks, sizset)
      ensures Changes(page, page.order(e), GroupNames(group), Stamp(dirruns, cachedruns),
                      old(marks), old(sizset), marks, sizset)
    {
      ghost var now := Stamp(dirruns, cachedruns);
      var j := 0;
      while j < |group|
        invariant 0 <= j <= |group| && Tidy()
        invariant Running(group, page, now, j, marks, sizset)
        invariant forall i :: 0 <= i < j ==> !Holds(group[i], page, e)
        invariant Changes(page, page.order(e), GroupNames(group), now, old(marks), old(sizset), marks, sizset)
      {
        ghost var marks1, answers1 := marks, sizset;
        ExhaustedAtFirst(group[j], page, now, marks, sizset);
        r := Matches(group[j], page, e);
        RunningOn(group, page, page.order(e), now, j, marks1, answers1, marks, sizset);
        GroupNamesAt(group, j);
        ChangesCompose(page, page.order(e), page.order(e), GroupNames(group), Names(group[j]), now,
                       old(marks), old(sizset), marks1, answers1, marks, sizset);
        if r {
          return;
        }
        j := j + 1;
      }
      r := false;
    }

    // Mark an element that carries no mark of this run, and ask the inner matcher.
    method Visit(m: Matcher, page: Page, cur: Node) returns (r: bool)
      requires m.Combinator? && m.strategy == Caching
      requires page.Valid() && WellNamed(m) && Tidy()
      requires Sound(m.inner, page, dirruns, marks, sizset)
      requires Exhausted(m.inner, page, Stamp(dirruns, cachedruns), marks, sizset)
      modifies this`expando, this`sizset, this`marks
      ensures Tidy()
      ensures r <==> Holds(m.inner, page, cur)
      ensures Sound(m.inner, page, dirruns, marks, sizset)
      ensures !r ==> Exhausted(m.inner, page, Stamp(dirruns, cachedruns), marks, sizset)
      ensures var now := Stamp(dirruns, cachedruns);
              var at := Mark(m.doneName, now);
              Changes(page, page.order(cur), Names(m.inner), now,
                      old(marks)[cur := at], old(sizset)[cur := r], marks, sizset)
      decreases m.inner, 1
    {
      hide CachedKey, DirKey;
      ghost var n, inner := m.doneName, m.inner;
      ghost var now := Stamp(dirruns, cachedruns);
      ghost var at := Mark(n, now);
      expando := expando[cur := CachedKey(m.doneName, dirruns, cachedruns)];
      marks := marks[cur := at];
      StartVisit(m, page, cur, now, old(marks), sizset);
      r := Matches(m.inner, page, cur);
      FinishVisit(m, page, cur, now, r, old(marks)[cur := at], old(sizset), marks, sizset);
      sizset := sizset[cur := r];
    }

    // matcherFromTokens, numbering each combinator with done++
    method MatcherFromTokens(tokens: seq<Token>, context: Node, xml: bool) returns (m: Matcher)
      requires tokens != []
      modifies this`done
      ensures Some(m) == MatcherOf(tokens, context, xml, old(done))
      ensures done == old(done) + Relatives(tokens)
    {
      var matcher: Option<Matcher> := None;
      for i := 0 to |tokens|
        invariant matcher == MatcherOf(tokens[..i], context, xml, old(done))
        invariant done == old(done) + Relatives(tokens[..i])
      {
        assert tokens[..i + 1][..i] == tokens[..i];
        match tokens[i]
        case Relative(dir, first) =>
          var inner := if matcher.None? then IsContext(context) else matcher.value;
          var strategy := if first then First else if xml then Walking else Caching;
          matcher := Some(Combinator(inner, dir, strategy, done));
          done := done + 1;
        case Simple(f) =>
          matcher := Some(if matcher.None? then Filter(f) else Both(matcher.value, f));
      }
      assert tokens[..|tokens|] == tokens;
      m := matcher.value;
    }

    // Combinator numbers are never shared, and no mark is from a run still to come.
    ghost predicate History()
      reads this
    {
      && Tidy()
      && Owned(compiled, owner)
      && (forall n <- owner :: n < done)
      && Past(marks, owner, compiled)
    }

    constructor ()
      ensures History() && compiled == [] && done == 0
    {
      done, dirruns, cachedruns := 0, 0, 0;
      expando, sizset, marks, owner, compiled := map[], map[], map[], map[], [];
    }

    // The loop over the groups of a selector.
    method MatchersOf(groups: seq<seq<Token>>, context: Node, xml: bool) returns (group: seq<Matcher>)
      requires AllNonEmpty(groups)
      modifies this`done
      ensures (group, done) == GroupOf(groups, context, xml, old(done))
    {
      group := [];
      ghost var start := done;
      for i := 0 to |groups|
        invariant (group, done) == GroupOf(groups[..i], context, xml, start)
      {
        assert groups[..i + 1][..i] == groups[..i];
        var m := MatcherFromTokens(groups[i], context, xml);
        group := group + [m];
      }
      assert groups[..|groups|] == groups;
    }

    // Each compilation gets combinator numbers of its own.
    method Compile(groups: seq<seq<Token>>, context: Node, xml: bool) returns (k: nat)
      requires History() && AllNonEmpty(groups)
      modifies this
      ensures History()
      ensures k == |old(compiled)| && |compiled| == k + 1 && compiled[..k] == old(compiled)
      ensures compiled[k] == Compiled(GroupOf(groups, context, xml, old(done)).0, 0, 0)
      ensures expando == old(expando) && sizset == old(sizset)
    {
      hide CachedKey, DirKey, Owned, Past, GroupOf;
      GroupOfNames(groups, context, xml, done);
      ghost var start := done;
      var group := MatchersOf(groups, context, xml);
      k := |compiled|;
      OwnedMore(compiled, owner, Compiled(group, 0, 0), start, done, marks);
      compiled := compiled + [Compiled(group, 0, 0)];
      owner := Claim(owner, GroupNames(group), k);
    }

    // Between two candidates of a run of selector k.
    ghost predicate InRun(k: nat, page: Page)
      reads this
      requires page.Valid()
    {
      && History()
      && k < |compiled|
      && compiled[k].dirruns == dirruns + 1
      && Running(compiled[k].group, page, Stamp(dirruns, compiled[k].runs), 0, marks, sizset)
      && Recent(k, dirruns, compiled[k].runs, marks, owner)
    }

    method TryCandidate(k: nat, page: Page, e: Node) returns (accepted: bool)
      requires page.Valid() && InRun(k, page)
      modifies this`cachedruns, this`compiled, this`expando, this`sizset, this`marks
      ensures InRun(k, page)
      ensures compiled == old(compiled)[k := old(compiled)[k].(runs := old(compiled)[k].runs + 1)]
      ensures accepted <==> Accepts(compiled[k].group, page, e)
    {
      hide Changes, Same, CachedKey, DirKey, Past, Owned, Recent, Running;
      var c := compiled[k];
      cachedruns := c.runs;
      Counted(k, c.(runs := cachedruns + 1), marks, owner, compiled);
      compiled := compiled[k := c.(runs := cachedruns + 1)];
      ghost var marks1, answers1 := marks, sizset;
      accepted := MatchesGroup(c.group, page, e);
      NextCandidate(c.group, k, page, page.order(e), Stamp(dirruns, cachedruns), compiled, owner,
                    marks1, answers1, marks, sizset);
    }

    // One select run over the given elements: the marks of earlier runs, of this selector or
    // of any other, never change what it finds.
    method Select(k: nat, page: Page, elements: seq<Node>, results: seq<Node>) returns (r: seq<Node>)
      requires page.Valid() && History() && k < |compiled|
      modifies this
      ensures History()
      ensures |compiled| == |old(compiled)| && compiled[k].group == old(compiled[k].group)
      ensures r == results + Accepted(compiled[k].group, page, elements)
      ensures forall i :: 0 <= i < |compiled| && i != k ==> compiled[i] == old(compiled[i])
    {
      hide CachedKey, DirKey, Past, Owned, Recent, Running;
      var c := compiled[k];
      FirstCandidate(k, page, compiled, owner, marks, sizset);
      Counted(k, c.(dirruns := c.dirruns + 1), marks, owner, compiled);
      dirruns := c.dirruns;
      compiled := compiled[k := c.(dirruns := c.dirruns + 1)];
      r := results;
      for i := 0 to |elements|
        invariant InRun(k, page)
        invariant compiled == old(compiled)[k := c.(dirruns := compiled[k].dirruns, runs := compiled[k].runs)]
        invariant r == results + Accepted(c.group, page, elements[..i])
      {
        var accepted := TryCandidate(k, page, elements[i]);
        if accepted {
          r := r + [elements[i]];
        }
        assert elements[..i + 1][..i] == elements[..i];
      }
      assert elements[..|elements|] == elements;
    }

    // The part of select after the candidates are known: compile the selector, run it.
    method Query(groups: seq<seq<Token>>, context: Node, xml: bool, page: Page, elements: seq<Node>, results: seq<Node>)
      returns (r: seq<Node>)
      requires page.Valid() && History() && AllNonEmpty(groups)
      modifies this
      ensures History()
      ensures r == results + Selected(groups, context, page, elements)
      ensures |compiled| == |old(compiled)| + 1 && compiled[..|old(compiled)|] == old(compiled)
    {
      hide Sizzle.History, GroupOf;
      ghost var start := done;
      var k := Compile(groups, context, xml);
      r := Select(k, page, elements, results);
      SelectorMeaning(groups, context, xml, start, page, elements);
    }
  }
}
