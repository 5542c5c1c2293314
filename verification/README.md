# Verified models of SCF's embedded libraries and override script

SCF deploys Cloud Foundry on Kubernetes. The intricate logic in its repository sits in two
libraries that its acceptance-test application carries, Mustache 0.7.0 and jQuery 1.8.1, and in
one script of its own, `bin/kube_overrides.rb`. This project models that logic in Dafny and
proves what it is relied upon for. `dafny verify dfyconfig.toml` checks all of it.

Code that works on shared mutable state is modelled by classes and loops over the same state,
each proved against a specification on values; the lemmas then say what that specification
promises.

| modules | what they model | main results |
|---|---|---|
| Decimal, SizzleKeys, SizzleMatch, SizzleLinks | Sizzle's compiled matchers with marks on elements | Sizzle.Query, CombinatorMeaning, PrefixTestExact |
| SizzleOrder | the fallback document-order comparator and `uniqueSort` | OrderIsPreorder, AntisymmetricExactly, UniqueSort |
| MustacheScanner, MustacheLexer, MustacheText, MustachePrint, MustacheStrip, MustacheParse | template text to flat tokens | PrintLex, TemplateAccounted, ParseTokens |
| MustacheNest, MustacheTemplate | tokens to a tree | NestExactly, NestOf, ParsedSections |
| MustacheEscape, MustacheContext, MustacheRender, MustacheCache | rendering with its three caches | Writer.Render, CacheInvisible, SwappableExactly, UnescapeEscape |
| MustacheAlike, MustacheParts, MustacheLaws | what templates render to, from their text | NameShown, SectionShown, InvertedShown, ConcatShown |
| CallbackQueue, CallbackOrder, Callbacks, CallbackFacts, CallbackMemory, CallbackLaws | `jQuery.Callbacks` under re-entrant use | FireList, FiringExactlyOnce, FirstComeFirstServed, AlwaysRemembers, OnceOnly |
| Deferred, DeferredLanes, When, WhenInputs | `jQuery.Deferred` and `jQuery.when` | SettledForGood, CallsInOrder, When.constructor |
| DataCache | the node data cache and its recycled numbers | Cache.CleanData, Apart, RemovedExactly |
| ExtendTree, ExtendHeap, ExtendFacts, ExtendSharing, Extend | deep and shallow `jQuery.extend` | MergeAll, OverlayExactly, AllOverlay, RightBiased |
| AjaxConvert | the converter search of `ajaxConvert` | AjaxConvert, SuccessExactly, WayExactly |
| EventHandlers, EventLaws | delegated and direct handlers, and their dispatch | UnbindExactly, CallsExactly, HandlerQueue, RanExactly |
| FxQueue | the `fx` queue and its sentinel | RunTidy, EmptiedExactly |
| KubeOverrides | overrides of nested values, and of environment lists | AllPossible, ReadsBack, EnvReadsBack |

Where the code is narrower than the obvious claim, the claim is stated exactly and the exception
is proved: the prefix test on marks needs run numbers in order (PrefixTestNeedsOrder), the
comparator is antisymmetric across documents only in one case (AntisymmetricExactly), section
bounds stop before the closing tag of a nested last section (BoundsWithin), the last line of a
template is never stripped (StripExactly), a function that calls `next` twice breaks the `fx`
queue (NextTwice), overlapping override paths clash (PrefixesClash), a template compiled with a
second pair of tags gets the function of the first (TagsMatter), and a target of `extend` in which
an object is reached twice does not become the overlay of every source (OverlayExactly, SharedOnce).
Two templates render together as they do apart unless a line that runs across the border is
stripped otherwise (StripConcat, LinesMatter).

## Model

| member | source | states |
|---|---|---|
| Decimal.ToStringInjective | src/scf-release/src/acceptance-tests-brain/test-resources/node-env/javascripts/jquery.js:4763-4769 | two counters with the same decimal text are the same number, so no two marks can be confused through their spelling |
| Decimal.ToStringLength | src/scf-release/src/acceptance-tests-brain/test-resources/node-env/javascripts/jquery.js:4763-4769 | a larger counter never has a shorter text; this is what makes the prefix test safe against later runs only |
| Decimal.ToStringReads | src/scf-release/src/acceptance-tests-brain/test-resources/node-env/javascripts/jquery.js:4763-4769 | the text read digit by digit is the number again, and it has no digits to spare in front |
| SizzleKeys.FirstDot | src/scf-release/src/acceptance-tests-brain/test-resources/node-env/javascripts/jquery.js:4763-4769 | the number in front of the first dot is determined by the text, even by a prefix of it |
| SizzleKeys.CachedKeyInjective | src/scf-release/src/acceptance-tests-brain/test-resources/node-env/javascripts/jquery.js:4763-4769 | the string kept on an element names exactly one combinator, run and candidate |
| SizzleKeys.PrefixTestExact | src/scf-release/src/acceptance-tests-brain/test-resources/node-env/javascripts/jquery.js:4763-4769 | `cache.indexOf(dirkey) === 0` holds exactly for marks of the same combinator and the same run, provided no mark of that combinator is from a later run |
| SizzleKeys.PrefixTestNeedsOrder | src/scf-release/src/acceptance-tests-brain/test-resources/node-env/javascripts/jquery.js:4763-4769 | without that proviso it is false: run 1 takes a mark of run 10 for its own |
| SizzleMatch.HoldsStep | src/scf-release/src/acceptance-tests-brain/test-resources/node-env/javascripts/jquery.js:4753-4759 | the uncached walk unrolled by one element: accept here or go on from here |
| SizzleMatch.MatcherMeaning | src/scf-release/src/acceptance-tests-brain/test-resources/node-env/javascripts/jquery.js:4796-4809 | the closure built token by token, with higher/deeper nesting, decides what the token list means under Selectors Level 3 section 8, for XML and HTML alike |
| SizzleMatch.GroupMeaning | src/scf-release/src/acceptance-tests-brain/test-resources/node-env/javascripts/jquery.js:4811-4844 | a comma-separated selector accepts an element exactly when one of its alternatives selects it |
| SizzleMatch.MatcherNames | src/scf-release/src/acceptance-tests-brain/test-resources/node-env/javascripts/jquery.js:4796-4809 | a compiled matcher uses exactly the combinator numbers between the counter before and after |
| SizzleMatch.GroupOfNames | src/scf-release/src/acceptance-tests-brain/test-resources/node-env/javascripts/jquery.js:4824-4844 | matchers of one selector share no combinator number |
| SizzleMatch.ChangesKeep | src/scf-release/src/acceptance-tests-brain/test-resources/node-env/javascripts/jquery.js:4765-4782 | marks left by one combinator never spoil what another one relies on, although an element has a single mark slot |
| SizzleMatch.StartVisit | src/scf-release/src/acceptance-tests-brain/test-resources/node-env/javascripts/jquery.js:4774-4775 | overwriting the mark of an element that is about to be asked keeps the inner matcher's marks truthful |
| SizzleMatch.FinishVisit | src/scf-release/src/acceptance-tests-brain/test-resources/node-env/javascripts/jquery.js:4774-4779 | after the inner matcher has answered, the mark and the answer on the element are truthful for this combinator, and a negative one stops later walks rightly |
| SizzleMatch.Sizzle.Matches | src/scf-release/src/acceptance-tests-brain/test-resources/node-env/javascripts/jquery.js:4733-4793 | any matcher answers as if nothing were ever remembered, and leaves only truthful marks behind |
| SizzleMatch.Sizzle.MatchesNearest | src/scf-release/src/acceptance-tests-brain/test-resources/node-env/javascripts/jquery.js:4743-4750 | the child and adjacent-sibling combinators ask the nearest element only |
| SizzleMatch.Sizzle.MatchesUncached | src/scf-release/src/acceptance-tests-brain/test-resources/node-env/javascripts/jquery.js:4752-4760 | the walk for XML documents decides the meaning of the combinator |
| SizzleMatch.Sizzle.Visit | src/scf-release/src/acceptance-tests-brain/test-resources/node-env/javascripts/jquery.js:4774-4779 | one element not yet marked in this run: mark it, ask the inner matcher, store the answer; the state changes exactly so |
| SizzleMatch.Sizzle.MatchesCached | src/scf-release/src/acceptance-tests-brain/test-resources/node-env/javascripts/jquery.js:4761-4783 | the caching walk, with its early exits through `cachedkey`, `dirkey` and `sizset`, gives the same answer as the uncached walk |
| SizzleMatch.Sizzle.MatchesGroup | src/scf-release/src/acceptance-tests-brain/test-resources/node-env/javascripts/jquery.js:4811-4822 | the group matcher stops at the first alternative that accepts, and is right |
| SizzleMatch.Sizzle.MatcherFromTokens | src/scf-release/src/acceptance-tests-brain/test-resources/node-env/javascripts/jquery.js:4796-4809 | the loop builds the specified matcher and advances `done` by one per combinator |
| SizzleMatch.Sizzle.MatchersOf | src/scf-release/src/acceptance-tests-brain/test-resources/node-env/javascripts/jquery.js:4835-4837 | all groups of a selector are compiled, in order, with numbers of their own |
| SizzleMatch.Sizzle.Compile | src/scf-release/src/acceptance-tests-brain/test-resources/node-env/javascripts/jquery.js:4824-4844 | compiling keeps the whole history truthful: numbers are fresh, counters start at 0, other compiled selectors stay |
| SizzleMatch.Sizzle.TryCandidate | src/scf-release/src/acceptance-tests-brain/test-resources/node-env/javascripts/jquery.js:5024-5027 | one candidate of a run is accepted exactly when the selector selects it; `cachedruns` moves on |
| SizzleMatch.Sizzle.Select | src/scf-release/src/acceptance-tests-brain/test-resources/node-env/javascripts/jquery.js:5016-5029 | a run of a compiled selector appends exactly the elements its matchers accept, in order, whatever earlier runs of this and other selectors left on the elements |
| SizzleMatch.SelectorMeaning | src/scf-release/src/acceptance-tests-brain/test-resources/node-env/javascripts/jquery.js:4811-4844 | what a compiled selector accepts of a list are the elements that some alternative selects, in order |
| SizzleMatch.Sizzle.Query | src/scf-release/src/acceptance-tests-brain/test-resources/node-env/javascripts/jquery.js:5016-5029 | compiling and running a selector appends exactly the elements that some alternative of it selects, in order, after any history of runs |
| SizzleMatch.Sizzle.constructor | src/scf-release/src/acceptance-tests-brain/test-resources/node-env/javascripts/jquery.js:4733-4736 | the initial state satisfies the invariant |
| SizzleLinks.AlongParents | src/scf-release/src/acceptance-tests-brain/test-resources/node-env/javascripts/jquery.js:4743-4759 | the elements a parent combinator meets are those of the walk along `parentNode`, link by link to its end, in that order |
| SizzleLinks.AlongSiblings | src/scf-release/src/acceptance-tests-brain/test-resources/node-env/javascripts/jquery.js:4743-4759 | the same for a sibling combinator and `previousSibling` |
| SizzleLinks.SomeOnWalk | src/scf-release/src/acceptance-tests-brain/test-resources/node-env/javascripts/jquery.js:4752-4760 | some element a number of links away is accepted exactly when some element of the walk is |
| SizzleLinks.NearestOnWalk | src/scf-release/src/acceptance-tests-brain/test-resources/node-env/javascripts/jquery.js:4743-4750 | the element the fewest links away is the first element of the walk |
| SizzleLinks.CombinatorMeaning | src/scf-release/src/acceptance-tests-brain/test-resources/node-env/javascripts/jquery.js:4122-4125 | `A > B` asks the nearest element up the parent links, `A B` any element up them, `A + B` the nearest one back along the siblings, `A ~ B` any one; stated over the document's own links, with the four characters spelled out |
| SizzleLinks.FilterMeaning | src/scf-release/src/acceptance-tests-brain/test-resources/node-env/javascripts/jquery.js:4785-4793 | a filter asks the element itself, and what stands in front of it in the selector too; a combinator at the very beginning is anchored at the context |
| SizzleOrder.PreorderSorted | src/scf-release/src/acceptance-tests-brain/test-resources/node-env/javascripts/jquery.js:4557-4615 | preorder lists exactly the nodes of a tree, strictly in document order (ancestors first, then earlier branches) |
| SizzleOrder.ParentIn | src/scf-release/src/acceptance-tests-brain/test-resources/node-env/javascripts/jquery.js:4571-4599 | parent links stay inside the forest |
| SizzleOrder.SiblingCheck | src/scf-release/src/acceptance-tests-brain/test-resources/node-env/javascripts/jquery.js:4527-4543 | the walk along next siblings decides which of two siblings comes first |
| SizzleOrder.Ancestors | src/scf-release/src/acceptance-tests-brain/test-resources/node-env/javascripts/jquery.js:4589-4599 | the two loops collect the proper ancestors, outermost first |
| SizzleOrder.SortOrder | src/scf-release/src/acceptance-tests-brain/test-resources/node-env/javascripts/jquery.js:4557-4615 | the comparator returns the sign specified by the first difference of the ancestor chains and sets the duplicate flag exactly on equal nodes |
| SizzleOrder.OrderIsPreorder | src/scf-release/src/acceptance-tests-brain/test-resources/node-env/javascripts/jquery.js:4557-4615 | within one document the sign is zero, negative or positive exactly as the preorder positions compare, so it is a total order |
| SizzleOrder.AntisymmetricExactly | src/scf-release/src/acceptance-tests-brain/test-resources/node-env/javascripts/jquery.js:4576-4585 | across documents antisymmetry holds if and only if exactly one of the nodes is a root; otherwise each is said to come after the other |
| SizzleOrder.SpliceStep | src/scf-release/src/acceptance-tests-brain/test-resources/node-env/javascripts/jquery.js:4631-4635 | splicing out an entry equal to the one before it keeps the set of nodes and the sorted prefix |
| SizzleOrder.UniqueSort | src/scf-release/src/acceptance-tests-brain/test-resources/node-env/javascripts/jquery.js:4623-4639 | after sorting, the loop leaves a strictly increasing list (by preorder position) with the same set of nodes |
| MustacheScanner.Search | src/scf-release/src/acceptance-tests-brain/test-resources/node-env/lib/mustache.js:107-108 | the leftmost position at which the pattern matches; nowhere before it does it match |
| MustacheScanner.LastFit | src/scf-release/src/acceptance-tests-brain/test-resources/node-env/lib/mustache.js:452-455 | the greedy match of white space followed by the closing delimiter takes the last possible position |
| MustacheScanner.Scanner.constructor | src/scf-release/src/acceptance-tests-brain/test-resources/node-env/lib/mustache.js:74-78 | a new scanner stands at position 0 with the whole text ahead |
| MustacheScanner.Scanner.Scan | src/scf-release/src/acceptance-tests-brain/test-resources/node-env/lib/mustache.js:91-101 | takes the match only if it begins right here; tail and position move together (the tail is always the text from the position on) |
| MustacheScanner.Scanner.ScanUntil | src/scf-release/src/acceptance-tests-brain/test-resources/node-env/lib/mustache.js:107-126 | skips to the leftmost match, or everything; the skipped text is returned and the position stays in step |
| MustacheLexer.SetTagsNonEmpty | src/scf-release/src/acceptance-tests-brain/test-resources/node-env/lib/mustache.js:555-558 | a tag that sets delimiters sets two non-empty ones or fails, so the loop never looks for an empty delimiter |
| MustacheLexer.NotFound | src/scf-release/src/acceptance-tests-brain/test-resources/node-env/lib/mustache.js:517-520 | the loop leaves early only if nothing of the template is left |
| MustacheLexer.RoundTiles | src/scf-release/src/acceptance-tests-brain/test-resources/node-env/lib/mustache.js:492-559 | one round takes up the template exactly from where the last one stopped to the end of its tag, and makes progress |
| MustacheLexer.LexTiles | src/scf-release/src/acceptance-tests-brain/test-resources/node-env/lib/mustache.js:492-559 | the tokens before stripping lie end to end over the whole template, and each text token is the character at its position |
| MustacheParse.ScanInside | src/scf-release/src/acceptance-tests-brain/test-resources/node-env/lib/mustache.js:528-541 | the value of a tag, for the three kinds of tag that end differently |
| MustacheParse.ScanTag | src/scf-release/src/acceptance-tests-brain/test-resources/node-env/lib/mustache.js:522-548 | one tag with type, value, positions and the `unclosed tag` error as the lexer's specification says; the scanner ends behind it. What that is for each kind of tag, in literal characters, is MarkMeans, NameMeans, BraceMeans, SetMeans and NotClosedMeans |
| MustacheParse.PushText | src/scf-release/src/acceptance-tests-brain/test-resources/node-env/lib/mustache.js:496-513 | the text before a tag enters the buffer character by character |
| MustacheText.CloseFound | src/scf-release/src/acceptance-tests-brain/test-resources/node-env/lib/mustache.js:107-126 | where a closing delimiter is found does not depend on what follows it |
| MustacheText.TagMore | src/scf-release/src/acceptance-tests-brain/test-resources/node-env/lib/mustache.js:516-548 | a tag that is read is read the same with any text behind the template |
| MustacheText.LexConcat | src/scf-release/src/acceptance-tests-brain/test-resources/node-env/lib/mustache.js:464-559 | the tokens of one text followed by another are its own and then those of the other, read with the delimiters in force by then, unless a tag reaches across |
| MustachePrint.EndFound | src/scf-release/src/acceptance-tests-brain/test-resources/node-env/lib/mustache.js:528-541 | the end of a tag is found behind the name and the white space that follows it |
| MustachePrint.WrittenTag | src/scf-release/src/acceptance-tests-brain/test-resources/node-env/lib/mustache.js:516-548 | a tag written as delimiter, character, name and end, with white space in all places where it is allowed, is read as the tag it is and to its last character |
| MustachePrint.WrittenLex | src/scf-release/src/acceptance-tests-brain/test-resources/node-env/lib/mustache.js:464-559 | lexing it gives one token, of its kind, with its name and its extent, and leaves the delimiters it sets in force |
| MustachePrint.MarkMeans | src/scf-release/src/acceptance-tests-brain/test-resources/node-env/lib/mustache.js:523-548 | `#` makes a section, `^` an inverted one, `/` closes, `>` is a partial, `&` is not escaped, `!` is a comment: for every pair of delimiters and every name with no white space at its ends in which the end does not begin |
| MustachePrint.NameMeans | src/scf-release/src/acceptance-tests-brain/test-resources/node-env/lib/mustache.js:523-548 | without such a character the tag is the name of a value |
| MustachePrint.BraceMeans | src/scf-release/src/acceptance-tests-brain/test-resources/node-env/lib/mustache.js:533-538 | three braces, closed by three, are a value that is not escaped |
| MustachePrint.SetMeans | src/scf-release/src/acceptance-tests-brain/test-resources/node-env/lib/mustache.js:529-558 | `=x y=` sets the delimiters, and all that follows is lexed with x and y |
| MustachePrint.TwoWords | src/scf-release/src/acceptance-tests-brain/test-resources/node-env/lib/mustache.js:555-557 | two words with white space between them are two delimiters |
| MustachePrint.NotClosedMeans | src/scf-release/src/acceptance-tests-brain/test-resources/node-env/lib/mustache.js:543-546 | a tag without its end is an error that names the position of the end of the template |
| MustachePrint.BadDelimiters | src/scf-release/src/acceptance-tests-brain/test-resources/node-env/lib/mustache.js:447-450 | one delimiter or three are an error that names them |
| MustachePrint.PrintLex | src/scf-release/src/acceptance-tests-brain/test-resources/node-env/lib/mustache.js:464-559 | round trip: any list of texts and tags that can be written, also with delimiters changing on the way, lexes to exactly those characters and tags, each with its kind, name and extent |
| MustacheParse.TokenBuffer.constructor | src/scf-release/src/acceptance-tests-brain/test-resources/node-env/lib/mustache.js:470-473 | an empty buffer is in step with the empty line |
| MustacheParse.TokenBuffer.StripSpace | src/scf-release/src/acceptance-tests-brain/test-resources/node-env/lib/mustache.js:477-488 | popping positions off `spaces` and splicing the shared array removes exactly the blanks of the current line, and only if the line has a tag and nothing solid |
| MustacheParse.TokenBuffer.PushChar | src/scf-release/src/acceptance-tests-brain/test-resources/node-env/lib/mustache.js:498-511 | one character: recorded as blank or as solid, and a newline ends the line by stripping it |
| MustacheParse.TokenBuffer.PushTag | src/scf-release/src/acceptance-tests-brain/test-resources/node-env/lib/mustache.js:548-552 | one tag: sets the flags of the current line by its kind |
| MustacheParse.SpliceBlank | src/scf-release/src/acceptance-tests-brain/test-resources/node-env/lib/mustache.js:479-481 | splicing at the last recorded position removes the last blank of the line and leaves earlier recorded positions valid |
| MustacheParse.ParseTokens | src/scf-release/src/acceptance-tests-brain/test-resources/node-env/lib/mustache.js:464-559 | the scanning loop with its shared buffer yields the stripped token list of the specification, or its error; it terminates because each round shortens the tail |
| MustacheStrip.StripExactly | src/scf-release/src/acceptance-tests-brain/test-resources/node-env/lib/mustache.js:475-511 | a token is dropped exactly when it is white space on a finished line that holds only non-printing tags and partials; the last line without a newline loses nothing |
| MustacheStrip.StandaloneExactly | src/scf-release/src/acceptance-tests-brain/test-resources/node-env/lib/mustache.js:475-488 | a line stands for its tags alone exactly when it has one and holds, apart from white space, only sections, their ends, partials, comments and new delimiters |
| MustacheStrip.MergeKeeps | src/scf-release/src/acceptance-tests-brain/test-resources/node-env/lib/mustache.js:431-445 | joining two neighbouring text tokens keeps order, disjointness and that text is a slice of the template |
| MustacheStrip.MergeCovers | src/scf-release/src/acceptance-tests-brain/test-resources/node-env/lib/mustache.js:431-445 | joining covers the same positions as before |
| MustacheStrip.SquashKeeps | src/scf-release/src/acceptance-tests-brain/test-resources/node-env/lib/mustache.js:431-445 | squashing keeps all tags, the covered positions and the order, and leaves no two text tokens side by side |
| MustacheParse.SquashTokens | src/scf-release/src/acceptance-tests-brain/test-resources/node-env/lib/mustache.js:431-445 | the in-place loop with `lastToken` computes the specified squashing |
| MustacheParse.TemplateAccounted | src/scf-release/src/acceptance-tests-brain/test-resources/node-env/lib/mustache.js:464-564 | every template that scans: tokens are ordered and disjoint, text tokens equal their slice of the template, all tags survive, and a position is uncovered if and only if it was dropped as white space of a standalone line |
| MustacheNest.NestTokens | src/scf-release/src/acceptance-tests-brain/test-resources/node-env/lib/mustache.js:378-425 | the stack of collectors computes the specified nesting and the same errors |
| MustacheNest.RunCollects | src/scf-release/src/acceptance-tests-brain/test-resources/node-env/lib/mustache.js:378-425 | reading properly bracketed tokens appends their tree to whatever collector is open |
| MustacheNest.RunMatched | src/scf-release/src/acceptance-tests-brain/test-resources/node-env/lib/mustache.js:378-425 | whatever is accepted is properly bracketed: the bracketing is constructed |
| MustacheNest.NestExactly | src/scf-release/src/acceptance-tests-brain/test-resources/node-env/lib/mustache.js:378-425 | nesting succeeds if and only if the tokens flatten a properly bracketed text with matching names, and then yields its tree |
| MustacheNest.NestOf | src/scf-release/src/acceptance-tests-brain/test-resources/node-env/lib/mustache.js:378-425 | nesting undoes flattening, with closers put back |
| MustacheNest.NothingOpened | src/scf-release/src/acceptance-tests-brain/test-resources/node-env/lib/mustache.js:395-398 | a closing tag that nothing has opened is the error `Unopened section`, with its name |
| MustacheNest.NotClosed | src/scf-release/src/acceptance-tests-brain/test-resources/node-env/lib/mustache.js:400-422 | a section still open at the end, or met by a closing tag of another name, is the error `Unclosed section`, with the name of the innermost one open |
| MustacheNest.SectionBounds | src/scf-release/src/acceptance-tests-brain/test-resources/node-env/lib/mustache.js:308-319 | drilling into the last child returns the end of the opening tag and the end of the last token reached |
| MustacheNest.BoundsWithin | src/scf-release/src/acceptance-tests-brain/test-resources/node-env/lib/mustache.js:308-319 | the bounds lie between the end of the opening tag and the start of the closing tag, and reach the end of the body exactly when its last item is not a nested section |
| MustacheTemplate.Parse | src/scf-release/src/acceptance-tests-brain/test-resources/node-env/lib/mustache.js:464-564 | scan, strip, squash and nest one after the other |
| MustacheTemplate.ParsedSections | src/scf-release/src/acceptance-tests-brain/test-resources/node-env/lib/mustache.js:308-564 | for every template that parses, the tree comes from tags of that template and every section's bounds lie between its own tags, inside the template |
| MustacheTemplate.PlainTemplate | src/scf-release/src/acceptance-tests-brain/test-resources/node-env/lib/mustache.js:464-564 | a template without the opening delimiter is a single text token |
| MustacheEscape.DecodedEntity | src/scf-release/src/acceptance-tests-brain/test-resources/node-env/lib/mustache.js:55-68 | the entity of a character is recognised as that character's, whatever follows |
| MustacheEscape.EscapeTable | src/scf-release/src/acceptance-tests-brain/test-resources/node-env/lib/mustache.js:55-68 | the six characters and their entities, spelled out; every other character stands for itself |
| MustacheEscape.UnescapeEscape | src/scf-release/src/acceptance-tests-brain/test-resources/node-env/lib/mustache.js:64-68 | single-pass decoding of entities undoes escaping |
| MustacheEscape.EscapeInjective | src/scf-release/src/acceptance-tests-brain/test-resources/node-env/lib/mustache.js:64-68 | different texts have different escaped forms |
| MustacheEscape.EscapedClean | src/scf-release/src/acceptance-tests-brain/test-resources/node-env/lib/mustache.js:55-68 | escaped text holds none of the special characters except ampersands, and each of those begins one of the six entities |
| MustacheContext.DrillDown | src/scf-release/src/acceptance-tests-brain/test-resources/node-env/lib/mustache.js:157-163 | the loop along a dotted name stops at the first falsy value |
| MustacheContext.Context.Search | src/scf-release/src/acceptance-tests-brain/test-resources/node-env/lib/mustache.js:153-173 | the loop up the parents finds the nearest enclosing view whose value is not null |
| MustacheContext.Context.Lookup | src/scf-release/src/acceptance-tests-brain/test-resources/node-env/lib/mustache.js:146-184 | the cached lookup always answers what an uncached one would, and keeps the cache truthful |
| MustacheContext.FalsyExactly | src/scf-release/src/acceptance-tests-brain/test-resources/node-env/lib/mustache.js:161-163 | undefined, null, false, 0, NaN and the empty string count as false, and nothing else |
| MustacheContext.FindNearest | src/scf-release/src/acceptance-tests-brain/test-resources/node-env/lib/mustache.js:146-184 | a name without dots has the value of the nearest enclosing object that has one, even if that value counts as false |
| MustacheContext.FindNothing | src/scf-release/src/acceptance-tests-brain/test-resources/node-env/lib/mustache.js:146-184 | and is undefined or null if none has |
| MustacheContext.FindSelf | src/scf-release/src/acceptance-tests-brain/test-resources/node-env/lib/mustache.js:150-151 | the name `.` is the view itself |
| MustacheContext.SplitDotsExactly | src/scf-release/src/acceptance-tests-brain/test-resources/node-env/lib/mustache.js:156-157 | a dotted name falls apart at its dots and nowhere else |
| MustacheContext.DrillExactly | src/scf-release/src/acceptance-tests-brain/test-resources/node-env/lib/mustache.js:159-163 | going down takes one name after another and stops at the first value that counts as false |
| MustacheContext.FindDotted | src/scf-release/src/acceptance-tests-brain/test-resources/node-env/lib/mustache.js:155-172 | a dotted name is looked for from the view, and from the enclosing one only if that ends in undefined or null |
| MustacheContext.MemberExactly | src/scf-release/src/acceptance-tests-brain/test-resources/node-env/lib/mustache.js:162-165 | arrays and strings have a length, and their items by number |
| MustacheContext.ArrayText | src/scf-release/src/acceptance-tests-brain/test-resources/node-env/lib/mustache.js:289-297 | an array as text is its items with commas between them, nothing for undefined or null |
| MustacheRender.Renderer.constructor | src/scf-release/src/acceptance-tests-brain/test-resources/node-env/lib/mustache.js:325-327 | a compiled token list starts with nothing memoised |
| MustacheRender.Writer.constructor | src/scf-release/src/acceptance-tests-brain/test-resources/node-env/lib/mustache.js:186-188 | an empty writer satisfies the invariant |
| MustacheRender.Writer.SubRender | src/scf-release/src/acceptance-tests-brain/test-resources/node-env/lib/mustache.js:328-337 | the memoised sub-renderer is the renderer for the children of that very token |
| MustacheRender.Writer.Push | src/scf-release/src/acceptance-tests-brain/test-resources/node-env/lib/mustache.js:142-144 | a pushed context sees the new view first |
| MustacheRender.Writer.Render | src/scf-release/src/acceptance-tests-brain/test-resources/node-env/lib/mustache.js:339-370 | the compiled renderer, with its memo and lookup caches, returns what the direct interpreter returns, for every tree and view |
| MustacheRender.Writer.RenderToken | src/scf-release/src/acceptance-tests-brain/test-resources/node-env/lib/mustache.js:346-366 | each kind of token, including partials and inverted sections, renders as interpreted |
| MustacheRender.Writer.RenderSection | src/scf-release/src/acceptance-tests-brain/test-resources/node-env/lib/mustache.js:235-265 | arrays, objects, truthy and falsy values as interpreted |
| MustacheRender.Writer.RenderItems | src/scf-release/src/acceptance-tests-brain/test-resources/node-env/lib/mustache.js:240-247 | once per item, each in a context of its own, concatenated in order |
| MustacheRender.Writer.ClearCache | src/scf-release/src/acceptance-tests-brain/test-resources/node-env/lib/mustache.js:190-193 | both caches are emptied; renderers already handed out stay valid |
| MustacheRender.Writer.CompileTokens | src/scf-release/src/acceptance-tests-brain/test-resources/node-env/lib/mustache.js:212-216 | a new function for these tokens joins the writer, with nothing memoised and the caches untouched |
| MustacheRender.Writer.Compile | src/scf-release/src/acceptance-tests-brain/test-resources/node-env/lib/mustache.js:195-204 | the cached renderer is returned if there is one, compiled from this template with the tags of that first time; what is cached afterwards is stated exactly, also when the template does not parse |
| MustacheRender.Writer.CompilePartial | src/scf-release/src/acceptance-tests-brain/test-resources/node-env/lib/mustache.js:206-210 | the same, and the partial is registered under its name exactly if it parsed |
| MustacheRender.Writer.Call | src/scf-release/src/acceptance-tests-brain/test-resources/node-env/lib/mustache.js:216-228 | a compiled function registers the partials of the call, stopping at the first that does not parse, and renders; the string and all that is cached afterwards are stated exactly |
| MustacheRender.Writer.RenderTemplate | src/scf-release/src/acceptance-tests-brain/test-resources/node-env/lib/mustache.js:212-233 | a whole render call gives the specified string and leaves exactly the specified caches |
| MustacheCache.CacheInvisible | src/scf-release/src/acceptance-tests-brain/test-resources/node-env/lib/mustache.js:190-233 | over any run of compile, compilePartial, compiled functions, render and clearCache in which each template keeps to its own tags, every outcome and the registered partials are those of a writer that caches no templates |
| MustacheCache.DefaultTags | src/scf-release/src/acceptance-tests-brain/test-resources/node-env/lib/mustache.js:190-233 | so from a new writer the cache never shows, as long as nobody asks for tags other than the default ones |
| MustacheCache.TagsMatter | src/scf-release/src/acceptance-tests-brain/test-resources/node-env/lib/mustache.js:195-200 | two different pairs of delimiters have a template that compiles with the one and is an error with the other, constructed from the two pairs |
| MustacheCache.TwoCompiles | src/scf-release/src/acceptance-tests-brain/test-resources/node-env/lib/mustache.js:195-200 | compiled with the one pair first, the template gives the same function again for any other tags |
| MustacheCache.SwappableExactly | src/scf-release/src/acceptance-tests-brain/test-resources/node-env/lib/mustache.js:195-200 | two pairs of delimiters may be used for the same template, whichever it is, without the cache showing if and only if they are the same pair |
| MustacheCache.PartialsInvisible | src/scf-release/src/acceptance-tests-brain/test-resources/node-env/lib/mustache.js:216-225 | the partials that come with a call end up the same, and the same one fails to parse, whatever is cached |
| MustacheCache.PlainRenders | src/scf-release/src/acceptance-tests-brain/test-resources/node-env/lib/mustache.js:195-233 | a template without an opening delimiter renders to itself for every view and every cache if all partials of the call parse, and is an error otherwise |
| MustacheAlike.InterpConcat | src/scf-release/src/acceptance-tests-brain/test-resources/node-env/lib/mustache.js:339-370 | token trees one after the other give what they give, one after the other |
| MustacheAlike.RunAlike | src/scf-release/src/acceptance-tests-brain/test-resources/node-env/lib/mustache.js:378-425 | tokens that differ in their positions only are nested into trees that render alike |
| MustacheAlike.SquashAlike | src/scf-release/src/acceptance-tests-brain/test-resources/node-env/lib/mustache.js:431-445 | joining neighbouring text tokens makes no difference to what is rendered |
| MustacheParts.LexShift | src/scf-release/src/acceptance-tests-brain/test-resources/node-env/lib/mustache.js:464-559 | where a template stands makes no difference to the kinds and values of its tokens |
| MustacheParts.StripConcat | src/scf-release/src/acceptance-tests-brain/test-resources/node-env/lib/mustache.js:475-511 | two token lists are stripped apart exactly when the line that runs from one into the other keeps or loses its white space as its two pieces do on their own: spelled out by whether that line and its pieces stand alone and hold a tag or white space |
| MustacheParts.ParsedAlike | src/scf-release/src/acceptance-tests-brain/test-resources/node-env/lib/mustache.js:464-564 | a parsed template renders as the tree of its stripped tokens, joined or not |
| MustacheParts.TailEnds | src/scf-release/src/acceptance-tests-brain/test-resources/node-env/lib/mustache.js:464-559 | the text behind the last tag is the end of the template, and is there if the template ends with white space |
| MustacheLaws.RenderedShown | src/scf-release/src/acceptance-tests-brain/test-resources/node-env/lib/mustache.js:212-233 | rendering with a writer gives what the template shows in the stack of that one view |
| MustacheLaws.NameShown | src/scf-release/src/acceptance-tests-brain/test-resources/node-env/lib/mustache.js:289-301 | `{{name}}` shows an r from which decoding gives back the text of the value (nothing for undefined and null), with none of the special characters but ampersands that begin an entity |
| MustacheLaws.RawShown | src/scf-release/src/acceptance-tests-brain/test-resources/node-env/lib/mustache.js:289-297 | `{{&name}}` and `{{{name}}}` show the text of the value itself |
| MustacheLaws.PartialShown | src/scf-release/src/acceptance-tests-brain/test-resources/node-env/lib/mustache.js:279-287 | `{{>name}}` shows what the partial's template shows in the same views, and nothing if it is not there; a comment shows nothing |
| MustacheLaws.ConcatShown | src/scf-release/src/acceptance-tests-brain/test-resources/node-env/lib/mustache.js:339-370 | one template followed by another shows what they show, one after the other, and the first failure is the failure, if the line across the border is stripped as its pieces are |
| MustacheLaws.LinesOf | src/scf-release/src/acceptance-tests-brain/test-resources/node-env/lib/mustache.js:475-511 | as it is when the first ends with its line or no line ends in the second |
| MustacheLaws.LinesMatter | src/scf-release/src/acceptance-tests-brain/test-resources/node-env/lib/mustache.js:475-511 | the condition is needed: white space and a comment, then a newline, show two characters apart and nothing together |
| MustacheLaws.SectionShown | src/scf-release/src/acceptance-tests-brain/test-resources/node-env/lib/mustache.js:235-265 | a section written out shows its body once per item of an array, in order, each item in front of the views; once inside an object; once where it stands for any other value that does not count as false; and not at all for one that does, or an empty array |
| MustacheLaws.InvertedShown | src/scf-release/src/acceptance-tests-brain/test-resources/node-env/lib/mustache.js:267-277 | its inverted twin shows the body exactly for undefined, null, false, 0, NaN, the empty string and the empty array, and is empty otherwise |
| MustacheLaws.TextRendered | src/scf-release/src/acceptance-tests-brain/test-resources/node-env/lib/mustache.js:212-233 | rendering `{{name}}` with a string under the name gives its escaped form, which decodes to the string |
| MustacheLaws.RawRendered | src/scf-release/src/acceptance-tests-brain/test-resources/node-env/lib/mustache.js:212-233 | rendering `{{{name}}}` or `{{&name}}` gives the string itself |
| MustacheLaws.PartialRendered | src/scf-release/src/acceptance-tests-brain/test-resources/node-env/lib/mustache.js:216-233 | a partial that comes with the call renders as its template does with the same view |
| MustacheLaws.ClearedRenders | src/scf-release/src/acceptance-tests-brain/test-resources/node-env/lib/mustache.js:190-193 | after clearing, no partial of before renders |
| CallbackQueue.Batch | src/scf-release/src/acceptance-tests-brain/test-resources/node-env/javascripts/jquery.js:973-978 | a batch consumes the script, never more than there is |
| Callbacks.Callbacks.constructor | src/scf-release/src/acceptance-tests-brain/test-resources/node-env/javascripts/jquery.js:949-964 | a new list is empty, not fired, and has a stack of requests unless it is a once list |
| Callbacks.Callbacks.AddFunction | src/scf-release/src/acceptance-tests-brain/test-resources/node-env/javascripts/jquery.js:1001-1004 | a function joins the end of the list unless the list is unique and has it |
| Callbacks.Callbacks.AddArgs | src/scf-release/src/acceptance-tests-brain/test-resources/node-env/javascripts/jquery.js:999-1009 | nested collections are added depth first, in order |
| Callbacks.Callbacks.Add | src/scf-release/src/acceptance-tests-brain/test-resources/node-env/javascripts/jquery.js:995-1022 | while firing the newcomers join the current batch; with a memory they are called at once, and only they |
| Callbacks.Callbacks.SpliceOut | src/scf-release/src/acceptance-tests-brain/test-resources/node-env/javascripts/jquery.js:1028-1037 | one entry goes, and the length and the cursor of a list being fired are put right |
| Callbacks.Callbacks.CallNext | src/scf-release/src/acceptance-tests-brain/test-resources/node-env/javascripts/jquery.js:973-978 | one round of the loop is one turn of the queue |
| Callbacks.Callbacks.RemoveFunction | src/scf-release/src/acceptance-tests-brain/test-resources/node-env/javascripts/jquery.js:1027-1039 | every occurrence is spliced out and both firing indices are repaired so that the cursor still separates those that had their turn |
| Callbacks.Callbacks.Remove | src/scf-release/src/acceptance-tests-brain/test-resources/node-env/javascripts/jquery.js:1024-1043 | the same for all arguments |
| Callbacks.NextIndex | src/scf-release/src/acceptance-tests-brain/test-resources/node-env/javascripts/jquery.js:1028-1028 | the first index from the given one on that holds the function |
| Callbacks.SpliceAt | src/scf-release/src/acceptance-tests-brain/test-resources/node-env/javascripts/jquery.js:1027-1038 | splicing out one entry moves the cursor exactly when the entry lay before it |
| Callbacks.Callbacks.Disable | src/scf-release/src/acceptance-tests-brain/test-resources/node-env/javascripts/jquery.js:1054-1057 | the list, its requests and its memory are gone |
| Callbacks.Callbacks.Lock | src/scf-release/src/acceptance-tests-brain/test-resources/node-env/javascripts/jquery.js:1063-1069 | no further requests; without a memory the list is disabled |
| Callbacks.Callbacks.FireWith | src/scf-release/src/acceptance-tests-brain/test-resources/node-env/javascripts/jquery.js:1075-1086 | while firing the call is only remembered, otherwise the list is fired if it may be |
| Callbacks.Callbacks.DoOp | src/scf-release/src/acceptance-tests-brain/test-resources/node-env/javascripts/jquery.js:995-1091 | each operation a callback performs on its own list acts on the queue of those waiting as specified |
| Callbacks.Callbacks.Call | src/scf-release/src/acceptance-tests-brain/test-resources/node-env/javascripts/jquery.js:974-977 | one turn: the callback performs its script on the same list while the firing flag is set |
| Callbacks.Callbacks.RunList | src/scf-release/src/acceptance-tests-brain/test-resources/node-env/javascripts/jquery.js:973-978 | the index loop over a list that is being changed under it runs exactly the specified batch |
| Callbacks.Callbacks.FireList | src/scf-release/src/acceptance-tests-brain/test-resources/node-env/javascripts/jquery.js:966-991 | the recursion through the stack of requests is the specified sequence of batches; it is never entered while firing |
| Callbacks.Callbacks.FinishFiring | src/scf-release/src/acceptance-tests-brain/test-resources/node-env/javascripts/jquery.js:979-990 | after the loop: the next request, an emptied list with memory, or disabling |
| CallbackFacts.BatchAccounted | src/scf-release/src/acceptance-tests-brain/test-resources/node-env/javascripts/jquery.js:973-978 | every entry present or added is, at any time, in exactly one of: called, removed, still waiting, in list order |
| CallbackFacts.BatchExactlyOnce | src/scf-release/src/acceptance-tests-brain/test-resources/node-env/javascripts/jquery.js:973-978 | in a batch each callback present or added, and not removed before its turn, runs exactly once, in list order, with the data of the batch; whoever runs was present or added, and not removed |
| CallbackFacts.FiringExactlyOnce | src/scf-release/src/acceptance-tests-brain/test-resources/node-env/javascripts/jquery.js:966-991 | so it is in every batch of a whole firing, including those for requests made meanwhile; each of these finds the list as the one before left it, with everybody waiting again |
| CallbackFacts.FireWithOnce | src/scf-release/src/acceptance-tests-brain/test-resources/node-env/javascripts/jquery.js:1075-1086 | the same for fireWith on any list that is not being fired, where the first batch has the whole list waiting |
| CallbackFacts.AddOnce | src/scf-release/src/acceptance-tests-brain/test-resources/node-env/javascripts/jquery.js:1016-1019 | the same for add with a memory, where the first batch is for the newcomers only |
| Callbacks.Callbacks.QueueInOrder | src/scf-release/src/acceptance-tests-brain/test-resources/node-env/javascripts/jquery.js:949-1091 | what the exactly-once theorems ask of a list holds whenever the class is valid, during a firing too: the list is in the order in which its callbacks were added |
| CallbackOrder.BatchOrder | src/scf-release/src/acceptance-tests-brain/test-resources/node-env/javascripts/jquery.js:973-978 | a batch keeps that order, whatever the callbacks add and remove |
| CallbackOrder.WithoutAscending | src/scf-release/src/acceptance-tests-brain/test-resources/node-env/javascripts/jquery.js:1027-1028 | removing all occurrences of a function keeps it |
| CallbackFacts.BatchFinishes | src/scf-release/src/acceptance-tests-brain/test-resources/node-env/javascripts/jquery.js:973-978 | unless a callback may stop it, nobody is left waiting |
| CallbackFacts.FirstComeFirstServed | src/scf-release/src/acceptance-tests-brain/test-resources/node-env/javascripts/jquery.js:979-990 | firings requested meanwhile run afterwards, in the order of the requests, none nested or skipped unless the list is locked or disabled |
| CallbackFacts.RequestsInTurn | src/scf-release/src/acceptance-tests-brain/test-resources/node-env/javascripts/jquery.js:980-984 | the same for the requests left after one batch |
| CallbackMemory.FiringRemembers | src/scf-release/src/acceptance-tests-brain/test-resources/node-env/javascripts/jquery.js:966-991 | after every firing: without the memory option nothing is remembered; with it, the data of the batch that began last, unless a callback may have stopped it; a list that takes no requests and has no memory is dead |
| CallbackMemory.ForgetsExactly | src/scf-release/src/acceptance-tests-brain/test-resources/node-env/javascripts/jquery.js:966-991 | an idle `fireWith` on a list without the memory option leaves no memory, and a once list disabled |
| CallbackMemory.NotCalled | src/scf-release/src/acceptance-tests-brain/test-resources/node-env/javascripts/jquery.js:1016-1019 | adding to an idle list that remembers nothing only adds: no firing begins and nobody has a turn |
| CallbackMemory.NewcomerCalled | src/scf-release/src/acceptance-tests-brain/test-resources/node-env/javascripts/jquery.js:1016-1019 | adding to a living idle list that remembers: a firing begins with the data of the batch that began last, and the newcomer has its first turn |
| CallbackMemory.AlwaysRemembers | src/scf-release/src/acceptance-tests-brain/test-resources/node-env/javascripts/jquery.js:952-1086 | in every run of add, remove, lock, disable and fireWith on a new list: what is remembered is as said, nothing without the memory option, and a once list without it is dead as soon as it has been fired |
| CallbackLaws.WithoutExactly | src/scf-release/src/acceptance-tests-brain/test-resources/node-env/javascripts/jquery.js:1024-1040 | removing a function takes all its entries and no others |
| CallbackLaws.AddsAll | src/scf-release/src/acceptance-tests-brain/test-resources/node-env/javascripts/jquery.js:995-1022 | without the unique option every function given joins the end of the list, in order |
| CallbackLaws.AddsMissing | src/scf-release/src/acceptance-tests-brain/test-resources/node-env/javascripts/jquery.js:995-1022 | with it, a list without duplicates stays without, and has those it had and those given |
| CallbackLaws.OperationsExactly | src/scf-release/src/acceptance-tests-brain/test-resources/node-env/javascripts/jquery.js:995-1086 | what a callback may do to the list that is calling it: those added wait behind all others, in order, those removed are gone, a request is remembered behind earlier ones, and disabling, or locking with nothing to remember, empties the list; a disabled list takes nothing |
| CallbackLaws.IdleExactly | src/scf-release/src/acceptance-tests-brain/test-resources/node-env/javascripts/jquery.js:995-1043 | the same on an idle list that remembers nothing: adding appends and calls nobody, removing takes all entries of the functions given and no others |
| CallbackLaws.StopsAtFalse | src/scf-release/src/acceptance-tests-brain/test-resources/node-env/javascripts/jquery.js:972-976 | a callback that returns false ends the batch if and only if the option asks for it; the list then forgets the data |
| CallbackLaws.DeadForever | src/scf-release/src/acceptance-tests-brain/test-resources/node-env/javascripts/jquery.js:1053-1061 | a disabled list stays so, and no call of it does anything |
| CallbackLaws.LockExactly | src/scf-release/src/acceptance-tests-brain/test-resources/node-env/javascripts/jquery.js:1053-1069 | disabling drops callbacks, requests and memory; locking drops the requests, and disables a list that remembers nothing |
| CallbackLaws.NoMoreFirings | src/scf-release/src/acceptance-tests-brain/test-resources/node-env/javascripts/jquery.js:1075-1086 | a list that has been fired and takes no more requests ignores further ones |
| CallbackLaws.OnceOnly | src/scf-release/src/acceptance-tests-brain/test-resources/node-env/javascripts/jquery.js:952-1086 | in every run of a once list, also with memory and whatever its callbacks do, no entry has two turns in all firings together |
| Deferred.InitialInv | src/scf-release/src/acceptance-tests-brain/test-resources/node-env/javascripts/jquery.js:1102-1175 | a new Deferred satisfies the invariant: its own three callbacks are first on each settling list |
| Deferred.StepInv | src/scf-release/src/acceptance-tests-brain/test-resources/node-env/javascripts/jquery.js:1102-1187 | adding, firing (also from inside callbacks), one turn and the end of a loop all keep the invariant |
| Deferred.RunInv | src/scf-release/src/acceptance-tests-brain/test-resources/node-env/javascripts/jquery.js:1102-1187 | the invariant holds after every sequence of actions |
| Deferred.StepKeeps | src/scf-release/src/acceptance-tests-brain/test-resources/node-env/javascripts/jquery.js:1162-1170 | one step never changes the state or the settling arguments once they are there |
| Deferred.SettledForGood | src/scf-release/src/acceptance-tests-brain/test-resources/node-env/javascripts/jquery.js:1102-1187 | in any run pending is left at most once; state and arguments then stay for good |
| Deferred.CallsInOrder | src/scf-release/src/acceptance-tests-brain/test-resources/node-env/javascripts/jquery.js:1102-1187 | the settled side's callbacks are called in order of addition, whether added before or after, each once and with the settling arguments; the other side's never; none is forgotten once nothing is being fired |
| Deferred.FirstWins | src/scf-release/src/acceptance-tests-brain/test-resources/node-env/javascripts/jquery.js:1162-1175 | the first resolve or reject settles it with these arguments before any user callback is called |
| Deferred.SettlingTick | src/scf-release/src/acceptance-tests-brain/test-resources/node-env/javascripts/jquery.js:1164-1169 | the three callbacks in front set the state, disable the other side and lock the progress list, in this order |
| Deferred.SettledIgnores | src/scf-release/src/acceptance-tests-brain/test-resources/node-env/javascripts/jquery.js:1164-1174 | after settling, resolving, rejecting and notifying change nothing at all |
| DeferredLanes.StepShown | src/scf-release/src/acceptance-tests-brain/test-resources/node-env/javascripts/jquery.js:1102-1187 | each step on one of the three lists is a step of the callback queue: an operation, the beginning of a firing, a turn, or the end of a batch |
| DeferredLanes.EndedIs | src/scf-release/src/acceptance-tests-brain/test-resources/node-env/javascripts/jquery.js:979-990 | that end of a batch is the one a whole firing is made of |
| DeferredLanes.RunShown | src/scf-release/src/acceptance-tests-brain/test-resources/node-env/javascripts/jquery.js:1102-1108 | in every run each list of a Deferred is what the callback queue makes of a list with these options |
| When.PromisedUnique | src/scf-release/src/acceptance-tests-brain/test-resources/node-env/javascripts/jquery.js:1190-1239 | what is promised for a history of settlements determines the master's state |
| When.ResolutionsBound | src/scf-release/src/acceptance-tests-brain/test-resources/node-env/javascripts/jquery.js:1196-1211 | as many resolutions as inputs means that every input has resolved |
| When.AfterDone | src/scf-release/src/acceptance-tests-brain/test-resources/node-env/javascripts/jquery.js:1202-1212 | one more resolution keeps the promise: resolve with all values in their slots exactly when the counter reaches zero |
| When.AfterFail | src/scf-release/src/acceptance-tests-brain/test-resources/node-env/javascripts/jquery.js:1225-1225 | one more rejection keeps it: the first rejection wins |
| When.NobodyLeft | src/scf-release/src/acceptance-tests-brain/test-resources/node-env/javascripts/jquery.js:1190-1239 | once the master has resolved no input can settle any more |
| When.SetUpKeeps | src/scf-release/src/acceptance-tests-brain/test-resources/node-env/javascripts/jquery.js:1216-1236 | the same during the set-up loop, where inputs already settled report at once and the master may still be pending although the counter is zero |
| When.SetUpDone | src/scf-release/src/acceptance-tests-brain/test-resources/node-env/javascripts/jquery.js:1234-1236 | after the loop the master is as promised once it has been resolved if nothing remains |
| When.ResolvedReports | src/scf-release/src/acceptance-tests-brain/test-resources/node-env/javascripts/jquery.js:1216-1231 | the inputs that have resolved by then are the plain ones and those that came resolved |
| When.When.constructor | src/scf-release/src/acceptance-tests-brain/test-resources/node-env/javascripts/jquery.js:1190-1239 | after set-up the master is as promised, for any mix of plain values, pending and settled inputs; exactly the plain and the settled inputs have reported, one by one in their order, each with the very value or arguments it has, and the progress values are those of the inputs that have notified |
| When.When.SetUp | src/scf-release/src/acceptance-tests-brain/test-resources/node-env/javascripts/jquery.js:1216-1231 | one turn of the loop: a plain value only counts down; a settled input reports at once, with its arguments; one that has notified leaves its progress value and notifies a pending master; nothing else is reported |
| When.When.OnDone | src/scf-release/src/acceptance-tests-brain/test-resources/node-env/javascripts/jquery.js:1204-1210 | keeps the promise, in which slot i holds the one argument input i was resolved with, nothing for none, the list for several, or a plain input itself; counts down and resolves at zero; a settled master stays |
| When.When.Update | src/scf-release/src/acceptance-tests-brain/test-resources/node-env/javascripts/jquery.js:1204-1210 | the counter is the number of inputs still outstanding |
| When.When.OnFail | src/scf-release/src/acceptance-tests-brain/test-resources/node-env/javascripts/jquery.js:1225-1225 | rejects the master unless it is settled |
| When.When.OnProgress | src/scf-release/src/acceptance-tests-brain/test-resources/node-env/javascripts/jquery.js:1204-1207 | stores the progress value and notifies a pending master, nothing else |
| WhenInputs.HistoryFair | src/scf-release/src/acceptance-tests-brain/test-resources/node-env/javascripts/jquery.js:1216-1225 | whatever is done to the inputs, interleaved in any way, the callbacks when adds to them hear of each input at most once |
| WhenInputs.NoSecondCall | src/scf-release/src/acceptance-tests-brain/test-resources/node-env/javascripts/jquery.js:1216-1225 | a callback added once to both lists of an input is never called again after its first call |
| DataCache.Apart | src/scf-release/src/acceptance-tests-brain/test-resources/node-env/javascripts/jquery.js:1631-1709 | no two live nodes share a number, no live number waits to be reused, none exceeds `uuid` |
| DataCache.Recycle | src/scf-release/src/acceptance-tests-brain/test-resources/node-env/javascripts/jquery.js:1564-1572 | handing out the last number given back keeps the numbering |
| DataCache.NewNumber | src/scf-release/src/acceptance-tests-brain/test-resources/node-env/javascripts/jquery.js:1564-1572 | counting up when no number waits keeps the numbering |
| DataCache.GiveBack | src/scf-release/src/acceptance-tests-brain/test-resources/node-env/javascripts/jquery.js:6300-6318 | giving a number back keeps it: every number handed out is in use by one node or waits once |
| DataCache.Cache.constructor | src/scf-release/src/acceptance-tests-brain/test-resources/node-env/javascripts/jquery.js:1512-1517 | the empty cache is numbered |
| DataCache.Cache.Allocate | src/scf-release/src/acceptance-tests-brain/test-resources/node-env/javascripts/jquery.js:1564-1582 | a node gets an empty entry and no other node's entry changes |
| DataCache.Cache.Store | src/scf-release/src/acceptance-tests-brain/test-resources/node-env/javascripts/jquery.js:1594-1609 | writing through a node's number changes that node's entry only |
| DataCache.Cache.Data | src/scf-release/src/acceptance-tests-brain/test-resources/node-env/javascripts/jquery.js:1537-1629 | reading, writing and merging act on the entry of that node as specified and on nothing else |
| DataCache.SetThenGet | src/scf-release/src/acceptance-tests-brain/test-resources/node-env/javascripts/jquery.js:1607-1628 | a name answers with what was last stored under it; other names and the other store are untouched |
| DataCache.GetExactly | src/scf-release/src/acceptance-tests-brain/test-resources/node-env/javascripts/jquery.js:1612-1625 | asking gives what is under the name as it is, unless that is nothing or null, and then what is under its camelCase; it changes nothing |
| DataCache.WriteExactly | src/scf-release/src/acceptance-tests-brain/test-resources/node-env/javascripts/jquery.js:1584-1609 | storing puts the value under the camelCase name, and merging puts each value brought under its own name over what is there; all else stays |
| DataCache.Cache.RemoveData | src/scf-release/src/acceptance-tests-brain/test-resources/node-env/javascripts/jquery.js:1631-1709 | removal on the entry of that node as specified, including destroying an entry that became empty |
| DataCache.RemovedExactly | src/scf-release/src/acceptance-tests-brain/test-resources/node-env/javascripts/jquery.js:1650-1695 | removal deletes exactly the names it resolves to, and never leaves an empty entry behind |
| DataCache.RemovalNames | src/scf-release/src/acceptance-tests-brain/test-resources/node-env/javascripts/jquery.js:1654-1678 | a name that is there goes itself; else its camelCase, if that is there; else each of its words. Of a list exactly the names listed go |
| DataCache.Cache.CleanData | src/scf-release/src/acceptance-tests-brain/test-resources/node-env/javascripts/jquery.js:6271-6321 | the entry goes and its number is given back once, even when `event.remove` in the loop has already removed it through removeData and cleanData; the recursion terminates |
| DataCache.Cache.Destroy | src/scf-release/src/acceptance-tests-brain/test-resources/node-env/javascripts/jquery.js:6300-6318 | the entry, the expando and the ownership of the number go together |
| DataCache.Cache.EventRemove | src/scf-release/src/acceptance-tests-brain/test-resources/node-env/javascripts/jquery.js:2761-2830 | unbinding one type acts on the entry as specified, with the clean-up of an empty event table |
| DataCache.Unbind | src/scf-release/src/acceptance-tests-brain/test-resources/node-env/javascripts/jquery.js:2793-2809 | the splicing loop drops exactly the handlers bound for the type |
| DataCache.UnboundExactly | src/scf-release/src/acceptance-tests-brain/test-resources/node-env/javascripts/jquery.js:2793-2829 | handlers of other origin stay, and the bookkeeping goes exactly when no handler is left |
| ExtendTree.OverlayAt | src/scf-release/src/acceptance-tests-brain/test-resources/node-env/javascripts/jquery.js:321-347 | what one name of the result is: the source's value if it brings one, else the target's |
| ExtendTree.PutOver | src/scf-release/src/acceptance-tests-brain/test-resources/node-env/javascripts/jquery.js:321-347 | the result does not depend on the order in which names are visited |
| ExtendTree.RightBiased | src/scf-release/src/acceptance-tests-brain/test-resources/node-env/javascripts/jquery.js:321-347 | along any path: a value of the source wins, undefined does not count as one, what the source is silent about stays the target's, and nothing else appears |
| ExtendTree.NameExactly | src/scf-release/src/acceptance-tests-brain/test-resources/node-env/javascripts/jquery.js:321-347 | one name: undefined or the target itself changes nothing, any other value that is no object replaces, null included, and an object is merged into one of its kind or replaces all else |
| ExtendTree.Idempotent | src/scf-release/src/acceptance-tests-brain/test-resources/node-env/javascripts/jquery.js:317-349 | extending twice with the same source is extending once |
| ExtendHeap.DoFrame | src/scf-release/src/acceptance-tests-brain/test-resources/node-env/javascripts/jquery.js:328-345 | one name: only the target's part of the heap and new objects are written, and that part stays closed and apart from the sources, whatever the target looks like |
| ExtendHeap.PlayFrame | src/scf-release/src/acceptance-tests-brain/test-resources/node-env/javascripts/jquery.js:321-347 | the same for one source |
| ExtendHeap.PlayAllFrame | src/scf-release/src/acceptance-tests-brain/test-resources/node-env/javascripts/jquery.js:317-349 | the same for all sources |
| ExtendSharing.FindInside | src/scf-release/src/acceptance-tests-brain/test-resources/node-env/javascripts/jquery.js:317-349 | a closed part of the heap leads to no plain object or array outside it, so none of a source is linked in |
| ExtendFacts.PlayMerges | src/scf-release/src/acceptance-tests-brain/test-resources/node-env/javascripts/jquery.js:321-347 | where no object that is merged into is reached twice, the target has the merged shape, and other objects of its own are untouched |
| ExtendFacts.PlayOverlay | src/scf-release/src/acceptance-tests-brain/test-resources/node-env/javascripts/jquery.js:321-347 | that shape is the overlay of target and source, in whatever order the names come |
| ExtendFacts.AllOverlay | src/scf-release/src/acceptance-tests-brain/test-resources/node-env/javascripts/jquery.js:317-349 | the same for all sources from left to right |
| ExtendFacts.FullCovers | src/scf-release/src/acceptance-tests-brain/test-resources/node-env/javascripts/jquery.js:331-338 | a target with no sharing at all meets that condition for every source |
| ExtendFacts.CoversStay | src/scf-release/src/acceptance-tests-brain/test-resources/node-env/javascripts/jquery.js:317-349 | merging one source keeps the condition for the next |
| ExtendSharing.SpineMerges | src/scf-release/src/acceptance-tests-brain/test-resources/node-env/javascripts/jquery.js:331-345 | merging one value in along a path changes exactly one object of the target in exactly one name |
| ExtendSharing.SharedShows | src/scf-release/src/acceptance-tests-brain/test-resources/node-env/javascripts/jquery.js:331-345 | where two paths of the target lead to one object, a value merged in along the one shows along the other, where neither target nor source has it |
| ExtendSharing.NotOverlay | src/scf-release/src/acceptance-tests-brain/test-resources/node-env/javascripts/jquery.js:331-345 | merging such a source, of one value along one of two paths to the same plain object or array, does not give the overlay |
| ExtendSharing.TwoPaths | src/scf-release/src/acceptance-tests-brain/test-resources/node-env/javascripts/jquery.js:331-338 | a target in which a plain object or array is reached twice has two different paths to one |
| ExtendSharing.SharingBreaks | src/scf-release/src/acceptance-tests-brain/test-resources/node-env/javascripts/jquery.js:317-349 | for every target with such sharing a source is constructed, over objects apart from the target, that does not give the overlay |
| ExtendSharing.TreeGivesOverlay | src/scf-release/src/acceptance-tests-brain/test-resources/node-env/javascripts/jquery.js:317-349 | without sharing every source gives the overlay: what the target amounts to in the heap afterwards is exactly that tree |
| ExtendSharing.OverlayExactly | src/scf-release/src/acceptance-tests-brain/test-resources/node-env/javascripts/jquery.js:317-349 | for a target unfolded down to the last plain object or array, every source gives the overlay if and only if none of them is reached twice |
| Extend.Clone | src/scf-release/src/acceptance-tests-brain/test-resources/node-env/javascripts/jquery.js:331-338 | the object merged into is the one in place if it is of the same kind, else a new one |
| Extend.Attach | src/scf-release/src/acceptance-tests-brain/test-resources/node-env/javascripts/jquery.js:341-345 | assigning one property changes that object in that name |
| Extend.MergeCopy | src/scf-release/src/acceptance-tests-brain/test-resources/node-env/javascripts/jquery.js:331-341 | one copied object: merged into the one in place or into a new one, and put under its name |
| Extend.MergeName | src/scf-release/src/acceptance-tests-brain/test-resources/node-env/javascripts/jquery.js:321-347 | one turn of the loop, with all its branches |
| Extend.MergeStep | src/scf-release/src/acceptance-tests-brain/test-resources/node-env/javascripts/jquery.js:321-347 | the source is as it was, and the target's part of the heap is closed again |
| Extend.Merge | src/scf-release/src/acceptance-tests-brain/test-resources/node-env/javascripts/jquery.js:321-347 | the deep loop over the names of one source, for any target: the heap afterwards is exactly what the steps make of it, and nothing outside the target's part is written |
| Extend.MergeSource | src/scf-release/src/acceptance-tests-brain/test-resources/node-env/javascripts/jquery.js:317-349 | one source that is an object; all sources stay as they are |
| Extend.MergeAll | src/scf-release/src/acceptance-tests-brain/test-resources/node-env/javascripts/jquery.js:317-349 | all sources from left to right, for any target: every source keeps its contents, no plain object or array of a source is reachable from the result through plain objects and arrays, and where no object merged into is reached twice the result is the overlay of all sources |
| Extend.Assign | src/scf-release/src/acceptance-tests-brain/test-resources/node-env/javascripts/jquery.js:321-347 | the shallow loop; a target that is its own source is not changed |
| Extend.AssignAll | src/scf-release/src/acceptance-tests-brain/test-resources/node-env/javascripts/jquery.js:317-349 | all sources of a shallow copy, each read as it was before the call |
| Extend.Prepare | src/scf-release/src/acceptance-tests-brain/test-resources/node-env/javascripts/jquery.js:292-315 | which argument is the flag, the target and the sources, and when a new object or jQuery itself is the target |
| Extend.ArgumentsMean | src/scf-release/src/acceptance-tests-brain/test-resources/node-env/javascripts/jquery.js:292-315 | a flag may stand in front; then come the target, replaced by a new object unless it is one, and the sources |
| Extend.AloneMeans | src/scf-release/src/acceptance-tests-brain/test-resources/node-env/javascripts/jquery.js:292-315 | with one object only, jQuery itself is the target and the object the source |
| Extend.LastWins | src/scf-release/src/acceptance-tests-brain/test-resources/node-env/javascripts/jquery.js:317-349 | extending shallowly, each name has the value of the last source with one that is not undefined or the target, else the target's own |
| Extend.Extend | src/scf-release/src/acceptance-tests-brain/test-resources/node-env/javascripts/jquery.js:291-353 | the whole function, shallow and deep |
| Extend.SharedOnce | src/scf-release/src/acceptance-tests-brain/test-resources/node-env/javascripts/jquery.js:291-353 | the smallest failing call: one object under two names of the target, a source for one of them; what the target amounts to before and after, and the overlay it should have become |
| AjaxConvert.SecondFound | src/scf-release/src/acceptance-tests-brain/test-resources/node-env/javascripts/jquery.js:7958-7982 | the search finds a pair if and only if there is one |
| AjaxConvert.WayExactly | src/scf-release/src/acceptance-tests-brain/test-resources/node-env/javascripts/jquery.js:7954-7983 | no way is found exactly when neither a direct converter nor a pair is registered; every way consists of registered converters, with `true` as identity |
| AjaxConvert.Halves | src/scf-release/src/acceptance-tests-brain/test-resources/node-env/javascripts/jquery.js:7973-7977 | an inserted type is reached by one converter and left by one, so it is never expanded again |
| AjaxConvert.ExpandedBound | src/scf-release/src/acceptance-tests-brain/test-resources/node-env/javascripts/jquery.js:7973-7977 | at most one type is inserted for each original one |
| AjaxConvert.ExpandedSame | src/scf-release/src/acceptance-tests-brain/test-resources/node-env/javascripts/jquery.js:7946-8006 | converting along the expanded list gives the same outcome as converting along the original one |
| AjaxConvert.HopsOneByOne | src/scf-release/src/acceptance-tests-brain/test-resources/node-env/javascripts/jquery.js:7954-7983 | along the expanded list every step that is possible at all takes a single registered converter, and each starts from the type where the one before ended |
| AjaxConvert.SuccessExactly | src/scf-release/src/acceptance-tests-brain/test-resources/node-env/javascripts/jquery.js:7946-8006 | a conversion succeeds exactly when those converters, one after the other and with `true` as identity, all succeed, and then gives what they make of the response |
| AjaxConvert.DirectTaken | src/scf-release/src/acceptance-tests-brain/test-resources/node-env/javascripts/jquery.js:7954-7958 | the converter for exactly these two types is taken before the one from any type, and the conversion is impossible exactly when there is neither of them and no pair |
| AjaxConvert.PairTaken | src/scf-release/src/acceptance-tests-brain/test-resources/node-env/javascripts/jquery.js:7959-7982 | without a direct one, the first converter to the type whose input can be had, in the order of the loop: the converter to its input is applied first, then it |
| AjaxConvert.NothingToDo | src/scf-release/src/acceptance-tests-brain/test-resources/node-env/javascripts/jquery.js:7946-7952 | `*`, the type at hand, and any type after `*` need no conversion; the list ends at an empty type |
| AjaxConvert.OneAfterAnother | src/scf-release/src/acceptance-tests-brain/test-resources/node-env/javascripts/jquery.js:7985-8006 | otherwise the list is converted one type after another, and the first failure is the outcome |
| AjaxConvert.FindPair | src/scf-release/src/acceptance-tests-brain/test-resources/node-env/javascripts/jquery.js:7959-7982 | the for-in loop returns the first suitable pair |
| AjaxConvert.Seek | src/scf-release/src/acceptance-tests-brain/test-resources/node-env/javascripts/jquery.js:7954-7983 | direct converter, condensed equivalence or intermediate type, as specified |
| AjaxConvert.Splice | src/scf-release/src/acceptance-tests-brain/test-resources/node-env/javascripts/jquery.js:7973-7977 | inserting in front of the current type and stepping back leaves the same conversion to do |
| AjaxConvert.Turn | src/scf-release/src/acceptance-tests-brain/test-resources/node-env/javascripts/jquery.js:7952-7999 | one conversion either fails with the specified outcome or brings the scan nearer to its end |
| AjaxConvert.AjaxConvert | src/scf-release/src/acceptance-tests-brain/test-resources/node-env/javascripts/jquery.js:7924-8007 | the scan over the list it inserts into terminates with the outcome of converting type after type, and with the expanded list |
| EventHandlers.Parts | src/scf-release/src/acceptance-tests-brain/test-resources/node-env/javascripts/jquery.js:2743-2748 | the first `delegateCount` entries are the delegated handlers and the rest the direct ones, each in order of binding |
| EventHandlers.AddArranged | src/scf-release/src/acceptance-tests-brain/test-resources/node-env/javascripts/jquery.js:2743-2748 | inserting at `delegateCount` or pushing keeps that arrangement |
| EventHandlers.RemoveArranged | src/scf-release/src/acceptance-tests-brain/test-resources/node-env/javascripts/jquery.js:2793-2809 | removing matching handlers keeps it |
| EventHandlers.RemoveMatching | src/scf-release/src/acceptance-tests-brain/test-resources/node-env/javascripts/jquery.js:2793-2809 | the splicing loop keeps exactly the handlers that do not match and counts `delegateCount` down with them |
| EventHandlers.Events.constructor | src/scf-release/src/acceptance-tests-brain/test-resources/node-env/javascripts/jquery.js:2671-2674 | no handlers |
| EventHandlers.Events.AddType | src/scf-release/src/acceptance-tests-brain/test-resources/node-env/javascripts/jquery.js:2717-2748 | one type: the list is created if need be and the handler joins its part |
| EventHandlers.Events.Add | src/scf-release/src/acceptance-tests-brain/test-resources/node-env/javascripts/jquery.js:2690-2752 | all types of the call |
| EventHandlers.Events.RemoveType | src/scf-release/src/acceptance-tests-brain/test-resources/node-env/javascripts/jquery.js:2786-2819 | one type; a list that became empty goes |
| EventHandlers.Events.RemoveEverywhere | src/scf-release/src/acceptance-tests-brain/test-resources/node-env/javascripts/jquery.js:2778-2784 | without a type, every bound type is gone through although types vanish on the way |
| EventHandlers.Events.Remove | src/scf-release/src/acceptance-tests-brain/test-resources/node-env/javascripts/jquery.js:2772-2820 | any list of types: what remains bound, per type and in order, is as specified |
| EventLaws.UnbindExactly | src/scf-release/src/acceptance-tests-brain/test-resources/node-env/javascripts/jquery.js:2772-2820 | unbinding a type drops exactly the handlers under its key that it means: of the type, unless that is a mapped one; with the function, if one is given; with all the namespaces given; and with the selector, where `**` stands for any. Without a type, so under the keys of all types bound |
| EventLaws.BindExactly | src/scf-release/src/acceptance-tests-brain/test-resources/node-env/javascripts/jquery.js:2717-2748 | binding puts one handler with all that was asked for at the end of the list of its key, and leaves all other lists |
| EventHandlers.MatchesAt | src/scf-release/src/acceptance-tests-brain/test-resources/node-env/javascripts/jquery.js:3019-3031 | a selector is tried once per node, and the matching delegated handlers are found in order of binding |
| EventHandlers.DelegateQueue | src/scf-release/src/acceptance-tests-brain/test-resources/node-env/javascripts/jquery.js:3015-3036 | from the target upwards to the handling element, which is not included |
| EventHandlers.HandlerQueue | src/scf-release/src/acceptance-tests-brain/test-resources/node-env/javascripts/jquery.js:3011-3042 | the queue is: delegated handlers from the target upwards, then all direct handlers once, each in order of binding |
| EventHandlers.Dispatch | src/scf-release/src/acceptance-tests-brain/test-resources/node-env/javascripts/jquery.js:2991-3042 | what is queued is determined by what was bound and unbound before, in order of binding, and by the way from the target up |
| EventHandlers.SelectedDelegates | src/scf-release/src/acceptance-tests-brain/test-resources/node-env/javascripts/jquery.js:3021-3031 | looking at the delegated part only misses no handler with a selector |
| EventHandlers.RunMatches | src/scf-release/src/acceptance-tests-brain/test-resources/node-env/javascripts/jquery.js:3049-3070 | the calls on one element, until propagation is stopped immediately |
| EventHandlers.RunQueue | src/scf-release/src/acceptance-tests-brain/test-resources/node-env/javascripts/jquery.js:3044-3071 | the calls over the whole queue, with the handlers the event's namespaces allow, until propagation is stopped |
| EventHandlers.RanHereExactly | src/scf-release/src/acceptance-tests-brain/test-resources/node-env/javascripts/jquery.js:3049-3070 | on one element the calls are a prefix of those due; they are cut only behind a call that stops the event immediately, and no earlier one does |
| EventHandlers.RanExactly | src/scf-release/src/acceptance-tests-brain/test-resources/node-env/javascripts/jquery.js:3044-3071 | all calls due are made in the order of the queue, unless a handler stops the event, and then none before the last one made is left out |
| EventLaws.PathExactly | src/scf-release/src/acceptance-tests-brain/test-resources/node-env/javascripts/jquery.js:3015-3036 | the nodes an event passes below the handling element are those reached by following parent links from the target, nearest first, until the handling element |
| EventLaws.CallsExactly | src/scf-release/src/acceptance-tests-brain/test-resources/node-env/javascripts/jquery.js:3011-3071 | a handler is due on a node exactly when it is bound, the event's namespaces allow it, and it is direct and the node the handling element, or it selects a node passed that is not skipped |
| EventLaws.ServedUpwards | src/scf-release/src/acceptance-tests-brain/test-resources/node-env/javascripts/jquery.js:3011-3042 | nodes are served from the target upwards, the handling element last |
| EventLaws.NoneAfterStop | src/scf-release/src/acceptance-tests-brain/test-resources/node-env/javascripts/jquery.js:3044-3071 | nothing is called after a handler that stops the event immediately, and on no further element after one that stops it |
| EventLaws.ServedWhole | src/scf-release/src/acceptance-tests-brain/test-resources/node-env/javascripts/jquery.js:3044-3071 | if nothing stops the event immediately, every element reached is served to the end of its handlers, also the one on which it was stopped; all are served unless it was stopped |
| FxQueue.Queue.constructor | src/scf-release/src/acceptance-tests-brain/test-resources/node-env/javascripts/jquery.js:1853-1863 | nothing is stored before the first use |
| FxQueue.Queue.Dequeue | src/scf-release/src/acceptance-tests-brain/test-resources/node-env/javascripts/jquery.js:1867-1911 | shift, drop a sentinel, put one in front of an fx queue, start the function, and fire the empty hook exactly when there was none |
| FxQueue.Queue.Add | src/scf-release/src/acceptance-tests-brain/test-resources/node-env/javascripts/jquery.js:1930-1939 | push, and start at once if no sentinel is in front |
| FxQueue.TidyAdded | src/scf-release/src/acceptance-tests-brain/test-resources/node-env/javascripts/jquery.js:1930-1939 | adding keeps: one function running and the others waiting behind the sentinel, or nothing left at all |
| FxQueue.TidyNext | src/scf-release/src/acceptance-tests-brain/test-resources/node-env/javascripts/jquery.js:1867-1900 | so does the running function's call of next, and nobody but the last one started can call it |
| FxQueue.RunTidy | src/scf-release/src/acceptance-tests-brain/test-resources/node-env/javascripts/jquery.js:1848-1940 | in every run where each started function calls next at most once, functions start in FIFO order and at most one is unfinished |
| FxQueue.ManualOrder | src/scf-release/src/acceptance-tests-brain/test-resources/node-env/javascripts/jquery.js:1867-1939 | a queue other than fx: those started and those waiting are all that were added, in order |
| FxQueue.ManualNext | src/scf-release/src/acceptance-tests-brain/test-resources/node-env/javascripts/jquery.js:1867-1911 | each call of dequeue on it starts the one function that has waited longest, or fires the empty hook if none waits; adding starts nothing |
| FxQueue.SentinelInFront | src/scf-release/src/acceptance-tests-brain/test-resources/node-env/javascripts/jquery.js:1878-1890 | `inprogress` stands at the head and nowhere else |
| FxQueue.EmptiedExactly | src/scf-release/src/acceptance-tests-brain/test-resources/node-env/javascripts/jquery.js:1897-1909 | the empty hook fires exactly when the last function added finishes, and then nothing is left |
| FxQueue.NextTwice | src/scf-release/src/acceptance-tests-brain/test-resources/node-env/javascripts/jquery.js:1874-1895 | the assumption is needed: a function that calls next twice lets two others run at once |
| KubeOverrides.TableExactly | bin/kube_overrides.rb:20-24 | the table holds each path once, with the value given last |
| KubeOverrides.TablePaths | bin/kube_overrides.rb:20-24 | its paths are the paths given |
| KubeOverrides.TableOrder | bin/kube_overrides.rb:20-24 | and stand in the order in which they were first given |
| KubeOverrides.BuildTable | bin/kube_overrides.rb:20-24 | the loop over the arguments builds that table |
| KubeOverrides.SetGet | bin/kube_overrides.rb:55-75 | an override reads back |
| KubeOverrides.PlainValue | bin/kube_overrides.rb:72-74 | outside the environment what is assigned is the value itself |
| KubeOverrides.EnvEntry | bin/kube_overrides.rb:60-71 | in the environment the list ends with a table of exactly a name and a value, and no other entry has that name |
| KubeOverrides.PossibleExactly | bin/kube_overrides.rb:55-75 | an override fails exactly when something on its way is neither missing nor a table, or the list of the environment is not there |
| KubeOverrides.ErasedAll | bin/kube_overrides.rb:65-67 | erasing leaves no entry of the name |
| KubeOverrides.SetFrame | bin/kube_overrides.rb:55-75 | an override changes nothing at a path unrelated to its own |
| KubeOverrides.SetIndependent | bin/kube_overrides.rb:55-75 | an override does not make an unrelated one possible or impossible |
| KubeOverrides.AllFrame | bin/kube_overrides.rb:54-76 | the same for a whole table, whose own paths may be related to each other |
| KubeOverrides.AllPossible | bin/kube_overrides.rb:54-76 | a prefix-free table can be applied if and only if each of its overrides could be applied alone |
| KubeOverrides.ReadsBack | bin/kube_overrides.rb:54-76 | after a prefix-free table every path outside the environment reads back its value |
| KubeOverrides.SetEdits | bin/kube_overrides.rb:60-71 | an environment override edits the list it leads to and no other |
| KubeOverrides.AllEdits | bin/kube_overrides.rb:54-76 | a list of the environment ends up edited by exactly the overrides that lead to it, in order |
| KubeOverrides.EditExactly | bin/kube_overrides.rb:60-71 | an overridden name occurs exactly once, with its value, and entries that are not overridden keep their contents and order |
| KubeOverrides.EnvReadsBack | bin/kube_overrides.rb:54-76 | both together, for the container as a whole; paths below the environment need no fixed length |
| KubeOverrides.PrefixesClash | bin/kube_overrides.rb:55-75 | the assumption is needed: of two overrides where one path begins the other, one order fails and the other loses a value |
| KubeOverrides.Reject | bin/kube_overrides.rb:65-67 | erasing keeps exactly the entries of other names, in order |
| KubeOverrides.Descend | bin/kube_overrides.rb:55-59 | the loop down the path creates missing tables and fails on anything else |
| KubeOverrides.ApplyOne | bin/kube_overrides.rb:55-75 | one override of one container |
| KubeOverrides.ApplyTable | bin/kube_overrides.rb:54-76 | the whole table for one container; the first failure ends it |

## Left out

- Repository parts outside the three files above (deployment, packaging and test scripts, DOM, CSS, animation and network code, `helm`/`kubectl` calls) are not modelled: their effects lie outside any value the model could state something about.
- Sizzle's tokenizer, positional pseudo-classes, `:nth-child`, and nested `:has`/`:not` runs: the latter two overwrite the shared marks or counters (jquery.js:4291, 4763-4769). Filters are pure predicates of an element. The cache of compiled selectors by text is not modelled.
- The comparator's shortcut by `sourceIndex` (jquery.js:4564-4565) and the native `compareDocumentPosition`: engine features. The engine's own sort is a parameter with the promise of the standard.
- SizzleOrder.UniqueSort: for nodes of one document only, because across documents the comparison is not an order (see AntisymmetricExactly).
- Regular expressions are literal delimiters and the class `\s`; overriding `escape` is not modelled.
- Mustache views are data: no functions as values, no `_loadPartial`, no inherited properties; the text of a number is given with it.
- MustacheNest.NestTokens: the collector arrays, which alias the children of open sections, are values on the stack; the update in place through the alias is not captured.
- MustacheRender.Writer.Render: partials may include themselves without end in the original; a depth parameter bounds them, and running out is an error of the interpreter and of the renderer alike.
- MustacheCache.CacheInvisible: each template with tags of its own. The cache is keyed by the template alone (mustache.js:196), so a template asked for with another pair gets the function compiled first (TagsMatter, SwappableExactly).
- MustacheLaws.ConcatShown: for parts that both parse, of which the first leaves the default delimiters in force, where no tag reaches across, and the line across the border is stripped as its pieces are (StripConcat says exactly when). LexConcat covers other delimiters.
- MustacheLaws.SectionShown: the section is written on one line with a body without newlines, or each of its tags on a line of its own around whole lines, and the default delimiters are in force. In a line shared with other text, the body loses its first or last white space depending on that text (StripExactly).
- MustachePrint.PrintLex: delimiters and the white space written between them; names whose end delimiter overlaps the name are read differently and are excluded by the condition that the end does not begin inside.
- Callbacks.Callbacks.FireList: callbacks that throw, and `empty` during a firing, which leaves `firingLength` stale (jquery.js:1049-1052). What a callback does is a finite list of operations on the same list.
- Callbacks.Callbacks.AddArgs: a duplicate function given to a unique list falls through to the recursive call if its `length` is positive (jquery.js:1001-1007), and `jQuery.each` then visits the function's own enumerable properties; functions without such properties are modelled. Collections are array-like objects.
- Deferred: `then`, `pipe`, `always` and the function passed to the constructor; they are built from the operations modelled.
- When.When.constructor: a single Deferred argument is returned as it is (jquery.js:1199) and not wrapped; this case is excluded by a precondition. Contexts (`this` values) are part of the values.
- DataCache: data of plain objects (kept on the object itself), the removal of the expando in old engines, a private name that is itself `data`, and hooks of special events that touch the cache.
- DataCache.Cache.EventRemove: by type only; namespaces, guids and selectors are in EventHandlers.
- Extend.MergeAll: that the result is the overlay is claimed where no object that is merged into is reached twice (see OverlayExactly for the rest); all else holds for every target apart from the sources. "Reachable" means through plain objects and arrays: a value of another kind (a function, a DOM node, an instance) is passed along as it is, and may itself lead to an object of a source. A target that overlaps its sources, strings as sources (whose characters for-in would visit) and inherited properties are not modelled. Each object's names are visited in any order.
- AjaxConvert.AjaxConvert: converters are functions or `true`, as documented. An entry that is `false` is not modelled; termination is claimed for the documented values only. Converter keys are given in lower case and name two types; converters are pure up to throwing.
- EventHandlers: special-event hooks (setup, add, remove, teardown, handle), a bare namespace when binding, and the namespace expression, which is inclusion of name sets here. Special types map to a bound type that maps to itself.
- EventHandlers.RunQueue: what a handler does to the event is given per call; changes it makes to the handler lists take effect on later dispatches only, as the queue holds copies.
- FxQueue: replacing the queue by an array (`clearQueue`), calling `dequeue` from outside, and `delay`/`stop` timers.
- FxQueue.Queue.Dequeue: requires that no second sentinel stands behind the first, which no run ever stores.
- KubeOverrides.ApplyOne: containers are values, so nested tables shared through YAML anchors are not captured; splitting an argument at `=` and `.` is left out, and with it an argument without a path. Assigning below a string, where Ruby would try to replace a substring, counts as a failure.
- KubeOverrides.Reject: list items that are no tables never match a name.
