# Sizzle, Deferred and the observation index, verified

A Dafny model of the algorithms in this repository that have real state, and proofs about them. Most of it is the
vendored jQuery 3.3.1 with Sizzle 2.3.3 (`spring-boot-web-demo/extres/static/js/jquery-3.3.1.js`); two modules model the
HBase observation index (`hadoop-demo/src/main/java/com/at/hbase`).

`dafny verify dfyconfig.toml` checks the project.

## What is modelled

**Selecting elements.** `Dom` is a document as the engine sees it: nodes in preorder with parent and sibling links.
`Selectors` gives selectors their plain meaning: a group of tokens selects an element if a sequence of nodes, one step per
token, leads to it from the context. `Lexer` is `tokenize`. `Matchers` is the compiler from token lists to nested
matchers, as terms, and `Engine` is the object that runs them with its `dirruns` counter and the per-node caches that
combinators overwrite and back-fill. `Select` adds context hoisting and seeding; its method `Select` is proved to return
exactly what `Selectors` says, in document order. `SetMatcher` and `SuperMatcher` are positional matchers, which move
elements between arrays in place, and the reintegration of their results; `PositionalGroups` compares what comes of a
selector list with what its groups select when each is read alone. `DocumentOrder` is sorting and removing
duplicates, `NthChild` the cached search for an element's index.

**Callbacks and promises.** `CallbackLists` is one `jQuery.Callbacks` list as a record with a numbered history of what was
added, removed and called; `DeferredState` is the invariant of the six lists of a Deferred and any others beside them;
`Deferred` is the object whose methods user callbacks call while it fires. What callbacks do is a script, so that every
finite run, however re-entrant, is the run of some script. `Then` compares the depth counter of `then` with the flags of
the promise resolution procedure of Promises/A+, `When` is the countdown of `jQuery.when`.

**Smaller loops.** `ClassNames` (class strings as token lists), `AjaxConvert` (the work list of response conversions),
`EventHandlers` (handler lists with delegated handlers in front).

**Observation index.** `RowKey` (big-endian, time-reversing keys with 64-bit wrap-around) and `TemperatureQuery` (the
bounded scan).

`Optional`, `Lists` and `Whitespace` hold what several modules need.

## Where the code does not do what it seems to promise

- `:nth-last-child` in one run is right only for elements not before the first one it was asked about: the search starts
  at that element's previous sibling and caches what it counts (`NthChild.BackwardIsRightFromFirstAsked` is the exact
  condition, `NthChild.ThirdFromEndIsLost` an example).
- When a list of selectors filters given elements, its groups share them: the positions of a group with something
  before the positional pseudo are counted among what other groups have left. `.a, div:first` on two divs of which the
  first has the class gives both, though neither group selects the second (`PositionalGroups.SecondIsFirst`). For
  groups with element filters before and behind the pseudo, the result is what the groups select when each is read
  alone, whatever their positions, if and only if (1) where an element passes what stands before a group's pseudo, and
  an element group or a positional group run earlier could take it, the group could take no other element, and (2)
  what positional groups run earlier could take passes the filter behind the pseudo of a group that has nothing before
  it (`PositionalGroups.UnionIfUndisturbed`; positional groups run from the last to the first). For one group and one
  set of elements taken out, its positions are the same if and only if none of those passes its preFilter or none that
  is left does (`PositionalGroups.PositionsStay`).
- A positional group without preFilter also re-filters results that earlier groups left in the array, so that `:last` is
  lost in `:first.a, :last` (`SetMatcher.EarlierResultSurvives` is the exact condition, `SuperMatcher.LastIsLost` the
  example).
- Hoisting a leading ID looks at the first element with that id only. It is right for every selector if and only if each
  other element with the id has neither a child element nor an element after it among its siblings
  (`Select.HoistIsRightIfOthersBarren`; `Select.HoistLosesMatch` is an example where it is not). An ID as the token of
  the seed gives the first element only, too, which is right if and only if no other element has the id
  (`Select.IdSeedIsRightIfUnique`, with the example `Select.IdSeedLosesMatch`). `Select` asks for these conditions
  exactly where the engine looks an ID up, which is at most once: for a leading ID that is hoisted, or else for the last
  token of the rightmost compound that can be looked up.
- `jQuery.when` counts calls, not subordinates: a thenable that fulfils twice resolves the master early
  (`When.CountIgnoresWho` is the exact condition, `When.FulfilledTwice` the example).
- The scan for a station's observations has no stop row (`TemperatureQuery.ReadsOnlyTheStation` is the exact condition
  for the rows that are read, `TemperatureQuery.RightIfNoneMisleads` for the answer,
  `TemperatureQuery.NextStationLeaksIn` the example).
- `hasClass("")` is true for elements without classes (`ClassNames.EmptyNameMeansNone`).
- `tokenize` looks for no comma at the start, so that whitespace there is read as a combinator even before a comma. A
  selector that begins with a comma is rejected on the spot if and only if no whitespace stands before it; otherwise
  the whitespace is a group of its own and what stands behind the comma, if anything does, is read as if it stood
  alone (`Lexer.CommaFirst`, of which `Lexer.SpaceBeforeComma` is the shortest example). The accepted selectors with a
  group of nothing but whitespace are exactly those that begin with whitespace which a comma or the end follows
  (`Lexer.SpaceGroupIfLeading`). Sizzle's last step and `:not` trim their text first (lines 845 and 1927), so that
  such a selector reaches `tokenize` only through Sizzle's own `tokenize`, `compile` and `select`, through the
  prefixing of selectors for an element context (line 815) and through the argument of a pseudo-class whose excess is
  looked for (line 1693).

## Model

| member | source | states |
|---|---|---|
| Matchers.WalkIsRelation | spring-boot-web-demo/extres/static/js/jquery-3.3.1.js:2232-2239 | the uncached loop of a combinator finds a match exactly if some node in the combinator's relation (descendant, child, adjacent, sibling), among the nodes it looks at, is accepted by the inner matcher |
| Matchers.PrefixCorrect | spring-boot-web-demo/extres/static/js/jquery-3.3.1.js:2433-2462 | after any number of tokens the matchers collected so far accept an element exactly if a sequence of nodes, one step per token, leads to it from the context |
| Matchers.FilterCorrect | spring-boot-web-demo/extres/static/js/jquery-3.3.1.js:1919-1938 | a compiled filter, `:not` with its own compiled groups included, accepts exactly the elements that satisfy it |
| Matchers.TokensCorrect | spring-boot-web-demo/extres/static/js/jquery-3.3.1.js:2409-2465 | the matcher compiled from a token list accepts exactly the elements that the list selects from the context, leading combinators included |
| Matchers.GroupsCorrect | spring-boot-web-demo/extres/static/js/jquery-3.3.1.js:2578-2606 | a compiled selector list accepts an element exactly if one of its groups selects it |
| Matchers.PrefixWellNamed | spring-boot-web-demo/extres/static/js/jquery-3.3.1.js:2208-2213 | compilation gives every combinator its own doneName, inner ones smaller names than outer ones: what the caches rely on |
| Engine.Sizzle.Match | spring-boot-web-demo/extres/static/js/jquery-3.3.1.js:2272-2284 | whatever the caches hold from earlier queries of the run, a compiled matcher called on a node answers as if there were none, and every entry it leaves behind is right |
| Engine.Sizzle.Closest | spring-boot-web-demo/extres/static/js/jquery-3.3.1.js:2215-2224 | a combinator with `first` asks about the closest node only |
| Engine.Sizzle.Search | spring-boot-web-demo/extres/static/js/jquery-3.3.1.js:2226-2269 | a caching combinator, reusing entries of the same run and name and back-filling all nodes it passed through the shared newCache, answers as the uncached loop |
| Engine.Sizzle.Recall | spring-boot-web-demo/extres/static/js/jquery-3.3.1.js:2251-2254 | an entry of this run and doneName holds the right answer for its node, and assigning it to newCache makes that right for all nodes passed before |
| Engine.Sizzle.Visit | spring-boot-web-demo/extres/static/js/jquery-3.3.1.js:2256-2264 | after storing newCache on a node and asking the inner matcher, the result in newCache is right for this node and all nodes passed before |
| Engine.Sizzle.NoGroupMatches | spring-boot-web-demo/extres/static/js/jquery-3.3.1.js:1921-1938 | `:not` runs a nested superMatcher, which moves dirruns on; the caches stay right and the answer is that no group matches |
| Engine.Sizzle.MatcherFromTokens | spring-boot-web-demo/extres/static/js/jquery-3.3.1.js:2409-2465 | the loop over the tokens builds the closures of the specification, in order, naming combinators from the running counter |
| Engine.Sizzle.Compile | spring-boot-web-demo/extres/static/js/jquery-3.3.1.js:2578-2606 | the groups are compiled from the last to the first |
| Engine.Sizzle.AnyMatches | spring-boot-web-demo/extres/static/js/jquery-3.3.1.js:2492-2502 | the loop over the groups' matchers finds out whether some group matches |
| Engine.Sizzle.SuperMatcher | spring-boot-web-demo/extres/static/js/jquery-3.3.1.js:2467-2520 | without positional matchers the elements that some group's matcher accepts are kept, in order, whatever earlier runs left in the caches |
| Select.GetElementById | spring-boot-web-demo/extres/static/js/jquery-3.3.1.js:1138-1143 | the first element with the id, or none |
| Select.Find | spring-boot-web-demo/extres/static/js/jquery-3.3.1.js:2654-2659 | Expr.find gives the first element with the ID, in a document only, or exactly the elements in scope of the CLASS or TAG, in document order |
| Select.HoistKeepsMeaning | spring-boot-web-demo/extres/static/js/jquery-3.3.1.js:2630-2642 | if no other element with the id has a child or later sibling element, moving the context to an element with the id and dropping the token keeps what the group selects |
| Select.HoistIsRightIfOthersBarren | spring-boot-web-demo/extres/static/js/jquery-3.3.1.js:2630-2642 | hoisting to an element is right for every group that starts with its id if and only if no other element with the id has a child element or an element after it among its siblings |
| Select.HoistFindsNothing | spring-boot-web-demo/extres/static/js/jquery-3.3.1.js:2633-2635 | without an element of that id the group selects nothing |
| Select.HoistLosesMatch | spring-boot-web-demo/extres/static/js/jquery-3.3.1.js:2630-2642 | with two elements of one id, the second with a child, that condition fails, and hoisting `#a > *` loses the child |
| Select.IdSeedIsRightIfUnique | spring-boot-web-demo/extres/static/js/jquery-3.3.1.js:2654-2661 | taking the element that has an id as the seed and dropping the ID is right for every group that ends with that ID if and only if no other element has the id |
| Select.IdSeedLosesMatch | spring-boot-web-demo/extres/static/js/jquery-3.3.1.js:2654-2661 | with two elements of one id that condition fails, and `#a` seeded with the first loses the second |
| Select.Hoist | spring-boot-web-demo/extres/static/js/jquery-3.3.1.js:2628-2643 | a leading ID is hoisted to the first element with it, or nothing is found; if the other elements with it have no child or later sibling element, the plan computes the answer for the original selector |
| Select.SeedKeepsMeaning | spring-boot-web-demo/extres/static/js/jquery-3.3.1.js:2645-2672 | a filter of the rightmost compound can be taken out of the group and tested separately |
| Select.SelectedAreInScope | spring-boot-web-demo/extres/static/js/jquery-3.3.1.js:2654-2659 | everything selected lies below the context, or below its parent if the selector mentions a sibling combinator: the seed misses nothing |
| Select.FetchSeed | spring-boot-web-demo/extres/static/js/jquery-3.3.1.js:2645-2672 | walking back over the rightmost compound and seeding from the first findable token leaves a plan for the same answer, if that token, when an ID, names one element |
| Select.UseSeed | spring-boot-web-demo/extres/static/js/jquery-3.3.1.js:2661-2669 | deleting the seed's token, and returning early if the seed is empty or nothing remains, is right |
| Select.Prepare | spring-boot-web-demo/extres/static/js/jquery-3.3.1.js:2624-2673 | both optimisations together keep the answer; a list of several groups is left alone |
| Select.AcceptedAreSelected | spring-boot-web-demo/extres/static/js/jquery-3.3.1.js:2675-2683 | filtering the candidates with the compiled rest leaves exactly the selected elements, ascending |
| Select.SelectedMembers | spring-boot-web-demo/extres/static/js/jquery-3.3.1.js:2617-2685 | the specification lists exactly the elements selected by some group, in document order |
| Select.SimpleSelectors | spring-boot-web-demo/extres/static/js/jquery-3.3.1.js:2617-2685 | which elements in scope a class, a tag, `*`, an id, another filter and `:not` of a class select |
| Select.CompoundSelects | spring-boot-web-demo/extres/static/js/jquery-3.3.1.js:2617-2685 | a filter added to a compound narrows it to the elements that satisfy it |
| Select.CombinatorSelects | spring-boot-web-demo/extres/static/js/jquery-3.3.1.js:2617-2685 | what stands behind each of the four combinators selects among the children, descendants, next siblings or later siblings of what stands before it |
| Select.Select | spring-boot-web-demo/extres/static/js/jquery-3.3.1.js:2617-2685 | select returns exactly the elements of the plain recursive meaning of the selector, in document order, each once, where the ID it looks up, if any, meets the exact condition above |
| SetMatcher.Condense | spring-boot-web-demo/extres/static/js/jquery-3.3.1.js:2295-2314 | the elements that pass the filter, gaps closed, with the indices they came from |
| SetMatcher.MatchIndexes | spring-boot-web-demo/extres/static/js/jquery-3.3.1.js:2069-2112 | for each positional pseudo the indices produced, within the collection, are exactly the chosen ones, negative arguments counting from the end |
| SetMatcher.Position | spring-boot-web-demo/extres/static/js/jquery-3.3.1.js:1022-1038 | exactly the elements at chosen positions move from the seed array to the matches array, in place |
| SetMatcher.PostFilter | spring-boot-web-demo/extres/static/js/jquery-3.3.1.js:2353-2365 | the matched elements that fail the post filter go back to their own cells of matcherIn |
| SetMatcher.MoveAcross | spring-boot-web-demo/extres/static/js/jquery-3.3.1.js:2382-2390 | what is left in the condensed list moves from seed to results at its own place, nothing else changes |
| SetMatcher.RunWrapped | spring-boot-web-demo/extres/static/js/jquery-3.3.1.js:2316-2351 | a wrapped element filter, matcherIn and matcherOut being one array, moves exactly the accepted elements |
| SetMatcher.RunHere | spring-boot-web-demo/extres/static/js/jquery-3.3.1.js:2348-2365 | without preFilter, matching and post-filtering happen on seed and results themselves, earlier results included |
| SetMatcher.RunFiltered | spring-boot-web-demo/extres/static/js/jquery-3.3.1.js:2332-2390 | with preFilter the work on the condensed copy is carried over to the right cells through preMap |
| SetMatcher.Run | spring-boot-web-demo/extres/static/js/jquery-3.3.1.js:2323-2407 | a set matcher moves exactly the elements it keeps from seed to results, cell by cell, and earlier results it rejects back to the seed |
| SetMatcher.SplitsSeed | spring-boot-web-demo/extres/static/js/jquery-3.3.1.js:2323-2391 | started without results, each index keeps its element in exactly one of the two arrays, in results if and only if it passes preFilter, is chosen among the prefiltered elements, and passes postFilter |
| SetMatcher.PseudosTake | spring-boot-web-demo/extres/static/js/jquery-3.3.1.js:2069-2112 | which positions of a list :first, :last, :even, :odd, :eq, :lt and :gt take, negative arguments counting from the end |
| SetMatcher.EarlierResultSurvives | spring-boot-web-demo/extres/static/js/jquery-3.3.1.js:2337-2365 | a result that an earlier positional group left survives the next one if and only if that one has a preFilter or its post filter accepts the element |
| SuperMatcher.OutcomeKeepsSplit | spring-boot-web-demo/extres/static/js/jquery-3.3.1.js:2533-2537 | set matchers run one after the other keep each element in exactly one of the two arrays, at its own index |
| SuperMatcher.RunAll | spring-boot-web-demo/extres/static/js/jquery-3.3.1.js:2533-2537 | the set matchers run in order on the same two arrays |
| SuperMatcher.Visit | spring-boot-web-demo/extres/static/js/jquery-3.3.1.js:2487-2524 | element matches go to the results in seed order, the rest is offered to the set matchers at its own index, and matchedCount counts the former |
| SuperMatcher.PopBack | spring-boot-web-demo/extres/static/js/jquery-3.3.1.js:2540-2547 | popping the results from the end puts every element match back at its own index and leaves the caller's earlier results |
| SuperMatcher.Reintegrate | spring-boot-web-demo/extres/static/js/jquery-3.3.1.js:2539-2554 | the results end with the elements matched either way, in seed order |
| SuperMatcher.Filter | spring-boot-web-demo/extres/static/js/jquery-3.3.1.js:2467-2554 | with a seed superMatcher appends exactly the elements accepted by an element matcher or left matched by the set matchers, each once and in seed order |
| SuperMatcher.NothingToDo | spring-boot-web-demo/extres/static/js/jquery-3.3.1.js:2526-2533 | skipping the set matchers when nothing is unmatched changes nothing |
| SuperMatcher.SelectedBySome | spring-boot-web-demo/extres/static/js/jquery-3.3.1.js:2526-2537 | if no set matcher drops earlier finds, an element ends up matched by them exactly if one of them keeps it at its turn, among what earlier ones have left |
| SuperMatcher.LastIsLost | spring-boot-web-demo/extres/static/js/jquery-3.3.1.js:2337-2365 | `:first.a, :last` on two elements of which only the first has the class: run over the whole seed, the set matchers take the last element and then throw it out again |
| PositionalGroups.PositionsStay | spring-boot-web-demo/extres/static/js/jquery-3.3.1.js:2295-2314 | among elements that are left, a group with a preFilter picks at every position what it picks in the whole if and only if none that was taken out passes the preFilter or none that is left does |
| PositionalGroups.UndisturbedIsUnion | spring-boot-web-demo/extres/static/js/jquery-3.3.1.js:2467-2554 | under that condition superMatcher selects, by element matchers and set matchers together, exactly what some group selects when applied to the whole seed |
| PositionalGroups.UnionIfUndisturbed | spring-boot-web-demo/extres/static/js/jquery-3.3.1.js:2467-2554 | for all positions at once this is so if and only if no group can shift another's positions or drop its finds |
| PositionalGroups.SecondIsFirst | spring-boot-web-demo/extres/static/js/jquery-3.3.1.js:2487-2537 | `.a, div:first` on two divs of which the first has the class selects both, where the groups read alone select the first |
| DocumentOrder.SiblingCheck | spring-boot-web-demo/extres/static/js/jquery-3.3.1.js:918-938 | for siblings the sign of their document order; a missing node sorts first |
| DocumentOrder.Ancestors | spring-boot-web-demo/extres/static/js/jquery-3.3.1.js:1445-1453 | the path from the document to the node |
| DocumentOrder.PartingDecides | spring-boot-web-demo/extres/static/js/jquery-3.3.1.js:1455-1462 | where two ancestor paths part, the order of the two siblings there is the order of the two nodes, and a path that ends first is that of the earlier node |
| DocumentOrder.PathsPart | spring-boot-web-demo/extres/static/js/jquery-3.3.1.js:1455-1458 | paths to different nodes cannot both end without a difference: the walk down terminates |
| DocumentOrder.Sorter.SortOrder | spring-boot-web-demo/extres/static/js/jquery-3.3.1.js:1416-1468 | the comparator's sign is that of the preorder positions, and the duplicate flag is set exactly if the nodes are the same |
| DocumentOrder.Duplicates | spring-boot-web-demo/extres/static/js/jquery-3.3.1.js:1559-1564 | the indices collected are exactly those of elements that repeat the one before |
| DocumentOrder.SpliceOut | spring-boot-web-demo/extres/static/js/jquery-3.3.1.js:1565-1567 | splicing these indices out from the last to the first leaves each run's first element |
| DocumentOrder.FirstsAscend | spring-boot-web-demo/extres/static/js/jquery-3.3.1.js:1559-1567 | of a sorted list, what is left ascends strictly and has the same members |
| DocumentOrder.Sorter.UniqueSort | spring-boot-web-demo/extres/static/js/jquery-3.3.1.js:1548-1575 | once the native sort has called the comparator for all neighbours of the order it arrives at, the flag tells whether there are duplicates, and the result is strictly increasing with exactly the original elements |
| NthChild.Siblings.Forward | spring-boot-web-demo/extres/static/js/jquery-3.3.1.js:1792-1823 | from any cached position, with wrap-around to the first child, the search ends with the element's 1-based index |
| NthChild.LastAnswerStep | spring-boot-web-demo/extres/static/js/jquery-3.3.1.js:1846-1868 | moving one node to the left adds one exactly if that node is an element |
| NthChild.Siblings.Backward | spring-boot-web-demo/extres/static/js/jquery-3.3.1.js:1825-1871 | what the cached backward search answers, as a function of the first element asked about in the run |
| NthChild.BackwardIsRightFromFirstAsked | spring-boot-web-demo/extres/static/js/jquery-3.3.1.js:1825-1871 | that answer is the index from the end if and only if the element is not before the first one asked about |
| NthChild.ThirdFromEndIsLost | spring-boot-web-demo/extres/static/js/jquery-3.3.1.js:1825-1871 | among the children b, b, p, with the second asked about first, the first one answers 1 instead of 3 |
| NthChild.Siblings.OfType | spring-boot-web-demo/extres/static/js/jquery-3.3.1.js:1842-1871 | the of-type searches count the nodes of the same name from the end they name |
| NthChild.PositionsAreSizes | spring-boot-web-demo/extres/static/js/jquery-3.3.1.js:1792-1871 | the four positions are the sizes of the sets of elements, or of nodes of that name, up to the child or from it on |
| NthChild.Siblings.NewRun | spring-boot-web-demo/extres/static/js/jquery-3.3.1.js:1808-1811 | entries of an earlier run are never used, even if the children have changed |
| NthChild.NthTestIsCycle | spring-boot-web-demo/extres/static/js/jquery-3.3.1.js:1874-1876 | the final test holds if and only if some n >= 0 has first * n + last equal to the index, for negative and zero first too (section 6.6.5.2 of Selectors Level 3) |
| CallbackLists.PushKeeps | spring-boot-web-demo/extres/static/js/jquery-3.3.1.js:3391-3402 | fireWith during a pass only queues its arguments, behind those that wait already |
| CallbackLists.BeginStartsPass | spring-boot-web-demo/extres/static/js/jquery-3.3.1.js:3257-3264 | a pass takes the first queued arguments and is due to call the entries after firingIndex |
| CallbackLists.CallKeeps | spring-boot-web-demo/extres/static/js/jquery-3.3.1.js:3265-3268 | one turn of the loop calls the entry at the next index; what was called and what lies ahead are still exactly what the pass is due to call |
| CallbackLists.EndCompletesPass | spring-boot-web-demo/extres/static/js/jquery-3.3.1.js:3263-3265 | when the index reaches the end every due entry still present at its turn has been called, once, in list order |
| CallbackLists.FinishIsIdle | spring-boot-web-demo/extres/static/js/jquery-3.3.1.js:3278-3296 | after the last pass the list forgets, or keeps its memory, or is spent |
| CallbackLists.RememberPrimes | spring-boot-web-demo/extres/static/js/jquery-3.3.1.js:3306-3310 | add on a list that remembers queues the memory for the new entries only |
| CallbackLists.AppendKeepsPass | spring-boot-web-demo/extres/static/js/jquery-3.3.1.js:3312-3324 | an entry added during a pass is due in it |
| CallbackLists.RemoveKeeps | spring-boot-web-demo/extres/static/js/jquery-3.3.1.js:3334-3347 | removing any occurrence at any time, the running one included, neither repeats nor loses another call |
| CallbackLists.LockKeeps | spring-boot-web-demo/extres/static/js/jquery-3.3.1.js:3377-3386 | lock drops what is queued and lets the pass under way finish |
| CallbackLists.CallsAreThoseOfPasses | spring-boot-web-demo/extres/static/js/jquery-3.3.1.js:3263-3276 | the calls ever made on a list are those of its passes, pass after pass, each entry with its pass's arguments, passes in the order of the fireWith calls |
| CallbackLists.PassCallsEachOnce | spring-boot-web-demo/extres/static/js/jquery-3.3.1.js:3263-3276 | a finished pass has called exactly the due occurrences not removed before their turn, each once, in list order |
| CallbackLists.OnceMemoryCallsEachOnce | spring-boot-web-demo/extres/static/js/jquery-3.3.1.js:3225-3408 | on a once-memory list every occurrence ever added and never removed has been called in exactly one pass, and all passes carry the first arguments |
| DeferredState.StartKeeps | spring-boot-web-demo/extres/static/js/jquery-3.3.1.js:3702-3725 | the first pass of the done or fail list decides how the Deferred settles, and with what |
| DeferredState.SettleKeeps | spring-boot-web-demo/extres/static/js/jquery-3.3.1.js:3702-3725 | each of the constructor's functions (state, disable, disable, lock, lock) acts before any user callback and keeps the invariant |
| DeferredState.EndKeeps | spring-boot-web-demo/extres/static/js/jquery-3.3.1.js:3263-3265 | the winner's first pass does not end before all of these have run |
| DeferredState.HandlersDone | spring-boot-web-demo/extres/static/js/jquery-3.3.1.js:3727-3730 | the handlers are fired with the settling arguments |
| DeferredState.NewDeferred | spring-boot-web-demo/extres/static/js/jquery-3.3.1.js:3691-3730 | a new Deferred satisfies the invariant, all its lists idle |
| DeferredState.ListOptions | spring-boot-web-demo/extres/static/js/jquery-3.3.1.js:3463-3473 | in every state all six lists remember, none is unique, and exactly the done and fail lists and their handler lists are once lists |
| DeferredState.StateTellsWhoFired | spring-boot-web-demo/extres/static/js/jquery-3.3.1.js:3704-3709 | the state is resolved exactly if the done list has fired and rejected exactly if the fail list has; never have both |
| DeferredState.StateIsFinal | spring-boot-web-demo/extres/static/js/jquery-3.3.1.js:3704-3709 | once not pending the state never changes |
| DeferredState.SettledIsLocked | spring-boot-web-demo/extres/static/js/jquery-3.3.1.js:3711-3723 | after settling resolve, reject and notify find their lists locked, hence do nothing |
| DeferredState.CallbacksRunOnce | spring-boot-web-demo/extres/static/js/jquery-3.3.1.js:3691-3744 | every done callback of a resolved Deferred (dually fail) has run in exactly one pass with the settling arguments, and the opposite list has called nothing |
| DeferredState.HandlersRunOnce | spring-boot-web-demo/extres/static/js/jquery-3.3.1.js:3727-3730 | the same for the handlers that then() adds, once neither their list nor the main one is firing |
| Deferred.World.constructor | spring-boot-web-demo/extres/static/js/jquery-3.3.1.js:3463-3744 | a new Deferred is pending, its lists hold the constructor's functions and nothing else, nothing has fired |
| Deferred.World.Call | spring-boot-web-demo/extres/static/js/jquery-3.3.1.js:3225-3408 | any client action, with any script of what callbacks do in turn, keeps the invariant of all lists; the state does not change once settled |
| Deferred.World.FireWith | spring-boot-web-demo/extres/static/js/jquery-3.3.1.js:3391-3402 | a locked list is untouched; a firing list queues the arguments; otherwise a pass is made over the entries present and those added meanwhile, and on the done or fail list the Deferred is settled accordingly |
| Deferred.World.Fire | spring-boot-web-demo/extres/static/js/jquery-3.3.1.js:3254-3297 | passes are made until nothing is queued, the first one with the first queued arguments |
| Deferred.World.RunPass | spring-boot-web-demo/extres/static/js/jquery-3.3.1.js:3265-3275 | the inner loop, whose length and index the callbacks may change, reaches the end of the list with the invariant intact |
| Deferred.World.Invoke | spring-boot-web-demo/extres/static/js/jquery-3.3.1.js:3268-3268 | the entry at firingIndex is called with the arguments of the pass; user callbacks run only before settling or after the constructor's functions |
| Deferred.World.RunUser | spring-boot-web-demo/extres/static/js/jquery-3.3.1.js:3268-3268 | a user callback, whatever it does to any list, leaves passes under way, what they have called and the settled state alone |
| Deferred.World.AddAll | spring-boot-web-demo/extres/static/js/jquery-3.3.1.js:3302-3331 | add on a spent list does nothing; otherwise the new entries follow in order (each once if unique), and on an idle list that remembers exactly they are called with the memory |
| DeferredState.ExtendedMeans | spring-boot-web-demo/extres/static/js/jquery-3.3.1.js:3312-3324 | what add does to a list: the old entries stay in front, then all the given functions in order or, on a unique list, each of them exactly once altogether |
| Deferred.World.AppendAll | spring-boot-web-demo/extres/static/js/jquery-3.3.1.js:3312-3324 | the loop of add extends the list as specified and numbers every new entry afresh |
| Deferred.World.RemoveAll | spring-boot-web-demo/extres/static/js/jquery-3.3.1.js:3333-3347 | every occurrence of the given functions is gone, the rest keeps its order |
| Deferred.World.RemoveOne | spring-boot-web-demo/extres/static/js/jquery-3.3.1.js:3336-3344 | searching on from the last hit misses no occurrence |
| Deferred.World.LockList | spring-boot-web-demo/extres/static/js/jquery-3.3.1.js:3377-3386 | lock as specified, other lists untouched |
| Then.CallCounts | spring-boot-web-demo/extres/static/js/jquery-3.3.1.js:3527-3532 | before settling, the depth test ignores exactly the calls that the procedure's flags ignore |
| Then.Derived.MightThrow | spring-boot-web-demo/extres/static/js/jquery-3.3.1.js:3524-3595 | at the current depth mightThrow does what resolving with the completion does, apart from an exception that is left to the caller; below it nothing happens |
| Then.Derived.Process | spring-boot-web-demo/extres/static/js/jquery-3.3.1.js:3597-3625 | with the exception handled, processing agrees with the promise resolution procedure; a settled outcome never changes |
| Then.Derived.CallLater | spring-boot-web-demo/extres/static/js/jquery-3.3.1.js:3520-3643 | a resolver call at any level, at once or later, agrees with the procedure; calls below the current depth have no effect |
| Then.Derived.Chain | spring-boot-web-demo/extres/static/js/jquery-3.3.1.js:3518-3643 | for every handler completion and every script of resolver calls, nested, repeated, synchronous or late, the derived promise's outcome is the procedure's; a plain value resolves with that value, an exception rejects with it, and the derived promise itself is refused, whatever is called later |
| Then.RunIsSound | spring-boot-web-demo/extres/static/js/jquery-3.3.1.js:3518-3643 | in every run the promise is either settled or waits for exactly one level |
| Then.OutcomeIsFinal | spring-boot-web-demo/extres/static/js/jquery-3.3.1.js:3518-3643 | no later resolver call changes anything once settled |
| Then.OtherCallsAreIgnored | spring-boot-web-demo/extres/static/js/jquery-3.3.1.js:3527-3532 | while pending, a call has an effect if and only if it is one of the last level |
| Then.FirstCallDecides | spring-boot-web-demo/extres/static/js/jquery-3.3.1.js:3527-3532 | the first call of one of a thenable's resolvers decides: if it settles the promise nothing later matters, and if it adopts another thenable only calls of resolvers handed out deeper do (section 2.3.3.3.3 of Promises/A+) |
| Then.ThrowAfterCallIsIgnored | spring-boot-web-demo/extres/static/js/jquery-3.3.1.js:3610-3623 | a throw after a resolver call makes no difference (section 2.3.3.3.4.1 of Promises/A+) |
| Then.ThrowBeforeCallRejects | spring-boot-web-demo/extres/static/js/jquery-3.3.1.js:3610-3623 | a throw before any resolver call rejects with the exception |
| Then.HandlerSettles | spring-boot-web-demo/extres/static/js/jquery-3.3.1.js:3524-3625 | in every run a handler's plain value resolves with exactly that value, its exception rejects with that exception, and returning the derived promise rejects with the self-resolution error (sections 2.3.1, 2.3.4 and 2.2.7.2 of Promises/A+) |
| Then.CallSettles | spring-boot-web-demo/extres/static/js/jquery-3.3.1.js:3520-3595 | in every pending run a call of a resolver of the level waited for settles with exactly the value or reason it is given, or with the self-resolution error |
| Then.ThenableSettles | spring-boot-web-demo/extres/static/js/jquery-3.3.1.js:3546-3595 | a thenable whose own resolvers are called, however often and whatever else its script does, settles with the value or reason of the first such call |
| Then.SilentThenable | spring-boot-web-demo/extres/static/js/jquery-3.3.1.js:3546-3625 | a thenable that calls none of its own resolvers leaves the promise waiting or, if it throws, rejects it with what it throws |
| When.Master.Update | spring-boot-web-demo/extres/static/js/jquery-3.3.1.js:3775-3784 | a fulfilment is stored at its own position and counted; the last one outstanding resolves the master |
| When.Master.RejectFrom | spring-boot-web-demo/extres/static/js/jquery-3.3.1.js:3801-3801 | a rejection rejects the master unless it has settled |
| When.Master.Adopt | spring-boot-web-demo/extres/static/js/jquery-3.3.1.js:3427-3458 | adopting an argument delivers the signals it makes at once, a throw as a rejection |
| When.Master.When | spring-boot-web-demo/extres/static/js/jquery-3.3.1.js:3759-3805 | over the adopting loop and everything signalled later, counter, values and outcome follow from the history of signals |
| When.CountIsFull | spring-boot-web-demo/extres/static/js/jquery-3.3.1.js:3780-3782 | for subordinates that settle at most once the count is that of those fulfilled and is full exactly when all are |
| When.ValuesInPlace | spring-boot-web-demo/extres/static/js/jquery-3.3.1.js:3778-3779 | value number i is what subordinate i was fulfilled with: a single value itself, several as the whole list, none as undefined |
| When.MasterSettles | spring-boot-web-demo/extres/static/js/jquery-3.3.1.js:3759-3805 | if every subordinate settles at most once: rejected on the first rejection, resolved exactly when all are fulfilled with each value in its place, otherwise pending |
| When.PlainValuesResolve | spring-boot-web-demo/extres/static/js/jquery-3.3.1.js:3789-3805 | plain values resolve the master at once, each as a single value at its own position |
| When.ThrowRejects | spring-boot-web-demo/extres/static/js/jquery-3.3.1.js:3427-3458 | if the last argument, the first one adopted, throws before it calls anything, the master rejects with that exception, whatever follows |
| When.CountIgnoresWho | spring-boot-web-demo/extres/static/js/jquery-3.3.1.js:3780-3782 | as many fulfilments as arguments resolve the master; all arguments are fulfilled then if and only if no subordinate signalled twice |
| When.FulfilledTwice | spring-boot-web-demo/extres/static/js/jquery-3.3.1.js:3780-3782 | a thenable that fulfils twice resolves the master with another argument's raw value in its place |
| ClassNames.TokensSplit | spring-boot-web-demo/extres/static/js/jquery-3.3.1.js:7784-7787 | splitting at whitespace is compatible with concatenation |
| ClassNames.CollapseKeepsTokens | spring-boot-web-demo/extres/static/js/jquery-3.3.1.js:7784-7787 | strip and collapse keeps the names, their order and their number |
| ClassNames.SearchFindsTokens | spring-boot-web-demo/extres/static/js/jquery-3.3.1.js:7952-7956 | searching the padded string for the padded name finds it if and only if it is one of the names |
| ClassNames.HasClass | spring-boot-web-demo/extres/static/js/jquery-3.3.1.js:7948-7961 | for a name without whitespace: true exactly if some element has it among its names |
| ClassNames.AddNames | spring-boot-web-demo/extres/static/js/jquery-3.3.1.js:7819-7831 | the new class string lists the old names and then the missing ones, in order |
| ClassNames.AddClass | spring-boot-web-demo/extres/static/js/jquery-3.3.1.js:7805-7840 | every element in the set ends with its old names followed by the new ones, others are untouched; for a string, and for an array of names, the names afterwards are exactly those before and those given |
| ClassNames.RemoveAll | spring-boot-web-demo/extres/static/js/jquery-3.3.1.js:7869-7872 | the replacement loop terminates and leaves the names without any occurrence of the given one, in order |
| ClassNames.RemoveNames | spring-boot-web-demo/extres/static/js/jquery-3.3.1.js:7860-7876 | the new class string lists the names that remain, in order |
| ClassNames.RemoveClass | spring-boot-web-demo/extres/static/js/jquery-3.3.1.js:7842-7885 | every element in the set ends with the names not given; for a string, and for an array of names, the names afterwards are exactly those before that are not among those given |
| ClassNames.AddThenHas | spring-boot-web-demo/extres/static/js/jquery-3.3.1.js:7805-7885 | hasClass afterwards finds a name exactly if it was there or added, and exactly if it was there and not removed |
| ClassNames.EmptyNameMeansNone | spring-boot-web-demo/extres/static/js/jquery-3.3.1.js:7952-7956 | the search for the empty name succeeds exactly on elements without names |
| Lexer.Comma | spring-boot-web-demo/extres/static/js/jquery-3.3.1.js:2146-2153 | a comma starts a new group; one at the very end of the input is not consumed |
| Lexer.Combinators | spring-boot-web-demo/extres/static/js/jquery-3.3.1.js:2157-2166 | a combinator token takes the whitespace around it and bears its symbol, or a space if there is none |
| Lexer.Filters | spring-boot-web-demo/extres/static/js/jquery-3.3.1.js:2168-2180 | each filter type is tried once; what it matches is pushed and consumed |
| Lexer.Scan | spring-boot-web-demo/extres/static/js/jquery-3.3.1.js:2140-2185 | the loop terminates; commas, token values and the unconsumed rest concatenate to the input; for tags, classes and ids the groups are those of the grammar |
| Lexer.Tokenize | spring-boot-web-demo/extres/static/js/jquery-3.3.1.js:2187-2195 | the length of the unconsumed rest if only parsing, an error if something is left, else groups whose text, with the commas between them, is the selector; what is left begins with nothing that matches; every token's kind is told by its text: whitespace, one of > + ~ with whitespace around it, or what the filter type of that name matches; for tags, classes and ids the groups are those of the grammar and each value has the form of its kind |
| Lexer.ToSelectorLoop | spring-boot-web-demo/extres/static/js/jquery-3.3.1.js:2198-2206 | the concatenated token values |
| Lexer.FiltersExclude | spring-boot-web-demo/extres/static/js/jquery-3.3.1.js:2168-2180 | which filter matches is decided by the first character, so the order of trying does not matter |
| Lexer.NamesAreTokens | spring-boot-web-demo/extres/static/js/jquery-3.3.1.js:2168-2180 | a name is read as one tag, after a dot as one class, after a hash as one id, and `*` as a tag |
| Lexer.CombinationsAreRead | spring-boot-web-demo/extres/static/js/jquery-3.3.1.js:2157-2180 | two tags with one of > + ~ or one of the five whitespace characters between them are read as tag, combinator with that symbol (a space for whitespace), tag |
| Lexer.CommaIsRead | spring-boot-web-demo/extres/static/js/jquery-3.3.1.js:2146-2180 | two tags with a comma between them are two groups |
| Lexer.CommaFirst | spring-boot-web-demo/extres/static/js/jquery-3.3.1.js:2146-2166 | what becomes of a selector that begins with a comma: rejected on the spot if and only if no whitespace stands before it, else the whitespace is a group and what stands behind the comma is read as if alone, never accepted if nothing does |
| Lexer.CommaFirstAccepted | spring-boot-web-demo/extres/static/js/jquery-3.3.1.js:2146-2166 | such a selector is accepted if and only if whitespace stands before the comma and what stands behind it is there and accepted |
| Lexer.SpaceGroupIfLeading | spring-boot-web-demo/extres/static/js/jquery-3.3.1.js:2146-2166 | an accepted selector has a group of nothing but whitespace if and only if it begins with whitespace which a comma or the end follows |
| Lexer.SpaceBeforeComma | spring-boot-web-demo/extres/static/js/jquery-3.3.1.js:2146-2166 | the shortest such selector, a space, a comma and a tag, and its two groups |
| Lexer.RoundTrip | spring-boot-web-demo/extres/static/js/jquery-3.3.1.js:2131-2206 | tokenizing the text of any group that tokenize found gives that group and nothing else |
| Lexer.TokenizeAgain | spring-boot-web-demo/extres/static/js/jquery-3.3.1.js:2131-2206 | the same for the methods: tokenize(toSelector(g)) is [g] |
| AjaxConvert.LowercaseKeys | spring-boot-web-demo/extres/static/js/jquery-3.3.1.js:8714-8719 | looking a key up in the table gives the converter registered last under a key that is the same in lower case, and the table lists its keys in the order of their first registrations |
| AjaxConvert.CaseIsIgnored | spring-boot-web-demo/extres/static/js/jquery-3.3.1.js:8714-8719 | keys become the same exactly if they differ in capitals only, and no capital is left |
| AjaxConvert.LastRegistrationCounts | spring-boot-web-demo/extres/static/js/jquery-3.3.1.js:8714-8719 | a lookup after the assignments of the loop finds what a search of the registrations from the back finds |
| AjaxConvert.FirstRegistrationPlaces | spring-boot-web-demo/extres/static/js/jquery-3.3.1.js:8714-8719 | the keys stand in the order of their first registrations, which is what the search for a pair goes by |
| AjaxConvert.RouteIfChain | spring-boot-web-demo/extres/static/js/jquery-3.3.1.js:8748-8777 | the search fails exactly if there is neither a direct nor a wildcard converter nor a pair of registered ones |
| AjaxConvert.Seek | spring-boot-web-demo/extres/static/js/jquery-3.3.1.js:8748-8777 | what is found, and when the intermediate type is put back on the work list |
| AjaxConvert.AfterInsertion | spring-boot-web-demo/extres/static/js/jquery-3.3.1.js:8764-8773 | after inserting an intermediate type, the second converter of the pair is found as a direct one: the work list computes the composition |
| AjaxConvert.Convert | spring-boot-web-demo/extres/static/js/jquery-3.3.1.js:8707-8801 | terminates with at most two searches per requested type; the outcome is that of travelling the requested hops in order, the data filter applied first; the exception of a converter leaves only with `throws` and becomes a parsererror only without |
| AjaxConvert.SuccessIsComposition | spring-boot-web-demo/extres/static/js/jquery-3.3.1.js:8707-8801 | on success the data is the composition of registered converters, one or two per hop, equivalences as identity |
| AjaxConvert.OutcomeTells | spring-boot-web-demo/extres/static/js/jquery-3.3.1.js:8707-8801 | for any converters, exactly which of the four outcomes there is: the data that the chosen chains of all hops arrive at; or, at the first hop that does not go well, no chain; or a converter of the chosen chain throwing on the data that reaches it, which leaves as an exception with `throws` and is a parsererror without |
| AjaxConvert.ArrivesIsComposed | spring-boot-web-demo/extres/static/js/jquery-3.3.1.js:8779-8787 | what the chosen chains arrive at is a composition of registered converters |
| AjaxConvert.ConversionOutcome | spring-boot-web-demo/extres/static/js/jquery-3.3.1.js:8707-8801 | the four outcomes of a whole call, over the lower-cased table and the hops of its types, the data filter applied first and to successful responses only |
| AjaxConvert.ChosenChain | spring-boot-web-demo/extres/static/js/jquery-3.3.1.js:8748-8777 | a converter registered for just the two types is chosen before one from any type, that one before a pair, and of the pairs the one whose second converter was registered first |
| AjaxConvert.HopsSnoc | spring-boot-web-demo/extres/static/js/jquery-3.3.1.js:8735-8746 | each further type asks for one hop from the type before it, unless that is the same |
| AjaxConvert.HopsSkipAuto | spring-boot-web-demo/extres/static/js/jquery-3.3.1.js:8741-8746 | `*` among the types asks for nothing; after a response of any type the first type is taken as it is |
| AjaxConvert.LoneType | spring-boot-web-demo/extres/static/js/jquery-3.3.1.js:8721-8738 | with one type the outcome is the response, after the data filter |
| AjaxConvert.FailsIfNoChain | spring-boot-web-demo/extres/static/js/jquery-3.3.1.js:8779-8794 | if no converter throws, parsererror exactly if some hop has no chain |
| EventHandlers.HoldsAfterAdd | spring-boot-web-demo/extres/static/js/jquery-3.3.1.js:5052-5057 | adding keeps delegated handlers in front, each kind in registration order, with delegateCount as the boundary |
| EventHandlers.SpliceOut | spring-boot-web-demo/extres/static/js/jquery-3.3.1.js:5099-5118 | the backward splice removes exactly the handlers that meet the criteria and keeps delegateCount in step |
| EventHandlers.SurvivorsAreKept | spring-boot-web-demo/extres/static/js/jquery-3.3.1.js:5099-5118 | exactly which handlers of a list go: those of the type (unless all are meant), of the guid if there is one, with all the namespaces, and of the selector, where none means any and `**` any delegated one; the others keep their order |
| EventHandlers.HoldsAfterRemove | spring-boot-web-demo/extres/static/js/jquery-3.3.1.js:5099-5118 | removing keeps the shape of the list |
| EventHandlers.HoldsAll | spring-boot-web-demo/extres/static/js/jquery-3.3.1.js:5052-5057 | a list holds every registration as often as it was made, and a handler stands before delegateCount exactly if it has a selector |
| EventHandlers.ElementEvents.Add | spring-boot-web-demo/extres/static/js/jquery-3.3.1.js:4995-5061 | over any event types the lists hold the registrations in order of time, delegated first; one named type adds one registration, with the given type, guid, namespaces and selector, at the end of the list of the type it maps to, and changes nothing else |
| EventHandlers.ElementEvents.Remove | spring-boot-web-demo/extres/static/js/jquery-3.3.1.js:5077-5131 | the lists hold the survivors in order of time, delegated first, whatever the order in which an element's types are visited; for one named type exactly the handlers of that type, of the guid if one is given, with all the namespaces and of the selector (or delegated ones for `**`) are gone from its list, all others stay in order, and no other list changes; handlers of another guid than the given one stay as often as they were; for namespaces alone the same goes for every list under which some type of the element is kept, when mapped types map to themselves; empty lists go |
| EventHandlers.ElementEvents.RemoveAll | spring-boot-web-demo/extres/static/js/jquery-3.3.1.js:5085-5091 | a namespace alone visits every type once, in some order, and removes from the lists of those still there at their turn; when mapped types map to themselves these are all lists of the element |
| EventHandlers.VisitAllPurges | spring-boot-web-demo/extres/static/js/jquery-3.3.1.js:5085-5091 | in that case the order of the visits makes no difference |
| EventHandlers.MatchedAt | spring-boot-web-demo/extres/static/js/jquery-3.3.1.js:5228-5244 | the delegates matching an element, each selector looked up once |
| EventHandlers.MatchingKeepsOrder | spring-boot-web-demo/extres/static/js/jquery-3.3.1.js:5228-5244 | those that match are listed in their order and as often as they were registered |
| EventHandlers.DelegateHandlers | spring-boot-web-demo/extres/static/js/jquery-3.3.1.js:5223-5249 | the walk from the target up to the bound element, or, where that is not above, to the root and then to it |
| EventHandlers.Handlers | spring-boot-web-demo/extres/static/js/jquery-3.3.1.js:5203-5259 | the queue in terms of the registrations in order of time: matching delegates from the target upwards, the direct handlers last |
| EventHandlers.DelegationIsOnPath | spring-boot-web-demo/extres/static/js/jquery-3.3.1.js:5223-5249 | every delegated item is an element on the way, short of the bound element, not disabled under a click, innermost first, with exactly the delegates whose selector matches it |
| EventHandlers.DelegationIsComplete | spring-boot-web-demo/extres/static/js/jquery-3.3.1.js:5223-5249 | no eligible element on the way is left out |
| EventHandlers.DelegateRunsIfMatching | spring-boot-web-demo/extres/static/js/jquery-3.3.1.js:5223-5249 | a delegated handler is listed for an element if and only if that is an eligible element on the way which its selector matches |
| EventHandlers.QueueLists | spring-boot-web-demo/extres/static/js/jquery-3.3.1.js:5203-5259 | a registered handler is listed for an element if and only if it has no selector and that is the bound element, or its selector matches that element, which lies on the way, is not disabled under a click, and the event is no click with another button |
| EventHandlers.QueueIsInOrder | spring-boot-web-demo/extres/static/js/jquery-3.3.1.js:5203-5259 | elements on the way are listed from the innermost to the outermost, and the bound element comes last, exactly if some handler has no selector |
| RowKey.ReversedBits | hadoop-demo/src/main/java/com/at/hbase/RowKeyConverter.java:17-17 | Long.MAX_VALUE - t, read as unsigned 64 bits, is the exact difference for every 64-bit t, overflow or not |
| RowKey.LessIsByValue | hadoop-demo/src/main/java/com/at/hbase/RowKeyConverter.java:18-18 | unsigned lexicographic order of byte strings of one length is the order of the numbers they spell |
| RowKey.PutLong | hadoop-demo/src/main/java/com/at/hbase/RowKeyConverter.java:18-18 | eight bytes, most significant first, are written at the offset and nothing else changes |
| RowKey.PutBytes | hadoop-demo/src/main/java/com/at/hbase/RowKeyConverter.java:16-16 | the first twelve bytes are copied; a shorter id raises an exception |
| RowKey.MakeObservationRowKey | hadoop-demo/src/main/java/com/at/hbase/RowKeyConverter.java:14-21 | the array is the 20-byte key, or the call fails for an id under twelve bytes |
| RowKey.KeyOrder | hadoop-demo/src/main/java/com/at/hbase/RowKeyConverter.java:14-21 | keys are ordered by station id first and by descending time within one, for all 64-bit times, and equal only for equal ids and times |
| RowKey.StampOfKey | hadoop-demo/src/main/java/com/at/hbase/HBaseTemperatureQuery.java:49-49 | decoding a key recovers the time |
| TemperatureQuery.ReadRows | hadoop-demo/src/main/java/com/at/hbase/HBaseTemperatureQuery.java:42-52 | the loop reads at most maxCount rows and puts them into the map; a malformed row raises an exception |
| TemperatureQuery.ToIntOfBytes | hadoop-demo/src/main/java/com/at/hbase/HBaseTemperatureQuery.java:50-50 | every 32-bit integer, negative ones too, is read back from its big-endian two's complement bytes |
| TemperatureQuery.ToIntIsSigned | hadoop-demo/src/main/java/com/at/hbase/HBaseTemperatureQuery.java:50-50 | of any bytes, the first four make the number, the first of them with the sign |
| TemperatureQuery.GetStationObservations | hadoop-demo/src/main/java/com/at/hbase/HBaseTemperatureQuery.java:30-58 | the answer is what the rows from the start key on collect |
| TemperatureQuery.WantedAreTogether | hadoop-demo/src/main/java/com/at/hbase/HBaseTemperatureQuery.java:34-36 | in a table sorted by key the station's observations up to maxStamp are one run at the start of the scan, the latest first |
| TemperatureQuery.QueryFindsLatest | hadoop-demo/src/main/java/com/at/hbase/HBaseTemperatureQuery.java:30-58 | with enough observations, or none of a later station behind them, the answer holds exactly the latest ones with their temperatures |
| TemperatureQuery.ReadsOnlyTheStation | hadoop-demo/src/main/java/com/at/hbase/HBaseTemperatureQuery.java:36-45 | the rows read are all the station's if and only if it has maxCount observations or nothing follows them |
| TemperatureQuery.RightIfNoneMisleads | hadoop-demo/src/main/java/com/at/hbase/HBaseTemperatureQuery.java:30-58 | the answer is right, the latest observations with their temperatures and no others, if and only if every row read behind them that is not overwritten repeats the time and temperature of one of them |
| TemperatureQuery.NextStationLeaksIn | hadoop-demo/src/main/java/com/at/hbase/HBaseTemperatureQuery.java:36-45 | with fewer observations than asked for, the next station's are returned too, whatever the two 32-bit temperatures are |
| TemperatureQuery.IdIsTruncated | hadoop-demo/src/main/java/com/at/hbase/RowKeyConverter.java:16-16 | bytes of the station id after the twelfth make no difference |

## Left out

- Filters other than tag, class, id and `:not`: attribute, pseudo and child filters are traits of a node, named by their text, except `:nth-last-child`, whose answer depends on the run and which selectors here do not contain; quoted arguments, CSS escapes and full regular expressions are not modelled.
- Engine.Sizzle.Match: XML documents, which have no caches, the `skip` case of `legend` and contexts that are arrays of nodes are not modelled; `dirruns` is a counter, where a nested run of the source adds a random fraction that only should be unique.
- Engine.Sizzle.Compile: the token and compiler caches are not modelled; they hand out what was computed for the same text.
- Select.Select: selectors with `:nth-last-child` are excluded, as its answer is not a function of the element; calls with a seed from the caller and compiled selectors passed as functions are left out, as are native `querySelectorAll` shortcuts; whether the selector's text looks positional is a parameter.
- Select.Find: getElementById is the first element with that id; the fallbacks for old browsers are not modelled.
- SetMatcher.Run: set matchers without a seed and postFinder, which query the document again, are not modelled.
- SuperMatcher.Filter: the unseeded use of set matchers with its final sort is not modelled; element matchers are pure functions there, which `Engine` justifies.
- PositionalGroups.UnionIfUndisturbed: positional pseudos behind a positional pseudo (`:even:first`) are not among the groups it speaks of.
- DocumentOrder.Sorter.UniqueSort: takes the native sort's comparisons and the order it arrives at as arguments; how it arrives at it is the platform's part.
- DocumentOrder.Sorter.SortOrder: nodes of one document only; disconnected nodes and the native compareDocumentPosition are left out, and the flag for duplicate detection is as the browser sets it.
- NthChild.Siblings.Forward: the simple forms (`:first-child`, `:last-child`, `:only-child`) and the shortcut for `n` keep no state and are left out.
- CallbackLists.RemoveKeeps: empty(), stopOnFalse, callbacks that throw and disable() of a list that is firing are not modelled; they break off a pass.
- Deferred.World.Call: contexts and multiple arguments are one opaque value; jQuery.extend of promises and exceptionHook are left out; user code can remove from, lock and fire plain lists, while a Deferred hands out only add and fireWith.
- Then.Derived.Process: progress handlers, substituted contexts and the delay of the depth-0 call are not modelled; the handler's completion is given.
- When.Master.When: calls with at most one argument, which go through then(), and resolveContexts are not modelled.
- ClassNames.AddClass: names that contain whitespace (possible in arrays) run through the same loops, but nothing is claimed for them; function arguments and toggleClass are left out.
- Lexer.Scan: other filter types are functions that say how much they match; the round trip is for tags, classes and ids without escapes; captured groups and the token cache are left out.
- AjaxConvert.Convert: responseFields, the text of error messages and registered converters that are false are not modelled; lower-casing is that of the ASCII letters.
- EventHandlers.ElementEvents.Remove: setup and teardown hooks, event data and guid assignment are left out; the namespace expression is the test that all names occur; the order in which the types of an element are visited is left open.
- EventHandlers.Handlers: whether a selector matches a node is a parameter.
- TemperatureQuery.GetStationObservations: the table is a sequence of rows with the queried column, sorted by key; connections, scanner resources and the encoding of station ids as bytes are left out.
- Other code of the repository (web, cloud, logging and crypto demos, the remaining Hadoop jobs) is wiring over libraries, and the rest of jQuery is effects on the browser.
