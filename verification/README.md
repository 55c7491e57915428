# Verified models of skill-verdict

Dafny models of the parts of skill-verdict whose correctness rests on state, arithmetic or
agreement between separate pieces of code, with proofs over every input, every schedule and
every run. `dafny verify dfyconfig.toml` checks all of them.

- `Pacer.dfy`, `Outcomes.dfy`: paced, retried and replayed HTTP requests as a protocol of program
  counters; one action is one step of one request, the clock, or a cancellation. What a request
  returns and when it tries again is read from the log of what happened.
- `Refs.dfy`, `Coordinator.dfy`: references, their merging, and the two waves of workers.
- `CodeProgram.dfy`, `Origins.dfy`, `Flow.dfy`, `Visits.dfy`, `Shapes.dfy`, `Tracer.dfy`: lowered
  code and the value tracer with its budget, depth limit and visited set; `TraceCases.dfy` and `SiteCases.dfy`
  hold three programs it stops short on.
- `CleanText.dfy`, `Lines.dfy`, `Texts.dfy`: clean text, its shift list and hits, and line numbers.
- `SyntaxRows.dfy`, `SyntaxTree.dfy`: the wire format of syntax trees and its name table.
- `DecisionTable.dfy`, `DecisionEngine.dfy`, `Batching.dfy`: outcome tables, the worst case over
  all combinations, and the batched questions.
- `Judge.dfy`: the judge store, the agent loop that drives it, and the update of the findings.
- `Fences.dfy`: the three scanners for fenced code and the heading stack.
- `Typosquat.dfy`, `Symlinks.dfy`: edit distance and the resolution of symbolic links.

Code that updates state is a class or a method with its loops, proved against a function or a
predicate on values; the theorems are lemmas about those. Clocks, networks, models, schedulers
and Unicode tables are parameters or free choices, so a theorem holds whatever they do.

Some properties hold only under a condition, and then the condition is proved exact:

- Rebuilding a syntax tree is the inverse of flattening it exactly below depth 2^29
  (`SyntaxTree.WireRebuildsIffShallow`).
- Clean and written line numbers agree exactly when no folding writes a newline
  (`CleanText.LinesAgreeIff`).
- The table check separates conflicting rows exactly when the confirm and dismiss thresholds add
  to more than one (`DecisionTable.SeparatingIff`); with a repeated option it does not, as an
  accepted table shows (`DecisionTable.RepeatedOptionDefeatsCheck`), and
  `DecisionTable.BothCanMatchIff` says when.
- The three fence scanners agree when they start on the same line (`Fences.ScannersAgree`); a body
  read from the line after its frontmatter agrees exactly when no fence is open there
  (`Fences.BodyAgreesIff`, and `Fences.FenceInFrontmatter` for a text where one is).
- A listed package name is reported exactly when a near name is listed before it
  (`Typosquat.ListedNameReported`), as uvicorn is after gunicorn (`Typosquat.UvicornReported`).
- A path with symbolic links is walked to its end exactly when a 41st link would not have been
  followed (`Symlinks.UncutWalk`); then it is resolved (`Symlinks.WalkSettled`), and when nothing
  goes up with ".." only then (`Symlinks.SettledIff`). A link to itself is not
  (`Symlinks.SelfLink`).
- An unmarked trace follows a span of a visit into the calls that take it unless an earlier span
  has the same innermost call. Those spans `flow` skips: without two calls of one size at a span
  exactly those (`Flow.SkippedIff`). In `f(a, a)` the second parameter is not entered and the trace
  is not marked (`TraceCases.TraceTwice`).
- What a function of a plain name (see below) returns is followed from a listed call exactly when no
  earlier listed call is in the same statement (`Visits.SiteVisitIff`): `returned` remembers the
  statement and the name only. In `g(f(), h(f()))` the function `h` is not entered and the trace is not marked
  (`SiteCases.TraceNested`).
- The origins of a call under the depth limit are those under every larger limit exactly when no
  chain of back-steps goes on past it, which leaves no mark (`Origins.FedByCompleteIff`): seven
  definitions in a row are shown, of eight one is cut (`TraceCases.TraceRow`). A parameter has the
  origins of its three listed call sites under every limit.

Nothing in a trace comes from what is skipped: `Tracing.Trace` keeps every trace inside each region
that leaves it out. One condition is sufficient and not exact. Visited keys are told apart by
statement and name, and a key stands for one visit when its name is plain, that is no function has
the name of a variable or parameter, and no shell variable that of a parameter (`Visits.Plain`,
`Visits.OneVisit`); then an unmarked trace followed every visit of its keys (`Visits.EveryVisit`). A function and a variable
of one name in one statement are two visits of one key (`Visits.ClashingNames`), of which an unmarked
trace is only proved to have followed one.

## Model

| member | source | states |
|---|---|---|
| Pacer.RunKeepsPromises | pkg/internal/refcheck/pace.go:68-120 | In every interleaving of requests, clock ticks, cancellations and network answers: at most `slots` attempts in flight, at most one per host, each attempt on a host at least `delay` after the last one there ended, none on a closed host, none for a URL whose answer is kept, each URL kept once, every replay kept before and received before that, at most one attempt more than there are retry delays |
| Outcomes.RunReturns | pkg/internal/refcheck/pace.go:68-99 | In every interleaving what a finished request returned is justified by the log: a replay by an answer kept for its URL, without any attempt; an answer by being the last one it got, good or a server error after all tries, and kept when it is a small good one; a rate limit by the host being closed, before any attempt or by its own last try; a failure by a network error at the last try, a cancellation or an answer that could not be read |
| Outcomes.RunRetriesInOrder | pkg/internal/refcheck/pace.go:82-98 | Every attempt of a request is its first, or comes after one that was limited, failed or got a server error, not before the delay for that retry, while tries are left and everything was read |
| Outcomes.BadMeansAllTries | pkg/internal/refcheck/pace.go:82-98 | When a request has returned and its last attempt was limited, failed or got a server error, all tries were made, unless it was cancelled or an answer could not be read |
| Pacer.OneHolder | pkg/internal/refcheck/pace.go:72-75 | In every reachable state two requests that are past the lock of the same host are the same request |
| Pacer.NoDeadlock | pkg/internal/refcheck/pace.go:68-120 | From every reachable state and for every unfinished request there is a request that can take a step of its own, at worst after the clock moves on: itself, the holder of the lock it waits for, or, when all slots are taken, an attempt whose answer can end it |
| Pacer.HolderSteps | pkg/internal/refcheck/pace.go:101-118 | Whoever holds a host lock can itself act, or else waits for a slot while all are taken and some attempt in a slot can end |
| Pacer.SlotHolderEnds | pkg/internal/refcheck/pace.go:101-118 | A request inside the slot region waits for no lock: every answer of the network can end its attempt and free the slot |
| Pacer.RunsAreShort | pkg/internal/refcheck/pace.go:82-98 | No run has more than six steps for each retry delay and nine more, for each request, however long the clock runs |
| Pacer.EveryRunCanFinish | pkg/internal/refcheck/pace.go:68-99 | However a run went, it can be continued until every request has returned |
| Pacer.ActionInv | pkg/internal/refcheck/pace.go:68-120 | Every action of every request, the clock and every cancellation keep the state invariant that ties program counters, locks, slots, ready times, closed marks and answers to the log |
| Pacer.StartAdmissible | pkg/internal/refcheck/pace.go:101-111 | When a request takes a slot, its host is idle, rested and open, no answer is kept for its URL and it has tries left |
| Pacer.KeepAdmissible | pkg/internal/refcheck/replay.go:43-63 | An answer is kept only while the lock of its host is held, when none is kept yet, and only a small 2xx or 404 answer that was received |
| Pacer.KeepInv | pkg/internal/refcheck/replay.go:43-63 | Writing an answer keeps the invariant: the only write to the answers, under the lock of its host, of an answer that was received |
| Pacer.LookAgainInv | pkg/internal/refcheck/pace.go:73-81 | The second look under the lock keeps the invariant, whether it replays, refuses a closed host or goes on |
| Refs.KeyInjective | pkg/refs/refs.go:43-45 | Two references with the same key have the same kind and the same value |
| Refs.AddKeepsDistinct | pkg/internal/refcheck/runner.go:84-103 | Adding references keeps one entry per key, and leaves listed ones in place with their value, kind and mark, only gaining locations and URLs at the end |
| Refs.AddLosesNothing | pkg/internal/refcheck/runner.go:84-103 | Every added reference is listed under its key with all its locations and URLs |
| Refs.AddInventsNothing | pkg/internal/refcheck/runner.go:84-103 | Every key, and every location listed for a key, was listed before or is one of an added reference with that key |
| Coordination.Coordinator.Add | pkg/internal/refcheck/runner.go:84-103 | The report list follows the reference-level merge, the index agrees with it, new reports are not checked, old ones change only in their reference |
| Coordination.Coordinator.Derived | pkg/internal/refcheck/runner.go:105-113 | The references derived from all reports, each at the locations of the reference it was found from |
| Coordination.DerivedIff | pkg/internal/refcheck/runner.go:105-113 | Exactly what some report derives is listed, marked as derived, at all locations of the reference it comes from |
| Coordination.Coordinator.Collected | pkg/internal/refcheck/runner.go:147-153 | Starting a job: a budget mark when the context is done, else one call of a collector for the reference, for a key never collected before |
| Coordination.Coordinator.Written | pkg/internal/refcheck/runner.go:154-160 | Ending a job: a failure once the context is done becomes a budget mark; the report keeps its reference and no other report changes |
| Coordination.Coordinator.Pending | pkg/internal/refcheck/runner.go:121-128 | Of the reports from an index on, those below the limit are pending in order and the others are marked "cap" |
| Coordination.Coordinator.HandOut | pkg/internal/refcheck/runner.go:129-144 | In any schedule of workers and any end of the budget, each pending report is handled by exactly one worker, no other report changes, and the hand-off always terminates |
| Coordination.Coordinator.Wave | pkg/internal/refcheck/runner.go:115-145 | One wave: reports before it untouched, those below the limit settled by one worker each, the rest capped, the callback called when the limit is first exceeded |
| Coordination.Coordinator.Run | pkg/internal/refcheck/runner.go:35-48 | Over both waves: each report below the limit handled once, each key collected at most once and only below the limit, each report at or past it not checked with "cap", references exactly those extracted and those derived from the first wave, nothing from the second wave followed, the callback called once if there are too many reports and else never |
| Coordination.TakeKeeps | pkg/internal/refcheck/runner.go:135-141 | Handing a job to a worker keeps the count of jobs held and done equal to the jobs handed out |
| Coordination.WriteKeeps | pkg/internal/refcheck/runner.go:147-160 | Writing a report keeps every other job in hand and every settled report settled |
| Tracing.Trace | pkg/internal/trace/forward.go:46-61 | For every program and subject: the trace ends, has at most 81 nodes, numbers its calls 1, 2, ... in preorder, shows the call it numbers, and visits nothing outside any region the value cannot leave, where a span whose innermost call an earlier span has, and a call that is not the first listed one of its statement, are not followed; when not marked every visited statement is closed under uses and (three) call sites, and some visit of its key was followed, for plain names every visit, where each span that shares its innermost call with no earlier span of the visit went into every call that takes it; each node feeds what its value goes to next, a call the parameter inside the function called and then the next call of its chain or, if it is the outermost, what its statement binds and returns to, a name what comes from the statements that use it; every call's origins are exactly the depth-limited ones; the trace of a call is marked exactly when its origins take more than 80 lookups, and a trace whose region is small is not marked |
| Tracing.Tracer.Run | pkg/internal/trace/forward.go:46-61 | Budget spent equals the nodes made plus the origins looked up (the subject's own call is free), the mark is set exactly when a spend or a depth check was refused |
| Tracing.Tracer.FlowFrom | pkg/internal/trace/forward.go:97-116 | Ends by unvisited keys, not by depth; unless marked, the statement is closed and each span whose innermost call no earlier span has was followed into every call that takes it; a span whose only innermost call is that of an earlier one is followed nowhere; and a walk that can be afforded is not marked |
| Flow.SkippedIff | pkg/internal/trace/forward.go:97-116 | When no two calls of one size take a span, a span is skipped if and only if it is not alone, that is its innermost call is that of an earlier span |
| TraceCases.TraceTwice | pkg/internal/trace/forward.go:97-116 | The trace of the value of a in f(a, a) is not marked and visits the use of the first parameter, but never that of the second, which is given the value too |
| Visits.SiteVisitIff | pkg/internal/trace/forward.go:162-171 | Of the listed calls of a function of a plain name exactly the first one of each statement is a visit |
| SiteCases.TraceNested | pkg/internal/trace/forward.go:162-171 | The trace of what f returns in g(f(), h(f())) is not marked and follows the first call of f into g, but never enters h, though the second call is listed and alone in h |
| Visits.OneVisit | pkg/internal/trace/forward.go:162-224 | When arguments and parameters are apart, a visited key whose name is plain, that is no function with the name of a variable or parameter and no variable with that of a shell parameter, stands for one visit only |
| Visits.EveryVisit | pkg/internal/trace/forward.go:162-224 | An explored key of a plain name was followed at every visit it can have |
| Visits.ClashingNames | pkg/internal/trace/forward.go:162-187 | A function and a variable of one name that are both used in one statement give one key two different visits |
| Tracing.AffordVisit | pkg/internal/trace/forward.go:97-116 | In a light region every visit is paid for by its key, so that neither the budget nor the depth runs out while there is enough for the keys left |
| Tracing.Tracer.Chain | pkg/internal/trace/forward.go:118-140 | At most one tree comes back; unless marked, it is the chain: each call feeds the parameter inside its function and then, last, the next call, the outermost call ends with the nodes of the bound names, every call was entered and the statement is closed |
| Tracing.Tracer.CallAndInto | pkg/internal/trace/forward.go:120-127 | One paid call node with what it feeds inside the function it names, or nothing and a mark |
| Tracing.Tracer.Bound | pkg/internal/trace/forward.go:149-160 | Unless marked, every user of every bound name and every listed caller is visited, and the last nodes are the bound names in order |
| Tracing.Tracer.Returned | pkg/internal/trace/forward.go:162-171 | Unless marked, the statements of the first three call sites are visited, with no depth check; for a function of a plain name the first listed call of each newly visited statement was followed into the calls that take it |
| Tracing.Tracer.Follow | pkg/internal/trace/forward.go:173-187 | Unless marked, all users of the name are visited |
| Tracing.Tracer.Into | pkg/internal/trace/forward.go:199-224 | Unless marked, the value given to parameters is followed to every use of them in the body; one node for the first parameter |
| Tracing.Tracer.Elsewhere | pkg/internal/trace/forward.go:63-71 | Unless marked, the users of every all-capitals name under the subject are visited |
| Tracing.Tracer.Spend | pkg/internal/trace/forward.go:73-80 | A spend is granted exactly while budget is left, else it sets the mark |
| Tracing.Tracer.Deep | pkg/internal/trace/forward.go:89-95 | A depth above six is refused and sets the mark |
| Tracing.WholeEncloses | pkg/internal/trace/forward.go:97-224 | There is always a region the value cannot leave: all statements with all names |
| Tracing.Steps | pkg/internal/trace/forward.go:97-224 | Walking one part after another adds up: budget, numbers, marks and explored keys |
| Flow.LinkCounts | pkg/internal/trace/forward.go:120-138 | Chaining call nodes, each feeding the next, keeps the count and the preorder of the calls |
| Shapes.LinkShape | pkg/internal/trace/forward.go:128-138 | Linking the nodes of a chain makes one tree in which each call has the next one as its last child and the last one ends with what the statement binds |
| Shapes.ShownReturned | pkg/internal/trace/forward.go:149-171 | What comes from the callers of a function comes from each statement that returns from it |
| Tracing.Tracer.Origin | pkg/internal/trace/backward.go:52-73 | Ends by depth; a source exactly for names that are neither imported nor functions; unless marked, the depth-limited unfolding of definitions, parameters and call sites; the budget shrinks by the lookups of that unfolding, and is too small exactly when it is less than them |
| Tracing.Tracer.Sources | pkg/internal/trace/backward.go:37-50 | Unless marked, one source per name of the expression as the unfolding says |
| Tracing.Tracer.Passed | pkg/internal/trace/backward.go:75-85 | Unless marked, what the call site passes for the parameter, by its argument or else a spread one |
| Tracing.Tracer.FedBy | pkg/internal/trace/backward.go:20-35 | Unless marked, the origins of the receiver and of each argument in order; it is refused exactly when the budget is less than the lookups of these origins |
| TraceCases.TraceRow | pkg/internal/trace/backward.go:52-73 | For a call that takes the last of n definitions in a row the trace is never marked, and shows what every larger limit shows if and only if n is at most seven: from eight definitions on it is cut |
| TraceCases.RowCompleteIff | pkg/internal/trace/backward.go:52-73 | With n definitions in a row a depth limit shows what any larger one shows if and only if n is at most one more than it |
| Origins.BranchesAreBackSteps | pkg/internal/trace/backward.go:52-85 | The branches of the tree of an origin are exactly the chains of back-steps, from a name to one in its definition or from a parameter to one that a call site passes, of at most as many names as the limit allows |
| Origins.FedByCompleteIff | pkg/internal/trace/backward.go:20-73 | The origins of a call, through at most three listed call sites of a parameter, equal those under every larger depth limit if and only if no chain of back-steps from its receiver or arguments reaches, one step past the limit, a name that goes on |
| Origins.SameOriginIff | pkg/internal/trace/backward.go:52-73 | A larger limit shows the same origin if and only if no chain of back-steps as long as the limit reaches a name that goes on |
| Origins.SourcesAreOrigins | pkg/internal/trace/backward.go:37-50 | Each source of an expression is the origin of a name in it, and no name has two |
| Origins.SourcesCover | pkg/internal/trace/backward.go:37-50 | Every looked up name of an expression has its origin among the sources |
| CodeProgram.Users | pkg/internal/trace/program.go:149-163 | Exactly the statements that use the name as visible from its definition, in program order |
| CodeProgram.Local | pkg/internal/trace/program.go:190-202 | The last visible binding above, or if there is none the first visible one at the top level |
| CodeProgram.LocalIs | pkg/internal/trace/program.go:190-202 | The recurrence behind the search picks the last binding above or else the first one |
| CodeProgram.Definition | pkg/internal/trace/program.go:173-188 | The local definition, or the first top-level one in another unit that shares the name |
| CodeProgram.UsesIffDefined | pkg/internal/trace/program.go:149-202 | The walks forward and backward agree: of a name with one binding, not imported, a statement that refers to it is a user exactly when the binding is its definition there |
| CodeProgram.Param | pkg/internal/trace/program.go:208-215 | The innermost function around that has the parameter, and its index |
| CodeProgram.CallSites | pkg/internal/trace/program.go:225-240 | The first three calls of a named function in program order |
| CodeProgram.Argument | pkg/internal/trace/program.go:242-259 | The first argument that fits a parameter, by name or by its place among the unnamed ones |
| CodeProgram.Consumers | pkg/internal/trace/program.go:122-131 | The calls with an argument at the span, each once, smallest span first |
| CodeProgram.FilterAppend | pkg/internal/trace/program.go:149-163 | Selecting from units one after another selects from the whole program |
| CleanText.Normalize | pkg/internal/layers/reveal/normalize.go:61-78 | For every text, after the loop the clean bytes, the shift list and the hits are what their per-rune definitions say, whatever the Unicode tables |
| CleanText.Pass.Step | pkg/internal/layers/reveal/normalize.go:61-78 | One rune keeps clean text, shifts, hits and word cache exact |
| CleanText.Pass.Mark | pkg/internal/layers/reveal/normalize.go:91-99 | Adding a shift only when the offset changes keeps the list rising and gives the next clean byte its origin |
| CleanText.Pass.Write | pkg/internal/layers/reveal/normalize.go:80-89 | A rune written verbatim maps byte for byte, any other text to the start of its rune |
| CleanText.Pass.Expand | pkg/internal/layers/reveal/normalize.go:101-112 | A rune outside ASCII is swapped, folded or copied as its word says |
| CleanText.ForeignLetter | pkg/internal/layers/reveal/normalize.go:101-172 | A foreign letter is written as the ASCII it reads as, and flagged, exactly when its word has a Latin letter and all its foreign letters read as ASCII; else it is only folded |
| CleanText.MappedOne | pkg/internal/layers/reveal/normalize.go:134-147 | A rune with a look-alike is mapped to it, any other to itself |
| CleanText.MappedJoin | pkg/internal/layers/reveal/normalize.go:134-147 | Runes are mapped one by one |
| CleanText.AsciiStays | pkg/internal/layers/reveal/normalize.go:61-78 | ASCII text without control characters stays as it is and nothing in it is flagged |
| CleanText.DroppedRune | pkg/internal/layers/reveal/normalize.go:61-78 | A dropped rune is not written, and flagged exactly when the runes kept next to it are letters or digits |
| CleanText.Pass.Swap | pkg/internal/layers/reveal/normalize.go:114-124 | The word cache answers as if word start, word end and look-alike were looked up again at every letter |
| CleanText.Pass.SameWord | pkg/internal/layers/reveal/normalize.go:174-198 | All letters of a word have the same word start and end |
| CleanText.Pass.WordStart | pkg/internal/layers/reveal/normalize.go:174-187 | The start of the word run, past an escaped rune |
| CleanText.Pass.WordEnd | pkg/internal/layers/reveal/normalize.go:189-198 | The end of the word run |
| CleanText.Pass.Lookalike | pkg/internal/layers/reveal/normalize.go:159-172 | Whether a word mixes look-alike letters into Latin ones |
| CleanText.GrowOrAppend | pkg/internal/layers/reveal/normalize.go:126-132 | Hits stay ordered, disjoint and merged, and cover exactly the flagged runes |
| CleanText.VerbatimBytes | pkg/internal/layers/reveal/normalize.go:61-99 | Each clean byte comes from a written byte: the same byte of a rune copied verbatim, the first byte of any other |
| CleanText.OriginsRise | pkg/internal/layers/reveal/normalize.go:61-99 | Origins never decrease |
| CleanText.Source | pkg/internal/inventory/artifact.go:97-103 | Binary search over the shifts gives the offset by the last shift at or before the byte |
| CleanText.SourceOfEnd | pkg/internal/inventory/artifact.go:97-103 | One past the last clean byte maps to one past the origin of that byte |
| CleanText.SpanInside | pkg/internal/layers/static/static.go:168-169 | A non-empty match in the clean text maps to a non-empty span inside the written file |
| CleanText.Locate | pkg/internal/layers/static/static.go:156-172 | Span and lines of a match past a leading newline: through the shifts, with lines counted in the written text; nothing exactly when the scope, exclusion and self tests on its clean row and span say so |
| CleanText.RevealedInside | pkg/internal/layers/static/static.go:156-172 | For a text that was revealed, cleaned or not, every clean offset maps inside the written file |
| CleanText.LinesAgreeIff | pkg/internal/layers/static/static.go:161-170 | The line of every clean offset equals the line of its source if and only if no folding wrote a newline |
| CleanText.Reveal | pkg/internal/layers/reveal/reveal.go:54-64 | The clean text is kept only when it differs; otherwise offsets map to themselves |
| LineIndex.Search | pkg/internal/textutil/lines.go:30-32 | Binary search finds the least index at which a monotone test holds |
| LineIndex.LineStarts | pkg/internal/textutil/lines.go:20-28 | The starts of all lines |
| LineIndex.StartsExact | pkg/internal/textutil/lines.go:20-28 | Line starts rise, and the i-th is at or before an offset exactly when at least i newlines are before it |
| LineIndex.LineOf | pkg/internal/textutil/lines.go:20-32 | The line found is one plus the newlines before the offset |
| SyntaxRows.Flatten | pkg/internal/syntax/shim/shim.c:34-71 | The cursor walk writes the packed preorder of the tree, cut where the buffer could no longer grow |
| SyntaxRows.Climb | pkg/internal/syntax/shim/shim.c:60-66 | Moves to the next row of the preorder, or finds there is none |
| SyntaxRows.EntriesInjective | pkg/internal/syntax/shim/shim.c:34-71 | A preorder with depths determines its tree |
| SyntaxRows.UnpackPack | pkg/internal/syntax/shim/shim.c:53 | Packing a row loses nothing but the depth above 29 bits |
| SyntaxTree.WriteNames | pkg/internal/syntax/shim/shim.c:96-107 | The measuring pass gives the size the writing pass fills, with exactly the name table |
| SyntaxTree.AppendName | pkg/internal/syntax/shim/shim.c:89-94 | Writes one terminated name after the table so far, or only measures it |
| SyntaxTree.Build | pkg/internal/syntax/tree.go:107-133 | For arbitrary bytes the stack is never cut out of range, and the preorder of the tree on the heap is exactly the rows kept, with names looked up; whatever is rebuilt from fewer of the bytes is a prefix of it |
| SyntaxTree.Push | pkg/internal/syntax/tree.go:117-131 | A kept row becomes the last child of the open node above it |
| SyntaxRows.RoundTripIffShallow | pkg/internal/syntax/tree.go:107-133 | The rows of a tree are read back as that tree if and only if its depth is below 2^29 |
| SyntaxTree.WireRebuildsIffShallow | pkg/internal/syntax/tree.go:107-133 | Flattening to bytes and rebuilding gives the same tree with its names if and only if its depth is below 2^29 |
| SyntaxRows.PrefixKept | pkg/internal/syntax/tree.go:107-133 | The first rows of a shallow tree are read back as the first entries of that tree |
| SyntaxRows.CutRowsKept | pkg/internal/syntax/tree.go:107-133 | For arbitrary rows, what is kept of the first ones is a prefix of what is kept of all |
| SyntaxTree.CutBytesRebuilt | pkg/internal/syntax/tree.go:107-133 | For arbitrary bytes cut at any length, the rebuilt preorder is a prefix of that of all bytes |
| SyntaxTree.CutTreeIsPrefix | pkg/internal/syntax/tree.go:107-133 | The tree built from bytes cut at any length has the same root entry as that of all bytes, and its preorder is a prefix |
| SyntaxTree.WireRoundTrip | pkg/internal/syntax/tree.go:107-116 | Row bytes are read back as the rows written |
| SyntaxTree.NamesRoundTrip | pkg/internal/syntax/tree.go:73-91 | The name table written is parsed back to the same names, with the empty first field |
| SyntaxTree.NodesComeBack | pkg/internal/syntax/tree.go:60-133 | From the rows and the name table as written, each node of a shallow tree comes back with the names of its symbol and field, its span and its flags |
| Typosquat.Levenshtein | pkg/internal/refcheck/typosquat.go:65-84 | The two-row loop computes the edit distance |
| Typosquat.DistanceIsFewestEdits | pkg/internal/refcheck/typosquat.go:65-84 | That distance is the fewest insertions, deletions and replacements over all edit walks |
| Typosquat.NoWalkIsShorter | pkg/internal/refcheck/typosquat.go:65-84 | No edit walk is shorter than the distance |
| Typosquat.ShortestWalk | pkg/internal/refcheck/typosquat.go:65-84 | Some edit walk has exactly the distance |
| Typosquat.EditMovesByOne | pkg/internal/refcheck/typosquat.go:65-84 | One edit moves the distance to any string by at most one |
| Typosquat.FilterLosesNoMatch | pkg/internal/refcheck/typosquat.go:54-58 | The length filter skips only names at distance above two |
| Typosquat.Search | pkg/internal/refcheck/typosquat.go:45-63 | Reports the first listed near name unless the name itself is listed first; nothing for short names |
| Typosquat.ListedNameReported | pkg/internal/refcheck/typosquat.go:45-63 | For a listed name the search reports something if and only if the name has three bytes or more and another near name is listed before it |
| Typosquat.UvicornReported | pkg/internal/refcheck/typosquat.go:45-63 | In a list with gunicorn before uvicorn the listed name uvicorn is reported |
| DecisionTable.Validate | pkg/rules/decision.go:204-220 | Accepts a table if and only if every row names known questions and options, levels are lower than the rule's, and no two conflicting rows overlap; a rejection names what is wrong with it |
| DecisionTable.AcceptedIff | pkg/rules/decision.go:193-293 | Read from the table itself: levels above none and below the rule's, every row of questions and options that are known and not empty, and no two rows that confirm, lower or dismiss differently with the same questions and an answer to each in common |
| DecisionTable.OverlapSameQuestions | pkg/rules/decision.go:282-293 | Rows overlap if and only if they ask the same questions and share an option for each |
| DecisionTable.OverlapIsExact | pkg/rules/decision.go:282-293 | For conflicting rows without repeated options over the same questions, with thresholds adding to more than one, the check refuses exactly the pairs that can both match |
| DecisionTable.AcceptedRowsExclude | pkg/rules/decision.go:204-229 | In an accepted table two conflicting rows over the same questions never both match one combination |
| DecisionTable.BothCanMatchIff | pkg/rules/decision.go:282-293 | Two rows over the same questions can both match some replies if and only if each question leaves room for both thresholds, counting repeated options |
| DecisionTable.SeparatingIff | pkg/config/validate.go:193-202 | The rows the check lets through exclude each other if and only if the confirm and dismiss thresholds add to more than one |
| DecisionTable.RepeatedOptionDefeatsCheck | pkg/rules/decision.go:282-293 | A whole table with a repeated option that is accepted, though two conflicting rows of it can both match some replies at valid thresholds |
| DecisionTable.SumMass | pkg/internal/layers/decision/engine.go:240-246 | The mass of a row's options for one question, repeated ones counted again |
| DecisionTable.UnansweredNeverMatches | pkg/internal/layers/decision/engine.go:207-222 | A row naming an unanswered question never matches while its threshold is positive |
| DecisionEngine.Combinations | pkg/internal/layers/decision/engine.go:149-175 | The nested loops enumerate the product of the instances |
| DecisionEngine.CombinationHolds | pkg/internal/layers/decision/engine.go:149-175 | A question is in a combination exactly when some instance of its choice replies to it, with the reply of the last one that does, and with its place when its subject has more than one instance |
| DecisionEngine.GroupsInOrder | pkg/internal/layers/decision/engine.go:149-162 | The groups are the evidence of the subjects, each once, in the order of their names |
| DecisionEngine.EveryChoiceEnumerated | pkg/internal/layers/decision/engine.go:149-175 | Every choice of one instance per subject is enumerated, at its own place |
| DecisionEngine.EveryPlaceChosen | pkg/internal/layers/decision/engine.go:149-175 | Every place of the enumeration belongs to a choice |
| DecisionEngine.PlacesDiffer | pkg/internal/layers/decision/engine.go:149-175 | Different choices have different places, so each is enumerated once |
| DecisionEngine.ComboCount | pkg/internal/layers/decision/engine.go:149-162 | As many combinations as choices, and none exactly when a subject has no instance |
| DecisionEngine.DecideAll | pkg/internal/layers/decision/engine.go:122-136 | The loop computes the aggregate over all combinations |
| DecisionEngine.WorstIsMaximum | pkg/internal/layers/decision/engine.go:122-147 | The aggregate is the outcome of some combination and no combination ranks higher; among equal ranks below a confirmation its match is the weakest |
| DecisionEngine.RankDetermines | pkg/internal/layers/decision/engine.go:138-147 | A rank determines the result and the severity |
| DecisionEngine.RankOrders | pkg/internal/layers/decision/engine.go:138-147 | Outcomes rank from the mildest on: misfire, dismissal, lowerings by level, keeping, confirming |
| DecisionEngine.OrderIrrelevant | pkg/internal/layers/decision/engine.go:122-175 | The aggregate result and severity do not depend on the order of the instances |
| DecisionEngine.MoreIsNoMilder | pkg/internal/layers/decision/engine.go:122-175 | Adding a place to a subject that already has one never makes the outcome milder |
| DecisionEngine.EmptySubjectKeeps | pkg/internal/layers/decision/engine.go:122-136 | A subject without instances keeps the finding |
| DecisionEngine.DecideFacts | pkg/internal/layers/decision/engine.go:177-196 | Without downgrading a combination confirms or keeps; misfires come only from misfire rows; confirmations exactly from confirm rows |
| DecisionEngine.DecideIff | pkg/internal/layers/decision/engine.go:177-196 | A combination misfires, confirms, lowers or dismisses exactly when rows of that kind match and none of a kind before it, and a lowering is to the highest level with a matching row |
| DecisionEngine.FindWeakest | pkg/internal/layers/decision/engine.go:232-238 | The least mass among the questions of a matched row |
| DecisionEngine.VerdictBounds | pkg/internal/layers/decision/engine.go:84-120 | A verdict never raises a severity, goes below the floor only when every combination misfires, and without downgrading only confirms |
| DecisionEngine.VerdictFollows | pkg/internal/layers/decision/engine.go:84-120 | The verdict follows the worst outcome: confirmed or dismissed as it is, a dismissal with a floor lowered to the floor, a lowering to the higher of its level and the floor, nothing when that is no milder than the finding; the higher confidence exactly when every matched term is strong |
| DecisionEngine.WorstFacts | pkg/internal/layers/decision/engine.go:122-147 | The worst outcome is a misfire only when every combination misfires, lowers only to a known severity, and without downgrading confirms or keeps |
| DecisionEngine.ConfirmedIff | pkg/internal/layers/decision/engine.go:84-136 | A finding is confirmed if and only if some combination confirms it |
| Batching.Run.AskAll | pkg/internal/layers/decision/places.go:163-185 | Every place is asked in exactly one of consecutive batches, a batch of two or more is never cut or refused for its size, nothing is sent after a failure, and every place, if no place is listed twice, ends with the reply its own batch got under its own key, or the reason there is none, for every question; no two queries of a request have one key when the identifiers of places and questions differ |
| Batching.Run.AskBatch | pkg/internal/layers/decision/places.go:163-185 | One batch is one request with its own questions |
| Batching.Run.AskPlaces | pkg/internal/layers/decision/places.go:187-201 | Each place of a batch gets the replies given under its own keys |
| Batching.JoinedFits | pkg/internal/layers/decision/places.go:187-192 | The newline each text loses pays for the separators, so the joined texts are no longer than the sum kept while batching |
| Batching.JoinHolds | pkg/internal/layers/decision/places.go:187-193 | The text of each place stands in the joined text, one after the other and two newlines apart |
| Batching.TrimsNewlines | pkg/internal/layers/decision/places.go:190 | Only newlines are trimmed from a text, and all at its end |
| Batching.Run.RoomFits | pkg/internal/layers/decision/places.go:163-185 | What the batching loop lets grow fits both limits of the request |
| Batching.KeysDistinct | pkg/internal/layers/decision/ask.go:30-40 | Reply keys of different places or questions differ |
| Batching.AskInjective | pkg/internal/layers/decision/ask.go:30-40 | Two queries have one key only when they are one question about one place |
| Batching.BatchKeysDiffer | pkg/internal/layers/decision/places.go:187-199 | No two queries of a batch have one key, so no two places share a reply |
| Batching.Run.AskModel | pkg/internal/layers/decision/ask.go:74-112 | A request goes out at most once per call, never after a failure, whole when it fits; the replies are for exactly the queries, each the answer the model gave for it or else the reason there is none |
| Batching.Cut | pkg/internal/textutil/clip.go:25-34 | At most the limit, a prefix, unchanged when short enough, and else the longest one that ends where a rune starts |
| JudgeStore.ResolveBounded | pkg/internal/layers/judge/tools.go:132-171 | No verdict raises a severity or goes below the floor; dismissal only with downgrading and no floor |
| JudgeStore.ResolveClamps | pkg/internal/layers/judge/tools.go:132-150 | A wanted severity within the bounds is granted, outside them the nearest bound is |
| JudgeStore.SeverityGranted | pkg/internal/layers/judge/tools.go:132-150 | A wanted severity is granted down to the floor and not above the finding's, none if the rule may not be downgraded; confirmed exactly when the finding's own severity or a higher one is wanted |
| JudgeStore.DismissGranted | pkg/internal/layers/judge/tools.go:152-171 | A wish to dismiss keeps the severity of a rule that may not be downgraded, dismisses one without a floor, and lowers one with a floor to it |
| JudgeStore.Store.Take | pkg/internal/layers/judge/tools.go:89-104 | A batch is recorded whole, last record of a finding winning, or refused and nothing changes; refused exactly when some record does not pass |
| JudgeStore.Store.LastRecordWins | pkg/internal/layers/judge/tools.go:89-130 | Of each finding the last record is filed, with its confidence, explanation and what the policy leaves of its verdict; other findings keep what they had |
| JudgeStore.Store.Put | pkg/internal/layers/judge/tools.go:122-130 | One outcome is recorded and the order list stays free of duplicates and equal to the recorded keys |
| JudgeStore.Store.CheckAll | pkg/internal/layers/judge/tools.go:89-104 | A fault exactly when some record does not pass |
| JudgeStore.TakenIff | pkg/internal/layers/judge/tools.go:106-120 | A record passes exactly when it is about a known finding, wants a dismissal or one of four severities, has an explanation and a confidence from one to four |
| JudgeStore.Store.Missing | pkg/internal/layers/judge/tools.go:71-79 | Exactly the identifiers without an outcome |
| JudgeStore.Store.Results | pkg/internal/layers/judge/tools.go:81-87 | The outcomes in the order they were first recorded |
| JudgeLoop.CallTool | pkg/internal/layers/judge/tools.go:222-255 | A call ends the loop if and only if it is a submission with arguments whose batch is accepted and after which nothing is missing; an accepted batch is recorded whole, anything else changes nothing, and no outcome is ever lost |
| JudgeLoop.Run | pkg/llm/agent/agent.go:46-72 | Whatever the model replies, at most `calls` requests go out, an end without an error means every pending finding has an outcome, and the outcomes are those of records that were accepted |
| JudgeLoop.Answer | pkg/llm/agent/agent.go:82-105 | All calls of a reply are made in order; done only after an accepted submission |
| JudgeLayer.Label | pkg/internal/layers/judge/judge.go:90-99 | Every pending finding gets one identifier of its own |
| JudgeLayer.IdInjective | pkg/internal/layers/judge/judge.go:90-99 | Identifiers of different findings differ |
| JudgeLayer.Apply | pkg/internal/layers/judge/judge.go:54-63 | Each result is written to its finding and no other finding changes |
| JudgeLayer.ResultsFit | pkg/internal/layers/judge/judge.go:38-63 | The results are about different pending findings, each within its bounds |
| JudgeLayer.Run | pkg/internal/layers/judge/judge.go:38-63 | Whatever the model does, each finding stays or gets a judgement within its bounds, and without an error every pending one gets one |
| Fences.Fence | pkg/internal/code/parse.go:83-96 | The run of backticks or tildes of a fence line and what follows |
| Fences.Blocks | pkg/internal/code/parse.go:55-81 | The interiors of the fenced runs with a known language, as byte spans |
| Fences.CoveredIff | pkg/internal/code/parse.go:55-81 | A line is inside a block if and only if it is strictly inside a run with a known language |
| Fences.ScannersAgree | pkg/internal/code/parse.go:55-96 | For every text and line: flagged if and only if in a run, marker open before it if and only if in a run but not its first line, block spans the interiors of the same runs |
| Fences.RunsAreOpen | pkg/internal/code/parse.go:55-81 | From any line where no fence is open, the runs found there are the stretches where a marker is open |
| Fences.SameRuns | pkg/internal/code/parse.go:55-81 | Lines with and without their ends have the same runs |
| Fences.FenceRun | pkg/internal/layers/static/scope.go:33-50 | The character, length and rest of a fence line |
| Fences.FlagLines | pkg/internal/layers/static/scope.go:13-31 | A line is flagged if and only if a fence is open before it or opens on it |
| Fences.Position.Read | pkg/internal/layers/decision/frame.go:243-253 | The reader knows the open marker, where it began and its language, and the current headings, after any lines |
| Fences.Position.Heading | pkg/internal/layers/decision/frame.go:255-266 | A heading replaces those of its level and deeper |
| Fences.OutlineExact | pkg/internal/layers/decision/frame.go:255-266 | The heading stack holds exactly the unfenced headings with no later one of the same or a smaller level, in rising levels |
| Fences.Closing | pkg/internal/layers/decision/frame.go:166-173 | The line that closes the marker, or the last line |
| Fences.TextBlock | pkg/internal/layers/decision/frame.go:132-153 | The block of a line is the whole run it belongs to, under the headings current there |
| Fences.RunAroundIsRun | pkg/internal/layers/decision/frame.go:132-153 | The run around a flagged line is one of the runs of the text |
| Fences.BodyAgreesIff | pkg/internal/layers/decision/frame.go:132-164 | Reading from the line after the frontmatter agrees on every body line with reading from the first line if and only if no fence is open there |
| Fences.AgreementLasts | pkg/internal/layers/decision/frame.go:132-164 | Once the two readings agree on a line they agree on every later one |
| Fences.FenceInFrontmatter | pkg/internal/layers/decision/frame.go:132-164 | A fence opened in the frontmatter makes them differ: a text of four lines whose body line is flagged and read outside any fence |
| Symlinks.Resolved.Resolve | pkg/internal/layers/static/link.go:35-59 | Ends by hops left and then parts left, follows at most 40 links, keeps names clean, and leaves no link on the way when fewer were followed or a 41st would not have been; without links it ends as far above the skill as the path falls below its start, never above a root, and with exactly the names that nothing later takes back |
| Symlinks.PlainWalkLeads | pkg/internal/layers/static/link.go:42-88 | A path without links leads up by the most that its two dots outnumber the names before them in any prefix, never above a root, and down by exactly the names that no later part takes back |
| Symlinks.RelativeLeads | pkg/internal/layers/static/link.go:35-59 | From a directory that holds no link on its way, a relative path without links leads where the names of the directory and its parts say |
| Symlinks.OutsideStays | pkg/internal/layers/static/link.go:42-99 | A walk that has left the skill or is at a root follows no link and never comes back inside |
| Symlinks.EscapingLink | pkg/internal/layers/static/link.go:35-88 | A link to ../../etc/passwd at the top of the skill leads two steps out of it |
| Symlinks.WalkClean | pkg/internal/layers/static/link.go:42-57 | Names are never empty, never one or two dots, and hold no slash |
| Symlinks.WalkSettled | pkg/internal/layers/static/link.go:42-57 | When a limit one larger would follow no more links than the limit, no prefix of an inside path is itself a link |
| Symlinks.UncutWalk | pkg/internal/layers/static/link.go:42-57 | The limit makes no difference, the walk equals that under every larger limit, if and only if a limit one larger would follow no more links than it |
| Symlinks.SettledIff | pkg/internal/layers/static/link.go:42-57 | When neither the path nor a target goes up, the result is resolved if and only if the limit made no difference |
| Symlinks.SelfLink | pkg/internal/layers/static/link.go:42-57 | A link to itself is cut at every limit and left unresolved |
| Symlinks.ChainResolved | pkg/internal/layers/static/link.go:42-57 | A chain of links as long as the limit is resolved to its end |
| Symlinks.SettledStays | pkg/internal/layers/static/link.go:42-57 | A resolved inside path resolves to itself without following a link |
| Symlinks.WalkThen | pkg/internal/layers/static/link.go:42-57 | A path is walked part by part: where its front leads, and on from there |
| Symlinks.TextTells | pkg/internal/layers/static/link.go:101-109 | The text starts with two dots if and only if the path leaves the skill, with a slash if and only if it is absolute, and splits back into its names |
| Symlinks.SplitJoin | pkg/internal/layers/static/link.go:61-71 | Splitting undoes joining |

## Left out

- HTTP, RDAP, GitHub, npm, PyPI and model clients: answers are free choices of the network.
- Regular expressions, globs, JSON loading, prompt rendering and embedded data: library behaviour.
- tree-sitter, wazero and the lowering of each language: units, statements, calls and spans are given.
- Unicode properties, NFKC and the confusables map: parameters of `CleanText`, letter case a parameter of `CodeProgram`.
- Discovery store, honeypot reader, pipeline status, sorting and numbering of reports: easier versions of what is here.
- Pacer: ending an attempt and freeing its slot are one step, as are keeping an answer or closing a host and giving back its lock, the deadline of a single attempt is one of the network's answers, a header has one value, durations are not negative, and time is an integer.
- Pacer.KeepStep: requests are told apart by their URL alone, as the replay does; reading a body is a free choice of success or failure.
- Coordination.Coordinator.Run: extraction from files is not modelled, and every kind found or derived is required to have a collector, as the wiring of the references layer provides; sharing of location slices between reports is not modelled.
- Tracing.Trace: nodes are values instead of shared objects, their code is a place in a unit instead of rendered text, a function is shown by its whole span instead of its first line, and traces are not cached by subject.
- CodeProgram.Consumers: calls with spans of equal size come in any order, as the unstable sort leaves it.
- CodeProgram.Definition: requires indices in range, statements listed by their unit and calls by their statement, as the lowering builds them.
- SyntaxRows.Flatten: the 32-bit size of the row buffer does not wrap, because the memory of the module ends long before.
- CleanText.Locate: the scope, exclusion, self-install and self-path tests are one parameter, and the rest of building a finding (lowered severities, messages) is not modelled.
- CleanText.Normalize: positions of words and hits are runes instead of bytes.
- Fences.TextBlock: paragraphs, list items and the rendering of the frame are not modelled; the language table of fence tags is a parameter.
- DecisionEngine.VerdictBounds: the words and answers shown with a verdict are not modelled; probabilities are reals.
- Batching.Run.AskAll: the prompt template is a fixed head and tail around the places, and each place text ends in a newline.
- JudgeLayer.Label: findings are numbered in one order, whatever it is; that they are grouped by file and sorted by severity first is not modelled.
- JudgeLayer.Run: a long reason is not clipped; the order in which findings are shown, the prompt texts and the reports returned to the model are not modelled; the rule that makes an identifier canonical is a parameter.
- Symlinks.Resolved.Resolve: the skill's files are a map from paths to link targets, and the directory of the link is clean and not below another link, as the file walk provides.
