# crdb-sql, verified

A Dafny model of the parts of crdb-sql whose correctness spans several functions or
whole runs, with proofs.  `dafny verify dfyconfig.toml` checks everything.

| modules | what they model |
|---|---|
| `PoolSections`, `PoolMachine`, `PoolInvariant`, `PoolLeak`, `PoolTheorems`, `PoolShutdown`, `PoolOutcomes`, `PoolWitness`, `PoolRouter` | the pool of sibling MCP processes: any number of Dispatch and Close calls and the janitor, interleaved one lock operation at a time; `PoolRouter` holds the critical sections as methods of a class |
| `ExplainTree`, `ExplainRows`, `ExplainStack`, `ExplainReference`, `ExplainLayout` | the EXPLAIN tree parser: as a recursive function, its rows by their characters, as the program's loop with pointers into growing slices, against a reading without a stack, and against printing |
| `ShapePlan` | the parser of EXPLAIN (DDL, SHAPE), and printing |
| `EditDistance`, `EditPaths`, `EditRows`, `Ranking`, `Suggest` | edit distances, their row-by-row programs, and the ranking of suggestions |
| `NameScope`, `NameWalk`, `NameChecker`, `NameMonotone`, `NamePlaces`, `NameMentions`, `NameErrors` | the column-name resolver: scopes in which some column lists are unknown, the walk over statements, the checker that records errors, and, apart from the walk, which names a statement mentions and what each of them sees |
| `Prompts`, `StripMap`, `Positions`, `Utf8` | stripping shell prompts, translating offsets back, lines and columns, character indices |
| `TxnBlocks` | transaction blocks and the two rules over them |
| `Quarters`, `VersionRoute` | release quarters, and re-exec into the matching backend |
| `SafetyModes` | which statements a safety mode admits, and the mode a rejection suggests |
| `Options`, `Text`, `Bytes` | shared shapes, string functions, byte strings |

Things outside the process are inputs or free choices: whether a spawn, a CallTool or a
backend lookup succeeds, the clock (any value that does not go back), the order in which a
map is visited, which goroutine steps next, case folding (`Folding`), the catalog, the
files on disk, and whether an exec works.

## Where the code and its comments differ

The model follows the code.

- `internal/mcp/proxy/pool.go:297-303` says the retry loop keeps a new client out of a dead
  entry.  The error paths (`:362-363`, `:381-382`) unlock the entry before evict marks it
  dead, so a call queued on the entry's mutex can pass the dead check in between and spawn.
  `PoolWitness.ShutdownCanLeak` is such a run; `PoolShutdown.LeftBehindExactly` says exactly
  which children are left.
- `pool.go:206-212` says `dead` is always read under `mu`.  Line 328 reads it under the
  entry's mutex only; in the model that read is a step of its own.
- `pool.go:158-160` says `stopJanitor` is nil after Close; nothing sets it to nil.
- `internal/safety/envelope.go:71-72` and `allowlist.go:98-102` say no escalation helps a
  nested EXPLAIN; `allowlist.go:707-719` admits it under full_access
  (`SafetyModes.NestedExplainUnderFullAccess`).
- `internal/diag/suggest.go:113-118` says a length difference above the limit needs that
  many edits.  The lengths compared are those before lower-casing, which can change them.
  `Suggest.PrefilterExact` says on which lengths the filter is right, and `Suggest.HitsAreAllNear`
  on which lists; `Suggest.PrefilterDropsKelvin` is an input on which it is not.  Whether the
  suggestions are the first names of the sample shown beside them hangs on the same lengths
  (`Suggest.SuggestionsHeadTheSample`, `Suggest.UnsafeMisleads`).

## Reading the pool model

A step of `PoolMachine` takes or releases one mutex, runs one body of a `mu` section (one
iteration of a section that loops), reads `dead`, or starts or ends a spawn, a CallTool or a
client Close.  Four fields of a client are history that no step consults: the entry it was
spawned for, whether a CallTool on it failed, whether the dead check before its spawn was
passed inside an evict's window, and its owner; likewise the cause recorded in a dead
entry's `life`.  They only let the theorems speak about the past.

## Model

| member | source | states |
|---|---|---|
| `PoolRouter.Router.constructor` | internal/mcp/proxy/pool.go:267-286 | a new pool has no entries and is open |
| `PoolRouter.Router.Checkout` | internal/mcp/proxy/pool.go:404-425 | refuses exactly when closed, returns the live mapped entry, touched, or a new one mapped under the quarter exactly when the backend is installed, and changes nothing otherwise |
| `PoolSections.CheckoutAnswers` | internal/mcp/proxy/pool.go:404-425 | refused exactly when closed; a live mapped entry is reused with only its idle clock reset; otherwise a new entry is made exactly when the backend is installed, and nothing happens when it is not |
| `PoolRouter.Router.MarkUsed` | internal/mcp/proxy/pool.go:432-439 | resets the idle clock of a live entry and leaves everything else, and every dead entry, as it was |
| `PoolRouter.Router.Evict` | internal/mcp/proxy/pool.go:448-456 | marks the entry dead, and unmaps the quarter only if it still maps to this entry |
| `PoolRouter.Router.SweepSection` | internal/mcp/proxy/pool.go:500-514 | one pass over the map marks dead, unmaps and returns exactly the mapped entries last used at least the idle timeout ago, each once, whatever the order of the map |
| `PoolRouter.Router.SweepIdle` | internal/mcp/proxy/pool.go:491-514 | an idle timeout that is not positive keeps every entry |
| `PoolRouter.Router.CloseSection` | internal/mcp/proxy/pool.go:551-572 | the first call captures the map, empties it, closes the pool and marks every captured entry dead; later calls change nothing |
| `PoolRouter.Router.TakeClient` | internal/mcp/proxy/pool.go:583-586 | takes the client out of the entry and leaves none |
| `PoolInvariant.NextKeepsInv` | internal/mcp/proxy/pool.go:294-596 | every step of every goroutine keeps the invariant: locks match program points, each client has one owner, calls are counted, the map lists exactly the entries not marked dead |
| `PoolLeak.RunKeepsLeakInv` | internal/mcp/proxy/pool.go:355-596 | in every run, an entry that was unmapped with a client or a filler inside it is on its way to being drained, or was unmapped by evict |
| `PoolTheorems.OneOwner` | internal/mcp/proxy/pool.go:352-398 | in every reachable state each spawned child is held by exactly one of: an entry's `client`, one goroutine's local, or nobody because it was closed |
| `PoolTheorems.CallsOfAClient` | internal/mcp/proxy/pool.go:369-393 | a child never has two CallTools in flight, is closed at most once, and has no call in flight once its Close has begun |
| `PoolTheorems.MappedIffAlive` | internal/mcp/proxy/pool.go:404-465 | whenever `mu` is free an entry is mapped, under its own quarter, exactly when it is not dead |
| `PoolTheorems.NothingMappedAfterClose` | internal/mcp/proxy/pool.go:551-572 | from Close's section on, in every continuation of the run, the pool stays closed and nothing is mapped |
| `PoolTheorems.NeverBothMutexes` | internal/mcp/proxy/pool.go:140-153 | no goroutine is ever inside `mu` and an entry's mutex together |
| `PoolTheorems.NoDeadlock` | internal/mcp/proxy/pool.go:146-153 | in every reachable state with unfinished work some goroutine with unfinished work can step, also while Close waits for the janitor |
| `PoolShutdown.DrainedStaysEmpty` | internal/mcp/proxy/pool.go:514-537 | an entry unmapped by the sweep or by Close and on nobody's list to drain has no client, and nobody inside it will give it one |
| `PoolShutdown.LeftBehindExactly` | internal/mcp/proxy/pool.go:355-398 | after Close, with every call returned, a child is still running exactly when evict unmapped its entry and no CallTool on the child failed |
| `PoolShutdown.LeftBehindOnlyWindowed` | internal/mcp/proxy/pool.go:327-363 | and then the dead check before its spawn was passed between some evict's unlock and its mark |
| `PoolShutdown.OnlyWindowsLeak` | internal/mcp/proxy/pool.go:355-398 | the window is the only cause: in a run in which nobody passes a dead check inside one, every child is closed at the end |
| `PoolShutdown.SerialShutdownIsClean` | internal/mcp/proxy/pool.go:294-345 | if calls for one quarter never overlap in the run, every child is closed at the end |
| `PoolShutdown.DispatchIsBounded` | internal/mcp/proxy/pool.go:304-344 | from any point of any run a Dispatch takes at most 103 more steps of its own, retries included |
| `PoolOutcomes.OutcomeIsTrue` | internal/mcp/proxy/pool.go:294-398 | what a Dispatch returns is what happened to it: one successful call, one failed call, one failed spawn, a missing backend, a closed pool, or 18 checkouts in a row of an entry found dead |
| `PoolOutcomes.CallsTheRightChild` | internal/mcp/proxy/pool.go:352-369 | a Dispatch calls a child that was spawned for the quarter it wants |
| `PoolOutcomes.SweptOnlyWhenIdle` | internal/mcp/proxy/pool.go:496-514 | in every run an entry is swept only if the idle timeout has passed since every checkout that returned it and every successful call on it |
| `PoolWitness.ShutdownCanLeak` | internal/mcp/proxy/pool.go:355-364 | a concrete run that ends with Close done, all calls returned and one child never closed |
| `ExplainRows.ReadsExactly` | internal/conn/explain_parse.go:68-108 | what a row is taken for, read off its characters: blank, a lone dot, drawings and a bullet and a name, drawings only, or drawings and a text |
| `ExplainRows.FillersChangeNothing` | internal/conn/explain_parse.go:70-75 | a blank row and a lone dot end the header and change nothing else; a row of drawings changes nothing |
| `ExplainRows.SplitsExactly` | internal/conn/explain_parse.go:210-216 | a text splits at its first colon into what is before and after it without space around, and only a text without colon does not split |
| `ExplainTree.ParseOperatorLine` | internal/conn/explain_parse.go:166-176 | finds the bullet behind glyphs only, its column, and the trimmed operator |
| `ExplainTree.FindContent` | internal/conn/explain_parse.go:183-192 | finds the first column that is not a glyph, and the trimmed rest |
| `ExplainStack.PushOperator` | internal/conn/explain_parse.go:83-99 | pops the operators at or right of the column and appends the new one under the last one left, the saved pointers staying those of the rightmost spine |
| `ExplainStack.OwnerByColumn` | internal/conn/explain_parse.go:198-205 | returns the topmost open operator at the column, if any |
| `ExplainStack.OnSpineFresh` | internal/conn/explain_parse.go:83-99 | a pointer to the rightmost node of its depth points into a slice that has not grown since, so it may be written through |
| `ExplainStack.ParseExplainTree` | internal/conn/explain_parse.go:56-139 | the loop with its stack of pointers returns what the recursive `ExplainTree.Parse` returns, header, forest or error with its row |
| `ExplainReference.ParseIsReference` | internal/conn/explain_parse.go:77-100 | on every list of rows the parser fails as, or returns the header and the preorder of, a reading without a stack: bullet rows in order, each under the nearest earlier operator with a smaller column, attributes to the operator still open two columns to the left |
| `ExplainReference.PreorderDetermines` | internal/conn/explain_parse.go:89-99 | a preorder with parents has one forest, so the previous row fixes the parser's result |
| `ExplainReference.StackIncreases` | internal/conn/explain_parse.go:86-100 | after any accepted rows the open operators' columns increase strictly, along the rightmost spine of the forest |
| `ExplainLayout.PrintThenParse` | internal/conn/explain_parse.go:46-139 | printing any document in the documented layout (operator at column D, attributes at D+2, children at D+4, any drawings as padding, rows without content anywhere, with or without a row that ends the header) and parsing it gives back its header and its forest |
| `ExplainLayout.EveryForestPrints` | internal/conn/explain_parse.go:46-139 | every header and every forest of well-formed operators is the result of parsing some document |
| `ExplainLayout.SplitsText` | internal/conn/explain_parse.go:210-216 | splitting at the first colon gives back any key without a colon and any trimmed value |
| `ShapePlan.ParseExplainDDLShape` | internal/conn/explain_ddl_parse.go:97-139 | the loop returns what the recursive `ShapePlan.Parse` returns, including the line number of every error |
| `ShapePlan.ClassifiesPrinted` | internal/conn/explain_ddl_parse.go:166-197 | either connector and either depth-2 prefix are recognised with their content |
| `ShapePlan.ClassifiesExactly` | internal/conn/explain_ddl_parse.go:166-197 | whether a line is an operation's, a target's or blank, read off its characters |
| `ShapePlan.RejectedExactly` | internal/conn/explain_ddl_parse.go:97-139 | a text is rejected exactly when it is empty, has no header, or has a line that is no branch or a target before any operation, and then for the first such line, by its number |
| `ShapePlan.PrintThenParse` | internal/conn/explain_ddl_parse.go:97-139 | printing any plan, every line in a style of its own and with any number of newlines at the end, and parsing it gives the plan back |
| `ShapePlan.ReprintParses` | internal/conn/explain_ddl_parse.go:97-139 | printing in any style whatever was parsed from any accepted text parses to the same plan |
| `EditRows.Levenshtein` | internal/diag/suggest.go:200-231 | the two-row program returns the Levenshtein distance |
| `EditRows.SemcheckLevenshtein` | internal/semcheck/functions.go:282-309 | and so does its copy |
| `EditRows.DamerauLevenshtein` | internal/diag/keywords.go:125-172 | the three-row program returns the optimal string alignment distance |
| `EditDistance.DistanceIsLeastCost` | internal/diag/keywords.go:109-124 | each distance is the least cost over all alignments, with and without swaps of neighbours that do not overlap |
| `EditDistance.DistancesCompared` | internal/diag/suggest.go:113-118 | length difference <= OSA <= Levenshtein <= 2 OSA |
| `EditDistance.Triangle` | internal/diag/suggest.go:195-231 | Levenshtein's triangle inequality, by composing alignments |
| `EditDistance.Symmetric` | internal/diag/suggest.go:195-231 | both distances are symmetric |
| `EditDistance.ZeroIffEqual` | internal/diag/suggest.go:201-203 | both distances are zero exactly on equal strings |
| `EditPaths.ShortestPath` | internal/diag/suggest.go:195-231 | the Levenshtein distance is the length of a shortest chain of single-byte deletions, insertions and replacements, and there is such a chain |
| `Ranking.SortIsUnique` | internal/diag/suggest.go:129-141 | the ranking order has no ties, so any sort of the hits gives the same list |
| `Bytes.BelowExactly` | internal/diag/suggest.go:140 | names are ordered by the first byte in which they differ, a proper prefix first |
| `Suggest.PrefilterExact` | internal/diag/suggest.go:113-122 | the length filter is right, whatever the strings, exactly on lengths that differ by at most the limit or whose lower-cased lengths differ by more |
| `Suggest.SafeIsExact` | internal/diag/suggest.go:113-122 | between a token and a candidate of such lengths, exactly the candidates within the limit are kept |
| `Suggest.UnsafeDrops` | internal/diag/suggest.go:113-122 | on any other lengths some candidate is within the limit and dropped |
| `Suggest.PrefilterDropsKelvin` | internal/diag/suggest.go:113-119 | one such candidate, under the folding Go has |
| `Suggest.HitsAreAllNear` | internal/diag/suggest.go:109-124 | the hits of a list are all its candidates within the limit, in order, exactly when none of those differs from the token in length by more than the limit |
| `Suggest.NothingFilteredOut` | internal/diag/suggest.go:113-122 | so they are on any list of candidates of safe lengths |
| `Suggest.AsciiIsSafe` | internal/diag/suggest.go:103-119 | between ASCII strings the lengths are safe |
| `Suggest.HitsAreKept` | internal/diag/suggest.go:109-124 | the scored candidates are exactly those that pass every filter |
| `Suggest.SuggestWithDistance` | internal/diag/suggest.go:91-160 | the loop, sort and cut return the suggestions specified |
| `Suggest.TopThree` | internal/diag/suggest.go:129-159 | which are the three best of all hits in the stated order, best first, over the misspelled token's byte range |
| `Suggest.SuggestedIsEligible` | internal/diag/suggest.go:103-159 | each suggestion is a candidate that is not empty and not the token itself, within the limit in length and in edits, with its distance, over the token's bytes |
| `Suggest.SuggestionsInOrder` | internal/diag/suggest.go:129-143 | there are at most three, by distance, then where asked for names as long as the token first, then by name |
| `Suggest.LeftOutForBetter` | internal/diag/suggest.go:129-143 | an eligible candidate is left out only for three that come before it in that order |
| `Suggest.Suggest` | internal/diag/suggest.go:50-55 | Levenshtein suggestions within one edit for tokens of up to three bytes, two for up to six, three beyond |
| `Suggest.LowerASCII` | internal/diag/keywords.go:183-203 | lower-cases ASCII letters and nothing else |
| `Suggest.SuggestKeyword` | internal/diag/keywords.go:95-107 | nothing for a keyword, otherwise OSA suggestions within one or two edits, same length first |
| `Suggest.SampleNearest` | internal/semcheck/functions.go:237-271 | the nearest names without a limit on the distance |
| `Suggest.SampleIsNearest` | internal/semcheck/functions.go:227-236 | which are the nearest of all names but the misspelled one itself, nearest first |
| `Suggest.SuggestionsHeadTheSample` | internal/semcheck/functions.go:227-236 | on candidates of safe lengths the names suggested are the first names of the sample shown beside them |
| `Suggest.UnsafeMisleads` | internal/semcheck/functions.go:227-236 | on any other lengths there are a token and two candidates for which they are not |
| `NameScope.ResolveDims` | internal/semcheck/names.go:965-1059 | a report made with some column lists unknown is made, under the same key and kind, with them known |
| `NameScope.SilenceIsExact` | internal/semcheck/names.go:944-963 | with every list known nothing is reported exactly when the reference names a select alias, exactly one column, or a column of the innermost source so named |
| `NameScope.QualifiedVerdict` | internal/semcheck/names.go:979-1012 | a qualified reference is a missing table when no source has the name, an unknown column when the innermost one so named has a known list without it, and no error otherwise |
| `NameScope.UnqualifiedVerdict` | internal/semcheck/names.go:1020-1059 | an unqualified one is no error when it is a select alias, ambiguous when two sources have the column, unknown when every list is known and lacks it, and no error otherwise |
| `NameScope.ReportedUnder` | internal/semcheck/names.go:979-1059 | the key and the token of each error |
| `NameScope.OfferedIsInScope` | internal/semcheck/names.go:1221-1260 | what is offered instead is a source's name or a known column in scope |
| `NameScope.CteInnermost` | internal/semcheck/names.go:774-786 | a CTE name means the one of the innermost frame that has it |
| `NameWalk.ProjectionExactly` | internal/semcheck/names.go:1313-1381 | a block projects the names of its leftmost select list, aliases before column names, and nothing is known as soon as one item has no name |
| `NameScope.ReportedIffUnavoidable` | internal/semcheck/names.go:962-1059 | a reference is reported as an error of some kind exactly when it is that error under every way of filling in the unknown lists; silence means some way makes it name something |
| `NameScope.ExistsDims` | internal/semcheck/names.go:1188-1200 | the USING check is only ever more lenient with less known |
| `NameMonotone.StatementDims` | internal/semcheck/names.go:446-868 | for every statement, with CTEs, subqueries, joins, ON CONFLICT and RETURNING, withholding the column lists of any tables and any nodes, of which no two need be treated alike, adds no report |
| `NameMentions.ReportsAreComplaints` | internal/semcheck/names.go:446-912 | the walk over a statement reports exactly what is wrong with the names that stand somewhere in it, each in the scope of its place: select lists, WHERE, GROUP BY, HAVING, ORDER BY, join conditions, USING, assignments, conflict targets, values and filters, RETURNING, VALUES, subqueries and CTEs |
| `NameErrors.ErrorsAreComplaints` | internal/semcheck/names.go:312-346 | over whole inputs a key is among the errors exactly when some name mentioned has a complaint under it |
| `NameErrors.SilentIffAllMayName` | internal/semcheck/names.go:312-346 | no error is returned exactly when every name mentioned may name something, the unknown lists being what they may |
| `NameErrors.SilentIffAllName` | internal/semcheck/names.go:312-346 | with every list known, no error is returned exactly when every name mentioned names something |
| `NameChecker.ColumnChecker.ReportFor` | internal/semcheck/names.go:1087-1096 | records a report unless its key was seen |
| `NameChecker.ColumnChecker.ResolveRef` | internal/semcheck/names.go:965-974 | records what resolving the reference reports |
| `NameChecker.ColumnChecker.CheckBody` | internal/semcheck/names.go:499-547 | walks a query block and leaves its scope: sources, select aliases, or a placeholder for a set operation |
| `NameChecker.ColumnChecker.Push` | internal/semcheck/names.go:693-711 | walks each CTE without an enclosing scope and records its projection |
| `NameChecker.ColumnChecker.AddTableExpr` | internal/semcheck/names.go:793-868 | adds one source per table expression and walks what it holds |
| `NameChecker.ColumnChecker.CheckInsert` | internal/semcheck/names.go:555-583 | walks INSERT: target columns, rows without the target, ON CONFLICT, RETURNING |
| `NameChecker.ColumnChecker.VisitConflict` | internal/semcheck/names.go:640-662 | names against the target, values with `excluded` in scope |
| `NameChecker.ColumnChecker.CheckUpdate` | internal/semcheck/names.go:589-606 | walks UPDATE in the scope of its target and FROM |
| `NameChecker.ColumnChecker.CheckDelete` | internal/semcheck/names.go:611-622 | walks DELETE in the scope of its target and USING |
| `NameChecker.CheckColumnNames` | internal/semcheck/names.go:312-346 | one accumulator over all statements returns the deduplicated reports of the walk |
| `NameChecker.RecordedOnce` | internal/semcheck/names.go:1087-1096 | deduplication keeps every key, once |
| `NameChecker.FirstIsKept` | internal/semcheck/names.go:1087-1096 | of the reports with one key the first is kept |
| `NameChecker.KnowingLessReportsNoMore` | internal/semcheck/names.go:312-346 | over whole inputs each key is reported once, and withholding column lists never adds a key |
| `NameChecker.SoundUnderEveryFilling` | internal/semcheck/names.go:312-346 | every error reported for an input is that error however the lists not known are filled in, table by table and node by node |
| `Prompts.PrimaryExact` | internal/sqlformat/strip.go:29 | the matcher's result is the longest prefix of the line in the primary pattern's language, or none if no prefix is |
| `Prompts.ContinuationExact` | internal/sqlformat/strip.go:38 | the same for the continuation pattern |
| `StripMap.StripShellPromptsWithMap` | internal/sqlformat/strip.go:106-153 | the loop over the lines returns the stripped text, the flag and the segments specified |
| `StripMap.Translate` | internal/sqlformat/strip.go:163-185 | binary search returns the clamped offset plus the delta of the last segment at or before it |
| `StripMap.TranslateIsExact` | internal/sqlformat/strip.go:163-185 | every stripped byte is the original byte its offset translates to, the end goes to the end, and offsets out of range are clamped |
| `StripMap.TranslateIncreases` | internal/sqlformat/strip.go:155-185 | translation is strictly increasing up to the end of the stripped text |
| `StripMap.DroppedIffPrompt` | internal/sqlformat/strip.go:131-146 | an original byte is dropped exactly when it lies in a prompt of its line |
| `Positions.DroppedExactly` | internal/sqlformat/strip.go:117-146 | a byte of a line is dropped exactly when it belongs to the line's primary prompt, or, on a line without one after a line with one, to its continuation prompt |
| `StripMap.RemovedIffChanged` | internal/sqlformat/strip.go:71-74 | `Removed` is set exactly when the text changed |
| `Positions.LineColumnOf` | internal/diag/position.go:157-170 | the place of an offset is its line and its byte column |
| `Positions.LineColumnInverse` | internal/diag/position.go:157-170 | an explicit inverse of lineColumn on 0..len |
| `Positions.LineColumnInjective` | internal/diag/position.go:157-170 | different offsets are different places |
| `Positions.StrippedIsProper` | internal/sqlformat/strip.go:131-146 | stripping removes no newline |
| `Positions.AdjustKeepsLine` | internal/diag/position.go:138-151 | adjusting a position keeps its line and its byte, and adds to its column exactly the prompt removed from that line |
| `Utf8.CharIndexToByteOffset` | internal/diag/position.go:113-125 | the loop returns the offset of character k, or the end |
| `Utf8.OffsetEndsPrefix` | internal/diag/position.go:108-125 | in UTF-8 text (section 3 of RFC 3629) that offset ends a prefix of exactly min(k, length) characters |
| `Utf8.WidthExactly` | internal/diag/position.go:117-124 | on any bytes the loop takes a whole encoding where one starts, and one byte where none does |
| `TxnBlocks.ExplicitTxnBlocks` | internal/risk/rules.go:588-608 | one block per BEGIN, in order, each ending at the first place where closings outnumber openings after it, or at the end |
| `TxnBlocks.BlocksAreUnique` | internal/risk/rules.go:588-608 | no other blocks have that property |
| `TxnBlocks.Laminar` | internal/risk/rules.go:574-584 | two blocks are apart or one is inside the other |
| `TxnBlocks.MultipleDDLInTxn` | internal/risk/rules.go:623-645 | reports, block by block and in order, exactly the schema changes with an earlier one in the same block |
| `TxnBlocks.FindingsAreUnique` | internal/risk/rules.go:623-645 | no other list of places has that property |
| `TxnBlocks.FindingsCount` | internal/risk/rules.go:616-618 | these are as many findings as the sum over blocks of the number of schema changes in the block beyond the first |
| `TxnBlocks.DdlAndDMLInTxn` | internal/risk/rules.go:660-683 | reports the BEGIN of exactly the blocks that hold both a schema change and a data change |
| `VersionRoute.TagParses` | internal/versionroute/quarter.go:84-167 | a tag parses to the quarter it was made from, for every valid quarter |
| `VersionRoute.TargetExactly` | internal/versionroute/quarter.go:109-139 | exactly these flag values name a quarter: space around, one v or none, two numbers in range with a dot between, and after another dot anything |
| `VersionRoute.TargetParses` | internal/versionroute/quarter.go:109-139 | a quarter written out in any of these ways is parsed to itself |
| `VersionRoute.ForkParses` | internal/versionroute/quarter.go:297-330 | v0.Y.Q, with or without a suffix, is parsed to the quarter |
| `VersionRoute.BuiltOtherwise` | internal/versionroute/quarter.go:203-220 | a file not named after a quarter: the stamp decides, a bad one too, and without one the fork's version |
| `VersionRoute.BackendLooksLike` | internal/versionroute/quarter.go:88-101 | the tag of 25.4 is v254 and its backend crdb-sql-v254 |
| `VersionRoute.BackendNamesDiffer` | internal/versionroute/quarter.go:95-101 | different quarters have different backend names |
| `VersionRoute.BackendKnowsItself` | internal/versionroute/quarter.go:203-262 | a binary named after a quarter takes itself for that quarter, whatever it was built from |
| `VersionRoute.ExtractTargetVersion` | internal/versionroute/quarter.go:345-364 | the scan returns the first flag's value before the end-of-options marker |
| `VersionRoute.ExtractsFirst` | internal/versionroute/quarter.go:345-364 | the value found is that of the first flag, in either form, if no end-of-options marker comes before it |
| `VersionRoute.OnlyOptionsCount` | internal/versionroute/quarter.go:336-344 | nothing after the marker plays a part |
| `VersionRoute.MaybeReexec` | internal/versionroute/route.go:45-85 | the sequence of writes, exec and exit for each outcome |
| `VersionRoute.RoutesByQuarter` | internal/versionroute/route.go:45-85 | asked for another quarter the program runs its backend with the same arguments or ends with status 2; asked for its own, none or nonsense it goes on |
| `VersionRoute.BackendProceeds` | internal/versionroute/route.go:45-85 | the process a binary was replaced by is the wanted backend and goes on |
| `VersionRoute.ChainsAreShort` | internal/versionroute/route.go:45-85 | a chain of re-execs has at most one link |
| `SafetyModes.AdmitsExactly` | internal/safety/allowlist.go:200-719 | for every mode and operation, a batch is admitted exactly when it has a statement and every statement may pass, read off the statement's type and what it changes |
| `SafetyModes.RejectedFor` | internal/safety/allowlist.go:200-719 | a rejected batch is rejected for its first statement that may not pass, under its tag, for the first reason that applies |
| `SafetyModes.AdmissionGrows` | internal/safety/allowlist.go:200-270 | for explain and execute, a higher mode admits every batch a lower one admits |
| `SafetyModes.SuggestionIsSmallest` | internal/safety/envelope.go:84-139 | the suggested mode is higher, admits the statement and is the smallest that does; when there is one |
| `SafetyModes.NestedExplainUnderFullAccess` | internal/safety/allowlist.go:701-719 | no mode is suggested for a nested EXPLAIN, although full_access admits it |
| `SafetyModes.SimulateIsNotMonotone` | internal/safety/allowlist.go:243-258 | simulate admits under read_only exactly the batches of DDL and DML statements without EXPLAIN, and nothing at all above |
| `SafetyModes.RetriesEnd` | internal/safety/envelope.go:95-139 | following suggestions on any batch raises the mode each time and stops within two retries, at admission or at a rejection without a suggestion |
| `SafetyModes.RetriesNeverOvershoot` | internal/safety/envelope.go:68-72 | the last mode tried is at most any mode that admits the batch |
| `SafetyModes.RetriesSucceed` | internal/safety/envelope.go:68-72 | the retries end in admission exactly when the batch is not empty and the mode was full_access or every nested EXPLAIN comes after a statement that forces full_access |

## Left out

- Pool: the test hook in Dispatch, `path` (it is FindBackend's answer, a free choice here), the errors' texts and joins, contexts and timeouts, and what a child answers.
- Pool: `PoolRouter` refines the `mu` sections and the taking of a client one at a time; that goroutines interleave them as `PoolMachine` says is the model's reading of Go's mutexes, not a theorem about Go.
- Pool: how long a blocked goroutine waits; `NoDeadlock` and `DispatchIsBounded` say nothing about fair scheduling.
- EXPLAIN and SHAPE: bytes that are not UTF-8; whether an absent map or list is nil or empty.
- EXPLAIN: pointers are paths from the roots with the length their slice had, not addresses; a row's error keeps its kind and place, not its text.
- Suggestions: the confidence value (floating point) and the reason's text; a suggestion keeps its distance and metric instead.
- Suggestions: `sort.Slice` is one particular sort here; `Ranking.SortIsUnique` says any other gives the same list.
- Names: the parser's syntax trees are reduced to what the walk looks at; a block's WHERE, GROUP BY and HAVING are one list in this order, and so are ORDER BY and LIMIT.
- Names: scopes are values handed from step to step instead of frames reached by pointers; no frame is used after its block.
- Names: every node that gives rise to a source has a number, its `site`, so that theorems can speak of one list at a time; the program's own reading is `NameWalk.AsFound`, in which sites play no part.
- Names: the check of table names against the catalog, another walk in the same file that keeps one flat set of names in scope.
- Names: `ColumnItem` references, which appear only after type checking; positions, suggestions and messages of the errors.
- Names: full PostgreSQL scoping, which the resolver does not aim at: matches count across all frames, and CTE bodies see no enclosing scope.
- StripMap.StripShellPromptsWithMap: the two regular expressions are hand-written matchers on bytes, proved equal to the patterns' languages; Go's regular expression engine is not modelled.
- Positions: extracting a position from the parser's own error text.
- Positions.LineColumnOf: a negative offset, on which lineColumn panics, is excluded by its type.
- Routing: the texts written to stderr, the order of the backends listed there, and symbolic links; `FindsByName` is what FindBackend guarantees.
- VersionRoute.TagParses: years up to the largest 64-bit integer, as strconv.Atoi accepts.
- Safety: a statement is the record of the predicates the rules ask; the reasons' texts are not kept, only their kinds.
- Safety: classification by the parser itself, LIMIT injection, the statement timeouts and the read-only transaction at run time.
- Registry comparison of versions, loading a catalog, highlighting, rules about single statements, and rendering of results: each is one short function.
