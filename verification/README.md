# Verified models of graphi's evaluation harness and command layer

graphi's `cmd/eval` harness measures how fast an index catches up with a changing repository, plans
how often each query runs, watches for silent stretches, and turns the measurements into release
verdicts. This project models those parts, and a few self-contained state machines beside them, in
Dafny, and proves what they keep over every input and every run.

`dafny verify dfyconfig.toml` checks the whole project.

## How the project is laid out

| modules | what they model |
|---|---|
| `Text`, `Decimal`, `Paths`, `Sorting`, `Sums` | Go's string, path, number-printing and sorting primitives, with the laws the models use |
| `SourceFamily`, `PackageClause`, `FreshClause`, `ClauseLines`, `Admission` | the fifteen mutation families, the text they generate, the package-clause reader and what it answers on any line, and the candidate filter |
| `ChangeSequence`, `ChangePlanner`, `SequenceDigest` | the MODIFY / ADD / CROSS_PACKAGE / DELETE plan: its closed form, the loop that computes it, the text its digest hashes |
| `Checkout`, `IncrementalDriver`, `Convergence`, `LineScanner`, `PinnedTrees` | a working tree with an incrementally kept index, the driver that applies, updates and probes, and the theorem that planner and driver work together |
| `AnyWeather`, `Completion` | the same runs under every fault: what survives of the pinned tree, what goes stale in the index, exactly which steps complete |
| `FailingInputs` | concrete inputs at which the planner and the clause round trip fall short of their comments |
| `ExecutionPlan` | how many times each query operation runs |
| `StallObserver`, `IngestProgress`, `BindStatus` | observers that account for wall-clock time or throttle announcements |
| `VerbRewrite` | short verbs rewritten to the long command form |
| `MountTable` | which mount a directory is on |
| `Scorecard`, `ReleaseGate`, `ReleaseEvidence` | the four-state release policy, its verdict and what may be published |
| `Percentile`, `ColdRuns`, `ReferenceScenario`, `ColdGates`, `ColdSeries`, `ColdVerdict`, `ZeroBudgets` | the reference-scenario contract, the cold-run series read against it, and its verdict in terms of the runs alone |
| `RetrievalRows` | retrieval rows rebuilt from ids and projected into scored hits |
| `Snapshot` | the snapshot swap as crashable file steps |

The working tree is a map from path to content. The parser behind the index is any function from a
file to the qualified names it declares. What the convergence theorem asks of it (`Convergence.Faithful`)
is asked only on the texts that the planned run writes: each planned append adds its own symbol and no
other generated one to the content it meets, and each planned new file declares its own symbol alone.
Nothing is asked on any other text, so a parser may refuse what does not parse.
`PinnedTrees.LineScannerIsFaithful` shows that a plain line scanner meets the demand in all fifteen families,
`PinnedTrees.ClauseScannerIsFaithful` that a parser which answers nothing for a Go text without a package
clause meets it too, and `PinnedTrees.PinnedTreeExists` gives a tree that meets the rest.
Clocks are functions from the number of the reading to an instant. The failures of the outside world
are inputs: an apply that leaves the file alone or cuts it short, an ingest that errs and leaves the old
entry, another one or none, a lagging or broken search, a refused removal, a store that cannot be closed,
a write that fails or is cut short, a killed child process.

Under those faults a planned run never deletes a pinned path (`AnyWeather.AnyRunKeepsThePinnedPaths`), keeps
the pinned texts exactly when no append was cut short of them (`AnyWeather.PinnedTextsSurviveIff`), and
completes exactly the steps that were served (`Completion.RunCompletesIff`). For the last the parser is asked
about the texts that this very run writes, and a failed ingest to leave no symbol of a later step or of another
file; `PinnedTrees.ScanSeesUncutRuns` shows that the line scanner meets this in every run without a cut-short
write.

## Where the code and its own words part

* `buildChangeSequence` calls itself total (`cmd/eval/changeseq.go:117`). It loops for ever when files
  are listed, changes are wanted and no listed file has a family, because the `continue` at line 139
  skips the loop's break. `ChangePlanner.TerminatesIffPlannable` gives the exact condition and
  `FailingInputs.TextFileAloneLoopsForever` an input.
* The break at `cmd/eval/changeseq.go:197-199`, meant for a cycle that produced nothing, also cuts the
  plan short when too few of the first files have a family; `ChangePlanner.FullLengthIff` gives the
  exact condition and `FailingInputs.SparseListIsCutShort` an input. Over the filtered lists the caller supplies, neither happens.
* A clause that the reader found is not always read back from the file written with it: a Kotlin
  clause ending in `;`, or a Go or Kotlin clause ending in white space that is neither a blank nor a tab,
  loses its end. `FreshClause.FreshClauseRoundTrip` and `Admission.SiblingsShareTheirClause` say for
  exactly which names the round trip holds; `FailingInputs.TwoTerminatorsAreNotKept` gives the files.
* A modify is not always an append. `os.WriteFile` (`cmd/eval/incremental.go:333`) truncates the pinned file
  before it writes, so a write that errs can lose the text it meant to keep:
  `AnyWeather.CutFirstWriteLosesTheText` gives the run, `AnyWeather.PinnedTextsSurviveIff` the exact condition.
* The comment at `cmd/eval/querylatency.go:60-66` says each structural operation cycles the whole symbol
  sample at the 1000-execution floor. An operation that no gate asks for runs 167 times over 250
  symbols there, beside the class pools and any gates (`ExecutionPlan.UngatedStructuralAtTheFloor`);
  `ExecutionPlan.UngatedStructuralCoverage` shows that the claim starts to hold at 1495.
* Nothing keeps a gate's pool from naming an operation twice (`cmd/eval/queryclass.go:176-204` does not remove
  duplicates). Beside the other pools of its list a pool clears its floor, each operation counted once, exactly when
  the largest shares the list asks of its distinct operations add up to the minimum
  (`ExecutionPlan.FloorIffLargestSharesAddUp`); that it does beside every choice of other pools is the stronger
  condition of `ExecutionPlan.FloorIffDistinctShares`. Beside the three class pools a gate `[op, op]` misses the floor
  of 1000 for every `op` but `search` (`ExecutionPlan.RepeatedOperationMissesTheFloor`).
* UNVERIFIED is meant to be harder to reach than FAIL (`cmd/release-gate/policy.go:131-134`). Of several
  joined errors one UNVERIFIED cause decides, whatever stands beside it
  (`ReleaseGate.UnverifiedAbsorbs`). No runner joins errors today.
* A cold series is sufficient by its completed runs, not by the samples of each metric. The wall clock
  misses no completed run; a peak-RSS or database-size gate rests on the runs that reported its metric
  (`ColdSeries.WholeDistribution`, and under a PASS `ColdSeries.PassRestsOnReports`). That may be one run of ten:
  `ColdSeries.PassOnOneSample`.
* A stop rule converts a peak-RSS gate given in MB (`cmd/eval/refscenario.go:445-448`); the gate's own reading refuses
  any unit but GB (`cmd/eval/coldgates.go:200-203`). An accepted contract can hold a peak gate that no series passes:
  `ColdVerdict.MegabytePeakNeverPasses`.
* A run measured by another revision draws a warning that a series of mixed revisions is not one measurement
  (`cmd/eval/coldseries.go:176-180`). The verdict does not read it: `ColdSeries.VerdictIgnoresRevisions`.
* The comment at `cmd/graphi/snapshot.go:164-166` relies on the journal being folded in and on the temporary file
  surviving an interrupted swap. The answer of `store.Close` is discarded (`cmd/graphi/snapshot.go:131`): when the
  journal could not be folded in, the run answers 0 and has parted the store from it. A refused removal is ignored
  too. `Snapshot.PublishedIff` says that these two are exactly when what was published is torn, and
  `Snapshot.SomeCopySurvivesIff` that the old snapshot is then lost as well. The temporary file does survive an
  interrupted swap, but the next run deletes it first: two crashes can lose what one cannot
  (`Snapshot.TwoCrashesLoseIff`). When the rename returns an error both copies are gone once the error branch has
  removed the new one (`Snapshot.RenameErrorLosesBoth` says at which cuts one is left).

## Model

| member | source | states |
|---|---|---|
| Convergence.MeasureIncremental | cmd/eval/incremental.go:396-421 | planning and driving together: over every filtered list and every count, with any parser that sees the planned texts, exactly `count` samples come back in step order, each completed at its first probe with no sleep and timed by clock readings 3i, 3i + 1 and 3i + 2, every pinned file holds exactly its pinned content and the planned appends, and the index equals indexing the final tree from scratch |
| Convergence.QuietRun | cmd/eval/incremental.go:122-184 | after i steps of an undisturbed run: i immediate answers, no sleep, and the tree and index exactly as the plan predicts |
| Convergence.QuietRunIsTimed | cmd/eval/incremental.go:133-184 | every sample of an undisturbed run is timed by three readings of its own |
| Convergence.WorldStep | cmd/eval/incremental.go:133-184 | one planned step from a tree that is as planned completes on its first probe and leaves everything as planned |
| Convergence.EveryPrefixIsPinnedPlusOne | cmd/eval/changeseq.go:129-200 | at every prefix the paths are the pinned ones plus at most one generated file, none at a cycle boundary; pinned files hold exactly what the plan appended, begin with their pinned text, and declare exactly the symbols appended to them so far |
| Convergence.ContentGrows | cmd/eval/changeseq.go:261-274 | what the plan makes of a pinned file always begins with its pinned text |
| AnyWeather.AnyRunKeepsThePinnedPaths | cmd/eval/incremental.go:315-338 | under every fault, cut-short writes included, no pinned path is ever deleted, and every other path is one an earlier add planned |
| AnyWeather.PinnedTextsSurviveIff | cmd/eval/incremental.go:328-336 | every prefix of a run keeps every pinned text as a prefix of its file if and only if no append to a pinned file was cut short of that text |
| AnyWeather.CutFirstWriteLosesTheText | cmd/eval/incremental.go:328-336 | when the very first write is cut at its start, the first listed file, pinned and not empty, is left empty |
| AnyWeather.FreshOutsideTheStale | cmd/eval/incremental.go:133-184 | after any run of any steps under any faults, the index agrees with the tree at every path whose last change was applied and ingested, or was never changed |
| AnyWeather.StepIndex | cmd/eval/incremental.go:133-160 | a step leaves in tree and index exactly what its apply and, when that succeeds, its ingest leave |
| Completion.RunCompletesIff | cmd/eval/incremental.go:122-184 | under every fault, step i of a planned run completes if and only if its apply completes, its ingest succeeds, a healthy probe comes within the budget after lagging ones only, and, for a delete, its add had opened the file |
| Completion.StepCompletesIff | cmd/eval/incremental.go:133-184 | the same for one step from the world the earlier ones left, however stale |
| Completion.WaitingSucceedsIff | cmd/eval/incremental.go:161-183 | once the new state is in the index, the wait succeeds if and only if a healthy search comes within the budget with only lagging ones before it |
| Completion.DeleteFindsItsFileIff | cmd/eval/changeseq.go:183-194 | a planned delete finds its file if and only if its own add opened it, whatever else failed |
| Completion.AddsLandOnFreePaths | cmd/eval/changeseq.go:219-225 | no planned add meets an existing file, even when earlier deletes failed |
| Completion.GeneratedPathsAreDistinct | cmd/eval/changeseq.go:219-225 | the step number can be read off a generated path, in any directory and family |
| Completion.AttributedRun | cmd/eval/incremental.go:315-342 | along the run, tree and index name each planned symbol only in files that its step writes |
| PinnedTrees.ScanSeesUncutRuns | cmd/eval/sourcefamily.go:123-369 | the line scanner meets the completion theorem's demands in every run without a cut-short write or a foreign entry left by a failed ingest |
| Convergence.EditStep | cmd/eval/changeseq.go:261-274 | a planned modify applies, keeps the tree as planned for the next step, and makes its symbol answerable |
| Convergence.AddStep | cmd/eval/changeseq.go:278-284 | a planned add applies to a path nothing occupies, keeps the tree as planned, and makes its symbol answerable |
| Convergence.DeleteStep | cmd/eval/changeseq.go:183-194 | a planned delete removes the outstanding added file, restores the pinned path set, and makes its symbol unanswerable |
| Convergence.DeletesAreGenerated | cmd/eval/changeseq.go:183-194 | a delete only ever names a generated path |
| Convergence.SymbolsAreInjective | cmd/eval/changeseq.go:210-212 | each step's symbol is unique to its step, beyond four digits too |
| PinnedTrees.LineScannerIsFaithful | cmd/eval/sourcefamily.go:123-369 | a line-based declaration scanner sees every plan in all fifteen families, so the convergence theorem's demands can be met |
| PinnedTrees.ClauseScannerIsFaithful | core/parse/parser_go.go:79-84 | so does a parser that answers nothing for a Go text without a package clause, when the pinned Go files have one and the recorded clauses survive rendering |
| PinnedTrees.ClauseScanRefuses | core/parse/parser_go.go:79-84 | that parser sees no declaration appended to an empty Go file, so nothing may be asked of it there |
| PinnedTrees.ContentKeepsClause | cmd/eval/sourcefamily.go:411-447 | no planned append changes what the clause reader finds in a pinned file |
| LineScanner.ScanSeesAppends | cmd/eval/sourcefamily.go:123-369 | the scanner sees a declaration appended to any text of any family, and no other generated one |
| LineScanner.ScanSeesAdditions | cmd/eval/sourcefamily.go:123-369 | the scanner sees a new file's own declaration and no other generated one |
| PinnedTrees.PinnedTreeExists | cmd/eval/changeseq.go:101-115 | a concrete tree, list and extraction meet every demand of the convergence theorem for any count |
| PinnedTrees.AdmittedFilesArePinned | cmd/eval/incremental.go:429-458 | the admitted candidates of any index, with the recorded clauses, over a tree that holds them and nothing generated, meet the demands, and the line scanner sees their plan |
| PinnedTrees.RecordedClausesAreUnbroken | cmd/eval/incremental.go:477-491 | every recorded clause fits on the one line it will be written on |
| PinnedTrees.AddsCarryTheFirstClause | cmd/eval/incremental.go:477-491 | every planned add of the admitted candidates carries the first clause that an indexed file of its own directory and family declares, and a planned Go file always carries one |
| PinnedTrees.EditedText | cmd/eval/changeseq.go:261-274 | a planned edit leaves the old lines, a blank one where the last was not ended, and one declaration of the step's symbol and number in the edited file's language |
| PinnedTrees.AddedText | cmd/eval/changeseq.go:278-284 | a planned add of a family with clauses writes its clause and one declaration of the step's symbol and number, and reads back with that clause exactly on the names that survive rendering |
| ChangePlanner.BuildChangeSequence | cmd/eval/changeseq.go:125-205 | the planning loop ends on every input that leaves it something to plan, with the loop's specified result; over a filtered list that is exactly `count` steps of the closed form |
| ChangePlanner.AppendCycle | cmd/eval/changeseq.go:145-194 | the four guarded slots append exactly as much of one full cycle as there is room for |
| ChangePlanner.TerminatesIffPlannable | cmd/eval/changeseq.go:117-140 | the loop ends if and only if nothing is wanted or some listed file has a family |
| ChangePlanner.FullLengthIff | cmd/eval/changeseq.go:195-203 | the plan has its full length if and only if enough of the first count + 1 cycles had a file to change |
| ChangePlanner.LastTurn | cmd/eval/changeseq.go:195-203 | the pass that ends the loop fills the plan if and only if one more cycle than the productive ones before the break would |
| FailingInputs.TextFileAloneLoopsForever | cmd/eval/changeseq.go:117-140 | one text file and one wanted change: the loop never ends |
| FailingInputs.SparseListIsCutShort | cmd/eval/changeseq.go:195-199 | five text files before the only source file and four wanted changes: the loop ends with fewer |
| FailingInputs.KotlinTerminatorIsLost | cmd/eval/sourcefamily.go:438-440 | a Kotlin file `package x;;` reads as `x;` and the sibling written with that name reads back as `x` |
| FailingInputs.TwoTerminatorsAreNotKept | cmd/eval/sourcefamily.go:438-440 | the literal file `package a;;`, with every planned sibling |
| ChangePlanner.FilteredRunEndsWithThePlan | cmd/eval/changeseq.go:125-205 | over a filtered list the loop can only stop with the whole closed form |
| ChangePlanner.CyclesAreTheClosedForm | cmd/eval/changeseq.go:129-200 | the cycles appended so far are the closed form in the step number |
| ChangePlanner.PlansArePrefixes | cmd/eval/changeseq.go:125-205 | the plan for m steps is a prefix of the plan for any n >= m |
| ChangePlanner.StepShape | cmd/eval/changeseq.go:145-194 | step i carries number i + 1, the class of its slot, and its own symbol unless it is a delete |
| ChangePlanner.StepByNumber | cmd/eval/changeseq.go:129-194 | from the step number alone: class by the remainder, and by the quotient the listed file a step edits or sets its new file beside, or the target; a new file has that file's family and the clause recorded for its directory and family |
| ChangePlanner.AddJoinsItsDirectory | cmd/eval/changeseq.go:159-164 | an added file lies in the directory of its cycle's listed file, belongs to that file's family, and carries the clause recorded for its own directory and family |
| ChangePlanner.DeleteUndoesItsAdd | cmd/eval/changeseq.go:183-194 | a delete names the file, symbol and number of the add before it in its own cycle |
| ChangePlanner.ClassesStayBalanced | cmd/eval/changeseq.go:122-124 | after any number of steps the classes in use are within one of each other and a skipped class stays at zero |
| ChangePlanner.CountClosed | cmd/eval/changeseq.go:129-200 | how many of the first m steps fall in a slot, in closed form |
| ChangePlanner.NoSubstitute | cmd/eval/changeseq.go:168-182 | without a qualified target no step is a cross-package one: the slot is skipped, never relabelled |
| ChangeSequence.SymbolForm | cmd/eval/changeseq.go:210-212 | a step's symbol is the fixed word and its number in four places, or as many as it needs from ten thousand on |
| ChangeSequence.WrapIsModulo | cmd/eval/changeseq.go:130 | the index that restarts at the end of the list is the cycle modulo its length |
| SequenceDigest.PreimageIsInjective | internal/evalreport/querylatency.go:300-308 | length-prefixed encoding is injective on lists of descriptors, whatever the descriptors contain |
| SequenceDigest.DescriptorIsInjective | cmd/eval/changeseq.go:95-97 | on planned steps equal descriptors mean equal class, path and symbol |
| SequenceDigest.EqualPreimagesMeanEqualChanges | cmd/eval/changeseq.go:231-237 | two planned sequences hash the same text if and only if they make the same changes in the same order |
| Decimal.PaddedInjective | cmd/eval/changeseq.go:210-212 | no two numbers share their %04d form |
| Decimal.ValueOfPadded | cmd/eval/changeseq.go:210-212 | reading a %04d form back gives the number |
| Decimal.ValueOfDigits | cmd/differential/main.go:496-498 | reading a %d form back gives the number |
| Decimal.PaddedWidth | cmd/eval/changeseq.go:210-212 | a %04d form has four places exactly below ten thousand, and from one thousand on it is the %d form |
| Text.SplitAppend | cmd/eval/sourcefamily.go:415 | splitting distributes over concatenation at a separator |
| Text.JoinSplit | cmd/eval/sourcefamily.go:415 | joining the parts restores the text |
| Text.SplitJoin | cmd/eval/sourcefamily.go:415 | splitting a join restores separator-free parts |
| Text.TrimSpaceAround | cmd/eval/sourcefamily.go:416 | trimming takes the white space around a text and nothing else |
| Paths.DirOfJoined | cmd/eval/changeseq.go:131 | a file named in a cleaned directory lies in that directory |
| Sorting.OrderByFirstDifference | cmd/eval/incremental.go:455 | strings sort by the first character in which they differ, a beginning before the whole |
| SourceFamily.FamilyByExt | cmd/eval/sourcefamily.go:374-386 | building the lookup table never panics, and looking an extension up finds the family of the table that owns it |
| SourceFamily.ExtensionsAreDisjoint | cmd/eval/sourcefamily.go:374-386 | no extension is claimed by two families |
| SourceFamily.ExtensionsAreListedOnce | cmd/eval/sourcefamily.go:374-386 | no family lists an extension twice |
| SourceFamily.AddedFileKeepsItsFamily | cmd/eval/changeseq.go:219-225 | an added file belongs to the family that named it, in every directory and for every step |
| SourceFamily.FamilyByName | cmd/eval/sourcefamily.go:388-400 | a path belongs to the family that owns its extension in any case, except Go tests and TypeScript declaration files |
| SourceFamily.OneSymbolOneNumber | cmd/eval/sourcefamily.go:123-369 | every family's declaration names the symbol once and carries the step number once |
| SourceFamily.ClassFilesAreNamedAfterTheirClass | cmd/eval/sourcefamily.go:90-93 | an added Java or C# file is named after the class it declares |
| SourceFamily.PhpDeclarationsAreCode | cmd/eval/sourcefamily.go:328-350 | a PHP declaration is code in a new file and behind any text |
| PackageClause.ReadPackageClause | cmd/eval/sourcefamily.go:411-447 | the line scan returns the first answering line's clause, with each shape's own cuts |
| PackageClause.EditKeepsClause | cmd/eval/changeseq.go:261-274 | appending a declaration never changes what the reader returns, for any existing content of any family |
| PackageClause.LinesOfEdit | cmd/eval/changeseq.go:261-274 | the lines of an edited file are the old lines followed by generated ones |
| PackageClause.GeneratedLinesAreSkipped | cmd/eval/sourcefamily.go:123-369 | in a family with a package clause no generated line is mistaken for one |
| FreshClause.FreshClauseRoundTrip | cmd/eval/sourcefamily.go:411-464 | an added file reads back as the clause it was rendered with, on exactly the names that survive their family's rendering |
| FreshClause.ReadingsAreUnbroken | cmd/eval/sourcefamily.go:411-447 | whatever the reader returns fits on one line and holds no separator or comment opener |
| ClauseLines.GoLineReads | cmd/eval/sourcefamily.go:415-446 | any indented clause line, with any text behind a blank or a comment opener, answers its name in a Go file, or that there is none when the name holds a dot or a terminator |
| ClauseLines.JvmLineReads | cmd/eval/sourcefamily.go:415-446 | the same in a Java or Kotlin file, with or without the terminator |
| ClauseLines.AnswersAreClauseLines | cmd/eval/sourcefamily.go:415-446 | a line that answers a name is such a line, and the name stands in it |
| ClauseLines.FileReads | cmd/eval/sourcefamily.go:411-447 | behind any lines that do not begin with the word, the first answering line decides, whatever stands below it |
| ClauseLines.NoClauseElsewhere | cmd/eval/sourcefamily.go:411-414 | the other twelve families read no clause |
| Admission.PackageTable.Admit | cmd/eval/incremental.go:477-491 | the first clause a family declares in a directory is recorded and kept; a Go file is admitted only beside a recorded clause |
| Admission.IncrementalSourceFiles | cmd/eval/incremental.go:429-458 | the candidates are exactly the admissible indexed files, sorted and mutable; the table is the walk's, and every clause in it was read from an indexed file of its own directory and family |
| Admission.AdmittedIffAdmissible | cmd/eval/incremental.go:460-491 | a path is listed if and only if it is readable and modifiable and, for a family that needs a clause, a file of its directory at or before it in the index declares one |
| Admission.ListedIffListable | cmd/eval/incremental.go:460-539 | a path is listed if and only if it is readable, parsed, of a mutation family and in no vendored tree, and, for Go, a changeable Go file of its directory declares a package by then |
| Admission.ClauselessFilesAreListed | cmd/eval/incremental.go:464-476 | a family that has no clause to declare never loses a file to the gate |
| Admission.TableHoldsTheFirst | cmd/eval/incremental.go:484-489 | the table holds exactly the first clause declared for each directory and family |
| Admission.SiblingsShareTheirClause | cmd/eval/sourcefamily.go:457-464 | a recorded clause reads back from an added sibling except for exactly the endings that rendering loses |
| Admission.PackageKeysAreInjective | cmd/eval/sourcefamily.go:483-485 | two directories, or two families in one directory, never share a table entry |
| Checkout.RepoTarget.Apply | cmd/eval/incremental.go:315-338 | the tree each class of step leaves under each fault, and success exactly when the outside lets it complete and the file it needs is there |
| Checkout.RepoTarget.WriteFile | cmd/eval/incremental.go:324-335 | the whole content, or nothing changed, or the first characters of the content; success exactly for the whole |
| Checkout.RepoTarget.Update | cmd/eval/incremental.go:340-342 | only the changed path's entry changes: re-extracted on success, whatever the failed ingest leaves otherwise; the tree is untouched |
| Checkout.RepoTarget.Answers | cmd/eval/incremental.go:351-367 | the probe answers exactly whether the step's symbol is found as a bare name among at most 25 matches, or not found for a delete; an exact name is taken to be ranked among them |
| Checkout.Lists | cmd/eval/incremental.go:356-362 | the loop over the matches finds the symbol if and only if some match has it as its bare name |
| Checkout.IncrementalEqualsFull | cmd/eval/incremental.go:340-342 | after any step, re-ingesting the one changed path equals indexing the whole new tree |
| Checkout.BareName | cmd/eval/incremental.go:369-374 | the bare name is the suffix after the last dot, and the whole name exactly when there is none |
| IncrementalDriver.Driver.RunOne | cmd/eval/incremental.go:133-184 | one step's sample and the new world are those of the step specification, every branch included; the update latency lies between the step's first two clock readings, the freshness between its first and third |
| IncrementalDriver.Driver.Wait | cmd/eval/incremental.go:161-183 | the probe loop stops where the specification says and sleeps only between two probes |
| IncrementalDriver.Driver.Run | cmd/eval/incremental.go:122-128 | the samples of a sequence are the specified ones; a failed step never cuts it short |
| IncrementalDriver.StepIsLawful | cmd/eval/incremental.go:133-184 | the failed stage decides exactly which latencies are measured, probes stay within the budget, sleeps are one fewer, and freshness is at least the update time under a monotone clock |
| IncrementalDriver.StepIsTimed | cmd/eval/incremental.go:133-184 | whichever way a step ends, its latencies lie between its own readings, the clock is read three, two, one or no times by the failed stage, and the stage is the one that failed |
| IncrementalDriver.RunIsTimed | cmd/eval/incremental.go:122-128 | along any run each sample is timed by the readings that follow those of the steps before it |
| IncrementalDriver.CompletedIsAnswered | cmd/eval/incremental.go:351-367 | a delete completes only when no indexed name ends in its symbol, any other step only when one does |
| IncrementalDriver.WaitStopsAtTheFirstAnswer | cmd/eval/incremental.go:161-183 | the wait stops at the first decisive probe, and only there or when the budget is spent |
| IncrementalDriver.RunIsLawful | cmd/eval/incremental.go:122-128 | one lawful sample per step, in order, whatever the environment does |
| ExecutionPlan.QueryExecutionPlan | cmd/eval/queryclass.go:130-147 | each planned count is some pool's share, no pool's share is missed, and nothing else is planned |
| ExecutionPlan.RaiseAll | cmd/eval/queryclass.go:137-143 | the inner loop raises exactly the pool's operations to at least its share and lowers none |
| ExecutionPlan.CeilDivIsLeast | cmd/eval/queryclass.go:149-154 | ceiling division is the least quotient that covers the dividend |
| ExecutionPlan.EveryPoolClearsTheFloor | cmd/eval/queryclass.go:110-147 | every non-empty pool reaches the minimum |
| ExecutionPlan.DistinctPoolClearsTheFloor | cmd/eval/queryclass.go:110-147 | a pool of distinct operations reaches it counting each operation once |
| ExecutionPlan.FloorIffDistinctShares | cmd/eval/queryclass.go:110-147 | with each operation counted once, a pool clears the floor alone, and beside every choice of other pools, if and only if its distinct operations' shares add up to the minimum |
| ExecutionPlan.DistinctSharesClearTheFloor | cmd/eval/queryclass.go:110-147 | those shares are enough whatever the other pools are |
| ExecutionPlan.FloorIffLargestSharesAddUp | cmd/eval/queryclass.go:110-147 | in a given list of pools, one of them clears the floor, each operation counted once, if and only if the largest shares that the list asks of its distinct operations add up to the minimum |
| ExecutionPlan.PlanIsLargestShare | cmd/eval/queryclass.go:130-147 | an operation is planned the largest share of the pools that name it |
| ExecutionPlan.RepeatedOperationMissesTheFloor | cmd/eval/queryclass.go:158-204 | beside the three class pools, a gate that names one operation twice misses the floor of 1000 unless the operation is `search` |
| ExecutionPlan.PlanIsLeast | cmd/eval/queryclass.go:130-147 | the plan is the pointwise least table giving every operation its share in every pool |
| ExecutionPlan.PlanIgnoresPoolOrder | cmd/eval/queryclass.go:130-147 | neither the order of the pools nor repeating one shows in the plan |
| ExecutionPlan.PlanStaysWithinBudget | cmd/eval/queryclass.go:130-147 | the whole plan stays within one ceiling of executions per pool |
| ExecutionPlan.LargestTarget | cmd/eval/querylatency.go:173-180 | the running maximum is the largest planned count |
| ExecutionPlan.SampleIsClamped | cmd/eval/querylatency.go:173-183 | the symbol sample follows the largest target between 25 and 250 |
| ExecutionPlan.UngatedStructuralAtTheFloor | cmd/eval/querylatency.go:138-151 | at the floor of 1000, beside the class pools and any gates that do not name it, a structural operation runs 167 times over a sample of 250 |
| ExecutionPlan.UngatedStructuralCoverage | cmd/eval/querylatency.go:60-67 | an ungated structural operation cycles its whole symbol sample if and only if at least 1495 executions are requested |
| StallObserver.MeasureWindow | cmd/eval/stalls.go:87-122 | over any event stream and monotone clock: n - 1 intervals numbered from 1 for n events, and lead-in, intervals and tail add up to the wall clock, short of it by at most n microseconds |
| StallObserver.Observer.Begin | cmd/eval/stalls.go:87-91 | opening a window sets both clocks to one instant |
| StallObserver.Observer.Observe | cmd/eval/stalls.go:96-112 | the first event sets the lead-in, each later one appends exactly one interval, and the account stays reconciled |
| StallObserver.Observer.End | cmd/eval/stalls.go:116-122 | the tail is measured exactly when an event was seen |
| StallObserver.Observer.Conservation | cmd/eval/stalls.go:127-141 | the parts reconcile with the published wall clock |
| IngestProgress.Replay | cmd/graphi/progress.go:94-173 | over any stream of events and ticker draws, then Finish twice: one phase per opening event, each phase's account holds exactly the stretches for which it was open, up to the finish reading, and the durations sum to that reading minus the first event's when a call takes no time, and to at most that under any monotone clock |
| IngestProgress.Receive | cmd/graphi/progress.go:66-134 | each call keeps the observer's fields equal to the ledger of the calls so far |
| IngestProgress.LedgerBySegments | cmd/graphi/progress.go:94-110 | the ledger of any stream, phase by phase: what each opening event opened and the next one closed |
| IngestProgress.FinishedAccount | cmd/graphi/progress.go:139-173 | what the finish leaves on each phase's account |
| IngestProgress.Progress.Handle | cmd/graphi/progress.go:94-134 | one event closes the open phase exactly on a change of phase and keeps the account balanced |
| IngestProgress.Progress.Account | cmd/graphi/progress.go:98-110 | only a change of phase moves time between accounts |
| IngestProgress.Progress.EnterPhase | cmd/graphi/progress.go:101-107 | the open phase is credited up to the call and the next one is opened |
| IngestProgress.Progress.ClosePhase | cmd/graphi/progress.go:164-173 | closing credits the open phase once, at a later reading than the one that reopens it |
| IngestProgress.Progress.Announce | cmd/graphi/progress.go:118-133 | a mark is announced exactly when it is the highest quarter reached and higher than the last one announced |
| IngestProgress.Progress.Tick | cmd/graphi/progress.go:66-90 | the animation never touches the account |
| IngestProgress.Progress.Finish | cmd/graphi/progress.go:139-160 | every instant from the first event to the call is credited, and a second Finish changes nothing |
| IngestProgress.FewBelow | cmd/graphi/progress.go:118-133 | at most four quarter marks are announced per phase |
| BindStatus.RunAttempt | cmd/graphi/mcpbind.go:43-161 | state and lines of one attempt are the specified ones; under a monotone clock that never reads zero the waiting lines are recorded at clock readings at least 60 s apart, number at most 1 + T/60 s, and the first wait always prints |
| BindStatus.AttemptRecords | cmd/graphi/mcpbind.go:137-161 | an instant is recorded exactly for a waiting line, and only readings are recorded |
| BindStatus.Status.BeginAttempt | cmd/graphi/mcpbind.go:43-53 | a new attempt forgets the last one's announcements |
| BindStatus.Status.HandleEvent | cmd/graphi/mcpbind.go:56-71 | a busy lock stamps the start of a wait unless one is on, and nothing else does |
| BindStatus.WaitIsTimedFromItsFirst | cmd/graphi/mcpbind.go:56-71 | from its first busy observation to its end a wait is timed from that observation, however often the lock is busy again |
| BindStatus.Status.AnnounceBindEvent | cmd/graphi/mcpbind.go:137-161 | a waiting line is printed exactly when it is the attempt's first or the gap has passed, and is recorded exactly then |
| BindStatus.Step | cmd/graphi/mcpbind.go:56-88 | one callback leaves the specified state and prints the specified lines |
| BindStatus.SpacedIsFew | cmd/graphi/mcpbind.go:11-21 | spaced instants in a window of length t number at most 1 + t / gap |
| VerbRewrite.RewriteVerbArgs | cmd/graphi/verbs.go:66-116 | the rewritten arguments are the pulled prefix, the verb, the promotion when it applies, and the rest |
| VerbRewrite.PullFront | cmd/graphi/verbs.go:67-88 | the front pull stops at the first token that is not one of the two flags it knows |
| VerbRewrite.ExtractFlagsMeta | cmd/graphi/main.go:233-261 | the index loop reads off the specified values and leftover |
| VerbRewrite.ShortVerbMeansLongForm | cmd/graphi/verbs.go:66-116 | for every argv the global values are those of the original and the leftover is the verb, then `-symbol` exactly when the leading remaining token is promoted, then the original leftover |
| VerbRewrite.ScanThroughPrefix | cmd/graphi/main.go:233-261 | a pulled prefix sets the same values in front of any tail |
| VerbRewrite.PromotedIsFirstLeftover | cmd/graphi/verbs.go:92-114 | what the promotion promotes is the first of the original leftover |
| VerbRewrite.RewriteByShape | cmd/graphi/verbs.go:66-116 | leading -db and -daemon flags, separate or joined, stay in front in any number, then the verb, then -symbol exactly when the next token is bare and no token is a symbol flag |
| VerbRewrite.PrefixIsFlags | cmd/graphi/verbs.go:67-88 | what is pulled is whole flags, and no flag follows it |
| VerbRewrite.ScanFindsTheLast | cmd/graphi/main.go:233-261 | scanning any mix of global flags and other tokens finds the value given last for each flag and the others in their order |
| VerbRewrite.LoneFlagIsLeftOver | cmd/graphi/main.go:233-261 | a flag that ends the arguments without a value is an ordinary token |
| MountTable.MatchMountTable | cmd/eval/environment.go:312-324 | the answer is the type of a containing entry that no containing entry outlasts, or empty when none contains the path |
| MountTable.UnderPathIsComponentPrefix | cmd/eval/environment.go:328-336 | containment holds if and only if the point's components are a prefix of the path's |
| MountTable.LongerIsDeeper | cmd/eval/environment.go:312-324 | among directories containing one path, longer names are deeper and equally long ones the same |
| MountTable.ChosenIsDeepest | cmd/eval/environment.go:312-324 | the answer is the last entry at the deepest containing mount point, and entries tied there name the same point |
| Scorecard.Calculate | engine/scorecard/scorecard.go:66-110 | an error exactly when the scores are not six known areas within 0..100; otherwise the weighted sum, the sorted floored areas, and a pass exactly at the target with nothing floored |
| Scorecard.OverallIsBetween | engine/scorecard/scorecard.go:82-100 | the overall score lies between any bounds all six areas obey |
| Scorecard.WeightsSumToOneHundred | engine/scorecard/scorecard.go:20-27 | the weights sum to one hundred |
| Scorecard.OverallInFull | engine/scorecard/scorecard.go:14-27 | the overall score, the target and the floor area by area |
| Scorecard.TargetEverywherePasses | engine/scorecard/scorecard.go:102 | six areas at the target reach it together |
| ReleaseGate.EvaluateGates | cmd/release-gate/policy.go:172-211 | the outcomes are the sorted duplicate-free union of supplied and required gates, each with its own state, ERROR for an absent one |
| ReleaseGate.EvaluationIsUnique | cmd/release-gate/policy.go:172-191 | the map's iteration order never shows in the outcomes |
| ReleaseGate.EvaluationCovers | cmd/release-gate/policy.go:168-191 | every supplied and every required gate has its outcome in the list |
| ReleaseGate.GateNames | cmd/release-gate/policy.go:173-191 | the names are sorted, distinct and exactly the union |
| ReleaseGate.OneCellDiffers | cmd/release-gate/policy.go:89-120 | the two contexts differ in the UNVERIFIED cell alone, and release lets nothing but PASS through |
| ReleaseGate.WrappingKeepsTheState | cmd/release-gate/policy.go:135-146 | wrapping an error never moves its gate to another state |
| ReleaseGate.UnverifiedAbsorbs | cmd/release-gate/policy.go:131-146 | joined errors are UNVERIFIED exactly when one of them is, ERROR exactly when one is ERROR and none UNVERIFIED, and FAIL exactly when all are |
| ReleaseGate.StateByCauses | cmd/release-gate/policy.go:135-146 | an error is UNVERIFIED exactly when unwrapping it reaches an UnverifiedError, ERROR exactly when it reaches a GateError and none of those, and FAIL exactly when it reaches neither |
| ReleaseGate.OneStatePerAnswer | cmd/release-gate/policy.go:135-146 | no error, a plain error, an UnverifiedError and a GateError are PASS, FAIL, UNVERIFIED and ERROR |
| ReleaseEvidence.Run | cmd/release-gate/gate.go:80-170 | the verdict passes exactly when no gate blocks, every measurement succeeded, nothing was removed or regressed and the six scores pass; the run dies exactly when the scores are no scorecard; its errors are the blocked gates and failed measurements, its warnings the UNVERIFIED gates in pr |
| ReleaseEvidence.Fold | cmd/release-gate/gate.go:88-98 | blocking outcomes become errors and other non-PASS ones warnings, in order |
| ReleaseEvidence.PassMeansMeasured | cmd/release-gate/gate.go:145-168 | a pass means every area was measured at the floor or above: nothing passes by default |
| ReleaseEvidence.ReleaseIsPrPlusVerified | cmd/release-gate/policy.go:89-120 | release passes if and only if pr passes on the same answers and no gate is UNVERIFIED, which is if and only if all gates ran and reported PASS |
| ReleaseEvidence.PassesByAnswers | cmd/release-gate/policy.go:89-191 | a run passes exactly when the measurements do and each declared and supplied gate answered without an error, or, in pr, with one that holds an UnverifiedError; a context nobody has heard of is as strict as release |
| ReleaseEvidence.UnverifiedGateNames | cmd/release-gate/policy.go:217-225 | exactly the names of the UNVERIFIED outcomes, in order |
| ReleaseEvidence.DocsDir.Publish | cmd/release-gate/gate.go:222-253 | refuses before any write exactly when a gate is UNVERIFIED, naming all of them; otherwise leaves exactly the files its write faults allow, and succeeds only when both are still there, stamped with the gate's commit or else the report's |
| ReleaseEvidence.ReleaseGateCommand | cmd/release-gate/main.go:43-82 | in either context a changed document means every required and supplied gate ran and reported PASS; such a run does publish when its writes succeed; the exit codes say which case it was; any context flag but pr demands full verification to exit 0, and an unknown one exits 2 |
| ReleaseEvidence.UnverifiedShows | cmd/release-gate/policy.go:213-225 | the outcome list shows an UNVERIFIED gate exactly when there is one |
| ReleaseEvidence.PassingIsVerifiedUnlessRefused | cmd/release-gate/main.go:59-82 | a passing run without an UNVERIFIED gate is a fully verified one, and conversely |
| Percentile.PercentileWithin | internal/evalreport/coldrun.go:290-298 | a percentile is within a limit if and only if at least its rank of the samples is |
| Percentile.MaximumWithin | internal/evalreport/coldrun.go:406-413 | the last of the sorted samples is within a limit if and only if all are |
| Percentile.RankIsCeiling | internal/evalreport/coldrun.go:316-331 | the rank is the least count that makes up p percent |
| Percentile.PercentilesAreMonotone | internal/evalreport/coldrun.go:280-298 | a higher percentile is never smaller |
| Percentile.TenSamplesP95IsMaximum | internal/evalreport/coldrun.go:316-331 | below twenty samples the p95 is the maximum |
| ColdRuns.ColdRunSampleFrom | cmd/eval/coldseries.go:318-358 | a run is completed exactly when it could be run, was not killed and produced a wall clock, whatever its exit code |
| ColdRuns.RecomputeColdAggregates | internal/evalreport/coldrun.go:352-417 | the aggregates are those of each metric's samples over completed runs, and a metric without samples is absent |
| ColdRuns.PercentileOfRuns | internal/evalreport/coldrun.go:352-417 | a published p50, p95 or maximum is within a limit if and only if that share of the reporting runs is |
| ColdRuns.WallclockOfEveryRun | internal/evalreport/coldrun.go:370-372 | the wall-clock distribution misses no completed run |
| ColdRuns.CountsOfEveryRun | internal/evalreport/coldrun.go:376-381 | neither do the node and edge counts, zero or not |
| ColdRuns.RatioOfRun | internal/evalreport/coldrun.go:382-386 | the bytes per edge times the edges are the bytes, and there is no ratio without both |
| ReferenceScenario.ValidateReferenceScenario | cmd/eval/refscenario.go:259-291 | accepts exactly the contracts that satisfy every rule |
| ReferenceScenario.ValidateRunnerClasses | cmd/eval/refscenario.go:293-328 | accepts exactly the lists with distinct ids, one documented reference class and annotated comparisons |
| ReferenceScenario.CheckClass | cmd/eval/refscenario.go:304-322 | one class passes exactly when it is documented or annotated for its role and names its source |
| ReferenceScenario.RequireEnvironment | cmd/eval/refscenario.go:331-361 | accepts exactly the classes with all eight facts |
| ReferenceScenario.ReferenceClass | cmd/eval/refscenario.go:206-213 | returns the first reference class, or none exactly when there is none |
| ReferenceScenario.LookupFindsTheReference | cmd/eval/refscenario.go:204-213 | in an accepted list that class is the only reference and is documented; all others are annotated comparisons |
| ReferenceScenario.ValidateGates | cmd/eval/refscenario.go:363-404 | accepts exactly the gate lists with distinct, well-formed ids covering the PRD's rows |
| ReferenceScenario.GatesAreAPermutationOfThePrd | cmd/eval/refscenario.go:55-69 | an accepted gate list is a permutation of the ten PRD ids, each carried by exactly one gate |
| ReferenceScenario.ValidateStopRule | cmd/eval/refscenario.go:431-462 | accepts exactly the stop rules strictly wider than every peak-RSS gate, after MB are converted, with complete observations |
| ReferenceScenario.StopRuleIsWider | cmd/eval/refscenario.go:431-462 | an accepted contract has exactly one peak-RSS gate and its stop rule is strictly wider |
| ReferenceScenario.AcceptedGatesAreLimits | cmd/eval/refscenario.go:363-404 | every accepted gate is an upper limit above zero with its unit, metric, repository and story; only the count of kills may be zero |
| ReferenceScenario.AcceptedContractIsComplete | cmd/eval/refscenario.go:259-345 | what else an accepted contract states, item by item |
| ZeroBudgets.WalkForZero | cmd/eval/refscenario.go:558-578 | no error exactly when no number anywhere in the document is zero; an error names the first such position, keys in sorted order and items by index |
| ColdGates.EvaluateOom | cmd/eval/coldgates.go:386-437 | FAIL exactly when a signal fired; PASS exactly with a verified limit, a completed run and all three signals collected and absent |
| ColdGates.ProvenanceIsIdempotent | cmd/eval/coldgates.go:348-374 | downgrading twice is downgrading once, loses no observation, and lets a verdict through only without a blocker |
| ColdGates.EvaluateColdGate | cmd/eval/coldgates.go:171-235 | PASS and FAIL are exactly measurements of a bound aggregate in the gate's unit, of the candidate on the reference scenario, over a sufficient series |
| ColdGates.EvaluateStopRule | cmd/eval/coldgates.go:241-263 | triggered exactly when a measured peak exceeds the threshold, unknown exactly when none was measured |
| ColdGates.ReadColdGates | cmd/eval/coldgates.go:83-105 | each of this story's gates is read once, in contract order, under its own id; without a readable contract nothing passes |
| ColdSeries.RunColdSeries | cmd/eval/coldseries.go:112-199 | PASS and FAIL each hold exactly under a condition on the inputs of the whole run; completed and aborted runs add up to the requested ones |
| ColdSeries.PassingIsTheCondition | cmd/eval/coldseries.go:363-387 | PASS if and only if: reference scenario, clean matching candidate, at least ten runs all measured, gates of this story non-empty and each met, stop rule not triggered |
| ColdSeries.FailingIsTheCondition | cmd/eval/coldseries.go:363-387 | FAIL if and only if nothing completed, the stop rule fired, or a gate about the candidate was measured as missed |
| ColdSeries.ColdSeriesStatus | cmd/eval/coldseries.go:363-387 | FAIL beats UNKNOWN beats PASS, with the exact conditions of each |
| ColdSeries.RunOomCheck | cmd/eval/coldgates.go:302-346 | PASS exactly when the method was followed to the letter on the contract's repository; not exercised is never a verdict |
| ColdSeries.RunAll | cmd/eval/coldseries.go:163-185 | one sample per requested run, in order, counted as completed or aborted |
| ColdSeries.PassMeansFastRuns | cmd/eval/coldseries.go:363-387 | a PASS with the p95 gate means at least 95 of every 100 requested runs indexed within the threshold |
| ColdSeries.PassBoundsEveryPeak | cmd/eval/coldgates.go:61-78 | a PASS with the peak-RSS gate means no run that reported a peak exceeded it |
| ColdSeries.PassIsInsideTheStopRule | cmd/eval/coldgates.go:241-263 | under an accepted contract such a PASS also measures the stop rule, strictly inside it |
| ColdSeries.WholeDistribution | internal/evalreport/coldrun.go:381-391 | a metric's distribution is whole exactly when every completed run reported it |
| ColdSeries.OneSamplePerReport | internal/evalreport/coldrun.go:381-391 | a metric has exactly as many samples as child processes that were measured and reported it |
| ColdSeries.PassRestsOnReports | cmd/eval/coldgates.go:171-235 | under a PASS, the published count behind each gate is the number of runs that reported its metric: positive, every run for the clock gates, and at least the minimum exactly when that many runs reported |
| ColdSeries.PassOnOneSample | cmd/eval/coldseries.go:363-387 | ten measured runs of which one reports a peak of 100 MB pass the peak-RSS gate on that single sample |
| ColdSeries.VerdictIgnoresRevisions | cmd/eval/coldseries.go:173-181 | whatever revisions the children were measured by, PASS and FAIL hold under the same inputs |
| ColdVerdict.PassByRuns | cmd/eval/coldseries.go:112-199 | PASS if and only if, run by run: at least ten runs that all came back, all about the candidate on the reference scenario; half or 95 of 100 of them within the clock gates, every reported peak and size within theirs, the constrained run survived where a gate asks it, and no peak above the stop rule |
| ColdVerdict.FailByRuns | cmd/eval/coldseries.go:112-199 | FAIL if and only if, run by run: none came back, some peak is above the stop rule, or the runs miss an own gate that can be read for the candidate |
| ColdVerdict.GateByRuns | cmd/eval/coldgates.go:55-78 | each of the four gates is met, or missed, exactly by what the runs reported in its unit |
| ColdVerdict.MatchIsSameRevision | cmd/eval/coldseries.go:158-159 | two hexadecimal revisions match exactly when they are the same up to case, and lower-case ones when they are equal |
| ColdVerdict.PassMeansTheCandidate | cmd/eval/coldseries.go:158-159 | a PASS measured the candidate revision |
| ColdVerdict.DirtyIsNoCandidate | cmd/eval/coldseries.go:158-159 | a dirty tree never matches |
| ColdVerdict.PassBoundsEverySize | cmd/eval/coldgates.go:61-78 | a PASS with the database gate means no run reported a larger database |
| ColdVerdict.PassMeansHalfAreFast | cmd/eval/coldgates.go:61-78 | a PASS with the p50 gate means at least half of the requested runs indexed within the threshold |
| ColdVerdict.OomByRun | cmd/eval/coldgates.go:302-437 | the out-of-memory check passes or fails exactly by what the constrained run left behind |
| ColdVerdict.MegabytePeakNeverPasses | cmd/eval/coldgates.go:200-203 | a peak gate in any unit but GB lets no series pass |
| RetrievalRows.LineStart | cmd/differential/main.go:465-483 | the nested loops read the wrapped decimal before the first dash, and zero for anything else |
| RetrievalRows.SpanRoundTrip | cmd/differential/main.go:465-502 | every line a Go int can hold is read back from its printed span; an absent span reads as zero |
| RetrievalRows.RoundTripIffItFits | cmd/differential/main.go:465-483 | a longer decimal wraps: the round trip holds exactly below 2^63 |
| RetrievalRows.SpanReadsItsStart | cmd/differential/main.go:465-483 | a span reads as the wrapped number before its first dash whatever follows it, and as 0 without a dash or with anything else before it |
| RetrievalRows.RowBeforeNode | cmd/differential/main.go:436-454 | a row's own path and span come before its node's |
| RetrievalRows.ReconstructRows | cmd/differential/main.go:485-502 | each id becomes its node's row, or an empty one when the store does not know it |
| RetrievalRows.HitsFor | cmd/differential/main.go:436-454 | the projection loop computes the specified hits |
| RetrievalRows.HitsAreASubsequence | cmd/differential/main.go:436-454 | the hits are an order-preserving subsequence of the rows, ranked 1..n, with no empty path |
| RetrievalRows.HitsOfIds | cmd/differential/main.go:436-502 | rebuilding and projecting loses nothing: each hit carries its node's own path and line, and every known id with a path has one |
| Snapshot.SnapshotDir.CreateSnapshot | cmd/graphi/snapshot.go:96-175 | stopped after any number of file steps, under any faults, the disk is what playing that many of the listed steps leaves |
| Snapshot.StepByStep | cmd/graphi/snapshot.go:117-174 | playing the listed file steps one at a time reaches the closed form at every cut |
| Snapshot.FinalIsNeverPartial | cmd/graphi/snapshot.go:164-172 | stopped anywhere, the final name reads as before, as nothing, or as the whole new store, unless a rename published a torn one |
| Snapshot.SomeCopySurvivesIff | cmd/graphi/snapshot.go:164-172 | if a snapshot existed and the rename does not err, a complete store remains under one of the names if and only if the rename was not reached or published a whole store |
| Snapshot.FailedBuildKeepsFinal | cmd/graphi/snapshot.go:159-162 | a failed build leaves the final name untouched and cleans up |
| Snapshot.RenameErrorLosesBoth | cmd/graphi/snapshot.go:167-172 | exactly at which cuts a run whose rename errs leaves a complete store; a finished one leaves neither |
| Snapshot.PublishedIff | cmd/graphi/snapshot.go:125-175 | a run that answers 0 published the whole new store if and only if its journal was folded in and no stale one survived a refused removal; otherwise what it published is torn |
| Snapshot.CopyLeftIff | cmd/graphi/snapshot.go:117-172 | exactly when a run in which at most the closing fails, stopped after k steps, leaves a complete store somewhere |
| Snapshot.TwoCrashesLoseIff | cmd/graphi/snapshot.go:117-172 | exactly which pairs of crashes lose an existing snapshot |

## Left out

- Bytes and UTF-8: a Go string is a sequence of characters, so a length counts characters.
- Unicode beyond ASCII in `strings.ToLower` and `strings.EqualFold`, except the letters that fold into ASCII.
- The `expect` texts, reasons, warnings, progress lines, ETA texts, summaries and Markdown or JSON rendering.
- Checkout.RepoTarget.Answers: the search's ranking is not modelled; a name that is the symbol is taken to be among its 25 matches.
- SHA-256 itself: digests are compared by the text they hash.
- The parsers, the store, the ingester, the embedder and the warm-start machinery.
- The ingester's record of earlier failures: an ingest that succeeds brings its own path's entry up to date and touches no other, while the engine purges every recorded path that is gone from disk, and a deleted file's nodes only when it had recorded them.
- Discovery and ranking of cross-package targets: a target is a path.
- `executeWarmOperation`, `executionsFor` and `gatePools`: thin loops around the plan; the class pools are constants.
- `embedProgress`, which throttles the way the ingest renderer does, and the rendering of the bind status.
- `stallStatus`, `incrementalStatus` and the report assembly around them: the same fold as the cold series' verdict, over fewer fields.
- Mutexes: calls on one observer are sequential.
- Parsing of mount tables, CPU and memory probes, environment capture.
- `ParseContext`'s error text, the step summary file, and the stale-warning filter of the release report.
- Floating point: scores, percentiles and thresholds are real numbers, so rounding and NaN are not modelled.
- The kernel-log matcher: its collected and fired answers are inputs.
- Profiling on a missed gate, raw export and the exit code of the cold-series command.
- JSON parsing of contracts and budgets, and the order in which a validator finds the first of several faults.
- SQLite's own journal replay: a main file beside another file's leftover journal reads as torn, and one whose journal was not folded in reads whole only beside that journal.
- Convergence.MeasureIncremental: asks that no repository file carries a generated name or symbol, because nothing in the source prevents one.
