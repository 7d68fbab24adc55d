# Kanly, verified

A Dafny model of Kanly, a mutation tester for Go, and proofs about it. Kanly
writes every mutant of a package into one "metaprogram" and picks one of them
at run time by an environment variable. The model covers the four places where
that can go wrong.

**The mutant-schema compiler.** `Syntax.dfy` is a fragment of Go with the nodes
that mutants replace, and the calls the rewriter inserts. `Semantics.dfy` is a
left-to-right big-step evaluator for both, with the generated dispatchers as
built-in operations. It threads local variables and a trace of every variable
access, call, memory access and channel operation, and its results are values,
panics, blocking or exhausted fuel. Memory, channels and functions outside the
program answer as an arbitrary function of the trace. `Operators.dfy`,
`SwitchRewrite.dfy` and `IntLiterals.dfy` are the mutation operators,
`Numbering.dfy` and `Grouping.dfy` the rewriter's bookkeeping, `Schema.dfy` the
post-order rewrite and, beside it and independent of it, the program with one
mutation applied. `Emission.dfy` shows that every emitted mutation fits its
node, `Placement.dfy` that its ID reaches the rewritten program.
`SwitchCases.dfy` and `CallSites.dfy` show what one rewritten node does,
`Congruence.dfy` and `Correctness.dfy` lift it to whole programs, and
`SchemaTheorems.dfy` states the result for every package, every mutation that
the rewriter records, and every function, argument, outside world and fuel.
`Completeness.dfy` shows that the operators miss nothing of their shape.
`SwitchSwaps.dfy` and `SwapTheorems.dfy` compare a switch with two clauses
swapped with what is documented for it, and `DropTheorems.dfy` settles which
dropped cases can show at all. The mutant programs take the value that replaces
a returned one from the mutation's text, the schema from the node's type.

**The run scheduler.** `Scheduler.dfy` is a transition system over any number
of pipelines: one FIFO weighted semaphore of worker slots, a second bound on the
pipelines in flight, one lock for each directory, workers, re-runs that take
every slot, and errors that cut a pipeline short at any point. Progress is
proved without counting on an error ever to happen. `Fairness.dfy` shows that
slots are granted in the order they are asked for, and `WorkDone.dfy` counts
what a finished run has started and waited for.

**Verdicts and the kill cache.** `Verdicts.dfy`, `MutantLoop.dfy` and
`KillCache.dfy` are the loops that turn process outcomes into results,
`Packages.dfy` puts the results of all packages together, and
`KillHistory.dfy` follows the cache over any history of runs. The assumption,
stated in `KillHistory.Honest`, is that a test known to kill a mutant with a
given key, under a given source hash, always does, and that a suite whose tests
include such a test ends as killed.

**Self-contained algorithms.** `EditDistance.dfy`, `Coverage.dfy`,
`Quarantine.dfy`, `Selector.dfy` and the literal arithmetic in
`IntLiterals.dfy`, each as the source's own loops against a specification.

The Go Programming Language Specification fixes what the evaluator does:
"Order of evaluation", "Expression switches", "Fallthrough statements",
"Logical operators", "Integer overflow" and "Operators" (shifts). The evaluator
does not fold constants. A constant subexpression without a literal that the
operator rewrites stands in the model as the value the compiler folds it to;
one with such a literal is evaluated at its type's width, and
`ConstFolding.RunsAsFolded` shows that this gives the value that "Constant
expressions" asks for.

`dafny verify dfyconfig.toml` checks everything.

## Where the code and its documentation differ

- The switch operator is documented as swapping the bodies of two adjacent
  clauses, but it exchanges the entry clause, and fallthrough still follows
  textual position. `SwapTheorems.SwapExactly`: every run of every switch with
  given fallthroughs is as documented exactly when neither body ends in
  fallthrough and no clause falls into the pair. Otherwise a switch whose bodies
  only assign a constant shows the difference.
- The literal operator is documented to drop only the values that the
  literal's type cannot hold. It works in an int64, so it leaves a uint64
  literal above 2^63-1 alone, wraps n+1 at 2^63-1 in a signed type and loses it
  in an unsigned one; and it takes int, uint and uintptr as 32 bits wide while
  the literal fits, so on a 64-bit target it loses n+1 at 2147483647 and
  4294967295. `IntLiterals.MutantValuesExact`: outside these inputs the emitted
  values are the documented ones, and at each of them they are not;
  `IntLiterals.WrongAtWordEdges` has the values lost.
- A mutant's cache key is said to hold the source of its declaration. It holds
  that of the last declaration on the line reported for the mutant.
  `KillCache.KeyHoldsOwn`: it is the mutant's own declaration exactly when that
  spans the line and no later declaration does. In a file without //line
  directives this fails when two declarations share a line
  (`KillCache.KeyHoldsOwnInOrder`). With them it can fail elsewhere:
  `KillCache.KeyMissesOwn` has two functions that both report lines 2 to 5.
- `declHashes` indexes by the line that a //line directive reports. In a file
  of three lines with `//line x.go:1000` before a declaration the index is out
  of range (`KillCache.LineDirectiveOverruns`). `KillCache.DeclHashes`: it
  completes exactly when no declaration spans a reported line past the last one.
- `--verify-kills` is documented to count kills that do not reproduce as
  survived; a kill whose re-run times out stays a kill. `Verdicts.VerifiedKill`:
  a kill ends as documented exactly when its re-run does not time out.
- Suppressed mutants are documented as counted in `Ignored`. A package without a
  mutant left to run reports none of its own. `Packages.IgnoredMeans`: the count
  is right exactly when no package has suppressed mutants and none left to run.

## Model

| member | source | states |
|---|---|---|
| SchemaTheorems.ActiveMutantCorrect | internal/schema/rewriter.go:399-426 | for every recorded mutation, running the schema with its ID active gives the same result, panic and trace as the program with exactly that mutation, however sites nest or share a node |
| SchemaTheorems.InactiveTransparent | internal/schema/template.go:52-64 | with any other ID active, such as -1 or a filtered-out one, the schema runs as the original program |
| PlacementTheorems.EveryMutantPlaced | internal/schema/rewriter.go:359-426 | the rewrite of well-typed source is never refused, each recorded mutation's group is on its own node with any shape-specific rewrite innermost, and the rewritten program holds its ID in a call of its own dispatcher |
| Placement.PlacedInProgram | internal/schema/rewriter.go:399-426 | no later rewrite, on the same node or around it, loses the call that holds a mutation's ID |
| Placement.PutsAllE | internal/schema/rewriter.go:411-424 | every ID of every group on one expression is in a call of its dispatcher after all of them have been applied |
| Placement.SwitchPuts | internal/operators/switch_case.go:140-215 | a rewritten switch holds the ID of each of its drops and swaps |
| Emission.NeverRefused | internal/schema/rewriter.go:384-397 | no node of well-typed source gets two shape-specific groups |
| Emission.EmittedSound | internal/schema/rewriter.go:290-353 | whatever the scope, emitted mutations have distinct IDs, sit on nodes they fit, and never repeat a switch candidate |
| Correctness.SchemaRunsAsMutant | internal/schema/rewriter.go:399-426 | the simulation for any schema whose call sites agree with the dispatchers' cases |
| Congruence.CongE | internal/schema/rewriter.go:399-405 | expressions whose parts behave alike behave alike, so inner rewrites compose with outer ones |
| Congruence.CongS | internal/schema/rewriter.go:399-405 | the same for statements, loops, switches and calls included |
| Rewriter.RewriteWith | internal/schema/rewriter.go:251-455 | the result is the post-order rewrite of the grouped mutations, with the emitted mutations, ignored count and stale fingerprints of the numbering; an error exactly when some node has two shape-specific groups |
| Rewriter.FindOwner | internal/mutation/operator.go:9-35 | every candidate an operator finds names a node of the walked tree that has the operator's shape, or any expression for a wrapper |
| CallSites.NodeSites | internal/schema/rewriter.go:411-424 | all groups on one expression together behave as the expression, or as its one active mutant |
| CallSites.BinarySite | internal/operators/arithmetic.go:38-47 | an arithmetic, bitwise or comparison call site behaves as the original or the mutant operation |
| CallSites.BinDispRuns | internal/schema/template.go:66-93 | the integer dispatchers apply the active mutant's operation to the evaluated operands, and the original's otherwise |
| CallSites.LazySite | internal/operators/boolean.go:63-80 | a logic call site keeps the right operand lazy for both operators |
| CallSites.UnarySite | internal/operators/boolean.go:113-125 | a negation, receive, string or bool literal site behaves as the original or the mutant |
| CallSites.IndexSite | internal/operators/slice_index.go:21-33 | an index site offsets only the index, by the active one of its two mutants |
| CallSites.WrapSite | internal/operators/return_zero.go:111-120 | a wrapper evaluates what it wraps and replaces or offsets the value only under its mutant |
| CallSites.LitSumRuns | internal/operators/int_literal.go:52-87 | the sum of a sized literal's terms evaluates, without overflow, to n with no ID active and to v with its ID active |
| CallSites.SumOfTerms | internal/operators/int_literal.go:39-40 | no two terms of the sum are non-zero, whichever ID is active, and its value is their total |
| CallSites.LiteralSite | internal/operators/int_literal.go:48-87 | a literal site, plain or sized, is the literal or its active replacement |
| CallSites.SwapSite | internal/operators/incdec.go:59-80 | a statement-swap site runs one of its two closures |
| CallSites.SkipSite | internal/operators/call_delete.go:64-74 | a removable call or send runs, or does nothing under its mutant |
| CallSites.MeantIsMutant | internal/operators/switch_case.go:140-215 | with one ID active, the switch the rewrite stands for is the source switch with that one drop or swap |
| CallSites.StmtSite | internal/schema/rewriter.go:411-424 | a statement's group behaves as the statement or its active mutant |
| Operators.RewriteLiteral | internal/operators/int_literal.go:55-87 | the accumulating loop builds one term for the original and one for each non-zero mutant value |
| MutantFacts.YieldsSpelled | internal/schema/template.go:384-396 | through all groups on its node, a return-zero or nil-error mutant evaluates the expression and yields the value its text spells: 0, false, "" or nil |
| MutantFacts.ZeroNeutral | internal/schema/template.go:239-250 | the zero value of a removed receive is the unit of addition, the unit of concatenation, the value ! turns into true, or nil |
| SiblingFacts.SubUndoesAdd | internal/operators/arithmetic.go:18-25 | the sibling of addition undoes it, wrapped or not |
| SiblingFacts.AddUndoesSub | internal/operators/arithmetic.go:18-25 | the sibling of subtraction undoes it, wrapped or not |
| SiblingFacts.QuoUndoesMul | internal/operators/arithmetic.go:18-25 | the sibling of multiplication undoes one that does not overflow |
| SiblingFacts.ShrUndoesShl | internal/operators/bitwise.go:20-27 | the sibling of a left shift undoes one that does not overflow |
| Completeness.FindsBinary | internal/operators/arithmetic.go:18-36 | every arithmetic, bitwise, comparison or logic operation the type checker admits is found, with its table's replacement |
| Completeness.FindsUnary | internal/operators/boolean.go:90-112 | so is every negation, receive, and non-empty string or bool literal |
| Completeness.FindsLiteral | internal/operators/int_literal.go:152-181 | so is every value that the literal's arithmetic allows |
| Completeness.FindsIndex | internal/operators/slice_index.go:35-54 | both offsets of every index, read or assigned to, are found |
| Completeness.FindsBounds | internal/operators/slice_range.go:43-75 | both offsets of every slice bound are found |
| Completeness.FindsErrors | internal/operators/err_return.go:30-54 | every returned error but a literal nil is found |
| Completeness.FindsValues | internal/operators/return_zero.go:126-178 | every returned value and struct field of the predeclared int, string or bool, or of a type with nil, is found with its own zero text, unless its shape belongs to another operator |
| Completeness.FindsStatements | internal/operators/incdec.go:30-58 | every admitted call, send, increment and compound assignment is found, with its table's replacement |
| Completeness.FindsSwitch | internal/operators/switch_case.go:75-101 | every case but an empty last one of a switch without a default is found as a drop, every two neighbours that print differently as a swap |
| Completeness.FoundIsRecorded | internal/schema/rewriter.go:270-353 | what a registered operator finds in a file that is not generated becomes a candidate, and with nothing filtered or suppressed a recorded mutation |
| Completeness.RecordedIsFound | internal/schema/rewriter.go:270-353 | every recorded mutation was found by its own, registered operator in a file that is not generated |
| Emission.ClosedPackage | internal/mutation/operator.go:9-35 | the walk visits, with every node, all that stands in it |
| DropTheorems.DropExactly | internal/operators/switch_case.go:75-90 | for every clause layout and silent case expressions: some switch of the layout runs differently without the case if and only if something runs in it, in a later clause or in the default |
| DropTheorems.DropUnseen | internal/operators/switch_case.go:80-84 | where nothing does, no run of any such switch changes, for any tag, state, world and fuel |
| DropTheorems.EffectShows | internal/operators/switch_case.go:29-30 | with a case expression that reads a variable, the drop of any case shows, since a dropped case is not evaluated |
| DropTheorems.LiveIsFound | internal/operators/switch_case.go:75-90 | every drop that can show without effects is found |
| DropTheorems.LeftOutIsIdle | internal/operators/switch_case.go:80-84 | the drops left out cannot show, though some that cannot are found too: two empty cases without a default |
| MutantFacts.NegationFlips | internal/operators/comparison.go:20-28 | a negated comparison holds exactly when the original does not, and negating twice gives it back |
| MutantFacts.BoundaryOnEqual | internal/operators/comparison.go:12-18 | a boundary mutant differs from its original exactly on equal operands |
| MutantFacts.SiblingsDiffer | internal/operators/arithmetic.go:18-25 | each arithmetic or bitwise mutant is a different operation of the same dispatcher |
| MutantFacts.ArgumentEvaluated | internal/schema/template.go:213-225 | the error, return-zero, string, bool and not dispatchers evaluate their argument as it stands, mutant or not |
| MutantFacts.RemovedReceive | internal/schema/template.go:239-250 | a removed receive evaluates the channel expression and does not receive |
| MutantFacts.WrapperKeepsTrace | internal/mutation/operator.go:32-40 | on a node with any number of groups, a wrapper's mutant leaves the whole trace of evaluating the expression as it was |
| MutantFacts.LogicMutantFlipsRight | internal/operators/boolean.go:63-80 | through all groups on its node, the mutant of a logic operator evaluates the right operand exactly when the original does not |
| MutantFacts.RemovedIsSilent | internal/operators/call_delete.go:64-74 | with its mutant active a rewritten call or send changes no state and logs no event |
| MutantFacts.SwapStoresOnce | internal/operators/incdec.go:59-80 | a swapped increment's trace differs from the original's at most in the value of its one store |
| SwitchCases.SwitchCompiled | internal/operators/switch_case.go:140-215 | for any tag, case effects, default position and fallthrough chain, the rewritten switch makes the same evaluations and runs the same clauses as the switch it stands for |
| SwitchCases.ClosureSelects | internal/operators/switch_case.go:163-198 | the index closure picks the clause Go's selection picks, where a dropped clause's expressions are neither compared nor evaluated |
| SwitchCases.IndexSelects | internal/operators/switch_case.go:199-215 | the integer switch enters the clause whose index the tag yields |
| SwitchCases.SwapCallsRun | internal/schema/template.go:263-277 | the nested swap calls transpose the entry index and leave -1 alone |
| SwitchCases.SwapFacts | internal/operators/switch_case.go:199-215 | with distinct IDs the nested swaps amount to the one active transposition, default index included |
| SwitchRewrite.RewriteGroup | internal/operators/switch_case.go:140-215 | the loops over clauses and candidates build the closure, the guards, the swaps and the index clauses |
| SwitchRewrite.BuildClosure | internal/operators/switch_case.go:163-198 | one pass gives the tests in clause order, the default index and the new clauses |
| SwitchRewrite.IndexClauses | internal/operators/switch_case.go:144-152 | the position map answers with the last clause at a position, and 0 for one no clause has |
| SwitchSwaps.SwapAsDescribed | internal/operators/switch_case.go:20-42 | swap mutants run the exchanged bodies, for every selected clause, exactly when no body near the pair falls through |
| SwitchSwaps.SwapRunsAsDescribed | internal/schema/template.go:263-277 | then the entered switch runs as the switch with the two bodies exchanged |
| SwapTheorems.SwapExactly | internal/operators/switch_case.go:20-42 | for every placement of fallthrough statements: all switches placed so run, under every tag, state, world and fuel, as with the two bodies exchanged, if and only if none is near the pair |
| SwapTheorems.SwapOfStatement | internal/operators/switch_case.go:20-42 | the whole switch statement with the pair swapped, selection and default included, runs as the statement with the two bodies exchanged if no body near the pair ends in fallthrough |
| SwapTheorems.WrongChainShows | internal/operators/switch_case.go:20-42 | otherwise a switch of constant assignments leaves another trace |
| SwapTheorems.OnlyWrittenFalls | internal/operators/switch_case.go:199-215 | where fallthrough stands only last in a body, only a body that ends in it falls through, whatever its loops, conditionals and inner switches do |
| Numbering.Counter.constructor | internal/schema/rewriter.go:251-268 | numbering starts from nothing |
| Numbering.Counter.Add | internal/schema/rewriter.go:300-353 | one candidate's ID, occurrence count, fingerprint, acceptance, scope tests and ignored count, in the source's order |
| Numbering.Counter.AddAll | internal/schema/rewriter.go:301-353 | an operator's candidates in order |
| Numbering.Counter.AddFile | internal/schema/rewriter.go:300-353 | every operator's candidates in one file |
| Numbering.NumberAll | internal/schema/rewriter.go:268-353 | the mutations, ignored count and stale fingerprints over all files |
| Numbering.ScopingKeepsIdentity | internal/schema/rewriter.go:328-353 | a scoped run emits exactly the unscoped run's mutations that filter, operators and acceptance let through, same IDs and fingerprints, same order |
| Numbering.NothingLost | internal/schema/rewriter.go:328-338 | emitted plus ignored is the number of in-scope candidates |
| Numbering.EmittedFrom | internal/schema/rewriter.go:339-353 | each emitted mutation is its ID's candidate, and IDs increase |
| Numbering.FingerprintKeysDistinct | internal/schema/rewriter.go:318-323 | the hashed parts differ for any two candidates of a package, whatever the hash |
| Numbering.FingerprintStable | internal/schema/ignorefile.go:29-36 | candidates that are not identical to one, added anywhere in the package, leave its fingerprint alone |
| Numbering.NumberedFromOne | internal/schema/rewriter.go:318-323 | identical candidates are numbered 1, 2 and so on |
| Numbering.FingerprintIgnores | internal/schema/ignorefile.go:29-46 | moving or further indenting the line changes no fingerprint |
| Numbering.FingerprintTells | internal/schema/ignorefile.go:29-46 | equal hashed parts mean the same scope, operator, change, trimmed line and column within it |
| Numbering.RecordedIff | internal/schema/rewriter.go:324-353 | a candidate is recorded, with its own position and texts, exactly if filter and operators admit it and neither an accepted fingerprint nor a directive suppresses it |
| Numbering.CaseStmtLine | internal/schema/rewriter.go:118-129 | the line of the innermost case list holding a position, 0 for none |
| Grouping.GroupEntries | internal/schema/rewriter.go:359-382 | the grouping loop: candidates of one key on one node share a call site, in first-seen order |
| Grouping.GroupAll | internal/schema/rewriter.go:359-397 | every node's ordered groups, or an error exactly when some node is refused |
| Grouping.GroupsPartition | internal/schema/rewriter.go:370-382 | the groups on a node hold each of its mutations exactly once, by key |
| Grouping.GroupsByFile | internal/schema/rewriter.go:270-397 | mutations on different files' nodes are grouped, ordered and refused file by file as they are together |
| Grouping.SelectStable | internal/schema/rewriter.go:384-387 | the sort keeps the first-seen order of the groups of one kind |
| Grouping.OrderedShape | internal/schema/rewriter.go:384-397 | after the stable sort, a node is refused exactly when it has two shape-specific groups; otherwise all groups but the first are wrappers |
| Grouping.RefusedIff | internal/schema/rewriter.go:388-397 | refusal in terms of the mutations: two different shape-specific keys on the node |
| IntLiterals.IntLitMutants | internal/operators/int_literal.go:152-181 | the loop over the tried values emits distinct values, none equal to the literal |
| IntLiterals.MutantValuesExact | internal/operators/int_literal.go:152-212 | for every literal that its type can hold, the emitted values are exactly the members of {0, 1, -n, n+1, n-1} other than n that the type can hold, if and only if n is below the largest int64 and not the largest 32-bit value of a word-sized type of 64 bits |
| IntLiterals.WrongAtWordEdges | internal/operators/int_literal.go:196-203 | on a 64-bit target, 2147483647 as an int and 4294967295 as a uint lose n+1, which their types hold |
| IntLiterals.ExactInBounds | internal/operators/int_literal.go:156-181 | against the operator's own bounds, the values are exact unless n+1 wraps |
| IntLiterals.NoneAboveInt64 | internal/operators/int_literal.go:157-160 | a literal an int64 cannot hold gets no mutant |
| IntLiterals.MutantValuesFit | internal/operators/int_literal.go:183-212 | a replacement fits the literal's type on 32- and 64-bit targets alike |
| IntLiterals.WrapSafety | internal/operators/int_literal.go:214-238 | a constant expression keeps its exact value when every literal the rule lets through is evaluated at the type's width |
| ConstFolding.RunsAsFolded | internal/operators/int_literal.go:214-238 | the evaluator runs a constant expression, with every permitted literal live, as the constant the compiler folds it to |
| ConstFolding.CompiledRuns | internal/operators/int_literal.go:214-219 | the evaluator and the literal operator's width arithmetic agree on constant expressions |
| IntLiterals.RunIsWrappedExact | internal/operators/int_literal.go:214-219 | with no live literal under a sensitive operation, evaluating at the type's width is wrapping the exact value |
| IntLiterals.SensitiveMatters | internal/operators/int_literal.go:214-219 | without the rule it fails, on the source's own example |
| IntLiterals.InWrapSensitiveConstant | internal/operators/int_literal.go:220-238 | the ancestor walk finds a sensitive operation exactly if one lies above the literal with only constant expressions between |
| Integers.WrapSpec | internal/operators/int_literal.go:214-219 | wrapping yields the one value of the type congruent to the exact one |
| Integers.BitsCong | internal/operators/int_literal.go:214-219 | the low bits of a bitwise operation depend on the low bits of its operands only |
| Scheduler.AlwaysSafe | cmd/kanly/main.go:872-886 | in every reachable state no more processes run than there are slots, no more pipelines than jobs, a re-run alone is the only process, no directory is in use by two pipelines, and pipelines start in order |
| Scheduler.AllWorkDone | cmd/kanly/main.go:1207-1240 | a run without errors that cannot go on has finished every pipeline, and each has carried out its whole script in order |
| WorkDone.AllWorkCounted | cmd/kanly/main.go:835-886 | such a run has started, for each package, one worker for each test with coverage to collect, each test of an uncached dependent and each mutant to run, has made each re-run alone, its compiles and its baselines, and has waited for the workers between the last of them and the first re-run |
| WorkDone.DirectoriesApart | cmd/kanly/main.go:1207-1215 | two packages running at once have different directories, and neither's dependents' directories are the other's |
| Scheduler.EveryRunEnds | cmd/kanly/main.go:1207-1240 | every run is finite, and after it every pipeline has finished or a step that is no error is enabled |
| Scheduler.NoDeadlock | cmd/kanly/main.go:189-212 | while work is left some step that is no error is enabled |
| Scheduler.LockProgress | cmd/kanly/main.go:189-212 | when only lock takers are in flight one of them can take its lock, so they never wait in a circle |
| Scheduler.RunCarries | cmd/kanly/main.go:835-886 | without errors, what a pipeline has carried out and what remains make up its script |
| Scheduler.StepKeeps | cmd/kanly/main.go:835-886 | slots, queue, locks and flights agree with what the pipelines hold, at every step |
| Scheduler.NotifySettles | cmd/kanly/main.go:97-107 | granting from the head of the queue keeps the invariant and leaves a head that does not fit |
| Scheduler.AloneIsAlone | cmd/kanly/main.go:872-886 | a pipeline holding every slot leaves no other process running |
| Scheduler.StepWorks | cmd/kanly/main.go:1213-1240 | every step, a grant, an error or a cancelled wait included, decreases the work left |
| Fairness.FirstComeFirstServed | cmd/kanly/main.go:97-107 | in every run, errors included, the requests granted and then those waiting are the requests made, in the order made, less those withdrawn while they waited: no request for slots, a re-run alone included, is overtaken |
| Fairness.GrantedHold | cmd/kanly/main.go:97-107 | the requests granted in a step are those of the pipelines that start to hold slots in it |
| Scheduler.LockOrder | cmd/kanly/main.go:191-195 | the locks of a pipeline are strictly increasing and exactly its directories |
| Scheduler.ScriptJoined | internal/runner/runner.go:527-582 | in a package's run every worker started is waited for before it ends |
| Scheduler.Initial | cmd/kanly/main.go:1213-1215 | the initial state meets the invariant, with each package's directories and script |
| Verdicts.RunMutantSuites | cmd/kanly/main.go:451-485 | killed if any suite kills, else timed out if any does; the killers up to the first killing suite with fail-fast, of all of them without |
| Verdicts.FailFastKillers | cmd/kanly/main.go:472-475 | stopping at the first killing suite gives a prefix of the killers and never another verdict |
| Verdicts.ConfirmVerdicts | cmd/kanly/main.go:331-355 | in place, each result becomes its confirmed one and no other result changes |
| Verdicts.ConfirmedMeans | cmd/kanly/main.go:323-355 | a final timeout has timed out twice; a kill becomes a survivor exactly when its re-run survives; a replaced verdict comes with its re-run's killers and note |
| Verdicts.OnlyAskedSuites | cmd/kanly/main.go:451-485 | a suite with no covering test has no say in the verdict |
| Verdicts.VerifiedKill | cmd/kanly/main.go:323-330 | with kills verified, a kill ends as a survivor if its re-run does not kill and as a kill otherwise, exactly when that re-run does not time out |
| Packages.RunPackages | cmd/kanly/main.go:1207-1262 | whatever order the packages finish in, and the mutants of each of them, the report is the one of the packages taken one by one |
| Packages.RunPipelines | cmd/kanly/main.go:1217-1240 | each pipeline writes its own job's ending |
| Packages.Collect | cmd/kanly/main.go:1242-1262 | the endings are put together in the order of the jobs |
| Packages.CollectedPlus | cmd/kanly/main.go:1074-1076 | the report on two lists of packages is one report after the other, so a package that fails takes nothing from its siblings |
| Packages.PartInPlace | cmd/kanly/main.go:1137-1140 | every package's part stands in its place in the report |
| Packages.PartMeans | cmd/kanly/main.go:1242-1262 | a failed package adds its error alone, one without mutants left its stale entries alone, any other all its results, ignored count, excluded tests and inventory |
| Packages.IgnoredMeans | cmd/kanly/main.go:637-639 | the ignored count is the number of mutants suppressed in packages that did not fail, if and only if no package has some suppressed and none left to run |
| MutantLoop.RunMutants | cmd/kanly/main.go:785-890 | whatever order the workers finish in, the results are those of running the mutants one by one |
| MutantLoop.RunWorkers | cmd/kanly/main.go:835-870 | each worker writes its own mutant's result |
| MutantLoop.ReuseKills | cmd/kanly/main.go:785-802 | exactly the covered mutants with a standing kill are filled in from the cache |
| MutantLoop.Plan | cmd/kanly/main.go:812-833 | uncovered mutants are marked and the rest ordered |
| MutantLoop.Partition | cmd/kanly/main.go:785-833 | every mutant is exactly one of not covered, reused or run |
| MutantLoop.NotCoveredIff | cmd/kanly/main.go:812-820 | a mutant ends as not covered exactly if no suite has a test for it |
| MutantLoop.FinalMeans | cmd/kanly/main.go:323-355 | which process decides a mutant: the parallel one, after a timeout the one alone with the longer budget, after a kill to verify the one alone with the first budget |
| MutantLoop.NothingReused | cmd/kanly/main.go:756-777 | in a kill-matrix run and when kills are verified, all results are those without a cache |
| MutantLoop.StandingKillReused | cmd/kanly/main.go:785-802 | otherwise a covering test stored under the present key and source hash makes the result a cached kill |
| MutantLoop.LongestFirst | cmd/kanly/main.go:432-436 | of two mutants that run the costlier starts first, of two of one cost the one with the lower index |
| MutantLoop.Order | cmd/kanly/main.go:432-436 | the start order holds exactly the mutants that run, each once, costliest first, ties in index order |
| MutantLoop.RankedUnique | cmd/kanly/main.go:432-436 | there is only one such order |
| KillCache.ReusedKiller | cmd/kanly/main.go:487-501 | a covering test whose stored kill has the current key and source hash, or none if there is no such test |
| KillCache.KillUpdates | cmd/kanly/main.go:503-527 | an entry for each fresh, keyed verdict, with the killers that have a source hash |
| KillCache.Cache.constructor | cmd/kanly/killcache.go:38-43 | an empty cache |
| KillCache.Cache.Update | cmd/kanly/killcache.go:107-139 | entries with killers are stored, those without are dropped, other fingerprints and packages keep theirs, and a failed write changes nothing |
| KillCache.DeclHashes | cmd/kanly/killcache.go:163-191 | each line has the hash of the last declaration on it, or the file's; the index is out of range exactly when a declaration spans a line past the last |
| KillCache.KeyHoldsOwn | cmd/kanly/killcache.go:163-191 | for any declarations, overlapping or not: the mutant's line has the hash of its own declaration exactly when that spans the line and no later declaration does |
| KillCache.EditGoesUnseen | cmd/kanly/killcache.go:143-161 | an edit of the mutant's own declaration leaves its line's hash unchanged exactly when another declaration holds the line |
| KillCache.KeyHoldsOwnInOrder | cmd/kanly/killcache.go:184-188 | in a file without //line directives the own declaration is missed exactly when a later one starts on the line |
| KillCache.KeyMissesOwn | cmd/kanly/killcache.go:184-188 | inputs with //line directives for which the key holds another declaration's source, or none's |
| KillHistory.ReuseIsInvisible | cmd/kanly/main.go:756-802 | after any history of runs, edits, scopes and losses, a run that reuses kills gives every mutant the status and covering tests of a run without the cache; a reused result has one known killer and only without kill matrix and verification, any other result is whole that of the run without the cache |
| KillHistory.ReusedResult | cmd/kanly/main.go:785-802 | with any sound cache, a reused result has the fresh run's covering tests and one of them, a known kill, as its killer |
| KillHistory.HistorySound | cmd/kanly/killcache.go:107-139 | after any history every stored killer kills under its stored key and hash |
| KillHistory.RunReplaces | cmd/kanly/main.go:503-527 | a run replaces exactly the entries of its fresh verdicts: a kill with a hashed killer is stored, any other verdict forgets the mutant |
| KillHistory.OutOfScopeKept | cmd/kanly/killcache.go:107-110 | fingerprints outside the run keep their entries |
| KillHistory.KnownKillKills | cmd/kanly/main.go:451-485 | a covering test known to kill makes the verdict a kill, however the suites are run |
| EditDistance.Levenshtein | cmd/kanly/main.go:1513-1538 | the two-row loop computes the recursive distance |
| EditDistance.LeastEdits | cmd/kanly/main.go:1513 | that is the least number of insertions, deletions and replacements, at any positions, that turn a into b |
| EditDistance.Metric | cmd/kanly/main.go:1513 | zero exactly for equal strings, symmetric, and the triangle inequality |
| EditDistance.Enough | cmd/kanly/main.go:1525-1537 | as many edits as the distance are enough |
| EditDistance.NoFewer | cmd/kanly/main.go:1525-1537 | fewer are not |
| Quarantine.RootsPartition | internal/runner/fsguard.go:92-104 | every new path has exactly one root above or at it, and no older path has any |
| Quarantine.RootsApart | internal/runner/fsguard.go:92-104 | no root lies under another |
| Quarantine.Checkout.RestoreGuarded | internal/runner/fsguard.go:78-123 | for any snapshot and any changes since: nothing older moves, a new path left where it looked lies under a root that could not be moved, no file is lost, when every move succeeds the guarded paths are those that were there before, and what is reported as changed is exactly what is gone or has another size or time, so nothing reported means every older file is as it was |
| Quarantine.Checkout.constructor | internal/runner/fsguard.go:16-19 | a directory with an empty quarantine |
| Quarantine.Checkout.Created | internal/runner/fsguard.go:92-104 | the loop collects exactly the roots |
| Quarantine.Checkout.MoveOut | internal/runner/fsguard.go:105-114 | the roots that moved and those that could not, the files left, and what the quarantine then holds |
| Quarantine.Checkout.Changed | internal/runner/fsguard.go:115-121 | the files that existed before and were deleted or modified |
| Quarantine.Checkout.Restore | internal/runner/fsguard.go:86-123 | the whole new state and report; for parent-closed listings the quarantine holds exactly what was under the roots that moved |
| Selector.RoundTrip | cmd/kanly/main.go:1592-1600 | every accepted argument is printed and parsed back to the same selector |
| Selector.PrintParses | internal/selector/selector.go:46-69 | every valid selector is printed as an argument that means it |
| Selector.ParsedValid | internal/selector/selector.go:46-69 | every accepted argument is a valid selector |
| Selector.BlanksIgnored | internal/selector/selector.go:46-69 | white space around the pattern and around every name makes no difference |
| Selector.PaddedSplits | internal/selector/selector.go:92-125 | a list of names with any white space around each is read as those names |
| Selector.GlobRefused | internal/selector/selector.go:58-64 | with a list of functions, the pattern is refused for "..." exactly if it holds one anywhere |
| Selector.SplitOutsideParens | internal/selector/selector.go:71-88 | the first separator outside parentheses, and -1 exactly if there is none |
| Selector.SplitFuncList | internal/selector/selector.go:92-125 | the loop splits at the commas outside parentheses, with the source's errors in the source's order |
| Coverage.Merge | internal/runner/runner.go:591-612 | a test's count on a line, over the runs in inventory order |
| Coverage.AddBlock | internal/runner/runner.go:600-611 | one block adds its count to the lines it spans and to no other |
| Coverage.TotalMeans | internal/runner/runner.go:505-508 | a test counts for a line exactly when its run executed a block there, and then with the sum over those blocks |
| Coverage.Collect | internal/runner/runner.go:589-622 | each line lists exactly those tests, with those counts, in name order |
| Coverage.UnionHits | cmd/kanly/main.go:1331-1342 | the first hit of each name, in order |
| Coverage.FirstHitsMeans | cmd/kanly/main.go:1331-1342 | no name twice, no name lost, no hit invented |
| Coverage.CoveringTests | cmd/kanly/main.go:418-430 | the names over the mutant's line and its cover line |
| Coverage.CoveringMeans | cmd/kanly/main.go:418-430 | from the profiles on: a test covers a mutant exactly if its run executed a block on either line, and is listed once |

## Left out

- Goroutines (`go` statements), package-level variables with the mutants in their initializers, and unary arithmetic: absent from the syntax.
- Floating-point arithmetic and comparisons: the dispatchers have the shape of the integer ones.
- Function literals, defer, select, type switches, the init statement of an if, for or switch, and comma-ok receives: the operators treat them as the forms modelled.
- Variables have function scope, and a compound assignment loads its target after its right side: Go leaves the order of variable reads against calls open, and the model fixes it left to right.
- Comparing two interfaces of an uncomparable type panics in Go; the model's equality never does.
- The tag index of a rewritten switch is a 64-bit int whatever the target.
- Rewriter.RewriteWith: builds new trees rather than replacing nodes in place, so it does not capture sharing between a node and its rewritten parent.
- Rewriter.RewriteWith: groups the mutations of all files at once where the source does it file by file; nodes of different files differ, and `Grouping.GroupsByFile` shows that the groups are then the same.
- Type conditions of the operators, package loading and generics are answers of the type checker that the model takes as given.
- Malformed ignore directives and unreadable sources, which end a rewrite with an error of their own.
- Printing Go source, line directives, comments, overlays and language versions.
- Hashing: fingerprints, keys and source hashes are an arbitrary function of what is hashed, and the kill cache rests on the stated assumption about kills.
- KillCache.Cache.Update: two runs that update one package's file at once are not modelled.
- Building a mutant's key from its parts and hashing the test files, which only read.
- Scheduler.AlwaysSafe: a directory is its rank in path order, mutexes and semaphores are atomic steps, and the map of mutexes is modelled by who holds each directory.
- Packages.RunPackages: the fingerprints matched by `--mutant`, function ranges and the exit code; a package that two arguments name runs twice, as in the source.
- Running processes, exit codes, timeouts as clock times and process groups: outcomes are an arbitrary function of mutant, suite and attempt.
- Durations of results, progress messages, and errors of starting a process.
- Quarantine.Checkout.Restore: reports sets of paths, where the source sorts lists; a file that someone else removes while it is moved counts as gone.
- Coverage.Merge: a test is its rank in name order, and a block's file is its base name.
- Matching a function name against a declaration, reports, flags, the ignore file's syntax, and the diff filter: easy members.
