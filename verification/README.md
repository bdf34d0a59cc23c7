# Verified model of the StateWeaver lab, compiler, benchmark and candidate tooling

This project models four components of the repository in Dafny and proves what they promise. The
methods follow the original loops and field updates and are proved against specification functions;
the results about whole runs, histories, interleavings and encodings are lemmas.

* **The multi-tenant lab and its checkpoint store** (`LabModel`, `LabService`, `LabInvariants`,
  `LabHistory`, `LabReplies`, `LabCheckpoint`, `LabAcceptance`, `CheckpointStore`, `StoreRegister`, `OptimisticClients`,
  `Serializability`): ten typed actions over roles, sessions, an authorization cache, a deferred job, a
  reference, a controlled clock and an append-only log. Main results: an inductive invariant of every
  run; an exact description of the histories after which the old session reads the other tenant's
  document, of the oracle, and of who is ever handed which text; the exact answer and log record of
  every request; checkpoint round trips; the store as a compare-and-swap register; serializability of
  any number of optimistic clients in any interleaving.
* **The chain compiler** (`ChainModel`, `ChainMeaning`, `ChainSchedule`, `ChainCycle`, `ChainCompile`,
  `ChainSoundness`, `ChainValidation`, `ChainErrors`, `ChainCompleteness`, `ChainExactness`,
  `ChainLimits`): validation, the root state, relevance, search by size, greedy scheduling, DFS cycle
  detection. Main results: the exact condition and error of validation, the exact reason of every later
  refusal, soundness, minimality, independence of the input order, and an if-and-only-if for success
  under six hypotheses, none of which can be dropped.
* **StateChainBench** (`BenchModel`, `BenchBfs`, `BenchRanking`, `BenchAudit`, `BenchCharges`,
  `BenchLinear`, `BenchGenerator`, `BenchLanguage`, `BenchNames`, `BenchContracts`, `BenchAmple`,
  `BenchTiered`, `BenchTieredSolver`, `BenchCompleteness`): exact shortest distances, an audit loop equal
  to a grammar, the exact language of accepted submissions on every generated challenge, the contract
  between both solvers and their auditor, and the completeness of the tiered solver: with an ample budget
  it finds the shortest solution of every published challenge, in a beam of any width.
* **Candidate tooling** (`RuntimeClosure`, `JsonPreflight`, `JsonText`, `JsonAgreement`, `GitTree`,
  `GitDigest`, `GitInjective`): the dependency closure as a least fixpoint, the JSON pre-scan against the
  canonical printer, and a Git tree digest that determines the set of files.

`dafny verify dfyconfig.toml` checks the whole project.

## Conventions

* Digests (SHA-256, and its truncations to 96 bits) are datatype constructors, so equal digests have
  equal contents. In `GitDigest` the hash is any function to twenty bytes, and `GitInjective` assumes
  only that it does not collide on the objects of the two trees compared.
* Time is in seconds since the canonical epoch. Identifiers with a single possible value (bearer
  strings of a session, reference and job ids) are left out.
* A lab run ranges over every pair of session and operation, as the HTTP application allows; the typed
  service offers a subset of them. Clock advances are 1 to 300 seconds and the deferral is 240 seconds,
  as the request models require.
* In the compiler, Python's integers, floats and booleans compare by value; one numeric constructor
  holds integers and floats.
* In the benchmark, a token is a number that stands for a name, in the order of the names. A generated
  challenge is first told in slots and then published under an arbitrary injective naming, because the
  order of the generated names changes with the seed; state keys are only compared for equality and
  keep their slot numbers. The promotion controller is any function of everything it was offered so
  far that returns a duplicate-free list of the candidates just offered; the completeness theorem asks
  that it never drops all of the candidates nearest to the goal.

## Findings

* A checkpoint's seal covers the generation it carries but nothing ties that generation to the
  payload. Acceptance therefore does not make a checkpoint canonical: `LabCheckpoint.ReorderedIsAccepted`
  is a sealed checkpoint with its principals in another order that is accepted, and
  `LabAcceptance.AcceptedUpToOrder` says exactly what is: what some lab exports, but for the order of
  three lists. An accepted checkpoint
  exports to itself if and only if its generation is the digest of its own payload
  (`LabCheckpoint.AcceptedExportsToItself`).
* The compiler is not complete without further conditions: the greedy scheduler can take away what
  another fragment needs, let its window pass or falsify an inequality, and the relevance filter drops
  fragments that only increment, that meet an inequality of the goal, or that are needed only through
  `after`. `ChainExactness.CompileIsExact` is proved under hypotheses that exclude these, and
  `ChainLimits.EveryHypothesisIsNeeded` has, for each hypothesis, an input that breaks only that one.
* Three of the lab's guards can never be what refuses a request, because an earlier guard always is:
  priming after the downgrade, a deferral other than 240 seconds, and a missing downgrade time
  (`LabReplies.ShadowedGuards`).
* A root that lists EXISTS before a literal EQ of the same path starts from the value true and then
  conflicts with the literal: of several conditions on a path the first one gives its value
  (`ChainValidation.InitialStateIsDescribed`).
* A refusal that is neither a cycle nor a clash always reports why the first relevant fragment alone
  does not reach the goal, whatever stopped the larger selections (`ChainErrors.RefusalsAreExplained`).
* A REMOVE counts as supporting a NOT_CONTAINS of its path, but a missing path contains nothing and also
  fails NOT_CONTAINS, so such a condition never holds after it (`ChainMeaning.SupportedConditions`).
* The lookup of a popped name in the closure cannot fail: names are looked up before they are pushed.

## Model

| member | source | states |
|---|---|---|
| LabService.LabState.RetainSession | labs/multitenant-saas/stateweaver_lab/state.py:237-252 | the method leaves exactly the state and reply of the specified action, error paths included |
| LabService.LabState.PrimeAuthorizationCache | labs/multitenant-saas/stateweaver_lab/state.py:254-280 | likewise: only the old session primes, for its own document and before the downgrade, and the decision is kept with its inputs |
| LabService.LabState.Downgrade | labs/multitenant-saas/stateweaver_lab/state.py:282-332 | likewise: role, generation, fresh session, replay window, 30-second job, and the patched lab's emptied cache |
| LabService.LabState.DelayQueueJob | labs/multitenant-saas/stateweaver_lab/state.py:334-362 | likewise: overdue jobs are settled first, and a job is deferred only once and only while pending |
| LabService.LabState.Publish | labs/multitenant-saas/stateweaver_lab/state.py:364-393 | likewise: publisher, document and recipient rules of the reference |
| LabService.LabState.ClaimRef | labs/multitenant-saas/stateweaver_lab/state.py:395-416 | likewise: the recipient claims once, and the claiming session is kept |
| LabService.LabState.AdvanceBy | labs/multitenant-saas/stateweaver_lab/state.py:418-432 | likewise: the clock moves and due jobs complete, emptying the cache |
| LabService.LabState.ReadDoc | labs/multitenant-saas/stateweaver_lab/state.py:434-500 | likewise: same-tenant reads, the eight-condition cross-tenant read, and the blocked read with its record |
| LabService.LabState.AuthenticateBearer | labs/multitenant-saas/stateweaver_lab/state.py:214-231 | the context of an unexpired known session, nothing otherwise |
| LabService.LabState.ProcessOverdue | labs/multitenant-saas/stateweaver_lab/state.py:1100-1107 | an overdue pending job completes and the cached decision is dropped |
| LabService.DeterministicLabService.ExecuteAction | labs/multitenant-saas/stateweaver_lab/service.py:75-115 | dispatch, with the authentication error first, makes exactly one step of the specified machine |
| LabService.DeterministicLabService.Reset | labs/multitenant-saas/stateweaver_lab/service.py:59-61 | the service returns to the canonical state of its mode |
| LabInvariants.RunKeepsInv | labs/multitenant-saas/stateweaver_lab/state.py:214-529 | every action keeps the invariant (fixtures, deadlines, cache and reference, log), so every run does |
| LabInvariants.ChainNeedsOnlyFourFacts | labs/multitenant-saas/stateweaver_lab/state.py:1109-1140 | in reachable states the eight-way condition holds iff retained, stale cache, foreign reference and open window hold; within the window delayed iff pending |
| LabInvariants.PatchedHasNoStaleDecision | labs/multitenant-saas/stateweaver_lab/state.py:282-332 | in patched mode no run ever has a stale cached decision, independently of the mode test in the read |
| LabReplies.OracleMeans | labs/multitenant-saas/stateweaver_lab/oracle.py:29-70 | the oracle says VIOLATED exactly on an observed 200 answer with tenant B's text and document across two tenants |
| LabInvariants.OracleAgreesWithLog | labs/multitenant-saas/stateweaver_lab/oracle.py:29-70 | the oracle reports a violation iff the log holds a disclosing record |
| LabInvariants.RunsAreBounded | labs/multitenant-saas/stateweaver_lab/state.py:418-432 | in every run the clock stays within 86,699 s, the sequence counts the log, log times never decrease, a pending job is not yet due, lazy processing is a no-op |
| LabInvariants.FailuresStutter | labs/multitenant-saas/stateweaver_lab/state.py:434-500 | a failing call changes nothing, except that a blocked read appends exactly one record |
| LabInvariants.ErasureKeepsTheState | labs/multitenant-saas/stateweaver_lab/service.py:75-115 | all other failed calls can be erased from any run without changing the state it reaches |
| LabHistory.ExactDisclosure | labs/multitenant-saas/stateweaver_lab/state.py:434-500 | for every action list from the vulnerable root, the old session's read answers 200 with the marker iff the list holds a retain and a prime before the downgrade at d, a deferral before d+30, a publish then the old session's claim (no earlier fresh claim), and the clock is in [d+60, d+180) before expiry |
| LabHistory.ExactOracle | labs/multitenant-saas/stateweaver_lab/oracle.py:29-70 | the oracle of a vulnerable run says VIOLATED iff such a read occurs somewhere in the list |
| LabHistory.DisclosureNeedsTheChain | labs/multitenant-saas/stateweaver_lab/state.py:237-432 | if the old session is handed the other tenant's document, the history contains every step of the chain, in the stated order and deadlines |
| LabHistory.FullChainDiscloses | labs/multitenant-saas/stateweaver_lab/state.py:237-500 | the condition can be met: the seven-step chain discloses |
| LabReplies.AnswersAreExact | labs/multitenant-saas/stateweaver_lab/state.py:237-529 | in every run of either mode, the answer to every request is the tabled one (error codes, receipt fields, handed-out text), and the log gains exactly the tabled record with its actor, outcome, time and subject, or none |
| LabReplies.WhoGetsTheMarker | labs/multitenant-saas/stateweaver_lab/state.py:434-500 | in every run of either mode, a body with tenant B's text is handed out iff tenant B's own session asks before its expiry, or, in a vulnerable lab, the old session asks when the exact condition on the history holds |
| LabReplies.OwnersReadTheirOwn | labs/multitenant-saas/stateweaver_lab/state.py:434-452 | a live session that reads its own tenant's document always gets that document, its owner and its literal text |
| LabReplies.TextsDiffer | labs/multitenant-saas/stateweaver_lab/state.py:184-195 | the two documents have different texts |
| LabReplies.ChainFacts | labs/multitenant-saas/stateweaver_lab/state.py:1109-1140 | the eight facts in every run, told of the downgrade time, its deadlines and the steps taken |
| LabReplies.ShadowedGuards | labs/multitenant-saas/stateweaver_lab/state.py:254-362 | three refusals never occur in any run, because earlier guards always catch the request |
| LabHistory.NobodyElseCrosses | labs/multitenant-saas/stateweaver_lab/state.py:434-500 | in every run of either mode, any other request that is answered with a body gets its own tenant's |
| LabHistory.StepMatches | labs/multitenant-saas/stateweaver_lab/state.py:237-432 | one step of the lab moves the seven facts the read depends on as the small fact machine does |
| LabCheckpoint.CheckpointRoundTrip | labs/multitenant-saas/stateweaver_lab/state.py:671-901 | a reachable state exports iff its log has at most 256 records, and the checkpoint restores to the same state, the disclosed body included |
| LabCheckpoint.PayloadRoundTrip | labs/multitenant-saas/stateweaver_lab/state.py:702-901 | reading a written payload gives the state back, list by list |
| LabCheckpoint.CheckpointsAreTransparent | labs/multitenant-saas/stateweaver_lab/state.py:671-700 | checkpoint-and-restore inserted anywhere in a run changes nothing later, and the run is refused iff some checkpoint meets a log of more than 256 records |
| LabCheckpoint.AcceptedIffExported | labs/multitenant-saas/stateweaver_lab/state.py:801-1098 | a sealed self-named checkpoint is accepted as state s iff s exports it |
| LabCheckpoint.AcceptedExportsToItself | labs/multitenant-saas/stateweaver_lab/provider_checkpoint.py:136-176 | an accepted checkpoint exports to itself iff its generation names its own payload |
| LabAcceptance.AcceptedUpToOrder | labs/multitenant-saas/stateweaver_lab/state.py:686-700 | every sealed checkpoint is accepted as state s iff s is restorable and exports a checkpoint of the same mode, generation and fingerprint whose state differs at most in the order of the principals, sessions and retained sessions |
| LabAcceptance.RestoreIsUpToOrder | labs/multitenant-saas/stateweaver_lab/state.py:801-901 | a payload restores to s iff s is restorable and the payload is the one written for s up to the order of those three lists |
| LabAcceptance.BoundsMean | labs/multitenant-saas/stateweaver_lab/provider_checkpoint.py:59-78 | 256 entries in every list and 512 characters in every free text |
| LabCheckpoint.ReorderedIsAccepted | labs/multitenant-saas/stateweaver_lab/provider_checkpoint.py:136-147 | a concrete sealed checkpoint in a non-canonical order that is accepted |
| CheckpointStore.InMemoryLabStateStore.StageCheckpoint | labs/multitenant-saas/stateweaver_lab/provider_checkpoint.py:243-254 | staging adds the entry, leaves an equal one, refuses what does not parse and poisons on a different one; nothing else changes |
| CheckpointStore.InMemoryLabStateStore.Load | labs/multitenant-saas/stateweaver_lab/provider_checkpoint.py:256-273 | loading hands out the active entry iff it parses and is bound to its generation and digest, and poisons otherwise; nothing else changes |
| CheckpointStore.InMemoryLabStateStore.Swap | labs/multitenant-saas/stateweaver_lab/provider_checkpoint.py:275-287 | for every store and every expected value, none included: a pointer elsewhere answers a conflict and changes nothing, an unstaged target poisons, a success means that the pointer was as expected and only it moved; in an intact store a staged target always succeeds |
| CheckpointStore.InMemoryLabStateStore.Commit | labs/multitenant-saas/stateweaver_lab/provider_checkpoint.py:289-292 | commit is export, stage, swap, with each refusal's effect; success means that the pointer was as expected and now names the export just staged; the pointer moves only on success |
| CheckpointStore.InMemoryLabStateStore.RestoreActive | labs/multitenant-saas/stateweaver_lab/provider_checkpoint.py:294-297 | restoring is loading followed by restoration of what was loaded |
| StoreRegister.StoreIsARegister | labs/multitenant-saas/stateweaver_lab/provider_checkpoint.py:243-287 | over every history of calls that swaps only to staged generations, the store answers as a compare-and-swap register that starts empty: a swap wins iff it expects what the register holds, a load returns what is staged there, and the store never closes |
| StoreRegister.OneInitialiser | labs/multitenant-saas/stateweaver_lab/provider_checkpoint.py:222-231 | over every history whatever, at most one swap that expects an empty store ever wins |
| OptimisticClients.PlayKeepsInv | labs/multitenant-saas/stateweaver_lab/provider_checkpoint.py:243-297 | every interleaving of begin, work, stage and swap moves keeps the store healthy and every client's basis staged |
| OptimisticClients.MovesRespectWinners | labs/multitenant-saas/stateweaver_lab/provider_checkpoint.py:275-292 | the active pointer and the commit list change only at a successful swap, and then by exactly that client's work |
| Serializability.CommitsSerialize | labs/multitenant-saas/stateweaver_lab/provider_checkpoint.py:243-297 | for any number of clients and any interleaving the active checkpoint restores to one single-threaded run of exactly the winning work in commit order; the store is never poisoned |
| Serializability.OnlyWinnersMoveThePointer | labs/multitenant-saas/stateweaver_lab/provider_checkpoint.py:275-292 | losers change nothing active |
| Serializability.SharedDisclosureIsTheWinnersHistory | labs/multitenant-saas/stateweaver_lab/state.py:434-500 | the exact disclosure condition carries over to the shared lab, read on the winners' history |
| ChainSchedule.RunSchedule | packages/compiler/src/stateweaver/compiler/compiler.py:210-243 | the loop over remaining, ordered, state and clock computes the specified schedule or its error |
| ChainSchedule.RunEffects | packages/compiler/src/stateweaver/compiler/compiler.py:283-303 | the effect loop computes the specified state, or the numeric error |
| ChainSchedule.PickIsLeastReady | packages/compiler/src/stateweaver/compiler/compiler.py:217-233 | the picked fragment is ready and no ready fragment has a smaller id; none is picked iff none is ready |
| ChainSchedule.ScheduleReplays | packages/compiler/src/stateweaver/compiler/compiler.py:210-243 | a schedule is a permutation of the selection that replays with preconditions, `after` and window met at each turn and the goal at the end |
| ChainSchedule.ReplaySplits | packages/compiler/src/stateweaver/compiler/compiler.py:210-243 | replaying is compositional |
| ChainCycle.CycleFinder.Visit | packages/compiler/src/stateweaver/compiler/compiler.py:320-333 | a visit reports a cycle through the active path or finishes its nodes with falling ranks; unvisited nodes decrease |
| ChainCycle.FindCycle | packages/compiler/src/stateweaver/compiler/compiler.py:320-334 | the search returns true iff the graph has a directed cycle, self-loops included |
| ChainCycle.HasDependencyCycle | packages/compiler/src/stateweaver/compiler/compiler.py:305-334 | true iff some fragments wait for one another in a circle through initially unmet preconditions |
| ChainCompile.RunCompile | packages/compiler/src/stateweaver/compiler/compiler.py:49-117 | the compiler's loops compute the specified result, with the specified error precedence |
| ChainCompile.TryAll | packages/compiler/src/stateweaver/compiler/compiler.py:72-82 | trying selections in order returns the first that schedules, or the first error and last conflict |
| ChainValidation.ValidationIsExact | packages/compiler/src/stateweaver/compiler/compiler.py:57-67 | an input gets past validation iff it is nonempty with distinct ids, all its fragments are of the root's world with true identity and artifact bindings, no session is bound to two identities and every `after` id is in the input; otherwise it is refused with the fault of the smallest faulty fragment by id; without a root state it is a root conflict |
| ChainValidation.ScanMeetsTheFirstFault | packages/compiler/src/stateweaver/compiler/compiler.py:119-136 | the scan with its dictionary of sessions reports the fault of the first faulty fragment, or none |
| ChainValidation.InitialStateIsDescribed | packages/compiler/src/stateweaver/compiler/compiler.py:166-179 | the initial state is the one that gives each path the first value its conditions give it and meets them all; a conflict iff there is none |
| ChainMeaning.ConditionsOnNumbers | packages/compiler/src/stateweaver/compiler/compiler.py:250-281 | on numbers the operators are the comparisons of the same name, against a literal or a reference |
| ChainMeaning.ConditionsOnStrings | packages/compiler/src/stateweaver/compiler/compiler.py:250-281 | on strings they are the lexicographic order, and containment is having it as an infix |
| ChainMeaning.ConditionsOnTuples | packages/compiler/src/stateweaver/compiler/compiler.py:276-279 | a tuple contains what equals one of its items |
| ChainMeaning.SupportIsFiveWays | packages/compiler/src/stateweaver/compiler/compiler.py:195-208 | an effect supports a condition on the same path without reference in exactly five ways |
| ChainMeaning.SupportedConditions | packages/compiler/src/stateweaver/compiler/compiler.py:195-208 | a supported EQ, EXISTS or NOT_EXISTS holds right after the effect, a supported NOT_CONTAINS never does |
| ChainValidation.RelevanceIsSupport | packages/compiler/src/stateweaver/compiler/compiler.py:182-193 | relevant are exactly the fragments that support a condition of the goal or a precondition of the input |
| ChainMeaning.EqualityByValue | packages/compiler/src/stateweaver/compiler/compiler.py:264-268 | equality is by value: booleans are 0 and 1, tuples item by item, other kinds only their own |
| ChainMeaning.OrderOfTuples | packages/compiler/src/stateweaver/compiler/compiler.py:269-276 | tuples compare at their first different item, else by length |
| ChainMeaning.EffectsWrite | packages/compiler/src/stateweaver/compiler/compiler.py:283-303 | what each operation writes at its path, a missing number counting as zero; a numeric operation fails iff one side is not a number |
| ChainMeaning.EffectsTouchOnePath | packages/compiler/src/stateweaver/compiler/compiler.py:283-303 | every other path keeps its value |
| ChainMeaning.DecrementUndoesIncrement | packages/compiler/src/stateweaver/compiler/compiler.py:283-303 | a decrement takes back an increment of the same amount |
| ChainSoundness.ConflictIsIncompatibility | packages/compiler/src/stateweaver/compiler/compiler.py:138-147 | the conflict scan is silent iff any two SETs of one path in the selection agree |
| ChainSoundness.CompiledChainsAreGood | packages/compiler/src/stateweaver/compiler/compiler.py:49-117 | a returned chain is a duplicate-free, compatible, relevant, executable chain to the goal, numbered 0..n-1, and no smaller relevant selection schedules |
| ChainSoundness.InputOrderDoesNotMatter | packages/compiler/src/stateweaver/compiler/compiler.py:57-66 | permuting the input changes neither the chain nor the error |
| ChainErrors.RefusalsAreExplained | packages/compiler/src/stateweaver/compiler/compiler.py:60-117 | every refusal of an accepted input: GOAL_UNREACHABLE when nothing is relevant, else DEPENDENCY_CYCLE where fragments wait in a circle, else the first clash among all relevant fragments if any clash, else the reason why the first relevant fragment alone fails |
| ChainErrors.FailedSchedulesStop | packages/compiler/src/stateweaver/compiler/compiler.py:210-243 | a failed schedule executed part of the selection, each fragment ready at its turn, and stopped on an unmet goal, a numeric error of a ready fragment, or, with nothing ready, on the obstacle of the least fragment left: an unmet precondition, else an open predecessor, else a closed window |
| ChainErrors.FailureRemembers | packages/compiler/src/stateweaver/compiler/compiler.py:68-82 | a failed search has tried every selection and keeps the first selection's error and the last clash |
| ChainErrors.ConflictIsTheFirstClash | packages/compiler/src/stateweaver/compiler/compiler.py:138-147 | the conflict names the first fragment whose SETs disagree with those before it |
| ChainCompleteness.FinalStateIsOrderFree | packages/compiler/src/stateweaver/compiler/compiler.py:138-147 | compatible SET-only fragments end in the same state in every executable order, clock advances included |
| ChainCompleteness.GreedyIsComplete | packages/compiler/src/stateweaver/compiler/compiler.py:210-243 | under the stated conditions the greedy schedule of a selection succeeds whenever some order of it does |
| ChainExactness.PruningKeepsReplay | packages/compiler/src/stateweaver/compiler/compiler.py:182-193 | dropping irrelevant fragments from an executable order keeps it executable and keeps every needed condition |
| ChainExactness.CompileIsExact | packages/compiler/src/stateweaver/compiler/compiler.py:64-112 | under the stated conditions compile succeeds iff some plan over all fragments exists, and no plan is shorter than the returned chain |
| ChainLimits.EveryHypothesisIsNeeded | packages/compiler/src/stateweaver/compiler/compiler.py:64-112 | for each of the six hypotheses an accepted input breaks only that one, has a plan, and does not compile |
| ChainLimits.SetFalsifiesPrecondition | packages/compiler/src/stateweaver/compiler/compiler.py:210-243 | only harmless SETs is broken: the greedy first pick takes away what the other fragment needs |
| ChainLimits.AdvancesMissWindows | packages/compiler/src/stateweaver/compiler/compiler.py:219-240 | only the still clock is broken: the greedy first pick lets the other window close |
| ChainLimits.InequalitiesAreFalsified | packages/compiler/src/stateweaver/compiler/compiler.py:250-281 | only literal preconditions is broken: a SET falsifies an inequality |
| ChainLimits.InequalitiesAreUnsupported | packages/compiler/src/stateweaver/compiler/compiler.py:195-208 | only literal goals is broken: the fragment that meets an inequality is dropped as irrelevant |
| ChainLimits.IncrementsAreDropped | packages/compiler/src/stateweaver/compiler/compiler.py:195-208 | only SET-only effects is broken: the increment another fragment needs is dropped as irrelevant |
| ChainLimits.ParentsAreDropped | packages/compiler/src/stateweaver/compiler/compiler.py:182-193 | only relevant parents is broken: a parent needed only through `after` is dropped |
| BenchBfs.MinimumRemainingSteps | benchmarks/statechainbench/src/statechainbench/systems.py:555-580 | returns n iff n is the least length, within the chain limit, of distinct unused applicable actions reaching the goal; None iff there is none; terminates |
| BenchBfs.LevelCountsTokens | benchmarks/statechainbench/src/statechainbench/systems.py:562-579 | consumed tokens fix the depth of a node, so deduplicating on state and consumed tokens loses nothing |
| BenchRanking.Nearest | benchmarks/statechainbench/src/statechainbench/systems.py:422-434 | the chosen path is least by distance, then length, then tokens, among all observed |
| BenchRanking.GoalRank | benchmarks/statechainbench/src/statechainbench/systems.py:591-597 | distance zero is the goal itself |
| BenchRanking.PathOrder | benchmarks/statechainbench/src/statechainbench/systems.py:595-597 | of two paths of equal distance the shorter is preferred, then the one smaller at the first token in which they differ |
| BenchRanking.NoWorseIsAnOrder | benchmarks/statechainbench/src/statechainbench/systems.py:591-597 | the preference between paths is total, transitive and reflexive |
| BenchAudit.ReserveIsExact | benchmarks/statechainbench/src/statechainbench/models.py:260-332 | a reservation is over the limits iff the event is well shaped and one of the three sums would pass its limit, granted iff it is not and the key is new, malformed otherwise |
| BenchAudit.ValidLedgersMean | benchmarks/statechainbench/src/statechainbench/models.py:260-332 | a ledger is valid iff its events have the shape of their kind, no key occurs twice and the three sums are within the limits |
| BenchAudit.EvidenceMeans | benchmarks/statechainbench/src/statechainbench/runner.py:194-247 | exhaustion evidence carries the final sums and a catalog price that together exceed a limit |
| BenchAudit.ReserveKeepsValid | benchmarks/statechainbench/src/statechainbench/models.py:260-332 | a granted reservation keeps shapes, distinct keys and limits, and adds exactly its costs |
| BenchAudit.LoopAcceptsSentences | benchmarks/statechainbench/src/statechainbench/runner.py:248-303 | for arbitrary event lists the audit loop accepts exactly the sentences of the grammar |
| BenchAudit.AcceptedCosts | benchmarks/statechainbench/src/statechainbench/runner.py:255-303 | accepted runs with world events satisfy latency = plans + action cost + 2 world cost, world cost = number of actions |
| BenchAudit.AuditRun | benchmarks/statechainbench/src/statechainbench/runner.py:194-303 | the audit accepts iff limits, exhaustion evidence, grammar, execution of the submission and non-emptiness hold |
| BenchCharges.ChargePlan | benchmarks/statechainbench/src/statechainbench/systems.py:281-305 | a plan is charged at one unit, or refused with exact evidence, and only when the latency budget is full |
| BenchCharges.ChargeAction | benchmarks/statechainbench/src/statechainbench/systems.py:361-402 | an action and its world event are charged together or not at all, and a refusal truly exceeds the limits |
| BenchLinear.Solve | benchmarks/statechainbench/src/statechainbench/systems.py:99-193 | never overspends or reuses a key; the submission replays, reaches the goal iff the stop says so, equals the unhindered pass unless refused; with enough budget nothing is refused; audit passes iff something was selected or the budget stopped it |
| BenchGenerator.GenerateRoles | benchmarks/statechainbench/src/statechainbench/generator.py:126-168 | the generator's loop builds the stage, terminal, noise and trap roles |
| BenchGenerator.CatalogOrders | benchmarks/statechainbench/src/statechainbench/generator.py:171-183 | the catalogs of the four families and both variants, slot by slot |
| BenchGenerator.CatalogHasEveryRole | benchmarks/statechainbench/src/statechainbench/generator.py:171-183 | for every family and variant the catalog lists every role exactly once |
| BenchGenerator.Evaluate | benchmarks/statechainbench/src/statechainbench/oracle.py:63-142 | the verdict says how far the submission replays and why it stops there |
| BenchGenerator.VerdictIsSuccess | benchmarks/statechainbench/src/statechainbench/oracle.py:97-141 | the verdict is SUCCESS iff the submission is short, duplicate-free, replays and meets the hidden constraints |
| BenchLanguage.ReplayShape | benchmarks/statechainbench/src/statechainbench/generator.py:126-168 | every replayable submission is a prefix of the solution with noise and trap interspersed, and its state is known |
| BenchLanguage.SlotLanguage | benchmarks/statechainbench/src/statechainbench/generator.py:108-203 | told in slots, the successful submissions are exactly the solution in order with the noise action at most once anywhere |
| BenchNames.ReplayRenamed | benchmarks/statechainbench/src/statechainbench/generator.py:219-221 | renaming the actions injectively changes no replay |
| BenchNames.OracleLanguage | benchmarks/statechainbench/src/statechainbench/generator.py:108-203 | for every family, variant, cost choice and naming the oracle succeeds exactly on the names of that language |
| BenchNames.FirstGoalIsSuccess | benchmarks/statechainbench/src/statechainbench/runner.py:306-316 | under every naming the first public-goal state meets the hidden constraints, so stopping there agrees with the oracle |
| BenchContracts.LinearContract | benchmarks/statechainbench/src/statechainbench/systems.py:99-193 | on every generated challenge, naming and budget the linear run passes both audits; with enough budget it reaches the goal iff the family is not REQUEST_ORDERING |
| BenchContracts.PublishedArePriced | benchmarks/statechainbench/src/statechainbench/generator.py:159-168 | every generated challenge under every naming meets what the solvers demand: distinct tokens, positive costs, a goal not yet reached |
| BenchContracts.PublishedSizes | benchmarks/statechainbench/src/statechainbench/generator.py:108-203 | six actions and chains of up to five, or seven and six, by family |
| BenchContracts.ScanReplays | benchmarks/statechainbench/src/statechainbench/systems.py:99-193 | what the unhindered pass selects replays to the state it ends in |
| BenchContracts.ScanOfPublished | benchmarks/statechainbench/src/statechainbench/generator.py:171-179 | the unhindered pass selects something, and ends in the goal unless the trap leads the catalog |
| BenchTiered.PlanPath | benchmarks/statechainbench/src/statechainbench/systems.py:266-331 | every step from a path is planned, impossible, or leads to a state already seen; a refusal means the latency budget is full |
| BenchTiered.PlanFrontier | benchmarks/statechainbench/src/statechainbench/systems.py:264-335 | the same for the whole frontier; candidates are distinct and walked |
| BenchTiered.ChargePromoted | benchmarks/statechainbench/src/statechainbench/systems.py:360-406 | promoted candidates are charged in order until a refusal; after a refused plan nothing is charged and the refusal's base stays the final usage |
| BenchTieredSolver.ChargeRound | benchmarks/statechainbench/src/statechainbench/systems.py:337-406 | one round pays exactly for what the promotion chose unless refused, without the scheduler for the first of the beam width in the order of planning; it keeps a nearest candidate when the promotion does |
| BenchTieredSolver.Solve | benchmarks/statechainbench/src/statechainbench/systems.py:226-450 | for every promotion function and ablation: a valid fully planned and charged chain, the best of all charged chains, no chain beyond the length limit (beyond one action without the chain compiler), the stop and exhaustion exact, with deduplication no state paid for at two depths, no step from a chain below the limit overlooked when it ends for lack of progress or depth, audit passes iff an action was charged or the budget stopped it; with an ample budget nothing is refused and nothing overlooked |
| BenchTieredSolver.TieredAgreesWithOracle | benchmarks/statechainbench/src/statechainbench/runner.py:306-316 | on generated challenges under every naming, hence every tie order, the stop is GOAL_REACHED iff the hidden oracle says success |
| BenchCompleteness.TieredIsComplete | benchmarks/statechainbench/src/statechainbench/systems.py:226-450 | on every published challenge, with an ample budget and a promotion that never drops all of the nearest candidates, the stop is GOAL_REACHED and the submission is the shortest solution, with or without world tiers and deduplication |
| BenchCompleteness.BeamIsComplete | benchmarks/statechainbench/src/statechainbench/systems.py:343-350 | the same for the promotion by quality that is used without world tiers: a beam of any positive width finds the shortest solution of every published challenge |
| BenchCompleteness.QualityTellsDistance | benchmarks/statechainbench/src/statechainbench/systems.py:583-588 | for chains of up to eight actions one candidate is of no lower quality than another iff it is no farther from the goal |
| BenchCompleteness.NearestIsTheSolution | benchmarks/statechainbench/src/statechainbench/systems.py:309-314 | on a published challenge only the solution's own first tokens are as near to the goal as they are, so ranking by distance singles the solution out |
| BenchCompleteness.PromoteAllKeepsANearest | benchmarks/statechainbench/src/statechainbench/systems.py:338-358 | promoting everything is such a promotion |
| BenchAmple.AmpleGrantsActions | benchmarks/statechainbench/src/statechainbench/systems.py:360-402 | a budget for a plan, an action and a world event of every chain up to the limit refuses no charge |
| RuntimeClosure.Close | tools/candidate/runtime.py:480-499 | returns exactly the names reachable over dependencies without a marker or with one that holds, and their registry part, or fails at a reachable package with a missing such dependency or an unsupported marker |
| RuntimeClosure.CloseBy | tools/candidate/runtime.py:480-499 | the same for every order in which names are taken |
| RuntimeClosure.ReachableIsLeast | tools/candidate/runtime.py:480-499 | reachability is the least set with the workspace closed under marker-true edges |
| RuntimeClosure.TakenIsKnown | tools/candidate/runtime.py:485-490 | a taken name is always in the lock, so the first lookup never fails |
| RuntimeClosure.OrderDoesNotMatter | tools/candidate/runtime.py:480-500 | success and result are the same in every order; it fails iff a reachable dependency is missing or unreadable |
| JsonPreflight.Preflight | tools/candidate/common.py:72-152 | the index loop decides the specified acceptance of the text and terminates |
| JsonAgreement.EscapedEnds | tools/candidate/common.py:64-69 | the scan finds the end of every escaped string where the printer put it |
| JsonAgreement.ScannerAgreesWithPrinter | tools/candidate/common.py:64-152 | for every value the pre-scan accepts its canonical text iff byte length, depth, nodes, escaped key and text lengths and number lengths are within the limits |
| JsonAgreement.SpacesAreSkipped | tools/candidate/common.py:84-91 | the four white-space bytes are skipped anywhere between tokens, and before a colon |
| JsonText.EscapedReads | tools/candidate/common.py:64-69 | every printed string reads back as the string by the rules of RFC 8259 |
| JsonText.EscapesAreShortest | tools/candidate/common.py:64-69 | two bytes for quote, backslash and the lettered controls, six for the other controls, one for all else |
| GitTree.Build | tools/candidate/common.py:519-536 | entries are accepted iff no path lies inside or equals another, and the tree then holds exactly the entries |
| GitDigest.SameFilesSameContent | tools/candidate/common.py:538-562 | trees with the same files have the same digest, whatever the order of insertion |
| GitDigest.ContentIsAscendingLines | tools/candidate/common.py:538-562 | a directory's content is one line for every child (mode, space, name, zero byte, digest of the typed object), in ascending byte order of the names, directories as if ending in a slash |
| GitDigest.DecimalReads | tools/candidate/common.py:512-516 | lengths and modes are written in decimal without leading zeros |
| GitInjective.RecordTells | tools/candidate/common.py:540-561 | mode, name and digest of a record can be read back from what follows it |
| GitInjective.DigestIsTheFiles | tools/candidate/common.py:519-562 | two accepted entry lists have the same digest iff they are the same set of files |

## Left out

- The web application, HTTP plumbing, network guard, command line and receipts: framework wiring and fixed comparisons.
- Typed shape checks of checkpoints (missing keys, JSON types, nesting depth, the pattern of a generation) and timestamp text: the payload is typed; the byte-size rule is the parameter `fits`.
- The lock of the lab and of the store: every method is one step; interleavings are modelled between steps.
- The state digest and layered capture of the lab beyond their being injective in the captured view.
- Floating-point rounding in compiler values, chain digests, and the payload of an envelope beyond its bindings.
- Search scores and the promotion controller: the one abstract promotion function; the promotion by quality is the property `PromotesBest` of such a function.
- System, challenge and configuration identifiers, run fingerprints, aggregate reports and the checks that compare them.
- Registry and challenge mismatch verdicts and the disabled-anchor verdict of the hidden oracle.
- Parsing of the lock file, version comparison and marker syntax: a marker is true, false or unsupported.
- BenchCompleteness.TieredIsComplete: asks for the chain compiler and the budget-aware scheduler; without the latter the first candidates in catalog order are taken, whatever their distance.
- RuntimeClosure.Close: returns the runtime packages as a map by name; the original sorts the same packages by name.
- JsonPreflight.Preflight: key sorting is not modelled, because the result holds for members in any order.
- GitTree.Build: the nested dictionaries are updated as values, not in place; entries that are neither files nor directories cannot occur.
- The SHA-1 internals and the hexadecimal form of the digest.
- Archive, SBOM, wheel and snapshot checks: wrappers over libraries and fixed comparisons.
