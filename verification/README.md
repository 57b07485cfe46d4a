# Verified model of the agentic OS core

A Dafny model of the deterministic core of the system: the kernel coordinator and its
recovery, the reasoning governor and its replay checker, the distillery, the descriptor
space, the plugin registry with binding, health and persistence, the context pipeline,
and the event bus. `dafny verify dfyconfig.toml` checks all of it.

The modules follow the program's components. Wherever the program changes state step by
step, the model does too: a class or a method with loops is proved equal to a pure
specification, or to a condition stated outright, and the theorems are about that. Engines,
handlers, refused publishes, refused storage writes and failing storage reads are arbitrary
functions or arguments, so every theorem holds for all of their behaviours.

What the specifications answer is told a second time, without them: KernelBoundary, KernelWire,
KernelSays, RoSealing, RoSpaceMeaning, CmMeaning, PrtMeaning, PrtStages, PrtChoice,
PrtHealthMeaning, LieMeaning and BusMeaning characterise each decision by what a caller can see --
entries, records, replies, texts, weights -- and prove that the specifications meet it.

| component | files |
|---|---|
| shared | Wrappers, Orders |
| kernel (src/kernel) | KernelTypes, KernelMachine, KernelRecovery, KernelDefault, KernelDeviation, KernelSafety, KernelProgress, KernelBoundary, KernelWire, KernelSays, Coordinator |
| reasoning (src/ro) | RoOutcome, RoInvocation, RoReplay, RoSealing, Voting, RoComposite, CycleDetection, RoSpaceRules, RoSpaceMeaning, RoSpaceUndo, DescriptorSpace |
| context pipeline (src/cm) | CmTypes, CmResolver, Apportionment, CmBudgeter, CmFit, CmGreedy, CmDedup, CmAssembler, CmPipeline, CmVariants, CmMeaning |
| plugins (src/prt) | PrtRules, PrtMeaning, PrtAliases, PrtUndo, PrtRegistry, PrtPersistence, PrtAdmission, PrtPipeline, PrtStages, PrtHealthFold, PrtOverrides, PrtChain, PrtHealth, PrtHealthMeaning, PrtBinding, PrtChoice, PrtRuntime |
| experience (src/lie) | LieRules, LieTheorems, LieMeaning, LieLedger, Distillery |
| transport (src/communication) | BusLog, Bus, BusMeaning |

## Where the code falls short of its documentation

Each of these is a theorem with a concrete input, beside the exact condition, for all inputs,
under which the promise does hold.

- The log keeps only whether a guard held, so recovery looks for the first or the last row. On a
  table with three rows whose middle row is taken, a run from a fresh coordinator leaves a log that
  recovery refuses (`MiddleRowDeviates`), or accepts while rebuilding another ledger
  (`MiddleRowCorrupts`). A log is accepted and rebuilt exactly if and only if every record replays
  to what it recorded (`RecoveryIsExactIff`), and a record does if and only if the row found has the
  same target, events and effect on the entry, and the same gate decision where one is logged
  (`ReplaysExactlyWhenRowsAgree`; mere acceptance asks for less, `AcceptedExactlyWhenTargetsAgree`).
  The default table always does (`DefaultTableSound`).
- A chain sealed because initiation failed is refused by the replay checker exactly when the
  policy would have retried that failure class with attempts and budget left
  (`GeneratorMeetsChecker`; one such request: `RefusedInitiationIsRejected`).
- A registry whose stored bindings no longer pass the add-binding test, for one because their
  capability has been retired since, persists but does not load (`SnapshotReplays`,
  `RetiredTargetIsNotReloaded`).
- A capability declared with an alias can never be retired: retiring asks that no alias leads to
  it, and no mutation drops or repoints one (`AliasedIsNeverRetired`). One can be retired if and
  only if it has no aliases (`RetirableExactly`).
- A binding to a proposed capability by its alias passes the reference stage of admission and
  would be admitted by the registry, but is refused at the binding stage (`AliasBindingIsRefused`).
  What the registry would admit passes that stage if and only if every binding names a
  capability that resolves already, or a proposed one by its own id (`BindingStageExactly`).
- Two kept variants of one contradicted id that were fitted to the same text get the same
  disambiguated id, and the artifact is refused (`CollidingVariantsAreRefused`). Well-formed
  candidates are never refused, under any budget, weights and costs, if and only if, deduplicated,
  they are documented and no two variants of one id share the text of any tier
  (`NeverRefusedExactly`).
- An anti-pattern's instead-of link may name a recipe made of the failed approach's own steps
  (`InsteadRepeatsTheFailure`, `RepeatedFailureOccurs`).
- An override granted after the cache was filled can make the incremental cache differ from
  the from-scratch fold (`OverrideBreaksTheCache`, a run of a live manager). An override has any
  consequence if and only if the health step can propose the transition, it was not permitted, and
  permitted moves reach its start (`OverrideMattersExactly`); so on top of the default table none
  has (`FoldAgrees`), and one without consequence never harms the cache (`PrtHealth.Override`).
- A publish refused inside a health sync leaves the changes before it emitted and the cache where
  it was, so the next sync may emit them again. The chain of changes stays in step if and only if
  the refused change starts where the cache stands (`InterruptedInStep`, `Sync`): always at the
  first change, and sometimes later (`LateFailureMayBeInStep`). Out of step, the next change
  emitted breaks the chain for good (`OutOfStepBreaks`).
- A bus takes any failed read of its log for the end of the log, and remembers that number even
  when the write is refused. After one publish during an outage a later one overwrites history
  (`OutageOverwrites`). Everything accepted is on record if and only if, for every accepted publish,
  the topic's first probe since the restart before it was answered by every record there was
  (`KeptExactlyWhenAnswered`; for replay, `ReplayExactlyWhenAnswered`).
- When `deliver_with` cannot publish `delivery.failed`, the messages drained after the failing one
  are neither delivered, nor dead-lettered, nor pending (`RefusedNoticeLosesTheRest`). The call is
  cut short if and only if some failing message finds a subscriber of `delivery.failed` without
  room after the failures before it, or its write refused (`Bus.Bus.DeliverWith`); with no attempts
  configured every drained message is gone.

## Model

| member | source | states |
|---|---|---|
| KernelRecovery.RecoveryIsExact | src/kernel/coordinator.py:283-367 | after any run (envelopes, config changes, duplicates, sessions, outages, earlier crashes), recovery on any prefix of the log accepts it, rebuilds ledger and configuration as they stood there, and re-publishes exactly the row-driven events not already acknowledged |
| KernelRecovery.RecoveryResumes | src/kernel/coordinator.py:283-367 | recovery on the whole log reaches the live state |
| KernelRecovery.ReplayRepublishesTheRun | src/kernel/coordinator.py:283-367 | with nothing acknowledged, replay emits the very row-driven events of the live run, same order, ids and payloads |
| KernelRecovery.HandleKeeps | src/kernel/coordinator.py:28-61 | every envelope keeps the log a chain that replays record by record to the live core |
| KernelRecovery.EvictKeeps | src/kernel/coordinator.py:256-281 | session-sleep eviction, record by record, keeps that chain |
| KernelRecovery.TransitionReplays | src/kernel/coordinator.py:133-160 | replaying a transition's record recomputes the same entry, events and ledger when the row replay finds has the same effect |
| KernelRecovery.AdmitKeeps | src/kernel/coordinator.py:63-91 | admission and its chained routing keep the chain |
| KernelDefault.DefaultTableSound | src/kernel/default_config.py:31-94 | the default table meets the condition under which recovery is exact |
| KernelDeviation.AcceptedExactlyWhenTargetsAgree | src/kernel/coordinator.py:283-367 | a record logged from row i is accepted by replay if and only if the row replay finds has the same target and the same events |
| KernelDeviation.ReplaysExactlyWhenRowsAgree | src/kernel/coordinator.py:283-367 | it replays to exactly what was recorded if and only if, besides, the actions have the same effect on the entry and a logged gate decision comes out the same |
| KernelDeviation.RecoveryIsExactIff | src/kernel/coordinator.py:283-367 | over any table and log, recovery accepts the log and rebuilds the state after every record if and only if every record replays to what it recorded |
| KernelDeviation.MiddleRowDeviates | src/kernel/coordinator.py:283-367 | on a three-row table a run of a fresh coordinator, admission then plan, is logged and then refused by recovery |
| KernelDeviation.MiddleRowCorrupts | src/kernel/coordinator.py:283-367 | on another, recovery accepts the log of such a run and rebuilds a ledger with one replan too few |
| KernelSafety.RunSafe | src/kernel/default_config.py:31-94 | over every run of the default table, now and at every record: completed requests have a recorded verify.passed, replans stay within max_replans, active requests within max_active_requests |
| KernelSafety.HandleSafe | src/kernel/coordinator.py:28-61 | one envelope keeps all that, and moves no terminal request except by evicting it at session sleep |
| KernelSafety.LogIsNumbered | src/kernel/coordinator.py:133-160 | over every run and for every request, the logged sequence numbers of each incarnation are 1..n without gap or repeat |
| KernelSafety.CompletionGate | src/kernel/gates.py:9-23 | the completion gate passes only on a recorded passed verification |
| KernelProgress.ScheduledExactly | src/kernel/coordinator.py:63-91 | a new request is scheduled for its one owner if and only if admission is not halted, there is room, it carries the required keys and its type has one owner; otherwise it has failed; no other request is touched |
| KernelProgress.LastVerdictDecides | src/kernel/default_config.py:55-68 | whatever verdicts an executing request collects, the last decides: completion completes it if that passed, and otherwise leaves it verifying |
| KernelProgress.VerifyingIsDecided | src/kernel/default_config.py:76-85 | a verifying request is completed by the next pass and scheduled again by the next failure |
| KernelProgress.ReplanBudgetIsExact | src/kernel/default_config.py:69-75 | failures are answered by scheduling again exactly max_replans times, and the very next one fails the request |
| KernelProgress.DefaultQualifies | src/kernel/default_config.py:31-94 | the shipped snapshot itself meets what these theorems ask of a configuration |
| KernelBoundary.SleepEvictsExactly | src/kernel/coordinator.py:256-281 | after an accepted session sleep, under any outage, a request is known if and only if it was and is neither completed, failed nor cancelled; entries left are unchanged; one cleanup record per request that went, in order of admission |
| KernelBoundary.WakeKeepsAll | src/kernel/coordinator.py:256-264 | waking changes nothing but the log |
| KernelBoundary.DuplicateIsNoop | src/kernel/coordinator.py:45-48 | the event an entry applied last, delivered again, changes nothing: one record says duplicate |
| KernelBoundary.FaultyChangesNothing | src/kernel/coordinator.py:28-61 | malformed envelopes, unknown requests, repeated admissions, invalid snapshots and events no row answers leave ledger and log as they were; the first thing published says which |
| KernelBoundary.UnrecordedIsFaulty | src/kernel/coordinator.py:28-61 | an envelope leaves no record if and only if it is faulty in one of these ways |
| KernelBoundary.ConfigInstalls | src/kernel/coordinator.py:241-254 | a valid snapshot becomes the one in use and is kept under its version, beside all others |
| KernelBoundary.InFlightIsPinned | src/kernel/coordinator.py:93-105 | a request in flight leaves the same ledger and records whichever configuration is in use now |
| KernelBoundary.HaltsExactly | src/kernel/coordinator.py:213-223 | over any envelope and outage, admission is halted afterwards if and only if it was or some publish failed; one alert follows the first failure |
| KernelWire.LogBeforePublish | src/kernel/coordinator.py:133-188 | every envelope is answered by its records, each published before the events it causes, or by one fault; nothing else but alerts is published, and faults are numbered without gap |
| KernelSays.RefusalSays | src/kernel/coordinator.py:63-91 | a refused new request is announced as rejected with the reason that applies first -- outage, capacity, the first required key it lacks -- and the gate's block |
| KernelSays.RoutingSays | src/kernel/coordinator.py:63-91 | an admitted one is announced as admitted, and then its owner is directed to it or it is rejected with the reason it has none |
| KernelSays.CancellationSays | src/kernel/default_config.py:22-89 | cancelling a request not yet over cancels it, sets its flag, acknowledges, and touches nothing else |
| KernelSays.LateCancellationSays | src/kernel/default_config.py:88-94 | cancelling one that is over changes neither phase nor flag and says nothing |
| KernelSays.CompletionSays | src/kernel/default_config.py:62-68 | a completed task is announced with the gate's permit if verification passed, else only the block is |
| KernelSays.FailureSays | src/kernel/default_config.py:69-75 | failures are silent while replans remain and the last one is announced |
| KernelSays.VerdictSays | src/kernel/default_config.py:76-85 | the verdict on a verifying request is announced as the gate's decision, a pass also as completion |
| KernelSays.PlanSays | src/kernel/default_config.py:49-54 | a plan starts execution, a rejected plan leaves the request scheduled, both silently |
| KernelSays.AnsweredExactly | src/kernel/default_config.py:31-94 | which events the default table answers in which phase, and that it answers no other |
| CoordinatorClass.Coordinator.HandleEnvelope | src/kernel/coordinator.py:28-61 | the live object moves exactly as the pure machine does, log before publish, under any outage |
| CoordinatorClass.Coordinator.AdmitRequest | src/kernel/coordinator.py:63-91 | admission as the object does it is admission as specified |
| CoordinatorClass.Coordinator.ApplyEvent | src/kernel/coordinator.py:93-105 | row selection and transition as the object does it |
| CoordinatorClass.Coordinator.Transition | src/kernel/coordinator.py:133-160 | one transition: entry, log record and row events |
| CoordinatorClass.Coordinator.HandleConfig | src/kernel/coordinator.py:241-254 | a valid snapshot, whatever its version, is installed and logged; any other alerts |
| CoordinatorClass.Coordinator.HandleSession | src/kernel/coordinator.py:256-281 | sleep evicts exactly the requests that completed, failed or were cancelled, one logged record at a time, and leaves every other entry as it was; wake evicts nothing |
| CoordinatorClass.Coordinator.CheckAdmission | src/kernel/admission.py:10-21 | the admission decision: halted, exhausted, first missing key, or permitted |
| CoordinatorClass.Coordinator.SelectRow | src/kernel/coordinator.py:107-121 | the first row whose guard holds, or none |
| CoordinatorClass.Coordinator.Rebuild | src/kernel/coordinator.py:283-367 | the recovery loop is the specified replay |
| RoInvocation.Govern | src/ro/invocation.py:105-272 | the while loop is the specified run, for every engine; RepliesAreSealed tells what that run seals |
| RoReplay.ReplayAttempts | src/ro/execution_replay.py:30-77 | the checker accepts if and only if indices, links, budget arithmetic and absence of an early stop all hold, stated as quantified conditions on the chain |
| RoReplay.GeneratorMeetsChecker | src/ro/execution_replay.py:30-77 | what the governor seals is accepted under its own policy if and only if initiation passed, or a failed initiation is not retryable, or there was one attempt, or no budget |
| RoReplay.RefusedInitiationIsRejected | src/ro/invocation.py:105-130 | for any engine and positive budget, a resolution made for another request under a policy of two attempts that retries F6 seals one record, which the checker refuses |
| RoReplay.GovernedRun | src/ro/invocation.py:130-272 | for every engine: one to ceiling records, the engine never crossed without budget, only the last record returned or cancelled, consumed and remaining always add up, no early stop |
| RoSealing.RepliesAreSealed | src/ro/invocation.py:130-272 | for every engine: a returned reply within budget is sealed Returned if and only if it is text that parsed to an object with every required name, and with that object, else Failed F8 with the reason; failures, expiries and cancellations keep their class or origin; overdrafts are Failed F3; each is charged what it claims up to what was left; every attempt but the last was retryable and affordable, and a closing F3 record appears exactly when the last one was retryable with nothing left |
| RoSealing.UnreadyIsRefused | src/ro/invocation.py:60-75 | without budget, all six categories and a resolution for this very request no engine is crossed: one F6 record names exactly what is wrong |
| RoSealing.SealedLegally | src/ro/outcome.py:84-109 | a record can be sealed if and only if it has a class just when failed or expired, F7 just when expired, an origin just when cancelled, an output only if returned, and no negative number |
| RoSealing.TruncationIsCaught | src/ro/execution_replay.py:60-77 | for every governed run, a chain cut off after any attempt but the last crossing is refused under its policy; cutting off the closing F3 record alone is not |
| RoReplay.NeverRefusedBySealing | src/ro/outcome.py:84-109 | no sealing of a run is ever refused as illegal |
| RoReplay.RunSpendsWithinEnvelope | src/ro/invocation.py:145-160 | total consumption lies between zero and the ceiling |
| RoReplay.LastRecordDeterminesChain | src/ro/execution_replay.py:36-77 | with an injective hash, two accepted chains with the same last record are the same chain |
| Voting.MajorityWinnerUnique | src/ro/composite.py:112-132 | at most one ballot wins a majority with the stable tie-break |
| Voting.WinnerExactly | src/ro/composite.py:112-132 | a ballot wins if and only if no choice has more supporters and every ballot before it was for a choice with fewer |
| Voting.Majority | src/ro/composite.py:112-132 | the vote finds the first ballot of a choice none outvotes and no equal precedes, groups visited in any order |
| RoComposite.Aggregate | src/ro/composite.py:112-132 | None only when nothing conforms; else the first conforming, or the majority winner |
| RoComposite.RunComposite | src/ro/composite.py:151-188 | a composite that finishes had child ceilings adding up to at most the parent's, spent at most that, ran each constituent on the finals before it or on none as its pattern says, and was judged by its failure semantics; one that stops does so at a constituent whose ceiling is not positive, exceeds what is left, or whose run was refused |
| RoComposite.ReturnedCountMeaning | src/ro/composite.py:135-143 | the count a quorum is compared with is the number of indices whose final returned |
| RoComposite.SatisfiedMeaning | src/ro/composite.py:135-143 | each failure semantics asks exactly what its name says: all, some, or at least k finals returned |
| CycleDetection.HasCycle | src/ro/descriptor_space.py:137-162 | the three-colour search answers yes if and only if the edges form a directed cycle |
| CycleDetection.DepthFirst.Visit | src/ro/descriptor_space.py:146-156 | a visit finds a real cycle, or leaves the node black with all its successors black before it |
| CycleDetection.EdgeClosesCycle | src/ro/descriptor_space.py:300-306 | a new edge closes a cycle if and only if its end already leads to its start |
| RoSpaceRules.AdmitKeeps | src/ro/descriptor_space.py:242-356 | every admitted mutation keeps dependencies acyclic, endpoints present, triples unique and claims on active or deprecated capabilities, and only moves capabilities forward |
| RoSpaceRules.RunKeeps | src/ro/descriptor_space.py:195-223 | so does every run, admitted and refused mutations mixed |
| RoSpaceRules.TombstonesArePermanent | src/ro/descriptor_space.py:46-56 | an id refused as a tombstone is refused as one after any further run |
| RoSpaceRules.DependencyRefusedExactly | src/ro/descriptor_space.py:288-307 | a dependency is refused for its cycle if and only if its target already depends on its source |
| RoSpaceMeaning.CapabilityAddedExactly | src/ro/descriptor_space.py:242-249 | added if and only if the id is new; a retired one's id is a tombstone |
| RoSpaceMeaning.CapabilityUpdatedExactly | src/ro/descriptor_space.py:252-267 | updated if and only if known, not retired, and of the same category and lifecycle |
| RoSpaceMeaning.CapabilityMovedExactly | src/ro/descriptor_space.py:270-285 | moved if and only if to a later stage and, to retire, no row claims it |
| RoSpaceMeaning.RelationshipAddedExactly | src/ro/descriptor_space.py:288-307 | added if and only if both ends exist, it is new, and a dependency's target does not depend on its source |
| RoSpaceMeaning.RelationshipRemovedExactly | src/ro/descriptor_space.py:310-316 | removed if and only if there; the others keep their order |
| RoSpaceMeaning.RowAddedExactly | src/ro/descriptor_space.py:319-341 | added if and only if its provider has none and every claimed capability is active or deprecated; it is then that provider's row and the rest is unchanged |
| RoSpaceMeaning.RowUpdatedExactly | src/ro/descriptor_space.py:344-349 | likewise for a provider that has one: the new row replaces it |
| RoSpaceMeaning.RowRemovedExactly | src/ro/descriptor_space.py:352-356 | removed if and only if there |
| RoSpaceUndo.UndoableExactly | src/ro/descriptor_space.py:242-356 | some run takes an admitted mutation back, up to the order of relationships, if and only if it neither added a capability nor moved one along its lifecycle |
| DescriptorSpaceClass.Working.HandleAddRelationship | src/ro/descriptor_space.py:288-307 | the handler, with its search over the collected edges, decides as the rules do |
| DescriptorSpaceClass.Working.HandleRemoveRelationship | src/ro/descriptor_space.py:310-316 | exactly the first matching triple is removed |
| DescriptorSpaceClass.Working.ValidateClaims | src/ro/descriptor_space.py:319-333 | a row passes if and only if every claim names an active or deprecated capability |
| DescriptorSpaceClass.DescriptorSpace.Apply | src/ro/descriptor_space.py:195-208 | one new version with exactly the admitted content, or nothing changes; every version in the history is in order for ever |
| DescriptorSpaceClass.DescriptorSpace.DryRun | src/ro/descriptor_space.py:225-229 | refuses exactly what Apply would, changing nothing |
| DescriptorSpaceClass.DescriptorSpace.AtVersion | src/ro/descriptor_space.py:180-187 | exactly the published versions, negatives refused |
| CmResolver.Expand | src/cm/resolver.py:22-83 | the walk returns the exact expansion, its frontiers and its visited set, whatever the order of the edge records; malformed input refused |
| CmResolver.ExpansionExact | src/cm/resolver.py:41-83 | a node is listed at depth d if and only if d is its shortest hop distance from the seeds, between 1 and the cap |
| CmResolver.ExpansionOrdered | src/cm/resolver.py:41-83 | stubs come strictly by depth, then id |
| CmResolver.ExpansionOnce | src/cm/resolver.py:41-83 | no node twice, no seed at all |
| Apportionment.EnvelopesExhaustBudget | src/cm/budgeter.py:29-47 | largest remainder hands out the budget exactly |
| Apportionment.HandOut | src/cm/budgeter.py:29-47 | the leftover loop gives one more to exactly the largest remainders |
| CmBudgeter.SectionEnvelopes | src/cm/budgeter.py:29-47 | the dictionary returned, section by section; negative budgets refused |
| CmBudgeter.EnvelopesAddUp | src/cm/budgeter.py:29-47 | envelopes sum to the budget with positive total weight, to zero without |
| CmBudgeter.EnvelopeNearQuota | src/cm/budgeter.py:29-47 | each envelope is its quota's floor or one more; a weightless section gets nothing |
| CmBudgeter.EnvelopeMonotoneInWeight | src/cm/budgeter.py:29-47 | a heavier section never gets less |
| CmMeaning.LargestRemaindersWin | src/cm/budgeter.py:29-47 | each section gets the floor of its exact share or one more, and one that gets more has the larger remainder, or an equal one and the smaller name |
| CmFit.FitWithin | src/cm/budgeter.py:83-133 | the greedy loops with both tests keep, degrade and drop exactly what the envelope test alone does; no envelope overdrawn, total use within budget and equal to the cost of the kept items |
| CmFit.FitFromBalanced | src/cm/budgeter.py:94-133 | kept plus dropped is the input, kept items in input order each its candidate at one fidelity, section uses adding up to the items' cost |
| CmFit.RoomInOne | src/cm/budgeter.py:110-120 | while no envelope is overdrawn a section's room never exceeds the room left in all: why the global test decides nothing |
| CmGreedy.FitIsGreedy | src/cm/budgeter.py:94-133 | each kept candidate is kept at the first fidelity that fits what earlier ones left of its section, a dropped one fits at none; each section is charged its own items; the degraded list is exactly the items below full fidelity |
| CmGreedy.GreedyIsUnique | src/cm/budgeter.py:94-133 | that determines what is kept, and how |
| CmMeaning.KeptAtBestFidelity | src/cm/budgeter.py:94-133 | a kept item is its candidate unchanged, full if that fits what earlier items left of the section, else the section tier if that does, else the reference |
| CmMeaning.DroppedAtNone | src/cm/budgeter.py:94-133 | a dropped candidate fits at no fidelity |
| CmMeaning.FitRefusedFor | src/cm/budgeter.py:94-133 | fitting is refused only over an unknown section or a fidelity that is needed and missing |
| CmDedup.DedupCandidates | src/cm/dedup.py:26-44 | the two loops are the specified dedup |
| CmDedup.DedupDistils | src/cm/dedup.py:26-44 | every id-and-content pair survives exactly once, flagged if its id is contradicted |
| CmDedup.DedupIdempotent | src/cm/dedup.py:26-44 | dedup twice is dedup, on all inputs |
| CmMeaning.FirstCopiesSurvive | src/cm/dedup.py:26-44 | dedup keeps exactly the first copy of each id and content, in order, flagged if some candidate disputes the content and otherwise as it came |
| CmDedup.SharedIdsAreFlagged | src/cm/dedup.py:36-43 | after dedup an id is shared only by flagged candidates of different content |
| CmDedup.PrioritizeOrders | src/cm/prioritizer.py:21-27 | a rearrangement in which scores never increase within a section |
| CmDedup.PrioritizePermutation | src/cm/prioritizer.py:21-27 | with distinct ids, input order does not matter |
| CmMeaning.OrderedExactly | src/cm/prioritizer.py:21-27 | heavier sections first; at equal weight no higher score comes later, any number above none; at equal score smaller ids first |
| CmAssembler.Validate | src/cm/validator.py:30-74 | accepts if and only if all sections are present, the ceiling holds, ids are unique across sections, every item is documented and scores never increase; otherwise names what is wrong first |
| CmAssembler.GroupIntoSections | src/cm/assembler.py:81-83 | each section holds its items in their order |
| CmAssembler.Assembler.Assemble | src/cm/assembler.py:72-135 | an artifact is logged if and only if valid, before anything is published, and returned only if every event got out |
| CmMeaning.IdsTold | src/cm/assembler.py:46-62 | a flagged item's id is told apart by its content and remembered; an unflagged item is left alone |
| CmMeaning.AnnouncedExactly | src/cm/assembler.py:119-135 | what is announced of an artifact: tokens, the covered part of the candidates, and any overflow |
| CmPipeline.PipelineMeetsValidator | src/cm/assembler.py:79-118 | dedup, prioritize, fit and group under any budget and weights give a valid artifact if and only if its items are documented and no two kept variants collide |
| CmPipeline.ContradictionFreeIsValid | src/cm/assembler.py:79-118 | documented candidates the sources agree about never fail validation |
| CmPipeline.CollidingVariantsAreRefused | src/cm/assembler.py:46-62 | two well-formed candidates whose artifact is refused |
| CmVariants.NeverRefusedExactly | src/cm/assembler.py:46-118 | well-formed candidates give a valid artifact under every budget, weights and token cost if and only if they are documented and, after dedup, no two variants of one id share the text of any tier |
| PrtRules.BundleIsItsParts | src/prt/registry.py:469-483 | admitting a bundle succeeds exactly when its parts one by one do, with the same content, and is otherwise refused for the same reason |
| PrtRules.AdmitKeeps | src/prt/registry.py:330-483 | every admitted mutation keeps the alias map exactly what records declare, bindings on existing non-proposed capabilities and existing providers, endpoints resolving, expectations present; and only moves entries forward |
| PrtRules.RunKeeps | src/prt/registry.py:256-297 | so does every run |
| PrtRules.ResolveStable | src/prt/registry.py:118-125 | what an id resolves to never changes once it resolves |
| PrtMeaning.BindingAdmittedExactly | src/prt/registry.py:385-413 | a binding is admitted if and only if its id stands for an active or deprecated capability, its provider exists and no constraint both name is named differently; it is stored under the capability's own id with its terms, and nothing else changes |
| PrtMeaning.BindingRemovedExactly | src/prt/registry.py:416-422 | one is removed if and only if it is there |
| PrtMeaning.CapabilityAdmittedExactly | src/prt/registry.py:330-349 | a capability is admitted if and only if its id is neither in use nor an alias, it has expectations and none of its aliases is taken; each refusal exactly when its reason holds |
| PrtMeaning.CapabilityUpdatedExactly | src/prt/registry.py:352-372 | updated if and only if known, not retired, with the same lifecycle, category and aliases, and verifiable |
| PrtMeaning.CapabilityMovedExactly | src/prt/registry.py:436-451 | moved if and only if to a later stage and, to retire, it has no aliases |
| PrtMeaning.ProviderAdmittedExactly | src/prt/registry.py:375-382 | a provider is admitted if and only if its id is new |
| PrtMeaning.ProviderMovedExactly | src/prt/registry.py:452-463 | moved if and only if to a later stage; retired, it loses its bindings and no other does |
| PrtMeaning.RelationshipAdmittedExactly | src/prt/registry.py:425-433 | admitted if and only if both ends stand for something |
| PrtAliases.RetirableExactly | src/prt/registry.py:436-451 | some run retires a capability if and only if it is retired already or was declared without aliases |
| PrtAliases.AliasedIsNeverRetired | src/prt/registry.py:436-451 | declared with an alias, activated, deprecated: no further run retires it |
| PrtUndo.UndoableExactly | src/prt/registry.py:330-483 | some run takes an admitted mutation back, to the same content, if and only if it updated an entry, added a binding, or removed one from a capability not retired |
| PrtUndo.BundleFrame | src/prt/registry.py:469-483 | a bundle brings exactly one provider, new to the registry, and exactly its relationships |
| PrtUndo.StaysUnbound | src/prt/registry.py:397-413 | a retired capability is never bound again, over any run |
| PrtRegistry.Working.HandleAddCapability | src/prt/registry.py:330-349 | the handler with its alias loops decides and changes as the rules say |
| PrtRegistry.Working.TransitionProvider | src/prt/registry.py:452-463 | retiring a provider removes its bindings, and no others, in the same mutation |
| PrtRegistry.Working.HandleAdmitBundle | src/prt/registry.py:469-483 | the bundle loops are the specified bundle |
| PrtRegistry.Registry.Apply | src/prt/registry.py:256-276 | one new version with exactly the admitted content, or nothing changes; history frozen and in order. What is admitted, and as what, is told by the rows of PrtMeaning |
| PrtRegistry.Registry.DryRun | src/prt/registry.py:299-305 | refuses exactly what Apply would: a passed dry run makes the later commit unrefusable |
| PrtRegistry.Registry.ListBindings | src/prt/registry.py:142-148 | through the index: exactly the bindings of the capability an id resolves to |
| PrtPersistence.SnapshotReplays | src/prt/persistence.py:113-146 | a registry's snapshot loads if and only if every stored binding still passes the add-binding test |
| PrtPersistence.RoundTrip | src/prt/persistence.py:113-146 | then entries, bindings and aliases are the same, relationships the same multiset, every id resolves alike, and the snapshot is the same again |
| PrtPersistence.CanonicalDetermined | src/prt/persistence.py:75-91 | the snapshot depends on content alone, not on the mutations that built it |
| PrtPersistence.RetiredTargetIsNotReloaded | src/prt/persistence.py:113-146 | four admitted mutations whose registry does not load |
| PrtPersistence.LoadRegistry | src/prt/persistence.py:113-146 | replay through a fresh registry's own single writer, then the content check |
| PrtPersistence.Reload | src/prt/persistence.py:105-146 | persist then load, on live registries |
| PrtAdmission.ConsistencyRefusesOnlyStaleness | src/prt/admission.py:119-222 | for a declaration that passes the seven pre-checks, the consistency stage refuses if and only if a proposed capability is already live, or two proposals share an id or an alias; admission never alters existing entries |
| PrtAdmission.AliasBindingIsRefused | src/prt/admission.py:178-199 | a declaration the registry would admit and the binding stage refuses |
| PrtAdmission.BindingStageExactly | src/prt/admission.py:178-199 | a declaration the registry would admit passes the binding stage if and only if every binding names a capability that resolves already or a proposed one by its id |
| PrtAdmission.CheckEach | src/prt/admission.py:132-199 | a stage's loop stops at the first refusal |
| PrtPipeline.AdmitDeclaration | src/prt/admission.py:255-299 | ends admitted with exactly one new version holding the bundle, or the registry is untouched: rejected at the first stage that refuses, or validated when storage refuses |
| PrtPipeline.AdmittedExactly | src/prt/admission.py:255-299 | with storage up, admitted if and only if pre-checks pass and the capabilities are fresh |
| PrtStages.StagePassesExactly | src/prt/admission.py:119-199 | what each of the seven pre-checks asks, told by the declaration and the registry's entries, and that it passes if and only if that holds |
| PrtStages.StageRefusals | src/prt/admission.py:119-199 | what a refused stage says |
| PrtStages.RejectedAtTheFirst | src/prt/admission.py:255-275 | a declaration is stopped at the first pre-check, in the program's order, whose demand it does not meet |
| PrtPipeline.Candidacy.Reject | src/prt/candidacy.py:65-73 | terminal, recorded, and refused on a terminal candidacy |
| PrtPipeline.Candidacy.Admit | src/prt/candidacy.py:93-99 | only from validated |
| PrtHealthFold.TableIsExact | src/prt/lifecycle_legality.py:39-50 | the default table holds exactly the transitions the step can propose |
| PrtHealthFold.FoldAgrees | src/prt/health.py:128-137 | legalities that agree on the table's pairs fold alike, so overrides on top of the default table change nothing |
| PrtHealthFold.CompletionsHeal | src/prt/health.py:100-120 | from any state max(2, successes_to_recover) + 1 consecutive completions, or more, give underlying health |
| PrtHealthFold.HealingTimeIsTight | src/prt/health.py:100-120 | no smaller bound will do |
| PrtHealthFold.FailuresFall | src/prt/health.py:92-106 | consecutive failures of a healthy provider degrade it at the one threshold and quarantine it at the other, neither sooner nor later |
| PrtHealthFold.RelapseQuarantines | src/prt/health.py:92-100 | one failure while recovering quarantines again, whatever the thresholds |
| PrtHealthMeaning.CarryTells | src/prt/health.py:60-137 | disabled if and only if disabled and not enabled since; the counters are the failures and completions since the last opposite or forced state; reliability is the last prior, else 0.5 |
| PrtHealthMeaning.AvailableExactly | src/prt/health.py:198-209 | in a snapshot a provider is available if and only if it is not disabled and healthy, degraded or recovered underneath; shown unavailable if and only if disabled |
| PrtHealthMeaning.MovesOnlyLegally | src/prt/health.py:60-125 | forcing moves at once, disabling, enabling and priors move nothing, other evidence moves only where legal |
| PrtHealthMeaning.FailuresWear | src/prt/health.py:92-106 | failures quarantine a degraded or recovered provider at the threshold and leave it degraded before |
| PrtHealthMeaning.CompletionMends | src/prt/health.py:107-120 | one completion heals a degraded or recovered provider, starts a quarantined one on its recovery and ends a long enough recovery |
| PrtHealth.HealthManager.Sync | src/prt/health.py:156-169 | under any outage the incremental cache equals the from-scratch fold; exactly the changes up to the first refused one go out; and the chain of changes stays in step with the cache if and only if none was refused or the refused one starts where the cache stands |
| PrtHealth.HealthManager.State | src/prt/health.py:171-172 | the displayed state of the from-scratch fold, however appends and queries interleaved, unless a change event is refused |
| PrtHealth.HealthManager.Snapshot | src/prt/health.py:198-209 | exactly what the evidence says of the named providers, unless a change event is refused |
| PrtHealth.CacheSurvivesAppend | src/prt/health.py:156-169 | evidence appended by anyone never invalidates the cache |
| PrtOverrides.OverrideMattersExactly | src/prt/lifecycle_legality.py:91-103 | an override changes what some history of the provider folds to if and only if the step can propose the transition, it was not permitted, and permitted moves lead to its start from healthy or quarantined |
| PrtHealth.Override | src/prt/lifecycle_legality.py:91-103 | granted to a live manager: an override without consequence, as every one on top of the default table is, leaves cache and fold equal |
| PrtHealth.OverrideBreaksTheCache | src/prt/health.py:156-169 | a run of a live manager over a stricter table: a failure, a sync, an override, and the next sync differs from the fold |
| PrtHealth.CacheSurvivesOverride | src/prt/health.py:156-169 | an override without consequence never invalidates the cache |
| PrtChain.InterruptedInStep | src/prt/health.py:156-169 | a sync cut short stays in step with the cache if and only if the refused change starts where the cache stands, as the first always does |
| PrtChain.LateFailureMayBeInStep | src/prt/health.py:156-169 | failure, completion, failure: cut short at the third change the chain is in step, at the second it is not |
| PrtChain.OutOfStepBreaks | src/prt/health.py:156-169 | once out of step, whatever is emitted next breaks the chain, for good |
| PrtHealth.EvidenceJournal.AppendAdmin | src/prt/evidence.py:45-52 | an act without actor or reason leaves nothing behind |
| PrtHealth.EvidenceJournal.ListFor | src/prt/evidence.py:67-68 | one provider's entries, in order |
| PrtBinding.ResolveBinding | src/prt/binding.py:100-153 | over candidates in any order: the eligible one no other precedes, or every refusal's rung; BoundExactly and RefusedExactly tell which |
| PrtBinding.AnswerIsDetermined | src/prt/binding.py:100-153 | one answer per content, snapshot and policy, whatever was loaded and however candidates came |
| PrtChoice.BoundExactly | src/prt/binding.py:100-153 | bound if and only if the id stands for a capability some bound provider of which is registered, not retired, not barred, loadable and reported available; the winner is a listed one no other listed one's last position precedes, or, with none listed, one of greatest reliability and then least id; the contract has its terms, version, load policy and coordinates |
| PrtChoice.RefusedExactly | src/prt/binding.py:100-131 | a refusal names every bound provider with the reason it may not be bound, or says that the id stands for nothing |
| PrtChoice.RungMeans | src/prt/availability.py:29-53 | operational or available just when the provider may be bound, the former when prepared or loaded; otherwise the reason it may not |
| PrtChoice.OneReason | src/prt/availability.py:29-53 | two reasons are never both so |
| PrtBinding.CanonicalAnswers | src/prt/binding.py:106-113 | the canonical id gets the contract an alias got |
| PrtBinding.LoadStateOnlyNamesTheRung | src/prt/availability.py:29-53 | being loaded tells operational from available and decides nothing |
| PrtRuntime.LoadsStepByStep | src/prt/load_policy.py:24-39 | a provider may go one stage on, or be found unloadable from any other state, and nothing else; the one way back is to the beginning |
| PrtRuntime.PluginRuntime.Bind | src/prt/runtime.py:76-96 | unless storage or the bus refuses, a contract is answered under the current version and a stored snapshot of exactly the evidence, and is remembered |
| PrtRuntime.PluginRuntime.ReplayBind | src/prt/runtime.py:140-162 | a remembered contract comes back as it was |
| PrtRuntime.PluginRuntime.RunThenReplay | src/prt/runtime.py:100-162 | after any further admissions, mutations, evidence, load transitions and bindings, replay returns that same contract |
| LieTheorems.OrderInsensitive | src/lie/distillery.py:217-456 | the same records and rulings in any order compile to the identical layer |
| LieTheorems.LayerUnique | src/lie/distillery.py:217-456 | a corpus has exactly one layer |
| LieMeaning.HeldExactly | src/lie/distillery.py:256-347 | a positive lesson is held if and only if an episode on record and not taken out succeeded in exactly its situation, a negative one if one failed; patterns, anti-patterns and recipes if and only if enough did, with that approach or those steps; dossiers if the project has an episode; none ruled against |
| LieMeaning.RestsOnSpeakers | src/lie/distillery.py:158-177 | each rests on exactly those episodes; established by enough projects, else corroborated by enough episodes |
| LieMeaning.AntiPatternPoints | src/lie/distillery.py:350-377 | an anti-pattern points to the least other pattern held for its situation, else the least recipe, else the positive lesson if a success took another approach, else nowhere |
| LieMeaning.DossierTells | src/lie/distillery.py:378-423 | a dossier has its project's facets, decisions and the lessons it taught, and each other project it shares facets with, and which |
| LieMeaning.PackTells | src/lie/distillery.py:424-452 | a pack is held if and only if configured, not ruled against and something held or measured falls in its scope; it lists exactly that and rests on what speaks for it |
| LieMeaning.RefusedExactly | src/lie/distillery.py:126-133 | the compiler refuses if and only if an episode it hears has no known verdict |
| LieTheorems.CompilerIsMonotone | src/lie/distillery.py:256-452 | with rulings and rules fixed, more experience never removes an artifact, shrinks its evidence or lowers its maturity, dossiers and packs included |
| LieTheorems.AppendGrows | src/lie/ledger.py:85-107 | appending records is such growth |
| LieTheorems.GradeGrows | src/lie/distillery.py:158-166 | maturity never drops as evidence grows |
| LieTheorems.EvidenceIsCited | src/lie/distillery.py:169-177 | every artifact has evidence and all of it is in the ledger |
| LieTheorems.ContestedExactly | src/lie/distillery.py:300-324 | a pattern is contested if and only if the anti-pattern of its signature and approach is in the layer, and conversely |
| LieTheorems.InsteadIsInTheLayer | src/lie/distillery.py:350-377 | every instead-of link leads to an artifact of the layer with the same facets: a pattern of another approach, a recipe, or the positive lesson |
| LieTheorems.InsteadRepeatsTheFailure | src/lie/distillery.py:355-366 | exactly when a link names a recipe of the failed approach's own steps |
| LieTheorems.RepeatedFailureOccurs | src/lie/distillery.py:355-366 | one failure and one success of the same approach compile to a layer holding the anti-pattern, with such a link |
| Distillery.Regenerate | src/lie/distillery.py:217-456 | the dictionaries filled in admission order hold the one layer the rules describe, sorted; refused only for an unknown verdict. What that layer holds is told by the rows of LieMeaning |
| Distillery.GroupBy | src/lie/distillery.py:136-148 | each group holds exactly the episodes of its key |
| Distillery.FindInstead | src/lie/distillery.py:355-366 | the link by preference: pattern, recipe, lesson, none |
| Distillery.ContestedAreContested | src/lie/distillery.py:300-312 | intersecting the two dictionaries of candidates flags exactly the pairs both derived |
| Distillery.BuildPack | src/lie/distillery.py:424-452 | a pack exists if and only if not ruled against and something falls in its scope |
| LieLedger.ExperienceLedger.Append | src/lie/ledger.py:85-107 | positions 1..n, identities never reused, a refusal leaves no trace |
| LieLedger.ExperienceLedger.ByIdentity | src/lie/ledger.py:117-118 | finds exactly the identities on record |
| LieLedger.CitationChain | src/lie/distillery.py:461-482 | a chain is walked if and only if there is evidence and the ledger has all of it, one proper link each |
| LieLedger.LayerIsWalkable | src/lie/distillery.py:461-482 | every artifact of a layer is walkable, and stays so after any appends |
| Bus.Bus.Publish | src/communication/bus.py:88-104 | a refusal changes no queue and no record, one by storage remembers the number probed; an accepted message is written at the topic's number and queued for every subscriber of its topic and no other |
| BusMeaning.PublishRefusedExactly | src/communication/bus.py:88-104 | refused for an unregistered topic or, on an envelope topic, for what is no envelope of that name with an id; else when a subscriber has no room; else when storage refuses; and only then |
| BusMeaning.QueuedExactly | src/communication/bus.py:88-104 | an accepted message is appended to the queue of every subscriber of its topic and to no other |
| Bus.Bus.Drain | src/communication/bus.py:108-115 | everything pending, in order; drained plus pending stays exactly what was accepted since the subscription |
| Bus.Bus.Subscribe | src/communication/bus.py:73-84 | refused without storage when durable, for unknown topics and for repeats; else an empty queue |
| Bus.Bus.SeqFloor | src/communication/bus.py:155-170 | the number remembered, or where reading forward stops: at the end of the log or at a read that fails |
| Bus.Bus.Replay | src/communication/bus.py:172-180 | the records below that number in order, or a refusal when one cannot be read |
| BusLog.NumberRightExactly | src/communication/bus.py:155-170 | the number used is that of the next record if and only if it is remembered right or every existing record answered the probe |
| BusLog.FloorExactly | src/communication/bus.py:155-170 | reading forward stops at a record if and only if everything before it can be read and it cannot |
| BusLog.HistoryKeptExactly | src/communication/bus.py:88-104 | over any run of publishes, probes and restarts with any failures: what is stored is what was accepted if and only if every accepted publish used the right number; otherwise fewer are stored than accepted, for good |
| BusLog.KeptExactlyWhenAnswered | src/communication/bus.py:155-170 | the same told by the operations alone: if and only if every accepted publish's topic was first probed, since the restart before it, with every record readable |
| BusLog.ReplayExactlyWhenAnswered | src/communication/bus.py:172-180 | replay after any run returns exactly what was ever accepted if and only if that holds, of its own probe too |
| Bus.Lives | src/communication/bus.py:88-180 | any number of live buses in turn on one storage end as the specified run does |
| Bus.AcceptedIsTail | src/communication/bus.py:88-104 | while history is kept, what a bus accepted is the tail of the log, after what the buses before it left |
| Bus.OutageOverwrites | src/communication/bus.py:155-170 | a second bus's publish during an outage, then one with storage back: the first record is overwritten and replay returns one message of three |
| Bus.Bus.DeliverWith | src/communication/bus.py:123-151 | cut short if and only if some failing message finds delivery.failed without room after the failures before it, or its write refused; the letters, queues and accepted messages in either case, so exactly which messages are lost |
| BusMeaning.CutShortExactly | src/communication/bus.py:123-151 | told by the handler's answers and the queues: a batch is cut short if and only if some message fails every attempt while a delivery.failed subscriber has no room after the failures before it or the write is refused, and at the first such |
| BusMeaning.DeliveryTells | src/communication/bus.py:123-151 | exactly the failing messages handled are dead-lettered, in order; each but the one it is cut short at is announced to every delivery.failed subscriber |
| Bus.RefusedNoticeLosesTheRest | src/communication/bus.py:123-151 | two messages drained, the first fails and its event is refused: the second is not delivered, not dead-lettered, not pending |

## Left out

- Concrete JSON and SHA-256: digests are injective functions into a type large enough for one, or the digested value itself, and identities the program joins from strings are structured. The eight- and twelve-character digest prefixes are taken to be injective too.
- KernelRecovery.RecoveryIsExact: kernel clock values are not modelled, so the timestamps of re-published events are not compared; a request's ledger entry is a value, so a caller keeping a reference to it and changing it is not captured.
- Uniqueness of outbound ids across a request id that is evicted and admitted again, and exactly-once against duplicates that are not adjacent: the program does not promise them.
- An envelope handled under a configuration without the rows the coordinator indexes unconditionally: the program raises; here such a configuration does not satisfy `Usable`.
- Rendering of requests, engine timeouts as wall-clock time and substitution of providers in src/ro/invocation.py: an engine is any function from attempt to result.
- CmBudgeter.SectionEnvelopes: quotas are exact rationals; floating-point rounding of the division is not modelled. Counting tokens of real text is any function from text to a natural number.
- CmAssembler.Validate: malformed item shapes (not a dictionary, no id) and the repeat-hash gate are not modelled; items are typed and hashing is a function.
- Reliability values and scores are real numbers.
- Registry indexes by category and facet: built like the binding index, which is modelled.
- PrtPipeline.AdmitDeclaration: the announcement published after the commit is not modelled.
- PrtPersistence.RoundTrip: the version number is carried beside the content and not reproduced, as in the program.
- PrtBinding.ResolveBinding: reasons are a mapping from provider to rung, since the program lists them in the order of a set.
- Bus.Bus.DeliverWith: a handler that itself publishes or subscribes is not modelled.
- Human-readable statement texts of derived artifacts, beyond the counts they contain.
- Process spawning, the composition root, source scans, metrics, caches, freshness, advisory and decision gates: I/O, wiring, or branches that one reading settles.
