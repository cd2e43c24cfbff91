# Failover, evidence, contracts and windows: a verified model

This project models four parts of the platform repository in Dafny and proves what they promise.

**The DNS failover controller** (`Failover*.dfy`). A five-state machine that re-reads its state file at every tick, may
change the nameservers at a registrar, makes at most one guarded transition and replaces the file atomically.
`FailoverModel` says what one tick does to the world that outlives it, the file and the nameservers;
`FailoverController` has the classes and methods of the program, proved against it. A run is any sequence of ticks with
any scores, registrar errors, failed saves and crashes; the clock readings inside a tick are separate and do not run
backwards. `FailoverSteps` says when exactly a step moves what, without naming the guards of the specification;
`FailoverSafety`, `FailoverAgreement` and `FailoverProgress` hold the results over runs, `FailoverFindings` what does
not hold as documented, with runs that show it and the exact condition under which it does.

**The HTTP probe evidence validator** (`Probe*.dfy`). A signed subject and a result document with conditions, attempts,
target snapshots and backend responses. `ProbeModel` defines acceptance declaratively, `ProbeValidator` has the loops of
the program and is proved to accept exactly that. `ProbeTheorems` and `ProbeEvidence` say what an accepted document
guarantees, `ProbeVerdicts` what each of its verdicts means, `ProbeTrace` what it is bound to; `ProbeWitness` shows one.

**The contract bundle validator** (`Bundle*.dfy`). Products, paths, Realms, entity classes, delivery and probe profiles,
and the workflow of each path. `BundleWorkflow` defines the runs of an arbitrary executor that starts a step once its
needs are finished, with any number of steps at the same time; `BundleTheorems` and `BundleClosure` say what acceptance
guarantees about them and about references, lifecycles and policies, and `BundleWitness` shows an accepted bundle.

**The time-window guards** (`SlidingWindow.dfy`, `RateLimiter.dfy`, `AgentLimits.dfy`, `Dedup*.dfy`). Classes that keep
pruned lists and dictionaries, proved to decide like specifications that keep the full history, and limits that hold in
every interval of time. `BreakerHistory` and `DedupHistory` tell their answers from the calls alone.

Where a method returns `false` or nothing, the source raises or returns an error. Times of the controller are integer
nanoseconds with the saturation of Go's durations, those of the evidence validator integer microseconds, those of the
guards real seconds. Every lemma carries `{:induction false}`: its proof is the one that is written.

## Where the code and its documentation differ

The model follows the code.

- "So the controller starts clean" without a state file (`failover-controller/persistence.go:39-57`): the default state
  carries the current time as its last transition, so its first transition is blocked and nothing is ever saved
  (`UnusableFileExactly`, `InertWithoutFile`).
- "Unknown state, resetting to HEALTHY" (`statemachine.go:84-87`): the reset is always rejected
  (`UnknownStateIsForever`).
- "Three consecutive degraded checks" and "stable for the whole cooldown": a good check, or a bad one in recovery, is
  forgotten when its transition is blocked by the dwell or its save fails, and only then (`GoodCheckResetsExactly`,
  `BadCheckAbortsExactly`, `ConsecutiveUnlessLost`, `StableUnlessLost`; runs: `NotConsecutive`, `NotStable`).
- "The worst case is re-evaluating the previous state" after a failed save (`statemachine.go:330-335`): the nameservers
  may already have been moved. `StrandedOnPrimary` shows such a save, after which FAILED_OVER is persisted with the
  traffic on the bad primary. A registrar error does the like, without any failed save: `StrandedOnSecondary` ends
  HEALTHY on the secondary. `AgreementLostExactly` says which steps lose the agreement, and that no others do.
- "Hard cap per calendar day": true by the day on which the recording tick loaded its state (`DailyLimit`); by the time
  of the failover itself there is one more exactly when a tick straddles into a day that uses up its own limit and
  none straddles out of it (`DailyLimitByClock`, `TwoFailoversOnOneDay`).
- "HALF_OPEN: allowing one test request" (`rate_limiter.py:65`): the code lets every request through until an outcome
  decides the state, so it is one exactly when the callers ask once (`HalfOpenLetsAllThrough`,
  `TwoRequestsInHalfOpen`).
- The deduplicator "prevents multiple agent investigations": exactly as long as each investigation is marked before the
  next question on its key inside the window (`SpacedExactly`), as for requests handled one after the other
  (`ReceiveAlerts`) and not for interleaved ones (`InterleavedBothInvestigate`); and per key, which different alerts can
  share exactly when there is a colon too many (`KeysSeparate`, `KeysCollide`).

## Model

| member | source | states |
|---|---|---|
| FailoverController.StateMachine.Evaluate | failover-controller/statemachine.go:63-88 | One tick leaves exactly the (file, nameservers) of the specification; its effects, as the registrar and the store enter them in the ledger, lead there, and dying after any number of them leaves a world that a specified crash leaves |
| FailoverController.StateMachine.HandleHealthy | failover-controller/statemachine.go:92-114 | The effects on file and registrar are those specified for HEALTHY |
| FailoverController.StateMachine.HandleDegraded | failover-controller/statemachine.go:120-159 | The same for DEGRADED: a blocked move loses the counter, an unconfirmed check saves it |
| FailoverController.StateMachine.HandleFailingOver | failover-controller/statemachine.go:163-216 | The same for FAILING_OVER: every error aborts to DEGRADED, the update is sent whether or not the move is blocked |
| FailoverController.StateMachine.HandleFailedOver | failover-controller/statemachine.go:221-248 | The same for FAILED_OVER |
| FailoverController.StateMachine.HandleRecovering | failover-controller/statemachine.go:254-315 | The same for RECOVERING |
| FailoverController.StateMachine.Transition | failover-controller/statemachine.go:319-339 | The file changes only when the guards permit the move and the save succeeds; nothing is saved otherwise |
| FailoverController.FindProvider | failover-controller/statemachine.go:342-349 | The loop returns the score of the first provider with the identifier |
| FailoverController.ValidateTransition | failover-controller/safety.go:38-92 | The early returns refuse exactly the transitions that topology, dwell, cooldown, daily limit or authorization forbid |
| FailoverController.StateStore.Load | failover-controller/persistence.go:41-67 | Default state for a missing or corrupt file, reset count on a new day, nothing for a read error |
| FailoverController.StateStore.Save | failover-controller/persistence.go:70-91 | Whatever fails, the file holds its old contents or all of the new ones |
| FailoverController.RegistrarClient.UpdateNameservers | failover-controller/registrar.go:103-107 | Only the named domain changes; an error may or may not have applied the update |
| FailoverSafety.StepShape | failover-controller/statemachine.go:319-339 | A step keeps the file, counts one bad check, or makes one permitted transition that carries day, count and failover time exactly |
| FailoverSafety.RunKeepsSane | failover-controller/safety.go:78-83 | Over every run, a persisted FAILING_OVER has a count below the limit and was entered a cooldown after the last failover |
| FailoverSafety.MovesFollowTheTable | failover-controller/safety.go:28-34 | Every move of the persisted state is an edge of the table, under any crashes and errors |
| FailoverSafety.LastTransitionIsLatest | failover-controller/statemachine.go:326-336 | No persisted move was stamped after the file's LastTransitionTime |
| FailoverSafety.MovesDwell | failover-controller/safety.go:57-64 | Any two persisted moves of a run are at least MinTimeInState apart |
| FailoverSafety.BoundedFlapping | failover-controller/safety.go:57-64 | A window of length T holds at most T / MinTimeInState + 1 persisted moves |
| FailoverSafety.CountCoversRun | failover-controller/persistence.go:59-64 | At every point of a run the persisted count covers the failovers recorded that day, and these stay within the limit |
| FailoverSafety.LoadedCountCovers | failover-controller/persistence.go:59-64 | The count a tick loads is never below the failovers recorded that day |
| FailoverSafety.LoadedCountExact | failover-controller/statemachine.go:208-212 | From a day's first rollover on, the loaded count is exactly the failovers recorded that day: each visit to FAILING_OVER adds one, however often it repeats |
| FailoverSafety.DailyLimit | failover-controller/safety.go:78-83 | No day records more than MaxDailyFailovers, by the day on which the recording tick loaded the state |
| FailoverSafety.DailyLimitByClock | failover-controller/safety.go:78-83 | By the day of LastFailoverTime the limit is exceeded, by one, if and only if a tick straddles into the day, none straddles out of it, and the limit is used up on it |
| FailoverSafety.StampedBalance | failover-controller/persistence.go:59-64 | Failovers by their own day and by the day of the load differ by exactly the ticks that straddle into and out of the day |
| FailoverSafety.LastFailoverIsLatest | failover-controller/statemachine.go:208-212 | No recorded failover is later than the file's LastFailoverTime |
| FailoverSafety.FailoverSpacing | failover-controller/safety.go:67-76 | Two recorded failovers are FailoverCooldown + MinTimeInState apart, whatever aborts, blocks or crashes come between |
| FailoverSafety.CountBackedRun | failover-controller/statemachine.go:108-146 | The persisted counter never exceeds the bad scores that ticks in HEALTHY or DEGRADED looked at since HEALTHY |
| FailoverSafety.FailoverNeedsEvidence | failover-controller/statemachine.go:145-153 | Every persisted entry into FAILING_OVER follows at least three ticks that looked at the scores in HEALTHY or DEGRADED and saw a bad primary, since HEALTHY |
| FailoverSteps.HealthyExactly | failover-controller/statemachine.go:92-114 | HEALTHY is left if and only if the primary scores below 0.5, the dwell is over and the save succeeds; the first bad check is counted |
| FailoverSteps.DegradedExactly | failover-controller/statemachine.go:120-159 | What DEGRADED does for every score, count and clock: a failover starts if and only if it is the third bad check and dwell, cooldown, daily limit and authorization allow it |
| FailoverSteps.FailingOverExactly | failover-controller/statemachine.go:163-216 | FAILING_OVER is left after the dwell, forward if and only if nothing failed, with the failover stamped and counted |
| FailoverSteps.FailedOverExactly | failover-controller/statemachine.go:221-248 | FAILED_OVER is left if and only if the primary scores above 0.7, the dwell is over and the save succeeds |
| FailoverSteps.RecoveringExactly | failover-controller/statemachine.go:254-315 | What RECOVERING does for unreadable scores, a missing, a bad and a good primary |
| FailoverSteps.NameserversExactly | failover-controller/statemachine.go:187-192 | The nameservers change if and only if a failover or a failback reaches the registrar, and to which |
| FailoverSteps.UnauthorizedStep | failover-controller/safety.go:86-89 | With manual authorization required, no step enters FAILING_OVER |
| FailoverSteps.NothingUnauthorized | failover-controller/safety.go:86-89 | With manual authorization required, a run that starts outside FAILING_OVER never persists it, records no failover and takes no domain to the secondary |
| FailoverSteps.BlindRun | failover-controller/statemachine.go:122-131 | Outside FAILING_OVER, ticks that cannot read the scores change nothing; RECOVERING does not even abort |
| FailoverSteps.DefaultRoom | failover-controller/safety.go:18-24 | The default settings leave room for ticks of up to five minutes, no more, and need no authorization |
| FailoverSteps.DefaultGuarantees | failover-controller/safety.go:18-24 | With the default settings: one failover a day, 65 minutes between two, five minutes between moves, at most 13 moves an hour |
| FailoverAgreement.FailbackNeverBlocked | failover-controller/statemachine.go:281-313 | With RecoveryCooldown at least MinTimeInState plus a tick, the guards never refuse the failback |
| FailoverAgreement.AgreementLostExactly | failover-controller/statemachine.go:163-315 | A step loses the agreement of nameservers and state if and only if it aborts a failover that reached the registrar, or sends a failback without persisting HEALTHY |
| FailoverAgreement.AgreementKept | failover-controller/statemachine.go:163-315 | The agreement holds throughout every run without such a step |
| FailoverAgreement.FaultFreeAgreement | failover-controller/statemachine.go:163-315 | It holds throughout every run with a working registrar and disk |
| FailoverAgreement.SameProviders | failover-controller/persistence.go:14-18 | No step changes the domain or whether a secondary is configured |
| FailoverProgress.FailbackProgress | failover-controller/statemachine.go:221-315 | FAILED_OVER since c and good scores: HEALTHY on primary nameservers by c + MinTimeInState + RecoveryCooldown + 2p + 2 delta |
| FailoverProgress.FailoverProgress | failover-controller/statemachine.go:120-216 | DEGRADED since c and bad scores: traffic on the secondary by c + MinTimeInState + 2p + delta, FAILED_OVER by c + 2 MinTimeInState + 2p + 2 delta |
| FailoverProgress.LeavesRecovering | failover-controller/statemachine.go:281-313 | The wait in RECOVERING ends within one tick period of the cooldown |
| FailoverFindings.UnusableFileExactly | failover-controller/persistence.go:93-103 | Without a usable file a tick has an effect if and only if it sees a bad primary, saves, and lasts MinTimeInState itself |
| FailoverFindings.InertWithoutFile | failover-controller/persistence.go:45-57 | With shorter ticks such a controller never does anything |
| FailoverFindings.UnknownStateIsForever | failover-controller/statemachine.go:84-87 | An unknown state is never left: its reset is always rejected |
| FailoverFindings.GoodCheckResetsExactly | failover-controller/statemachine.go:136-143 | A good check in DEGRADED leads to HEALTHY if and only if the dwell is over and the save succeeds; otherwise nothing is kept of it |
| FailoverFindings.BadCheckAbortsExactly | failover-controller/statemachine.go:261-279 | A bad check in RECOVERING aborts it if and only if the dwell is over and the save succeeds |
| FailoverFindings.ConsecutiveUnlessLost | failover-controller/statemachine.go:116-119 | A good check on the way to FAILING_OVER fell inside the dwell or lost its save |
| FailoverFindings.StableUnlessLost | failover-controller/statemachine.go:250-253 | A persisted failback comes a whole cooldown after its recovery began, and every bad check in between fell inside the dwell or lost its save |
| FailoverFindings.NotConsecutive | failover-controller/statemachine.go:145-153 | A fault-free run that fails over although its bad checks are not consecutive |
| FailoverFindings.NotStable | failover-controller/statemachine.go:281-313 | A fault-free failback although the primary was bad during the cooldown |
| FailoverFindings.StrandedOnSecondary | failover-controller/statemachine.go:163-192 | A run that ends HEALTHY with the traffic on the secondary after one registrar error |
| FailoverFindings.HealthyStays | failover-controller/statemachine.go:92-114 | Nothing moves it back while the primary is well |
| FailoverFindings.StrandedOnPrimary | failover-controller/statemachine.go:330-335 | A failback whose save fails, and a primary that turns bad: FAILED_OVER is persisted with the traffic on the bad primary |
| FailoverFindings.FailedOverStays | failover-controller/statemachine.go:221-248 | Nothing moves it away while the primary is not well |
| FailoverFindings.TwoFailoversOnOneDay | failover-controller/persistence.go:59-64 | A run with two failovers stamped on one day under a limit of one |
| ProbeValidator.ValidateSemantics | scripts/http_probe_contract_validation.py:820-1088 | Accepts exactly the documents of the declarative definition |
| ProbeValidator.ValidateRuns | scripts/http_probe_contract_validation.py:929-1046 | The loop over conditions, with its identifiers, clock and deadline latch, accepts exactly the specified runs |
| ProbeValidator.ValidateCondition | scripts/http_probe_contract_validation.py:941-1045 | One condition is accepted exactly when its evidence, pacing, reduction and termination are as specified |
| ProbeValidator.ValidateAttempts | scripts/http_probe_contract_validation.py:961-1015 | The loop over attempts derives their verdicts and the best streak, and rejects reuse, overlap, a short pause and attempts after the third pass |
| ProbeValidator.ValidateAttempt | scripts/http_probe_contract_validation.py:965-1008 | One attempt is accepted exactly when times, targets, results and verdict are as specified |
| ProbeValidator.ValidateResults | scripts/http_probe_contract_validation.py:995-1006 | The results match the snapshot pod by pod, with their derived verdicts |
| ProbeValidator.ValidateTarget | scripts/http_probe_contract_validation.py:671-817 | The loop over backends finds exactly the coherent snapshots and returns the classification of the last failing check |
| ProbeValidator.CheckSet | scripts/http_probe_contract_validation.py:677-719 | The checks of the snapshot as a whole, later ones winning |
| ProbeValidator.CheckBackend | scripts/http_probe_contract_validation.py:722-797 | The checks of one backend, later ones winning |
| ProbeOrdering.SortedSetFixpoint | scripts/http_probe_contract_validation.py:713-719 | A list equals its sorted set if and only if it is strictly increasing |
| ProbeOrdering.IncreasingStrings | scripts/http_probe_contract_validation.py:718-719 | So the pods of an admitted target are distinct |
| ProbeTheorems.ClassifyExactly | scripts/http_probe_contract_validation.py:671-817 | No error is classified if and only if there are one to three distinct delivered backends behind the frozen namespace, service and policies |
| ProbeTheorems.StateFromIsWorst | scripts/http_probe_contract_validation.py:622-628 | The reduction of a non-empty list is the member of highest precedence |
| ProbeTheorems.LayeredIsFlat | scripts/http_probe_contract_validation.py:1046-1068 | Reducing groups and then their verdicts is reducing everything, when no group is empty |
| ProbeTheorems.EmptyGroupNeverPasses | scripts/http_probe_contract_validation.py:622-628 | An empty group can never end in a pass: the empty reduction is no identity |
| ProbeTheorems.AggregateIsFlat | scripts/http_probe_contract_validation.py:1048-1068 | The aggregate is the worst state of all conditions, and no pass when there is nothing to accept |
| ProbeTheorems.SatisfiedExactly | scripts/http_probe_contract_validation.py:1048-1068 | Satisfied if and only if there is something to accept and every condition passes |
| ProbeTheorems.LastThreePass | scripts/http_probe_contract_validation.py:1010-1015 | A streak of three reached at the end and not before is the last three attempts |
| ProbeTheorems.FinalPass | scripts/http_probe_contract_validation.py:1021-1028 | A condition passes only by three passes in a row |
| ProbeTheorems.DescriptorAt | scripts/http_probe_contract_validation.py:900-928 | The conditions are health, readiness and the acceptance entries in their order |
| ProbeEvidence.AttemptPassExactly | scripts/http_probe_contract_validation.py:983-1008 | An accepted attempt passes if and only if its target is unchanged and admitted and every oracle of every pod holds |
| ProbeEvidence.EvidenceSoundness | scripts/http_probe_contract_validation.py:941-1068 | A satisfied result has three sound passes at the end of every condition and no probe error anywhere |
| ProbeEvidence.DocumentIsFunctionOfEvidence | scripts/http_probe_contract_validation.py:941-1083 | Two accepted documents for a subject with the same times, targets and responses agree on everything but attempt identifiers and expiry, and are equal when they agree on these |
| ProbeEvidence.SameCondition | scripts/http_probe_contract_validation.py:1016-1043 | The same, for one condition |
| ProbeEvidence.DeadlineShape | scripts/http_probe_contract_validation.py:956-957 | After the first condition that hits the deadline or is empty, all are empty and inconclusive, and the run is not satisfied |
| ProbeEvidence.RunIsOrderly | scripts/http_probe_contract_validation.py:962-982 | All attempts of a run are ordered, disjoint, distinct and inside the signed window |
| ProbeEvidence.PausesUnderFourMinutes | scripts/http_probe_contract_validation.py:874-875 | The one-second pauses of a run add up to less than 240 |
| ProbeEvidence.AtMost117Entries | scripts/http_probe_contract_validation.py:974-978 | So a satisfied result has at most 117 acceptance entries |
| ProbeVerdicts.ResponseExactly | scripts/http_probe_contract_validation.py:631-668 | Each of the four verdicts on a response, if and only if: an error other than the run deadline, the run deadline, an oracle that does not hold, one that does |
| ProbeVerdicts.AttemptVerdictsExactly | scripts/http_probe_contract_validation.py:983-1008 | Each verdict on an accepted attempt other than a pass, if and only if, from its targets and raw responses |
| ProbeVerdicts.ProbedExactly | scripts/http_probe_contract_validation.py:990-997 | Nothing is probed without an unchanged admitted target; otherwise each of its pods once and in order |
| ProbeVerdicts.ClassificationExactly | scripts/http_probe_contract_validation.py:677-797 | Which error a target is classified as: that of its last undelivered backend, then order, none, too many, foreign objects |
| ProbeVerdicts.AchievedExactly | scripts/http_probe_contract_validation.py:1010-1011 | The achieved count is the longest row of passes, up to three |
| ProbeVerdicts.ConditionVerdictsExactly | scripts/http_probe_contract_validation.py:1016-1032 | Each verdict on an accepted condition, if and only if, from the verdicts on its attempts |
| ProbeVerdicts.TerminationExactly | scripts/http_probe_contract_validation.py:1033-1043 | How an accepted condition ended, from its attempts |
| ProbeVerdicts.PathResultsExactly | scripts/http_probe_contract_validation.py:1048-1065 | The three path results, from the conditions |
| ProbeVerdicts.RunClockExactly | scripts/http_probe_contract_validation.py:1069-1081 | Start and completion: the deadline if and only if some condition ran out of time, with attempts or without |
| ProbeTrace.SubjectIsDerived | scripts/http_probe_contract_validation.py:860-885 | The names of an accepted subject follow from its work order; its acceptance entries are distinct and numbered |
| ProbeTrace.ConditionsAreFrozen | scripts/http_probe_contract_validation.py:900-951 | The conditions are the two fixed ones and the frozen entries, field by field |
| ProbeTrace.EvidenceIsFresh | scripts/http_probe_contract_validation.py:868-877 | Every attempt falls within nine minutes of the delivery observation, keeps its limits, and the result expires no later than the delivery |
| ProbeTrace.BackendsAreTraced | scripts/http_probe_contract_validation.py:748-797 | Each backend of a passing attempt leads from its address through pod, replica set and deployment to the work order, and runs the delivered image |
| ProbeTrace.TargetIsTraced | scripts/http_probe_contract_validation.py:677-719 | Its target is the frozen service with one to three different pods |
| ProbeTrace.SliceListExactly | scripts/http_probe_contract_validation.py:798-814 | A snapshot is digested over each slice of its backends once, in the order of their uids |
| ProbeTrace.SnapshotsAreTrue | scripts/http_probe_contract_validation.py:691-692 | Both snapshots of every attempt count and digest what they show, whatever the verdict |
| ProbeWitness.SomethingIsAccepted | scripts/http_probe_contract_validation.py:820-1088 | Some document at the limits of its times is accepted and satisfied, so the results about such documents are not empty |
| BundleValidator.CollectDocuments | scripts/validate-platform-contracts.py:633-654 | The dictionaries, or nothing for a duplicate or an unsupported kind |
| BundleValidator.ValidateSemantics | scripts/validate-platform-contracts.py:633-1014 | Returns the bundle if and only if the documents are no duplicates and all modelled references are closed |
| BundleValidator.ValidatePath | scripts/validate-platform-contracts.py:713-881 | A path is accepted exactly when product, profile, entities, Realms and workflow fit |
| BundleValidator.ValidateEntities | scripts/validate-platform-contracts.py:742-751 | Every entity class has the state of the path and allows all its Realms |
| BundleValidator.ValidateRealms | scripts/validate-platform-contracts.py:849-860 | No Realm admits a draft; every other path is admitted with its state |
| BundleValidator.ValidateObserver | scripts/validate-platform-contracts.py:768-848 | The probe profile and the observer lifecycle of a version 2 delivery profile |
| BundleValidator.ValidateObserverChain | scripts/validate-platform-contracts.py:808-846 | The loops accept exactly the workflows that hold the chain of eleven steps |
| BundleValidator.ValidateFreeze | scripts/validate-platform-contracts.py:871-881 | HTTP conditions are frozen after inspection and needed by authoring |
| BundleValidator.ValidateWorkflow | scripts/validate-platform-contracts.py:861-870 | The growing set accepts exactly unique steps that need only steps before them |
| BundleValidator.FindStep | scripts/validate-platform-contracts.py:758-758 | The dictionary built from the steps holds the last one of each identifier |
| BundleValidator.ValidateRequest | scripts/validate-platform-contracts.py:1072-1086 | A request is accepted exactly when product, path and Realm join |
| BundleWorkflow.RunsTerminate | scripts/validate-platform-contracts.py:861-870 | A run of any executor has at most one start and one finish per step |
| BundleWorkflow.NoDeadlock | scripts/validate-platform-contracts.py:864-870 | Until every step is done, an executor can take another event |
| BundleWorkflow.MaximalRunsComplete | scripts/validate-platform-contracts.py:864-870 | A run that cannot go on has done every step |
| BundleWorkflow.NeedsGoBefore | scripts/validate-platform-contracts.py:867-870 | In every run, a step starts only after the one it needs is finished |
| BundleWorkflow.ChainGoesInOrder | scripts/validate-platform-contracts.py:830-846 | In every run, the steps of the chain happen in the order of the chain |
| BundleTheorems.CollectExact | scripts/validate-platform-contracts.py:633-654 | Collecting loses and invents nothing |
| BundleTheorems.PathOfProfile | scripts/validate-platform-contracts.py:722-741 | A delivery profile is bound to exactly one path |
| BundleTheorems.PathsMatchProfiles | scripts/validate-platform-contracts.py:991-996 | Version 2 paths and delivery profiles correspond one to one |
| BundleTheorems.ProfilesMatchProbes | scripts/validate-platform-contracts.py:997-1006 | Version 2 delivery profiles and probe profiles correspond one to one |
| BundleTheorems.AcceptedWorkflowsFinish | scripts/validate-platform-contracts.py:861-870 | Runs of every accepted path are bounded and end exactly when all steps are done |
| BundleTheorems.ObserverOrder | scripts/validate-platform-contracts.py:808-846 | Runs of an observed path keep the order merge, register, provision, attest, issue, observe, store, issue, probe, store, revoke |
| BundleTheorems.FrozenBeforeAuthoring | scripts/validate-platform-contracts.py:874-881 | They inspect the source, then freeze, then author |
| BundleTheorems.ObserverActionsPerformed | scripts/validate-platform-contracts.py:808-828 | A complete run has performed every action of the chain |
| BundleTheorems.AdmissionSound | scripts/validate-platform-contracts.py:1072-1086 | An accepted request names a non-draft path that its product publishes, its Realm admits and its entity classes allow |
| BundleTheorems.RequestableExactly | scripts/validate-platform-contracts.py:1072-1086 | A request is accepted if and only if its path is the product's, no draft, and supports the Realm |
| BundleClosure.SourceStepsPerformed | scripts/validate-platform-contracts.py:758-767 | A complete run of every version 2 path has waited for a human merge and passed the source gates |
| BundleClosure.MechanismRequired | scripts/validate-platform-contracts.py:752-757 | Some entity class of a version 2 path requires its delivery mechanism |
| BundleClosure.VersionsBindProfiles | scripts/validate-platform-contracts.py:722-741 | A path is of version 1 or 2, and binds a delivery profile if and only if it is of version 2 |
| BundleClosure.LifecyclesAgree | scripts/validate-platform-contracts.py:718-733 | A path shares its lifecycle with its product, entity classes, delivery profile and probe profile |
| BundleClosure.PoliciesCarried | scripts/validate-platform-contracts.py:777-789 | A version 2 path carries the policies its delivery needs, and its probes look at the Realm it supports first |
| BundleClosure.NothingDangles | scripts/validate-platform-contracts.py:687-711 | No reference of an accepted bundle dangles |
| BundleClosure.ObserverLifecycle | scripts/validate-platform-contracts.py:830-846 | The observer chain, step by step under its names, in every run |
| BundleClosure.OrderedExactly | scripts/validate-platform-contracts.py:861-870 | A workflow is accepted if and only if its identifiers differ and it can be run in the order it is listed |
| BundleClosure.CollectFailsExactly | scripts/validate-platform-contracts.py:650-654 | Collecting fails if and only if a kind is unsupported or two documents of a kind share an identifier |
| BundleWitness.SomethingIsClosed | scripts/validate-platform-contracts.py:633-1014 | Some bundle with an observed path is accepted, and some request against it |
| SlidingWindow.SlidingWindowCounter.Cleanup | ai-sre/guardrails/rate_limiter.py:52-56 | Popping from the front leaves exactly the full history filtered to the window |
| SlidingWindow.SlidingWindowCounter.Record | ai-sre/guardrails/rate_limiter.py:42-45 | Adds the event to the history |
| SlidingWindow.SlidingWindowCounter.Count | ai-sre/guardrails/rate_limiter.py:47-50 | Counts like the full history in the window |
| SlidingWindow.FromLater | ai-sre/guardrails/rate_limiter.py:52-56 | Forgetting by an earlier cutoff never changes what a later one counts |
| SlidingWindow.KeptIsWindow | ai-sre/guardrails/rate_limiter.py:52-56 | The rest after the popped prefix is the filtered history |
| SlidingWindow.RequestGate.CheckRateLimit | ai-sre/ingestion/api.py:49-59 | Accepts exactly while the last 60 seconds hold fewer than the limit, and every 60-second interval of the accepted requests keeps it |
| SlidingWindow.LimitInEveryInterval | ai-sre/ingestion/api.py:49-59 | Events admitted below a limit keep it in every interval of the window's length |
| SlidingWindow.NoBurst | ai-sre/ingestion/api.py:49-59 | One more admitted event than the limit always takes longer than the window |
| SlidingWindow.WithinAll | ai-sre/ingestion/api.py:49-59 | An interval counts every event in it, its two ends included |
| RateLimiter.CircuitBreaker.RecordSuccess | ai-sre/guardrails/rate_limiter.py:86-91 | Decides on pruned windows as the specification on full histories |
| RateLimiter.CircuitBreaker.RecordFailure | ai-sre/guardrails/rate_limiter.py:93-129 | The same, with the three counts of the threshold check |
| RateLimiter.CircuitBreaker.IsAllowed | ai-sre/guardrails/rate_limiter.py:99-114 | The same, for a request |
| RateLimiter.CooldownKept | ai-sre/guardrails/rate_limiter.py:104-111 | From an opening failure to the next allowed request the cooldown passes, whatever is recorded in between |
| RateLimiter.HalfOpensClean | ai-sre/guardrails/rate_limiter.py:104-111 | With a cooldown above the window, no failure is left in the window when the breaker turns half-open |
| RateLimiter.HalfOpenUntilDecided | ai-sre/guardrails/rate_limiter.py:86-91 | The breaker stays half-open if and only if there is neither a success nor a failure that trips it |
| RateLimiter.HalfOpenLetsAllThrough | ai-sre/guardrails/rate_limiter.py:113-114 | Until then every request is let through: one test request if and only if the callers ask once |
| RateLimiter.TwoRequestsInHalfOpen | ai-sre/guardrails/rate_limiter.py:113-114 | A run with the default settings that lets two requests through |
| RateLimiter.RetripNeedsFreshFailures | ai-sre/guardrails/rate_limiter.py:116-124 | Tripping again takes more than five times the threshold of failures recorded since |
| BreakerHistory.FailureOpensExactly | ai-sre/guardrails/rate_limiter.py:116-124 | A failure opens the breaker if and only if at least five outcomes were recorded in the window and the share of failures exceeds the threshold, counted on the operations |
| BreakerHistory.AllowedExactly | ai-sre/guardrails/rate_limiter.py:99-114 | A request is let through if and only if the breaker is not open or the cooldown since the last recorded failure is over |
| BreakerHistory.SuccessClosesExactly | ai-sre/guardrails/rate_limiter.py:86-91 | A success closes a half-open breaker and moves no other |
| BreakerHistory.TwoOfFiveOpen | ai-sre/guardrails/rate_limiter.py:116-124 | A run with three successes and two failures that opens the breaker |
| AgentLimits.AgentRateLimiter.CanProceed | ai-sre/guardrails/rate_limiter.py:211-228 | Clears exactly while breaker, global window, daily cost and role window leave room; says what each check changed |
| AgentLimits.AgentRateLimiter.CheckAgentRate | ai-sre/guardrails/rate_limiter.py:167-179 | Compares the full hourly history of the role with its cap |
| AgentLimits.AgentRateLimiter.CheckApiRate | ai-sre/guardrails/rate_limiter.py:181-189 | Compares the full history of the minute with the global cap |
| AgentLimits.AgentRateLimiter.CheckCostCap | ai-sre/guardrails/rate_limiter.py:191-199 | Resets the cost after a day and compares it with its cap |
| AgentLimits.AgentRateLimiter.RecordInvocation | ai-sre/guardrails/rate_limiter.py:230-238 | Extends the histories of exactly that role, of all calls and of the breaker, and the cost |
| AgentLimits.AgentRateLimiter.RecordFailure | ai-sre/guardrails/rate_limiter.py:240-242 | Passes the failure to the breaker and changes nothing else |
| AgentLimits.Invoke | ai-sre/guardrails/rate_limiter.py:211-238 | A caller that records right after clearing keeps a log that the caps hold for |
| AgentLimits.LoggedIsCapped | ai-sre/guardrails/rate_limiter.py:167-189 | The histories of a limiter used by that protocol keep both caps in every interval |
| AgentLimits.CapsInEveryInterval | ai-sre/guardrails/rate_limiter.py:167-189 | No minute exceeds the global cap and no hour any role's cap, wherever the interval starts |
| DedupService.AlertDeduplicator.ShouldInvestigate | ai-sre/ingestion/dedup.py:47-109 | Answer and new state are those of the specification with the periodic clean-up |
| DedupService.AlertDeduplicator.MarkInvestigated | ai-sre/ingestion/dedup.py:111-116 | The same, for the mark of an investigation |
| DedupService.AlertDeduplicator.MarkResolved | ai-sre/ingestion/dedup.py:118-122 | The same, for the mark of a resolution |
| DedupService.AlertDeduplicator.GetGroupStats | ai-sre/ingestion/dedup.py:124-138 | The loop reports exactly the groups seen within two windows |
| DedupService.AlertDeduplicator.CleanupExpired | ai-sre/ingestion/dedup.py:140-150 | The deleting loop leaves exactly the groups that are not expired |
| DedupService.ReceiveAlerts | ai-sre/ingestion/api.py:117-202 | One request after the other: exactly these calls in clock order, the routed alerts and the groups left behind, and routed alerts of one group are more than a window apart |
| DedupTheorems.CleanupInvisible | ai-sre/ingestion/dedup.py:62-65 | Over every call sequence with a non-decreasing clock, answers and statistics are those of a deduplicator that never deletes |
| DedupTheorems.SpacedExactly | ai-sre/ingestion/dedup.py:80-109 | The true answers for a key are more than a window apart if and only if each is marked before the next question on the key inside its window |
| DedupTheorems.ReceivedAlertsSpaced | ai-sre/ingestion/api.py:138-177 | So alerts received one after the other are |
| DedupTheorems.InterleavedBothInvestigate | ai-sre/ingestion/api.py:156-177 | Two requests that ask before either marks are both told to investigate |
| DedupTheorems.YesExactly | ai-sre/ingestion/dedup.py:67-109 | Yes if and only if the call opens a group or finds one not investigated |
| DedupHistory.AnswerIsTold | ai-sre/ingestion/dedup.py:67-109 | Yes if and only if the question is the first on its key, comes more than a window after the last opening, or finds no mark since then: from the calls alone |
| DedupHistory.DueIsInvestigated | ai-sre/ingestion/dedup.py:80-93 | A question whose earlier true answers are all more than a window old is answered yes |
| DedupHistory.InvestigatedExactly | ai-sre/ingestion/dedup.py:80-109 | Marked in time, a question is answered yes if and only if that is so |
| DedupHistory.StatsAreTold | ai-sre/ingestion/dedup.py:124-138 | Which keys the statistics report, with which count, status and age, from the calls alone |
| DedupHistory.HundredthCleans | ai-sre/ingestion/dedup.py:62-65 | After every hundredth question only groups seen within two windows are held |
| DedupTheorems.KeysSeparate | ai-sre/ingestion/dedup.py:41-45 | The key of an alert is its own if and only if its name, its cluster and all but the last character of its scope are free of colons |
| DedupTheorems.ScopesSeparate | ai-sre/ingestion/dedup.py:45-45 | Two namespaces have one scope if and only if they are equal or both stand for all namespaces |
| DedupTheorems.KeysCollide | ai-sre/ingestion/dedup.py:41-45 | Two collisions: names with a colon, and a namespace called like the placeholder |

## Left out

- The Go programs around the controller (tickers, HTTP servers, metrics, signal handling, the health store and
  `dns-monitor`): a tick receives a list of scores or an error. Scores are real numbers, so NaN does not occur.
- VerifyPropagation: its answer is only logged, so it has no place in the model.
- The JSON encoding of the state file: a file is missing, corrupt or a snapshot. Clock readings never run backwards, and
  a day number belongs to one day of the year.
- Mutexes and a second controller process: one evaluation runs at a time.
- Logging, metrics and the texts of errors and reasons, with the extra counts that only fill in such a text. The keyword
  arguments passed to a standard-library logger in `rate_limiter.py` would raise when those lines are reached; decisions
  and state are modelled as if they did not.
- Digests, signatures and the joins of a subject to its bundle, profile, envelope and trusted identities: arbitrary
  functions of the `Host`; nothing is assumed about them, collision freedom included. The same holds for the
  floating-point product that turns the time between two instants into milliseconds: CPython truncates it, and so
  derives 1000 for 1001 ms.
- JSON Schema, YAML and RFC 8785 canonical form: documents arrive with the fields of their types. The limit of five
  attempts per condition is therefore not assumed anywhere.
- JSON scalars and UTF-8 of expectations: one predicate of the `Host`; a JSON subset is kept in canonical form.
- The nested loops of `_validate_semantics` are one method per level; the order in which two failing checks are reported
  is not modelled, only that the document is rejected.
- BundleValidator.ValidateSemantics: does not cover registries, attestor profiles, input and runtime schemas, conditions
  of done, compensation and required evidence types, which are memberships in closed tables; so it accepts more than the
  source does, and the guarantees proved for what it accepts hold for what the source accepts.
- BundleValidator.ValidatePath: leaves out the same memberships, for a single path.
- BundleValidator.ValidateObserver: leaves out that the ten runtime schemas are registered, for the same reason.
- BundleValidator.ValidateRequest: does not cover the schemas of the request and of its inputs, for the same reason.
- The mutation fixtures and example builders of both validators: finite lists of examples.
- DedupService.ReceiveAlerts: covers requests handled one after the other; enrichment, routing targets and the webhook's
  own rate check are separate. Interleaved requests are covered by `SpacedExactly`, for calls in any order.
- AgentLimits.CapsInEveryInterval: covers callers that record right after they are cleared; the source does not force
  its callers to.
- RateLimiter.CircuitBreaker.RecordFailure: computes the error rate over the real numbers, without floating-point
  rounding.
- The audit log, Slack feedback, analytics buffering, other agents, Lambdas, Terraform and diagrams: I/O, formatting or
  simple threshold branches.
