# Linklint core: a Dafny model

Linklint inspects a URL or host without touching the network and explains what is suspicious
about it; callers may plug in network-backed *enrichers*, which a scheduler runs around a cache
and a governor and folds back into the verdict. This project models the parts of
`packages/core` whose behaviour is hardest to see from the code, and proves what they promise
for all inputs, all plans, all call sequences and all answers of the outside world.

| modules | what they cover |
|---|---|
| `EnrichmentSchema`, `Normalization`, `SourceRunner`, `SourceTroubles` | the report contract, what the runner makes of untrusted output and stored values, and one source run: cache read, admission, provider call, governor record, cache write |
| `CycleFinder`, `EnrichmentPlan`, `PlanTimeline`, `PlanExecution`, `PlanTheorems`, `PlanCycles` | the dependency plan: preflight, stages, blocked steps, cycle extraction, cancellation, the schedule they follow, and what it implies |
| `InspectAsync`, `Scoring`, `TextOrder` | the synchronous result, the fold of enrichment onto it, scores and suppression |
| `SparseReports` | exactly which sparse arrays make a run, a plan or the whole call reject |
| `EnrichmentGovernor`, `GovernorTheorems`, `GovernedRuns`, `EnrichmentCache`, `Clocks` | token bucket, exponential backoff and the expiring cache, over every sequence of calls |
| `JsonGraph` | validation and cloning of untrusted object graphs |
| `RawTokens`, `PercentDecode` | the URL tokenizer and the bounded percent decoder |
| `Ipv4`, `Ipv4Spellings`, `Ipv6`, `Ipv6Spellings`, `Ipv6Analysis`, `IpRanges`, `IpClassification`, `Numerals`, `Bits`, `Texts` | address literals, longest-prefix match, and classification |
| `Semver` | version precedence |
| `Wrappers` | the optional value the others share |

`dafny verify dfyconfig.toml` checks the whole project.

How the outside world enters the model: clocks are the `now` argument of a call; one run of a
source sees an `Answers` value that fixes what its cache, governor, provider and timers do and at
which point the caller's signal is first seen aborted; a plan sees a function `respond` from a
started step and its snapshot to such answers, and a function `abortedAt` telling whether a pass
sees the signal aborted. Arrays in provider output and stored values may have holes and nulls.
Every result holds for every choice of these. Tables (address ranges,
metadata endpoints, reason-code weights) are parameters too.

## What the code does, where a reader might expect otherwise

- `inspectAsync` is documented never to let a source fail the call. Sparse arrays break this. The
  checks of a report skip holes, cloning turns them into null, and unguarded code then reads
  through null:
  - A valid structured report with a hole among its outcomes, before any declared failure, makes
    its run throw while it looks for a failure, so that an admitted run is recorded neither as a
    success nor as a failure; a stored report with a hole makes it throw while its provenance is
    checked. The plan is rejected exactly when a step that it starts throws
    (`SparseReports.RunThrowsExactly`, `SparseReports.HoleAmongOutcomes`,
    `PlanExecution.ExecuteEnrichmentPlan`).
  - A hole among the outcomes behind a declared failure, or among the findings of a successful
    outcome (a legacy array filled only in part, say), lets the run settle, but the fold throws:
    the call returns exactly when the plan is not rejected and no run took a report with such a gap
    (`SparseReports.UnfoldableExactly`, `SparseReports.HoleAmongFindings`,
    `SparseReports.HoleBehindFailure`, `InspectAsync.InspectWithEnrichers`).
  - With arrays free of gaps every run settles and every call returns (`SparseReports.SolidRunFolds`,
    `SparseReports.RejectionIsSparse`, `SparseReports.SolidPlanFolds`).
- Only one cycle per pass is labelled `dependency-cycle`. Where cycles overlap, the rest of the
  second one becomes `prerequisite-unavailable` (`PlanCycles.OverlapIsHalfLabelled` gives a plan of
  three steps). A cycle whose members depend on nothing but each other in turn and on available
  steps is labelled as a whole (`PlanCycles.LonelyCycleIsLabelled`), and no step on or behind a
  cycle ever runs, labelled or not (`packages/core/src/inspect-async.ts:440`).
- The governor marks "no backoff window" with the time 0. This is sound exactly for clocks that
  are not negative: `GovernorTheorems.NegativeClockLooksBackedOff`.
- A governor capacity between 0 and 1 is accepted as configured and never admits anything:
  `GovernorTheorems.FractionalCapacityStarves`.
- With a clock that steps back, the lazily refilled bucket and one refilled at every call can
  differ. They stay the same bucket exactly on clocks without a peak, that is, without a reading
  strictly above both an earlier and a later one (`GovernorTheorems.BucketsAgreeExactly`, any
  clock); their answers agree exactly on the same clocks as long as no reading is negative
  (`GovernorTheorems.AnswersAgreeExactly`). Below zero a peak can stay unseen, because a source
  that has not failed is refused there (`GovernorTheorems.PeakBelowZero`).
- With a clock that steps back, the cache can lose an entry that is live again: exactly when a
  read after the last store found that entry expired and it is not expired now
  (`EnrichmentCache.DiffersExactlyWhenDropped`).
- A stored report is accepted by the source's own next run if and only if the source id is not
  blank and no array of the output had a hole (`Normalization.StoredReportRoundTrips`): a legacy
  source with a blank id, or a hole among the evidence (`SparseReports.HoleAmongEvidence`), stores
  a report that is then refused as invalid cached output.
- The IPv4 range test takes its shift count modulo 32, so a row of prefix 0 would match its base
  only; an IPv6 row with bits below its prefix in its partial group never matches
  (`IpRanges.Test4Exactly`, `IpRanges.Test6Exactly`). The shipped tables hold no such rows.
- The comment at `packages/core/src/parse/ip.ts:359` counts upper case as a non-canonical IPv6
  spelling; the comparison lower-cases the host first. The results follow the code, up to case.

## Model

| member | source | states |
|---|---|---|
| `CycleFinder.FindDependencyCycle` | packages/core/src/inspect-async.ts:490-523 | for every pending graph, a non-empty result is a list of distinct pending steps each depending on the next and the last on the first; the result is empty if and only if the graph restricted to pending steps is acyclic, and then the finishing order is topological |
| `CycleFinder.CycleFinder.Visit` | packages/core/src/inspect-async.ts:498-515 | visiting a new step either yields a genuine cycle or finishes the step, restores the path and keeps every earlier colour; terminates because uncoloured pending steps shrink |
| `CycleFinder.CycleFinder.FollowAll` | packages/core/src/inspect-async.ts:501-511 | after following all prerequisites without a cycle, every pending one is finished |
| `CycleFinder.CycleFinder.Follow` | packages/core/src/inspect-async.ts:502-510 | an unknown or settled prerequisite is skipped, one on the path closes a cycle, a new one is visited |
| `CycleFinder.TopologicalIsAcyclic` | packages/core/src/inspect-async.ts:490-523 | a graph with a topological order has no cycle, which is why an empty search result is complete |
| `EnrichmentPlan.CountTokens` | packages/core/src/inspect-async.ts:306-309 | the counts are the number of steps carrying each token |
| `EnrichmentPlan.OccurrencesOf` | packages/core/src/inspect-async.ts:306-313 | a token is counted at most once exactly when no two steps carry it |
| `EnrichmentPlan.IndexTokens` | packages/core/src/inspect-async.ts:310-313 | the index holds exactly the tokens that name one configured step |
| `EnrichmentPlan.PreflightExactly` | packages/core/src/inspect-async.ts:285-350 | on the plan as written: a step passes preflight if and only if no other enricher has its token and its dependency list is absent or an array of non-blank texts without holes, each naming exactly one enricher |
| `PlanExecution.Preflight` | packages/core/src/inspect-async.ts:315-350 | a step becomes pending if and only if its token is unique, its dependency list well formed and without holes, and every prerequisite known; every other step is settled as `invalid-plan`, with the reason: a duplicate token, a malformed list, or exactly the unknown prerequisites, in this order of precedence |
| `PlanExecution.Judge` | packages/core/src/inspect-async.ts:320-346 | one step is refused if and only if it fails preflight, and the refusal gives the first reason that applies |
| `PlanExecution.SelectPending` | packages/core/src/inspect-async.ts:374-413 | the ready and the blocked steps, exactly those, in plan order |
| `PlanExecution.RunStage` | packages/core/src/inspect-async.ts:384-403 | all ready steps are started, in order, on one snapshot that covers exactly the slots settled before the stage; if none of their runs throws, settled slots stay, the plan invariant is kept and pending loses exactly the ready steps; otherwise the stage rejects |
| `PlanExecution.SkipBlocked` | packages/core/src/inspect-async.ts:415-438 | exactly the blocked steps are settled, as `prerequisite-unavailable`, each naming all of its prerequisites that are settled and unavailable and no others; all other slots stay; the plan invariant is kept |
| `PlanExecution.SkipCycle` | packages/core/src/inspect-async.ts:443-459 | exactly the members of the cycle are settled, as `dependency-cycle`, each naming all its prerequisites and then having an unavailable one; all other slots stay; the plan invariant is kept |
| `PlanExecution.StuckHasCycle` | packages/core/src/inspect-async.ts:440-444 | when nothing is ready and nothing is blocked no topological order exists, so the fallback for an empty cycle is never taken |
| `PlanExecution.ExtractCycle` | packages/core/src/inspect-async.ts:440-459 | a stuck plan has exactly the members of one genuine cycle of pending steps settled as `dependency-cycle` |
| `PlanExecution.AbortPending` | packages/core/src/inspect-async.ts:353-372 | cancellation settles every pending step as `caller-aborted` and leaves all settled slots as they are |
| `PlanExecution.Pass` | packages/core/src/inspect-async.ts:374-459 | every pass that is not rejected keeps the invariant, extends the timeline by itself and strictly shrinks pending; it is rejected only by a ready step whose run throws |
| `PlanExecution.Collect` | packages/core/src/inspect-async.ts:462-476 | every slot is settled once, in plan order; the `unsettled-plan-node` fallback is never taken |
| `PlanTimeline.NextPass` | packages/core/src/inspect-async.ts:352-460 | a pass extends the timeline: what earlier passes saw and did stays as recorded, and the new one is a stage, a skip of all blocked steps or the skip of one cycle |
| `PlanTimeline.LastPass` | packages/core/src/inspect-async.ts:353-372 | so does the cancellation that ends it |
| `PlanExecution.ExecuteEnrichmentPlan` | packages/core/src/inspect-async.ts:278-477 | for every plan, world and cancellation it terminates: rejected exactly when a step that it starts throws, and otherwise with one settled, non-empty report per slot in plan order; every pass starts all that is ready, or else skips all that is blocked, or else skips one cycle; every start obeyed the run contract with the answers of the world, on the concatenation of exactly the reports settled before its pass; no pass that sees the signal aborted starts anything, and then all waiting steps become `caller-aborted`; without cancellation the started steps are the least fixed point of "passes preflight and every prerequisite ran and is available", and with it they lie in every such closed set |
| `PlanExecution.StartedIsFixed` | packages/core/src/inspect-async.ts:352-460 | in a finished uncancelled plan a step was started if and only if it was enabled by the started and available ones |
| `PlanExecution.StartedBelow` | packages/core/src/inspect-async.ts:352-460 | started steps lie in every set closed under enabling, cancelled or not |
| `EnrichmentSchema.AvailableStatuses` | packages/core/src/inspect-async.ts:483-487 | on the statuses themselves: a run satisfies its dependents if and only if every outcome is present and a success or a no-hit, in any mix |
| `PlanTheorems.StartedExactly` | packages/core/src/inspect-async.ts:374-402 | in an uncancelled plan a step is started if and only if it passes preflight and every prerequisite was started and answered with nothing but successes and no-hits |
| `PlanTheorems.CyclesNeverRun` | packages/core/src/inspect-async.ts:440-460 | no step from which a chain of prerequisites revisits a step is ever started, cancelled or not |
| `PlanTheorems.OrderIndependence` | packages/core/src/inspect-async.ts:272-477 | rearranging the plan rearranges the least fixed point, for fixed availability |
| `PlanTheorems.OnlyRanMatters` | packages/core/src/inspect-async.ts:374-387 | the fixed point does not depend on how steps that never ran are counted |
| `PlanTheorems.RanByAnswers` | packages/core/src/inspect-async.ts:352-460 | with the world's answers fixed, what ran in an uncancelled plan is the least fixed point over those answers |
| `PlanTheorems.OrderNeverMatters` | packages/core/src/inspect-async.ts:272-477 | two uncancelled executions of the same enrichers in any two orders, each enricher getting the same answers, start the same enrichers, and each started one reports exactly the same |
| `PlanTheorems.TransitivePrerequisites` | packages/core/src/inspect-async.ts:374-402 | when a step starts, all its transitive prerequisites were started earlier, were settled before its stage and are available |
| `PlanTheorems.SnapshotMembers` | packages/core/src/inspect-async.ts:385-387 | a snapshot holds exactly the outcomes of the settled slots |
| `PlanTheorems.SnapshotOfStart` | packages/core/src/inspect-async.ts:385-402 | the snapshot of a started step is exactly the plan-ordered concatenation of the reports settled before its pass: preflight rejections and all that earlier passes started or skipped, its prerequisites among them, and nothing of its own pass or a later one |
| `PlanTheorems.StartsAsSoonAsReady` | packages/core/src/inspect-async.ts:374-402 | a step starts in the first pass at whose beginning all its prerequisites are settled and available |
| `PlanCycles.NothingStartsAfter` | packages/core/src/inspect-async.ts:403-460 | once a pass finds nothing ready, no later pass starts anything |
| `PlanCycles.LonelyCycleIsLabelled` | packages/core/src/inspect-async.ts:440-459 | in an uncancelled plan, every member of a cycle whose members depend only on the next member and on available steps is labelled `dependency-cycle` |
| `PlanCycles.PlainCycleIsLabelled` | packages/core/src/inspect-async.ts:440-459 | so is every member of a cycle whose members have no other prerequisite, which the plan alone decides |
| `PlanCycles.OverlapIsHalfLabelled` | packages/core/src/inspect-async.ts:440-459 | a plan of three steps with two overlapping cycles, in which a step on a cycle is always labelled `prerequisite-unavailable` |
| `SourceRunner.RunEnricher` | packages/core/src/inspect-async.ts:551-794 | over every exit: the call protocol is kept; the run throws exactly when a stored or accepted fresh report has a gap that the code reads through, and otherwise settles; a settled report is the source's own followed by what went wrong around it, available to dependents if and only if it was a usable hit or a complete accepted answer with nothing wrong around it, and then exactly that answer; an exit without an answer of the source names its status, cause and whether to retry, from the answers alone (`SourceNamesExit`); a run cancelled at its start makes no call |
| `SourceRunner.SourceNamesExit` | packages/core/src/inspect-async.ts:561-738 | what each exit without an answer of the source reports first: a cancellation is skipped as `caller-aborted`; a denial is skipped with the governor's own cause or `governor-denied`, retryable; a governor that throws or answers nonsense is a retryable `governor-error`; a refused stored value is `invalid-cached-output`; a provider that throws, times out or answers nonsense is `source-error`, `timeout` or `invalid-output`, the last not retryable |
| `SourceTroubles.TroublesExactly` | packages/core/src/inspect-async.ts:551-876 | what goes wrong around a run, from the answers alone: exactly when it is marked with a cache-key, cache-read, cache-lifetime, cache-write or governor degradation, each with its own retry advice |
| `SourceRunner.AvailableExactly` | packages/core/src/inspect-async.ts:551-794 | exactly which combinations of cache, governor, provider and cancellation answers leave a run complete and undegraded |
| `SourceRunner.ProtocolGuarantees` | packages/core/src/inspect-async.ts:539-550 | no call of a kind happens twice; each admitted run is recorded exactly once if it settles and never if it throws, any other run never; a failure is recorded exactly when the answer is refused or declares a failure; a denied run does not reach its provider; a hit touches neither governor, provider nor store |
| `SourceRunner.ConsultCache` | packages/core/src/inspect-async.ts:570-627 | the cache is read exactly when a slot exists and the run is not cancelled; a stored value or cancellation around the read ends the run, by throwing exactly when the value is unreadable; otherwise the run goes on with exactly the degradations of slot and read |
| `SourceRunner.CallSource` | packages/core/src/inspect-async.ts:685-789 | the provider is called under its bound; the verdict is recorded once unless looking for a failure reads a null outcome, when the run throws; only a wholly completed report is stored |
| `SourceRunner.StoreReport` | packages/core/src/inspect-async.ts:756-788 | a store call happens exactly when a positive lifetime is resolved and the run is not cancelled; a failed write, a timeout and a cancellation before or during the write leave their own degradations |
| `SparseReports.RunThrowsExactly` | packages/core/src/inspect-async.ts:551-794 | a run throws if and only if it reads a valid stored report with a hole before any uncacheable outcome, or accepts a fresh structured report with a hole before any declared failure |
| `SourceRunner.ReadAnswer` | packages/core/src/inspect-async.ts:685-738 | an answer is accepted exactly when it returned, validates and was not overtaken by cancellation; a refusal is a skip exactly on cancellation, and names throw, timeout and cancellation apart |
| `SourceRunner.WithDegradations` | packages/core/src/inspect-async.ts:851-876 | the source's outcomes stay as a prefix, each degradation becomes one attributed failure, and any degradation makes the report incomplete |
| `SourceRunner.EffectiveTimeoutMs` | packages/core/src/inspect-async.ts:796-806 | the bound is positive and absent only after an explicit `null`; the source's own wins over the governor's, which wins over the default of 5000 ms |
| `SourceRunner.CacheSlotFor` | packages/core/src/inspect-async.ts:1117-1204 | a slot exists if and only if there is a lifetime policy and a non-empty text key that does not leak the raw URL; it carries the static lifetime; a degradation is left exactly for a resolver that cannot be called or a key that is unusable |
| `SourceRunner.CacheTtlFor` | packages/core/src/inspect-async.ts:1211-1248 | the resolver's answer for this report wins unless it is `undefined`, when the static lifetime counts; only a positive finite lifetime is used; a throw or a non-number is a degradation |
| `Normalization.NormalizeOutput` | packages/core/src/inspect-async.ts:977-997 | a findings array is accepted exactly when every finding present is valid, and becomes one successful outcome with its clone; a report is accepted exactly when every outcome present is valid under the source's identity with declared provenance, and is cloned; holes are skipped and come back as null |
| `Normalization.NormalizeCachedReport` | packages/core/src/inspect-async.ts:999-1022 | a stored value is used, cloned, exactly when it is a valid report without a gap among its outcomes and its provenance is cacheable; reading it throws exactly when it is valid and has a hole that the check of provenance reaches; anything else is refused |
| `Normalization.StoredReportRoundTrips` | packages/core/src/inspect-async.ts:977-1022 | a stored report is accepted again on a later hit if and only if the source id is not blank and no array of the output, outcomes, findings, evidence or confusables, has a hole |
| `Normalization.SolidClone` | packages/core/src/inspect-async.ts:1024-1027 | cloning changes exactly the reports that have gaps, and never closes one |
| `EnrichmentSchema.ValidOutcomeExactly` | packages/core/src/schema/enrich.ts:402-431 | a valid outcome has the expected identity, a cause exactly when skipped or failed, findings only when successful, and something to show when successful; holes pass, nulls do not |
| `EnrichmentSchema.ValidFindingExactly` | packages/core/src/schema/enrich.ts:445-478 | a valid finding has a registered code, a confidence between 0 and 1 if any, and confusables that name characters at positions counted from 0 |
| `EnrichmentSchema.TokensTellApart` | packages/core/src/inspect-async.ts:479-481 | check tokens are equal exactly for enrichers of the same layer and id |
| `InspectAsync.FoldRuns` | packages/core/src/inspect-async.ts:161-188 | it throws exactly on a null outcome; otherwise outcomes are concatenated in plan order, findings are those of successful outcomes, a token is listed as run or as skipped exactly when a run with it has a complete or an incomplete outcome, and every token lands in at least one list |
| `InspectAsync.OnlySuccessContributes` | packages/core/src/inspect-async.ts:181-187 | a skipped, failed or no-hit outcome contributes nothing, wherever it stands |
| `InspectAsync.SuccessContributes` | packages/core/src/inspect-async.ts:181-187 | a successful one contributes each of its findings, in order, under its own subject |
| `InspectAsync.Project` | packages/core/src/inspect-async.ts:193-210 | a finding's reason is suppressed and weightless if and only if some rule has its code and either no host or the host of the finding's own outcome subject; otherwise it has the registry weight |
| `InspectAsync.OtherHostsUntouched` | packages/core/src/inspect-async.ts:200-210 | rules for hosts other than that of the finding's own subject leave it alone, the input's own host included |
| `InspectAsync.FoldScore` | packages/core/src/inspect-async.ts:193-227 | the fold law: the score after enrichment is that of the base reasons and of the findings that no rule matches |
| `InspectAsync.CleanRunIsListed` | packages/core/src/inspect-async.ts:171-180 | a run of nothing but successes and no-hits has its token listed as run and, if no other run and no base entry has it, not as skipped |
| `InspectAsync.DegradedRunIsListed` | packages/core/src/inspect-async.ts:171-180 | a run with a skipped or failed outcome has its token listed as skipped |
| `InspectAsync.DiscoveredInOrder` | packages/core/src/inspect-async.ts:215-218 | the confusables of the findings are added in order |
| `SparseReports.UnfoldableExactly` | packages/core/src/inspect-async.ts:171-205 | the fold throws on a settled run if and only if the report it took, stored or fresh, has a gap among its outcomes or among the findings of a successful outcome |
| `SparseReports.SolidRunFolds` | packages/core/src/inspect-async.ts:551-794 | without gaps in provider output and stored values every run settles and can be folded |
| `SparseReports.RejectionIsSparse` | packages/core/src/inspect-async.ts:392-396 | a plan is rejected only over an answer with a gap |
| `SparseReports.SolidPlanFolds` | packages/core/src/inspect-async.ts:161-205 | a plan whose started runs got answers without gaps can be folded |
| `SparseReports.HoleAmongFindings` | packages/core/src/inspect-async.ts:977-985 | a legacy array of one hole settles as a complete run on which the fold throws |
| `SparseReports.HoleAmongOutcomes` | packages/core/src/inspect-async.ts:740-749 | a structured report of one hole makes an admitted run throw without any record |
| `SparseReports.HoleBehindFailure` | packages/core/src/inspect-async.ts:742-749 | behind a declared failure the hole goes unnoticed by the run, but not by the fold |
| `SparseReports.HoleAmongEvidence` | packages/core/src/inspect-async.ts:986-1022 | a report with a hole among its evidence is accepted, complete and storable, and refused on its next hit |
| `InspectAsync.MinConfidence` | packages/core/src/inspect-async.ts:229-239 | confidence is the minimum of the base's and every finding's |
| `InspectAsync.ConfidenceExactly` | packages/core/src/inspect-async.ts:229-239 | confidence falls only to a value that some finding states; one that states none does not lower it |
| `InspectAsync.KeepUnconfigured` | packages/core/src/inspect-async.ts:241-251 | only the placeholder of a configured layer is dropped; all other tokens keep their number |
| `InspectAsync.KeepsOrder` | packages/core/src/inspect-async.ts:244-251 | and their order |
| `InspectAsync.PlaceholderExactly` | packages/core/src/inspect-async.ts:244-251 | the placeholder of a layer counts as configured exactly when some enricher has that layer |
| `InspectAsync.Rescore` | packages/core/src/inspect-async.ts:212-227 | reasons are sorted and none lost; an ok score is that of the merged reasons, never falls and stays in the unit interval; invalid input stays unscored |
| `InspectAsync.FoldResult` | packages/core/src/inspect-async.ts:161-270 | it throws exactly when some run has a null outcome or a null finding in a successful one; otherwise the merged reasons are the base's plus one per finding, weighted by the registry unless a rule matches its code under the finding's own subject (`Project`), and the confusables the base's followed by the findings'; score never falls, confidence never rises, runs without findings leave the verdict unchanged; the check lists are exact |
| `InspectAsync.InspectWithEnrichers` | packages/core/src/inspect-async.ts:102-270 | with no enrichers the base result is returned; otherwise, for every plan, world and cancellation, the call rejects if and only if the plan does or some run cannot be folded, and else the runs are those of the plan contract and the result is their fold, with all that `FoldResult` promises; every configured token is listed as run or skipped and every unconfigured layer keeps its placeholder |
| `InspectAsync.BuildOkResult` | packages/core/src/schema/serialize.ts:118-180 | the synchronous result holds every reason, annotated and sorted, is fully confident, scored as if suppressed reasons were deleted, and lists exactly the channels that ran |
| `InspectAsync.BuildInvalidResult` | packages/core/src/schema/serialize.ts:35-88 | an invalid result is unscored and fully confident, with the sorted findings or a single parse error, and lists both layer placeholders, and the lexical one too when there was nothing to report |
| `Scoring.Aggregate` | packages/core/src/scoring/score.ts:27-36 | the loop computes the rounded complement of the product of factors: in the unit interval, and off the exact chance by at most half of 1e-10 |
| `Scoring.ProbabilisticOr` | packages/core/src/scoring/score.ts:9-36 | before rounding, a lone reason counts its weight and two groups combine as independent events |
| `Scoring.ScoreIsNearest` | packages/core/src/scoring/score.ts:27-36 | the score is a multiple of 1e-10, and a nearest one to the chance of the reasons |
| `Scoring.ExactScore` | packages/core/src/scoring/score.ts:27-36 | a chance that is such a multiple is the score |
| `Scoring.LoneReason` | packages/core/src/scoring/score.ts:9-36 | a lone reason whose weight has two decimals scores exactly its weight |
| `Scoring.TwoReasons` | packages/core/src/scoring/score.ts:9-36 | reasons of 0.8 and 0.2 score 0.84 |
| `Scoring.InversePermutes` | packages/core/src/scoring/score.ts:27-36 | the score does not depend on the order of reasons |
| `Scoring.ScoreBounds` | packages/core/src/scoring/score.ts:27-36 | scores lie between 0 and 1, rounding included |
| `Scoring.ScoreMonotone` | packages/core/src/scoring/score.ts:27-36 | more reasons never lower the score |
| `Scoring.ApplySuppressions` | packages/core/src/scoring/suppress.ts:71-84 | nothing is dropped; exactly the matched reasons become suppressed and weightless |
| `Scoring.SuppressingIsDeleting` | packages/core/src/scoring/suppress.ts:61-84 | suppressing gives the score of deleting |
| `Scoring.SortReasons` | packages/core/src/schema/reason-codes.ts:595-598 | a stable permutation: heavier first, then by code, and reasons alike in both in their old order |
| `TextOrder.TextOrderExactly` | packages/core/src/schema/reason-codes.ts:597-597 | one text comes before another if and only if they first differ at a smaller character or the first is a proper prefix of the second |
| `EnrichmentGovernor.Resolve` | packages/core/src/enrichment-governor.ts:170-180 | every configuration yields a usable policy: the documented defaults, overridden by positive finite values; refill is disabled exactly for a non-positive or non-finite interval; the timeout is 5000 ms unless configured, an explicit `null` included |
| `EnrichmentGovernor.InMemoryEnrichmentGovernor.constructor` | packages/core/src/enrichment-governor.ts:161-180 | a new governor is in the state of the empty history |
| `EnrichmentGovernor.InMemoryEnrichmentGovernor.StateFor` | packages/core/src/enrichment-governor.ts:219-227 | a source is created full on first sight and otherwise left alone, as are all others |
| `EnrichmentGovernor.InMemoryEnrichmentGovernor.Refill` | packages/core/src/enrichment-governor.ts:229-240 | only this source changes: tokens accrue with elapsed time up to capacity, never on a backward clock, never when disabled |
| `EnrichmentGovernor.InMemoryEnrichmentGovernor.Admit` | packages/core/src/enrichment-governor.ts:182-201 | the verdict and the new state are those that the history of calls determines |
| `EnrichmentGovernor.InMemoryEnrichmentGovernor.RecordSuccess` | packages/core/src/enrichment-governor.ts:203-207 | the state stays the one its history determines, now ending in a success |
| `EnrichmentGovernor.InMemoryEnrichmentGovernor.RecordFailure` | packages/core/src/enrichment-governor.ts:209-217 | the state stays the one its history determines, now ending in a failure |
| `GovernorTheorems.SourcesAreIndependent` | packages/core/src/enrichment-governor.ts:182-227 | a source's state, answers and admissions depend on its own calls only |
| `GovernorTheorems.TokensInRange` | packages/core/src/enrichment-governor.ts:182-240 | after every sequence of calls, on any clock, tokens lie between 0 and capacity |
| `GovernorTheorems.RateLimit` | packages/core/src/enrichment-governor.ts:182-240 | on any clock, admissions plus remaining tokens never exceed capacity plus what accrued between creation and the last refill; with refill off they equal capacity |
| `GovernorTheorems.WithoutRefill` | packages/core/src/enrichment-governor.ts:230-235 | with refill off a source is admitted at most floor(capacity) times, ever |
| `GovernorTheorems.LazyIsEager` | packages/core/src/enrichment-governor.ts:190-193 | on a clock without a peak the lazily refilled bucket, refilled now, is the bucket that was refilled at every call |
| `GovernorTheorems.SameAnswers` | packages/core/src/enrichment-governor.ts:190-193 | so both give the same verdict to every request |
| `GovernorTheorems.BucketsAgreeExactly` | packages/core/src/enrichment-governor.ts:190-193 | for any sequence of clock readings, the two buckets agree at every call, for every policy, trace and source with those readings, if and only if no reading lies strictly above both an earlier and a later one |
| `GovernorTheorems.AnswersAgreeExactly` | packages/core/src/enrichment-governor.ts:182-201 | for readings that are not negative, so do all answers |
| `GovernorTheorems.ForwardClocksAgree` | packages/core/src/enrichment-governor.ts:182-240 | in particular buckets and answers agree on every clock that never steps back |
| `GovernorTheorems.BackwardClockDiffers` | packages/core/src/enrichment-governor.ts:236-239 | three concrete readings on which answers differ |
| `GovernorTheorems.PeakBelowZero` | packages/core/src/enrichment-governor.ts:186-188 | three negative readings with a peak on which all answers agree, so the condition on answers needs a clock that is not negative |
| `GovernorTheorems.WindowPotential` | packages/core/src/enrichment-governor.ts:182-240 | admissions inside a window plus the level at its end are bounded by the level at its start plus accrual |
| `GovernorTheorems.WindowBound` | packages/core/src/enrichment-governor.ts:182-240 | on a forward clock any window of time holds at most capacity + span / interval admissions of one source |
| `GovernedRuns.ProviderRateLimit` | packages/core/src/inspect-async.ts:629-688 | runs that share one governor, however they interleave, call a source's provider at most capacity + span / interval times in any window of a forward clock |
| `GovernedRuns.ProviderBudget` | packages/core/src/inspect-async.ts:629-688 | and at most floor(capacity) times, ever, on any clock, when refill is off |
| `GovernedRuns.CallsWithinGrants` | packages/core/src/inspect-async.ts:629-688 | provider calls of a source never outnumber the admissions the governor granted it in the same stretch of its history |
| `GovernorTheorems.BackoffState` | packages/core/src/enrichment-governor.ts:203-217 | after every trace the stored counter and deadline are those of the failures since the last success |
| `GovernorTheorems.WindowGrows` | packages/core/src/enrichment-governor.ts:213-216 | the window starts at the base, doubles with every failure until the cap, never shrinks and never exceeds it |
| `GovernorTheorems.BackoffExact` | packages/core/src/enrichment-governor.ts:186-188 | a request is refused for backoff exactly while the window of the last of n consecutive failures is open; a success closes it |
| `GovernorTheorems.NegativeClockLooksBackedOff` | packages/core/src/enrichment-governor.ts:186-188 | a source without failures is refused for backoff if and only if the clock is negative |
| `GovernorTheorems.AdmittedExactly` | packages/core/src/enrichment-governor.ts:182-201 | a request is admitted if and only if the deadline has passed and a whole token is there |
| `GovernorTheorems.AdmissionCarries` | packages/core/src/enrichment-governor.ts:170-201 | the bound an admission carries: 5000 ms by default, `null` after an explicit `null`, the configured one if positive and finite, and otherwise none, for every configuration and history |
| `GovernorTheorems.EventuallyAdmitted` | packages/core/src/enrichment-governor.ts:182-240 | with capacity at least 1 and refill on, a source is admitted once its backoff is over and one interval has passed since its own last call, however busy other sources are |
| `GovernorTheorems.FractionalCapacityStarves` | packages/core/src/enrichment-governor.ts:176-193 | a capacity below 1 admits nothing |
| `EnrichmentCache.InMemoryEnrichmentCache.Get` | packages/core/src/enrichment-cache.ts:87-96 | the answer and the new store are those that the history determines |
| `EnrichmentCache.InMemoryEnrichmentCache.Set` | packages/core/src/enrichment-cache.ts:98-103 | only a positive finite lifetime is stored; the store stays the one its history determines |
| `EnrichmentCache.LazyEvictionIsInvisible` | packages/core/src/enrichment-cache.ts:87-103 | on a forward clock the evicting cache answers like a map that keeps everything and filters by expiry |
| `EnrichmentCache.HitsAreSound` | packages/core/src/enrichment-cache.ts:87-103 | on any clock a hit is the hit of that map |
| `EnrichmentCache.DiffersExactlyWhenDropped` | packages/core/src/enrichment-cache.ts:90-94 | on any clock the two differ if and only if the entry of the last store is live now and some later read of the key came when it had expired, which takes a clock that stepped back |
| `EnrichmentCache.GoneExactly` | packages/core/src/enrichment-cache.ts:90-94 | a stored entry is gone if and only if such a read exists |
| `EnrichmentCache.BackwardClockLosesAnEntry` | packages/core/src/enrichment-cache.ts:90-94 | a concrete trace on which they differ |
| `JsonGraph.Validator.IsJsonValue` | packages/core/src/schema/enrich.ts:531-542 | terminates on every finite graph, sparse arrays included, restores the path, and either the value unfolds into a finite document or a concrete walk to a cycle or a non-JSON leaf is given |
| `JsonGraph.Validator.AllJson` | packages/core/src/schema/enrich.ts:537-539 | the same for all items of an array, whose holes are skipped, or of a record |
| `JsonGraph.IsJson` | packages/core/src/schema/enrich.ts:531-542 | a value is accepted if and only if it unfolds into a finite document, if and only if no cycle and no non-JSON leaf is reachable; shared subobjects are accepted |
| `JsonGraph.DefectMeansNoDocument` | packages/core/src/schema/enrich.ts:531-542 | a reachable cycle or non-JSON leaf rules out every finite document |
| `JsonGraph.DenotesUnique` | packages/core/src/schema/enrich.ts:531-542 | a value spells out at most one document |
| `JsonGraph.Clone` | packages/core/src/inspect-async.ts:1024-1027 | cloning an accepted value terminates and writes out its document, holes as null |
| `RawTokens.TokenizeRawUrl` | packages/core/src/parse/raw-tokens.ts:37-111 | for every string and branch: the regions concatenate back to the input, hold no character that would have ended them, and follow the scheme, opaque, hostless-file and authority rules |
| `RawTokens.TokenizationIsUnique` | packages/core/src/parse/raw-tokens.ts:37-111 | that specification leaves no choice: a string has at most one tokenization |
| `RawTokens.SplitPathQueryFragment` | packages/core/src/parse/raw-tokens.ts:141-159 | lossless; no `?` or `#` in the path, no `#` in the query |
| `RawTokens.BodyIsUnique` | packages/core/src/parse/raw-tokens.ts:141-159 | clean parts joined have one split |
| `RawTokens.LeadingAuthorityIntroducer` | packages/core/src/parse/raw-tokens.ts:113-124 | the whole leading run of slashes, when an authority is explicit and at least two lead |
| `RawTokens.HostlessFileBody` | packages/core/src/parse/raw-tokens.ts:126-139 | a body is hostless exactly when it is empty or starts with a slash but not with an authority; its two parts concatenate to it, the introducer being the two slashes or nothing |
| `RawTokens.SplitScheme` | packages/core/src/parse/raw-tokens.ts:43-54 | the scheme, its colon and the rest concatenate to the input; the raw scheme keeps its case |
| `RawTokens.SchemeExactly` | packages/core/src/parse/raw-tokens.ts:43-54 | on the characters: a prefix is a scheme if and only if it is a letter followed by letters, digits, `+`, `.` or `-` up to a colon, and is a known scheme or has no dot and is not followed by a port |
| `RawTokens.HostPortIsNoScheme` | packages/core/src/parse/syntax.ts:76-86 | a bare host and port is not read as a scheme |
| `RawTokens.SchemeLists` | packages/core/src/parse/syntax.ts:36-74 | exactly which schemes are known and which are opaque |
| `RawTokens.SplitAuthority` | packages/core/src/parse/raw-tokens.ts:93-110 | the authority runs to the first `/`, `?` or `#`, and nothing is lost |
| `RawTokens.FirstIndexOf` | packages/core/src/parse/syntax.ts:88-94 | the first position of any listed character, or none |
| `PercentDecode.DecodeChanges` | packages/core/src/parse/decode.ts:11-14 | a pass changes a string exactly when it holds a valid escape (section 2.1 of RFC 3986), and then shortens it by at least two |
| `PercentDecode.DecodesEscapes` | packages/core/src/parse/decode.ts:11-14 | one pass undoes one layer of escaping of any text, in either case of the hex digits, leaves plain text alone and continues behind it |
| `PercentDecode.BoundedDecodeUpTo` | packages/core/src/parse/decode.ts:24-37 | the loop returns the iterate of the smaller of cap and depth, the number of changing passes, and whether an escape remains |
| `PercentDecode.BoundedDecodeByDefault` | packages/core/src/parse/decode.ts:6-37 | without a cap of the caller's the cap is four passes |
| `PercentDecode.TruncatedExactly` | packages/core/src/parse/decode.ts:34-36 | truncated exactly when the depth exceeds the cap, which is exactly when another pass would change the result |
| `PercentDecode.CapsAdd` | packages/core/src/parse/decode.ts:24-37 | decoding with cap a and then cap b is decoding with cap a + b, passes and truncation included |
| `Semver.ParsesItsPieces` | tools/check-upstream.ts:99-107 | a version written from well-formed pieces parses into them, build metadata dropped |
| `Semver.ParsedIsWritten` | tools/check-upstream.ts:99-107 | and nothing else parses |
| `Semver.CompareSemver` | tools/check-upstream.ts:118-151 | the loops compute precedence; an unparseable input is an error, the first one first |
| `Semver.PrecedenceFlips` | tools/check-upstream.ts:128-151 | swapping the arguments negates the result |
| `Semver.PrecedenceTransitive` | tools/check-upstream.ts:128-151 | precedence is transitive, and strict as soon as one step is |
| `Semver.CoreDecides` | tools/check-upstream.ts:134-137 | the leftmost differing core number decides, whatever the prereleases |
| `Semver.IdentifierDecides` | tools/check-upstream.ts:109-117 | the leftmost differing identifier decides: numbers by value and below text, text by code point; a longer list outranks its own beginning |
| `Semver.PrereleaseBelowRelease` | tools/check-upstream.ts:139-142 | every prerelease lies strictly below its release |
| `Semver.EqualPrecedence` | tools/check-upstream.ts:128-151 | two versions tie exactly when their cores and the meanings of their identifiers agree |
| `Ipv4.AnalyzeIpv4Host` | packages/core/src/parse/ip.ts:55-87 | the packing code computes the inet_aton value and its canonical form; its last overflow test never fires |
| `Ipv4.Pack` | packages/core/src/parse/ip.ts:69-80 | Horner packing is inet_aton: leading parts single bytes, the last one filling the rest |
| `Ipv4Spellings.DenotesExactly` | packages/core/src/parse/ip.ts:14-87 | a host denotes an address if and only if it is, up to case and one root dot, a dotted list of decimal, zero-padded, octal or hex spellings of values that inet_aton packs into it |
| `Ipv4Spellings.SpelledHost` | packages/core/src/parse/ip.ts:55-87 | such a host is obfuscated exactly when it does not have four parts or one is not a plain decimal |
| `Ipv4Spellings.SpellingReads` | packages/core/src/parse/ip.ts:14-34 | every spelling of a part reads as its value |
| `Ipv4Spellings.ReadsSpelling` | packages/core/src/parse/ip.ts:14-34 | every part that is accepted is one of those spellings |
| `Ipv4.CanonicalIsFixpoint` | packages/core/src/parse/ip.ts:36-87 | the dotted form of every 32-bit value decodes to it, is its own canonical form and is not obfuscated |
| `Ipv4.ObfuscatedExactly` | packages/core/src/parse/ip.ts:82-86 | a recognized host is unobfuscated if and only if, without its root dot, it is its canonical form |
| `Ipv4.NoColon` | packages/core/src/parse/ip.ts:55-87 | an IPv4 host holds no colon |
| `Ipv4.ReadStrictDottedQuad` | packages/core/src/parse/ip.ts:223-236 | the loop computes the strict reading |
| `Ipv4.StrictReadsCanonical` | packages/core/src/parse/ip.ts:223-236 | the strict reader yields n if and only if n is a 32-bit value and the text its dotted form |
| `Ipv4.DottedToIntInverts` | packages/core/src/detectors/ip-classification.ts:70-76 | the second dotted reader inverts the printer on every 32-bit value |
| `Ipv6.ReadHextets` | packages/core/src/parse/ip.ts:238-261 | the loop reads a colon-separated run, a dotted quad only in the last position |
| `Ipv6.DecodedIsAddress` | packages/core/src/parse/ip.ts:326-353 | whatever is accepted is eight 16-bit groups |
| `Ipv6Spellings.DecodesExactly` | packages/core/src/parse/ip.ts:238-353 | a text decodes to an address if and only if it is, up to case, a spelling of it: each group its hex numeral padded with zeros to at most four digits, optionally one `::` for a run of at least one zero group, and optionally the last two groups as a dotted quad |
| `Ipv6Spellings.SpellingDecodes` | packages/core/src/parse/ip.ts:238-353 | every such spelling decodes to the address |
| `Ipv6Spellings.DecodedIsSpelled` | packages/core/src/parse/ip.ts:238-353 | whatever decodes is such a spelling, which the lemma gives |
| `Ipv6.LongestZeroRun` | packages/core/src/parse/ip.ts:265-281 | the first longest run of zero groups: none is longer, none as long starts earlier (section 4.2.3 of RFC 5952) |
| `Ipv6.CanonicalizeIpv6` | packages/core/src/parse/ip.ts:263-287 | prints the all-hex form, compressing that run when it has at least two groups (section 4.2.2 of RFC 5952) |
| `Ipv6.MixedCanonicalIpv6` | packages/core/src/parse/ip.ts:289-323 | prints the mixed form, compressing only among the upper six groups (section 5 of RFC 5952) |
| `Ipv6Spellings.CanonicalSpelling` | packages/core/src/parse/ip.ts:263-287 | the canonical form is the spelling without padding and without a quad whose `::` stands for the first longest run of at least two zero groups, if there is one |
| `Ipv6Spellings.MixedSpelling` | packages/core/src/parse/ip.ts:289-323 | the mixed form is the one with a quad, by the same rule on the upper six groups |
| `Ipv6.CanonicalDecodes` | packages/core/src/parse/ip.ts:263-353 | the canonical form of any address parses back to it |
| `Ipv6.MixedDecodes` | packages/core/src/parse/ip.ts:289-353 | so does the mixed form |
| `Ipv6.HextetsOfCanonical` | packages/core/src/detectors/ip-classification.ts:116-140 | the second reader agrees on every canonical form |
| `Ipv6.CanonicalInjective` | packages/core/src/parse/ip.ts:263-287 | different addresses have different canonical forms |
| `Ipv6Analysis.UnwrapLow32Ipv4` | packages/core/src/parse/ip.ts:201-221 | the loops find the first matching wrapper, an excluded low half ending the search |
| `Ipv6Analysis.UnwrapsExactly` | packages/core/src/parse/ip.ts:148-221 | exactly which addresses carry an IPv4 one: four prefixes, except `::` and `::1`, each with the name of its mechanism |
| `Ipv6Analysis.AnalyzeIpv6Host` | packages/core/src/parse/ip.ts:325-385 | the analysis is decoding, canonical form, wrapper and obfuscation verdict of the decoded bits |
| `Ipv6Analysis.DecodeLower` | packages/core/src/parse/ip.ts:325-357 | reading does not depend on case |
| `Ipv6Analysis.UnobfuscatedSpellings` | packages/core/src/parse/ip.ts:357-376 | for every text and address: the text denotes the address and is unobfuscated if and only if, up to case, it is the canonical form or, behind a listed wrapper only, the mixed form |
| `Ipv6Analysis.CanonicalIsFixpoint` | packages/core/src/parse/ip.ts:355-385 | the canonical form analyses to itself, unobfuscated, with the wrapper of its bits |
| `IpRanges.SortRows` | packages/core/src/data/ip-ranges.ts:59-72 | a permutation in descending prefix order |
| `IpRanges.ScanIsLongestMatch` | packages/core/src/data/ip-ranges.ts:74-91 | on a sorted table the early-exit scan gives the verdict of a most specific matching row, so a carve-out hides its parents |
| `IpRanges.LongestVerdictUnique` | packages/core/src/data/ip-ranges.ts:59-91 | the verdict does not depend on how ties were sorted when no two matching rows are equally specific |
| `IpRanges.Test4Exactly` | packages/core/src/data/ip-ranges.ts:86-87 | the XOR and shift test is agreement on the top prefix bits for prefixes 1 to 32, and equality with the base at prefix 0 |
| `IpRanges.MatchIpv4Range` | packages/core/src/data/ip-ranges.ts:84-91 | the loop is the early-exit scan with that test |
| `IpRanges.Ipv4LongestPrefix` | packages/core/src/data/ip-ranges.ts:74-91 | for any sorted table of prefixes 1 to 32 it is longest-prefix match on the 32-bit value |
| `IpRanges.Test6Exactly` | packages/core/src/data/ip-ranges.ts:103-109 | the group and mask test is agreement of the 128-bit values on the top prefix bits, if and only if the row's host bits are clear |
| `IpRanges.MatchIpv6Range` | packages/core/src/data/ip-ranges.ts:100-113 | the labelled loops are the early-exit scan with that test |
| `IpRanges.Ipv6LongestPrefix` | packages/core/src/data/ip-ranges.ts:93-113 | for any sorted table with clear host bits it is longest-prefix match on the 128-bit value |
| `IpClassification.LoadMetadata` | packages/core/src/detectors/ip-classification.ts:90-100 | the loop builds the maps of all rows that parse, later rows winning |
| `IpClassification.MapsOnBits4` | packages/core/src/detectors/ip-classification.ts:78-100 | a lookup finds the last row whose address denotes that 32-bit value, however it is spelled |
| `IpClassification.MapsOnBits6` | packages/core/src/detectors/ip-classification.ts:78-100 | the map keyed by canonical text is keyed by the 128 bits |
| `IpClassification.OnBits4` | packages/core/src/detectors/ip-classification.ts:142-160 | classifying the printed form of a 32-bit value is classifying the value |
| `IpClassification.OnBits6` | packages/core/src/detectors/ip-classification.ts:162-184 | classifying the printed form of an address is classifying its groups |
| `IpClassification.ClassifyHost` | packages/core/src/detectors/ip-classification.ts:285-318 | parse, print, re-read and look up gives the verdict of the decoded bits, for every host and every table contents |
| `IpClassification.SpellingDoesNotMatter` | packages/core/src/detectors/ip-classification.ts:295-303 | two spellings of the same bits get the same bucket, canonical address and wrapper |
| `IpClassification.SpellingsShareBucket` | packages/core/src/detectors/ip-classification.ts:285-318 | any two spellings of an IPv6 address, in any case, land in the same bucket |
| `IpClassification.OneReading` | packages/core/src/detectors/ip-classification.ts:288-296 | no host is read both as IPv4 and as IPv6 |
| `IpClassification.WrapperNeverSuppresses` | packages/core/src/detectors/ip-classification.ts:302-314 | any spelling of a wrapped address earns the bucket of the bare dotted text of the embedded address, and the IPv6 verdict when that earns none |

## Left out

- Timers, `AbortController`, promise races and their real-time bounds: a timed-out or cancelled operation is one of the answers a run may get.
- The plan is not composed with the cache object, and with the governor object only through the admissions of its runs; each run's answers are free, so interleavings are covered.
- RunStage: runs the ready steps one after the other on one snapshot; completion order inside `Promise.all` has no counterpart, because results are placed by index. After a rejection, siblings that go on in the background are not recorded.
- The list of enrichers is a dense array of enrichers.
- The field validators for subjects, instants, freshness and provenance references (`packages/core/src/schema/enrich.ts:480-525`): a value that fails them is `Malformed` output or a stored value without a report.
- The text of store keys and payload details other than reason and prerequisites.
- HextetsOf: `parseInt` is modelled on hex digits only, without signs, blanks or an inner `0x`, none of which occurs in canonical strings.
- DottedToInt: only for decimal parts, since its callers pass canonical dotted strings.
- MatchIpv6Range: rows have eight base groups and a prefix of at most 128.
- ClassifyHost: the same condition on the table; endpoint kind and metadata hostnames are not modelled.
- FoldResult: registry weights are at most 1, as the registry documents them.
- InspectWithEnrichers: the same; option intake and the synchronous detectors are represented by the base result.
- Severity bands, policy axes, URL comparison, detectors other than address classification, and the contents of generated tables.
- IDNA, the Public Suffix List and Unicode helpers: the host a subject is suppressed under is a parameter.
- IEEE rounding: numbers are exact, clocks return finite numbers, `toFixed(10)` is exact rounding to ten places.
- Strings are sequences of Unicode characters, not UTF-16 code units; lower-casing is ASCII.
- Getters that throw, a `toJSON` or other non-index property on an array, and stack overflow during JSON validation and cloning.
- The command line, MCP server, registry client and audit tools.
