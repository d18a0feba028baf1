# zen-cleaner: the deletion engine, verified

zen-cleaner is a Kubernetes controller that finds expired objects and deletes them. This project models its deletion engine
against an abstract cluster and proves what the engine guarantees: which objects can ever be removed, what the counters and
receipts it reports really mean, that its two evaluation paths and its two executors agree, and how its helpers (backoff, log
limiter, TTL evaluation, field paths, caches) behave over whole runs.

Run `dafny verify dfyconfig.toml` (Dafny 4.11) to check everything.

## How the model works

The cluster is a map from (namespace, kind, name) to an object. Everything outside the engine (API answers, the rate limiter,
timers, the context, the clock and the actions of others) comes from an *oracle*, an arbitrary infinite sequence of ticks; each
interaction consumes one tick. A statement about all oracles is a statement about every environment. A tick can also put
actions of others *between* the live read and the DELETE of one attempt, lose the answer of a DELETE that took effect, and
report "not found" for an object that is there.

`Reconciler.PolicyReconciler` is the engine statement by statement: loops, counters, maps and early returns over a mutable
world. Each of its methods is proved to compute a specification function on worlds; the theorems are about those functions.
The other stateful parts (`Backoff.Backoff`, `LogLimiter.RateLimiter`, `Sampling.Sampler`, `TargetCapability.Targets`,
`Creation.SharedMap`, `GvrResolver.Resolver`) are classes of the same shape. Maps that several goroutines share are state
machines whose steps are the sections between taking and releasing a lock, in any interleaving.

| file | content |
|---|---|
| `Arithmetic`, `Strings`, `Cluster`, `World` | quotients, glued identifiers and sorting, the cluster and policies, oracle and world |
| `Safety`, `Matching`, `Ttl`, `FieldPath` | the gate and the safety laws it enforces, selectors and conditions, TTL evaluation, the two path parsers |
| `Meaning` | selectors and conditions in the words of the policy, and that the matchers decide just that |
| `Backoff`, `Deletion`, `Retrying` | the backoff schedule; choke point, retry loop, batch loop; which faults a deletion survives |
| `Receipts`, `Execution`, `Agreement`, `Restart` | receipts and digests, the two executors, why they agree, repeated runs |
| `Evaluation`, `Plans`, `CycleReceipts`, `PathsAgree`, `HandsOff`, `Runs` | one evaluation cycle, what its plan and counters mean, its receipts, primary against fallback path, dry run and cancellation, whole runs |
| `Reconciler` | the imperative engine, proved equal to the functions above |
| `TargetCapability`, `ProbeVersions`, `Creation`, `GvrResolver` | target validation and failure backoff, what the probe cache forgets, double-checked creation, the resolver cache |
| `LogLimiter`, `Sampling` | the sliding-window log limiter and the log sampler |

## Where the code does not do what its text says

The model follows the code. These are the places where that differs from the comments or from what a reader would expect;
each is proved.

- The live read and the DELETE are two calls and the DELETE carries no UID precondition, so the comment that the UID check
  "guarantees" the right victim holds exactly if nobody puts another object under the name in between
  (`Deletion.DeleteFollows` states the equivalence, `Deletion.GapCanRemoveTheUnplanned` gives the run).
- On the fallback path, objects the gate refuses are counted as deleted (`PathsAgree.PathsAgree`).
- A reconcile whose two attempts both fail on target capability counts two failures, so a stretch of such reconciles is
  delayed by one minute, four minutes, then ten (`TargetCapability.FirstDelays`). The documented 30 seconds of a first failure
  are seen exactly if the first attempt passed validation and its informer did not sync (`TargetCapability.ThirtySeconds`). A
  success that is served by an informer of another policy does not reset the counter (`TargetCapability.ResetLaw`).
- Grants in the probe cache are stored under the normalised namespace but looked up under the spelled one: a grant is found
  again within its five minutes if and only if the namespace is not `*` (`TargetCapability.GrantFoundAgain`,
  `TargetCapability.HitExactly`).
- The probe cache is documented per GVK and namespace, but its key leaves out the version: a grant answers for exactly the
  targets of the same group, kind and normalised namespace (`ProbeVersions.GrantReaches`), so after a grant for `batch/v1` a
  policy on an unserved `batch/v99` is told that its target exists (`ProbeVersions.UnservedVersionIsNil`). Nil answers are right
  about the version over every run exactly if no two targets differ in the version alone (`ProbeVersions.VersionsRightExactly`).
- Log sampling bumps its counter twice per call, which doubles the documented rate for even thresholds, the defaults included
  (`Sampling.DocumentedRate`, `Sampling.DefaultRates`).
- The cap of the backoff is not applied to step 0 (`Backoff.BaseClosedForm`).
- TTL seconds are multiplied into int64 nanoseconds, which is exact only up to 9,223,372,036 seconds (`Ttl.NanosExact`). A TTL
  is due before the object was created exactly if the product modulo 2^64 lies in the upper half (`Ttl.DueBeforeCreation`):
  so are all from 9,223,372,037 to 18,446,744,073 seconds, while 18,446,744,074 seconds are due after 0.29 seconds
  (`Ttl.HugeTtlIsDueAtOnce`). The zero instant counts as "no TTL" except in the relative mode (`Ttl.DecisionIsOneComparison`).
- The gate judges the snapshot. Just before the DELETE only the UID is read again, so an exclusion mark put on after the
  snapshot is ignored (`Runs.LateExclusionIsIgnored`).
- A DELETE that took effect but whose answer got lost counts as an error (`Execution.LostAnswerErrs`, `Execution.CountsMatchReceipt`).
- The controller's plain path split and the TTL evaluator's parser disagree on exactly the paths with an escaped dot
  (`FieldPath.ParsersAgree`).

## Model

| member | source | states |
|---|---|---|
| Runs.WholeRunSafety | pkg/controller/reconciler_helpers.go:140-191 | over any sequence of policies, snapshots, paths, retries, faults and actions of others: behind every object the controller removes stands a policy of the run, neither paused nor a dry run nor aimed at a protected kind or namespace, whose selectors and conditions, spelled out, the planned object met, and whose cycle found it expired at a clock reading of its own, before the attempt; the planned object is outside the protected namespaces and kinds, bears the exclusion mark neither as label nor as annotation, and as a workload has the consent and phase it needs; the victim has its name, has its UID exactly if the gap before the DELETE kept it, and is itself safe to delete exactly if its marks are still those of the snapshot; tokens pay for every DELETE and every object attempted |
| Runs.StepIsSafe | pkg/controller/reconciler.go:242-347 | the same for one reconcile |
| Runs.ReconcileExactly | pkg/controller/reconciler.go:242-347 | reconciling a policy that is paused, or whose target is a hard-protected kind or a protected namespace other than "" and "*", leaves the world exactly as it was; reconciling any other policy is one cycle |
| Runs.IdleRun | pkg/controller/reconciler.go:242-347 | so a run of such policies, of any length, leaves the cluster to be what the others make of it, and takes no token and no tick |
| Runs.CycleFollows | pkg/controller/reconciler_evaluation.go:95-147 | all a cycle removes is in its plan, and the plan is in the snapshot and was judged due at a clock reading of this cycle's evaluation, before any of its removals |
| Runs.OnlyIdentityIsReread | pkg/controller/reconciler_helpers.go:157-173 | over any snapshot an undisturbed cycle removes whatever lives, by then, under the name and UID of a doomed object of it |
| Runs.LateExclusionIsIgnored | pkg/controller/reconciler_helpers.go:140-173 | the runs in which an object of any snapshot, marked as excluded after it was taken, is removed although the gate would refuse it as it is |
| HandsOff.CycleKeepsHandsOff | pkg/controller/execution_path.go:76-80 | under a dry-run policy or a cancelled context a whole cycle on either path makes no DELETE call and leaves the cluster to be exactly what others make of it, in every environment; a dry run counts nothing and issues no receipt |
| HandsOff.ExecuteUntouched | pkg/controller/execution_path.go:69-145 | the same for one batch: reads and receipts do not touch the cluster |
| HandsOff.RetryUntouched | pkg/controller/shared.go:294-359 | a retry loop entered with the context done, or under dry run, never reaches the choke point |
| PathsAgree.PathsAgree | pkg/controller/reconciler_evaluation.go:95-147 | for one snapshot and clock reading with nothing going wrong, primary and fallback remove the same objects: exactly those selected, meeting the conditions, expired, allowed and live under the planned UID; matched counts are equal, and pending and deleted differ by exactly the refused objects, split by readiness |
| PathsAgree.TalliesCompare | pkg/controller/evaluate_policy_shared.go:46-105 | the primary plan is the fallback plan without the refused objects, in order, and the counters differ by just those |
| PathsAgree.CalmCycle | pkg/controller/evaluate_policy_refactored.go:91-169 | an undisturbed cycle tallies the whole snapshot, counts its whole plan as deleted and purges the allowed part of it |
| Deletion.PerformFollows | pkg/controller/reconciler_helpers.go:140-191 | the choke point removes at most the planned name, only what the gate allows, outside dry run, with at most one DELETE |
| Deletion.DeleteFollows | pkg/controller/reconciler_helpers.go:157-190 | the victim of a DELETE has the planned UID if and only if the gap after the read did not put another object under the name |
| Deletion.GapCanRemoveTheUnplanned | pkg/controller/reconciler_helpers.go:118-128 | the run in which an object created in the gap is removed although nobody planned on it |
| Deletion.RetryLaw | pkg/controller/shared.go:294-359 | for any API answers: at most Steps attempts, all but the last answered by one of timeout, server timeout, too many requests and service unavailable; nil exactly after an answer nil or NotFound; exhausted only after nothing but those four, and, if no step of the schedule is zero, only after all attempts; cancelled only if a look at the context found it done; any other error is the last answer and none of the four |
| Retrying.TransientFaults | pkg/controller/shared.go:294-359 | a standing, allowed object whose first n attempts meet one of the four transient faults, each of the read or of a DELETE without effect, and whose next meets none: with fewer faults than attempts left it is gone after n + 1 attempts and the answer is nil, else it stands after all of them and the answer is "exhausted" |
| Retrying.FourFaultsAreOvercome | pkg/controller/shared.go:294-359 | on the controller's schedule the object goes, and the answer is nil, if and only if there are at most four |
| Retrying.OtherFaultsEndTheLoop | pkg/controller/shared.go:331-346 | any other fault of the read or the DELETE, and a failed wait, ends the loop after that one attempt with itself as the answer |
| Retrying.AttemptExactly | pkg/controller/reconciler_deletion.go:84-105 | in a quiet environment, for an allowed object: answer, ticks and cluster of one attempt from what wait, read and DELETE are answered |
| Deletion.RetrySleeps | pkg/controller/shared.go:330-350 | the sleep of a retry loop is at most the sum of what is left of the schedule |
| Deletion.RetrySleepsInFull | pkg/controller/shared.go:330-350 | and for an API that always times out it is that sum |
| Deletion.RetryBounds | pkg/controller/shared.go:294-359 | for the schedule in use: at most 5 attempts and 3.255 seconds of sleep per object |
| Deletion.BatchFollows | pkg/controller/shared.go:172-246 | every removal of a batch is a lawful removal of one of its objects; DELETE calls plus objects attempted never exceed the tokens taken |
| Deletion.BatchConserves | pkg/controller/shared.go:172-246 | deleted plus errors is the number of objects the loop got through, also when cancelled half-way; uncancelled that is the whole batch; nothing counts as deleted in dry run |
| Deletion.BatchLooksAtFifties | pkg/controller/shared.go:172-246 | the loop looks at the context before every fiftieth object and nowhere else; a look that finds it done is the end |
| Deletion.BatchStopsAtFifties | pkg/controller/shared.go:172-246 | a batch that is not got through stopped at a multiple of fifty whose look found the context done |
| Deletion.BatchAccounts | pkg/controller/shared.go:172-246 | where every token went, in every environment: one to each object handed to the retry loop and one to each attempt that got past its own wait |
| Execution.ReceiptExact | pkg/controller/execution_path.go:69-145 | with distinct keys, UIDs, no slash in namespace and kind, a quiet environment and succeeding reads, whatever waits, cancellation, gate and DELETE calls do: results match the batch one for one and each class says if and only if what became of the object |
| Execution.ReceiptHeader | pkg/controller/execution_path.go:69-145 | in every environment: there is a receipt if and only if it is no dry run; it names the policy and the digest of this batch and has one result per object; its overall status is FAILED if and only if some result is, PARTIAL if and only if none failed and one was skipped, SUCCEEDED if and only if all are SUCCEEDED or ALREADY_ABSENT |
| Execution.NoUidNoMismatch | pkg/controller/execution_path.go:107-140 | in every environment, a batch of objects without a planned UID has no SKIPPED result and no PARTIAL status |
| Execution.DirectExactly | pkg/controller/execution_receipt.go:87-123 | one object of DeleteWithReceipt in every environment: which class follows from the read, the UIDs, what the gap left and the DELETE's answer, and what the cluster then is |
| Execution.CountsMatchReceipt | pkg/controller/execution_path.go:101-140 | for a gate-filtered batch with distinct, well-named objects in a quiet environment with succeeding reads, and no false "not found" from a DELETE, wherever it is cancelled: errors plus the standing objects never reached are the FAILED results plus the objects that erred though gone; deleted plus errors is what the loop got through |
| Execution.CountsMatchWithoutFaults | pkg/controller/execution_path.go:101-140 | if moreover waits succeed, nothing is cancelled and faulted DELETE calls take no effect, the error count is the number of FAILED results and deleted is the rest |
| Execution.LostAnswerErrs | pkg/controller/reconciler_helpers.go:175-190 | a DELETE that took effect and whose answer got lost is an error for an object that is gone |
| Execution.DryRunLaw | pkg/controller/execution_path.go:76-80 | a dry run removes nothing, counts nothing and leaves no receipt |
| Execution.ObjectKeyInjective | pkg/controller/execution_path.go:147-149 | object keys tell objects apart when namespace and kind hold no slash |
| Execution.QuietBatch | pkg/controller/shared.go:172-246 | in a quiet environment a batch only ever removes its own standing objects |
| Execution.ReceiptSound | pkg/controller/execution_path.go:107-140 | the same setting with reads that may fail but do not lie: every class other than FAILED is true of the object |
| CycleReceipts.CycleReceiptsExact | pkg/controller/evaluate_policy_refactored.go:246-302 | over a snapshot of distinct, well-named objects, in a quiet environment with succeeding reads, wherever the cycle is cancelled: its receipts in a row hold one exact result for every object handed out, in plan order, against the cluster before and after the cycle; nothing else is gone; uncancelled the whole plan is handed out |
| CycleReceipts.SweepReceiptsExact | pkg/controller/evaluate_policy_shared.go:108-165 | the same for the batching loop from any index of a plan on |
| CycleReceipts.ExactInARow | pkg/controller/execution_path.go:107-140 | results of two stretches of objects with distinct keys, each exact about its own, are exact about both together |
| Restart.RestartLaw | pkg/controller/execution_path.go:107-140 | over any runs outside dry run, for any policies, over batches of distinct, well-named objects, when others act only between runs and never reuse a UID and no read reports a false "not found": once a run reports SUCCEEDED no later run does for that object, and with succeeding reads it reports ALREADY_ABSENT if the name is free and SKIPPED if it was taken again |
| Restart.AtMostOnce | pkg/controller/execution_path.go:107-140 | over any number of such runs an object (key and UID) is reported SUCCEEDED at most once, even if reads fail |
| Agreement.ExecutorsAgree | pkg/controller/execution_receipt.go:87-123 | outside dry run, for distinct, well-named objects, with an allowing gate and nothing going wrong, DeleteWithReceipt and ExecuteWithReceipt leave the same cluster and issue the same results, digest and overall status |
| Agreement.CalmExecute | pkg/controller/execution_path.go:69-145 | an undisturbed batch removes exactly its allowed standing objects and counts all of it as deleted |
| Receipts.DigestCanonical | pkg/controller/execution_receipt.go:73-81 | for identifiers without separators, two plans hash the same text if and only if they name the same objects the same number of times, in whatever order |
| Receipts.PlanDigest | pkg/controller/execution_receipt.go:73-81 | the collecting and sorting loop produces that text |
| Receipts.DigestOfOne | pkg/controller/execution_receipt.go:73-81 | the text for one object, character by character |
| Receipts.DigestOfTwo | pkg/controller/execution_receipt.go:73-81 | for two, the smaller identifier first and one space in between |
| Receipts.JoinSpacesInjective | pkg/controller/execution_receipt.go:79 | the printed list determines the list of non-empty identifiers without spaces |
| Receipts.IdStringInjective | pkg/controller/execution_receipt.go:75-77 | for parts without slashes the printed identifier determines namespace, kind, name and UID |
| Receipts.ComputeOverall | pkg/controller/execution_receipt.go:58-69 | the loop with its early return: FAILED if anything failed, else PARTIAL if anything was skipped, else SUCCEEDED |
| Receipts.OverallExactly | pkg/controller/execution_receipt.go:55-69 | the status, result by result, in both directions |
| Receipts.OverallConcat | pkg/controller/execution_receipt.go:58-69 | the status of two receipts put together is the worse of the two |
| Receipts.OverallPermuted | pkg/controller/execution_receipt.go:58-69 | the order of results does not matter |
| Strings.SortCanonical | pkg/controller/execution_receipt.go:78 | two lists sort alike if and only if they are permutations of each other |
| Evaluation.EvaluationConserves | pkg/controller/evaluate_policy_refactored.go:172-243 | at every exit of either evaluation, cancelled or not: matched is refusals plus pending plus the length of the plan |
| Evaluation.PlanIsFilter | pkg/controller/evaluate_policy_refactored.go:190-241 | the plan is the order-preserving filter of the judged prefix of the snapshot, complete, and every planned UID has a reason |
| Evaluation.EvaluatePlans | pkg/controller/evaluate_policy_refactored.go:172-243 | what is planned comes from the snapshot and was judged deletable at a clock reading taken while the evaluation ran |
| Plans.EvaluationMeans | pkg/controller/evaluate_policy_refactored.go:172-243 | for either path, however cancelled and with a clock that does not run backwards inside a decision: each object up to the stop gets the verdict that selectors, gate, conditions and due instant, all spelled out, call for at its own tick; matched and pending count the verdicts, and the counter of each refusal reason counts the objects refused for that reason; the plan is the filter of the planned ones; the context is looked at once before (primary path) and at every hundredth object |
| Plans.PlannedOnlyIf | pkg/controller/evaluate_policy_refactored.go:190-241 | everything planned is selected, permitted, asked for by every condition and past its due instant at its own tick |
| Plans.PlannedIf | pkg/controller/evaluate_policy_refactored.go:190-241 | and everything in the snapshot that is so is planned, unless the evaluation is cancelled |
| Plans.PlannedExactly | pkg/controller/evaluate_policy_refactored.go:190-241 | both together: which objects an uncancelled evaluation plans |
| Plans.FallbackReason | pkg/controller/evaluate_policy_refactored.go:337-360 | the fallback path gives "condition not met" exactly where a condition, spelled out, is not met, and the TTL's reason elsewhere |
| Plans.StopsAtHundreds | pkg/controller/evaluate_policy_refactored.go:190-199 | the loop stops at the first multiple of a hundred that finds the context done, and nowhere else |
| Plans.BatchSizes | pkg/controller/batch_config.go:26-35 | the batches of a cycle are of the policy's own size if positive, else of the configured one, else of fifty; uncancelled there are exactly as many as the plan needs |
| Plans.CancelledBeforeFirstBatch | pkg/controller/evaluate_policy_refactored.go:246-302 | for a plan that is not empty, nothing is handed out if and only if the context is found done by the look before the first batch, or by the primary path's additional one |
| Evaluation.StopAtRange | pkg/controller/evaluate_policy_refactored.go:190-199 | the loop stops early only at a checked index that finds the context done |
| Evaluation.ListIsSubset | pkg/controller/adapters.go:49-68 | listing keeps exactly the store's objects of the namespace |
| Evaluation.SweepBatches | pkg/controller/evaluate_policy_refactored.go:246-302 | batches are non-empty and within the size, all but the last are full; together they are the plan, ceil(n/size) of them, or a prefix when cancelled |
| Evaluation.SweepConserves | pkg/controller/evaluate_policy_refactored.go:246-302 | deleted plus errors is the number of objects processed, even when cancelled, and the whole plan when not; nothing in dry run |
| Evaluation.SweepFollows | pkg/controller/evaluate_policy_shared.go:108-165 | every removal of a sweep is a lawful removal of a planned object, and every DELETE has its own token |
| Reconciler.PolicyReconciler.PerformResourceDeletion | pkg/controller/reconciler_helpers.go:140-191 | computes the choke point's specification: gate, live read, UID check, DELETE, NotFound as success |
| Reconciler.PolicyReconciler.DeleteResource | pkg/controller/reconciler_deletion.go:84-105 | wait, dry-run check, choke point |
| Reconciler.PolicyReconciler.DeleteResourceWithBackoff | pkg/controller/shared.go:294-359 | the retry loop over a Backoff object computes the recursive specification; it terminates with Steps minus step |
| Reconciler.PolicyReconciler.DeleteBatchShared | pkg/controller/shared.go:172-246 | the batch loop with its context check every 50 objects |
| Reconciler.PolicyReconciler.ExecuteWithReceipt | pkg/controller/execution_path.go:69-145 | pre-read loop, delete, post-read loop and classification |
| Reconciler.PolicyReconciler.DeleteWithReceipt | pkg/controller/execution_receipt.go:87-123 | the executor without gate, limiter and retries |
| Reconciler.PolicyReconciler.EvaluateResources | pkg/controller/evaluate_policy_refactored.go:172-243 | the primary loop over counters, refusals, plan and reasons, with its context check every 100 objects |
| Reconciler.PolicyReconciler.EvaluatePolicyResourcesShared | pkg/controller/evaluate_policy_shared.go:46-105 | the fallback loop |
| Reconciler.PolicyReconciler.ListStore | pkg/controller/adapters.go:49-68 | the filtering loop over the store |
| Reconciler.PolicyReconciler.DeleteInBatches | pkg/controller/evaluate_policy_refactored.go:246-302 | the index loop over batches |
| Reconciler.PolicyReconciler.EvaluatePrimary | pkg/controller/evaluate_policy_refactored.go:91-169 | one cycle of the primary path, counters and world |
| Reconciler.PolicyReconciler.EvaluateFallback | pkg/controller/reconciler_evaluation.go:111-147 | one cycle of the fallback path, counters and world |
| Safety.NewGate | pkg/safety/safety.go:111-125 | the protected set is the built-in one plus exactly the configured and own namespaces, trimmed and non-empty |
| Safety.AllowsExactly | pkg/safety/safety.go:147-186 | the gate allows an object if and only if deletes are enabled, name and kind are there, namespace and kind are outside the protected ones, no label and no annotation under the exclusion key says "true", and workloads have consent and pods an ended phase; all of it spelled out |
| Safety.ReasonExactly | pkg/safety/safety.go:147-186 | of all refusal reasons that apply to the object, each spelled out by itself, the gate gives the first in its order, and none if none applies |
| Safety.EitherMarkRefuses | pkg/safety/safety.go:205-217 | the exclusion mark as a label alone, or as an annotation alone, is enough for a refusal |
| Safety.OtherEntriesDoNotMatter | pkg/safety/safety.go:205-217 | labels and annotations under any other key never change the gate's answer |
| Safety.TargetRefusedExactly | pkg/safety/safety.go:191-199 | a policy's target is refused for exactly the hard-protected kinds and the protected namespaces other than "" and "*", and with which reason |
| Safety.TrimExactly | pkg/safety/safety.go:111-125 | trimming a configured namespace cuts off white space at both ends and nothing else |
| Safety.RefusedTargetRefusesObjects | pkg/safety/safety.go:191-199 | under a refused target the gate refuses every object of that kind and namespace |
| Matching.MergeIsConjunction | pkg/controller/shared.go:362-376 | conditions are a conjunction: more conditions never select more |
| Matching.MissingMeets | pkg/controller/shared.go:396-467 | a missing label meets NotIn only, a missing field meets nothing |
| Matching.OperatorsComplement | pkg/controller/shared.go:396-493 | negated operators are exact complements on what is there; unknown label operators match nothing |
| Meaning.SelectedExactly | pkg/controller/shared.go:496-545 | an object is selected if and only if its namespace is the policy's (or the policy's is "" or "*"), a label selector is valid and matches, and every field selector finds its text under its path |
| Meaning.AskedExactly | pkg/controller/shared.go:362-493 | conditions are met if and only if each one is, in the words below; none, or an empty list of phases, asks for nothing |
| Meaning.LabelExactly | pkg/controller/shared.go:396-440 | Exists asks for some entry under the key, Equals and the empty operator for just this entry, In for it with a non-empty value, NotIn for its absence, any other operator for the impossible |
| Meaning.FieldExactly | pkg/controller/shared.go:455-493 | Equals, NotEquals, In and NotIn ask for a text under the path that is the value, another one, one of the list, or none of the list |
| Meaning.PhaseExactly | pkg/controller/shared.go:379-393 | a non-empty list of phases asks for one of them under status.phase |
| Ttl.DecisionIsOneComparison | pkg/controller/evaluate_policy_refactored.go:337-360 | through four modes, two clock reads and the already-expired detour, the decision is one comparison of the second reading with the due instant, up to the zero-instant exception |
| Ttl.ReasonsExactly | pkg/controller/evaluate_policy_refactored.go:337-360 | "not expired" if and only if there is a non-zero due instant that is not past, "no TTL" if and only if there is none or it is zero and not reported as past |
| Ttl.ErrorsExactly | internal/ttl/evaluator.go:57-157 | each error of the evaluator if and only if its own mode is the configured one and what it names is missing |
| Ttl.DeletableGrows | pkg/controller/evaluate_policy_refactored.go:337-360 | for a fixed snapshot the deletable set only grows with time |
| Ttl.IsExpiredAgrees | internal/ttl/evaluator.go:161-172 | IsExpired agrees with the controller wherever it answers, and in the relative mode says yes only for objects falling due between the two reads |
| Ttl.NanosExact | internal/ttl/evaluator.go:82-90 | seconds become nanoseconds faithfully if and only if the product fits int64 |
| Ttl.DueBeforeCreation | internal/ttl/evaluator.go:82-90 | a fixed TTL is due before the object was created if and only if its nanoseconds modulo 2^64 lie in the upper half |
| Ttl.HugeTtlIsDueAtOnce | internal/ttl/evaluator.go:82-90 | up to 18,446,744,074 seconds that means more than 9,223,372,036 and less than 18,446,744,074; such TTLs are due at once, and the last one is due 290,448,384 ns after creation |
| FieldPath.ParseFieldPath | internal/ttl/evaluator.go:178-198 | the index loop over a builder computes the recursive parser |
| FieldPath.UnparseParsed | internal/ttl/evaluator.go:178-198 | escaping and joining restores every path after parsing |
| FieldPath.ParseInjective | internal/ttl/evaluator.go:178-198 | different paths never parse alike |
| FieldPath.ParseUnparse | internal/ttl/evaluator.go:178-198 | parsing a joined list restores it if and only if no segment but the last ends in a backslash and the list is not one empty segment |
| FieldPath.ParseImage | internal/ttl/evaluator.go:178-198 | those lists are exactly the ones some path parses to |
| FieldPath.ParsersAgree | pkg/controller/field_path.go:8-13 | the plain split agrees with the escaping parser if and only if the path holds no escaped dot |
| FieldPath.SplitAtDot | pkg/controller/field_path.go:8-13 | the plain split cuts at every dot: the part before the first one, then the split of the rest |
| Backoff.Backoff.Next | internal/backoff/backoff.go:73-105 | the loop and the step counter compute the schedule's value; 0 once exhausted |
| Backoff.Backoff.Reset | internal/backoff/backoff.go:109-113 | the schedule starts over |
| Backoff.BaseClosedForm | internal/backoff/backoff.go:86-92 | for whole factors the base of step k is min(cap, duration * factor^k), uncapped at step 0 |
| Backoff.NextClosedForm | internal/backoff/backoff.go:73-105 | the k-th answer is that base plus half the truncated jitter, and 0 from exhaustion on |
| Backoff.NextMonotone | internal/backoff/backoff.go:73-105 | for any factor of at least 1 the answers never shrink before exhaustion |
| Backoff.LongestBounded | internal/backoff/backoff.go:73-105 | no answer exceeds max(duration, cap) * (1 + jitter/2) |
| Backoff.TotalBounded | internal/backoff/backoff.go:73-105 | the schedule sums to at most that times the steps |
| Backoff.DefaultTotal | internal/backoff/backoff.go:46-54 | the default schedule sums to 3.255 seconds |
| Backoff.DefaultLevelsOff | internal/backoff/backoff.go:73-105 | with more steps the default schedule would level off at 31.5 seconds, cap and jitter, from the tenth on |
| Backoff.TruncationIsOdd | internal/backoff/backoff.go:86-103 | scaled durations and halves are truncated toward zero on either side of it |
| Backoff.StepCountsNexts | internal/backoff/backoff.go:109-129 | in any run of Next and Reset the step is the number of Next calls since the last Reset, up to the maximum |
| Backoff.RunAnswers | internal/backoff/backoff.go:73-129 | so the k-th Next since the last Reset gets the k-th value, and 0 until a Reset once the steps are used up |
| LogLimiter.FilterInPlace | internal/logging/sampling.go:205-212 | filtering a slice into its own backing array keeps exactly the later entries in order and touches nothing behind them |
| LogLimiter.RateLimiter.Allow | internal/logging/sampling.go:183-226 | the answer is yes exactly if fewer than max allowed times of the key lie in the window that ends now, whether or not entries were cleaned up; a denial by a call for which no cleanup was due leaves every stored slice as it was; a call for which one is due cuts every slice but its own to two windows and restarts the cleanup interval |
| LogLimiter.RateLimiter.Cleanup | internal/logging/sampling.go:229-244 | keeps exactly what is younger than two windows, key by key |
| LogLimiter.CleanupIsInvisible | internal/logging/sampling.go:229-244 | a cleanup never changes what any later window holds |
| LogLimiter.GoodHistoryStep | internal/logging/sampling.go:183-226 | recording what is let through keeps any max + 1 consecutive allowed times at least a window apart |
| LogLimiter.RunIsSpaced | internal/logging/sampling.go:183-226 | so they are over every run with a monotone clock |
| LogLimiter.RunAdmits | internal/logging/sampling.go:183-226 | and in such a run a call is let through and recorded if and only if fewer than max calls have been, or the max-th latest of them is at least a window old: a denied call has max allowed ones less than a window before it |
| LogLimiter.AcceptExactly | internal/logging/sampling.go:205-220 | the same for any ordered history |
| Sampling.Sampler.ShouldLog | internal/logging/sampling.go:77-103 | each level samples by its own rate and counter and moves no other counter |
| Sampling.LoggedCalls | internal/logging/sampling.go:77-130 | which calls of a counted level are logged: multiples of the threshold if odd, of half of it if even |
| Sampling.DocumentedRate | internal/logging/sampling.go:118-130 | for rates strictly between 0 and 1, exactly every threshold-th call is logged if and only if the threshold is odd |
| Sampling.DefaultRates | internal/logging/sampling.go:50-58 | at the default rates one INFO entry in 5 and one success in 50 is logged |
| Sampling.ClockRate | internal/logging/sampling.go:106-116 | levels without a counter: of every hundred nanoseconds of the clock the whole percents of the rate let an entry through, all from rate 1 on, none from 0 down |
| Sampling.CountedExtremes | internal/logging/sampling.go:118-130 | counted levels log everything from rate 1 on and nothing from 0 down, with one bump instead of two; their counters wrap at 2^64 |
| TargetCapability.TargetBackoffFor | pkg/controller/target_capability.go:110-125 | the doubling loop is min(10m, 30s * 2^(n-1)) for every n, without overflow |
| TargetCapability.BackoffMonotone | pkg/controller/target_capability.go:110-125 | the delay never shrinks with the count and stays between 30 seconds and 10 minutes |
| TargetCapability.BackoffTable | pkg/controller/target_capability.go:110-125 | 30, 60, 120, 240, 480 seconds, then ten minutes for every further count |
| TargetCapability.Targets.ValidateTargetCapability | pkg/controller/target_capability.go:133-211 | malformed targets, cache, discovery and list probe, with what each leaves in the cache |
| TargetCapability.ValidateExactly | pkg/controller/target_capability.go:164-211 | for a target that is well-formed and not in the cache: the class of every discovery and list failure, nil exactly if nothing fails, and that only a grant changes anything |
| TargetCapability.AnsweredUnasked | pkg/controller/target_capability.go:133-163 | a malformed target is "configuration invalid" and a cached grant is nil, whatever discovery and the list would say, and nothing changes |
| TargetCapability.MalformedExactly | pkg/controller/target_capability.go:133-148 | malformed are exactly the targets whose apiVersion or kind is blank or whose apiVersion ends in its first slash |
| TargetCapability.ApiVersionExactly | pkg/controller/target_capability.go:338-351 | an apiVersion is group, slash and version, cut at the first slash, or a version alone |
| TargetCapability.AttemptExactly | pkg/controller/reconciler_informer.go:40-136 | an attempt is ready if and only if the informer is there, or the target is granted and its cache syncs; that and nothing else adds an informer |
| TargetCapability.ReconcileEnds | pkg/controller/reconciler_evaluation.go:95-147 | how a reconcile ends for each ending of its two attempts: with the cycle, after 30 seconds, or after the delay of the failure count; which of them leaves a service behind |
| TargetCapability.Targets.GetOrCreateResourceInformer | pkg/controller/reconciler_informer.go:40-136 | validation, counters, informer, and its removal when the cache does not sync |
| TargetCapability.Targets.EvaluatePolicy | pkg/controller/reconciler_evaluation.go:95-147 | the primary attempt, then the fallback attempt, then the requeue delay; a cycle that fails over an available snapshot requeues after 30 seconds |
| TargetCapability.Targets.RecordTargetFailure | pkg/controller/target_capability.go:314-323 | adds one to the policy's counter and to no other |
| TargetCapability.Targets.ClearTargetFailure | pkg/controller/target_capability.go:325-330 | forgets the policy's counter and no other |
| TargetCapability.StretchLaw | pkg/controller/reconciler_helpers.go:77-96 | in a failing stretch the k-th reconcile of a policy requeues after the delay of c + 2k failures, however reconciles of other policies are mixed in |
| TargetCapability.StretchDelays | pkg/controller/reconciler_helpers.go:77-96 | the delays of a stretch never shrink and never exceed ten minutes |
| TargetCapability.FirstDelays | pkg/controller/reconciler_helpers.go:77-96 | from a clean counter the delays of a stretch of doubly failing reconciles are 1, 4 and then always 10 minutes |
| TargetCapability.ThirtySeconds | pkg/controller/reconciler_helpers.go:77-96 | a reconcile that ends in a capability failure requeues after 30 seconds if and only if its first attempt passed validation and its informer did not sync |
| TargetCapability.ResetLaw | pkg/controller/target_capability.go:286-336 | the counter after every kind of reconcile: what clears it, what leaves it, what adds |
| TargetCapability.RunSound | pkg/controller/target_capability.go:221-229 | after any run over targets without separators in kind and namespace, every probe entry is a grant backed by a successful list |
| TargetCapability.NilMeansListed | pkg/controller/target_capability.go:133-211 | for such targets a nil answer means the group and kind were listed in the normalised namespace just now or less than five minutes ago, in some version; when it comes from a probe and not from the cache, in the target's own version |
| ProbeVersions.VersionsRightExactly | pkg/controller/target_capability.go:133-229 | over every run on a set of well-formed targets, nil answers are right about the version if and only if no two of the targets differ in the version alone |
| ProbeVersions.GrantReaches | pkg/controller/target_capability.go:149-163 | a granting probe newly answers for exactly the targets of its group, kind and normalised namespace, spelled without the star, of any version |
| ProbeVersions.VersionNotAsked | pkg/controller/target_capability.go:149-163 | for those the answer is nil whatever discovery and the list probe would say |
| ProbeVersions.UnservedVersionIsNil | pkg/controller/target_capability.go:149-163 | the input: after a grant for batch/v1 an unserved batch/v99 is nil, which without it is answered "API not found" |
| TargetCapability.HitExactly | pkg/controller/target_capability.go:149-163 | the lookup hits if and only if the namespace is not * and a young grant for the target is stored |
| TargetCapability.GrantFoundAgain | pkg/controller/target_capability.go:133-229 | after a granting probe and any later reconciles of any policies, a validation within five minutes is answered from the cache if and only if the namespace is not * |
| Creation.OneObjectPerKey | pkg/controller/shared.go:118-163 | under any interleaving of lock-delimited sections two callers of one key get the same object if and only if no cleanup of the key lies between them |
| Creation.CreatedOncePerEpoch | pkg/controller/reconciler_evaluation.go:41-90 | between two creations under one key lies a cleanup of that key |
| Creation.KeysDoNotShare | pkg/controller/shared.go:118-163 | callers of different keys never share an object |
| Creation.SharedMap.Get | pkg/controller/shared.go:128-155 | an uninterrupted caller finds or creates |
| Creation.SharedMap.Cleanup | pkg/controller/reconciler_lifecycle.go:106-118 | forgets one key |
| Creation.UninterruptedCaller | pkg/controller/reconciler_evaluation.go:41-90 | the two sections in a row are that caller |
| Creation.ServiceKeyInjective | pkg/controller/reconciler_evaluation.go:31-35 | service keys determine the target when kind and namespace hold no slash |
| Creation.ServiceKeyCollides | pkg/controller/reconciler_evaluation.go:31-35 | with a slash in the kind two targets share a key |
| Creation.JointConsistent | pkg/controller/reconciler_informer.go:40-136 | over services and informers created in any interleaving, every service is what the reconciler would build of the one informer of its key |
| Creation.SharedServiceIsFresh | pkg/controller/reconciler_evaluation.go:41-90 | the service a policy is given, built for whatever policy came first, is for the same target and equals the one the reconciler would build now of the policy's own informer: store, gate and configuration |
| Creation.SharedCycle | pkg/controller/reconciler_evaluation.go:95-99 | so its cycle is over the policy's own snapshot, with one gate for planning and deleting |
| GvrResolver.Resolver.ResolveGVR | pkg/controller/gvr_resolver.go:52-88 | cache, mapper, uncached plural |
| GvrResolver.FallbackExactly | pkg/controller/gvr_resolver.go:91-98 | the fallback keeps group and version and pluralises the kind, and is given exactly where the mapper fails at the instant it is asked |
| GvrResolver.CacheWitnessed | pkg/controller/gvr_resolver.go:82-85 | whatever the mapper does, every cached answer was given by the mapper: a plural never enters |
| GvrResolver.TransparentExactly | pkg/controller/gvr_resolver.go:52-88 | at every point of every interleaved run cached and uncached answers agree, if and only if the mapper's answers, once given, stand |
| GvrResolver.StableIsTransparent | pkg/controller/gvr_resolver.go:52-88 | in particular for a mapper that never changes an answer |
| GvrResolver.UninterruptedCaller | pkg/controller/gvr_resolver.go:52-88 | the three sections in a row are one caller |

## Left out

- Kubernetes clients, informer watches, discovery and HTTP servers: the cluster, snapshots and answers of the oracle stand for them. DELETE removes at once; propagation, finalizers and grace periods are not modelled.
- The token bucket of golang.org/x/time/rate is an abstract wait that succeeds or fails; SetRate, and with it MaxDeletionsPerSecond, has no effect in the model.
- SHA-256, cut to 16 bytes in the source, is known by its input only. RFC 3339 timestamps (section 5.6 of RFC 3339) are parsed by an arbitrary partial function. Label-selector matching is an arbitrary predicate of the labels. strings.ToLower and the plural rules are an arbitrary function of the kind.
- float64 products are exact real products; rounding is not modelled. Durations other than TTL seconds are unbounded integers.
- The algorithm inside sort.Strings: the model sorts by insertion.
- A resolved batch size of zero or less is excluded by precondition: it can only come from the controller configuration, and the source's loop then does not advance or slices out of range.
- The API resource that a DELETE is sent to is taken to be the object's own; a wrong plural shows as "not found" answers of the oracle. The GVR validation at the start of the primary cycle (validation.ParseGVR) is taken to pass.
- A missing safety gate (production always sets one), policy validation and policy integrity, status writing, metrics, events, tracing and log output.
- Cancellation is not assumed to last: the oracle may report a context as done and later as not done. The theorems hold for that larger set of environments.
- Plans (EvaluationMeans, PlannedExactly): a decision reads the clock twice, and the second reading is taken to be no earlier than the first; for other readings the whole-run theorem speaks of the decision the TTL evaluator makes.
- The reasons map is kept, but nothing reads it. DeleteWithReceipt has no caller outside tests; its removals do not enter the removal log that Runs.WholeRunSafety speaks about.
- A refusal in the probe cache, with the class it would carry: the source stores grants only, and TargetCapability.RunSound has nothing else there after any run over well-formed targets.
- Reconcile's bookkeeping around a cycle (policy specs and UIDs, requeue intervals of successful cycles) and the service injection used by tests.
- LogLimiter: the capacity of a slice is the limit from the start; append never has to grow it, so reallocation does not occur.
- Creation: of a service only the informer, the gate and the configuration are modelled; its matchers, deleter and recorders wrap the one reconciler. The three maps are modelled at the granularity of their lock sections; two sections never overlap, which is what the locks are for.
