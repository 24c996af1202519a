# Kontext: a model of its control plane and reference runtime

Kontext turns `Agent` definitions into `AgentRun` objects and Pods. This project models the parts of it
whose promises span many steps: the Scheduled and Service reconcilers, warm delivery, the rotation of
the webhook's CA, the result envelope on its way from the runtime to the reporter, the reference engine
with its fake provider, goal templates, and the MCP line readers and writers.

Most components come in three layers. A predicate or function says what one operation does; an object or
a loop that follows the original's control flow is proved against it; and lemmas state what holds over
all runs, streams or inputs. The modules named `...Effect` say once more, without the functions of the first
layer, what comes of one operation for every input and every failing call. `dafny verify dfyconfig.toml` checks the project.

| Component | Files |
|---|---|
| Scheduled Agents | `Scheduler`, `ScheduledMetadata`, `ScheduledHistory`, `ScheduledProtocol`, `ScheduledController`, `ScheduledEffect`, `ScheduledRuns`, `ScheduledCounters`, `ScheduledLimits` |
| Service Agents | `ServiceRunNames`, `ServiceProtocol`, `ServiceController`, `ServiceEffect`, `ServiceRuns`, `NameCollisions`, `PodRuns`, `PodEffect` |
| Warm delivery | `DeliveryProtocol`, `DeliveryController`, `DeliveryEffect`, `DeliveryRuns`, `DeliveryFaults` |
| Webhook TLS | `WebhookTls` |
| Result stream | `Utf8`, `JsonText`, `JsonNesting`, `ResultEnvelope`, `ResultCompact`, `ReporterCapture`, `StreamContract` |
| Reference engine | `ToolOutput`, `RuntimeApi`, `EngineLimits`, `EngineLoop`, `EngineRuns`, `EngineEndings`, `EngineExecution`, `EngineResult`, `FakeSequence` |
| Goals and invocations | `GoalTemplate`, `RunFactory` |
| MCP streams | `McpStderr`, `Redaction`, `McpFrames` |
| Shared | `Prelude`, `Decimal`, `Sorting`, `Bytes`, `AgentRuns` |

## What the proofs take for granted

- A cron schedule is a total function whose next slot is later than its argument (`Scheduler.Cron`). The
  external library may return the zero time instead, and then the loop of `LatestDue` has no measure.
- The clock never goes back, and an Agent or AgentRun that is read by name is current. Only lists of
  children are stale; they show earlier states of runs that the controller created.
- Runs of an Agent are created and deleted only by its controller, which stamps slot and sequence.
- Slots and sequences are unique only with both history limits at least 1. `ScheduledLimits` gives, for a
  limit of 0, one execution that repeats a slot and one that repeats a sequence, and the exact conditions.
- The trust result for the webhook is for one replica, and for a registration that nobody else removes or
  rewrites: others may delete or corrupt the Secret, and touch the registration so that optimistic locks on
  it fail, but only this replica changes the registered bundle and generates certificates.
- Between the re-read of a delivered run and the patch of its status nothing else happens; while a request
  is in flight anything may. The specification of a run does not change.
- `JsonRules` (which texts are JSON, what compaction makes of them), word counts, digests and time formats are
  parameters, with the few facts used stated as predicates (`Sound`). Among these facts: a JSON text is nested at
  most 10000 deep, which is the limit of `encoding/json`, and compaction keeps its nesting. The text of an instant
  denotes that instant.

## Where code and documentation differ

- `docs/resources.md:42-43` and `docs/scheduled-workload.md:10-11` say that retries converge on the same
  run, and `docs/resources.md:50-52` that the creation sequence is monotonic. With a history limit of 0, which
  the API accepts, a finished run can be pruned before a lost status patch is made up for. Its slot is then
  run again; and if the reconcile that prunes it gets no further, with sequence 1 again. Exactly when:
  `ScheduledLimits.UniqueIffLimitsPositive`, `ScheduledLimits.CountedIffLimitsPositive`.
- The reporter marks a line as truncated when it has exactly the configured length and its newline comes in
  a separate write, although nothing is lost (`runtimes/reporter/capture.go:65-71`).
  Exactly when: `ReporterCapture.FlagDependsOnChunks`.
- A read of a delivery credential that fails counts as a malformed credential, and fails the run for good,
  also when a good response has already come (`internal/controller/agentrun_delivery.go:313-324`). Other
  reads that fail only repeat the reconcile. Exactly when: `DeliveryFaults.BeginFailsIff`,
  `DeliveryFaults.FinishFailsIff`; an input: `DeliveryFaults.CredentialReadFailsRun`.
- When the CA of a valid bundle is due for rotation and the registration is missing, `Ensure` cannot repair
  the situation by itself: it needs a registration to publish the next CA to
  (`internal/webhooktls/lifecycle.go:275-310`). Exactly when: `WebhookTls.Lifecycle.Ensure`; an input:
  `WebhookTls.RotationNeedsRegistration`.
- Pods are deleted by name. A cached Pod of a run can have been replaced by another of the same name, which is
  then deleted. Exactly when: `PodRuns.ForeignPodDeletedIff`; an input: `PodRuns.StaleCacheDeletesOther`.
- The comments on `Compact` and `WriteEnvelopeLine` (`pkg/result/v1alpha1/compact.go:23-24`,
  `pkg/result/v1alpha1/stream.go:13-15`) suggest that a valid envelope is always shortened and written. Validation
  accepts a cost that is not a number or infinite and instants without an encoding, and values nested so deep that
  the envelope around them cannot be decoded; these fail. Length alone is never the reason. Exactly when:
  `ResultCompact.TerminationMessageFitsIff`, `ResultCompact.TerminationMessageFitsByContents`; inputs:
  `ResultCompact.NotANumberFails`, `ResultCompact.DeepOutputFails`.
- Redaction of standard error sees one line at a time, so a sensitive value of several lines is forwarded as it is
  (`runtimes/reference/internal/mcpclient/redact.go:137-139`), and a value that is part of the mark itself comes back
  with the mark. Exactly when: `Redaction.LineKeptIff`, `Redaction.NeverLeftIff`; an input:
  `Redaction.TwoLineValuePasses`.
- A run whose provider reports reasoning tokens in one response and output tokens in another can sum to a
  usage that the envelope's own rule refuses. Then no envelope is written, and a success is lost
  (`runtimes/reference/main.go:68-71`). Exactly when: `EngineLimits.ReportsKeepRuleIff`,
  `EngineResult.ResultWrittenIff`; an input: `EngineResult.SuccessCannotBeWritten`.
- Admission reserves the standing names of the invoked Agent only. A delivered run may take the name that
  another Service Agent must mint next (`internal/runfactory/runfactory.go:149-158`); while it has that name,
  nothing makes the Agent create a run. Exactly when: `NameCollisions.AdmittedNameMintableIff`,
  `NameCollisions.CreatesIffFree`; over time: `NameCollisions.HeldNameBlocksForGood`.

## Model

| member | source | states |
|---|---|---|
| Scheduler.LatestDue | internal/scheduler/scheduler.go:124-136 | the latest slot at or before now that is reached from the first one, and the first slot after now |
| Scheduler.LatestDueUnique | internal/scheduler/scheduler.go:122-136 | there is only one such pair of slots |
| Scheduler.LatestDueNotBefore | internal/scheduler/scheduler.go:122-136 | no reachable slot that is past is later than the due one |
| Scheduler.RunName | internal/scheduler/scheduler.go:139-151 | the name of a slot's run has at most 63 characters |
| Scheduler.RunNameIs | internal/scheduler/scheduler.go:139-151 | Agent name and slot, or as much of the Agent name as leaves room for digest and slot, less its trailing dashes |
| Scheduler.RunNameDeterminesSlot | internal/scheduler/scheduler.go:139-151 | equal names mean equal slots, also after truncation and across Agents |
| ScheduledMetadata.Object.SetMetadata | internal/scheduledrun/metadata.go:20-49 | stamped slot and sequence are read back exactly, and other annotations stay |
| ScheduledMetadata.Object.Sequence | internal/scheduledrun/metadata.go:37-43 | a sequence that is read is a positive 32-bit integer |
| ScheduledHistory.Summarize | internal/controller/agent_scheduled.go:203-234 | one pass finds activity, greatest sequence, slot map and newest run of a list |
| ScheduledHistory.SummaryUnique | internal/controller/agent_scheduled.go:203-234 | a list has one summary |
| ScheduledHistory.ExcessByRank | internal/controller/agent_scheduled.go:355-376 | a run of a class is pruned exactly when at least `limit` newer ones of the class are kept |
| ScheduledHistory.DoomedAreOldTerminal | internal/controller/agent_scheduled.go:313-353 | pruned runs are terminal, and with positive limits each is older than another listed run |
| ScheduledHistory.PruneIdempotent | internal/controller/agent_scheduled.go:313-376 | pruning what pruning left deletes nothing |
| ScheduledController.ScheduledReconciler.Reconcile | internal/controller/agent_scheduled.go:20-180 | the reconcile, cut off by a failure at any call, has the effect and outcome of the specification |
| ScheduledController.ScheduledReconciler.PruneGroup | internal/controller/agent_scheduled.go:355-376 | deletes the runs beyond the limit in order, and stops where a delete fails |
| ScheduledEffect.CreatesIff | internal/controller/agent_scheduled.go:54-177 | a run is created only if, and unless a call fails exactly if, the schedule is followed, a slot is due, in time, without a run and not held back, the numbers are not used up and the name is free |
| ScheduledEffect.CreatedRun | internal/controller/agent_scheduled.go:142-180 | the run that is then created, the status with its number, name, slot and next slot, and the requeue at that, for every failing call |
| ScheduledEffect.WantedButBlocked | internal/controller/agent_scheduled.go:142-171 | a wanted run whose name is taken: the status catches up with an own run of the slot that the list missed; any other holder, or used-up numbers, is an error |
| ScheduledEffect.NothingWanted | internal/controller/agent_scheduled.go:54-140 | otherwise only history is pruned, and the status gets the counter, the newest kept run, the reason, and the next slot, at which the reconcile comes back unless suspended |
| ScheduledEffect.CutShort | internal/controller/agent_scheduled.go:313-353 | a reconcile that fails earlier has at most deleted runs that are to be pruned |
| ScheduledEffect.InvalidScheduleIdles | internal/controller/agent_scheduled.go:30-47 | with an invalid schedule only the counters, the generation and the reason are written |
| ScheduledEffect.SuspendedStaysQuiet | internal/controller/agent_scheduled.go:77-89 | over any execution, while the schedule is suspended or invalid, no run is created |
| ScheduledRuns.OneRunPerSlot | internal/controller/agent_scheduled.go:91-179 | in every execution with positive limits the slots of created runs strictly increase |
| ScheduledRuns.ReconcileSparesActive | internal/controller/agent_scheduled.go:313-353 | no reconcile deletes or changes a run that is not terminal |
| ScheduledCounters.CountsAreExact | internal/controller/agent_scheduled.go:129-261 | sequences are 1, 2, 3 and so on, and counter or newest retained run give the number ever created |
| ScheduledCounters.ForbidMeansOneActive | internal/controller/agent_scheduled.go:129-140 | under a constant Forbid policy at most one owned run is active in every reachable state |
| ScheduledCounters.LastRunNameIsNewest | internal/controller/agent_scheduled.go:236-278 | after a reconcile that ends well, LastRunName is the newest retained run or empty |
| ScheduledLimits.ZeroLimitRepeatsSlot | internal/controller/agent_scheduled.go:313-353 | with a limit of 0 there is an execution that runs a slot twice |
| ScheduledLimits.UniqueIffLimitsPositive | internal/controller/agent_scheduled.go:91-179 | slots are unique in all executions exactly when both limits are positive |
| ScheduledLimits.ZeroLimitRepeatsSequence | internal/controller/agent_scheduled.go:129-175 | with a limit of 0 there is an execution with current lists that numbers two runs 1 |
| ScheduledLimits.CountedIffLimitsPositive | internal/controller/agent_scheduled.go:129-261 | with current lists runs are numbered 1, 2, 3 and so on in all executions exactly when both limits are positive |
| ServiceRunNames.SuffixInvertsMinting | internal/controller/agent_controller.go:313-324 | a suffix is read from a name exactly when the name is minted from it, between 1 and 2^31-1 |
| ServiceRunNames.MintedNameInjective | internal/controller/agent_controller.go:171-172 | minted names determine Agent and suffix |
| ServiceRunNames.ReservedIffMintable | internal/runfactory/runfactory.go:335-345 | admission reserves exactly the names that can be minted |
| ServiceProtocol.ObserveServiceRuns | internal/controller/agent_controller.go:279-311 | one pass finds the two standing runs with the greatest suffixes |
| ServiceProtocol.TopTwoUnique | internal/controller/agent_controller.go:279-311 | a list has one such pair |
| ServiceProtocol.BackoffDelay | internal/controller/agent_controller.go:345-376 | the doubling loop computes min(maximum, initial * 2^(restarts-1)) |
| ServiceController.ServiceReconciler.Reconcile | internal/controller/agent_controller.go:125-271 | the reconcile, with any failing call, has an effect and outcome of the specification |
| ServiceEffect.ReconcileEffect | internal/controller/agent_controller.go:125-209 | with a current list: the run created, the two newest runs and the counts in the status, and the requeue, in every situation and for every failing call; a backoff is waited out to its end |
| ServiceEffect.StaleMintRetries | internal/controller/agent_controller.go:211-238 | a list that misses the newest run leads to an own name, and the reconcile is repeated at once |
| ServiceRuns.OneLiveRunDespiteStaleLists | internal/controller/agent_controller.go:125-271 | with arbitrarily stale lists and runs that are kept, at most one standing run is live and names are 1..M |
| ServiceRuns.OneLiveRunDespiteDeletions | internal/controller/agent_controller.go:125-209 | with current lists the same holds although runs are deleted |
| ServiceRuns.StaleListAfterDeletion | internal/controller/agent_controller.go:125-209 | an execution with a stale list and a deletion ends with two live runs |
| ServiceRuns.OneLiveKeptIff | internal/controller/agent_controller.go:125-209 | whatever is listed, an undisturbed reconcile keeps a single live run exactly when none is live or it does not get as far as a free name |
| ServiceRuns.ShownLiveIsKept | internal/controller/agent_controller.go:125-209 | a list that shows the newest live run is enough for that, however stale it is otherwise |
| PodRuns.PodReconciler.ReconcileRun | internal/controller/agentrun_controller.go:42-126 | a reconcile of a run with its own Pod has the effect of the specification |
| PodRuns.PodReconciler.EnforceWallclock | internal/controller/agentrun_controller.go:317-363 | only a running Pod over its budget ends the run and is deleted; within it, the time of the next check |
| PodEffect.ReconcileEffect | internal/controller/agentrun_controller.go:42-363 | the status, the Pod created or deleted and the next look, for every cache, every Pods and every failing call: a followed Pod gives the run its phase, times and output |
| PodRuns.TerminalIsFinal | internal/controller/agentrun_controller.go:51-56 | over any history a run that is over keeps its whole status, and is over exactly when it has a completion time |
| PodRuns.NoSecondPod | internal/controller/agentrun_controller.go:185-235 | once a Pod is recorded no reconcile creates another |
| PodRuns.OthersUntouched | internal/controller/agentrun_controller.go:104-106 | with a current cache no Pod of another owner is changed |
| PodRuns.ForeignPodDeletedIff | internal/controller/agentrun_controller.go:317-363 | exactly when a reconcile deletes a Pod of another owner: the cache shows the run's Pod under its name, and the budget ends the run |
| PodRuns.StaleCacheDeletesOther | internal/controller/agentrun_controller.go:317-363 | such an input exists |
| PodRuns.BudgetExceededForGood | internal/controller/agentrun_controller.go:128-156 | a run found over its budget stays so over any history, and any later undisturbed reconcile leaves none of its Pods and touches no other |
| DeliveryController.DeliveryReconciler.ReconcileDelivery | internal/controller/agentrun_delivery.go:66-225 | a reconcile with any failing call, and any changes while its request is in flight, has the specified effect |
| DeliveryEffect.BeginEffect | internal/controller/agentrun_delivery.go:66-151 | up to the request: when the run waits, how long, fails, or exceeds its budget, and what a request is sent with |
| DeliveryEffect.FinishEffect | internal/controller/agentrun_delivery.go:149-224 | after the response: the phase it tells, Failed for an unusable one, and for none at all the budget if it ended by the timeout, else Failed, or another wait |
| DeliveryEffect.TargetFoundIff | internal/controller/agentrun_delivery.go:227-326 | a target is found exactly when the Service has a ready standing Pod with a credential and no read fails |
| DeliveryEffect.MisconfiguredIff | internal/controller/agentrun_delivery.go:227-326 | exactly when the configuration counts as wrong |
| DeliveryRuns.ResultStoredIff | internal/controller/agentrun_delivery.go:149-224 | a result is stored exactly for the original, unfinished run and the confirmed target, with the phase it tells; nothing else changes |
| DeliveryRuns.BeginAdvances | internal/controller/agentrun_delivery.go:66-150 | before a response no result is written, and terminal runs and start times stay |
| DeliveryRuns.SentOnlyWhenConfirmed | internal/controller/agentrun_delivery.go:94-151 | a request leaves before the deadline, and only for the ready standing Pod of the run's own Service Agent |
| DeliveryRuns.ResultsReachTheirRun | internal/controller/agentrun_delivery.go:149-224 | over any history with concurrent deliveries every stored result belongs to a sent request, its run and its Pod |
| DeliveryRuns.HistoryAdvances | internal/controller/agentrun_delivery.go:518-574 | over any history that keeps the run, its start time is written at most once, its deadline never rises, and once over it stays as it is |
| DeliveryRuns.TimedOutForGood | internal/controller/agentrun_delivery.go:85-92 | a reconcile whose patch succeeds at or after the timeout ends the run for good, over any later history |
| DeliveryRuns.RequeuesDrive | internal/controller/agentrun_delivery.go:108-137 | reconciles that wait, each no earlier than its predecessor asked for, start before the timeout and are spaced by the backoff |
| DeliveryRuns.AtMost48Waits | internal/controller/agentrun_delivery.go:603-615 | at most 48 reconciles of a run driven by its own requeues wait, whatever the cluster does meanwhile |
| DeliveryRuns.Exactly48WaitsPossible | internal/controller/agentrun_delivery.go:603-615 | a run whose Agent is missing waits 48 times |
| DeliveryFaults.BeginFailsIff | internal/controller/agentrun_delivery.go:94-131 | before the request read faults fail a run exactly when they hit the credential of a ready Pod; other reads repeat the reconcile |
| DeliveryFaults.FinishFailsIff | internal/controller/agentrun_delivery.go:153-182 | a good response is thrown away and the run failed exactly in that case |
| DeliveryFaults.CredentialReadFailsRun | internal/controller/agentrun_delivery.go:313-324 | such an input exists |
| WebhookTls.Lifecycle.Ensure | internal/webhooktls/lifecycle.go:101-154 | whatever calls do, the serving CA is registered at every moment; undisturbed, it fails in one state only and otherwise stores, registers and serves the restored bundle: a new certificate when that is due, a new CA with a new key in front of the old ones when that is due |
| WebhookTls.Lifecycle.TryEnsureSecret | internal/webhooktls/lifecycle.go:156-247 | keeps trust; undisturbed, a valid Secret keeps its CAs and gets a new certificate when that is due, and another becomes a new bundle in front of the registered CAs |
| WebhookTls.Lifecycle.PublishRotationTrust | internal/webhooktls/lifecycle.go:275-310 | the next CA bundle is registered before anything serves it |
| WebhookTls.Lifecycle.ReadinessCheck | internal/webhooktls/lifecycle.go:374-410 | ready exactly when the served bundle is valid and is what is registered |
| WebhookTls.Lifecycle.Live | internal/webhooktls/lifecycle.go:77-95 | trust holds over any number of reconciles, crashes and rotations |
| WebhookTls.RotationNeedsRegistration | internal/webhooktls/lifecycle.go:275-310 | a state that an undisturbed Ensure leaves unrepaired |
| WebhookTls.GeneratedTrust | internal/webhooktls/lifecycle.go:249-258 | a generated bundle keeps all previous CAs and is signed by its own first one |
| Utf8.TruncateUTF8 | internal/tooloutput/bound.go:47-62 | the longest prefix that is valid UTF-8 (section 4 of RFC 3629) and within the limit |
| Utf8.TruncationUnique | internal/tooloutput/bound.go:47-62 | there is one such prefix |
| JsonText.UnescapeEscape | internal/tooloutput/bound.go:33-35 | decoding an escaped text (section 7 of RFC 8259) gives it back, with malformed bytes replaced |
| JsonText.EscapeMonotone | internal/tooloutput/bound.go:28-42 | a longer valid text never has a shorter encoding |
| ToolOutput.Bound | internal/tooloutput/bound.go:14-44 | the binary search finds the longest valid prefix whose partial envelope fits |
| ToolOutput.BoundUnique | internal/tooloutput/bound.go:11-44 | the contract leaves one answer |
| ToolOutput.BoundWithinLimit | internal/tooloutput/bound.go:11-44 | the answer is valid UTF-8 and within max(0, limit) |
| ToolOutput.BoundIdempotent | internal/tooloutput/bound.go:11-44 | bounding again changes nothing |
| ToolOutput.BoundSays | internal/tooloutput/bound.go:8-44 | the value, nothing, 0, an empty object, or an object whose member decodes to the longest valid prefix that fits |
| ResultEnvelope.CloneValidates | pkg/result/v1alpha1/compact.go:95-105 | when the encoding of a valid envelope can be decoded, what comes back is valid and names no extension twice |
| ResultEnvelope.DecodesIff | pkg/result/v1alpha1/compact.go:95-105 | it can be decoded exactly when no value in it is nested more than 9998 deep |
| ResultEnvelope.EncodePrintable | pkg/result/v1alpha1/compact.go:33-36 | the encoding of a valid envelope has no control characters, hence is one line |
| ResultCompact.Compact | pkg/result/v1alpha1/compact.go:25-93 | returns the envelope or the first stage that fits; or the problem, in order: limit, validation, encoding, decoding, length |
| ResultCompact.CompactionUnique | pkg/result/v1alpha1/compact.go:25-93 | the contract leaves one answer |
| ResultCompact.CompactIsHonest | pkg/result/v1alpha1/compact.go:21-93 | what is returned encodes a valid envelope with the same outcome, and every loss of data is flagged |
| ResultCompact.StageAdmitsLosses | pkg/result/v1alpha1/compact.go:38-92 | each stage keeps the outcome, flags its losses and loses data in order of importance |
| ResultCompact.LeastIsLost | pkg/result/v1alpha1/compact.go:41-92 | what is returned is the copy with the first reduction that takes something away and fits, each reduction spelled out; a failure means that none fits |
| ResultCompact.TerminationMessageFitsIff | pkg/result/v1alpha1/compact.go:25-93 | with a limit of 4096 compaction of a valid envelope succeeds exactly when it can be encoded and decoded again |
| ResultCompact.TerminationMessageFitsByContents | pkg/result/v1alpha1/compact.go:25-105 | that is, when every number and instant has a text and no value is nested more than 9998 deep |
| ResultCompact.NotANumberFails | pkg/result/v1alpha1/types.go:191-193 | an envelope with a cost that is not a number is valid, and fails at every limit |
| ResultCompact.DeepOutputFails | pkg/result/v1alpha1/compact.go:41-44 | an envelope around an array nested 9999 deep is valid, and fails at 4096 bytes |
| ReporterCapture.Capture.Write | runtimes/reporter/capture.go:36-49 | the buffer and the remembered line are the fold over the whole lines received |
| ReporterCapture.Capture.Result | runtimes/reporter/capture.go:51-63 | the result is the last qualifying line, an unfinished one included |
| ReporterCapture.Capture.CompleteLine | runtimes/reporter/capture.go:80-105 | a finished line replaces the remembered one exactly when it qualifies |
| ReporterCapture.OutcomeIs | runtimes/reporter/capture.go:36-105 | data, length and flag reported: of the last line that contributes, as much as was kept without its carriage return, or what follows the prefix in it |
| ReporterCapture.LinesRebuild | runtimes/reporter/capture.go:36-49 | the lines with their newlines and the one begun are the stream |
| ReporterCapture.NoNewlineInside | runtimes/reporter/capture.go:36-49 | and no newline is inside of any |
| ReporterCapture.ChunkingIrrelevant | runtimes/reporter/capture.go:36-105 | cutting a stream into other writes changes at most the flag of a line of exactly the maximum length |
| ReporterCapture.FlagDependsOnChunks | runtimes/reporter/capture.go:65-78 | for all data, cuts differ exactly when the last qualifying line has the maximum length and a newline |
| StreamContract.WriteEnvelopeLine | pkg/result/v1alpha1/stream.go:16-23 | writes prefix, space, compacted envelope and newline, as much of that as the writer takes, or nothing |
| StreamContract.ValidEnvelopeWrittenIff | pkg/result/v1alpha1/stream.go:16-23 | a valid envelope is written, as one line of at most 4113 bytes, exactly when it can be encoded and decoded again and the writer does not fail |
| StreamContract.ExtractsPayload | pkg/result/v1alpha1/stream.go:28-34 | the payload is extracted from its line unchanged |
| StreamContract.PrefixOfCut | pkg/result/v1alpha1/stream.go:28-34 | a line whose beginning carries an envelope carries one itself |
| StreamContract.EnvelopeArrivesWhole | runtimes/reporter/capture.go:36-105 | amid other lines and in any cut the compacted bytes are captured whole when the limit is above 4112 |
| StreamContract.ExactLimitDependsOnCut | runtimes/reporter/capture.go:65-78 | at the length of the line itself the truncation flag depends on the cut |
| RuntimeApi.ValidateUsage | runtimes/reference/internal/runtimeapi/types.go:182-225 | accepts exactly usages with non-negative metrics, parts within the total and an int64 sum |
| RuntimeApi.ValidateResponse | runtimes/reference/internal/runtimeapi/types.go:121-180 | accepts exactly well-formed assistant responses |
| RuntimeApi.MessageToolCalls | runtimes/reference/internal/runtimeapi/types.go:237-248 | the calls of a message, in order |
| EngineLimits.ApplyToolOutput | runtimes/reference/internal/engine/limits.go:102-125 | bounds a result by both byte limits and adds its size |
| EngineLimits.BoundedWithinLimits | runtimes/reference/internal/engine/limits.go:102-125 | a bounded result is within both limits and keeps its identity |
| EngineLimits.BoundedToRoom | runtimes/reference/internal/engine/limits.go:102-125 | a valid result that fits what the two limits leave is untouched, another is flagged and its content bounded to that |
| EngineLimits.SaturatingAdd | runtimes/reference/internal/engine/limits.go:177-185 | addition clamped to int64 |
| EngineLimits.ConsumedIsTrueSum | runtimes/reference/internal/engine/limits.go:143-155 | the saturating account is the true sum cut off at the largest int64 |
| EngineLimits.UsageIsTrueSum | runtimes/reference/internal/engine/limits.go:157-185 | each metric of the summed usage is the true sum of what is reported, cut off at the largest int64, and absent when nobody reports it |
| EngineLimits.SummedReasoningWithinOutput | runtimes/reference/internal/engine/limits.go:157-185 | summed reasoning stays within summed output when both are always reported together |
| EngineLimits.ReportsKeepRuleIff | runtimes/reference/internal/engine/limits.go:157-185 | exactly which ways of reporting keep the sum within the rule: reasoning only along with output, or no output at all |
| EngineResult.ResultWrittenIff | runtimes/reference/main.go:57-73 | a run's result is written exactly when its summed usage keeps the rule, else nothing is |
| EngineResult.SuccessCannotBeWritten | runtimes/reference/main.go:57-73 | such a successful run exists |
| EngineExecution.Execution.RunToEnd | runtimes/reference/internal/engine/engine.go:119-157 | the object's run ends in the state and result of the specification |
| EngineExecution.Execution.TakeTurn | runtimes/reference/internal/engine/loop.go:65-180 | one provider turn |
| EngineExecution.Execution.RunToolBatch | runtimes/reference/internal/engine/loop.go:182-242 | one tool batch |
| EngineExecution.RegistryExecute | runtimes/reference/internal/tools/tools.go:169-215 | every result carries id and name of its call, and only cancellation is an error |
| EngineExecution.RegistryStamps | runtimes/reference/internal/tools/tools.go:169-215 | so a registry meets the hypothesis of the results on runs |
| EngineRuns.RequestsWellFormed | runtimes/reference/internal/engine/loop.go:65-154 | at every request of every run, ended or not, the transcript is well matched and consumption is within the budget |
| EngineRuns.ConversationLinked | runtimes/reference/internal/conversation/state.go:24-34 | each request repeats the one before it, the response and the answers, and nothing else |
| EngineRuns.LimitsHold | runtimes/reference/internal/engine/limits.go:34-141 | turns, tool calls, result sizes and their sum stay within their limits after any number of turns |
| EngineRuns.TokensAccounted | runtimes/reference/internal/engine/loop.go:107-129 | a success is within the true token budget, and the reported usage is the sum of all responses |
| EngineRuns.ResultIsDecided | runtimes/reference/internal/engine/engine.go:159-180 | a run succeeds with a non-empty output or fails, and clean-up only adds a failure |
| EngineEndings.OutputSays | runtimes/reference/internal/engine/envelope.go:23-55 | the output is the non-blank texts of the last response, in order, with newlines between, and that response asks for no tool |
| EngineEndings.EveryEndingExplained | runtimes/reference/internal/engine/loop.go:65-242 | every failure code has the cause it names: the limit that was hit, how the last response stopped, or the fault that the provider or a tool reported |
| EngineEndings.ExchangeRecorded | runtimes/reference/internal/engine/loop.go:65-242 | every request is for the configured model and tools; calls are made in the order asked for, and each answer that a request shows is the bounded result of its call |
| EngineEndings.CallsInOrder | runtimes/reference/internal/runtimeapi/types.go:237-248 | the calls of a message are those of all its call blocks, in order |
| EngineEndings.AnswersInOrder | runtimes/reference/internal/runtimeapi/types.go:250-259 | and its results those of all its result blocks |
| EngineRuns.TurnLimitEndsLoop | runtimes/reference/internal/engine/engine.go:133-157 | with a turn limit the loop ends within the turns that are left, whatever the environment does |
| EngineRuns.DeadlineEndsLoop | runtimes/reference/internal/engine/engine.go:133-157 | without one it ends once the provider only reports errors |
| EngineRuns.FuelIrrelevant | runtimes/reference/internal/engine/engine.go:133-157 | the result does not depend on the bound used to define it |
| FakeSequence.Complete | runtimes/reference/internal/provider/fake_sequence.go:51-174 | computes the specified completion from the transcript |
| FakeSequence.ScanDialogue | runtimes/reference/internal/provider/fake_sequence.go:55-74 | scanning the transcript so far finds each call answered once and none pending |
| FakeSequence.PlaysOn | runtimes/reference/internal/provider/fake_sequence.go:75-174 | on it the provider plays the next call, or closes the sequence |
| FakeSequence.SequenceEnds | runtimes/reference/internal/provider/fake_sequence.go:51-174 | for any limits, and word counts that add up to an int64 at each request, n exposed tools end in success after exactly n + 1 turns, each called once and in order, or with a limit that was hit |
| FakeSequence.SequenceSucceeds | runtimes/reference/internal/provider/fake_sequence.go:51-174 | success when turn and call limits leave room and no budget of tokens or bytes is hit |
| GoalTemplate.ScanLossless | internal/runfactory/runfactory.go:290-318 | the tokens of a template print back to it |
| GoalTemplate.ScanPrintIffCanonical | internal/runfactory/runfactory.go:290-318 | tokens are found in their own text exactly when they are canonical |
| GoalTemplate.InterpolateGoal | internal/runfactory/runfactory.go:285-333 | the scan renders the tokens, and reports malformed templates before missing and missing before unused names |
| GoalTemplate.InterpolatesIff | internal/runfactory/runfactory.go:285-333 | it succeeds exactly when the template is well formed and its names are the given ones |
| GoalTemplate.RenderConcat | internal/runfactory/runfactory.go:290-318 | the result is the concatenation of the rendered tokens |
| GoalTemplate.ValueNotRescanned | internal/runfactory/runfactory.go:306-312 | in any template a placeholder becomes its value as it is, whatever that contains |
| GoalTemplate.EscapeUnescapes | internal/runfactory/runfactory.go:292-300 | in any template an escaped placeholder becomes the placeholder and needs no parameter |
| RunFactory.AcceptedIffResolvable | internal/runfactory/runfactory.go:209-225 | a Task Agent is accepted exactly when some parameters resolve its goal |
| RunFactory.ResolveInvocation | internal/runfactory/runfactory.go:113-205 | admits exactly the specified invocations, with the specified run or the first error in order |
| RunFactory.ResolvedFields | internal/runfactory/runfactory.go:185-205 | what the run takes from Agent and invocation, and that its label names the Agent whatever labels are passed |
| RunFactory.GoalIs | internal/runfactory/runfactory.go:266-283 | the goal is the Agent's own, or its template with the parameters in place |
| RunFactory.DeliveryProblemIs | internal/runfactory/runfactory.go:142-183 | why a Service invocation is refused, in order |
| RunFactory.TaskProblemIs | internal/runfactory/runfactory.go:266-283 | why a Task invocation is refused |
| RunFactory.TaskAdmittedIff | internal/runfactory/runfactory.go:266-283 | when a Task invocation is admitted |
| RunFactory.DeliveryAdmittedIff | internal/runfactory/runfactory.go:142-176 | when a Service invocation is admitted |
| RunFactory.DeliveredNameNeverMinted | internal/runfactory/runfactory.go:149-158 | an admitted delivered run never holds a name that can be minted for its own Agent |
| NameCollisions.AdmittedNameMintableIff | internal/runfactory/runfactory.go:149-158 | its name can be minted for some Service Agent exactly when it is reserved for another one |
| NameCollisions.AdmittedUnderForeignName | internal/runfactory/runfactory.go:149-158 | such invocations are admitted |
| NameCollisions.CreatesIffFree | internal/controller/agent_controller.go:125-210 | an undisturbed reconcile of a current list creates a live run exactly when one is due and nobody holds its name; else no run changes |
| NameCollisions.HeldNameBlocksForGood | internal/controller/agent_controller.go:178-184 | over any execution with stale lists, as long as the run that holds the next name is kept, nothing is created and no run becomes live |
| NameCollisions.NeverStarts | internal/controller/agent_controller.go:178-184 | if the first name is taken at the start, the Agent never has a standing run while it is |
| McpStderr.RedactingLineWriter.Write | runtimes/reference/internal/mcpclient/redact.go:110-143 | the sink is a function of the bytes received: cleaned lines, and one notice for each line too long |
| McpStderr.LinesPartition | runtimes/reference/internal/mcpclient/redact.go:114-141 | lines and unfinished line together are the stream |
| Redaction.NewRedactor | runtimes/reference/internal/mcpclient/redact.go:24-45 | the forms are the sensitive values and their escaped forms, longest first, none empty |
| Redaction.ContainsSensitive | runtimes/reference/internal/mcpclient/redact.go:58-65 | whether some form occurs in the text |
| Redaction.Clean | runtimes/reference/internal/mcpclient/redact.go:47-56 | the text with every form replaced in turn, cut to the longest valid prefix within 4096 bytes |
| Redaction.NeverLeftIff | runtimes/reference/internal/mcpclient/redact.go:51-56 | for any order of the forms: one without brackets never occurs in a result exactly when it is not part of the mark |
| Redaction.ReplacedIsClean | runtimes/reference/internal/mcpclient/redact.go:51-65 | of safe forms nothing sensitive is left, and a text is changed exactly when it was sensitive |
| Redaction.WholeFormReplaced | runtimes/reference/internal/mcpclient/redact.go:41-43 | with the longest form first, a text that is sensitive as a whole becomes just the mark |
| Redaction.FormsAreSafe | runtimes/reference/internal/mcpclient/redact.go:30-40 | if the values are safe, so are all forms that replacement uses |
| Redaction.ForwardedHidesValues | runtimes/reference/internal/mcpclient/redact.go:110-143 | no write to the sink but the notice contains a safe value, raw or escaped |
| Redaction.LineKeptIff | runtimes/reference/internal/mcpclient/redact.go:137-139 | a line is changed exactly when a form that fits on a line occurs in it |
| Redaction.SpanningFormsPass | runtimes/reference/internal/mcpclient/redact.go:110-143 | if only values that span lines are in the stream, it is forwarded unchanged |
| Redaction.TwoLineValuePasses | runtimes/reference/internal/mcpclient/redact.go:110-143 | such a value |
| McpFrames.LineValidatingReader.Read | runtimes/reference/internal/mcpclient/command.go:87-112 | hands out the good frames and nothing more; every error is the final one and comes after all of them |
| McpFrames.LineValidatingReader.LoadLine | runtimes/reference/internal/mcpclient/command.go:114-145 | loads the next frame for every buffer size, or finds why there is none |
| McpFrames.LineValidatingReader.ValidatePendingLine | runtimes/reference/internal/mcpclient/command.go:147-161 | keeps a frame exactly when it is blank or JSON |
| McpFrames.DeliverableIsLongest | runtimes/reference/internal/mcpclient/command.go:87-161 | what is handed out is the longest prefix of whole good frames |
| McpFrames.HandedOut | runtimes/reference/internal/mcpclient/command.go:87-161 | for any lines: which are handed out and which error follows, by length, blankness, JSON and the end of the source |

## Left out

- Kubernetes plumbing: caches, watches, RBAC, admission wiring, Pod building. Only reads, lists, creates, deletes and status patches are steps.
- Cron expressions, time zones, wall-clock durations in text, X.509, PEM, HMAC, SHA-256: values or parameters.
- JSON decoding of arbitrary documents: JSON values are texts.
- Parsing of result documents (`pkg/result/v1alpha1/parse.go`), and the order of the extensions in a copy, which compaction never encodes.
- Messages of conditions, events and errors; only reasons and codes are kept, and lists of names in errors are sets, not sorted lists.
- Changing the mode of an Agent while it has runs, and the reconcile of Task Agents.
- ServiceController.ServiceReconciler.Reconcile: the clock counts whole seconds, so the time until the next attempt is rounded; whether the backoff is over is not affected.
- Requeue timing other than of delivery: when a failed reconcile is repeated is the work queue's decision.
- WebhookTls.Lifecycle.Live: one replica only; a second one that rotates at the same time has a window in which trust must be repaired.
- The HTTP exchange of a delivery, its signature and its size limit: a response is an authenticated envelope, unusable, or missing.
- EngineExecution.Execution.RunToEnd: events, timing metadata and resolver failures before the loop are not modelled, the method is for runs that end (what holds of others is stated of their states), and the 32-bit turn and tool counters do not wrap, as they would after 2^31 turns or calls when no limit is configured.
- Aliasing between a conversation and the requests built from it: messages are values, so deep copies have no counterpart.
- FakeSequence.Complete: the sequence is given as parsed entries; parsing its JSON text is not modelled, nor are the other fake scenarios.
- McpStderr.RedactingLineWriter.Write: `clean` is any function here, and `Redaction` is about the one that is used; concurrent writers are serialised by a lock in the original and do not occur in the model.
- Redaction inside structured values, which applies the same replacement to each string of a JSON document.
- McpFrames.LineValidatingReader.Read: the size of the underlying buffer is any positive number, and the source delivers its bytes in any grouping; closing is not modelled.
- Process groups, signals, installation, provider shaping, MCP sessions, the evaluation tools and the site.
