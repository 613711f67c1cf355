# Verified models of the monitoring service's policies and detectors

The proprietary half of this monitoring service decides things with small explicit state machines: when to move a
cache's similarity threshold, when a stored proposal may be dispatched, when a topology finding becomes an event, when
a counter's growth is an attack. This project models those machines in Dafny and proves what they promise over every
input and every run. Storage, emits, clocks and servers appear as parameters, scripted replies and failure flags, so
the theorems quantify over them.

Where the source changes state step by step the model is a class or a method with loops, proved against a function or
a predicate on values; the promises are then lemmas about that function, and about runs of it. Where the memory of a
detector is all there is, a run is one life of it: removing the connection or restarting the service starts a new run.
The gate's events and the tuning history outlive that, and their runs do too.

| file | models |
|---|---|
| `Prelude.dfy`, `Sorting.dfy`, `Strings.dfy` | options, filters, real arithmetic, stable sorting, string order |
| `TuningPolicy.dfy`, `TuningReference.dfy`, `TuningRuns.dfy` | the threshold-tuning policy, the same policy by counting, and the feedback loop through its ten-entry history |
| `ProposalLifecycle.dfy`, `ProposalDeadlines.dfy` | cache proposals: racing requests over one row with compare-and-set, their deadlines, and what one request does alone |
| `EventStore.dfy`, `EventHazards.dfy`, `PersistenceGate.dfy`, `GateRecovery.dfy` | the topology persistence gate, its event ring and storage feed, what defeats its dedupe, and what a poll closes |
| `RaftWatch.dfy`, `RaftWindows.dfy` | Raft leaderless watch, its windows, and election churn |
| `MetricStats.dfy`, `SpikeDetector.dfy` | the metric sample window, its z-scores, and the spike detector |
| `Correlator.dfy` | greedy correlation windows |
| `RateLimiter.dfy` | the sliding-window rate limiter |
| `FailoverChurn.dfy`, `FailoverReference.dfy`, `GhostHistory.dfy`, `ResyncLoop.dfy` | run-history detectors |
| `AclTokens.dfy`, `AclDigest.dfy`, `AclGrants.dfy`, `AclDrift.dfy` | ACL digests: what they ignore, what they keep, and the drift between nodes |
| `Hysteresis.dfy`, `ForkMemory.dfy`, `MemoryOverhead.dfy`, `LoadSaturation.dfy`, `CobPressure.dfy` | the escalate-and-acknowledge family |
| `AuthFailures.dfy`, `AuthCounts.dfy`, `ClientLockout.dfy` | windowed counter growth and staged counter baselines |
| `BulkDelete.dfy`, `Glob.dfy` | the SCAN/UNLINK walker, glob matching and escaping |

`dafny verify dfyconfig.toml` checks everything.

## What does not hold, and exactly when it does

Some promises one would expect fail in the code as it is. Each is kept as the code has it, with a concrete run and the
exact condition under which the promise holds.

- **One open event per signature.** A step of the tracked gate loses it exactly when it opens an event while another
  one of the signature is open and stays so (`EventStore.StepKeepsOneOpenIff`, over runs `AtMostOneOpenEventIff`). For
  a check that is so exactly when the tracked event is stale or buried, or a forgotten one is left behind
  (`EventHazards.CheckIsSafeIff`); a row stored late can do it too. *Stale*: the ring shows the event resolved although
  its row is open, after a dismissal between its push and the end of its save, or of an event whose save was wrongly
  reported lost (`StaleNeedsCause`, `RacedDismissalDoublesUp`, `LateRowDoublesUp`). *Buried*: the event left the ring
  and the storage lookup can miss its row, because the query returns the newest 100 open rows by timestamp with no
  second order, and 100 other open rows are no older (`MissableIffBuried`, `BuriedEventDoublesUp`). *Forgotten*: the
  gate lost the event's id while it was open, mostly because the connection was removed or the process restarted
  (`BecomesForgottenIff`, `ForgottenNeedsCause`, `LostIdsDoubleUp`).
- **The first quorum-loss CRITICAL falls on a seeking poll.** It can fall on a quiet one, exactly when a confirmation
  was carried into the watch because resolving an earlier outage failed, or an old seeking poll of the watch was
  silenced by a pinned outage (`RaftWatch.FirstCriticalIff`, `StaleConfirmationFiresQuietly`,
  `PinnedConfirmationFiresQuietly`).
- **Bounded tuning streaks.** The invariant behind the bounds survives a round exactly when its strict adjustment is
  written to the history, starts from the live threshold and is allowed by the newest true entries
  (`TuningRuns.StepKeepsInvIff`, `RunSoundIff`). The service tolerates failed writes and failed reads, and either lets
  a streak run away (`UnwrittenHistoryRunsAway`, `UnreadHistoryRunsAway`), as do recommendations from an earlier state
  (`StaleRecommendationsRunAway`) and changes that are not strict, since a tighten onto the current value is recorded
  as a loosen (`NoOpsRunAway`, `RecordedFaithfullyIffStrict`).
- **One dispatch per proposal.** Two overlapping approvals can both dispatch, and a failed apply is audited even when
  its compare-and-set lost (`ProposalLifecycle.TwoApprovalsCanBothDispatch`). The extra dispatches are exactly those of
  requests that read the row as already approved (`AtMostOneDispatchIff`, `SettledDispatchCount`).
- **Equal user digests, equal node digests.** True exactly as far as the lines agree that the per-user record does not
  show: earlier lines of a repeated user, and a user called `__proto__`, a key a plain object does not take
  (`AclDigest.NodeDigestsAgreeIff`, `RepeatedUserHidesDrift`, `UnrecordedUserHidesDrift`, `AclDrift.UnnamedDriftIff`).
- **Equal digests, equal grants.** A digest keeps a user's grant as long as sorting the words of a selector does not
  tear the selector apart (`AclGrants.UserTextIff`). That needs parentheses nested in a selector (`FlatIsCanonical`), and
  then a grant can have the digest of another one (`NestedSelectorsCollide`).
- **An exact retryAfterMs.** After plain records a bucket can hold more than the limit, and then the wait can be too
  short (`RateLimiter.OverfullWaitIsTooShort`). It is exact exactly when there is room once the oldest entries are gone
  (`RetryAfterIff`), which always holds for keys that are only reserved and released (`RetryAfterIsExact`).

The header of `spike-detector.ts` speaks of consecutive samples; the code lets below-mean samples return before the
counter is reset, so a streak may skip over them, and the model follows the code. A comment on the leaderless windows
says that the timeout lookup is retried every 60 polls; the countdown skips 60 polls, so it is retried on every 61st,
and the model follows the code here too.

## Model

| member | source | states |
|---|---|---|
| `TuningPolicy.ComputeDampening` | proprietary/cache-proposals/cache-readonly.service.ts:789-851 | the two counting loops compute the specification: the leading run of one direction, the direction flips, both caps and the progressive factor |
| `TuningPolicy.ThresholdRecommendation` | proprietary/cache-proposals/cache-readonly.service.ts:280-456 | the whole policy, gate by gate in the service's order, equals its specification |
| `TuningPolicy.CappedIff` | proprietary/cache-proposals/cache-readonly.service.ts:800-847 | a direction is refused exactly when it would be a sixth step in a row or a third flip |
| `TuningPolicy.P75Cuts` | proprietary/cache-proposals/cache-readonly.service.ts:344-352 | at most a quarter of the scores lie strictly above the 75th-percentile entry used as the distant-hit target |
| `TuningPolicy.RecommendationBounds` | proprietary/cache-proposals/cache-readonly.service.ts:223-456 | for every sample set, cost-weighted or not: a tightening lies in [max(0, threshold - 2 band), threshold] and leaves at most 15% of hits between target and threshold, dampened or not; a loosening lies in (threshold, threshold + band] |
| `TuningPolicy.RecommendationStep` | proprietary/cache-proposals/cache-readonly.service.ts:438-456 | the step is at most the direction's cap times the dampening factor of the run it extends |
| `TuningPolicy.RecommendationGated` | proprietary/cache-proposals/cache-readonly.service.ts:428-456 | an accepted adjustment extends a run shorter than five and keeps the flips below three, over the history it read |
| `TuningReference.RecommendIff` | proprietary/cache-proposals/cache-readonly.service.ts:223-456 | for every window, configuration, request, history and past, stated by counting samples and indexing the history: too few samples are reported exactly when there are; an adjustment is recommended exactly when one signal is raised and admitted by the recall guard, the outcome of the newest same-direction entry with a snapshot, the caps and the past outcomes; it names that signal and its direction, and its step is the raw one times the factor of the run |
| `TuningReference.ProposesSignal` | proprietary/cache-proposals/cache-readonly.service.ts:280-396 | the signal is the first of four whose leading condition holds, by counts or by cost, and it fixes the direction |
| `TuningReference.OutcomeIs` | proprietary/cache-proposals/cache-readonly.service.ts:853-919 | the newest entry of the direction with a snapshot blocks a further step exactly when the metric its signal names has not fallen below 0.8 of the recorded value (the hit rate: risen above 1.2 of it) |
| `TuningReference.CappedCounts` | proprietary/cache-proposals/cache-readonly.service.ts:800-847 | both caps by position: the newest five entries all in the direction, or three places where neighbours differ |
| `TuningReference.RecallCounts` | proprietary/cache-proposals/cache-readonly.service.ts:398-418 | the recall guard refuses exactly when more than 15 percent of the chosen hits lie between raw target and threshold |
| `TuningRuns.TunedCache.ApplyThresholdAdjust` | proprietary/cache-proposals/cache-apply.dispatcher.ts:131-158 | writes the threshold and prepends the recorded entry, trimmed to ten; a failed push or trim is tolerated |
| `TuningRuns.StepKeepsInvIff` | proprietary/cache-proposals/cache-apply.dispatcher.ts:131-158 | from a sound state a round keeps the invariant (the ten remembered entries are the newest ten of the full log, each gated by the entries before it, chained by value) exactly when its strict adjustment, if any, is written, starts from the live threshold and is allowed by the newest true entries, whether it rests on the live history, a failed read or an earlier state, and edited or not; for an unedited one made from the live history, exactly when it is written |
| `TuningRuns.RunSoundIff` | proprietary/cache-proposals/cache-apply.dispatcher.ts:131-158 | over a whole run the invariant holds after every round exactly when every round honours the history in that sense |
| `TuningRuns.RunKeepsInv` | proprietary/cache-proposals/cache-apply.dispatcher.ts:140-158 | so it holds over every run whose rounds read and write the history |
| `TuningRuns.NoRunawayStreak` | proprietary/cache-proposals/cache-readonly.service.ts:800-826 | no direction is applied more than five times in a row in any run of strict changes whose history is kept |
| `TuningRuns.NoOscillation` | proprietary/cache-proposals/cache-readonly.service.ts:827-847 | any eleven consecutive adjustments contain at most two flips, although only ten are remembered |
| `TuningRuns.StreakTravelBounded` | proprietary/cache-proposals/cache-readonly.service.ts:438-456 | a tightening streak lowers the threshold by at most 5.8 bands in total, a loosening streak raises it by at most 2.9 |
| `TuningRuns.LogChains` | proprietary/cache-proposals/cache-apply.dispatcher.ts:131-147 | log entries chain from one value to the next up to the live threshold, so a streak's travel is the net move; the threshold never goes negative |
| `TuningRuns.RecordedFaithfullyIffStrict` | proprietary/cache-proposals/cache-apply.dispatcher.ts:141 | the recorded direction is the recommended one exactly when the recommendation moves the threshold |
| `TuningRuns.UnwrittenHistoryRunsAway` | proprietary/cache-proposals/cache-apply.dispatcher.ts:151-158 | the bound needs the history writes: with tolerated push failures a tightening streak of any length is applied |
| `TuningRuns.UnreadHistoryRunsAway` | proprietary/cache-proposals/cache-readonly.service.ts:755-790 | the bound needs the history reads: with tolerated read failures the streak has no bound although every entry is written |
| `TuningRuns.StaleRecommendationsRunAway` | proprietary/cache-proposals/cache-apply.dispatcher.ts:131-158 | the bound needs recommendations from the live state: ones that rest on an earlier, empty history are applied in a streak of any length |
| `TuningRuns.NoOpsRunAway` | proprietary/cache-proposals/cache-apply.dispatcher.ts:141 | the bound needs strict changes: applied no-op tightenings are recorded as a loosening streak of any length |
| `ProposalLifecycle.ProposalTable.UpdateStatus` | apps/api/src/storage/adapters/memory.adapter.ts:1660-1700 | compare-and-set of one stored row: the row changes only from an expected status, and the result says whether it did |
| `ProposalLifecycle.ProposalTable.ExpireBefore` | apps/api/src/storage/adapters/memory.adapter.ts:1702-1713 | expires exactly the pending rows whose deadline has passed |
| `ProposalLifecycle.StepKeepsInv` | proprietary/cache-proposals/cache-proposal.service.ts:482-706 | every atomic step of any request (approve, edit, reject, expire, apply, audit, outcome evaluation) keeps the protocol invariant |
| `ProposalLifecycle.StatusFollowsLegalPath` | proprietary/cache-proposals/cache-proposal.service.ts:482-706 | under every interleaving the status history is pending, then one of approved, rejected, expired, then after approved at most one of applied, failed |
| `ProposalLifecycle.DecisionIsFinal` | proprietary/cache-proposals/cache-proposal.service.ts:624-671 | once decided, no continuation of the run changes the branch or the payload |
| `ProposalLifecycle.DispatchesCarryFrozenPayload` | proprietary/cache-proposals/cache-proposal.service.ts:672-693 | nothing rejected or expired is ever dispatched, and every dispatch carries the payload frozen by the winning approval |
| `ProposalLifecycle.OneDecisionAudit` | proprietary/cache-proposals/cache-proposal.service.ts:624-671 | at most one decision audit exists, and it names the branch taken and the payload it froze |
| `ProposalDeadlines.DecisionInTime` | proprietary/cache-proposals/cache-proposal.service.ts:482-706 | under every interleaving a decided row was decided by someone entitled to: an approval first read before the deadline, an edit or a rejection at the latest at it, a sweep from it on; its payload is the original one or what that edit makes of it |
| `ProposalDeadlines.TimelyRequestSettles` | proprietary/cache-proposals/cache-proposal.service.ts:491-671 | an approval, a rejection or an acceptable edit that read the row pending in time never ends with it undecided, whoever else runs |
| `ProposalDeadlines.EditIff` | proprietary/cache-proposals/cache-proposal.service.ts:521-572 | an edit is accepted exactly if it names the one value of its proposal type and that value is in range; it changes that value only |
| `ProposalDeadlines.ApproveAlone` | proprietary/cache-proposals/cache-proposal.service.ts:624-693 | an undisturbed approval of a pending row: before the deadline it approves, audits and dispatches, ending applied or failed as the dispatch went; from the deadline on it does nothing |
| `ProposalDeadlines.EditAlone` | proprietary/cache-proposals/cache-proposal.service.ts:521-600 | an undisturbed edit: an acceptable one in time approves the edited payload, audits that and dispatches it; any other leaves everything as it was |
| `ProposalDeadlines.RejectAlone` | proprietary/cache-proposals/cache-proposal.service.ts:491-519 | an undisturbed rejection: read at the latest at the deadline it rejects and audits that, later it does nothing; it never dispatches |
| `ProposalDeadlines.SettledAlone` | proprietary/cache-proposals/cache-proposal.service.ts:624-706 | a request for a decided row: an approval dispatches an approved row as it stands, anything else is refused |
| `ProposalDeadlines.SweepAlone` | proprietary/cache-proposals/cache-proposal.service.ts:603-622 | the sweep expires and audits a pending row from its deadline on, and does nothing before |
| `ProposalDeadlines.EvaluateAlone` | proprietary/cache-proposals/cache-outcome-evaluator.ts:195-219 | an evaluation adds its audit to an applied row and changes nothing else |
| `ProposalLifecycle.OneDispatchPerRequest` | proprietary/cache-proposals/cache-apply.service.ts:37-107 | a request dispatches at most once |
| `ProposalLifecycle.AtMostOneDispatchIff` | proprietary/cache-proposals/cache-proposal.service.ts:633-635 | in every run there is at most one more dispatch than requests that read the row as already approved; once none is on its way, there is at most one dispatch exactly when nobody read it so, or one request did and the winning approval was not audited |
| `ProposalLifecycle.SettledDispatchCount` | proprietary/cache-proposals/cache-proposal.service.ts:624-693 | once no request is on its way to a dispatch, the dispatches number exactly the requests that found the row approved, plus one if the winning approval was audited |
| `ProposalLifecycle.TwoApprovalsCanBothDispatch` | proprietary/cache-proposals/cache-proposal.service.ts:633-635 | two overlapping approvals can both dispatch, and the failed one is audited although the row was applied |
| `EventStore.StepKeepsOneOpenIff` | proprietary/anomaly-detection/anomaly.service.ts:4470-4530 | from a sound state a step keeps at most one open event per signature exactly when it does not open an event (by emitting it or storing its row) while another one of the signature is open and stays so |
| `EventStore.AtMostOneOpenEventIff` | proprietary/anomaly-detection/anomaly.service.ts:4415-4540 | over every run (ring eviction, lost and late saves, failed and retried resolves, dismissals, cleanups, pruning, removal of the connection, restart) all states have at most one open event per signature exactly when no step does that |
| `EventHazards.MissableIffBuried` | apps/api/src/storage/adapters/postgres.adapter.ts:2143-2163 | an open row can be missing from a hundred-row feed ordered by timestamp alone exactly when at least a hundred other open rows are no older |
| `EventHazards.CheckIsSafeIff` | proprietary/anomaly-detection/anomaly.service.ts:4478-4497 | whatever the storage answers, checking a signature is safe exactly when its tracked event is neither stale nor buried and no forgotten event of it is left behind, all visible before the check |
| `EventHazards.StaleNeedsCause` | proprietary/anomaly-detection/anomaly.service.ts:5150-5160 | in every run an event is shown resolved with its row open only if a dismissal reached it between its push to the ring and the end of its successful save, or the row of its lost save was stored after all |
| `EventHazards.BecomesForgottenIff` | proprietary/anomaly-detection/anomaly.service.ts:572-614 | a step makes an open event forgotten exactly by dropping its id (removal of the connection, restart, recovery of an event stored without the gate knowing) or by storing its row late |
| `EventHazards.ForgottenNeedsCause` | proprietary/anomaly-detection/anomaly.service.ts:572-614 | in every hazard-free run an open event is forgotten only if all ids were lost while it was open, or the row of its lost save was stored after all |
| `EventHazards.AtMostOneOpenEvent` | proprietary/anomaly-detection/anomaly.service.ts:4415-4540 | a run without racing dismissals, late rows and loss of ids under an open event, whose lookups were answered while the event was not buried, has at most one open event per signature in every state |
| `EventHazards.RacedDismissalDoublesUp` | proprietary/anomaly-detection/anomaly.service.ts:5150-5160 | from the empty store: emit, dismiss while the save is in flight, complete the save, check again - two open events of one signature |
| `EventHazards.BuriedEventDoublesUp` | proprietary/anomaly-detection/anomaly.service.ts:4548-4563 | from the empty store: one poll emits more than a hundred findings, a thousand later pushes evict them, and any one of these equally old events can be left out of the feed and emitted a second time |
| `EventHazards.LostIdsDoubleUp` | proprietary/anomaly-detection/anomaly.service.ts:572-614 | from the empty store: emit and save, remove the connection or restart, check again - two open events of one signature |
| `EventHazards.LateRowDoublesUp` | proprietary/anomaly-detection/anomaly.service.ts:4747-4760 | from the empty store: a save wrongly reported lost, a dismissal that flips the cached copy only, and the next check opens a second event |
| `PersistenceGate.TopologyGate.Observe` | proprietary/anomaly-detection/anomaly.service.ts:4415-4540 | one poll of the gate, findings, emits, recoveries and failures included, equals the poll function the run theorems are about |
| `PersistenceGate.TopologyGate.Interrupt` | proprietary/anomaly-detection/anomaly.service.ts:572-614 | removal of the connection drops the three maps and keeps ring and rows; a restart empties the ring as well |
| `PersistenceGate.EmissionNeedsPersistence` | proprietary/anomaly-detection/anomaly.service.ts:4440-4478 | every emission follows presence of at least minPersistMs: some earlier poll, that long ago, found the signature, and every poll since found or preserved it, with no removal or restart in between |
| `PersistenceGate.UntrackedEmitsIff` | proprietary/anomaly-detection/anomaly.service.ts:4440-4506 | without tracking, in every run: a poll emits a signature exactly when it finds it, its unbroken presence began at least minPersistMs ago, and no poll of that presence has emitted it yet |
| `PersistenceGate.EmissionsAreSeparated` | proprietary/anomaly-detection/anomaly.service.ts:4498-4506 | without tracking, two polls emitting one signature are separated by a poll where it was neither found nor preserved, or by a removal or restart |
| `PersistenceGate.OneEmissionPerPoll` | proprietary/anomaly-detection/anomaly.service.ts:4498-4506 | without tracking, a poll emits a signature at most once |
| `PersistenceGate.TrackedEmitsIffNothingOpen` | proprietary/anomaly-detection/anomaly.service.ts:4478-4497 | a tracked gate emits exactly when the grace period has passed and no event of the signature is open (but for a forgotten one this push evicts), if nothing hides an open event and a lookup is answered by a legal feed |
| `PersistenceGate.TrackedEmitsIff` | proprietary/anomaly-detection/anomaly.service.ts:4440-4497 | the same over runs and by polls: a finding is emitted exactly when its unbroken presence began at least minPersistMs ago and no event of it is open |
| `GateRecovery.RecoverClosesIff` | proprietary/anomaly-detection/anomaly.service.ts:4518-4530 | one recovery: a storage call that fails leaves everything for the next poll; otherwise the id is dropped and the event is closed, except for a flipped ring copy not known to be stored whose row is open after all |
| `GateRecovery.RecoveryCloses` | proprietary/anomaly-detection/anomaly.service.ts:4518-4530 | after a tracked poll the event tracked for a signature neither found nor preserved is closed and its id dropped, if the pass reaches it, its storage call works and its ring copy tells truly whether it is stored |
| `GateRecovery.OthersUntouched` | proprietary/anomaly-detection/anomaly.service.ts:4415-4540 | every other event, one of a found or preserved signature included, keeps its row and its ring copy through the poll, unless the pushes of a full ring evict the copy; an open one with an open row, or with room in the ring, stays open |
| `GateRecovery.ClosedNeedsCause` | proprietary/anomaly-detection/anomaly.service.ts:4415-4540 | in any reachable state a step closes an open event only by resolving it or by dropping the last thing that shows it open |
| `PersistenceGate.TrackedPollKeepsOneOpen` | proprietary/anomaly-detection/anomaly.service.ts:4415-4540 | a whole tracked poll, whatever storage calls fail in it, keeps the one-open-event invariant unless a finding's event is stale, buried or left behind when it is looked up |
| `PersistenceGate.TrackedRunKeepsOneOpen` | proprietary/anomaly-detection/anomaly.service.ts:4415-4540 | so does every run of such polls, through removals and restarts between them |
| `RaftWatch.RaftHealthDetector.LeaderlessWindows` | proprietary/anomaly-detection/anomaly.service.ts:3081-3121 | node timeout cached once readable, looked up again after sixty polls without a lookup, and the recovery and fire windows computed from it |
| `RaftWindows.WindowsFollowTimeout` | proprietary/anomaly-detection/anomaly.service.ts:3084-3121 | at every Raft poll of every run, by the polls alone: the effective timeout is what the first due lookup with a positive value returned, at most 300 s, and 15 s before any (lookups are due on every 61st Raft poll until then); the recovery window is the larger of 30 s and three times it, the fire margin the larger of 10 s and it |
| `RaftWatch.RaftHealthDetector.DetectRaftHealth` | proprietary/anomaly-detection/anomaly.service.ts:3179-3337 | one poll of the churn counter and the leaderless watch equals the step functions, with the emitted findings |
| `RaftWatch.CriticalNeedsHeldWatch` | proprietary/anomaly-detection/anomaly.service.ts:3254-3320 | every CRITICAL comes from a watch opened by a seeking poll at least fireMs earlier, with no leadership, commit progress or quiet recoveredMs at any poll since, under the windows in force at each |
| `RaftWatch.ConfirmationNeedsSeeking` | proprietary/anomaly-detection/anomaly.service.ts:3289-3320 | an outage becomes confirmed only at a seeking poll of a watch open for fireMs |
| `RaftWatch.FirstCriticalIff` | proprietary/anomaly-detection/anomaly.service.ts:3277-3320 | a poll of a watch without an earlier CRITICAL raises one exactly when the watch is fireMs old, nothing is pinned, and the node seeks, or a confirmation is carried into the watch, or an earlier old seeking poll of the watch was silenced by a pinned outage |
| `RaftWatch.CriticalIff` | proprietary/anomaly-detection/anomaly.service.ts:3277-3320 | any poll of a watch, not only the first: a CRITICAL is raised exactly when the watch is fireMs old, nothing is pinned, and the node seeks or the outage was confirmed |
| `RaftWatch.OpensIffSeeking` | proprietary/anomaly-detection/anomaly.service.ts:3254-3270 | with no watch open, one opens exactly at a poll whose node is a candidate or pre-candidate |
| `RaftWatch.StaysOpenIffLeaderless` | proprietary/anomaly-detection/anomaly.service.ts:3254-3264 | an open watch closes exactly at a leader, a risen commit index, or recoveredMs without seeking |
| `RaftWatch.ConfirmedIffCarried` | proprietary/anomaly-detection/anomaly.service.ts:3289-3337 | over every run the confirmation flag is set exactly when some poll confirmed an outage (seeking, in a watch fireMs old) and no poll since closed the watch and resolved the outages |
| `RaftWatch.PinnedConfirmationFiresQuietly` | proprietary/anomaly-detection/anomaly.service.ts:3289-3296 | a seeking poll that confirms while another outage is pinned lets the next, quiet poll raise the first CRITICAL |
| `RaftWatch.StaleConfirmationFiresQuietly` | proprietary/anomaly-detection/anomaly.service.ts:3329-3337 | a confirmation kept by a failed resolve makes a later watch raise its first CRITICAL on a quiet poll |
| `RaftWatch.ChurnWarnsIff` | proprietary/anomaly-detection/anomaly.service.ts:3207-3240 | a poll warns of churn exactly when three distinct polls of the last minute saw the term rise, none before the last warning or the last reply without Raft state |
| `MetricStats.MetricBuffer.AddSample` | proprietary/anomaly-detection/metric-buffer.ts:17-24 | appends and keeps the window at its capacity |
| `MetricStats.MetricBuffer.GetMean` | proprietary/anomaly-detection/metric-buffer.ts:30-34 | the summing loop computes the mean, 0 for an empty buffer |
| `MetricStats.WindowIsNewest` | proprietary/anomaly-detection/metric-buffer.ts:17-24 | after any run of additions the window is exactly the newest samples, up to the capacity |
| `MetricStats.BufferedZBound` | proprietary/anomaly-detection/metric-buffer.ts:36-51 | the z-score of any buffered value satisfies z squared <= n - 1 |
| `MetricStats.JudgedZBound` | proprietary/anomaly-detection/anomaly.service.ts:707-709 | the value judged is the one just added, so over every run its z squared is at most n - 1 and at most capacity - 1 |
| `MetricStats.SpikeAttainsBound` | proprietary/anomaly-detection/metric-buffer.ts:36-51 | the bound is attained by one spike of any height over equal samples |
| `MetricStats.OutliersAreFew` | proprietary/anomaly-detection/metric-buffer.ts:36-51 | for every k > 0 the number of buffered samples at |z| >= k, times k squared, is at most n |
| `SpikeDetector.Detector.Detect` | proprietary/anomaly-detection/spike-detector.ts:38-125 | one call of the detector equals the step function, with the severity of the alert it returns |
| `SpikeDetector.AlertClosesStreak` | proprietary/anomaly-detection/spike-detector.ts:57-108 | an alert closes a streak of exactly the required number of over-threshold readings with no alert and no normal reading judged in between; skipped readings may lie between |
| `SpikeDetector.SkippedIff` | proprietary/anomaly-detection/spike-detector.ts:38-60 | over every run a reading goes unjudged exactly when the buffer is not ready, it lies below the mean and drops are not watched, or the last alert before it has a non-zero time less than the cooldown ago |
| `SpikeDetector.AlertIff` | proprietary/anomaly-detection/spike-detector.ts:57-108 | a reading alerts exactly when it is judged, reaches one of the four thresholds, and completes a streak of at least the required number of such readings |
| `SpikeDetector.AlertsAreSpaced` | proprietary/anomaly-detection/spike-detector.ts:43-47 | two alerts are at least the cooldown apart, for non-zero non-decreasing timestamps (a stored time of 0 reads as absent) |
| `SpikeDetector.UnreachableThreshold` | proprietary/anomaly-detection/spike-detector.ts:66-78 | a critical z threshold whose square exceeds n - 1 is never reached, so only the absolute threshold can raise CRITICAL |
| `Correlator.Correlator.CutWindows` | proprietary/anomaly-detection/correlator.ts:321-340 | the window loop produces the greedy windows of the sorted list |
| `Correlator.Correlator.CreateGroup` | proprietary/anomaly-detection/correlator.ts:414-445 | the group holds its events, their earliest time and gravest severity, and its id and related metrics are written into every event |
| `Correlator.RelatedAre` | proprietary/anomaly-detection/correlator.ts:414-424 | the related metrics of an event are those of the group's events with other ids |
| `Correlator.Correlator.Correlate` | proprietary/anomaly-detection/correlator.ts:315-388 | one group per greedy window of the time-sorted input, each described by its members and stamped with its own id |
| `Correlator.CorrelationPartitions` | proprietary/anomaly-detection/correlator.ts:318-340 | the windows partition the input, none is empty and none spans more than the correlation window |
| `Correlator.GreedyIsMinimal` | proprietary/anomaly-detection/correlator.ts:321-340 | no grouping of the same events into groups of that span has fewer groups |
| `RateLimiter.SlidingWindowRateLimiter.Prune` | proprietary/cache-proposals/rate-limiter.ts:87-100 | drops the entries at or before the cutoff from the front of one bucket |
| `RateLimiter.SlidingWindowRateLimiter.CheckAt` | proprietary/cache-proposals/rate-limiter.ts:26-38 | the answer, wait and remaining quota of a check, after pruning; with a limit of 0 and nothing to read it throws |
| `RateLimiter.SlidingWindowRateLimiter.Reserve` | proprietary/cache-proposals/rate-limiter.ts:51-62 | a reservation with its two clock readings equals the step function; a token is returned exactly when the bucket has room |
| `RateLimiter.SlidingWindowRateLimiter.Release` | proprietary/cache-proposals/rate-limiter.ts:64-77 | removes the entry with the token, and the bucket when it becomes empty |
| `RateLimiter.GrantedIffLedgerHasRoom` | proprietary/cache-proposals/rate-limiter.ts:26-62 | pruning is transparent: in every run under a non-decreasing clock a grant is made exactly when fewer than limit never-released entries, out of all ever made, fall in the last window |
| `RateLimiter.AnswerIs` | proprietary/cache-proposals/rate-limiter.ts:26-38 | what a check answers in any such run, by the live entries of the ledger: allowed exactly below the limit, the room left, and otherwise the wait until the oldest of them leaves the window |
| `RateLimiter.WindowNeverOverfull` | proprietary/cache-proposals/rate-limiter.ts:26-100 | any half-open interval of length windowMs holds at most limit never-released grants per key, plain records interleaved or not |
| `RateLimiter.RetryAfterIff` | proprietary/cache-proposals/rate-limiter.ts:31-35 | every attempt before a denial's retryAfterMs is denied, and one at that instant is granted exactly when the bucket has room once its oldest entries are gone |
| `RateLimiter.OverfullWaitIsTooShort` | proprietary/cache-proposals/rate-limiter.ts:31-49 | limit 1 and two plain records: a caller who waits as told is denied again |
| `RateLimiter.RetryAfterIsExact` | proprietary/cache-proposals/rate-limiter.ts:31-35 | for keys that are only reserved and released it is exact: absent a release, every earlier attempt is denied and an attempt at that instant is granted |
| `FailoverChurn.FailoverChurnDetector.ExtractShardOwnership` | proprietary/anomaly-detection/failover-churn-detector.ts:100-122 | the loop yields one owner per shard, equal to the fold over the snapshot |
| `FailoverChurn.FailoverChurnDetector.Fold` | proprietary/anomaly-detection/failover-churn-detector.ts:172-248 | one observation's effect on its shard's state, and the finding it returns |
| `FailoverChurn.FailoverChurnDetector.Evaluate` | proprietary/anomaly-detection/failover-churn-detector.ts:160-260 | a snapshot's effect on the whole state map (expiry included) and its findings, shard by shard |
| `FailoverChurn.FailoverChurnDetector.Acknowledge` | proprietary/anomaly-detection/failover-churn-detector.ts:267-280 | clears a shard's counted changes and stamps the fire time; an unknown shard is left alone |
| `FailoverChurn.OwnersAreBest` | proprietary/anomaly-detection/failover-churn-detector.ts:100-122 | a shard is observed exactly when a live primary claims it, and its owner is a claimant no other beats by epoch, then by smaller id |
| `FailoverChurn.OrderIndependent` | proprietary/anomaly-detection/failover-churn-detector.ts:93-122 | every permutation of a snapshot with distinct ids gives the same next state and the same findings |
| `FailoverChurn.FindingIff` | proprietary/anomaly-detection/failover-churn-detector.ts:190-248 | over every run a shard is reported exactly at a counted observation (no lower epoch, no flap, no resharding) with three epoch bumps or three owner flips in the last minute since its last acknowledgement, counted from logs that are never pruned |
| `FailoverChurn.CriticalIffRecentAck` | proprietary/anomaly-detection/failover-churn-detector.ts:237-247 | a finding is CRITICAL exactly when the last acknowledgement is at most 120 s old |
| `FailoverChurn.TrailRises` | proprietary/anomaly-detection/failover-churn-detector.ts:222-228 | a retained shard's epoch trail is strictly increasing, has at most six entries, and ends at or below the last epoch |
| `FailoverChurn.EpochNeverFalls` | proprietary/anomaly-detection/failover-churn-detector.ts:194-234 | while a shard's state is retained its last epoch never decreases |
| `FailoverReference.OwnerIs` | proprietary/anomaly-detection/failover-churn-detector.ts:68-122 | by the nodes' flags and slots: a shard is observed exactly when a healthy primary claims it, and the observation is that of the highest epoch among these, then of the smallest id |
| `FailoverReference.StateIsNewest` | proprietary/anomaly-detection/failover-churn-detector.ts:172-234 | in every run the state holds epoch and owner of the newest believed observation: not one of a lower epoch, and not one that moves the shard at equal epoch while the old owner claims it with a health flag |
| `FailoverReference.KnownIff` | proprietary/anomaly-detection/failover-churn-detector.ts:172-258 | a shard is known exactly when it was observed and no snapshot since lacked it more than two minutes after its last sighting |
| `FailoverReference.ReportIff` | proprietary/anomaly-detection/failover-churn-detector.ts:172-248 | by snapshots alone: a shard is reported exactly when its observation counts and three counted changes of owner, or three of epoch, lie in the last minute without an acknowledgement or a forgetting in between |
| `FailoverReference.TrailIs` | proprietary/anomaly-detection/failover-churn-detector.ts:222-228 | the trail is the newest six epochs the shard has been shown with |
| `FailoverReference.ReportSays` | proprietary/anomaly-detection/failover-churn-detector.ts:229-247 | a report carries the believed owner, the larger of the two numbers of counted changes, and that trail |
| `AclDigest.TokenizeAclLine` | proprietary/anomaly-detection/acl-drift-detector.ts:95-120 | the character loop computes the tokens, selectors kept whole |
| `AclTokens.TokenizeCuts` | proprietary/anomaly-detection/acl-drift-detector.ts:95-120 | the tokens of any line are exactly its maximal stretches between white space outside all parentheses |
| `AclTokens.ParseIff` | proprietary/anomaly-detection/acl-drift-detector.ts:122-129 | a line names a user exactly when its first token is the word user in any case and another token follows; the rest are the rules |
| `AclDigest.RetokenizeIsIdentity` | proprietary/anomaly-detection/acl-drift-detector.ts:95-120 | tokenizing the space-joined tokens of any line, balanced or not, returns the same tokens |
| `AclDigest.RuleOrderIrrelevant` | proprietary/anomaly-detection/acl-drift-detector.ts:146-151 | the user digest ignores the order of a user's rules |
| `AclDigest.TokenOrderIrrelevant` | proprietary/anomaly-detection/acl-drift-detector.ts:112-119 | two lines whose tokens after the username are permutations of each other leave node digest and record of a reply equal |
| `AclDigest.NodeIgnoresRuleOrder` | proprietary/anomaly-detection/acl-drift-detector.ts:95-196 | reordering a user's rules in the text of an ACL LIST reply changes neither the node digest nor the record |
| `AclDigest.NodeIgnoresSelectorOrder` | proprietary/anomaly-detection/acl-drift-detector.ts:95-196 | reordering the rules inside one selector in the text of a reply changes neither of them, whenever both selectors are tokens, nested parentheses included |
| `AclDigest.XorBytes` | proprietary/anomaly-detection/acl-drift-detector.ts:161-169 | the byte loop computes the bytewise exclusive or |
| `AclDigest.NodeAclDigest` | proprietary/anomaly-detection/acl-drift-detector.ts:177-195 | the line loop computes the XOR and the per-user digests of the lines that parse |
| `AclDigest.LineOrderIrrelevant` | proprietary/anomaly-detection/acl-drift-detector.ts:177-195 | permuting the lines leaves the node digest unchanged, and the user digests too when usernames are distinct |
| `AclDigest.NodeDigestsAgreeIff` | proprietary/anomaly-detection/acl-drift-detector.ts:170-196 | lists with equal user digests have equal node digests exactly when the lines the record does not show (all but the last of a repeated user, every line of a user called `__proto__`) combine to the same digest |
| `AclDigest.UserDigestsForceNodeDigest` | proprietary/anomaly-detection/acl-drift-detector.ts:170-196 | when each user has one line and none is called `__proto__`, equal user digests force equal node digests |
| `AclDigest.SingleUserDriftShows` | proprietary/anomaly-detection/acl-drift-detector.ts:177-195 | nodes that agree on all users but one have equal node digests exactly when that user's digests are equal |
| `AclDigest.RepeatedUserHidesDrift` | proprietary/anomaly-detection/acl-drift-detector.ts:187-192 | with a repeated user node digests can differ although every user digest agrees |
| `AclDigest.UnrecordedUserHidesDrift` | proprietary/anomaly-detection/acl-drift-detector.ts:181-192 | with a user called `__proto__` they can differ although usernames are distinct, because a plain object does not take that key |
| `AclDrift.DifferingUsers` | proprietary/anomaly-detection/acl-drift-detector.ts:229-242 | lists exactly the users whose digests differ or who are missing somewhere, sorted |
| `AclDrift.DetectAclDrift` | proprietary/anomaly-detection/acl-drift-detector.ts:202-261 | every disagreeing replication group is reported once, with exactly its differing users, and no other group is |
| `AclDrift.KeysListedOnce` | proprietary/anomaly-detection/acl-drift-detector.ts:203-212 | each non-empty replication group among the nodes is considered once |
| `AclDrift.UnnamedDriftIff` | proprietary/anomaly-detection/acl-drift-detector.ts:198-261 | a disagreeing group names nobody exactly when all its records agree and the lines they do not show combine differently somewhere |
| `AclDrift.DriftNamesAUser` | proprietary/anomaly-detection/acl-drift-detector.ts:198-261 | a reported drift between nodes that list each user once, none called `__proto__`, names at least one user |
| `AclGrants.UserTextIff` | proprietary/anomaly-detection/acl-drift-detector.ts:137-153 | the text that is hashed is the same exactly for the same user with the same grant: the same bag of plain rules and of selectors, each the bag of its words |
| `AclGrants.UserDigestsAgreeIff` | proprietary/anomaly-detection/acl-drift-detector.ts:137-158 | so under a hash without a collision on the two texts user digests agree exactly for one user with one grant |
| `AclGrants.NodeDigestsAgreeIffGrants` | proprietary/anomaly-detection/acl-drift-detector.ts:137-196 | two replies that differ in one user's line have equal node digests exactly when the two lines grant the same |
| `AclGrants.GrantDriftIsNamed` | proprietary/anomaly-detection/acl-drift-detector.ts:137-261 | in a replication group a user whose lines on two nodes grant differently has different digests there and is named in the drift report |
| `AclGrants.FlatIsCanonical` | proprietary/anomaly-detection/acl-drift-detector.ts:137-144 | a rule stays one token when its words are sorted, as these lemmas require, whenever a selector holds no parentheses inside |
| `AclGrants.NestedSelectorsCollide` | proprietary/anomaly-detection/acl-drift-detector.ts:137-151 | a selector nested in a selector falls apart when its words are sorted: it has the digest of two selectors, under every hash |
| `GhostHistory.GhostMembershipHistory.Observe` | proprietary/anomaly-detection/ghost-membership-history.ts:116-205 | one poll moves the history by the step relation and returns each reportable rejoin once |
| `GhostHistory.GhostMembershipHistory.EvictStaleDepartures` | proprietary/anomaly-detection/ghost-membership-history.ts:217-236 | drops departures past retention, then keeps the newest 512 |
| `GhostHistory.FoldIs` | proprietary/anomaly-detection/ghost-membership-history.ts:136-171 | the line loop depends only on which ids are listed and which are listed live, not on the order or repetition of lines |
| `GhostHistory.HistoryStaysBounded` | proprietary/anomaly-detection/ghost-membership-history.ts:116-236 | in every run present and departed ids are disjoint, at most 512 departures are kept, none past retention, none dropped that is newer than one kept |
| `GhostHistory.PresentIff` | proprietary/anomaly-detection/ghost-membership-history.ts:136-171 | after a poll exactly those ids are present that it lists without a gone flag, and those it lists at all that were not departed |
| `GhostHistory.RejoinHasDeparture` | proprietary/anomaly-detection/ghost-membership-history.ts:153-170 | every reported rejoin belongs to a departure of a present id: unlisted in at least two polls (the reported number), never listed live in between, gone for at least a minute |
| `GhostHistory.RejoinsHaveOwnDepartures` | proprietary/anomaly-detection/ghost-membership-history.ts:147-170 | two rejoins of one id belong to different departures |
| `GhostHistory.ReturnIsReported` | proprietary/anomaly-detection/ghost-membership-history.ts:147-170 | conversely such a return is reported unless a view reset, retention or the ceiling made the history forget |
| `BulkDelete.WalkTarget` | proprietary/bulk-delete/bulk-delete-engine.ts:138-200 | the scan loop of one target: cancellation and cap checked before every batch; only the last check can have answered true, and the run is cancelled exactly when it did; every key taken when the loop ends by itself |
| `BulkDelete.RunBulkDelete` | proprietary/bulk-delete/bulk-delete-engine.ts:120-207 | for any targets and any cancellation point: totals are the per-node sums, deleted is what the servers removed, a batch is counted per reply begun, matched never exceeds the cap and a truncated run has used it up, exactly the counted keys are unlinked (none in a dry run), samples are the first keys read, and a run neither truncated nor cancelled finishes every target |
| `BulkDelete.CompleteRunLeavesNoMatch` | proprietary/bulk-delete/bulk-delete-engine.ts:196-207 | a finished execute run has unlinked every key any scan returned, so nothing the scans are guaranteed to return remains |
| `BulkDelete.NormalizationIs` | proprietary/bulk-delete/bulk-delete-engine.ts:59-92 | what a request becomes: refused exactly if its pattern is blank, or trims to stars only without the confirmation; otherwise the trimmed pattern, count and pause cut to whole numbers in range with their defaults, the requested cap (a preview is always capped), and the sample limit of its mode |
| `Glob.EscapedPrefix` | proprietary/cache-proposals/cache-apply.dispatcher.ts:333-335 | an escaped text followed by any pattern matches exactly the strings that start with the text and go on to match |
| `Glob.PrefixPatternIsExact` | proprietary/cache-proposals/cache-apply.dispatcher.ts:333-335 | a key matches an escaped value followed by * exactly when it starts with the value |
| `Glob.InvalidationIsExact` | proprietary/cache-proposals/cache-apply.dispatcher.ts:288-310 | each invalidation pattern (tool, key prefix, session) matches exactly the keys with the intended literal prefix |
| `Glob.ScanAndDelete` | proprietary/cache-proposals/cache-apply.dispatcher.ts:337-352 | the cursor loop deletes every key of every reply and nothing else, and counts what the server removed |
| `Glob.OnlyIntendedKeysDeleted` | proprietary/cache-proposals/cache-apply.dispatcher.ts:288-310 | an invalidation deletes only keys with the intended literal prefix |
| `Glob.CatchAllIff` | proprietary/bulk-delete/bulk-delete-engine.ts:38-40 | matchesEverything holds exactly for the patterns that match every string, the empty one included |
| `Hysteresis.AckedIsMinimum` | proprietary/anomaly-detection/fork-memory-risk-detector.ts:243-282 | the acknowledged severity is the least of the last acknowledged one and all assessed since |
| `Hysteresis.FiresIff` | proprietary/anomaly-detection/fork-memory-risk-detector.ts:243-282 | a severity fires exactly when it exceeds the last acknowledged one or something assessed since was strictly lower |
| `Hysteresis.RecursUntilAcked` | proprietary/anomaly-detection/load-saturation-detector.ts:133-213 | until something is acknowledged, a severity that fired keeps firing, whatever is assessed in between |
| `Hysteresis.SilentUntilDrop` | proprietary/anomaly-detection/load-saturation-detector.ts:133-213 | after an acknowledgement the severity stays silent until a strictly lower one is assessed |
| `ForkMemory.ForkMemoryDetector.Evaluate` | proprietary/anomaly-detection/fork-memory-risk-detector.ts:243-269 | one poll lowers the acknowledged pair on a drop and returns the assessment when it exceeds it |
| `ForkMemory.FindingIff` | proprietary/anomaly-detection/fork-memory-risk-detector.ts:243-282 | over every run a finding is returned exactly as the shared hysteresis says, by combined level and kind |
| `ForkMemory.AssessmentIs` | proprietary/anomaly-detection/fork-memory-risk-detector.ts:159-235 | a running save is a live risk, critical from 0.9 and a warning from 0.8 of the system memory with the copies made; without one a warning is projected exactly from 0.8 with the larger last copy and at least a thousand writes a second |
| `ForkMemory.SeverityOrder` | proprietary/anomaly-detection/fork-memory-risk-detector.ts:94-99 | severities are ordered by level, and at one level live outranks projected |
| `MemoryOverhead.MemoryOverheadDetector.Evaluate` | proprietary/anomaly-detection/memory-overhead-detector.ts:178-305 | one poll equals the step function and returns its finding, the inconsistency guard included |
| `MemoryOverhead.AckedLevelIsTracked` | proprietary/anomaly-detection/memory-overhead-detector.ts:178-322 | over every run, inconsistent and budget-less samples included, the acknowledged level is the one the shared hysteresis tracks |
| `MemoryOverhead.FindingIff` | proprietary/anomaly-detection/memory-overhead-detector.ts:246-256 | an overhead finding is returned exactly for a readable sample above the last acknowledged level or above a lower one assessed since |
| `MemoryOverhead.LevelIs` | proprietary/anomaly-detection/memory-overhead-detector.ts:178-256 | which samples are read, and their level: critical from half of the budget or when the overhead crowds out the data, otherwise a warning from three tenths |
| `MemoryOverhead.NoteIff` | proprietary/anomaly-detection/memory-overhead-detector.ts:190-217 | the inconsistency note is due exactly from the tenth inconsistent sample in a row, until acknowledged once |
| `LoadSaturation.LoadSaturationDetector.Evaluate` | proprietary/anomaly-detection/load-saturation-detector.ts:133-200 | one poll equals the step function and returns its finding |
| `LoadSaturation.FindingIff` | proprietary/anomaly-detection/load-saturation-detector.ts:133-213 | a finding is returned exactly when this and the two readable samples before it are in one band that exceeds the last acknowledged level or a lower one seen since |
| `LoadSaturation.LevelIs` | proprietary/anomaly-detection/load-saturation-detector.ts:78-149 | critical from 95 percent of each second spent working, a warning from 80; missing or negative fields say nothing |
| `CobPressure.ReplicaPressureState.AssessRatio` | proprietary/anomaly-detection/cob-pressure-detector.ts:175-212 | the assessment of one replica's buffer and the soft breach clock after it |
| `CobPressure.ReplicaPressureState.ApplyLevel` | proprietary/anomaly-detection/cob-pressure-detector.ts:420-453 | pressure memory, escalation and the drop of the acknowledged level |
| `CobPressure.FindingIff` | proprietary/anomaly-detection/cob-pressure-detector.ts:420-476 | while a replica's entry lives, a finding is returned exactly as the shared hysteresis says |
| `CobPressure.SoftSustainedIff` | proprietary/anomaly-detection/cob-pressure-detector.ts:189-209 | a soft-sustained warning is assessed exactly when the sample breaches the soft limit and some breach older than the grace period has not been followed by a calm sample |
| `CobPressure.AssessmentIs` | proprietary/anomaly-detection/cob-pressure-detector.ts:175-212 | level, kind, pressure and ratio of one sample by the shares of the hard and soft limit it fills |
| `CobPressure.AggregateIs` | proprietary/anomaly-detection/cob-pressure-detector.ts:286-300 | without a view of single replicas their buffers together are set against the hard limit of all of them |
| `CobPressure.PressureIsRemembered` | proprietary/anomaly-detection/cob-pressure-detector.ts:420-436 | an entry remembers pressure, with its time, exactly if its last observation was one |
| `AuthFailures.AuthFailureDetector.Accumulate` | proprietary/anomaly-detection/auth-failure-detector.ts:187-234 | the entry loop folds one scan into the growth state and yields each entry's window count |
| `AuthFailures.AuthFailureDetector.Observe` | proprietary/anomaly-detection/auth-failure-detector.ts:253-315 | the sources are exactly the addresses with at least the minimum count, once each, worst first, and stale entries are forgotten |
| `AuthFailures.AuthFailureDetector.TakeAlertable` | proprietary/anomaly-detection/auth-failure-detector.ts:322-345 | prunes the cooldowns, filters the sources and stamps the ones that pass |
| `AuthFailures.AddressCountsBalance` | proprietary/anomaly-detection/auth-failure-detector.ts:271-292 | for each address authFailures equals its auth reason total and the sum of its per-username counts, each counted from exactly the entries that carry it |
| `AuthFailures.WindowCountTelescopes` | proprietary/anomaly-detection/auth-failure-detector.ts:187-234 | with non-decreasing counts a window count is the current count minus the count at the last sighting at or before the window's start, or the first-sighting baseline |
| `AuthFailures.ScannedWindowTelescopes` | proprietary/anomaly-detection/auth-failure-detector.ts:187-250 | the same over whole scans with pruning, for an entry present in every scan |
| `AuthCounts.WindowCountIs` | proprietary/anomaly-detection/auth-failure-detector.ts:187-234 | whatever the counter does, the window count is the sum of its rises inside the window, a fall counting as nothing |
| `AuthCounts.ResultsAre` | proprietary/anomaly-detection/auth-failure-detector.ts:187-250 | after any run of scans in time order, pruning included, a scan returns for each entry in order the rises of its counter inside the window, and nothing for an entry without any |
| `AuthCounts.UsernamesAre` | proprietary/anomaly-detection/auth-failure-detector.ts:296-306 | a source's usernames are those its failures name, each once, the most attempted first |
| `AuthFailures.AlertedIff` | proprietary/anomaly-detection/auth-failure-detector.ts:322-345 | an offered address is alerted exactly when every earlier call that alerted it is more than the cooldown ago |
| `AuthFailures.AlertsAreSpaced` | proprietary/anomaly-detection/auth-failure-detector.ts:322-345 | two alerts for one address are always more than the cooldown apart |
| `ClientLockout.ClientLockoutDetector.Evaluate` | proprietary/anomaly-detection/client-lockout-detector.ts:129-201 | one poll equals the step function; a finding is returned exactly on escalation, with its level, refusal delta, streak and trend |
| `ClientLockout.ClientLockoutDetector.CommitLevel` | proprietary/anomaly-detection/client-lockout-detector.ts:208-215 | records the level and applies the staged baseline |
| `ClientLockout.RefusalsAreConserved` | proprietary/anomaly-detection/client-lockout-detector.ts:129-215 | through unreadable polls and failed emits, the deltas consumed plus the delta still reported sum to the counter's growth since any earlier baseline |
| `ClientLockout.ConsumptionIsReported` | proprietary/anomaly-detection/client-lockout-detector.ts:177-201 | a refusal is consumed only by a delivered finding that reports it, or while one of at least that level has been delivered since the last full recovery |
| `ClientLockout.LevelIs` | proprietary/anomaly-detection/client-lockout-detector.ts:150-174 | the level adds up two signs: the refusal counter stands above the baseline, and this poll and the two readable ones before it were full |
| `ClientLockout.FindingIff` | proprietary/anomaly-detection/client-lockout-detector.ts:129-201 | a poll returns a finding exactly when it is readable, of level one or two, and none of at least that level was delivered since the last full recovery |
| `ResyncLoop.ResyncLoopDetector.Evaluate` | proprietary/anomaly-detection/stuck-replica-detector.ts:180-247 | one poll equals the step function, and says whether a finding is returned |
| `ResyncLoop.StateSummarizesWindow` | proprietary/anomaly-detection/stuck-replica-detector.ts:180-247 | in every run the state is a summary of the polls since the link was last up or its down counter last fell |
| `ResyncLoop.WindowIs` | proprietary/anomaly-detection/stuck-replica-detector.ts:180-206 | with the link up there is no window; with it down, it is the stretch since the poll where the link was first seen down or the counter last read less than before |
| `ResyncLoop.FiresIff` | proprietary/anomaly-detection/stuck-replica-detector.ts:223-230 | a poll fires exactly when that window has lasted five minutes and contains two failed sync attempts, and no earlier poll of it delivered a finding |
| `ResyncLoop.WindowIsUnbroken` | proprietary/anomaly-detection/stuck-replica-detector.ts:186-206 | within a window the link is down throughout and the server's down counter never falls |

## Left out

- TuningPolicy.Recommend: the messages and the average similarities returned with a recommendation are not modelled; samples, configuration and history are values already read, without malformed history entries.
- TuningRuns.NoRunawayStreak: stated for one category-less threshold, a fixed band and strict changes, because history entries do not name a category.
- EventStore.AtMostOneOpenEventIff: ids are fresh numbers, rows of other producers with the gate's metric do not count towards the 100-row limit, and re-saving by correlation is not modelled.
- ProposalLifecycle.OneDispatchPerRequest: one proposal row; duplicate detection, estimated counts, the rate limit and the outcome's own storage are not part of the protocol model.
- GhostHistory.GhostMembershipHistory.EvictStaleDepartures: which of several equally old departures the ceiling drops is left open; canonical endpoints of rejoins are not modelled.
- RateLimiter.WindowNeverOverfull: no `reset`, which forgets grants on purpose.
- AclDigest.TokenizeAclLine: characters are code points, while the source sorts by UTF-16 code units; sha256 is an arbitrary function to eight bytes.
- AclDrift.DetectAclDrift: the order of a drift's nodes (a locale comparison) and its signature text are not modelled.
- AuthFailures.AuthFailureDetector.Accumulate: entry identity is the tuple of its five fields rather than their joined text, and the address is taken as parsed; addresses of one scan come in no particular order before they are sorted.
- FailoverChurn.FailoverChurnDetector.Evaluate: findings are a map by shard, so their order in the list is not modelled; the shard key is the list of sorted ranges rather than its text.
- BulkDelete.RunBulkDelete: per-node progress is a value stored back into its list, so aliasing of the live progress object is not modelled; a scan or unlink that throws, pacing between batches and the progress callback are left out; a run starts from the fresh progress object its only caller passes.
- Glob.CatchAllIff: the matcher is the glob language as keys are matched in full; the server's nesting limit, and its shortcut for the empty key under a pattern of several stars, are not modelled.
- CobPressure.FindingIff: one replica's entry at a time; the resync-loop coincidence of vanished replicas and the expiry of entries are not modelled.
- Correlator.Correlator.CreateGroup: pattern rules and diagnosis text are not modelled; fresh identifiers are numbers.
- Floating-point rounding: statistics, ratios and thresholds are real numbers, and a standard deviation is any non-negative root of the variance.
- Per-connection maps, NestJS wiring, controllers, licences, logging, messages, Prometheus, OTLP and webhook dispatch: plumbing around the modelled decisions.
- Detectors that are one filter over a snapshot (stuck replicas, hostname staleness, lagging promotion, large replies, configuration drift): their claims follow from reading one loop.
- Agent gateway sockets and reconnects, storage adapters beyond the calls above, benchmarks, command-line tools and the chat assistant.
