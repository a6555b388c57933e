# A verified model of the Linien gateway's lock control

Dafny models of the parts of the gateway that decide what happens to a laser lock, and of the
concurrent plumbing around them, with proofs of what those parts promise. Voltages, times and
signal values are exact reals; every constant in the code is an exact rational.

The project follows the program's components, one module a file:

* **Refinement walk.** `AutoLockSettings`, `LockAcceptance`, `LockRefinement` and
  `RefinementPlanner` are the pure arithmetic that plans one stage. `IdentityGuards`,
  `RefinementWalk`, `FreshTrace` and `AutoLock` are the code that runs it: an adversarial device
  and detector may answer anything at any step, and the log of what was commanded and captured is
  what the contracts speak about. `FreshTrace` is exact about what a capture's wait for newer stamps is
  worth.
* **Relock.** `AutoRelock` is the controller, as functions of its state and as the object that
  updates itself; `AutoRelockRuns` is about whole input histories; `RelockDispatch` interleaves the
  poll thread, the workers, the configuration route and a draining disconnect.
  `LockIndicator` is the hysteresis that tells the controller a lock is lost, and `RelockTrigger`
  puts the two together: what an attempt says about the frames before it.
* **Detection and calibration.** `Crossings`, `ExtremaPairs`, `CoarseTracker`, `LockDetector`,
  `Calibration`, with `Ranking` for the first-best choice both detectors make. The fast searches are methods proved equal to plain ones. `WalkDetectors` shows
  that these detectors give the refinement walk what it assumes of its adversary.
* **Settings.** `ParameterServer` (clamping setter, change queues) and `SettingsSync` (echo
  suppression and convergence of the persisted snapshot).
* **Streaming.** `PlotFrameCodec` (byte-level frame and its decoder), `PlotSender` (throttle, slot,
  reliable queue, wake event).
* **Diagnosis and telemetry.** `DiagnosisProbe` (scheduler), `TelemetryCache` (sequence-number guard).

How the interleaved parts are modelled: each lock-protected block is one step, any enabled step may
come next, and a theorem about "every run" quantifies over every finite sequence of steps. Fields
marked as history in a comment are never read by the modelled code.

Where the code and its documentation differ the model follows the code: the planner's documentation
lists a rail escape among its actions, the code never returns one, and the model has none.

What the identity check amounts to: by design a better resolved spacing replaces its baseline unjudged. That
is so after any cut of more than 0.1 % (`SpacingIsJudgedIff`), so over a run of cuts the slope alone
identifies the feature (`OutResolvingRunIsAccepted`); drift is bounded only between cuts
(`AcceptedRunKeepsIdentity`).

What the proofs found. Each is stated with the exact condition under which the code does meet the
property, and with runs on which it does not:

* Waiting for two newer stamps is documented to yield a sweep the board made after the mark. It yields one
  fetched after the mark. It can have been published before: a sweep may wait in the queue, and a board that
  has stopped has its last value re-read and stamped again (`TwoAdvancesAreNotEnough`,
  `NoCountSufficesOnRereads`, `CaptureCanJudgeOlderSweep`). The gateway can be sure exactly when a sweep
  from the queue follows another fetched after the mark (`SurelyNewerIffGuarded`), and three stamps from the
  queue ensure that (`ThreeAdvancesSuffice`).
* A narrowing raised by the crop floor is sized to keep the target in the inner 90 % of the next
  window, but the centre is then recomputed against a tighter rail and can leave it nearer the edge
  (`KeepFractionIff`, `KeepFractionCanBeLost`). Plain containment always holds.
* A late "relock" result can be credited to a newer attempt, and a worker can be started for an
  attempt already settled, because the claim is not atomic with the tick that handed the action out
  (`ReportReachesOwnAttemptIffLive`, `LateResultCanBeCreditedToNewerAttempt`,
  `ClaimIsLiveIffStillPending`, `SettledAttemptCanBeRunAgain`).
* The parameter setter stores and announces in two steps without a lock. Two clients writing one
  parameter at once can leave the gateway's snapshot on the overwritten value for good
  (`SnapshotIsServerIff`, `RacedWritesCanDiverge`).
* A plot frame whose first series is empty while a later one is not does not survive the wire; every
  other frame does (`RoundTripIffNoLeadingGap`).
* Calibration on a trace that never changes sign can produce settings its own self-check rejects: it accepts
  exactly the traces as tall as the floor derived from them (`SelfCheckFindsIff`, `CalibrateOffsetTrace`).
  With the monitor in use the calibrated crossing is accepted exactly when its level lies in the range
  thresholds are clamped to (`AnchorIsAccepted`).
* For a monitor dip the coarse tracker reports, as monitor level, the level's mirror image in the baseline
  (`CoarseTracker.RatedExactlyWhen`).
* A telemetry poll reads the install record before it captures its sequence number, and counts an
  unanswered version probe outside the guard (`PolledInstallFlagIsCurrentIff`,
  `UninstallCanBeUndone`, `GivenUpExactlyWhen`, `StaleProbeStillCounts`).

## Model

| member | source | states |
|---|---|---|
| AutoLockSettings.TooWideIffAboveMaxLockable | linien-gateway/app/auto_lock_scan.py:169-221 | for a PDH signal of known spacing, on any scan with a span, "too wide to lock" holds exactly above `max_lockable_amplitude_v` |
| AutoLockSettings.IndexVoltageInWindow | linien-gateway/app/auto_lock_scan.py:597-603 | every position inside the trace maps to a voltage inside the scanned window |
| AutoLockSettings.VoltageScale | linien-gateway/app/auto_lock_scan.py:597-603 | the first sample lies at the lower edge of the scan, the last at the upper, the others evenly between |
| AutoLockSettings.HalfRangeInSamples | linien-gateway/app/auto_lock_scan.py:547-562 | the half-width in samples is the half-width in volts to half a sample, except where it is clamped |
| LockAcceptance.WindowLeavesCorrectionZone | linien-gateway/app/lock_acceptance.py:60-142 | wherever a neighbour guard exists the acceptance window is strictly inside it, an accepted landing is nearer the feature asked for than either neighbour, and the window is only ever narrowed |
| LockAcceptance.AcceptedWithin | linien-gateway/app/lock_acceptance.py:60-142 | exactly which offsets are accepted and which are past the guard: capture fraction, half the guard, correction span, 40 % of the sideband spacing |
| LockRefinement.RecenterIsSafe | linien-gateway/app/lock_refinement.py:117-177 | a bounded recentre stays on scale, moves no more than its bound, only towards the target, and keeps an in-window target in the window |
| LockRefinement.BoundIsAllThree | linien-gateway/app/lock_refinement.py:117-177 | a recentre may go exactly as far as a quarter half-range, the allowed signal widths and the stage budget all allow |
| LockRefinement.AllowanceIsBoth | linien-gateway/app/lock_refinement.py:180-196 | a stage may move the feature exactly as far as a quarter half-range and the allowed number of full signal widths both allow |
| LockRefinement.HoldsIsUpwardClosed | linien-gateway/app/lock_refinement.py:199-264 | if one amplitude holds the predicted residual then so does every wider one |
| LockRefinement.MinSafeAmplitudeIsLeast | linien-gateway/app/lock_refinement.py:199-264 | the result is the least amplitude in [floor, amplitude) that holds the residual, and there is none exactly when none exists |
| LockRefinement.MinSafeAmplitudeIsMonotone | linien-gateway/app/lock_refinement.py:199-264 | a larger offset or a larger shift coefficient never lets a smaller amplitude through |
| RefinementPlanner.PlannedGeometryIsSafe | linien-gateway/app/lock_refinement.py:357-474 | from an on-scale geometry and an in-window target every commanded step stays on scale with the same slack and still contains the target it was planned from, crop floor included |
| RefinementPlanner.KeepFractionIff | linien-gateway/app/lock_refinement.py:426-441 | from any geometry the walk reaches, a crop-floor narrowing keeps the target in the inner 90 % exactly when the first centre already respected the tighter rail or the target is 10 % of the new half-range off the limit; every other narrowing keeps it |
| RefinementPlanner.KeepFractionCanBeLost | linien-gateway/app/lock_refinement.py:426-441 | a concrete geometry on which the fraction is lost |
| RefinementPlanner.PlannedStepProgresses | linien-gateway/app/lock_refinement.py:298-474 | a narrowing lands at or above the goal and below the present amplitude by more than 1e-9; a recentring keeps the amplitude and moves more than 1e-6 V towards the target |
| RefinementPlanner.RefusalIsForced | linien-gateway/app/lock_refinement.py:396-470 | whichever reason a refusal gives: from no centre within the stage bound and the rails does any cut of more than 1e-9 keep the target and the shift it causes in the inner 90 % of the window, and a pinned view cannot be brought nearer the target by more than 1e-6 V either |
| RefinementPlanner.DoneExactlyWhen | linien-gateway/app/lock_refinement.py:298-355 | the planner stops exactly when the strict detector accepts a scan whose signal fills the required part of it, when the amplitude is at the goal to 1e-9, or when even the capped cut would be under 1e-9, which takes a scan of 1e-8 or less |
| RefinementPlanner.GoalIsWidest | linien-gateway/app/lock_refinement.py:303-313 | an amplitude is at the goal exactly when the half-width takes up ten samples and the sideband spacing the required fraction of the half-range |
| RefinementPlanner.CutIsDeepestAllowed | linien-gateway/app/lock_refinement.py:323-347 | the scheduled cut is the deepest allowed: not past the goal, by half above four goals and a quarter below, and predicted to shift the feature no further than the allowance unless by a tenth |
| RefinementPlanner.BudgetIsWhatIsLeft | linien-gateway/app/lock_refinement.py:357-395 | the centre may use exactly what the predicted shift of the cut leaves of the allowance |
| RefinementPlanner.CommitsLeastSafe | linien-gateway/app/lock_refinement.py:396-474 | the amplitude committed to is the least from the scheduled one up that keeps the target; a narrowing is written exactly if that is a real cut |
| RefinementPlanner.StageSpendsOneBudget | linien-gateway/app/lock_refinement.py:333-441 | centre move plus predicted width shift of one stage stay within one allowance, or a tenth of the shift coefficient, up to 2e-9 V, also after the crop floor raised the amplitude |
| RefinementPlanner.StillFeatureRunIsFinite | linien-gateway/app/session.py:2893-3046 | for a feature that stays put the number of stages is bounded by the starting geometry alone, whatever spacing, detector and shift estimates do |
| RefinementPlanner.CentredFeatureReachesGoal | linien-gateway/app/lock_refinement.py:298-355 | n stages bring a centred still feature from Reach(n) times the goal down to the goal |
| RefinementPlanner.StageBudgetSuffices | linien-gateway/app/session.py:2893-2901 | the 16-stage budget is enough from up to 8192 times the goal |
| RefinementPlanner.StrictAtGoalEndsWalk | linien-gateway/app/session.py:2893-2896 | at the goal amplitude a strict detection with a measured spacing is not too wide, so the walk ends |
| IdentityGuards.IdentityGuard.Examine | linien-gateway/app/lock_refinement.py:519-578 | slope first, then adopt, judge or skip the sideband spacing; the new baselines in full |
| IdentityGuards.SpacingRefusedWhen | linien-gateway/app/lock_refinement.py:536-578 | a check fails on the spacing exactly if it is compared with a baseline no worse resolved to 0.1 % and differs by more than 35 % and more than one sample; on the slope exactly if that differs |
| IdentityGuards.AcceptedRunKeepsIdentity | linien-gateway/app/lock_refinement.py:477-578 | over any accepted run every candidate has the seed's slope, and while nothing out-resolves an estimator's baseline every reading of it is within tolerance of that one baseline: drift does not accumulate |
| IdentityGuards.SlopeOnly | linien-gateway/app/lock_refinement.py:519-545 | with the spacing not compared only the slope decides and no baseline moves |
| IdentityGuards.OutResolvingRunIsAccepted | linien-gateway/app/lock_refinement.py:536-578 | over a run of checks each better resolved than the last no spacing is judged: the slope alone decides, and the last spacing is the baseline |
| RefinementWalk.SpacingIsJudgedIff | linien-gateway/app/lock_refinement.py:536-578 | a spacing is judged against its baseline exactly when the scan has not become narrower by more than 0.1 % since; after a scheduled cut it replaces the baseline, whatever it is |
| RefinementWalk.ShiftEstimateCovers | linien-gateway/app/session.py:2975-3015 | after every stage that speaks for the width, the estimate predicts at least the shift just seen |
| RefinementWalk.EstimateIsWorstSeen | linien-gateway/app/session.py:2975-3015 | over a whole walk the estimate covers the shift of every stage that narrowed by more than 5 % without moving the centre more than the width under one detector, is attained by one of them, and is absent if there was none |
| RefinementWalk.SweepRig.Capture | linien-gateway/app/session.py:2763-2828 | a capture answers from the sweep in hand and the geometry read back, after two newer stamps if it was given a mark; that sweep was then fetched after the mark, and published after it if it is guarded |
| RefinementWalk.NarrowToGoal | linien-gateway/app/session.py:2893-3046 | at most 16 geometry writes; on return the last view is a strict detection on a scan its signal fills, or at the goal amplitude, or on a scan of 1e-8 or less; it gives up only on a scan still too wide, when sixteen stages are spent, the planner refuses, or the last event shows why the stage failed; the shift estimate is what the measuring stages taught; any look with the wrong slope ends it as an identity failure; on a faithful device every write is on scale and contains the target it was planned from |
| RefinementWalk.Stage | linien-gateway/app/session.py:2920-3046 | one write, of exactly the planned geometry; a refused write ends the stage, otherwise looks at sweeps fetched after the write follow and the last one alone decides: outcome, baselines and the next view - geometry, target voltage, spacing and detector as seen, and the shift estimate raised to this stage's shift exactly if the stage speaks for the width |
| RefinementWalk.OutcomeExactly | linien-gateway/app/session.py:2953-3036 | which look ends a walk and as what: no trace, a rejection, another slope or spacing, an amplitude that did not follow; otherwise the next view |
| RefinementWalk.Redetect | linien-gateway/app/session.py:2926-2974 | strict first only after a narrowing, tracker only after a rejection, each on a sweep fetched after the move |
| WalkDetectors.DetectorsStayInTrace | linien-gateway/app/session.py:2763-2828 | whatever the traces and the geometry read back, the strict detector and the tracker report positions inside their traces, as the walk assumes |
| AutoLock.VerdictIffAgree | linien-gateway/app/session.py:3093-3170 | the ordered final checks fail for none exactly when both detections agree on geometry to 1e-6 V, on the slope, to within the neighbour guard, and on a drift that at its rate stays inside the acceptance window or one sample while the mechanics settle; otherwise which check fails |
| AutoLock.DriftGate | linien-gateway/app/session.py:3129-3170 | the gate without quotients is the code's: rate over the interval, prediction over the settle time, tolerance |
| AutoLock.VerifyTwice | linien-gateway/app/session.py:3055-3170 | success means two strict detections, each on a sweep fetched after its own mark, that agree over the very interval the clock showed between them, drift included; a failure names the check that failed; the first may be retried once; no baseline moves |
| AutoLock.FirstDetection | linien-gateway/app/session.py:3057-3069 | a first frame that is not accepted is followed by exactly one more, under a mark of its own |
| AutoLock.SecondDetection | linien-gateway/app/session.py:3080-3085 | the second detection is on a sweep fetched after its mark, and the interval is the clock around its capture |
| AutoLock.IntervalIsClocked | linien-gateway/app/session.py:3080-3085 | that interval is the difference of the two clock readings, and zero if the clock went back |
| AutoLock.ConfirmIdentity | linien-gateway/app/session.py:3077-3088 | a final detection must exist and have the seed's slope |
| AutoLock.NarrowAndVerify | linien-gateway/app/session.py:2893-3187 | at most 16 writes; success ends verified, and no success follows a look with the wrong slope; it fails only because the walk gave up for a reason its events show, or arrived and the final detections were refused |
| AutoLock.TrajectoryRefine | linien-gateway/app/session.py:2830-3210 | normal return: at most 16 writes and the two verified detections last; any failure is one of those and ends by trying to write the original geometry; on a faithful device every stage is on scale and keeps its target in view |
| AutoLock.LockSession.AutoLockFromScan | linien-gateway/app/session.py:3213-3364 | at most one lock start, last and on a strict detection; none after an identity failure or after any look that contradicts the seed; a completed walk hands over from its two verified detections with nothing in between, and without a walk the scan is one narrow enough to lock; it gives up only for a reason the events show, and a failure that wrote anything ends by restoring; only a completed refinement leaves a deferred restore; on a well-behaved device every stage was safe |
| AutoLock.LockSession.DetectOrRefine | linien-gateway/app/session.py:3240-3323 | exactly when a strict detection is used as is, when the walk decides, and when a failed walk falls back to the detection it started from; the walk's identity failure is never overridden |
| AutoLock.LockSession.FirstLook | linien-gateway/app/session.py:3249-3263 | the tracker is asked only when the strict detector rejects the trace |
| AutoLock.LockSession.MoveAndLock | linien-gateway/app/session.py:3324-3336 | the lock is not started when the move fails, and a failed hand-over of a refined scan is undone |
| AutoLock.LockSession.StartSweep | linien-gateway/app/session.py:3465-3480 | a deferred geometry is written once, right after the sweep start |
| AutoLock.LockSession.OperatorSetsGeometry | linien-gateway/app/session.py:2480-2498 | the operator's own sweep centre or amplitude goes out and changes only itself, and cancels a pending restore even if it does not get through |
| FreshTrace.WaitForFreshTrace | linien-gateway/app/session.py:2571-2585 | true exactly when the stamp is seen to advance as often as wanted past the mark within the deadline |
| FreshTrace.DeadlineAllows | linien-gateway/app/session.py:2571-2573 | one timeout for each frame wanted, at least one |
| FreshTrace.SecondAdvanceIsFetchedLater | linien-gateway/app/session.py:2560-2567 | after two advances the sweep in hand was fetched after the mark |
| FreshTrace.SurelyNewerIffGuarded | linien-gateway/app/session.py:2553-2567 | what the gateway sees makes it sure that a sweep was published after the mark exactly when, up to it, one that came through the queue follows another fetched after the mark |
| FreshTrace.GuardOnTheQueue | linien-gateway/app/session.py:2560-2567 | while all sweeps come through the queue that is: the sweep before it was fetched after the mark |
| FreshTrace.ThreeAdvancesSuffice | linien-gateway/app/session.py:2571-2582 | three advances, the last two through the queue, are enough |
| FreshTrace.TwoAdvancesAreNotEnough | linien-gateway/app/session.py:2564-2567 | a run on the queue in which the second sweep was published before the mark |
| FreshTrace.NoCountSufficesOnRereads | linien-gateway/app/session.py:1669-1676 | no number of advances is enough while the poll loop re-reads the value of a board that has stopped |
| FreshTrace.ArrivedIsFetchedAfter | linien-gateway/app/session.py:2777-2784 | the sweep in hand after a wait was fetched after the mark, and published after it if it is guarded |
| FreshTrace.CaptureCanJudgeOlderSweep | linien-gateway/app/session.py:2777-2784 | on either path, a whole capture that ends with a sweep published before its mark |
| FreshTrace.OneFrameIsNotEnough | linien-gateway/app/session.py:2560-2566 | a run in which the one newer stamp belongs to a sweep fetched before the mark |
| AutoRelock.Clamped | linien-gateway/app/auto_relock.py:49-72 | every limit is raised to its floor by the least change: 0.05 s, 0.05 s, 0 s, 0.1 s and one attempt |
| AutoRelock.AutoRelockController.TickNow | linien-gateway/app/auto_relock.py:186-295 | the object's tick moves every field, emits and answers as the state function says |
| AutoRelock.AutoRelockController.CompleteAction | linien-gateway/app/auto_relock.py:297-328 | a result is folded in only if that action name is pending |
| AutoRelock.AutoRelockController.SetConfig | linien-gateway/app/auto_relock.py:333-347 | disabling drops everything but the configuration |
| AutoRelockRuns.AttemptRateIsBounded | linien-gateway/app/auto_relock.py:134-184 | under one configuration any max_attempts + 1 successive attempts span at least cooldown_s |
| AutoRelockRuns.StepKeepsBudget | linien-gateway/app/auto_relock.py:134-184 | one timed step spends, keeps or refills the attempt budget and never overdraws it |
| AutoRelockRuns.AttemptsAreConserved | linien-gateway/app/auto_relock.py:144-184 | attempts = successes + failures (other than max_attempts_reached) + cancellations by disable + the open one |
| AutoRelockRuns.UnprimedAttemptNeedsLostRun | linien-gateway/app/auto_relock.py:242-295 | an attempt no failure primed ends an unbroken run of locked-but-lost ticks of at least trigger_hold_s |
| AutoRelockRuns.AttemptStartsExactlyWhen | linien-gateway/app/auto_relock.py:268-295 | with nothing pending, no retry primed and budget left, a tick looking for a lost lock starts an attempt exactly when it finds the lock lost and the unbroken lost ticks before it began at least trigger_hold_s ago |
| AutoRelockRuns.ExhaustedExactlyWhen | linien-gateway/app/auto_relock.py:168-184 | with the budget spent the same tick records max_attempts_reached instead |
| AutoRelockRuns.SuccessNeedsHealthyRun | linien-gateway/app/auto_relock.py:242-265 | success ends an unbroken healthy run of at least verify_hold_s that follows the relock's completion |
| AutoRelockRuns.SuccessExactlyWhen | linien-gateway/app/auto_relock.py:242-265 | while a relock is verified, a tick declares success exactly when it is healthy and the unbroken healthy run it ends has lasted verify_hold_s since the relock report |
| AutoRelockRuns.RunsAreKept | linien-gateway/app/auto_relock.py:186-347 | in every reachable state the two remembered times are the starts of those two runs of the history, and nothing else is remembered |
| AutoRelockRuns.QuietRunIsRun | linien-gateway/app/auto_relock.py:268-295 | the runs counted are runs of consecutive lost, or healthy, ticks |
| AutoRelockRuns.RelockAskedExactlyWhen | linien-gateway/app/auto_relock.py:225-234 | a waiting attempt asks for the relock exactly when a trace no older than the sweep report is in |
| AutoRelockRuns.CooldownIsEntered | linien-gateway/app/auto_relock.py:134-184 | a success, and a failure with the budget spent, open a cooldown of exactly cooldown_s with the budget refilled |
| AutoRelockRuns.RetryIsPrimed | linien-gateway/app/auto_relock.py:144-166 | any other failure keeps the count and primes a retry |
| AutoRelockRuns.CooldownIsSilent | linien-gateway/app/auto_relock.py:208-223 | before a cooldown is over ticks change nothing; a tick while disabled leaves a fresh controller |
| AutoRelockRuns.ReportExactly | linien-gateway/app/auto_relock.py:297-328 | a report counts only for the action awaited, and what its success and its failure lead to |
| AutoRelockRuns.TimeoutExactlyWhen | linien-gateway/app/auto_relock.py:225-240 | a waiting attempt times out exactly when no sweep newer than its sweep report has come in for the whole timeout |
| AutoRelockRuns.VerifyFailsExactlyWhen | linien-gateway/app/auto_relock.py:242-262 | a verification fails exactly at an unhealthy tick after the grace period counted from the relock report |
| AutoRelockRuns.RetryFiresAtOnce | linien-gateway/app/auto_relock.py:144-166 | after a failure with budget left the next tick returns "sweep" whatever lock, indicator and trace say |
| AutoRelockRuns.RunStaysCoherent | linien-gateway/app/auto_relock.py:186-347 | what pending action, phase and timers go together in every reachable state |
| RelockDispatch.AtMostOneWorker | linien-gateway/app/session.py:2588-2646 | in every interleaving at most one worker is in flight, it is exactly the holder of the action lock until its result is applied, and no worker reports twice |
| RelockDispatch.LockFollowsClaim | linien-gateway/app/session.py:2588-2646 | the lock is taken by the claim, passes to the worker, is released after its report, and is released if the thread cannot start |
| RelockDispatch.NoTimeoutUnderWorker | linien-gateway/app/auto_relock.py:225-240 | with non-decreasing trace stamps no tick times out an attempt whose worker has not reported |
| RelockDispatch.ReportReachesOwnAttemptIffLive | linien-gateway/app/auto_relock.py:297-328 | a report settles the attempt it was run for exactly while nothing else has; otherwise it is ignored or credited to a strictly newer attempt |
| RelockDispatch.LateResultCanBeCreditedToNewerAttempt | linien-gateway/app/auto_relock.py:311-328 | a run in which that happens |
| RelockDispatch.SettledAttemptCanBeRunAgain | linien-gateway/app/session.py:2332-2346 | a run in which a second worker is started for an attempt already settled; `ClaimIsLiveIffStillPending` says exactly when |
| RelockDispatch.ClaimIsLiveIffStillPending | linien-gateway/app/session.py:2588-2634 | a job about to be claimed or started is for an attempt still open exactly while the controller still waits for "relock" |
| RelockDispatch.LiveAttemptIsRunOnce | linien-gateway/app/session.py:2588-2634 | whoever is about to run an open attempt is the first to |
| RelockDispatch.StepKeepsInv | linien-gateway/app/session.py:2318-2362 | every step of every thread keeps the bookkeeping consistent |
| RelockTrigger.UnprimedAttemptAnswersOutage | linien-gateway/app/session.py:2301-2324 | indicator and controller together: an attempt no failure primed comes after every frame of the last trigger_hold_s was locked and bad, in an outage that began with a bad run of bad_hold_s or a hard failure |
| LockIndicator.LockIndicatorEvaluator.Update | linien-gateway/app/lock_indicator.py:188-299 | the running durations give the state that the whole history of frames defines |
| LockIndicator.LockIndicatorEvaluator.SetConfig | linien-gateway/app/lock_indicator.py:147-159 | a new configuration starts every run over and keeps the state |
| LockIndicator.StateExactly | linien-gateway/app/lock_indicator.py:270-299 | on a judged frame, "lost" exactly when it is bad and the bad frames it ends have lasted bad_hold_s or hold a hard failure; "locked" exactly when it is good and nothing was wrong before or the good frames have lasted good_hold_s |
| LockIndicator.BadExactlyWhen | linien-gateway/app/lock_indicator.py:206-270 | a frame is bad exactly when some reason applies |
| LockIndicator.ReasonsExactly | linien-gateway/app/lock_indicator.py:206-270 | each reason is given exactly when its own condition on signals, thresholds and, for the control signal, time holds |
| LockIndicator.HardExactlyWhen | linien-gateway/app/lock_indicator.py:226-248 | a hard failure is a control signal in use that has not moved for control_stuck_time_s |
| LockIndicator.UnjudgedExactly | linien-gateway/app/lock_indicator.py:188-209 | a disabled or unlocked frame reads "unknown" with its reason; a reconfiguration changes no reading |
| LockIndicator.TimeDelta | linien-gateway/app/lock_indicator.py:172-178 | the first frame is credited 0.1 s, every other the time since the last, held between 0.02 s and 2 s whatever the clock does |
| LockIndicator.LockedOnlyAfterGoodRun | linien-gateway/app/lock_indicator.py:276-299 | from "marginal" or "lost", with no unlocked or disabled frame between, "locked" first appears at the end of an unbroken good run of good_hold_s |
| LockIndicator.RecoveryTakesFrames | linien-gateway/app/lock_indicator.py:172-178 | that run has at least good_hold_s / 2 frames, so a clock jump cannot fake it |
| LockIndicator.GoodRunIsUnbroken | linien-gateway/app/lock_indicator.py:276-299 | the good run is made of consecutive judged frames with nothing wrong |
| LockIndicator.LostOnlyAfterBadRun | linien-gateway/app/lock_indicator.py:276-289 | "lost" first appears on a hard failure or at the end of a bad run of bad_hold_s |
| LockIndicator.LostHasOnset | linien-gateway/app/lock_indicator.py:276-289 | every "lost" goes back to an onset: the frame at which a bad run or a hard failure made it so |
| LockIndicator.StuckRunIsUnbroken | linien-gateway/app/lock_indicator.py:226-248 | the stuck time behind a hard failure is that of consecutive stuck frames |
| Crossings.ExtractCrossingCandidates | linien-gateway/app/auto_lock_scan.py:565-594 | the loop collects, in order and without repeats, the nominated samples, or the near-zero ones if there are none |
| Crossings.CandidatesAreTheCrossings | linien-gateway/app/auto_lock_scan.py:565-594 | if the trace crosses zero at all, the candidates are exactly its crossings |
| Crossings.NominatesNearer | linien-gateway/app/auto_lock_scan.py:565-583 | a pair of samples nominates exactly if it reaches or passes zero, and then the nearer one, the earlier on a tie |
| Crossings.SignChangeHasCrossing | linien-gateway/app/auto_lock_scan.py:565-594 | between a sample below zero and one above lies a crossing |
| Crossings.EstimateIsNearestZero | linien-gateway/app/auto_lock_scan.py:606-637 | the sub-sample estimate is a zero of the interpolated trace and no zero of the adjoining segments is nearer |
| Crossings.EstimateIsNearer | linien-gateway/app/auto_lock_scan.py:606-637 | of the zeros either side of the candidate the nearer, the left one on a tie |
| Crossings.EstimateIsInTrace | linien-gateway/app/auto_lock_scan.py:606-637 | the estimate is within one sample of its candidate and inside the trace |
| Crossings.ExcursionsFitTrace | linien-gateway/app/auto_lock_scan.py:1034-1047 | excursions are non-negative and together fit the peak-to-peak of a sign-changing trace |
| Crossings.LobesFromSamples | linien-gateway/app/auto_lock_scan.py:1034-1047 | rising: how far the window left of the anchor dips below zero and the one right of it rises above; falling: the mirror image |
| Crossings.LevelFromSamples | linien-gateway/app/auto_lock_scan.py:529-544 | the on-resonance level is the highest sample of the window for a peak and the lowest for a dip, and the contrast how far it lies beyond the baseline that way |
| Crossings.SpacingIsBalanced | linien-gateway/app/auto_lock_scan.py:43-63 | a spacing is reported exactly for two real sides that differ by at most 35 % of the wider, half-way between them, whichever is which |
| ExtremaPairs.SearchSorted | linien-gateway/app/auto_lock_scan.py:352-376 | bisection finds the cut between entries below the limit and the rest |
| ExtremaPairs.RunningFirstLeast | linien-gateway/app/auto_lock_scan.py:382-389 | one pass of running minima gives the first argmin of every prefix |
| ExtremaPairs.FastPairs | linien-gateway/app/auto_lock_scan.py:370-390 | bisection plus the running argmin enumerate what the plain double loop does, in the same order |
| ExtremaPairs.PairsFromAreAll | linien-gateway/app/auto_lock_scan.py:370-390 | those are exactly the right extrema within the gap, each with the first minimum of the magnitude over its segment |
| ExtremaPairs.NaivePairsAreAll | linien-gateway/app/auto_lock_scan.py:370-390 | over all left extrema, the pairs are exactly those within the gap |
| ExtremaPairs.Extrema | linien-gateway/app/auto_lock_scan.py:365-367 | the extremum lists, in order |
| ExtremaPairs.ExtremaBelowIs | linien-gateway/app/auto_lock_scan.py:365-367 | they are ascending and hold exactly the interior extrema |
| ExtremaPairs.ExtremumStandsOut | linien-gateway/app/auto_lock_scan.py:365-367 | no less than the sample before and more than the one after |
| ExtremaPairs.OppositeSlopeCrossings | linien-gateway/app/auto_lock_scan.py:331-350 | ascending, and exactly the candidates away from the ends whose local slope is opposite |
| ExtremaPairs.TwoSidedSidebands | linien-gateway/app/auto_lock_scan.py:352-361 | two bisections find the nearest qualifying crossing on each side that an outward scan would |
| ExtremaPairs.SidebandsFromCrossings | linien-gateway/app/auto_lock_scan.py:352-361 | that is half the distance between the nearest qualifying crossings, exactly when both sides have one and balance |
| CoarseTracker.FindCoarseTarget | linien-gateway/app/auto_lock_scan.py:283-491 | the tracker answers what the plain search over every pair, sample and smoothing answers, errors included |
| CoarseTracker.CoarseTargetIsBestPair | linien-gateway/app/auto_lock_scan.py:283-491 | it finds a target exactly when some pair passes the gates; the target is such a pair's crossing with the slope searched for, none scores higher, and its voltage is that of the crossing and lies in the window |
| CoarseTracker.RefusedExactlyWhen | linien-gateway/app/auto_lock_scan.py:457-463 | each refusal exactly when: too short, or nothing to track, the monitor named exactly if it rejected a pair |
| CoarseTracker.PairsLookedAt | linien-gateway/app/auto_lock_scan.py:311-390 | exactly the troughs and later peaks, or the reverse, within six half-widths and a quarter of the trace |
| CoarseTracker.SpacingOfPair | linien-gateway/app/auto_lock_scan.py:331-361 | a spacing only for PDH, to candidates off the ends with the opposite local slope, outside the pair's own window |
| CoarseTracker.TargetReports | linien-gateway/app/auto_lock_scan.py:464-487 | spacing in volts and frequency scale, reported exactly when the scan resolves them |
| CoarseTracker.TrackJoinsLobes | linien-gateway/app/auto_lock_scan.py:363-409 | a track is, on the trace, a trough then a peak for a rising feature and the reverse for a falling one, near enough, with the crossing at the least magnitude between |
| CoarseTracker.RatedExactlyWhen | linien-gateway/app/auto_lock_scan.py:391-445 | a pair is tracked exactly if its lobes are six times the noise and the smaller 12 % of the larger, and the monitor in use is on its side |
| CoarseTracker.WorthIs | linien-gateway/app/auto_lock_scan.py:410-445 | the score of a track |
| LockDetector.FindAutoLockTarget | linien-gateway/app/auto_lock_scan.py:724-913 | the loop answers what judging every candidate answers, with the code's order of errors |
| LockDetector.DetectionIsBestAccepted | linien-gateway/app/auto_lock_scan.py:779-913 | on a live trace it succeeds exactly when some candidate passes every gate; the winner passes them, keeps two samples from the ends, obeys the slope preference, and none scores higher |
| LockDetector.RefusedExactlyWhen | linien-gateway/app/auto_lock_scan.py:740-913 | each refusal exactly when, the slope hint before the monitor |
| LockDetector.AcceptedExactlyWhen | linien-gateway/app/auto_lock_scan.py:779-880 | the verdict on a candidate from its lobes and monitor level: each of acceptance, monitor veto, end, and slope-hint rejection exactly when, and the score of an accepted one |
| LockDetector.WinnerHasItsSlope | linien-gateway/app/auto_lock_scan.py:779-913 | where balance is asked for, a rising winner has a sample below zero on its left and one above on its right inside its window; a falling one the reverse |
| LockDetector.GatesAreOpen | linien-gateway/app/auto_lock_scan.py:805-850 | the lobe gates: enough pair and balance, or one strong lobe where that is allowed |
| LockDetector.MonitorGate | linien-gateway/app/auto_lock_scan.py:529-544 | the monitor lets a crossing pass exactly if its level is beyond threshold and baseline on the expected side |
| LockDetector.SidebandOffsetPts | linien-gateway/app/auto_lock_scan.py:678-721 | the single pass measures the spacing of the nearest opposite crossings outside the exclusion zone |
| LockDetector.StrictTargetOf | linien-gateway/app/auto_lock_scan.py:915-975 | the voltage lies in the window; the spacing is exactly the measured one in volts, and there is one only for a PDH scan that resolves it |
| LockDetector.SpacingExactly | linien-gateway/app/auto_lock_scan.py:915-945 | when a spacing is reported, and that it is the measured distance in volts |
| LockDetector.OppositeIs | linien-gateway/app/auto_lock_scan.py:698-712 | an opposite crossing passes or reaches zero against the carrier's slope, and is placed at the nearer sample |
| LockDetector.OppositesAre | linien-gateway/app/auto_lock_scan.py:697-712 | they are those of two neighbouring samples |
| Calibration.SelectAnchor | linien-gateway/app/auto_lock_scan.py:1195-1230 | the loop keeps the first best-rated candidate |
| Calibration.BestAnchorIsBest | linien-gateway/app/auto_lock_scan.py:1195-1230 | the anchor is a rated candidate and no candidate rates higher |
| Calibration.BestAnchorIsFirst | linien-gateway/app/auto_lock_scan.py:1195-1230 | and the first of those that rate as high |
| Calibration.AnchorRatedWhen | linien-gateway/app/auto_lock_scan.py:1195-1230 | which candidates are rated, on which slope, and by what |
| Calibration.LobeOffset | linien-gateway/app/auto_lock_scan.py:1067-1113 | the offset is the first turning point of the lobe, or the fallback exactly when the walk never turns: only rising before it, falling after |
| Calibration.HalfWidth | linien-gateway/app/auto_lock_scan.py:1235-1240 | half the width is that of the wider lobe, at least two samples |
| Calibration.HalfWidthCoversLobes | linien-gateway/app/auto_lock_scan.py:1116-1132 | both lobes are searched over half the trace, an eighth standing in for one that never turns, and half the width covers them and no more |
| Calibration.ChooseAnchor | linien-gateway/app/auto_lock_scan.py:1151-1233 | the dominant crossing, or the first of the code's reasons to refuse the trace |
| Calibration.MonitorThresholdAt | linien-gateway/app/auto_lock_scan.py:1287-1323 | the threshold part-way from baseline to level exactly when the monitor deviates the asserted way and strongly enough; otherwise which of the two failed |
| Calibration.ThresholdIsPartWay | linien-gateway/app/auto_lock_scan.py:1306-1323 | the stored threshold is that part of the way from baseline to level, as far as thresholds reach |
| Calibration.ThresholdsAreShares | linien-gateway/app/auto_lock_scan.py:1264-1285 | every derived threshold is its fraction of what was measured, capped; nothing else in the settings changes |
| Calibration.WindowReadsBack | linien-gateway/app/auto_lock_scan.py:1237-1266 | the stored half-range reads back, on any sweep amplitude, as lobe width times margin in samples |
| Calibration.OwnLobesPass | linien-gateway/app/auto_lock_scan.py:1275-1285 | lobes always pass the pair thresholds derived from them |
| Calibration.AnchorIsAccepted | linien-gateway/app/auto_lock_scan.py:1264-1322 | under derived thresholds and a given slope the detector accepts the anchor: always without the monitor, and with it exactly when the measured level is on scale |
| Calibration.CalibratedAnchorIsDetected | linien-gateway/app/auto_lock_scan.py:1332-1341 | under derived thresholds detection succeeds exactly when the trace is as tall as the floor derived from it, so always when it changes sign, and the winner then scores at least as high as the anchor |
| Calibration.SelfCheckFindsIff | linien-gateway/app/auto_lock_scan.py:1325-1347 | for everything calibration can measure on a trace and whose anchor the detector can see (two samples from the ends, measured monitor level on scale), the self-check finds a target exactly when the trace is tall enough |
| Calibration.HighTraceIsRefused | linien-gateway/app/auto_lock_scan.py:1175-1347 | on a trace sitting between 10.0 and 10.4 every answer calibration can give is that its own self-check sees no signal |
| Calibration.CalibrateOffsetTrace | linien-gateway/app/auto_lock_scan.py:1135-1347 | a run of calibration on such a trace |
| Calibration.Calibrate | linien-gateway/app/auto_lock_scan.py:1135-1376 | exactly one of: the code's early refusals in order, or what follows from the dominant crossing, its lobes' window and the thresholds measured there - a monitor refusal, the detector's own failure, another crossing, or success with those very settings |
| Calibration.RefusedEarlyWhen | linien-gateway/app/auto_lock_scan.py:1135-1233 | each early refusal exactly when, in terms of the samples |
| Calibration.ConcludedWhen | linien-gateway/app/auto_lock_scan.py:1287-1357 | success exactly when the monitor is unused or usable and the self-check's winner lies within eight samples, or twice the smoothing, of the anchor; each failure exactly when |
| ParameterServer.SetterIsIdempotent | linien-sim/linien_sim/parameters.py:41-49 | stored values are in range, in-range values are kept, storing twice changes nothing |
| ParameterServer.OutOfRangeGoesTo | linien-sim/linien_sim/parameters.py:41-49 | a value out of range is stored as the nearest one in range, or as the farthest where the parameter wraps between two ends |
| ParameterServer.SimParameters.SetValue | linien-sim/linien_sim/parameters.py:41-49 | the clamped value is stored and queued for every client that listens to the parameter, and for no other |
| ParameterServer.SimParameters.RegisterRemoteListener | linien-sim/linien_sim/parameters.py:249-263 | a new listener starts with the current value queued; registering again changes nothing |
| ParameterServer.SimParameters.UnregisterRemoteListeners | linien-sim/linien_sim/parameters.py:269-274 | the client's queue and listeners go, nobody else's |
| ParameterServer.SimParameters.GetChangedParametersQueue | linien-sim/linien_sim/parameters.py:276-289 | hands out the collapsed queue and empties it |
| ParameterServer.DropSuperseded | linien-sim/linien_sim/parameters.py:281-289 | deleting while scanning backwards yields the collapsed queue |
| ParameterServer.CollapseKeepsLatest | linien-sim/linien_sim/parameters.py:281-289 | collapsing keeps every parameter's newest value and invents none |
| ParameterServer.CollapsePerParameter | linien-sim/linien_sim/parameters.py:281-289 | a collapsed parameter keeps its last change only, any other its whole history in order |
| SettingsSync.PersistentSettings.SetParam | linien-gateway/app/session.py:2480-2498 | pending and snapshot after a write that was delivered and after one that raised |
| SettingsSync.PersistentSettings.AdoptChange | linien-gateway/app/session.py:496-510 | an echo is only ticked off; any other change replaces the snapshot and the pending write |
| SettingsSync.PersistentSettings.UpdatePersistentSetting | linien-gateway/app/session.py:402-427 | reports a change exactly when the snapshot changed |
| SettingsSync.PersistentSettings.ApplyBatch | linien-gateway/app/session.py:1663-1668 | a fetched batch is adopted in order |
| SettingsSync.SettingsConverge | linien-gateway/app/session.py:402-510 | over any interleaving from connect, replay included, a drained queue leaves no write pending and the snapshot equal to what was last announced, which is the server's value wherever no two writers raced |
| SettingsSync.SnapshotIsServerIff | linien-gateway/app/session.py:402-510 | once drained, the snapshot is the server's value exactly when the parameter was not written since connecting or the write announced last carried the value stored last |
| SettingsSync.RacedWritesCanDiverge | linien-sim/linien_sim/parameters.py:41-49 | a run of two racing writers after which the snapshot keeps the overwritten value |
| SettingsSync.PollingDrains | linien-gateway/app/session.py:1663-1668 | with no write under way the poll loop alone reaches that quiet state, in a bounded number of steps |
| SettingsSync.StepKeepsInv | linien-gateway/app/session.py:402-510 | what every step of gateway, server threads and poll keeps about queue, pending writes and snapshot |
| PlotFrameCodec.EncodeFrame | linien-gateway/app/stream.py:165-237 | the buffer the encoder fills, resizing slice assignments included |
| PlotFrameCodec.CollectSeries | linien-gateway/app/stream.py:167-202 | names, arrays and common length of the usable series |
| PlotFrameCodec.RoundTripIffNoLeadingGap | linien-gateway/bench/smoke_binary_ws.py:23-51 | decoding gives back the names in order and every series cut or NaN-padded to the common length, exactly when the first series is not empty before a non-empty one |
| PlotFrameCodec.FrameLayout | linien-gateway/app/stream.py:222-237 | data start on a multiple of four, size is preamble plus 4 bytes a value, and series k fills exactly its own slot |
| PlotFrameCodec.StoredIsFlat | linien-gateway/app/stream.py:230-236 | storing equal-sized slots one after another concatenates them |
| PlotFrameCodec.GapLeavesZeros | linien-gateway/app/stream.py:189-236 | storing an empty first series leaves zeros where its NaNs should be |
| PlotFrameCodec.BytesRoundTrip | linien-gateway/app/stream.py:184-236 | little-endian words survive the byte form |
| PlotFrameCodec.GapsReadAsNaN | linien-gateway/app/stream.py:184-202 | a gap in a list and everything past its end is a float32 NaN, every other value is sent as it is |
| PlotFrameCodec.ByteOrder | linien-gateway/app/stream.py:222-237 | data least significant byte first, the header length most significant first |
| PlotFrameCodec.SampleFrame | linien-gateway/app/stream.py:222-237 | one whole frame byte for byte |
| PlotSender.ConnectionState.BroadcastPlot | linien-gateway/app/stream.py:402-431 | throttle, variant, slot and wake of one offered frame |
| PlotSender.ConnectionState.OfferReliableMessage | linien-gateway/app/stream.py:380-439 | queued and woken, or the connection dropped when the queue is full |
| PlotSender.ConnectionState.SenderStep | linien-gateway/app/stream.py:486-526 | one move of the sender loop |
| PlotSender.ConnectionState.UpdateMaxFps | linien-gateway/app/stream.py:316-339 | the cap is replaced and the throttle reset |
| PlotSender.MakeLimits | linien-gateway/app/stream.py:267-287 | the default rate never exceeds the cap and the queue holds at least ten |
| PlotSender.LimitsExactly | linien-gateway/app/stream.py:267-287 | which queue size, cap and default rate are in force |
| PlotSender.RateResolved | linien-gateway/app/stream.py:316-339 | a connection's rate is the one asked for if positive, else the default, lowered to the cap |
| PlotSender.DeliveryIsSound | linien-gateway/app/stream.py:486-535 | over all runs: never asleep on an unset event with something pending, reliable messages a prefix of those accepted, plot frames in order and without repeats, the newest accepted frame never the one lost |
| PlotSender.PendingIsPickedUp | linien-gateway/app/stream.py:486-526 | one step of the ranking behind it: a sender move brings a pending message one move nearer being picked up, reliable ones first, and no one else puts it off |
| PlotSender.PickedUpWithinTwoMoves | linien-gateway/app/stream.py:486-526 | over any run, two sender moves on an open connection - one if it was about to look - pick up something that was pending, reliable messages first |
| PlotSender.RateIsBounded | linien-gateway/app/stream.py:414-420 | without a rate change at most floor(T * fps) + 1 frames are accepted in any window of length T |
| PlotSender.NextFrameGoesThroughWhenDue | linien-gateway/app/stream.py:414-420 | and it holds back no more: after an accepted frame the next goes through exactly when a period has passed |
| PlotSender.RateChangeLetsNextFrameThrough | linien-gateway/app/stream.py:335-339 | a rate change resets the throttle |
| DiagnosisProbe.Scheduler.Request | linien-gateway/app/diagnosis.py:614-626 | a key scheduled or in flight is left alone, any other gets one entry and the dispatcher is woken |
| DiagnosisProbe.Scheduler.PopReady | linien-gateway/app/diagnosis.py:628-639 | the first entry by due time and then by order of asking, if due, moves from pending to in flight; otherwise the wait ends exactly when it is due |
| DiagnosisProbe.Scheduler.Reschedule | linien-gateway/app/diagnosis.py:666-680 | the in-flight mark goes first, so a device still down is scheduled again and not taken for a duplicate |
| DiagnosisProbe.OneProbePerKey | linien-gateway/app/diagnosis.py:614-680 | after any interleaving every scheduled key has one heap entry, no key is both scheduled and in flight, and no key has two probes |
| DiagnosisProbe.DownIsLookedAfter | linien-gateway/app/diagnosis.py:661-680 | while the dispatcher runs a device that is down is scheduled, in flight, or about to be requested |
| DiagnosisProbe.NeverOversleeps | linien-gateway/app/diagnosis.py:641-647 | no wake-up is lost between push, event and wait |
| DiagnosisProbe.DispatcherCanMove | linien-gateway/app/diagnosis.py:641-660 | the dispatcher is never stuck, pops exactly when the first entry is due, and otherwise sleeps to that time, or a second on an empty heap |
| DiagnosisProbe.DispatcherWaits | linien-gateway/app/diagnosis.py:641-647 | nor does it wake before its event or its time |
| DiagnosisProbe.EveryPushIsAnnounced | linien-gateway/app/diagnosis.py:614-626 | over any run the wake-ups still owed are the entries pushed and not yet announced |
| DiagnosisProbe.StepKeepsInv | linien-gateway/app/diagnosis.py:614-680 | every step of dispatcher, workers, sessions and requesters keeps the bookkeeping consistent |
| TelemetryCache.TelemetryEntry.ApplyReading | linien-gateway/app/rp_telemetry.py:1065-1153 | a stale finding changes nothing, a current one is folded whole |
| TelemetryCache.TelemetryEntry.LogTransitions | linien-gateway/app/rp_telemetry.py:1158-1222 | which event a fold leads to, and which loss and mismatch marks it leaves |
| TelemetryCache.TelemetryEntry.SettleProbe | linien-gateway/app/rp_telemetry.py:1046-1054 | an answer settles the version probe, and the third request in the count without one gives it up |
| TelemetryCache.TelemetryEntry.Act | linien-gateway/app/rp_telemetry.py:1769-1816 | the locked blocks of install; uninstall and the service actions likewise, each bumping the sequence number |
| TelemetryCache.SequenceCountsActions | linien-gateway/app/rp_telemetry.py:624-634 | the sequence number counts operator actions and nothing else moves it |
| TelemetryCache.ActionsWinOverEarlierReadings | linien-gateway/app/rp_telemetry.py:1006-1145 | a reading is folded exactly when no operator action ran since its capture, and once one has, nothing its task does touches state, temperature, version, installed flag or failure count |
| TelemetryCache.TaskGoesOn | linien-gateway/app/rp_telemetry.py:1002-1064 | the order of one task's blocks: reading, version where it is still unknown, fold, log; no other task moves it |
| TelemetryCache.TaskBegins | linien-gateway/app/rp_telemetry.py:1002-1007 | a poll starts from the record before its capture, an on-demand read with the capture |
| TelemetryCache.OnlyPollsTrackHealth | linien-gateway/app/rp_telemetry.py:1083-1089 | in every reachable state exactly the polls move the failure count |
| TelemetryCache.PolledInstallFlagIsCurrentIff | linien-gateway/app/rp_telemetry.py:1002-1007 | a polled install flag agrees with the record exactly if the record still said at the capture what the poll had read |
| TelemetryCache.DemandInstallFlagIsCurrent | linien-gateway/app/rp_telemetry.py:2129-2156 | an on-demand read never folds a stale flag |
| TelemetryCache.UninstallCanBeUndone | linien-gateway/app/rp_telemetry.py:1002-1007 | a run in which a poll restores the flag an uninstall cleared |
| TelemetryCache.StaleProbeStillCounts | linien-gateway/app/rp_telemetry.py:1049-1054 | a run in which an unanswered probe from before a restart is counted after it |
| TelemetryCache.StaleTaskCountsIffUnanswered | linien-gateway/app/rp_telemetry.py:1035-1054 | of everything a stale task still does, exactly an unanswered version probe moves the count |
| TelemetryCache.GivenUpExactlyWhen | linien-gateway/app/rp_telemetry.py:1046-1054 | since the count last started over, a probe is given up exactly at the third unanswered one, stale ones included: each costs the current probe one attempt |
| TelemetryCache.EventExactlyWhen | linien-gateway/app/rp_telemetry.py:1170-1222 | over poll-only runs "unavailable" goes out exactly at a third failure in a row, "recovered" exactly at the first temperature after three or more |
| TelemetryCache.EventsAlternate | linien-gateway/app/rp_telemetry.py:1170-1222 | the two strictly alternate, starting with "unavailable" |
| TelemetryCache.ShownStateIsConsistent | linien-gateway/app/rp_telemetry.py:624-634 | however polls, reads and actions interleave, a temperature and its time come and go together and a running board shows no error |
| TelemetryCache.FoldShows | linien-gateway/app/rp_telemetry.py:1090-1136 | every field a current finding leaves in the entry |
| TelemetryCache.ActionShows | linien-gateway/app/rp_telemetry.py:1769-1816 | what each install step, an uninstall and an inspection leave on show |
| TelemetryCache.ServiceShows | linien-gateway/app/rp_telemetry.py:2038-2068 | what a stop, a start that took and one that did not leave on show |
| TelemetryCache.ShownTemperatureWasRead | linien-gateway/app/rp_telemetry.py:1006-1145 | over any run a temperature on show was read, and its time is one at which something was folded in |

## Left out

- Floating point: voltages, times and scores are exact reals, so rounding, overflow and NaN inside the arithmetic are not modelled.
- Smoothing, line fits, medians and the robust noise floor are inputs: the detectors are modelled from the smoothed trace on, and the discriminator slope is not modelled.
- AutoRelockRuns.AttemptRateIsBounded: the window is half-open, because an attempt may fall exactly on the instant the cooldown ends.
- AutoRelockRuns.AttemptsAreConserved: stated for histories in which each sweep result is reported before the next tick and trace stamps never go back, as the poll thread does.
- RelockDispatch.NoTimeoutUnderWorker: needs non-decreasing trace stamps, as the poll thread writes them.
- LockIndicator.LockedOnlyAfterGoodRun: the run counts from the last reconfiguration, which restarts the durations.
- SettingsSync.SettingsConverge: values are reals and always serialisable; a callback that raises part-way through a batch, which loses the rest of it, is not modelled.
- PlotFrameCodec.RoundTripIffNoLeadingGap: header JSON is an assumed invertible codec, and float64 to float32 conversion is not modelled.
- PlotSender.DeliveryIsSound: one connection; the fan-out loop over connections, the shared summary variant and closing the socket are not modelled.
- DiagnosisProbe.DownIsLookedAfter: a worker reads the session in one step; stopping and restarting the scheduler, which can leave a cancelled key marked in flight, is not modelled.
- TelemetryCache.ActionsWinOverEarlierReadings: one device and no `forget`; metrics, credentials and publishing are not modelled.
- TelemetryCache.EventExactlyWhen: polls of one device do not overlap, as the poll loop awaits each pass.
- Calibration.CalibratedAnchorIsDetected: a slope preference is given; without one, calibration and detection may prefer different slopes at one crossing.
- Calibration.Calibrate: target voltage, amplitude and the text of the report are not modelled.
- RefinementPlanner.PlannedGeometryIsSafe: the planner's diagnostic bounds and messages are not modelled.
- RefinementWalk.NarrowToGoal: geometry safety asks for a device that realises what it is told and for detections inside their traces; `DetectorsStayInTrace` gives the second for the modelled detectors, the first is an assumption about the device.
- FreshTrace.SurelyNewerIffGuarded: speaks of when a sweep was published; the time a board takes between making a sweep and publishing it is not modelled.
- AutoLock.LockSession.OperatorSetsGeometry: a write that raises part-way is taken not to have reached the device.
- Liveness that depends on plot frames arriving: the relock controller and the indicator only move on frames.
- SSH, systemd, journald and memory-mapped register work, the HTTP routes, the user interface, the benches other than the frame decoder, and the RPyC, numpy, heapq and orjson libraries.
- Stores that only persist or forward (groups, devices, logs, events, InfluxDB, Postgres): they keep no invariant beyond what was last written to them.
