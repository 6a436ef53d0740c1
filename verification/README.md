# Verified models of the Mayhem bench

The repository drives a grid-edge controller (the hub) against a simulated bench. It injects faults, judges
how the hub behaved, replays a synthetic summer through several dispatch policies, and probes the message
bus. These Dafny files model the parts whose correctness everything else is trusted for.

| files | what they model |
|---|---|
| `Timeline`, `Invariants`, `Hunting`, `Diagnosis`, `RuleLaws`, `Agreement`, `Dither` | the verdict engine: safety oracles over a sample timeline, the constraint diagnosers, the audit that may tighten a verdict, and how far verdicts and oracles agree |
| `RunLoop`, `ExitContract`, `DelayedFaults` | a run of scenarios with its status, the abort, the exit code of the headless runner, and the protocol of delayed fault goroutines |
| `Replay`, `ReplayCost`, `ReplayBound`, `ReplaySafety`, `ReplayLaws`, `ReplayCaps`, `Comparison` | four dispatch policies over one environment: cost, safety, caps, conservation, and the whole comparison from a seed |
| `Mulberry`, `EnvGen`, `EnvLaws`, `EnvProofs` | the 32-bit generator and the synthetic summer made from it |
| `MqttTopics`, `MqttWire`, `MqttSession`, `MqttLaws`, `LaneProbe` | the MQTT 3.1.1 probe: length codec, framing, dispatcher, topic filters, lane isolation |
| `LogMux` | the merged-log broadcaster |
| `Curve` | the canonical line a curve's identity is hashed from |

Loops and objects of the program are methods and classes, proved against functions on values; the theorems
are about those functions, and the modules named ...Laws pin the functions themselves down in measured fields, bytes
and numbers. Floats are exact reals. The bench, the socket and the moment of an abort are
arbitrary inputs.

## Where the code and its comments differ

- `cmd/dashboard/invariants.go:9-12` says an invariant and a verdict can never disagree about what a breach is.
  They do ask the same question of a sample, but may still disagree on whether a breach was sustained: a first
  sample counts for no time in breach, and time is rounded to hundredths before it is compared with 0.
  `Agreement.VerdictAndInvariantAgreeExactly` gives the exact condition on any sampling times. On the driver's
  own clock only the first cause can arise, and only with a first sample past the settling deadline:
  `Agreement.AgreementOnTheDriversClock`.
- `cmd/dashboard/mayhem.go:628-632` says teardown is always the last writer. A fault that has looked at its
  context may still act after it (`DelayedFaults.TeardownCanBeOvertaken`). Teardown is the last writer exactly
  when none ever comes while a fault is between looking and acting
  (`DelayedFaults.TeardownIsLastWriterExactly`).
- `scripts/qa-bus-probe.py:44-47` says any message arriving from the refused lane fails the probe on its own,
  whatever the answer was. With one on record it does exactly when the in-lane subscription was granted and the
  out-lane one answered (`LaneProbe.LeakFailsExactly`). When the peer closes instead, the check returns PASS before
  it looks; when nothing answers, or the in-lane subscription is not granted, it stays undecided. And a message
  that arrives after the answer is on record only if no further SUBACK, to whatever identifier, comes before
  it: the first one ends the watch, and the verdict is PASS (`LaneProbe.LeakInTheWatchFailsExactly`).
  `LaneProbe.AnsweredVerdictOnTheWire` is the whole verdict in terms of what arrives, and the four lemmas named
  Leak...IsPassed and Leak...IsUndecided are courses on which a message does not fail the check.
- A read that times out inside a packet loses the bytes it had taken, so the next read does not return that
  packet with the stream aligned behind it: `MqttSession.InterruptedPacketSurvivesExactly`.
- The extra-charging step under an export cap (`scripts/replay-compare.py:87-89`) never has anything left to
  charge: `ReplaySafety.ExportStageOnlyCurtails`.

## Model

| member | source | states |
|---|---|---|
| Timeline.Round2IsZero | cmd/dashboard/mayhem.go:1117 | the scanned time in breach, rounded to hundredths, is 0 exactly when the true one is within half a hundredth of 0: the test the PASS branch really makes |
| Timeline.CountBoth | cmd/dashboard/mayhem.go:968-979 | two sensors' answer counts over one window force a minimum of joint answers |
| RuleLaws.BreachIsMeasured | cmd/dashboard/mayhem.go:932-952 | a breach is a measurement past cap and 150 W; a clear recovery is one 150 W short of the cap; an absent sensor is neither |
| RuleLaws.SensorsCounted | cmd/dashboard/mayhem.go:986-996 | which sensor each availability gate counts |
| Invariants.FlagExport | cmd/dashboard/invariants.go:55-73 | the loop reports exactly the samples past the settling deadline that are over the cap, in order |
| Invariants.ExportSilentExactly | cmd/dashboard/invariants.go:55-73 | the report is empty if and only if no sample past the deadline is over the cap |
| Invariants.FlagConverge | cmd/dashboard/invariants.go:98-117 | one admission anywhere clears the report; otherwise it is the export report under its own label |
| RuleLaws.ConvergeSpeaksExactly | cmd/dashboard/invariants.go:98-117 | the oracle speaks if and only if a sustained breach was measured and never admitted |
| Invariants.FlagSoc | cmd/dashboard/invariants.go:130-152 | the loop reports what the rule flags, in order |
| RuleLaws.SocFlagsExactly | cmd/dashboard/invariants.go:130-152 | a time is flagged if and only if a sample then discharges over 50 W at 10% or less, or charges so at 95% or more, with its sensor answering |
| Invariants.FlagConnect | cmd/dashboard/invariants.go:160-182 | the loop reports what the rule flags, one entry for solar and one for battery |
| RuleLaws.ConnectFlagsExactly | cmd/dashboard/invariants.go:160-182 | a time is flagged if and only if solar seen, or battery, is over 250 W during a disconnect |
| Invariants.FlagExpired | cmd/dashboard/invariants.go:189-205 | the loop reports what the rule flags, in order |
| RuleLaws.ExpiredFlagsExactly | cmd/dashboard/invariants.go:189-205 | a time is flagged if and only if a control is held more than 30 s of server time past its validity |
| Invariants.FlagEvMax | cmd/dashboard/invariants.go:211-223 | the loop reports what the rule flags, in order |
| RuleLaws.EvMaxFlagsExactly | cmd/dashboard/invariants.go:211-223 | a time is flagged if and only if the charger draws over 1 A more than a known maximum |
| Invariants.PastSettling | cmd/dashboard/invariants.go:235-244 | keeps exactly the violations after the settling deadline, in order |
| RuleLaws.SettledKeepsExactly | cmd/dashboard/invariants.go:235-244 | each violation after 30 s occurs as often as before, and no other occurs |
| Invariants.FlagHunt | cmd/dashboard/invariants.go:260-299 | the flag machine's crossings, or nothing when there are fewer than three |
| Invariants.SafetyAudit | cmd/dashboard/invariants.go:311-319 | the five reports one after the other; the instantaneous ones only past settling |
| Invariants.EscalateForAudit | cmd/dashboard/invariants.go:330-376 | never eases a verdict, leaves all but PASS and DEGRADED alone, and keeps a PASS exactly under the five thresholds |
| RuleLaws.EscalatesExactly | cmd/dashboard/invariants.go:345-376 | which counts turn a PASS or DEGRADED into a FAIL, and which a PASS into a DEGRADED |
| Invariants.AuditTally | cmd/dashboard/invariants.go:311-319 | the audit's count under each label is the length of that label's own report: no report leaks into another's tally |
| Hunting.SweepWitness | cmd/dashboard/invariants.go:272-299 | the crossings counted are a real alternation of clear recoveries and breaches |
| Hunting.SweepUpperBound | cmd/dashboard/invariants.go:272-299 | no alternation in the timeline is longer than the count |
| RuleLaws.MarksAreMeasured | cmd/dashboard/invariants.go:272-299 | what counts as recovery and breach, in the measured fields |
| Hunting.HuntIsOptimal | cmd/dashboard/invariants.go:260-299 | hunting is reported if and only if three recover-then-breach cycles exist past settling, and the report then has as many entries as the longest alternation |
| Hunting.DeletionNeverAddsHunting | cmd/dashboard/invariants.go:260-299 | dropping any samples never lengthens the report |
| Hunting.AbsentSamplesAreInvisible | cmd/dashboard/mayhem.go:932-952 | dropping samples without the judging sensor changes nothing |
| Diagnosis.Convergence | cmd/dashboard/mayhem.go:1138-1174 | the two loops compute the settle time and whether the closing seconds are clean |
| Diagnosis.ConvergenceIsExact | cmd/dashboard/mayhem.go:1138-1174 | on ordered timestamps the settle time is the start of the longest clean suffix, 0 for a clean timeline, -1 exactly when the last sample breaches; a clean tail implies a settle time |
| Diagnosis.SettledMeansNoExportViolation | cmd/dashboard/invariants.go:55-73 | a settle time within the deadline excludes every sustained breach |
| Diagnosis.BreachConverging | cmd/dashboard/mayhem.go:1183-1209 | true exactly when there are four samples, something breached, and the last three excesses average below half the peak |
| RuleLaws.ConvergingExactly | cmd/dashboard/mayhem.go:1183-1209 | it holds if and only if the last three excesses average below half of the worst overage, which some sample attains |
| Diagnosis.PeakIsWorst | cmd/dashboard/mayhem.go:1086-1131 | the scanned peak is the greatest overage: an upper bound of all, and attained when positive |
| RuleLaws.BreachTimeExtremes | cmd/dashboard/mayhem.go:1086-1131 | the time in breach is nothing without a breach, and the whole window when all of it breaches |
| RuleLaws.BreachTimeAdds | cmd/dashboard/mayhem.go:1086-1131 | the times in breach of two windows that follow each other add up |
| RuleLaws.ReactionIsVisible | cmd/dashboard/mayhem.go:1066-1083 | a reaction is 250 W of solar given up, or of battery power in the direction that helps |
| Diagnosis.ScanSamples | cmd/dashboard/mayhem.go:1086-1131 | one pass yields the counts, the time in breach, the peak, and the adoption, reaction and admission flags |
| RuleLaws.ScanMeans | cmd/dashboard/mayhem.go:1086-1131 | what each metric counts or rounds; a reaction is one on more than a quarter of the samples |
| Diagnosis.ProbeAvailFrac | cmd/dashboard/mayhem.go:968-979 | the fraction reaches the gate exactly when 5 times the answers is at least 4 times the samples |
| Diagnosis.ForceBlindOnConstraintProbeGap | cmd/dashboard/mayhem.go:1020-1045 | a cap PASS without 80% of its judging sensor becomes BLIND; nothing else changes |
| Diagnosis.ForceBlindOnBatteryProbeGap | cmd/dashboard/mayhem.go:1051-1053 | the same for the battery sensor, whatever the constraint |
| Diagnosis.DiagnoseConstraint | cmd/dashboard/mayhem.go:1214-1309 | the chain of branches and the sensor gate come to the verdict and metrics specified |
| Agreement.DiagnosedExactly | cmd/dashboard/mayhem.go:1214-1309 | each of the five verdicts, if and only if: not judgeable; negligible or a bounded ramp, with and without the sensor; admitted or settled late; neither admitted nor followed by an adopted control that settled |
| Agreement.ForeignControlIsNoAdoption | cmd/dashboard/mayhem.go:273-278 | a hub that only applied controls of another identity, or of another type where one has none, fails an unadmitted breach |
| Agreement.OwnControlIsAdoption | cmd/dashboard/mayhem.go:273-278 | one sample with any other control is adoption |
| Diagnosis.DiagnoseConverge | cmd/dashboard/mayhem.go:1316-1369 | PASS, BLIND and INCONCLUSIVE stand; the rest is DEGRADED when admitted, late or still slewing, and FAIL otherwise |
| Agreement.ConvergeDiagnosedExactly | cmd/dashboard/mayhem.go:1316-1369 | its DEGRADED and FAIL, each if and only if: an unsettled, unadmitted breach fails unless it is still slewing |
| Diagnosis.ApplySafetyAudit | cmd/dashboard/mayhem.go:702-718 | the audit may only tighten the verdict, and the battery gate has the last word on a PASS |
| RuleLaws.AuditedExactly | cmd/dashboard/mayhem.go:702-718 | which findings end FAIL, DEGRADED, BLIND and PASS, each if and only if, after audit and battery gate |
| Agreement.AuditKeepsPassExactly | cmd/dashboard/invariants.go:345-376 | the audit lets a PASS stand if and only if every report is below its threshold |
| Agreement.DiagnosedPassExactly | cmd/dashboard/mayhem.go:1214-1309 | the diagnoser says PASS if and only if the window was watched and the breach was negligible or a bounded ramp |
| Agreement.PassExactly | cmd/dashboard/mayhem.go:702-718 | a cap scenario ends PASS if and only if: sampled, both sensors on 80% of it, breach negligible or a bounded ramp, audit quiet |
| Agreement.PassWasWatched | cmd/dashboard/mayhem.go:956-1053 | behind the two gates, cap and battery sensor answered together on at least 60% of the samples |
| Agreement.PassMeansNoExportViolation | cmd/dashboard/invariants.go:9-13 | on well-spaced samples a PASS leaves no sustained breach for the export oracle |
| Agreement.SpikeIsPassedOver | cmd/dashboard/invariants.go:9-13 | for any sampling times that are not well spaced, a timeline whose final verdict is PASS although the export oracle reports a sustained breach |
| Agreement.VerdictAndInvariantAgreeExactly | cmd/dashboard/invariants.go:9-13 | over all timelines with given sampling times, PASS implies a silent export oracle if and only if the times are well spaced |
| Agreement.StampsIncrease | cmd/dashboard/mayhem.go:382-383 | samples taken at least 200 ms apart carry stamps at least 0.19 s apart, rounding included |
| Agreement.AgreementOnTheDriversClock | cmd/dashboard/mayhem.go:722-744 | on the driver's own clock verdict and oracle agree over all timelines if and only if the first stamp is by the settling deadline, or there is no sample |
| Agreement.ConvergeVerdictAgreesExactly | cmd/dashboard/mayhem.go:1316-1369 | over all timelines with given sampling times, a PASS of the accept-but-do-not-converge diagnoser is silence of its oracle if and only if the times are well spaced |
| Agreement.AdmissionClearsBoth | cmd/dashboard/invariants.go:98-117 | an admission silences that oracle and rules out a FAIL, on any timeline |
| Dither.BatteryCommandFlaps | cmd/dashboard/mayhem_world.go:1721-1743 | the loop counts the sign changes specified |
| Dither.FlipsAreReversals | cmd/dashboard/mayhem_world.go:1721-1743 | the count is the greatest number of reversals that can be picked from the settled samples moving more than 50 W either way; 0 if the battery never moved |
| Dither.SocReserveOverDischarge | cmd/dashboard/mayhem_world.go:1753-1768 | exactly the settled samples that discharge at or below the reserve line, once each and in order |
| Dither.DiagnoseSocDither | cmd/dashboard/mayhem_world.go:1832-1873 | PASS if and only if no settled sample discharges at 20% or less and no pick of alternating moves has more reversals than one per 4 s of hold, at least one, and 3; FAIL otherwise |
| Dither.WaveIsSquare | cmd/dashboard/mayhem_world.go:1689-1696 | the wave starts in phase A, keeps its phase for a half period and reverses with the next |
| Dither.FlipsCrossBlocks | cmd/dashboard/mayhem_world.go:1689-1743 | each flip of a battery that follows the wave uses up a half-cycle boundary of its own |
| Dither.NoFalseChatterAlarm | cmd/dashboard/mayhem_world.go:1689-1743 | for every hold and every subset of samples, a battery following the wave has no more flips than expected; a constant lag adds at most one, and none when lag or hold is a whole number of half-cycles |
| Dither.DroppingNeverAddsFlaps | cmd/dashboard/mayhem_world.go:1721-1743 | losing samples never raises the number of flips |
| RunLoop.FilterExtended | cmd/dashboard/mayhem.go:343-354 | without names, everything but the long scenarios, or everything when those are asked for, in suite order |
| RunLoop.FilterOnly | cmd/dashboard/mayhem.go:398-409 | exactly the scenarios named, in suite order |
| RunLoop.SelectedExactly | cmd/dashboard/mayhem.go:386-416 | a scenario is selected if and only if it is in the requested suite and wanted |
| RunLoop.SelectionExactly | cmd/dashboard/mayhem.go:385-416 | chaos before matrix before curated; by name if any is given, else all but the long ones unless wanted |
| RunLoop.Driver.HandleStart | cmd/dashboard/mayhem.go:368-442 | nothing matching and a run under way are refused, in that order, and change nothing; otherwise a run of exactly the selection starts from a cleared status, at the requested interval or the default below 200 ms |
| RunLoop.PctInRange | cmd/dashboard/mayhem.go:2330-2332 | the progress shown is the share of scenarios done, in percent, to the nearest hundredth |
| RunLoop.Driver.SetPhase | cmd/dashboard/mayhem.go:2324-2334 | progress, current scenario and phase move and nothing else does; the visible status stays accounted for |
| RunLoop.Driver.AppendFinding | cmd/dashboard/mayhem.go:2336-2361 | the finding is added, its one bucket grows by one, the totals follow; the visible status stays accounted for |
| RunLoop.Driver.PushLive | cmd/dashboard/mayhem.go:2369-2376 | the live window is the most recent 120 samples |
| RunLoop.Driver.Finish | cmd/dashboard/mayhem.go:2378-2394 | finished exactly when neither aborted nor in error; an earlier error is never cleared |
| RunLoop.Driver.HoldAndSample | cmd/dashboard/mayhem.go:722-744 | a prefix of the window, the whole of it unless an abort was seen |
| RunLoop.CutStaysInconclusive | cmd/dashboard/invariants.go:345-376 | neither audit nor battery gate moves an INCONCLUSIVE |
| RunLoop.Driver.JudgeWindow | cmd/dashboard/mayhem.go:639-661 | INCONCLUSIVE once the abort has been seen, the audited judgement of the full window otherwise; a truncated window is always the former |
| RunLoop.Driver.Conclude | cmd/dashboard/mayhem.go:639-676 | the finding is that of an undisturbed run, or of a full window without the closing probe, or INCONCLUSIVE |
| RunLoop.Driver.RunScenario | cmd/dashboard/mayhem.go:538-682 | exactly one finding under the id: NOT_APPLICABLE, INFRA for a bench unhealthy before, INCONCLUSIVE for a failed setup, and a judgement of the hub only on a full window |
| RunLoop.Driver.Run | cmd/dashboard/mayhem.go:523-684 | every status ever visible is accounted for; aborted if and only if an abort was seen; every finding rests on what it says about bench and window, and in a finished run each held scenario got its audited verdict on the full window, or INFRA if the bench broke |
| RunLoop.Driver.RecoverFromPanic | cmd/dashboard/mayhem.go:451-465 | whatever the status showed when a panic struck, what the recovery leaves is accounted for, aborted and not finished |
| RunLoop.BucketsOfAppend | cmd/dashboard/mayhem.go:2336-2361 | counting incrementally is counting afresh |
| ExitContract.SnapshotAddsUp | cmd/dashboard/mayhem.go:2336-2361 | in every visible status the seven buckets sum to the findings, which follow scenario order |
| ExitContract.PanicIsNeverSuccess | scripts/mayhem.py:221-252 | a run ended by a panic at any moment exits 1 if the hub had already failed and 2 otherwise, with or without the override |
| ExitContract.ExitCodeContract | scripts/mayhem.py:221-252 | 0 exactly for a finished run of PASS, DEGRADED and NOT_APPLICABLE; 1 exactly for a FAIL or BLIND; 3 exactly for an otherwise clean finished run with an INCONCLUSIVE; the override turns 3 into 0 and nothing else; an unfinished run is never 0 |
| ExitContract.SuccessMeansHealthyBench | scripts/mayhem.py:221-252 | a finished run that exits 0 found every applicable scenario's bench healthy before and after, armed it and sampled it in full |
| DelayedFaults.LateLandingWasInFlight | cmd/dashboard/mayhem.go:754-770 | a fault that lands after its cancel had passed its guard before it, and sat between guard and act when the cancel came |
| DelayedFaults.NoLateLandingExactly | cmd/dashboard/mayhem.go:754-864 | over any interleaving that comes to rest, nothing lands after its own cancel or the abort if and only if none of these catches a fault between guard and act |
| DelayedFaults.TeardownIsLastWriterExactly | cmd/dashboard/mayhem.go:628-637 | over any interleaving that comes to rest, no fault of a scenario lands after its teardown or a later one if and only if no teardown comes while a fault is between guard and act |
| DelayedFaults.AtomicNeverLandsLate | cmd/dashboard/mayhem.go:754-864 | with guard and act as one step nothing lands late |
| DelayedFaults.AtomicLandsInItsHold | cmd/dashboard/mayhem.go:754-864 | with guard and act as one step, every fault lands in its own scenario, during the hold, in a run that is not aborted |
| DelayedFaults.TeardownIsLastWriter | cmd/dashboard/mayhem.go:628-637 | with guard and act as one step, after a teardown no fault of that or an earlier scenario ever lands |
| DelayedFaults.TeardownCanBeOvertaken | cmd/dashboard/mayhem.go:628-637 | as written, guard and act are two steps, and here is a run in which a fault of scenario 1 lands in scenario 2 after teardown |
| DelayedFaults.LandsOnce | cmd/dashboard/mayhem.go:833-864 | an armed fault takes effect at most once |
| DelayedFaults.CapWasSeenInForce | cmd/dashboard/mayhem.go:833-864 | a fault waiting for its own cap acts only after a poll saw an active control that matches it, never on the deadline |
| DelayedFaults.PollReleasesExactly | cmd/dashboard/mayhem.go:833-864 | a poll releases a waiting fault if and only if a control is active and, for one that waits for its cap, neither of another identity nor, where one has none, of another type |
| DelayedFaults.ForeignControlNeverReleases | cmd/dashboard/mayhem.go:273-278 | a fault whose every active poll saw such a foreign control is never released, so never lands |
| DelayedFaults.ReleasedBy | cmd/dashboard/mayhem.go:754-811 | a released fault had its delay or deadline expire, or a poll see an active control, according to what it waits for |
| DelayedFaults.AbortStopsFaults | cmd/dashboard/mayhem.go:754-864 | a fault that lands after the abort had passed its guard before it |
| DelayedFaults.CancelStopsFaults | cmd/dashboard/mayhem.go:754-864 | a fault that lands after its scenario's cancel had passed its guard before it |
| DelayedFaults.OnlyCancelAndAbortStop | cmd/dashboard/mayhem.go:754-864 | a fault that looks before either passes its guard |
| ReplaySafety.BalanceFeasible | scripts/replay-compare.py:76-86 | the opening dispatch is one the plant can carry out and accounts for all solar; it leaves a surplus only when the battery takes all it can |
| ReplaySafety.ExportFeasible | scripts/replay-compare.py:87-91 | the dispatch is still feasible and now within the export cap; one that imports gives up no permitted solar |
| ReplaySafety.ImportFeasible | scripts/replay-compare.py:92-97 | the dispatch stays feasible, sheds the EV entirely before it touches the battery, never overshoots the cap, and misses it only with every lever pulled |
| Replay.Account.SettleTick | scripts/replay-compare.py:49-57 | money, energy, and whether a capped tick was violated |
| ReplayLaws.SettleTrades | scripts/replay-compare.py:49-57 | what is bought or sold is paid at 0.38, 0.18, 0.10 and 0.07, and a capped tick counts as violated when 50 W past a cap |
| Replay.Account.StepDumb | scripts/replay-compare.py:60-63 | the account moves as the unmanaged policy says |
| ReplayLaws.DumbLedger | scripts/replay-compare.py:60-63 | the EV charges at any hour, the grid meets load and EV less all the sun, and money and violations follow |
| Replay.Account.StepLoadOnly | scripts/replay-compare.py:65-69 | the account moves as the policy without solar says |
| ReplayLaws.LoadOnlyLedger | scripts/replay-compare.py:65-69 | the same without any sun |
| Replay.Account.StepDeferral | scripts/replay-compare.py:71-74 | the account moves as the off-peak charging policy says |
| ReplayLaws.DeferralLedger | scripts/replay-compare.py:71-74 | the same with the EV charging before seven and from nine in the evening only |
| Replay.Account.StepSmart | scripts/replay-compare.py:76-100 | the account moves as the three stages, in turn, say |
| ReplayLaws.SmartLedger | scripts/replay-compare.py:76-100 | energy and money of a smart tick: 92% of what is charged reaches the battery, sun given up is written down, the rest is traded |
| ReplayLaws.SmartIsTheOnlyDispatch | scripts/replay-compare.py:76-97 | a dispatch is the smart one if and only if it keeps the rules: surplus to the battery before sale, curtailing only at the export cap, discharging at peak or for an import cap once the EV is off, shedding no more than the cap demands |
| Replay.RunModels | scripts/replay-compare.py:121-137 | driven side by side in place over any environment, each of the four accounts ends where its policy alone would, with the closing entry of every day |
| ReplayLaws.ArrivalChargesAtOnce | scripts/replay-compare.py:121-136 | an arrival is owed its trip grossed up for losses and starts charging on the same tick |
| ReplayLaws.CentsAreNearest | scripts/replay-compare.py:134-135 | day-end entries are rounded to the nearest cent, a tie to the even one |
| Comparison.RunFromSeed | scripts/replay-compare.py:117-137 | from a seed: the summer generated, its events turned into caps, the four accounts driven over both |
| Comparison.ComparisonIsPrefixStable | scripts/replay-compare.py:117-137 | from the same seed, a longer comparison agrees with a shorter one on every policy's books at every tick they share |
| Comparison.GeneratedEnvIsSane | scripts/replay-launch.py:35-95 | whatever the seed, no generated power and no cap made from the events is negative |
| Comparison.ComparisonBooksHopelessTicks | scripts/replay-compare.py:117-137 | from any seed, the violations booked against smart are exactly the ticks no dispatch could have complied with |
| Comparison.MildSummerNeverMuchWorse | scripts/replay-compare.py:117-137 | a generated summer whose events only limit import never makes smart much worse than deferral |
| ReplayCost.ShedCost | scripts/replay-compare.py:92-97 | meeting an import cap costs no more than the battery energy it uses and the charging it puts off are worth |
| ReplayCost.TickKeepsCoupled | scripts/replay-compare.py:71-100 | on a tick with at most its import capped, smart owes the EV no less than deferral, and is ahead or behind by no more than its battery and that put-off charging account for |
| ReplayCost.SmartNeverMuchWorse | scripts/replay-compare.py:71-136 | over any run without export or generation caps, import caps of any size included, smart costs at most the value of what it stored more than deferral: under 0.52 in all, and nothing more when the battery is no fuller than at the start |
| ReplayBound.BoundHoldsExactly | scripts/replay-compare.py:71-136 | for any schedule of non-negative caps, that bound holds in every environment under it if and only if the schedule never caps export or generation |
| ReplayBound.AnyExportCapCanBreakTheBound | scripts/replay-compare.py:71-136 | one export or generation cap of any size, on any tick, lets some environment without negative powers break the bound |
| ReplayBound.CapsCanBreakTheBound | scripts/replay-compare.py:71-136 | an ordinary day on which it breaks by noon: 6.5 kW of sun, 0.5 kW of load, any of the generation limits the environment generator draws, turned into caps as the replay does |
| ReplayCost.EvEnergyConserved | scripts/replay-compare.py:60-136 | over any run of any policy, under any caps, energy charged plus energy owed is exactly what arrived |
| ReplaySafety.SmartIsSafe | scripts/replay-compare.py:76-100 | every dispatch is feasible, accounts for all solar, keeps the export and generation caps, and exceeds an import cap only with every lever pulled |
| ReplaySafety.ExportStageOnlyCurtails | scripts/replay-compare.py:87-91 | the extra-charging branch never changes anything: a plan over the export cap already charges all it can |
| ReplaySafety.BreaksCapOnlyIfUnavoidable | scripts/replay-compare.py:76-100 | the dispatch complies with the caps if and only if some feasible dispatch does |
| ReplaySafety.SmartRunIsHealthy | scripts/replay-compare.py:117-136 | on every run the battery stays between reserve and capacity and the EV deficit non-negative |
| ReplaySafety.RunBooksHopelessTicks | scripts/replay-compare.py:49-136 | over any run, the violations booked are exactly the ticks no dispatch could have complied with |
| ReplayCaps.BuildCaps | scripts/replay-compare.py:103-115 | the three buffers filled in place hold, per tick, the fold of the events in force |
| ReplayCaps.CapIsTightest | scripts/replay-compare.py:103-115 | that fold is the greatest lower bound of the limits in force, and absent exactly when none is |
| ReplayCaps.InForceExactly | scripts/replay-compare.py:108-111 | an event is in force on its own day from its start, inclusive, to its end, exclusive |
| Mulberry.OrbitIsFull | scripts/replay-launch.py:15-23 | the counter reaches every 32-bit state, each exactly once in 2^32 steps |
| Mulberry.MulberryIsAlive | scripts/replay-launch.py:15-25 | state 1 comes out as 63: some state has a non-zero output |
| EnvLaws.FirstOutputs | scripts/replay-launch.py:15-25 | the first outputs from two seeds, and a number drawn as its output over 2^32 |
| Mulberry.NonZeroIsFirst | scripts/replay-launch.py:29-33 | what the rejection loop stops at is the first state of the walk with a non-zero output |
| Mulberry.Rng.Next | scripts/replay-launch.py:18-24 | one step of the counter; the number drawn is in [0, 1) |
| Mulberry.Rng.NextNonZero | scripts/replay-launch.py:29-33 | the rejection loop ends for every seed, with a positive number |
| EnvGen.DrawGauss | scripts/replay-launch.py:29-33 | two non-zero draws, shaped |
| EnvLaws.GaussDraws | scripts/replay-launch.py:29-33 | the two numbers shaped are the first two non-zero ones drawn |
| EnvGen.DrawHead | scripts/replay-launch.py:50-63 | weather, heat and trip of a day, with exactly the draws each branch makes |
| EnvLaws.WeatherTurns | scripts/replay-launch.py:50-53 | the odds of each change of weather |
| EnvLaws.DayOpens | scripts/replay-launch.py:50-54 | which draws turn the weather and set the heat, and the heat of each weather |
| EnvLaws.WeekdayTrip | scripts/replay-launch.py:57-60 | a weekday's departure, return and energy, and the draws they come from |
| EnvLaws.WeekendTrip | scripts/replay-launch.py:61-63 | the same at weekends, on 65% of days |
| EnvGen.DrawTick | scripts/replay-launch.py:65-79 | solar and load of a tick, and the cloud carried on, with two or three draws |
| EnvLaws.TickDraws | scripts/replay-launch.py:65-79 | every tick draws at a fixed place whatever the weather: 236 numbers a day |
| EnvLaws.LightFits | scripts/replay-launch.py:67-70 | the light of each weather |
| EnvLaws.CloudMoves | scripts/replay-launch.py:64-70 | the cloud walk starts at 70% and moves by the first draw of each tick |
| EnvLaws.SunShines | scripts/replay-launch.py:71-73 | solar by the height of the sun and the light |
| EnvLaws.HouseDraws | scripts/replay-launch.py:74-76 | load apart from cooling |
| EnvLaws.CoolingDraws | scripts/replay-launch.py:77-79 | cooling, in proportion to the heat above 72, by the third draw from noon to eleven |
| EnvLaws.EvIsAway | scripts/replay-launch.py:80-82 | when the EV is away, and that its energy is booked on one tick |
| EnvGen.DrawEvening | scripts/replay-launch.py:83-92 | the day's events, with exactly the draws each branch makes |
| EnvLaws.CapEventDrawn | scripts/replay-launch.py:84-87 | when an export or generation limit is drawn, from which numbers, and of what size |
| EnvLaws.PeakEventDrawn | scripts/replay-launch.py:88-90 | the same for import limits |
| EnvGen.GenEnv | scripts/replay-launch.py:35-95 | the arrays filled in place hold, tick by tick, numbers that do not depend on how many days are generated; events, dates, weather counts and greatest heat are those of the days generated |
| EnvLaws.DaysFollow | scripts/replay-launch.py:43-54 | a day goes on where the one before ended, the first from the seed and a clear sky |
| EnvProofs.TallyIsExact | scripts/replay-launch.py:42-56 | every day is counted under one weather, and the greatest heat is attained and never exceeded |
| EnvProofs.PrefixStable | scripts/replay-launch.py:35-95 | a run of fewer days with the same seed is the beginning of a longer one, in every series, in the dates and in the events |
| EnvProofs.EveningBelongsToDay | scripts/replay-launch.py:83-92 | every event lies inside its own day |
| EnvProofs.EventsFitTheRun | scripts/replay-launch.py:83-92 | every event falls on a day of the run, which is what turning events into caps demands |
| EnvProofs.CloudStaysInBand | scripts/replay-launch.py:64-70 | the cloud walk stays in [0.25, 0.95] |
| EnvProofs.TripWithinDay | scripts/replay-launch.py:57-63 | a trip starts at seven or later, lasts three hours or more, and ends before seven in the evening |
| EnvProofs.ArrivalTick | scripts/replay-launch.py:80-82 | the arrival is booked on the tick containing the return, never at the clamp; the EV counts as away on that tick unless it returned at its start |
| MqttTopics.TopicMatches | scripts/qa-bus-probe.py:131-143 | the loop decides: levels agree up to the first #, and the lengths too when there is none |
| MqttTopics.SplitJoins | scripts/qa-bus-probe.py:135 | levels hold no slash and join back to the text |
| MqttTopics.MatchesStandard | scripts/qa-bus-probe.py:131-143 | on filters with # only at the end, the same decision as the level-by-level rule of section 4.7.1 of MQTT 3.1.1 |
| MqttTopics.AgreesWithStandardExactly | scripts/qa-bus-probe.py:131-143 | for any filter text, it agrees with that rule on every topic text if and only if # appears only at the end |
| MqttTopics.JoinSplits | scripts/qa-bus-probe.py:135 | levels without slashes come back from the text they join into |
| MqttTopics.PlainFilterMatchesItself | scripts/qa-bus-probe.py:131-143 | a filter without wildcards matches exactly its own text |
| MqttTopics.WildcardsTakeAnything | scripts/qa-bus-probe.py:131-143 | a + takes any one level, a # any number of them |
| MqttTopics.PlusWidens | scripts/qa-bus-probe.py:131-143 | turning a level into + loses no topic |
| MqttTopics.HashWidens | scripts/qa-bus-probe.py:131-143 | turning a suffix, empty ones included, into # loses no topic |
| MqttWire.EncodeRemLen | scripts/qa-bus-probe.py:118-128 | the loop emits seven bits a byte, least significant first |
| MqttLaws.LengthBytes | scripts/qa-bus-probe.py:118-128 | the bytes of every length of one to four bytes |
| MqttLaws.FirstByte | scripts/qa-bus-probe.py:184-194 | type in the high nibble, flags in the low one, then length and body |
| MqttWire.LengthRoundTripsExactly | scripts/qa-bus-probe.py:118-128 | a length comes back from the four-byte reader if and only if it is at most 268,435,455; the one- to four-byte boundaries of section 2.2.3; a longer one comes back shorter |
| MqttWire.ParseEncode | scripts/qa-bus-probe.py:184-194 | a packet comes back from the front of any stream, leaving the rest |
| MqttSession.Session.Receive | scripts/qa-bus-probe.py:166-182 | exactly n bytes whatever the chunking, or none of them and the reason |
| MqttLaws.StopsAre | scripts/qa-bus-probe.py:166-182 | an empty chunk and an error are a close, a passed deadline is a timeout |
| MqttLaws.FlowStops | scripts/qa-bus-probe.py:166-182 | delivery stops at the first thing that is not data |
| MqttSession.Session.ReadLength | scripts/qa-bus-probe.py:184-192 | the running total and weight compute the length the stream carries |
| MqttSession.Session.ReadPacket | scripts/qa-bus-probe.py:184-194 | one packet off the stream, whatever part of it was buffered |
| MqttSession.TakePacketParses | scripts/qa-bus-probe.py:184-194 | a read succeeds exactly when the stream holds a whole packet, and then takes that packet and no more |
| MqttSession.FlowOfChunks | scripts/qa-bus-probe.py:166-182 | non-empty chunks deliver their concatenation |
| MqttSession.FramingIsChunkIndependent | scripts/qa-bus-probe.py:166-194 | any list of packets, encoded and cut into any non-empty chunks, is read back exactly from a fresh session, leaving the following bytes aligned |
| MqttSession.InterruptedPacketSurvivesExactly | scripts/qa-bus-probe.py:166-194 | whatever traffic follows and in whatever chunks, the next read returns a packet cut by the deadline and stays aligned if and only if none of its bytes had arrived |
| MqttSession.Session.NotePublish | scripts/qa-bus-probe.py:196-205 | records topic and payload length of a PUBLISH that can carry a topic length, after its packet identifier if it has one |
| MqttLaws.PublishIsRecorded | scripts/qa-bus-probe.py:196-205 | every PUBLISH laid out as in section 3.3 of MQTT 3.1.1 is recorded under its topic and payload length, at any QoS |
| MqttLaws.RecordsExactly | scripts/qa-bus-probe.py:196-205 | a packet is recorded if and only if it is a PUBLISH that can carry a topic length |
| MqttSession.Session.Dispatch | scripts/qa-bus-probe.py:227-240 | what one packet decides, a PUBLISH being recorded first |
| MqttLaws.DecidesExactly | scripts/qa-bus-probe.py:227-240 | which packets end a wait and with what answer, byte by byte |
| MqttSession.Session.PumpUntil | scripts/qa-bus-probe.py:211-237 | answer, recorded deliveries and stream left behind are those of the dispatcher on the byte stream |
| MqttSession.PumpDispatches | scripts/qa-bus-probe.py:211-237 | on whole packets: the first decisive one answers, exactly the well-formed PUBLISHes up to it are recorded, in order, and the rest stays unread |
| MqttSession.PumpStopsForReason | scripts/qa-bus-probe.py:211-237 | without a decisive packet the answer is the close or the timeout that ended the stream |
| MqttSession.SubAckWasOurs | scripts/qa-bus-probe.py:211-237 | a SUBACK answer was read off the wire with the awaited identifier and that return code |
| MqttSession.Session.Subscribe | scripts/qa-bus-probe.py:239-244 | writes a SUBSCRIBE packet for one filter at QoS 0 and waits for its own identifier; a filter too long to pack and a failing send raise, and nothing is read |
| MqttLaws.SubscribeReads | scripts/qa-bus-probe.py:239-244 | a broker reads back type, flags, identifier, filter and QoS 0 |
| MqttSession.Session.Observe | scripts/qa-bus-probe.py:246-251 | the first delivery that matches, if that is what ended the watch |
| LaneProbe.CheckLaneIsolation | scripts/qa-bus-probe.py:286-353 | PASS, FAIL and an exception that escapes, each under an exact condition on the sends and the four waits, and exactly which deliveries are on record at a verdict |
| LaneProbe.VerdictTable | scripts/qa-bus-probe.py:300-353 | PASS and FAIL from the four answers, in the order and with the filters of the waits; a grant is return code 0, 1 or 2 |
| LaneProbe.PassIsEvidence | scripts/qa-bus-probe.py:286-353 | behind every PASS: a granting SUBACK for identifier 1 on the wire, and then a close by the peer, or a SUBACK 0x80 for identifier 2 with no recorded delivery from the refused lane |
| LaneProbe.LeakFailsExactly | scripts/qa-bus-probe.py:286-353 | with a message from the refused lane on record, the check fails if and only if the in-lane subscription was granted and the out-lane one answered, and passes if and only if it was granted and the peer then closed |
| LaneProbe.AnsweredVerdictOnTheWire | scripts/qa-bus-probe.py:314-353 | on the packets that arrive after both answers: FAIL if and only if the out-lane answer is no refusal, or a matching message came before it, or one comes before any further SUBACK; PASS otherwise |
| LaneProbe.LeakInTheWatchFailsExactly | scripts/qa-bus-probe.py:246-251 | a first matching message during the watch fails the check if and only if no SUBACK to anybody precedes it, and is passed over if and only if one does |
| LaneProbe.LeakBehindAnswerIsPassed | scripts/qa-bus-probe.py:246-251 | a course judged PASS although a matching message has arrived, unread behind a SUBACK to another identifier |
| LaneProbe.LeakBeforeCloseIsPassed | scripts/qa-bus-probe.py:324-327 | a course with a recorded leak that is judged PASS because the peer then closed |
| LaneProbe.LeakBeforeSilenceIsUndecided | scripts/qa-bus-probe.py:332-335 | a course with a recorded leak that stays undecided because nothing answered |
| LaneProbe.LeakBeforeRefusalIsUndecided | scripts/qa-bus-probe.py:300-312 | a course with a recorded leak that stays undecided because the in-lane subscription was then refused |
| LogMux.RingIsLatest | cmd/dashboard/logmux.go:100-105 | the ring is always the last 800 events published, or all of them |
| LogMux.LatestIsSuffix | cmd/dashboard/logmux.go:100-105 | the 800 most recent, in their order |
| LogMux.EveryClientServed | cmd/dashboard/logmux.go:100-129 | over any interleaving: the backlog is the last 800 events before joining, and what a client received and has queued is, in order, part of the stretch published while it was subscribed |
| LogMux.NothingElseIsLost | cmd/dashboard/logmux.go:106-111 | every event addressed to a client is received, queued, or was dropped on a full channel |
| LogMux.CompleteStreamExactly | cmd/dashboard/logmux.go:100-129 | a subscribed client's stream has no gap if and only if no publish ever found its channel full |
| LogMux.ReceivedIsHandedOut | cmd/dashboard/logmux.go:163-168 | what a client received is exactly what its receives took off the channel, each event once, in order |
| LogMux.HandsOutInOrder | cmd/dashboard/logmux.go:163-168 | the k-th receive that succeeds hands out the k-th event ever seen |
| LogMux.Mux.PublishEvent | cmd/dashboard/logmux.go:100-113 | the object in place does what the step on values does, for every subscriber |
| LogMux.Mux.SubscribeNew | cmd/dashboard/logmux.go:115-123 | a fresh empty channel and a copy of the ring; nobody else is touched |
| LogMux.Mux.UnsubscribeFrom | cmd/dashboard/logmux.go:125-129 | that channel is no longer published to, and nothing else changes |
| LogMux.Mux.ReceiveFrom | cmd/dashboard/logmux.go:163-168 | the oldest queued event is handed out and leaves the channel |
| Curve.CanonicalText | cmd/dashboard/mayhem_adv.go:400-414 | the digest input, written header first and then point by point |
| Curve.CanonicalIsTheLine | cmd/dashboard/mayhem_adv.go:400-412 | the seven fields in their order, each with its bar, the points and the newline |
| Curve.PointsInOrder | cmd/dashboard/mayhem_adv.go:409-411 | each point as x, comma, y, semicolon |
| Curve.NumbersAreDecimal | cmd/dashboard/mayhem_adv.go:403-411 | decimal digits, most significant first, with a minus sign where negative |
| Curve.ALine | cmd/dashboard/mayhem_adv.go:400-412 | one line written out, with a bar in the mode and a negative multiplier |
| Curve.ParseCanonical | cmd/dashboard/mayhem_adv.go:366-372 | the canonical line reads back as the curve it was made from |
| Curve.ParseUndoesExactly | cmd/dashboard/mayhem_adv.go:400-414 | a line reads back as a curve if and only if it is that curve's canonical line |
| Curve.CanonicalIsInjective | cmd/dashboard/mayhem_adv.go:366-372 | equal lines mean equal curves: any mode, even with bars in it, any signs, an absent open-loop time and a zero one |

## Left out

- Agreement.PassExactly: covers the three cap types; a scenario without a cap is judged only by its own oracle and the audit.
- DelayedFaults.TeardownIsLastWriter: assumes guard and act are one step, which the code does not make them; `TeardownCanBeOvertaken` shows why. The panic path, which cancels no context, and the bench restore that overlaps the next run are not modelled.
- DelayedFaults: goroutines are a state machine on values, since what matters is their interleaving and not an object's fields.
- RunLoop.Driver.Run: a scenario's own oracle is any function of constraint and samples, and is taken to report under the scenario's id; a panic is modelled by what its recovery makes of any visible status, not by what raises it. The report that `finish` writes to disk is I/O.
- RunLoop.Driver.HandleStart: takes the decoded request and the suites it may choose from; decoding JSON, building a chaos suite from its seed and the display name of a scenario are left out.
- Diagnosis.DiagnoseConstraint: metrics and verdict only; headlines, diagnosis text and hints are prose. Nil constraints, which the run never passes, are not modelled.
- Invariants.FlagExpired: clock sums are unbounded integers; 64-bit wrap-around of a server time is not modelled.
- ReplayCost.SmartNeverMuchWorse: runs with import caps only; under any export or generation cap the bound can fail, which `ReplayBound.BoundHoldsExactly` makes exact.
- EnvGen.GenEnv: sin, powers, the Gaussian's shape, the rounding of limits and heat, and the calendar's day labels are arbitrary functions.
- Comparison.GeneratedEnvIsSane: asks of those functions only that they are not negative where the real ones are not.
- MqttSession.Session.Subscribe: whether a send fails is an input; how much of a failed send reached the broker is not modelled.
- MqttSession.Session.NotePublish: UTF-8 decoding is an arbitrary function from bytes to text.
- MqttTopics.MatchesStandard: the special treatment of topics that begin with $ (section 4.7.2) is not in the code and not in the model.
- LaneProbe.CheckLaneIsolation: starts from an open session and the broker's CONNACK code; opening the socket and printing are I/O.
- LogMux.EveryClientServed: a subscriber's JSON encoding and its HTTP response are I/O; the mutex is taken to make each operation one step.
- Curve.CanonicalIsInjective: stops at the line; SHA-256 is not part of this model. Integer widths are not modelled, so the result covers wider numbers than the code can hold.
- Floating-point rounding, here and everywhere, is replaced by exact reals; `round2` and the rounding to cents are modelled as functions of reals.
- The remaining diagnosers (EV, transport, reporting, OCPP, OpenADR, intent) are threshold counts of the same shape.
- HTTP handlers, SSH, network shaping, the single-page app, CSV reading and plotting are I/O.
