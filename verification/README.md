# A verified model of Intimatr's hard core

Intimatr runs inside a game process: it scales the time the game sees, scans the game's memory, and shuts itself down
without leaving anything behind. This project models the parts of it whose claims are about every run, and proves them
with Dafny 4.11. `dafny verify dfyconfig.toml` checks everything. The source is Rust; citations below are to its
files.

**The virtual clock and its session.** `Clock` and `Timers` are the clock that is re-anchored at each change of rate
and its projection into the four Windows timers; `Config`, `Policy` and `Controls` are settings, profiles and
controls; `Session` puts two leases over them that expire by themselves and are settled lazily. `SessionLaws` proves
the laws of whole runs, the main one being that polling leaves no trace. `Schedule` is a second, independent machine
that lives through real time tick by tick; the session refines it, and its exact integral bounds the drift. `Leases`
says in milliseconds how long a hold and the startup speed last. Multipliers are reals. The only floating-point
operation, scaling a number of ticks by a rate, is a parameter with three properties (`Numbers.Lawful`) that the
double-precision code has too; only the drift bound is about the floor of the exact product.

**The keyboard.** `Hotkeys`, `InputPump` and `WindowEpoch` are three stateful filters, `Coordinator` ties them to a
session. `InputPump.EdgeStep` is the small machine the pump and the dispatcher collapse to; `InputTrace` composes all
three, and with `InputLaws` proves exactly what any stream of windows and keys causes.

**The scanner.** `ScanPlan` cuts regions into overlapping chunks. `ScanProtocol` is the parallel scan as a state
machine: any number of workers sharing a work counter, a result counter, a stop and a cancel flag, and reporting over
a rendezvous channel, in any interleaving of atomic events. `ScanResult` and `Scans` prove what a finished run
returns, for first and next scans, against one sequential pass over real memory. `RegionScan` is the sequential walk
that the pattern scan (`PatternScan`) and the pointer search (`PointerChains`, `PointerSearch`) have in common, each
with its own test of the bytes it reads. The search is a breadth-first loop over a queue, proved to be the inverse of
following a chain.

**Hooks, shutdown and the worker pool.** `HookTransaction` is the transaction over import pointers and page
protections, any step of which may fail, and `HookFailures` shows it undisturbed and how a failure of it comes to pass
for a success. `ShutdownRace` is the lifecycle byte, the shutdown flag and the hook lock under any number of threads,
`ShutdownAlone` says what each of them brings about undisturbed, and `ShutdownOutcome` how the winner fares.
`BoundedExecutor` is the bounded queue with its callers, workers and shutdowns. `ShutdownRace` and `BoundedExecutor` are step relations;
a run is any interleaving that the locks allow, and every atomic access is one step in a single order.

Code that updates objects in place is modelled by classes and methods, each proved against a function of the old
state; the laws are lemmas about those functions. `Memory`, `Numbers` and `Sums` hold what the others share.

Three things hold only under a condition, and are proved with it. A comment in the hook code
(src/experimental_timer_probe.rs:272-273) says that a partial rollback is never taken for a complete installation. The
exact condition over all runs is one on the imports: some proper part of them, hookable one after the other, covers
every timer function and leaves an import out (`HookTransaction.HasSpare`). `HookTransaction.TimerHooks.Run` shows
that otherwise no run of enables and disables leads to it, and `HookFailures.ASpareLetsAFailurePass` that an ordinary
enable does wherever there is a spare. Which rollbacks do it is told by what was on record and the faults, for the one
inside an enable (`HookTransaction.TimerHooks.Enable`) and for that of a disable
(`HookTransaction.TimerHooks.Disable`); `HookFailures.AFailedEnableCanLookInstalled` and
`HookFailures.AFailedDisableCanLookInstalled` are one run each. The thread that wins the right to clean up may still
report an error, if the bootstrap overtakes it: `ShutdownRace.AWinnerCanStillReportAnError` is such a run,
`ShutdownOutcome.NoWinnerFailsAfterTheBootstrap` shows that it cannot happen once the bootstrap has installed the
runtime, and `ShutdownOutcome.AWinnerFailsExactlyWhenOvertaken` says for every run and every thread about to ask
whether it can come to that. Toggling twice brings back the rate, but not always the whole state:
`Controls.ToggleTwice` and `Controls.ToggleTwiceAtRest` say exactly when it does, and
`Controls.ToggleTwiceCanChangeTheControls` is a start from which it does not.

## Model

| member | source | states |
|---|---|---|
| Numbers.FloorScaleIsLawful | src/speed.rs:52-61 | real-number scaling has the three properties the clock laws rest on |
| Config.ValidationIsExact | src/speed_config.rs:80-131 | validation, by comparisons of neighbours, accepts exactly the settings whose rates all lie in a range around 1, with strictly increasing steps that include 1 |
| Clock.VirtualClock.Sample | src/speed.rs:52-61 | a sample returns and stores the projection of the timeline at the latest tick seen; an older tick changes nothing |
| Clock.VirtualClock.SetMultiplier | src/speed.rs:67-77 | an accepted rate cuts the timeline at the tick; a rejected one changes nothing, not even the last tick seen |
| Clock.VirtualIsMonotone | src/speed.rs:52-61 | virtual time never runs backwards, whatever ticks come in whatever order |
| Clock.CutDoesNotJump | src/speed.rs:67-77 | the value just before a change of rate is the value just after it |
| Clock.EarlierObservationIsForgotten | src/speed.rs:52-77 | observing early is invisible to every later observation and cut |
| Timers.WindowsTimers.Sample | src/speed_timers.rs:68-81 | a sample is the projection of the clock it leaves behind |
| Timers.WindowsTimers.SetMultiplier | src/speed_timers.rs:84-91 | a change of rate returns what a sample at the same tick would have returned |
| Timers.MillisecondsAreWhole | src/speed_timers.rs:68-81 | the timers start at their origins and count whole milliseconds: `ms` have passed exactly as long as the next one is not complete |
| Timers.ProjectionIsMonotone | src/speed_timers.rs:68-81 | counter and 64-bit tick never decrease as virtual time grows, through saturation |
| Timers.ThirtyTwoBitTimersFollow | src/speed_timers.rs:68-81 | the 32-bit tick is the low half of the 64-bit one, and the multimedia timer stays congruent to it until the 64-bit tick saturates |
| Controls.FirstAbove | src/speed_controls.rs:79-85 | a step up finds the slowest configured step that is faster, or none exactly if there is none |
| Controls.FirstBelow | src/speed_controls.rs:88-100 | a step down finds the fastest configured step that is slower, or none exactly if there is none |
| Controls.SpeedControlState.Create | src/speed_controls.rs:19-39 | controls exist exactly for valid settings, in the initial state of those settings |
| Controls.SpeedControlState.SelectPreset | src/speed_controls.rs:103-109 | a preset is accepted exactly if it is a configured step, and a refused one changes nothing |
| Controls.SpeedControlState.BeginHold | src/speed_controls.rs:59-65 | a hold is accepted exactly for a configured step, and covers the speed beneath it |
| Controls.SpeedControlState.Toggle | src/speed_controls.rs:112-121 | a toggle leaves to 1 or comes back to the last other speed |
| Controls.InitialIsConsistent | src/speed_controls.rs:19-39 | the initial controls of valid settings satisfy the invariant of the controls |
| Controls.InitialRemembers | src/speed_controls.rs:19-39 | the speed a first toggle brings back: the initial one, else the slowest step above 1, else the fastest below; and the controls start bypassed exactly if disabled or at 1 |
| Controls.OperationsKeepConsistency | src/speed_controls.rs:59-138 | every operation keeps it: an active speed is never 1 and is the one a toggle brings back, a hold is a configured step, every rate is within range |
| Controls.PresetsKeepConsistency | src/speed_controls.rs:103-109 | selecting or holding any configured step keeps the invariant of the controls |
| Controls.EffectiveIsValid | src/speed_controls.rs:42-50 | the rate in force is always positive and within the configured range |
| Controls.ToggleTwice | src/speed_controls.rs:112-121 | toggling twice without a hold restores the rate, and the controls themselves if and only if there was no other speed or it was the selected one |
| Controls.ToggleTwiceAtRest | src/speed_controls.rs:19-138 | at the start, toggling twice restores the controls if and only if the initial rate is not 1 or 1 is the only step; after a reset, if and only if both the initial rate and the only step are 1 |
| Controls.ToggleTwiceCanChangeTheControls | src/speed_controls.rs:19-121 | valid settings from whose initial controls toggling twice leads to other controls |
| Controls.StepUpThenDown | src/speed_controls.rs:79-100 | a step up stays put exactly at the fastest step, and otherwise a step down undoes it |
| Controls.StepDownThenUp | src/speed_controls.rs:79-100 | a step down stays put exactly at the slowest step, and otherwise a step up undoes it |
| Session.SpeedSession.Create | src/speed_session.rs:63-96 | a session exists exactly for valid settings and a positive frequency, in its start state |
| Session.SpeedSession.Sample | src/speed_session.rs:104-107 | a poll settles what is due and reads the timers; state and result are those of the pure step |
| Session.SpeedSession.AdvanceDeadlines | src/speed_session.rs:112-138 | the loop over leases ends with everything due settled, each lease at its own deadline |
| Session.SpeedSession.ExpireLease | src/speed_session.rs:123-137 | one lease ends at its deadline, and the rate restored is always one the clock accepts |
| Session.SpeedSession.Apply | src/speed_session.rs:141-187 | an action settles, then cuts the timeline or is refused with the error of the pure step |
| Session.SettleKeepsInv | src/speed_session.rs:112-138 | settling keeps the session invariant |
| Session.ApplyKeepsInv | src/speed_session.rs:141-187 | every action, accepted or not, keeps the session invariant |
| SessionLaws.EveryReachableStateIsSound | src/speed_session.rs:63-187 | in every reachable state the clock runs at the rate the controls call for, that rate is in range, and a hold is in force exactly while it has a deadline |
| SessionLaws.CountersNeverDecrease | src/speed_session.rs:104-187 | for ticks in any order, with anything in between, a later call never returns an earlier counter or 64-bit tick |
| SessionLaws.OutputsAgreeAcrossDomains | src/speed_timers.rs:68-81 | every result of every run ties the 32-bit timers to the 64-bit one |
| SessionLaws.ActionsDoNotJump | src/speed_session.rs:141-187 | a successful action returns exactly what a poll at its tick would have, and leaves the time there unchanged |
| SessionLaws.RefusedActionIsAPoll | src/speed_session.rs:141-187 | a refused action cannot be told from a poll by anything at or after its tick |
| Leases.StartupLastsExactly | src/speed_session.rs:63-138 | however it is polled, an enabled session that is left alone runs at its initial rate for exactly the startup duration, if there is one, and then in real time; one that is not enabled runs in real time |
| Leases.HoldLastsExactly | src/speed_session.rs:109-187 | after any run, an accepted hold of `ms` milliseconds is in force for exactly that long, one tick at least, and then the rate beneath it is back; a pending startup lease that ends meanwhile ends the hold too |
| Leases.ActionsMeanWhatTheySay | src/speed_session.rs:141-187 | every accepted action sets the rate it is for: the next faster or slower step, the remembered speed, 1, the preset, the hold, or what is beneath it; and only the hold actions keep a startup lease |
| Leases.ResetThenToggle | src/speed_controls.rs:103-138 | after a preset other than 1 and a reset, a toggle brings the preset back |
| SessionLaws.StartIsTimely | src/speed_session.rs:63-96 | a new session has no lease that ends before its first tick, so everything below holds from the start |
| SessionLaws.StepKeepsTimely | src/speed_session.rs:104-187 | in time order, every pending lease always ends at or after the latest tick seen |
| SessionLaws.SettleTwice | src/speed_session.rs:112-138 | settling at an earlier and then at a later tick is settling at the later one |
| SessionLaws.ObserveTwice | src/speed_session.rs:104-138 | a poll leaves no trace in anything observed at or after its tick |
| SessionLaws.PollingIndependence | src/speed_session.rs:104-187 | for runs in time order with the same actions, however they are polled, the next call returns the same and sets the same rate |
| Schedule.LazySettlementIsEager | src/speed_session.rs:104-187 | lazily settled, the session refines a machine that expires every lease on its tick: same acceptance, and a reading that adds the whole ticks lived in each segment |
| Schedule.EachTickAddsTheRate | src/speed.rs:52-77 | the exact integral grows by the rate in force with every real tick and by nothing else |
| Schedule.FloorLosesLessThanOne | src/speed.rs:52-61 | the floor of the product is never above it and less than one below |
| Schedule.DriftIsBelowOneTickPerSegment | src/speed_session.rs:104-187 | until saturation a reading is never ahead of the exact integral and less than one tick per segment behind |
| Schedule.SegmentsAreFew | src/speed_session.rs:109-187 | at most two segments to begin with and two more for each action |
| Hotkeys.AddBinding | src/speed_hotkeys.rs:138-154 | a chord is added, and counted as seen, exactly if nothing speaks against it; otherwise the first of the three reasons is the error |
| Hotkeys.Compile | src/speed_hotkeys.rs:99-135 | a configuration compiles if and only if all its chords parse, none is reserved or repeated, and its hold is an allowed step for 1 to 60000 ms; the table is the bindings asked for, hold last; otherwise the error is that of the first request refused |
| Hotkeys.NoErrorExactly | src/speed_hotkeys.rs:99-135 | there is a first request refused exactly if the configuration is not one that compiles |
| Hotkeys.ChordsDoWhatTheyAreFor | src/speed_hotkeys.rs:71-135 | in a configuration that compiles, a chord causes exactly the action it is configured for, and no other chord causes any |
| Hotkeys.CompiledActionsAreAccepted | src/speed_hotkeys.rs:71-135 | every action a compiled table can emit is accepted by controls with the same steps |
| Hotkeys.SpeedHotkeyDispatcher.OnKey | src/speed_hotkeys.rs:238-276 | which action a key event causes, and what the dispatcher then remembers |
| Hotkeys.SpeedHotkeyDispatcher.OnFocusLost | src/speed_hotkeys.rs:280-285 | losing focus forgets all keys and any hold |
| InputPump.FocusedInputPump.Sample | src/speed_input.rs:57-111 | the pump and the dispatcher together are the edge machine: a release exactly if a live hold's chord is broken, then the bound actions of newly pressed keys in ascending order |
| InputPump.FocusedInputPump.ReleaseKeys | src/speed_input.rs:57-111 | released keys and modifiers are dispatched before any press |
| InputPump.FocusedInputPump.PressKeys | src/speed_input.rs:57-111 | every newly pressed key is dispatched once, in ascending order |
| InputPump.BrokenMeansReleased | src/speed_input.rs:57-111 | a hold broken since the last sample always shows as a released key |
| InputPump.OnlyWatchedKeysMatter | src/speed_input.rs:33-111 | samples that agree on focus and on the watched keys have the same effect |
| WindowEpoch.ChooseUnique | src/speed_window.rs:46-54 | the one eligible window, or which of the two errors |
| WindowEpoch.OnePropertyDisqualifies | src/speed_window.rs:26-35 | a plain window is eligible under any identity and any title that does not name the program, and each single property makes any window ineligible |
| WindowEpoch.ChoicesAreUnique | src/speed_window.rs:46-54 | no choice exactly if nothing is eligible, ambiguity exactly if two windows are, and otherwise the one that is |
| WindowEpoch.EnumerationOrderIsIrrelevant | src/speed_window.rs:46-54 | two lists of the same windows in any order lead to the same choice or the same error |
| WindowEpoch.FocusedWindowEpoch.Observe | src/speed_window.rs:66-87 | a direct change of window passes through one sample without focus |
| InputTrace.Tick | src/speed_input.rs:57-111 | one tick of the three objects wired together is one step of the composed machine |
| InputTrace.ActionsAnswerPresses | src/speed_hotkeys.rs:228-285 | for every stream, an action other than a release or a focus loss answers a bound key that was up at the previous tick and is down at this one, in the same focused window |
| InputTrace.WindowsAreSeparated | src/speed_window.rs:66-87 | actions from two different windows have a focus loss between them |
| InputTrace.HoldsAlternate | src/speed_input.rs:57-111 | holds strictly alternate with releases and focus losses |
| InputLaws.FocusIsExact | src/speed_window.rs:66-87 | the chain is in focus exactly if the last tick showed a window with focus that was not a direct switch from another |
| InputLaws.ActionsAreThePresses | src/speed_input.rs:57-111 | for every stream and tick, the actions other than releases and focus losses are exactly those bound to the keys that went down there with the modifiers then down |
| InputLaws.ReleasesAreExact | src/speed_input.rs:57-111 | a hold is released exactly at the tick its key or one of its modifiers comes up in the focused window, before anything else |
| InputLaws.FocusLossesAreReported | src/speed_input.rs:57-64 | a focus loss is reported exactly when a window in focus loses it or another one takes over |
| InputLaws.PressesActInOrder | src/speed_input.rs:99-111 | of two bound keys pressed at one tick the one with the smaller code acts first |
| Coordinator.SpeedCoordinator.Create | src/speed_coordinator.rs:50-75 | a coordinator exists exactly if the hotkeys compile, the settings are valid and the frequency is positive |
| Coordinator.SpeedCoordinator.Apply | src/speed_coordinator.rs:120-128 | a manual action goes through the session unchanged and is remembered exactly if it was accepted |
| Coordinator.SpeedCoordinator.InputSampleWithActions | src/speed_coordinator.rs:97-116 | an input sample emits what the edge machine emits, never fails, returns the timers as they were before its actions, and after a focus loss the clock runs in real time |
| Coordinator.EmittedActionsAreAcceptable | src/speed_coordinator.rs:97-135 | whatever the input can emit is accepted, so the reset after an input error is never reached |
| Coordinator.ReadingSurvivesAnAction | src/speed_coordinator.rs:97-116 | an accepted action leaves the reading at its own tick as it was |
| Coordinator.BatchesDoNotJump | src/speed_coordinator.rs:97-116 | a whole batch of acceptable actions changes the rate but not the time read at its tick |
| Coordinator.FocusLossRestoresRealTime | src/speed_coordinator.rs:97-116 | after a focus loss the rate is 1 |
| Coordinator.InputMovesNoTime | src/speed_coordinator.rs:97-116 | for every session state and every sample: what is emitted is acceptable, the reading is unchanged, and a focus loss stands alone and leaves the rate at 1 |
| Policy.ValidateBottles | src/speed_policy.rs:131-146 | accepted exactly if every bottle rule has a valid, unique identity and leads to usable settings |
| Policy.ValidateGames | src/speed_policy.rs:148-169 | accepted exactly if every executable rule has a valid, unique identity and leads to usable settings on top of its bottle's rule |
| Policy.ValidateProfile | src/speed_config.rs:40-51 | a profile is accepted exactly if it is valid |
| Policy.EveryChainWasTried | src/speed_policy.rs:177-216 | whatever chain of overrides applies to a bottle and a path, validation has already found it usable |
| Policy.EverySettingHasItsRule | src/speed_policy.rs:25-43 | each of the six settings comes from the executable's rule if it sets it, else from the bottle's, else from the profile |
| Policy.ResolveFor | src/speed_policy.rs:177-216 | resolution succeeds exactly for valid profiles and well-formed identities; settings are usable, and anything any rule excludes is disabled |
| Policy.ResolvedLaunchProfile | src/speed_policy.rs:222-237 | the launch profile is valid, has no overrides, and is enabled exactly if the chain enables it and nothing excludes it |
| Memory.RequirementsAreIndependent | src/memory.rs:44-50 | with nothing required a region is scanned exactly if it is committed, and each requirement shuts out exactly the regions it is about |
| Memory.ReadExact | src/memory.rs:89-138 | a read returns every byte asked for, or fails exactly if one cannot be read |
| Memory.GridMembers | src/scanner/engine.rs:512-558 | what a loop in steps of the alignment visits |
| ScanPlan.ResolveWorkerCount | src/scanner/engine.rs:697-708 | between 1 and 64 workers, at most 16 when the count is automatic, and never more than units of work; as many as asked for whenever that is possible |
| ScanPlan.AlignedScanSpan | src/scanner/engine.rs:735-740 | the stride is the largest multiple of the alignment within the chunk size, or the alignment itself if there is none, and always fits an address |
| ScanPlan.ChunkTakes | src/scanner/engine.rs:401-418 | one chunk takes exactly the positions of its span from the rest of the region |
| ScanPlan.PlanRegion | src/scanner/engine.rs:390-419 | the chunks of a region visit exactly its aligned positions in order, read only inside it, and their spans add up to no more than it |
| ScanPlan.PlanChunks | src/scanner/engine.rs:379-420 | the whole plan visits exactly the positions of a sequential scan, each once and in order, and fails exactly if a scannable region runs past the end of the address space |
| ScanPlan.PositionsAreThePlaces | src/scanner/engine.rs:362-420 | the positions of a scan are exactly the addresses a whole number of alignments from the base of a scannable region at which a value still fits |
| ScanPlan.ChunkPositionsAreThePlaces | src/scanner/engine.rs:510-513 | the positions of chunks are exactly those aligned from a chunk's start, in its span, with the value inside its buffer |
| ScanPlan.PositionsAscend | src/scanner/engine.rs:362-420 | over disjoint regions no address is visited twice |
| ScanPlan.EvaluateChunk | src/scanner/engine.rs:505-562 | the loop over a buffer evaluates exactly the chunk's positions, without overflow, and has then covered the bytes up to one step past the last of them |
| Scans.ItemsCoverTheChunk | src/scanner/engine.rs:520-570 | the bytes attributed to a chunk's positions add up to exactly what the loop has covered |
| ScanProtocol.StepKeepsInv | src/scanner/engine.rs:483-573 | every event of any worker keeps six invariants: slots, hits, flags, reasons for leaving, drain and bytes |
| ScanProtocol.RunsSatisfyInv | src/scanner/engine.rs:465-584 | those six invariants hold after every interleaving of any number of workers |
| ScanProtocol.RunsFollow | src/scanner/engine.rs:483-573 | in every interleaving each claimed item is in exactly one place, and kept results are hits that were evaluated |
| ScanProtocol.HaltsAreHeeded | src/scanner/engine.rs:483-516 | after a stop or a cancellation no worker evaluates another position, and only those that had passed their check claim another batch, whatever happens next |
| ScanProtocol.NoWorkerIsLeftBlocked | src/scanner/engine.rs:640-675 | a worker that has not left can always take its next step: the thread it reports to is still receiving |
| ScanProtocol.DrainingEndsWithTheLastWorker | src/scanner/engine.rs:662-675 | the draining thread stops exactly when every worker has sent its final event |
| ScanProtocol.EveryScheduleEnds | src/scanner/engine.rs:483-573 | no interleaving has more events than the work allows |
| ScanResult.ErrorsComeFromFaults | src/scanner/engine.rs:578-584 | the caller gets an error exactly if some worker evaluated a position that cannot be decoded or compared |
| ScanResult.ResultsAreGenuine | src/scanner/engine.rs:501-587 | under any stop, cancellation or error: results are hits, none twice, at most the limit; the limit is reported only when reached; bytes are never counted twice |
| ScanResult.NothingIsSkipped | src/scanner/engine.rs:483-573 | without a stop, a cancellation or an error every position is evaluated exactly once and every byte accounted for |
| ScanResult.ResultsAreComplete | src/scanner/engine.rs:677-695 | uncancelled and without an error, a scan returns exactly the smaller of the hits and the limit, and is truncated if and only if the hits reach the limit |
| ScanResult.SortedIsUnique | src/scanner/engine.rs:586-587 | an unstable sort by address has one possible outcome when addresses are distinct |
| ScanResult.EveryScheduleIsTheSequentialScan | src/scanner/engine.rs:465-587 | sorted and truncated, the result of every schedule is that of one sequential pass |
| Scans.FirstScanIsSequential | src/scanner/engine.rs:348-626 | a first scan returns the matches of the readable chunks in order, with the values found there; of all positions, if all chunks can be read |
| Scans.FirstScanFindsExactly | src/scanner/engine.rs:348-626 | where the scannable regions can be read, a candidate is returned if and only if it is an aligned place inside one of them, with the value there, and that value matches |
| Scans.FirstScanFindsTheReadable | src/scanner/engine.rs:348-626 | where they cannot, a candidate is returned if and only if it is such a place of a chunk that can be read |
| Scans.BytesStayWithinTheTotal | src/scanner/engine.rs:371-376 | at no moment of any run do the bytes scanned exceed the announced total |
| Scans.TotalIsExact | src/scanner/engine.rs:371-376 | over disjoint regions the saturating total is the exact one |
| Scans.SliceAt | src/scanner/engine.rs:176-182 | the k-th claim of a next scan is the k-th run of 4096 candidates |
| Scans.SlicesAreWhole | src/scanner/engine.rs:176-182 | claimed in batches, the candidates are the same in the same order |
| Scans.NextScanIsSequential | src/scanner/engine.rs:99-295 | a next scan keeps exactly the candidates that can be read and still match, in order, each with its present and its earlier value, and counts the bytes of all |
| Scans.NextScanFindsExactly | src/scanner/engine.rs:99-295 | a candidate is returned if and only if it is an earlier one that can still be read and still matches, with its present and its earlier value |
| Scans.NextBytesStayWithinTheTotal | src/scanner/engine.rs:114-211 | at no moment of any next scan do the bytes scanned exceed those of all candidates, the announced total |
| RegionScan.MultipleIsRemainder | src/analysis.rs:145-149 | being a whole number of alignments away is having no remainder |
| RegionScan.ScanChunk | src/analysis.rs:143-156 | one readable chunk adds its matches after the earlier ones, up to the limit |
| RegionScan.ScanRegion | src/analysis.rs:127-165 | one region, to the end even where the cursor saturates, counting the chunks that cannot be read |
| RegionScan.ScanRegions | src/analysis.rs:121-165 | the first results of the list of matches in readable chunks, truncated exactly if there are that many; an error exactly if an overflowing region comes first |
| RegionScan.WithoutFailuresScanIsNaive | src/analysis.rs:113-165 | if all chunks can be read, overlapping chunks find the naive list of matches, none lost or repeated |
| RegionScan.FoundExactly | src/analysis.rs:136-141 | read failures lose exactly the matches that start in a failed chunk |
| RegionScan.FailuresAreTheUnreadable | src/analysis.rs:127-141 | the failures counted are the chunks, a whole number of chunk sizes from the base, that cannot be read |
| RegionScan.MatchesAscend | src/analysis.rs:121-165 | over disjoint regions every match is found once, in ascending order |
| PatternScan.Parse | src/analysis.rs:37-55 | a pattern parses exactly if it has tokens and each is two hexadecimal digits or question marks |
| PatternScan.NibblesAreDigits | src/analysis.rs:73-84 | exactly the question mark and the hexadecimal digits are accepted, in both cases, each standing for its own value |
| PatternScan.TokensMatchHalves | src/analysis.rs:26-55 | a token's first character is about the high half of a byte and its second about the low half, and a question mark leaves its half open |
| PatternScan.ShownTokensParse | src/analysis.rs:37-84 | every pattern byte can be written as a token that parses back to it |
| PatternScan.ExactTokenMatchesOneByte | src/analysis.rs:26-28 | a byte without wildcards matches itself and nothing else |
| PatternScan.ScanPattern | src/analysis.rs:100-180 | which error comes when, and otherwise the first matches, whether truncated, and the number of read failures |
| PatternScan.CompleteScanIsNaive | src/analysis.rs:100-180 | without truncation and failures, an address is found if and only if it is aligned and fits in some scannable region and the bytes there match the pattern one by one |
| PointerChains.AddSigned | src/analysis.rs:266-274 | an offset is added exactly if the sum is an address |
| PointerChains.PointersFit | src/analysis.rs:320-336 | four or eight little-endian bytes always make an address |
| PointerChains.PointersAreLittleEndian | src/analysis.rs:320-336 | a pointer is the sum of its four or eight bytes, each weighted by its place, the lowest first |
| PointerChains.ResolvePointerChain | src/analysis.rs:290-310 | the loop follows the chain: each pointer is the little-endian number of the bytes where the chain has come to, each next address adds the offset; and an error is that of a first place where the chain cannot be followed |
| PointerChains.ErrorsAreWhereTheyOccur | src/analysis.rs:290-310 | a read error comes where nothing can be read, an overflow where an offset leads out of the address space, and everything before is followed |
| PointerChains.PredecessorsLead | src/analysis.rs:426-486 | a predecessor can be read, and adding its offset to what it holds gives the address searched for |
| PointerChains.ScanPointerPredecessors | src/analysis.rs:426-486 | the first predecessors in order, each with its offset; an error exactly if an overflowing region comes before there are enough |
| PointerSearch.Visit | src/analysis.rs:391-406 | keeping one path, and queueing its root if new, keeps the search invariant |
| PointerSearch.FollowUp | src/analysis.rs:391-406 | all links of an entry are found, or the results are full |
| PointerSearch.SearchPointerChains | src/analysis.rs:353-414 | exactly when each error comes; paths are sound and shortest first, and all are there if fewer than the limit were returned; the loop ends |
| PointerSearch.ChainsAreFound | src/analysis.rs:373-406 | every chain within the depth is found link by link from the target outwards |
| PointerSearch.FirstPathIsShortest | src/analysis.rs:373-406 | the first path of a root is a shortest one |
| PointerSearch.LinkedIsNaive | src/analysis.rs:373-486 | with readable memory the chains followed are exactly those of aligned pointers with offsets in range |
| PointerSearch.ResolvesIsFollowing | src/analysis.rs:290-310 | with readable memory a chain counts as resolving to the target if and only if following it ends there, its offsets are in range and every pointer it reads lies at an aligned place of a scannable region |
| PointerSearch.SearchInvertsResolution | src/analysis.rs:290-414 | with readable memory: everything returned resolves to the target, and every root from which the target resolves within the depth is returned, with no longer a chain |
| HookTransaction.RestoreOneOwns | src/experimental_timer_probe.rs:498-528 | restoring one slot, with any of its three steps failing, loses no obligation |
| HookTransaction.InstallOneOwns | src/experimental_timer_probe.rs:664-688 | installing one slot, with either protection change failing, loses no obligation |
| HookTransaction.InstallOneSucceeds | src/experimental_timer_probe.rs:467-493 | a patch succeeds exactly if the slot is aligned, its page opens and closes, and the pointer was not hooked before |
| HookTransaction.NothingPendingIsOriginal | src/experimental_timer_probe.rs:524-527 | when nothing is pending, every pointer and protection is the original |
| HookTransaction.ScannedIsScan | src/experimental_timer_probe.rs:393-421 | the scan finds every pointer to a timer function and nothing else |
| HookTransaction.RollbackLooksInstalled | src/experimental_timer_probe.rs:272-288 | told by imports and faults: a record left by a rollback passes for a full installation if and only if the imports reached were all hooked and cover every timer function, and the rollback could open none of their pages but close all |
| HookTransaction.PassesExactly | src/experimental_timer_probe.rs:272-288 | for the rollback inside an enable: it does so although some import is not hooked exactly if moreover some import is none of those reached |
| HookTransaction.RemainsPassExactly | src/experimental_timer_probe.rs:272-288 | for every rollback, told by the slots there were and the faults: the record passes although some import is not hooked if and only if all slots were swapped and cover every timer function, no page opens, every page closes, and some import has no slot |
| HookTransaction.PassingNeedsASpare | src/experimental_timer_probe.rs:272-288 | a record that passes although some import is not hooked takes imports of which a proper part covers every timer function and leaves one out |
| HookTransaction.FailuresPassExactlyWithASpare | src/experimental_timer_probe.rs:662-707 | faults that make the failure of one enable pass for a success exist if and only if a proper part of the imports, hookable one after the other, covers every timer function and leaves one out; no injected fault is needed |
| HookTransaction.TimerHooks.FailureThatLooksComplete | src/experimental_timer_probe.rs:662-707 | every failure at an import, injected or not, before which the imports cover every timer function and after which the rollback opens no page: the record passes for complete and that import is not hooked |
| HookTransaction.TimerHooks.InstallOrRollBack | src/experimental_timer_probe.rs:662-707 | the transaction: exactly when it succeeds; otherwise the record is what the rollback makes of the slots its inputs determine, and passes for complete with an import not hooked exactly for the inputs described |
| HookTransaction.TimerHooks.RestoreSlots | src/experimental_timer_probe.rs:498-528 | every pending slot is tried once; what becomes of each depends on its own faults only; clean is reported exactly if nothing is pending |
| HookTransaction.TimerHooks.InstallSlots | src/experimental_timer_probe.rs:662-688 | complete exactly if nothing stands in the way of any import; the slots reached are those the inputs determine |
| HookTransaction.TimerHooks.Enable | src/experimental_timer_probe.rs:618-708 | from an empty record, enabling succeeds exactly if every condition holds, then hooks every import; otherwise everything is original or the record is what the rollback makes of the slots reached; success is reported with an import not hooked exactly if the record passed for complete before |
| HookTransaction.TimerHooks.Disable | src/experimental_timer_probe.rs:844-863 | disabling succeeds exactly if every slot is restored and no callback runs, and then the process is the original; otherwise the record passes for complete with an import not hooked exactly for the old records and faults described |
| HookTransaction.TimerHooks.Run | src/experimental_timer_probe.rs:467-863 | after any operations with any faults, an empty record means that every pointer and protection is the original; and only if the imports have a spare can the record pass for complete, or an enable have reported success, with an import not hooked |
| HookFailures.EnableUndisturbed | src/experimental_timer_probe.rs:618-708 | with aligned, distinct imports and no faults, enabling succeeds and every pointer to a timer function leads to its hook |
| HookFailures.DisableUndisturbed | src/experimental_timer_probe.rs:844-863 | with no faults and no callback running, disabling succeeds and the process is the original |
| HookFailures.ASpareLetsAFailurePass | src/experimental_timer_probe.rs:618-708 | wherever the imports have a spare, an ordinary enable can fail, leave a record that passes for complete, and let the next enable report success with an import not hooked |
| HookFailures.AFailedEnableCanLookInstalled | src/experimental_timer_probe.rs:618-708 | one call to enable with five imports, the fifth of whose pages does not open, and a rollback that opens none: it fails, and its record passes for complete with one import not hooked |
| HookFailures.AFailedDisableCanLookInstalled | src/experimental_timer_probe.rs:618-863 | one run in which the record left by the failed enable does not pass, a disable that only closes pages makes it pass, and the next enable reports success |
| ShutdownRace.EveryChangeRaisesTheRank | src/lifecycle.rs:57-149 | a step that changes the lifecycle raises its rank, and the shutdown flag is never taken back |
| ShutdownRace.EveryReachableStateIsSound | src/runtime.rs:64-79 | the invariant of the race holds after every interleaving |
| ShutdownRace.StoppingMeansUnhookedForever | src/runtime.rs:64-79 | once the lifecycle is stopping or stopped, the hook record is empty and stays so whatever any thread does |
| ShutdownRace.ShutdownKeepsItsPromises | src/lifecycle.rs:70-136 | a successful shutdown leaves no hooks; at most one caller wins; no retry loop fails more often than the rank, which is at most 6 |
| ShutdownRace.SomeThreadCanMove | src/experimental_timer_probe.rs:618-629 | no deadlock: an unfinished thread can move, or the holder of the lock can |
| ShutdownRace.AWinnerCanStillReportAnError | src/lifecycle.rs:138-149 | a run in which the winner of the shutdown reports an error although everything is stopped |
| ShutdownAlone.EnablingAlone | src/experimental_timer_probe.rs:618-708 | left alone, enabling installs the hooks if and only if the runtime is running, no shutdown was requested and they can be installed |
| ShutdownAlone.DisablingAlone | src/experimental_timer_probe.rs:844-863 | left alone, disabling removes the hooks exactly if they can be removed |
| ShutdownAlone.ShuttingDownAlone | src/runtime.rs:64-122 | left alone, a shutdown removes the hooks, stops the runtime and succeeds; unless hooks cannot be removed, which it leaves with the lifecycle as it was |
| ShutdownAlone.BootstrapAlone | src/runtime.rs:154-204 | left alone, the bootstrap brings the runtime up with its hooks, marks a failure if its work fails, and takes it down if a shutdown was requested |
| ShutdownAlone.LoaderAlone | src/runtime.rs:141-143 | the loader asks for a shutdown and does nothing else |
| ShutdownAlone.FailingAlone | src/lifecycle.rs:70-88 | left alone, marking a failure marks it unless the runtime is stopping or stopped |
| ShutdownAlone.HooksGetInstalled | src/runtime.rs:154-204 | a run after which the hooks are installed |
| ShutdownAlone.ShutdownRemovesTheHooks | src/runtime.rs:64-122 | its continuation by a shutdown that removes them, stops the runtime and succeeds |
| ShutdownOutcome.NoWinnerFailsAfterTheBootstrap | src/lifecycle.rs:96-149 | in every interleaving, once the bootstrap has marked the runtime as running, no winner of the shutdown ever reports an error |
| ShutdownOutcome.AWinnerFailsExactlyWhenOvertaken | src/runtime.rs:64-122 | for every reachable state and every thread about to request the shutdown: some continuation lets it win and fail if and only if the lifecycle is neither stopping nor stopped and the bootstrap has not passed its last look at the shutdown flag, or is already on its own way to stopping |
| BoundedExecutor.RunsSatisfyInv | src/backpressure.rs:93-196 | the invariants of lock, queue, closers and stops hold after every interleaving |
| BoundedExecutor.RunsConserve | src/backpressure.rs:118-196 | an accepted command is always in exactly one place |
| BoundedExecutor.EveryCommandAtMostOnce | src/backpressure.rs:118-144 | the queue is bounded, commands precede stops, and a command is run and answered at most once, and only if accepted |
| BoundedExecutor.EveryCommandIsRun | src/backpressure.rs:169-190 | until a shutdown begins nothing is refused and whatever is answered has been run once |
| BoundedExecutor.AnswersTellWhatHappened | src/backpressure.rs:118-144 | a call that returned got a result if and only if its command was run, exactly once, and the error if and only if it was never run |
| BoundedExecutor.NothingStartsAfterTheStop | src/backpressure.rs:183-190 | once the pool is stopping, a command no worker has begun is never run, whatever happens next, and its call can only return the error |
| BoundedExecutor.CommandsComeInOrder | src/backpressure.rs:118-190 | commands are received in the order in which they were accepted |
| BoundedExecutor.ShutdownEndsClean | src/backpressure.rs:93-114 | a shutdown that returns leaves every worker gone with one stop each, an empty queue, and every accepted command answered exactly once |
| BoundedExecutor.EveryScheduleEnds | src/backpressure.rs:93-196 | no interleaving has more events than the calls allow |
| BoundedExecutor.StuckMeansDone | src/backpressure.rs:93-196 | an interleaving that cannot go on has ended with every call returned |

## Left out

- Numbers.Lawful: double-precision rounding is not modelled; the clock laws need only three properties of the scaling, and the drift bound is about the floor of the exact product.
- Session.SpeedSession.ExpireLease: the code's fallback when the clock refuses a restored rate is not modelled as a branch, because it is proved that the clock never does.
- Hotkeys.AddBinding: takes a chord that is already parsed, or marked as malformed.
- Hotkeys.Compile: takes chords that are already parsed, or marked as malformed; the grammar of chord texts is not modelled.
- Policy.ResolveFor: the two normalisations of names and paths are arbitrary functions that may fail; their idempotence is not claimed.
- InputTrace.Tick: how candidate windows and key states are obtained from the system is outside the model; a stream is any sequence of candidates.
- ScanPlan.PlanChunks: takes the regions as already sorted by base; that sorting the list is a permutation is not part of it.
- ScanProtocol.RunsSatisfyInv: decoding and the predicate are one outcome per position; the addition of one candidate's bytes and the next look at the flags are one event, and any look may add the bytes covered so far, which covers both kinds of scan; counters do not wrap, and those that only feed statistics are not modelled.
- Scans.NextScanIsSequential: candidates carry raw bytes where the code carries the decoded value.
- RegionScan.ScanRegions: one loop stands for the two loops that pattern scan and pointer search contain; running out of memory is not modelled.
- PatternScan.ScanPattern: is not called with a chunk size that can never be allocated; the code would panic.
- PatternScan.Parse: takes the tokens of a pattern already split at white space, and compares halves of bytes where the code compares under a mask made of whole halves.
- PointerChains.ResolvePointerChain: starts at a known base address; parsing address expressions and looking up modules is not modelled.
- HookTransaction.TimerHooks.Enable: reading the executable image, creating the session and pinning the module are conditions given from outside; other code does not change the hooked pointers or page protections.
- HookTransaction.TimerHooks.Disable: the timeout of the wait for callbacks is a choice that may come out as idle only when no callback runs.
- ShutdownRace.EveryReachableStateIsSound: starts after the one attachment and has one bootstrap thread; a second attachment would clear the shutdown flag. Tearing down the runtime context and its worker threads between winning and the final mark is not modelled.
- BoundedExecutor.RunsSatisfyInv: receiving from the queue is one step, with the mutex around the receiver folded into it; the inner executor's own shutdown is not modelled.
- Weak memory orderings: every atomic access takes effect in one global order.
- Panics, poisoned mutexes and wall-clock timeouts.
- Whether the preview session and the installed hook session agree; they may not after arming.
- The scanner's checks of its own options, each settled by one comparison.
- The debugger, the structure inspector, workspaces, remote procedure calls, windows and overlays, logging, files and the tools for Wine and Bottles.
