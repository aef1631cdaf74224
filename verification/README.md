# Homeport, verified

Homeport keeps published services reachable over several tunnels: a frontend measures every
tunnel, decides which one carries the traffic and bills what each of them used; a backend
follows the decision and reports usage; linkers join further hosts. This project models the
protocols, state machines and algorithms behind that in Dafny and proves what they promise.
`dafny verify dfyconfig.toml` checks all of it.

## How it is laid out

| file | what it models |
|---|---|
| `Words` | fixed-width integers |
| `UsageDeltas`, `Meter` | the backend's usage meter: numbering, buffering, batching, acknowledgement |
| `Quota`, `Ledger`, `UsageIntake` | the frontend's billing arithmetic and periods, its ledger and watermarks, and what it does with one usage frame |
| `MeteringRuns`, `Billing` | both ends of metering and the network between them, over whole runs, down to the ledger's columns |
| `Decisions` | the routing decision from the frontend to the backend's applied route |
| `EngineLocks` | the engine's route writers interleaved lock by lock |
| `Probing`, `Health`, `Selection` | the prober, the health tracker and circuit breaker, and path selection |
| `Wire`, `Sessions` | the probe packet, everything a key authenticates, and control sessions on a hostile network |
| `Networks`, `Ports` | CIDR merging and feed limits; port intervals, limits and set names |
| `Pacing` | the per-source reply pacer |
| `PolicyRules`, `ProbeRules`, `LinkerRules` | policy rules as commands that may be refused, and the two reconcilers over them |

An object the program updates in place is a class whose methods are proved equal to functions
of the old state; the theorems are about those functions, over every run. A protocol is a
record of both ends, a step for every locked section or message, and an invariant every step
keeps. Where a kernel command or a write may fail, its failure is a parameter, and claims about
"every moment" range over the state after each single command.

## What came out

- Within a frame, acceptance is exactly: above the watermark, within reach, and above every
  earlier reachable number. From that, over any loss, duplication, late acknowledgement, restart
  or commit that failed after taking effect, every numbered delta is billed at most once and is
  never lost without being on the list a full buffer dropped; counter growth is conserved.
- The prober delivers every result in order with no number passed over, except in one case: when
  the reader has ended its socket's context, a result already taken off the queue may be dropped
  instead of sent (`internal/engine/prober.go:507-511`), and then it is gone for good.
  `Probing.DeliveredInOrder` says nothing is missing if and only if no flush was cancelled so,
  `Probing.CancelledRun` gives such a run from any start, and `Probing.DroppedForGood` says the gap is
  permanent.
- The session guarantee needs a failed write to leave nothing on the wire, and needs exactly that:
  without a leaked write what is accepted is a prefix of what was written
  (`Sessions.AcceptedArePrefix`), and from any leaked write in any run the reader can go on to accept
  more than was written (`Sessions.LeakRunsAhead`). `Sessions.AcceptedWereOffered` is what always
  holds.
- A linker puts its default route in even when its rule was refused
  (`internal/linker/linker.go:356-363`). If none of its three rules got in and the configured table is
  changed then, the old table keeps the route with nothing to show whose it is
  (`LinkerRules.RefusedThenMoved`). A change of the backend's address along with the table does it too,
  with every rule in: the old default is no longer recognised (`internal/sysx/linker.go:305-308`), and
  the next pass withdraws the marker and leaves the route (`LinkerRules.MovedWithBackend`). No later
  pass takes such a route out (`LinkerRules.OrphanStays`). Everything abandoned stays within a pass's
  reach if and only if every change of setup leaves cleanly: the table left behind has a default the
  new backend recognises and a rule of any of the three, or no default of the system's; nothing earlier
  is still unrelieved when the backend changes; and none of it depends on the old overlay address when
  that changes (`LinkerRules.NeverOrphaned`).
- A decision under the number already in force, naming another path, passes every check at the
  backend unless something newer is queued; one under a lower number passes none
  (`Decisions.OnlyEqualNumbersRewind`). Numbers
  never name two paths because the frontend decides under its own lock and a restarted one starts
  higher (`internal/engine/engine.go:352-368`).
- Between a route going in and the switch being recorded, the kernel may lose the route; the
  record then disagrees with the kernel until the next repair. `EngineLocks` counts that, like any
  loss from outside, as ending the guarantee (`EngineLocks.SyncedSince`).
- A probe can be answered before its own write is reported refused. The refusal then overwrites the
  answer with a loss (`internal/engine/prober.go:327-335`): `Probing.ReplyCounts` says a true reply is
  what leaves under its number unless that happens, and `Probing.RefusalCounts` that a loss leaves if
  it does.
- A wrapping counter cannot appear in the cooldown for any non-negative base, capped or not
  (`Health.DoubledExact`).

## Model

| member | source | states |
|---|---|---|
| Meter.Meter.Sample | internal/agent/meter.go:95-147 | one pass is the turns of its paths one after the other, and drops only the oldest when the buffer is full; dropped and kept together are everything there was |
| Meter.Meter.SamplePath | internal/agent/meter.go:104-138 | one path's turn mints, under its next number, exactly the two differences of its counters, and only where neither fell and one rose; a fall, a first or unreadable reading and an unmetered path mint nothing, and a reading taken is the next baseline |
| Meter.PassMints | internal/agent/meter.go:95-147 | where no two paths share an interface, a whole pass gives each path exactly what its own two readings earn it |
| Meter.ScanNumbers | internal/agent/meter.go:130-138 | whatever the paths and readings, each path's new deltas continue its numbering without a gap |
| Meter.ScanGrowth | internal/agent/meter.go:111-127 | a pass mints exactly the bytes its interface's history of readings grew by |
| Meter.SteadyGrowth | internal/agent/meter.go:118-119 | over readings that never fall, growth is the last byte counter less the first |
| Meter.GrowthSplits | internal/agent/meter.go:120-126 | where either counter falls, growth is that of the readings before plus that of the readings from there on |
| Meter.Meter.PendingBatch | internal/agent/meter.go:186-265 | exactly min(n, buffered) deltas; for each path a prefix of its backlog in order; every path gets its share or its whole backlog |
| Meter.SinglePathBatch | internal/agent/meter.go:218-230 | the one-path shortcut is the same batch the general division gives |
| Meter.Meter.AckApplied | internal/agent/meter.go:277-292 | the in-place filter leaves exactly the deltas above their path's acknowledged number, in order |
| Meter.UnackedMembers | internal/agent/meter.go:279-285 | a delta survives an acknowledgement if and only if its number is above it |
| UsageIntake.CheckDeltaSettles | internal/engine/control.go:865-950 | a checked delta has its counts brought to the nearest bound and a stamp out of bounds set to now; checking it again changes nothing, and one already in bounds is untouched |
| UsageIntake.AcceptedAreRecords | internal/engine/control.go:1084-1153 | a frame's accepted deltas are exactly those new, within reach and above every earlier reachable one |
| UsageIntake.AcceptedShape | internal/engine/control.go:1116-1149 | accepted numbers ascend strictly, and the new watermark is the highest reachable number, no further than the jump bound |
| UsageIntake.SettledAccount | internal/engine/control.go:1108-1181 | a frame only extends what was billed, with numbers above the old watermark, which never falls; the acknowledgement never exceeds what is durable |
| UsageIntake.CommittedFrame | internal/engine/control.go:1084-1181 | from the configuration's own fields: a readable metered path whose commit succeeds is billed exactly the records of its part of the frame, an unmetered or unknown one nothing, and either way watermark and acknowledgement come to the highest number taken |
| UsageIntake.UncommittedFrame | internal/engine/control.go:1003-1181 | an unreadable or impossible path is left alone and not acknowledged; a rolled back commit changes nothing and acknowledges at most the old watermark |
| UsageIntake.UncertainFrame | internal/engine/control.go:1155-1181 | a commit that failed after taking effect settles as a successful one and acknowledges only the old watermark |
| UsageIntake.EntryExact | internal/engine/engine.go:1779-1809 | an entry carries the clamped delta, converted, in the billing period its clamped stamp lies in |
| UsageIntake.ControlServer.ApplyUsage | internal/engine/control.go:966-1182 | for every path ledger and watermark move to what the frame settles, failed, uncertain and unreadable paths included, and the acknowledgement says so |
| UsageIntake.ControlServer.AddUsageBatch | internal/engine/engine.go:1768-1810 | one path's samples reach the ledger with their watermark or not at all; an unmetered path moves only the watermark |
| Ledger.Store.AddUsageBatch | internal/store/store.go:318-395 | all of a batch, its history rows field by field and its watermark, or none of them; each column stays its capped sum |
| Ledger.UpsertBalances | internal/store/store.go:351-386 | adding one entry to any period keeps every column equal to its capped true sum, without overflow |
| Ledger.TotalAdds | internal/store/store.go:351-386 | a true sum grows by the non-negative figures of each booking of its path in its period, and by no other |
| Ledger.ColumnIsCappedSum | internal/store/store.go:351-386 | a row exists exactly where something was booked, and each of its columns is that sum or 2^60 |
| Ledger.ColumnMonotone | internal/store/store.go:434-442 | no batch ever lowers a ledger column |
| MeteringRuns.AtMostOnce | internal/engine/control.go:966-1182 | over a whole run watermarks never fall and each path's number is billed at most once, as the delta that was given it |
| MeteringRuns.StepOnward | internal/engine/control.go:1116-1149 | one frame moves a watermark by at most the jump bound and bills only above the old one |
| MeteringRuns.NoLoss | internal/agent/meter.go:241-291 | at every moment each numbered delta is billed, buffered, discarded as unmetered, or on the dropped list; at or below the watermark none is left waiting |
| MeteringRuns.EvictedWhenFull | internal/agent/meter.go:139-146 | nothing is dropped but by a sample that leaves the buffer full |
| MeteringRuns.DeliveryBills | internal/engine/control.go:966-1182 | in any run a committed delivery to a metered, readable path puts every delta of its applied part above the watermark and within reach on the books |
| MeteringRuns.AckedIsSettled | internal/agent/meter.go:268-292 | every delta an acknowledgement drops from the buffer was already billed or discarded as unmetered |
| MeteringRuns.Conservation | internal/agent/meter.go:95-147 | over a whole run an interface's counter growth equals the bytes of the deltas billed, buffered, dropped by a full buffer and discarded |
| MeteringRuns.MeteredKeepsAll | internal/engine/engine.go:1773-1777 | nothing of a path every delivery finds configured and metered is ever discarded, so its balance has three terms |
| MeteringRuns.BatchClosed | internal/agent/meter.go:186-265 | every frame in flight is closed below: a path's older undelivered numbers are in it too |
| Billing.ColumnsHoldBookings | internal/store/store.go:351-386 | below the cap a path's byte columns over all periods add up to exactly what was booked for it |
| Billing.NeutralBillsPayload | internal/engine/engine.go:1779-1809 | without overhead or calibration an in-bounds delta is booked at its own bytes |
| Billing.LedgerConserves | internal/store/store.go:318-395 | so over a whole run counter growth equals the ledger's columns plus bytes buffered, dropped by a full buffer and discarded |
| Billing.EveryRunIsBooked | internal/engine/control.go:1155-1182 | every run of both ends has such a ledger: each delivery's settlements can be booked path by path |
| Quota.SaturatingMulExact | internal/quota/quota.go:137-152 | the wrapping product and its division test give the exact product clamped to 64 bits, for all operands |
| Quota.DivisionDetectsOverflow | internal/quota/quota.go:137-152 | dividing back detects overflow exactly, the one exception being the one tested for |
| Quota.SaturatingAddExact | internal/quota/quota.go:154-162 | the wrapping sum with its two guards gives the exact sum clamped to 64 bits, for all operands |
| Quota.MeteredExact | internal/quota/quota.go:75-128 | within the bounds of a checked delta nothing saturates: billed bytes are payload plus an overhead of 0 to 65535 a packet, times a percentage that counts as 100 outside 10 to 1000 |
| Quota.MeteredMonotone | internal/quota/quota.go:75-128 | more traffic is never billed less |
| Quota.PeriodBoundsIn | internal/quota/quota.go:211-257 | the bounds are local midnights around the instant, on the reset day, brought into 1 to 31 and to the length of the month, of one month and of the next |
| Quota.PeriodOnResetDay | internal/quota/quota.go:211-257 | that is what the period of any instant looks like on the calendar, whatever finds it |
| Quota.PeriodContains | internal/quota/quota.go:211-257 | start <= now < end for every reset day, instant and offset |
| Quota.PeriodUnique | internal/quota/quota.go:211-257 | every instant of a period gets that same period |
| Quota.PeriodsTile | internal/quota/quota.go:211-257 | the period containing an end starts exactly there, across short months, leap years and year ends |
| Quota.DaysInIsLength | internal/quota/quota.go:259-261 | the day-zero idiom is the Gregorian length of the month |
| Quota.MonthLengths | internal/quota/quota.go:259-261 | 30 days have April, June, September and November, February 28 or 29, the others 31 |
| Quota.YearStart | internal/quota/quota.go:259-261 | months laid end to end give the Gregorian calendar: 365 days a year and a leap day by the 4, 100, 400 rule, and 1970 begins on day zero |
| Decisions.PlausibleExact | internal/agent/agent.go:660-705 | the wrapping arithmetic decides exactly whether a number is within the ceiling it describes |
| Decisions.WallNeverNarrows | internal/agent/agent.go:672-700 | this host's clock can only widen the ceiling |
| Decisions.HonestAccepted | internal/agent/agent.go:640-705 | a number that kept pace with real time, give or take the allowance, is accepted now and later |
| Decisions.RestartAccepted | internal/agent/agent.go:636-651 | a restarted frontend is accepted whenever this host's clock is within the allowance, whatever the anchor |
| Decisions.Agent.SetActivePath | internal/agent/agent.go:515-572 | a number is believed up to the larger of the anchor plus the time since it was taken and this host's clock, plus a week; the reader drops what is stale or in force, queues the newest, raises the wake, and anchors number and time only on the first plausible one |
| Decisions.Agent.ApplyDecision | internal/agent/agent.go:931-997 | the kernel is asked exactly for a known other path under no older number, and the worker records only what was already so or what the kernel accepted |
| Decisions.StepKeeps | internal/agent/agent.go:780-798 | every step of frontend, reader and worker keeps the invariant |
| Decisions.Agreement | internal/agent/agent.go:931-997 | in every state of every run the backend's pair was really decided, and its number never went back |
| Decisions.NoLostWakeup | internal/agent/agent.go:563-571 | a queued decision not yet picked up has a wake pending, about to be sent or just taken |
| Decisions.NewestStays | internal/agent/agent.go:931-975 | once the newest decision is applied nothing in flight changes it |
| Decisions.RestsInForce | internal/agent/agent.go:780-798 | when all is at rest with the newest decision queued, it is in force or its installation failed |
| Decisions.FailureIsRetried | internal/agent/agent.go:540-572 | after a failed installation the next probe gets through to the kernel again |
| Decisions.OnlyEqualNumbersRewind | internal/engine/engine.go:345-368 | another path under the number in force passes every check unless something newer is queued, under a lower one none |
| EngineLocks.RouteAgrees | internal/engine/engine.go:666-744 | whenever the apply lock is free and the engine is synced the main route is the recorded path's |
| EngineLocks.SyncedSince | internal/engine/engine.go:1124-1191 | that lasts from any accepted armed installation until an outside loss, disarming, revert or restart, however saves, failovers and failures interleave |
| EngineLocks.LatchHolds | internal/engine/engine.go:2599-2630 | while the revert latch is set every step leaves each route or removes it |
| EngineLocks.RevertSticks | internal/engine/engine.go:2614-2695 | from the step that wrote its latch the engine is reverted at every later moment, crashes and restarts included, from the teardown both routes are gone and from its end nothing is recorded as active, until saved settings swap in |
| EngineLocks.RestartRemembers | internal/engine/engine.go:372-390 | a restarted process is reverted exactly if the last latch written was kept, and armed exactly if the last mode saved was armed and no revert saved observe since |
| EngineLocks.SwapTakesSaved | internal/engine/engine.go:2332-2379 | in any run the runner swapped in is the one whose mode is on disk, and the swap ends the revert |
| EngineLocks.StandsStill | internal/engine/engine.go:100-122 | over any stretch of a run no route, mode, latch, number or record changes but by the few steps that write it |
| EngineLocks.RecordedWasChosen | internal/engine/engine.go:1057-1061 | the decision number counts the switches recorded, and what is recorded was chosen by the loop or adopted from the kernel |
| EngineLocks.ArmedInstallsOnly | internal/engine/engine.go:2346-2373 | nobody installs the main route with a runner from before a mode change |
| EngineLocks.ObserveLeavesRoute | internal/engine/engine.go:1633-1637 | in observe mode decisions are recorded without the main route moving |
| EngineLocks.NoDeadlock | internal/engine/engine.go:100-122 | whoever is part-way through something, someone can take a step |
| EngineLocks.StepKeeps | internal/engine/engine.go:716-744 | every locked step keeps lock ownership, fresh reads and agreement |
| Probing.Prober.Expire | internal/engine/prober.go:470-480 | exactly the overdue probes become losses, in whatever order the map yields them |
| Probing.ExpiredExactly | internal/engine/prober.go:470-480 | a probe goes exactly if sent before now less the timeout, and becomes a loss; every other entry stays as it was |
| Probing.Prober.Resolve | internal/engine/prober.go:449-467 | a reply counts only if it is one, names this path, an outstanding number, and that probe's nonce |
| Probing.Prober.Flush | internal/engine/prober.go:488-513 | an undisturbed flush sends on the consecutive resolved results and stops at the first outstanding one |
| Probing.SkipNeverTaken | internal/engine/prober.go:491-502 | undelivered numbers are split between outstanding and resolved, so no number is ever skipped |
| Probing.DeliveredInOrder | internal/engine/prober.go:482-513 | every number leaves once, in order, as a true answer or a true loss; the channel misses nothing if and only if no flush was cancelled with a result in hand |
| Probing.CancelledRun | internal/engine/prober.go:503-511 | from any start there is a run that loses a result so |
| Probing.DroppedForGood | internal/engine/prober.go:503-511 | a result cancelled in hand never arrives |
| Probing.ReplyCounts | internal/engine/prober.go:449-467 | in any run a reply naming the path, an outstanding number and its nonce is what leaves under that number, with the time it took, unless that probe's own write is afterwards reported refused; any other packet changes nothing |
| Probing.RefusalCounts | internal/engine/prober.go:327-335 | a refused write leaves as a loss, even over a reply already read |
| Probing.SweepDeliversExactly | internal/engine/prober.go:470-513 | one sweep delivers up to the first probe still within its time |
| Probing.SweepSends | internal/engine/prober.go:470-513 | what it sends is, number by number, the result already reached or a loss for a probe past its time |
| Probing.SweepDrains | internal/engine/prober.go:198-222 | one sweep empties the queue exactly when every outstanding probe is past the timeout |
| Health.Tracker.Observe | internal/engine/tracker.go:58-91 | the method is the pure step of health and, on a condemnation only, of the breaker; the window is the last results |
| Health.WindowIsNewest | internal/engine/prober.go:531-536 | the window is always the newest results, as many as it has room for, in order |
| Health.Tracker.RecordFailure | internal/engine/tracker.go:93-135 | the in-place filter and trip are the breaker's pure step |
| Health.Tracker.Retune | internal/engine/tracker.go:147-158 | new thresholds change nothing already known; the window keeps its newest results |
| Health.HealthIsHistory | internal/engine/tracker.go:58-91 | health and the clean streak are functions of the result history |
| Health.VerdictsExactly | internal/engine/tracker.go:58-91 | up exactly while the replies in a row reach their threshold, down only when the losses once reached theirs with no recovery since, usable exactly while heard from and not down |
| Health.StaysDown | internal/engine/tracker.go:72-76 | from such losses on a path is down until it recovers |
| Health.CleanForMeansNoLoss | internal/engine/tracker.go:226-231 | clean for a positive hold if and only if recovered at least that long ago, and then nothing was lost in it |
| Health.TripsExactly | internal/engine/tracker.go:93-135 | the breaker trips exactly when the threshold's number of condemnations since the last trip or clear fall in the window |
| Health.CooldownExact | internal/engine/tracker.go:104-129 | max(base, min(cap, base times two to the level)) for a cap up to 2^62 |
| Health.CooldownHolds | internal/engine/tracker.go:104-129 | never below the base, never above the larger of base and cap, and uncapped never below the doubled base or half the range |
| Health.CooldownMonotone | internal/engine/tracker.go:104-129 | a higher level never parks a path for less |
| Health.DoubledExact | internal/engine/tracker.go:113-123 | doubling never wraps |
| Health.TwoHistories | internal/engine/tracker.go:58-166 | clearing the breaker never touches health, and only condemnations touch the breaker |
| Health.QuarantinesExactly | internal/engine/tracker.go:58-135 | a tracker fed results in time order parks its path exactly when this condemnation brings those of the window since the last trip or clear to the threshold, for the cooldown of the trips so far |
| Health.ParkedExactly | internal/engine/tracker.go:130-166 | a path is parked exactly from the last trip not cleared or followed by another until that trip's cooldown is over |
| Health.RecoversBetween | internal/engine/tracker.go:72-76 | one outage is condemned once: between two condemnations the path recovered |
| Selection.Selector.SelectPath | internal/engine/engine.go:764-894 | a pin is obeyed; otherwise traffic is held only when nothing is eligible, and the choice and the clock are those the target determines |
| Selection.Selector.PreferredPathId | internal/engine/engine.go:898-910 | the loop finds the enabled path of least priority |
| Selection.Selector.QualityTarget | internal/engine/engine.go:918-932 | the eligible preferred path, or else the first of least score |
| Selection.TargetIs | internal/engine/engine.go:803-808 | the target is the most preferred eligible path, or, the preferred one being out in quality mode, the eligible one of least score, the more preferred if scores are equal |
| Selection.HeldExactly | internal/engine/engine.go:779-796 | traffic is held exactly when no path is enabled, measured, usable and free of quarantine, quota and degradation |
| Selection.LeavesForPreferred | internal/engine/engine.go:833-847 | every switch goes to such a working path; in priority mode a working path is left only for a strictly more preferred one that has been clean for the hold |
| Selection.PreferredWins | internal/engine/engine.go:833-845 | and is left as soon as that is so |
| Selection.ReturnsToPreferred | internal/engine/engine.go:849-855 | in quality mode the preferred path takes the traffic back exactly when clean for the hold, whatever the scores |
| Selection.FailoverAtOnce | internal/engine/engine.go:817-827 | away from a path that is disabled, unusable, quarantined, over quota or degraded there is no hold |
| Selection.PreferredIsKept | internal/engine/engine.go:918-923 | in quality mode a working preferred path is never left |
| Selection.DwellSpaces | internal/engine/engine.go:859-893 | an elective move between fallbacks is a dwell after any earlier switch, beaten for the hold on the clock, and to a score below the other's less the margin |
| Selection.FallbackWins | internal/engine/engine.go:857-893 | and conversely the best fallback takes the traffic exactly when better by the margin, for the hold, with the dwell over |
| Selection.ClockRuns | internal/engine/engine.go:857-876 | a running clock began when the path then in use was beaten, and at every evaluation since that looked the path in use at that evaluation was beaten, which may be another one after a switch |
| Selection.ClockStep | internal/engine/engine.go:811-876 | the clock starts at the first evaluation that finds the path in use beaten, stands while it is, and is cleared by any that finds it is not |
| Selection.AtMostOneMore | internal/engine/engine.go:764-894 | with eligibility and scores standing still at most one more switch happens |
| Selection.MarginIsStrict | internal/engine/engine.go:934-949 | nothing takes traffic from a perfect score |
| Selection.HoldMeansNoLoss | internal/engine/engine.go:833-838 | the hold is a span in which the path lost nothing |
| Wire.LabelsPart | internal/proto/proto.go:66-83 | no label is a prefix of another |
| Wire.PreimageInjective | internal/proto/proto.go:741-754 | one string of bytes is authenticated for one purpose with one content |
| Wire.FrameAt | internal/proto/proto.go:741-754 | a frame is authenticated by its label, number, type and data, each of the two behind its length |
| Wire.Marshal | internal/proto/proto.go:101-115 | filling the buffer offset by offset gives the packet |
| Wire.BodyAt | internal/proto/proto.go:101-115 | each field stands at its offset |
| Wire.BigDigit | internal/proto/proto.go:101-115 | numbers go most significant byte first |
| Wire.TwosComplement | internal/proto/proto.go:108-109 | a signed time travels as the unsigned number it is congruent to |
| Wire.RoundTrip | internal/proto/proto.go:129-154 | the decoder yields a probe if and only if the bytes are that probe's packet |
| Wire.ReadLine | internal/proto/proto.go:533-552 | the verdict depends on the bytes and the limit, never on how the buffer cut them |
| Sessions.Session.WriteFrame | internal/proto/proto.go:662-704 | the counter moves exactly when a frame was written |
| Sessions.Session.ReadFrame | internal/proto/proto.go:713-734 | a frame is accepted only as the next one, in this direction, under this key |
| Sessions.SameTranscript | internal/proto/proto.go:623-636 | two ends hold one key exactly when they share the secret and both nonces |
| Sessions.VerifiedWasOffered | internal/proto/proto.go:713-734 | a frame that verifies was offered by the other end, in this direction, at this position |
| Sessions.AcceptedArePrefix | internal/proto/proto.go:590-620 | whatever the network does, while no failed write leaks accepted frames are a prefix of written ones, in order |
| Sessions.AcceptedWereOffered | internal/proto/proto.go:662-734 | however writes end, each accepted frame was let out under that very position |
| Sessions.LeakRunsAhead | internal/proto/proto.go:699-703 | from any leaked write in any run the reader can go on to accept more than was written, so the proviso is exact |
| Sessions.NextWrittenIsAccepted | internal/proto/proto.go:713-734 | the next frame written and not yet read always verifies |
| Networks.NestOrDisjoint | internal/sysx/protect.go:264-270 | aligned blocks nest or are disjoint |
| Networks.MergeCidrs | internal/sysx/protect.go:275-311 | exactly the blocks no other reaches outside of, in order, pairwise apart |
| Networks.MergeCoversSame | internal/sysx/protect.go:275-311 | a merged list covers exactly the addresses of the list it was merged from |
| Networks.MergeUnique | internal/sysx/protect.go:275-311 | a list has one merged form |
| Networks.SumIsCount | internal/sysx/blocklist.go:228-248 | the sum of sizes is the number of distinct addresses, at most 2^32 |
| Networks.DropNonInternet | internal/sysx/blocklist.go:268-306 | exactly the entries overlapping no reserved range remain |
| Networks.ReservedSpaceSpared | internal/sysx/blocklist.go:250-267 | an entry is dropped if and only if it shares an address with reserved space |
| Networks.ReservedAddresses | internal/sysx/nft.go:334-345 | reserved space, octet by octet |
| Networks.CheckBlocklist | internal/sysx/blocklist.go:228-248 | accepted if and only if no block is shorter than /8 and at most 2^27 distinct addresses are covered |
| Ports.SubtractRanges | internal/sysx/protect.go:389-411 | exact set difference of port intervals |
| Ports.MergePorts | internal/sysx/protect.go:475-504 | the same ports, sorted, no two intervals touching |
| Ports.NormalUnique | internal/sysx/protect.go:460-504 | a set of ports has one such form |
| Ports.SharedConnPorts | internal/sysx/protect.go:359-385 | every published TCP port is under exactly one of the shared rule and the overrides, each limit by its own field |
| Ports.ConnOverrides | internal/sysx/protect.go:432-450 | one override per row setting either limit, in order, every set name distinct, none a shared one, and all of lower-case letters, digits and underscores |
| Ports.FoldPlain | internal/sysx/protect.go:241-252 | a folded name keeps letters, in lower case, and digits, and has an underscore for anything else |
| Ports.UniqueName | internal/sysx/protect.go:726-733 | terminates with the base, or the first free suffix from 2 |
| Ports.DecimalInjective | internal/sysx/protect.go:729-730 | different numbers never print alike |
| Ports.DecimalSays | internal/sysx/protect.go:729-730 | the suffix is the number in decimal, with no leading zero |
| Pacing.Pacer.Allow | internal/qcache/pace.go:96-124 | the method is the table's pure step; a refusal charges nothing |
| Pacing.Pacer.Prune | internal/qcache/pace.go:128-135 | drops from the least recently seen end, stopping at the first still in use |
| Pacing.TableOrdered | internal/qcache/pace.go:96-140 | list and map agree, the list is sorted by last seen, and the bound is never exceeded |
| Pacing.PruningInvisible | internal/qcache/pace.go:49-52 | a source never pushed out for room is answered as by a table that forgot nobody |
| Pacing.WindowBound | internal/qcache/pace.go:18-64 | bytes granted to a source in any window are at most the burst plus the refill over it, and one burst more for each time it was pushed out for room |
| Pacing.ChargeIsExact | internal/qcache/pace.go:92-124 | a reply granted costs exactly its bytes and a refusal nothing: what a source not pushed out meanwhile holds at its next request is what it was left with and has earned since, up to the burst, and that decides |
| Pacing.FirstHoldsBurst | internal/qcache/pace.go:110-117 | a source never seen before holds a whole burst |
| Pacing.EvictsOldest | internal/qcache/pace.go:111-113 | who is pushed out for room was seen no later than any other still in use |
| Pacing.PrunedOrdered | internal/qcache/pace.go:126-135 | pruning drops exactly the sources idle past the bound |
| Pacing.DefaultsQualify | internal/qcache/pace.go:33-60 | the default burst, refill and idle time meet the condition the two need |
| ProbeRules.EnsureProbeRules | internal/sysx/route.go:200-284 | at every moment a mark that had a lookup or refusal has one, and no other rule and no route changes |
| ProbeRules.EnsureProbeRoutes | internal/sysx/route.go:91-156 | one accepted pass leaves exactly the target rules and each path's route; a pass over those adds and deletes nothing; at every moment rules of no path, refusals outside the band, default routes and other tables are left alone |
| ProbeRules.ExactlyOneEach | internal/sysx/route.go:200-284 | one lookup in its table and one refusal in the band for each path, and no refusal for any other mark |
| ProbeRules.TargetExact | internal/sysx/route.go:200-325 | rule by rule: a path's lookup at 30000 and its id, its refusal at 31000 and its id behind every lookup, neither anywhere else, no refusal in the band for another mark, and every other rule as it was |
| ProbeRules.SecondPassIdle | internal/sysx/route.go:91-156 | the target of the target is itself |
| LinkerRules.EnsurePinnedRule | internal/sysx/linker.go:167-219 | the pinned rule is in before a stray goes and strays go once their table is relieved; at every moment a rule on a shared mark with neither the system's table nor its priority, and the default of a table only such rules point at, stand as before; unhindered, no other rule that may be the system's is left, in any table where the selector is its own |
| LinkerRules.RemovePinnedRule | internal/sysx/linker.go:234-267 | withdraws, unhindered, every rule that may be the system's and, at every moment, none of those others or their routes |
| LinkerRules.CleanAbandonedTable | internal/sysx/linker.go:291-311 | says yes only when the table no longer holds our default route |
| LinkerRules.MarkerKept | internal/sysx/linker.go:269-290 | at every moment an abandoned table with a default through the backend that had a rule of ours pointing at it has one still |
| LinkerRules.NeverOrphaned | internal/sysx/linker.go:269-311 | over a host's whole life, with all three rules and changes of table, backend and address, everything abandoned stays within reach of a pass if and only if it starts so and every change leaves cleanly |
| LinkerRules.OldPinMarks | internal/sysx/linker.go:144-150 | with any of the rules pinned in the old table and its default the present backend's, a change of table alone leaves cleanly |
| LinkerRules.ChangeExact | internal/sysx/linker.go:144-150 | one change of setup keeps everything abandoned within reach exactly when it leaves cleanly |
| LinkerRules.MarkersSurvive | internal/sysx/linker.go:128-142 | markers of tables abandoned earlier outlive a change that gives up no kind of rule |
| LinkerRules.AddressChange | internal/sysx/linker.go:497-573 | a kind is given up exactly when the overlay address changes, and the two mark rules stay markers all the same |
| LinkerRules.RefusedThenMoved | internal/linker/linker.go:356-363 | none of the rules in, the route put in all the same and the table changed: the old table is orphaned |
| LinkerRules.MovedWithBackend | internal/sysx/linker.go:291-311 | the backend changed along with the table: the next whole pass withdraws the marker and leaves the route |
| LinkerRules.OrphanStays | internal/sysx/linker.go:277-284 | no pass for any of the rules, and nothing done to other tables, takes an orphaned route out or brings it within reach |

## Left out

- Sockets, tickers, deadlines, reconnects, WireGuard, the portal and its users, notifications, JSON, SQLite and files: only what they make happen - a frame lost, a commit that failed or failed after taking effect, a command refused - is modelled.
- MeteringRuns: the meter writes its counters and its buffer in two files one after the other; a kill between the two, or a save of either that fails, is outside the model, where a sample always saves both. Failing to save after an acknowledgement is inside.
- MeteringRuns: usage history and its pruning are not modelled, and the watermark is a number rather than text that may fail to parse, except that a path's watermark may be unreadable for a delivery.
- Quota: calibration is a real number, so rounding and not-a-number are not modelled; a billing zone is a fixed offset without daylight saving.
- Decisions: one frontend process at a time, each restart starting above the last number, as its clock-based seed intends; the backend does not restart or revert within a run; `reassertReturnPath` is not modelled.
- Probing.Prober.Send: sequence numbers do not wrap (the seed leaves two bits of headroom); each locked section reads the clock once.
- Sessions: a direction carries fewer than 2^64 frames; MACs are ideal, so truncation to sixteen bytes is not modelled.
- EngineLocks: the path table is fixed; probe routes, rule sets and the query cache are left out, as is the superseded host route; a control-channel route is one value.
- Selection: runs are unpinned (a pin is `SelectPath`'s first branch); scores are real numbers and given per evaluation, as are the verdicts that block a path; priorities are distinct, so the order of an unstable sort never shows.
- Networks: text parsing is done; a line is a network or it is not.
- Ports: names fold as ASCII; the rule text around the port sets is not modelled.
- Pacing: tokens are real numbers.
- ProbeRules.ExactlyOneEach: a lookup of the same mark into another table is not this path's, and is left alone as the program leaves it.
- LinkerRules: a table holds at most one default route, and tables are told apart by identity, not by the name a host may print for them, except where a withdrawal cannot read its own table's alias.
- Region sets, packet ceilings, parking chains, the query cache and its parsers, traffic shaping, blocklist fetching, linker liveness and configuration presets: rendering, or small checks of one value.
