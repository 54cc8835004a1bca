# mini-lmk: a verified model of the eviction daemon

mini-lmk reads the Android event log, keeps a dozen coupled tables about the processes it sees, and decides
which background packages to evict. This project models that daemon in Dafny and proves what its decisions,
tables, records, log file and configuration satisfy on every run.

## How it is organised

| part | files | what it holds |
|---|---|---|
| engine | `Engine.dfy` | every handler and pipeline stage as a function on values: clock-step compensation, focus, start, death, screen, scan, dispatch, reload |
| object | `Daemon.dfy`, `Discovery.dfy` | class `DaemonState` with the daemon's mutable fields; each method is proved to compute the engine function of its handler; the cold-start sweep |
| step shape | `StepShape.dfy` | a step is bookkeeping plus at most one reaping pass; frames of every handler; what a step appends to the record stream; runs |
| laws | `ScanLaws`, `AgeLaws`, `SpacingLaws`, `DurationLaws`, `DrainLaws`, `ObserveLaws`, `LruLaws`, `IndexLaws`, `DeathLaws`, `ReportLaws`, `EscalationLaws`, `EligibilityLaws`, `DispatchLaws`, `ExposureLaws`, `HandlerLaws` | properties of the engine over all states and all runs |
| input | `Framer.dfy`, `Utf8.dfy`, `Text.dfy`, `Parser.dfy`, `FieldLaws.dfy`, `ComponentLaws.dfy`, `ParserLaws.dfy` | bytes to lines, lines to text and events; what numbers, times, names, fields and components are recognised; the inverse of parsing |
| output | `Telemetry.dfy`, `TelemetryLaws.dfy`, `Json.dfy` | the rotating, switchable operations log and the JSON string escaper |
| configuration | `ConfigFile.dfy`, `ConfigLaws.dfy`, `ConfigPrint.dfy` | `daemon.conf` as a fold over its lines; what a printed file means |
| whole path | `Pipeline.dfy` | raw bytes to engine state, and reloads down to the log file |

The outside world is a parameter: procfs readings, the memory-pressure probe, `kill(2)`, the spawner and the
iteration order of hash containers are the fields of `Answers`, fixed per event and otherwise arbitrary
(`Sound` asks only that an iterator visits every key once and that the spawner answers 0, -1 or an errno).
Opening and renaming the log file answer per call (`Io`). The Unicode alphabetic test is a function parameter. Times are `u64` milliseconds; the casts to `i64` in the clock arithmetic wrap as they do
in a release build. Statistics and memory sums are unbounded.

A run is a sequence of happenings, each an event line or a configuration reload with its answers. `quiet time`
is read off the samples alone: the time between two of them, but nothing when the clock goes back or when it
passes 1_600_000_000_000 ms from a set clock below. A forward step that starts at or above that figure cannot be
told from a quiet gap and counts as one. The law modules spell such figures and conditions out; they name the
engine's functions only for what is being said of them.

## Where the code and its documentation disagree

The model follows the code. For each point one lemma shows the failing input and one says exactly when the
documented claim holds.

- `apply_clock_jump` is documented to leave ages unchanged. A backward step that lands below an age caps it at
  the new reading (`AgeAfterSample`); a forward step of 2^63 ms or more out of the boot clock wraps in the cast
  and ages everything (`WrappedStepAges`). `NoOvercountIff` and `NoFutureAnchorIff` give the exact samples.
- `docs/ARCHITECTURE.md` calls `fg_lru` bounded to `fg_lru_max_depth`. A reload to a smaller depth does not
  shrink it (`BoundFails`, a run from boot); the bound holds throughout a run if and only if no reload
  undercuts the history's length (`BoundHoldsIff`).
- The same document calls `recent_deaths` bounded with capacity 64. It is only pruned of expired entries: from
  boot, any number of packages can leave that many entries within 120 s (`DeathTableGrows`); `CapHoldsIff` says
  when it fits 64. What pruning forgets is never missed unless a backward step lands at or below 120 s
  (`PruningLosesNothing`); one that does revives a forgotten death (`RevivedDeath`, `AgreeIff`).
- "Only packages with verified UID >= 10000 may enter alive_apps": the uid table keeps the first report, so a
  package first reported with a system uid breaks it (`GuardFails`); `StartKeepsVerifiedIff` is exact, and
  `DecidedIsApp` is what does hold of every decision.
- Escalation "may only tighten" holds against the configured values (`NeverLooser`) and along the levels up to
  the long screen-off harvest (`ChainKeepsCandidates`), but a screen-on emergency restores the full LRU depth
  that a screen-off harvest had lowered. Two runs from boot with equal tables show it (`DropIsReached`); it
  never happens if and only if harvesting is off or the configured depth is at most 1
  (`EmergencyNeverDropsIff`).
- The twin PID indexes are inverse maps exactly until a start names a PID still mapped to another package
  (`StartKeepsInverseIff`).
- A protected candidate is re-anchored "to yield head-of-line priority". With `t_idle_sec = 0` it does not
  yield: `ProgressIff` says when one pass makes progress, `BlockedForEver` that heavy protected packages starve
  every unprotected one for any number of passes while the readings stand, `ZeroThresholdStalls` that boot and
  one start lead to such a stall.

## Model

| member | source | states |
|---|---|---|
| AgeLaws.AgeAfterSample | src/events.rs:301-334 | after one clock sample an anchor not in the future stays so; its age gains exactly the quiet time between the samples, or is capped at the new reading by a backward step |
| AgeLaws.AgeNeverOvercounts | src/events.rs:301-334 | an age never gains more than the quiet gap from a sample whose forward jump fits the signed cast |
| AgeLaws.NoOvercountIff | src/events.rs:301-311 | ages are never overcounted after a sample if and only if a forward jump out of the boot clock is below 2^63 ms |
| AgeLaws.NoFutureAnchorIff | src/events.rs:301-334 | no anchor ends up in the future if and only if a backward step is at most 2^63 ms |
| AgeLaws.WrappedStepAges | src/events.rs:305-307 | a concrete sample beyond 2^63 ms where five seconds of idling become 2^63 ms |
| AgeLaws.StepKeepsAnchorsBehind | src/daemon.rs:760-778 | every step keeps all anchors (activity, deaths, screen, game, summary) at or before the last event time |
| AgeLaws.StepStampsNow | src/daemon.rs:760-778 | a step only keeps, drops or stamps activity anchors with the time of its own event |
| SpacingLaws.AgesNeverOvercount | src/kill.rs:186-189 | on every run, each idle age is at most the quiet time since its anchor was last written |
| SpacingLaws.AgesAreExact | src/events.rs:316-334 | on every run whose samples fit the cast, that age is exact unless a backward step landed below it |
| SpacingLaws.StepAloneNeverRipens | src/kill.rs:131-189 | a clock step alone opens no gate for any package, although it also moves the screen-off and foreground anchors the thresholds are read from |
| SpacingLaws.DecisionSpacing | src/kill.rs:337-343 | any two decisions about one package on any run are at least the later pass's idle threshold of quiet time apart |
| SpacingLaws.DepartureSpacing | src/events.rs:66-72 | on any run, an app that leaves the foreground is decided about no earlier than the deciding pass's idle threshold of quiet time after it left |
| DurationLaws.MarkersAreTimed | src/events.rs:316-334 | on every run the age of each screen, game, summary and death marker is at most the quiet time since it was set, and exactly that if the clock never steps back |
| DurationLaws.RecordedDurations | src/events.rs:242-284 | so the screen, game and summary durations and respawn gaps in the records never exceed quiet time, and equal it on runs without a backward step |
| DurationLaws.UnsetIsZero | src/events.rs:248-250 | a duration whose marker is unset is recorded as zero |
| DurationLaws.StepMarks | src/daemon.rs:760-778 | a step clears a marker, sets it to its own time or leaves it as the clock sample put it |
| DurationLaws.RunKeepsMarkers | src/events.rs:242-284 | on every run from boot the on-marker is set exactly while the screen is on, the off-marker while it is off, the game marker during a game |
| DurationLaws.BootIsFresh | src/daemon.rs:173-216 | the boot state meets the starting conditions of the run theorems |
| ScanLaws.SoundWorldExists | src/kill.rs:173-201 | for any readings there is an iteration order that makes them sound, so no theorem about sound answers is empty |
| ScanLaws.ScanExact | src/kill.rs:173-217 | the scan returns exactly the packages that pass the gates and have a PID with memory, once each, heaviest first, with their live PIDs and memory sum; `ListedIff` says which packages those are |
| ScanLaws.ReconcileExact | src/kill.rs:218-231 | the scan removes exactly the gate-passing packages without a live PID and their PID sets, leaves a gate-passing package its live PIDs and any other all of them, unmaps exactly the probed dead PIDs, and touches nothing else |
| ScanLaws.SortIsStable | src/kill.rs:233 | equally heavy candidates keep the order the activity table was visited in |
| ScanLaws.GreedyChoice | src/kill.rs:355-366 | a pass dispatches min(cap, candidates) of them, and nothing passed over is heavier than anything dispatched |
| ScanLaws.OrderOnlyPermutesTies | src/kill.rs:173-234 | under any two iteration orders the scan yields the same packages and the same sequence of weights |
| DrainLaws.PassKeepsGate | src/kill.rs:128-167 | dispatching leaves the thresholds of a repeated pass at the same moment unchanged |
| DrainLaws.PassExact | src/kill.rs:337-343 | with readings frozen, a pass removes exactly its chosen packages from the candidate set, protected ones included when the threshold is at least 1 |
| DrainLaws.ProgressIff | src/kill.rs:347-367 | a pass changes the candidate set if and only if it chooses a package that is unprotected or judged by a nonzero threshold |
| DrainLaws.BlockedForEver | src/kill.rs:337-343 | under a zero threshold, if enough protected candidates outweigh every unprotected one, no number of passes changes the candidate set or dispatches an unprotected package |
| DrainLaws.ZeroThresholdStalls | src/kill.rs:347-367 | boot and one background start reach such a stall |
| DrainLaws.DrainExact | src/kill.rs:347-367 | n passes leave exactly max(0, C - n * cap) candidates: no starvation |
| ObserveLaws.ObservePredictsAct | src/kill.rs:241-344 | runs that differ in act mode, root, log switch or dispatch outcomes keep equal tables and make the same decisions in the same order |
| ObserveLaws.StepKeepsTwins | src/daemon.rs:760-778 | one step of that simulation, reloads of the log switch included |
| LruLaws.RecencyIs | src/events.rs:90-98 | the reference history lists each resumed package once, strictly by latest resume |
| LruLaws.LruIsOrdered | src/events.rs:80-98 | on every run the LRU is duplicate-free, ordered by latest resume and no longer than the largest depth configured so far |
| LruLaws.BoundHoldsIff | src/events.rs:93-98 | the history stays within the configured depth throughout a run if and only if no reload undercuts its length |
| LruLaws.StepKeepsBoundIff | src/events.rs:93-98 | one step keeps that bound if and only if it is not such a reload |
| LruLaws.BoundFails | src/daemon.rs:334-338 | from boot, two resumes and a reload to depth 1 leave two entries |
| LruLaws.LruIsRecencyWindow | src/events.rs:80-98 | with a constant depth d and no sub-500 ms removal it is exactly the d most recent distinct packages |
| LruLaws.WindowSlides | src/events.rs:90-98 | one bounded move-to-front is one unbounded move-to-front seen through the window |
| LruLaws.LruGateIff | src/kill.rs:178-184 | the sentinel never collides: a package passes the LRU gate exactly when it is not in the first depth entries |
| LruLaws.DecidedIsNotRecent | src/kill.rs:178-184 | no decided package is among the min(effective depth, d) most recent distinct foregrounds |
| IndexLaws.TwinIndexes | src/kill.rs:218-231 | in every reachable state a mapped PID is listed under its package, through all opportunistic purging |
| IndexLaws.ExactInverses | src/events.rs:187-188 | on runs where no start reuses a mapped PID the two indexes are exact inverses |
| IndexLaws.StartKeepsInverseIff | src/events.rs:187-188 | indexing a start keeps them inverse if and only if its PID is not mapped to another package |
| IndexLaws.SweepIsInverse | src/daemon.rs:255-279 | the cold-start sweep over any directory listing starts from exact inverses |
| Discovery.DiscoveredOnce | src/daemon.rs:255-279 | the sweep's name filter indexes every listed PID at most once |
| Discovery.SweptIff | src/daemon.rs:266-275 | a process is indexed if and only if its trimmed first argument is a dotted name and neither a path nor an option; under what stands before a colon |
| Discovery.SweptIsText | src/daemon.rs:271-273 | only a process whose first argument is UTF-8 is indexed |
| Discovery.SweepIndexes | src/daemon.rs:275-280 | over distinct PIDs both indexes hold exactly what was reported, and each uid is the last one reported |
| IndexLaws.DeathKeepsMapped | src/events.rs:223-229 | a death keeps the indexes consistent, and inverse if they were |
| DeathLaws.PruningLosesNothing | src/events.rs:193-208 | on every run whose backward steps land beyond 120 s the respawn records are exactly those of a daemon that never forgets a death |
| DeathLaws.AgreeIff | src/events.rs:193-208 | a pruned and a complete death table agree on every respawn record at the next sample if and only if a backward step does not land at or below 120 s |
| DeathLaws.RevivedDeath | src/events.rs:316-334 | a forgotten death that counts again after such a step |
| DeathLaws.ExpiryIff | src/events.rs:316-334 | expired deaths stay expired across a backward step if and only if it lands beyond 120 s |
| DeathLaws.PruneForgetsExpired | src/events.rs:235-238 | pruning drops only expired deaths, and above 64 entries all of them |
| DeathLaws.CapHoldsIff | src/events.rs:235-238 | the table fits 64 entries if and only if at most 64 deaths are unexpired |
| DeathLaws.DeathTableGrows | src/events.rs:235-238 | from boot, n starts and deaths at one moment leave n entries, for every n |
| ReportLaws.ReportsConserve | src/events.rs:31-53 | spawns, deaths and spawn memory over all summaries plus the pending counters equal what was observed |
| ReportLaws.GameSessionsBracket | src/events.rs:100-126 | game starts and ends alternate, intrusions fall inside, and each end counts those since its start |
| ReportLaws.StepConserves | src/events.rs:164-184 | one step moves counts between pending and reported without loss |
| EscalationLaws.NeverLooser | src/kill.rs:131-167 | no level raises the idle threshold or the LRU depth above the configured ones |
| EscalationLaws.IdleTightens | src/kill.rs:139-167 | a higher level never raises the idle threshold over the same tables |
| EscalationLaws.ChainKeepsCandidates | src/kill.rs:131-167 | from normal through long session and both harvest levels every candidate stays a candidate |
| EscalationLaws.EscalationKeepsCandidates | src/kill.rs:131-167 | so does any escalation that does not end a screen-off harvest |
| EscalationLaws.EmergencyNeverDropsIff | src/kill.rs:131-137 | at no pass that runs from boot reach does a screen-on emergency drop a harvest candidate over the same tables, if and only if harvesting is off or the depth is at most 1 |
| EscalationLaws.DropIsReached | src/kill.rs:347-353 | two runs from boot whose last start makes a pass over equal tables: screen off exposes a package, a game with the screen on does not |
| EligibilityLaws.DecidedIsApp | src/kill.rs:173-217 | from any state that meets the invariant, every decision of every run names a well-formed package reported with a uid of at least 10000, on neither exclusion list, not in the foreground, with nonzero live PIDs |
| EligibilityLaws.DecidedIsNotDetected | src/daemon.rs:239-243 | no decision of any run names a launcher, dialer, keyboard or wallpaper detected at start-up |
| EligibilityLaws.ColdStartIsVouched | src/daemon.rs:217-222 | the state after configuration, detection and sweep meets that invariant, for any lists and detected roles |
| EligibilityLaws.RunKeepsVouched | src/events.rs:66-72 | the invariant behind it: names, uid reports and nonzero PIDs of all tables |
| EligibilityLaws.SeedIsVouched | src/daemon.rs:275-279 | the cold-start index satisfies it |
| EligibilityLaws.StartKeepsVerifiedIff | src/events.rs:189-211 | a start keeps "every aged package has a recorded app uid" if and only if it does not contradict an earlier system uid |
| EligibilityLaws.GuardHolds | src/events.rs:66-72 | so the documented guard holds on runs without such a start |
| EligibilityLaws.GuardFails | src/events.rs:189-211 | two starts that break it |
| DispatchLaws.AttemptsAreGuarded | src/kill.rs:266-307 | nothing is attempted in observe mode or when some PID scores below the configured minimum; signals only as root, when every PID scores at least 900, is owned by a uid of at least 10000 and scores 900 again; unless all are reached one framework kill, last |
| DispatchLaws.RecordIsTruthful | src/kill.rs:40-67 | the record's event, errno (none, -2, 0 or the spawner's), method and derived skip flag say exactly what was attempted |
| DispatchLaws.AttemptsBelongToDecisions | src/kill.rs:347-367 | every signal or spawn of a step belongs to a recorded kill of that step |
| ExposureLaws.ThresholdsAre | src/kill.rs:131-167 | the thresholds of a pass: the configured idle time cut to 10 s in an emergency, 30 or 60 s while harvesting, 60 s after five minutes in one app; the configured depth, at most 1 while harvesting |
| ExposureLaws.ListedIff | src/kill.rs:173-217 | the scan lists a package if and only if it is aged, on neither exclusion list, not in front, not among the protected recent foregrounds, idle for that long, and one of its PIDs has memory |
| ExposureLaws.DecidedIsExposed | src/kill.rs:173-217 | every decision of a step names such a package |
| ExposureLaws.DecidedIsNotExcluded | src/daemon.rs:239-243 | no decision of any run names a package on the user's exclusion list |
| ExposureLaws.RecordIsAccurate | src/kill.rs:309-335 | the record states the time, the live PIDs, their memory, the idle seconds, the history position, the lowest OOM score and the reason as the tables and readings have them |
| HandlerLaws.ResumeTables | src/events.rs:55-78 | a resume stamps, or enters, the package that leaves the foreground with the current time if it was first reported as an app, and moves nothing else |
| HandlerLaws.ResumeRecords | src/events.rs:74-147 | its records: pending counts, the edge of a game session, and one switch record with the time since the departing package's anchor |
| HandlerLaws.ResumeReports | src/events.rs:100-126 | what it does to the counters, the summary interval and the game session |
| HandlerLaws.ResumeHistory | src/events.rs:80-98 | the history gains the resumed package, loses one that was in front for less than 500 ms, and otherwise keeps its members while there is room |
| HandlerLaws.StartTables | src/events.rs:186-211 | a start indexes its PID, keeps the first uid, takes the death out and enters an app not aged yet |
| HandlerLaws.StartReports | src/events.rs:158-184 | a start counts outside the foreground, and as an intrusion during a game unless it is for the foreground |
| HandlerLaws.StartRecords | src/events.rs:164-208 | its records: the intrusion with its exclusion flag, the respawn of a death at most 120 s old |
| HandlerLaws.DeathTables | src/events.rs:220-234 | a death leaves both indexes, its package leaves the activity table with its last PID, an unknown PID changes nothing |
| HandlerLaws.DeathReports | src/events.rs:229-239 | a death is remembered with those of the last 120 s and counts outside the foreground |
| HandlerLaws.ScreenTables | src/events.rs:242-284 | a toggle moves the marker to the other side, records how long the old state lasted and flushes the counts; a repeated one does nothing |
| HandlerLaws.CorrectionIsCommon | src/events.rs:316-334 | between two samples all anchors move by one common amount within the u64 range, and by none in quiet time |
| HandlerLaws.PassesWhen | src/daemon.rs:767-777 | a pass is made on a change of focus, an app start outside the foreground, or an idle step while harvesting, and never otherwise |
| StepShape.DecisionsAreLogged | src/kill.rs:309-335 | the decision records a step appends are exactly its decisions, in order |
| StepShape.PassLeaves | src/kill.rs:218-343 | what a pass leaves of one package: its anchor, its PIDs, and whether it stays |
| Daemon.DaemonState.SeedInitialState | src/daemon.rs:245-293 | the sweep filters and indexes the listed processes and ages nothing |
| Daemon.DaemonState.ApplyClockJump | src/events.rs:316-334 | shifts every anchor, saturating |
| Daemon.DaemonState.OnResumeActivity | src/events.rs:55-153 | the whole resume handler refines the engine |
| Daemon.DaemonState.OnProcStart | src/events.rs:155-218 | the whole start handler refines the engine |
| Daemon.DaemonState.OnProcDied | src/events.rs:220-240 | the whole death handler refines the engine |
| Daemon.DaemonState.OnScreenToggled | src/events.rs:242-284 | the whole screen handler refines the engine |
| Daemon.DaemonState.ScanCandidates | src/kill.rs:128-234 | the scan loop and purges refine the candidate list and the reconciled tables |
| Daemon.DaemonState.WalkAlive | src/kill.rs:173-217 | the loop collects candidates, dead PIDs and dead packages |
| Daemon.DaemonState.DispatchCandidate | src/kill.rs:241-344 | one dispatch: attempts, record, re-anchor or removal |
| Daemon.DaemonState.EvaluateReapingPipeline | src/kill.rs:347-367 | the whole pass |
| Daemon.DaemonState.DispatchLogcatLine | src/daemon.rs:760-778 | one line: parse, compensate, handle; an unparsable line changes nothing |
| Utf8.DecodeIff | src/daemon.rs:586-588 | the line decoder accepts exactly the UTF-8 forms of RFC 3629 and returns what was encoded |
| Framer.LineFramer.Drain | src/daemon.rs:575-601 | one read hands on the cleaned lines of buffer plus bytes and keeps the unterminated rest or, past 8192 bytes, nothing |
| Framer.CleanedIs | src/daemon.rs:580-592 | a line of text, with or without a carriage return, is handed on trimmed unless it is blank or starts with three dashes |
| Framer.CleanedIsText | src/daemon.rs:586-588 | and bytes that are not UTF-8 never are |
| Framer.FramingIsFaithful | src/daemon.rs:575-601 | for any split into reads every terminated line yields one framed line in order, itself if at most 8192 bytes, else a suffix of itself |
| Framer.BufferIsBounded | src/daemon.rs:692-698 | the buffer never holds a newline and stays within 8192 bytes for reads of up to 8193 |
| Framer.ChunkingIsInvisible | src/daemon.rs:575-601 | two splits of one stream of lines within the limit deliver the same text lines |
| Framer.LongLinesDependOnReads | src/daemon.rs:597-600 | the limit is sharp: a longer line arrives whole or empty depending on the reads |
| Parser.TokenizeInto | src/parser.rs:56-86 | the in-place tokenizer writes exactly the top-level fields, at most as many as fit |
| Parser.CheckProcName | src/parser.rs:255-269 | decides: only name characters after trimming, and a letter |
| Parser.ReadEpochMs | src/parser.rs:325-335 | the time stamp, with range checks |
| Parser.ScanShifted | src/parser.rs:205-223 | the fallback scan over shifted vendor schemas |
| Parser.FindDead | src/parser.rs:294-302 | the first positive number in front of a process name |
| Parser.ReadStart | src/parser.rs:169-249 | start payloads, both paths |
| Parser.ReadDied | src/parser.rs:286-305 | death payloads |
| Parser.ReadResume | src/parser.rs:103-158 | resume payloads with intent wrapping |
| Parser.ReadLine | src/parser.rs:343-374 | the line dispatcher |
| Parser.ParsedIsWellFormed | src/parser.rs:148-152 | every parsed event has acceptable names and a nonzero PID |
| Parser.NumbersAreNotNames | src/parser.rs:251-269 | a numeric field never passes as a process name |
| FieldLaws.TokensOfJoin | src/parser.rs:56-86 | tokenizing a comma-join of k brace-balanced fields with any white space around them gives the first min(k, N) fields |
| FieldLaws.FieldsOf | src/parser.rs:104-106 | a payload in any brackets and white space yields its first eight fields |
| FieldLaws.InnerOf | src/parser.rs:312-315 | brackets and white space around a payload are taken off, and nothing else |
| FieldLaws.UnsignedIff | src/parser.rs:180-180 | the unsigned numbers read are exactly those spelt in decimal, with leading zeros or a plus, that fit the width |
| FieldLaws.EpochReads | src/parser.rs:325-335 | seconds with or without a fraction of any length, three digits of which count, make milliseconds that fit 64 bits |
| FieldLaws.EpochRejects | src/parser.rs:325-335 | other seconds, and other characters among those three digits, make no time |
| FieldLaws.ProcNameIff | src/parser.rs:255-269 | within any white space a name is accepted if and only if it has letters, digits, dots, underscores and colons only, and a letter |
| ComponentLaws.WrappedUnwraps | src/parser.rs:127-152 | a component comes out of quotes, of an Intent dump, and of a row of words, and from it its package |
| ComponentLaws.ComponentFieldIs | src/parser.rs:111-121 | the component is the first of the first eight fields with a slash, or without one the fourth |
| ParserLaws.StartIs | src/parser.rs:180-199 | when the second and third field are numbers, the event of a start payload, or none if its PID is 0 or a name is not acceptable |
| ParserLaws.ShiftedIs | src/parser.rs:205-223 | which fields the fallback scan takes for PID, uid and name |
| ParserLaws.StartShifted | src/parser.rs:201-249 | otherwise the PID is the first positive number past the first field, the uid the next, the name the first word-like field, the type the field behind it unless that is a dump |
| ParserLaws.StartParses | src/parser.rs:180-199 | a printed start payload, with or without type and further fields, parses back to its event |
| ParserLaws.DiedIs | src/parser.rs:294-302 | a death payload gives the first positive number among the first eight fields that stands directly in front of a name |
| ParserLaws.DiedIsNone | src/parser.rs:286-305 | and nothing without such a pair |
| ParserLaws.DiedParses | src/parser.rs:286-305 | a printed death payload, standard, legacy or with other fields in front, parses back to its event |
| ParserLaws.ResumeParses | src/parser.rs:103-158 | so does a resume payload with its component at any of the first eight places, bare, quoted, among words or inside an Intent dump |
| ParserLaws.ScreenIs | src/parser.rs:311-319 | in any brackets a screen payload is 0 or 1 and that of an idle step empty; any other gives nothing |
| ParserLaws.EpochOf | src/parser.rs:325-335 | any u64 millisecond time stamp parses back |
| ParserLaws.ParseInvertsPrint | src/parser.rs:343-374 | a full printed line, whatever columns, gaps, brackets and padding surround the event, parses back to its time stamp and event |
| ParserLaws.ParsedHasShape | src/parser.rs:343-374 | an event comes only out of a line that is no section mark, with a time first and the tag of such events last in front of the first colon |
| ParserLaws.SpaceAroundLine | src/parser.rs:344-344 | white space around a line changes nothing |
| Telemetry.TelemetrySink.Write | src/telemetry.rs:257-270 | rotates in front of a record that would reach the limit |
| Telemetry.TelemetrySink.Emit | src/telemetry.rs:273-301 | the record to log and standard output |
| TelemetryLaws.LogIsIntact | src/telemetry.rs:178-270 | whatever opening and renaming answer, the two files and the buffer are the end of everything logged, cut between records |
| TelemetryLaws.LogIsSuffix | src/telemetry.rs:178-270 | as bytes they are a suffix of everything logged |
| TelemetryLaws.RotateMoves | src/telemetry.rs:241-253 | a rotation moves the whole live part or, if the rename fails, nothing |
| TelemetryLaws.WriteCounts | src/telemetry.rs:257-270 | after a record the count is the live size, below 512 KB if and only if the record with its newline is |
| TelemetryLaws.WriteAppendsOrRotates | src/telemetry.rs:257-270 | with successful file operations a record is appended as long as the live part stays below 524288 bytes; otherwise that part becomes the old file and the record starts a new one |
| TelemetryLaws.OpenAppendsOrRotates | src/telemetry.rs:196-210 | opening moves a file that has reached the limit and leaves any other |
| TelemetryLaws.RecordsWaitInBuffer | src/telemetry.rs:225-237 | no file is written while the records fit a buffer of 8192 bytes, and no more than that ever waits |
| TelemetryLaws.FirstLoadSwitches | src/daemon.rs:340-376 | the first load leaves the log as wanted with nothing waiting and writes no record |
| TelemetryLaws.LogKeepsALimit | src/telemetry.rs:241-270 | on every run with successful operations nothing is dropped unless what was moved last, with the record after it, reaches the limit |
| TelemetryLaws.LogKeepsBytes | src/telemetry.rs:241-270 | so the files hold the whole history or at least its last 524288 bytes |
| TelemetryLaws.LogStaysBelowLimit | src/telemetry.rs:196-270 | with successful file operations that holds on every run |
| TelemetryLaws.ReloadRecordLands | src/daemon.rs:340-376 | when the log file can be opened, a reload's own record ends up on disk whenever the log was open before or is wanted after |
| TelemetryLaws.StartupRecordLands | src/daemon.rs:352-398 | the held start-up record ends up on disk if and only if the log is wanted; otherwise no file is created or touched |
| TelemetryLaws.LogIgnoresStdout | src/telemetry.rs:273-301 | the files depend on neither --json nor the terminal |
| TelemetryLaws.StdoutIgnoresLog | src/telemetry.rs:172-176 | standard output does not depend on the log switch |
| TelemetryLaws.ClosedLogTouchesNothing | src/telemetry.rs:172-176 | a log never switched on creates and touches no file |
| Json.EscapeJson | src/telemetry.rs:81-101 | the loop computes the escaped form, borrowing exactly when nothing needs escaping |
| Json.EscapeIsIdentityIff | src/telemetry.rs:82-84 | the escaped form equals the input if and only if it has no quote, backslash or control character |
| Json.EscapeRoundTrips | src/telemetry.rs:81-101 | a reader after section 7 of RFC 8259 gets back exactly the string and stops exactly at the closing quote, for every string |
| Json.EscapeHasNoControl | src/telemetry.rs:93-96 | the escaped form holds no control character |
| Json.ControlIsSpelt | src/telemetry.rs:93-96 | control characters without a letter of their own are spelt by their code in four lower-case hex digits |
| ConfigFile.RuntimeConfig.ParseStr | src/config.rs:184-263 | the loop folds the lines into the fields |
| ConfigLaws.KeysByLastValid | src/config.rs:184-263 | each key ends as its own last valid assignment or its prior value |
| ConfigPrint.PrintedFileParses | src/config.rs:184-263 | a printed file, with any white space, comments and line ends, gives each key the value last written for it: numbers that fit, booleans, a burst cap of at least 1, an adj threshold moved into 500..=900; anything else leaves the key |
| ConfigPrint.AssignmentReads | src/config.rs:185-193 | one printed assignment yields exactly its key and value |
| ConfigPrint.OthersAssignNothing | src/config.rs:187-191 | comments, blank lines and lines without a sign yield nothing |
| ConfigPrint.MeaningIs | src/config.rs:195-259 | what every printed value does to every key |
| ConfigPrint.TemplateIsDefault | src/config.rs:101-158 | a file that says what the shipped template says gives every key it mentions its built-in default and leaves the others |
| ConfigLaws.ParsingIsIdempotent | src/config.rs:184-263 | parsing the same text again changes nothing |
| ConfigLaws.ConcatIsComposition | src/config.rs:184-263 | parsing a concatenation is parsing one text after the other |
| ConfigLaws.KeysAreIndependent | src/config.rs:184-263 | a key never depends on the prior value of another |
| ConfigLaws.PreloadAgrees | src/daemon.rs:134-140 | preload and authoritative load agree on the log switch whatever the burst cap |
| ConfigLaws.ParsingKeepsBounds | src/config.rs:221-252 | the adj threshold stays in 500..=900 and the burst cap at least 1 |
| ConfigLaws.RunKeepsBounds | src/daemon.rs:334-338 | on every run whose reloads parse files, so drains make progress |
| Pipeline.OnRead | src/daemon.rs:692-698 | one read of the pipe drives the daemon object through exactly the delivered lines |
| Pipeline.OnReads | src/daemon.rs:692-698 | any number of reads drives it through exactly the lines of all of them together |
| Pipeline.BytesDriveEngine | src/daemon.rs:575-601 | the UTF-8 bytes of any mix of printed events and lines that yield none, split into reads in any way, make the engine run exactly those events |
| Pipeline.OnStream | src/daemon.rs:692-698 | and the daemon object with it |
| Pipeline.ReloadIsLogged | src/daemon.rs:340-376 | when the log file can be opened, a changed configuration leaves its record at the end of the log if that was open before or is wanted after, and the log as wanted |

## Left out

- Event loop, epoll, inotify, signals, process exit and the logcat child: plumbing around the modelled step.
- `fork`, `execve`, argument vectors, `waitpid` and `note_children_drained`: the spawner is an answer per package.
- procfs parsing and PSI floating point: one memory figure, adj, uid and pressure answer per PID and event, with a separate answer for the re-read in front of a signal.
- The burst cap chosen from the memory size at start-up: it arrives with the first configuration.
- Start-up discovery by subprocess and the initial screen probe: the detected exclusions, the initial screen state and the listed processes are arbitrary.
- The first load's announcement inside the engine (`config_announced`, `startup_record`): engine runs start after it; `StartupRecordLands` covers the log.
- Table and JSON record layout, local-time formatting, rounding of MB figures: presentation.
- Clamp and floor notices of the configuration parser, and reading the exclusion and game lists: the sets arrive with the reload.
- The FNV hasher and `String` capacity: mathematical maps and sequences.
- Overflow of the `u32` and `i64` statistics and of memory sums: unbounded integers.
- 32-bit `usize`: widths of a 64-bit target.
- Telemetry.TelemetrySink.Write: a write to an open log file succeeds; a failed one, which leaves the count alone and may cut a record, is not modelled. Opening and renaming may fail. File permissions and other writers of the files are left out.
- Framer.LineFramer.Drain: the lines are returned in order instead of being passed to a callback.
- ParserLaws.ParseInvertsPrint: covers the layouts the parsers document; what the fallback scan makes of other start payloads is `StartShifted`.
