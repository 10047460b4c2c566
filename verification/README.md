# Verification of the Prismattyc tooling

Models of six parts of this repository, with proofs about every input and every run:

- **The mutation router** (`scripts/mutants-route.py`): a diff is parsed into affected lines, mutants are closed over
  shared lines and packed into shards, each shard becomes a diff that selects exactly its mutants, and the outcomes of
  fast, shard and fallback phases are merged. cargo-mutants is an oracle that answers any report for any phase.
- **The calibration of Jev scores** (`scripts/jev-shadow.py`): pooled adjacent violators, the curve, its interpolation and
  the rolling history. Floats are reals.
- **The MCP supervisor** (`crates/pmux-mcp/src/supervisor.rs`, `framing.rs`): a proxy that restarts its child, as steps
  over host lines, child lines, failed writes, exits and restart attempts, behind a bound on line length.
- **The activity view** (`crates/pmux-activity-monitor-plugin/src/model.rs`, `guest.rs`) and the connector's queries
  (`crates/pmux-activity-connector-plugin/src/query.rs`): the store of a host's seats, the lanes, the paired events, the
  poller and the bounded history query.
- **Two formats**: the frames that a plug-in hands to the host (`crates/pmux-plugin-api/src/frame.rs`, `capture.rs`) and
  the icon group of a Windows executable (`scripts/release/pe_icon.py`).
- **The nightly rotation** (`scripts/mutants-nightly.py`): a saved position that covers every shard of a pinned commit.

Where the source changes state in place there is a class (`Runner.Runner`, `Supervisor.ProtocolState`,
`Framing.BoundedLines`, `ActivityHost.Host`, `Poller.View`, `Capture.Capture`) or a method with the source's loop, proved
against a function of its inputs; the properties are lemmas about those functions. One module a file; `dafny verify dfyconfig.toml` takes
them together.

What the surroundings are taken to do is written as predicates: `SupervisorSafety.Allowed` (the host never reuses a request
id; a child answers only what it was sent, each at most once), `SupervisorLifecycle.Lifecycle` (the Lifecycle section of the
Model Context Protocol specification, 2024-11-05), `ActivityPaging.Pages` and `Query.PageOf` (a feed pages in sequence
order), and `Runner.Cargo` (the oracle).

Some promises hold only under a condition, which is proved to be exact. A diff is read as it is meant if and only if no
added line starts with `++ ` (`DiffHunks.AffectedIff`). A selection diff is read back as the selected lines if and only if
no selected source line starts with `++ ` (`Shards.SelectDiff`; `DiffLines.HeaderLineLost` is a written diff and
`Shards.HeaderLineSelected` an input). The diff of the added lines is read back as them if and only if none is numbered 0
(`DiffLines.ChangedRoundTrip`, `DiffLines.LineZeroLost`). The packer's documentation says that what it leaves over touches
mutants outside the remainder; the code leaves over whole buckets, so a bucket that mixes such a component with another
breaks it (`Packing.LeftoverMeetsIff`, `Packing.LeftoverRight`, `Packing.IsolatableLeftOver`). Resuming from `since_time`'s
cursor loses nothing if and only if the limit is at least one or nothing matches (`Query.SinceResumes`,
`Query.ZeroLimitLoses`). Icon widths come back capped at 256 if and only if all are positive (`IconRoundTrip.RoundTrip`,
`IconRoundTrip.ZeroComesBackAs256`). A capped shard count keeps its headroom if and only if the work fits the largest count
(`Nightly.HeadroomKept`). Outside the protocol, a host that sends the initialized notification early can lose it
(`SupervisorLifecycle.EarlyNotificationLost`).

## Model

| member | source | states |
|---|---|---|
| DiffLines.AffectedLines | scripts/mutants-route.py:158-183 | The loop that reads a diff computes the affected lines, deletion neighbours included. |
| DiffHunks.AffectedMeans | scripts/mutants-route.py:158-183 | Of a diff of hunks the affected lines of each file are its added lines, the line before each deletion and the first line after it, when no added line reads as a file header. |
| DiffHunks.AffectedIff | scripts/mutants-route.py:158-183 | For a diff with distinct files and separate hunks that is so if and only if no added line reads as a file header. |
| DiffHunks.ChangedMeans | scripts/mutants-route.py:128-149 | The changed lines of such a diff are exactly its added lines. |
| DiffLines.ReadWrite | scripts/mutants-route.py:158-183 | An insert-only diff without header-like lines is read back as exactly its paths and lines. |
| DiffLines.RoundTripIff | scripts/mutants-route.py:222-233 | The read-back is exact if and only if no written line starts with `+++ `. |
| DiffLines.HeaderLineLost | scripts/mutants-route.py:165-169 | A concrete diff with a header-like line is not read back. |
| DiffLines.ChangedIsAffected | scripts/mutants-route.py:128-149 | Both readers agree on where they are; the changed lines are among the affected ones, and are all of them when no hunk deletes a line. |
| DiffLines.ChangedLinesDiff | scripts/mutants-route.py:128-155 | The selection diff lists each added line of the input, files once in path order, and is read back as exactly those lines if and only if none is numbered 0. |
| DiffLines.ChangedRoundTrip | scripts/mutants-route.py:128-155 | Reading the selection diff back gives exactly the added lines if and only if none is numbered 0. |
| DiffLines.LineZeroLost | scripts/mutants-route.py:140-155 | A hunk numbered from 0 adds a line that the selection diff does not give back. |
| Mutants.IndexableIff | scripts/mutants-route.py:115-125 | A list of mutants is accepted exactly when no name has a line break and none is there twice. |
| Shards.SelectDiff | scripts/mutants-route.py:209-233 | The emitted diff is read back as exactly the lines all of whose mutants satisfy the predicate, unless a selected line is header-like; the expected mutants are those on such a line, in order. |
| Shards.ChosenMeans | scripts/mutants-route.py:214-221 | A line is chosen exactly when it is affected, some mutant is on it, and the predicate holds of every one that is. |
| Shards.HeaderLineSelected | scripts/mutants-route.py:222-233 | An input whose selected line looks like a header: no selection diff for it is read back as its lines. |
| Shards.SelectionTouches | scripts/mutants-route.py:209-233 | The expected mutants are exactly those on the lines that the emitted text is read back as, when no chosen line looks like a header. |
| Shards.RouterDiff | scripts/mutants-route.py:128-155 | Of a diff whose added lines are the source's, the router's own diff has exactly these lines, all in the source, and none that looks like a header. |
| Shards.RouterSelects | scripts/mutants-route.py:494-499 | So every selection the router makes of it is read back as the lines it chose, and expects the mutants on them. |
| Shards.ExpectedMembers | scripts/mutants-route.py:232 | The expected list holds exactly the mutants on a selected line, and repeats no name that the universe does not. |
| Components.ClosedHoldsConnected | scripts/mutants-route.py:252-270 | A set closed under shared affected lines holds everything connected to any member. |
| Components.LineComponent | scripts/mutants-route.py:252-270 | The worklist ends with exactly the connected component of its start, without repeats. |
| Packing.FindComponents | scripts/mutants-route.py:293-302 | The components are disjoint and together are the remainder. |
| Packing.FillBuckets | scripts/mutants-route.py:303-317 | Buckets keep components whole and in order, exceed the size only for one oversized component, and no two in a row would fit one shard. |
| Packing.ExactSelection | scripts/mutants-route.py:318-336 | A closed group is selected exactly if and only if each of its mutants is on an affected line that no mutant outside the remainder is on. |
| Packing.PackShards | scripts/mutants-route.py:284-336 | Shards and leftover are the buckets of whole components, each once: a bucket is a shard, whose diff selects it exactly, if all its mutants can be isolated, and is left over if not; it fails over a size below one, a repeated name or a line outside the source, and over nothing else. |
| Packing.LeftoverIff | scripts/mutants-route.py:318-336 | A mutant is left over if and only if its bucket holds one that cannot be isolated, itself or another. |
| Packing.LeftoverMeetsIff | scripts/mutants-route.py:284-290 | Each component that is left over touches mutants outside the remainder if and only if no bucket mixes one that does not with a mutant that cannot be isolated. |
| Packing.LeftoverRight | scripts/mutants-route.py:284-290 | At any size that is so when every mutant can be isolated or every component touches mutants outside, and at a size that holds the remainder only then. |
| Packing.SingleLeftoverRight | scripts/mutants-route.py:284-290 | At size one that is so of any remainder on affected lines. |
| Packing.NothingLeftOver | scripts/mutants-route.py:318-336 | Nothing is left over if and only if every mutant of the remainder can be isolated. |
| Packing.IsolatableLeftOver | scripts/mutants-route.py:318-336 | A remainder of two in which a mutant that can be isolated, and shares a line with no other, is left over. |
| Outcomes.StepsMean | scripts/mutants-route.py:369-395 | A validated outcome's summary is the one its build and test results mean. |
| Outcomes.StepsIff | scripts/mutants-route.py:369-395 | Exactly which process results make an outcome valid, for the baseline and for each result of a mutant. |
| Outcomes.CollectOutcomes | scripts/mutants-route.py:401-412 | The pass over a report collects each mutant's outcome once, the baselines and the counts, and stops at the first invalid or repeated one. |
| Outcomes.ValidatePhase | scripts/mutants-route.py:398-424 | A phase is accepted if and only if its report is consistent in every check, and then has an entry for exactly the requested mutants. |
| Outcomes.ReportIff | scripts/mutants-route.py:398-424 | Exactly which reports are accepted: one outcome for each expected mutant, the baseline's when it is due, true counts, and the exit status of a timeout, a miss or neither. |
| Outcomes.IterateSeed | scripts/mutants-route.py:339-358 | The skip lists name each resolved mutant once, by its summary, and refuse anything else. |
| Routing.FallbackSelection | scripts/mutants-route.py:436-454 | It fails over a line outside the source, or a mutant that is not done, has no free line and no full-suite timeout; else what is not done runs again if and only if some affected line of it carries no full-suite miss, and only a full-suite timeout without such a line is kept. |
| Routing.FallbackMeans | scripts/mutants-route.py:436-454 | The same of any fallback, on summaries and scopes alone. |
| Routing.OmittedIff | scripts/mutants-route.py:443-453 | After the phases, a mutant is omitted if and only if it is on no affected line. |
| Routing.MergeOutcomes | scripts/mutants-route.py:457-476 | The merge succeeds if and only if the baseline passed and the full phase has exactly the unfinished mutants, and then scores the universe. |
| Runner.FastPhaseMembers | scripts/mutants-route.py:684-691 | Each fast phase holds mutants of its own route only, and none of an earlier phase. |
| Runner.FastPhasesMean | scripts/mutants-route.py:194-201 | There is a fast phase for each route with a mutant on a line of its own, one on which every mutant has that route as its first, and its mutants are those. |
| Runner.PackedOpen | scripts/mutants-route.py:720-733 | The mutants of packed shards are unfinished, each in one shard. |
| Runner.PhasesLeave | scripts/mutants-route.py:436-454 | Since components are never split, no unfinished mutant shares a line with one that had its full-suite run. |
| Runner.FoldedFromReport | scripts/mutants-route.py:361-424 | The result a mutant ends with is the summary of a validated outcome in the report of the last phase that ran it, with that phase's scope. |
| Runner.ValidatedMeans | scripts/mutants-route.py:622-643 | A phase that ran has the baseline's outcome exactly when it is a fast one, and one outcome for each requested mutant, whose summary is its entry. |
| Runner.MergedIsFolded | scripts/mutants-route.py:457-476 | Finished results, retained timeouts and the full phase merge to each mutant's last result. |
| Runner.CompletedSettles | scripts/mutants-route.py:436-476 | A completed run keeps what was caught, unviable or missed by the full suite, keeps a full-suite timeout only when every affected line of it carries such a miss, and scores every other mutant by the full phase. |
| Runner.CausedIsDisorder | scripts/mutants-route.py:671-768 | Each way a run stops is a broken input or one answer that is missing, so a run in order has none. |
| Runner.WellListedInOrder | scripts/mutants-route.py:671-768 | When each listing has just the mutants on the affected lines of the diff it is given, less those it is told to skip, every listing matches what the router expects. |
| Runner.Runner.RunPlannedPhase | scripts/mutants-route.py:654-669 | A planned phase never meets its own overlap errors: it fails if and only if cargo's report is invalid, and else is recorded with the entries of that report, for exactly its mutants. |
| Runner.Runner.RunFast | scripts/mutants-route.py:712-719 | The fast phases run in order, each over exactly the mutants it selected and focused, until a report is invalid. |
| Runner.Runner.RunShards | scripts/mutants-route.py:724-734 | The shards run in order, each over exactly its group with the full suite, until a listing differs or a report is invalid. |
| Runner.Runner.RunFallback | scripts/mutants-route.py:738-754 | The fallback completes the plan and scores the universe by the last reports, or stops for a stated cause; it succeeds only when every mutant is on an affected line. |
| Runner.Runner.Run | scripts/mutants-route.py:671-768 | Whatever cargo answers: every phase that ran is in the plan that the results call for and has a validated report, nothing finished runs again, every error has its cause and internal errors none, and success means the whole plan ran and scores each mutant by its last report, by the full phase unless it was done or is a timeout with no line free of full-suite misses; inputs and answers in order give success, and so do listings that are merely true to their diffs. |
| Isotonic.Optimal | scripts/jev-shadow.py:555-574 | A fit that meets the optimality conditions has the least weighted squared error of all non-decreasing sequences. |
| Isotonic.Unique | scripts/jev-shadow.py:555-574 | No other non-decreasing sequence does as well. |
| Isotonic.BestFit | scripts/jev-shadow.py:555-574 | The conditions mean: non-decreasing, least error, the weighted sum kept. |
| Isotonic.Identity | scripts/jev-shadow.py:555-574 | Rates that do not decrease are left alone. |
| Isotonic.Range | scripts/jev-shadow.py:555-574 | The fit stays within any range the rates stay within. |
| Isotonic.PoolBlocks | scripts/jev-shadow.py:556-569 | The loop ends with ascending blocks that tile the bins, no prefix of a block averaging less than the block. |
| Isotonic.IsotonicRates | scripts/jev-shadow.py:555-574 | The result is the best non-decreasing fit, for any positive weights. |
| Calibration.BinHolds | scripts/jev-shadow.py:551-552 | Every score is in exactly one of the five bins, the one computed. |
| Calibration.CalibrationCurve | scripts/jev-shadow.py:577-637 | There is a curve if and only if the latest prompt of the model has enough scores, and it is the best fit of their smoothed rates. |
| Calibration.RatesWeigh | scripts/jev-shadow.py:608-625 | The smoothed rates weigh up to the observed miss rate. |
| Calibration.CurveIsCalibrated | scripts/jev-shadow.py:577-637 | The curve never falls, lies in [0, 1], and its weighted mean is the observed miss rate. |
| Calibration.RecalibrationRises | scripts/jev-shadow.py:640-663 | On a rising curve the map is defined everywhere, lies in [0, 1] and never falls, with no division by zero. |
| Calibration.RecalibrationInterpolates | scripts/jev-shadow.py:640-663 | The map takes each mean to its rate, a score between two means to the rate on the straight line between their points, and one outside to the rate of the nearer end. |
| Calibration.NextCalibrationState | scripts/jev-shadow.py:666-724 | The loops compute the next history. |
| Calibration.EveryScoreLands | scripts/jev-shadow.py:666-724 | The five bins of a run count every scored record once. |
| Calibration.NextStateSound | scripts/jev-shadow.py:666-724 | One more run keeps the history sound, whatever the records: at most three runs under distinct ids, of one model and the current prompt, with scores in their bins. |
| Calibration.BuiltSound | scripts/jev-shadow.py:666-724 | Every history built from nothing is sound. |
| Calibration.SoundCurveRises | scripts/jev-shadow.py:577-637 | The curve of a sound history has strictly rising means. |
| Calibration.BuiltStateRecalibrates | scripts/jev-shadow.py:577-724 | For any built history the curve's map is defined, in [0, 1], never falls, and goes through the curve's points in straight lines. |
| CalibrationHistory.ModelOfMeans | scripts/jev-shadow.py:669-685 | A set of records counts for a model that has at least a hundred scores and no fewer than any other, and for one whenever some model has a hundred. |
| CalibrationHistory.RowCounts | scripts/jev-shadow.py:686-692 | A row counts the records of the run's model, of caught or missed mutants, in its stretch of scores, with their misses and their sum. |
| CalibrationHistory.BuiltIsCurrent | scripts/jev-shadow.py:713-724 | Cutting the history at every step gives the last three of all current runs. |
| CalibrationHistory.CurrentAre | scripts/jev-shadow.py:713-724 | Current are, in order, the sets of records that added a run and that no later one replaces. |
| CalibrationHistory.KeptRuns | scripts/jev-shadow.py:713-724 | The history is the runs of the last three sets of records that no later set replaces, by another model or by the same id. |
| CalibrationHistory.CurveFitsRecords | scripts/jev-shadow.py:577-724 | The curve of a history is the best fit, weighed by counts and twenty more, of the miss rates of those records themselves, at their average scores. |
| CalibrationHistory.LatestIsLargest | scripts/jev-shadow.py:585-592 | The latest prompt is the largest that any run has. |
| CalibrationHistory.OwnRuns | scripts/jev-shadow.py:580-593 | A curve is made from every run of its model and prompt, as often as it is there, and from no other. |
| Supervisor.ProtocolState.TakeInterruptedRequests | crates/pmux-mcp/src/supervisor.rs:73-84 | Everything pending but the initialize request is taken, once. |
| Supervisor.BootstrapChild | crates/pmux-mcp/src/supervisor.rs:202-235 | The replay loop is the bootstrap of the model. |
| Supervisor.RestartChild | crates/pmux-mcp/src/supervisor.rs:154-200 | The attempts loop is the restart of the model; it ends with the first attempt whose child comes up, and without one only after all attempts. |
| Supervisor.RestartMeans | crates/pmux-mcp/src/supervisor.rs:154-235 | A run goes on if and only if some attempt spawns, its writes succeed and the initialize response comes when it is due; the child is that of the first such attempt, and the host gets one error for the interrupted requests and what each child said before its response. |
| Supervisor.RestUnused | crates/pmux-mcp/src/supervisor.rs:176-197 | What the attempts after that one would do does not matter. |
| Supervisor.Run | crates/pmux-mcp/src/supervisor.rs:97-151 | The select loop over any events, also those that end it, is the fold of the steps. |
| SupervisorSafety.RestartSafe | crates/pmux-mcp/src/supervisor.rs:154-200 | After a restart every interrupted request has its one answer and nothing is in flight. |
| SupervisorSafety.StepSafe | crates/pmux-mcp/src/supervisor.rs:97-151 | Every step keeps: one receiver, at most one answer, unanswered requests with the current child. |
| SupervisorSafety.RunIsSafe | crates/pmux-mcp/src/supervisor.rs:45-85 | Over any run of crashes, failed writes and restarts, also one that an over-long line or a failed write to the host cuts, each non-initialize request is written to one child and answered at most once, by the child or by one error; one without an answer is with the last child of a run that goes on or was cut. |
| SupervisorForwarding.EveryLineForwarded | crates/pmux-mcp/src/supervisor.rs:115-149 | Over any run each host line is written to the child of that moment and each child line to the host, in the order read, and nothing is taken back. |
| SupervisorForwarding.EveryRequestAnswered | crates/pmux-mcp/src/supervisor.rs:45-85 | Each request that is read, by its own id and method, is written to one child and answered at most once, and exactly once when that child has been replaced. |
| SupervisorLifecycle.BootstrapWrites | crates/pmux-mcp/src/supervisor.rs:202-235 | A bootstrapped child was written the initialize line, and the initialized line if and only if the handshake was complete. |
| SupervisorLifecycle.RunIsOrderly | crates/pmux-mcp/src/supervisor.rs:60-71 | For a host that follows the protocol: at most one initialize response, also when the run was cut; every later child gets the initialize line first, and a replacement the initialized line before any later request. |
| SupervisorLifecycle.EarlyNotificationLost | crates/pmux-mcp/src/supervisor.rs:212-232 | A run of three events in which an initialized notification sent before the response never reaches the child that replaces the first. |
| Framing.BoundedLinesMean | crates/pmux-mcp/src/framing.rs:33-66 | Every line, newline included, is within the limit if and only if nothing is over-long. |
| Framing.OverLongNext | crates/pmux-mcp/src/framing.rs:50-63 | A byte makes the input over-long exactly when the limit's worth of bytes without newline precedes it. |
| Framing.BoundedLines.PollRead | crates/pmux-mcp/src/framing.rs:33-66 | A read is passed on whole or not at all; the reader fails exactly when the bytes so far are over-long, and stays failed. |
| Framing.ReadAll | crates/pmux-mcp/src/framing.rs:33-66 | However the input is cut, the reads before the first over-long one come out, and all if none is. |
| Activity.MeaningfulForgets | crates/pmux-activity-monitor-plugin/src/model.rs:79-91 | Once an event is not mail, the state no longer depends on what came before. |
| ActivityEffects.KindStates | crates/pmux-activity-monitor-plugin/src/model.rs:79-91 | Mail changes no state; any other event puts the seat in the one state of its kind, whatever it was in. |
| ActivityHost.Host.Apply | crates/pmux-activity-monitor-plugin/src/model.rs:180-214 | A page is applied as the model says, and every seat has a latest record afterwards. |
| ActivityHost.Host.Insert | crates/pmux-activity-monitor-plugin/src/model.rs:300-338 | A record goes to its seat, or to a new one in place of the seat with the oldest last event. |
| ActivityHost.Host.Discover | crates/pmux-activity-monitor-plugin/src/model.rs:216-298 | The sweep and the sessions, one by one, give the model's seats. |
| ActivityHost.InsertedOk | crates/pmux-activity-monitor-plugin/src/model.rs:300-338 | A record keeps histories of at most 256, increasing, of their own seat, with distinct last events. |
| ActivityEffects.RecordMeans | crates/pmux-activity-monitor-plugin/src/model.rs:300-317 | A record changes its own seat only; a full host gives up the one without a session whose last event is oldest, or drops the record when all have sessions. |
| ActivityEffects.OwnSeatTakes | crates/pmux-activity-monitor-plugin/src/model.rs:318-338 | Its seat keeps its last 255 records and this one; a new state dates from the record, and fades exactly when the page is live and the seat had a known one. |
| ActivityEffects.PageMeans | crates/pmux-activity-monitor-plugin/src/model.rs:180-214 | A page leaves the host connected, in its lifetime, with its reason for a restart, and as far as the furthest of its own place, the page's cursor and its records. |
| ActivityEffects.RestartForgets | crates/pmux-activity-monitor-plugin/src/model.rs:186-199 | After a page that starts over no seat is left that it does not name. |
| ActivityHost.AppliedValid | crates/pmux-activity-monitor-plugin/src/model.rs:127-132 | Whatever a page says, every seat has a history or a discovery, so the unreachable arm is. |
| ActivityPaging.FullHasOldest | crates/pmux-activity-monitor-plugin/src/model.rs:303-317 | Without sessions a full host always finds one seat to evict, the one last seen first. |
| ActivityPaging.RunFollows | crates/pmux-activity-monitor-plugin/src/model.rs:300-338 | After any log the kept seats are exactly the 128 whose last event is newest, each with its last 256 records since it was let in, the state that all of those put it in and the time it last changed; every seat let in is held or counted as evicted. |
| ActivityPaging.SinceIsLast | crates/pmux-activity-monitor-plugin/src/model.rs:300-338 | The records since a seat was let in are the last of its own. |
| ActivityPaging.SliceTracks | crates/pmux-activity-monitor-plugin/src/model.rs:202-210 | Replays in a page change nothing and its news are taken. |
| ActivityPaging.PagingIsInvisible | crates/pmux-activity-monitor-plugin/src/model.rs:180-214 | Any two ways to page one lifetime's log, replays included, end with the same seats, histories and states, fade times aside. |
| ActivityPaging.PagesFollow | crates/pmux-activity-monitor-plugin/src/model.rs:180-214 | In pages or at once: the same seats, records, states and evictions. |
| ActivityPaging.FadesOnlyWhenLive | crates/pmux-activity-monitor-plugin/src/model.rs:183-185 | A page starts fades, at its own time, if and only if it follows a caught-up page of the same lifetime and does not reset. |
| ActivitySessions.SnapshotMeans | crates/pmux-activity-monitor-plugin/src/model.rs:216-298 | After a snapshot the seats are those listed and those with a history; a seat has a discovery if and only if it is listed, its last session's; any other seat is as before but for the end of its session. |
| ActivitySessions.ObservedOnce | crates/pmux-activity-monitor-plugin/src/model.rs:230-297 | A seat listed once is seen as its own session says, whatever else is listed. |
| ActivitySessions.SessionChangeForgets | crates/pmux-activity-monitor-plugin/src/model.rs:248-254 | A listed seat keeps its history unless the session it had was another one. |
| ActivitySessions.ListedState | crates/pmux-activity-monitor-plugin/src/model.rs:255-297 | A listed seat takes its session's state, unless its own events say that it runs and the session would only be working or waiting; a new state dates from the snapshot and fades if there was one. |
| ActivitySessions.LiveSeatsStay | crates/pmux-activity-monitor-plugin/src/model.rs:303-317 | Within a lifetime no page evicts a seat with a running session that its snapshot, if any, lists. |
| ActivitySessions.FullOfLiveStays | crates/pmux-activity-monitor-plugin/src/model.rs:303-317 | While a full host has a running session in every seat, no records change which seats it holds, and none is evicted. |
| ActivitySessions.SnapshotExceeds | crates/pmux-activity-monitor-plugin/src/model.rs:230-249 | A snapshot is held whole, also beyond 128 seats. |
| ActivityLane.BinCovers | crates/pmux-activity-monitor-plugin/src/model.rs:387-390 | A time is in the bin whose stretch of the window it is in, the last bin taking what is left. |
| ActivityLane.Lane | crates/pmux-activity-monitor-plugin/src/model.rs:370-418 | In now, window and bins: each bin counts exactly the records received in its equal part of the window before now, the last one to the end, and, received in order, has the state after everything up to it, none before the first; the counts add up to the records from the window's start. |
| ActivityLane.LaneCountsAll | crates/pmux-activity-monitor-plugin/src/model.rs:394-404 | In any order the counts add up to the records in the window. |
| ActivityLane.LastBinAgrees | crates/pmux-activity-monitor-plugin/src/model.rs:325-418 | The last bin has the seat's state if and only if an event that is not mail is retained or the seat has no state yet. |
| TaskGroups.DeciderIsFirst | crates/pmux-activity-monitor-plugin/src/model.rs:560-632 | The decider of a start is the first later record of its key or that closes its run. |
| TaskGroups.OutcomeIsFirst | crates/pmux-activity-monitor-plugin/src/model.rs:560-632 | A start runs while nothing decides it; else the first decider says how and when it ended. |
| TaskGroups.ResultEndsOne | crates/pmux-activity-monitor-plugin/src/model.rs:595-624 | A result pairs with at most one start. |
| TaskGroups.ClaimedIffOpen | crates/pmux-activity-monitor-plugin/src/model.rs:595-624 | A result finds an open start if and only if it is the first to decide one. |
| TaskLines.StartLine | crates/pmux-activity-monitor-plugin/src/model.rs:560-632 | The line of a start, by the first later record of its operation or that ends its turn or session: still running, without a result, or with the result's outcome, time and exit code, the duration it says or else the elapsed time, and its own task, tool and target before the result's. |
| TaskLines.LoneResult | crates/pmux-activity-monitor-plugin/src/model.rs:609-623 | A result whose start is gone has its own line, with the details and the duration it says itself. |
| TaskLines.NoteLine | crates/pmux-activity-monitor-plugin/src/model.rs:638-652 | A note has its text, the last task its run named, and nothing of an operation. |
| TaskLines.TaskAtLast | crates/pmux-activity-monitor-plugin/src/model.rs:568-575 | The task of a record is the one its run named last. |
| TaskGroups.CloseRun | crates/pmux-activity-monitor-plugin/src/model.rs:627-636 | Closing a run leaves exactly the operations open in it without a result. |
| TaskGroups.PairEvents | crates/pmux-activity-monitor-plugin/src/model.rs:560-653 | The pass gives every start with its decider, every result no start waits for, and every note, in order. |
| TaskGroups.SortedIsStable | crates/pmux-activity-monitor-plugin/src/model.rs:657-658 | Newest first, nothing lost, ties in the order they had. |
| TaskGroups.GroupsPartition | crates/pmux-activity-monitor-plugin/src/model.rs:659-668 | Every activity lands in exactly one group. |
| TaskGroups.GroupsMean | crates/pmux-activity-monitor-plugin/src/model.rs:654-669 | Group tasks are distinct, groups hold exactly the activities, times never increase within a group or across heads, and of two of one time the later comes first. |
| TaskGroups.TaskGroups | crates/pmux-activity-monitor-plugin/src/model.rs:560-669 | The method computes these groups. |
| Poller.View.Remap | crates/pmux-activity-monitor-plugin/src/guest.rs:91-120 | A changed listing keeps the host, the same object, of each endpoint still listed, when endpoints are listed once each, and moves the selection with its endpoint. |
| Poller.View.Visit | crates/pmux-activity-monitor-plugin/src/guest.rs:133-166 | A host is read until it has no more, twice at most, and a failed read sets its link; the calls it makes are returned, each with its cursor. |
| Poller.View.Poll | crates/pmux-activity-monitor-plugin/src/guest.rs:70-168 | One tick is the turn that the model serves from where the last one stopped: its calls and visits are returned, the reads it makes are the listing and those calls, at most fifteen, and only the hosts it visits change. |
| Poller.ServedMeans | crates/pmux-activity-monitor-plugin/src/guest.rs:121-168 | A turn makes at most seven calls, each answered by the feed, and visits from four to seven hosts, or all when they are fewer than four, in order; each of them has heard its one or two answers and no other has changed. |
| Poller.ReadsBounded | crates/pmux-activity-monitor-plugin/src/guest.rs:121-124 | Over any ticks none makes more than fifteen host reads, the listing included. |
| Poller.TicksCover | crates/pmux-activity-monitor-plugin/src/guest.rs:125-131 | Over n endpoints a quarter of n polling ticks, rounded up, reaches every one, whatever the answers. |
| Poller.SpacedTicksPoll | crates/pmux-activity-monitor-plugin/src/guest.rs:70-81 | A view that may read polls on every tick that comes 250 ms after the last and lists. |
| Poller.TurnsCover | crates/pmux-activity-monitor-plugin/src/guest.rs:125-131 | Turns taken in a row reach every host within as many turns as it is away. |
| Poller.Run | crates/pmux-activity-monitor-plugin/src/guest.rs:70-168 | A run of ticks over unchanged endpoints is the model's run, call by call and host by host, so it keeps the read bound and reaches every endpoint. |
| PollerCatchUp.PollTracks | crates/pmux-activity-monitor-plugin/src/guest.rs:140-166 | Against a feed that pages a log, a poll takes the next 256 records, and the seats are then those of the records so far. |
| PollerCatchUp.VisitAdvances | crates/pmux-activity-monitor-plugin/src/guest.rs:133-166 | A visit with two calls left takes the next 512 records, whatever sessions the pages have. |
| PollerCatchUp.OneVisitReadsTheRing | crates/pmux-activity-monitor-plugin/src/guest.rs:131-133 | So one such visit reads a log of 512 records whole. |
| PollerCatchUp.VisitsCatchUp | crates/pmux-activity-monitor-plugin/src/guest.rs:70-168 | Over any ticks a host has taken all of its feed after one visit for each 256 records. |
| PollerCatchUp.TickPollsIff | crates/pmux-activity-monitor-plugin/src/guest.rs:70-90 | A tick polls if and only if the view may read, 250 ms have gone by since the last try and the endpoints can be listed; when they cannot, every host is retrying. |
| PollerCatchUp.MissedMeans | crates/pmux-activity-monitor-plugin/src/guest.rs:150-163 | A failed poll sets the link by its error and nothing else. |
| PollerCatchUp.SelectionFollows | crates/pmux-activity-monitor-plugin/src/guest.rs:93-119 | The selected seat stays selected while its endpoint is listed, wherever that is, and else no longer. |
| PollerCatchUp.ReadsAre | crates/pmux-activity-monitor-plugin/src/guest.rs:121-168 | A call is two host reads, or one when there was no page. |
| Query.Retained | crates/pmux-activity-connector-plugin/src/query.rs:65-113 | It asks from the start and then, if the first page leaves more, once from its cursor; it succeeds if and only if the pages line up, and then holds at most 512 records up to the first watermark; each error says what was wrong with the answers. |
| Query.RetainedIsTheLog | crates/pmux-activity-connector-plugin/src/query.rs:65-113 | Against a feed that pages in order, a success is exactly what was retained at the first page: no gap, no repeat. |
| Query.SinceMeans | crates/pmux-activity-connector-plugin/src/query.rs:29-60 | A page by time has the first matches up to the limit, says there is more exactly when its cursor is short of the watermark, and warns of a gap exactly when the time is before everything retained. |
| Query.SinceResumes | crates/pmux-activity-connector-plugin/src/query.rs:29-60 | Resuming from the cursor neither loses nor repeats a match if and only if the limit is at least one or nothing matches. |
| Query.ZeroLimitLoses | crates/pmux-activity-connector-plugin/src/query.rs:41-43 | With a limit of zero a matching record is lost. |
| Query.NoMoreIsAll | crates/pmux-activity-connector-plugin/src/query.rs:57 | A page that says there is no more leaves nothing behind. |
| Query.ObservedSeats | crates/pmux-activity-connector-plugin/src/query.rs:139-186 | Every seat with a session or a record, with the first, the last and the number of its records. |
| Query.CursorRoundTrip | crates/pmux-activity-connector-plugin/src/query.rs:219-239 | A cursor comes back from its text if and only if its epoch is 1 to 64 hex digits and its sequence has 64 bits. |
| Query.CursorTextIff | crates/pmux-activity-connector-plugin/src/query.rs:219-239 | The same in characters and in the range of a sequence. |
| Query.ParsedIsCanonical | crates/pmux-activity-connector-plugin/src/query.rs:219-239 | What is accepted names a cursor that reads back as itself. |
| Frame.CheckCell | crates/pmux-plugin-api/src/frame.rs:96-122 | The checks of a cell accept it if and only if text, width and neighbours agree, without reading past the grid. |
| Frame.ValidateFrame | crates/pmux-plugin-api/src/frame.rs:71-164 | A frame is accepted if and only if every cell and tile is valid and the exact byte bound is within 2 MiB; the bound is returned. |
| Frame.SplitUnique | crates/pmux-plugin-api/src/frame.rs:96-122 | A row splits into narrow cells and wide pairs in at most one way. |
| Frame.RowsSplit | crates/pmux-plugin-api/src/frame.rs:96-122 | Each row of an accepted frame does split, and its pieces sum to the columns. |
| Capture.Capture.SubmitRaster | crates/pmux-activity-monitor-plugin/src/capture.rs:19-73 | A raster is taken if and only if it is on the lowest layer, fewer than 32 were taken, it has one pixel for each pixel of its area, and it fits the room left with 64 bytes more; it pays for itself and becomes that tile. |
| Capture.Render | crates/pmux-activity-monitor-plugin/src/capture.rs:80-102 | When the reserve fits the limit, any submissions and any grid of texts no longer than their reserve are within it; if viewport, cells and areas are ones the host takes, the frame passes its check; the tiles are the submissions that were affordable in turn, none when the reserve does not fit. |
| Capture.ReserveIsExact | crates/pmux-activity-monitor-plugin/src/capture.rs:89-94 | Every grid of such texts, and every grid of valid cells, fits a limit if and only if the reserve does. |
| Capture.AllTaken | crates/pmux-activity-monitor-plugin/src/capture.rs:19-73 | Up to 32 rasters that match their areas and together fit the room all become tiles, in order. |
| Bytes.UnpackedPacked | scripts/release/pe_icon.py:14-19 | A number that fits comes back from its little-endian bytes. |
| Bytes.Put | scripts/release/pe_icon.py:136-176 | A field written in place leaves what was written before and zeros after. |
| IconPe.ReadDirectory | scripts/release/pe_icon.py:60-69 | The loop over a resource directory reads its entries in order, or fails at the first past the end. |
| IconPe.IconWidths | scripts/release/pe_icon.py:72-133 | The reader is the model's, errors included. |
| IconPe.WriteGroup | scripts/release/pe_icon.py:138-145 | The group buffer holds exactly the header and entries of the widths. |
| IconPe.SyntheticPe | scripts/release/pe_icon.py:136-176 | The file written in place is, field by field, the table of its layout; a count or id that does not fit is an error. |
| IconRoundTrip.ReadsWhatIsWritten | scripts/release/pe_icon.py:72-176 | Through headers, section and resource tree, group 1 comes back and any other id gives the empty list. |
| IconRoundTrip.RoundTrip | scripts/release/pe_icon.py:72-176 | The widths come back capped at 256 if and only if all are positive. |
| IconRoundTrip.ZeroComesBackAs256 | scripts/release/pe_icon.py:141 | A width of zero comes back as 256. |
| Nightly.HeadroomKept | scripts/mutants-nightly.py:125-134 | The estimated count is the least that keeps 1.25 times the work within the budgets, if and only if it is not capped. |
| Nightly.HeadroomInSeconds | scripts/mutants-nightly.py:125-134 | The same in seconds: shards of four hours less five minutes, at most 256. |
| Nightly.CostMeans | scripts/mutants-nightly.py:112-123 | A mutant costs the averages of its package once it is sampled, and the guesses before. |
| Nightly.TotalAdds | scripts/mutants-nightly.py:125-134 | The estimated work adds up over packages, each its mutants times their cost. |
| Nightly.CheckShard | scripts/mutants-nightly.py:325-383 | A report is sound if and only if it is finished, its counts agree and it repeats no mutant. |
| Nightly.MergeReports | scripts/mutants-nightly.py:291-387 | A batch is complete if and only if each selected shard has one sound report and nothing else was uploaded. |
| Nightly.CompleteMeans | scripts/mutants-nightly.py:291-387 | In the reports themselves: one sound report for each selected shard, no other, and no mutant reported twice. |
| Nightly.PlanResumes | scripts/mutants-nightly.py:137-175 | A scheduled plan starts exactly where the merged batches end, at the pinned commit. |
| Nightly.PlanOkIff | scripts/mutants-nightly.py:137-175 | A scheduled plan fails exactly over a changed listing, and else selects the next sixteen shards or what is left. |
| Nightly.ManualPlanIff | scripts/mutants-nightly.py:137-175 | A manual plan fails exactly over a start past the estimated shards. |
| Nightly.NightAdvances | scripts/mutants-nightly.py:423-442 | A complete scheduled night appends its batch: short of the last shard it saves the position, count, listing and pin, and with the last one it finishes the rotation and pins the next to that night's main. |
| Nightly.OtherNightKeeps | scripts/mutants-nightly.py:441-442 | Any other night changes nothing. |
| Nightly.RotationFinishes | scripts/mutants-nightly.py:423-442 | From the start of a rotation, with other nights between, as many complete nights as it has batches finish exactly one rotation, over all its shards, and fewer none. |
| Nightly.NextRotationFinishes | scripts/mutants-nightly.py:423-442 | The same after any nights that end between two rotations. |
| Nightly.EveryRotationCovered | scripts/mutants-nightly.py:423-442 | Over any nights each finished rotation completed every shard once, in order, in as few batches as possible, every batch planned at the commit its first night pinned. |
| Nightly.PinMovesAtTheEnd | scripts/mutants-nightly.py:433-438 | The pinned commit changes only when the last batch completes. |
| Nightly.IncompleteIsRetried | scripts/mutants-nightly.py:441-442 | An incomplete batch changes nothing and is planned again unchanged. |
| Nightly.OnlyScheduledCount | scripts/mutants-nightly.py:137-175 | Any sequence of runs leaves what its scheduled nights alone would leave. |

## Left out

- Subprocesses, sockets, files, clocks and the wasm runtime: their results are parameters of the models.
- JSON and regular expressions: mutants, reports and messages are datatypes, a hunk header is its number; reports of the wrong JSON types are not modelled.
- `seed_iterate` files, logs, fingerprints, headroom checks and report text in the router.
- `FAST_ROUTES` is a parameter of the router; a mutant's identity is its value, without the text of its own diff.
- Python's `splitlines` on separators other than newlines: models start from sequences of lines.
- DiffHunks.AffectedIff: file headers are those of a modified file; new, deleted and renamed files and mode lines are not modelled.
- Floating-point rounding in the calibration: reals.
- The order in which interrupted requests are answered, requests from the server to the host, and non-response child lines with an id.
- Adding up the nightly metrics: the merged metrics are a parameter of the state advance.
- Seat labels, `is_stale`, ages and everything that is drawn; the daemon's ring buffer and `prismattyc_core`'s record validation, which a page contract replaces.
- A session's own observation record is a field of the session: the code that makes it is not part of this model.
- Unicode tables: a cell's text is its length, control, grapheme and width facts.
- Styles and colours of cells.
- Capture.Render: takes the cells of the widget grid as they are; the copy out of the grid and the widget library are not part of this model.
- The sort of the details view is written as a stable insertion, as the library's sort promises no more than stability.
- ActivityPaging.PagingIsInvisible: pages with session snapshots are outside it, since a snapshot sets states from outside the log.
- ActivityLane.Lane: states are claimed for records received in order; counts for any order.
- `ico_sizes` and the version strings of the executable, `recent_events` and `filtered_page`: short selections.
