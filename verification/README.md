# Models of the SIEM producer and its streaming demos

A Dafny model of three connected parts of the repository, with proofs about whole runs.

1. **The DNS tumbling-window aggregator** (`demo/dns_streaming_app.py`), a stateful stream
   processor with at-least-once delivery.
   - `Aggregation` holds the incremental fold, the declarative group-by and the sink row.
   - `StreamSpec` gives each transition of the app's dictionaries and of the broker as a
     function; `StreamApp` is the program itself, a class whose methods reassign the
     dictionaries, each proved equal to its transition.
   - `StreamSystem` steps app, broker, consumer position and source topic through any
     interleaving of polls, boundary checks, failed flushes, skipped or failed commits, rewinds
     to the committed offsets, shutdowns, crashes and restarts, and states the invariant.
   - `StreamPollProofs` and `StreamEmitProofs` prove that each step keeps it, `StreamRuns` that
     every run does; `StreamTheorems` draws the conclusions, `StreamRows` says exactly which
     rows reach the sink, and `StreamCommits` how far commits reach.
   - `StreamProcess` proves that each process of the program is a run of the system, so that all
     this holds of the class.
   - `StreamCounterexamples` and `StreamBackwards` construct runs for what the program does not
     promise, and say exactly when it does.
2. **The producer engine** (`siem_producer.py`).
   - `ProducerLoop` and `Pacing`: the counted loop with retries, cutoff and deadlines.
   - `Renderer`: counters and state pools whose entries are mutable objects, with the deep copy
     and restore around schema sampling.
   - `Json`, `Markers`: logical-type markers and their unwrapping.
   - `AvroNames`, `AvroSchema`: unique record names and recursive schema inference.
   - `MarkedSchema` joins the two: which marks of a rendered sample its schema shows.
3. **The DSWT fan-out** (templates and silver query). `DswtModel` is the shared seeded order
   model, `DswtItems` and `DswtDelivery` the two cursor machines run on the `Renderer`,
   `DswtStreams` the one-row-per-order streams and their reconciliation; the silver query is in
   `DswtDelivery`.

`FortiGate` is the key=value scanner of `demo/fortigate_streaming_app.py`, related both to the
regular expression it is written as and to a printer. `Prelude` holds minima, sorted sequences
and the option type.

`dafny verify dfyconfig.toml` checks everything.

## Conventions

- The broker's answers and the clock are arguments: how each `produce` ends, which rows a flush
  leaves unacknowledged, whether a commit is stored, refused or fails. `Flush` delivers every
  queued row it does not leave behind, so a flush that leaves nothing has delivered everything.
- Fields of `System` that the program does not store (`held`, `late`, `batches`, `done`,
  `consumed`, `skipped`) are history; a `Batch` records for which rows of a released window the
  flush that released it swallowed a produce error. An earlier attempt may have delivered them.
- `Ledger` is the part of the invariant that holds for every grace period. `Inv` adds what needs
  a boundary that never moves back (`Forward`: window plus grace not negative).
- A value read by `str`, `int` or a timestamp conversion is a `Raw`: its text, and its number if
  the conversion succeeds.
- Seeded helpers are functions about which only their ranges are assumed. Money is in integer
  pence, time in integer milliseconds.

## Where the code and its own text differ

The model follows the code.

- The group key is `GROUP_FIELDS` (lines 79-85), not the list in the module docstring (lines 21-23).
- `to_record` overwrites `event_type` with a constant (line 165), so rows are identified by their
  group key and not by their record.
- `flush_window` swallows produce errors (lines 209-210), which breaks the docstring's at-least-once
  promise (lines 12-15 and 29-31): `StreamCounterexamples.SwallowedErrorLosesTheRow` is a run that
  loses a row. `StreamTheorems.AtLeastOnce` accounts for the swallowed rows, and
  `StreamRows.MessageDeliveredIff` and `StreamRows.ReleasedGroupInSinkIff` say exactly when a row
  arrives: when it was there at boot or some produce attempt for it was accepted.
- The comment on the grace period (lines 69-72) extends it to older buffered windows. The check
  (line 431) looks at the current window only, so it holds of all windows exactly when there is no
  grace (`StreamCounterexamples.EveryWindowGracedIffNone`), and of one close exactly as
  `StreamCounterexamples.CloseGivesGraceIff` says.
- "Once a window has been released it is closed" (lines 13-14) depends on the flag
  `--allowed-lateness`, which accepts negative numbers. It holds exactly when the grace is at least
  minus one window, and so do the identity of retried rows, the monotony of commits and that nothing
  committed is held again (`StreamBackwards`).
- The item stream covers its orders exactly (`templates/dswt_order_items.j2` lines 4-7) only if
  no record is dropped, since a failed produce has already moved the cursor
  (`DswtItems.CoverageIffNoFailure`).
- A schema's root name is not registered among the used names, so a nested record can take it
  (`AvroSchema.RootNamesDistinctIff`, `AvroSchema.EveryTemplateCanClash`).
- A marked list element is recorded under the list's own name (lines 208-212 of `siem_producer.py`)
  but looked up as `<field>_item` (lines 510-514), so its logical type does not reach the schema
  (`MarkedSchema.LogicalIffLastMark`, `MarkedSchema.ListMarkIsLost`).
- A marker's payload is not searched, so a marker that wraps a marker leaves one
  (`Markers.UnwrapCleansIffPayloadsClean`).

## Model

| member | source | states |
|---|---|---|
| StreamTheorems.AtLeastOnce | demo/dns_streaming_app.py:359-425 | in every state of every run, each message below a committed offset was unusable, was discarded as late, or was folded into a released window whose row for its group, which reports that window's messages field by field, is in the sink or recorded as a swallowed error |
| StreamTheorems.CleanAtLeastOnce | demo/dns_streaming_app.py:190-211 | without swallowed produce errors, each such usable and timely message has its window's row for its group in the sink, reporting the window's messages |
| StreamTheorems.CleanRunLosesNothing | demo/dns_streaming_app.py:190-211 | without swallowed errors no released window has lost a row |
| StreamRuns.RunKeepsLedger | demo/dns_streaming_app.py:322-345 | the bookkeeping invariant holds in every state of every run, across crashes, restarts and rewinds, for every grace |
| StreamRuns.RunKeepsInv | demo/dns_streaming_app.py:337-345 | with a boundary that cannot move back, closed windows stay frozen and nothing committed is held again, in every state of every run |
| StreamTheorems.DiscardedExactlyWhenLate | demo/dns_streaming_app.py:474-485 | in every run a polled usable message is discarded exactly when its own timestamp lies below the closed boundary, and held under its window otherwise |
| StreamTheorems.ClosedWindowsAreFrozen | demo/dns_streaming_app.py:400-410 | from any state to any later one of the same process, a window below the boundary is gone or unchanged, the closed region only grows, released windows and sent rows stay recorded |
| StreamTheorems.RetriesRepeatTheSameRows | demo/dns_streaming_app.py:400-412 | within one process any two rows handed over for the same window and group are equal, however many retries lie between |
| StreamTheorems.ReleasedIsNeverReopened | demo/dns_streaming_app.py:412-435 | a window the process has released is never open again in that process |
| StreamTheorems.FailedWindowIsClosed | demo/dns_streaming_app.py:400-436 | a window that a close tried to emit, kept after a failed flush or not, stays below the boundary for the rest of the process: every later event of it is late, and while it is open its contents do not change |
| StreamTheorems.ReleasedWindowsAreCounted | demo/dns_streaming_app.py:412-416 | the windows statistic is the number of distinct windows the process has released |
| StreamTheorems.CommittedNeverRegresses | demo/dns_streaming_app.py:359-377 | no step, including a crash and restart or a rewind, lowers a committed offset |
| StreamTheorems.CommitsAreMonotone | demo/dns_streaming_app.py:359-377 | committed offsets never fall over a whole run |
| StreamTheorems.CommittedIsBounded | demo/dns_streaming_app.py:362-365 | in every state of every run, for every grace, a committed offset lies between the start offset and the last consumed one plus one, and equals the start offset if nothing was consumed |
| StreamTheorems.CommittedIsNotHeld | demo/dns_streaming_app.py:362-365 | with a boundary that cannot move back, no message held in an open window lies below a committed offset |
| StreamTheorems.BookkeepingAgrees | demo/dns_streaming_app.py:325-329 | in every state of every run the open windows are exactly those with offsets; an offset is buffered for a window exactly when it is listed under that window and partition |
| StreamTheorems.WindowCountsItsOffsets | demo/dns_streaming_app.py:411-413 | in every state of every run the event counts of an open window's groups add up to the number of offsets it lists |
| StreamTheorems.MessagesAreConserved | demo/dns_streaming_app.py:379-416 | at every point the polled messages are those counted in open windows, counted in released windows, discarded, or unusable |
| StreamTheorems.BoundaryAdvancesIffGrace | demo/dns_streaming_app.py:430-436 | every close moves the boundary strictly past the old window start, whatever the clock does, exactly when the grace is not negative |
| StreamTheorems.BoundaryHoldsIffForward | demo/dns_streaming_app.py:430-436 | no close moves the boundary back exactly when window plus grace is not negative |
| StreamTheorems.ReleasedWindowsHadEnded | demo/dns_streaming_app.py:427-436 | in every run, for every grace, a close that raises nothing puts the boundary at the aligned instant at or below the clock, after the old window start if the grace is not negative; every window a close releases had ended by the clock value read |
| StreamRows.ProducedExactly | demo/dns_streaming_app.py:186-211 | producing a window hands over exactly the rows of the attempts made and accepted; it raises exactly when some attempt fails twice |
| StreamRows.SentExactly | demo/dns_streaming_app.py:387-425 | the rows a process has handed over are exactly those of its accepted attempts, over all its boundary closes and its final flush |
| StreamRows.ReleasedRowInSinkIff | demo/dns_streaming_app.py:400-413 | for every grace: the row of a window released in some step is in the sink after it if and only if it was there when the process booted or an attempt that carried it was accepted since |
| StreamRows.ReleasedGroupInSinkIff | demo/dns_streaming_app.py:400-413 | with a boundary that cannot move back: a released window's row for a group is in the sink, to the end of the process, if and only if it was there at boot or some attempt for that window and group was accepted; it is missing exactly when every attempt was swallowed or escaped |
| StreamRows.MessageDeliveredIff | demo/dns_streaming_app.py:400-413 | a message let go of by releasing its window has its group's row in the sink if and only if the row was there at boot or an attempt that carried it was accepted |
| StreamRows.SinkOrigin | demo/dns_streaming_app.py:400-410 | the sink only grows, and only by rows handed over |
| StreamRows.SentRowsReport | demo/dns_streaming_app.py:154-174 | whatever row a process hands over or adds to the sink reports, field by field, the messages its window held in some step of the process |
| StreamRows.FullBufferIsFlushed | demo/dns_streaming_app.py:201-208 | on a full buffer what was queued is flushed first: rows left behind stay queued and the others reach the sink; then the row counts as produced, or the error escapes |
| StreamCounterexamples.SwallowedErrorLosesTheRow | demo/dns_streaming_app.py:209-211 | for every setting and every event, a run in which its window's one produce error is swallowed: the offset is committed and the sink stays empty |
| StreamCounterexamples.LostRowWasNeverAccepted | demo/dns_streaming_app.py:209-211 | in that run the event's row is missing from the sink and no attempt that carried it was accepted, as the exact condition for delivery requires |
| StreamCounterexamples.CloseGivesGraceIff | demo/dns_streaming_app.py:431-434 | at every close the due windows up to the one current at the last close have had their grace; when the newest ended window is open, all due windows have had it if and only if the grace has passed since that window's end |
| StreamCounterexamples.EveryWindowGracedIffNone | demo/dns_streaming_app.py:431-434 | every window due at every close of every run has had its grace if and only if the grace is not positive; otherwise a run that releases a window without it is constructed |
| StreamBackwards.NeverReopenedIffForward | demo/dns_streaming_app.py:427-436 | released windows stay closed in every run exactly when window plus grace is not negative; otherwise a run that reopens one is constructed |
| StreamBackwards.RetriesRepeatIffForward | demo/dns_streaming_app.py:400-436 | two rows one process hands over for the same window and group are equal, in every run, exactly when window plus grace is not negative; otherwise a run with two different rows is constructed |
| StreamBackwards.CommitsMonotoneIffForward | demo/dns_streaming_app.py:359-377 | committed offsets never fall, in any run, exactly when window plus grace is not negative; otherwise a run in which one falls is constructed |
| StreamBackwards.HeldUncommittedIffForward | demo/dns_streaming_app.py:362-365 | no committed message is held in an open window, in any run, exactly when window plus grace is not negative; otherwise a run that holds one is constructed |
| StreamCommits.CommitIsExact | demo/dns_streaming_app.py:359-377 | when a close or the final flush raises nothing, releases a window and its commit reaches the broker, each consumed partition is committed at its first offset still held, or past the last one consumed if none is; in every other case no committed offset changes |
| StreamCommits.EmptiedFlushesReleaseAll | demo/dns_streaming_app.py:387-417 | when every flush of a close or of the final flush leaves nothing undelivered and no produce escapes, exactly the due windows go |
| StreamCommits.CloseEmitsWhatHasEnded | demo/dns_streaming_app.py:427-436 | once the clock has passed the current window's end by the grace, a close whose flushes leave nothing behind lets go of a window if and only if its end is not after the clock, backlog and windows kept after a failed flush included; the others are unchanged |
| StreamCommits.EarlyCheckDoesNothing | demo/dns_streaming_app.py:430-432 | before that a boundary check changes nothing |
| StreamCommits.NothingBeforeFirstBoundary | demo/dns_streaming_app.py:334-342 | a process booted inside a window discards nothing and hands over nothing until the clock passes that window's end by the grace |
| StreamCommits.LoopGoesOnIff | demo/dns_streaming_app.py:366-436 | the consume loop survives a close if and only if no produce for a window that has ended fails twice and no commit made fails; a refused commit is no failure |
| StreamCommits.FinalFlushCommitsAll | demo/dns_streaming_app.py:486-489 | after a final flush of that kind whose commit reaches the broker no window is open, and every message the process has polled is below its committed offset; with no open window the final flush commits nothing |
| StreamProcess.ProcessIsRun | demo/dns_streaming_app.py:438-489 | the program's loop and final flush, from any running state of any run and over any turns whose messages are the next of their partitions, extend that run within one process to a state with the program's memory and broker |
| StreamProcess.Process | demo/dns_streaming_app.py:322-489 | one process of the program, from start-up to the last statistics: it extends the run it boots in, and every message below an offset it leaves committed was unusable, late, or folded into a released window whose row is in the sink or recorded as swallowed |
| StreamCounterexamples.PolledOnceHoldsOnly | demo/dns_streaming_app.py:452-485 | a fresh process that polls one event holds exactly that event, under one window, one group and one offset |
| StreamRuns.StepKeepsInv | demo/dns_streaming_app.py:438-489 | every step of the system keeps the full invariant |
| StreamRuns.StepKeepsLedger | demo/dns_streaming_app.py:438-489 | every step keeps the bookkeeping invariant, whatever the grace |
| StreamPollProofs.PollFrame | demo/dns_streaming_app.py:452-485 | the three outcomes of a poll and what each leaves untouched: an unusable or late message changes no window; an accepted one is entered in all four dictionaries |
| StreamPollProofs.PollKeepsCore | demo/dns_streaming_app.py:452-485 | a poll, whatever the message, keeps the invariant |
| StreamPollProofs.ReachedAfterPoll | demo/dns_streaming_app.py:452-453 | a poll brings exactly the polled message within the consumed range: none in between is skipped |
| StreamEmitProofs.ProduceAllFacts | demo/dns_streaming_app.py:177-211 | producing a window hands over only that window's rows, takes nothing back, and unless it raises hands over every row except the swallowed ones |
| StreamEmitProofs.ProducedCount | demo/dns_streaming_app.py:186-211 | the number returned plus the swallowed errors is the number of groups attempted |
| StreamEmitProofs.ReleaseStatistics | demo/dns_streaming_app.py:411-416 | a release adds one window, the window's groups less the swallowed ones, and the number of messages folded into it |
| StreamEmitProofs.RoundOneKeepsCore | demo/dns_streaming_app.py:390-417 | one window's turn in a round, released, kept for retry or raised, keeps the invariant |
| StreamEmitProofs.ReleaseBuffer | demo/dns_streaming_app.py:379-385 | releasing a window drops exactly its messages from the pending offsets |
| StreamEmitProofs.CommitPositionBounds | demo/dns_streaming_app.py:362-365 | a commit position lies between the start and the last consumed offset plus one, and before every pending offset |
| StreamEmitProofs.CommitSettles | demo/dns_streaming_app.py:359-377 | everything a commit newly covers has been settled |
| StreamEmitProofs.CommitKeepsCore | demo/dns_streaming_app.py:359-377 | a commit that is stored, refused or fails keeps the invariant |
| StreamEmitProofs.TickKeepsInv | demo/dns_streaming_app.py:427-436 | a boundary check keeps the full invariant, also when it raises |
| StreamEmitProofs.ShutdownKeepsCore | demo/dns_streaming_app.py:486-489 | the final flush keeps the invariant |
| StreamEmitProofs.RewindKeepsCore | demo/dns_streaming_app.py:371-375 | falling back to the committed offset keeps the invariant |
| StreamEmitProofs.RestartKeepsCore | demo/dns_streaming_app.py:322-345 | a crash and restart from the committed offsets keeps the invariant, whatever part of the queue was delivered |
| StreamSystem.TickMatches | demo/dns_streaming_app.py:427-436 | the system's tick does to app and broker what the app's boundary check does |
| StreamSystem.ShutdownMatches | demo/dns_streaming_app.py:486-488 | likewise for the final flush |
| StreamApp.LoopOneIsTwoSteps | demo/dns_streaming_app.py:440-485 | one turn of the consume loop is a tick followed, if a message came and nothing raised, by a poll |
| StreamApp.LoopStops | demo/dns_streaming_app.py:438-488 | after an exception the loop handles no further turn |
| StreamApp.DnsStreamApp.constructor | demo/dns_streaming_app.py:322-345 | the initial dictionaries and the first window start |
| StreamApp.DnsStreamApp.UpdateState | demo/dns_streaming_app.py:125-151 | the windows become those with the event folded into its window's group; the rest is unchanged |
| StreamApp.DnsStreamApp.HandleMessage | demo/dns_streaming_app.py:452-485 | one message has the effect of the poll transition on all seven fields |
| StreamApp.DnsStreamApp.Hold | demo/dns_streaming_app.py:482-485 | the offset is entered under both indexes and nowhere else |
| StreamApp.DnsStreamApp.Release | demo/dns_streaming_app.py:379-385 | the window's offsets leave both indexes |
| StreamApp.DnsStreamApp.CommitOffsets | demo/dns_streaming_app.py:359-377 | the offsets offered and the outcome, including a refused and a failed commit |
| StreamApp.DnsStreamApp.EmitWindow | demo/dns_streaming_app.py:391-417 | flush, then keep or release one window, with statistics |
| StreamApp.DnsStreamApp.EmitWindows | demo/dns_streaming_app.py:387-425 | the round over the due windows in time order, then a commit if any was released |
| StreamApp.DnsStreamApp.MaybeCloseBoundary | demo/dns_streaming_app.py:427-436 | nothing before window end plus grace; otherwise emit what has ended and move the boundary, unless a flush raised |
| StreamApp.DnsStreamApp.Run | demo/dns_streaming_app.py:438-489 | a whole process: all turns up to the first exception, then the final flush |
| Aggregation.AddToGroupsIsGroupBy | demo/dns_streaming_app.py:134-150 | one event folded into its group's aggregate turns the group-by of any events into the group-by of those events followed by it |
| Aggregation.RowReports | demo/dns_streaming_app.py:154-174 | the row made for a group has the inclusive window end, the event type dns, the group's four other texts, and the count, first and last timestamp and four sums, under their field names, of exactly the window's events that carry the group's five texts |
| Aggregation.TotalOfNumbers | demo/dns_streaming_app.py:98-117 | a sum adds a field's number once per event and nothing where the field is missing or does not convert; such a timestamp is zero |
| StreamApp.FlushWindow | demo/dns_streaming_app.py:177-211 | rows produced, counted and lost, with the retry on a full buffer and the escape of a second failure |
| StreamApp.Sorted | demo/dns_streaming_app.py:390 | the due windows in strictly increasing order, each once |
| StreamApp.LeastKey | demo/dns_streaming_app.py:364 | the least pending offset |
| StreamApp.SumCounts | demo/dns_streaming_app.py:411 | the sum of the groups' event counts |
| Aggregation.WindowFloor | demo/dns_streaming_app.py:120-122 | the window start is aligned and its window contains the timestamp, negative ones included |
| Aggregation.WindowFloorUnique | demo/dns_streaming_app.py:120-122 | it is the only start with both properties |
| Aggregation.FoldIsGroupBy | demo/dns_streaming_app.py:125-151 | the incremental fold of any event sequence is its declarative group-by: groups that occur, with count, sums, earliest and latest timestamp |
| Aggregation.FoldWindowsIsGroupBy | demo/dns_streaming_app.py:125-151 | after any sequence the open windows are those that occur, each the group-by of exactly its own events |
| Aggregation.GroupByUnique | demo/dns_streaming_app.py:125-151 | the group-by is determined by the bag of events |
| Aggregation.FoldWindowsPermutation | demo/dns_streaming_app.py:125-151 | folding any permutation of the events gives the same windows |
| Aggregation.CountAllOfFold | demo/dns_streaming_app.py:411 | the groups' counts add up to the number of events folded |
| Aggregation.RowWithinWindow | demo/dns_streaming_app.py:154-174 | a row's first and last timestamps lie in order within its window's inclusive bounds |
| ProducerLoop.Offer | siem_producer.py:1113-1138 | a record is produced exactly when one of six tries is accepted and all before it found the buffer full; any other error stops at once |
| ProducerLoop.DeliveredWithinSix | siem_producer.py:1111-1138 | a record that finds the buffer full n times and then gets another answer is produced if and only if n is at most five and the answer is success |
| ProducerLoop.ProduceBatch | siem_producer.py:1025-1140 | one batch stops at the target, counts exactly the successes and the current run of failures, and keeps the failure budget |
| ProducerLoop.ProduceCounted | siem_producer.py:1014-1160 | the counted loop ends with the target met, or after a run of at least 100 consecutive failures, so that it meets the target wherever no such run occurs, within total * (99 + batch) attempts, never counting past the target, checking the cutoff only between batches, with deadlines as the pacing rule gives them |
| ProducerLoop.NoFailuresNoWaste | siem_producer.py:1115-1140 | as many successes as attempts exactly when no attempt fails |
| Pacing.StartsNoEarlier | siem_producer.py:1150-1160 | the k-th batch starts no earlier than k frequencies after the first deadline |
| Pacing.RateIsBounded | siem_producer.py:1150-1160 | by time t at most floor((t - t0) / f) + 1 batches have started |
| Pacing.OnTimeIsExact | siem_producer.py:1153-1156 | while batches finish on time the deadlines are exact multiples of the frequency |
| Pacing.LateBatchRestarts | siem_producer.py:1157-1160 | a late batch restarts the schedule from the clock: no debt carries over |
| Renderer.TemplateRenderer.NextCount | siem_producer.py:215-223 | returns the counter's value, or its start, and advances it by the step |
| Renderer.TemplateRenderer.Init | siem_producer.py:364-370 | creates a pool only if absent; nothing else changes |
| Renderer.TemplateRenderer.Lookup | siem_producer.py:389-396 | the stored attribute, or the default for an unknown pool, key or field |
| Renderer.TemplateRenderer.Assign | siem_producer.py:418-430 | one attribute is written in place; every other pool, key and field keeps its value; unknown targets are ignored |
| Renderer.UpdateAnswers | siem_producer.py:418-430 | after an update the updated attribute answers the new value if its pool and key exist; every other look-up of any pool, key and field answers as before, and an unknown target changes nothing |
| Renderer.InitAnswers | siem_producer.py:364-370 | creating a pool changes only the answers about that pool, and only if it is new |
| Renderer.CounterAnswers | siem_producer.py:215-223 | a counter call moves that counter by its step; other counters and all pools are as before |
| Renderer.TemplateRenderer.Render | siem_producer.py:164-183 | a render's helper calls have the effect and the answers of the pure sequence |
| Renderer.DeepCopy | siem_producer.py:560 | equal contents at every depth and no entry shared with the original or within the copy |
| Renderer.TemplateRenderer.Sample | siem_producer.py:556-563 | whatever the samples update in place, counters and all pool attributes end as they began |
| Renderer.TemplateRenderer.SampleThenRender | siem_producer.py:540-563 | records rendered after sampling are those that would have been rendered without it |
| Renderer.CounterSequence | siem_producer.py:215-223 | the j-th call of a counter returns start + j * step |
| Markers.MarkerReader.UnwrapMarkers | siem_producer.py:185-213 | the recursive method returns the unwrapped tree and records the logical types in visiting order |
| Markers.UnwrapRoundTrip | siem_producer.py:185-213 | wrapping any scalars of a marker-free tree and unwrapping returns the tree and records exactly the marks met under a field name |
| Markers.LastVisitWins | siem_producer.py:202-203 | a field's logical type is the last mark visited under it |
| Markers.UnvisitedKeeps | siem_producer.py:202-203 | a field with no mark keeps what was recorded before |
| Markers.UnwrapCleansIffPayloadsClean | siem_producer.py:191-204 | no marker is left exactly when no marker wraps another |
| Markers.NestedMarkerSurvives | siem_producer.py:204 | an input that keeps a marker |
| Markers.MarkerKeyRoundTrip | siem_producer.py:193-201 | a helper's marker key is recognised and yields the logical name it was made from |
| Markers.MarkerKeyIff | siem_producer.py:190-201 | a key is a marker's exactly when it is the prefix, a name that is not empty, and the suffix, and that name is read from it |
| Markers.MarkerIff | siem_producer.py:190-201 | a value is a marker exactly when it is an object whose only field has such a key |
| MarkedSchema.LogicalIffLastMark | siem_producer.py:470-516 | in the schema of a rendered and unwrapped sample, a scalar that inference reaches has a logical type if and only if it is an integer or a string and the last mark met under the name it is looked up by, in this render and those before and after it, is that type |
| MarkedSchema.FieldMarkReaches | siem_producer.py:479-500 | the mark of a field's own integer or string value reaches its schema if no other mark is met under that name |
| MarkedSchema.ElementMarkIsLost | siem_producer.py:501-517 | a list element is never looked up under the name its mark is recorded by; without marks elsewhere under the element's name its schema has no logical type |
| MarkedSchema.ListMarkIsLost | siem_producer.py:501-517 | for every field and mark and every integer or string, a list of that one marked scalar is recorded under the field and its elements get the plain schema |
| AvroNames.Unique | siem_producer.py:461-468 | the chosen name is not in use |
| AvroNames.UniqueIsFirst | siem_producer.py:461-468 | it is the free candidate with the smallest suffix |
| AvroNames.TriedBound | siem_producer.py:461-468 | the search ends: candidates are distinct, so at most as many are taken as there are names in use |
| AvroNames.CandidateInjective | siem_producer.py:461-466 | different suffixes give different names |
| AvroNames.CandidateSpelled | siem_producer.py:461-466 | the first name tried is the base, the k-th after it the base followed by the decimal digits of k |
| AvroNames.PascalAppend | siem_producer.py:433-435 | a further part of a snake-case name appends its capitalised form |
| AvroNames.PascalOfOnePart | siem_producer.py:433-435 | a name of one part keeps its letters: the first becomes a capital, the others small |
| AvroNames.PascalIsClean | siem_producer.py:433-435 | the Pascal-case name is never empty and has no underscore |
| AvroSchema.SchemaInferrer.TakeUnique | siem_producer.py:461-468 | the loop finds the first free candidate and registers it |
| AvroSchema.SchemaInferrer.InferType | siem_producer.py:470-517 | the recursive inference, with its shared set of names |
| AvroSchema.SchemaInferrer.BuildFields | siem_producer.py:519-528 | the fields in order, a null default exactly for nullable unions |
| AvroSchema.DrawnIff | siem_producer.py:461-516 | a name that ends in no digit is used by inference exactly when it is the base name of an object reached |
| AvroSchema.NestedNamesAreDistinct | siem_producer.py:502-516 | nested record names within one schema are pairwise distinct and new, and the set of used names grows by exactly them |
| AvroSchema.RootNamesDistinctIff | siem_producer.py:530-535 | all names including the root's are distinct exactly when no object that inference reaches in the sample, in a field or as the first element of a list, has the root's record name as its base name |
| AvroSchema.EveryTemplateCanClash | siem_producer.py:530-535 | for every template name with a non-empty part, a field so named with _record appended, holding an object, takes the root's name |
| AvroSchema.SchemaAcceptsExactlyTheShape | siem_producer.py:470-526 | with consistent logical types the schema inferred from a sample accepts exactly the values of the sample's shape, at every depth |
| AvroSchema.RootAcceptsExactlyTheShape | siem_producer.py:528-535 | the same for whole records |
| AvroSchema.SampleConformsIff | siem_producer.py:470-526 | a sample conforms to its own schema exactly when its logical types fit its scalars and it has its own shape: homogeneous lists and integers that fit a long |
| DswtItems.RenderItem | templates/dswt_order_items.j2:10-34 | one render on the renderer is one step of the cursor machine and emits that step's row |
| DswtItems.RenderItems | templates/dswt_order_items.j2:10-34 | n renders from a fresh cursor yield the first n rows of the cursor machine |
| DswtItems.ProduceItems | siem_producer.py:556-563 | after sampling for a schema, whatever it did, n renders still yield the first n rows |
| DswtItems.CursorPlace | templates/dswt_order_items.j2:10-25 | after n renders the cursor stands on a line of an order and what was emitted is every line before it |
| DswtItems.ItemsCoverOrders | templates/dswt_order_items.j2:1-9 | exactly the counted number of renders emits every line of orders 0 to n-1, in order |
| DswtItems.LineOnTheStream | templates/dswt_order_items.j2:26-34 | the row at each line's place in the stream carries the product and quantity drawn for the line, the product's price, and their product as total |
| DswtItems.LaterRowsAreLaterOrders | templates/dswt_order_items.j2:14-18 | any later render belongs to an order past the limit |
| DswtItems.CoverageIffNoFailure | siem_producer.py:1115-1140 | when the loop meets its target the topic holds exactly the orders' lines if and only if no attempt failed |
| DswtModel.AllLinesMembers | templates/dswt_order_items.j2:14-34 | those lines are each line of each order and nothing else |
| DswtModel.AllLinesDistinct | templates/dswt_order_items.j2:14-34 | none of them occurs twice |
| DswtModel.AllLinesLength | demo/DSWT-London-2026/docker/entrypoint.sh:62-75 | their number is the sum the start script computes |
| DswtModel.SumForAll | templates/dswt_orders.j2:8-16 | over all item rows of n orders, one order's line totals add up to its total |
| DswtStreams.RenderOrder | templates/dswt_orders.j2:28-48 | the order loop accumulates the shared total and advances the order counter |
| DswtStreams.RenderPayment | templates/dswt_payments.j2:9-29 | the payment recomputes it and carries its own status and time |
| DswtStreams.RenderShipment | templates/dswt_shipments.j2:8-18 | the promised days and the shared ship time |
| DswtStreams.ProduceOrders | templates/dswt_orders.j2:28-48 | n renders of a producer, after any sampling, yield the first n orders |
| DswtStreams.ProducePayments | templates/dswt_payments.j2:9-29 | the same for payments, in a process of its own |
| DswtStreams.ProduceShipments | templates/dswt_shipments.j2:8-18 | the same for shipments |
| DswtStreams.OrderOnTheStreams | templates/dswt_orders.j2:28-48 | the o-th row of each stream is order o's: placed at the base time plus o strides, charged the sum of its lines' prices by quantities, authorised after the drawn delay with the drawn outcome, shipped two hours later with the drawn promise |
| DswtStreams.StreamsReconcile | templates/dswt_orders.j2:8-16 | for every order the emitted line totals add up to the order total, which is the payment amount, and it is positive |
| DswtDelivery.RenderStatus | templates/dswt_delivery_status.j2:18-48 | one render on the renderer is one step of the lifecycle machine and emits that step's row |
| DswtDelivery.RenderStatuses | templates/dswt_delivery_status.j2:18-48 | n renders from a fresh cursor yield the first n rows of the lifecycle machine |
| DswtDelivery.ProduceStatuses | siem_producer.py:556-563 | after any sampling, n renders still yield them |
| DswtDelivery.BuildStatus | templates/dswt_delivery_status.j2:27-48 | the payment-gated choice of statuses and offsets |
| DswtDelivery.StatusesCoverOrders | templates/dswt_delivery_status.j2:7-10 | the k-th render is step k mod 4 of order k div 4: every order has exactly its four statuses in order |
| DswtDelivery.LifecycleOfOrder | templates/dswt_delivery_status.j2:18-48 | rows 4o to 4o+3 are order o's four statuses with their times written out: the delivery branch if the payment is captured or leaked, the cancellation branch otherwise |
| DswtDelivery.EventTimesIncrease | templates/dswt_delivery_status.j2:27-41 | event times strictly increase within an order |
| DswtDelivery.StatusFound | demo/DSWT-London-2026/terraform/sql/medal_bronze_delivery_current.sql:5-9 | the current status after any number of renders is the order's latest step so far, if any |
| DswtDelivery.DayDiffTruncates | demo/DSWT-London-2026/terraform/sql/medal_silver_order_fulfillment.sql:24-27 | a day difference is the number of whole days of 24 hours between two times, with the sign of the difference |
| DswtDelivery.Judgement | demo/DSWT-London-2026/terraform/sql/medal_silver_order_fulfillment.sql:18-30 | what the query says from any joined part of payment, shipment and status, with SQL's nulls |
| DswtDelivery.SilverRecovers | demo/DSWT-London-2026/terraform/sql/medal_silver_order_fulfillment.sql:18-30 | once the streams have reached an order the query yields the generator's day count, lateness exactly for delivered orders drawn late, the leak exactly for declined orders drawn leaked, and matching amounts |
| DswtDelivery.SilverNeverMisjudges | demo/DSWT-London-2026/terraform/sql/medal_silver_order_fulfillment.sql:18-35 | whatever rows of the payment, shipment and status streams have arrived, in any order, with any dropped and any repeated, no verdict the query gives is wrong |
| FortiGate.ParseEvent | demo/fortigate_streaming_app.py:109-115 | the dictionary in which later pairs win over the scanned pairs |
| FortiGate.MatchIsFirstDerivation | demo/fortigate_streaming_app.py:68 | the scanner matches exactly when the regular expression can, and takes the derivation a backtracking engine tries first |
| FortiGate.CharacterClasses | demo/fortigate_streaming_app.py:68 | the word characters and the white space by code point |
| FortiGate.SearchIsLeftmost | demo/fortigate_streaming_app.py:109-115 | a search over a line finds its pattern's matches from left to right without overlap, each where the pattern next matches, and misses none |
| FortiGate.HitIffDerives | demo/fortigate_streaming_app.py:68 | the scanner's pattern matches at a position exactly when the expression has a derivation there, and captures what the first one captures |
| FortiGate.ScanRoundTrip | demo/fortigate_streaming_app.py:68 | scanning a printed list of word keys with quoted or bare values yields its pairs in order and nothing else, whatever the quoted values contain |
| FortiGate.PrintedParsesBack | demo/fortigate_streaming_app.py:109-115 | the parsed dictionary has only printed keys, each with the value of its last token |

## Left out

- StreamTheorems.RetriesRepeatTheSameRows: stated within one process; after a restart open windows are folded again and duplicate rows are possible.
- StreamTheorems.ReleasedWindowsHadEnded: the strict advance of the boundary is stated for non-negative grace only; `StreamTheorems.BoundaryAdvancesIffGrace` shows that it fails otherwise.
- StreamSpec: window sizes of zero or less (zero divides by zero at start-up, a negative size floors upwards) are outside every statement.
- Conversions: `str`, `int` and `datetime.timestamp` are not modelled beyond succeeding or failing, nor is the float rounding of `latency_ms_avg`, kept as a sum and a count.
- The message key text joins the group with `|`; rows carry the group itself, so two groups whose joined keys coincide stay distinct here.
- Broker: delivery callbacks, a message dropped from the producer queue after its own timeout, a `BufferError` raised by the serialiser, and the partial acknowledgement order inside one flush beyond an arbitrary set of unacknowledged rows.
- Consumer groups: several members, and partitions that leave a member; a rebalance is modelled only as a rewind of one partition to its committed offset.
- A payload that deserialises to something without `get` raises out of the consume loop; payloads here are undecodable, null or records.
- ProducerLoop.ProduceCounted: continuous mode, the keyboard interrupt, and the final flush with its delivery callbacks.
- Renderer.TemplateRenderer.SampleThenRender: a template is the sequence of counter and pool calls it makes; random draws are not state of the model, `logical_types` keeps what sampling recorded, and an exception during sampling leaves the snapshot unrestored.
- The merge of samples in `sample_for_schema` (a populated list replaces an empty or missing one) and its warnings; inference starts from one record.
- AvroSchema: Avro writer internals beyond which values each type accepts; non-finite floats; keys that are not valid Avro names.
- AvroNames.Unique: `capitalize`, `upper` and `lower` on letters outside ASCII.
- FortiGate.ParseEvent: word characters outside ASCII; the typed coercion, record building and topic routing that follow the scan.
- DswtModel: md5-seeded draws are uninterpreted, `round(2)` on floats is exact pence, customers and products are dimensions with no state.
- The fixed positional layouts, Palo Alto and Windows routers, the random log templates, Terraform, Docker, the AI demo, the command line and logging: tables, one-branch coercions or plumbing.
