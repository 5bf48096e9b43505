# Verification model

A Dafny model of the parts of this repository whose correctness is hard to see by reading: the delivery of
telemetry into the database, downsampling for charts, the train simulator and its retry buffer, anomaly,
health and alert rules, filtering, live feeds to the dashboard, and the construction of rail geometry. Every
result is a statement over all inputs, all runs or all reachable states. Check it with
`dafny verify dfyconfig.toml` (Dafny 4.11).

| files | models |
|---|---|
| `StreamWriter.dfy`, `DeliveryProtocol.dfy`, `DeliveryTheorems.dfy`, `DeliveryProgress.dfy` | the db-writer: decoding, chunked writes through staging, and the delivery protocol of several crashing replicas |
| `Downsampling.dfy`, `Lttb.dfy` | gap markers, largest-triangle downsampling and their composition |
| `Locomotive.dfy`, `LocomotiveTheorems.dfy`, `LocomotiveModes.dfy`, `LocomotiveState.dfy`, `SimulatorFleet.dfy`, `RetryBuffer.dfy`, `RetryDelivery.dfy` | one simulated train, the operator's fleet, and the bounded retry buffer |
| `RealSums.dfy`, `Anomaly.dfy` | z-score detection and its bounds |
| `SensorSpecs.dfy`, `StableSort.dfy`, `Health.dfy`, `HealthReports.dfy`, `Alerts.dfy` | sensor limits, health index with thermal ageing, and alerts |
| `Ingestion.dfy` | the moving-average filter and the noise floor |
| `FleetFeed.dfy`, `FanOut.dfy`, `Connections.dfy` | fleet changes and the dashboard, message fan-out, the connection manager |
| `RailGraph.dfy` | splitting railway ways and stitching routes |
| `Common.dfy` | options, comparisons, counting |

Code that changes state is a class or a method with loops, proved equal to a function of the old state; the
theorems are about those functions and about whole runs of them. The db-writer is a transition system in
which every Redis command and every database transaction is one atomic step that may fail, with or without
having been applied, and a replica may crash between any two steps. Random draws, results of posts, and which
publish or write fails are inputs.

## Where the code does less than one might expect

Each point is a theorem giving the exact condition, or a counterexample.

- A pending message that is read again after the stream has trimmed it is acknowledged as poison and dropped. A
  decodable message that was acknowledged is lost only so (`AckedMessagesAreStored`), and then it is lost unless
  its keys are stored, in some replica's memory or in another message (`KeyIsStoredIffNeverDropped`). It occurs
  (`TrimmedPendingMessageIsDropped`).
- Downsampled rows can repeat an index where a bucket is all gaps (`OrderKeptIffNoFullGap`), and limits of 1
  or 2 points are not enforced (`RowLimitKeptIff`).
- An operator edit can pull a train's start past its end; the train then jumps between the two
  (`EditKeepsSegmentIff`, `InvertedSegmentTeleports`). A requested end at kilometre zero means the whole route
  (`AddedSegment`).
- A resend that raises loses its batch (`BooksBalanceIffNoResendRaises`) and ends the run
  (`EndedRunLosesOneBatch`).
- Four sensor limits have no room between safe zone and critical value, so they jump to the full penalty and
  to an emergency (`DegenerateRows`, `DegenerateJumps`, `DegenerateIsEmergency`).
- Line 120 of the repository's README says that a sleeping engine's sensors are excluded from the penalty. The
  code masks alerts only; the model follows the code (`SleepingEngineIsStillPenalised`).
- Alerts show the limits of the critical value, so one raised between the safe zone and that value reports a
  value inside its own limits (`AlertsInsideShownLimits`).
- A failed publish loses its category changes: a marker they concern is stale until its locomotive changes
  category again (`MarkerIsCurrentIff`, `LostChangeFreezesMarker`).
- The relay would cut off a decodable message that is not a record at the first filtered client
  (`ScalarIsCutOffIff`). No publisher in the repository sends one.
- `subscribe` enrols unknown sockets past the cap (`SubscribeKeepsCapIff`, `RunKeepsCapIff`), and accepting a
  connected socket again forgets its channels (`AcceptKeepsIff`, `RunKeepsMembershipIff`).
- `disconnect` may wait at line 260 for the lock that `accept` holds while it closes a refused socket. A client
  that joins the emptied relay meanwhile is lost with it (`DelayedDropIsHarmlessIff`, `NewcomerIsLost`).

`subscribe` has no such window: between its two halves nothing is awaited that suspends, as the lock of a relay
is never held across an await. `SplitSubscribeIsSaneIff` says what would go wrong if there were one.

## Model

| member | source | states |
|---|---|---|
| TargetTable.InsertIsFirstWins | services/db-writer/db_writer/services/stream_consumer.py:261-282 | an insert that skips existing keys never overwrites, stores every key, and a new key gets its first row |
| TargetTable.InsertConcat | services/db-writer/db_writer/services/stream_consumer.py:261-282 | inserting two stretches of rows one after the other is inserting them together |
| TargetTable.InsertOfStoredKeysIsNoop | services/db-writer/db_writer/services/stream_consumer.py:261-282 | redelivering rows whose keys are stored changes nothing |
| StreamEntries.DecodingIsExact | services/db-writer/db_writer/services/stream_consumer.py:202-231 | decoded and poison messages partition the entries, and the decoded rows are exactly those of the decodable ones |
| StreamEntries.DecodeEntries | services/db-writer/db_writer/services/stream_consumer.py:202-224 | the decode loop yields the good ids, their rows and the poison ids, in order |
| StagingWriter.Session.CommitChunk | services/db-writer/db_writer/services/stream_consumer.py:261-282 | one transaction: truncates the staging table, copies the chunk, inserts it first-wins; when it fails both tables are as before |
| StagingWriter.Session.WriteBatch | services/db-writer/db_writer/services/stream_consumer.py:261-282 | the chunk loop commits a prefix of whole chunks; all of them amount to one in-order insert of the batch |
| StagingWriter.Session.HandleBatch | services/db-writer/db_writer/services/stream_consumer.py:236-259 | a batch is acknowledged only after all its rows were committed |
| DeliveryInvariant.StepIsSafe | services/db-writer/db_writer/services/stream_consumer.py:136-282 | every step of every replica, with failures, crashes, restarts and trims, keeps the protocol invariant, and stored rows only grow |
| DeliveryInvariant.RunKeepsInv | services/db-writer/db_writer/services/stream_consumer.py:136-282 | the invariant holds in every state of every run |
| DeliveryInvariant.CommitIsSafe | services/db-writer/db_writer/services/stream_consumer.py:261-282 | committing the next chunk keeps the invariant |
| DeliveryInvariant.AckIsSafe | services/db-writer/db_writer/services/stream_consumer.py:236-259 | acknowledging a batch whose chunks are all committed keeps the invariant |
| DeliveryInvariant.SettleIsSafe | services/db-writer/db_writer/services/stream_consumer.py:202-231 | acknowledging poison keeps the invariant, and what is decoded is a batch that mirrors the log |
| DeliveryInvariant.ReadStepIsSafe | services/db-writer/db_writer/services/stream_consumer.py:164-200 | every read keeps the invariant: new messages, also when the reply is lost, pending ones again, and the switch from one to the other |
| DeliveryInvariant.RestartIsSafe | services/db-writer/db_writer/services/stream_consumer.py:136-159 | a restart with whatever is left in staging keeps the invariant |
| DeliveryTheorems.AcknowledgedIsStoredOrDropped | services/db-writer/db_writer/services/stream_consumer.py:202-259 | a step that acknowledges a decodable message finds all its rows stored, or is the step that drops it: it settles, as poison, an entry of the pending message that was read without its payload |
| DeliveryTheorems.AckedMessagesAreStored | services/db-writer/db_writer/services/stream_consumer.py:202-282 | in every reachable state an acknowledged decodable message that no step dropped has all its rows stored, however early it was trimmed |
| DeliveryTheorems.UntrimmedIsNeverDropped | services/db-writer/db_writer/services/stream_consumer.py:164-231 | in particular a message that is never trimmed while it is pending is never dropped |
| DeliveryTheorems.MessagesAreAccountedFor | services/db-writer/db_writer/services/stream_consumer.py:164-259 | every message is unread, pending with the consumer it went to, acknowledged, or was trimmed unread, never two of these |
| DeliveryTheorems.StoredRowsNeverChange | services/db-writer/db_writer/services/stream_consumer.py:261-282 | between any two points of a run no stored row is removed or changed |
| DeliveryTheorems.TableIsBetweenAckedAndDelivered | services/db-writer/db_writer/services/stream_consumer.py:202-282 | effectively once: every stored row was delivered, and with equal keys carrying equal rows every acknowledged row of a message that was not dropped is stored as published |
| DeliveryTheorems.ChunksAreOneInsert | services/db-writer/db_writer/services/stream_consumer.py:261-282 | whatever staging held, the remaining chunks of a batch equal one first-wins insert |
| DeliveryTheorems.ChunksMatchTheWriter | services/db-writer/db_writer/services/stream_consumer.py:261-282 | after k of the protocol's chunk steps the table is the one the writer's loop leaves after k transactions |
| DeliveryTheorems.RecoveryBarrier | services/db-writer/db_writer/services/stream_consumer.py:164-200 | when a restarted reader asks for new messages, all it had left pending is acknowledged, and stored if decodable and not dropped |
| DeliveryTheorems.QueueIsBoundedFifo | services/db-writer/db_writer/services/stream_consumer.py:107-159 | the queue never exceeds its bound and is first in, first out |
| DeliveryTheorems.ShutdownLosesNoBatch | services/db-writer/db_writer/services/stream_consumer.py:136-159 | once all workers have exited, the queue is empty, every batch put on it was taken exactly once, each worker took one sentinel |
| DeliveryTheorems.AbsentEntryIsAcknowledged | services/db-writer/db_writer/services/stream_consumer.py:202-231 | settling, also when only its reply fails, acknowledges every entry read without a payload and stores nothing |
| DeliveryTheorems.GoneForGood | services/db-writer/db_writer/services/stream_consumer.py:136-282 | a key of an acknowledged message that is neither stored nor in memory and that no other message carries is never stored, in any continuation |
| DeliveryTheorems.DroppedMessageIsLost | services/db-writer/db_writer/services/stream_consumer.py:188-231 | so the keys of a dropped message are never stored, unless they are stored or held already or another message carries them |
| DeliveryTheorems.KeyIsStoredIffNeverDropped | services/db-writer/db_writer/services/stream_consumer.py:136-282 | both halves: a key that only this acknowledged message carries is stored exactly when the message was never dropped, unless a copy was about when it was |
| DeliveryTheorems.TrimmedPendingMessageIsDropped | shared/shared/streams.py:63-68 | the case occurs: a run in which a pending message is trimmed before its re-read and acknowledged without being stored |
| DeliveryProgress.ReadingTakesTheNext | services/db-writer/db_writer/services/stream_consumer.py:161-186 | reading takes the next messages up to the batch size, skipping trimmed ones, and makes exactly these pending for the reader |
| DeliveryProgress.DrainingTakesTheOldest | services/db-writer/db_writer/services/stream_consumer.py:188-200 | re-reading takes the oldest pending messages, all or as many as fit, in order; trimmed ones come back without payload |
| DeliveryProgress.SettlingHandsOver | services/db-writer/db_writer/services/stream_consumer.py:202-234 | after settling the decodable entries are the reader's batch, each id and all rows in entry order and nothing else; the reader resumes at once only when there is none |
| DeliveryProgress.OfferingQueues | services/db-writer/db_writer/services/stream_consumer.py:230-234 | offering makes that batch the last job of the queue |
| DeliveryProgress.FailedSettlingKeepsPending | services/db-writer/db_writer/services/stream_consumer.py:161-200 | a failed settling ends a drain, lets a reader read on, and keeps pending what was not acknowledged |
| DeliveryProgress.TakingStartsWork | services/db-writer/db_writer/services/stream_consumer.py:236-248 | a worker takes the oldest job, writing it from its first row, or ends at a sentinel |
| DeliveryProgress.CommittingGoesOn | services/db-writer/db_writer/services/stream_consumer.py:261-282 | a commit stores the next rows-per-flush rows and goes on, to the acknowledgement after the last |
| DeliveryProgress.AcknowledgingSettles | services/db-writer/db_writer/services/stream_consumer.py:236-259 | acknowledging a batch acknowledges its messages and no others, and takes them off the pending list |
| DeliveryProgress.FailedWorkKeepsPending | services/db-writer/db_writer/services/stream_consumer.py:249-259 | a failed write or acknowledgement frees the worker and keeps the messages pending |
| DeliveryProgress.EveryMessageCanBeDelivered | services/db-writer/db_writer/services/stream_consumer.py:136-282 | under every configuration, for every decodable message, a run publishes, reads, settles, offers, takes, commits and acknowledges it, and ends with it stored and nothing pending |
| GapMarkers.InsertGapMarkers | services/analytics-service/analytics/repositories/telemetry_repository.py:178-210 | the loop returns the marked series |
| GapMarkers.MarkersSitExactlyInGaps | services/analytics-service/analytics/repositories/telemetry_repository.py:178-210 | between two neighbouring rows there is a marker, strictly inside, exactly when they are more than the limit apart |
| GapMarkers.GapsBeyondThreeBuckets | services/analytics-service/analytics/repositories/telemetry_repository.py:178-210 | of the marked rows: neighbours stay next to each other unless they are more than three times the bucket width apart, and then one gap stands halfway between them |
| GapMarkers.DroppingGapsUndoesInsertion | services/analytics-service/analytics/repositories/telemetry_repository.py:178-210 | dropping the markers gives back the rows |
| GapMarkers.MarkedKeepsData | services/analytics-service/analytics/repositories/telemetry_repository.py:178-210 | insertion adds markers and nothing else |
| GapMarkers.MarkingKeepsTimeOrder | services/analytics-service/analytics/repositories/telemetry_repository.py:178-210 | a series in time order stays in time order |
| GapMarkers.MarkersAreIsolated | services/analytics-service/analytics/repositories/telemetry_repository.py:178-210 | no two markers are neighbours |
| LttbBuckets.BucketsAreNonempty | services/analytics-service/analytics/repositories/telemetry_repository.py:129-172 | every bucket holds at least one row |
| LttbBuckets.BucketsSpanTheInterior | services/analytics-service/analytics/repositories/telemetry_repository.py:129-172 | the buckets run from the second row to the one before the last |
| LttbBuckets.BucketsPartition | services/analytics-service/analytics/repositories/telemetry_repository.py:129-172 | every interior row lies in exactly one bucket |
| LttbBuckets.BucketsFillUp | services/analytics-service/analytics/repositories/telemetry_repository.py:129-172 | b buckets hold the whole part of b times (n - 2) / (threshold - 2) rows |
| LttbBuckets.BucketsAreEven | services/analytics-service/analytics/repositories/telemetry_repository.py:129-172 | no two buckets differ by more than one row |
| Triangles.HalfBaseTimesHeight | services/analytics-service/analytics/repositories/telemetry_repository.py:155-169 | the trapezoid area of a triangle is half of base times height, wherever the third corner lies along the base |
| Lttb.SumData | services/analytics-service/analytics/repositories/telemetry_repository.py:144-154 | the centroid loop sums the non-gap rows of the next bucket |
| Lttb.SelectInBucket | services/analytics-service/analytics/repositories/telemetry_repository.py:155-169 | the arg-max loop finds the first row of largest triangle area |
| Lttb.LargestIsFirstMaximum | services/analytics-service/analytics/repositories/telemetry_repository.py:155-169 | the chosen row has the largest computed area of its bucket and is the first with it |
| Lttb.PickForBucket | services/analytics-service/analytics/repositories/telemetry_repository.py:141-172 | one bucket: gap row, centroid, or largest triangle, as the branches say |
| Lttb.SampleBuckets | services/analytics-service/analytics/repositories/telemetry_repository.py:141-172 | the bucket loop appends the specified picks |
| Lttb.Downsample | services/analytics-service/analytics/repositories/telemetry_repository.py:114-175 | the whole sampler returns the specified rows, every access in bounds |
| LttbTheorems.OutputSizeAndEnds | services/analytics-service/analytics/repositories/telemetry_repository.py:114-175 | for 2 < threshold < n the output has exactly threshold rows and keeps the first and the last |
| LttbTheorems.OutputIsPicked | services/analytics-service/analytics/repositories/telemetry_repository.py:114-175 | the rows that come out are those picked, in that order |
| LttbTheorems.AreaIsTriangle | services/analytics-service/analytics/repositories/telemetry_repository.py:155-169 | the computed area is that of the triangle with these corners |
| LttbTheorems.CornerIsCentre | services/analytics-service/analytics/repositories/telemetry_repository.py:129-148 | the third corner is the centre of the next bucket: the offsets of its data rows from it cancel, in time and in value |
| LttbTheorems.BucketYields | services/analytics-service/analytics/repositories/telemetry_repository.py:141-172 | before a bucket with data, a bucket yields its first gap, or else the first row whose triangle with the previous pick and that centre is largest |
| LttbTheorems.PickFalls | services/analytics-service/analytics/repositories/telemetry_repository.py:141-172 | where a pick lies: in its own bucket, or in the middle of the next when that one is all gaps |
| LttbTheorems.GapFreePicks | services/analytics-service/analytics/repositories/telemetry_repository.py:141-172 | on gap-free input the picks strictly increase, each the first row of largest triangle in its bucket against the previous pick and the centre of the next bucket |
| LttbTheorems.GapsStayVisible | services/analytics-service/analytics/repositories/telemetry_repository.py:141-172 | a bucket with a gap row yields a gap row at its place in the output |
| LttbTheorems.BucketNumbersNeverGoBack | services/analytics-service/analytics/repositories/telemetry_repository.py:141-172 | the bucket numbers of the picks never decrease |
| LttbTheorems.LastFullGapIsRepeated | services/analytics-service/analytics/repositories/telemetry_repository.py:141-172 | the last of a row of all-gap buckets is sampled twice: its middle by the bucket before it, then its first row by itself |
| LttbTheorems.OrderKeptIffNoFullGap | services/analytics-service/analytics/repositories/telemetry_repository.py:141-172 | the output is strictly ordered exactly when no bucket after the first, and not the last row, is all gaps |
| QueryPipeline.FinishRows | services/analytics-service/analytics/repositories/telemetry_repository.py:319-322 | markers first, sampling only above the limit |
| QueryPipeline.FittingRowsAreUntouched | services/analytics-service/analytics/repositories/telemetry_repository.py:319-322 | without a limit, below three points, or when they fit, the marked rows leave as they are |
| QueryPipeline.RowLimitKeptIff | services/analytics-service/analytics/repositories/telemetry_repository.py:319-322 | the final row count is within the limit for every limit of 3 or more, and below that exactly when sampling is not needed |
| QueryPipeline.FinishedRowsAreInTimeOrder | services/analytics-service/analytics/repositories/telemetry_repository.py:319-322 | rows in time order leave the pipeline in time order, and rows strictly in order leave it strictly in order exactly when no bucket after the first is just a marker |
| LocomotiveStates.LocomotiveState.constructor | services/simulator/simulator/models/locomotive_state.py:136-146 | creation forces bounds and position into the route; given a legal speed and notch the object is valid |
| LocomotiveStates.LocomotiveState.EnterMode | services/simulator/simulator/models/locomotive_state.py:222-226 | entering a mode resets its clock |
| LocomotiveStates.LocomotiveState.Transition | services/simulator/simulator/models/locomotive_state.py:164-219 | one step of the automatic state machine, all seven modes |
| LocomotiveStates.LocomotiveState.ApplyScenario | services/simulator/simulator/models/locomotive_state.py:229-254 | sensor overrides and fault braking |
| LocomotiveStates.LocomotiveState.OnSegmentBoundHit | services/simulator/simulator/models/locomotive_state.py:277-297 | loop, stop and remove at the bounds |
| LocomotiveStates.LocomotiveState.UpdateGps | services/simulator/simulator/models/locomotive_state.py:257-274 | the move of one tick, clamped at the bounds |
| LocomotiveStates.LocomotiveState.Tick | services/simulator/simulator/models/locomotive_state.py:300-304 | a tick is transition, scenario, move; it keeps the object valid and in its segment |
| LocomotiveStates.LocomotiveState.Update | services/simulator/simulator/runner.py:145-178 | an operator edit of route, segment, scenario, mode and speed; it keeps the object valid, and in its segment unless the edit inverts it |
| LocomotiveRuns.CreationIsBounded | services/simulator/simulator/models/locomotive_state.py:136-146 | a new locomotive is on its route and in its segment |
| LocomotiveRuns.TickKeepsBounds | services/simulator/simulator/models/locomotive_state.py:164-304 | a tick keeps position, speed and notch in range and the train in its segment |
| LocomotiveRuns.EditKeepsSegmentIff | services/simulator/simulator/runner.py:145-158 | an edit keeps the train in its segment exactly when it does not pull the start past the old end without giving a new one |
| LocomotiveRuns.RunStaysInBounds | services/simulator/simulator/models/locomotive_state.py:164-304 | over every run of ticks and edits: on the route, speed not negative, notch 0 to 8; in the segment if no edit inverts it; at most max(v0, 110) km/h without speed edits |
| LocomotiveRuns.InvertedSegmentTeleports | services/simulator/simulator/models/locomotive_state.py:257-297 | what an inverted segment does to a looping train in manual mode: over any number of ticks it is at one bound, then at the other, turning each time |
| LocomotiveRuns.HaltedStaysFrozen | services/simulator/simulator/models/locomotive_state.py:277-297 | a train halted by STOP does not move again without an edit |
| LocomotiveRuns.StopArrivalIsFinal | services/simulator/simulator/models/locomotive_state.py:257-297 | reaching the end under STOP is final |
| LocomotiveRuns.EmergencyStops | services/simulator/simulator/models/locomotive_state.py:164-254 | with the fault held for k ticks the speed is at most max(v0, 110) - 2k or zero, in both modes, tighter in automatic mode |
| LocomotiveRuns.StoppedStaysStopped | services/simulator/simulator/models/locomotive_state.py:164-304 | once braked to a standstill the position never changes while the fault lasts |
| LocomotiveRuns.EmergencyBringsToRest | services/simulator/simulator/models/locomotive_state.py:164-304 | after enough ticks of fault the train stands still for good |
| LocomotiveModes.ScheduleIsKept | services/simulator/simulator/models/locomotive_state.py:164-226 | in automatic mode every mode lasts until its time is up, at its own pace of speed and notch, and then depot, departure, cruising, arrival and depot follow each other, sleep leading to departure, emergency to recovery and recovery to cruising |
| LocomotiveModes.DepartureLeadsToCruising | services/simulator/simulator/models/locomotive_state.py:176-183 | a departing train with n ticks left is cruising after n ticks at min(100, v0 + n / 2) |
| LocomotiveModes.CruisingDrifts | services/simulator/simulator/models/locomotive_state.py:185-191 | cruising follows its drift between 50 and 110 |
| LocomotiveModes.ArrivalEndsInTheDepot | services/simulator/simulator/models/locomotive_state.py:193-201 | an arriving train ends in the depot, at rest, turned round |
| LocomotiveModes.RoundTrip | services/simulator/simulator/models/locomotive_state.py:164-226 | a whole round from departure to departure |
| LocomotiveModes.ManualModeIsKept | services/simulator/simulator/models/locomotive_state.py:164-171 | under the operator's hand mode, clock, speed and notch stay |
| LocomotiveModes.DurationsAreDrawn | services/simulator/simulator/models/locomotive_state.py:222-226 | drawn durations lie in the range of the mode, and every one of it can occur |
| LocomotiveModes.ScenarioDrivesSensors | services/simulator/simulator/models/locomotive_state.py:229-254 | degradation heats the power modules by a degree every forty ticks up to 87, a fault lowers the brake pressure by 0.33 per tick down to 1.8, and neither touches the other sensor |
| LocomotiveModes.FaultForcesEmergency | services/simulator/simulator/models/locomotive_state.py:229-254 | a fault forces the emergency mode |
| LocomotiveModes.StridesCoverTheSpeed | services/simulator/simulator/models/locomotive_state.py:257-274 | an hour of strides covers a thousand metres per kilometre per hour, and strides add up |
| LocomotiveModes.ArrivingAtABound | services/simulator/simulator/models/locomotive_state.py:277-297 | what stopping and one-way trains do at either bound |
| LocomotiveModes.CreationKeepsWhatFits | services/simulator/simulator/models/locomotive_state.py:136-146 | creation keeps a segment, a place and a duration that fit, and touches nothing else |
| LocomotiveModes.EditSetsTheDrive | services/simulator/simulator/runner.py:145-178 | an edit sets the mode with its clock, arrival rule, driving and speed as named, and nothing else of these |
| LocomotiveModes.EditSetsTheScenario | services/simulator/simulator/runner.py:163-170 | another scenario starts its clock, normal clears the sensors, the same one changes nothing |
| LocomotiveModes.SegmentIsAsAsked | services/simulator/simulator/runner.py:145-158 | within the route the segment is as asked for, and the train stays in place if it can |
| ShuttleModel.CeilingExists | services/simulator/simulator/models/locomotive_state.py:257-274 | every positive gap has a tick count, the quotient of gap and stride rounded up |
| ShuttleModel.CeilingIsUnique | services/simulator/simulator/models/locomotive_state.py:257-274 | and only one |
| LocomotivePeriod.TicksFollowShuttle | services/simulator/simulator/models/locomotive_state.py:257-304 | a looping train in manual mode at constant speed moves like a point shuttling between its bounds |
| LocomotivePeriod.BoundToBound | services/simulator/simulator/models/locomotive_state.py:257-304 | it takes ceil(span / stride) ticks from one bound to the other and turns there |
| LocomotivePeriod.ShuttleIsPeriodic | services/simulator/simulator/models/locomotive_state.py:257-304 | its motion has period 2 ceil(span / stride) |
| LocomotivePeriod.PeriodIsMinimal | services/simulator/simulator/models/locomotive_state.py:257-304 | and no smaller one |
| LocomotivePeriod.ReachesBoundFromInside | services/simulator/simulator/models/locomotive_state.py:257-304 | from anywhere inside it reaches the bound ahead in the expected number of ticks |
| SimulatorFleet.AddedSegment | services/simulator/simulator/runner.py:85-111 | a new train gets the segment asked for, except that an end at or before kilometre zero means the whole route |
| SimulatorFleet.AddedAsAsked | services/simulator/simulator/runner.py:85-120 | for the rest a new train is as asked for |
| SimulatorFleet.SimulationRunner.Add | services/simulator/simulator/runner.py:70-120 | unknown route and duplicate id are refused, otherwise one locomotive is added |
| SimulatorFleet.SimulationRunner.Update | services/simulator/simulator/runner.py:122-182 | unknown locomotive or route changes nothing, otherwise exactly one locomotive is edited |
| SimulatorFleet.SimulationRunner.RemoveLocomotive | services/simulator/simulator/runner.py:184-188 | removes exactly the one named |
| SimulatorFleet.SimulationRunner.TickEach | services/simulator/simulator/runner.py:257-284 | every locomotive ticks once |
| SimulatorFleet.SimulationRunner.DropFinished | services/simulator/simulator/runner.py:285-289 | exactly the arrived one-way trains are dropped |
| SimulatorFleet.SimulationRunner.Tick | services/simulator/simulator/runner.py:257-289 | the fleet part of a tick |
| SimulatorFleet.TickDropsTheArrived | services/simulator/simulator/runner.py:257-289 | a tick takes every locomotive one tick on and drops exactly those arrived that were to be removed |
| SimulatorFleet.LocomotivesAreIndependent | services/simulator/simulator/runner.py:257-289 | on every run of the fleet each locomotive is where its own history alone puts it |
| SimulatorFleet.FleetStaysInBounds | services/simulator/simulator/runner.py:257-289 | on every run all locomotives stay within bounds and no finished one-way train survives a tick |
| SimulatorFleet.FleetStaysInSegments | services/simulator/simulator/runner.py:145-158 | on every run in which no edit inverts the segment it finds, every locomotive is in its segment |
| RetryBuffer.Runner.BufferBatch | services/simulator/simulator/runner.py:306-307 | a failed batch is appended, the oldest readings making room |
| RetryBuffer.Runner.Book | services/simulator/simulator/runner.py:299-307 | a post counts as sent exactly when it returned a response |
| RetryBuffer.Runner.PushBack | services/simulator/simulator/runner.py:323-324 | a refused resend is put back in order, without overflow |
| RetryBuffer.Runner.Resend | services/simulator/simulator/runner.py:317-325 | one resend: delivered, refused (buffer restored exactly) or raised (batch gone) |
| RetryBuffer.Runner.ResendRounds | services/simulator/simulator/runner.py:314-325 | the resend loop ends at the first round that is not delivered |
| RetryBuffer.Runner.FlushBuffer | services/simulator/simulator/runner.py:312-325 | at most three rounds, fewer for a short buffer |
| RetryBuffer.Runner.DeliverTick | services/simulator/simulator/runner.py:291-310 | the delivery part of a tick |
| RetryBuffer.AppendAllKeepsNewest | services/simulator/simulator/runner.py:306-307 | buffering keeps the buffer the newest part of the failure log |
| RetryBuffer.ResendingIsConserved | services/simulator/simulator/runner.py:317-325 | a resend loses no reading from the books |
| RetryBuffer.TickIsConserved | services/simulator/simulator/runner.py:291-325 | a tick adds its readings and loses readings exactly when a resend raises |
| RetryBuffer.RunIsConserved | services/simulator/simulator/runner.py:291-325 | on every run the buffer is the newest part of the failure log in order, and each reading is sent, buffered, dropped or lost as often as it was generated |
| RetryBuffer.BooksBalanceIffNoResendRaises | services/simulator/simulator/runner.py:291-325 | generated equals sent plus buffered plus dropped exactly on the runs in which no resend raises |
| RetryBuffer.EndedRunLosesOneBatch | services/simulator/simulator/runner.py:221-255 | a run that ends at its first raising resend, as the runner's loop does, loses at most one batch, the one next in line of the failed readings |
| RetryDelivery.BufferingKeepsTheNewest | services/simulator/simulator/runner.py:306-307 | the buffer keeps the newest readings that fit, and only the older ones are dropped |
| RetryDelivery.SendingFollowsThePosts | services/simulator/simulator/runner.py:291-307 | sent grows by exactly the batches whose post returned, the failures by the others, and the errors by their number |
| RetryDelivery.FlushingFollowsThePosts | services/simulator/simulator/runner.py:312-325 | a flush sends batch after batch from the front for as long as their posts return, and loses the next one only if it raises |
| RetryDelivery.TickFollowsThePosts | services/simulator/simulator/runner.py:291-325 | a whole tick: first posts, then at most three batches again |
| RetryDelivery.DeadCollectorGetsNothing | services/simulator/simulator/runner.py:291-325 | on every run in which no post returns nothing counts as sent and every reading is in the failure log |
| RetryDelivery.LiveCollectorGetsAll | services/simulator/simulator/runner.py:291-325 | on every run in which all do every reading is sent, once and in order, and nothing is buffered |
| RealSums.CauchySchwarz | services/report-service/report_service/services/anomaly_detector.py:16-18 | the square of a sum is at most the count times the sum of squares |
| AnomalyDetector.Outliers | services/report-service/report_service/services/anomaly_detector.py:23 | the flagged positions, ascending, are exactly those beyond the threshold |
| AnomalyDetector.FlaggedIffFar | services/report-service/report_service/services/anomaly_detector.py:8-31 | flagged exactly when there are two samples, some spread, and the squared deviation exceeds threshold squared times the variance |
| AnomalyDetector.MomentsBySums | services/report-service/report_service/services/anomaly_detector.py:16-18 | deviations and variance by count, sum and sum of squares alone |
| AnomalyDetector.OutliersAreAbove | services/report-service/report_service/services/anomaly_detector.py:16-23 | as many are flagged as have a squared deviation above t squared times the variance |
| AnomalyDetector.FewAreFlagged | services/report-service/report_service/services/anomaly_detector.py:8-31 | Chebyshev: fewer than n / t^2 samples are flagged whenever any is |
| AnomalyDetector.NoneIsVeryFar | services/report-service/report_service/services/anomaly_detector.py:16-18 | Samuelson: a squared deviation is at most n - 1 variances |
| AnomalyDetector.ShortSeriesAreClean | services/report-service/report_service/services/anomaly_detector.py:8-31 | nothing is flagged when n <= t^2 + 1 |
| AnomalyDetector.TenSamplesAreClean | services/report-service/report_service/services/anomaly_detector.py:8-11 | at the default threshold no series of ten or fewer is ever flagged |
| AnomalyDetector.SpikeIsFlaggedIffLong | services/report-service/report_service/services/anomaly_detector.py:8-31 | the bound is sharp: a single spike is flagged exactly when n > t^2 + 1 |
| SensorSpecs.TablesAreSound | shared/shared/constants.py:32-197 | every shipped limit has positive weight and exponent, a safe zone, and its sensor once |
| SensorSpecs.TablesAgeAboveNominal | shared/shared/constants.py:32-197 | every ageing limit of the tables is an upper bound whose reference is its nominal value |
| SensorSpecs.DegenerateRows | shared/shared/constants.py:26-197 | exactly coolant, traction motor, speed and recuperation have a safe zone that reaches the critical value |
| SensorSpecs.NormalisedShape | services/processor/processor/services/health_service.py:43-49 | the normalised deviation is 0 inside the safe zone, 1 from the critical value on, and grows with the deviation |
| SensorSpecs.DeviationOfOffset | services/processor/processor/services/health_service.py:30-41 | how far off nominal counts: both ways, above or below |
| SensorSpecs.ShareOfTheRange | services/processor/processor/services/health_service.py:43-49 | between safe zone and critical value the normalised deviation is the share of the way |
| SensorSpecs.PenaltyOfShare | services/processor/processor/services/health_service.py:43-49 | that share to the power of the limit, times its weight, is the penalty |
| SensorSpecs.PenaltyRange | services/processor/processor/services/health_service.py:43-49 | a penalty is between 0 and the weight, positive exactly outside the safe zone |
| SensorSpecs.PenaltyOrder | services/processor/processor/services/health_service.py:30-49 | penalties order readings as their deviations do |
| SensorSpecs.DegenerateJumps | services/processor/processor/services/health_service.py:43-49 | a degenerate limit costs the whole weight from a millionth outside on |
| HealthIndex.HealthService.UpdateDamage | services/processor/processor/services/health_service.py:52-62 | one Montsinger update |
| HealthIndex.HealthService.ReadSensors | services/processor/processor/services/health_service.py:70 | the last payload of a sensor wins |
| HealthIndex.HealthService.Penalise | services/processor/processor/services/health_service.py:72-89 | the loop over the table: entries, damages and total damage |
| HealthIndex.HealthService.CalculateHealth | services/processor/processor/services/health_service.py:65-143 | the report, before rounding |
| StableSort.SortIsStable | services/processor/processor/services/health_service.py:90 | the sort is a stable permutation in key order |
| HealthTheorems.TopFiveAreHeaviest | services/processor/processor/services/health_service.py:90-115 | the reported factors are the five heaviest entries |
| HealthTheorems.SharesAddUp | services/processor/processor/services/health_service.py:103-115 | their shares sum to at most 100 percent, and to exactly that for five sensors or fewer that cost a millionth or more together |
| HealthTheorems.ReportSharesAddUp | services/processor/processor/services/health_service.py:65-143 | this holds for every report on every run |
| HealthTheorems.AgeingRateDoubles | services/processor/processor/services/health_service.py:52-62 | Montsinger: n times six degrees more multiply the ageing rate by 2^n |
| HealthTheorems.AgeingAboveReference | services/processor/processor/services/health_service.py:52-62 | n times six degrees above the reference age by (2^n - 1) thousandths |
| HealthTheorems.DamageAccumulates | services/processor/processor/services/health_service.py:52-62 | on every run a damage counter is the sum of its own increments, so it never decreases and others do not touch it |
| HealthTheorems.ScoreFallsWithDeviation | services/processor/processor/services/health_service.py:65-115 | the score lies in [0, 100] and never rises when sensors move further from nominal, in whichever direction, ageing ones included |
| HealthTheorems.FullScoreIff | services/processor/processor/services/health_service.py:65-101 | the score is 100 exactly when every sensor read is inside its safe zone and carries no damage where it ages |
| HealthReports.LastPayloadCounts | services/processor/processor/services/health_service.py:70 | of several payloads of a sensor the last one counts |
| HealthReports.ReportSaysWhatItCosts | services/processor/processor/services/health_service.py:72-101 | the score is 100 less what the sensors cost, floored at 0; normal up to a cost of 20, a warning up to 50, critical beyond; the damage is that of the ageing sensors read |
| HealthReports.FactorsAreSensors | services/processor/processor/services/health_service.py:72-115 | every factor is a sensor of the table with its value, its normalised deviation and its cost |
| HealthReports.SharesAreProportional | services/processor/processor/services/health_service.py:103-115 | and its share is its part of the whole cost |
| AlertEvaluator.Evaluate | services/processor/processor/services/alert_evaluator.py:161-225 | the loop over the table with its two suppressions |
| AlertEvaluator.EvaluateAlerts | services/processor/processor/services/alert_evaluator.py:161-225 | alerts of a reading |
| AlertTheorems.ViolatedIffPenalised | services/processor/processor/services/alert_evaluator.py:125-135 | a threshold is violated exactly when the health index penalises the sensor |
| AlertTheorems.ExactMatchAgreesIff | services/processor/processor/services/alert_evaluator.py:125-135 | the exact readings for which the two agree on an exact-match limit |
| AlertTheorems.SeverityFollowsPenalty | services/processor/processor/services/alert_evaluator.py:138-158 | severity grows with penalty and with deviation |
| AlertTheorems.EmergencyIff | services/processor/processor/services/alert_evaluator.py:138-158 | emergency exactly for fatal weights or from the penalty at 90 percent of the critical range on |
| AlertTheorems.SeverityFollowsBands | services/processor/processor/services/alert_evaluator.py:138-158 | severity by the penalties of 90, 60 and 30 percent of the critical range |
| AlertTheorems.DegenerateIsEmergency | services/processor/processor/services/alert_evaluator.py:138-158 | a violated degenerate limit is an emergency at once |
| AlertTheorems.OutsideShownLimitsIff | services/processor/processor/services/alert_evaluator.py:195-208 | a violating value lies outside the limits its alert shows exactly when it deviates further than the critical value |
| AlertTheorems.AlertsInsideShownLimits | services/processor/processor/services/alert_evaluator.py:195-208 | so alerts between safe zone and critical value report a value inside the limits they show |
| AlertTheorems.AlertsAreRaised | services/processor/processor/services/alert_evaluator.py:177-217 | the alerts are exactly those of the rows that raise one |
| AlertTheorems.AlertIffPenalisedAndNotSuppressed | services/processor/processor/services/alert_evaluator.py:161-225 | on both locomotive types a sensor raises an alert exactly when it is penalised and not suppressed |
| AlertTheorems.AlertsInFull | services/processor/processor/services/alert_evaluator.py:161-225 | the alerts of a reading are one for every penalised row that is not suppressed, in table order, each with sensor, value, the severity of its penalty, and its limits |
| AlertTheorems.SleepingSpeedIsNoViolation | services/processor/processor/services/alert_evaluator.py:171-182 | masking engine speed in sleep hides nothing |
| AlertTheorems.OilAlertIff | services/processor/processor/services/alert_evaluator.py:184-193 | when low oil pressure raises an alert; from 700 rpm on the contextual minimum adds nothing |
| AlertTheorems.SleepingEngineIsStillPenalised | services/processor/processor/services/alert_evaluator.py:171-182 | sleep masks the alert for oil pressure but not its penalty, which is due exactly below 2.5 bar |
| EmaFilter.Filter.Apply | services/processor/processor/services/filter_service.py:12-24 | one filter call |
| EmaFilter.Filter.Reset | services/processor/processor/services/filter_service.py:27-34 | resets one sensor, or all of a locomotive |
| EmaFilter.EmaStaysInRange | services/processor/processor/services/filter_service.py:12-24 | the average never leaves the range of its values |
| EmaFilter.EmaConverges | services/processor/processor/services/filter_service.py:12-24 | on a constant input the distance shrinks by exactly (1 - K) per sample |
| EmaFilter.StateIsOwnAverage | services/processor/processor/services/filter_service.py:9-34 | under any interleaving of calls and resets a key holds the average of its own values since its last reset |
| EmaFilter.FilteredStaysInRange | services/processor/processor/services/filter_service.py:9-34 | so a filtered value lies within the hull of the raw values since the reset |
| Ingestion.Flattener.Persist | services/processor/processor/services/ingestion_service.py:32-41 | the noise-floor decision |
| Ingestion.Flattener.Flatten | services/processor/processor/services/ingestion_service.py:16-57 | the loop rewrites sensor values in place and returns the rows |
| Ingestion.BelowFloorIff | services/processor/processor/services/ingestion_service.py:32-41 | a change is suppressed below half a percent of the last value persisted |
| Ingestion.PersistedIsCurrent | services/processor/processor/services/ingestion_service.py:32-41 | after a high-frequency reading every sensor it carried was last persisted within the noise floor of its filtered value |
| Ingestion.SlowReadingsAreKept | services/processor/processor/services/ingestion_service.py:22-55 | below ten hertz every value is stored and the memory is left alone |
| Ingestion.StoredRowsStep | services/processor/processor/services/ingestion_service.py:32-41 | stored values of a sensor each differ from the one before by at least the floor, and the last is the new memory |
| Ingestion.FlatteningFeedsTheFilter | services/processor/processor/services/ingestion_service.py:25-31 | every raw value reaches the filter, stored or not |
| FleetAggregator.Aggregator.UpdateState | services/analytics-service/analytics/aggregator.py:114-144 | one message: latest state, and a change when a known locomotive changes category |
| FleetAggregator.Aggregator.DrainChanges | services/analytics-service/analytics/aggregator.py:224-228 | hands out and clears the pending changes |
| FleetAggregator.Aggregator.ComputeSummary | services/analytics-service/analytics/aggregator.py:180-222 | the counts partition the fleet; total score and the ten worst |
| FleetDashboard.FleetSlice.ChangesReceived | frontend/dashboard/src/store/slices/fleetSlice.ts:79-88 | a batch is applied in order |
| FleetFeed.LogTracksFleet | services/analytics-service/analytics/aggregator.py:114-144 | on every run replaying all changes from the first-seen categories gives the current ones, and each change leads on from the one before |
| FleetFeed.PublishKeepsLog | services/analytics-service/analytics/aggregator.py:146-178 | draining and publishing keeps the log |
| FleetFeed.MarkerIsShownIff | frontend/dashboard/src/store/slices/fleetSlice.ts:79-88 | the dashboard shows exactly the locomotives that some delivered batch mentions |
| FleetFeed.MarkerIsCurrentIff | frontend/dashboard/src/store/slices/fleetSlice.ts:79-88 | a marker is current exactly when the changes after the last delivered batch that mentions it - lost or pending - lead from the category shown back to it; so a marker whose last change was delivered is current, whatever else was lost |
| FleetFeed.MarkersAgreeWithoutLoss | frontend/dashboard/src/store/slices/fleetSlice.ts:79-88 | while no publish fails every marker without a pending change agrees with the aggregator |
| FleetFeed.ChangeArrives | services/analytics-service/analytics/aggregator.py:146-178 | a published change brings its marker up to date, whatever was lost before |
| FleetFeed.LostChangeFreezesMarker | services/analytics-service/analytics/aggregator.py:146-178 | a change whose publish fails stays lost: whatever else is received and however many publishes succeed, the marker stays as it was until its locomotive changes category again |
| FleetFeed.LostPublishLeavesMarkerStale | services/analytics-service/analytics/aggregator.py:146-178 | a run that leaves a marker wrong, whatever follows, until its locomotive changes category again |
| FleetFeed.WorstAreLowest | services/analytics-service/analytics/aggregator.py:198-209 | the summary lists the ten lowest scores |
| FleetFeed.LatestMessageDecides | services/analytics-service/analytics/aggregator.py:114-132 | the latest message with a score decides the state of its locomotive |
| FleetFeed.CountsAreSizes | services/analytics-service/analytics/aggregator.py:180-197 | a count of the summary is the number of locomotives in that category |
| ChannelRelay.ChannelRelay.AddClient | services/ws-server/ws_server/connection_manager.py:67-84 | a client gets a fresh queue |
| ChannelRelay.ChannelRelay.RemoveClient | services/ws-server/ws_server/connection_manager.py:86-100 | removes one client, returns how many remain |
| ChannelRelay.ChannelRelay.Serve | services/ws-server/ws_server/connection_manager.py:136-149 | one client: filter, drop oldest, enqueue, or raise |
| ChannelRelay.ChannelRelay.FanOut | services/ws-server/ws_server/connection_manager.py:135-150 | a message goes to every client before the first that raises |
| ChannelRelay.ChannelRelay.SendNext | services/ws-server/ws_server/connection_manager.py:169-178 | one turn of a sender |
| FanOutTheorems.ReachesIff | services/ws-server/ws_server/connection_manager.py:135-150 | a message reaches a client exactly when no client up to it raises |
| FanOutTheorems.GetsIff | services/ws-server/ws_server/connection_manager.py:135-142 | who gets a message: by the filter for a record, everyone for what cannot be decoded, and up to the first filter for any other value |
| FanOutTheorems.MessageArrives | services/ws-server/ws_server/connection_manager.py:126-149 | and what gets there: the message, in the envelope when it can be decoded |
| FanOutTheorems.ClientsAreIsolated | services/ws-server/ws_server/connection_manager.py:67-178 | on every run of records and undecodable messages a client depends on its own calls only |
| FanOutTheorems.ScalarIsCutOffIff | services/ws-server/ws_server/connection_manager.py:135-142 | a decodable value that is no record reaches an unfiltered client exactly when no filtered one precedes it |
| FanOutTheorems.ClientSeesItsMessagesInOrder | services/ws-server/ws_server/connection_manager.py:135-178 | on every run the queue is a suffix of at most 64 of the frames that got to the client, what was sent an in-order selection of the earlier ones |
| FanOutTheorems.EveryFrameIsAccountedFor | services/ws-server/ws_server/connection_manager.py:143-178 | every frame that got to a client is sent, queued, pushed out of a full queue, or lost to a failed write |
| FanOutTheorems.DeadSenderIsSilent | services/ws-server/ws_server/connection_manager.py:169-178 | after a failed write nothing more is sent until the client is added again |
| FanOutTheorems.AllThatIsMeantArrives | services/ws-server/ws_server/connection_manager.py:135-150 | on runs of records and undecodable messages these are all the frames that match its filter |
| FanOutTheorems.ClientSeesAllItsMessages | services/ws-server/ws_server/connection_manager.py:135-178 | so there the queue is the newest part of all that matches the filter |
| ConnectionManager.ConnectionManager.Accept | services/ws-server/ws_server/connection_manager.py:201-223 | accepts below the cap |
| ConnectionManager.ConnectionManager.Subscribe | services/ws-server/ws_server/connection_manager.py:225-240 | subscribes in one step |
| ConnectionManager.ConnectionManager.Disconnect | services/ws-server/ws_server/connection_manager.py:248-262 | leaves every channel, dropping emptied relays |
| ConnectionTheorems.AcceptKeepsIff | services/ws-server/ws_server/connection_manager.py:201-223 | accepting keeps membership right exactly when refused or the socket had no channels |
| ConnectionTheorems.SubscribeKeeps | services/ws-server/ws_server/connection_manager.py:225-240 | subscribing keeps membership right, for connected and unknown sockets alike |
| ConnectionTheorems.SubscribeKeepsCapIff | services/ws-server/ws_server/connection_manager.py:225-240 | and the cap exactly for a connected socket or with room for one more |
| ConnectionTheorems.DisconnectKeeps | services/ws-server/ws_server/connection_manager.py:248-262 | disconnecting keeps membership right and leaves the socket nowhere |
| ConnectionTheorems.AcceptingLetsIn | services/ws-server/ws_server/connection_manager.py:201-223 | below the cap a socket is let in without channels, at the cap nothing happens |
| ConnectionTheorems.SubscribingStartsFresh | services/ws-server/ws_server/connection_manager.py:225-240 | a subscriber starts with an empty queue and its filter, and no other place changes |
| ConnectionTheorems.LeavingDisturbsNobody | services/ws-server/ws_server/connection_manager.py:248-262 | disconnecting leaves every other queue as it was |
| ConnectionTheorems.RunKeepsMembershipIff | services/ws-server/ws_server/connection_manager.py:201-262 | on every run of whole calls, whoever subscribes, relay membership equals the channel sets and no relay is empty throughout exactly when every accept is refused or finds the socket without channels |
| ConnectionTheorems.RunKeepsMembership | services/ws-server/ws_server/connection_manager.py:201-262 | in particular when no connected socket is accepted again |
| ConnectionTheorems.RunKeepsCapIff | services/ws-server/ws_server/connection_manager.py:201-262 | on every run the cap holds throughout exactly when no unknown socket subscribes while the server is full |
| ConnectionTheorems.SplitSubscribeIsSaneIff | services/ws-server/ws_server/connection_manager.py:225-240 | why the halves of subscribe must stay together: after any whole calls in between, the second leaves membership right exactly when the channel still has its relay and is still in the socket's set |
| ConnectionTheorems.OneDisconnectSpoilsIff | services/ws-server/ws_server/connection_manager.py:225-262 | one disconnect in between would spoil that exactly when it is the socket's own or that of the channel's only client |
| ConnectionTheorems.DelayedDropIsHarmlessIff | services/ws-server/ws_server/connection_manager.py:248-262 | while disconnect waits for the lock, any whole calls may run: dropping the emptied relay then is harmless exactly when nobody is in the channel |
| ConnectionTheorems.NewcomerIsLost | services/ws-server/ws_server/connection_manager.py:248-262 | whoever joins in that time is left without a relay |
| Polylines.PolylineLength | tools/import_osm_railways.py:133-137 | the length loop |
| Polylines.LengthOfJoin | tools/import_osm_railways.py:133-137 | joining at a shared point adds lengths |
| Polylines.LengthOfStep | tools/import_osm_railways.py:133-137 | a step is as long as its ends are apart |
| Polylines.LengthOfReverse | tools/import_osm_railways.py:336-339 | a polyline is as long backwards |
| RailSplitting.CountReferences | tools/import_osm_railways.py:261-264 | the reference counts |
| RailSplitting.CountsAreReferences | tools/import_osm_railways.py:261-264 | they are the numbers of occurrences in all ways |
| RailSplitting.FindSplits | tools/import_osm_railways.py:271-272 | where a way is split |
| RailSplitting.AddPiece | tools/import_osm_railways.py:273-293 | one sub-segment becomes an edge when it has length and two ends |
| RailSplitting.AddWay | tools/import_osm_railways.py:273-293 | the edges of one way |
| RailSplitting.BuildGraph | tools/import_osm_railways.py:251-295 | the edges of all ways, and the coordinates they leave |
| RailSplitting.PiecesMakeUpTheWay | tools/import_osm_railways.py:271-276 | gluing the pieces gives back the way, and their lengths add up |
| RailSplitting.LengthIsConserved | tools/import_osm_railways.py:273-291 | edge weights plus dropped pieces sum to the length of the way |
| RailSplitting.OnlyLoopsAreLost | tools/import_osm_railways.py:273-291 | edge weights and the length of loops alone make up the way |
| RailSplitting.LooplessWayIsWhole | tools/import_osm_railways.py:273-291 | a way whose neighbouring splits differ is in the graph with its whole length |
| RailSplitting.InteriorsAreUnshared | tools/import_osm_railways.py:261-291 | an edge is a piece between way ends or shared nodes, every node inside occurring once in all ways |
| RailSplitting.EdgesAreTheSegments | tools/import_osm_railways.py:261-291 | the graph has exactly these edges: from split to split of a way, with its nodes, geometry and length, where the length is positive and the ends differ |
| RailSplitting.SegmentBecomesEdge | tools/import_osm_railways.py:273-291 | no such segment is left out |
| RailStitching.FindLightest | tools/import_osm_railways.py:328-333 | the first lightest of the parallel edges |
| RailStitching.LightestIsFirst | tools/import_osm_railways.py:328-333 | it is none exactly when no edge runs between the two vertices |
| RailStitching.StitchPolyline | tools/import_osm_railways.py:321-347 | the stitching loop |
| RailStitching.BuiltEdgesArePlaced | tools/import_osm_railways.py:251-295 | the built graph satisfies what stitching relies on when every node has one place |
| RailStitching.StitchingFollowsThePath | tools/import_osm_railways.py:321-347 | stitching yields a connected polyline from head to tail as long as the lightest edges together |
| RailStitching.RoutePassesItsVertices | tools/import_osm_railways.py:321-347 | and it passes the vertices of the path in order, each after the lightest edges up to it |
| RailStitching.BuiltRoutesAreConnected | tools/import_osm_railways.py:251-347 | from ways to route: the polyline joins the places of the path ends |

## Left out

- Floating point: all measurements are exact reals, including `int(i * bucket_size)`, which is exact floor
  division here; NaN and infinities do not occur.
- RetryBuffer.RunIsConserved: also covers runs that tick on after a resend raised; the runner's loop ends there,
  which is the case `EndedRunLosesOneBatch` treats.
- Rounding of published scores, shares and averages, and timestamps of messages.
- Redis, PostgreSQL, HTTP and asyncio internals: each call is one step. Approximate trimming is any trimming.
- Liveness: a batch that always fails keeps the drain loop going, and no theorem says otherwise.
- The db-writer's lag gauge, its sanitising of staging names (distinct workers have distinct tables here), the
  row adapters, and retention, which removes stored rows on purpose. Batch sizes and worker counts are positive.
- Encodings, SQL text, authentication, reports, metrics and logging.
- Trigonometry: distances are any nonnegative symmetric function; the cached pose of a train is not modelled.
- The thermal noise and sensor generators of the simulator, the burst multiplier (it only chooses the batch
  size, an input here) and the pacing of ticks.
- Real powers: `x ** k` and `2 ** x` are functions known to increase from 0 to 1 on [0, 1], and to increase
  from 1 and double at each step.
- The square root in the z-score: the standard deviation is any nonnegative number whose square is the variance.
- Alert texts, recommendations and identifiers; units of sensors.
- The numbers in the tables of sensor limits, mode durations and filter gains are taken over as they stand; nothing
  derives them.
- Heartbeats, reconnection and shutdown of the WebSocket server; a sender left over from a repeated
  subscription of the same socket.
- Shortest paths, simplification and projection of rail geometry: a path is any whose consecutive vertices
  share an edge.
- ConnectionManager.ConnectionManager.Subscribe: holds its relays as values rather than as objects, so that
  sharing of a relay between calls in progress appears only in the lemmas about calls that are split.
- FleetFeed.MarkersAgreeWithoutLoss: speaks of the category of a marker; its score is that of the last
  change, which the aggregator may since have updated without publishing.
- RailStitching.StitchingFollowsThePath: assumes that every node has one place and that consecutive vertices
  share an edge; the code skips a missing edge without notice.
- RailSplitting.BuildGraph: takes ways of at least two nodes, as the parser delivers them.
