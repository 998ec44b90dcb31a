# Carhibou, modelled and proved in Dafny

Carhibou collects vehicle telemetry on a small agent, carries it through a durable queue over an
unreliable network to a server, and resolves the competing candidates it stores into one live state
and one history. This project models the parts of that system that keep state and proves what they
keep: over every input, every run and every interleaving of their steps.

`dafny verify dfyconfig.toml` checks the whole project. Each file is one module.

## What is modelled

**History.** `Registry`, `Resolution` and `Timeline` give the freshness rule, the choice among
candidates (with the derived charging readings) and the candidate state; `ReadingProperties` says what a
reading comes to in the candidates' own numbers. `Buckets` and `HistoryTable` are the sparse sweep of
`table_rows`: it visits only the buckets where an event lands or a candidate expires and merges equal
neighbours. `HistoryTableProperties` compares it with the dense evaluation that resolves the vehicle at
every bucket end. The two are equal under two conditions that can be read off the input before the
sweep: every event on an interior tick has the bucket it closes visited, and every expiry carried in has
its bucket visited. Both conditions have a concrete window in which leaving them out shows a wrong row.
`Replay`, `ReplayProperties` and `ReplayContents` relate the state reconstructed from the log to the
replay of its events: metrics, positions and the agents' own data.

**Ingestion and delivery.** `Server` is the ingesting server as a class over its tables, each method
tied to a function of the old tables; `IngestionProperties` holds what follows over whole runs: the
candidate table is a cache of the log, redelivery touches only the contact, triggers partition the
samples, hook work is exact, the current state never goes back. `Contacts` are the contact periods.
`Acceptance` says in the registry's numbers which observations are stored and what of a stored sample
reaches the candidate rows. `SampleQueue` is the agent's queue, `Runtime` the agent's `Collect` and
`Upload`, `Collection` the deltas and retractions it publishes, and `Delivery` the world of agent,
network and server in which requests and answers are lost, repeated and delayed and the agent restarts.

**Configuration.** `Configuration` and `ConfigurationProperties`: server edits, enrolment, responses
delivered late or out of order, and the device's file. The version determines the configuration, and
what is served can be installed exactly when its profile reference resolves. The same versions are all
that the supervisor of the server's own connectors looks at, and that is enough. `ConfigurationContent`
says that what is served, run and installed is what was written.

**Devices.** `RetryingOwner` holds every region the owner of a replaceable device runs under its mutex;
`RetryingOwnerProperties` interleaves them with readers, resets, a closer and a slow acquisition, for
the vehicle's owner and for the position's, and says when exactly a retry delay is bound to last.
`BurstHandshake` does the same for the listen bursts of a profile session, says when exactly a cycle is
served, and gives the exact rule for its recovery ladder.

**Trips, jobs, decoding, hints.** `Segments`, `SegmentProperties` and `Charges` cut drives and charges
out of rows, and `SegmentSignals` says which rows begin, continue and end them by what they state;
`JobClaims` is job claiming by any number of workers; `Bits` and `Decoder` compare the agent's byte loop
with the Python decoder of the same profile format, which the backend constructs to validate a profile
and which decodes for the Python agent, and `DecoderValues` reads its values off the bytes;
`EditDistance` and `CanonicalHints` are the two-row edit distance and the suggestion built on it.
`Numbers`, `Sequences`, `Sorting`, `Text` and `Options` are shared vocabulary.

## Findings

Where a property does not hold of the code as one would first state it, the code is modelled as it is,
the condition under which it holds is proved to be exact, and an input that shows the failure is given.

- The sparse table is the dense evaluation where the visited buckets miss no event and no expiry, and
  each of these is exactly a condition on the input (`SeesEveryEventIff`, `SeesEveryExpiryIff`). A
  candidate carried in can expire in an unvisited bucket, and an event on an interior tick can be
  missing from the bucket it closes (`CarriedExpiryCanBeMissed`, `BoundaryEventCanBeMissed`).
- Live candidate and history query show the same row exactly when the last value logged of the newest
  instant is the first that arrived of it (`CacheIsHistoryRowIff`); two values reported for one instant
  part them (`TiedInstantsCanDiffer`), and so does a mirrored speed, which is not logged.
- Replay mirrors a fix's speed into the metric candidates, reconstruction does not; the two agree on that
  speed under the condition of `MirroredReplayAgreesIff` and on everything else always.
- Replay lays the agents' reports over each other, reconstruction takes the newest alone: a field shows
  the same at the end of a window under the condition of `AgentFieldAgreesIff`, and one that the newest
  report no longer has, such as the reason of an event, lingers in the replay (`DroppedFieldLingers`).
- `charging.power` can appear with no new data (`ChargingPowerCanAppearLater`), except under the
  condition of `ChargingPowerWasShownEarlierIff`.
- A restart that cannot read the queue's last sequence counts from one again, because the error is
  ignored at `agent/cmd/carhibou-agent/main.go:1860`. The queue leaves its sending order at a collection
  and nowhere else, exactly when the new sample's number is lower than that of the last one queued, or
  the same with an earlier clock (`StepKeepsSendingOrderIff`, `BlindRestartReordersIff`,
  `BlindRestartCanReorder`). Nothing is lost by it.
- What the server serves can be installed exactly when the cadences are within bounds and the profile
  reference is absent or resolves (`CurrentConfigurationInstallsIff`). Enrolment looks at neither again:
  a token can name a profile deleted since (`EnrolmentInstallsIff`, `EnrolmentCanDangle`). And the empty
  reference passes the checks of tokens and settings alike; of what settings store it is the only one no
  device accepts (`UpdateInstallsIff`, `EmptyReferenceIsServed`).
- An installed version goes down only after the stored file has been damaged
  (`InstalledVersionNeverFallsBack`, `DamageAdmitsOlder`).
- A retry delay is bound to last exactly when no wake-up is buffered or owed as it begins
  (`WaitLastsWholeIff`, `PositionWaitIsWholeIff`). A failed read leaves its wake-up buffered into the
  next delay exactly when it does not meet the loop at its health wait (`ReadFailureCutsNextWaitIff`);
  the other failures leave none (`OtherFailuresLeaveNextWaitWhole`). The wake-up ends the position
  owner's delay early and starts the vehicle owner's over (`BufferedWakeCutsPositionDelayShort`,
  `VehicleWakeStartsDelayOver`).
- A burst session that ends on an error goes on taking requests, and the cycle the next one makes is
  never ended; while the session lives every cycle is (`EveryCycleIsServed`, `EndedSessionStrandsACycle`).
- A job that is over leaves its execution unended exactly when its lease was reaped between claim and
  start and no worker has stored an end since (`OverJobIsUnendedIff`), for good exactly when no worker is
  left on it (`StrandedIff`): running, if the worker dies after a late start (`LateStartCanStrand`), or
  pending, if it dies before (`DeadClaimStrandsPending`).
- The two decoders give the same for a field and a frame exactly under the condition of
  `DecodersAgreeIff`: negative numbers that are masked or shifted part them (`NumbersAgreeIff`,
  `ShiftedSignDiffers`, `MaskedSignDiffers`), and so do byte fields without a length or longer than a
  word (`AcceptanceAgreesIff`, `OmittedLengthDiffers`).
- A row with neither signal nor evidence of driving can lie in a drive all the same
  (`SilentRowCanLieInDrive`), exactly under the condition of `SilentRowLiesIff`.
- The docstring of `update_agent` says that only a cadence change raises the configuration version; the
  code also raises it for a change of profile, and the model follows the code.

## Model

| member | source | states |
|---|---|---|
| Registry.ExpiryIsLastFreshInstant | backend/app/history/reconstruction.py:279-293 | the expiry the table computes is exactly the last instant the freshness rule accepts |
| Resolution.ResolveReadings | backend/app/telemetry/resolution.py:113-161 | the step-by-step filling of the dictionaries gives, for every key, the reading that key has on its own |
| Resolution.ResolveChargingState | backend/app/telemetry/resolution.py:129-147 | the grouped candidates give the charging state of all candidates: an explicit fresh one, else the evidence of charger and battery power |
| Resolution.ResolvePower | backend/app/telemetry/resolution.py:149-160 | stated power wins; otherwise power drawn from the battery counts only while charging |
| ResolutionProperties.FreshSelectionIsBest | backend/app/telemetry/resolution.py:82-90 | while anything fresh backs a key the choice is fresh, and nothing fresh outranks it except a satellite speed shut out by a road speed |
| ResolutionProperties.StaleSelectionIsRetained | backend/app/telemetry/resolution.py:91-94 | with nothing fresh, exactly the retained keys speak, through their best stale candidate |
| ResolutionProperties.ResolutionSeesClockThroughFreshness | backend/app/telemetry/resolution.py:113-195 | two instants at which every candidate is equally fresh resolve to the same readings and position |
| ResolutionProperties.FreshReadingIffSupported | backend/app/telemetry/resolution.py:113-161 | when exactly each key but charging power reads fresh |
| ResolutionProperties.ChargingStateIsNeverStale | backend/app/telemetry/resolution.py:129-147 | a charging state is shown only while it is fresh |
| ResolutionProperties.FreshnessOnlyRunsOut | backend/app/telemetry/resolution.py:113-161 | for fixed candidates, a key other than charging power that is fresh later was fresh earlier |
| ResolutionProperties.ChargingPowerReadsFreshIff | backend/app/telemetry/resolution.py:149-160 | when exactly charging power reads fresh |
| ResolutionProperties.ChargingPowerWasShownEarlierIff | backend/app/telemetry/resolution.py:129-160 | charging power that reads fresh later did so earlier exactly when a fresh candidate states it at either instant or nothing withheld the derived reading earlier |
| ResolutionProperties.ChargingPowerCanAppearLater | backend/app/telemetry/resolution.py:129-160 | a stated idle that expires lets charging power appear with no new data |
| ReadingProperties.SilentWhenStale | backend/app/telemetry/registry.py:74-345 | which keys fall silent once stale; the others keep their last reading |
| ReadingProperties.PlainFreshness | backend/app/telemetry/registry.py:351-372 | a plain observation is fresh for three minutes or fifteen, by its key |
| ReadingProperties.PromisedFreshness | backend/app/telemetry/registry.py:351-372 | a promised interval stretches that to three intervals and never shortens it |
| ReadingProperties.EventDrivenFreshness | backend/app/telemetry/registry.py:351-372 | what is reported on change is as fresh as the last contact, for the key's time or the liveness window |
| ReadingProperties.PlainReadingQuotesACandidate | backend/app/telemetry/resolution.py:121-127 | a plain reading is the value, instant and source of a candidate that backs its key, fresh exactly when that is |
| ReadingProperties.SelectedIsNoWorse | backend/app/telemetry/resolution.py:63-95 | the candidate chosen is direct before derived, on the better channel (CAN, OBD, GNSS, MQTT, derived), and the newer, but for a fresh road speed |
| ReadingProperties.StatedChargingIsQuoted | backend/app/telemetry/resolution.py:129-132 | a fresh statement of the charging state is read as stated |
| ReadingProperties.ChargerPowerTellsCharging | backend/app/telemetry/resolution.py:134-147 | without one, charging is a charger power of at least 0.5 or a battery power of at most -0.5 |
| ReadingProperties.BatteryTellsCharging | backend/app/telemetry/resolution.py:134-147 | with the battery alone, a power of at most -0.5 |
| ReadingProperties.StatedPowerIsQuoted | backend/app/telemetry/resolution.py:149-151 | a stated charging power is read as stated |
| ReadingProperties.DerivedPowerIsBatteryPower | backend/app/telemetry/resolution.py:152-160 | a derived charging power is the negated battery power, positive, read exactly while charging on a negative one |
| ReadingProperties.PositionQuotesTheBest | backend/app/telemetry/resolution.py:176-195 | the position is a whole candidate: fresh ones first, direct before derived, then the newest |
| Timeline.HeldMetricHasAnOrigin | backend/app/history/reconstruction.py:339-364 | every metric candidate held after a replay was carried in or brought by an event |
| HistoryTable.RelevantBuckets | backend/app/history/reconstruction.py:310-326 | the visited buckets are the first, the last and those of an event or of an expiry strictly inside the window |
| HistoryTableProperties.VisitedIff | backend/app/history/reconstruction.py:310-326 | in instants: a bucket is visited exactly if it is the first, the last, or one in which an event happens or a candidate it brings expires |
| HistoryTable.ConsumeEvents | backend/app/history/reconstruction.py:338-364 | the event pointer stops at the first event after the bucket's end, with exactly those before it applied and their reports counted |
| HistoryTable.TableRows | backend/app/history/reconstruction.py:296-388 | the rows, oldest first, show at every bucket what the dense evaluation shows at the last visited bucket, merged maximally |
| HistoryTableProperties.SparseSweepIsDense | backend/app/history/reconstruction.py:296-388 | expanded to one entry a bucket, the table is the dense evaluation, whenever interior-tick events and carried expiries fall in visited buckets |
| HistoryTableProperties.UndisturbedSweepIsDense | backend/app/history/reconstruction.py:296-388 | the same when no event is on an interior tick and nothing carried in expires inside |
| HistoryTableProperties.SeesEveryEventIff | backend/app/history/reconstruction.py:311-316 | every bucket has seen all events up to its end at its last visited bucket, exactly when each event on an interior tick has the bucket it closes visited |
| HistoryTableProperties.SeesEveryExpiryIff | backend/app/history/reconstruction.py:317-326 | no candidate changes freshness between a bucket's end and that of its last visited bucket, exactly when each carried candidate that expires inside, unreplaced, has that bucket visited |
| HistoryTableProperties.CarriedExpiryCanBeMissed | backend/app/history/reconstruction.py:311-326 | a window in which a carried candidate's expiry is missing from every table |
| HistoryTableProperties.BoundaryEventCanBeMissed | backend/app/history/reconstruction.py:312-339 | a window in which an event on a tick is missing from the bucket it closes |
| HistoryTableProperties.RowsTileTheWindow | backend/app/history/reconstruction.py:365-388 | rows start at the start, abut, end at the end, never repeat a state, and account for every bucket and every report once |
| HistoryTableProperties.TableIsUnique | backend/app/history/reconstruction.py:328-388 | there is only one such table |
| ReplayProperties.ReplayIsReconstruction | backend/app/history/reconstruction.py:186-276 | folding the events of (t1, t2] over the state at t1 gives the metric candidates of the state at t2, ties included, up to contact data, wherever no fix mirrors its speed |
| ReplayProperties.OnlySatelliteSpeedIsMirrored | backend/app/history/reconstruction.py:344-360 | the exception concerns the satellite speed alone, of a source with a fix in the window |
| ReplayProperties.MirroredReplayAgreesIff | backend/app/history/reconstruction.py:344-360 | for that speed, when exactly the two still agree |
| ReplayContents.ReconstructionQuotesTheLog | backend/app/history/reconstruction.py:62-91 | a candidate is reconstructed exactly when its identity is logged by then, and quotes a newest such row with its source's kind and contact |
| ReplayContents.ReconstructedPositionQuotesTheLog | backend/app/history/reconstruction.py:94-114 | and so does a position |
| ReplayContents.PositionReplayIsReconstruction | backend/app/history/reconstruction.py:151-183 | a replay leaves each source and channel a newest recorded position, as reconstruction does |
| ReplayContents.ReplayedAgentData | backend/app/history/reconstruction.py:361-363 | the agent data after a replay: the window's reports laid over what was there, in order of recording |
| ReplayContents.ReconstructedAgentIsNewest | backend/app/history/reconstruction.py:203-209 | reconstruction shows the data of a report than which none is newer, by instant and then by sequence |
| ReplayContents.ReportsAreLaidInOrder | backend/app/history/reconstruction.py:361-363 | and that order is by instant of recording, then by sequence |
| ReplayContents.AgentFieldAgreesIff | backend/app/history/reconstruction.py:203-209 | when exactly replay and reconstruction show the same of a field of the agent data |
| ReplayContents.DroppedFieldLingers | backend/app/history/reconstruction.py:361-363 | two reports after which a field of the first is still shown by the replay alone |
| Contacts.SpanningPeriodAnswers | backend/app/telemetry/contacts.py:11-49 | an instant inside a period is answered by that period |
| Contacts.LatestStartHasLatestContact | backend/app/telemetry/contacts.py:20-40 | the period selected by its start has the latest contact |
| Contacts.TouchKeepsSpacing | backend/app/telemetry/services.py:39-62 | a contact leaves periods ordered, each after its predecessor's silence |
| Contacts.ContactLiesInOnePeriod | backend/app/telemetry/services.py:45-62 | a contact not older than the latest lies in exactly one period, which it ends |
| Contacts.AnyContactsKeepSpacing | backend/app/telemetry/services.py:39-62 | over any contact sequence the periods stay ordered and disjoint |
| Contacts.PeriodsAreOfTheContacts | backend/app/telemetry/services.py:39-62 | every period begins at a contact and ends at one, with its window |
| Contacts.OrderlyContactIsSpanned | backend/app/telemetry/services.py:39-62 | a contact no earlier than all before it lies in a period, whatever comes after |
| Contacts.ContactOpensIff | backend/app/telemetry/services.py:45-62 | a contact opens a period exactly when the last one's window has passed since its last contact |
| Contacts.LastBegunAnswers | backend/app/telemetry/contacts.py:11-49 | the period that answers for an instant is the last one begun by then |
| Server.TelemetryServer.constructor | backend/app/telemetry/services.py:251-303 | a new server's tables are empty and consistent |
| Server.TelemetryServer.ApplyMetricCandidate | backend/app/telemetry/services.py:93-128 | a candidate row yields only to a strictly newer observation |
| Server.TelemetryServer.ApplyPositionCandidate | backend/app/telemetry/services.py:131-166 | a position row yields only to a strictly newer fix; the fix mirrors its speed whether or not it replaced the row |
| Server.TelemetryServer.StoreSample | backend/app/telemetry/services.py:265-295 | a stored sample brings its observations, its position and then its mirrored speed to the candidates, in order |
| Server.TelemetryServer.UpdateCurrentState | backend/app/telemetry/services.py:169-197 | the current-state row after a batch |
| Server.TelemetryServer.EnqueueTriggers | backend/app/telemetry/services.py:212-239 | ten samples a trigger, an execution for each listening hook, a job for each execution |
| Server.TelemetryServer.TouchSourceContact | backend/app/telemetry/services.py:39-62 | the source's periods after a contact, all others untouched |
| Server.TelemetryServer.StoreBatch | backend/app/telemetry/services.py:255-295 | each sample of a batch is a duplicate of the log or joins it |
| Server.TelemetryServer.IngestBatch | backend/app/telemetry/services.py:251-303 | the whole new state of every table, the answer, and that all tables stay consistent; a retired source changes nothing |
| Server.IngestionKeepsConsistency | backend/app/telemetry/services.py:251-303 | distinct ids, candidates and positions equal to the fold of the log, current states current, periods spaced, triggers a partition of the samples, one job an execution |
| Server.TriggersNameTheSamples | backend/app/telemetry/services.py:212-227 | the triggers of a batch name its samples, each once and in order |
| Server.UpdatedStateIsCurrent | backend/app/telemetry/services.py:169-196 | the row is at the newest instant ever recorded and names a sample recorded then |
| Acceptance.NormalizedIffStorable | backend/app/telemetry/registry.py:374-381 | an observation is accepted, as it is, exactly when it has no value, an unregistered key, or a value of its key's type and range, written out |
| Acceptance.AcceptedAreTheStorable | backend/app/telemetry/services.py:65-72 | exactly the acceptable observations are stored, unchanged and in order |
| Acceptance.ArrivalsAreTheSample | backend/app/telemetry/services.py:267-293 | a stored sample brings each of its observations to the candidates and then its position's speed, field by field |
| Acceptance.CandidateQuotesTheLog | backend/app/telemetry/services.py:93-166 | every candidate row is an observation of a logged sample or the speed of its position |
| Acceptance.StoredObservationHasCandidate | backend/app/telemetry/services.py:104-107 | every stored observation has a candidate row at least as new |
| Acceptance.StoredSpeedHasCandidate | backend/app/telemetry/services.py:159-166 | and so has the speed of every stored position, under the satellite channel |
| IngestionProperties.EveryRunIsConsistent | backend/app/telemetry/services.py:251-303 | every run of batches, in whatever order, leaves consistent tables |
| IngestionProperties.AnswerListsEachIdOnce | backend/app/telemetry/services.py:257-295 | an answer lists every id of its batch once, as accepted exactly when the log did not hold it |
| IngestionProperties.BatchIsStored | backend/app/telemetry/services.py:259-295 | after a batch the log holds all of its samples and everything it held before |
| IngestionProperties.RedeliveryOnlyTouchesContact | backend/app/telemetry/services.py:262-264 | a redelivered batch changes nothing but the source's contact |
| IngestionProperties.SourcePeriodsAreItsContacts | backend/app/telemetry/services.py:39-62 | over any run a source's periods are those of its own contacts and nobody else's |
| IngestionProperties.CacheAgreesWithLog | backend/app/telemetry/services.py:93-128 | a candidate is the newest value logged for its identity, and of equally new ones the first to arrive |
| IngestionProperties.PositionAgreesWithLog | backend/app/telemetry/services.py:131-158 | a position candidate is, field by field, the newest position logged for its vehicle, source and channel, and of equally new ones the first to arrive |
| IngestionProperties.ArrivalOrderDoesNotMatter | backend/app/telemetry/services.py:106-107 | with distinct instants the candidates do not depend on the order of arrival |
| IngestionProperties.CacheIsHistoryRowIff | backend/app/history/reconstruction.py:128-146 | when exactly the live candidate, a mirrored satellite speed included, is the rank-1 row of the history query at an instant |
| IngestionProperties.CandidatesMatchHistory | backend/app/history/reconstruction.py:115-148 | after any run, a candidate other than a satellite speed is that row from its own instant on, where no two values of its identity tie |
| IngestionProperties.TiedInstantsCanDiffer | backend/app/telemetry/services.py:106-107 | two values for one instant on which the two disagree |
| IngestionProperties.HookWorkIsExact | backend/app/telemetry/services.py:204-239 | each new trigger has one execution for each hook that is enabled, waits for telemetry and is for any vehicle or this one, and no other; earlier work is untouched |
| IngestionProperties.NewTriggersAreChronological | backend/app/telemetry/services.py:297-299 | new triggers list the new samples by recording time, sequence and id |
| IngestionProperties.CurrentStateNeverGoesBack | backend/app/telemetry/services.py:174-178 | however late a batch comes, the current state does not go back in time |
| IngestionProperties.AgentStateFollowsNewest | backend/app/telemetry/services.py:173-185 | the newest sample's agent data win field by field, unless it is older than the state, which then stays |
| IngestionProperties.RecordingOrder | backend/app/telemetry/services.py:297-297 | samples are ordered by recording time, then sequence, then id |
| IngestionProperties.WindowIsLongestPromise | backend/app/telemetry/services.py:301-302 | a contact's window is the longest interval a batch promises, at least fifteen seconds |
| IngestionProperties.TriggersAreFull | backend/app/telemetry/services.py:212-227 | triggers take ten samples each, the last what is left, and are dated and placed by their last sample |
| SampleQueue.Queue.Enqueue | agent/internal/store/queue.go:75-82 | an id already queued is ignored, a new one goes last |
| SampleQueue.Queue.Acknowledge | agent/internal/store/queue.go:105-133 | exactly the rows of the given ids go, and their number is returned |
| SampleQueue.OneMoreAcknowledged | agent/internal/store/queue.go:120-128 | an id removes one row if it is still there and none if it is not |
| SampleQueue.AscendingQueueIsFifo | agent/internal/store/queue.go:84-103 | while sequences ascend, pending samples are the oldest in order of insertion |
| SampleQueue.QueueIsFifoIff | agent/internal/store/queue.go:84-103 | when exactly samples are pending in order of insertion |
| SampleQueue.LastSequenceIsGreatest | agent/internal/store/queue.go:141-145 | the last sequence is the greatest queued |
| SampleQueue.PendingAreTheOldest | agent/internal/store/queue.go:84-103 | a batch is the oldest part of the queue, by sequence and then by the time of queueing |
| Collection.AdvanceReadout | agent/internal/runtime/runtime.go:267-281 | a live readout publishes what is new or newer than remembered, and is remembered |
| Collection.RetractRemembered | agent/internal/runtime/runtime.go:248-264 | a dead channel publishes one null for each remembered key, on a channel that remembers it |
| Collection.MemoryIsOfLastStretch | agent/internal/runtime/runtime.go:265-282 | what is remembered is the newest instant read since the channel came up |
| Collection.EveryRunLeavesAMemory | agent/internal/runtime/runtime.go:265-282 | every run of rounds leaves a memory |
| Collection.PublishedIffNewest | agent/internal/runtime/runtime.go:268-280 | a reading is published exactly when it is newer than all read of its key and channel in the stretch |
| Collection.PublishedReadingsAdvance | agent/internal/runtime/runtime.go:268-280 | published instants of a key and channel strictly increase within a stretch |
| Collection.DeathRetractsOnce | agent/internal/runtime/runtime.go:248-265 | death retracts exactly the keys read in the stretch before it, and further dead rounds nothing |
| Collection.PublishedFixesAdvance | agent/internal/runtime/runtime.go:313-330 | published positions strictly advance over the whole run and end at the newest seen |
| Collection.FixIsDated | agent/internal/runtime/runtime.go:314-320 | a fix is dated by its own clock, by its age before now, or now |
| Collection.MemoryHasLastTechnique | agent/internal/runtime/runtime.go:273-279 | a retraction gives the method of the last reading taken, published or not |
| Runtime.Agent.Collect | agent/internal/runtime/runtime.go:226-354 | the sample queued, the memory left, and the sequence, which advances even when queueing fails |
| Runtime.Agent.Upload | agent/internal/runtime/runtime.go:356-382 | it ends; without failure the queue is empty; what left the queue is in the server's log, what stayed is in its order; it fails only on a lost or refused attempt |
| Runtime.AnsweredBatchLeaves | agent/internal/runtime/runtime.go:367-374 | the answer to a pending batch removes as many rows as the batch has samples |
| Delivery.EveryRunIsSound | agent/internal/runtime/runtime.go:356-382 | under every interleaving of collection, sending, loss, repetition, delay and restart, queue, network and log fit together |
| Delivery.NothingLostNothingTwice | backend/app/telemetry/services.py:257-295 | whatever was enqueued is still queued or in the log, whole but for the observations that cannot be stored, and there at most once |
| Delivery.AcknowledgedReachesCandidates | backend/app/telemetry/services.py:104-107 | every storable observation of an acknowledged sample has a candidate row of its source, channel and key at least as new |
| Delivery.RoundEmptiesTheBatch | agent/internal/runtime/runtime.go:359-374 | a batch sent, delivered and answered leaves the queue, exactly its samples, and counts as acknowledged |
| Delivery.QueueKeepsItsOrder | agent/internal/store/queue.go:84-103 | the queue is what was enqueued and not acknowledged, in order; it is sent in that order exactly while it is in sending order, which it is unless a restart lost count |
| Delivery.BlindnessHasACause | agent/cmd/carhibou-agent/main.go:1860 | only a restart that could not read the last sequence loses count |
| Delivery.StepKeepsSendingOrderIff | agent/internal/runtime/runtime.go:331-352 | a queue in sending order leaves it at no step but a collection, exactly when the last row queued has a higher number than the new sample, or the same and a later time |
| Delivery.BlindRestartReordersIff | agent/cmd/carhibou-agent/main.go:1860 | when exactly the first sample after a blind restart goes ahead of the queue |
| Delivery.BlindRestartCanReorder | agent/cmd/carhibou-agent/main.go:1860 | a run in which it sends a later sample first |
| Configuration.ConfigurationServer.UpdateAgent | backend/app/agents/services.py:124-148 | the new row, refused for an unavailable profile, and told to the agent exactly when its configuration changes |
| Configuration.ConfigurationServer.UpdateProfile | backend/app/vehicle_profiles/services.py:210-222 | an edit raises the version of every agent assigned a CAN profile and of every connector of a mapping profile; a change of kind is refused |
| Configuration.ConfigurationServer.DeleteProfile | backend/app/vehicle_profiles/services.py:225-237 | a deleted CAN profile is taken from its agents and a deleted mapping profile gives way to the default one, and their versions rise |
| Configuration.ConfigurationServer.Enroll | backend/app/agents/services.py:76-121 | an unused token, in time, for this implementation and protocol and an existing vehicle makes one agent, with version 1 and its configuration as the answer; any other request nothing |
| Configuration.ConfigurationServer.CreateEnrollment | backend/app/agents/services.py:49-73 | a token is refused to a connector implementation and for an unavailable profile |
| Configuration.ConfigurationServer.CreateConnector | backend/app/connectors/services.py:34-70 | a connector with an existing mapping, and the source row of its own id |
| Configuration.ConfigurationServer.UpdateConnector | backend/app/connectors/services.py:73-99 | a saved connector and its source row, both versions raised; refused without a mapping |
| Configuration.ConnectorSupervisor.Reconcile | backend/app/connectors/runtime.py:392-405 | sessions of the wanted version go on, the others end, and what is missing starts |
| Configuration.ConfigurationStore.InstallIfNewer | agent/internal/store/config.go:87-106 | what is in force afterwards and when an install is refused |
| ConfigurationProperties.EditIsTold | backend/app/vehicle_profiles/services.py:194-237 | after any edit, an agent's configuration is the same or its version is higher |
| ConfigurationProperties.ConnectorEditIsTold | backend/app/vehicle_profiles/services.py:202-237 | after any edit, a connector is set up as before, its mapping included, or its version is higher |
| ConfigurationProperties.EveryRunIsCoherent | backend/app/agents/services.py:33-46 | over every run, what was served, what is current and what is installed fit together |
| ConfigurationProperties.VersionDeterminesConfiguration | backend/app/agents/services.py:33-46 | two configurations served to one agent under one version are equal |
| ConfigurationProperties.SameVersionSameConfiguration | agent/internal/store/config.go:87-106 | a device at the server's version holds the server's configuration, and never runs ahead |
| ConfigurationProperties.SupervisorIsExact | backend/app/connectors/runtime.py:392-405 | though it compares versions only, after each look exactly the enabled connectors with a mapping run, each as its row and its mapping are then |
| ConfigurationProperties.InstalledVersionNeverDecreases | agent/internal/store/config.go:91-105 | a loaded configuration gives way only to a higher version, unless the file is damaged |
| ConfigurationProperties.InstalledVersionNeverFallsBack | agent/internal/store/config.go:91-105 | over any run without damage to the file, what is loaded stays or its version rises |
| ConfigurationProperties.DamageAdmitsOlder | agent/internal/store/config.go:99-105 | a damaged file is repaired even by an older response |
| ConfigurationProperties.DanglingReferenceIsRefused | agent/internal/store/config.go:57-70 | no device, in whatever state, installs a configuration that names a profile without its definition; the empty name is one |
| ConfigurationProperties.ConfigurationInstallsIff | agent/internal/store/config.go:44-72 | a new device installs an agent's configuration exactly when the cadences are within bounds and the reference is absent or resolves to a definition of that id that parses |
| ConfigurationProperties.CurrentConfigurationInstallsIff | backend/app/agents/services.py:33-46 | so it is for every agent at any time of any run |
| ConfigurationProperties.EnrolmentInstallsIff | backend/app/agents/services.py:85-121 | an enrolment's answer can be installed exactly when the token's reference still resolves |
| ConfigurationProperties.UpdateInstallsIff | backend/app/agents/services.py:133-148 | and saved settings likewise; where definitions parse, of the references stored only the empty one does not resolve |
| ConfigurationProperties.EmptyReferenceIsServed | backend/app/agents/services.py:133-145 | the empty reference is stored by settings and tokens, and refused by every device |
| ConfigurationProperties.EnrolmentCanDangle | backend/app/agents/services.py:85-121 | a run in which enrolment serves such a configuration |
| ConfigurationProperties.SettingsBumpIffConfigurationChanges | backend/app/agents/services.py:136-148 | saving settings raises the version exactly when the configuration changes |
| ConfigurationContent.SavedSettingsAreServed | backend/app/agents/services.py:124-148 | what is served has the saved cadences and reference; a reference to no CAN profile changes nothing; other agents are served as before |
| ConfigurationContent.OfferMakesAToken | backend/app/agents/services.py:49-73 | a token is made as offered, unless it is for a connector or refers to no CAN profile |
| ConfigurationContent.EnrolmentServesTheOffer | backend/app/agents/services.py:76-121 | an enrolment that fits its token in every respect serves what the token was made with; any other does nothing |
| ConfigurationContent.AskedIsServed | backend/app/agents/routes.py:211-217 | a device that asks is served its configuration of the moment, and an enrolled one that of its enrolment |
| ConfigurationContent.TokenEnrolsOnce | backend/app/agents/services.py:90-113 | once a token has enrolled an agent, no later request with it does anything, whatever happens between |
| ConfigurationContent.ReferenceMeans | backend/app/vehicle_profiles/services.py:150-161 | a reference means the built-in profile before a stored one, of the right kind only |
| ConfigurationContent.EditStoresTheWritten | backend/app/vehicle_profiles/services.py:210-218 | an accepted edit stores what was written under the next revision, leaves every other profile alone, and raises the version of exactly those that use it |
| ConfigurationContent.EditIsServed | backend/app/vehicle_profiles/services.py:130-147 | after it every assigned agent is served the written signals and metrics without captions, one version on |
| ConfigurationContent.EditLeavesOthers | backend/app/vehicle_profiles/services.py:194-199 | and every other agent what it was served before |
| ConfigurationContent.CreationStoresTheWritten | backend/app/vehicle_profiles/services.py:179-191 | a new profile resolves as it was written |
| ConfigurationContent.DeletionTakesTheProfile | backend/app/vehicle_profiles/services.py:225-237 | after a deletion its agents refer to none and its connectors to the default mapping, one version on; nothing else changes |
| ConfigurationContent.SavedConnectorIsSetUp | backend/app/connectors/services.py:73-99 | a saved connector is set up as saved, or not at all without its mapping |
| ConfigurationContent.WrittenMappingRuns | backend/app/connectors/runtime.py:360-405 | after an edit of a mapping and a look of the supervisor, every enabled connector of it runs it as written |
| ConfigurationContent.PurgedIsGone | backend/app/connectors/services.py:134-144 | a purge takes an agent, its connector and, with the supervisor's next look, its session, and nothing else |
| ConfigurationContent.DeviceTakes | agent/internal/store/config.go:44-72 | what a device takes as valid, in numbers |
| ConfigurationContent.InstallingOver | agent/internal/store/config.go:87-106 | what a valid configuration does to each state of the file |
| ConfigurationContent.InstalledIsHeld | agent/internal/store/config.go:87-106 | over any run, a device that takes a delivery in force holds it, and no other file changes |
| RetryingOwner.RetryingProvider.Read | agent/internal/runtime/vehicle_source.go:93-112 | a fault on reading closes the current source, records the failure and wakes the loop; the vehicle's owner still passes on values read before a fault of status, the position's does not |
| RetryingOwner.RetryingProvider.Reset | agent/internal/runtime/vehicle_source.go:173-184 | a reset closes the current source and clears failure, delay and backoff |
| RetryingOwner.RetryingProvider.BeginClose | agent/internal/runtime/vehicle_source.go:186-202 | only the first Close acts, and it waits for the loop only outside an acquisition |
| RetryingOwner.RetryingProvider.CheckHealth | agent/internal/runtime/vehicle_source.go:238-246 | the health check fails the source it watched and no other |
| RetryingOwnerProperties.CheckFailsIff | agent/internal/runtime/vehicle_source.go:238-246 | a health check fails the source it watched exactly if that is current and reports anything, and does nothing else |
| RetryingOwner.RetryingProvider.Install | agent/internal/runtime/vehicle_source.go:306-317 | nothing is installed after Close or beside a current source |
| RetryingOwner.RetryingProvider.FailLocked | agent/internal/runtime/vehicle_source.go:333-350 | a failure closes the current source, sets the delay to the backoff and doubles it up to the maximum |
| RetryingOwner.ReadFaultsAreNamed | agent/internal/runtime/vehicle_source.go:101-110 | how a failed read and a fault of status are reported |
| RetryingOwnerProperties.EveryRunIsSound | agent/internal/runtime/vehicle_source.go:80-350 | every interleaving keeps the accounts of providers, the backoff and the loop's phase, for both owners |
| RetryingOwnerProperties.ClosedAtMostOnce | agent/internal/runtime/vehicle_source.go:345-350 | no provider is closed twice, and a recorded failure means none is current |
| RetryingOwnerProperties.NoneInstalledAfterClose | agent/internal/runtime/vehicle_source.go:306-311 | no step makes a provider current once Close has begun |
| RetryingOwnerProperties.CurrentIsNotReplaced | agent/internal/runtime/vehicle_source.go:306-311 | no step, in whatever state, puts one provider in another's place |
| RetryingOwnerProperties.NoneStaysOpen | agent/internal/runtime/vehicle_source.go:186-206 | once Close and the loop have finished, every provider ever acquired is closed |
| RetryingOwnerProperties.BackoffDoubles | agent/internal/runtime/vehicle_source.go:338-343 | after k failures in a row the delay is min(initial times 2^(k-1), maximum) |
| RetryingOwnerProperties.DelaysInSeconds | agent/internal/runtime/vehicle_source.go:338-341 | the delays are 5, 10, 20, 40 and then 60 seconds |
| RetryingOwnerProperties.NothingFailedNothingReported | agent/internal/runtime/vehicle_source.go:173-178 | with nothing failed since a success or reset, no failure is reported and no delay kept |
| RetryingOwnerProperties.NoSleepInVain | agent/internal/runtime/vehicle_source.go:173-184 | a wait that a reset has made pointless, or on a source that is gone, always has a wake-up on the way |
| RetryingOwnerProperties.VehicleWaitsItsDelay | agent/internal/runtime/vehicle_source.go:249-271 | the vehicle's owner waits the whole delay before it attempts again |
| RetryingOwnerProperties.PositionWaitsUnlessWoken | agent/internal/runtime/position_source.go:181-201 | the position's owner attempts without a wait exactly when nothing has failed, and otherwise after the delay of the failures counted, whole or cut by a wake-up taken |
| RetryingOwnerProperties.WaitLastsWholeIff | agent/internal/runtime/vehicle_source.go:249-271 | for both owners, before Close: whatever else happens a wait lasts its whole delay, exactly when no wake-up is buffered or owed |
| RetryingOwnerProperties.PositionWaitIsWholeIff | agent/internal/runtime/position_source.go:181-201 | over every run of the position's owner, the wait is the delay of the failures counted, and is bound to last exactly when no wake-up is buffered |
| RetryingOwnerProperties.VehicleWakeStartsDelayOver | agent/internal/runtime/vehicle_source.go:253-260 | a buffered wake-up sends the vehicle's owner into the whole delay again, and that one lasts |
| RetryingOwnerProperties.ReadFailureCutsNextWaitIff | agent/internal/runtime/position_source.go:76-85 | a failed read leaves its wake-up buffered into the next wait, whatever happens on the way, exactly when the loop was not at its health wait |
| RetryingOwnerProperties.OtherFailuresLeaveNextWaitWhole | agent/internal/runtime/position_source.go:172-178 | after a failed health check or acquisition the next wait is bound to last |
| RetryingOwnerProperties.BufferedWakeCutsPositionDelayShort | agent/internal/runtime/position_source.go:157-201 | a run in which a buffered wake-up ends the position's delay and restarts the vehicle's |
| RetryingOwnerProperties.ClosedLoopWindsDown | agent/internal/runtime/vehicle_source.go:208-273 | once closed, every step brings the loop nearer its end and only an acquisition can hold it up |
| RetryingOwnerProperties.CloseNeverAwaitsAcquisition | agent/internal/runtime/vehicle_source.go:194-202 | Close never waits for a loop that is in the acquirer's hands |
| RetryingOwnerProperties.WaitingCloseOutlastsTheLoop | agent/internal/runtime/vehicle_source.go:194-202 | whatever happens meanwhile, a Close that waits goes on only when the loop is at no device, and the loop comes to none after |
| RetryingOwnerProperties.WaitingCloseEndsIff | agent/internal/runtime/vehicle_source.go:194-202 | a Close that waits can end exactly when the loop was never launched, is not yet counted, or has ended |
| BurstHandshake.ProfileSession.RequestBurst | agent/internal/providers/profile.go:338-360 | a sample joins the pending cycle or makes one and owes its token |
| BurstHandshake.ProfileSession.FinishCycle | agent/internal/providers/profile.go:529-534 | the finished cycle is no longer pending and its done channel is closed |
| BurstHandshake.EveryRunKeepsTheHandshake | agent/internal/providers/profile.go:459-536 | cycles finish in the order they are made, and a pending cycle nobody runs has a token or a wake poll on the way |
| BurstHandshake.NoDoneIsClosedTwice | agent/internal/providers/profile.go:516-536 | no done channel is closed twice |
| BurstHandshake.TokensAreConserved | agent/internal/providers/profile.go:353-358 | no more tokens are taken or waiting than were sent |
| BurstHandshake.EveryCycleIsServed | agent/internal/providers/profile.go:459-514 | every cycle is done or is the pending one, which what is already on the way ends, without another sample or wake poll, as long as the session lives, and which nothing ends after |
| BurstHandshake.TokenLeadsToTheCycle | agent/internal/providers/profile.go:469-480 | a buffered token leads a selecting session to the pending cycle and to its end |
| BurstHandshake.SessionEndsFor | agent/internal/providers/profile.go:445-480 | a session ends by an error of a burst or by the stop of a close, and a selecting one does end by a stop |
| BurstHandshake.EndedSessionStrandsACycle | agent/internal/providers/profile.go:474-480 | a run in which the session ends on an error and the next sample makes a cycle that is never ended |
| BurstHandshake.LadderIff | agent/internal/providers/profile.go:538-608 | the recovery ladder is entered exactly on another error or on every third exit timeout in a row |
| BurstHandshake.Recoverer.RunBurstWithRecovery | agent/internal/providers/profile.go:538-594 | when recovery succeeds, which of the three ends of the last rung it reports, and that the device is physically reset only after reset and reopen have failed |
| Segments.DriveGroups | backend/app/history/segments.py:99-135 | the groups are drives in order: from evidence to the last evidence or the parked row, covering all activity, split by gaps only without an outright signal |
| SegmentProperties.ActiveRowInOneDrive | backend/app/history/segments.py:99-135 | every active row lies in exactly one drive |
| SegmentProperties.ChargingRowEndsDrive | backend/app/history/segments.py:44-48 | a charging row can only be the last of a drive |
| SegmentProperties.FallbackDriveHasNoGap | backend/app/history/segments.py:125-129 | without an outright signal successive active rows are under 180 seconds apart |
| SegmentProperties.SameDriveIff | backend/app/history/segments.py:105-131 | when exactly two successive active rows belong to one drive |
| SegmentProperties.DriveGroupsAreUnique | backend/app/history/segments.py:99-135 | there is only one such grouping of the rows |
| SegmentSignals.ChargingRowLies | backend/app/history/segments.py:85-92 | a row that states charging, or no flag and at least 0.5 kW, lies in exactly one charge and at most at the end of a drive |
| SegmentSignals.SilentRowBoundsNoCharge | backend/app/history/segments.py:85-92 | a row with neither flag nor power begins and ends no charge |
| SegmentSignals.StoppingRowEndsCharges | backend/app/history/segments.py:149-154 | a row that states no charging begins none and is last in the one it stops |
| SegmentSignals.InUseRowInOneDrive | backend/app/history/segments.py:44-59 | a row in use, by the vehicle's word, else the agent's, else readiness, and not charging lies in exactly one drive |
| SegmentSignals.IdleRowEndsDrives | backend/app/history/segments.py:106-117 | a row that says the opposite begins no drive and is last in the one it ends |
| SegmentSignals.UnsignalledRowLies | backend/app/history/segments.py:62-82 | a row without signals lies in exactly one drive if one of the evidences, written out, holds, and otherwise only strictly inside one |
| SegmentSignals.SilentRowLiesIff | backend/app/history/segments.py:99-134 | and inside one exactly when a signal before it is not revoked and something follows, or it lies between two close rows of driving, written out |
| SegmentSignals.SilentRowCanLieInDrive | backend/app/history/segments.py:119-131 | three rows of which the middle one suggests nothing and is part of the drive |
| Charges.ChargeGroups | backend/app/history/segments.py:138-158 | the groups are charges in order: from a charging row to the reading that stops it |
| Charges.ChargingRowInOneCharge | backend/app/history/segments.py:138-158 | every charging row lies in exactly one charge |
| Charges.SameChargeIff | backend/app/history/segments.py:143-154 | two charging rows are one charge exactly when nothing between them says it stopped |
| Charges.ChargeGroupsAreUnique | backend/app/history/segments.py:138-158 | there is only one such grouping of the rows |
| Charges.PowerIntegral | backend/app/history/segments.py:222-239 | the loop computes the integral of the last stated power and its mean |
| Charges.EnergyIsBounded | backend/app/history/segments.py:222-239 | the integral lies between the extreme powers over the measured time |
| Charges.AverageIsWithinBounds | backend/app/history/segments.py:237-239 | the mean lies between the extreme powers |
| Charges.EnergyIsAdditive | backend/app/history/segments.py:222-239 | cut where a power is stated, the integral is the sum of its halves |
| Charges.UnreportedTime | backend/app/history/segments.py:212-219 | the loop adds up the gaps over three times the promised interval |
| Charges.UnreportedIsBounded | backend/app/history/segments.py:212-219 | silence never exceeds the stretch, and is none exactly when every row kept its promise |
| SegmentSignals.SteadyChargeAddsUp | backend/app/history/segments.py:222-239 | at one power, stated at first and never contradicted, the energy is the power times the hours |
| SegmentSignals.GapCountsWhole | backend/app/history/segments.py:212-219 | a gap counts whole when it is over three times the promised interval, or 180 seconds without one |
| SegmentSignals.SilenceIsAdditive | backend/app/history/segments.py:212-219 | cut at any row, the silence is that of both parts |
| JobClaims.JobTable.RecoverExpiredLeases | backend/app/jobs/services.py:16-34 | exactly the expired jobs fail, with their running executions, and are counted |
| JobClaims.JobTable.ClaimJob | backend/app/jobs/services.py:37-58 | after reaping, the oldest claimable job is taken, or there is none |
| JobClaims.EveryRunFits | backend/app/worker.py:76-179 | over any number of workers and crashes, claims, starts and statuses fit together |
| JobClaims.ClaimedAndStartedOnce | backend/app/worker.py:76-179 | no job is claimed twice, no child started twice, no job held by two workers |
| JobClaims.CompletedJobHasEndedExecution | backend/app/worker.py:85-147 | a completed job leaves an execution that has ended |
| JobClaims.RunningExecutionIsReapable | backend/app/jobs/services.py:16-34 | a running execution's job is running too, exactly unless its lease was reaped before its child started |
| JobClaims.OverJobIsUnendedIff | backend/app/jobs/services.py:23-33 | when exactly a job that is over leaves its execution pending, and when running: by where the worker was when the lease was reaped and what it has done since |
| JobClaims.StrandedIff | backend/app/worker.py:85-179 | such an execution stays as it is for good exactly when no worker is left on its job |
| JobClaims.OverJobIsNeverReaped | backend/app/jobs/services.py:18-22 | a reaping after the job is over touches neither job nor execution |
| JobClaims.LateStartCanStrand | backend/app/worker.py:80-97 | a run that leaves an execution running under a failed job for good |
| JobClaims.DeadClaimStrandsPending | backend/app/jobs/services.py:30-33 | a run that leaves an execution pending under a failed job for good |
| JobClaims.LeaseLastsThreeMinutes | backend/app/jobs/services.py:13-24 | a reaping fails a claimed job exactly when the claim is over 180 seconds old |
| JobClaims.ReapedWithItsJob | backend/app/jobs/services.py:27-33 | and with it a running execution, no other |
| JobClaims.PendingJobIsUnlocked | backend/app/jobs/services.py:39-52 | in any run a job can be claimed exactly when it is pending and due |
| JobClaims.EndIsStored | backend/app/worker.py:119-147 | a child's end is stored as reported, with its job done and unlocked; no other row changes |
| JobClaims.ExceptionIsStored | backend/app/worker.py:163-177 | an exception fails the job and an execution that has not ended |
| JobClaims.ClaimAndStartAreStored | backend/app/worker.py:89-97 | a claim runs, counts and locks the job, a start runs the execution |
| JobClaims.NothingToRunCompletes | backend/app/worker.py:85-88 | a worker that finds the execution over completes the job without starting it again |
| Bits.AndSplits | agent/internal/profile/decoder.go:207-213 | a conjunction works on high and low bits apart |
| Bits.OrOfDisjoint | agent/internal/profile/decoder.go:205-205 | a disjunction of disjoint bits is a sum |
| Bits.AndAndOrAreBitwise | agent/internal/profile/decoder.go:205-212 | bit by bit, a conjunction has what both have and a disjunction what either has |
| Decoder.ReadWord | agent/internal/profile/decoder.go:193-206 | the byte loop sums the bytes at their places, most significant first under "big" and last under "little", never overflowing its word; any other order is refused |
| Decoder.DecodeRaw | agent/internal/profile/decoder.go:174-228 | the agent's whole raw decoding, refusals and sign extension included |
| DecoderValues.IntegersRead | agent/internal/profile/decoder.go:185-227 | a plain integer type reads its own number of bytes in its order, with two's complement if signed, or is refused |
| DecoderValues.ByteFieldsRead | agent/internal/profile/decoder.go:186-192 | a byte field reads the length and sign it states, from one byte to eight |
| DecoderValues.UnknownOrderIsRefused | agent/internal/profile/decoder.go:193-204 | any other byte order is refused |
| DecoderValues.SwitchesReadOneBit | agent/internal/profile/decoder.go:179-184 | a switch is one bit of one byte, for both decoders |
| DecoderValues.MaskedBits | agent/internal/profile/decoder.go:207-217 | a masked and shifted field has exactly the mask's bits of the slice, moved down |
| DecoderValues.OrdersExchange | agent/internal/profile/decoder.go:198-205 | reversing a frame exchanges the two byte orders |
| DecoderValues.TwoBytes | agent/internal/profile/decoder.go:198-205 | two bytes are 256 times the first plus the second, or the other way round |
| Decoder.SignExtensionIsTwosComplement | agent/internal/profile/decoder.go:219-225 | sign extension by or-ing ones is two's complement |
| Decoder.BigEndianIsPositional | agent/vehicle_agent/profile_decoder.py:84-84 | the value read is the sum of the bytes at their places |
| Decoder.TwosComplementFits | agent/vehicle_agent/profile_decoder.py:84-84 | a signed value lies in its width's range and differs by a whole turn at most |
| Decoder.DecodersAgreeOnUnsigned | agent/vehicle_agent/profile_decoder.py:62-90 | for unsigned fields, with any mask and shift, both decoders give the same |
| Decoder.DecodersAgreeOnPlainSigned | agent/vehicle_agent/profile_decoder.py:62-90 | and for signed fields without them |
| Decoder.NumbersAgreeIff | agent/vehicle_agent/profile_decoder.py:84-89 | when exactly they give the same number of one slice |
| Decoder.AgreementOfNumbers | agent/internal/profile/decoder.go:185-228 | the same for whole fields that both accept |
| Decoder.AcceptanceAgreesIff | agent/vehicle_agent/profile_decoder.py:72-82 | for every field, and in particular those the schema admits: when exactly both accept a frame or both refuse it |
| Decoder.DecodersAgreeIff | agent/internal/profile/decoder.go:174-228 | when exactly the two decoders give the same for a field and a frame |
| Decoder.ShiftedSignDiffers | agent/internal/profile/decoder.go:217-225 | a shifted negative number on which they differ |
| Decoder.MaskedSignDiffers | agent/internal/profile/decoder.go:207-225 | a masked sign bit on which they differ |
| Decoder.OmittedLengthDiffers | agent/vehicle_agent/profile_decoder.py:74-76 | a byte field without a length, refused by one decoder and read by the other |
| EditDistance.NextRow | frontend/src/canonicalHints.ts:19-27 | one row of the table after another |
| EditDistance.ComputeDistance | frontend/src/canonicalHints.ts:16-31 | the two-row loop computes the recursive edit distance of any two strings |
| EditDistance.DistanceIsZeroIffEqual | frontend/src/canonicalHints.ts:16-31 | zero exactly on equal strings |
| EditDistance.DistanceIsSymmetric | frontend/src/canonicalHints.ts:16-31 | symmetric |
| EditDistance.TriangleInequality | frontend/src/canonicalHints.ts:16-31 | the triangle inequality |
| EditDistance.ScriptsAreNoShorter | frontend/src/canonicalHints.ts:16-31 | no script of single edits is shorter than the distance |
| EditDistance.ShortestScript | frontend/src/canonicalHints.ts:16-31 | and one is exactly as long |
| CanonicalHints.SuggestCanonicalKey | frontend/src/canonicalHints.ts:43-72 | the three stages: same letters, same letters without the namespace, then the nearest key within tolerance, the first by name among equals |
| CanonicalHints.SuggestionIsUnique | frontend/src/canonicalHints.ts:50-51 | the suggestion does not depend on how the canonical keys are listed |
| CanonicalHints.SuggestionIsClose | frontend/src/canonicalHints.ts:62-71 | a suggestion is canonical, is not what was typed, and is within two edits of it |
| CanonicalHints.FlattenOne | frontend/src/canonicalHints.ts:12-14 | letters and digits are compared in small, anything else is dropped |
| CanonicalHints.UnqualifiedIsTheRest | frontend/src/canonicalHints.ts:57-57 | the namespace ends at the first dot |
| CanonicalHints.SuggestedIff | frontend/src/canonicalHints.ts:42-72 | a suggestion is made exactly when a canonical key has the same letters, with or without its namespace, or is within reach, written out |
| CanonicalHints.StagesInOrder | frontend/src/canonicalHints.ts:52-58 | the same letters go before the same without the namespace, and the first by name before others |
| CanonicalHints.NearMissIsNearest | frontend/src/canonicalHints.ts:60-71 | among near misses none is nearer, and of equally near ones none is before it by name |
| Text.StrippedIsCore | frontend/src/canonicalHints.ts:43-43 | stripping takes exactly the blanks at both ends |
| Text.FirstDifferenceDecides | frontend/src/canonicalHints.ts:50-50 | the order by name is that of the first difference |

## Left out

- Server.TelemetryServer.UpdateCurrentState: does not hold the readings and position of the row, which `Resolution` computes from the candidates, because the order in which the query lists those is left open.
- Server.TelemetryServer.IngestBatch: leaves the same two columns out.
- Runtime.Agent.Collect: takes the activity, the reason of an event and the health values of a sample as inputs.
- Python's identification of `True` with `1` and of `1` with `1.0` in row signatures and map keys.
- The order in which a query without an order clause lists rows; the tie-break of position rows at one instant; both are left open or follow the id.
- Floating point, including the loss of precision above 2^53 in decoded numbers; powers and energy are reals, time is whole microseconds, and distance is a function parameter.
- Text beyond ASCII: case folding, Unicode blanks, UTF-16 order.
- Segments' distance, speed and state-of-charge fields and the minimum duration: single expressions over one group.
- Decoder scaling, enumerations and sanity bounds; negative masks and masks wider than a word; negative offsets.
- Concurrent writers of one row and the advisory lock of hook state: each transaction is one step, and a hook's stored state is not a property here.
- The retry route of executions beyond making a new execution with a new job; unknown job types.
- The queue's schema upgrade, which discards samples (`agent/internal/store/queue.go:51-71`), and database errors other than a failed insert, a failed read of pending samples, a failed acknowledgement and a failed read of the last sequence.
- Runtime.List: the order of a sample's observations, by name of key, is left open.
- A release that changes a built-in profile under an unchanged version: built-in profiles are constant here.
- Connectors' status and retirement; a profile write that the decoder or mapping engine refuses.
- The announcements of the retrying owners, and the attachment and liveness answers they forward.
- The filter audit, supply voltage and event detection of the profile session; its timers are choices of a step.
- Authentication, access checks, HTTP, MQTT, serial ports, USB reset and the user interface.
