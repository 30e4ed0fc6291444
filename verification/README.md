# Verified model of the vehicle telemetry gateway

This project models the store-and-forward path of a vehicle telemetry system in
Dafny 4.11 and proves what it promises over whole runs: frames are produced by
simulated ECUs, encoded for the CAN bus, received, validated and published by an
edge gateway over MQTT; what cannot be published is kept in a durable buffer and
replayed after a reconnect. Around it stand the diagnostic analyzer, the
dashboard's bookkeeping and the self-check of the resilience demonstration.

`dafny verify dfyconfig.toml` checks everything.

## How the model is built

Each component has a specification in functions over values, an imperative class
or method in the shape of the source that is proved equal to it, and lemmas about
the functions that hold for every input or every run.

- **Codec and ECUs** (`CanSignalMap`, `Ingestion`, `Ecus`): bytes and little-endian
  words with their widths; scales, offsets and values are exact rationals; Python's
  `round` is round-half-to-even. A random draw is any number of its closed interval.
- **Buffer** (`TelemetryBuffers`): the database file is an object that outlives the
  `TelemetryBuffer` that opened it: pending rows in id order and the AUTOINCREMENT
  counter. A row's payload is the event itself.
- **Publisher** (`MqttPublishers`): connection flag, backoff and the two
  fault-injection hooks. What the broker and the clock answer is a parameter.
- **Gateway** (`Gateways`, `EdgeGateways`): `World` maps every interaction with the
  outside to the callbacks and hooks that ran before it and the answer it gets, so a
  statement about all worlds is a statement about every stream of failures,
  disconnects, outages and frames. `RunOnce` is one loop iteration; `Micro` cuts it
  into the atomic effects between which the process can be killed. Every iteration's
  result is proved to be reached by atomic effects, and the class to compute `RunOnce`. Publishes,
  inserts, deletes and reconnect attempts are entered in a journal. Event ids (UUIDs
  in the source) are the numbers of the decoded frames in order of arrival.
- **Analyzer** (`Clustering`, `Rules`, `RuleProperties`, `Analyzer`), **dashboard**
  (`DuplicateDetection`, `ActivityFeed`), **self-check** (`ResilienceDemo`,
  `GoodRun`, `SelfCheck`, `GoodRunExample`): as in the source, with clock readings,
  received messages and log records as inputs. A clock reading in the activity feed
  is what is shown of it, the ISO text.

## Main results

- The acknowledged events are strictly in arrival order over every run in which each
  failed publish leaves the link down (`OrderKeptWhileFailuresShow`,
  `AcknowledgedInArrivalOrder`), and over any number of crashes once repeats are left out
  (`AcknowledgedInOrderAcrossCrashes`). Without that hypothesis it is false: a live
  publish or a re-send that times out on an open link is overtaken (`TimeoutLosesOrder`,
  `FailedReplayLosesOrder`); nothing but overtaking breaks it (`OrderKeptUnlessOvertaken`).
  Which states keep the order for ever is decided by the state alone: in every world whose
  failed publishes disconnect exactly if no backlog is stranded, that is, buffered while
  the link is up and no replay is requested (`OrderKeptIffNotStranded`); in every world
  at all exactly if nothing is buffered and the buffer can hold nothing
  (`OrderKeptInEveryWorldIff`). The same can be told of overtaking in the next iteration
  (`OvertakingIsPossibleIffStranded`, `OvertakingIsPossibleIffBuffered`).
- Once the broker stays calm, one iteration reconnects and delivers the whole backlog in
  order before anything newer, unless it is stranded; a stranded backlog stays in the
  buffer however long the calm lasts (`CalmIteration`, `RecoversIffNotStranded`).
- No row is lost over any number of crashes between any two atomic effects
  (`NothingIsLost`), of the events not yet in the buffer each crash loses at most the
  one in hand (`CrashesLoseAtMostOneEventEach`), and each crash costs at most one batch of 100 repeated
  confirmations (`CrashesCostAtMostOneBatch`). The gateway's design document speaks of
  one re-send after a crash; the code deletes once per batch, and one crash can repeat
  all hundred rows (`OneCrashCanRepeatABatch`). The model follows the code.
- The batched replay is indistinguishable from the one-row-at-a-time queue, for every
  batch size and world (`ReplayRefinesSimpleLoop`, `ReplayConfirmsPrefix`).
- The counters account for every frame and row at each iteration and at each atomic
  step, frame by frame and effect by effect (`CountersBalanceAtBoundaries`,
  `ReplayExceedsBalanceByUndeleted`, `FramesAreCounted`, `CountersCountEffects`); the
  accepted events are published or stored unchanged and in order (`EventsArePassedOn`).
- Every good run passes the demonstration's self-check (`GoodRunPassesSelfCheck`), such
  runs exist (`OneGoodRun`), each check says what it should (`JudgeMeans`), and a passed
  check means that everything was delivered (`PassedMeansDelivered`).
- Reconnect attempts are exponentially spaced over every spell of every run
  (`AttemptsAreSpaced`, `DisconnectedMeansInSpell`), and the publisher's flags tell
  the truth about the socket (`FlagsMatchSocket`).
- Anomaly clusters are sound, complete, maximal and independent of the input's order;
  a rule reports on an ECU exactly when some window holds enough of its events
  (`ScanFindsAll`, `InputOrderDoesNotMatter`, `RulesReportTheirBursts`,
  `AnalysisIsIsolated`), and the analysis does so for each rule (`Analyze`).
- The duplicate counter is an exact stack-distance test (`DuplicateIsStackDistance`).

Results that limit the code:

- `dropped_count` equals the rows trimmed, by one call and over a whole history, exactly
  when `max_size` is not negative (`DroppedCountIsExact`, `CounterIsExactOverHistory`).
- A rule threshold below one leads to an `IndexError` on any non-empty input, through
  an empty cluster (`ClustersAreNonEmptyIffThreshold`, `Rules.Detect`).
- The odometer is the one unbounded signal; it stays accepted on every random stream
  exactly up to 49,374,974 ticks (`OdometerLimitIsExact`).
- `deque.remove` compares by value. Calls that share a clock reading can leave an entry
  at two places of the activity feed, and from then on later calls, whatever their
  reading, can be counted twice (`SharedReadingMiscounts`); when a call is, and when a
  whole run is exact, is characterised (`CallIsCountedOnceIff`, `FeedIsExactIffAllHit`).
- A successful `connect()` during a simulated outage makes publishing work although the
  outage was not cleared, and nothing else does (`OutageIsDefeatedOnlyByConnect`).

## Model

| member | source | states |
|---|---|---|
| `CanSignalMap.RoundHalfEven` | common/can_signal_map.py:150 | the nearest integer, at most half away, and on a tie the even one |
| `CanSignalMap.LittleEndianDigit` | common/can_signal_map.py:152 | byte i of a packed word is its i-th base-256 digit, lowest first |
| `CanSignalMap.UnpackInvertsPack` | common/can_signal_map.py:152-178 | every raw value that fits its type, negative 16-bit ones included, is unpacked unchanged |
| `CanSignalMap.PackInvertsUnpack` | common/can_signal_map.py:152-178 | every byte string of a type's length is the packing of what it unpacks to |
| `CanSignalMap.EncodeSignal` | common/can_signal_map.py:144-162 | writing the packed bytes over a zeroed eight-byte buffer yields the specified payload, and the unknown-id and does-not-fit errors |
| `CanSignalMap.DecodeOfEncodeIsNear` | common/can_signal_map.py:144-187 | for all signals, whatever can be encoded is decoded with its ECU and signal and within half a scale step of the value |
| `CanSignalMap.EncodeOfDecodeRestoresPayload` | common/can_signal_map.py:144-187 | re-encoding a decoded payload restores the signal's bytes and zeroes the unused ones |
| `CanSignalMap.RawRangeIsExact` | common/can_signal_map.py:95-132 | both ends of every valid range are representable words, and all words between them fit the type |
| `CanSignalMap.InRangeSurvivesTheWire` | common/can_signal_map.py:144-187 | every in-range value of every signal can be encoded and is still in range after decoding |
| `Ingestion.ReceiveKeepsContext` | edge_gateway/ingestion.py:57-61 | a decoded event carries the session, vehicle, fresh id and time it was given |
| `Ingestion.ReceiveIsExact` | edge_gateway/ingestion.py:48-77 | for every frame: unknown ids and payloads under eight bytes are ignored, of the others exactly those whose word lies in the signal's range are accepted, those below or above it rejected; the event carries the word's value |
| `Ingestion.AcceptanceIgnoresContext` | edge_gateway/ingestion.py:48-81 | acceptance depends on the bytes alone; exactly unknown ids and short payloads are ignored |
| `Ingestion.EncodedRawIsAccepted` | edge_gateway/validation.py:26-44 | a value whose raw word lies in the valid range is encodable and passes the range check after decoding |
| `Ecus.DriftReach` | simulation/ecus/battery_ecu.py:58-62 | a drift can produce exactly the values inside its bounds at most one step from the biased value, and a bound that pulls back what lies beyond it |
| `Ecus.BatteryReach` | simulation/ecus/battery_ecu.py:44-62 | the states one tick can lead to: each value within its step and bias of the old one and inside its bounds, all combinations |
| `Ecus.BatteryFramesTell` | simulation/ecus/battery_ecu.py:44-73 | the four frames of a tick decode to the ECU's four signals, each within half a scale step plus 0.005 of the new value |
| `Ecus.PowertrainReach` | simulation/ecus/powertrain_ecu.py:54-84 | the states one tick can lead to, with the reach of both speeds given by the new throttle |
| `Ecus.PowertrainFramesTell` | simulation/ecus/powertrain_ecu.py:54-84 | the three frames of a tick decode to the ECU's three signals, near the new values |
| `Ecus.BodyReach` | simulation/ecus/body_ecu.py:43-65 | the states one tick can lead to: at most one door toggled, any indicator state, up to 0.02 km, the ambient drift |
| `Ecus.BodyEventsNeedARoll` | simulation/ecus/body_ecu.py:47-51 | a door changes exactly on a roll below 0.05, the indicator is drawn anew exactly on one below 0.1 |
| `Ecus.BodyFramesTell` | simulation/ecus/body_ecu.py:43-76 | over every run the four frames decode to the ECU's four signals near the state, the odometer's up to its limit |
| `Ecus.BatteryECU.constructor` | simulation/ecus/battery_ecu.py:35-42 | the starting state |
| `Ecus.BatteryECU.Tick` | simulation/ecus/battery_ecu.py:44-56 | the new state and the four readings, all of which the gateway accepts |
| `Ecus.BatteryTickIsDelivered` | simulation/ecus/battery_ecu.py:44-73 | from any state and for all draws no battery frame is rejected |
| `Ecus.PowertrainECU.constructor` | simulation/ecus/powertrain_ecu.py:33-40 | the starting state |
| `Ecus.PowertrainECU.Tick` | simulation/ecus/powertrain_ecu.py:54-68 | the new state, steps widened by the new throttle, and the three readings, all accepted |
| `Ecus.PowertrainTickIsDelivered` | simulation/ecus/powertrain_ecu.py:54-84 | from any state and for all draws no powertrain frame is rejected |
| `Ecus.BodyECU.constructor` | simulation/ecus/body_ecu.py:34-41 | the starting state |
| `Ecus.BodyECU.Tick` | simulation/ecus/body_ecu.py:43-61 | the new state and the four readings |
| `Ecus.ToggleFlipsOneDoor` | simulation/ecus/body_ecu.py:47-49 | the XOR changes the state of the drawn door and of no other |
| `Ecus.BodyStateIsBounded` | simulation/ecus/body_ecu.py:43-65 | over every run: door mask at most 15, indicator 0 to 3, ambient in range, odometer grows at most 0.02 km a tick |
| `Ecus.BodyTickIsDelivered` | simulation/ecus/body_ecu.py:43-76 | over every run no door, indicator or ambient frame is rejected |
| `Ecus.OdometerLimitIsExact` | simulation/ecus/body_ecu.py:52-59 | the odometer frame is accepted after n ticks on all random streams if and only if n <= 49,374,974 |
| `TelemetryBuffers.TelemetryBuffer.constructor` | edge_gateway/buffer.py:65-105 | opening a file changes nothing in it and starts with no drops counted |
| `TelemetryBuffers.TelemetryBuffer.Enqueue` | edge_gateway/buffer.py:107-122 | append under a new id, then keep the newest max_size rows, on a file of any size; what dropped_count grows by |
| `TelemetryBuffers.TelemetryBuffer.TrimToMax` | edge_gateway/buffer.py:124-137 | deleting the ids of the overflow leaves the newest max_size rows; the returned and counted drops |
| `TelemetryBuffers.TelemetryBuffer.PeekBatch` | edge_gateway/buffer.py:139-148 | a prefix of the table, as long as the limit (the whole table for a negative one), with ascending ids that are below those of all other rows; nothing changes |
| `TelemetryBuffers.TelemetryBuffer.Remove` | edge_gateway/buffer.py:150-158 | exactly the rows with the given ids are gone; the id counter stays |
| `TelemetryBuffers.TelemetryBuffer.Count` | edge_gateway/buffer.py:160-162 | the number of rows |
| `TelemetryBuffers.DroppedCountIsExact` | edge_gateway/buffer.py:124-137 | one enqueue adds to the counter the rows really trimmed if and only if max_size is not negative |
| `TelemetryBuffers.CounterIsExactOverHistory` | edge_gateway/buffer.py:107-158 | over every history of one instance the counter is never less than the rows its enqueues trimmed, and equals them if and only if max_size is not negative or nothing was enqueued |
| `TelemetryBuffers.DeleteOldest` | edge_gateway/buffer.py:131-135 | deleting the ids of the first n rows leaves exactly the others |
| `TelemetryBuffers.HistoryKeepsIdentity` | edge_gateway/buffer.py:93-158 | over every history of enqueues and removals by any number of instances: ids strictly increase, the counter never goes back, an id never names another row |
| `TelemetryBuffers.StalePeekRemovesOnlyItsRows` | edge_gateway/buffer.py:139-158 | removing a batch peeked before any later traffic deletes exactly the rows of the batch still present |
| `TelemetryBuffers.BurstKeepsNewest` | edge_gateway/buffer.py:107-137 | any burst of enqueues leaves the newest max_size of everything appended, even on an oversized file |
| `MqttPublishers.MqttPublisher.constructor` | edge_gateway/mqtt_publisher.py:96-108 | the initial connection and fault-injection state |
| `MqttPublishers.MqttPublisher.Connect` | edge_gateway/mqtt_publisher.py:110-115 | success opens and resets the backoff; an exception changes no field |
| `MqttPublishers.MqttPublisher.HandleDisconnect` | edge_gateway/mqtt_publisher.py:124-132 | the flags after a real drop |
| `MqttPublishers.MqttPublisher.TryReconnect` | edge_gateway/mqtt_publisher.py:141-192 | the gate, the outage and intact-link branches, the doubled and capped backoff; true exactly when connected afterwards |
| `MqttPublishers.MqttPublisher.Publish` | edge_gateway/mqtt_publisher.py:194-221 | forced failures first, then the connection, then the acknowledgement; true exactly when the broker acknowledged |
| `MqttPublishers.MqttPublisher.Disconnect` | edge_gateway/mqtt_publisher.py:223-232 | disconnected, outage and intact-link flags cleared |
| `MqttPublishers.MqttPublisher.InjectPublishFailures` | edge_gateway/mqtt_publisher.py:234-240 | the next publishes that fail |
| `MqttPublishers.MqttPublisher.ClearInjectedFailures` | edge_gateway/mqtt_publisher.py:242-243 | no forced failures left |
| `MqttPublishers.MqttPublisher.InjectConnectionOutage` | edge_gateway/mqtt_publisher.py:245-263 | outage on; a connected link counts as disconnected with its socket intact |
| `MqttPublishers.MqttPublisher.ClearConnectionOutage` | edge_gateway/mqtt_publisher.py:265-272 | outage off without becoming connected |
| `MqttPublishers.MqttPublisher.HandleExternal` | edge_gateway/mqtt_publisher.py:124-272 | a sequence of callbacks and hooks has the effect of its elements one by one |
| `LinkSafety.FlagsMatchSocket` | edge_gateway/mqtt_publisher.py:110-272 | over every interleaving: the socket is open exactly if connected or link intact; connected implies backoff 1 and no wait; disconnect closes it |
| `LinkSafety.ReconnectOnlyWhenClosed` | edge_gateway/mqtt_publisher.py:169-175 | client.reconnect() is only called while the socket is closed |
| `LinkSafety.NothingAcknowledgedDuringOutage` | edge_gateway/mqtt_publisher.py:163-232 | from inject to clear, disconnect or a new connect nothing is acknowledged and no reconnect succeeds |
| `LinkSafety.OutageIsDefeatedOnlyByConnect` | edge_gateway/mqtt_publisher.py:110-115 | over every sequence of operations during an outage without clear or disconnect, the publisher gets connected at some point if and only if some connect succeeds |
| `LinkSafety.ClearedOutageRecovers` | edge_gateway/mqtt_publisher.py:163-181 | after inject and clear the next due attempt restores the very same connection without a client call |
| `LinkSafety.DisconnectEndsOutage` | edge_gateway/mqtt_publisher.py:223-232 | whatever happened during an outage, disconnect ends it, and the next due reconnect succeeds exactly if it is answered |
| `LinkSafety.FailuresAreUsedUp` | edge_gateway/mqtt_publisher.py:194-243 | over every run without the two hooks each publish uses up one forced failure, down to zero |
| `LinkSafety.ExactlyCountPublishesFail` | edge_gateway/mqtt_publisher.py:194-240 | after injecting count failures exactly the first count publishes are failed by the hook, without touching the connection, and each later one is acknowledged if and only if connected and answered |
| `LinkSafety.ClearedFailuresAreGone` | edge_gateway/mqtt_publisher.py:242-243 | after clearing them no publish is failed by the hook |
| `ReconnectPacing.SpellKeepsPace` | edge_gateway/mqtt_publisher.py:156-192 | anywhere in a disconnected spell: the exact backoff, the exact next instant, the spacing of all attempts made |
| `ReconnectPacing.AttemptsAreSpaced` | edge_gateway/mqtt_publisher.py:188-191 | attempts i and j of a spell lie at least 2^k - 1 seconds apart for k = j - i <= 5, then 31 + 30 (k - 5) |
| `ReconnectPacing.AttemptsInWindow` | edge_gateway/mqtt_publisher.py:188-191 | a closed bound on the attempts in any T seconds of a spell |
| `ReconnectPacing.AttemptIsDue` | edge_gateway/mqtt_publisher.py:159-161 | a call really attempts if and only if the computed instant is reached, hence always 30 s after the last failure |
| `ReconnectPacing.DisconnectedMeansInSpell` | edge_gateway/mqtt_publisher.py:141-192 | every disconnected state of every run lies in a spell that began with a reset backoff |
| `Gateways.ReplayBatch` | edge_gateway/gateway.py:160-168 | the loop over a batch changes no row and confirms a prefix of it |
| `Gateways.ConfirmedAreDeleted` | edge_gateway/gateway.py:170-171 | deleting a confirmed prefix leaves exactly the other rows |
| `Gateways.WithEventRows` | edge_gateway/gateway.py:131-133 | buffering an event keeps the newest rows of the old ones and the new one; what is trimmed and what is kept make up the whole |
| `Gateways.RunOnceKeeps` | edge_gateway/gateway.py:86-180 | what every atomic effect preserves, one iteration preserves |
| `Gateways.IterateKeeps` | edge_gateway/gateway.py:182-191 | what every atomic effect preserves holds at every iteration boundary of every run |
| `Gateways.MicrosKeep` | edge_gateway/gateway.py:86-180 | what every atomic effect preserves holds between any two of them |
| `Gateways.BoundariesAreReachable` | edge_gateway/gateway.py:86-191 | the state after any number of iterations is reached by a number of atomic effects |
| `ReplayRefinement.BatchRefines` | edge_gateway/gateway.py:160-168 | one batch runs in lockstep with the loop that deletes each row at once |
| `ReplayRefinement.ReplayRefinesSimpleLoop` | edge_gateway/gateway.py:141-180 | for every batch size and world: the same publish calls and outcomes, the same state, the same answer as the one-row-at-a-time loop |
| `ReplayRefinement.ReplayConfirmsPrefix` | edge_gateway/gateway.py:141-180 | replay confirms the oldest k rows in order, deletes and counts exactly them, tries at most one more, and answers true exactly when the table is empty |
| `DeliveryOrder.AcknowledgedInArrivalOrder` | edge_gateway/gateway.py:86-206 | if failed publishes disconnect, all acknowledgements of every run are strictly in arrival order, at every atomic step |
| `DeliveryOrder.NoLiveEventOvertakes` | edge_gateway/gateway.py:122-130 | in such runs a live event is acknowledged only while nothing is buffered |
| `DeliveryOrder.OvertakingIsPossibleIffStranded` | edge_gateway/gateway.py:92-130 | with no publish failures injected: in some world whose failed publishes disconnect, live traffic overtakes in the next iteration if and only if rows are buffered, the link is up and no replay is requested |
| `DeliveryOrder.OrderKeptUnlessOvertaken` | edge_gateway/gateway.py:86-206 | over every run of atomic steps, whatever fails and however: if no live event was acknowledged over buffered rows, all acknowledgements are in arrival order |
| `DeliveryOrder.OrderKeptWhileFailuresShow` | edge_gateway/gateway.py:86-206 | if each failed publish of this run so far left the link down, injected failures included, all acknowledgements so far are in arrival order |
| `Recovery.CalmReplayDrains` | edge_gateway/gateway.py:141-180 | under a calm broker a replay of any length acknowledges the whole table in order, empties it and answers true |
| `Recovery.CalmIteration` | edge_gateway/gateway.py:86-139 | one iteration under a calm broker reconnects if it has to, delivers the backlog in order and then at most the arriving event; a stranded backlog stays |
| `Recovery.RecoversIffNotStranded` | edge_gateway/gateway.py:86-191 | after any number of calm iterations the table is empty if and only if the backlog was not stranded; a stranded one is unchanged and still stranded |
| `OrderLimits.OvertakingIsPossibleIffBuffered` | edge_gateway/gateway.py:92-130 | over all worlds and all gateway states: in some world live traffic overtakes in the next iteration if and only if rows are buffered |
| `OrderLimits.OrderKeptIffNotStranded` | edge_gateway/gateway.py:86-206 | with no publish failures injected, from any state ordered so far: all acknowledgements stay in arrival order in every world whose failed publishes disconnect, for ever, if and only if the backlog is not stranded |
| `OrderLimits.OrderKeptInEveryWorldIff` | edge_gateway/gateway.py:86-206 | from any state ordered so far: they stay in order in every world, for ever, if and only if nothing is buffered and max_size is not positive |
| `OrderLimits.FailedReplayIsOvertaken` | edge_gateway/gateway.py:96-130 | a replay that is due and whose first re-send times out on an open link is followed by a live publish in the same iteration, which overtakes the backlog |
| `OrderLimits.FailedReplayLosesOrder` | edge_gateway/gateway.py:96-139 | a concrete stream of answers for which a gateway restarted on any backlog acknowledges the new event first and all the older rows after it |
| `OrderLimits.TimeoutLosesOrder` | edge_gateway/gateway.py:92-139 | a concrete run with one publish timeout on an open link in which event 1 is acknowledged before event 0 |
| `CrashSafety.NothingIsLost` | edge_gateway/gateway.py:131-180 | over any number of crashes at any atomic effect, every row ever in the file is there, confirmed or trimmed |
| `CrashSafety.CrashesCostAtMostOneBatch` | edge_gateway/gateway.py:153-180 | confirmed rows still in the table are its oldest, at most 100; k crashes repeat at most 100 k confirmations; without the repeats they are in id order |
| `CrashSafety.OneCrashCanRepeatABatch` | edge_gateway/gateway.py:158-171 | one crash between confirming a batch and deleting it makes the next process confirm all 100 rows again |
| `OrderAcrossCrashes.AcknowledgedInOrderAcrossCrashes` | edge_gateway/gateway.py:86-206 | if failed publishes disconnect in every process, all acknowledgements, live and replayed, over any number of crashes at any atomic effect, are in arrival order once repeats are left out |
| `EndToEnd.CrashesLoseAtMostOneEventEach` | edge_gateway/gateway.py:105-180 | over any number of crashes in any worlds, every decoded event was refused, acknowledged live, or stored and is in the table, confirmed or trimmed, or is the one in hand; except at most one per crash |
| `Conservation.CountersBalanceAtBoundaries` | edge_gateway/gateway.py:101-180 | after every iteration: table = initial + buffered - replayed - dropped, buffered = publish failures, received = ignored + rejected + processed + failures |
| `Conservation.ReplayExceedsBalanceByUndeleted` | edge_gateway/gateway.py:158-171 | at every atomic step the table exceeds that balance by exactly the confirmed, undeleted rows |
| `Conservation.DropCountIsExactOverRuns` | edge_gateway/gateway.py:131-134 | at every atomic step and boundary of every run the drop count is the number of rows the run's inserts trimmed |
| `Conservation.EcuTrafficIsNeverRejected` | edge_gateway/gateway.py:101-139 | if every frame encodes a reading of a battery or powertrain tick from any state, or of the body ECU within its safe number of ticks, nothing is rejected and received = processed + buffered |
| `FrameAccounting.FramesAreCounted` | edge_gateway/gateway.py:101-139 | at every atomic step of every run: received, ignored and rejected are the numbers of frames taken, of unknown ids or short payloads, and of words outside their range; processed plus failures plus the one in hand is the number of the others |
| `FrameAccounting.CountersCountEffects` | edge_gateway/metrics.py:78-98 | at every atomic step of every run each counter is the number of effects of its kind: acknowledged and failed live publishes, inserts, confirmed re-sends, refusals |
| `FrameAccounting.EventsArePassedOn` | edge_gateway/gateway.py:105-139 | the events of the accepted frames are published or tried, each once, unchanged and in order; those that failed are inserted in the same order; only the one in hand is still to come |
| `FrameAccounting.RowsSayTheirEvents` | edge_gateway/gateway.py:122-180 | at every atomic step of every run each row stored, kept, sent again or deleted has the event id, vehicle, ECU and signal of the event it carries |
| `EdgeGateways.EdgeGateway.constructor` | edge_gateway/gateway.py:57-84 | a gateway that requests no replay, with zero counters, on the given buffer and publisher |
| `EdgeGateways.EdgeGateway.Reconnect` | edge_gateway/gateway.py:92-94 | one reconnect attempt; a replay is requested when it reports a connection |
| `EdgeGateways.EdgeGateway.SendRow` | edge_gateway/gateway.py:163-166 | one row: the publish, its outcome, and the replay counter |
| `EdgeGateways.EdgeGateway.SendBatch` | edge_gateway/gateway.py:158-168 | the batch loop computes the specified state and confirmed prefix |
| `EdgeGateways.EdgeGateway.NextBatch` | edge_gateway/gateway.py:154 | the oldest rows, at most one batch |
| `EdgeGateways.EdgeGateway.RemoveConfirmed` | edge_gateway/gateway.py:170-171 | the confirmed rows are deleted, and only if there are any |
| `EdgeGateways.EdgeGateway.ReplayBuffered` | edge_gateway/gateway.py:141-180 | the while-True loop terminates and computes the specified replay and answer |
| `EdgeGateways.EdgeGateway.RunOnce` | edge_gateway/gateway.py:86-139 | one iteration computes the specified next state |
| `EdgeGateways.EdgeGateway.ReceiveOne` | edge_gateway/gateway.py:101-139 | receive, filter, validate, then publish or buffer; rejected and ignored grow by one exactly for a word out of range and an unreadable frame |
| `EdgeGateways.EdgeGateway.PublishOrBuffer` | edge_gateway/gateway.py:122-139 | an acknowledged event is counted, any other one is counted and buffered |
| `EdgeGateways.EdgeGateway.BufferEvent` | edge_gateway/gateway.py:133-134 | the event is stored and counted |
| `EdgeGateways.EdgeGateway.Run` | edge_gateway/gateway.py:182-206 | n iterations from the start state, a replay requested on a backlog, the final snapshot, and the pending depth unless a caller has closed the buffer |
| `EdgeGateways.EdgeGateway.MetricsSnapshot` | edge_gateway/gateway.py:208-211 | the counters with the buffer's own drop count |
| `EdgeGateways.GatewayMetrics.constructor` | edge_gateway/metrics.py:62-74 | all counters zero |
| `EdgeGateways.GatewayMetrics.RecordProcessed` | edge_gateway/metrics.py:78-80 | this counter grows by one, no other changes |
| `EdgeGateways.GatewayMetrics.RecordRejected` | edge_gateway/metrics.py:82-84 | this counter grows by one, no other changes |
| `EdgeGateways.GatewayMetrics.RecordPublishFailure` | edge_gateway/metrics.py:86-88 | this counter grows by one, no other changes |
| `EdgeGateways.GatewayMetrics.RecordBuffered` | edge_gateway/metrics.py:90-92 | this counter grows by one, no other changes |
| `EdgeGateways.GatewayMetrics.RecordReplayed` | edge_gateway/metrics.py:94-98 | a negative count is refused without effect; otherwise this counter alone grows by it |
| `ResilienceDemo.IsSubsequenceIffEmbeds` | scenarios/resilience_demo.py:223-226 | the consumed-iterator check is true if and only if strictly increasing positions of the needles exist, repeats included |
| `ResilienceDemo.JudgeMeans` | scenarios/resilience_demo.py:447-492 | each of the ten checks as an if-and-only-if on the log, what was received, and the gateway's counters and depth |
| `ResilienceDemo.OnTopicIsExact` | scenarios/resilience_demo.py:500-506 | a topic's group holds exactly the received buffered ids of that ECU and signal, in order |
| `ResilienceDemo.ByIdIsLastCopy` | scenarios/resilience_demo.py:442 | an id is looked up exactly if it was received, and the copy received last is found |
| `ResilienceDemo.GatewayLogRecorder.constructor` | scenarios/resilience_demo.py:148-151 | no records |
| `ResilienceDemo.GatewayLogRecorder.Emit` | scenarios/resilience_demo.py:153-155 | the record is appended |
| `ResilienceDemo.GatewayLogRecorder.CollectEventIds` | scenarios/resilience_demo.py:161-162 | the event ids of the lines with a message, in order |
| `ResilienceDemo.GatewayLogRecorder.CollectReplayedEventIds` | scenarios/resilience_demo.py:164-169 | the concatenated id lists of the replay lines |
| `ResilienceDemo.GatewayLogRecorder.FirstIndex` | scenarios/resilience_demo.py:424 | the first line with the message |
| `ResilienceDemo.GatewayLogRecorder.LastIndex` | scenarios/resilience_demo.py:425 | the last line with the message |
| `ResilienceDemo.GatewayLogRecorder.NonePublishedBetween` | scenarios/resilience_demo.py:451 | true if and only if no published line lies in the slice |
| `ResilienceDemo.Verify` | scenarios/resilience_demo.py:418-497 | fails exactly on a log without a buffered or a replay line, times out exactly if something acknowledged did not arrive, else answers each check, from the first buffered to the last replay line, by what it means |
| `SelfCheck.GoodRunPassesSelfCheck` | scenarios/resilience_demo.py:418-497 | every run that starts empty, whose failed publishes disconnect, without drops or rejects, with one drained period and a faithful subscriber passes all ten checks |
| `SelfCheck.PassedMeansDelivered` | scenarios/resilience_demo.py:447-470 | if all checks pass, something was buffered, the replay order is the buffering order, nothing was published in between, every buffered event was received with this run's identity, any two are in time order and, per topic, in order of reception; the gateway reconnected, the buffer is empty, some event published after the last replay line was received, and every counter equals its number of log lines |
| `GoodRunExample.OneGoodRun` | scenarios/resilience_demo.py:418-497 | one concrete run with one outage meets all those hypotheses and passes |
| `GoodRun.LogTells` | scenarios/resilience_demo.py:161-169 | the ids in the log are exactly those of the rows stored, rows deleted after replay and events published |
| `Clustering.ExtendRun` | analyzer/rules.py:89-94 | the inner loop finds the specified end of the run |
| `Clustering.ClusterByWindow` | analyzer/rules.py:71-101 | the nested loops compute the specified clusters, for every threshold and window |
| `Clustering.ScanFindsAll` | analyzer/rules.py:85-101 | the clusters are ordered, disjoint, maximal runs of at least threshold events, and no qualifying event lies before, between or after them |
| `Clustering.QualifyingIsClustered` | analyzer/rules.py:85-101 | every event that starts a qualifying run lies in some cluster |
| `Clustering.SpanProperties` | analyzer/rules.py:85-101 | each cluster is a maximal run after the end of all earlier ones |
| `Clustering.UnclusteredIsQuiet` | analyzer/rules.py:85-101 | scanning what no cluster contains finds nothing |
| `Clustering.TiesAreNotSplit` | analyzer/rules.py:85-101 | no cluster edge separates events with equal timestamps |
| `Clustering.ClustersAreNonEmptyIffThreshold` | analyzer/rules.py:88-113 | every cluster has a first event if and only if the threshold is at least one |
| `Clustering.NegativeWindowFindsSingles` | analyzer/rules.py:88-100 | under a negative window a threshold of one makes every event a cluster, a higher one finds nothing |
| `Rules.SortSorts` | analyzer/rules.py:66-67 | the sort yields the same events in time order |
| `Rules.SortIsStable` | analyzer/rules.py:66-67 | events with equal timestamps keep their order |
| `Rules.FillGroups` | analyzer/rules.py:63-65 | the dict holds per ECU its events in input order, keys in order of first event |
| `Rules.SortGroups` | analyzer/rules.py:66-67 | every list is sorted, no key is added or lost |
| `Rules.GroupByEcu` | analyzer/rules.py:58-68 | the ECUs in order of first event, each with its sorted events |
| `Rules.ReportClusters` | analyzer/rules.py:104-123 | one report per cluster in order; fails exactly if some cluster is empty |
| `Rules.DetectInGroup` | analyzer/rules.py:126-159 | the reports of one ECU, or IndexError for a threshold below one |
| `Rules.DetectInGroups` | analyzer/rules.py:139-159 | the reports over the groups in order |
| `Rules.Detect` | analyzer/rules.py:126-237 | the specified findings; with a threshold below one, IndexError on every non-empty input |
| `RuleProperties.InputOrderDoesNotMatter` | analyzer/rules.py:58-123 | any permutation of the input gives per ECU and rule the same clusters as sets of events and the same detected_at |
| `RuleProperties.ReportedIffBurst` | analyzer/rules.py:126-237 | a rule reports on an ECU if and only if some window of time holds at least threshold of the events it looks at |
| `RuleProperties.RulesReportTheirBursts` | analyzer/rules.py:139-219 | each rule reports on an ECU if and only if some window holds threshold input positions of that ECU: negative responses; ReadDTCInformation events; positive ones of these with P0217 in the summary |
| `RuleProperties.FindingsFollowEcus` | analyzer/rules.py:139-159 | a rule's reports name it and come in the order in which their ECUs were first seen |
| `RuleProperties.P0217ReportStartsInDtcReport` | analyzer/rules.py:162-237 | with a P0217 window no longer than the DTC window, every P0217 report of the rules on an ECU with enough events begins inside a DTC-query report of the rules on that ECU |
| `RuleProperties.ReportDescribesRun` | analyzer/rules.py:58-123 | a rule's reports on any ECU correspond one by one to the maximal runs of the events it looks at there: the k-th names the rule and its severity and lists the event ids of the k-th maximal run in time order, its first vehicle and ECU, and its latest time, at most the window after its earliest |
| `RuleProperties.FindingsAreIsolated` | analyzer/rules.py:58-237 | a rule's reports on one ECU are exactly its reports on that ECU's events alone |
| `Analyzer.Analyze` | analyzer/analyzer.py:69-102 | fails exactly on non-empty input under a threshold below one; else each rule reports on exactly the ECUs whose events meet its own threshold and window, and the reports stand in the fixed order of the rules; empty input gives nothing |
| `Analyzer.AnalysisSplitsByRule` | analyzer/analyzer.py:79-102 | the reports of each rule are its findings by its own fields of the configuration |
| `Analyzer.AnalysisIsIsolated` | analyzer/analyzer.py:69-102 | the reports on one ECU are, in order, the analysis of that ECU's events alone |
| `DuplicateDetection.DashboardState.constructor` | dashboard/backend/state.py:93-100 | an empty set and zero counters |
| `DuplicateDetection.DashboardState.IngestTelemetry` | dashboard/backend/state.py:110-149 | set and counters stay functions of the deliveries; a delivery is accepted exactly if it fits, and counted as a duplicate exactly if its id came before with fewer than 5000 distinct other ids since |
| `DuplicateDetection.DashboardState.CountDelivery` | dashboard/backend/state.py:135-142 | the accounting of one accepted event |
| `DuplicateDetection.DashboardState.Remember` | dashboard/backend/state.py:151-156 | insert or move to the end, then drop the oldest down to the limit |
| `DuplicateDetection.SeenIsMostRecent` | dashboard/backend/state.py:151-156 | the set holds exactly the limit most recently delivered ids, in order |
| `DuplicateDetection.DuplicateIsStackDistance` | dashboard/backend/state.py:140-142 | membership in the set is the stack-distance test on the history, for every limit |
| `DuplicateDetection.DuplicatesCountRepeats` | dashboard/backend/state.py:140-142 | duplicates are at most received minus distinct, with equality up to limit distinct ids |
| `DuplicateDetection.SeriesIsSampled` | dashboard/backend/state.py:177-180 | the chart holds at most 120 delivered points, at least half a second apart, and no delivery is half a second past the newest |
| `DuplicateDetection.SeriesIsNewestSamples` | dashboard/backend/state.py:177-180 | the chart shows the newest 120 of all samples ever taken |
| `DuplicateDetection.AcceptedOnlyOnItsTopic` | dashboard/backend/state.py:117-133 | a finite event that arrives under its own topic is accepted up to 16384 bytes; under the topic of another vehicle, ECU or signal it is malformed |
| `ActivityFeed.Activity.constructor` | dashboard/backend/state.py:97 | an empty feed |
| `ActivityFeed.Activity.AddActivity` | dashboard/backend/state.py:209-222 | the loop over the last four entries, the removal by value, the update in place and the bounded append compute the specified feed |
| `ActivityFeed.NewestEntryIsTheCall` | dashboard/backend/state.py:215-222 | after any call the newest entry shows that call's time, source, level, message and fields, with count one or one more than the entry it repeats |
| `ActivityFeed.CallShows` | dashboard/backend/state.py:215-222 | a call that repeats none of the last four entries adds one and keeps the newest 199 others; one that repeats an entry no equal entry precedes moves it to the end, updated; no other entry changes |
| `ActivityFeed.CallIsCountedOnceIff` | dashboard/backend/state.py:215-222 | from any feed, a call is accounted for once if and only if it repeats nothing recent, or an entry whose object stands in the deque once and that no equal entry precedes |
| `ActivityFeed.CallAddsItsPlaces` | dashboard/backend/state.py:215-222 | from any feed, a call adds the number of places at which its object stands afterwards |
| `ActivityFeed.FeedIsExactIffAllHit` | dashboard/backend/state.py:209-222 | over every run no call is lost, and the counts shown plus evicted equal the calls if and only if each call met that condition |
| `ActivityFeed.FeedConservesCalls` | dashboard/backend/state.py:209-222 | if no two calls share a clock reading: counts shown plus counts evicted equal the calls, at most 200 entries, the newest four differ in source or message |
| `ActivityFeed.SharedReadingMiscounts` | dashboard/backend/state.py:215-220 | seven calls in one clock tick for which the feed accounts for eight, and an eighth with a reading of its own that is counted twice as well |

## Left out

- paho-mqtt, TLS and sockets: a publish is acknowledged or not, a reconnect succeeds or
  not, and a disconnect callback may come at any time; the client library's own
  background resends are not modelled.
- SQLite itself: each statement or transaction is atomic and AUTOINCREMENT ids are fresh.
- Threads: callbacks and hooks run between two interactions of the gateway, not inside one
  of its methods; locks are not modelled.
- Floating point: scale, time and values are exact rationals.
- Whether a broker that did not acknowledge in time has the message: it may or may not.
- JSON, UUIDs, `enqueued_at`, log text, report titles, descriptions and anomaly ids.
- UDS server and client, DTC text and the fault-injection context managers.
- The dashboard's vehicle and session tables, receive rate, replay summary and
  `derive_resilience_state`: plain bookkeeping beside the parts modelled.
- The demonstration's driver, its waiting and cleanup, and the fields it only reports
  (maximal buffer depth, counts before and after the outage, duplicates received).
- LLM explainer, HTTP and SSE server, frontend, infrastructure files.
- The random generator: each draw is any value of its interval.
- ResilienceDemo.Verify: the five-second wait for arrivals is its outcome only, all arrived
  or not.
- SelfCheck.GoodRunPassesSelfCheck: a faithful subscriber, which keeps the acknowledged
  order per topic and may receive copies, is a hypothesis, because delivery from broker to
  subscriber is outside the repository.
- Analyzer.Analyze: which ECUs are reported on is stated for windows that are not negative;
  what a rule finds under a negative one is `Clustering.NegativeWindowFindsSingles`.
- EdgeGateways.EdgeGateway.Run: an exception out of an iteration, after which the summary is
  logged and the exception goes on, is not modelled; no modelled operation raises one.
- Rules.SortGroups: Python's stable sort is modelled by a stable insertion sort with the
  same result, not by its algorithm.
