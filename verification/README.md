# Loggregator: a verified model

Loggregator carries logs and metrics from metron agents through dopplers to traffic controllers and syslog
drains. This project models its stateful core in Dafny and proves what it guarantees over whole runs. Goroutines
are interleaved at their locks, atomic operations and channel operations; maps are walked in any order; random
picks, failing writes and timeouts are arbitrary. Where the source changes objects and maps step by step there is
a class or a method with its loops, proved against a function or a state machine about which the theorems speak.

`dafny verify dfyconfig.toml` checks everything.

| modules | what they model |
|---|---|
| ConnectorState, ConnectorBasics, ConnectorRegistry, ConnectorCoverage, ConnectorSlots, ConnectorReaders, ConnectorStreams, ConnectorFindings, ConnectorEvents, ConnectorCode, ConnectorObjects, Pool | the doppler connection registry and subscription fan-in |
| Envelopes, RoundTrip, ConversionFacts, ConversionCode, Text, Uuids, Floats | the v1 and v2 envelope translators |
| TruncatingBuffer, TruncatingBufferCode, SyslogSink, SyslogFrames | the truncating buffer, the syslog sink and what it writes |
| Router | the doppler's subscription index |
| Averager, Frames, BatchWriter, BatchWriterCode, TagHash, Counters, Transponder | metron's egress |
| ContainerMetrics, DumpRing, SinkRegistry, SinkFacts, SinkRegistryCode | the doppler's caches and sink registry |
| Election, ElectionCode, DrainWatcher | leader election and the drain watcher |

## What does not hold

For each of these the members named give a failing case, the exact condition, or both.

- Connector: registry and coverage hold up to a state if and only if no event repeats a URI and no client is
  closed while a spawned reader has yet to count itself (`RunExact`, `OrphanedDoppler`). A doppler that is missing
  from one event only can lose a subscriber's stream for good: streams stay up if and only if every event that
  brings a doppler back still finds its readers at work and none leaving (`FlapLosesStream`, `StreamsExact`).
- Translators: with preferred tags an error comes back as a log message and a gauge loses its base fields
  (`PreferredLoses`, `RoundTripExact`). Of a preferred and a deprecated tag of one name the preferred one wins in
  the base fields and the deprecated one in the tag map (`PreferredBaseWins`, `DeprecatedWins`), and a counter sent
  as a delta loses it (`CounterTotals`).
- Truncating buffer: a reader that takes a notice inside the drain window makes the announced loss wrong, and
  possibly wrap around (`WindowUnderflow`, `DeltaExact`, `AnnouncedExact`).
- Router: an envelope with an empty app id is delivered twice (`LookupsAreScan`, `SendTo`).
- Averager: a wrap of the 48-bit byte field is not repaired, unlike one of the count (`WrapShows`, `TickExact`).
- Batch writer: batches may overtake each other (`Overtaken`, `AcceptanceOrderExact`), and the frame length wraps at
  2^32 (`ReadFramed`).
- Sink registry: a second unregistration can close a successor's channel (`SuccessorClosed`, `ClosesOwnExact`).
- Election: two instances can update drains together if and only if leases have an end (`TwoUpdaters`,
  `TwoUpdatersExact`), and then only once one of the leases has run out (`TwoUpdatersExpired`).
- Pool: the sum of loop index and random start can overflow to a negative index (`SeedOverflows`, `FetchClient`).
- Drain watcher: a binding is known by app and URL, so a put that changes only the hostname is neither cached nor
  emitted (`HostnameIgnored`, `CurrentExact`, `Watcher.Add`).

## Model

| member | source | states |
|---|---|---|
| ConnectorCoverage.StepExact | src/code.cloudfoundry.org/loggregator/plumbing/grpc_connector.go:177-299 | From any state satisfying the registry and coverage invariant, any step of the finder, a subscriber or a reader keeps it if and only if the step is safe: the event repeats no URI, and no client is closed while a spawned reader has yet to count itself |
| ConnectorCoverage.RunExact | src/code.cloudfoundry.org/loggregator/plumbing/grpc_connector.go:177-299 | A whole run keeps the invariant up to a state if and only if every step up to it was safe |
| ConnectorCoverage.PromptSafe | src/code.cloudfoundry.org/loggregator/plumbing/grpc_connector.go:214-299 | If events repeat no URI and each spawned reader counts itself before the write lock is next taken, all steps of the run are safe |
| ConnectorCoverage.RegistryTheorem | src/code.cloudfoundry.org/loggregator/plumbing/grpc_connector.go:214-299 | On such runs, between events: client URIs are unique, the pool's registered set is the set of client URIs, `refCount` is the number of active readers, `disconnect` holds exactly for URIs missing from the latest event, and the list is exactly the advertised URIs plus those still being read |
| ConnectorCoverage.CoverageTheorem | src/code.cloudfoundry.org/loggregator/plumbing/grpc_connector.go:177-236 | However `Subscribe` and events interleave, every live consumer whose `Subscribe` finished has had a reader started for every listed client |
| ConnectorCoverage.Rival | src/code.cloudfoundry.org/loggregator/plumbing/grpc_connector.go:282-285 | A reader turned away by `tryAddDoppler` gives way to another reader of the same consumer on the very same client |
| ConnectorCoverage.OneReaderPerPair | src/code.cloudfoundry.org/loggregator/plumbing/grpc_connector.go:418-436 | On every schedule no (consumer, URI) pair has two active readers |
| ConnectorCoverage.SlotNeverStolen | src/code.cloudfoundry.org/loggregator/plumbing/grpc_connector.go:371-385 | On every schedule a slot that changes hands was empty or held a dead consumer |
| ConnectorBasics.BasicAlways | src/code.cloudfoundry.org/loggregator/plumbing/grpc_connector.go:177-299 | With no assumption on the schedule: slots are claimed safely, doppler sets list exactly the URIs being read, reference counts count readers, listed clients are distinct |
| ConnectorBasics.SlotsClaimed | src/code.cloudfoundry.org/loggregator/plumbing/grpc_connector.go:373-381 | The compare-and-swap keeps the slot invariant: what it replaces was free when loaded and still is |
| ConnectorSlots.RefusedExplained | src/code.cloudfoundry.org/loggregator/plumbing/grpc_connector.go:371-385 | On every schedule, a subscriber turned away at the limit had a reason at each slot: it saw a live consumer there, or lost the compare-and-swap to a change since its look |
| ConnectorSlots.FreeSlotFound | src/code.cloudfoundry.org/loggregator/plumbing/grpc_connector.go:371-385 | A subscriber during whose scan some slot stays empty or held by a dead consumer, untouched by others, gets a slot |
| ConnectorReaders.LeavesExact | src/code.cloudfoundry.org/loggregator/plumbing/grpc_connector.go:304-315 | On every schedule a reader leaves its loop exactly when it saw its consumer dead or, not on its first time round, its doppler marked for disconnection; else it subscribes again |
| ConnectorReaders.LeavesWithdrawn | src/code.cloudfoundry.org/loggregator/plumbing/grpc_connector.go:238-315 | On prompt runs that mark means exactly that the latest event does not advertise the doppler |
| ConnectorRegistry.DeltaAddExact | src/code.cloudfoundry.org/loggregator/plumbing/grpc_connector.go:250-262 | The new URIs computed from an event are distinct and unlisted if and only if the event repeats no URI |
| ConnectorRegistry.DeltaDeadExact | src/code.cloudfoundry.org/loggregator/plumbing/grpc_connector.go:250-272 | A client is left over by the strikes exactly when its URI is not in the event |
| ConnectorStreams.BeginExact | src/code.cloudfoundry.org/loggregator/plumbing/grpc_connector.go:214-272 | The start of an event keeps all streams up if and only if every live subscribed consumer still has a working reader on each disconnected client the event brings back, and no reader of a live consumer is leaving such a client |
| ConnectorStreams.StreamsStepExact | src/code.cloudfoundry.org/loggregator/plumbing/grpc_connector.go:282-333 | No other step of the finder, a subscriber or a reader ever loses a stream |
| ConnectorStreams.StreamsExact | src/code.cloudfoundry.org/loggregator/plumbing/grpc_connector.go:214-333 | A prompt run keeps all streams up to a state if and only if every event up to it met that condition |
| ConnectorStreams.NoRevivalContinues | src/code.cloudfoundry.org/loggregator/plumbing/grpc_connector.go:264-272 | In particular streams stay up if no event brings back a doppler whose client is still being disconnected |
| ConnectorStreams.StreamTheorem | src/code.cloudfoundry.org/loggregator/plumbing/grpc_connector.go:282-333 | On such runs, between events, every live subscribed consumer has a working reader on every advertised doppler |
| ConnectorFindings.OrphanedDoppler | src/code.cloudfoundry.org/loggregator/plumbing/grpc_connector.go:238-299 | A reachable state when a spawned reader counts itself late: an advertised, listed doppler is missing from the pool and a live subscribed consumer was never covered |
| ConnectorFindings.FlapLosesStream | src/code.cloudfoundry.org/loggregator/plumbing/grpc_connector.go:264-313 | A reachable state with prompt readers: a doppler missing from one event only is listed and connected, and a live subscribed consumer has no unfinished reader on it |
| ConnectorCode.ShiftOut | src/code.cloudfoundry.org/loggregator/plumbing/grpc_connector.go:264-272 | The append of two overlapping slices removes one cell in place and leaves the last cell stale |
| ConnectorCode.SubtractClient | src/code.cloudfoundry.org/loggregator/plumbing/grpc_connector.go:264-272 | Strikes the first client of the URI, clears that client's flag only, and says whether there was one |
| ConnectorCode.StrikeAll | src/code.cloudfoundry.org/loggregator/plumbing/grpc_connector.go:250-262 | The striking loop computes the difference between event and list and clears the flags of exactly the clients struck |
| ConnectorCode.Connector.Delta | src/code.cloudfoundry.org/loggregator/plumbing/grpc_connector.go:250-262 | Works on a copy: the connector's own client list is not disturbed by the in-place strikes |
| ConnectorCode.Connector.Close | src/code.cloudfoundry.org/loggregator/plumbing/grpc_connector.go:274-280 | Ranging over the slice while it is shortened removes exactly the one entry, stale last cell included |
| ConnectorCode.Connector.AddAll | src/code.cloudfoundry.org/loggregator/plumbing/grpc_connector.go:220-236 | One fresh client per new URI at the end of the list, registered with the pool, and one reader per live slot, the slots loaded anew for each URI |
| ConnectorCode.Connector.DisableAll | src/code.cloudfoundry.org/loggregator/plumbing/grpc_connector.go:238-247 | Every missing client is disabled, and exactly those nobody reads leave the list and the pool |
| ConnectorCode.Connector.HandleFinderEvent | src/code.cloudfoundry.org/loggregator/plumbing/grpc_connector.go:214-248 | The whole event on shared objects and arrays: the new list, the pool, every flag and the spawned readers, from the difference between event and list |
| ConnectorEvents.EventIsSteps | src/code.cloudfoundry.org/loggregator/plumbing/grpc_connector.go:214-248 | From any state with the lock free, the finder's steps alone carry out the event: which clients stay, which are new, and what becomes of pool, flags and spawned readers |
| ConnectorObjects.HandleAsSteps | src/code.cloudfoundry.org/loggregator/plumbing/grpc_connector.go:214-248 | Client objects that match a state of the protocol, place by place, match after the handler the state that the finder's steps reach: list, pool, flags and counts |
| ConnectorCode.SpawnReaders | src/code.cloudfoundry.org/loggregator/plumbing/grpc_connector.go:228-235 | One reader for each slot that holds a live consumer |
| Pool.FetchClient | src/code.cloudfoundry.org/loggregator/plumbing/pool.go:110-125 | The walk panics if and only if a wrapped place comes before every client it would meet, returns a client if and only if that is the first it meets, and none if and only if all places are empty slots; while the start number does not overflow there is no panic, and none is returned exactly when no slot holds a client |
| Pool.MeetsAll | src/code.cloudfoundry.org/loggregator/plumbing/pool.go:110-114 | From any start, as many consecutive places as there are slots meet every slot |
| Pool.IndexInRange | src/code.cloudfoundry.org/loggregator/plumbing/pool.go:111-114 | A place is a valid slot if and only if the 64-bit sum did not wrap or wrapped to a multiple of the size |
| Pool.SeedOverflows | src/code.cloudfoundry.org/loggregator/plumbing/pool.go:111-114 | There is a call that panics: three empty slots and the greatest start number |
| Pool.ClientMissed | src/code.cloudfoundry.org/loggregator/plumbing/pool.go:110-125 | The panic can come although a later slot holds a client |
| RoundTrip.RoundTripExact | src/code.cloudfoundry.org/loggregator/plumbing/conversion/tov2.go:14-221 | For every v1 envelope of the six types, every tag map and both tag modes, translating up and down gives back exactly that envelope if and only if: no reserved tag key, id tags that agree with the body, a body that survives (equal log timestamp, zero counter delta, nonempty newline-free forwarded list, byte counts that are doubles, nonempty application id), and a mode that survives |
| ConversionCode.UpAndDown | src/code.cloudfoundry.org/loggregator/plumbing/conversion/tov1.go:17-243 | The same exact condition for the code itself: `ToV2` then `ToV1` gives back the one envelope if and only if it holds |
| RoundTrip.PreferredLoses | src/code.cloudfoundry.org/loggregator/plumbing/conversion/tov1.go:17-63 | With preferred tags an error comes back as a log message, and a gauge loses origin, deployment, job, index and ip |
| RoundTrip.StripExact | src/code.cloudfoundry.org/loggregator/plumbing/conversion/tov1.go:36-63 | Adding the reserved tags and deleting them again restores a tag map if and only if it used none of their names and its id tags agree |
| RoundTrip.HttpParsed | src/code.cloudfoundry.org/loggregator/plumbing/conversion/tov1.go:87-131 | Numbers and request id of an HTTP event are recovered from their tags |
| ConversionCode.ConvertToV2 | src/code.cloudfoundry.org/loggregator/plumbing/conversion/tov2.go:14-221 | The step-by-step translation, with its tag edits, the ids taken out of the tags and the six event conversions, yields the declared v2 envelope in both tag modes |
| ConversionCode.ConvertEvent | src/code.cloudfoundry.org/loggregator/plumbing/conversion/tov2.go:93-221 | Ids and message as each of the six event types sets them |
| ConversionCode.InitTags | src/code.cloudfoundry.org/loggregator/plumbing/conversion/tov2.go:76-91 | The tag map is shared or copied without loss, whatever the order of the walk |
| ConversionCode.ConvertTags | src/code.cloudfoundry.org/loggregator/plumbing/conversion/tov1.go:245-266 | Preferred and deprecated tags are merged, whatever the order of the walk |
| ConversionCode.CreateBaseV1 | src/code.cloudfoundry.org/loggregator/plumbing/conversion/tov1.go:36-63 | Yields the base envelope and the v2 envelope as the in-place edits of its tag map leave it |
| ConversionCode.ConvertMetrics | src/code.cloudfoundry.org/loggregator/plumbing/conversion/tov1.go:174-199 | One value metric per gauge entry, each once, in some order; nothing when an entry is nil |
| ConversionCode.ConvertToV1 | src/code.cloudfoundry.org/loggregator/plumbing/conversion/tov1.go:17-243 | The step-by-step translation, field by field and deletion by deletion, yields a result that the declared relation allows, for all five message kinds |
| ConversionCode.HasContainerMetrics | src/code.cloudfoundry.org/loggregator/plumbing/conversion/tov1.go:209-229 | The loop over the six names decides whether a gauge is a container metric |
| ConversionFacts.DeprecatedStays | src/code.cloudfoundry.org/loggregator/plumbing/conversion/tov1.go:245-266 | Every ordinary deprecated tag, of whatever type, is in each v1 envelope that comes out, rendered by its type |
| ConversionFacts.IntegerTagParses | src/code.cloudfoundry.org/loggregator/plumbing/conversion/tov1.go:245-266 | An integer tag that stays parses back to the integer |
| ConversionFacts.TextTagStays | src/code.cloudfoundry.org/loggregator/plumbing/conversion/tov1.go:245-266 | A text or decimal tag that stays is its own text |
| ConversionFacts.PreferredTagStays | src/code.cloudfoundry.org/loggregator/plumbing/conversion/tov1.go:245-266 | A preferred tag without a deprecated one of its name stays as it is |
| ConversionFacts.PreferredBaseWins | src/code.cloudfoundry.org/loggregator/plumbing/conversion/tov1.go:36-45 | For logs, counters and timers, a preferred tag named like a base field wins over the deprecated one |
| ConversionFacts.DeprecatedWins | src/code.cloudfoundry.org/loggregator/plumbing/conversion/tov1.go:245-266 | In the tag map that comes out the deprecated tag wins over a preferred one that differs |
| ConversionFacts.TimerIntegers | src/code.cloudfoundry.org/loggregator/plumbing/conversion/tov1.go:87-131 | Integer tags of a timer come down as numbers in content length, status code and instance index |
| ConversionFacts.TextFields | src/code.cloudfoundry.org/loggregator/plumbing/conversion/tov1.go:87-162 | The text fields of timers and logs are their tags |
| ConversionFacts.LogOrError | src/code.cloudfoundry.org/loggregator/plumbing/conversion/tov1.go:133-162 | A log comes down as an error if and only if its type tag says so, with its code as a number |
| ConversionFacts.CounterTotals | src/code.cloudfoundry.org/loggregator/plumbing/conversion/tov1.go:164-172 | A counter keeps name and total; one sent as a delta comes down with total 0 |
| ConversionFacts.IdsBecomeTags | src/code.cloudfoundry.org/loggregator/plumbing/conversion/tov1.go:17-63 | Nonempty ids become tags, the timestamp stays, and an envelope without a message comes down as nothing |
| ConversionFacts.SourceUp | src/code.cloudfoundry.org/loggregator/plumbing/conversion/tov2.go:28-118 | The source of a v2 envelope: the app of the event, else the `source_id` tag, else deployment and job; the id tags themselves are gone |
| ConversionFacts.MetricsUp | src/code.cloudfoundry.org/loggregator/plumbing/conversion/tov2.go:162-221 | Names, units and values of the metrics that go up |
| ConversionFacts.LogsUp | src/code.cloudfoundry.org/loggregator/plumbing/conversion/tov2.go:93-160 | Payload, type and times of the logs, errors and requests that go up |
| ConversionFacts.TagsGoUp | src/code.cloudfoundry.org/loggregator/plumbing/conversion/tov2.go:14-91 | The base fields and the v1 type go up as tags, and any other tag as it is |
| Text.ParsePrinted | src/code.cloudfoundry.org/loggregator/plumbing/conversion/tov1.go:124-131 | Every 64-bit integer survives printing and parsing |
| Text.SplitJoinExact | src/code.cloudfoundry.org/loggregator/plumbing/conversion/tov2.go:235-238 | A list survives join and split if and only if it is nonempty and no part holds the separator |
| Floats.ThereAndBack | src/code.cloudfoundry.org/loggregator/plumbing/conversion/tov2.go:188-221 | A byte count survives the trip through a 64-bit float if and only if it is representable |
| Floats.SmallRepresentable | src/code.cloudfoundry.org/loggregator/plumbing/conversion/tov2.go:188-221 | Every byte count up to 2^53 is representable |
| Uuids.RoundTrip | src/code.cloudfoundry.org/loggregator/plumbing/conversion/tov2.go:240-246 | For all 2^128 values, converting the parsed printed form gives back both words |
| Uuids.Shape | src/code.cloudfoundry.org/loggregator/plumbing/conversion/tov2.go:240-246 | The printed form has the 8-4-4-4-12 shape of section 3 of RFC 4122 |
| TruncatingBuffer.Always | src/code.cloudfoundry.org/loggregator/doppler/internal/truncatingbuffer/truncating_buffer.go:78-149 | Every state of every interleaving of the writer's steps with a reader that may take at any moment satisfies the counter, channel and conservation invariant |
| TruncatingBuffer.Bookkeeping | src/code.cloudfoundry.org/loggregator/doppler/internal/truncatingbuffer/truncating_buffer.go:78-91 | Between messages `queuedInternalMessageCount` is max(0, min(k, B - s)), and on a full channel it is exactly the number of notices in it |
| TruncatingBuffer.DeltaExact | src/code.cloudfoundry.org/loggregator/doppler/internal/truncatingbuffer/truncating_buffer.go:88-89 | `deltaDropped` is the number of real messages drained if and only if the reader took no notice inside the drain window, and it wraps around if and only if fewer items were drained than notices were queued |
| TruncatingBuffer.Conservation | src/code.cloudfoundry.org/loggregator/doppler/internal/truncatingbuffer/truncating_buffer.go:78-113 | Inputs = taken + still queued + lost; the drop counter is the loss less the notices taken inside drain windows, so it is right if and only if there were none |
| TruncatingBuffer.InOrder | src/code.cloudfoundry.org/loggregator/doppler/internal/truncatingbuffer/truncating_buffer.go:78-149 | What the reader took, what is in the channel and what the writer holds are, in this order, the inputs with exactly the drained ones cut out |
| TruncatingBuffer.NoticeTotals | src/code.cloudfoundry.org/loggregator/doppler/internal/truncatingbuffer/truncating_buffer.go:130-149 | Each notice announces the loss so far, less the notices taken inside drain windows |
| TruncatingBuffer.NoticeAnnounces | src/code.cloudfoundry.org/loggregator/doppler/internal/truncatingbuffer/truncating_buffer.go:88-149 | Over every run, each notice announces as delta the messages lost in the drain just before it less the notices the reader took in it, and as total the total before that drain plus this delta |
| TruncatingBuffer.AnnouncedExact | src/code.cloudfoundry.org/loggregator/doppler/internal/truncatingbuffer/truncating_buffer.go:88-138 | The announced delta is the loss of that drain if and only if the reader took no notice in it |
| TruncatingBuffer.ForwardAnnounces | src/code.cloudfoundry.org/loggregator/doppler/internal/truncatingbuffer/truncating_buffer.go:78-105 | After an undisturbed overflow the channel holds the allowed notices, each with the number of real messages that were in the channel and the total up to now, then the message that did not fit |
| TruncatingBuffer.NeverStuck | src/code.cloudfoundry.org/loggregator/doppler/internal/truncatingbuffer/truncating_buffer.go:107-149 | With a buffer of at least three, emitting a notice never blocks and the message that overflowed is never dropped |
| TruncatingBuffer.WindowUnderflow | src/code.cloudfoundry.org/loggregator/doppler/internal/truncatingbuffer/truncating_buffer.go:88-91 | From any full channel of queued notices, a reader that empties it inside the window makes the announced delta wrap around although nothing was lost |
| TruncatingBuffer.SecondOverflow | src/code.cloudfoundry.org/loggregator/doppler/internal/truncatingbuffer/truncating_buffer.go:88-91 | Such a state is reached: with room for three, by a second overflow right after the first |
| TruncatingBuffer.ForwardIsSteps | src/code.cloudfoundry.org/loggregator/doppler/internal/truncatingbuffer/truncating_buffer.go:78-105 | One undisturbed call of the handler is a sequence of the protocol's steps |
| TruncatingBufferCode.Writer.ForwardMessage | src/code.cloudfoundry.org/loggregator/doppler/internal/truncatingbuffer/truncating_buffer.go:78-105 | The handler on its fields is the function of one undisturbed call, and keeps the counters valid |
| TruncatingBufferCode.Writer.DropMessages | src/code.cloudfoundry.org/loggregator/doppler/internal/truncatingbuffer/truncating_buffer.go:115-128 | Empties the channel and counts what was in it |
| SyslogSink.Run | src/code.cloudfoundry.org/loggregator/doppler/internal/sinks/syslog/syslog_sink.go:63-108 | Whatever the dials, writes and disconnect do: every dial and write serves the first message not yet delivered, a write is tried exactly on an open link and a dial exactly on a closed one, and no chance is passed over; a look at the disconnect comes before each message and after each failed dial, and the sink stops exactly when such a look finds the disconnect or nothing left to deliver; only in a back-off can the one message taken stay undelivered, so without a disconnect a stopped sink delivered everything |
| SyslogSink.Dial | src/code.cloudfoundry.org/loggregator/doppler/internal/sinks/syslog/syslog_sink.go:75-96 | Dials again until the link is up, delivers nothing meanwhile, and gives up only on a disconnect seen after a failed dial |
| SyslogSink.EndToEnd | src/code.cloudfoundry.org/loggregator/doppler/internal/sinks/syslog/syslog_sink.go:63-108 | At any state of any run of the buffer, with the sink handling exactly what was taken from it: what was delivered, then what is taken and undelivered, then what is in the channel and in the writer's hand are, in order and once each, the inputs with exactly the drained ones cut out; of what the sink has got to, at most the last item is undelivered; without a disconnect a stopped sink delivered all that was taken |
| Router.LookupsAreScan | src/code.cloudfoundry.org/loggregator/doppler/internal/grpcmanager/v1/router.go:76-83 | The four lookups hit each matching filter once and no other; twice for the empty app id |
| Router.RegistrationMeans | src/code.cloudfoundry.org/loggregator/doppler/internal/grpcmanager/v1/router.go:132-155 | The registration made for a request matches exactly the envelopes the request asks for: those of its app, or of any if it names none, and of its kind, logs or metrics, or of both if it names none |
| Router.StandsExact | src/code.cloudfoundry.org/loggregator/doppler/internal/grpcmanager/v1/router.go:132-145 | A filter matches exactly what a request wants if and only if it is the filter made for that request |
| Router.AlikeExact | src/code.cloudfoundry.org/loggregator/doppler/internal/grpcmanager/v1/router.go:132-145 | Two requests are indexed under one filter if and only if they want the same envelopes |
| Router.LookupsPayWants | src/code.cloudfoundry.org/loggregator/doppler/internal/grpcmanager/v1/router.go:47-83 | The four lookups owe a setter one copy for each of its requests that wants the envelope, two for the empty app id |
| Router.Router.SendTo | src/code.cloudfoundry.org/loggregator/doppler/internal/grpcmanager/v1/router.go:47-74 | In terms of the requests registered: a setter without a shard gets one copy for each of its requests that wants the envelope, the requests of one kind on a shard get one copy together if they want it, nobody else gets any; all of it twice for an empty app id, nothing if marshalling fails |
| Router.Router.SendToFilter | src/code.cloudfoundry.org/loggregator/doppler/internal/grpcmanager/v1/router.go:58-62 | One lookup serves every shard under its filter once, in any order, and the random pick always has something to pick from |
| Router.WriteToShard | src/code.cloudfoundry.org/loggregator/doppler/internal/grpcmanager/v1/router.go:65-74 | The empty shard serves all setters, another one exactly one of them |
| Router.Router.Register | src/code.cloudfoundry.org/loggregator/doppler/internal/grpcmanager/v1/router.go:85-95 | The index stays the grouping of the live registrations, and the requests are the old ones and this one |
| Router.Router.Cleanup | src/code.cloudfoundry.org/loggregator/doppler/internal/grpcmanager/v1/router.go:97-121 | The index stays the grouping of the live registrations, and of the requests exactly those of this kind, shard and setter are gone; no empty list or map remains |
| Router.DropFresh | src/code.cloudfoundry.org/loggregator/doppler/internal/grpcmanager/v1/router.go:97-121 | With fresh setters a cleanup ends exactly its own registration |
| Router.SettersAfterDrop | src/code.cloudfoundry.org/loggregator/doppler/internal/grpcmanager/v1/router.go:102-108 | Dropping a registration filters the setters of its own filter and shard and no others |
| Averager.EncodeAdds | src/code.cloudfoundry.org/loggregator/plumbing/envelope_averager.go:71-83 | A word that holds counts and bytes modulo 2^16 and 2^48 holds them with one more delta added |
| Averager.Always | src/code.cloudfoundry.org/loggregator/plumbing/envelope_averager.go:27-61 | After any interleaving of loads, swaps and ticks the word holds the sums of all finished calls modulo 2^16 and 2^48, and every report so far is right under its exact condition |
| Averager.TickExact | src/code.cloudfoundry.org/loggregator/plumbing/envelope_averager.go:45-58 | A tick reports exactly the interval's count and bytes if and only if fewer than 2^16 envelopes were tracked, fewer than 2^64 bytes, and the byte field wrapped a multiple of 2^16 times |
| Averager.IntervalAverage | src/code.cloudfoundry.org/loggregator/plumbing/envelope_averager.go:40-61 | In every run, an interval with fewer than 2^16 envelopes and no wrap of the byte field reports exactly bytes over count, or 0, even across a wrap of the count |
| Averager.WrapShows | src/code.cloudfoundry.org/loggregator/plumbing/envelope_averager.go:45-58 | A wrap of the byte field is not repaired: the reported total is off although the count is right |
| Averager.Track | src/code.cloudfoundry.org/loggregator/plumbing/envelope_averager.go:27-36 | The loop stores only over a word it loaded unchanged, and what it stores adds its own delta |
| Averager.Start | src/code.cloudfoundry.org/loggregator/plumbing/envelope_averager.go:40-61 | The ticker's loop over any words with nondecreasing sums reports each interval right under the exact condition |
| BatchWriter.Always | src/code.cloudfoundry.org/loggregator/metron/internal/egress/v1/writer.go:79-189 | Over every run of writes, timer flushes and retries with any failures: the buffer is exactly the frames of its messages within capacity, and the batches cut all older messages into consecutive runs, each with its frames, count and chainers and at most five tries; a batch leaves by overflow only when the next message did not fit |
| BatchWriter.OnePlace | src/code.cloudfoundry.org/loggregator/metron/internal/egress/v1/writer.go:79-183 | Each accepted message is in the buffer or in exactly one batch |
| BatchWriter.Conservation | src/code.cloudfoundry.org/loggregator/metron/internal/egress/v1/writer.go:79-138 | Accepted = buffered + in flight + the sent metric + the sum of the arguments of `Drop`, for buffers below 2^34 - 4 bytes |
| BatchWriter.RetriesCounted | src/code.cloudfoundry.org/loggregator/metron/internal/egress/v1/writer.go:140-183 | The retry metric is the number of failed timer flushes and of tries of overflow batches beyond their first |
| BatchWriter.ReadBack | src/code.cloudfoundry.org/loggregator/metron/internal/egress/v1/writer.go:185-189 | The reader recovers a batch's messages in order if and only if each is shorter than 2^32 |
| BatchWriter.StreamReadBack | src/code.cloudfoundry.org/loggregator/metron/internal/egress/v1/writer.go:123-138 | The reader recovers from the whole output the messages of the written batches, if and only if each is shorter than 2^32 |
| BatchWriter.OrderStepExact | src/code.cloudfoundry.org/loggregator/metron/internal/egress/v1/writer.go:97-138 | A step keeps the written batches in order if and only if it is not the successful write of an overflow batch older than one already written |
| BatchWriter.OrderExact | src/code.cloudfoundry.org/loggregator/metron/internal/egress/v1/writer.go:97-183 | Over whole runs the written batch numbers increase if and only if no step so far overtook |
| BatchWriter.AcceptanceOrderExact | src/code.cloudfoundry.org/loggregator/metron/internal/egress/v1/writer.go:79-183 | So the output follows acceptance order if and only if no overflow batch was written after a younger one |
| BatchWriter.Overtaken | src/code.cloudfoundry.org/loggregator/metron/internal/egress/v1/writer.go:97-105 | It does happen: a timer flush overtakes an overflow batch that is still being retried |
| BatchWriterCode.Writer.Write | src/code.cloudfoundry.org/loggregator/metron/internal/egress/v1/writer.go:79-114 | The method is the accepting step and keeps the invariant |
| BatchWriterCode.Writer.FlushBuffer | src/code.cloudfoundry.org/loggregator/metron/internal/egress/v1/writer.go:146-166 | The method is the flushing step and keeps the invariant; a failure keeps the buffer |
| BatchWriterCode.Writer.RetryWrites | src/code.cloudfoundry.org/loggregator/metron/internal/egress/v1/writer.go:168-183 | Up to five tries; the batch ends written if and only if some try succeeded, else dropped |
| Frames.ReadFramed | src/tools/benchmark/messagereader/tls.go:43-64 | Reading a concatenation of frames yields exactly the messages if and only if every length fits its 32-bit prefix |
| Frames.ReadFromConn | src/tools/benchmark/messagereader/tls.go:43-64 | The loop that reuses and grows one buffer yields the messages of the stream, or the panic on a torn frame |
| TagHash.HashIdentifies | src/code.cloudfoundry.org/loggregator/metron/internal/egress/v2/counteraggregator.go:56-70 | Two tag maps have equal hashes if and only if they are equal, for a digest of fixed width without collisions among their strings |
| TagHash.ListingUnique | src/code.cloudfoundry.org/loggregator/metron/internal/egress/v2/counteraggregator.go:59-62 | In whatever order a map is walked, sorting ends in one and the same list |
| TagHash.RenderInjective | src/code.cloudfoundry.org/loggregator/metron/internal/egress/v2/counteraggregator.go:63-69 | Concatenated digests of different element lists differ |
| TagHash.HashTags | src/code.cloudfoundry.org/loggregator/metron/internal/egress/v2/counteraggregator.go:56-70 | The loops compute that hash, whatever the order of the walk |
| Counters.TotalsExact | src/code.cloudfoundry.org/loggregator/metron/internal/egress/v2/counteraggregator.go:29-50 | Every counter leaves with the sum modulo 2^64 of all deltas of its name and rendered tag map since the table was last emptied, its own included; the table never exceeds 10001 keys |
| Counters.StreamTotals | src/code.cloudfoundry.org/loggregator/metron/internal/egress/v2/counteraggregator.go:29-76 | On the stream itself: the sum over all counters of equal name and equal deprecated tags from where the current table began up to and including this one |
| Counters.SinceIsStream | src/code.cloudfoundry.org/loggregator/metron/internal/egress/v2/counteraggregator.go:32-54 | What the table counts is exactly the stream from the last counter that found it too large |
| Counters.CountKept | src/code.cloudfoundry.org/loggregator/metron/internal/egress/v2/counteraggregator.go:32-45 | One update keeps the table equal to the sums of the deltas since the last reset |
| Counters.InBatches | src/code.cloudfoundry.org/loggregator/metron/internal/egress/v2/counteraggregator.go:29-50 | Table and outgoing envelopes do not depend on how the stream is cut into batches |
| Counters.RenderedIdentifies | src/code.cloudfoundry.org/loggregator/metron/internal/egress/v2/counteraggregator.go:59-61 | An injective rendering of tag values keeps tag maps apart |
| Counters.CounterAggregator.Write | src/code.cloudfoundry.org/loggregator/metron/internal/egress/v2/counteraggregator.go:29-50 | The method updates the table and stamps the envelopes in place as specified, before and independently of the next writer's success |
| Counters.V1Remembers | src/code.cloudfoundry.org/loggregator/metron/internal/egress/v1/message_aggregator.go:37-55 | Without a limit the table remembers every event, and the total is the sum over all events of equal origin, name and tag map |
| Counters.MessageAggregator.HandleCounter | src/code.cloudfoundry.org/loggregator/metron/internal/egress/v1/message_aggregator.go:37-55 | The event leaves with the sum modulo 2^64 of all deltas of equal origin, name and tag map so far |
| Transponder.Transponder.Start | src/code.cloudfoundry.org/loggregator/metron/internal/egress/v2/transponder.go:61-106 | Everything taken is in exactly one batch or pending, in order; batches hold 1 to batchSize envelopes; egress + dropped + pending = taken; and the totals handed on are those of one uncut pass, failed batches included; a batch is written as soon as it is full or the interval has passed, and not before |
| Transponder.MoveTags | src/code.cloudfoundry.org/loggregator/metron/internal/egress/v2/transponder.go:116-122 | The envelope's own tags win over its deprecated ones |
| Transponder.AddDefaults | src/code.cloudfoundry.org/loggregator/metron/internal/egress/v2/transponder.go:124-132 | A default tag is added only where there is none |
| Transponder.AddTags | src/code.cloudfoundry.org/loggregator/metron/internal/egress/v2/transponder.go:108-133 | Own tags, then deprecated tags, then defaults, whatever the order of the walks |
| ContainerMetrics.ContainerMetricSink.GetLatest | src/code.cloudfoundry.org/loggregator/doppler/internal/sinks/containermetric/container_metric_sink.go:65-85 | With a clock that does not run backwards, after any history the answer is, per instance and once, the earliest-arrived metric of greatest timestamp if it is not older than the TTL: eviction is unobservable |
| ContainerMetrics.ContainerMetricSink.UpdateMetric | src/code.cloudfoundry.org/loggregator/doppler/internal/sinks/containermetric/container_metric_sink.go:99-110 | The cache keeps meaning the whole history |
| ContainerMetrics.BestIsMax | src/code.cloudfoundry.org/loggregator/doppler/internal/sinks/containermetric/container_metric_sink.go:99-110 | The metric kept is of the instance and none of it is later |
| ContainerMetrics.BestIsFirst | src/code.cloudfoundry.org/loggregator/doppler/internal/sinks/containermetric/container_metric_sink.go:107-109 | Of equally late metrics the first to arrive is kept |
| ContainerMetrics.DeDupe | src/code.cloudfoundry.org/loggregator/trafficcontroller/internal/proxy/container_metrics_handler.go:58-79 | Per instance, once, the first of the latest envelopes in the input |
| ContainerMetrics.DeDupeAgrees | src/code.cloudfoundry.org/loggregator/trafficcontroller/internal/proxy/container_metrics_handler.go:58-79 | Over the answers of several dopplers at one instant, an instance is reported if and only if one sink fed all their events would report it, with the same timestamp |
| DumpRing.DumpSink.AddMsg | src/code.cloudfoundry.org/loggregator/doppler/internal/sinks/dump/dump_sink.go:68-74 | The ring keeps holding the newest messages of the history |
| DumpRing.DumpSink.Dump | src/code.cloudfoundry.org/loggregator/doppler/internal/sinks/dump/dump_sink.go:76-91 | Returns exactly the last min(n, N) of the n messages added to a ring of N slots, in order of arrival |
| SinkRegistry.Always | src/code.cloudfoundry.org/loggregator/doppler/internal/groupedsinks/grouped_sinks.go:55-304 | Over every run of register, unregister, broadcast, receive and delete-all: no channel is closed twice or sent on after it was closed, no channel has two owners, no empty group stays, every open accepted channel has an owner, and offers = received + waiting in the channels + counted drops |
| SinkRegistry.OfferedWaiting | src/code.cloudfoundry.org/loggregator/doppler/internal/groupedsinks/grouped_sinks.go:429-449 | An offer to a set of channels adds one waiting message for each that is not full, and no other |
| SinkRegistry.BroadcastReaches | src/code.cloudfoundry.org/loggregator/doppler/internal/groupedsinks/grouped_sinks.go:114-143 | A broadcast offers the message once to every sink of the app and to exactly one sink of each firehose subscription, and to no other channel |
| SinkRegistry.AllDeletedKept | src/code.cloudfoundry.org/loggregator/doppler/internal/groupedsinks/grouped_sinks.go:250-266 | After delete-all every channel a sink was registered with is closed, each once |
| SinkRegistry.ClosesOwnExact | src/code.cloudfoundry.org/loggregator/doppler/internal/groupedsinks/grouped_sinks.go:411-421 | A removal closes only the given sink's own channel if and only if its place is free or held by that sink |
| SinkRegistry.SuccessorClosed | src/code.cloudfoundry.org/loggregator/doppler/internal/sinkserver/sinkmanager/sink_manager.go:115-144 | It does not always: a second unregistration of a replaced sink closes the channel of its running successor |
| SinkFacts.RegisterExact | src/code.cloudfoundry.org/loggregator/doppler/internal/groupedsinks/grouped_sinks.go:55-95 | A sink is registered if and only if it has an app id, an app sink also an identifier, and its place is free; no other place changes |
| SinkFacts.UnregisterExact | src/code.cloudfoundry.org/loggregator/doppler/internal/groupedsinks/grouped_sinks.go:211-248 | Removal frees exactly the sink's place and closes exactly the channel there |
| SinkFacts.BroadcastExact | src/code.cloudfoundry.org/loggregator/doppler/internal/groupedsinks/grouped_sinks.go:114-143 | A broadcast appends the message to the queue of every sink it is for that has fewer than 128 waiting, and to no other |
| SinkFacts.OthersUntouched | src/code.cloudfoundry.org/loggregator/doppler/internal/groupedsinks/grouped_sinks.go:114-143 | A channel without an owner is offered nothing |
| SinkFacts.DropsCounted | src/code.cloudfoundry.org/loggregator/doppler/internal/groupedsinks/grouped_sinks.go:429-473 | Errors lost by app sinks count on their own metric, everything else lost on the other |
| SinkFacts.BoundedAlways | src/code.cloudfoundry.org/loggregator/doppler/internal/sinkserver/sinkmanager/sink_manager.go:115-117 | Over every run no channel holds more than 128 messages |
| SinkRegistryCode.GroupedSinks.Register | src/code.cloudfoundry.org/loggregator/doppler/internal/sinkserver/sinkmanager/sink_manager.go:115-165 | Succeeds exactly for a nonempty app id (and identifier, for an app sink) not yet registered, and is the registering step on a fresh channel |
| SinkRegistryCode.GroupedSinks.CloseAndDelete | src/code.cloudfoundry.org/loggregator/doppler/internal/groupedsinks/grouped_sinks.go:211-248 | Is the removing step; the channel it closes is open |
| SinkRegistryCode.GroupedSinks.Receive | src/code.cloudfoundry.org/loggregator/doppler/internal/sinkserver/sinkmanager/sink_manager.go:125-128 | Taking the next message off a channel is the receiving step |
| SinkRegistryCode.GroupedSinks.BroadcastMembers | src/code.cloudfoundry.org/loggregator/doppler/internal/groupedsinks/grouped_sinks.go:429-473 | Walks an app's wrappers in any order: one offer each to open channels, drops counted |
| SinkRegistryCode.GroupedSinks.BroadcastFirehoses | src/code.cloudfoundry.org/loggregator/doppler/internal/groupedsinks/grouped_sinks.go:136-143 | One offer to one drawn member of every subscription |
| SinkRegistryCode.GroupedSinks.Broadcast | src/code.cloudfoundry.org/loggregator/doppler/internal/groupedsinks/grouped_sinks.go:114-134 | Both parts together are the broadcasting step, with the drops on the right metric |
| SinkRegistryCode.GroupedSinks.DeleteAll | src/code.cloudfoundry.org/loggregator/doppler/internal/groupedsinks/grouped_sinks.go:250-266 | The nested loops are the delete-all step; every channel they close is open |
| SinkRegistryCode.RandomWrapper | src/code.cloudfoundry.org/loggregator/doppler/internal/groupedsinks/firehose_group/firehose_group.go:133-146 | The counting walk over a nonempty group always ends at a member |
| Election.Always | src/code.cloudfoundry.org/loggregator/syslog_drain_binder/elector/elector.go:37-98 | Over every interleaving of any number of instances on a store with TTLs, where a call may take effect although it reports an error: a claim whose lease still runs is backed by the key |
| Election.ElectionSafety | src/code.cloudfoundry.org/loggregator/syslog_drain_binder/elector/elector.go:37-98 | An instance whose flag is set and whose lease has not expired owns the key, so there is at most one |
| Election.NotAnothers | src/code.cloudfoundry.org/loggregator/syslog_drain_binder/elector/elector.go:61-77 | No step of one instance refreshes or deletes another's live key |
| Election.StayRenews | src/code.cloudfoundry.org/loggregator/syslog_drain_binder/elector/elector.go:61-70 | A swap that takes effect gives its owner the key for one more TTL from now |
| Election.VacateFrees | src/code.cloudfoundry.org/loggregator/syslog_drain_binder/elector/elector.go:72-77 | A delete that takes effect leaves the key to the others |
| Election.CreateExact | src/code.cloudfoundry.org/loggregator/syslog_drain_binder/elector/elector.go:37-59 | A create takes the key if and only if it takes effect and nobody holds it; told that somebody does, the instance is no leader and tries again |
| Election.DrainsOnlyAfterWin | src/code.cloudfoundry.org/loggregator/syslog_drain_binder/main.go:83-127 | `UpdateDrains` is reached only in a tick whose own create or swap succeeded |
| Election.TwoUpdatersExpired | src/code.cloudfoundry.org/loggregator/syslog_drain_binder/main.go:83-127 | Two instances are at `UpdateDrains` together only if the lease of one has run out |
| Election.TwoUpdatersExact | src/code.cloudfoundry.org/loggregator/syslog_drain_binder/main.go:83-127 | Among two or more instances, two can be at `UpdateDrains` at once if and only if leases have an end (a positive TTL) |
| Election.TwoUpdaters | src/code.cloudfoundry.org/loggregator/syslog_drain_binder/main.go:83-127 | With a TTL it happens when a poll outlasts the lease, for any number of instances from two on |
| ElectionCode.Elector.RunForElection | src/code.cloudfoundry.org/loggregator/syslog_drain_binder/elector/elector.go:37-59 | Tries until the store answers anything but that the key exists; leader exactly on success |
| ElectionCode.Elector.Round | src/code.cloudfoundry.org/loggregator/syslog_drain_binder/main.go:83-127 | After a tick the flag is set if and only if election, poll and update all succeeded, and the key is given up otherwise |
| ElectionCode.RoundIsSteps | src/code.cloudfoundry.org/loggregator/syslog_drain_binder/main.go:83-127 | A whole tick is a sequence of the protocol's steps with that outcome: drains are updated exactly after a win and a poll, a leader owns the key, and one that is not has given it up if the delete took effect |
| SyslogFrames.MessageShape | src/code.cloudfoundry.org/loggregator/doppler/internal/sinks/syslogwriter/writer.go:55-93 | Whatever the log line, the message ends in a newline and its body has no NUL; a line that is so already goes through unchanged |
| SyslogFrames.FieldsRead | src/code.cloudfoundry.org/loggregator/doppler/internal/sinks/syslogwriter/writer.go:54-92 | Split at spaces, a message is priority and version, time, host, app, source and two absent fields, in the order of section 6 of RFC 5424, and then the log body, if no field holds a space |
| SyslogFrames.OffsetExact | src/code.cloudfoundry.org/loggregator/doppler/internal/sinks/syslogwriter/writer.go:69-70 | The first Z of the time becomes a numeric offset, and a time without one is left alone |
| SyslogFrames.SourceExact | src/code.cloudfoundry.org/loggregator/doppler/internal/sinks/syslogwriter/writer.go:72-78 | The source is in capitals and names the instance if and only if it begins with the letters of app, in whatever case |
| SyslogFrames.ScanFramed | src/code.cloudfoundry.org/loggregator/doppler/internal/sinks/syslogwriter/syslog_writer.go:69-84 | Any concatenation of octet-counted frames splits back into exactly the messages |
| SyslogFrames.ScanCut | src/code.cloudfoundry.org/loggregator/doppler/internal/sinks/syslogwriter/syslog_writer.go:69-84 | A stream cut anywhere yields exactly the messages whose frames are whole |
| SyslogFrames.DrainSplits | src/code.cloudfoundry.org/loggregator/doppler/internal/sinks/syslogwriter/syslog_writer.go:69-84 | What a writer puts on one connection splits back into its messages, whatever the log lines hold |
| DrainWatcher.Watcher.Run | src/code.cloudfoundry.org/loggregator/doppler/internal/store/app_service_store_watcher.go:75-129 | After every event history: adds and removes alternate strictly per binding from a first add, the cached service of each binding is the one of its last add, and the cache holds exactly what replaying the history leaves |
| DrainWatcher.Watcher.Add | src/code.cloudfoundry.org/loggregator/doppler/internal/store/app_service_store_watcher.go:41-46 | A binding that is there is left as it is and nothing is emitted; else exactly it is cached and emitted |
| DrainWatcher.Watcher.Remove | src/code.cloudfoundry.org/loggregator/doppler/internal/store/app_service_store_watcher.go:48-53 | A binding that is there, and no other, is forgotten and its remove emitted; else nothing changes |
| DrainWatcher.Watcher.RemoveApp | src/code.cloudfoundry.org/loggregator/doppler/internal/store/app_service_store_watcher.go:55-61 | Forgets the app and emits one remove for each binding it had |
| DrainWatcher.RemoveAppKept | src/code.cloudfoundry.org/loggregator/doppler/internal/store/app_service_store_watcher.go:55-61 | The removes of a whole app leave stream and cache in agreement |
| DrainWatcher.Watcher.Handle | src/code.cloudfoundry.org/loggregator/doppler/internal/store/app_service_store_watcher.go:100-113 | Each event changes exactly the bindings it names: a parsed node fills an empty place, a deleted node empties one, a deleted directory empties its app's, anything else nothing |
| DrainWatcher.CachedIsFirst | src/code.cloudfoundry.org/loggregator/doppler/internal/store/app_service_store_watcher.go:41-53 | What is cached for a binding is the first of the puts since it was last absent |
| DrainWatcher.CurrentExact | src/code.cloudfoundry.org/loggregator/doppler/internal/store/app_service_store_watcher.go:41-53 | The cache holds the latest put throughout a history if and only if no put changed a binding that was there |
| DrainWatcher.HostnameIgnored | src/code.cloudfoundry.org/loggregator/doppler/internal/store/app_service_store_watcher.go:41-46 | Of two puts that differ in hostname the second is not cached |
| DrainWatcher.Watcher.Size | src/code.cloudfoundry.org/loggregator/doppler/internal/store/app_service_cache.go:78-91 | The size is the number of cached bindings |
| DrainWatcher.Watcher.Get | src/code.cloudfoundry.org/loggregator/doppler/internal/store/app_service_cache.go:62-66 | The cached bindings of the app, each once |
| DrainWatcher.Watcher.GetAll | src/code.cloudfoundry.org/loggregator/doppler/internal/store/app_service_cache.go:68-76 | All cached bindings, each once, as many as the size says |

## Left out

- Subscribe, addConsumerState and consumeSubscription are steps of the connector's state machine, not methods; the stream that a reader copies from the pool to its consumer, the retry delays and `maxConnections` are not modelled (any number of slots).
- The pool's dialing goroutines are not modelled: the connector's state has the set of registered addresses, `Pool` the walk over a doppler's slots.
- ContainerMetrics and RecentLogs of the connector (one query per doppler under the read lock) are not modelled.
- RoundTrip.RoundTripExact: with preferred tags `initTags` shares the v1 tag map, so later edits of the v2 map also show in the v1 envelope; the model compares with the v1 envelope as it was. v1 envelopes are given by what their getters return, so unset and default fields are not told apart.
- ConversionCode.ConvertToV1: the names of HTTP methods and peer types and the text of decimal tag values stand for themselves; NaN and infinite gauge values are not modelled.
- Floats.ThereAndBack: only whole nonnegative numbers.
- TruncatingBuffer.Conservation: `sentMessageCount` is unbounded, so its wrap after 2^64 messages is not modelled.
- SyslogSink.Run: back-off durations and the errors reported back into the stream are not modelled; a failed write delivers nothing.
- Router.Router.SendTo: marshalling and the setters' buffers are not modelled; a delivery is a call of `Set`.
- Averager.IntervalAverage: the quotient is a real number; the rounding of the final float division is not modelled.
- Averager.EncodeAdds: counts and sizes are nonnegative, as all callers pass lengths.
- BatchWriter.Always: the timer is an arbitrary flush, `Stop` and its wait group are not modelled, and a failed write delivers nothing.
- Counters.TotalsExact: the digest is any function without collisions among the tag strings seen, and tag values are rendered by any function; the digest itself is not modelled.
- Transponder.Transponder.Start: time is two arbitrary looks at the clock in each round.
- ContainerMetrics.DeDupe: works on the envelopes behind the bytes; a payload that does not unmarshal is not modelled.
- ContainerMetrics.ContainerMetricSink.GetLatest: runs in one critical section at one reading of the clock; the inactivity timer is not modelled.
- DumpRing.DumpSink.Dump: the ring of `container/ring` is an array with a position; a ring of size 0 is excluded, as the source cannot advance one.
- ConnectorCode.Connector.HandleFinderEvent: runs without interference; what other goroutines do between its atomic operations is in the protocol's steps.
- ElectionCode.RoundIsSteps: a tick in which the first create is not answered by an existing key; a create so answered is `Election.CreateExact`.
- SinkRegistry.Always: groups are inner maps of one registry rather than objects with locks of their own; sink runs, metrics gauges and the automatic registration of dump and container metric sinks in `SendTo` are not modelled.
- Election.ElectionSafety: all instances and the store share one clock; names are distinct; watches and connection set-up are not modelled.
- SyslogFrames.MessageShape: `ToUpper` is that of ASCII, and the formatted timestamp is an argument; TLS and HTTPS writers are not modelled.
- DrainWatcher.Watcher.Run: parsing of store nodes is an argument; the two output channels are one stream in order of sending; errors and re-watching are not modelled.
- Configuration, TLS, HTTP and websocket handlers, generated code, the diodes, metron's client pool, the deprecated finder, metric emission and the deployment jobs are not modelled.
