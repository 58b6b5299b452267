# Model of the JDWP client core and the shard planner

A Dafny model of the debugger connection in `jdwp-client/src` and of the test-shard planner
`scripts/shard-plan.py`, with proofs of what their comments, tests and callers rely on.
`dafny verify dfyconfig.toml` checks all of it.

**The engine.** Callers draw packet ids and hand commands to an event loop; the loop writes them, keeps a
pending map, routes replies, times entries out on a tick, drops or delivers events, and on a fatal read
records a cause before it lets go of every waiter. A reader task frames the byte stream. `Engine` is this as a
transition system: every caller, the loop's `select!`, the reader, the bytes in between and the JVM, interleaved
in any order. A command is named by its *ticket*, the number of ids drawn before its own; `Loop.IdOf` is the
32-bit id it travels under. What an event packet parses to is left open in `Engine`, so its results hold whatever
the parser does; `EventLoop` runs the real one. `EngineInvariant` proves what every step keeps, `EngineRuns` and
`EngineHistory` what follows for whole runs. Where a command is and that it completes once need ids unique among the
outstanding commands; which reply answers which needs *unshared* ids: no command is entered in the pending map under the
id of another that is there, or that the JVM may still answer. Both hold while at most 2^32 ids are drawn, and
`WrappedIds` has the runs in which they fail with one more. `EventLoop` is the loop's own code, in place, and its turns
are steps of the engine. `EventDelivery` follows the packets: taken in the order they were sent, and what events of
them are due at the consumer.
`Wave` is the sliding window of `read_independently`, `WaveRuns` a wave as one of the engine's callers among all
the others, and `ReadIndependently` the code itself, whose every execution is such a run. `Liveness` counts bytes
in the two socket buffers and the packet channel and shows that a wave neither deadlocks nor runs forever;
`Deadlock` shows that its condition on the send buffer cannot be weakened.

**The wire.** `Utf8` says which strings are accepted. `Bytes`, `Values`, `Packets`, `Events` and `Tables` are the parsers as functions over bytes, with
the encoders a JVM would use as the other half; `EventSizes` says exactly which packets are read back, and
`EventPrefixes` which truncated ones; `EventRequests` is the request builders with the JVM's decoder as the other half,
after the section "Set Command (1)" of the Java Debug Wire Protocol. `Cursors` is the parsers as
the source runs them, advancing a cursor and pushing into vectors.

**Type metadata.** `TypeCaches` and `TypeWaves` are the per-connection cache, its invalidation, and the batched
forms of the calls that read through it. `Lattice` is the interface search and `Suspend` the bounded resume.

**The planner.** `ShardPlan` is the script, `Graham` the analysis of longest-first greedy assignment, `Medians` the
median by counting, and `PlanReport` what the script reports, said of the tests and the recorded durations alone.

Where the code and its own words differ, the model follows the code:

- `implements_interface` is described as breadth-first; it pops the end of its vector, so it is depth-first.
- `set_method_exit_request_ex` writes an `InstanceOnly` modifier and does not count it
  (`EventRequests.SetMethodExitRequestEx` says exactly when that matters).
- `EventFilters` documents `ThreadOnly` as modifier 10; the constant written is 3, as in the protocol.
- `packets_sent` is called deterministic; it is exact until 2^32 - 1 ids have been drawn
  (`Wave.Counters.PacketsSent`).
- The parser of composite events does not skip the payload of a kind it does not know
  (`Events.UnsupportedEventDesynchronises`).
- `shard-plan.py` refuses more shards than tests so that no shard is a green run of nothing; tests recorded at 0.00
  seconds pass that check and can leave shards empty (`ShardPlan.ZeroDurationsLeaveAShardEmpty`;
  `ShardPlan.PlanFillsEveryShard` says exactly when).

Proofs use `hide` to keep the bodies of functions and predicates a lemma does not need away from the solver.

## Model

| member | source | states |
|---|---|---|
| `EngineInvariant.InvAlong` | jdwp-client/src/eventloop.rs:248-298 | every run in which no id is shared keeps the whole invariant, whatever the interleaving of callers, ticks, reads, replies, events and shutdown |
| `EngineInvariant.BoundedIdIsUnshared` | jdwp-client/src/eventloop.rs:325-326 | up to 2^32 drawn ids, a written command's entry displaces nobody, and no other command that the JVM may still answer has its id |
| `EngineInvariant.OwnedKept` | jdwp-client/src/eventloop.rs:392-408 | under unshared ids, whatever is entered under an id stays the only command whose reply may still come under it |
| `EngineInvariant.FramingKept` | jdwp-client/src/eventloop.rs:227-245 | the channel, the reader's buffer and the unread bytes together hold exactly the packets in flight, in order, after any step |
| `EngineInvariant.AirborneKept` | jdwp-client/src/eventloop.rs:262-288 | every reply in flight is the JVM's answer to one command, the answer to a waited-for command is in flight once given, and a reply nobody waits for belongs to a command that timed out or failed to be written |
| `EngineInvariant.TakenReply` | jdwp-client/src/eventloop.rs:392-408 | the reply the loop takes next decodes to the JVM's own answer to one ticket, and its id leads to that ticket's pending entry or to none |
| `EngineRuns.SilentIffDuplicate` | jdwp-client/src/eventloop.rs:169-180 | for every run: no caller ever sees "without recording a reason" if and only if no command is entered under the id of one still outstanding |
| `EngineRuns.AmbiguousIffShared` | jdwp-client/src/eventloop.rs:392-408 | for every run: a reply that may still come never has an id that leads to another command if and only if no id is shared |
| `EngineRuns.UnsharedRunsAreUnique` | jdwp-client/src/eventloop.rs:325-326 | unshared ids are unique among the outstanding commands |
| `EngineRuns.BoundedRunsAreUnshared` | jdwp-client/src/connection.rs:335-337 | no id is shared in any run that draws at most 2^32 |
| `EngineRuns.InOnePlace` | jdwp-client/src/eventloop.rs:304-358 | in every run with ids unique among the outstanding commands, each issued command is in exactly one of: queued, being written, pending, completed |
| `EngineRuns.CompletesOnce` | jdwp-client/src/eventloop.rs:392-408 | a completed command's outcome never changes again, in any continuation with ids unique among the outstanding commands |
| `EngineRuns.OutcomesAreExplained` | jdwp-client/src/eventloop.rs:153-180 | with unshared ids a caller can only be told: the JVM's answer under the command's own id, a reply timeout, a write failure, or the recorded shutdown cause; never "without recording a reason" |
| `EngineRuns.NobodyWaitsAfterExit` | jdwp-client/src/eventloop.rs:289-298 | once the loop is gone no command, pending, queued or issued later, is left waiting, those without another answer are told the recorded cause, and every caller that still listens has an outcome |
| `EngineRuns.TickIsExact` | jdwp-client/src/eventloop.rs:335-358 | a tick removes and tells exactly the entries older than 30 s, and touches no other command |
| `EngineRuns.BudgetRunsFromWriting` | jdwp-client/src/eventloop.rs:325-358 | the 30 s run from the moment the command was written: whatever happens in between, a tick gives up a waiting command if and only if they have passed since |
| `EngineRuns.ReplyFindsItsCommand` | jdwp-client/src/eventloop.rs:392-408 | with unshared ids a reply completes the command it answers and changes nothing else; it is discarded as unknown only if that command timed out or its write failed |
| `EngineRuns.QuietMeansSettled` | jdwp-client/src/eventloop.rs:248-298 | with unshared ids, when all is quiet nobody is left waiting |
| `EngineRuns.QuietMeansAnswered` | jdwp-client/src/eventloop.rs:248-298 | and every command that did not itself time out or fail to be written has its own answer, whatever became of the others |
| `EngineRuns.WriteOrderIsIssueOrder` | jdwp-client/src/eventloop.rs:128-132 | commands are written in issue order, none skipped, none twice, and the unwritten ones are still queued until the queue closes |
| `EngineHistory.FramingIsExact` | jdwp-client/src/eventloop.rs:516-559 | however the bytes were split into reads and whatever ran in between, the packets handed to the loop are the framing of everything read |
| `EngineHistory.CauseIsTrue` | jdwp-client/src/eventloop.rs:289-298 | the recorded cause is what happened: the consumer was dropped, the stream is not JDWP, or the JVM hung up; never a reader that ended without reporting |
| `EngineHistory.ReaderReportsBeforeItEnds` | jdwp-client/src/eventloop.rs:282-286 | the running loop never finds the packet channel closed and empty, so its arm for that is never taken |
| `EngineHistory.AbandonTouchesNobodyElse` | jdwp-client/src/connection.rs:172-180 | giving up on one command leaves the same runs possible, with the same bytes and the same outcome for every other command |
| `WrappedIds.WrappedIdLosesACommand` | jdwp-client/src/connection.rs:335-337 | the id bound is exact: with one more draw there is a run in which a duplicate id overwrites a pending entry and its caller is told that no reason was recorded |
| `WrappedIds.WrappedIdMisroutesALateReply` | jdwp-client/src/eventloop.rs:392-408 | and a run, its ids unique among the outstanding commands but not unshared, in which the late answer to a command that timed out is delivered to a later command with its id |
| `EventLoop.EventLoop.Send` | jdwp-client/src/eventloop.rs:350-350 | an outcome reaches its caller, or is discarded if the caller has gone |
| `EventLoop.EventLoop.HandleOutgoingCommand` | jdwp-client/src/eventloop.rs:304-327 | write, flush, then enter in the pending map; either failure tells the caller Io and enters nothing |
| `EventLoop.EventLoop.ListLapsed` | jdwp-client/src/eventloop.rs:339-345 | the listed ids are exactly those over the budget |
| `EventLoop.EventLoop.CleanupPendingReplies` | jdwp-client/src/eventloop.rs:335-358 | removing the listed entries one by one, each told first, comes to the one-step cleanup the engine takes |
| `EventLoop.EventLoop.RouteReplyTo` | jdwp-client/src/eventloop.rs:392-408 | the decoded reply, or the decoding error, goes to the entry under its id and that entry goes |
| `EventLoop.EventLoop.HandleEventPacket` | jdwp-client/src/eventloop.rs:415-453 | never waits: the event set the bytes after the header parse to reaches the consumer's channel if the consumer is there and fewer than 256 wait; a full channel drops it, a gone consumer stops the loop, a malformed event is ignored |
| `EventLoop.EventPacketParses` | jdwp-client/src/eventloop.rs:418-423 | the packet a JVM writes for a composite event parses, after its header, to that event set |
| `EventDelivery.TakenInOrder` | jdwp-client/src/eventloop.rs:262-288 | for every run: the packets the loop took are the first of those the JVM sent, in order, and the others are still in flight |
| `EventDelivery.ConsumerGetsWhatIsDue` | jdwp-client/src/eventloop.rs:415-453 | for every run: what the consumer received, followed by what waits for it, is exactly the event sets of the packets taken while it was there and fewer than 256 waited, in order |
| `EventDelivery.SentEventIsDue` | jdwp-client/src/eventloop.rs:415-453 | an event packet of the JVM, taken then, is due as the events it was sent for |
| `EventLoop.EventLoop.HandleIncomingPacket` | jdwp-client/src/eventloop.rs:367-389 | replies are routed, events broadcast, and a read error is the cause the loop stops with |
| `EventLoop.EventLoop.TakeTurn` | jdwp-client/src/eventloop.rs:262-288 | each ready branch is handled, and an outgoing command is written |
| `EventLoop.EventLoop.Stop` | jdwp-client/src/eventloop.rs:289-298 | the cause is recorded and the pending map dropped |
| `EventLoop.EventLoop.Task` | jdwp-client/src/eventloop.rs:248-298 | over any sequence of ready branches, the closed channel among them, and of what callers and consumer do in between, the loop does turn after turn until one gives a cause, then records it and drops the pending map; what it has written is the commands it took, in order |
| `EventLoop.TurnIsSteps` | jdwp-client/src/eventloop.rs:262-288 | each turn of the loop is a legal sequence of engine steps with the same effect, and no packet is taken between a write and its entry in the pending map |
| `EventLoop.StopIsSteps` | jdwp-client/src/eventloop.rs:289-298 | what the loop does after its last turn is what the engine does: the cause first, then the pending map |
| `Wave.AlwaysOneThingToDo` | jdwp-client/src/connection.rs:269-292 | until all is done the caller has exactly one thing to do: issue, await the oldest, or push a refusal once the window is drained |
| `Wave.OneWaitPerWindow` | jdwp-client/src/connection.rs:222-226 | in lockstep, where a wait that blocks ends when everything issued so far is answered, a wave of n blocks exactly ceil(n/16) times |
| `WaveRuns.SeenStays` | jdwp-client/src/eventloop.rs:160-180 | once a command has an outcome its caller sees the same one whenever it looks, the shutdown cause included |
| `WaveRuns.WaveIsPositional` | jdwp-client/src/connection.rs:251-254 | for every run of a wave among any other callers, events, ticks, timeouts, failures and a shutdown, with ids unique among the outstanding commands: result i is what became of command i then and ever after, and at most 16 are in flight |
| `WaveRuns.BoundedWaveIsUnshared` | jdwp-client/src/connection.rs:335-337 | ids are unshared, and so unique, in every run of a wave that draws at most 2^32 |
| `WaveRuns.WaveGetsItsAnswers` | jdwp-client/src/connection.rs:251-254 | for every run of a wave with unshared ids, result i is the JVM's answer to command i under its id, unless command i itself timed out, failed to be written or met the shutdown, which is then what it says |
| `WaveRuns.WaveGoesOn` | jdwp-client/src/connection.rs:255-295 | with unshared ids, once the engine is quiet, or gone, the wave can go on until it has a result for every command |
| `WaveRuns.WaveBlocksPerWindow` | jdwp-client/src/connection.rs:222-226 | a finished wave none of whose commands was refused makes the calls that block, in lockstep, ceil(n/16) times |
| `ReadIndependently.EventLoopHandle.Issue` | jdwp-client/src/eventloop.rs:99-106 | the next command joins the engine's queue once there is room, or the error of the recorded shutdown comes back |
| `ReadIndependently.EventLoopHandle.Await` | jdwp-client/src/eventloop.rs:160-163 | waits, while the others run, until the command has an outcome, and returns it |
| `ReadIndependently.Drain` | jdwp-client/src/connection.rs:282-292 | everything in the window is awaited, oldest first |
| `ReadIndependently.ReadIndependently` | jdwp-client/src/connection.rs:255-295 | whatever the schedule, the code's execution is a run of the wave over the engine and its results are that run's; it uses every turn in which it can issue or take a reply, and has one result per command unless it is never scheduled again |
| `Wave.Counters.NextId` | jdwp-client/src/connection.rs:335-337 | ids are those of successive tickets, wrapping at 2^32 |
| `Wave.Counters.PacketsSent` | jdwp-client/src/connection.rs:349-352 | the count is exact if and only if fewer than 2^32 - 1 ids have been drawn |
| `Wave.Counters.CountWave` | jdwp-client/src/connection.rs:261-262 | a wave of n counts ceil(n/16) round trips, saturating at 32 bits |
| `Wave.DrawIds` | jdwp-client/src/connection.rs:335-337 | a wave of n consumes exactly n consecutive ids |
| `Liveness.InvKept` | jdwp-client/src/connection.rs:41-49 | every step of loop, reader, caller and JVM keeps the byte counts consistent |
| `Liveness.NeverStuck` | jdwp-client/src/connection.rs:41-49 | in every state a wave can reach with a reply owed, somebody can move, the caller awaiting only where the code does |
| `Liveness.SendBufferNeverFills` | jdwp-client/src/connection.rs:46-49 | what is written and unread belongs to the window, so the command being written fits |
| `Liveness.WaveFinishes` | jdwp-client/src/connection.rs:255-295 | no run of a wave is longer than a fixed limit, and one that cannot go on has awaited every reply |
| `Liveness.CanFinish` | jdwp-client/src/connection.rs:255-295 | from every reachable state the wave can be brought to its end |
| `Liveness.SmallCommandsAreRoomy` | jdwp-client/src/connection.rs:46-49 | sixteen times the largest command within the send buffer is enough |
| `Deadlock.SafeIfAndOnlyIfRoomy` | jdwp-client/src/connection.rs:41-49 | for waves of any length: whatever events the JVM sends somebody can always move, if and only if every sixteen commands in a row fit the send buffer |
| `Deadlock.ServeUntilJam` | jdwp-client/src/connection.rs:41-45 | otherwise the wave is served up to the window that does not fit, and there everybody waits for somebody else |
| `Liveness.IssueNeverWaits` | jdwp-client/src/eventloop.rs:185-188 | the command channel always has room for the window |
| `Packets.CommandLayout` | jdwp-client/src/protocol.rs:148-160 | length, id, flags 0, command set, command and data are at the protocol's offsets |
| `Packets.ReplyLayout` | jdwp-client/src/protocol.rs:257-274 | length, id, flags 0x80, error code and data are at the protocol's offsets |
| `Packets.RepliesDecoded` | jdwp-client/src/protocol.rs:257-274 | bytes decode to a reply if and only if they hold a header flagged 0x80, and then field by field |
| `Packets.CommandRoundTrip` | jdwp-client/src/protocol.rs:148-160 | the JVM decodes exactly the command that was encoded and starts the next where it ends |
| `Packets.ReplyRoundTrip` | jdwp-client/src/protocol.rs:257-274 | decoding a reply as a JVM encodes it gives its id, error code and data |
| `Packets.ScanInPieces` | jdwp-client/src/eventloop.rs:516-559 | scanning a stream in two pieces, the second after what the first left, scans the whole |
| `Packets.ScanStream` | jdwp-client/src/eventloop.rs:516-559 | the framing of a stream is unique: what was written packet by packet is read packet by packet, up to the first header no reader accepts |
| `Packets.FirstPacket` | jdwp-client/src/eventloop.rs:516-559 | a complete packet at the front of a stream is the first one written |
| `Packets.Socket.ReadExact` | jdwp-client/src/eventloop.rs:518-522 | the split of the stream into reads does not show in the result |
| `Packets.Socket.ReadPacket` | jdwp-client/src/eventloop.rs:516-559 | from the bytes alone: one packet off the front; NotJdwpFramed for flags other than 0 and 0x80 or a length outside 11 bytes to 10 MiB; Io where the stream ends before |
| `Packets.Socket.ReaderTask` | jdwp-client/src/eventloop.rs:227-245 | for any bytes and any arrival pattern the loop is sent the framing of the stream and then exactly one error |
| `Bytes.BigEndianRoundTrip` | jdwp-client/src/reader.rs:134-173 | network byte order loses nothing |
| `Bytes.FromBigEndianRoundTrip` | jdwp-client/src/reader.rs:134-173 | and neither does the way back |
| `Bytes.FirstByteCountsMost` | jdwp-client/src/reader.rs:134-173 | most significant byte first |
| `Bytes.TopBitCountsNegative` | jdwp-client/src/reader.rs:143-173 | a signed word with its top bit set is that much less |
| `Utf8.TextIsUtf8` | jdwp-client/src/reader.rs:127-127 | a string is accepted if and only if it encodes a sequence of Unicode scalar values in UTF-8 |
| `Bytes.ReadWrittenInt` | jdwp-client/src/reader.rs:143-173 | two's complement at any width: what is written is read back and nothing after it is touched |
| `Bytes.ReadStringWritten` | jdwp-client/src/reader.rs:114-128 | a string is read back and takes exactly its bytes |
| `Bytes.StringExtends` | jdwp-client/src/reader.rs:114-128 | bytes after a string never change how it was read |
| `Values.ReadValueByTag` | jdwp-client/src/reader.rs:91-108 | succeeds if and only if the tag is known and its width is there, with data of that tag and exactly that width consumed |
| `Values.TagDecides` | jdwp-client/src/reader.rs:91-108 | the tags of the protocol by number, and what each announces |
| `Values.ValueWritten` | jdwp-client/src/eval.rs:231-244 | write then read by tag is the identity for every well-typed value, at exactly the tag's width |
| `Values.TaggedWritten` | jdwp-client/src/eval.rs:222-225 | the same with the tag in front |
| `Events.KindDecides` | jdwp-client/src/events.rs:202-222 | the event kinds of the protocol by number, and what each is parsed to |
| `Events.LocationWritten` | jdwp-client/src/events.rs:387-394 | a location is read back whole |
| `Events.MonitorWritten` | jdwp-client/src/events.rs:244-256 | each monitor event's payload parses to the event and ends where it ends |
| `Events.StopPointWritten` | jdwp-client/src/events.rs:258-384 | the same for breakpoints, steps, exceptions, field and method-exit events; an all-zero catch location is "uncaught" |
| `Events.DetailsWritten` | jdwp-client/src/events.rs:202-222 | every supported kind consumes exactly its payload, and an unsupported one none of it |
| `Events.TimedOutUnlessZero` | jdwp-client/src/events.rs:244-256 | a monitor wait is reported timed out for every flag byte but 0 |
| `Events.NegativeCountIsEmpty` | jdwp-client/src/events.rs:172-193 | an event count below zero announces no events |
| `Events.EventSetRoundTrip` | jdwp-client/src/events.rs:172-193 | parsing any composite packet of well-formed events gives back the list, up to the tags the parser drops |
| `EventPrefixes.TruncatedSetFails` | jdwp-client/src/events.rs:172-193 | a prefix of such a packet is an error if and only if more is missing than the bytes the parser does not look at, and is otherwise read as the whole packet is |
| `EventPrefixes.EventSetLonger` | jdwp-client/src/events.rs:172-193 | a packet is the same whatever bytes follow it |
| `EventSizes.ReadBackIfAndOnlyIfParsable` | jdwp-client/src/events.rs:172-222 | a JVM's packet is read back, and parsing stops where it should, if and only if no unsupported event but the last has a payload |
| `EventSizes.EventSized` | jdwp-client/src/events.rs:202-222 | the bytes a parsed event takes depend on the event alone |
| `Events.UnsupportedEventDesynchronises` | jdwp-client/src/events.rs:202-222 | an unsupported event that is not last is read into the next one, here turning a method entry into a VM death |
| `Tables.NegativeCountIsEmpty` | jdwp-client/src/reftype.rs:95-105 | a row count below zero announces no rows |
| `Tables.TableRoundTrip` | jdwp-client/src/reftype.rs:75-107 | methods and fields in both layouts, variables, lines, interfaces and array elements: the counted table is read back, and an empty generic signature becomes none |
| `Tables.RowWritten` | jdwp-client/src/reftype.rs:342-374 | one row of each layout, consumed exactly |
| `Tables.TruncatedTableFails` | jdwp-client/src/reftype.rs:75-107 | a table cut short anywhere is an error in every layout |
| `Tables.GenericWritten` | jdwp-client/src/reader.rs:182-184 | an absent generic signature survives the empty string that stands for it |
| `Tables.LineTableRoundTrip` | jdwp-client/src/method.rs:76-97 | bounds and rows of a line table come back |
| `Tables.VariableTableRoundTrip` | jdwp-client/src/method.rs:261-289 | variable tables in both layouts come back, the argument count dropped |
| `Tables.ArrayRegionRoundTrip` | jdwp-client/src/extra.rs:235-250 | array regions: tagged elements for object tags, untagged for primitive ones |
| `Tables.InvokeReplyRoundTrip` | jdwp-client/src/eval.rs:214-220 | the returned value and the exception id, the exception's tag dropped |
| `Cursors.Cursor.TakeUint` | jdwp-client/src/reader.rs:134-173 | byte by byte, most significant first, advancing past exactly what was read |
| `Cursors.Cursor.TakeString` | jdwp-client/src/reader.rs:114-128 | agrees with the parser: value and unread bytes, or the error |
| `Cursors.Cursor.TakeValue` | jdwp-client/src/reader.rs:91-108 | agrees with the parser; an unknown tag fails before the cursor moves |
| `Cursors.TakeLocation` | jdwp-client/src/events.rs:387-394 | agrees with the parser |
| `Cursors.TakeStopPoint` | jdwp-client/src/events.rs:202-222 | agrees with the parser on every kind that is neither lifecycle nor monitor |
| `Cursors.TakeVmLifecycle` | jdwp-client/src/events.rs:229-238 | agrees with the parser on the VM's own notifications |
| `Cursors.TakeMonitor` | jdwp-client/src/events.rs:244-256 | agrees with the parser on the four monitor kinds |
| `Cursors.TakeEventPacket` | jdwp-client/src/events.rs:172-193 | the counted loop over a cursor returns what the packet parses to, so it inherits the round trip and the prefix errors |
| `Cursors.TakeTable` | jdwp-client/src/reftype.rs:95-105 | the counted loop returns what the table parses to, in every layout |
| `Cursors.TakeHead` | jdwp-client/src/reftype.rs:97-101 | the generic column is read only where the command put it |
| `Cursors.TakeLineTable` | jdwp-client/src/method.rs:76-97 | agrees with the parser |
| `Cursors.TakeVariableTable` | jdwp-client/src/method.rs:261-289 | agrees with the parser |
| `Cursors.TakeArrayRegion` | jdwp-client/src/extra.rs:235-250 | agrees with the parser |
| `Cursors.TakeInvokeReply` | jdwp-client/src/eval.rs:214-220 | agrees with the parser |
| `EventRequests.ModifierDecoded` | jdwp-client/src/eventrequest.rs:44-71 | the JVM reads each modifier as the client means it, and takes exactly its bytes |
| `EventRequests.ModifierNumbers` | jdwp-client/src/eventrequest.rs:44-71 | the modifier kinds of the protocol by number |
| `EventRequests.SetDecoded` | jdwp-client/src/eventrequest.rs:227-263 | a request that counts its first modifiers is those modifiers, and the rest is left over |
| `EventRequests.CountDecides` | jdwp-client/src/eventrequest.rs:394-396 | whatever the written count, a request means all its modifiers if and only if it counts them all |
| `EventRequests.FiltersAsked` | jdwp-client/src/eventrequest.rs:577-599 | exactly the filters given are asked for, each once: count, thread, instance |
| `EventRequests.WatchReports` | jdwp-client/src/eventrequest.rs:693-697 | the events the client accepts for a watch are accesses or modifications, as asked |
| `EventRequests.MonitorReports` | jdwp-client/src/eventrequest.rs:505-539 | the same for the four monitor requests |
| `EventRequests.MethodExitReports` | jdwp-client/src/eventrequest.rs:603-609 | and for method exits, with the returned value if it was asked for |
| `EventRequests.SetBreakpointEx` | jdwp-client/src/extra.rs:64-107 | the JVM decodes exactly the location and the filters asked for, nothing left over |
| `EventRequests.SetExceptionRequestEx` | jdwp-client/src/eventrequest.rs:227-263 | the same for exception requests, type 0 for any |
| `EventRequests.SetFieldWatchEx` | jdwp-client/src/eventrequest.rs:312-347 | the same for field watches: kind 20 for an access, 21 for a modification |
| `EventRequests.SetMonitorRequest` | jdwp-client/src/eventrequest.rs:505-539 | the same for the four monitor kinds, 43 to 46, with an optional class |
| `EventRequests.SetClassPrepare` | jdwp-client/src/eventrequest.rs:147-171 | the same for class-prepare requests |
| `EventRequests.SetStepEx` | jdwp-client/src/extra.rs:140-174 | the JVM decodes the step, each `only` and each `exclude` pattern, nothing left over, if and only if their number fits the 31-bit count |
| `EventRequests.SetMethodExitRequestEx` | jdwp-client/src/eventrequest.rs:400-443 | the JVM decodes what was asked if and only if no instance filter was given and the modifiers can be counted; an instance filter it silently drops, with bytes left over |
| `EventRequests.SetRequest.WriteCountThread` | jdwp-client/src/eventrequest.rs:577-587 | appends Count then ThreadOnly, each if present |
| `EventRequests.SetRequest.WriteInstanceOnly` | jdwp-client/src/eventrequest.rs:594-599 | appends InstanceOnly if present |
| `TypeCaches.Connection.GetSignature` | jdwp-client/src/eval.rs:25-36 | returns what an uncached call would, keeps the cache coherent, costs a packet only on a miss |
| `TypeCaches.Connection.PutSignature` | jdwp-client/src/connection.rs:420-422 | writing back what the JVM answered keeps the cache coherent |
| `TypeCaches.Connection.CachedParent` | jdwp-client/src/connection.rs:396-404 | "no superclass" is distinct from "not cached" |
| `TypeCaches.Connection.GetSuperclass` | jdwp-client/src/eval.rs:104-120 | returns what an uncached call would, 0 as none, remembers it, and costs no packet once known, at the root too |
| `TypeCaches.Connection.GetInterfaces` | jdwp-client/src/reftype.rs:152-172 | returns what an uncached call would, remembers it, and keeps the cache coherent |
| `TypeCaches.Connection.GetFields` | jdwp-client/src/reftype.rs:322-338 | returns what an uncached call would, plain where the JVM answers 99 to generic, remembers it, and costs one packet, two with the fallback, or none once known |
| `TypeCaches.Connection.GetMethods` | jdwp-client/src/reftype.rs:46-65 | the same for methods |
| `TypeCaches.Connection.Invalidate` | jdwp-client/src/connection.rs:463-469 | nothing about the type survives, and nothing else goes |
| `TypeCaches.Connection.RedefineClasses` | jdwp-client/src/vm.rs:306-328 | after a redefinition, accepted or refused, the cache is coherent with the JVM as it now is |
| `TypeCaches.Connection.PerformAll` | jdwp-client/src/connection.rs:381-478 | after any sequence of reads and redefinitions every read has returned what a connection without a cache would, and the cache is coherent |
| `TypeWaves.ReadSignaturesIndependently` | jdwp-client/src/eval.rs:48-80 | each position has the single call's signature, and fails if and only if the single call does; one packet per distinct unknown type; never more packets than the loop; what was read is remembered |
| `TypeWaves.ReadSignaturesInALoop` | jdwp-client/src/eval.rs:25-36 | the loop it replaces, with its packet cost |
| `TypeWaves.WaveNeverCostsMore` | jdwp-client/src/eval.rs:40-44 | the wave's cost against the loop's, equal when every unknown signature can be read |
| `TypeWaves.ListWanted` | jdwp-client/src/eval.rs:52-59 | the distinct uncached ids, each once |
| `TypeWaves.GetVariableTable` | jdwp-client/src/method.rs:144-163 | generic, or plain if the JVM answers 99 to that, with the packets that costs |
| `TypeWaves.RefusedCount` | jdwp-client/src/method.rs:202-210 | the extra packets are one for each position the JVM answered 99 to |
| `TypeWaves.ListRetries` | jdwp-client/src/method.rs:202-210 | exactly the refused positions, each with its own pair |
| `TypeWaves.ReadVariableTablesIndependently` | jdwp-client/src/method.rs:195-222 | result i is what the single call gives for pair i, for n packets and one more per refusal |
| `Lattice.ImplementsInterface` | jdwp-client/src/reftype.rs:208-233 | true if and only if one of the first 500 types popped has the wanted signature, whatever was cached before; then a type reachable through the JVM's own superclasses and interfaces has it |
| `Lattice.ReadUps` | jdwp-client/src/reftype.rs:227-230 | pushes exactly the interfaces the JVM lists for a type and its superclass, each as often as listed |
| `Lattice.PopsDepthFirst` | jdwp-client/src/reftype.rs:217-230 | all that the top of the queue leads to is popped before anything below it |
| `Lattice.SuperclassComesFirst` | jdwp-client/src/reftype.rs:227-230 | after a type comes all that is above its superclass, and only then its interfaces |
| `Lattice.PopsAreWhatIsAbove` | jdwp-client/src/reftype.rs:200-207 | the walk without its bound pops exactly the types reachable through superclasses and interfaces |
| `Lattice.PopsLength` | jdwp-client/src/reftype.rs:217-222 | the pops, duplicates included, are one more than the edges above the type |
| `Lattice.FoundIsAbove` | jdwp-client/src/reftype.rs:208-233 | `true` is always right |
| `Lattice.ExactWithinTheBound` | jdwp-client/src/reftype.rs:216-222 | the answer is exact whenever one plus the edges above is at most 500 |
| `Lattice.ExactIfAndOnlyIfCovered` | jdwp-client/src/reftype.rs:216-222 | all answers about a type are exact if and only if everything above it is among the first 500 pops |
| `Lattice.LongChainIsCutOff` | jdwp-client/src/reftype.rs:216-222 | in a chain of 501 classes or more, each with its own signature, the last is above the first and is not found |
| `Suspend.Vm.ResumeAllFully` | jdwp-client/src/thread.rs:329-347 | how many resumes are issued and what is left, and exactly when nothing left on the probe means that all threads run |
| `ShardPlan.Assign` | scripts/shard-plan.py:69-99 | the script's plan, its report, or its refusal, as the specification says |
| `ShardPlan.Deal` | scripts/shard-plan.py:78-83 | the loop places every test, in order, on the lightest shard so far |
| `ShardPlan.SortedIsUnique` | scripts/shard-plan.py:75-76 | there is one sorted order, ties broken by name |
| `ShardPlan.PlanIsPartition` | scripts/shard-plan.py:85-96 | every test lands in exactly one shard, so the check never refuses |
| `ShardPlan.PlanIgnoresOrder` | scripts/shard-plan.py:75-76 | the plan is the same for every order of the input |
| `ShardPlan.MedianIsMedian` | scripts/shard-plan.py:71-72 | an unrecorded test is charged the median of the recorded durations: the middle one, or the mean of the two middle ones, or 1 |
| `Medians.MedianIsUnique` | scripts/shard-plan.py:72-72 | there is one median |
| `Medians.HalfOnEitherSide` | scripts/shard-plan.py:72-72 | at least half the recorded durations are at most it and at least half at least it |
| `PlanReport.PlacedInOrder` | scripts/shard-plan.py:75-76 | tests are placed longest first by recorded duration, or the median, and of two equally long the alphabetically first |
| `PlanReport.UnknownExactly` | scripts/shard-plan.py:73-73 | the unknown tests are those without a record, ascending by name |
| `PlanReport.FloorIsTheLongest` | scripts/shard-plan.py:98-98 | the floor is the time of the longest test |
| `PlanReport.ReportIsTrue` | scripts/shard-plan.py:69-99 | the script reports its plan, the median, the unknown tests and the floor, each as above |
| `ShardPlan.LoadsAreCosts` | scripts/shard-plan.py:80-83 | loads equal the sums of their buckets, each test at its recorded duration, or the median |
| `ShardPlan.PlanIsNearOptimal` | scripts/shard-plan.py:18-20 | by recorded durations, and the median for tests without, no shard takes more than 4/3 - 1/(3m) times the heaviest of any other assignment of the same tests, the reported loads are those times, and no assignment beats the floor |
| `ShardPlan.PlanIsBalanced` | scripts/shard-plan.py:80-83 | two loads differ by at most the longest test |
| `ShardPlan.FilledExactly` | scripts/shard-plan.py:78-83 | the number of shards that get a test: the least of the shards, the tests, and one more than the tests with a duration above zero |
| `ShardPlan.PlanFillsEveryShard` | scripts/shard-plan.py:196-202 | no one of m shards is empty if and only if there are at least m tests and at least m - 1 of them have a duration above zero |
| `ShardPlan.ZeroDurationsLeaveAShardEmpty` | scripts/shard-plan.py:196-202 | two tests recorded at 0.00 seconds pass the check for two shards and leave the second empty |
| `Graham.ListBound` | scripts/shard-plan.py:18-20 | greedy in any order is within 2 - 1/m |
| `Graham.GrahamBound` | scripts/shard-plan.py:18-20 | longest-first greedy is within 4/3 - 1/(3m) of every assignment |
| `Graham.GrahamRatioIsTight` | scripts/shard-plan.py:18-20 | and the ratio is attained on every number of shards |
| `Graham.Spread` | scripts/shard-plan.py:80-83 | greedy loads differ by at most the longest item |
| `Graham.NoShardEmpty` | scripts/shard-plan.py:196-202 | greedy in any order fills every shard once as many items as shards are positive |
| `Graham.ShardsFilled` | scripts/shard-plan.py:78-83 | positive items first and ties to the first shard, items of no duration all go to one shard: exactly how many shards are used |

## Left out

- Engine.Apply: a failed write leaves the JVM with the whole command or with none of it; a command torn in the middle, after which the JVM cannot follow the stream, is not modelled.
- Engine.Apply: the JVM is assumed to answer only commands it was sent and each at most once, with packets of at most 10 MiB; what follows its last whole packet is arbitrary bytes. `Packets.Socket.ReaderTask` covers arbitrary bytes throughout.
- Wave.OneWaitPerWindow: is about lockstep; with replies arriving in other rhythms a wave may block up to once per command, and for a wave with refused commands the waits are not counted.
- Liveness.NeverStuck: counts bytes without their contents, for one wave with any events the JVM sends; other callers' commands and the timeout tick are in `Engine`, not here.
- EventRequests.SetMethodExitRequestEx: the sum of the modifier count wraps at 32 bits as in a release build; a debug build stops there.
- TypeCaches.RedefineClasses: a redefinition changes answers about the redefined types only, and its reply arrives; clones of a connection racing a redefinition, a lost reply and a second debugger are not modelled.
- Suspend.ResumeAllFully: commands that fail on the wire return early and are not modelled.
- Connecting, the handshake, logging, error wording and the quoting of foreign bytes.
- Floating-point values are bit patterns; durations in the planner are exact reals, not doubles.
- The reply to EventRequest.Set and the Clear commands: further fixed-width codecs.
- The remaining commands of the client, the MCP server, and the other scripts: instances of the codecs and waves above, or text reports.
