# A verified model of the RFID edge agent

The agent reads tags with an IDT-85 reader on a serial line, turns successive inventories into ENTER and EXIT
events, writes every event to a local queue, and forwards the queue to a cloud that keeps one record for each
`edge_event_id`. This project models that pipeline in Dafny, from the bits of a frame to the run of the whole
agent, and proves what each stage promises and what the stages promise together.

| file | models |
|---|---|
| `Crc16.dfy`, `CrcTheorems.dfy`, `CrcDistance.dfy`, `CrcPreset.dfy` | the CRC of a frame: the loops, a bit-serial reference, which errors the check finds, the preset and two recorded frames |
| `Frames.dfy` | commands on the wire, and the rule by which a reply is read back |
| `Inventory.dfy` | the strict and the lenient parser of an inventory reply |
| `Presence.dfy`, `PresenceTheorems.dfy`, `PresenceOrder.dfy` | the presence engine, its sliding window, the events it emits and their order |
| `EventQueue.dfy` | the table of events, what `fetch_pending` selects, and a journal of all that leaves the process |
| `DeliveryProtocol.dfy` | store and forward as a step machine, with a crash possible between any two commits |
| `DeliveryCounts.dfy` | what the columns of the event table say, over all runs |
| `DeliveryFairness.dfy`, `FairnessExactly.dfy` | the order of attempts is fair, and exactly when |
| `Delivery.dfy` | a delivery round as the code runs it, act by act a run of that machine |
| `Health.dfy` | the flags a heartbeat reports |
| `SerialLine.dfy`, `Reader.dfy`, `ReaderTheorems.dfy` | serial handles under a monitor, the reader adapter, connecting and discovery, and what they come to in bytes |
| `Turns.dfy` | one turn of the supervisor loop as a function on values |
| `Agent.dfy` | the supervisor as it runs, shown to do exactly that |
| `TurnTheorems.dfy`, `EarlyRetry.dfy`, `LinkTheorems.dfy` | health flags and connection attempts over whole runs |
| `ScanTheorems.dfy` | from the replies of the reader to the events, over whole runs |
| `StoreTheorems.dfy`, `RoundTheorems.dfy` | from the events to the queue and the cloud, over whole runs |
| `HeartbeatTheorems.dfy` | when heartbeats are sent and what they report, over whole runs |

`dafny verify dfyconfig.toml` checks everything.

Loops and objects of the source are loops and classes here. A method is proved against a function on values, and the
properties are lemmas about that function. For the supervisor the function is `Turns.Turn`: the contract of
`Agent.RunAgent` gives the whole state after a run, every frame that was written included, as `RunOf`, so every
theorem about `RunOf` is one about the agent. What the agent cannot decide is a stream of answers: the clock, the
bytes that arrive, exceptions of the serial line, ids from `uuid4` and stamps, the fate of each request, and whether
listing the ports or an insert raises. A request ends in one of three ways: acknowledged, which the cloud does only
when it holds the id; taken in with the reply lost; or not taken in. The last two look alike to the agent.

Where the code and its documentation differ, the model follows the code:

- With the verify method `AUTO` a probe falls back to a work-mode query when the reader-info query is not answered
  as expected; the README of the repository mentions only the reader-info command.
- Connection attempts are spaced by `reader_discovery_interval`; the README names `SERIAL_RECONNECT_INTERVAL`.
- `src/mvd_edge/app.py:613-616` corrects a READY state without a reader. That state is never reached: the
  invariant `LineOk` says so, and `ScanIfReady` asserts it.

Three properties fail when the clock is set back. For each there is a lemma that shows it failing and one that says
exactly when it holds:

| property | fails | holds exactly when |
|---|---|---|
| attempts are fair | `SetBackClockIsUnfair`, with every batch size but 0, after every schedule with the clock set back somewhere | `FairExactlyWhenInOrder`: the queue is fair now, and its pending rows were created in table order or the batch size is 0 |
| a tag is held while its latest sighting is less than the timeout ago | `SetBackClockLosesATag`, for every tag and timeout | `SimpleWindowIsRightExactlyWhen`: unless an update came late since that sighting and the last one did not; `EntriesAreTheWindow` says what is held in all cases |
| connection attempts are the interval apart | `SetBackClockRetriesEarly`, for every configuration with a port | `SpacingIsSureExactlyWhen`: the clock was not set back between the attempt and the reading its retry counts from; `RetriesWaitForTheInterval` and `RetriesAreTimely` say when attempts are made in all cases |

Every other theorem holds for every clock, or names the readings that must not run backwards.

## Model

| member | source | states |
|---|---|---|
| Crc16.Crc | src/mvd_edge/adapters/idt85.py:46-58 | The two nested loops, a byte at a time, compute the bit-serial checksum: one register step for each message bit, least significant first, from the preset that CrcPreset.OnlyThisPreset singles out |
| Crc16.ByteAtOnce | src/mvd_edge/adapters/idt85.py:49-56 | Xoring a whole byte into the register and stepping eight times equals feeding its eight bits one by one |
| CrcTheorems.StepIsInjective | src/mvd_edge/adapters/idt85.py:53-56 | One bit step loses no information |
| CrcTheorems.FeedIsInjective | src/mvd_edge/adapters/idt85.py:49-56 | Feeding the same bits keeps different registers different, for messages of any length |
| CrcTheorems.StepsAreLinear | src/mvd_edge/adapters/idt85.py:52-56 | Any number of steps is linear over xor |
| CrcTheorems.ResidueIsZero | src/mvd_edge/adapters/idt85.py:153-159 | A frame of at least three bytes is accepted exactly when its CRC, trailer included, is zero |
| CrcPreset.PresetComplementsTwoBytes | src/mvd_edge/adapters/idt85.py:46-58 | The register starts with all ones, said without naming them: the checksum is what a register that starts with zero makes of the message with its first two bytes complemented |
| CrcPreset.OnlyThisPreset | src/mvd_edge/adapters/idt85.py:47 | For every message of two bytes or more that holds of the preset 0xFFFF and of no other |
| CrcPreset.RecordedReplyIsValid | src/mvd_edge/adapters/idt85.py:162-175 | The recorded no-tag reply 05 00 01 FB F2 3D is accepted, and means no tags |
| CrcPreset.RecordedCommandIsBuilt | tests/test_discovery.py:445 | The inventory command for address 0 is 04 00 01 DB 4B |
| CrcTheorems.BurstsAreDetected | src/mvd_edge/adapters/idt85.py:153-159 | Two accepted frames of equal length, whatever it is, that differ inside 16 consecutive bits only are equal |
| CrcTheorems.CrcKeepsParity | src/mvd_edge/adapters/idt85.py:46-58 | The CRC of any bytes has the bit parity of the bytes |
| CrcTheorems.OddErrorsAreDetected | src/mvd_edge/adapters/idt85.py:153-159 | Of two frames that differ in an odd number of bits at most one is accepted |
| CrcDistance.PowersDiffer | src/mvd_edge/adapters/idt85.py:52-56 | Fewer than 32767 bit steps never bring a register with one bit set back to itself |
| CrcDistance.TwoErrorsGoUnnoticedExactlyWhen | src/mvd_edge/adapters/idt85.py:153-159 | In a frame of any length, two flipped bits of an accepted frame go unnoticed exactly when they are a multiple of 32767 places apart |
| CrcDistance.AcceptedDifferMuch | src/mvd_edge/adapters/idt85.py:153-159 | Two accepted frames of one length, up to 4095 bytes, are equal or differ in at least four bits |
| CrcDistance.FewErrorsAreDetected | src/mvd_edge/adapters/idt85.py:153-159 | Flipping any one, two or three bits of an accepted frame of up to 4095 bytes makes it rejected |
| Frames.CommandFrame | src/mvd_edge/adapters/idt85.py:61-66 | A command can be framed exactly with at most 251 parameter bytes; its first byte counts the rest, its fields are where they belong, and it passes the CRC check with residue zero |
| Frames.CommandBytes | src/mvd_edge/adapters/idt85.py:69-86 | The four commands, byte by byte, each with the right CRC |
| Frames.RepliesAreToldApart | src/mvd_edge/adapters/idt85.py:89-93 | A well-formed reply to a command of one kind is taken for that kind and for no other |
| Frames.WorkModeIsReadBack | src/mvd_edge/adapters/idt85.py:96-103 | The mode printed into a work-mode reply, of whatever address, status and further bytes, is the mode read, also when more bytes arrive |
| Frames.WorkModeInBytes | src/mvd_edge/adapters/idt85.py:96-103 | A mode is read exactly from replies of at least five bytes with 0x36 in byte 2, and it is byte 4 |
| Frames.ReadFrameLength | src/mvd_edge/adapters/idt85.py:276-284 | A reply is a prefix of the bytes that arrive, as long as its first byte says or as there are bytes |
| Frames.CommandsDiffer | src/mvd_edge/adapters/idt85.py:61-66 | Equal frames come from equal addresses, commands and parameters |
| Frames.SplitUndoesConcat | src/mvd_edge/adapters/idt85.py:276-284 | The read rule, repeated, cuts a stream of frames apart at exactly their borders |
| Frames.CommandStreamsAreUnambiguous | src/mvd_edge/adapters/idt85.py:61-86 | A byte stream of commands is split into those commands, and comes from one sequence of requests only |
| Inventory.ParseInventoryResponse | src/mvd_edge/adapters/idt85.py:119-150 | The lenient parser returns the hex of the records that can be read, and nothing unless the reply is an inventory reply with a tag status |
| Inventory.ReadTagList | src/mvd_edge/adapters/idt85.py:131-150 | Its loop stops at the announced count or where no complete record starts |
| Inventory.ClassifyInventoryResponse | src/mvd_edge/adapters/idt85.py:177-218 | The strict parser, branch by branch, over every frame |
| Inventory.ClassifyTagList | src/mvd_edge/adapters/idt85.py:199-218 | Its loop: VALID with all tags if the announced number of records is there, MALFORMED otherwise |
| Inventory.LongestIsRead | src/mvd_edge/adapters/idt85.py:135-148 | What the loops read re-encodes to a prefix of the tag list, and no further complete record fits the bytes and the count |
| Inventory.ReadingIsUnique | src/mvd_edge/adapters/idt85.py:135-148 | Records that a body starts with are the records that are read |
| Inventory.AcceptedExactly | src/mvd_edge/adapters/idt85.py:177-218 | Exactly which frames are accepted, byte by byte: a length byte that agrees or is zero, byte 2 equal to 1, and then the no-tag reply with its CRC, or a status from 1 to 4 and as many records as announced between the count and the CRC |
| Inventory.TagsReencode | src/mvd_edge/adapters/idt85.py:199-218 | The tags of an accepted reply are the hex of EPCs that re-encode to what follows the count, and of no other EPCs |
| Inventory.ClassifyUndoesPrint | tests/test_idt85.py:82-92 | Every tag list that fits its length and count bytes is read back from the frame built of it, as upper-case hex |
| Inventory.ParsersAgree | src/mvd_edge/adapters/idt85.py:119-218 | What the strict parser accepts the lenient one reads alike; of every tag reply, truncated or not, the lenient one returns the longest run of complete records, which is shorter than announced where a framed reply is refused |
| Inventory.ShortReadsAreRefused | src/mvd_edge/adapters/idt85.py:276-284 | A reply accepted as VALID arrived in full, and its length byte, even zero, agrees with its length |
| Inventory.HexAllIsInjective | src/mvd_edge/adapters/idt85.py:148 | Different EPC lists print differently |
| Inventory.HexDigits | src/mvd_edge/adapters/idt85.py:216 | The text of a tag is two upper-case digits for each byte, the high half first |
| Presence.PresenceState.Update | src/mvd_edge/event_engine/state.py:26-72 | The three loops update the insertion-ordered dictionary and emit the stamped ENTERs, then the EXITs in insertion order, as the value-level step says; PresenceOrder.EventsAreInOrder says which order that is |
| Presence.PresenceState.EnterVisible | src/mvd_edge/event_engine/state.py:35-49 | The first loop: an ENTER for each tag without an entry, and every sighting recorded |
| Presence.PresenceState.ExitOverdue | src/mvd_edge/event_engine/state.py:51-67 | The second loop: an EXIT, and a key to drop, for each overdue entry of this reader, in order |
| Presence.PresenceState.DropExpired | src/mvd_edge/event_engine/state.py:69-70 | The third loop drops exactly the overdue entries, and no deletion in it misses its key |
| PresenceTheorems.KeyIsInjective | src/mvd_edge/event_engine/state.py:74-78 | With NUL-free reader ids, the key of a tag determines the reader and the EPC |
| PresenceTheorems.KeysSeparateReaders | src/mvd_edge/event_engine/state.py:54 | No key starts with the prefixes of two readers |
| PresenceTheorems.EpcOfKey | src/mvd_edge/event_engine/state.py:80-81 | The EPC comes back out of a key, whatever it contains |
| PresenceTheorems.ReadersDoNotInterfere | src/mvd_edge/event_engine/state.py:35-81 | In any interleaving the events and entries of one reader are those of a fresh engine that serves it alone |
| PresenceTheorems.EntriesAreTheWindow | src/mvd_edge/event_engine/state.py:32-72 | For every clock: a tag is held with time s exactly when its latest sighting was at s and every update of its reader since came within the timeout |
| PresenceTheorems.WindowUnderMonotoneClock | src/mvd_edge/event_engine/state.py:57 | With a clock that does not run backwards: exactly when the latest sighting, at s, is less than the timeout before the reader's last update |
| PresenceTheorems.SimpleWindowIsRightExactlyWhen | src/mvd_edge/event_engine/state.py:57 | For every clock: that reading is right about a tag exactly unless an update came late since its latest sighting and the last update did not |
| PresenceTheorems.SetBackClockLosesATag | src/mvd_edge/event_engine/state.py:57-70 | For every reader, tag and timeout a run with the clock set back drops a tag that was sighted less than the timeout before the last update |
| PresenceTheorems.EventsAreWindowChanges | src/mvd_edge/event_engine/state.py:35-67 | An update emits ENTER exactly for untracked tags sighted and EXIT exactly for tags held or sighted that are not held afterwards, once each, for its own reader only |
| PresenceTheorems.EventsAreMembershipChanges | src/mvd_edge/config.py:278-283 | With a positive timeout the events are exactly the membership changes between successive windows |
| PresenceTheorems.ResightedTagIsSilent | src/mvd_edge/event_engine/state.py:38-49 | A tracked tag that is sighted again, however late, causes no event and stays tracked |
| PresenceTheorems.EventsAlternate | src/mvd_edge/event_engine/state.py:35-72 | Whatever the clock does, the events of a tag alternate from ENTER on, and it is tracked exactly after an odd number of them |
| PresenceTheorems.EntersLessExitsAreTracked | src/mvd_edge/event_engine/state.py:35-72 | ENTERs less EXITs is always the number of entries |
| PresenceOrder.RunPlaced | src/mvd_edge/event_engine/state.py:49 | After any run the dictionary stands in the order of the latest ENTERs of its tags, a tag sighted again keeping its place |
| PresenceOrder.EventsAreInOrder | src/mvd_edge/event_engine/state.py:36-72 | In the log, the ENTERs of an update come before its EXITs; ENTERs in the order in which the update sights their tags first, EXITs in the order of the latest ENTERs of their tags |
| Texts.SanitizedIsOneLine | src/mvd_edge/storage/queue.py:17-19 | A kept error is a stretch of the original with its line ends blanked, within the length, and nothing but space is dropped around it unless it had to be cut |
| EventQueues.EventQueue.Enqueue | src/mvd_edge/storage/queue.py:46-60 | Appends a pending row, or changes nothing if the id is in the table; ids stay unique and ascending |
| EventQueues.EventQueue.FetchPending | src/mvd_edge/storage/queue.py:62-83 | Pending rows only, in (created_at, id) order, as many as the limit allows, and none that is left out is older |
| EventQueues.FetchedAreTheOldest | src/mvd_edge/storage/queue.py:75-80 | The same of the selection as a function of the table |
| EventQueues.FetchedInTableOrder | src/mvd_edge/storage/queue.py:77 | When the pending rows were created in table order the selection is the first of them |
| EventQueues.EventQueue.MarkAttempt | src/mvd_edge/storage/queue.py:85-101 | Counts the attempt and keeps the sanitized error, in the row of the id only |
| EventQueues.ErrorIsKept | src/mvd_edge/storage/queue.py:17-19 | An error is kept exactly when there is a text: at most 500 characters of it, on one line, trimmed |
| EventQueues.EventQueue.UpdatePayload | src/mvd_edge/storage/queue.py:103-112 | Replaces the payload, in the row of the id only |
| EventQueues.EventQueue.MarkDelivered | src/mvd_edge/storage/queue.py:114-126 | Marks delivered and clears the error, in the row of the id only |
| EventQueues.EventQueue.PendingCount | src/mvd_edge/storage/queue.py:128-138 | The number of places in the table that hold a pending row |
| EventQueues.EventQueue.Get | src/mvd_edge/storage/queue.py:140-162 | The row of the id, or nothing exactly when there is none |
| EventQueues.UpdateKeepsSchema | src/mvd_edge/storage/queue.py:168-179 | Updates keep row ids ascending and event ids unique |
| DeliveryProtocol.StepIsSafe | src/mvd_edge/app.py:197-216 | Every step, a crash included, keeps the invariant that ties rows, cloud and the event in hand to the payloads first enqueued |
| DeliveryProtocol.RunIsSafe | src/mvd_edge/app.py:189-225 | So does every run |
| DeliveryProtocol.EffectivelyOnce | src/mvd_edge/transport/cloud.py:62-78 | After any run with crashes, lost replies and refusals the cloud holds no event twice and every DELIVERED event exactly once, and all payloads equal the one first enqueued up to edge_send_at |
| DeliveryProtocol.NothingIsLost | README.md:135-147 | An id has exactly one row if it was ever enqueued, and no row and no cloud record if it was not |
| DeliveryProtocol.FirstIsFirstEnqueued | src/mvd_edge/storage/queue.py:53 | The payload kept is that of the first enqueue under the id; later ones are ignored |
| DeliveryProtocol.DeliveredForGood | src/mvd_edge/storage/queue.py:114-126 | Along any run rows stay, keep ids and creation time, only add attempts, and DELIVERED never reverts; the cloud only grows |
| DeliveryProtocol.CloudTakesIn | src/mvd_edge/transport/cloud.py:45-87 | The cloud keeps what it holds, and afterwards holds the id of a request exactly if it did before or took the request in, acknowledged or not |
| DeliveryProtocol.RunIsReplayed | src/mvd_edge/storage/queue.py:46-126 | What a run leaves in the table and at the cloud is what its commits and requests do, one after the other |
| DeliveryProtocol.CutShort | src/mvd_edge/app.py:197-216 | However a run is cut short, the commits and requests done by then are those of a prefix of its steps |
| DeliveryCounts.AttemptsAreRequests | src/mvd_edge/app.py:198-216 | After any run, attempt_count is the number of requests made for the event, less at most one for each crash |
| DeliveryCounts.ColumnsAlwaysAgree | src/mvd_edge/storage/queue.py:85-126 | In every reachable state, crashes and mid-round included: delivered_at is set exactly in DELIVERED rows and last_attempt_at exactly in tried ones; only tried rows are DELIVERED or show an error; a DELIVERED row shows none |
| DeliveryCounts.RequestsAreSavedFirst | src/mvd_edge/app.py:198-203 | A request is made only for a pending event, and its payload, edge_send_at included, is in the table before it is sent |
| DeliveryFairness.AttemptsAreFair | src/mvd_edge/storage/queue.py:62-101 | When enqueue times do not run backwards, at every moment, mid-round and after crashes, a pending row has been tried at least as often as every younger row, by the stored count and by the requests made |
| FairnessExactly.FairExactlyWhenInOrder | src/mvd_edge/storage/queue.py:76-78 | After any run, between rounds or after a crash, and for every batch size: the queue is fair and stays so whatever rounds of that size follow, until the next enqueue, exactly when it is fair now and its pending rows were created in table order, or nothing is ever tried because the size is 0 |
| FairnessExactly.FairExactlyWhenScheduledInOrder | src/mvd_edge/storage/queue.py:76-78 | After enqueuing different events, and for every batch size but 0: whatever rounds of that size follow are fair exactly when the clock was never set back between the events |
| FairnessExactly.SetBackClockIsUnfair | src/mvd_edge/storage/queue.py:77 | For every batch size but 0, after every schedule of enqueues with the clock set back somewhere: rounds of that size, cut short by crashes, exist after which the younger event has been tried more often than the older one still waiting |
| Delivery.CloudTransport.SendPayload | src/mvd_edge/transport/cloud.py:45-87 | One request, which the cloud takes in unless refused, and success exactly when it was acknowledged |
| Delivery.CloudTransport.SendHeartbeat | src/mvd_edge/transport/cloud.py:89-119 | The heartbeat is sent, and the result says whether it was acknowledged, and if not why |
| Delivery.DeliverOne | src/mvd_edge/app.py:198-216 | In this order: the refreshed payload is saved, one request is made with it, the attempt is counted, and only an acknowledged event is marked delivered |
| Delivery.DeliverBatch | src/mvd_edge/app.py:195-225 | The loop does so for each event, in order, and counts the acknowledged ones |
| Delivery.ProcessPendingDeliveries | src/mvd_edge/app.py:189-225 | A round: the batch fetched, the acts for each event in order, the table and the cloud after it, and the number returned |
| Delivery.TripIsSteps | src/mvd_edge/app.py:198-216 | The acts of one turn are those of three or four protocol steps, with the same outcome |
| Delivery.RoundIsSteps | src/mvd_edge/app.py:189-225 | A round is a run of the protocol: the same commits and requests, in the same order, to the same table and cloud |
| Delivery.RoundSettlesItsBatch | src/mvd_edge/app.py:197-216 | A round without a crash settles each row of its batch by its own reply and leaves all others as they were |
| Delivery.RoundInColumns | src/mvd_edge/app.py:197-216 | Column by column what a round does to a row of its batch, by the reply to its request |
| Delivery.RoundReturnsTheDifference | src/mvd_edge/app.py:225 | The number returned is pending before less pending after |
| Delivery.RoundsDrain | README.md:135-147 | With every send acknowledged and no enqueues, m rounds leave n - m * limit of n pending events, and none from round ceil(n / limit) on |
| Health.FailedAttemptAgrees | src/mvd_edge/health/state.py:49-103 | A failed connection attempt leaves the flags in agreement with the scans and attempts made |
| Health.ScanAgrees | src/mvd_edge/health/state.py:66-103 | So does a scan over a connected reader, whichever way it ends |
| Health.HealthState.MarkReaderReady | src/mvd_edge/health/state.py:54-60 | Connected, and DEGRADED instead of OFFLINE or RECONNECTING until a scan says more |
| Health.HealthState.MarkReconnectAttempt | src/mvd_edge/health/state.py:62-64 | Counts the attempt and shows the reader as reconnecting |
| Health.HealthState.MarkInventorySuccess | src/mvd_edge/health/state.py:66-79 | Healthy, the no-response count and the reader error cleared, the time and the tags remembered, and the last tag kept when there are none |
| Health.HealthState.MarkInventoryNoResponse | src/mvd_edge/health/state.py:81-90 | Counts it, and OFFLINE from the third in a row on |
| Health.HealthState.MarkInventoryMalformed | src/mvd_edge/health/state.py:92-97 | Counts it without touching the no-response count |
| Health.HealthState.MarkReaderOffline | src/mvd_edge/health/state.py:99-103 | Disconnected and not responding, the error kept on one line and cut, the counts as they were |
| SerialLine.AnsweringMeans | src/mvd_edge/adapters/idt85.py:311-314 | A handle counts as answering exactly when its latest work-mode reply since it was opened parsed as ANSWER |
| SerialLine.OpenMeans | src/mvd_edge/adapters/idt85.py:251-264 | A handle counts as open exactly when it was not closed since it was last opened, and as a probe by how that was |
| SerialLine.SafeMeans | src/mvd_edge/app.py:258-318 | In a trace the monitor calls safe, every write is on an open handle; inventory goes only where the latest work-mode reply was ANSWER; probes carry only the two queries |
| SerialLine.InventoryOnlyInAnswerMode | src/mvd_edge/app.py:266-318 | In bytes: before an inventory is written in a safe trace, the latest reply to a work-mode query on its handle has at least five bytes, 0x36 in byte 2 and 0 in byte 4 |
| SerialLine.ConfiguredMeans | src/mvd_edge/app.py:281-291 | The monitor reports SET_WORK_MODE exactly when it was written |
| SerialLine.ScansMean | src/mvd_edge/adapters/idt85.py:320-325 | The monitor lists exactly the commands that were inventory commands |
| Reader.IDT85Reader.Open | src/mvd_edge/adapters/idt85.py:251-259 | Takes one more handle, or raises and leaves the line as it was |
| Reader.IDT85Reader.Close | src/mvd_edge/adapters/idt85.py:261-264 | Closes the reader's handle, if it has one, and no other |
| Reader.IDT85Reader.SendCommand | src/mvd_edge/adapters/idt85.py:266-284 | Raises without a handle or on a fault; otherwise returns what the read rule makes of the bytes that arrive; the very frame is added to those asked; the line stays safe exactly when the write was permitted |
| Reader.IDT85Reader.VerifyReader | src/mvd_edge/adapters/idt85.py:289-309 | The queries of the verify method and no others are sent, in order: reader info, work mode, or for AUTO work mode after reader info was not answered in kind; true exactly when they are answered as the method demands; an exception, and which, exactly without a handle, for an unsupported method or on a fault |
| ReaderTheorems.VerifiesExactlyWhen | src/mvd_edge/adapters/idt85.py:289-309 | A second query is sent exactly when the method is AUTO and the first is answered, but not in kind; the reader verifies exactly when the last query is answered in kind and none failed |
| Reader.IDT85Reader.GetWorkMode | src/mvd_edge/adapters/idt85.py:311-314 | The work-mode query is sent; the mode is what the reply parses as, which Frames.WorkModeInBytes tells byte by byte; when that is ANSWER the handle is answering; an exception, and which, exactly without a handle or on a fault |
| ReaderTheorems.ModeIsReadBack | src/mvd_edge/adapters/idt85.py:311-314 | When a work-mode reply arrives, with whatever behind it, the result of get_work_mode is the mode in it |
| Reader.IDT85Reader.SetAnswerMode | src/mvd_edge/adapters/idt85.py:316-318 | SET_WORK_MODE is sent, and nothing else; true exactly when it is answered in kind; an exception, and which, exactly without a handle or on a fault |
| Reader.IDT85Reader.Inventory | src/mvd_edge/adapters/idt85.py:320-325 | One command; returns the classification of what arrives, or raises; the line stays safe when the handle is known to be answering |
| Reader.ConnectAndVerifyReader | src/mvd_edge/app.py:250-322 | READY exactly when the reader opens, verifies, and is in answer mode or may be and can be put there; DISCONNECTED exactly on an exception; the handle stays open exactly when READY; which frames are sent, in order, and which message is returned, in every case; SET_WORK_MODE only where configuring is allowed; every write permitted, none an inventory command |
| ReaderTheorems.ReadyExactlyWhen | src/mvd_edge/app.py:250-322 | READY exactly when the port opens, no command fails, and the last command sent is a work-mode query whose reply says ANSWER in its bytes |
| Reader.RequireReader | src/mvd_edge/app.py:261-318 | The same for the part after the port is open |
| Reader.RequireAnswerMode | src/mvd_edge/app.py:268-318 | The same for the part after the verification |
| Reader.ConfigureAnswerMode | src/mvd_edge/app.py:291-318 | The same for putting the reader in answer mode: SET_WORK_MODE, and when it is answered in kind the work-mode query again |
| Reader.ProbeReaderPort | src/mvd_edge/discovery/serial.py:158-178 | True exactly when the port opens and the reader verifies; which queries are sent, and which error is reported; the handle is closed again in every case |
| Reader.DiscoverReaderPort | src/mvd_edge/discovery/serial.py:222-276 | Probes every candidate, in order, and selects a port exactly when one alone verified; no handle stays open |
| ReaderTheorems.SelectedExactlyWhen | src/mvd_edge/discovery/serial.py:250-276 | A port is selected exactly when one candidate alone opens and verifies, and it is that one; otherwise the message tells none from several |
| Reader.ProbeAll | src/mvd_edge/discovery/serial.py:222-249 | Its loop: the candidates at which a probe succeeds, and the frames of all the probes, each with what arrives for the commands that follow those before it |
| Agent.Agent.ResolveReaderPort | src/mvd_edge/app.py:329-350 | The configured port, or what discovery finds, or the exception of listing the ports, and what that uses up |
| Agent.Agent.FindAndConnect | src/mvd_edge/app.py:572-590 | READY exactly when there is a port and the reader there connects; CONFIG_ERROR when several readers are found; the only open handle is the current reader's, exactly when READY |
| Agent.Agent.TryToConnect | src/mvd_edge/app.py:567-608 | The attempt is recorded and counted; a failed one sets the next attempt to its reading plus the interval, and marks the reader offline |
| Agent.Agent.ConnectIfDue | src/mvd_edge/app.py:565-608 | An attempt is made exactly when there is no READY reader and the reading has reached the next attempt; otherwise nothing changes |
| Agent.Agent.ScanOnce | src/mvd_edge/app.py:387-440 | One inventory command; the record of what came of it; only a valid one reaches the presence engine; an exception closes the handle |
| Agent.Agent.LoseReader | src/mvd_edge/app.py:434-440 | The handle is closed, the flags say so, and the next attempt is the reading after the drop plus the interval |
| Agent.Agent.SenseTags | src/mvd_edge/app.py:418-433 | The events of a valid scan are those the presence engine emits, stamped with the next ids |
| Agent.Agent.ScanIfReady | src/mvd_edge/app.py:612-632 | A scan is made exactly when READY; a READY state always has its reader |
| Agent.Agent.EnqueueOne | src/mvd_edge/app.py:634-646 | One event becomes one row whose payload carries its id, kind, EPC and time, the reader and the configured identity |
| Agent.Agent.EnqueueAll | src/mvd_edge/app.py:634-646 | Every event of the scan does, in order, up to the first insert that raises |
| Agent.Agent.Deliver | src/mvd_edge/app.py:228-247 | One round over the queue, and the delivery time set to the reading after it |
| Agent.Agent.RetryIfDue | src/mvd_edge/app.py:659-665 | A round exactly when the retry interval since the last one is over |
| Agent.Agent.Forward | src/mvd_edge/app.py:634-665 | New events are enqueued and delivered at once, and then the queue is retried if due; RoundTheorems.NewEventsAreSentAtOnce says what that sends |
| Agent.Agent.SendHeartbeat | src/mvd_edge/app.py:667-674 | A heartbeat goes out exactly when it is due, with the flags and the pending count of that moment, and its time is the reading after it, whatever became of it |
| HeartbeatTheorems.HeartbeatsAreApart | src/mvd_edge/app.py:667-674 | For every clock: each heartbeat is found due at least the interval after the reading that followed the one before |
| HeartbeatTheorems.HeartbeatsAreTimely | src/mvd_edge/app.py:667-674 | A turn sends one exactly when it is due, and it shows the flags and the number of pending rows at the end of that turn |
| Agent.Agent.Tick | src/mvd_edge/app.py:563-674 | One turn takes the whole state, timers, counters and histories included, to that of the turn on values, and keeps the discipline of the line |
| Agent.Agent.Loop | src/mvd_edge/app.py:563-680 | So do all the turns that are asked for; after an exception nothing more happens |
| Agent.Agent.Shutdown | src/mvd_edge/app.py:686-689 | After the finally block no handle is open |
| Agent.RunAgent | src/mvd_edge/app.py:508-690 | A whole run ends in exactly the state of the run on values, with the commands of the configured address written frame by frame as that run says, no handle open, no forbidden write, and SET_WORK_MODE only if configuring is allowed |
| TurnTheorems.FlagsAgreeWithHistory | src/mvd_edge/health/state.py:43-103 | At the head of every turn and in every heartbeat: connected exactly when READY, HEALTHY exactly when responding, the status that of the last scan, and the counts those of the scans and attempts made, across reconnects |
| TurnTheorems.RetriesWaitForTheInterval | src/mvd_edge/app.py:605-628 | For every clock: an attempt comes at least the interval after the reading from which the retry of the one before counts, its own if it failed, that of the drop otherwise |
| TurnTheorems.RetriesAreTimely | src/mvd_edge/app.py:567-570 | And no later: a turn attempts to connect exactly when there is no READY reader and its reading has reached that time |
| TurnTheorems.SpacingIsSureExactlyWhen | src/mvd_edge/app.py:626-628 | The next attempt is sure to be the interval after the last one exactly when the clock was not set back between the last one and the reading its retry counts from |
| TurnTheorems.ReconnectsAreRateLimited | src/mvd_edge/app.py:567-570 | With a clock that has not run backwards, (reconnect_count - 1) times the interval is at most the time since the first attempt, failed and dropped connections alike |
| LinkTheorems.AttemptSucceedsExactlyWhen | src/mvd_edge/app.py:572-608 | An attempt that no exception ends is READY exactly when there is a port, configured or the only one listed that answers, and the reader there ends connecting in ANSWER |
| LinkTheorems.TurnScansExactlyWhen | src/mvd_edge/app.py:565-632 | A turn makes one scan exactly when the reader was READY, or an attempt was due and could succeed |
| EarlyRetry.SetBackClockRetriesEarly | src/mvd_edge/app.py:626-628 | For every configuration with a port, a run with the clock set back makes two attempts less than the interval apart |
| ScanTheorems.HistoryIsWhatWasHeard | src/mvd_edge/app.py:387-440 | Each scan of a run is one inventory command; its record is that of a fault if the line failed, and otherwise valid, unanswered or malformed as the strict parser classifies the bytes that arrived, a valid one with the tags in them and the time of its own, later and later reading |
| ScanTheorems.PrintedTagIsSighted | src/mvd_edge/adapters/idt85.py:177-218 | An inventory reply printed from a list of EPCs, with whatever bytes behind it, carries the hex of each of them |
| ScanTheorems.NewTagEnters | src/mvd_edge/app.py:418-433 | A tag that the reply to a scan carries, and that was not tracked before, has its ENTER among the events of that turn |
| ScanTheorems.OutagesLeaveNoTrace | src/mvd_edge/app.py:418-440 | The tracked tags and the events of a run are those of its valid scans alone |
| ScanTheorems.ReturningTagIsSilent | src/mvd_edge/app.py:426-440 | A tag tracked before an outage of any length and sighted in the first valid scan after it causes no event |
| StoreTheorems.RunFollowsProtocol | src/mvd_edge/app.py:551-665 | A run of the agent is a run of the delivery protocol, commit by commit and request by request |
| StoreTheorems.DeliveredRowsAreStoredOnce | src/mvd_edge/app.py:551-556 | After any earlier runs, crashed or not, and this one, every DELIVERED row is at the cloud exactly once |
| StoreTheorems.CrashesAreCrashes | src/mvd_edge/app.py:551-665 | A crash of the agent after any of its commits and requests is a crash of the protocol: what was done by then is what a prefix of its steps does, and leaves the same table and the same cloud |
| StoreTheorems.CrashedRunsAreSafe | src/mvd_edge/app.py:551-665 | So what such a crash leaves behind is what some history of the protocol leaves, from which the next run starts, and in it every DELIVERED row is at the cloud exactly once |
| StoreTheorems.QuietAgentDrains | src/mvd_edge/app.py:651-665 | With every request acknowledged, as long as no tag comes or goes, the r rounds between two turns take min(n, r * batch size) of n pending events off the queue |
| StoreTheorems.RoundsAreTimely | src/mvd_edge/app.py:659-665 | With a clock that has not run backwards, a turn that begins when the retry interval is over makes a round, unless an exception ends it |
| RoundTheorems.NewEventsAreSentAtOnce | src/mvd_edge/app.py:634-657 | For every clock: a turn that adds events, and is not ended by an exception, inserts them all and then makes a round with one request, in order, for each of the oldest pending rows of the table with the new ones in it, as many as the batch size allows |
| RoundTheorems.NewTagIsQueued | src/mvd_edge/app.py:612-657 | So a new tag on the wire is a row inserted, and such a round made, in the same turn |
| RoundTheorems.RunsStartWithARound | src/mvd_edge/app.py:549-556 | A run starts with a round over the oldest pending rows that the last run has left |
| RoundTheorems.RoundsAreDue | src/mvd_edge/app.py:659-665 | A turn without new events does nothing to the queue, or makes one round, due by a reading of the clock in that turn, and keeps the time after it |
| StoreTheorems.RowsCarryTheEvents | src/mvd_edge/app.py:634-646 | The rows a run has added carry its events in order: all of them at the head of a turn, and after an exception all but those not reached |
| StoreTheorems.RoundKeepsPayloads | src/mvd_edge/app.py:198-200 | A round changes nothing in a payload but edge_send_at |
| StoreTheorems.QueuedEventsAlternate | src/mvd_edge/app.py:618-646 | The rows a run adds about one tag alternate ENTER, EXIT, ENTER and so on, whatever clock, reader, cloud and disk did |
| StoreTheorems.AgentIsFair | src/mvd_edge/app.py:651-665 | With a clock that has not run backwards, after earlier runs and this one a pending row has been tried and sent at least as often as every younger row |

## Left out

- HTTP, headers and response texts: a request is its payload and its fate, and so is a heartbeat.
- SQLite and JSON: the queue is a table of typed rows with one atomic change a call, so a payload without an
  `edge_event_id` cannot be written down; `created_at` is a clock reading, where the code compares its text.
- `last_error`, `last_event_at` and `last_cloud_delivery_at` of the health state: heartbeat fields that nothing
  depends on.
- Exceptions from closing a serial port, and those of the reader inside `state.update`: neither is modelled.
- Sleeping, signals, printing, logging, argument and environment parsing; the loop runs a given number of turns.
- Ranking of ports, USB filters and by-id links: discovery starts from the ranked candidates. Handles are numbered in
  the order in which they are opened, and the name of the port that each is opened on is not part of the trace.
- `health/network.py`, installers, legacy and tools.
- Reader ids that contain NUL, and updates without a reader id mixed with updates that have one: the agent uses
  one reader id in all updates, and the theorems about readers assume NUL-free ids.
- The CRC of a tagged inventory reply: the code checks the CRC of the no-tag reply only, and nothing more is claimed.
- Agent.RunAgent: exceptions other than those of the reader, of listing the ports and of an insert are not raised
  in it; a crash between any two commits is a step of DeliveryProtocol, where the delivery theorems are proved, and
  StoreTheorems.CrashesAreCrashes carries it over. A crash between a presence update and the inserts loses the
  events of that scan, in the code as in the model.
- StoreTheorems.QueuedEventsAlternate: is about the rows of one run; the presence engine starts empty in the next.
