# Verification model of the Bluetti Bluetooth-to-MQTT bridge

The bridge polls power stations over Bluetooth: it frames MODBUS RTU requests, sends them through a native
helper process, reassembles the notification chunks into replies, decodes registers into named fields, publishes
them over MQTT, and turns MQTT texts back into register writes. This project models that path and the concurrency
that keeps it sound, and proves properties of it for all inputs and all runs.

| Module | Models |
|---|---|
| `Crc`, `CrcTheory`, `CrcDistance` | the MODBUS CRC-16 and what errors it detects |
| `Commands` | the three request kinds, their frames and their response validators |
| `Session`, `Protocol` | one session's command exchange, raced against device, byte channel, noise, timers, write results and disconnects |
| `Correlation`, `Ambiguity`, `Settlement`, `Readiness`, `Chunking` | what its runs guarantee: whose reply a result is, which requests a reply can answer, which calls can return, when a session can be ready again, and what the cuts of a reply change |
| `Queue`, `Bridge`, `Blocking` | the per-address promise-chain mutex, the mutex composed with the sessions, replaced sessions included, and what a lost waiter does to it |
| `EndToEnd` | registers to parsed fields over whole runs of queue and sessions |
| `Field`, `Struct`, `Payload`, `Device`, `RoundTrip` | registers to fields, fields to text, text to setter commands, and the round trips |
| `Polling`, `Executor` | backoff arithmetic, the fast/full schedule, and the device loop with its command sets, packs and stop |
| `Requests` | the helper process's table of pending requests |
| `Connection`, `Ownership` | transports, session initialisation with retry, the manager that owns sessions, and its calls when they overlap |

## How the model is built

Objects that the source updates in place are classes whose methods are proved equal to step functions on their
contents (`Session.DeviceSession`, `Queue.DeviceWorkQueue`, `Struct.DeviceStruct`, `Polling.DevicePollingState`,
`Requests.HelperClient`) or keep an ownership invariant (`Connection`). Asynchronous code is cut at its awaits
into atomic steps; a run is any sequence of enabled steps. Any bytes may be notified at any time. Where attribution is
the point, the channel is clean: the device answers a request at most once with a proper reply, after any delay, in any
chunks, and all other notifications are AT control messages. Timers, write results, stops, clock advances and native failures may come at any time.
A byte is `bv8` and a CRC register `bv16`; numbers with a bounded range in the source are checked where the source
checks them. The CRC and framing follow MODBUS over Serial Line V1.02 (section 2.5.1.2) and the MODBUS Application
Protocol V1.1b3 (sections 6.3, 6.6, 6.12 and 7).

## Where the code differs from what is promised of it

Each of these is a theorem about the code as it is, with the exact condition where there is one.

- `src/bluetooth/device-session.ts:32` and `src/bluetooth/errors.ts:23` promise that a session accepts a retry after
  a failed command. `isReady` (`src/bluetooth/device-session.ts:122-127`) refuses it: every error that is not the device's
  word takes the session down (`Readiness.FailuresTakeDown`). A session that is not ready can become ready again if and only
  if a call holds a response it has not returned, or a waiter's bytes begin a proper reply (`Readiness.ReadyAgainExactly`;
  `Readiness.LateResumeRevives` reaches the first case from the start). The refusal is needed:
  `Ambiguity.RetryWouldMisattribute` shows a retry answered by any late reply that is proper for it.
- `isReady` accepts a second command while one is in flight. It is handed the reply to the first exactly when that reply is
  proper for it too (`Ambiguity.OverlapMisattributes`): some reply is, if and only if both use the same function, and
  some response, if and only if they read equally many registers or write the same place
  (`Ambiguity.SharedReply`, `Ambiguity.SharedResponse`). The work queue is what prevents it (`Bridge.StartFindsNoCall`).
- `disconnect` loses exactly the calls in flight that are not settled, in the middle of the write as much as after it
  (`Settlement.DisconnectLoses`). Unless its write fails, a call can return if and only if it has a waiter or a result
  (`Settlement.ReturnsUnlessLost`).
- A dropped call also blocks its address: a work item can end if and only if no item of its address up to it is blocked, and
  while one is, no later item starts, whatever follows and however often the session is replaced
  (`Blocking.EndsExactly`, `Blocking.BlockedForever`, `Blocking.BlockedIsReachable`).
- Any chunking of one reply gives the same result exactly when no chunk reads as an AT control message
  (`Chunking.AnyChunking`); with trailing bytes the result is right exactly when some chunk ends where the reply ends
  (`Chunking.TrailingBytes`, `Chunking.TrailingBytesAfterException`).
- Manager calls that overlap on one address can leak a native session: exactly when a step takes a session out of the
  map that is still held (`Ownership.LeaksExactly`, `Ownership.OverlapLeaks`). Calls that overlap on different addresses leak
  nothing (`Ownership.OwnedThroughout`). `disconnectAll` has released everything for good if and only if nothing has leaked,
  no session is still being opened, and no reconnect still awaits the disconnect of its old session
  (`Ownership.DisconnectAllReleases`): such a reconnect installs a new session with no further call, and nobody releases it
  (`Ownership.ReconnectOutlives`).
- A legacy interval above eight seconds exceeds the maximum it is given, and backoff then shortens it
  (`Polling.IntervalSane`, `Polling.BackoffNeverShortens`). A full interval raised to the fast one when the schedule is
  created (`src/app/polling-state.ts:190`) is lowered again by the first quiet cycle (`Polling.FullNeverShortens`).
- A published bool returns as a write of the same register value exactly for raw 0 and 1, an enum value exactly when it
  is a known option whose name is not ON, OFF or a different integer (`RoundTrip.BoolReturns`, `RoundTrip.EnumReturns`); LED mode
  OFF is not (`RoundTrip.LedModeOffIsLost`).
- A connection error in a pack read does not reach the reconnect branch; one in a pack selection does
  (`Executor.DeviceLoop.RunPackCommands`).
- A helper request that passes the disposed check, waits, and registers after the dispose is forgotten exactly when the
  exit finds it untold, and then not even its deadline rejects it (`Requests.ForgottenExactly`,
  `Requests.LateRequestIsForgotten`). Every other registered request has been told something or can still be
  (`Requests.UntoldExactlyForgotten`).
- `src/bluetooth/helper-client.ts:60-61` promises that a deadline keeps a wedged helper from stalling its callers. The
  deadline starts only after readiness (`src/bluetooth/helper-request.ts:45-57`): while the helper neither becomes ready nor
  fails, a waiting caller can be told anything if and only if readiness is settled already (`Requests.WaitingToldExactly`).
- Two of the three texts that mark an initialisation error as retryable contain capitals and are compared with
  lower-cased messages, so they never match (`Connection.RetryableExactly`).

## Model

| member | source | states |
|---|---|---|
| Crc.ModbusCrc | src/core/crc.ts:28-43 | the nested loops compute the shift-register checksum of the bytes |
| Crc.AppendModbusCrc | src/core/crc.ts:60-67 | a fresh buffer holding the data and its CRC, low byte first |
| Crc.HasValidModbusCrc | src/core/crc.ts:85-94 | true exactly for frames of at least three bytes that end in the CRC of the rest |
| CrcTheory.ShiftInjective | src/core/crc.ts:33-39 | no two register contents become equal by shifting: the bit step can be undone |
| CrcTheory.RunLinear | src/core/crc.ts:28-43 | the CRC register is linear over XOR of frames of equal length |
| CrcTheory.ZeroResidue | src/core/crc.ts:85-94 | a frame is accepted iff it has at least three bytes and its own CRC, trailer included, is zero |
| CrcTheory.AcceptedIsAppended | src/core/crc.ts:46-94 | among extensions of a non-empty body by two bytes, exactly the appended form is accepted |
| CrcTheory.StartComplements | src/core/crc.ts:28-43 | starting from all ones equals starting from zero with the first two bytes complemented |
| CrcTheory.SerialLineExample | src/core/crc.ts:60-67 | the example of MODBUS over Serial Line: 02 07 has the check bytes 41 12 |
| CrcTheory.FirstPollExample | src/core/crc.ts:60-67 | the first polling request 01 03 00 0A 00 28 has the check bytes 65 D6 |
| CrcTheory.Syndrome | src/core/crc.ts:85-94 | a corrupted accepted frame is accepted iff the error pattern alone leaves a zero register |
| CrcTheory.RunIsRunBits | src/core/crc.ts:31-40 | the byte-wise loop equals a bit-serial division over the bits, LSB first |
| CrcTheory.BurstDetected | src/core/crc.ts:69-94 | a non-zero error within 16 consecutive bits, anywhere in a frame of any length, CRC included, is rejected |
| CrcTheory.AcceptedIsEven | src/core/crc.ts:69-94 | every accepted frame has an even number of one bits |
| CrcTheory.OddErrorDetected | src/core/crc.ts:69-94 | any odd number of flipped bits is rejected |
| CrcDistance.PeriodExact | src/core/crc.ts:28-43 | the register's period on a single bit is exactly 32767: it returns iff 32767 divides the steps |
| CrcDistance.DoubleErrorExact | src/core/crc.ts:69-94 | two flipped bits go unnoticed iff their distance is a multiple of 32767 |
| CrcDistance.UpToThreeErrorsDetected | src/core/crc.ts:69-94 | up to three flipped bits are rejected in every frame shorter than 4096 bytes |
| CrcDistance.FourErrorsCanHide | src/core/crc.ts:69-94 | the bound is tight: four flipped bits that a frame survives |
| Commands.Uint16RoundTrip | src/core/commands.ts:143-154 | the two-byte big-endian encoding and its decoding are inverse both ways |
| Commands.WriteUint16BigEndian | src/core/commands.ts:143-154 | writes exactly two bytes of the buffer, or throws outside 0 to 65535 and writes nothing |
| Commands.BuildFrame | src/core/commands.ts:48-62 | unit, function code, payload and CRC, in that order |
| Commands.NewReadHoldingRegisters | src/core/commands.ts:187-204 | the request frame, or the error, for every pair of integers |
| Commands.NewWriteSingleRegister | src/core/commands.ts:262-269 | the request frame, or the error, for every pair of integers |
| Commands.NewWriteMultipleRegisters | src/core/commands.ts:333-353 | the request frame, or the error, for every address and payload, in the source's order of checks |
| Commands.RequestLimits | src/core/commands.ts:187-204 | with lines 262-269 and 333-353: sixteen-bit addresses and values, 1 to 125 registers read, 1 to 123 written |
| Commands.RequestImage | src/core/commands.ts:48-62 | each request's bytes on the wire, in plain numbers, before the check bytes |
| Commands.ReplyImage | src/core/commands.ts:95-118 | the first bytes and the length of every accepted reply, in plain numbers |
| Commands.ValidReadResponse | src/core/commands.ts:111-118 | with lines 228-230: valid iff the response is the CRC framing of 1, 3, 2q and 2q data bytes |
| Commands.ReadReplyRoundTrip | src/core/commands.ts:217-230 | the reply carrying any data of the right size is valid and parses back to it |
| Commands.ValidWriteSingleResponse | src/core/commands.ts:293-298 | valid iff equal to the request frame |
| Commands.ValidWriteMultipleResponse | src/core/commands.ts:367-372 | valid iff the re-framed first six request bytes |
| Commands.ExceptionResponseImage | src/core/commands.ts:95-102 | an exception response iff the CRC framing of unit, function plus 0x80 and a code |
| Commands.NoPrefixIsException | src/core/commands.ts:95-118 | no prefix of a valid response is taken for an exception |
| Commands.ReadRepliesAreAmbiguous | src/core/commands.ts:228-230 | a reply valid for one read is valid for every read of the same quantity: addresses do not show |
| Session.DeviceSession.BeginPerform | src/bluetooth/device-session.ts:242-267 | refused unless ready; else exactly the new waiter, timer, command, empty buffer and state |
| Session.DeviceSession.OnTimeout | src/bluetooth/device-session.ts:255-262 | rejects the waiter and leaves the ready states |
| Session.DeviceSession.OnWriteFailed | src/bluetooth/device-session.ts:269-279 | rejects the waiter, clears the command and goes down |
| Session.DeviceSession.FinishPerform | src/bluetooth/device-session.ts:281-287 | ready on a response, and the pending fields cleared either way |
| Session.DeviceSession.HandleNotification | src/bluetooth/device-session.ts:327-370 | the whole new state for every chunk, in every branch |
| Session.DeviceSession.ClearPendingState | src/bluetooth/device-session.ts:395-403 | cancels the timer and drops waiter, command and buffer |
| Session.DeviceSession.BeginDisconnect | src/bluetooth/device-session.ts:208-211 | clears the command without settling its waiter |
| Session.StatesSet | src/bluetooth/device-session.ts:208-288 | the state and the error that each step which hears nothing leaves |
| Session.HeardState | src/bluetooth/device-session.ts:327-370 | the state after a notification follows from what became of the waiter: ready on a response or an exception, down in the matching state otherwise |
| Session.ControlMessages | src/bluetooth/session-utils.ts:67-70 | a chunk is an AT message iff it reads as one of the two texts with the top bits dropped |
| Protocol.ChunkOfReply | src/bluetooth/device-session.ts:327-370 | a chunk of a proper reply is buffered, or completes the call with the reply's meaning, or is an AT message |
| Protocol.StepKeepsCore | src/bluetooth/device-session.ts:242-403 | whatever bytes are notified, every serialised step keeps waiter, command, timer, buffer and state coupled, the buffer shorter than the response |
| Protocol.RunKeepsCore | src/bluetooth/device-session.ts:242-403 | hence every serial run, of any length, does |
| Protocol.StepKeepsInv | src/bluetooth/device-session.ts:242-403 | on a clean channel every serialised step also keeps each outcome that claims to be the device's word its reply to that request |
| Protocol.RunKeepsInv | src/bluetooth/device-session.ts:242-403 | hence every serial run over a clean channel does |
| Correlation.ResultsAreOwnReplies | src/bluetooth/device-session.ts:242-370 | whatever `perform` returns, or throws as a MODBUS error, is the device's own reply to that request, on every clean serial run; an exception is thrown as busy iff its code is 5, and as a plain MODBUS error with its code otherwise |
| Correlation.ReadyMeansQuiet | src/bluetooth/device-session.ts:242-370 | in state Ready no reply bytes are outstanding, on every clean serial run |
| Ambiguity.SharedReply | src/core/commands.ts:95-118 | some reply is proper for two commands iff they use the same function |
| Ambiguity.SharedResponse | src/core/commands.ts:228-230 | some response is valid for two commands iff they read equally many registers, or write the same value or extent at the same place |
| Ambiguity.OverlapMisattributes | src/bluetooth/device-session.ts:122-127 | of two overlapping calls, the second is handed the reply to the first iff that reply is proper for it |
| Ambiguity.RetryWouldMisattribute | src/bluetooth/device-session.ts:255-262 | a timed-out session refuses a retry, which a late reply would answer iff it is proper for it |
| Settlement.SettlementIsFinal | src/bluetooth/device-session.ts:377-403 | whatever is notified, no step settles a settled promise again or changes a returned result |
| Settlement.WriteFailureThrows | src/bluetooth/device-session.ts:269-279 | a call whose write fails throws the transport's error and takes the session down |
| Settlement.TimeoutTells | src/bluetooth/device-session.ts:255-262 | a timed-out waiter is told so and the session waits in its error state |
| Settlement.DisconnectShows | src/bluetooth/device-session.ts:208-217 | the states during and after a disconnect |
| Settlement.CallsCanEnd | src/bluetooth/device-session.ts:242-288 | a call with a waiter or a result ends even if the device stays silent |
| Settlement.EveryCallEnds | src/bluetooth/device-session.ts:242-288 | without disconnects every accepted call of any serial run has returned or can still return |
| Settlement.ReturnsUnlessLost | src/bluetooth/device-session.ts:269-288 | unless its write fails, a call in flight can return iff it has a waiter or a result |
| Settlement.ReturnsUnlessDropped | src/bluetooth/device-session.ts:269-288 | counting write failures, a call in flight can return iff it is not dropped |
| Settlement.DroppedForever | src/bluetooth/device-session.ts:281-288 | a dropped call returns in no serial continuation, whatever is notified |
| Settlement.DisconnectLoses | src/bluetooth/device-session.ts:208-217 | after a disconnect a call in flight, in the write or after it, can return without a write failure iff it was settled |
| Settlement.DisconnectDrops | src/bluetooth/device-session.ts:208-217 | a disconnect drops exactly the unsettled calls: at once, or with the write's acknowledgement |
| Readiness.FailuresTakeDown | src/bluetooth/device-session.ts:255-370 | any step that settles the waiter with an error other than a MODBUS exception takes the session down: timeout, write failure, AT message, unreadable or overlong reply |
| Readiness.DownForGood | src/bluetooth/device-session.ts:122-127 | a session that is down becomes ready in no continuation and accepts no further command |
| Readiness.ReadyAgainExactly | src/bluetooth/device-session.ts:122-127 | a session that is not ready can become ready again iff a call holds a response, or a waiter's bytes begin a proper reply |
| Readiness.ReadyAgainOnCleanChannel | src/bluetooth/device-session.ts:122-127 | over a clean channel: iff a call holds a response or anyone waits |
| Chunking.AnyChunking | src/bluetooth/device-session.ts:327-370 | any chunking of one reply settles the call with it iff no chunk is an AT message: a response with itself, an exception as busy iff its code is 5 and as a plain MODBUS error otherwise |
| Chunking.TrailingBytes | src/bluetooth/device-session.ts:353-369 | with bytes behind a valid response the call resolves iff a chunk boundary falls at the end of the reply |
| Chunking.TrailingBytesAfterException | src/bluetooth/device-session.ts:345-369 | with bytes behind an exception it is recognised iff a chunk ends with it; else enough bytes make a ParseError and fewer leave the call waiting |
| Field.FindEnumValue | src/devices/field.ts:12-22 | the first option of that value, or the synthesised name |
| Field.SwapBytePairs | src/devices/field.ts:39-51 | adjacent bytes exchanged, an odd last byte kept, on a fresh copy |
| Field.ParseDecimalArray | src/devices/field.ts:150-156 | the scaled words of the slice, or the error of a short one |
| Field.ParseIsDecode | src/devices/field.ts:53-205 | every field kind decodes the bytes of its registers to the value specified on registers, and never fails on a full slice |
| Field.NumbersDecoded | src/devices/field.ts:71-205 | the value of every numeric field kind in plain arithmetic: a decimal times ten, as often as it has places, is the raw register |
| Field.ScaledByTen | src/devices/field.ts:128-130 | no place leaves the raw word, each further place divides by ten |
| Field.TextsDecoded | src/devices/field.ts:159-179 | strings read their registers high byte first, swapped ones low byte first |
| Field.AsciiUpToNul | src/devices/field.ts:33-37 | text ends at the first NUL and drops the top bit of each byte before it |
| Field.EnumNameIsFirst | src/devices/field.ts:12-22 | the name of the first option with the value, or UNKNOWN_ and the value |
| Field.RangeMeans | src/devices/field.ts:66-138 | a value is refused iff its field is uint or decimal with a range and the value lies outside it, ends included |
| Struct.WordsRoundTrip | src/devices/field.ts:24-31 | big-endian bytes and register words convert back and forth without loss |
| Struct.CoveredMeans | src/devices/struct.ts:105-111 | a field is covered iff it starts in the window, or at its end, and all its registers lie in it |
| Struct.WindowBinds | src/devices/struct.ts:92-122 | a name is bound iff some covered, range-accepted field has it |
| Struct.WindowBindsLast | src/devices/struct.ts:92-122 | and it is bound to the value of the last such field |
| Struct.DeviceStruct.AddMany | src/devices/struct.ts:22-27 | appends the fields in order |
| Struct.DeviceStruct.Parse | src/devices/struct.ts:92-122 | the loop computes exactly that window; only an odd length fails, and no slice leaves the data |
| Struct.ValueIsWindowIndependent | src/devices/struct.ts:92-122 | any window over a memory that covers a field decodes it as memory itself does |
| Struct.WindowOfMemory | src/devices/struct.ts:92-122 | a parsed window equals the direct decoding of the fields it covers |
| Payload.NumberRoundTrip | src/broker/payload-utils.ts:16-59 | a published whole number is read back as the same number |
| Payload.SwitchWords | src/broker/payload-utils.ts:16-54 | ON and OFF are published and understood as true and false |
| Payload.DigitsCanonical | src/broker/payload-utils.ts:39 | numbers are published without leading zeros |
| Payload.NumberTexts | src/broker/constants.ts:9 | a payload is a number iff it is digits, at least one, perhaps after a minus sign |
| Payload.NegativeNumber | src/broker/payload-utils.ts:55-57 | a sign and digits are a negative number |
| Payload.UnknownIsText | src/broker/payload-utils.ts:48-59 | a synthesised enum name is read back as text |
| Device.FullCycleIsComplete | src/devices/device.ts:103-114 | fast then slow windows are the declared windows, in order |
| Device.FastIsFirst | src/devices/device.ts:103-105 | the fast windows are the first declared one |
| Device.SetterMeans | src/devices/device.ts:174-180 | a name can be set iff a field of that name lies in a writable range, end excluded |
| Device.FindSettableFinds | src/devices/device.ts:174-209 | a settable field is found iff one exists |
| Device.SettersStayInRange | src/devices/device.ts:198-237 | a setter writes one register of a field of that name in a writable range; not writable iff no setter |
| RoundTrip.UintReturns | src/broker/payload-utils.ts:16-59 | a published uint fed back is a write of the same raw value |
| RoundTrip.BoolReturns | src/devices/field.ts:92-99 | a bool register survives the round trip iff it holds 0 or 1 |
| RoundTrip.EnumReturns | src/devices/device.ts:212-224 | an enum register survives iff its option is known and its name is not ON, OFF or a different integer |
| RoundTrip.LedModeOffIsLost | src/devices/enums.ts:34-39 | LED mode OFF is published as a text that the setter refuses |
| RoundTrip.CommandIsReadBack | src/devices/device.ts:198-237 | publish, write and read back through any window that covers the field last: the same value |
| RoundTrip.EndToEndRead | src/bluetooth/device-session.ts:327-370 | any memory, read and chunking without AT chunks: the session resolves and the payload decodes to that memory's fields |
| EndToEnd.ReadJobsDecodeMemory | src/app/device-executor.ts:149-161 | over every clean run of queue and sessions: a read item's response was given by the device to that request, and parses to the fields of the memory it was given from |
| EndToEnd.ResponseHasMemory | src/core/commands.ts:217-230 | every valid response to a read is the reply of some register memory |
| Queue.StartsWhenFirst | src/app/device-queue.ts:36-45 | an item passes its await iff every earlier item of its address has finished |
| Queue.EnqueueRefines | src/app/device-queue.ts:35-43 | enqueueing appends to one FIFO lock and touches no other address |
| Queue.StartRefines | src/app/device-queue.ts:45-48 | the lock is granted to the head of its queue and to nobody else |
| Queue.FinishRefines | src/app/device-queue.ts:49-54 | finishing or failing pops the head and touches no other address |
| Queue.MutualExclusion | src/app/device-queue.ts:35-55 | at most one item of an address runs |
| Queue.NoLostWakeup | src/app/device-queue.ts:35-55 | while work is outstanding its oldest item runs or may start |
| Queue.EntryWhileOutstanding | src/app/device-queue.ts:42-53 | the map has an entry exactly while work is outstanding, and it is the newest |
| Queue.StepKeepsInv | src/app/device-queue.ts:35-55 | every step keeps the chain invariant |
| Queue.DeviceWorkQueue.Enqueue | src/app/device-queue.ts:35-43 | the in-place update is the enqueue step |
| Queue.DeviceWorkQueue.Release | src/app/device-queue.ts:49-54 | the `finally` block is the finish step |
| Queue.DeviceWorkQueue.BeginSleep | src/app/device-queue.ts:60-83 | returns at once iff stopped or nothing to wait for; else one more sleeper |
| Queue.DeviceWorkQueue.Wake | src/app/device-queue.ts:69-80 | resolves a registered sleeper once, and has no effect the second time |
| Queue.DeviceWorkQueue.Stop | src/app/device-queue.ts:24-30 | every sleeper has then been woken, each once |
| Bridge.StartFindsNoCall | src/app/device-executor.ts:45-49 | when a work item of an address starts, no call is in flight on any session the address has had |
| Bridge.RunKeepsInv | src/app/device-executor.ts:141-229 | over whole runs, across reconnects and any notified bytes, a call in flight belongs to the running work item of its address |
| Bridge.OneCallPerAddress | src/app/device-executor.ts:204-207 | in every run at most one call per address is in flight, over all its sessions |
| Bridge.JobsGetOwnReplies | src/app/device-executor.ts:141-229 | with nothing assumed of callers but the queue, and across reconnects: each item's call returns the device's reply to its own command, or throws its exception, as busy iff its code is 5, on clean channels |
| Blocking.DisconnectBlocks | src/bluetooth/device-session.ts:208-217 | a disconnect blocks the running item iff its call was unsettled: at once, or with the write's acknowledgement |
| Blocking.BlockedForever | src/app/device-queue.ts:45-54 | in every continuation, reconnects included, the blocked item never ends and no later item of its address starts |
| Blocking.EndsUnlessBlocked | src/app/device-queue.ts:45-54 | a running work item can end iff it is not blocked |
| Blocking.EndsExactly | src/app/device-queue.ts:35-55 | an outstanding work item can end iff no item of its address up to it is blocked |
| Blocking.ReconnectDoesNotFree | src/bluetooth/manager.ts:123-138 | after a reconnect the session handed out is ready and the item as blocked as before |
| Blocking.BlockedIsReachable | src/app/device-queue.ts:45-54 | from the start, a run ends with a ready session and its address blocked |
| Polling.IntervalSane | src/app/polling-state.ts:152-174 | a legacy interval gives bases within their maxima iff it is at most 8000 ms |
| Polling.IntervalMeans | src/app/polling-state.ts:121-174 | the options that a legacy interval stands for, in plain numbers |
| Polling.FreshIsDue | src/app/polling-state.ts:183-193 | a fresh schedule is due at once, in full, with the configured timing, its full interval no shorter than the fast one |
| Polling.CyclesStayInBounds | src/app/polling-state.ts:301-345 | any sequence of busy and quiet cycles keeps all timings between the configured option and its maximum |
| Polling.BackoffNeverShortens | src/app/polling-state.ts:301-345 | no sequence of cycles goes below the configured fast interval iff it is within its maximum |
| Polling.FullNeverShortens | src/app/polling-state.ts:183-193 | no sequence of cycles goes below the full interval a fresh schedule starts from iff it is within its maximum and was not raised to the fast one |
| Polling.BusyClosedForm | src/app/polling-state.ts:301-317 | k busy cycles add k penalties, capped |
| Polling.QuietClosedForm | src/app/polling-state.ts:329-345 | k quiet cycles subtract k recovery steps, floored |
| Polling.RecoveryIsComplete | src/app/polling-state.ts:329-345 | k quiet cycles restore the bases exactly iff k steps cover the distances |
| Polling.AdvanceKeepsInv | src/app/device-handler.ts:203-336 | every pass of the loop keeps the schedule invariant |
| Polling.TimingOfCycles | src/app/device-handler.ts:257-300 | over any passes the timing is that of their cycles: busy ones back off, quiet ones recover, reconnects do neither |
| Polling.PassAims | src/app/device-handler.ts:203-331 | when the next fast and full polls are aimed after a pass, for all options |
| Polling.FastCyclesFit | src/app/device-handler.ts:203-336 | in any run, n cycles between a pass that schedules the full poll and the next such pass: n times the fast base is less than the interval it was scheduled with |
| Polling.FastCycleIsSpaced | src/app/device-handler.ts:203-336 | a fast-only cycle starts at least the stored interval after the last write and never postpones the full poll |
| Polling.DevicePollingState.ApplyBusyBackoff | src/app/polling-state.ts:301-317 | the record update is one backoff step, targets untouched |
| Polling.DevicePollingState.RecoverPollingState | src/app/polling-state.ts:329-345 | the record update is one recovery step, targets untouched |
| Executor.TurnsAreSelected | src/app/device-executor.ts:64-96 | where packs are selected, each pack read follows a confirmed selection of that very pack |
| Executor.DeviceLoop.ExecuteReadCommand | src/app/device-executor.ts:141-192 | one read, and one publish iff it succeeded and parsed to something |
| Executor.DeviceLoop.RunCommandSet | src/app/device-executor.ts:104-136 | the reads are a prefix of the list, cut only by busy, connection error or stop; publishes in order; the delays between them; the result |
| Executor.DeviceLoop.TakeTurn | src/app/device-executor.ts:69-95 | one pack's turn: its selection, then its reads only if that was confirmed |
| Executor.DeviceLoop.RunPackCommands | src/app/device-executor.ts:55-99 | all packs in order unless stopped, busy or a selection hits a connection error; the exact result; where there are several packs and the field `pack_num` lies in a writable range each read follows its pack's confirmed selection, and otherwise nothing is selected |
| Executor.DeviceLoop.RecoverDeviceConnection | src/app/device-connection.ts:45-72 | true only after an attempt, false only once stopped; every attempt starts before any stop, and five seconds follow each failure |
| Executor.DeviceLoop.ConnectAllWithRecovery | src/app/device-connection.ts:11-38 | after any number of attempts: up iff the last one connected, stopped, or the last failure thrown, which is a lost connection only in a single run; all earlier attempts lost the connection |
| Executor.DeviceLoop.EndOfCycle | src/app/device-handler.ts:280-331 | a finished cycle backs the fast interval off if busy and recovers it otherwise, aims the next polls from its end, and advances the schedule as specified, for all options |
| Executor.DeviceLoop.Iterate | src/app/device-handler.ts:203-336 | one pass, for all options: which windows and packs it reads, all of them unless a stop was requested, what it publishes, how it ends, how the schedule advances, and that a single run ends with its cycle |
| Executor.DeviceLoop.Run | src/app/device-handler.ts:203-336 | over any number of passes and for all options: the cycles the schedule calls for, only the last unfinished and only by a stop; the timing that their busy and quiet endings make; their publishes in order; every pack read after its pack's confirmed selection where the field `pack_num` can be written, and no selection elsewhere; fewer passes only on a stop or in a single run, which has one cycle; at most one command ends after a stop |
| Executor.DeviceLoop.CycleMeans | src/app/device-handler.ts:218-237 | the windows a recorded cycle reads, in plain terms: all on a full one, the first on a fast one, in order, given up at once on busy or a connection error |
| Executor.DeviceLoop.CyclePacks | src/app/device-executor.ts:55-99 | the packs of a recorded full cycle: each is read in full unless its own turn is interrupted, and a busy answer or a failed selection ends it all |
| Executor.DeviceLoop.CycleEnds | src/app/device-handler.ts:239-300 | a cycle counts as busy iff its last command was, and as lost iff its last window or selection hit a connection error |
| Executor.DeviceLoop.PacksLaw | src/app/device-executor.ts:69 | packs are selected iff there are several and some field `pack_num` lies in a writable range |
| Requests.SettledAtMostOnce | src/bluetooth/helper-request.ts:32-93 | each caller is told at most one thing; one registered before any dispose is pending exactly while told nothing |
| Requests.DeadlineSettles | src/bluetooth/helper-request.ts:57-66 | every pending request has a running deadline that settles it |
| Requests.DeadlinesRunWhilePending | src/bluetooth/helper-request.ts:55-93 | a deadline runs exactly while its request is pending, but for forgotten ones |
| Requests.FailuresTell | src/bluetooth/helper-client.ts:127-156 | what a process error, a broken pipe, an exit and a dispose tell each pending caller |
| Requests.RefusalsTell | src/bluetooth/helper-request.ts:41-79 | what a caller is told that is refused, or whose helper or write fails |
| Requests.ReadySettlesOnce | src/bluetooth/helper-line-router.ts:41-82 | readiness is settled once, by the first of ready line, malformed line, process error and exit, with their errors |
| Requests.WaitingEnds | src/bluetooth/helper-request.ts:45-81 | once readiness is settled, either way, a waiting caller registers or is told its error |
| Requests.WaitingToldExactly | src/bluetooth/helper-request.ts:45-57 | while the helper neither becomes ready nor fails, a waiting caller can be told anything iff readiness is settled already |
| Requests.ForeignLinesChangeNothing | src/bluetooth/helper-line-router.ts:35-74 | a line that names no pending request leaves table, timers and outcomes as they were |
| Requests.AnswerComesFromOwnLine | src/bluetooth/helper-line-router.ts:56-73 | any helper answer a caller is told came, after its registration, on a line with its own id |
| Requests.ForgottenExactly | src/bluetooth/helper-client.ts:136-147 | a request is forgotten iff it registered after a dispose and the exit found it untold |
| Requests.ForgottenForever | src/bluetooth/helper-client.ts:136-147 | a forgotten request is told nothing in any continuation |
| Requests.UntoldExactlyForgotten | src/bluetooth/helper-request.ts:55-67 | a registered request is told nothing in any continuation iff it is forgotten |
| Requests.LateRequestIsForgotten | src/bluetooth/helper-request.ts:41-67 | a run in which this happens, its deadline included |
| Requests.RunKeepsInv | src/bluetooth/helper-request.ts:32-93 | every run keeps the table's invariant |
| Requests.HelperClient.SendHelperRequest | src/bluetooth/helper-request.ts:45-81 | the update after readiness is the resume step, its rollback included |
| Requests.HelperClient.RouteHelperLine | src/bluetooth/helper-line-router.ts:35-104 | the update for a line is the line step |
| Requests.HelperClient.RejectPendingRequests | src/bluetooth/helper-request.ts:84-93 | the loop rejects each pending caller once and empties the table |
| Requests.HelperClient.OnExit | src/bluetooth/helper-client.ts:136-156 | the exit handler is the exit step |
| Requests.HelperClient.Dispose | src/bluetooth/helper-client.ts:324-329 | the dispose is the dispose step |
| Connection.RetryableExactly | src/bluetooth/session-utils.ts:21-29 | an error is retryable iff its lower-cased message contains "unreachable" |
| Connection.InitialisationCalls | src/bluetooth/device-session.ts:157-169 | a successful attempt connects, reads the device name and subscribes, on those characteristics |
| Connection.HelperTransport.Connect | src/bluetooth/helper-transport.ts:42-69 | either a new native session is held, or none is and none was left behind |
| Connection.HelperTransport.Disconnect | src/bluetooth/helper-transport.ts:80-90 | nothing is held afterwards even if the native call fails, and the release was requested |
| Connection.HelperTransport.Subscribe | src/bluetooth/helper-transport.ts:113-132 | a failed subscription leaves the earlier subscribers exactly |
| Connection.DeviceSession.ConnectAndInitialize | src/bluetooth/device-session.ts:147-197 | at most three attempts, retries only on retryable errors, subscription last, a disconnect after each failure, Ready or nothing held, "already connected" only if it was so from the start, the throw after the loop not reached |
| Connection.DeviceSession.Disconnect | src/bluetooth/device-session.ts:208-217 | the session is reset and the native session released, whatever fails |
| Connection.MultiDeviceManager.OnlyTheOwnerHears | src/bluetooth/helper-transport.ts:50-59 | a notification reaches the installed session that owns its native session, and no other |
| Connection.MultiDeviceManager.ConnectAll | src/bluetooth/manager.ts:56-69 | addresses in order, connected ones skipped and kept, the first failure ends it; ownership kept |
| Connection.MultiDeviceManager.Reconnect | src/bluetooth/manager.ts:123-138 | a call that is not overlapped replaces the session of one address or leaves none; ownership kept |
| Connection.MultiDeviceManager.DisconnectAll | src/bluetooth/manager.ts:151-172 | empties the map, releases each native session once, and reports exactly the failures |
| Ownership.LeaksExactly | src/bluetooth/manager.ts:123-172 | under any overlap of calls a step leaks a session iff it takes it out of the map while it is still held |
| Ownership.HeldAfter | src/bluetooth/helper-transport.ts:42-90 | who holds a native session after each step |
| Ownership.LeakedForever | src/bluetooth/manager.ts:123-172 | no later call releases a leaked session |
| Ownership.OwnedThroughout | src/bluetooth/manager.ts:56-172 | if calls overlap only on different addresses, native sessions are held exactly by installed sessions not being closed and sessions being opened; nothing leaks |
| Ownership.DisconnectAllReleases | src/bluetooth/manager.ts:123-172 | with the map emptied, nothing will be held without a new call iff nothing has leaked, no session is being opened and no reconnect awaits its disconnect |
| Ownership.ReconnectOutlives | src/bluetooth/manager.ts:123-172 | a reconnect that awaits its disconnect during `disconnectAll` keeps it from having released everything |
| Ownership.OverlapLeaks | src/bluetooth/manager.ts:123-172 | a reconnect and `disconnectAll` overlapping on one address leak a session |

## Left out

- Non-integer JavaScript numbers: constructor arguments and command texts are unbounded integers, so the precision of `Number` beyond 2^53 is not modelled.
- IEEE rounding: decimal and version fields are exact rationals.
- Published text of strings, lists and numbers that are not whole, and of values normalised for JSON.
- Option names that collide with inherited object properties in the setter's lookup, and the engine's reordering of integer-like option keys.
- The repository's concrete device models: the schema theorems hold for every field list, window list and range list.
- Attribution on a channel that is not clean: a device that answers twice, or noise that happens to be a proper reply, is not told apart from the reply. What a corrupted frame looks like is covered by the CRC theorems.
- Bridge: each session has its own native session and bytes; a reply that a device sends over a later connection than its request is not modelled.
- Executor: errors other than the classified ones, telemetry counters, timestamps and logging are not modelled, and external `pack_num` writes during pack polling are not either.
- Executor.DeviceLoop.Run: an endless loop is covered by every finite number of its passes, and one device's loop is followed at a time.
- Executor.DeviceLoop.ConnectAllWithRecovery: the connection attempts themselves are those of `Connection`; here an attempt only ends in one of three ways.
- Requests: ids are drawn fresh, as UUIDs are meant to be; the order in which several pending requests are rejected is not fixed; an error's classification by its text is not modelled.
- Connection: its manager calls are not overlapped (`Ownership` cuts them into steps); native session ids in use are never handed out again, and the native side of a connect that fails or times out is not part of this model. Its `DeviceSession` is the connection half; `Session.DeviceSession` is the command half.
- The C# helper, process spawning, JSON and base64 coding, the MQTT client, command line, configuration and logging.
