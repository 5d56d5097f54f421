# HomeFlow: a verified model of the gateway's state machines and codecs

HomeFlow is a smart-home gateway. What makes it trustworthy is a handful of small, hand-written state
machines and codecs: one-shot timers, a serialised command pipeline, a framed TCP protocol with
read-modify-write control of a hot tub, an event fan-out to live clients, and bounded tables for
admission. This project models them in Dafny and proves what they keep, over every interleaving and
every input, and exactly where an informal promise stops being true.

## How it is built

Each component comes in layers. Specification functions over plain values say what one piece of code
between two awaits does. Classes with the source's own fields and loops are proved to do exactly that.
A step machine then interleaves the pieces in every order, and lemmas about its runs state the promises.
I/O, clocks and peers appear as arguments: scripts of read results, outcomes at an await, times.

| files | component |
|---|---|
| `Schedules`, `TimerStore`, `ScheduleRuns`, `TimerSafety`, `TimerBounds`, `TimerPeak`, `TimerOrigins` | one-shot timers |
| `Policy`, `Reconcile`, `Commands`, `CommandRuns`, `CommandSafety`, `CommandOrigins` | the command pipeline |
| `Protocol`, `FrameStream`, `Client` | varints, frames, reassembly, one connection |
| `Datapoints`, `Layouts`, `Provider`, `PoolState` | layouts, control requests, read-after-write, polling, reported state |
| `DeviceModel`, `Devices` | device state as a fold of its history |
| `EventBus`, `LiveStream` | drop-oldest queues and the live connection |
| `TokenBucket`, `RateLimiter`, `Tickets`, `Coalescer` | bounded admission and latest-wins coalescing |
| `OrderedDicts`, `Lru`, `Basics` | Python's `OrderedDict`, the least-recently-used law, rounding |

## Where the code and what is said about it differ

The model follows the code. Each point is a lemma.

- A timer already in the loop's snapshot is fired even if it was cancelled or superseded meanwhile, and
  the outcome overwrites that record (`TimerSafety.CancelledTimerFires`, `NeverFiresIff`,
  `AtMostTwoSettlements`).
- The lock table can evict a lock that is held; writes to one device can then overlap, but only with more
  than 256 devices (`CommandSafety.OverlapHappens`, `MutualExclusion`).
- Settling a fired timer can put a forgotten record back without evicting, so more than the tracking limit is
  stored: 400 timers with 100 devices, and never more (`TimerPeak.PeakReached`, `TimerBounds.NeverMoreThan`).
- Encoding bounds the payload, decoding bounds the payload and its three header bytes: frames of 2046 to
  2048 payload bytes are sent but rejected (`Protocol.FrameRoundTripIff`).
- A framing error loses the frames decoded earlier in the same call and sticks
  (`FrameStream.FirstErrorStops`, `ErrorSticks`).
- Closing a subscription whose queue is full never tells its reader (`EventBus.CloseEndsIff`, `FullCloseHappens`).
- Polling does not report a controller that goes away and comes back with the same block
  (`Provider.RecoveryIsSilent`, `LastReport`).
- In Celsius a setpoint between whole degrees is sent rounded and, if confirmed, applied, but after a time-out the read-back
  finds it unsatisfied (`PoolState.SetpointReconciles`); and one confirmed by a block in another unit reads as
  something else (`PoolState.AppliedSetpointReads`).
- Layouts are not checked for overlapping locations, and it matters (`Datapoints.PreciseIffApart`); an
  out-of-range flag bit fails only when a request is framed (`Layouts.FlagFitsRequest`); a negative block
  offset is harmless (`Datapoints.AcceptedBlock`).

## Assumptions

- Floats are reals, and `round` is round-half-even on them; the half-hour check, the token bucket and the
  unit conversions are exact arithmetic.
- Clocks do not run backwards (timers, rate limiter, tickets), except in `RateLimiter.LevelsStayInRange`. Ids, salted device ids and ticket digests are
  distinct.
- Locks are granted in any order, which includes the first-in-first-out order of `asyncio.Lock`. Tasks are
  not cancelled and clients do not sign out mid-flight.

## Model

| member | source | states |
|---|---|---|
| TimerSafety.FiresAtMostOnce | backend/src/homeflow/schedules/service.py:226-261 | In every interleaving of creates, cancels, clock ticks and the firing loop, a timer causes at most one unattended submit; it submits exactly what was armed, never before the due time, and the due time is the creation time plus a permitted number of half hours. |
| TimerSafety.NeverFiresIff | backend/src/homeflow/schedules/service.py:230-232 | The exact form of "a settled timer never fires": a timer that is no longer armed is never submitted in any continuation if and only if it is not waiting in the snapshot the loop is working through. |
| TimerSafety.CancelledTimerFires | backend/src/homeflow/schedules/service.py:230-231 | A concrete run in which a timer cancelled while an earlier one of the same pass is being fired is submitted all the same. |
| TimerSafety.WaitingIsFired | backend/src/homeflow/schedules/service.py:230-232 | In every continuation, whoever waits in the loop's snapshot is submitted by the time the answers before it are in, called off meanwhile or not. |
| TimerSafety.SettledStaysSettled | backend/src/homeflow/schedules/service.py:206-212 | A timer called off outside the current pass is over for good: never submitted, never settled or armed again, its record unchanged until forgotten. |
| TimerSafety.NeverRearmed | backend/src/homeflow/schedules/service.py:283-297 | An id that is not armed is never armed again, whatever happens. |
| TimerSafety.AtMostTwoSettlements | backend/src/homeflow/schedules/service.py:274-297 | At most two settle records per timer; if two, the first called it off and the second is the outcome of its firing. |
| TimerSafety.OneArmedPerFunction | backend/src/homeflow/schedules/service.py:188-194 | At most one armed timer per device and action in every reachable state, even with overlapping RUN_FOR creates. |
| TimerSafety.ArmedIsKept | backend/src/homeflow/schedules/service.py:299-309 | A timer that was created and not settled is still stored, armed, with the record it was created with: eviction never takes it. |
| TimerSafety.StoreIsBounded | backend/src/homeflow/schedules/service.py:299-309 | Whatever was stored before, an arming leaves at most 200 timers or, in a house of more than 100 devices, two for each device (pigeonhole over the two timed actions). |
| TimerBounds.NeverMoreThan | backend/src/homeflow/schedules/service.py:283-309 | No reachable state, with any number of devices, stores more timers than an arming leaves and one pass puts back, although settling a fired timer may restore a forgotten record without evicting: 400 with 100 devices. |
| TimerPeak.PeakReached | backend/src/homeflow/schedules/service.py:226-309 | That bound is reached for every positive number of devices: all timers come due in one pass, every function is asked for round after round while the first submit is out, and the answers put every forgotten record back. |
| TimerOrigins.EveryTimerWasAskedFor | backend/src/homeflow/schedules/service.py:122-186 | In every run each timer has a create request of its own, no two the same one: its record has exactly that request's device, action, kind, owner, correlation and direction, and is due the requested permitted number of half hours after the moment it was armed; a delayed start is armed by the request itself, a RUN_FOR by the answer to its switch-on, with that command's id. |
| TimerOrigins.FiredAsAsked | backend/src/homeflow/schedules/service.py:244-264 | What a timer submits unattended carries the owner, device, action, correlation and direction of its own create request, and comes no earlier than the requested number of half hours after it was armed. |
| TimerOrigins.EverythingIsExplained | backend/src/homeflow/schedules/service.py:122-297 | Every entry a run leaves in the log was written by one event of that run which calls for exactly that: a timer as asked, a submit of what was armed, a settlement as cancelled by that actor, superseded by a request for the same function, or as answered by the pipeline, a denial for its reason. |
| TimerOrigins.AnswerSettlesHead | backend/src/homeflow/schedules/service.py:244-297 | An answer settles the head of the pass as completed exactly if the command succeeded, unknown exactly if it is unknown, failed otherwise, with the answer's own code and command id; audits, publishes and stores that record, then submits the next of the pass. |
| TimerOrigins.AskingExactly | backend/src/homeflow/schedules/service.py:122-204 | What a create request does: a permitted delayed start is armed at once, stored with the record that was asked for; a permitted RUN_FOR submits its switch-on and waits; anything else touches no timer. |
| TimerOrigins.StartingExactly | backend/src/homeflow/schedules/service.py:152-204 | A RUN_FOR whose switch-on succeeded or may have arms the timer that was asked for, with that command's id; one whose switch-on did neither arms nothing. |
| TimerOrigins.RefusedExactly | backend/src/homeflow/schedules/service.py:132-168 | Which error a refused request gets: the first thing wrong with it, in the order device, action, delay, capability; and which one a RUN_FOR gets whose switch-on did not take. |
| TimerOrigins.EveryChangeIsPublished | backend/src/homeflow/schedules/service.py:283-320 | In every run each new and each settled timer is published right after it is audited, with the status that was recorded, and nothing else is. |
| TimerSafety.OnlyTimedActions | backend/src/homeflow/schedules/service.py:134-152 | Every submit the timer service ever makes is a heater or filter switch on a device released for it. |
| ScheduleRuns.ExecKeeps | backend/src/homeflow/schedules/service.py:226-279 | The whole-system invariant (what each timer's log, record and place in the pass may be) holds in every reachable state. |
| ScheduleRuns.OpenGates | backend/src/homeflow/schedules/service.py:132-154 | A request gets past the gates exactly when the action is timed, the device known and released for it, and the delay permitted; only RUN_FOR switches on first; a refusal changes nothing but an audit entry. |
| Schedules.HoursAccepted | backend/src/homeflow/schedules/service.py:214-222 | A delay is accepted exactly when it is within 1e-9 of a half-hour multiple between 0.5 and the maximum, and that multiple is what is stored. |
| TimerStore.ForDeviceExactly | backend/src/homeflow/schedules/service.py:110-118 | The list for a device is exactly its armed timers, each once, soonest first. |
| TimerStore.DueListExactly | backend/src/homeflow/schedules/service.py:240-242 | The loop's snapshot is exactly the armed timers whose moment has come, each once. |
| TimerStore.DueFollowsStore | backend/src/homeflow/schedules/service.py:110-111 | The due timers are taken in the order in which they are stored. |
| TimerStore.EvictExactly | backend/src/homeflow/schedules/service.py:299-309 | Forgetting keeps every armed timer and every surviving record, never goes below the bound, and stops above it only when nothing settled is left. |
| TimerStore.EvictOldestFirst | backend/src/homeflow/schedules/service.py:302-307 | The settled records forgotten are the oldest ones. |
| Schedules.ScheduleService.OpenCreate | backend/src/homeflow/schedules/service.py:132-170 | `create` up to its first await: gates in order, audit entry of a refusal, attended switch-on. |
| Schedules.ScheduleService.ArmTimer | backend/src/homeflow/schedules/service.py:172-204 | `create` from its last await on: every armed timer for the same function is superseded, then the new one stored, audited, published. |
| Schedules.ScheduleService.CancelTimer | backend/src/homeflow/schedules/service.py:206-212 | Only an armed timer is settled as cancelled, by the actor; any other record is returned as it is. |
| Schedules.ScheduleService.SettleTimer | backend/src/homeflow/schedules/service.py:283-297 | The terminal record replaces whatever is stored under its id, is audited and published. |
| Schedules.ScheduleService.Remember | backend/src/homeflow/schedules/service.py:299-309 | The eviction loop against its specification. |
| Schedules.ScheduleService.EndFire | backend/src/homeflow/schedules/service.py:262-279 | How the submit's answer, refusal or crash settles the snapshot record. |
| CommandSafety.Lifecycle | backend/src/homeflow/commands/service.py:205-322 | Every finished command called the adapter's write once, read back at most once and only after a timeout, was recorded PENDING, RUNNING and one terminal status, left one requested and one completed audit entry; it ended succeeded, unknown or failed, and with which code, exactly as its answer or its read-back calls for. |
| CommandSafety.LifecycleTold | backend/src/homeflow/commands/service.py:205-355 | What a finished command told the outside: requested, started, timed out exactly if the write did, and one notice for how it ended; and to the registry exactly the state its answer or read-back carried, if any. |
| CommandOrigins.EveryCommandWasAskedFor | backend/src/homeflow/commands/service.py:103-205 | In every run the commands are the permitted requests one for one: each has the owner, device, action, parameters and correlation of its own submit, made at that moment and valid for 120 seconds; an unpermitted submit leads to none; and what decided it is the answer to its own write or, after that timed out, to its own read-back. |
| CommandOrigins.NothingUnasked | backend/src/homeflow/commands/service.py:103-322 | Whatever is recorded, audited, published, written to a device or read back about a command is about what one permitted request of the run asked for, and other commands come from other requests. |
| CommandSafety.TraceIsExpected | backend/src/homeflow/commands/service.py:205-293 | In every interleaving, what a command has caused so far is exactly, in order, what its phase calls for. |
| CommandSafety.NoHighRiskWrite | backend/src/homeflow/commands/service.py:124-131 | No run ever writes an unlock, an unlatch or anything else of high risk to a device. |
| CommandSafety.OverlapNeedsManyDevices | backend/src/homeflow/commands/service.py:217-247 | Two commands are inside execute or read-back for one device at once only if at least 256 distinct other devices were looked up between their lock look-ups. |
| CommandSafety.MutualExclusion | backend/src/homeflow/commands/service.py:217-247 | With at most 256 devices, writes and read-backs for one device never overlap, in any run. |
| CommandSafety.OverlapHappens | backend/src/homeflow/commands/service.py:363-371 | With 257 devices or more they can: a run in which a held lock is evicted and its device gets a second one. |
| CommandSafety.SameLockIff | backend/src/homeflow/commands/service.py:363-371 | Two calls for one device hold the same lock exactly when every gap between look-ups of that device saw fewer than 256 other devices. |
| CommandSafety.RecordIsKept | backend/src/homeflow/commands/service.py:357-361 | A command's record can be fetched exactly while fewer than 500 other commands were recorded since its last transition, and what is fetched is that transition's record. |
| Commands.AdmittedExactly | backend/src/homeflow/commands/service.py:112-135 | What a command needs to reach a device: known device, schema-valid, capability released, within the device's own range, no unlock or unlatch, not offline. |
| Commands.RefusedExactly | backend/src/homeflow/commands/service.py:112-135 | Which error a refused request gets, and whether and how the refusal is audited: the first thing wrong with it, in order. |
| Commands.UnlockingNeedsMore | backend/src/homeflow/commands/service.py:115-131 | Having LOCK allows locking and nothing more: an unlock is refused for the missing UNLOCK, and with UNLOCK for the missing authorisation. |
| Reconcile.MatchesExactly | backend/src/homeflow/commands/reconcile.py:27-68 | A request counts as satisfied exactly when its own field is reported at the requested value (a setpoint: within 0.05 degrees), and is undecided exactly when that field is not reported. |
| Reconcile.LevelsFitState | backend/src/homeflow/commands/models.py:65-73 | A brightness or volume may be asked for exactly when the device state can hold it. |
| Commands.CommandService.Submit | backend/src/homeflow/commands/service.py:103-138 | Gates in order, the audit entry of a refusal, then creation and start of the command. |
| Commands.CommandService.RememberCommand | backend/src/homeflow/commands/service.py:357-361 | Moving a record to the end and trimming, against the table's specification. |
| Commands.CommandService.LockFor | backend/src/homeflow/commands/service.py:363-371 | The lock table: an existing lock is moved to the end, a new one may push out the oldest. |
| Commands.CommandService.WriteAnswered | backend/src/homeflow/commands/service.py:219-261 | Every answer of the adapter, the status, code and ingest it leads to, and the command returned. |
| Commands.CommandService.ReadAnswered | backend/src/homeflow/commands/service.py:263-293 | The one read-back after a timeout, the outcome it decides, and the command returned. |
| Commands.CommandService.FinishCommand | backend/src/homeflow/commands/service.py:295-322 | One terminal record, one completed audit entry, one completion event. |
| Lru.Retained | backend/src/homeflow/commands/service.py:357-371 | The shared bounded-table law: a key is held if and only if it was touched and fewer than `cap` distinct other keys were touched since. |
| Lru.SameEntry | backend/src/homeflow/commands/service.py:363-371 | Two touches of a key see the same entry exactly when every gap between its touches is short. |
| Lru.LostEntry | backend/src/homeflow/commands/service.py:363-371 | If they see different entries, at least `cap` distinct other keys were touched strictly between them. |
| Protocol.EncodeVarint | backend/src/homeflow/integrations/bestway/protocol.py:148-161 | The loop encodes exactly 0 <= v < 2^28 and refuses everything else. |
| Protocol.DecodeVarint | backend/src/homeflow/integrations/bestway/protocol.py:164-175 | The loop computes the little-endian base-128 value, or says truncated or too long. |
| Protocol.VarintRoundTrip | backend/src/homeflow/integrations/bestway/protocol.py:148-175 | Decoding an encoded value, at any offset and with any tail, gives back the value and its length. |
| Protocol.CanonicalIff | backend/src/homeflow/integrations/bestway/protocol.py:164-175 | Padded varints decode too: what was decoded is the encoding of its value exactly when it is one byte or does not end in a zero byte. |
| Protocol.FrameRoundTripIff | backend/src/homeflow/integrations/bestway/protocol.py:141-212 | An encoded frame, with any tail, decodes to itself if and only if its payload is at most 2045 bytes; above that the receiver rejects what the sender was allowed to send. |
| Protocol.FrameOnTheWire | backend/src/homeflow/integrations/bestway/protocol.py:141-161 | The bytes of an encoded frame by position: the fixed prefix, the length of the rest in groups of seven bits, the flag, the command with its high byte first, the payload. |
| Protocol.FramePrefix | backend/src/homeflow/integrations/bestway/protocol.py:178-212 | Every strict prefix of an encoded frame is incomplete, never malformed. |
| Protocol.DecodeStable | backend/src/homeflow/integrations/bestway/protocol.py:178-212 | A verdict other than "incomplete" does not change when more bytes arrive. |
| Protocol.IncompleteIsShort | backend/src/homeflow/integrations/bestway/protocol.py:186-201 | What is merely incomplete is at most 2055 bytes long. |
| Protocol.ControlPayloadFields | backend/src/homeflow/integrations/bestway/protocol.py:111-128 | A control payload exists exactly for in-range fields and can be read back field by field, big-endian. |
| Protocol.LengthPrefixRoundTrip | backend/src/homeflow/integrations/bestway/protocol.py:74-93 | A length-prefixed field survives the round trip; an unprefixed one of permitted size passes through. |
| FrameStream.StreamRoundTrip | backend/src/homeflow/integrations/bestway/protocol.py:178-238 | Decoding the concatenated encodings of any list of frames with payloads up to 2045 bytes yields exactly that list and no leftover. |
| FrameStream.ParseAppend | backend/src/homeflow/integrations/bestway/protocol.py:223-238 | Greedy decoding may stop anywhere and go on from the leftover. |
| FrameStream.ChunkIndependence | backend/src/homeflow/integrations/bestway/protocol.py:223-238 | For a stream without framing error and any split into chunks of at most 6137 bytes, the frames handed out call by call are those of the whole, nothing is refused, the same bytes are left. |
| FrameStream.FirstErrorStops | backend/src/homeflow/integrations/bestway/protocol.py:223-238 | With a framing error, the session stops at the first chunk that completes it: earlier chunks' frames were handed out, those decoded in the failing call are lost, the bad head stays buffered. |
| FrameStream.ErrorSticks | backend/src/homeflow/integrations/bestway/protocol.py:223-238 | After a framing error every later call is refused too, until the buffer overflows and is dropped. |
| FrameStream.NeverOverflows | backend/src/homeflow/integrations/bestway/client.py:34-34 | With the client's 4096-byte reads the overflow branch is never taken and at most 2055 bytes are pending. |
| FrameStream.FrameReader.FeedChunk | backend/src/homeflow/integrations/bestway/protocol.py:223-238 | The reassembly loop: what it answers and what it leaves buffered, on success, overflow and error. |
| Client.ExchangesConserve | backend/src/homeflow/integrations/bestway/client.py:166-219 | On one connection, frames consumed by all exchanges, then the pending queue, then the reader's leftover are in order exactly the parse of everything received; only a peer that cannot frame ends this. |
| Client.AwaitConserves | backend/src/homeflow/integrations/bestway/client.py:175-219 | The same for one receive loop. |
| Client.HandshakeInStep | backend/src/homeflow/integrations/bestway/client.py:101-135 | A new connection starts in step, whatever an earlier one left pending or buffered. |
| Client.ConnectedIsLoggedIn | backend/src/homeflow/integrations/bestway/client.py:101-135 | A connection counts as open only if, from the frames alone, the passcode request went out, the first answer to it handed out the passcode held, one login with that length-prefixed passcode went out, and its first answer was the last frame consumed; besides those only one reply for each heartbeat request was sent. |
| Client.FirstMatchAnswers | backend/src/homeflow/integrations/bestway/client.py:175-184 | An exchange answers with the first matching frame from its start, and sends one heartbeat reply for each heartbeat request consumed before it, nothing else. |
| Client.ExchangeDrained | backend/src/homeflow/integrations/bestway/client.py:166-197 | An answer is taken only when the request and every heartbeat reply on the way to it were drained. |
| Client.BestwayClient.Ask | backend/src/homeflow/integrations/bestway/client.py:166-219 | Request, receive loop, heartbeat replies, deadline and errors on the mutable client. |
| Client.BestwayClient.SendControl | backend/src/homeflow/integrations/bestway/client.py:156-164 | Each control request carries the next sequence number modulo 2^32, also when it could not be sent. |
| Client.BestwayClient.Connect | backend/src/homeflow/integrations/bestway/client.py:101-135 | Reset, passcode, login; on success the passcode held is the one the controller handed out, any failure leaves the client closed and without one. |
| Datapoints.ControlWritePrecision | backend/src/homeflow/integrations/bestway/datapoints.py:172-223 | Putting the control block back into the base payload decodes to the requested value (for a bit: exactly if it is 0 or 1) and leaves every other datapoint, byte and bit as it was, whenever no other location overlaps the written one. |
| Datapoints.OverlapDisturbsRequest | backend/src/homeflow/integrations/bestway/datapoints.py:172-223 | On every base block: where a writable datapoint in the control block overlaps another, some accepted request for the one changes what the other reads. |
| Datapoints.PreciseIffApart | backend/src/homeflow/integrations/bestway/datapoints.py:172-223 | Exactly when: for a datapoint that may be written, lies in the control block and has a flag, every accepted request on every block leaves every other datapoint as it was if and only if no other location overlaps its own. |
| Datapoints.AcceptedBlock | backend/src/homeflow/integrations/bestway/datapoints.py:193-223 | An accepted request edits one byte of the reported block; in particular a control block said to start below zero, which a layout may say, is always refused. |
| Datapoints.EncodeControl | backend/src/homeflow/integrations/bestway/datapoints.py:172-223 | Every refusal in order, then the edited copy of the block and the single flag. |
| Datapoints.Decode | backend/src/homeflow/integrations/bestway/datapoints.py:147-164 | Decoding fails exactly for a payload too short for the layout, and otherwise reads every location. |
| Layouts.BuiltInsAreSound | backend/src/homeflow/integrations/bestway/datapoints.py:230-310 | Both shipped layouts, released with any flagged datapoints, are valid, disjoint and have flags that mirror the block; unreleased they cannot be written. |
| Layouts.ControllersAgree | backend/tests/simulators/bestway_simulator.py:160-193 | A controller that applies only the flagged attribute and one that applies the whole block hold the same bytes afterwards, for every request on either shipped layout. |
| Layouts.ApplyControl | backend/tests/simulators/bestway_simulator.py:160-193 | The simulated controller's bit loop against its specification. |
| Layouts.FlagFitsRequest | backend/src/homeflow/integrations/bestway/protocol.py:117-122 | A control request can be framed exactly when its flag bit is at most 15, which layouts do not check. |
| Datapoints.WholeDegreesReturn | backend/src/homeflow/integrations/bestway/datapoints.py:346-353 | Every whole raw value, Fahrenheit or Celsius, survives the conversion to Celsius rounded to a tenth and back. |
| Datapoints.SetpointReturn | backend/src/homeflow/integrations/bestway/datapoints.py:346-353 | A Celsius setpoint sent in Fahrenheit and read back differs by at most 59/180 of a degree. |
| Datapoints.SetpointFits | backend/src/homeflow/integrations/bestway/datapoints.py:98-99 | Every setpoint a valid layout lets through is between 0 and 140 in either unit. |
| Provider.OneControlOrNone | backend/src/homeflow/integrations/bestway/provider.py:184-216 | An execute sends at most one control frame, and one exactly when every gate is open; it carries the block read just before with the wanted value in it. |
| Provider.ReadAfterWriteHolds | backend/src/homeflow/integrations/bestway/provider.py:218-247 | Under any pattern of read failures: applied exactly when some later read showed the value first, not confirmed exactly when some later read succeeded and none showed it, read-back failed exactly when all failed. |
| Provider.EndsBeforeReadBack | backend/src/homeflow/integrations/bestway/provider.py:184-216 | When an execution ends unreachable, and when it must be rejected with nothing on the wire: no datapoint, not released, out of range. |
| Provider.ReadTwiceAtMost | backend/src/homeflow/integrations/bestway/provider.py:276-321 | A block is read exactly when it fits and comes at the first attempt, or at the second after the first found the connection gone; nothing else is tried again. |
| Provider.ConfirmVerdict | backend/src/homeflow/integrations/bestway/provider.py:227-247 | The confirmation loop returns the first deciding read, or else the last block that could be read. |
| Provider.HonestControllerIsApplied | backend/src/homeflow/integrations/bestway/provider.py:184-247 | End to end on either shipped layout: a controller that applies the flagged attribute and reports its block at any of the six reads after the write, failing or still showing the old block before, makes the command end applied, with that block unless the old one showed the value already. |
| Provider.RangeRefusalUnreachable | backend/src/homeflow/integrations/bestway/provider.py:249-268 | The byte-range refusal cannot be reached from a command on a valid layout. |
| PoolState.AppliedSwitchMatches | backend/src/homeflow/integrations/bestway/provider.py:184-225 | On any layout, a switch command that ends applied ends with a block whose reported state satisfies the request. |
| PoolState.AppliedSetpointReads | backend/src/homeflow/integrations/bestway/provider.py:218-268 | An applied setpoint reads back as asked, within half a degree in Celsius and 59/180 in Fahrenheit, if and only if the controller still reports in the unit it reported in before the write. |
| PoolState.SetpointReconciles | backend/src/homeflow/commands/reconcile.py:27-68 | After a time-out the same block is judged more strictly: in Celsius an applied setpoint counts as satisfied exactly when it was asked for within 0.05 of a whole degree. |
| PoolState.GatesAgree | backend/src/homeflow/integrations/bestway/provider.py:66-81 | The pipeline's capability gate and the adapter's release gate agree: a request needs a capability the adapter advertises exactly when its datapoint has been released for writing. |
| PoolState.AirjetStatus | backend/src/homeflow/integrations/bestway/datapoints.py:279-302 | What a nineteen-byte block is reported as: four bits of byte 1, the setpoint of byte 2 and the temperature of byte 15 in Celsius. |
| PoolState.CandidateTemperatures | backend/src/homeflow/integrations/bestway/provider.py:337-360 | On the other shipped layout temperatures are read in Fahrenheit, to a tenth of a degree Celsius, exactly if the unit bit of the same block says so. |
| PoolState.AirjetSwitchRequest | backend/src/homeflow/integrations/bestway/provider.py:184-207 | A switch request to that controller carries the flag and the bit of the function asked for, and leaves every other bit of the block it echoes. |
| Provider.LastReport | backend/src/homeflow/integrations/bestway/provider.py:159-180 | What polling last reported, exactly: offline after a failed read; after a successful one the block read, unless the last block before the present stretch of equal reads was the same. |
| Provider.RecoveryIsSilent | backend/src/homeflow/integrations/bestway/provider.py:167-180 | Hence a controller that goes away and comes back unchanged stays reported offline. |
| Provider.BestwayProvider.Run | backend/src/homeflow/integrations/bestway/provider.py:184-225 | `execute` on the mutable adapter: ending, control frames, remembered block and availability. |
| Provider.BestwayProvider.ReadOnce | backend/src/homeflow/integrations/bestway/provider.py:300-321 | One retry, of a dropped connection only; a misbehaving peer is not retried. |
| Provider.BestwayProvider.ConfirmWrite | backend/src/homeflow/integrations/bestway/provider.py:227-247 | The confirmation loop against its specification. |
| Provider.BestwayProvider.PollOnce | backend/src/homeflow/integrations/bestway/provider.py:159-180 | One round of polling: what is reported and what is remembered. |
| EventBus.RunIsAccounted | backend/src/homeflow/events/bus.py:35-51 | For every run of a subscription: the queue is exactly the newest events offered, what was handed out is in order, every offer is handed out, queued or dropped, and the lag flag is up exactly when something was dropped since it was last taken. |
| EventBus.CloseEndsIff | backend/src/homeflow/events/bus.py:53-59 | After closing, every queued event is still handed out, nothing later is, and the iterator ends if and only if the queue was not full when it was closed. |
| EventBus.FullCloseHappens | backend/src/homeflow/events/bus.py:53-59 | With any bound there is a run that fills the queue and closes it, whose reader is never told. |
| EventBus.Subscription.OfferEvent | backend/src/homeflow/events/bus.py:40-51 | Drop the oldest when full, raise the flag; nothing once closed. |
| EventBus.Subscription.CloseNow | backend/src/homeflow/events/bus.py:53-59 | Closing once, unsubscribing, the end marker only if there is room; the bus stays fit for publishing and no longer knows the subscription. |
| EventBus.Bus.Publish | backend/src/homeflow/events/bus.py:104-106 | Every live subscriber is offered the event exactly once. |
| EventBus.Bus.Unsubscribe | backend/src/homeflow/events/bus.py:100-102 | Removes the subscriber and keeps the others in order and distinct, so publishing stays possible; removing one that is not there changes nothing. |
| LiveStream.NoSilentDivergence | backend/src/homeflow/api/v1/ws.py:118-165 | Whenever an open connection is drained, each device changed since subscription was last covered by a frame with its present state and availability, or by a resync sent after its last change. |
| LiveStream.MirrorIsExact | backend/src/homeflow/api/v1/ws.py:118-165 | A client that starts from the snapshot, believes frames and refetches on resync shows exactly what the registry holds whenever its connection is drained. |
| LiveStream.GapIffResync | backend/src/homeflow/api/v1/ws.py:134-142 | Frame positions strictly increase, and two consecutive frames skip a position if and only if a resync was sent between them. |
| LiveStream.FirstFrameAnnounced | backend/src/homeflow/api/v1/ws.py:134-142 | The first frame is the first event after subscribing, unless a resync precedes it. |
| LiveStream.RunInOrder | backend/src/homeflow/api/v1/ws.py:118-142 | The invariant behind both: the lag flag is up exactly when the head of the queue does not follow on what was taken last. |
| LiveStream.EndIsSilent | backend/src/homeflow/api/v1/ws.py:118-165 | Once the end marker has been taken or the peer has gone nothing more is ever written to the socket; an idle forwarder answers a due heartbeat. |
| LiveStream.Connection.DeliverNext | backend/src/homeflow/api/v1/ws.py:134-142 | Take an event, announce a gap first, read the registry as the frame is sent. |
| Devices.RegistryIsFold | backend/src/homeflow/devices/registry.py:30-51 | After any run of registrations and observations the lookup tables are inverse to each other and each held device is the fold of its own history alone. |
| Devices.FieldIsLastReported | backend/src/homeflow/devices/models.py:79-82 | Each state field is its last reported value; absent means never reported. |
| Devices.FreshnessIsLastOnline | backend/src/homeflow/devices/registry.py:81-108 | The observation time is that of the last online observation, or else the registration; availability and source are the last ones reported, the kind the registered one. |
| Devices.StaleExactly | backend/src/homeflow/devices/models.py:118-121 | A device is stale exactly when last reported offline or not seen online for longer than the limit. |
| Devices.FilterStartIsLatest | backend/src/homeflow/devices/service.py:85-102 | For adapters that never report it, "last filtered" is the clock time of the latest report of pump-on whose previously reported value was not on. |
| Devices.CarryIsRedundant | backend/src/homeflow/devices/service.py:99-102 | Carrying the remembered start forward changes nothing that merging would not keep anyway, although the comment there says it would be lost. |
| Devices.SilentIffUnchanged | backend/src/homeflow/devices/service.py:104-128 | An observation publishes nothing exactly when neither state nor availability changed. |
| Devices.NamedChanges | backend/src/homeflow/devices/service.py:130-141 | Pool and appliance events are emitted exactly when the thing they name changed. |
| Devices.TransitionsInOrder | backend/src/homeflow/devices/service.py:104-141 | Each event type is emitted at most once, in a fixed order: availability, state, then what the change of state means. |
| Devices.DeviceService.Observe | backend/src/homeflow/devices/service.py:62-83 | `ingest`: unknown references ignored, else apply, publish the transitions in order and return the device. |
| Devices.DeviceRegistry.Apply | backend/src/homeflow/devices/registry.py:81-108 | The update of one device, or nothing for an unknown one. |
| Devices.DeviceRegistry.RegisterDevice | backend/src/homeflow/devices/registry.py:30-51 | All three tables are written. |
| RateLimiter.AllowedIffWindowsPermit | backend/src/homeflow/ratelimit.py:41-58 | The bucket equals its sliding-window specification over every run with a monotone clock: a call is admitted if and only if one call fits the burst and, for every earlier call on the same bucket, what was admitted since then and this call stay within burst + rate * elapsed. |
| RateLimiter.NoWindowExceeds | backend/src/homeflow/ratelimit.py:41-58 | No window admits more than burst + rate * its length. |
| RateLimiter.LevelsStayInRange | backend/src/homeflow/ratelimit.py:41-58 | Whatever the clock does, backwards included, no bucket is ever below zero or above the burst. |
| RateLimiter.BucketKeptIff | backend/src/homeflow/ratelimit.py:43-50 | A key's bucket is kept exactly while fewer than `max_keys` distinct other keys call between two of its calls. |
| TokenBucket.AdmittedIffWindowsPermit | backend/src/homeflow/ratelimit.py:51-58 | The law of a single bucket. |
| RateLimiter.Limiter.AllowCall | backend/src/homeflow/ratelimit.py:41-58 | `allow` on the mutable table. |
| Tickets.AcceptedIffLive | backend/src/homeflow/auth/tickets.py:78-98 | A ticket is accepted if and only if it was issued, is presented for the first time, has not expired and was not pushed out (no later issue found 63 newer fresh tickets); it then yields its own principal; at most 64 are stored. |
| Tickets.SingleUse | backend/src/homeflow/auth/tickets.py:78-98 | Over any run no ticket is accepted twice. |
| Tickets.StoreIsLive | backend/src/homeflow/auth/tickets.py:66-76 | The store holds exactly the live tickets, oldest first, never more than 64. |
| Tickets.GuardIsUnreachable | backend/src/homeflow/auth/tickets.py:95-98 | The expiry check after deletion never fires. |
| Tickets.TicketStore.IssueTicket | backend/src/homeflow/auth/tickets.py:66-76 | Prune, make room, store. |
| Tickets.TicketStore.RedeemTicket | backend/src/homeflow/auth/tickets.py:78-98 | Prune, compare every candidate, delete, answer. |
| Tickets.TicketStore.Prune | backend/src/homeflow/auth/tickets.py:100-103 | Exactly the expired tickets go. |
| Coalescer.NeverOverlap | apps/web/js/app.js:97-149 | For each device and action, submissions never overlap and are some of the requests in the order asked. |
| Coalescer.LatestWins | apps/web/js/app.js:97-149 | An idle key's last submission is its last request; a request waits only while its key is busy, and it is the last one asked for. |
| Coalescer.ShownIsLastWish | apps/web/js/app.js:98-109 | What a pending control shows is exactly the last on/off asked for since the key was idle. |
| Coalescer.SettlesInTwo | apps/web/js/app.js:138-157 | Once the user stops, two answers suffice to leave the key idle with the last request submitted. |
| Coalescer.Page.Execute | apps/web/js/app.js:97-116 | `execute` up to its first await. |
| Coalescer.Page.Resume | apps/web/js/app.js:138-157 | `execute` after the submission returned: the waiting request goes out at once, else the key settles. |

## Left out

- HTTP routes, problem documents, schemas, settings, authentication of requests, the composition root: single-branch plumbing.
- Sockets, TLS, asyncio timers and task cancellation: a read, drain, submit or timeout is an allowed outcome at an await; delays between confirmation reads are not modelled.
- `_execute` for a device without a provider (`backend/src/homeflow/commands/service.py:208-209`): the composition root wires every provider.
- The Home Assistant, weather and demo adapters: table look-ups and network clients behind the same provider contract.
- `discover_devices` and the read half of `capabilities` of the Bestway adapter, `list_devices`, `rooms`: they only read.
- The timing of heartbeat pings and the inbound half of the live socket beyond "the subscription is closed": a parse-and-close branch.
- Notices, held rendering, timers and reconnection in the web client: presentation.
- Logging, redaction, audit texts and retention; only that and how often a command or timer is audited is modelled.
- Sign-out during a submission (`apps/web/js/app.js:134-137`): it clears all client state at once.
- Client.BestwayClient.Ask: the request timeout may strike at any read or drain but not between, where the code does not await either.
- LiveStream.MirrorIsExact: a refetch is taken at the moment of the resync; a later snapshot can only be newer, and HTTP racing the socket is not modelled.
- TimerSafety.StoreIsBounded: stated after every arming, because settling a fired timer may put a forgotten record back without evicting; TimerBounds.NeverMoreThan bounds every state.
