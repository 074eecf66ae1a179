# Slick socket: a Dafny model of its lock-free buffers and request life cycle

A client of this socket library hands its work to a service thread. What crosses between
the two threads goes through three hand-written lock-free structures of
`src/ring_buffer.h`: a byte ring for outgoing messages (`ring_string_buffer`), a ticket
queue for requests (`ring_buffer<T>`) and a pool of requests (`object_pool<T>`). On top of
them requests are allocated, queued, connected, fed events by libwebsockets, swept out and
released. This project models those structures and that life cycle, and proves what they
promise, over all interleavings.

Each structure appears twice. A *state machine* has one action for each access to shared
memory, and threads interleave freely between actions; the properties of whole runs are
proved there. A *class* has the fields and the loops of the source; each of its methods is
shown to be a run of the state machine, so the properties carry over. The class of the
service uses those of the queue and of the pool. Atomics are sequentially consistent.

| module | subject |
|---|---|
| `Laps`, `Words` | masking a cursor, laps, the 32-bit length field, stores into a buffer |
| `StringRing`, `StringRingInvariant`, `StringRingFifo` | the byte ring: steps, invariant, first in first out, no overwriting |
| `StringRingWait`, `StringRingReset`, `StringRingCalls`, `StringRingChunks` | the wait of `write`, `reset`, one call as a function, chunking in every run |
| `StringRingOutcome`, `StringRingLimits` | what every call has done when it returns, oversized messages, and runs that break a promise when a condition is dropped |
| `RingStringBuffers` | class `RingStringBuffer` over a byte array |
| `TicketQueue`, `TicketQueueOrder`, `RingBuffers` | the ticket queue, its order and progress, classes `RingBuffer`, `SlotHandle`, `Consumer` |
| `PoolSteps`, `PoolUse`, `PoolLimits`, `ObjectPools` | the pool at the grain of atomic steps, what it hands out to one getter at a time, how many it stands, class `ObjectPool` |
| `Requests`, `RequestTexts` | life of requests that have an object each, and what callbacks are told |
| `RequestObjects` | the same life in objects that are handed out again, as the code has it, and that it is the former as long as they are not |
| `PooledRequests`, `ReusedObjects` | pool and requests together: what holds with one getter at a time, and that it fails with two |
| `HttpCallbacks`, `SocketServices` | `http_callback`, class `SocketService` with the `serve` loop |
| `WebSocketFraming`, `FramingOverResets` | framing round trip, and exactly when it survives resets |
| `Disconnect`, `Connections`, `Clients` | disconnect notices, the callbacks and `send`, `connect`, `stop` of both socket clients |

## Steps of the byte ring

`StringRing` splits `write` (src/ring_buffer.h:166-251) into the steps `Enter` (test of
`resetting_` and raising of `writing_`, 167-172), `Reserve` (177-194), `PutSkip` (194-196),
`PublishSkip` (197-198 and 298-302), `Guard` and `GuardEnd` (the two reads of
`reading_begin_` in 204-206), `Check` (218-223), `PutFlag` (225), `PutLength` (226-227),
`Account` (230-233), `Copy` (one byte of the `memcpy` of 234 each), `Finish` (238-243) and
`Publish` (244-248). `read` is `Load` (254) and `Take` (255-281); `reset` is four steps
(286, 287, 288-294, and the end of its scope).

A run is *permitted* when the callers keep to what the code asserts of them and to two
conditions of flow control and one of timing, each asked only at the step named:

* `Contract`: messages are smaller than the ring (180-184), and a chunk that is not the
  last has the announced length (231). A last chunk of the wrong length is allowed: it is
  what the INVALID flag is for.
* `SkipHasRoom`, when a SKIP is published: cursor plus padding stays less than a lap ahead
  of the reader. `StringRingWait.SkipWithoutRoomOverruns` shows that this is exact.
* `NotExactlyFull`, when a message is published: the ring does not become exactly full.
  `StringRingWait.ExactlyFullLooksEmpty` shows that this is exact.
* `ResetNotSplit`, when a call is entered between the two statements at the head of `reset`:
  what it publishes, if anything, is in place, no write having been turned away there and
  left its place unused. `StringRingReset.LateCallReturns` shows that this is exact.

The first two are asked only as long as the flag of `reset` is down. Once it is up, or is
about to be and a place has been left unused, the ring is condemned: nothing is published or
read until it has been cleared, and nothing in it matters.
The guard of 204-206 stays as written and does the rest of the work: the invariant says
that the place of a message meets no unread byte only from the guard on.

## What the code does not do

Where the source falls short of what its names or comments suggest, the code is modelled
as it is, and a lemma says exactly when it does.

* A message that fills the ring exactly is not found by the next read
  (`ExactlyFullLooksEmpty`), and a SKIP published too early lets the writer run over unread
  messages (`SkipWithoutRoomOverruns`); `ExactlyFullHidesMessages` and
  `UnguardedSkipLosesMessage` are runs.
* After a message of one call that does not fit, the next message is swallowed, with `true`
  (`NextMessageIsSent`); an oversized message of two or more parts swallows its own rest
  (`OversizedParts`).
* A `write` entered between the two statements at the head of `reset` returns in some
  continuation if and only if what it publishes is in place; otherwise it and the `reset`
  wait for each other for ever (`LateCallReturns`, `SplitResetLivelocks`). In all other
  cases both end (`ResetReturns`).
* All fair schedules of the ticket queue publish everything if and only if no unpublished
  empty slot has a non-empty one behind it (`FairProducersAllPublish`); the `publish()` of
  an overtaken slot never returns (`OvertakenSlotSpinsForever`).
* The pool does not recycle: with calls of `get_obj` one at a time, however many of
  `release_obj` overlap them, no object is handed out twice, and after `size - 1` gets all
  come from the heap (`OneGetterHandsOutFreshObjects`, `ArrayFirstThenHeap`). With two
  threads inside `get_obj` an object can be used again (`OneGetterIsTheLimit`), and with
  three two holders can get the same object (`TwoGettersIsTheLimit`).
* Nobody clears `completed`, or takes a released object out of `requests_`. So with two
  threads inside `get_obj` an asynchronous request can be answered with another one's
  response and released before it is connected, and released again after that
  (`ReusedObjectIsReleasedTwice`), and a synchronous one can return the other's response
  while it is queued (`ReusedObjectAnswersAtOnce`). Requests are released at most once, and
  answered with their own text, in all runs if and only if calls of `get_obj` do not overlap
  or the pool has one object (`OneGetterKeepsOrder`, `OneGetterKeepsResponses`).
* A raw request that is used again, as two getters make possible, and that is destroyed
  without connecting or closing, ends without a notice of disconnection (`RawReuse`).
* An asynchronous request without a callback is never released (`NoCallbackNoRelease`). A
  synchronous caller has no safe moment to release its request: whenever that becomes
  completed, it is still in `requests_` (`CompletedIsNeverSafe`).
* `send` of an empty WebSocket payload publishes a bare header and returns `false`
  (`EmptySendPublishesHeadroom`). Framing survives resets if and only if no clearing falls
  between the two writes of a send (`FramingSurvivesResets`, `ClearingKeepsFraming`); after
  one that does, the payload goes out bare (`CutSendsBarePayload`), and if it is shorter
  than the headroom, the length given to `lws_write` wraps around (`SpanInsideIff`).
* `response.clear()` (src/http_client.cpp:284) clears the state of the stream and not its
  text; it changes nothing in the model.

## Model

| member | source | states |
|---|---|---|
| Laps.SizeAssertedIffPowerOfTwo | src/ring_buffer.h:82 | the size assertion of the constructors holds exactly of the powers of two |
| Laps.MaskIsModulo | src/ring_buffer.h:96 | masking bit by bit with a power of two less one is the remainder |
| Laps.MaskIndex | src/ring_buffer.h:96-99 | for every size the constructors accept, masking with `size - 1` is the remainder modulo the size |
| Laps.WrappedCursorSameCell | src/ring_buffer.h:96-99 | a 64-bit cursor that wraps around keeps denoting the same cell |
| Laps.SameCell | src/ring_buffer.h:96-99 | positions less than one lap apart share a cell only if they are equal |
| Laps.PaddingEndsLap | src/ring_buffer.h:190-198 | padding ends exactly at the start of the next lap |
| Laps.RunsApart | src/ring_buffer.h:204-206 | two runs of positions that do not meet and together span at most a lap occupy different cells |
| Words.U32RoundTrip | src/ring_buffer.h:226 | a length below 2^32 stored in four bytes reads back as itself |
| StringRingInvariant.KeptByEnter | src/ring_buffer.h:166-172 | entering `write`, or being turned away, keeps the invariant, during a `reset` too: the unread part is whole records, all that was sent is read or in them, and header and bytes of the message in progress are in place |
| StringRingInvariant.KeptReserve | src/ring_buffer.h:177-190 | reserving keeps the invariant: the message has a place of its announced length at the published cursor, in this lap or behind a SKIP, or beside a place left unused in a `reset` |
| StringRingInvariant.KeptPutSkip | src/ring_buffer.h:193-196 | storing the SKIP flag keeps the invariant: no unread record is touched |
| StringRingInvariant.KeptPublishSkip | src/ring_buffer.h:197-198 | publishing a SKIP that leaves room keeps the invariant: one whole record more, and the place of the message at the start of the next lap |
| StringRingInvariant.KeptGuards | src/ring_buffer.h:201-216 | both tests of the wait keep the invariant: past them without a reset, the place of the message meets no unread byte |
| StringRingInvariant.KeptCheck | src/ring_buffer.h:218-223 | the check keeps the invariant, and the writer turns back only while a reset is under way |
| StringRingInvariant.KeptPutLength | src/ring_buffer.h:226-227 | storing the length keeps the invariant: the place of the message begins with a whole header, and no unread record is touched |
| StringRingInvariant.KeptCopy | src/ring_buffer.h:233-236 | copying a byte keeps the invariant: the stored prefix of the message is one byte longer, and no unread record is touched |
| StringRingInvariant.KeptPublish | src/ring_buffer.h:239-248 | publishing without filling the ring exactly keeps the invariant: the place of the message is one whole unread record more |
| StringRingInvariant.KeptByTake | src/ring_buffer.h:253-283 | a read keeps the invariant: what is left unread is still whole records, and nothing sent is lost |
| StringRingInvariant.KeptByReset | src/ring_buffer.h:285-295 | every step of `reset` keeps the invariant, with the writer inside `write` or not |
| StringRingInvariant.SkipLandsOnNextLap | src/ring_buffer.h:259-262 | the reader's jump over a SKIP ends where the writer's padding put the next record, a SKIP in the last byte of the lap included |
| StringRingInvariant.ReadsWritten | src/ring_buffer.h:253-281 | decoding a stored record gives back its flag, its bytes and the position behind it |
| StringRingInvariant.ReadsFirstRecord | src/ring_buffer.h:253-283 | a read returns the first unread record, and nothing if and only if there is none |
| StringRingInvariant.InvAlways | src/ring_buffer.h:166-302 | the invariant holds after every permitted run from where it held |
| StringRingFifo.Fifo | src/ring_buffer.h:166-302 | in every permitted interleaving without reset, what was read followed by what the unread records hold is the list of messages assembled from the completed write calls, byte for byte and in order |
| StringRingFifo.FifoSinceReset | src/ring_buffer.h:166-302 | the same with any number of resets: the completed calls are those entered since the ring was last cleared and not turned away, and reads and unread records together are the messages assembled from them |
| StringRingFifo.Contiguous | src/ring_buffer.h:225-236 | every header and payload the writer stores or the reader loads lies inside the buffer in one piece |
| StringRingFifo.StoresInWindow | src/ring_buffer.h:188-248 | a writer's step changes only cells of the place of its message or of its SKIP flag, and while anything may be read these are clear of the unread bytes |
| StringRingFifo.NoOverwrite | src/ring_buffer.h:188-248 | no writer's step changes a byte that is published and unread, unless the flag of `reset` is up, or about to be and the place of the message beside an unused one; nothing of the ring is read after that |
| StringRingWait.ReadAdvances | src/ring_buffer.h:253-283 | with anything unread, a read moves the reading cursor strictly, and not past the published cursor |
| StringRingWait.BlockedMeansUnread | src/ring_buffer.h:204-206 | while the guard holds there is a published record to read, unless the ring is condemned |
| StringRingWait.GuardIsExact | src/ring_buffer.h:204-206 | the guard holds the writer if and only if the place of its message meets an unread byte, unless the ring is condemned |
| StringRingWait.UnblockedStepAdvances | src/ring_buffer.h:201-251 | a writer the guard does not hold takes a step that brings the call nearer its end |
| StringRingWait.WriteReturns | src/ring_buffer.h:201-216 | from anywhere inside a call, if the SKIP it may still publish has room, a run of writer's steps and reads ends the call |
| StringRingWait.FairWriteReturns | src/ring_buffer.h:201-216 | and so does every schedule in whose rounds the writer gets a turn and the reader three, in any order |
| StringRingWait.TrackedStep | src/ring_buffer.h:201-251 | no step of the writer takes the call farther from its end, and every one that the guard does not hold brings it nearer |
| StringRingWait.ExactlyFullLooksEmpty | src/ring_buffer.h:256 | the next read finds the message just published if and only if publishing it did not fill the ring exactly |
| StringRingWait.SkipWithoutRoomOverruns | src/ring_buffer.h:190-206 | a published SKIP leaves every continuation of the call free of overwriting if and only if cursor plus padding stayed less than a lap ahead of the reader, between reads or in the middle of one |
| StringRingReset.CaughtWriterLeaves | src/ring_buffer.h:204-223 | a writer in or before the wait when `reset` starts leaves, and with false, by its own steps and those of `reset` |
| StringRingReset.CaughtWriterPublishesNothing | src/ring_buffer.h:204-223 | whatever the other thread does, such a writer publishes nothing, can only leave with false, and the ring is not cleared before it has left |
| StringRingReset.FlagEndsCall | src/ring_buffer.h:204-223 | with the flag up, every run that is long enough ends the call of a writer whose publications are in place |
| StringRingReset.ResetReturns | src/ring_buffer.h:285-295 | from every state of the invariant with a `reset` under way, permitted steps of the writer and of `reset` end both, and leave the ring cleared |
| StringRingReset.LateCallReturns | src/ring_buffer.h:286-299 | a call entered between the first two statements of `reset` returns in some continuation if and only if it publishes nothing or finds the cursor in place: the condition on the timing of `reset`, exactly |
| StringRingReset.LateMessageReturns | src/ring_buffer.h:286-299 | for a message of one call that is if and only if no write has left its place unused there |
| StringRingReset.LateLastChunkReturns | src/ring_buffer.h:286-299 | for the last call of a message begun before, if and only if its place is at the cursor |
| StringRingReset.HoleIffTurnedAway | src/ring_buffer.h:188-223 | a call that ends with no message begun leaves its place unused if and only if it was turned away |
| StringRingReset.DoomedForever | src/ring_buffer.h:285-299 | a call on the way to a publication out of place never returns in any continuation, at either `_notify`, nor does the `reset` |
| StringRingReset.SameStep | src/ring_buffer.h:166-302 | states equal up to stale bytes and finished counters allow the same steps and stay equal so |
| StringRingReset.ResetIsFresh | src/ring_buffer.h:285-295 | after `reset` exactly the runs of a newly built ring are possible, with the same messages, reads and returns |
| StringRingReset.StuckForever | src/ring_buffer.h:288-299 | a writer spinning in either `_notify` with the cursor out of place and a reset waiting for it stay so in every continuation |
| StringRingCalls.CallRuns | src/ring_buffer.h:166-251 | the steps of an undisturbed call add up to one function of the ring, and it returns true |
| StringRingCalls.CallAsRun | src/ring_buffer.h:166-251 | the same as a run of the state machine that enters exactly this call |
| StringRingCalls.CopyRuns | src/ring_buffer.h:234-235 | copying byte by byte stores the chunk as a whole |
| StringRingCalls.ChunkingInvisible | src/ring_buffer.h:166-251 | however a fitting message is cut into non-empty chunks, buffer and cursors end up as after one call with the concatenation |
| StringRingChunks.PartsStayHidden | src/ring_buffer.h:238-249 | in every run, as long as all calls entered announce more, nothing of the message is sent and no read returns any of it |
| StringRingCalls.PartsKeepCursor | src/ring_buffer.h:238-249 | before the last chunk the published cursor does not pass the start of the message |
| StringRingCalls.ChunkedRunsAgree | src/ring_buffer.h:166-251 | there are runs of both, chunk by chunk and at once, if nothing makes the calls wait |
| StringRingCalls.ReadyFromInv | src/ring_buffer.h:166-251 | nothing does when the invariant holds, the contract is kept and the place of the message is free |
| StringRingChunks.ChunkedRunsSendTheSame | src/ring_buffer.h:166-251 | in all runs, waits and reads included, sending in chunks and sending at once send the same message and leave the same ring, but for the reader's fields |
| StringRingChunks.RunOutcome | src/ring_buffer.h:166-251 | whatever the reader does meanwhile, and however long the calls wait for it, they leave the ring that they leave one after the other without it |
| StringRingChunks.OutcomeKept | src/ring_buffer.h:201-251 | no step inside a call changes how the call will leave the ring |
| StringRingLimits.UnguardedSkipLosesMessage | src/ring_buffer.h:190-206 | without room for the SKIP a run loses its first message to the second |
| StringRingLimits.ExactlyFullHidesMessages | src/ring_buffer.h:256 | a run in which two messages reported as written are invisible to reads, as long as nothing more is written |
| StringRingLimits.SplitResetLivelocks | src/ring_buffer.h:285-299 | in a ring of any size that holds a message, a run after which a call of any fitting message and the `reset` wait for each other in every continuation |
| StringRingOutcome.FittingCall | src/ring_buffer.h:166-251 | in every run of it beside reads, a call whose message fits returns true and has sent it |
| StringRingOutcome.NextMessageIsSent | src/ring_buffer.h:180-186 | of two messages of one call each, the second is sent if and only if the first fits; the first returns whether it fits, the second true |
| StringRingOutcome.OversizedParts | src/ring_buffer.h:180-251 | an oversized message in any number of parts: the first returns false, the others true, nothing is stored or sent, and skipping outlasts it if and only if it had one part |
| StringRingOutcome.FruitlessCallEnds | src/ring_buffer.h:166-251 | a call that is too long, or that is skipped, comes to its end by steps of its own |
| StringRingOutcome.SkippedCall | src/ring_buffer.h:230-249 | a call while `skip_` is set returns true, stores nothing, and ends the skipping if it is the last of its message |
| RingStringBuffers.RingStringBuffer.constructor | src/ring_buffer.h:146-153 | a new buffer is the initial state of the state machine |
| RingStringBuffers.RingStringBuffer.Decode | src/ring_buffer.h:255-281 | decoding in place over the array agrees with the state machine's reading, and never leaves the array |
| RingStringBuffers.RingStringBuffer.Read | src/ring_buffer.h:253-283 | the first unread record is consumed and handed out if it is a message; the cursor moves strictly unless nothing was unread |
| RingStringBuffers.RingStringBuffer.Store | src/ring_buffer.h:234 | the loop stores exactly the given bytes |
| RingStringBuffers.RingStringBuffer.Wait | src/ring_buffer.h:201-216 | the wait ends and is a run of the state machine, whether the service thread only reads or begins a reset in it; without a reset the place of the message is free of unread bytes |
| RingStringBuffers.RingStringBuffer.BailOut | src/ring_buffer.h:218-223 | the writer that finds the count of resets changed leaves with false, with nothing half written, and the reset can go on |
| RingStringBuffers.RingStringBuffer.PlaceMessage | src/ring_buffer.h:177-199 | the message gets a place at the cursor, behind a SKIP record if the lap is too short |
| RingStringBuffers.RingStringBuffer.WriteHeader | src/ring_buffer.h:225-227 | flag and length are stored as the state machine's two steps |
| RingStringBuffers.RingStringBuffer.CopyChunk | src/ring_buffer.h:230-236 | a chunk of the right length joins the message, any other is only counted |
| RingStringBuffers.RingStringBuffer.Complete | src/ring_buffer.h:238-249 | after the last chunk the message is published, or marked INVALID and published |
| RingStringBuffers.RingStringBuffer.Write | src/ring_buffer.h:166-251 | false exactly for an empty chunk, with the flag of `reset` up, or if a reset begins during the wait, and then nothing of the chunk is published; the call is a run of the state machine; the message is sent with its last chunk; what the reader got meanwhile is in order; the buffer stays valid unless filled exactly |
| RingStringBuffers.RingStringBuffer.StartReset | src/ring_buffer.h:286-287 | the first two steps of `reset`, with the writer anywhere |
| RingStringBuffers.RingStringBuffer.FinishReset | src/ring_buffer.h:288-295 | the last two, once the writer is out, also one caught in its wait: the invariant holds again, and nothing is unread, half written or in the log |
| RingStringBuffers.RingStringBuffer.Reset | src/ring_buffer.h:285-295 | the four steps of `reset`, from any state between two calls, exactly full or not, after which nothing is unread, half written or in the log |
| TicketQueue.TiledByReserve | src/ring_buffer.h:103-105 | a new slot extends the tiling of the positions up to `reserved_` without gap or overlap |
| TicketQueue.TiledByAdd | src/ring_buffer.h:47-55 | publishing the front of a slot, or all of it, keeps the tiling |
| TicketQueue.KeptByFill | src/ring_buffer.h:45 | filling a cell inside one's slot touches an unpublished position and no cell of another one |
| TicketQueue.KeptByTake | src/socket_service.cpp:91-93 | the consumer's step keeps the invariant: it has exactly the published values below its cursor |
| TicketQueue.InvAlways | src/ring_buffer.h:45-128 | the invariant holds after every run within the contract |
| TicketQueueOrder.PublishedIsFrozen | src/ring_buffer.h:96-120 | no step of anybody changes a published value, takes back the cursor or what was consumed |
| TicketQueueOrder.ConsumerGetsReservationOrder | src/ring_buffer.h:96-120 | for any producers that fill before they publish and stay within a lap, the consumer gets the values at positions 0, 1, 2, ... of the reservation order, each once, only published ones |
| TicketQueueOrder.OutstandingIsConserved | src/ring_buffer.h:47-55 | what all slots still hold adds up to `reserved_ - cursor_`, through any mix of partial and whole publishes |
| TicketQueueOrder.SomeoneCanPublish | src/ring_buffer.h:117-120 | whenever something reserved is unpublished, exactly one non-empty slot starts at the cursor and its owner can go on |
| TicketQueueOrder.FairProducersAllPublish | src/ring_buffer.h:117-120 | if every slot is published or waits to be, as a whole, all fair schedules publish them all if and only if no unpublished empty slot has a non-empty one reserved behind it |
| TicketQueueOrder.PublishedToTheEnd | src/ring_buffer.h:117-120 | with all slots published the cursor is at `reserved_` |
| TicketQueueOrder.OvertakenSlotSpinsForever | src/ring_buffer.h:117-119 | a slot behind the cursor is empty, and its publish spin is passed in no continuation |
| TicketQueueOrder.EmptySlotGetsOvertaken | src/ring_buffer.h:103-120 | a run in which that happens |
| RingBuffers.RingBuffer.constructor | src/ring_buffer.h:77-83 | a new buffer is the initial state of the ticket queue |
| RingBuffers.RingBuffer.At | src/ring_buffer.h:96-99 | masking the index finds the cell of the position |
| RingBuffers.RingBuffer.Reserve | src/ring_buffer.h:103-105 | the next positions become the caller's slot, as the queue's reserve step |
| RingBuffers.RingBuffer.Publish | src/ring_buffer.h:117-120 | called when its turn has come, the two publish steps of the queue |
| RingBuffers.SlotHandle.Set | src/ring_buffer.h:45 | one fill step of the queue, inside the slot |
| RingBuffers.SlotHandle.PublishSome | src/ring_buffer.h:47-52 | nothing for an empty slot; otherwise the first positions are published and the handle keeps the rest |
| RingBuffers.SlotHandle.PublishAll | src/ring_buffer.h:53-55 | the whole rest of the slot is published |
| RingBuffers.Consumer.Next | src/socket_service.cpp:91-93 | a value is found exactly when one is published and unread, and it is the one filled at the consumer's position |
| PoolSteps.TwoGettersExclusive | src/ring_buffer.h:356-379 | with two threads inside `get_obj` and any number inside `release_obj`, in every interleaving of atomic steps no object has two holders, and the read cursor does not pass the size |
| PoolSteps.FromOnePlace | src/ring_buffer.h:369-375 | a step leaves every index in one place, even a store that hits the cell of a ticket not yet loaded |
| PoolSteps.TicketsKept | src/ring_buffer.h:357-362 | tickets stay distinct and below the size |
| PoolSteps.InvAlways | src/ring_buffer.h:356-379 | exclusivity's invariant holds after every bounded run |
| PoolSteps.TicketsConserved | src/ring_buffer.h:356-367 | in every run, with any number of threads, the read cursor is the number of objects handed out of the table plus that of tickets not yet used; a ticket that came too late is given back |
| PoolLimits.TwoGettersIsTheLimit | src/ring_buffer.h:356-367 | objects stay exclusive in every run if and only if at most two threads may be inside `get_obj`, or the pool has one object |
| PoolLimits.ThreeGettersShareAnObject | src/ring_buffer.h:357-362 | for every size above one, a run with three getters gives one object to two holders |
| PoolLimits.TwoGettersReuseAnObject | src/ring_buffer.h:356-375 | for every size above one, a run with two getters in which an object one holder gave back is handed out again |
| PoolUse.FreshGet | src/ring_buffer.h:356-367 | a call on its own hands out the next untouched object of the array while two are left, else a new one |
| PoolUse.FreshRelease | src/ring_buffer.h:369-379 | a release on its own leaves the table untouched from the read cursor on |
| PoolUse.AloneKept | src/ring_buffer.h:356-379 | with one getter every step, of any number of overlapping releases too, keeps the table untouched from the next ticket on, and an object handed out is the next in order |
| PoolUse.OneGetterHandsOutFreshObjects | src/ring_buffer.h:356-379 | with calls of `get_obj` one at a time, in every interleaving with releases, no object is handed out twice, released or not |
| PoolLimits.OneGetterIsTheLimit | src/ring_buffer.h:356-379 | no object is handed out twice in any run if and only if at most one thread may be inside `get_obj`, or the pool has one object |
| PoolUse.ArrayFirstThenHeap | src/ring_buffer.h:356-367 | in the same runs the first `size - 1` objects are those of the array in order, all others from the heap |
| ObjectPools.ObjectPool.constructor | src/ring_buffer.h:334-342 | the index table starts as the identity |
| ObjectPools.ObjectPool.Get | src/ring_buffer.h:356-367 | an object never given out before: the array's next, or the heap's |
| ObjectPools.ObjectPool.Release | src/ring_buffer.h:369-379 | only the holder's entry goes; only an object of the array moves the write cursor |
| Requests.DequeuedWasOut | src/socket_service.cpp:90-99 | with an object for each request, the one at the head of the queue was never connected before and is not in `requests_` |
| Requests.KeptByDequeue | src/socket_service.cpp:90-100 | connecting the head of the queue keeps the invariant of who was connected and who has released what |
| Requests.KeptByVisit | src/socket_service.cpp:109-114 | marking a request that leaves keeps the invariant of who was connected and who has released what |
| Requests.KeptByAnswer | src/socket_service.cpp:115-124 | running the callback and releasing keeps it: what is released was held, and is being taken out |
| Requests.InvAlways | src/socket_service.cpp:87-135 | the invariant holds after every run of requests with an object each |
| RequestObjects.StepsAlone | src/socket_service.cpp:87-135 | while no object is handed out again, every step of clients and service on the shared objects is the step of one request by itself, field by field |
| PooledRequests.SoundAlways | src/socket_service.cpp:87-135 | with calls of `get_obj` one at a time, every interleaving of the steps of the pool and of the requests is a run of requests with an object each |
| PooledRequests.OwnershipOverRuns | src/socket_service.cpp:90-133 | in all these runs requests are connected in queue order and at most once, and released at most once: a synchronous one only by its client after completion, one owned by the service exactly when it was connected and the service is done with it |
| ReusedObjects.OneGetterKeepsOrder | src/socket_service.cpp:90-133 | that holds in all runs if and only if at most one thread may be inside `get_obj`, or the pool has one object |
| ReusedObjects.ReusedObjectIsReleasedTwice | src/socket_service.cpp:109-124 | for every larger pool, a run with two getters in which a request is answered with another's response and released before it is connected, and both again afterwards |
| ReusedObjects.ReusedObjectAnswersAtOnce | src/http_client.cpp:97-102 | and one in which a synchronous caller can read another's response and release its request while that is queued |
| Requests.ReleasedWhereRemoved | src/socket_service.cpp:112-125 | the service releases its requests only between marking and erasing them in one visit, and erases none it has not released |
| Requests.ServedWhileConnected | src/socket_service.cpp:109-133 | the sweep takes on exactly the requests whose `wsi` is null, sockets only if shut down; only to these a callback is made, only these are released by the service, and only these leave `requests_` |
| Requests.ConnectedAsTold | src/socket_service.cpp:92-99 | the request taken from the queue is in `requests_` with the `wsi` that connecting gave, neither completed nor answered nor released |
| PooledRequests.CompletedIsNeverSafe | src/socket_service.cpp:112-119 | in every run with one getter at a time, whenever a request becomes completed, by an event or by the sweep, its object is still in `requests_`, and a synchronous caller may release it at once |
| PooledRequests.NoCallbackNoRelease | src/socket_service.cpp:115-119 | in every run, with any number of getters, an asynchronous request without callback is never released |
| RequestTexts.OwnTextsByEvent | src/http_client.cpp:298-300 | an event adds to the text of its own request and to no other |
| PooledRequests.CallbackGetsOwnText | src/socket_service.cpp:112-119 | with calls of `get_obj` one at a time and releases at any time, in every order of events a callback runs at most once, and gets the concatenation of what its own request had heard |
| PooledRequests.ResponseIsOwnText | src/http_client.cpp:97-102 | in the same runs, when a synchronous caller gives its request back, the response it reads is what that request has heard |
| ReusedObjects.OneGetterKeepsResponses | src/http_client.cpp:97-102 | that holds in all runs if and only if at most one thread may be inside `get_obj`, or the pool has one object |
| RequestTexts.SweepCompletes | src/socket_service.cpp:109-132 | with an object for each request: once `wsi` is null (and a socket shut down) the next sweep takes the request out, completes it if it is HTTP, runs its callback exactly once and releases it |
| RequestTexts.SweepLeavesLive | src/socket_service.cpp:109-132 | a request with a `wsi`, or a socket whose client does not stop, is still in `requests_` after the sweep, neither completed nor answered nor released by it |
| PooledRequests.SweepFinishes | src/socket_service.cpp:109-132 | the same of the shared objects, in every run with one getter at a time |
| PooledRequests.SweepLeavesLiveObjects | src/socket_service.cpp:109-132 | and a request with a `wsi`, or a socket whose client does not stop, is left alone |
| PooledRequests.AnswersOnlyTheEnded | src/socket_service.cpp:109-124 | in every run, with any number of getters, a callback or a release by the service happens only in a visit, for the object visited, and only while its `wsi` is null |
| RequestTexts.SynchronousReleaseCanComeEarly | src/http_client.cpp:97-101 | a run in which a synchronous request is released by its client while `requests_` still has it |
| SocketServices.SocketService.constructor | src/socket_service.cpp:53-57 | pool and queue are new, and there are no requests |
| SocketServices.SocketService.Submit | src/socket_service.h:118-139 | the request gets the next object of the pool, which nobody had before, becomes the last of the queue, and keeps the order of its client |
| SocketServices.SocketService.Publish | src/socket_service.h:133-139 | reserve, store and publish append exactly this request to what the queue holds |
| SocketServices.SocketService.NextRequest | src/socket_service.cpp:91-93 | a request is found exactly when one is published and not taken, and it is the next of the queue |
| SocketServices.SocketService.Dequeue | src/socket_service.cpp:91-105 | at most one request is taken and connected; the loop goes on only if `requests_` is not empty |
| HttpCallbacks.FieldAt | src/http_client.cpp:188-244 | the fields of the handshake: one, and for a request its headers in order, its content type and the length of its body, if it has them |
| HttpCallbacks.DecimalReadsBack | src/http_client.cpp:234 | the announced length reads back as the length of the body |
| HttpCallbacks.AppendHeaders | src/http_client.cpp:188-244 | the handshake fails exactly if libwebsockets refuses one of its fields, and the response names the first one refused |
| HttpCallbacks.HttpCallback | src/http_client.cpp:174-313 | after an error, a refused field, a body too long or not written, completion, close and destruction the request is completed and `wsi` null, with the text of the reason; an unreadable response completes it; received text is appended; nothing else changes anything; the body written is that of the request |
| SocketServices.SocketService.SocketCallback | src/websocket_client.cpp:173-224 | the socket callbacks touch nothing of the request but `wsi`, and that as the event machine of the client does |
| SocketServices.SocketService.OnCallback | src/http_client.cpp:167-313 | one call of a callback is the event step of its request, if it means an event; it ends the request if its reason is an end for what the client had asked, and writes the body asked for |
| SocketServices.SocketService.SweepOut | src/socket_service.cpp:111-129 | nothing happens to a request with a `wsi`, or to a socket not shut down; any other leaves, completed if it is HTTP, with one callback if it has one, and released if it is the service's |
| SocketServices.SocketService.Visit | src/socket_service.cpp:110-132 | a visit is the steps mark, answer and erase, and what it releases goes back to the pool from its one holder |
| SocketServices.SocketService.Sweep | src/socket_service.cpp:109-133 | in any order of the set, that is done to every request in `requests_` and nothing to any other; the loop is a run of the model |
| SocketServices.SocketService.Deliver | src/socket_service.cpp:107 | the calls made in one `lws_service` are the run of the events they mean, in order; what one of them ends is at its end afterwards, and a request without calls is as before |
| SocketServices.SocketService.Turn | src/socket_service.cpp:90-134 | a pass of the loop is a run of the model and takes at most one request from the queue; one whose connection fails at once is completed and out, one that connects and hears nothing stays; what a call ends is completed and out; a live request without calls is as before |
| SocketServices.SocketService.Serve | src/http_client.cpp:74-98 | after any number of later submissions and passes, in any order, a request has the path and the request its client had submitted it with |
| SocketServices.SocketService.Return | src/http_client.cpp:97-102 | the caller gets its text, and the request goes back to the pool from its one holder |
| WebSocketFraming.FramesAssemble | src/websocket_client.cpp:142-151 | the two writes of each send assemble into one message of header and payload, also when the last send is cut short |
| WebSocketFraming.FramingRoundTrip | src/websocket_client.cpp:137-157 | in every permitted run of sends each record read has exactly the headroom, and stripped of it the records are the payloads in order; all of them once everything is drained |
| WebSocketFraming.EmptySendPublishesHeadroom | src/websocket_client.cpp:146-156 | sending an empty payload publishes the bare headroom and returns false |
| WebSocketFraming.SpanInsideIff | src/websocket_client.cpp:196 | offset and length given to `lws_write` lie inside the record if and only if it is no shorter than the headroom; otherwise the length wraps around |
| WebSocketFraming.SpanOfFrame | src/websocket_client.cpp:196 | of a frame they are its payload, and of a bare payload never the whole of it |
| FramingOverResets.FramingSurvivesResets | src/websocket_client.cpp:137-202 | in every permitted run of sends, reads and resets without a clearing between the two writes of a send, all that was sent and read since the last clearing is frames of the payloads sent since then, in order |
| FramingOverResets.ClearingKeepsFraming | src/ring_buffer.h:285-295 | a clearing leaves framing intact in every later run without a cut if and only if it does not fall between the two writes of a send |
| FramingOverResets.CutSendsBarePayload | src/websocket_client.cpp:146-155 | after a cut the second write returns true and publishes its payload without headroom |
| Disconnect.RawDisconnects | src/socket_client.cpp:107-159 | the raw client is told at most once; over a whole life once, if and only if the flag was down, or it connected, or there was a close |
| Disconnect.WsDisconnects | src/websocket_client.cpp:173-224 | with shutdown at any point the WebSocket client is told at most once: exactly if a close came before the shutdown, or a destruction did and the flag was down or taken down by the connection |
| Disconnect.WsDisconnectsOnce | src/websocket_client.cpp:173-224 | without a shutdown a new request is told exactly once |
| Disconnect.RawReuse | src/socket_client.cpp:53-77 | a raw request used again after a whole life is told once if it connects or closes, and not at all otherwise |
| Disconnect.DisconnectedIsLast | src/websocket_client.cpp:181-224 | in both clients nothing is told after the notice of disconnection, and the life ends with `wsi` null |
| Disconnect.HeardIsPrefix | src/websocket_client.cpp:174-179 | a raw client hears every event, a WebSocket client those before the shutdown |
| Disconnect.NoticesInOrder | src/websocket_client.cpp:181-224 | in both clients the notices other than of disconnection are those of the errors, connections and receipts that get through, in their order |
| Disconnect.NoticesCounted | src/socket_client.cpp:107-159 | one `on_error` for each error, one `on_connected` for each connection, one `on_data` for each receipt |
| Disconnect.WsiAfter | src/socket_client.cpp:107-159 | an error, a lost write, a close and a destruction leave `wsi` null; a connection, a receipt and a write that went out leave it as it was, unless a WebSocket client has shut down |
| Connections.Connection.OnRawEvent | src/socket_client.cpp:101-165 | each event brings its notice and its `wsi`, as the event machine says; connecting resets the buffer; a writeable event hands out the first unread message whole |
| Connections.Connection.OnWsEvent | src/websocket_client.cpp:159-235 | the same behind the shutdown test; a writeable event hands out what lies behind the headroom of the next record, and from a framed buffer exactly the next payload |
| Connections.Connection.WriteNext | src/websocket_client.cpp:193-202 | a record is read and handed out behind its headroom, or with a length beyond it if it is too short |
| Connections.Connection.SendRaw | src/socket_client.cpp:86-99 | true exactly for a connected client, a non-empty message and no reset during the wait, and the message is then the last one sent; with a reset the buffer is empty |
| Connections.Connection.SendFramed | src/websocket_client.cpp:137-157 | true exactly for a connected client and a non-empty payload, which is then the last one sent, framed; with the buffer reset between the two writes it is the only thing sent, and bare |
| Connections.Connection.BeginFrame | src/websocket_client.cpp:146-149 | the first write leaves the headroom as the beginning of a message of the announced length, or as a message if nothing is to follow |
| Clients.WebSocketClient.Connect | src/websocket_client.cpp:92-124 | an earlier request is shut down in any case; the new one starts with an empty buffer and no shutdown |
| Clients.WebSocketClient.Stop | src/websocket_client.cpp:126-135 | the request is shut down and forgotten |
| Clients.WebSocketClient.Send | src/websocket_client.cpp:137-157 | nothing without a request with `wsi`; otherwise as for the connection |
| Clients.SocketClient.Connect | src/socket_client.cpp:53-77 | with a request already there nothing changes and the answer is true; a new one starts with an empty buffer, nothing sent, read or unread, and its old flag |
| Clients.SocketClient.Stop | src/socket_client.cpp:79-84 | the request is shut down and forgotten |
| Clients.SocketClient.Send | src/socket_client.cpp:86-99 | nothing without a request with `wsi`; otherwise as for the connection, a reset during the wait included |

## Left out

- RingStringBuffers.RingStringBuffer.Write: a reset may begin while it waits, and not at its other steps, which is `StringRing` alone; oversized messages, which the code asserts away, are outside its contract, and `StringRingOutcome` says what they do.
- RingStringBuffers.RingStringBuffer.Reset: called between writes; against a writer in its wait it is `StartReset` and `FinishReset`, against one anywhere it is in `StringRing` and `StringRingReset`.
- RingBuffers.RingBuffer.Publish: called when its spin is over; the spin itself is `SomeoneCanPublish` and `FairProducersAllPublish`.
- ObjectPools.ObjectPool.Get: one caller at a time, so the second half of the test at src/ring_buffer.h:359 and the step back at 362 are steps of `PoolSteps` alone; allocation on the heap always succeeds.
- PooledRequests.OwnershipOverRuns: type and callback of a request are set in the step that hands out its object; the callback and the release of one visit are one step; an object of the heap that has been given back keeps its fields, and no address of the heap is used again.
- SocketServices.SocketService.Submit: one client at a time, so its object is always a new one; overlapping calls are in `PooledRequests`. The queue takes a request only within a lap of the service.
- SocketServices.SocketService.Turn: clients act between passes of the loop here, and at any step in `PooledRequests`.
- Connections.Connection.SendFramed: a reset falls between its two writes here, and anywhere in `FramingOverResets`.
- StringRingFifo.Fifo: the text of a read is its value at that moment; the pointer handed out by `read` may be overwritten later.
- Weak memory: all atomics are sequentially consistent; the relaxed loads are not judged.
- `write` tests `resetting_` and raises `writing_` in one step; a reset that falls between the two is not modelled.
- Cursors are unbounded; that a 64-bit cursor may wrap without harm to its cell is `WrappedCursorSameCell`. The length field has 32 bits, so rings are at most 2^32 bytes.
- More than one writer of a byte ring; its counters are plain fields.
- `slot.invalidate`, `size`, `capacity`, `empty` and the second constructor of `ring_buffer`: accessors.
- Libwebsockets is an environment that may send any event to a connected request; what its calls return is an input, and waking it up is left out.
- Status and content type of HTTP responses, and the reply with status 500 when no request can be allocated; how a body is written and read is an input.
- `LWS_PRE` is a parameter, since libwebsockets is not part of this model.
- `src/socket_server.cpp`: a map of the same byte rings.
- URL and port splitting, CPU affinity, logging, the map of global services, the spin lock, destructors and the shutdown of the service thread.
