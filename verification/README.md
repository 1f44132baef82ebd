# HyperNet model

HyperNet is a thread-per-core network engine: each worker owns its sessions, its timer wheel, its
session table, its registry of subscriptions and its outbound dials, and workers exchange work only
through first-in first-out task queues. This project models the engine's logic and states what it
keeps over whole runs.

- `Wire`, `RingBuffer`, `Framer`, `Socket`, `Session`, `Link`: the byte path. Packets are length,
  opcode and body, big-endian. A kernel that takes or gives any number of bytes, blocks, interrupts
  or fails stands behind every send and receive. The main result is delivery from one application to
  the other, through both rings, both kernels and the framer (`Links.Run`).
- `EffectiveOptions`: how configured sizes are clamped, and what that means for framing.
- `TimerWheel`, `IdleTimeout`: the hashed wheel with callbacks that add timers, its clock, and the
  lazily re-armed idle timeout on top of it.
- `SessionIds`, `Registry`: ids that name their owner, and the subscription indexes as one relation.
- `Routing`, `RoutingMachine`, `RoutingInvariant`, `RoutingRuns`, `RoutingProgress`: cross-worker sends,
  multicasts and broadcasts as an interleaving of atomic steps, with end callbacks that call again inside
  the loops they interrupt.
- `Worker`: one worker's tables and dials, with application callbacks that re-enter the operations.
- `Gateway`: upstream slots, the role handshake and ping forwarding over interleaved workers.

How the outside world enters the model:

- System calls, application handlers and callbacks answer from finite scripts held in the model.
  Statements hold for every script, so for every finite behaviour. An exhausted script answers "would
  block" for sends and receives, success for registrations, and no further action for applications.
- Ghost fields record histories: bytes received, packets submitted, timers added and fired, callbacks.
- Calls to the kernel are counted, so a contract can say that a would-block came in this event: a backlog
  left after a writable event was refused in it, and a readable event was read to a would-block in it.
- A session's close reason needs its cause, and while a session is connected no cause has happened. Error,
  hangup and local close are the reasons that come from outside.
- What may end a session is tracked within each loop step: what the step itself asks for, and what the
  callbacks it runs ask for.
- Threads appear as interleaved atomic steps, task queues as sequences; clocks as parameters.
- Sizes and ids are mathematical integers; widths appear where they matter (length field, opcode,
  payload limit, 64-bit ids, timer ids).

Where code and documentation differ, the code is followed:

- The wheel's header says a callback runs no earlier than its delay. Expiry counts from the start of the
  current tick, so it can be early by the offset into that tick (`TimerWheels.FiresEarly`, and on a
  wheel `TimerWheels.EarlyOnWheel`); the exact condition is `TimerWheels.NotEarlyIff`.
- A frame within the payload limit always fits the receive ring only for a configured ring of more
  than four bytes (`EffectiveOptions.MakeEffectiveOptions` gives the exact condition).
- Session ids are unique and name their owner for the first 2^32 - 1 sessions of each worker. Past that
  an id may name another owner, or repeat one of the same worker
  (`SessionIds.CounterOverflowChangesOwner`, `SessionIds.CounterOverflowRepeatsId`); the exact conditions
  are `SessionIds.OwnerRecovered` and `SessionIds.IdsEqualIff`.
- Packets from one worker to one session do not always arrive in submission order: a call made in an end
  callback can overtake the call whose loop it interrupts (`RoutingRuns.Overtakes`); the exact condition
  is `RoutingRuns.CallOrderIff`.
- `SessionRegistry::add` with exactly one id zero leaves a primary topic that is not subscribed
  (`Registries.SessionRegistry.Add` gives the exact condition).

## Model

| member | source | states |
|---|---|---|
| `Links.Run` | engine/src/hypernet/net/SessionManager.cpp:301-325 | For any schedule of sends, readiness events, local closes and deliveries, any kernel outcomes at both ends and any application reactions: in both directions the receiver has dispatched a prefix of the sender's packets, opcodes and bodies equal and in order, and all of them once it has read all their bytes, also when the sender is gone or the receiver has seen the peer's close, an error or a local close by then; it may stop earlier only if it closed for a cause that did happen: a failed send, a refused registration, an overflow, a malformed stream, an unknown opcode or a handler that asked for it; the packets of an end that is still connected include everything it was given to send, in that order |
| `Links.LinkedDelivers` | engine/src/hypernet/net/SessionManager.cpp:301-325 | The same for every pair of session states in which the bytes read and in flight are a prefix of the bytes the sender's kernel took |
| `Links.DispatchedIsPrefix` | engine/src/hypernet/net/Session.cpp:162-193 | Messages framed from a prefix of the encoded packet list, however much of it still sits in the ring, are a prefix of that list; all of it when all bytes arrived and the ring only waits |
| `Links.Advance` | engine/src/hypernet/net/Session.cpp:115-160 | One step of either session or of the network keeps both sessions valid and the byte flow a prefix; a submit adds exactly its packet, a delivery carries exactly the next bytes; after a readable event that the receiver got through, close signals included, with no would-block while bytes were left, everything the sender submitted is dispatched if it had all arrived; a step of one end leaves the other as it was, a close closes, and an event answers the messages it dispatches |
| `Links.ArrivedIsDispatched` | engine/src/hypernet/net/Session.cpp:195-283 | If every byte of the sender's packets has arrived and none is left to read, a receiver that is connected or was ended from outside has dispatched them all |
| `Links.Carry` | engine/src/hypernet/net/Session.cpp:195-283 | Delivery appends exactly the next bytes of the peer's wire |
| `Sessions.Session.EnqueuePacketU16Coalesced` | engine/src/hypernet/net/Session.cpp:475-650 | Whatever the kernel accepts, blocks, interrupts or refuses, the packet's bytes follow everything submitted before: kernel bytes then ring contents equal the submitted stream while connected, kernel bytes are a prefix of it always; true exactly when still connected; interest in writability exactly when there is a backlog, and then the last write blocked; an overflow close only when the unsent bytes exceed the ring |
| `Sessions.Session.SettleSent` | engine/src/hypernet/net/Session.cpp:553-650 | Booking a partial write of backlog and packet keeps the stream equation, queues exactly the unsent rest and leaves no stalled backlog |
| `Sessions.Session.SettleBlocked` | engine/src/hypernet/net/Session.cpp:553-650 | A write that took nothing queues the whole packet behind the backlog and registers for writability, or closes on overflow |
| `Sessions.Session.EnqueueRemainder` | engine/src/hypernet/net/Session.cpp:523-544 | Queues exactly the bytes of the segments after the first `skip`, whichever segment the cut falls in; succeeds if and only if they fit |
| `Sessions.Session.ConsumeRing` | engine/src/hypernet/net/Session.cpp:512-521 | Drops exactly the first n backlog bytes, across the wrap |
| `Sessions.Session.EnqueueSendNoFlush` | engine/src/hypernet/net/Session.cpp:426-473 | Appends all of the data or closes with an overflow, if and only if it does not fit |
| `Sessions.Session.FlushSend` | engine/src/hypernet/net/Session.cpp:652-736 | Keeps the stream equation and calls the kernel if there is a backlog; afterwards the backlog is empty or the kernel blocked, or the session closed for a kernel failure |
| `Sessions.Session.FlushOnce` | engine/src/hypernet/net/Session.cpp:664-736 | One gathered write takes a prefix of the backlog and nothing else; it asks for another round unless the kernel blocked or the session closed |
| `Sessions.Session.SetWriteInterest` | engine/src/hypernet/net/Session.cpp:738-773 | A connected session ends with exactly the interest asked for, and is closed if and only if a change was needed and refused |
| `Sessions.Session.OnWritable` | engine/src/hypernet/net/Session.cpp:285-307 | A backlog is offered to the kernel in this call; afterwards a connected session has no backlog and no interest, or a backlog, interest and a would-block from this call |
| `Sessions.Session.SendPacketU16` | engine/src/hypernet/net/SessionManager.cpp:301-325 | The packet joins the submitted list, whose encoding is the submitted stream, exactly when it fits the length field and the session is connected; true exactly when it was accepted and the session is still connected |
| `Sessions.Session.OnReadable` | engine/src/hypernet/net/Session.cpp:195-283 | Reads until a would-block from this call, or the session closes for a cause that happened, never for an outside signal; everything read is the next bytes that arrived, nothing is left to read unless that would-block came with bytes left, and between events no complete frame is left in the ring; what it says meanwhile is exactly the answers to the messages it dispatches, in order |
| `Sessions.Session.ReadOnce` | engine/src/hypernet/net/Session.cpp:221-283 | One receive and dispatch round asks the kernel, keeps the invariant, and closes only for a cause that happened: a full ring only if it cannot hold a length field |
| `Sessions.Session.ReceiveIntoRing` | engine/src/hypernet/net/Session.cpp:221-256 | Receiving through the exposed segments and committing appends exactly the received bytes to the ring |
| `Sessions.Session.ProcessRecvFrames` | engine/src/hypernet/net/Session.cpp:162-193 | The frame loop ends, dispatches every complete frame in order, and closes for a framing error only if the reference parse of the stream is malformed |
| `Sessions.Session.TakeFrame` | engine/src/hypernet/net/Session.cpp:162-193 | Frames so far plus the frames of what is left in the ring stay equal to the reference parse of everything received |
| `Sessions.Session.DispatchFrame` | engine/src/hypernet/net/Session.cpp:162-193 | Dispatch brings the dispatched messages level with the frames and answers the message, or the session is closed |
| `Sessions.Session.DispatchOnMessage` | engine/src/hypernet/net/SessionManager.cpp:266-292 | A payload without an opcode closes with that reason; any other is heard, and answered as its opcode says |
| `Sessions.Session.DispatchMessage` | engine/src/hypernet/net/SessionManager.cpp:266-292 | A ping is answered with exactly a pong, a pong with nothing, an unknown opcode closes with that reason, and a handled message with what its handler sends, in order |
| `Sessions.Session.HandleEvent` | engine/src/hypernet/net/Session.cpp:115-160 | Close signals act last: a session that an error or hangup ends has first been read to a would-block of this event, if readable, and has written its backlog or been refused in this event, if writable; an error goes before a hangup, neither is reported without its signal, and after either the session is not connected; what a session that is not closed by reading or writing says in the event is exactly the answers to the messages dispatched in it, in their order; without readability nothing is read, and without either flag nothing is written |
| `Sessions.Session.CloseLocal` | engine/src/hypernet/net/SessionManager.cpp:240-252 | A connected session closes with that reason and no received message is left undispatched |
| `Sessions.Session.CloseFromOutside` | engine/src/hypernet/net/Session.cpp:309-338 | The same for the close signals of an event; a session that has closed already keeps its reason |
| `Sessions.Session.BeginClose` | engine/src/hypernet/net/Session.cpp:340-388 | A connected session closes with the given reason; closing again changes nothing |
| `Sessions.Session.constructor` | engine/src/hypernet/net/Session.cpp:54-113 | A new session satisfies every invariant |
| `Sessions.FullRingWaits` | engine/src/hypernet/net/Session.cpp:221-256 | A full ring whose contents still wait for more bytes is smaller than a length field, and only then |
| `Sessions.ReceiveResumes` | engine/src/hypernet/net/Session.cpp:195-283 | Appending received bytes to the ring keeps the equation between ring, frames and reference parse |
| `Sessions.FrameResumes` | engine/src/hypernet/net/Session.cpp:162-193 | Moving one frame out of the ring keeps that equation |
| `Sessions.AcceptedConcat` | engine/src/hypernet/net/SessionManager.cpp:301-325 | Of a handler's packets those that fit the length field are sent in order, list by list |
| `Sessions.AcceptedAll` | engine/src/hypernet/net/SessionManager.cpp:301-325 | All of them if all fit |
| `Sessions.DispatchedWithinLimits` | engine/include/hypernet/protocol/LengthPrefixFramer.hpp:71-94 | No session ever dispatches a message over its payload limit or larger than its ring |
| `Sessions.MalformedCloses` | engine/src/hypernet/net/Session.cpp:162-193 | A session that received a malformed stream, or a frame over its limits, is closed, and not by a signal from outside |
| `Framing.LengthPrefixFramer.TryFrame` | engine/include/hypernet/protocol/LengthPrefixFramer.hpp:44-141 | The outcome, payload and error reason are those of the reference parse of the ring's contents, and a payload is within the limit; a frame is consumed whole, any other outcome consumes nothing; the post-read failure branches are never needed |
| `Framing.LengthPrefixFramer.TakePayload` | engine/include/hypernet/protocol/LengthPrefixFramer.hpp:118-140 | The zero-copy and the wrap-around copy path give the same bytes; the copy is used exactly when the payload wraps |
| `Framing.LengthPrefixFramer.PeekLength` | engine/include/hypernet/protocol/LengthPrefixFramer.hpp:58-69 | The length read without consuming is the big-endian value of the first four bytes |
| `Wire.ChunkIndependence` | engine/include/hypernet/protocol/LengthPrefixFramer.hpp:44-141 | For every split of a byte stream into chunks, parsing chunk by chunk gives the frames, remainder and verdict of parsing the whole stream |
| `Wire.JudgedByHeader` | engine/include/hypernet/protocol/LengthPrefixFramer.hpp:58-116 | For every prefix of a framed payload and what follows it: nothing before four bytes, then refused for the payload limit, or else for the ring's size, or else waited for in full and delivered |
| `Wire.FramesWithinLimits` | engine/include/hypernet/protocol/LengthPrefixFramer.hpp:71-94 | No frame of any stream exceeds the payload limit or the ring |
| `Wire.ParseResumes` | engine/include/hypernet/protocol/LengthPrefixFramer.hpp:44-141 | Parsing s then t from the remainder of s equals parsing s + t |
| `Wire.BadStaysBad` | engine/include/hypernet/protocol/LengthPrefixFramer.hpp:71-94 | A stream once malformed stays malformed with the same frames, whatever follows |
| `Wire.RestIsStuck` | engine/include/hypernet/protocol/LengthPrefixFramer.hpp:96-100 | The remainder of a parse is exactly one that needs more bytes or is invalid |
| `Wire.RoundTrip` | engine/src/hypernet/net/SessionManager.cpp:301-325 | Any prefix of the encoding of a receivable packet list parses without error into a prefix of that list, and the whole encoding into the whole list with nothing left |
| `Wire.ParseEncodeAll` | engine/src/hypernet/net/SessionManager.cpp:301-325 | Parsing the encoding of a packet list gives exactly its payloads |
| `Wire.U32RoundTrip` | engine/include/hypernet/protocol/Endian.hpp:19-48 | Storing and loading a big-endian u32 are inverse in both directions |
| `Wire.U32Ordered` | engine/include/hypernet/protocol/Endian.hpp:19-48 | Stored numbers come in dictionary order of their bytes exactly as in numeric order: most significant byte first |
| `Wire.U16RoundTrip` | engine/include/hypernet/protocol/Endian.hpp:13-31 | The same for u16 |
| `Wire.U16Ordered` | engine/include/hypernet/protocol/Endian.hpp:13-31 | The same for u16 |
| `Wire.SplitPayload` | engine/include/hypernet/protocol/OpcodeU16.hpp:9-21 | Splitting the opcode off a payload inverts prepending it, and fails exactly below two bytes |
| `Wire.PacketLayout` | engine/src/hypernet/net/SessionManager.cpp:301-325 | On the wire a packet is the number of bytes that follow, its opcode in the first two of them, and its body |
| `RingBuffers.RingBuffer.constructor` | engine/src/hypernet/buffer/RingBuffer.cpp:11-17 | A new ring is empty with the given capacity |
| `RingBuffers.RingBuffer.Write` | engine/src/hypernet/buffer/RingBuffer.cpp:19-52 | Appends the longest prefix of the data that fits |
| `RingBuffers.RingBuffer.Read` | engine/src/hypernet/buffer/RingBuffer.cpp:54-87 | Copies out and removes the first min(len, size) bytes, touching nothing else of the destination |
| `RingBuffers.RingBuffer.Peek` | engine/src/hypernet/buffer/RingBuffer.cpp:89-114 | Copies the same bytes and removes nothing |
| `RingBuffers.RingBuffer.PeekView` | engine/src/hypernet/buffer/RingBuffer.cpp:116-133 | The view is the longest contiguous prefix of the contents within the limit |
| `RingBuffers.RingBuffer.ReadView` | engine/src/hypernet/buffer/RingBuffer.cpp:135-148 | The same view, removed from the contents |
| `RingBuffers.RingBuffer.PeekIov` | engine/src/hypernet/buffer/RingBuffer.cpp:150-176 | At most two non-empty segments whose bytes, in order, are the prefix of the contents asked for |
| `RingBuffers.RingBuffer.WriteIov` | engine/src/hypernet/buffer/RingBuffer.cpp:177-207 | At most two non-empty segments that cover the free space asked for, starting at the tail |
| `RingBuffers.RingBuffer.CommitWrite` | engine/src/hypernet/buffer/RingBuffer.cpp:209-224 | Appends what was stored in the first n free bytes |
| `RingBuffers.RingBuffer.Clear` | engine/src/hypernet/buffer/RingBuffer.cpp:225-230 | Empties the ring |
| `RingBuffers.ScatterFillsFree` | engine/src/hypernet/buffer/RingBuffer.cpp:177-224 | For segments exposing any part of the free space, bytes scattered into them become the first free bytes and leave every stored byte as it was |
| `RingBuffers.ScatterExtends` | engine/src/hypernet/buffer/RingBuffer.cpp:177-224 | For any exposed part, scattering then committing is appending |
| `RingBuffers.SegmentsShowSpan` | engine/src/hypernet/buffer/RingBuffer.cpp:150-176 | The two segments of a wrapped range show that range in order |
| `EffectiveOptions.MakeEffectiveOptions` | engine/include/hypernet/core/EffectiveOptions.hpp:12-119 | Unset sizes take their defaults; the payload limit is the largest one within the request that leaves room for the length field; a frame within the limit can exceed the ring if and only if a receive ring of 1 to 4 bytes was configured |
| `EffectiveOptions.ExceedsRingIff` | engine/include/hypernet/protocol/LengthPrefixFramer.hpp:71-94 | Some stream passes the payload limit and is refused for the ring's size exactly when limit plus length field exceed the ring |
| `TimerWheels.FiresExactlyOnce` | engine/src/hypernet/core/TimerWheel.cpp:108-149 | Between ticks every timer that is due has fired exactly as often as it was added, none that is not due has, every firing was at the timer's own tick, and the active count is the number stored |
| `TimerWheels.TimerWheel.AddTimer` | engine/src/hypernet/core/TimerWheel.cpp:23-42 | Adds one timer with a non-zero id, expiring at the current tick plus max(1, ceil(delay / resolution)), also in the middle of a bucket |
| `TimerWheels.ExpirationIsLeast` | engine/src/hypernet/core/TimerWheel.cpp:81-94 | The expiry is the first tick after the current one whose distance covers the delay |
| `TimerWheels.NotEarlyIff` | engine/include/hypernet/core/TimerWheel.hpp:17-19 | The start of the expiry tick is no earlier than the delay after the call if and only if the call came no further into its tick than what rounding the delay up has added |
| `TimerWheels.FiresEarly` | engine/include/hypernet/core/TimerWheel.hpp:17-19 | A timer of one tick added in the last nanosecond of a tick fires one nanosecond later |
| `TimerWheels.AddedLate` | engine/src/hypernet/core/TimerWheel.cpp:23-42 | A wheel of any size with 10 ms ticks, to which a timer of 10 ms was added in the last nanosecond of its tick 0 |
| `TimerWheels.EarlyOnWheel` | engine/src/hypernet/core/TimerWheel.cpp:51-79 | On that wheel the timer has fired when the clock shows 10 ms |
| `TimerWheels.NotLate` | engine/include/hypernet/core/TimerWheel.hpp:17-19 | The start of the expiry tick is at most one tick past the delay |
| `TimerWheels.TimerWheel.ProcessCurrentTick` | engine/src/hypernet/core/TimerWheel.cpp:108-149 | Timers added = stored + fired, with nothing lost or fired twice, although callbacks add to the bucket being processed; one callback runs for each firing |
| `TimerWheels.TimerWheel.ProcessTimer` | engine/src/hypernet/core/TimerWheel.cpp:108-149 | One timer of the bucket is fired, which runs one callback, if due, or returned to its slot, with the accounts of added, stored, waiting and fired balanced |
| `TimerWheels.TimerWheel.Tick` | engine/src/hypernet/core/TimerWheel.cpp:44-49 | One logical tick keeps the wheel's invariant, advances the tick by one and runs as many callbacks as timers fire |
| `TimerWheels.TimerWheel.TickAt` | engine/src/hypernet/core/TimerWheel.cpp:51-79 | After late, early or backward calls the tick is the number of whole resolutions from the start to the latest instant seen |
| `TimerWheels.ClockAdvances` | engine/src/hypernet/core/TimerWheel.cpp:51-79 | Moving the last tick time by whole ticks keeps the remainder below one resolution, so the counter never drifts |
| `TimerWheels.BucketSplit` | engine/src/hypernet/core/TimerWheel.cpp:108-149 | All timers due at a tick are in that tick's slot, and emptying it leaves only later ones |
| `TimerWheels.TimerWheel.NextTimerId` | engine/src/hypernet/core/TimerWheel.cpp:96-106 | Hands out the counter and moves it to its successor, past the largest id to one |
| `TimerWheels.TimerWheel.constructor` | engine/src/hypernet/core/TimerWheel.cpp:9-21 | A new wheel is empty and on the clock |
| `IdleTimeouts.IdleWatch.Run` | engine/src/hypernet/net/Session.cpp:775-844 | Over every interleaving of clock, wheel, other timers, traffic and other closes: of the idle timers a connected session has put on the wheel exactly the last has not fired, and the session is less than timeout plus two ticks past its last byte; one that the timeout closed was silent for at least the timeout and less than two ticks more; the session fares exactly as with an alarm of its own, whatever else is on the wheel |
| `IdleTimeouts.IdleWatch.Advance` | engine/src/hypernet/net/Session.cpp:775-844 | One step of the clock, the wheel, another timer, the traffic or another close does to the session what it does to one with an alarm of its own |
| `IdleTimeouts.IdleWatch.OnIdleTimer` | engine/src/hypernet/net/Session.cpp:822-844 | The timer closes the session if and only if it was silent for the timeout, and otherwise re-arms for the rest of the timeout |
| `IdleTimeouts.IdleWatch.ArmIdleTimerAfter` | engine/src/hypernet/net/Session.cpp:799-820 | Puts one timer on the wheel, due less than one tick past the timeout; without a timeout, closed or already armed it does nothing |
| `IdleTimeouts.IdleWatch.ProcessTick` | engine/src/hypernet/core/TimerWheel.cpp:108-149 | A wheel tick runs the idle callback exactly if the idle timer is due at that tick, and changes nothing about the session otherwise |
| `IdleTimeouts.FiresAtItsTick` | engine/src/hypernet/core/TimerWheel.cpp:108-149 | A timer that was not due one tick ago is among the latest firings exactly if the new tick is its own, whatever else is on the wheel |
| `IdleTimeouts.IdleWatch.constructor` | engine/src/hypernet/net/Session.cpp:780-797 | Starting the timeouts arms the timer exactly when a timeout is set |
| `IdleTimeouts.ArmBound` | engine/src/hypernet/core/TimerWheel.cpp:23-42 | The expiry tick of the remaining timeout starts less than one tick after the timeout ends |
| `SessionIds.IdsAreUnique` | engine/src/hypernet/net/SessionManager.cpp:112-115 | For worker ids below 2^31 and counters from 1 to 2^32 - 1, ids are non-zero, distinct across workers and time, and give back their worker |
| `SessionIds.OwnerRecovered` | engine/include/hypernet/SessionHandle.hpp:74-78 | For any counter, the owner is recovered exactly when the counter's high half adds no bits to the worker id |
| `SessionIds.OwnerIsInt32` | engine/include/hypernet/SessionHandle.hpp:74-78 | For any id the owner is the one 32-bit signed number with the bits of the high half |
| `SessionIds.IdLayout` | engine/src/hypernet/net/SessionManager.cpp:112-115 | The high half of an id is the worker id or-ed with the counter's high half, the low half the counter's low half |
| `SessionIds.IdsEqualIff` | engine/src/hypernet/net/SessionManager.cpp:112-115 | For any counters two ids are equal if and only if their owner bits and the low halves of their counters are |
| `SessionIds.CounterOverflowRepeatsId` | engine/src/hypernet/net/SessionManager.cpp:112-115 | Worker 1 keeps its owner bits past 2^32 sessions and hands out its first id again |
| `SessionIds.CounterOverflowChangesOwner` | engine/src/hypernet/net/SessionManager.cpp:112-115 | The session after 2^32 - 1 others on worker 0 is taken for one of worker 1's, and a later one repeats an id of worker 1 |
| `Registries.SessionRegistry.Run` | runtime/extensions/app/src/hyperapp/core/SessionRegistry.cpp:228-436 | After any run of registry operations from empty, records, states and primary topics are those of the reference, and the indexes represent exactly the relation between sessions and topics that the operations describe, with no empty index entries; primary topics are all (0,0) or subscribed if every add names both ids or neither |
| `Registries.SessionRegistry.Perform` | runtime/extensions/app/src/hyperapp/core/SessionRegistry.cpp:231-436 | One operation of the registry is one operation on the relation and on the records |
| `Registries.SessionRegistry.IndexesList` | runtime/extensions/app/src/hyperapp/core/SessionRegistry.cpp:208-226 | The topic index lists exactly the related pairs |
| `Registries.SubscriptionIndex.Subscribe` | runtime/extensions/app/src/hyperapp/core/SessionRegistry.cpp:85-103 | Adds exactly the key, true exactly if it was new; indexes mirror the subscription sets and each scope count is the number of its keys |
| `Registries.SubscriptionIndex.Unsubscribe` | runtime/extensions/app/src/hyperapp/core/SessionRegistry.cpp:105-150 | Removes exactly the key, true exactly if it was there; the scope entry goes with its last key |
| `Registries.SubscriptionIndex.ClearAll` | runtime/extensions/app/src/hyperapp/core/SessionRegistry.cpp:152-174 | Removes exactly the session's keys from both indexes |
| `Registries.SubscribeKeepsMirrors` | runtime/extensions/app/src/hyperapp/core/SessionRegistry.cpp:85-103 | Inserting into both indexes and counting keeps them mirrors of the subscription sets |
| `Registries.UnsubscribeKeepsMirrors` | runtime/extensions/app/src/hyperapp/core/SessionRegistry.cpp:105-150 | Erasing keeps them mirrors, and the scope index entry is erased exactly when the count reaches zero |
| `Registries.SessionRegistry.Add` | runtime/extensions/app/src/hyperapp/core/SessionRegistry.cpp:231-243 | Records the session, subscribes it if both ids are non-zero; its primary topic is (0,0) or subscribed if and only if the ids are both zero or both non-zero or the key was subscribed already |
| `Registries.SessionRegistry.Remove` | runtime/extensions/app/src/hyperapp/core/SessionRegistry.cpp:245-255 | Removes exactly the session's record and subscriptions |
| `Registries.SessionRegistry.SetState` | runtime/extensions/app/src/hyperapp/core/SessionRegistry.cpp:307-317 | Changes exactly the state of a recorded session |
| `Registries.SessionRegistry.Subscribe` | runtime/extensions/app/src/hyperapp/core/SessionRegistry.cpp:332-341 | Subscribes a recorded session only; true exactly if the key is new |
| `Registries.SessionRegistry.Unsubscribe` | runtime/extensions/app/src/hyperapp/core/SessionRegistry.cpp:343-368 | Removes the key; the record changes only in its primary topic, which is cleared exactly if the key was it or no key is left |
| `Registries.SessionRegistry.UnsubscribeAll` | runtime/extensions/app/src/hyperapp/core/SessionRegistry.cpp:370-384 | Drops all subscriptions and the primary topic of a recorded session |
| `Registries.SessionRegistry.SetPrimaryTopic` | runtime/extensions/app/src/hyperapp/core/SessionRegistry.cpp:386-409 | Succeeds exactly for (0,0) or a subscribed topic of a recorded session |
| `Registries.SessionRegistry.MoveToTopic` | runtime/extensions/app/src/hyperapp/core/SessionRegistry.cpp:411-436 | Replaces all subscriptions by the new topic and returns the old primary one |
| `Registries.SessionRegistry.SnapshotAll` | runtime/extensions/app/src/hyperapp/core/SessionRegistry.cpp:438-454 | Lists exactly the recorded sessions except the excluded one, each once |
| `Registries.SessionRegistry.SnapshotScope` | runtime/extensions/app/src/hyperapp/core/SessionRegistry.cpp:456-476 | Lists exactly the sessions with a subscription in the scope except the excluded one, each once |
| `Registries.SessionRegistry.SnapshotTopic` | runtime/extensions/app/src/hyperapp/core/SessionRegistry.cpp:478-499 | Lists exactly the sessions subscribed to the topic except the excluded one, each once |
| `RoutingRuns.CallOrderIff` | engine/src/hypernet/net/SessionRouterFactory.cpp:99-136 | In every run, two packets of different calls from one worker to one session arrive in the order the calls were made if and only if the later call was not made while the earlier one still owed that delivery: from an end callback before the share for the session's owner was posted, or before the session's turn in the local loop |
| `RoutingRuns.TopLevelInOrder` | runtime/extensions/app/src/hyperapp/core/SessionService.cpp:88-125 | Calls made outside all loops, sends, multicasts and broadcasts mixed, never overtake an earlier call |
| `RoutingRuns.Overtakes` | engine/src/hypernet/net/SessionRouterFactory.cpp:105-112 | A run in which the end callback of the first target of a multicast sends to the second target, which gets the later call's packet first |
| `RoutingRuns.MulticastReaches` | runtime/extensions/app/src/hyperapp/core/TopicBroadcaster.cpp:62-128 | In every run, once caller and owner have settled, a multicast was served exactly once on the owner of a session it names, and reached the session exactly as often as it names it if the session was registered then, and else never |
| `RoutingRuns.BroadcastReaches` | runtime/extensions/app/src/hyperapp/core/TopicBroadcaster.cpp:9-32 | In every run, once settled, a broadcast was served exactly once on every worker and reached, once each, exactly the sessions listed there for its target at that moment, without the excluded one |
| `RoutingRuns.CallReaches` | runtime/extensions/app/include/hyperapp/core/TopicBroadcaster.hpp:49-71 | The same for every kind of call, as often as due by the registry of the owner at that moment; if the session has no owner among the workers, or its owner no share of the call, it was not reached, and by no registry of the owner was it due to be |
| `RoutingProgress.EveryCallReaches` | runtime/extensions/app/include/hyperapp/core/TopicBroadcaster.hpp:49-71 | From every reachable state the workers get, without new calls, to a state in which any given call has reached any given session exactly as often as due, by the registry its owner has now if it is still to serve the call |
| `RoutingProgress.ComesToRest` | engine/src/hypernet/net/EventLoop.cpp:441-496 | From every state the invariant holds of, some steps without new calls or registry changes bring all workers to rest |
| `RoutingProgress.NextIsCloser` | engine/src/hypernet/net/EventLoop.cpp:387-439 | On every schedule: a step other than a new call or a registry change does nothing, or leaves less to hand out, then less queued, then less to deliver |
| `RoutingProgress.CanMove` | engine/src/hypernet/net/EventLoop.cpp:417-439 | A worker with a loop in progress or a queued share has a step that leaves less to do |
| `RoutingProgress.FittingTargets` | runtime/extensions/app/src/hyperapp/core/SessionRegistry.cpp:438-499 | Every share can be served, whatever the worker's registry |
| `RoutingProgress.SendCrosses` | runtime/extensions/app/src/hyperapp/core/SessionService.cpp:88-125 | A run of two workers in which a session registers on the second, the first sends to it, and the share is posted, taken and delivered |
| `RoutingRuns.NoShareNotReached` | runtime/extensions/app/src/hyperapp/core/TopicBroadcaster.cpp:91-95 | At any time in any run, a session whose owner has no share of a call was not reached by it |
| `RoutingRuns.AtMostPerEntry` | runtime/extensions/app/src/hyperapp/core/TopicBroadcaster.cpp:34-128 | At any time in any run a call has reached a session at most as often as it names the session |
| `RoutingRuns.OnlyOnOwner` | runtime/extensions/app/src/hyperapp/core/SessionService.cpp:88-125 | In every run a packet is handed to a session only on the worker that owns it |
| `RoutingRuns.ShareServed` | engine/src/hypernet/net/EventLoop.cpp:417-439 | Once settled, every worker with a share of a call has served it exactly once |
| `RoutingRuns.RunKeeps` | engine/src/hypernet/net/EventLoop.cpp:441-496 | The invariant holds after any run |
| `RoutingRuns.MadeInCallback` | engine/src/hypernet/net/SessionRouterFactory.cpp:105-112 | In every run, a call that was made inside loops was made while a packet was being handed to a session |
| `RoutingInvariant.NextKeeps` | engine/src/hypernet/net/EventLoop.cpp:387-439 | Every atomic step of any worker keeps the loops on each stack, the streams between workers, the progress of the shares being served and the order of the deliveries |
| `RoutingInvariant.HandOrdered` | runtime/extensions/app/include/hyperapp/core/TopicBroadcaster.hpp:49-71 | Handing a share out keeps the order: whatever was handed to that worker before belongs to a call made earlier, or made in between under this one |
| `RoutingInvariant.HandNextKeeps` | runtime/extensions/app/src/hyperapp/core/TopicBroadcaster.cpp:91-127 | Serving the own share at once and posting the others, one worker at a time, keeps the invariant |
| `RoutingInvariant.BeginKeeps` | runtime/extensions/app/src/hyperapp/core/SessionService.cpp:110-125 | A call made in an end callback, inside the loops it interrupts, keeps the invariant |
| `RoutingInvariant.DeliverKeeps` | engine/src/hypernet/net/SessionRouterFactory.cpp:105-112 | Handing the packet to the next session of a share keeps the invariant |
| `RoutingInvariant.RunTaskKeeps` | engine/src/hypernet/net/EventLoop.cpp:417-439 | Taking the oldest task and entering its share keeps the invariant |
| `RoutingInvariant.ServedInOrder` | engine/src/hypernet/net/EventLoop.cpp:387-439 | What a worker has begun to serve for another is a prefix of what that one handed out to it, in hand-out order |
| `RoutingRuns.ServedOnce` | runtime/extensions/app/src/hyperapp/core/TopicBroadcaster.cpp:62-128 | Two services of one call on one worker are the same one |
| `Routing.Bucketize` | runtime/extensions/app/src/hyperapp/core/TopicBroadcaster.cpp:76-87 | Sorts the ids into one bucket per worker, in request order, dropping zero, excluded and out-of-range ids |
| `Routing.BucketKeeps` | runtime/extensions/app/src/hyperapp/core/TopicBroadcaster.cpp:76-87 | Every wanted id keeps its multiplicity in its owner's bucket and is in no other |
| `Routing.BucketConcat` | runtime/extensions/app/src/hyperapp/core/TopicBroadcaster.cpp:76-87 | Requests one after the other fill the buckets one after the other, so request order is kept |
| `Routing.TargetsAreDue` | runtime/extensions/app/src/hyperapp/core/TopicBroadcaster.cpp:9-128 | The targets a worker collects for its share of any call are the sessions the call is due to reach there, with multiplicity, all owned by that worker |
| `Routing.EntriesAttained` | runtime/extensions/app/src/hyperapp/core/TopicBroadcaster.cpp:34-128 | The bound of how often a call names a session is attained by some registry of its owner |
| `Routing.ShareIff` | runtime/extensions/app/src/hyperapp/core/TopicBroadcaster.cpp:91-95 | A worker has a share exactly if it owns a session the call names; of a broadcast every worker has one |
| `Routing.NoShareNothingDue` | runtime/extensions/app/src/hyperapp/core/TopicBroadcaster.cpp:91-95 | A worker left out of a call owns nobody the call is due to reach |
| `Routing.TakeSnapshot` | runtime/extensions/app/src/hyperapp/core/SessionRegistry.cpp:438-499 | The registry's snapshot is a list of targets for a broadcast's share: the listed sessions without the excluded one, each once |
| `Routing.CollectTargets` | runtime/extensions/app/src/hyperapp/core/TopicBroadcaster.cpp:107-115 | Looking up a bucket's ids one by one gives the registered ones in order, with repetitions |
| `Routing.RegisteredConcat` | runtime/extensions/app/src/hyperapp/core/TopicBroadcaster.cpp:107-115 | The registered ids of a list come in the order of the list |
| `Routing.RegroupIsLocal` | engine/src/hypernet/net/SessionRouterFactory.cpp:76-136 | Grouping a task's targets by owner again on the owner worker leaves them all in its own group, in order, and posts nothing |
| `Workers.TablesAgree` | engine/src/hypernet/net/SessionManager.cpp:118-264 | Between loop steps the session table, the registry, the gauge and the fd registrations describe the same sessions, fds are distinct, and every registration points to a live handler; the open fds are exactly the registered ones, so none leaks |
| `Workers.DialsAgree` | engine/src/hypernet/connector/ConnectorManager.cpp:234-451 | Between loop steps a dial's callback has run at most once, exactly once if the dial is over and was not dropped by a shutdown; a pending dial with a timeout has a timer, and any pending dial has a registered socket or a retry timer; a callback is given only sessions that have started |
| `Workers.Worker.Run` | engine/src/hypernet/net/EventLoop.cpp:441-496 | For every sequence of tasks, timers, events, idle closes and dial shutdowns, with callbacks that close sessions and dial again in the middle of operations: both agreements hold between steps; a session ended only if a step, or a callback that ran, asked for it, and every one that a step must end has ended; a dial past its first attempt is never scheduled for a retry again |
| `Workers.Worker.Step` | engine/src/hypernet/net/EventLoop.cpp:441-496 | One loop step restores quiescence; every session that newly ended was ended by this very step or asked for in a callback of it; no dial but the one the step is about is touched; a task's actions are carried out, a timer and an event do what they must |
| `Workers.Worker.Dispatch` | engine/src/hypernet/net/EventLoop.cpp:452-473 | An event without a context or on the wakeup fd does nothing; a session's runs the application and ends the session exactly if it must; a dial's ends the dial with its outcome or schedules the one retry; the acceptor turns its sockets into sessions |
| `Workers.DispatchIsLive` | engine/src/hypernet/net/EventLoop.cpp:452-473 | A registered fd belongs to a session in the table under that fd, or to an uncompleted dial holding that socket |
| `Workers.Worker.OnAccepted` | engine/src/hypernet/net/SessionManager.cpp:118-169 | A session is opened under the next id in all tables before its start callback runs, or the socket is closed and nothing but an id is spent; without callbacks nothing else changes |
| `Workers.Worker.BeginClose` | engine/src/hypernet/net/Session.cpp:340-388 | The end callback runs when the session is already in no table; afterwards its id never comes back; closing an unknown id changes nothing, and without callbacks nothing but this session changes |
| `Workers.Worker.CloseTables` | engine/src/hypernet/net/SessionManager.cpp:192-218 | Unregisters and closes the fd, erases the session and lowers the gauge before the end callback runs |
| `Workers.Worker.OpenTables` | engine/src/hypernet/net/SessionManager.cpp:143-166 | Registration, table, gauge and registry record are in place before the application's start callback |
| `Workers.Worker.CloseAllByPolicy` | engine/src/hypernet/net/SessionManager.cpp:254-264 | Every session there was is closed, although callbacks may close others or open new ones meanwhile |
| `Workers.Worker.SessionEvent` | engine/src/hypernet/net/Session.cpp:115-160 | Runs the application's callback; ends the session if its handling does, even if a callback closed it first, and otherwise changes nothing by itself |
| `Workers.Worker.RunActs` | apps/common/WorkerControllerAppBase.hpp:60-73 | Application code run from a callback closes every session it asks to close, starts every dial, and leaves what its callers rely on in place; dials in progress are untouched |
| `Workers.Worker.Callback` | apps/common/WorkerControllerAppBase.hpp:60-73 | The next callback of the application is run, and what it asks for is carried out |
| `Workers.Worker.DialTcpSession` | engine/src/hypernet/connector/ConnectorManager.cpp:234-269 | A usable address starts a dial under the next id and with the settings asked for, which is then pending without a callback exactly when the first attempt goes on, and else has had its callback once; an unusable address is answered at once without a dial |
| `Workers.Worker.DialStartAttempt` | engine/src/hypernet/connector/ConnectorManager.cpp:271-347 | Gives up the previous socket; the dial goes on exactly when connecting is in progress and registered, or failed on the first attempt with a retry allowed, and then has its event, timeout or retry to come; otherwise its callback was called with the outcome |
| `Workers.Worker.AttemptAnswered` | engine/src/hypernet/connector/ConnectorManager.cpp:291-347 | The dial goes on exactly when connecting is in progress and registered, or failed on the first attempt with a retry allowed; otherwise its callback was called, with the next session id exactly if the kernel connected at once and creating the session works |
| `Workers.Worker.DialEvent` | engine/src/hypernet/connector/ConnectorManager.cpp:43-82 | An event ends the dial, except exactly a socket error on the first attempt with a retry allowed, which schedules one; a dial that ends has its callback called, with the next session id exactly if the socket has no error and creating the session works |
| `Workers.Worker.DialTimeout` | engine/src/hypernet/connector/ConnectorManager.cpp:349-367 | The timeout of the current attempt schedules the retry exactly if it is the first attempt with a retry allowed, and otherwise ends the dial with a failure callback; that of an earlier attempt does nothing |
| `Workers.Worker.FinishDialOk` | engine/src/hypernet/connector/ConnectorManager.cpp:369-401 | For the current attempt the socket leaves the dial, becomes a session if it can, and the callback is called once with that outcome before the dial is erased; for any other attempt nothing happens; no other dial is touched |
| `Workers.Worker.FinishDialFail` | engine/src/hypernet/connector/ConnectorManager.cpp:403-425 | For the current attempt the socket is closed, the callback called once with a failure, and the dial erased; for any other attempt nothing happens; no other dial is touched, and without other callbacks nothing else changes |
| `Workers.Worker.FireTimer` | engine/src/hypernet/connector/ConnectorManager.cpp:271-367 | A timer that is not on the wheel, or of a dial or attempt that is over, does nothing; a retry asks the kernel once and the dial goes on, or is called back with the outcome, as that answer says; a timeout schedules the one retry or fails the dial |
| `Workers.Worker.AcceptEvent` | engine/src/hypernet/net/SessionManager.cpp:118-169 | Accepting any number of sockets keeps the tables in agreement although callbacks run in between; without callbacks the sockets are taken one by one as in the reference |
| `Workers.EverySocketServed` | engine/src/hypernet/net/SessionManager.cpp:118-169 | In that reference every new socket becomes a session, in order, under the next ids, and older sessions stay |
| `Workers.Worker.ShutdownDials` | engine/src/hypernet/connector/ConnectorManager.cpp:427-451 | All dials are dropped with their sockets and registrations, without callbacks; sessions are untouched |
| `Workers.ClosedKeeps` | engine/src/hypernet/net/SessionManager.cpp:192-218 | Erasing a session from the tables keeps them in agreement while its end callback is still to run |
| `Workers.OpenedKeeps` | engine/src/hypernet/net/SessionManager.cpp:118-169 | Adding a session keeps them in agreement |
| `Workers.FinishForward` | engine/src/hypernet/connector/ConnectorManager.cpp:369-425 | Across the nested callbacks of a finishing dial, nothing that callers further down rely on is lost |
| `Workers.Worker.constructor` | engine/src/hypernet/net/EventLoop.cpp:273-313 | A worker with its acceptor and wakeup registered is quiet |
| `Gateways.Gateway.Run` | domains/trading/src/trading/feature/handshake/gateway/RoleHelloGatewayController.cpp:30-88 | Over every interleaving of the workers' steps the workers' states are those of the reference, each slot is empty or names a recorded session of its own worker, live unless its end is being handled; pings were forwarded only for sessions that had said hello; with handoff off none was posted |
| `Gateways.Gateway.Take` | domains/trading/src/trading/feature/handshake/gateway/RoleHelloGatewayController.cpp:30-88 | Each step changes its own worker as the reference says and keeps this; a ping it forwards comes from a session whose hello was accepted before |
| `Gateways.Gateway.OnRoleHello` | domains/trading/src/trading/feature/handshake/gateway/RoleHelloGatewayController.cpp:30-72 | Only in the first state; an exchange is refused if another session holds the slot and claims it if free, a client is refused if it holds the slot; refusal or a failed answer ends the session |
| `Gateways.Gateway.ControllerSessionEnd` | domains/trading/src/trading/feature/handshake/gateway/RoleHelloGatewayController.cpp:74-88 | Empties the slot exactly if it names the ending session, before the registry record goes |
| `Gateways.Gateway.RuntimeSessionEnd` | apps/common/WorkerControllerAppBase.hpp:67-73 | The registry record goes last, and then records and live sessions agree |
| `Gateways.Gateway.BeginEnd` | engine/src/hypernet/net/SessionManager.cpp:192-218 | The session leaves the table while its record and slot are still to be cleaned up |
| `Gateways.Gateway.OnSessionStart` | apps/fep_gateway/src/FepGatewayApplication.cpp:44-80 | A dialled session becomes its worker's upstream at once; an accepted one leaves the slot alone |
| `Gateways.Gateway.OnPerfPing` | domains/trading/src/trading/feature/benchmark/gateway/BenchmarkGatewayController.cpp:32-55 | A ping in the handshaked state goes to the slot of the routed worker if it is taken, through a queue exactly when that upstream belongs to another worker |
| `Gateways.Route` | domains/trading/src/trading/feature/benchmark/gateway/BenchmarkGatewayController.cpp:40-46 | The routed worker is in range, and is the client's own worker with handoff off |
| `Gateways.RouteTurns` | domains/trading/src/trading/feature/benchmark/gateway/BenchmarkGatewayController.cpp:40-46 | With handoff on, client ids take turns around the workers, starting with worker 0, whichever worker the client is on |

## Left out

- Sockets, epoll, eventfd, signals and threads themselves: only their results and atomic steps.
- Engine and worker startup and shutdown: waits, futures and joins; lifecycle statements end before a worker shuts down, whose closes skip callbacks and the gauge.
- Heartbeat timers: a second timer of the same shape as the idle timer.
- Connector requests (the pending request table): a reply to a superseded attempt drops the request, so only at most once would hold.
- Logger, metrics text, status server, configuration loading, scripts and `main` files: plumbing.
- Buffer pool, packet readers and writers, packet structures, latency recorder and job system: simple members or floating point.
- Benchmark client: it ends registry entries by hand and is outside table agreement.
- Pong forwarding: one send to the id in the packet.
- Null pointers, allocation failure other than of a session, exceptions from handlers, and the branches for a missing ring.
- Owner-thread checks that abort: the model calls every operation on its owner.
- Calls to the session service from threads that are not workers.
- RoutingRuns.OnlyOnOwner: says that the packet is handed to the session's send path, not that the session accepts it; that is the send path's contract.
- Workers.DialsAgree: does not claim at most two connects per dial, because an error event and a later timeout of the first attempt can each schedule a retry.
- Workers.Worker.FinishDialOk: erases the dial by its key, because callbacks may insert dials; the session it announces may already have been closed by its start callback.
- Workers.DispatchIsLive: an event may reach a handler registered after the event was collected, when an fd number is reused within one batch; only liveness of the handler is claimed.
- Workers.Worker.OnAccepted: session ids are the local counter; the worker half of the id and its limits are in the session id lemmas.
- Gateways.Gateway.OnSessionStart: takes a fresh id of its worker as given, which the session id lemmas provide.
- IdleTimeouts.IdleWatch.Run: assumes each tick is processed while the clock is in that tick's own window.
- IdleTimeouts.IdleWatch.ProcessTick: runs the idle callback when the bucket is done rather than in the middle of it; the current tick, and so the new expiry, are the same.
- RingBuffers.RingBuffer.constructor: takes a positive capacity; the source throws for zero, which fails the session's creation.
- TimerWheels.TimerWheel.constructor: takes a positive resolution and slot count; the source throws for any other.
- TimerWheels.TimerWheel.Tick: callbacks that call `tick` again are not modelled, and the 64-bit tick counter does not wrap.
- TimerWheels.TimerWheel.NextTimerId: uniqueness is not claimed, because ids repeat after 2^64 - 1 timers.
