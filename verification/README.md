# libdbuslog: the log pipe, the category mirror and the peers

This project models the parts of libdbuslog that carry its hard invariants and proves them with Dafny 4.11
(`dafny verify dfyconfig.toml`).

**The log pipe.** A sender per client keeps one packet in flight, a bounded queue behind it, and a close/bye
sequence; its write and schedule-write functions call each other and survive short writes. A receiver rebuilds
the packets from whatever chunks it reads and reports gaps in the message numbers.

- `Wire.dfy`: packets, little-endian encoding, framing, batch parser.
- `Channel.dfy`, `Pipes.dfy`: what a non-blocking pipe may answer. The answers to all write and read calls are an
  arbitrary function fixed in advance, so a theorem about every such function is a theorem about every schedule.
- `SenderSpec.dfy`: the sender as a state machine. `SenderControl.dfy` (flags, watches, wakeups),
  `SenderStream.dfy` (bytes), `SenderLedger.dfy` (messages), `SenderDrain.dfy` (progress), `SenderWatches.dfy`
  (how many watches, and when one too late) and `SenderEffects.dfy` (what each call achieves) prove what it keeps.
- `Senders.dfy`: the sender as an object with the fields of the C structure and the 22-byte array. Every method is
  proved equal to its step of the state machine.
- `ReceiverSpec.dfy`, `ReceiverBatch.dfy`, `ReceiverEffects.dfy`, `Receivers.dfy`: the same for the receiver, plus its
  refinement of the batch parser.
- `Link.dfy`, `Gaps.dfy`, `Delivery.dfy`: both ends and the pipe together, over all runs: safety, gap accounting,
  graceful close, total delivery.
- `TornPings.dfy`, `TornExample.dfy`: what a torn ping does to the bytes, when it shows, and a run in which it does.
- `Connections.dfy`: a sender object and a receiver object that share a pipe object; the theorems about runs hold
  for them.
- `Cores.dfy`, `CoreListing.dfy`, `CoreObjects.dfy`, `CoreGaps.dfy`: message numbering, fan-out to a sender list that
  changes meanwhile, who is on the list and served, and gap accounting for the senders of a core.

**Category replication.** `Categories.dfy` is the server's table and its events, `CategoryHistory.dfy` what the
events of a whole run say, `Mirror.dfy` the client's table, its sorted public array and its index deltas,
`Replication.dfy` both of them over all runs with events still on their way, `Resetting.dfy` the reset command,
`CategoryObjects.dfy` the objects with their loops.

**Peers and name watches.** `Peers.dfy` models the peer table together with the two watch tables and the search
for a free watch id.

The source consists of C objects that change their fields in place. Each of them is a class here whose methods have
the branches and loops of the C functions. A ghost field `model` holds the value of the object in a state machine
made of functions, `Valid()` ties the real fields to it, and each method's contract says which function of the old
value gives the new one. What the source promises is then proved about those functions.

## What the proofs found

Each of these is proved: an input for which the property fails, and exactly when it fails.

- A ping request while an earlier ping is half written restarts it and tears the stream; the source only asserts
  that this does not happen (`dbuslog_sender_ping` in server/src/dbuslog_sender.c, line 409). A step breaks the exact
  accounting of the bytes exactly if it does that and the channel stays open (`SenderStream.StepStreamExact`, example
  `SenderStream.TornPingExample`), and unless the connection is lost all bytes are accounted for exactly if no ping of
  the run was torn (`Link.RunStreamExact`). An encoded ping is five zeros, so the bytes are still a prefix of the
  packets started as long as only pings follow the torn one; when no packet is in flight that is exact
  (`Link.PrefixExactly`). Any other packet that follows makes the bytes wrong; in `TornExample.TornMessageExample` the
  receiver then comes to a header that it cannot take. The theorems below that say "without a torn ping", or "without harm from a
  torn ping", have these conditions. On a pipe that obeys the PIPE_BUF rule of write() in POSIX.1-2017 every run meets
  them (`Link.AtomicWritesNeverTear`).
- The skip formula is an absolute difference and can be wrong when the index wraps (`Gaps.SkipExact`,
  `Gaps.SkipWrapExample`). In a run of at most 2^32 messages the reports add up exactly if every one of them meets the
  condition of the formula (`Gaps.MiscountExact`, `Gaps.GapAccountingWrapped`); a wrap without a gap across it does no
  harm, and without a wrap all of them do (`Gaps.SpanAccounting`).
- The newest message can disappear without a skip report: exactly if the last message accepted found a backlog of
  one and a message waiting already (`Gaps.GapAccounting`, `Gaps.NewestDropped`, example `Gaps.BacklogOneExample`).
- `schedule_write` can ask GLib for a watch on a channel that the write function has closed, because the write
  function says that something is left to write whenever it has started another packet, even if the inner call
  closed the channel. The inner call may have sent the bye (`SenderWatches.TooLateAfterBye`) or met a write error;
  then neither a close nor a bye is needed (`SenderWatches.TooLateAfterError`). Some answer of the pipe causes it if
  and only if nothing is watched and something waits behind the packet in flight (`SenderWatches.TooLateExactly`);
  on a pipe that takes everything it happens if and only if a bye is due (`SenderWatches.TooLateWhenDraining`).
  GLib rejects the null channel, and so does the model.
- One call can leave more than one write watch (`SenderWatches.SecondWatchExample`): two are possible if and only
  if it writes and something waits behind the packet in flight (`SenderWatches.SecondWatch`). There are never more
  new ones than packets waiting, plus one, and some pipe makes it that many (`SenderWatches.ScheduleWatches`,
  `SenderWatches.MostWatches`). The model keeps the field `write_watch_id` apart from the watches that exist.
- The client's search for the insertion point reads one element past the end of the old array
  (client/src/dbuslog_client.c, lines 340-346) if and only if the new name sorts after all others
  (`Mirror.ReadsPastEndExactly`), for instance for the first category (`Mirror.ReadsPastEndExample`). The model
  treats that element as different.

`dbus_log_sender_close` ignores its `bye` parameter; a bye is always sent, and so it is here.

## Model

| member | source | states |
|---|---|---|
| `Wire.GetPut32` | client/src/dbuslog_receiver.c:106-117 | reading a 32-bit field gives back what the sender put there |
| `Wire.PutGet32` | server/src/dbuslog_sender.c:239-251 | every four bytes are the encoding of exactly the number read from them |
| `Wire.GetPut64` | client/src/dbuslog_receiver.c:119-127 | the same for 64-bit fields, which are two 32-bit halves, low half first |
| `Wire.EncodeFrames` | server/src/dbuslog_sender.c:264-277 | the receiver's frame size and fixed part of an encoded packet are the sender's packet_size and packet_fixed_part |
| `Wire.DecodeEncode` | client/src/dbuslog_receiver.c:205-224 | decoding undoes encoding for every packet: signed timestamp, index, category, level and any text including the empty one |
| `Wire.EncodeDecode` | server/src/dbuslog_sender.c:295-319 | encoding undoes decoding on every frame whose size field is its real size |
| `Wire.MessageLayout` | common/include/dbuslog_protocol.h:46-75 | the place, width and byte order of every field of a message packet |
| `Wire.PingBytes` | common/include/dbuslog_protocol.h:46-55 | a ping is five zeros |
| `Wire.ByeBytes` | common/include/dbuslog_protocol.h:46-55 | a bye is four zeros and the type 2 |
| `SenderControl.StepInv` | server/src/dbuslog_sender.c:98-513 | every call and callback keeps: a packet in flight is unfinished, on an open channel and is the last one started; messages wait only behind it; it has a live watch or a queued invoke; a bye is last; one closed signal if and only if the channel is closed |
| `SenderControl.WriteControl` | server/src/dbuslog_sender.c:98-184 | the write function, through its recursion, keeps those invariants, removes no watch, and asks to be called again whenever it leaves a packet unfinished |
| `SenderControl.ScheduleControl` | server/src/dbuslog_sender.c:213-228 | after schedule_write an unfinished packet has a live watch |
| `SenderControl.StepStaysDone` | server/src/dbuslog_sender.c:456-513 | no step ever makes a sender accept messages again |
| `SenderStream.StepStream` | server/src/dbuslog_sender.c:98-184 | every step that tears no ping keeps the bytes in the pipe equal to the whole packets started before the current one plus the written part of the current one, wherever short writes cut it |
| `SenderStream.StepStreamExact` | server/src/dbuslog_sender.c:400-416 | a step breaks this if and only if it restarts a half-written ping and leaves the channel open |
| `SenderStream.StepAccount` | server/src/dbuslog_sender.c:400-416 | unless the connection is lost, the number of bytes by which the pipe lags behind the packets started never shrinks, and grows exactly at a torn ping |
| `SenderStream.TornPingExample` | server/src/dbuslog_sender.c:407-411 | a concrete sequence of two pings after which the exact accounting fails, though the two zeros written are still a prefix |
| `TornPings.StepLag` | server/src/dbuslog_sender.c:98-184 | once a ping has been torn, every step keeps this: at each packet boundary the pipe either holds zeros for the pings since, but too few, or another packet has followed and the bytes are wrong |
| `TornPings.Advance` | server/src/dbuslog_sender.c:279-319 | another ping hides the gap, any other packet lays it open |
| `SenderStream.StepWhole` | server/src/dbuslog_sender.c:407-411 | if the pipe takes small writes whole or not at all, no fixed part is ever half written and no step tears a ping |
| `SenderLedger.StepLedger` | server/src/dbuslog_sender.c:418-454 | every message offered before the end is in flight or written, queued, or dropped, with the right multiplicities, and what is kept is an in-order part of what was offered |
| `SenderLedger.QuietKept` | server/src/dbuslog_sender.c:153-184 | writing, pinging, closing and callbacks move messages from the queue to the pipe without adding, dropping or reordering any |
| `SenderLedger.EnqueueEffect` | server/src/dbuslog_sender.c:438-449 | exactly which messages a full queue gives up (its newest half) and when the new message still does not fit |
| `SenderLedger.StepFixedLimit` | server/src/dbuslog_sender.c:438-449 | with a fixed limit the queue never exceeds it, the first message offered is kept, and with a limit other than one the newest is kept |
| `SenderLedger.SendKeepsHead` | server/src/dbuslog_sender.c:418-454 | neither the packet in flight nor the head of the queue is dropped for a new message |
| `SenderDrain.ScheduleDrains` | server/src/dbuslog_sender.c:153-228 | the mutual recursion terminates; if the pipe takes everything one call from an unwatched state sends the current packet, the queue in order and the bye if due, and closes the channel if the sender was closed |
| `SenderWatches.TooLateExactly` | server/src/dbuslog_sender.c:157-176 | some pipe answer makes the write function close the channel and still ask for a watch if and only if nothing is watched and some packet waits |
| `SenderWatches.TooLateWhenDraining` | server/src/dbuslog_sender.c:157-183 | on a pipe that takes everything this happens if and only if a bye is due |
| `SenderWatches.TooLateAfterBye` | server/src/dbuslog_sender.c:219-226 | a concrete run: the inner call sends the bye and closes |
| `SenderWatches.TooLateAfterError` | server/src/dbuslog_sender.c:112-122 | a concrete run without close or bye: the inner call meets a write error |
| `SenderWatches.ScheduleWatches` | server/src/dbuslog_sender.c:213-228 | one call leaves at most one new watch for each packet waiting and one for the packet in flight, removes none, and leaves none if it closes the channel |
| `SenderWatches.MostWatches` | server/src/dbuslog_sender.c:213-228 | some pipe makes it leave exactly that many |
| `SenderWatches.SecondWatch` | server/src/dbuslog_sender.c:153-228 | one call can leave a second watch if and only if it writes and some packet waits |
| `SenderWatches.SecondWatchExample` | server/src/dbuslog_sender.c:153-228 | two messages and one short write leave two live watches |
| `SenderDrain.TurnProgress` | server/src/dbuslog_sender.c:186-237 | whichever turn of the main loop comes next and whatever the pipe takes: bytes written plus bytes remaining stay the same, and an invoke, or a watch that finds room, leaves less to do |
| `SenderDrain.EventuallyDelivered` | server/src/dbuslog_sender.c:98-237 | any series of turns on any pipe that does not fail holds only as many useful ones as there is work; when no packet is unfinished any more, everything kept has been written in order and a closed sender ends drained |
| `SenderEffects.CloseSaysBye` | server/src/dbuslog_sender.c:456-485 | on every pipe a close adds one bye to what has to be sent and nothing else: behind what is unfinished, or at once if the sender is idle, with all outcomes of that one write |
| `SenderEffects.CloseAborts` | server/src/dbuslog_sender.c:456-485 | a close loses the connection if and only if it tries the bye at once and the pipe refuses it |
| `SenderEffects.IdleCloseDrains` | server/src/dbuslog_sender.c:467-474 | an idle sender on a pipe that takes everything has written its bye and ended drained when close returns |
| `SenderEffects.PingEffect` | server/src/dbuslog_sender.c:400-416 | when a ping is accepted, what it adds to what has to be sent, and all outcomes of trying it; a refused one changes nothing |
| `SenderEffects.SendStarts` | server/src/dbuslog_sender.c:426-436 | a message for an idle sender is the next packet to send, with one write queued |
| `SenderEffects.SendQueues` | server/src/dbuslog_sender.c:437-449 | a message that fits is the last one to send and nothing else changes |
| `SenderEffects.BacklogThatFits` | server/src/dbuslog_sender.c:387-398 | a queue that fits the new limit keeps all its messages |
| `SenderEffects.BacklogTooSmall` | server/src/dbuslog_sender.c:387-398 | one that does not fit loses messages, each of which is counted, and keeps the others in order |
| `SenderEffects.ShutdownEnds` | server/src/dbuslog_sender.c:487-513 | a shutdown closes and signals once, takes the named watch away, and keeps the record; another one does nothing |
| `SenderEffects.HangUp` | server/src/dbuslog_sender.c:203-207 | a hang-up ends the connection and the watch that noticed it |
| `SenderEffects.WriteFails` | server/src/dbuslog_sender.c:116-123 | a write call that fails ends the connection, with nothing written and nobody calling again |
| `SenderEffects.WatchStays` | server/src/dbuslog_sender.c:196-202 | the watch stays if and only if something is left to write |
| `Pipes.Pipe.WriteChars` | server/src/dbuslog_sender.c:112-123 | a write call takes some prefix of the bytes offered, perhaps nothing, or fails and takes nothing |
| `Pipes.Pipe.ReadChars` | client/src/dbuslog_receiver.c:83-104 | a read call yields the next bytes of the pipe, at most as many as asked for, or ends the stream |
| `Senders.Sender.constructor` | server/src/dbuslog_sender.c:333-364 | a new sender is the fresh state with the normalized backlog |
| `Senders.Sender.PutUint32` | server/src/dbuslog_sender.c:239-251 | replaces four bytes of the packet array by the little-endian encoding and leaves the others alone |
| `Senders.Sender.FillHeader` | server/src/dbuslog_sender.c:264-277 | lays out the header and sets the three counters |
| `Senders.Sender.PrepareCurrentMessage` | server/src/dbuslog_sender.c:295-319 | the packet array then holds the fixed part of the encoding of the current message |
| `Senders.Sender.PickBye` | server/src/dbuslog_sender.c:279-293 | the packet array then holds the bye and the pending-bye flag is clear |
| `Senders.Sender.WriteText` | server/src/dbuslog_sender.c:130-150 | offers exactly the unwritten rest of the message string |
| `Senders.Sender.Transmit` | server/src/dbuslog_sender.c:106-151 | writes from the array and then from the string exactly what the state machine writes from the encoding |
| `Senders.Sender.Write` | server/src/dbuslog_sender.c:98-184 | the new fields and the result are those of the state machine's write |
| `Senders.Sender.ScheduleWrite` | server/src/dbuslog_sender.c:213-228 | the new fields are those of the state machine's schedule_write |
| `Senders.Sender.WriteCallback` | server/src/dbuslog_sender.c:186-211 | keeps all invariants; a watch whose callback returns false is gone |
| `Senders.Sender.ScheduleWriteInContext` | server/src/dbuslog_sender.c:230-237 | one queued invoke is used up for one schedule_write |
| `Senders.Sender.SetBacklog` | server/src/dbuslog_sender.c:387-398 | sets the normalized limit; whatever part of its contents the ring keeps if it has to shrink, the invariants hold |
| `Senders.Sender.SendPing` | server/src/dbuslog_sender.c:400-416 | pings only if no message is in flight or queued and the sender is not done |
| `Senders.Sender.Send` | server/src/dbuslog_sender.c:418-454 | starts a packet and queues an invoke, or queues or drops the message, or ignores it after close |
| `Senders.Sender.Enqueue` | server/src/dbuslog_sender.c:438-449 | drops the newest half of a full queue and puts the message if there is room |
| `Senders.Sender.Close` | server/src/dbuslog_sender.c:456-485 | adds one bye to what has to be sent: at once if idle, otherwise after what is pending; a second close does nothing |
| `Senders.Sender.Shutdown` | server/src/dbuslog_sender.c:487-513 | forgets the packet, removes the named watch, closes the channel and signals once |
| `ReceiverSpec.PhaseShape` | client/src/dbuslog_receiver.c:136-203 | a read phase appends to the frame exactly the bytes it took, never past its end, and is skipped if nothing is missing |
| `ReceiverBatch.FramesAppend` | client/src/dbuslog_receiver.c:129-263 | parsing can stop anywhere and resume from the bytes left over |
| `ReceiverBatch.FillShape` | client/src/dbuslog_receiver.c:136-203 | the three phases stop exactly at the end of the frame |
| `ReceiverBatch.StepInv` | client/src/dbuslog_receiver.c:129-384 | after any read, empty or not, the receiver has parsed exactly the bytes it took, its signals are those of the frames parsed, and it is watched exactly while open and not paused |
| `ReceiverBatch.SignalsRefineBatch` | client/src/dbuslog_receiver.c:129-263 | the signals are a prefix of what the batch parser makes of the whole stream, and all of it once every byte or a bye has been read |
| `ReceiverBatch.ChunkingIsInvisible` | client/src/dbuslog_receiver.c:129-263 | how the stream is cut into reads makes no difference |
| `ReceiverBatch.RunRefinesBatch` | client/src/dbuslog_receiver.c:129-263 | for every stream, however it arrives and is cut into reads, and whenever the receiver is paused or closed: its signals are a prefix of the batch result, and all of it once everything or a bye has been read |
| `ReceiverBatch.RunsAgree` | client/src/dbuslog_receiver.c:129-263 | two runs that have taken the same bytes have emitted the same signals |
| `ReceiverEffects.ReadFails` | client/src/dbuslog_receiver.c:83-104 | a read call that fails or ends the stream closes the receiver, once, with no further signal |
| `ReceiverEffects.HangUp` | client/src/dbuslog_receiver.c:265-284 | so does a hang-up |
| `ReceiverEffects.ClosesExactly` | client/src/dbuslog_receiver.c:265-284 | a callback closes the receiver if and only if one of its read calls failed or it delivered a bye |
| `ReceiverEffects.OneFramePerCallback` | client/src/dbuslog_receiver.c:129-263 | if the rest of the frame is there, one callback takes exactly that and delivers the frame; if not, it takes all there is and delivers nothing |
| `ReceiverEffects.OneCallback` | client/src/dbuslog_receiver.c:150-262 | what one complete frame does by its type: a message is signalled with its index and text, pings and unknown packets are skipped, a bye closes |
| `ReceiverEffects.ResumeUndoesPause` | client/src/dbuslog_receiver.c:332-360 | a resume undoes a pause in every state |
| `ReceiverEffects.PausesNest` | client/src/dbuslog_receiver.c:332-360 | it takes as many resumes as there were pauses to listen again |
| `ReceiverEffects.SignalsInOrder` | client/src/dbuslog_receiver.c:226-241 | in every run a skip report stands between the two messages that it is about, and stands there if and only if the second does not carry the expected index |
| `Receivers.Receiver.constructor` | client/src/dbuslog_receiver.c:290-309 | a new receiver is fresh and watched |
| `Receivers.Receiver.ReadHeader` | client/src/dbuslog_receiver.c:136-167 | the first phase, with the size fields set from a complete header; the source asserts that a ping or bye announces no body, and so does this |
| `Receivers.Receiver.ReadFixedPart` | client/src/dbuslog_receiver.c:169-188 | the second phase, with the text buffer allocated when the fixed part is complete |
| `Receivers.Receiver.ReadRest` | client/src/dbuslog_receiver.c:190-203 | the third phase, into the text buffer |
| `Receivers.Receiver.TakeMessage` | client/src/dbuslog_receiver.c:206-224 | the message taken from the array and the buffer is the decoding of the bytes read |
| `Receivers.Receiver.Announce` | client/src/dbuslog_receiver.c:226-241 | a skip report if and only if the index is not the expected one, then the message |
| `Receivers.Receiver.Dispatch` | client/src/dbuslog_receiver.c:205-262 | a complete frame is delivered and the receiver is ready for the next one; false only for a bye |
| `Receivers.Receiver.Read` | client/src/dbuslog_receiver.c:129-263 | in place, in three phases, exactly what the state machine reads, under the source's assertion on ping and bye headers |
| `Receivers.Receiver.ReadCallback` | client/src/dbuslog_receiver.c:265-284 | keeps all invariants; the watch stays if and only if the channel is still open, which it is not after a hang-up; under the source's assertion on ping and bye headers |
| `Receivers.Receiver.Pause` | client/src/dbuslog_receiver.c:332-343 | one more pause, no watch |
| `Receivers.Receiver.Resume` | client/src/dbuslog_receiver.c:345-360 | the watch returns exactly with the last resume on an open channel |
| `Receivers.Receiver.Close` | client/src/dbuslog_receiver.c:362-384 | drops the partial frame and the buffer, closes and signals once |
| `Link.RunKeeps` | server/src/dbuslog_sender.c:98-513 | every run of sender, pipe and receiver keeps control, ledger and parse invariants together |
| `Link.NobodySleeps` | server/src/dbuslog_sender.c:153-228 | no lost wakeup on either side in any run |
| `Link.RunStream` | server/src/dbuslog_sender.c:98-319 | in every run without a torn ping the pipe holds exactly a prefix of the packets started |
| `Link.RunStreamExact` | server/src/dbuslog_sender.c:98-319 | unless the connection was lost, all bytes of the packets started are accounted for if and only if no ping of the run was torn |
| `Link.PrefixExactly` | server/src/dbuslog_sender.c:98-319 | what the pipe has taken is a prefix of the packets started if only pings follow a torn ping, and, when no packet is in flight and the connection was not lost, only if |
| `TornExample.TornMessageExample` | client/src/dbuslog_receiver.c:150-156 | a concrete run, a short write, another ping and a message, after which the bytes are no prefix and the receiver comes to a ping header that announces a body |
| `Link.AtomicWritesNeverTear` | server/src/dbuslog_sender.c:400-416 | the PIPE_BUF rule makes every run such a run |
| `Link.EndToEnd` | client/src/dbuslog_receiver.c:129-263 | in every run without harm from a torn ping: for every interleaving of sends, drops, short writes and chunked reads, the messages received are a prefix of those put in flight, which are an in-order part of those offered, every field unchanged |
| `Link.EndToEndOnAtomicPipes` | client/src/dbuslog_receiver.c:129-263 | the same without condition on the run if the pipe obeys the PIPE_BUF rule |
| `Link.FramesOfPackets` | client/src/dbuslog_receiver.c:129-263 | the batch parser undoes the concatenated encodings of any packets |
| `Link.HeadersAlwaysFit` | client/src/dbuslog_receiver.c:153-158 | connected to this sender the receiver never meets a ping or bye with a body, which it could not store, in any run without harm from a torn ping |
| `Gaps.SkipExact` | client/src/dbuslog_receiver.c:226-234 | the reported skip is the number of missing indices if and only if the index is not behind the expected one, or is by exactly half the index space |
| `Gaps.SkipWrapExample` | client/src/dbuslog_receiver.c:226-234 | a concrete wrap for which the report is wrong |
| `Gaps.MiscountExact` | client/src/dbuslog_receiver.c:226-234 | over indices that go up with at most one wrap, all reports together are right if and only if each of them is, and before the wrap they are |
| `Gaps.SpanAccountingWrapped` | client/src/dbuslog_receiver.c:226-237 | at any time in any run without harm from a torn ping, over at most 2^32 messages numbered by the core: received plus skipped is the span of the indices received plus what wrong reports count too much |
| `Gaps.SpanAccounting` | client/src/dbuslog_receiver.c:226-237 | if the numbers do not wrap every report is right, and received plus skipped is the span of the indices received |
| `Gaps.RunFixedLimit` | server/src/dbuslog_sender.c:438-449 | in every run with a fixed backlog the queue respects it and the ends of the offer are kept |
| `Gaps.RunNewest` | server/src/dbuslog_sender.c:438-449 | in every run with a fixed backlog the newest message is missing from those kept if and only if the last send accepted found a limit of one and a message waiting |
| `Gaps.GapAccountingWrapped` | client/src/dbuslog_receiver.c:226-237 | in every run without a torn ping and with a fixed backlog, after a graceful close read to its end: received plus skipped is what was offered, less what was offered after the last message received, plus what wrong reports count too much; with a backlog other than one it is what was offered if and only if every report is right |
| `Gaps.GapAccounting` | client/src/dbuslog_receiver.c:226-237 | if the numbers do not wrap, it is what was offered if and only if the last send accepted did not find a limit of one and a message waiting; it always falls short by exactly the span after the last index received |
| `CoreGaps.CoreGapAccounting` | server/src/dbuslog_core.c:479-501 | the same for every sender of every run of the core, which numbers the messages: received plus skipped is the number of messages handed to it before its close, with a backlog other than one exactly if every report is right |
| `CoreGaps.SendersOfCore` | server/src/dbuslog_core.c:157-301 | the senders of a core go through runs of the link, so all its theorems apply to them |
| `Gaps.NewestDropped` | server/src/dbuslog_sender.c:438-449 | the newest message is lost if the limit is one and a message waits already, and is kept as the last one otherwise |
| `Gaps.BacklogOneExample` | server/src/dbuslog_sender.c:438-449 | a concrete burst of three messages of which the third is lost |
| `Gaps.GracefulClose` | server/src/dbuslog_sender.c:157-183 | in every run without a torn ping: a drained sender wrote everything it kept, then exactly one bye, last, and signalled closed once; a receiver that read it all has everything and closed once |
| `Gaps.ClosedAcceptsNothing` | server/src/dbuslog_sender.c:456-485 | after close no message is accepted, no ping is started and a second close does nothing |
| `Delivery.TurnsKeep` | server/src/dbuslog_sender.c:186-237 | turns of the two ends, interleaved in any way over a pipe of any capacity that may be full or empty meanwhile, keep what has to be delivered and hold no more productive ones than there is work |
| `Delivery.NothingLeft` | client/src/dbuslog_receiver.c:265-284 | a state without a productive turn is one in which everything kept has been received, and both ends have closed if the sender was closed |
| `Delivery.EverythingArrives` | client/src/dbuslog_receiver.c:265-284 | from any point of any run without a torn ping, a failure or a pause, after any such interleaving: everything kept has arrived in order, and both ends are closed, each once, if the sender was, or a productive turn is still to come, of which there are only so many |
| `Delivery.CloseIsGraceful` | server/src/dbuslog_sender.c:456-485 | a close from any point of any run without a torn ping, a failure or a pause, and then any turns: when no productive turn is left, of which there are only so many, everything kept at the close was received, then the bye, and both ends have closed once |
| `Connections.Connection.AtSender` | server/src/dbuslog_sender.c:98-513 | any call or callback of the sender object keeps both objects sound on their shared pipe, as the run with one event more, unless it tears a ping |
| `Connections.Connection.AtReceiver` | client/src/dbuslog_receiver.c:129-384 | so does any call or callback of the receiver object, whose assertion on headers always holds here |
| `Connections.Connection.Delivers` | client/src/dbuslog_receiver.c:129-263 | whatever the two objects have done, what was received is a prefix of what was put in flight, an in-order part of what was offered |
| `Cores.SendReachesAll` | server/src/dbuslog_core.c:479-501 | every sender listed when a message is sent is handed it exactly once, in list order, whatever is made, dropped or closed meanwhile; the list stays sound |
| `Cores.PokeKeeps` | server/src/dbuslog_core.c:102-109 | a sender whose channel goes away leaves the list through its closed handler, and the list stays sound |
| `Cores.SetBacklogKeeps` | server/src/dbuslog_core.c:282-301 | after a change of backlog every listed sender has the normalized new one |
| `Cores.NormalizeTwice` | server/src/dbuslog_sender.c:535-542 | normalizing a backlog twice changes nothing, so new senders get the backlog of the core |
| `Cores.CoreIsSound` | server/src/dbuslog_core.c:157-301 | in every run: no duplicates, a handler for exactly the listed senders, all of them open with the core's backlog; every sender ever made accepted exactly the messages it was handed before its close, numbered one after the other |
| `CoreListing.NewIsListed` | server/src/dbuslog_core.c:157-197 | a new sender is last on the list, has a handler and starts fresh; nobody else is touched |
| `CoreListing.ListedExactly` | server/src/dbuslog_core.c:157-249 | who is listed after an operation: a new sender joins, one that is dropped or whose channel the operation closes leaves, all others stay |
| `CoreListing.ServedThroughout` | server/src/dbuslog_core.c:479-501 | in every run a listed sender that nobody drops and whose channel stays open stays listed and is handed every message logged, in order, under the core's numbers |
| `CoreListing.NewIsServed` | server/src/dbuslog_core.c:157-197 | a new sender is handed exactly the messages logged from then on, and accepts all of them until its close |
| `CoreListing.NewHearsTheNext` | server/src/dbuslog_core.c:479-501 | in particular the next one, whatever happens while that is sent |
| `CoreListing.NewcomersMissIt` | server/src/dbuslog_core.c:492-498 | senders made while a message is being sent exist afterwards and have not been handed it |
| `CoreObjects.Core.AddSender` | server/src/dbuslog_core.c:157-197 | the list is replaced by a copy with the new, fresh sender at its end, and the sender gets a handler |
| `CoreObjects.Core.DropSender` | server/src/dbuslog_core.c:199-249 | the list is replaced by a copy without the sender, if it was there, and its handler is gone |
| `CoreObjects.Core.SetBacklog` | server/src/dbuslog_core.c:282-301 | the loop over the senders gives each of them the new limit |
| `CoreObjects.Core.Send` | server/src/dbuslog_core.c:479-501 | the loop over the snapshot numbers and hands out the message as specified |
| `Categories.ApplyInv` | server/src/dbuslog_core.c:303-477 | each table key is its category's name, ids are nonzero and distinct, over all operations |
| `Categories.NewEffect` | server/src/dbuslog_core.c:303-331 | id, bits, level and announcement of a new category; a known one is left alone |
| `Categories.LevelEffect` | server/src/dbuslog_core.c:458-477 | a level in range of a known category is set, silently; otherwise nothing happens |
| `Categories.EnableEffect` | server/src/dbuslog_core.c:426-456 | the one bit of a known category is set and announced if and only if it changes |
| `Categories.RemoveEffect` | server/src/dbuslog_core.c:383-400 | a known category goes and is announced; an unknown one changes nothing |
| `Categories.IdsNeverReused` | server/src/dbuslog_core.c:313-316 | a new id is larger than any id ever seen in an event |
| `CategoryHistory.IdsAreForEver` | server/src/dbuslog_core.c:303-424 | in every run the ids announced are nonzero and pairwise different, nothing is said about an id before it is announced, and nothing after its removal |
| `CategoryHistory.DefaultIsImmutable` | server/src/dbuslog_core.c:321-324 | in every run each change of flags carries the enabled-by-default and hide bits announced with its id, and so does the category in the table |
| `Categories.StepMirrored` | server/src/dbuslog_server.c:158-208 | whoever mirrors the table and follows the events of one operation mirrors the table after it, and each event finds its category or room for it |
| `Mirror.SortedUnique` | client/src/dbuslog_client.c:333-337 | a table has only one array sorted by name |
| `Mirror.DifferenceIsPlace` | client/src/dbuslog_client.c:339-346 | the first difference of the old and the new sorted array is the insertion point |
| `Mirror.ReadsPastEndExactly` | client/src/dbuslog_client.c:339-346 | the search reads past the end of the old array if and only if the new name sorts after all others |
| `Mirror.ReadsPastEndExample` | client/src/dbuslog_client.c:339-346 | it does so for the first category of a client that has none |
| `Mirror.RemoveKeeps` | client/src/dbuslog_client.c:264-297 | removal keeps table, sorted array and listeners together |
| `Mirror.AddKeeps` | client/src/dbuslog_client.c:310-354 | so does an addition whose id and name are new |
| `Mirror.FlagsKeeps` | client/src/dbuslog_client.c:356-375 | so does a change of flags |
| `Mirror.HandleKeeps` | client/src/dbuslog_client.c:299-375 | every event that fits leads to exactly one notice, and a listener that applies the index deltas holds the public array |
| `Mirror.NoticeEffect` | client/src/dbuslog_client.c:264-375 | what each notice says: the category, and its place in the new array, or in the old one if it was removed |
| `Mirror.LessMeans` | client/src/dbuslog_client.c:337 | names are ordered as strcmp orders them |
| `Replication.SeedMirrors` | client/src/dbuslog_client.c:538-561 | the table decoded from the reply to GetAll mirrors the server |
| `Replication.RunMirrors` | server/src/dbuslog_server.c:158-208 | in every run the client's table with the pending events applied is the server's table, on id, name and flags |
| `Replication.EveryEventFits` | client/src/dbuslog_client.c:299-375 | in every run the next event finds its category, or a new id and name |
| `Replication.QuietMirror` | client/src/dbuslog_client.c:310-354 | a client that has heard everything holds exactly the server's categories, sorted, and so do its listeners |
| `Resetting.ComputeLists` | tools/dbuslog-client/main.c:315-336 | one walk computes the names to enable and the names to disable |
| `Resetting.SetNamesSetsExactly` | server/src/dbuslog_server.c:329-334 | the loop over names sets exactly the named categories that exist and nothing else |
| `Resetting.SetNamesAnnouncesExactly` | server/src/dbuslog_server.c:329-334 | one event for each category that changes, in the order in which they are named, whatever the names |
| `Resetting.MirrorIsExact` | client/src/dbuslog_client.c:310-354 | a client that has heard every event lists exactly the server's categories, each name once, so a reset from its array applies |
| `Resetting.ResetRestoresDefaults` | tools/dbuslog-client/main.c:315-362 | from an exact mirror, every category gets its default, no other flag changes, one event for each changed category |
| `Resetting.SecondResetIsEmpty` | tools/dbuslog-client/main.c:315-362 | a second reset finds nothing to do |
| `CategoryObjects.CategoryTable.New` | server/src/dbuslog_core.c:303-331 | an existing category is returned unchanged, a new one gets a fresh nonzero id and is announced |
| `CategoryObjects.CategoryTable.Remove` | server/src/dbuslog_core.c:383-400 | removes and announces if it is there |
| `CategoryObjects.CategoryTable.GetCategories` | server/src/dbuslog_core.c:370-381 | every category exactly once, sorted by name |
| `CategoryObjects.CategoryTable.RemoveAll` | server/src/dbuslog_core.c:402-424 | empties the table and announces each category once |
| `CategoryObjects.CategoryTable.SetCategoryEnabled` | server/src/dbuslog_core.c:426-456 | changes and announces only what differs |
| `CategoryObjects.CategoryTable.SetCategoryLevel` | server/src/dbuslog_core.c:458-477 | true and the level is set for a known category and a valid level, otherwise false and nothing changes; no event |
| `CategoryObjects.CategoryTable.SetNamesEnabled` | server/src/dbuslog_server.c:316-337 | the loop sets exactly the named categories and announces exactly those that change, in the order named |
| `CategoryObjects.CategoryTable.SetPatternEnabled` | server/src/dbuslog_server.c:339-360 | exactly the categories whose names match are set, and those that change are announced in the order of their names |
| `CategoryObjects.Client.constructor` | client/src/dbuslog_client.c:493-561 | the decoded table mirrors the server and the public array is its sorted array |
| `CategoryObjects.Client.CategoryRemove` | client/src/dbuslog_client.c:264-297 | the array is rebuilt without the category and the index announced is where it was |
| `CategoryObjects.Client.FindDifference` | client/src/dbuslog_client.c:339-346 | the loop finds the first difference, the end of the old array counting as one |
| `CategoryObjects.Client.CategoryAdded` | client/src/dbuslog_client.c:310-354 | the freshly sorted array is the old one with the category inserted at the index announced |
| `CategoryObjects.Client.CategoryFlagsChanged` | client/src/dbuslog_client.c:356-375 | table and array get the new flags and the index is announced |
| `Peers.WatchCounted` | server/src/dbus/dbuslog_server_dbus.c:122-174 | watching keeps each reference count equal to the number of ids of the watch |
| `Peers.UnwatchCounted` | server/src/dbus/dbuslog_server_dbus.c:76-94 | so does unwatching; the watch goes away with its last id |
| `Peers.OpenEffect` | server/src/dbuslog_server.c:280-303 | reopening replaces id and sender of the peer, closes the older sender and leaves the watch with one reference |
| `Peers.VanishIsClose` | server/src/dbus/dbuslog_server_dbus.c:186-210 | a lost name ends like a closed log; the vanished mark never outlives its watch |
| `Peers.CloseEnds` | server/src/dbuslog_server.c:305-314 | nothing is left under the name, its sender is closed, and everybody else is untouched |
| `Peers.ReplyEffect` | server/src/dbus/dbuslog_server_dbus.c:96-120 | a late reply without owner ends the peer; one with an owner changes nothing but that the question is answered |
| `Peers.StepInv` | server/src/dbuslog_server.c:280-314 | every open, reopen, close, lost name and late reply keeps peers and watches in agreement |
| `Peers.PeersAndWatchesAgree` | server/src/dbus/dbuslog_server_dbus.c:76-210 | in every reachable state: same names, one reference each, none vanished, distinct ids, and every sender ever opened serves one peer or has been closed |
| `Peers.SearchBound` | server/src/dbus/dbuslog_server_dbus.c:165-173 | a search that failed k times has seen k different ids in use |
| `Peers.Server.NextId` | server/src/dbus/dbuslog_server_dbus.c:165-173 | the search with wrap-around ends, for any table of fewer than 2^64-1 ids, at the first unused nonzero id |
| `Peers.Server.WatchPeerName` | server/src/dbus/dbuslog_server_dbus.c:122-174 | creates or reuses the watch, counts the reference and maps a new id to it |
| `Peers.Server.UnwatchPeerName` | server/src/dbus/dbuslog_server_dbus.c:176-184 | drops the id and with the last one the watch |
| `Peers.Server.PeerDestroy` | server/src/dbuslog_server.c:114-128 | unwatches the name and closes the sender |
| `Peers.Server.CallLogOpen` | server/src/dbuslog_server.c:280-303 | error codes for refused access and a missing pipe leave everything alone; otherwise the new peer is in place |
| `Peers.Server.CallLogClose` | server/src/dbuslog_server.c:305-314 | the peer, if any, is removed and destroyed |
| `Peers.Server.HandleNameOwnerChanged` | server/src/dbus/dbuslog_server_dbus.c:186-210 | a lost name removes its peer |
| `Peers.Server.GetNameOwnerReply` | server/src/dbus/dbuslog_server_dbus.c:96-120 | a reply without owner ends the peer and closes its sender, one with an owner leaves peers, ids and senders alone |

## Left out

- Threads inside one step: sends, pings, closes, callbacks and queued invokes are atomic steps here. The source
  changes the byte counters outside its mutex and the message counter without one.
- gutil_ring is not part of this repository; it is a queue with a limit that can drop its newest elements. What it
  keeps when its limit shrinks below its size is unknown, so any selection of its contents is allowed.
- Packets of 2^32 bytes and more: the text of a message is bounded so that the size field does not wrap.
- Ping and bye packets with a body: the source asserts that there are none (client/src/dbuslog_receiver.c, line 156)
  and would store the body at a null pointer; the methods of the receiver require the same. `Link.HeadersAlwaysFit`
  proves it for this sender in every run without harm from a torn ping.
- A watch never fires as writable on a channel that is already closed; reuse of file descriptor numbers is outside
  the model.
- Handlers that pause or close the receiver from inside its own message signal: these are steps between reads here.
- A message logged from inside a closed handler while another message is being handed out (a nested core_send).
- Delivery.EverythingArrives: main loops that never give an enabled turn its turn, and reads that fail or end early.
- CoreGaps.CoreGapAccounting: senders that are handed more than 2^32 messages.
- Categories.ApplyInv: ids last for 2^32 - 1 creations; afterwards the counter would reach ids still in use.
- CoreObjects.Core: the senders in the core's list are values of the sender state machine named by identity, not
  references to `Senders.Sender` objects; aliasing between the list and other owners is not captured.
- CategoryObjects.Client: a category is a value in the table and in the public array, with its id as its identity,
  instead of one shared object; older arrays that a listener might still hold are not updated.
- Flag bits outside DBUSLOG_CATEGORY_FLAG_MASK, which the server drops at creation.
- Category level, default level and backlog on the client: it does not follow those signals.
- The SetCategoryLevel call of the libdbus backend: it passes name and sender in the wrong order
  (server/src/dbus/dbuslog_server_dbus.c, lines 360-361); the core's function is modelled directly.
- D-Bus marshalling, proxies, access policy and the gio backend; events are assumed to reach the client in order.
- Reference counting of objects, memory management, logging, NULL arguments, should_log and the level mapping.
- g_pattern_match_simple: an arbitrary predicate on names.
