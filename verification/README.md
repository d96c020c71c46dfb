# CMU-TCP, modelled and verified

CMU-TCP (`project-2_15-441/`) is a sliding-window reliable transport over UDP. An application thread calls
`cmu_write`, `cmu_read` and `cmu_close`; a backend thread runs a three-way handshake and then a loop that
handles packets, sends fresh data and retransmits. This project models the data path from `cmu_write` at one
end to `cmu_read` at the other and proves, for every run over a network that loses, duplicates and reorders
packets, that the bytes read are a prefix of the bytes written.

The model has four layers. Each imperative layer is proved to do exactly what a function on plain values says,
and the properties are proved about those functions.

| file | what it models |
|---|---|
| `types.dfy`, `ring.dfy` | machine integers and constants; a byte ring in an array and its wrapping copies |
| `segments.dfy` | the doubly linked list of out-of-order segments, and the sorted list of ranges it implements |
| `reassembler.dfy`, `recv_buffer.dfy` | the receive buffer as a value, and the class over 32-bit indices that implements it |
| `send_view.dfy`, `send_buffer.dfy` | the send buffer as a value, and the class with three wrapped cursors that implements it |
| `cmu_packet.dfy` | the 25-byte packed header, packet encoding and decoding, and the modular comparisons |
| `endpoint.dfy`, `backend.dfy` | one endpoint as a value with one function per critical section, and the socket class whose methods are those sections |
| `system.dfy` | two endpoints, their application calls and the network: states, steps, runs and the invariant |
| `steps.dfy`, `handshake.dfy`, `theorems.dfy` | the invariant is inductive, and what follows for every run |
| `as_written.dfy` | how far a run of the model is a run of the code as written, whose copies out of the send ring do not wrap |
| `windows.dfy` | when the window a sender knows promises more than its peer has room for |
| `witnesses.dfy`, `continuations.dfy` | runs that exist: streams that arrive whole, the failures that do happen, and a way on from every state |
| `laws.dfy` | what each step of a run does, told from what can be seen: the log, the numbers, the bytes |
| `simulation.dfy` | the classes follow the runs: any step of a run performed on two real sockets |

**Steps and interleaving.** A process is the endpoint value and a program counter that stands between two
critical sections of the backend. A step is one critical section, one application call, or the delivery of a
packet. Acknowledging, receiving and replying inside `handle_message` are three separate steps, so application
reads and writes fall between them. The network is the sequence of all packets the peer ever sent; any of them
may be delivered at any time, any number of times, or never. A timeout may fire whenever it could have an
effect. Both directions carry data at once. Initial sequence numbers, buffer capacities (2 to 65536) and the
first content of the receive memory are arbitrary.

**Sequence numbers.** The buffers compare sequence numbers with plain `<`, so the protocol is stated over
integers (RFC 9293, sections 3.4, 3.5 and 3.8.6, with the code's names). The classes work on `uint32` and
`uint16` fields, with every conversion proved in range. What they ask of the numbers they are given is what
`Theorems.BoundedRunsFit`, `Theorems.SectionsAreCallable` and `Theorems.HandshakeIsCallable` prove of every run
in which initial number, bytes written and capacity together stay below 2^32.

**Where the code and its intent differ.**

- `safe_memcpy_from_sendbuf` (`src/send_buffer.c:81-92`) chooses its branch by comparing an end index that was
  not reduced with the acked index. `SendBuffers.SendBuffer.CopyFrom` copies with the test its sibling at
  `src/send_buffer.c:70` uses. What the code as written does is stated separately: it is right for a range
  exactly when the range starts above the acked index and stays inside the array
  (`DumpAsWrittenIsRight`), for every range exactly while the pending bytes have not come round to the front of
  the array (`EveryDumpAsWritten`), and `DumpFails` builds by calls a buffer on which it is wrong.
- `resend_unacknowledged` (`src/backend.c:507`) reads on from its index without wrapping. The model wraps; the
  code as written is right exactly for ranges inside the array (`ResendAsWrittenIsRight`), and for every range
  in flight exactly while those bytes do not straddle the array's end (`EveryResendAsWritten`). `ResendFails`
  builds by calls a buffer on which it is wrong.
- So the code as written keeps the delivery results exactly as long as no byte numbered a whole capacity past
  the initial number is sent, and carries fewer bytes than the capacity each way. In every run,
  `AsWritten.StraightExactlyOnFirstTurn` shows that every fresh send so far was copied right as written if and
  only if last sent < initial number + capacity; `ResendsStraight` that every retransmission then was too;
  `CarriesLessThanCapacity` that the peer has then read less than a capacity. The run of
  `Witnesses.EveryStreamCanArrive` is one of the code as written if and only if the stream is shorter than the
  capacity: with a stream of that length or more it is the failing input.
- `segment_merge` (`src/recv_buffer.c:114-134`) leaves `next` of a right-most node and `prev` of a left-most
  node as `malloc` left them, and `recv_buffer_receive` (`src/recv_buffer.c:279-284`) leaves both links of a
  first segment so. The list functions here take what `malloc` left as parameters: `Segments.SegmentMerge` and
  `Segments.FirstSegment` say exactly for which of its values the result is a well-formed list, and
  `Segments.SegmentMergeFails` gives a failing call. The receive buffer passes null.
- `handle_message` (`src/backend.c:48-50`) asserts that no packet with SYN arrives after the handshake. That is
  false: `Theorems.AbortsExactlyOnLateSyn` shows that of all the asserts on packets and cursors this is the only
  one that can fail in a run, and exactly when such a packet is delivered to the main loop;
  `Witnesses.LateSynAbortsARun` gives a run in which it is. All other theorems hold in those runs too: an
  aborted process takes no more steps.
- Delivery need not make progress: nothing is sent on a zero window when nothing is unacknowledged.
  `Witnesses.DeliveryStalls` gives a run that gets there. `StalledStays` shows that neither side then sends
  anything until an earlier packet is delivered or the peer's application writes something of its own, and
  `EmitsIff` that a sender with pending bytes can emit data if and only if something is in flight or the window
  is open. `Continuations.NoDeadEnd` shows that a way on always exists, though the peer's application may have to
  write a byte for it; `Continuations.ClosingCompletes` shows the same of a side that is closing.
- The window a sender knows may promise more than the receiver has room for. Once established, a sender comes to
  this only when it handles a packet that acknowledges no more than it knows, or one from the handshake, since
  `src/backend.c:70` takes the window of either (`Windows.OverreachArises`); for a packet from after the
  handshake `OverreachIff` is exact, and a guard on new acknowledgements would rule it out.
  `Witnesses.StaleWindowOverruns` is a run with a stale packet. The constant the handshake advertises does it
  alone: `HandshakeOverreachesIff` says for which receivers, and `HandshakeWindowOverruns` gives a run. The
  receiver drops the excess.
- Touching segments are not joined, so the acknowledgement is not maximal: the next expected byte may already be
  held. `Reassembler.MaximalIff` says when it is maximal, `ReceiveMaximalIff` when a packet makes it stop being
  so, and `Witnesses.SwapLosesMaximality` is a run in which two adjacent packets that swap places leave the later
  one held, unacknowledged and unreadable.
- The comment on `send_buffer_max_new_dump` in `inc/send_buffer.h` speaks of the acked index and that on
  `send_buffer_dump` of a fixed start; the model follows the code (the sent index, and the given start).

## Model

| member | source | states |
|---|---|---|
| Theorems.ReliableDelivery | project-2_15-441/src/cmu_tcp.c:149-223 | in every state of every run, each way, the bytes read are a prefix of the bytes written at the other end |
| Theorems.CloseIsGraceful | project-2_15-441/src/backend.c:532-547 | a backend that has left its loop had every byte its application wrote acknowledged, and the peer has read it or holds it in its in-order prefix |
| Theorems.ReassemblyIsExact | project-2_15-441/src/recv_buffer.c:261-312 | in every state of every run the in-order prefix and the segments hold exactly the byte numbers ever accepted, only bytes that were sent, and each unread one at its index with the value written under its number |
| Theorems.HeldStaysHeld | project-2_15-441/src/recv_buffer.c:228-312 | along a run a byte number that is held is held ever after |
| Witnesses.EveryStreamCanArrive | project-2_15-441/src/backend.c:521-587 | for every stream, all capacities and all initial numbers there is a run in which exactly that stream is written, all of it is read, and the writer's backend leaves its loop; every copy it takes is right as the source writes it if and only if the stream is shorter than the capacity |
| Continuations.NoDeadEnd | project-2_15-441/src/backend.c:521-587 | from every state of every run in which both backends are alive, in the handshake or after it, and neither is closing, the run can go on until everything written either way is acknowledged and read |
| Continuations.ClosingCompletes | project-2_15-441/src/backend.c:532-583 | from every state of every run in which one side is closing and alive and the other is alive and not closing, the run can go on until everything the closing side has written is acknowledged and read and its backend has left the loop |
| Continuations.Opens | project-2_15-441/src/backend.c:128-353 | from every state with both backends alive the handshake can be completed |
| Laws.MultipleSendLaw | project-2_15-441/src/backend.c:409-458 | in every run, closing or not, a pass through `multiple_send` ends with last sent at the last written byte or at acked + window, whichever is first (or where it was); the packets it adds carry the written bytes in between, end to end, all but the last of 1375 bytes |
| Laws.RetransmitLaw | project-2_15-441/src/backend.c:461-519 | in every run a retransmission may happen if and only if something is in flight; it sends the first min(in flight, window) written bytes after the acked one again, or one on a zero window |
| Laws.ExitLaw | project-2_15-441/src/backend.c:532-547 | in every run a backend that has seen the close request leaves its loop if and only if everything written is acknowledged |
| Laws.DataLaw | project-2_15-441/src/backend.c:42-118 | in every run, a packet with data handled undisturbed, from the poll or as the end of the server's handshake: if it lies in the window and reaches past the prefix, exactly its numbers become held and accepted, each with the value the peer wrote; otherwise nothing changes; either way exactly one packet goes out, a pure acknowledgement of what is then expected, numbered acked + 1 |
| Laws.PureAckLaw | project-2_15-441/src/backend.c:56-76 | in every run, a packet without data, from either caller: the acked number rises to what it acknowledges, the known window becomes its own, nothing is sent |
| Laws.DeliveryLaw | project-2_15-441/src/backend.c:336-338 | in every run, a waiting process hands any packet that is no SYN to the message handler whole |
| Laws.AckSectionLaw | project-2_15-441/src/backend.c:56-70 | in every run, wherever the section falls: acked becomes the maximum, the bytes that stay pending are the written ones after it, and a payload is gone on with, whoever the caller |
| Laws.PayloadSectionLaw | project-2_15-441/src/backend.c:76-90 | in every run, wherever the section falls: exactly the numbers of a packet that may be taken become held and accepted, with its bytes |
| Laws.ReplyLaw | project-2_15-441/src/backend.c:92-115 | in every run, wherever the reply falls: one pure acknowledgement of what is then expected, with the room that is then left |
| Laws.DataCompletesHandshake | project-2_15-441/src/backend.c:331-338 | for every payload that fits one packet and both buffers, a run exists in which the client's last handshake packet has not arrived when the packet with that payload does; that one completes the server's handshake, and the server's application reads its bytes |
| Laws.WriteLaw | project-2_15-441/src/cmu_tcp.c:203-213 | in every run a turn of `cmu_write` accepts the first min(length, capacity - 1 - pending) bytes of the buffer: all of it, or next written is acked + capacity |
| Laws.ReadLaw | project-2_15-441/src/cmu_tcp.c:172-180 | in every run `cmu_read` hands over the next min(length, ready) bytes the peer wrote: as many as were asked for, or none is left ready |
| Laws.CloseLaw | project-2_15-441/src/cmu_tcp.c:126-132 | in every run `cmu_close` sets its flag only, and a poll that finds nothing goes on to sending |
| Laws.SynLaw | project-2_15-441/src/backend.c:147-176 | in every run the client's first step and every timeout send one SYN with its own initial number, and the server's first step listens |
| Laws.SynAckLaw | project-2_15-441/src/backend.c:188-233 | in every run whatever reaches a client in SYN_SENT anchors it at the server's initial number, establishes it, and is acknowledged with both numbers plus one |
| Laws.ListenLaw | project-2_15-441/src/backend.c:275-311 | in every run whatever reaches a server in LISTEN anchors it at the client's initial number and is answered with a SYN-ACK |
| Laws.SynRcvdLaw | project-2_15-441/src/backend.c:336-348 | in every run a SYN that reaches a server in SYN_RCVD gets the same SYN-ACK and changes nothing else; any other packet establishes the server |
| AsWritten.StraightExactlyOnFirstTurn | project-2_15-441/src/send_buffer.c:81-92 | in every run, either way, every fresh send so far was copied right as the source writes it if and only if last sent < initial number + capacity |
| AsWritten.ResendsStraight | project-2_15-441/src/backend.c:500-508 | until then every retransmission, from every state, is copied right as written too |
| AsWritten.CarriesLessThanCapacity | project-2_15-441/src/send_buffer.c:81-92 | until then the peer's application has read fewer bytes than the capacity |
| AsWritten.WholeStreamStraightIff | project-2_15-441/src/send_buffer.c:81-92 | where everything written has been read, the copies were right as written if and only if it was less than a capacity |
| AsWritten.PacketsStraightIff | project-2_15-441/src/backend.c:436-442 | the copies of a sending loop, one a packet, are right as written if and only if the whole run of bytes is straight |
| Simulation.StepEither | project-2_15-441/src/backend.c:521-587 | any step that can follow a bounded run, performed on two sockets that have followed it, leaves both following the longer run, with the packets that step sends |
| Simulation.Perform | project-2_15-441/src/backend.c:521-587 | any enabled step of a process, performed on its socket in 32-bit fields, gives the state, the place in the loop, the packets, and the bytes accepted or handed over of that step |
| Simulation.Open | project-2_15-441/src/cmu_tcp.c:59-75 | two new sockets share nothing and follow a run that has just begun |
| Theorems.CursorsInOrder | project-2_15-441/src/send_buffer.c:17-21 | acked + 1 <= peer's next expected <= last sent + 1 <= next written <= acked + capacity, and no acknowledgement ever sent exceeds the peer's next expected |
| Theorems.WindowStateInSync | project-2_15-441/src/backend.c:55-67 | the `window` copies equal the numbers decoded from the buffers in every state; the one lag is while the packet that completes the server's handshake is being handled |
| Theorems.HandshakeAgrees | project-2_15-441/src/backend.c:128-353 | server ESTABLISHED implies client ESTABLISHED, client ESTABLISHED implies the server is anchored, and each anchor is the peer's initial number plus what was read |
| Theorems.AbortsExactlyOnLateSyn | project-2_15-441/src/backend.c:47-50 | from any state of any run a step aborts a process if and only if it delivers a SYN-bearing packet to the main loop; no other assert on packets or cursors ever fails |
| Witnesses.LateSynAbortsARun | project-2_15-441/src/backend.c:49-50 | a run exists whose last step delivers to an established client the SYN-ACK that an earlier step established it with, and aborts it |
| Witnesses.DeliveryStalls | project-2_15-441/src/backend.c:416-417 | a run exists that ends with bytes to send, a zero window and nothing in flight, and a peer with nothing to send |
| Witnesses.StalledStays | project-2_15-441/src/backend.c:532-583 | from there, through any steps that deliver nothing and in which the peer's application writes nothing, neither side sends a packet |
| Witnesses.SendsIffOpen | project-2_15-441/src/backend.c:416-420 | with nothing in flight and something to send, `multiple_send` sends if and only if the known window is open |
| Witnesses.StaleWindowOverruns | project-2_15-441/src/backend.c:70 | a run exists in which a repeated old reply makes the client send beyond what the server's buffer can hold |
| Witnesses.EmitsIff | project-2_15-441/src/backend.c:416-517 | a sender with pending bytes can emit data, fresh or again, if and only if something is in flight or the window is open |
| Witnesses.HandshakeWindowOverruns | project-2_15-441/src/cmu_tcp.c:62 | a run exists in which the client sends beyond what the server can hold on the window it started with |
| Witnesses.HandshakeOverreachesIff | project-2_15-441/src/cmu_tcp.c:62 | right after the handshake the client's window promises too much if and only if the receiver's capacity is at most that constant |
| Windows.OverreachArises | project-2_15-441/src/backend.c:56-70 | in every run an established endpoint comes to promise itself too much only by handling a packet that acknowledges nothing new or comes from the handshake |
| Windows.OverreachIff | project-2_15-441/src/backend.c:56-70 | handling a packet from after the handshake leaves it so if and only if the packet's promise is behind the peer's room by less than its acknowledgement is behind the acked number; never if it acknowledges something new |
| Windows.PassesRoomIff | project-2_15-441/src/backend.c:416-420 | from within its peer's room, `multiple_send` goes beyond it if and only if the window promises too much and the bytes are there |
| Windows.PassesEdgeIff | project-2_15-441/src/backend.c:416-420 | `multiple_send` passes an edge it had not passed if and only if both acked + window and the bytes written reach beyond it |
| Theorems.EverySentEdge | project-2_15-441/src/backend.c:92-112 | every packet an established endpoint sends acknowledges exactly its next expected number, and ack + window is last read + capacity at that moment |
| Theorems.RightEdgeNeverShrinks | project-2_15-441/src/backend.c:82-107 | past the handshake, acknowledgements and ack + window are nondecreasing in the order of sending and bounded by the current values, whatever the application reads in between |
| Theorems.HistoriesGrow | project-2_15-441/src/backend.c:521-587 | along a run the logs, the bytes written and read, and the cursors of both ends only grow, and a process that exited or aborted never changes again |
| Theorems.BoundedRunsFit | project-2_15-441/inc/cmu_packet.h:21-33 | in a run that ends with initial number + bytes written + capacity below 2^32 both ways, every packet fits its wire fields and no number either buffer computes with reaches 2^32, in every state |
| Theorems.SectionsAreCallable | project-2_15-441/src/backend.c:56-90 | in such a run the 32-bit methods for the sections of `handle_message` and for `cmu_read` may be called wherever the run stands |
| Theorems.HandshakeIsCallable | project-2_15-441/src/backend.c:187-348 | whatever its network delivers during the handshake, the 32-bit methods for the handshake may be called |
| Theorems.RunInv | project-2_15-441/src/backend.c:521-587 | the system invariant holds in every state of every run |
| Theorems.NextInv | project-2_15-441/src/backend.c:42-519 | every step of either process, with any delivery the network allows, keeps the invariant |
| HandshakeProofs.ReachesSynSent | project-2_15-441/src/backend.c:187-200 | any packet that reaches a client in SYN_SENT passes all its asserts and carries the server's initial number |
| HandshakeProofs.ReachesListen | project-2_15-441/src/backend.c:272-281 | any packet that reaches a server in LISTEN is a plain SYN with the client's initial number |
| HandshakeProofs.ReachesSynRcvd | project-2_15-441/src/backend.c:331-348 | in SYN_RCVD every packet without SYN acknowledges the server's number + 1 from an established client, and a packet with SYN never completes, so the assert in the else branch holds |
| StepProofs.AcksAreInRange | project-2_15-441/src/backend.c:57-67 | every acknowledgement in the network is of something sent and not beyond what the peer expects, so the range asserts under `send_buffer_update_ack` hold |
| StepProofs.AckNumbers | project-2_15-441/src/backend.c:57-70 | handling an acknowledgement changes only the two copies, the window and the send buffer, and puts `last_ack_received` back in step with acked + 1, stale and duplicate acknowledgements included |
| StepProofs.TakeKeepsAgreement | project-2_15-441/src/recv_buffer.c:261-312 | offering a packet that carries the stream keeps everything held equal to the stream and never lowers the next expected number |
| StepProofs.TakeKeepsExact | project-2_15-441/src/recv_buffer.c:261-312 | offering a packet keeps the held numbers exactly the accepted ones |
| StepProofs.ReadKeepsAgreement | project-2_15-441/src/recv_buffer.c:228-241 | reading hands over exactly the next bytes of the stream and keeps the rest |
| StepProofs.PacketsAreSendable | project-2_15-441/src/backend.c:436-453 | packets cut from the send ring carry the bytes of the written stream their numbers name, the current acknowledgement and the current window |
| StepProofs.FreshKeeps | project-2_15-441/src/backend.c:409-458 | the whole `multiple_send` step keeps every shared part of the invariant |
| StepProofs.ResendKeeps | project-2_15-441/src/backend.c:461-519 | the whole retransmission step keeps every shared part of the invariant |
| StepProofs.LoopKeeps | project-2_15-441/src/backend.c:532-583 | every step of the main loop and of the application keeps it, and aborts only on a delivered SYN |
| Endpoints.SendFreshIs | project-2_15-441/src/backend.c:416-453 | `multiple_send` emits exactly the next min(fresh, window - unacknowledged) bytes, consecutively numbered in payloads of 1 to MSS, advances last sent by that many, and leaves no more in flight than the known window |
| Endpoints.ResendIs | project-2_15-441/src/backend.c:478-518 | a retransmission tiles acked + 1 .. acked + min(unacknowledged, window), or one byte on a zero window, with the bytes first sent under those numbers |
| Endpoints.ResendRoundProgress | project-2_15-441/src/backend.c:478-517 | one lossless in-order round to a receiver the sender's view matches moves its next expected number to at least acked + min(unacknowledged, window) + 1 |
| Endpoints.PacketizeTiles | project-2_15-441/src/backend.c:436-453 | the payloads of the packets, end to end, are the data, each number is the bytes before it, and all but the last are 1375 bytes long |
| Endpoints.PacketizeCarries | project-2_15-441/src/backend.c:500-517 | each packet carries the slice its number names, with the endpoint's acknowledgement and window |
| Endpoints.SectionsKeepOk | project-2_15-441/src/backend.c:42-118 | each section keeps both buffers well formed and never lowers the next expected number |
| Backend.CmuSocket.constructor | project-2_15-441/src/cmu_tcp.c:59-75 | a new socket is the initial endpoint for its number, over arbitrary receive memory, with two buffers of its own and no segments |
| Backend.CmuSocket.HandleAck | project-2_15-441/src/backend.c:56-70 | the acknowledgement section on the real buffers is the acknowledgement function on the endpoint |
| Backend.CmuSocket.HandleData | project-2_15-441/src/backend.c:77-90 | the payload section is the data function on the endpoint, over segments that were there or are new |
| Backend.CmuSocket.Reply | project-2_15-441/src/backend.c:92-112 | the reply is the pure acknowledgement with the current number and window |
| Backend.CmuSocket.HandleMessage | project-2_15-441/src/backend.c:42-118 | undisturbed, the sections compose to one transition and at most one reply; a FIN packet changes nothing |
| Backend.ServesTwo | project-2_15-441/src/backend.c:242-353 | a server built, listening, connected and handed two data packets in a row is the endpoint that handled both |
| Backend.TakesTwo | project-2_15-441/src/backend.c:42-118 | a client built, connected and handed two data packets in a row is the endpoint that handled both |
| Backend.CmuSocket.MultipleSend | project-2_15-441/src/backend.c:409-458 | the sending loop terminates, emits the packets of the fresh slice and moves only last sent |
| Backend.CmuSocket.ResendUnacknowledged | project-2_15-441/src/backend.c:461-519 | the retransmission loop terminates, emits the packets of the unacknowledged slice and changes nothing |
| Backend.CmuSocket.MayExit | project-2_15-441/src/backend.c:534-547 | the loop ends exactly when the close was seen and nothing is unacknowledged or fresh |
| Backend.CmuSocket.ClientStart | project-2_15-441/src/backend.c:128-160 | the first SYN, with the socket's own number |
| Backend.CmuSocket.ClientTimeout | project-2_15-441/src/backend.c:168-176 | a timeout sends the same SYN again |
| Backend.CmuSocket.ServerStart | project-2_15-441/src/backend.c:248 | the server goes from CLOSED to LISTEN |
| Backend.CmuSocket.ClientOnSynAck | project-2_15-441/src/backend.c:187-233 | the SYN-ACK anchors the receive buffer, sets both numbers, establishes the client and is acknowledged |
| Backend.CmuSocket.ServerOnSyn | project-2_15-441/src/backend.c:266-311 | the SYN anchors the receive buffer and is answered with a SYN-ACK |
| Backend.CmuSocket.ServerOnSynRcvd | project-2_15-441/src/backend.c:312-348 | the exact acknowledgement establishes the server; otherwise the same SYN-ACK goes out again and nothing changes |
| Backend.CmuSocket.CmuWriteTurn | project-2_15-441/src/cmu_tcp.c:197-220 | one turn of the writing loop appends a prefix of the buffer to the pending bytes: all of it, or the buffer is then full |
| Backend.CmuSocket.CmuRead | project-2_15-441/src/cmu_tcp.c:149-188 | refuses a negative length; otherwise hands over the bytes right after the last one read, as many as asked for or all that are ready |
| Backend.CmuSocket.CmuClose | project-2_15-441/src/cmu_tcp.c:129-132 | the close request sets the flag and nothing else |
| Reassembler.CheckIs | project-2_15-441/src/recv_buffer.c:243-259 | each verdict exactly within its bounds; a packet refused as already received is held in full |
| Reassembler.ReceiveOk | project-2_15-441/src/recv_buffer.c:261-312 | accepting a packet keeps the segments sorted, disjoint and beyond the new next expected number |
| Reassembler.ReceiveHolds | project-2_15-441/src/recv_buffer.c:261-312 | the held numbers afterwards are exactly the old ones and the packet's own |
| Reassembler.ReceiveBytes | project-2_15-441/src/recv_buffer.c:310-311 | the packet's bytes land at their own numbers and every other byte of the window stays |
| Reassembler.MaximalIff | project-2_15-441/src/recv_buffer.c:103-110 | the next expected byte is missing if and only if no segment starts at it |
| Reassembler.ReceiveMaximalIff | project-2_15-441/src/recv_buffer.c:287-298 | a packet makes the acknowledgement stop being maximal if and only if it reaches the in-order prefix and the byte after what is then in order was held already |
| Witnesses.SwapLosesMaximality | project-2_15-441/src/recv_buffer.c:261-312 | a run exists in which two swapped packets leave a received byte neither acknowledged nor readable |
| Reassembler.ReceiveMoves | project-2_15-441/src/recv_buffer.c:287-298 | the next expected number never goes back; it advances if and only if the packet reaches it or reaches into a head segment that starts at it, and then past the packet |
| Reassembler.ReceiveReaches | project-2_15-441/src/recv_buffer.c:287-299 | where the prefix ends when it advances: past the packet and past every segment that starts within it, and at the end of one of these |
| Reassembler.ReadKeeps | project-2_15-441/src/recv_buffer.c:228-241 | a read returns the first unread bytes and changes neither the next expected number, nor what is held, nor any later byte |
| RecvBuffers.RecvBuffer.constructor | project-2_15-441/src/recv_buffer.c:199-207 | a new buffer is not yet anchored and has no segments |
| RecvBuffers.RecvBuffer.Initialize | project-2_15-441/src/recv_buffer.c:209-215 | anchoring expects the number after the peer's initial one, with nothing held |
| RecvBuffers.RecvBuffer.SeqnumToIndex | project-2_15-441/src/recv_buffer.c:29-39 | of every number not yet read, an index of the array; of a number of the window, its place on the ring |
| RecvBuffers.RecvBuffer.NextByteExpectedSeqnum | project-2_15-441/src/recv_buffer.c:41-55 | decoding inverts the index, also when the two indices coincide |
| RecvBuffers.RecvBuffer.MaxRead | project-2_15-441/src/recv_buffer.c:217-226 | what may be read and what may be received always add up to the capacity less one |
| RecvBuffers.RecvBuffer.Check | project-2_15-441/src/recv_buffer.c:243-259 | the four verdicts, in 32-bit arithmetic, are those of the buffer as a value |
| RecvBuffers.RecvBuffer.Read | project-2_15-441/src/recv_buffer.c:228-241 | returns the front of the in-order prefix and leaves the buffer as the value read |
| RecvBuffers.RecvBuffer.Advance | project-2_15-441/src/recv_buffer.c:239-240 | moving the read cursor leaves the decoded next expected number and rotates the ring |
| RecvBuffers.RecvBuffer.CopyFrom | project-2_15-441/src/recv_buffer.c:71-86 | the wrapping copy out is the front of the logical ring |
| RecvBuffers.RecvBuffer.Store | project-2_15-441/src/recv_buffer.c:59-69 | the wrapping copy in is a splice of the logical ring at the packet's number |
| RecvBuffers.RecvBuffer.Receive | project-2_15-441/src/recv_buffer.c:261-312 | the list, the indices and the ring together become exactly the buffer that received the packet |
| RecvBuffers.RecvBuffer.RecordFirst | project-2_15-441/src/recv_buffer.c:264-285 | with no segments the packet extends the prefix or becomes the one segment |
| RecvBuffers.RecvBuffer.RecordMerged | project-2_15-441/src/recv_buffer.c:287-308 | with segments the merged list is kept, or its head joins the prefix, and `start` and `end` stay its true ends or both null |
| RecvBuffers.RecvBuffer.Absorb | project-2_15-441/src/recv_buffer.c:289-299 | a head that reaches the prefix is taken over and unlinked |
| RecvBuffers.MergedNode | project-2_15-441/src/recv_buffer.c:288-291 | the merged node reaches the in-order prefix only as the head of the list |
| RecvBuffers.SegmentDisconnect | project-2_15-441/src/recv_buffer.c:90-97 | unlinking a node leaves a well-formed list of the others |
| Segments.SegmentMerge | project-2_15-441/src/recv_buffer.c:101-176 | one fresh node replaces exactly the overlapping run, which is freed in order and once each; the nodes then hold the old segments with the new range inserted, and they form a well-formed list if and only if the link left unset, for a range before or beyond all segments, holds null |
| Segments.SegmentMergeFails | project-2_15-441/src/recv_buffer.c:114-123 | a call that leaves a malformed list |
| Segments.FirstSegment | project-2_15-441/src/recv_buffer.c:279-284 | the first segment is a well-formed list if and only if both its links, never set, hold null |
| Segments.SearchLeft | project-2_15-441/src/recv_buffer.c:102-105 | the first node that does not end before the range |
| Segments.SearchRight | project-2_15-441/src/recv_buffer.c:107-110 | the last node that does not start after the range |
| Segments.SearchesFrame | project-2_15-441/src/recv_buffer.c:102-149 | the two searches frame exactly the overlapping segments |
| Segments.FreeRun | project-2_15-441/src/recv_buffer.c:162-173 | the clean-up frees the run from left end to right end, and its asserts say that it reads no node it has freed |
| Segments.PlaceApart | project-2_15-441/src/recv_buffer.c:114-149 | the three cases without overlap link the new node between its neighbours; the link the source does not set keeps what was there |
| Segments.ReplaceRun | project-2_15-441/src/recv_buffer.c:151-173 | the overlapping case links one joined node in place of the run |
| Segments.InsertCovers | project-2_15-441/src/recv_buffer.c:101-176 | insertion covers exactly the old numbers and the new range |
| Segments.InsertSorted | project-2_15-441/src/recv_buffer.c:101-176 | insertion keeps the list sorted and disjoint |
| Segments.InsertHead | project-2_15-441/src/recv_buffer.c:288-291 | what the first segment is after an insertion |
| Segments.InsertIs | project-2_15-441/src/recv_buffer.c:151-160 | recursive insertion equals replacing the overlapping run by its join with the range |
| Ring.CopyIn | project-2_15-441/src/send_buffer.c:68-79 | one or two memcpys write the data into the logical ring at its offset and nowhere else |
| Ring.CopyOut | project-2_15-441/src/send_buffer.c:81-92 | the copy out, with the intended wrap test, is the slice of the logical ring |
| SendBuffers.SendBuffer.constructor | project-2_15-441/src/send_buffer.c:98-114 | a new buffer has nothing pending and all cursors at the initial number |
| SendBuffers.SendBuffer.SeqnumToIndex | project-2_15-441/src/send_buffer.c:17-21 | index_to_seqnum inverts it over the live window |
| SendBuffers.SendBuffer.IndexToSeqnum | project-2_15-441/src/send_buffer.c:23-32 | the number it decodes lies in the live window and has that index |
| SendBuffers.SendBuffer.NextByteWrittenSeqnum | project-2_15-441/src/send_buffer.c:34-48 | decoding is exact, equal indices meaning a full buffer |
| SendBuffers.SendBuffer.LastByteSentSeqnum | project-2_15-441/src/send_buffer.c:50-64 | decoding is exact, equal indices meaning nothing in flight |
| SendBuffers.SendBuffer.MaxNewDump | project-2_15-441/src/send_buffer.c:116-127 | fresh, unacknowledged and free space always add up to the capacity less one |
| SendBuffers.SendBuffer.Write | project-2_15-441/src/send_buffer.c:129-141 | appends the data to the pending bytes |
| SendBuffers.SendBuffer.Dump | project-2_15-441/src/send_buffer.c:145-161 | returns the bytes under their numbers and moves last sent only forward |
| SendBuffers.SendBuffer.DumpFresh | project-2_15-441/src/backend.c:438-442 | the number and bytes right after last sent |
| SendBuffers.SendBuffer.CopyUnacked | project-2_15-441/src/backend.c:496-508 | the number and bytes at an offset past the acked ones, changing nothing |
| SendBuffers.SendBuffer.UpdateAck | project-2_15-441/src/send_buffer.c:168-176 | an acknowledgement of sent bytes keeps the other two decoded cursors; one of unsent bytes, which the asserts let through, throws last sent a whole capacity forward |
| SendBuffers.SendBuffer.DumpAsWrittenIsRight | project-2_15-441/src/send_buffer.c:81-92 | the copy as written is right for a range of the live window if and only if the range starts above the acked index and stays inside the array |
| SendBuffers.SendBuffer.DumpAsWrittenByNumber | project-2_15-441/src/send_buffer.c:81-92 | the same, told from the byte numbers: a byte's index is its number less the initial one, modulo the capacity |
| SendBuffers.SendBuffer.ResendAsWrittenByNumber | project-2_15-441/src/backend.c:500-508 | the same for the retransmission |
| SendBuffers.SendBuffer.EveryDumpAsWritten | project-2_15-441/src/send_buffer.c:81-92 | it is right for every range if and only if the pending bytes have not come round to the front of the array |
| SendBuffers.SendBuffer.ResendAsWrittenIsRight | project-2_15-441/src/backend.c:500-508 | the retransmission as written is right for a range if and only if the range stays inside the array |
| SendBuffers.SendBuffer.EveryResendAsWritten | project-2_15-441/src/backend.c:500-508 | it is right for every range in flight if and only if those bytes do not straddle the end of the array |
| SendBuffers.DumpFails | project-2_15-441/src/send_buffer.c:81-92 | calls lead to a buffer of which one live range makes the copy as written leave the array, and another is refused |
| SendBuffers.ResendFails | project-2_15-441/src/backend.c:500-508 | calls lead to a buffer of which bytes in flight are retransmitted wrongly as written |
| SendViews.SendConservation | project-2_15-441/src/send_buffer.c:116-127 | free space, fresh and unacknowledged bytes are never negative and make up the capacity less one |
| SendViews.AckKeeps | project-2_15-441/src/send_buffer.c:168-176 | a valid acknowledgement moves neither last sent nor next written, and every byte that stays keeps its number |
| SendViews.AckIsMax | project-2_15-441/src/send_buffer.c:168-176 | acknowledgements commute and repeat harmlessly: only the largest counts |
| CmuPacket.SetHeader | project-2_15-441/src/cmu_packet.c:92-108 | the first 25 bytes become the encoded header, and the extension data follows them |
| CmuPacket.CreatePacket | project-2_15-441/src/cmu_packet.c:129-153 | refused exactly for a short header or packet length; otherwise header and payload, end to end |
| CmuPacket.HeaderFields | project-2_15-441/inc/cmu_packet.h:21-33 | the bytes of a header: 00 00 3C 51 first, then every field at its packed offset, most significant byte first, as sums of single bytes |
| CmuPacket.WireBytes | project-2_15-441/src/backend.c:92-114 | the bytes of a packet the backend sends: lengths 25 and 25 + payload, flags 8 for SYN, 4 for ACK and 2 for FIN, numbers and window most significant byte first, then the payload |
| CmuPacket.DecodeEncode | project-2_15-441/src/cmu_packet.c:22-46 | the getters return every field that was set |
| CmuPacket.CreatedDecodes | project-2_15-441/src/cmu_packet.c:110-153 | a created packet gives back its header, payload length and payload |
| CmuPacket.EncodeDecode | project-2_15-441/src/cmu_packet.c:110-153 | encoding what was decoded from a well-formed packet gives back the same bytes |
| CmuPacket.WireRoundTrip | project-2_15-441/src/backend.c:109-114 | the receiving backend sees exactly the packet the sender meant, flags included |
| CmuPacket.BeforeIsOrder | project-2_15-441/inc/cmu_packet.h:148-161 | on true numbers at most 2^31 apart the wrapped comparison is the true order, except that at exactly 2^31 each is before the other |
| CmuPacket.BetweenIsOrder | project-2_15-441/inc/cmu_packet.h:171-173 | a wrapped number is between two bounds less than 2^32 apart if and only if some true number it stands for is |

## Left out

- Theorems.ReliableDelivery: of the code as written only while last sent < initial number + capacity in that direction, which AsWritten.StraightExactlyOnFirstTurn shows to be exact; beyond that, of the intended copies.
- Witnesses.EveryStreamCanArrive: of the code as written exactly for streams shorter than the capacity.
- Continuations.ClosingCompletes: of the intended copies, like NoDeadEnd; and the other side is not closing, since a backend that leaves its loop acknowledges nothing more.
- Continuations.NoDeadEnd: of the intended copies; the code as written carries fewer than a capacity of bytes each way.
- SendBuffers.SendBuffer.CopyFrom: copies with the intended wrap test; the code's own test is characterised by DumpAsWrittenIsRight, EveryDumpAsWritten and DumpFails.
- Ring.CopyOut: the same; it is the intended copy, not the branch `src/send_buffer.c:83` takes.
- SendBuffers.SendBuffer.Dump: the same, for the bytes it returns.
- SendBuffers.SendBuffer.DumpFresh: the same.
- Endpoints.SendFreshIs: about the bytes the intended copy yields.
- Backend.CmuSocket.MultipleSend: about the bytes the intended copy yields.
- Endpoints.ResendIs: about the bytes a wrapping retransmission yields.
- Backend.CmuSocket.ResendUnacknowledged: about the bytes a wrapping retransmission yields.
- CmuPacket.CreatePacket: without extension data, for which the source allocates no room; every caller passes length zero.
- SendBuffers.SendBuffer.CopyUnacked: wraps where `src/backend.c:507` reads straight on; see ResendAsWrittenIsRight and EveryResendAsWritten.
- Theorems.CloseIsGraceful: of the intended copies, like ReliableDelivery; and the application writes nothing after `cmu_close`; a write that races with the exit of the backend may be lost.
- Backend.CmuSocket.CmuWriteTurn: one turn of the `cmu_write` loop; the loop takes turns until the buffer is used up, and other steps may fall between them.
- Theorems.BoundedRunsFit: sequence spaces that wrap past 2^32 inside a buffer are not modelled, since both buffers compare plainly; the class methods ask for numbers below the bound.
- RecvBuffers.RecvBuffer.RecordMerged: what `malloc` left in the links of a new node is taken to be null, here and in RecordFirst and Receive; SegmentMerge and FirstSegment say when anything else does harm.
- RecvBuffers.RecvBuffer.Receive: the ring is written after the list and index in all three branches; the code writes it first when there are no segments, under the same lock.
- Delivery under fairness (a timeout that fires, a network that loses finitely often): only safety, and the stall above, are stated.
- UDP sockets, addresses, ports beyond the two header fields, `poll`, threads and mutexes: replaced by network and interleaving steps; only whole packets from the peer arrive.
- The unlocked reads of the receive buffer in both senders: atomic here.
- Wall-clock time: a retransmission may happen whenever something is unacknowledged.
- `initialized` and the busy waits on it: a call is enabled once the state is SYN_RCVD or ESTABLISHED.
- Blocking of `cmu_read` on an empty buffer, its mode flags and its error for an unknown flag.
- FIN handling, congestion control and the states after ESTABLISHED: declared but not implemented.
- `segment_clean`, the two `_clean` functions, allocation failure, the `counter` test hooks and printing.
