# Verification of the Linux DVB applications

This project models the parts of the DVB applications tree in which state is kept across calls, and proves what they
are for. Each part has its specification on values, the loops and classes of the source proved equal to it, and the
theorems about it.

**The common interface stack** (`libdvben50221`). `Transport` describes the transport layer as a log of actions:
every API call, received TPDU, poll and timeout appends legal actions to the log, and the state is what the actions
make of the connections. The results of link writes come from an arbitrary function of the position in the log,
elapsed times are arbitrary, and so are the packets received and the answers of the application. `Sessions` stacks
the session layer on it. `StackRuns`, `TransportSafety` and `SessionSafety` prove what holds over whole runs of both
layers. `HostCalls`, `Answers`, `Polling`, `Opening` and `Receiving` say exactly what each call of the host and each
octet from a module does: when it succeeds, what is queued or written, what changes and what does not, and which
error is reported otherwise. `Delivery`, `Reassembly` and `RunDelivery` prove what a session is handed in a whole
run; `ConnectionMoves` and `PacketDelivery` prove the round trip from the sender's session layer to the receiver's
session callback, packet by packet. `SessionConnections` tells when a session loses its connection unnoticed.
`TransportLayer` and `SessionLayer` are the two layers as classes whose methods update fields, tables and buffers
and keep the invariants.

**Application objects.** `CaPmt` builds the CA_PMT object (section 8.4.3.4 of EN 50221) into an array and
`CaPmtMeaning` and `CaPmtExact` read it back. `Mmi` and `MmiText` put fragmented menus, lists, subtitles and texts
together.

**MPEG sections** (`libucsi`). `SectionBuf`, `SectionPayloads` and `SectionBuffer` assemble sections from fragments
and transport payloads (section 2.4.4 of ISO/IEC 13818-1), and `SectionErrors` says what they report on bad ones.
`Crc32` proves the 256 constants and the table loop equal to the shift register of Annex A; `CrcBursts` and
`CrcBits` prove what the check is bound to notice; `Sections`, `SectionOctets` and `PsiTable` are the in-place codec
and the table tracking of `section.h`.

**The teletext page cache** (`alevt`). `PageCache`, `CacheModel` and `CacheWalk` prove that the hash table with
move-to-front lists is a map that remembers the newest subpage of every page, that the cyclic walk ends, and exactly
when it misses a page; `CacheOrder` says which page it finds. `CacheTable` is the table as a class, `DlList` the
doubly linked list on the heap.

**The channel file** (`libdvbcfg`). `CfgText`, `Zapchannel` and `ZapRoundTrip` print and parse channels; `ZapTables`
ties the names of settings to the enumerators, and `ZapParsing` says what is read from any file.

Where the source falls short of what one would expect, the lemmas give the input and the exact condition:

- A queued T_DELETE_T_C can fail in two ways. When its write is attempted and fails, the connection is stranded until
  its slot is destroyed (`FailedDeleteStrands`, `StrandedForGood`). When the host is waiting on the connection as the
  deletion is queued, for a message, a poll or an earlier deletion, or when an older message is in front and is
  written, it is never attempted (`DeleteLocksExactly`, `MessageInFrontLocks`, `SecondDeleteLocks`): the module's
  answers are refused, and only the destruction of the slot frees it, or the host's written answer to a request for
  another connection that the module sends on this one (`LockedRefuses`, `LockedForGood`). The next poll attempts it
  exactly when nothing is awaited and nothing is in front (`DeleteAttemptedExactly`).
- A deletion that the module confirms, and a creation or deletion that times out, leave the host waiting on the idle
  connection, which it then cannot announce again (`DeletionLocksOut`, `TimeoutLocksOut`, `LockedOutForGood`,
  `ReopenAnnounced`).
- A deletion that is confirmed or times out, and one by the module whose answer cannot be written, also leave the
  sessions of the connection in use, for the session layer is not told (`OrphansExactly`, `SessionsTied`,
  `ConfirmedDeletionOrphans`).
- An empty last fragment drops a chain (`EmptyLastDropsChain`).
- The end of a connection reaches sessions of other slots (`ConnectionCloseSparesOthers`).
- The walk over the page cache misses a subpage numbered like the wildcard, 0x3f7f, when it is not the newest of its
  page; otherwise it can be relied on (`ReliableExactly`, with a cache of two pages in `WildcardMissed`).
- A walk downwards from above every subpage of a page goes on to the next lower page at once (`AboveSkipsPage`).
- A comment in front of the first separator of a channel line is parsed (`CommentParsed`, `CommentsMatterExactly`).

Where code and comment disagree the code is followed (`BareStreamPreventsMove`).

Integers are unbounded in the models; widths and truncations are written out where the source relies on them (16-bit
lengths, 12-bit fields, 32-bit registers and settings). Octets are integers below 256, except for the check and the
section codec, which are on bit vectors.

## Model

| member | source | states |
|---|---|---|
| Asn1.EncodeInto | bgt-linux-dvb-apps/lib/libdvben50221/asn_1.c:56-83 | the length field is stored at its place or, without room for it, nothing is stored and the call fails |
| Asn1.RoundTrip | bgt-linux-dvb-apps/lib/libdvben50221/asn_1.c:26-83 | every 16-bit length is read back, with its size, whatever follows the field |
| Asn1.DecodeSound | bgt-linux-dvb-apps/lib/libdvben50221/asn_1.c:26-54 | a decoded field never runs past the data, no shorter field means the same length, and more data behind it changes nothing |
| Asn1.DecodeExactly | bgt-linux-dvb-apps/lib/libdvben50221/asn_1.c:26-54 | a length is read exactly where one octet below 0x80, or 0x81 and one, or 0x82 and two octets stand in front, and it is their value |
| TransportSafety.InvKept | bgt-linux-dvb-apps/lib/libdvben50221/en50221_transport.c:283-331 | the state invariant (five states, no chain outside the active ones, a chain as long as its length says, an empty queue in deletion, T_DELETE_T_C only last and only when a deletion is queued, connection 0 idle, unregistered slots idle and empty) is kept by every legal action |
| TransportSafety.FifoKept | bgt-linux-dvb-apps/lib/libdvben50221/en50221_transport.c:431-457 | messages attempted plus messages queued are the messages ever queued since the slot was last destroyed: kept by every legal action |
| TransportSafety.StopWaitKept | bgt-linux-dvb-apps/lib/libdvben50221/en50221_transport.c:430-486 | the host waits on a connection while a successful write on it is unanswered: kept by every legal action |
| TransportSafety.DeletionSafeKept | bgt-linux-dvb-apps/lib/libdvben50221/en50221_transport.c:727-778 | no T_DATA_LAST is attempted behind an attempted T_DELETE_T_C and before a T_CREATE_T_C: kept by every legal action |
| StackRuns.RunKeeps | bgt-linux-dvb-apps/lib/libdvben50221/en50221_transport.c:333-504 | the induction principle: what every legal action keeps is kept by every run of API calls, received packets, polls with any clock and any write results, and application callbacks |
| StackRuns.StateInvariant | bgt-linux-dvb-apps/lib/libdvben50221/en50221_transport.c:283-331 | every run of both layers from their creation keeps the state invariant |
| StackRuns.FirstInFirstOut | bgt-linux-dvb-apps/lib/libdvben50221/en50221_transport.c:1284-1296 | in every run, on each connection, the messages polling attempted followed by those still queued are exactly the messages queued since the slot was last destroyed, in order |
| StackRuns.StopAndWait | bgt-linux-dvb-apps/lib/libdvben50221/en50221_transport.c:430-486 | in every run, between a successful queued or poll write and the next attempt on the connection the module has answered on it or the slot was destroyed |
| StackRuns.NoDataAfterDelete | bgt-linux-dvb-apps/lib/libdvben50221/en50221_transport.c:727-778 | in every run, once T_DELETE_T_C has been attempted on a connection no T_DATA_LAST is attempted there before a T_CREATE_T_C |
| StackRuns.FailedDeleteStrands | bgt-linux-dvb-apps/lib/libdvben50221/en50221_transport.c:430-457 | with the deletion at the head of the queue, the next poll strands the connection (it waits for the reply with an empty queue and nothing written) exactly when it attempts the write, the host not waiting, and the write fails |
| StackRuns.StrandedForGood | bgt-linux-dvb-apps/lib/libdvben50221/en50221_transport.c:448-457 | in every run a connection so stranded stays stranded until its slot is destroyed |
| StackRuns.DeleteLocksExactly | bgt-linux-dvb-apps/lib/libdvben50221/en50221_transport.c:727-778 | an accepted deletion locks the connection (deletion queued, host waiting) exactly when the host was waiting on it at the call |
| StackRuns.DeleteAttemptedExactly | bgt-linux-dvb-apps/lib/libdvben50221/en50221_transport.c:430-457 | the next poll attempts an accepted deletion exactly when at the call the host was not waiting and no older message was queued |
| StackRuns.MessageInFrontLocks | bgt-linux-dvb-apps/lib/libdvben50221/en50221_transport.c:430-470 | with an older message in front of the deletion the next poll locks the connection exactly when the write of that message succeeds |
| StackRuns.SecondDeleteLocks | bgt-linux-dvb-apps/lib/libdvben50221/en50221_transport.c:748-778 | two deletions in a row on an open connection, the first one sent, lock it although every write succeeds |
| StackRuns.LockedRefuses | bgt-linux-dvb-apps/lib/libdvben50221/en50221_transport.c:488-504 | on a locked connection everything the module sends but a request for a connection is bad data, among it the answer waited for, and a poll does nothing or fails each time the wait has run out |
| StackRuns.LockedForGood | bgt-linux-dvb-apps/lib/libdvben50221/en50221_transport.c:430-504 | in every run a locked connection stays locked with the same queue until its slot is destroyed, or the host's written answer to a request for another connection that the module sends on this one |
| StackRuns.ReopenAnnounced | bgt-linux-dvb-apps/lib/libdvben50221/en50221_transport.c:681-725 | a connection opened again is announced by the next poll exactly when the host is not waiting on it and no older message stands in front |
| StackRuns.TimeoutLocksOut | bgt-linux-dvb-apps/lib/libdvben50221/en50221_transport.c:489-504 | a creation or deletion that times out leaves the host waiting on the idle connection, so that the poll after opening it again sends nothing |
| StackRuns.DeletionLocksOut | bgt-linux-dvb-apps/lib/libdvben50221/en50221_transport.c:1022-1040 | so does a deletion the module confirms: its answer is taken, the connection becomes idle with the host waiting, and the poll after opening it again sends nothing |
| StackRuns.LockedOutForGood | bgt-linux-dvb-apps/lib/libdvben50221/en50221_transport.c:430-504 | in every run polling attempts no message on a connection so left until its slot is destroyed, the module confirms a creation on it, or the host has written its answer to a request of the module there or a T_CREATE_T_C of its own accord |
| TransportLayer.TransportLayer.constructor | bgt-linux-dvb-apps/lib/libdvben50221/en50221_transport.c:136-205 | gives the state invariant, and equal to the specification on values: fields as after `en50221_tl_create` |
| TransportLayer.TransportLayer.RegisterSlot | bgt-linux-dvb-apps/lib/libdvben50221/en50221_transport.c:247-281 | keeps the state invariant, and equal to the specification on values: registers the first free slot, or fails without one |
| TransportLayer.TransportLayer.DestroySlot | bgt-linux-dvb-apps/lib/libdvben50221/en50221_transport.c:283-331 | keeps the state invariant, and equal to the specification on values: frees the slot and empties all its connections, and tells the upper layer once |
| TransportLayer.TransportLayer.BuildFrame | bgt-linux-dvb-apps/lib/libdvben50221/en50221_transport.c:562-585 | keeps the state invariant, and equal to the specification on values: the buffer filled octet by octet is tag, length, connection and data |
| TransportLayer.TransportLayer.SendData | bgt-linux-dvb-apps/lib/libdvben50221/en50221_transport.c:530-593 | keeps the state invariant, and equal to the specification on values: checks slot and connection, and queues the frame on an active connection or reports the error of the source |
| TransportLayer.TransportLayer.SendDataV | bgt-linux-dvb-apps/lib/libdvben50221/en50221_transport.c:595-679 | keeps the state invariant, and equal to the specification on values: a vector is queued as its concatenation would be |
| TransportLayer.TransportLayer.FindIdle | bgt-linux-dvb-apps/lib/libdvben50221/en50221_transport.c:1259-1282 | keeps the state invariant, and equal to the specification on values: the first idle connection from 1 on, or none |
| TransportLayer.TransportLayer.NewTc | bgt-linux-dvb-apps/lib/libdvben50221/en50221_transport.c:681-725 | keeps the state invariant, and equal to the specification on values: queues T_CREATE_T_C on the first idle connection, or fails |
| TransportLayer.TransportLayer.DelTc | bgt-linux-dvb-apps/lib/libdvben50221/en50221_transport.c:727-778 | keeps the state invariant, and equal to the specification on values: queues T_DELETE_T_C behind what is queued, or reports the error of the source |
| TransportLayer.TransportLayer.HandleCreateReply | bgt-linux-dvb-apps/lib/libdvben50221/en50221_transport.c:947-974 | keeps the state invariant, and equal to the specification on values: the connection in creation becomes active, anything else is bad data |
| TransportLayer.TransportLayer.HandleDelete | bgt-linux-dvb-apps/lib/libdvben50221/en50221_transport.c:976-1020 | keeps the state invariant, and equal to the specification on values: the connection becomes idle, its queue kept, and the reply is attempted |
| TransportLayer.TransportLayer.HandleDeleteReply | bgt-linux-dvb-apps/lib/libdvben50221/en50221_transport.c:1022-1040 | keeps the state invariant, and equal to the specification on values: the connection in deletion becomes idle and the wait is kept |
| TransportLayer.TransportLayer.HandleRequest | bgt-linux-dvb-apps/lib/libdvben50221/en50221_transport.c:1042-1104 | keeps the state invariant, and equal to the specification on values: offers an idle connection or refuses, with the states left by failing writes |
| TransportLayer.TransportLayer.HandleMore | bgt-linux-dvb-apps/lib/libdvben50221/en50221_transport.c:1106-1142 | keeps the state invariant, and equal to the specification on values: appends to the chain of the active connection |
| TransportLayer.TransportLayer.HandleLast | bgt-linux-dvb-apps/lib/libdvben50221/en50221_transport.c:1144-1211 | keeps the state invariant, and equal to the specification on values: hands up the chain and clears it, dropping it when the last piece is empty |
| TransportLayer.TransportLayer.HandleSb | bgt-linux-dvb-apps/lib/libdvben50221/en50221_transport.c:1213-1257 | keeps the state invariant, and equal to the specification on values: clears the wait and asks for data when the module has some |
| TransportLayer.TransportLayer.Handle | bgt-linux-dvb-apps/lib/libdvben50221/en50221_transport.c:832-945 | keeps the state invariant, and equal to the specification on values: dispatches on the tag |
| TransportLayer.TransportLayer.PollQueue | bgt-linux-dvb-apps/lib/libdvben50221/en50221_transport.c:430-472 | keeps the state invariant, and equal to the specification on values: attempts the head of the queue when nothing is awaited, and takes it off the queue even when the write fails |
| TransportLayer.TransportLayer.PollAsk | bgt-linux-dvb-apps/lib/libdvben50221/en50221_transport.c:474-486 | keeps the state invariant, and equal to the specification on values: asks an active connection for data when its time has come |
| TransportLayer.TransportLayer.PollTimeout | bgt-linux-dvb-apps/lib/libdvben50221/en50221_transport.c:488-504 | keeps the state invariant, and equal to the specification on values: puts a connection in creation or deletion back to idle after its time, or gives up |
| TransportLayer.TransportLayer.PollConns | bgt-linux-dvb-apps/lib/libdvben50221/en50221_transport.c:428-504 | keeps the state invariant, and equal to the specification on values: one pass over all connections of the slot |
| HostCalls.CreateExactly | bgt-linux-dvb-apps/lib/libdvben50221/en50221_transport.c:136-205 | new layers: no slot and no session is in use, whatever the freshly allocated table held, every connection is as new, and nothing was sent or told |
| HostCalls.RegisterExactly | bgt-linux-dvb-apps/lib/libdvben50221/en50221_transport.c:247-281 | a slot is found exactly when one is free; it is the first, its handle and CAM number are the only change, and otherwise the error is -11 |
| HostCalls.DestroyExactly | bgt-linux-dvb-apps/lib/libdvben50221/en50221_transport.c:283-331 | the slot is free, its connections are as new, the upper layer is told once, and nothing else changes |
| HostCalls.SendDataExactly | bgt-linux-dvb-apps/lib/libdvben50221/en50221_transport.c:530-593 | data is taken exactly on an active connection of a slot in use, whether the host waits on it or not; its queue is then the old one followed by the message, which reads back as 0xA0, the connection and the data; otherwise the error is -4 or -5 by the cause and nothing changes |
| HostCalls.NewTcExactly | bgt-linux-dvb-apps/lib/libdvben50221/en50221_transport.c:681-725 | a connection is opened exactly when the slot is in use and one from 1 on is idle: the first of these is put in creation with 0x82, 1 and its number behind its queue; otherwise the error is -4 or -10 |
| HostCalls.DelTcExactly | bgt-linux-dvb-apps/lib/libdvben50221/en50221_transport.c:727-778 | a deletion is taken exactly on an active connection or one in deletion, with 0x84, 1 and the number behind its queue; otherwise the error is -4, -5 or -6 and nothing changes |
| HostCalls.StepsTakeEffect | bgt-linux-dvb-apps/lib/libdvben50221/en50221_transport.c:247-778 | in a run the calls of the transport layer have these effects |
| Answers.StatusExactly | bgt-linux-dvb-apps/lib/libdvben50221/en50221_transport.c:1213-1257 | on an active connection the host answers a status of one octet with 0x81, 1 and the connection exactly when its top bit is set, and waits then exactly when that is written; with the bit clear it writes nothing and waits for nothing; any other status is bad data |
| Answers.CreateReplyExactly | bgt-linux-dvb-apps/lib/libdvben50221/en50221_transport.c:947-974 | a connection in creation becomes active and the wait ends, nothing is written, and the upper layer is told; in any other state it is bad data |
| Answers.DeleteExactly | bgt-linux-dvb-apps/lib/libdvben50221/en50221_transport.c:976-1020 | the module's deletion of an active connection or one in deletion is answered with 0x85, 1 and the connection, which is idle whether that is written or not; the upper layer is told exactly when it is |
| Answers.DeleteReplyExactly | bgt-linux-dvb-apps/lib/libdvben50221/en50221_transport.c:1022-1040 | a connection in deletion becomes idle, the wait kept, with nothing written and nothing told |
| Answers.DataExactly | bgt-linux-dvb-apps/lib/libdvben50221/en50221_transport.c:1106-1211 | a piece of a chain ends the wait on an active connection; the last one is told with what is held in front of it, unless it is empty; nothing is written |
| Answers.RequestRefused | bgt-linux-dvb-apps/lib/libdvben50221/en50221_transport.c:1042-1066 | with no idle connection from 1 on, a request is answered with 0x77, 2, the connection and 1, and the wait ends exactly when that is written |
| Answers.RequestGranted | bgt-linux-dvb-apps/lib/libdvben50221/en50221_transport.c:1067-1104 | otherwise the first idle one is offered with 0x87, 2 and both numbers on the connection of the request and then announced with 0x82, 1 and its number on itself; what each of the two writes changes, and that nothing else does |
| Answers.OtherTagsBad | bgt-linux-dvb-apps/lib/libdvben50221/en50221_transport.c:930-936 | a TPDU with any other tag is bad data |
| Polling.PollRests | bgt-linux-dvb-apps/lib/libdvben50221/en50221_transport.c:428-504 | when neither a message nor a poll is due on a connection nothing is written, and nothing changes but a wait that is over |
| Polling.PollSends | bgt-linux-dvb-apps/lib/libdvben50221/en50221_transport.c:430-504 | when one is due that packet is attempted and no other: the head of the queue, which is gone even when the write fails, or 0xA0, 1 and the connection, after which the host waits in any case |
| Polling.PollConnsServe | bgt-linux-dvb-apps/lib/libdvben50221/en50221_transport.c:428-504 | a poll of a slot sends every connection what is due on it, once, in their order, and nothing else; only an error ends it early |
| Receiving.ParseExactly | bgt-linux-dvb-apps/lib/libdvben50221/en50221_transport.c:848-873 | a TPDU is found exactly when its tag, a length field, the connection and the data announced stand at the front of the packet |
| Receiving.BadPacketRefused | bgt-linux-dvb-apps/lib/libdvben50221/en50221_transport.c:848-869 | a packet that does not begin with a TPDU is bad data and changes nothing else; an empty one is no error |
| Receiving.BadConnectionRefused | bgt-linux-dvb-apps/lib/libdvben50221/en50221_transport.c:875-883 | a TPDU for a connection that does not exist is refused with error -5 |
| Receiving.ProcessOne | bgt-linux-dvb-apps/lib/libdvben50221/en50221_transport.c:832-945 | the TPDU in front is handled, what it tells is handed on, and then comes the rest, unless it failed |
| Receiving.RouteExactly | bgt-linux-dvb-apps/lib/libdvben50221/en50221_transport.c:389-396 | a packet is for the first slot of the device with its CAM number |
| Receiving.ReadExactly | bgt-linux-dvb-apps/lib/libdvben50221/en50221_transport.c:357-423 | what is read goes to the slot polled, or to the first of its device with the CAM number; failures and packets for no slot are reported |
| Receiving.PollSlotExactly | bgt-linux-dvb-apps/lib/libdvben50221/en50221_transport.c:333-509 | a slot in use is read and then its connections are polled, up to an error; a free one is passed over |
| Receiving.PollExactly | bgt-linux-dvb-apps/lib/libdvben50221/en50221_transport.c:357-509 | a poll takes every slot in turn, each as the one before left the layers, up to the first that fails, whose error it returns; a failure to wait is noted for no slot |
| SessionLayer.SessionLayer.constructor | bgt-linux-dvb-apps/lib/libdvben50221/en50221_session.c:107-149 | gives the agreement of sessions and slots, and equal to the specification on values: all sessions free |
| SessionLayer.SessionLayer.FindFree | bgt-linux-dvb-apps/lib/libdvben50221/en50221_session.c:1026-1055 | keeps the agreement of sessions and slots, and equal to the specification on values: the first free session from 1 on |
| SessionLayer.SessionLayer.CreateSession | bgt-linux-dvb-apps/lib/libdvben50221/en50221_session.c:195-236 | keeps the agreement of sessions and slots, and equal to the specification on values: takes a session, queues the request, frees it again when that fails |
| SessionLayer.SessionLayer.DestroySession | bgt-linux-dvb-apps/lib/libdvben50221/en50221_session.c:238-278 | keeps the agreement of sessions and slots, and equal to the specification on values: queues the close request for an open session, or reports the error |
| SessionLayer.SessionLayer.SendData | bgt-linux-dvb-apps/lib/libdvben50221/en50221_session.c:280-318 | keeps the agreement of sessions and slots, and equal to the specification on values: queues the SPDU of an open session on its own connection |
| SessionLayer.SessionLayer.SendDataV | bgt-linux-dvb-apps/lib/libdvben50221/en50221_session.c:320-364 | keeps the agreement of sessions and slots, and equal to the specification on values: a vector is queued as its concatenation would be |
| SessionLayer.SessionLayer.BroadcastData | bgt-linux-dvb-apps/lib/libdvben50221/en50221_session.c:366-396 | keeps the agreement of sessions and slots, and equal to the specification on values: queues the data on every open session of the resource, in one slot or in all |
| SessionLayer.SessionLayer.HandleOpenRequest | bgt-linux-dvb-apps/lib/libdvben50221/en50221_session.c:398-539 | keeps the agreement of sessions and slots, and equal to the specification on values: every outcome of a module's open request: refused, no session left, busy, unavailable, open, response not queued |
| SessionLayer.SessionLayer.HandleCloseRequest | bgt-linux-dvb-apps/lib/libdvben50221/en50221_session.c:541-625 | keeps the agreement of sessions and slots, and equal to the specification on values: frees the session when slot, connection and state fit, and answers |
| SessionLayer.SessionLayer.HandleCreateResponse | bgt-linux-dvb-apps/lib/libdvben50221/en50221_session.c:627-709 | keeps the agreement of sessions and slots, and equal to the specification on values: the response with the offsets the code uses |
| SessionLayer.SessionLayer.HandleCloseResponse | bgt-linux-dvb-apps/lib/libdvben50221/en50221_session.c:711-769 | keeps the agreement of sessions and slots, and equal to the specification on values: the response with the length the code expects |
| SessionLayer.SessionLayer.HandlePackage | bgt-linux-dvb-apps/lib/libdvben50221/en50221_session.c:771-867 | keeps the agreement of sessions and slots, and equal to the specification on values: hands every APDU of the SPDU to the session callback |
| SessionLayer.SessionLayer.CloseSessions | bgt-linux-dvb-apps/lib/libdvben50221/en50221_session.c:912-971 | keeps the agreement of sessions and slots, and equal to the specification on values: frees every session that goes, announcing each |
| SessionLayer.SessionLayer.TransportCallback | bgt-linux-dvb-apps/lib/libdvben50221/en50221_session.c:869-1024 | keeps the agreement of sessions and slots, and equal to the specification on values: dispatches what the transport layer tells |
| HostCalls.SendSessionExactly | bgt-linux-dvb-apps/lib/libdvben50221/en50221_session.c:280-318 | data is taken exactly on a session open on an active connection, whatever the host waits for; the message queued is 0x90, 2, the session number, high octet first, and the data, and the session can send again; otherwise the error is that of the cause and nothing changes |
| HostCalls.SendVectorExactly | bgt-linux-dvb-apps/lib/libdvben50221/en50221_session.c:320-364 | a vector of at most nine parts is taken as its concatenation would be, a longer one refused |
| HostCalls.SendAllTaken | bgt-linux-dvb-apps/lib/libdvben50221/en50221_session.c:280-364 | so on such a session any list of SPDUs is taken, one after the other |
| HostCalls.SendAllIsRun | bgt-linux-dvb-apps/lib/libdvben50221/en50221_session.c:320-364 | sending them is a run of such calls |
| HostCalls.CreateSessionExactly | bgt-linux-dvb-apps/lib/libdvben50221/en50221_session.c:195-236 | a session is asked for exactly when one is free and the connection is active: it is the first free one from 1 on, and the request reads back as its number and the resource; otherwise no session is in use that was not, and the error is that of the cause |
| HostCalls.DestroySessionExactly | bgt-linux-dvb-apps/lib/libdvben50221/en50221_session.c:238-278 | an open session or one being closed on an active connection is being closed afterwards, with 0x95, 2 and its number queued; when that cannot be queued it is free, and any other is refused |
| HostCalls.BroadcastExactly | bgt-linux-dvb-apps/lib/libdvben50221/en50221_session.c:366-396 | each connection's queue gains just the data for the open sessions of the resource on it, in the slot named or in all, one message each and in their order |
| Opening.ResponseReads | bgt-linux-dvb-apps/lib/libdvben50221/en50221_session.c:485-497 | read as a module reads it, the response has the status, resource and session number it was made for |
| Opening.OpenExactly | bgt-linux-dvb-apps/lib/libdvben50221/en50221_session.c:398-539 | for every request to open and every outcome of lookup and callback: the answer queued on the connection, if that is active, has the status for its cause, the resource and the number of the first free session; the session is open exactly when the lookup gives 0, one is free, a callback exists and does not object and the answer was queued, and otherwise none is in use that was not |
| Opening.OpenedServes | bgt-linux-dvb-apps/lib/libdvben50221/en50221_session.c:398-539 | end to end: an SPDU with the number read from the response, on the same connection, hands its APDUs to the session just opened, and to no other |
| Opening.CloseRequestExactly | bgt-linux-dvb-apps/lib/libdvben50221/en50221_session.c:541-625 | a request to close ends exactly the session of its number that is open or being closed on this slot and connection, with the callback told; the answer is 0x96, 3, the status and the number |
| Opening.CreateResponseExactly | bgt-linux-dvb-apps/lib/libdvben50221/en50221_session.c:627-709 | the number is read one octet before its place; a session waiting there is open when the status is 0 and free otherwise, with the callback told which |
| Opening.CloseResponseExactly | bgt-linux-dvb-apps/lib/libdvben50221/en50221_session.c:711-769 | the number read likewise: a session being closed there is free |
| Opening.OthersIgnored | bgt-linux-dvb-apps/lib/libdvben50221/en50221_session.c:974-1024 | an SPDU with another tag, or without the octets it needs, changes nothing |
| Opening.StrayDataIgnored | bgt-linux-dvb-apps/lib/libdvben50221/en50221_session.c:771-867 | nor does data for a session that is not open on this connection or has no callback |
| SessionLayer.SessionLayer.ProcessData | bgt-linux-dvb-apps/lib/libdvben50221/en50221_transport.c:832-945 | keeps the agreement of sessions and slots: the receive loop over all TPDUs of a packet, with the callbacks it causes |
| SessionLayer.SessionLayer.Poll | bgt-linux-dvb-apps/lib/libdvben50221/en50221_transport.c:333-509 | keeps the agreement of sessions and slots: the poll loop over all slots: receive, queue, ask, time out, with the error of the first failing one |
| SessionSafety.DestroyClosesItsSessions | bgt-linux-dvb-apps/lib/libdvben50221/en50221_transport.c:283-331 | destroying a slot frees exactly its sessions, announces each end exactly once and changes no other session |
| SessionSafety.ConnectionCloseExactly | bgt-linux-dvb-apps/lib/libdvben50221/en50221_session.c:912-941 | the end of a connection frees exactly the sessions in use on connections of its number, in whatever slot, and announces each once |
| SessionSafety.OpeningAnnounced | bgt-linux-dvb-apps/lib/libdvben50221/en50221_session.c:885-910 | a connection opened is announced to the callback, told apart by who opened it, and changes no session |
| SessionSafety.ConnectionCloseSparesOthers | bgt-linux-dvb-apps/lib/libdvben50221/en50221_session.c:912-941 | the end of a connection leaves the other slots' sessions alone exactly when none of them in use has the same connection id |
| SessionSafety.ConnectionCloseReachesOtherSlots | bgt-linux-dvb-apps/lib/libdvben50221/en50221_session.c:912-941 | two modules for which it does not |
| SessionSafety.SessionsAgree | bgt-linux-dvb-apps/lib/libdvben50221/en50221_session.c:869-1024 | in every run each session in use is bound to an existing connection of a registered slot, and session 0 is never used |
| SessionSafety.NewStackAgrees | bgt-linux-dvb-apps/lib/libdvben50221/en50221_session.c:107-149 | the same from the creation of both layers on, whatever the freshly allocated table held |
| SessionConnections.OrphansExactly | bgt-linux-dvb-apps/lib/libdvben50221/en50221_session.c:869-941 | where every session in use is on a connection that was opened and not ended, an action, with what it tells handed on, leaves one that is not exactly when it is a confirmed deletion, a deletion timed out, or a deletion by the module whose answer is not written, on a connection with a session in use |
| SessionConnections.SessionsTied | bgt-linux-dvb-apps/lib/libdvben50221/en50221_session.c:869-941 | in every run of new layers a session in use is on a connection that was opened and not ended, or one of these three actions was taken on its connection |
| SessionConnections.ConfirmedDeletionOrphans | bgt-linux-dvb-apps/lib/libdvben50221/en50221_transport.c:1022-1040 | the commonest: the connection is idle and the session table unchanged |
| Delivery.ParseFrame | bgt-linux-dvb-apps/lib/libdvben50221/en50221_transport.c:832-945 | a framed TPDU is parsed back, with its connection, tag and data, whatever follows |
| Delivery.SplitFlatten | bgt-linux-dvb-apps/lib/libdvben50221/en50221_session.c:795-866 | APDUs put together are split into the same APDUs |
| Delivery.BuiltApdu | bgt-linux-dvb-apps/lib/libdvben50221/en50221_session.c:795-866 | every APDU built with the length field above is one the split accepts |
| Delivery.SpduDelivers | bgt-linux-dvb-apps/lib/libdvben50221/en50221_session.c:771-867 | an SPDU with APDUs of session n hands exactly these to session n and nothing to others, and changes nothing else |
| Delivery.SpduGives | bgt-linux-dvb-apps/lib/libdvben50221/en50221_session.c:398-867 | whatever SPDU arrives on whatever connection, a session is handed exactly the APDUs in it for the session, if it comes on its own connection, and is closed exactly by a close request for it there |
| Delivery.CallbackGives | bgt-linux-dvb-apps/lib/libdvben50221/en50221_session.c:869-1024 | whatever the session layer is told, a session survives exactly what does not end it (its slot, a connection of its number in whatever slot, a close request for it), and is handed exactly its APDUs |
| Reassembly.ChainsKept | bgt-linux-dvb-apps/lib/libdvben50221/en50221_transport.c:1106-1211 | what is handed up from a connection are the chains taken there, a chain with an empty last piece left out and one cut short by the end of the connection dropped, and what it holds is left over: kept by every legal action |
| Reassembly.RunChains | bgt-linux-dvb-apps/lib/libdvben50221/en50221_transport.c:1106-1211 | the same in every run, from any moment on |
| RunDelivery.RunDelivers | bgt-linux-dvb-apps/lib/libdvben50221/en50221_transport.c:333-509 | in every run, with any calls of the host and any octets from any module, a session that is not ended serves on and has been handed exactly the APDUs for it in the chains its connection took, in order |
| ConnectionMoves.TpduMoves | bgt-linux-dvb-apps/lib/libdvben50221/en50221_transport.c:832-945 | any TPDU on any connection of any slot, but the end of a connection of this number, leaves an active connection active, and it takes exactly the piece of a chain sent on it |
| ConnectionMoves.ProcessMoves | bgt-linux-dvb-apps/lib/libdvben50221/en50221_transport.c:832-945 | a packet, accepted or not, moves the connection by its pieces up to the first TPDU refused, and by none when it is for another slot |
| PacketDelivery.PacketDelivers | bgt-linux-dvb-apps/lib/libdvben50221/en50221_transport.c:832-945 | an accepted packet hands a session exactly the APDUs in the chains it completes on the session's connection, with any statuses, requests, SPDUs of other sessions and TPDUs of other connections between them, and leaves the rest of the last chain held |
| PacketDelivery.OwnPacketAccepted | bgt-linux-dvb-apps/lib/libdvben50221/en50221_transport.c:832-945 | a packet of an active connection with pieces of chains, statuses and requests is accepted, when the answers to requests and to statuses that say there is data are written |
| Delivery.SendAllQueues | bgt-linux-dvb-apps/lib/libdvben50221/en50221_session.c:280-364 | SPDUs sent on a session are queued one after the other, each as one message on the session's own connection, behind what is queued |
| PacketDelivery.VisitsDeliver | bgt-linux-dvb-apps/lib/libdvben50221/en50221_transport.c:333-509 | the same over any sequence of polled slots and calls of the host, with packets read for the slot from whatever slot of its device, the host's own writes and timers, and whatever other modules send short of the end of a connection of the same number, as long as what is read for the slot is accepted |
| PacketDelivery.PollIsVisits | bgt-linux-dvb-apps/lib/libdvben50221/en50221_transport.c:333-509 | a poll is such a sequence: every slot in turn, or up to the first that fails |
| PacketDelivery.OwnVisitsAccepted | bgt-linux-dvb-apps/lib/libdvben50221/en50221_transport.c:333-509 | when only TPDUs as above are read for the slot, everything read for it is accepted |
| PacketDelivery.EmptyLastDropsChain | bgt-linux-dvb-apps/lib/libdvben50221/en50221_transport.c:1199-1211 | the APDUs of a chain are delivered exactly when its last piece is not empty |
| PacketDelivery.EndToEnd | bgt-linux-dvb-apps/lib/libdvben50221/en50221_session.c:280-364 | on a session open on an active connection `en50221_sl_send_data` takes any list of SPDUs and queues just these; and what was queued, read by another host in any such sequence and with anything for other sessions in between, reaches its session callback as exactly the APDUs sent, in order |
| PacketDelivery.MessagesAsPackets | bgt-linux-dvb-apps/lib/libdvben50221/en50221_transport.c:430-457 | the messages queued, with statuses between them, are accepted TPDUs that carry just these SPDUs |
| PacketDelivery.MessageIsPacket | bgt-linux-dvb-apps/lib/libdvben50221/en50221_transport.c:430-457 | each message is the TPDU as it lies in a packet |
| PageCache.MergeRepairs | bgt-linux-dvb-apps/util/alevt/cache.c:16-33 | error reduction: one merge marks a character bad only if both receptions of the line did, and never replaces a good character just received |
| PageCache.MergedIsBest | bgt-linux-dvb-apps/util/alevt/cache.c:16-33 | after any list of receptions each character of a line received is the latest one received good, bad ones being counted as errors |
| PageCache.BestIsBad | bgt-linux-dvb-apps/util/alevt/cache.c:16-33 | and it is bad exactly if every reception of its line had it bad |
| PageCache.PutInv | bgt-linux-dvb-apps/util/alevt/cache.c:92-121 | put keeps the index invariant: every page in its own bucket, no duplicate keys, the side table above every cached subpage and no higher than needed for a page |
| PageCache.GetInv | bgt-linux-dvb-apps/util/alevt/cache.c:72-86 | get keeps it |
| PageCache.ResetInv | bgt-linux-dvb-apps/util/alevt/cache.c:52-66 | reset keeps it |
| CacheModel.PutRefines | bgt-linux-dvb-apps/util/alevt/cache.c:92-121 | put stores the page (merged, in error reduction mode) under its key in the map, and makes it the newest subpage |
| CacheModel.GetRefines | bgt-linux-dvb-apps/util/alevt/cache.c:72-86 | get finds the page under the key, or for the wildcard the subpage put or got last, and makes it the newest |
| CacheModel.ResetRefines | bgt-linux-dvb-apps/util/alevt/cache.c:52-66 | reset keeps exactly the 0x9xx pages |
| CacheModel.PagesCounted | bgt-linux-dvb-apps/util/alevt/cache.c:92-121 | `npages` is the number of keys of the map |
| CacheModel.RunRefines | bgt-linux-dvb-apps/util/alevt/cache.c:52-136 | every run of put, get, reset and mode changes is a run of the map operations |
| CacheModel.RunsFromEmpty | bgt-linux-dvb-apps/util/alevt/cache.c:52-136 | every run of a cache just opened is a run of the map operations from the empty map, and counts its pages |
| CacheModel.WildcardsInModel | bgt-linux-dvb-apps/util/alevt/cache.c:126-136 | every cached subpage numbered like the wildcard is found first exactly when the map has it as the newest of its page |
| CacheModel.RunReceived | bgt-linux-dvb-apps/util/alevt/vbi.c:126 | in every run with subpage numbers as received no cached subpage lies above the wildcard |
| CacheModel.RunReliableExactly | bgt-linux-dvb-apps/util/alevt/cache.c:139-174 | after every such run null of the walk can be relied on for every callback exactly when on the map every subpage with the wildcard's number is the newest |
| CacheWalk.TurnKeepsGoal | bgt-linux-dvb-apps/util/alevt/cache.c:155-163 | skipping a page without positions does not change the cached position the walk heads for |
| CacheWalk.LookupExact | bgt-linux-dvb-apps/util/alevt/cache.c:126-136 | below the wildcard a lookup finds exactly the page with the key |
| CacheWalk.WalkEnds | bgt-linux-dvb-apps/util/alevt/cache.c:153-173 | for every cache with a page the walk ends within two rounds: with a cached page the callback accepted, offered last, or back at the page offered first with none accepted |
| CacheWalk.WalkRight | bgt-linux-dvb-apps/util/alevt/cache.c:153-173 | with wildcard subpages newest, the walk offers pages in walk order, each at most once and none left out, up to the one taken or all of them |
| CacheWalk.ReliableExactly | bgt-linux-dvb-apps/util/alevt/cache.c:139-174 | null means for every callback that no cached page satisfies it exactly when every cached subpage numbered like the wildcard is the newest of its page |
| CacheWalk.NeverReturned | bgt-linux-dvb-apps/util/alevt/cache.c:126-174 | a subpage numbered like the wildcard that is not the newest of its page is never returned |
| CacheWalk.WildcardMissed | bgt-linux-dvb-apps/util/alevt/cache.c:92-174 | two puts after which a cached page is found by no walk |
| CacheWalk.SkippingEnds | bgt-linux-dvb-apps/util/alevt/cache.c:155-163 | the inner loop ends exactly when some page from 0x100 to 0x9ff has a position, which the index invariant gives for every cache with a page |
| CacheOrder.ForeachNearest | bgt-linux-dvb-apps/util/alevt/cache.c:139-174 | with wildcard subpages newest, a walk offers the cached pages from the place asked for (with the wildcard the subpage put or got last) in page order with wrap-around, the nearest first, and returns the nearest one the callback wants, or null when none is wanted |
| CacheOrder.StoodOnComesLast | bgt-linux-dvb-apps/util/alevt/cache.c:147-173 | a cached page the walk begins at is returned exactly when the callback wants it and no other |
| CacheOrder.BeginsAtNewest | bgt-linux-dvb-apps/util/alevt/cache.c:147-148 | on the map: with the wildcard a walk begins at the subpage put or got last |
| CacheOrder.AboveSkipsPage | bgt-linux-dvb-apps/util/alevt/cache.c:150-163 | downwards from above every subpage of a page the walk goes on to the next lower page at once, and returns a subpage of this one only if no other page is wanted |
| CacheTable.DoErc | bgt-linux-dvb-apps/util/alevt/cache.c:16-33 | the loop over rows and columns computes the merge |
| CacheTable.CacheTable.Put | bgt-linux-dvb-apps/util/alevt/cache.c:92-121 | equal to the specification on values: put on the table |
| CacheTable.CacheTable.Get | bgt-linux-dvb-apps/util/alevt/cache.c:72-86 | equal to the specification on values: get on the table |
| CacheTable.CacheTable.Lookup | bgt-linux-dvb-apps/util/alevt/cache.c:126-136 | equal to the specification on values: lookup on the table, which moves nothing |
| CacheTable.CacheTable.Reset | bgt-linux-dvb-apps/util/alevt/cache.c:52-66 | equal to the specification on values: reset: list after list, counter and side table |
| CacheTable.CacheTable.Skip | bgt-linux-dvb-apps/util/alevt/cache.c:155-163 | equal to the specification on values: the inner loop ends at a cached position's place in the walk |
| CacheTable.CacheTable.ForeachPg | bgt-linux-dvb-apps/util/alevt/cache.c:139-174 | terminates for every cache; a page returned is cached and satisfies the callback; with wildcard subpages newest null exactly when no cached page satisfies it, the page returned is the nearest one to the place asked for that does, and pages are offered from the nearest on, each at most once; in every case equal to the specification |
| DlList.DlHead.constructor | bgt-linux-dvb-apps/util/alevt/dllist.h:20-26 | by relinking nodes: an empty list |
| DlList.DlHead.IsEmpty | bgt-linux-dvb-apps/util/alevt/dllist.h:47 | by relinking nodes: tells whether the list is empty |
| DlList.DlHead.Remove | bgt-linux-dvb-apps/util/alevt/dllist.h:29-34 | by relinking nodes: takes out exactly that node |
| DlList.DlHead.InsertAfter | bgt-linux-dvb-apps/util/alevt/dllist.h:37-45 | by relinking nodes: puts the node exactly there |
| DlList.DlHead.InsertFirst | bgt-linux-dvb-apps/util/alevt/dllist.h:49-50 | by relinking nodes: puts it in front |
| DlList.DlHead.InsertLast | bgt-linux-dvb-apps/util/alevt/dllist.h:51-52 | by relinking nodes: puts it at the end |
| DlList.DlHead.MoveToFront | bgt-linux-dvb-apps/util/alevt/dllist.h:49-50 | by relinking nodes: moves a node to the front, the others keeping their order |
| DlList.DlHead.Walk | bgt-linux-dvb-apps/util/alevt/cache.c:77-84 | the walk over `next` pointers visits exactly the nodes of the list, in order |
| SectionBuffer.SectionBuffer.constructor | bgt-linux-dvb-apps/lib/libucsi/section_buf.c:28-39 | counters, flags and the octets copied, never more than the maximum, equal to the specification on values: an empty buffer that waits for a unit |
| SectionBuffer.SectionBuffer.Add | bgt-linux-dvb-apps/lib/libucsi/section_buf.c:41-110 | counters, flags and the octets copied, never more than the maximum, equal to the specification on values: `section_buf_add` |
| SectionBuffer.SectionBuffer.AddTransportPayload | bgt-linux-dvb-apps/lib/libucsi/section_buf.c:112-173 | counters, flags and the octets copied, never more than the maximum, equal to the specification on values: `section_buf_add_transport_payload` |
| SectionBuffer.SectionBuffer.DrainFragment | bgt-linux-dvb-apps/lib/libucsi/section_buf.c:41-110 | counters, flags and the octets copied, never more than the maximum, equal to the specification on values: feeding the rest of a fragment after each section |
| SectionBuffer.SectionBuffer.FeedPayload | bgt-linux-dvb-apps/test/libucsi/testucsi.c:264-285 | the loop that feeds what is left of a payload, equal to the specification on values |
| SectionBuf.AddIsPush | bgt-linux-dvb-apps/lib/libucsi/section_buf.c:41-110 | a call on a fragment is the same as an octet by octet machine up to the point where it stops |
| SectionBuf.CutsDoNotMatter | bgt-linux-dvb-apps/lib/libucsi/section_buf.c:41-110 | however a stream is cut, the sections found and the state reached are those of the whole stream |
| SectionBuf.SectionsSurvive | bgt-linux-dvb-apps/lib/libucsi/section_buf.c:41-110 | any list of fitting sections, with any 0xff padding between them and any cuts, comes out as exactly that list |
| SectionBuf.PointerMustFit | bgt-linux-dvb-apps/lib/libucsi/section_buf.c:144-159 | at a unit start with a section begun the status is complete exactly when the octets before the pointer's target complete it and it fits; otherwise an error, and the buffer waits for the next unit |
| SectionBuf.StartPayload | bgt-linux-dvb-apps/lib/libucsi/section_buf.c:112-173 | the payload that starts a unit takes the section up to its end and no further |
| SectionBuf.PlainPayload | bgt-linux-dvb-apps/lib/libucsi/section_buf.c:112-173 | so does a payload in the middle |
| SectionBuf.EndBeforePointer | bgt-linux-dvb-apps/lib/libucsi/section_buf.c:144-159 | a section that ends before the pointer's target of the next unit is rebuilt |
| SectionBuf.SpreadSection | bgt-linux-dvb-apps/lib/libucsi/section_buf.c:112-173 | a section spread over a unit start and any plain payloads is rebuilt exactly, and the octets behind it are left |
| SectionPayloads.FeedIsPush | bgt-linux-dvb-apps/test/libucsi/testucsi.c:264-285 | feeding one payload, whether a section starts in it or not, does what its octets do one by one, the pointer field left out |
| SectionPayloads.FeedAllIsPush | bgt-linux-dvb-apps/test/libucsi/testucsi.c:264-285 | so do any number of payloads |
| SectionPayloads.PayloadsSurvive | bgt-linux-dvb-apps/test/libucsi/testucsi.c:264-285 | any list of fitting sections with any 0xff padding, cut into any payloads, several sections in one or several payloads for one, with the pointers where sections start, comes out as exactly that list, whatever a late receiver sees before the first start |
| SectionErrors.NewSectionReports | bgt-linux-dvb-apps/lib/libucsi/section_buf.c:41-110 | on an empty buffer 0xff is passed over, and the twelve low bits of the second and third octet behind it say how long the section is: complete when it is all there, too large at once when it does not fit, and kept otherwise |
| SectionErrors.AddReports | bgt-linux-dvb-apps/lib/libucsi/section_buf.c:41-110 | a call reports what the buffer it leaves shows, and consumes everything unless a section is complete |
| SectionErrors.PlainReports | bgt-linux-dvb-apps/lib/libucsi/section_buf.c:112-173 | a payload without a unit start is passed over while the buffer waits for one; otherwise it is taken like a fragment, and the buffer waits exactly when the section is too large |
| SectionErrors.BadPointerRefused | bgt-linux-dvb-apps/lib/libucsi/section_buf.c:136-142 | a pointer past the end of the payload is an error, everything is consumed, and the buffer waits for the next unit |
| SectionErrors.FreshStartReports | bgt-linux-dvb-apps/lib/libucsi/section_buf.c:161-173 | with nothing held the octets from the pointer's target on are taken |
| SectionErrors.HeldStartReports | bgt-linux-dvb-apps/lib/libucsi/section_buf.c:144-159 | with a section held only the octets in front of the target are taken; they must complete it, or the buffer waits for the next unit |
| SectionErrors.OversizeDropped | bgt-linux-dvb-apps/lib/libucsi/section_buf.c:161-173 | after an oversize section nothing is taken before the next unit start, from which on sections come out as from a new buffer |
| Crc32.TableIsRegister | bgt-linux-dvb-apps/lib/libucsi/crc32.c:23-89 | all 256 constants are what eight shifts with polynomial 0x04c11db7 make of their index |
| Crc32.RegisterSplits | bgt-linux-dvb-apps/lib/libucsi/crc32.h:48-50 | eight shifts leave the register shifted up, plus what its top octet and the message octet leave in an empty register |
| Crc32.StepIsRegister | bgt-linux-dvb-apps/lib/libucsi/crc32.h:48-50 | one turn of the table loop is eight shifts of the register |
| Crc32.CrcIsRegister | bgt-linux-dvb-apps/lib/libucsi/crc32.h:43-53 | the table loop equals the bit-at-a-time register for every start value and every message |
| Crc32.Crc32 | bgt-linux-dvb-apps/lib/libucsi/crc32.h:43-53 | the loop over the array computes that value |
| Crc32.CrcAppend | bgt-linux-dvb-apps/lib/libucsi/crc32.h:43-53 | the value of a concatenation is that of the second part started with that of the first |
| CrcBursts.IndexFound | bgt-linux-dvb-apps/lib/libucsi/crc32.c:23-89 | the low octet of a constant determines its index |
| CrcBursts.StepInjective | bgt-linux-dvb-apps/lib/libucsi/crc32.h:48-50 | different register values stay different under any octet |
| CrcBursts.WindowBack | bgt-linux-dvb-apps/lib/libucsi/crc32.h:48-50 | up to four octets can be read back off the low octets of the register |
| CrcBursts.BurstsAreSeen | bgt-linux-dvb-apps/lib/libucsi/crc32.h:43-53 | messages of any length that differ only inside four consecutive octets have the same value exactly if they are equal |
| CrcBursts.CheckIsZero | bgt-linux-dvb-apps/lib/libucsi/section.h:140-146 | a message followed by four octets has value zero exactly if these are its own value, high octet first |
| CrcBits.CrcIsBits | bgt-linux-dvb-apps/lib/libucsi/crc32.h:43-53 | the table loop equals the register fed with the message bit by bit, over the bits of the whole message |
| CrcBits.BitsBack | bgt-linux-dvb-apps/lib/libucsi/crc32.h:48-50 | up to 32 bits can be read back off the register |
| CrcBits.BitBurstsAreSeen | bgt-linux-dvb-apps/lib/libucsi/crc32.h:43-53 | messages of any length whose bits differ only inside 32 consecutive ones, wherever these begin, have the same value exactly if they are equal |
| Sections.Codec | bgt-linux-dvb-apps/lib/libucsi/section.h:108-121 | in place on the array: swaps the length octets, and accepts exactly when the length announced is the length given |
| Sections.CheckCrc | bgt-linux-dvb-apps/lib/libucsi/section.h:130-147 | in place on the array: tells whether the check is right and leaves every octet as it was |
| Sections.DecodeExt | bgt-linux-dvb-apps/lib/libucsi/section.h:157-171 | in place on the array: equal to the specification on values |
| Sections.EncodeExt | bgt-linux-dvb-apps/lib/libucsi/section.h:180-204 | in place on the array: equal to the specification on values |
| Sections.RoundTrip | bgt-linux-dvb-apps/lib/libucsi/section.h:157-204 | encoding with the check and decoding with it succeed for every section of length 6 or more and restore every octet but the last four of the section, which hold the check |
| Sections.CheckExact | bgt-linux-dvb-apps/lib/libucsi/section.h:130-147 | the check passes exactly if the last four octets are the value of those before, high octet first |
| Sections.BurstRejected | bgt-linux-dvb-apps/lib/libucsi/section.h:130-171 | a good section changed inside four consecutive octets, its length still reading the same, is rejected |
| Sections.BitBurstRejected | bgt-linux-dvb-apps/lib/libucsi/section.h:130-171 | so is one changed inside 32 consecutive bits |
| SectionOctets.HeaderDecoded | bgt-linux-dvb-apps/lib/libucsi/section.h:108-121 | decoding the header turns the second and third octet sent into a word of the host, whose low twelve bits are the length and whose top bit is the syntax indicator |
| SectionOctets.ExtDecoded | bgt-linux-dvb-apps/lib/libucsi/section.h:157-171 | decoding the extension succeeds exactly when the indicator is set and, if asked for, the check over the section as sent is zero; then the table id extension is a word of the host, and otherwise nothing changes |
| SectionOctets.ExtEncoded | bgt-linux-dvb-apps/lib/libucsi/section.h:180-204 | encoding it succeeds exactly when the indicator is set; with the update the last four octets hold the check over the octets as sent |
| PsiTable.TableState.Reset | bgt-linux-dvb-apps/lib/libucsi/section.h:211-214 | only the version is reset |
| PsiTable.TableState.ExtUseful | bgt-linux-dvb-apps/lib/libucsi/section.h:223-247 | equal to the specification on values |
| PsiTable.TablesInOrder | bgt-linux-dvb-apps/lib/libucsi/section.h:223-247 | in every run after a reset the useful sections of a table are its sections 0, 1, 2 ... without gap or repetition, and it is complete exactly when the last of them is the last it has |
| PsiTable.UsefulExactly | bgt-linux-dvb-apps/lib/libucsi/section.h:223-247 | in every such run, over any changes of version, the next section is useful exactly if it has the number that is missing, 0 for another version than the one collected, and the table is not complete; only then is it marked as the beginning of a table or not, and otherwise nothing changes |
| PsiTable.CarouselCompletes | bgt-linux-dvb-apps/lib/libucsi/section.h:223-247 | of one table all sections that come in their turn are taken, and it is complete exactly when all have come |
| CaPmt.ExtractDescriptors | bgt-linux-dvb-apps/lib/libdvben50221/en50221_app_ca.c:316-356 | the list holds exactly the CA descriptors, in order |
| CaPmt.ExtractStreams | bgt-linux-dvb-apps/lib/libdvben50221/en50221_app_ca.c:358-437 | so for every stream |
| CaPmt.TryMove | bgt-linux-dvb-apps/lib/libdvben50221/en50221_app_ca.c:439-497 | the descriptors are moved exactly when all streams have the same ones |
| CaPmt.CalculateLength | bgt-linux-dvb-apps/lib/libdvben50221/en50221_app_ca.c:499-544 | the sums, and the length left in every stream |
| CaPmt.FormatPmt | bgt-linux-dvb-apps/lib/libdvben50221/en50221_app_ca.c:201-308 | the size of the object, with the object in the buffer and nothing touched behind it; or -1 with nothing touched when it does not fit |
| CaPmt.LengthExact | bgt-linux-dvb-apps/lib/libdvben50221/en50221_app_ca.c:499-544 | the length worked out is the number of octets of the object |
| CaPmtMeaning.ObjectReadBack | bgt-linux-dvb-apps/lib/libdvben50221/en50221_app_ca.c:201-279 | a reader after section 8.4.3.4 of EN 50221 recovers header, streams and descriptors while every loop fits twelve bits |
| CaPmtMeaning.ObjectReadBackExactly | bgt-linux-dvb-apps/lib/libdvben50221/en50221_app_ca.c:235-275 | and exactly then |
| CaPmtMeaning.MovingKeepsMeaning | bgt-linux-dvb-apps/lib/libdvben50221/en50221_app_ca.c:439-497 | moving keeps the streams and the CA descriptors that apply to each |
| CaPmtMeaning.MovingShortens | bgt-linux-dvb-apps/lib/libdvben50221/en50221_app_ca.c:439-544 | the length never grows, and shrinks exactly when at least two streams carry the same descriptors and none differs |
| CaPmtMeaning.BareStreamPreventsMove | bgt-linux-dvb-apps/lib/libdvben50221/en50221_app_ca.c:447-478 | a stream without CA descriptors prevents the move, although the comment in the code speaks of the streams with CA descriptors only |
| CaPmtMeaning.SectionsFit | bgt-linux-dvb-apps/lib/libucsi/mpeg/pmt_section.c:26-71 | in the object of a map that came in a section every loop fits twelve bits, moved or not |
| CaPmtMeaning.FormattedMeansPmt | bgt-linux-dvb-apps/lib/libdvben50221/en50221_app_ca.c:201-308 | moved or not, what is read from the object of a map that came in a section is the programme, its streams in order and for each the CA descriptors that apply |
| CaPmtExact.FormattedExactly | bgt-linux-dvb-apps/lib/libdvben50221/en50221_app_ca.c:201-308 | what is read back from the object of a map that came in a section: with the move asked for and no CA descriptors of the programme, those of the first stream at programme level and none in any stream exactly when all streams have the same; in every other case every loop as in the map |
| CaPmtExact.MovingSavesExactly | bgt-linux-dvb-apps/lib/libdvben50221/en50221_app_ca.c:439-544 | asking for the move never makes the object longer, and makes it shorter exactly when the programme has no CA descriptors and at least two streams carry the same |
| CaPmtExact.HeaderExactly | bgt-linux-dvb-apps/lib/libdvben50221/en50221_app_ca.c:235-253 | the six octets in front, and all reserved bits clear |
| CaPmtExact.CaDescriptorKept | bgt-linux-dvb-apps/lib/libdvben50221/en50221_app_ca.c:316-356 | a descriptor is kept exactly when its tag is 9, with its tag and length octet |
| CaPmtExact.CaDescriptorsInOrder | bgt-linux-dvb-apps/lib/libdvben50221/en50221_app_ca.c:316-356 | those of a loop are kept in order, wherever they stand between others |
| Mmi.AppMmi.ClearSession | bgt-linux-dvb-apps/lib/libdvben50221/en50221_app_mmi.c:206-236 | removes exactly the session's entry |
| Mmi.AppMmi.DefragmentInto | bgt-linux-dvb-apps/lib/libdvben50221/en50221_app_mmi.c:1172-1301 | result code, data and session list of the specification on values |
| Mmi.KeptIsPending | bgt-linux-dvb-apps/lib/libdvben50221/en50221_app_mmi.c:1172-1301 | in every run session numbers stay unique, and for every session and kind exactly its own fragments are kept |
| Mmi.LastYieldsOwnFragments | bgt-linux-dvb-apps/lib/libdvben50221/en50221_app_mmi.c:1252-1300 | under any interleaving a last fragment returns the concatenation of its own session's and kind's fragments, with code 2 exactly if the session is in the list |
| Mmi.PendingSinceLast | bgt-linux-dvb-apps/lib/libdvben50221/en50221_app_mmi.c:1172-1301 | what is waiting is all that came since the last complete object or clearing |
| Mmi.OthersDoNotMatter | bgt-linux-dvb-apps/lib/libdvben50221/en50221_app_mmi.c:1172-1301 | leaving out every event of other sessions and kinds changes nothing |
| Mmi.ReportsExactly | bgt-linux-dvb-apps/lib/libdvben50221/en50221_app_mmi.c:1172-1301 | after any run, code and data of the next fragment: 0 and nothing while more is to come, 2 and all fragments of its session and kind, 1 and its own data for a session with none, -1 for another tag |
| Mmi.KindsByTag | bgt-linux-dvb-apps/lib/libdvben50221/en50221_app_mmi.c:1172-1301 | which two tags stand for each kind |
| Mmi.ClearExactly | bgt-linux-dvb-apps/lib/libdvben50221/en50221_app_mmi.c:206-236 | after any run, clearing a session drops all that is kept for it and nothing that is kept for another |
| MmiText.DefragmentText | bgt-linux-dvb-apps/lib/libdvben50221/en50221_app_mmi.c:1303-1397 | the loop over the pieces of a text, with its failures |
| MmiText.PiecesJoined | bgt-linux-dvb-apps/lib/libdvben50221/en50221_app_mmi.c:1303-1397 | whatever pieces a text is cut into, it is put together again, exactly its octets are consumed, and the code is 1 for a single piece |
| MmiText.FailsExactly | bgt-linux-dvb-apps/lib/libdvben50221/en50221_app_mmi.c:1303-1397 | behind any pieces it fails where no tag, length field or known tag follows, runs over where a piece announces more than there is, and otherwise ends with a last piece |
| CfgText.Split | bgt-linux-dvb-apps/lib/libdvbcfg/dvbcfg_common.c:28-41 | the scan stops at the first separator |
| CfgText.ParseSettingLoop | bgt-linux-dvb-apps/lib/libdvbcfg/dvbcfg_common.c:76-100 | the value of the first entry with that name, or failure |
| CfgText.LookupSetting | bgt-linux-dvb-apps/lib/libdvbcfg/dvbcfg_common.c:127-136 | the name of the first entry with that value, or none |
| CfgText.NamesDiffer | bgt-linux-dvb-apps/lib/libdvbcfg/dvbcfg_common.c:76-136 | in a table with distinct names, looking a name up and parsing it gives the value back |
| CfgText.IntReads | bgt-linux-dvb-apps/lib/libdvbcfg/dvbcfg_common.c:43-46 | every integer printed with `%i` is scanned back |
| Zapchannel.Save | bgt-linux-dvb-apps/lib/libdvbcfg/dvbcfg_zapchannel.c:305-384 | the file is the lines of the channels, in order; the value returned is the callback's unless negative |
| Zapchannel.Parse | bgt-linux-dvb-apps/lib/libdvbcfg/dvbcfg_zapchannel.c:115-303 | line by line: skipped, delivered, or stopped by the callback with the value it asks for |
| ZapRoundTrip.TypeGuessed | bgt-linux-dvb-apps/lib/libdvbcfg/dvbcfg_zapchannel.c:142-153 | the frontend type is found again by searching the text for substrings |
| ZapRoundTrip.LineReads | bgt-linux-dvb-apps/lib/libdvbcfg/dvbcfg_zapchannel.c:115-384 | a channel saved is delivered again, DVB-S frequency and symbol rate rounded down to thousands |
| ZapRoundTrip.DeliveredTunable | bgt-linux-dvb-apps/lib/libdvbcfg/dvbcfg_zapchannel.c:115-303 | whatever is in a line, a channel delivered has a clean name and settings from the tables of its type |
| ZapRoundTrip.SurvivesExactly | bgt-linux-dvb-apps/lib/libdvbcfg/dvbcfg_zapchannel.c:115-384 | a channel comes back from its line exactly if it is canonical |
| ZapRoundTrip.FileRoundTrip | bgt-linux-dvb-apps/lib/libdvbcfg/dvbcfg_zapchannel.c:115-384 | parsing a saved file of canonical channels gives exactly the list saved |
| ZapRoundTrip.CommentDropped | bgt-linux-dvb-apps/lib/libdvbcfg/dvbcfg_zapchannel.c:127-130 | behind the first separator of a line a comment is dropped |
| ZapRoundTrip.CommentParsed | bgt-linux-dvb-apps/lib/libdvbcfg/dvbcfg_common.c:108-120 | in front of it the text of the comment is parsed as the rest of the line |
| ZapRoundTrip.CommentsMatterExactly | bgt-linux-dvb-apps/lib/libdvbcfg/dvbcfg_zapchannel.c:115-130 | a comment makes no difference, whatever it says, exactly when there is a separator in front of it or the text in front is too long for a name |
| ZapTables.TablesAgree | bgt-linux-dvb-apps/lib/libdvbapi/dvbfe.h:36-115 | in every table a name stands for just the enumerator of that name, and all enumerators but DVBFE_ATSC_MOD_AUTO are in them |
| ZapParsing.LineInOrder | bgt-linux-dvb-apps/lib/libdvbcfg/dvbcfg_zapchannel.c:305-384 | cut at its separators a saved line has the name, the frequency, the settings of its type in the order of the file, and the three ids, and nothing else |
| ZapParsing.FileByLines | bgt-linux-dvb-apps/lib/libdvbcfg/dvbcfg_zapchannel.c:115-303 | of any file the channels of the lines that hold one are handed on in order, up to the first the callback objects to, whose answer is returned unless negative |
| ZapParsing.BeyondExactly | bgt-linux-dvb-apps/lib/libdvbcfg/dvbcfg_zapchannel.c:127-135 | a line is parsed beyond the buffer exactly when it has no end, no comment and no separator and is no longer than a name |
| ZapParsing.NameLengthExactly | bgt-linux-dvb-apps/lib/libdvbcfg/dvbcfg_common.c:102-125 | a name is taken up to 127 characters, and a line with a longer one is skipped |
| ZapParsing.NoServiceId | bgt-linux-dvb-apps/lib/libdvbcfg/dvbcfg_zapchannel.c:280-289 | a line that ends with the audio pid is delivered with service id 0 |
| ZapParsing.PolarizationExactly | bgt-linux-dvb-apps/lib/libdvbcfg/dvbcfg_zapchannel.c:195-226 | the letters h, v, l and r are taken in either case and kept small, anything else is refused; frequency and symbol rate are thousands |
| ZapParsing.OtherBasesRead | bgt-linux-dvb-apps/lib/libdvbcfg/dvbcfg_common.c:43-74 | hexadecimal numbers behind 0x and octal ones behind 0 are read at their value |
| ZapParsing.SignsAndSpaceRead | bgt-linux-dvb-apps/lib/libdvbcfg/dvbcfg_common.c:43-74 | space and a sign may stand in front of a number |
| ZapParsing.NumbersWrap | bgt-linux-dvb-apps/lib/libdvbcfg/dvbcfg_common.c:43-46 | a number that does not fit 32 bits wraps around |

## Left out

- Devices: ioctl, open, read, write and poll. A write has an arbitrary result, a read yields arbitrary octets.
- Locks and threads: steps are atomic, and application callbacks do not call back into the layers; the window in which a callback runs without the lock and the unlock missing from `en50221_app_mmi_clear_session` are not modelled.
- Allocation failure and reallocation to size zero: memory is always there, and an empty block is the same as none.
- Clocks: elapsed and not elapsed are arbitrary at every poll.
- The link layer cuts the length of a write to 16 bits; the model hands the whole message to the link.
- The transport callback is always registered, as the session layer does when it is created.
- The number of the newest subpage plus one is not cut to 16 bits: pages put have subpage numbers below 0xffff.
- CacheWalk.ReliableExactly: subpage numbers are at most 0x3f7f, which `util/alevt/vbi.c` masks them to (`RunReceived`); of other caches `WalkRight` and `NeverReturned` hold.
- PacketDelivery.VisitsDeliver: packets hold whole TPDUs, and none that ends a connection numbered like the one followed, whose end reaches its session (`ConnectionCloseReachesOtherSlots`); what any octets do is in `RunDelivers`.
- CacheTable.CacheTable.Put: the buckets are sequences of pages instead of linked nodes; the relinking is proved in `DlList`.
- `cache_close`, `cache_mode` beyond setting the error reduction mode, and `cache_open`'s help pages.
- DlList.DlHead.constructor: the three words of a list head are two node objects, since two overlapping nodes cannot be expressed.
- SectionBuffer.SectionBuffer.constructor: only maxima that `section_buf_init` accepts (3 and more).
- Sections.EncodeExt: the buffer holds at least five octets and, for an update of the check, the length is at least 1, since otherwise the source runs out of the buffer.
- Sections.RoundTrip: sections of length below 6 have no room for the five header octets and the check.
- Hosts that keep the high octet of a word first, on which the octet swaps do nothing.
- CaPmt.ExtractStreams: the programme map is a list of streams and descriptors; the iterators over its octets in `pmt_section.h` are not part of this model.
- CaPmt.TryMove: lists of structures are sequences of values; freeing them is not modelled.
- Mmi.AppMmi.DefragmentInto: the session list is a sequence of values instead of linked nodes.
- MmiText.DefragmentText: a piece that announces more octets than there are is reported as `Overrun`; the source copies what lies behind the data.
- Zapchannel.Parse: files have no null characters; a last line without line end, comment and separator, which the source parses beyond its buffer, ends the parse with `None`; errors of the file functions are not modelled.
- CfgText.ParseInt: numbers that do not fit `int` wrap around, as do the products with 1000 of DVB-S rates.
- Zapchannel.Save: a setting that is in no table prints as `(null)`.
- Round trips for the create and close session responses: the offsets and lengths the code expects in them differ from those it sends.
- The other application resources (application information, authentication, date and time, DVB, EPG, resource manager, smart card, teletext, low speed communication) and `stdcam`: they dispatch on tags, or repeat the reassembly of the menus.
- `en50221_app_ca` replies, section tables other than the generic ones, `dvbsec` configuration, Hamming tables, the user interfaces and the tools.
