# Verified model of the socket library under the heartbeat responders

The repository answers heartbeat requests over UDP and carries the socket and
thread library that its examples are built on. This project models that library
in Dafny and proves what its protocols keep.

| file | models |
|---|---|
| `Bytes.dfy` | network byte order, signed integers on the wire |
| `Ring.dfy` | the geometry of a growable ring of bytes, with the literal `realloc` and `memmove` of a growth |
| `Transport.dfy` | `recv`, `send`, `realloc` and `memcpy`: the network as an arbitrary oracle |
| `SendStream.dfy` | the send side of a socket as a state machine, and its runs |
| `CiSocket.dfy` | the socket class: two rings in arrays, updated in place |
| `CString.dfy` | NUL-terminated strings and the search in one |
| `Framing.dfy` | the `[message][length][body]` stream: parser and encoder |
| `MessageReader.dfy` | the incremental receiver on the socket's receive ring, up to whole connections |
| `PollTables.dfy`, `TableLaws.dfy`, `PollFlags.dfy` | the network thread's tables as values, what each edit keeps, and the flags that `poll` raised |
| `Handlers.dfy` | what message handlers may do to the tables |
| `Dispatch.dfy`, `Passes.dfy`, `Rounds.dfy`, `Life.dfy` | one event, a pass over the poll table, a round, and the life of the thread, with arbitrary handlers and an arbitrary network |
| `NetworkThread.dfy`, `EventLoop.dfy` | the same in place: arrays and counts, up to any number of rounds |
| `SingleTable.dfy` | the network thread with a single table |
| `ThreadLifeCycle.dfy` | the fall-through state machine of a thread object |
| `ExitProtocol.dfy`, `ExitDiscipline.dfy`, `ExitWaits.dfy` | the handshake of owner and threads in every interleaving: what it keeps, which discipline of the owner that takes, and how the waits end |
| `Heartbeat.dfy` | both heartbeat responders and their wire format |
| `SafeString.dfy` | bounded string building in place |

How the layers connect: every method of the socket's send side is proved to be a
step or a run of the machine in `SendStream.dfy`, so the theorems there are about
the code. The receiver is proved on the socket class itself. Every method of the
network threads equates the table values after it with a function of those before
it, so the laws proved of events, passes and rounds as values are about the arrays;
and the laws of a pass are proved once, for both threads.

## What turned out false

Some promises do not hold of the code as it stands. The model keeps the code, and
states exactly when each holds.

- Growing a wrapped ring moves `need_size` bytes instead of the tail.
  `Ring.GrowthKeepsQueueIff` and `SendStream.UnsafeGrowthBreaks` give the exact
  condition, `Ring.GrowthConditions` puts it in terms a caller can check (the bytes
  fit the gap, or end index + n + 1 is the old size), and `SendStream.ReachableLoss`
  is a run that loses a byte. When more than the tail would be moved the `memmove`
  leaves the block; `SendStream.ReachableOverrun` is a run after which any write of
  three bytes does. Such calls are outside the model (`Ring.MoveInBounds`). The
  message receiver never gets there, as `MessageReader.ReceiveIntMessage` shows.
- A handler that removes another socket can lose the output of its own
  (`Dispatch.MovedSocketIsForgotten`), one that writes to another that of the other
  (`Dispatch.UncheckedOutputIsLost`; exact condition `Dispatch.OutputKeptIff`).
  `CheckWriteOperation` is the remedy for both (`Dispatch.EffectAttends`).
- After a handler the thread compares pointers to see whether the socket is still
  there. A new object at the same address passes for the old one
  (`Dispatch.ReusedAddressIsHit`); the reaction hits the right object iff the entry
  holds the object that was served (`Dispatch.ErrorHitsServedIff`,
  `Dispatch.InterestHitsServedIff`).
- A pass does not serve every socket whose flag is up: a removal swaps the last entry
  under a cursor that then moves on (`Passes.SkippedSocketWaits`). Exactly the sockets
  so moved are skipped, at most one for each removal (`Passes.PassIsComplete`).
- `CheckWriteOperation` and `AddReadOperation` do not ask whether the poll table took the
  socket (`Handlers.FullTableForgetsWriter`, `Handlers.FullTableForgetsReader`, exact
  conditions `Handlers.CheckWriteAttendsIff`, `Handlers.AddReadAttendsIff`).
- The read pass can delete the listening socket, and the next round follows the
  pointer to it (`Rounds.ListenerIsDeleted`). If handlers spare it this can happen exactly
  when `poll` raises a read flag on it without POLLRDNORM and the read pass takes place
  (`Rounds.ListenerIsLostIff`); for one event, see `Dispatch.ReadEffectTendsIff`.
- The single-table thread of `legacy_support.cpp` reads the descriptor of its entry again
  after the handler, and looks it up. If the entry has changed hands, the error is reported
  on another connection: one that was moved there (`SingleTable.StrangerIsClosed`), or a new
  one under the same descriptor (`SingleTable.ReusedDescriptorIsClosed`); or on none, and the
  failed connection stays (`SingleTable.FailedConnectionStays`). The exact conditions are
  `SingleTable.SingleSparesOthersIff` and `SingleTable.SingleHitsServedIff`; how an entry
  changes hands, `SingleTable.EntryChangesHands`.
- A connection hook that queues output on the new socket gets no write interest
  for it (`Rounds.AdoptNoLostIff`).
- A thread object can be set going while a complex runs it, since the handle is the
  only guard, and `EndComplexing` hands its token back at any time
  (`ExitDiscipline.CreateThreadOnComplexed`). The protocol is safe iff the owner sets nothing
  going while a worker is in its loop, calls `EndComplexing` only to match a
  `PrepareComplexing`, and neither that nor `DeleteCiThread` while a worker lives
  (`ExitDiscipline.DisciplineIsExact`, `ExitDiscipline.SafeIffDisciplined`). `CiThread2.h`
  asks for `EndComplexing` after the object has been deleted from the complex;
  `SampleHBClientComplex` calls it before, and without asking whether the object is done.
  Either order is safe once it is done.
- `WaitUntilExit` returns at once when the handle is not set, which says nothing about a
  complex (`ExitWaits.SkippedWaitOnComplexed`, exact condition `ExitWaits.WaitUntilExitIff`).
- `WaitUntilExit` can wait for ever (a run in `ExitWaits.StuckWait`, exact condition
  `ExitWaits.WaitIsStuckIff`), and so can `PrepareRunning` (`ExitWaits.StuckStart`,
  `ExitWaits.StartIsStuckIff`).
- The two heartbeat responders differ on datagrams shorter than eight bytes
  (`Heartbeat.AnswersAgreeIff`).
- A length field of 0x7fff_fff7 or more, for which the ring of the frame is no 32-bit size,
  makes the arithmetic of the receiver overflow; the model reports `Unrepresentable` there
  and stops, and nowhere else (`MessageReader.ReceiveIntMessage`,
  `MessageReader.ServeConnection`).

The comment on `WriteNFlush` in `CiSocket.h` asks callers to compare the written
count even on success; by the code the count is always complete then, and that is
what `CiSocket.Socket.WriteNFlush` states.

## Reading the model

- A pointer argument that receives a result is a returned value; a count that the
  source leaves untouched on some paths is passed in as `previous`.
- `m_iSendBufferSize` and `m_iRecvBufferSize` are the lengths of the arrays. A ring
  of size 0 is allowed, as the source's constructor allows it.
- A socket's behaviour towards the network is the ghost history of what `recv`
  delivered and `send` accepted. Every contract holds for every such history.
- In the single-table thread a connection has a number, by which it is told from others that
  had its descriptor.
- In the event loop a socket is its descriptor and the number of bytes queued on
  it; addresses are numbers, `delete` removes the object from memory, and every
  object has a number by which it is told from others that had its address. A use of
  a deleted socket would not verify; where the source follows a pointer that may be
  stale, the method requires the object to be alive.
- Whatever the world does in the event loop is given as data: which flags `poll`
  raises, what receivers report, what handlers do and answer, how much is sent, when
  the exit flag goes up. The theorems hold for all such data. A deed that is
  impossible, such as one on a deleted socket, does not happen.
- `Rules` restrict handlers. `own`: they write to and remove no object but the one they
  were called for. `roomy`: they never let the poll table overflow. `spared`: they
  neither write to nor remove the socket at that address. No rule need be in force.
  That handlers are mindful (`Dispatch.Mindful`) is a premise of its own, in every state in
  which one is called.
- `poll` bits are the set of their names.

## Model

| member | source | states |
|---|---|---|
| Ring.AppendRun | examples/Externals/CiUtils/Src/CiSocket.cpp:1343-1373 | Copying bytes to the end index and advancing it, with the wrap, appends exactly those bytes to the queue the ring stands for, and keeps the slot that tells full from empty. |
| Ring.Window | examples/Externals/CiUtils/Src/CiSocket.cpp:794-846 | The three places in which a peek looks (right of the start, split over the end of the block, wholly left) together always yield queue bytes `off..off+n`. |
| Ring.DropFront | examples/Externals/CiUtils/Src/CiSocket.cpp:735-781 | Moving the start index with the wrap removes exactly the first `n` queued bytes. |
| Ring.GrowBy | examples/Externals/CiUtils/Src/CiSocket.cpp:1024-1026 | The block grows to the larger of its size and queued + n + 1, so `n` more bytes always leave a slot spare. |
| Ring.GrowthConditions | examples/Externals/CiUtils/Src/CiSocket.cpp:1033-1037 | For a wrapped ring, what makes the `memmove` of a growth correct (or merely in bounds) depends on the end index alone: the bytes fit the gap, or `end + n + 1` is (is at most) the old size. |
| Ring.GrowthKeepsQueueIff | examples/Externals/CiUtils/Src/CiSocket.cpp:1022-1041 | Growth preserves the queue for every content of the reallocated bytes if and only if the ring is unwrapped, nothing grows, or need_size is the length of the wrapped tail. |
| Ring.ShortMoveLosesTail | examples/Externals/CiUtils/Src/CiSocket.cpp:1408-1414 | When need_size is less than the tail, the last tail byte is replaced by an uninitialised one. |
| Ring.SafeGrowthKeepsQueue | examples/Externals/CiUtils/Src/CiSocket.cpp:1408-1414 | In the safe cases the queue is the same before and after growth. |
| Ring.DrainingKeepsGrowthSafe | examples/Externals/CiUtils/Src/CiSocket.cpp:1213-1226 | Flushing a ring before a write never turns a safe growth into an unsafe one. |
| Bytes.DecodeEncode | examples/Externals/CiUtils/Src/CiSocket.cpp:1158-1175 | Decoding the big-endian bytes of any integer that fits its width gives the integer back. |
| Bytes.EncodeDecode | examples/Externals/CiUtils/Src/CiSocket.cpp:673-691 | Every byte string is the big-endian code of the integer it decodes to. |
| Bytes.Int32OnTheWire | examples/Externals/CiUtils/Src/CiSocket.cpp:1158-1175 | The four bytes of a 32-bit integer, most significant first, two's complement for negative ones. |
| Bytes.Int64OnTheWire | examples/Externals/CiUtils/Src/CiSocket.cpp:1177-1209 | The eight bytes of a 64-bit integer likewise. |
| Bytes.ReversedLittleIsBig | examples/Externals/CiUtils/Src/CiSocket.cpp:1185-1196 | Reversing the memory bytes of a little-endian host gives network byte order, for every width. |
| Bytes.IntegersRoundTrip | examples/Externals/CiUtils/Src/CiSocket.cpp:1158-1209 | Signed 32- and 64-bit integers survive writing and reading, negative ones included. |
| Bytes.BytesRoundTrip | examples/Externals/CiUtils/Src/CiSocket.cpp:673-691 | Re-encoding a 32-bit integer that was read reproduces the four bytes. |
| Transport.Network.Recv | examples/Externals/CiUtils/Src/CiSocket.cpp:959-988 | Oracle for `recv`: any non-empty part of the request, would-block, error, or end of stream, after which no data comes. |
| Transport.Network.Send | examples/Externals/CiUtils/Src/CiSocket.cpp:1236-1267 | Oracle for `send`: any prefix is taken, or would-block, or error; zero is reported only finitely often. |
| Transport.Realloc | examples/Externals/CiUtils/Src/CiSocket.cpp:1027-1032 | A larger block with the old bytes in front and arbitrary ones behind, or failure. |
| CiSocket.Grow | examples/Externals/CiUtils/Src/CiSocket.cpp:1402-1414 | `realloc` and the literal `memmove` of need_size bytes produce the block `Ring.Regrown` describes. |
| CiSocket.Socket.constructor | examples/Externals/CiUtils/Src/CiSocket.cpp:27-36 | Both rings start empty at index 0, for any capacity including 0. |
| Ring.Count | examples/Externals/CiUtils/Src/CiSocket.cpp:1111-1137 | The size queries: zero exactly when the indices meet, and always less than the block, so that a slot is spare. |
| CiSocket.Socket.PrepareRecvBuffer | examples/Externals/CiUtils/Src/CiSocket.cpp:1022-1041 | Literal growth of the receive ring: new block, start index and queue as functions of the old ones and of what `realloc` left; on failure nothing changes; no growth never fails. |
| CiSocket.Socket.ReceiveOnce | examples/Externals/CiUtils/Src/CiSocket.cpp:964-987 | One `recv`: exactly the delivered bytes join the queue, and the end index follows with the wrap. |
| CiSocket.Socket.ReceiveRun | examples/Externals/CiUtils/Src/CiSocket.cpp:959-988 | The receive loop appends exactly what the network delivered, never more than asked, whatever the fragmentation; after end of stream it takes nothing. |
| CiSocket.Socket.ReceiveAtMost | examples/Externals/CiUtils/Src/CiSocket.cpp:914-1020 | Both segments of the sized read together append exactly the delivered bytes, at most the requested number, also across the wrap. |
| CiSocket.Socket.ReadFromNetworkToBufferSized | examples/Externals/CiUtils/Src/CiSocket.cpp:912-1020 | The queue becomes (queue after growth) + (bytes delivered), and the former is the old queue whenever growth was safe. True means that all arrived or the network had no more; false means one network error or one refusal of memory. |
| CiSocket.Socket.ReadFromNetworkToBuffer | examples/Externals/CiUtils/Src/CiSocket.cpp:1048-1109 | The queue becomes the old queue plus exactly the bytes delivered. If nothing was refused and the stream has not ended, the ring is full, or, if it began past the start of the block and was unwrapped, the end index has come round to 0; a slot stays spare. |
| CiSocket.Socket.ReadN | examples/Externals/CiUtils/Src/CiSocket.cpp:731-787 | Succeeds iff the queue is non-empty and holds `n` bytes; then returns the first `n` and leaves the rest; otherwise changes nothing. |
| CiSocket.Socket.LookAheadN | examples/Externals/CiUtils/Src/CiSocket.cpp:853-908 | Returns queue bytes `off..off+n` iff they exist, and leaves the queue alone. |
| CiSocket.Socket.LookAheadInt32 | examples/Externals/CiUtils/Src/CiSocket.cpp:789-851 | The big-endian integer at an offset of the queue, whichever way it is split. |
| CiSocket.Socket.ReadInt32 | examples/Externals/CiUtils/Src/CiSocket.cpp:673-691 | Takes the integer in the first four queued bytes off the queue, or changes nothing. |
| CiSocket.Socket.ReadInt64 | examples/Externals/CiUtils/Src/CiSocket.cpp:693-729 | The same for eight bytes, with the same value on hosts of either byte order. |
| CiSocket.SwapForHost | examples/Externals/CiUtils/Src/CiSocket.cpp:720-723 | The in-place loop reverses the eight bytes on little-endian hosts only. |
| CiSocket.Socket.StrExistInReadBuffer | examples/Externals/CiUtils/Src/CiSocket.cpp:1487-1525 | The offset of the first occurrence of the pattern in the queue before its first NUL, or -1, wrapped or not; the terminator written into the ring leaves the queue unchanged. |
| CString.TerminatedText | examples/Externals/CiUtils/Src/CiSocket.cpp:1494-1509 | A NUL after the queue bytes bounds the string `strstr` sees to the queue, whatever follows in memory. |
| CString.StrStr | examples/Externals/CiUtils/Src/CiSocket.cpp:1495-1511 | `strstr`: first occurrence, or proof that there is none. |
| CString.FirstInText | examples/Externals/CiUtils/Src/CiSocket.cpp:1495-1511 | First means: the pattern splits the text there, and no earlier; absent means that no two strings around it make up the text. |
| CiSocket.Socket.PrepareSendBuffer | examples/Externals/CiUtils/Src/CiSocket.cpp:1397-1416 | Literal growth of the send ring, as a step of the send machine. |
| CiSocket.Socket.AppendToRing | examples/Externals/CiUtils/Src/CiSocket.cpp:1335-1394 | One- or two-part copy appends the buffer; the last branch of the source, which reports failure, is unreachable after growth. |
| CiSocket.Socket.WriteNToBuffer | examples/Externals/CiUtils/Src/CiSocket.cpp:1331-1395 | Is exactly the `Enqueue` step of the send machine, or fails for want of memory and changes nothing. |
| CiSocket.Socket.WriteFromBufferToNetwork | examples/Externals/CiUtils/Src/CiSocket.cpp:1423-1466 | Is a run of safe steps that take nothing on: bytes only move from the front of the ring to the end of what was sent. True means that the first run of the ring is gone or the network refused; false means a network error. It terminates. |
| CiSocket.Socket.WriteDirect | examples/Externals/CiUtils/Src/CiSocket.cpp:1230-1275 | Past an empty ring: sent + queued grows by a prefix of the buffer, all of it on success, whatever the partial sends and refusals. |
| CiSocket.Socket.WriteN | examples/Externals/CiUtils/Src/CiSocket.cpp:1211-1278 | Is a run of the send machine that takes on a prefix of the buffer, all of it on success; if growth is safe before the call, sent + queued is extended by exactly that prefix. With nothing refused an unwrapped ring ends up empty, and of a wrapped one at least the part up to the end of the block is sent. Failure has a cause in the network or in memory. |
| CiSocket.Socket.WriteInt32 | examples/Externals/CiUtils/Src/CiSocket.cpp:1158-1175 | Extends the stream by the big-endian bytes of the integer, under the same condition. |
| CiSocket.Socket.WriteInt64 | examples/Externals/CiUtils/Src/CiSocket.cpp:1177-1209 | Extends the stream by the same eight bytes on hosts of either byte order. |
| CiSocket.Socket.WriteNFlush | examples/Externals/CiUtils/Src/CiSocket.cpp:1280-1329 | Sends a prefix of the buffer, the whole of it iff it returns true, by at most 3001 calls of `send` for each byte (and for each count of zero). It gives up only after a network error, or when the last 3001 calls, all its own, were refused in a row; and then leaves the written count untouched. |
| SendStream.Append | examples/Externals/CiUtils/Src/CiSocket.cpp:1335-1389 | Appending in one or two parts extends (sent + queued) by exactly the bytes. |
| SendStream.StepConserves | examples/Externals/CiUtils/Src/CiSocket.cpp:1331-1466 | A step with safe growth takes its bytes on behind all earlier ones. |
| SendStream.UnsafeGrowthBreaks | examples/Externals/CiUtils/Src/CiSocket.cpp:1397-1416 | Any unsafe growth that stays in bounds breaks the stream for some leftover of `realloc`: with the previous row, the exact condition for queueing to be correct. |
| SendStream.RunConserves | examples/Externals/CiUtils/Src/CiSocket.cpp:1211-1466 | Over every run of writes, partial sends and refusals whose growths are safe, sent + queued is the concatenation of everything taken on: nothing lost, repeated or reordered. |
| SendStream.RunConcat | examples/Externals/CiUtils/Src/CiSocket.cpp:1211-1278 | Runs compose: what two runs take on is taken on in this order by their concatenation, which is safe if both are. |
| SendStream.FlushThen | examples/Externals/CiUtils/Src/CiSocket.cpp:1213-1275 | A flush followed by safe steps extends sent + queued by exactly what they take on. |
| SendStream.ReachableLoss | examples/Externals/CiUtils/Src/CiSocket.cpp:1397-1416 | A concrete run from a fresh four-byte ring after which a written byte is lost and an uninitialised one is queued in its place. |
| SendStream.ReachableOverrun | examples/Externals/CiUtils/Src/CiSocket.cpp:1408-1414 | One write earlier in the same run, by safe steps only: a write leaves the block by its `memmove` iff it has three bytes or more, as a 32-bit integer has. |
| CiSocket.ServeAll | examples/Externals/CiUtils/Src/CiSocket.cpp:1211-1466 | Any sequence of `WriteN` and `WriteFromBufferToNetwork` on one socket, whatever each returns: sent + queued is what it was plus what each call took on, in order: all it was asked to write if it succeeded, a prefix if not. It stops before the first write whose growth would be unsafe or exceed the sizes. |
| Framing.ParseEncode | examples/Externals/CiUtils/Src/NetworkThread.cpp:1051-1056 | Parsing the codes of any frames followed by part of a frame yields those frames and that part. |
| Framing.FrameLayout | examples/Externals/CiUtils/Src/NetworkThread.cpp:1051-1056 | Message number in bytes 0 to 3, body length in 4 to 7, body from byte 8 on; a frame is well-formed iff its body is as long as its length says, and empty for negative ones. |
| Framing.CompleteIff | examples/Externals/CiUtils/Src/NetworkThread.cpp:1083-1106 | When bytes hold a whole frame, by their length field alone, and what its fields are. |
| Framing.EncodeParse | examples/Externals/CiUtils/Src/NetworkThread.cpp:1051-1056 | Re-encoding what was parsed, plus the rest, reproduces any byte stream. |
| Framing.FirstFrameRoundTrip | examples/Externals/CiUtils/Src/NetworkThread.cpp:1083-1106 | The frame read off the front of a stream has the front of the stream as its code. |
| Framing.ParseIncremental | examples/Externals/CiUtils/Src/NetworkThread.cpp:1058-1106 | Fragmentation does not matter: parsing piece by piece yields the frames of the whole. |
| Framing.PrefixOfStream | examples/Externals/CiUtils/Src/NetworkThread.cpp:1058-1106 | Of a stream of frames, any received part yields a prefix of the frames, and the bytes left over begin the next one. |
| MessageReader.ReceiveHeader | examples/Externals/CiUtils/Src/NetworkThread.cpp:1058-1079 | Completes the header without taking a byte beyond it; false exactly on a fault or when nothing came. |
| MessageReader.ReceiveBody | examples/Externals/CiUtils/Src/NetworkThread.cpp:1086-1101 | Reads on to the end of the announced body and not beyond it. |
| MessageReader.ReceiveIntMessage | examples/Externals/CiUtils/Src/NetworkThread.cpp:1044-1108 | One call: true iff the frame under way is complete, false iff there was a network or memory fault or no byte came, interim otherwise, and only when the network had no more; unrepresentable iff the length field is at least 0x7fff_fff7, which is when header, body and spare slot are no 32-bit size. Never a byte of the next frame; the ring is unwrapped throughout, so growth never moves anything. |
| MessageReader.ConsumeBody | examples/Externals/CiUtils/Src/NetworkThread.cpp:1110-1113 | What a handler owes the protocol: the length and body of the frame, after which the ring is empty. |
| MessageReader.OnReadable | examples/Externals/CiUtils/Src/NetworkThread.cpp:929-968 | One readiness event keeps `received = codes of delivered frames + queue`, delivers at most one frame, and delivers it whole; it refuses a frame for its size iff the length field is at least 0x7fff_fff7. |
| MessageReader.ConsistentIsParsed | examples/Externals/CiUtils/Src/NetworkThread.cpp:1044-1108 | Hence the frames delivered are exactly the parse of everything received. |
| MessageReader.OrdinaryIsReceived | examples/Externals/CiUtils/Src/NetworkThread.cpp:1074-1096 | Of a stream of well-formed frames shorter than 0x7fff_fff7 no received part ends in a header with a greater length. |
| MessageReader.ServeConnection | examples/Externals/CiUtils/Src/NetworkThread.cpp:919-978 | A whole connection from an empty ring of any capacity under any fragmentation: frames delivered = frames fully received, in order; a prefix of the peer's frames. It never stops for the size of a frame of which the length is below 0x7fff_fff7; every event but a failing last one has brought something, and failure has a reason. |
| PollTables.FirstFdIsOwn | examples/Externals/CiUtils/Src/NetworkThread.cpp:307-320 | In consistent tables looking a socket up by descriptor finds its own entry or shows it is not polled. |
| PollTables.AsMapIs | examples/Externals/CiUtils/Src/NetworkThread.cpp:307-320 | The poll table stands for a finite map from descriptor to socket, events and revents; look-up agrees with the map. |
| PollTables.DeleteFromMap | examples/Externals/CiUtils/Src/NetworkThread.cpp:237-262 | Swap-with-last deletion removes exactly the named descriptor; every other entry keeps its bits and its socket. |
| PollTables.TableRefinesMap | examples/Externals/CiUtils/Src/NetworkThread.cpp:189-320 | Add, delete and find are insertion, removal and look-up in that map. |
| TableLaws.FreeWriterSlot | examples/Externals/CiUtils/Src/NetworkThread.cpp:424-435 | As long as the writers are polled sockets, a polled socket that is not among them always finds a free slot there. |
| TableLaws.DeleteKeepsPoll | examples/Externals/CiUtils/Src/NetworkThread.cpp:225-265 | Deletion keeps all other sockets polled and paired. |
| TableLaws.DropKeepsOk | examples/Externals/CiUtils/Src/NetworkThread.cpp:483-494 | After `OnReadSocketError` no table holds the socket, all others are where they were, and the tables are consistent. |
| TableLaws.DropKeepsReaders | examples/Externals/CiUtils/Src/NetworkThread.cpp:483-494 | All other readers stay polled with their read bits. |
| TableLaws.EnlistKeepsOk | examples/Externals/CiUtils/Src/NetworkThread.cpp:948-956 | Write interest and membership among the writers are given together. |
| TableLaws.DelistKeepsOk | examples/Externals/CiUtils/Src/NetworkThread.cpp:1023-1027 | and taken away together. |
| TableLaws.AdoptKeepsOk | examples/Externals/CiUtils/Src/NetworkThread.cpp:852-904 | Taking on a new socket keeps the tables consistent. |
| PollFlags.PlacesAfterRemoval | examples/Externals/CiUtils/Src/NetworkThread.cpp:237-262 | Where every socket and its flags are after swap-with-last deletion. |
| PollFlags.RemovalMoves | examples/Externals/CiUtils/Src/NetworkThread.cpp:237-262 | A removal moves a flagged socket to an entry before `k` iff the freed entry is before `k`, the last one is not, and the last socket has the flag; it moves no other. |
| Handlers.CheckWriteKeepsWritersIff | examples/Externals/CiUtils/Src/NetworkThread.cpp:548-574 | `CheckWriteOperation` leaves the writers and the poll table in agreement iff the poll table does not overflow (or there is no slot among the writers either). |
| Handlers.CheckWriteAttendsIff | examples/Externals/CiUtils/Src/NetworkThread.cpp:548-574 | A socket with queued bytes ends up polled for writing and among the writers, the tables agreeing, iff it was polled or the poll table has room. |
| Handlers.CheckWriteAsks | examples/Externals/CiUtils/Src/NetworkThread.cpp:548-574 | For a live socket with output that is not a writer: its entry gains POLLOUT, POLLWRNORM and POLLWRBAND and keeps every bit it had; an unpolled one gets a new last entry with just these if there is room; it becomes a writer if there is a slot; nothing else changes. |
| Handlers.NothingToAsk | examples/Externals/CiUtils/Src/NetworkThread.cpp:548-594 | `CheckWriteOperation` does nothing for a socket without descriptor, without output or already a writer; `AddReadOperation` nothing for a reader. |
| Handlers.FullTableForgetsWriter | examples/Externals/CiUtils/Src/NetworkThread.cpp:565-569 | The failing input: a full poll table and an unpolled socket with output, which becomes a writer that is not polled. |
| Handlers.AddReadKeepsOk | examples/Externals/CiUtils/Src/NetworkThread.cpp:576-594 | `AddReadOperation` keeps the tables consistent and every old entry where it was, with its flags. |
| Handlers.AddReadAsks | examples/Externals/CiUtils/Src/NetworkThread.cpp:576-594 | For a live socket that is not a reader: its entry gains POLLIN, POLLRDNORM, POLLRDBAND and POLLPRI and keeps every bit it had, a write interest included; an unpolled one gets a new last entry with just these if there is room; it becomes a reader if there is a slot; nothing else changes. |
| Handlers.AddReadKeepsReadersIff | examples/Externals/CiUtils/Src/NetworkThread.cpp:576-594 | It leaves every reader polled with its read bits iff the poll table takes the socket, or there is no slot among the readers either: whether it did is not asked. |
| Handlers.AddReadAttendsIff | examples/Externals/CiUtils/Src/NetworkThread.cpp:576-594 | A socket ends up a reader polled with its read bits, and so do all other readers, iff it was polled before or the poll table has room. |
| Handlers.FullTableForgetsReader | examples/Externals/CiUtils/Src/NetworkThread.cpp:576-594 | It does fail: a poll table full of the listening socket leaves a reader that is never polled. |
| Handlers.DeedsComeTo | examples/Externals/CiUtils/Src/NetworkThread.cpp:1110-1113 | What each deed of a handler comes to; writing and creating touch no table, the others are the thread's operations. |
| Handlers.WithoutRules | examples/Externals/CiUtils/Src/NetworkThread.cpp:1110-1113 | Where no rule is in force every deed on a live object is allowed, and every creation at a free address under a free descriptor. |
| Handlers.ActsInOrder | examples/Externals/CiUtils/Src/NetworkThread.cpp:1110-1113 | The deeds of a handler are done one after the other. |
| Handlers.ActsAreTraced | examples/Externals/CiUtils/Src/NetworkThread.cpp:1110-1113 | Any sequence of deeds of a handler (writing, `CheckWriteOperation`, `OnReadSocketError`, new sockets, `AddReadOperation`) raises no flag and lowers those of the removed sockets only; no flagged socket moves to a later entry. |
| Handlers.ActsMove | examples/Externals/CiUtils/Src/NetworkThread.cpp:225-265 | It moves behind an entry exactly the flagged sockets that its removals swap there, at most one for each. |
| Handlers.ActsAttend | examples/Externals/CiUtils/Src/NetworkThread.cpp:548-574 | A handler that never lets the poll table overflow leaves no output unattended but that of the sockets it has written to and not called `CheckWriteOperation` on since, nor removed. |
| Handlers.ActsOweOwn | examples/Externals/CiUtils/Src/NetworkThread.cpp:1110-1113 | A handler that keeps to its own socket owes it to no other, and leaves its own entry in place. |
| Handlers.ActsTend | examples/Externals/CiUtils/Src/NetworkThread.cpp:1110-1113 | A socket that handlers neither write to nor remove stays polled and as it was. |
| Handlers.ActsKeepObject | examples/Externals/CiUtils/Src/NetworkThread.cpp:483-494 | An object, told by address and number, lives on until its socket is removed. |
| NetworkThread.NonNullUpdate | examples/Externals/CiUtils/Src/NetworkThread.cpp:386-388 | The counters can be kept equal to the number of non-null slots. |
| NetworkThread.Thread.constructor | examples/Externals/CiUtils/Src/NetworkThread.cpp:52-77 | All slots blank, all counts zero. |
| NetworkThread.Thread.PollFDAdd | examples/Externals/CiUtils/Src/NetworkThread.cpp:189-223 | Appends one entry, paired with its socket, iff the socket is valid and there is room; slots past the count stay blank. |
| NetworkThread.Thread.PollFDDelete | examples/Externals/CiUtils/Src/NetworkThread.cpp:225-265 | In place, is deletion by descriptor on the table value; reports whether an entry went; the freed slot is blanked. |
| NetworkThread.Thread.FindPollFD | examples/Externals/CiUtils/Src/NetworkThread.cpp:307-320 | The first entry with the socket's descriptor, or none. |
| NetworkThread.Thread.PollFDEnable | examples/Externals/CiUtils/Src/NetworkThread.cpp:267-285 | Adds the bits of one direction to one entry and changes nothing else; false, and no change, for a null pointer or a blank entry. |
| NetworkThread.Thread.PollFDDisable | examples/Externals/CiUtils/Src/NetworkThread.cpp:287-305 | The same for removing the bits. |
| NetworkThread.Thread.AddReadSocket | examples/Externals/CiUtils/Src/NetworkThread.cpp:375-393 | Fills the first free slot iff there is one; the count stays the number of non-null slots. |
| NetworkThread.Thread.DeleteReadSocket | examples/Externals/CiUtils/Src/NetworkThread.cpp:395-416 | Frees the socket's slot, deletes the object unless preserved; the count stays exact. |
| NetworkThread.Thread.AddWriteSocket | examples/Externals/CiUtils/Src/NetworkThread.cpp:418-436 | As for readers. |
| NetworkThread.Thread.DeleteWriteSocket | examples/Externals/CiUtils/Src/NetworkThread.cpp:438-459 | As for readers, deleting the object unless told to preserve it. |
| NetworkThread.Thread.FindSocket | examples/Externals/CiUtils/Src/NetworkThread.cpp:344-373 | A socket of the read or the write table with the descriptor, or null iff there is none. |
| NetworkThread.Thread.DisableSocket | examples/Externals/CiUtils/Src/NetworkThread.cpp:462-481 | Leaves the poll table and loses its descriptor. |
| NetworkThread.Thread.OnReadSocketError | examples/Externals/CiUtils/Src/NetworkThread.cpp:483-494 | Only called on a live socket (its precondition); removes it from every table and deletes it. |
| NetworkThread.Thread.CheckWriteOperation | examples/Externals/CiUtils/Src/NetworkThread.cpp:548-574 | Is `Handlers.CheckWrite` on the tables, for which see `Handlers.CheckWriteAsks`, for every live socket, polled or not, room or not; reports whether a writer's slot was found where one was needed. |
| NetworkThread.Thread.AddReadOperation | examples/Externals/CiUtils/Src/NetworkThread.cpp:576-594 | Is `Handlers.AddRead` on the tables, for which see `Handlers.AddReadAsks`, and reports whether a reader's slot was found where one was needed. |
| Dispatch.EffectKeepsOk | examples/Externals/CiUtils/Src/NetworkThread.cpp:919-967 | Serving one entry, readable or writable, whatever its handler does, keeps the tables consistent, and the writers in agreement unless a handler overflows the poll table. |
| Dispatch.ReadEffectComesTo | examples/Externals/CiUtils/Src/NetworkThread.cpp:919-971 | A readable event, without the functions that make it up: the flags of the entry go down; the handler acts iff a message is complete, for the object that is there; then comes the reaction; an incomplete message costs nothing else. |
| Dispatch.ReactionIsReacted | examples/Externals/CiUtils/Src/NetworkThread.cpp:933-967 | The reaction, field by field: under the pointer guard a failure takes the socket out of every table and out of memory, and no other; a success gives it all write bits and a writer's slot iff it has output and is no writer; otherwise nothing happens. |
| Dispatch.WriteIsWritten | examples/Externals/CiUtils/Src/NetworkThread.cpp:1014-1027 | A write event, field by field: what the network took plus what stays queued is what was queued; the write bits and the writer's slot go iff nothing is left, and no other bit; a failure to send what is queued takes the socket out of every table and out of memory, and no other. |
| Dispatch.WriterStaysIff | examples/Externals/CiUtils/Src/NetworkThread.cpp:1014-1027 | A socket with output attended to stays a writer, with all write bits, iff the network took less than was queued; its read bits are untouched. |
| Dispatch.EffectIsTraced | examples/Externals/CiUtils/Src/NetworkThread.cpp:919-978 | It lowers exactly the flags of the served socket and of those removed meanwhile, raises none, and moves no flagged socket to a later entry. |
| Dispatch.EffectMoves | examples/Externals/CiUtils/Src/NetworkThread.cpp:919-978 | It moves behind the cursor exactly the sockets that a removal swaps there, at most one for each removal. |
| Dispatch.OutputKeptIff | examples/Externals/CiUtils/Src/NetworkThread.cpp:933-967 | When the thread has reacted to the return of any handler, all output is attended to iff the only output that was not is that of the socket served, still in its entry: the guard of the source is exactly the condition. |
| Dispatch.EffectAttends | examples/Externals/CiUtils/Src/NetworkThread.cpp:929-1027 | An event loses no output if its handler is mindful (calls `CheckWriteOperation` on every socket it has written to, or writes to its own, which stays in its entry) and never lets the poll table overflow; a write event loses none in any case. |
| Dispatch.OwnIsMindful | examples/Externals/CiUtils/Src/NetworkThread.cpp:945-956 | A handler that keeps to its own socket is mindful without that call. |
| Dispatch.MovedSocketIsForgotten | examples/Externals/CiUtils/Src/NetworkThread.cpp:945-956 | Otherwise it may: a handler that removes another socket moves its own to another entry, and its output is forgotten. |
| Dispatch.UncheckedOutputIsLost | examples/Externals/CiUtils/Src/NetworkThread.cpp:945-956 | So does a handler that writes to another socket and does not check it. |
| Dispatch.CheckedOutputIsKept | examples/Externals/CiUtils/Src/NetworkThread.cpp:945-956 | But not if it checks it: the same run with the call loses nothing. |
| Dispatch.ErrorHitsServedIff | examples/Externals/CiUtils/Src/NetworkThread.cpp:933-967 | After a failure exactly the object that was served is removed iff the pointer guard tells whether it still lives: not if it has moved, and not if another object lies in its entry at its address. |
| Dispatch.InterestHitsServedIff | examples/Externals/CiUtils/Src/NetworkThread.cpp:945-956 | After success no other object gains write interest, iff the entry does not hold another object at the same address with output of its own. |
| Dispatch.GuardMeetsNewcomers | examples/Externals/CiUtils/Src/NetworkThread.cpp:938-945 | The guard meets another object only if the handler removed its own socket and that object was created since. |
| Dispatch.ReusedAddressIsHit | examples/Externals/CiUtils/Src/NetworkThread.cpp:933-940 | It does happen: a handler that keeps to its own socket removes it, takes on a new connection at the same address, and fails; the new connection is destroyed. |
| Dispatch.ReadEffectTendsIff | examples/Externals/CiUtils/Src/NetworkThread.cpp:929-968 | A socket that handlers spare is lost in a read event iff it is the one served, the event fails, and it is still in its entry. |
| Passes.PassIsLawful | examples/Externals/CiUtils/Src/NetworkThread.cpp:919-978 | Over every pass, from any entry on and for any way of serving entries that is an event: flags stay as they are but for sockets served or removed; nobody is served twice; whoever is due and not removed is served iff no removal moves it behind the cursor; at most one is skipped for each removal; the event count covers the flags. |
| Passes.PassIsComplete | examples/Externals/CiUtils/Src/NetworkThread.cpp:907-1037 | The same of every read and write pass of the thread; and stopping at event count zero leaves no flag up, so that then everyone due is served. |
| Passes.SkippedSocketWaits | examples/Externals/CiUtils/Src/NetworkThread.cpp:919-978 | Skipping does happen: two readable sockets, the first fails, the second is moved under the cursor and the pass ends with its flag up. |
| Passes.PassAttends | examples/Externals/CiUtils/Src/NetworkThread.cpp:907-1037 | No output is lost over a read pass whose handlers are mindful, nor over any write pass. |
| Passes.PassTends | examples/Externals/CiUtils/Src/NetworkThread.cpp:907-1037 | A socket that handlers spare and that has no read flag survives the read pass; and the write pass, if nothing is queued on it. |
| Rounds.AdoptNoLostIff | examples/Externals/CiUtils/Src/NetworkThread.cpp:852-896 | A connection leaves output attended to iff the hook queued none on it. |
| Rounds.ConnectIsConnected | examples/Externals/CiUtils/Src/NetworkThread.cpp:799-905 | A connection, field by field: it is taken on iff accepted at a free address under a free descriptor, taken by the hook, and with room among readers and in the poll table; then memory gains exactly the new object with its descriptor and queued bytes, the readers exactly it, the poll table exactly a last entry with all four read bits and no flags; else all three are as before. The flags of the listening socket go down either way, and no other. |
| Rounds.ConnectKeepsOk | examples/Externals/CiUtils/Src/NetworkThread.cpp:799-905 | Accepting keeps the tables consistent. |
| Rounds.ConnectIsTraced | examples/Externals/CiUtils/Src/NetworkThread.cpp:799-905 | It lowers the listening socket's flags and no others, and everyone stays polled. |
| Rounds.ConnectKeepsObjects | examples/Externals/CiUtils/Src/NetworkThread.cpp:799-905 | It keeps every other object with what is queued on it, and loses no output with a quiet hook. |
| Rounds.RoundCovers | examples/Externals/CiUtils/Src/NetworkThread.cpp:706-756 | From the wait to the end of every round whose `poll` was neither interrupted nor failed, the event count covers the raised flags, whatever the exit flag does: where it is zero no flag is up. |
| Rounds.RoundIsIdle | examples/Externals/CiUtils/Src/NetworkThread.cpp:759-797 | In the other rounds there are no events, and nothing changes. |
| Rounds.RoundIsComplete | examples/Externals/CiUtils/Src/NetworkThread.cpp:706-756 | A round that runs to its end is: the listening socket, whose flags go down and no others; a complete read pass; a complete write pass; whether or not the event count was left to start them. |
| Rounds.WaitComesTo | examples/Externals/CiUtils/Src/NetworkThread.cpp:759-797 | `poll` replaces the flags of all entries by its answers, changes nothing else, and the event count is the number of entries that got one. |
| Rounds.ListenerIsLookedFor | examples/Externals/CiUtils/Src/NetworkThread.cpp:713-737 | The pointer to the listening socket is followed iff there are events and the exit flag is down; the round ends if it is not polled; a connection is accepted iff POLLRDNORM is up on it, and takes one event. |
| Rounds.RoundStopsAtExit | examples/Externals/CiUtils/Src/NetworkThread.cpp:706-737 | Where a round ends if the exit flag goes up before the wait, before the listening socket or before the read pass. |
| Rounds.RoundStopsBeforeWrites | examples/Externals/CiUtils/Src/NetworkThread.cpp:738-747 | The same before the write pass. |
| Rounds.RoundServes | examples/Externals/CiUtils/Src/NetworkThread.cpp:706-756 | In it every socket that `poll` raised a flag on, and that is not removed, is the listening socket and dealt with, or served, or a removal moves it behind the cursor: exactly as the pass that is due for its flag says. |
| Rounds.RoundAttends | examples/Externals/CiUtils/Src/NetworkThread.cpp:706-756 | No output is lost over a round whose handlers are mindful and never let the poll table overflow, and whose hook queues nothing. |
| Rounds.RoundKeepsReaders | examples/Externals/CiUtils/Src/NetworkThread.cpp:706-756 | Every reader stays polled with all its read bits over a round in which handlers never let the poll table overflow. |
| Rounds.RoundTends | examples/Externals/CiUtils/Src/NetworkThread.cpp:713-737 | The listening socket survives a round, and the round finds it, if no handler writes to it or removes it and `poll` raises read flags on it only together with POLLRDNORM. |
| Rounds.ListenerIsLostIff | examples/Externals/CiUtils/Src/NetworkThread.cpp:713-747 | Exactly when it can be lost: some reports of the receivers cost it its life in the round iff `poll` raises a read flag on it without POLLRDNORM and the exit flag is still down when the read pass is due. |
| Rounds.ListenerIsDeleted | examples/Externals/CiUtils/Src/NetworkThread.cpp:919-967 | It does happen: POLLRDBAND alone on the listening socket makes the read pass take it for a connection and delete it, while the thread's pointer to it stays. |
| EventLoop.Perform | examples/Externals/CiUtils/Src/NetworkThread.cpp:1110-1113 | Each deed of a handler, through the operations of the thread, is `Handlers.Act` on the tables. |
| EventLoop.OnMessage | examples/Externals/CiUtils/Src/NetworkThread.cpp:1110-1113 | A handler is any sequence of deeds and an answer. |
| EventLoop.AfterHandler | examples/Externals/CiUtils/Src/NetworkThread.cpp:933-967 | Removal or write interest only under the guard that the pointer is still in its entry, in place. |
| EventLoop.ServeReadable | examples/Externals/CiUtils/Src/NetworkThread.cpp:921-971 | One readable entry, in place, is `Dispatch.ReadEffect`, of which `Dispatch.ReadEffectComesTo` says what it comes to, for every report of the receiver, handler and answer. |
| EventLoop.ServeWritable | examples/Externals/CiUtils/Src/NetworkThread.cpp:1014-1027 | One writable entry, in place, is `Dispatch.WriteEffect`, of which `Dispatch.WriteIsWritten` says what it comes to, for every amount sent and either outcome. |
| EventLoop.ProcessReadEvent | examples/Externals/CiUtils/Src/NetworkThread.cpp:907-981 | The read pass, in place, is the pass of `Passes`: tables and event count. |
| EventLoop.ProcessWriteEvent | examples/Externals/CiUtils/Src/NetworkThread.cpp:983-1037 | The same for the write pass. |
| EventLoop.ProcessConnection | examples/Externals/CiUtils/Src/NetworkThread.cpp:799-905 | In place the same: what is taken on is a live object, a reader and polled, and the answer is true; or the objects, readers and poll table are as before but for the listener's flag, and the answer is false. |
| EventLoop.Enrol | examples/Externals/CiUtils/Src/NetworkThread.cpp:864-896 | Registration in both tables or in neither. |
| EventLoop.WaitNetworkEvent | examples/Externals/CiUtils/Src/NetworkThread.cpp:759-797 | `poll` may raise any flags; the event count is then the number of sockets with one. |
| EventLoop.ProcessListener | examples/Externals/CiUtils/Src/NetworkThread.cpp:713-737 | The listening socket is looked at first, and its absence reported. |
| EventLoop.ProcessEvents | examples/Externals/CiUtils/Src/NetworkThread.cpp:713-747 | Listener, read pass and write pass, each only while events are left and the exit flag is down. |
| EventLoop.Run | examples/Externals/CiUtils/Src/NetworkThread.cpp:706-756 | One round, in place, is `Rounds.RunOnce`. If the round follows the pointer to the listening socket, that must be alive. |
| Life.StartComesTo | examples/Externals/CiUtils/Src/NetworkThread.cpp:52-77 | At the start all slots are free and the listening socket, if any, has the only entry, for all reads and without flags. |
| Life.StaleIff | examples/Externals/CiUtils/Src/NetworkThread.cpp:713-737 | A round would follow a stale pointer iff `poll` answers a flag on any polled socket, the exit flag is down, and the first object of all is gone. |
| Life.LiveOn | examples/Externals/CiUtils/Src/NetworkThread.cpp:706-756 | Each further round of a life is one round on the tables it has come to. |
| Life.LifeCovers | examples/Externals/CiUtils/Src/NetworkThread.cpp:706-756 | After any rounds of the thread's life the event count covers the raised flags if `poll` answered last, and is not positive if it was interrupted or failed. |
| Life.LifeIsConsistent | examples/Externals/CiUtils/Src/NetworkThread.cpp:706-756 | Throughout it writers and poll table agree (writers have all write bits, others none) and every reader is polled with all read bits, if handlers never let the table overflow. |
| Life.LifeLosesNothing | examples/Externals/CiUtils/Src/NetworkThread.cpp:706-756 | No output is ever lost if handlers are also mindful, or keep to their own sockets, and the hook queues nothing. |
| Life.LifeTends | examples/Externals/CiUtils/Src/NetworkThread.cpp:706-756 | The listening socket is never deleted, and all rounds take place, if handlers spare it and `poll` is honest about it. |
| EventLoop.RunRounds | examples/Externals/CiUtils/Src/NetworkThread.cpp:706-756 | From construction through any rounds, in place, is `Life.Live`, the pointer to the listening socket passed on unchanged; so all of this holds of the thread's tables and event count, which are always consistent. The run ends before a round that would follow a pointer to a deleted listening socket, and before no other. |
| SingleTable.SinglePassIsComplete | legacy_compatible/legacy_support.cpp:707-733 | The scan of the single-table thread obeys the same laws, of connections: event count, nobody served twice, served or skipped exactly as in the full thread. |
| SingleTable.SingleSparesOthersIff | legacy_compatible/legacy_support.cpp:712-726 | After any handler that fails, no other connection loses its entry iff the look-up of the descriptor in the entry finds the connection that was served, or nobody. |
| SingleTable.SingleHitsServedIff | legacy_compatible/legacy_support.cpp:712-726 | And exactly the connection that was served goes iff the look-up finds it, or finds nobody after the handler has closed it itself. |
| SingleTable.SuccessHitsNobody | legacy_compatible/legacy_support.cpp:712-726 | A handler that succeeds has no reaction but its own deeds. |
| SingleTable.LookUpIsEntry | legacy_compatible/legacy_support.cpp:712-726 | As long as descriptors differ, the look-up finds the very entry, or nobody if that is blank. |
| SingleTable.EntryChangesHands | legacy_compatible/legacy_support.cpp:712-726 | Another connection has the entry only if the handler has closed the one that was served, or others so that it moved to an earlier entry; and that other one was in a later entry, or was taken on by the handler. |
| SingleTable.ClosingNothingKeepsEntry | legacy_compatible/legacy_support.cpp:712-726 | A handler that closes no connection leaves the entry to its own. |
| SingleTable.StrangerIsClosed | legacy_compatible/legacy_support.cpp:712-726 | It does happen: a handler closes its own descriptor, not in the last entry, and fails; another is closed. |
| SingleTable.ReusedDescriptorIsClosed | legacy_compatible/legacy_support.cpp:712-726 | It also happens under the same descriptor: a handler closes its connection, takes on another, which gets the number of the closed descriptor, and fails; the new connection is closed. |
| SingleTable.FailedConnectionStays | legacy_compatible/legacy_support.cpp:712-726 | The failed connection can keep its entry: its handler closed the one in an earlier entry, and it has moved there. |
| SingleTable.SingleThread.PollFDAdd | legacy_compatible/legacy_support.cpp:492-511 | Appends a descriptor, new or not, iff it is valid and there is room. |
| SingleTable.SingleThread.PollFDDelete | legacy_compatible/legacy_support.cpp:513-542 | Swap-with-last deletion in place; reports whether an entry went. |
| SingleTable.SingleThread.OnReadSocketError | legacy_compatible/legacy_support.cpp:759-768 | The descriptor leaves the table. |
| SingleTable.SingleThread.ServeEntry | legacy_compatible/legacy_support.cpp:712-726 | One entry in place: the descriptor of an error is read from the entry again. |
| SingleTable.SingleThread.ProcessReadEvent | legacy_compatible/legacy_support.cpp:679-737 | The pass in place is `SingleTable.SinglePass`: table and event count. |
| ThreadLifeCycle.CiThread.ThreadProc | legacy_compatible/legacy_support.cpp:356-406 | The fall-through switch leads from each state where `Proc` says, with the same calls of the hooks. |
| ThreadLifeCycle.CiThread.PrepareRunning | legacy_compatible/legacy_support.cpp:332-339 | State and exit flag as set before the semaphore is taken. |
| ThreadLifeCycle.CiThread.RunUntilDone | legacy_compatible/legacy_support.cpp:303-306 | The loop calls `ThreadProc` until the thread is done and not once more. |
| ThreadLifeCycle.ProcKeepsLog | legacy_compatible/legacy_support.cpp:356-406 | Every state is reached only by the calls that belong to it. |
| ThreadLifeCycle.RunsFollowTheLifeCycle | legacy_compatible/legacy_support.cpp:303-306 | For every sequence of hook answers the log fits the state and accounts exactly for the rounds. |
| ThreadLifeCycle.FinishedRun | legacy_compatible/legacy_support.cpp:356-406 | A finished run: InitInstance first and once, Run only in between and never after a failure, ExitInstance last and once; DONE iff nothing failed (and then exit was requested); rounds = Run calls + 1, or 2 if InitInstance failed. |
| ThreadLifeCycle.ExitEndsTheLoop | legacy_compatible/legacy_support.cpp:368-376 | Once exit is requested two rounds are enough. |
| ExitProtocol.OwnerKeepsInv | examples/Externals/CiUtils/Src/CiThread2.cpp:62-165 | Every statement of the owner, in all three ways to set an object going and with failure of thread creation, keeps the invariant (one token, one worker, logs) if it keeps the discipline. |
| ExitProtocol.WorkerKeepsInv | examples/Externals/CiUtils/Src/CiThread2.cpp:24-45 | Every statement of a started thread or of a complex keeps the invariant. |
| ExitProtocol.ExitProtocolIsSafe | examples/Externals/CiUtils/Src/CiThread2.cpp:62-165 | In every interleaving that keeps the discipline: the semaphore stays binary; a free token means that no worker lives; at most one does; every worker calls its hooks in the order from InitInstance to ExitInstance, and has called them all once it lives no more. |
| ExitWaits.StoredHandleBlocks | examples/Externals/CiUtils/Src/CiThread2.cpp:62-153 | From the moment a handle is stored neither `CreateThread` nor `RunThreadHere` goes ahead, and `WaitUntilExit` waits. |
| ExitWaits.HandleIsFreed | examples/Externals/CiUtils/Src/CiThread2.cpp:62-153 | When `WaitUntilExit` has waited and returns, and when the creation of a thread has failed, the handle is free and the token back, so that `CreateThread` and `RunThreadHere` go ahead again. |
| ExitWaits.WaitCompletes | examples/Externals/CiUtils/Src/CiThread2.cpp:144-153 | A wait that finds the token runs to its end: it changes nothing but the handle, which it frees. |
| ExitWaits.FailureCompletes | examples/Externals/CiUtils/Src/CiThread2.cpp:62-95 | So does a creation that fails: token back, handle free, exit requested. |
| ExitDiscipline.CallSpoilsLog | examples/Externals/CiUtils/Src/CiThread2.cpp:62-127 | A start while a worker is in its loop, wherever it is there, can be continued by disciplined steps until that worker is done with a log that is not whole. (A worker past its loop is no obstacle: the start waits for it.) |
| ExitDiscipline.DisciplineIsExact | examples/Externals/CiUtils/Src/CiThread2.cpp:97-153 | For each step from a state of a disciplined run: it leaves the object safe under all disciplined continuations iff it keeps the discipline. So no start while a worker is in its loop, no `EndComplexing` but for a `PrepareComplexing`, and neither that nor `DeleteCiThread` while a worker lives. |
| ExitDiscipline.SafeIffDisciplined | examples/Externals/CiUtils/Src/CiThread2.cpp:62-165 | For all runs: safe throughout, with all disciplined continuations, iff disciplined. |
| ExitDiscipline.CreateThreadOnComplexed | examples/Externals/CiUtils/Src/CiThread2.cpp:62-71 | It can be broken: the handle is the only guard of `CreateThread`, so it goes ahead on an object that a complex runs; InitInstance is called again after Run, and the owner blocks. |
| ExitWaits.LoopIsProc | examples/Externals/CiUtils/Src/CiThread2.cpp:182-232 | In every disciplined interleaving the statements of a worker, from the head of its loop back to it, come to one call of `ThreadProc` as `ThreadLifeCycle.Proc` has it. |
| ExitWaits.EndThreadBoundsTheRun | legacy_compatible/legacy_support.cpp:318-376 | After `EndThread` the object is run for at most seven more steps in any disciplined interleaving without another call to set it going, also if one was under way; then a worker past its loop still has one step more. |
| ExitWaits.WaitIsStuckIff | examples/Externals/CiUtils/Src/CiThread2.cpp:144-153 | A waiting owner can pass, or the worker it waits for can step, unless the missing token is that of `PrepareComplexing` on an object that is done: an exact condition for deadlock. |
| ExitWaits.StartIsStuckIff | examples/Externals/CiUtils/Src/CiThread2.cpp:158-165 | The wait of `PrepareRunning` ends as soon as a worker past its loop has left, unless the missing token is one that the owner itself has to return: exact again. |
| ExitWaits.StuckWait | examples/Externals/CiUtils/Src/CiThread2.cpp:117-153 | A disciplined run from the initial state reaches such a deadlock: the owner of a thread that has ended calls `PrepareComplexing`, which nothing forbids while the handle is set, and then `WaitUntilExit`. |
| ExitWaits.StuckStart | examples/Externals/CiUtils/Src/CiThread2.cpp:117-165 | Another reaches the second: `PrepareComplexing` again, on an object taken off its complex, before `EndComplexing`. |
| ExitWaits.WaitUntilExitIff | examples/Externals/CiUtils/Src/CiThread2.cpp:144-153 | When `WaitUntilExit` returns, every worker ever started is done, with a whole log, iff it found a handle at the call or nobody was live anyway. |
| ExitWaits.SkippedWaitIff | examples/Externals/CiUtils/Src/CiThread2.cpp:144-153 | Without a handle it returns at once, and the hooks of all workers were called to the end iff no worker has its ExitInstance still to call. |
| ExitWaits.SkippedWaitOnComplexed | examples/Externals/CiUtils/Src/CiThread2.cpp:144-153 | So `WaitUntilExit` returns in the middle of a run by a complex, which sets no handle. |
| Heartbeat.DecodeWire | legacy_compatible/CiHBResponser.cpp:183-220 | A length-directed decoder recovers every field of every response. |
| Heartbeat.WireDecode | asio_base/HeartBeatSession.cpp:122-138 | Only the datagram of a response decodes to it. |
| Heartbeat.WireLayout | legacy_compatible/CiHBResponser.cpp:183-220 | The response byte by byte: type 1, sequence number, representative address behind its length, state 0, 1 or 2, local address behind its length. |
| Heartbeat.OnlyRequestsAreAnswered | asio_base/HeartBeatSession.cpp:88-120 | Exactly which datagrams each responder answers, with which sequence number, in terms of their bytes. |
| Heartbeat.RequestLayout | legacy_compatible/CiHBResponser.cpp:168-181 | A request is four zero bytes and a sequence number. |
| Heartbeat.RequestsAreAnswered | legacy_compatible/CiHBResponser.cpp:168-181 | Both responders answer every well-formed request with its own sequence number. |
| Heartbeat.AnswersAgreeIff | asio_base/HeartBeatSession.cpp:100-116 | The responders agree on a datagram iff it has eight bytes or a non-zero byte among its first four: shorter ones that begin with zeros are answered by the asio responder only. |
| Heartbeat.LegacyResponser.SendHeartbeatResponse | legacy_compatible/CiHBResponser.cpp:183-234 | The moving cursor ends exactly at the end of the buffer, which is the response datagram; the result compares `sendto`'s count with its size. |
| Heartbeat.LegacyResponser.ReceiveIntMessage | legacy_compatible/CiHBResponser.cpp:262-294 | Takes the first eight bytes of a datagram and insists on eight. |
| Heartbeat.LegacyResponser.OnMessage | legacy_compatible/CiHBResponser.cpp:296-312 | Answers requests and nothing else, whatever became of sending the answer. |
| Heartbeat.LegacyResponser.Serve | legacy_compatible/CiHBResponser.cpp:168-312 | A datagram is answered iff it is a request of at least eight bytes. |
| Heartbeat.InputStream.ReadInt | asio_base/HeartBeatSession.cpp:101-106 | A short read leaves the missing low bytes zero, and fails every later read. |
| Heartbeat.HeartBeatSession.WriteResponse | asio_base/HeartBeatSession.cpp:122-138 | The stream writes, through one reused integer, are the same datagram. |
| Heartbeat.HeartBeatSession.HandleReadRequest | asio_base/HeartBeatSession.cpp:88-120 | Which datagrams the asio responder answers, and with what. |
| Heartbeat.SameReply | asio_base/HeartBeatSession.cpp:88-138 | Configured alike, both responders send identical, decodable answers to every datagram of at least eight bytes. |
| SafeString.CiStrLen | examples/Externals/CiUtils/Src/CiSafeString.cpp:8-19 | The number of characters before the first NUL. |
| SafeString.CutIsLongest | examples/Externals/CiUtils/Src/CiSafeString.cpp:28-87 | A string is a text cut to fewer than n characters iff it is the longest prefix with fewer, and the whole text iff that was reported. |
| SafeString.CiStrCpy | examples/Externals/CiUtils/Src/CiSafeString.cpp:28-87 | The buffer holds the longest prefix of the source with fewer than iNDest characters, NUL-terminated; true iff that is all of it; the length asked for is reported on every path. |
| SafeString.CiStrCat | examples/Externals/CiUtils/Src/CiSafeString.cpp:89-152 | The same for the concatenation, also when the old string is longer than iNDest. |
| SafeString.BuildIsFitOfConcat | examples/Externals/CiUtils/Src/CiSafeString.cpp:28-152 | After one copy and any sequence of appends the buffer holds the whole concatenation cut once, and all calls returned true iff the whole fits. |
| SafeString.BuildString | examples/Externals/CiUtils/Src/CiSafeString.cpp:28-152 | The same of the buffer itself after `CiStrCpy` and a loop of `CiStrCat` over any buffers: the longest prefix of the whole concatenation that fits. |

## Left out

- Transport.Network.Recv: end of stream is sticky, as on a TCP stream; on a datagram socket an empty datagram also reads as 0 and data may follow, and the second loop of the sized read would then write at the wrong place.
- Transport.Network.Send: reports zero bytes only finitely often, since `WriteFromBufferToNetwork` and `WriteNFlush` would otherwise spin forever.
- CiSocket.Grow: a growth whose `memmove` would leave the block is excluded by precondition, because the source's behaviour is undefined then; `SendStream.ReachableOverrun` reaches one.
- CiSocket.Socket.PrepareRecvBuffer: the same exclusion, and block sizes beyond a 32-bit int.
- CiSocket.Socket.ReadFromNetworkToBufferSized: the same exclusions.
- CiSocket.Socket.PrepareSendBuffer: the same exclusions.
- CiSocket.Socket.WriteNToBuffer: the same exclusions.
- CiSocket.Socket.WriteN: the same exclusions, taken at the call, also where the flush would bring the growth back into bounds.
- CiSocket.Socket.WriteInt32: the same exclusions.
- CiSocket.Socket.WriteInt64: the same exclusions.
- CiSocket.Socket.ReadN: negative counts, which the source would hand to `memcpy`, are not modelled.
- CiSocket.Socket.WriteNFlush: the one-millisecond sleep between refusals and the error number left behind are not modelled.
- MessageReader.ServeConnection: handlers are taken to consume exactly the length and body of the message they are given.
- EventLoop.OnMessage: handlers act on the tables through `CheckWriteOperation`, `AddReadOperation`, `OnReadSocketError`, `new` and writing; a handler that edits single table entries or disconnects a socket behind these operations is not modelled, nor one that uses a deleted socket.
- EventLoop.RunRounds: after a listening socket was deleted the source goes on with the stale pointer, which has no meaning; the model ends there.
- EventLoop.ProcessConnection: the connection hook does not touch the tables.
- EventLoop.ServeReadable: the receiver appears in the event loop only by its report; its own behaviour is in `MessageReader.dfy`.
- ThreadLifeCycle.CiThread.PrepareRunning: the wait for the semaphore is a step of its own, in `ExitProtocol.dfy`.
- ThreadLifeCycle.CiThread.RunUntilDone: the hooks' answers are a finite sequence, so runs in which `Run` is called forever appear only by their finite beginnings.
- ExitProtocol.ExitProtocolIsSafe: it says nothing of blocking, which `ExitWaits.StartIsStuckIff` and `ExitWaits.WaitIsStuckIff` do; there is one owner, whose calls do not overlap; `AddCiThread` directly follows `PrepareComplexing`, as the comment at the head of the class has it; an object is on one complex at a time, and is not set inactive.
- SingleTable.SingleThread.OnReadSocketError: the set of read sockets, which the `poll` branch only fills and empties, is not modelled.
- Heartbeat.LegacyResponser.ReceiveIntMessage: the sender's address, kept for the answer, is not modelled.
- Heartbeat.HeartBeatSession.HandleReadRequest: error reporting is not modelled, nor that the session arms no further read after a receive error.
- SafeString.CiStrCpy: source and destination do not overlap, and iNDest is at least 1 and within the buffer, as the source's writes require.
- The `select` branches for Windows, socket creation and options, accept, and asio internals: foreign calls whose results appear as parameters.
- `ReadInt16`, `WriteInt16`, `GetBufferClon` and the `...WithTimeOut` loops: simpler repeats of what is modelled, or governed by wall-clock time.
- `DeleteDisabledReadSockets`, `DeleteDisabledWriteSockets`, `OnWriteSocketError`, `ExitInstance` and the destructors: repeats of modelled edits, or clean-up outside the event loop.
- Calendar arithmetic, file access, mutexes, real-time pacing and the example programs: no protocol of their own.
