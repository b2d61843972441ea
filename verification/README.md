# A verified model of the chat server's core

These Dafny files model the parts of an IOCP chat server that carry its hard guarantees, and prove
them for all inputs, all interleavings and all runs:

- the bounded multi-producer multi-consumer ring `Fqueue`, one step per atomic access
  (`FixedQueueSteps`), its `front` (`FixedQueueFront`), its power-of-two round-up and its code
  (`FixedQueue`);
- the linked queue `MpscQueue`, where a push exchanges head first and links later (`MpscQueue`), and
  its objects (`MpscList`);
- the chunked upload between the client's worker and the server's handlers: the cut into rounds and
  chunks (`UploadPieces`), the protocol over two FIFO channels with dropped chunks, stops, lost
  packets and resumptions (`UploadProtocol`), completion after any history (`UploadProgress`) and under
  every fault-free schedule (`UploadTermination`), and the loops and handlers on both sides
  (`UploadHandlers`);
- the receive path: the circular buffer with 64-bit indices that wrap (`CircularBuffer`) and the
  header-peek loop that cuts it into frames (`Framing`);
- the packet codec (`Wire`, `Packet`) and its table-driven checksum (`Crc32c`, `Crc32cTable`);
- the per-receiver send slot with the lookup of the receiver by socket (`SendSlot`);
- the session maps with the session pool (`Sessions`), the packet pool (`PacketPool`) and the I/O
  context pool, call by call (`IOContextPool`) and interleaved (`IOContextSteps`);
- authorisation over runs with session reuse (`Auth`) and refresh-token families (`RefreshFamilies`).

`Common` and `Bits` hold shared types and the bit operations on natural numbers. Code that updates
state in place is a class with methods proved against functions on values; the theorems are about
those functions and about runs of steps. A concurrent protocol is a step function over a state that
also carries history, and a run is any list of events.

## Conventions

- Memory is sequentially consistent. Ticket numbers of `Fqueue`, round numbers and times do not wrap;
  the indices of the circular buffer, the 32-bit length sum of the framing loop and the use counter
  of the I/O context pool do.
- What the operating system decides is an input of the step: how many bytes a read gives, whether
  a send is accepted, a compare-exchange that fails without reason, the time.
- Upload: one upload id, full file reads, writing a round to disk is one step. A FILE_START is sent
  when no worker runs and no earlier FILE_START waits for its answer. A stop may lose the packets
  queued in either direction. An acknowledgement that `serializeFileAck` refuses is not delivered.
- Checksum: the table is a parameter. The 64-bit step of the hardware loop is taken as eight byte
  steps over the same table. `SoftwareTable` is the table as it stands in the source, which is not
  the one of section 12.1 of RFC 3720; distinct top bytes are all that is used of it.
- Signatures are ideal: `signed` is the set of payloads the server signed. Signing never fails.

## Where the code does not do what one would expect

- An `Fqueue` of capacity 1, which argument 1 gives, loses values (`CapacityOneLosesValues`); capacity 2
  is needed and enough (`CapacityTwoIsNeededAndEnough`).
- `Fqueue::front`, documented as fully race-free, can copy from a destroyed object
  (`FrontReadsDestroyed`); `CopyUndisturbedExactly` says when it does not.
- A circular buffer that fills up while the packet pool is empty is never drained again
  (`FullBufferIsStuck`), since the loop runs only after a read; `ValidStreamWedges` is such a run and
  `RunWedgesExactly` the exact condition.
- An acknowledgement that arrives between ROUND_END and the reset of `ackReceived` is lost
  (`EarlyAckStalls`, `EarlyAckHappens`). One with more than 1014 entries is refused by
  `serializeFileAck`; the source queues the packet all the same, which on a wiped packet is a send of no
  bytes whose completion is taken for a broken connection. Either way no acknowledgement reaches the
  worker (`LongGapStalls`, `LongGapHappens`), which waits until it times out. The stored prefix is not
  affected, and these are the only ways to get stuck (`AlwaysEnabled`, `EveryScheduleCompletes`).
- A send completion looks its receiver up by socket. After a logout that leaves the socket open it finds
  none, and the receiver's slot stays taken for good (`LogoutStrandsTheSlot`, `StrandedStays`);
  `RunKeepsExactly` is the exact condition.
- `updateNewId` keeps the maps consistent only under a condition on its arguments
  (`UpdateKeepsExactly`); the login path meets it.
- A login that arrives in one batch behind a logout authenticates the session slot after it went
  back to the pool, and the next borrower of that slot passes the gate (`LoginAfterReturnPersists`);
  `FreshPassesExactly` says exactly when that happens.
- A second return of an I/O context is not refused (`ReturnConserves`), and a return can drop an index
  when a pop stalls for a whole turn of the ring (`IndexGetsLost`, `LosesExactly`).

## Model

| member | source | states |
|---|---|---|
| FixedQueueSteps.SlotsDistinct | datastructure/fixedQueue.h:48 | two tickets less than a capacity apart never share a slot |
| FixedQueueSteps.MaskedSlot | datastructure/fixedQueue.h:48-76 | masking with capacity - 1 is reduction modulo the power-of-two capacity, so any `capacity` consecutive tickets use distinct slots |
| FixedQueueSteps.StepKeepsInv | datastructure/fixedQueue.h:44-95 | every load, compare-exchange, construct, publish, read, destroy and release of any thread keeps the slot, ticket and ownership invariant |
| FixedQueueSteps.RunKeepsInv | datastructure/fixedQueue.h:44-95 | the invariant holds after every interleaving of any number of pushes and pops |
| FixedQueueSteps.StepRefinesFifo | datastructure/fixedQueue.h:44-95 | each step is a stutter, an append below capacity, or a removal of the front of a bounded FIFO |
| FixedQueueSteps.EveryRunRefinesFifo | datastructure/fixedQueue.h:33-95 | so every run from capacity at least 2 refines a bounded FIFO, event by event |
| FixedQueueSteps.EveryRunIsFifo | datastructure/fixedQueue.h:33-95 | in every run from capacity at least 2: 0 <= head - tail <= capacity, the pop with ticket p returns the value pushed with ticket p, and a ticket is popped by one thread only |
| FixedQueueSteps.EveryRunIsRaceFree | datastructure/fixedQueue.h:56-86 | no slot is constructed, read, destroyed or released by two threads at once in any run |
| FixedQueueSteps.PopGivesUpExactlyWhenFrontUnpublished | datastructure/fixedQueue.h:89-90 | pop returns nullopt exactly when the front ticket is not published when its sequence is read: the queue is empty or that push is still under way |
| FixedQueueSteps.PushGivesUpExactlyWhenSlotUnreleased | datastructure/fixedQueue.h:60-65 | push drops its value exactly when the next slot is not released: the queue is full or the pop of the old value is still under way |
| FixedQueueSteps.PopEndsEmptyHanded | datastructure/fixedQueue.h:74-94 | wherever a pop that has claimed nothing ends, the front ticket is not published; a lost compare-exchange does not end it |
| FixedQueueSteps.PushEndsEmptyHanded | datastructure/fixedQueue.h:46-69 | wherever a push that has claimed nothing ends, the slot of the next ticket is not released |
| FixedQueueSteps.EveryCallIsAnswered | datastructure/fixedQueue.h:44-95 | in every run a thread that becomes idle has popped the value of its ticket or found the front unpublished, if it called pop, and published the very value it was given or found the next slot unreleased, if it called push |
| FixedQueueSteps.EveryClaimIsTheCall | datastructure/fixedQueue.h:44-56 | in every run the value a claim adds to the queue is the one its thread called push with |
| FixedQueueSteps.CapacityOneLosesValues | datastructure/fixedQueue.h:24-37 | with capacity 1, two pushes in a row overwrite each other and leave head - tail at 2 |
| FixedQueueSteps.CapacityTwoIsNeededAndEnough | datastructure/fixedQueue.h:33-95 | in-order delivery within the capacity holds in all runs if and only if the capacity is at least 2 |
| FixedQueueFront.CopyUndisturbedExactly | datastructure/fixedQueue.h:108-134 | in every run, beside any pushes and pops, the copy of front reads a slot no thread works in, and the oldest value, if and only if no pop has claimed the front since the second look at tail |
| FixedQueueFront.FrontGivesUp | datastructure/fixedQueue.h:116-121 | in every run front ends without a copy only when tail has moved since it was loaded or the front ticket is not published |
| FixedQueueFront.FrontGoesOnExactly | datastructure/fixedQueue.h:112-128 | while no pop has moved tail, front goes on to its second look if and only if the front ticket is published |
| FixedQueueFront.FrontReadsDestroyed | datastructure/fixedQueue.h:123-129 | a run in which a pop comes between the second look and the copy, and front copies from a destroyed object |
| FixedQueue.Smear | datastructure/fixedQueue.h:27-28 | one `n \|= n >> k` line doubles the run of ones below the leading bit |
| FixedQueue.RoundUpToPowerOfTwo | datastructure/fixedQueue.h:24-30 | for 1 <= n <= 2^63 the result is the least power of two that is at least n; for 0 it is 2 |
| FixedQueue.Fqueue.constructor | datastructure/fixedQueue.h:33-37 | for every size the capacity is the rounded one, 0 above 2^63; with capacity 2 or more, so for any size but 1 up to 2^63, the queue is valid and empty |
| FixedQueue.Fqueue.Push | datastructure/fixedQueue.h:44-70 | run alone, push appends its value exactly when there is room, whatever spurious compare-exchange failures occur |
| FixedQueue.Fqueue.Pop | datastructure/fixedQueue.h:73-95 | run alone, pop returns and removes the oldest value, or nullopt exactly when the queue is empty |
| MpscQueue.StepKeeps | datastructure/Mpsc.h:60-124 | every step of any producer and of the consumer keeps the list invariant: each node is linked to its successor or exactly its producer is about to link it |
| MpscQueue.RunKeeps | datastructure/Mpsc.h:60-124 | the list invariant holds after every interleaving, freed addresses being handed out again included |
| MpscQueue.EveryRunYieldsInOrder | datastructure/Mpsc.h:60-97 | in every run the values held by the nodes that the successful pops took off are the first values pushed, in exchange order, none lost and none twice |
| MpscQueue.EveryPushIsItsCall | datastructure/Mpsc.h:60-70 | in every run each thread's values stand in exchange order exactly as the thread gave them to push, call after call; only a push that has not exchanged yet is still to come |
| MpscQueue.EveryCallIsAnswered | datastructure/Mpsc.h:73-124 | in every run the consumer's calls of pop, front and empty are answered one after the other, each by an answer of its kind |
| MpscQueue.NoNodeLeaks | datastructure/Mpsc.h:60-97 | in every run each allocated node is in the list, with a push that has not exchanged it, or about to be freed by the pop that took it out |
| MpscQueue.EveryAnswerIsRight | datastructure/Mpsc.h:73-124 | pop answers false, and front the default, only if nothing was queued when head was read; a pop that answers true took off, and front otherwise copies, the oldest value not yet popped; empty answers false only with something queued |
| MpscQueue.NoFreedAccess | datastructure/Mpsc.h:68-115 | no load, store, delete or data read of any run touches freed memory, so front never reads freed data and no prev is linked after it was freed |
| MpscQueue.PopFalseExactlyWhenEmpty | datastructure/Mpsc.h:78-82 | at its load of head, pop answers false if and only if nothing is queued |
| MpscQueue.EmptyExactlyWhenUnlinked | datastructure/Mpsc.h:119-124 | empty answers true if and only if nothing is queued or the oldest queued node is not linked yet |
| MpscQueue.SpinEndsWithTheLink | datastructure/Mpsc.h:83-86 | while the consumer waits, the producer of the very next node is still to link it, and its link ends the wait |
| MpscList.MpscQueue.Push | datastructure/Mpsc.h:60-70 | taken as one step, push appends its value and adds one fresh node to the chain |
| MpscList.MpscQueue.Pop | datastructure/Mpsc.h:73-97 | taken as one step, pop removes the oldest value, or answers false exactly when there is none |
| MpscList.MpscQueue.Front | datastructure/Mpsc.h:100-116 | taken as one step, front copies the oldest value, or gives the default exactly when there is none |
| MpscList.MpscQueue.IsEmpty | datastructure/Mpsc.h:119-124 | taken as one step, empty answers true exactly when nothing is queued |
| UploadPieces.SlotIsIndex | filetransfer/FileTransferManager.cpp:160 | from a round boundary, (offset / 3840) % 1024 is the index under which the sender cut the chunk |
| UploadPieces.Missing | filetransfer/FileTransferManager.cpp:193-197 | the missing list names exactly the empty slots below the expected count, in ascending order |
| UploadPieces.CompleteRound | filetransfer/FileTransferManager.cpp:267-276 | a round with nothing missing is written as exactly the bytes of the source from its base to its end |
| UploadProtocol.StepKeeps | filetransfer/FileTransferManager.cpp:80-265 | every step of worker, server, channels and faults keeps the protocol invariant over disk, receiver, both channels, sender and ledger |
| UploadProtocol.RunKeeps | filetransfer/FileTransferManager.cpp:80-265 | the protocol invariant holds after every run, with chunks dropped, the worker stopped anywhere and any number of resumptions |
| UploadProtocol.StoredIsPrefix | filetransfer/FileTransferManager.cpp:116-276 | in every run the partial file is a prefix of the source, its length is a multiple of 3840 * 1024 or the full size, and receivedOffset is that length |
| UploadProtocol.FileEndVerdict | filetransfer/FileTransferManager.cpp:211-221 | FILE_END reports success exactly when the stored length is the declared size, and then the stored file is the source |
| UploadProtocol.FileEndMeansStored | filetransfer/FileTransferManager.cpp:211-257 | in every run the FILE_END of this sender finds an open transfer, the whole source on disk, and reports success |
| UploadProtocol.WorkerDoneMeansStored | client/Client.cpp:610-687 | in every run the worker leaves its loop, and so sends FILE_END, only with the whole source on disk |
| UploadProtocol.RoundsAgree | filetransfer/FileTransferManager.cpp:186-197 | in every run sender and receiver agree on the round at every ROUND_END, so the mismatch branch is unreachable and the count stays within the round buffer |
| UploadProtocol.SlotsAgree | filetransfer/FileTransferManager.cpp:160-166 | in every run a chunk that reaches the server is a chunk of the round being received, and its slot is the sender's index |
| UploadProtocol.RoundEndsBounded | client/Client.cpp:647-680 | in every run the ROUND_END packets put on the channel, counted from the states of the run, are at most the rounds begun plus the chunk packets dropped |
| UploadProtocol.MissingShrinks | filetransfer/FileTransferManager.cpp:193-208 | in every run each missing list found for a round, told from the states of the run, is contained in all earlier ones of that round |
| UploadProtocol.TooBigNeverStored | filetransfer/FileTransferManager.cpp:94-97 | a source over 5 MB is never stored, not even in part |
| UploadProtocol.FileStartOpens | filetransfer/FileTransferManager.cpp:94-134 | FILE_START within 5 MB opens a fresh transfer at the length of the partial file, whatever was open, and answers with it; above 5 MB it changes nothing |
| UploadProtocol.ChunkFillsItsSlot | filetransfer/FileTransferManager.cpp:160-167 | a chunk fills the slot of its place in the round if that is empty, and changes nothing else |
| UploadProtocol.RoundEndAnswers | filetransfer/FileTransferManager.cpp:193-208 | ROUND_END with nothing missing writes, clears and counts the round and answers with an empty list; otherwise it stores nothing and names the empty slots if they fit in a packet |
| UploadProtocol.OtherRoundIsAnswered | filetransfer/FileTransferManager.cpp:186-191 | ROUND_END for another round stores nothing and is answered with the receiver's round and an empty list |
| UploadProtocol.FileEndCloses | filetransfer/FileTransferManager.cpp:260-264 | after FILE_END no transfer is open |
| UploadProtocol.ClosedAnswersNothing | filetransfer/FileTransferManager.cpp:149-219 | from then on, over any run, no packet but FILE_START is stored or answered |
| UploadProtocol.WorkerTakesAnswer | client/Client.cpp:656-679 | a worker with its answer goes on to the next round if nothing is missing, and else sends exactly the missing chunks again, in list order |
| UploadProtocol.OtherAckIsIgnored | client/Client.cpp:906 | an acknowledgement of another round leaves the sender as it was |
| UploadProtocol.StalledUntilStopped | client/Client.cpp:656-664 | a waiting worker with nothing on its way stays so until it times out |
| UploadProtocol.EarlyAckStalls | client/Client.cpp:653-664 | an acknowledgement delivered before ackReceived is reset is lost and the upload stalls; delivered after the reset it is taken |
| UploadProtocol.LongGapStalls | filetransfer/FileTransferManager.cpp:278-288 | no acknowledgement of a ROUND_END reaches a waiting worker if and only if more than 1014 chunks are missing |
| UploadProgress.OneRound | client/Client.cpp:610-681 | from the top of the worker's loop a fault-free continuation stores the next round |
| UploadProgress.ResumeCompletes | client/Client.cpp:590-691 | after any history, for every file of at most 5 MB, there is a resumption without further faults that stores the whole file and is told so |
| UploadProgress.EarlyAckHappens | client/Client.cpp:653-664 | for every non-empty file within the limit, a run without faults in which the answer to ROUND_END comes before the reset of ackReceived, so the upload stalls |
| UploadProgress.LongGapHappens | filetransfer/FileTransferManager.cpp:193-208 | for every file with more than 1014 chunks in its first round, a run with dropped chunks and no other fault in which ROUND_END stays without an answer |
| UploadTermination.SmoothAdvances | client/Client.cpp:610-681 | every fault-free step that loses no acknowledgement changes nothing, finishes the upload with the file stored, or lowers a lexicographic measure of bytes uncut, slack, phase and packets |
| UploadTermination.AlwaysEnabled | client/Client.cpp:610-681 | a running upload that waits for something always has such a step to take, unless more than 1014 chunks are missing |
| UploadTermination.EveryScheduleCompletes | client/Client.cpp:590-691 | from every such state, every endless schedule of such steps reaches the point where the whole file is on disk and FILE_END is sent |
| UploadHandlers.UploadReceiver.HandleFileStart | filetransfer/FileTransferManager.cpp:80-135 | is the protocol's FILE_START step: refusal above 5 MB, else a fresh round buffer, offset and round from the bytes on disk, and the resume offset as answer |
| UploadHandlers.UploadReceiver.HandleFileChunk | filetransfer/FileTransferManager.cpp:137-168 | is the protocol's chunk step, with a chunk dropped exactly when its checksum differs from the one it carries |
| UploadHandlers.UploadReceiver.CollectMissing | filetransfer/FileTransferManager.cpp:193-197 | the loop collects exactly the missing list |
| UploadHandlers.UploadReceiver.WriteRoundToDisk | filetransfer/FileTransferManager.cpp:267-276 | the loop appends all filled slots in order and advances receivedOffset by what it wrote |
| UploadHandlers.UploadReceiver.HandleRoundEnd | filetransfer/FileTransferManager.cpp:170-209 | is the protocol's ROUND_END step: mismatch answer, missing list, or round written, cleared and counted |
| UploadHandlers.UploadReceiver.HandleFileEnd | filetransfer/FileTransferManager.cpp:211-265 | is the protocol's FILE_END step |
| UploadHandlers.UploadState.FillRound | client/Client.cpp:610-634 | the loop cuts the round into the chunks at base + 3840 * i and ends at the next boundary |
| UploadHandlers.UploadState.SendRound | client/Client.cpp:638-645 | sends every chunk of the round once, packet i being chunk i at its own offset |
| UploadHandlers.UploadState.Resend | client/Client.cpp:670-678 | sends the chunks of the missing list one each in its order and skips indices past the round |
| UploadHandlers.UploadState.HandleFileAck | client/Client.cpp:885-914 | takes the missing list exactly when the round is the current one |
| UploadHandlers.WorkerSends | client/Client.cpp:638-678 | the protocol's worker, one packet per step, puts exactly the packets of these loops on the channel |
| UploadHandlers.WorkerSendsInOrder | client/Client.cpp:638-678 | so they reach the channel in the order of the worker's list |
| UploadHandlers.NewRoundInOrder | client/Client.cpp:638-645 | and a new round goes out chunk by chunk from index 0 |
| Framing.PeekBuffer | network/IOCPManager.cpp:237-296 | the header checks on the buffer decide as the byte-sequence specification does, the wrapped length included |
| Framing.RejectExactly | network/IOCPManager.cpp:255-285 | a buffer is refused if and only if 16 bytes are there and byte 0 is not 0xD5, byte 1 is not 1, or the length field is above 4080 |
| Framing.TakeExactly | network/IOCPManager.cpp:266-296 | otherwise the frame of 16 bytes and the length field is taken once it is complete, and waited for until then |
| Framing.DrainFrames | network/IOCPManager.cpp:237-296 | the loop cuts the buffer into frames and a rest, stops only for lack of bytes, of packets or at a bad header, and disconnects exactly for the last |
| Framing.OnReadable | network/IOCPManager.cpp:202-309 | one readable notification on the circular buffer is one step of the connection model |
| Framing.ClosesExactly | network/IOCPManager.cpp:237-309 | a notification closes an open connection with room if and only if the read failed, the peer closed, or the header in front of what is left is refused |
| Framing.SerializedFrameValid | protocol/Packet.cpp:88-115 | every finished packet is a valid frame for the receiving loop |
| Framing.DrainInStream | network/IOCPManager.cpp:237-296 | draining any part of a stream of valid frames yields its next frames and never disconnects |
| Framing.RunConserves | network/IOCPManager.cpp:237-296 | in every state of every run, emitted frames followed by buffered bytes are the bytes received |
| Framing.RunInStream | network/IOCPManager.cpp:237-296 | for every list of valid frames, every split into reads and every course of the pool: the connection stays open and the emitted frames are the first frames of the list |
| Framing.RunDeliversAll | network/IOCPManager.cpp:237-296 | once the whole stream has arrived by a read that left a packet free, exactly its frames are emitted and nothing is buffered |
| Framing.NeverWedgesWithAFreePacket | network/IOCPManager.cpp:237-296 | after a read that left a packet free, fewer than 4096 bytes stay behind, so the next read has room |
| Framing.RunNeverWedges | network/IOCPManager.cpp:237-296 | in every run in which a packet is left after each notification, an open connection holds fewer than 4096 bytes back, so receiving never wedges |
| Framing.FullBufferIsStuck | network/IOCPManager.cpp:202-296 | a buffer that is full is never read or drained again, however many packets become free |
| Framing.FillsExactly | network/IOCPManager.cpp:237-296 | a notification leaves an open connection with a full buffer if and only if the read fills it to the last byte, no packet is free, and the header in front is not refused |
| Framing.RunWedgesExactly | network/IOCPManager.cpp:202-296 | in every run an open connection has a full buffer, and so is stuck, if and only if some earlier notification met that guard |
| Framing.ValidStreamWedges | network/IOCPManager.cpp:202-296 | four valid frames of 4096 bytes, read at once while no packet is free, are a run that gets stuck and never emits any of them |
| CircularBuffer.MaskedCell | datastructure/circularBuffer.h:26-34 | masking a 64-bit index is reduction modulo 16384, also where the index wraps |
| CircularBuffer.CircularBuffer.Size | datastructure/circularBuffer.h:18-20 | the index difference modulo 2^64 is the number of stored bytes, at most 16384 |
| CircularBuffer.CircularBuffer.FreeSpace | datastructure/circularBuffer.h:22-24 | free space and size add up to 16384 |
| CircularBuffer.CircularBuffer.Insert | datastructure/circularBuffer.h:26-34 | appends all bytes exactly when they fit, and otherwise nothing |
| CircularBuffer.CircularBuffer.Erase | datastructure/circularBuffer.h:36-40 | drops the first bytes exactly when that many are stored |
| CircularBuffer.CircularBuffer.Copy | datastructure/circularBuffer.h:42-49 | copies the first bytes exactly when that many are stored, and changes nothing |
| CircularBuffer.CircularBuffer.Consume | datastructure/circularBuffer.h:53-61 | splits the contents into the bytes handed out and the bytes kept |
| CircularBuffer.CircularBuffer.GetWriteBuffers | datastructure/circularBuffer.h:65-91 | the regions list exactly the free cells in write order, and there are none exactly when the buffer is full |
| CircularBuffer.RegionsDisjoint | datastructure/circularBuffer.h:65-91 | no free cell occurs twice in the regions and none of them holds a stored byte |
| CircularBuffer.CircularBuffer.CommitWrite | datastructure/circularBuffer.h:94-97 | takes the first bytes of the free cells into the contents, or nothing if there are too few cells |
| CircularBuffer.CircularBuffer.Receive | datastructure/circularBuffer.h:65-97 | filling n bytes of the regions and committing n is the same as inserting those bytes |
| Crc32cTable.TopBytesDistinct | protocol/CRC32C.cpp:9-53 | the 256 table entries have pairwise distinct top bytes |
| Crc32c.ChecksumAppend | protocol/CRC32C.cpp:55-103 | the checksum of a ++ b from c is the checksum of b from the checksum of a from c |
| Crc32c.ChecksumEmpty | protocol/CRC32C.cpp:61-67 | no bytes leave the checksum as it is |
| Crc32c.ChecksumSnoc | protocol/CRC32C.cpp:61-67 | one more byte: the complement of the checksum is shifted down by a byte and the table entry of its low byte and the new byte folded in |
| Crc32c.ChecksumOfZero | protocol/CRC32C.cpp:9-68 | over the source's table the byte 0 has checksum 0xC6176ADC |
| Crc32c.ComputeSoftware | protocol/CRC32C.cpp:60-67 | the byte loop computes the checksum |
| Crc32c.ComputeHardware | protocol/CRC32C.cpp:86-103 | the loop over eight bytes and then single bytes computes the same function of its table as the byte loop |
| Crc32c.Compute | protocol/CRC32C.cpp:55-68 | whichever loop is taken, the result is the checksum |
| Crc32c.ComputeFileCrc | client/Client.cpp:544-557 | block by block, the file checksum is one pass over the whole file |
| Crc32c.StepBack | protocol/CRC32C.cpp:63-65 | with distinct top bytes, a step can be undone from its result and its byte |
| Crc32c.BurstDetected | protocol/CRC32C.cpp:55-68 | with distinct top bytes, equal-length buffers that differ only within four consecutive bytes have different checksums |
| Crc32c.SoftwareTableDistinct | protocol/CRC32C.cpp:9-53 | the software table has distinct top bytes, so BurstDetected applies to it |
| Wire.FrameAccepted | protocol/Packet.cpp:43-115 | a finished packet passes parseHeader and parseData and decodes to the type, length and payload written |
| Wire.FrameLayout | protocol/Packet.cpp:88-115 | byte by byte: 0xD5, 1, type, length and a zero sequence number in network order, the checksum over these and the payload, the payload |
| Wire.CorruptionRejected | protocol/Packet.cpp:62-81 | an accepted packet changed within four consecutive covered bytes, length and checksum fields alone, is rejected |
| Wire.SoftwareCorruptionRejected | protocol/Packet.cpp:62-81 | the same on the software checksum path without any assumption on the table |
| Wire.SignupRoundTrip | authentication/SignUp.cpp:159-169 | the handler cuts the four strings of a sign-up payload back out |
| Wire.SignupLayout | protocol/Packet.cpp:348-362 | four lengths in network order, then e-mail, number, user name and password |
| Wire.ChunkLayout | protocol/Packet.cpp:193-201 | upload id, offset, size and checksum of the data in network order, then the data |
| Wire.AckLayout | protocol/Packet.cpp:225-235 | upload id, round and count, then entry i at 24 + 4 * i, all in network order |
| Wire.ParseAck | client/Client.cpp:888-896 | the loop reads the missing list entry by entry in network order |
| Wire.SignupSurvives | protocol/Packet.cpp:342-365 | for all four strings that fit: serialized, parsed and extracted they are the same |
| Wire.ChunkSurvives | protocol/Packet.cpp:188-204 | for every chunk that fits: id, offset and data come back and its own checksum matches |
| Wire.AckSurvives | protocol/Packet.cpp:220-238 | for every list that fits: id, round and missing list come back |
| Packet.Packet.FinalizePacket | protocol/Packet.cpp:88-115 | the buffer holds the frame of the payload written, with the split header and payload checksum equal to one pass |
| Packet.Packet.SerializeSignup | protocol/Packet.cpp:342-365 | succeeds exactly when header, lengths and strings fit in 4096 bytes, and then the buffer is that frame |
| Packet.Packet.SerializeFileChunk | protocol/Packet.cpp:188-204 | succeeds exactly for at most 4048 bytes of data, so every chunk of the sender fits |
| Packet.Packet.SerializeFileAck | protocol/Packet.cpp:220-238 | succeeds exactly for lists of at most 1014 entries |
| Packet.Packet.ParseHeader | protocol/Packet.cpp:43-60 | accepts exactly a full header with the start byte and decodes its fields |
| Packet.Packet.ParseData | protocol/Packet.cpp:62-81 | accepts exactly when the header was parsed, the payload is complete and the checksum over both parts matches |
| Packet.Packet.Parse | network/IOCPManager.cpp:339-341 | the two calls in a row accept exactly the packets the specification accepts |
| SendSlot.ManageOffline.ManageCompletePacket | offlineManager/ManageOffline.cpp:15-56 | appends the packet and, if the flag was down, tries the front packet and leaves the flag as that went |
| SendSlot.ManageOffline.DrainNext | offlineManager/ManageOffline.cpp:58-94 | drops the completed front, tries the next one, and lowers the flag when nothing is left or the try failed |
| SendSlot.ManageOffline.NotifySend | offlineManager/ManageOffline.cpp:106-131 | tries the front packet of a waiting queue whose flag is down |
| SendSlot.SendCompletion.FullySent | network/IOCPManager.cpp:411-427 | a completion moves on the queue of the id its socket stands for at that time, and none if there is no such id |
| SendSlot.SendCompletion.ResendFailed | network/IOCPManager.cpp:389-406 | a broken send lowers the flag of the id its socket stands for at that time |
| SendSlot.StepKeepsExactly | network/IOCPManager.cpp:399-426 | from slots in order (flag up exactly when one packet is in flight, which is the queue front; completed ++ queue is the enqueue history; a waiting queue with the flag down had its last attempt fail) a step leaves all in order if and only if the send it settles was over a socket that still stands for its receiver |
| SendSlot.RunKeepsExactly | offlineManager/ManageOffline.cpp:15-131 | in every run of arrivals, completions, broken sends, logins and logouts all slots are in order throughout if and only if every send settled over a socket that still stood for its receiver |
| SendSlot.PatientRunsKeepTheSlots | offlineManager/ManageOffline.cpp:15-131 | so they are in every run in which no login or logout takes the socket from a receiver with a packet in flight |
| SendSlot.LogoutStrandsTheSlot | network/IOCPManager.cpp:415-425 | a run in which the receiver logs out before its send completes: the flag stays up with nothing in flight, and the packet counts as completed and as queued |
| SendSlot.StrandedStays | offlineManager/ManageOffline.cpp:34-55 | no later arrival, login or logout tries such a receiver's packets again |
| SendSlot.StepElsewhere | offlineManager/ManageOffline.cpp:22-29 | a step leaves the queue, flag and traffic of every receiver alone but the one it is for and the one its socket stands for |
| SendSlot.CompletedInOrder | offlineManager/ManageOffline.cpp:69-88 | where a slot is in order, its sends have completed in the order of arrival and what is in flight is the next in that order |
| SendSlot.WaitingQueueRetries | offlineManager/ManageOffline.cpp:34-40 | a queue left waiting tries its front packet again at the next arrival or reconnection |
| Sessions.SessionPool.constructor | pool/SessionPool.cpp:7-13 | all 10000 slots are free, listed in order |
| Sessions.SessionPool.BorrowSession | pool/SessionPool.cpp:19-38 | takes the front of the free list, or null exactly when it is empty |
| Sessions.SessionPool.ReturnSession | pool/SessionPool.cpp:39-63 | clears socket and user id, keeps `updated`, and appends the slot to the free list |
| Sessions.SessionManager.AddSession | session/SessionManager.cpp:37-42 | the borrowed slot stands under the id and its socket leads to the id |
| Sessions.SessionManager.RemoveSession | session/SessionManager.cpp:44-55 | takes id and socket out of the maps and the slot back to the pool, or changes nothing |
| Sessions.SessionManager.RemoveBySocketHandle | session/SessionManager.cpp:57-73 | the same, found by socket |
| Sessions.SessionManager.UpdateId | session/SessionManager.cpp:6-36 | re-registers the slot, putting out a session of the same user on another socket; maps and pool stay consistent exactly under the condition of UpdateKeepsExactly |
| Sessions.SessionManager.FindSession | session/SessionManager.cpp:75-82 | with consistent maps the session found is out of the pool and its socket leads back to the id; none is found exactly when no socket stands for the id |
| Sessions.SessionManager.FindBySocket | session/SessionManager.cpp:84-93 | the slot whose socket this is, or null |
| Sessions.SessionManager.GetUserIdBySocket | session/SessionManager.cpp:95-102 | with consistent maps the id leads back to the session of this socket, or it is empty and no live session has this socket |
| Sessions.RemoveBySocketIsRemove | session/SessionManager.cpp:57-73 | removing by socket is removing the id the socket stands for |
| Sessions.UpdateKeepsExactly | session/SessionManager.cpp:6-36 | updateNewId keeps the maps inverse and the pool partitioned if and only if the slot stands under the id passed in, or already under its user id with that id unused |
| Sessions.TempIdsDiffer | network/IOCPManager.cpp:315 | temporary ids of different sockets differ, and none is a user id |
| Sessions.StepKeeps | session/SessionManager.cpp:6-73 | connect, login, logout, disconnect and both removals keep maps, pool and names consistent |
| Sessions.EveryRunKeepsTheMaps | session/SessionManager.cpp:6-93 | after every run the two maps are inverse to each other, each live slot stands under exactly one id, and free list and live slots partition the pool of 10000, so no session is returned twice |
| Sessions.FreePlusLive | pool/SessionPool.cpp:19-63 | with consistent maps, free slots plus sessions in the maps are the whole pool |
| Sessions.LoginTakesOver | session/SessionManager.cpp:14-34 | a first login leaves the user's id with this socket's session alone and returns the displaced one |
| Sessions.DisconnectLeaves | network/IOCPManager.cpp:525-531 | a closed socket leaves socket and id out of the maps, the slot cleared and last in the free list, and everything else alone; without a session nothing changes |
| Sessions.LogoutLeaves | chat/MessageRouter.cpp:158-162 | a logout does the same to the session under the sender's user id |
| Sessions.ConnectLeaves | network/IOCPManager.cpp:314-326 | the first packets on a socket give it the first free slot under its temporary id, and nothing else changes |
| Sessions.RepeatedLoginLeaves | chat/MessageRouter.cpp:94-117 | a login on a session renamed before changes its user id alone |
| PacketPool.PacketPool.constructor | pool/PacketPool.cpp:6-13 | all indices are free, none in use, peak 0 |
| PacketPool.PacketPool.NextFree | pool/PacketPool.cpp:23-57 | the inner loop skips exactly the indices in use |
| PacketPool.PacketPool.BorrowPacket | pool/PacketPool.cpp:23-57 | hands out the front index, so the inner loop ends on its first pass; null exactly when none is free; the peak is the maximum in-use count so far |
| PacketPool.PacketPool.ReturnPacket | pool/PacketPool.cpp:61-87 | wipes a known packet and frees it if it was in use; a repeated return wipes it and changes nothing else, an unknown index changes nothing |
| Common.FreePlusInUse | pool/PacketPool.cpp:6-87 | free and in-use packets add up to the pool |
| IOContextPool.QueueCapacity | pool/IOContextPool.h:24-30 | the index queue asked for 20000 gets capacity 32768, so returning always finds room |
| IOContextPool.ReturnConserves | pool/IOContextPool.h:55-68 | returning keeps the partition of free and borrowed contexts if and only if the context was borrowed |
| IOContextPool.IOContextPool.constructor | pool/IOContextPool.h:24-30 | all 20000 contexts are free |
| IOContextPool.IOContextPool.BorrowIOPdata | pool/IOContextPool.h:36-54 | hands out a context that was not borrowed, or null exactly when all 20000 are out; free plus borrowed stay 20000 and the peak is the maximum |
| IOContextPool.IOContextPool.ReturnIOPdata | pool/IOContextPool.h:55-68 | puts the context back and clears it; the pool stays consistent if and only if the context was out |
| IOContextSteps.StepKeeps | pool/IOContextPool.h:36-68 | under any interleaving of borrows and returns through the ring, each step keeps every index in exactly one place: in the ring under one ticket, with one pop, with a borrower, with one push, or dropped |
| IOContextSteps.NeverFull | pool/IOContextPool.h:24-68 | the ring of 32768 never fills up with 20000 indices |
| IOContextSteps.LosesExactly | pool/IOContextPool.h:64 | a step drops an index if and only if it is a return that reads the slot of the next ticket while the pop of the ticket one capacity earlier has claimed and not released it |
| IOContextSteps.PoolKeepsAllExactly | pool/IOContextPool.h:24-68 | in every run from the constructor, so for 20000 contexts over 32768 slots, the pool keeps all its indices if and only if no step is such a read |
| IOContextSteps.IndexGetsLost | pool/IOContextPool.h:36-68 | for any pool of at least two contexts and fewer than slots, so for 20000 over 32768, a run in which one pop stalls, another thread borrows and returns for a whole turn of the ring, and its return drops the index |
| RefreshFamilies.RefreshFamilyStore.AdvanceTokenId | authentication/auth_store.h:165-190 | accepts exactly the current token id of a family not revoked and counts up; a mismatch revokes |
| RefreshFamilies.AcceptedInOrder | authentication/auth_store.h:138-209 | in every run with generator-fresh ids the token ids accepted for a family are 1, 2, ..., n in order; the next accepted is n + 1 and only while the family is stored and has met no mismatch, revoke or remove |
| RefreshFamilies.NothingAfterTheEnd | authentication/auth_store.h:165-209 | after the first mismatch, revoke or remove nothing more is accepted, whatever follows |
| Auth.AuthManager.IssueTokenPair | authentication/AuthManager.cpp:409-461 | signs an access token that names the user given, issued now and expiring 900 seconds later, and takes the next family id |
| Auth.AuthManager.ValidateAccessToken | authentication/AuthManager.cpp:465-512 | accepts exactly signed, unexpired tokens of the current key |
| Auth.AuthManager.CacheAuthOnSession | authentication/AuthManager.cpp:564-591 | caches user id and expiry and marks the session authenticated |
| Auth.AuthManager.ProcessLogin | authentication/AuthManager.cpp:288-405 | good credentials sign a token for the user, insert its family at token id 1 and cache user and expiry; bad ones change nothing |
| Auth.AuthManager.HandleTokenPacket | authentication/AuthManager.cpp:123-160 | a verified token caches its own user and expiry and signs a new one for that user; any other changes nothing |
| Auth.AuthManager.HandleRefreshPacket | authentication/AuthManager.cpp:162-218 | an accepted refresh caches a new token's expiry; a refused family clears the session and revokes; an invalid token changes nothing |
| Auth.AuthenticationHasASource | authentication/AuthManager.h:158-175 | in every run an authenticated slot was authenticated by some event that had the last word, for the cached user and 900 seconds before the cached expiry |
| Auth.GateExactly | chat/MessageRouter.cpp:70-90 | in every run a packet passes the gate at a time if and only if the last event to touch the slot's authentication is one backed by an access token issued less than 900 seconds before |
| Auth.GateMeansBorrowerAuthenticated | chat/MessageRouter.cpp:70-90 | when handlers hold sessions that are not back in the pool, a packet that passes follows, since the slot's last borrow, an authentication backed by a token for the cached user signed less than 900 seconds before |
| Auth.FreshPassesExactly | pool/SessionPool.cpp:19-53 | a freshly borrowed session passes if and only if its slot was authenticated while it lay in the pool, within 900 seconds of that token's issue |
| Auth.FreshNeverPasses | pool/SessionPool.cpp:48-53 | so it never passes when no handler authenticates a session that is back in the pool |
| Auth.LoginAfterReturnPersists | chat/MessageRouter.cpp:94-162 | but it does pass after a logout and a login in one batch, the login being handled for the session that the logout returned |
| Auth.SignedExactly | authentication/AuthManager.cpp:409-434 | in every run the tokens that verify are exactly those signed in answer to a login, an accepted refresh or a verified token, for the user concerned, at the time of that event and for 900 seconds |
| Auth.TokenAcceptedExactly | authentication/AuthManager.cpp:465-512 | a token is accepted at a time if and only if the server signed it less than 900 seconds before |
| Auth.EveryTokenHasALogin | authentication/AuthManager.cpp:409-420 | every token names a user who logged in or had a refresh token accepted before |
| Auth.CachedUserHasALogin | authentication/AuthManager.cpp:564-591 | the cached user id of every authenticated slot is that of a user who logged in or had a refresh token accepted before |
| Auth.BypassIsAdmitted | chat/MessageRouter.cpp:70-75 | login, sign-up, both one-time-password packets, token and refresh pass whatever the session |

## Left out

- Winsock, completion ports, file mapping, condition variables, clocks and logging: events and given values here.
- `Fqueue::empty` and `size`, and the wrap of its 64-bit tickets.
- Weak memory orders of the queues: every atomic access is one sequentially consistent step.
- The destructor of the linked queue, which leaves the last stub's data.
- The byte count in `initiateSend`: server-to-client traffic is at message level.
- The requeue after a failed completion, packets that bypass the queue, and interleavings inside the handlers of `ManageOffline`.
- The field `roundReceivedCount`, which no code reads; file names, receiver ids and the stored CRC of an upload; several uploads at once.
- The zero-byte send of an acknowledgement that did not fit, and the disconnect that follows: a stop of the worker here.
- A partial file that cannot be opened, and the error packet for a file over 5 MB, which goes to another client.
- The set of disconnected sockets, which can make a close event do nothing for a reused handle.
- The download sender and the client's receive loop.
- A second FILE_START for an upload whose worker still runs or whose first FILE_START is unanswered.
- UploadHandlers.UploadReceiver.HandleRoundEnd: requires the chunk count to stay within the round buffer, past which the source reads; `UploadProtocol.RoundsAgree` shows that it does.
- Packet.Packet.ParseData: requires a payload length within the packet buffer, past which the source reads; the framing loop lets no other packet through.
- Packet.Packet.Parse: requires the same of the header in front.
- Wire.ParseAck: requires the list to lie within the payload, past which the source reads.
- Crc32c.Compute: one table for both paths; the processor's own is not in the source.
- Crc32c.ComputeHardware: the 64-bit instruction is eight byte steps over a given table, not the processor's own polynomial.
- FixedQueue.Fqueue.Push: one call at a time; interleavings are in `FixedQueueSteps`.
- FixedQueue.Fqueue.Pop: one call at a time; interleavings are in `FixedQueueSteps`.
- MpscList.MpscQueue.Push: one call at a time; interleavings are in `MpscQueue`.
- MpscList.MpscQueue.Pop: one call at a time and without `delete`; interleavings and freed memory are in `MpscQueue`.
- MpscList.MpscQueue.Front: one call at a time; interleavings are in `MpscQueue`.
- MpscList.MpscQueue.IsEmpty: one call at a time; interleavings are in `MpscQueue`.
- UploadHandlers.UploadState.FillRound: every read gives the bytes asked for; a short read, on which the source goes on with a shorter chunk or leaves the loop, needs a file that shrinks during the upload.
- UploadProgress.ResumeCompletes: one schedule exists; `UploadTermination.EveryScheduleCompletes` is the statement for all of them.
- Auth.GateMeansBorrowerAuthenticated: under the condition that no handler authenticates a session that is back in the pool; `Auth.FreshPassesExactly` shows that the condition is needed.
- Equality of hardware and software checksums: the table is not the processor's.
- Serializers and payloads other than sign-up, file chunk and file acknowledgement.
- Packets later in a batch than one that removed their session, as far as the session maps go: `Sessions` finds the session of each packet by its socket. `Auth` covers them.
- Failure of `crypto_auth`, which would leave a session renamed but not registered; password hashing, HMAC internals, one-time passwords and e-mail.
- The claim that the maps are updated after every login: `updated` survives `returnSession`, so a reused slot is not renamed.
- Families issued by refresh or token packets are never inserted, so chained refreshes are not a property of this code; `RefreshFamilies` has the store alone.
- The tables and caches of datastructure/table.h, group membership, the command-line client and server wiring.
