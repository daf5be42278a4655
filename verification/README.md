# SwiftNet in Dafny

A model of SwiftNet's reliable chunked transport and of the data structures it stands on, with proofs
about every run, every interleaving and every input.

- **Transfer protocol** (`Chunks`, `Protocol`, `Reassembly`, `ProtocolInvariant`, `ProtocolSafety`,
  `ProtocolProgress`, `ProtocolDelivery`, `ProtocolReturn`, `ProtocolHandover`, `ProtocolUpdates`). Any number of
  sending calls run against one receiving endpoint.
  The network is the set of all frames ever sent, and a frame in it may be dequeued never, once or often, in
  any order, so loss, duplication and reordering are all runs. One dequeued frame, one chunk sent, one poll,
  one resent chunk, each half of the write of a lost list, and the load and the reset of the `updated` word, is
  one step. Memory fresh from `malloc` holds
  `Undefined` cells, so reading what was never written shows.
- **The receiving endpoint as code** (`Bitmap`, `Endpoint`). The bitmap loops work on arrays in place, and the
  endpoint is a class over its tables; every method is proved equal to the protocol's transition function.
- **Framing in place** (`Framing`), the **linked queues** (`PacketQueue`), the **request slots**
  (`RequestSlots`), **CRC-32** (`Crc32`).
- **Hash map** (`HashTable`, `HashSpec`, `HashMap`). Inline heads, chains of pooled nodes, multiply-shift
  placement, growth. Its abstract value is a queue of values per key.
- **Allocator**, twice: every atomic access a step of one of many threads (`AllocatorThreads`,
  `AllocatorInvariant`, `AllocatorSafety`, `AllocatorLocks`, `AllocatorAlone`), and a class used by one thread
  (`Allocator`); a thread that is alone does what the class does. `Words` says what the bitwise operations do.
- **Packet buffers** (`PacketBuffers`). The row of network buffers refines the flat buffer.

Where the code does less than it seems to intend, the code is modelled as it is and the exact condition is
proved:

- a chunked message is handed on intact if and only if its chunk 0 is dequeued first and its length is no
  multiple of the chunk size (`HandedContent`, `ArrivalOrderDecides`);
- a message can be delivered intact in some run if and only if it fits one chunk, or is longer than the MTU
  and no multiple of the chunk size (`DeliverableIff`); in between it is never handed on
  (`OverlongFrameNeverHanded`);
- a chunked sending call that is on its way, in whatever phase, can return if and only if its message was not
  abandoned, that is, recorded complete without being handed on; without a further request registering, if and
  only if it was handed on, or is incomplete and somebody waits for it (`StuckIffAbandoned`). The completing
  frame hands a message on if and only if it is no response or its request still waits (`CompletionHandsOn`,
  `CompletionDecides`), and every chunked response can be abandoned (`AbandonedRun`);
- as long as the receiver has dequeued no frame of a message it answers none of its polls, so recovery cannot
  start before a first-pass frame arrives (`SilentReceiver`);
- the copy of a first arrival reads inside its frame if and only if that frame is not the short last chunk
  (`CopyInBounds`, with `ShortChunkFirst` and `ShortChunkExample` for the failing input);
- an acknowledgement that comes in while a call is on its way is lost if and only if it comes between the load of
  an older update and the store that clears it (`AckSeenIff`);
- stack locks are exclusive, and every item is in one place, in every run with at most n stacks if and only if
  n <= 32 (`ExclusiveIff`, `PartitionIff`);
- request slots are safe in every run if and only if no two requests share a packet id (`SafeIffDistinct`);
- the hash map's `size` stays exact under a removal if and only if the key is not the stale key of an emptied
  head (`HashMap.HashMap.Remove`); a key inserted once and removed twice makes it 2^32 - 1 (`RemovedTwice`).

## Model

| member | source | states |
|---|---|---|
| Chunks.IndexBounds | src/send_packet.c:318-405 | an index is below the chunk count exactly when its offset lies in the message, and is the last exactly under the test the sending loop makes |
| Chunks.LastSize | src/process_packets.c:772 | length % chunk size is the last chunk's size exactly when the length is no multiple of the chunk size; otherwise the last chunk is full |
| Chunks.SlicesPartition | src/send_packet.c:386-438 | the chunks' bytes, concatenated in order, are the message |
| Chunks.SwapNumber | src/internal/internal.h:361 | the id on the wire has quotient and remainder by 256 of the sender's id exchanged, and swapping it again gives it back |
| Reassembly.AcceptBuffer | src/process_packets.c:772-900 | copying one more chunk keeps the byte-by-byte description of the reassembly buffer: each set bit, other than the first arrival's, means that slice is the sender's |
| Reassembly.CompleteBuffer | src/process_packets.c:778-785 | with all bits set, a byte is right exactly when its chunk was neither the misplaced first arrival nor a full last chunk |
| Reassembly.ExactWhole | src/process_packets.c:698-783 | the whole buffer equals the payload if and only if chunk 0 came first and the length is no multiple of the chunk size |
| ProtocolInvariant.StepInv | src/process_packets.c:500-906 | every step of senders, receiver, callback thread and requesters preserves the protocol invariant |
| ProtocolInvariant.ExecInv | src/process_packets.c:500-906 | the invariant holds after every run |
| ProtocolSafety.HandedContent | src/process_packets.c:687-906 | whatever is handed on in any run was sent under that key with that length; single frames arrive byte for byte, chunked messages if and only if chunk 0 was dequeued first and the length is no multiple of the chunk size, and the wrong bytes are exactly named |
| ProtocolSafety.AtMostOnce | src/process_packets.c:668-671 | no run hands on two messages with one (source port, packet id), to callback queue or request slot, single-frame or chunked |
| ProtocolSafety.AcknowledgedMeansHanded | src/send_packet.c:151-164 | a sending call is on its completed path only if the receiver recorded the message complete, dropped its pending entry, handed it on exactly once and no longer has it queued |
| ProtocolSafety.AcknowledgedContent | src/send_packet.c:42-58 | what an acknowledged sender's message was handed on as, with the exact condition for being intact |
| ProtocolSafety.CounterMatchesBitmap | src/process_packets.c:694-696 | in every reachable state the chunk counter equals the number of set bits, none at or above the chunk count, and all are set exactly when the message is recorded complete |
| ProtocolSafety.CompletionFiresAtLastChunk | src/process_packets.c:766-805 | a data frame completes a chunked message if and only if it carries the only chunk still missing |
| ProtocolSafety.OverlongFrameNeverHanded | src/process_packets.c:688-702 | a single frame longer than a chunk but not than the MTU opens an entry that never completes: no run records it complete or hands it on |
| ProtocolSafety.ResendInBounds | src/send_packet.c:167-170 | the lost list always fits the sender's buffer and every index resent is below the chunk count, even when a reply overwrites the list during the walk |
| ProtocolSafety.CopyInBounds | src/process_packets.c:682-698 | both ends derive the same chunk size; every copy into a pending buffer stays inside the buffer; copies of later chunks read inside the frame, and the copy of a first arrival does if and only if the frame carries another chunk than the last or the last one is full |
| ProtocolDelivery.ShortChunkFirst | src/process_packets.c:698 | every chunked message with a short last chunk has a run in which that chunk can be dequeued first, so that the copy reads past the frame |
| ProtocolDelivery.ShortChunkExample | src/process_packets.c:698 | a concrete message for which it does |
| ProtocolSafety.CompletionHandsOn | src/process_packets.c:151-182 | in every run the step that records a message complete hands it on if and only if it is no response or its request waits in a slot |
| ProtocolSafety.HandedStable | src/process_packets.c:805-866 | once recorded complete, a message is handed on in that same step or in no later one |
| ProtocolSafety.AbandonedNeverAcknowledged | src/process_packets.c:156-160 | a chunked message recorded complete but not handed on keeps its pending entry for ever, and its sending call returns in no continuation |
| ProtocolProgress.MissingSpec | src/process_packets.c:28-70 | the lost list is exactly the clear positions below the chunk count, ascending |
| ProtocolProgress.DequeueAll | src/process_packets.c:763-906 | dequeuing frames of any chunks in any order with any repetitions adds exactly those chunks and completes the message exactly when none is missing |
| ProtocolProgress.LosslessRound | src/send_packet.c:132-206 | a poll, reply and resend round without loss lowers the missing chunks by exactly min(missing, (mtu - header) / 4), in whatever order the resent frames arrive |
| ProtocolProgress.RoundsExact | src/send_packet.c:132-206 | for every sequence of n lossless rounds, in any arrival orders: exactly max(0, missing - n * ((mtu - header) / 4)) chunks are missing, the message is recorded complete if and only if n >= ceil(missing / ((mtu - header) / 4)), and is then handed on if and only if somebody waits for it |
| ProtocolProgress.RoundsExist | src/send_packet.c:132-206 | from every state in transfer any number of lossless rounds can follow |
| ProtocolDelivery.WaitingExec | src/process_packets.c:805-866 | in every run a completed message that is no response keeps its pending entry only while it is on the callback queue |
| ProtocolDelivery.DrainQueue | src/execute_packet_callback.c:79-117 | running the callback thread settles a completed message |
| ProtocolDelivery.AckRuns | src/process_packets.c:513-544 | a settled message is acknowledged at the next poll and the call returns |
| ProtocolDelivery.TakenExec | src/process_packets.c:151-182 | in every run a completed message that is no response was handed on, and a response that was handed on has left the pending table |
| ProtocolReturn.ReturnIff | src/send_packet.c:132-206 | wherever a chunked call is on its way, once its message is recorded complete it can return if and only if the message was handed on |
| ProtocolReturn.CompletionDecides | src/process_packets.c:156-160 | after the frame that completes a chunked message, the call can return if and only if the message is no response or its request waited at that moment |
| ProtocolReturn.AbandonedRun | src/process_packets.c:156-160 | every chunked response has, for every order of its frames, a run in which it is recorded complete, handed to nobody, and its call can never return |
| ProtocolReturn.TransferFinishes | src/send_packet.c:132-206 | after every long enough sequence of lossless rounds the call can return if and only if somebody waited for the message |
| ProtocolReturn.SentExec | src/send_packet.c:386-438 | in every run the frames a call has passed in its first pass are in the network, all of them once it polls |
| ProtocolReturn.StuckIffAbandoned | src/send_packet.c:132-206 | in every run, for a chunked call in any phase of its way and any chunk size: it can return if and only if its message is not recorded complete without having been handed on; and with no further request registering, if and only if it was handed on, or is incomplete and wanted |
| ProtocolReturn.SilentReceiver | src/process_packets.c:513-544 | in every run, while no frame of a message has been dequeued, no reply to its polls exists and the call has seen no list, resent nothing and not returned |
| ProtocolDelivery.FirstPass | src/send_packet.c:386-438 | the first pass emits exactly one frame per chunk, indexes 0, 1, 2 and so on, and ends in the polling loop |
| ProtocolDelivery.ArrivalOrderDecides | src/process_packets.c:687-702 | for every order in which all frames of a message arrive, it is handed on, and is intact if and only if chunk 0 leads and the length is no multiple of the chunk size |
| ProtocolDelivery.DeliverableIff | src/send_packet.c:322 | some run delivers a message intact if and only if it fits one chunk, or exceeds the MTU and is no multiple of the chunk size |
| ProtocolHandover.CallbackOrder | src/execute_packet_callback.c:10-37 | in every run, after n steps of the callback thread it has taken exactly the first n of the messages handed on that are no responses, in that order and each once, and the others are on the queue in order |
| ProtocolHandover.AcknowledgedMeansTaken | src/execute_packet_callback.c:108-117 | a chunked call that is no response returns through its completed path only after the callback thread has taken its message off the queue |
| ProtocolHandover.WaitingIffRegistered | src/process_packets.c:151-164 | in every run a request waits under an id if and only if the latest event for that id is its registration, and not its removal or a response handed on |
| ProtocolHandover.AnswersBounded | src/process_packets.c:156-164 | in every run the responses handed on under an id, plus the request still waiting, never outnumber the registrations of that id: a second response finds nobody and goes nowhere |
| ProtocolUpdates.AckSeenIff | src/send_packet.c:42-54 | in every run an acknowledgement that reaches a call on its way lets it return without any further reply if and only if the call is not between loading an older update and clearing the record |
| ProtocolUpdates.ListReplaced | src/process_packets.c:606-610 | every message of three chunks or more, with room for one list entry, has a run in which a call is about to resend chunk 1 and a second reply puts chunk 2 into that entry during the walk |
| Bitmap.SetOne | src/process_packets.c:208-216 | or-ing one bit into its byte adds exactly that index to the set of received chunks |
| Bitmap.ChunkReceived | src/process_packets.c:208-216 | the in-place form of that |
| Bitmap.ChunkAlreadyReceived | src/process_packets.c:204-206 | true if and only if the index is in the set |
| Bitmap.ScanByte | src/process_packets.c:42-58 | one bit loop appends the clear positions of a byte to the list, or stops with a full buffer |
| Bitmap.ReturnLostChunkIndexes | src/process_packets.c:28-70 | terminates with exactly the ascending list of clear positions below the chunk count cut to its first size / 4 entries, for every bitmap and count |
| Endpoint.PendingMessage.constructor | src/process_packets.c:218-258 | a new pending message holds its first chunk's bit, counter 1 and that chunk's bytes at offset 0 |
| Endpoint.PendingMessage.Accept | src/process_packets.c:772-900 | storing a further chunk in place is the protocol's Accept |
| Endpoint.Endpoint.HandOver | src/process_packets.c:151-201 | a finished message goes to the slot of the request waiting for it, which then waits no longer, or to the callback queue, as in the protocol, whose runs WaitingIffRegistered and CallbackOrder describe |
| Endpoint.Endpoint.ReceiveFrame | src/process_packets.c:668-906 | one dequeued data frame changes history, pending table, bitmap, buffer, queue and slots exactly as the protocol's ReceiveData |
| Endpoint.Endpoint.AnswerPoll | src/process_packets.c:511-581 | the answer to a poll is the lost list, the acknowledgement or silence, as the protocol's Reply |
| Endpoint.Endpoint.RunCallback | src/execute_packet_callback.c:10-37 | the queue was one node carrying the message returned, followed by what is queued now; the node's pending entry is dropped |
| Framing.Emit | src/send_packet.c:397-433 | saving, overlaying, sending and restoring yields header plus the following bytes and leaves the whole buffer as it was |
| Framing.SendChunks | src/send_packet.c:386-438 | one frame per chunk, in order, each carrying exactly its slice of the message; the buffer is unchanged |
| Framing.ResendChunks | src/send_packet.c:167-206 | each resent frame carries the slice its chunk carried the first time; the buffer is unchanged |
| PacketQueue.Queue.Insert | src/handle_packets.c:14-39 | the node becomes the last of the first-to-last chain and of everything that ever entered |
| PacketQueue.Queue.Next | src/process_packets.c:306-333 | the oldest node leaves; what left followed by what is queued is always what entered, so nothing is lost, repeated or overtaken |
| RequestSlots.StepOK | src/make_request.c:11-74 | every step of requesters, timeouts and receiving threads keeps the slot invariant |
| RequestSlots.SlotsSafe | src/process_packets.c:151-165 | with distinct ids, in every interleaving each slot is filled at most once between being taken and freed, never afterwards, and no request returns another's response, the two byte swaps of the id having cancelled |
| RequestSlots.Outcome | src/make_request.c:53-74 | with distinct ids, in every run a call ends with the response to its own request if and only if it saw its slot filled and took it, and with none if and only if it timed out and gave the slot back |
| RequestSlots.SlotsReturned | src/make_request.c:11-19 | with distinct ids, in every run a slot is out of the pool if and only if a request under way has it, and then exactly one has |
| RequestSlots.AnsweredRun | src/make_request.c:63-68 | every request has a run in which it is registered, answered, and returns its own response |
| RequestSlots.SafeIffDistinct | src/send_packet.c:289-309 | slots are filled safely in every run if and only if no two requests share an id |
| RequestSlots.Clash | src/make_request.c:11-19 | the run in which a timeout removes another request's entry of the same id and a response is then stored into a freed slot |
| Crc32.InstructionIsSerial | src/internal/internal.h:154-164 | dividing an operand of any width at once equals feeding its bits one by one |
| Crc32.Crc | src/internal/internal.h:149-167 | for every length, the loop of eight-byte and one-byte steps yields the byte-at-a-time checksum, the standard's division of the whole message, and the complement of a 32-bit register that starts at all ones, takes each byte by exclusive or and then shifts right eight times, adding 0xEDB88320 when a one bit leaves |
| Crc32.RegisterIsSerial | src/internal/internal.h:160-164 | that register on machine words is the bit-serial one, bit by bit, for every byte sequence |
| Crc32.CheckValue | src/internal/internal.h:149-167 | the checksum of the ASCII digits 1 to 9 is 0xCBF43926 |
| Crc32.BurstDetected | src/process_packets.c:335-337 | data that differ only within four consecutive bytes never have equal checksums |
| HashSpec.HashLoop | src/internal/datatype_hashmap.c:14-26 | the loop computes the 64-bit multiply-xor hash of all bytes |
| HashSpec.HashNext | src/internal/datatype_hashmap.c:21-23 | one more byte: each bit of the hash and of the byte are added without carry, the result is multiplied by the seed modulo 2^64; without bytes the hash is 0 |
| HashSpec.ProductIs | src/internal/datatype_hashmap.c:28-32 | high and low word of the repeated addition are quotient and remainder of the product by 2^64 |
| HashSpec.BucketBound | src/internal/datatype_hashmap.c:28-32 | the multiply-shift index is below the capacity, whatever the key |
| HashSpec.BucketIs | src/internal/datatype_hashmap.c:28-32 | the index is the part of the hash range, cut into capacity equal parts in order, in which the hash lies |
| HashSpec.FirstOfKey | src/internal/datatype_hashmap.c:229-242 | the first item with a key is the head of that key's queue, and taking it out affects no other queue |
| HashTable.FillHeadOK | src/internal/datatype_hashmap.c:164-183 | filling an empty head appends to its bucket and keeps chains well formed and key blocks singly owned |
| HashTable.LinkTailOK | src/internal/datatype_hashmap.c:164-183 | the same for a new node behind the last item |
| HashTable.ShiftHeadOK | src/internal/datatype_hashmap.c:245-259 | copying the successor over a removed head takes out exactly the head's entry; the freed key block is referred to by no item |
| HashTable.CutNodeOK | src/internal/datatype_hashmap.c:260-269 | the same for unlinking a later node |
| HashMap.GrowthKeeps | src/internal/datatype_hashmap.c:55-108 | linking all entries again for the new capacity keeps every key's queue in order, puts each entry into its bucket and loses none |
| HashMap.HashMap.constructor | src/internal/datatype_hashmap.c:113-121 | a new map holds nothing |
| HashMap.HashMap.Get | src/internal/datatype_hashmap.c:123-150 | the oldest live value of the key, or NULL exactly when there is none |
| HashMap.HashMap.Insert | src/internal/datatype_hashmap.c:152-195 | the value joins the end of the key's queue, no other queue changes, the counter stays exact if and only if it does not wrap, growth happens exactly when it reaches the capacity, and the key block, new or given back before, counts as in use |
| HashMap.HashMap.Remove | src/internal/datatype_hashmap.c:205-276 | the oldest value leaves the key's queue, no other queue changes, the counter stays exact if and only if the key is not stale, and the key is stale afterwards if and only if an item with it was found and its bucket is now empty; no key block is given back twice |
| HashMap.RemovedTwice | src/internal/datatype_hashmap.c:234-271 | insert, remove, remove of one key leaves an empty map whose size is 2^32 - 1 |
| HashMap.HashMap.Resize | src/internal/datatype_hashmap.c:35-111 | four times the capacity on 32 bits, every queue and the count kept, occupancy bits exactly those of the non-empty buckets |
| AllocatorThreads.MaskReleases | src/internal/datatype_allocator.c:9-11 | and-ing the lock word with the complement of the 32-bit mask leaves exactly the one bits below 32 other than the released one |
| AllocatorInvariant.InitSafe | src/internal/datatype_allocator.c:201-252 | a new allocator has every item in exactly one place |
| AllocatorSafety.StepInv | src/internal/datatype_allocator.c:143-391 | every atomic step of any thread keeps locks, sizes and places right, with at most 32 stacks |
| AllocatorSafety.LocksExclusive | src/internal/datatype_allocator.c:163-198 | in every interleaving with at most 32 stacks no two threads hold one stack |
| AllocatorLocks.LockIffHeld | src/internal/datatype_allocator.c:9-11 | in every interleaving with at most 32 stacks a stack's bit is set if and only if some thread holds the stack, and the creation lock is taken if and only if some thread creates a stack |
| AllocatorLocks.QuietUnlocked | src/internal/datatype_allocator.c:340-391 | whenever every thread has left the allocator, nothing is locked and every stack is counted |
| AllocatorSafety.ItemsPartitioned | src/internal/datatype_allocator.c:322-391 | every item is always in exactly one place: handed out, carried by one thread, or in one slot of one stack |
| AllocatorSafety.NoDoubleHandout | src/internal/datatype_allocator.c:340-353 | an item about to be returned is neither handed out, carried by another thread nor stacked |
| AllocatorSafety.NeverStuck | src/internal/datatype_allocator.c:143-391 | no thread meets an array bound or an undefined shift |
| AllocatorSafety.CollisionAt33 | src/internal/datatype_allocator.c:9-11 | for every chunk size there is a run with 33 stacks in which two threads are inside one stack |
| AllocatorSafety.ExclusiveIff | src/internal/datatype_allocator.c:9-11 | exclusion in all runs with at most n stacks holds if and only if n <= 32 |
| AllocatorSafety.SharedItemAt33 | src/internal/datatype_allocator.c:340-384 | for every chunk size there is a run with 33 stacks in which one item lies in a slot of stack 32 and a thread is about to return it |
| AllocatorSafety.PartitionIff | src/internal/datatype_allocator.c:9-11 | every item is in one place in all runs with at most n stacks if and only if n <= 32 |
| AllocatorAlone.AloneAllocates | src/internal/datatype_allocator.c:322-353 | after any run with at most 32 stacks, a thread that is alone gets the top item of the first stack that holds one, or of a new stack if and only if none does, by its own steps, and everything else is as before |
| AllocatorAlone.AloneFrees | src/internal/datatype_allocator.c:355-391 | ... and an item it gives back goes on top of the first stack that has room; such a stack always exists, so none is created |
| AllocatorAlone.FirstBlock | src/internal/datatype_allocator.c:240-242 | a new allocator hands out its first block from the last item to the first |
| Allocator.Allocator.Find | src/internal/datatype_allocator.c:143-199 | the first stack of fitting size, or none exactly when no size fits |
| Allocator.Allocator.Allocate | src/internal/datatype_allocator.c:322-353 | returns an item not handed out, the top of the first stack that holds one or of a new stack, as a lone thread of the interleaved model does, and calls itself again exactly when every stack is empty, and then once |
| Allocator.Allocator.Free | src/internal/datatype_allocator.c:355-391 | a handed-out item goes on top of the first stack with room, which always exists, so freeing never creates a stack |
| PacketBuffers.ShapedSize | src/internal/dpdk/dpdk_buffer.c:19-56 | in a well-shaped row the payload sizes sum to total_data_size |
| PacketBuffers.SegmentIsChunk | src/internal/dpdk/dpdk_buffer.c:19-56 | segment i carries what chunk i of the message carries |
| PacketBuffers.RunRefines | src/internal/pcap/pcap_buffer.c:7-90 | after any list of in-bounds writes, appends and resizes both buffers have one size and append position and agree on every byte written and in range since |
| PacketBuffers.FlatRunIs | src/internal/pcap/pcap_buffer.c:26-90 | after any in-bounds run the flat buffer holds at every place what the latest operation on it put there and no later resize cut off, and nothing elsewhere; size and append position are those of the operations |
| PacketBuffers.SegmentedRunIs | src/internal/dpdk/dpdk_buffer.c:66-250 | the same of the row of network buffers, wherever anything was put |
| PacketBuffers.AppendsBuild | src/internal/pcap/pcap_buffer.c:78-90 | pieces appended to a new buffer of either form make up their concatenation from the first byte on |
| PacketBuffers.SegmentedBuffer.constructor | src/internal/dpdk/dpdk_buffer.c:19-56 | one full segment per whole frame and one for the rest; nothing written yet |
| PacketBuffers.SegmentedBuffer.Write | src/internal/dpdk/dpdk_buffer.c:193-225 | the segments' concatenation is overlaid with the data at the offset, across segment borders |
| PacketBuffers.SegmentedBuffer.Append | src/internal/dpdk/dpdk_buffer.c:242-250 | the same at the append offset, which moves on |
| PacketBuffers.SegmentedBuffer.Resize | src/internal/dpdk/dpdk_buffer.c:66-183 | growing and shrinking keep every byte still in range, every segment but the last full, and the sizes' sum |
| PacketBuffers.FlatBuffer.Copy | src/internal/pcap/pcap_buffer.c:58-60 | the byte-by-byte copy overlays the block at that place and changes nothing else, and so the part from packet_data_start on |
| PacketBuffers.FlatBuffer.Write | src/internal/pcap/pcap_buffer.c:58-60 | writing at an offset from packet_data_start is the flat specification's write, and the header room is untouched |
| PacketBuffers.FlatBuffer.Append | src/internal/pcap/pcap_buffer.c:78-90 | the data goes to the append pointer, which moves on; seen from packet_data_start this is the flat specification's append |
| PacketBuffers.FlatBuffer.Resize | src/internal/pcap/pcap_buffer.c:26-48 | the new block holds every byte that fits and nothing else, and the append pointer keeps its distance from the data |

## Left out

- Packet capture, DPDK calls, interface, MAC and MTU discovery, thread start and teardown: foreign calls. Timeouts and scheduling are steps that may happen at any time.
- Wakeups through condition variables: nothing here says that a sleeping thread wakes, and no progress claim needs it.
- Weak memory orders: steps are sequentially consistent. Each locked section of a hash table or queue is one step, except where the data it guards is also read without the lock.
- Chunk sending and resending through DPDK buffers: the protocol is that of the pcap path.
- Rejection of corrupted frames: frames built by this library carry ip_sum 0, which skips the check, so frames in the model arrive unchanged or not at all.
- Header bytes of frames: a frame is its fields; in `Framing` headers are arbitrary bytes of the right length, and in particular the resend path's misplaced length patch is not described.
- Dynamic rate limiting, debug output, the vector type.
- The traversal macro and the history sweep: insert and remove never change an occupancy bit and the macro reads clear bits, so no traversal claim holds; history only grows here.
- Packet ids are random in the code; the protocol takes one sending call per (source port, id), and `RequestSlots` proves what happens otherwise for requests.
- 16- and 32-bit wrap-around of message lengths, offsets and frame sizes: lengths are natural numbers, and the results hold where the code's products and sums fit their types. The hash map's 64-bit hash, 32-bit size counter and the allocator's 32-bit mask are modelled as they wrap.
- The sending record is treated as unreachable once the call returned; the window in which the receiving thread still holds a pointer to it is not modelled, nor is reclaiming a pending message while it is read.
- Data handed on is recorded as its bytes at that moment, not as a pointer.
- Observe: may happen before a call's first poll and between its rounds, which the code does not do; such extra runs are covered by the safety results, and no progress result uses them.
- HashMap.HashMap.Insert: requires that growth does not wrap the capacity to zero, where the code goes on with an array of no items; key blocks come from the caller, who must not pass one that an item still refers to.
- HashMap.HashMap.Resize: chain nodes of the old table are not given back to their pool, as in the code; the key block of an emptied head that is filled again is not given back either.
- Allocator.Allocator.Allocate: requires room for another stack among 32 when all are empty; releasing the lock of a 33rd shifts a 32-bit one by 32, which C leaves undefined.
- PacketBuffers.SegmentedBuffer.Write: takes the payload to start behind the headers the code reserves, an Ethernet header included, which is where the DPDK back end puts it; bytes of a network buffer fresh from the pool are unknown.
