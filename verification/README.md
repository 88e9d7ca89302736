# Verified model of the packet network

This project models the reliable, ordered packet sender that the repository builds on UDP, and
proves properties of it in Dafny 4.11: the client/server protocol over whole runs, the deadline
cache it rests on, the two reordering buffers, the packet codec, the XOR erasure code, the worker
pool, the server's buffer hand-off and the pre-generated arena.

`dafny verify dfyconfig.toml` checks everything.

## How it is laid out

| files | what they model |
|---|---|
| `Arithmetic`, `Bytes`, `Packet` | facts about whole numbers, byte strings, big-endian integers, `pkg/packet` |
| `Xor`, `Fec`, `FecClient` | `pkg/fec/xor.go`, and the splitting and framing in `internal/variants/udp-fec` |
| `Order`, `Ring` | the map-based and the ring-based reordering buffer |
| `CacheSpec`, `Cache` | one TTL cache: the list it stands for, and the map with its doubly linked nodes |
| `LayerSpec`, `LayerRuns`, `LayerCache`, `Backoff` | the layered cache over real caches, and the intervals that feed it |
| `Protocol*` | client, network and server as one transition system, and what holds in its runs |
| `UdpClient`, `UdpServer`, `GeneratorLoop` | the loop bodies of client and server on real objects, tied to the transition system |
| `ServerBuffers`, `ServerDelivery` | buffer ownership, and which datagram each worker gets |
| `WorkerPool`, `PoolOrder`, `Pregen` | the pool's drain on close and its order, the arena |

SHA-256 is a parameter: any function from byte strings to 32 bytes. Clock readings, random bytes
and the scheduler's choices are parameters or arbitrary choices too. In `Protocol` every critical
section and every send is a step of its own; the network holds every datagram and every ACK ever
sent, so delivering any of them at any time, or never, is loss, duplication, reordering and delay.
Everything is proved for all settings; the runs that show a promise broken have the program's own
(`ProtocolRuns.DefaultConfig`: ten generators, three layers, thirty server workers).

Classes follow the Go types field by field; each method is proved against a function on values, and
the theorems are about those functions.

## What the proofs found

- **The UDP server acknowledges only what arrives out of turn.** `NewServer`
  (`internal/variants/udp/server.go:58-74`) never makes `outputCh`, so the send in line 164 blocks for
  ever on a nil channel. A worker whose `Insert` releases anything therefore never reaches its ACK
  and never takes another job: `ReleasesCostWorkers`, `AcknowledgedIffOutOfTurn`,
  `InOrderDeliveryIsNeverAcked`, `FirstPacketIsReportedLost` and `WedgedForGood` say what follows.
  `FirstPacketWedges` is a run, and `ThirtyInOrderStopTheServer` another: with the program's own settings,
  the first thirty packets delivered in order stop the server for good. The repository's README promises an
  ACK for every packet and no losses. The QUIC and SCTP servers make their channel.
- **An ACK between a peek and its promotion loses a packet.** `PromoteLayer` pops whatever the tail
  is, and `PeekExpiredScan` and `PromoteLayer` take the lock separately. `ConservationCanFail` is a run
  in which a packet is never heard of again and, unless its ACK still comes, nothing is ever printed;
  `WrongBytesCanBeSent` is the same run one step on, in which its bytes go out under another packet's
  ID with a checksum that fits. `PromoteConservesIff` and `PromoteFaithfulIff` give the exact
  conditions for one promotion, `RunConservesIff` and `RunFaithfulIff` for whole runs;
  `TailStaysUntilItsAck` shows that no other step can break them, and `Undisturbed` names the runs in
  which it does not happen.
- **`Run` may return too early.** It waits for the cache to be empty, not for the ACK receiver and the
  daemon to have inserted what they have taken out of it: `RunReturnsEarly` is a run with nothing
  printed. `DrainedOutput` says, for every run, exactly when all lines are there.
- **An OK can become a LOST**, also where no ACK falls between a peek and its promotion: it is enough
  that the daemon has given the packet up and has yet to say so when the ACK arrives, and that the OK is
  held back behind an earlier ID. `OkBecomesLost` and `EvenUndisturbed` are the runs,
  `StepKeepsOksIff` and `RunKeepsOksIff` the exact conditions.
- **LOST is no proof of loss.** `AcceptedYetUnanswered` says which packets the server has accepted and
  leaves without an ACK: those inserted once, in turn, each of which has blocked a worker, so that there are
  never more of them than workers. Whatever line the client has for one of them is LOST;
  `FirstPacketWedges` ends with such a line. All other accepted packets get their ACK, but it may come too
  late or not at all, and a duplicate is not acknowledged again (server.go:150-152). Only "OK means
  accepted" holds in every run.
- **Deduplication is a lookup and a store under separate locks, and its entries expire.**
  `OnceUnlessRacedOrExpired` says that these are exactly the two ways for an ID to get past it twice, and
  `InsertedTwice` is a run.
- **Layer TTLs above the first are never used**: promotions take `Backoff.Next` instead
  (`pkg/lru/layer.go:138`), which is what keeps the layers sorted (`RunsAreOrdered`). With the client's
  configuration the two agree only for a RetryTimeout of 100 ms (`ConfiguredLayersMatch`).
- **`cleanup` re-arms its own wake-up** whenever something is left in the cache (`pkg/lru/cache.go:246-256`),
  whatever the time until the next deadline: a cache with a finalizer sweeps in a busy loop.
- **`OrderedBuffer` is a map**, although the README calls it a ring; the ring is `RingBuffer`, and
  `RingRefinesBuffer` shows that within its window nobody can tell them apart by what they emit, while
  `LenAgreesIff` says exactly when `Len` can, and `LateCallShows` that it does.
- The two late length errors of `Deserialize` (`pkg/packet/serialize.go:97-107`) cannot occur, and
  neither can a failed `VerifyChecksum` after it: `badChecksum` stays zero and every ACK says OK.

## Model

| member | source | states |
|---|---|---|
| PacketCodec.Packet.SerializeTo | pkg/packet/serialize.go:16-66 | too-long data or extra is refused, nothing touched; else the checksum is filled in if it was unset, the buffer is used if it is long enough and replaced if not, its first bytes are the encoding and the rest of it keeps its contents |
| PacketCodec.Packet.Deserialize | pkg/packet/serialize.go:69-128 | accepts and reads the fields, or refuses with the error, exactly as `Parse` says |
| PacketCodec.Parse | pkg/packet/serialize.go:69-134 | the two late length errors never occur, and whatever is accepted carries the hash of its data |
| PacketCodec.ParseErrors | pkg/packet/serialize.go:69-128 | which inputs are refused, and with which error: fewer than 54 bytes, a data length or an extra length beyond the end, a checksum that is not the hash of the data; all others are accepted |
| PacketCodec.WireFormat | pkg/packet/serialize.go:16-66 | the encoding byte by byte: ID, timestamp (two's complement), data length, data, checksum, extra length, extra, at their offsets, integers most significant byte first |
| PacketCodec.RoundTrip | pkg/packet/serialize.go:16-134 | for all legal sizes, deserialising a serialised packet restores every field exactly when its checksum was unset or right, and is a checksum mismatch otherwise |
| PacketCodec.ParseLayout | pkg/packet/serialize.go:69-134 | bytes following an encoding never change what is parsed |
| PacketCodec.PrefixRejected | pkg/packet/serialize.go:70-113 | every strict prefix of an encoding is refused |
| PacketCodec.ReserializeAccepted | pkg/packet/serialize.go:16-128 | serialising what was accepted gives back the first 54 + data + extra bytes of the input |
| PacketCodec.FieldsReencode | pkg/packet/serialize.go:75-118 | the pieces of an accepted input are the encodings of the fields read from them |
| Bytes.BigEndianDigit | pkg/packet/serialize.go:35-58 | byte i of a k-byte integer is its digit of weight 256^(k-1-i) |
| Bytes.BigEndianRoundTrip | pkg/packet/serialize.go:35-58 | reading back a fixed-width big-endian integer that fits gives the integer |
| Bytes.FromBigEndianRoundTrip | pkg/packet/serialize.go:75-108 | writing a read integer at the same width gives the bytes back |
| Xor.FoldRecovers | pkg/fec/xor.go:40-46 | with the running exclusive or of a column appended, that of all entries but one is the one left out |
| Xor.XorByteAt | pkg/fec/xor.go:43 | a bit of the exclusive or is set exactly when the two bits differ |
| Xor.FoldAt | pkg/fec/xor.go:41-44 | a bit of the running exclusive or of a column is the parity of how many of its bytes have it set |
| Fec.Validate | pkg/fec/xor.go:24-37 | Encode's loop is satisfied exactly with non-nil shards of one common size |
| Fec.ScanShards | pkg/fec/xor.go:61-76 | a completed scan names the one missing shard, if any, and the common size of all others |
| Fec.XorColumn | pkg/fec/xor.go:41-44 | the inner loop computes the exclusive or of byte i over all shards but the skipped one |
| Fec.XorEncoder.Encode | pkg/fec/xor.go:16-54 | accepts exactly the configured number of non-nil, non-empty, equally long shards, reports the first complaint otherwise, and appends the parity: bit k of its byte i is set exactly when an odd number of shards have it set |
| Fec.ValidateComplaint | pkg/fec/xor.go:24-37 | the complaint is about the first shard that is nil or not as long as the first, and says which |
| Fec.XorEncoder.Locate | pkg/fec/xor.go:61-76 | finds the missing shard, or the first reason to refuse |
| Fec.XorEncoder.Recover | pkg/fec/xor.go:57-105 | returns the shards as they are, refuses, or puts the exclusive or of the others in the one empty place |
| Fec.ScanComplaint | pkg/fec/xor.go:61-76 | the refusal is about the first shard that is a second missing one, or of another length, and says which |
| Fec.RecoverRefusals | pkg/fec/xor.go:57-80 | wrong total exactly for another number of shards, all missing exactly for a single empty shard |
| FecClient.PadAndSplit | internal/variants/udp-fec/client.go:194-212 | byte j of shard i is byte i * size + j of the payload, and zero beyond its end; the row left for the parity is all zeros |
| FecClient.ShardSizeCovers | internal/variants/udp-fec/client.go:195 | the shard size is the least that holds the payload in that many shards, and never exceeds its length |
| FecClient.SplitReassembles | internal/variants/udp-fec/client.go:203-212 | appending the shards and cutting to the length gives the payload back |
| FecClient.Frame.SerializeTo | internal/variants/udp-fec/client.go:29-41 | the first bytes of the result are the ID, the shard number and the shard; the buffer is reused exactly when long enough, and the rest of it keeps its contents |
| FecClient.FrameFormat | internal/variants/udp-fec/client.go:29-41 | a frame byte by byte: eight bytes of packet ID, most significant first, one of shard number, the shard |
| FecClient.FrameRoundTrip | internal/variants/udp-fec/server.go:107-123 | the receiver reads packet ID, shard number and shard back from a frame |
| FecClient.SendShards | internal/variants/udp-fec/client.go:194-223 | the frames sent from the one reused buffer are those of the data shards and their parity, in order, numbered modulo 256; an empty payload sends none |
| FecClient.ShardNumbersDistinct | internal/variants/udp-fec/client.go:220 | the shards have numbers of their own if and only if there are at most 255 data shards |
| FecClient.RecoverUndoesOneLoss | pkg/fec/xor.go:57-105 | for 1 to 255 shards and any non-empty payload: every shard is back if at most one frame was lost, and the answer is "multiple missing" if more were |
| FecClient.EndToEnd | pkg/fec/fec_test.go:36-69 | split, encode, frame, lose any one frame, recover, append, cut: the payload |
| Order.OrderedBuffer.Insert | pkg/order/ordered_buffer.go:20-40 | the draining loop releases and keeps what `InsertInto` says, late IDs included |
| Order.InsertStep | pkg/order/ordered_buffer.go:24-39 | something is released exactly when the due ID comes, namely the unbroken run of values from it; the ID becomes known and no other, everything kept lies beyond the next ID |
| Order.RunState | pkg/order/ordered_buffer.go:20-40 | after any history nextID is the least ID never inserted, and what waits is exactly the inserted IDs beyond it, each with its last value |
| Order.EmittedValue | pkg/order/ordered_buffer.go:20-40 | the j-th value ever released is that of ID start + j, with the value it had when the shortest sufficient prefix of the history ended |
| Order.OrderIrrelevant | pkg/order/ordered_buffer.go:20-40 | histories made of the same calls, one value per ID, emit the same and end the same, whatever their order and repetitions |
| Order.PermutationIrrelevant | pkg/order/ordered_buffer.go:20-40 | any permutation of distinct IDs gives the same output |
| Ring.RingBuffer.constructor | pkg/order/ring.go:19-27 | an empty ring over its own arrays |
| Ring.RingBuffer.Insert | pkg/order/ring.go:30-43 | true exactly for IDs within the window, whose slot, at the distance from the start, is then filled with the value; otherwise nothing changes; count stays the number of filled slots |
| Ring.RingBuffer.GetNext | pkg/order/ring.go:46-65 | hands out the next ID's value exactly when its slot is filled, empties the slot and moves on; else changes nothing |
| Ring.RingBuffer.Len | pkg/order/ring.go:68-72 | the number of filled slots |
| Ring.CallSimulates | pkg/order/ring.go:30-65 | one in-window call, then draining: same values as the map-based buffer, and still in agreement, late re-inserts included |
| Ring.RingRefinesBuffer | pkg/order/ring.go:30-65 | for every history the drained ring emits what the map-based buffer emits for the in-window calls |
| Ring.LenCountsLeftovers | pkg/order/ring.go:68-72 | Len is the other buffer's Len plus the number of filled slots below nextID |
| Ring.LeftoversAreLate | pkg/order/ring.go:30-65 | after any history a released ID's slot is filled if and only if some call brought that ID once more after its release |
| Ring.LenAgreesIff | pkg/order/ring.go:68-72 | after any history the two buffers' Len agree if and only if no in-window call brought an ID released before |
| Ring.LateCallShows | pkg/order/ring.go:30-72 | a history in which they differ: one ID inserted twice |
| CacheSpec.SweepIsFullScanIff | pkg/lru/cache.go:234-244 | popping expired tails removes exactly the expired entries, keeping the rest in order, if and only if behind an expired entry there are only expired ones |
| CacheSpec.SortedIffAlwaysFullScan | pkg/lru/cache.go:8-23 | it does so at every time if and only if the list is sorted by deadline |
| CacheSpec.SweepIsFullScan | pkg/lru/cache.go:234-244 | on a list sorted by deadline it does |
| CacheSpec.SweepMissesWhenUnsorted | pkg/lru/cache.go:239 | an illustration: a live tail shields an expired entry |
| CacheSpec.SweptOffIsTheRest | pkg/lru/cache.go:239-244 | what a sweep hands to the finalizer is exactly what it took off, tail first |
| CacheSpec.RemoveKeeps | pkg/lru/cache.go:140-150 | deletion takes out that key's entry and no other, and keeps keys unique and order sorted |
| CacheSpec.PutKeeps | pkg/lru/cache.go:96-117 | setting replaces that key's entry and no other, keeps keys unique, and keeps the list sorted if no deadline in it is later |
| CacheSpec.EveryEntryAccountedFor | pkg/lru/cache.go:96-150 | over any run every entry ever set is still there, handed to the finalizer, popped or overwritten: in one place, as often as it was set |
| LruCache.Cache.EveryEntryIsSomewhere | pkg/lru/cache.go:96-215 | in every state of the object that its methods lead to: every entry ever set is in the list, scheduled for finalization, popped or overwritten, in one place, as often as it was set; with a finalizer what was scheduled is queued or finalized, without one nothing is ever queued or finalized |
| LruCache.Cache.constructor | pkg/lru/cache.go:35-56 | an empty, running cache |
| LruCache.Cache.InsertHead | pkg/lru/cache.go:171-180 | the node becomes the head; prev and next stay inverse |
| LruCache.Cache.RemoveNode | pkg/lru/cache.go:183-196 | the list without that node, its own pointers cleared, prev and next inverse, wherever it stood |
| LruCache.Cache.ScheduleFinalize | pkg/lru/cache.go:199-208 | with a finalizer the queue takes the node exactly when it has room, else the finalizer is called on the spot; without one nothing happens |
| LruCache.Cache.FinalizerWorkerStep | pkg/lru/cache.go:211-215 | the first queued node leaves the queue and is finalized, the rest stay in order |
| LruCache.Cache.Set | pkg/lru/cache.go:96-117 | map and list agree; the key's entry moves to the head with the cache's TTL; a stopped cache changes nothing; the call is recorded as one Set of the run |
| LruCache.Cache.SetWithTTL | pkg/lru/cache.go:290-307 | the same with the given TTL |
| LruCache.Cache.Get | pkg/lru/cache.go:120-137 | the live value, or nothing; an expired entry is removed and scheduled once, anything else is left alone; recorded as one Get of the run |
| LruCache.Cache.Delete | pkg/lru/cache.go:140-150 | the key's entry is removed and scheduled once, if there is one; recorded as one Delete of the run |
| LruCache.Cache.Len | pkg/lru/cache.go:153-157 | the size of the map is the length of the list |
| LruCache.Cache.PeekTail | pkg/lru/cache.go:260-270 | the last entry of the list |
| LruCache.Cache.PopTail | pkg/lru/cache.go:273-287 | the last entry, taken out of map and list and not scheduled; recorded as one pop of the run |
| LruCache.Cache.Cleanup | pkg/lru/cache.go:234-257 | terminates, leaves the swept list, schedules what it took off tail first, and re-arms its wake-up if anything is left |
| LayerSpec.RunsAreOrdered | pkg/lru/layer.go:45-142 | after any sequence of Set, Get, Delete and PromoteLayer under a clock that does not go back, every layer has unique keys, is sorted by deadline, and has no deadline later than its interval from now |
| LayerSpec.PeekIsFullScan | pkg/lru/layer.go:77-93 | on sorted layers the look at the tails finds nothing exactly when nothing anywhere is expired, and else an entry with the earliest deadline of the lowest layer that has an expired one |
| LayerSpec.EarliestIsMinimum | pkg/lru/layer.go:97-114 | on sorted layers it is the minimum deadline over every entry of every layer, absent exactly when there is none |
| LayerSpec.PromoteMovesOne | pkg/lru/layer.go:118-142 | promoting a layer's tail under its own key moves that (key, value) one layer up with the total unchanged, or takes it out of the last layer; every other key stays where it is, and each key lives in one layer |
| LayerSpec.PromoteMembers | pkg/lru/layer.go:118-142 | under any key: exactly the tail leaves its layer and, unless it was the last, exactly the new entry enters the next |
| LayerSpec.SetFirstMembers | pkg/lru/layer.go:45-51 | a new key enters the first layer and disturbs nothing |
| LayerSpec.DeleteMembers | pkg/lru/layer.go:67-73 | the key leaves every layer, and nothing else does |
| LayerSpec.GetMembers | pkg/lru/layer.go:54-64 | where each key has one entry: Get returns a value if and only if it is the live one of some layer, and removes exactly an expired entry of the key |
| LayeredCache.LayerCache.Set | pkg/lru/layer.go:45-51 | over real caches: the first layer's list is updated and its run extended by that Set; the other caches, their nodes and their queues are unchanged |
| LayeredCache.LayerCache.Get | pkg/lru/layer.go:54-64 | over real caches: the first live value found going up, with the expired entries met on the way removed by a Get of their layer |
| LayeredCache.LayerCache.Delete | pkg/lru/layer.go:67-73 | over real caches: every layer loses the key by a Delete of its own, which is what schedules the node |
| LayeredCache.LayerCache.PeekExpiredScan | pkg/lru/layer.go:77-93 | the first layer with an expired tail, and that tail |
| LayeredCache.LayerCache.GetEarliestDeadline | pkg/lru/layer.go:97-114 | the least deadline among the tails |
| LayeredCache.LayerCache.PromoteLayer | pkg/lru/layer.go:118-142 | over real caches: the popped value under the given key one layer up, with the backoff of that layer; or the value and "dead"; or nothing; the layer sees one pop, which schedules nothing, and the next one Set |
| LayeredCache.LayerCache.Len | pkg/lru/layer.go:153-162 | the total over all layers |
| Backoff.ExponentialBackoff.Next | pkg/lru/backoff.go:28-40 | for every multiplier and every sign: the initial interval scaled attempt times, or the ceiling if any interval on the way exceeds it; negative attempts count as none |
| Backoff.IntervalStep | pkg/lru/backoff.go:28-40 | for any multiplier: the first interval is the configured one, never capped; each later one is the one before it scaled, or the ceiling from the first time that would exceed it |
| Backoff.CappedAllTheWay | pkg/lru/backoff.go:28-40 | with a multiplier of at least 1 the early return gives what scaling and capping all the way would |
| Backoff.IntervalsGrow | pkg/lru/backoff.go:28-40 | later attempts never wait less, and never more than the ceiling, unless the first interval already exceeds it |
| Backoff.ClosedForm | pkg/lru/backoff.go:28-40 | with a whole multiplier: min(initial * multiplier^n, max) |
| LayerRuns.LenByStep | pkg/lru/layer.go:45-162 | when keys are set only while absent and promoted only as the tail: Set raises Len by one, a promotion to the next layer leaves it, and it is lowered, by one, only by a promotion off the last layer, the Delete of a present key or the Get of an expired one |
| LayerRuns.EachKeyInOneLayer | pkg/lru/layer.go:45-142 | in every run of that kind each key is in at most one layer, with one entry |
| Backoff.ConfiguredLayersMatch | internal/variants/udp/client.go:67-80 | the layer TTLs the client configures are the ones promotions use exactly when RetryTimeout is 100 ms |
| ProtocolSteps.RunsKeep | internal/variants/udp/client.go:144-301 | in every run, disturbed or not: generators stand at their own IDs, each key has one entry, a peeked ID is still its layer's tail or gone, an entry of layer i has been sent i + 1 times, everything on the wire and at the server is genuine, output is in order |
| ProtocolSteps.GenuineIsDelivered | internal/variants/udp/server.go:70-89 | the server's receive buffer is long enough: every packet the client makes is parsed back whole |
| ProtocolSteps.AckFormat | internal/variants/udp/server.go:171-176 | an ACK byte by byte: eight bytes of ID, most significant first, and 1 for OK or 0 |
| ProtocolThreads.AckArrives | internal/variants/udp/client.go:216-232 | an ACK on the wire, received by an idle receiver: exactly the entries of its ID leave the layers, and its answer is due |
| ProtocolThreads.EveryAckCanArrive | internal/variants/udp/client.go:212-232 | in every run whichever ACK is on the wire can be received; its packet is then pending nowhere, and all others where they were |
| ProtocolThreads.EveryAnswerIsInserted | internal/variants/udp/client.go:234-268 | in every run an OK, FAIL or LOST that is due and not yet printed becomes the line of its ID or is held back for its turn; printed lines stay |
| ProtocolThreads.ReceiverGoesOn | internal/variants/udp/client.go:212-242 | in every run the receiver takes an ACK exactly when it waits for one and that ACK was sent, and inserts exactly after that |
| ProtocolThreads.EveryPacketCanBeTaken | internal/variants/udp/server.go:86-149 | in every run any idle worker can take any packet that was sent, and has then parsed it whole |
| ProtocolThreads.WorkersGoOn | internal/variants/udp/server.go:135-181 | in every run a worker with a packet can do its next step and no other, an idle one can take exactly what was sent, a blocked one can do nothing |
| ProtocolThreads.GeneratorsGoOn | internal/variants/udp/client.go:161-207 | in every run a generator with an ID left can send it with exactly the payloads of the length due, and registers exactly what it has sent |
| ProtocolThreads.DaemonGoesOn | internal/variants/udp/client.go:253-300 | in every run the daemon can do its next step and no other |
| ProtocolThreads.PayloadsHaveTheirLength | internal/variants/udp/client.go:171-179 | in every run the payload generated for an ID is twice the ID long, or as long as the limit |
| ProtocolConservation.PromoteConservesIff | internal/variants/udp/client.go:256-270 | a promotion keeps every registered ID tracked if and only if it pops the peeked ID, nothing, or an ID already answered |
| ProtocolConservation.RunConservesIff | internal/variants/udp/client.go:144-301 | for every run: nothing registered is lost track of at any point if and only if none of its promotions pops a packet that is neither the peeked one nor answered |
| ProtocolConservation.StepConserves | internal/variants/udp/client.go:196-268 | every other step keeps every registered ID pending, answered or in hand, unconditionally |
| ProtocolConservation.TailStaysUntilItsAck | internal/variants/udp/client.go:203-260 | between a peek and its promotion only an ACK deleting that very ID can take the tail away |
| ProtocolConservation.UndisturbedRunsConserve | internal/variants/udp/client.go:144-301 | in every run without that, each registered ID is pending in some layer, answered, or on its way from one to the other |
| ProtocolConservation.DrainedOutput | internal/variants/udp/client.go:103-132 | in every run, disturbed or not: when generators are done and the cache is empty, the printed lines are for IDs 1, 2, 3, ... in order, and are all of them if and only if nothing registered has been lost track of and no unanswered ID is in the hands of the ACK receiver or the daemon |
| ProtocolForgotten.StaysForgotten | internal/variants/udp/client.go:230-268 | no step but the arrival of its own ACK finds a forgotten packet again |
| ProtocolForgotten.ForgottenForGood | internal/variants/udp/client.go:230-268 | so, without it, neither its line nor any later line is ever printed |
| ProtocolAnswers.StepKeepsOksIff | internal/variants/udp/client.go:230-268 | a step keeps every OK the client has, printed or held back, if and only if it is not the LOST of an ID whose OK is still held back |
| ProtocolAnswers.RunKeepsOksIff | internal/variants/udp/client.go:212-268 | for every run: an OK once given stays one if and only if no step of the run is such a LOST |
| ProtocolDrain.EveryDaemonRun | internal/variants/udp/client.go:253-300 | from any quiet point of a run with nothing lost track of: every schedule of clock and daemon, with no ACK arriving, makes at most three moves for each promotion left, and everything is done and printed, one line for each ID in order, if and only if it has made that many |
| ProtocolDrain.DaemonFinishes | internal/variants/udp/client.go:117-132 | and every such schedule, at whatever point it stops, can be completed; from a quiet point in at most 4 * Work steps |
| ProtocolData.PromoteFaithfulIff | pkg/lru/layer.go:128-140 | a promotion keeps cached bytes and IDs together if and only if the popped key is the peeked one, or nothing is kept or popped, or the two IDs happen to have the same payload |
| ProtocolData.RunFaithfulIff | internal/variants/udp/client.go:190-283 | for every run: held, cached, resent and sent packets carry their own ID's payload throughout if and only if that holds of each of its promotions |
| ProtocolData.UndisturbedRunsAreFaithful | internal/variants/udp/client.go:190-283 | in every undisturbed run each held, cached, resent and sent packet carries the payload generated for its ID |
| ProtocolData.OneIdOnePayload | internal/variants/udp/client.go:190-283 | all datagrams of an ID carry the same data and its hash, and the server accepts no other data for it |
| ProtocolData.PayloadLengthIsTwiceTheId | internal/variants/udp/client.go:171-179 | the length formula always gives twice the ID, up to the packet limit |
| ProtocolProgress.SendsAndLossesBounded | internal/variants/udp/client.go:196-282 | in every run an ID is sent at most once per layer and declared LOST at most once, and never before it was generated |
| ProtocolProgress.RegisterWorks | internal/variants/udp/client.go:203-206 | each registration uses up exactly one unit of the remaining work |
| ProtocolProgress.PromoteWorks | pkg/lru/layer.go:128-141 | so does each promotion that pops something, whichever packet it is |
| ProtocolProgress.ProgressIsBounded | internal/variants/udp/client.go:144-301 | registrations and popping promotions of any run together are at most total * (layers + 1) |
| ProtocolTime.RunsAreOnTime | internal/variants/udp/client.go:203-260 | in every protocol run each layer of the client's cache is sorted by deadline |
| ProtocolTime.DaemonMissesNothing | internal/variants/udp/client.go:256-298 | in every run the scan is empty-handed exactly when nothing pending is overdue, and of what is pending nothing becomes overdue before the deadline the daemon sleeps until, and something right after |
| ProtocolServer.ReleasesCostWorkers | internal/variants/udp/server.go:58-84 | in every run each insert that released anything has blocked a worker for good, so there are never more of them than workers |
| ProtocolServer.HeldBackMeansOutOfTurn | pkg/order/ordered_buffer.go:24-38 | an insert at the server releases nothing if and only if its ID was inserted before or a smaller one is still missing |
| ProtocolServer.AcknowledgedIffOutOfTurn | internal/variants/udp/server.go:163-176 | in every run: the OK for an ID is on the wire, or in the hands of a worker about to send it, if and only if some insert of the ID came out of turn |
| ProtocolServer.AcksAreOutOfTurn | internal/variants/udp/server.go:163-176 | so every ACK answers an insert that came out of turn, and says OK |
| ProtocolServer.InOrderDeliveryIsNeverAcked | internal/variants/udp/server.go:163-176 | a server that gets the packets in order sends no ACK, stops after as many packets as it has workers, and the client prints nothing but LOST |
| ProtocolServer.FirstLineIsLost | internal/variants/udp/server.go:163-176 | unless ID 1 is inserted twice, the first line the client prints is that it was lost |
| ProtocolServer.WedgedForGood | internal/variants/udp/server.go:86-95 | once all workers are blocked the server never changes and never acknowledges again |
| ProtocolServer.OkMeansAccepted | internal/variants/udp/server.go:135-181 | in every run an OK printed or waiting belongs to a packet the server accepted with that ID and a matching hash; no FAIL is printed, every ACK says OK, badChecksum stays 0 |
| ProtocolServer.AcceptedYetUnanswered | internal/variants/udp/server.go:150-176 | in every run an accepted ID has no ACK, sent or about to be, if and only if no insert of it came out of turn; then it was inserted once, the worker that did it is blocked, and any line the client has for it, printed or held back, is LOST |
| ProtocolDedup.RunOnceIff | internal/variants/udp/server.go:150-163 | for every run: at no point has an ID got past the deduplication cache twice if and only if every lookup of an ID that got past before finds it |
| ProtocolDedup.OnceUnlessRacedOrExpired | internal/variants/udp/server.go:150-163 | for every run: no ID gets past the deduplication cache twice if and only if, whenever an ID that got past before is looked up, no other worker is between its lookup and its store of that ID, and the entry is still alive |
| ProtocolDedup.EachIdInsertedOnce | internal/variants/udp/server.go:150-163 | so in every run without such a race or expiry every ID is inserted at most once |
| ProtocolDedup.RaceInsertsTwice | internal/variants/udp/server.go:150-176 | two workers on their way with the same ID both insert it, and the second acknowledges it |
| ProtocolRuns.InsertedTwice | internal/variants/udp/server.go:150-176 | a run from the start, with the program's own settings, in which a packet delivered twice is inserted twice and acknowledged |
| ProtocolDedup.FirstPacketIsReportedLost | internal/variants/udp/server.go:150-176 | and packet 1 is never acknowledged, and the first line printed is that it was lost |
| ProtocolRuns.FirstPacketWedges | internal/variants/udp/server.go:58-74 | such a run in which the first packet is accepted, blocks its worker for good, is not acknowledged, is sent three times and ends as a line saying it was lost |
| ProtocolRuns.ThirtyInOrderStopTheServer | internal/variants/udp/server.go:76-95 | for any number of packets from thirty on: a run of the first thirty, delivered in order, after which all thirty workers are blocked; however it goes on, the server takes and acknowledges nothing more and the client prints nothing but LOST |
| ProtocolRuns.RunReturnsEarly | internal/variants/udp/client.go:103-132 | a run from the start, with the program's own settings, in which Run returns with nothing printed |
| ProtocolRuns.OkBecomesLost | internal/variants/udp/client.go:230-266 | two such runs in which a held-back OK becomes a LOST: with the ACK before the last promotion, and after it |
| ProtocolRuns.EvenUndisturbed | internal/variants/udp/client.go:230-266 | the second of them has no ACK between a peek and its promotion |
| ProtocolCounterexample.ConservationCanFail | internal/variants/udp/client.go:256-260 | a run with the program's own settings in which a registered packet ends up neither pending nor answered nor in hand; however it goes on, nothing at all is printed unless that packet is still acknowledged |
| ProtocolCounterexample.WrongBytesCanBeSent | internal/variants/udp/client.go:273-282 | the same run one step on: a datagram with one packet's ID, another's bytes, and a checksum that fits |
| GeneratorLoop.Generate | internal/variants/udp/client.go:161-209 | a generator sends and keeps exactly its own IDs, once each; when it is done every kept copy equals what was sent for its ID, however often the two shared buffers were refilled |
| UdpClient.Client.GeneratorRound | internal/variants/udp/client.go:171-207 | on the real cache: what goes out parses as the ID's packet, and its data and hash are what enters the first layer |
| UdpClient.Client.AckRound | internal/variants/udp/client.go:216-242 | on the real cache and buffer: fewer than nine bytes are ignored, else the ID leaves every layer, is answered, and what that releases is printed in order |
| UdpClient.Client.DaemonRound | internal/variants/udp/client.go:255-299 | on the real cache and buffer: with nothing overdue it sleeps until the least deadline of all pending entries, and 20 ms if there are none; else the overdue packet itself goes one layer up and out again, or is given up exactly in the last layer |
| UdpClient.SleepMeans | internal/variants/udp/client.go:286-299 | on sorted layers with nothing overdue: a sleep of 20 ms if nothing is pending; else until the least deadline of all entries, or none at all if that has passed |
| UdpClient.RetryMeans | internal/variants/udp/client.go:255-284 | on sorted layers with something overdue: of the lowest layer with an overdue entry the earliest one leaves it, and either stands one layer up with that layer's interval and is sent again under its ID, or is answered LOST |
| UdpClient.AcknowledgedMeans | internal/variants/udp/client.go:216-240 | nine bytes or more: the entries of the ID in the first eight leave all layers, no others do, and OK or FAIL is inserted as the ninth byte is 1 or not |
| UdpClient.StoredMeans | internal/variants/udp/client.go:203-206 | registering adds one entry to the first layer, due one first TTL from now |
| UdpClient.GeneratorRoundIsItsSteps | internal/variants/udp/client.go:190-207 | undisturbed, that round is the protocol's send and registration |
| UdpClient.AckRoundIsItsSteps | internal/variants/udp/client.go:230-240 | for any ACK on the wire and an idle receiver that round, undisturbed, is the protocol's deletion and insertion |
| UdpClient.DaemonRoundIsItsSteps | internal/variants/udp/client.go:256-284 | with nothing but time passing in between, that round is the protocol's peek, promotion, and resend or LOST |
| UdpServer.Server.ProcessMessage | internal/variants/udp/server.go:135-181 | on the real cache and buffer: refuses what does not parse, ignores an ID with a live entry, else remembers and inserts it and answers OK exactly when nothing is released |
| UdpServer.GetThenSet | pkg/lru/cache.go:120-137 | Get hits exactly when there is a live entry, and sweeping an expired one first makes no difference to the Set after it |
| UdpServer.RememberedFor | internal/variants/udp/server.go:150-153 | after a call that let an ID through, a later datagram of that ID is ignored exactly as long as no more than dedupTTL has passed |
| UdpServer.ProcessMessageIsItsSteps | internal/variants/udp/server.go:135-181 | for any packet on the wire and an idle worker that call, undisturbed, is the protocol's five server steps |
| UdpServer.DedupStaysUnique | internal/variants/udp/server.go:150-153 | in every run the deduplication cache holds each ID at most once |
| ServerBuffers.StepKeepsOwners | internal/variants/udp/server.go:86-133 | every step of receiver, queue and workers leaves each buffer with at most one owner |
| ServerBuffers.BuffersConserved | internal/variants/udp/server.go:110-130 | no step loses a buffer: only the pool's New adds one and only the garbage collector takes one away |
| ServerBuffers.BuffersRefineCopies | internal/variants/udp/server.go:86-133 | for any number of workers and any interleaving, sharing and reusing buffers cannot be told from copying every datagram |
| ServerDelivery.DatagramsDelivered | internal/variants/udp/server.go:86-133 | in every run the queue holds the datagrams that entered it and were not taken yet, in order of arrival, each whole or cut to a buffer; each busy worker has a taken one of its own, and sees the packet parsed from it |
| ServerDelivery.TakenIsParsed | internal/variants/udp/server.go:86-149 | in every run a worker that took a datagram no longer than a buffer gets exactly the packet in it, or is free again if there is none |
| ServerDelivery.OneMoreDatagram | internal/variants/udp/server.go:86-133 | from every state with an idle receiver, an empty queue and a free worker: any datagram that fits gets through to that worker, passes its second check, and leaves the buffer in the pool |
| ServerDelivery.ReceiverIsNeverStuck | internal/variants/udp/server.go:102-133 | in every run the receiver can go on with any pooled or new buffer and any datagram, and enqueues if there is room and discards if not |
| ServerDelivery.WorkersAreNeverStuck | internal/variants/udp/server.go:86-95 | in every run any free worker can take the oldest job, and every worker can go through to its end |
| ServerBuffers.PacketsStayPut | pkg/packet/serialize.go:89-120 | the packet a worker has parsed into slices of its buffer stays the same until it is done, and re-checking the hash never fails |
| WorkerPool.AcceptedTasksConserved | pkg/workerpool/workerpool.go:60-87 | in every run the accepted tasks are the queued, the running and the executed ones, each as often; the queue keeps within its capacity |
| WorkerPool.CloseDrains | pkg/workerpool/workerpool.go:90-125 | when Close returns because the workers are done, every accepted task has been executed exactly as often as it was accepted, and the result is the first failure, nil exactly when there was none |
| PoolOrder.TasksStartInOrder | pkg/workerpool/workerpool.go:60-87 | in every run what was started, followed by what is queued, is what was accepted, in that order |
| PoolOrder.CloseCanReturn | pkg/workerpool/workerpool.go:90-125 | from every state of every run without panic or time-out, Close and the workers can be scheduled so that it returns |
| PoolOrder.NobodyIsStuck | pkg/workerpool/workerpool.go:43-125 | submissions, workers and Close can go on exactly, or at least, where the code lets them: any idle worker takes a task, Submit is refused exactly from Close on |
| PoolOrder.PanicEndsTheRun | pkg/workerpool/workerpool.go:60-80 | a send that meets the closed channel ends the program |
| WorkerPool.OneMoreTask | pkg/workerpool/workerpool.go:35-87 | whatever sizes are asked for, non-positive ones included: from every state of every run before Close, one more task can be submitted, accepted and executed, and everything accepted before it is executed as well |
| Pregen.LoopsAgreeIff | pkg/pregen/pregen.go:25-68 | the two sizing loops agree if and only if every payload fits its 32-bit length field |
| Pregen.PlannedLength | pkg/pregen/pregen.go:28-31 | the planned lengths count up from one to the limit less one, then give a single byte, and begin again |
| Pregen.SlotPacket | pkg/pregen/pregen.go:41-68 | a slot parses to its own ID, with as many data bytes as the ID says below the limit, one at the limit, and as many as the ID less the limit beyond |
| Pregen.Init | pkg/pregen/pregen.go:18-69 | slice i deserialises to ID i + 1 with the planned length, or is empty if its payload is too long to serialise; the slices follow one another without gap or overlap, and fill the arena for every limit up to 2^32 and every total below it |
| Pregen.SerializeNext | pkg/pregen/pregen.go:41-59 | whatever can be serialised at all comes back in the shared buffer that Init allocated: it never needs to grow |

## Left out

- ProtocolConservation.UndisturbedRunsConserve: claimed for runs in which no ACK falls between a peek and the promotion of the same ID; for all runs `RunConservesIff` has the exact condition, and `ConservationCanFail` a run that fails it.
- ProtocolConservation.DrainedOutput: with at least one generator, since the code with none registers nothing and prints nothing.
- ProtocolDrain.EveryDaemonRun: counts moves, not time; that the daemon is scheduled and the clock moves on is up to the Go runtime.
- ProtocolTime.DaemonMissesNothing: speaks of what is pending when the daemon looks; a packet registered while it sleeps may be due earlier, so nothing is claimed about punctuality.
- ProtocolSteps.RunsKeep: assumes TotalPackets plus workers below 2^64, so that IDs do not wrap, a packet limit that fits the 32-bit length field, and a 64-bit `int`.
- UdpClient.Client.DaemonRound: one call is the round with no other goroutine in between; interleavings are the business of `Protocol`.
- UdpServer.Server.ProcessMessage: the same; a reply of `Blocked` stands for a call that never returns.
- Backoff.ExponentialBackoff.Next: real arithmetic cut to whole ticks; the rounding and overflow of float64 and int64 are not modelled, nor is the linear strategy.
- Pregen.Init: for maxDataSize of at least 1 and a non-negative total; with 0 the code divides by zero, and with negative sizes it panics.
- FecClient.PadAndSplit: for a positive shard count, as the division demands; shards are values, so the sharing of the data shards between input and result is not visible, nor is the capacity given to their allocation, which panics for shards longer than the packet limit and 256 bytes.
- PacketCodec.Packet.SerializeTo: Data and Extra are values; a caller passing a buffer that overlaps them is not modelled. Timestamps are nanoseconds that fit in 64 bits.
- WorkerPool.CloseDrains: for the return through `done`; a Close that times out promises nothing, and a Submit that meets the closed channel panics and ends the run.
- LruCache.Cache.FinalizerWorkerStep: one worker's round at a time; how several of them interleave in the finalizer itself is not modelled.
- ServerBuffers.BuffersRefineCopies: the `outputCh` block is not part of that machine; a worker blocked there simply keeps its buffer.
- Order and Ring: counters wrap at 2^64 in the code and are unbounded here.
- `LayerCache.Close`, `Cache.Close` and what happens after it: sending on a closed channel ends the program.
- Sending pre-generated packets and bench mode, which bypass the cache; `Shutdown` and the stop channels.
- The counters' use in log lines, the text of printed lines, and the order in which two goroutines print what `Insert` returned to them: order is claimed for the sequence of `Insert` calls.
- Forged datagrams and ACKs: the network of `Protocol` only delivers what was sent.
- The udp-fec server, which acknowledges on shard 0 alone and never calls Recover; of its client only splitting, framing and sending.
- QUIC, SCTP, `pkg/network`, Reed-Solomon, `zeroalloc`, configuration, logging, metrics, `cmd` and `pkg/shutdown`: sockets, libraries, or easy members.
